/**
 * What the views emit on the shared dispatcher. Only the emitting side is
 * modelled: the handlers that receive these events are not part of this model.
 */
module Events {
  import opened Wrappers
  import opened Records

  datatype Emission =
    /** `selectPass`: add (`selecting`) or remove a password from the selection. */
    | SelectPass(password: string, selecting: bool)
    /** `filterPasswordType`: the box plot's clicked type (None clears it) and country. */
    | FilterPasswordType(clicked: Option<PasswordType>, country: string)
    /** `countrySelect`: the name of the clicked map feature. */
    | CountrySelect(name: string)

  /**
   * Clicking the mark of `password`: ask to deselect it when the view's list of
   * selected passwords includes it, to select it otherwise.
   */
  function SelectPassOnClick(password: string, selected: seq<string>): (e: Emission)
    ensures e.SelectPass? && e.password == password
    ensures e.selecting <==> password !in selected
  {
    if password in selected then SelectPass(password, false) else SelectPass(password, true)
  }

  /**
   * Once the selection reflects a click's request, the next click on the same
   * mark asks for the opposite.
   */
  lemma SelectPassTwiceUndoes(password: string, selected: seq<string>, after: seq<string>)
    requires (password in after) == SelectPassOnClick(password, selected).selecting
    ensures SelectPassOnClick(password, after).selecting == !SelectPassOnClick(password, selected).selecting
  {
  }
}
