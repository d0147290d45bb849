/**
 * The top-N ranking of js/lollipop.js: one dot per password of the selected
 * country up to a rank limit, optionally in reverse order.
 */
module LollipopView {
  import opened Wrappers
  import opened Records
  import Seqs
  import BeeswarmView

  const SelectedDotRadius: string := "5"
  const DefaultDotRadius: string := "3"
  const SelectedDotFill: string := "#FFD700"
  const DefaultDotFill: string := "#E7A0D4"

  /** `_config.reverseOrder || false`: the caller's setting when it gave one, false otherwise. */
  function ReverseOrderSetting(configured: Option<bool>): (reverse: bool)
    ensures configured == None ==> !reverse
    ensures configured.Some? ==> reverse == configured.value
  {
    configured.GetOr(false)
  }

  /** The records the chart shows: the country's records with rank at most `rankFilter`, possibly reversed. */
  function Visible(fulldata: seq<Record>, country: string, rankFilter: int, reverse: bool): (shown: seq<Record>)
    ensures |shown| <= |fulldata|
    ensures forall i :: 0 <= i < |shown| ==> shown[i].country == country && shown[i].rank <= rankFilter
  {
    var kept := Select(fulldata, CountryAndRankAtMost(country, rankFilter));
    if reverse then Seqs.Reversed(kept) else kept
  }

  /**
   * Whatever the order, the chart shows exactly the records of the country
   * with rank at most the limit, each as often as it occurs in `fulldata`.
   */
  lemma VisibleExactlyMatching(fulldata: seq<Record>, country: string, rankFilter: int, reverse: bool, x: Record)
    ensures multiset(Visible(fulldata, country, rankFilter, reverse))[x]
            == if x.country == country && x.rank <= rankFilter then multiset(fulldata)[x] else 0
  {
    var kept := Select(fulldata, CountryAndRankAtMost(country, rankFilter));
    SelectCount(fulldata, CountryAndRankAtMost(country, rankFilter), x);
    Seqs.ReversedMultiset(kept);
  }

  /** Reversing the order shows the same records, last first. */
  lemma ReverseFlipsOrder(fulldata: seq<Record>, country: string, rankFilter: int, k: nat)
    requires k < |Visible(fulldata, country, rankFilter, false)|
    ensures var up := Visible(fulldata, country, rankFilter, false);
            var down := Visible(fulldata, country, rankFilter, true);
            |down| == |up| && down[k] == up[|up| - 1 - k]
  {
  }

  /** The y-scale domain: the passwords of the shown records, in the same order. */
  function YDomain(data: seq<Record>): (domain: seq<string>)
    ensures |domain| == |data|
    ensures forall i :: 0 <= i < |data| ==> domain[i] == data[i].password
  {
    seq(|data|, i requires 0 <= i < |data| => data[i].password)
  }

  /** Reversing the records reverses the y-domain. */
  lemma YDomainReversed(data: seq<Record>)
    ensures YDomain(Seqs.Reversed(data)) == Seqs.Reversed(YDomain(data))
  {
    assert forall k :: 0 <= k < |data| ==> YDomain(Seqs.Reversed(data))[k] == Seqs.Reversed(YDomain(data))[k];
  }

  /** The radius of a dot: larger for a selected password. */
  function DotRadius(password: string, selected: seq<string>): (r: string)
    ensures r == SelectedDotRadius <==> password in selected
  {
    if password in selected then SelectedDotRadius else DefaultDotRadius
  }

  /** The fill of a dot: gold for a selected password. */
  function DotFill(password: string, selected: seq<string>): (fill: string)
    ensures fill == SelectedDotFill <==> password in selected
  {
    if password in selected then SelectedDotFill else DefaultDotFill
  }

  /**
   * A selected password gets radius 5 and the same gold as in the beeswarm,
   * any other radius 3 and pink; so a dot's look tells whether it is selected.
   */
  lemma DotStyleBySelection(password: string, selected: seq<string>)
    ensures password in selected ==> DotRadius(password, selected) == "5" && DotFill(password, selected) == BeeswarmView.SelectedPointFill
    ensures password !in selected ==> DotRadius(password, selected) == "3" && DotFill(password, selected) == "#E7A0D4"
  {
  }

  /** The view object: the full table, the shown slice and the selection. */
  class Lollipop {
    const fulldata: array<Record>
    var data: array<Record>
    const reverseOrder: bool
    var selectedCountry: string
    var selectedPasswords: seq<string>

    /**
     * Construction: `data` and `fulldata` start as the same array, then
     * updateVis replaces `data` with the filtered copy.
     */
    constructor(full: array<Record>, configuredReverse: Option<bool>, country: string, rankFilter: int)
      ensures fulldata == full && full[..] == old(full[..])
      ensures reverseOrder == ReverseOrderSetting(configuredReverse)
      ensures selectedCountry == country && selectedPasswords == []
      ensures fresh(data) && data[..] == Visible(full[..], country, rankFilter, reverseOrder)
    {
      fulldata := full;
      data := full;
      reverseOrder := ReverseOrderSetting(configuredReverse);
      selectedCountry := country;
      selectedPasswords := [];
      new;
      UpdateVis(rankFilter);
    }

    /**
     * updateVis: filters `fulldata` into a fresh array and reverses that copy in
     * place when `reverseOrder` is set; `fulldata` is left as it was.
     */
    method UpdateVis(rankFilter: int)
      modifies this
      ensures fresh(data) && data != fulldata
      ensures fulldata[..] == old(fulldata[..])
      ensures data[..] == Visible(fulldata[..], selectedCountry, rankFilter, reverseOrder)
      ensures selectedCountry == old(selectedCountry) && selectedPasswords == old(selectedPasswords)
    {
      data := Seqs.ToArray(Select(fulldata[..], CountryAndRankAtMost(selectedCountry, rankFilter)));
      if reverseOrder {
        Seqs.ReverseInPlace(data);
      }
    }
  }
}
