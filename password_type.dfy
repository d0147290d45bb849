/**
 * The password classifier of js/main.js and the load-time derivation that
 * stores its verdict in every record.
 */
module PasswordTypes {
  import opened Wrappers
  import opened Records

  /** The value of JavaScript's `Number(c)` for a one-character string: NaN or an integer. */
  datatype JsNumber = NaN | Num(value: int)

  /** The characters JavaScript's string-to-number conversion trims (white space and line terminators). */
  predicate IsJsWhiteSpace(c: char)
  {
    var u := c as int;
    u in {0x09, 0x0A, 0x0B, 0x0C, 0x0D, 0x20, 0xA0, 0x1680, 0x2028, 0x2029, 0x202F, 0x205F, 0x3000, 0xFEFF}
    || 0x2000 <= u <= 0x200A
  }

  /** `Number(c)`: a decimal digit gives its value, white space gives 0, anything else NaN. */
  function JsNumberOfChar(c: char): (n: JsNumber)
    ensures n.Num? <==> '0' <= c <= '9' || IsJsWhiteSpace(c)
    ensures n.Num? ==> 0 <= n.value <= 9
    ensures n == Num(0) <==> c == '0' || IsJsWhiteSpace(c)
  {
    if '0' <= c <= '9' then Num(c as int - '0' as int)
    else if IsJsWhiteSpace(c) then Num(0)
    else NaN
  }

  /** JavaScript truthiness of a number: NaN and 0 are falsy. */
  predicate Truthy(n: JsNumber)
  {
    n.Num? && n.value != 0
  }

  /** The classifier's test `if (Number(char))`: does `c` count as a number? */
  predicate CountsAsNumber(c: char)
  {
    Truthy(JsNumberOfChar(c))
  }

  /** Exactly '1' to '9' count as numbers; '0', white space and every other character do not. */
  lemma CountsAsNumberIffOneToNine(c: char)
    ensures CountsAsNumber(c) <==> '1' <= c <= '9'
  {
  }

  /** Some character of `s` counts as a number (the final value of `hasNumber`). */
  predicate HasNumber(s: string)
  {
    exists i :: 0 <= i < |s| && CountsAsNumber(s[i])
  }

  /** Some character of `s` does not count as a number (the final value of `hasLetter`). */
  predicate HasLetter(s: string)
  {
    exists i :: 0 <= i < |s| && !CountsAsNumber(s[i])
  }

  /** The verdict the classifier draws from its two flags. */
  function Verdict(hasLetter: bool, hasNumber: bool): PasswordType
  {
    if hasLetter && hasNumber then Mixed
    else if hasLetter then Alphabetical
    else Numerical
  }

  /** The category of a password, as a function of what it contains. */
  function Classify(password: string): PasswordType
  {
    Verdict(HasLetter(password), HasNumber(password))
  }

  /**
   * determinePasswordType: one left-to-right scan that sets `hasNumber` or
   * `hasLetter` per character and returns MIXED as soon as both are set.
   */
  method DeterminePasswordType(password: string) returns (t: PasswordType)
    ensures t == Classify(password)
  {
    var hasLetter := false;
    var hasNumber := false;
    var i := 0;
    while i < |password|
      invariant 0 <= i <= |password|
      invariant hasLetter == HasLetter(password[..i])
      invariant hasNumber == HasNumber(password[..i])
      invariant !(hasLetter && hasNumber)
    {
      var isNum := JsNumberOfChar(password[i]);
      assert password[..i + 1][i] == password[i];
      assert forall j :: 0 <= j < i ==> password[..i + 1][j] == password[..i][j];
      if Truthy(isNum) {
        hasNumber := true;
      } else {
        hasLetter := true;
      }
      if hasLetter && hasNumber {
        PrefixFlags(password, i + 1);
        return Mixed;
      }
      i := i + 1;
    }
    assert password[..i] == password;
    if hasLetter {
      return Alphabetical;
    } else {
      return Numerical;
    }
  }

  /** A flag already set by a prefix stays set for the whole password. */
  lemma PrefixFlags(s: string, n: nat)
    requires n <= |s|
    ensures HasLetter(s[..n]) ==> HasLetter(s)
    ensures HasNumber(s[..n]) ==> HasNumber(s)
  {
    if HasLetter(s[..n]) {
      var j :| 0 <= j < n && !CountsAsNumber(s[..n][j]);
      assert s[j] == s[..n][j];
    }
    if HasNumber(s[..n]) {
      var j :| 0 <= j < n && CountsAsNumber(s[..n][j]);
      assert s[j] == s[..n][j];
    }
  }

  /** The flags after scanning all of `s` without returning early. */
  function ScanFlags(s: string): (flags: (bool, bool))
  {
    if s == [] then (false, false)
    else
      var rest := ScanFlags(s[..|s| - 1]);
      if CountsAsNumber(s[|s| - 1]) then (rest.0, true) else (true, rest.1)
  }

  /** A full scan ends with `hasLetter` and `hasNumber` telling what the password contains. */
  lemma {:induction false} ScanFlagsMeaning(s: string)
    ensures ScanFlags(s) == (HasLetter(s), HasNumber(s))
  {
    if s != [] {
      var p := s[..|s| - 1];
      ScanFlagsMeaning(p);
      assert forall j :: 0 <= j < |p| ==> p[j] == s[j];
      if HasLetter(s) && !CountsAsNumber(s[|s| - 1]) {
        assert ScanFlags(s).0;
      } else if HasLetter(s) {
        var j :| 0 <= j < |s| && !CountsAsNumber(s[j]);
        assert j < |p| && !CountsAsNumber(p[j]);
      }
      if HasNumber(s) && !CountsAsNumber(s[|s| - 1]) {
        var j :| 0 <= j < |s| && CountsAsNumber(s[j]);
        assert j < |p| && CountsAsNumber(p[j]);
      }
    }
  }

  /** Returning MIXED early gives the same answer as finishing the scan and deciding from both flags. */
  lemma EarlyReturnMatchesFullScan(password: string)
    ensures Classify(password) == Verdict(ScanFlags(password).0, ScanFlags(password).1)
  {
    ScanFlagsMeaning(password);
  }

  /**
   * MIXED iff the password has a '1'..'9' and some other character; NUMERICAL iff
   * every character is '1'..'9' (the empty password included); ALPHABETICAL iff
   * it is non-empty and has no '1'..'9'.
   */
  lemma ClassifyCharacterization(p: string)
    ensures Classify(p) == Mixed <==>
              (exists i :: 0 <= i < |p| && '1' <= p[i] <= '9') && (exists j :: 0 <= j < |p| && !('1' <= p[j] <= '9'))
    ensures Classify(p) == Numerical <==> forall i :: 0 <= i < |p| ==> '1' <= p[i] <= '9'
    ensures Classify(p) == Alphabetical <==> |p| > 0 && forall i :: 0 <= i < |p| ==> !('1' <= p[i] <= '9')
  {
    if Classify(p) == Alphabetical {
      var j :| 0 <= j < |p| && !CountsAsNumber(p[j]);
      assert |p| > 0;
    }
    if |p| > 0 && forall i :: 0 <= i < |p| ==> !('1' <= p[i] <= '9') {
      assert !CountsAsNumber(p[0]);
    }
  }

  /** The edge cases the counting rule produces. */
  lemma ClassifyExamples()
    ensures Classify("") == Numerical
    ensures Classify("000000") == Alphabetical
    ensures Classify("123456") == Numerical
    ensures Classify("password") == Alphabetical
    ensures Classify("12 34") == Mixed
    ensures Classify("1000") == Mixed
  {
    assert !CountsAsNumber("000000"[0]);
    assert forall i :: 0 <= i < |"123456"| ==> CountsAsNumber("123456"[i]);
    assert !CountsAsNumber("password"[0]);
    assert CountsAsNumber("12 34"[0]) && !CountsAsNumber("12 34"[2]);
    assert CountsAsNumber("1000"[0]) && !CountsAsNumber("1000"[1]);
  }

  /** The classifier always returns one of the three labels. */
  lemma ClassifyLabels(p: string)
    ensures Label(Classify(p)) in {"ALPHABETICAL", "NUMERICAL", "MIXED"}
  {
  }

  /** The record as the loader leaves it: crack-time text deleted, password type derived. */
  function Derived(r: Record): Record
  {
    r.(timeToCrack := None, passwordType := Some(Classify(r.password)))
  }

  /**
   * The loader's `forEach`: deletes `Time_to_crack` from each record and stores
   * the password type, record by record, in place.
   */
  method DeriveRecords(data: array<Record>)
    modifies data
    ensures forall i :: 0 <= i < data.Length ==> data[i] == Derived(old(data[i]))
    ensures forall i :: 0 <= i < data.Length ==> data[i].passwordType == Some(Classify(data[i].password))
  {
    for i := 0 to data.Length
      invariant forall k :: 0 <= k < i ==> data[k] == Derived(old(data[k]))
      invariant forall k :: i <= k < data.Length ==> data[k] == old(data[k])
    {
      var d := data[i];
      d := d.(timeToCrack := None);
      var t := DeterminePasswordType(d.password);
      d := d.(passwordType := Some(t));
      data[i] := d;
    }
  }
}
