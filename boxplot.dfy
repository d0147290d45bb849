/**
 * The user-count box plot of js/boxplot.js: one box per password type for the
 * selected country, and a click toggle that picks a type filter.
 */
module BoxplotView {
  import opened Wrappers
  import opened Records
  import opened Events
  import Seqs

  /** The country the box plot starts with. */
  const InitialCountry: string := "Canada"

  /** The summary of one box; the quartiles are not part of this model. */
  datatype Stats = Stats(passwordType: PasswordType, min: int, max: int)

  /** The least user count of a non-empty group (d3.min). */
  function MinUserCount(s: seq<Record>): (m: int)
    requires |s| > 0
    ensures forall i :: 0 <= i < |s| ==> m <= s[i].userCount
    ensures exists i :: 0 <= i < |s| && s[i].userCount == m
  {
    if |s| == 1 then s[0].userCount
    else
      var rest := MinUserCount(s[1..]);
      if s[0].userCount <= rest then s[0].userCount else rest
  }

  /** The greatest user count of a non-empty group (d3.max). */
  function MaxUserCount(s: seq<Record>): (m: int)
    requires |s| > 0
    ensures forall i :: 0 <= i < |s| ==> s[i].userCount <= m
    ensures exists i :: 0 <= i < |s| && s[i].userCount == m
  {
    if |s| == 1 then s[0].userCount
    else
      var rest := MaxUserCount(s[1..]);
      if s[0].userCount >= rest then s[0].userCount else rest
  }

  /** User counts are nondecreasing along `s`. */
  ghost predicate SortedByUserCount(s: seq<Record>)
  {
    forall i, j :: 0 <= i < j < |s| ==> s[i].userCount <= s[j].userCount
  }

  /** After the sort, the least and greatest user counts are those of the first and last record. */
  lemma SortedMinMax(s: seq<Record>)
    requires |s| > 0 && SortedByUserCount(s)
    ensures MinUserCount(s) == s[0].userCount
    ensures MaxUserCount(s) == s[|s| - 1].userCount
  {
    var m := MinUserCount(s);
    var i :| 0 <= i < |s| && s[i].userCount == m;
    var n := MaxUserCount(s);
    var j :| 0 <= j < |s| && s[j].userCount == n;
    if i > 0 {
      assert s[0].userCount <= s[i].userCount;
    }
    if j < |s| - 1 {
      assert s[j].userCount <= s[|s| - 1].userCount;
    }
  }

  /** Reordering a group changes neither its least nor its greatest user count. */
  lemma MinMaxOfPermutation(s: seq<Record>, t: seq<Record>)
    requires |s| > 0 && multiset(s) == multiset(t)
    ensures |t| > 0
    ensures MinUserCount(s) == MinUserCount(t) && MaxUserCount(s) == MaxUserCount(t)
  {
    assert |t| == |multiset(t)| == |multiset(s)| == |s|;
    forall x | x in t ensures MinUserCount(s) <= x.userCount <= MaxUserCount(s) {
      assert x in multiset(t);
      var i :| 0 <= i < |s| && s[i] == x;
    }
    forall x | x in s ensures MinUserCount(t) <= x.userCount <= MaxUserCount(t) {
      assert x in multiset(s);
      var i :| 0 <= i < |t| && t[i] == x;
    }
    var i :| 0 <= i < |s| && s[i].userCount == MinUserCount(s);
    var j :| 0 <= j < |t| && t[j].userCount == MinUserCount(t);
    assert s[i] in s && t[j] in t;
    var k :| 0 <= k < |s| && s[k].userCount == MaxUserCount(s);
    var l :| 0 <= l < |t| && t[l].userCount == MaxUserCount(t);
    assert s[k] in s && t[l] in t;
  }

  /** Exchanges two cells of `a`. */
  method Swap(a: array<Record>, i: nat, j: nat)
    requires i < a.Length && j < a.Length
    modifies a
    ensures a[..] == old(a[..])[i := old(a[j])][j := old(a[i])]
    ensures multiset(a[..]) == multiset(old(a[..]))
  {
    a[i], a[j] := a[j], a[i];
  }

  /**
   * One pass of the insertion sort: with a[..i] ordered, moves a[i] left past
   * every record with a greater user count, leaving a[..i + 1] ordered.
   */
  method InsertAt(a: array<Record>, i: nat)
    requires i < a.Length && SortedByUserCount(a[..i])
    modifies a
    ensures SortedByUserCount(a[..i + 1])
    ensures multiset(a[..]) == multiset(old(a[..]))
  {
    var j := i;
    while j > 0 && a[j - 1].userCount > a[j].userCount
      invariant 0 <= j <= i
      invariant multiset(a[..]) == multiset(old(a[..]))
      invariant forall p, q :: 0 <= p < q <= i && p != j && q != j ==> a[p].userCount <= a[q].userCount
      invariant forall q :: j < q <= i ==> a[j].userCount < a[q].userCount
    {
      Swap(a, j - 1, j);
      j := j - 1;
    }
  }

  /**
   * `data.sort((a, b) => a.User_count - b.User_count)`: an insertion sort that
   * orders the group in place by user count.
   */
  method SortByUserCount(a: array<Record>)
    modifies a
    ensures SortedByUserCount(a[..])
    ensures multiset(a[..]) == multiset(old(a[..]))
  {
    for i := 0 to a.Length
      invariant SortedByUserCount(a[..i])
      invariant multiset(a[..]) == multiset(old(a[..]))
    {
      InsertAt(a, i);
    }
    assert a[..a.Length] == a[..];
  }

  /** Every password type has at least one record among `records`. */
  predicate HasAllTypes(records: seq<Record>)
  {
    && |Select(records, TypeIs(Numerical))| > 0
    && |Select(records, TypeIs(Alphabetical))| > 0
    && |Select(records, TypeIs(Mixed))| > 0
  }

  /** The summary updateVis pushes for the type-t records of `filtered`. */
  function StatsOf(filtered: seq<Record>, t: PasswordType): (st: Stats)
    requires |Select(filtered, TypeIs(t))| > 0
    ensures st.passwordType == t
    ensures st.min <= st.max
  {
    var g := Select(filtered, TypeIs(t));
    Stats(t, MinUserCount(g), MaxUserCount(g))
  }

  /** The view object: the records, the selected country and the summaries of the last update. */
  class Boxplot {
    var data: seq<Record>
    var selectedCountry: string
    var filteredData: seq<Record>
    var sumStats: seq<Stats>

    /** Construction runs updateVis for the initial country. */
    constructor(data: seq<Record>)
      requires HasAllTypes(Select(data, CountryIs(InitialCountry)))
      ensures this.data == data && selectedCountry == InitialCountry
      ensures filteredData == Select(data, CountryIs(InitialCountry))
      ensures sumStats == [StatsOf(filteredData, Numerical), StatsOf(filteredData, Alphabetical), StatsOf(filteredData, Mixed)]
    {
      this.data := data;
      selectedCountry := InitialCountry;
      filteredData := [];
      sumStats := [];
      new;
      UpdateVis();
    }

    /**
     * calcStats: sorts the group in place by user count and appends its
     * summary to `sumStats`.
     */
    method CalcStats(group: array<Record>, t: PasswordType)
      requires group.Length > 0
      modifies this, group
      ensures SortedByUserCount(group[..])
      ensures multiset(group[..]) == multiset(old(group[..]))
      ensures sumStats == old(sumStats) + [Stats(t, MinUserCount(old(group[..])), MaxUserCount(old(group[..])))]
      ensures data == old(data) && selectedCountry == old(selectedCountry) && filteredData == old(filteredData)
    {
      ghost var before := group[..];
      SortByUserCount(group);
      var min := MinUserCount(group[..]);
      var max := MaxUserCount(group[..]);
      MinMaxOfPermutation(before, group[..]);
      sumStats := sumStats + [Stats(t, min, max)];
    }

    /**
     * updateVis: resets the summaries, keeps the records of the selected
     * country and summarises the NUMERICAL, ALPHABETICAL and MIXED groups, in
     * that order. A type with no record makes the source fail, hence the
     * precondition.
     */
    method UpdateVis()
      requires HasAllTypes(Select(data, CountryIs(selectedCountry)))
      modifies this
      ensures data == old(data) && selectedCountry == old(selectedCountry)
      ensures filteredData == Select(data, CountryIs(selectedCountry))
      ensures sumStats == [StatsOf(filteredData, Numerical), StatsOf(filteredData, Alphabetical), StatsOf(filteredData, Mixed)]
    {
      sumStats := [];
      filteredData := Select(data, CountryIs(selectedCountry));
      SummarizeGroup(Numerical);
      SummarizeGroup(Alphabetical);
      SummarizeGroup(Mixed);
    }

    /** `calcStats(groupedPasswordData.get(t), t)`: summarises d3.group's fresh array of the type-t records. */
    method SummarizeGroup(t: PasswordType)
      requires |Select(filteredData, TypeIs(t))| > 0
      modifies this
      ensures data == old(data) && selectedCountry == old(selectedCountry) && filteredData == old(filteredData)
      ensures sumStats == old(sumStats) + [StatsOf(filteredData, t)]
    {
      var group := Seqs.ToArray(Select(filteredData, TypeIs(t)));
      CalcStats(group, t);
    }
  }

  /** After updateVis the three boxes are NUMERICAL, ALPHABETICAL and MIXED, each bounded by its group's extremes. */
  lemma SumStatsOrder(filtered: seq<Record>, i: nat, r: Record)
    requires HasAllTypes(filtered) && i < 3
    requires r in filtered && r.passwordType.Some?
    ensures var stats := [StatsOf(filtered, Numerical), StatsOf(filtered, Alphabetical), StatsOf(filtered, Mixed)];
            stats[i].passwordType == [Numerical, Alphabetical, Mixed][i]
            && (r.passwordType == Some(stats[i].passwordType) ==> stats[i].min <= r.userCount <= stats[i].max)
  {
    var t := [Numerical, Alphabetical, Mixed][i];
    if r.passwordType == Some(t) {
      SelectMembership(filtered, TypeIs(t), r);
      var g := Select(filtered, TypeIs(t));
      var k :| 0 <= k < |g| && g[k] == r;
    }
  }

  /** The fill of a box. */
  datatype BoxFill = DefaultBoxFill | HighlightBoxFill

  function BoxColor(f: BoxFill): string
  {
    match f
    case DefaultBoxFill => "#E5B5D8"
    case HighlightBoxFill => "#FFCC00"
  }

  /** The clicked type after a click on box t: clicking the clicked box clears it, any other box takes over. */
  function NextClicked(clicked: Option<PasswordType>, t: PasswordType): (next: Option<PasswordType>)
    ensures next == None <==> clicked == Some(t)
    ensures next != None ==> next == Some(t)
  {
    if clicked == Some(t) then None else Some(t)
  }

  /**
   * Toggle laws: from nothing a click selects, a second click on the same box
   * clears, a click on another box replaces; two clicks on one box return to
   * nothing unless that box was already the clicked one.
   */
  lemma NextClickedLaws(c: Option<PasswordType>, t: PasswordType, u: PasswordType)
    ensures NextClicked(None, t) == Some(t)
    ensures NextClicked(Some(t), t) == None
    ensures u != t ==> NextClicked(Some(u), t) == Some(t)
    ensures NextClicked(NextClicked(c, t), t) == if c == Some(t) then Some(t) else None
    ensures NextClicked(NextClicked(c, t), u) == if u == t && c != Some(t) then None else Some(u)
  {
  }

  /**
   * The box interaction state of one renderVis: the captured `clicked`
   * variable, which every render starts afresh, and the fill of each box.
   */
  class BoxSelection {
    var clicked: Option<PasswordType>
    var fills: map<PasswordType, BoxFill>

    ghost predicate Valid()
      reads this
    {
      forall t: PasswordType :: t in fills
    }

    /** renderVis draws every box in the default fill with nothing clicked. */
    constructor()
      ensures Valid() && clicked == None
      ensures forall t :: fills[t] == DefaultBoxFill && BoxColor(fills[t]) == "#E5B5D8"
    {
      clicked := None;
      fills := map[Numerical := DefaultBoxFill, Alphabetical := DefaultBoxFill, Mixed := DefaultBoxFill];
      new;
      forall t: PasswordType ensures t in fills && fills[t] == DefaultBoxFill {
        assert t == Numerical || t == Alphabetical || t == Mixed;
      }
    }

    /** Box mousemove: the box under the pointer is highlighted. */
    method MouseMove(t: PasswordType)
      requires Valid()
      modifies this`fills
      ensures Valid() && fills == old(fills)[t := HighlightBoxFill]
      ensures BoxColor(fills[t]) == "#FFCC00"
    {
      fills := fills[t := HighlightBoxFill];
    }

    /** Box mouseleave: the box gets its default fill back unless it is the clicked one. */
    method MouseLeave(t: PasswordType)
      requires Valid()
      modifies this`fills
      ensures Valid()
      ensures fills == if clicked == Some(t) then old(fills) else old(fills)[t := DefaultBoxFill]
      ensures clicked == Some(t) ==> fills[t] == old(fills)[t]
      ensures clicked != Some(t) ==> BoxColor(fills[t]) == "#E5B5D8"
    {
      if clicked != Some(t) {
        fills := fills[t := DefaultBoxFill];
      }
    }

    /**
     * Box click: toggles `clicked`, moves the highlight from a previously
     * clicked other box to this one, and emits `filterPasswordType` with the
     * new `clicked` and the country.
     */
    method Click(t: PasswordType, country: string) returns (e: Emission)
      requires Valid()
      modifies this
      ensures Valid()
      ensures clicked == NextClicked(old(clicked), t)
      ensures e == FilterPasswordType(clicked, country)
      ensures fills == if old(clicked).Some? && old(clicked) != Some(t)
                       then old(fills)[old(clicked).value := DefaultBoxFill][t := HighlightBoxFill]
                       else old(fills)
      ensures old(clicked).Some? && old(clicked) != Some(t)
              ==> BoxColor(fills[old(clicked).value]) == "#E5B5D8" && BoxColor(fills[t]) == "#FFCC00"
    {
      if clicked.Some? {
        if clicked.value != t {
          fills := fills[clicked.value := DefaultBoxFill];
          fills := fills[t := HighlightBoxFill];
          clicked := Some(t);
        } else {
          clicked := None;
        }
      } else {
        clicked := Some(t);
      }
      e := FilterPasswordType(clicked, country);
    }
  }
}
