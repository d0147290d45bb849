/**
 * The binned-swarm packing shared by js/beeswarm.js and js/histogram.js
 * (`generatePointCoordinates` and the `dataForPoints` flattening), with the
 * point spacing, the x offset and the chart height as parameters.
 */
module SwarmLayout {

  /**
   * One instance of the layout: the distance between neighbouring points, the
   * gap between a bin's left edge and its first column, and the chart height.
   */
  datatype Params = Params(spacing: nat, offset: int, height: int)

  /** The margin both views keep below the lowest point (the `- 5` in the source). */
  const BottomMargin: int := 5

  /**
   * A bin as the layout sees it: `left` and `right` stand for the scaled edges
   * `xScale(x0)` and `xScale(x1)`, `members` for the bin's records in order.
   */
  datatype Bin<R> = Bin(left: int, right: int, members: seq<R>)

  /** A record with the `x` and `y` the layout wrote into it. */
  datatype Point<R> = Point(rec: R, x: int, y: int)

  /**
   * The number of points a column holds: the least r >= 1 with
   * spacing * r >= height - 5, which is when the row counter wraps.
   */
  function ColumnHeight(p: Params): (c: nat)
    requires p.spacing > 0
    ensures c >= 1
    ensures p.spacing * c >= p.height - BottomMargin
    ensures c > 1 ==> p.spacing * (c - 1) < p.height - BottomMargin
  {
    var h := p.height - BottomMargin;
    if h <= p.spacing then 1
    else
      var c := (h + p.spacing - 1) / p.spacing;
      DivBounds(h + p.spacing - 1, p.spacing);
      c
  }

  lemma DivBounds(n: int, d: int)
    requires d > 0
    ensures d * (n / d) <= n < d * (n / d) + d
  {
  }

  /** No smaller positive row count reaches the wrap threshold. */
  lemma ColumnHeightLeast(p: Params, r: int)
    requires p.spacing > 0 && 1 <= r < ColumnHeight(p)
    ensures p.spacing * r < p.height - BottomMargin
  {
    MulMonotone(p.spacing, r, ColumnHeight(p) - 1);
  }

  lemma MulMonotone(s: nat, a: int, b: int)
    requires a <= b
    ensures s * a <= s * b
  {
    assert s * b - s * a == s * (b - a);
  }

  lemma MulCancel(s: nat, a: int, b: int)
    requires s > 0 && s * a == s * b
    ensures a == b
  {
    if a < b {
      MulMonotone(s, a + 1, b);
    } else if b < a {
      MulMonotone(s, b + 1, a);
    }
  }

  /** Division and remainder are determined by any decomposition n == q * d + r with 0 <= r < d. */
  lemma DivModUnique(n: int, d: int, q: int, r: int)
    requires d > 0 && 0 <= r < d && n == q * d + r
    ensures n / d == q && n % d == r
  {
    var q', r' := n / d, n % d;
    assert n == q' * d + r';
    assert (q - q') * d == r' - r;
    if q > q' {
      MulMonotone(d, 1, q - q');
      assert false;
    } else if q < q' {
      MulMonotone(d, 1, q' - q);
      assert false;
    }
  }

  /** How the column and row of point i + 1 follow from those of point i. */
  lemma NextSlot(i: nat, c: nat)
    requires c >= 1
    ensures i % c + 1 < c ==> (i + 1) / c == i / c && (i + 1) % c == i % c + 1
    ensures i % c + 1 == c ==> (i + 1) / c == i / c + 1 && (i + 1) % c == 0
  {
    assert i == (i / c) * c + i % c;
    if i % c + 1 < c {
      DivModUnique(i + 1, c, i / c, i % c + 1);
    } else {
      DivModUnique(i + 1, c, i / c + 1, 0);
    }
  }

  /** The x of the k-th point of a bin whose left edge is `left`: column k / C. */
  function SlotX(p: Params, left: int, k: nat): int
    requires p.spacing > 0
  {
    left + p.offset + p.spacing * (k / ColumnHeight(p))
  }

  /** The y of the k-th point of a bin: row k % C, counted upwards from the bottom margin. */
  function SlotY(p: Params, k: nat): int
    requires p.spacing > 0
  {
    p.height - p.spacing * (k % ColumnHeight(p)) - BottomMargin
  }

  /** `placed` is bin `b` with each member given the coordinates of its slot. */
  ghost predicate PlacedBin<R>(p: Params, b: Bin<R>, placed: Bin<Point<R>>)
    requires p.spacing > 0
  {
    && placed.left == b.left && placed.right == b.right
    && |placed.members| == |b.members|
    && forall k :: 0 <= k < |b.members| ==>
         placed.members[k] == Point(b.members[k], SlotX(p, b.left, k), SlotY(p, k))
  }

  /**
   * The inner loop of generatePointCoordinates for one non-empty bin: the
   * counters start at 0, the row counter climbs and wraps to a new column
   * once spacing * row reaches height - 5.
   */
  method PlaceBin<R>(p: Params, b: Bin<R>) returns (placed: Bin<Point<R>>)
    requires p.spacing > 0
    ensures PlacedBin(p, b, placed)
  {
    ghost var c := ColumnHeight(p);
    var xIncr := 0;
    var yIncr := 0;
    var points: seq<Point<R>> := [];
    var i := 0;
    while i < |b.members|
      invariant 0 <= i <= |b.members| && |points| == i
      invariant xIncr == i / c && yIncr == i % c
      invariant forall k :: 0 <= k < i ==> points[k] == Point(b.members[k], SlotX(p, b.left, k), SlotY(p, k))
    {
      points := points + [Point(b.members[i], b.left + p.offset + p.spacing * xIncr, p.height - p.spacing * yIncr - 5)];
      yIncr := yIncr + 1;
      NextSlot(i, c);
      if yIncr < c {
        ColumnHeightLeast(p, yIncr);
      }
      if p.spacing * yIncr >= p.height - 5 {
        yIncr := 0;
        xIncr := xIncr + 1;
      }
      i := i + 1;
    }
    placed := Bin(b.left, b.right, points);
  }

  /** generatePointCoordinates: lays out every bin; empty bins are skipped and stay empty. */
  method GeneratePointCoordinates<R>(p: Params, bins: seq<Bin<R>>) returns (placed: seq<Bin<Point<R>>>)
    requires p.spacing > 0
    ensures |placed| == |bins|
    ensures forall j :: 0 <= j < |bins| ==> PlacedBin(p, bins[j], placed[j])
  {
    placed := [];
    for j := 0 to |bins|
      invariant |placed| == j
      invariant forall m :: 0 <= m < j ==> PlacedBin(p, bins[m], placed[m])
    {
      var d := bins[j];
      var laid: Bin<Point<R>>;
      if |d.members| > 0 {
        laid := PlaceBin(p, d);
      } else {
        laid := Bin(d.left, d.right, []);
      }
      placed := placed + [laid];
    }
  }

  /** Two different points of one bin never share a position. */
  lemma {:induction false} SlotsDistinct(p: Params, left: int, k: nat, j: nat)
    requires p.spacing > 0 && k != j
    ensures SlotX(p, left, k) != SlotX(p, left, j) || SlotY(p, k) != SlotY(p, j)
  {
    var c := ColumnHeight(p);
    assert k == (k / c) * c + k % c;
    assert j == (j / c) * c + j % c;
    if SlotX(p, left, k) == SlotX(p, left, j) {
      MulCancel(p.spacing, k / c, j / c);
      if SlotY(p, k) == SlotY(p, j) {
        MulCancel(p.spacing, k % c, j % c);
        assert false;
      }
    }
  }

  /**
   * Every point stays inside the chart: x is at least the bin's left edge plus
   * the offset, and y lies in (0, height - 5] when the chart is taller than 5.
   */
  lemma SlotBounds(p: Params, left: int, k: nat)
    requires p.spacing > 0
    ensures SlotX(p, left, k) >= left + p.offset
    ensures SlotY(p, k) <= p.height - BottomMargin
    ensures p.height > BottomMargin ==> SlotY(p, k) > 0
  {
    var c := ColumnHeight(p);
    MulMonotone(p.spacing, 0, k / c);
    MulMonotone(p.spacing, 0, k % c);
    if p.height > BottomMargin && k % c >= 1 {
      ColumnHeightLeast(p, k % c);
    }
  }

  /** The placed members of one bin occupy pairwise distinct positions. */
  lemma PlacedBinDistinct<R>(p: Params, b: Bin<R>, placed: Bin<Point<R>>, k: nat, j: nat)
    requires p.spacing > 0 && PlacedBin(p, b, placed)
    requires k < |placed.members| && j < |placed.members| && k != j
    ensures placed.members[k].x != placed.members[j].x || placed.members[k].y != placed.members[j].y
  {
    SlotsDistinct(p, b.left, k, j);
  }

  /** The members of all bins, bin after bin. */
  function Flatten<T>(bins: seq<Bin<T>>): seq<T>
  {
    if bins == [] then [] else bins[0].members + Flatten(bins[1..])
  }

  /** `bins.filter(d => d[0] != undefined)`: the bins that have members. */
  function NonEmptyBins<T>(bins: seq<Bin<T>>): (r: seq<Bin<T>>)
    ensures forall j :: 0 <= j < |r| ==> |r[j].members| > 0
  {
    if bins == [] then []
    else if |bins[0].members| > 0 then [bins[0]] + NonEmptyBins(bins[1..])
    else NonEmptyBins(bins[1..])
  }

  lemma {:induction false} FlattenConcat<T>(s: seq<Bin<T>>, t: seq<Bin<T>>)
    ensures Flatten(s + t) == Flatten(s) + Flatten(t)
  {
    if s == [] {
      assert s + t == t;
    } else {
      assert (s + t)[1..] == s[1..] + t;
      FlattenConcat(s[1..], t);
    }
  }

  /** Skipping the empty bins does not change the concatenation. */
  lemma {:induction false} FlattenNonEmpty<T>(bins: seq<Bin<T>>)
    ensures Flatten(NonEmptyBins(bins)) == Flatten(bins)
  {
    if bins != [] {
      FlattenNonEmpty(bins[1..]);
      if |bins[0].members| > 0 {
        assert ([bins[0]] + NonEmptyBins(bins[1..]))[1..] == NonEmptyBins(bins[1..]);
      }
    }
  }

  /**
   * The flattening loop of updateVis: keeps the non-empty bins and pushes each
   * of their members, in order, onto `dataForPoints`.
   */
  method FlattenPoints<T>(bins: seq<Bin<T>>) returns (dataForPoints: seq<T>)
    ensures dataForPoints == Flatten(bins)
  {
    var processing := NonEmptyBins(bins);
    dataForPoints := [];
    for j := 0 to |processing|
      invariant dataForPoints == Flatten(processing[..j])
    {
      var d := processing[j];
      for i := 0 to |d.members|
        invariant dataForPoints == Flatten(processing[..j]) + d.members[..i]
      {
        dataForPoints := dataForPoints + [d.members[i]];
        assert d.members[..i + 1] == d.members[..i] + [d.members[i]];
      }
      assert d.members[..|d.members|] == d.members;
      assert processing[..j + 1] == processing[..j] + [d];
      FlattenConcat(processing[..j], [d]);
      assert Flatten([d]) == d.members + Flatten([d][1..]);
    }
    assert processing[..|processing|] == processing;
    FlattenNonEmpty(bins);
  }

  /**
   * Member k of bin j sits in the flattened sequence right after the members
   * of the bins before j; so every member appears there exactly once, in bin order.
   */
  lemma FlattenAt<T>(bins: seq<Bin<T>>, j: nat, k: nat)
    requires j < |bins| && k < |bins[j].members|
    ensures |Flatten(bins[..j])| + k < |Flatten(bins)|
    ensures Flatten(bins)[|Flatten(bins[..j])| + k] == bins[j].members[k]
  {
    assert bins == bins[..j] + ([bins[j]] + bins[j + 1..]);
    FlattenConcat(bins[..j], [bins[j]] + bins[j + 1..]);
    assert Flatten([bins[j]] + bins[j + 1..]) == bins[j].members + Flatten(bins[j + 1..]);
  }

  /** A value is among the flattened points iff some bin has it as a member. */
  lemma {:induction false} FlattenMembership<T>(bins: seq<Bin<T>>, x: T)
    ensures x in Flatten(bins) <==> exists j :: 0 <= j < |bins| && x in bins[j].members
  {
    if bins != [] {
      FlattenMembership(bins[1..], x);
      if x in Flatten(bins[1..]) {
        var j :| 0 <= j < |bins[1..]| && x in bins[1..][j].members;
        assert x in bins[j + 1].members;
      }
      if exists j :: 0 <= j < |bins| && x in bins[j].members {
        var j :| 0 <= j < |bins| && x in bins[j].members;
        if j > 0 {
          assert x in bins[1..][j - 1].members;
        }
      }
    }
  }

  /** The records carried by a sequence of placed points. */
  function RecordsOf<R>(points: seq<Point<R>>): (rs: seq<R>)
    ensures |rs| == |points| && forall i :: 0 <= i < |points| ==> rs[i] == points[i].rec
  {
    seq(|points|, i requires 0 <= i < |points| => points[i].rec)
  }

  /** The layout keeps every record and its place: the flattened points carry the binned records in order. */
  lemma {:induction false} LayoutKeepsRecords<R>(p: Params, bins: seq<Bin<R>>, placed: seq<Bin<Point<R>>>)
    requires p.spacing > 0 && |placed| == |bins|
    requires forall j :: 0 <= j < |bins| ==> PlacedBin(p, bins[j], placed[j])
    ensures RecordsOf(Flatten(placed)) == Flatten(bins)
  {
    if bins != [] {
      LayoutKeepsRecords(p, bins[1..], placed[1..]);
      assert RecordsOf(placed[0].members) == bins[0].members;
      assert RecordsOf(Flatten(placed)) == RecordsOf(placed[0].members) + RecordsOf(Flatten(placed[1..]));
    }
  }
}
