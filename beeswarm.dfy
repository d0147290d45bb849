/**
 * The crack-time beeswarm of js/beeswarm.js: a swarm of user-count coloured
 * points binned at 70 thresholds, with a highlighted ("active") bar under the pointer.
 */
module BeeswarmView {
  import opened Wrappers
  import opened Records
  import opened Styles
  import opened SwarmLayout

  const ContainerWidth: int := 1400
  const ContainerHeight: int := 300
  const MarginTop: int := 50
  const MarginLeft: int := 30
  const MarginRight: int := 20
  const MarginBottom: int := 40

  /** The inner chart size. */
  const Width: int := ContainerWidth - MarginLeft - MarginRight
  const Height: int := ContainerHeight - MarginTop - MarginBottom

  /** Points 15 apart, the first column 4 right of the bin's left edge. */
  const Layout: Params := Params(15, 4, Height)

  const SelectedPointFill: string := "#FFD700"
  const SelectedPointOpacity: string := "1"
  const DefaultPointOpacity: string := "0.5"
  const HoverPointOpacity: string := "1"

  /** A beeswarm column holds 14 points: 15 * 14 reaches 205, 15 * 13 does not. */
  lemma LayoutColumnHeight()
    ensures Height == 210 && ColumnHeight(Layout) == 14
  {
  }

  /** Every beeswarm point lies between 10 and 205 from the top of the chart. */
  lemma LayoutRows(k: nat)
    ensures 10 <= SlotY(Layout, k) <= 205
  {
    LayoutColumnHeight();
    assert 0 <= k % 14 <= 13;
  }

  /** The x-domain collapsed to [0, 0]: all crack times are 0 and d3 draws one half-width bin. */
  predicate IsOneBin(domain: (real, real))
  {
    domain.0 == 0.0 && domain.1 == 0.0
  }

  /** The position and width of a background bar. */
  datatype BarRect = BarRect(x: int, width: int)

  /** A bar spans its bin, or the whole chart in the one-bin case. */
  function BarGeometry(b: Bin<Point<Record>>, oneBin: bool): (r: BarRect)
    ensures oneBin ==> r == BarRect(0, Width)
    ensures !oneBin ==> r.x == b.left && r.x + r.width == b.right
  {
    if oneBin then BarRect(0, Width) else BarRect(b.left, b.right - b.left)
  }

  /** A point's cx: its x, shifted left by the first bin's left edge in the one-bin case. */
  function PointCx(pt: Point<Record>, oneBin: bool, oneBinOffset: int): int
  {
    if oneBin then pt.x - oneBinOffset else pt.x
  }

  /**
   * In the one-bin case the full-width bar starts at 0 and the points of the
   * first bin are laid out from the chart's left edge, as if that bin's left
   * edge were 0.
   */
  lemma OneBinShift(domain: (real, real), binned: seq<Bin<Record>>, placed: seq<Bin<Point<Record>>>, k: nat)
    requires IsOneBin(domain) && |placed| == |binned| > 0
    requires PlacedBin(Layout, binned[0], placed[0]) && k < |placed[0].members|
    ensures BarGeometry(placed[0], IsOneBin(domain)) == BarRect(0, Width)
    ensures PointCx(placed[0].members[k], IsOneBin(domain), placed[0].left) == SlotX(Layout, 0, k)
    ensures PointCx(placed[0].members[k], IsOneBin(domain), placed[0].left) >= Layout.offset
  {
    SlotBounds(Layout, 0, k);
  }

  /** Fill, opacity and stroke of a point as renderVis draws it. */
  function RenderedStyle(r: Record, selected: seq<string>): (s: PointStyle)
    ensures r.password in selected ==> s == PointStyle(Css(SelectedPointFill), SelectedPointOpacity, Some("black"))
    ensures r.password !in selected ==> s == PointStyle(Scaled(r.userCount as real), DefaultPointOpacity, None)
  {
    if r.password in selected then PointStyle(Css(SelectedPointFill), SelectedPointOpacity, Some("black"))
    else PointStyle(Scaled(r.userCount as real), DefaultPointOpacity, None)
  }

  /** Point mouseover: an unselected point turns black and opaque; a selected one is left alone. */
  function Hovered(s: PointStyle, r: Record, selected: seq<string>): PointStyle
  {
    if r.password !in selected then s.(fill := Css("black"), opacity := HoverPointOpacity) else s
  }

  /** Point mouseleave: an unselected point gets its scale colour and default opacity back. */
  function MouseLeft(s: PointStyle, r: Record, selected: seq<string>): PointStyle
  {
    if r.password !in selected then s.(fill := Scaled(r.userCount as real), opacity := DefaultPointOpacity) else s
  }

  /**
   * Hovering a point and leaving it restores the style it was drawn with; a
   * selected point keeps its gold fill and black stroke throughout.
   */
  lemma HoverThenLeaveRestores(r: Record, selected: seq<string>)
    ensures MouseLeft(Hovered(RenderedStyle(r, selected), r, selected), r, selected) == RenderedStyle(r, selected)
    ensures r.password in selected ==> Hovered(RenderedStyle(r, selected), r, selected).fill == Css(SelectedPointFill)
    ensures r.password !in selected ==> Hovered(RenderedStyle(r, selected), r, selected).stroke == None
  {
  }

  /** The legend gradient: light pink at offset 0 for the least user count, magenta at 100 for the greatest. */
  function BeeswarmLegend(extent: (real, real)): (stops: seq<LegendStop>)
    ensures stops == [LegendStop("#FFB6C1", extent.0, 0), LegendStop("#FF00FF", extent.1, 100)]
  {
    LegendStops("#FFB6C1", "#FF00FF", extent)
  }

  /** `select(".active")`: the first bar, in document order, that carries the class. */
  function FirstActive(active: seq<bool>): (r: Option<nat>)
    ensures r.Some? ==> r.value < |active| && active[r.value]
    ensures r.Some? ==> forall j :: 0 <= j < r.value ==> !active[j]
    ensures r.None? ==> forall j :: 0 <= j < |active| ==> !active[j]
  {
    if active == [] then None
    else if active[0] then Some(0)
    else match FirstActive(active[1..])
      case None => None
      case Some(j) => Some(j + 1)
  }

  /** At most one bar carries the class "active". */
  ghost predicate AtMostOneActive(active: seq<bool>)
  {
    forall i, j :: 0 <= i < |active| && 0 <= j < |active| && active[i] && active[j] ==> i == j
  }

  /** The view object: its layout, its selection list and which bars carry the class "active". */
  class Beeswarm {
    var data: seq<Record>
    var selectedPasswords: seq<string>
    var domain: (real, real)
    var bins: seq<Bin<Point<Record>>>
    var dataForPoints: seq<Point<Record>>
    /** Per bar (identifier = bin index): does it carry the class "active"? */
    var active: seq<bool>

    ghost predicate Valid()
      reads this
    {
      |active| == |bins| && AtMostOneActive(active)
    }

    /**
     * Construction runs updateVis; `domain` is the crack-time extent and
     * `binned` the result of d3.bin over `data`, both computed by d3.
     */
    constructor(data: seq<Record>, domain: (real, real), binned: seq<Bin<Record>>)
      ensures Valid()
      ensures this.data == data && selectedPasswords == []
      ensures this.domain == domain && |bins| == |binned|
      ensures forall j :: 0 <= j < |binned| ==> PlacedBin(Layout, binned[j], bins[j])
      ensures dataForPoints == Flatten(bins)
      ensures forall j :: 0 <= j < |active| ==> !active[j]
    {
      this.data := data;
      selectedPasswords := [];
      this.domain := domain;
      bins := [];
      dataForPoints := [];
      active := [];
      new;
      UpdateVis(domain, binned);
    }

    /**
     * updateVis (and the bar join of renderVis): lays out the bins, flattens
     * their points into `dataForPoints` and joins one bar per bin by index.
     * A bar that survives the join keeps its class "active", an entering bar
     * has none, and an exiting bar is removed.
     */
    method UpdateVis(domain: (real, real), binned: seq<Bin<Record>>)
      requires Valid()
      modifies this
      ensures Valid()
      ensures this.domain == domain && |bins| == |binned|
      ensures forall j :: 0 <= j < |binned| ==> PlacedBin(Layout, binned[j], bins[j])
      ensures dataForPoints == Flatten(bins)
      ensures RecordsOf(dataForPoints) == Flatten(binned)
      ensures forall j :: 0 <= j < |active| ==> (active[j] <==> j < |old(active)| && old(active)[j])
      ensures data == old(data) && selectedPasswords == old(selectedPasswords)
    {
      this.domain := domain;
      bins := GeneratePointCoordinates(Layout, binned);
      dataForPoints := FlattenPoints(bins);
      LayoutKeepsRecords(Layout, binned, bins);
      var was, n := active, |bins|;
      active := seq(n, j requires 0 <= j < n => j < |was| && was[j]);
    }

    /**
     * Bar mouseover: with no active bar the target becomes active; with another
     * bar active, that one loses the class and the target gains it.
     */
    method BarMouseOver(target: nat)
      requires Valid() && target < |bins|
      modifies this`active
      ensures Valid()
      ensures forall j :: 0 <= j < |active| ==> (active[j] <==> j == target)
    {
      var activeBar := FirstActive(active);
      if activeBar == None {
        active := active[target := true];
      } else if activeBar.value != target {
        active := active[activeBar.value := false];
        active := active[target := true];
      }
    }

    /** Chart mouseleave: every active bar loses the class. */
    method ChartMouseLeave()
      requires Valid()
      modifies this`active
      ensures Valid()
      ensures forall j :: 0 <= j < |active| ==> !active[j]
    {
      active := seq(|active|, _ => false);
    }
  }
}
