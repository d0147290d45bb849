/**
 * The crack-time histogram swarm of js/histogram.js (a second class named
 * Beeswarm in the source): small blue points over about 70 bins, with the bar under
 * the pointer filled in a hover colour.
 */
module HistogramView {
  import opened Wrappers
  import opened Records
  import opened Styles
  import opened SwarmLayout

  const ContainerWidth: int := 1500
  const ContainerHeight: int := 500
  const MarginTop: int := 20
  const MarginLeft: int := 30
  const MarginRight: int := 20
  const MarginBottom: int := 40

  /** The inner chart size. */
  const Width: int := ContainerWidth - MarginLeft - MarginRight
  const Height: int := ContainerHeight - MarginTop - MarginBottom

  /** Points 5 apart, the first column 3 right of the bin's left edge. */
  const Layout: Params := Params(5, 3, Height)

  const DefaultPointOpacity: string := "0.5"
  const HoverPointOpacity: string := "1"

  /** A histogram column holds 87 points: 5 * 87 reaches 435, 5 * 86 does not. */
  lemma LayoutColumnHeight()
    ensures Height == 440 && ColumnHeight(Layout) == 87
  {
  }

  /** The fill of a background bar. */
  datatype BarFill = DefaultBarFill | HoverBarFill

  function FillColor(f: BarFill): string
  {
    match f
    case DefaultBarFill => "white"
    case HoverBarFill => "aliceblue"
  }

  /** The position and width of a background bar; the width is a fraction of the chart. */
  datatype BarRect = BarRect(x: int, width: real)

  /** Bar i of renderVis: at its bin's left edge, with the chart width shared equally by all bars. */
  function BarOf(bins: seq<Bin<Point<Record>>>, i: nat): (r: BarRect)
    requires i < |bins|
    ensures r.x == bins[i].left
    ensures r.width * |bins| as real == Width as real
  {
    BarRect(bins[i].left, Width as real / |bins| as real)
  }

  /** Every bar of one render has the same width. */
  lemma BarsEqualWidth(bins: seq<Bin<Point<Record>>>, i: nat, j: nat)
    requires i < |bins| && j < |bins|
    ensures BarOf(bins, i).width == BarOf(bins, j).width > 0.0
  {
  }

  /** Fill and opacity of a point as drawn; the source draws every point blue. */
  function RenderedStyle(): PointStyle
  {
    PointStyle(Css("blue"), DefaultPointOpacity, None)
  }

  /** Point mouseover: black and opaque. */
  function Hovered(s: PointStyle): PointStyle
  {
    s.(fill := Css("black"), opacity := HoverPointOpacity)
  }

  /** Point mouseleave: blue at the default opacity. */
  function MouseLeft(s: PointStyle): PointStyle
  {
    s.(fill := Css("blue"), opacity := DefaultPointOpacity)
  }

  /** Hovering a point and leaving it restores the style it was drawn with. */
  lemma HoverThenLeaveRestores()
    ensures MouseLeft(Hovered(RenderedStyle())) == RenderedStyle()
    ensures Hovered(RenderedStyle()) != RenderedStyle()
  {
  }

  /** The view object: its layout and the fill of each background bar. */
  class Histogram {
    var data: seq<Record>
    var bins: seq<Bin<Point<Record>>>
    var dataForPoints: seq<Point<Record>>
    /** The fill of bar i, one per bin. */
    var barFills: seq<BarFill>

    ghost predicate Valid()
      reads this
    {
      |barFills| == |bins|
    }

    /** Construction runs updateVis on d3's bins of `data`. */
    constructor(data: seq<Record>, binned: seq<Bin<Record>>)
      ensures Valid() && this.data == data && |bins| == |binned|
      ensures forall j :: 0 <= j < |binned| ==> PlacedBin(Layout, binned[j], bins[j])
      ensures dataForPoints == Flatten(bins)
      ensures forall j :: 0 <= j < |barFills| ==> barFills[j] == DefaultBarFill
    {
      this.data := data;
      bins := [];
      dataForPoints := [];
      barFills := [];
      new;
      UpdateVis(binned);
    }

    /**
     * updateVis and the bar join of renderVis: lays out the bins, flattens
     * their points and draws every bar in the default fill.
     */
    method UpdateVis(binned: seq<Bin<Record>>)
      modifies this
      ensures Valid() && |bins| == |binned|
      ensures forall j :: 0 <= j < |binned| ==> PlacedBin(Layout, binned[j], bins[j])
      ensures dataForPoints == Flatten(bins)
      ensures RecordsOf(dataForPoints) == Flatten(binned)
      ensures forall j :: 0 <= j < |barFills| ==> barFills[j] == DefaultBarFill && FillColor(barFills[j]) == "white"
      ensures data == old(data)
    {
      bins := GeneratePointCoordinates(Layout, binned);
      dataForPoints := FlattenPoints(bins);
      LayoutKeepsRecords(Layout, binned, bins);
      barFills := seq(|bins|, _ => DefaultBarFill);
    }

    /** Bar mouseover: every bar back to the default fill, then the target in the hover fill. */
    method BarMouseOver(target: nat)
      requires Valid() && target < |bins|
      modifies this`barFills
      ensures Valid()
      ensures forall j :: 0 <= j < |barFills| ==> barFills[j] == if j == target then HoverBarFill else DefaultBarFill
      ensures forall j :: 0 <= j < |barFills| ==> FillColor(barFills[j]) == if j == target then "aliceblue" else "white"
    {
      barFills := seq(|barFills|, _ => DefaultBarFill);
      barFills := barFills[target := HoverBarFill];
    }

    /** Chart mouseleave: every bar back to the default fill. */
    method ChartMouseLeave()
      requires Valid()
      modifies this`barFills
      ensures Valid()
      ensures forall j :: 0 <= j < |barFills| ==> barFills[j] == DefaultBarFill && FillColor(barFills[j]) == "white"
    {
      barFills := seq(|barFills|, _ => DefaultBarFill);
    }
  }
}
