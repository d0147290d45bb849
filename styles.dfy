/** Presentation values the views compute: paints, point styles, legend stops. */
module Styles {
  import opened Wrappers

  /** A fill: a CSS colour or pattern reference, or a colour scale applied to a value. */
  datatype Paint = Css(value: string) | Scaled(key: real)

  /** The attributes of a swarm point that depend on selection and hover. */
  datatype PointStyle = PointStyle(fill: Paint, opacity: string, stroke: Option<string>)

  /** One stop of a legend's colour gradient. */
  datatype LegendStop = LegendStop(color: string, value: real, offset: int)

  /**
   * The two gradient stops of a colour legend: the low colour at offset 0 holds
   * the extent's minimum, the high colour at offset 100 its maximum.
   */
  function LegendStops(low: string, high: string, extent: (real, real)): (stops: seq<LegendStop>)
    ensures |stops| == 2
    ensures stops[0].offset == 0 && stops[1].offset == 100
    ensures stops[0].color == low && stops[0].value == extent.0
    ensures stops[1].color == high && stops[1].value == extent.1
  {
    [LegendStop(low, extent.0, 0), LegendStop(high, extent.1, 100)]
  }
}
