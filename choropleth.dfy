/**
 * The world map of js/chloroplethMap.js: each country filled by its average
 * crack time, countries without data striped and inert, the selected country
 * outlined.
 */
module ChoroplethView {
  import opened Wrappers
  import opened Events
  import opened Styles

  const NoDataPattern: string := "url(#lightstripe)"
  const SelectedStroke: string := "#1d1d1d"
  const SelectedStrokeWidth: string := "2px"

  /** A map feature: its `name` property and its attached mean crack time, if any. */
  datatype Feature = Feature(name: string, codeDensity: Option<real>)

  /** `d.properties.code_density` is truthy: present and not 0. */
  predicate HasData(f: Feature)
  {
    f.codeDensity.Some? && f.codeDensity.value != 0.0
  }

  /** The attributes renderVis gives a feature's path; None is an attribute left unset. */
  datatype FeatureStyle = FeatureStyle(
    fill: Paint,
    pointerEvents: Option<string>,
    opacity: real,
    stroke: Option<string>,
    strokeWidth: Option<string>)

  /** The style of feature `f` while `selected` is the selected country. */
  function StyleOf(f: Feature, selected: string): (s: FeatureStyle)
    ensures s.opacity == 0.4 || s.opacity == 0.75 || s.opacity == 1.0
    ensures s.fill.Scaled? ==> f.codeDensity == Some(s.fill.key) && s.fill.key != 0.0
    ensures s.pointerEvents.None? <==> s.fill.Scaled?
    ensures s.stroke.Some? <==> s.strokeWidth.Some?
  {
    FeatureStyle(
      if HasData(f) then Scaled(f.codeDensity.value) else Css(NoDataPattern),
      if !HasData(f) then Some("none") else None,
      if !HasData(f) then 0.4 else if f.name == selected then 1.0 else 0.75,
      if f.name == selected then Some(SelectedStroke) else None,
      if f.name == selected then Some(SelectedStrokeWidth) else None)
  }

  /**
   * No data takes precedence over selection for fill, pointer events and
   * opacity, while the outline follows the selection alone: a striped country
   * ignores the pointer and stays at 0.4 even when selected; among countries
   * with data the selected one is fully opaque and the others at 0.75.
   */
  lemma StyleRules(f: Feature, selected: string)
    ensures StyleOf(f, selected).fill.Scaled? <==> HasData(f)
    ensures !HasData(f) ==> StyleOf(f, selected).fill == Css(NoDataPattern)
    ensures StyleOf(f, selected).pointerEvents == Some("none") <==> !HasData(f)
    ensures StyleOf(f, selected).pointerEvents.None? <==> StyleOf(f, selected).fill.Scaled?
    ensures !HasData(f) ==> StyleOf(f, selected).opacity == 0.4
    ensures HasData(f) && f.name == selected ==> StyleOf(f, selected).opacity == 1.0
    ensures HasData(f) && f.name != selected ==> StyleOf(f, selected).opacity == 0.75
    ensures StyleOf(f, selected).stroke.Some? <==> f.name == selected
    ensures StyleOf(f, selected).strokeWidth.Some? <==> f.name == selected
  {
  }

  /** A zero mean counts as no data, exactly like a missing one. */
  lemma ZeroIsNoData(name: string, selected: string)
    ensures StyleOf(Feature(name, Some(0.0)), selected) == StyleOf(Feature(name, None), selected)
  {
  }

  /** Selection only matters for countries with data, and for the outline. */
  lemma SelectionChangesOnlyOpacityAndOutline(f: Feature, s1: string, s2: string)
    ensures StyleOf(f, s1).fill == StyleOf(f, s2).fill
    ensures StyleOf(f, s1).pointerEvents == StyleOf(f, s2).pointerEvents
    ensures !HasData(f) ==> StyleOf(f, s1).opacity == StyleOf(f, s2).opacity
  {
  }

  /** Clicking a feature emits `countrySelect` with its name. */
  function ClickFeature(f: Feature): (e: Emission)
    ensures e.CountrySelect? && e.name == f.name
  {
    CountrySelect(f.name)
  }

  datatype Margin = Margin(top: int, right: int, bottom: int, left: int)

  /** What a caller may pass; None is an option left out. */
  datatype MapOptions = MapOptions(containerWidth: Option<int>, containerHeight: Option<int>, margin: Option<Margin>)

  datatype MapConfig = MapConfig(containerWidth: int, containerHeight: int, margin: Margin)

  const DefaultMargin: Margin := Margin(50, 0, 0, 0)

  /** `x || default` on a number: 0 and a missing value fall back to the default. */
  function NumberOr(x: Option<int>, default: int): int
  {
    if x.Some? && x.value != 0 then x.value else default
  }

  /** The constructor's config: the caller's size and margin win, 1400 x 800 and the top margin of 50 otherwise. */
  function Configure(options: MapOptions): (c: MapConfig)
    ensures options.containerWidth.Some? && options.containerWidth.value != 0 ==> c.containerWidth == options.containerWidth.value
    ensures !(options.containerWidth.Some? && options.containerWidth.value != 0) ==> c.containerWidth == 1400
    ensures options.containerHeight.Some? && options.containerHeight.value != 0 ==> c.containerHeight == options.containerHeight.value
    ensures !(options.containerHeight.Some? && options.containerHeight.value != 0) ==> c.containerHeight == 800
    ensures c.margin == options.margin.GetOr(DefaultMargin)
  {
    MapConfig(NumberOr(options.containerWidth, 1400), NumberOr(options.containerHeight, 800), options.margin.GetOr(DefaultMargin))
  }

  /** The inner drawing size: the container less the margins. */
  function InnerSize(c: MapConfig): (size: (int, int))
  {
    (c.containerWidth - c.margin.left - c.margin.right, c.containerHeight - c.margin.top - c.margin.bottom)
  }

  /** With no options the map draws on 1400 x 750. */
  lemma DefaultInnerSize()
    ensures InnerSize(Configure(MapOptions(None, None, None))) == (1400, 750)
  {
  }

  /** The legend gradient: dark red at offset 0 for the least mean, pale yellow at 100 for the greatest. */
  function MapLegend(extent: (real, real)): (stops: seq<LegendStop>)
    ensures stops == [LegendStop("#bd0026", extent.0, 0), LegendStop("#ffffcc", extent.1, 100)]
  {
    LegendStops("#bd0026", "#ffffcc", extent)
  }
}
