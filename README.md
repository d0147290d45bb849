# SafeCracker dashboard core in Dafny

SafeCracker is a browser dashboard about the 200 most common passwords per
country (user count, time to crack, global and country rank). This project
models its core in Dafny:

- the password classification and record derivation in `js/main.js`;
- the layout of the two swarm views in `js/beeswarm.js` and `js/histogram.js`;
- the per-type summaries and the click toggle of the box plot in `js/boxplot.js`;
- the filtered and optionally reversed ranking in `js/lollipop.js`;
- the feature styling of the world map in `js/chloroplethMap.js`;
- the selection events the views emit on their shared dispatcher.

Modules:

| file | module | models |
|---|---|---|
| `wrappers.dfy` | `Wrappers` | `Option`, for absent values |
| `seqs.dfy` | `Seqs` | sequence reversal, `Array.prototype.reverse` in place |
| `records.dfy` | `Records` | one CSV row, the three password type labels, `Array.prototype.filter` by predicate |
| `events.dfy` | `Events` | the `selectPass`, `filterPasswordType` and `countrySelect` emissions |
| `password_type.dfy` | `PasswordTypes` | `determinePasswordType` and the row derivation loop |
| `swarm_layout.dfy` | `SwarmLayout` | `generatePointCoordinates` and the flattening of bins into `dataForPoints`, parameterised by spacing, offset and height |
| `styles.dfy` | `Styles` | paints, point styles, two-stop legend gradients |
| `beeswarm.dfy` | `BeeswarmView` | the crack-time beeswarm: geometry, point styles, active bar, legend |
| `histogram.dfy` | `HistogramView` | the second swarm view: geometry, bar fills, point styles |
| `boxplot.dfy` | `BoxplotView` | group summaries, in-place sort, the clicked-type toggle and box fills |
| `lollipop.dfy` | `LollipopView` | the visible slice, reversal, y-domain, dot styles |
| `choropleth.dfy` | `ChoroplethView` | feature styles, configuration defaults, legend, click emission |

Stateful views are classes:

- `Beeswarm`, `Histogram`, `Boxplot` and `Lollipop` keep the views' fields.
  `Beeswarm` and `Histogram` also keep the DOM state their handlers change:
  the class "active" of each beeswarm bar and the fill of each histogram bar.
- `BoxSelection` holds the `clicked` variable of one box plot `renderVis`,
  which the box handlers capture, and the fill of each box.
- Their methods update this state with `modifies` clauses.
- Each method is proved against specification functions (`Flatten`,
  `PlacedBin`, `Select`, `StatsOf`, `NextClicked`, `Visible`).

The loops of the source are Dafny loops with invariants:

- the character scan with its early return;
- the derivation `forEach`;
- the xIncr/yIncr placement counters;
- the nested push loop;
- the sort.

d3 computes several values: `d3.bin` bins, extents, scales and colour
scales. These are inputs to the model. A bin's edges arrive already mapped
through `xScale`, and a colour-scaled paint is recorded by its input value
(`Scaled(key)`).

Three behaviours of the code are easy to misread; the model follows the code:

- **What counts as a number.** `determinePasswordType` tests
  `Number(password.charAt(i))` for truthiness. Only `'1'`–`'9'` are truthy:
  `'0'` gives 0, and a JavaScript whitespace character gives 0. So `'0'` and
  whitespace count as letters. For example, "000000" is ALPHABETICAL, "1000"
  is MIXED and the empty password is NUMERICAL (`ClassifyExamples`).
- **Clicking the clicked box twice.** When the box plot's clicked box is
  clicked twice, the first click clears the type and the second selects it
  again (`NextClickedLaws`).
- **The beeswarm's size options.** Its `1400 || _config.containerWidth` style
  options always take the constant. The map's `_config.containerWidth || 1400`
  takes the caller's value when it is truthy. Both are modelled as written.

## Model

| member | source | states |
|---|---|---|
| PasswordTypes.JsNumberOfChar | js/main.js:34 | `Number(char)` is a number exactly for a decimal digit or JavaScript white space; that number lies in 0..9, and it is 0 exactly for '0' and white space |
| PasswordTypes.CountsAsNumberIffOneToNine | js/main.js:34-35 | `Number(char)` is truthy exactly for the characters '1' to '9' |
| PasswordTypes.DeterminePasswordType | js/main.js:29-50 | the early-return scan returns the classification defined by "has a letter" / "has a number" over the whole password |
| PasswordTypes.ScanFlagsMeaning | js/main.js:30-39 | after scanning a string, hasNumber holds iff some character is '1'–'9' and hasLetter iff some character is not |
| PasswordTypes.EarlyReturnMatchesFullScan | js/main.js:40-49 | returning MIXED as soon as both flags are set gives the same answer as finishing the scan |
| PasswordTypes.ClassifyCharacterization | js/main.js:29-50 | NUMERICAL iff every character is '1'–'9'; ALPHABETICAL iff none is and the password is non-empty; MIXED iff both kinds occur |
| PasswordTypes.ClassifyExamples | js/main.js:29-50 | "" is NUMERICAL, "000000" and "password" ALPHABETICAL, "123456" NUMERICAL, "12 34" and "1000" MIXED |
| PasswordTypes.ClassifyLabels | js/main.js:41-48 | the returned label is one of "ALPHABETICAL", "NUMERICAL", "MIXED", the one of the classification |
| PasswordTypes.DeriveRecords | js/main.js:8-15 | every row loses its Time_to_crack text and gains the password type of its own password; nothing else changes |
| Records.LabelInjective | js/main.js:41-48 | different password types have different labels |
| Records.Select | js/boxplot.js:99 | `filter` keeps at most the input's records, and every kept record satisfies the predicate |
| Records.SelectMembership | js/boxplot.js:99 | a record is kept by the filter iff it is in the input and satisfies the predicate |
| Records.SelectConcat | js/lollipop.js:93-95 | filtering a concatenation is concatenating the filtered parts |
| Records.SelectCount | js/lollipop.js:93-95 | the filter keeps each matching record exactly as often as it occurs, and no other record |
| Seqs.Reversed | js/lollipop.js:98 | the reversed sequence has the same length, and position k holds the element k places from the end |
| Seqs.ReverseInPlace | js/lollipop.js:97-99 | `reverse()` leaves the array holding the old contents last first |
| SwarmLayout.ColumnHeight | js/beeswarm.js:359-363 | the column height C is the least r ≥ 1 with spacing·r ≥ height − 5 |
| SwarmLayout.ColumnHeightLeast | js/beeswarm.js:359-363 | no smaller positive row count reaches height − 5 |
| SwarmLayout.PlaceBin | js/beeswarm.js:354-364 | the counter loop puts member k at x = left + offset + spacing·(k div C), y = height − spacing·(k mod C) − 5 |
| SwarmLayout.GeneratePointCoordinates | js/beeswarm.js:350-367 | every bin is placed that way; empty bins are left as they are |
| SwarmLayout.SlotsDistinct | js/beeswarm.js:356-363 | two different members of a bin never get the same (x, y) |
| SwarmLayout.PlacedBinDistinct | js/histogram.js:177-185 | the placed members of one bin occupy pairwise distinct positions |
| SwarmLayout.SlotBounds | js/beeswarm.js:357-358 | x is at least the bin edge plus the offset; y is at most height − 5 and positive when height > 5 |
| SwarmLayout.NonEmptyBins | js/beeswarm.js:172 | the filtered bins all have a member |
| SwarmLayout.FlattenNonEmpty | js/beeswarm.js:172-178 | dropping the empty bins does not change the pushed points |
| SwarmLayout.FlattenPoints | js/beeswarm.js:172-179 | the nested push loop yields all members of all bins, bin after bin, in order |
| SwarmLayout.FlattenConcat | js/histogram.js:103-110 | flattening a concatenation of bin lists concatenates their flattenings |
| SwarmLayout.FlattenAt | js/histogram.js:103-110 | member k of bin j sits right after the members of all earlier bins |
| SwarmLayout.FlattenMembership | js/beeswarm.js:174-178 | a value is among the points iff some bin holds it |
| SwarmLayout.RecordsOf | js/beeswarm.js:176 | the pushed points carry their records one for one |
| SwarmLayout.LayoutKeepsRecords | js/beeswarm.js:171-179 | after layout and flattening, the points carry exactly the binned records in order |
| BeeswarmView.LayoutColumnHeight | js/beeswarm.js:33-40 | the inner height is 210, and a column holds 14 points |
| BeeswarmView.LayoutRows | js/beeswarm.js:358-363 | every point's y lies between 10 and 205 |
| BeeswarmView.IsOneBin | js/beeswarm.js:189 | the one-bin test on the x-domain; no contract of its own, its consequences are stated by BarGeometry and OneBinShift |
| BeeswarmView.BarGeometry | js/beeswarm.js:199-212 | a bar spans its bin, or starts at 0 with the full width when the domain is [0, 0] |
| BeeswarmView.PointCx | js/beeswarm.js:249-255 | a point's cx, shifted by the first bin's edge in the one-bin case; no contract of its own, specified through OneBinShift |
| BeeswarmView.OneBinShift | js/beeswarm.js:249-255 | in the one-bin case the shifted cx of member k is the slot x of a bin at 0, so at least 4 |
| BeeswarmView.RenderedStyle | js/beeswarm.js:258-279 | a selected password is gold, opaque and black-stroked; any other is user-count coloured at 0.5 with no stroke |
| BeeswarmView.Hovered | js/beeswarm.js:283-288 | point mouseover; no contract of its own, specified through HoverThenLeaveRestores |
| BeeswarmView.MouseLeft | js/beeswarm.js:302-307 | point mouseleave; no contract of its own, specified through HoverThenLeaveRestores |
| BeeswarmView.HoverThenLeaveRestores | js/beeswarm.js:283-310 | hovering then leaving a point restores its rendered style; a selected point keeps its gold fill |
| BeeswarmView.BeeswarmLegend | js/beeswarm.js:151-154 | the gradient runs from #FFB6C1 at offset 0 for the least user count to #FF00FF at 100 for the greatest |
| BeeswarmView.FirstActive | js/beeswarm.js:218 | `select(".active")` finds the first active bar, or none when no bar is active |
| BeeswarmView.Beeswarm.constructor | js/beeswarm.js:2-27 | the view starts with no selection; after updateVis the bins are placed, the points are their flattening and no bar is active |
| BeeswarmView.Beeswarm.UpdateVis | js/beeswarm.js:168-198 | the bins are placed, `dataForPoints` is their flattening and carries the binned records in order; the index join keeps each surviving bar's class "active", and entering bars have none |
| BeeswarmView.Beeswarm.BarMouseOver | js/beeswarm.js:216-224 | afterwards exactly the hovered bar is active |
| BeeswarmView.Beeswarm.ChartMouseLeave | js/beeswarm.js:102-105 | leaving the chart deactivates every bar |
| Events.SelectPassOnClick | js/beeswarm.js:311-317 | a click emits selectPass for the clicked password, asking to select it iff the selection does not include it |
| Events.SelectPassTwiceUndoes | js/lollipop.js:190-196 | once the selection reflects a click, the next click on that mark asks for the opposite |
| HistogramView.LayoutColumnHeight | js/histogram.js:28-29 | the inner height is 440, and a column holds 87 points |
| HistogramView.BarOf | js/histogram.js:122-123 | a bar starts at its bin's edge, and its width times the bin count is the chart width |
| HistogramView.BarsEqualWidth | js/histogram.js:123 | all bars have the same width |
| HistogramView.RenderedStyle | js/histogram.js:138-143 | every point is drawn blue at opacity 0.5; no contract of its own, specified through HoverThenLeaveRestores |
| HistogramView.Hovered | js/histogram.js:144-147 | point mouseover; no contract of its own, specified through HoverThenLeaveRestores |
| HistogramView.MouseLeft | js/histogram.js:161-164 | point mouseleave; no contract of its own, specified through HoverThenLeaveRestores |
| HistogramView.HoverThenLeaveRestores | js/histogram.js:142-167 | hovering a point changes its style, and leaving it restores blue at opacity 0.5 |
| HistogramView.Histogram.constructor | js/histogram.js:2-22 | construction runs updateVis: the bins are placed and flattened, and every bar is white |
| HistogramView.Histogram.UpdateVis | js/histogram.js:99-126 | the bins are placed and flattened as in the beeswarm, and every bar is white |
| HistogramView.Histogram.BarMouseOver | js/histogram.js:128-133 | afterwards exactly the hovered bar is aliceblue and every other bar white |
| HistogramView.Histogram.ChartMouseLeave | js/histogram.js:72-75 | leaving the chart makes every bar white again |
| BoxplotView.MinUserCount | js/boxplot.js:92 | `d3.min` is a lower bound on the group's user counts that some record attains |
| BoxplotView.MaxUserCount | js/boxplot.js:93 | `d3.max` is an upper bound on the group's user counts that some record attains |
| BoxplotView.SortedMinMax | js/boxplot.js:88-93 | after the sort, the minimum is the first record's count and the maximum the last one's |
| BoxplotView.MinMaxOfPermutation | js/boxplot.js:88-93 | sorting the group does not change its minimum or maximum |
| BoxplotView.Swap | js/boxplot.js:88 | exchanging two cells keeps the multiset of records |
| BoxplotView.InsertAt | js/boxplot.js:88 | one insertion pass extends the sorted prefix by one and keeps the multiset |
| BoxplotView.SortByUserCount | js/boxplot.js:88 | the in-place sort orders the group by user count and is a permutation of it |
| BoxplotView.StatsOf | js/boxplot.js:92-94 | a summary carries its type, and its min is at most its max |
| BoxplotView.Boxplot.constructor | js/boxplot.js:3-17 | the view starts on Canada with the Canadian records filtered and their three type summaries |
| BoxplotView.Boxplot.CalcStats | js/boxplot.js:87-95 | the group ends up sorted and permuted, and the pushed summary holds its type, min and max |
| BoxplotView.Boxplot.SummarizeGroup | js/boxplot.js:108-111 | summarising one type group pushes that group's summary |
| BoxplotView.Boxplot.UpdateVis | js/boxplot.js:79-116 | `filteredData` is the selected country's records, and `sumStats` is the NUMERICAL, ALPHABETICAL and MIXED summaries in that order |
| BoxplotView.SumStatsOrder | js/boxplot.js:108-111 | box i has type NUMERICAL, ALPHABETICAL, MIXED for i = 0, 1, 2, and bounds every record of that type |
| BoxplotView.NextClicked | js/boxplot.js:172-188 | the click clears `clicked` exactly when it was the clicked type, and otherwise sets it to that type |
| BoxplotView.NextClickedLaws | js/boxplot.js:172-188 | a click selects from nothing, clears the clicked type, replaces another; double-click laws |
| BoxplotView.BoxSelection.constructor | js/boxplot.js:136-146 | every box starts in #E5B5D8 with nothing clicked |
| BoxplotView.BoxSelection.MouseMove | js/boxplot.js:147-163 | the box under the pointer turns #FFCC00 |
| BoxplotView.BoxSelection.MouseLeave | js/boxplot.js:164-170 | the box gets its default fill back unless it is the clicked one |
| BoxplotView.BoxSelection.Click | js/boxplot.js:172-190 | `clicked` toggles as NextClicked, the fills move from the old to the new box, and filterPasswordType is emitted with the new value |
| LollipopView.ReverseOrderSetting | js/lollipop.js:14 | the reverse flag is the caller's when given, false otherwise |
| LollipopView.Visible | js/lollipop.js:93-99 | the shown records are no more than the full data, and each is of the selected country with rank at most the limit |
| LollipopView.VisibleExactlyMatching | js/lollipop.js:93-99 | the chart shows each record of the country with rank ≤ limit as often as it occurs, and nothing else, in either order |
| LollipopView.ReverseFlipsOrder | js/lollipop.js:97-99 | with reverseOrder the k-th shown record is the k-th from the end of the filtered order |
| LollipopView.YDomain | js/lollipop.js:113 | the y-domain lists the shown passwords in their order |
| LollipopView.YDomainReversed | js/lollipop.js:97-113 | reversing the records reverses the y-domain |
| LollipopView.DotRadius | js/lollipop.js:153-159 | the radius is the selected radius exactly when the password is selected |
| LollipopView.DotFill | js/lollipop.js:160-166 | the fill is the selected gold exactly when the password is selected |
| LollipopView.DotStyleBySelection | js/lollipop.js:153-166 | a selected dot has radius 5 and the beeswarm's gold, any other radius 3 and #E7A0D4 |
| LollipopView.Lollipop.constructor | js/lollipop.js:2-22 | the view keeps the full array and the configured reverse flag, and `data` ends up as a new array holding the visible slice |
| LollipopView.Lollipop.UpdateVis | js/lollipop.js:89-99 | `data` becomes a new array holding the visible slice, and `fulldata` is left unchanged |
| Styles.LegendStops | js/chloroplethMap.js:111-114 | a legend has two stops: the low colour and the least value at offset 0, the high colour and the greatest value at 100 |
| ChoroplethView.StyleOf | js/chloroplethMap.js:135-171 | the opacity is 0.4, 0.75 or 1; a scaled fill carries the feature's own non-zero mean; pointer events are unset exactly when the fill is scaled; stroke and stroke width are set together |
| ChoroplethView.StyleRules | js/chloroplethMap.js:135-171 | no data means striped, inert and at 0.4 even when selected; with data, 1 when selected and 0.75 otherwise; the outline follows selection alone |
| ChoroplethView.ZeroIsNoData | js/chloroplethMap.js:136-151 | a mean of 0 is drawn exactly like a missing one |
| ChoroplethView.SelectionChangesOnlyOpacityAndOutline | js/chloroplethMap.js:135-171 | the selected country affects neither fill nor pointer events, nor the opacity of a country without data |
| ChoroplethView.ClickFeature | js/chloroplethMap.js:190-192 | a click emits countrySelect with the feature's name |
| ChoroplethView.Configure | js/chloroplethMap.js:8-12 | a truthy caller size and a given margin win; otherwise 1400 × 800 and a top margin of 50 |
| ChoroplethView.DefaultInnerSize | js/chloroplethMap.js:33-40 | with no options the drawing area is 1400 × 750 |
| ChoroplethView.MapLegend | js/chloroplethMap.js:111-114 | the gradient runs from #bd0026 at offset 0 to #ffffcc at 100 |

## Left out

- The CSV load, the DOM, the SVG drawing, the axes, the titles, the tooltips and the transitions are left out. They are I/O or presentation.
- `d3.bin` is left out. So are its thresholds: the beeswarm's 70 explicit thresholds over the domain, and the histogram's `.thresholds(70)`, which only asks d3 for about 70 bins. The bins are an input.
- `d3.extent`, `xScale` (a power scale of exponent 0.4, linear in the histogram) and the colour scales are left out. They are opaque d3 computations. Bin edges arrive already scaled. `d3.group` is modelled rather than left out: the group of type t is the country's records of type t, in their order (`SummarizeGroup`).
- The box plot's quartiles (`d3.quantile`) and its `yScale.nice()` are left out. They are floating point interpolation. `Stats` keeps only the type, the minimum and the maximum.
- The numeric coercion `+d["Rank"]` and the like are left out. The record's fields arrive with their numeric types.
- The dispatcher's listeners are left out. None of the modelled files defines a dispatcher listener. The views' `selectedCountry` and `selectedPasswords` are written by code outside them. Only the emitted events are modelled.
- The HTML select that supplies the lollipop's rank limit is left out. The limit is a parameter of `UpdateVis`.
- PasswordTypes.DeterminePasswordType: `charAt` works on UTF-16 code units, so a character outside the Basic Multilingual Plane is two scan steps in the source and one character here.
- PasswordTypes.DeriveRecords: the source mutates each row object in place. The model replaces array cells by updated values, so aliasing between rows is not modelled.
- SwarmLayout.GeneratePointCoordinates: the source writes x and y into the record objects that the bins share with `data`. The model returns new points that pair each record with its coordinates, so that sharing is not modelled.
- BoxplotView.SortByUserCount: the source's comparator sort is stable, but stability is not stated. The model proves sortedness and permutation only.
- BoxplotView.Boxplot.UpdateVis: a country without records of some password type makes `calcStats` fail on an undefined group. The precondition `HasAllTypes` excludes that case instead of modelling the failure. The constructor carries the same precondition for "Canada", because it calls updateVis on that country.
- BeeswarmView.Beeswarm.UpdateVis: the chart title reads `vis.data[0]` and renderVis reads `vis.bins[0]`, so empty data fails in the source, and so does the constructor that calls updateVis on the same data. The model does not depend on either.
- HistogramView.Histogram.UpdateVis: the chart title reads `vis.data[0]["country"]` (js/histogram.js:87), so empty data throws a TypeError in the source, and so does the constructor that calls it. The model does not read the title and succeeds on empty data.
- The beeswarm's special positioning of the single axis tick in the one-bin case is left out. It is axis presentation.
- `js/histogram.js` declares its class under the same name as `js/beeswarm.js` (`Beeswarm`). Loading both scripts would clash. The model keeps the two as separate modules.
- Legend label rounding (`Math.round(d.value * 10) / 10`) is left out. It is floating point display.
