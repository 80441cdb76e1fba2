# KineticsLab core in Dafny

A model of the computational core of KineticsLab, a page for exploring the
Arrhenius equation. It covers three parts:

- **The calculator** (`Chemistry`, chemistry.dfy). This holds the four-entry
  catalyst table and its lookup. It computes the effective activation energy
  `max(0, Ea − reduction)` and the Arrhenius rate constant, which is 0 when
  `T ≤ 0`. It also computes the first-order rate `k·C0` and builds the
  21-point sweep 250..450 K with a loop that advances `t` and appends, as the
  source does.
- **The page session** (`KineticsLabPage`, page.dfy). The class `Session`
  holds `currentResult`, `graphDatasets` and `nextDatasetId`. It has the two
  handlers:
  - "simulate" replaces the result.
  - "add to graph" refuses a sixth dataset. Otherwise it appends a dataset
    with the id `dataset-N`, a palette colour and the name
    `Set N (Ea: … kJ/mol[, Cat: X])`, then advances the counter.
  
  `Valid()` is the session invariant: at most five datasets, dataset i built
  with counter i + 1, and the counter one past the last dataset. Lemmas
  derive distinct ids, names and colours from it.
- **The chart data pivot** (`KineticsCharts`, charts.dfy). This is the part
  of the `KineticsDataChart` component that runs before rendering. It is
  identical in kinetics-data-chart.tsx and rate-chart.tsx, so one model
  serves both. The pieces are:
  - an empty-state branch for no datasets;
  - one row (a dictionary) per temperature point, filled by a loop over the
    datasets, in which a later dataset with the same id wins;
  - an id → {label, colour} configuration, also built by a loop.
  
  `IsRow` and `IsConfig` describe the results completely: lemmas show that
  each determines its value uniquely.

The helper modules model JavaScript behaviour the core depends on:

- `Arrays` models `Array.prototype.find` and `findIndex`.
- `Strings` models how a template literal prints a positive integer, and
  element 1 of `split(' ')`.
- `Types` mirrors the record types, plus the form's input constraints
  (`AcceptedByForm`) and the messages the schema gives for each rejected
  field (`FormIssues`).

Numbers are exact `real`s and sweep temperatures are `int`s. `Math.exp` and
`toFixed(1)` are parameters. `Session` stores them as constants, and
`IsPositive(exp)` states the one property of `exp` that the lemmas use.

Notes on the code's behaviour:

- "Add to graph" refuses when there are 5 or more datasets (`>= 5`).
- The page's chart points carry no `k`, although the record type declares it
  (page.tsx:68 omits it). `ChartDataPoint.k` is therefore optional. The lemma
  `PageDatasetsPlotNoRateConstant` shows what follows: a chart asked to plot
  `k` from the page's datasets gets undefined for every dataset.
- The sweep loop has no guard for a non-positive step; it only runs with
  the fixed range 250/450/10, and so does the model.
- A chart row is one dictionary that also holds the key `temperature`, as
  the source's index signature does. A dataset whose id is `temperature`
  would therefore overwrite that entry. `IsRow` says so; the page's ids
  (`dataset-N`) never collide with it. The row and the configuration are
  otherwise plain maps (see "## Left out" for the one key where a JavaScript
  object differs).

## Model

| member | source | states |
|---|---|---|
| `Arrays.FirstIndex` | src/lib/chemistry.ts:13 | the index of the first element the predicate accepts (none earlier is accepted), or None exactly when no element is accepted |
| `Arrays.Find` | src/lib/chemistry.ts:13 | the result is an accepted element of the sequence, or None exactly when no element is accepted |
| `Arrays.FindIsFirst` | src/components/kinetics-lab/kinetics-data-chart.tsx:53 | when element i is accepted and none before it is, `find` returns element i |
| `Types.FormIssues` | src/components/kinetics-lab/parameter-form.tsx:17-23 | no issue exactly when the parameters meet the schema (`AcceptedByForm`: A > 0, Ea ≥ 0, T > 0, C0 ≥ 0); for each numeric field, its own message ("Must be positive", "Cannot be negative", "Must be above absolute zero (0 K)", "Cannot be negative") appears exactly when that field fails its check; every issue names one of the four fields, no field is reported twice, and nothing outside those four field/message pairs is ever reported, so a field that passes carries no issue |
| `Chemistry.GetCatalystById` | src/lib/chemistry.ts:12-14 | a found catalyst is a table entry with that id; None exactly when no entry has the id |
| `Chemistry.GetCatalystByIdTable` | src/lib/chemistry.ts:5-14 | the lookup entry by entry: none, catalystA, catalystB, catalystC resolve to entries 0..3, every other id to None |
| `Chemistry.CatalystReductionsBounded` | src/lib/chemistry.ts:5-10 | every reduction in the table lies between 0 and 60 kJ/mol |
| `Chemistry.EffectiveActivationEnergy` | src/lib/chemistry.ts:16-20 | never negative for any input; at most the base energy when the base is non-negative; at least the base minus 60 |
| `Chemistry.EffectiveActivationEnergyWithoutCatalyst` | src/lib/chemistry.ts:17-19 | for "none" or an unknown id the result is `max(0, base)` |
| `Chemistry.EffectiveActivationEnergyExamples` | src/lib/chemistry.ts:6-9 | (75, none) = 75, (75, catalystC) = 15, (30, catalystC) = 0 |
| `Chemistry.RateConstant` | src/lib/chemistry.ts:27 | the rate constant is 0 whenever T ≤ 0 |
| `Chemistry.RateConstantIgnoresExpAtNonPositiveTemperature` | src/lib/chemistry.ts:27 | for T ≤ 0 any two exponential functions give the same result 0, so the exponential is never consulted |
| `Chemistry.RateConstantArrhenius` | src/lib/chemistry.ts:3-30 | for T > 0 the value is A·exp(−(Ea·1000)/(8.314·T)) |
| `Chemistry.RateConstantSign` | src/lib/chemistry.ts:27-30 | with a positive exponential: A > 0 and T > 0 give k > 0, and A ≥ 0 never gives k < 0 |
| `Chemistry.ReactionRate` | src/lib/chemistry.ts:33-39 | the unclamped product: non-negative factors give a non-negative rate, a zero factor gives 0, and a negative k with positive C0 stays negative |
| `Chemistry.GenerateTemperaturePoints` | src/lib/chemistry.ts:49-61 | 21 points, point i = 250 + 10·i, first 250, last 450, strictly increasing |
| `Strings.NatToString` | src/app/page.tsx:75 | a non-empty string of decimal digits, one digit exactly for numbers below 10 |
| `Strings.NatToStringInjective` | src/app/page.tsx:75 | different numbers print differently |
| `Strings.NatToStringValue` | src/app/page.tsx:75 | the digits printed for n read back, most significant first, as the value n |
| `Strings.SecondField` | src/app/page.tsx:72 | element 1 of `s.split(sep)`: undefined exactly when `sep` does not occur in s, and otherwise a text with no `sep` in it |
| `Strings.SecondFieldOf` | src/app/page.tsx:72 | `(w0 + sep + w1 + tail).split(sep)[1] == w1` when w0 and w1 contain no separator and tail is empty or starts with one |
| `KineticsLabPage.ChartColor` | src/app/page.tsx:19-25 | the colour for dataset number n is a palette colour |
| `KineticsLabPage.ChartColorCycles` | src/app/page.tsx:78 | the colour index `(n − 1) mod 5` repeats every five datasets |
| `KineticsLabPage.ChartColorsDistinct` | src/app/page.tsx:19-25 | dataset numbers 1..5 get five different colours |
| `KineticsLabPage.DatasetId` | src/app/page.tsx:75 | the id is `dataset-` followed by at least one decimal digit and nothing else |
| `KineticsLabPage.DatasetIdInjective` | src/app/page.tsx:75 | `dataset-a == dataset-b` only when a = b |
| `KineticsLabPage.PlotPoint` | src/app/page.tsx:65-69 | the point for one sweep temperature carries that temperature and no `k`; its rate is 0 at or below 0 K |
| `KineticsLabPage.ChartData` | src/app/page.tsx:65-69 | one point per sweep temperature, in sweep order, each with that temperature and with no `k` |
| `KineticsLabPage.ChartDataOverSweep` | src/app/page.tsx:63-69 | over the graph sweep, with accepted parameters and a positive exponential, temperatures strictly increase, rates are never negative, and rates are positive when C0 > 0 |
| `KineticsLabPage.SecondWordOfCatalystName` | src/app/page.tsx:72 | `split(' ')[1]` of a name "Catalyst X …" is X |
| `KineticsLabPage.CatalystNameSecondWords` | src/lib/chemistry.ts:7-9 | the second words of the A, B and C catalyst names are "A", "B" and "C" |
| `KineticsLabPage.CatalystLabel` | src/app/page.tsx:71-72 | the suffix is empty exactly when the lookup found nothing or found "none"; otherwise it starts with ", Cat: " |
| `KineticsLabPage.CatalystLabelOfEntry` | src/app/page.tsx:71-72 | a catalyst other than "none" that resolves to a table entry gives the suffix ", Cat: " plus the second word of its name |
| `KineticsLabPage.CatalystLabelEmpty` | src/app/page.tsx:72 | "none" and unknown ids give no suffix |
| `KineticsLabPage.CatalystLabelTable` | src/app/page.tsx:71-72 | the name suffix by id: ", Cat: A", ", Cat: B", ", Cat: C", otherwise empty |
| `KineticsLabPage.DatasetName` | src/app/page.tsx:72 | the name starts with "Set " and ends with ")" |
| `KineticsLabPage.NameAfterNumber` | src/app/page.tsx:72 | the part of the name after the number starts with a space |
| `KineticsLabPage.DatasetNameInjective` | src/app/page.tsx:72 | two equal names carry the same dataset number, whatever the energies, catalysts and formatter |
| `KineticsLabPage.BuiltFor` | src/app/page.tsx:63-80 | a dataset built by "add to graph" has one point per sweep temperature, a palette colour, and a stored effective energy between 0 and the base energy (for a non-negative base) |
| `KineticsLabPage.NumberedAt` | src/app/page.tsx:74-80 | dataset i of a numbered list has id, colour and name for number i + 1 |
| `KineticsLabPage.NumberedAppend` | src/app/page.tsx:75-83 | appending the dataset built with number n + 1 to a list numbered 1..n keeps the list numbered |
| `KineticsLabPage.DifferentlyNumberedDiffer` | src/app/page.tsx:72-78 | datasets with numbers 1 ≤ a < b ≤ 5 differ in id, name and colour |
| `KineticsLabPage.NumberedDatasetsDistinct` | src/app/page.tsx:75-83 | the datasets on the graph have pairwise distinct ids, names and colours |
| `KineticsLabPage.PageDatasetsPlotNoRateConstant` | src/app/page.tsx:68 | a `k` chart over the page's datasets gets undefined for every dataset key, because the points omit `k` |
| `KineticsLabPage.SimulationOutcome` | src/app/page.tsx:36-44 | the effective energy is never negative and at most a non-negative base energy; the rate is the rate constant times C0; both are 0 at or below 0 K |
| `KineticsLabPage.SimulationOutcomeBounds` | src/app/page.tsx:36-44 | for accepted parameters and a positive exponential: k > 0, rate ≥ 0 and 0 ≤ effective Ea ≤ Ea |
| `KineticsLabPage.Session.constructor` | src/app/page.tsx:28-33 | initial state: no result, no datasets, counter 1, the graph sweep; the invariant holds |
| `KineticsLabPage.Session.HandleSimulate` | src/app/page.tsx:35-45 | the result becomes {k, k·C0, effective Ea} for these parameters; datasets and counter are unchanged; the invariant is kept |
| `KineticsLabPage.Session.HandleAddToGraph` | src/app/page.tsx:53-83 | refused (false, nothing changed) exactly when five or more datasets exist; otherwise the earlier datasets are kept in order, one dataset is built from the parameters with the current counter and appended, and the counter goes up by one; the result is unchanged and the invariant is kept |
| `KineticsCharts.FindPoint` | src/components/kinetics-lab/kinetics-data-chart.tsx:53 | a found point belongs to the data and has that temperature; None exactly when no point has it |
| `KineticsCharts.FindPointIsFirst` | src/components/kinetics-lab/kinetics-data-chart.tsx:53 | the point found is the first one at that temperature |
| `KineticsCharts.Plotted` | src/components/kinetics-lab/kinetics-data-chart.tsx:55 | a matching point contributes undefined exactly when `k` is plotted and the point has no `k`; a plotted `k` is the point's own |
| `KineticsCharts.RowStart` | src/components/kinetics-lab/kinetics-data-chart.tsx:51 | a fresh row holds only `temperature` |
| `KineticsCharts.ContributorsStep` | src/components/kinetics-lab/kinetics-data-chart.tsx:52-53 | visiting dataset n adds it to the datasets that contribute to the row exactly when it has a point at the temperature |
| `KineticsCharts.RowStepSkip` | src/components/kinetics-lab/kinetics-data-chart.tsx:53-54 | a dataset with no point at the temperature leaves the row as it was, and the row specification extends from n to n + 1 datasets |
| `KineticsCharts.RowKeysWrite` | src/components/kinetics-lab/kinetics-data-chart.tsx:54-55 | after the write the keys are "temperature" and the ids of the first n + 1 datasets with a point at the temperature |
| `KineticsCharts.RowValuesWrite` | src/components/kinetics-lab/kinetics-data-chart.tsx:54-55 | after the write each id holds the plotted value of the last of the first n + 1 datasets with that id and a point |
| `KineticsCharts.RowTemperatureWrite` | src/components/kinetics-lab/kinetics-data-chart.tsx:51-55 | "temperature" still holds the temperature after the write unless some contributing dataset has that id |
| `KineticsCharts.RowStepWrite` | src/components/kinetics-lab/kinetics-data-chart.tsx:52-56 | writing dataset n's value when it has a point at the temperature extends the row specification from n to n + 1 datasets |
| `KineticsCharts.FillRow` | src/components/kinetics-lab/kinetics-data-chart.tsx:51-58 | the keys are `temperature` plus the ids of datasets with a point at the temperature; each id holds the rate or `k` of the first matching point of the last such dataset with that id; `temperature` holds the temperature unless a dataset with id `temperature` matched |
| `KineticsCharts.BuildChartConfig` | src/components/kinetics-lab/kinetics-data-chart.tsx:61-67 | keys are exactly the dataset ids; each maps to the name and colour of the last dataset with that id |
| `KineticsCharts.KineticsDataChart` | src/components/kinetics-lab/kinetics-data-chart.tsx:33-67 | empty state exactly when there are no datasets; otherwise one row per temperature point in order, each as FillRow states, and the config as BuildChartConfig states |
| `KineticsCharts.LastContributorExists` | src/components/kinetics-lab/rate-chart.tsx:52-56 | every dataset with a matching point has a last dataset with the same id that also matches |
| `KineticsCharts.RowDetermined` | src/components/kinetics-lab/rate-chart.tsx:50-59 | the row specification has exactly one solution |
| `KineticsCharts.RowKeyForDataset` | src/components/kinetics-lab/rate-chart.tsx:52-56 | with distinct ids, a row has dataset j's id exactly when its data has a point at that temperature, and then holds the first such point's rate or `k` |
| `KineticsCharts.LastWithIdExists` | src/components/kinetics-lab/rate-chart.tsx:61-66 | every dataset id belongs to a last dataset with that id |
| `KineticsCharts.ConfigDetermined` | src/components/kinetics-lab/rate-chart.tsx:61-67 | the config specification has exactly one solution |

## Left out

- Rendering is left out: the JSX, the recharts components, the axis and
  tooltip formatters (`toExponential`) and the card layout. The chart model
  stops at `transformedData` and `chartConfig`.
- Toast notifications are left out. A refused "add to graph" returns false
  instead.
- The parameter form itself, the results display, the terminology tooltip and
  the LLM-backed explanation flow are left out. They are UI, or an
  asynchronous call to a foreign service. The form's schema is kept as
  `Types.AcceptedByForm` and `Types.FormIssues`; the coercion of the typed
  text to a number is not modelled.
- Floating point is not modelled. Numbers are exact reals, so there is no
  overflow, underflow, rounding or infinity. `Math.exp` is a parameter, and
  only its positivity is assumed, where a lemma needs it. No numeric
  approximation such as k ≈ 3.47 at 298 K is proved.
- `toFixed(1)` is a parameter (`toFixed1`). The name is modelled up to that
  formatter.
- React's state semantics are not modelled. Each handler is one atomic step:
  the page's guard reads a closure value while its updates are functional,
  and that difference is not captured.
- The page wires the chart under the wrong import name (`RateChart`) and
  passes only `datasets` and `temperaturePoints` (no `valueToPlot`, title, `chartDescription` or `yAxisLabel`). These are build defects and are
  not modelled.
- `DEFAULT_SIMULATION_PARAMETERS` is only initial form values and is not
  modelled.
- KineticsLabPage.ChartColor: requires a counter of at least 1. The session
  counter starts at 1 and only grows, so the case of index −1 (an undefined
  colour in JavaScript) never arises.
- Rows and the chart configuration are modelled as plain maps, in which
  every dataset id becomes a key. In JavaScript the id `__proto__` behaves
  differently: `point["__proto__"] = value` goes to the inherited setter and
  adds no key, and `config["__proto__"] = {…}` replaces the object's
  prototype instead of adding an entry. `IsRow` and `IsConfig` do not capture
  this; the page only creates ids of the form `dataset-N`, so it never
  arises there.
- The `label` field of a chart-config entry is called `labelText`, because
  `label` is a Dafny keyword.
