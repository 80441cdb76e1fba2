/**
 * The kinetics lab page: its session state (the current result, the datasets
 * on the graph and the next dataset number) and the two handlers the form
 * calls, "simulate" and "add to graph". Each handler runs as one atomic step;
 * the notifications it shows are not modelled, a rejected add returns false.
 */
module KineticsLabPage {
  import opened Wrappers
  import opened Types
  import opened Chemistry
  import Strings
  import KineticsCharts

  const ChartColors: seq<string> := [
    "hsl(var(--chart-1))",
    "hsl(var(--chart-2))",
    "hsl(var(--chart-3))",
    "hsl(var(--chart-4))",
    "hsl(var(--chart-5))"
  ]

  /** The graph holds at most this many datasets. */
  const MaxGraphDatasets: nat := 5

  /** The palette colour for dataset number n, cycling through the palette. */
  function ChartColor(n: int): (c: string)
    requires n >= 1
    ensures c in ChartColors
  {
    ChartColors[(n - 1) % |ChartColors|]
  }

  /** The palette repeats every five datasets. */
  lemma ChartColorCycles(n: int)
    requires n >= 1
    ensures ChartColor(n + |ChartColors|) == ChartColor(n)
  {
    assert (n + |ChartColors| - 1) % |ChartColors| == (n - 1) % |ChartColors|;
  }

  /** The first five dataset numbers get five different colours. */
  lemma ChartColorsDistinct(a: int, b: int)
    requires 1 <= a < b <= MaxGraphDatasets
    ensures ChartColor(a) != ChartColor(b)
  {
  }

  /** `dataset-${n}`. */
  function DatasetId(n: nat): (id: string)
    ensures |id| > 8 && id[..8] == "dataset-"
    ensures forall i :: 8 <= i < |id| ==> Strings.IsDigit(id[i])
  {
    "dataset-" + Strings.NatToString(n)
  }

  /** Different dataset numbers give different ids. */
  lemma DatasetIdInjective(a: nat, b: nat)
    requires DatasetId(a) == DatasetId(b)
    ensures a == b
  {
    assert Strings.NatToString(a) == DatasetId(a)[8..] == DatasetId(b)[8..] == Strings.NatToString(b);
    Strings.NatToStringInjective(a, b);
  }

  /** The `temperaturePoints.map` callback: the rate at one sweep temperature.
      Like the source, it sets no `k`. */
  function PlotPoint(exp: real -> real, params: SimulationParameters, effectiveEaKjMol: real, temp: int): (p: ChartDataPoint)
    ensures p.temperature == temp as real && p.k.None?
    ensures temp <= 0 ==> p.rate == 0.0
  {
    var k := RateConstant(exp, params.preExponentialFactor, effectiveEaKjMol, temp as real);
    var rate := ReactionRate(k, params.initialConcentration);
    ChartDataPoint(temp as real, rate, None)
  }

  /** The dataset's points: one per sweep temperature, in sweep order. */
  function ChartData(exp: real -> real, params: SimulationParameters, effectiveEaKjMol: real, temperaturePoints: seq<int>)
    : (data: seq<ChartDataPoint>)
    ensures |data| == |temperaturePoints|
    ensures forall i :: 0 <= i < |data| ==> data[i].temperature == temperaturePoints[i] as real && data[i].k.None?
  {
    seq(|temperaturePoints|, i requires 0 <= i < |temperaturePoints| => PlotPoint(exp, params, effectiveEaKjMol, temperaturePoints[i]))
  }

  /** Over the graph sweep, a page dataset's points rise strictly in temperature
      and, for accepted parameters, the rates are never negative and are
      positive whenever the concentration is. */
  lemma ChartDataOverSweep(exp: real -> real, params: SimulationParameters, temperaturePoints: seq<int>)
    requires IsPositive(exp) && AcceptedByForm(params) && IsGraphSweep(temperaturePoints)
    ensures
      var eff := EffectiveActivationEnergy(params.activationEnergy, params.catalystId);
      var data := ChartData(exp, params, eff, temperaturePoints);
      && (forall i, j :: 0 <= i < j < |data| ==> data[i].temperature < data[j].temperature)
      && (forall i :: 0 <= i < |data| ==> data[i].rate >= 0.0)
      && (params.initialConcentration > 0.0 ==> forall i :: 0 <= i < |data| ==> data[i].rate > 0.0)
  {
    var eff := EffectiveActivationEnergy(params.activationEnergy, params.catalystId);
    var data := ChartData(exp, params, eff, temperaturePoints);
    forall i | 0 <= i < |data|
      ensures data[i].rate >= 0.0
      ensures params.initialConcentration > 0.0 ==> data[i].rate > 0.0
    {
      var t := temperaturePoints[i] as real;
      RateConstantSign(exp, params.preExponentialFactor, eff, t);
      var k := RateConstant(exp, params.preExponentialFactor, eff, t);
      assert data[i].rate == k * params.initialConcentration;
      assert k > 0.0;
    }
  }

  /** The name suffix for the looked-up catalyst: `, Cat: ` and the second
      word of its name, only when it resolved and is not "none". */
  function CatalystLabel(catalyst: Option<Catalyst>): (suffix: string)
    ensures suffix == "" <==> catalyst.None? || catalyst.value.id == "none"
    ensures suffix == "" || (|suffix| >= 7 && suffix[..7] == ", Cat: ")
  {
    if catalyst.Some? && catalyst.value.id != "none"
    then
      var word := Strings.Text(Strings.SecondField(catalyst.value.name, ' '));
      assert (", Cat: " + word)[..7] == ", Cat: ";
      ", Cat: " + word
    else ""
  }

  /** `name.split(' ')[1]` of a name written "Catalyst <letter> <rest>". */
  lemma SecondWordOfCatalystName(name: string, letter: string, rest: string)
    requires name == "Catalyst" + [' '] + letter + rest
    requires ' ' !in letter && |rest| > 0 && rest[0] == ' '
    ensures Strings.SecondField(name, ' ') == Some(letter)
  {
    Strings.SecondFieldOf("Catalyst", letter, rest, ' ');
  }

  lemma CatalystANameWords()
    ensures Catalysts[1].name == "Catalyst" + [' '] + "A" + " (-20 kJ/mol Ea)"
  {
  }

  lemma CatalystBNameWords()
    ensures Catalysts[2].name == "Catalyst" + [' '] + "B" + " (-40 kJ/mol Ea)"
  {
  }

  lemma CatalystCNameWords()
    ensures Catalysts[3].name == "Catalyst" + [' '] + "C" + " (-60 kJ/mol Ea)"
  {
  }

  /** The second word of each catalyst name is its letter. */
  lemma CatalystNameSecondWords()
    ensures Strings.SecondField(Catalysts[1].name, ' ') == Some("A")
    ensures Strings.SecondField(Catalysts[2].name, ' ') == Some("B")
    ensures Strings.SecondField(Catalysts[3].name, ' ') == Some("C")
  {
    CatalystANameWords();
    SecondWordOfCatalystName(Catalysts[1].name, "A", " (-20 kJ/mol Ea)");
    CatalystBNameWords();
    SecondWordOfCatalystName(Catalysts[2].name, "B", " (-40 kJ/mol Ea)");
    CatalystCNameWords();
    SecondWordOfCatalystName(Catalysts[3].name, "C", " (-60 kJ/mol Ea)");
  }

  /** The suffix for a catalyst the table resolves to entry i. */
  lemma CatalystLabelOfEntry(catalystId: string, i: nat, letter: string)
    requires 1 <= i < |Catalysts| && catalystId == Catalysts[i].id
    requires Strings.SecondField(Catalysts[i].name, ' ') == Some(letter)
    ensures CatalystLabel(GetCatalystById(catalystId)) == ", Cat: " + letter
  {
    GetCatalystByIdTable(catalystId);
    assert GetCatalystById(catalystId) == Some(Catalysts[i]);
  }

  /** No suffix for "none" or an id outside the table. */
  lemma CatalystLabelEmpty(catalystId: string)
    requires catalystId != "catalystA" && catalystId != "catalystB" && catalystId != "catalystC"
    ensures CatalystLabel(GetCatalystById(catalystId)) == ""
  {
    GetCatalystByIdTable(catalystId);
  }

  lemma CatalystALabel()
    ensures CatalystLabel(GetCatalystById("catalystA")) == ", Cat: A"
  {
    CatalystANameWords();
    SecondWordOfCatalystName(Catalysts[1].name, "A", " (-20 kJ/mol Ea)");
    CatalystLabelOfEntry("catalystA", 1, "A");
  }

  lemma CatalystBLabel()
    ensures CatalystLabel(GetCatalystById("catalystB")) == ", Cat: B"
  {
    CatalystBNameWords();
    SecondWordOfCatalystName(Catalysts[2].name, "B", " (-40 kJ/mol Ea)");
    CatalystLabelOfEntry("catalystB", 2, "B");
  }

  lemma CatalystCLabel()
    ensures CatalystLabel(GetCatalystById("catalystC")) == ", Cat: C"
  {
    CatalystCNameWords();
    SecondWordOfCatalystName(Catalysts[3].name, "C", " (-60 kJ/mol Ea)");
    CatalystLabelOfEntry("catalystC", 3, "C");
  }

  /** The suffix, catalyst by catalyst. */
  lemma CatalystLabelTable(catalystId: string)
    ensures catalystId == "catalystA" ==> CatalystLabel(GetCatalystById(catalystId)) == ", Cat: A"
    ensures catalystId == "catalystB" ==> CatalystLabel(GetCatalystById(catalystId)) == ", Cat: B"
    ensures catalystId == "catalystC" ==> CatalystLabel(GetCatalystById(catalystId)) == ", Cat: C"
    ensures catalystId != "catalystA" && catalystId != "catalystB" && catalystId != "catalystC" ==>
              CatalystLabel(GetCatalystById(catalystId)) == ""
  {
    if catalystId == "catalystA" {
      CatalystALabel();
    } else if catalystId == "catalystB" {
      CatalystBLabel();
    } else if catalystId == "catalystC" {
      CatalystCLabel();
    } else {
      CatalystLabelEmpty(catalystId);
    }
  }

  /** `Set ${n} (Ea: ${eff.toFixed(1)} kJ/mol<suffix>)`, `toFixed(1)` being passed in. */
  function DatasetName(toFixed1: real -> string, n: nat, effectiveEaKjMol: real, catalystId: string): (name: string)
    ensures |name| > 5 && name[..4] == "Set " && name[|name| - 1] == ')'
  {
    "Set " + Strings.NatToString(n) + NameAfterNumber(toFixed1, effectiveEaKjMol, catalystId)
  }

  /** The part of the name after the dataset number. */
  function NameAfterNumber(toFixed1: real -> string, effectiveEaKjMol: real, catalystId: string): (r: string)
    ensures |r| > 0 && r[0] == ' '
  {
    " (Ea: " + (toFixed1(effectiveEaKjMol) + " kJ/mol" + CatalystLabel(GetCatalystById(catalystId)) + ")")
  }

  /** Names carry their dataset number: two names that agree have the same
      number, whatever the energies, catalysts and formatting. */
  lemma DatasetNameInjective(f: real -> string, g: real -> string, a: nat, b: nat, ea: real, eb: real, ca: string, cb: string)
    requires DatasetName(f, a, ea, ca) == DatasetName(g, b, eb, cb)
    ensures a == b
  {
    var da, db := Strings.NatToString(a), Strings.NatToString(b);
    var ra, rb := NameAfterNumber(f, ea, ca), NameAfterNumber(g, eb, cb);
    DropSetPrefix(da, ra);
    DropSetPrefix(db, rb);
    assert da + ra == db + rb;
    Strings.NumberBeforeNonDigit(a, b, ra, rb);
  }

  lemma DropSetPrefix(digits: string, rest: string)
    ensures ("Set " + digits + rest)[4..] == digits + rest
  {
  }

  /** Dataset `ds` is what "add to graph" builds from `params` with counter n. */
  ghost predicate BuiltFor(ds: ChartDataset, params: SimulationParameters, n: nat,
                           exp: real -> real, toFixed1: real -> string, temperaturePoints: seq<int>): (built: bool)
    ensures built ==> |ds.data| == |temperaturePoints| && ds.color in ChartColors
    ensures built ==> 0.0 <= ds.params.effectiveActivationEnergy
    ensures built && params.activationEnergy >= 0.0 ==> ds.params.effectiveActivationEnergy <= params.activationEnergy
  {
    var eff := EffectiveActivationEnergy(params.activationEnergy, params.catalystId);
    && n >= 1
    && ds.id == DatasetId(n)
    && ds.name == DatasetName(toFixed1, n, eff, params.catalystId)
    && ds.data == ChartData(exp, params, eff, temperaturePoints)
    && ds.color == ChartColor(n)
    && ds.params == DatasetParameters(params, eff)
  }

  /** The i-th dataset on the graph was built with counter i + 1. */
  ghost predicate Numbered(datasets: seq<ChartDataset>, exp: real -> real, toFixed1: real -> string, temperaturePoints: seq<int>)
  {
    forall i :: 0 <= i < |datasets| ==>
      BuiltFor(datasets[i], datasets[i].params.simulation, i + 1, exp, toFixed1, temperaturePoints)
  }

  /** What Numbered says of dataset i. */
  lemma NumberedAt(datasets: seq<ChartDataset>, exp: real -> real, toFixed1: real -> string, temperaturePoints: seq<int>, i: nat)
    requires Numbered(datasets, exp, toFixed1, temperaturePoints) && i < |datasets|
    ensures datasets[i].id == DatasetId(i + 1)
    ensures datasets[i].color == ChartColor(i + 1)
    ensures datasets[i].name == DatasetName(toFixed1, i + 1, datasets[i].params.effectiveActivationEnergy,
                                            datasets[i].params.simulation.catalystId)
  {
    assert BuiltFor(datasets[i], datasets[i].params.simulation, i + 1, exp, toFixed1, temperaturePoints);
  }

  /** Appending the dataset built with the next number keeps the list numbered. */
  lemma NumberedAppend(datasets: seq<ChartDataset>, ds: ChartDataset,
                       exp: real -> real, toFixed1: real -> string, temperaturePoints: seq<int>)
    requires Numbered(datasets, exp, toFixed1, temperaturePoints)
    requires BuiltFor(ds, ds.params.simulation, |datasets| + 1, exp, toFixed1, temperaturePoints)
    ensures Numbered(datasets + [ds], exp, toFixed1, temperaturePoints)
  {
    var s := datasets + [ds];
    forall i | 0 <= i < |s|
      ensures BuiltFor(s[i], s[i].params.simulation, i + 1, exp, toFixed1, temperaturePoints)
    {
      if i < |datasets| {
        assert s[i] == datasets[i];
      }
    }
  }

  /** Datasets numbered differently differ in id and name, and, among the
      first five numbers, in colour. */
  lemma DifferentlyNumberedDiffer(di: ChartDataset, dj: ChartDataset, a: nat, b: nat, toFixed1: real -> string)
    requires 1 <= a < b <= MaxGraphDatasets
    requires di.id == DatasetId(a) && dj.id == DatasetId(b)
    requires di.color == ChartColor(a) && dj.color == ChartColor(b)
    requires di.name == DatasetName(toFixed1, a, di.params.effectiveActivationEnergy, di.params.simulation.catalystId)
    requires dj.name == DatasetName(toFixed1, b, dj.params.effectiveActivationEnergy, dj.params.simulation.catalystId)
    ensures di.id != dj.id && di.name != dj.name && di.color != dj.color
  {
    if di.id == dj.id {
      DatasetIdInjective(a, b);
    }
    if di.name == dj.name {
      DatasetNameInjective(toFixed1, toFixed1, a, b,
        di.params.effectiveActivationEnergy, dj.params.effectiveActivationEnergy,
        di.params.simulation.catalystId, dj.params.simulation.catalystId);
    }
    ChartColorsDistinct(a, b);
  }

  /** Datasets on the graph never share an id or a name, and, as there are at
      most five, never a colour. */
  lemma NumberedDatasetsDistinct(datasets: seq<ChartDataset>, exp: real -> real, toFixed1: real -> string, temperaturePoints: seq<int>)
    requires Numbered(datasets, exp, toFixed1, temperaturePoints) && |datasets| <= MaxGraphDatasets
    ensures forall i, j :: 0 <= i < j < |datasets| ==>
      datasets[i].id != datasets[j].id && datasets[i].name != datasets[j].name && datasets[i].color != datasets[j].color
  {
    forall i, j | 0 <= i < j < |datasets|
      ensures datasets[i].id != datasets[j].id && datasets[i].name != datasets[j].name && datasets[i].color != datasets[j].color
    {
      NumberedAt(datasets, exp, toFixed1, temperaturePoints, i);
      NumberedAt(datasets, exp, toFixed1, temperaturePoints, j);
      DifferentlyNumberedDiffer(datasets[i], datasets[j], i + 1, j + 1, toFixed1);
    }
  }

  /** The page's datasets carry no `k`, so a chart asked to plot `k` from them
      gets undefined for every dataset key of every row. */
  lemma PageDatasetsPlotNoRateConstant(datasets: seq<ChartDataset>, exp: real -> real, toFixed1: real -> string,
                                       temperaturePoints: seq<int>, row: KineticsCharts.Row, temp: real)
    requires Numbered(datasets, exp, toFixed1, temperaturePoints)
    requires KineticsCharts.IsRow(row, datasets, temp, KineticsCharts.K)
    ensures forall j :: KineticsCharts.LastContributor(datasets, |datasets|, j, temp) ==> row[datasets[j].id] == None
  {
    forall j | KineticsCharts.LastContributor(datasets, |datasets|, j, temp)
      ensures row[datasets[j].id] == None
    {
      var ds := datasets[j];
      assert BuiltFor(ds, ds.params.simulation, j + 1, exp, toFixed1, temperaturePoints);
      var p := KineticsCharts.FindPoint(ds.data, temp).value;
      assert p in ds.data;
    }
  }

  /** What "simulate" computes for its parameters. */
  function SimulationOutcome(exp: real -> real, params: SimulationParameters): (result: SimulationResult)
    ensures result.effectiveActivationEnergy >= 0.0
    ensures params.activationEnergy >= 0.0 ==> result.effectiveActivationEnergy <= params.activationEnergy
    ensures result.reactionRate == result.rateConstant * params.initialConcentration
    ensures params.temperature <= 0.0 ==> result.rateConstant == 0.0 && result.reactionRate == 0.0
  {
    var eff := EffectiveActivationEnergy(params.activationEnergy, params.catalystId);
    var k := RateConstant(exp, params.preExponentialFactor, eff, params.temperature);
    SimulationResult(k, ReactionRate(k, params.initialConcentration), eff)
  }

  /** For parameters the form accepts, the result has a positive rate constant,
      a non-negative rate and an effective energy between 0 and the base energy. */
  lemma SimulationOutcomeBounds(exp: real -> real, params: SimulationParameters)
    requires IsPositive(exp) && AcceptedByForm(params)
    ensures SimulationOutcome(exp, params).rateConstant > 0.0
    ensures SimulationOutcome(exp, params).reactionRate >= 0.0
    ensures 0.0 <= SimulationOutcome(exp, params).effectiveActivationEnergy <= params.activationEnergy
  {
    var eff := EffectiveActivationEnergy(params.activationEnergy, params.catalystId);
    RateConstantSign(exp, params.preExponentialFactor, eff, params.temperature);
  }

  /** The page component's state. `exp` and `toFixed1` stand for `Math.exp` and
      `Number.prototype.toFixed(1)`. */
  class Session {
    const exp: real -> real
    const toFixed1: real -> string
    const temperaturePoints: seq<int>
    var currentResult: Option<SimulationResult>
    var graphDatasets: seq<ChartDataset>
    var nextDatasetId: int

    /** At most five datasets, numbered 1, 2, ... in order, and the counter one
        past the last (nothing ever removes a dataset). */
    ghost predicate Valid()
      reads this
    {
      && IsGraphSweep(temperaturePoints)
      && |graphDatasets| <= MaxGraphDatasets
      && nextDatasetId == |graphDatasets| + 1
      && Numbered(graphDatasets, exp, toFixed1, temperaturePoints)
    }

    /** The initial state: no result, no datasets, counter 1. */
    constructor (exp: real -> real, toFixed1: real -> string)
      ensures Valid()
      ensures this.exp == exp && this.toFixed1 == toFixed1
      ensures currentResult == None && graphDatasets == [] && nextDatasetId == 1
    {
      this.exp := exp;
      this.toFixed1 := toFixed1;
      var points := GenerateTemperaturePoints();
      temperaturePoints := points;
      currentResult := None;
      graphDatasets := [];
      nextDatasetId := 1;
    }

    /** "Simulate": replaces the current result, touching nothing else. */
    method HandleSimulate(params: SimulationParameters)
      requires Valid()
      modifies this
      ensures Valid()
      ensures currentResult == Some(SimulationOutcome(exp, params))
      ensures graphDatasets == old(graphDatasets) && nextDatasetId == old(nextDatasetId)
    {
      var effectiveEaKjMol := EffectiveActivationEnergy(params.activationEnergy, params.catalystId);
      var k := RateConstant(exp, params.preExponentialFactor, effectiveEaKjMol, params.temperature);
      var rate := ReactionRate(k, params.initialConcentration);
      currentResult := Some(SimulationResult(k, rate, effectiveEaKjMol));
    }

    /** "Add to graph": refused (false, no change) with five datasets on the
        graph; otherwise appends the dataset built with the current counter and
        advances the counter. */
    method HandleAddToGraph(params: SimulationParameters) returns (added: bool)
      requires Valid()
      modifies this
      ensures Valid()
      ensures added <==> old(|graphDatasets|) < MaxGraphDatasets
      ensures !added ==> graphDatasets == old(graphDatasets) && nextDatasetId == old(nextDatasetId)
      ensures added ==>
        && |graphDatasets| == old(|graphDatasets|) + 1
        && graphDatasets[..old(|graphDatasets|)] == old(graphDatasets)
        && BuiltFor(graphDatasets[old(|graphDatasets|)], params, old(nextDatasetId), exp, toFixed1, temperaturePoints)
        && nextDatasetId == old(nextDatasetId) + 1
      ensures currentResult == old(currentResult)
    {
      if |graphDatasets| >= MaxGraphDatasets {
        return false;
      }
      var effectiveEaKjMol := EffectiveActivationEnergy(params.activationEnergy, params.catalystId);
      var chartData := ChartData(exp, params, effectiveEaKjMol, temperaturePoints);
      var datasetName := DatasetName(toFixed1, nextDatasetId, effectiveEaKjMol, params.catalystId);
      var newDataset := ChartDataset(
        DatasetId(nextDatasetId),
        datasetName,
        chartData,
        ChartColor(nextDatasetId),
        DatasetParameters(params, effectiveEaKjMol));
      assert BuiltFor(newDataset, params, nextDatasetId, exp, toFixed1, temperaturePoints);
      NumberedAppend(graphDatasets, newDataset, exp, toFixed1, temperaturePoints);
      graphDatasets := graphDatasets + [newDataset];
      nextDatasetId := nextDatasetId + 1;
      added := true;
    }
  }

  /** A worked example only, with no contract of its own: from a fresh
      session, five adds succeed with distinct ids and a sixth is refused,
      leaving the five in place. */
  method GraphLimitScenario(exp: real -> real, toFixed1: real -> string, params: SimulationParameters)
  {
    var session := new Session(exp, toFixed1);
    var added := session.HandleAddToGraph(params);
    assert added;
    added := session.HandleAddToGraph(params);
    assert added;
    added := session.HandleAddToGraph(params);
    added := session.HandleAddToGraph(params);
    added := session.HandleAddToGraph(params);
    assert added && |session.graphDatasets| == 5;
    var before := session.graphDatasets;
    added := session.HandleAddToGraph(params);
    assert !added && session.graphDatasets == before;
    NumberedDatasetsDistinct(session.graphDatasets, exp, toFixed1, session.temperaturePoints);
    assert session.graphDatasets[0].id != session.graphDatasets[1].id;
  }
}
