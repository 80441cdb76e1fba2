/**
 * The data preparation inside the `KineticsDataChart` component (one copy in
 * kinetics-data-chart.tsx, an identical one in rate-chart.tsx): the pivot of
 * the datasets into one row per temperature and the id -> {label, color}
 * configuration. Rendering is not modelled.
 */
module KineticsCharts {
  import opened Wrappers
  import opened Types
  import Arrays

  /** The `valueToPlot` prop, `'rate' | 'k'`. */
  datatype ValueToPlot = Rate | K

  datatype ConfigEntry = ConfigEntry(labelText: string, color: string)  // `label` is a Dafny keyword

  /** One `TransformedChartData` object: a dictionary holding `temperature` and
      one entry per plotted dataset id. A key bound to None is present with the
      value undefined. */
  type Row = map<string, Option<real>>

  /** What the component produces: the empty-state card, or the pivoted rows
      and the configuration handed to the chart. */
  datatype ChartView =
    | EmptyState
    | Chart(transformedData: seq<Row>, chartConfig: map<string, ConfigEntry>)

  const TemperatureKey: string := "temperature"

  /** `data.find(d => d.temperature === temp)`. */
  function FindPoint(data: seq<ChartDataPoint>, temp: real): (r: Option<ChartDataPoint>)
    ensures r.Some? ==> r.value in data && r.value.temperature == temp
    ensures r.None? <==> forall i :: 0 <= i < |data| ==> data[i].temperature != temp
  {
    Arrays.Find(data, (d: ChartDataPoint) => d.temperature == temp)
  }

  /** FindPoint gives the first point at that temperature. */
  lemma FindPointIsFirst(data: seq<ChartDataPoint>, temp: real, i: nat)
    requires i < |data| && data[i].temperature == temp
    requires forall j :: 0 <= j < i ==> data[j].temperature != temp
    ensures FindPoint(data, temp) == Some(data[i])
  {
    Arrays.FindIsFirst(data, (d: ChartDataPoint) => d.temperature == temp, i);
  }

  /** The value a matching point contributes: its rate, or its (possibly
      undefined) k. */
  function Plotted(p: ChartDataPoint, valueToPlot: ValueToPlot): (v: Option<real>)
    ensures v.None? <==> valueToPlot.K? && p.k.None?
    ensures v.Some? && valueToPlot.K? ==> p.k == v
  {
    if valueToPlot == Rate then Some(p.rate) else p.k
  }

  /** Dataset j, among the first n, has a point at `temp`. */
  ghost predicate Contributes(datasets: seq<ChartDataset>, n: int, j: int, temp: real)
  {
    0 <= j < n <= |datasets| && FindPoint(datasets[j].data, temp).Some?
  }

  /** Dataset j is the last of the first n with its id that has a point at `temp`. */
  ghost predicate LastContributor(datasets: seq<ChartDataset>, n: int, j: int, temp: real)
  {
    && Contributes(datasets, n, j, temp)
    && forall j' :: j < j' < n && datasets[j'].id == datasets[j].id ==> !Contributes(datasets, n, j', temp)
  }

  /** After `forEach` has visited the first n datasets, the row's keys are
      `temperature` and the ids of the datasets with a point at `temp`. */
  ghost predicate RowKeys(row: Row, datasets: seq<ChartDataset>, n: int, temp: real)
  {
    && n <= |datasets|
    && forall key :: key in row <==>
         key == TemperatureKey || exists j :: Contributes(datasets, n, j, temp) && datasets[j].id == key
  }

  /** ... each id holds the value of the last such dataset with that id ... */
  ghost predicate RowValues(row: Row, datasets: seq<ChartDataset>, n: int, temp: real, valueToPlot: ValueToPlot)
  {
    forall j :: LastContributor(datasets, n, j, temp) ==>
      datasets[j].id in row && row[datasets[j].id] == Plotted(FindPoint(datasets[j].data, temp).value, valueToPlot)
  }

  /** ... and `temperature` holds the temperature unless a dataset with that id wrote over it. */
  ghost predicate RowTemperature(row: Row, datasets: seq<ChartDataset>, n: int, temp: real)
  {
    (forall j :: Contributes(datasets, n, j, temp) ==> datasets[j].id != TemperatureKey) ==>
      TemperatureKey in row && row[TemperatureKey] == Some(temp)
  }

  /** The row for `temp` after `forEach` has visited the first n datasets. */
  ghost predicate IsRowUpTo(row: Row, datasets: seq<ChartDataset>, n: int, temp: real, valueToPlot: ValueToPlot)
  {
    RowKeys(row, datasets, n, temp) && RowValues(row, datasets, n, temp, valueToPlot) && RowTemperature(row, datasets, n, temp)
  }

  ghost predicate IsRow(row: Row, datasets: seq<ChartDataset>, temp: real, valueToPlot: ValueToPlot)
  {
    IsRowUpTo(row, datasets, |datasets|, temp, valueToPlot)
  }

  /** Visiting dataset n adds it to the contributors exactly when it has a point at `temp`. */
  lemma ContributorsStep(datasets: seq<ChartDataset>, n: nat, temp: real)
    requires n < |datasets|
    ensures forall j :: Contributes(datasets, n + 1, j, temp) <==>
      (Contributes(datasets, n, j, temp) || (j == n && FindPoint(datasets[n].data, temp).Some?))
  {
  }

  /** A step of `forEach` over a dataset without a point at `temp` leaves the row as it was. */
  lemma {:induction false} RowStepSkip(row: Row, datasets: seq<ChartDataset>, n: nat, temp: real, valueToPlot: ValueToPlot)
    requires n < |datasets| && IsRowUpTo(row, datasets, n, temp, valueToPlot)
    requires FindPoint(datasets[n].data, temp).None?
    ensures IsRowUpTo(row, datasets, n + 1, temp, valueToPlot)
  {
    ContributorsStep(datasets, n, temp);
    forall j | LastContributor(datasets, n + 1, j, temp)
      ensures LastContributor(datasets, n, j, temp)
    {
    }
  }

  /** The key of one key after dataset n's value is written. */
  lemma RowKeysWriteOne(row: Row, datasets: seq<ChartDataset>, n: nat, temp: real, value: Option<real>, key: string)
    requires n < |datasets| && RowKeys(row, datasets, n, temp)
    requires FindPoint(datasets[n].data, temp).Some?
    ensures key in row[datasets[n].id := value] <==>
      key == TemperatureKey || exists j :: Contributes(datasets, n + 1, j, temp) && datasets[j].id == key
  {
    ContributorsStep(datasets, n, temp);
    if key == datasets[n].id {
      assert Contributes(datasets, n + 1, n, temp);
    } else if key in row && key != TemperatureKey {
      var j :| Contributes(datasets, n, j, temp) && datasets[j].id == key;
      assert Contributes(datasets, n + 1, j, temp);
    }
  }

  lemma RowKeysWrite(row: Row, datasets: seq<ChartDataset>, n: nat, temp: real, value: Option<real>)
    requires n < |datasets| && RowKeys(row, datasets, n, temp)
    requires FindPoint(datasets[n].data, temp).Some?
    ensures RowKeys(row[datasets[n].id := value], datasets, n + 1, temp)
  {
    var row' := row[datasets[n].id := value];
    forall key
      ensures key in row' <==>
        key == TemperatureKey || exists j :: Contributes(datasets, n + 1, j, temp) && datasets[j].id == key
    {
      RowKeysWriteOne(row, datasets, n, temp, value, key);
    }
  }

  lemma RowValuesWrite(row: Row, datasets: seq<ChartDataset>, n: nat, temp: real, valueToPlot: ValueToPlot)
    requires n < |datasets| && RowValues(row, datasets, n, temp, valueToPlot)
    requires FindPoint(datasets[n].data, temp).Some?
    ensures RowValues(row[datasets[n].id := Plotted(FindPoint(datasets[n].data, temp).value, valueToPlot)],
                      datasets, n + 1, temp, valueToPlot)
  {
    ContributorsStep(datasets, n, temp);
    assert Contributes(datasets, n + 1, n, temp);
    forall j | LastContributor(datasets, n + 1, j, temp) && j < n
      ensures datasets[j].id != datasets[n].id && LastContributor(datasets, n, j, temp)
    {
    }
  }

  lemma RowTemperatureWrite(row: Row, datasets: seq<ChartDataset>, n: nat, temp: real, value: Option<real>)
    requires n < |datasets| && RowTemperature(row, datasets, n, temp)
    requires FindPoint(datasets[n].data, temp).Some?
    ensures RowTemperature(row[datasets[n].id := value], datasets, n + 1, temp)
  {
    ContributorsStep(datasets, n, temp);
    assert Contributes(datasets, n + 1, n, temp);
  }

  /** A step of `forEach` over a dataset with a point at `temp` writes its value under its id. */
  lemma RowStepWrite(row: Row, datasets: seq<ChartDataset>, n: nat, temp: real, valueToPlot: ValueToPlot)
    requires n < |datasets| && IsRowUpTo(row, datasets, n, temp, valueToPlot)
    requires FindPoint(datasets[n].data, temp).Some?
    ensures IsRowUpTo(row[datasets[n].id := Plotted(FindPoint(datasets[n].data, temp).value, valueToPlot)],
                      datasets, n + 1, temp, valueToPlot)
  {
    var value := Plotted(FindPoint(datasets[n].data, temp).value, valueToPlot);
    RowKeysWrite(row, datasets, n, temp, value);
    RowValuesWrite(row, datasets, n, temp, valueToPlot);
    RowTemperatureWrite(row, datasets, n, temp, value);
  }

  /** Before `forEach`: the row holds only the temperature. */
  lemma RowStart(datasets: seq<ChartDataset>, temp: real, valueToPlot: ValueToPlot)
    ensures IsRowUpTo(map[TemperatureKey := Some(temp)], datasets, 0, temp, valueToPlot)
  {
    assert forall j :: !Contributes(datasets, 0, j, temp);
  }

  /** The inner `datasets.forEach`, which writes `point[ds.id]` for every
      dataset that has a point at `temp`. */
  method FillRow(datasets: seq<ChartDataset>, temp: real, valueToPlot: ValueToPlot) returns (point: Row)
    ensures IsRow(point, datasets, temp, valueToPlot)
  {
    point := map[TemperatureKey := Some(temp)];
    RowStart(datasets, temp, valueToPlot);
    var n := 0;
    while n < |datasets|
      invariant 0 <= n <= |datasets|
      invariant IsRowUpTo(point, datasets, n, temp, valueToPlot)
    {
      var ds := datasets[n];
      var dataPoint := FindPoint(ds.data, temp);
      if dataPoint.Some? {
        RowStepWrite(point, datasets, n, temp, valueToPlot);
        point := point[ds.id := Plotted(dataPoint.value, valueToPlot)];
      } else {
        RowStepSkip(point, datasets, n, temp, valueToPlot);
      }
      n := n + 1;
    }
  }

  /** Dataset j is the last of the first n with its id. */
  ghost predicate LastWithId(datasets: seq<ChartDataset>, n: int, j: int)
  {
    && 0 <= j < n <= |datasets|
    && forall j' :: j < j' < n ==> datasets[j'].id != datasets[j].id
  }

  /** The configuration after `reduce` has visited the first n datasets. */
  ghost predicate IsConfigUpTo(config: map<string, ConfigEntry>, datasets: seq<ChartDataset>, n: int)
  {
    && n <= |datasets|
    && (forall id :: id in config <==> exists j :: 0 <= j < n && datasets[j].id == id)
    && (forall j :: LastWithId(datasets, n, j) ==>
          datasets[j].id in config && config[datasets[j].id] == ConfigEntry(datasets[j].name, datasets[j].color))
  }

  ghost predicate IsConfig(config: map<string, ConfigEntry>, datasets: seq<ChartDataset>)
  {
    IsConfigUpTo(config, datasets, |datasets|)
  }

  /** The `datasets.reduce` that fills the `config` accumulator. */
  method BuildChartConfig(datasets: seq<ChartDataset>) returns (config: map<string, ConfigEntry>)
    ensures IsConfig(config, datasets)
  {
    config := map[];
    var n := 0;
    while n < |datasets|
      invariant 0 <= n <= |datasets|
      invariant IsConfigUpTo(config, datasets, n)
    {
      var ds := datasets[n];
      config := config[ds.id := ConfigEntry(ds.name, ds.color)];
      n := n + 1;
      forall j | LastWithId(datasets, n, j)
        ensures datasets[j].id in config && config[datasets[j].id] == ConfigEntry(datasets[j].name, datasets[j].color)
      {
        if j < n - 1 {
          assert LastWithId(datasets, n - 1, j);
        }
      }
    }
  }

  /** Every contributing dataset has a last contributor with the same id. */
  lemma {:induction false} LastContributorExists(datasets: seq<ChartDataset>, n: int, j: int, temp: real)
    requires Contributes(datasets, n, j, temp)
    ensures exists j2 :: LastContributor(datasets, n, j2, temp) && datasets[j2].id == datasets[j].id
    decreases n - j
  {
    if !LastContributor(datasets, n, j, temp) {
      var j' :| j < j' < n && datasets[j'].id == datasets[j].id && Contributes(datasets, n, j', temp);
      LastContributorExists(datasets, n, j', temp);
    }
  }

  /** The row is fully determined by its description: IsRow is a complete
      specification of the pivot. */
  lemma RowDetermined(r1: Row, r2: Row, datasets: seq<ChartDataset>, temp: real, valueToPlot: ValueToPlot)
    requires IsRow(r1, datasets, temp, valueToPlot) && IsRow(r2, datasets, temp, valueToPlot)
    ensures r1 == r2
  {
    var n := |datasets|;
    assert r1.Keys == r2.Keys;
    forall key | key in r1
      ensures r1[key] == r2[key]
    {
      if j :| Contributes(datasets, n, j, temp) && datasets[j].id == key {
        LastContributorExists(datasets, n, j, temp);
      }
    }
  }

  /** With distinct dataset ids (as the page assigns them), a row has the key
      of dataset j exactly when that dataset has a point at the temperature,
      and then holds the value of its first such point. */
  lemma RowKeyForDataset(row: Row, datasets: seq<ChartDataset>, temp: real, valueToPlot: ValueToPlot, j: nat)
    requires IsRow(row, datasets, temp, valueToPlot)
    requires forall a, b :: 0 <= a < b < |datasets| ==> datasets[a].id != datasets[b].id
    requires j < |datasets| && datasets[j].id != TemperatureKey
    ensures datasets[j].id in row <==> exists i :: 0 <= i < |datasets[j].data| && datasets[j].data[i].temperature == temp
    ensures forall i ::
              (0 <= i < |datasets[j].data| && datasets[j].data[i].temperature == temp &&
               forall i' :: 0 <= i' < i ==> datasets[j].data[i'].temperature != temp) ==>
              row[datasets[j].id] == Plotted(datasets[j].data[i], valueToPlot)
  {
    var n := |datasets|;
    forall i | 0 <= i < |datasets[j].data| && datasets[j].data[i].temperature == temp &&
              (forall i' :: 0 <= i' < i ==> datasets[j].data[i'].temperature != temp)
      ensures row[datasets[j].id] == Plotted(datasets[j].data[i], valueToPlot)
    {
      FindPointIsFirst(datasets[j].data, temp, i);
      assert LastContributor(datasets, n, j, temp);
    }
  }

  /** Every dataset has a last dataset with the same id. */
  lemma {:induction false} LastWithIdExists(datasets: seq<ChartDataset>, n: int, j: int)
    requires 0 <= j < n <= |datasets|
    ensures exists j2 :: LastWithId(datasets, n, j2) && datasets[j2].id == datasets[j].id
    decreases n - j
  {
    if !LastWithId(datasets, n, j) {
      var j' :| j < j' < n && datasets[j'].id == datasets[j].id;
      LastWithIdExists(datasets, n, j');
    }
  }

  /** The configuration is fully determined by its description. */
  lemma ConfigDetermined(c1: map<string, ConfigEntry>, c2: map<string, ConfigEntry>, datasets: seq<ChartDataset>)
    requires IsConfig(c1, datasets) && IsConfig(c2, datasets)
    ensures c1 == c2
  {
    var n := |datasets|;
    assert c1.Keys == c2.Keys;
    forall id | id in c1
      ensures c1[id] == c2[id]
    {
      var j :| 0 <= j < n && datasets[j].id == id;
      LastWithIdExists(datasets, n, j);
    }
  }

  /** The component: the empty-state card for no datasets, otherwise one row
      per temperature point (the outer `temperaturePoints.map`) and the config. */
  method KineticsDataChart(datasets: seq<ChartDataset>, temperaturePoints: seq<real>, valueToPlot: ValueToPlot)
    returns (view: ChartView)
    ensures view.EmptyState? <==> |datasets| == 0
    ensures view.Chart? ==> |view.transformedData| == |temperaturePoints|
    ensures view.Chart? ==> forall i :: 0 <= i < |temperaturePoints| ==>
              IsRow(view.transformedData[i], datasets, temperaturePoints[i], valueToPlot)
    ensures view.Chart? ==> IsConfig(view.chartConfig, datasets)
  {
    if |datasets| == 0 {
      return EmptyState;
    }
    var transformedData: seq<Row> := [];
    for i := 0 to |temperaturePoints|
      invariant |transformedData| == i
      invariant forall i' :: 0 <= i' < i ==> IsRow(transformedData[i'], datasets, temperaturePoints[i'], valueToPlot)
    {
      var point := FillRow(datasets, temperaturePoints[i], valueToPlot);
      transformedData := transformedData + [point];
    }
    var chartConfig := BuildChartConfig(datasets);
    view := Chart(transformedData, chartConfig);
  }
}
