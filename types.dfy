/**
 * The records the kinetics lab passes between its parts. Every number is a
 * JavaScript number, modelled as an exact `real`.
 */
module Types {
  import opened Wrappers

  /** What the parameter form submits. */
  datatype SimulationParameters = SimulationParameters(
    preExponentialFactor: real,
    activationEnergy: real,      // kJ/mol
    temperature: real,           // K
    initialConcentration: real,  // mol/L
    catalystId: string)

  /** The single-run result shown beside the form. */
  datatype SimulationResult = SimulationResult(
    rateConstant: real,
    reactionRate: real,
    effectiveActivationEnergy: real)

  datatype Catalyst = Catalyst(
    id: string,
    name: string,
    activationEnergyReductionKjMol: real)

  /** One plotted sample. The record type declares `k` as a number, but the
      points the page builds leave it out, so here it is optional (None is
      JavaScript's undefined). */
  datatype ChartDataPoint = ChartDataPoint(
    temperature: real,
    rate: real,
    k: Option<real>)

  /** `SimulationParameters & { effectiveActivationEnergy: number }`. */
  datatype DatasetParameters = DatasetParameters(
    simulation: SimulationParameters,
    effectiveActivationEnergy: real)

  datatype ChartDataset = ChartDataset(
    id: string,
    name: string,
    data: seq<ChartDataPoint>,
    color: string,
    params: DatasetParameters)

  /** The constraints the parameter form's schema enforces before either
      handler is called. */
  predicate AcceptedByForm(p: SimulationParameters)
  {
    && p.preExponentialFactor > 0.0
    && p.activationEnergy >= 0.0
    && p.temperature > 0.0
    && p.initialConcentration >= 0.0
  }

  /** The numeric fields the schema checks, in declaration order. */
  datatype FormField = PreExponentialFactor | ActivationEnergy | Temperature | InitialConcentration

  /** A field the schema rejected, with the message it shows. */
  datatype FormIssue = FormIssue(field: FormField, message: string)

  /** Every issue the schema can report: each field with its own message. */
  const SchemaIssues: seq<FormIssue> := [
    FormIssue(PreExponentialFactor, "Must be positive"),
    FormIssue(ActivationEnergy, "Cannot be negative"),
    FormIssue(Temperature, "Must be above absolute zero (0 K)"),
    FormIssue(InitialConcentration, "Cannot be negative")
  ]

  /** The schema's field checks in declaration order, one issue per field it
      rejects. */
  function FormIssues(p: SimulationParameters): (issues: seq<FormIssue>)
    ensures issues == [] <==> AcceptedByForm(p)
    ensures p.preExponentialFactor <= 0.0 <==> FormIssue(PreExponentialFactor, "Must be positive") in issues
    ensures p.activationEnergy < 0.0 <==> FormIssue(ActivationEnergy, "Cannot be negative") in issues
    ensures p.temperature <= 0.0 <==> FormIssue(Temperature, "Must be above absolute zero (0 K)") in issues
    ensures p.initialConcentration < 0.0 <==> FormIssue(InitialConcentration, "Cannot be negative") in issues
    ensures DistinctFields(issues)
    ensures forall x :: x in issues ==> x in SchemaIssues
  {
    // SchemaIssues lists the four checks in field order.
    var d := FieldCheck(p.initialConcentration >= 0.0, SchemaIssues[3]);
    var cd := FieldCheck(p.temperature > 0.0, SchemaIssues[2]) + d;
    PrependCheck(p.temperature > 0.0, SchemaIssues[2], d, {InitialConcentration});
    var bcd := FieldCheck(p.activationEnergy >= 0.0, SchemaIssues[1]) + cd;
    PrependCheck(p.activationEnergy >= 0.0, SchemaIssues[1], cd, {InitialConcentration, Temperature});
    var abcd := FieldCheck(p.preExponentialFactor > 0.0, SchemaIssues[0]) + bcd;
    PrependCheck(p.preExponentialFactor > 0.0, SchemaIssues[0], bcd, {InitialConcentration, Temperature, ActivationEnergy});
    abcd
  }

  /** One field's check: no issue when it passes, its own issue otherwise. */
  function FieldCheck(passes: bool, issue: FormIssue): (r: seq<FormIssue>)
    ensures r == [] <==> passes
    ensures |r| <= 1 && forall x :: x in r ==> x == issue
  {
    if passes then [] else [issue]
  }

  /** No two issues name the same field. */
  ghost predicate DistinctFields(issues: seq<FormIssue>)
  {
    forall i, j :: 0 <= i < j < |issues| ==> issues[i].field != issues[j].field
  }

  /** Putting one field's check in front of the checks of other fields keeps
      the fields distinct and every issue one the schema can report. */
  lemma PrependCheck(passes: bool, issue: FormIssue, rest: seq<FormIssue>, later: set<FormField>)
    requires DistinctFields(rest) && issue.field !in later
    requires forall x :: x in rest ==> x.field in later
    requires issue in SchemaIssues && forall x :: x in rest ==> x in SchemaIssues
    ensures DistinctFields(FieldCheck(passes, issue) + rest)
    ensures forall x :: x in FieldCheck(passes, issue) + rest ==> x.field in later + {issue.field}
    ensures issue in FieldCheck(passes, issue) + rest <==> !passes
    ensures forall x: FormIssue :: x.field != issue.field ==> (x in FieldCheck(passes, issue) + rest <==> x in rest)
    ensures forall x :: x in FieldCheck(passes, issue) + rest ==> x in SchemaIssues
  {
    var s := FieldCheck(passes, issue) + rest;
    if !passes {
      forall i, j | 0 <= i < j < |s|
        ensures s[i].field != s[j].field
      {
        if i == 0 {
          assert s[j] in rest;
        } else {
          assert s[i] == rest[i - 1] && s[j] == rest[j - 1];
        }
      }
    }
  }
}
