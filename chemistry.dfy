/**
 * The kinetics calculator: the catalyst table, the effective activation
 * energy, the Arrhenius rate constant, the first-order rate and the
 * temperature sweep used for the graph.
 */
module Chemistry {
  import opened Wrappers
  import opened Types
  import Arrays

  /** R in J/(mol·K). */
  const GasConstantJMolK: real := 8.314

  const Catalysts: seq<Catalyst> := [
    Catalyst("none", "No Catalyst", 0.0),
    Catalyst("catalystA", "Catalyst A (-20 kJ/mol Ea)", 20.0),
    Catalyst("catalystB", "Catalyst B (-40 kJ/mol Ea)", 40.0),
    Catalyst("catalystC", "Catalyst C (-60 kJ/mol Ea)", 60.0)
  ]

  function Max(a: real, b: real): real
  {
    if a >= b then a else b
  }

  /** The first table entry with the given id, or None. */
  function GetCatalystById(id: string): (r: Option<Catalyst>)
    ensures r.Some? ==> r.value in Catalysts && r.value.id == id
    ensures r.None? <==> forall i :: 0 <= i < |Catalysts| ==> Catalysts[i].id != id
  {
    Arrays.Find(Catalysts, (c: Catalyst) => c.id == id)
  }

  /** The lookup, entry by entry: exactly the four table ids resolve. */
  lemma GetCatalystByIdTable(id: string)
    ensures GetCatalystById(id) ==
      if id == "none" then Some(Catalysts[0])
      else if id == "catalystA" then Some(Catalysts[1])
      else if id == "catalystB" then Some(Catalysts[2])
      else if id == "catalystC" then Some(Catalysts[3])
      else None
  {
    var r := GetCatalystById(id);
    if r.Some? {
      assert r.value == Catalysts[0] || r.value == Catalysts[1] || r.value == Catalysts[2] || r.value == Catalysts[3];
    }
  }

  /** Every reduction in the table is non-negative and at most 60 kJ/mol. */
  lemma CatalystReductionsBounded(id: string)
    ensures GetCatalystById(id).Some? ==>
      0.0 <= GetCatalystById(id).value.activationEnergyReductionKjMol <= 60.0
  {
    GetCatalystByIdTable(id);
  }

  /** `max(0, baseEa - reduction)`, an unresolved id reducing by nothing. */
  function EffectiveActivationEnergy(baseEaKjMol: real, catalystId: string): (r: real)
    ensures r >= 0.0
    ensures baseEaKjMol >= 0.0 ==> r <= baseEaKjMol
    ensures r >= baseEaKjMol - 60.0
  {
    var catalyst := GetCatalystById(catalystId);
    CatalystReductionsBounded(catalystId);
    var reduction := if catalyst.Some? then catalyst.value.activationEnergyReductionKjMol else 0.0;
    Max(0.0, baseEaKjMol - reduction)
  }

  /** No catalyst, or an id the table does not know, leaves only the clamp. */
  lemma EffectiveActivationEnergyWithoutCatalyst(baseEaKjMol: real, catalystId: string)
    requires catalystId == "none" || GetCatalystById(catalystId).None?
    ensures EffectiveActivationEnergy(baseEaKjMol, catalystId) == Max(0.0, baseEaKjMol)
  {
    GetCatalystByIdTable(catalystId);
  }

  /** The worked examples: no catalyst keeps 75, catalyst C lowers 75 to 15
      and clamps 30 to 0. */
  lemma EffectiveActivationEnergyExamples()
    ensures EffectiveActivationEnergy(75.0, "none") == 75.0
    ensures EffectiveActivationEnergy(75.0, "catalystC") == 15.0
    ensures EffectiveActivationEnergy(30.0, "catalystC") == 0.0
  {
    GetCatalystByIdTable("none");
    GetCatalystByIdTable("catalystC");
  }

  /** What is assumed of the platform's `Math.exp`, which every caller passes in. */
  ghost predicate IsPositive(exp: real -> real)
  {
    forall x :: exp(x) > 0.0
  }

  /** Arrhenius: `A * exp(-(Ea * 1000) / (R * T))`, and 0 for T <= 0. */
  function RateConstant(exp: real -> real, preExponentialFactor: real, activationEnergyKjMol: real, temperature: real): (k: real)
    ensures temperature <= 0.0 ==> k == 0.0
  {
    if temperature <= 0.0 then 0.0
    else
      var activationEnergyJMol := activationEnergyKjMol * 1000.0;
      var exponent := -activationEnergyJMol / (GasConstantJMolK * temperature);
      preExponentialFactor * exp(exponent)
  }

  /** At or below absolute zero the result does not depend on the exponential
      at all: any two exponentials give the same 0. */
  lemma RateConstantIgnoresExpAtNonPositiveTemperature(exp1: real -> real, exp2: real -> real, a: real, ea: real, t: real)
    requires t <= 0.0
    ensures RateConstant(exp1, a, ea, t) == RateConstant(exp2, a, ea, t) == 0.0
  {
  }

  /** Above absolute zero the exponential is consulted exactly once, at the
      Arrhenius exponent with Ea converted to J/mol. */
  lemma RateConstantArrhenius(exp: real -> real, a: real, ea: real, t: real)
    requires t > 0.0
    ensures RateConstant(exp, a, ea, t) == a * exp(-(ea * 1000.0) / (8.314 * t))
  {
  }

  /** With a positive exponential, a positive factor and a positive temperature
      give a positive rate constant, and a non-negative factor never gives a
      negative one. */
  lemma RateConstantSign(exp: real -> real, a: real, ea: real, t: real)
    requires IsPositive(exp)
    ensures a > 0.0 && t > 0.0 ==> RateConstant(exp, a, ea, t) > 0.0
    ensures a >= 0.0 ==> RateConstant(exp, a, ea, t) >= 0.0
  {
    if t > 0.0 {
      var x := -(ea * 1000.0) / (GasConstantJMolK * t);
      assert exp(x) > 0.0;
    }
  }

  /** First-order rate `k * C0`, with no clamping: signs propagate. */
  function ReactionRate(rateConstant: real, initialConcentration: real): (r: real)
    ensures rateConstant >= 0.0 && initialConcentration >= 0.0 ==> r >= 0.0
    ensures initialConcentration == 0.0 || rateConstant == 0.0 ==> r == 0.0
    ensures rateConstant < 0.0 && initialConcentration > 0.0 ==> r < 0.0
  {
    rateConstant * initialConcentration
  }

  datatype TemperatureRange = TemperatureRange(min: int, max: int, step: int)

  /** 250 K to 450 K in steps of 10 K. */
  const GraphTemperatureRange: TemperatureRange := TemperatureRange(250, 450, 10)

  /** The 21 sweep temperatures, point i being 250 + 10·i. */
  predicate IsGraphSweep(points: seq<int>)
  {
    && |points| == 21
    && forall i :: 0 <= i < |points| ==> points[i] == GraphTemperatureRange.min + GraphTemperatureRange.step * i
  }

  /** The sweep loop: start at the minimum, push while at most the maximum,
      advance by the step. */
  method GenerateTemperaturePoints() returns (points: seq<int>)
    ensures IsGraphSweep(points)
    ensures points[0] == 250 && points[|points| - 1] == 450
    ensures forall i, j :: 0 <= i < j < |points| ==> points[i] < points[j]
  {
    points := [];
    var t := GraphTemperatureRange.min;
    while t <= GraphTemperatureRange.max
      invariant t == GraphTemperatureRange.min + GraphTemperatureRange.step * |points|
      invariant t <= GraphTemperatureRange.max + GraphTemperatureRange.step
      invariant forall i :: 0 <= i < |points| ==> points[i] == GraphTemperatureRange.min + GraphTemperatureRange.step * i
      decreases GraphTemperatureRange.max + GraphTemperatureRange.step - t
    {
      points := points + [t];
      t := t + GraphTemperatureRange.step;
    }
  }
}
