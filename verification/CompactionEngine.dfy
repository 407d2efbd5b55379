/** The compaction calculation behind an execution: three densities and the gate, over the reals. */
module CompactionEngine {
  import opened Lists

  /**
   * A value of a form: a finite number; something else that converts to a finite number, like the text "1"; or neither.
   */
  datatype InputValue = Number(value: real) | Convertible(value: real) | NotFinite

  type Inputs = map<string, InputValue>

  /** A result of a division: a real, an infinity, or no number at all. */
  datatype Num = Fin(value: real) | Inf(positive: bool) | NaN

  datatype Outputs = Outputs(wetDensity: real, dryDensity: Num, compactionDegree: Num)

  datatype Error = VolumeNotPositive | MaxDryDensityNotPositive

  const INPUT_FIELDS: seq<string> :=
    ["massHoleSand", "massSandCone", "volumeSand", "moistureContent", "maxDryDensity"]

  const GATE_THRESHOLD: real := 93.0

  /** The check before the engine is called: every field converts to a finite number. */
  predicate InputsOk(inputs: Inputs) {
    forall f | f in INPUT_FIELDS :: f in inputs && !inputs[f].NotFinite?
  }

  function Field(inputs: Inputs, f: string): (v: InputValue)
    requires InputsOk(inputs) && f in INPUT_FIELDS
    ensures !v.NotFinite?
  {
    inputs[f]
  }

  // ---------- arithmetic ----------

  /** To four decimals, halves away from zero. */
  function Round4(x: real): real {
    if x < 0.0 then -((-x * 10000.0 + 0.5).Floor as real / 10000.0) else (x * 10000.0 + 0.5).Floor as real / 10000.0
  }

  function RoundNum(n: Num): Num {
    if n.Fin? then Fin(Round4(n.value)) else n
  }

  function Quotient(x: real, y: real): Num {
    if y != 0.0 then Fin(x / y) else if x == 0.0 then NaN else Inf(x > 0.0)
  }

  /** A quotient divided further by a positive number, in percent. */
  function Percent(n: Num, best: real): Num
    requires best > 0.0
  {
    if n.Fin? then Fin(n.value / best * 100.0) else n
  }

  predicate AtLeast(n: Num, threshold: real) {
    match n
    case Fin(value) => value >= threshold
    case Inf(positive) => positive
    case NaN => false
  }

  // ---------- the calculation ----------

  /** `assertPositive`, which converts nothing. */
  predicate Positive(v: InputValue) {
    v.Number? && v.value > 0.0
  }

  function WetDensity(inputs: Inputs): Result<real, Error>
    requires InputsOk(inputs)
  {
    if !Positive(Field(inputs, "volumeSand")) then Failure(VolumeNotPositive)
    else Success(Round4(Field(inputs, "massHoleSand").value / Field(inputs, "volumeSand").value))
  }

  function DryDensity(wet: real, inputs: Inputs): Num
    requires InputsOk(inputs)
  {
    RoundNum(Quotient(wet, 1.0 + Field(inputs, "moistureContent").value / 100.0))
  }

  function CompactionDegree(dry: Num, inputs: Inputs): Result<Num, Error>
    requires InputsOk(inputs)
  {
    if !Positive(Field(inputs, "maxDryDensity")) then Failure(MaxDryDensityNotPositive)
    else Success(RoundNum(Percent(dry, Field(inputs, "maxDryDensity").value)))
  }

  function RunPath(inputs: Inputs): Result<Outputs, Error>
    requires InputsOk(inputs)
  {
    var wet :- WetDensity(inputs);
    var dry := DryDensity(wet, inputs);
    var degree :- CompactionDegree(dry, inputs);
    Success(Outputs(wet, dry, degree))
  }

  predicate GatePasses(outputs: Outputs) {
    AtLeast(outputs.compactionDegree, GATE_THRESHOLD)
  }

  /** A form is complete exactly if its five numbers convert to finite ones. */
  lemma CompleteForms(inputs: Inputs)
    ensures InputsOk(inputs) <==>
            && "massHoleSand" in inputs && !inputs["massHoleSand"].NotFinite?
            && "massSandCone" in inputs && !inputs["massSandCone"].NotFinite?
            && "volumeSand" in inputs && !inputs["volumeSand"].NotFinite?
            && "moistureContent" in inputs && !inputs["moistureContent"].NotFinite?
            && "maxDryDensity" in inputs && !inputs["maxDryDensity"].NotFinite?
  {
    var fields := ["massHoleSand", "massSandCone", "volumeSand", "moistureContent", "maxDryDensity"];
    assert fields == INPUT_FIELDS;
    assert fields[0] in INPUT_FIELDS && fields[1] in INPUT_FIELDS && fields[2] in INPUT_FIELDS;
    assert fields[3] in INPUT_FIELDS && fields[4] in INPUT_FIELDS;
  }

  /** Rounding gives the multiple of 0.0001 that is nearest, of two equally near ones the one farther from zero. */
  lemma RoundsToNearest(x: real) returns (n: int)
    ensures Round4(x) == n as real / 10000.0
    ensures -0.00005 <= Round4(x) - x <= 0.00005
    ensures x >= 0.0 ==> -0.00005 < Round4(x) - x
    ensures x < 0.0 ==> Round4(x) - x < 0.00005
  {
    if x < 0.0 {
      n := -(-x * 10000.0 + 0.5).Floor;
    } else {
      n := (x * 10000.0 + 0.5).Floor;
    }
  }

  // ---------- when it fails ----------

  /** What the engine refuses although the check before it let it through. */
  predicate EngineRejects(inputs: Inputs)
    requires InputsOk(inputs)
  {
    !Positive(Field(inputs, "volumeSand")) || !Positive(Field(inputs, "maxDryDensity"))
  }

  /** The calculation fails exactly if the volume or the greatest dry density is not a positive number. */
  lemma PathFailsExactly(inputs: Inputs)
    requires InputsOk(inputs)
    ensures RunPath(inputs).Failure? <==> EngineRejects(inputs)
    ensures EngineRejects(inputs) ==>
              RunPath(inputs) ==
              Failure(if Positive(Field(inputs, "volumeSand")) then MaxDryDensityNotPositive else VolumeNotPositive)
    ensures EngineRejects(inputs) <==>
            || !Field(inputs, "volumeSand").Number? || Field(inputs, "volumeSand").value <= 0.0
            || !Field(inputs, "maxDryDensity").Number? || Field(inputs, "maxDryDensity").value <= 0.0
  {
    hide InputsOk, Round4, Quotient, Percent;
  }

  // ---------- what the gate accepts ----------

  lemma RoundsToAtLeast(x: real, n: int)
    requires n > 0
    ensures Round4(x) >= n as real <==> x >= n as real - 0.00005
  {
    if x >= 0.0 {
      var scaled := x * 10000.0 + 0.5;
      assert scaled.Floor >= n * 10000 <==> scaled >= (n * 10000) as real;
    }
  }

  /**
   * An accepted form passes exactly if its rounded dry density reaches 92.99995 per cent of the greatest; a moisture
   * content of -100 makes the dry density infinite, and the form passes exactly if the wet density does not round to
   * zero or less.
   */
  lemma GateMeans(inputs: Inputs)
    requires InputsOk(inputs) && !EngineRejects(inputs)
    ensures var out := RunPath(inputs).value;
            var moisture, best := Field(inputs, "moistureContent").value, Field(inputs, "maxDryDensity").value;
            var wet := Round4(Field(inputs, "massHoleSand").value / Field(inputs, "volumeSand").value);
            && out.wetDensity == wet
            && (moisture == -100.0 ==>
                  && out.dryDensity == out.compactionDegree == (if wet == 0.0 then NaN else Inf(wet > 0.0))
                  && (GatePasses(out) <==> wet > 0.0))
            && (moisture != -100.0 ==>
                  && out.dryDensity == Fin(Round4(wet / (1.0 + moisture / 100.0)))
                  && out.compactionDegree == Fin(Round4(out.dryDensity.value / best * 100.0))
                  && (GatePasses(out) <==> out.dryDensity.value / best * 100.0 >= 92.99995))
  {
    hide InputsOk, Round4;
    PathFailsExactly(inputs);
    var out := RunPath(inputs).value;
    if out.dryDensity.Fin? {
      RoundsToAtLeast(out.dryDensity.value / Field(inputs, "maxDryDensity").value * 100.0, 93);
    }
  }

  lemma RoundIsMonotone(x: real, y: real)
    requires x <= y
    ensures Round4(x) <= Round4(y)
  {
    if x >= 0.0 {
      assert (x * 10000.0 + 0.5).Floor <= (y * 10000.0 + 0.5).Floor;
    } else if y < 0.0 {
      assert (-y * 10000.0 + 0.5).Floor <= (-x * 10000.0 + 0.5).Floor;
    }
  }

  lemma QuotientIsMonotone(x: real, y: real, d: real)
    requires x <= y && d > 0.0
    ensures x / d <= y / d
  {
    assert (y / d - x / d) * d == y - x;
    FactorSign(y / d - x / d, d);
  }

  lemma FactorSign(x: real, d: real)
    requires x * d >= 0.0 && d > 0.0
    ensures x >= 0.0
  {
  }

  /** Two forms that differ in the mass of the hole at most. */
  ghost predicate SameButMass(a: Inputs, b: Inputs) {
    && InputsOk(a) && InputsOk(b)
    && Field(a, "volumeSand") == Field(b, "volumeSand")
    && Field(a, "moistureContent") == Field(b, "moistureContent")
    && Field(a, "maxDryDensity") == Field(b, "maxDryDensity")
  }

  /** Above a moisture content of -100 more mass never turns an accepted form into a failing one, rounding included. */
  lemma MoreMassNeverFails(a: Inputs, b: Inputs)
    requires SameButMass(a, b) && Field(a, "massHoleSand").value <= Field(b, "massHoleSand").value
    requires !EngineRejects(a) && Field(a, "moistureContent").value > -100.0
    ensures !EngineRejects(b) && (GatePasses(RunPath(a).value) ==> GatePasses(RunPath(b).value))
  {
    GateMeans(a);
    GateMeans(b);
    var (x, y) := (Field(a, "massHoleSand").value, Field(b, "massHoleSand").value);
    var volume, best := Field(a, "volumeSand").value, Field(a, "maxDryDensity").value;
    var base := 1.0 + Field(a, "moistureContent").value / 100.0;
    hide InputsOk, RunPath, Field, Round4, GatePasses;
    QuotientIsMonotone(x, y, volume);
    RoundIsMonotone(x / volume, y / volume);
    QuotientIsMonotone(Round4(x / volume), Round4(y / volume), base);
    RoundIsMonotone(Round4(x / volume) / base, Round4(y / volume) / base);
    QuotientIsMonotone(Round4(Round4(x / volume) / base), Round4(Round4(y / volume) / base), best);
  }
}
