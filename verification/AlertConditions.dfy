/**
 * What "triggered" means: the evaluators of the four condition types. Floating-point values are
 * exact reals; `number` is the condition's value text read as a number, if it is one. Times are
 * microseconds.
 */
module AlertConditions {
  import opened Basics

  datatype Kind = Threshold | StateChange | Absence | Anomaly | UnknownKind

  datatype Field = ResponseTime | PacketLoss | CpuUsage | MemoryUsage | Bandwidth | CustomValue | StatusField | PortState | UnknownField

  datatype Operator = Gt | Lt | Gte | Lte | Eq | Neq | UnknownOperator

  datatype Condition = Condition(kind: Kind, field: Field, op: Operator, text: string, number: Option<real>, durationSeconds: int)

  /** `portChanges` is the number in the metric's details, if there is one. */
  datatype Metric = Metric(timestamp: int, status: string, values: map<Field, real>, portChanges: Option<real>)

  datatype Baseline = Baseline(mean: real, stdDev: real, sampleCount: int)

  /** Everything an evaluation looks at besides the condition. */
  datatype Inputs = Inputs(metric: Metric, baselines: map<Field, Baseline>, now: int)

  const EPSILON := 0.000000001

  function Abs(x: real): real {
    if x < 0.0 then -x else x
  }

  function CompareFloat(op: Operator, actual: real, threshold: real): bool {
    match op
    case Gt => actual > threshold
    case Lt => actual < threshold
    case Gte => actual >= threshold
    case Lte => actual <= threshold
    case Eq => Abs(actual - threshold) < EPSILON
    case Neq => Abs(actual - threshold) >= EPSILON
    case UnknownOperator => false
  }

  function Opposite(op: Operator): Operator {
    match op
    case Gt => Lte
    case Lte => Gt
    case Lt => Gte
    case Gte => Lt
    case Eq => Neq
    case Neq => Eq
    case UnknownOperator => UnknownOperator
  }

  /** Each operator is the exact complement of its opposite; an unknown one never holds. */
  lemma OppositeComplements(op: Operator, a: real, t: real)
    ensures Opposite(Opposite(op)) == op
    ensures !op.UnknownOperator? ==> (CompareFloat(op, a, t) <==> !CompareFloat(Opposite(op), a, t))
    ensures op.UnknownOperator? ==> !CompareFloat(op, a, t)
  {}

  predicate HasThresholdField(f: Field) {
    f.ResponseTime? || f.PacketLoss? || f.CpuUsage? || f.MemoryUsage? || f.Bandwidth? || f.CustomValue?
  }

  predicate HasAnomalyField(f: Field) {
    HasThresholdField(f) && !f.CustomValue?
  }

  function EvaluateThreshold(c: Condition, m: Metric): bool {
    c.number.Some? && HasThresholdField(c.field) && c.field in m.values && CompareFloat(c.op, m.values[c.field], c.number.value)
  }

  function EvaluateStateChange(c: Condition, m: Metric): bool {
    match c.field
    case StatusField =>
      if c.op.Eq? then m.status == c.text else if c.op.Neq? then m.status != c.text else false
    case PortState =>
      var changes := if m.portChanges.Some? then m.portChanges.value else 0.0;
      changes >= if c.number.Some? then c.number.value else 1.0
    case _ => false
  }

  function OrDefault(number: Option<real>, default: real): (r: real)
    requires default > 0.0
    ensures r > 0.0
    ensures number.Some? && number.value > 0.0 ==> r == number.value
  {
    if number.Some? && number.value > 0.0 then number.value else default
  }

  function EvaluateAbsence(c: Condition, m: Metric, now: int): bool {
    (now - m.timestamp) as real / 1_000_000.0 > OrDefault(c.number, 300.0)
  }

  /** The z-score test as floating point does it: over a zero deviation the score is infinite, or no number at the mean. */
  function EvaluateAnomaly(c: Condition, m: Metric, baselines: map<Field, Baseline>): bool {
    if !HasAnomalyField(c.field) || c.field !in m.values || c.field !in baselines || baselines[c.field].sampleCount < 10 then false
    else
      var a, b := m.values[c.field], baselines[c.field];
      if b.stdDev == 0.0 then a != b.mean
      else Abs((a - b.mean) / b.stdDev) > OrDefault(c.number, 2.5)
  }

  function EvaluateCondition(c: Condition, inputs: Inputs): bool {
    match c.kind
    case Threshold => EvaluateThreshold(c, inputs.metric)
    case StateChange => EvaluateStateChange(c, inputs.metric)
    case Absence => EvaluateAbsence(c, inputs.metric, inputs.now)
    case Anomaly => EvaluateAnomaly(c, inputs.metric, inputs.baselines)
    case UnknownKind => false
  }

  // ---------- What the conditions say -----------------------------------------------------

  function Reading(inputs: Inputs, f: Field): Option<real> {
    if f in inputs.metric.values then Some(inputs.metric.values[f]) else None
  }

  /** The same inputs, with `x` read for the field. */
  function WithReading(inputs: Inputs, f: Field, x: real): Inputs {
    inputs.(metric := inputs.metric.(values := inputs.metric.values[f := x]))
  }

  /** A threshold condition looks at the reading of its own field alone, and without one it does not hold. */
  lemma ThresholdReadsOwnField(c: Condition, a: Inputs, b: Inputs)
    requires c.kind.Threshold? && Reading(a, c.field) == Reading(b, c.field)
    ensures EvaluateCondition(c, a) == EvaluateCondition(c, b)
    ensures Reading(a, c.field).None? ==> !EvaluateCondition(c, a)
  {}

  /** A falling reading keeps "less" true, a rising one "greater". */
  lemma ThresholdIsMonotone(c: Condition, inputs: Inputs, x: real)
    requires c.kind.Threshold? && EvaluateCondition(c, inputs)
    ensures Reading(inputs, c.field).Some?
    ensures (c.op.Lt? || c.op.Lte?) && x <= Reading(inputs, c.field).value ==> EvaluateCondition(c, WithReading(inputs, c.field, x))
    ensures (c.op.Gt? || c.op.Gte?) && x >= Reading(inputs, c.field).value ==> EvaluateCondition(c, WithReading(inputs, c.field, x))
  {}

  /** The six fields a threshold can be put on. */
  const THRESHOLD_FIELDS := {ResponseTime, PacketLoss, CpuUsage, MemoryUsage, Bandwidth, CustomValue}

  /** Which operators hold below, at and above the threshold; a billionth apart is equal. */
  lemma ThresholdDivides(c: Condition, inputs: Inputs, x: real)
    requires c.kind.Threshold? && c.number.Some? && c.field in THRESHOLD_FIELDS
    ensures var t, holds := c.number.value, EvaluateCondition(c, WithReading(inputs, c.field, x));
            && (x <= t - 0.000000001 ==> (holds <==> c.op.Lt? || c.op.Lte? || c.op.Neq?))
            && (t - 0.000000001 < x < t ==> (holds <==> c.op.Lt? || c.op.Lte? || c.op.Eq?))
            && (x == t ==> (holds <==> c.op.Lte? || c.op.Gte? || c.op.Eq?))
            && (t < x < t + 0.000000001 ==> (holds <==> c.op.Gt? || c.op.Gte? || c.op.Eq?))
            && (x >= t + 0.000000001 ==> (holds <==> c.op.Gt? || c.op.Gte? || c.op.Neq?))
  {}

  /** A threshold that is no number, or on another field, never holds; nor does a condition of unknown kind. */
  lemma NeverHolds(c: Condition, inputs: Inputs)
    requires c.kind.UnknownKind? || (c.kind.Threshold? && (c.number.None? || c.field !in THRESHOLD_FIELDS))
             || (c.kind.StateChange? && !c.field.StatusField? && !c.field.PortState?)
    ensures !EvaluateCondition(c, inputs)
  {}

  /** A status condition compares the texts; no other operator holds. */
  lemma StatusComparesTexts(c: Condition, inputs: Inputs)
    requires c.kind.StateChange? && c.field.StatusField?
    ensures EvaluateCondition(c, inputs) <==> (c.op.Eq? && inputs.metric.status == c.text) || (c.op.Neq? && inputs.metric.status != c.text)
  {}

  function WithPortChanges(inputs: Inputs, n: Option<real>): Inputs {
    inputs.(metric := inputs.metric.(portChanges := n))
  }

  /** More port changes keep the condition true; it begins at the number, or at one without a number, and a missing count is zero. */
  lemma PortChangesCount(c: Condition, inputs: Inputs, n: real, more: real)
    requires c.kind.StateChange? && c.field.PortState?
    ensures EvaluateCondition(c, WithPortChanges(inputs, Some(n))) && more >= n ==> EvaluateCondition(c, WithPortChanges(inputs, Some(more)))
    ensures c.number.Some? ==> (EvaluateCondition(c, WithPortChanges(inputs, Some(n))) <==> c.number.value <= n)
    ensures c.number.None? ==> (EvaluateCondition(c, WithPortChanges(inputs, Some(n))) <==> 1.0 <= n)
    ensures EvaluateCondition(c, WithPortChanges(inputs, None)) == EvaluateCondition(c, WithPortChanges(inputs, Some(0.0)))
  {}

  /** Silence is measured in seconds against a positive number, and against five minutes without one. */
  lemma AbsenceIff(c: Condition, inputs: Inputs)
    requires c.kind.Absence?
    ensures var silent := (inputs.now - inputs.metric.timestamp) as real;
            && (c.number.Some? && c.number.value > 0.0 ==> (EvaluateCondition(c, inputs) <==> silent > c.number.value * 1_000_000.0))
            && (c.number.None? || c.number.value <= 0.0 ==> (EvaluateCondition(c, inputs) <==> silent > 300_000_000.0))
  {}

  const ANOMALY_FIELDS := {ResponseTime, PacketLoss, CpuUsage, MemoryUsage, Bandwidth}

  /** With a value and ten samples, anomalous means further from the mean than so many deviations, a zero deviation included. */
  lemma AnomalyIff(c: Condition, inputs: Inputs)
    requires c.kind.Anomaly?
    ensures EvaluateCondition(c, inputs) <==>
              && c.field in ANOMALY_FIELDS && Reading(inputs, c.field).Some? && c.field in inputs.baselines
              && inputs.baselines[c.field].sampleCount >= 10
              && var b, sensitivity := inputs.baselines[c.field], if c.number.Some? && c.number.value > 0.0 then c.number.value else 2.5;
                 var far := sensitivity * if b.stdDev < 0.0 then -b.stdDev else b.stdDev;
                 !(b.mean - far <= Reading(inputs, c.field).value <= b.mean + far)
  {
    if c.field in ANOMALY_FIELDS && Reading(inputs, c.field).Some? && c.field in inputs.baselines {
      var b := inputs.baselines[c.field];
      Scores(Reading(inputs, c.field).value, b.mean, b.stdDev, OrDefault(c.number, 2.5));
    }
  }

  lemma Scores(a: real, mean: real, dev: real, sensitivity: real)
    requires sensitivity > 0.0
    ensures var far := sensitivity * if dev < 0.0 then -dev else dev;
            (if dev == 0.0 then a != mean else Abs((a - mean) / dev) > sensitivity) <==> !(mean - far <= a <= mean + far)
  {
    if dev != 0.0 {
      var q, d := (a - mean) / dev, if dev < 0.0 then -dev else dev;
      assert a - mean == q * dev;
      assert (-q) * dev == q * (-dev) == -(a - mean);
      OrderScaled(sensitivity, q, d);
      OrderScaled(sensitivity, -q, d);
    }
  }

  lemma OrderScaled(x: real, y: real, d: real)
    requires d > 0.0
    ensures x < y <==> x * d < y * d
  {
    assert (y - x) * d == y * d - x * d;
  }

  /** A longer silence keeps an absence condition true. */
  lemma AbsenceGrows(c: Condition, inputs: Inputs, later: int)
    requires c.kind.Absence? && EvaluateCondition(c, inputs) && later >= inputs.now
    ensures EvaluateCondition(c, inputs.(now := later))
  {}

  // ---------- Rules ----------------------------------------------------------------------

  /** "all" wants every condition, anything else wants one. */
  ghost predicate Triggered(conditions: seq<Condition>, all: bool, inputs: Inputs) {
    if all then forall i :: 0 <= i < |conditions| ==> EvaluateCondition(conditions[i], inputs)
    else exists i :: 0 <= i < |conditions| && EvaluateCondition(conditions[i], inputs)
  }

  method CountConditionsMet(conditions: seq<Condition>, all: bool, inputs: Inputs) returns (triggered: bool)
    ensures triggered <==> Triggered(conditions, all, inputs)
  {
    var met := 0;
    var i := 0;
    while i < |conditions|
      invariant 0 <= met <= i <= |conditions|
      invariant met == i <==> forall j :: 0 <= j < i ==> EvaluateCondition(conditions[j], inputs)
      invariant met > 0 <==> exists j :: 0 <= j < i && EvaluateCondition(conditions[j], inputs)
    {
      var result := EvaluateCondition(conditions[i], inputs);
      if result {
        met := met + 1;
      }
      i := i + 1;
    }
    triggered := if all then met == |conditions| else met > 0;
  }
}
