/**
 * One rule evaluated over and over: curve, limits, hysteresis, deadband, grace periods, the
 * `when` gate and the sensor-failure policy, with the engine feeding back what each write did.
 */
module Evaluator {
  import opened Ids
  import opened Curves

  const I64_MAX: int := 0x7FFF_FFFF_FFFF_FFFF
  const I64_MIN: int := -0x8000_0000_0000_0000

  /** `Comparator::EQUALITY_TOLERANCE`. */
  const EQUALITY_TOLERANCE: real := 0.000001

  datatype Comparator = Gt | Gte | Lt | Lte | Eq | Ne

  datatype Otherwise = StandDownSafe | StandDownAt(percent: real)

  datatype Condition = Condition(op: Comparator, value: real, otherwise: Otherwise)

  datatype MissingAction = KeepLast | FallBackSafe | FallBackTo(percent: real) | Release

  datatype ControlRule = ControlRule(
    enabled: bool,
    curve: seq<Point>,
    minOutput: Option<real>,
    maxOutput: Option<real>,
    hysteresis: real,
    deadband: real,
    gate: Option<Condition>,
    onSensorMissing: MissingAction,
    sensorTimeoutS: nat)
  {
    /** What saving or loading a rule checks. */
    predicate Valid() {
      && Curves.Valid(curve)
      && hysteresis >= 0.0 && deadband >= 0.0
      && (minOutput.Some? && maxOutput.Some? ==> minOutput.value <= maxOutput.value)
    }
  }

  /** The hardware range of the target. */
  datatype Range = Range(low: real, high: real)

  datatype Input = Input(
    source: Option<Number>,
    condition: Option<Number>,
    nowMs: int,
    range: Range,
    safeDefault: real)

  predicate ValidInput(input: Input) {
    input.range.low <= input.range.high
  }

  /** What a rule remembers between evaluations; an unknown anchor is `None`. */
  datatype Memory = Memory(
    applied: Option<real>,
    armed: Option<real>,
    lastInput: Option<real>,
    lastInputMs: int,
    lastCondition: Option<real>,
    lastConditionMs: int,
    gateOpen: bool)

  const BLANK: Memory := Memory(None, None, None, 0, None, 0, false)

  datatype Status = Disabled | Applied | Held | Gated | Fallback

  datatype Evaluation = Evaluation(status: Status, output: Option<real>, shouldWrite: bool)

  // ------------------------------------------------------------------ pieces

  function Clamp(x: real, low: real, high: real): (r: real)
    requires low <= high
    ensures low <= r <= high
    ensures low <= x <= high ==> r == x
  {
    if x < low then low else if x > high then high else x
  }

  function ClampOutput(rule: ControlRule, output: real): real {
    if rule.minOutput.Some? && output < rule.minOutput.value then rule.minOutput.value
    else if rule.maxOutput.Some? && output > rule.maxOutput.value then rule.maxOutput.value
    else output
  }

  /** What the rule wants at reading `x`: the curve, within the rule's limits and the hardware's. */
  function Demand(rule: ControlRule, range: Range, x: real): real
    requires rule.Valid() && range.low <= range.high
  {
    Clamp(ClampOutput(rule, EvalAt(rule.curve, x)), range.low, range.high)
  }

  predicate Satisfied(op: Comparator, reading: real, threshold: real) {
    match op
    case Gt => reading > threshold
    case Gte => reading >= threshold
    case Lt => reading < threshold
    case Lte => reading <= threshold
    case Eq => Abs(reading - threshold) <= EQUALITY_TOLERANCE
    case Ne => Abs(reading - threshold) > EQUALITY_TOLERANCE
  }

  /** Missing, infinite and NaN readings are all no reading. */
  function Usable(reading: Option<Number>): Option<real> {
    if reading.Some? && reading.value.Finite? then Some(reading.value.value) else None
  }

  function Saturate(x: int): int {
    if x > I64_MAX then I64_MAX else if x < I64_MIN then I64_MIN else x
  }

  function GraceMs(rule: ControlRule): int {
    Saturate((if rule.sensorTimeoutS > I64_MAX then I64_MAX else rule.sensorTimeoutS) * 1000)
  }

  /** May a reading taken at `last` still stand in for a silent sensor? */
  predicate WithinGrace(rule: ControlRule, last: int, now: int) {
    GraceMs(rule) > 0 && last > 0 && Saturate(now - last) < GraceMs(rule)
  }

  function StaleValueWithinGrace(rule: ControlRule, m: Memory, now: int): Option<real> {
    if m.lastInput.Some? && WithinGrace(rule, m.lastInputMs, now) then m.lastInput else None
  }

  datatype GateOutcome = Open | Closed | SourceUnavailable

  function ReadGate(c: Condition, reading: real): GateOutcome {
    if Satisfied(c.op, reading, c.value) then Open else Closed
  }

  function Gate(rule: ControlRule, c: Condition, m: Memory, input: Input): (Memory, GateOutcome) {
    var reading := Usable(input.condition);
    if reading.Some? then
      (m.(lastCondition := reading, lastConditionMs := input.nowMs), ReadGate(c, reading.value))
    else if m.lastCondition.Some? && WithinGrace(rule, m.lastConditionMs, input.nowMs) then
      (m, ReadGate(c, m.lastCondition.value))
    else (m, SourceUnavailable)
  }

  /** A duty is worth writing unless the output is already at it. */
  predicate Changed(m: Memory, duty: real) {
    m.applied.None? || Abs(duty - m.applied.value) >= EPSILON
  }

  function StandDown(c: Condition, m: Memory, input: Input): (Memory, Evaluation)
    requires ValidInput(input)
  {
    var duty := Clamp(if c.otherwise.StandDownAt? then c.otherwise.percent else input.safeDefault,
                      input.range.low, input.range.high);
    (m.(armed := None), Evaluation(Gated, Some(duty), Changed(m, duty)))
  }

  function FallBack(rule: ControlRule, m: Memory, input: Input): Evaluation
    requires ValidInput(input)
  {
    if rule.onSensorMissing.KeepLast? then Evaluation(Fallback, m.applied, false) else
    var duty := Clamp(if rule.onSensorMissing.FallBackTo? then rule.onSensorMissing.percent else input.safeDefault,
                      input.range.low, input.range.high);
    Evaluation(Fallback, Some(duty), Changed(m, duty))
  }

  /** Is the fall from `applied` to `demand` held back at reading `x`? */
  predicate HeldBack(rule: ControlRule, m: Memory, demand: real, x: real) {
    && m.applied.Some? && demand < m.applied.value
    && m.armed.Some? && x > m.armed.value - rule.hysteresis
  }

  /** The curve is in charge, steering on `x`: hysteresis, then deadband. */
  function Steer(rule: ControlRule, m: Memory, range: Range, x: real): (Memory, Evaluation)
    requires rule.Valid() && range.low <= range.high
  {
    var demand := Demand(rule, range, x);
    if HeldBack(rule, m, demand, x) then (m, Evaluation(Held, m.applied, false)) else
    var write := m.applied.None?
                 || (Abs(demand - m.applied.value) >= rule.deadband && Abs(demand - m.applied.value) > EPSILON);
    (if m.applied.Some? && m.applied.value == demand && m.armed.Some? then m else m.(armed := Some(x)),
     Evaluation(if write then Applied else Held, Some(demand), write))
  }

  /** The reading to steer on, if there is one, and the memory after looking. */
  function Look(rule: ControlRule, m: Memory, input: Input): (Memory, Option<real>) {
    var reading := Usable(input.source);
    if reading.Some? then (m.(lastInput := reading, lastInputMs := input.nowMs), reading)
    else (m, StaleValueWithinGrace(rule, m, input.nowMs))
  }

  /** One evaluation. */
  function Evaluate(rule: ControlRule, m: Memory, input: Input): (Memory, Evaluation)
    requires rule.Valid() && ValidInput(input)
  {
    if !rule.enabled then (m, Evaluation(Disabled, None, false)) else
    var (m1, x) := Look(rule, m, input);
    if x.None? then (m1, FallBack(rule, m1, input)) else
    if rule.gate.None? then Steer(rule, m1.(gateOpen := true), input.range, x.value) else
    var (m2, outcome) := Gate(rule, rule.gate.value, m1, input);
    match outcome
    case Open => Steer(rule, m2.(gateOpen := true), input.range, x.value)
    case Closed => StandDown(rule.gate.value, m2.(gateOpen := false), input)
    case SourceUnavailable =>
      var m3 := m2.(gateOpen := false);
      (m3, FallBack(rule, m3, input))
  }

  // ------------------------------------------------------------------ the evaluation as the program writes it

  class RuleState {
    var applied: Option<real>
    var armed: Option<real>
    var lastInput: Option<real>
    var lastInputMs: int
    var lastCondition: Option<real>
    var lastConditionMs: int
    var gateOpen: bool

    function Remembered(): Memory
      reads this
    {
      Memory(applied, armed, lastInput, lastInputMs, lastCondition, lastConditionMs, gateOpen)
    }

    constructor ()
      ensures Remembered() == BLANK
    {
      applied, armed, lastInput, lastInputMs := None, None, None, 0;
      lastCondition, lastConditionMs, gateOpen := None, 0, false;
    }

    method ResolveGate(rule: ControlRule, c: Condition, input: Input) returns (outcome: GateOutcome)
      modifies this`lastCondition, this`lastConditionMs
      ensures (Remembered(), outcome) == Gate(rule, c, old(Remembered()), input)
    {
      var latest := Usable(input.condition);
      var reading := latest;
      if latest.Some? {
        lastCondition := latest;
        lastConditionMs := input.nowMs;
      } else if lastCondition.Some? && WithinGrace(rule, lastConditionMs, input.nowMs) {
        reading := lastCondition;
      } else {
        return SourceUnavailable;
      }
      outcome := if Satisfied(c.op, reading.value, c.value) then Open else Closed;
    }

    method EvaluateGated(c: Condition, input: Input) returns (e: Evaluation)
      requires ValidInput(input)
      modifies this`armed
      ensures (Remembered(), e) == StandDown(c, old(Remembered()), input)
    {
      var duty := match c.otherwise case StandDownSafe => input.safeDefault case StandDownAt(percent) => percent;
      duty := Clamp(duty, input.range.low, input.range.high);
      var changed := true;
      if applied.Some? {
        changed := Abs(duty - applied.value) >= EPSILON;
      }
      armed := None;
      e := Evaluation(Gated, Some(duty), changed);
    }

    /** The curve's turn: hysteresis first, then the deadband. */
    method SteerOn(rule: ControlRule, x: real, range: Range) returns (e: Evaluation)
      requires rule.Valid() && range.low <= range.high
      modifies this`armed
      ensures (Remembered(), e) == Steer(rule, old(Remembered()), range, x)
    {
      var curved := Eval(rule.curve, Finite(x));
      var target := Clamp(ClampOutput(rule, curved), range.low, range.high);
      if applied.Some? {
        if target < applied.value {
          if armed.Some? && x > armed.value - rule.hysteresis {
            target := applied.value;
          } else {
            armed := Some(x);
          }
        } else if target > applied.value || armed.None? {
          armed := Some(x);
        }
      } else {
        armed := Some(x);
      }
      var shouldWrite := true;
      if applied.Some? {
        var delta := Abs(target - applied.value);
        shouldWrite := delta >= rule.deadband && delta > EPSILON;
      }
      e := Evaluation(if shouldWrite then Applied else Held, Some(target), shouldWrite);
    }

    method EvaluateInput(rule: ControlRule, input: Input) returns (e: Evaluation)
      requires rule.Valid() && ValidInput(input)
      modifies this
      ensures (Remembered(), e) == Evaluate(rule, old(Remembered()), input)
    {
      if !rule.enabled {
        return Evaluation(Disabled, None, false);
      }
      var x := Usable(input.source);
      if x.Some? {
        lastInput := x;
        lastInputMs := input.nowMs;
      } else {
        x := StaleValueWithinGrace(rule, Remembered(), input.nowMs);
        if x.None? {
          return FallBack(rule, Remembered(), input);
        }
      }
      if rule.gate.Some? {
        var outcome := ResolveGate(rule, rule.gate.value, input);
        match outcome {
          case Open =>
            gateOpen := true;
          case Closed =>
            gateOpen := false;
            e := EvaluateGated(rule.gate.value, input);
            return;
          case SourceUnavailable =>
            gateOpen := false;
            return FallBack(rule, Remembered(), input);
        }
      } else {
        gateOpen := true;
      }
      e := SteerOn(rule, x.value, input.range);
    }
  }

  // ------------------------------------------------------------------ what the engine feeds back

  /** What the rule learns from the write that its own failure policy makes. */
  datatype FailSafe = NoReport | Report(value: Option<real>)

  datatype Outcome =
    | Confirmed(value: Option<real>)
    | Unconfirmed(failSafe: FailSafe)
    | Rejected
    | Failed(failSafe: FailSafe)

  function Learn(m: Memory, e: Evaluation, outcome: Outcome): Memory {
    if !e.shouldWrite then m else
    match outcome
    case Confirmed(v) => m.(applied := v)
    case Unconfirmed(f) => m.(applied := if f.Report? then f.value else None)
    case Rejected => m
    case Failed(f) => if f.Report? then m.(applied := f.value) else m
  }

  datatype Step = Step(input: Input, outcome: Outcome)

  predicate ValidSteps(steps: seq<Step>) {
    forall i | 0 <= i < |steps| :: ValidInput(steps[i].input)
  }

  function After(rule: ControlRule, m: Memory, step: Step): Memory
    requires rule.Valid() && ValidInput(step.input)
  {
    var (m1, e) := Evaluate(rule, m, step.input);
    Learn(m1, e, step.outcome)
  }

  /** The memory after every step of a run. */
  function Run(rule: ControlRule, m: Memory, steps: seq<Step>): Memory
    requires rule.Valid() && ValidSteps(steps)
  {
    if steps == [] then m
    else After(rule, Run(rule, m, steps[..|steps| - 1]), steps[|steps| - 1])
  }

  method RunLoop(rule: ControlRule, steps: seq<Step>) returns (state: RuleState)
    requires rule.Valid() && ValidSteps(steps)
    ensures fresh(state) && state.Remembered() == Run(rule, BLANK, steps)
  {
    state := new RuleState();
    for i := 0 to |steps|
      invariant fresh(state) && state.Remembered() == Run(rule, BLANK, steps[..i])
    {
      assert steps[..i + 1][..i] == steps[..i];
      var e := state.EvaluateInput(rule, steps[i].input);
      if e.shouldWrite {
        match steps[i].outcome {
          case Confirmed(v) => state.applied := v;
          case Unconfirmed(f) =>
            state.applied := None;
            if f.Report? {
              state.applied := f.value;
            }
          case Rejected =>
          case Failed(f) =>
            if f.Report? {
              state.applied := f.value;
            }
        }
      }
    }
    assert steps[..|steps|] == steps;
  }
}
