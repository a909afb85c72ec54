/**
 * What a rule asks for: the duty of a steering step, of a closed gate and of a silent sensor, and what
 * it remembers of the device's answer.
 */
module Requests {
  import opened Ids
  import opened Curves
  import opened Evaluator
  import opened Tracking

  // ------------------------------------------------------------------ the duty that is asked for

  /** Within the rule's own limits. */
  predicate WithinLimits(rule: ControlRule, duty: real) {
    && (rule.minOutput.Some? ==> rule.minOutput.value <= duty)
    && (rule.maxOutput.Some? ==> duty <= rule.maxOutput.value)
  }

  predicate WithinRange(range: Range, duty: real) {
    range.low <= duty <= range.high
  }

  /**
   * Between the rule's limits, except where the hardware's range lies outside them; the curve's own
   * output whenever that lies within both; more than the curve only up to a limit or the low end of the
   * range, and less only down to a limit or the high end.
   */
  predicate Limited(rule: ControlRule, range: Range, curved: real, duty: real) {
    && WithinRange(range, duty)
    && (rule.minOutput.Some? ==> duty >= rule.minOutput.value || duty == range.high)
    && (rule.maxOutput.Some? ==> duty <= rule.maxOutput.value || duty == range.low)
    && (WithinLimits(rule, curved) && WithinRange(range, curved) ==> duty == curved)
    && (duty > curved ==> duty == range.low || (rule.minOutput.Some? && duty <= rule.minOutput.value))
    && (duty < curved ==> duty == range.high || (rule.maxOutput.Some? && duty >= rule.maxOutput.value))
  }

  /** What a steering step asks for, when it asks for a write, against the curve it is made from. */
  lemma {:induction false} LimitsHold(rule: ControlRule, m: Memory, input: Input, x: real)
    requires rule.Valid() && ValidInput(input) && Steers(rule, m, input, x)
    ensures var e := Evaluate(rule, m, input).1;
            var curved := EvalAt(rule.curve, x);
            && (e.status.Applied? <==> e.shouldWrite) && (e.status.Held? <==> !e.shouldWrite)
            && (e.shouldWrite ==> e.output.Some? && Limited(rule, input.range, curved, e.output.value))
  {
    var m0 := SteersOn(rule, m, input, x);
    hide Look, Gate, EvalAt, Evaluate;
  }

  /** A disabled rule asks for nothing and remembers nothing. */
  lemma {:induction false} DisabledIsSilent(rule: ControlRule, m: Memory, input: Input)
    requires rule.Valid() && ValidInput(input) && !rule.enabled
    ensures var (m', e) := Evaluate(rule, m, input);
            m' == m && e.status.Disabled? && !e.shouldWrite && e.output.None?
  {}

  // ------------------------------------------------------------------ duties that are not the curve's

  /** The duty nearest to `wanted` that the hardware can be set to. */
  predicate Nearest(range: Range, wanted: real, duty: real) {
    && WithinRange(range, duty)
    && (WithinRange(range, wanted) ==> duty == wanted)
    && (wanted < range.low ==> duty == range.low)
    && (wanted > range.high ==> duty == range.high)
  }

  /** Asked for unless the output is known to be there already. */
  predicate AsksFor(m: Memory, e: Evaluation, duty: real) {
    && e.output == Some(duty)
    && (e.shouldWrite <==>
          m.applied.None? || duty - m.applied.value >= EPSILON || m.applied.value - duty >= EPSILON)
  }

  /** The sensor-failure policy: keep what there is, or ask for the fail-safe duty or the rule's own. */
  ghost predicate Policy(rule: ControlRule, m: Memory, input: Input, e: Evaluation) {
    && e.status.Fallback?
    && match rule.onSensorMissing
       case KeepLast => e.output == m.applied && !e.shouldWrite
       case FallBackTo(percent) => exists duty :: Nearest(input.range, percent, duty) && AsksFor(m, e, duty)
       case FallBackSafe => exists duty :: Nearest(input.range, input.safeDefault, duty) && AsksFor(m, e, duty)
       case Release => exists duty :: Nearest(input.range, input.safeDefault, duty) && AsksFor(m, e, duty)
  }

  /**
   * With no reading to steer on, or none for its gate, the rule takes its sensor-failure policy; the
   * anchor stays, and a gate without a reading is shut.
   */
  lemma {:induction false} FallsBackTo(rule: ControlRule, m: Memory, input: Input)
    requires rule.Valid() && ValidInput(input) && rule.enabled
    requires || Look(rule, m, input).1.None?
             || (rule.gate.Some? && Usable(input.condition).None?
                 && !(m.lastCondition.Some? && WithinGrace(rule, m.lastConditionMs, input.nowMs)))
    ensures var (m', e) := Evaluate(rule, m, input);
            && Policy(rule, m, input, e) && m'.applied == m.applied && m'.armed == m.armed
            && (Look(rule, m, input).1.None? ==> m' == m)
            && (Look(rule, m, input).1.Some? ==> !m'.gateOpen)
  {
    hide WithinGrace;
    var e := Evaluate(rule, m, input).1;
    if !rule.onSensorMissing.KeepLast? {
      var wanted := if rule.onSensorMissing.FallBackTo? then rule.onSensorMissing.percent else input.safeDefault;
      assert Nearest(input.range, wanted, e.output.value) && AsksFor(m, e, e.output.value);
    }
  }

  /** Does the reading keep the gate shut? */
  predicate Shut(op: Comparator, reading: real, threshold: real) {
    match op
    case Gt => reading <= threshold
    case Gte => reading < threshold
    case Lt => reading >= threshold
    case Lte => reading > threshold
    case Eq => reading < threshold - 0.000001 || threshold + 0.000001 < reading
    case Ne => threshold - 0.000001 <= reading <= threshold + 0.000001
  }

  /**
   * A gated rule with a reading of its own to steer on and a fresh one for its gate stands down exactly
   * when that reading is on the wrong side of the threshold, and then asks for the duty it stands down
   * at; otherwise the curve steers.
   */
  lemma {:induction false} GateDecides(rule: ControlRule, m: Memory, input: Input, x: real, reading: real)
    requires rule.Valid() && ValidInput(input) && rule.enabled && rule.gate.Some?
    requires Look(rule, m, input).1 == Some(x) && Usable(input.condition) == Some(reading)
    ensures var (m', e) := Evaluate(rule, m, input);
            var c := rule.gate.value;
            var wanted := if c.otherwise.StandDownAt? then c.otherwise.percent else input.safeDefault;
            && m'.lastCondition == Some(reading) && m'.lastConditionMs == input.nowMs
            && (m'.gateOpen <==> !Shut(c.op, reading, c.value))
            && if Shut(c.op, reading, c.value)
               then e.status.Gated? && m'.armed.None?
                    && exists duty :: Nearest(input.range, wanted, duty) && AsksFor(m, e, duty)
               else Steers(rule, m, input, x) && !e.status.Gated? && !e.status.Fallback?
  {
    var c := rule.gate.value;
    ShutIsUnsatisfied(c.op, reading, c.value);
    hide Satisfied, Shut, HeldBack, Demand;
    var e := Evaluate(rule, m, input).1;
    var wanted := if c.otherwise.StandDownAt? then c.otherwise.percent else input.safeDefault;
    if Shut(c.op, reading, c.value) {
      StandsDownAt(rule, m, input, x, reading, wanted);
    }
  }

  lemma {:induction false} ShutIsUnsatisfied(op: Comparator, reading: real, threshold: real)
    ensures Shut(op, reading, threshold) <==> !Satisfied(op, reading, threshold)
  {}

  lemma {:induction false} StandsDownAt(rule: ControlRule, m: Memory, input: Input, x: real, reading: real,
                                        wanted: real)
    requires rule.Valid() && ValidInput(input) && rule.enabled && rule.gate.Some?
    requires Look(rule, m, input).1 == Some(x) && Usable(input.condition) == Some(reading)
    requires !Satisfied(rule.gate.value.op, reading, rule.gate.value.value)
    requires wanted == if rule.gate.value.otherwise.StandDownAt? then rule.gate.value.otherwise.percent else input.safeDefault
    ensures var e := Evaluate(rule, m, input).1; exists duty :: Nearest(input.range, wanted, duty) && AsksFor(m, e, duty)
  {
    hide Satisfied, HeldBack, Demand;
    var e := Evaluate(rule, m, input).1;
    assert Nearest(input.range, wanted, e.output.value) && AsksFor(m, e, e.output.value);
  }

  // ------------------------------------------------------------------ what the device answered

  /** The output a rule believes in after an answer to the duty it asked for. */
  lemma {:induction false} AnswerIsRemembered(rule: ControlRule, m: Memory, step: Step)
    requires rule.Valid() && ValidInput(step.input)
    ensures var e := Evaluate(rule, m, step.input).1;
            var applied := After(rule, m, step).applied;
            if !e.shouldWrite then applied == m.applied
            else match step.outcome
                 case Confirmed(v) => applied == v
                 case Unconfirmed(NoReport) => applied == None
                 case Unconfirmed(Report(v)) => applied == v
                 case Rejected => applied == m.applied
                 case Failed(NoReport) => applied == m.applied
                 case Failed(Report(v)) => applied == v
  {
    hide Demand, WithinGrace, Satisfied, HeldBack, Clamp, Changed;
  }

  /** An output nobody knows is asked for again as soon as the curve steers. */
  lemma {:induction false} UnknownIsAskedAgain(rule: ControlRule, m: Memory, input: Input, x: real)
    requires rule.Valid() && ValidInput(input) && Steers(rule, m, input, x) && m.applied.None?
    ensures Evaluate(rule, m, input).1.shouldWrite
  {
    var m0 := SteersOn(rule, m, input, x);
    hide Look, Gate, Evaluate, Demand;
  }

  // ------------------------------------------------------------------ the anchor

  /** Steering on some reading, the rule wants exactly what the output is known to be. */
  ghost predicate Level(rule: ControlRule, m: Memory, step: Step)
    requires rule.Valid()
  {
    && ValidInput(step.input)
    && exists x :: Steers(rule, m, step.input, x) && m.applied == Some(Demand(rule, step.input.range, x))
  }

  ghost predicate LevelRun(rule: ControlRule, m: Memory, steps: seq<Step>)
    requires rule.Valid() && ValidSteps(steps)
  {
    forall i | 0 <= i < |steps| :: Level(rule, Run(rule, m, steps[..i]), steps[i])
  }

  lemma {:induction false} LevelStep(rule: ControlRule, m: Memory, step: Step)
    requires rule.Valid() && Level(rule, m, step) && m.armed.Some?
    ensures var after := After(rule, m, step); after.applied == m.applied && after.armed == m.armed
    ensures !Evaluate(rule, m, step.input).1.shouldWrite
  {
    var x :| Steers(rule, m, step.input, x) && m.applied == Some(Demand(rule, step.input.range, x));
    var m0 := SteersOn(rule, m, step.input, x);
    hide Look, Gate, Evaluate, Demand;
  }

  /**
   * Readings that do not change what the rule wants do not move the anchor, however many there are and
   * however they drift: the rule comes down from where it first went up.
   */
  lemma {:induction false} LevelKeepsAnchor(rule: ControlRule, m: Memory, steps: seq<Step>)
    requires rule.Valid() && ValidSteps(steps) && LevelRun(rule, m, steps) && m.armed.Some?
    ensures var after := Run(rule, m, steps); after.applied == m.applied && after.armed == m.armed
  {
    hide Level, After;
    if steps != [] {
      var n := |steps| - 1;
      var before := steps[..n];
      assert forall i | 0 <= i <= n :: before[..i] == steps[..i];
      assert forall i | 0 <= i < n :: Level(rule, Run(rule, m, steps[..i]), steps[i]);
      LevelKeepsAnchor(rule, m, before);
      assert Level(rule, Run(rule, m, before), steps[n]);
      LevelStep(rule, Run(rule, m, before), steps[n]);
    }
  }
}
