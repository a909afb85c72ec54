/** How closely a rule follows its curve, run after run, and when it stays where it is instead. */
module Tracking {
  import opened Ids
  import opened Curves
  import opened Evaluator

  function Max(a: real, b: real): (r: real)
    ensures r >= a && r >= b && (r == a || r == b)
  {
    if a >= b then a else b
  }

  /** Output changes below this are never written. */
  function Resolution(rule: ControlRule): real {
    Max(rule.deadband, EPSILON)
  }

  /** How far an output may be from the demand that set it, when devices confirm within `delta`. */
  function Margin(rule: ControlRule, delta: real): real {
    Max(Resolution(rule), delta)
  }

  // ------------------------------------------------------------------ demand

  lemma {:induction false} ClampsStep(rule: ControlRule, range: Range, p: real, q: real)
    requires rule.Valid() && range.low <= range.high && p <= q
    ensures 0.0 <= Clamp(ClampOutput(rule, q), range.low, range.high)
                   - Clamp(ClampOutput(rule, p), range.low, range.high) <= q - p
  {
    assert 0.0 <= ClampOutput(rule, q) - ClampOutput(rule, p) <= q - p;
  }

  /** Limits flatten the curve and never steepen it. */
  lemma {:induction false} DemandSlope(rule: ControlRule, range: Range, x: real, y: real, slope: real)
    requires rule.Valid() && range.low <= range.high && Rising(rule.curve)
    requires SlopesWithin(rule.curve, -slope, slope) && slope >= 0.0
    requires x <= y
    ensures 0.0 <= Demand(rule, range, y) - Demand(rule, range, x) <= slope * (y - x)
  {
    hide SlopesWithin, Rising, EvalAt, ClampOutput, Clamp;
    EvalRises(rule.curve, x, y);
    SlopesBound(rule.curve, x, y, -slope, slope);
    ClampsStep(rule, range, EvalAt(rule.curve, x), EvalAt(rule.curve, y));
  }

  // ------------------------------------------------------------------ steering steps

  /** Does this evaluation let the curve steer, and on which reading? */
  predicate Steers(rule: ControlRule, m: Memory, input: Input, x: real) {
    && rule.enabled
    && Look(rule, m, input).1 == Some(x)
    && (rule.gate.Some? ==> Gate(rule, rule.gate.value, Look(rule, m, input).0, input).1.Open?)
  }

  /** A steering evaluation is the curve's turn on a memory with the same output and anchor. */
  lemma {:induction false} SteersOn(rule: ControlRule, m: Memory, input: Input, x: real) returns (m0: Memory)
    requires rule.Valid() && ValidInput(input) && Steers(rule, m, input, x)
    ensures m0.applied == m.applied && m0.armed == m.armed
    ensures Evaluate(rule, m, input) == Steer(rule, m0, input.range, x)
  {
    hide Steer;
    var (m1, _) := Look(rule, m, input);
    m0 := if rule.gate.None? then m1.(gateOpen := true)
          else Gate(rule, rule.gate.value, m1, input).0.(gateOpen := true);
  }

  /** The device's report of a value it was asked for is off by at most `delta`. */
  predicate Near(e: Evaluation, outcome: Outcome, delta: real) {
    e.shouldWrite ==> outcome.Confirmed? && outcome.value.Some? && e.output.Some?
                      && Abs(outcome.value.value - e.output.value) <= delta
  }

  /**
   * Whatever the memory holds, however it came about: when the curve steers and the device
   * confirms what it is asked for, the output is never below the demand by more than the margin.
   */
  lemma {:induction false} NeverBelowDemand(rule: ControlRule, m: Memory, step: Step, x: real, delta: real)
    requires rule.Valid() && ValidInput(step.input) && Steers(rule, m, step.input, x)
    requires Near(Evaluate(rule, m, step.input).1, step.outcome, delta)
    ensures var applied := After(rule, m, step).applied;
            applied.Some? && applied.value >= Demand(rule, step.input.range, x) - Margin(rule, delta)
  {
    hide Demand, Look, Gate;
    var m0 := SteersOn(rule, m, step.input, x);
  }

  /** The output is within the margin of the demand at the reading it was set by. */
  ghost predicate Anchored(rule: ControlRule, range: Range, m: Memory, delta: real)
    requires rule.Valid() && range.low <= range.high
  {
    m.applied.Some? && m.armed.Some? ==>
      Abs(m.applied.value - Demand(rule, range, m.armed.value)) <= Margin(rule, delta)
  }

  /**
   * The steps the bound from above is about: the failure policy writes nothing, and a write the
   * curve asks for is confirmed within `delta`, or its value stays unknown. Gated steps are free.
   */
  predicate Tame(rule: ControlRule, m: Memory, step: Step, range: Range, delta: real)
    requires rule.Valid()
  {
    && ValidInput(step.input) && step.input.range == range
    && var e := Evaluate(rule, m, step.input).1;
       && (e.status.Fallback? ==> !e.shouldWrite)
       && (e.status.Applied? ==>
             || Near(e, step.outcome, delta)
             || step.outcome == Confirmed(None)
             || step.outcome == Unconfirmed(NoReport))
  }

  lemma {:induction false} SteerAnchored(rule: ControlRule, range: Range, m: Memory, x: real, outcome: Outcome,
                                         delta: real)
    requires rule.Valid() && range.low <= range.high && Anchored(rule, range, m, delta)
    requires var e := Steer(rule, m, range, x).1;
             e.status.Applied? ==> Near(e, outcome, delta) || outcome == Confirmed(None) || outcome == Unconfirmed(NoReport)
    ensures var (m1, e) := Steer(rule, m, range, x);
            Anchored(rule, range, Learn(m1, e, outcome), delta)
  {
    hide Demand;
  }

  /** The inductive step. */
  lemma {:induction false} StepAnchored(rule: ControlRule, range: Range, m: Memory, step: Step, delta: real)
    requires rule.Valid() && Tame(rule, m, step, range, delta) && Anchored(rule, range, m, delta)
    ensures Anchored(rule, range, After(rule, m, step), delta)
  {
    var (m1, x) := Look(rule, m, step.input);
    var open := rule.gate.None? || Gate(rule, rule.gate.value, m1, step.input).1.Open?;
    if rule.enabled && x.Some? && open {
      hide Demand, Look, Gate, Steer;
      var m0 := SteersOn(rule, m, step.input, x.value);
      SteerAnchored(rule, range, m0, x.value, step.outcome, delta);
    } else {
      hide Demand;
    }
  }

  ghost predicate TameRun(rule: ControlRule, m: Memory, steps: seq<Step>, range: Range, delta: real)
    requires rule.Valid()
  {
    && ValidSteps(steps)
    && forall i | 0 <= i < |steps| :: TameAt(rule, m, steps, i, range, delta)
  }

  predicate TameAt(rule: ControlRule, m: Memory, steps: seq<Step>, i: nat, range: Range, delta: real)
    requires rule.Valid() && ValidSteps(steps) && i < |steps|
  {
    Tame(rule, Run(rule, m, steps[..i]), steps[i], range, delta)
  }

  lemma {:induction false} TameRange(rule: ControlRule, m: Memory, steps: seq<Step>, i: nat, range: Range, delta: real)
    requires rule.Valid() && TameRun(rule, m, steps, range, delta) && i < |steps|
    ensures steps[i].input.range == range
  {
    assert TameAt(rule, m, steps, i, range, delta);
  }

  lemma {:induction false} RunAnchored(rule: ControlRule, range: Range, m: Memory, steps: seq<Step>, delta: real)
    requires rule.Valid() && range.low <= range.high && Anchored(rule, range, m, delta)
    requires TameRun(rule, m, steps, range, delta)
    ensures Anchored(rule, range, Run(rule, m, steps), delta)
  {
    hide Anchored, Tame, After;
    if steps != [] {
      var n := |steps| - 1;
      forall i | 0 <= i < n ensures TameAt(rule, m, steps[..n], i, range, delta) {
        assert TameAt(rule, m, steps, i, range, delta);
        assert steps[..n][..i] == steps[..i];
      }
      RunAnchored(rule, range, m, steps[..n], delta);
      assert TameAt(rule, m, steps, n, range, delta);
      StepAnchored(rule, range, Run(rule, m, steps[..n]), steps[n], delta);
    }
  }

  lemma {:induction false} Stretch(slope: real, t: real, h: real)
    requires slope >= 0.0 && t <= h
    ensures slope * t <= slope * h
  {}

  /** A fall that is held back leaves the output no further above the demand than the hysteresis explains. */
  lemma {:induction false} HeldBackBound(rule: ControlRule, range: Range, m: Memory, x: real, delta: real,
                                         slope: real, rise: real)
    requires rule.Valid() && range.low <= range.high && Anchored(rule, range, m, delta)
    requires Rising(rule.curve) && SlopesWithin(rule.curve, -slope, slope) && slope >= 0.0
    requires HeldBack(rule, m, Demand(rule, range, x), x)
    requires rise == slope * rule.hysteresis
    ensures m.applied.value <= Demand(rule, range, x) + rise + Margin(rule, delta)
  {
    hide Demand, Rising, SlopesWithin, Margin;
    var anchor := m.armed.value;
    Stretch(slope, 0.0, rule.hysteresis);
    if anchor <= x {
      DemandSlope(rule, range, anchor, x, slope);
    } else {
      DemandSlope(rule, range, x, anchor, slope);
      Stretch(slope, anchor - x, rule.hysteresis);
    }
  }

  /** One steering step ends within the bounds, when holding back would. */
  lemma {:induction false} SteerBounds(rule: ControlRule, range: Range, m: Memory, x: real, outcome: Outcome,
                                       delta: real, rise: real)
    requires rule.Valid() && range.low <= range.high && rise >= 0.0
    requires HeldBack(rule, m, Demand(rule, range, x), x)
             ==> m.applied.value <= Demand(rule, range, x) + rise + Margin(rule, delta)
    requires Near(Steer(rule, m, range, x).1, outcome, delta)
    ensures var (m1, e) := Steer(rule, m, range, x);
            var applied := Learn(m1, e, outcome).applied;
            && applied.Some?
            && Demand(rule, range, x) - Margin(rule, delta) <= applied.value
            && applied.value <= Demand(rule, range, x) + rise + Margin(rule, delta)
  {
    hide Demand;
  }

  lemma {:induction false} LastStepBounds(rule: ControlRule, range: Range, m: Memory, step: Step, x: real,
                                          delta: real, slope: real)
    requires rule.Valid() && ValidInput(step.input) && step.input.range == range && Anchored(rule, range, m, delta)
    requires Rising(rule.curve) && SlopesWithin(rule.curve, -slope, slope) && slope >= 0.0
    requires Steers(rule, m, step.input, x) && Near(Evaluate(rule, m, step.input).1, step.outcome, delta)
    ensures Bounded(rule, range, After(rule, m, step), x, delta, slope)
  {
    hide Steer, Learn, Demand, Margin, Rising, SlopesWithin, Look, Gate, Near;
    var m0 := SteersOn(rule, m, step.input, x);
    var rise := slope * rule.hysteresis;
    if HeldBack(rule, m0, Demand(rule, range, x), x) {
      HeldBackBound(rule, range, m0, x, delta, slope, rise);
    }
    Stretch(slope, 0.0, rule.hysteresis);
    SteerBounds(rule, range, m0, x, step.outcome, delta, rise);
  }

  /** The output is known and no further from the demand at `x` than margin and hysteresis explain. */
  ghost predicate Bounded(rule: ControlRule, range: Range, m: Memory, x: real, delta: real, slope: real)
    requires rule.Valid() && range.low <= range.high
  {
    && m.applied.Some?
    && Demand(rule, range, x) - Margin(rule, delta) <= m.applied.value
    && m.applied.value <= Demand(rule, range, x) + slope * rule.hysteresis + Margin(rule, delta)
  }

  /**
   * The tracking bound. Over every run of tame steps, whenever the curve steers on a reading
   * `x` (fresh, or reused within its grace period) and the device confirms what is asked, the
   * output ends no lower than the demand less the margin, and no higher than the demand plus
   * what the curve rises over the hysteresis plus the margin.
   */
  lemma {:induction false} TrackingBound(rule: ControlRule, range: Range, steps: seq<Step>, x: real, delta: real,
                                         slope: real)
    requires rule.Valid() && range.low <= range.high && steps != []
    requires Rising(rule.curve) && SlopesWithin(rule.curve, -slope, slope) && slope >= 0.0
    requires TameRun(rule, BLANK, steps, range, delta)
    requires var n := |steps| - 1;
             && Steers(rule, Run(rule, BLANK, steps[..n]), steps[n].input, x)
             && Near(Evaluate(rule, Run(rule, BLANK, steps[..n]), steps[n].input).1, steps[n].outcome, delta)
    ensures Bounded(rule, range, Run(rule, BLANK, steps), x, delta, slope)
  {
    hide Bounded, After, Steers, Near, Tame, Rising, SlopesWithin, Evaluate;
    var n := |steps| - 1;
    forall i | 0 <= i < n ensures TameAt(rule, BLANK, steps[..n], i, range, delta) {
      assert TameAt(rule, BLANK, steps, i, range, delta);
      assert steps[..n][..i] == steps[..i];
    }
    RunAnchored(rule, range, BLANK, steps[..n], delta);
    TameRange(rule, BLANK, steps, n, range, delta);
    LastStepBounds(rule, range, Run(rule, BLANK, steps[..n]), steps[n], x, delta, slope);
  }

  // ------------------------------------------------------------------ why the other steps are excluded

  predicate WorthWriting(rule: ControlRule, from: real, to: real) {
    Abs(to - from) >= rule.deadband && Abs(to - from) > EPSILON
  }

  /** With the output above the demand, a steering evaluation writes exactly when the anchor lets it. */
  lemma {:induction false} FallsWhen(rule: ControlRule, m: Memory, input: Input, y: real)
    requires rule.Valid() && ValidInput(input) && Steers(rule, m, input, y)
    requires m.applied.Some? && Demand(rule, input.range, y) < m.applied.value
    requires WorthWriting(rule, m.applied.value, Demand(rule, input.range, y))
    ensures Evaluate(rule, m, input).1.shouldWrite
            <==> m.armed.None? || y <= m.armed.value - rule.hysteresis
  {
    hide Demand, Look, Gate;
    var m0 := SteersOn(rule, m, input, y);
  }

  /**
   * A fall that the device refused is not asked for again until the reading has dropped by the
   * whole hysteresis below the reading it was asked at: the anchor moved before the write was tried.
   */
  lemma {:induction false} RefusedFallWaits(rule: ControlRule, m: Memory, step: Step, x: real, next: Input, y: real)
    requires rule.Valid() && ValidInput(step.input) && ValidInput(next)
    requires Steers(rule, m, step.input, x) && Evaluate(rule, m, step.input).1.shouldWrite
    requires m.applied.Some? && Demand(rule, step.input.range, x) < m.applied.value
    requires step.outcome == Rejected || step.outcome == Failed(NoReport)
    requires var m1 := After(rule, m, step);
             && Steers(rule, m1, next, y)
             && Demand(rule, next.range, y) < m.applied.value
             && WorthWriting(rule, m.applied.value, Demand(rule, next.range, y))
    ensures After(rule, m, step).applied == m.applied
    ensures Evaluate(rule, After(rule, m, step), next).1.shouldWrite <==> y <= x - rule.hysteresis
  {
    hide Demand, Look, Gate, Steers, WorthWriting;
    var m1 := After(rule, m, step);
    assert m1.applied == m.applied && m1.armed == Some(x) by {
      var m0 := SteersOn(rule, m, step.input, x);
    }
    hide Evaluate;
    FallsWhen(rule, m1, next, y);
  }

  /**
   * After the sensor-failure policy wrote its duty, the rule comes down from it exactly when the
   * reading is a hysteresis below the anchor of the output before that: the policy leaves it set.
   */
  lemma {:induction false} FailSafeKeepsAnchor(rule: ControlRule, m: Memory, step: Step, duty: real, next: Input,
                                               y: real)
    requires rule.Valid() && ValidInput(step.input) && ValidInput(next)
    requires Evaluate(rule, m, step.input).1 == Evaluation(Fallback, Some(duty), true)
    requires step.outcome == Confirmed(Some(duty))
    requires var m1 := After(rule, m, step);
             && Steers(rule, m1, next, y)
             && Demand(rule, next.range, y) < duty
             && WorthWriting(rule, duty, Demand(rule, next.range, y))
    ensures After(rule, m, step).applied == Some(duty)
    ensures Evaluate(rule, After(rule, m, step), next).1.shouldWrite
            <==> m.armed.None? || y <= m.armed.value - rule.hysteresis
  {
    hide Demand, Steers, WorthWriting;
    var m1 := After(rule, m, step);
    assert m1.applied == Some(duty) && m1.armed == m.armed;
    hide Evaluate;
    FallsWhen(rule, m1, next, y);
  }

  /** A closed gate clears the anchor: on reopening, the output lands at the demand, from either side. */
  lemma {:induction false} GateClearsAnchor(rule: ControlRule, m: Memory, step: Step, next: Step, y: real, delta: real)
    requires rule.Valid() && ValidInput(step.input) && ValidInput(next.input)
    requires Evaluate(rule, m, step.input).1.status.Gated?
    requires var m1 := After(rule, m, step);
             Steers(rule, m1, next.input, y) && Near(Evaluate(rule, m1, next.input).1, next.outcome, delta)
    ensures var applied := After(rule, After(rule, m, step), next).applied;
            applied.Some? && Abs(applied.value - Demand(rule, next.input.range, y)) <= Margin(rule, delta)
  {
    hide Demand, Steers;
    var m1 := After(rule, m, step);
    assert m1.armed.None?;
    var m0 := SteersOn(rule, m1, next.input, y);
  }

  /** Nothing is ever asked for outside the hardware range, whichever branch asks. */
  lemma {:induction false} RequestsStayInRange(rule: ControlRule, m: Memory, input: Input)
    requires rule.Valid() && ValidInput(input)
    ensures var e := Evaluate(rule, m, input).1;
            e.shouldWrite ==> e.output.Some? && input.range.low <= e.output.value <= input.range.high
  {
    hide Look, Gate, ClampOutput, EvalAt;
  }

  // ------------------------------------------------------------------ no flapping

  /** A reading inside the band, and a device that does what it is asked. */
  predicate Steady(rule: ControlRule, m: Memory, step: Step, range: Range, low: real, high: real)
    requires rule.Valid()
  {
    && ValidInput(step.input) && step.input.range == range
    && Usable(step.input.source).Some? && low <= Usable(step.input.source).value <= high
    && var e := Evaluate(rule, m, step.input).1;
       e.shouldWrite ==> step.outcome == Confirmed(e.output)
  }

  predicate SteadyAt(rule: ControlRule, m: Memory, steps: seq<Step>, i: nat, range: Range, low: real, high: real)
    requires rule.Valid() && ValidSteps(steps) && i < |steps|
  {
    Steady(rule, Run(rule, m, steps[..i]), steps[i], range, low, high)
  }

  ghost predicate SteadyRun(rule: ControlRule, steps: seq<Step>, range: Range, low: real, high: real)
    requires rule.Valid()
  {
    && ValidSteps(steps)
    && forall i | 0 <= i < |steps| :: SteadyAt(rule, BLANK, steps, i, range, low, high)
  }

  /** How many writes a run asked for. */
  function Writes(rule: ControlRule, m: Memory, steps: seq<Step>): nat
    requires rule.Valid() && ValidSteps(steps)
  {
    if steps == [] then 0 else
    var n := |steps| - 1;
    Writes(rule, m, steps[..n]) + if Evaluate(rule, Run(rule, m, steps[..n]), steps[n].input).1.shouldWrite then 1 else 0
  }

  ghost predicate InBand(m: Memory, range: Range, low: real, high: real) {
    m.applied.Some? ==>
      && m.armed.Some? && low <= m.armed.value <= high
      && range.low <= m.applied.value <= range.high
  }

  /** In a band narrower than the hysteresis an output can only rise, and rises by the resolution or not at all. */
  lemma {:induction false} SteadyStep(rule: ControlRule, m: Memory, step: Step, range: Range, low: real, high: real)
    requires rule.Valid() && rule.enabled && rule.gate.None? && high - low < rule.hysteresis
    requires InBand(m, range, low, high) && Steady(rule, m, step, range, low, high)
    ensures var m1 := After(rule, m, step);
            && InBand(m1, range, low, high) && m1.applied.Some?
            && (m.applied.Some? ==>
                  m1.applied.value >= m.applied.value
                  + if Evaluate(rule, m, step.input).1.shouldWrite then Resolution(rule) else 0.0)
            && (m.applied.None? ==> Evaluate(rule, m, step.input).1.shouldWrite)
  {
    hide ClampOutput, EvalAt;
  }

  lemma {:induction false} SteadyPrefix(rule: ControlRule, steps: seq<Step>, n: nat, range: Range, low: real,
                                        high: real)
    requires rule.Valid() && SteadyRun(rule, steps, range, low, high) && n <= |steps|
    ensures SteadyRun(rule, steps[..n], range, low, high)
  {
    forall i | 0 <= i < n ensures SteadyAt(rule, BLANK, steps[..n], i, range, low, high) {
      assert SteadyAt(rule, BLANK, steps, i, range, low, high);
      assert steps[..n][..i] == steps[..i];
    }
  }

  /** High enough for that many writes. */
  ghost predicate RisenBy(rule: ControlRule, range: Range, applied: real, writes: int) {
    applied >= range.low + (writes - 1) as real * Resolution(rule)
  }

  lemma {:induction false} RisesOn(rule: ControlRule, range: Range, applied: real, writes: int, applied': real,
                                   wrote: bool)
    requires RisenBy(rule, range, applied, writes)
    requires applied' >= applied + if wrote then Resolution(rule) else 0.0
    ensures RisenBy(rule, range, applied', writes + if wrote then 1 else 0)
  {
    var r := Resolution(rule);
    assert writes as real * r == (writes - 1) as real * r + r;
  }

  lemma {:induction false} FirstRise(rule: ControlRule, range: Range, applied: real)
    requires applied >= range.low
    ensures RisenBy(rule, range, applied, 1)
  {}

  /** Every write after the first uses up one resolution of the hardware range. */
  lemma {:induction false} WritesUseRange(rule: ControlRule, steps: seq<Step>, range: Range, low: real, high: real)
    requires rule.Valid() && rule.enabled && rule.gate.None? && high - low < rule.hysteresis
    requires SteadyRun(rule, steps, range, low, high)
    ensures var m := Run(rule, BLANK, steps);
            && InBand(m, range, low, high)
            && (steps == [] ==> m == BLANK)
            && (steps != [] ==> m.applied.Some? && RisenBy(rule, range, m.applied.value, Writes(rule, BLANK, steps)))
  {
    hide Steady, Resolution, After, RisenBy, Evaluate;
    if steps != [] {
      var n := |steps| - 1;
      SteadyPrefix(rule, steps, n, range, low, high);
      WritesUseRange(rule, steps[..n], range, low, high);
      assert SteadyAt(rule, BLANK, steps, n, range, low, high);
      var m := Run(rule, BLANK, steps[..n]);
      SteadyStep(rule, m, steps[n], range, low, high);
      var wrote := Evaluate(rule, m, steps[n].input).1.shouldWrite;
      if n == 0 {
        assert steps[..n] == [] && wrote;
        assert RisenBy(rule, range, After(rule, m, steps[n]).applied.value, 1) by {
          FirstRise(rule, range, After(rule, m, steps[n]).applied.value);
        }
      } else {
        RisesOn(rule, range, m.applied.value, Writes(rule, BLANK, steps[..n]),
                After(rule, m, steps[n]).applied.value, wrote);
      }
    }
  }

  /**
   * No flapping: readings in a band narrower than the hysteresis, whatever the curve's shape, only
   * ever raise the output, and cost at most one write plus one per resolution of the range.
   */
  lemma {:induction false} NoFlapping(rule: ControlRule, steps: seq<Step>, range: Range, low: real, high: real,
                                      i: nat, j: nat)
    requires rule.Valid() && rule.enabled && rule.gate.None? && high - low < rule.hysteresis
    requires range.low <= range.high && SteadyRun(rule, steps, range, low, high)
    requires 0 < i <= j <= |steps|
    ensures var a, b := Run(rule, BLANK, steps[..i]).applied, Run(rule, BLANK, steps[..j]).applied;
            a.Some? && b.Some? && a.value <= b.value
    ensures Writes(rule, BLANK, steps) as real <= 1.0 + (range.high - range.low) / Resolution(rule)
  {
    hide Run, Writes, Evaluate, Resolution, InBand, RisenBy;
    NeverFalls(rule, steps, range, low, high, i, j);
    WritesUseRange(rule, steps, range, low, high);
    WritesFit(rule, range, Run(rule, BLANK, steps), Writes(rule, BLANK, steps), low, high);
  }

  lemma {:induction false} WritesFit(rule: ControlRule, range: Range, m: Memory, writes: int, low: real, high: real)
    requires rule.Valid() && m.applied.Some? && InBand(m, range, low, high)
    requires RisenBy(rule, range, m.applied.value, writes)
    ensures writes as real <= 1.0 + (range.high - range.low) / Resolution(rule)
  {
    Fits((writes - 1) as real, Resolution(rule), range.high - range.low);
  }

  lemma {:induction false} Fits(n: real, r: real, span: real)
    requires r > 0.0 && n * r <= span
    ensures n <= span / r
  {
    var q := span / r;
    assert q * r == span;
    assert (n - q) * r <= 0.0;
  }

  lemma {:induction false} NeverFalls(rule: ControlRule, steps: seq<Step>, range: Range, low: real, high: real,
                                      i: nat, j: nat)
    requires rule.Valid() && rule.enabled && rule.gate.None? && high - low < rule.hysteresis
    requires SteadyRun(rule, steps, range, low, high)
    requires 0 < i <= j <= |steps|
    ensures var a, b := Run(rule, BLANK, steps[..i]).applied, Run(rule, BLANK, steps[..j]).applied;
            a.Some? && b.Some? && a.value <= b.value
    decreases j
  {
    hide Steady, Evaluate, After, Writes;
    SteadyPrefix(rule, steps, j, range, low, high);
    WritesUseRange(rule, steps[..j], range, low, high);
    if i < j {
      var k := j - 1;
      NeverFalls(rule, steps, range, low, high, i, k);
      SteadyPrefix(rule, steps, k, range, low, high);
      WritesUseRange(rule, steps[..k], range, low, high);
      assert SteadyAt(rule, BLANK, steps, k, range, low, high);
      SteadyStep(rule, Run(rule, BLANK, steps[..k]), steps[k], range, low, high);
      assert steps[..j][..k] == steps[..k] && steps[..j][k] == steps[k];
    }
  }

  // ------------------------------------------------------------------ grace windows

  /** The window in plain terms: a positive timeout, a reading that was really taken, and less silence than it allows. */
  predicate StillCounts(rule: ControlRule, taken: int, now: int) {
    rule.sensorTimeoutS > 0 && taken > 0 && now - taken < 1000 * rule.sensorTimeoutS
  }

  /** Saturating 64-bit arithmetic never changes the answer. */
  lemma {:induction false} WindowIsPlain(rule: ControlRule, taken: int, now: int)
    requires I64_MIN <= taken <= I64_MAX && I64_MIN <= now <= I64_MAX
    ensures WithinGrace(rule, taken, now) <==> StillCounts(rule, taken, now)
  {}

  ghost predicate SilentSource(steps: seq<Step>) {
    ValidSteps(steps) && forall i | 0 <= i < |steps| :: Usable(steps[i].input.source).None?
  }

  ghost predicate SilentGate(steps: seq<Step>) {
    ValidSteps(steps) && forall i | 0 <= i < |steps| :: Usable(steps[i].input.condition).None?
  }

  lemma {:induction false} SilentStep(rule: ControlRule, m: Memory, step: Step)
    requires rule.Valid() && ValidInput(step.input)
    ensures Usable(step.input.source).None? ==>
      After(rule, m, step).lastInput == m.lastInput && After(rule, m, step).lastInputMs == m.lastInputMs
    ensures Usable(step.input.condition).None? ==>
      After(rule, m, step).lastCondition == m.lastCondition && After(rule, m, step).lastConditionMs == m.lastConditionMs
  {
    hide Demand, WithinGrace, Satisfied, Clamp, Changed, HeldBack;
  }

  /** Silence, however long, moves neither anchor. */
  lemma {:induction false} SilenceKeeps(rule: ControlRule, m: Memory, steps: seq<Step>)
    requires rule.Valid() && ValidSteps(steps)
    ensures SilentSource(steps) ==>
      Run(rule, m, steps).lastInput == m.lastInput && Run(rule, m, steps).lastInputMs == m.lastInputMs
    ensures SilentGate(steps) ==>
      Run(rule, m, steps).lastCondition == m.lastCondition && Run(rule, m, steps).lastConditionMs == m.lastConditionMs
  {
    hide After;
    if steps != [] {
      var n := |steps| - 1;
      SilenceKeeps(rule, m, steps[..n]);
      SilentStep(rule, Run(rule, m, steps[..n]), steps[n]);
    }
  }

  /**
   * The source window never slides: after a reading taken at `t`, and any number of silent
   * evaluations, a silent evaluation has that reading to steer on exactly while the window from `t`
   * lasts, and otherwise takes the sensor-failure policy, whatever the gate says. While the window
   * lasts, a rule without a gate steers on the reading, and a gated rule takes the policy only when
   * its gate has no reading of its own.
   */
  lemma {:induction false} SourceGraceNeverSlides(rule: ControlRule, m: Memory, taken: Step, silent: seq<Step>,
                                                  input: Input, x: real)
    requires rule.Valid() && rule.enabled
    requires ValidInput(taken.input) && ValidInput(input) && SilentSource(silent)
    requires Usable(taken.input.source) == Some(x) && Usable(input.source).None?
    requires I64_MIN <= taken.input.nowMs <= I64_MAX && I64_MIN <= input.nowMs <= I64_MAX
    ensures var m1 := Run(rule, After(rule, m, taken), silent);
            var e := Evaluate(rule, m1, input).1;
            && Look(rule, m1, input) == (m1, if StillCounts(rule, taken.input.nowMs, input.nowMs) then Some(x) else None)
            && if !StillCounts(rule, taken.input.nowMs, input.nowMs) then e == FallBack(rule, m1, input)
               else if rule.gate.None? then Steers(rule, m1, input, x) && !e.status.Fallback?
               else e.status.Fallback? <==> Gate(rule, rule.gate.value, m1, input).1.SourceUnavailable?
  {
    hide Demand, WithinGrace, FallBack, Gate;
    var m0 := After(rule, m, taken);
    TakenReading(rule, m, taken);
    SilenceKeeps(rule, m0, silent);
    WindowIsPlain(rule, taken.input.nowMs, input.nowMs);
    FallBackStatus(rule, input);
  }

  lemma {:induction false} FallBackStatus(rule: ControlRule, input: Input)
    requires ValidInput(input)
    ensures forall m :: FallBack(rule, m, input).status.Fallback?
  {}

  /** An enabled rule remembers the reading it took, and its gate's when it had a reading to steer on. */
  lemma {:induction false} TakenReading(rule: ControlRule, m: Memory, taken: Step)
    requires rule.Valid() && rule.enabled && ValidInput(taken.input)
    ensures Usable(taken.input.source).Some? ==>
              var m1 := After(rule, m, taken);
              m1.lastInput == Usable(taken.input.source) && m1.lastInputMs == taken.input.nowMs
    ensures Look(rule, m, taken.input).1.Some? && rule.gate.Some? && Usable(taken.input.condition).Some? ==>
              var m1 := After(rule, m, taken);
              m1.lastCondition == Usable(taken.input.condition) && m1.lastConditionMs == taken.input.nowMs
  {
    hide Demand, WithinGrace;
  }

  /**
   * The gate's window behaves the same way, however the source fares in between: the gate is read
   * whenever there is a source reading to steer on, fresh or within its own window.
   */
  lemma {:induction false} GateGraceNeverSlides(rule: ControlRule, m: Memory, taken: Step, silent: seq<Step>,
                                                input: Input, reading: real)
    requires rule.Valid() && rule.enabled && rule.gate.Some?
    requires ValidInput(taken.input) && ValidInput(input) && SilentGate(silent)
    requires Look(rule, m, taken.input).1.Some? && Usable(taken.input.condition) == Some(reading)
    requires Look(rule, Run(rule, After(rule, m, taken), silent), input).1.Some? && Usable(input.condition).None?
    requires I64_MIN <= taken.input.nowMs <= I64_MAX && I64_MIN <= input.nowMs <= I64_MAX
    ensures var c := rule.gate.value;
            var e := Evaluate(rule, Run(rule, After(rule, m, taken), silent), input).1;
            && (e.status.Fallback? <==> !StillCounts(rule, taken.input.nowMs, input.nowMs))
            && (e.status.Gated? <==> StillCounts(rule, taken.input.nowMs, input.nowMs)
                                     && !Satisfied(c.op, reading, c.value))
  {
    hide Demand, WithinGrace, Satisfied;
    var m0 := After(rule, m, taken);
    TakenReading(rule, m, taken);
    SilenceKeeps(rule, m0, silent);
    WindowIsPlain(rule, taken.input.nowMs, input.nowMs);
  }
}
