/**
 * What one rule's turn does: what it writes, what it remembers of the answer, when its failure
 * policy takes over, and when it comes due again; first in one turn, then cycle after cycle.
 */
module Turns {
  import opened Ids
  import opened Handovers
  import opened Engine
  import opened Rules
  import opened Responsibility
  import opened Closing

  // ------------------------------------------------------------------ one turn

  /** What a rule is known to drive after a write that ended so. */
  function HeldAfter(held: Option<ControlHold>, rule: Rule, result: WriteResult, now: int): Option<ControlHold> {
    match result
    case Applied(v) => Some(ControlHold(rule.target, v, now))
    case Unconfirmed => Some(ControlHold(rule.target, None, now))
    case Rejected => held
    case Error => Some(ControlHold(rule.target, None, now))
  }

  /** How many unconfirmed writes in a row are remembered: a settled one clears them, and so does the third. */
  function Row(run: nat, result: WriteResult): nat {
    match result
    case Applied(_) => 0
    case Unconfirmed => if run >= 2 then 0 else run + 1
    case Rejected => run
    case Error => run
  }

  /** Does the write call for the failure policy? One that failed does, and the third unconfirmed one in a row. */
  predicate Fails(run: nat, result: WriteResult) {
    result.Error? || (result.Unconfirmed? && run >= 2)
  }

  /** The rule's memory after a turn that ran it. */
  function Ran(s: RuleState, rule: Rule, env: RuleEnv, now: int): RuleState {
    if env.resolves && env.wants
    then RuleState(HeldAfter(s.control, rule, env.result, now), Row(s.unconfirmedRun, env.result), now + rule.interval)
    else s.(nextDueMs := now + rule.interval)
  }

  /** What it writes: the duty it asks for and, when the write fails, the duty of its failure policy. */
  function Says(s: RuleState, rule: Rule, env: RuleEnv): seq<Event> {
    if !(env.resolves && env.wants) then []
    else [RuleWrite(rule.id, rule.target, env.result)]
         + if Fails(s.unconfirmedRun, env.result) && !rule.onWriteFailure.Hold?
           then [FailSafeWrite(rule.id, rule.target, env.failSafe)] else []
  }

  lemma {:induction false} UnknownOutcome(c: Core, rule: Rule, s: RuleState, now: int, saves: bool)
    ensures var (c', s') := RecordUnknown(c, rule, s, now, saves);
            && s' == s.(control := Some(ControlHold(rule.target, None, now)))
            && c'.states == c.states[rule.id := s']
  {}

  lemma {:induction false} FailureOutcome(c: Core, rule: Rule, s: RuleState, env: RuleEnv, now: int, saves: bool)
    ensures var (c', events) := HandleWriteFailure(c, rule, s, env, now, saves);
            && rule.id in c'.states
            && c'.states[rule.id] == RuleState(Some(ControlHold(rule.target, None, now)), s.unconfirmedRun, now + rule.interval)
            && events == if rule.onWriteFailure.Hold? then [] else [FailSafeWrite(rule.id, rule.target, env.failSafe)]
  {
    UnknownOutcome(c, rule, s, now, saves);
  }

  lemma {:induction false} UnconfirmedOutcome(c: Core, rule: Rule, s: RuleState, env: RuleEnv, now: int, saves: bool)
    requires s.nextDueMs == now + rule.interval
    ensures var (c', events) := AfterUnconfirmed(c, rule, s, env, now, saves);
            && rule.id in c'.states
            && c'.states[rule.id]
               == RuleState(Some(ControlHold(rule.target, None, now)), Row(s.unconfirmedRun, Unconfirmed), now + rule.interval)
            && events == if s.unconfirmedRun >= 2 && !rule.onWriteFailure.Hold?
                         then [FailSafeWrite(rule.id, rule.target, env.failSafe)] else []
  {
    hide RecordUnknown, HandleWriteFailure;
    var s0 := s.(unconfirmedRun := s.unconfirmedRun + 1);
    UnknownOutcome(c, rule, s0, now, saves);
    var (c1, s1) := RecordUnknown(c, rule, s0, now, saves);
    FailureOutcome(c1, rule, s1.(unconfirmedRun := 0), env, now, saves);
  }

  /** What a run of the rule leaves in its memory, and what it writes, for every way its write can end. */
  lemma {:induction false} RunOutcome(c: Core, rule: Rule, env: RuleEnv, now: int, saves: bool)
    ensures var (c', events) := RunRule(c, rule, env, now, saves);
            && rule.id in c'.states
            && c'.states[rule.id] == Ran(StateOf(c.states, rule.id), rule, env, now)
            && events == Says(StateOf(c.states, rule.id), rule, env)
  {
    hide AfterUnconfirmed, HandleWriteFailure;
    var s := StateOf(c.states, rule.id).(nextDueMs := now + rule.interval);
    UnconfirmedOutcome(c, rule, s, env, now, saves);
    FailureOutcome(c, rule, s, env, now, saves);
  }

  /**
   * The failure policy writes exactly when it is one that writes, and the rule's own write failed or
   * was the third in a row that nobody confirmed; and it writes to the rule's own channel.
   */
  lemma {:induction false} PolicyWrites(c: Core, rule: Rule, env: RuleEnv, now: int, saves: bool)
    requires env.resolves && env.wants
    ensures var (c', events) := RunRule(c, rule, env, now, saves);
            var failSafe := FailSafeWrite(rule.id, rule.target, env.failSafe);
            var run := StateOf(c.states, rule.id).unconfirmedRun;
            && (failSafe in events <==>
                  && rule.onWriteFailure != Hold
                  && (env.result == Error || (env.result == Unconfirmed && run + 1 >= 3)))
            && (forall e | e in events :: e == RuleWrite(rule.id, rule.target, env.result) || e == failSafe)
            && events != [] && events[0] == RuleWrite(rule.id, rule.target, env.result)
  {
    RunOutcome(c, rule, env, now, saves);
    hide RunRule;
    var said := [RuleWrite(rule.id, rule.target, env.result)];
    var failSafe := FailSafeWrite(rule.id, rule.target, env.failSafe);
    assert (said + [failSafe])[1] == failSafe;
  }

  // ------------------------------------------------------------------ one cycle

  /** What a rule wrote, in order. */
  function By(events: seq<Event>, id: RuleId): seq<Event> {
    if events == [] then [] else
    var e := events[|events| - 1];
    By(events[..|events| - 1], id) + if !e.HandoverWrite? && e.rule == id then [e] else []
  }

  lemma {:induction false} ByConcat(a: seq<Event>, b: seq<Event>, id: RuleId)
    ensures By(a + b, id) == By(a, id) + By(b, id)
  {
    if b == [] {
      assert a + b == a;
    } else {
      ByConcat(a, b[..|b| - 1], id);
      assert (a + b)[..|a + b| - 1] == a + b[..|b| - 1];
    }
  }

  lemma {:induction false} ByOthers(events: seq<Event>, id: RuleId)
    requires forall e | e in events :: e.HandoverWrite? || e.rule != id
    ensures By(events, id) == []
  {
    if events != [] {
      ByOthers(events[..|events| - 1], id);
    }
  }

  lemma {:induction false} ByAll(events: seq<Event>, id: RuleId)
    requires forall e | e in events :: !e.HandoverWrite? && e.rule == id
    ensures By(events, id) == events
  {
    if events != [] {
      ByAll(events[..|events| - 1], id);
      assert events == events[..|events| - 1] + [events[|events| - 1]];
    }
  }

  /** No other rule shares the id, and with it the memory. */
  ghost predicate Sole(rules: seq<Rule>, n: nat)
    requires n < |rules|
  {
    forall m | 0 <= m < |rules| && m != n :: rules[m].id != rules[n].id
  }

  /** Does an enabled rule run in this cycle? Not while an earlier one drives its target, nor before it is due. */
  predicate Runs(c: Core, env: TickEnv, n: nat)
    requires n < |c.rules|
  {
    && c.rules[n].enabled && !ClaimedBefore(c.rules, n)
    && (env.force || StateOf(c.states, c.rules[n].id).nextDueMs <= env.now)
  }

  /** The rule's memory after its turn. */
  function TurnState(c: Core, env: TickEnv, n: nat): RuleState
    requires n < |c.rules|
  {
    var rule := c.rules[n];
    var s := StateOf(c.states, rule.id);
    if Runs(c, env, n) then Ran(s, rule, env.rule(n), env.now)
    else if rule.enabled && ClaimedBefore(c.rules, n) then s.(nextDueMs := env.now + rule.interval)
    else s
  }

  function TurnSays(c: Core, env: TickEnv, n: nat): seq<Event>
    requires n < |c.rules|
  {
    if Runs(c, env, n) then Says(StateOf(c.states, c.rules[n].id), c.rules[n], env.rule(n)) else []
  }

  lemma {:induction false} OwnTurn(c: Core, env: TickEnv, n: nat)
    requires n < |c.rules|
    ensures var (c', events) := RuleTurn(c, n, env);
            && StateOf(c'.states, c.rules[n].id) == TurnState(c, env, n)
            && events == TurnSays(c, env, n)
  {
    hide RunRule, ClaimedBefore, Ran, Says;
    RunOutcome(c, c.rules[n], env.rule(n), env.now, env.saves);
  }

  lemma {:induction false} SaysOwn(c: Core, env: TickEnv, n: nat)
    requires n < |c.rules|
    ensures By(TurnSays(c, env, n), c.rules[n].id) == TurnSays(c, env, n)
  {
    hide ClaimedBefore;
    ByAll(TurnSays(c, env, n), c.rules[n].id);
  }

  lemma {:induction false} OtherTurn(c: Core, env: TickEnv, m: nat, id: RuleId)
    requires m < |c.rules| && c.rules[m].id != id
    ensures var (c', events) := RuleTurn(c, m, env);
            StateOf(c'.states, id) == StateOf(c.states, id) && By(events, id) == []
  {
    hide RuleTurn;
    RuleTurnShape(c, m, env);
    ByOthers(RuleTurn(c, m, env).1, id);
  }

  /** The turns of the other rules neither read nor write this rule's memory. */
  lemma {:induction false} TurnsOf(start: Core, k: nat, env: TickEnv, n: nat)
    requires k <= |start.rules| && n < |start.rules| && Sole(start.rules, n)
    ensures var (c, events) := RunRules(start, k, env);
            var id := start.rules[n].id;
            if k <= n then StateOf(c.states, id) == StateOf(start.states, id) && By(events, id) == []
            else StateOf(c.states, id) == TurnState(start, env, n) && By(events, id) == TurnSays(start, env, n)
  {
    hide RuleTurn, TurnState, TurnSays, By;
    var id := start.rules[n].id;
    if k == 0 {
      ByOthers([], id);
    } else {
      TurnsOf(start, k - 1, env, n);
      var (c, events) := RunRules(start, k - 1, env);
      ByConcat(events, RuleTurn(c, k - 1, env).1, id);
      if k - 1 == n {
        OwnTurn(c, env, n);
        SameTurnState(start, c, env, n);
        SaysOwn(start, env, n);
      } else {
        OtherTurn(c, env, k - 1, id);
      }
    }
  }

  lemma {:induction false} SameTurnState(a: Core, b: Core, env: TickEnv, n: nat)
    requires n < |a.rules| && a.rules == b.rules && StateOf(a.states, a.rules[n].id) == StateOf(b.states, a.rules[n].id)
    ensures TurnState(a, env, n) == TurnState(b, env, n) && TurnSays(a, env, n) == TurnSays(b, env, n)
  {}

  /** A whole cycle, as one rule with an id of its own sees it. */
  lemma {:induction false} CycleOf(c: Core, env: TickEnv, n: nat)
    requires n < |c.rules| && Sole(c.rules, n)
    ensures var (after, events) := Tick(c, env);
            && after.rules == c.rules
            && StateOf(after.states, c.rules[n].id)
               == (if env.automation then TurnState(c, env, n) else StateOf(c.states, c.rules[n].id))
            && By(events, c.rules[n].id) == if env.automation then TurnSays(c, env, n) else []
  {
    hide RunRules, HandoverPass, VerifyItems, BuildRecord, TurnState, TurnSays, Sole, By;
    var id := c.rules[n].id;
    if env.automation {
      var (c1, events) := PerformHandovers(c.(ticks := c.ticks + 1), env, c.ticks);
      HandoversBySelf(c, env, id);
      TurnsOf(c1, |c1.rules|, env, n);
      SameTurnState(c, c1, env, n);
      ByConcat(events, RunRules(c1, |c1.rules|, env).1, id);
    } else {
      ByOthers([], id);
    }
  }

  lemma {:induction false} PassBySelf(rules: seq<Rule>, states: States, book: Book, items: Book, tick: nat,
                                      results: nat -> WriteResult)
    ensures forall e | e in HandoverPass(rules, states, book, items, tick, results).1 :: e.HandoverWrite?
  {
    if items != [] {
      PassBySelf(rules, states, book, items[..|items| - 1], tick, results);
    }
  }

  lemma {:induction false} HandoversBySelf(c: Core, env: TickEnv, id: RuleId)
    ensures By(PerformHandovers(c.(ticks := c.ticks + 1), env, c.ticks).1, id) == []
  {
    hide HandoverPass;
    var v := VerifyRecovered(c.(ticks := c.ticks + 1), env);
    PassBySelf(v.rules, v.states, v.book, v.book, c.ticks, env.handover);
    ByOthers(PerformHandovers(c.(ticks := c.ticks + 1), env, c.ticks).1, id);
  }

  /** A rule that asks for a write is written in a cycle exactly when it is enabled, drives its target, and is due or forced. */
  lemma {:induction false} WritesWhenDue(c: Core, env: TickEnv, n: nat)
    requires n < |c.rules| && Sole(c.rules, n) && env.automation
    requires env.rule(n).resolves && env.rule(n).wants
    ensures var r := c.rules[n];
            var wrote := By(Tick(c, env).1, r.id);
            && (wrote != [] <==>
                  && r.enabled && (forall k | 0 <= k < n :: !(c.rules[k].enabled && c.rules[k].target == r.target))
                  && (env.force || StateOf(c.states, r.id).nextDueMs <= env.now))
            && (wrote != [] ==> wrote[0] == RuleWrite(r.id, r.target, env.rule(n).result))
  {
    hide Tick, By;
    CycleOf(c, env, n);
  }

  // ------------------------------------------------------------------ cycle after cycle

  lemma {:induction false} CycledRules(c: Core, envs: seq<TickEnv>)
    ensures Cycled(c, envs).rules == c.rules
  {
    hide Tick;
    if envs != [] {
      CycledRules(c, envs[..|envs| - 1]);
      TickClock(Cycled(c, envs[..|envs| - 1]), envs[|envs| - 1]);
    }
  }

  /** Does rule `n` run in cycle `i`? */
  predicate RunsAt(c: Core, envs: seq<TickEnv>, n: nat, i: nat)
    requires i < |envs|
  {
    var b := Cycled(c, envs[..i]);
    n < |b.rules| && envs[i].automation && Runs(b, envs[i], n)
  }

  /** From its turn in cycle `i` until cycle `j` the rule does not run again. */
  predicate NotBetween(c: Core, envs: seq<TickEnv>, n: nat, i: nat, j: nat)
    requires j <= |envs|
  {
    forall k | i < k < j :: !RunsAt(c, envs, n, k)
  }

  lemma {:induction false} DueAfterTurn(c: Core, envs: seq<TickEnv>, n: nat, i: nat, j: nat)
    requires n < |c.rules| && Sole(c.rules, n) && i < j <= |envs|
    requires RunsAt(c, envs, n, i) && NotBetween(c, envs, n, i, j)
    ensures StateOf(Cycled(c, envs[..j]).states, c.rules[n].id).nextDueMs == envs[i].now + c.rules[n].interval
  {
    hide Tick, ClaimedBefore;
    assert envs[..j][..j - 1] == envs[..j - 1];
    var b := Cycled(c, envs[..j - 1]);
    CycledRules(c, envs[..i]);
    CycledRules(c, envs[..j - 1]);
    CycleOf(b, envs[j - 1], n);
    if j - 1 > i {
      assert forall k | i < k < j - 1 :: !RunsAt(c, envs, n, k);
      DueAfterTurn(c, envs, n, i, j - 1);
      assert !RunsAt(c, envs, n, j - 1);
      assert ClaimedBefore(b.rules, n) == ClaimedBefore(c.rules, n);
    }
  }

  /**
   * A rule keeps its interval. After a turn in cycle `i`, the next cycle that runs it is the first one
   * with automation on that is forced, or comes at least one interval later; by its own clock, and
   * however the cycles are spaced.
   */
  lemma {:induction false} KeepsItsInterval(c: Core, envs: seq<TickEnv>, n: nat, i: nat, j: nat)
    requires n < |c.rules| && Sole(c.rules, n) && i < j < |envs|
    requires RunsAt(c, envs, n, i) && NotBetween(c, envs, n, i, j)
    ensures RunsAt(c, envs, n, j) <==>
              envs[j].automation && (envs[j].force || envs[j].now >= envs[i].now + c.rules[n].interval)
  {
    hide Cycled, ClaimedBefore;
    DueAfterTurn(c, envs, n, i, j);
    CycledRules(c, envs[..i]);
    CycledRules(c, envs[..j]);
  }

  /** How the rule's own write of the cycle ended, if it made one. */
  function WriteOf(c: Core, env: TickEnv, n: nat): Option<WriteResult>
    requires n < |c.rules|
  {
    if env.automation && Runs(c, env, n) && env.rule(n).resolves && env.rule(n).wants
    then Some(env.rule(n).result) else None
  }

  /** How many of its writes in a row nobody confirmed; only a settled one starts a new row. */
  function Streak(c: Core, envs: seq<TickEnv>, n: nat): nat {
    if envs == [] then 0 else
    var k := |envs| - 1;
    var b := Cycled(c, envs[..k]);
    var before := Streak(c, envs[..k], n);
    if n >= |b.rules| then before else
    match WriteOf(b, envs[k], n)
    case Some(Applied(_)) => 0
    case Some(Unconfirmed) => before + 1
    case _ => before
  }

  lemma {:induction false} RowIsStreak(n: nat)
    ensures Row(n % 3, Unconfirmed) == (n + 1) % 3
  {}

  /** The row after a cycle, by how the rule's own write of it ended. */
  lemma {:induction false} RowOf(c: Core, env: TickEnv, n: nat)
    requires n < |c.rules| && Sole(c.rules, n)
    ensures var row := StateOf(c.states, c.rules[n].id).unconfirmedRun;
            StateOf(Tick(c, env).0.states, c.rules[n].id).unconfirmedRun
            == match WriteOf(c, env, n) case None => row case Some(result) => Row(row, result)
  {
    hide Tick, ClaimedBefore, Runs, Row;
    CycleOf(c, env, n);
  }

  lemma {:induction false} RunIsStreak(c: Core, envs: seq<TickEnv>, n: nat)
    requires n < |c.rules| && Sole(c.rules, n) && StateOf(c.states, c.rules[n].id).unconfirmedRun == 0
    ensures StateOf(Cycled(c, envs).states, c.rules[n].id).unconfirmedRun == Streak(c, envs, n) % 3
  {
    hide Tick, WriteOf;
    if envs != [] {
      var k := |envs| - 1;
      RunIsStreak(c, envs[..k], n);
      CycledRules(c, envs[..k]);
      RowOf(Cycled(c, envs[..k]), envs[k], n);
      RowIsStreak(Streak(c, envs[..k], n));
    }
  }

  /**
   * Every third unconfirmed write in a row. Over any cycles from a fresh memory, the failure policy of
   * a rule writes in a cycle exactly when the policy is one that writes, and the rule's own write of
   * that cycle failed, or was the third, sixth, ninth ... unconfirmed one in a row.
   */
  lemma {:induction false} EveryThirdUnconfirmed(c: Core, envs: seq<TickEnv>, env: TickEnv, n: nat)
    requires n < |c.rules| && Sole(c.rules, n) && StateOf(c.states, c.rules[n].id).unconfirmedRun == 0
    ensures Cycled(c, envs).rules == c.rules
    ensures var b := Cycled(c, envs);
            var r := c.rules[n];
            var write := WriteOf(b, env, n);
            FailSafeWrite(r.id, r.target, env.rule(n).failSafe) in By(Tick(b, env).1, r.id) <==>
              && r.onWriteFailure != Hold
              && (write == Some(Error) || (write == Some(Unconfirmed) && (Streak(c, envs, n) + 1) % 3 == 0))
  {
    hide Tick, ClaimedBefore, Runs, By, Cycled;
    RunIsStreak(c, envs, n);
    CycledRules(c, envs);
    var b := Cycled(c, envs);
    CycleOf(b, env, n);
    var r := c.rules[n];
    SaysFailSafe(StateOf(b.states, r.id), r, env.rule(n));
  }

  lemma {:induction false} SaysFailSafe(s: RuleState, rule: Rule, env: RuleEnv)
    ensures FailSafeWrite(rule.id, rule.target, env.failSafe) in Says(s, rule, env) <==>
              && env.resolves && env.wants && rule.onWriteFailure != Hold
              && (env.result == Error || (env.result == Unconfirmed && s.unconfirmedRun >= 2))
  {
    var failSafe := FailSafeWrite(rule.id, rule.target, env.failSafe);
    assert ([RuleWrite(rule.id, rule.target, env.result)] + [failSafe])[1] == failSafe;
  }
}
