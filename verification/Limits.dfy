/**
 * Where responsibility can be lost, and exactly when.
 *
 * `ResponsibilityNeverLost` asks one thing of a reload: that every enabled rule drives the
 * channel the first rule with its id names. Files whose ids are distinct always satisfy it; two
 * files that share an id (`x.yaml` beside `x.yml`) need not, and then a run that loses a channel
 * exists.
 */
module Limits {
  import opened Ids
  import opened Handovers
  import opened Engine
  import opened Rules
  import opened Responsibility

  const EMPTY: Record := Record([], [])

  lemma {:induction false} DistinctIdsAreUnambiguous(report: seq<Rule>)
    requires DistinctIds(report)
    ensures Unambiguous(Loaded(report))
  {
    hide Loaded;
    LoadedFacts(report);
    var rules := Loaded(report);
    forall r | r in rules && r.enabled ensures rules[FindFirst(rules, r)].target == r.target {
      var k :| 0 <= k < |rules| && rules[k] == r;
      assert rules[FindFirst(rules, r)].id == rules[k].id;
    }
  }

  // ------------------------------------------------------------------ a first load

  lemma {:induction false} NothingToApply(c: Core, report: seq<Rule>, saves: bool)
    ensures ApplyLoaded(c, [], report, saves) == c
  {
    if report != [] {
      NothingToApply(c, report[..|report| - 1], saves);
    }
  }

  /** The first load of a process: the rules, an empty memory, and what the record says is owed. */
  lemma {:induction false} FirstLoad(disk: Record, report: seq<Rule>, saves: bool)
    ensures var c := Load(Fresh(disk), report, saves);
            && c == Recover(Core(Loaded(report), Retained(map[], report), [], false, disk, true, 0))
            && c.rules == Loaded(report) && c.states == Retained(map[], report) && c.disk == disk
  {
    var c1 := Fresh(disk).(rules := SortRules(report), states := Retained(map[], report));
    NothingToApply(c1, report, saves);
  }

  // ------------------------------------------------------------------ one rule writes

  /** A forced cycle in which only rule `k` asks for a write, and the device confirms it. */
  function OnlyRule(k: nat): TickEnv {
    TickEnv(true, false, true, 0, true, _ => Writable, _ => Error,
            n => RuleEnv(true, n == k, Applied(Some(0.0)), Error))
  }

  ghost predicate NothingHeld(states: States) {
    forall id | id in states :: states[id].control.None?
  }

  ghost predicate NothingElseHeld(states: States, rule: RuleId) {
    forall id | id in states && id != rule :: states[id].control.None?
  }

  lemma {:induction false} OwnerIsFirst(rules: seq<Rule>, k: nat)
    requires k < |rules| && rules[k].enabled && OneOwner(rules)
    ensures !ClaimedBefore(rules, k)
  {}

  /** Every other rule's turn leaves what each rule holds as it was, and writes nothing. */
  lemma {:induction false} OtherTurn(c: Core, n: nat, k: nat)
    requires n < |c.rules| && n != k
    ensures var (c', events) := RuleTurn(c, n, OnlyRule(k));
            && events == [] && c' == c.(states := c'.states)
            && (c.rules[n].enabled ==> forall id :: StateOf(c'.states, id).control == StateOf(c.states, id).control)
            && (!c.rules[n].enabled ==> c' == c)
            && forall id | id in c.states :: id in c'.states
  {}

  /** The turn of the rule that asks for a write. */
  lemma {:induction false} OwnTurn(c: Core, k: nat)
    requires k < |c.rules| && c.rules[k].enabled && !ClaimedBefore(c.rules, k)
    ensures var (c', events) := RuleTurn(c, k, OnlyRule(k));
            var r := c.rules[k];
            && events == [RuleWrite(r.id, r.target, Applied(Some(0.0)))]
            && r.id in c'.states && c'.states[r.id].control == Some(ControlHold(r.target, Some(0.0), 0))
            && c' == c.(states := c.states[r.id := c'.states[r.id]])
  {}

  lemma {:induction false} OnlyRuleWrites(c: Core, n: nat, k: nat)
    requires n <= |c.rules| && k < |c.rules|
    requires c.rules[k].enabled && OneOwner(c.rules) && NothingHeld(c.states)
    ensures var (c', events) := RunRules(c, n, OnlyRule(k));
            var r := c.rules[k];
            && c' == c.(states := c'.states)
            && (n <= k ==> NothingHeld(c'.states) && events == [])
            && (n > k ==>
                 && events == [RuleWrite(r.id, r.target, Applied(Some(0.0)))]
                 && r.id in c'.states && c'.states[r.id].control == Some(ControlHold(r.target, Some(0.0), 0))
                 && NothingElseHeld(c'.states, r.id))
  {
    hide RuleTurn, ClaimedBefore, OneOwner;
    if n > 0 {
      OnlyRuleWrites(c, n - 1, k);
      var (c1, events) := RunRules(c, n - 1, OnlyRule(k));
      if n - 1 == k {
        OwnerIsFirst(c.rules, k);
        OwnTurn(c1, k);
      } else {
        OtherTurn(c1, n - 1, k);
        var (c2, _) := RuleTurn(c1, n - 1, OnlyRule(k));
        assert forall id | id in c2.states :: c2.states[id].control == StateOf(c1.states, id).control;
      }
    }
  }

  /** The rule file a user could save next: the id of `r`, stood down. */
  function StoodDownCopy(r: Rule): Rule {
    r.(enabled := false)
  }

  lemma {:induction false} RunOneMore(disk: Record, ops: seq<Op>, op: Op)
    requires !op.Crash?
    ensures Run(disk, ops + [op]) == Step(Run(disk, ops), op).0
    ensures Answerable(disk, ops + [op]) == Touch(Answerable(disk, ops), Step(Run(disk, ops), op).1)
  {
    assert (ops + [op])[..|ops|] == ops;
  }

  lemma {:induction false} ThreeSteps(disk: Record, load: Op, tick: Op, save: Op)
    requires load.LoadRules? && tick.DoTick? && save.SaveRule?
    ensures var c1 := Load(Fresh(disk), load.report, load.saves);
            var t := Tick(c1, tick.env);
            && Run(disk, [load, tick, save]) == Save(t.0, save.rule, save.accepted, save.saves)
            && Answerable(disk, [load, tick, save]) == Touch({}, t.1)
  {
    hide Load, Tick, Save;
    RunOneMore(disk, [], load);
    RunOneMore(disk, [load], tick);
    RunOneMore(disk, [load, tick], save);
    assert [] + [load] == [load] && [load] + [tick] == [load, tick] && [load, tick] + [save] == [load, tick, save];
  }

  /** The save that follows: the hold does not name what the configuration says, so nothing is queued. */
  lemma {:induction false} MismatchedSaveForgets(c: Core, r: Rule)
    requires r in c.rules && c.rules[FindFirst(c.rules, r)].target != r.target
    requires c.book == [] && !c.dirty && NothingElseHeld(c.states, r.id)
    requires r.id in c.states && Names(c.states[r.id], r.target)
    ensures var c' := Save(c, StoodDownCopy(r), true, true);
            c'.book == [] && NothingHeld(c'.states)
  {}

  lemma {:induction false} EmptyFirstLoad(report: seq<Rule>)
    ensures var c := Load(Fresh(EMPTY), report, true);
            && c.rules == Loaded(report) && c.book == [] && !c.dirty
            && NothingHeld(c.states) && OneOwner(c.rules)
  {
    FirstLoad(EMPTY, report, true);
    LoadedFacts(report);
  }

  /** From an empty memory and an ambiguous id: a cycle and a save lose the channel just written. */
  lemma {:induction false} LosingTail(c1: Core) returns (k: nat, q: Rule, c: Channel)
    requires !Unambiguous(c1.rules) && OneOwner(c1.rules)
    requires c1.book == [] && !c1.dirty && NothingHeld(c1.states)
    ensures var t := Tick(c1, OnlyRule(k));
            var c3 := Save(t.0, q, true, true);
            c in Touch({}, t.1) && c3.book == [] && NothingHeld(c3.states)
  {
    var rules := c1.rules;
    var r :| r in rules && r.enabled && rules[FindFirst(rules, r)].target != r.target;
    k :| 0 <= k < |rules| && rules[k] == r;
    q, c := StoodDownCopy(r), r.target;
    var t := OneWriteTick(c1, k);
    MismatchedSaveForgets(t.0, r);
  }

  lemma {:induction false} EmptyCoversNothing(states: States, c: Channel)
    requires NothingHeld(states)
    ensures !Covers(states, [], c)
  {
    assert !Owed([], c);
  }

  /** With an ambiguous id, a load, a cycle and a save lose a channel that was just written. */
  lemma {:induction false} AmbiguousIdsLose(report: seq<Rule>) returns (ops: seq<Op>, c: Channel)
    requires !Unambiguous(Loaded(report))
    ensures ops != [] && ops[0] == LoadRules(report, true)
    ensures forall i | 1 <= i < |ops| :: !ops[i].LoadRules? && !ops[i].Crash?
    ensures c in Answerable(EMPTY, ops)
    ensures !Covers(Run(EMPTY, ops).states, Run(EMPTY, ops).book, c)
  {
    hide Load, Tick, Save, Unambiguous, Covers, Run, Answerable, Touch;
    EmptyFirstLoad(report);
    var c1 := Load(Fresh(EMPTY), report, true);
    var k, q, lost := LosingTail(c1);
    var load, tick, save := LoadRules(report, true), DoTick(OnlyRule(k)), SaveRule(q, true, true);
    ops, c := [load, tick, save], lost;
    ThreeSteps(EMPTY, load, tick, save);
    EmptyCoversNothing(Run(EMPTY, ops).states, c);
  }

  /** The cycle in between writes the rule's target and nothing else. */
  lemma {:induction false} OneWriteTick(c: Core, k: nat) returns (t: (Core, seq<Event>))
    requires k < |c.rules| && c.rules[k].enabled && OneOwner(c.rules)
    requires c.book == [] && !c.dirty && NothingHeld(c.states)
    ensures t == Tick(c, OnlyRule(k))
    ensures var r := c.rules[k];
            && t.0 == c.(states := t.0.states, ticks := c.ticks + 1)
            && r.id in t.0.states && Names(t.0.states[r.id], r.target) && NothingElseHeld(t.0.states, r.id)
            && Touch({}, t.1) == {r.target}
  {
    t := Tick(c, OnlyRule(k));
    var c0 := c.(ticks := c.ticks + 1);
    assert PerformHandovers(c0, OnlyRule(k), c.ticks) == (c0, []);
    OnlyRuleWrites(c0, |c.rules|, k);
    assert t.1[..0] == [];
    assert Touch({}, t.1[..0]) == {};
  }

  /** With unambiguous ids, no continuation without another load loses anything. */
  lemma {:induction false} UnambiguousIdsKeep(report: seq<Rule>, ops: seq<Op>, c: Channel)
    requires Unambiguous(Loaded(report))
    requires ops != [] && ops[0] == LoadRules(report, true)
    requires forall i | 1 <= i < |ops| :: !ops[i].LoadRules? && !ops[i].Crash?
    requires c in Answerable(EMPTY, ops)
    ensures Covers(Run(EMPTY, ops).states, Run(EMPTY, ops).book, c)
  {
    hide Load, Loaded, Unambiguous, Covers, Step, Touch;
    ResponsibilityNeverLost(EMPTY, ops, c);
  }

  // ------------------------------------------------------------------ refused writes

  /**
   * A write the adapter refuses leaves no hold behind and does not run the rule's failure
   * policy: after a due rule asked for a write, its memory names the target exactly when the
   * write was not refused or the memory named the target already.
   */
  lemma {:induction false} RefusedWriteLeavesNoTrace(c: Core, rule: Rule, env: RuleEnv, now: int, saves: bool)
    requires env.resolves && env.wants
    ensures var (c', events) := RunRule(c, rule, env, now, saves);
            && (Names(c'.states[rule.id], rule.target) <==>
                 !env.result.Rejected? || Names(StateOf(c.states, rule.id), rule.target))
            && (env.result.Rejected? ==> events == [RuleWrite(rule.id, rule.target, Rejected)] && c'.dirty == c.dirty)
  {
    var s := StateOf(c.states, rule.id).(nextDueMs := now + rule.interval);
    UnconfirmedShape(c, rule, s, env, now, saves);
    HandleWriteFailureShape(c, rule, s, env, now, saves);
  }
}
