/**
 * Responsibility outlives the process.
 *
 * When the record can be saved, the file on disk covers, at the end of every operation, every
 * open handover and every write that was issued and never confirmed, unless a cycle has a gap.
 * After a crash each such channel is an open handover again, or is targeted by the still-enabled
 * rule that wrote it. What the record remembers over a second crash is stated exactly, too.
 */
module CrashSafety {
  import opened Ids
  import opened Handovers
  import opened Engine
  import opened Rules
  import opened Responsibility
  import opened Limits
  import opened Ownership
  import opened Recording

  // ------------------------------------------------------------------ whole runs

  /** The record can be written whenever the operation tries to. */
  predicate Saves(op: Op) {
    match op
    case LoadRules(_, saves) => saves
    case SaveRule(_, _, saves) => saves
    case SetRuleEnabled(_, _, _, saves) => saves
    case DeleteRule(_, saves) => saves
    case DoTick(env) => env.saves
    case PersistState(saves) => saves
    case Stop(saves) => saves
    case _ => true
  }

  /** A cycle that leaves a write settled without a number off the record. No other operation has a gap. */
  ghost predicate Gap(c: Core, op: Op) {
    op.DoTick? && CycleGap(c, op.env)
  }

  lemma {:induction false} StepCovers(c: Core, op: Op)
    requires Good(c) && DiskCovers(c) && UnambiguousLoad(op) && Saves(op)
    ensures DiskCovers(Step(c, op).0) <==> !Gap(c, op)
  {
    hide CycleGap, Load, Save, Delete, Tick, Good;
    GoodHoldersListed(c);
    match op
    case LoadRules(report, _) => LoadCovers(c, report);
    case SaveRule(rule, accepted, _) => SaveCovers(c, rule, accepted);
    case SetRuleEnabled(id, enabled, accepted, _) =>
      var i := FindRule(c.rules, id);
      if i < |c.rules| {
        SaveCovers(c, c.rules[i].(enabled := enabled), accepted);
      }
    case DeleteRule(id, _) => DeleteCovers(c, id);
    case DoTick(env) => TickCovers(c, env);
    case PersistState(_) => SavedCovers(c);
    case Stop(_) =>
      var c1 := c.(dirty := c.dirty || c.book != []);
      CoversLess(c, c1);
      FlushCovers(c1);
    case Crash =>
    case _ => ReviewCovers(c, op);
  }

  /** Checking, re-arming and resetting move items between states and owe nothing new. */
  lemma {:induction false} ReviewCovers(c: Core, op: Op)
    requires Good(c) && DiskCovers(c)
    requires op.VerifyState? || op.RetryAll? || op.RetryOne? || op.ResetStates?
    ensures DiskCovers(Step(c, op).0)
  {
    match op {
      case VerifyState(env) =>
        VerifyKeeps(c, env);
      case RetryAll =>
        RearmKeeps(c.book, c.ticks);
        SameItemsOwed(c.book, RetryFailed(c.book, c.ticks));
      case RetryOne(channel) =>
        FirstTouchedKeeps(c.book, RetryFailedOne(c.book, channel, c.ticks), channel);
      case ResetStates =>
    }
    CoversLess(c, Step(c, op).0);
  }

  /** Does operation `i` of the run have a gap? */
  ghost predicate GapAt(disk: Record, ops: seq<Op>, i: nat)
    requires i < |ops|
  {
    Gap(Run(disk, ops[..i]), ops[i])
  }

  ghost predicate CoversAt(disk: Record, ops: seq<Op>, i: nat)
    requires i <= |ops|
  {
    DiskCovers(Run(disk, ops[..i]))
  }

  /**
   * The record covers the memory at the end of every operation of a run, across crashes, exactly
   * when no cycle of the run has a gap.
   */
  lemma {:induction false} RecordCoversMemory(disk: Record, ops: seq<Op>)
    requires forall op | op in ops :: UnambiguousLoad(op) && Saves(op)
    ensures (forall i | 0 <= i <= |ops| :: CoversAt(disk, ops, i))
            <==> forall i | 0 <= i < |ops| :: !GapAt(disk, ops, i)
  {
    hide DiskCovers, Gap, Run, UnambiguousLoad, Saves;
    if ops == [] {
      StartCovers(disk);
      assert ops[..0] == [];
    } else {
      var n := |ops| - 1;
      var before := ops[..n];
      RecordCoversMemory(disk, before);
      assert forall i | 0 <= i <= n :: before[..i] == ops[..i];
      assert forall i | 0 <= i <= n :: CoversAt(disk, before, i) <==> CoversAt(disk, ops, i);
      assert forall i | 0 <= i < n :: GapAt(disk, before, i) <==> GapAt(disk, ops, i);
      if CoversAt(disk, ops, n) {
        LastCovers(disk, ops);
      }
    }
  }

  lemma {:induction false} StartCovers(disk: Record)
    ensures DiskCovers(Run(disk, []))
  {}

  lemma {:induction false} LastCovers(disk: Record, ops: seq<Op>)
    requires ops != [] && forall op | op in ops :: UnambiguousLoad(op) && Saves(op)
    requires CoversAt(disk, ops, |ops| - 1)
    ensures CoversAt(disk, ops, |ops|) <==> !GapAt(disk, ops, |ops| - 1)
  {
    hide Good, DiskCovers, Gap;
    var n := |ops| - 1;
    assert ops[..|ops|] == ops;
    RunKeeps(disk, ops[..n]);
    StepCovers(Run(disk, ops[..n]), ops[n]);
  }

  /** What a restart puts back on the books, exactly. */
  lemma {:induction false} RestartRecovers(disk: Record, report: seq<Rule>, saves: bool)
    ensures forall c :: Owed(Load(Fresh(disk), report, saves).book, c) <==>
              (Owed(disk.handovers, c) || Orphaned(Loaded(report), disk.holds, c))
  {
    FirstLoad(disk, report, saves);
    RecoverOwes(Core(Loaded(report), Retained(map[], report), [], false, disk, true, 0));
  }

  /** Some enabled rule that the record lists as having written `c` still targets it. */
  ghost predicate WriterReturns(disk: Record, rules: seq<Rule>, c: Channel) {
    exists h | h in disk.holds :: h.channel == c && StillDriven(rules, h)
  }

  /** Start again, with any rule files, from the record of a core that the record covers. */
  ghost predicate Recovers(before: Core, after: Core) {
    && (forall c | Owed(before.book, c) :: Owed(after.book, c) || WriterReturns(before.disk, after.rules, c))
    && forall id | id in before.states && Unknown(before.states[id]) ::
         var c := before.states[id].control.value.channel;
         Owed(after.book, c) || Drives(after.rules, id, c)
  }

  ghost predicate Drives(rules: seq<Rule>, id: RuleId, c: Channel) {
    exists i | 0 <= i < |rules| :: rules[i].enabled && rules[i].id == id && rules[i].target == c
  }

  lemma {:induction false} CoveredRecovers(before: Core, report: seq<Rule>, saves: bool)
    requires DiskCovers(before)
    ensures Recovers(before, Load(Fresh(before.disk), report, saves))
  {
    FirstLoad(before.disk, report, saves);
    RestartRecovers(before.disk, report, saves);
    hide Load, Loaded;
    var after := Load(Fresh(before.disk), report, saves);
    forall c | Owed(before.book, c) ensures Owed(after.book, c) || WriterReturns(before.disk, after.rules, c) {
      if !Owed(before.disk.handovers, c) {
        var h :| h in before.disk.holds && h.channel == c;
        assert StillDriven(after.rules, h) || Orphaned(after.rules, before.disk.holds, c);
      }
    }
    forall id | id in before.states && Unknown(before.states[id])
      ensures var c := before.states[id].control.value.channel; Owed(after.book, c) || Drives(after.rules, id, c)
    {
      var c := before.states[id].control.value.channel;
      var h :| h in before.disk.holds && h.ruleId == id && h.channel == c;
      assert StillDriven(after.rules, h) || Orphaned(after.rules, before.disk.holds, c);
    }
  }

  /**
   * Crash safety. Stop the process after any run whose saves succeed and that has no gap, and start
   * again with any rule files: a channel that was owed is owed again or driven by the rule that left
   * a write unconfirmed on it; a channel whose write was never confirmed is owed, unless that very
   * rule is enabled and still targets it.
   */
  lemma {:induction false} CrashSafety(disk: Record, ops: seq<Op>, report: seq<Rule>, saves: bool)
    requires forall op | op in ops :: UnambiguousLoad(op) && Saves(op)
    requires forall i | 0 <= i < |ops| :: !GapAt(disk, ops, i)
    ensures var before := Run(disk, ops); Recovers(before, Load(Fresh(before.disk), report, saves))
  {
    hide Recovers, GapAt, Load, Run;
    RecordCoversMemory(disk, ops);
    assert CoversAt(disk, ops, |ops|) && ops[..|ops|] == ops;
    CoveredRecovers(Run(disk, ops), report, saves);
  }

  // ------------------------------------------------------------------ a run with a gap

  /** The first rule may run at once, asks for a write, and the device settles it without a number. */
  predicate SettlesWithoutNumber(env: TickEnv) {
    && env.automation && env.saves && (env.force || env.now >= 0)
    && env.rule(0).resolves && env.rule(0).wants && env.rule(0).result == Applied(None)
  }

  /**
   * A run that reaches a gap: one rule, one cycle, a write the device settles without a number. The
   * hold is in memory with its value unknown and nothing is on disk; a crash then leaves the channel
   * owed by nobody, even when the rule's file is gone.
   */
  lemma {:induction false} SettledWithoutNumber(r: Rule, env: TickEnv)
    requires r.enabled && SettlesWithoutNumber(env)
    ensures var ops := [LoadRules([r], true), DoTick(env)];
            var c := Run(EMPTY, ops);
            && GapAt(EMPTY, ops, 1)
            && HeldUnknown(c.states, r.id, r.target) && c.disk == EMPTY && !DiskCovers(c)
            && !Recovers(c, Load(Fresh(c.disk), [], true))
  {
    hide Run, Load, Tick, CycleGap, SettlesWithoutNumber;
    var load, tick := LoadRules([r], true), DoTick(env);
    var ops := [load, tick];
    SettledLoad(r);
    SettledTick(Load(Fresh(EMPTY), [r], true), r, env);
    TwoSteps(EMPTY, load, tick);
    assert ops[..1] == [load];
    NothingRecovered(Run(EMPTY, ops), r.id, r.target);
  }

  lemma {:induction false} SettledLoad(r: Rule)
    requires r.enabled
    ensures var c := Load(Fresh(EMPTY), [r], true);
            && c.rules == [r] && c.book == [] && !c.dirty && c.disk == EMPTY && NothingHeld(c.states)
            && StateOf(c.states, r.id).nextDueMs == 0
            && Run(EMPTY, [LoadRules([r], true)]) == c
  {
    EmptyFirstLoad([r]);
    FirstLoad(EMPTY, [r], true);
    LoadedOne(r);
    assert [LoadRules([r], true)][..0] == [];
  }

  lemma {:induction false} NothingRecovered(c: Core, id: RuleId, d: Channel)
    requires c.disk == EMPTY && HeldUnknown(c.states, id, d)
    ensures !DiskCovers(c) && !Recovers(c, Load(Fresh(c.disk), [], true))
  {
    FirstLoad(EMPTY, [], true);
    RestartRecovers(EMPTY, [], true);
    assert Loaded([]) == [];
    assert !Drives([], id, d);
    assert !ListedHold(EMPTY, id, d);
  }

  lemma {:induction false} SettledTick(c: Core, r: Rule, env: TickEnv)
    requires c.rules == [r] && c.book == [] && !c.dirty && c.disk == EMPTY && NothingHeld(c.states)
    requires r.enabled && StateOf(c.states, r.id).nextDueMs == 0 && SettlesWithoutNumber(env)
    ensures var c' := Tick(c, env).0; HeldUnknown(c'.states, r.id, r.target) && c'.disk == EMPTY
    ensures CycleGap(c, env)
  {
    var start := BeforeRules(c, env);
    assert start.book == [] && start.rules == [r] && start.disk == EMPTY && !start.dirty && start.states == c.states;
    assert RunRules(start, 0, env) == (start, []);
    var (c1, events) := RunRules(start, 1, env);
    assert events == [RuleWrite(r.id, r.target, Applied(None))];
    assert Numberless(events[0]) && !OnRecord(start, events, 0);
  }

  // ------------------------------------------------------------------ the second crash

  /** What the first load puts on the books: the stored handovers, and the writes no enabled rule answers for. */
  ghost predicate Recovered(disk: Record, report: seq<Rule>, d: Channel) {
    Owed(disk.handovers, d) || Orphaned(Loaded(report), disk.holds, d)
  }

  /** While no rule holds the channel, a record lists it exactly when the book does. */
  lemma {:induction false} RecordOfUnheld(c: Core, d: Channel)
    requires !Held(c.states, d)
    ensures WrittenDown(BuildRecord(c), d) <==> Owed(c.book, d)
  {
    UnconfirmedSound(c.rules, c.states);
    forall h | h in UnconfirmedHolds(c.rules, c.states) ensures h.channel != d {
      assert HeldUnknown(c.states, h.ruleId, h.channel);
      assert Names(c.states[h.ruleId], h.channel);
    }
  }

  /** The first record a restarted process can save lists exactly what its load put on the books. */
  lemma {:induction false} FirstRecordHolds(disk: Record, report: seq<Rule>, saves: bool, d: Channel)
    ensures WrittenDown(BuildRecord(Load(Fresh(disk), report, saves)), d) <==> Recovered(disk, report, d)
  {
    FirstLoad(disk, report, saves);
    RestartRecovers(disk, report, saves);
    RecordOfUnheld(Load(Fresh(disk), report, saves), d);
  }

  /** No rule holds `d` after the turns so far, and every record saved on the way lists it exactly when it is owed. */
  ghost predicate Unheld(start: Core, c: Core, events: seq<Event>, d: Channel) {
    && !Held(c.states, d) && c.book == start.book && c.rules == start.rules
    && (if SavedIn(events) then !c.dirty && (WrittenDown(c.disk, d) <==> Owed(start.book, d))
        else c.disk == start.disk && c.dirty == start.dirty)
  }

  lemma {:induction false} UnheldEntry(states: States, id: RuleId, entry: RuleState, d: Channel)
    requires !Held(states, d)
    ensures !Names(StateOf(states, id), d)
    ensures !Names(entry, d) ==> !Held(states[id := entry], d)
  {
    assert id in states ==> !Names(states[id], d);
    var after := states[id := entry];
    assert forall k | k in after :: if k == id then after[k] == entry else after[k] == states[k];
  }

  lemma {:induction false} UnheldTurn(start: Core, c: Core, events: seq<Event>, r: Rule, c': Core, more: seq<Event>,
                                      d: Channel)
    requires Unheld(start, c, events, d)
    requires PlainTurn(c, r, c', more) || SavedTurn(c, r, c', more)
    requires !Writes(more, d)
    ensures Unheld(start, c', events + more, d)
  {
    hide WrittenDown, BuildRecord, SavedIn;
    assert more != [] ==> more[0].channel != d;
    UnheldEntry(c.states, r.id, c'.states[r.id], d);
    SavedInAppend(events, more);
    if SavedTurn(c, r, c', more) {
      assert more[0] in more;
      SavedTurnMarks(c, r, c', events, more);
      RecordOfUnheld(c', d);
    } else {
      PlainSavesNothing(c, r, c', more);
    }
  }

  lemma {:induction false} UnheldTurns(start: Core, n: nat, env: TickEnv, d: Channel)
    requires n <= |start.rules| && env.saves && !Held(start.states, d)
    requires !Writes(RunRules(start, n, env).1, d)
    ensures var (c, events) := RunRules(start, n, env); Unheld(start, c, events, d)
  {
    hide Unheld, PlainTurn, SavedTurn, RuleTurn;
    if n > 0 {
      var (c, events) := RunRules(start, n - 1, env);
      var (c', more) := RuleTurn(c, n - 1, env);
      WritesParts(events, more, d);
      UnheldTurns(start, n - 1, env, d);
      if c.rules[n - 1].enabled {
        TurnKinds(c, n - 1, env);
        UnheldTurn(start, c, events, c.rules[n - 1], c', more, d);
      } else {
        RuleTurnShape(c, n - 1, env);
        assert events + [] == events;
      }
    } else {
      NoTurnUnheld(start, d);
    }
  }

  lemma {:induction false} NoTurnUnheld(start: Core, d: Channel)
    requires !Held(start.states, d)
    ensures Unheld(start, start, [], d)
  {}

  lemma {:induction false} WritesParts(events: seq<Event>, more: seq<Event>, d: Channel)
    ensures Writes(events + more, d) <==> Writes(events, d) || Writes(more, d)
  {
    var all := events + more;
    assert forall i | 0 <= i < |events| :: all[i] == events[i];
    assert forall i | 0 <= i < |more| :: all[|events| + i] == more[i];
  }

  /** Does the cycle save the record, in its course or at its end? */
  ghost predicate CycleSaves(c: Core, env: TickEnv) {
    env.automation &&
    var start := BeforeRules(c, env);
    start.dirty || SavedIn(RunRules(start, |start.rules|, env).1)
  }

  /** In this operation nobody but the handovers wrote to the channel, and no write to it was confirmed. */
  ghost predicate Undisturbed(c: Core, op: Op, d: Channel) {
    forall e | e in Step(c, op).1 && e.channel == d :: e.HandoverWrite? && !Confirms(e)
  }

  /** What a cycle leaves of a channel that no rule holds and nobody disturbs. */
  ghost predicate SameDebt(c: Core, after: Core, d: Channel) {
    DuplicatesUnverified(after.book) && !Held(after.states, d) && (Owed(after.book, d) <==> Owed(c.book, d))
  }

  lemma {:induction false} UnheldHandovers(c: Core, env: TickEnv, d: Channel)
    requires DuplicatesUnverified(c.book) && !Held(c.states, d)
    requires forall e | e in PerformHandovers(c.(ticks := c.ticks + 1), env, c.ticks).1 && e.channel == d ::
               !Confirms(e)
    ensures SameDebt(c, BeforeRules(c, env), d)
    ensures BeforeRules(c, env).rules == c.rules && BeforeRules(c, env).disk == c.disk
  {
    hide VerifyItems, HandoverPass, Confirms;
    var c0 := c.(ticks := c.ticks + 1);
    VerifyKeeps(c0, env);
    var c1 := VerifyRecovered(c0, env);
    HandoverPassKeeps(c1.rules, c1.states, c1.book, c1.book, c.ticks, env.handover, {});
    assert !ConfirmedOwner(c1.rules, c1.states, d) by {
      var i := Claimant(c1.rules, d);
      if i < |c1.rules| && c1.rules[i].id in c1.states {
        assert !Names(c1.states[c1.rules[i].id], d);
      }
    }
  }

  /** The turns of the rules: everything they do to the channel shows as an event of theirs. */
  lemma {:induction false} RuleEventsOnly(start: Core, n: nat, env: TickEnv, d: Channel)
    requires n <= |start.rules|
    requires forall e | e in RunRules(start, n, env).1 && e.channel == d :: e.HandoverWrite?
    ensures !Writes(RunRules(start, n, env).1, d)
  {
    hide RunRules;
    RuleEventsHaveTurns(start, n, env);
    var events := RunRules(start, n, env).1;
    forall i | 0 <= i < |events| ensures events[i].channel != d {
      assert events[i] in events;
    }
  }

  lemma {:induction false} UnheldCycle(c: Core, env: TickEnv, d: Channel)
    requires DuplicatesUnverified(c.book) && !Held(c.states, d)
    requires env.saves && Undisturbed(c, DoTick(env), d)
    ensures SameDebt(c, Tick(c, env).0, d)
    ensures WrittenDown(Tick(c, env).0.disk, d) <==>
              if CycleSaves(c, env) then Owed(c.book, d) else WrittenDown(c.disk, d)
  {
    hide PerformHandovers, RunRules, Held, Owed, WrittenDown, SavedIn, DuplicatesUnverified, Confirms, BuildRecord;
    if env.automation {
      var (_, events) := PerformHandovers(c.(ticks := c.ticks + 1), env, c.ticks);
      var start := BeforeRules(c, env);
      var (c2, events1) := RunRules(start, |start.rules|, env);
      assert forall e | e in events :: e in Tick(c, env).1;
      assert forall e | e in events1 :: e in Tick(c, env).1;
      UnheldHandovers(c, env, d);
      RuleEventsOnly(start, |start.rules|, env, d);
      UnheldTurns(start, |start.rules|, env, d);
      RecordOfUnheld(c2, d);
    }
  }

  /** The core after a restart and some cycles. */
  ghost function Restarted(disk: Record, report: seq<Rule>, saves: bool, cycles: seq<Op>): Core {
    Run(disk, [LoadRules(report, saves)] + cycles)
  }

  lemma {:induction false} RestartedStep(disk: Record, report: seq<Rule>, saves: bool, cycles: seq<Op>)
    ensures Restarted(disk, report, saves, []) == Load(Fresh(disk), report, saves)
    ensures cycles != [] ==>
              var n := |cycles| - 1;
              Restarted(disk, report, saves, cycles) == Step(Restarted(disk, report, saves, cycles[..n]), cycles[n]).0
  {
    hide Load, Tick, Save, Delete, SetEnabled, VerifyRecovered, Flush, RetryFailedOne;
    var load := [LoadRules(report, saves)];
    assert load + [] == load && load[..0] == [];
    assert Run(disk, []) == Fresh(disk);
    if cycles != [] {
      var n := |cycles| - 1;
      assert (load + cycles)[..n + 1] == load + cycles[..n];
    }
  }

  /** Does some cycle save the record? */
  ghost predicate SomeSaves(disk: Record, report: seq<Rule>, saves: bool, cycles: seq<Op>)
    requires forall op | op in cycles :: op.DoTick?
  {
    exists k | 0 <= k < |cycles| :: SavesAt(disk, report, saves, cycles, k)
  }

  ghost predicate SavesAt(disk: Record, report: seq<Rule>, saves: bool, cycles: seq<Op>, k: nat)
    requires k < |cycles| && forall op | op in cycles :: op.DoTick?
  {
    CycleSaves(Restarted(disk, report, saves, cycles[..k]), cycles[k].env)
  }

  ghost predicate UndisturbedAt(disk: Record, report: seq<Rule>, saves: bool, cycles: seq<Op>, d: Channel, k: nat)
    requires k < |cycles|
  {
    Undisturbed(Restarted(disk, report, saves, cycles[..k]), cycles[k], d)
  }

  /**
   * What a record remembers over the next crash. From a restart, through any cycles that leave the
   * channel alone: until a cycle saves the record it says what it said; from then on it lists the
   * channel exactly when the restart put it on the books. So a stored write that its enabled rule
   * still answers for, and that no handover names, is forgotten by the first save.
   */
  lemma {:induction false} LaterRecordsHold(disk: Record, report: seq<Rule>, saves: bool, cycles: seq<Op>, d: Channel)
    requires forall op | op in cycles :: op.DoTick? && op.env.saves
    requires forall k | 0 <= k < |cycles| :: UndisturbedAt(disk, report, saves, cycles, d, k)
    ensures var after := Restarted(disk, report, saves, cycles);
            && DuplicatesUnverified(after.book) && !Held(after.states, d)
            && (Covers(after.states, after.book, d) <==> Recovered(disk, report, d))
            && (WrittenDown(after.disk, d) <==>
                  if SomeSaves(disk, report, saves, cycles) then Recovered(disk, report, d) else WrittenDown(disk, d))
  {
    hide Undisturbed, CycleSaves, Restarted, WrittenDown, Recovered, Held, Owed, DuplicatesUnverified, Load, Tick;
    RestartedStep(disk, report, saves, cycles);
    if cycles == [] {
      RestartHolds(disk, report, saves, d);
    } else {
      var n := |cycles| - 1;
      var before := cycles[..n];
      assert forall k | 0 <= k <= n :: before[..k] == cycles[..k];
      assert forall k | 0 <= k < n :: UndisturbedAt(disk, report, saves, cycles, d, k);
      assert forall k | 0 <= k < n ::
        UndisturbedAt(disk, report, saves, before, d, k) <==> UndisturbedAt(disk, report, saves, cycles, d, k);
      LaterRecordsHold(disk, report, saves, before, d);
      assert UndisturbedAt(disk, report, saves, cycles, d, n);
      UnheldCycle(Restarted(disk, report, saves, before), cycles[n].env, d);
      SavesSplit(disk, report, saves, cycles);
    }
  }

  lemma {:induction false} SavesSplit(disk: Record, report: seq<Rule>, saves: bool, cycles: seq<Op>)
    requires cycles != [] && forall op | op in cycles :: op.DoTick?
    ensures var n := |cycles| - 1;
            SomeSaves(disk, report, saves, cycles) <==>
              SomeSaves(disk, report, saves, cycles[..n]) || SavesAt(disk, report, saves, cycles, n)
  {
    hide CycleSaves, Restarted;
    var n := |cycles| - 1;
    var before := cycles[..n];
    assert forall k | 0 <= k <= n :: before[..k] == cycles[..k];
    assert forall k | 0 <= k < n ::
      SavesAt(disk, report, saves, before, k) <==> SavesAt(disk, report, saves, cycles, k);
  }

  lemma {:induction false} RestartHolds(disk: Record, report: seq<Rule>, saves: bool, d: Channel)
    ensures var c := Load(Fresh(disk), report, saves);
            && DuplicatesUnverified(c.book) && !Held(c.states, d) && c.disk == disk
            && (Owed(c.book, d) <==> Recovered(disk, report, d))
  {
    FirstLoad(disk, report, saves);
    RecoverOwes(Core(Loaded(report), Retained(map[], report), [], false, disk, true, 0));
  }

  /** A cycle that changes nothing: stale readings, no write asked for, the record saved. */
  function QuietCycle(): TickEnv {
    TickEnv(true, true, false, 0, true, _ => Writable, _ => Error, n => RuleEnv(true, false, Error, Error))
  }

  /**
   * The record survives one crash, not two. A recovered write whose rule is enabled is not put
   * back in memory; the next cycle that saves the record drops it, although the rule has written
   * nothing and nobody ever confirmed the channel.
   */
  lemma {:induction false} SecondCrashForgets(r: Rule, owed: Handover)
    requires r.enabled && owed.channel != r.target
    ensures var disk := Record([owed], [StoredHold(r.id, r.target, 0)]);
            var after := Run(disk, [LoadRules([r], true), DoTick(QuietCycle())]);
            && WrittenDown(disk, r.target)
            && !WrittenDown(after.disk, r.target) && !Covers(after.states, after.book, r.target)
  {
    var disk := Record([owed], [StoredHold(r.id, r.target, 0)]);
    assert disk.holds[0].channel == r.target;
    LoadOne(r, owed);
    QuietTick(Load(Fresh(disk), [r], true), r, QuietCycle());
    TwoSteps(disk, LoadRules([r], true), DoTick(QuietCycle()));
  }

  lemma {:induction false} TwoSteps(disk: Record, load: Op, tick: Op)
    requires load.LoadRules? && tick.DoTick?
    ensures Run(disk, [load, tick]) == Tick(Load(Fresh(disk), load.report, load.saves), tick.env).0
  {
    RunOneMore(disk, [], load);
    RunOneMore(disk, [load], tick);
    assert [] + [load] == [load] && [load] + [tick] == [load, tick];
  }

  lemma {:induction false} LoadedOne(r: Rule)
    requires r.enabled
    ensures Loaded([r]) == [r]
  {
    assert SortRules([r]) == [r];
    assert [r][..0] == [];
    assert ResolveConflicts([]) == [];
  }

  lemma {:induction false} RestoreOne(r: Rule, owed: Handover)
    requires r.enabled
    ensures RestoreHandovers([], [owed]) == [owed.(nextAttemptTick := 0, state := NeedsVerification)]
    ensures forall book: Book :: RestoreHolds(book, [r], [StoredHold(r.id, r.target, 0)]) == book
  {
    assert [owed][..0] == [];
    var h := StoredHold(r.id, r.target, 0);
    assert [h][..0] == [];
    assert StillDriven([r], h) by { assert [r][0].enabled; }
  }

  lemma {:induction false} LoadOne(r: Rule, owed: Handover)
    requires r.enabled
    ensures var c := Load(Fresh(Record([owed], [StoredHold(r.id, r.target, 0)])), [r], true);
            && c.rules == [r] && c.states == map[r.id := FRESH] && c.dirty
            && |c.book| == 1 && c.book[0].channel == owed.channel && c.book[0].state.NeedsVerification?
  {
    var disk := Record([owed], [StoredHold(r.id, r.target, 0)]);
    FirstLoad(disk, [r], true);
    LoadedOne(r);
    RestoreOne(r, owed);
    assert Retained(map[], [r]) == map[r.id := FRESH];
  }

  lemma {:induction false} QuietTick(c: Core, r: Rule, env: TickEnv)
    requires c.rules == [r] && c.states == map[r.id := FRESH] && c.dirty
    requires |c.book| == 1 && c.book[0].channel != r.target && c.book[0].state.NeedsVerification?
    requires env.automation && env.stale && env.saves && !env.rule(0).wants
    ensures var c' := Tick(c, env).0;
            c'.disk.holds == [] && !WrittenDown(c'.disk, r.target) && !Covers(c'.states, c'.book, r.target)
  {
    var c0 := c.(ticks := c.ticks + 1);
    assert c.book[..0] == [];
    assert HandoverPass(c0.rules, c0.states, c0.book, c0.book[..0], c.ticks, env.handover) == (c0.book, []);
    var h := c0.book[0];
    assert HandoverItem(c0.rules, c0.states, c0.book, h, c.ticks, env.handover(0)).0[0].channel == h.channel;
    var c1 := PerformHandovers(c0, env, c.ticks).0;
    assert |c1.book| == 1 && c1.book[0].channel == h.channel;
    assert RunRules(c1, 0, env) == (c1, []);
    var c2 := RunRules(c1, 1, env).0;
    assert c2.states[r.id].control.None?;
    assert UnconfirmedHolds(c2.rules[1..], c2.states) == [];
  }
}
