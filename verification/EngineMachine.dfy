/**
 * The engine as the program writes it: an object whose fields the operations update in place.
 *
 * Every method is proved to leave the object in the state `Engine` computes for that operation,
 * and to issue exactly the writes it lists, so what is proved about runs of `Engine` holds of
 * this object. `RunSession` states that for whole sessions.
 */
module EngineMachine {
  import opened Ids
  import opened Handovers
  import opened Engine

  // ------------------------------------------------------------------ loops against recursive definitions

  lemma {:induction false} PreviousHoldsAppend(rules: seq<Rule>, states: States, r: Rule)
    ensures var control := StateOf(states, r.id).control;
            PreviousHolds(rules + [r], states)
            == PreviousHolds(rules, states) + if control.Some? then [(r.id, control.value)] else []
  {
    if rules == [] {
      assert [r][1..] == [];
    } else {
      PreviousHoldsAppend(rules[1..], states, r);
      assert (rules + [r])[1..] == rules[1..] + [r];
    }
  }

  lemma {:induction false} UnconfirmedHoldsAppend(rules: seq<Rule>, states: States, r: Rule)
    ensures var control := StateOf(states, r.id).control;
            UnconfirmedHolds(rules + [r], states)
            == UnconfirmedHolds(rules, states) +
               if control.Some? && control.value.confirmed.None?
               then [StoredHold(r.id, control.value.channel, control.value.lastWriteMs)] else []
  {
    if rules == [] {
      assert [r][1..] == [];
    } else {
      UnconfirmedHoldsAppend(rules[1..], states, r);
      assert (rules + [r])[1..] == rules[1..] + [r];
    }
  }

  lemma {:induction false} RestoredLength(book: Book, stored: Book)
    ensures |RestoreHandovers(book, stored)| == |book| + |stored|
  {
    if stored != [] {
      RestoredLength(book, stored[..|stored| - 1]);
    }
  }

  /** The owners seen so far are the targets of the enabled rules in `rules`. */
  ghost predicate OwnersOf(owners: seq<Channel>, rules: seq<Rule>) {
    && (forall k | 0 <= k < |rules| && rules[k].enabled :: rules[k].target in owners)
    && (forall c | c in owners :: exists k | 0 <= k < |rules| :: rules[k].enabled && rules[k].target == c)
  }

  lemma {:induction false} OwnersGrow(owners: seq<Channel>, rules: seq<Rule>, r: Rule)
    requires OwnersOf(owners, rules)
    ensures OwnersOf(if r.enabled && r.target !in owners then owners + [r.target] else owners, rules + [r])
  {
    var all, more := rules + [r], if r.enabled && r.target !in owners then owners + [r.target] else owners;
    assert forall k | 0 <= k < |all| :: all[k] == if k < |rules| then rules[k] else r;
    forall c | c in more ensures exists k | 0 <= k < |all| :: all[k].enabled && all[k].target == c {
      if c in owners {
        var k :| 0 <= k < |rules| && rules[k].enabled && rules[k].target == c;
        assert all[k] == rules[k];
      } else {
        assert all[|rules|] == r;
      }
    }
  }

  /** Standing rules down one at a time never brings a stood-down target back. */
  lemma {:induction false} OwnersAfterResolve(owners: seq<Channel>, done: seq<Rule>, r: Rule)
    requires OwnersOf(owners, done)
    ensures r.target in owners <==> Claimant(done, r.target) < |done|
  {
    var i := Claimant(done, r.target);
    if r.target in owners {
      var k :| 0 <= k < |done| && done[k].enabled && done[k].target == r.target;
    }
  }

  /** The first `i` rules have been settled; the others are as they were sorted. */
  ghost predicate PartlyResolved(sorted: seq<Rule>, i: nat, rules: seq<Rule>, owners: seq<Channel>) {
    && i <= |sorted| == |rules|
    && rules[i..] == sorted[i..]
    && rules[..i] == ResolveConflicts(sorted[..i])
    && OwnersOf(owners, rules[..i])
  }

  lemma {:induction false} ResolveOneMore(sorted: seq<Rule>, i: nat, rules: seq<Rule>, owners: seq<Channel>,
                       rules': seq<Rule>, owners': seq<Channel>)
    requires PartlyResolved(sorted, i, rules, owners) && i < |rules|
    requires rules' == if rules[i].enabled && rules[i].target in owners
                       then rules[i := rules[i].(enabled := false)] else rules
    requires owners' == if rules'[i].enabled then owners + [rules[i].target] else owners
    ensures PartlyResolved(sorted, i + 1, rules', owners')
  {
    hide OwnersOf, Claimant, RuleLeq;
    var done := rules[..i];
    assert rules[i] == rules[i..][0] == sorted[i..][0] == sorted[i];
    OwnersAfterResolve(owners, done, rules[i]);
    OwnersGrow(owners, done, rules'[i]);
    assert sorted[..i + 1][..i] == sorted[..i];
    assert rules'[..i + 1] == done + [rules'[i]];
    assert rules'[i + 1..] == rules[i..][1..];
    assert sorted[i + 1..] == sorted[i..][1..];
  }

  /** Asking the list of claimed targets is asking whether an earlier enabled rule names this one. */
  lemma {:induction false} ClaimedIsOwned(claimed: seq<Channel>, rules: seq<Rule>, n: nat)
    requires n < |rules| && OwnersOf(claimed, rules[..n])
    ensures rules[n].target in claimed <==> ClaimedBefore(rules, n)
    ensures OwnersOf(if rules[n].enabled && rules[n].target !in claimed then claimed + [rules[n].target] else claimed,
                     rules[..n + 1])
  {
    if rules[n].target in claimed {
      var k :| 0 <= k < n && rules[..n][k].enabled && rules[..n][k].target == rules[n].target;
      assert rules[k] == rules[..n][k];
    }
    if ClaimedBefore(rules, n) {
      var k :| 0 <= k < n && rules[k].enabled && rules[k].target == rules[n].target;
      assert rules[..n][k] == rules[k];
    }
    OwnersGrow(claimed, rules[..n], rules[n]);
    assert rules[..n + 1] == rules[..n] + [rules[n]];
  }

  lemma {:induction false} RecordAfterLookup(c: Core, rule: Rule, t: RuleState, s: RuleState, now: int, saves: bool)
    ensures RecordUnknown(Remember(c, rule.id, t), rule, s, now, saves) == RecordUnknown(c, rule, s, now, saves)
  {
    var s1 := s.(control := Some(ControlHold(rule.target, None, now)));
    assert Remember(Remember(c, rule.id, t), rule.id, s1) == Remember(c, rule.id, s1);
  }

  /** Entering a fresh state for a rule that had none changes nothing about running it. */
  lemma {:induction false} RunAfterLookup(c: Core, rule: Rule, env: RuleEnv, now: int, saves: bool)
    ensures RunRule(Remember(c, rule.id, StateOf(c.states, rule.id)), rule, env, now, saves)
            == RunRule(c, rule, env, now, saves)
  {
    var t := StateOf(c.states, rule.id);
    var s := t.(nextDueMs := now + rule.interval);
    assert Remember(Remember(c, rule.id, t), rule.id, s) == Remember(c, rule.id, s);
    match env.result {
      case Applied(v) =>
        var s1 := s.(control := Some(ControlHold(rule.target, v, now)), unconfirmedRun := 0);
        assert Remember(Remember(c, rule.id, t), rule.id, s1) == Remember(c, rule.id, s1);
      case Unconfirmed => RecordAfterLookup(c, rule, t, s.(unconfirmedRun := s.unconfirmedRun + 1), now, saves);
      case Rejected =>
      case Error => RecordAfterLookup(c, rule, t, s, now, saves);
    }
  }

  // ------------------------------------------------------------------ the object

  class AutomationEngine {
    var rules: seq<Rule>
    var states: States
    var book: Book
    var dirty: bool
    var disk: Record
    var recovered: bool
    var ticks: nat

    /** Everything the object remembers, as a value. */
    function Memory(): Core
      reads this
    {
      Core(rules, states, book, dirty, disk, recovered, ticks)
    }

    constructor (disk: Record)
      ensures Memory() == Fresh(disk)
    {
      rules, states, book, dirty := [], map[], [], false;
      this.disk, recovered, ticks := disk, false, 0;
    }

    // -------------------------------------------------------------- the record

    method BuildRecoveryRecord() returns (record: Record)
      ensures record == BuildRecord(Memory())
    {
      var holds: seq<StoredHold> := [];
      for i := 0 to |rules|
        invariant holds == UnconfirmedHolds(rules[..i], states)
      {
        UnconfirmedHoldsAppend(rules[..i], states, rules[i]);
        assert rules[..i + 1] == rules[..i] + [rules[i]];
        var control := StateOf(states, rules[i].id).control;
        if control.Some? && control.value.confirmed.None? {
          holds := holds + [StoredHold(rules[i].id, control.value.channel, control.value.lastWriteMs)];
        }
      }
      assert rules[..|rules|] == rules;
      record := Record(book, holds);
    }

    method PersistControlState(saves: bool)
      modifies this
      ensures Memory() == Persist(old(Memory()), saves)
    {
      var record := BuildRecoveryRecord();
      if saves {
        disk, dirty := record, false;
      }
    }

    method FlushControlState(saves: bool)
      modifies this
      ensures Memory() == Flush(old(Memory()), saves)
    {
      if dirty {
        PersistControlState(saves);
      }
    }

    /** Put the record of a previous session back on the books. */
    method RecoverControlState()
      modifies this`book, this`dirty
      ensures Memory() == Recover(old(Memory()))
    {
      var count := 0;
      var stored := disk.handovers;
      for i := 0 to |stored|
        invariant count == i && dirty == old(dirty)
        invariant book == RestoreHandovers(old(book), stored[..i])
      {
        assert stored[..i + 1][..i] == stored[..i];
        book := Restore(book, stored[i].(nextAttemptTick := 0));
        count := count + 1;
      }
      assert stored[..|stored|] == stored;
      RestoredLength(old(book), stored);
      ghost var first := book;
      var holds := disk.holds;
      for i := 0 to |holds|
        invariant |book| == |old(book)| + count && dirty == old(dirty)
        invariant book == RestoreHolds(first, rules, holds[..i])
      {
        assert holds[..i + 1][..i] == holds[..i];
        var stillDriven := false;
        for k := 0 to |rules|
          invariant stillDriven <==> exists j | 0 <= j < k ::
            rules[j].enabled && rules[j].id == holds[i].ruleId && rules[j].target == holds[i].channel
        {
          if rules[k].enabled && rules[k].id == holds[i].ruleId && rules[k].target == holds[i].channel {
            stillDriven := true;
          }
        }
        if !stillDriven {
          book := Restore(book, Handover(holds[i].channel, holds[i].ruleId, NeedsVerification, 0, 0, false, 0));
          count := count + 1;
        }
      }
      assert holds[..|holds|] == holds;
      if count > 0 {
        dirty := true;
      }
    }

    // -------------------------------------------------------------- leaving control

    method QueueHandover(id: RuleId, held: Option<ControlHold>, previousTarget: Option<Channel>)
      modifies this`book, this`dirty
      ensures Memory() == HandOver(old(Memory()), id, held, previousTarget)
    {
      if held.None? || (previousTarget.Some? && previousTarget.value != held.value.channel) {
        return;
      }
      book := Queue(book, held.value.channel, id, ticks);
      dirty := true;
    }

    method ReactToRuleChange(previous: Rule, change: RuleChange, saves: bool)
      modifies this
      ensures Memory() == ApplyRuleChange(old(Memory()), previous, change, saves)
    {
      if !change.IsSemantic() {
        return;
      }
      var held := StateOf(states, previous.id).control;
      if change.LeavesControl() {
        QueueHandover(previous.id, held, change.previousTarget);
        FlushControlState(saves);
      }
      if previous.id in states {
        var state := states[previous.id];
        if change.LeavesControl() {
          state := state.(control := None);
        }
        state := state.(nextDueMs := 0);
        states := states[previous.id := state];
      }
    }

    // -------------------------------------------------------------- loading rule files

    /** Keep the memory of every rule that is still listed, and start the others afresh. */
    method RetainStates(report: seq<Rule>)
      modifies this`states
      ensures states == Retained(old(states), report)
    {
      states := map id | id in states && id in RuleIds(report) :: states[id];
      for i := 0 to |report|
        invariant states.Keys <= RuleIds(report)
        invariant forall id | id in RuleIds(report) && id in old(states) :: id in states
        invariant forall k | 0 <= k < i :: report[k].id in states
        invariant forall id | id in states :: states[id] == StateOf(old(states), id)
      {
        if report[i].id !in states {
          assert report[i] in report;
          states := states[report[i].id := FRESH];
        }
      }
    }

    /** One owner per target: later enabled rules are stood down for the session. */
    method ResolveLoadedConflicts()
      modifies this`rules
      ensures rules == ResolveConflicts(SortRules(old(rules)))
    {
      rules := SortRules(rules);
      ghost var sorted := rules;
      var owners: seq<Channel> := [];
      for i := 0 to |rules|
        invariant PartlyResolved(sorted, i, rules, owners)
      {
        ghost var before, known := rules, owners;
        if rules[i].enabled {
          if rules[i].target in owners {
            rules := rules[i := rules[i].(enabled := false)];
          } else {
            owners := owners + [rules[i].target];
          }
        }
        ResolveOneMore(sorted, i, before, known, rules, owners);
      }
      assert sorted[..|sorted|] == sorted && rules[..|sorted|] == rules;
    }

    method LoadRules(report: seq<Rule>, saves: bool)
      modifies this
      ensures Memory() == Load(old(Memory()), report, saves)
    {
      var previous := rules;
      var previousHolds := HoldsNow();
      rules := SortRules(report);
      RetainStates(report);
      ghost var c1 := Memory();
      ReactToLoadedRules(previous, report, saves);
      HandOverRemovedRules(previousHolds, report);
      ghost var c3 := Memory();
      assert c3 == HandOverRemoved(ApplyLoaded(c1, previous, report, saves), previousHolds, report);
      ResolveLoadedConflicts();
      FlushControlState(saves);
      ghost var c4 := Memory();
      assert c4 == Flush(c3.(rules := ResolveConflicts(SortRules(c3.rules))), saves);
      if !recovered {
        recovered := true;
        RecoverControlState();
      }
    }

    /** A rule whose file changed is treated exactly like one edited in place. */
    method ReactToLoadedRules(previous: seq<Rule>, report: seq<Rule>, saves: bool)
      modifies this
      ensures Memory() == ApplyLoaded(old(Memory()), previous, report, saves)
    {
      for i := 0 to |report|
        invariant Memory() == ApplyLoaded(old(Memory()), previous, report[..i], saves)
      {
        assert report[..i + 1][..i] == report[..i];
        var k := FindRule(previous, report[i].id);
        if k < |previous| {
          ReactToRuleChange(previous[k], Between(previous[k], report[i]), saves);
        }
      }
      assert report[..|report|] == report;
    }

    /** What each rule is driving, captured before a reload forgets the rules whose file is gone. */
    method HoldsNow() returns (holds: seq<(RuleId, ControlHold)>)
      ensures holds == PreviousHolds(rules, states)
    {
      holds := [];
      for i := 0 to |rules|
        invariant holds == PreviousHolds(rules[..i], states)
      {
        PreviousHoldsAppend(rules[..i], states, rules[i]);
        assert rules[..i + 1] == rules[..i] + [rules[i]];
        var control := StateOf(states, rules[i].id).control;
        if control.Some? {
          holds := holds + [(rules[i].id, control.value)];
        }
      }
      assert rules[..|rules|] == rules;
    }

    method HandOverRemovedRules(holds: seq<(RuleId, ControlHold)>, report: seq<Rule>)
      modifies this`book, this`dirty
      ensures Memory() == HandOverRemoved(old(Memory()), holds, report)
    {
      for i := 0 to |holds|
        invariant Memory() == HandOverRemoved(old(Memory()), holds[..i], report)
      {
        assert holds[..i + 1][..i] == holds[..i];
        if FindRule(report, holds[i].0) == |report| {
          QueueHandover(holds[i].0, Some(holds[i].1), None);
        }
      }
      assert holds[..|holds|] == holds;
    }

    // -------------------------------------------------------------- editing rules

    method ConflictingRule(candidate: Rule) returns (found: bool)
      ensures found <==> Conflicts(rules, candidate)
    {
      found := false;
      for i := 0 to |rules|
        invariant found <==> Conflicts(rules[..i], candidate)
      {
        if rules[i].enabled && rules[i].id != candidate.id && rules[i].target == candidate.target {
          assert rules[..i + 1][i] == rules[i];
          found := true;
        } else {
          assert Conflicts(rules[..i + 1], candidate) ==> Conflicts(rules[..i], candidate);
        }
        assert forall k | 0 <= k < i :: rules[..i + 1][k] == rules[..i][k];
      }
      assert rules[..|rules|] == rules;
    }

    method SaveRule(rule: Rule, accepted: bool, saves: bool) returns (saved: bool)
      modifies this
      ensures Memory() == Save(old(Memory()), rule, accepted, saves)
      ensures saved <==> accepted && !(rule.enabled && Conflicts(old(rules), rule))
    {
      saved := false;
      if !accepted {
        return;
      }
      var k := FindRule(rules, rule.id);
      var previous := if k < |rules| then Some(rules[k]) else None;
      var conflict := ConflictingRule(rule);
      if rule.enabled && conflict {
        return;
      }
      rules := SortRules(WithoutRule(rules, rule.id) + [rule]);
      states := states[rule.id := StateOf(states, rule.id).(nextDueMs := 0)];
      if previous.Some? {
        ReactToRuleChange(previous.value, Between(previous.value, rule), saves);
      }
      saved := true;
    }

    method SetRuleEnabled(id: RuleId, enabled: bool, accepted: bool, saves: bool) returns (saved: bool)
      modifies this
      ensures Memory() == SetEnabled(old(Memory()), id, enabled, accepted, saves)
    {
      saved := false;
      var k := FindRule(rules, id);
      if k == |rules| {
        return;
      }
      var rule := rules[k];
      var conflict := ConflictingRule(rule);
      if enabled && !rule.enabled && conflict {
        return;
      }
      saved := SaveRule(rule.(enabled := enabled), accepted, saves);
    }

    method DeleteRule(id: RuleId, saves: bool)
      modifies this
      ensures Memory() == Delete(old(Memory()), id, saves)
    {
      var held := StateOf(states, id).control;
      rules := WithoutRule(rules, id);
      states := states - {id};
      if held.Some? {
        QueueHandover(id, held, None);
      }
      FlushControlState(saves);
    }

    // -------------------------------------------------------------- handovers

    method VerifyRecoveredState(env: TickEnv)
      modifies this`book, this`dirty
      ensures Memory() == VerifyRecovered(old(Memory()), env)
    {
      if env.stale {
        return;
      }
      var items := book;
      ghost var changed := false;
      for i := 0 to |items|
        invariant (book, changed) == VerifyItems(items, items[..i], env, ticks)
        invariant dirty == (old(dirty) || changed)
      {
        assert items[..i + 1][..i] == items[..i];
        if items[i].state.NeedsVerification? {
          var (b, moved) := VerifyOne(book, items[i].channel, env, ticks);
          book := b;
          if moved {
            dirty := true;
          }
          changed := changed || moved;
        }
      }
      assert items[..|items|] == items;
    }

    /** Before any rule is evaluated: settle, wait for, park, resume or write the channels that are owed. */
    method PerformPendingHandovers(env: TickEnv, tick: nat) returns (events: seq<Event>)
      modifies this`book, this`dirty
      ensures (Memory(), events) == PerformHandovers(old(Memory()), env, tick)
    {
      VerifyRecoveredState(env);
      ghost var verified := Memory();
      var pending := book;
      if pending != [] {
        dirty := true;
      }
      events := [];
      for i := 0 to |pending|
        invariant dirty == (verified.dirty || pending != [])
        invariant (book, events) == HandoverPass(rules, states, pending, pending[..i], tick, env.handover)
      {
        assert pending[..i + 1][..i] == pending[..i];
        var more := SettleOrAttempt(pending[i], tick, env.handover(i));
        events := events + more;
      }
      assert pending[..|pending|] == pending;
    }

    /** One channel that was owed when the pass began. */
    method SettleOrAttempt(item: Handover, tick: nat, result: WriteResult) returns (events: seq<Event>)
      modifies this`book
      ensures (book, events) == HandoverItem(rules, states, old(book), item, tick, result)
    {
      events := [];
      var c := item.channel;
      if ConfirmedOwner(rules, states, c) {
        book := Settle(book, c);
      } else if Claimant(rules, c) < |rules| {
        var (b, waited) := MarkAwaiting(book, c);
        book := b;
        if waited > HANDOVER_OWNER_WAIT_TICKS {
          book := ParkUnmetClaim(book, c);
        }
      } else {
        events := AttemptHandover(item, tick, result);
      }
    }

    method AttemptHandover(item: Handover, tick: nat, result: WriteResult) returns (events: seq<Event>)
      modifies this`book
      ensures (book, events) == Attempt(old(book), item, tick, result)
    {
      events := [];
      var c := item.channel;
      if !item.state.Pending? {
        var (b, resumed) := ReleaseClaim(book, c, tick);
        book := b;
        if !resumed {
          return;
        }
      }
      if !IsDue(book, c, tick) {
        return;
      }
      events := [HandoverWrite(c, result)];
      if result.Applied? && result.value.Some? {
        book := Settle(book, c);
      } else {
        book := RecordAttempt(book, c, tick);
      }
    }

    // -------------------------------------------------------------- rules

    method RememberState(id: RuleId, state: RuleState)
      modifies this`states
      ensures Memory() == Remember(old(Memory()), id, state)
    {
      states := states[id := state];
    }

    /** The rule stays answerable for a channel that may have moved; say so on disk before going on. */
    method RememberUnknown(rule: Rule, state: RuleState, now: int, saves: bool) returns (held: RuleState)
      modifies this
      ensures (Memory(), held) == RecordUnknown(old(Memory()), rule, state, now, saves)
    {
      held := state.(control := Some(ControlHold(rule.target, None, now)));
      RememberState(rule.id, held);
      dirty := true;
      FlushControlState(saves);
    }

    method ReactToWriteFailure(rule: Rule, state: RuleState, env: RuleEnv, now: int, saves: bool)
      returns (held: RuleState, events: seq<Event>)
      modifies this
      ensures (Remember(Memory(), rule.id, held), events) == HandleWriteFailure(old(Memory()), rule, state, env, now, saves)
    {
      held := RememberUnknown(rule, state, now, saves);
      events := [];
      if !rule.onWriteFailure.Hold? {
        events := [FailSafeWrite(rule.id, rule.target, env.failSafe)];
      }
      held := held.(nextDueMs := now + rule.interval);
    }

    method RunOneRule(rule: Rule, snapshot: RuleState, env: RuleEnv, now: int, saves: bool) returns (events: seq<Event>)
      requires snapshot == StateOf(states, rule.id)
      modifies this
      ensures (Memory(), events) == RunRule(old(Memory()), rule, env, now, saves)
    {
      events := [];
      var state := snapshot.(nextDueMs := now + rule.interval);
      if env.resolves && env.wants {
        events := [RuleWrite(rule.id, rule.target, env.result)];
        var more: seq<Event> := [];
        match env.result {
          case Applied(value) =>
            state := state.(control := Some(ControlHold(rule.target, value, now)), unconfirmedRun := 0);
          case Unconfirmed =>
            state := RememberUnknown(rule, state.(unconfirmedRun := state.unconfirmedRun + 1), now, saves);
            if state.unconfirmedRun >= MAX_CONSECUTIVE_UNCONFIRMED {
              state, more := ReactToWriteFailure(rule, state.(unconfirmedRun := 0), env, now, saves);
            } else {
              assert states[rule.id := state] == states;
            }
          case Rejected =>
          case Error =>
            state, more := ReactToWriteFailure(rule, state, env, now, saves);
        }
        events := events + more;
      }
      RememberState(rule.id, state);
    }

    /** One enabled rule's turn: stood down for the cycle, not due yet, or run. */
    method TakeTurn(n: nat, taken: bool, env: TickEnv) returns (events: seq<Event>)
      requires n < |rules| && rules[n].enabled
      requires taken <==> ClaimedBefore(rules, n)
      modifies this
      ensures (Memory(), events) == RuleTurn(old(Memory()), n, env)
    {
      events := [];
      var rule := rules[n];
      var state := StateOf(states, rule.id);
      if taken {
        RememberState(rule.id, state.(nextDueMs := env.now + rule.interval));
        return;
      }
      RememberState(rule.id, state);
      if !env.force && state.nextDueMs > env.now {
        return;
      }
      RunAfterLookup(Engine.Core(rules, old(states), book, dirty, disk, recovered, ticks), rule, env.rule(n), env.now, env.saves);
      events := RunOneRule(rule, state, env.rule(n), env.now, env.saves);
    }

    /** Evaluate every enabled rule that is due; an output has one writer per cycle. */
    method TickOnce(env: TickEnv) returns (events: seq<Event>)
      modifies this
      ensures (Memory(), events) == Tick(old(Memory()), env)
    {
      var tick := ticks;
      ticks := ticks + 1;
      events := [];
      if !env.automation {
        return;
      }
      var first := PerformPendingHandovers(env, tick);
      var more := RunDueRules(env);
      FlushControlState(env.saves);
      events := first + more;
    }

    method RunDueRules(env: TickEnv) returns (events: seq<Event>)
      modifies this
      ensures (Memory(), events) == RunRules(old(Memory()), |old(rules)|, env)
    {
      var active := rules;
      var claimed: seq<Channel> := [];
      events := [];
      for n := 0 to |active|
        invariant rules == active
        invariant (Memory(), events) == RunRules(old(Memory()), n, env)
        invariant OwnersOf(claimed, active[..n])
      {
        var rule := active[n];
        ClaimedIsOwned(claimed, active, n);
        if rule.enabled {
          var turn := TakeTurn(n, rule.target in claimed, env);
          events := events + turn;
          if rule.target !in claimed {
            claimed := claimed + [rule.target];
          }
        } else {
          assert events + [] == events;
        }
      }
    }

    // -------------------------------------------------------------- the user and the process

    method RetryFailedHandovers()
      modifies this`book
      ensures Memory() == Step(old(Memory()), RetryAll).0
    {
      book := RetryFailed(book, ticks);
    }

    method RetryHandover(channel: Channel)
      modifies this`book
      ensures Memory() == Step(old(Memory()), RetryOne(channel)).0
    {
      book := RetryFailedOne(book, channel, ticks);
    }

    method ResetControlMemory()
      modifies this`states
      ensures Memory() == Step(old(Memory()), ResetStates).0
    {
      states := map id | id in states :: states[id].(unconfirmedRun := 0);
    }

    /** Last chance to record what is still owed before the process goes away. */
    method Shutdown(saves: bool)
      modifies this
      ensures Memory() == Step(old(Memory()), Stop(saves)).0
    {
      if book != [] {
        dirty := true;
      }
      FlushControlState(saves);
    }
  }

  // ------------------------------------------------------------------ sessions

  /** One operation of a session; a crash replaces the object by one that finds the same disk. */
  method Perform(engine: AutomationEngine, op: Op) returns (next: AutomationEngine, events: seq<Event>)
    modifies engine
    ensures next == engine || fresh(next)
    ensures (next.Memory(), events) == Step(old(engine.Memory()), op)
  {
    next, events := engine, [];
    match op {
      case LoadRules(report, saves) => engine.LoadRules(report, saves);
      case SaveRule(rule, accepted, saves) => var _ := engine.SaveRule(rule, accepted, saves);
      case SetRuleEnabled(id, enabled, accepted, saves) => var _ := engine.SetRuleEnabled(id, enabled, accepted, saves);
      case DeleteRule(id, saves) => engine.DeleteRule(id, saves);
      case DoTick(env) => events := engine.TickOnce(env);
      case VerifyState(env) => engine.VerifyRecoveredState(env);
      case RetryAll => engine.RetryFailedHandovers();
      case RetryOne(channel) => engine.RetryHandover(channel);
      case ResetStates => engine.ResetControlMemory();
      case PersistState(saves) => engine.PersistControlState(saves);
      case Stop(saves) => engine.Shutdown(saves);
      case Crash => next := new AutomationEngine(engine.disk);
    }
  }

  /** Any sequence of operations on the object ends in the state `Run` names. */
  method RunSession(disk: Record, ops: seq<Op>) returns (engine: AutomationEngine)
    ensures fresh(engine) && engine.Memory() == Run(disk, ops)
  {
    engine := new AutomationEngine(disk);
    for i := 0 to |ops|
      invariant fresh(engine) && engine.Memory() == Run(disk, ops[..i])
    {
      assert ops[..i + 1][..i] == ops[..i];
      var events;
      engine, events := Perform(engine, ops[i]);
    }
    assert ops[..|ops|] == ops;
  }
}
