/**
 * The record on disk, and when it covers what is in memory: every open handover, and every write
 * that was issued and never confirmed.
 */
module Recording {
  import opened Ids
  import opened Handovers
  import opened Engine
  import opened Rules
  import opened Responsibility
  import opened Ownership

  ghost predicate ListedHold(disk: Record, id: RuleId, c: Channel) {
    exists h | h in disk.holds :: h.ruleId == id && h.channel == c
  }

  ghost predicate WrittenDown(disk: Record, c: Channel) {
    Owed(disk.handovers, c) || exists h | h in disk.holds :: h.channel == c
  }

  /** A hold whose value nobody confirmed. */
  predicate Unknown(s: RuleState) {
    s.control.Some? && s.control.value.confirmed.None?
  }

  /** The record covers what is in memory. */
  ghost predicate DiskCovers(c: Core) {
    && (forall d | Owed(c.book, d) :: WrittenDown(c.disk, d))
    && forall id | id in c.states && Unknown(c.states[id]) :: ListedHold(c.disk, id, c.states[id].control.value.channel)
  }

  /** The rules list names every rule that remembers a hold. */
  ghost predicate HoldersListed(c: Core) {
    forall id | id in c.states && c.states[id].control.Some? :: id in RuleIds(c.rules)
  }

  lemma {:induction false} UnconfirmedComplete(rules: seq<Rule>, states: States, r: Rule)
    requires r in rules && Unknown(StateOf(states, r.id))
    ensures exists h | h in UnconfirmedHolds(rules, states) ::
              h.ruleId == r.id && h.channel == StateOf(states, r.id).control.value.channel
  {
    if r == rules[0] {
      var control := StateOf(states, r.id).control.value;
      assert UnconfirmedHolds(rules, states)[0] == StoredHold(r.id, control.channel, control.lastWriteMs);
    } else {
      assert rules == [rules[0]] + rules[1..];
      UnconfirmedComplete(rules[1..], states, r);
      var h :| h in UnconfirmedHolds(rules[1..], states)
               && h.ruleId == r.id && h.channel == StateOf(states, r.id).control.value.channel;
      assert h in UnconfirmedHolds(rules, states);
    }
  }

  /** Saving the record makes it cover the memory. */
  lemma {:induction false} SavedCovers(c: Core)
    requires HoldersListed(c)
    ensures DiskCovers(Persist(c, true))
  {
    forall id | id in c.states && Unknown(c.states[id])
      ensures ListedHold(BuildRecord(c), id, c.states[id].control.value.channel)
    {
      var r :| r in c.rules && r.id == id;
      UnconfirmedComplete(c.rules, c.states, r);
    }
  }

  lemma {:induction false} FlushCovers(c: Core)
    requires HoldersListed(c) && (DiskCovers(c) || c.dirty)
    ensures DiskCovers(Flush(c, true))
  {
    SavedCovers(c);
  }

  /** Less in memory, the same on disk: still covered. */
  lemma {:induction false} CoversLess(a: Core, b: Core)
    requires DiskCovers(a) && b.disk == a.disk
    requires forall d :: Owed(b.book, d) ==> Owed(a.book, d)
    requires forall id | id in b.states && Unknown(b.states[id]) ::
               id in a.states && Unknown(a.states[id]) && a.states[id].control.value.channel == b.states[id].control.value.channel
    ensures DiskCovers(b)
  {}

  // ------------------------------------------------------------------ edits and reloads

  /** Replacing one entry of the memory by one that owes no more. */
  lemma {:induction false} RememberCovers(c: Core, id: RuleId, s: RuleState)
    requires DiskCovers(c) && HoldersListed(c)
    requires s.control.Some? ==> id in RuleIds(c.rules)
    requires Unknown(s) ==> id in c.states && s.control == c.states[id].control
    ensures DiskCovers(Remember(c, id, s)) && HoldersListed(Remember(c, id, s))
  {
    var c' := Remember(c, id, s);
    forall k | k in c'.states && Unknown(c'.states[k]) ensures ListedHold(c'.disk, k, c'.states[k].control.value.channel) {
      if k != id { assert c'.states[k] == c.states[k]; }
    }
    forall k | k in c'.states && c'.states[k].control.Some? ensures k in RuleIds(c'.rules) {
      if k != id { assert c'.states[k] == c.states[k]; }
    }
  }

  lemma {:induction false} ChangeCovers(c: Core, previous: Rule, next: Rule)
    requires HoldersListed(c) && (DiskCovers(c) || c.dirty)
    ensures var c' := ApplyRuleChange(c, previous, Between(previous, next), true);
            HoldersListed(c') && (DiskCovers(c') || c'.dirty) && (DiskCovers(c) ==> DiskCovers(c'))
  {
    var change := Between(previous, next);
    var id := previous.id;
    var c1 := c;
    if change.LeavesControl() {
      var c0 := HandOver(c, id, StateOf(c.states, id).control, change.previousTarget);
      FlushCovers(c0);
      c1 := Flush(c0, true);
    }
    if id in c1.states && change.IsSemantic() {
      var entry := Invalidated(c1.states[id], change);
      if DiskCovers(c1) {
        RememberCovers(c1, id, entry);
      } else {
        forall k | k in c1.states[id := entry] && c1.states[id := entry][k].control.Some? ensures k in RuleIds(c1.rules) {
          assert c1.states[k].control.Some?;
        }
      }
    }
  }

  lemma {:induction false} LoadedCovers(c: Core, previous: seq<Rule>, report: seq<Rule>)
    requires HoldersListed(c) && (DiskCovers(c) || c.dirty)
    ensures var c' := ApplyLoaded(c, previous, report, true);
            HoldersListed(c') && c'.rules == c.rules && (DiskCovers(c') || c'.dirty)
  {
    if report != [] {
      var n := |report| - 1;
      LoadedCovers(c, previous, report[..n]);
      var i := FindRule(previous, report[n].id);
      if i < |previous| {
        ChangeCovers(ApplyLoaded(c, previous, report[..n], true), previous[i], report[n]);
      }
    }
  }

  lemma {:induction false} RemovedCovers(c: Core, holds: seq<(RuleId, ControlHold)>, report: seq<Rule>)
    requires DiskCovers(c) || c.dirty
    ensures var c' := HandOverRemoved(c, holds, report);
            c' == c.(book := c'.book, dirty := c'.dirty) && (DiskCovers(c') || c'.dirty)
  {
    if holds != [] {
      RemovedCovers(c, holds[..|holds| - 1], report);
    }
  }

  lemma {:induction false} LoadCovers(c: Core, report: seq<Rule>)
    requires Good(c) && DiskCovers(c) && Unambiguous(Loaded(report))
    ensures DiskCovers(Load(c, report, true))
  {
    LoadKeepsMiddle(c, report, true);
    LoadedFacts(report);
    SortFacts(report);
    var c1 := c.(rules := SortRules(report), states := Retained(c.states, report));
    assert forall id | id in c1.states :: id in RuleIds(c1.rules);
    CoversLess(c, c1);
    LoadedCovers(c1, c.rules, report);
    var c2 := ApplyLoaded(c1, c.rules, report, true);
    RemovedCovers(c2, PreviousHolds(c.rules, c.states), report);
    var c3 := HandOverRemoved(c2, PreviousHolds(c.rules, c.states), report);
    var c3' := c3.(rules := Loaded(report));
    if DiskCovers(c3) {
      CoversLess(c3, c3');
    }
    FlushCovers(c3');
    var c4 := Flush(c3', true);
    if !c4.recovered {
      RecoverOwes(c4.(recovered := true));
    }
  }

  lemma {:induction false} SaveCovers(c: Core, rule: Rule, accepted: bool)
    requires Good(c) && DiskCovers(c)
    ensures DiskCovers(Save(c, rule, accepted, true))
  {
    hide SortRules, WithoutRule, Conflicts, ApplyRuleChange, Between;
    if accepted && !(rule.enabled && Conflicts(c.rules, rule)) {
      ReplaceRule(c.rules, rule);
      var c1 := c.(
        rules := SortRules(WithoutRule(c.rules, rule.id) + [rule]),
        states := c.states[rule.id := StateOf(c.states, rule.id).(nextDueMs := 0)]);
      CoversLess(c, c1);
      forall id | id in c1.states && c1.states[id].control.Some? ensures id in RuleIds(c1.rules) {
        HasRuleIsMember(c1.rules, id);
        if id != rule.id {
          assert NamesTarget(c.states[id], c.rules, id);
        }
      }
      var i := FindRule(c.rules, rule.id);
      if i < |c.rules| {
        ChangeCovers(c1, c.rules[i], rule);
      }
    }
  }

  lemma {:induction false} DeleteCovers(c: Core, id: RuleId)
    requires Good(c) && DiskCovers(c)
    ensures DiskCovers(Delete(c, id, true))
  {
    var held := StateOf(c.states, id).control;
    WithoutMembers(c.rules, id);
    var c1 := c.(rules := WithoutRule(c.rules, id), states := c.states - {id});
    CoversLess(c, c1);
    forall k | k in c1.states && c1.states[k].control.Some? ensures k in RuleIds(c1.rules) {
      assert NamesTarget(c.states[k], c.rules, k);
      assert c.rules[FindRule(c.rules, k)] in c1.rules;
    }
    FlushCovers(HandOver(c1, id, held, None));
  }

  // ------------------------------------------------------------------ what the record lists, exactly

  /** The rule's memory holds the channel, and nobody confirmed the value. */
  predicate HeldUnknown(states: States, id: RuleId, c: Channel) {
    id in states && Unknown(states[id]) && states[id].control.value.channel == c
  }

  lemma {:induction false} UnconfirmedSound(rules: seq<Rule>, states: States)
    ensures forall h | h in UnconfirmedHolds(rules, states) :: HeldUnknown(states, h.ruleId, h.channel)
  {
    if rules != [] {
      UnconfirmedSound(rules[1..], states);
    }
  }

  /** A saved record lists exactly the holds of unknown value. */
  lemma {:induction false} RecordExact(c: Core, id: RuleId, d: Channel)
    requires HoldersListed(c)
    ensures ListedHold(BuildRecord(c), id, d) <==> HeldUnknown(c.states, id, d)
  {
    UnconfirmedSound(c.rules, c.states);
    if HeldUnknown(c.states, id, d) {
      var r :| r in c.rules && r.id == id;
      UnconfirmedComplete(c.rules, c.states, r);
    }
  }

  /** What a record lists depends on what is held and on nothing else a rule remembers. */
  lemma {:induction false} HoldsSame(rules: seq<Rule>, a: States, b: States)
    requires forall id :: StateOf(a, id).control == StateOf(b, id).control
    ensures UnconfirmedHolds(rules, a) == UnconfirmedHolds(rules, b)
  {
    if rules != [] {
      HoldsSame(rules[1..], a, b);
    }
  }

  // ------------------------------------------------------------------ one turn

  /** A write the device settled without a number: a hold of unknown value that is not written down. */
  predicate Numberless(e: Event) {
    e.RuleWrite? && e.result == Applied(None)
  }

  /** A write of unknown outcome, after which the record is saved at once. */
  predicate Saving(e: Event) {
    e.RuleWrite? && (e.result.Unconfirmed? || e.result.Error?)
  }

  predicate SavedIn(events: seq<Event>) {
    exists i | 0 <= i < |events| :: Saving(events[i])
  }

  /** Only the rule's own memory moved. */
  ghost predicate OwnEntry(c: Core, r: Rule, c': Core) {
    r.id in c'.states && c' == c.(states := c.states[r.id := c'.states[r.id]], disk := c'.disk, dirty := c'.dirty)
  }

  /** A turn that saved nothing: the hold is as it was, or it is the device's own report of the rule's write. */
  ghost predicate PlainTurn(c: Core, r: Rule, c': Core, events: seq<Event>) {
    && OwnEntry(c, r, c') && c'.disk == c.disk && c'.dirty == c.dirty
    && var control := c'.states[r.id].control;
       || (control == StateOf(c.states, r.id).control && (events == [] || events == [RuleWrite(r.id, r.target, Rejected)]))
       || (control.Some? && control.value.channel == r.target
           && events == [RuleWrite(r.id, r.target, Applied(control.value.confirmed))])
  }

  /** A turn whose write ended in the unknown: held, and the record saved as it is now. */
  ghost predicate SavedTurn(c: Core, r: Rule, c': Core, events: seq<Event>) {
    && OwnEntry(c, r, c') && c'.disk == BuildRecord(c') && !c'.dirty
    && HeldUnknown(c'.states, r.id, r.target)
    && events != [] && Saving(events[0])
    && (forall e | e in events :: !e.HandoverWrite? && e.rule == r.id && e.channel == r.target)
    && forall i | 1 <= i < |events| :: events[i].FailSafeWrite?
  }

  lemma {:induction false} RecordUnknownSaves(c: Core, rule: Rule, s: RuleState, now: int)
    ensures var (c', s1) := RecordUnknown(c, rule, s, now, true);
            && OwnEntry(c, rule, c') && c'.states[rule.id] == s1 && c'.disk == BuildRecord(c') && !c'.dirty
            && s1 == s.(control := Some(ControlHold(rule.target, None, now)))
  {}

  lemma {:induction false} FailureSaves(c: Core, rule: Rule, s: RuleState, env: RuleEnv, now: int)
    ensures var (c', events) := HandleWriteFailure(c, rule, s, env, now, true);
            && OwnEntry(c, rule, c') && HeldUnknown(c'.states, rule.id, rule.target)
            && c'.disk == BuildRecord(c') && !c'.dirty
            && (events == [] || events == [FailSafeWrite(rule.id, rule.target, env.failSafe)])
  {
    RecordUnknownSaves(c, rule, s, now);
    var (c1, s1) := RecordUnknown(c, rule, s, now, true);
    var c' := HandleWriteFailure(c, rule, s, env, now, true).0;
    HoldsSame(c.rules, c1.states, c'.states);
    assert c.states[rule.id := s1][rule.id := c'.states[rule.id]] == c.states[rule.id := c'.states[rule.id]];
  }

  lemma {:induction false} UnconfirmedSaves(c: Core, rule: Rule, s: RuleState, env: RuleEnv, now: int)
    ensures var (c', events) := AfterUnconfirmed(c, rule, s, env, now, true);
            && OwnEntry(c, rule, c') && HeldUnknown(c'.states, rule.id, rule.target)
            && c'.disk == BuildRecord(c') && !c'.dirty
            && (events == [] || events == [FailSafeWrite(rule.id, rule.target, env.failSafe)])
  {
    hide RecordUnknown, HandleWriteFailure, BuildRecord;
    var s0 := s.(unconfirmedRun := s.unconfirmedRun + 1);
    RecordUnknownSaves(c, rule, s0, now);
    var (c1, s1) := RecordUnknown(c, rule, s0, now, true);
    FailureSaves(c1, rule, s1.(unconfirmedRun := 0), env, now);
    var c2 := HandleWriteFailure(c1, rule, s1.(unconfirmedRun := 0), env, now, true).0;
    assert c.states[rule.id := s1][rule.id := c2.states[rule.id]] == c.states[rule.id := c2.states[rule.id]];
  }

  lemma {:induction false} RunKinds(c: Core, rule: Rule, env: RuleEnv, now: int)
    ensures var (c', events) := RunRule(c, rule, env, now, true);
            PlainTurn(c, rule, c', events) || SavedTurn(c, rule, c', events)
  {
    hide AfterUnconfirmed, HandleWriteFailure, BuildRecord;
    var s := StateOf(c.states, rule.id).(nextDueMs := now + rule.interval);
    var (c', events) := RunRule(c, rule, env, now, true);
    if env.resolves && env.wants {
      var write := RuleWrite(rule.id, rule.target, env.result);
      match env.result {
        case Applied(v) =>
          assert events == [write];
        case Unconfirmed =>
          UnconfirmedSaves(c, rule, s, env, now);
          assert events[0] == write;
        case Rejected =>
        case Error =>
          FailureSaves(c, rule, s, env, now);
          assert events[0] == write;
      }
    }
  }

  lemma {:induction false} TurnKinds(c: Core, n: nat, env: TickEnv)
    requires n < |c.rules| && env.saves && c.rules[n].enabled
    ensures var (c', events) := RuleTurn(c, n, env);
            PlainTurn(c, c.rules[n], c', events) || SavedTurn(c, c.rules[n], c', events)
  {
    hide RunRule, BuildRecord;
    RunKinds(c, c.rules[n], env.rule(n), env.now);
  }

  // ------------------------------------------------------------------ the turns of one cycle

  /** Has the rule written anything yet? */
  predicate Wrote(events: seq<Event>, id: RuleId) {
    exists i | 0 <= i < |events| :: !events[i].HandoverWrite? && events[i].rule == id
  }

  lemma {:induction false} WrittenBefore(rules: seq<Rule>, e: Event, k: nat, n: nat)
    requires k < n < |rules| && WrittenOnTurn(rules, e, k) && rules[n].enabled && rules[n].id == e.rule
    requires Unambiguous(rules)
    ensures ClaimedBefore(rules, n)
  {
    assert rules[k] in rules && rules[n] in rules;
    SameFirstOfId(rules, rules[k], rules[n]);
  }

  /** A rule that writes on its turn has not written before: rules that share its id share its target. */
  lemma {:induction false} WritesOnOneTurn(start: Core, n: nat, env: TickEnv)
    requires n < |start.rules| && Unambiguous(start.rules)
    requires RuleTurn(RunRules(start, n, env).0, n, env).1 != []
    ensures !Wrote(RunRules(start, n, env).1, start.rules[n].id)
  {
    var (c, events) := RunRules(start, n, env);
    var rules, r := start.rules, start.rules[n];
    RuleEventsHaveTurns(start, n, env);
    hide RunRules, RunRule;
    if Wrote(events, r.id) {
      var i :| 0 <= i < |events| && !events[i].HandoverWrite? && events[i].rule == r.id;
      assert events[i] in events;
      var k :| 0 <= k < n && WrittenOnTurn(rules, events[i], k);
      WrittenBefore(rules, events[i], k, n);
    }
  }

  lemma {:induction false} SameFirstOfId(rules: seq<Rule>, a: Rule, b: Rule)
    requires Unambiguous(rules) && a in rules && b in rules && a.enabled && b.enabled && a.id == b.id
    ensures a.target == b.target
  {
    var i, j := FindFirst(rules, a), FindFirst(rules, b);
    assert rules[i].target == a.target && rules[j].target == b.target;
  }

  /** After the turns so far: what each rule holds, and what the record knows of it. */
  ghost predicate InCycle(start: Core, c: Core, events: seq<Event>) {
    && c.rules == start.rules && c.book == start.book
    && HoldersListed(c)
    && (if SavedIn(events) then !c.dirty else c.disk == start.disk && c.dirty == start.dirty)
    && (forall d | Owed(c.book, d) :: WrittenDown(c.disk, d))
  }

  /** A rule that wrote nothing holds what it held. */
  ghost predicate Idle(start: Core, c: Core, events: seq<Event>) {
    forall id | !Wrote(events, id) :: StateOf(c.states, id).control == StateOf(start.states, id).control
  }

  /** A hold of unknown value is on record, or was settled without a number this cycle. */
  ghost predicate HoldsExplained(c: Core, events: seq<Event>) {
    forall id, d | HeldUnknown(c.states, id, d) ::
      ListedHold(c.disk, id, d) || RuleWrite(id, d, Applied(None)) in events
  }

  /** A write settled without a number is still held, its value unknown. */
  ghost predicate NumberlessHeld(c: Core, events: seq<Event>) {
    forall e | e in events && Numberless(e) :: HeldUnknown(c.states, e.rule, e.channel)
  }

  /** Once the record was saved, it lists of a rule that wrote nothing exactly what it held when the cycle began. */
  ghost predicate IdleListed(start: Core, c: Core, events: seq<Event>) {
    SavedIn(events) ==> forall id, d | !Wrote(events, id) ::
      ListedHold(c.disk, id, d) <==> HeldUnknown(start.states, id, d)
  }

  /** Was the record saved after event `i`? */
  predicate SavedAfter(events: seq<Event>, i: nat) {
    exists j | i < j < |events| :: Saving(events[j])
  }

  /**
   * Is the hold of a write settled without a number on record? It is when the record was saved
   * later in the cycle; or was saved earlier, and the rule held the channel unknown already; or was
   * not saved, and listed the hold before.
   */
  ghost predicate OnRecord(start: Core, events: seq<Event>, i: nat)
    requires i < |events| && Numberless(events[i])
  {
    var e := events[i];
    || SavedAfter(events, i)
    || (if SavedIn(events[..i]) then HeldUnknown(start.states, e.rule, e.channel)
        else ListedHold(start.disk, e.rule, e.channel))
  }

  ghost predicate NumberlessListed(start: Core, c: Core, events: seq<Event>) {
    forall i | 0 <= i < |events| && Numberless(events[i]) ::
      ListedHold(c.disk, events[i].rule, events[i].channel) <==> OnRecord(start, events, i)
  }

  // ------------------------------------------------------------------ a turn that saves nothing

  lemma {:induction false} SavedInAppend(events: seq<Event>, more: seq<Event>)
    ensures SavedIn(events + more) <==> SavedIn(events) || SavedIn(more)
  {
    var all := events + more;
    if SavedIn(events) {
      var i :| 0 <= i < |events| && Saving(events[i]);
      assert Saving(all[i]);
    }
    if SavedIn(more) {
      var i :| 0 <= i < |more| && Saving(more[i]);
      assert Saving(all[|events| + i]);
    }
    if SavedIn(all) {
      var i :| 0 <= i < |all| && Saving(all[i]);
      assert if i < |events| then Saving(events[i]) else Saving(more[i - |events|]);
    }
  }

  lemma {:induction false} WroteAppend(events: seq<Event>, more: seq<Event>, id: RuleId)
    ensures Wrote(events + more, id) <==> Wrote(events, id) || Wrote(more, id)
  {
    var all := events + more;
    if Wrote(events, id) {
      var i :| 0 <= i < |events| && !events[i].HandoverWrite? && events[i].rule == id;
      assert all[i] == events[i];
    }
    if Wrote(more, id) {
      var i :| 0 <= i < |more| && !more[i].HandoverWrite? && more[i].rule == id;
      assert all[|events| + i] == more[i];
    }
    if Wrote(all, id) {
      var i :| 0 <= i < |all| && !all[i].HandoverWrite? && all[i].rule == id;
      assert if i < |events| then all[i] == events[i] else all[i] == more[i - |events|];
    }
  }

  lemma {:induction false} PlainSavesNothing(c: Core, r: Rule, c': Core, more: seq<Event>)
    requires PlainTurn(c, r, c', more)
    ensures !SavedIn(more)
  {}

  /** Whatever a turn writes, it writes in its rule's name. */
  lemma {:induction false} PlainWrites(c: Core, r: Rule, c': Core, more: seq<Event>)
    requires PlainTurn(c, r, c', more) && more != []
    ensures Wrote(more, r.id)
  {
    assert more[0].rule == r.id;
  }

  lemma {:induction false} PlainInCycle(start: Core, c: Core, events: seq<Event>, r: Rule, c': Core, more: seq<Event>)
    requires InCycle(start, c, events) && PlainTurn(c, r, c', more) && r in c.rules
    ensures InCycle(start, c', events + more)
  {
    PlainSavesNothing(c, r, c', more);
    SavedInAppend(events, more);
    assert forall id | id in c'.states && c'.states[id].control.Some? :: id == r.id || c'.states[id] == c.states[id];
  }

  lemma {:induction false} PlainIdle(start: Core, c: Core, events: seq<Event>, r: Rule, c': Core, more: seq<Event>)
    requires Idle(start, c, events) && IdleListed(start, c, events) && PlainTurn(c, r, c', more)
    ensures Idle(start, c', events + more) && IdleListed(start, c', events + more)
  {
    PlainSavesNothing(c, r, c', more);
    SavedInAppend(events, more);
    forall id | !Wrote(events + more, id)
      ensures !Wrote(events, id) && StateOf(c'.states, id).control == StateOf(start.states, id).control
    {
      WroteAppend(events, more, id);
      if more != [] {
        PlainWrites(c, r, c', more);
      }
    }
  }

  lemma {:induction false} PlainHolds(c: Core, events: seq<Event>, r: Rule, c': Core, more: seq<Event>)
    requires HoldsExplained(c, events) && NumberlessHeld(c, events) && PlainTurn(c, r, c', more)
    requires more != [] ==> !Wrote(events, r.id)
    ensures HoldsExplained(c', events + more) && NumberlessHeld(c', events + more)
  {
    forall id, d | HeldUnknown(c'.states, id, d)
      ensures ListedHold(c'.disk, id, d) || RuleWrite(id, d, Applied(None)) in events + more
    {
      if HeldUnknown(c.states, id, d) {
        assert ListedHold(c.disk, id, d) || RuleWrite(id, d, Applied(None)) in events;
      } else {
        assert id == r.id && more == [RuleWrite(id, d, Applied(None))];
        assert more[0] in more;
      }
    }
    forall e | e in events + more && Numberless(e) ensures HeldUnknown(c'.states, e.rule, e.channel) {
      if e in events {
        assert HeldUnknown(c.states, e.rule, e.channel);
        var i :| 0 <= i < |events| && events[i] == e;
        assert Wrote(events, e.rule);
      } else {
        assert more == [e];
      }
    }
  }

  /** What a prefix of the cycle says about a write does not change while nothing is saved. */
  lemma {:induction false} OnRecordStays(start: Core, events: seq<Event>, more: seq<Event>, i: nat)
    requires i < |events| && Numberless(events[i]) && !SavedIn(more)
    ensures OnRecord(start, events + more, i) <==> OnRecord(start, events, i)
  {
    var all := events + more;
    assert all[..i] == events[..i];
    if SavedAfter(events, i) {
      var j :| i < j < |events| && Saving(events[j]);
      assert Saving(all[j]);
    }
    if SavedAfter(all, i) {
      var j :| i < j < |all| && Saving(all[j]);
      assert if j < |events| then Saving(events[j]) else Saving(more[j - |events|]);
    }
  }

  lemma {:induction false} NotSavedAfterLast(events: seq<Event>, e: Event)
    ensures !SavedAfter(events + [e], |events|)
  {}

  lemma {:induction false} PlainListed(start: Core, c: Core, events: seq<Event>, r: Rule, c': Core, more: seq<Event>)
    requires InCycle(start, c, events) && IdleListed(start, c, events) && NumberlessListed(start, c, events)
    requires PlainTurn(c, r, c', more) && (more != [] ==> !Wrote(events, r.id))
    ensures NumberlessListed(start, c', events + more)
  {
    hide ListedHold, OnRecord, SavedIn, Wrote;
    var all := events + more;
    PlainSavesNothing(c, r, c', more);
    forall i | 0 <= i < |all| && Numberless(all[i])
      ensures ListedHold(c'.disk, all[i].rule, all[i].channel) <==> OnRecord(start, all, i)
    {
      if i < |events| {
        OnRecordStays(start, events, more, i);
      } else {
        PlainLast(start, c, events, more, i);
      }
    }
  }

  lemma {:induction false} PlainLast(start: Core, c: Core, events: seq<Event>, more: seq<Event>, i: nat)
    requires InCycle(start, c, events) && IdleListed(start, c, events)
    requires |more| == 1 && i == |events| && Numberless(more[0]) && !Wrote(events, more[0].rule)
    ensures ListedHold(c.disk, more[0].rule, more[0].channel) <==> OnRecord(start, events + more, i)
  {
    hide ListedHold, SavedIn, Wrote, SavedAfter;
    assert more == [more[0]];
    NotSavedAfterLast(events, more[0]);
    assert (events + more)[..i] == events;
  }

  // ------------------------------------------------------------------ a turn that saves the record

  lemma {:induction false} SavedTurnMarks(c: Core, r: Rule, c': Core, events: seq<Event>, more: seq<Event>)
    requires SavedTurn(c, r, c', more)
    ensures SavedIn(events + more) && Wrote(events + more, r.id)
    ensures forall i | 0 <= i < |events| :: SavedAfter(events + more, i)
    ensures forall i | |events| <= i < |events + more| :: !Numberless((events + more)[i])
  {
    var all := events + more;
    assert forall i | |events| < i < |all| :: all[i] == more[i - |events|];
    assert all[|events|] == more[0] && more[0] in more;
    assert Saving(all[|events|]);
  }

  lemma {:induction false} SavedInCycle(start: Core, c: Core, events: seq<Event>, r: Rule, c': Core, more: seq<Event>)
    requires InCycle(start, c, events) && SavedTurn(c, r, c', more) && r in c.rules
    ensures InCycle(start, c', events + more) && HoldersListed(c') && more != []
  {
    hide SavedIn, Wrote, Numberless, SavedAfter;
    SavedTurnMarks(c, r, c', events, more);
    assert forall id | id in c'.states && c'.states[id].control.Some? :: id == r.id || c'.states[id] == c.states[id];
  }

  lemma {:induction false} SavedIdle(start: Core, c: Core, events: seq<Event>, r: Rule, c': Core, more: seq<Event>)
    requires Idle(start, c, events) && SavedTurn(c, r, c', more) && HoldersListed(c')
    ensures Idle(start, c', events + more) && IdleListed(start, c', events + more)
  {
    hide SavedIn, Wrote, Numberless, SavedAfter, ListedHold, BuildRecord;
    SavedTurnMarks(c, r, c', events, more);
    forall id | !Wrote(events + more, id)
      ensures StateOf(c'.states, id).control == StateOf(start.states, id).control
    {
      WroteAppend(events, more, id);
      assert id != r.id;
    }
    forall id, d | !Wrote(events + more, id)
      ensures ListedHold(c'.disk, id, d) <==> HeldUnknown(start.states, id, d)
    {
      RecordExact(c', id, d);
      assert StateOf(c'.states, id).control == StateOf(start.states, id).control;
    }
  }

  lemma {:induction false} SavedHolds(c: Core, events: seq<Event>, r: Rule, c': Core, more: seq<Event>)
    requires NumberlessHeld(c, events) && SavedTurn(c, r, c', more) && HoldersListed(c') && !Wrote(events, r.id)
    ensures HoldsExplained(c', events + more) && NumberlessHeld(c', events + more)
  {
    hide SavedIn, SavedAfter, ListedHold, BuildRecord;
    forall id, d | HeldUnknown(c'.states, id, d) ensures ListedHold(c'.disk, id, d) {
      RecordExact(c', id, d);
    }
    SavedTurnMarks(c, r, c', events, more);
    forall e | e in events + more && Numberless(e) ensures HeldUnknown(c'.states, e.rule, e.channel) {
      assert e in events;
      assert HeldUnknown(c.states, e.rule, e.channel);
      var i :| 0 <= i < |events| && events[i] == e;
      assert e.rule == r.id ==> Wrote(events, r.id);
    }
  }

  lemma {:induction false} SavedListed(start: Core, c: Core, events: seq<Event>, r: Rule, c': Core, more: seq<Event>)
    requires NumberlessHeld(c', events + more) && SavedTurn(c, r, c', more) && HoldersListed(c')
    ensures NumberlessListed(start, c', events + more)
  {
    hide SavedIn, Wrote, SavedAfter, ListedHold, BuildRecord;
    var all := events + more;
    SavedTurnMarks(c, r, c', events, more);
    forall i | 0 <= i < |all| && Numberless(all[i])
      ensures ListedHold(c'.disk, all[i].rule, all[i].channel) && OnRecord(start, all, i)
    {
      assert all[i] in all;
      RecordExact(c', all[i].rule, all[i].channel);
    }
  }

  // ------------------------------------------------------------------ all turns of a cycle

  ghost predicate Tracked(start: Core, c: Core, events: seq<Event>) {
    && InCycle(start, c, events)
    && Idle(start, c, events) && IdleListed(start, c, events)
    && HoldsExplained(c, events) && NumberlessHeld(c, events)
    && NumberlessListed(start, c, events)
  }

  lemma {:induction false} TurnTracked(start: Core, c: Core, events: seq<Event>, r: Rule, c': Core, more: seq<Event>)
    requires Tracked(start, c, events) && r in c.rules
    requires PlainTurn(c, r, c', more) || SavedTurn(c, r, c', more)
    requires more != [] ==> !Wrote(events, r.id)
    ensures Tracked(start, c', events + more)
  {
    hide InCycle, Idle, IdleListed, HoldsExplained, NumberlessHeld, NumberlessListed, PlainTurn, SavedTurn, Wrote, HoldersListed;
    if PlainTurn(c, r, c', more) {
      PlainInCycle(start, c, events, r, c', more);
      PlainIdle(start, c, events, r, c', more);
      PlainHolds(c, events, r, c', more);
      PlainListed(start, c, events, r, c', more);
    } else {
      SavedInCycle(start, c, events, r, c', more);
      SavedIdle(start, c, events, r, c', more);
      SavedHolds(c, events, r, c', more);
      SavedListed(start, c, events, r, c', more);
    }
  }

  lemma {:induction false} TurnsTracked(start: Core, n: nat, env: TickEnv)
    requires n <= |start.rules| && env.saves
    requires HoldersListed(start) && DiskCovers(start) && Unambiguous(start.rules)
    ensures var (c, events) := RunRules(start, n, env); Tracked(start, c, events)
  {
    hide Tracked, RuleTurn, Wrote, DiskCovers, HoldersListed, Unambiguous;
    if n > 0 {
      TurnsTracked(start, n - 1, env);
      var (c, events) := RunRules(start, n - 1, env);
      if RuleTurn(c, n - 1, env).1 != [] {
        WritesOnOneTurn(start, n - 1, env);
      }
      TurnMore(start, c, events, n - 1, env);
    } else {
      NoTurnTracked(start);
    }
  }

  lemma {:induction false} NoTurnTracked(start: Core)
    requires HoldersListed(start) && DiskCovers(start)
    ensures Tracked(start, start, [])
  {
    assert forall id, d | HeldUnknown(start.states, id, d) :: ListedHold(start.disk, id, d);
  }

  lemma {:induction false} TurnMore(start: Core, c: Core, events: seq<Event>, n: nat, env: TickEnv)
    requires n < |c.rules| && env.saves && Tracked(start, c, events)
    requires RuleTurn(c, n, env).1 != [] ==> !Wrote(events, c.rules[n].id)
    ensures var (c', more) := RuleTurn(c, n, env); Tracked(start, c', events + more)
  {
    hide Tracked, PlainTurn, SavedTurn, Wrote, RunRule, ClaimedBefore;
    if c.rules[n].enabled {
      var (c', more) := RuleTurn(c, n, env);
      TurnKinds(c, n, env);
      TurnTracked(start, c, events, c.rules[n], c', more);
    } else {
      assert events + [] == events;
    }
  }

  // ------------------------------------------------------------------ one cycle

  lemma {:induction false} GoodHoldersListed(c: Core)
    requires Good(c)
    ensures HoldersListed(c)
  {
    forall id | id in c.states && c.states[id].control.Some? ensures id in RuleIds(c.rules) {
      assert NamesTarget(c.states[id], c.rules, id);
      HasRuleIsMember(c.rules, id);
    }
  }

  /** The core as the rules find it: the handovers had their turn. */
  function BeforeRules(c: Core, env: TickEnv): Core {
    PerformHandovers(c.(ticks := c.ticks + 1), env, c.ticks).0
  }

  lemma {:induction false} BeforeRulesCovers(c: Core, env: TickEnv)
    requires Good(c) && DiskCovers(c)
    ensures var start := BeforeRules(c, env);
            DiskCovers(start) && HoldersListed(start) && Unambiguous(start.rules) && start.rules == c.rules
            && (c.dirty || c.book != [] ==> start.dirty)
  {
    hide VerifyItems, HandoverPass, Unknown;
    var c0 := c.(ticks := c.ticks + 1);
    GoodHoldersListed(c);
    VerifyKeeps(c0, env);
    var c1 := VerifyRecovered(c0, env);
    HandoverPassKeeps(c1.rules, c1.states, c1.book, c1.book, c.ticks, env.handover, {});
    CoversLess(c, BeforeRules(c, env));
  }

  /**
   * The end of the cycle saves nothing, and a write of the cycle that the device settled without a
   * number is not on record.
   */
  ghost predicate CycleGap(c: Core, env: TickEnv) {
    env.automation &&
    var start := BeforeRules(c, env);
    var events := RunRules(start, |start.rules|, env).1;
    (!start.dirty || SavedIn(events))
    && exists i | 0 <= i < |events| :: Numberless(events[i]) && !OnRecord(start, events, i)
  }

  /** What the last save of the cycle, or the lack of one, leaves covered. */
  lemma {:induction false} EndOfCycle(start: Core, c: Core, events: seq<Event>)
    requires Tracked(start, c, events)
    ensures DiskCovers(Flush(c, true)) <==>
              ((start.dirty && !SavedIn(events)) ||
               forall i | 0 <= i < |events| && Numberless(events[i]) :: OnRecord(start, events, i))
  {
    hide SavedIn, OnRecord, ListedHold;
    if c.dirty {
      FlushCovers(c);
    } else {
      if forall i | 0 <= i < |events| && Numberless(events[i]) :: OnRecord(start, events, i) {
        forall id | id in c.states && Unknown(c.states[id])
          ensures ListedHold(c.disk, id, c.states[id].control.value.channel)
        {
          var d := c.states[id].control.value.channel;
          assert HeldUnknown(c.states, id, d);
          if RuleWrite(id, d, Applied(None)) in events {
            var i :| 0 <= i < |events| && events[i] == RuleWrite(id, d, Applied(None));
            assert Numberless(events[i]);
          }
        }
      }
      if DiskCovers(c) {
        forall i | 0 <= i < |events| && Numberless(events[i]) ensures OnRecord(start, events, i) {
          assert events[i] in events;
          assert HeldUnknown(c.states, events[i].rule, events[i].channel);
        }
      }
    }
  }

  /** A cycle whose saves succeed leaves the record covering the memory, unless it has a gap; and only then. */
  lemma {:induction false} TickCovers(c: Core, env: TickEnv)
    requires Good(c) && DiskCovers(c) && env.saves
    ensures DiskCovers(Tick(c, env).0) <==> !CycleGap(c, env)
  {
    hide Tracked, PerformHandovers, OnRecord;
    if env.automation {
      BeforeRulesCovers(c, env);
      var start := BeforeRules(c, env);
      TurnsTracked(start, |start.rules|, env);
      var (c2, events) := RunRules(start, |start.rules|, env);
      EndOfCycle(start, c2, events);
    } else {
      CoversLess(c, Tick(c, env).0);
    }
  }
}
