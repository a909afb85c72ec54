/**
 * What an edit does: the list of rules, what each rule remembers and what is owed after saving,
 * switching, deleting and reloading rules, exactly.
 */
module Edits {
  import opened Ids
  import opened Handovers
  import opened Engine
  import opened Rules
  import opened Responsibility
  import opened Recording
  import opened Ownership
  import opened Closing

  // ------------------------------------------------------------------ one rule, before and after

  /** The rule no longer drives what it drove: it names another channel, or was switched on or off. */
  predicate Leaves(previous: Rule, next: Rule) {
    previous.target != next.target || previous.enabled != next.enabled
  }

  predicate Differs(previous: Rule, next: Rule) {
    || Leaves(previous, next)
    || previous.source != next.source || previous.condition != next.condition || previous.mapping != next.mapping
  }

  /** What is left of a rule's memory: its hold unless it leaves, the row of unconfirmed writes, and its due time. */
  function Edited(s: RuleState, previous: Rule, next: Rule): RuleState {
    RuleState(if Leaves(previous, next) then None else s.control,
              s.unconfirmedRun,
              if Differs(previous, next) then 0 else s.nextDueMs)
  }

  /** The channel the rule holds, when it leaves it. */
  predicate LeavesBehind(s: RuleState, previous: Rule, next: Rule, d: Channel) {
    Leaves(previous, next) && Names(s, d)
  }

  lemma {:induction false} HandOverExact(c: Core, id: RuleId, held: Option<ControlHold>, previous: Option<Channel>)
    requires DuplicatesUnverified(c.book)
    requires held.Some? && previous.Some? ==> held.value.channel == previous.value
    ensures var c' := HandOver(c, id, held, previous);
            && c' == c.(book := c'.book, dirty := c'.dirty)
            && DuplicatesUnverified(c'.book)
            && forall d :: Owed(c'.book, d) <==> Owed(c.book, d) || (held.Some? && held.value.channel == d)
  {
    if held.Some? {
      QueueOwes(c.book, held.value.channel, id, c.ticks);
    }
  }

  lemma {:induction false} ChangeExact(c: Core, previous: Rule, next: Rule, saves: bool)
    requires DuplicatesUnverified(c.book)
    requires var s := StateOf(c.states, previous.id); s.control.Some? ==> s.control.value.channel == previous.target
    ensures var c' := ApplyRuleChange(c, previous, Between(previous, next), saves);
            && c' == c.(states := c'.states, book := c'.book, dirty := c'.dirty, disk := c'.disk)
            && DuplicatesUnverified(c'.book)
            && c'.states == (if previous.id in c.states
                             then c.states[previous.id := Edited(c.states[previous.id], previous, next)] else c.states)
            && forall d :: Owed(c'.book, d) <==>
                 Owed(c.book, d) || LeavesBehind(StateOf(c.states, previous.id), previous, next, d)
  {
    hide HandOver, Flush, DuplicatesUnverified, Owed;
    var change := Between(previous, next);
    var held := StateOf(c.states, previous.id).control;
    HandOverExact(c, previous.id, held, change.previousTarget);
    FlushKeeps(HandOver(c, previous.id, held, change.previousTarget), saves);
    var c' := ApplyRuleChange(c, previous, change, saves);
    if previous.id in c.states {
      assert c.states[previous.id := c.states[previous.id]] == c.states;
    }
  }

  // ------------------------------------------------------------------ saving

  /** Another enabled rule drives the target already. */
  predicate Taken(rules: seq<Rule>, rule: Rule) {
    rule.enabled && exists i | 0 <= i < |rules| ::
      rules[i].enabled && rules[i].id != rule.id && rules[i].target == rule.target
  }

  /** The rule the list held under that id, if there was one. */
  function Before(rules: seq<Rule>, id: RuleId): Option<Rule> {
    var i := FindRule(rules, id);
    if i < |rules| then Some(rules[i]) else None
  }

  /** The rule is listed, alone under its id, and every other rule is as it was. */
  ghost predicate Replaces(before: seq<Rule>, after: seq<Rule>, rule: Rule) {
    && rule in after
    && forall r :: r in after <==> r == rule || (r in before && r.id != rule.id)
  }

  /** What a save leaves, when it is accepted. */
  ghost predicate SavedAs(c: Core, after: Core, rule: Rule) {
    var s, previous := StateOf(c.states, rule.id), Before(c.rules, rule.id);
    && Replaces(c.rules, after.rules, rule)
    && StateOf(after.states, rule.id)
       == RuleState(if previous.Some? && Leaves(previous.value, rule) then None else s.control, s.unconfirmedRun, 0)
    && (forall id | id != rule.id :: StateOf(after.states, id) == StateOf(c.states, id))
    && (forall d :: Owed(after.book, d) <==>
          Owed(c.book, d) || (previous.Some? && LeavesBehind(s, previous.value, rule, d)))
  }

  /**
   * A save that passes its checks, on a target no other enabled rule drives, takes effect: the rule is
   * in force and due at once, what it left is owed, and nobody else is touched. Any other save changes
   * nothing at all.
   */
  lemma {:induction false} SaveTakesEffect(c: Core, rule: Rule, accepted: bool, saves: bool)
    requires Good(c)
    ensures var after := Save(c, rule, accepted, saves);
            if accepted && !Taken(c.rules, rule) then SavedAs(c, after, rule) else after == c
  {
    hide ApplyRuleChange, Between, SortRules, WithoutRule, Owed, DuplicatesUnverified, SortedRules, Unambiguous;
    if accepted && !Taken(c.rules, rule) {
      var rules := SortRules(WithoutRule(c.rules, rule.id) + [rule]);
      WithoutMembers(c.rules, rule.id);
      SortFacts(WithoutRule(c.rules, rule.id) + [rule]);
      var i := FindRule(c.rules, rule.id);
      var s := StateOf(c.states, rule.id);
      var c1 := c.(rules := rules, states := c.states[rule.id := s.(nextDueMs := 0)]);
      if i < |c.rules| {
        HeldIsTarget(c, rule.id);
        ChangeExact(c1, c.rules[i], rule, saves);
      } else {
        assert s.control.None? || NamesTarget(s, c.rules, rule.id);
      }
    }
  }

  lemma {:induction false} HeldIsTarget(c: Core, id: RuleId)
    requires Good(c) && FindRule(c.rules, id) < |c.rules|
    ensures var s := StateOf(c.states, id);
            s.control.Some? ==> s.control.value.channel == c.rules[FindRule(c.rules, id)].target
  {
    assert id in c.states && c.states[id].control.Some? ==> NamesTarget(c.states[id], c.rules, id);
  }

  // ------------------------------------------------------------------ switching and deleting

  /**
   * Switching a rule on or off takes effect whenever the store agrees and, to switch it on, its target
   * is free. A rule that was switched holds nothing any more, and what it held is owed.
   */
  lemma {:induction false} SwitchTakesEffect(c: Core, id: RuleId, enabled: bool, accepted: bool, saves: bool)
    requires Good(c)
    ensures var after := SetEnabled(c, id, enabled, accepted, saves);
            var i := FindRule(c.rules, id);
            if i < |c.rules| && accepted && !Taken(c.rules, c.rules[i].(enabled := enabled))
            then SavedAs(c, after, c.rules[i].(enabled := enabled)) else after == c
  {
    hide Save, SavedAs, Good;
    var i := FindRule(c.rules, id);
    if i < |c.rules| {
      SaveTakesEffect(c, c.rules[i].(enabled := enabled), accepted, saves);
      if enabled && !c.rules[i].enabled {
        assert Conflicts(c.rules, c.rules[i]) == Taken(c.rules, c.rules[i].(enabled := enabled));
      }
    }
  }

  /** Switching a rule off always works, and its channel is owed from then on. */
  lemma {:induction false} SwitchedOffHandsOver(c: Core, id: RuleId, saves: bool, d: Channel)
    requires Good(c) && FindRule(c.rules, id) < |c.rules| && c.rules[FindRule(c.rules, id)].enabled
    ensures var after := SetEnabled(c, id, false, true, saves);
            && (forall r | r in after.rules && r.id == id :: !r.enabled)
            && StateOf(after.states, id).control.None?
            && (Names(StateOf(c.states, id), d) ==> Owed(after.book, d))
  {
    hide SetEnabled, Good, Owed;
    SwitchTakesEffect(c, id, false, true, saves);
  }

  /** What a switched-off rule held is queued, in its name. */
  lemma {:induction false} SwitchedOffQueues(c: Core, id: RuleId, saves: bool)
    requires Good(c) && FindRule(c.rules, id) < |c.rules| && c.rules[FindRule(c.rules, id)].enabled
    requires StateOf(c.states, id).control.Some?
    ensures var after := SetEnabled(c, id, false, true, saves);
            && after.ticks == c.ticks
            && after.book == Queue(c.book, StateOf(c.states, id).control.value.channel, id, c.ticks)
  {
    hide SortRules, WithoutRule, Queue, BuildRecord;
    HeldIsTarget(c, id);
  }

  /**
   * Switching off a rule that holds a channel puts that channel to its fail-safe duty in the very next
   * cycle, when no other rule claims it and no stopped handover of it is on the books.
   */
  lemma {:induction false} SwitchedOffIsWritten(c: Core, id: RuleId, saves: bool, env: TickEnv, d: Channel)
    requires Good(c) && FindRule(c.rules, id) < |c.rules| && c.rules[FindRule(c.rules, id)].enabled
    requires Names(StateOf(c.states, id), d) && env.automation
    requires FirstItem(c.book, d).Some? ==> FirstItem(c.book, d).value.state.Pending?
    requires !Claimed(SetEnabled(c, id, false, true, saves).rules, d)
    ensures Writes(Tick(SetEnabled(c, id, false, true, saves), env).1, d)
  {
    hide SetEnabled, Tick, Claimed, VerifyRecovered, Good, Writes, DuplicatesUnverified;
    var after := SetEnabled(c, id, false, true, saves);
    SwitchedOffQueues(c, id, saves);
    QueuedIsDue(c.book, d, id, c.ticks);
    GoodBook(c);
    QueueOwes(c.book, d, id, c.ticks);
    LivesOn(after.(ticks := after.ticks + 1), env, d);
    WrittenExactly(after, env, d);
  }

  lemma {:induction false} GoodBook(c: Core)
    requires Good(c)
    ensures DuplicatesUnverified(c.book)
  {}

  /** A deleted rule is gone with its memory, what it held is owed, and nobody else is touched. */
  lemma {:induction false} DeleteTakesEffect(c: Core, id: RuleId, saves: bool)
    requires DuplicatesUnverified(c.book)
    ensures var after := Delete(c, id, saves);
            && (forall r :: r in after.rules <==> r in c.rules && r.id != id)
            && after.states == c.states - {id}
            && forall d :: Owed(after.book, d) <==> Owed(c.book, d) || Names(StateOf(c.states, id), d)
  {
    hide HandOver, Flush, DuplicatesUnverified, Owed;
    var held := StateOf(c.states, id).control;
    var c1 := c.(rules := WithoutRule(c.rules, id), states := c.states - {id});
    WithoutMembers(c.rules, id);
    HandOverExact(c1, id, held, None);
    FlushKeeps(HandOver(c1, id, held, None), saves);
  }

  // ------------------------------------------------------------------ reloading

  /** What a reload leaves of one rule's memory. */
  function Reloaded(c: Core, r: Rule): RuleState {
    var s, previous := StateOf(c.states, r.id), Before(c.rules, r.id);
    if previous.Some? then Edited(s, previous.value, r) else s
  }

  /** With these files a rule left the channel behind: its file names something else or switches it, or is gone. */
  ghost predicate LeftBehind(c: Core, report: seq<Rule>, d: Channel) {
    LeftByFiles(c, report, d) || exists r | r in c.rules :: LeftByRemoval(c, r, report, d)
  }

  ghost predicate LeftByFiles(c: Core, files: seq<Rule>, d: Channel) {
    exists r | r in files :: LeftByFile(c, r, d)
  }

  predicate LeftByFile(c: Core, r: Rule, d: Channel) {
    var previous := Before(c.rules, r.id);
    previous.Some? && LeavesBehind(StateOf(c.states, r.id), previous.value, r, d)
  }

  ghost predicate LeftByRemoval(c: Core, r: Rule, report: seq<Rule>, d: Channel) {
    Names(StateOf(c.states, r.id), d) && !HasRule(report, r.id)
  }

  lemma {:induction false} LeftByOneMore(c: Core, files: seq<Rule>, d: Channel)
    requires files != []
    ensures var n := |files| - 1;
            LeftByFiles(c, files, d) <==> LeftByFiles(c, files[..n], d) || LeftByFile(c, files[n], d)
  {
    hide LeftByFile;
    assert files == files[..|files| - 1] + [files[|files| - 1]];
  }

  /** The files applied so far have brought their rules' memory up to date, and the others wait. */
  ghost predicate PartlyLoaded(c: Core, start: Core, report: seq<Rule>, n: nat, c': Core)
    requires n <= |report|
  {
    && c' == start.(states := c'.states, book := c'.book, dirty := c'.dirty, disk := c'.disk)
    && c'.states.Keys == start.states.Keys
    && DuplicatesUnverified(c'.book)
    && (forall i | 0 <= i < |report| ::
          StateOf(c'.states, report[i].id) == if i < n then Reloaded(c, report[i]) else StateOf(c.states, report[i].id))
    && forall d :: Owed(c'.book, d) <==> Owed(c.book, d) || LeftByFiles(c, report[..n], d)
  }

  lemma {:induction false} FilesApplied(c: Core, start: Core, report: seq<Rule>, n: nat, saves: bool)
    requires Good(c) && DistinctIds(report) && n <= |report|
    requires start == c.(rules := start.rules, states := Retained(c.states, report))
    ensures PartlyLoaded(c, start, report, n, ApplyLoaded(start, c.rules, report[..n], saves))
  {
    hide Good, Reloaded, ApplyRuleChange, Between, Owed, DuplicatesUnverified, LeftByFiles, LeftByFile;
    if n == 0 {
      NoFileApplied(c, start, report);
    } else {
      FilesApplied(c, start, report, n - 1, saves);
      assert report[..n][..n - 1] == report[..n - 1];
      FileApplied(c, start, report, n - 1, ApplyLoaded(start, c.rules, report[..n - 1], saves), saves);
    }
  }

  lemma {:induction false} NoFileApplied(c: Core, start: Core, report: seq<Rule>)
    requires Good(c) && start == c.(rules := start.rules, states := Retained(c.states, report))
    ensures PartlyLoaded(c, start, report, 0, start)
  {
    assert forall i | 0 <= i < |report| :: report[i] in report && report[i].id in RuleIds(report);
  }

  lemma {:induction false} FileApplied(c: Core, start: Core, report: seq<Rule>, n: nat, b: Core, saves: bool)
    requires Good(c) && DistinctIds(report) && n < |report| && PartlyLoaded(c, start, report, n, b)
    requires start.states.Keys == RuleIds(report)
    ensures var i := FindRule(c.rules, report[n].id);
            PartlyLoaded(c, start, report, n + 1,
                         if i == |c.rules| then b
                         else ApplyRuleChange(b, c.rules[i], Between(c.rules[i], report[n]), saves))
  {
    hide ApplyRuleChange, Between, Owed, DuplicatesUnverified, LeftByFiles, Edited, FindRule;
    var i := FindRule(c.rules, report[n].id);
    var files := report[..n + 1];
    assert files[..n] == report[..n];
    forall d ensures LeftByFiles(c, files, d) <==> LeftByFiles(c, report[..n], d) || LeftByFile(c, report[n], d) {
      LeftByOneMore(c, files, d);
    }
    assert report[n] in report && report[n].id in RuleIds(report);
    assert StateOf(b.states, report[n].id) == StateOf(c.states, report[n].id);
    if i < |c.rules| {
      HeldIsTarget(c, report[n].id);
      ChangeExact(b, c.rules[i], report[n], saves);
      assert c.rules[i].id == report[n].id;
    }
  }

  lemma {:induction false} PreviousHoldsSound(rules: seq<Rule>, states: States)
    ensures forall h | h in PreviousHolds(rules, states) ::
              exists r :: r in rules && h.0 == r.id && StateOf(states, r.id).control == Some(h.1)
  {
    if rules != [] {
      PreviousHoldsSound(rules[1..], states);
      forall h | h in PreviousHolds(rules, states)
        ensures exists r :: r in rules && h.0 == r.id && StateOf(states, r.id).control == Some(h.1)
      {
        if h in PreviousHolds(rules[1..], states) {
          var r :| r in rules[1..] && h.0 == r.id && StateOf(states, r.id).control == Some(h.1);
          assert r in rules;
        } else {
          assert rules[0] in rules;
        }
      }
    }
  }

  ghost predicate Dropped(holds: seq<(RuleId, ControlHold)>, report: seq<Rule>, d: Channel) {
    exists h | h in holds :: !HasRule(report, h.0) && h.1.channel == d
  }

  lemma {:induction false} RemovedExact(c: Core, holds: seq<(RuleId, ControlHold)>, report: seq<Rule>)
    requires DuplicatesUnverified(c.book)
    ensures var c' := HandOverRemoved(c, holds, report);
            && c' == c.(book := c'.book, dirty := c'.dirty)
            && DuplicatesUnverified(c'.book)
            && forall d :: Owed(c'.book, d) <==> Owed(c.book, d) || Dropped(holds, report, d)
  {
    hide HandOver, HasRule, Owed, DuplicatesUnverified;
    if holds != [] {
      var n := |holds| - 1;
      RemovedExact(c, holds[..n], report);
      HandOverExact(HandOverRemoved(c, holds[..n], report), holds[n].0, Some(holds[n].1), None);
      assert holds == holds[..n] + [holds[n]];
      assert forall d :: Dropped(holds, report, d) <==>
        Dropped(holds[..n], report, d) || (!HasRule(report, holds[n].0) && holds[n].1.channel == d);
    }
  }

  lemma {:induction false} DroppedIsRemoval(c: Core, report: seq<Rule>, d: Channel)
    ensures Dropped(PreviousHolds(c.rules, c.states), report, d)
            <==> exists r | r in c.rules :: LeftByRemoval(c, r, report, d)
  {
    hide HasRule;
    PreviousHoldsSound(c.rules, c.states);
    var holds := PreviousHolds(c.rules, c.states);
    if Dropped(holds, report, d) {
      var h :| h in holds && !HasRule(report, h.0) && h.1.channel == d;
      var r :| r in c.rules && h.0 == r.id && StateOf(c.states, r.id).control == Some(h.1);
      assert LeftByRemoval(c, r, report, d);
    }
    if r :| r in c.rules && LeftByRemoval(c, r, report, d) {
      PreviousHoldsComplete(c.rules, c.states, r);
    }
  }

  /**
   * A reload, rule by rule, when the files have distinct ids. The list is what the files load to; each
   * rule with a file keeps its memory but for what the edit invalidates, and a rule without one loses
   * it. What is owed afterwards is what was owed, every channel some rule left behind, and, on the
   * first load of the process, what the record puts back.
   */
  lemma {:induction false} LoadTakesEffect(c: Core, report: seq<Rule>, saves: bool)
    requires Good(c) && DistinctIds(report)
    ensures var after := Load(c, report, saves);
            && after.rules == Loaded(report) && after.recovered
            && after.states.Keys == RuleIds(report)
            && (forall i | 0 <= i < |report| :: StateOf(after.states, report[i].id) == Reloaded(c, report[i]))
            && forall d :: Owed(after.book, d) <==>
                 || Owed(c.book, d) || LeftBehind(c, report, d)
                 || (!c.recovered && (Owed(after.disk.handovers, d) || Orphaned(after.rules, after.disk.holds, d)))
  {
    hide Good, Reloaded, ApplyLoaded, HandOverRemoved, Owed, DuplicatesUnverified, LeftByFiles, LeftByRemoval, Dropped,
         SortRules, ResolveConflicts, Recover, Orphaned;
    var c1 := c.(rules := SortRules(report), states := Retained(c.states, report));
    FilesApplied(c, c1, report, |report|, saves);
    assert report[..|report|] == report;
    var c2 := ApplyLoaded(c1, c.rules, report, saves);
    RemovedExact(c2, PreviousHolds(c.rules, c.states), report);
    forall d ensures Dropped(PreviousHolds(c.rules, c.states), report, d)
                     <==> exists r | r in c.rules :: LeftByRemoval(c, r, report, d) {
      DroppedIsRemoval(c, report, d);
    }
    var c3 := HandOverRemoved(c2, PreviousHolds(c.rules, c.states), report);
    var c3' := c3.(rules := Loaded(report));
    FlushKeeps(c3', saves);
    RecoverOwes(Flush(c3', saves).(recovered := true));
  }

  // ------------------------------------------------------------------ what the user and the shutdown record

  /** Recording on request, and on the way out: the record lists every open item, whatever it listed before. */
  lemma {:induction false} RecordsOnRequest(c: Core, d: Channel)
    ensures var persisted := Step(c, PersistState(true)).0;
            && (Owed(persisted.disk.handovers, d) <==> Owed(c.book, d)) && !persisted.dirty
    ensures var stopped := Step(c, Stop(true)).0;
            Owed(c.book, d) || c.dirty ==> (Owed(stopped.disk.handovers, d) <==> Owed(c.book, d)) && !stopped.dirty
  {}

  /** A reset forgets how many writes in a row were unconfirmed, and nothing else. */
  lemma {:induction false} ResetForgetsTheRow(c: Core, id: RuleId)
    ensures var after := Step(c, ResetStates).0;
            && after == c.(states := after.states)
            && StateOf(after.states, id) == StateOf(c.states, id).(unconfirmedRun := 0)
  {}
}
