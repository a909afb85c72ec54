/**
 * One owner per output, one writer per channel and cycle, and no handover closed without evidence.
 */
module Ownership {
  import opened Ids
  import opened Handovers
  import opened Engine
  import opened Rules
  import opened Responsibility

  // ------------------------------------------------------------------ one owner per output

  /** Placing a rule that conflicts with nobody. */
  lemma {:induction false} PlacedOwner(rest: seq<Rule>, rule: Rule, k: nat)
    requires OneOwner(rest) && k <= |rest|
    requires forall r | r in rest && r.enabled && rule.enabled :: r.target != rule.target
    ensures OneOwner(rest[..k] + [rule] + rest[k..])
  {
    var p := rest[..k] + [rule] + rest[k..];
    forall i, j | 0 <= i < j < |p| && p[i].enabled && p[j].enabled ensures p[i].target != p[j].target {
      assert i < k ==> p[i] == rest[i];
      assert i > k ==> p[i] == rest[i - 1];
      assert j < k ==> p[j] == rest[j];
      assert j > k ==> p[j] == rest[j - 1];
    }
  }

  lemma {:induction false} ReplaceKeepsOwner(rules: seq<Rule>, rule: Rule)
    requires OneOwner(rules) && (rule.enabled ==> !Conflicts(rules, rule)) && SortedRules(rules)
    ensures OneOwner(SortRules(WithoutRule(rules, rule.id) + [rule]))
  {
    var rest := WithoutRule(rules, rule.id);
    WithoutKeeps(rules, rule.id);
    WithoutMembers(rules, rule.id);
    var k := SortPlaces(rest, rule);
    PlacedOwner(rest, rule, k);
  }

  lemma {:induction false} LoadedListed(c: Core, previous: seq<Rule>, report: seq<Rule>, saves: bool)
    ensures ApplyLoaded(c, previous, report, saves).rules == c.rules
  {
    if report != [] {
      LoadedListed(c, previous, report[..|report| - 1], saves);
    }
  }

  lemma {:induction false} RemovedListed(c: Core, holds: seq<(RuleId, ControlHold)>, report: seq<Rule>)
    ensures HandOverRemoved(c, holds, report).rules == c.rules
  {
    if holds != [] {
      RemovedListed(c, holds[..|holds| - 1], report);
    }
  }

  lemma {:induction false} LoadListed(c: Core, report: seq<Rule>, saves: bool)
    ensures Load(c, report, saves).rules == Loaded(report)
  {
    var c1 := c.(rules := SortRules(report), states := Retained(c.states, report));
    LoadedListed(c1, c.rules, report, saves);
    RemovedListed(ApplyLoaded(c1, c.rules, report, saves), PreviousHolds(c.rules, c.states), report);
  }

  lemma {:induction false} SaveListed(c: Core, rule: Rule, accepted: bool, saves: bool)
    ensures Save(c, rule, accepted, saves).rules ==
            if !accepted || (rule.enabled && Conflicts(c.rules, rule)) then c.rules
            else SortRules(WithoutRule(c.rules, rule.id) + [rule])
  {}

  /** Sorted, and at most one enabled rule per target. */
  ghost predicate Owned(rules: seq<Rule>) {
    SortedRules(rules) && OneOwner(rules)
  }

  lemma {:induction false} SaveKeepsOwner(c: Core, rule: Rule, accepted: bool, saves: bool)
    requires Owned(c.rules)
    ensures Owned(Save(c, rule, accepted, saves).rules)
  {
    hide SortRules, WithoutRule, Conflicts, Queue, BuildRecord, Between, Invalidated;
    SaveListed(c, rule, accepted, saves);
    if accepted && !(rule.enabled && Conflicts(c.rules, rule)) {
      ReplaceKeepsOwner(c.rules, rule);
      SortFacts(WithoutRule(c.rules, rule.id) + [rule]);
    }
  }

  lemma {:induction false} StepKeepsOwner(c: Core, op: Op)
    requires Owned(c.rules)
    ensures Owned(Step(c, op).0.rules)
  {
    match op
    case LoadRules(report, saves) =>
      LoadListed(c, report, saves);
      LoadedFacts(report);
    case SaveRule(rule, accepted, saves) => SaveKeepsOwner(c, rule, accepted, saves);
    case SetRuleEnabled(id, enabled, accepted, saves) =>
      var i := FindRule(c.rules, id);
      if i < |c.rules| {
        SaveKeepsOwner(c, c.rules[i].(enabled := enabled), accepted, saves);
      }
    case DeleteRule(id, saves) => WithoutKeeps(c.rules, id);
    case DoTick(env) =>
    case _ =>
  }

  /** One owner per output, whatever the files say and whatever ids they share. */
  lemma {:induction false} OneOwnerPerOutput(disk: Record, ops: seq<Op>)
    ensures Owned(Run(disk, ops).rules)
  {
    if ops != [] {
      OneOwnerPerOutput(disk, ops[..|ops| - 1]);
      StepKeepsOwner(Run(disk, ops[..|ops| - 1]), ops[|ops| - 1]);
    }
  }

  // ------------------------------------------------------------------ which rule keeps a contested output

  /** No two different rules share an id. */
  ghost predicate NamedApart(rules: seq<Rule>) {
    forall r, q | r in rules && q in rules && r.id == q.id :: r == q
  }

  lemma {:induction false} HeadsAgree(a: seq<Rule>, b: seq<Rule>)
    requires SortedRules(a) && SortedRules(b) && multiset(a) == multiset(b) && NamedApart(a) && a != [] && b != []
    ensures a[0] == b[0]
  {
    assert a[0] in multiset(b) && b[0] in multiset(a);
    var i :| 0 <= i < |b| && b[i] == a[0];
    var j :| 0 <= j < |a| && a[j] == b[0];
    if a[0] != b[0] {
      assert RuleLeq(b[0], a[0]) && RuleLeq(a[0], b[0]);
      IdLeqAntisymmetric(a[0].id, b[0].id);
    }
  }

  lemma {:induction false} TailFacts(a: seq<Rule>)
    requires a != []
    ensures multiset(a[1..]) == multiset(a) - multiset{a[0]}
    ensures SortedRules(a) ==> SortedRules(a[1..])
    ensures NamedApart(a) ==> NamedApart(a[1..])
  {
    assert a == [a[0]] + a[1..];
    assert forall r | r in a[1..] :: r in a;
  }

  lemma {:induction false} SortedUnique(a: seq<Rule>, b: seq<Rule>)
    requires SortedRules(a) && SortedRules(b) && multiset(a) == multiset(b) && NamedApart(a)
    ensures a == b
  {
    hide SortedRules, NamedApart;
    assert |b| == |multiset(b)| == |multiset(a)| == |a|;
    if a != [] {
      HeadsAgree(a, b);
      TailFacts(a);
      TailFacts(b);
      SortedUnique(a[1..], b[1..]);
      assert a == [a[0]] + a[1..] && b == [b[0]] + b[1..];
    }
  }

  /** The order of the rule files does not matter: the same rules stay enabled. */
  lemma {:induction false} LoadIgnoresFileOrder(a: seq<Rule>, b: seq<Rule>)
    requires multiset(a) == multiset(b) && NamedApart(a)
    ensures Loaded(a) == Loaded(b)
  {
    SortFacts(a);
    SortFacts(b);
    SortedUnique(SortRules(a), SortRules(b));
  }

  /** In a sorted list without shared ids, the first enabled rule of a target precedes every other one. */
  lemma {:induction false} FirstMeansLeast(sorted: seq<Rule>, k: nat)
    requires SortedRules(sorted) && DistinctIds(sorted) && k < |sorted|
    ensures FirstOfTarget(sorted, k) <==>
            (forall q | q in sorted && q.enabled && q.target == sorted[k].target :: RuleLeq(sorted[k], q))
  {
    var r := sorted[k];
    RuleLeqTotal(r, r);
    if FirstOfTarget(sorted, k) {
      forall q | q in sorted && q.enabled && q.target == r.target ensures RuleLeq(r, q) {
        var j :| 0 <= j < |sorted| && sorted[j] == q;
        assert j >= k;
      }
    } else {
      var j :| 0 <= j < k && sorted[j].enabled && sorted[j].target == r.target;
      assert sorted[j] in sorted;
      if RuleLeq(r, sorted[j]) {
        assert RuleLeq(sorted[j], r);
        IdLeqAntisymmetric(r.id, sorted[j].id);
      }
    }
  }

  /** A rule of the sorted list is in the stood-down list exactly when it kept its mark. */
  lemma {:induction false} KeptMeansListed(sorted: seq<Rule>, done: seq<Rule>, k: nat)
    requires StoodDown(sorted, done) && DistinctIds(sorted) && k < |sorted| && sorted[k].enabled
    ensures sorted[k] in done <==> done[k].enabled
  {
    assert done[k] in done;
    assert forall i | 0 <= i < |done| && done[i] == sorted[k] :: sorted[i].id == sorted[k].id;
  }

  /**
   * Of the enabled rules that contest an output, exactly the one with the highest priority, and
   * among those the lowest id, stays enabled; nothing else about any rule changes.
   */
  lemma {:induction false} LoadKeepsHighestPriority(report: seq<Rule>, r: Rule)
    requires DistinctIds(report) && r in report
    ensures r.enabled ==>
      (r in Loaded(report) <==> forall q | q in report && q.enabled && q.target == r.target :: RuleLeq(r, q))
    ensures r in Loaded(report) || r.(enabled := false) in Loaded(report)
  {
    var sorted, done := SortRules(SortRules(report)), Loaded(report);
    SortFacts(report);
    SortFacts(SortRules(report));
    SortDistinct(report);
    SortDistinct(SortRules(report));
    LoadedFacts(report);
    var k :| 0 <= k < |sorted| && sorted[k] == r;
    assert done[k] in done;
    FirstMeansLeast(sorted, k);
    if r.enabled {
      KeptMeansListed(sorted, done, k);
    }
  }

  // ------------------------------------------------------------------ one writer per channel and cycle

  /** The event is a write of the rule whose turn `n` is, to the channel it alone may drive this cycle. */
  ghost predicate WrittenOnTurn(rules: seq<Rule>, e: Event, n: nat) {
    && n < |rules| && rules[n].enabled && !ClaimedBefore(rules, n)
    && !e.HandoverWrite? && e.rule == rules[n].id && e.channel == rules[n].target
  }

  lemma {:induction false} RuleEventsHaveTurns(c: Core, n: nat, env: TickEnv)
    requires n <= |c.rules|
    ensures forall e | e in RunRules(c, n, env).1 :: exists k | 0 <= k < n :: WrittenOnTurn(c.rules, e, k)
  {
    if n > 0 {
      RuleEventsHaveTurns(c, n - 1, env);
      var (c1, events) := RunRules(c, n - 1, env);
      RuleTurnShape(c1, n - 1, env);
      var events1 := RuleTurn(c1, n - 1, env).1;
      forall e | e in RunRules(c, n, env).1 ensures exists k | 0 <= k < n :: WrittenOnTurn(c.rules, e, k) {
        if e in events {
          var k :| 0 <= k < n - 1 && WrittenOnTurn(c.rules, e, k);
        } else {
          assert e in events1;
          assert WrittenOnTurn(c.rules, e, n - 1);
        }
      }
    }
  }

  lemma {:induction false} HandoverEventsUnclaimed(rules: seq<Rule>, states: States, book: Book, items: Book, tick: nat,
                                                   results: nat -> WriteResult)
    ensures forall e | e in HandoverPass(rules, states, book, items, tick, results).1 ::
              e.HandoverWrite? && Claimant(rules, e.channel) == |rules|
  {
    if items != [] {
      HandoverEventsUnclaimed(rules, states, book, items[..|items| - 1], tick, results);
    }
  }

  predicate SameWriter(e: Event, f: Event) {
    (e.HandoverWrite? && f.HandoverWrite?) || (!e.HandoverWrite? && !f.HandoverWrite? && e.rule == f.rule)
  }

  lemma {:induction false} SameTurn(rules: seq<Rule>, e: Event, n: nat, f: Event, m: nat)
    requires WrittenOnTurn(rules, e, n) && WrittenOnTurn(rules, f, m) && e.channel == f.channel
    ensures n == m
  {}

  /** Handovers write channels no enabled rule targets; rules write channels they target. */
  lemma {:induction false} WhoWrites(c: Core, env: TickEnv, e: Event)
    requires e in Tick(c, env).1
    ensures e.HandoverWrite? <==> Claimant(c.rules, e.channel) == |c.rules|
    ensures !e.HandoverWrite? ==> exists n | 0 <= n < |c.rules| :: WrittenOnTurn(c.rules, e, n)
  {
    var c0 := c.(ticks := c.ticks + 1);
    var c1 := VerifyRecovered(c0, env);
    HandoverEventsUnclaimed(c1.rules, c1.states, c1.book, c1.book, c.ticks, env.handover);
    var (c2, events) := PerformHandovers(c0, env, c.ticks);
    RuleEventsHaveTurns(c2, |c2.rules|, env);
    if e !in events {
      var n :| 0 <= n < |c2.rules| && WrittenOnTurn(c2.rules, e, n);
      assert c.rules[n].enabled && c.rules[n].target == e.channel;
    }
  }

  /**
   * One writer per channel and cycle, even when the active set breaks the ownership rule: two
   * writes of one cycle to one channel were made by the same rule, or both by a handover.
   */
  lemma {:induction false} OneWriterPerCycle(c: Core, env: TickEnv, e: Event, f: Event)
    requires e in Tick(c, env).1 && f in Tick(c, env).1 && e.channel == f.channel
    ensures SameWriter(e, f)
  {
    WhoWrites(c, env, e);
    WhoWrites(c, env, f);
    if !e.HandoverWrite? {
      var n :| 0 <= n < |c.rules| && WrittenOnTurn(c.rules, e, n);
      var m :| 0 <= m < |c.rules| && WrittenOnTurn(c.rules, f, m);
      SameTurn(c.rules, e, n, f, m);
    }
  }

  // ------------------------------------------------------------------ the book grows

  /** Nothing owed in `a` is forgotten in `b`, and duplicates in `b` are unverified. */
  ghost predicate BookGrows(a: Book, b: Book) {
    DuplicatesUnverified(b) && forall d :: Owed(a, d) ==> Owed(b, d)
  }

  lemma {:induction false} ChangeGrows(c: Core, previous: Rule, change: RuleChange, saves: bool)
    requires DuplicatesUnverified(c.book)
    ensures BookGrows(c.book, ApplyRuleChange(c, previous, change, saves).book)
  {
    hide HandOver, Flush, DuplicatesUnverified, Owed;
    var held := StateOf(c.states, previous.id).control;
    HandOverKeeps(c, previous.id, held, change.previousTarget);
    FlushKeeps(HandOver(c, previous.id, held, change.previousTarget), saves);
  }

  lemma {:induction false} LoadedGrows(c: Core, previous: seq<Rule>, report: seq<Rule>, saves: bool)
    requires DuplicatesUnverified(c.book)
    ensures BookGrows(c.book, ApplyLoaded(c, previous, report, saves).book)
  {
    hide ApplyRuleChange, Between, DuplicatesUnverified, Owed;
    if report != [] {
      var n := |report| - 1;
      LoadedGrows(c, previous, report[..n], saves);
      var i := FindRule(previous, report[n].id);
      if i < |previous| {
        ChangeGrows(ApplyLoaded(c, previous, report[..n], saves), previous[i], Between(previous[i], report[n]), saves);
      }
    }
  }

  lemma {:induction false} LoadGrows(c: Core, report: seq<Rule>, saves: bool)
    requires DuplicatesUnverified(c.book)
    ensures BookGrows(c.book, Load(c, report, saves).book)
  {
    hide ApplyLoaded, HandOverRemoved, Recover, DuplicatesUnverified, Owed, SortRules, ResolveConflicts;
    var c1 := c.(rules := SortRules(report), states := Retained(c.states, report));
    LoadedGrows(c1, c.rules, report, saves);
    var c2 := ApplyLoaded(c1, c.rules, report, saves);
    RemovedKeeps(c2, PreviousHolds(c.rules, c.states), report);
    var c3 := HandOverRemoved(c2, PreviousHolds(c.rules, c.states), report);
    var c3' := c3.(rules := ResolveConflicts(SortRules(c3.rules)));
    FlushKeeps(c3', saves);
    RecoverOwes(Flush(c3', saves).(recovered := true));
  }

  lemma {:induction false} SaveGrows(c: Core, rule: Rule, accepted: bool, saves: bool)
    requires DuplicatesUnverified(c.book)
    ensures BookGrows(c.book, Save(c, rule, accepted, saves).book)
  {
    hide ApplyRuleChange, Between, DuplicatesUnverified, Owed, SortRules, WithoutRule, Conflicts;
    var i := FindRule(c.rules, rule.id);
    if i < |c.rules| {
      var c1 := c.(
        rules := SortRules(WithoutRule(c.rules, rule.id) + [rule]),
        states := c.states[rule.id := StateOf(c.states, rule.id).(nextDueMs := 0)]);
      ChangeGrows(c1, c.rules[i], Between(c.rules[i], rule), saves);
    }
  }

  lemma {:induction false} DeleteGrows(c: Core, id: RuleId, saves: bool)
    requires DuplicatesUnverified(c.book)
    ensures BookGrows(c.book, Delete(c, id, saves).book)
  {
    hide HandOver, Flush, DuplicatesUnverified, Owed;
    var held := StateOf(c.states, id).control;
    var c1 := c.(rules := WithoutRule(c.rules, id), states := c.states - {id});
    HandOverKeeps(c1, id, held, None);
    FlushKeeps(HandOver(c1, id, held, None), saves);
  }

  lemma {:induction false} ReviewGrows(c: Core, op: Op)
    requires DuplicatesUnverified(c.book)
    requires op.VerifyState? || op.RetryAll? || op.RetryOne?
    ensures BookGrows(c.book, Step(c, op).0.book)
  {
    match op
    case VerifyState(env) => VerifyKeeps(c, env);
    case RetryAll =>
      RearmKeeps(c.book, c.ticks);
      SameItemsOwed(c.book, RetryFailed(c.book, c.ticks));
    case RetryOne(channel) => FirstTouchedKeeps(c.book, RetryFailedOne(c.book, channel, c.ticks), channel);
  }

  lemma {:induction false} RunRulesBook(c: Core, n: nat, env: TickEnv)
    requires n <= |c.rules|
    ensures RunRules(c, n, env).0.book == c.book
  {
    hide RuleTurn;
    if n > 0 {
      RunRulesBook(c, n - 1, env);
      RuleTurnShape(RunRules(c, n - 1, env).0, n - 1, env);
    }
  }

  lemma {:induction false} CycleKeepsDuplicates(c: Core, env: TickEnv)
    requires DuplicatesUnverified(c.book)
    ensures DuplicatesUnverified(Tick(c, env).0.book)
  {
    hide VerifyRecovered, HandoverPass, RunRules, DuplicatesUnverified, BuildRecord;
    var c0 := c.(ticks := c.ticks + 1);
    VerifyKeeps(c0, env);
    var c1 := VerifyRecovered(c0, env);
    HandoverPassKeeps(c1.rules, c1.states, c1.book, c1.book, c.ticks, env.handover, {});
    var c2 := PerformHandovers(c0, env, c.ticks).0;
    RunRulesBook(c2, |c2.rules|, env);
  }

  /** Outside a cycle nothing leaves the book, whatever the files and the ids. */
  lemma {:induction false} StepGrows(c: Core, op: Op)
    requires DuplicatesUnverified(c.book)
    ensures DuplicatesUnverified(Step(c, op).0.book)
    ensures !op.DoTick? && !op.Crash? ==> BookGrows(c.book, Step(c, op).0.book)
  {
    hide Load, Save, Delete, Tick, VerifyRecovered, RetryFailedOne, Owed;
    match op
    case LoadRules(report, saves) => LoadGrows(c, report, saves);
    case SaveRule(rule, accepted, saves) => SaveGrows(c, rule, accepted, saves);
    case SetRuleEnabled(id, enabled, accepted, saves) =>
      var i := FindRule(c.rules, id);
      if i < |c.rules| {
        SaveGrows(c, c.rules[i].(enabled := enabled), accepted, saves);
      }
    case DeleteRule(id, saves) => DeleteGrows(c, id, saves);
    case DoTick(env) => CycleKeepsDuplicates(c, env);
    case VerifyState(_) => ReviewGrows(c, op);
    case RetryAll => ReviewGrows(c, op);
    case RetryOne(_) => ReviewGrows(c, op);
    case ResetStates =>
    case PersistState(saves) =>
    case Stop(saves) =>
    case Crash =>
  }

  /** In every reachable state, only the first item of a channel can be anything but unverified. */
  lemma {:induction false} RunDuplicates(disk: Record, ops: seq<Op>)
    ensures DuplicatesUnverified(Run(disk, ops).book)
  {
    hide Step, DuplicatesUnverified;
    if ops != [] {
      var n := |ops| - 1;
      RunDuplicates(disk, ops[..n]);
      StepGrows(Run(disk, ops[..n]), ops[n]);
    } else {
      NoDuplicates();
    }
  }

  lemma {:induction false} NoDuplicates()
    ensures DuplicatesUnverified([])
  {}

  // ------------------------------------------------------------------ evidence

  lemma {:induction false} PassOwed(rules: seq<Rule>, states: States, book: Book, items: Book, tick: nat,
                                    results: nat -> WriteResult)
    requires DuplicatesUnverified(book)
    ensures var (b, events) := HandoverPass(rules, states, book, items, tick, results);
            forall d | Owed(book, d) && !Owed(b, d) ::
              ConfirmedOwner(rules, states, d) || exists e | e in events :: Confirms(e) && e.channel == d
  {
    HandoverPassKeeps(rules, states, book, items, tick, results, {});
  }

  /**
   * A handover closes only on evidence: a channel that was owed and is not owed after an
   * operation was owned, when the cycle began, by an enabled rule with a confirmed value for it,
   * or the device confirmed a fail-safe write to it during that very cycle.
   */
  lemma {:induction false} HandoverClosesOnEvidence(c: Core, op: Op, d: Channel)
    requires DuplicatesUnverified(c.book) && !op.Crash?
    requires Owed(c.book, d) && !Owed(Step(c, op).0.book, d)
    ensures op.DoTick?
    ensures ConfirmedOwner(c.rules, c.states, d) || exists e | e in Step(c, op).1 :: Confirms(e) && e.channel == d
  {
    hide Owed, Tick, DuplicatesUnverified;
    StepGrows(c, op);
    if op.DoTick? {
      TickClosesOnEvidence(c, op.env, d);
    }
  }

  /** So in every reachable state, across crashes, whatever the files and the ids. */
  lemma {:induction false} RunsCloseOnEvidence(disk: Record, ops: seq<Op>, op: Op, d: Channel)
    requires !op.Crash?
    requires var c := Run(disk, ops); Owed(c.book, d) && !Owed(Step(c, op).0.book, d)
    ensures var c := Run(disk, ops);
            && op.DoTick?
            && (ConfirmedOwner(c.rules, c.states, d) || exists e | e in Step(c, op).1 :: Confirms(e) && e.channel == d)
  {
    RunDuplicates(disk, ops);
    HandoverClosesOnEvidence(Run(disk, ops), op, d);
  }

  lemma {:induction false} PerformOwed(c: Core, env: TickEnv, tick: nat, d: Channel)
    requires DuplicatesUnverified(c.book) && Owed(c.book, d) && !Owed(PerformHandovers(c, env, tick).0.book, d)
    ensures ConfirmedOwner(c.rules, c.states, d) ||
            exists e | e in PerformHandovers(c, env, tick).1 :: Confirms(e) && e.channel == d
  {
    VerifyKeeps(c, env);
    var c1 := VerifyRecovered(c, env);
    PassOwed(c1.rules, c1.states, c1.book, c1.book, tick, env.handover);
  }

  lemma {:induction false} TickClosesOnEvidence(c: Core, env: TickEnv, d: Channel)
    requires DuplicatesUnverified(c.book) && Owed(c.book, d) && !Owed(Tick(c, env).0.book, d)
    ensures ConfirmedOwner(c.rules, c.states, d) || exists e | e in Tick(c, env).1 :: Confirms(e) && e.channel == d
  {
    hide RunRules, ConfirmedOwner, BuildRecord, Confirms;
    var c0 := c.(ticks := c.ticks + 1);
    var (c1, events) := PerformHandovers(c0, env, c.ticks);
    RunRulesBook(c1, |c1.rules|, env);
    PerformOwed(c0, env, c.ticks, d);
    if !ConfirmedOwner(c.rules, c.states, d) {
      var e :| e in events && Confirms(e) && e.channel == d;
      assert e in Tick(c, env).1;
    }
  }

  // ------------------------------------------------------------------ how often a handover writes

  /** Nothing more will be written to `c` this cycle by the items still to come. */
  predicate Quiet(book: Book, c: Channel, tick: nat) {
    var i := Find(book, c);
    i < |book| ==>
      match book[i].state
      case Pending => book[i].nextAttemptTick > tick
      case NeedsVerification => true
      case AwaitingOwner => false
      case Failed => !book[i].parkedByClaim
  }

  /** The device confirmed a number, so the handover is settled. */
  predicate Settles(result: WriteResult) {
    result.Applied? && result.value.Some?
  }

  /** The item's attempt is due and is its last, and the item still carries the mark of a claim. */
  predicate LastMarked(h: Handover, tick: nat) {
    && h.state.Pending? && h.parkedByClaim
    && tick >= h.nextAttemptTick && h.attempts + 1 >= MAX_HANDOVER_ATTEMPTS
  }

  /** Spending the last attempt of a marked item leaves it failed and marked, as if a claim had just parked it. */
  predicate Spends(h: Handover, tick: nat, result: WriteResult) {
    LastMarked(h, tick) && !Settles(result)
  }

  predicate Writes(events: seq<Event>, c: Channel) {
    exists i | 0 <= i < |events| :: events[i].channel == c
  }

  /** Two items of different channels do not disturb each other. */
  lemma {:induction false} OtherChannelFinds(a: Book, b: Book, c: Channel, d: Channel)
    requires c != d && FirstTouched(a, b, d)
    ensures Find(b, c) == Find(a, c) && (Find(a, c) < |a| ==> b[Find(a, c)] == a[Find(a, c)])
  {
    if Find(a, c) < |a| && Find(a, c) == Find(a, d) { assert false; }
  }

  /** The first item for `c` is the same in both books. */
  ghost predicate SameFirst(a: Book, b: Book, c: Channel) {
    && (Find(a, c) < |a| <==> Find(b, c) < |b|)
    && (Find(a, c) < |a| ==> b[Find(b, c)] == a[Find(a, c)])
  }

  lemma {:induction false} SettleFinds(a: Book, c: Channel, d: Channel)
    requires c != d
    ensures SameFirst(a, Settle(a, d), c)
  {
    hide Find;
    var b := Settle(a, d);
    var i, k := Find(a, d), Find(a, c);
    if i < |a| {
      var from := (j: int) => if j < i then j else j + 1;
      assert forall j | 0 <= j < |b| :: b[j] == a[from(j)];
      if k < |a| {
        var at := if k < i then k else k - 1;
        assert b[at] == a[k];
        FindIs(b, c, at);
      } else {
        FindIs(b, c, |b|);
      }
    }
  }

  lemma {:induction false} ClaimedItemLeavesOthers(book: Book, c: Channel, d: Channel)
    requires c != d
    ensures SameFirst(book, MarkAwaiting(book, d).0, c)
    ensures SameFirst(book, ParkUnmetClaim(MarkAwaiting(book, d).0, d), c)
  {
    var b1 := MarkAwaiting(book, d).0;
    MarkAwaitingTouches(book, d);
    OtherChannelFinds(book, b1, c, d);
    ParkTouches(b1, d);
    OtherChannelFinds(b1, ParkUnmetClaim(b1, d), c, d);
  }

  lemma {:induction false} UnclaimedItemLeavesOthers(book: Book, c: Channel, d: Channel, tick: nat)
    requires c != d
    ensures SameFirst(book, ReleaseClaim(book, d, tick).0, c)
    ensures SameFirst(book, RecordAttempt(book, d, tick), c)
    ensures SameFirst(book, Settle(book, d), c)
  {
    ReleaseTouches(book, d, tick);
    OtherChannelFinds(book, ReleaseClaim(book, d, tick).0, c, d);
    RecordTouches(book, d, tick);
    OtherChannelFinds(book, RecordAttempt(book, d, tick), c, d);
    SettleFinds(book, c, d);
  }

  lemma {:induction false} AttemptLeavesOthers(book: Book, h: Handover, tick: nat, result: WriteResult, c: Channel)
    requires h.channel != c
    ensures SameFirst(book, Attempt(book, h, tick, result).0, c)
  {
    var d := h.channel;
    var b := if h.state.Pending? then book else ReleaseClaim(book, d, tick).0;
    UnclaimedItemLeavesOthers(book, c, d, tick);
    UnclaimedItemLeavesOthers(b, c, d, tick);
  }

  lemma {:induction false} ItemLeavesOthers(rules: seq<Rule>, states: States, book: Book, h: Handover, tick: nat,
                                            result: WriteResult, c: Channel)
    requires h.channel != c
    ensures SameFirst(book, HandoverItem(rules, states, book, h, tick, result).0, c)
    ensures !Writes(HandoverItem(rules, states, book, h, tick, result).1, c)
  {
    var d := h.channel;
    if ConfirmedOwner(rules, states, d) {
      SettleFinds(book, c, d);
    } else if Claimant(rules, d) < |rules| {
      ClaimedItemLeavesOthers(book, c, d);
    } else {
      AttemptLeavesOthers(book, h, tick, result, c);
    }
  }

  /** A quiet channel is not written, and stays quiet. */
  lemma {:induction false} QuietItem(rules: seq<Rule>, states: States, book: Book, h: Handover, tick: nat,
                                     result: WriteResult)
    requires Claimant(rules, h.channel) == |rules| && Quiet(book, h.channel, tick)
    ensures HandoverItem(rules, states, book, h, tick, result) == (book, [])
  {}

  /** A settled item leaves the channel quiet: what remains of it is unverified. */
  lemma {:induction false} SettledIsQuiet(b: Book, c: Channel, tick: nat)
    requires DuplicatesUnverified(b) && Find(b, c) < |b|
    ensures Quiet(Settle(b, c), c, tick)
  {
    var i, s := Find(b, c), Settle(b, c);
    var k := Find(s, c);
    assert forall j | 0 <= j < i :: s[j] == b[j];
    if k < |s| {
      assert k >= i;
      assert s[k] == b[k + 1];
    }
  }

  lemma {:induction false} RecordedIsQuiet(b: Book, c: Channel, tick: nat)
    requires Find(b, c) < |b| && b[Find(b, c)].state.Pending?
    requires !b[Find(b, c)].parkedByClaim || b[Find(b, c)].attempts + 1 < MAX_HANDOVER_ATTEMPTS
    ensures Quiet(RecordAttempt(b, c, tick), c, tick)
  {
    var r := RecordAttempt(b, c, tick);
    assert forall j | 0 <= j < Find(b, c) :: r[j] == b[j];
    FindIs(r, c, Find(b, c));
  }

  /** After its write an item is quiet, unless it spent its last attempt with the mark of a claim. */
  lemma {:induction false} WrittenItemIsQuiet(book: Book, h: Handover, tick: nat, result: WriteResult)
    requires DuplicatesUnverified(book) && !Spends(h, tick, result)
    requires Find(book, h.channel) < |book| && book[Find(book, h.channel)] == h
    ensures Quiet(Attempt(book, h, tick, result).0, h.channel, tick)
    ensures |Attempt(book, h, tick, result).1| <= 1
  {
    var c := h.channel;
    var b := if h.state.Pending? then book else ReleaseClaim(book, c, tick).0;
    ReleaseTouches(book, c, tick);
    FirstTouchedKeeps(book, ReleaseClaim(book, c, tick).0, c);
    assert forall j | 0 <= j < Find(book, c) :: b[j].channel == book[j].channel;
    assert Find(b, c) == Find(book, c);
    if IsDue(b, c, tick) {
      if Settles(result) {
        SettledIsQuiet(b, c, tick);
      } else {
        RecordedIsQuiet(b, c, tick);
      }
    }
  }

  ghost predicate AtMostOnce(events: seq<Event>, c: Channel) {
    forall i, j | 0 <= i < |events| && 0 <= j < |events| && events[i].channel == c && events[j].channel == c :: i == j
  }

  lemma {:induction false} QuietCarries(a: Book, b: Book, c: Channel, tick: nat)
    requires SameFirst(a, b, c)
    ensures Quiet(a, c, tick) <==> Quiet(b, c, tick)
  {}

  predicate Mentions(items: Book, c: Channel) {
    exists i | 0 <= i < |items| :: items[i].channel == c
  }

  /** Items of other channels leave the first item of `c` alone, and do not write it. */
  lemma {:induction false} PassLeavesOthers(rules: seq<Rule>, states: States, book: Book, items: Book, tick: nat,
                                            results: nat -> WriteResult, c: Channel)
    requires !Mentions(items, c)
    ensures var (b, events) := HandoverPass(rules, states, book, items, tick, results);
            SameFirst(book, b, c) && !Writes(events, c)
  {
    if items != [] {
      var n := |items| - 1;
      PassLeavesOthers(rules, states, book, items[..n], tick, results, c);
      var (b, events) := HandoverPass(rules, states, book, items[..n], tick, results);
      ItemLeavesOthers(rules, states, b, items[n], tick, results(n), c);
    }
  }

  lemma {:induction false} OnceMore(events: seq<Event>, more: seq<Event>, c: Channel)
    requires AtMostOnce(events, c) && AtMostOnce(more, c) && (!Writes(events, c) || !Writes(more, c))
    ensures AtMostOnce(events + more, c)
  {
    var all := events + more;
    forall i, j | 0 <= i < |all| && 0 <= j < |all| && all[i].channel == c && all[j].channel == c ensures i == j {
      assert i >= |events| ==> all[i] == more[i - |events|];
      assert j >= |events| ==> all[j] == more[j - |events|];
    }
  }

  /** One more item: the first one for `c` may write, later ones find the channel quiet. */
  lemma {:induction false} ItemWritesOnce(rules: seq<Rule>, states: States, book: Book, b: Book, earlier: Book,
                                          h: Handover, tick: nat, result: WriteResult, c: Channel)
    requires DuplicatesUnverified(b) && Claimant(rules, c) == |rules|
    requires Mentions(earlier, c) ==> Quiet(b, c, tick)
    requires h.channel == c && !Mentions(earlier, c) ==>
      Find(b, c) < |b| && b[Find(b, c)] == h && !Spends(h, tick, result)
    ensures var (b1, events1) := HandoverItem(rules, states, b, h, tick, result);
            && AtMostOnce(events1, c)
            && (Mentions(earlier, c) ==> !Writes(events1, c))
            && (Mentions(earlier, c) || h.channel == c ==> Quiet(b1, c, tick))
  {
    if h.channel != c {
      ItemLeavesOthers(rules, states, b, h, tick, result, c);
      QuietCarries(b, HandoverItem(rules, states, b, h, tick, result).0, c, tick);
    } else if Mentions(earlier, c) {
      QuietItem(rules, states, b, h, tick, result);
    } else {
      WrittenItemIsQuiet(b, h, tick, result);
      assert !ConfirmedOwner(rules, states, c);
    }
  }

  /** The first item of `c` in the book is the first one the pass meets, as the pass began. */
  lemma {:induction false} FirstMet(rules: seq<Rule>, states: States, book: Book, items: Book, tick: nat,
                                    results: nat -> WriteResult, c: Channel)
    requires items <= book && items != []
    requires items[|items| - 1].channel == c && !Mentions(items[..|items| - 1], c)
    ensures var n := |items| - 1;
            var b := HandoverPass(rules, states, book, items[..n], tick, results).0;
            Find(book, c) == n && Find(b, c) < |b| && b[Find(b, c)] == items[n]
  {
    var n := |items| - 1;
    assert forall j | 0 <= j < n :: book[j] == items[..n][j];
    FindIs(book, c, n);
    PassLeavesOthers(rules, states, book, items[..n], tick, results, c);
  }

  lemma {:induction false} PassWritesOnce(rules: seq<Rule>, states: States, book: Book, items: Book, tick: nat,
                                          results: nat -> WriteResult, c: Channel)
    requires DuplicatesUnverified(book) && items <= book
    requires Claimant(rules, c) == |rules|
    requires var i := Find(book, c); i < |book| ==> !Spends(book[i], tick, results(i))
    ensures var (b, events) := HandoverPass(rules, states, book, items, tick, results);
            && AtMostOnce(events, c)
            && (Writes(events, c) ==> Mentions(items, c))
            && (Mentions(items, c) ==> Quiet(b, c, tick))
  {
    hide DuplicatesUnverified, Find, Claimant, Spends;
    if items != [] {
      var n := |items| - 1;
      var earlier, h := items[..n], items[n];
      PassWritesOnce(rules, states, book, earlier, tick, results, c);
      PassKeepsUnverified(rules, states, book, earlier, tick, results);
      var (b, events) := HandoverPass(rules, states, book, earlier, tick, results);
      if h.channel == c && !Mentions(earlier, c) {
        FirstMet(rules, states, book, items, tick, results, c);
      }
      ItemWritesOnce(rules, states, book, b, earlier, h, tick, results(n), c);
      OnceMore(events, HandoverItem(rules, states, b, h, tick, results(n)).1, c);
      MentionsMore(items, c);
    }
  }

  lemma {:induction false} MentionsMore(items: Book, c: Channel)
    requires items != []
    ensures Mentions(items, c) <==> Mentions(items[..|items| - 1], c) || items[|items| - 1].channel == c
  {
    var earlier := items[..|items| - 1];
    if Mentions(earlier, c) {
      var i :| 0 <= i < |earlier| && earlier[i].channel == c;
      assert items[i].channel == c;
    }
    if Mentions(items, c) {
      var i :| 0 <= i < |items| && items[i].channel == c;
      assert i < |earlier| ==> earlier[i].channel == c;
    }
  }

  lemma {:induction false} PassKeepsUnverified(rules: seq<Rule>, states: States, book: Book, items: Book, tick: nat,
                                               results: nat -> WriteResult)
    requires DuplicatesUnverified(book)
    ensures DuplicatesUnverified(HandoverPass(rules, states, book, items, tick, results).0)
  {
    HandoverPassKeeps(rules, states, book, items, tick, results, {});
  }

  /** Rules do not write a channel no enabled rule targets. */
  lemma {:induction false} UnclaimedByRules(c: Core, env: TickEnv, d: Channel)
    requires Claimant(c.rules, d) == |c.rules|
    ensures !Writes(RunRules(c, |c.rules|, env).1, d)
  {
    RuleEventsHaveTurns(c, |c.rules|, env);
    var events := RunRules(c, |c.rules|, env).1;
    forall i | 0 <= i < |events| ensures events[i].channel != d {
      assert events[i] in events;
      var n :| 0 <= n < |c.rules| && WrittenOnTurn(c.rules, events[i], n);
      assert c.rules[n].enabled && c.rules[n].target == events[i].channel;
    }
  }

  // ------------------------------------------------------------------ when a channel is written twice

  /** The first item naming the channel is failed and marked: the next item naming it would be written. */
  predicate Primed(book: Book, c: Channel) {
    var i := Find(book, c);
    i < |book| && book[i].state.Failed? && book[i].parkedByClaim
  }

  /** A marked item that spends its last attempt writes once and leaves the channel primed. */
  lemma {:induction false} SpendingPrimes(rules: seq<Rule>, states: States, book: Book, h: Handover, tick: nat,
                                          result: WriteResult)
    requires Claimant(rules, h.channel) == |rules| && Spends(h, tick, result)
    requires Find(book, h.channel) < |book| && book[Find(book, h.channel)] == h
    ensures var (b, events) := HandoverItem(rules, states, book, h, tick, result);
            events == [HandoverWrite(h.channel, result)] && Primed(b, h.channel)
  {
    var c := h.channel;
    var r := RecordAttempt(book, c, tick);
    assert forall j | 0 <= j < Find(book, c) :: r[j] == book[j];
    FindIs(r, c, Find(book, c));
  }

  /** An unverified item of a primed channel is written. */
  lemma {:induction false} PrimedIsWritten(rules: seq<Rule>, states: States, book: Book, h: Handover, tick: nat,
                                           result: WriteResult)
    requires Claimant(rules, h.channel) == |rules| && h.state.NeedsVerification? && Primed(book, h.channel)
    ensures HandoverItem(rules, states, book, h, tick, result).1 == [HandoverWrite(h.channel, result)]
  {
    var c := h.channel;
    var b := ReleaseClaim(book, c, tick).0;
    assert forall j | 0 <= j < Find(book, c) :: b[j] == book[j];
    FindIs(b, c, Find(book, c));
  }

  /** The items up to the next one that names the channel: one write, and the channel is primed. */
  lemma {:induction false} PassPrimes(rules: seq<Rule>, states: States, book: Book, items: Book, tick: nat,
                                      results: nat -> WriteResult, c: Channel)
    requires Claimant(rules, c) == |rules| && items <= book
    requires var i := Find(book, c);
             && i < |items| && Spends(book[i], tick, results(i))
             && forall j | i < j < |items| :: items[j].channel != c
    ensures var (b, events) := HandoverPass(rules, states, book, items, tick, results);
            Primed(b, c) && AtMostOnce(events, c) && Writes(events, c)
  {
    hide HandoverItem, Find, Primed, Spends, AtMostOnce, Writes, ConfirmedOwner, Claimant;
    var n, i := |items| - 1, Find(book, c);
    var earlier, h := items[..n], items[n];
    var (b, events) := HandoverPass(rules, states, book, earlier, tick, results);
    var events1 := HandoverItem(rules, states, b, h, tick, results(n)).1;
    if n == i {
      assert !Mentions(earlier, c);
      PassLeavesOthers(rules, states, book, earlier, tick, results, c);
      FirstCarries(book, b, c);
      SpendingPrimes(rules, states, b, h, tick, results(n));
      OnlyWrite(events, HandoverWrite(c, results(n)), c);
    } else {
      PassPrimes(rules, states, book, earlier, tick, results, c);
      ItemLeavesOthers(rules, states, b, h, tick, results(n), c);
      PrimedCarries(b, HandoverItem(rules, states, b, h, tick, results(n)).0, c);
      WritesWith(events, events1, c);
    }
  }

  lemma {:induction false} FirstCarries(a: Book, b: Book, c: Channel)
    requires SameFirst(a, b, c) && Find(a, c) < |a|
    ensures Find(b, c) < |b| && b[Find(b, c)] == a[Find(a, c)]
  {}

  lemma {:induction false} PrimedCarries(a: Book, b: Book, c: Channel)
    requires SameFirst(a, b, c) && Primed(a, c)
    ensures Primed(b, c)
  {}

  lemma {:induction false} OnlyWrite(events: seq<Event>, e: Event, c: Channel)
    requires !Writes(events, c) && e.channel == c
    ensures AtMostOnce(events + [e], c) && Writes(events + [e], c)
  {
    assert (events + [e])[|events|] == e;
    assert forall i | 0 <= i < |events| :: (events + [e])[i] == events[i];
  }

  lemma {:induction false} WritesWith(events: seq<Event>, more: seq<Event>, c: Channel)
    requires Writes(events, c) && AtMostOnce(events, c) && !Writes(more, c)
    ensures Writes(events + more, c) && AtMostOnce(events + more, c)
  {
    var k :| 0 <= k < |events| && events[k].channel == c;
    assert (events + more)[k].channel == c;
    OnceMore(events, more, c);
  }

  lemma {:induction false} PassGrows(rules: seq<Rule>, states: States, book: Book, items: Book, tick: nat,
                                     results: nat -> WriteResult, n: nat)
    requires n <= |items|
    ensures HandoverPass(rules, states, book, items[..n], tick, results).1
            <= HandoverPass(rules, states, book, items, tick, results).1
  {
    hide HandoverItem;
    if n < |items| {
      var m := |items| - 1;
      PassGrows(rules, states, book, items[..m], tick, results, n);
      assert items[..m][..n] == items[..n];
    } else {
      assert items[..n] == items;
    }
  }

  /** The first item of the channel spends its last attempt with the mark of a claim, and the channel is listed again. */
  ghost predicate WrittenTwice(book: Book, c: Channel, tick: nat, results: nat -> WriteResult) {
    var i := Find(book, c);
    && i < |book| && Spends(book[i], tick, results(i))
    && exists j | i < j < |book| :: book[j].channel == c
  }

  lemma {:induction false} TwiceIsNotOnce(events: seq<Event>, more: seq<Event>, all: seq<Event>, c: Channel)
    requires Writes(events, c) && Writes(more, c) && events + more <= all
    ensures !AtMostOnce(all, c)
  {
    var i :| 0 <= i < |events| && events[i].channel == c;
    var j :| 0 <= j < |more| && more[j].channel == c;
    assert all[i] == (events + more)[i] && all[|events| + j] == (events + more)[|events| + j];
  }

  /** The next item naming the channel is unverified. */
  lemma {:induction false} NextTwin(book: Book, c: Channel, tick: nat, results: nat -> WriteResult) returns (j: nat)
    requires DuplicatesUnverified(book) && WrittenTwice(book, c, tick, results)
    ensures Find(book, c) < j < |book| && book[j].channel == c && book[j].state.NeedsVerification?
    ensures forall k | Find(book, c) < k < j :: book[k].channel != c
  {
    var i := Find(book, c);
    var rest := book[i + 1..];
    assert forall k | i < k < |book| :: book[k] == rest[k - i - 1];
    j := i + 1 + Find(rest, c);
  }

  lemma {:induction false} PassWritesTwice(rules: seq<Rule>, states: States, book: Book, tick: nat,
                                           results: nat -> WriteResult, c: Channel)
    requires DuplicatesUnverified(book) && Claimant(rules, c) == |rules| && WrittenTwice(book, c, tick, results)
    ensures !AtMostOnce(HandoverPass(rules, states, book, book, tick, results).1, c)
  {
    var j := NextTwin(book, c, tick, results);
    SpendsFirst(book, c, tick, results);
    hide *;
    PassPrimes(rules, states, book, book[..j], tick, results, c);
    PassStep(rules, states, book, book, tick, results, j);
    var (b, events) := HandoverPass(rules, states, book, book[..j], tick, results);
    PrimedIsWritten(rules, states, b, book[j], tick, results(j));
    PassGrows(rules, states, book, book, tick, results, j + 1);
    OneWrite(HandoverWrite(c, results(j)));
    TwiceIsNotOnce(events, [HandoverWrite(c, results(j))], HandoverPass(rules, states, book, book, tick, results).1, c);
  }

  lemma {:induction false} SpendsFirst(book: Book, c: Channel, tick: nat, results: nat -> WriteResult)
    requires WrittenTwice(book, c, tick, results)
    ensures Find(book, c) < |book| && Spends(book[Find(book, c)], tick, results(Find(book, c)))
  {}

  lemma {:induction false} PassStep(rules: seq<Rule>, states: States, book: Book, items: Book, tick: nat,
                                    results: nat -> WriteResult, n: nat)
    requires n < |items|
    ensures HandoverPass(rules, states, book, items[..n + 1], tick, results).1
            == HandoverPass(rules, states, book, items[..n], tick, results).1
               + HandoverItem(rules, states, HandoverPass(rules, states, book, items[..n], tick, results).0, items[n],
                              tick, results(n)).1
  {
    hide HandoverItem;
    assert items[..n + 1][..n] == items[..n];
  }

  lemma {:induction false} OneWrite(e: Event)
    ensures Writes([e], e.channel)
  {
    assert [e][0] == e;
  }

  /** The pass writes a channel nobody claims at most once, exactly outside that case. */
  lemma {:induction false} PassWritesOnceUnless(rules: seq<Rule>, states: States, book: Book, tick: nat,
                                                results: nat -> WriteResult, c: Channel)
    requires DuplicatesUnverified(book) && Claimant(rules, c) == |rules|
    ensures AtMostOnce(HandoverPass(rules, states, book, book, tick, results).1, c)
            <==> !WrittenTwice(book, c, tick, results)
  {
    var i := Find(book, c);
    if i < |book| && Spends(book[i], tick, results(i)) {
      if WrittenTwice(book, c, tick, results) {
        PassWritesTwice(rules, states, book, tick, results, c);
      } else {
        PassPrimes(rules, states, book, book, tick, results, c);
      }
    } else {
      PassWritesOnce(rules, states, book, book, tick, results, c);
    }
  }

  /**
   * A channel no enabled rule claims is written more than once in a cycle exactly when, once the
   * recovered items were verified, its first item is pending, marked by a claim, due and at its
   * last attempt, that attempt does not end in a confirmed number, and a later item names the
   * channel again.
   */
  lemma {:induction false} OneHandoverWritePerCycle(c: Core, env: TickEnv, d: Channel)
    requires DuplicatesUnverified(c.book) && Claimant(c.rules, d) == |c.rules|
    ensures var verified := VerifyRecovered(c.(ticks := c.ticks + 1), env).book;
            AtMostOnce(Tick(c, env).1, d) <==> !(env.automation && WrittenTwice(verified, d, c.ticks, env.handover))
  {
    hide RunRules, BuildRecord, WrittenTwice, PerformHandovers, VerifyRecovered, AtMostOnce, Writes, Claimant;
    if env.automation {
      var c0 := c.(ticks := c.ticks + 1);
      PerformWritesOnce(c0, env, c.ticks, d);
      var (c1, events) := PerformHandovers(c0, env, c.ticks);
      UnclaimedByRules(c1, env, d);
      OnceWith(events, RunRules(c1, |c1.rules|, env).1, d);
    } else {
      NoEvents(d);
    }
  }

  lemma {:induction false} NoEvents(c: Channel)
    ensures AtMostOnce([], c)
  {}

  lemma {:induction false} PerformWritesOnce(c: Core, env: TickEnv, tick: nat, d: Channel)
    requires DuplicatesUnverified(c.book) && Claimant(c.rules, d) == |c.rules|
    ensures PerformHandovers(c, env, tick).0.rules == c.rules
    ensures AtMostOnce(PerformHandovers(c, env, tick).1, d)
            <==> !WrittenTwice(VerifyRecovered(c, env).book, d, tick, env.handover)
  {
    hide AtMostOnce, WrittenTwice, HandoverPass, Claimant;
    VerifyKeeps(c, env);
    var v := VerifyRecovered(c, env);
    PassWritesOnceUnless(v.rules, v.states, v.book, tick, env.handover, d);
  }

  /** Events of other channels do not change how often one is written. */
  lemma {:induction false} OnceWith(events: seq<Event>, more: seq<Event>, c: Channel)
    requires !Writes(more, c)
    ensures AtMostOnce(events + more, c) <==> AtMostOnce(events, c)
  {
    assert forall i | 0 <= i < |events| :: (events + more)[i] == events[i];
    if AtMostOnce(events, c) {
      OnceMore(events, more, c);
    }
  }

  /** The same in every state a run reaches. */
  lemma {:induction false} RunsWriteOnce(disk: Record, ops: seq<Op>, env: TickEnv, d: Channel)
    requires Claimant(Run(disk, ops).rules, d) == |Run(disk, ops).rules|
    ensures var c := Run(disk, ops);
            var verified := VerifyRecovered(c.(ticks := c.ticks + 1), env).book;
            AtMostOnce(Tick(c, env).1, d) <==> !(env.automation && WrittenTwice(verified, d, c.ticks, env.handover))
  {
    hide Tick, VerifyRecovered, WrittenTwice, AtMostOnce, Claimant;
    RunDuplicates(disk, ops);
    OneHandoverWritePerCycle(Run(disk, ops), env, d);
  }

  /**
   * A handover whose attempts are spent waits for the user, exactly when it does not carry the
   * mark of a claim. One that a claim had parked still carries the mark when it is re-armed, or is
   * restored and verified, and then spends its attempts: it resumes by itself with a fresh budget.
   */
  lemma {:induction false} SpentHandoverWaits(rules: seq<Rule>, states: States, book: Book, c: Channel, tick: nat,
                                              result: WriteResult)
    requires Claimant(rules, c) == |rules|
    requires Find(book, c) < |book| && book[Find(book, c)].state.Failed?
    ensures var h := book[Find(book, c)];
            HandoverItem(rules, states, book, h, tick, result).1 == [] <==> !h.parkedByClaim
  {
    if book[Find(book, c)].parkedByClaim {
      ReleaseTouches(book, c, tick);
      var b := ReleaseClaim(book, c, tick).0;
      assert Find(b, c) == Find(book, c);
    }
  }

  /**
   * The mark of a claim outlives re-arming, a restart with its verification, further queueing and
   * failed attempts; only releasing the claim, or failing a recovered item, clears it.
   */
  lemma {:induction false} MarkOutlives(book: Book, c: Channel, from: RuleId, tick: nat)
    requires Find(book, c) < |book|
    ensures var i := Find(book, c);
            var marked := book[i].parkedByClaim;
            && Rearm(book[i], tick).parkedByClaim == marked
            && Restore([], book[i])[0].parkedByClaim == marked
            && Verified(book, c, tick).0[i].parkedByClaim == marked
            && Queue(book, c, from, tick)[i].parkedByClaim == marked
            && MarkAwaiting(book, c).0[i].parkedByClaim == marked
            && RecordAttempt(book, c, tick)[i].parkedByClaim == marked
            && (ReleaseClaim(book, c, tick).1 ==> !ReleaseClaim(book, c, tick).0[i].parkedByClaim)
            && (FailRecovered(book, c).1 ==> !FailRecovered(book, c).0[i].parkedByClaim)
  {}

  // ------------------------------------------------------------------ a run that writes a channel twice

  /** Readings are fresh, every channel is writable, and no write is ever confirmed. */
  function Stubborn(): TickEnv {
    TickEnv(true, false, false, 0, true, _ => Writable, _ => Unconfirmed, n => RuleEnv(false, false, Error, Error))
  }

  function Cycles(k: nat): (ops: seq<Op>)
    ensures |ops| == k && forall op | op in ops :: op == DoTick(Stubborn())
  {
    if k == 0 then [] else Cycles(k - 1) + [DoTick(Stubborn())]
  }

  /** A record that owes a channel parked by a claim, and lists an unconfirmed write to it by a rule that is gone. */
  function ClaimedRecord(c: Channel, from: RuleId): Record {
    Record([Handover(c, from, Failed, 0, HANDOVER_OWNER_WAIT_TICKS + 1, true, 0)], [StoredHold(from, c, 0)])
  }

  function Twin(c: Channel, from: RuleId): Handover {
    Handover(c, from, NeedsVerification, 0, 0, false, 0)
  }

  /** The first item after `k` cycles: attempts fall due at cycles 1, 6, 11, 16 and 21. */
  function AfterCycles(c: Channel, from: RuleId, k: nat): Handover {
    if k == 0 then Handover(c, from, NeedsVerification, 0, HANDOVER_OWNER_WAIT_TICKS + 1, true, 0)
    else Handover(c, from, Pending, (k + 3) / 5, HANDOVER_OWNER_WAIT_TICKS + 1, true, 1 + 5 * ((k + 3) / 5))
  }

  ghost predicate Waiting(core: Core, c: Channel, from: RuleId, k: nat) {
    core.rules == [] && core.ticks == k && core.book == [AfterCycles(c, from, k), Twin(c, from)]
  }

  lemma {:induction false} LoadsWaiting(c: Channel, from: RuleId)
    ensures Waiting(Load(Fresh(ClaimedRecord(c, from)), [], true), c, from, 0)
  {
    var disk := ClaimedRecord(c, from);
    var h := disk.holds[0];
    assert disk.handovers[..0] == [] && disk.holds[..0] == [];
    assert RestoreHandovers([], disk.handovers) == [AfterCycles(c, from, 0)];
    assert !StillDriven([], h);
    assert RestoreHolds([AfterCycles(c, from, 0)], [], disk.holds) == [AfterCycles(c, from, 0), Twin(c, from)];
    assert ResolveConflicts(SortRules(SortRules([]))) == [];
  }

  /** Verification makes the first item live once, and never reaches its twin. */
  lemma {:induction false} WaitingVerified(core: Core, c: Channel, from: RuleId, k: nat)
    requires Waiting(core, c, from, k)
    ensures var v := VerifyRecovered(core.(ticks := k + 1), Stubborn());
            && v.rules == []
            && v.book == [if k == 0 then AfterCycles(c, from, 1) else AfterCycles(c, from, k), Twin(c, from)]
  {
    var book := core.book;
    var env := Stubborn();
    assert book[..1] == [book[0]] && book[..1][..0] == [];
    assert VerifyItems(book, [], env, k + 1) == (book, false);
    var (b, _) := VerifyItems(book, book[..1], env, k + 1);
    assert b == [if k == 0 then AfterCycles(c, from, 1) else AfterCycles(c, from, k), Twin(c, from)];
    assert Verified(b, c, k + 1).0 == b;
  }

  lemma {:induction false} WaitingPass(states: States, book: Book, c: Channel, from: RuleId, k: nat)
    requires k < 21 && book == [AfterCycles(c, from, if k == 0 then 1 else k), Twin(c, from)]
    ensures HandoverPass([], states, book, book, k, Stubborn().handover).0 == [AfterCycles(c, from, k + 1), Twin(c, from)]
  {
    var results := Stubborn().handover;
    assert book[..1] == [book[0]] && book[..1][..0] == [];
    assert HandoverPass([], states, book, [], k, results) == (book, []);
    var (b, _) := HandoverPass([], states, book, book[..1], k, results);
    assert b == [AfterCycles(c, from, k + 1), Twin(c, from)];
    assert HandoverItem([], states, b, book[1], k, results(1)).0 == b;
  }

  lemma {:induction false} WaitingTick(core: Core, c: Channel, from: RuleId, k: nat)
    requires k < 21 && Waiting(core, c, from, k)
    ensures Waiting(Tick(core, Stubborn()).0, c, from, k + 1)
  {
    WaitingVerified(core, c, from, k);
    hide HandoverPass, VerifyRecovered, AfterCycles;
    var v := VerifyRecovered(core.(ticks := k + 1), Stubborn());
    WaitingPass(v.states, v.book, c, from, k);
    VerifyTicks(core.(ticks := k + 1), Stubborn());
  }

  lemma {:induction false} VerifyTicks(c: Core, env: TickEnv)
    ensures VerifyRecovered(c, env).ticks == c.ticks
  {}

  lemma {:induction false} WaitingRun(c: Channel, from: RuleId, k: nat)
    requires k <= 21
    ensures Waiting(Run(ClaimedRecord(c, from), [LoadRules([], true)] + Cycles(k)), c, from, k)
  {
    hide Load, Tick, Waiting;
    var load, disk := [LoadRules([], true)], ClaimedRecord(c, from);
    if k == 0 {
      LoadsWaiting(c, from);
      assert load + Cycles(0) == load && load[..0] == [];
    } else {
      WaitingRun(c, from, k - 1);
      assert (load + Cycles(k))[..k] == load + Cycles(k - 1);
      WaitingTick(Run(disk, load + Cycles(k - 1)), c, from, k - 1);
    }
  }

  /**
   * A run reaches that case with no user in it: a restart with the record of a parked handover and
   * of an unconfirmed write by a rule that is gone, then cycles whose fail-safe write is never
   * confirmed. The cycle of the fifth attempt writes the channel twice.
   */
  lemma {:induction false} RestoredClaimWritesTwice(c: Channel, from: RuleId)
    ensures var core := Run(ClaimedRecord(c, from), [LoadRules([], true)] + Cycles(21));
            && DuplicatesUnverified(core.book) && Claimant(core.rules, c) == |core.rules|
            && !AtMostOnce(Step(core, DoTick(Stubborn())).1, c)
  {
    WaitingRun(c, from, 21);
    var core := Run(ClaimedRecord(c, from), [LoadRules([], true)] + Cycles(21));
    WaitingVerified(core, c, from, 21);
    assert AfterCycles(c, from, 21) == Handover(c, from, Pending, 4, HANDOVER_OWNER_WAIT_TICKS + 1, true, 21);
    var book := [AfterCycles(c, from, 21), Twin(c, from)];
    assert book[1].channel == c;
    assert WrittenTwice(book, c, 21, Stubborn().handover);
    hide Run, Tick, WrittenTwice, AtMostOnce, VerifyRecovered;
    OneHandoverWritePerCycle(core, Stubborn(), c);
  }
}
