/**
 * Responsibility is never lost.
 *
 * In every state reachable in a session, each channel some rule has issued a write to is named
 * by a rule's control hold or by an open handover, until a fail-safe write to it is confirmed.
 */
module Responsibility {
  import opened Ids
  import opened Handovers
  import opened Engine
  import opened Rules

  /** Some rule's control memory names the channel. */
  ghost predicate Held(states: States, c: Channel) {
    exists id | id in states :: Names(states[id], c)
  }

  predicate Names(s: RuleState, c: Channel) {
    s.control.Some? && s.control.value.channel == c
  }

  ghost predicate Covers(states: States, book: Book, c: Channel) {
    Held(states, c) || Owed(book, c)
  }

  /** Whatever `a` and `ab` covered, `b` and `bb` still cover. */
  ghost predicate Keeps(a: States, ab: Book, b: States, bb: Book) {
    forall c :: Covers(a, ab, c) ==> Covers(b, bb, c)
  }

  /** Every hold names what the first rule with that id targets. */
  ghost predicate HoldsKnown(states: States, rules: seq<Rule>) {
    forall id | id in states && states[id].control.Some? :: NamesTarget(states[id], rules, id)
  }

  predicate NamesTarget(s: RuleState, rules: seq<Rule>, id: RuleId) {
    FindRule(rules, id) < |rules| && Names(s, rules[FindRule(rules, id)].target)
  }

  /** What every operation keeps. */
  ghost predicate Good(c: Core) {
    && SortedRules(c.rules) && Unambiguous(c.rules)
    && HoldsKnown(c.states, c.rules)
    && DuplicatesUnverified(c.book)
  }

  // ------------------------------------------------------------------ leaving control

  lemma {:induction false} HandOverKeeps(c: Core, id: RuleId, held: Option<ControlHold>, previous: Option<Channel>)
    requires DuplicatesUnverified(c.book)
    ensures var c' := HandOver(c, id, held, previous);
            && c' == c.(book := c'.book, dirty := c'.dirty)
            && DuplicatesUnverified(c'.book)
            && (forall d :: Owed(c.book, d) ==> Owed(c'.book, d))
            && (held.Some? && (previous.None? || previous.value == held.value.channel) ==> Owed(c'.book, held.value.channel))
  {
    if held.Some? {
      QueueOwes(c.book, held.value.channel, id, c.ticks);
    }
  }

  lemma {:induction false} FlushKeeps(c: Core, saves: bool)
    ensures var c' := Flush(c, saves); c' == c.(disk := c'.disk, dirty := c'.dirty)
  {}

  /** Both halves of a change: what was held is owed afterwards, and nothing else moves. */
  lemma {:induction false} ChangeKeeps(c: Core, previous: Rule, next: Rule, saves: bool)
    requires DuplicatesUnverified(c.book)
    requires previous.id in c.states ==>
      c.states[previous.id].control.Some? ==> c.states[previous.id].control.value.channel == previous.target
    ensures var c' := ApplyRuleChange(c, previous, Between(previous, next), saves);
            && c' == c.(states := c'.states, book := c'.book, dirty := c'.dirty, disk := c'.disk)
            && DuplicatesUnverified(c'.book)
            && c'.states.Keys == c.states.Keys
            && (forall id | id in c.states && id != previous.id :: c'.states[id] == c.states[id])
            && (previous.id in c.states && c'.states[previous.id].control.Some? ==>
                  c'.states[previous.id].control == c.states[previous.id].control && previous.target == next.target)
            && (forall d :: Owed(c.book, d) ==> Owed(c'.book, d))
            && Keeps(c.states, c.book, c'.states, c'.book)
  {
    hide HandOver, Flush, DuplicatesUnverified, Owed;
    var change := Between(previous, next);
    var c' := ApplyRuleChange(c, previous, change, saves);
    var held := StateOf(c.states, previous.id).control;
    HandOverKeeps(c, previous.id, held, change.previousTarget);
    FlushKeeps(HandOver(c, previous.id, held, change.previousTarget), saves);
    forall d | Covers(c.states, c.book, d) ensures Covers(c'.states, c'.book, d) {
      if Held(c.states, d) {
        var id :| id in c.states && Names(c.states[id], d);
        assert id == previous.id || Names(c'.states[id], d);
        assert id == previous.id && !change.LeavesControl() ==> Names(c'.states[id], d);
      }
    }
  }

  // ------------------------------------------------------------------ loading

  lemma {:induction false} PreviousHoldsComplete(rules: seq<Rule>, states: States, r: Rule)
    requires r in rules && StateOf(states, r.id).control.Some?
    ensures (r.id, StateOf(states, r.id).control.value) in PreviousHolds(rules, states)
  {
    if r != rules[0] {
      assert rules == [rules[0]] + rules[1..];
      PreviousHoldsComplete(rules[1..], states, r);
    }
  }

  lemma {:induction false} RemovedKeeps(c: Core, holds: seq<(RuleId, ControlHold)>, report: seq<Rule>)
    requires DuplicatesUnverified(c.book)
    ensures var c' := HandOverRemoved(c, holds, report);
            && c' == c.(book := c'.book, dirty := c'.dirty)
            && DuplicatesUnverified(c'.book)
            && (forall d :: Owed(c.book, d) ==> Owed(c'.book, d))
            && forall h | h in holds && !HasRule(report, h.0) :: Owed(c'.book, h.1.channel)
  {
    if holds != [] {
      var n := |holds| - 1;
      RemovedKeeps(c, holds[..n], report);
      var c1 := HandOverRemoved(c, holds[..n], report);
      HandOverKeeps(c1, holds[n].0, Some(holds[n].1), None);
      assert holds == holds[..n] + [holds[n]];
    }
  }

  lemma {:induction false} LoadedKeeps(c: Core, previous: seq<Rule>, report: seq<Rule>, saves: bool)
    requires DuplicatesUnverified(c.book) && HoldsKnown(c.states, previous)
    ensures var c' := ApplyLoaded(c, previous, report, saves);
            && c' == c.(states := c'.states, book := c'.book, dirty := c'.dirty, disk := c'.disk)
            && DuplicatesUnverified(c'.book)
            && c'.states.Keys == c.states.Keys
            && HoldsKnown(c'.states, previous)
            && (forall r | r in report && r.id in c'.states && c'.states[r.id].control.Some? :: Names(c'.states[r.id], r.target))
            && (forall d :: Owed(c.book, d) ==> Owed(c'.book, d))
            && Keeps(c.states, c.book, c'.states, c'.book)
  {
    hide ApplyRuleChange, Between, DuplicatesUnverified, Owed;
    if report != [] {
      var n := |report| - 1;
      LoadedKeeps(c, previous, report[..n], saves);
      var c1 := ApplyLoaded(c, previous, report[..n], saves);
      var loaded := report[n];
      var i := FindRule(previous, loaded.id);
      assert report == report[..n] + [loaded];
      if i < |previous| {
        ChangeKeeps(c1, previous[i], loaded, saves);
      }
      assert forall r | r in report :: r == loaded || r in report[..n];
    }
  }

  lemma {:induction false} RestoreHandoversOwes(book: Book, stored: Book)
    requires DuplicatesUnverified(book)
    ensures var b := RestoreHandovers(book, stored);
            DuplicatesUnverified(b) && |b| == |book| + |stored|
            && forall d :: Owed(b, d) <==> (Owed(book, d) || Owed(stored, d))
  {
    if stored == [] {
    } else {
      var n := |stored| - 1;
      RestoreHandoversOwes(book, stored[..n]);
      RestoreOwes(RestoreHandovers(book, stored[..n]), stored[n].(nextAttemptTick := 0));
      assert stored == stored[..n] + [stored[n]];
      forall d ensures Owed(stored, d) <==> (Owed(stored[..n], d) || stored[n].channel == d) {
        if Owed(stored, d) {
          var k :| 0 <= k < |stored| && stored[k].channel == d;
          assert k < n ==> stored[..n][k].channel == d;
        }
        if Owed(stored[..n], d) {
          var k :| 0 <= k < n && stored[..n][k].channel == d;
          assert stored[k].channel == d;
        }
      }
    }
  }

  /** A stored write whose rule no longer drives its channel. */
  ghost predicate Orphaned(rules: seq<Rule>, holds: seq<StoredHold>, c: Channel) {
    exists h | h in holds :: h.channel == c && !StillDriven(rules, h)
  }

  lemma {:induction false} RestoreHoldsOwes(book: Book, rules: seq<Rule>, holds: seq<StoredHold>)
    requires DuplicatesUnverified(book)
    ensures var b := RestoreHolds(book, rules, holds);
            DuplicatesUnverified(b) && |b| >= |book|
            && forall d :: Owed(b, d) <==> (Owed(book, d) || Orphaned(rules, holds, d))
  {
    if holds == [] {
    } else {
      var n := |holds| - 1;
      RestoreHoldsOwes(book, rules, holds[..n]);
      var b := RestoreHolds(book, rules, holds[..n]);
      var hold := holds[n];
      assert holds == holds[..n] + [hold];
      if !StillDriven(rules, hold) {
        RestoreOwes(b, Handover(hold.channel, hold.ruleId, NeedsVerification, 0, 0, false, 0));
      }
      forall d ensures Orphaned(rules, holds, d) <==>
                       (Orphaned(rules, holds[..n], d) || (hold.channel == d && !StillDriven(rules, hold))) {
        if Orphaned(rules, holds, d) {
          var h :| h in holds && h.channel == d && !StillDriven(rules, h);
          assert h == hold || h in holds[..n];
        }
        if Orphaned(rules, holds[..n], d) {
          var h :| h in holds[..n] && h.channel == d && !StillDriven(rules, h);
          assert h in holds;
        }
      }
    }
  }

  lemma {:induction false} RecoverOwes(c: Core)
    requires DuplicatesUnverified(c.book)
    ensures var c' := Recover(c);
            && c' == c.(book := c'.book, dirty := c'.dirty)
            && DuplicatesUnverified(c'.book)
            && forall d :: Owed(c'.book, d) <==>
                 (Owed(c.book, d) || Owed(c.disk.handovers, d) || Orphaned(c.rules, c.disk.holds, d))
  {
    RestoreHandoversOwes(c.book, c.disk.handovers);
    RestoreHoldsOwes(RestoreHandovers(c.book, c.disk.handovers), c.rules, c.disk.holds);
  }

  lemma {:induction false} HasRuleIsMember(rules: seq<Rule>, id: RuleId)
    ensures HasRule(rules, id) <==> id in RuleIds(rules)
    ensures FindRule(rules, id) < |rules| <==> id in RuleIds(rules)
  {
    if id in RuleIds(rules) {
      var r :| r in rules && r.id == id;
      var k :| 0 <= k < |rules| && rules[k] == r;
      assert rules[k].id == id;
    }
    if HasRule(rules, id) {
      var k :| 0 <= k < |rules| && rules[k].id == id;
      assert rules[k] in rules;
    }
    if FindRule(rules, id) < |rules| {
      assert rules[FindRule(rules, id)] in rules;
    }
  }

  /** Loading up to the standing down: every hold is kept by its rule or queued. */
  lemma {:induction false} LoadKeepsMiddle(c: Core, report: seq<Rule>, saves: bool)
    requires Good(c)
    ensures var c1 := c.(rules := SortRules(report), states := Retained(c.states, report));
            var c3 := HandOverRemoved(ApplyLoaded(c1, c.rules, report, saves), PreviousHolds(c.rules, c.states), report);
            && c3 == c1.(states := c3.states, book := c3.book, dirty := c3.dirty, disk := c3.disk)
            && DuplicatesUnverified(c3.book)
            && c3.states.Keys == RuleIds(report)
            && (forall r | r in report && c3.states[r.id].control.Some? :: Names(c3.states[r.id], r.target))
            && (forall d :: Owed(c.book, d) ==> Owed(c3.book, d))
            && Keeps(c.states, c.book, c3.states, c3.book)
  {
    var c1 := c.(rules := SortRules(report), states := Retained(c.states, report));
    LoadedKeeps(c1, c.rules, report, saves);
    var c2 := ApplyLoaded(c1, c.rules, report, saves);
    var holds := PreviousHolds(c.rules, c.states);
    RemovedKeeps(c2, holds, report);
    var c3 := HandOverRemoved(c2, holds, report);
    forall d | Covers(c.states, c.book, d) ensures Covers(c3.states, c3.book, d) {
      if Held(c.states, d) {
        var id :| id in c.states && Names(c.states[id], d);
        HasRuleIsMember(report, id);
        if id in RuleIds(report) {
          assert Names(c1.states[id], d);
          assert Covers(c1.states, c1.book, d);
          assert Covers(c2.states, c2.book, d);
        } else {
          var r := c.rules[FindRule(c.rules, id)];
          PreviousHoldsComplete(c.rules, c.states, r);
          assert (id, c.states[id].control.value) in holds;
        }
      }
    }
  }

  lemma {:induction false} LoadedMembers(report: seq<Rule>, r: Rule)
    requires r in Loaded(report)
    ensures exists q :: q in report && q.id == r.id && q.target == r.target
  {
    var sorted := SortRules(SortRules(report));
    SortFacts(report);
    SortFacts(SortRules(report));
    LoadedFacts(report);
    var k :| 0 <= k < |sorted| && Loaded(report)[k] == r;
    assert sorted[k] in sorted;
  }

  lemma {:induction false} LoadKeeps(c: Core, report: seq<Rule>, saves: bool)
    requires Good(c) && Unambiguous(Loaded(report))
    ensures Good(Load(c, report, saves))
    ensures Load(c, report, saves).rules == Loaded(report)
    ensures forall d :: Owed(c.book, d) ==> Owed(Load(c, report, saves).book, d)
    ensures Keeps(c.states, c.book, Load(c, report, saves).states, Load(c, report, saves).book)
  {
    LoadKeepsMiddle(c, report, saves);
    LoadedFacts(report);
    var c1 := c.(rules := SortRules(report), states := Retained(c.states, report));
    var c3 := HandOverRemoved(ApplyLoaded(c1, c.rules, report, saves), PreviousHolds(c.rules, c.states), report);
    var rules := Loaded(report);
    forall id | id in c3.states && c3.states[id].control.Some? ensures NamesTarget(c3.states[id], rules, id) {
      HasRuleIsMember(rules, id);
      var r := rules[FindRule(rules, id)];
      assert r in rules;
      LoadedMembers(report, r);
    }
    var c4 := Flush(c3.(rules := rules), saves);
    if !c4.recovered {
      RecoverOwes(c4.(recovered := true));
    }
  }

  // ------------------------------------------------------------------ editing

  /** A memory with at least the same holds covers at least the same channels. */
  lemma {:induction false} SameHoldsCover(a: States, ab: Book, b: States, bb: Book)
    requires forall id | id in a && a[id].control.Some? :: id in b && b[id].control.Some? && b[id].control.value.channel == a[id].control.value.channel
    requires forall d :: Owed(ab, d) ==> Owed(bb, d)
    ensures Keeps(a, ab, b, bb)
  {
    forall d | Covers(a, ab, d) ensures Covers(b, bb, d) {
      if Held(a, d) {
        var id :| id in a && Names(a[id], d);
        assert Names(b[id], d);
      }
    }
  }

  /** The list after a save: the saved rule is the only one with its id, and every other id finds what it found. */
  lemma {:induction false} ReplaceRule(rules: seq<Rule>, rule: Rule)
    requires SortedRules(rules) && Unambiguous(rules)
    ensures var after := SortRules(WithoutRule(rules, rule.id) + [rule]);
            && SortedRules(after) && Unambiguous(after)
            && FindRule(after, rule.id) < |after| && after[FindRule(after, rule.id)] == rule
            && forall id | id != rule.id && FindRule(rules, id) < |rules| ::
                 FindRule(after, id) < |after| && after[FindRule(after, id)] == rules[FindRule(rules, id)]
  {
    hide SortRules, WithoutRule, SortedRules, FindRule;
    var rest := WithoutRule(rules, rule.id);
    var after := SortRules(rest + [rule]);
    WithoutMembers(rules, rule.id);
    WithoutKeeps(rules, rule.id);
    SortFacts(rest + [rule]);
    var k := SortPlaces(rest, rule);
    assert forall j | 0 <= j < |rest| :: rest[j] in rest;
    assert after[k] == rule;
    assert FindRule(after, rule.id) == k;
    forall id | id != rule.id && FindRule(rules, id) < |rules|
      ensures FindRule(after, id) < |after| && after[FindRule(after, id)] == rules[FindRule(rules, id)]
    {
      WithoutFinds(rules, rule.id, id);
      PlacedFinds(rest, rule, k, id);
    }
    forall r | r in after && r.enabled ensures after[FindFirst(after, r)].target == r.target {
      assert r in rest + [rule];
      if r != rule {
        assert r in rules;
        assert rules[FindFirst(rules, r)].target == r.target;
      }
    }
  }

  lemma {:induction false} SaveKeeps(c: Core, rule: Rule, accepted: bool, saves: bool)
    requires Good(c)
    ensures Good(Save(c, rule, accepted, saves))
    ensures forall d :: Owed(c.book, d) ==> Owed(Save(c, rule, accepted, saves).book, d)
    ensures Keeps(c.states, c.book, Save(c, rule, accepted, saves).states, Save(c, rule, accepted, saves).book)
  {
    hide ApplyRuleChange, Between, SortRules, WithoutRule, Conflicts, Owed, DuplicatesUnverified, SortedRules, Unambiguous;
    if accepted && !(rule.enabled && Conflicts(c.rules, rule)) {
      var i := FindRule(c.rules, rule.id);
      ReplaceRule(c.rules, rule);
      var rules := SortRules(WithoutRule(c.rules, rule.id) + [rule]);
      var states := c.states[rule.id := StateOf(c.states, rule.id).(nextDueMs := 0)];
      var c1 := c.(rules := rules, states := states);
      SameHoldsCover(c.states, c.book, states, c.book);
      if i < |c.rules| {
        ChangeKeeps(c1, c.rules[i], rule, saves);
      }
      var c' := Save(c, rule, accepted, saves);
      forall id | id in c'.states && c'.states[id].control.Some? ensures NamesTarget(c'.states[id], rules, id) {
        if id != rule.id {
          assert NamesTarget(c.states[id], c.rules, id);
        }
      }
    }
  }

  lemma {:induction false} DeleteKeeps(c: Core, id: RuleId, saves: bool)
    requires Good(c)
    ensures Good(Delete(c, id, saves))
    ensures forall d :: Owed(c.book, d) ==> Owed(Delete(c, id, saves).book, d)
    ensures Keeps(c.states, c.book, Delete(c, id, saves).states, Delete(c, id, saves).book)
  {
    var held := StateOf(c.states, id).control;
    var rules, states := WithoutRule(c.rules, id), c.states - {id};
    var c1 := c.(rules := rules, states := states);
    var c2 := HandOver(c1, id, held, None);
    WithoutMembers(c.rules, id);
    WithoutKeeps(c.rules, id);
    HandOverKeeps(c1, id, held, None);
    FlushKeeps(c2, saves);
    DeletedCovers(c.states, c.book, id, c2.book);
    forall k | k in states && states[k].control.Some? ensures NamesTarget(states[k], rules, k) {
      assert NamesTarget(c.states[k], c.rules, k);
      WithoutFinds(c.rules, id, k);
    }
    forall r | r in rules && r.enabled ensures rules[FindFirst(rules, r)].target == r.target {
      assert r in c.rules;
      assert c.rules[FindFirst(c.rules, r)].target == r.target;
      WithoutFinds(c.rules, id, r.id);
    }
  }

  lemma {:induction false} DeletedCovers(states: States, book: Book, id: RuleId, after: Book)
    requires forall d :: Owed(book, d) ==> Owed(after, d)
    requires StateOf(states, id).control.Some? ==> Owed(after, StateOf(states, id).control.value.channel)
    ensures Keeps(states, book, states - {id}, after)
  {
    forall d | Covers(states, book, d) ensures Covers(states - {id}, after, d) {
      if Held(states, d) {
        var k :| k in states && Names(states[k], d);
        if k != id {
          assert Names((states - {id})[k], d);
        }
      }
    }
  }

  // ------------------------------------------------------------------ ticking

  /** The channels rules are answerable for after `events`, starting from `s`. */
  ghost function Touch(s: set<Channel>, events: seq<Event>): set<Channel> {
    if events == [] then s else
    var t := Touch(s, events[..|events| - 1]);
    match events[|events| - 1]
    case RuleWrite(_, c, result) => if result.Rejected? then t else t + {c}
    case FailSafeWrite(_, c, _) => t + {c}
    case HandoverWrite(c, _) => if Confirms(events[|events| - 1]) then t - {c} else t
  }

  lemma {:induction false} TouchConcat(s: set<Channel>, a: seq<Event>, b: seq<Event>)
    ensures Touch(s, a + b) == Touch(Touch(s, a), b)
  {
    if b == [] {
      assert a + b == a;
    } else {
      assert (a + b)[..|a + b| - 1] == a + b[..|b| - 1];
      TouchConcat(s, a, b[..|b| - 1]);
    }
  }

  ghost predicate AllCovered(s: set<Channel>, states: States, book: Book) {
    forall c | c in s :: Covers(states, book, c)
  }

  lemma {:induction false} VerifyOneKeeps(book: Book, c: Channel, env: TickEnv, ticks: nat)
    requires DuplicatesUnverified(book)
    ensures var b := VerifyOne(book, c, env, ticks).0;
            DuplicatesUnverified(b) && SameItems(book, b)
  {
    VerifiedTouches(book, c, ticks);
    FirstTouchedKeeps(book, VerifyOne(book, c, env, ticks).0, c);
  }

  lemma {:induction false} VerifyItemsKeeps(book: Book, items: Book, env: TickEnv, ticks: nat)
    requires DuplicatesUnverified(book)
    ensures var b := VerifyItems(book, items, env, ticks).0;
            DuplicatesUnverified(b) && SameItems(book, b)
  {
    if items != [] {
      VerifyItemsKeeps(book, items[..|items| - 1], env, ticks);
      var b := VerifyItems(book, items[..|items| - 1], env, ticks).0;
      VerifyOneKeeps(b, items[|items| - 1].channel, env, ticks);
    }
  }

  lemma {:induction false} VerifyKeeps(c: Core, env: TickEnv)
    requires DuplicatesUnverified(c.book)
    ensures var c' := VerifyRecovered(c, env);
            && c' == c.(book := c'.book, dirty := c'.dirty)
            && DuplicatesUnverified(c'.book) && SameItems(c.book, c'.book)
            && forall d :: Owed(c.book, d) <==> Owed(c'.book, d)
  {
    VerifyItemsKeeps(c.book, c.book, env, c.ticks);
    SameItemsOwed(c.book, VerifyRecovered(c, env).book);
  }

  lemma {:induction false} HandoverItemKeeps(rules: seq<Rule>, states: States, book: Book, h: Handover, tick: nat,
                                             result: WriteResult,
                          s: set<Channel>)
    requires DuplicatesUnverified(book) && AllCovered(s, states, book)
    ensures var (b, events) := HandoverItem(rules, states, book, h, tick, result);
            && DuplicatesUnverified(b)
            && AllCovered(Touch(s, events), states, b)
            && (forall d :: Owed(b, d) ==> Owed(book, d))
            && (forall d | Owed(book, d) && !Owed(b, d) ::
                 ConfirmedOwner(rules, states, d) || exists e | e in events :: Confirms(e) && e.channel == d)
  {
    var c := h.channel;
    var (b, events) := HandoverItem(rules, states, book, h, tick, result);
    if ConfirmedOwner(rules, states, c) {
      SettleOwes(book, c);
      var id := rules[Claimant(rules, c)].id;
      assert Names(states[id], c);
    } else if Claimant(rules, c) < |rules| {
      var b1 := MarkAwaiting(book, c).0;
      MarkAwaitingTouches(book, c);
      FirstTouchedKeeps(book, b1, c);
      ParkTouches(b1, c);
      FirstTouchedKeeps(b1, ParkUnmetClaim(b1, c), c);
    } else {
      var b1 := if h.state.Pending? then book else ReleaseClaim(book, c, tick).0;
      ReleaseTouches(book, c, tick);
      FirstTouchedKeeps(book, ReleaseClaim(book, c, tick).0, c);
      RecordTouches(b1, c, tick);
      FirstTouchedKeeps(b1, RecordAttempt(b1, c, tick), c);
      SettleOwes(b1, c);
      if events != [] {
        assert events == [HandoverWrite(c, result)];
        assert events[..0] == [];
        assert Touch(s, events[..0]) == s;
        assert events[0] in events;
      }
    }
  }

  lemma {:induction false} HandoverPassKeeps(rules: seq<Rule>, states: States, book: Book, items: Book, tick: nat,
                                             results: nat -> WriteResult, s: set<Channel>)
    requires DuplicatesUnverified(book) && AllCovered(s, states, book)
    ensures var (b, events) := HandoverPass(rules, states, book, items, tick, results);
            && DuplicatesUnverified(b)
            && AllCovered(Touch(s, events), states, b)
            && (forall d :: Owed(b, d) ==> Owed(book, d))
            && (forall d | Owed(book, d) && !Owed(b, d) ::
                 ConfirmedOwner(rules, states, d) || exists e | e in events :: Confirms(e) && e.channel == d)
  {
    if items != [] {
      var n := |items| - 1;
      HandoverPassKeeps(rules, states, book, items[..n], tick, results, s);
      var (b, events) := HandoverPass(rules, states, book, items[..n], tick, results);
      HandoverItemKeeps(rules, states, b, items[n], tick, results(n), Touch(s, events));
      var (b1, events1) := HandoverItem(rules, states, b, items[n], tick, results(n));
      TouchConcat(s, events, events1);
    }
  }

  lemma {:induction false} TouchRuleWrites(s: set<Channel>, events: seq<Event>, c: Channel)
    requires forall e | e in events :: !e.HandoverWrite? && e.channel == c
    ensures s <= Touch(s, events) <= s + {c}
  {
    if events != [] {
      TouchRuleWrites(s, events[..|events| - 1], c);
    }
  }

  lemma {:induction false} RecordUnknownShape(c: Core, rule: Rule, s: RuleState, now: int, saves: bool)
    ensures var (c', s') := RecordUnknown(c, rule, s, now, saves);
            && c' == c.(states := c.states[rule.id := s'], dirty := c'.dirty, disk := c'.disk)
            && s' == s.(control := Some(ControlHold(rule.target, None, now)))
  {}

  lemma {:induction false} HandleWriteFailureShape(c: Core, rule: Rule, s: RuleState, env: RuleEnv, now: int,
                                                   saves: bool)
    ensures var (c', events) := HandleWriteFailure(c, rule, s, env, now, saves);
            && rule.id in c'.states
            && c' == c.(states := c.states[rule.id := c'.states[rule.id]], dirty := c'.dirty, disk := c'.disk)
            && Names(c'.states[rule.id], rule.target)
            && (events == [] || events == [FailSafeWrite(rule.id, rule.target, env.failSafe)])
  {
    RecordUnknownShape(c, rule, s, now, saves);
  }

  /** Only the rule's own entry moves, and it comes to name the rule's target or keeps what it named. */
  ghost predicate TurnShape(c: Core, rule: Rule, c': Core, events: seq<Event>) {
    && rule.id in c'.states
    && c' == c.(states := c.states[rule.id := c'.states[rule.id]], dirty := c'.dirty, disk := c'.disk)
    && (Names(c'.states[rule.id], rule.target) || c'.states[rule.id].control == StateOf(c.states, rule.id).control)
    && (forall e | e in events :: !e.HandoverWrite? && e.rule == rule.id && e.channel == rule.target)
    && (Names(c'.states[rule.id], rule.target) || events == [] || events == [RuleWrite(rule.id, rule.target, Rejected)])
  }

  lemma {:induction false} UnconfirmedShape(c: Core, rule: Rule, s: RuleState, env: RuleEnv, now: int, saves: bool)
    ensures var (c', events) := AfterUnconfirmed(c, rule, s, env, now, saves);
            && rule.id in c'.states
            && c' == c.(states := c.states[rule.id := c'.states[rule.id]], dirty := c'.dirty, disk := c'.disk)
            && Names(c'.states[rule.id], rule.target)
            && (events == [] || events == [FailSafeWrite(rule.id, rule.target, env.failSafe)])
  {
    var s0 := s.(unconfirmedRun := s.unconfirmedRun + 1);
    RecordUnknownShape(c, rule, s0, now, saves);
    var (c1, s1) := RecordUnknown(c, rule, s0, now, saves);
    if s1.unconfirmedRun >= MAX_CONSECUTIVE_UNCONFIRMED {
      var s2 := s1.(unconfirmedRun := 0);
      HandleWriteFailureShape(c1, rule, s2, env, now, saves);
      var c2 := HandleWriteFailure(c1, rule, s2, env, now, saves).0;
      assert c.states[rule.id := s1][rule.id := c2.states[rule.id]] == c.states[rule.id := c2.states[rule.id]];
    }
  }

  lemma {:induction false} RunRuleShape(c: Core, rule: Rule, env: RuleEnv, now: int, saves: bool)
    ensures var (c', events) := RunRule(c, rule, env, now, saves); TurnShape(c, rule, c', events)
  {
    hide AfterUnconfirmed, HandleWriteFailure;
    var s := StateOf(c.states, rule.id).(nextDueMs := now + rule.interval);
    UnconfirmedShape(c, rule, s, env, now, saves);
    HandleWriteFailureShape(c, rule, s, env, now, saves);
  }

  lemma {:induction false} RuleTurnShape(c: Core, n: nat, env: TickEnv)
    requires n < |c.rules|
    ensures var (c', events) := RuleTurn(c, n, env);
            if c.rules[n].enabled then TurnShape(c, c.rules[n], c', events) else c' == c && events == []
  {
    hide RunRule;
    RunRuleShape(c, c.rules[n], env.rule(n), env.now, env.saves);
  }

  lemma {:induction false} TouchShape(s: set<Channel>, events: seq<Event>, rule: Rule)
    requires forall e | e in events :: !e.HandoverWrite? && e.rule == rule.id && e.channel == rule.target
    ensures Touch(s, events) <= s + {rule.target}
    ensures events == [] || events == [RuleWrite(rule.id, rule.target, Rejected)] ==> Touch(s, events) == s
  {
    TouchRuleWrites(s, events, rule.target);
    if events == [RuleWrite(rule.id, rule.target, Rejected)] {
      assert events[..0] == [];
      assert Touch(s, events[..0]) == s;
    }
  }

  lemma {:induction false} MovedHolds(rules: seq<Rule>, states: States, rule: Rule, entry: RuleState)
    requires Unambiguous(rules) && HoldsKnown(states, rules) && rule in rules && rule.enabled
    requires Names(entry, rule.target) || entry.control == StateOf(states, rule.id).control
    ensures HoldsKnown(states[rule.id := entry], rules)
    ensures forall d :: Held(states, d) ==> Held(states[rule.id := entry], d)
  {
    var after := states[rule.id := entry];
    assert rules[FindFirst(rules, rule)].target == rule.target;
    assert rule.id in states && states[rule.id].control.Some? ==> NamesTarget(states[rule.id], rules, rule.id);
    forall id | id in after && after[id].control.Some? ensures NamesTarget(after[id], rules, id) {
      if id != rule.id {
        assert NamesTarget(states[id], rules, id);
      }
    }
    forall d | Held(states, d) ensures Held(after, d) {
      var id :| id in states && Names(states[id], d);
      assert Names(after[id], d);
    }
  }

  lemma {:induction false} RuleTurnKeeps(c: Core, n: nat, env: TickEnv, s: set<Channel>)
    requires n < |c.rules|
    requires Good(c) && AllCovered(s, c.states, c.book)
    ensures var (c', events) := RuleTurn(c, n, env);
            && Good(c') && c'.book == c.book
            && AllCovered(Touch(s, events), c'.states, c'.book)
  {
    var rule := c.rules[n];
    assert rule in c.rules;
    var (c', events) := RuleTurn(c, n, env);
    RuleTurnShape(c, n, env);
    if rule.enabled {
      MovedHolds(c.rules, c.states, rule, c'.states[rule.id]);
      TouchShape(s, events, rule);
      assert Names(c'.states[rule.id], rule.target) ==> Held(c'.states, rule.target);
    }
  }

  lemma {:induction false} RunRulesKeeps(c: Core, n: nat, env: TickEnv, s: set<Channel>)
    requires n <= |c.rules|
    requires Good(c) && AllCovered(s, c.states, c.book)
    ensures var (c', events) := RunRules(c, n, env);
            && Good(c') && c'.book == c.book
            && AllCovered(Touch(s, events), c'.states, c'.book)
  {
    if n > 0 {
      RunRulesKeeps(c, n - 1, env, s);
      var (c1, events) := RunRules(c, n - 1, env);
      RuleTurnKeeps(c1, n - 1, env, Touch(s, events));
      TouchConcat(s, events, RuleTurn(c1, n - 1, env).1);
    }
  }

  lemma {:induction false} PerformKeeps(c: Core, env: TickEnv, tick: nat, s: set<Channel>)
    requires Good(c) && AllCovered(s, c.states, c.book)
    ensures var (c', events) := PerformHandovers(c, env, tick);
            && Good(c') && c'.rules == c.rules
            && AllCovered(Touch(s, events), c'.states, c'.book)
  {
    VerifyKeeps(c, env);
    var c1 := VerifyRecovered(c, env);
    HandoverPassKeeps(c1.rules, c1.states, c1.book, c1.book, tick, env.handover, s);
  }

  lemma {:induction false} TickKeeps(c: Core, env: TickEnv, s: set<Channel>)
    requires Good(c) && AllCovered(s, c.states, c.book)
    ensures Good(Tick(c, env).0)
    ensures AllCovered(Touch(s, Tick(c, env).1), Tick(c, env).0.states, Tick(c, env).0.book)
  {
    var c0 := c.(ticks := c.ticks + 1);
    if env.automation {
      PerformKeeps(c0, env, c.ticks, s);
      var (c1, events) := PerformHandovers(c0, env, c.ticks);
      RunRulesKeeps(c1, |c1.rules|, env, Touch(s, events));
      var (c2, events1) := RunRules(c1, |c1.rules|, env);
      TouchConcat(s, events, events1);
      FlushKeeps(c2, env.saves);
    }
  }

  // ------------------------------------------------------------------ whole runs

  /** A reload leaves no rule whose id first names another channel than the one it drives. */
  ghost predicate UnambiguousLoad(op: Op) {
    op.LoadRules? ==> Unambiguous(Loaded(op.report))
  }

  /** The channels rules are answerable for at the end of a run: a crash starts a new session. */
  ghost function Answerable(disk: Record, ops: seq<Op>): set<Channel> {
    if ops == [] then {} else
    var n := |ops| - 1;
    if ops[n].Crash? then {} else Touch(Answerable(disk, ops[..n]), Step(Run(disk, ops[..n]), ops[n]).1)
  }

  lemma {:induction false} StepKeeps(c: Core, op: Op, s: set<Channel>)
    requires Good(c) && AllCovered(s, c.states, c.book) && UnambiguousLoad(op)
    ensures Good(Step(c, op).0)
    ensures !op.Crash? ==> AllCovered(Touch(s, Step(c, op).1), Step(c, op).0.states, Step(c, op).0.book)
  {
    hide Load, Save, Delete, Tick, VerifyRecovered;
    match op
    case LoadRules(report, saves) => LoadKeeps(c, report, saves);
    case SaveRule(rule, accepted, saves) => SaveKeeps(c, rule, accepted, saves);
    case SetRuleEnabled(id, enabled, accepted, saves) =>
      var i := FindRule(c.rules, id);
      if i < |c.rules| {
        SaveKeeps(c, c.rules[i].(enabled := enabled), accepted, saves);
      }
    case DeleteRule(id, saves) => DeleteKeeps(c, id, saves);
    case DoTick(env) => TickKeeps(c, env, s);
    case VerifyState(env) => VerifyKeeps(c, env);
    case RetryAll =>
      RearmKeeps(c.book, c.ticks);
      SameItemsOwed(c.book, RetryFailed(c.book, c.ticks));
    case RetryOne(channel) =>
      FirstTouchedKeeps(c.book, RetryFailedOne(c.book, channel, c.ticks), channel);
    case ResetStates =>
      forall d | Held(c.states, d) ensures Held(Step(c, op).0.states, d) {
        var id :| id in c.states && Names(c.states[id], d);
        assert Names(Step(c, op).0.states[id], d);
      }
    case PersistState(saves) =>
    case Stop(saves) =>
    case Crash =>
  }

  lemma {:induction false} RunKeeps(disk: Record, ops: seq<Op>)
    requires forall op | op in ops :: UnambiguousLoad(op)
    ensures Good(Run(disk, ops))
    ensures AllCovered(Answerable(disk, ops), Run(disk, ops).states, Run(disk, ops).book)
  {
    if ops != [] {
      var n := |ops| - 1;
      RunKeeps(disk, ops[..n]);
      StepKeeps(Run(disk, ops[..n]), ops[n], Answerable(disk, ops[..n]));
    }
  }

  /**
   * Responsibility is never lost: whatever mix of loads, saves, retargets, enables, disables,
   * deletes, ticks, retries and crashes, every channel a rule of this session wrote to is named
   * by a hold or by an open handover, until a fail-safe write to it is confirmed.
   */
  lemma {:induction false} ResponsibilityNeverLost(disk: Record, ops: seq<Op>, c: Channel)
    requires forall op | op in ops :: UnambiguousLoad(op)
    requires c in Answerable(disk, ops)
    ensures Covers(Run(disk, ops).states, Run(disk, ops).book, c)
  {
    RunKeeps(disk, ops);
  }
}
