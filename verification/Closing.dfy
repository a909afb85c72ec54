/**
 * What a cycle does to the channels that are owed: which of them it closes, which it writes, how
 * long it waits for a rule that claims one, and when it gives up waiting.
 */
module Closing {
  import opened Ids
  import opened Handovers
  import opened Engine
  import opened Rules
  import opened Responsibility
  import opened Ownership

  // ------------------------------------------------------------------ counting the book

  /** How often the book lists the channel. */
  function Count(book: Book, d: Channel): nat {
    if book == [] then 0 else
    Count(book[..|book| - 1], d) + if book[|book| - 1].channel == d then 1 else 0
  }

  lemma {:induction false} CountOwed(book: Book, d: Channel)
    ensures Owed(book, d) <==> Count(book, d) > 0
  {
    if book != [] {
      var n := |book| - 1;
      CountOwed(book[..n], d);
      if Owed(book[..n], d) {
        var i :| 0 <= i < n && book[..n][i].channel == d;
        assert book[i].channel == d;
      }
      if Owed(book, d) {
        var i :| 0 <= i < |book| && book[i].channel == d;
        assert i < n ==> book[..n][i].channel == d;
      }
    }
  }

  lemma {:induction false} CountConcat(a: Book, b: Book, d: Channel)
    ensures Count(a + b, d) == Count(a, d) + Count(b, d)
  {
    if b == [] {
      assert a + b == a;
    } else {
      CountConcat(a, b[..|b| - 1], d);
      assert (a + b)[..|a + b| - 1] == a + b[..|b| - 1];
    }
  }

  lemma {:induction false} CountSame(a: Book, b: Book, d: Channel)
    requires SameItems(a, b)
    ensures Count(a, d) == Count(b, d)
  {
    if a != [] {
      CountSame(a[..|a| - 1], b[..|b| - 1], d);
    }
  }

  lemma {:induction false} SettleCounts(book: Book, c: Channel, d: Channel)
    ensures Count(Settle(book, c), d) == if c == d && Owed(book, d) then Count(book, d) - 1 else Count(book, d)
  {
    hide Find;
    CountOwed(book, d);
    var i := Find(book, c);
    if i < |book| {
      assert book == book[..i] + ([book[i]] + book[i + 1..]);
      CountConcat(book[..i], [book[i]] + book[i + 1..], d);
      CountConcat([book[i]], book[i + 1..], d);
      CountConcat(book[..i], book[i + 1..], d);
      assert [book[i]][..0] == [];
    }
  }

  /** How many fail-safe writes to the channel the device confirmed. */
  function Confirmations(events: seq<Event>, d: Channel): nat {
    if events == [] then 0 else
    var e := events[|events| - 1];
    Confirmations(events[..|events| - 1], d) + if Confirms(e) && e.channel == d then 1 else 0
  }

  lemma {:induction false} ConfirmationsConcat(a: seq<Event>, b: seq<Event>, d: Channel)
    ensures Confirmations(a + b, d) == Confirmations(a, d) + Confirmations(b, d)
  {
    if b == [] {
      assert a + b == a;
    } else {
      ConfirmationsConcat(a, b[..|b| - 1], d);
      assert (a + b)[..|a + b| - 1] == a + b[..|b| - 1];
    }
  }

  lemma {:induction false} NoConfirmations(events: seq<Event>, d: Channel)
    requires forall e | e in events :: !e.HandoverWrite?
    ensures Confirmations(events, d) == 0
  {
    if events != [] {
      NoConfirmations(events[..|events| - 1], d);
    }
  }

  // ------------------------------------------------------------------ who drives a channel

  /** Rule `k` is the first enabled rule that targets the channel. */
  predicate FirstOn(rules: seq<Rule>, k: nat, d: Channel)
    requires k < |rules|
  {
    && rules[k].enabled && rules[k].target == d
    && forall j | 0 <= j < k :: !(rules[j].enabled && rules[j].target == d)
  }

  ghost predicate Claimed(rules: seq<Rule>, d: Channel) {
    exists k | 0 <= k < |rules| :: rules[k].enabled && rules[k].target == d
  }

  /** The first enabled rule on the channel holds it, and the device confirmed a value for that hold. */
  ghost predicate TakenOver(rules: seq<Rule>, states: States, d: Channel) {
    exists k | 0 <= k < |rules| ::
      && FirstOn(rules, k, d)
      && Names(StateOf(states, rules[k].id), d)
      && StateOf(states, rules[k].id).control.value.confirmed.Some?
  }

  lemma {:induction false} ClaimedIsClaimant(rules: seq<Rule>, d: Channel)
    ensures Claimed(rules, d) <==> Claimant(rules, d) < |rules|
    ensures Claimed(rules, d) ==> FirstOn(rules, Claimant(rules, d), d)
  {
    if Claimant(rules, d) < |rules| {
      assert rules[Claimant(rules, d)].enabled;
    }
  }

  lemma {:induction false} TakenOverIsConfirmed(rules: seq<Rule>, states: States, d: Channel)
    ensures TakenOver(rules, states, d) <==> ConfirmedOwner(rules, states, d)
    ensures TakenOver(rules, states, d) ==> Claimed(rules, d)
  {
    hide Claimant;
    ClaimedIsClaimant(rules, d);
    var k := Claimant(rules, d);
    if TakenOver(rules, states, d) {
      var j :| 0 <= j < |rules| && FirstOn(rules, j, d) && Names(StateOf(states, rules[j].id), d)
               && StateOf(states, rules[j].id).control.value.confirmed.Some?;
      assert j == k;
    }
    if ConfirmedOwner(rules, states, d) {
      assert FirstOn(rules, k, d) && Names(StateOf(states, rules[k].id), d);
    }
  }

  // ------------------------------------------------------------------ the balance of one cycle

  lemma {:induction false} ClaimedItemBalance(book: Book, c: Channel, d: Channel)
    ensures Count(MarkAwaiting(book, c).0, d) == Count(book, d)
    ensures Count(ParkUnmetClaim(MarkAwaiting(book, c).0, c), d) == Count(book, d)
  {
    var b := MarkAwaiting(book, c).0;
    MarkAwaitingTouches(book, c);
    CountSame(book, b, d);
    ParkTouches(b, c);
    CountSame(b, ParkUnmetClaim(b, c), d);
  }

  lemma {:induction false} OneConfirmation(e: Event, d: Channel)
    ensures Confirmations([e], d) == if Confirms(e) && e.channel == d then 1 else 0
  {
    assert [e][..0] == [];
  }

  lemma {:induction false} DueIsOwed(book: Book, c: Channel, tick: nat)
    ensures IsDue(book, c, tick) ==> Owed(book, c)
  {}

  lemma {:induction false} AttemptBalance(book: Book, h: Handover, tick: nat, result: WriteResult, d: Channel)
    ensures var (b, events) := Attempt(book, h, tick, result);
            Count(b, d) + Confirmations(events, d) == Count(book, d)
  {
    var c := h.channel;
    var b := if h.state.Pending? then book else ReleaseClaim(book, c, tick).0;
    ReleaseTouches(book, c, tick);
    CountSame(book, ReleaseClaim(book, c, tick).0, d);
    RecordTouches(b, c, tick);
    CountSame(b, RecordAttempt(b, c, tick), d);
    SettleCounts(b, c, d);
    CountOwed(b, d);
    DueIsOwed(b, c, tick);
    OneConfirmation(HandoverWrite(c, result), d);
    hide Settle, ReleaseClaim, RecordAttempt, IsDue, Count, Owed, SameItems;
    assert Confirmations([], d) == 0;
  }

  /** One item: it settles for an owner, waits for a claimant, or closes with each confirmed write. */
  lemma {:induction false} ItemBalance(rules: seq<Rule>, states: States, book: Book, h: Handover, tick: nat,
                                       result: WriteResult, d: Channel)
    ensures var (b, events) := HandoverItem(rules, states, book, h, tick, result);
            && (if ConfirmedOwner(rules, states, d)
                then Count(b, d) == if h.channel == d && Count(book, d) > 0 then Count(book, d) - 1 else Count(book, d)
                else Count(b, d) + Confirmations(events, d) == Count(book, d))
            && (Claimant(rules, d) < |rules| ==> Confirmations(events, d) == 0)
  {
    hide Settle, MarkAwaiting, ParkUnmetClaim, Find;
    SettleCounts(book, h.channel, d);
    CountOwed(book, d);
    ClaimedItemBalance(book, h.channel, d);
    hide Attempt;
    AttemptBalance(book, h, tick, result, d);
    AttemptsOwn(book, h, tick, result, d);
  }

  lemma {:induction false} AttemptsOwn(book: Book, h: Handover, tick: nat, result: WriteResult, d: Channel)
    ensures h.channel != d ==> Confirmations(Attempt(book, h, tick, result).1, d) == 0
  {
    var events := Attempt(book, h, tick, result).1;
    if events != [] {
      assert events[..0] == [];
      assert Confirmations([], d) == 0;
    }
  }

  lemma {:induction false} PassBalance(rules: seq<Rule>, states: States, book: Book, items: Book, tick: nat,
                                       results: nat -> WriteResult, d: Channel)
    requires items <= book
    ensures var (b, events) := HandoverPass(rules, states, book, items, tick, results);
            && Count(items, d) <= Count(book, d)
            && (if ConfirmedOwner(rules, states, d) then Count(b, d) == Count(book, d) - Count(items, d)
                else Count(b, d) + Confirmations(events, d) == Count(book, d))
            && (Claimant(rules, d) < |rules| ==> Confirmations(events, d) == 0)
  {
    hide HandoverItem, ConfirmedOwner, Claimant;
    assert book == items + book[|items|..];
    CountConcat(items, book[|items|..], d);
    if items != [] {
      var n := |items| - 1;
      PassBalance(rules, states, book, items[..n], tick, results, d);
      var (b, events) := HandoverPass(rules, states, book, items[..n], tick, results);
      ItemBalance(rules, states, b, items[n], tick, results(n), d);
      ConfirmationsConcat(events, HandoverItem(rules, states, b, items[n], tick, results(n)).1, d);
    }
  }

  /**
   * The balance of a cycle, for every channel. A channel some rule took over is owed no more. Of any
   * other, each confirmed fail-safe write closes one item, and nothing else closes any; while a rule
   * claims the channel there is no such write.
   */
  lemma {:induction false} CycleBalance(c: Core, env: TickEnv, d: Channel)
    ensures var (after, events) := Tick(c, env);
            && Confirmations(events, d) <= Count(c.book, d)
            && Count(after.book, d) == (if !env.automation then Count(c.book, d)
                                        else if TakenOver(c.rules, c.states, d) then 0
                                        else Count(c.book, d) - Confirmations(events, d))
            && (!env.automation || Claimed(c.rules, d) ==> Confirmations(events, d) == 0)
  {
    hide VerifyItems, HandoverPass, RunRules, ConfirmedOwner, TakenOver, Claimed, Claimant, BuildRecord, SameItems;
    var c0 := c.(ticks := c.ticks + 1);
    TakenOverIsConfirmed(c.rules, c.states, d);
    ClaimedIsClaimant(c.rules, d);
    if env.automation {
      VerifySame(c0, env);
      var v := VerifyRecovered(c0, env);
      CountSame(c.book, v.book, d);
      PassBalance(v.rules, v.states, v.book, v.book, c.ticks, env.handover, d);
      var (c1, events) := PerformHandovers(c0, env, c.ticks);
      RunRulesBook(c1, |c1.rules|, env);
      var more := RunRules(c1, |c1.rules|, env).1;
      RuleEventsHaveTurns(c1, |c1.rules|, env);
      NoConfirmations(more, d);
      ConfirmationsConcat(events, more, d);
    }
  }

  lemma {:induction false} VerifyItemsSame(book: Book, items: Book, env: TickEnv, ticks: nat)
    ensures SameItems(book, VerifyItems(book, items, env, ticks).0)
  {
    if items != [] {
      VerifyItemsSame(book, items[..|items| - 1], env, ticks);
      VerifiedTouches(VerifyItems(book, items[..|items| - 1], env, ticks).0, items[|items| - 1].channel, ticks);
    }
  }

  lemma {:induction false} VerifySame(c: Core, env: TickEnv)
    ensures var c' := VerifyRecovered(c, env);
            SameItems(c.book, c'.book) && c' == c.(book := c'.book, dirty := c'.dirty)
  {
    VerifyItemsSame(c.book, c.book, env, c.ticks);
  }

  /** A channel that a rule took over, with a confirmed value to show for it, is owed no more after the cycle. */
  lemma {:induction false} TakenOverCloses(c: Core, env: TickEnv, d: Channel)
    requires env.automation && TakenOver(c.rules, c.states, d)
    ensures !Owed(Tick(c, env).0.book, d)
  {
    hide Tick, TakenOver;
    CycleBalance(c, env, d);
    CountOwed(Tick(c, env).0.book, d);
  }

  /**
   * When an owed channel is owed no more, in every state a run reaches: after a cycle, when a rule had
   * taken it over or every item that listed it was closed by a confirmed fail-safe write; and in no
   * other case.
   */
  lemma {:induction false} ClosesExactly(disk: Record, ops: seq<Op>, op: Op, d: Channel)
    requires !op.Crash? && Owed(Run(disk, ops).book, d)
    ensures var c := Run(disk, ops);
            var (after, events) := Step(c, op);
            !Owed(after.book, d) <==>
              && op.DoTick? && op.env.automation
              && (TakenOver(c.rules, c.states, d) || Confirmations(events, d) == Count(c.book, d))
  {
    hide Run, Tick, TakenOver, Owed, Claimed;
    var c := Run(disk, ops);
    RunDuplicates(disk, ops);
    StepGrows(c, op);
    CountOwed(c.book, d);
    if op.DoTick? {
      CycleBalance(c, op.env, d);
      CountOwed(Tick(c, op.env).0.book, d);
    }
  }

  // ------------------------------------------------------------------ which channels a cycle writes

  /** An item the pass writes when nobody claims its channel: due, or stopped for a claim that is gone. */
  predicate Ripe(h: Handover, tick: nat) {
    match h.state
    case Pending => h.nextAttemptTick <= tick
    case AwaitingOwner => true
    case Failed => h.parkedByClaim
    case NeedsVerification => false
  }

  /** The first item naming the channel. */
  function FirstItem(book: Book, d: Channel): Option<Handover> {
    var i := Find(book, d);
    if i < |book| then Some(book[i]) else None
  }

  predicate FirstRipe(book: Book, d: Channel, tick: nat) {
    FirstItem(book, d).Some? && Ripe(FirstItem(book, d).value, tick)
  }

  lemma {:induction false} RipeIsWritten(rules: seq<Rule>, states: States, book: Book, h: Handover, tick: nat,
                                         result: WriteResult)
    requires Claimant(rules, h.channel) == |rules|
    requires Find(book, h.channel) < |book| && book[Find(book, h.channel)] == h && Ripe(h, tick)
    ensures HandoverItem(rules, states, book, h, tick, result).1 == [HandoverWrite(h.channel, result)]
  {
    ReleaseTouches(book, h.channel, tick);
    var b := ReleaseClaim(book, h.channel, tick).0;
    assert Find(b, h.channel) == Find(book, h.channel);
  }

  lemma {:induction false} PassWritesRipe(rules: seq<Rule>, states: States, book: Book, items: Book, tick: nat,
                                          results: nat -> WriteResult, d: Channel)
    requires DuplicatesUnverified(book) && items <= book && Claimant(rules, d) == |rules|
    ensures var (b, events) := HandoverPass(rules, states, book, items, tick, results);
            && (Writes(events, d) <==> Mentions(items, d) && FirstRipe(book, d, tick))
            && (Mentions(items, d) && !FirstRipe(book, d, tick) ==> Quiet(b, d, tick))
  {
    hide DuplicatesUnverified, Claimant, Find, HandoverItem;
    if items != [] {
      var n := |items| - 1;
      var h := items[n];
      PassWritesRipe(rules, states, book, items[..n], tick, results, d);
      var (b, events) := HandoverPass(rules, states, book, items[..n], tick, results);
      var (b1, more) := HandoverItem(rules, states, b, h, tick, results(n));
      MentionsMore(items, d);
      WritesMore(events, more, d);
      if h.channel != d {
        ItemLeavesOthers(rules, states, b, h, tick, results(n), d);
        QuietCarries(b, b1, d, tick);
      } else if Mentions(items[..n], d) {
        if !FirstRipe(book, d, tick) {
          QuietItem(rules, states, b, h, tick, results(n));
        }
      } else {
        FirstMet(rules, states, book, items, tick, results, d);
        FirstItemWritten(rules, states, b, h, tick, results(n));
      }
    }
  }

  lemma {:induction false} FirstItemWritten(rules: seq<Rule>, states: States, b: Book, h: Handover, tick: nat,
                                            result: WriteResult)
    requires Claimant(rules, h.channel) == |rules|
    requires Find(b, h.channel) < |b| && b[Find(b, h.channel)] == h
    ensures var (b1, events) := HandoverItem(rules, states, b, h, tick, result);
            && (Writes(events, h.channel) <==> Ripe(h, tick))
            && (!Ripe(h, tick) ==> Quiet(b1, h.channel, tick))
  {
    hide HandoverItem;
    if Ripe(h, tick) {
      RipeIsWritten(rules, states, b, h, tick, result);
      assert HandoverItem(rules, states, b, h, tick, result).1[0].channel == h.channel;
    } else {
      QuietItem(rules, states, b, h, tick, result);
    }
  }

  lemma {:induction false} WritesMore(events: seq<Event>, more: seq<Event>, d: Channel)
    ensures Writes(events + more, d) <==> Writes(events, d) || Writes(more, d)
  {
    var all := events + more;
    assert forall i | 0 <= i < |events| :: all[i] == events[i];
    assert forall i | 0 <= i < |more| :: all[|events| + i] == more[i];
  }

  lemma {:induction false} RipeIsMentioned(book: Book, d: Channel, tick: nat)
    ensures FirstRipe(book, d, tick) ==> Mentions(book, d)
  {
    if FirstRipe(book, d, tick) {
      assert book[Find(book, d)].channel == d;
    }
  }

  /**
   * A channel no enabled rule claims is written in a cycle exactly when, once the recovered items were
   * verified, its first item is due, or waits for a claim that is gone, or was parked because of one.
   */
  lemma {:induction false} WrittenExactly(c: Core, env: TickEnv, d: Channel)
    requires DuplicatesUnverified(c.book) && !Claimed(c.rules, d)
    ensures var verified := VerifyRecovered(c.(ticks := c.ticks + 1), env).book;
            Writes(Tick(c, env).1, d) <==> env.automation && FirstRipe(verified, d, c.ticks)
  {
    hide VerifyRecovered, HandoverPass, RunRules, Claimed, Claimant, BuildRecord, DuplicatesUnverified, Writes, FirstRipe;
    ClaimedIsClaimant(c.rules, d);
    if env.automation {
      var c0 := c.(ticks := c.ticks + 1);
      VerifyKeeps(c0, env);
      var v := VerifyRecovered(c0, env);
      PassWritesRipe(v.rules, v.states, v.book, v.book, c.ticks, env.handover, d);
      RipeIsMentioned(v.book, d, c.ticks);
      var (c1, events) := PerformHandovers(c0, env, c.ticks);
      UnclaimedByRules(c1, env, d);
      WritesMore(events, RunRules(c1, |c1.rules|, env).1, d);
    } else {
      NothingWritten(d);
    }
  }

  lemma {:induction false} NothingWritten(d: Channel)
    ensures !Writes([], d)
  {}

  // ------------------------------------------------------------------ what the check of recovered items does

  lemma {:induction false} SameFind(a: Book, b: Book, c: Channel)
    requires SameItems(a, b)
    ensures Find(a, c) == Find(b, c)
  {
    FindIs(b, c, Find(a, c));
  }

  /** A recovered item whose channel is there and writable is live, due and has its whole budget; another has failed. */
  predicate Settled(before: Handover, after: Handover, resolution: Resolution, tick: nat) {
    if !before.state.NeedsVerification? then after == before
    else if resolution.Writable? then after == before.(state := Pending, attempts := 0, nextAttemptTick := tick)
    else after == before.(state := Failed, parkedByClaim := false)
  }

  lemma {:induction false} VerifyOneExact(b: Book, d: Channel, env: TickEnv, tick: nat)
    ensures var b1 := VerifyOne(b, d, env, tick).0;
            && SameItems(b, b1)
            && forall i | 0 <= i < |b| ::
                 if i == Find(b, d) then Settled(b[i], b1[i], env.resolve(d), tick) else b1[i] == b[i]
  {}

  lemma {:induction false} VerifyItemsExact(book: Book, n: nat, env: TickEnv, tick: nat)
    requires n <= |book|
    ensures var b := VerifyItems(book, book[..n], env, tick).0;
            && SameItems(book, b)
            && forall i | 0 <= i < |book| ::
                 if i < n && Find(book, book[i].channel) == i
                 then Settled(book[i], b[i], env.resolve(book[i].channel), tick) else b[i] == book[i]
  {
    hide VerifyOne, Find;
    if n > 0 {
      VerifyItemsExact(book, n - 1, env, tick);
      assert book[..n][..n - 1] == book[..n - 1];
      var b := VerifyItems(book, book[..n - 1], env, tick).0;
      var d := book[n - 1].channel;
      SameFind(book, b, d);
      VerifyOneExact(b, d, env, tick);
    }
  }

  /** The check touches the first item of each channel, and only when the readings are fresh. */
  lemma {:induction false} VerifiedExactly(c: Core, env: TickEnv)
    ensures var v := VerifyRecovered(c, env);
            && SameItems(c.book, v.book)
            && forall i | 0 <= i < |c.book| ::
                 if !env.stale && Find(c.book, c.book[i].channel) == i
                 then Settled(c.book[i], v.book[i], env.resolve(c.book[i].channel), c.ticks) else v.book[i] == c.book[i]
  {
    hide VerifyItems, Find;
    VerifyItemsExact(c.book, |c.book|, env, c.ticks);
    assert c.book[..|c.book|] == c.book;
  }

  lemma {:induction false} LivesOn(c: Core, env: TickEnv, d: Channel)
    requires FirstItem(c.book, d).Some? && !FirstItem(c.book, d).value.state.NeedsVerification?
    ensures FirstItem(VerifyRecovered(c, env).book, d) == FirstItem(c.book, d)
  {
    hide VerifyRecovered, Find;
    VerifiedExactly(c, env);
    SameFind(c.book, VerifyRecovered(c, env).book, d);
  }

  /**
   * A queued channel has a live item that is due at once, in the name of the rule that left it; unless
   * an item that is not live lists it first, which stays as it is.
   */
  lemma {:induction false} QueuedIsDue(book: Book, d: Channel, from: RuleId, tick: nat)
    ensures var queued := FirstItem(Queue(book, d, from, tick), d);
            && queued.Some? && queued.value.fromRule == from
            && (FirstItem(book, d).None? || FirstItem(book, d).value.state.Pending? ==>
                  queued.value.state.Pending? && queued.value.nextAttemptTick <= tick)
            && (FirstItem(book, d).None? ==> queued.value.attempts == 0 && !queued.value.parkedByClaim)
            && (FirstItem(book, d).Some? ==>
                  queued.value.state == FirstItem(book, d).value.state
                  && queued.value.attempts == FirstItem(book, d).value.attempts
                  && queued.value.parkedByClaim == FirstItem(book, d).value.parkedByClaim)
  {
    var b := Queue(book, d, from, tick);
    FindIs(b, d, Find(book, d));
  }

  /** The user's retry: a failed handover of a channel nobody claims is written in the very next cycle. */
  lemma {:induction false} RetryWrites(c: Core, env: TickEnv, d: Channel, all: bool)
    requires DuplicatesUnverified(c.book) && !Claimed(c.rules, d) && env.automation
    requires FirstItem(c.book, d).Some? && FirstItem(c.book, d).value.state.Failed?
    ensures var retried := Step(c, if all then RetryAll else RetryOne(d)).0; Writes(Tick(retried, env).1, d)
  {
    hide Tick, Claimed, VerifyRecovered, Writes;
    var op := if all then RetryAll else RetryOne(d);
    var retried := Step(c, op).0;
    StepGrows(c, op);
    RetriedIsDue(c, d, all);
    LivesOn(retried.(ticks := retried.ticks + 1), env, d);
    WrittenExactly(retried, env, d);
  }

  lemma {:induction false} RetriedIsDue(c: Core, d: Channel, all: bool)
    requires FirstItem(c.book, d).Some? && FirstItem(c.book, d).value.state.Failed?
    ensures var retried := Step(c, if all then RetryAll else RetryOne(d)).0;
            && retried == c.(book := retried.book)
            && FirstItem(retried.book, d).Some?
            && var h := FirstItem(retried.book, d).value;
               h.state.Pending? && h.nextAttemptTick == c.ticks && h.attempts == 0
  {
    var retried := Step(c, if all then RetryAll else RetryOne(d)).0;
    SameFind(c.book, retried.book, d);
  }

  // ------------------------------------------------------------------ waiting for a claimant

  /** What one cycle of waiting does to an item whose channel a rule claims without driving it. */
  function WaitsOnce(h: Handover): Handover {
    match h.state
    case Pending => h.(state := AwaitingOwner, claimedTicks := 1)
    case AwaitingOwner =>
      if h.claimedTicks >= HANDOVER_OWNER_WAIT_TICKS
      then h.(state := Failed, parkedByClaim := true, claimedTicks := h.claimedTicks + 1)
      else h.(claimedTicks := h.claimedTicks + 1)
    case _ => h
  }

  function Waits(h: Handover, n: nat): Handover {
    if n == 0 then h else WaitsOnce(Waits(h, n - 1))
  }

  lemma {:induction false} WaitsMore(h: Handover, m: nat, n: nat)
    ensures Waits(Waits(h, m), n) == Waits(h, m + n)
  {
    if n > 0 {
      WaitsMore(h, m, n - 1);
    }
  }

  /** A live item waits through fifty marks, and the next one parks it for good. */
  lemma {:induction false} WaitsFifty(h: Handover, n: nat)
    requires h.state.Pending?
    ensures Waits(h, n) ==
            if n == 0 then h
            else if n <= 50 then h.(state := AwaitingOwner, claimedTicks := n)
            else h.(state := Failed, claimedTicks := 51, parkedByClaim := true)
  {
    if n > 0 {
      WaitsFifty(h, n - 1);
    }
  }

  lemma {:induction false} ClaimedItemWaits(rules: seq<Rule>, states: States, book: Book, h: Handover, tick: nat,
                                            result: WriteResult, d: Channel)
    requires h.channel == d && Claimant(rules, d) < |rules| && !ConfirmedOwner(rules, states, d)
    requires FirstItem(book, d).Some?
    ensures FirstItem(HandoverItem(rules, states, book, h, tick, result).0, d) == Some(WaitsOnce(FirstItem(book, d).value))
  {
    var i := Find(book, d);
    var b := MarkAwaiting(book, d).0;
    MarkAwaitingTouches(book, d);
    SameFind(book, b, d);
    ParkTouches(b, d);
    SameFind(b, ParkUnmetClaim(b, d), d);
  }

  lemma {:induction false} PassWaits(rules: seq<Rule>, states: States, book: Book, items: Book, tick: nat,
                                     results: nat -> WriteResult, d: Channel)
    requires Claimant(rules, d) < |rules| && !ConfirmedOwner(rules, states, d)
    requires FirstItem(book, d).Some?
    ensures var (b, _) := HandoverPass(rules, states, book, items, tick, results);
            FirstItem(b, d) == Some(Waits(FirstItem(book, d).value, Count(items, d)))
  {
    hide HandoverItem, Claimant, ConfirmedOwner, WaitsOnce, Find;
    if items != [] {
      var n := |items| - 1;
      PassWaits(rules, states, book, items[..n], tick, results, d);
      var (b, _) := HandoverPass(rules, states, book, items[..n], tick, results);
      if items[n].channel == d {
        ClaimedItemWaits(rules, states, b, items[n], tick, results(n), d);
      } else {
        ItemLeavesOthers(rules, states, b, items[n], tick, results(n), d);
      }
    }
  }

  /** In one cycle the first item waits once for every item that lists the channel. */
  lemma {:induction false} CycleWaits(c: Core, env: TickEnv, d: Channel)
    requires env.automation && Claimed(c.rules, d) && !TakenOver(c.rules, c.states, d)
    requires FirstItem(c.book, d).Some? && !FirstItem(c.book, d).value.state.NeedsVerification?
    ensures var after := Tick(c, env).0;
            && FirstItem(after.book, d) == Some(Waits(FirstItem(c.book, d).value, Count(c.book, d)))
            && Count(after.book, d) == Count(c.book, d)
  {
    hide VerifyRecovered, HandoverPass, RunRules, Claimed, TakenOver, Claimant, ConfirmedOwner, BuildRecord, Waits, Find;
    ClaimedIsClaimant(c.rules, d);
    TakenOverIsConfirmed(c.rules, c.states, d);
    CycleBalance(c, env, d);
    var c0 := c.(ticks := c.ticks + 1);
    LivesOn(c0, env, d);
    VerifySame(c0, env);
    var v := VerifyRecovered(c0, env);
    CountSame(c.book, v.book, d);
    PassWaits(v.rules, v.states, v.book, v.book, c.ticks, env.handover, d);
    var c1 := PerformHandovers(c0, env, c.ticks).0;
    RunRulesBook(c1, |c1.rules|, env);
  }

  /** The core after some cycles. */
  function Cycled(c: Core, envs: seq<TickEnv>): Core {
    if envs == [] then c else Tick(Cycled(c, envs[..|envs| - 1]), envs[|envs| - 1]).0
  }

  /** All through the cycles an enabled rule claims the channel, and no rule takes it over. */
  ghost predicate ClaimUnmet(c: Core, envs: seq<TickEnv>, d: Channel) {
    forall i | 0 <= i < |envs| :: envs[i].automation && UnmetIn(Cycled(c, envs[..i]), d)
  }

  ghost predicate UnmetIn(c: Core, d: Channel) {
    Claimed(c.rules, d) && !TakenOver(c.rules, c.states, d)
  }

  lemma {:induction false} WaitsKeepState(h: Handover, n: nat)
    requires !h.state.NeedsVerification?
    ensures !Waits(h, n).state.NeedsVerification?
  {
    if n > 0 {
      WaitsKeepState(h, n - 1);
    }
  }

  /** After `n` cycles of waiting: the first item waited once per cycle and listing. */
  ghost predicate HasWaited(after: Core, d: Channel, h: Handover, listed: nat, n: nat) {
    FirstItem(after.book, d) == Some(Waits(h, n * listed)) && Count(after.book, d) == listed
  }

  lemma {:induction false} CyclesWait(c: Core, envs: seq<TickEnv>, d: Channel, h: Handover)
    requires ClaimUnmet(c, envs, d)
    requires FirstItem(c.book, d) == Some(h) && !h.state.NeedsVerification?
    ensures HasWaited(Cycled(c, envs), d, h, Count(c.book, d), |envs|)
  {
    hide Tick, UnmetIn, FirstItem, HasWaited, Count;
    var m := Count(c.book, d);
    if envs == [] {
      NotYetWaited(c, d, h);
    } else {
      var n := |envs| - 1;
      var before := envs[..n];
      assert forall i | 0 <= i <= n :: before[..i] == envs[..i];
      assert ClaimUnmet(c, before, d);
      CyclesWait(c, before, d, h);
      var b := Cycled(c, before);
      assert envs[n].automation && UnmetIn(b, d);
      WaitedOnceMore(b, envs[n], d, h, m, n);
    }
  }

  lemma {:induction false} WaitedOnceMore(b: Core, env: TickEnv, d: Channel, h: Handover, m: nat, n: nat)
    requires env.automation && UnmetIn(b, d) && HasWaited(b, d, h, m, n) && !h.state.NeedsVerification?
    ensures HasWaited(Tick(b, env).0, d, h, m, n + 1)
  {
    hide Tick, UnmetIn, Waits, FirstItem;
    WaitsKeepState(h, n * m);
    UnmetWaits(b, env, d);
    WaitsMore(h, n * m, m);
    assert n * m + m == (n + 1) * m;
  }

  lemma {:induction false} NotYetWaited(c: Core, d: Channel, h: Handover)
    requires FirstItem(c.book, d) == Some(h)
    ensures HasWaited(c, d, h, Count(c.book, d), 0)
  {
    assert Waits(h, 0) == h;
  }

  lemma {:induction false} UnmetWaits(c: Core, env: TickEnv, d: Channel)
    requires env.automation && UnmetIn(c, d)
    requires FirstItem(c.book, d).Some? && !FirstItem(c.book, d).value.state.NeedsVerification?
    ensures var after := Tick(c, env).0;
            && FirstItem(after.book, d) == Some(Waits(FirstItem(c.book, d).value, Count(c.book, d)))
            && Count(after.book, d) == Count(c.book, d)
  {
    CycleWaits(c, env, d);
  }

  /**
   * A claim that is never met. A live handover, listed once, waits through fifty cycles in which an
   * enabled rule names its channel without driving it; the fifty-first cycle parks it, marked, and no
   * cycle brings it back while the claim lasts.
   */
  lemma {:induction false} UnmetClaimParks(c: Core, envs: seq<TickEnv>, d: Channel)
    requires ClaimUnmet(c, envs, d) && Count(c.book, d) == 1
    requires FirstItem(c.book, d).Some? && FirstItem(c.book, d).value.state.Pending?
    ensures var h := FirstItem(Cycled(c, envs).book, d);
            && h.Some?
            && (0 < |envs| <= 50 ==> h.value.state.AwaitingOwner? && h.value.claimedTicks == |envs|)
            && (|envs| > 50 ==> h.value.state.Failed? && h.value.parkedByClaim)
  {
    hide ClaimUnmet, Cycled, FirstItem, Waits;
    CyclesWait(c, envs, d, FirstItem(c.book, d).value);
    WaitsFifty(FirstItem(c.book, d).value, |envs|);
  }

  /** When the claim goes, an item that waits for it or was parked because of it is written in the next cycle. */
  lemma {:induction false} ReleasedIsWritten(c: Core, env: TickEnv, d: Channel)
    requires DuplicatesUnverified(c.book) && !Claimed(c.rules, d) && env.automation
    requires FirstItem(c.book, d).Some?
    requires var h := FirstItem(c.book, d).value; h.state.AwaitingOwner? || (h.state.Failed? && h.parkedByClaim)
    ensures Writes(Tick(c, env).1, d)
  {
    hide Tick, Claimed, VerifyRecovered, Writes;
    LivesOn(c.(ticks := c.ticks + 1), env, d);
    WrittenExactly(c, env, d);
  }

  // ------------------------------------------------------------------ trying, and giving up

  /** An item after a write that did not settle it: one attempt more, the next in five ticks, none after the fifth. */
  function Tried(h: Handover, tick: nat): Handover {
    var live := if h.state.Pending? then h
                else h.(state := Pending, claimedTicks := 0, parkedByClaim := false, attempts := 0);
    live.(attempts := live.attempts + 1,
          nextAttemptTick := tick + 5,
          state := if live.attempts + 1 >= 5 then Failed else Pending)
  }

  lemma {:induction false} AttemptTried(b: Book, h: Handover, tick: nat, result: WriteResult)
    requires FirstItem(b, h.channel) == Some(h) && Ripe(h, tick) && !Settles(result)
    ensures FirstItem(Attempt(b, h, tick, result).0, h.channel) == Some(Tried(h, tick))
  {
    var c := h.channel;
    ReleaseTouches(b, c, tick);
    var b0 := if h.state.Pending? then b else ReleaseClaim(b, c, tick).0;
    SameFind(b, ReleaseClaim(b, c, tick).0, c);
    RecordTouches(b0, c, tick);
    SameFind(b0, RecordAttempt(b0, c, tick), c);
  }

  lemma {:induction false} FirstItemTried(rules: seq<Rule>, states: States, b: Book, h: Handover, tick: nat,
                                          result: WriteResult)
    requires Claimant(rules, h.channel) == |rules| && FirstItem(b, h.channel) == Some(h)
    ensures var (b1, events) := HandoverItem(rules, states, b, h, tick, result);
            && (!Ripe(h, tick) ==> FirstItem(b1, h.channel) == Some(h))
            && (Ripe(h, tick) && Confirmations(events, h.channel) == 0 ==>
                  FirstItem(b1, h.channel) == Some(Tried(h, tick)))
  {
    hide Attempt, Tried;
    var c := h.channel;
    if Ripe(h, tick) {
      RipeIsWritten(rules, states, b, h, tick, result);
      var events := [HandoverWrite(c, result)];
      assert events[..0] == [];
      if !Settles(result) {
        AttemptTried(b, h, tick, result);
      }
    } else {
      QuietItem(rules, states, b, h, tick, result);
    }
  }

  lemma {:induction false} CountMentions(items: Book, d: Channel)
    ensures Mentions(items, d) <==> Count(items, d) > 0
  {
    CountOwed(items, d);
  }

  lemma {:induction false} PassTries(rules: seq<Rule>, states: States, book: Book, items: Book, tick: nat,
                                     results: nat -> WriteResult, d: Channel, h: Handover)
    requires items <= book && Claimant(rules, d) == |rules|
    requires FirstItem(book, d) == Some(h) && Count(book, d) == 1
    requires Confirmations(HandoverPass(rules, states, book, items, tick, results).1, d) == 0
    ensures var (b, _) := HandoverPass(rules, states, book, items, tick, results);
            FirstItem(b, d) == Some(if Count(items, d) > 0 && Ripe(h, tick) then Tried(h, tick) else h)
  {
    hide HandoverItem, Claimant, Find, Ripe;
    if items != [] {
      var n := |items| - 1;
      var (b, events) := HandoverPass(rules, states, book, items[..n], tick, results);
      var (_, more) := HandoverItem(rules, states, b, items[n], tick, results(n));
      ConfirmationsConcat(events, more, d);
      PassTries(rules, states, book, items[..n], tick, results, d, h);
      assert book == items + book[|items|..];
      CountConcat(items, book[|items|..], d);
      if items[n].channel == d {
        CountMentions(items[..n], d);
        FirstMet(rules, states, book, items, tick, results, d);
        FirstItemTried(rules, states, b, h, tick, results(n));
      } else {
        ItemLeavesOthers(rules, states, b, items[n], tick, results(n), d);
      }
    }
  }

  /** One cycle in which nothing claims the channel and no write to it is confirmed. */
  ghost predicate LeftAlone(c: Core, env: TickEnv, d: Channel) {
    env.automation && !Claimed(c.rules, d) && Confirmations(Tick(c, env).1, d) == 0
  }

  lemma {:induction false} CycleTries(c: Core, env: TickEnv, d: Channel, h: Handover)
    requires LeftAlone(c, env, d) && Count(c.book, d) == 1
    requires FirstItem(c.book, d) == Some(h) && !h.state.NeedsVerification?
    ensures var after := Tick(c, env).0;
            && FirstItem(after.book, d) == Some(if Ripe(h, c.ticks) then Tried(h, c.ticks) else h)
            && Count(after.book, d) == 1
  {
    hide VerifyRecovered, HandoverPass, RunRules, Claimed, TakenOver, Claimant, BuildRecord, Find, Ripe;
    ClaimedIsClaimant(c.rules, d);
    TakenOverIsConfirmed(c.rules, c.states, d);
    CycleBalance(c, env, d);
    var c0 := c.(ticks := c.ticks + 1);
    LivesOn(c0, env, d);
    VerifySame(c0, env);
    var v := VerifyRecovered(c0, env);
    CountSame(c.book, v.book, d);
    var (c1, events) := PerformHandovers(c0, env, c.ticks);
    var more := RunRules(c1, |c1.rules|, env).1;
    ConfirmationsConcat(events, more, d);
    PassTries(v.rules, v.states, v.book, v.book, c.ticks, env.handover, d, h);
    RunRulesBook(c1, |c1.rules|, env);
  }

  lemma {:induction false} TickClock(c: Core, env: TickEnv)
    ensures Tick(c, env).0.ticks == c.ticks + 1 && Tick(c, env).0.rules == c.rules
  {
    hide VerifyItems, HandoverPass, RuleTurn, BuildRecord;
    if env.automation {
      var c1 := PerformHandovers(c.(ticks := c.ticks + 1), env, c.ticks).0;
      RunRulesClock(c1, |c1.rules|, env);
    }
  }

  lemma {:induction false} RunRulesClock(c: Core, n: nat, env: TickEnv)
    requires n <= |c.rules|
    ensures RunRules(c, n, env).0.ticks == c.ticks
  {
    hide RuleTurn;
    if n > 0 {
      RunRulesClock(c, n - 1, env);
      RuleTurnShape(RunRules(c, n - 1, env).0, n - 1, env);
    }
  }

  ghost predicate LeftAloneThroughout(c: Core, envs: seq<TickEnv>, d: Channel) {
    forall i | 0 <= i < |envs| :: LeftAlone(Cycled(c, envs[..i]), envs[i], d)
  }

  /** How many attempts a due item has behind it after `k` cycles: one in the first, then one in every fifth, five in all. */
  function Attempts(k: nat): nat {
    if k > 20 then 5 else (k + 4) / 5
  }

  /** The item after `k` cycles: it was due at `tick`. */
  predicate AfterTries(h: Handover, k: nat, tick: nat, now: Handover) {
    now == if k == 0 then h
           else h.(attempts := Attempts(k), nextAttemptTick := tick + 5 * Attempts(k),
                   state := if k > 20 then Failed else Pending)
  }

  lemma {:induction false} TriesOnce(h: Handover, k: nat, tick: nat, now: Handover)
    requires h.state.Pending? && h.attempts == 0 && !h.parkedByClaim && h.nextAttemptTick <= tick
    requires AfterTries(h, k, tick, now)
    ensures Ripe(now, tick + k) <==> k % 5 == 0 && k <= 20
    ensures AfterTries(h, k + 1, tick, if Ripe(now, tick + k) then Tried(now, tick + k) else now)
  {}

  lemma {:induction false} CyclesTry(c: Core, envs: seq<TickEnv>, d: Channel, h: Handover)
    requires LeftAloneThroughout(c, envs, d) && Count(c.book, d) == 1 && FirstItem(c.book, d) == Some(h)
    requires h.state.Pending? && h.attempts == 0 && !h.parkedByClaim && h.nextAttemptTick <= c.ticks
    ensures var after := Cycled(c, envs);
            && after.ticks == c.ticks + |envs| && Count(after.book, d) == 1
            && FirstItem(after.book, d).Some?
            && AfterTries(h, |envs|, c.ticks, FirstItem(after.book, d).value)
  {
    hide Tick, LeftAlone, FirstItem, Tried, Ripe;
    if envs != [] {
      var n := |envs| - 1;
      var before := envs[..n];
      assert forall i | 0 <= i <= n :: before[..i] == envs[..i];
      assert forall i | 0 <= i < n :: LeftAlone(Cycled(c, envs[..i]), envs[i], d);
      CyclesTry(c, before, d, h);
      var b := Cycled(c, before);
      var now := FirstItem(b.book, d).value;
      assert LeftAlone(b, envs[n], d);
      CycleTries(b, envs[n], d, now);
      TickClock(b, envs[n]);
      TriesOnce(h, n, c.ticks, now);
    }
  }

  predicate Spent(book: Book, d: Channel) {
    FirstItem(book, d).Some? && FirstItem(book, d).value.state.Failed? && !FirstItem(book, d).value.parkedByClaim
  }

  /**
   * Bounded retries. A due handover that nobody claims and no write settles is written in the first
   * cycle and in every fifth one after it, five times in all; then it has failed and is left alone.
   */
  lemma {:induction false} FiveTries(c: Core, envs: seq<TickEnv>, env: TickEnv, d: Channel)
    requires DuplicatesUnverified(Cycled(c, envs).book)
    requires LeftAloneThroughout(c, envs, d) && !Claimed(Cycled(c, envs).rules, d) && env.automation
    requires Count(c.book, d) == 1 && FirstItem(c.book, d).Some?
    requires var h := FirstItem(c.book, d).value;
             h.state.Pending? && h.attempts == 0 && !h.parkedByClaim && h.nextAttemptTick <= c.ticks
    ensures Writes(Tick(Cycled(c, envs), env).1, d) <==> |envs| in {0, 5, 10, 15, 20}
    ensures |envs| > 20 ==> Spent(Cycled(c, envs).book, d)
  {
    hide Tick, Cycled, Claimed, Writes, VerifyRecovered, LeftAloneThroughout, Tried, Count, DuplicatesUnverified;
    var h := FirstItem(c.book, d).value;
    CyclesTry(c, envs, d, h);
    var b := Cycled(c, envs);
    LivesOn(b.(ticks := b.ticks + 1), env, d);
    WrittenExactly(b, env, d);
    TriesOnce(h, |envs|, c.ticks, FirstItem(b.book, d).value);
    assert |envs| % 5 == 0 && |envs| <= 20 <==> |envs| in {0, 5, 10, 15, 20};
  }
}
