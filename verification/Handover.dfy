/**
 * The book of channels a rule stopped driving and that are still owed the fail-safe duty.
 *
 * The book is the list of open handovers. Every operation of the program looks a channel up
 * with "first item naming it", so duplicates (which only a restart can create) stay visible
 * in the model.
 */
module Handovers {
  import opened Ids

  const HANDOVER_RETRY_TICKS: nat := 5
  const MAX_HANDOVER_ATTEMPTS: nat := 5
  const HANDOVER_OWNER_WAIT_TICKS: nat := 50

  /** The states an open item can be in; confirmed and superseded items leave the book. */
  datatype State = Pending | NeedsVerification | AwaitingOwner | Failed

  datatype Handover = Handover(
    channel: Channel,
    fromRule: RuleId,
    state: State,
    attempts: nat,
    claimedTicks: nat,
    /** Parked because a claimant never took control, not because its own writes failed. */
    parkedByClaim: bool,
    nextAttemptTick: nat)

  type Book = seq<Handover>

  /** Is the channel still owed? */
  predicate Owed(book: Book, c: Channel) {
    exists i | 0 <= i < |book| :: book[i].channel == c
  }

  /** Position of the first item for `c`, or the length of the book. */
  function Find(book: Book, c: Channel): (i: nat)
    ensures i <= |book|
    ensures i < |book| ==> book[i].channel == c
    ensures forall j | 0 <= j < i :: book[j].channel != c
  {
    if book == [] then 0 else if book[0].channel == c then 0 else 1 + Find(book[1..], c)
  }

  /** The first item naming `c` is where the book first names it. */
  lemma {:induction false} FindIs(book: Book, c: Channel, i: nat)
    requires i <= |book| && (i < |book| ==> book[i].channel == c)
    requires forall j | 0 <= j < i :: book[j].channel != c
    ensures Find(book, c) == i
  {}

  /** Queue a channel, or fold it into the handover already waiting for it. */
  function Queue(book: Book, c: Channel, from: RuleId, tick: nat): Book {
    var i := Find(book, c);
    if i < |book| then
      book[i := book[i].(fromRule := from,
                         nextAttemptTick := if book[i].nextAttemptTick > tick then tick else book[i].nextAttemptTick)]
    else
      book + [Handover(c, from, Pending, 0, 0, false, tick)]
  }

  /** An enabled rule names the channel without driving it: start, or go on, waiting for it. */
  function MarkAwaiting(book: Book, c: Channel): (r: (Book, nat)) {
    var i := Find(book, c);
    if i == |book| then (book, 0) else
    var item := book[i];
    var begun := if item.state.Pending? then item.(state := AwaitingOwner, claimedTicks := 0) else item;
    var waited := if begun.state.AwaitingOwner? then begun.(claimedTicks := begun.claimedTicks + 1) else begun;
    (book[i := waited], waited.claimedTicks)
  }

  /** The claim went unmet for too long. */
  function ParkUnmetClaim(book: Book, c: Channel): Book {
    var i := Find(book, c);
    if i < |book| && book[i].state.AwaitingOwner?
    then book[i := book[i].(state := Failed, parkedByClaim := true)]
    else book
  }

  /** The claim is gone: an item that was waiting for it, or parked because of it, resumes. */
  function ReleaseClaim(book: Book, c: Channel, tick: nat): (r: (Book, bool)) {
    var i := Find(book, c);
    if i < |book| && (book[i].state.AwaitingOwner? || (book[i].state.Failed? && book[i].parkedByClaim))
    then (book[i := book[i].(state := Pending, claimedTicks := 0, parkedByClaim := false,
                             attempts := 0, nextAttemptTick := tick)], true)
    else (book, false)
  }

  /** A recovered item arrives unverified, whatever it was when it was written down. */
  function Restore(book: Book, item: Handover): Book {
    book + [item.(state := NeedsVerification)]
  }

  /** A recovered item whose channel exists and is writable becomes live work. */
  function Verified(book: Book, c: Channel, tick: nat): (r: (Book, bool)) {
    var i := Find(book, c);
    if i < |book| && book[i].state.NeedsVerification?
    then (book[i := book[i].(state := Pending, attempts := 0, nextAttemptTick := tick)], true)
    else (book, false)
  }

  /** A recovered item whose channel cannot be used fails visibly. */
  function FailRecovered(book: Book, c: Channel): (r: (Book, bool)) {
    var i := Find(book, c);
    if i < |book| && book[i].state.NeedsVerification?
    then (book[i := book[i].(state := Failed, parkedByClaim := false)], true)
    else (book, false)
  }

  predicate IsDue(book: Book, c: Channel, tick: nat) {
    var i := Find(book, c);
    i < |book| && book[i].state.Pending? && tick >= book[i].nextAttemptTick
  }

  /** An attempt was made and did not settle the channel. */
  function RecordAttempt(book: Book, c: Channel, tick: nat): Book {
    var i := Find(book, c);
    if i == |book| then book else
    var item := book[i].(attempts := book[i].attempts + 1, nextAttemptTick := tick + HANDOVER_RETRY_TICKS);
    book[i := if item.attempts >= MAX_HANDOVER_ATTEMPTS then item.(state := Failed) else item]
  }

  /** The item is settled (confirmed or superseded) and leaves the book. */
  function Settle(book: Book, c: Channel): Book {
    var i := Find(book, c);
    if i == |book| then book else book[..i] + book[i + 1..]
  }

  function Rearm(item: Handover, tick: nat): Handover {
    if item.state.Failed? then item.(state := Pending, attempts := 0, nextAttemptTick := tick) else item
  }

  function RetryFailed(book: Book, tick: nat): (r: Book)
    ensures |r| == |book|
    ensures forall i | 0 <= i < |book| :: r[i] == Rearm(book[i], tick)
  {
    hide Find;
    seq(|book|, i requires 0 <= i < |book| => Rearm(book[i], tick))
  }

  function RetryFailedOne(book: Book, c: Channel, tick: nat): Book {
    var i := Find(book, c);
    if i == |book| then book else book[i := Rearm(book[i], tick)]
  }

  // ------------------------------------------------------------------ what every operation keeps

  /**
   * Two items for one channel: only the first can be anything but unverified. A restart
   * creates duplicates (a stored handover and a stored unconfirmed write for one channel).
   */
  ghost predicate DuplicatesUnverified(book: Book) {
    forall i, j | 0 <= i < j < |book| && book[i].channel == book[j].channel :: book[j].state.NeedsVerification?
  }

  /** `b` keeps every item of `a` in place, naming the same channel. */
  ghost predicate SameItems(a: Book, b: Book) {
    |a| == |b| && forall i | 0 <= i < |a| :: a[i].channel == b[i].channel
  }

  /** `b` differs from `a` at most in the first item of `c`, which keeps its channel. */
  ghost predicate FirstTouched(a: Book, b: Book, c: Channel) {
    SameItems(a, b) && forall i | 0 <= i < |a| && i != Find(a, c) :: a[i] == b[i]
  }

  lemma {:induction false} FirstTouchedKeeps(a: Book, b: Book, c: Channel)
    requires FirstTouched(a, b, c)
    requires DuplicatesUnverified(a)
    ensures DuplicatesUnverified(b)
    ensures forall d :: Owed(a, d) <==> Owed(b, d)
  {
    forall i, j | 0 <= i < j < |b| && b[i].channel == b[j].channel
      ensures b[j].state.NeedsVerification?
    {
      assert a[i].channel == a[j].channel;
    }
    SameItemsOwed(a, b);
  }

  lemma {:induction false} SameItemsOwed(a: Book, b: Book)
    requires SameItems(a, b)
    ensures forall d :: Owed(a, d) <==> Owed(b, d)
  {
    forall d ensures Owed(a, d) <==> Owed(b, d) {
      if Owed(a, d) {
        var i :| 0 <= i < |a| && a[i].channel == d;
        assert b[i].channel == d;
      }
      if Owed(b, d) {
        var i :| 0 <= i < |b| && b[i].channel == d;
        assert a[i].channel == d;
      }
    }
  }

  lemma {:induction false} QueueOwes(book: Book, c: Channel, from: RuleId, tick: nat)
    requires DuplicatesUnverified(book)
    ensures var b := Queue(book, c, from, tick);
            && DuplicatesUnverified(b)
            && forall d :: Owed(b, d) <==> (Owed(book, d) || d == c)
  {
    var b := Queue(book, c, from, tick);
    var i := Find(book, c);
    if i < |book| {
      assert FirstTouched(book, b, c);
      FirstTouchedKeeps(book, b, c);
    } else {
      assert b[|book|].channel == c;
      forall d ensures Owed(b, d) <==> (Owed(book, d) || d == c) {
        if Owed(book, d) {
          var k :| 0 <= k < |book| && book[k].channel == d;
          assert b[k].channel == d;
        }
      }
    }
  }

  /** Settling takes out one item and moves no other past another. */
  lemma {:induction false} SettleTakesOne(book: Book, c: Channel)
    ensures var i := Find(book, c);
            var b := Settle(book, c);
            if i == |book| then b == book
            else |b| == |book| - 1 && forall k | 0 <= k < |b| :: b[k] == book[if k < i then k else k + 1]
  {
    hide Find;
  }

  /** Only the settled channel can leave the book, and it stays owed when it was listed twice. */
  lemma {:induction false} SettleOwes(book: Book, c: Channel)
    requires DuplicatesUnverified(book)
    ensures var b := Settle(book, c);
            && DuplicatesUnverified(b)
            && (forall d :: Owed(b, d) ==> Owed(book, d))
            && forall d | d != c :: Owed(book, d) ==> Owed(b, d)
  {
    var b := Settle(book, c);
    var i := Find(book, c);
    SettleTakesOne(book, c);
    hide Find, Settle;
    if i < |book| {
      var at := (k: int) => if k < i then k else k + 1;
      assert forall k | 0 <= k < |b| :: b[k] == book[at(k)];
      forall k, l | 0 <= k < l < |b| && b[k].channel == b[l].channel ensures b[l].state.NeedsVerification? {
        assert book[at(k)].channel == book[at(l)].channel;
      }
      forall d | Owed(b, d) ensures Owed(book, d) {
        var k :| 0 <= k < |b| && b[k].channel == d;
        assert book[at(k)].channel == d;
      }
      forall d | d != c && Owed(book, d) ensures Owed(b, d) {
        var k :| 0 <= k < |book| && book[k].channel == d;
        assert b[if k < i then k else k - 1].channel == d;
      }
    }
  }

  lemma {:induction false} MarkAwaitingTouches(book: Book, c: Channel)
    ensures FirstTouched(book, MarkAwaiting(book, c).0, c)
  {}

  lemma {:induction false} ParkTouches(book: Book, c: Channel)
    ensures FirstTouched(book, ParkUnmetClaim(book, c), c)
  {}

  lemma {:induction false} ReleaseTouches(book: Book, c: Channel, tick: nat)
    ensures FirstTouched(book, ReleaseClaim(book, c, tick).0, c)
  {}

  lemma {:induction false} RecordTouches(book: Book, c: Channel, tick: nat)
    ensures FirstTouched(book, RecordAttempt(book, c, tick), c)
  {}

  lemma {:induction false} VerifiedTouches(book: Book, c: Channel, tick: nat)
    ensures FirstTouched(book, Verified(book, c, tick).0, c)
    ensures FirstTouched(book, FailRecovered(book, c).0, c)
  {}

  lemma {:induction false} RearmKeeps(book: Book, tick: nat)
    requires DuplicatesUnverified(book)
    ensures DuplicatesUnverified(RetryFailed(book, tick)) && SameItems(book, RetryFailed(book, tick))
  {
    var b := RetryFailed(book, tick);
    forall i, j | 0 <= i < j < |b| && b[i].channel == b[j].channel ensures b[j].state.NeedsVerification? {
      assert book[i].channel == book[j].channel;
      assert b[j] == Rearm(book[j], tick);
    }
  }

  lemma {:induction false} RestoreOwes(book: Book, item: Handover)
    requires DuplicatesUnverified(book)
    ensures var b := Restore(book, item);
            && DuplicatesUnverified(b)
            && forall d :: Owed(b, d) <==> (Owed(book, d) || d == item.channel)
  {
    var b := Restore(book, item);
    assert b[|book|].channel == item.channel;
    forall d ensures Owed(b, d) <==> (Owed(book, d) || d == item.channel) {
      if Owed(book, d) {
        var k :| 0 <= k < |book| && book[k].channel == d;
        assert b[k].channel == d;
      }
    }
  }
}
