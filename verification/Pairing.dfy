/** Pairing tachometers with controls inside one hardware node. */
module Pairing {
  import opened Ids

  datatype Kind = Tachometer | Control | OtherKind

  /** Where a channel number came from: a sensor's display name, or only the end of its path. */
  datatype Anchor = FromName(number: nat) | FromPath(number: nat)

  datatype Sensor = Sensor(kind: Kind, text: string, id: string, nameIndex: Option<nat>, pathIndex: Option<nat>)

  datatype Why =
    | SeveralTachometers(count: nat)
    | SeveralControls(count: nat)
    | DifferentCarriers
    | Unnumbered

  datatype FanChannel = FanChannel(
    anchor: Option<Anchor>,
    rpm: Option<Sensor>,
    control: Option<Sensor>,
    ambiguous: Option<Why>)

  function AnchorOf(s: Sensor): Option<Anchor> {
    if s.nameIndex.Some? then Some(FromName(s.nameIndex.value))
    else if s.pathIndex.Some? then Some(FromPath(s.pathIndex.value))
    else None
  }

  function NumberOf(s: Sensor): Option<nat> {
    if AnchorOf(s).Some? then Some(AnchorOf(s).value.number) else None
  }

  // ------------------------------------------------------------------ the channels of a node

  function OfKind(sensors: seq<Sensor>, kind: Kind): seq<Sensor> {
    if sensors == [] then [] else
    var n := |sensors| - 1;
    OfKind(sensors[..n], kind) + if sensors[n].kind == kind then [sensors[n]] else []
  }

  /** The sensors with that number, or with none, in the order they are listed. */
  function Claiming(sensors: seq<Sensor>, number: Option<nat>): seq<Sensor> {
    if sensors == [] then [] else
    var n := |sensors| - 1;
    Claiming(sensors[..n], number) + if NumberOf(sensors[n]) == number then [sensors[n]] else []
  }

  function Claimants(children: seq<Sensor>, kind: Kind, number: Option<nat>): seq<Sensor> {
    Claiming(OfKind(children, kind), number)
  }

  function AddNumber(number: nat, numbers: seq<nat>): seq<nat> {
    if numbers == [] || number < numbers[0] then [number] + numbers
    else if number == numbers[0] then numbers
    else [numbers[0]] + AddNumber(number, numbers[1..])
  }

  /** Every number a sensor carries, once, in increasing order. */
  function Numbers(sensors: seq<Sensor>): seq<nat> {
    if sensors == [] then [] else
    var n := |sensors| - 1;
    var before := Numbers(sensors[..n]);
    if NumberOf(sensors[n]).Some? then AddNumber(NumberOf(sensors[n]).value, before) else before
  }

  function First(sensors: seq<Sensor>): Option<Sensor> {
    if sensors == [] then None else Some(sensors[0])
  }

  function ChannelFor(rpms: seq<Sensor>, controls: seq<Sensor>): FanChannel {
    FanChannel(
      if rpms != [] then AnchorOf(rpms[0]) else if controls != [] then AnchorOf(controls[0]) else None,
      First(rpms),
      First(controls),
      if |rpms| > 1 then Some(SeveralTachometers(|rpms|))
      else if |controls| > 1 then Some(SeveralControls(|controls|))
      else if |rpms| == 1 && |controls| == 1 && AnchorOf(rpms[0]) != AnchorOf(controls[0]) then Some(DifferentCarriers)
      else None)
  }

  function ChannelAt(children: seq<Sensor>, number: nat): FanChannel {
    ChannelFor(Claimants(children, Tachometer, Some(number)), Claimants(children, Control, Some(number)))
  }

  function Numbered(children: seq<Sensor>, numbers: seq<nat>): (channels: seq<FanChannel>)
    ensures |channels| == |numbers|
  {
    if numbers == [] then [] else
    var n := |numbers| - 1;
    Numbered(children, numbers[..n]) + [ChannelAt(children, numbers[n])]
  }

  function AloneRpms(rpms: seq<Sensor>): seq<FanChannel> {
    if rpms == [] then []
    else AloneRpms(rpms[..|rpms| - 1]) + [FanChannel(None, Some(rpms[|rpms| - 1]), None, None)]
  }

  function AloneControls(controls: seq<Sensor>): seq<FanChannel> {
    if controls == [] then []
    else AloneControls(controls[..|controls| - 1]) + [FanChannel(None, None, Some(controls[|controls| - 1]), Some(Unnumbered))]
  }

  function NumbersOf(children: seq<Sensor>): seq<nat> {
    Numbers(OfKind(children, Tachometer) + OfKind(children, Control))
  }

  function FanChannels(children: seq<Sensor>): (channels: seq<FanChannel>)
    ensures |NumbersOf(children)| <= |channels|
  {
    Numbered(children, NumbersOf(children))
    + AloneRpms(Claimants(children, Tachometer, None))
    + AloneControls(Claimants(children, Control, None))
  }

  method SplitByKind(children: seq<Sensor>) returns (rpms: seq<Sensor>, controls: seq<Sensor>)
    ensures rpms == OfKind(children, Tachometer) && controls == OfKind(children, Control)
  {
    rpms, controls := [], [];
    for i := 0 to |children|
      invariant rpms == OfKind(children[..i], Tachometer) && controls == OfKind(children[..i], Control)
    {
      assert children[..i + 1][..i] == children[..i];
      match children[i].kind {
        case Tachometer => rpms := rpms + [children[i]];
        case Control => controls := controls + [children[i]];
        case OtherKind =>
      }
    }
    assert children[..|children|] == children;
  }

  method PairNumbered(children: seq<Sensor>, rpms: seq<Sensor>, controls: seq<Sensor>, numbers: seq<nat>)
    returns (channels: seq<FanChannel>)
    requires rpms == OfKind(children, Tachometer) && controls == OfKind(children, Control)
    ensures channels == Numbered(children, numbers)
  {
    channels := [];
    for k := 0 to |numbers|
      invariant channels == Numbered(children, numbers[..k])
    {
      assert numbers[..k + 1][..k] == numbers[..k];
      var rpmHere := Claiming(rpms, Some(numbers[k]));
      var controlHere := Claiming(controls, Some(numbers[k]));
      channels := channels + [ChannelFor(rpmHere, controlHere)];
    }
    assert numbers[..|numbers|] == numbers;
  }

  /** Sensors with no number anywhere never share a channel. */
  method KeepApart(rpms: seq<Sensor>, controls: seq<Sensor>) returns (channels: seq<FanChannel>)
    ensures channels == AloneRpms(rpms) + AloneControls(controls)
  {
    channels := [];
    for k := 0 to |rpms|
      invariant channels == AloneRpms(rpms[..k])
    {
      assert rpms[..k + 1][..k] == rpms[..k];
      channels := channels + [FanChannel(None, Some(rpms[k]), None, None)];
    }
    assert rpms[..|rpms|] == rpms;
    for k := 0 to |controls|
      invariant channels == AloneRpms(rpms) + AloneControls(controls[..k])
    {
      assert controls[..k + 1][..k] == controls[..k];
      channels := channels + [FanChannel(None, None, Some(controls[k]), Some(Unnumbered))];
    }
    assert controls[..|controls|] == controls;
  }

  /** The channels as the program builds them: sort the sensors by kind, then one channel per number. */
  method BuildChannels(children: seq<Sensor>) returns (channels: seq<FanChannel>)
    ensures channels == FanChannels(children)
  {
    var rpms, controls := SplitByKind(children);
    var numbered := PairNumbered(children, rpms, controls, Numbers(rpms + controls));
    var alone := KeepApart(Claiming(rpms, None), Claiming(controls, None));
    channels := numbered + alone;
    assert channels == numbered + AloneRpms(Claiming(rpms, None)) + AloneControls(Claiming(controls, None));
  }

  // ------------------------------------------------------------------ counting

  lemma {:induction false} OfKindCounts(sensors: seq<Sensor>, kind: Kind, s: Sensor)
    ensures multiset(OfKind(sensors, kind))[s] == if s.kind == kind then multiset(sensors)[s] else 0
  {
    if sensors != [] {
      var n := |sensors| - 1;
      OfKindCounts(sensors[..n], kind, s);
      assert sensors == sensors[..n] + [sensors[n]];
    }
  }

  lemma {:induction false} ClaimingCounts(sensors: seq<Sensor>, number: Option<nat>, s: Sensor)
    ensures multiset(Claiming(sensors, number))[s] == if NumberOf(s) == number then multiset(sensors)[s] else 0
  {
    if sensors != [] {
      var n := |sensors| - 1;
      ClaimingCounts(sensors[..n], number, s);
      assert sensors == sensors[..n] + [sensors[n]];
    }
  }

  /** The claimants of a number are the children of that kind and number, each as often as it is listed. */
  lemma {:induction false} ClaimantsCount(children: seq<Sensor>, kind: Kind, number: Option<nat>, s: Sensor)
    ensures multiset(Claimants(children, kind, number))[s]
            == if s.kind == kind && NumberOf(s) == number then multiset(children)[s] else 0
  {
    OfKindCounts(children, kind, s);
    ClaimingCounts(OfKind(children, kind), number, s);
  }

  lemma {:induction false} ClaimantsSame(a: seq<Sensor>, b: seq<Sensor>, kind: Kind, number: Option<nat>)
    requires multiset(a) == multiset(b)
    ensures multiset(Claimants(a, kind, number)) == multiset(Claimants(b, kind, number))
    ensures |Claimants(a, kind, number)| == |Claimants(b, kind, number)|
    ensures |Claimants(a, kind, number)| <= 1 ==> Claimants(a, kind, number) == Claimants(b, kind, number)
  {
    var x, y := Claimants(a, kind, number), Claimants(b, kind, number);
    forall s ensures multiset(x)[s] == multiset(y)[s] {
      ClaimantsCount(a, kind, number, s);
      ClaimantsCount(b, kind, number, s);
    }
    assert multiset(x) == multiset(y);
    assert |multiset(x)| == |multiset(y)|;
    if |x| == 1 {
      assert x[0] in multiset(y);
    }
  }

  ghost predicate Increasing(numbers: seq<nat>) {
    forall i, j | 0 <= i < j < |numbers| :: numbers[i] < numbers[j]
  }

  lemma {:induction false} AddMembers(number: nat, numbers: seq<nat>)
    ensures forall k :: k in AddNumber(number, numbers) <==> k == number || k in numbers
  {
    if numbers != [] {
      assert numbers == [numbers[0]] + numbers[1..];
      if number > numbers[0] {
        AddMembers(number, numbers[1..]);
      }
    }
  }

  lemma {:induction false} AddIncreases(number: nat, numbers: seq<nat>)
    requires Increasing(numbers)
    ensures Increasing(AddNumber(number, numbers))
  {
    if numbers != [] && number > numbers[0] {
      var rest := AddNumber(number, numbers[1..]);
      AddIncreases(number, numbers[1..]);
      AddMembers(number, numbers[1..]);
      TailMembers(numbers);
      forall k | 0 <= k < |rest| ensures numbers[0] < rest[k] {
        assert rest[k] in rest;
        LaterIsMore(numbers, rest[k]);
      }
    }
  }

  lemma {:induction false} LaterIsMore(numbers: seq<nat>, k: nat)
    requires Increasing(numbers) && numbers != []
    ensures k in numbers[1..] ==> numbers[0] < k
  {}

  predicate Carried(sensors: seq<Sensor>, number: nat) {
    exists i | 0 <= i < |sensors| :: NumberOf(sensors[i]) == Some(number)
  }

  lemma {:induction false} NumbersSorted(sensors: seq<Sensor>)
    ensures Increasing(Numbers(sensors))
    ensures forall k: nat :: k in Numbers(sensors) <==> Carried(sensors, k)
  {
    if sensors != [] {
      var n := |sensors| - 1;
      NumbersSorted(sensors[..n]);
      var before := Numbers(sensors[..n]);
      if NumberOf(sensors[n]).Some? {
        AddIncreases(NumberOf(sensors[n]).value, before);
        AddMembers(NumberOf(sensors[n]).value, before);
      }
      forall k: nat ensures Carried(sensors, k) <==> Carried(sensors[..n], k) || NumberOf(sensors[n]) == Some(k) {
        if Carried(sensors[..n], k) {
          var i :| 0 <= i < n && NumberOf(sensors[..n][i]) == Some(k);
          assert NumberOf(sensors[i]) == Some(k);
        }
        if Carried(sensors, k) && NumberOf(sensors[n]) != Some(k) {
          var i :| 0 <= i < |sensors| && NumberOf(sensors[i]) == Some(k);
          assert NumberOf(sensors[..n][i]) == Some(k);
        }
      }
    }
  }

  lemma {:induction false} NumbersIncrease(children: seq<Sensor>)
    ensures Increasing(NumbersOf(children))
  {
    NumbersSorted(OfKind(children, Tachometer) + OfKind(children, Control));
  }

  lemma {:induction false} OneIncreasing(a: seq<nat>, b: seq<nat>)
    requires Increasing(a) && Increasing(b)
    requires forall k :: k in a <==> k in b
    ensures a == b
  {
    if a == [] {
      HeadMember(b);
    } else {
      assert a[0] in a;
      assert b[0] in b;
      assert a[0] == b[0];
      TailMembers(a);
      TailMembers(b);
      OneIncreasing(a[1..], b[1..]);
      assert a == [a[0]] + a[1..] && b == [b[0]] + b[1..];
    }
  }

  lemma {:induction false} HeadMember(b: seq<nat>)
    ensures b == [] || b[0] in b
  {}

  lemma {:induction false} TailMembers(a: seq<nat>)
    requires Increasing(a) && a != []
    ensures Increasing(a[1..])
    ensures forall k :: k in a[1..] <==> k in a && k != a[0]
  {
    assert a == [a[0]] + a[1..];
  }

  /** A number has a channel exactly when some tachometer or control carries it. */
  lemma {:induction false} NumbersAreClaimed(children: seq<Sensor>, number: nat)
    ensures number in NumbersOf(children) <==>
      Claimants(children, Tachometer, Some(number)) != [] || Claimants(children, Control, Some(number)) != []
  {
    var rpms, controls := OfKind(children, Tachometer), OfKind(children, Control);
    NumbersSorted(rpms + controls);
    ClaimingSome(rpms, number);
    ClaimingSome(controls, number);
    if Carried(rpms, number) {
      var i :| 0 <= i < |rpms| && NumberOf(rpms[i]) == Some(number);
      assert NumberOf((rpms + controls)[i]) == Some(number);
    }
    if Carried(controls, number) {
      var i :| 0 <= i < |controls| && NumberOf(controls[i]) == Some(number);
      assert NumberOf((rpms + controls)[|rpms| + i]) == Some(number);
    }
    if Carried(rpms + controls, number) {
      var i :| 0 <= i < |rpms + controls| && NumberOf((rpms + controls)[i]) == Some(number);
      assert if i < |rpms| then NumberOf(rpms[i]) == Some(number) else NumberOf(controls[i - |rpms|]) == Some(number);
    }
  }

  lemma {:induction false} ClaimingSome(sensors: seq<Sensor>, number: nat)
    ensures Claiming(sensors, Some(number)) != [] <==> Carried(sensors, number)
  {
    if sensors != [] {
      var n := |sensors| - 1;
      ClaimingSome(sensors[..n], number);
      if Carried(sensors[..n], number) {
        var i :| 0 <= i < n && NumberOf(sensors[..n][i]) == Some(number);
        assert NumberOf(sensors[i]) == Some(number);
      }
      if Carried(sensors, number) && NumberOf(sensors[n]) != Some(number) {
        var i :| 0 <= i < |sensors| && NumberOf(sensors[i]) == Some(number);
        assert NumberOf(sensors[..n][i]) == Some(number);
      }
    }
  }

  lemma {:induction false} NumberedAt(children: seq<Sensor>, numbers: seq<nat>)
    ensures forall k | 0 <= k < |numbers| ::
      Numbered(children, numbers)[k] == ChannelAt(children, numbers[k])
  {
    if numbers != [] {
      NumberedAt(children, numbers[..|numbers| - 1]);
    }
  }

  // ------------------------------------------------------------------ what may be written

  /** A channel the program may write: it has a control, and nothing about it is ambiguous. */
  datatype Pair = Pair(number: nat, rpm: Option<Sensor>, control: Sensor)

  predicate Offers(c: FanChannel, p: Pair) {
    && c.anchor.Some? && c.anchor.value.number == p.number
    && c.rpm == p.rpm && c.control == Some(p.control) && c.ambiguous.None?
  }

  predicate Writable(children: seq<Sensor>, p: Pair) {
    exists k | 0 <= k < |FanChannels(children)| :: Offers(FanChannels(children)[k], p)
  }

  /**
   * When a pairing is shown to be one physical channel: one control carries the number, and
   * either no tachometer does, or one does and got it from the same kind of place.
   */
  predicate Shown(children: seq<Sensor>, p: Pair) {
    var rpms := Claimants(children, Tachometer, Some(p.number));
    && Claimants(children, Control, Some(p.number)) == [p.control]
    && match p.rpm
       case None => rpms == []
       case Some(t) => rpms == [t] && AnchorOf(t) == AnchorOf(p.control)
  }

  lemma {:induction false} ClaimantsAreNumbered(children: seq<Sensor>, kind: Kind, number: Option<nat>)
    ensures forall s | s in Claimants(children, kind, number) :: s.kind == kind && NumberOf(s) == number
  {
    forall s | s in Claimants(children, kind, number) ensures s.kind == kind && NumberOf(s) == number {
      ClaimantsCount(children, kind, number, s);
      assert multiset(Claimants(children, kind, number))[s] > 0;
    }
  }

  lemma {:induction false} ChannelOffers(children: seq<Sensor>, number: nat, p: Pair)
    ensures Offers(ChannelAt(children, number), p) <==> number == p.number && Shown(children, p)
  {
    ClaimantsAreNumbered(children, Tachometer, Some(number));
    ClaimantsAreNumbered(children, Control, Some(number));
  }

  lemma {:induction false} AloneOffersNothing(rpms: seq<Sensor>, controls: seq<Sensor>)
    ensures forall k | 0 <= k < |AloneRpms(rpms)| :: AloneRpms(rpms)[k].anchor.None?
    ensures forall k | 0 <= k < |AloneControls(controls)| :: AloneControls(controls)[k].anchor.None?
  {
    if rpms != [] {
      AloneOffersNothing(rpms[..|rpms| - 1], controls);
    } else if controls != [] {
      AloneOffersNothing(rpms, controls[..|controls| - 1]);
    }
  }

  /** Pairing is sound and complete: exactly the pairings that are shown can be written. */
  lemma {:induction false} WritableExactly(children: seq<Sensor>, p: Pair)
    ensures Writable(children, p) <==> Shown(children, p)
  {
    var numbers := NumbersOf(children);
    var rpms, controls := Claimants(children, Tachometer, None), Claimants(children, Control, None);
    var numbered, all := Numbered(children, numbers), FanChannels(children);
    NumberedAt(children, numbers);
    AloneOffersNothing(rpms, controls);
    NumbersAreClaimed(children, p.number);
    hide Claimants, NumbersOf, Shown, ChannelAt;
    if Writable(children, p) {
      var k :| 0 <= k < |all| && Offers(all[k], p);
      assert k < |numbered|;
      ChannelOffers(children, numbers[k], p);
    }
    if Shown(children, p) {
      ShownIsClaimed(children, p);
      var k :| 0 <= k < |numbers| && numbers[k] == p.number;
      ChannelOffers(children, numbers[k], p);
      assert all[k] == numbered[k];
      assert Offers(all[k], p);
    }
  }

  lemma {:induction false} ShownIsClaimed(children: seq<Sensor>, p: Pair)
    requires Shown(children, p)
    ensures Claimants(children, Control, Some(p.number)) != []
  {}

  /** The pairings that can be written are the same for every order of the node's children. */
  lemma {:induction false} WritableIgnoresOrder(a: seq<Sensor>, b: seq<Sensor>, p: Pair)
    requires multiset(a) == multiset(b)
    ensures Writable(a, p) <==> Writable(b, p)
  {
    WritableExactly(a, p);
    WritableExactly(b, p);
    ClaimantsSame(a, b, Tachometer, Some(p.number));
    ClaimantsSame(a, b, Control, Some(p.number));
  }

  /** So are the numbers that have a channel, and which of them are marked ambiguous, and why. */
  lemma {:induction false} ChannelsIgnoreOrder(a: seq<Sensor>, b: seq<Sensor>)
    requires multiset(a) == multiset(b)
    ensures NumbersOf(a) == NumbersOf(b)
    ensures |FanChannels(a)| == |FanChannels(b)|
    ensures forall k | 0 <= k < |NumbersOf(a)| ::
      FanChannels(a)[k].ambiguous == FanChannels(b)[k].ambiguous
  {
    forall k ensures k in NumbersOf(a) <==> k in NumbersOf(b) {
      NumbersAreClaimed(a, k);
      NumbersAreClaimed(b, k);
      ClaimantsSame(a, b, Tachometer, Some(k));
      ClaimantsSame(a, b, Control, Some(k));
    }
    NumbersIncrease(a);
    NumbersIncrease(b);
    OneIncreasing(NumbersOf(a), NumbersOf(b));
    var numbers := NumbersOf(a);
    NumberedAt(a, numbers);
    NumberedAt(b, numbers);
    ClaimantsSame(a, b, Tachometer, None);
    ClaimantsSame(a, b, Control, None);
    AloneLengths(Claimants(a, Tachometer, None), Claimants(a, Control, None));
    AloneLengths(Claimants(b, Tachometer, None), Claimants(b, Control, None));
    hide Claimants, NumbersOf;
    forall k | 0 <= k < |numbers| ensures FanChannels(a)[k].ambiguous == FanChannels(b)[k].ambiguous {
      ClaimantsSame(a, b, Tachometer, Some(numbers[k]));
      ClaimantsSame(a, b, Control, Some(numbers[k]));
    }
  }

  lemma {:induction false} AloneLengths(rpms: seq<Sensor>, controls: seq<Sensor>)
    ensures |AloneRpms(rpms)| == |rpms| && |AloneControls(controls)| == |controls|
  {
    if rpms != [] {
      AloneLengths(rpms[..|rpms| - 1], controls);
    } else if controls != [] {
      AloneLengths(rpms, controls[..|controls| - 1]);
    }
  }

  // ------------------------------------------------------------------ nothing is lost silently

  function Shows(c: FanChannel, s: Sensor): nat {
    (if c.rpm == Some(s) then 1 else 0) + (if c.control == Some(s) then 1 else 0)
  }

  /** How many times a sensor appears in the channels. */
  function TimesShown(channels: seq<FanChannel>, s: Sensor): nat {
    if channels == [] then 0
    else TimesShown(channels[..|channels| - 1], s) + Shows(channels[|channels| - 1], s)
  }

  lemma {:induction false} ShownConcat(a: seq<FanChannel>, b: seq<FanChannel>, s: Sensor)
    ensures TimesShown(a + b, s) == TimesShown(a, s) + TimesShown(b, s)
  {
    if b == [] {
      assert a + b == a;
    } else {
      var n := |b| - 1;
      ShownConcat(a, b[..n], s);
      assert (a + b)[..|a + b| - 1] == a + b[..n];
    }
  }

  lemma {:induction false} AloneRpmsShown(rpms: seq<Sensor>, s: Sensor)
    ensures TimesShown(AloneRpms(rpms), s) == multiset(rpms)[s]
  {
    if rpms != [] {
      var n := |rpms| - 1;
      AloneRpmsShown(rpms[..n], s);
      assert rpms == rpms[..n] + [rpms[n]];
    }
  }

  lemma {:induction false} AloneControlsShown(controls: seq<Sensor>, s: Sensor)
    ensures TimesShown(AloneControls(controls), s) == multiset(controls)[s]
  {
    if controls != [] {
      var n := |controls| - 1;
      AloneControlsShown(controls[..n], s);
      assert controls == controls[..n] + [controls[n]];
    }
  }

  /** Only the channel of its own number shows a numbered sensor. */
  lemma {:induction false} ShowsOwnNumber(children: seq<Sensor>, number: nat, s: Sensor)
    ensures NumberOf(s) != Some(number) ==> Shows(ChannelAt(children, number), s) == 0
  {
    ClaimantsAreNumbered(children, Tachometer, Some(number));
    ClaimantsAreNumbered(children, Control, Some(number));
  }

  lemma {:induction false} NumberedShown(children: seq<Sensor>, numbers: seq<nat>, s: Sensor)
    requires Increasing(numbers)
    ensures TimesShown(Numbered(children, numbers), s)
            == if NumberOf(s).Some? && NumberOf(s).value in numbers
               then Shows(ChannelAt(children, NumberOf(s).value), s) else 0
  {
    hide ChannelAt, Shows;
    if numbers != [] {
      var n := |numbers| - 1;
      NumberedShown(children, numbers[..n], s);
      ShowsOwnNumber(children, numbers[n], s);
      assert numbers == numbers[..n] + [numbers[n]];
      assert numbers[n] !in numbers[..n];
      assert Numbered(children, numbers)[..n] == Numbered(children, numbers[..n]);
    }
  }

  /**
   * Nothing is lost silently: a tachometer or control is shown as often as it is listed,
   * unless another of its kind claims its number, and then that number's channel is marked
   * ambiguous and offers nothing to write.
   */
  lemma {:induction false} LosesNothing(children: seq<Sensor>, s: Sensor)
    requires s in children && (s.kind.Tachometer? || s.kind.Control?)
    ensures NumberOf(s).None? || |Claimants(children, s.kind, NumberOf(s))| == 1
            ==> TimesShown(FanChannels(children), s) == multiset(children)[s]
    ensures NumberOf(s).Some? && |Claimants(children, s.kind, NumberOf(s))| != 1
            ==> Withheld(children, NumberOf(s).value)
                && forall p: Pair | p.number == NumberOf(s).value :: !Writable(children, p)
  {
    hide FanChannels, TimesShown, NumbersOf, Shows;
    ShownSplit(children, s);
    NumbersIncrease(children);
    NumberedShown(children, NumbersOf(children), s);
    ClaimantsCount(children, Tachometer, None, s);
    ClaimantsCount(children, Control, None, s);
    if NumberOf(s).Some? {
      var mine := Claimants(children, s.kind, NumberOf(s));
      ClaimantsCount(children, s.kind, NumberOf(s), s);
      assert s in multiset(mine);
      NumbersAreClaimed(children, NumberOf(s).value);
      if |mine| == 1 {
        SoleIsShown(children, s);
      } else {
        ContestedIsWithheld(children, NumberOf(s).value, s.kind);
      }
    }
  }

  /** The number has a channel, it is marked ambiguous, and nothing of that number can be written. */
  predicate Withheld(children: seq<Sensor>, number: nat) {
    && number in NumbersOf(children)
    && ChannelAt(children, number).ambiguous.Some?
    && ChannelAt(children, number) in FanChannels(children)
  }

  lemma {:induction false} ContestedIsWithheld(children: seq<Sensor>, number: nat, kind: Kind)
    requires kind.Tachometer? || kind.Control?
    requires |Claimants(children, kind, Some(number))| > 1
    ensures Withheld(children, number)
    ensures forall p: Pair | p.number == number :: !Writable(children, p)
  {
    NumbersAreClaimed(children, number);
    var numbers := NumbersOf(children);
    var k :| 0 <= k < |numbers| && numbers[k] == number;
    NumberedAt(children, numbers);
    assert FanChannels(children)[k] == ChannelAt(children, number);
    forall p: Pair | p.number == number ensures !Writable(children, p) {
      WritableExactly(children, p);
    }
  }

  lemma {:induction false} ShownSplit(children: seq<Sensor>, s: Sensor)
    ensures TimesShown(FanChannels(children), s)
            == TimesShown(Numbered(children, NumbersOf(children)), s)
               + multiset(Claimants(children, Tachometer, None))[s] + multiset(Claimants(children, Control, None))[s]
  {
    hide TimesShown, Numbered, NumbersOf, AloneRpms, AloneControls;
    var a := Numbered(children, NumbersOf(children));
    var rpms, controls := Claimants(children, Tachometer, None), Claimants(children, Control, None);
    ShownConcat(a, AloneRpms(rpms), s);
    ShownConcat(a + AloneRpms(rpms), AloneControls(controls), s);
    AloneRpmsShown(rpms, s);
    AloneControlsShown(controls, s);
  }

  lemma {:induction false} SoleIsShown(children: seq<Sensor>, s: Sensor)
    requires s in children && (s.kind.Tachometer? || s.kind.Control?)
    requires NumberOf(s).Some? && |Claimants(children, s.kind, NumberOf(s))| == 1
    ensures Shows(ChannelAt(children, NumberOf(s).value), s) == 1 == multiset(children)[s]
  {
    ClaimantsCount(children, s.kind, NumberOf(s), s);
    ClaimantsAreNumbered(children, Tachometer, NumberOf(s));
    ClaimantsAreNumbered(children, Control, NumberOf(s));
    var here := Claimants(children, s.kind, NumberOf(s));
    assert s in multiset(here);
    assert here == [s];
    assert multiset(here)[s] == 1;
    hide Claimants;
    var other := Claimants(children, if s.kind.Tachometer? then Control else Tachometer, NumberOf(s));
    assert other != [] ==> other[0] in other;
  }

  // ------------------------------------------------------------------ why a channel is ambiguous

  /** How many sensors of the kind carry the number, or none. */
  function Carriers(children: seq<Sensor>, kind: Kind, number: Option<nat>): nat {
    if children == [] then 0 else
    var n := |children| - 1;
    Carriers(children[..n], kind, number) + if children[n].kind == kind && NumberOf(children[n]) == number then 1 else 0
  }

  lemma {:induction false} ClaimingConcat(a: seq<Sensor>, b: seq<Sensor>, number: Option<nat>)
    ensures Claiming(a + b, number) == Claiming(a, number) + Claiming(b, number)
  {
    if b == [] {
      assert a + b == a;
    } else {
      assert (a + b)[..|a + b| - 1] == a + b[..|b| - 1];
      ClaimingConcat(a, b[..|b| - 1], number);
    }
  }

  lemma {:induction false} ClaimantsAreCarriers(children: seq<Sensor>, kind: Kind, number: Option<nat>)
    ensures |Claimants(children, kind, number)| == Carriers(children, kind, number)
  {
    if children != [] {
      var n := |children| - 1;
      ClaimantsAreCarriers(children[..n], kind, number);
      var last := if children[n].kind == kind then [children[n]] else [];
      ClaimingConcat(OfKind(children[..n], kind), last, number);
      OneClaiming(children[n], number);
    }
  }

  lemma {:induction false} OneClaiming(s: Sensor, number: Option<nat>)
    ensures Claiming([s], number) == if NumberOf(s) == number then [s] else []
  {
    assert [s][..0] == [];
  }

  /**
   * Why a numbered channel is ambiguous, exactly: several tachometers carry its number, and how many;
   * else several controls; else one of each that got it from different places; and in no other case.
   */
  lemma {:induction false} WhyAmbiguous(children: seq<Sensor>, number: nat)
    ensures var rpms := Carriers(children, Tachometer, Some(number));
            var controls := Carriers(children, Control, Some(number));
            var c := ChannelAt(children, number);
            && (c.rpm.Some? <==> rpms > 0) && (c.control.Some? <==> controls > 0)
            && c.ambiguous == (if rpms > 1 then Some(SeveralTachometers(rpms))
                               else if controls > 1 then Some(SeveralControls(controls))
                               else if c.rpm.Some? && c.control.Some? && AnchorOf(c.rpm.value) != AnchorOf(c.control.value)
                               then Some(DifferentCarriers) else None)
            && (c.rpm.Some? ==> c.anchor == AnchorOf(c.rpm.value))
            && (c.rpm.None? && c.control.Some? ==> c.anchor == AnchorOf(c.control.value))
  {
    ClaimantsAreCarriers(children, Tachometer, Some(number));
    ClaimantsAreCarriers(children, Control, Some(number));
    hide Claimants;
  }

  /** A sensor without a number stands alone: a tachometer can be read, a control can be neither read nor written. */
  lemma {:induction false} UnnumberedStandAlone(children: seq<Sensor>, k: nat)
    requires |NumbersOf(children)| <= k < |FanChannels(children)|
    ensures var c := FanChannels(children)[k];
            && c.anchor.None?
            && (c.rpm.Some? ==> c.control.None? && c.ambiguous.None?)
            && (c.rpm.None? ==> c.control.Some? && c.ambiguous == Some(Unnumbered))
  {
    var rpms, controls := Claimants(children, Tachometer, None), Claimants(children, Control, None);
    AloneAre(rpms, controls);
  }

  lemma {:induction false} AloneAre(rpms: seq<Sensor>, controls: seq<Sensor>)
    ensures |AloneRpms(rpms)| == |rpms| && |AloneControls(controls)| == |controls|
    ensures forall k | 0 <= k < |rpms| :: AloneRpms(rpms)[k] == FanChannel(None, Some(rpms[k]), None, None)
    ensures forall k | 0 <= k < |controls| ::
              AloneControls(controls)[k] == FanChannel(None, None, Some(controls[k]), Some(Unnumbered))
    decreases |rpms| + |controls|
  {
    if rpms != [] {
      AloneAre(rpms[..|rpms| - 1], controls);
    } else if controls != [] {
      AloneAre(rpms, controls[..|controls| - 1]);
    }
  }

  /** A number in the display name decides, whatever the path says; the path decides only without one. */
  lemma {:induction false} NameBeatsPath(s: Sensor, other: Option<nat>)
    ensures s.nameIndex.Some? ==> AnchorOf(s.(pathIndex := other)) == AnchorOf(s) && NumberOf(s) == s.nameIndex
    ensures s.nameIndex.None? ==> NumberOf(s) == s.pathIndex
    ensures s.nameIndex.Some? && other.Some? ==> AnchorOf(s) != AnchorOf(s.(nameIndex := None, pathIndex := other))
  {}
}
