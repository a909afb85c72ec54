/**
 * Taking a fan from its driver and giving it back: by this process when it exits, when a write
 * fails, or by a successor after a crash.
 *
 * The ownership file of a channel holds a number, or something that is not one. A process
 * remembers, per channel it switched to manual, the mode the channel had.
 */
module Hwmon {
  import opened Ids

  /** What `pwm<N>_enable` holds. */
  datatype Content = Number(value: int) | NotANumber

  datatype ControlMode = Automatic(value: int) | Manual | Other(value: int) | Unknown

  /** The files of one channel; either can be absent. */
  datatype Fan = Fan(enable: Option<Content>, pwm: Option<int>)

  type Fans = map<string, Fan>
  type Taken = map<string, ControlMode>

  datatype TakenControl = TakenControl(deviceId: string, original: Option<int>)

  /** How the platform treats one channel during one operation. */
  datatype Luck = Luck(
    /** The last scan still lists the channel. */
    present: bool,
    /** The ownership file can be read. */
    readable: bool,
    /** Switching the ownership file to manual succeeds. */
    takes: bool,
    /** Writing the duty succeeds. */
    sets: bool,
    /** Writing the original mode back succeeds. */
    restores: bool)

  // ------------------------------------------------------------------ modes

  function FromSysfs(content: Content): ControlMode {
    match content
    case Number(1) => Manual
    case Number(v) => if v == 2 || v == 3 then Automatic(v) else Other(v)
    case NotANumber => Unknown
  }

  function FromRestored(value: int): ControlMode {
    if value == 1 then Manual else if value == 2 || value == 3 then Automatic(value) else Other(value)
  }

  function RestorableValue(mode: ControlMode): Option<int> {
    match mode
    case Manual => Some(1)
    case Automatic(v) => Some(v)
    case Other(v) => Some(v)
    case Unknown => None
  }

  /** A mode read from a file survives being published and read back, and names what to write back. */
  lemma {:induction false} ModeRoundTrip(content: Content)
    ensures var published := RestorableValue(FromSysfs(content));
            && (published.Some? <==> content.Number?)
            && (published.Some? ==> FromRestored(published.value) == FromSysfs(content)
                                    && Number(published.value) == content)
  {}

  // ------------------------------------------------------------------ duties

  const PWM_FULL_SCALE: real := 255.0

  /** `f64::round` on a number that is not negative. */
  function Round(x: real): int {
    (x + 0.5).Floor
  }

  function ClampPercent(p: real): real {
    if p < 0.0 then 0.0 else if p > 100.0 then 100.0 else p
  }

  function RawDuty(percent: real): int {
    Round(ClampPercent(percent) / 100.0 * PWM_FULL_SCALE)
  }

  function PercentOf(raw: int): real {
    ClampPercent(raw as real / PWM_FULL_SCALE * 100.0)
  }

  /** The byte written is a byte, and reads back within half a step of the duty asked for. */
  lemma {:induction false} DutyRoundTrip(percent: real)
    ensures 0 <= RawDuty(percent) <= 255
    ensures -100.0 / 510.0 <= PercentOf(RawDuty(percent)) - ClampPercent(percent) <= 100.0 / 510.0
  {
    var x := ClampPercent(percent) / 100.0 * PWM_FULL_SCALE;
    var raw := RawDuty(percent);
    assert raw as real <= x + 0.5 < raw as real + 1.0;
  }

  // ------------------------------------------------------------------ one channel, on values

  datatype Refusal = NotAllowed | NotADuty | ChannelGone | OwnerUnknown | SwitchFailed | DutyFailed

  datatype WriteOutcome = Wrote(raw: int) | Rejected(why: Refusal)

  /** Take control: the new file, and the mode to remember when the channel was switched. */
  function TakeControl(fan: Fan, luck: Luck): (r: (Fan, Option<ControlMode>, Option<Refusal>)) {
    if fan.enable.None? then (fan, None, None) else
    var mode := if luck.readable then FromSysfs(fan.enable.value) else Unknown;
    match mode
    case Manual => (fan, None, None)
    case Unknown => (fan, None, Some(OwnerUnknown))
    case _ =>
      if luck.takes then (fan.(enable := Some(Number(1))), Some(mode), None) else (fan, None, Some(SwitchFailed))
  }

  function RestoreControl(fan: Fan, original: ControlMode, luck: Luck): Fan {
    var value := RestorableValue(original);
    if fan.enable.Some? && value.Some? && luck.restores then fan.(enable := Some(Number(value.value))) else fan
  }

  /** A duty is a number when it is one, and refused when it is not finite. */
  datatype Duty = Percent(value: real) | NonFinite | NotNumeric

  /** One write to one channel: its files, and the mode remembered for it, if any. */
  function WriteChannel(fan: Fan, held: Option<ControlMode>, duty: Duty, luck: Luck)
    : (r: (Fan, Option<ControlMode>, WriteOutcome))
  {
    var (fan1, previous, refusal) := TakeControl(fan, luck);
    if refusal.Some? then (fan1, held, Rejected(refusal.value)) else
    var held1 := if previous.Some? then previous else held;
    if fan1.pwm.Some? && duty.Percent? && luck.sets then
      (fan1.(pwm := Some(RawDuty(duty.value))), held1, Wrote(RawDuty(duty.value)))
    else
      (if held1.Some? then RestoreControl(fan1, held1.value, luck) else fan1, None, Rejected(DutyFailed))
  }

  function Lookup(taken: Taken, id: string): Option<ControlMode> {
    if id in taken then Some(taken[id]) else None
  }

  function Keep(taken: Taken, id: string, held: Option<ControlMode>): Taken {
    if held.Some? then taken[id := held.value] else taken - {id}
  }

  // ------------------------------------------------------------------ a machine and the process driving it

  datatype Machine = Machine(fans: Fans, taken: Taken, allow: set<string>)

  function Write(m: Machine, id: string, duty: Duty, luck: Luck): (Machine, WriteOutcome) {
    if id !in m.allow then (m, Rejected(NotAllowed))
    else if duty.NotNumeric? then (m, Rejected(NotADuty))
    else if id !in m.fans || !luck.present then (m, Rejected(ChannelGone))
    else
      var (fan, held, outcome) := WriteChannel(m.fans[id], Lookup(m.taken, id), duty, luck);
      (m.(fans := m.fans[id := fan], taken := Keep(m.taken, id, held)), outcome)
  }

  type Published = map<string, Option<int>>

  function Publish(taken: Taken): Published {
    map id | id in taken :: RestorableValue(taken[id])
  }

  predicate Adopted(published: Published, allow: set<string>, id: string) {
    id in published && id in allow && published[id].Some?
  }

  /** A process starts, with what its predecessor published. */
  function Adopt(fans: Fans, published: Published, allow: set<string>, luck: string -> Luck): Machine {
    Machine(
      map id | id in fans ::
        if Adopted(published, allow, id) && luck(id).present
        then RestoreControl(fans[id], FromRestored(published[id].value), luck(id)) else fans[id],
      map id | id in published && Adopted(published, allow, id) :: FromRestored(published[id].value),
      allow)
  }

  function Shutdown(m: Machine, luck: string -> Luck): Machine {
    Machine(
      map id | id in m.fans ::
        if id in m.taken && luck(id).present then RestoreControl(m.fans[id], m.taken[id], luck(id)) else m.fans[id],
      map[],
      m.allow)
  }

  datatype Op =
    | DoWrite(id: string, duty: Duty, luck: Luck)
    /** The process dies with its list published; a successor with its own allow list takes over. */
    | Crash(allow: set<string>, fate: string -> Luck)
    /** The process exits cleanly; a successor with its own allow list starts with nothing to adopt. */
    | Restart(allow: set<string>, fate: string -> Luck)

  function Step(m: Machine, op: Op): Machine {
    match op
    case DoWrite(id, duty, luck) => Write(m, id, duty, luck).0
    case Crash(allow, fate) => Adopt(m.fans, Publish(m.taken), allow, fate)
    case Restart(allow, fate) => Adopt(Shutdown(m, fate).fans, map[], allow, fate)
  }

  function Run(m: Machine, ops: seq<Op>): Machine {
    if ops == [] then m else Step(Run(m, ops[..|ops| - 1]), ops[|ops| - 1])
  }

  // ------------------------------------------------------------------ the original is kept

  /** The channel holds its original, or is in manual mode with the exact original remembered. */
  predicate Kept(m: Machine, id: string, original: Content) {
    && id in m.fans && m.fans[id].enable.Some?
    && (id in m.taken ==> original.Number? && RestorableValue(m.taken[id]) == Some(original.value))
    && (m.fans[id].enable.value == original || (m.fans[id].enable.value == Number(1) && id in m.taken))
  }

  /** The channel is in manual mode, was not originally, and nobody remembers what it was. */
  predicate Lost(m: Machine, id: string, original: Content) {
    && id in m.fans && m.fans[id].enable == Some(Number(1)) && original != Number(1)
    && id !in m.taken
  }

  /** Is the channel away from its original, so that everything hangs on what is remembered? */
  predicate Away(m: Machine, id: string, original: Content) {
    id in m.fans && m.fans[id].enable != Some(original)
  }

  /**
   * Exactly the steps that lose a channel: the duty cannot be written and neither can the mode
   * (the memory is dropped before the mode is written back); a successor that may not write a
   * channel away from its original; a clean exit that cannot write one back.
   */
  predicate Loses(m: Machine, op: Op, id: string, original: Content)
    requires Kept(m, id, original)
  {
    match op
    case DoWrite(target, duty, luck) =>
      && target == id && id in m.allow && !duty.NotNumeric? && luck.present
      && original != Number(1)
      && luck.readable && (Away(m, id, original) || (original.Number? && luck.takes))
      && !(m.fans[id].pwm.Some? && duty.Percent? && luck.sets) && !luck.restores
    case Crash(allow, _) => Away(m, id, original) && id !in allow
    case Restart(_, fate) => Away(m, id, original) && !(fate(id).present && fate(id).restores)
  }

  lemma {:induction false} WriteKeeps(m: Machine, op: Op, id: string, original: Content)
    requires Kept(m, id, original) && op.DoWrite?
    ensures if Loses(m, op, id, original) then Lost(Step(m, op), id, original) else Kept(Step(m, op), id, original)
  {}

  lemma {:induction false} CrashKeeps(m: Machine, op: Op, id: string, original: Content)
    requires Kept(m, id, original) && op.Crash?
    ensures if Loses(m, op, id, original) then Lost(Step(m, op), id, original) else Kept(Step(m, op), id, original)
  {
    if original.Number? {
      ModeRoundTrip(original);
    }
  }

  lemma {:induction false} RestartKeeps(m: Machine, op: Op, id: string, original: Content)
    requires Kept(m, id, original) && op.Restart?
    ensures if Loses(m, op, id, original) then Lost(Step(m, op), id, original) else Kept(Step(m, op), id, original)
  {}

  /** A lost original never comes back: every later process takes manual for the original. */
  lemma {:induction false} LostStaysLost(m: Machine, op: Op, id: string, original: Content)
    requires Lost(m, id, original)
    ensures Lost(Step(m, op), id, original)
  {}

  /** No step of the run is one of those that lose the channel. */
  ghost predicate NeverLoses(m: Machine, ops: seq<Op>, id: string, original: Content) {
    forall i | 0 <= i < |ops| :: KeptThrough(m, ops, i, id, original)
  }

  predicate KeptThrough(m: Machine, ops: seq<Op>, i: nat, id: string, original: Content)
    requires i < |ops|
  {
    Kept(Run(m, ops[..i]), id, original) ==> !Loses(Run(m, ops[..i]), ops[i], id, original)
  }

  lemma {:induction false} StepKeeps(m: Machine, op: Op, id: string, original: Content)
    requires Kept(m, id, original)
    ensures if Loses(m, op, id, original) then Lost(Step(m, op), id, original) else Kept(Step(m, op), id, original)
  {
    hide Step, Loses;
    match op {
      case DoWrite(_, _, _) => WriteKeeps(m, op, id, original);
      case Crash(_, _) => CrashKeeps(m, op, id, original);
      case Restart(_, _) => RestartKeeps(m, op, id, original);
    }
  }

  lemma {:induction false} RunKeeps(m: Machine, ops: seq<Op>, id: string, original: Content)
    requires Kept(m, id, original)
    ensures if NeverLoses(m, ops, id, original) then Kept(Run(m, ops), id, original) else Lost(Run(m, ops), id, original)
  {
    hide Kept, Lost, Step, Loses;
    if ops != [] {
      var n := |ops| - 1;
      RunKeeps(m, ops[..n], id, original);
      forall i | 0 <= i < n ensures KeptThrough(m, ops[..n], i, id, original) <==> KeptThrough(m, ops, i, id, original) {
        assert ops[..n][..i] == ops[..i];
      }
      if NeverLoses(m, ops[..n], id, original) {
        StepKeeps(Run(m, ops[..n]), ops[n], id, original);
        assert NeverLoses(m, ops, id, original) <==> KeptThrough(m, ops, n, id, original);
      } else {
        LostStaysLost(Run(m, ops[..n]), ops[n], id, original);
        var i :| 0 <= i < n && !KeptThrough(m, ops[..n], i, id, original);
        assert !KeptThrough(m, ops, i, id, original);
      }
    }
  }

  /**
   * Over any number of process generations, writes, crashes and clean exits, a channel that
   * started under its driver ends either at its original or in manual mode with the exact
   * original remembered, if and only if no step was one of those that lose it.
   */
  lemma {:induction false} OriginalSurvives(fans: Fans, allow: set<string>, ops: seq<Op>, id: string)
    requires id in fans && fans[id].enable.Some?
    ensures var original := fans[id].enable.value;
            var start := Machine(fans, map[], allow);
            Kept(Run(start, ops), id, original) <==> NeverLoses(start, ops, id, original)
  {
    var original := fans[id].enable.value;
    var start := Machine(fans, map[], allow);
    RunKeeps(start, ops, id, original);
    assert !(Kept(Run(start, ops), id, original) && Lost(Run(start, ops), id, original));
  }

  /** A clean exit that can reach and write every channel it owes puts them all back, and owes nothing. */
  lemma {:induction false} CleanExit(m: Machine, luck: string -> Luck, originals: map<string, Content>)
    requires forall id | id in originals :: Kept(m, id, originals[id])
    requires forall id | id in m.taken :: luck(id).present && luck(id).restores
    ensures var after := Shutdown(m, luck);
            && after.taken == map[]
            && forall id | id in originals :: id in after.fans && after.fans[id].enable == Some(originals[id])
  {}

  /** Other channels are not touched by a write. */
  lemma {:induction false} WriteIsLocal(m: Machine, id: string, duty: Duty, luck: Luck, other: string)
    requires other != id
    ensures var after := Write(m, id, duty, luck).0;
            && (other in after.fans <==> other in m.fans)
            && (other in m.fans ==> after.fans[other] == m.fans[other])
            && Lookup(after.taken, other) == Lookup(m.taken, other)
  {}

  // ------------------------------------------------------------------ the adapter as the program writes it

  /** The hardware: it outlives every process. */
  class Tree {
    var fans: Fans

    constructor (fans: Fans)
      ensures this.fans == fans
    {
      this.fans := fans;
    }
  }

  /** Which channels a list hands over, and with what original. */
  ghost predicate Lists(list: seq<TakenControl>, published: Published) {
    && (forall i | 0 <= i < |list| :: list[i].deviceId in published && published[list[i].deviceId] == list[i].original)
    && (forall id | id in published :: exists i | 0 <= i < |list| :: list[i].deviceId == id)
    && (forall i, j | 0 <= i < j < |list| :: list[i].deviceId != list[j].deviceId)
  }

  predicate Listed(list: seq<TakenControl>, id: string) {
    exists i | 0 <= i < |list| :: list[i].deviceId == id
  }

  /** The listed entries have been dealt with, and only those. */
  ghost predicate PartlyAdopted(before: Fans, target: Machine, list: seq<TakenControl>, fans: Fans, taken: Taken) {
    && fans.Keys == before.Keys == target.fans.Keys
    && (forall id | id in fans :: fans[id] == if Listed(list, id) then target.fans[id] else before[id])
    && (forall id :: id in taken <==> id in target.taken && Listed(list, id))
    && (forall id | id in taken :: taken[id] == target.taken[id])
  }

  /** What adopting one entry does; no other channel is touched. */
  ghost predicate EntryAdopted(entry: TakenControl, luck: Luck, allow: set<string>,
                               fans: Fans, taken: Taken, fans': Fans, taken': Taken) {
    var id := entry.deviceId;
    var accepted := id in allow && entry.original.Some?;
    && fans'.Keys == fans.Keys
    && (forall other | other in fans && other != id :: fans'[other] == fans[other])
    && (id in fans ==>
          fans'[id] == if accepted && luck.present
                       then RestoreControl(fans[id], FromRestored(entry.original.value), luck) else fans[id])
    && taken' == if accepted then taken[id := FromRestored(entry.original.value)] else taken
  }

  lemma {:induction false} AdoptedOneMore(before: Fans, published: Published, allow: set<string>, fate: string -> Luck,
                       list: seq<TakenControl>, i: nat, fans: Fans, taken: Taken, fans': Fans, taken': Taken)
    requires Lists(list, published) && i < |list|
    requires PartlyAdopted(before, Adopt(before, published, allow, fate), list[..i], fans, taken)
    requires EntryAdopted(list[i], fate(list[i].deviceId), allow, fans, taken, fans', taken')
    ensures PartlyAdopted(before, Adopt(before, published, allow, fate), list[..i + 1], fans', taken')
  {
    var target := Adopt(before, published, allow, fate);
    var id := list[i].deviceId;
    assert !Listed(list[..i], id) && EntryOf(list[i], fate(id), allow, before, target);
    ListedNext(list, i);
    hide Adopt, Lists, Listed;
    EntryTaken(before, target, allow, fate(id), list[..i], list[i], list[..i + 1], fans, taken, fans', taken');
  }

  lemma {:induction false} NoneAdopted(fans: Fans, published: Published, allow: set<string>, fate: string -> Luck)
    ensures PartlyAdopted(fans, Adopt(fans, published, allow, fate), [], fans, map[])
    ensures Adopt(fans, published, allow, fate).allow == allow
  {}

  lemma {:induction false} AllAdopted(before: Fans, published: Published, allow: set<string>, fate: string -> Luck,
                                      list: seq<TakenControl>, fans: Fans, taken: Taken)
    requires Lists(list, published)
    requires PartlyAdopted(before, Adopt(before, published, allow, fate), list, fans, taken)
    ensures fans == Adopt(before, published, allow, fate).fans && taken == Adopt(before, published, allow, fate).taken
  {
    var target := Adopt(before, published, allow, fate);
    assert forall id | id in published :: Listed(list, id);
    assert forall id | id in fans :: fans[id] == target.fans[id];
    assert forall id :: id in taken <==> id in target.taken;
  }

  /** What the whole adoption does to the channel of one entry. */
  ghost predicate EntryOf(entry: TakenControl, luck: Luck, allow: set<string>, before: Fans, target: Machine) {
    var id := entry.deviceId;
    var accepted := id in allow && entry.original.Some?;
    && (id in before ==>
          id in target.fans
          && target.fans[id] == if accepted && luck.present
                                then RestoreControl(before[id], FromRestored(entry.original.value), luck) else before[id])
    && (id in target.taken <==> accepted)
    && (accepted ==> target.taken[id] == FromRestored(entry.original.value))
  }

  lemma {:induction false} EntryTaken(before: Fans, target: Machine, allow: set<string>, luck: Luck,
                   done: seq<TakenControl>, entry: TakenControl, next: seq<TakenControl>,
                   fans: Fans, taken: Taken, fans': Fans, taken': Taken)
    requires PartlyAdopted(before, target, done, fans, taken) && !Listed(done, entry.deviceId)
    requires EntryOf(entry, luck, allow, before, target)
    requires EntryAdopted(entry, luck, allow, fans, taken, fans', taken')
    requires forall id :: Listed(next, id) <==> Listed(done, id) || id == entry.deviceId
    ensures PartlyAdopted(before, target, next, fans', taken')
  {
    hide RestoreControl, FromRestored, RestorableValue, Listed;
  }

  class SystemAdapter {
    const tree: Tree
    const allow: set<string>
    var taken: Taken

    function State(): Machine
      reads this, tree
    {
      Machine(tree.fans, taken, allow)
    }

    constructor (tree: Tree, allow: set<string>)
      ensures this.tree == tree && this.allow == allow && taken == map[]
    {
      this.tree, this.allow, taken := tree, allow, map[];
    }

    method WriteDuty(id: string, duty: Duty, luck: Luck) returns (outcome: WriteOutcome)
      modifies this, tree
      ensures (State(), outcome) == Write(old(State()), id, duty, luck)
    {
      if id !in allow {
        return Rejected(NotAllowed);
      }
      if duty.NotNumeric? {
        return Rejected(NotADuty);
      }
      if id !in tree.fans || !luck.present {
        return Rejected(ChannelGone);
      }
      ghost var before := State();
      var fan := tree.fans[id];
      var (switched, previous, refusal) := TakeControl(fan, luck);
      tree.fans := tree.fans[id := switched];
      if refusal.Some? {
        assert taken == Keep(taken, id, Lookup(taken, id));
        return Rejected(refusal.value);
      }
      if previous.Some? {
        taken := taken[id := previous.value];
      }
      assert taken == Keep(taken, id, Lookup(taken, id));
      if switched.pwm.Some? && duty.Percent? && luck.sets {
        var raw := RawDuty(duty.value);
        tree.fans := tree.fans[id := switched.(pwm := Some(raw))];
        outcome := Wrote(raw);
        assert taken == Keep(old(taken), id, Lookup(taken, id));
      } else {
        if id in taken {
          var original := taken[id];
          taken := taken - {id};
          tree.fans := tree.fans[id := RestoreControl(switched, original, luck)];
        }
        assert taken == old(taken) - {id};
        outcome := Rejected(DutyFailed);
      }
      assert tree.fans == old(tree.fans)[id := tree.fans[id]];
    }

    method TakenControls() returns (list: seq<TakenControl>)
      ensures Lists(list, Publish(taken))
    {
      list := [];
      var left := taken.Keys;
      while left != {}
        invariant left <= taken.Keys
        invariant forall i | 0 <= i < |list| :: list[i].deviceId in taken && list[i].deviceId !in left
        invariant forall i | 0 <= i < |list| :: list[i].original == RestorableValue(taken[list[i].deviceId])
        invariant forall id | id in taken && id !in left :: Listed(list, id)
        invariant forall i, j | 0 <= i < j < |list| :: list[i].deviceId != list[j].deviceId
        decreases left
      {
        var id :| id in left;
        ghost var before := list;
        list := list + [TakenControl(id, RestorableValue(taken[id]))];
        left := left - {id};
        forall other | other in taken && other !in left ensures Listed(list, other) {
          if other == id {
            assert list[|before|].deviceId == id;
          } else {
            var i :| 0 <= i < |before| && before[i].deviceId == other;
            assert list[i].deviceId == other;
          }
        }
      }
      forall id | id in Publish(taken) ensures exists i | 0 <= i < |list| :: list[i].deviceId == id {
        assert Listed(list, id);
      }
    }

    /** Remember each original as one's own, and write it back straight away. */
    method AdoptTakenControls(list: seq<TakenControl>, ghost published: Published, fate: string -> Luck)
      requires Lists(list, published) && taken == map[]
      modifies this, tree
      ensures State() == Adopt(old(tree.fans), published, allow, fate)
    {
      hide Adopt, PartlyAdopted, EntryAdopted, Lists;
      ghost var target := Adopt(old(tree.fans), published, allow, fate);
      NoneAdopted(tree.fans, published, allow, fate);
      for i := 0 to |list|
        invariant PartlyAdopted(old(tree.fans), target, list[..i], tree.fans, taken)
      {
        ghost var fans, held := tree.fans, taken;
        AdoptEntry(list[i], fate(list[i].deviceId));
        AdoptedOneMore(old(tree.fans), published, allow, fate, list, i, fans, held, tree.fans, taken);
      }
      assert list[..|list|] == list;
      AllAdopted(old(tree.fans), published, allow, fate, list, tree.fans, taken);
    }

    method AdoptEntry(entry: TakenControl, luck: Luck)
      modifies this, tree
      ensures EntryAdopted(entry, luck, allow, old(tree.fans), old(taken), tree.fans, taken)
    {
      if entry.deviceId !in allow || entry.original.None? {
        return;
      }
      var mode := FromRestored(entry.original.value);
      taken := taken[entry.deviceId := mode];
      if entry.deviceId in tree.fans && luck.present {
        tree.fans := tree.fans[entry.deviceId := RestoreControl(tree.fans[entry.deviceId], mode, luck)];
      }
    }

    /** Give everything back; every channel is attempted even if one fails. */
    method ShutDown(fate: string -> Luck) returns (failures: set<string>)
      modifies this, tree
      ensures State() == Shutdown(old(State()), fate)
      ensures forall id :: id in failures <==>
        id in old(taken)
        && !(id in old(tree.fans) && fate(id).present
             && (old(tree.fans)[id].enable.None?
                 || (RestorableValue(old(taken)[id]).Some? && fate(id).restores)))
    {
      hide RestoreControl, RestorableValue;
      var entries := taken;
      taken := map[];
      failures := {};
      var left := entries.Keys;
      ghost var target := Shutdown(old(State()), fate);
      while left != {}
        invariant left <= entries.Keys && taken == map[]
        invariant tree.fans.Keys == target.fans.Keys
        invariant forall id | id in tree.fans :: tree.fans[id] == if id in left then old(tree.fans)[id] else target.fans[id]
        invariant forall id :: id in failures <==>
          id in entries && id !in left
          && !(id in old(tree.fans) && fate(id).present
               && (old(tree.fans)[id].enable.None?
                   || (RestorableValue(entries[id]).Some? && fate(id).restores)))
        decreases left
      {
        var id :| id in left;
        left := left - {id};
        if id in tree.fans && fate(id).present {
          var fan := tree.fans[id];
          if fan.enable.Some? && !(RestorableValue(entries[id]).Some? && fate(id).restores) {
            failures := failures + {id};
          }
          tree.fans := tree.fans[id := RestoreControl(fan, entries[id], fate(id))];
        } else {
          failures := failures + {id};
        }
      }
    }
  }

  lemma {:induction false} ListedNext(list: seq<TakenControl>, i: nat)
    requires i < |list|
    ensures forall id :: Listed(list[..i + 1], id) <==> Listed(list[..i], id) || id == list[i].deviceId
  {
    forall id ensures Listed(list[..i + 1], id) <==> Listed(list[..i], id) || id == list[i].deviceId {
      if Listed(list[..i], id) {
        var k :| 0 <= k < i && list[..i][k].deviceId == id;
        assert list[..i + 1][k].deviceId == id;
      }
      if id == list[i].deviceId {
        assert list[..i + 1][i].deviceId == id;
      }
      if Listed(list[..i + 1], id) && id != list[i].deviceId {
        var k :| 0 <= k < i + 1 && list[..i + 1][k].deviceId == id;
        assert list[..i][k].deviceId == id;
      }
    }
  }

  /** Any sequence of writes, crashes and clean exits on the same hardware ends where `Run` says. */
  method RunGenerations(tree: Tree, allow: set<string>, ops: seq<Op>) returns (adapter: SystemAdapter)
    modifies tree
    ensures fresh(adapter) && adapter.tree == tree
    ensures adapter.State() == Run(Machine(old(tree.fans), map[], allow), ops)
  {
    adapter := new SystemAdapter(tree, allow);
    for i := 0 to |ops|
      invariant fresh(adapter) && adapter.tree == tree
      invariant adapter.State() == Run(Machine(old(tree.fans), map[], allow), ops[..i])
    {
      assert ops[..i + 1][..i] == ops[..i];
      match ops[i] {
        case DoWrite(id, duty, luck) =>
          var _ := adapter.WriteDuty(id, duty, luck);
        case Crash(next, fate) =>
          var list := adapter.TakenControls();
          ghost var published := Publish(adapter.taken);
          adapter := new SystemAdapter(tree, next);
          adapter.AdoptTakenControls(list, published, fate);
        case Restart(next, fate) =>
          var _ := adapter.ShutDown(fate);
          adapter := new SystemAdapter(tree, next);
          assert adapter.State().fans == Adopt(tree.fans, map[], next, fate).fans;
      }
    }
    assert ops[..|ops|] == ops;
  }
}
