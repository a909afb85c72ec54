/** From named hardware and paired channels to devices, and to the sensor behind each capability. */
module DeviceMap {
  import opened Ids
  import opened Pairing
  import opened Naming

  /** One readable sensor: the capability id its kind and name suggest, and its own address. */
  datatype Entry = Entry(capability: string, address: string)

  /** A top-level hardware node: the device id it asks for, and the sensors below it that are not fans or controls. */
  datatype Top = Top(candidate: string, slot: nat, sensors: seq<Entry>)

  /** A fan or pump channel, wherever in the tree: the device id it asks for, and what it was paired from. */
  datatype Header = Header(candidate: string, slot: nat, pump: bool, channel: FanChannel)

  datatype MappedDevice = MappedDevice(id: string, capabilities: seq<string>)

  datatype Mapping = Mapping(
    used: set<string>,
    ambiguous: seq<string>,
    devices: seq<MappedDevice>,
    sensors: map<string, map<string, string>>)

  const NOTHING: Mapping := Mapping({}, [], [], map[])

  function Wanted(sensors: seq<Entry>): (names: seq<string>)
    ensures |names| == |sensors|
  {
    if sensors == [] then []
    else Wanted(sensors[..|sensors| - 1]) + [sensors[|sensors| - 1].capability]
  }

  /** Which address each capability reads. */
  function Addresses(ids: seq<string>, sensors: seq<Entry>): map<string, string>
    requires |ids| == |sensors|
  {
    if ids == [] then map[] else
    var n := |ids| - 1;
    Addresses(ids[..n], sensors[..n])[ids[n] := sensors[n].address]
  }

  function HeaderEntries(h: Header): seq<Entry> {
    (if h.channel.rpm.Some? then [Entry(if h.pump then "pump.rpm" else "fan.rpm", h.channel.rpm.value.id)] else [])
    + (if h.channel.control.Some? && h.channel.ambiguous.None?
       then [Entry(if h.pump then "pump.speed_percent" else "fan.speed_percent", h.channel.control.value.id)] else [])
  }

  /** Claim an id, and add the device unless it has no capability or two of one name. */
  function AddDevice(m: Mapping, candidate: string, slot: nat, ids: seq<string>, sensors: seq<Entry>): Mapping
    requires |ids| == |sensors|
  {
    var id := ClaimId(m.used, candidate, slot);
    var claimed := m.(used := m.used + {id},
                      ambiguous := if candidate in m.used then m.ambiguous + [id] else m.ambiguous);
    if ids == [] || !Distinct(ids) then claimed else
    claimed.(devices := m.devices + [MappedDevice(id, ids)], sensors := m.sensors[id := Addresses(ids, sensors)])
  }

  function AddTop(m: Mapping, top: Top): Mapping {
    AddDevice(m, top.candidate, top.slot, Assign(Wanted(top.sensors)), top.sensors)
  }

  function AddHeader(m: Mapping, h: Header): Mapping {
    AddDevice(m, h.candidate, h.slot, Wanted(HeaderEntries(h)), HeaderEntries(h))
  }

  function MapTops(tops: seq<Top>): Mapping {
    if tops == [] then NOTHING else AddTop(MapTops(tops[..|tops| - 1]), tops[|tops| - 1])
  }

  function MapTree(tops: seq<Top>, headers: seq<Header>): Mapping {
    if headers == [] then MapTops(tops)
    else AddHeader(MapTree(tops, headers[..|headers| - 1]), headers[|headers| - 1])
  }

  // ------------------------------------------------------------------ as the program builds it

  method NameSensors(sensors: seq<Entry>) returns (ids: seq<string>, addresses: map<string, string>)
    ensures ids == Assign(Wanted(sensors)) && addresses == Addresses(ids, sensors)
  {
    ids, addresses := [], map[];
    for i := 0 to |sensors|
      invariant ids == Assign(Wanted(sensors[..i])) && |ids| == i
      invariant addresses == Addresses(ids, sensors[..i])
    {
      assert sensors[..i + 1][..i] == sensors[..i];
      assert Wanted(sensors[..i + 1])[..i] == Wanted(sensors[..i]);
      var id := Uniquify(ids, sensors[i].capability);
      ghost var before := ids;
      ids := ids + [id];
      addresses := addresses[id := sensors[i].address];
      assert ids[..i] == before;
    }
    assert sensors[..|sensors|] == sensors;
  }

  method BuildMapping(tops: seq<Top>, headers: seq<Header>) returns (m: Mapping)
    ensures m == MapTree(tops, headers)
  {
    hide ClaimId, Distinct, Assign, Wanted, Addresses, HeaderEntries;
    var allocator := new Allocator();
    var devices: seq<MappedDevice> := [];
    var sensors: map<string, map<string, string>> := map[];
    for i := 0 to |tops|
      invariant fresh(allocator)
      invariant Mapping(allocator.used, allocator.ambiguous, devices, sensors) == MapTops(tops[..i])
    {
      assert tops[..i + 1][..i] == tops[..i];
      var id := allocator.Claim(tops[i].candidate, tops[i].slot);
      var ids, addresses := NameSensors(tops[i].sensors);
      if ids != [] && Distinct(ids) {
        devices := devices + [MappedDevice(id, ids)];
        sensors := sensors[id := addresses];
      }
    }
    assert tops[..|tops|] == tops;
    for i := 0 to |headers|
      invariant fresh(allocator)
      invariant Mapping(allocator.used, allocator.ambiguous, devices, sensors) == MapTree(tops, headers[..i])
    {
      assert headers[..i + 1][..i] == headers[..i];
      var id := allocator.Claim(headers[i].candidate, headers[i].slot);
      var entries := HeaderEntries(headers[i]);
      var ids := Wanted(entries);
      if ids != [] && Distinct(ids) {
        sensors := sensors[id := Addresses(ids, entries)];
        devices := devices + [MappedDevice(id, ids)];
      }
    }
    assert headers[..|headers|] == headers;
    m := Mapping(allocator.used, allocator.ambiguous, devices, sensors);
  }

  // ------------------------------------------------------------------ one device, one sensor map

  /** Devices and sensor maps match one to one, and each map reads exactly the device's capabilities. */
  ghost predicate OneToOne(m: Mapping) {
    && (forall i, j | 0 <= i < j < |m.devices| :: m.devices[i].id != m.devices[j].id)
    && (forall i | 0 <= i < |m.devices| ::
          && m.devices[i].id in m.sensors && m.devices[i].id in m.used
          && Distinct(m.devices[i].capabilities)
          && m.sensors[m.devices[i].id].Keys == Elements(m.devices[i].capabilities))
    && (forall id | id in m.sensors :: exists i | 0 <= i < |m.devices| :: m.devices[i].id == id)
  }

  lemma {:induction false} AddressesKeys(ids: seq<string>, sensors: seq<Entry>)
    requires |ids| == |sensors|
    ensures Addresses(ids, sensors).Keys == Elements(ids)
  {
    if ids == [] {
      assert Elements(ids) == {};
    } else {
      var n := |ids| - 1;
      AddressesKeys(ids[..n], sensors[..n]);
      assert ids == ids[..n] + [ids[n]];
      ElementsGrow(ids[..n], ids[n]);
    }
  }

  /** Distinct capabilities each keep the address of their own sensor. */
  lemma {:induction false} EachKeepsItsAddress(ids: seq<string>, sensors: seq<Entry>, k: nat)
    requires |ids| == |sensors| && Distinct(ids) && k < |ids|
    ensures ids[k] in Addresses(ids, sensors) && Addresses(ids, sensors)[ids[k]] == sensors[k].address
  {
    var n := |ids| - 1;
    if k < n {
      EachKeepsItsAddress(ids[..n], sensors[..n], k);
      assert ids[..n][k] == ids[k] && ids[k] != ids[n];
    }
  }

  lemma {:induction false} AddDeviceOneToOne(m: Mapping, candidate: string, slot: nat, ids: seq<string>,
                                             sensors: seq<Entry>)
    requires OneToOne(m) && |ids| == |sensors|
    ensures OneToOne(AddDevice(m, candidate, slot, ids, sensors))
  {
    hide ClaimId, Addresses, Distinct, Elements;
    var next := AddDevice(m, candidate, slot, ids, sensors);
    var id := ClaimId(m.used, candidate, slot);
    AddressesKeys(ids, sensors);
    forall other | other in next.sensors ensures exists i | 0 <= i < |next.devices| :: next.devices[i].id == other {
      if other in m.sensors {
        var i :| 0 <= i < |m.devices| && m.devices[i].id == other;
        assert next.devices[i].id == other;
      } else {
        assert next.devices[|m.devices|].id == other;
      }
    }
  }

  /** No device's sensor map is ever overwritten: the mapping is one to one for every tree. */
  lemma {:induction false} MappingIsOneToOne(tops: seq<Top>, headers: seq<Header>)
    ensures OneToOne(MapTree(tops, headers))
    decreases |headers|, |tops|
  {
    hide OneToOne, AddDevice;
    if headers != [] {
      var n := |headers| - 1;
      MappingIsOneToOne(tops, headers[..n]);
      AddDeviceOneToOne(MapTree(tops, headers[..n]), headers[n].candidate, headers[n].slot,
                        Wanted(HeaderEntries(headers[n])), HeaderEntries(headers[n]));
    } else if tops != [] {
      var n := |tops| - 1;
      MappingIsOneToOne(tops[..n], []);
      AddDeviceOneToOne(MapTops(tops[..n]), tops[n].candidate, tops[n].slot,
                        Assign(Wanted(tops[n].sensors)), tops[n].sensors);
    } else {
      NothingIsOneToOne();
    }
  }

  lemma {:induction false} NothingIsOneToOne()
    ensures OneToOne(NOTHING)
  {}

  // ------------------------------------------------------------------ who gets which id

  function Candidates(tops: seq<Top>, headers: seq<Header>): seq<string> {
    TopCandidates(tops) + HeaderCandidates(headers)
  }

  function TopCandidates(tops: seq<Top>): seq<string> {
    if tops == [] then [] else TopCandidates(tops[..|tops| - 1]) + [tops[|tops| - 1].candidate]
  }

  function HeaderCandidates(headers: seq<Header>): seq<string> {
    if headers == [] then [] else HeaderCandidates(headers[..|headers| - 1]) + [headers[|headers| - 1].candidate]
  }

  /** Every sensor below the node found one of its 99 names free, and there is at least one sensor. */
  predicate Nameable(sensors: seq<Entry>) {
    sensors != [] && forall k | 0 <= k < |sensors| :: FreeAt(Wanted(sensors), k)
  }

  /**
   * The devices a tree should give, each under the id it asks for: the channels with something to
   * read or to write, and the nodes whose sensors can all be named apart.
   */
  function Expected(tops: seq<Top>, headers: seq<Header>): seq<MappedDevice> {
    if headers != [] then
      var h := headers[|headers| - 1];
      Expected(tops, headers[..|headers| - 1])
      + if HeaderEntries(h) == [] then [] else [MappedDevice(h.candidate, Wanted(HeaderEntries(h)))]
    else if tops != [] then
      var t := tops[|tops| - 1];
      Expected(tops[..|tops| - 1], [])
      + if Nameable(t.sensors) then [MappedDevice(t.candidate, Assign(Wanted(t.sensors)))] else []
    else []
  }

  lemma {:induction false} HeaderIdsDiffer(h: Header)
    ensures Distinct(Wanted(HeaderEntries(h)))
  {
    var e := HeaderEntries(h);
    if |e| == 2 {
      assert e[..1] == [e[0]] && e[..1][..0] == [];
      assert Wanted(e) == [e[0].capability, e[1].capability];
      assert "pump.rpm"[5] != "pump.speed_percent"[5];
      assert "fan.rpm"[4] != "fan.speed_percent"[4];
    }
  }

  /** Whatever was mapped before, a node becomes a device exactly when its sensors can all be named apart. */
  lemma {:induction false} TopMappedExactly(m: Mapping, top: Top)
    ensures var next := AddTop(m, top);
            var id := ClaimId(m.used, top.candidate, top.slot);
            var ids := Assign(Wanted(top.sensors));
            if Nameable(top.sensors)
            then && next.devices == m.devices + [MappedDevice(id, ids)]
                 && next.sensors == m.sensors[id := Addresses(ids, top.sensors)]
            else next.devices == m.devices && next.sensors == m.sensors
  {
    hide FreeAt, Distinct, ClaimId;
    AssignDistinct(Wanted(top.sensors));
  }

  /**
   * Nothing is reported exactly when no two nodes ask for the same id; and then the devices are the
   * expected ones, each under the very id it asked for.
   */
  lemma {:induction false} EveryDeviceGetsItsId(tops: seq<Top>, headers: seq<Header>)
    ensures var m := MapTree(tops, headers);
            && (m.ambiguous == [] <==> Distinct(Candidates(tops, headers)))
            && (m.ambiguous == [] ==>
                 m.devices == Expected(tops, headers) && m.used == Elements(Candidates(tops, headers)))
    decreases |headers|, |tops|
  {
    hide ClaimId, Nameable, Distinct, Elements;
    if headers != [] {
      var n := |headers| - 1;
      var before := Candidates(tops, headers[..n]);
      assert Candidates(tops, headers) == before + [headers[n].candidate];
      EveryDeviceGetsItsId(tops, headers[..n]);
      HeaderIdsDiffer(headers[n]);
      OneMoreId(before, headers[n].candidate);
    } else if tops != [] {
      var n := |tops| - 1;
      var before := Candidates(tops[..n], []);
      assert Candidates(tops, []) == before + [tops[n].candidate];
      EveryDeviceGetsItsId(tops[..n], []);
      TopMappedExactly(MapTops(tops[..n]), tops[n]);
      OneMoreId(before, tops[n].candidate);
    } else {
      assert Candidates(tops, headers) == [];
      DistinctEmpty();
      ElementsNone();
    }
  }

  lemma {:induction false} ElementsNone()
    ensures Elements([]) == {}
  {}

  lemma {:induction false} OneMoreId(before: seq<string>, id: string)
    ensures Distinct(before + [id]) <==> Distinct(before) && id !in Elements(before)
    ensures Elements(before + [id]) == Elements(before) + {id}
    ensures forall used, slot :: id !in used ==> ClaimId(used, id, slot) == id
  {
    DistinctGrows(before, id);
    ElementsGrow(before, id);
  }

  lemma {:induction false} ElementsGrow(ids: seq<string>, id: string)
    ensures Elements(ids + [id]) == Elements(ids) + {id}
  {}

  /** Up to 99 sensors can always be named apart. */
  lemma {:induction false} FewAreNameable(sensors: seq<Entry>)
    requires |sensors| <= 99
    ensures Nameable(sensors) <==> sensors != []
  {
    hide FreeAt, Distinct;
    UpTo99AreDistinct(Wanted(sensors));
    AssignDistinct(Wanted(sensors));
  }

  /** A device with a hundred sensors of one name is not mapped at all, and nothing says so. */
  lemma {:induction false} CrowdedDeviceVanishes(m: Mapping, top: Top, name: string)
    requires |top.sensors| >= 100
    requires forall k | 0 <= k < |top.sensors| :: top.sensors[k].capability == name
    requires top.candidate !in m.used
    ensures !Nameable(top.sensors)
    ensures AddTop(m, top).devices == m.devices && AddTop(m, top).sensors == m.sensors
    ensures AddTop(m, top).ambiguous == m.ambiguous
  {
    WantedAt(top.sensors);
    HundredOfOneNameCollide(Wanted(top.sensors), name);
    AssignDistinct(Wanted(top.sensors));
    TopMappedExactly(m, top);
  }

  lemma {:induction false} WantedAt(sensors: seq<Entry>)
    ensures forall k | 0 <= k < |sensors| :: Wanted(sensors)[k] == sensors[k].capability
  {
    if sensors != [] {
      WantedAt(sensors[..|sensors| - 1]);
    }
  }

  // ------------------------------------------------------------------ what a channel offers

  function SpeedName(h: Header): string {
    if h.pump then "pump.speed_percent" else "fan.speed_percent"
  }

  function RpmName(h: Header): string {
    if h.pump then "pump.rpm" else "fan.rpm"
  }

  lemma {:induction false} EntriesOf(h: Header)
    ensures var e := HeaderEntries(h);
            && (forall i | 0 <= i < |e| :: e[i].capability == SpeedName(h) || e[i].capability == RpmName(h))
            && SpeedName(h) != RpmName(h)
            && (forall x :: x in e && x.capability == SpeedName(h) <==>
                  h.channel.control.Some? && h.channel.ambiguous.None? && x == Entry(SpeedName(h), h.channel.control.value.id))
            && (forall x :: x in e && x.capability == RpmName(h) <==>
                  h.channel.rpm.Some? && x == Entry(RpmName(h), h.channel.rpm.value.id))
  {
    assert "pump.rpm"[5] != "pump.speed_percent"[5];
    assert "fan.rpm"[4] != "fan.speed_percent"[4];
  }

  /**
   * A channel of a node offers a speed to set exactly when it is a pairing that is shown to be one
   * physical channel, and then it is that pairing's control that is set; it offers a speed to read
   * exactly when it has a tachometer, and reads that one.
   */
  lemma {:induction false} OffersWhatIsShown(children: seq<Sensor>, k: nat, h: Header)
    requires k < |FanChannels(children)| && h.channel == FanChannels(children)[k]
    ensures var e := HeaderEntries(h);
            && (forall address :: Entry(SpeedName(h), address) in e <==>
                  exists p: Pair :: Offers(h.channel, p) && Shown(children, p) && p.control.id == address)
            && (forall address :: Entry(RpmName(h), address) in e <==>
                  h.channel.rpm.Some? && h.channel.rpm.value.id == address)
  {
    hide FanChannels, HeaderEntries, Shown;
    EntriesOf(h);
    var e := HeaderEntries(h);
    forall address ensures Entry(SpeedName(h), address) in e <==>
                           exists p: Pair :: Offers(h.channel, p) && Shown(children, p) && p.control.id == address {
      if Entry(SpeedName(h), address) in e {
        assert Entry(SpeedName(h), address).capability == SpeedName(h);
        ChannelsAreAnchored(children, k);
        var p := Pair(h.channel.anchor.value.number, h.channel.rpm, h.channel.control.value);
        assert Offers(FanChannels(children)[k], p);
        WritableExactly(children, p);
      }
      if p: Pair :| Offers(h.channel, p) && Shown(children, p) && p.control.id == address {
        assert Entry(SpeedName(h), address).capability == SpeedName(h);
      }
    }
    forall address ensures Entry(RpmName(h), address) in e <==>
                           h.channel.rpm.Some? && h.channel.rpm.value.id == address {
      assert Entry(RpmName(h), address).capability == RpmName(h);
    }
  }

  /** An unambiguous channel with a control carries a number. */
  lemma {:induction false} ChannelsAreAnchored(children: seq<Sensor>, k: nat)
    requires k < |FanChannels(children)|
    ensures var c := FanChannels(children)[k]; c.control.Some? && c.ambiguous.None? ==> c.anchor.Some?
  {
    var numbers := NumbersOf(children);
    var rpms, controls := Claimants(children, Tachometer, None), Claimants(children, Control, None);
    NumberedAt(children, numbers);
    AloneRpmsShow(rpms);
    AloneControlsShow(controls);
    if k < |numbers| {
      ClaimantsAreNumbered(children, Tachometer, Some(numbers[k]));
      ClaimantsAreNumbered(children, Control, Some(numbers[k]));
      assert FanChannels(children)[k] == ChannelAt(children, numbers[k]);
      FirstsAreMembers(Claimants(children, Tachometer, Some(numbers[k])));
      FirstsAreMembers(Claimants(children, Control, Some(numbers[k])));
    }
  }

  lemma {:induction false} FirstsAreMembers(sensors: seq<Sensor>)
    ensures sensors != [] ==> sensors[0] in sensors
  {}

  lemma {:induction false} AloneRpmsShow(rpms: seq<Sensor>)
    ensures |AloneRpms(rpms)| == |rpms| && forall k | 0 <= k < |rpms| :: AloneRpms(rpms)[k].control.None?
  {
    if rpms != [] {
      AloneRpmsShow(rpms[..|rpms| - 1]);
    }
  }

  lemma {:induction false} AloneControlsShow(controls: seq<Sensor>)
    ensures |AloneControls(controls)| == |controls|
    ensures forall k | 0 <= k < |controls| :: AloneControls(controls)[k].ambiguous.Some?
  {
    if controls != [] {
      AloneControlsShow(controls[..|controls| - 1]);
    }
  }

  /** A channel becomes a device exactly when it has something to offer, and each capability reads its own sensor. */
  lemma {:induction false} HeaderMappedExactly(m: Mapping, h: Header)
    ensures var next := AddHeader(m, h);
            var id := ClaimId(m.used, h.candidate, h.slot);
            var e := HeaderEntries(h);
            if h.channel.rpm.None? && (h.channel.control.None? || h.channel.ambiguous.Some?)
            then next.devices == m.devices && next.sensors == m.sensors
            else && next.devices == m.devices + [MappedDevice(id, Wanted(e))] && id in next.sensors
                 && forall i | 0 <= i < |e| ::
                      e[i].capability in next.sensors[id] && next.sensors[id][e[i].capability] == e[i].address
  {
    hide ClaimId, Addresses, Distinct;
    HeaderIdsDiffer(h);
    WantedAt(HeaderEntries(h));
    var e := HeaderEntries(h);
    forall i | 0 <= i < |e|
      ensures var a := Addresses(Wanted(e), e); e[i].capability in a && a[e[i].capability] == e[i].address
    {
      EachKeepsItsAddress(Wanted(e), e, i);
    }
  }
}
