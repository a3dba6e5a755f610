/** The station entity of models/station.py: its value-level specification
    (device types, points, ranging table, generated identity, the constructor,
    one movement tick) and the `Station` class whose setters keep the dirty list. */
module Stations {
  import opened Wrappers
  import opened Text
  import opened DirtyFields

  // ------------------------------------------------------------ device type

  /** `DeviceType`; `Unassigned` is the member named `NONE`. */
  datatype DeviceType = Anchor | Tag | Unassigned

  /** The member's name, which is also its value (`device_type_str`). */
  function TypeName(t: DeviceType): string {
    match t
    case Anchor => "ANCHOR"
    case Tag => "TAG"
    case Unassigned => "NONE"
  }

  /** `DeviceType[key]`: lookup by member name, nothing for any other key. */
  function TypeNamed(key: string): (r: Option<DeviceType>)
    ensures r.Some? <==> key in {"ANCHOR", "TAG", "NONE"}
    ensures r.Some? ==> TypeName(r.value) == key
  {
    if key == "ANCHOR" then Some(Anchor)
    else if key == "TAG" then Some(Tag)
    else if key == "NONE" then Some(Unassigned)
    else None
  }

  /** What a caller passes as `device_type`: a string, a member, or `None`. */
  datatype TypeArg = Named(text: string) | Member(member: DeviceType) | Missing

  /** The constructor's reading of `device_type`: a string is looked up upper-cased
      and an unknown one raises ValueError; a member is kept; anything else is NONE. */
  function ParseTypeArg(a: TypeArg): (r: Result<DeviceType>)
    ensures a.Named? ==> (r.Success? <==> Upper(a.text) in {"ANCHOR", "TAG", "NONE"})
    ensures a.Named? && r.Success? ==> TypeName(r.value) == Upper(a.text)
    ensures a.Named? && r.Failure? ==> r.error == ValueError("Invalid device type: " + a.text)
    ensures a.Member? ==> r == Success(a.member)
    ensures a.Missing? ==> r == Success(Unassigned)
  {
    match a
    case Named(text) =>
      (match TypeNamed(Upper(text))
       case Some(t) => Success(t)
       case None => Failure(ValueError("Invalid device type: " + text)))
    case Member(t) => Success(t)
    case Missing => Success(Unassigned)
  }

  // ------------------------------------------------------------ geometry

  datatype Point = Point(x: real, y: real)

  const Origin := Point(0.0, 0.0)

  function Abs(v: real): real {
    if v < 0.0 then -v else v
  }

  /** `max(0, min(hi, v))`. */
  function Clamp(v: real, hi: real): (r: real)
    ensures 0.0 <= hi ==> 0.0 <= r <= hi
    ensures 0.0 <= v <= hi ==> r == v
    ensures 0.0 <= hi < v ==> r == hi
    ensures v < 0.0 ==> r == 0.0
  {
    var m := if hi < v then hi else v;
    if 0.0 < m then m else 0.0
  }

  /** The plane [0, sizeX] x [0, sizeY]. */
  predicate InPlane(p: Point, sizeX: int, sizeY: int) {
    0.0 <= p.x <= sizeX as real && 0.0 <= p.y <= sizeY as real
  }

  // ------------------------------------------------------------ ranging table

  datatype DistanceRecord = DistanceRecord(raw: real, scaled: real)

  /** `{"mac_address": ..., "distance": ...}`. */
  datatype RangingEntry = RangingEntry(mac: string, distance: DistanceRecord)

  /** The MACs in a ranging table. */
  function Keys(entries: seq<RangingEntry>): set<string> {
    if entries == [] then {} else {entries[0].mac} + Keys(entries[1..])
  }

  /** At most one entry per MAC. */
  predicate UniqueKeys(entries: seq<RangingEntry>) {
    entries == [] || (entries[0].mac !in Keys(entries[1..]) && UniqueKeys(entries[1..]))
  }

  /** A MAC is a key exactly when some entry carries it. */
  lemma {:induction false} KeysIndex(entries: seq<RangingEntry>, k: string)
    ensures k in Keys(entries) <==> exists i :: 0 <= i < |entries| && entries[i].mac == k
  {
    if entries != [] {
      KeysIndex(entries[1..], k);
      if k in Keys(entries[1..]) {
        var i :| 0 <= i < |entries[1..]| && entries[1..][i].mac == k;
        assert entries[i + 1].mac == k;
      }
      if exists i :: 0 <= i < |entries| && entries[i].mac == k {
        var i :| 0 <= i < |entries| && entries[i].mac == k;
        if i > 0 { assert entries[1..][i - 1].mac == k; }
      }
    }
  }

  /** No entry carries a MAC that is not a key. */
  lemma NotKeyAt(entries: seq<RangingEntry>, mac: string)
    requires mac !in Keys(entries)
    ensures forall i :: 0 <= i < |entries| ==> entries[i].mac != mac
  {
    KeysIndex(entries, mac);
  }

  /** The for/else of `add_distance_to_anchor`: the first entry with this MAC gets the
      new distance, otherwise a new entry goes at the end. */
  function Upsert(entries: seq<RangingEntry>, mac: string, d: DistanceRecord): (r: seq<RangingEntry>)
    ensures mac in Keys(entries) ==> |r| == |entries|
    ensures mac !in Keys(entries) ==> r == entries + [RangingEntry(mac, d)]
    ensures Keys(r) == Keys(entries) + {mac}
    ensures forall i :: 0 <= i < |entries| && entries[i].mac != mac ==> r[i] == entries[i]
    ensures UniqueKeys(entries) ==> UniqueKeys(r)
    ensures UniqueKeys(entries) ==> forall i :: 0 <= i < |r| && r[i].mac == mac ==> r[i].distance == d
  {
    if entries == [] then [RangingEntry(mac, d)]
    else if entries[0].mac == mac then
      var r := [RangingEntry(mac, d)] + entries[1..];
      assert r[1..] == entries[1..];
      assert UniqueKeys(entries) ==> forall i :: 0 < i < |r| ==> r[i].mac != mac by {
        if UniqueKeys(entries) {
          NotKeyAt(r[1..], mac);
        }
      }
      r
    else
      var rest := Upsert(entries[1..], mac, d);
      var r := [entries[0]] + rest;
      assert r[1..] == rest;
      assert forall i :: 0 < i < |r| ==> r[i] == rest[i - 1];
      assert forall i :: 0 < i < |entries| ==> entries[i] == entries[1..][i - 1];
      assert mac !in Keys(entries[1..]) ==> entries + [RangingEntry(mac, d)] == [entries[0]] + (entries[1..] + [RangingEntry(mac, d)]);
      r
  }

  /** Upserting a run of entries one after another, as `update_tag_distances` does. */
  function UpsertAll(entries: seq<RangingEntry>, updates: seq<RangingEntry>): (r: seq<RangingEntry>)
    ensures Keys(r) == Keys(entries) + Keys(updates)
    ensures UniqueKeys(entries) ==> UniqueKeys(r)
    decreases |updates|
  {
    if updates == [] then entries
    else
      UpsertAll(Upsert(entries, updates[0].mac, updates[0].distance), updates[1..])
  }

  /** Upserting only MACs that are already keys keeps the table's length. */
  lemma {:induction false} UpsertAllPresent(entries: seq<RangingEntry>, updates: seq<RangingEntry>)
    requires Keys(updates) <= Keys(entries)
    ensures |UpsertAll(entries, updates)| == |entries|
    decreases |updates|
  {
    if updates != [] {
      var e1 := Upsert(entries, updates[0].mac, updates[0].distance);
      UpsertAllPresent(e1, updates[1..]);
    }
  }

  /** Running the same upserts a second time leaves the length unchanged. */
  lemma UpsertAllTwice(entries: seq<RangingEntry>, updates: seq<RangingEntry>)
    ensures |UpsertAll(UpsertAll(entries, updates), updates)| == |UpsertAll(entries, updates)|
  {
    UpsertAllPresent(UpsertAll(entries, updates), updates);
  }

  /** An entry whose MAC is not upserted survives the upserts. */
  lemma {:induction false} UpsertAllKeeps(entries: seq<RangingEntry>, updates: seq<RangingEntry>, x: RangingEntry)
    requires x in entries && x.mac !in Keys(updates)
    ensures x in UpsertAll(entries, updates)
    decreases |updates|
  {
    if updates != [] {
      var e1 := Upsert(entries, updates[0].mac, updates[0].distance);
      var i :| 0 <= i < |entries| && entries[i] == x;
      assert e1[i] == x;
      UpsertAllKeeps(e1, updates[1..], x);
    }
  }

  /** After upserting entries with distinct MACs into a table with distinct MACs, the
      table holds each of them: every MAC with its new distance. */
  lemma {:induction false} UpsertAllHolds(entries: seq<RangingEntry>, updates: seq<RangingEntry>)
    requires UniqueKeys(entries) && UniqueKeys(updates)
    ensures forall k :: 0 <= k < |updates| ==> updates[k] in UpsertAll(entries, updates)
    decreases |updates|
  {
    if updates != [] {
      var u := updates[0];
      var e1 := Upsert(entries, u.mac, u.distance);
      KeysIndex(e1, u.mac);
      var i :| 0 <= i < |e1| && e1[i].mac == u.mac;
      assert e1[i] == u;
      UpsertAllHolds(e1, updates[1..]);
      UpsertAllKeeps(e1, updates[1..], u);
      forall k | 0 < k < |updates| ensures updates[k] in UpsertAll(entries, updates) {
        assert updates[k] == updates[1..][k - 1];
      }
    }
  }

  // ------------------------------------------------------------ abstract state

  /** Every field of a station, as a value; `clusterMacs` are the peers' MACs. */
  datatype StationView = StationView(
    mac: string, name: string, deviceType: DeviceType,
    position: Point, targetPoint: Point, randomizer: real,
    clusterName: Option<string>, clusterMacs: seq<string>,
    rangingData: seq<RangingEntry>,
    createdAt: string, updatedAt: Option<string>,
    updatedFields: seq<Field>)

  /** The `as_dict` projection: everything except the ranging table and the dirty list. */
  datatype Snapshot = Snapshot(
    mac: string, name: string, deviceType: string,
    clusterName: Option<string>, clusterDevices: seq<string>,
    position: Point, targetPoint: Point, randomizer: real,
    updatedAt: Option<string>, createdAt: string)

  function AsDict(v: StationView): Snapshot {
    Snapshot(v.mac, v.name, TypeName(v.deviceType), v.clusterName, v.clusterMacs,
             v.position, v.targetPoint, v.randomizer, v.updatedAt, v.createdAt)
  }

  /** `as_dict` reads `_created_at` directly, not through the getter, so the snapshot
      neither depends on nor touches the dirty list. */
  lemma AsDictIgnoresDirtyList(v: StationView, fields: seq<Field>)
    ensures AsDict(v.(updatedFields := fields)) == AsDict(v)
  {
  }

  /** `[device.mac_address for device in stations]`. */
  function MacsOf(stations: seq<Station>): seq<string> {
    if stations == [] then [] else [stations[0].macAddress] + MacsOf(stations[1..])
  }

  /** The peer list is published as the peers' addresses, one per peer, in order. */
  lemma {:induction false} MacsOfSpec(stations: seq<Station>)
    ensures |MacsOf(stations)| == |stations|
    ensures forall i :: 0 <= i < |stations| ==> MacsOf(stations)[i] == stations[i].macAddress
  {
    if stations != [] {
      MacsOfSpec(stations[1..]);
    }
  }

  // ------------------------------------------------------------ generated identity

  datatype Octets = Octets(a: Byte, b: Byte, c: Byte)

  const MacPrefix := "ab:cd:ef:"
  const NamePrefix := "GPS:No Station-"

  /** `_generate_mac`: the fixed vendor prefix and three random octets. */
  function GenerateMac(o: Octets): string {
    MacPrefix + Hex2(o.a) + ":" + Hex2(o.b) + ":" + Hex2(o.c)
  }

  /** `_generate_name`: for a MAC of six or more colon-separated parts, every part from
      the fourth on, joined and lower-cased; otherwise three fresh random octets. */
  function GenerateName(mac: string, fallback: Octets): string {
    var parts := Split(mac, ':');
    if |parts| >= 6 then NamePrefix + Lower(Join(parts[3..]))
    else NamePrefix + Lower(Hex2(fallback.a) + Hex2(fallback.b) + Hex2(fallback.c))
  }

  /** The MAC format is the colon-join of the prefix octets and the three given ones. */
  lemma PrefixedMacJoin(h1: string, h2: string, h3: string)
    ensures JoinWith(["ab", "cd", "ef", h1, h2, h3], ':') == MacPrefix + h1 + ":" + h2 + ":" + h3
  {
    var parts := ["ab", "cd", "ef", h1, h2, h3];
    var tail := h1 + ":" + h2 + ":" + h3;
    assert JoinWith(parts[5..], ':') == h3;
    assert JoinWith(parts[4..], ':') == h2 + ":" + h3;
    assert JoinWith(parts[3..], ':') == tail;
    assert JoinWith(parts[2..], ':') == "ef" + [':'] + tail;
    assert JoinWith(parts[1..], ':') == "cd" + [':'] + ("ef" + [':'] + tail);
    assert JoinWith(parts, ':') == "ab" + [':'] + ("cd" + [':'] + ("ef" + [':'] + tail));
    assert "ab" + [':'] + ("cd" + [':'] + ("ef" + [':'] + tail)) == MacPrefix + tail;
    assert MacPrefix + tail == MacPrefix + h1 + ":" + h2 + ":" + h3;
  }

  /** A MAC with the fixed prefix and three separator-free octet strings splits into
      the prefix octets and those three. */
  lemma PrefixedMacParts(h1: string, h2: string, h3: string)
    requires ':' !in h1 && ':' !in h2 && ':' !in h3
    ensures Split(MacPrefix + h1 + ":" + h2 + ":" + h3, ':') == ["ab", "cd", "ef", h1, h2, h3]
  {
    SplitJoinWith(["ab", "cd", "ef", h1, h2, h3], ':');
    PrefixedMacJoin(h1, h2, h3);
  }

  lemma GeneratedMacParts(o: Octets)
    ensures Split(GenerateMac(o), ':') == ["ab", "cd", "ef", Hex2(o.a), Hex2(o.b), Hex2(o.c)]
  {
    var h1, h2, h3 := Hex2(o.a), Hex2(o.b), Hex2(o.c);
    assert ':' !in h1 && ':' !in h2 && ':' !in h3;
    PrefixedMacParts(h1, h2, h3);
  }

  /** Because the MAC is set before the name, a generated name is the prefix followed
      by the three generated octets of the MAC. */
  lemma NameOfGeneratedMac(o: Octets, fallback: Octets)
    ensures GenerateName(GenerateMac(o), fallback) == NamePrefix + Hex2(o.a) + Hex2(o.b) + Hex2(o.c)
  {
    GeneratedMacParts(o);
    var parts := Split(GenerateMac(o), ':');
    assert parts[3..] == [Hex2(o.a), Hex2(o.b), Hex2(o.c)];
    JoinThree(Hex2(o.a), Hex2(o.b), Hex2(o.c));
    LowerOfLowerHex(Hex2(o.a) + Hex2(o.b) + Hex2(o.c));
  }

  /** Joining three parts without a separator concatenates them. */
  lemma JoinThree(a: string, b: string, c: string)
    ensures Join([a, b, c]) == a + b + c
  {
    var h := [a, b, c];
    assert Join(h[2..]) == c by { assert h[2..][1..] == []; }
    assert Join(h[1..]) == b + c by { assert h[1..][1..] == h[2..]; }
  }

  // ------------------------------------------------------------ construction

  type RandomizerDraw = r: real | 0.1 <= r <= 0.9 witness 0.5

  /** What the constructor draws: MAC octets, fallback name octets,
      `random.uniform(0.1, 0.9)` and the clock. */
  datatype ConstructionDraws = ConstructionDraws(
    macOctets: Octets, nameOctets: Octets, randomizer: RandomizerDraw, now: string)

  /** The constructor's keyword arguments (`cluster_stations` is never passed by the core). */
  datatype ConstructorArgs = ConstructorArgs(
    macAddress: Option<string>, name: Option<string>, deviceType: TypeArg,
    position: Option<Point>, randomizer: Option<real>, clusterName: Option<string>,
    targetPoint: Option<Point>, createdAt: Option<string>)

  const RandomizerRangeMessage := "Randomizer must be between 0 and 1."

  /** The randomizer the constructor passes to the setter: `randomizer` when truthy
      (a zero is falsy), otherwise the draw. */
  function ChosenRandomizer(a: ConstructorArgs, d: ConstructionDraws): real {
    if a.randomizer.Some? && a.randomizer.value != 0.0 then a.randomizer.value else d.randomizer
  }

  /** The first part of `__init__`: defaults, then the MAC setter, then the name derived
      from the MAC, then the position setter when a position was passed. */
  function InitView(a: ConstructorArgs, t: DeviceType, d: ConstructionDraws): StationView {
    var b := BaseView(ChosenMac(a, d), ChosenName(a, d), t, d);
    if a.position.Some? then b.(position := a.position.value, updatedFields := Mark(b.updatedFields, Position))
    else b
  }

  /** The MAC the constructor sets: the argument when truthy, otherwise a generated one. */
  function ChosenMac(a: ConstructorArgs, d: ConstructionDraws): string {
    if Truthy(a.macAddress) then a.macAddress.value else GenerateMac(d.macOctets)
  }

  /** The name the constructor sets: the argument when truthy, otherwise one derived
      from the MAC already set. */
  function ChosenName(a: ConstructorArgs, d: ConstructionDraws): string {
    if Truthy(a.name) then a.name.value else GenerateName(ChosenMac(a, d), d.nameOctets)
  }

  /** The defaults with the MAC and the name written through their setters, which mark
      `mac_address` and then `name` on an empty list. */
  function BaseView(mac: string, name: string, t: DeviceType, d: ConstructionDraws): StationView {
    StationView(mac, name, t, Origin, Origin, 0.0, None, [], [], d.now, None, [MacAddress, Name])
  }

  /** The last part of `__init__`: the cluster name, target point and creation time
      setters, each only for a truthy argument. */
  function WithOptionalFields(a: ConstructorArgs, v: StationView): StationView {
    var v1 := if Truthy(a.clusterName)
      then v.(clusterName := a.clusterName, updatedFields := Mark(v.updatedFields, ClusterName)) else v;
    var v2 := if a.targetPoint.Some?
      then v1.(targetPoint := a.targetPoint.value, updatedFields := Mark(v1.updatedFields, TargetPoint)) else v1;
    if Truthy(a.createdAt)
      then v2.(createdAt := a.createdAt.value, updatedFields := Mark(v2.updatedFields, CreatedAt)) else v2
  }

  /** The station `Station(**a)` builds, or the exception it raises. Each truthy argument
      goes through its setter, in the constructor's order. */
  function Construct(a: ConstructorArgs, d: ConstructionDraws): Result<StationView> {
    match ParseTypeArg(a.deviceType)
    case Failure(e) => Failure(e)
    case Success(t) =>
      var v := InitView(a, t, d);
      var rz := ChosenRandomizer(a, d);
      if !(0.0 <= rz <= 1.0) then Failure(ValueError(RandomizerRangeMessage))
      else Success(WithOptionalFields(a, v.(randomizer := rz, updatedFields := Mark(v.updatedFields, Randomizer))))
  }

  /** The constructor raises exactly for an unknown type string (checked first) or a
      randomizer outside [0, 1]; a successful construction keeps the randomizer in range. */
  lemma ConstructErrors(a: ConstructorArgs, d: ConstructionDraws)
    ensures ParseTypeArg(a.deviceType).Failure? ==>
      Construct(a, d) == Failure(ParseTypeArg(a.deviceType).error)
    ensures ParseTypeArg(a.deviceType).Success? ==>
      (Construct(a, d).Failure? <==> !(0.0 <= ChosenRandomizer(a, d) <= 1.0))
    ensures ParseTypeArg(a.deviceType).Success? && Construct(a, d).Failure? ==>
      Construct(a, d).error == ValueError(RandomizerRangeMessage)
    ensures Construct(a, d).Success? ==> 0.0 <= Construct(a, d).value.randomizer <= 1.0
    ensures a.randomizer.None? && ParseTypeArg(a.deviceType).Success? ==> Construct(a, d).Success?
  {
  }

  /** A constructed station's identity: a truthy MAC is kept, otherwise one is generated;
      a truthy name is kept, otherwise it is derived from the MAC. */
  lemma ConstructIdentity(a: ConstructorArgs, d: ConstructionDraws)
    requires Construct(a, d).Success?
    ensures Truthy(a.macAddress) ==> Construct(a, d).value.mac == a.macAddress.value
    ensures !Truthy(a.macAddress) && !Truthy(a.name) ==>
      Construct(a, d).value.mac == GenerateMac(d.macOctets) &&
      Construct(a, d).value.name == NamePrefix + Hex2(d.macOctets.a) + Hex2(d.macOctets.b) + Hex2(d.macOctets.c)
    ensures Truthy(a.name) ==> Construct(a, d).value.name == a.name.value
  {
    ConstructNames(a, d, Construct(a, d).value);
    if !Truthy(a.macAddress) && !Truthy(a.name) {
      NameOfGeneratedMac(d.macOctets, d.nameOctets);
    }
  }

  lemma ConstructNames(a: ConstructorArgs, d: ConstructionDraws, v: StationView)
    requires Construct(a, d) == Success(v)
    ensures v.mac == ChosenMac(a, d) && v.name == ChosenName(a, d)
  {
  }

  /** The rest of a constructed station: the parsed type, each passed position, target
      and truthy cluster name, the chosen randomizer, no update stamp, no peers and no
      ranging data. */
  lemma ConstructFields(a: ConstructorArgs, d: ConstructionDraws, v: StationView)
    requires Construct(a, d) == Success(v)
    ensures ParseTypeArg(a.deviceType) == Success(v.deviceType)
    ensures v.position == (if a.position.Some? then a.position.value else Origin)
    ensures v.targetPoint == (if a.targetPoint.Some? then a.targetPoint.value else Origin)
    ensures v.randomizer == ChosenRandomizer(a, d)
    ensures v.clusterName == (if Truthy(a.clusterName) then a.clusterName else None)
    ensures v.createdAt == (if Truthy(a.createdAt) then a.createdAt.value else d.now)
    ensures v.updatedAt == None && v.clusterMacs == [] && v.rangingData == []
  {
  }

  /** The dirty list of a new station: its MAC and name, then each field that was
      passed (truthy), in setter order, each once. */
  lemma ConstructDirtyFields(a: ConstructorArgs, d: ConstructionDraws)
    requires Construct(a, d).Success?
    ensures Construct(a, d).value.updatedFields ==
      [MacAddress, Name]
      + (if a.position.Some? then [Position] else [])
      + [Randomizer]
      + (if Truthy(a.clusterName) then [ClusterName] else [])
      + (if a.targetPoint.Some? then [TargetPoint] else [])
      + (if Truthy(a.createdAt) then [CreatedAt] else [])
    ensures NoDup(Construct(a, d).value.updatedFields)
  {
    var t := ParseTypeArg(a.deviceType).value;
    var v := InitView(a, t, d);
    var p: seq<Field> := if a.position.Some? then [Position] else [];
    var w := v.(randomizer := ChosenRandomizer(a, d), updatedFields := Mark(v.updatedFields, Randomizer));
    assert Construct(a, d) == Success(WithOptionalFields(a, w));
    InitDirty(a, t, d);
    RandomizerDirty(a, w, p);
  }

  lemma InitDirty(a: ConstructorArgs, t: DeviceType, d: ConstructionDraws)
    ensures InitView(a, t, d).updatedFields == [MacAddress, Name] + (if a.position.Some? then [Position] else [])
  {
  }

  lemma RandomizerDirty(a: ConstructorArgs, w: StationView, p: seq<Field>)
    requires p == [] || p == [Position]
    requires w.updatedFields == Mark([MacAddress, Name] + p, Randomizer)
    ensures NoDup(WithOptionalFields(a, w).updatedFields)
    ensures WithOptionalFields(a, w).updatedFields ==
      [MacAddress, Name] + p + [Randomizer]
      + (if Truthy(a.clusterName) then [ClusterName] else [])
      + (if a.targetPoint.Some? then [TargetPoint] else [])
      + (if Truthy(a.createdAt) then [CreatedAt] else [])
  {
    assert w.updatedFields == [MacAddress, Name] + p + [Randomizer];
    OptionalFieldsDirty(a, w);
  }

  /** The optional setters append their fields in order to a list that has none of them. */
  lemma OptionalFieldsDirty(a: ConstructorArgs, v: StationView)
    requires ClusterName !in v.updatedFields && TargetPoint !in v.updatedFields && CreatedAt !in v.updatedFields
    ensures NoDup(v.updatedFields) ==> NoDup(WithOptionalFields(a, v).updatedFields)
    ensures WithOptionalFields(a, v).updatedFields ==
      v.updatedFields
      + (if Truthy(a.clusterName) then [ClusterName] else [])
      + (if a.targetPoint.Some? then [TargetPoint] else [])
      + (if Truthy(a.createdAt) then [CreatedAt] else [])
  {
  }

  // ------------------------------------------------------------ one movement tick

  /** `random.random()`. */
  type Unit = r: real | 0.0 <= r < 1.0

  /** The unit vector along the bearing from the position to the target:
      `(cos(atan2(dy, dx)), sin(atan2(dy, dx)))` for `(dx, dy)`. */
  type Heading = (real, real) -> Point

  /** The arguments of `move` (config values in the core). */
  datatype MoveParams = MoveParams(
    speed: real, realistic: bool, proximity: real, sizeX: int, sizeY: int)

  /** Stands for the text of the ValueError that `random.randint` raises for an empty
      range, whatever that text is in the Python version at hand; the model only needs
      one fixed message. */
  const EmptyRangeMessage := "empty range for randrange()"

  /** One step of `speed` along the bearing, each axis clamped into the plane. */
  function Step(v: StationView, m: MoveParams, heading: Heading): Point {
    var u := heading(v.targetPoint.x - v.position.x, v.targetPoint.y - v.position.y);
    Point(Clamp(v.position.x + m.speed * u.x, m.sizeX as real),
          Clamp(v.position.y + m.speed * u.y, m.sizeY as real))
  }

  /** Both axes strictly within `proximity` of the target. */
  predicate Arrived(p: Point, target: Point, proximity: real) {
    Abs(p.x - target.x) < proximity && Abs(p.y - target.y) < proximity
  }

  /** What `move` returns (or raises) and the station afterwards. */
  datatype Moved = Moved(outcome: Result<bool>, after: StationView)

  /** `move`: skip a non-tag; skip when realistic and the chance draw exceeds the
      randomizer; otherwise step, write the position, and on arrival draw a new target
      with `randint(0, size)` per axis, which raises on a negative size. */
  function MoveStep(v: StationView, m: MoveParams, heading: Heading, chance: Unit, retarget: (int, int)): Moved {
    if v.deviceType != Tag then Moved(Success(false), v)
    else if m.realistic && chance > v.randomizer then Moved(Success(false), v)
    else
      var p := Step(v, m, heading);
      var placed := v.(position := p, updatedFields := Mark(v.updatedFields, Position));
      if !Arrived(p, v.targetPoint, m.proximity) then Moved(Success(true), placed)
      else if m.sizeX < 0 || m.sizeY < 0 then Moved(Failure(ValueError(EmptyRangeMessage)), placed)
      else
        Moved(Success(true), placed.(
          targetPoint := Point(retarget.0 as real, retarget.1 as real),
          updatedFields := Mark(placed.updatedFields, TargetPoint)))
  }

  /** A skipped tick: `move` returns False and changes nothing exactly when the station is
      not a tag, or movement is realistic and the draw exceeds the randomizer. */
  lemma MoveSkips(v: StationView, m: MoveParams, heading: Heading, chance: Unit, retarget: (int, int))
    ensures var r := MoveStep(v, m, heading, chance, retarget);
      r.outcome == Success(false) <==> v.deviceType != Tag || (m.realistic && chance > v.randomizer)
    ensures var r := MoveStep(v, m, heading, chance, retarget);
      r.outcome == Success(false) ==> r.after == v
  {
  }

  /** A tick that is not skipped lands in the plane, marks the position dirty and returns
      True; the target is replaced, by the drawn integer point, exactly on arrival. */
  lemma MoveInPlane(v: StationView, m: MoveParams, heading: Heading, chance: Unit, retarget: (int, int))
    requires v.deviceType == Tag && !(m.realistic && chance > v.randomizer)
    requires 0 <= m.sizeX && 0 <= m.sizeY
    requires 0 <= retarget.0 <= m.sizeX && 0 <= retarget.1 <= m.sizeY
    ensures var r := MoveStep(v, m, heading, chance, retarget);
      && r.outcome == Success(true)
      && r.after.position == Step(v, m, heading)
      && InPlane(r.after.position, m.sizeX, m.sizeY)
      && Position in r.after.updatedFields
      && InPlane(r.after.targetPoint, m.sizeX, m.sizeY) == (Arrived(r.after.position, v.targetPoint, m.proximity) || InPlane(v.targetPoint, m.sizeX, m.sizeY))
      && (r.after.targetPoint != v.targetPoint ==> Arrived(r.after.position, v.targetPoint, m.proximity))
      && (Arrived(r.after.position, v.targetPoint, m.proximity) ==>
            r.after.targetPoint == Point(retarget.0 as real, retarget.1 as real) && TargetPoint in r.after.updatedFields)
      && r.after.(position := v.position, targetPoint := v.targetPoint, updatedFields := v.updatedFields) == v
  {
  }

  /** The boundary absorbs: a step that would overshoot an edge ends exactly on it, on
      either axis. */
  lemma StepStopsAtEdge(v: StationView, m: MoveParams, heading: Heading)
    requires 0 <= m.sizeX
    ensures var u := heading(v.targetPoint.x - v.position.x, v.targetPoint.y - v.position.y);
      (v.position.x + m.speed * u.x > m.sizeX as real ==> Step(v, m, heading).x == m.sizeX as real) &&
      (v.position.x + m.speed * u.x < 0.0 ==> Step(v, m, heading).x == 0.0) &&
      (0 <= m.sizeY && v.position.y + m.speed * u.y > m.sizeY as real ==> Step(v, m, heading).y == m.sizeY as real) &&
      (v.position.y + m.speed * u.y < 0.0 ==> Step(v, m, heading).y == 0.0)
  {
  }

  // ------------------------------------------------------------ ranging on a view

  /** `add_distance_to_anchor` on a view: a no-op unless the station is a tag. */
  function AddDistance(v: StationView, mac: string, d: DistanceRecord): StationView {
    if v.deviceType != Tag then v
    else v.(rangingData := Upsert(v.rangingData, mac, d),
            updatedFields := Mark(v.updatedFields, RangingData))
  }

  /** On a tag, a known MAC has its entry's distance replaced in place (length unchanged),
      an unknown one is appended, other entries are untouched and the table is dirty;
      on any other station nothing changes. */
  lemma AddDistanceUpserts(v: StationView, mac: string, d: DistanceRecord)
    requires UniqueKeys(v.rangingData)
    ensures var w := AddDistance(v, mac, d);
      v.deviceType != Tag ==> w == v
    ensures var w := AddDistance(v, mac, d);
      v.deviceType == Tag ==>
        && (mac in Keys(v.rangingData) ==> (|w.rangingData| == |v.rangingData|
              && forall i :: 0 <= i < |w.rangingData| && w.rangingData[i].mac == mac ==> w.rangingData[i] == RangingEntry(mac, d)))
        && (mac !in Keys(v.rangingData) ==> w.rangingData == v.rangingData + [RangingEntry(mac, d)])
        && (forall i :: 0 <= i < |v.rangingData| && v.rangingData[i].mac != mac ==> w.rangingData[i] == v.rangingData[i])
        && RangingData in w.updatedFields
        && w.(rangingData := v.rangingData, updatedFields := v.updatedFields) == v
  {
  }

  /** The loop of `add_distance_to_anchor` stops at the first index with the MAC;
      updating that index is the upsert. */
  lemma {:induction false} UpsertAt(entries: seq<RangingEntry>, mac: string, d: DistanceRecord, i: nat)
    requires i <= |entries|
    requires forall j :: 0 <= j < i ==> entries[j].mac != mac
    requires i < |entries| ==> entries[i].mac == mac
    ensures i < |entries| ==> Upsert(entries, mac, d) == entries[i := RangingEntry(mac, d)]
    ensures i == |entries| ==> Upsert(entries, mac, d) == entries + [RangingEntry(mac, d)]
  {
    if i == |entries| {
      KeysIndex(entries, mac);
    } else if i > 0 {
      UpsertAt(entries[1..], mac, d, i - 1);
      assert entries[1..][i - 1 := RangingEntry(mac, d)] == entries[i := RangingEntry(mac, d)][1..];
    }
  }

  // ------------------------------------------------------------ the class

  class Station {
    const macAddress: string
    const name: string
    var deviceType: DeviceType
    var position: Point
    var targetPoint: Point
    var randomizer: real
    var clusterName: Option<string>
    var clusterStations: seq<Station>
    var rangingData: seq<RangingEntry>
    var createdAt: string
    var updatedAt: Option<string>
    var updatedFields: seq<Field>

    /** The dirty list has no duplicates, the randomizer is in [0, 1] and the ranging
      table has one entry per MAC. */
    ghost predicate Valid()
      reads this
    {
      NoDup(updatedFields) && 0.0 <= randomizer <= 1.0 && UniqueKeys(rangingData)
    }

    function View(): StationView
      reads this
    {
      StationView(macAddress, name, deviceType, position, targetPoint, randomizer,
                  clusterName, MacsOf(clusterStations), rangingData,
                  createdAt, updatedAt, updatedFields)
    }

    predicate IsAnchor()
      reads this
    {
      deviceType == Anchor
    }

    predicate IsTag()
      reads this
    {
      deviceType == Tag
    }

    /** The first part of `__init__`: the defaults, then the MAC, then the name derived
      from it, then the position. The randomizer is set by `Create`. */
    constructor Init(a: ConstructorArgs, t: DeviceType, d: ConstructionDraws)
      ensures Valid()
      ensures View() == InitView(a, t, d)
      ensures clusterStations == []
    {
      var mac := ChosenMac(a, d);
      var nm := ChosenName(a, d);
      macAddress := mac;
      name := nm;
      deviceType := t;
      position := Origin;
      targetPoint := Origin;
      randomizer := 0.0;
      clusterName := None;
      clusterStations := [];
      rangingData := [];
      createdAt := d.now;
      updatedAt := None;
      updatedFields := [];
      new;
      assert MacsOf(clusterStations) == [];
      MarkUpdated(MacAddress);
      MarkUpdated(Name);
      assert View() == BaseView(mac, nm, t, d);
      if a.position.Some? {
        SetPosition(a.position.value);
      }
    }

    /** `Station(**a)`: a fresh station whose state is `Construct(a, d)`, or the
      exception the constructor raises. */
    static method Create(a: ConstructorArgs, d: ConstructionDraws) returns (r: Result<Station>)
      ensures Construct(a, d).Failure? <==> r.Failure?
      ensures r.Failure? ==> r.error == Construct(a, d).error
      ensures r.Success? ==> fresh(r.value) && r.value.Valid() && r.value.clusterStations == []
      ensures r.Success? ==> r.value.View() == Construct(a, d).value
    {
      var t := ParseTypeArg(a.deviceType);
      if t.Failure? {
        return Failure(t.error);
      }
      var s := new Station.Init(a, t.value, d);
      var ok := s.SetRandomizer(ChosenRandomizer(a, d));
      if ok.Fail? {
        return Failure(ok.error);
      }
      if Truthy(a.clusterName) {
        s.SetClusterName(a.clusterName.value);
      }
      if a.targetPoint.Some? {
        s.SetTargetPoint(a.targetPoint.value);
      }
      if Truthy(a.createdAt) {
        s.SetCreatedAt(a.createdAt.value);
      }
      return Success(s);
    }

    /** `if not field in self._updated_fields: self._updated_fields.append(field)`. */
    method MarkUpdated(field: Field)
      modifies `updatedFields
      ensures updatedFields == Mark(old(updatedFields), field)
    {
      if field !in updatedFields {
        updatedFields := updatedFields + [field];
      }
    }

    /** The `device_type` setter: an unknown string raises KeyError (not the
      constructor's ValueError) and `None` raises ValueError, both before any change. */
    method SetDeviceType(arg: TypeArg) returns (ok: Outcome)
      requires Valid()
      modifies `deviceType, `updatedFields
      ensures Valid()
      ensures arg.Named? && TypeNamed(Upper(arg.text)).None? ==>
        ok == Fail(KeyError(Upper(arg.text))) && View() == old(View())
      ensures arg.Missing? ==> ok == Fail(ValueError("Invalid device type provided.")) && View() == old(View())
      ensures ok.Pass? <==> arg.Member? || (arg.Named? && TypeNamed(Upper(arg.text)).Some?)
      ensures ok.Pass? ==>
        View() == old(View()).(deviceType := ParseTypeArg(arg).value,
                               updatedFields := Mark(old(updatedFields), TypeField))
    {
      match arg {
        case Named(text) =>
          var t := TypeNamed(Upper(text));
          if t.None? {
            return Fail(KeyError(Upper(text)));
          }
          deviceType := t.value;
        case Member(t) =>
          deviceType := t;
        case Missing =>
          return Fail(ValueError("Invalid device type provided."));
      }
      MarkUpdated(TypeField);
      return Pass;
    }

    /** The `randomizer` setter: outside [0, 1] it raises and changes nothing. */
    method SetRandomizer(value: real) returns (ok: Outcome)
      requires Valid()
      modifies `randomizer, `updatedFields
      ensures Valid()
      ensures ok.Pass? <==> 0.0 <= value <= 1.0
      ensures ok.Fail? ==> ok.error == ValueError(RandomizerRangeMessage) && View() == old(View())
      ensures ok.Pass? ==>
        View() == old(View()).(randomizer := value, updatedFields := Mark(old(updatedFields), Randomizer))
    {
      if !(0.0 <= value <= 1.0) {
        return Fail(ValueError(RandomizerRangeMessage));
      }
      MarkUpdated(Randomizer);
      randomizer := value;
      return Pass;
    }

    method SetUpdatedAt(value: Option<string>)
      requires Valid()
      modifies `updatedAt, `updatedFields
      ensures Valid()
      ensures View() == old(View()).(updatedAt := value, updatedFields := Mark(old(updatedFields), UpdatedAt))
    {
      MarkUpdated(UpdatedAt);
      updatedAt := value;
    }

    /** The `created_at` getter: returns the stored value and, as a side effect, takes
      `"created_at"` out of the dirty list. */
    method GetCreatedAt() returns (value: string)
      requires Valid()
      modifies `updatedFields
      ensures Valid()
      ensures value == createdAt
      ensures View() == old(View()).(updatedFields := RemoveFirst(old(updatedFields), CreatedAt))
      ensures CreatedAt !in updatedFields
    {
      if CreatedAt in updatedFields {
        updatedFields := RemoveFirst(updatedFields, CreatedAt);
      }
      return createdAt;
    }

    method SetCreatedAt(value: string)
      requires Valid()
      modifies `createdAt, `updatedFields
      ensures Valid()
      ensures View() == old(View()).(createdAt := value, updatedFields := Mark(old(updatedFields), CreatedAt))
    {
      MarkUpdated(CreatedAt);
      createdAt := value;
    }

    method SetClusterName(value: string)
      requires Valid()
      modifies `clusterName, `updatedFields
      ensures Valid()
      ensures View() == old(View()).(clusterName := Some(value), updatedFields := Mark(old(updatedFields), ClusterName))
    {
      MarkUpdated(ClusterName);
      clusterName := Some(value);
    }

    method SetPosition(p: Point)
      requires Valid()
      modifies `position, `updatedFields
      ensures Valid()
      ensures View() == old(View()).(position := p, updatedFields := Mark(old(updatedFields), Position))
    {
      MarkUpdated(Position);
      position := p;
    }

    method SetTargetPoint(p: Point)
      requires Valid()
      modifies `targetPoint, `updatedFields
      ensures Valid()
      ensures View() == old(View()).(targetPoint := p, updatedFields := Mark(old(updatedFields), TargetPoint))
    {
      MarkUpdated(TargetPoint);
      targetPoint := p;
    }

    method SetClusterStations(devices: seq<Station>)
      requires Valid()
      modifies `clusterStations, `updatedFields
      ensures Valid()
      ensures clusterStations == devices
      ensures View() == old(View()).(clusterMacs := MacsOf(devices), updatedFields := Mark(old(updatedFields), ClusterStations))
    {
      MarkUpdated(ClusterStations);
      clusterStations := devices;
    }

    /** Removes `field` if present and is a no-op otherwise; other entries keep their order. */
    method RemoveFromUpdatedFields(field: Field)
      requires Valid()
      modifies `updatedFields
      ensures Valid()
      ensures View() == old(View()).(updatedFields := RemoveFirst(old(updatedFields), field))
      ensures field !in updatedFields
    {
      if field in updatedFields {
        updatedFields := RemoveFirst(updatedFields, field);
      }
    }

    /** `set_random_position`: the drawn `randint(0, size)` point. */
    method SetRandomPosition(sizeX: int, sizeY: int, rx: int, ry: int)
      requires Valid()
      requires 0 <= rx <= sizeX && 0 <= ry <= sizeY
      modifies `position, `updatedFields
      ensures Valid()
      ensures InPlane(position, sizeX, sizeY)
      ensures View() == old(View()).(position := Point(rx as real, ry as real),
                                     updatedFields := Mark(old(updatedFields), Position))
    {
      SetPosition(Point(rx as real, ry as real));
    }

    /** `set_random_target_point`: the position shifted by drawn offsets in
      [-radius, radius], each axis clamped into the plane. */
    method SetRandomTargetPoint(sizeX: int, sizeY: int, radius: int, ox: int, oy: int)
      requires Valid()
      requires -radius <= ox <= radius && -radius <= oy <= radius
      modifies `targetPoint, `updatedFields
      ensures Valid()
      ensures 0 <= sizeX && 0 <= sizeY ==> InPlane(targetPoint, sizeX, sizeY)
      ensures View() == old(View()).(
        targetPoint := Point(Clamp(position.x + ox as real, sizeX as real), Clamp(position.y + oy as real, sizeY as real)),
        updatedFields := Mark(old(updatedFields), TargetPoint))
    {
      SetTargetPoint(Point(Clamp(position.x + ox as real, sizeX as real), Clamp(position.y + oy as real, sizeY as real)));
    }

    /** `move`; `chance` is `random.random()` and `retarget` the two `randint` draws. */
    method Move(m: MoveParams, heading: Heading, chance: Unit, retarget: (int, int)) returns (moved: Result<bool>)
      requires Valid()
      modifies `position, `targetPoint, `updatedFields
      ensures Valid()
      ensures moved == MoveStep(old(View()), m, heading, chance, retarget).outcome
      ensures View() == MoveStep(old(View()), m, heading, chance, retarget).after
    {
      if !IsTag() {
        return Success(false);
      }
      if m.realistic && chance > randomizer {
        return Success(false);
      }
      var dx := targetPoint.x - position.x;
      var dy := targetPoint.y - position.y;
      var u := heading(dx, dy);
      var newX := Clamp(position.x + m.speed * u.x, m.sizeX as real);
      var newY := Clamp(position.y + m.speed * u.y, m.sizeY as real);
      assert Point(newX, newY) == Step(old(View()), m, heading);
      SetPosition(Point(newX, newY));
      if Abs(newX - targetPoint.x) < m.proximity && Abs(newY - targetPoint.y) < m.proximity {
        assert Arrived(Point(newX, newY), old(View()).targetPoint, m.proximity);
        if m.sizeX < 0 || m.sizeY < 0 {
          return Failure(ValueError(EmptyRangeMessage));
        }
        SetTargetPoint(Point(retarget.0 as real, retarget.1 as real));
      }
      return Success(true);
    }

    /** `add_distance_to_anchor`: on a tag, upsert the anchor's entry and mark the table
      dirty; on any other station do nothing. */
    method AddDistanceToAnchor(anchor: Station, d: DistanceRecord)
      requires Valid()
      modifies `rangingData, `updatedFields
      ensures Valid()
      ensures View() == AddDistance(old(View()), anchor.macAddress, d)
    {
      if !IsTag() {
        return;
      }
      var i := 0;
      while i < |rangingData| && rangingData[i].mac != anchor.macAddress
        invariant 0 <= i <= |rangingData|
        invariant forall j :: 0 <= j < i ==> rangingData[j].mac != anchor.macAddress
      {
        i := i + 1;
      }
      UpsertAt(rangingData, anchor.macAddress, d, i);
      if i < |rangingData| {
        rangingData := rangingData[i := RangingEntry(anchor.macAddress, d)];
      } else {
        rangingData := rangingData + [RangingEntry(anchor.macAddress, d)];
      }
      MarkUpdated(RangingData);
    }
  }

  /** The views of a run of stations, in order. */
  function ViewsOf(stations: seq<Station>): seq<StationView>
    reads stations
  {
    seq(|stations|, j requires 0 <= j < |stations| reads stations => stations[j].View())
  }
}
