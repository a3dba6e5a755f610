/** The simulation coordinator of services/simulation_service.py: the station
    collection, its role-filtered views, full-mesh peer lists, tag-to-anchor
    distances and first-match lookups. */
module Simulation {
  import opened Wrappers
  import opened DirtyFields
  import opened Stations
  import opened Seqs

  /** `math.sqrt` on the non-negative reals: non-negative, and its square is the argument.
      `sqrt(0) == 0` follows from the other two; it is stated because the solver does not
      derive it from a product. */
  ghost predicate IsSqrt(sqrt: real -> real) {
    && (forall v :: 0.0 <= v ==> 0.0 <= sqrt(v) && sqrt(v) * sqrt(v) == v)
    && sqrt(0.0) == 0.0
  }

  /** The Euclidean distance between two points. */
  function RawDistance(sqrt: real -> real, p: Point, q: Point): real {
    sqrt(Square(p.x - q.x) + Square(p.y - q.y))
  }

  function Square(v: real): real {
    v * v
  }

  /** `distance * distance_scaling_factor`. */
  function Scale(raw: real, factor: real): real {
    raw * factor
  }

  /** `[s for s in stations if s.device_type == t]`. */
  function WithRole(stations: seq<Station>, t: DeviceType): (r: seq<Station>)
    reads stations
    ensures |r| <= |stations|
  {
    if stations == [] then []
    else (if stations[0].deviceType == t then [stations[0]] else []) + WithRole(stations[1..], t)
  }

  /** The device types of a collection, read off the objects. */
  function TypesOf(stations: seq<Station>): (r: seq<DeviceType>)
    reads stations
    ensures |r| == |stations|
    ensures forall k :: 0 <= k < |stations| ==> r[k] == stations[k].deviceType
  {
    seq(|stations|, k requires 0 <= k < |stations| reads stations => stations[k].deviceType)
  }

  /** The stations whose entry in `types` is `t`, in order. */
  function Select(stations: seq<Station>, types: seq<DeviceType>, t: DeviceType): seq<Station>
    requires |types| == |stations|
  {
    if stations == [] then []
    else (if types[0] == t then [stations[0]] else []) + Select(stations[1..], types[1..], t)
  }

  /** The role filter depends on the objects only through their device types, so it
      survives any change that leaves those alone. */
  lemma {:induction false} RolesByTypes(stations: seq<Station>, t: DeviceType)
    ensures WithRole(stations, t) == Select(stations, TypesOf(stations), t)
    decreases |stations|
  {
    if stations != [] {
      RolesByTypes(stations[1..], t);
      assert TypesOf(stations)[1..] == TypesOf(stations[1..]);
    }
  }

  /** The view holds exactly the stations with the role. */
  lemma {:induction false} WithRoleMembers(stations: seq<Station>, t: DeviceType)
    ensures forall s :: s in WithRole(stations, t) ==> s in stations && s.deviceType == t
    ensures forall i :: 0 <= i < |stations| && stations[i].deviceType == t ==> stations[i] in WithRole(stations, t)
  {
    if stations != [] {
      WithRoleMembers(stations[1..], t);
      forall i | 1 <= i < |stations| ensures stations[i] == stations[1..][i - 1] {
      }
    }
  }

  /** Filtering keeps collection order: it distributes over concatenation. */
  lemma {:induction false} WithRoleAppend(a: seq<Station>, b: seq<Station>, t: DeviceType)
    ensures WithRole(a + b, t) == WithRole(a, t) + WithRole(b, t)
  {
    if a != [] {
      assert (a + b)[0] == a[0] && (a + b)[1..] == a[1..] + b;
      WithRoleAppend(a[1..], b, t);
      var h: seq<Station> := if a[0].deviceType == t then [a[0]] else [];
      assert WithRole(a + b, t) == h + WithRole(a[1..] + b, t);
      assert WithRole(a, t) == h + WithRole(a[1..], t);
    } else {
      assert a + b == b;
    }
  }

  /** Filtering stations that all have role `u` keeps all of them or none. */
  lemma {:induction false} WithRoleUniform(stations: seq<Station>, u: DeviceType, t: DeviceType)
    requires forall k :: 0 <= k < |stations| ==> stations[k].deviceType == u
    ensures WithRole(stations, t) == if u == t then stations else []
  {
    if stations != [] {
      WithRoleUniform(stations[1..], u, t);
      assert stations == [stations[0]] + stations[1..];
    }
  }

  /** A station without a role is in neither view; a station is never in both. */
  lemma RolesDisjoint(stations: seq<Station>, s: Station)
    ensures s.deviceType == Unassigned ==> s !in WithRole(stations, Anchor) && s !in WithRole(stations, Tag)
    ensures !(s in WithRole(stations, Anchor) && s in WithRole(stations, Tag))
  {
    WithRoleMembers(stations, Anchor);
    WithRoleMembers(stations, Tag);
  }

  /** `[s for s in stations if s.mac_address != mac]`. MACs are fixed at construction,
      so this reads no mutable state. */
  function Others(stations: seq<Station>, mac: string): (r: seq<Station>)
    ensures |r| <= |stations|
  {
    if stations == [] then []
    else (if stations[0].macAddress != mac then [stations[0]] else []) + Others(stations[1..], mac)
  }

  /** The peers are exactly the stations with a different MAC; a station is never its
      own peer. */
  lemma {:induction false} OthersMembers(stations: seq<Station>, mac: string)
    ensures forall s :: s in Others(stations, mac) ==> s in stations && s.macAddress != mac
    ensures forall i :: 0 <= i < |stations| && stations[i].macAddress != mac ==> stations[i] in Others(stations, mac)
  {
    if stations != [] {
      OthersMembers(stations[1..], mac);
      forall i | 1 <= i < |stations| ensures stations[i] == stations[1..][i - 1] {
      }
    }
  }

  /** Peer lists keep collection order too. */
  lemma {:induction false} OthersAppend(a: seq<Station>, b: seq<Station>, mac: string)
    ensures Others(a + b, mac) == Others(a, mac) + Others(b, mac)
  {
    if a != [] {
      assert (a + b)[0] == a[0] && (a + b)[1..] == a[1..] + b;
      OthersAppend(a[1..], b, mac);
      var h: seq<Station> := if a[0].macAddress != mac then [a[0]] else [];
      assert Others(a + b, mac) == h + Others(a[1..] + b, mac);
      assert Others(a, mac) == h + Others(a[1..], mac);
    } else {
      assert a + b == b;
    }
  }

  /** What `update_device_knowledge` does to one station: new peers, and
      `"cluster_stations"` dirty. */
  function WithPeers(v: StationView, peers: seq<Station>): StationView {
    v.(clusterMacs := MacsOf(peers), updatedFields := Mark(v.updatedFields, ClusterStations))
  }

  /** Refreshing a station's peers twice with the same list is refreshing once. */
  lemma WithPeersTwice(v: StationView, peers: seq<Station>)
    ensures WithPeers(WithPeers(v, peers), peers) == WithPeers(v, peers)
  {
    MarkTwice(v.updatedFields, ClusterStations);
  }

  /** The distance records `update_tag_distances` feeds to the tag, one per anchor in order. */
  function DistanceUpdates(sqrt: real -> real, factor: real, tag: Point, anchors: seq<StationView>): (u: seq<RangingEntry>)
    ensures |u| == |anchors|
    ensures forall i :: 0 <= i < |anchors| ==> u[i].mac == anchors[i].mac
    ensures forall i :: 0 <= i < |anchors| ==> u[i].distance.raw == RawDistance(sqrt, tag, anchors[i].position)
    ensures forall i :: 0 <= i < |anchors| ==> u[i].distance.scaled == Scale(u[i].distance.raw, factor)
  {
    if anchors == [] then []
    else
      var raw := RawDistance(sqrt, tag, anchors[0].position);
      [RangingEntry(anchors[0].mac, DistanceRecord(raw, Scale(raw, factor)))]
      + DistanceUpdates(sqrt, factor, tag, anchors[1..])
  }

  /** `update_tag_distances` on a view: a non-tag is unchanged; a tag gets one upsert
      per anchor, and the table becomes dirty when there was at least one anchor. */
  function TagDistances(v: StationView, updates: seq<RangingEntry>): StationView {
    if v.deviceType != Tag || updates == [] then v
    else v.(rangingData := UpsertAll(v.rangingData, updates),
            updatedFields := Mark(v.updatedFields, RangingData))
  }

  /** After the distances are recomputed on a tag whose table has one entry per MAC, and
      the anchors have distinct MACs, the table holds an entry for every anchor with that
      anchor's current distance. */
  lemma TagDistancesHold(v: StationView, updates: seq<RangingEntry>)
    requires v.deviceType == Tag
    requires UniqueKeys(v.rangingData) && UniqueKeys(updates)
    ensures forall k :: 0 <= k < |updates| ==> updates[k] in TagDistances(v, updates).rangingData
    ensures Keys(TagDistances(v, updates).rangingData) == Keys(v.rangingData) + Keys(updates)
  {
    UpsertAllHolds(v.rangingData, updates);
  }

  /** Recomputing the same distances a second time leaves the table's length unchanged. */
  lemma TagDistancesTwice(v: StationView, updates: seq<RangingEntry>)
    ensures |TagDistances(TagDistances(v, updates), updates).rangingData| == |TagDistances(v, updates).rangingData|
  {
    if v.deviceType == Tag && updates != [] {
      UpsertAllTwice(v.rangingData, updates);
    }
  }

  class SimulationService {
    var stations: seq<Station>
    const sizeX: int
    const sizeY: int
    const distanceScalingFactor: real
    /** The square root `calculate_distance` uses. */
    const sqrt: real -> real

    ghost predicate Valid()
      reads this, stations
    {
      IsSqrt(sqrt) && forall s :: s in stations ==> s.Valid()
    }

    constructor (sizeX: int, sizeY: int, distanceScalingFactor: real, sqrt: real -> real)
      requires IsSqrt(sqrt)
      ensures Valid()
      ensures stations == []
      ensures this.sizeX == sizeX && this.sizeY == sizeY
      ensures this.distanceScalingFactor == distanceScalingFactor && this.sqrt == sqrt
    {
      this.stations := [];
      this.sizeX := sizeX;
      this.sizeY := sizeY;
      this.distanceScalingFactor := distanceScalingFactor;
      this.sqrt := sqrt;
    }

    /** Appends at the end, with no uniqueness check. */
    method AddStation(s: Station)
      requires Valid() && s.Valid()
      modifies `stations
      ensures Valid()
      ensures stations == old(stations) + [s]
      ensures |stations| == |old(stations)| + 1
    {
      stations := stations + [s];
    }

    /** Replaces the collection (the `stations` setter). */
    method SetStations(sts: seq<Station>)
      requires Valid() && forall s :: s in sts ==> s.Valid()
      modifies `stations
      ensures Valid()
      ensures stations == sts
    {
      stations := sts;
    }

    function Anchors(): (r: seq<Station>)
      reads this, stations
      ensures |r| <= |stations|
    {
      WithRole(stations, Anchor)
    }

    function Tags(): (r: seq<Station>)
      reads this, stations
      ensures |r| <= |stations|
    {
      WithRole(stations, Tag)
    }

    /** The raw Euclidean distance between the two positions and its scaled copy. */
    function CalculateDistance(tag: Station, anchor: Station): (r: DistanceRecord)
      reads tag, anchor
      ensures r.scaled == Scale(r.raw, distanceScalingFactor)
      ensures r.raw == RawDistance(sqrt, tag.position, anchor.position)
    {
      var raw := RawDistance(sqrt, tag.position, anchor.position);
      DistanceRecord(raw, Scale(raw, distanceScalingFactor))
    }

    /** `s` holds `all` minus itself as its peers, and its view is `before` with them recorded. */
    ghost predicate Refreshed(s: Station, before: StationView, all: seq<Station>)
      reads s
    {
      && s.clusterStations == Others(all, s.macAddress)
      && s.View() == WithPeers(before, Others(all, s.macAddress))
    }

    /** Each station's peers become every station whose MAC differs from its own, and
      `"cluster_stations"` becomes dirty on each. */
    method UpdateDeviceKnowledge()
      requires Valid()
      modifies stations
      ensures Valid()
      ensures forall j :: 0 <= j < |stations| ==> stations[j].clusterStations == Others(stations, stations[j].macAddress)
      ensures forall j :: 0 <= j < |stations| ==>
        stations[j].View() == WithPeers(old(stations[j].View()), Others(stations, stations[j].macAddress))
    {
      ghost var all := stations;
      ghost var before := seq(|all|, j requires 0 <= j < |all| reads all => all[j].View());
      var i := 0;
      while i < |stations|
        invariant 0 <= i <= |stations|
        invariant forall j :: 0 <= j < |stations| ==> stations[j].Valid()
        invariant forall j :: 0 <= j < |stations| ==>
          if stations[j] in stations[..i] then Refreshed(stations[j], before[j], stations)
          else stations[j].View() == before[j]
      {
        KnowNext(i, stations[i], before);
        i := i + 1;
      }
      TakeAll(stations);
      forall j | 0 <= j < |stations|
        ensures stations[j].clusterStations == Others(stations, stations[j].macAddress)
        ensures stations[j].View() == WithPeers(old(stations[j].View()), Others(stations, stations[j].macAddress))
      {
        assert stations[j] in stations[..i];
        assert old(stations[j].View()) == before[j];
      }
    }

    /** One pass of that loop: the `i`-th station is given its peers. */
    method KnowNext(i: nat, station: Station, ghost before: seq<StationView>)
      requires i < |stations| && station == stations[i] && |before| == |stations|
      requires forall j :: 0 <= j < |stations| ==> stations[j].Valid()
      requires forall j :: 0 <= j < |stations| ==>
        if stations[j] in stations[..i] then Refreshed(stations[j], before[j], stations)
        else stations[j].View() == before[j]
      modifies station`clusterStations, station`updatedFields
      ensures forall j :: 0 <= j < |stations| ==> stations[j].Valid()
      ensures forall j :: 0 <= j < |stations| ==>
        if stations[j] in stations[..i + 1] then Refreshed(stations[j], before[j], stations)
        else stations[j].View() == before[j]
    {
      var others := Others(stations, station.macAddress);
      station.SetClusterStations(others);
      TakeOneMore(stations, i);
      forall j | 0 <= j < |stations|
        ensures stations[j].Valid()
        ensures if stations[j] in stations[..i + 1] then Refreshed(stations[j], before[j], stations)
                else stations[j].View() == before[j]
      {
        if stations[j] == station {
          WithPeersTwice(before[j], others);
        } else {
          assert stations[j] in stations[..i + 1] <==> stations[j] in stations[..i];
        }
      }
    }

    /** Upserts a distance record per anchor into a tag's table; a non-tag is left alone. */
    method UpdateTagDistances(tag: Station)
      requires Valid() && tag in stations
      modifies tag`rangingData, tag`updatedFields
      ensures Valid()
      ensures tag.View() ==
        TagDistances(old(tag.View()), DistanceUpdates(sqrt, distanceScalingFactor, tag.position, old(ViewsOf(Anchors()))))
      ensures Anchors() == old(Anchors()) && ViewsOf(Anchors()) == old(ViewsOf(Anchors()))
    {
      if !tag.IsTag() {
        return;
      }
      var anchors := Anchors();
      ghost var types := TypesOf(stations);
      RolesByTypes(stations, Anchor);
      WithRoleMembers(stations, Anchor);
      assert tag !in anchors;
      ghost var views := ViewsOf(anchors);
      UpsertAnchors(tag, anchors);
      assert ViewsOf(anchors) == views;
      assert TypesOf(stations) == types;
      RolesByTypes(stations, Anchor);
      forall s | s in stations ensures s.Valid() {
        if s != tag {
          assert s.View() == old(s.View());
        }
      }
    }

    /** The loop of `update_tag_distances`: one upsert per anchor, in order. */
    method UpsertAnchors(tag: Station, anchors: seq<Station>)
      requires IsSqrt(sqrt) && tag.Valid() && tag.IsTag() && tag !in anchors
      modifies tag`rangingData, tag`updatedFields
      ensures tag.Valid()
      ensures tag.View() == TagDistances(old(tag.View()), DistanceUpdates(sqrt, distanceScalingFactor, tag.position, ViewsOf(anchors)))
    {
      ghost var views := ViewsOf(anchors);
      ghost var updates := DistanceUpdates(sqrt, distanceScalingFactor, tag.position, views);
      ghost var v0 := tag.View();
      var i := 0;
      while i < |anchors|
        invariant 0 <= i <= |anchors|
        invariant tag.Valid() && tag.deviceType == Tag
        invariant tag.position == v0.position
        invariant tag.View() == TagDistances(v0, updates[..i])
      {
        assert views[i] == anchors[i].View();
        UpsertAnchor(tag, anchors[i], v0, updates[..i], updates[i]);
        TakeOneMore(updates, i);
        i := i + 1;
      }
      TakeAll(updates);
    }

    /** One iteration of that loop: the distance to one anchor, upserted into the table. */
    method UpsertAnchor(tag: Station, anchor: Station, ghost v0: StationView, ghost done: seq<RangingEntry>, ghost u: RangingEntry)
      requires tag.Valid() && tag.deviceType == Tag && v0.deviceType == Tag
      requires tag.View() == TagDistances(v0, done)
      requires u.mac == anchor.macAddress
      requires u.distance.raw == RawDistance(sqrt, tag.position, anchor.position)
      requires u.distance.scaled == Scale(u.distance.raw, distanceScalingFactor)
      modifies tag`rangingData, tag`updatedFields
      ensures tag.Valid()
      ensures tag.View() == TagDistances(v0, done + [u])
    {
      var d := CalculateDistance(tag, anchor);
      assert RangingEntry(anchor.macAddress, d) == u;
      tag.AddDistanceToAnchor(anchor, d);
      TagDistancesSnoc(v0, done, u);
    }

    /** The first station with this MAC, or None when there is none. */
    method GetStationByMac(mac: string) returns (r: Option<Station>)
      ensures r.None? <==> forall s :: s in stations ==> s.macAddress != mac
      ensures r.Some? ==> exists i :: (0 <= i < |stations| && stations[i] == r.value
        && stations[i].macAddress == mac && forall j :: 0 <= j < i ==> stations[j].macAddress != mac)
    {
      var i := 0;
      while i < |stations|
        invariant 0 <= i <= |stations|
        invariant forall j :: 0 <= j < i ==> stations[j].macAddress != mac
      {
        if stations[i].macAddress == mac {
          return Some(stations[i]);
        }
        i := i + 1;
      }
      return None;
    }

    /** The first station with this name, or None when there is none. */
    method GetStationByName(name: string) returns (r: Option<Station>)
      ensures r.None? <==> forall s :: s in stations ==> s.name != name
      ensures r.Some? ==> exists i :: (0 <= i < |stations| && stations[i] == r.value
        && stations[i].name == name && forall j :: 0 <= j < i ==> stations[j].name != name)
    {
      var i := 0;
      while i < |stations|
        invariant 0 <= i <= |stations|
        invariant forall j :: 0 <= j < i ==> stations[j].name != name
      {
        if stations[i].name == name {
          return Some(stations[i]);
        }
        i := i + 1;
      }
      return None;
    }
  }

  /** The distance is non-negative, zero between equal positions, and symmetric. */
  lemma DistanceFacts(sqrt: real -> real, p: Point, q: Point)
    requires IsSqrt(sqrt)
    ensures 0.0 <= RawDistance(sqrt, p, q)
    ensures RawDistance(sqrt, p, q) == RawDistance(sqrt, q, p)
    ensures p == q ==> RawDistance(sqrt, p, q) == 0.0
  {
    SquareFacts(p.x, q.x);
    SquareFacts(p.y, q.y);
  }

  lemma SquareFacts(a: real, b: real)
    ensures Square(a - b) == Square(b - a)
    ensures 0.0 <= Square(a - b)
    ensures a == b ==> Square(a - b) == 0.0
  {
    assert b - a == -(a - b);
    if a - b < 0.0 {
      assert Square(a - b) == Square(b - a);
    }
    if a == b {
      assert a - b == 0.0;
    }
  }

  /** One more anchor processed is one more upsert on the tag's view. */
  lemma TagDistancesSnoc(v: StationView, updates: seq<RangingEntry>, u: RangingEntry)
    requires v.deviceType == Tag
    ensures AddDistance(TagDistances(v, updates), u.mac, u.distance) == TagDistances(v, updates + [u])
  {
    UpsertAllSnoc(v.rangingData, updates, u);
    MarkTwice(v.updatedFields, RangingData);
    if updates == [] {
      assert updates + [u] == [u];
      assert UpsertAll(v.rangingData, []) == v.rangingData;
    }
  }

  /** One more upsert at the end of the run. */
  lemma {:induction false} UpsertAllSnoc(entries: seq<RangingEntry>, updates: seq<RangingEntry>, u: RangingEntry)
    ensures UpsertAll(entries, updates + [u]) == Upsert(UpsertAll(entries, updates), u.mac, u.distance)
    decreases |updates|
  {
    if updates == [] {
      assert [] + [u] == [u];
    } else {
      assert (updates + [u])[1..] == updates[1..] + [u];
      UpsertAllSnoc(Upsert(entries, updates[0].mac, updates[0].distance), updates[1..], u);
    }
  }
}
