/** `prepare_stations` and one pass of the `run_simulation` loop, over the services,
    with the database and the broker replaced by the logs the storage and the MQTT
    service keep. */
module Orchestration {
  import opened Wrappers
  import opened Seqs
  import opened DirtyFields
  import opened Stations
  import opened Simulation
  import opened Storage
  import opened Mqtt

  /** No station object appears twice in the collection. */
  ghost predicate Distinct(stations: seq<Station>) {
    forall j, k :: 0 <= j < k < |stations| ==> stations[j] != stations[k]
  }

  /** Appending a station not yet present keeps the collection free of repeats. */
  lemma DistinctSnoc(stations: seq<Station>, s: Station)
    requires Distinct(stations) && s !in stations
    ensures Distinct(stations + [s])
  {
    var t := stations + [s];
    forall j, k | 0 <= j < k < |t| ensures t[j] != t[k] {
      if k < |stations| {
        assert t[j] == stations[j] && t[k] == stations[k];
      } else {
        assert t[j] == stations[j];
      }
    }
  }

  /** The MACs of a run of views. */
  function MacSet(views: seq<StationView>): set<string> {
    set k | 0 <= k < |views| :: views[k].mac
  }

  // ------------------------------------------------------------ a tick: the tags

  /** What `move` draws for one station: `random.random()` and the two `randint` values
      used when it re-targets. */
  datatype MoveDraw = MoveDraw(chance: Unit, retarget: (int, int))

  /** A station's turn in the tick's first loop: `move`, then, only when it returned
      True, the distances to `anchors`. The loop runs over the tags only, and `move`
      leaves every other station alone, so the turn of a non-tag changes nothing. */
  function TagTurn(v: StationView, m: MoveParams, heading: Heading, d: MoveDraw,
                   sqrt: real -> real, factor: real, anchors: seq<StationView>): Moved
  {
    var r := MoveStep(v, m, heading, d.chance, d.retarget);
    if r.outcome == Success(true)
    then Moved(r.outcome, TagDistances(r.after, DistanceUpdates(sqrt, factor, r.after.position, anchors)))
    else r
  }

  /** The turns of the whole collection, each station with its own draws. */
  function Turns(views: seq<StationView>, stations: seq<Station>, m: MoveParams, heading: Heading,
                 draw: Station -> MoveDraw, sqrt: real -> real, factor: real, anchors: seq<StationView>): (r: seq<Moved>)
    requires |views| == |stations|
    ensures |r| == |views|
  {
    seq(|views|, j requires 0 <= j < |views| => TagTurn(views[j], m, heading, draw(stations[j]), sqrt, factor, anchors))
  }

  /** The turns of the service's stations, against its anchors, in the current state. */
  ghost function TurnsOf(sim: SimulationService, m: MoveParams, heading: Heading, draw: Station -> MoveDraw): seq<Moved>
    reads sim, sim.stations, sim.Anchors()
  {
    Turns(ViewsOf(sim.stations), sim.stations, m, heading, draw, sim.sqrt, sim.distanceScalingFactor, ViewsOf(sim.Anchors()))
  }

  /** The turn's outcome is `move`'s; a station that is not a tag is left as it was. */
  lemma TurnOutcome(v: StationView, m: MoveParams, heading: Heading, d: MoveDraw,
                    sqrt: real -> real, factor: real, anchors: seq<StationView>)
    ensures TagTurn(v, m, heading, d, sqrt, factor, anchors).outcome == MoveStep(v, m, heading, d.chance, d.retarget).outcome
    ensures v.deviceType != Tag ==> TagTurn(v, m, heading, d, sqrt, factor, anchors) == Moved(Success(false), v)
    ensures TagTurn(v, m, heading, d, sqrt, factor, anchors).outcome.Failure? ==>
      TagTurn(v, m, heading, d, sqrt, factor, anchors).outcome.error == ValueError(EmptyRangeMessage)
  {
  }

  /** Distances are recomputed exactly for a tag whose `move` returned True: otherwise its
      ranging table is untouched; if it did, the table gains an entry for every anchor,
      and `ranging_data` is dirty once there is an anchor. */
  lemma DistancesOnlyWhenMoved(v: StationView, m: MoveParams, heading: Heading, d: MoveDraw,
                               sqrt: real -> real, factor: real, anchors: seq<StationView>)
    ensures var r := TagTurn(v, m, heading, d, sqrt, factor, anchors);
      r.outcome != Success(true) ==> r.after.rangingData == v.rangingData
    ensures var r := TagTurn(v, m, heading, d, sqrt, factor, anchors);
      r.outcome == Success(true) ==> Keys(r.after.rangingData) == Keys(v.rangingData) + MacSet(anchors)
    ensures var r := TagTurn(v, m, heading, d, sqrt, factor, anchors);
      r.outcome == Success(true) && anchors != [] ==> RangingData in r.after.updatedFields
  {
    var s := MoveStep(v, m, heading, d.chance, d.retarget);
    if s.outcome == Success(true) {
      KeysOfUpdates(sqrt, factor, s.after.position, anchors);
    }
  }

  /** The distance records name exactly the anchors' MACs. */
  lemma {:induction false} KeysOfUpdates(sqrt: real -> real, factor: real, p: Point, anchors: seq<StationView>)
    ensures Keys(DistanceUpdates(sqrt, factor, p, anchors)) == MacSet(anchors)
    decreases |anchors|
  {
    if anchors != [] {
      KeysOfUpdates(sqrt, factor, p, anchors[1..]);
      assert MacSet(anchors) == {anchors[0].mac} + MacSet(anchors[1..]) by {
        forall k | 0 <= k < |anchors| ensures anchors[k].mac in {anchors[0].mac} + MacSet(anchors[1..]) {
          if k > 0 {
            assert anchors[k] == anchors[1..][k - 1];
          }
        }
        forall k | 0 <= k < |anchors[1..]| ensures anchors[1..][k].mac in MacSet(anchors) {
          assert anchors[1..][k] == anchors[k + 1];
        }
      }
    }
  }

  /** A role filter of a collection without repeats has none. */
  lemma {:induction false} WithRoleDistinct(stations: seq<Station>, t: DeviceType)
    requires Distinct(stations)
    ensures Distinct(WithRole(stations, t))
    decreases |stations|
  {
    if stations != [] {
      var rest := stations[1..];
      assert Distinct(rest) by {
        forall j, k | 0 <= j < k < |rest| ensures rest[j] != rest[k] {
          assert rest[j] == stations[j + 1] && rest[k] == stations[k + 1];
        }
      }
      WithRoleDistinct(rest, t);
      WithRoleMembers(rest, t);
      if stations[0].deviceType == t {
        var w := WithRole(rest, t);
        assert stations[0] !in w by {
          forall k | 0 <= k < |rest| ensures rest[k] != stations[0] {
            assert rest[k] == stations[k + 1];
          }
        }
        assert WithRole(stations, t) == [stations[0]] + w;
        forall j, k | 0 <= j < k < |[stations[0]] + w| ensures ([stations[0]] + w)[j] != ([stations[0]] + w)[k] {
          assert ([stations[0]] + w)[k] == w[k - 1];
          if j > 0 {
            assert ([stations[0]] + w)[j] == w[j - 1];
          }
        }
      }
    }
  }

  /** One tag's turn on the objects: `tag.move(...)`, then `update_tag_distances(tag)`
      when it returned True. */
  method TakeTurn(sim: SimulationService, tag: Station, m: MoveParams, heading: Heading, d: MoveDraw,
                  ghost anchors: seq<StationView>) returns (r: Result<bool>)
    requires sim.Valid() && tag in sim.stations && tag.IsTag()
    requires ViewsOf(sim.Anchors()) == anchors
    modifies tag`position, tag`targetPoint, tag`rangingData, tag`updatedFields
    ensures sim.Valid() && ViewsOf(sim.Anchors()) == anchors
    ensures r == TagTurn(old(tag.View()), m, heading, d, sim.sqrt, sim.distanceScalingFactor, anchors).outcome
    ensures tag.View() == TagTurn(old(tag.View()), m, heading, d, sim.sqrt, sim.distanceScalingFactor, anchors).after
  {
    r := MoveTag(sim, tag, m, heading, d, anchors);
    if r == Success(true) {
      RangeTag(sim, tag, anchors);
    }
  }

  /** `tag.move(...)` inside the service: the anchors and the other stations keep their state. */
  method MoveTag(sim: SimulationService, tag: Station, m: MoveParams, heading: Heading, d: MoveDraw,
                 ghost anchors: seq<StationView>) returns (r: Result<bool>)
    requires sim.Valid() && tag in sim.stations && tag.IsTag()
    requires ViewsOf(sim.Anchors()) == anchors
    modifies tag`position, tag`targetPoint, tag`updatedFields
    ensures sim.Valid() && ViewsOf(sim.Anchors()) == anchors
    ensures r == MoveStep(old(tag.View()), m, heading, d.chance, d.retarget).outcome
    ensures tag.View() == MoveStep(old(tag.View()), m, heading, d.chance, d.retarget).after
  {
    ghost var a := sim.Anchors();
    ghost var types := TypesOf(sim.stations);
    RolesByTypes(sim.stations, Anchor);
    WithRoleMembers(sim.stations, Anchor);
    assert tag !in a;
    r := tag.Move(m, heading, d.chance, d.retarget);
    RolesByTypes(sim.stations, Anchor);
    assert TypesOf(sim.stations) == types;
    assert ViewsOf(a) == anchors;
    forall s | s in sim.stations ensures s.Valid() {
      if s != tag {
        assert s.View() == old(s.View());
      }
    }
  }

  /** `update_tag_distances(tag)` inside the service: the anchors keep their state. */
  method RangeTag(sim: SimulationService, tag: Station, ghost anchors: seq<StationView>)
    requires sim.Valid() && tag in sim.stations && tag.IsTag()
    requires ViewsOf(sim.Anchors()) == anchors
    modifies tag`rangingData, tag`updatedFields
    ensures sim.Valid() && ViewsOf(sim.Anchors()) == anchors
    ensures tag.View() == TagDistances(old(tag.View()), DistanceUpdates(sim.sqrt, sim.distanceScalingFactor, old(tag.position), anchors))
  {
    sim.UpdateTagDistances(tag);
  }

  /** One iteration of the tick's first loop: the i-th tag, found at `j0` in the
      collection, takes its turn; `turns` are what each station's turn does. */
  method TurnNext(sim: SimulationService, tag: Station, tags: seq<Station>, i: nat, m: MoveParams, heading: Heading,
                  draw: Station -> MoveDraw, ghost stations: seq<Station>, ghost before: seq<StationView>,
                  ghost turns: seq<Moved>, ghost anchors: seq<StationView>) returns (r: Result<bool>, ghost j0: nat)
    requires sim.Valid() && sim.stations == stations && Distinct(stations)
    requires ViewsOf(sim.Anchors()) == anchors
    requires i < |tags| && Distinct(tags) && tag == tags[i] && tag in stations
    requires |before| == |turns| == |stations|
    requires forall j :: 0 <= j < |stations| && stations[j] in tags ==> before[j].deviceType == Tag
    requires forall j :: 0 <= j < |stations| ==>
      turns[j] == TagTurn(before[j], m, heading, draw(stations[j]), sim.sqrt, sim.distanceScalingFactor, anchors)
    requires forall j :: 0 <= j < |stations| ==>
      stations[j].View() == if stations[j] in tags[..i] then turns[j].after else before[j]
    requires forall j :: 0 <= j < |stations| && stations[j] in tags[..i] ==> turns[j].outcome.Success?
    modifies tag`position, tag`targetPoint, tag`rangingData, tag`updatedFields
    ensures sim.Valid() && ViewsOf(sim.Anchors()) == anchors
    ensures j0 < |stations| && r == turns[j0].outcome
    ensures forall j :: 0 <= j < |stations| ==>
      stations[j].View() == if stations[j] in tags[..i + 1] then turns[j].after else before[j]
    ensures r.Success? ==> forall j :: 0 <= j < |stations| && stations[j] in tags[..i + 1] ==> turns[j].outcome.Success?
  {
    j0 :| 0 <= j0 < |stations| && stations[j0] == tag;
    assert tag !in tags[..i];
    assert tag.View() == before[j0];
    r := TakeTurn(sim, tag, m, heading, draw(tag), anchors);
    TakeOneMore(tags, i);
    forall j | 0 <= j < |stations|
      ensures stations[j].View() == if stations[j] in tags[..i + 1] then turns[j].after else before[j]
      ensures r.Success? && stations[j] in tags[..i + 1] ==> turns[j].outcome.Success?
    {
      if j != j0 {
        assert stations[j] != tag;
      }
    }
  }

  /** Once every tag has taken its turn, every station is as its turn leaves it: a
      station that is not a tag has a turn that changes nothing. */
  lemma AllTurned(stations: seq<Station>, tags: seq<Station>, before: seq<StationView>, turns: seq<Moved>,
                  now: seq<StationView>, m: MoveParams, heading: Heading, draw: Station -> MoveDraw,
                  sqrt: real -> real, factor: real, anchors: seq<StationView>)
    requires |before| == |stations| == |now|
    requires turns == Turns(before, stations, m, heading, draw, sqrt, factor, anchors)
    requires forall j :: 0 <= j < |stations| && stations[j] !in tags ==> before[j].deviceType != Tag
    requires forall j :: 0 <= j < |stations| ==> now[j] == if stations[j] in tags then turns[j].after else before[j]
    requires forall j :: 0 <= j < |stations| && stations[j] in tags ==> turns[j].outcome.Success?
    ensures forall j :: 0 <= j < |stations| ==> now[j] == turns[j].after && turns[j].outcome.Success?
  {
    forall j | 0 <= j < |stations| ensures now[j] == turns[j].after && turns[j].outcome.Success? {
      if stations[j] !in tags {
        TurnOutcome(before[j], m, heading, draw(stations[j]), sqrt, factor, anchors);
      }
    }
  }

  /** The tick's first loop, `for tag in tags: if tag.move(...): update_tag_distances(tag)`.
      It passes exactly when no turn raises, and then every station is as its turn leaves
      it; a raise stops the loop, so each station is either as before or as its turn left
      it, and the error is the empty `randint` range. */
  method MoveTags(sim: SimulationService, m: MoveParams, heading: Heading, draw: Station -> MoveDraw,
                  ghost before: seq<StationView>, ghost anchors: seq<StationView>, ghost turns: seq<Moved>)
    returns (outcome: Outcome)
    requires sim.Valid() && Distinct(sim.stations)
    requires before == ViewsOf(sim.stations) && anchors == ViewsOf(sim.Anchors())
    requires turns == Turns(before, sim.stations, m, heading, draw, sim.sqrt, sim.distanceScalingFactor, anchors)
    modifies sim.stations
    ensures sim.Valid() && ViewsOf(sim.Anchors()) == anchors
    ensures outcome == Pass <==> forall j :: 0 <= j < |turns| ==> turns[j].outcome.Success?
    ensures outcome == Pass ==> forall j :: 0 <= j < |turns| ==> sim.stations[j].View() == turns[j].after
    ensures outcome.Fail? ==> forall j :: 0 <= j < |turns| ==>
      sim.stations[j].View() == before[j] || sim.stations[j].View() == turns[j].after
    ensures outcome.Fail? ==> outcome.error == ValueError(EmptyRangeMessage)
  {
    var tags := sim.Tags();
    ghost var stations := sim.stations;
    WithRoleMembers(stations, Tag);
    WithRoleDistinct(stations, Tag);
    OutsideNotTags(stations, before);
    var r: Result<bool>;
    ghost var failed: nat;
    r, failed := TurnLoop(sim, tags, m, heading, draw, stations, before, turns, anchors);
    if r.Failure? {
      TurnOutcome(before[failed], m, heading, draw(stations[failed]), sim.sqrt, sim.distanceScalingFactor, anchors);
      return Fail(r.error);
    }
    AllTurned(stations, tags, before, turns, ViewsOf(stations), m, heading, draw, sim.sqrt, sim.distanceScalingFactor, anchors);
    return Pass;
  }

  /** A station the tag filter leaves out was not a tag. */
  lemma OutsideNotTags(stations: seq<Station>, before: seq<StationView>)
    requires before == ViewsOf(stations)
    ensures forall j :: 0 <= j < |stations| && stations[j] !in WithRole(stations, Tag) ==> before[j].deviceType != Tag
  {
    WithRoleMembers(stations, Tag);
    forall j | 0 <= j < |stations| && stations[j] !in WithRole(stations, Tag) ensures before[j].deviceType != Tag {
      assert before[j] == stations[j].View();
    }
  }

  /** The loop itself, over the tags fixed when it starts; `failed` is the index, in the
      collection, of the tag whose turn raised. */
  method TurnLoop(sim: SimulationService, tags: seq<Station>, m: MoveParams, heading: Heading, draw: Station -> MoveDraw,
                  ghost stations: seq<Station>, ghost before: seq<StationView>, ghost turns: seq<Moved>,
                  ghost anchors: seq<StationView>) returns (r: Result<bool>, ghost failed: nat)
    requires sim.Valid() && sim.stations == stations && Distinct(stations) && Distinct(tags)
    requires ViewsOf(sim.Anchors()) == anchors
    requires forall t | t in tags :: t in stations && t.IsTag()
    requires |before| == |turns| == |stations|
    requires forall j :: 0 <= j < |stations| ==>
      turns[j] == TagTurn(before[j], m, heading, draw(stations[j]), sim.sqrt, sim.distanceScalingFactor, anchors)
    requires forall j :: 0 <= j < |stations| ==> stations[j].View() == before[j]
    modifies stations
    ensures sim.Valid() && ViewsOf(sim.Anchors()) == anchors
    ensures r.Success? ==> forall j :: 0 <= j < |stations| ==>
      stations[j].View() == if stations[j] in tags then turns[j].after else before[j]
    ensures r.Success? ==> forall j :: 0 <= j < |stations| && stations[j] in tags ==> turns[j].outcome.Success?
    ensures r.Failure? ==> failed < |stations| && turns[failed].outcome == r
    ensures r.Failure? ==> forall j :: 0 <= j < |stations| ==>
      stations[j].View() == before[j] || stations[j].View() == turns[j].after
  {
    failed := 0;
    assert forall j :: 0 <= j < |stations| && stations[j] in tags ==> before[j].deviceType == Tag by {
      forall j | 0 <= j < |stations| && stations[j] in tags ensures before[j].deviceType == Tag {
        assert stations[j].IsTag();
      }
    }
    var i := 0;
    while i < |tags|
      invariant 0 <= i <= |tags|
      invariant sim.Valid() && ViewsOf(sim.Anchors()) == anchors
      invariant forall j :: 0 <= j < |stations| ==>
        stations[j].View() == if stations[j] in tags[..i] then turns[j].after else before[j]
      invariant forall j :: 0 <= j < |stations| && stations[j] in tags[..i] ==> turns[j].outcome.Success?
    {
      assert tags[i] in stations;
      r, failed := TurnNext(sim, tags[i], tags, i, m, heading, draw, stations, before, turns, anchors);
      if r.Failure? {
        return;
      }
      i := i + 1;
    }
    TakeAll(tags);
    r := Success(true);
  }

  // ------------------------------------------------------------ a tick: the flush

  /** What the tick's second loop does to one station: a dirty station is written
      (`update_station`, whose row read takes `"created_at"` out of the dirty list) and then
      published; a clean one is skipped. */
  datatype Flushed = Flushed(after: StationView, stored: seq<StoreOp>, sent: seq<Message>)

  function FlushTurn(connected: bool, hasClient: bool, base: string, v: StationView, now: string): Flushed {
    if v.updatedFields == [] then Flushed(v, [], [])
    else
      var p := Publish(connected, hasClient, base, CreatedAtRead(v), now);
      Flushed(p.after, [UpdateRow(RowOf(v))], p.sent)
  }

  /** The flush of every station, the k-th stamped `clock(k)`. */
  function Flushes(connected: bool, hasClient: bool, base: string, views: seq<StationView>,
                   clock: nat -> string): (r: seq<Flushed>)
    ensures |r| == |views|
  {
    seq(|views|, j requires 0 <= j < |views| => FlushTurn(connected, hasClient, base, views[j], clock(j)))
  }

  function StoredOf(fs: seq<Flushed>): (r: seq<seq<StoreOp>>)
    ensures |r| == |fs|
  {
    seq(|fs|, j requires 0 <= j < |fs| => fs[j].stored)
  }

  function SentOf(fs: seq<Flushed>): (r: seq<seq<Message>>)
    ensures |r| == |fs|
  {
    seq(|fs|, j requires 0 <= j < |fs| => fs[j].sent)
  }

  /** The stations as the first loop leaves them. */
  function Afters(turns: seq<Moved>): (r: seq<StationView>)
    ensures |r| == |turns|
  {
    seq(|turns|, j requires 0 <= j < |turns| => turns[j].after)
  }

  /** A station is written exactly when it is dirty, as it was before the stamp, and only
      a written station is published; it is published exactly when the service is
      connected, has a client, and something besides `created_at` is dirty, and then it carries the new stamp, which the
      row just written does not have yet. */
  lemma FlushGuard(connected: bool, hasClient: bool, base: string, v: StationView, now: string)
    ensures var r := FlushTurn(connected, hasClient, base, v, now);
      (r.stored != [] <==> v.updatedFields != [])
      && (r.stored != [] ==> r.stored == [UpdateRow(RowOf(v))] && r.stored[0].row.updatedAt == v.updatedAt)
      && (r.sent != [] ==> r.stored != [])
      && (r.sent != [] <==> connected && hasClient && CreatedAtRead(v).updatedFields != [])
      && (r.sent != [] ==> r.after.updatedAt == Some(now))
      && (r.sent == [] ==> r.after == if v.updatedFields == [] then v else CreatedAtRead(v))
  {
    PublishGuard(connected, hasClient, base, CreatedAtRead(v), now);
    if v.updatedFields == [] {
      assert CreatedAtRead(v).updatedFields == [];
    }
  }

  /** No station dirty, or no client: the tick's second loop publishes nothing; with no
      station dirty it writes nothing either. */
  lemma QuietFlush(connected: bool, hasClient: bool, base: string, views: seq<StationView>, clock: nat -> string)
    ensures (forall j :: 0 <= j < |views| ==> views[j].updatedFields == []) ==>
      Concat(StoredOf(Flushes(connected, hasClient, base, views, clock))) == []
    ensures (!connected || !hasClient || forall j :: 0 <= j < |views| ==> views[j].updatedFields == []) ==>
      Concat(SentOf(Flushes(connected, hasClient, base, views, clock))) == []
  {
    var fs := Flushes(connected, hasClient, base, views, clock);
    if forall j :: 0 <= j < |views| ==> views[j].updatedFields == [] {
      forall k | 0 <= k < |fs| ensures StoredOf(fs)[k] == [] && SentOf(fs)[k] == [] {
        assert fs[k] == FlushTurn(connected, hasClient, base, views[k], clock(k));
      }
      AllEmpty(StoredOf(fs));
      AllEmpty(SentOf(fs));
    }
    if !connected || !hasClient {
      forall k | 0 <= k < |fs| ensures SentOf(fs)[k] == [] {
        assert fs[k] == FlushTurn(connected, hasClient, base, views[k], clock(k));
        PublishGuard(connected, hasClient, base, CreatedAtRead(views[k]), clock(k));
      }
      AllEmpty(SentOf(fs));
    }
  }

  /** The tick's second loop, `for station in stations: if station.updated_fields: ...`. */
  method FlushEach(stations: seq<Station>, storage: SqliteStorage, mqtt: MqttService, clock: nat -> string,
                   ghost before: seq<StationView>)
    requires Distinct(stations) && forall j :: 0 <= j < |stations| ==> stations[j].Valid()
    requires before == ViewsOf(stations)
    modifies stations, storage`log, mqtt`published
    ensures forall j :: 0 <= j < |stations| ==> stations[j].Valid()
    ensures forall j :: 0 <= j < |stations| ==>
      stations[j].View() == Flushes(mqtt.connected, mqtt.hasClient, mqtt.baseTopic, before, clock)[j].after
    ensures storage.log == old(storage.log) + Concat(StoredOf(Flushes(mqtt.connected, mqtt.hasClient, mqtt.baseTopic, before, clock)))
    ensures mqtt.published == old(mqtt.published) + Concat(SentOf(Flushes(mqtt.connected, mqtt.hasClient, mqtt.baseTopic, before, clock)))
  {
    ghost var fs := Flushes(mqtt.connected, mqtt.hasClient, mqtt.baseTopic, before, clock);
    ghost var stored := StoredOf(fs);
    ghost var sent := SentOf(fs);
    ghost var l0 := storage.log;
    ghost var p0 := mqtt.published;
    var i := 0;
    while i < |stations|
      invariant 0 <= i <= |stations|
      invariant forall j :: 0 <= j < |stations| ==> stations[j].Valid()
      invariant forall j :: 0 <= j < |stations| ==> stations[j].View() == if j < i then fs[j].after else before[j]
      invariant storage.log == l0 + Concat(stored[..i])
      invariant mqtt.published == p0 + Concat(sent[..i])
    {
      FlushNext(stations, storage, mqtt, clock, i, before, fs, stored, sent, l0, p0);
      i := i + 1;
    }
    TakeAll(stored);
    TakeAll(sent);
  }

  /** One iteration of that loop. */
  method FlushNext(stations: seq<Station>, storage: SqliteStorage, mqtt: MqttService, clock: nat -> string, i: nat,
                   ghost before: seq<StationView>, ghost fs: seq<Flushed>, ghost stored: seq<seq<StoreOp>>,
                   ghost sent: seq<seq<Message>>, ghost l0: seq<StoreOp>, ghost p0: seq<Message>)
    requires i < |stations| == |before| == |fs| == |stored| == |sent|
    requires Distinct(stations) && forall j :: 0 <= j < |stations| ==> stations[j].Valid()
    requires forall j :: 0 <= j < |stations| ==> stations[j].View() == if j < i then fs[j].after else before[j]
    requires fs == Flushes(mqtt.connected, mqtt.hasClient, mqtt.baseTopic, before, clock)
    requires stored == StoredOf(fs) && sent == SentOf(fs)
    requires storage.log == l0 + Concat(stored[..i]) && mqtt.published == p0 + Concat(sent[..i])
    modifies stations, storage`log, mqtt`published
    ensures forall j :: 0 <= j < |stations| ==> stations[j].Valid()
    ensures forall j :: 0 <= j < |stations| ==> stations[j].View() == if j < i + 1 then fs[j].after else before[j]
    ensures storage.log == l0 + Concat(stored[..i + 1]) && mqtt.published == p0 + Concat(sent[..i + 1])
  {
    var station := stations[i];
    assert fs[i] == FlushTurn(mqtt.connected, mqtt.hasClient, mqtt.baseTopic, before[i], clock(i));
    assert stored[i] == fs[i].stored && sent[i] == fs[i].sent;
    FlushOne(station, storage, mqtt, clock(i), before[i], fs[i]);
    Associate(l0, Concat(stored[..i]), stored[i]);
    Associate(p0, Concat(sent[..i]), sent[i]);
    ConcatSnoc(stored, i);
    ConcatSnoc(sent, i);
    forall j | 0 <= j < |stations|
      ensures stations[j].Valid() && stations[j].View() == if j < i + 1 then fs[j].after else before[j]
    {
      if j != i {
        assert stations[j] != station;
      }
    }
  }

  /** The body of the tick's second loop for one station. */
  method FlushOne(station: Station, storage: SqliteStorage, mqtt: MqttService, now: string,
                  ghost v: StationView, ghost f: Flushed)
    requires station.Valid() && station.View() == v
    requires f == FlushTurn(mqtt.connected, mqtt.hasClient, mqtt.baseTopic, v, now)
    modifies station, storage`log, mqtt`published
    ensures station.Valid() && station.View() == f.after
    ensures storage.log == old(storage.log) + f.stored && mqtt.published == old(mqtt.published) + f.sent
  {
    if |station.updatedFields| > 0 {
      storage.UpdateStation(station);
      mqtt.PublishStation(station, now);
    }
  }

  // ------------------------------------------------------------ a tick

  /** Each station as before the tick or as its turn left it: what a raise part-way
      through the first loop leaves. */
  ghost predicate PartlyTurned(mid: seq<StationView>, before: seq<StationView>, turns: seq<Moved>) {
    |mid| == |before| == |turns| && forall j :: 0 <= j < |mid| ==> mid[j] == before[j] || mid[j] == turns[j].after
  }

  /** One pass of the `while True` loop of `run_simulation`, without the sleep: every tag
      moves (and re-ranges when it moved), then every dirty station is written and
      published. When a `move` raises, the loop's `except` writes all stations as one
      batch, publishes nothing more, and the simulation ends. */
  method Tick(sim: SimulationService, mqtt: MqttService, storage: SqliteStorage, m: MoveParams, heading: Heading,
              draw: Station -> MoveDraw, clock: nat -> string) returns (outcome: Outcome)
    requires sim.Valid() && Distinct(sim.stations)
    modifies sim.stations, storage`log, mqtt`published
    ensures sim.Valid()
    ensures var turns := old(TurnsOf(sim, m, heading, draw));
      outcome == Pass <==> forall j :: 0 <= j < |turns| ==> turns[j].outcome.Success?
    ensures var turns := old(TurnsOf(sim, m, heading, draw));
      var fs := Flushes(mqtt.connected, mqtt.hasClient, mqtt.baseTopic, Afters(turns), clock);
      outcome == Pass ==>
        && (forall j :: 0 <= j < |fs| ==> sim.stations[j].View() == fs[j].after)
        && storage.log == old(storage.log) + Concat(StoredOf(fs))
        && mqtt.published == old(mqtt.published) + Concat(SentOf(fs))
    ensures var turns := old(TurnsOf(sim, m, heading, draw));
      outcome.Fail? ==>
        && outcome.error == ValueError(EmptyRangeMessage)
        && mqtt.published == old(mqtt.published)
        && exists mid ::
             && PartlyTurned(mid, old(ViewsOf(sim.stations)), turns)
             && storage.log == old(storage.log) + [SaveRows(RowsOf(mid))]
             && (forall j :: 0 <= j < |mid| ==> sim.stations[j].View() == CreatedAtRead(mid[j]))
  {
    ghost var before := ViewsOf(sim.stations);
    ghost var anchors := ViewsOf(sim.Anchors());
    ghost var turns := TurnsOf(sim, m, heading, draw);
    outcome := TickFrom(sim, mqtt, storage, m, heading, draw, clock, before, anchors, turns);
  }

  /** The tick from the stations' and the anchors' state at its start. */
  method TickFrom(sim: SimulationService, mqtt: MqttService, storage: SqliteStorage, m: MoveParams, heading: Heading,
                  draw: Station -> MoveDraw, clock: nat -> string, ghost before: seq<StationView>,
                  ghost anchors: seq<StationView>, ghost turns: seq<Moved>) returns (outcome: Outcome)
    requires sim.Valid() && Distinct(sim.stations)
    requires before == ViewsOf(sim.stations) && anchors == ViewsOf(sim.Anchors())
    requires turns == Turns(before, sim.stations, m, heading, draw, sim.sqrt, sim.distanceScalingFactor, anchors)
    modifies sim.stations, storage`log, mqtt`published
    ensures sim.Valid()
    ensures outcome == Pass <==> forall j :: 0 <= j < |turns| ==> turns[j].outcome.Success?
    ensures var fs := Flushes(mqtt.connected, mqtt.hasClient, mqtt.baseTopic, Afters(turns), clock);
      outcome == Pass ==>
        && (forall j :: 0 <= j < |fs| ==> sim.stations[j].View() == fs[j].after)
        && storage.log == old(storage.log) + Concat(StoredOf(fs))
        && mqtt.published == old(mqtt.published) + Concat(SentOf(fs))
    ensures outcome.Fail? ==>
      && outcome.error == ValueError(EmptyRangeMessage)
      && mqtt.published == old(mqtt.published)
      && exists mid ::
           && PartlyTurned(mid, before, turns)
           && storage.log == old(storage.log) + [SaveRows(RowsOf(mid))]
           && (forall j :: 0 <= j < |mid| ==> sim.stations[j].View() == CreatedAtRead(mid[j]))
  {
    ghost var p0 := mqtt.published;
    outcome := MoveTags(sim, m, heading, draw, before, anchors, turns);
    if outcome.Fail? {
      SaveAfterRaise(sim, storage, before, turns);
      assert mqtt.published == p0;
      return;
    }
    FlushTurned(sim, mqtt, storage, clock, turns);
  }

  /** The tick's second loop once every tag has taken its turn. */
  method FlushTurned(sim: SimulationService, mqtt: MqttService, storage: SqliteStorage, clock: nat -> string,
                     ghost turns: seq<Moved>)
    requires sim.Valid() && Distinct(sim.stations) && |turns| == |sim.stations|
    requires forall j :: 0 <= j < |turns| ==> sim.stations[j].View() == turns[j].after
    modifies sim.stations, storage`log, mqtt`published
    ensures sim.Valid()
    ensures var fs := Flushes(mqtt.connected, mqtt.hasClient, mqtt.baseTopic, Afters(turns), clock);
      && (forall j :: 0 <= j < |fs| ==> sim.stations[j].View() == fs[j].after)
      && storage.log == old(storage.log) + Concat(StoredOf(fs))
      && mqtt.published == old(mqtt.published) + Concat(SentOf(fs))
  {
    ghost var mids := Afters(turns);
    assert ViewsOf(sim.stations) == mids;
    FlushEach(sim.stations, storage, mqtt, clock, mids);
    forall s | s in sim.stations ensures s.Valid() {
    }
  }

  /** The `except` branch of `run_simulation`: `save_stations` over the stations as the
      raise left them. */
  method SaveAfterRaise(sim: SimulationService, storage: SqliteStorage, ghost before: seq<StationView>, ghost turns: seq<Moved>)
    requires sim.Valid() && PartlyTurned(ViewsOf(sim.stations), before, turns)
    modifies sim.stations, storage`log
    ensures sim.Valid()
    ensures exists mid ::
      && PartlyTurned(mid, before, turns)
      && storage.log == old(storage.log) + [SaveRows(RowsOf(mid))]
      && (forall j :: 0 <= j < |mid| ==> sim.stations[j].View() == CreatedAtRead(mid[j]))
  {
    ghost var mid := ViewsOf(sim.stations);
    storage.SaveStations(sim.stations);
    forall s | s in sim.stations ensures s.Valid() {
    }
    assert forall j :: 0 <= j < |mid| ==> sim.stations[j].View() == CreatedAtRead(mid[j]);
  }

  // ------------------------------------------------------------ prepare_stations

  /** `max(0, wanted - present)`: how many stations of a role to create. */
  function Needed(wanted: int, present: nat): (r: nat)
    ensures present + r >= wanted
    ensures r == 0 || present + r == wanted
    ensures r > 0 <==> wanted > present
  {
    if wanted > present then wanted - present else 0
  }

  /** `random.randint(lo, hi)`, given the raw draw `n`; the range must not be empty. */
  function RandInt(lo: int, hi: int, n: nat): (r: int)
    requires lo <= hi
    ensures lo <= r <= hi
  {
    lo + n % (hi - lo + 1)
  }

  /** `Station(device_type=t, cluster_name=cluster)`. */
  function NewStationArgs(t: DeviceType, cluster: string): ConstructorArgs {
    ConstructorArgs(None, None, Member(t), None, None, Some(cluster), None, None)
  }

  /** A station just created by `prepare_stations`: the role, the cluster (when
      non-empty), no stamp, no peers and no distances. */
  predicate Blank(v: StationView, t: DeviceType, cluster: string) {
    && v.deviceType == t
    && v.clusterName == (if cluster != "" then Some(cluster) else None)
    && v.clusterMacs == [] && v.rangingData == [] && v.updatedAt == None
  }

  /** That constructor call cannot raise: the type is a member and no randomizer is
      passed. The station is blank and sits at the origin. */
  lemma NewStationBuilds(t: DeviceType, cluster: string, d: ConstructionDraws)
    ensures Construct(NewStationArgs(t, cluster), d).Success?
    ensures Blank(Construct(NewStationArgs(t, cluster), d).value, t, cluster)
    ensures Construct(NewStationArgs(t, cluster), d).value.position == Origin
  {
    ConstructErrors(NewStationArgs(t, cluster), d);
    ConstructFields(NewStationArgs(t, cluster), d, Construct(NewStationArgs(t, cluster), d).value);
  }

  /** `set_random_position(size_x, size_y)` on a view, with the two drawn integers. */
  function Placed(v: StationView, sizeX: int, sizeY: int, p: (nat, nat)): (r: StationView)
    requires 0 <= sizeX && 0 <= sizeY
    ensures InPlane(r.position, sizeX, sizeY)
    ensures r.(position := v.position, updatedFields := v.updatedFields) == v
    ensures Position in r.updatedFields
  {
    v.(position := Point(RandInt(0, sizeX, p.0) as real, RandInt(0, sizeY, p.1) as real),
       updatedFields := Mark(v.updatedFields, Position))
  }

  /** The first loop of `prepare_stations`: `count` new anchors, each placed at random and
      appended. `set_random_position` raises on a negative plane size, before the first
      anchor is appended. */
  method CreateAnchors(sim: SimulationService, count: nat, sizeX: int, sizeY: int, cluster: string,
                       draws: nat -> ConstructionDraws, place: nat -> (nat, nat)) returns (outcome: Outcome)
    requires sim.Valid() && Distinct(sim.stations)
    modifies sim`stations
    ensures sim.Valid() && Distinct(sim.stations)
    ensures outcome.Fail? <==> count > 0 && (sizeX < 0 || sizeY < 0)
    ensures outcome.Fail? ==> outcome.error == ValueError(EmptyRangeMessage) && sim.stations == old(sim.stations)
    ensures outcome == Pass ==> |sim.stations| == |old(sim.stations)| + count
    ensures outcome == Pass ==> old(sim.stations) <= sim.stations
    ensures outcome == Pass ==> forall j :: |old(sim.stations)| <= j < |sim.stations| ==>
      fresh(sim.stations[j]) && Blank(sim.stations[j].View(), Anchor, cluster) && InPlane(sim.stations[j].position, sizeX, sizeY)
  {
    if count > 0 && (sizeX < 0 || sizeY < 0) {
      return Fail(ValueError(EmptyRangeMessage));
    }
    ghost var s0 := sim.stations;
    var k := 0;
    while k < count
      invariant 0 <= k <= count
      invariant sim.Valid()
      invariant Distinct(sim.stations)
      invariant |sim.stations| == |s0| + k && s0 <= sim.stations
      invariant forall j :: |s0| <= j < |sim.stations| ==>
        fresh(sim.stations[j]) && Blank(sim.stations[j].View(), Anchor, cluster) && InPlane(sim.stations[j].position, sizeX, sizeY)
    {
      var a := CreateAnchor(sizeX, sizeY, cluster, draws(k), place(k));
      DistinctSnoc(sim.stations, a);
      ghost var prev := sim.stations;
      sim.AddStation(a);
      forall j | |s0| <= j < |sim.stations|
        ensures fresh(sim.stations[j]) && Blank(sim.stations[j].View(), Anchor, cluster) && InPlane(sim.stations[j].position, sizeX, sizeY)
      {
        if j < |prev| {
          assert sim.stations[j] == prev[j];
        }
      }
      k := k + 1;
    }
    return Pass;
  }

  /** One iteration of that loop, up to `add_station`. */
  method CreateAnchor(sizeX: nat, sizeY: nat, cluster: string, d: ConstructionDraws, p: (nat, nat)) returns (a: Station)
    ensures fresh(a) && a.Valid()
    ensures a.View() == Placed(Construct(NewStationArgs(Anchor, cluster), d).value, sizeX, sizeY, p)
    ensures Blank(a.View(), Anchor, cluster) && InPlane(a.position, sizeX, sizeY)
  {
    NewStationBuilds(Anchor, cluster, d);
    var made := Station.Create(NewStationArgs(Anchor, cluster), d);
    a := made.value;
    a.SetRandomPosition(sizeX, sizeY, RandInt(0, sizeX, p.0), RandInt(0, sizeY, p.1));
  }

  /** The second loop: `count` new tags, appended as constructed. */
  method CreateTags(sim: SimulationService, count: nat, cluster: string, draws: nat -> ConstructionDraws)
    requires sim.Valid() && Distinct(sim.stations)
    modifies sim`stations
    ensures sim.Valid() && Distinct(sim.stations)
    ensures |sim.stations| == |old(sim.stations)| + count
    ensures old(sim.stations) <= sim.stations
    ensures forall j :: |old(sim.stations)| <= j < |sim.stations| ==>
      fresh(sim.stations[j]) && Blank(sim.stations[j].View(), Tag, cluster) && sim.stations[j].position == Origin
  {
    ghost var s0 := sim.stations;
    var k := 0;
    while k < count
      invariant 0 <= k <= count
      invariant sim.Valid()
      invariant Distinct(sim.stations)
      invariant |sim.stations| == |s0| + k && s0 <= sim.stations
      invariant forall j :: |s0| <= j < |sim.stations| ==>
        fresh(sim.stations[j]) && Blank(sim.stations[j].View(), Tag, cluster) && sim.stations[j].position == Origin
    {
      var t := CreateTag(cluster, draws(k));
      DistinctSnoc(sim.stations, t);
      ghost var prev := sim.stations;
      sim.AddStation(t);
      forall j | |s0| <= j < |sim.stations|
        ensures fresh(sim.stations[j]) && Blank(sim.stations[j].View(), Tag, cluster) && sim.stations[j].position == Origin
      {
        if j < |prev| {
          assert sim.stations[j] == prev[j];
        }
      }
      k := k + 1;
    }
  }

  /** One iteration of that loop, up to `add_station`. */
  method CreateTag(cluster: string, d: ConstructionDraws) returns (t: Station)
    ensures fresh(t) && t.Valid()
    ensures t.View() == Construct(NewStationArgs(Tag, cluster), d).value
    ensures Blank(t.View(), Tag, cluster) && t.position == Origin
  {
    NewStationBuilds(Tag, cluster, d);
    var made := Station.Create(NewStationArgs(Tag, cluster), d);
    t := made.value;
  }

  /** One `update_station` per view, in order. */
  function Updates(views: seq<StationView>): (r: seq<StoreOp>)
    ensures |r| == |views|
  {
    seq(|views|, k requires 0 <= k < |views| => UpdateRow(RowOf(views[k])))
  }

  /** Writing one more station extends the rows written by one. */
  lemma UpdatesSnoc(views: seq<StationView>, ups: seq<StoreOp>, i: nat)
    requires ups == Updates(views) && i < |views|
    ensures ups[..i + 1] == ups[..i] + [UpdateRow(RowOf(views[i]))]
  {
  }

  /** The anchor loop's change to one anchor before it is written: a new random position
      when positions are regenerated (a negative plane size has raised before this point). */
  function Regenerated(v: StationView, regenerate: bool, sizeX: int, sizeY: int, p: (nat, nat)): StationView
  {
    if regenerate && 0 <= sizeX && 0 <= sizeY then Placed(v, sizeX, sizeY, p) else v
  }

  function Regens(views: seq<StationView>, regenerate: bool, sizeX: int, sizeY: int, regen: nat -> (nat, nat)): (r: seq<StationView>)
    ensures |r| == |views|
  {
    seq(|views|, k requires 0 <= k < |views| => Regenerated(views[k], regenerate, sizeX, sizeY, regen(k)))
  }

  /** Regeneration keeps the role and, when it happens, places the anchor in the plane;
      without it the anchor stays where it was. */
  lemma RegensShape(views: seq<StationView>, regenerate: bool, sizeX: int, sizeY: int, regen: nat -> (nat, nat))
    ensures forall k :: 0 <= k < |views| ==>
      && Regens(views, regenerate, sizeX, sizeY, regen)[k].deviceType == views[k].deviceType
      && (regenerate && 0 <= sizeX && 0 <= sizeY ==> InPlane(Regens(views, regenerate, sizeX, sizeY, regen)[k].position, sizeX, sizeY))
      && (!regenerate ==> Regens(views, regenerate, sizeX, sizeY, regen)[k].position == views[k].position)
  {
    forall k | 0 <= k < |views|
      ensures Regens(views, regenerate, sizeX, sizeY, regen)[k] == Regenerated(views[k], regenerate, sizeX, sizeY, regen(k))
    {
    }
  }

  /** The views a loop leaves behind once it has written each of `rs`: the row read
      clears `"created_at"` from every dirty list. */
  function Written(rs: seq<StationView>): (r: seq<StationView>)
    ensures |r| == |rs|
  {
    seq(|rs|, k requires 0 <= k < |rs| => CreatedAtRead(rs[k]))
  }

  /** Stations that each look as written from `rs` have the views `Written(rs)`. */
  lemma WrittenViews(list: seq<Station>, rs: seq<StationView>)
    requires |list| == |rs| && forall k :: 0 <= k < |list| ==> list[k].View() == CreatedAtRead(rs[k])
    ensures ViewsOf(list) == Written(rs)
  {
  }

  /** The anchor loop changes nothing of an anchor but its position and its dirty list;
      without regeneration only `"created_at"` leaves the dirty list, and with it the
      anchor lies in the plane with its position pending. */
  lemma RegensKeep(views: seq<StationView>, regenerate: bool, sizeX: int, sizeY: int, regen: nat -> (nat, nat))
    ensures forall k :: 0 <= k < |views| ==>
      Written(Regens(views, regenerate, sizeX, sizeY, regen))[k].(position := views[k].position,
                                                                  updatedFields := views[k].updatedFields) == views[k]
    ensures !(regenerate && 0 <= sizeX && 0 <= sizeY) ==>
      Written(Regens(views, regenerate, sizeX, sizeY, regen)) == Written(views)
    ensures regenerate && 0 <= sizeX && 0 <= sizeY ==> forall k :: 0 <= k < |views| ==>
      Written(Regens(views, regenerate, sizeX, sizeY, regen))[k] == CreatedAtRead(Placed(views[k], sizeX, sizeY, regen(k)))
    ensures FixedOf(Written(Regens(views, regenerate, sizeX, sizeY, regen))) == FixedOf(views)
  {
    var w := Written(Regens(views, regenerate, sizeX, sizeY, regen));
    forall k | 0 <= k < |views|
      ensures w[k] == CreatedAtRead(Regenerated(views[k], regenerate, sizeX, sizeY, regen(k)))
    {
    }
  }

  /** The tag loop changes nothing of a tag but its position, its target and its dirty
      list, and leaves it at the origin. */
  lemma ResetsKeep(views: seq<StationView>, sizeX: int, sizeY: int, radius: int, offset: nat -> (nat, nat))
    requires views != [] ==> 0 <= radius
    ensures forall k :: 0 <= k < |views| ==>
      Written(Resets(views, sizeX, sizeY, radius, offset))[k].(position := views[k].position,
                                                                targetPoint := views[k].targetPoint,
                                                                updatedFields := views[k].updatedFields) == views[k]
    ensures forall k :: 0 <= k < |views| ==> Written(Resets(views, sizeX, sizeY, radius, offset))[k].position == Origin
    ensures FixedOf(Written(Resets(views, sizeX, sizeY, radius, offset))) == FixedOf(views)
  {
    var w := Written(Resets(views, sizeX, sizeY, radius, offset));
    forall k | 0 <= k < |views|
      ensures w[k] == CreatedAtRead(Reset(views[k], sizeX, sizeY, radius, offset(k)))
    {
    }
  }

  /** The stored columns of a station other than its coordinates: the columns that
      neither reset loop touches. */
  function FixedColumns(v: StationView): Row {
    RowOf(v).(positionX := 0.0, positionY := 0.0, targetX := 0.0, targetY := 0.0)
  }

  /** The fixed columns of a list of views, in order. */
  function FixedOf(views: seq<StationView>): (r: seq<Row>)
    ensures |r| == |views| && forall k :: 0 <= k < |views| ==> r[k] == FixedColumns(views[k])
  {
    seq(|views|, k requires 0 <= k < |views| => FixedColumns(views[k]))
  }

  /** Lists of views that are written alike have the same fixed columns. */
  lemma UpdatesFixed(a: seq<StationView>, b: seq<StationView>)
    requires Updates(a) == Updates(b)
    ensures FixedOf(a) == FixedOf(b)
  {
    forall k | 0 <= k < |a| ensures FixedColumns(a[k]) == FixedColumns(b[k]) {
      assert Updates(a)[k] == Updates(b)[k];
    }
  }

  /** When `first` is how `mid` starts, and `last` has the fixed columns of `mid`, then
      `last` starts with the fixed columns of `first`. */
  lemma FixedPrefix(last: seq<StationView>, mid: seq<StationView>, first: seq<StationView>)
    requires FixedOf(last) == FixedOf(mid) && |first| <= |mid| && mid[..|first|] == first
    ensures |first| <= |last| && FixedOf(last)[..|first|] == FixedOf(first)
  {
    assert |last| == |mid|;
  }

  /** The stations with a role in a longer collection start with those of its prefix. */
  lemma RolePrefix(stations: seq<Station>, s0: seq<Station>, t: DeviceType)
    requires s0 <= stations
    ensures |WithRole(s0, t)| <= |WithRole(stations, t)|
    ensures ViewsOf(WithRole(stations, t))[..|WithRole(s0, t)|] == ViewsOf(WithRole(s0, t))
  {
    var rest := stations[|s0|..];
    assert stations == s0 + rest;
    WithRoleAppend(s0, rest, t);
    var n := |WithRole(s0, t)|;
    forall k | 0 <= k < n ensures ViewsOf(WithRole(stations, t))[k] == ViewsOf(WithRole(s0, t))[k] {
      assert WithRole(stations, t)[k] == WithRole(s0, t)[k];
    }
  }

  /** Stations written as `views` keep the rows and the positions of those views. */
  lemma WrittenRows(list: seq<Station>, views: seq<StationView>)
    requires |list| == |views| && ViewsOf(list) == Written(views)
    ensures forall k :: 0 <= k < |list| ==> RowOf(list[k].View()) == RowOf(views[k]) && list[k].position == views[k].position
  {
    forall k | 0 <= k < |list|
      ensures RowOf(list[k].View()) == RowOf(views[k]) && list[k].position == views[k].position
    {
      assert list[k].View() == ViewsOf(list)[k] == CreatedAtRead(views[k]);
    }
  }

  /** The third loop, `for anchor in anchors: [set_random_position]; update_station(anchor)`.
      With regeneration on and a negative plane size the first anchor raises before
      anything changes. Otherwise each anchor is written as regenerated, in order, and the
      row read leaves it with `"created_at"` no longer dirty; no other station changes. */
  method ResetAnchors(sim: SimulationService, storage: SqliteStorage, regenerate: bool, sizeX: int, sizeY: int,
                      regen: nat -> (nat, nat), ghost anchors: seq<Station>, ghost views: seq<StationView>)
    returns (outcome: Outcome)
    requires sim.Valid() && Distinct(sim.stations)
    requires anchors == sim.Anchors() && views == ViewsOf(anchors)
    modifies sim.stations, storage`log
    ensures sim.Valid()
    ensures outcome.Fail? <==> regenerate && |anchors| > 0 && (sizeX < 0 || sizeY < 0)
    ensures outcome.Fail? ==> outcome.error == ValueError(EmptyRangeMessage) && storage.log == old(storage.log)
    ensures outcome.Fail? ==> forall j :: 0 <= j < |sim.stations| ==> sim.stations[j].View() == old(sim.stations[j].View())
    ensures outcome == Pass ==> ViewsOf(anchors) == Written(Regens(views, regenerate, sizeX, sizeY, regen))
    ensures outcome == Pass ==> storage.log == old(storage.log) + Updates(Regens(views, regenerate, sizeX, sizeY, regen))
    ensures forall j :: 0 <= j < |sim.stations| && sim.stations[j].deviceType != Anchor ==>
      sim.stations[j].View() == old(sim.stations[j].View())
    ensures outcome == Pass ==> storage.log == old(storage.log) + Updates(ViewsOf(anchors))
    ensures forall j :: 0 <= j < |sim.stations| ==> sim.stations[j].deviceType == old(sim.stations[j].deviceType)
    ensures outcome == Pass && regenerate ==> forall j :: 0 <= j < |sim.stations| && sim.stations[j].deviceType == Anchor ==>
      InPlane(sim.stations[j].position, sizeX, sizeY)
    ensures !regenerate ==> forall j :: 0 <= j < |sim.stations| ==> sim.stations[j].position == old(sim.stations[j].position)
    ensures !regenerate ==> forall j :: 0 <= j < |sim.stations| ==> RowOf(sim.stations[j].View()) == old(RowOf(sim.stations[j].View()))
  {
    var list := sim.Anchors();
    if regenerate && |list| > 0 && (sizeX < 0 || sizeY < 0) {
      return Fail(ValueError(EmptyRangeMessage));
    }
    WithRoleMembers(sim.stations, Anchor);
    AnchorsReset(sim, storage, regenerate, sizeX, sizeY, regen, list, views);
    WrittenViews(list, Regens(views, regenerate, sizeX, sizeY, regen));
    if !regenerate {
      RegensKeep(views, regenerate, sizeX, sizeY, regen);
      WrittenRows(list, views);
    }
    forall j | 0 <= j < |sim.stations| && sim.stations[j] in list && !regenerate
      ensures sim.stations[j].position == old(sim.stations[j].position)
      ensures RowOf(sim.stations[j].View()) == old(RowOf(sim.stations[j].View()))
    {
      var k :| 0 <= k < |list| && list[k] == sim.stations[j];
    }
    return Pass;
  }

  /** The anchor loop when it does not raise, stated on the whole collection. */
  method AnchorsReset(sim: SimulationService, storage: SqliteStorage, regenerate: bool, sizeX: int, sizeY: int,
                      regen: nat -> (nat, nat), list: seq<Station>, ghost views: seq<StationView>)
    requires sim.Valid() && Distinct(sim.stations)
    requires list == sim.Anchors() && views == ViewsOf(list)
    requires regenerate && list != [] ==> 0 <= sizeX && 0 <= sizeY
    modifies sim.stations, storage`log
    ensures sim.Valid()
    ensures forall k :: 0 <= k < |list| ==> list[k].View() == CreatedAtRead(Regens(views, regenerate, sizeX, sizeY, regen)[k])
    ensures storage.log == old(storage.log) + Updates(Regens(views, regenerate, sizeX, sizeY, regen))
    ensures storage.log == old(storage.log) + Updates(ViewsOf(list))
    ensures forall j :: 0 <= j < |sim.stations| && sim.stations[j] !in list ==>
      sim.stations[j].View() == old(sim.stations[j].View())
    ensures forall j :: 0 <= j < |sim.stations| ==> sim.stations[j].deviceType == old(sim.stations[j].deviceType)
    ensures regenerate ==> forall j :: 0 <= j < |sim.stations| && sim.stations[j].deviceType == Anchor ==>
      InPlane(sim.stations[j].position, sizeX, sizeY)
    ensures !regenerate ==> forall k :: 0 <= k < |list| ==> list[k].position == views[k].position
  {
    WithRoleMembers(sim.stations, Anchor);
    WithRoleDistinct(sim.stations, Anchor);
    ghost var rs := Regens(views, regenerate, sizeX, sizeY, regen);
    assert forall s | s in list :: s in sim.stations;
    AnchorLoop(storage, list, regenerate, sizeX, sizeY, regen, views, rs, Updates(rs));
    forall s | s in sim.stations ensures s.Valid() {
      if s !in list {
        assert s.View() == old(s.View());
      }
    }
    forall j | 0 <= j < |sim.stations|
      ensures sim.stations[j].deviceType == old(sim.stations[j].deviceType)
      ensures regenerate && sim.stations[j].deviceType == Anchor ==> InPlane(sim.stations[j].position, sizeX, sizeY)
    {
      if sim.stations[j] in list {
        var k :| 0 <= k < |list| && list[k] == sim.stations[j];
      }
    }
  }

  /** The loop over the anchors once the plane size is known to be usable. */
  method AnchorLoop(storage: SqliteStorage, list: seq<Station>, regenerate: bool, sizeX: int, sizeY: int,
                    regen: nat -> (nat, nat), ghost views: seq<StationView>, ghost rs: seq<StationView>,
                    ghost ups: seq<StoreOp>)
    requires Distinct(list) && views == ViewsOf(list)
    requires forall s | s in list :: s.Valid()
    requires rs == Regens(views, regenerate, sizeX, sizeY, regen) && ups == Updates(rs)
    modifies (set s | s in list), storage`log
    ensures forall s | s in list :: s.Valid()
    ensures forall k :: 0 <= k < |list| ==> list[k].View() == CreatedAtRead(rs[k])
    ensures storage.log == old(storage.log) + ups
    ensures storage.log == old(storage.log) + Updates(ViewsOf(list))
    ensures forall k :: 0 <= k < |list| ==> list[k].deviceType == views[k].deviceType
    ensures regenerate && 0 <= sizeX && 0 <= sizeY ==> forall k :: 0 <= k < |list| ==> InPlane(list[k].position, sizeX, sizeY)
    ensures !regenerate ==> forall k :: 0 <= k < |list| ==> list[k].position == views[k].position
  {
    var i := 0;
    while i < |list|
      invariant 0 <= i <= |list|
      invariant forall s | s in list :: s.Valid()
      invariant forall k :: 0 <= k < |list| ==> list[k].View() == if k < i then CreatedAtRead(rs[k]) else views[k]
      invariant storage.log == old(storage.log) + ups[..i]
    {
      ResetAnchor(storage, list[i], list, i, regenerate, sizeX, sizeY, regen(i), views, rs, ups, old(storage.log));
      i := i + 1;
    }
    TakeAll(ups);
    SameRows(ViewsOf(list), rs);
    RegensShape(views, regenerate, sizeX, sizeY, regen);
  }

  /** One iteration of that loop. */
  method ResetAnchor(storage: SqliteStorage, a: Station, list: seq<Station>, i: nat, regenerate: bool,
                     sizeX: int, sizeY: int, p: (nat, nat), ghost views: seq<StationView>, ghost rs: seq<StationView>,
                     ghost ups: seq<StoreOp>, ghost l0: seq<StoreOp>)
    requires i < |list| == |views| == |rs| && Distinct(list) && a == list[i]
    requires forall s | s in list :: s.Valid()
    requires rs[i] == Regenerated(views[i], regenerate, sizeX, sizeY, p)
    requires forall k :: 0 <= k < |list| ==> list[k].View() == if k < i then CreatedAtRead(rs[k]) else views[k]
    requires ups == Updates(rs) && storage.log == l0 + ups[..i]
    modifies a`position, a`updatedFields, storage`log
    ensures forall s | s in list :: s.Valid()
    ensures forall k :: 0 <= k < |list| ==> list[k].View() == if k < i + 1 then CreatedAtRead(rs[k]) else views[k]
    ensures storage.log == l0 + ups[..i + 1]
  {
    if regenerate && 0 <= sizeX && 0 <= sizeY {
      a.SetRandomPosition(sizeX, sizeY, RandInt(0, sizeX, p.0), RandInt(0, sizeY, p.1));
    }
    storage.UpdateStation(a);
    UpdatesSnoc(rs, ups, i);
    forall k | 0 <= k < |list| ensures list[k].View() == if k < i + 1 then CreatedAtRead(rs[k]) else views[k] {
      if k != i {
        assert list[k] != a;
      }
    }
    forall s | s in list ensures s.Valid() {
      if s != a {
        assert s.View() == old(s.View());
      }
    }
  }

  /** The fourth loop's change to one tag before it is written: back to the origin, then a
      target drawn around the origin and clamped into the plane. */
  function Reset(v: StationView, sizeX: int, sizeY: int, radius: int, d: (nat, nat)): StationView
    requires 0 <= radius
  {
    var ox := RandInt(-radius, radius, d.0);
    var oy := RandInt(-radius, radius, d.1);
    v.(position := Origin,
       targetPoint := Point(Clamp(Origin.x + ox as real, sizeX as real), Clamp(Origin.y + oy as real, sizeY as real)),
       updatedFields := Mark(Mark(v.updatedFields, Position), TargetPoint))
  }

  function Resets(views: seq<StationView>, sizeX: int, sizeY: int, radius: int, offset: nat -> (nat, nat)): (r: seq<StationView>)
    requires views != [] ==> 0 <= radius
    ensures |r| == |views|
  {
    seq(|views|, k requires 0 <= k < |views| => Reset(views[k], sizeX, sizeY, radius, offset(k)))
  }

  /** A reset tag sits at the origin, its target lies in the plane within `radius` of the
      origin on each axis, and both the position and the target are pending. */
  lemma ResetShape(v: StationView, sizeX: int, sizeY: int, radius: int, d: (nat, nat))
    requires 0 <= radius
    ensures Reset(v, sizeX, sizeY, radius, d).position == Origin
    ensures 0 <= sizeX && 0 <= sizeY ==> InPlane(Reset(v, sizeX, sizeY, radius, d).targetPoint, sizeX, sizeY)
    ensures Reset(v, sizeX, sizeY, radius, d).targetPoint.x <= radius as real
    ensures Reset(v, sizeX, sizeY, radius, d).targetPoint.y <= radius as real
    ensures Position in Reset(v, sizeX, sizeY, radius, d).updatedFields
    ensures TargetPoint in Reset(v, sizeX, sizeY, radius, d).updatedFields
    ensures Reset(v, sizeX, sizeY, radius, d).(position := v.position, targetPoint := v.targetPoint,
                                               updatedFields := v.updatedFields) == v
  {
  }

  /** Every reset keeps the tag's role and brings it to the origin with a target in the plane. */
  lemma ResetsShape(views: seq<StationView>, sizeX: int, sizeY: int, radius: int, offset: nat -> (nat, nat))
    requires views != [] ==> 0 <= radius
    ensures forall k :: 0 <= k < |views| ==>
      && Resets(views, sizeX, sizeY, radius, offset)[k].deviceType == views[k].deviceType
      && Resets(views, sizeX, sizeY, radius, offset)[k].position == Origin
      && (0 <= sizeX && 0 <= sizeY ==> InPlane(Resets(views, sizeX, sizeY, radius, offset)[k].targetPoint, sizeX, sizeY))
  {
    forall k | 0 <= k < |views|
      ensures Resets(views, sizeX, sizeY, radius, offset)[k] == Reset(views[k], sizeX, sizeY, radius, offset(k))
      ensures Reset(views[k], sizeX, sizeY, radius, offset(k)).deviceType == views[k].deviceType
      ensures Reset(views[k], sizeX, sizeY, radius, offset(k)).position == Origin
      ensures 0 <= sizeX && 0 <= sizeY ==> InPlane(Reset(views[k], sizeX, sizeY, radius, offset(k)).targetPoint, sizeX, sizeY)
    {
      ResetShape(views[k], sizeX, sizeY, radius, offset(k));
    }
  }

  /** The fourth loop, `for tag in tags: tag.position = origin; set_random_target_point;
      update_station(tag)`. With a negative offset radius the first tag is moved to the
      origin and then raises, before anything is written. Otherwise each tag is written as
      reset, in order, and the row read leaves it with `"created_at"` no longer dirty; no
      other station changes. */
  method ResetTags(sim: SimulationService, storage: SqliteStorage, sizeX: int, sizeY: int, radius: int,
                   offset: nat -> (nat, nat), ghost tags: seq<Station>, ghost views: seq<StationView>)
    returns (outcome: Outcome)
    requires sim.Valid() && Distinct(sim.stations)
    requires tags == sim.Tags() && views == ViewsOf(tags)
    modifies sim.stations, storage`log
    ensures sim.Valid()
    ensures outcome.Fail? <==> |tags| > 0 && radius < 0
    ensures outcome.Fail? ==> outcome.error == ValueError(EmptyRangeMessage) && storage.log == old(storage.log)
    ensures outcome.Fail? ==>
      tags[0].View() == views[0].(position := Origin, updatedFields := Mark(views[0].updatedFields, Position))
    ensures outcome.Fail? ==> forall j :: 0 <= j < |sim.stations| && sim.stations[j] != tags[0] ==>
      sim.stations[j].View() == old(sim.stations[j].View())
    ensures outcome == Pass ==> ViewsOf(tags) == Written(Resets(views, sizeX, sizeY, radius, offset))
    ensures outcome == Pass ==> storage.log == old(storage.log) + Updates(Resets(views, sizeX, sizeY, radius, offset))
    ensures outcome == Pass ==> storage.log == old(storage.log) + Updates(ViewsOf(tags))
    ensures forall j :: 0 <= j < |sim.stations| ==> sim.stations[j].deviceType == old(sim.stations[j].deviceType)
    ensures forall j :: 0 <= j < |sim.stations| && sim.stations[j].deviceType != Tag ==>
      sim.stations[j].View() == old(sim.stations[j].View())
    ensures outcome == Pass ==> forall j :: 0 <= j < |sim.stations| && sim.stations[j].deviceType == Tag ==>
      sim.stations[j].position == Origin && (0 <= sizeX && 0 <= sizeY ==> InPlane(sim.stations[j].targetPoint, sizeX, sizeY))
  {
    var list := sim.Tags();
    WithRoleMembers(sim.stations, Tag);
    if |list| > 0 && radius < 0 {
      assert list[0] in sim.stations;
      MoveFirst(sim, list[0]);
      return Fail(ValueError(EmptyRangeMessage));
    }
    TagsReset(sim, storage, sizeX, sizeY, radius, offset, list, views);
    WrittenViews(list, Resets(views, sizeX, sizeY, radius, offset));
    return Pass;
  }

  /** The first tag's `tag.position = {"x": 0, "y": 0}`, just before the raise. */
  method MoveFirst(sim: SimulationService, first: Station)
    requires sim.Valid() && first in sim.stations
    modifies first`position, first`updatedFields
    ensures sim.Valid()
    ensures first.View() == old(first.View()).(position := Origin, updatedFields := Mark(old(first.updatedFields), Position))
  {
    first.SetPosition(Origin);
    forall s | s in sim.stations ensures s.Valid() {
      if s != first {
        assert s.View() == old(s.View());
      }
    }
  }

  /** The tag loop when it does not raise, stated on the whole collection. */
  method TagsReset(sim: SimulationService, storage: SqliteStorage, sizeX: int, sizeY: int, radius: int,
                   offset: nat -> (nat, nat), list: seq<Station>, ghost views: seq<StationView>)
    requires sim.Valid() && Distinct(sim.stations)
    requires list == sim.Tags() && views == ViewsOf(list) && (list != [] ==> 0 <= radius)
    modifies sim.stations, storage`log
    ensures sim.Valid()
    ensures forall k :: 0 <= k < |list| ==> list[k].View() == CreatedAtRead(Resets(views, sizeX, sizeY, radius, offset)[k])
    ensures storage.log == old(storage.log) + Updates(Resets(views, sizeX, sizeY, radius, offset))
    ensures storage.log == old(storage.log) + Updates(ViewsOf(list))
    ensures forall j :: 0 <= j < |sim.stations| ==> sim.stations[j].deviceType == old(sim.stations[j].deviceType)
    ensures forall j :: 0 <= j < |sim.stations| && sim.stations[j].deviceType != Tag ==>
      sim.stations[j].View() == old(sim.stations[j].View())
    ensures forall j :: 0 <= j < |sim.stations| && sim.stations[j].deviceType == Tag ==>
      sim.stations[j].position == Origin && (0 <= sizeX && 0 <= sizeY ==> InPlane(sim.stations[j].targetPoint, sizeX, sizeY))
  {
    WithRoleMembers(sim.stations, Tag);
    WithRoleDistinct(sim.stations, Tag);
    ghost var rs := Resets(views, sizeX, sizeY, radius, offset);
    assert forall s | s in list :: s in sim.stations;
    TagLoop(storage, list, sizeX, sizeY, radius, offset, views, rs, Updates(rs));
    forall s | s in sim.stations ensures s.Valid() {
      if s !in list {
        assert s.View() == old(s.View());
      }
    }
    forall j | 0 <= j < |sim.stations|
      ensures sim.stations[j].deviceType == old(sim.stations[j].deviceType)
      ensures sim.stations[j].deviceType == Tag ==>
        sim.stations[j].position == Origin && (0 <= sizeX && 0 <= sizeY ==> InPlane(sim.stations[j].targetPoint, sizeX, sizeY))
    {
      if sim.stations[j] in list {
        var k :| 0 <= k < |list| && list[k] == sim.stations[j];
      }
    }
  }

  /** The loop over the tags once the offset radius is known to be usable. */
  method TagLoop(storage: SqliteStorage, list: seq<Station>, sizeX: int, sizeY: int, radius: int,
                 offset: nat -> (nat, nat), ghost views: seq<StationView>, ghost rs: seq<StationView>,
                 ghost ups: seq<StoreOp>)
    requires Distinct(list) && views == ViewsOf(list)
    requires list != [] ==> 0 <= radius
    requires forall s | s in list :: s.Valid()
    requires rs == Resets(views, sizeX, sizeY, radius, offset) && ups == Updates(rs)
    modifies (set s | s in list), storage`log
    ensures forall s | s in list :: s.Valid()
    ensures forall k :: 0 <= k < |list| ==> list[k].View() == CreatedAtRead(rs[k])
    ensures storage.log == old(storage.log) + ups
    ensures storage.log == old(storage.log) + Updates(ViewsOf(list))
    ensures forall k :: 0 <= k < |list| ==> list[k].deviceType == views[k].deviceType
    ensures forall k :: 0 <= k < |list| ==>
      list[k].position == Origin && (0 <= sizeX && 0 <= sizeY ==> InPlane(list[k].targetPoint, sizeX, sizeY))
  {
    var i := 0;
    while i < |list|
      invariant 0 <= i <= |list|
      invariant forall s | s in list :: s.Valid()
      invariant forall k :: 0 <= k < |list| ==> list[k].View() == if k < i then CreatedAtRead(rs[k]) else views[k]
      invariant storage.log == old(storage.log) + ups[..i]
    {
      ResetTag(storage, list[i], list, i, sizeX, sizeY, radius, offset(i), views, rs, ups, old(storage.log));
      i := i + 1;
    }
    TakeAll(ups);
    SameRows(ViewsOf(list), rs);
    ResetsShape(views, sizeX, sizeY, radius, offset);
  }

  /** One iteration of that loop. */
  method ResetTag(storage: SqliteStorage, t: Station, list: seq<Station>, i: nat, sizeX: int, sizeY: int,
                  radius: int, d: (nat, nat), ghost views: seq<StationView>, ghost rs: seq<StationView>,
                  ghost ups: seq<StoreOp>, ghost l0: seq<StoreOp>)
    requires i < |list| == |views| == |rs| && Distinct(list) && t == list[i] && 0 <= radius
    requires forall s | s in list :: s.Valid()
    requires rs[i] == Reset(views[i], sizeX, sizeY, radius, d)
    requires forall k :: 0 <= k < |list| ==> list[k].View() == if k < i then CreatedAtRead(rs[k]) else views[k]
    requires ups == Updates(rs) && storage.log == l0 + ups[..i]
    modifies t`position, t`targetPoint, t`updatedFields, storage`log
    ensures forall s | s in list :: s.Valid()
    ensures forall k :: 0 <= k < |list| ==> list[k].View() == if k < i + 1 then CreatedAtRead(rs[k]) else views[k]
    ensures storage.log == l0 + ups[..i + 1]
  {
    assert t.View() == views[i];
    ResetPoints(t, storage, sizeX, sizeY, radius, d, rs[i]);
    UpdatesSnoc(rs, ups, i);
    forall k | 0 <= k < |list| ensures list[k].View() == if k < i + 1 then CreatedAtRead(rs[k]) else views[k] {
      if k != i {
        assert list[k] != t;
      }
    }
    forall s | s in list ensures s.Valid() {
      if s != t {
        assert s.View() == old(s.View());
      }
    }
  }

  /** That iteration on the one tag it changes. */
  method ResetPoints(t: Station, storage: SqliteStorage, sizeX: int, sizeY: int, radius: int, d: (nat, nat),
                     ghost r: StationView)
    requires t.Valid() && 0 <= radius && r == Reset(t.View(), sizeX, sizeY, radius, d)
    modifies t`position, t`targetPoint, t`updatedFields, storage`log
    ensures t.Valid()
    ensures t.View() == CreatedAtRead(r)
    ensures storage.log == old(storage.log) + [UpdateRow(RowOf(r))]
  {
    t.SetPosition(Origin);
    t.SetRandomTargetPoint(sizeX, sizeY, radius, RandInt(-radius, radius, d.0), RandInt(-radius, radius, d.1));
    storage.UpdateStation(t);
  }

  // ------------------------------------------------------------ the refresh after creation

  /** The role filter on views, in collection order. */
  function RoleViews(views: seq<StationView>, t: DeviceType): (r: seq<StationView>)
    ensures |r| <= |views|
  {
    if views == [] then []
    else (if views[0].deviceType == t then [views[0]] else []) + RoleViews(views[1..], t)
  }

  lemma {:induction false} RoleViewsMembers(views: seq<StationView>, t: DeviceType)
    ensures forall v :: v in RoleViews(views, t) <==> v in views && v.deviceType == t
    decreases |views|
  {
    if views != [] {
      RoleViewsMembers(views[1..], t);
      assert views == [views[0]] + views[1..];
    }
  }

  /** Taking the views of the stations with a role is filtering their views by role. */
  lemma {:induction false} RoleViewsOf(stations: seq<Station>, t: DeviceType)
    ensures ViewsOf(WithRole(stations, t)) == RoleViews(ViewsOf(stations), t)
    decreases |stations|
  {
    if stations != [] {
      var rest := stations[1..];
      RoleViewsOf(rest, t);
      assert ViewsOf(stations)[1..] == ViewsOf(rest);
      var head := if stations[0].deviceType == t then [stations[0]] else [];
      assert WithRole(stations, t) == head + WithRole(rest, t);
      assert ViewsOf(head + WithRole(rest, t)) == ViewsOf(head) + ViewsOf(WithRole(rest, t));
    }
  }

  /** `update_device_knowledge` on views: every station learns all stations with another MAC. */
  function Peered(views: seq<StationView>, stations: seq<Station>): (r: seq<StationView>)
    ensures |r| == |views|
  {
    seq(|views|, j requires 0 <= j < |views| => WithPeers(views[j], Others(stations, views[j].mac)))
  }

  /** `update_tag_distances` on a view, against the anchors' views. */
  function RangedView(v: StationView, sqrt: real -> real, factor: real, anchors: seq<StationView>): StationView {
    TagDistances(v, DistanceUpdates(sqrt, factor, v.position, anchors))
  }

  /** The ranging loop on views: every tag's table is given the distances to `anchors`. */
  function Ranged(views: seq<StationView>, sqrt: real -> real, factor: real, anchors: seq<StationView>): (r: seq<StationView>)
    ensures |r| == |views|
  {
    seq(|views|, j requires 0 <= j < |views| => RangedView(views[j], sqrt, factor, anchors))
  }

  /** The collection after the refresh, before the save reads its rows. */
  function Refreshed(views: seq<StationView>, stations: seq<Station>, sqrt: real -> real, factor: real): (r: seq<StationView>)
    ensures |r| == |views|
  {
    var peered := Peered(views, stations);
    Ranged(peered, sqrt, factor, RoleViews(peered, Anchor))
  }

  /** After the refresh every tag holds a distance record for every anchor of the collection. */
  lemma RefreshCovers(views: seq<StationView>, stations: seq<Station>, sqrt: real -> real, factor: real)
    ensures var r := Refreshed(views, stations, sqrt, factor);
      forall j, k :: 0 <= j < |r| && 0 <= k < |r| && r[j].deviceType == Tag && r[k].deviceType == Anchor ==>
        r[k].mac in Keys(r[j].rangingData)
  {
    var peered := Peered(views, stations);
    var anchors := RoleViews(peered, Anchor);
    var r := Refreshed(views, stations, sqrt, factor);
    RoleViewsMembers(peered, Anchor);
    forall j, k | 0 <= j < |r| && 0 <= k < |r| && r[j].deviceType == Tag && r[k].deviceType == Anchor
      ensures r[k].mac in Keys(r[j].rangingData)
    {
      RangedViewKeeps(peered[j], sqrt, factor, anchors);
      RangedViewKeeps(peered[k], sqrt, factor, anchors);
      assert peered[k] in anchors;
      var a :| 0 <= a < |anchors| && anchors[a] == peered[k];
      RangedViewKeys(peered[j], sqrt, factor, anchors);
      assert anchors[a].mac in MacSet(anchors);
    }
  }

  /** The refresh gives every station all stations with another MAC as its peers, with
      `"cluster_stations"` pending, and changes nothing else about a station but its
      ranging table and its dirty list. */
  lemma RefreshShape(views: seq<StationView>, stations: seq<Station>, sqrt: real -> real, factor: real)
    ensures var r := Refreshed(views, stations, sqrt, factor);
      forall j :: 0 <= j < |r| ==> r[j].clusterMacs == MacsOf(Others(stations, views[j].mac))
    ensures var r := Refreshed(views, stations, sqrt, factor);
      forall j :: 0 <= j < |r| ==> ClusterStations in r[j].updatedFields
    ensures var r := Refreshed(views, stations, sqrt, factor);
      forall j :: 0 <= j < |r| ==>
        r[j].(rangingData := views[j].rangingData, updatedFields := views[j].updatedFields, clusterMacs := views[j].clusterMacs) == views[j]
  {
    var peered := Peered(views, stations);
    var anchors := RoleViews(peered, Anchor);
    forall j | 0 <= j < |views| ensures ClusterStations in Refreshed(views, stations, sqrt, factor)[j].updatedFields {
      RangedViewKeeps(peered[j], sqrt, factor, anchors);
    }
  }

  /** Ranging changes only the table and the dirty list, and keeps pending what was pending. */
  lemma RangedViewKeeps(v: StationView, sqrt: real -> real, factor: real, anchors: seq<StationView>)
    ensures RangedView(v, sqrt, factor, anchors).(rangingData := v.rangingData, updatedFields := v.updatedFields) == v
    ensures forall f :: f in v.updatedFields ==> f in RangedView(v, sqrt, factor, anchors).updatedFields
  {
  }

  /** Ranging a tag adds exactly the anchors' MACs to the keys of its table. */
  lemma RangedViewKeys(v: StationView, sqrt: real -> real, factor: real, anchors: seq<StationView>)
    requires v.deviceType == Tag
    ensures Keys(RangedView(v, sqrt, factor, anchors).rangingData) == Keys(v.rangingData) + MacSet(anchors)
  {
    KeysOfUpdates(sqrt, factor, v.position, anchors);
  }

  /** The refresh's loop `for tag in tags: update_tag_distances(tag)`. */
  method RangeAll(sim: SimulationService, ghost views: seq<StationView>, ghost anchors: seq<StationView>)
    requires sim.Valid() && Distinct(sim.stations)
    requires views == ViewsOf(sim.stations) && anchors == ViewsOf(sim.Anchors())
    modifies sim.stations
    ensures sim.Valid()
    ensures forall j :: 0 <= j < |sim.stations| ==> sim.stations[j].clusterStations == old(sim.stations[j].clusterStations)
    ensures ViewsOf(sim.stations) == Ranged(views, sim.sqrt, sim.distanceScalingFactor, anchors)
  {
    var list := sim.Tags();
    WithRoleMembers(sim.stations, Tag);
    WithRoleDistinct(sim.stations, Tag);
    ghost var lviews := ViewsOf(list);
    RangeLoop(sim, list, lviews, anchors);
    forall j | 0 <= j < |sim.stations|
      ensures sim.stations[j].View() == Ranged(views, sim.sqrt, sim.distanceScalingFactor, anchors)[j]
    {
      var s := sim.stations[j];
      if s in list {
        var k :| 0 <= k < |list| && list[k] == s;
        assert lviews[k] == views[j];
      } else {
        assert s.View() == old(s.View());
      }
    }
  }

  method RangeLoop(sim: SimulationService, list: seq<Station>, ghost lviews: seq<StationView>, ghost anchors: seq<StationView>)
    requires sim.Valid() && Distinct(list) && lviews == ViewsOf(list) && ViewsOf(sim.Anchors()) == anchors
    requires forall s | s in list :: s in sim.stations && s.IsTag()
    modifies (set s | s in list)
    ensures sim.Valid()
    ensures forall k :: 0 <= k < |list| ==> list[k].clusterStations == old(list[k].clusterStations)
    ensures forall k :: 0 <= k < |list| ==> list[k].View() == RangedView(lviews[k], sim.sqrt, sim.distanceScalingFactor, anchors)
  {
    var i := 0;
    while i < |list|
      invariant 0 <= i <= |list|
      invariant sim.Valid() && ViewsOf(sim.Anchors()) == anchors
      invariant forall s | s in list :: s in sim.stations && s.IsTag()
      invariant forall k :: 0 <= k < |list| ==> list[k].clusterStations == old(list[k].clusterStations)
      invariant forall k :: 0 <= k < |list| ==>
        list[k].View() == if k < i then RangedView(lviews[k], sim.sqrt, sim.distanceScalingFactor, anchors) else lviews[k]
    {
      RangeNext(sim, list[i], list, i, lviews, anchors);
      i := i + 1;
    }
  }

  /** One iteration of that loop. */
  method RangeNext(sim: SimulationService, t: Station, list: seq<Station>, i: nat,
                   ghost lviews: seq<StationView>, ghost anchors: seq<StationView>)
    requires i < |list| == |lviews| && Distinct(list) && t == list[i]
    requires sim.Valid() && ViewsOf(sim.Anchors()) == anchors
    requires forall s | s in list :: s in sim.stations && s.IsTag()
    requires forall k :: 0 <= k < |list| ==>
      list[k].View() == if k < i then RangedView(lviews[k], sim.sqrt, sim.distanceScalingFactor, anchors) else lviews[k]
    modifies t`rangingData, t`updatedFields
    ensures sim.Valid() && ViewsOf(sim.Anchors()) == anchors
    ensures forall s | s in list :: s in sim.stations && s.IsTag()
    ensures forall k :: 0 <= k < |list| ==>
      list[k].View() == if k < i + 1 then RangedView(lviews[k], sim.sqrt, sim.distanceScalingFactor, anchors) else lviews[k]
  {
    assert t.View() == lviews[i];
    RangeTag(sim, t, anchors);
    forall k | 0 <= k < |list| ensures list[k].View() ==
      if k < i + 1 then RangedView(lviews[k], sim.sqrt, sim.distanceScalingFactor, anchors) else lviews[k]
    {
      if k != i {
        assert list[k] != t;
      }
    }
  }

  /** Lines 71-79: peers for every station, distances for every tag, then one save of the
      whole collection, whose row read leaves every station with `"created_at"` no longer
      dirty. */
  method Refresh(sim: SimulationService, storage: SqliteStorage, ghost before: seq<StationView>)
    returns (ghost refreshed: seq<StationView>)
    requires sim.Valid() && Distinct(sim.stations) && before == ViewsOf(sim.stations)
    modifies sim.stations, storage`log
    ensures sim.Valid()
    ensures refreshed == Refreshed(before, sim.stations, sim.sqrt, sim.distanceScalingFactor)
    ensures forall j :: 0 <= j < |sim.stations| ==>
      sim.stations[j].clusterStations == Others(sim.stations, sim.stations[j].macAddress)
    ensures forall j :: 0 <= j < |sim.stations| ==> sim.stations[j].View() == CreatedAtRead(refreshed[j])
    ensures storage.log == old(storage.log) + [SaveRows(RowsOf(refreshed))]
  {
    refreshed := PeerAndRange(sim, before);
    SaveAll(sim, storage, refreshed);
  }

  /** The refresh up to the save. */
  method PeerAndRange(sim: SimulationService, ghost before: seq<StationView>) returns (ghost refreshed: seq<StationView>)
    requires sim.Valid() && Distinct(sim.stations) && before == ViewsOf(sim.stations)
    modifies sim.stations
    ensures sim.Valid()
    ensures refreshed == Refreshed(before, sim.stations, sim.sqrt, sim.distanceScalingFactor)
    ensures forall j :: 0 <= j < |sim.stations| ==>
      sim.stations[j].clusterStations == Others(sim.stations, sim.stations[j].macAddress)
    ensures ViewsOf(sim.stations) == refreshed
  {
    Peer(sim, before);
    ghost var peered := ViewsOf(sim.stations);
    RoleViewsOf(sim.stations, Anchor);
    ghost var anchors := ViewsOf(sim.Anchors());
    assert anchors == RoleViews(peered, Anchor);
    RangeAll(sim, peered, anchors);
    refreshed := Refreshed(before, sim.stations, sim.sqrt, sim.distanceScalingFactor);
  }

  /** `update_device_knowledge`, stated on views. */
  method Peer(sim: SimulationService, ghost before: seq<StationView>)
    requires sim.Valid() && before == ViewsOf(sim.stations)
    modifies sim.stations
    ensures sim.Valid()
    ensures forall j :: 0 <= j < |sim.stations| ==>
      sim.stations[j].clusterStations == Others(sim.stations, sim.stations[j].macAddress)
    ensures ViewsOf(sim.stations) == Peered(before, sim.stations)
  {
    sim.UpdateDeviceKnowledge();
  }

  /** `save_stations(stations)` with the peers left as they are. */
  method SaveAll(sim: SimulationService, storage: SqliteStorage, ghost views: seq<StationView>)
    requires sim.Valid() && views == ViewsOf(sim.stations)
    requires forall j :: 0 <= j < |sim.stations| ==>
      sim.stations[j].clusterStations == Others(sim.stations, sim.stations[j].macAddress)
    modifies sim.stations, storage`log
    ensures sim.Valid()
    ensures forall j :: 0 <= j < |sim.stations| ==>
      sim.stations[j].clusterStations == Others(sim.stations, sim.stations[j].macAddress)
    ensures forall j :: 0 <= j < |sim.stations| ==> sim.stations[j].View() == CreatedAtRead(views[j])
    ensures storage.log == old(storage.log) + [SaveRows(RowsOf(views))]
  {
    storage.SaveStations(sim.stations);
    forall s | s in sim.stations ensures s.Valid() {
    }
  }

  // ------------------------------------------------------------ prepare_stations as a whole

  /** The configuration `prepare_stations` reads: the plane, the tags' target radius and
      the cluster new stations join. */
  datatype Settings = Settings(sizeX: int, sizeY: int, radius: int, cluster: string)

  /** The random draws of one `prepare_stations` call, by loop and iteration. */
  datatype PrepareDraws = PrepareDraws(
    anchorDraws: nat -> ConstructionDraws, place: nat -> (nat, nat),
    tagDraws: nat -> ConstructionDraws, regen: nat -> (nat, nat), offset: nat -> (nat, nat))

  /** When `prepare_stations` raises, given how many anchors and tags there are after the
      load: creating an anchor, or regenerating the position of any anchor, on a
      negative plane size; resetting any tag with a negative radius. */
  predicate PrepareFails(anchors: nat, tags: nat, numAnchors: int, numTags: int, regenerate: bool, cfg: Settings) {
    var na := Needed(numAnchors, anchors);
    || ((cfg.sizeX < 0 || cfg.sizeY < 0) && (na > 0 || (regenerate && anchors + na > 0)))
    || (cfg.radius < 0 && tags + Needed(numTags, tags) > 0)
  }

  /** The collection already has the anchors and the tags asked for, so none is created. */
  ghost predicate NoneNeeded(stations: seq<Station>, numAnchors: int, numTags: int)
    reads stations
  {
    numAnchors <= |WithRole(stations, Anchor)| && numTags <= |WithRole(stations, Tag)|
  }

  /** Every tag of the collection holds a distance record for every anchor of it. */
  ghost predicate Covered(stations: seq<Station>)
    reads stations
  {
    forall j, k :: 0 <= j < |stations| && 0 <= k < |stations| && stations[j].deviceType == Tag && stations[k].deviceType == Anchor ==>
      stations[k].macAddress in Keys(stations[j].rangingData)
  }

  /** Every station of the collection has all the stations with another MAC as its peers. */
  ghost predicate KnowsOthers(stations: seq<Station>)
    reads stations
  {
    forall j :: 0 <= j < |stations| ==> stations[j].clusterStations == Others(stations, stations[j].macAddress)
  }

  /** Two lists of views that give the same rows are written alike. */
  lemma SameRows(a: seq<StationView>, b: seq<StationView>)
    requires |a| == |b| && forall k :: 0 <= k < |a| ==> RowOf(a[k]) == RowOf(b[k])
    ensures Updates(a) == Updates(b) && RowsOf(a) == RowsOf(b)
  {
  }

  /** `prepare_stations(simulation_service, storage, num_anchors, num_tags,
      regenerate_positions)`, with the two loaded lists given. After the load, enough
      anchors and tags exist; every tag sits at the origin with a target in the plane;
      with regeneration every anchor lies in the plane; every station has been written
      once, anchors first, as it now is; and when anything was created every tag holds
      a distance for every anchor, every station knows the others, and the whole
      collection has been saved once more. */
  method Prepare(sim: SimulationService, storage: SqliteStorage, fetchedTags: seq<Station>, fetchedAnchors: seq<Station>,
                 numAnchors: int, numTags: int, regenerate: bool, cfg: Settings, d: PrepareDraws)
    returns (outcome: Outcome)
    requires sim.Valid() && forall s | s in fetchedTags + fetchedAnchors :: s.Valid()
    requires Distinct(sim.stations + fetchedTags + fetchedAnchors)
    modifies sim`stations, storage`log, (set s | s in sim.stations + fetchedTags + fetchedAnchors)
    ensures sim.Valid()
    ensures old(sim.stations + fetchedTags + fetchedAnchors) <= sim.stations
    ensures old(storage.log) <= storage.log
    ensures outcome.Fail? <==> old(PrepareFails(|WithRole(sim.stations + fetchedTags + fetchedAnchors, Anchor)|,
                                               |WithRole(sim.stations + fetchedTags + fetchedAnchors, Tag)|,
                                               numAnchors, numTags, regenerate, cfg))
    ensures outcome.Fail? ==> outcome.error == ValueError(EmptyRangeMessage)
    ensures outcome == Pass ==>
      var a0 := old(|WithRole(sim.stations + fetchedTags + fetchedAnchors, Anchor)|);
      |sim.Anchors()| == a0 + Needed(numAnchors, a0)
    ensures outcome == Pass ==>
      var t0 := old(|WithRole(sim.stations + fetchedTags + fetchedAnchors, Tag)|);
      |sim.Tags()| == t0 + Needed(numTags, t0)
    ensures outcome == Pass ==> forall j :: 0 <= j < |sim.stations| && sim.stations[j].deviceType == Tag ==>
      sim.stations[j].position == Origin &&
      (0 <= cfg.sizeX && 0 <= cfg.sizeY ==> InPlane(sim.stations[j].targetPoint, cfg.sizeX, cfg.sizeY))
    ensures outcome == Pass && regenerate ==> forall j :: 0 <= j < |sim.stations| && sim.stations[j].deviceType == Anchor ==>
      InPlane(sim.stations[j].position, cfg.sizeX, cfg.sizeY)
    ensures outcome == Pass ==>
      var created := old(numAnchors > |WithRole(sim.stations + fetchedTags + fetchedAnchors, Anchor)| ||
                         numTags > |WithRole(sim.stations + fetchedTags + fetchedAnchors, Tag)|);
      storage.log == old(storage.log) + Updates(ViewsOf(sim.Anchors())) + Updates(ViewsOf(sim.Tags()))
                     + (if created then [SaveRows(RowsOf(ViewsOf(sim.stations)))] else [])
    ensures outcome == Pass && old(numAnchors > |WithRole(sim.stations + fetchedTags + fetchedAnchors, Anchor)| ||
                                   numTags > |WithRole(sim.stations + fetchedTags + fetchedAnchors, Tag)|) ==>
      Covered(sim.stations) && KnowsOthers(sim.stations)
    ensures outcome == Pass ==>
      forall j :: old(|sim.stations + fetchedTags + fetchedAnchors|) <= j < |sim.stations| && sim.stations[j].deviceType == Anchor ==>
        InPlane(sim.stations[j].position, cfg.sizeX, cfg.sizeY)
    ensures old(NoneNeeded(sim.stations + fetchedTags + fetchedAnchors, numAnchors, numTags)) ==>
      sim.stations == old(sim.stations + fetchedTags + fetchedAnchors)
    ensures outcome == Pass && old(NoneNeeded(sim.stations + fetchedTags + fetchedAnchors, numAnchors, numTags)) ==>
      ViewsOf(sim.Anchors()) == Written(Regens(old(ViewsOf(WithRole(sim.stations + fetchedTags + fetchedAnchors, Anchor))),
                                               regenerate, cfg.sizeX, cfg.sizeY, d.regen))
    ensures outcome == Pass && old(NoneNeeded(sim.stations + fetchedTags + fetchedAnchors, numAnchors, numTags)) ==>
      ViewsOf(sim.Tags()) == Written(Resets(old(ViewsOf(WithRole(sim.stations + fetchedTags + fetchedAnchors, Tag))),
                                            cfg.sizeX, cfg.sizeY, cfg.radius, d.offset))
    ensures old(NoneNeeded(sim.stations + fetchedTags + fetchedAnchors, numAnchors, numTags)) ==>
      forall j :: 0 <= j < |sim.stations| && sim.stations[j].deviceType == Unassigned ==>
        sim.stations[j].View() == old((sim.stations + fetchedTags + fetchedAnchors)[j].View())
    ensures !regenerate ==>
      forall j :: 0 <= j < old(|sim.stations + fetchedTags + fetchedAnchors|) && sim.stations[j].deviceType == Anchor ==>
        sim.stations[j].position == old((sim.stations + fetchedTags + fetchedAnchors)[j].position) &&
        RowOf(sim.stations[j].View()) == old(RowOf((sim.stations + fetchedTags + fetchedAnchors)[j].View()))
    ensures outcome == Pass ==>
      var a0 := old(ViewsOf(WithRole(sim.stations + fetchedTags + fetchedAnchors, Anchor)));
      |a0| <= |sim.Anchors()| && FixedOf(ViewsOf(sim.Anchors()))[..|a0|] == FixedOf(a0)
    ensures outcome == Pass ==>
      var t0 := old(ViewsOf(WithRole(sim.stations + fetchedTags + fetchedAnchors, Tag)));
      |t0| <= |sim.Tags()| && FixedOf(ViewsOf(sim.Tags()))[..|t0|] == FixedOf(t0)
  {
    ghost var all := sim.stations + fetchedTags + fetchedAnchors;
    ghost var views := ViewsOf(all);
    ghost var anchorViews := ViewsOf(WithRole(all, Anchor));
    ghost var tagViews := ViewsOf(WithRole(all, Tag));
    sim.SetStations(sim.stations + (fetchedTags + fetchedAnchors));
    assert sim.stations == all;
    assert ViewsOf(sim.stations) == views;
    assert ViewsOf(sim.Anchors()) == anchorViews && ViewsOf(sim.Tags()) == tagViews;
    outcome := Loaded(sim, storage, numAnchors, numTags, regenerate, cfg, d);
  }

  /** `prepare_stations` from the counts on: the same promises, stated on the collection
      as loaded. */
  method Loaded(sim: SimulationService, storage: SqliteStorage, numAnchors: int, numTags: int, regenerate: bool,
                cfg: Settings, d: PrepareDraws) returns (outcome: Outcome)
    requires sim.Valid() && Distinct(sim.stations)
    modifies sim`stations, sim.stations, storage`log
    ensures sim.Valid()
    ensures old(sim.stations) <= sim.stations
    ensures old(storage.log) <= storage.log
    ensures outcome.Fail? <==> old(PrepareFails(|sim.Anchors()|, |sim.Tags()|, numAnchors, numTags, regenerate, cfg))
    ensures outcome.Fail? ==> outcome.error == ValueError(EmptyRangeMessage)
    ensures outcome == Pass ==> |sim.Anchors()| == old(|sim.Anchors()|) + Needed(numAnchors, old(|sim.Anchors()|))
    ensures outcome == Pass ==> |sim.Tags()| == old(|sim.Tags()|) + Needed(numTags, old(|sim.Tags()|))
    ensures outcome == Pass ==> forall j :: 0 <= j < |sim.stations| && sim.stations[j].deviceType == Tag ==>
      sim.stations[j].position == Origin &&
      (0 <= cfg.sizeX && 0 <= cfg.sizeY ==> InPlane(sim.stations[j].targetPoint, cfg.sizeX, cfg.sizeY))
    ensures outcome == Pass && regenerate ==> forall j :: 0 <= j < |sim.stations| && sim.stations[j].deviceType == Anchor ==>
      InPlane(sim.stations[j].position, cfg.sizeX, cfg.sizeY)
    ensures outcome == Pass ==>
      var created := old(numAnchors > |sim.Anchors()| || numTags > |sim.Tags()|);
      storage.log == old(storage.log) + Updates(ViewsOf(sim.Anchors())) + Updates(ViewsOf(sim.Tags()))
                     + (if created then [SaveRows(RowsOf(ViewsOf(sim.stations)))] else [])
    ensures outcome == Pass && old(numAnchors > |sim.Anchors()| || numTags > |sim.Tags()|) ==>
      Covered(sim.stations) && KnowsOthers(sim.stations)
    ensures outcome == Pass ==> forall j :: old(|sim.stations|) <= j < |sim.stations| && sim.stations[j].deviceType == Anchor ==>
      InPlane(sim.stations[j].position, cfg.sizeX, cfg.sizeY)
    ensures old(NoneNeeded(sim.stations, numAnchors, numTags)) ==> sim.stations == old(sim.stations)
    ensures outcome == Pass && old(NoneNeeded(sim.stations, numAnchors, numTags)) ==>
      ViewsOf(sim.Anchors()) == Written(Regens(old(ViewsOf(sim.Anchors())), regenerate, cfg.sizeX, cfg.sizeY, d.regen))
    ensures outcome == Pass && old(NoneNeeded(sim.stations, numAnchors, numTags)) ==>
      ViewsOf(sim.Tags()) == Written(Resets(old(ViewsOf(sim.Tags())), cfg.sizeX, cfg.sizeY, cfg.radius, d.offset))
    ensures old(NoneNeeded(sim.stations, numAnchors, numTags)) ==>
      forall j :: 0 <= j < |sim.stations| && sim.stations[j].deviceType == Unassigned ==>
        sim.stations[j].View() == old(sim.stations[j].View())
    ensures !regenerate ==> forall j :: 0 <= j < old(|sim.stations|) && sim.stations[j].deviceType == Anchor ==>
      sim.stations[j].position == old(sim.stations[j].position) &&
      RowOf(sim.stations[j].View()) == old(RowOf(sim.stations[j].View()))
    ensures outcome == Pass ==>
      old(|sim.Anchors()|) <= |sim.Anchors()| &&
      FixedOf(ViewsOf(sim.Anchors()))[..old(|sim.Anchors()|)] == old(FixedOf(ViewsOf(sim.Anchors())))
    ensures outcome == Pass ==>
      old(|sim.Tags()|) <= |sim.Tags()| &&
      FixedOf(ViewsOf(sim.Tags()))[..old(|sim.Tags()|)] == old(FixedOf(ViewsOf(sim.Tags())))
  {
    ghost var anchorViews := ViewsOf(sim.Anchors());
    ghost var tagViews := ViewsOf(sim.Tags());
    var na := Needed(numAnchors, |sim.Anchors()|);
    var nt := Needed(numTags, |sim.Tags()|);
    outcome := CreatePhase(sim, na, nt, cfg, d);
    if outcome.Fail? {
      return;
    }
    if na == 0 && nt == 0 {
      assert sim.stations == old(sim.stations);
      assert ViewsOf(sim.Anchors()) == anchorViews && ViewsOf(sim.Tags()) == tagViews;
    }
    ghost var anchors1 := ViewsOf(sim.Anchors());
    ghost var tags1 := ViewsOf(sim.Tags());
    outcome := Finish(sim, storage, regenerate, na > 0 || nt > 0, cfg, d);
    if outcome == Pass {
      FixedPrefix(ViewsOf(sim.Anchors()), anchors1, anchorViews);
      FixedPrefix(ViewsOf(sim.Tags()), tags1, tagViews);
    }
  }

  /** The two reset loops and, when anything was created, the refresh. */
  method Finish(sim: SimulationService, storage: SqliteStorage, regenerate: bool, created: bool, cfg: Settings,
                d: PrepareDraws) returns (outcome: Outcome)
    requires sim.Valid() && Distinct(sim.stations)
    modifies sim.stations, storage`log
    ensures sim.Valid()
    ensures sim.Anchors() == old(sim.Anchors()) && sim.Tags() == old(sim.Tags())
    ensures old(storage.log) <= storage.log
    ensures outcome.Fail? <==>
      (regenerate && |sim.Anchors()| > 0 && (cfg.sizeX < 0 || cfg.sizeY < 0)) || (|sim.Tags()| > 0 && cfg.radius < 0)
    ensures outcome.Fail? ==> outcome.error == ValueError(EmptyRangeMessage)
    ensures forall j :: 0 <= j < |sim.stations| ==> sim.stations[j].deviceType == old(sim.stations[j].deviceType)
    ensures outcome == Pass ==> forall j :: 0 <= j < |sim.stations| && sim.stations[j].deviceType == Tag ==>
      sim.stations[j].position == Origin &&
      (0 <= cfg.sizeX && 0 <= cfg.sizeY ==> InPlane(sim.stations[j].targetPoint, cfg.sizeX, cfg.sizeY))
    ensures outcome == Pass && regenerate ==> forall j :: 0 <= j < |sim.stations| && sim.stations[j].deviceType == Anchor ==>
      InPlane(sim.stations[j].position, cfg.sizeX, cfg.sizeY)
    ensures outcome == Pass ==>
      storage.log == old(storage.log) + Updates(ViewsOf(sim.Anchors())) + Updates(ViewsOf(sim.Tags()))
                     + (if created then [SaveRows(RowsOf(ViewsOf(sim.stations)))] else [])
    ensures outcome == Pass && created ==>
      Covered(sim.stations) && KnowsOthers(sim.stations)
    ensures outcome == Pass && !created ==>
      ViewsOf(sim.Anchors()) == Written(Regens(old(ViewsOf(sim.Anchors())), regenerate, cfg.sizeX, cfg.sizeY, d.regen))
    ensures outcome == Pass && !created ==>
      ViewsOf(sim.Tags()) == Written(Resets(old(ViewsOf(sim.Tags())), cfg.sizeX, cfg.sizeY, cfg.radius, d.offset))
    ensures !created ==> forall j :: 0 <= j < |sim.stations| && sim.stations[j].deviceType == Unassigned ==>
      sim.stations[j].View() == old(sim.stations[j].View())
    ensures !regenerate ==> forall j :: 0 <= j < |sim.stations| && sim.stations[j].deviceType == Anchor ==>
      sim.stations[j].position == old(sim.stations[j].position) &&
      RowOf(sim.stations[j].View()) == old(RowOf(sim.stations[j].View()))
    ensures outcome == Pass ==> FixedOf(ViewsOf(sim.Anchors())) == FixedOf(old(ViewsOf(sim.Anchors())))
    ensures outcome == Pass ==> FixedOf(ViewsOf(sim.Tags())) == FixedOf(old(ViewsOf(sim.Tags())))
  {
    if created {
      outcome := ResetRefresh(sim, storage, regenerate, cfg, d);
    } else {
      ghost var anchors0 := ViewsOf(sim.Anchors());
      ghost var tags0 := ViewsOf(sim.Tags());
      outcome := ResetPhase(sim, storage, regenerate, cfg, d);
      if outcome == Pass {
        RegensKeep(anchors0, regenerate, cfg.sizeX, cfg.sizeY, d.regen);
        ResetsKeep(tags0, cfg.sizeX, cfg.sizeY, cfg.radius, d.offset);
      }
    }
  }

  /** The two reset loops followed by the refresh, as after a creation. */
  method ResetRefresh(sim: SimulationService, storage: SqliteStorage, regenerate: bool, cfg: Settings, d: PrepareDraws)
    returns (outcome: Outcome)
    requires sim.Valid() && Distinct(sim.stations)
    modifies sim.stations, storage`log
    ensures sim.Valid()
    ensures sim.Anchors() == old(sim.Anchors()) && sim.Tags() == old(sim.Tags())
    ensures old(storage.log) <= storage.log
    ensures outcome.Fail? <==>
      (regenerate && |sim.Anchors()| > 0 && (cfg.sizeX < 0 || cfg.sizeY < 0)) || (|sim.Tags()| > 0 && cfg.radius < 0)
    ensures outcome.Fail? ==> outcome.error == ValueError(EmptyRangeMessage)
    ensures forall j :: 0 <= j < |sim.stations| ==> sim.stations[j].deviceType == old(sim.stations[j].deviceType)
    ensures outcome == Pass ==> forall j :: 0 <= j < |sim.stations| && sim.stations[j].deviceType == Tag ==>
      sim.stations[j].position == Origin &&
      (0 <= cfg.sizeX && 0 <= cfg.sizeY ==> InPlane(sim.stations[j].targetPoint, cfg.sizeX, cfg.sizeY))
    ensures outcome == Pass && regenerate ==> forall j :: 0 <= j < |sim.stations| && sim.stations[j].deviceType == Anchor ==>
      InPlane(sim.stations[j].position, cfg.sizeX, cfg.sizeY)
    ensures outcome == Pass ==>
      storage.log == old(storage.log) + Updates(ViewsOf(sim.Anchors())) + Updates(ViewsOf(sim.Tags()))
                     + [SaveRows(RowsOf(ViewsOf(sim.stations)))]
    ensures outcome == Pass ==> Covered(sim.stations) && KnowsOthers(sim.stations)
    ensures !regenerate ==> forall j :: 0 <= j < |sim.stations| && sim.stations[j].deviceType == Anchor ==>
      sim.stations[j].position == old(sim.stations[j].position) &&
      RowOf(sim.stations[j].View()) == old(RowOf(sim.stations[j].View()))
    ensures outcome == Pass ==> FixedOf(ViewsOf(sim.Anchors())) == FixedOf(old(ViewsOf(sim.Anchors())))
    ensures outcome == Pass ==> FixedOf(ViewsOf(sim.Tags())) == FixedOf(old(ViewsOf(sim.Tags())))
  {
    ghost var anchors0 := ViewsOf(sim.Anchors());
    ghost var tags0 := ViewsOf(sim.Tags());
    outcome := ResetPhase(sim, storage, regenerate, cfg, d);
    if outcome.Fail? {
      return;
    }
    RegensKeep(anchors0, regenerate, cfg.sizeX, cfg.sizeY, d.regen);
    ResetsKeep(tags0, cfg.sizeX, cfg.sizeY, cfg.radius, d.offset);
    ghost var anchors1 := ViewsOf(sim.Anchors());
    ghost var tags1 := ViewsOf(sim.Tags());
    RefreshPhase(sim, storage);
    UpdatesFixed(ViewsOf(sim.Anchors()), anchors1);
    UpdatesFixed(ViewsOf(sim.Tags()), tags1);
  }

  /** The two creation loops, after the load: the stations already there, and their order
      among those of their role, are kept. */
  method CreatePhase(sim: SimulationService, na: nat, nt: nat, cfg: Settings, d: PrepareDraws) returns (outcome: Outcome)
    requires sim.Valid() && Distinct(sim.stations)
    modifies sim`stations
    ensures sim.Valid() && Distinct(sim.stations)
    ensures old(sim.stations) <= sim.stations
    ensures outcome.Fail? <==> na > 0 && (cfg.sizeX < 0 || cfg.sizeY < 0)
    ensures outcome.Fail? ==> outcome.error == ValueError(EmptyRangeMessage)
    ensures outcome == Pass ==> |sim.Anchors()| == old(|sim.Anchors()|) + na && |sim.Tags()| == old(|sim.Tags()|) + nt
    ensures outcome == Pass ==> |sim.stations| == |old(sim.stations)| + na + nt
    ensures forall j :: |old(sim.stations)| <= j < |sim.stations| ==> fresh(sim.stations[j])
    ensures forall j :: |old(sim.stations)| <= j < |sim.stations| && sim.stations[j].deviceType == Anchor ==>
      InPlane(sim.stations[j].position, cfg.sizeX, cfg.sizeY)
    ensures old(|sim.Anchors()|) <= |sim.Anchors()| &&
      ViewsOf(sim.Anchors())[..old(|sim.Anchors()|)] == old(ViewsOf(sim.Anchors()))
    ensures old(|sim.Tags()|) <= |sim.Tags()| && ViewsOf(sim.Tags())[..old(|sim.Tags()|)] == old(ViewsOf(sim.Tags()))
  {
    ghost var s0 := sim.stations;
    ghost var anchorViews := ViewsOf(sim.Anchors());
    ghost var tagViews := ViewsOf(sim.Tags());
    outcome := CreateBoth(sim, na, nt, cfg, d);
    RolePrefix(sim.stations, s0, Anchor);
    RolePrefix(sim.stations, s0, Tag);
    assert ViewsOf(WithRole(s0, Anchor)) == anchorViews && ViewsOf(WithRole(s0, Tag)) == tagViews;
  }

  /** The anchor loop and then the tag loop. */
  method CreateBoth(sim: SimulationService, na: nat, nt: nat, cfg: Settings, d: PrepareDraws) returns (outcome: Outcome)
    requires sim.Valid() && Distinct(sim.stations)
    modifies sim`stations
    ensures sim.Valid() && Distinct(sim.stations)
    ensures old(sim.stations) <= sim.stations
    ensures outcome.Fail? <==> na > 0 && (cfg.sizeX < 0 || cfg.sizeY < 0)
    ensures outcome.Fail? ==> outcome.error == ValueError(EmptyRangeMessage)
    ensures outcome == Pass ==> |sim.Anchors()| == old(|sim.Anchors()|) + na && |sim.Tags()| == old(|sim.Tags()|) + nt
    ensures outcome == Pass ==> |sim.stations| == |old(sim.stations)| + na + nt
    ensures forall j :: |old(sim.stations)| <= j < |sim.stations| ==> fresh(sim.stations[j])
    ensures forall j :: |old(sim.stations)| <= j < |sim.stations| && sim.stations[j].deviceType == Anchor ==>
      InPlane(sim.stations[j].position, cfg.sizeX, cfg.sizeY)
  {
    ghost var s0 := sim.stations;
    outcome := CreateAnchors(sim, na, cfg.sizeX, cfg.sizeY, cfg.cluster, d.anchorDraws, d.place);
    if outcome.Fail? {
      return;
    }
    ghost var s1 := sim.stations;
    CreateTags(sim, nt, cfg.cluster, d.tagDraws);
    Appended(sim.stations, s0, s1, cfg.sizeX, cfg.sizeY);
  }

  /** A collection made of `s0`, then anchors in the plane up to the length of `s1`, then
      tags has as many more anchors and tags as it has new entries of each, and its new
      anchors all lie in the plane. */
  lemma Appended(stations: seq<Station>, s0: seq<Station>, s1: seq<Station>, sizeX: int, sizeY: int)
    requires s0 <= s1 <= stations
    requires forall j :: |s0| <= j < |s1| ==> stations[j].deviceType == Anchor && InPlane(stations[j].position, sizeX, sizeY)
    requires forall j :: |s1| <= j < |stations| ==> stations[j].deviceType == Tag
    ensures |WithRole(stations, Anchor)| == |WithRole(s0, Anchor)| + |s1| - |s0|
    ensures |WithRole(stations, Tag)| == |WithRole(s0, Tag)| + |stations| - |s1|
    ensures forall j :: |s0| <= j < |stations| && stations[j].deviceType == Anchor ==> InPlane(stations[j].position, sizeX, sizeY)
  {
    var made := s1[|s0|..];
    var newTags := stations[|s1|..];
    assert stations == s0 + made + newTags;
    assert forall k :: 0 <= k < |made| ==> made[k].deviceType == Anchor by {
      forall k | 0 <= k < |made| ensures made[k].deviceType == Anchor {
        assert made[k] == stations[|s0| + k];
      }
    }
    assert forall k :: 0 <= k < |newTags| ==> newTags[k].deviceType == Tag by {
      forall k | 0 <= k < |newTags| ensures newTags[k].deviceType == Tag {
        assert newTags[k] == stations[|s1| + k];
      }
    }
    RoleCounts(s0, made, newTags);
  }

  /** Appending anchors and then tags adds exactly them to the two role views. */
  lemma RoleCounts(s0: seq<Station>, made: seq<Station>, newTags: seq<Station>)
    requires forall k :: 0 <= k < |made| ==> made[k].deviceType == Anchor
    requires forall k :: 0 <= k < |newTags| ==> newTags[k].deviceType == Tag
    ensures |WithRole(s0 + made + newTags, Anchor)| == |WithRole(s0, Anchor)| + |made|
    ensures |WithRole(s0 + made + newTags, Tag)| == |WithRole(s0, Tag)| + |newTags|
  {
    WithRoleUniform(made, Anchor, Anchor);
    WithRoleUniform(made, Anchor, Tag);
    WithRoleUniform(newTags, Tag, Anchor);
    WithRoleUniform(newTags, Tag, Tag);
    WithRoleAppend(s0 + made, newTags, Anchor);
    WithRoleAppend(s0, made, Anchor);
    WithRoleAppend(s0 + made, newTags, Tag);
    WithRoleAppend(s0, made, Tag);
  }

  /** The anchor loop and then the tag loop; neither changes any station's role. */
  method ResetPhase(sim: SimulationService, storage: SqliteStorage, regenerate: bool, cfg: Settings, d: PrepareDraws)
    returns (outcome: Outcome)
    requires sim.Valid() && Distinct(sim.stations)
    modifies sim.stations, storage`log
    ensures sim.Valid()
    ensures sim.Anchors() == old(sim.Anchors()) && sim.Tags() == old(sim.Tags())
    ensures old(storage.log) <= storage.log
    ensures outcome.Fail? <==>
      (regenerate && |sim.Anchors()| > 0 && (cfg.sizeX < 0 || cfg.sizeY < 0)) || (|sim.Tags()| > 0 && cfg.radius < 0)
    ensures outcome.Fail? ==> outcome.error == ValueError(EmptyRangeMessage)
    ensures forall j :: 0 <= j < |sim.stations| ==> sim.stations[j].deviceType == old(sim.stations[j].deviceType)
    ensures outcome == Pass ==> storage.log == old(storage.log) + Updates(ViewsOf(sim.Anchors())) + Updates(ViewsOf(sim.Tags()))
    ensures outcome == Pass ==>
      ViewsOf(sim.Anchors()) == Written(Regens(old(ViewsOf(sim.Anchors())), regenerate, cfg.sizeX, cfg.sizeY, d.regen))
    ensures outcome == Pass ==>
      ViewsOf(sim.Tags()) == Written(Resets(old(ViewsOf(sim.Tags())), cfg.sizeX, cfg.sizeY, cfg.radius, d.offset))
    ensures forall j :: 0 <= j < |sim.stations| && sim.stations[j].deviceType == Unassigned ==>
      sim.stations[j].View() == old(sim.stations[j].View())
    ensures outcome == Pass ==> forall j :: 0 <= j < |sim.stations| && sim.stations[j].deviceType == Tag ==>
      sim.stations[j].position == Origin &&
      (0 <= cfg.sizeX && 0 <= cfg.sizeY ==> InPlane(sim.stations[j].targetPoint, cfg.sizeX, cfg.sizeY))
    ensures outcome == Pass && regenerate ==> forall j :: 0 <= j < |sim.stations| && sim.stations[j].deviceType == Anchor ==>
      InPlane(sim.stations[j].position, cfg.sizeX, cfg.sizeY)
    ensures !regenerate ==> forall j :: 0 <= j < |sim.stations| && sim.stations[j].deviceType == Anchor ==>
      sim.stations[j].position == old(sim.stations[j].position) &&
      RowOf(sim.stations[j].View()) == old(RowOf(sim.stations[j].View()))
  {
    outcome := AnchorPhase(sim, storage, regenerate, cfg.sizeX, cfg.sizeY, d.regen);
    if outcome.Fail? {
      return;
    }
    outcome := TagPhase(sim, storage, cfg.sizeX, cfg.sizeY, cfg.radius, d.offset);
  }

  /** The anchor loop, on the role views: no role changes, and the anchors are written
      as they end up. */
  method AnchorPhase(sim: SimulationService, storage: SqliteStorage, regenerate: bool, sizeX: int, sizeY: int,
                     regen: nat -> (nat, nat)) returns (outcome: Outcome)
    requires sim.Valid() && Distinct(sim.stations)
    modifies sim.stations, storage`log
    ensures sim.Valid()
    ensures TypesOf(sim.stations) == old(TypesOf(sim.stations))
    ensures sim.Anchors() == old(sim.Anchors()) && sim.Tags() == old(sim.Tags())
    ensures ViewsOf(sim.Tags()) == old(ViewsOf(sim.Tags()))
    ensures forall j :: 0 <= j < |sim.stations| && sim.stations[j].deviceType != Anchor ==>
      sim.stations[j].View() == old(sim.stations[j].View())
    ensures outcome.Fail? <==> regenerate && |sim.Anchors()| > 0 && (sizeX < 0 || sizeY < 0)
    ensures outcome.Fail? ==> outcome.error == ValueError(EmptyRangeMessage) && storage.log == old(storage.log)
    ensures outcome == Pass ==> storage.log == old(storage.log) + Updates(ViewsOf(sim.Anchors()))
    ensures outcome == Pass ==>
      ViewsOf(sim.Anchors()) == Written(Regens(old(ViewsOf(sim.Anchors())), regenerate, sizeX, sizeY, regen))
    ensures outcome == Pass && regenerate ==> forall j :: 0 <= j < |sim.stations| && sim.stations[j].deviceType == Anchor ==>
      InPlane(sim.stations[j].position, sizeX, sizeY)
    ensures !regenerate ==> forall j :: 0 <= j < |sim.stations| ==> sim.stations[j].position == old(sim.stations[j].position)
    ensures !regenerate ==> forall j :: 0 <= j < |sim.stations| ==> RowOf(sim.stations[j].View()) == old(RowOf(sim.stations[j].View()))
  {
    ghost var types := TypesOf(sim.stations);
    ghost var before := ViewsOf(sim.stations);
    RolesKept(sim.stations, types, before, Anchor, Tag);
    ghost var anchors := sim.Anchors();
    ghost var views := ViewsOf(anchors);
    outcome := ResetAnchors(sim, storage, regenerate, sizeX, sizeY, regen, anchors, views);
    assert TypesOf(sim.stations) == types;
    RolesKept(sim.stations, types, before, Anchor, Tag);
  }

  /** The tag loop, on the role views: no role changes, the tags are written as they end
      up, and every other station is left alone. */
  method TagPhase(sim: SimulationService, storage: SqliteStorage, sizeX: int, sizeY: int, radius: int,
                  offset: nat -> (nat, nat)) returns (outcome: Outcome)
    requires sim.Valid() && Distinct(sim.stations)
    modifies sim.stations, storage`log
    ensures sim.Valid()
    ensures TypesOf(sim.stations) == old(TypesOf(sim.stations))
    ensures sim.Anchors() == old(sim.Anchors()) && sim.Tags() == old(sim.Tags())
    ensures ViewsOf(sim.Anchors()) == old(ViewsOf(sim.Anchors()))
    ensures forall j :: 0 <= j < |sim.stations| && sim.stations[j].deviceType != Tag ==>
      sim.stations[j].View() == old(sim.stations[j].View())
    ensures outcome.Fail? <==> |sim.Tags()| > 0 && radius < 0
    ensures outcome.Fail? ==> outcome.error == ValueError(EmptyRangeMessage) && storage.log == old(storage.log)
    ensures outcome == Pass ==> storage.log == old(storage.log) + Updates(ViewsOf(sim.Tags()))
    ensures outcome == Pass ==>
      ViewsOf(sim.Tags()) == Written(Resets(old(ViewsOf(sim.Tags())), sizeX, sizeY, radius, offset))
    ensures outcome == Pass ==> forall j :: 0 <= j < |sim.stations| && sim.stations[j].deviceType == Tag ==>
      sim.stations[j].position == Origin && (0 <= sizeX && 0 <= sizeY ==> InPlane(sim.stations[j].targetPoint, sizeX, sizeY))
  {
    ghost var types := TypesOf(sim.stations);
    ghost var before := ViewsOf(sim.stations);
    RolesKept(sim.stations, types, before, Tag, Anchor);
    ghost var tags := sim.Tags();
    ghost var views := ViewsOf(tags);
    outcome := ResetTags(sim, storage, sizeX, sizeY, radius, offset, tags, views);
    assert TypesOf(sim.stations) == types;
    RolesKept(sim.stations, types, before, Tag, Anchor);
  }

  /** While the device types are `types`, the role filters select by them, and the views
      of the `kept` role are those in `before` when every station outside the `moved` role
      still looks as there. */
  lemma RolesKept(stations: seq<Station>, types: seq<DeviceType>, before: seq<StationView>, moved: DeviceType,
                  kept: DeviceType)
    requires TypesOf(stations) == types && |before| == |stations| && moved != kept
    requires forall j :: 0 <= j < |stations| ==> before[j].deviceType == types[j]
    requires forall j :: 0 <= j < |stations| && types[j] != moved ==> stations[j].View() == before[j]
    ensures WithRole(stations, Anchor) == Select(stations, types, Anchor)
    ensures WithRole(stations, Tag) == Select(stations, types, Tag)
    ensures ViewsOf(WithRole(stations, kept)) == RoleViews(before, kept)
  {
    RolesByTypes(stations, Anchor);
    RolesByTypes(stations, Tag);
    RoleViewsOf(stations, kept);
    RoleViewsKeep(before, ViewsOf(stations), kept);
  }

  /** The refresh, on the role views: roles, positions, targets and every row stay as
      they were. */
  method RefreshPhase(sim: SimulationService, storage: SqliteStorage)
    requires sim.Valid() && Distinct(sim.stations)
    modifies sim.stations, storage`log
    ensures sim.Valid()
    ensures sim.Anchors() == old(sim.Anchors()) && sim.Tags() == old(sim.Tags())
    ensures forall j :: 0 <= j < |sim.stations| ==>
      && sim.stations[j].deviceType == old(sim.stations[j].deviceType)
      && sim.stations[j].position == old(sim.stations[j].position)
      && sim.stations[j].targetPoint == old(sim.stations[j].targetPoint)
      && RowOf(sim.stations[j].View()) == old(RowOf(sim.stations[j].View()))
    ensures Updates(ViewsOf(sim.Anchors())) == old(Updates(ViewsOf(sim.Anchors())))
    ensures Updates(ViewsOf(sim.Tags())) == old(Updates(ViewsOf(sim.Tags())))
    ensures Covered(sim.stations) && KnowsOthers(sim.stations)
    ensures storage.log == old(storage.log) + [SaveRows(RowsOf(ViewsOf(sim.stations)))]
  {
    ghost var types := TypesOf(sim.stations);
    RolesByTypes(sim.stations, Anchor);
    RolesByTypes(sim.stations, Tag);
    RoleViewsOf(sim.stations, Anchor);
    RoleViewsOf(sim.stations, Tag);
    ghost var before, after := RefreshViews(sim, storage);
    assert TypesOf(sim.stations) == types;
    RolesByTypes(sim.stations, Anchor);
    RolesByTypes(sim.stations, Tag);
    RoleViewsOf(sim.stations, Anchor);
    RoleViewsOf(sim.stations, Tag);
    RoleRows(before, after, Anchor);
    RoleRows(before, after, Tag);
  }

  /** The refresh, station by station: the role, the position, the target and the row
      are kept, every tag is covered, every station knows the others, and the save
      writes the collection as it ends up. */
  method RefreshViews(sim: SimulationService, storage: SqliteStorage) returns (ghost before: seq<StationView>, ghost after: seq<StationView>)
    requires sim.Valid() && Distinct(sim.stations)
    modifies sim.stations, storage`log
    ensures sim.Valid()
    ensures before == old(ViewsOf(sim.stations)) && after == ViewsOf(sim.stations)
    ensures forall j :: 0 <= j < |after| ==> after[j].deviceType == before[j].deviceType && RowOf(after[j]) == RowOf(before[j])
    ensures forall j :: 0 <= j < |sim.stations| ==>
      && sim.stations[j].deviceType == old(sim.stations[j].deviceType)
      && sim.stations[j].position == old(sim.stations[j].position)
      && sim.stations[j].targetPoint == old(sim.stations[j].targetPoint)
      && RowOf(sim.stations[j].View()) == old(RowOf(sim.stations[j].View()))
    ensures Covered(sim.stations) && KnowsOthers(sim.stations)
    ensures storage.log == old(storage.log) + [SaveRows(RowsOf(ViewsOf(sim.stations)))]
  {
    before := ViewsOf(sim.stations);
    ghost var r := Refresh(sim, storage, before);
    after := ViewsOf(sim.stations);
    RefreshKeeps(before, sim.stations, sim.sqrt, sim.distanceScalingFactor, after);
    RefreshCovers(before, sim.stations, sim.sqrt, sim.distanceScalingFactor);
    CoveredFrom(sim.stations, r);
    SameRows(after, r);
    forall j | 0 <= j < |sim.stations|
      ensures && sim.stations[j].deviceType == old(sim.stations[j].deviceType)
              && sim.stations[j].position == old(sim.stations[j].position)
              && sim.stations[j].targetPoint == old(sim.stations[j].targetPoint)
              && RowOf(sim.stations[j].View()) == old(RowOf(sim.stations[j].View()))
    {
      assert sim.stations[j].View() == after[j] && old(sim.stations[j].View()) == before[j];
    }
  }

  /** The stations look as the refreshed views, up to the dirty list, so they are covered
      when the views are. */
  lemma CoveredFrom(stations: seq<Station>, r: seq<StationView>)
    requires |r| == |stations| && forall j :: 0 <= j < |stations| ==> stations[j].View() == CreatedAtRead(r[j])
    requires forall j, k :: 0 <= j < |r| && 0 <= k < |r| && r[j].deviceType == Tag && r[k].deviceType == Anchor ==>
      r[k].mac in Keys(r[j].rangingData)
    ensures Covered(stations)
  {
    forall j, k | 0 <= j < |stations| && 0 <= k < |stations| && stations[j].deviceType == Tag && stations[k].deviceType == Anchor
      ensures stations[k].macAddress in Keys(stations[j].rangingData)
    {
      assert stations[j].View() == CreatedAtRead(r[j]) && stations[k].View() == CreatedAtRead(r[k]);
    }
  }

  /** What the refresh and the save's row read keep: per station, the role, the position,
      the target and the row. */
  lemma RefreshKeeps(views: seq<StationView>, stations: seq<Station>, sqrt: real -> real, factor: real,
                     after: seq<StationView>)
    requires var r := Refreshed(views, stations, sqrt, factor);
      |after| == |r| && forall j :: 0 <= j < |r| ==> after[j] == CreatedAtRead(r[j])
    ensures forall j :: 0 <= j < |after| ==>
      && after[j].deviceType == views[j].deviceType
      && after[j].position == views[j].position
      && after[j].targetPoint == views[j].targetPoint
      && RowOf(after[j]) == RowOf(views[j])
  {
    RefreshShape(views, stations, sqrt, factor);
  }

  /** Writing one list of views after another writes their concatenation. */
  lemma UpdatesAppend(a: seq<StationView>, b: seq<StationView>)
    ensures Updates(a + b) == Updates(a) + Updates(b)
  {
  }

  /** Two collections with the same role and row at every index write their role views
      alike. */
  lemma {:induction false} RoleRows(a: seq<StationView>, b: seq<StationView>, t: DeviceType)
    requires |a| == |b|
    requires forall j :: 0 <= j < |a| ==> a[j].deviceType == b[j].deviceType && RowOf(a[j]) == RowOf(b[j])
    ensures Updates(RoleViews(a, t)) == Updates(RoleViews(b, t))
    decreases |a|
  {
    if a != [] {
      RoleRows(a[1..], b[1..], t);
      var ha := if a[0].deviceType == t then [a[0]] else [];
      var hb := if b[0].deviceType == t then [b[0]] else [];
      UpdatesAppend(ha, RoleViews(a[1..], t));
      UpdatesAppend(hb, RoleViews(b[1..], t));
    }
  }

  /** Two collections with the same role at every index, and the same view wherever the
      role is `t`, have the same role views for `t`. */
  lemma {:induction false} RoleViewsKeep(a: seq<StationView>, b: seq<StationView>, t: DeviceType)
    requires |a| == |b|
    requires forall j :: 0 <= j < |a| ==> a[j].deviceType == b[j].deviceType && (a[j].deviceType == t ==> a[j] == b[j])
    ensures RoleViews(a, t) == RoleViews(b, t)
    decreases |a|
  {
    if a != [] {
      RoleViewsKeep(a[1..], b[1..], t);
    }
  }
}
