/** The change flush of services/mqtt_service.py: the topic root derived from a station's
    name, the dispatch of each dirty field to its topics, and the clearing of handled
    fields while the loop still walks the live dirty list. The broker is a log of
    `(topic, payload)` pairs and a `connected` flag. */
module Mqtt {
  import opened Wrappers
  import opened Text
  import opened DirtyFields
  import opened Stations
  import opened Seqs

  // ------------------------------------------------------------ messages

  /** What is handed to `publish`, before rendering: a string (`None` for a missing
      timestamp), `str` of a number, or `json.dumps` of a list or of the snapshot. */
  datatype Payload =
    | Str(text: string)
    | Null
    | Number(value: real)
    | MacList(macs: seq<string>)
    | RangingJson(entries: seq<RangingEntry>)
    | SnapshotJson(snapshot: Snapshot)

  datatype Message = Message(topic: string, payload: Payload)

  function Stamp(t: Option<string>): Payload {
    if t.Some? then Str(t.value) else Null
  }

  /** The per-station topic root: `<base>/devices/` and the name with every space turned
      into an underscore and every colon dropped. */
  function TopicPrefix(base: string, name: string): string {
    base + "/devices/" + RemoveChar(ReplaceChar(name, ' ', '_'), ':')
  }

  /** The fields the `match` has a case for; any other name falls to `case _`. */
  predicate Known(f: Field) {
    !f.Other?
  }

  /** What the `match` publishes for one visited field, read from the station's current
      state: position and target as separate x and y topics, the target only for a tag. */
  function FieldMessages(prefix: string, v: StationView, f: Field): (ms: seq<Message>)
    ensures forall k :: 0 <= k < |ms| ==> prefix <= ms[k].topic
    ensures ms == [] <==> f.Other? || (f == TargetPoint && v.deviceType != Tag)
  {
    match f
    case MacAddress => [Message(prefix + "/mac_address", Str(v.mac))]
    case Name => [Message(prefix + "/name", Str(v.name))]
    case TypeField => [Message(prefix + "/uwb/type", Str(TypeName(v.deviceType)))]
    case ClusterName =>
      [Message(prefix + "/uwb/cluster/name", Str(if v.clusterName.None? then "None" else v.clusterName.value))]
    case ClusterStations => [Message(prefix + "/uwb/cluster/stations", MacList(v.clusterMacs))]
    case Randomizer => [Message(prefix + "/dev/randomizer", Number(v.randomizer))]
    case Position =>
      [Message(prefix + "/dev/position/x", Number(v.position.x)),
       Message(prefix + "/dev/position/y", Number(v.position.y))]
    case TargetPoint =>
      if v.deviceType == Tag then
        [Message(prefix + "/dev/target_point/x", Number(v.targetPoint.x)),
         Message(prefix + "/dev/target_point/y", Number(v.targetPoint.y))]
      else []
    case RangingData => [Message(prefix + "/uwb/ranging", RangingJson(v.rangingData))]
    case CreatedAt => [Message(prefix + "/dev/created_at", Str(v.createdAt))]
    case UpdatedAt => [Message(prefix + "/dev/updated_at", Stamp(v.updatedAt))]
    case Other(_) => []
  }

  // ------------------------------------------------------------ the sweep

  /** The dirty list after one visit: a known field is removed (for `created_at` the
      getter removes it first, then `remove_from_updated_fields` again); an unknown one
      stays. */
  function Visit(fields: seq<Field>, f: Field): (r: seq<Field>)
    ensures |r| <= |fields|
  {
    if !Known(f) then fields
    else if f == CreatedAt then RemoveFirst(RemoveFirst(fields, CreatedAt), CreatedAt)
    else RemoveFirst(fields, f)
  }

  /** `for field in updated_fields` over the list it removes from: Python's list iterator
      keeps a position `i`, reads `fields[i]`, and stops once `i` reaches the current
      length. This is what the list holds when the loop ends. */
  function Remaining(fields: seq<Field>, i: nat): seq<Field>
    decreases |fields| - i
  {
    if i >= |fields| then fields else Remaining(Visit(fields, fields[i]), i + 1)
  }

  /** The same loop: the fields it visits, in order. */
  function VisitOrder(fields: seq<Field>, i: nat): seq<Field>
    decreases |fields| - i
  {
    if i >= |fields| then [] else [fields[i]] + VisitOrder(Visit(fields, fields[i]), i + 1)
  }

  /** Reference for what one sweep leaves dirty, with no positions: an unknown field stays;
      a known field goes, and the entry after it moves into its place, is never visited,
      and stays. */
  function Survivors(fields: seq<Field>): seq<Field>
    decreases |fields|
  {
    if fields == [] then []
    else if !Known(fields[0]) then [fields[0]] + Survivors(fields[1..])
    else if |fields| == 1 then []
    else [fields[1]] + Survivors(fields[2..])
  }

  /** Reference for the fields one sweep visits, in order. */
  function Visited(fields: seq<Field>): seq<Field>
    decreases |fields|
  {
    if fields == [] then []
    else if !Known(fields[0]) || |fields| == 1 then [fields[0]] + Visited(fields[1..])
    else [fields[0]] + Visited(fields[2..])
  }

  /** The messages for a run of visited fields, in order. */
  function SentFor(prefix: string, v: StationView, fields: seq<Field>): seq<Message> {
    if fields == [] then [] else FieldMessages(prefix, v, fields[0]) + SentFor(prefix, v, fields[1..])
  }

  // ------------------------------------------------------------ one publish_station call

  /** A station after `publish_station` and the messages it sent. */
  datatype Published = Published(after: StationView, sent: seq<Message>)

  /** `publish_station`: nothing without a connection or a client, nothing for a clean
      station; otherwise stamp `updated_at`, sweep the dirty list, then send the `as_dict`
      snapshot and the stamp. */
  function Publish(connected: bool, hasClient: bool, base: string, v: StationView, now: string): Published {
    if !connected || !hasClient || v.updatedFields == [] then Published(v, [])
    else
      var stamped := v.(updatedAt := Some(now), updatedFields := Mark(v.updatedFields, UpdatedAt));
      var prefix := TopicPrefix(base, v.name);
      var done := stamped.(updatedFields := Remaining(stamped.updatedFields, 0));
      Published(done, SentFor(prefix, stamped, VisitOrder(stamped.updatedFields, 0)) + [Message(prefix + "/dev/json", SnapshotJson(AsDict(done))),
                                 Message(prefix + "/dev/updated_at", Str(now))])
  }

  /** `publish_status`: one `publish_station` per station, in order, the k-th stamped
      `clock(k)`; `views` are the stations as they are when reached. */
  function StatusSent(connected: bool, hasClient: bool, base: string, views: seq<StationView>, clock: nat -> string): seq<Message> {
    Concat(Sends(connected, hasClient, base, views, clock))
  }

  /** The messages of each station's publish, station by station. */
  function Sends(connected: bool, hasClient: bool, base: string, views: seq<StationView>, clock: nat -> string): seq<seq<Message>> {
    seq(|views|, j requires 0 <= j < |views| => Publish(connected, hasClient, base, views[j], clock(j)).sent)
  }

  // ------------------------------------------------------------ lemmas

  /** Replacing a character that does not occur changes nothing. */
  lemma ReplaceAbsent(s: string, from: char, to: char)
    requires from !in s
    ensures ReplaceChar(s, from, to) == s
  {
    assert forall i :: 0 <= i < |s| ==> s[i] != from;
  }


  lemma ReplaceAppend(a: string, b: string, from: char, to: char)
    ensures ReplaceChar(a + b, from, to) == ReplaceChar(a, from, to) + ReplaceChar(b, from, to)
  {
    var l := ReplaceChar(a + b, from, to);
    var ra := ReplaceChar(a, from, to);
    var rb := ReplaceChar(b, from, to);
    assert |l| == |ra + rb|;
    forall i | 0 <= i < |l| ensures l[i] == (ra + rb)[i] {
      if i < |a| {
        assert (a + b)[i] == a[i];
        assert (ra + rb)[i] == ra[i];
      } else {
        assert (a + b)[i] == b[i - |a|];
        assert (ra + rb)[i] == rb[i - |a|];
      }
    }
  }

  /** The topic segment of a name has no space and no colon, keeps every other character
      of the name, and holds an underscore only where the name had one or a space. */
  lemma TopicSegment(base: string, name: string, c: char)
    ensures TopicPrefix(base, name) == base + "/devices/" + RemoveChar(ReplaceChar(name, ' ', '_'), ':')
    ensures ' ' !in RemoveChar(ReplaceChar(name, ' ', '_'), ':')
    ensures ':' !in RemoveChar(ReplaceChar(name, ' ', '_'), ':')
    ensures c != ' ' && c != ':' && c != '_' ==> (c in RemoveChar(ReplaceChar(name, ' ', '_'), ':') <==> c in name)
    ensures '_' in RemoveChar(ReplaceChar(name, ' ', '_'), ':') <==> '_' in name || ' ' in name
  {
    var r := ReplaceChar(name, ' ', '_');
    RemoveCharSpec(r, ':', ' ');
    RemoveCharSpec(r, ':', c);
    RemoveCharSpec(r, ':', '_');
    assert forall i :: 0 <= i < |r| ==> r[i] != ' ';
    if c != ' ' && c != ':' && c != '_' {
      if c in name {
        var i :| 0 <= i < |name| && name[i] == c;
        assert r[i] == c;
      }
    }
    if '_' in name || ' ' in name {
      var i :| 0 <= i < |name| && (name[i] == '_' || name[i] == ' ');
      assert r[i] == '_';
    }
  }

  /** One space between two pieces without spaces becomes an underscore. */
  lemma ReplaceBetween(x: string, y: string, from: char, to: char)
    requires from !in x && from !in y
    ensures ReplaceChar(x + [from] + y, from, to) == x + [to] + y
  {
    ReplaceAppend(x + [from], y, from, to);
    ReplaceAppend(x, [from], from, to);
    ReplaceAbsent(x, from, to);
    ReplaceAbsent(y, from, to);
  }

  /** One colon between two pieces without colons is dropped. */
  lemma RemoveBetween(x: string, y: string, c: char)
    requires c !in x && c !in y
    ensures RemoveChar(x + [c] + y, c) == x + y
  {
    var xc := x + [c];
    RemoveAppend(xc, y, c);
    RemoveAppend(x, [c], c);
    RemoveAbsent(x, c);
    RemoveAbsent(y, c);
    assert RemoveChar([c], c) == [] by {
      assert [c][1..] == [];
    }
    assert RemoveChar(xc, c) == x + [];
    assert x + [] == x;
  }

  /** A name of the generated shape `<x>:<y> <z>`, whose pieces have neither colons nor
      spaces, is published under `<x><y>_<z>`. */
  lemma TopicOfGeneratedShape(base: string, x: string, y: string, z: string)
    requires ':' !in x && ':' !in y && ':' !in z && ' ' !in x && ' ' !in y && ' ' !in z
    ensures TopicPrefix(base, x + [':'] + y + [' '] + z) == base + "/devices/" + (x + y + ['_'] + z)
  {
    ReplaceBetween(x + [':'] + y, z, ' ', '_');
    assert x + [':'] + y + ['_'] + z == x + [':'] + (y + ['_'] + z);
    RemoveBetween(x, y + ['_'] + z, ':');
    assert x + (y + ['_'] + z) == x + y + ['_'] + z;
  }

  /** The generated-name example: `GPS:No Station-123456` is published under
      `GPSNo_Station-123456`. */
  lemma TopicPrefixExample(base: string, name: string)
    requires name == "GPS:No Station-123456"
    ensures TopicPrefix(base, name) == base + "/devices/GPSNo_Station-123456"
  {
    var x, y, z := "GPS", "No", "Station-123456";
    ExamplePieces(name, x, y, z);
    TopicOfGeneratedShape(base, x, y, z);
  }

  lemma ExamplePieces(name: string, x: string, y: string, z: string)
    requires name == "GPS:No Station-123456" && x == "GPS" && y == "No" && z == "Station-123456"
    ensures ':' !in x && ':' !in y && ':' !in z && ' ' !in x && ' ' !in y && ' ' !in z
    ensures x + [':'] + y + [' '] + z == name
    ensures x + y + ['_'] + z == "GPSNo_Station-123456"
  {
  }

  /** Visiting the known field at position `|done|` of a list without duplicates cuts
      out exactly that position. */
  lemma VisitAt(done: seq<Field>, todo: seq<Field>)
    requires NoDup(done + todo) && todo != [] && Known(todo[0])
    ensures Visit(done + todo, todo[0]) == done + todo[1..]
    ensures NoDup(done + todo[1..])
  {
    var fields := done + todo;
    var f := todo[0];
    assert fields[|done|] == f;
    assert fields[..|done|] == done;
    RemoveFirstAt(fields, f, |done|);
    assert fields[|done| + 1..] == todo[1..];
  }

  /** The loop from position `|done|`, over a list without duplicates whose first
      `|done|` entries were already passed, leaves `done` and the survivors of the rest
      and visits the reference's visited fields. */
  lemma {:induction false} SweepFrom(done: seq<Field>, todo: seq<Field>)
    requires NoDup(done + todo)
    ensures Remaining(done + todo, |done|) == done + Survivors(todo)
    ensures VisitOrder(done + todo, |done|) == Visited(todo)
    decreases |todo|
  {
    if todo == [] {
      assert done + todo == done;
    } else if !Known(todo[0]) {
      assert (done + [todo[0]]) + todo[1..] == done + todo;
      SweepFrom(done + [todo[0]], todo[1..]);
      UnknownStep(done, todo);
    } else {
      VisitAt(done, todo);
      if |todo| == 1 {
        assert done + todo[1..] == done;
      } else {
        assert (done + [todo[1]]) + todo[2..] == done + todo[1..];
        SweepFrom(done + [todo[1]], todo[2..]);
        KnownStep(done, todo);
      }
    }
  }

  /** An unknown field is visited and stays where it is. */
  lemma UnknownStep(done: seq<Field>, todo: seq<Field>)
    requires todo != [] && !Known(todo[0])
    requires Remaining(done + todo, |done| + 1) == (done + [todo[0]]) + Survivors(todo[1..])
    requires VisitOrder(done + todo, |done| + 1) == Visited(todo[1..])
    ensures Remaining(done + todo, |done|) == done + Survivors(todo)
    ensures VisitOrder(done + todo, |done|) == Visited(todo)
  {
    var fields := done + todo;
    assert fields[|done|] == todo[0];
    assert Visit(fields, todo[0]) == fields;
    assert Survivors(todo) == [todo[0]] + Survivors(todo[1..]);
    Associate(done, [todo[0]], Survivors(todo[1..]));
  }

  /** A known field is visited and removed, and its successor is passed over. */
  lemma KnownStep(done: seq<Field>, todo: seq<Field>)
    requires |todo| >= 2 && Known(todo[0])
    requires Visit(done + todo, todo[0]) == done + todo[1..]
    requires Remaining(done + todo[1..], |done| + 1) == (done + [todo[1]]) + Survivors(todo[2..])
    requires VisitOrder(done + todo[1..], |done| + 1) == Visited(todo[2..])
    ensures Remaining(done + todo, |done|) == done + Survivors(todo)
    ensures VisitOrder(done + todo, |done|) == Visited(todo)
  {
    var fields := done + todo;
    assert fields[|done|] == todo[0];
    assert Survivors(todo) == [todo[1]] + Survivors(todo[2..]);
    Associate(done, [todo[1]], Survivors(todo[2..]));
  }

  /** The whole sweep, from the start of a list without duplicates. */
  lemma SweepSpec(fields: seq<Field>)
    requires NoDup(fields)
    ensures Remaining(fields, 0) == Survivors(fields)
    ensures VisitOrder(fields, 0) == Visited(fields)
  {
    assert [] + fields == fields;
    SweepFrom([], fields);
    assert [] + Survivors(fields) == Survivors(fields);
  }

  /** What survives is a sub-list: every survivor was dirty, and every unknown field
      survives. */
  lemma {:induction false} SurvivorsSpec(fields: seq<Field>)
    ensures forall g :: g in Survivors(fields) ==> g in fields
    ensures forall g :: g in fields && !Known(g) ==> g in Survivors(fields)
    ensures |Survivors(fields)| <= |fields|
    ensures fields != [] && Known(fields[0]) ==> |Survivors(fields)| < |fields|
    decreases |fields|
  {
    if fields != [] {
      if !Known(fields[0]) || |fields| == 1 {
        SurvivorsSpec(fields[1..]);
      } else {
        SurvivorsSpec(fields[2..]);
        assert fields == [fields[0], fields[1]] + fields[2..];
      }
    }
  }

  /** Every visited field was dirty. */
  lemma {:induction false} VisitedSub(fields: seq<Field>)
    ensures forall g :: g in Visited(fields) ==> g in fields
    decreases |fields|
  {
    if fields != [] {
      if !Known(fields[0]) || |fields| == 1 {
        VisitedSub(fields[1..]);
      } else {
        VisitedSub(fields[2..]);
        assert fields == [fields[0], fields[1]] + fields[2..];
      }
    }
  }

  /** In a list without duplicates, a known field the sweep visits does not stay dirty. */
  lemma {:induction false} VisitedKnownGone(fields: seq<Field>)
    requires NoDup(fields)
    ensures forall g :: g in Visited(fields) && Known(g) ==> g !in Survivors(fields)
    decreases |fields|
  {
    if fields != [] {
      if !Known(fields[0]) {
        NoDupTail(fields, 1);
        VisitedKnownGone(fields[1..]);
      } else if |fields| >= 2 {
        var rest := fields[2..];
        NoDupTail(fields, 2);
        VisitedKnownGone(rest);
        VisitedSub(rest);
        SurvivorsSpec(rest);
        assert fields[0] != fields[1];
      }
    }
  }

  /** A known field stays dirty only when it came right after a visited known field, whose
      removal moved it into the visited place. */
  lemma {:induction false} KnownSurvivorSkipped(fields: seq<Field>)
    ensures forall g :: g in Survivors(fields) && Known(g) ==>
      exists i :: 1 <= i < |fields| && fields[i] == g && Known(fields[i - 1]) && fields[i - 1] in Visited(fields)
    decreases |fields|
  {
    if fields != [] {
      var o := if !Known(fields[0]) || |fields| == 1 then 1 else 2;
      var rest := fields[o..];
      KnownSurvivorSkipped(rest);
      forall g | g in Survivors(fields) && Known(g)
        ensures exists i :: 1 <= i < |fields| && fields[i] == g && Known(fields[i - 1]) && fields[i - 1] in Visited(fields)
      {
        if o == 2 && g == fields[1] {
          assert fields[1 - 1] in Visited(fields);
        } else {
          assert g in Survivors(rest);
          var i :| 1 <= i < |rest| && rest[i] == g && Known(rest[i - 1]) && rest[i - 1] in Visited(rest);
          assert fields[i + o] == g && fields[i + o - 1] == rest[i - 1];
        }
      }
    }
  }

  /** With known fields only, the sweep removes the entries at even positions and leaves
      exactly those at odd positions: half the list, rounded down. */
  lemma {:induction false} SurvivorsOfKnown(fields: seq<Field>)
    requires forall k :: 0 <= k < |fields| ==> Known(fields[k])
    ensures |Survivors(fields)| == |fields| / 2
    ensures forall k :: 0 <= k < |fields| / 2 ==> Survivors(fields)[k] == fields[2 * k + 1]
    decreases |fields|
  {
    if |fields| >= 2 {
      var rest := fields[2..];
      assert forall k :: 0 <= k < |rest| ==> rest[k] == fields[k + 2];
      SurvivorsOfKnown(rest);
      forall k | 0 < k < |fields| / 2 ensures Survivors(fields)[k] == fields[2 * k + 1] {
        assert Survivors(fields)[k] == Survivors(rest)[k - 1];
      }
    }
  }

  /** The three-entry list of a tag that moved and arrived: the sweep removes `position`
      and `updated_at` and skips `target_point`, which stays dirty. */
  lemma SkipExample()
    ensures Remaining([Position, TargetPoint, UpdatedAt], 0) == [TargetPoint]
  {
    var fields := [Position, TargetPoint, UpdatedAt];
    SweepSpec(fields);
    assert fields[2..] == [UpdatedAt];
  }

  /** Each sent message is published under the station's topic root. */
  lemma {:induction false} SentForTopics(prefix: string, v: StationView, fields: seq<Field>)
    ensures forall k :: 0 <= k < |SentFor(prefix, v, fields)| ==> prefix <= SentFor(prefix, v, fields)[k].topic
  {
    if fields != [] {
      SentForTopics(prefix, v, fields[1..]);
      var head: seq<Message> := FieldMessages(prefix, v, fields[0]);
      var tail: seq<Message> := SentFor(prefix, v, fields[1..]);
      forall k | 0 <= k < |head + tail| ensures prefix <= (head + tail)[k].topic {
        if k >= |head| { assert (head + tail)[k] == tail[k - |head|]; }
      }
    }
  }

  /** Without a connection, without a client, or with a clean station, nothing is sent and
      nothing changes; otherwise at least the snapshot and the stamp are sent, last. */
  lemma PublishGuard(connected: bool, hasClient: bool, base: string, v: StationView, now: string)
    ensures var r := Publish(connected, hasClient, base, v, now);
      (r.sent == [] <==> !connected || !hasClient || v.updatedFields == [])
    ensures var r := Publish(connected, hasClient, base, v, now);
      r.sent == [] ==> r.after == v
    ensures var r := Publish(connected, hasClient, base, v, now);
      r.sent != [] ==>
        && |r.sent| >= 2
        && r.sent[|r.sent| - 2] == Message(TopicPrefix(base, v.name) + "/dev/json", SnapshotJson(AsDict(r.after)))
        && r.sent[|r.sent| - 1] == Message(TopicPrefix(base, v.name) + "/dev/updated_at", Str(now))
  {
  }

  /** A publish of a dirty station with a connected client stamps `updated_at` first (so
      `updated_at` is dirty during the sweep), changes nothing but that stamp and the
      dirty list, leaves the sweep's survivors dirty, sends the visited fields' messages,
      all under the station's topic root, and keeps the dirty list free of duplicates. */
  lemma PublishSpec(connected: bool, hasClient: bool, base: string, v: StationView, now: string)
    requires connected && hasClient && v.updatedFields != [] && NoDup(v.updatedFields)
    ensures var r := Publish(connected, hasClient, base, v, now);
      var fields := Mark(v.updatedFields, UpdatedAt);
      var stamped := v.(updatedAt := Some(now), updatedFields := fields);
      var prefix := TopicPrefix(base, v.name);
      && r.after == stamped.(updatedFields := Survivors(fields))
      && r.sent == SentFor(prefix, stamped, Visited(fields)) + r.sent[|r.sent| - 2..]
      && (forall k :: 0 <= k < |r.sent| ==> prefix <= r.sent[k].topic)
      && NoDup(r.after.updatedFields)
  {
    var fields := Mark(v.updatedFields, UpdatedAt);
    var stamped := v.(updatedAt := Some(now), updatedFields := fields);
    var prefix := TopicPrefix(base, v.name);
    SweepSpec(fields);
    SentForTopics(prefix, stamped, Visited(fields));
    NoDupSurvivors(fields);
    var r := Publish(connected, hasClient, base, v, now);
    var body := SentFor(prefix, stamped, Visited(fields));
    assert r.sent[|r.sent| - 2..] == r.sent[|body|..];
    forall k | 0 <= k < |r.sent| ensures prefix <= r.sent[k].topic {
      if k < |body| {
        assert r.sent[k] == body[k];
      }
    }
  }

  /** The survivors of a list without duplicates have none either. */
  lemma {:induction false} NoDupSurvivors(fields: seq<Field>)
    requires NoDup(fields)
    ensures NoDup(Survivors(fields))
    decreases |fields|
  {
    if fields == [] {
    } else if !Known(fields[0]) {
      NoDupTail(fields, 1);
      NoDupSurvivors(fields[1..]);
      SurvivorsSpec(fields[1..]);
      NoDupCons(fields[0], Survivors(fields[1..]));
    } else if |fields| >= 2 {
      NoDupTail(fields, 2);
      NoDupSurvivors(fields[2..]);
      SurvivorsSpec(fields[2..]);
      NoDupCons(fields[1], Survivors(fields[2..]));
    }
  }

  /** A suffix of a list without duplicates has none, and holds none of the entries cut off. */
  lemma NoDupTail(fields: seq<Field>, o: nat)
    requires NoDup(fields) && o <= |fields|
    ensures NoDup(fields[o..])
    ensures forall k :: 0 <= k < o ==> fields[k] !in fields[o..]
  {
    forall i, j | 0 <= i < j < |fields[o..]| ensures fields[o..][i] != fields[o..][j] {
      assert fields[o..][i] == fields[i + o] && fields[o..][j] == fields[j + o];
    }
    forall k | 0 <= k < o ensures fields[k] !in fields[o..] {
      forall i | 0 <= i < |fields[o..]| ensures fields[o..][i] != fields[k] {
        assert fields[o..][i] == fields[i + o];
      }
    }
  }

  /** A new head that is absent from a list without duplicates keeps it so. */
  lemma NoDupCons(h: Field, t: seq<Field>)
    requires NoDup(t) && h !in t
    ensures NoDup([h] + t)
  {
    var s := [h] + t;
    forall i, j | 0 <= i < j < |s| ensures s[i] != s[j] {
      assert s[j] == t[j - 1];
      if i > 0 {
        assert s[i] == t[i - 1];
      }
    }
  }

  /** A station whose only pending field is `updated_at` (what a flush of `[x]` leaves,
      once `x` is known and removed and the stamp is skipped) is clean after the next
      publish. */
  lemma CleanAfterStampOnly(base: string, v: StationView, now: string)
    requires v.updatedFields == [UpdatedAt]
    ensures Publish(true, true, base, v, now).after.updatedFields == []
  {
    SweepSpec([UpdatedAt]);
  }

  /** A flush of a single known field other than `updated_at` leaves exactly the stamp
      dirty: the stamp is appended after it and skipped. */
  lemma OneFieldLeavesStamp(base: string, v: StationView, now: string)
    requires |v.updatedFields| == 1 && Known(v.updatedFields[0]) && v.updatedFields[0] != UpdatedAt
    ensures Publish(true, true, base, v, now).after.updatedFields == [UpdatedAt]
  {
    var fields := v.updatedFields + [UpdatedAt];
    SweepSpec(fields);
    assert fields[2..] == [];
  }

  /** The `match` reads no dirty list. */
  lemma FieldMessagesIgnoreDirty(prefix: string, v: StationView, fields: seq<Field>, f: Field)
    ensures FieldMessages(prefix, v.(updatedFields := fields), f) == FieldMessages(prefix, v, f)
  {
  }

  /** One turn of the loop: visiting `fields[i]` and moving on keeps what the loop will
      leave, and moves the visited field's messages from what is yet to be sent to what
      was sent. */
  lemma SweepStep(fields: seq<Field>, i: nat, prefix: string, v: StationView, sent: seq<Message>)
    requires i < |fields|
    ensures Remaining(Visit(fields, fields[i]), i + 1) == Remaining(fields, i)
    ensures (sent + FieldMessages(prefix, v, fields[i])) + SentFor(prefix, v, VisitOrder(Visit(fields, fields[i]), i + 1))
      == sent + SentFor(prefix, v, VisitOrder(fields, i))
  {
    var rest := VisitOrder(Visit(fields, fields[i]), i + 1);
    assert VisitOrder(fields, i) == [fields[i]] + rest;
    SentForCons(prefix, v, fields[i], rest);
    Associate(sent, FieldMessages(prefix, v, fields[i]), SentFor(prefix, v, rest));
  }

  /** The messages of a run are its first field's, then the rest's. */
  lemma SentForCons(prefix: string, v: StationView, f: Field, rest: seq<Field>)
    ensures SentFor(prefix, v, [f] + rest) == FieldMessages(prefix, v, f) + SentFor(prefix, v, rest)
  {
    assert ([f] + rest)[0] == f && ([f] + rest)[1..] == rest;
  }

  // ------------------------------------------------------------ the service

  /** `MqttService` with the paho client reduced to a flag and a log of publishes. */
  class MqttService {
    const baseTopic: string
    var connected: bool
    var hasClient: bool
    var published: seq<Message>

    constructor (baseTopic: string, connected: bool, hasClient: bool)
      ensures this.baseTopic == baseTopic && this.connected == connected && this.hasClient == hasClient
      ensures published == []
    {
      this.baseTopic := baseTopic;
      this.connected := connected;
      this.hasClient := hasClient;
      published := [];
    }

    /** One case of the `match`: publish what the visited field's case publishes. Reading
      `station.created_at` goes through the getter, which takes `"created_at"` out of the
      dirty list. */
    method PublishField(station: Station, prefix: string, field: Field)
      requires station.Valid()
      modifies this`published, station`updatedFields
      ensures station.Valid()
      ensures published == old(published) + FieldMessages(prefix, old(station.View()), field)
      ensures station.View() == old(station.View()).(updatedFields :=
        if field == CreatedAt then RemoveFirst(old(station.updatedFields), CreatedAt) else old(station.updatedFields))
    {
      match field {
        case MacAddress =>
          published := published + [Message(prefix + "/mac_address", Str(station.macAddress))];
        case Name =>
          published := published + [Message(prefix + "/name", Str(station.name))];
        case TypeField =>
          published := published + [Message(prefix + "/uwb/type", Str(TypeName(station.deviceType)))];
        case ClusterName =>
          var name := if station.clusterName.None? then "None" else station.clusterName.value;
          published := published + [Message(prefix + "/uwb/cluster/name", Str(name))];
        case ClusterStations =>
          published := published + [Message(prefix + "/uwb/cluster/stations", MacList(MacsOf(station.clusterStations)))];
        case Randomizer =>
          published := published + [Message(prefix + "/dev/randomizer", Number(station.randomizer))];
        case Position =>
          var pos := station.position;
          published := published + [Message(prefix + "/dev/position/x", Number(pos.x))];
          published := published + [Message(prefix + "/dev/position/y", Number(pos.y))];
        case TargetPoint =>
          var target := station.targetPoint;
          if station.deviceType == Tag {
            published := published + [Message(prefix + "/dev/target_point/x", Number(target.x))];
            published := published + [Message(prefix + "/dev/target_point/y", Number(target.y))];
          }
        case RangingData =>
          published := published + [Message(prefix + "/uwb/ranging", RangingJson(station.rangingData))];
        case CreatedAt =>
          var created := station.GetCreatedAt();
          published := published + [Message(prefix + "/dev/created_at", Str(created))];
        case UpdatedAt =>
          published := published + [Message(prefix + "/dev/updated_at", Stamp(station.updatedAt))];
        case Other(_) =>
      }
    }

    /** The `for field in updated_fields` loop of `publish_station`: it publishes each
      visited field's case, read from the station as it is (which differs from the entry
      state only in the dirty list), and removes each known field. */
    method Sweep(station: Station, prefix: string)
      requires station.Valid()
      modifies this`published, station`updatedFields
      ensures station.Valid()
      ensures station.View() == old(station.View()).(updatedFields := Remaining(old(station.updatedFields), 0))
      ensures published == old(published) + SentFor(prefix, old(station.View()), VisitOrder(old(station.updatedFields), 0))
    {
      ghost var v0 := station.View();
      ghost var p0 := published;
      ghost var f0 := station.updatedFields;
      var i := 0;
      while i < |station.updatedFields|
        invariant station.Valid()
        invariant station.View() == v0.(updatedFields := station.updatedFields)
        invariant Remaining(station.updatedFields, i) == Remaining(f0, 0)
        invariant published + SentFor(prefix, v0, VisitOrder(station.updatedFields, i)) ==
          p0 + SentFor(prefix, v0, VisitOrder(f0, 0))
        decreases |station.updatedFields| - i
      {
        ghost var before := station.updatedFields;
        ghost var sentBefore := published;
        var field := station.updatedFields[i];
        PublishField(station, prefix, field);
        FieldMessagesIgnoreDirty(prefix, v0, before, field);
        var fieldUpdated := Known(field);
        if fieldUpdated {
          station.RemoveFromUpdatedFields(field);
        }
        SweepStep(before, i, prefix, v0, sentBefore);
        i := i + 1;
      }
      assert VisitOrder(station.updatedFields, i) == [];
    }

    /** `publish_station`; `now` is the `datetime.now()` stamp. */
    method PublishStation(station: Station, now: string)
      requires station.Valid()
      modifies this`published, station`updatedAt, station`updatedFields
      ensures station.Valid()
      ensures station.View() == Publish(connected, hasClient, baseTopic, old(station.View()), now).after
      ensures published == old(published) + Publish(connected, hasClient, baseTopic, old(station.View()), now).sent
    {
      if !connected || !hasClient {
        return;
      }
      ghost var v := station.View();
      var prefix := TopicPrefix(baseTopic, station.name);
      if |station.updatedFields| > 0 {
        station.SetUpdatedAt(Some(now));
        ghost var stamped := station.View();
        ghost var p0 := published;
        Sweep(station, prefix);
        ghost var body := SentFor(prefix, stamped, VisitOrder(stamped.updatedFields, 0));
        var json := Message(prefix + "/dev/json", SnapshotJson(AsDict(station.View())));
        var stamp := Message(prefix + "/dev/updated_at", Stamp(station.updatedAt));
        published := published + [json];
        published := published + [stamp];
        AppendTwo(p0, body, json, stamp);
        assert Publish(connected, hasClient, baseTopic, v, now) == Published(station.View(), body + [json, stamp]);
      }
    }

    /** `publish_status`: without a connection or a client nothing happens; otherwise each
      station is published in turn, the k-th with stamp `clock(k)`. */
    method PublishStatus(stations: seq<Station>, clock: nat -> string)
      requires forall j :: 0 <= j < |stations| ==> stations[j].Valid()
      requires forall j, k :: 0 <= j < k < |stations| ==> stations[j] != stations[k]
      modifies this`published, stations
      ensures forall j :: 0 <= j < |stations| ==> stations[j].Valid()
      ensures forall j :: 0 <= j < |stations| ==>
        stations[j].View() == Publish(connected, hasClient, baseTopic, old(stations[j].View()), clock(j)).after
      ensures published == old(published) +
        StatusSent(connected, hasClient, baseTopic, old(ViewsOf(stations)), clock)
    {
      ghost var before := ViewsOf(stations);
      if !connected || !hasClient {
        NothingSent(connected, hasClient, baseTopic, before, clock);
        return;
      }
      PublishEach(stations, clock);
    }

    /** The loop of `publish_status`, once the guard has passed. */
    method PublishEach(stations: seq<Station>, clock: nat -> string)
      requires connected && hasClient
      requires forall j :: 0 <= j < |stations| ==> stations[j].Valid()
      requires forall j, k :: 0 <= j < k < |stations| ==> stations[j] != stations[k]
      modifies this`published, stations
      ensures forall j :: 0 <= j < |stations| ==> stations[j].Valid()
      ensures forall j :: 0 <= j < |stations| ==>
        stations[j].View() == Publish(true, true, baseTopic, old(stations[j].View()), clock(j)).after
      ensures published == old(published) + StatusSent(true, true, baseTopic, old(ViewsOf(stations)), clock)
    {
      ghost var before := ViewsOf(stations);
      ghost var after := seq(|before|, j requires 0 <= j < |before| => Publish(true, true, baseTopic, before[j], clock(j)).after);
      ghost var sends := Sends(true, true, baseTopic, before, clock);
      ghost var p0 := published;
      var i := 0;
      while i < |stations|
        invariant 0 <= i <= |stations|
        invariant forall j :: 0 <= j < |stations| ==> stations[j].Valid()
        invariant forall j :: 0 <= j < |stations| ==> stations[j].View() == if j < i then after[j] else before[j]
        invariant published == p0 + Concat(sends[..i])
      {
        PublishNext(stations, clock, i, before, after, sends, p0);
        i := i + 1;
      }
      TakeAll(sends);
      forall j | 0 <= j < |stations|
        ensures stations[j].View() == Publish(true, true, baseTopic, old(stations[j].View()), clock(j)).after
      {
        assert old(stations[j].View()) == before[j];
      }
    }

    /** One iteration of that loop: the i-th station is published; `after` and `sends`
      are what each station becomes and sends. */
    method PublishNext(stations: seq<Station>, clock: nat -> string, i: nat,
                       ghost before: seq<StationView>, ghost after: seq<StationView>,
                       ghost sends: seq<seq<Message>>, ghost p0: seq<Message>)
      requires connected && hasClient
      requires i < |stations| == |before| == |after| == |sends|
      requires forall j, k :: 0 <= j < k < |stations| ==> stations[j] != stations[k]
      requires forall j :: 0 <= j < |stations| ==> stations[j].Valid()
      requires forall j :: 0 <= j < |stations| ==> stations[j].View() == if j < i then after[j] else before[j]
      requires after[i] == Publish(true, true, baseTopic, before[i], clock(i)).after
      requires sends[i] == Publish(true, true, baseTopic, before[i], clock(i)).sent
      requires published == p0 + Concat(sends[..i])
      modifies this`published, stations
      ensures forall j :: 0 <= j < |stations| ==> stations[j].Valid()
      ensures forall j :: 0 <= j < |stations| ==> stations[j].View() == if j < i + 1 then after[j] else before[j]
      ensures published == p0 + Concat(sends[..i + 1])
    {
      var station := stations[i];
      ghost var sentBefore := published;
      PublishStation(station, clock(i));
      assert published == sentBefore + sends[i];
      Associate(p0, Concat(sends[..i]), sends[i]);
      forall j | 0 <= j < |stations|
        ensures stations[j].Valid() && stations[j].View() == if j < i + 1 then after[j] else before[j]
      {
        if j != i {
          assert stations[j] != station;
        }
      }
      ConcatSnoc(sends, i);
    }
  }

  /** Without a connection or a client, `publish_status` sends nothing at all. */
  lemma NothingSent(connected: bool, hasClient: bool, base: string, views: seq<StationView>, clock: nat -> string)
    requires !connected || !hasClient
    ensures StatusSent(connected, hasClient, base, views, clock) == []
  {
    var parts := Sends(connected, hasClient, base, views, clock);
    forall k | 0 <= k < |parts| ensures parts[k] == [] {
      assert parts[k] == Publish(connected, hasClient, base, views[k], clock(k)).sent;
    }
    AllEmpty(parts);
  }
}
