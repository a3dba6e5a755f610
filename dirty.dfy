/** The ordered list of dirty field names a station keeps (`_updated_fields`):
    every setter appends its name only when it is absent, and `list.remove`
    takes the first occurrence out. */
module DirtyFields {
  import opened Seqs

  /** A dirty-list entry: the name of a field with a setter, `ranging_data` (which
      `add_distance_to_anchor` marks), or any other name (which no code of the station
      appends, but which the publisher has a branch for). `Other` stands only for a
      name that is none of the eleven above: each of those has its own constructor,
      so that equal names are equal entries and the publisher's string match sees the
      same field; `WellFormed` states this. */
  datatype Field =
    | MacAddress | Name | TypeField | Position | Randomizer | ClusterName
    | TargetPoint | ClusterStations | RangingData | CreatedAt | UpdatedAt
    | Other(name: string)

  /** The string the source appends for each field. */
  function FieldName(f: Field): string {
    match f
    case MacAddress => "mac_address"
    case Name => "name"
    case TypeField => "device_type"
    case Position => "position"
    case Randomizer => "randomizer"
    case ClusterName => "cluster_name"
    case TargetPoint => "target_point"
    case ClusterStations => "cluster_stations"
    case RangingData => "ranging_data"
    case CreatedAt => "created_at"
    case UpdatedAt => "updated_at"
    case Other(name) => name
  }

  /** The entry is not an `Other` carrying one of the eleven named fields' names. */
  predicate WellFormed(f: Field) {
    f.Other? ==> f.name !in KnownNames
  }

  /** The names of the fields with their own constructor. */
  const KnownNames: set<string> := {"mac_address", "name", "device_type", "position", "randomizer", "cluster_name",
                                    "target_point", "cluster_stations", "ranging_data", "created_at", "updated_at"}

  /** Distinct well-formed entries have distinct names, so the list can be read as a list
      of names. */
  lemma NamesInjective(f: Field, g: Field)
    requires WellFormed(f) && WellFormed(g) && FieldName(f) == FieldName(g)
    ensures f == g
  {
  }

  /** No field name appears twice. */
  ghost predicate NoDup(fields: seq<Field>) {
    forall i, j :: 0 <= i < j < |fields| ==> fields[i] != fields[j]
  }

  /** What every setter does to the list before it writes its field:
      `if not f in fields: fields.append(f)`. */
  function Mark(fields: seq<Field>, f: Field): (r: seq<Field>)
    ensures f in r
    ensures forall g :: g in r <==> g in fields || g == f
    ensures |r| == if f in fields then |fields| else |fields| + 1
    ensures NoDup(fields) ==> NoDup(r)
  {
    if f in fields then fields else fields + [f]
  }

  /** `if f in fields: fields.remove(f)`: drop the first occurrence of `f`, if any. */
  function RemoveFirst(fields: seq<Field>, f: Field): (r: seq<Field>)
    ensures f !in fields ==> r == fields
    ensures f in fields ==> |r| == |fields| - 1
    ensures forall g :: g in r ==> g in fields
    ensures forall g :: g != f ==> (g in r <==> g in fields)
    ensures NoDup(fields) ==> NoDup(r) && f !in r
  {
    if fields == [] then []
    else if fields[0] == f then fields[1..]
    else
      var r := RemoveFirst(fields[1..], f);
      assert NoDup(fields) ==> NoDup(fields[1..]) && fields[0] !in fields[1..] by {
        if NoDup(fields) {
          forall k | 0 <= k < |fields[1..]| ensures fields[1..][k] != fields[0] {
            assert fields[1..][k] == fields[k + 1];
          }
        }
      }
      [fields[0]] + r
  }

  // ---------------------------------------------------------------- lemmas

  /** Removing cuts out exactly one position, the first that holds `f`, and
      keeps every other entry in its order. */
  lemma {:induction false} RemoveFirstAt(fields: seq<Field>, f: Field, i: nat)
    requires i < |fields| && fields[i] == f && f !in fields[..i]
    ensures RemoveFirst(fields, f) == fields[..i] + fields[i + 1..]
  {
    if i > 0 {
      var tail := fields[1..];
      assert fields[0] in fields[..i];
      assert f !in tail[..i - 1] by {
        assert tail[..i - 1] == fields[1..i];
      }
      RemoveFirstAt(tail, f, i - 1);
      calc {
        RemoveFirst(fields, f);
        [fields[0]] + RemoveFirst(tail, f);
        [fields[0]] + (tail[..i - 1] + tail[i..]);
        { assert tail[..i - 1] == fields[1..i]; assert tail[i..] == fields[i + 1..]; }
        [fields[0]] + (fields[1..i] + fields[i + 1..]);
        { Associate([fields[0]], fields[1..i], fields[i + 1..]); }
        ([fields[0]] + fields[1..i]) + fields[i + 1..];
        { assert fields[..i] == [fields[0]] + fields[1..i]; }
        fields[..i] + fields[i + 1..];
      }
    }
  }

  /** Removing a name from a list without duplicates a second time changes nothing. */
  lemma RemoveFirstTwice(fields: seq<Field>, f: Field)
    requires NoDup(fields)
    ensures RemoveFirst(RemoveFirst(fields, f), f) == RemoveFirst(fields, f)
  {
  }

  /** Two writes of the same field between flushes leave one entry: marking is idempotent
      and the second write does not change the length. */
  lemma MarkTwice(fields: seq<Field>, f: Field)
    ensures Mark(Mark(fields, f), f) == Mark(fields, f)
    ensures |Mark(Mark(fields, f), f)| == |Mark(fields, f)|
  {
  }

  /** Marking appends at the end; the entries already pending keep their positions. */
  lemma MarkKeepsOrder(fields: seq<Field>, f: Field)
    ensures Mark(fields, f)[..|fields|] == fields
  {
  }

  /** Removing a name and marking it again puts it at the end. */
  lemma {:induction false} RemoveThenMark(fields: seq<Field>, f: Field)
    requires NoDup(fields)
    ensures Mark(RemoveFirst(fields, f), f) == RemoveFirst(fields, f) + [f]
  {
  }
}
