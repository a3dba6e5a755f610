/** The row (de)serialiser of services/storage_service.py: the 11-column tuple of the
    `stations` table, the station built back from a row, the SQLite backend reduced to a
    log of the rows it was handed, and the backend dispatch. */
module Storage {
  import opened Wrappers
  import opened Text
  import opened DirtyFields
  import opened Stations
  import opened Seqs

  // ------------------------------------------------------------ the table

  /** One row of `stations`, in column order. */
  datatype Row = Row(
    mac: string, name: string, deviceType: string, clusterName: Option<string>,
    randomizer: real, updatedAt: Option<string>, createdAt: string,
    positionX: real, positionY: real, targetX: real, targetY: real)

  /** The columns of `CREATE TABLE stations`, in declaration order. */
  const Columns: seq<string> := ["mac_address", "name", "type", "cluster_name", "randomizer",
    "updated_at", "created_at", "position_x", "position_y", "target_x", "target_y"]

  /** A value bound to a `?` placeholder: TEXT, REAL or NULL. */
  datatype Cell = Text(text: string) | Real(number: real) | Null

  function OptText(s: Option<string>): Cell {
    if s.Some? then Text(s.value) else Null
  }

  /** The tuple handed to `execute`, one cell per placeholder. */
  function Values(r: Row): (cells: seq<Cell>)
    ensures |cells| == |Columns|
  {
    [Text(r.mac), Text(r.name), Text(r.deviceType), OptText(r.clusterName), Real(r.randomizer),
     OptText(r.updatedAt), Text(r.createdAt), Real(r.positionX), Real(r.positionY),
     Real(r.targetX), Real(r.targetY)]
  }

  /** Which station value each column stores, by column name. */
  function ColumnValue(v: StationView, column: string): Cell {
    if column == "mac_address" then Text(v.mac)
    else if column == "name" then Text(v.name)
    else if column == "type" then Text(TypeName(v.deviceType))
    else if column == "cluster_name" then OptText(v.clusterName)
    else if column == "randomizer" then Real(v.randomizer)
    else if column == "updated_at" then OptText(v.updatedAt)
    else if column == "created_at" then Text(v.createdAt)
    else if column == "position_x" then Real(v.position.x)
    else if column == "position_y" then Real(v.position.y)
    else if column == "target_x" then Real(v.targetPoint.x)
    else if column == "target_y" then Real(v.targetPoint.y)
    else Null
  }

  /** `_station_to_db_format`, on the station's state. */
  function RowOf(v: StationView): Row {
    Row(v.mac, v.name, TypeName(v.deviceType), v.clusterName, v.randomizer, v.updatedAt,
        v.createdAt, v.position.x, v.position.y, v.targetPoint.x, v.targetPoint.y)
  }

  /** The row of a station holds its values in the table's column order. */
  lemma RowInColumnOrder(v: StationView)
    ensures |Values(RowOf(v))| == |Columns|
    ensures forall k :: 0 <= k < |Columns| ==> Values(RowOf(v))[k] == ColumnValue(v, Columns[k])
  {
    var cells := Values(RowOf(v));
    assert cells[0] == ColumnValue(v, Columns[0]);
    assert cells[1] == ColumnValue(v, Columns[1]);
    assert cells[2] == ColumnValue(v, Columns[2]);
    assert cells[3] == ColumnValue(v, Columns[3]);
    assert cells[4] == ColumnValue(v, Columns[4]);
    assert cells[5] == ColumnValue(v, Columns[5]);
    assert cells[6] == ColumnValue(v, Columns[6]);
    assert cells[7] == ColumnValue(v, Columns[7]);
    assert cells[8] == ColumnValue(v, Columns[8]);
    assert cells[9] == ColumnValue(v, Columns[9]);
    assert cells[10] == ColumnValue(v, Columns[10]);
  }

  /** The row does not depend on the dirty list, which is not stored. */
  lemma RowOfIgnoresDirtyList(v: StationView, fields: seq<Field>)
    ensures RowOf(v.(updatedFields := fields)) == RowOf(v)
  {
  }

  // ------------------------------------------------------------ hydration

  /** The keyword arguments `_db_to_station` passes to `Station(...)`: everything but
      `created_at`, the type as its string. */
  function ArgsOf(r: Row): ConstructorArgs {
    ConstructorArgs(Some(r.mac), Some(r.name), Named(r.deviceType),
                    Some(Point(r.positionX, r.positionY)), Some(r.randomizer), r.clusterName,
                    Some(Point(r.targetX, r.targetY)), None)
  }

  /** `_db_to_station`: construct, then set `updated_at` and `created_at` through their
      setters; the constructor's exceptions propagate. */
  function Hydrate(r: Row, d: ConstructionDraws): Result<StationView> {
    match Construct(ArgsOf(r), d)
    case Failure(e) => Failure(e)
    case Success(v) =>
      var v1 := v.(updatedAt := r.updatedAt, updatedFields := Mark(v.updatedFields, UpdatedAt));
      Success(v1.(createdAt := r.createdAt, updatedFields := Mark(v1.updatedFields, CreatedAt)))
  }

  /** A type string is stored upper-case, as the member's own name. */
  lemma TypeNameUpper(t: DeviceType)
    ensures Upper(TypeName(t)) == TypeName(t)
  {
    var s := TypeName(t);
    assert forall i :: 0 <= i < |s| ==> 'A' <= s[i] <= 'Z';
  }

  /** Hydration raises exactly when the constructor does: for a type string that names no
      member in any letter case, or for a randomizer outside [0, 1], checked in that order. */
  lemma HydrateErrors(r: Row, d: ConstructionDraws)
    ensures Upper(r.deviceType) !in {"ANCHOR", "TAG", "NONE"} ==>
      Hydrate(r, d) == Failure(ValueError("Invalid device type: " + r.deviceType))
    ensures Upper(r.deviceType) in {"ANCHOR", "TAG", "NONE"} ==>
      (Hydrate(r, d).Failure? <==> !(0.0 <= r.randomizer <= 1.0))
  {
    ConstructErrors(ArgsOf(r), d);
  }

  /** The dirty list of a hydrated station: the constructor's fields, then `updated_at`
      and `created_at` from the two setters; `cluster_name` only for a non-empty name. */
  lemma HydratedDirtyFields(r: Row, d: ConstructionDraws)
    requires Hydrate(r, d).Success?
    ensures Hydrate(r, d).value.updatedFields ==
      [MacAddress, Name, Position, Randomizer]
      + (if Truthy(r.clusterName) then [ClusterName] else [])
      + [TargetPoint, UpdatedAt, CreatedAt]
    ensures NoDup(Hydrate(r, d).value.updatedFields)
  {
    var a := ArgsOf(r);
    var v := Construct(a, d).value;
    SettersAfterConstruct(a, d, v);
  }

  /** The constructor's dirty list for a position and a target but no creation time,
      followed by the `updated_at` and `created_at` setters. */
  lemma SettersAfterConstruct(a: ConstructorArgs, d: ConstructionDraws, v: StationView)
    requires Construct(a, d) == Success(v)
    requires a.position.Some? && a.targetPoint.Some? && !Truthy(a.createdAt)
    ensures Mark(Mark(v.updatedFields, UpdatedAt), CreatedAt) == [MacAddress, Name, Position, Randomizer]
      + (if Truthy(a.clusterName) then [ClusterName] else []) + [TargetPoint, UpdatedAt, CreatedAt]
    ensures NoDup(Mark(Mark(v.updatedFields, UpdatedAt), CreatedAt))
  {
    ArgsDirty(a, d);
    MarkStamps(v.updatedFields, if Truthy(a.clusterName) then [ClusterName] else []);
  }

  /** Both setters append to a dirty list that holds neither timestamp. */
  lemma MarkStamps(f: seq<Field>, c: seq<Field>)
    requires c == [] || c == [ClusterName]
    requires f == [MacAddress, Name, Position, Randomizer] + c + [TargetPoint] && NoDup(f)
    ensures Mark(Mark(f, UpdatedAt), CreatedAt) == [MacAddress, Name, Position, Randomizer] + c + [TargetPoint, UpdatedAt, CreatedAt]
    ensures NoDup(Mark(Mark(f, UpdatedAt), CreatedAt))
  {
    var head: seq<Field> := [MacAddress, Name, Position, Randomizer] + c;
    NoStamps(c);
    MarkAbsent(f, UpdatedAt);
    var f1 := f + [UpdatedAt];
    assert CreatedAt !in f1;
    MarkAbsent(f1, CreatedAt);
    Associate(head, [TargetPoint], [UpdatedAt]);
    Associate(head, [TargetPoint, UpdatedAt], [CreatedAt]);
    assert [TargetPoint] + [UpdatedAt] == [TargetPoint, UpdatedAt];
    assert [TargetPoint, UpdatedAt] + [CreatedAt] == [TargetPoint, UpdatedAt, CreatedAt];
  }

  /** The constructor's dirty list for a position and a target but no creation time. */
  lemma ArgsDirty(a: ConstructorArgs, d: ConstructionDraws)
    requires Construct(a, d).Success? && a.position.Some? && a.targetPoint.Some? && !Truthy(a.createdAt)
    ensures Construct(a, d).value.updatedFields == [MacAddress, Name, Position, Randomizer]
      + (if Truthy(a.clusterName) then [ClusterName] else []) + [TargetPoint]
    ensures NoDup(Construct(a, d).value.updatedFields)
  {
    ConstructDirtyFields(a, d);
    var c: seq<Field> := if Truthy(a.clusterName) then [ClusterName] else [];
    var head: seq<Field> := [MacAddress, Name, Position, Randomizer];
    assert [MacAddress, Name] + [Position] + [Randomizer] == head;
    var e: seq<Field> := [];
    assert head + c + [TargetPoint] + e == head + c + [TargetPoint];
  }

  lemma NoStamps(c: seq<Field>)
    requires c == [] || c == [ClusterName]
    ensures UpdatedAt !in [MacAddress, Name, Position, Randomizer] + c + [TargetPoint]
    ensures CreatedAt !in [MacAddress, Name, Position, Randomizer] + c + [TargetPoint]
  {
  }

  /** Marking a field that is not pending appends it. */
  lemma MarkAbsent(fields: seq<Field>, f: Field)
    requires NoDup(fields) && f !in fields
    ensures Mark(fields, f) == fields + [f]
    ensures NoDup(fields + [f])
  {
  }

  /** What a hydrated station holds, column by column: the type the string names, the
      position, the target and both timestamps as stored; the stored randomizer unless it
      is zero (falsy), which is redrawn; the cluster name only when it is non-empty; the
      stored MAC and name unless empty; no peers and no ranging data. */
  lemma HydratedValues(r: Row, d: ConstructionDraws)
    requires Hydrate(r, d).Success?
    ensures var w := Hydrate(r, d).value;
      && TypeName(w.deviceType) == Upper(r.deviceType)
      && w.position == Point(r.positionX, r.positionY) && w.targetPoint == Point(r.targetX, r.targetY)
      && w.updatedAt == r.updatedAt && w.createdAt == r.createdAt
      && w.randomizer == (if r.randomizer != 0.0 then r.randomizer else d.randomizer as real)
      && w.clusterName == (if Truthy(r.clusterName) then r.clusterName else None)
      && (r.mac != "" ==> w.mac == r.mac)
      && (r.name != "" ==> w.name == r.name)
      && w.clusterMacs == [] && w.rangingData == []
  {
    var a := ArgsOf(r);
    var v := Construct(a, d).value;
    ConstructFields(a, d, v);
    ConstructIdentity(a, d);
  }

  /** The round trip `_db_to_station(_station_to_db_format(s))` succeeds for a station
      whose randomizer is in range and gives back its type, position, target, timestamps,
      a non-zero randomizer, a non-empty MAC, name and cluster name; peers and ranging
      data are not stored. */
  lemma RoundTrip(v: StationView, d: ConstructionDraws)
    requires 0.0 <= v.randomizer <= 1.0
    ensures Hydrate(RowOf(v), d).Success?
    ensures var w := Hydrate(RowOf(v), d).value;
      && w.deviceType == v.deviceType
      && w.position == v.position && w.targetPoint == v.targetPoint
      && w.updatedAt == v.updatedAt && w.createdAt == v.createdAt
      && w.randomizer == (if v.randomizer != 0.0 then v.randomizer else d.randomizer as real)
      && w.clusterName == (if Truthy(v.clusterName) then v.clusterName else None)
      && (v.mac != "" ==> w.mac == v.mac)
      && (v.name != "" ==> w.name == v.name)
      && w.clusterMacs == [] && w.rangingData == []
  {
    var r := RowOf(v);
    RowHydrates(v, d);
    TypeNameUpper(v.deviceType);
    HydratedValues(r, d);
    TypeNameInjective(Hydrate(r, d).value.deviceType, v.deviceType);
  }

  /** A station's row names its type and holds a randomizer in range, so it hydrates. */
  lemma RowHydrates(v: StationView, d: ConstructionDraws)
    requires 0.0 <= v.randomizer <= 1.0
    ensures Hydrate(RowOf(v), d).Success?
  {
    var a := ArgsOf(RowOf(v));
    TypeNameUpper(v.deviceType);
    assert TypeNamed(TypeName(v.deviceType)) == Some(v.deviceType);
    assert ParseTypeArg(a.deviceType) == Success(v.deviceType);
    ConstructErrors(a, d);
  }

  lemma TypeNameInjective(s: DeviceType, t: DeviceType)
    requires TypeName(s) == TypeName(t)
    ensures s == t
  {
  }

  /** Storing a hydrated station and reading it back again is the identity on every
      stored column, once each column holds a value the constructor keeps. */
  lemma RowRoundTrip(r: Row, d: ConstructionDraws)
    requires Hydrate(r, d).Success?
    requires r.mac != "" && r.name != "" && r.randomizer != 0.0 && r.clusterName != Some("")
    requires Upper(r.deviceType) == r.deviceType
    ensures RowOf(Hydrate(r, d).value) == r
  {
    HydratedValues(r, d);
  }

  // ------------------------------------------------------------ the backend

  /** A store operation as the backend receives it: one `INSERT OR REPLACE` committed on
      its own, or a batch committed together. */
  datatype StoreOp = UpdateRow(row: Row) | SaveRows(rows: seq<Row>)

  /** The rows of a run of stations, in order. */
  function RowsOf(views: seq<StationView>): (rows: seq<Row>)
    ensures |rows| == |views|
    ensures forall k :: 0 <= k < |views| ==> rows[k] == RowOf(views[k])
  {
    seq(|views|, k requires 0 <= k < |views| => RowOf(views[k]))
  }

  /** The rows of a prefix one longer: one more row at the end. */
  lemma RowsOfSnoc(views: seq<StationView>, i: nat)
    requires i < |views|
    ensures RowsOf(views[..i + 1]) == RowsOf(views[..i]) + [RowOf(views[i])]
  {
  }

  /** A station after `_station_to_db_format` read its `created_at`. */
  function CreatedAtRead(v: StationView): StationView {
    v.(updatedFields := RemoveFirst(v.updatedFields, CreatedAt))
  }

  /** `SqliteStorage`, with the database replaced by the log of what was written. */
  class SqliteStorage {
    const dbPath: string
    var log: seq<StoreOp>

    constructor (dbPath: string)
      ensures this.dbPath == dbPath && log == []
    {
      this.dbPath := dbPath;
      log := [];
    }

    /** `_station_to_db_format`: the row of the station, read through the `created_at`
      getter, which takes `"created_at"` out of the dirty list. */
    static method StationToDbFormat(station: Station) returns (row: Row)
      requires station.Valid()
      modifies station`updatedFields
      ensures station.Valid()
      ensures row == RowOf(old(station.View()))
      ensures station.View() == CreatedAtRead(old(station.View()))
    {
      var position := station.position;
      var targetPoint := station.targetPoint;
      var created := station.GetCreatedAt();
      row := Row(station.macAddress, station.name, TypeName(station.deviceType), station.clusterName,
                 station.randomizer, station.updatedAt, created,
                 position.x, position.y, targetPoint.x, targetPoint.y);
    }

    /** `_db_to_station`: a fresh station with the hydrated state, or the exception. */
    static method DbToStation(row: Row, d: ConstructionDraws) returns (r: Result<Station>)
      ensures r.Success? <==> Hydrate(row, d).Success?
      ensures r.Failure? ==> r.error == Hydrate(row, d).error
      ensures r.Success? ==> fresh(r.value) && r.value.Valid() && r.value.View() == Hydrate(row, d).value
    {
      var made := Station.Create(ArgsOf(row), d);
      if made.Failure? {
        return Failure(made.error);
      }
      var station := made.value;
      station.SetUpdatedAt(row.updatedAt);
      station.SetCreatedAt(row.createdAt);
      return Success(station);
    }

    /** `update_station`: write one row. */
    method UpdateStation(station: Station)
      requires station.Valid()
      modifies this`log, station`updatedFields
      ensures station.Valid()
      ensures log == old(log) + [UpdateRow(RowOf(old(station.View())))]
      ensures station.View() == CreatedAtRead(old(station.View()))
    {
      var row := StationToDbFormat(station);
      log := log + [UpdateRow(row)];
    }

    /** `save_stations`: write every station's row, in order, as one batch. A station
      listed twice is written twice with the same row. */
    method SaveStations(stations: seq<Station>)
      requires forall j :: 0 <= j < |stations| ==> stations[j].Valid()
      modifies this`log, stations
      ensures forall j :: 0 <= j < |stations| ==> stations[j].Valid()
      ensures forall j :: 0 <= j < |stations| ==> stations[j].clusterStations == old(stations[j].clusterStations)
      ensures forall j :: 0 <= j < |stations| ==> stations[j].View() == CreatedAtRead(old(stations[j].View()))
      ensures log == old(log) + [SaveRows(RowsOf(old(ViewsOf(stations))))]
    {
      ghost var before := ViewsOf(stations);
      var rows: seq<Row> := [];
      var i := 0;
      while i < |stations|
        invariant 0 <= i <= |stations|
        invariant forall j :: 0 <= j < |stations| ==> stations[j].Valid()
        invariant forall j :: 0 <= j < |stations| ==> stations[j].clusterStations == old(stations[j].clusterStations)
        invariant forall j :: 0 <= j < |stations| ==>
          stations[j].View() == if stations[j] in stations[..i] then CreatedAtRead(before[j]) else before[j]
        invariant rows == RowsOf(before[..i])
        invariant log == old(log)
      {
        var station := stations[i];
        ghost var current := station.View();
        var row := StationToDbFormat(station);
        RowOfIgnoresDirtyList(before[i], current.updatedFields);
        assert current == before[i].(updatedFields := current.updatedFields);
        RemoveFirstTwice(before[i].updatedFields, CreatedAt);
        forall j | 0 <= j < |stations|
          ensures stations[j].View() ==
            if stations[j] in stations[..i + 1] then CreatedAtRead(before[j]) else before[j]
        {
          TakeOneMore(stations, i);
        }
        rows := rows + [row];
        RowsOfSnoc(before, i);
        i := i + 1;
      }
      TakeAll(stations);
      TakeAll(before);
      log := log + [SaveRows(rows)];
    }
  }

  /** The backends `get_storage_instance` can return; the JSON one is commented out. */
  datatype Backend = Sqlite(dbPath: string)

  /** `get_storage_instance`'s choice: SQLite for `"sqlite"` in any letter case, and
      ValueError naming the type for anything else (`"json"` included). */
  function StorageChoice(storageType: string, dbPath: string, jsonPath: string): (r: Result<Backend>)
    ensures r.Success? <==> Lower(storageType) == "sqlite"
    ensures r.Success? ==> r.value == Sqlite(dbPath)
    ensures r.Failure? ==> r.error == ValueError("Unknown storage type: " + storageType
      + ". Supported types are 'sqlite' and 'json'.")
  {
    if Lower(storageType) == "sqlite" then Success(Sqlite(dbPath))
    else Failure(ValueError("Unknown storage type: " + storageType + ". Supported types are 'sqlite' and 'json'."))
  }

  /** The choice ignores the case of ASCII letters. */
  lemma StorageChoiceIgnoresCase(storageType: string, dbPath: string, jsonPath: string)
    ensures StorageChoice(Upper(storageType), dbPath, jsonPath).Success? <==>
      StorageChoice(storageType, dbPath, jsonPath).Success?
  {
    LowerUpper(storageType);
  }

  /** `get_storage_instance`: a fresh SQLite backend on `dbPath`, or the ValueError. */
  method GetStorageInstance(storageType: string, dbPath: string, jsonPath: string) returns (r: Result<SqliteStorage>)
    ensures r.Success? <==> StorageChoice(storageType, dbPath, jsonPath).Success?
    ensures r.Failure? ==> r.error == StorageChoice(storageType, dbPath, jsonPath).error
    ensures r.Success? ==> fresh(r.value) && r.value.dbPath == dbPath && r.value.log == []
  {
    if Lower(storageType) == "sqlite" {
      var s := new SqliteStorage(dbPath);
      return Success(s);
    }
    return Failure(ValueError("Unknown storage type: " + storageType + ". Supported types are 'sqlite' and 'json'."));
  }
}
