/** The inspection-record table of python_backend/database_api.py, whose record
    handlers python_backend/unified_server.py repeats line for line: create,
    read, update and delete by id with their status codes, the two listings, and
    the last-write-wins sync that merges a batch of records from a device.
    SQLite is a map from key to row, the key being the id or, for a row whose id
    is NULL, its rowid; a statement that raises leaves the table as it was,
    because the handler never commits. */
module Records {
  import opened Common
  import opened Ordering

  // ---------------------------------------------------------------------------
  // Request bodies and rows.
  // ---------------------------------------------------------------------------

  /** A member of a JSON body as the handlers use it: a string, or null. The
      `results` member is carried as its JSON text. */
  datatype Value = Text(s: string) | Null

  /** A JSON object: a missing member is a key absent from the map. */
  type Payload = map<string, Value>

  /** Python's `data.get(key, default)`. */
  function Lookup(data: Payload, key: string, default: Value): Value {
    if key in data then data[key] else default
  }

  /** `data[key]` bound to a NOT NULL column: None where the key is missing (a
      KeyError) or the value is null (an IntegrityError). */
  function Required(data: Payload, key: string): Option<string> {
    if key in data && data[key].Text? then Some(data[key].s) else None
  }

  /** A value bound to a nullable column. */
  function Column(v: Value): Option<string> {
    if v.Text? then Some(v.s) else None
  }

  /** `json.dumps` of the results member: its JSON text; null is written "null". */
  function Dumps(v: Value): string {
    match v
    case Text(s) => s
    case Null => "null"
  }

  /** A row of inspection_records; site_name is the one nullable column. */
  datatype Row = Row(machineId: string, siteName: Option<string>, inspectorName: string,
                     inspectionDate: string, results: string, createdAt: string, updatedAt: string)

  /** The row an INSERT (or the UPDATE of a sync) builds from `data` with the given
      created_at and updated_at; None where the statement raises. */
  function NewRow(data: Payload, createdAt: Value, updatedAt: Value): Option<Row> {
    match (Required(data, "machineId"), Required(data, "inspectorName"), Required(data, "inspectionDate"))
    case (Some(machine), Some(inspector), Some(date)) =>
      if "results" in data && createdAt.Text? && updatedAt.Text? then
        Some(Row(machine, Column(Lookup(data, "siteName", Text(""))), inspector, date,
                 Dumps(data["results"]), createdAt.s, updatedAt.s))
      else None
    case _ => None
  }

  /** The columns a row takes from a body: the three required strings, the site
      (a missing member is "", a null one NULL) and the JSON text of the results. */
  predicate StoresBody(row: Row, data: Payload) {
    && "machineId" in data && data["machineId"] == Text(row.machineId)
    && "inspectorName" in data && data["inspectorName"] == Text(row.inspectorName)
    && "inspectionDate" in data && data["inspectionDate"] == Text(row.inspectionDate)
    && row.siteName == Column(Lookup(data, "siteName", Text("")))
    && "results" in data && row.results == Dumps(data["results"])
  }

  /** The key of a row: its id, or, for a row whose id is NULL (a TEXT PRIMARY
      KEY column admits any number of them), the rowid SQLite gave it. No
      handler returns the rowid, so any label not yet in use will do. */
  datatype RecordKey = Named(id: string) | Unnamed(rowid: nat)

  type Rows = map<RecordKey, Row>

  /** The members of `used` from `n` on. */
  function From(used: set<nat>, n: nat): set<nat> {
    set m | m in used && n <= m
  }

  /** The least number from `n` on that `used` does not hold. */
  function FirstFree(used: set<nat>, n: nat): (r: nat)
    ensures n <= r && r !in used
    ensures forall m :: n <= m < r ==> m in used
    decreases |From(used, n)|
  {
    if n !in used then n
    else
      FreeStep(used, n);
      FirstFree(used, n + 1)
  }

  lemma FreeStep(used: set<nat>, n: nat)
    requires n in used
    ensures |From(used, n + 1)| < |From(used, n)|
  {
    assert n !in From(used, n + 1);
    assert From(used, n) == From(used, n + 1) + {n};
  }

  /** The key of the next row inserted with a NULL id. */
  function FreshKey(rows: Rows): (k: RecordKey)
    ensures k.Unnamed? && k !in rows
  {
    var used := set k | k in rows && k.Unnamed? :: k.rowid;
    assert forall j :: j in rows && j.Unnamed? ==> j.rowid in used;
    Unnamed(FirstFree(used, 0))
  }

  /** The key an INSERT of `data` stores its row under. */
  function KeyFor(rows: Rows, data: Payload): (k: RecordKey)
    requires "id" in data
    ensures data["id"].Text? ==> k == Named(data["id"].s)
    ensures data["id"].Null? ==> k.Unnamed? && k !in rows
  {
    match data["id"]
    case Text(id) => Named(id)
    case Null => FreshKey(rows)
  }

  /** The status code of a handler and the table it leaves. */
  datatype Reply = Reply(status: int, rows: Rows)

  // ---------------------------------------------------------------------------
  // POST /api/records.
  // ---------------------------------------------------------------------------

  const RequiredFields: seq<string> := ["id", "machineId", "inspectorName", "inspectionDate", "results"]

  /** The first of `fields` that `data` lacks. */
  function MissingField(fields: seq<string>, data: Payload): Option<string>
    decreases |fields|
  {
    if |fields| == 0 then None
    else if fields[0] !in data then Some(fields[0])
    else MissingField(fields[1..], data)
  }

  /** The reported field is missing and every field before it is present. */
  lemma {:induction false} MissingFieldIsFirst(fields: seq<string>, data: Payload)
    ensures MissingField(fields, data).None? <==> forall k :: 0 <= k < |fields| ==> fields[k] in data
    ensures MissingField(fields, data).Some? ==>
      exists k :: 0 <= k < |fields| && fields[k] == MissingField(fields, data).value && fields[k] !in data
                  && forall j :: 0 <= j < k ==> fields[j] in data
    decreases |fields|
  {
    if |fields| > 0 && fields[0] in data {
      MissingFieldIsFirst(fields[1..], data);
      if MissingField(fields[1..], data).Some? {
        var k :| 0 <= k < |fields| - 1 && fields[1..][k] == MissingField(fields, data).value && fields[1..][k] !in data
                 && forall j :: 0 <= j < k ==> fields[1..][j] in data;
        assert fields[k + 1] == MissingField(fields, data).value;
        assert forall j :: 0 <= j < k + 1 ==> fields[j] in data by {
          forall j | 0 <= j < k + 1
            ensures fields[j] in data
          {
            if j > 0 {
              assert fields[j] == fields[1..][j - 1];
            }
          }
        }
      } else {
        assert forall k :: 0 <= k < |fields| ==> fields[k] in data by {
          forall k | 0 <= k < |fields|
            ensures fields[k] in data
          {
            if k > 0 {
              assert fields[k] == fields[1..][k - 1];
            }
          }
        }
      }
    }
  }

  /** The required-field check, the INSERT (409 on any integrity error), 201. A
      null id is no integrity error: the row is stored under a fresh rowid. */
  function Create(rows: Rows, data: Payload, now: string): Reply {
    if MissingField(RequiredFields, data).Some? then Reply(400, rows)
    else
      MissingFieldIsFirst(RequiredFields, data);
      assert RequiredFields[0] == "id";
      var key := KeyFor(rows, data);
      var row := NewRow(data, Text(now), Text(now));
      if row.None? || key in rows then Reply(409, rows)
      else Reply(201, rows[key := row.value])
  }

  /** 400 exactly when a required member is missing; 409 exactly when a NOT NULL
      column would get NULL or the id is taken; 201 adds one row, under its id or,
      for a null id, under a new rowid, stamped `now` twice, and touches no other. */
  lemma CreateOutcome(rows: Rows, data: Payload, now: string)
    ensures Create(rows, data, now).status in {201, 400, 409}
    ensures Create(rows, data, now).status == 400 <==> exists f :: f in RequiredFields && f !in data
    ensures Create(rows, data, now).status == 409 <==>
      (forall f :: f in RequiredFields ==> f in data)
      && (NewRow(data, Text(now), Text(now)).None? || (Required(data, "id").Some? && Named(data["id"].s) in rows))
    ensures Create(rows, data, now).status != 201 ==> Create(rows, data, now).rows == rows
    ensures Create(rows, data, now).status == 201 ==>
      var key := KeyFor(rows, data);
      var r := Create(rows, data, now).rows;
      key !in rows && r.Keys == rows.Keys + {key}
      && (data["id"].Text? ==> key == Named(data["id"].s))
      && (data["id"].Null? ==> key.Unnamed?)
      && (forall k :: k in rows ==> r[k] == rows[k])
      && r[key].createdAt == now && r[key].updatedAt == now
      && StoresBody(r[key], data)
  {
    MissingFieldIsFirst(RequiredFields, data);
    if exists f :: f in RequiredFields && f !in data {
      var f :| f in RequiredFields && f !in data;
      var k :| 0 <= k < |RequiredFields| && RequiredFields[k] == f;
    } else {
      assert RequiredFields[0] == "id";
    }
  }

  /** A second create with the same id is refused. */
  lemma CreateTwice(rows: Rows, data: Payload, now: string, later: string)
    requires Create(rows, data, now).status == 201 && Required(data, "id").Some?
    ensures Create(Create(rows, data, now).rows, data, later).status == 409
    ensures Create(Create(rows, data, now).rows, data, later).rows == Create(rows, data, now).rows
  {
    CreateOutcome(rows, data, now);
    CreateOutcome(Create(rows, data, now).rows, data, later);
  }

  /** A body with a null id is stored again every time it is posted. */
  lemma CreateNullTwice(rows: Rows, data: Payload, now: string, later: string)
    requires Create(rows, data, now).status == 201 && Required(data, "id").None?
    ensures Create(Create(rows, data, now).rows, data, later).status == 201
    ensures |Create(Create(rows, data, now).rows, data, later).rows| == |rows| + 2
  {
    CreateOutcome(rows, data, now);
    var r := Create(rows, data, now).rows;
    CreateOutcome(r, data, later);
    assert |r| == |rows| + 1 by {
      assert r.Keys == rows.Keys + {KeyFor(rows, data)};
    }
    var u := Create(r, data, later).rows;
    assert u.Keys == r.Keys + {KeyFor(r, data)};
  }

  // ---------------------------------------------------------------------------
  // PUT and DELETE /api/records/<id>.
  // ---------------------------------------------------------------------------

  /** The row the UPDATE writes over `stored`: `data.get(...)` for every member, so a
      missing member is NULL; created_at is not among the columns set. */
  function UpdatedRow(stored: Row, data: Payload, now: string): Option<Row> {
    match (Column(Lookup(data, "machineId", Null)), Column(Lookup(data, "inspectorName", Null)),
           Column(Lookup(data, "inspectionDate", Null)))
    case (Some(machine), Some(inspector), Some(date)) =>
      Some(Row(machine, Column(Lookup(data, "siteName", Text(""))), inspector, date,
               Dumps(Lookup(data, "results", Text("{}"))), stored.createdAt, now))
    case _ => None
  }

  /** 404 for an unknown id, 500 when a NOT NULL column would get NULL, else 200.
      The id in the path is a string, so `WHERE id = ?` never matches a NULL id. */
  function Update(rows: Rows, id: string, data: Payload, now: string): Reply {
    if Named(id) !in rows then Reply(404, rows)
    else match UpdatedRow(rows[Named(id)], data, now)
      case None => Reply(500, rows)
      case Some(row) => Reply(200, rows[Named(id) := row])
  }

  /** An update changes only the row it names, keeps its created_at and stamps
      its updated_at with `now`; an unknown id is 404 with nothing changed. */
  lemma UpdateOutcome(rows: Rows, id: string, data: Payload, now: string)
    ensures Update(rows, id, data, now).status in {200, 404, 500}
    ensures Update(rows, id, data, now).status == 404 <==> Named(id) !in rows
    ensures Update(rows, id, data, now).status == 500 <==>
      Named(id) in rows && (Required(data, "machineId").None? || Required(data, "inspectorName").None?
                            || Required(data, "inspectionDate").None?)
    ensures Update(rows, id, data, now).status != 200 ==> Update(rows, id, data, now).rows == rows
    ensures Update(rows, id, data, now).status == 200 ==>
      var r := Update(rows, id, data, now).rows;
      r.Keys == rows.Keys && (forall k :: k in rows && k != Named(id) ==> r[k] == rows[k])
      && r[Named(id)].createdAt == rows[Named(id)].createdAt && r[Named(id)].updatedAt == now
      && r[Named(id)].machineId == data["machineId"].s
      && r[Named(id)].inspectorName == data["inspectorName"].s
      && r[Named(id)].inspectionDate == data["inspectionDate"].s
      && r[Named(id)].siteName == Column(Lookup(data, "siteName", Text("")))
      && r[Named(id)].results == (if "results" in data then Dumps(data["results"]) else "{}")
  {
  }

  /** 404 when no row was deleted. */
  function Delete(rows: Rows, id: string): Reply {
    if Named(id) in rows then Reply(200, rows - {Named(id)}) else Reply(404, rows)
  }

  /** Deleting what a create added under its id gives back the table it started from. */
  lemma DeleteUndoesCreate(rows: Rows, data: Payload, now: string)
    requires Create(rows, data, now).status == 201 && Required(data, "id").Some?
    ensures Delete(Create(rows, data, now).rows, data["id"].s) == Reply(200, rows)
  {
    CreateOutcome(rows, data, now);
    var r := Create(rows, data, now).rows;
    assert r - {Named(data["id"].s)} == rows;
  }

  /** A deleted id is gone, every other row stays, and an unknown id is 404. */
  lemma DeleteOutcome(rows: Rows, id: string)
    ensures Delete(rows, id).status == 404 <==> Named(id) !in rows
    ensures Delete(rows, id).status == 404 ==> Delete(rows, id).rows == rows
    ensures Named(id) !in Delete(rows, id).rows
    ensures forall k :: k in rows && k != Named(id) ==> k in Delete(rows, id).rows && Delete(rows, id).rows[k] == rows[k]
  {
  }

  /** A row stored with a NULL id is out of reach of every handler that takes an
      id: no update or delete changes it. */
  lemma UnnamedOutOfReach(rows: Rows, id: string, data: Payload, now: string)
    ensures forall k :: k in rows && k.Unnamed? ==>
      k in Update(rows, id, data, now).rows && Update(rows, id, data, now).rows[k] == rows[k]
      && k in Delete(rows, id).rows && Delete(rows, id).rows[k] == rows[k]
  {
  }

  // ---------------------------------------------------------------------------
  // The listings.
  // ---------------------------------------------------------------------------

  /** ORDER BY inspection_date DESC, created_at DESC; SQLite compares TEXT in
      code-point order, as StrLt does. */
  predicate NewestFirst(a: (RecordKey, Row), b: (RecordKey, Row)) {
    StrLt(b.1.inspectionDate, a.1.inspectionDate)
    || (a.1.inspectionDate == b.1.inspectionDate && StrLe(b.1.createdAt, a.1.createdAt))
  }

  /** ORDER BY inspection_date DESC, the order of the rows a sync returns. */
  predicate LatestDateFirst(a: (RecordKey, Row), b: (RecordKey, Row)) {
    StrLe(b.1.inspectionDate, a.1.inspectionDate)
  }

  lemma NewestFirstOrders()
    ensures TotalPreorder(NewestFirst)
  {
    forall a: (RecordKey, Row), b: (RecordKey, Row)
      ensures NewestFirst(a, b) || NewestFirst(b, a)
    {
      StrLtTrichotomy(a.1.inspectionDate, b.1.inspectionDate);
      StrLeTotal(a.1.createdAt, b.1.createdAt);
    }
    forall a: (RecordKey, Row), b: (RecordKey, Row), c: (RecordKey, Row) | NewestFirst(a, b) && NewestFirst(b, c)
      ensures NewestFirst(a, c)
    {
      if StrLt(b.1.inspectionDate, a.1.inspectionDate) && StrLt(c.1.inspectionDate, b.1.inspectionDate) {
        StrLtTransitive(c.1.inspectionDate, b.1.inspectionDate, a.1.inspectionDate);
      } else if a.1.inspectionDate == b.1.inspectionDate && b.1.inspectionDate == c.1.inspectionDate {
        StrLeTransitive(c.1.createdAt, b.1.createdAt, a.1.createdAt);
      }
    }
  }

  lemma LatestDateFirstOrders()
    ensures TotalPreorder(LatestDateFirst)
  {
    forall a: (RecordKey, Row), b: (RecordKey, Row)
      ensures LatestDateFirst(a, b) || LatestDateFirst(b, a)
    {
      StrLeTotal(a.1.inspectionDate, b.1.inspectionDate);
    }
    forall a: (RecordKey, Row), b: (RecordKey, Row), c: (RecordKey, Row) | LatestDateFirst(a, b) && LatestDateFirst(b, c)
      ensures LatestDateFirst(a, c)
    {
      StrLeTransitive(c.1.inspectionDate, b.1.inspectionDate, a.1.inspectionDate);
    }
  }

  // ---------------------------------------------------------------------------
  // POST /api/sync: last write wins, by updated_at.
  // ---------------------------------------------------------------------------

  datatype Counts = Counts(created: nat, updated: nat, conflicts: nat)

  /** The `updatedAt` a local record is compared with: `record.get('updatedAt', '')`. */
  function LocalStamp(rec: Payload): Value {
    Lookup(rec, "updatedAt", Text(""))
  }

  /** One local record merged into the table; None where the handler raises: a
      missing id, a missing or null member the statement needs, or a null
      `updatedAt` compared with a stored string. A null id finds no row, so
      the record is inserted under a new rowid. */
  function SyncStep(rows: Rows, c: Counts, rec: Payload, now: string): Option<(Rows, Counts)> {
    if "id" !in rec then None
    else
      var key := KeyFor(rows, rec);
      if key !in rows then
        match NewRow(rec, Lookup(rec, "createdAt", Text(now)), Lookup(rec, "updatedAt", Text(now)))
        case None => None
        case Some(row) => Some((rows[key := row], c.(created := c.created + 1)))
      else
        match LocalStamp(rec)
        case Null => None
        case Text(local) =>
          if StrLt(rows[key].updatedAt, local) then
            match NewRow(rec, Text(rows[key].createdAt), Text(local))
            case None => None
            case Some(row) => Some((rows[key := row], c.(updated := c.updated + 1)))
          else Some((rows, c.(conflicts := c.conflicts + 1)))
  }

  /** The local records merged in order, each seeing what the earlier ones wrote;
      None as soon as one of them raises. */
  function SyncAll(rows: Rows, recs: seq<Payload>, now: string): Option<(Rows, Counts)>
    decreases |recs|
  {
    if |recs| == 0 then Some((rows, Counts(0, 0, 0)))
    else match SyncAll(rows, recs[..|recs| - 1], now)
      case None => None
      case Some(st) => SyncStep(st.0, st.1, recs[|recs| - 1], now)
  }

  /** The three outcomes of one record: an unknown or null id is inserted with
      the record's columns and its timestamps (now by default); a strictly newer
      local `updatedAt` replaces the record's columns, keeps created_at and stores
      the local stamp; a tie or an older stamp changes nothing. Each adds one to
      exactly one counter. */
  lemma SyncStepOutcome(rows: Rows, c: Counts, rec: Payload, now: string)
    requires SyncStep(rows, c, rec, now).Some?
    ensures "id" in rec && LocalStamp(rec).Text?
    ensures rec["id"].Null? ==> KeyFor(rows, rec) !in rows
    ensures
      var key := KeyFor(rows, rec);
      var (r, d) := SyncStep(rows, c, rec, now).value;
      && (key !in rows ==>
            d == c.(created := c.created + 1) && r.Keys == rows.Keys + {key}
            && (forall k :: k in rows ==> r[k] == rows[k])
            && r[key].updatedAt == Lookup(rec, "updatedAt", Text(now)).s
            && r[key].createdAt == Lookup(rec, "createdAt", Text(now)).s
            && StoresBody(r[key], rec))
      && (key in rows && StrLt(rows[key].updatedAt, LocalStamp(rec).s) ==>
            d == c.(updated := c.updated + 1) && r.Keys == rows.Keys
            && (forall k :: k in rows && k != key ==> r[k] == rows[k])
            && r[key].updatedAt == LocalStamp(rec).s && r[key].createdAt == rows[key].createdAt
            && StoresBody(r[key], rec))
      && (key in rows && StrLe(LocalStamp(rec).s, rows[key].updatedAt) ==>
            d == c.(conflicts := c.conflicts + 1) && r == rows)
  {
    var key := KeyFor(rows, rec);
    if key in rows {
      StrLeNotLt(LocalStamp(rec).s, rows[key].updatedAt);
    }
  }

  /** A local record without `updatedAt` never overwrites a stored one. */
  lemma MissingStampConflicts(rows: Rows, c: Counts, rec: Payload, now: string)
    requires Required(rec, "id").Some? && Named(rec["id"].s) in rows && "updatedAt" !in rec
    ensures SyncStep(rows, c, rec, now) == Some((rows, c.(conflicts := c.conflicts + 1)))
  {
    EmptyStrLe(rows[Named(rec["id"].s)].updatedAt);
    StrLeNotLt("", rows[Named(rec["id"].s)].updatedAt);
  }

  /** Once a prefix raises, the whole sync does. */
  lemma {:induction false} SyncFailsFrom(rows: Rows, recs: seq<Payload>, n: nat, now: string)
    requires n <= |recs| && SyncAll(rows, recs[..n], now).None?
    ensures SyncAll(rows, recs, now).None?
    decreases |recs|
  {
    if |recs| > n {
      assert recs[..|recs| - 1][..n] == recs[..n];
      SyncFailsFrom(rows, recs[..|recs| - 1], n, now);
    } else {
      assert recs[..n] == recs;
    }
  }

  /** Every local record is counted exactly once. */
  lemma {:induction false} SyncCounted(rows: Rows, recs: seq<Payload>, now: string)
    requires SyncAll(rows, recs, now).Some?
    ensures
      var c := SyncAll(rows, recs, now).value.1;
      c.created + c.updated + c.conflicts == |recs|
    decreases |recs|
  {
    if |recs| > 0 {
      SyncCounted(rows, recs[..|recs| - 1], now);
    }
  }

  /** The ids of a batch (not counting null ids). */
  function Ids(recs: seq<Payload>): set<string>
    decreases |recs|
  {
    if |recs| == 0 then {}
    else Ids(recs[..|recs| - 1]) + (match Required(recs[|recs| - 1], "id") case Some(id) => {id} case None => {})
  }

  /** The number of records of a batch whose id is null. */
  function NullIds(recs: seq<Payload>): (n: nat)
    ensures n <= |recs|
    decreases |recs|
  {
    if |recs| == 0 then 0
    else NullIds(recs[..|recs| - 1]) + (if Lookup(recs[|recs| - 1], "id", Text("")).Null? then 1 else 0)
  }

  /** The rows stored with a NULL id. */
  function UnnamedKeys(t: Rows): set<RecordKey> {
    set k | k in t && k.Unnamed?
  }

  /** No stored row is lost; the ids after a sync are the stored ones and the
      batch's; and every record with a null id adds one more row with a NULL id. */
  lemma {:induction false} SyncKeys(rows: Rows, recs: seq<Payload>, now: string)
    requires SyncAll(rows, recs, now).Some?
    ensures rows.Keys <= SyncAll(rows, recs, now).value.0.Keys
    ensures forall id :: Named(id) in SyncAll(rows, recs, now).value.0 <==> Named(id) in rows || id in Ids(recs)
    ensures |UnnamedKeys(SyncAll(rows, recs, now).value.0)| == |UnnamedKeys(rows)| + NullIds(recs)
    decreases |recs|
  {
    if |recs| > 0 {
      var init := recs[..|recs| - 1];
      SyncKeys(rows, init, now);
      SyncAllLast(rows, recs, now);
      var (t, c) := SyncAll(rows, init, now).value;
      StepKeys(t, c, recs[|recs| - 1], now);
    }
  }

  /** `created` is the number of rows that were new: a repeated id sees the
      earlier insert, a null id never finds one. */
  lemma {:induction false} SyncCreated(rows: Rows, recs: seq<Payload>, now: string)
    requires SyncAll(rows, recs, now).Some?
    ensures SyncAll(rows, recs, now).value.1.created == |SyncAll(rows, recs, now).value.0.Keys - rows.Keys|
    decreases |recs|
  {
    if |recs| == 0 {
      assert rows.Keys - rows.Keys == {};
    } else {
      var init := recs[..|recs| - 1];
      SyncCreated(rows, init, now);
      SyncKeys(rows, init, now);
      SyncAllLast(rows, recs, now);
      var st := SyncAll(rows, init, now).value;
      var rec := recs[|recs| - 1];
      StepKeys(st.0, st.1, rec, now);
      var (u, d) := SyncStep(st.0, st.1, rec, now).value;
      NewKeysCounted(rows.Keys, st.0.Keys, KeyFor(st.0, rec), st.1.created, d.created, u.Keys);
    }
  }

  lemma NewKeysCounted(old0: set<RecordKey>, keys: set<RecordKey>, x: RecordKey, n: nat, m: nat, keys2: set<RecordKey>)
    requires old0 <= keys && n == |keys - old0| && keys2 == keys + {x}
    requires m == n + (if x in keys then 0 else 1)
    ensures m == |keys2 - old0|
  {
    if x in keys {
      assert keys2 == keys;
    } else {
      AddedOne(keys, old0, x);
    }
  }

  /** A nonempty batch is its last record merged after the others. */
  lemma SyncAllLast(rows: Rows, recs: seq<Payload>, now: string)
    requires |recs| > 0 && SyncAll(rows, recs, now).Some?
    ensures SyncAll(rows, recs[..|recs| - 1], now).Some?
    ensures SyncAll(rows, recs, now)
         == SyncStep(SyncAll(rows, recs[..|recs| - 1], now).value.0, SyncAll(rows, recs[..|recs| - 1], now).value.1,
                     recs[|recs| - 1], now)
    ensures Ids(recs) == Ids(recs[..|recs| - 1])
                         + (match Required(recs[|recs| - 1], "id") case Some(id) => {id} case None => {})
    ensures NullIds(recs) == NullIds(recs[..|recs| - 1]) + (if Lookup(recs[|recs| - 1], "id", Text("")).Null? then 1 else 0)
  {
  }

  lemma AddedOne(a: set<RecordKey>, b: set<RecordKey>, x: RecordKey)
    requires b <= a && x !in a
    ensures |(a + {x}) - b| == |a - b| + 1
  {
    assert (a + {x}) - b == (a - b) + {x};
  }

  /** One record adds its key, and counts it as created exactly when it was new;
      a null id adds a row with a NULL id, a string id its own. */
  lemma StepKeys(t: Rows, c: Counts, rec: Payload, now: string)
    requires SyncStep(t, c, rec, now).Some?
    ensures "id" in rec
    ensures SyncStep(t, c, rec, now).value.0.Keys == t.Keys + {KeyFor(t, rec)}
    ensures SyncStep(t, c, rec, now).value.1.created == c.created + (if KeyFor(t, rec) in t then 0 else 1)
    ensures rec["id"].Null? ==>
      UnnamedKeys(SyncStep(t, c, rec, now).value.0) == UnnamedKeys(t) + {KeyFor(t, rec)}
      && KeyFor(t, rec) !in UnnamedKeys(t)
    ensures rec["id"].Text? ==> UnnamedKeys(SyncStep(t, c, rec, now).value.0) == UnnamedKeys(t)
  {
    var u := SyncStep(t, c, rec, now).value.0;
    assert u.Keys == t.Keys + {KeyFor(t, rec)};
  }

  /** Two local records with one id create at most one row. */
  lemma RepeatedIdCreatesOnce(rows: Rows, a: Payload, b: Payload, now: string)
    requires Required(a, "id").Some? && Required(a, "id") == Required(b, "id")
    requires SyncAll(rows, [a, b], now).Some?
    ensures SyncAll(rows, [a, b], now).value.1.created <= 1
  {
    SyncCreated(rows, [a, b], now);
    assert [a, b][..1] == [a] && [a][..0] == [];
    SyncAllLast(rows, [a, b], now);
    SyncAllLast(rows, [a], now);
    var t := SyncAll(rows, [a], now).value;
    StepKeys(rows, Counts(0, 0, 0), a, now);
    StepKeys(t.0, t.1, b, now);
    var u := SyncAll(rows, [a, b], now).value.0;
    var added := u.Keys - rows.Keys;
    assert added <= {Named(a["id"].s)};
    if added != {} {
      assert added == {Named(a["id"].s)};
    }
  }

  /** `rec` is reflected in `t`: its id is stored with an updated_at no older than its own. */
  ghost predicate Settled(t: Rows, rec: Payload) {
    Required(rec, "id").Some? && Named(rec["id"].s) in t && LocalStamp(rec).Text?
    && StrLe(LocalStamp(rec).s, t[Named(rec["id"].s)].updatedAt)
  }

  /** A record with a null id has its members: sent again, at any time, it is
      inserted again. */
  ghost predicate Insertable(rec: Payload) {
    "id" in rec && rec["id"].Null?
    && NewRow(rec, Lookup(rec, "createdAt", Text("")), Lookup(rec, "updatedAt", Text(""))).Some?
  }

  /** The defaults of a sync insert do not decide whether it raises. */
  lemma InsertableAnyTime(rec: Payload, now: string)
    ensures NewRow(rec, Lookup(rec, "createdAt", Text(now)), Lookup(rec, "updatedAt", Text(now))).Some?
        <==> NewRow(rec, Lookup(rec, "createdAt", Text("")), Lookup(rec, "updatedAt", Text(""))).Some?
  {
  }

  /** No key is lost and no stored updated_at goes back. */
  ghost predicate Grows(t: Rows, u: Rows) {
    t.Keys <= u.Keys && forall k :: k in t ==> StrLe(t[k].updatedAt, u[k].updatedAt)
  }

  lemma StepSettles(t: Rows, c: Counts, rec: Payload, now: string)
    requires SyncStep(t, c, rec, now).Some?
    ensures Required(rec, "id").Some? ==> Settled(SyncStep(t, c, rec, now).value.0, rec)
    ensures Required(rec, "id").None? ==> Insertable(rec)
    ensures Grows(t, SyncStep(t, c, rec, now).value.0)
  {
    var u := SyncStep(t, c, rec, now).value.0;
    var key := KeyFor(t, rec);
    if key !in t {
      EmptyStrLe(now);
      InsertableAnyTime(rec, now);
    } else {
      StrLeNotLt(LocalStamp(rec).s, t[key].updatedAt);
    }
    forall k | k in t
      ensures StrLe(t[k].updatedAt, u[k].updatedAt)
    {
      if k == key {
        StrLeNotLt(LocalStamp(rec).s, t[key].updatedAt);
      }
    }
  }

  lemma SettledStays(t: Rows, u: Rows, rec: Payload)
    requires Settled(t, rec) && Grows(t, u)
    ensures Settled(u, rec)
  {
    StrLeTransitive(LocalStamp(rec).s, t[Named(rec["id"].s)].updatedAt, u[Named(rec["id"].s)].updatedAt);
  }

  lemma GrowsTransitive(t: Rows, u: Rows, v: Rows)
    requires Grows(t, u) && Grows(u, v)
    ensures Grows(t, v)
  {
    forall k | k in t
      ensures StrLe(t[k].updatedAt, v[k].updatedAt)
    {
      StrLeTransitive(t[k].updatedAt, u[k].updatedAt, v[k].updatedAt);
    }
  }

  /** After a sync every record with an id is reflected in the table, and every
      one with a null id could be inserted again. */
  lemma {:induction false} SyncSettles(rows: Rows, recs: seq<Payload>, now: string)
    requires SyncAll(rows, recs, now).Some?
    ensures Grows(rows, SyncAll(rows, recs, now).value.0)
    ensures forall i :: 0 <= i < |recs| && Required(recs[i], "id").Some? ==> Settled(SyncAll(rows, recs, now).value.0, recs[i])
    ensures forall i :: 0 <= i < |recs| && Required(recs[i], "id").None? ==> Insertable(recs[i])
    decreases |recs|
  {
    if |recs| == 0 {
      forall k | k in rows
        ensures StrLe(rows[k].updatedAt, rows[k].updatedAt)
      {
      }
    } else {
      var init := recs[..|recs| - 1];
      SyncSettles(rows, init, now);
      var (t, c) := SyncAll(rows, init, now).value;
      var rec := recs[|recs| - 1];
      StepSettles(t, c, rec, now);
      var u := SyncAll(rows, recs, now).value.0;
      GrowsTransitive(rows, t, u);
      forall i | 0 <= i < |recs| - 1
        ensures Required(recs[i], "id").Some? ==> Settled(u, recs[i])
        ensures Required(recs[i], "id").None? ==> Insertable(recs[i])
      {
        assert recs[i] == init[i];
        if Required(recs[i], "id").Some? {
          SettledStays(t, u, recs[i]);
        }
      }
    }
  }

  /** `u` holds every row of `t` unchanged, and its other rows have NULL ids. */
  ghost predicate KeepsNamed(t: Rows, u: Rows) {
    (forall k :: k in t ==> k in u && u[k] == t[k]) && forall k :: k in u && k !in t ==> k.Unnamed?
  }

  /** A batch already reflected in the table is all conflicts, except that each
      record with a null id is inserted again, and nothing stored changes. */
  lemma {:induction false} SettledBatchConflicts(t: Rows, recs: seq<Payload>, now: string)
    requires forall i :: 0 <= i < |recs| ==> Settled(t, recs[i]) || Insertable(recs[i])
    ensures SyncAll(t, recs, now).Some?
    ensures SyncAll(t, recs, now).value.1 == Counts(NullIds(recs), 0, |recs| - NullIds(recs))
    ensures KeepsNamed(t, SyncAll(t, recs, now).value.0)
    decreases |recs|
  {
    if |recs| == 0 {
    } else {
      var init := recs[..|recs| - 1];
      assert forall i :: 0 <= i < |init| ==> init[i] == recs[i];
      SettledBatchConflicts(t, init, now);
      var (u, c) := SyncAll(t, init, now).value;
      var rec := recs[|recs| - 1];
      if Settled(t, rec) {
        var key := Named(rec["id"].s);
        assert u[key] == t[key];
        StrLeNotLt(LocalStamp(rec).s, t[key].updatedAt);
      } else {
        InsertableAnyTime(rec, now);
      }
    }
  }

  /** Sending the same batch again, at any time, updates nothing and changes no
      stored row; only the records with a null id are created once more. */
  lemma SyncIdempotent(rows: Rows, recs: seq<Payload>, now: string, later: string)
    requires SyncAll(rows, recs, now).Some?
    ensures
      var t := SyncAll(rows, recs, now).value.0;
      SyncAll(t, recs, later).Some?
      && SyncAll(t, recs, later).value.1 == Counts(NullIds(recs), 0, |recs| - NullIds(recs))
      && KeepsNamed(t, SyncAll(t, recs, later).value.0)
  {
    SyncSettles(rows, recs, now);
    SettledBatchConflicts(SyncAll(rows, recs, now).value.0, recs, later);
  }

  /** Without null ids, sending the same batch again changes nothing at all. */
  lemma SyncIdempotentNamed(rows: Rows, recs: seq<Payload>, now: string, later: string)
    requires SyncAll(rows, recs, now).Some? && NullIds(recs) == 0
    ensures
      var t := SyncAll(rows, recs, now).value.0;
      SyncAll(t, recs, later) == Some((t, Counts(0, 0, |recs|)))
  {
    SyncIdempotent(rows, recs, now, later);
    var t := SyncAll(rows, recs, now).value.0;
    SyncKeys(t, recs, later);
    var u := SyncAll(t, recs, later).value.0;
    assert UnnamedKeys(t) <= UnnamedKeys(u);
    SubsetSameSize(UnnamedKeys(t), UnnamedKeys(u));
    KeepsSameUnnamed(t, u);
  }

  lemma KeepsSameUnnamed(t: Rows, u: Rows)
    requires KeepsNamed(t, u) && UnnamedKeys(u) == UnnamedKeys(t)
    ensures u == t
  {
    assert u.Keys - t.Keys <= UnnamedKeys(u);
    assert UnnamedKeys(t) <= t.Keys;
    assert u.Keys == t.Keys;
  }

  lemma SubsetSameSize(a: set<RecordKey>, b: set<RecordKey>)
    requires a <= b && |a| == |b|
    ensures a == b
  {
    if a != b {
      var x :| x in b && x !in a;
      assert a <= b - {x};
      assert |b - {x}| == |b| - 1;
      SubsetSize(a, b - {x});
    }
  }

  lemma SubsetSize(a: set<RecordKey>, b: set<RecordKey>)
    requires a <= b
    ensures |a| <= |b|
  {
    assert b == a + (b - a);
  }

  // ---------------------------------------------------------------------------
  // The table.
  // ---------------------------------------------------------------------------

  /** The inspection_records table. */
  class RecordTable {
    var rows: Rows

    constructor(rows0: Rows)
      ensures rows == rows0
    {
      rows := rows0;
    }

    /** GET /api/records/<id>. */
    method GetRecord(id: string) returns (status: int, row: Option<Row>)
      ensures status == 404 <==> Named(id) !in rows
      ensures status == 404 ==> row.None?
      ensures status != 404 ==> status == 200 && row == Some(rows[Named(id)])
    {
      if Named(id) !in rows {
        return 404, None;
      }
      return 200, Some(rows[Named(id)]);
    }

    /** GET /api/records: every row once, newest inspection date first, newest
        creation first within a date. */
    method GetAllRecords() returns (list: seq<(RecordKey, Row)>)
      ensures SortedBy(list, NewestFirst)
      ensures ListsExactly(list, rows)
    {
      NewestFirstOrders();
      list := SortedItems(rows, NewestFirst);
    }

    /** The loop over `required_fields`. */
    static method FirstMissing(data: Payload) returns (missing: Option<string>)
      ensures missing == MissingField(RequiredFields, data)
    {
      for i := 0 to |RequiredFields|
        invariant MissingField(RequiredFields, data) == MissingField(RequiredFields[i..], data)
      {
        assert RequiredFields[i..][1..] == RequiredFields[i + 1..];
        if RequiredFields[i] !in data {
          return Some(RequiredFields[i]);
        }
      }
      return None;
    }

    /** POST /api/records; `missing` is the field the 400 reply names. */
    method CreateRecord(data: Payload, now: string) returns (status: int, missing: Option<string>)
      modifies this
      ensures Reply(status, rows) == Create(old(rows), data, now)
      ensures missing == MissingField(RequiredFields, data)
    {
      missing := FirstMissing(data);
      if missing.Some? {
        return 400, missing;
      }
      MissingFieldIsFirst(RequiredFields, data);
      assert RequiredFields[0] == "id";
      var key := if data["id"].Null? then FreshKey(rows) else Named(data["id"].s);
      var row := NewRow(data, Text(now), Text(now));
      if row.None? || key in rows {
        return 409, missing;
      }
      rows := rows[key := row.value];
      status := 201;
    }

    /** PUT /api/records/<id>. */
    method UpdateRecord(id: string, data: Payload, now: string) returns (status: int)
      modifies this
      ensures Reply(status, rows) == Update(old(rows), id, data, now)
    {
      if Named(id) !in rows {
        return 404;
      }
      var row := UpdatedRow(rows[Named(id)], data, now);
      if row.None? {
        return 500;
      }
      rows := rows[Named(id) := row.value];
      status := 200;
    }

    /** DELETE /api/records/<id>. */
    method DeleteRecord(id: string) returns (status: int)
      modifies this
      ensures Reply(status, rows) == Delete(old(rows), id)
    {
      if Named(id) !in rows {
        return 404;
      }
      rows := rows - {Named(id)};
      status := 200;
    }

    /** POST /api/sync: the local records merged one by one into a working copy,
        committed only when none raised, then every row by inspection date. */
    method Sync(local: seq<Payload>, now: string) returns (status: int, counts: Counts, listing: seq<(RecordKey, Row)>)
      modifies this
      ensures SyncAll(old(rows), local, now).None? ==> status == 500 && rows == old(rows)
      ensures SyncAll(old(rows), local, now).Some? ==>
        status == 200 && (rows, counts) == SyncAll(old(rows), local, now).value
      ensures status == 200 ==> SortedBy(listing, LatestDateFirst) && ListsExactly(listing, rows)
    {
      var work := rows;
      var created: nat, updated: nat, conflicts: nat := 0, 0, 0;
      for i := 0 to |local|
        invariant rows == old(rows)
        invariant SyncAll(rows, local[..i], now) == Some((work, Counts(created, updated, conflicts)))
      {
        assert local[..i + 1][..i] == local[..i];
        var rec := local[i];
        var fails := false;
        var key := if "id" in rec && rec["id"].Text? then Named(rec["id"].s) else FreshKey(work);
        if "id" !in rec {
          fails := true;
        } else if key !in work {
          var row := NewRow(rec, Lookup(rec, "createdAt", Text(now)), Lookup(rec, "updatedAt", Text(now)));
          if row.None? {
            fails := true;
          } else {
            work := work[key := row.value];
            created := created + 1;
          }
        } else {
          var stamp := Lookup(rec, "updatedAt", Text(""));
          if stamp.Null? {
            fails := true;
          } else if StrLt(work[key].updatedAt, stamp.s) {
            var row := NewRow(rec, Text(work[key].createdAt), stamp);
            if row.None? {
              fails := true;
            } else {
              work := work[key := row.value];
              updated := updated + 1;
            }
          } else {
            conflicts := conflicts + 1;
          }
        }
        if fails {
          SyncFailsFrom(rows, local, i + 1, now);
          return 500, Counts(created, updated, conflicts), [];
        }
      }
      assert local[..|local|] == local;
      rows := work;
      counts := Counts(created, updated, conflicts);
      LatestDateFirstOrders();
      listing := SortedItems(rows, LatestDateFirst);
      status := 200;
    }
  }
}
