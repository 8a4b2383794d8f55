/** What python_backend/unified_server.py adds to the record handlers: the
    master lists of sites, inspectors and owning companies in one master_data
    table (unique per kind and name, ordered by sort_order), the cascade that
    deletes a site's inspection records with it, and the name under which a
    generated report is downloaded. */
module UnifiedServer {
  import opened Common
  import opened Ordering
  import opened Records

  // ---------------------------------------------------------------------------
  // master_data.
  // ---------------------------------------------------------------------------

  /** The data_type column. */
  datatype Kind = Site | Inspector | Company

  /** The request member that names an entry of each kind. */
  function FieldOf(kind: Kind): string {
    match kind
    case Site => "siteName"
    case Inspector => "inspectorName"
    case Company => "companyName"
  }

  /** A row of master_data: UNIQUE(data_type, name) makes (kind, name) its key. */
  datatype Entry = Entry(createdAt: string, sortOrder: int)

  type Key = (Kind, string)

  /** `data.get(field, '').strip()`; None where the member is null, since None
      has no `strip`. */
  function RequestName(data: Payload, kind: Kind): Option<string> {
    match Lookup(data, FieldOf(kind), Text(""))
    case Text(s) => Some(Strip(s))
    case Null => None
  }

  /** `m` is what SELECT MAX(sort_order) returns for `kind`: NULL when there is
      no entry of that kind, else the largest sort_order among them. */
  ghost predicate IsMaxOrder(entries: map<Key, Entry>, kind: Kind, m: Option<int>) {
    (m.None? ==> forall k :: k in entries ==> k.0 != kind)
    && (m.Some? ==>
          (exists k :: k in entries && k.0 == kind && entries[k].sortOrder == m.value)
          && forall k :: k in entries && k.0 == kind ==> entries[k].sortOrder <= m.value)
  }

  /** The maximum exists and is unique. */
  ghost function MaxOrder(entries: map<Key, Entry>, kind: Kind): (m: Option<int>)
    ensures IsMaxOrder(entries, kind, m)
    decreases |entries|
  {
    if |entries| == 0 then None
    else
      var k :| k in entries;
      var rest := MaxOrder(entries - {k}, kind);
      if k.0 == kind && (rest.None? || rest.value < entries[k].sortOrder) then Some(entries[k].sortOrder)
      else rest
  }

  lemma MaxOrderUnique(entries: map<Key, Entry>, kind: Kind, m: Option<int>)
    requires IsMaxOrder(entries, kind, m)
    ensures m == MaxOrder(entries, kind)
  {
    var n := MaxOrder(entries, kind);
    if m.Some? && n.Some? {
      var k :| k in entries && k.0 == kind && entries[k].sortOrder == m.value;
      var j :| j in entries && j.0 == kind && entries[j].sortOrder == n.value;
    }
  }

  /** `(max_order + 1) if max_order else 1`: NULL and 0 both give 1. */
  function NextOrder(max: Option<int>): int {
    if max.None? || max.value == 0 then 1 else max.value + 1
  }

  /** A new entry sorts after every entry of its kind already there. */
  lemma NextOrderExceeds(entries: map<Key, Entry>, kind: Kind)
    ensures forall k :: k in entries && k.0 == kind ==> entries[k].sortOrder < NextOrder(MaxOrder(entries, kind))
    ensures (forall k :: k in entries ==> k.0 != kind) ==> NextOrder(MaxOrder(entries, kind)) == 1
  {
  }

  /** INSERT OR IGNORE of `name` with the next sort_order of its kind. */
  ghost function Added(entries: map<Key, Entry>, kind: Kind, name: string, now: string): map<Key, Entry> {
    if (kind, name) in entries then entries
    else entries[(kind, name) := Entry(now, NextOrder(MaxOrder(entries, kind)))]
  }

  /** Added, once the maximum is known. */
  lemma AddedWith(entries: map<Key, Entry>, kind: Kind, name: string, now: string, max: Option<int>)
    requires IsMaxOrder(entries, kind, max)
    ensures Added(entries, kind, name, now)
         == if (kind, name) in entries then entries else entries[(kind, name) := Entry(now, NextOrder(max))]
  {
    MaxOrderUnique(entries, kind, max);
  }

  /** Adding is idempotent and leaves every other entry as it was. */
  lemma AddedOutcome(entries: map<Key, Entry>, kind: Kind, name: string, now: string, later: string)
    ensures var a := Added(entries, kind, name, now);
      && (kind, name) in a
      && a.Keys == entries.Keys + {(kind, name)}
      && (forall k :: k in entries ==> a[k] == entries[k])
      && Added(a, kind, name, later) == a
  {
  }

  /** SQL's ORDER BY sort_order, name. */
  predicate ListedBefore(order1: int, name1: string, order2: int, name2: string) {
    order1 < order2 || (order1 == order2 && StrLe(name1, name2))
  }

  predicate ByOrder(a: (Key, Entry), b: (Key, Entry)) {
    ListedBefore(a.1.sortOrder, a.0.1, b.1.sortOrder, b.0.1)
  }

  lemma ByOrderOrders()
    ensures TotalPreorder(ByOrder)
  {
    forall a: (Key, Entry), b: (Key, Entry)
      ensures ByOrder(a, b) || ByOrder(b, a)
    {
      StrLeTotal(a.0.1, b.0.1);
    }
    forall a: (Key, Entry), b: (Key, Entry), c: (Key, Entry) | ByOrder(a, b) && ByOrder(b, c)
      ensures ByOrder(a, c)
    {
      if a.1.sortOrder == b.1.sortOrder == c.1.sortOrder {
        StrLeTransitive(a.0.1, b.0.1, c.0.1);
      }
    }
  }

  // ---------------------------------------------------------------------------
  // The site cascade.
  // ---------------------------------------------------------------------------

  /** The records whose site_name is exactly `site`; a NULL site_name matches none. */
  function SiteIds(rows: Rows, site: string): (ids: set<RecordKey>)
    ensures forall k :: k in ids <==> k in rows && rows[k].siteName == Some(site)
  {
    set k | k in rows && rows[k].siteName == Some(site)
  }

  /** DELETE FROM inspection_records WHERE site_name = ?. */
  function WithoutSite(rows: Rows, site: string): (r: Rows)
    ensures r.Keys == rows.Keys - SiteIds(rows, site)
    ensures forall k :: k in r ==> r[k] == rows[k] && r[k].siteName != Some(site)
  {
    map k | k in rows && rows[k].siteName != Some(site) :: rows[k]
  }

  // ---------------------------------------------------------------------------
  // The handlers.
  // ---------------------------------------------------------------------------

  /** The master_data table. */
  class MasterTable {
    var entries: map<Key, Entry>

    constructor(entries0: map<Key, Entry>)
      ensures entries == entries0
    {
      entries := entries0;
    }

    /** SELECT MAX(sort_order) FROM master_data WHERE data_type = kind. */
    method MaxSortOrder(kind: Kind) returns (m: Option<int>)
      ensures IsMaxOrder(entries, kind, m)
    {
      m := None;
      var left := entries.Keys;
      while left != {}
        invariant left <= entries.Keys
        invariant m.None? ==> forall k :: k in entries && k !in left ==> k.0 != kind
        invariant m.Some? ==>
          (exists k :: k in entries && k !in left && k.0 == kind && entries[k].sortOrder == m.value)
          && forall k :: k in entries && k !in left && k.0 == kind ==> entries[k].sortOrder <= m.value
        decreases left
      {
        var k :| k in left;
        if k.0 == kind && (m.None? || m.value < entries[k].sortOrder) {
          m := Some(entries[k].sortOrder);
        }
        left := left - {k};
      }
    }

    /** GET: the names of one kind, each once, ordered by (sort_order, name). */
    method ListNames(kind: Kind) returns (names: seq<string>)
      ensures forall i :: 0 <= i < |names| ==> (kind, names[i]) in entries
      ensures forall n :: (kind, n) in entries ==> n in names
      ensures forall i, j :: 0 <= i < j < |names| ==> names[i] != names[j]
      ensures forall i, j :: 0 <= i < j < |names| ==>
        ListedBefore(entries[(kind, names[i])].sortOrder, names[i], entries[(kind, names[j])].sortOrder, names[j])
    {
      var ofKind := map k | k in entries && k.0 == kind :: entries[k];
      ByOrderOrders();
      var list := SortedItems(ofKind, ByOrder);
      ListsExactlyDistinct(list, ofKind);
      names := seq(|list|, i requires 0 <= i < |list| => list[i].0.1);
      assert forall i | 0 <= i < |list| :: list[i].0 == (kind, names[i]) && list[i].1 == entries[(kind, names[i])];
      forall n | (kind, n) in entries
        ensures n in names
      {
        var e := ((kind, n), entries[(kind, n)]);
        assert multiset(list)[e] == 1;
        var i :| 0 <= i < |list| && list[i] == e;
        assert names[i] == n;
      }
    }

    /** POST: 500 for a null name, 400 for a blank one, else 201 whether or not
        the name was already listed. */
    method AddEntry(kind: Kind, data: Payload, now: string) returns (status: int)
      modifies this
      ensures RequestName(data, kind).None? ==> status == 500 && entries == old(entries)
      ensures RequestName(data, kind) == Some("") ==> status == 400 && entries == old(entries)
      ensures RequestName(data, kind).Some? && RequestName(data, kind).value != "" ==>
        status == 201 && entries == Added(old(entries), kind, RequestName(data, kind).value, now)
    {
      var name := RequestName(data, kind);
      if name.None? {
        return 500;
      }
      if name.value == "" {
        return 400;
      }
      var max := MaxSortOrder(kind);
      AddedWith(entries, kind, name.value, now, max);
      var newOrder := if max.None? || max.value == 0 then 1 else max.value + 1;
      if (kind, name.value) !in entries {
        entries := entries[(kind, name.value) := Entry(now, newOrder)];
      }
      status := 201;
    }

    /** DELETE: the entry goes; for a site, so does every record of that site.
        The counts are the two statements' row counts. */
    method DeleteEntry(kind: Kind, data: Payload, records: RecordTable)
      returns (status: int, deletedMaster: nat, deletedRecords: nat)
      modifies this, records
      ensures RequestName(data, kind).None? ==> status == 500
      ensures RequestName(data, kind) == Some("") ==> status == 400
      ensures RequestName(data, kind).None? || RequestName(data, kind) == Some("") ==>
        entries == old(entries) && records.rows == old(records.rows)
      ensures RequestName(data, kind).Some? && RequestName(data, kind).value != "" ==>
        var name := RequestName(data, kind).value;
        && status == 200
        && entries == old(entries) - {(kind, name)}
        && deletedMaster == (if (kind, name) in old(entries) then 1 else 0)
        && (kind == Site ==> records.rows == WithoutSite(old(records.rows), name)
                             && deletedRecords == |SiteIds(old(records.rows), name)|)
        && (kind != Site ==> records.rows == old(records.rows) && deletedRecords == 0)
    {
      var name := RequestName(data, kind);
      if name.None? {
        return 500, 0, 0;
      }
      if name.value == "" {
        return 400, 0, 0;
      }
      deletedMaster := if (kind, name.value) in entries then 1 else 0;
      entries := entries - {(kind, name.value)};
      deletedRecords := 0;
      if kind == Site {
        deletedRecords := |SiteIds(records.rows, name.value)|;
        records.rows := WithoutSite(records.rows, name.value);
      }
      status := 200;
    }
  }

  // ---------------------------------------------------------------------------
  // The download name of POST /api/generate-excel.
  // ---------------------------------------------------------------------------

  /** An f-string placeholder for a JSON member: the text, or "None" for null. */
  function Format(v: Value): string {
    match v
    case Text(s) => s
    case Null => "None"
  }

  function FormatInt(v: Option<int>): string {
    if v.Some? then IntToString(v.value) else "None"
  }

  /** `machine_model` and `machine_unit` joined by `_`, with `/` turned into `_`
      and the full-width brackets dropped. */
  function MachineInfo(data: Payload): string {
    var info := Format(Lookup(data, "machine_model", Text("重機"))) + "_" + Format(Lookup(data, "machine_unit", Text("")));
    ReplaceAll(ReplaceAll(ReplaceAll(info, "/", "_"), "（", ""), "）", "")
  }

  /** The attachment name; `year` and `month` are None when missing or null. */
  function DownloadFilename(data: Payload, year: Option<int>, month: Option<int>): string {
    "点検表_" + MachineInfo(data) + "_" + FormatInt(year) + "年" + FormatInt(month) + "月.xlsx"
  }

  /** No path separator and no full-width bracket survives in the machine part. */
  lemma MachineInfoClean(data: Payload)
    ensures '/' !in MachineInfo(data) && '（' !in MachineInfo(data) && '）' !in MachineInfo(data)
  {
    var info := Format(Lookup(data, "machine_model", Text("重機"))) + "_" + Format(Lookup(data, "machine_unit", Text("")));
    var s1 := ReplaceAll(info, "/", "_");
    var s2 := ReplaceAll(s1, "（", "");
    ReplaceCharRemoves(info, '/', "_");
    ReplaceAllKeepsAbsent(s1, "（", "", '/');
    ReplaceAllKeepsAbsent(s2, "）", "", '/');
    ReplaceCharRemoves(s1, '（', "");
    ReplaceAllKeepsAbsent(s2, "）", "", '（');
    ReplaceCharRemoves(s2, '）', "");
  }
}
