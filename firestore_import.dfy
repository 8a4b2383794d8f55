/** The CSV importer (scripts/firestore_import.py): machine-type spellings are
    normalised to a type id, inspection-item labels are turned into snake-case ids,
    and the rows of the two CSV files are grouped into the documents written to
    Firestore. The Firestore writes and the file reading are not modelled; the
    rows arrive as sequences. */
module FirestoreImport {
  import opened Common
  import opened ItemIds

  // ---------------------------------------------------------------------------
  // Machine types.
  // ---------------------------------------------------------------------------

  /** Each accepted spelling of a machine type, half-width katakana included,
      and its type id. */
  const MachineTypeMapping: map<string, string> := map[
    "油圧ｼｮﾍﾞﾙ" := "excavator",
    "油圧ショベル" := "excavator",
    "ブルドーザー" := "bulldozer",
    "ブルドーザ" := "bulldozer",
    "不整地運搬車" := "crawler_dump",
    "コンバインドローラー" := "combined_roller",
    "振動ﾛｰﾗｰ" := "vibration_roller",
    "振動ローラー" := "vibration_roller",
    "ハンドガイド式" := "hand_guide",
    "ハンドガイド式除草機" := "hand_guide"
  ]

  /** The canonical Japanese name of each type id. */
  const MachineTypeNames: map<string, string> := map[
    "excavator" := "油圧ショベル",
    "bulldozer" := "ブルドーザー",
    "crawler_dump" := "不整地運搬車",
    "combined_roller" := "コンバインドローラー",
    "vibration_roller" := "振動ローラー",
    "hand_guide" := "ハンドガイド式除草機"
  ]

  /** Looks a spelling up; None for every spelling the table does not list. */
  function NormalizeMachineType(spelling: string): (typeId: Option<string>)
    ensures typeId.Some? <==> spelling in MachineTypeMapping
    ensures typeId.Some? ==> typeId.value in MachineTypeNames
  {
    if spelling in MachineTypeMapping then Some(MachineTypeMapping[spelling]) else None
  }

  /** The canonical name of every type normalises back to its id. */
  lemma CanonicalNameNormalizes(typeId: string)
    requires typeId in MachineTypeNames
    ensures NormalizeMachineType(MachineTypeNames[typeId]) == Some(typeId)
  {
  }

  predicate Bracketed(s: string) {
    '（' in s || '(' in s
  }

  /** None of the spellings carries a bracket. */
  lemma ExcavatorSpellingsPlain()
    ensures !Bracketed("油圧ｼｮﾍﾞﾙ") && !Bracketed("油圧ショベル")
  {
  }

  lemma BulldozerSpellingsPlain()
    ensures !Bracketed("ブルドーザー") && !Bracketed("ブルドーザ") && !Bracketed("不整地運搬車")
  {
  }

  lemma RollerSpellingsPlain()
    ensures !Bracketed("コンバインドローラー") && !Bracketed("振動ﾛｰﾗｰ") && !Bracketed("振動ローラー")
  {
  }

  lemma HandGuideSpellingsPlain()
    ensures !Bracketed("ハンドガイド式") && !Bracketed("ハンドガイド式除草機")
  {
  }

  /** A spelling that carries a model code in brackets is not recognised. */
  lemma BracketedSpellingUnknown(spelling: string)
    requires Bracketed(spelling)
    ensures NormalizeMachineType(spelling) == None
  {
    ExcavatorSpellingsPlain();
    BulldozerSpellingsPlain();
    RollerSpellingsPlain();
    HandGuideSpellingsPlain();
  }

  // ---------------------------------------------------------------------------
  // Inspection items, grouped by machine type.
  // ---------------------------------------------------------------------------

  /** A row of the inspection-item CSV file: machine type, item, inspection point
      and the law column. */
  datatype ItemRow = ItemRow(machineType: string, caption: string, point: string, lawMark: string)

  /** An item document; `caption` is the item's label. */
  datatype Item = Item(id: string, caption: string, description: string, lawRequired: bool,
                       kind: string, choices: seq<string>, order: nat)

  const LawMark := "★"

  /** The item made from a row that is the `order`-th of its machine type, its
      id given by `idOf` (the import uses ItemId). */
  function MakeItem(row: ItemRow, idOf: string -> string, order: nat): Item {
    Item(idOf(row.caption), row.caption, row.point, row.lawMark == LawMark, "choice", ["good", "bad"], order)
  }

  /** The rows of one machine type, in file order; `typeOf` normalises the
      spelling of a row's machine type (the import uses NormalizeMachineType). */
  function RowsOf(rows: seq<ItemRow>, typeOf: string -> Option<string>, typeId: string): seq<ItemRow> {
    if |rows| == 0 then []
    else
      var init := RowsOf(rows[..|rows| - 1], typeOf, typeId);
      if typeOf(rows[|rows| - 1].machineType) == Some(typeId) then init + [rows[|rows| - 1]] else init
  }

  /** The rows of a type are exactly the rows whose spelling normalises to it. */
  lemma {:induction false} RowsOfMembers(rows: seq<ItemRow>, typeOf: string -> Option<string>, typeId: string)
    ensures forall row :: row in RowsOf(rows, typeOf, typeId) <==>
      row in rows && typeOf(row.machineType) == Some(typeId)
  {
    if |rows| > 0 {
      var init := rows[..|rows| - 1];
      RowsOfMembers(init, typeOf, typeId);
      assert rows == init + [rows[|rows| - 1]];
    }
  }

  /** The items of one machine type after the rows have been read, in file
      order: a row of that type appends its item, numbered after the others. */
  function ItemsOf(rows: seq<ItemRow>, typeOf: string -> Option<string>, typeId: string, idOf: string -> string): seq<Item> {
    if |rows| == 0 then []
    else
      var init := ItemsOf(rows[..|rows| - 1], typeOf, typeId, idOf);
      if typeOf(rows[|rows| - 1].machineType) == Some(typeId)
      then init + [MakeItem(rows[|rows| - 1], idOf, |init| + 1)]
      else init
  }

  /** One item per row of the type: the k-th item is made from the k-th row of
      that type and numbered k + 1. */
  lemma {:induction false} ItemsOfRows(rows: seq<ItemRow>, typeOf: string -> Option<string>, typeId: string, idOf: string -> string)
    ensures |ItemsOf(rows, typeOf, typeId, idOf)| == |RowsOf(rows, typeOf, typeId)|
    ensures forall k :: 0 <= k < |RowsOf(rows, typeOf, typeId)| ==>
      ItemsOf(rows, typeOf, typeId, idOf)[k] == MakeItem(RowsOf(rows, typeOf, typeId)[k], idOf, k + 1)
  {
    if |rows| > 0 {
      ItemsOfRows(rows[..|rows| - 1], typeOf, typeId, idOf);
    }
  }

  /** The type ids of the rows whose machine type is recognised. */
  function TypesOf(rows: seq<ItemRow>, typeOf: string -> Option<string>): set<string> {
    set row | row in rows && typeOf(row.machineType).Some? :: typeOf(row.machineType).value
  }

  /** A type id has a group exactly when it has at least one row. */
  lemma TypesOfRows(rows: seq<ItemRow>, typeOf: string -> Option<string>, t: string)
    ensures t in TypesOf(rows, typeOf) <==> |RowsOf(rows, typeOf, t)| > 0
  {
    RowsOfMembers(rows, typeOf, t);
    if t in TypesOf(rows, typeOf) {
      var row :| row in rows && typeOf(row.machineType) == Some(t);
      assert row in RowsOf(rows, typeOf, t);
    }
    if |RowsOf(rows, typeOf, t)| > 0 {
      assert RowsOf(rows, typeOf, t)[0] in RowsOf(rows, typeOf, t);
    }
  }

  /** The groups hold the items of exactly the recognised types of `rows`. */
  predicate Grouped(itemsByType: map<string, seq<Item>>, rows: seq<ItemRow>,
                    typeOf: string -> Option<string>, idOf: string -> string) {
    itemsByType.Keys == TypesOf(rows, typeOf) &&
    forall t :: t in itemsByType ==> itemsByType[t] == ItemsOf(rows, typeOf, t, idOf)
  }

  /** What reading one more row does to the rows of each type. */
  lemma RowsNext(rows: seq<ItemRow>, typeOf: string -> Option<string>, i: nat, t: string)
    requires i < |rows|
    ensures RowsOf(rows[..i + 1], typeOf, t) ==
      if typeOf(rows[i].machineType) == Some(t) then RowsOf(rows[..i], typeOf, t) + [rows[i]]
      else RowsOf(rows[..i], typeOf, t)
  {
    assert rows[..i + 1][..i] == rows[..i];
  }

  lemma TypesNext(rows: seq<ItemRow>, typeOf: string -> Option<string>, i: nat)
    requires i < |rows|
    ensures TypesOf(rows[..i + 1], typeOf) ==
      match typeOf(rows[i].machineType)
      case None => TypesOf(rows[..i], typeOf)
      case Some(t) => TypesOf(rows[..i], typeOf) + {t}
  {
    assert rows[..i + 1] == rows[..i] + [rows[i]];
  }

  lemma ItemsNext(rows: seq<ItemRow>, typeOf: string -> Option<string>, i: nat, idOf: string -> string, u: string)
    requires i < |rows|
    ensures ItemsOf(rows[..i + 1], typeOf, u, idOf) ==
      if typeOf(rows[i].machineType) == Some(u)
      then ItemsOf(rows[..i], typeOf, u, idOf) + [MakeItem(rows[i], idOf, |ItemsOf(rows[..i], typeOf, u, idOf)| + 1)]
      else ItemsOf(rows[..i], typeOf, u, idOf)
  {
    assert rows[..i + 1][..i] == rows[..i];
  }

  /** A row of an unknown type changes no group. */
  lemma GroupedSkip(itemsByType: map<string, seq<Item>>, rows: seq<ItemRow>, typeOf: string -> Option<string>,
                    i: nat, idOf: string -> string)
    requires i < |rows| && Grouped(itemsByType, rows[..i], typeOf, idOf)
    requires typeOf(rows[i].machineType).None?
    ensures Grouped(itemsByType, rows[..i + 1], typeOf, idOf)
  {
    TypesNext(rows, typeOf, i);
    forall u | u in itemsByType
      ensures itemsByType[u] == ItemsOf(rows[..i + 1], typeOf, u, idOf)
    {
      ItemsNext(rows, typeOf, i, idOf, u);
    }
  }

  /** A row of type t appends its item, numbered after the others, to group t. */
  lemma GroupedAppend(itemsByType: map<string, seq<Item>>, rows: seq<ItemRow>, typeOf: string -> Option<string>,
                      i: nat, idOf: string -> string, t: string, group: seq<Item>)
    requires i < |rows| && Grouped(itemsByType, rows[..i], typeOf, idOf)
    requires typeOf(rows[i].machineType) == Some(t)
    requires group == if t in itemsByType then itemsByType[t] else []
    ensures Grouped(itemsByType[t := group + [MakeItem(rows[i], idOf, |group| + 1)]], rows[..i + 1], typeOf, idOf)
  {
    assert group == ItemsOf(rows[..i], typeOf, t, idOf) by {
      if t !in itemsByType {
        TypesOfRows(rows[..i], typeOf, t);
        ItemsOfRows(rows[..i], typeOf, t, idOf);
      }
    }
    var m := itemsByType[t := group + [MakeItem(rows[i], idOf, |group| + 1)]];
    assert m.Keys == TypesOf(rows[..i + 1], typeOf) by {
      TypesNext(rows, typeOf, i);
    }
    assert forall u :: u in m ==> m[u] == ItemsOf(rows[..i + 1], typeOf, u, idOf) by {
      forall u | u in m
        ensures m[u] == ItemsOf(rows[..i + 1], typeOf, u, idOf)
      {
        ItemsNext(rows, typeOf, i, idOf, u);
      }
    }
  }

  /** `import_inspection_items` up to the writes: each row of a recognised type
      becomes the next item of its type; rows of other types are skipped. */
  method ImportInspectionItems(rows: seq<ItemRow>) returns (itemsByType: map<string, seq<Item>>)
    ensures itemsByType.Keys == TypesOf(rows, NormalizeMachineType)
    ensures forall t :: t in itemsByType ==> itemsByType[t] == ItemsOf(rows, NormalizeMachineType, t, ItemId)
  {
    itemsByType := map[];
    for i := 0 to |rows|
      invariant Grouped(itemsByType, rows[..i], NormalizeMachineType, ItemId)
    {
      var row := rows[i];
      var typeId := NormalizeMachineType(row.machineType);
      if typeId.None? {
        GroupedSkip(itemsByType, rows, NormalizeMachineType, i, ItemId);
      } else {
        var t := typeId.value;
        var group := if t in itemsByType then itemsByType[t] else [];
        GroupedAppend(itemsByType, rows, NormalizeMachineType, i, ItemId, t, group);
        var id := GenerateItemId(row.caption);
        var item := Item(id, row.caption, row.point, row.lawMark == LawMark, "choice", ["good", "bad"], |group| + 1);
        itemsByType := itemsByType[t := group + [item]];
      }
    }
    assert rows[..|rows|] == rows;
  }

  /** Every group belongs to a known type id, and every item id is clean. */
  lemma ImportedGroupsKnown(rows: seq<ItemRow>, t: string)
    requires t in TypesOf(rows, NormalizeMachineType)
    ensures t in MachineTypeNames
    ensures forall item :: item in ItemsOf(rows, NormalizeMachineType, t, ItemId) ==> CleanId(item.id)
  {
    ItemsOfRows(rows, NormalizeMachineType, t, ItemId);
    ReplacementsValid();
    forall item | item in ItemsOf(rows, NormalizeMachineType, t, ItemId)
      ensures CleanId(item.id)
    {
      var k :| 0 <= k < |ItemsOf(rows, NormalizeMachineType, t, ItemId)| && ItemsOf(rows, NormalizeMachineType, t, ItemId)[k] == item;
      ItemIdShape(Replacements, RowsOf(rows, NormalizeMachineType, t)[k].caption);
    }
  }

  /** The `items` sub-collection after a group is written, keyed by item id:
      writing in order, a later item with the same id replaces an earlier one. */
  function ItemDocuments(items: seq<Item>): map<string, Item> {
    if |items| == 0 then map[]
    else ItemDocuments(items[..|items| - 1])[items[|items| - 1].id := items[|items| - 1]]
  }

  /** There is one document per distinct id, and it holds the last item with
      that id. */
  lemma {:induction false} ItemDocumentsLastWins(items: seq<Item>)
    ensures ItemDocuments(items).Keys == set item | item in items :: item.id
    ensures forall k :: 0 <= k < |items| && (forall k' :: k < k' < |items| ==> items[k'].id != items[k].id) ==>
      ItemDocuments(items)[items[k].id] == items[k]
  {
    if |items| > 0 {
      var init := items[..|items| - 1];
      var last := items[|items| - 1];
      ItemDocumentsLastWins(init);
      assert items == init + [last];
      forall k | 0 <= k < |items| && (forall k' :: k < k' < |items| ==> items[k'].id != items[k].id)
        ensures ItemDocuments(items)[items[k].id] == items[k]
      {
        if k < |init| {
          assert init[k] == items[k];
          assert forall k' :: k < k' < |init| ==> init[k'].id != init[k].id by {
            forall k' | k < k' < |init|
              ensures init[k'].id != init[k].id
            {
              assert init[k'] == items[k'];
            }
          }
        }
      }
    }
  }

  /** The name written to a machine-type document: the canonical name, or the
      type id itself for an id without one. */
  function TypeDocumentName(typeId: string): (name: string)
    ensures typeId in MachineTypeNames ==> name == MachineTypeNames[typeId]
    ensures typeId !in MachineTypeNames ==> name == typeId
  {
    if typeId in MachineTypeNames then MachineTypeNames[typeId] else typeId
  }

  // ---------------------------------------------------------------------------
  // Machines.
  // ---------------------------------------------------------------------------

  /** A row of the machine CSV file: machine type, model and unit number. */
  datatype MachineRow = MachineRow(machineType: string, model: string, unitNumber: string)

  /** A machine document, without its creation timestamp. */
  datatype Machine = Machine(typeId: string, typeName: string, model: string, unitNumber: string, isActive: bool)

  /** The machine made from a row whose type normalises to `typeId`; the name
      falls back to the row's own spelling for an id without a canonical name. */
  function MakeMachine(row: MachineRow, typeId: string): Machine {
    Machine(typeId, if typeId in MachineTypeNames then MachineTypeNames[typeId] else row.machineType,
            row.model, row.unitNumber, true)
  }

  /** The machines of the rows of a recognised type, in file order. */
  function MachinesOf(rows: seq<MachineRow>): seq<Machine> {
    if |rows| == 0 then []
    else
      var init := MachinesOf(rows[..|rows| - 1]);
      match NormalizeMachineType(rows[|rows| - 1].machineType)
      case None => init
      case Some(t) => init + [MakeMachine(rows[|rows| - 1], t)]
  }

  /** The number of rows whose type is not recognised. */
  function UnknownRows(rows: seq<MachineRow>): nat {
    if |rows| == 0 then 0
    else UnknownRows(rows[..|rows| - 1]) + (if NormalizeMachineType(rows[|rows| - 1].machineType).None? then 1 else 0)
  }

  /** Every row is either imported or skipped as unknown; every imported machine
      is active, of a known type, and carries that type's canonical name. */
  lemma {:induction false} MachinesOfRows(rows: seq<MachineRow>)
    ensures |MachinesOf(rows)| + UnknownRows(rows) == |rows|
    ensures forall m :: m in MachinesOf(rows) ==>
      m.isActive && m.typeId in MachineTypeNames && m.typeName == MachineTypeNames[m.typeId]
  {
    if |rows| > 0 {
      MachinesOfRows(rows[..|rows| - 1]);
    }
  }

  /** How many machines carry a type name. */
  function Count(machines: seq<Machine>, typeName: string): nat {
    if |machines| == 0 then 0
    else Count(machines[..|machines| - 1], typeName) + (if machines[|machines| - 1].typeName == typeName then 1 else 0)
  }

  /** The type names of the machines. */
  function NamesOf(machines: seq<Machine>): set<string> {
    set m | m in machines :: m.typeName
  }

  lemma CountNext(machines: seq<Machine>, j: nat, n: string)
    requires j < |machines|
    ensures Count(machines[..j + 1], n) == Count(machines[..j], n) + (if machines[j].typeName == n then 1 else 0)
  {
    assert machines[..j + 1][..j] == machines[..j];
  }

  /** A name occurs among the machines exactly when its count is positive. */
  lemma {:induction false} CountPositive(machines: seq<Machine>, n: string)
    ensures Count(machines, n) > 0 <==> n in NamesOf(machines)
  {
    if |machines| > 0 {
      var init := machines[..|machines| - 1];
      CountPositive(init, n);
      assert machines == init + [machines[|machines| - 1]];
      assert NamesOf(machines) == NamesOf(init) + {machines[|machines| - 1].typeName};
    }
  }

  /** The tally is the count of every name that occurs. */
  predicate Tallied(byType: map<string, nat>, machines: seq<Machine>) {
    byType.Keys == NamesOf(machines) &&
    forall n :: n in byType ==> byType[n] == Count(machines, n)
  }

  lemma TallyStep(byType: map<string, nat>, machines: seq<Machine>, j: nat, previous: nat)
    requires j < |machines| && Tallied(byType, machines[..j])
    requires previous == if machines[j].typeName in byType then byType[machines[j].typeName] else 0
    ensures Tallied(byType[machines[j].typeName := previous + 1], machines[..j + 1])
  {
    var n := machines[j].typeName;
    assert previous == Count(machines[..j], n) by {
      if n !in byType {
        CountPositive(machines[..j], n);
      }
    }
    assert machines[..j + 1] == machines[..j] + [machines[j]];
    assert NamesOf(machines[..j + 1]) == NamesOf(machines[..j]) + {n};
    var updated := byType[n := previous + 1];
    forall u | u in updated
      ensures updated[u] == Count(machines[..j + 1], u)
    {
      CountNext(machines, j, u);
    }
  }

  lemma MachinesNext(rows: seq<MachineRow>, i: nat)
    requires i < |rows|
    ensures MachinesOf(rows[..i + 1]) ==
      match NormalizeMachineType(rows[i].machineType)
      case None => MachinesOf(rows[..i])
      case Some(t) => MachinesOf(rows[..i]) + [MakeMachine(rows[i], t)]
  {
    assert rows[..i + 1][..i] == rows[..i];
  }

  /** `import_machines` up to the writes: the machines of the recognised rows,
      in file order, and the number of machines of each type name. */
  method ImportMachines(rows: seq<MachineRow>) returns (machines: seq<Machine>, byType: map<string, nat>)
    ensures machines == MachinesOf(rows)
    ensures byType.Keys == NamesOf(machines)
    ensures forall n :: n in byType ==> byType[n] == Count(machines, n)
  {
    machines := [];
    for i := 0 to |rows|
      invariant machines == MachinesOf(rows[..i])
    {
      MachinesNext(rows, i);
      var row := rows[i];
      var typeId := NormalizeMachineType(row.machineType);
      if typeId.Some? {
        var name := if typeId.value in MachineTypeNames then MachineTypeNames[typeId.value] else row.machineType;
        machines := machines + [Machine(typeId.value, name, row.model, row.unitNumber, true)];
      }
    }
    assert rows[..|rows|] == rows;
    byType := map[];
    for j := 0 to |machines|
      invariant Tallied(byType, machines[..j])
    {
      var name := machines[j].typeName;
      var count := if name in byType then byType[name] else 0;
      TallyStep(byType, machines, j, count);
      byType := byType[name := count + 1];
    }
    assert machines[..|machines|] == machines;
  }

  // ---------------------------------------------------------------------------
  // The tally adds up.
  // ---------------------------------------------------------------------------

  /** The sum of the counts of a list of names. */
  function SumCounts(machines: seq<Machine>, names: seq<string>): nat {
    if |names| == 0 then 0 else Count(machines, names[0]) + SumCounts(machines, names[1..])
  }

  /** How many times a name occurs in a list. */
  function Hits(names: seq<string>, n: string): nat {
    if |names| == 0 then 0 else (if names[0] == n then 1 else 0) + Hits(names[1..], n)
  }

  predicate Distinct(names: seq<string>) {
    forall a, b :: 0 <= a < b < |names| ==> names[a] != names[b]
  }

  lemma {:induction false} HitsOnce(names: seq<string>, n: string)
    requires Distinct(names)
    ensures Hits(names, n) == if n in names then 1 else 0
  {
    if |names| > 0 {
      assert Distinct(names[1..]) by {
        forall a, b | 0 <= a < b < |names[1..]|
          ensures names[1..][a] != names[1..][b]
        {
          assert names[1..][a] == names[a + 1] && names[1..][b] == names[b + 1];
        }
      }
      HitsOnce(names[1..], n);
      if names[0] == n {
        assert n !in names[1..] by {
          forall k | 0 <= k < |names[1..]|
            ensures names[1..][k] != n
          {
            assert names[1..][k] == names[k + 1];
          }
        }
      }
      assert names == [names[0]] + names[1..];
    }
  }

  lemma {:induction false} SumCountsSnoc(machines: seq<Machine>, m: Machine, names: seq<string>)
    ensures SumCounts(machines + [m], names) == SumCounts(machines, names) + Hits(names, m.typeName)
  {
    if |names| > 0 {
      SumCountsSnoc(machines, m, names[1..]);
      assert (machines + [m])[..|machines + [m]| - 1] == machines;
    }
  }

  /** Counting over a list of distinct names that covers every machine's name
      counts every machine exactly once. */
  lemma {:induction false} SumCountsTotal(machines: seq<Machine>, names: seq<string>)
    requires Distinct(names)
    requires forall m :: m in machines ==> m.typeName in names
    ensures SumCounts(machines, names) == |machines|
  {
    if |machines| == 0 {
      SumCountsZero(names);
    } else {
      var init := machines[..|machines| - 1];
      var last := machines[|machines| - 1];
      assert machines == init + [last];
      SumCountsTotal(init, names);
      SumCountsSnoc(init, last, names);
      HitsOnce(names, last.typeName);
    }
  }

  lemma {:induction false} SumCountsZero(names: seq<string>)
    ensures SumCounts([], names) == 0
  {
    if |names| > 0 {
      SumCountsZero(names[1..]);
    }
  }

  /** The canonical names, one per type id. */
  const CanonicalNames: seq<string> :=
    ["油圧ショベル", "ブルドーザー", "不整地運搬車", "コンバインドローラー", "振動ローラー", "ハンドガイド式除草機"]

  lemma CanonicalNamesCover(typeId: string)
    requires typeId in MachineTypeNames
    ensures MachineTypeNames[typeId] in CanonicalNames
  {
  }

  lemma CanonicalNamesDistinct()
    ensures Distinct(CanonicalNames)
  {
  }

  /** The per-type summary accounts for every imported machine: summing the
      count of each canonical name gives the number of machines. */
  lemma TallyAddsUp(rows: seq<MachineRow>)
    ensures SumCounts(MachinesOf(rows), CanonicalNames) == |MachinesOf(rows)|
  {
    MachinesOfRows(rows);
    CanonicalNamesDistinct();
    forall m | m in MachinesOf(rows)
      ensures m.typeName in CanonicalNames
    {
      CanonicalNamesCover(m.typeId);
    }
    SumCountsTotal(MachinesOf(rows), CanonicalNames);
  }
}
