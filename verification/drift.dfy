/** Structural drift between two captured schemas (tools/drift_checker.py). */
module Drift {
  import opened Ordering

  datatype Detail = Detail(name: string, typ: string, nullable: bool, default: Option<string>)

  /** The tuples a snapshot holds. */
  datatype Value =
    | Names(names: seq<string>)
    | Details(details: seq<Detail>)
    | Triples(triples: seq<(string, string, string)>)
    | Pairs(pairs: seq<(string, string)>)

  datatype Snapshot = Snapshot(
    tables: seq<string>,
    columns: map<string, Value>,
    indexes: map<string, Value>,
    columnDetails: map<string, Value>,
    primaryKeys: map<string, Value>,
    foreignKeys: map<string, Value>,
    uniqueConstraints: map<string, Value>,
    views: seq<string>,
    tableOptions: map<string, Value>)

  datatype Kind =
    | Tables | Views
    | Columns | Indexes | ColumnDetails | PrimaryKeys | ForeignKeys | UniqueConstraints | TableOptions

  datatype DriftItem = DriftItem(kind: Kind, objectName: string, expected: Option<Value>, actual: Option<Value>)

  const PER_TABLE: seq<Kind> :=
    [Columns, Indexes, ColumnDetails, PrimaryKeys, ForeignKeys, UniqueConstraints, TableOptions]

  predicate IsPerTable(k: Kind) {
    !k.Tables? && !k.Views?
  }

  function Field(s: Snapshot, k: Kind): map<string, Value>
    requires IsPerTable(k)
  {
    match k
    case Columns => s.columns
    case Indexes => s.indexes
    case ColumnDetails => s.columnDetails
    case PrimaryKeys => s.primaryKeys
    case ForeignKeys => s.foreignKeys
    case UniqueConstraints => s.uniqueConstraints
    case TableOptions => s.tableOptions
  }

  function WithField(s: Snapshot, k: Kind, f: map<string, Value>): (r: Snapshot)
    requires IsPerTable(k)
    ensures r.tables == s.tables && r.views == s.views
    ensures forall j: Kind | IsPerTable(j) :: Field(r, j) == if j == k then f else Field(s, j)
  {
    match k
    case Columns => s.(columns := f)
    case Indexes => s.(indexes := f)
    case ColumnDetails => s.(columnDetails := f)
    case PrimaryKeys => s.(primaryKeys := f)
    case ForeignKeys => s.(foreignKeys := f)
    case UniqueConstraints => s.(uniqueConstraints := f)
    case TableOptions => s.(tableOptions := f)
  }

  /** `field.get(table)` */
  function At(s: Snapshot, k: Kind, table: string): Option<Value>
    requires IsPerTable(k)
  {
    if table in Field(s, k) then Some(Field(s, k)[table]) else None
  }

  // ----- the diff -----

  function WholeItem(k: Kind, e: seq<string>, a: seq<string>): seq<DriftItem> {
    if e != a then [DriftItem(k, "__all__", Some(Names(e)), Some(Names(a)))] else []
  }

  function TableItem(e: Snapshot, a: Snapshot, table: string, k: Kind): seq<DriftItem>
    requires IsPerTable(k)
  {
    if At(e, k, table) != At(a, k, table) then [DriftItem(k, table, At(e, k, table), At(a, k, table))] else []
  }

  predicate PerTableOnly(kinds: seq<Kind>) {
    forall i | 0 <= i < |kinds| :: IsPerTable(kinds[i])
  }

  function TableItems(e: Snapshot, a: Snapshot, table: string, kinds: seq<Kind>): seq<DriftItem>
    requires PerTableOnly(kinds)
  {
    if kinds == [] then [] else TableItem(e, a, table, kinds[0]) + TableItems(e, a, table, kinds[1..])
  }

  function AllTableItems(e: Snapshot, a: Snapshot, tables: seq<string>): seq<DriftItem> {
    if tables == [] then [] else TableItems(e, a, tables[0], PER_TABLE) + AllTableItems(e, a, tables[1..])
  }

  function Compared(e: Snapshot, a: Snapshot): set<string> {
    e.columns.Keys + a.columns.Keys
  }

  function Diff(e: Snapshot, a: Snapshot): seq<DriftItem> {
    WholeItem(Tables, e.tables, a.tables) + WholeItem(Views, e.views, a.views)
    + AllTableItems(e, a, Sorted(Compared(e, a)))
  }

  // ----- what the items are -----

  /** What the diff lists, by kind. */
  ghost predicate Listed(x: DriftItem, e: Snapshot, a: Snapshot) {
    match x.kind
    case Tables => x.objectName == "__all__" && e.tables != a.tables && x.expected == Some(Names(e.tables))
      && x.actual == Some(Names(a.tables))
    case Views => x.objectName == "__all__" && e.views != a.views && x.expected == Some(Names(e.views))
      && x.actual == Some(Names(a.views))
    case k =>
      && x.objectName in Compared(e, a)
      && x.expected == At(e, k, x.objectName) && x.actual == At(a, k, x.objectName) && x.expected != x.actual
  }

  lemma {:induction false} TableItemsAre(e: Snapshot, a: Snapshot, table: string, kinds: seq<Kind>, x: DriftItem)
    requires PerTableOnly(kinds)
    ensures x in TableItems(e, a, table, kinds)
       <==> x.kind in kinds && x.objectName == table && x in TableItem(e, a, table, x.kind)
  {
    if kinds != [] {
      hide At;
      assert PerTableOnly(kinds[1..]);
      TableItemsAre(e, a, table, kinds[1..], x);
      assert x.kind in kinds <==> x.kind == kinds[0] || x.kind in kinds[1..];
    }
  }

  lemma {:induction false} AllTableItemsAre(e: Snapshot, a: Snapshot, tables: seq<string>, x: DriftItem)
    ensures x in AllTableItems(e, a, tables)
       <==> IsPerTable(x.kind) && x.objectName in tables && x in TableItem(e, a, x.objectName, x.kind)
  {
    if tables != [] {
      hide TableItem, TableItems;
      AllTableItemsAre(e, a, tables[1..], x);
      TableItemsAre(e, a, tables[0], PER_TABLE, x);
      assert IsPerTable(x.kind) <==> x.kind in PER_TABLE;
      assert x.objectName in tables <==> x.objectName == tables[0] || x.objectName in tables[1..];
    }
  }

  /** The diff lists exactly these. */
  lemma DiffLists(e: Snapshot, a: Snapshot, x: DriftItem)
    ensures x in Diff(e, a) <==> Listed(x, e, a)
  {
    hide AllTableItems, Sorted, At, TableItem;
    var rest := AllTableItems(e, a, Sorted(Compared(e, a)));
    AllTableItemsAre(e, a, Sorted(Compared(e, a)), x);
    var tables, views := WholeItem(Tables, e.tables, a.tables), WholeItem(Views, e.views, a.views);
    assert x in Diff(e, a) <==> x in tables || x in views || x in rest;
    if IsPerTable(x.kind) { TableItemIs(e, a, x); }
  }

  lemma TableItemIs(e: Snapshot, a: Snapshot, x: DriftItem)
    requires IsPerTable(x.kind)
    ensures x in TableItem(e, a, x.objectName, x.kind) <==>
      x.expected == At(e, x.kind, x.objectName) && x.actual == At(a, x.kind, x.objectName) && x.expected != x.actual
  {
  }

  /** A map has another value for the table than the other, or one of them has none. */
  ghost predicate Differs(x: DriftItem, e: map<string, Value>, a: map<string, Value>, tables: set<string>) {
    && x.objectName in tables
    && x.expected == (if x.objectName in e then Some(e[x.objectName]) else None)
    && x.actual == (if x.objectName in a then Some(a[x.objectName]) else None)
    && x.expected != x.actual
  }

  /** A difference between the snapshots, field by field: the tables and the views as a
      whole, and for each table that either gives columns to, its entry in each map. */
  ghost predicate IsDifference(x: DriftItem, e: Snapshot, a: Snapshot) {
    var tables := e.columns.Keys + a.columns.Keys;
    match x.kind
    case Tables => e.tables != a.tables
      && x == DriftItem(Tables, "__all__", Some(Names(e.tables)), Some(Names(a.tables)))
    case Views => e.views != a.views && x == DriftItem(Views, "__all__", Some(Names(e.views)), Some(Names(a.views)))
    case Columns => Differs(x, e.columns, a.columns, tables)
    case Indexes => Differs(x, e.indexes, a.indexes, tables)
    case ColumnDetails => Differs(x, e.columnDetails, a.columnDetails, tables)
    case PrimaryKeys => Differs(x, e.primaryKeys, a.primaryKeys, tables)
    case ForeignKeys => Differs(x, e.foreignKeys, a.foreignKeys, tables)
    case UniqueConstraints => Differs(x, e.uniqueConstraints, a.uniqueConstraints, tables)
    case TableOptions => Differs(x, e.tableOptions, a.tableOptions, tables)
  }

  /** The diff reports every difference and nothing else. */
  lemma DiffIsExact(e: Snapshot, a: Snapshot, x: DriftItem)
    ensures x in Diff(e, a) <==> IsDifference(x, e, a)
  {
    hide Diff, Differs, Listed;
    DiffLists(e, a, x);
    match x.kind
    case Tables => WholeListed(x, e, a);
    case Views => WholeListed(x, e, a);
    case _ => FieldListed(x, e, a);
  }

  lemma WholeListed(x: DriftItem, e: Snapshot, a: Snapshot)
    requires x.kind.Tables? || x.kind.Views?
    ensures Listed(x, e, a) <==> IsDifference(x, e, a)
  {
  }

  lemma FieldListed(x: DriftItem, e: Snapshot, a: Snapshot)
    requires IsPerTable(x.kind)
    ensures Listed(x, e, a) <==> Differs(x, Field(e, x.kind), Field(a, x.kind), e.columns.Keys + a.columns.Keys)
  {
    hide Field;
  }

  // ----- order -----

  function Rank(k: Kind): nat {
    match k
    case Tables => 0 case Views => 1 case Columns => 2 case Indexes => 3 case ColumnDetails => 4
    case PrimaryKeys => 5 case ForeignKeys => 6 case UniqueConstraints => 7 case TableOptions => 8
  }

  /** Whole-schema items first, then table by table in order, the kinds in a fixed order. */
  ghost predicate Before(x: DriftItem, y: DriftItem) {
    if IsPerTable(x.kind) && IsPerTable(y.kind) then
      (x.objectName != y.objectName && Leq(x.objectName, y.objectName))
      || (x.objectName == y.objectName && Rank(x.kind) < Rank(y.kind))
    else Rank(x.kind) < Rank(y.kind) && !IsPerTable(x.kind)
  }

  ghost predicate Ordered(items: seq<DriftItem>) {
    forall i, j | 0 <= i < j < |items| :: Before(items[i], items[j])
  }

  lemma OrderedConcat(s: seq<DriftItem>, t: seq<DriftItem>)
    requires Ordered(s) && Ordered(t) && forall x, y | x in s && y in t :: Before(x, y)
    ensures Ordered(s + t)
  {
    hide Before;
    forall i, j | 0 <= i < j < |s + t| ensures Before((s + t)[i], (s + t)[j]) {
      if i < |s| <= j { assert (s + t)[i] in s && (s + t)[j] in t; }
    }
  }

  lemma {:induction false} TableItemsOrdered(e: Snapshot, a: Snapshot, table: string, kinds: seq<Kind>)
    requires PerTableOnly(kinds) && forall i, j | 0 <= i < j < |kinds| :: Rank(kinds[i]) < Rank(kinds[j])
    ensures Ordered(TableItems(e, a, table, kinds))
  {
    if kinds != [] {
      hide At;
      var first, rest := TableItem(e, a, table, kinds[0]), TableItems(e, a, table, kinds[1..]);
      TableItemsOrdered(e, a, table, kinds[1..]);
      forall x, y | x in first && y in rest ensures Before(x, y) {
        TableItemsAre(e, a, table, kinds[1..], y);
        var j :| 0 <= j < |kinds| - 1 && kinds[1..][j] == y.kind;
        assert Rank(kinds[0]) < Rank(kinds[j + 1]);
      }
      OrderedConcat(first, rest);
    }
  }

  lemma {:induction false} AllTableItemsOrdered(e: Snapshot, a: Snapshot, tables: seq<string>)
    requires StrictlySorted(tables)
    ensures Ordered(AllTableItems(e, a, tables))
  {
    if tables != [] {
      hide TableItem, TableItems, AllTableItems;
      var first, rest := TableItems(e, a, tables[0], PER_TABLE), AllTableItems(e, a, tables[1..]);
      TableItemsOrdered(e, a, tables[0], PER_TABLE);
      AllTableItemsOrdered(e, a, tables[1..]);
      forall x, y | x in first && y in rest ensures Before(x, y) {
        TableItemsAre(e, a, tables[0], PER_TABLE, x);
        AllTableItemsAre(e, a, tables[1..], y);
        var j :| 0 <= j < |tables| - 1 && tables[1..][j] == y.objectName;
        assert tables[j + 1] == y.objectName;
      }
      OrderedConcat(first, rest);
      assert AllTableItems(e, a, tables) == first + rest by { AllTableItemsHead(e, a, tables); }
    } else {
      assert AllTableItems(e, a, tables) == [];
    }
  }

  lemma AllTableItemsHead(e: Snapshot, a: Snapshot, tables: seq<string>)
    requires tables != []
    ensures PerTableOnly(PER_TABLE)
    ensures AllTableItems(e, a, tables) == TableItems(e, a, tables[0], PER_TABLE) + AllTableItems(e, a, tables[1..])
  {
  }

  /** Items come table by table in sorted order, and no kind and object comes twice. */
  lemma DiffIsOrdered(e: Snapshot, a: Snapshot)
    ensures Ordered(Diff(e, a))
    ensures forall i, j | 0 <= i < j < |Diff(e, a)| ::
      Diff(e, a)[i].kind != Diff(e, a)[j].kind || Diff(e, a)[i].objectName != Diff(e, a)[j].objectName
  {
    hide AllTableItems, Sorted;
    var tables := Sorted(Compared(e, a));
    var whole := WholeItem(Tables, e.tables, a.tables) + WholeItem(Views, e.views, a.views);
    AllTableItemsOrdered(e, a, tables);
    forall x, y | x in whole && y in AllTableItems(e, a, tables) ensures Before(x, y) {
      AllTableItemsAre(e, a, tables, y);
    }
    OrderedConcat(whole, AllTableItems(e, a, tables));
    assert Diff(e, a) == whole + AllTableItems(e, a, tables);
    OrderedOnce(Diff(e, a));
  }

  lemma OrderedOnce(items: seq<DriftItem>)
    requires Ordered(items)
    ensures forall i, j | 0 <= i < j < |items|
        :: items[i].kind != items[j].kind || items[i].objectName != items[j].objectName
  {
    forall i, j | 0 <= i < j < |items|
      ensures items[i].kind != items[j].kind || items[i].objectName != items[j].objectName {
      assert Before(items[i], items[j]);
    }
  }

  // ----- the diff as a patch -----

  function PatchOne(s: Snapshot, x: DriftItem): Snapshot {
    match x.kind
    case Tables => (match x.actual case Some(Names(names)) => s.(tables := names) case _ => s)
    case Views => (match x.actual case Some(Names(names)) => s.(views := names) case _ => s)
    case k => WithField(s, k, PatchEntry(Field(s, k), x.objectName, x.actual))
  }

  function PatchEntry(f: map<string, Value>, table: string, value: Option<Value>): map<string, Value> {
    match value case None => f - {table} case Some(v) => f[table := v]
  }

  function Patch(s: Snapshot, items: seq<DriftItem>): Snapshot
    decreases |items|
  {
    if items == [] then s else Patch(PatchOne(s, items[0]), items[1..])
  }

  lemma PatchOneAt(s: Snapshot, x: DriftItem, k: Kind, table: string)
    requires IsPerTable(k)
    ensures At(PatchOne(s, x), k, table) == if x.kind == k && x.objectName == table then x.actual else At(s, k, table)
  {
    PatchOneField(s, x, k);
    hide PatchOne, Field;
  }

  lemma FieldKept(s: Snapshot, k: Kind, names: seq<string>)
    requires IsPerTable(k)
    ensures Field(s.(tables := names), k) == Field(s, k) && Field(s.(views := names), k) == Field(s, k)
  {
  }

  lemma PatchOneField(s: Snapshot, x: DriftItem, k: Kind)
    requires IsPerTable(k)
    ensures Field(PatchOne(s, x), k) == if x.kind == k then PatchEntry(Field(s, k), x.objectName, x.actual)
        else Field(s, k)
  {
    hide WithField, PatchEntry, Field;
    match x.kind
    case Tables =>
      if x.actual.Some? && x.actual.value.Names? { FieldKept(s, k, x.actual.value.names); }
    case Views =>
      if x.actual.Some? && x.actual.value.Names? { FieldKept(s, k, x.actual.value.names); }
    case _ =>
      assert PatchOne(s, x) == WithField(s, x.kind, PatchEntry(Field(s, x.kind), x.objectName, x.actual));
  }

  /** Items that report the values of `a` carry them into the patched snapshot. */
  lemma {:induction false} PatchAt(s: Snapshot, items: seq<DriftItem>, a: Snapshot, k: Kind, table: string)
    requires IsPerTable(k)
    requires forall x | x in items && x.kind == k && x.objectName == table :: x.actual == At(a, k, table)
    ensures At(Patch(s, items), k, table)
         == if exists x :: x in items && x.kind == k && x.objectName == table then At(a, k, table) else At(s, k, table)
    decreases |items|
  {
    if items != [] {
      hide At, PatchOne;
      PatchAt(PatchOne(s, items[0]), items[1..], a, k, table);
      PatchOneAt(s, items[0], k, table);
      assert items == [items[0]] + items[1..];
    }
  }

  lemma PatchOneWhole(s: Snapshot, x: DriftItem, a: Snapshot)
    requires x.kind.Tables? ==> x.actual == Some(Names(a.tables))
    requires x.kind.Views? ==> x.actual == Some(Names(a.views))
    ensures PatchOne(s, x).tables == if x.kind.Tables? then a.tables else s.tables
    ensures PatchOne(s, x).views == if x.kind.Views? then a.views else s.views
  {
    hide WithField, Field;
  }

  lemma {:induction false} PatchWhole(s: Snapshot, items: seq<DriftItem>, a: Snapshot)
    requires forall x | x in items && x.kind.Tables? :: x.actual == Some(Names(a.tables))
    requires forall x | x in items && x.kind.Views? :: x.actual == Some(Names(a.views))
    ensures Patch(s, items).tables == if exists x :: x in items && x.kind.Tables? then a.tables else s.tables
    ensures Patch(s, items).views == if exists x :: x in items && x.kind.Views? then a.views else s.views
    decreases |items|
  {
    if items != [] {
      hide PatchOne;
      PatchOneWhole(s, items[0], a);
      PatchWhole(PatchOne(s, items[0]), items[1..], a);
      assert items == [items[0]] + items[1..];
    }
  }

  /** The maps agree outside the tables that have a `columns` entry in either snapshot. */
  ghost predicate AgreeOutside(e: Snapshot, a: Snapshot) {
    forall k: Kind, table: string | IsPerTable(k) && table !in Compared(e, a) :: At(e, k, table) == At(a, k, table)
  }

  ghost predicate SameMaps(s: Snapshot, t: Snapshot) {
    forall k: Kind, table: string | IsPerTable(k) :: At(s, k, table) == At(t, k, table)
  }

  lemma SameField(s: Snapshot, t: Snapshot, k: Kind)
    requires SameMaps(s, t) && IsPerTable(k)
    ensures Field(s, k) == Field(t, k)
  {
    var f, g := Field(s, k), Field(t, k);
    forall table ensures table in f <==> table in g {
      assert At(s, k, table) == At(t, k, table);
    }
    forall table | table in f ensures f[table] == g[table] {
      assert At(s, k, table) == At(t, k, table);
    }
  }

  lemma SameSnapshot(s: Snapshot, t: Snapshot)
    requires SameMaps(s, t) && s.tables == t.tables && s.views == t.views
    ensures s == t
  {
    hide SameMaps;
    SameField(s, t, Columns);
    SameField(s, t, Indexes);
    SameField(s, t, ColumnDetails);
    SameField(s, t, PrimaryKeys);
    SameField(s, t, ForeignKeys);
    SameField(s, t, UniqueConstraints);
    SameField(s, t, TableOptions);
  }

  lemma PatchedAt(e: Snapshot, a: Snapshot, k: Kind, table: string)
    requires IsPerTable(k)
    ensures At(Patch(e, Diff(e, a)), k, table) == if table in Compared(e, a) then At(a, k, table) else At(e, k, table)
  {
    hide Diff, At, Patch;
    forall x | x in Diff(e, a) && x.kind == k && x.objectName == table
      ensures x.actual == At(a, k, table) && table in Compared(e, a)
    {
      DiffLists(e, a, x);
    }
    PatchAt(e, Diff(e, a), a, k, table);
    if table in Compared(e, a) && At(e, k, table) != At(a, k, table) {
      var x := DriftItem(k, table, At(e, k, table), At(a, k, table));
      DiffLists(e, a, x);
    }
  }

  lemma PatchedWhole(e: Snapshot, a: Snapshot)
    ensures Patch(e, Diff(e, a)).tables == a.tables && Patch(e, Diff(e, a)).views == a.views
  {
    hide Diff, Patch;
    forall x | x in Diff(e, a)
      ensures x.kind.Tables? ==> x.actual == Some(Names(a.tables))
      ensures x.kind.Views? ==> x.actual == Some(Names(a.views))
    {
      DiffLists(e, a, x);
    }
    PatchWhole(e, Diff(e, a), a);
    DiffLists(e, a, DriftItem(Tables, "__all__", Some(Names(e.tables)), Some(Names(a.tables))));
    DiffLists(e, a, DriftItem(Views, "__all__", Some(Names(e.views)), Some(Names(a.views))));
  }

  /** The diff is a complete patch from expected to actual exactly when the two agree on
      tables neither lists columns for. */
  lemma DiffIsAPatch(e: Snapshot, a: Snapshot)
    ensures Patch(e, Diff(e, a)) == a <==> AgreeOutside(e, a)
  {
    hide Diff, Patch, At, Compared;
    var p := Patch(e, Diff(e, a));
    PatchedWhole(e, a);
    forall k: Kind, table: string | IsPerTable(k)
      ensures At(p, k, table) == if table in Compared(e, a) then At(a, k, table) else At(e, k, table)
    {
      PatchedAt(e, a, k, table);
    }
    if AgreeOutside(e, a) {
      assert SameMaps(p, a);
      SameSnapshot(p, a);
    }
  }

  /** No drift is reported exactly for equal snapshots, under the same condition. */
  lemma NoDriftExactlyWhen(e: Snapshot, a: Snapshot)
    ensures Diff(e, a) == [] && AgreeOutside(e, a) <==> e == a
  {
    hide Diff, AgreeOutside;
    DiffIsAPatch(e, a);
    if e == a {
      assert AgreeOutside(e, a) by { AgreesWithItself(e); }
      if Diff(e, a) != [] { DiffLists(e, a, Diff(e, a)[0]); }
    }
  }

  lemma AgreesWithItself(e: Snapshot)
    ensures AgreeOutside(e, e)
  {
  }

  // ----- swapping -----

  function Flip(x: DriftItem): DriftItem {
    x.(expected := x.actual, actual := x.expected)
  }

  function FlipAll(items: seq<DriftItem>): seq<DriftItem> {
    if items == [] then [] else [Flip(items[0])] + FlipAll(items[1..])
  }

  lemma {:induction false} FlipConcat(s: seq<DriftItem>, t: seq<DriftItem>)
    ensures FlipAll(s + t) == FlipAll(s) + FlipAll(t)
  {
    if s == [] {
      assert s + t == t;
    } else {
      assert (s + t)[1..] == s[1..] + t;
      FlipConcat(s[1..], t);
    }
  }

  lemma {:induction false} TableItemsFlip(e: Snapshot, a: Snapshot, table: string, kinds: seq<Kind>)
    requires PerTableOnly(kinds)
    ensures TableItems(a, e, table, kinds) == FlipAll(TableItems(e, a, table, kinds))
  {
    if kinds != [] {
      hide At;
      TableItemsFlip(e, a, table, kinds[1..]);
      FlipConcat(TableItem(e, a, table, kinds[0]), TableItems(e, a, table, kinds[1..]));
    }
  }

  lemma {:induction false} AllTableItemsFlip(e: Snapshot, a: Snapshot, tables: seq<string>)
    ensures AllTableItems(a, e, tables) == FlipAll(AllTableItems(e, a, tables))
  {
    if tables != [] {
      hide TableItems;
      AllTableItemsFlip(e, a, tables[1..]);
      TableItemsFlip(e, a, tables[0], PER_TABLE);
      FlipConcat(TableItems(e, a, tables[0], PER_TABLE), AllTableItems(e, a, tables[1..]));
    }
  }

  /** Swapping the snapshots swaps expected with actual in every item, in place. */
  lemma DiffFlips(e: Snapshot, a: Snapshot)
    ensures Diff(a, e) == FlipAll(Diff(e, a))
  {
    hide AllTableItems, Sorted;
    assert Compared(a, e) == Compared(e, a);
    var tables := Sorted(Compared(e, a));
    AllTableItemsFlip(e, a, tables);
    var t, v := WholeItem(Tables, e.tables, a.tables), WholeItem(Views, e.views, a.views);
    FlipConcat(t + v, AllTableItems(e, a, tables));
    FlipConcat(t, v);
  }

  // ----- what a capture looks like -----

  /** Every per-table map speaks only of tables that have a `columns` entry. */
  ghost predicate Covered(s: Snapshot) {
    forall k: Kind | IsPerTable(k) :: Field(s, k).Keys <= s.columns.Keys
  }

  lemma CoveredAgreeOutside(e: Snapshot, a: Snapshot)
    requires Covered(e) && Covered(a)
    ensures AgreeOutside(e, a)
  {
  }

  datatype ColumnRow = ColumnRow(table: string, name: string, typ: string, defaultKind: string,
                                 defaultExpression: string)
  datatype TableRow = TableRow(name: string, cells: seq<string>)

  function DetailOf(row: ColumnRow): Detail {
    Detail(row.name, row.typ, false, if row.defaultKind != "" then Some(row.defaultExpression) else None)
  }

  /** One table's rows, in the order of the query. */
  function RowsOf(rows: seq<ColumnRow>, table: string): seq<Detail> {
    if rows == [] then []
    else
      var last := rows[|rows| - 1];
      RowsOf(rows[..|rows| - 1], table) + (if last.table == table then [DetailOf(last)] else [])
  }

  /** The rows of one table. */
  function OfTable(rows: seq<ColumnRow>, table: string): seq<ColumnRow> {
    if rows == [] then []
    else (if rows[0].table == table then [rows[0]] else []) + OfTable(rows[1..], table)
  }

  lemma {:induction false} OfTableAppend(rows: seq<ColumnRow>, row: ColumnRow, table: string)
    ensures OfTable(rows + [row], table) == OfTable(rows, table) + if row.table == table then [row] else []
  {
    var all := rows + [row];
    if rows == [] {
      assert all == [row] && all[1..] == [];
      assert OfTable([], table) == [];
    } else {
      assert all[0] == rows[0] && all[1..] == rows[1..] + [row];
      OfTableAppend(rows[1..], row, table);
      var first, rest := if rows[0].table == table then [rows[0]] else [], OfTable(rows[1..], table);
      var last := if row.table == table then [row] else [];
      Regroup(first, rest, last);
    }
  }

  /** A table's details: one for each of its rows, in the order of the query, with the row's
      name and type, never nullable, and a default only where the query names its kind. */
  lemma {:induction false} DetailsAre(rows: seq<ColumnRow>, table: string)
    ensures |RowsOf(rows, table)| == |OfTable(rows, table)|
    ensures forall i | 0 <= i < |RowsOf(rows, table)| ::
      var row, detail := OfTable(rows, table)[i], RowsOf(rows, table)[i];
      && detail.name == row.name && detail.typ == row.typ && !detail.nullable
      && (row.defaultKind == "" ==> detail.default == None)
      && (row.defaultKind != "" ==> detail.default == Some(row.defaultExpression))
  {
    if rows != [] {
      var front, last := rows[..|rows| - 1], rows[|rows| - 1];
      assert rows == front + [last];
      DetailsAre(front, table);
      OfTableAppend(front, last, table);
    }
  }

  method GroupRows(tables: seq<string>, rows: seq<ColumnRow>) returns (grouped: map<string, seq<Detail>>)
    ensures grouped.Keys == (set t | t in tables) + (set r | r in rows :: r.table)
    ensures forall t | t in grouped :: grouped[t] == RowsOf(rows, t)
  {
    grouped := map t | t in tables :: [];
    var i := 0;
    while i < |rows|
      invariant 0 <= i <= |rows|
      invariant grouped.Keys == (set t | t in tables) + (set r | r in rows[..i] :: r.table)
      invariant forall t :: (if t in grouped then grouped[t] else []) == RowsOf(rows[..i], t)
    {
      var row := rows[i];
      assert rows[..i + 1] == rows[..i] + [row];
      assert rows[..i + 1][..i] == rows[..i];
      var before := if row.table in grouped then grouped[row.table] else [];
      grouped := grouped[row.table := before + [DetailOf(row)]];
      i := i + 1;
    }
    assert rows[..i] == rows;
  }

  function NamesOf(details: seq<Detail>): (r: seq<string>)
    ensures |r| == |details| && forall i | 0 <= i < |r| :: r[i] == details[i].name
  {
    seq(|details|, i requires 0 <= i < |details| => details[i].name)
  }

  const OPTION_NAMES: seq<string> := ["engine", "sorting_key", "partition_key", "primary_key"]

  /** `zip(OPTION_NAMES, row[1:])` */
  function Zipped(names: seq<string>, cells: seq<string>): seq<(string, string)> {
    if names == [] || cells == [] then [] else [(names[0], cells[0])] + Zipped(names[1..], cells[1..])
  }

  /** The first four cells after the name, each under its option's name. */
  lemma {:induction false} ZippedAre(names: seq<string>, cells: seq<string>)
    ensures |Zipped(names, cells)| == if |names| < |cells| then |names| else |cells|
    ensures forall i | 0 <= i < |Zipped(names, cells)| :: Zipped(names, cells)[i] == (names[i], cells[i])
  {
    if names != [] && cells != [] { ZippedAre(names[1..], cells[1..]); }
  }

  function Options(rows: seq<TableRow>): map<string, Value> {
    if rows == [] then map[]
    else
      var last := rows[|rows| - 1];
      Options(rows[..|rows| - 1])[last.name := Pairs(Zipped(OPTION_NAMES, last.cells))]
  }

  lemma {:induction false} OptionsOf(rows: seq<TableRow>)
    ensures Options(rows).Keys == set r | r in rows :: r.name
  {
    if rows != [] {
      var front, last := rows[..|rows| - 1], rows[|rows| - 1];
      OptionsOf(front);
      assert rows == front + [last];
    }
  }

  /** `_capture_clickhouse`, from the answers to its three queries. */
  method CaptureClickHouse(tables: seq<string>, tableRows: seq<TableRow>, columnRows: seq<ColumnRow>)
    returns (s: Snapshot)
    ensures s.tables == tables && s.views == []
    ensures s.columnDetails == map t | t in tables :: Details(RowsOf(columnRows, t))
    ensures s.columns == map t | t in tables :: Names(NamesOf(RowsOf(columnRows, t)))
    ensures s.indexes == s.primaryKeys == s.uniqueConstraints == map t | t in tables :: Names([])
    ensures s.foreignKeys == map t | t in tables :: Triples([])
    ensures s.tableOptions.Keys == set r | r in tableRows :: r.name
    ensures forall i | 0 <= i < |tableRows|
        && (forall j | i < j < |tableRows| :: tableRows[j].name != tableRows[i].name) ::
      tableRows[i].name in s.tableOptions
        && s.tableOptions[tableRows[i].name] == Pairs(Zipped(OPTION_NAMES, tableRows[i].cells))
    ensures Covered(s) <==> forall r | r in tableRows :: r.name in tables
  {
    hide Options, RowsOf, Covered, NamesOf;
    var grouped := GroupRows(tables, columnRows);
    var none := map t | t in tables :: Names([]);
    s := Snapshot(
      tables,
      map t | t in tables :: Names(NamesOf(grouped[t])),
      none,
      map t | t in tables :: Details(grouped[t]),
      none,
      map t | t in tables :: Triples([]),
      none,
      [],
      Options(tableRows));
    CoveredExactlyWhen(s, tables, tableRows);
    OptionsOf(tableRows);
    LastOptions(tableRows);
  }

  /** The last row of a table gives its options. */
  lemma {:induction false} LastOptions(rows: seq<TableRow>)
    ensures forall i | 0 <= i < |rows| && (forall j | i < j < |rows| :: rows[j].name != rows[i].name) ::
      rows[i].name in Options(rows) && Options(rows)[rows[i].name] == Pairs(Zipped(OPTION_NAMES, rows[i].cells))
  {
    if rows != [] {
      hide Zipped;
      var n := |rows| - 1;
      LastOptions(rows[..n]);
      forall i | 0 <= i < |rows| && (forall j | i < j < |rows| :: rows[j].name != rows[i].name)
        ensures rows[i].name in Options(rows)
            && Options(rows)[rows[i].name] == Pairs(Zipped(OPTION_NAMES, rows[i].cells))
      {
        if i < n {
          assert rows[..n][i] == rows[i] && forall j | i < j < n :: rows[..n][j] == rows[j];
        }
      }
    }
  }

  /** The options come from a query of their own: a table created between the two queries
      has options and no columns. */
  lemma CoveredExactlyWhen(s: Snapshot, tables: seq<string>, tableRows: seq<TableRow>)
    requires s.columns.Keys == s.indexes.Keys == s.columnDetails.Keys == s.primaryKeys.Keys == set t | t in tables
    requires s.foreignKeys.Keys == s.uniqueConstraints.Keys == s.columns.Keys
    requires s.tableOptions == Options(tableRows)
    ensures Covered(s) <==> forall r | r in tableRows :: r.name in tables
  {
    OptionsOf(tableRows);
    var named := set r | r in tableRows :: r.name;
    assert Field(s, TableOptions).Keys == named;
    assert forall r | r in tableRows :: r.name in named;
    if Covered(s) {
      forall r | r in tableRows ensures r.name in tables {
        assert r.name in Field(s, TableOptions).Keys;
      }
    }
  }

  // ----- the loop -----

  method AppendIfDifferent(items: seq<DriftItem>, e: Snapshot, a: Snapshot, k: Kind, table: string)
      returns (r: seq<DriftItem>)
    requires IsPerTable(k)
    ensures r == items + TableItem(e, a, table, k)
  {
    r := items;
    if At(e, k, table) != At(a, k, table) {
      r := r + [DriftItem(k, table, At(e, k, table), At(a, k, table))];
    }
  }

  method DiffSnapshots(e: Snapshot, a: Snapshot) returns (items: seq<DriftItem>)
    ensures items == Diff(e, a)
  {
    hide *;
    items := [];
    if e.tables != a.tables {
      items := items + [DriftItem(Tables, "__all__", Some(Names(e.tables)), Some(Names(a.tables)))];
    }
    if e.views != a.views {
      items := items + [DriftItem(Views, "__all__", Some(Names(e.views)), Some(Names(a.views)))];
    }
    var tables := Sorted(e.columns.Keys + a.columns.Keys);
    WholeItems(e, a);
    DiffFrom(e, a, items, tables);
    var i := 0;
    assert tables[0..] == tables;
    while i < |tables|
      invariant 0 <= i <= |tables|
      invariant items + AllTableItems(e, a, tables[i..]) == Diff(e, a)
    {
      assert tables[i..][1..] == tables[i + 1..];
      AllTableItemsHead(e, a, tables[i..]);
      Regroup(items, TableItems(e, a, tables[i], PER_TABLE), AllTableItems(e, a, tables[i + 1..]));
      items := AppendTable(items, e, a, tables[i]);
      i := i + 1;
    }
    AllTableItemsDone(e, a);
    assert tables[i..] == [] && items + [] == items;
  }

  lemma WholeItems(e: Snapshot, a: Snapshot)
    ensures WholeItem(Tables, e.tables, a.tables)
         == if e.tables == a.tables then []
            else [DriftItem(Tables, "__all__", Some(Names(e.tables)), Some(Names(a.tables)))]
    ensures WholeItem(Views, e.views, a.views)
         == if e.views == a.views then []
            else [DriftItem(Views, "__all__", Some(Names(e.views)), Some(Names(a.views)))]
  {
  }

  lemma DiffFrom(e: Snapshot, a: Snapshot, whole: seq<DriftItem>, tables: seq<string>)
    requires whole == WholeItem(Tables, e.tables, a.tables) + WholeItem(Views, e.views, a.views)
    requires tables == Sorted(e.columns.Keys + a.columns.Keys)
    ensures whole + AllTableItems(e, a, tables) == Diff(e, a)
  {
    hide AllTableItems, Sorted;
  }

  lemma AllTableItemsDone(e: Snapshot, a: Snapshot)
    ensures AllTableItems(e, a, []) == []
  {
  }

  method AppendTable(items: seq<DriftItem>, e: Snapshot, a: Snapshot, table: string) returns (r: seq<DriftItem>)
    ensures r == items + TableItems(e, a, table, PER_TABLE)
  {
    hide *;
    ghost var all := items + Rest(e, a, table, 0);
    r := AppendIfDifferent(items, e, a, Columns, table);
    OneMore(e, a, table, 0, items);
    ghost var r1 := r;
    r := AppendIfDifferent(r, e, a, Indexes, table);
    OneMore(e, a, table, 1, r1);
    ghost var r2 := r;
    r := AppendIfDifferent(r, e, a, ColumnDetails, table);
    OneMore(e, a, table, 2, r2);
    ghost var r3 := r;
    r := AppendIfDifferent(r, e, a, PrimaryKeys, table);
    OneMore(e, a, table, 3, r3);
    ghost var r4 := r;
    r := AppendIfDifferent(r, e, a, ForeignKeys, table);
    OneMore(e, a, table, 4, r4);
    ghost var r5 := r;
    r := AppendIfDifferent(r, e, a, UniqueConstraints, table);
    OneMore(e, a, table, 5, r5);
    ghost var r6 := r;
    r := AppendIfDifferent(r, e, a, TableOptions, table);
    OneMore(e, a, table, 6, r6);
    AllSeven(e, a, table);
    assert r + [] == r;
  }

  /** What the kinds from the j-th on contribute. */
  ghost function Rest(e: Snapshot, a: Snapshot, table: string, j: nat): seq<DriftItem>
    requires j <= 7
  {
    TableItems(e, a, table, PER_TABLE[j..])
  }

  lemma OneMore(e: Snapshot, a: Snapshot, table: string, j: nat, before: seq<DriftItem>)
    requires j < 7
    ensures IsPerTable(PER_TABLE[j])
    ensures PER_TABLE == [Columns, Indexes, ColumnDetails, PrimaryKeys, ForeignKeys, UniqueConstraints, TableOptions]
    ensures (before + TableItem(e, a, table, PER_TABLE[j])) + Rest(e, a, table, j + 1) == before + Rest(e, a, table, j)
  {
    hide TableItem;
    assert PER_TABLE[j..][1..] == PER_TABLE[j + 1..];
    Regroup(before, TableItem(e, a, table, PER_TABLE[j]), Rest(e, a, table, j + 1));
  }

  lemma AllSeven(e: Snapshot, a: Snapshot, table: string)
    ensures PerTableOnly(PER_TABLE) && Rest(e, a, table, 0) == TableItems(e, a, table, PER_TABLE)
    ensures Rest(e, a, table, 7) == []
  {
    assert PER_TABLE[0..] == PER_TABLE;
  }

  lemma Regroup<T>(a: seq<T>, b: seq<T>, c: seq<T>)
    ensures a + (b + c) == (a + b) + c
  {
  }
}
