/** The comparison of two dumps as a whole (mcp_server/comparator.py `compare_schemas`):
    normal forms first, and a summary when they differ. */
module CompareSchemas {
  import opened Ordering
  import PyDict
  import opened Comparator
  import opened ComparatorTheorems
  import opened ComparatorDecision
  import opened ComparatorPasses
  import S = SchemaSummary

  /** `.sql()` without a dialect, for what the summary names. */
  datatype Names = Names(table: seq<Ident> -> string, column: Ident -> string, kind: string -> string)

  datatype Comparison = Raised | Identical | Different(summary: S.Summary)

  // ----- reading a normal form back -----

  predicate Typed(item: Item) {
    item.Column? ==> item.typ.Some?
  }

  function ColumnsIn(n: Names, items: seq<Item>): S.Declared
    requires forall item | item in items :: Typed(item)
  {
    if items == [] then []
    else
      assert Typed(items[0]);
      (if items[0].Column? then [(n.column(items[0].id), n.kind(items[0].typ.value))] else [])
        + ColumnsIn(n, items[1..])
  }

  predicate AllTyped(statements: seq<Statement>) {
    forall s, item | s in statements && s.Create? && item in s.items :: Typed(item)
  }

  /** The CREATE TABLE statements among those read back. */
  function CreatesIn(n: Names, statements: seq<Statement>): seq<S.Create>
    requires AllTyped(statements)
  {
    if statements == [] then []
    else
      assert statements[0] in statements;
      (if statements[0].Create? then [(n.table(statements[0].table), ColumnsIn(n, statements[0].items))] else [])
      + CreatesIn(n, statements[1..])
  }

  function SchemaIn(n: Names, statements: seq<Statement>): S.Schema
    requires AllTyped(statements)
  {
    S.Parsed(CreatesIn(n, statements))
  }

  ghost predicate ItemsTyped(items: seq<Item>) {
    forall item | item in items :: Typed(item)
  }

  lemma {:induction false} ColumnsInConcat(n: Names, a: seq<Item>, b: seq<Item>)
    requires ItemsTyped(a) && ItemsTyped(b)
    ensures ItemsTyped(a + b) && ColumnsIn(n, a + b) == ColumnsIn(n, a) + ColumnsIn(n, b)
  {
    if a == [] {
      assert a + b == b;
    } else {
      assert (a + b)[1..] == a[1..] + b && a[0] in a;
      ColumnsInConcat(n, a[1..], b);
    }
  }

  /** Each entry read is a column's. */
  lemma {:induction false} FromItem(n: Names, items: seq<Item>, i: nat) returns (l: nat)
    requires ItemsTyped(items) && i < |ColumnsIn(n, items)|
    ensures l < |items| && items[l].Column? && ColumnsIn(n, items)[i].0 == n.column(items[l].id)
  {
    if items[0].Column? && i == 0 {
      l := 0;
    } else {
      l := FromItem(n, items[1..], i - if items[0].Column? then 1 else 0);
      l := l + 1;
    }
  }

  lemma ColumnInAt(n: Names, items: seq<Item>, k: nat) returns (j: nat)
    requires ItemsTyped(items) && k < |items| && items[k].Column?
    requires forall l | k < l < |items| :: items[l].Column? ==> n.column(items[l].id) != n.column(items[k].id)
    ensures items[k].typ.Some? && j < |ColumnsIn(n, items)|
    ensures ColumnsIn(n, items)[j] == (n.column(items[k].id), n.kind(items[k].typ.value))
    ensures S.IsLast(ColumnsIn(n, items), j)
  {
    hide ColumnsIn;
    var a, c, b := items[..k], items[k], items[k + 1..];
    assert c in items && Typed(c);
    assert items == (a + [c]) + b;
    ColumnsInConcat(n, a + [c], b);
    ColumnsInConcat(n, a, [c]);
    OneColumnIn(n, c);
    j := |ColumnsIn(n, a)|;
    forall i | j < i < |ColumnsIn(n, items)| ensures ColumnsIn(n, items)[i].0 != ColumnsIn(n, items)[j].0 {
      var l := FromItem(n, b, i - j - 1);
      assert items[k + 1 + l] == b[l];
    }
  }

  lemma OneColumnIn(n: Names, c: Item)
    requires c.Column? && Typed(c)
    ensures ItemsTyped([c]) && ColumnsIn(n, [c]) == [(n.column(c.id), n.kind(c.typ.value))]
  {
    assert [c][1..] == [];
  }

  lemma {:induction false} CreatesInConcat(n: Names, a: seq<Statement>, b: seq<Statement>)
    requires AllTyped(a) && AllTyped(b)
    ensures AllTyped(a + b) && CreatesIn(n, a + b) == CreatesIn(n, a) + CreatesIn(n, b)
  {
    hide ColumnsIn;
    if a == [] {
      assert a + b == b;
    } else {
      assert (a + b)[1..] == a[1..] + b && a[0] in a;
      assert AllTyped(a[1..]);
      CreatesInConcat(n, a[1..], b);
    }
  }

  lemma {:induction false} FromStatement(n: Names, statements: seq<Statement>, i: nat) returns (l: nat)
    requires AllTyped(statements) && i < |CreatesIn(n, statements)|
    ensures l < |statements| && statements[l].Create? && CreatesIn(n, statements)[i].0 == n.table(statements[l].table)
  {
    hide ColumnsIn;
    assert statements[0] in statements && AllTyped(statements[1..]);
    if statements[0].Create? && i == 0 {
      l := 0;
    } else {
      l := FromStatement(n, statements[1..], i - if statements[0].Create? then 1 else 0);
      l := l + 1;
    }
  }

  /** No later statement creates a table of the name. */
  ghost predicate LastOfName(n: Names, statements: seq<Statement>, k: nat)
    requires k < |statements| && statements[k].Create?
  {
    forall l | k < l < |statements| && statements[l].Create? ::
      n.table(statements[l].table) != n.table(statements[k].table)
  }

  lemma CreateInAt(n: Names, statements: seq<Statement>, k: nat) returns (j: nat)
    requires AllTyped(statements) && k < |statements| && statements[k].Create?
    ensures ItemsTyped(statements[k].items) && j < |CreatesIn(n, statements)|
    ensures CreatesIn(n, statements)[j] == (n.table(statements[k].table), ColumnsIn(n, statements[k].items))
    ensures LastOfName(n, statements, k) ==> S.IsLast(CreatesIn(n, statements), j)
  {
    hide CreatesIn, ColumnsIn;
    var a, s, b := statements[..k], statements[k], statements[k + 1..];
    assert s in statements;
    assert AllTyped(a) && AllTyped([s]) && AllTyped(b);
    assert statements == (a + [s]) + b;
    CreatesInConcat(n, a + [s], b);
    CreatesInConcat(n, a, [s]);
    OneCreateIn(n, s);
    j := |CreatesIn(n, a)|;
    forall i | j < i < |CreatesIn(n, statements)| ensures exists l | k < l < |statements| ::
      statements[l].Create? && CreatesIn(n, statements)[i].0 == n.table(statements[l].table)
    {
      var l := FromStatement(n, b, i - j - 1);
      assert statements[k + 1 + l] == b[l];
    }
  }

  lemma OneCreateIn(n: Names, s: Statement)
    requires s.Create? && AllTyped([s])
    ensures ItemsTyped(s.items) && CreatesIn(n, [s]) == [(n.table(s.table), ColumnsIn(n, s.items))]
  {
    hide ColumnsIn;
    assert s in [s] && [s][1..] == [] && CreatesIn(n, []) == [];
  }

  /** What the summary is made from: a table created by some statement, the last of its
      name, has of each column, the last of its name, the kind of its type. */
  lemma ReadBack(n: Names, statements: seq<Statement>, i: nat, k: nat)
    requires AllTyped(statements) && i < |statements| && statements[i].Create?
    requires LastOfName(n, statements, i)
    requires var items := statements[i].items;
             k < |items| && items[k].Column?
             && forall l | k < l < |items| :: items[l].Column? ==> n.column(items[l].id) != n.column(items[k].id)
    ensures var item, table := statements[i].items[k], n.table(statements[i].table);
            && item.typ.Some? && table in SchemaIn(n, statements)
            && PyDict.Get(SchemaIn(n, statements)[table], n.column(item.id)) == Some(n.kind(item.typ.value))
  {
    hide CreatesIn, ColumnsIn, S.Parsed, PyDict.Get, S.Read;
    var creates := CreatesIn(n, statements);
    var items := statements[i].items;
    var j := CreateInAt(n, statements, i);
    var c := ColumnInAt(n, items, k);
    S.ParsedIs(creates);
    assert S.IsColumnsOf(creates[j].1, SchemaIn(n, statements)[creates[j].0]);
  }

  /** A table is in the schema exactly when some statement creates it. */
  lemma TablesInAre(n: Names, statements: seq<Statement>, table: string)
    requires AllTyped(statements)
    ensures table in SchemaIn(n, statements) <==> exists s :: s in statements && s.Create? && n.table(s.table) == table
  {
    hide ColumnsIn, S.Parsed, CreatesIn;
    var creates := CreatesIn(n, statements);
    S.ParsedIs(creates);
    if i :| 0 <= i < |creates| && creates[i].0 == table { var l := FromStatement(n, statements, i); }
    if s :| s in statements && s.Create? && n.table(s.table) == table {
      var k :| 0 <= k < |statements| && statements[k] == s;
      var j := CreateInAt(n, statements, k);
    }
  }

  /** `actual` is the first dump, `expected` the second. A column without a type has no
      kind to print, so reading a table that has one raises. */
  method Compare(d: Dialect, n: Names, a: seq<Statement>, b: seq<Statement>) returns (r: Comparison)
    ensures r == Identical <==> Normalize(d, a).Some? && Normalize(d, a) == Normalize(d, b)
    ensures Normalize(d, a).None? || Normalize(d, b).None? ==> r == Raised
    ensures Normalize(d, a).Some? && Normalize(d, b).Some? && r == Raised ==>
              !(AllTyped(Reparsed(d, a)) && AllTyped(Reparsed(d, b)))
    ensures r.Different? ==>
              && Normalize(d, a).Some? && Normalize(d, b).Some?
              && AllTyped(Reparsed(d, a)) && AllTyped(Reparsed(d, b))
              && S.IsSummary(SchemaIn(n, Reparsed(d, b)), SchemaIn(n, Reparsed(d, a)), r.summary)
              && S.InOrder(SchemaIn(n, Reparsed(d, b)), r.summary.missingColumns)
  {
    hide Normalize, Reparsed, AllTyped, CreatesIn, S.Parsed, S.IsSummary;
    var first := NormalizeSchemaDump(d, a);
    if first.None? {
      return Raised;
    }
    var second := NormalizeSchemaDump(d, b);
    if second.None? {
      return Raised;
    }
    if first == second {
      return Identical;
    }
    var as', bs := Reparsed(d, a), Reparsed(d, b);
    if !AllTyped(as') || !AllTyped(bs) {
      return Raised;
    }
    var actual := S.ParseSchema(CreatesIn(n, as'));
    var expected := S.ParseSchema(CreatesIn(n, bs));
    var summary := S.Summarize(expected, actual);
    r := Different(summary);
  }

  /** Dumps that are told apart and yet have nothing in the summary: exactly when the actual
      tables are the expected ones with every expected column, and what differs is a further
      column of the actual table, an order, a constraint, an option or another statement. */
  lemma SilentDifference(d: Dialect, n: Names, a: seq<Statement>, b: seq<Statement>, s: S.Summary)
    requires Lawful(d) && Parsed(d, a) && Parsed(d, b) && Normalize(d, a).Some? && Normalize(d, b).Some?
    requires Normalize(d, a) != Normalize(d, b) && AllTyped(Reparsed(d, a)) && AllTyped(Reparsed(d, b))
    requires S.IsSummary(SchemaIn(n, Reparsed(d, b)), SchemaIn(n, Reparsed(d, a)), s)
    ensures S.IsEmpty(s) <==> S.Includes(SchemaIn(n, Reparsed(d, b)), SchemaIn(n, Reparsed(d, a)))
    ensures multiset(CanonicalAll(d, a).value) != multiset(CanonicalAll(d, b).value)
  {
    hide Normalize, Reparsed, AllTyped, CreatesIn, S.Parsed, S.IsSummary, Lawful, Parsed;
    S.EmptySummaryExactlyWhen(SchemaIn(n, Reparsed(d, b)), SchemaIn(n, Reparsed(d, a)), s);
    CanonicalOfNormalize(d, a);
    CanonicalOfNormalize(d, b);
    SameFormSameStatements(d, a, b);
  }

  /** Such dumps exist: the second column of the actual table is expected by nobody. */
  lemma FurtherColumnIsSilent(n: Names, s: S.Summary)
    requires n.column(Ident("x", true)) != n.column(Ident("y", true))
    requires var x := Column(Ident("x", true), Some("INT"), true, []);
             var y := Column(Ident("y", true), Some("INT"), true, []);
             var expected, actual := [Create([], [x], [], [])], [Create([], [x, y], [], [])];
             S.IsSummary(SchemaIn(n, expected), SchemaIn(n, actual), s)
    ensures S.IsEmpty(s)
  {
    var x := Column(Ident("x", true), Some("INT"), true, []);
    var y := Column(Ident("y", true), Some("INT"), true, []);
    ReadTable(n, [x]);
    ReadTable(n, [x, y]);
    var cx, cy := (n.column(x.id), n.kind("INT")), (n.column(y.id), n.kind("INT"));
    assert [x][1..] == [] && [x, y][1..] == [y] && [y][1..] == [];
    assert ColumnsIn(n, [x]) == [cx] && ColumnsIn(n, [x, y]) == [cx, cy];
    TwoColumns(cx, cy);
    S.EmptySummaryExactlyWhen(SchemaIn(n, [Create([], [x], [], [])]), SchemaIn(n, [Create([], [x, y], [], [])]), s);
  }

  lemma ReadTable(n: Names, items: seq<Item>)
    requires forall item | item in items :: Typed(item)
    ensures SchemaIn(n, [Create([], items, [], [])]) == map[n.table([]) := S.Read(ColumnsIn(n, items))]
  {
    hide S.Read, ColumnsIn;
    var statements := [Create([], items, [], [])];
    assert statements[1..] == [];
    var creates := CreatesIn(n, statements);
    assert CreatesIn(n, []) == [];
    assert creates == [(n.table([]), ColumnsIn(n, items))];
    assert creates[..0] == [];
    assert S.Parsed([]) == map[];
    assert S.Parsed(creates) == S.Parsed(creates[..0])[n.table([]) := S.Read(ColumnsIn(n, items))];
  }

  lemma TwoColumns(x: (string, string), y: (string, string))
    requires x.0 != y.0
    ensures S.Read([x]) == [x] && S.Read([x, y]) == [x, y]
    ensures PyDict.Keys([x]) == {x.0} && PyDict.Get([x], x.0) == PyDict.Get([x, y], x.0)
  {
    assert [x][..0] == [] && [x, y][..1] == [x];
    assert [x][1..] == [];
    assert S.Read([]) == [];
    assert PyDict.Put([], x.0, x.1) == [x] && PyDict.Put([], y.0, y.1) == [y];
    assert PyDict.Put([x], y.0, y.1) == [x] + [y];
  }
}
