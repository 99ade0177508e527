/** Sources on which the two reference modes part. */
module ModesWitness {
  import opened Ordering
  import opened PyDict
  import opened Mutations
  import opened MutationSimulation
  import opened MutationRuns
  import opened DeclaredTables
  import opened TrackB
  import opened ColumnLayout
  import opened ReferenceModes
  import StableSort

  const NAMED: Item := Assign([Some("__tablename__")], Text("t"))

  /** `add_column` of an integer to the table `t`. */
  function Addition(column: string): Mutation {
    AddColumn("t", column, Some(Name("Integer")), None, None)
  }

  /** A class with the table `t` and the items given. */
  function TableT(items: seq<Item>): Source {
    [Class("T", ["Base"], [NAMED] + items)]
  }

  /** The class is read with the items as columns and options only. */
  ghost predicate Read(items: seq<Item>) {
    TableNames(items) == {} && TableOf([NAMED] + items).rest == [NAMED]
  }

  lemma ReadT(w: World, items: seq<Item>)
    requires Read(items)
    ensures var models, t := Models(TableT(items)), TableOf([NAMED] + items);
            && models == [Model("T", ["Base"], {"t"}, t)] && Mixins(models) == []
            && FirstModel(models, "t") == 0
            && (TableKey(w, models, 0) == if !w.mapped(["Base"], [], [NAMED]) then None
                                          else Some(Qualified(w.schema(["Base"], [], t.args), "t")))
    ensures Loads(w, TableT(items)) <==> w.loads(TableT(items))
  {
    hide TableOf;
    var body := [NAMED] + items;
    assert [NAMED][1..] == [];
    TableNamesConcat([NAMED], items);
    hide TableNames;
    OneModel(Class("T", ["Base"], body));
    var models := [Model("T", ["Base"], {"t"}, TableOf(body))];
    assert Models(TableT(items)) == models;
    assert models[1..] == [];
    FirstModelIs(models, "t", 0);
    assert NameGiven([NAMED]) == Some(Text("t")) by { assert [NAMED][..0] == []; }
  }

  lemma AddsToT(items: seq<Item>, column: string)
    requires Read(items) && Position([NAMED] + items, column).None? && IsIdentifier(column)
    ensures Replay(TableT(items), [Addition(column)]).Done?
  {
    hide NewColumn, WithImports, Position, IsIdentifier, TableOf;
    assert [Addition(column)][..0] == [];
    var src := TableT(items);
    assert DeclaresTable(src[0].body[0], "t");
    assert IsModel(src[0], "t");
    assert ModelIndex(src, "t") == 0;
  }

  lemma Identifiers()
    ensures IsIdentifier("x") && IsIdentifier("y") && IsIdentifier("__x") && IsIdentifier("_sa_x")
  {
  }

  /** Both sources load, the base has a declarative base, and the database creates the whole
      schema the log leads to. */
  ghost predicate WholeGoesThrough(w: World, start: Tables, base: Source, log: seq<Mutation>) {
    && w.loads(base) && HasBase(w, base)
    && (Replay(base, log).Done? ==>
          var current := Replay(base, log).value;
          w.loads(current) && w.creates(start, MetaData(w, Models(current))))
  }

  // ----- a logged column that cannot be added -----

  /** Incremental ends in DDL; nuclear comes to the dump. */
  ghost predicate OnlyIncrementalRefused(w: World, start: Tables, base: Source, log: seq<Mutation>)
    requires Replay(base, log).Done?
  {
    var current := Replay(base, log).value;
    && IncrementalRun(w, start, base, current, log).outcome == Failed(ReferenceDdl)
    && NuclearRun(w, start, current).outcome == Dumped(w, Recreated(start, MetaData(w, Models(current))))
  }

  /** A logged column that is not addable: nuclear goes through, incremental ends in DDL. */
  lemma Refused(w: World, start: Tables, base: Source, log: seq<Mutation>, i: nat)
    requires LogCounts(log) && Replay(base, log).Done? && Loads(w, base) && WholeGoesThrough(w, start, base, log)
    requires i < |log|
    requires WellTyped(log[i]) && FirstModel(Models(base), log[i].table) < |Models(base)|
    requires !Addable(w, Recreated(start, MetaData(w, Models(base))), Models(base), log[i])
    ensures OnlyIncrementalRefused(w, start, base, log)
  {
    hide Models, MetaData, Recreated, Replay, IncrementalRun, NuclearRun, Frame, AllAdds, NewDef, Addable, Loads,
      ReplayModels, WithAdded, FirstModel;
    var current := Replay(base, log).value;
    LoadsAfter(w, base, log);
    AddsReplay(base, log);
    IncrementalOutcome(w, start, base, current, log);
    NuclearOutcome(w, start, current);
  }

  /** A column type the database will not take in an ALTER alone, such as an enum whose type
      only CREATE TABLE would create. */
  lemma RefusedAlterDivides(w: World, start: Tables, base: Source, log: seq<Mutation>, i: nat)
    requires LogCounts(log) && Replay(base, log).Done? && Loads(w, base) && WholeGoesThrough(w, start, base, log)
    requires i < |log|
    requires log[i].AddColumn? && log[i].typ.Some?
    requires !w.alters(Recreated(start, MetaData(w, Models(base))), log[i].table, log[i].column, NewDef(log[i]))
    ensures OnlyIncrementalRefused(w, start, base, log)
  {
    hide Models, MetaData, Recreated, Replay, IncrementalRun, NuclearRun, Frame, AllAdds, NewDef, Loads, ReplayModels,
      WithAdded, FirstModel, TableKey, BuiltAt, Keys, WholeGoesThrough, OnlyIncrementalRefused;
    AddsReplay(base, log);
    Entries(Models(base), log);
    Refused(w, start, base, log, i);
  }

  const ARGS: Expr := DictDisplay("\"schema\": \"public\"")
  const SCHEMA: Item := Assign([Some("__table_args__")], ARGS)

  lemma ReadSchema()
    ensures Read([SCHEMA]) && TableOf([NAMED] + [SCHEMA]) == Table([], Some(ARGS), [NAMED])
    ensures Position([NAMED] + [SCHEMA], "x").None?
  {
    TableOfAppend([NAMED], SCHEMA);
    TableOfNamed();
    assert [SCHEMA][1..] == [];
  }

  lemma TableOfNamed()
    ensures TableOf([NAMED]) == Table([], None, [NAMED])
    ensures Read([])
  {
    TableOfAppend([], NAMED);
    assert [] + [NAMED] == [NAMED];
  }

  /** A class whose `__table_args__` give a schema: the metadata has its table, if at all,
      under `public.t`, and the incremental run looks for `t`. */
  lemma SchemaDivides(w: World, start: Tables)
    requires w.schema(["Base"], [], Some(ARGS)) == Some("public")
    requires WholeGoesThrough(w, start, TableT([SCHEMA]), [Addition("x")])
    ensures var base, log := TableT([SCHEMA]), [Addition("x")];
            Replay(base, log).Done? && OnlyIncrementalRefused(w, start, base, log)
  {
    hide Models, MetaData, Recreated, Replay, IncrementalRun, NuclearRun, Frame, NewDef, Loads, TableT, TableKey,
      FirstModel, TableOf, BuiltAt, Keys, OnlyIncrementalRefused, TableNames, Position;
    var base, log := TableT([SCHEMA]), [Addition("x")];
    Identifiers();
    ReadSchema();
    ReadT(w, [SCHEMA]);
    AddsToT([SCHEMA], "x");
    Refused(w, start, base, log, 0);
  }

  /** A column whose name Python mangles in a class body, or SQLAlchemy's scan passes over:
      the metadata has no column of the name logged. */
  lemma PrivateColumnDivides(w: World, start: Tables, column: string)
    requires (column == "__x" || column == "_sa_x")
    requires WholeGoesThrough(w, start, TableT([]), [Addition(column)])
    ensures var base, log := TableT([]), [Addition(column)];
            Replay(base, log).Done? && OnlyIncrementalRefused(w, start, base, log)
  {
    hide Models, MetaData, Recreated, Replay, IncrementalRun, NuclearRun, Frame, NewDef, Loads, TableT, TableKey,
      FirstModel, TableOf, BuiltAt, Keys, OnlyIncrementalRefused, TableNames;
    var base, log := TableT([]), [Addition(column)];
    Identifiers();
    TableOfNamed();
    assert [NAMED] + [] == [NAMED];
    assert !Scanned(column);
    ReadT(w, []);
    AddsToT([], column);
    Refused(w, start, base, log, 0);
  }

  // ----- a column that ends up in another place -----

  /** A column to be placed by a sort_order. */
  function Placed(order: Expr): Item {
    AnnAssign(Some("made"), Mapped(Name("DateTime")),
              Some(Call(Name("mapped_column"), [Name("DateTime")], [Keyword(Some("sort_order"), order)])))
  }

  lemma ReadPlaced(order: Expr)
    ensures IsColumn(Placed(order)) && Read([Placed(order)]) && Position([NAMED] + [Placed(order)], "x").None?
    ensures TableOf([NAMED] + [Placed(order)]).columns == [("made", DefOf(Placed(order)))]
    ensures "sort_order" in DefOf(Placed(order)).bindings
  {
    NamesNoTable(Placed(order));
    TableOfAppend([NAMED], Placed(order));
    TableOfNamed();
    var body := [NAMED] + [Placed(order)];
    assert body[..|body| - 1] == [NAMED];
    var keywords := [Keyword(Some("sort_order"), order)];
    assert keywords[..0] == [];
  }

  lemma OwnMade(def: ColumnDef)
    ensures Own("T", [("made", def)]) == [("made", def)]
  {
    assert [("made", def)][..0] == [];
  }

  /** A base column placed late by its sort_order: nuclear puts the added column before it,
      incremental after it. */
  lemma SortOrderDivides(w: World, start: Tables, order: Expr)
    requires w.order(DefOf(Placed(order))) > 0
    requires WholeGoesThrough(w, start, TableT([Placed(order)]), [Addition("x")])
    ensures var base, log := TableT([Placed(order)]), [Addition("x")];
            Replay(base, log).Done?
            && !Agree(IncrementalRun(w, start, base, Replay(base, log).value, log),
                      NuclearRun(w, start, Replay(base, log).value))
  {
    hide Models, MetaData, Loads, Recreated, Replay, Agree, IncrementalRun, NuclearRun, DefOf, TableOf, TableNames,
      Position, Placed, Frame, Inherited, Own, FirstModel, TableT, NewDef, TableKey, Addable, Keys;
    var base, log := TableT([Placed(order)]), [Addition("x")];
    Identifiers();
    ReadPlaced(order);
    ReadT(w, [Placed(order)]);
    AddsToT([Placed(order)], "x");
    LoadsAfter(w, base, log);
    ModesAgree(w, start, base, Replay(base, log).value, log);
    var def := DefOf(Placed(order));
    OwnMade(def);
    assert ("made", def) in [("made", def)] && SortOrder(w, def) > 0;
    assert log[0] == Addition("x");
    assert !InPlace(w, Models(base), log[0]);
  }

  // ----- a direct write after a mutation -----

  /** The item an `add_column` appends declares its column. */
  lemma NewColumnDef(m: Mutation)
    requires m.AddColumn? && m.typ.Some?
    ensures DefOf(NewColumn(m)) == NewDef(m)
  {
    assert Bindings([]) == map[] && Starred([]) == [];
    hide SetKeyword, Bindings, Starred;
    var nullable := match m.nullable case Some(v) => v case None => Truth(true);
    SetKeywordBinds([], "nullable", nullable, "");
    if m.default.Some? { SetKeywordBinds(SetKeyword([], "nullable", nullable), "default", m.default.value, ""); }
  }

  const ADD_X: Mutation := Addition("x")
  const ADD_Y: Mutation := Addition("y")

  lemma WrittenTables()
    ensures Read([]) && TableOf([NAMED]) == Table([], None, [NAMED]) && Position([NAMED], "x").None?
    ensures Read([NewColumn(ADD_X), NewColumn(ADD_Y)])
    ensures TableOf([NAMED] + [NewColumn(ADD_X), NewColumn(ADD_Y)])
         == Table([("x", NewDef(ADD_X)), ("y", NewDef(ADD_Y))], None, [NAMED])
  {
    TableOfNamed();
    hide NewColumn, DefOf, Put, TableOf, NewDef;
    var x, y := NewColumn(ADD_X), NewColumn(ADD_Y);
    NewColumnIsColumn(ADD_X);
    NewColumnIsColumn(ADD_Y);
    NewColumnDef(ADD_X);
    NewColumnDef(ADD_Y);
    NamesNoTable(x);
    NamesNoTable(y);
    TableNamesConcat([x], [y]);
    assert [x] + [y] == [x, y];
    TableOfAppend([NAMED], x);
    TableOfAppend([NAMED] + [x], y);
    assert [NAMED] + [x, y] == [NAMED] + [x] + [y];
    TwoPuts(NewDef(ADD_X), NewDef(ADD_Y));
  }

  lemma TwoPuts(v: ColumnDef, u: ColumnDef)
    ensures Put([], "x", v) == [("x", v)]
    ensures Put([("x", v)], "y", u) == [("x", v), ("y", u)]
  {
    assert [("x", v)][1..] == [];
  }

  lemma OwnXY(v: ColumnDef, u: ColumnDef)
    ensures Own("T", [("x", v), ("y", u)]) == [("x", v), ("y", u)]
  {
    TwoPuts(v, u);
    assert [("x", v)][..0] == [];
    assert [("x", v), ("y", u)][..1] == [("x", v)];
    assert Own("T", [("x", v)]) == [("x", v)];
  }

  lemma TwoColumnsLaid(w: World, v: ColumnDef, u: ColumnDef)
    requires SortOrder(w, v) == 0 && SortOrder(w, u) == 0 && forall a :: ColumnName(w, a, v) == a
    ensures Laid(w, [], []) == [] && Laid(w, [("x", v), ("y", u)], []) == [("x", v), ("y", u)]
    ensures Get(Full(w, [("x", v), ("y", u)]), "x") == Some(Stored(v, w.beside(v)))
  {
    hide SortOrder;
    var d := [("x", v), ("y", u)];
    assert d[1..] == [d[1]] && d[1..][1..] == [];
    var key := Key(w);
    assert key(d[0]) == 0 && key(d[1]) == 0;
    assert StableSort.Sort([d[1]], key) == [d[1]] by { assert [d[1]][1..] == []; }
    assert StableSort.Sort(d, key) == d;
    assert d + [] == d;
  }

  lemma AlteredByX(w: World, b: Tables, c: Tables)
    requires b.Keys == c.Keys == {"t"} && b["t"].columns == []
    requires Get(c["t"].columns, "x").Some? && Get(c["t"].columns, "x").value.def == NewDef(ADD_X)
    requires w.alters(b, "t", "x", NewDef(ADD_X))
    ensures var altered := Altered(w, b, c, [ADD_X]);
            altered.done && "t" in altered.db && |altered.db["t"].columns| == 1
  {
    hide Get, NewDef;
    assert [ADD_X][..0] == [];
    assert Altered(w, b, c, []) == Progress(b, true);
    assert Keys<Stored>([]) == {};
  }

  /** The class is mapped, to a table without a schema. */
  predicate PlainT(w: World) {
    w.mapped(["Base"], [], [NAMED]) && w.schema(["Base"], [], None) == None
  }

  /** The metadata of a module with the one class `T`. */
  lemma MetaT(w: World, items: seq<Item>)
    requires Read(items) && TableOf([NAMED] + items).args == None && PlainT(w)
    ensures MetaData(w, Models(TableT(items))).Keys == {"t"}
    ensures MetaData(w, Models(TableT(items)))["t"]
         == Built(w, "T", TableOf([NAMED] + items), w.inherited(["Base"], []))
  {
    hide TableOf, TableNames, Built, TableKey, Models, TableT, FirstModel, KeyIndex, MetaData;
    ReadT(w, items);
    var models := Models(TableT(items));
    KeyFound(w, models, "t");
    MetaKeys(w, models);
    assert TableKeys(w, models) == {"t"};
    assert KeyIndex(w, models, "t", 0) == 0;
  }

  lemma WrittenMeta(w: World)
    requires w.inherited(["Base"], []) == [] && PlainT(w)
    ensures var base, current := Models(TableT([])), Models(TableT([NewColumn(ADD_X), NewColumn(ADD_Y)]));
            && MetaData(w, base).Keys == MetaData(w, current).Keys == {"t"}
            && MetaData(w, base)["t"].columns == [] && |MetaData(w, current)["t"].columns| == 2
            && Get(MetaData(w, current)["t"].columns, "x") == Some(Stored(NewDef(ADD_X), w.beside(NewDef(ADD_X))))
  {
    hide Models, Loads, TableNames, TableOf, NewColumn, DefOf, NewDef, Laid, Get, Position, Mixins, Own, MetaData,
      TableT, Read;
    WrittenTables();
    assert [NAMED] + [] == [NAMED];
    MetaT(w, []);
    MetaT(w, [NewColumn(ADD_X), NewColumn(ADD_Y)]);
    assert WellTyped(ADD_X) && WellTyped(ADD_Y);
    NewDefIsSimple(w, ADD_X);
    NewDefIsSimple(w, ADD_Y);
    TwoColumnsLaid(w, NewDef(ADD_X), NewDef(ADD_Y));
    OwnXY(NewDef(ADD_X), NewDef(ADD_Y));
    OwnNothing();
  }

  lemma OwnNothing()
    ensures Own("T", []) == []
  {
  }

  /** A direct write after a mutation leaves the log behind it: here it adds a second
      column, which the incremental run never makes. */
  lemma DirectWriteDivides(w: World)
    requires w.inherited(["Base"], []) == [] && PlainT(w)
    requires w.dumps && (forall start, meta :: w.creates(start, meta)) && (forall src :: w.loads(src))
    requires forall created :: w.alters(created, "t", "x", NewDef(ADD_X))
    requires HasBase(w, TableT([])) && HasBase(w, TableT([NewColumn(ADD_X), NewColumn(ADD_Y)]))
    ensures var base, log, current := TableT([]), [ADD_X], TableT([NewColumn(ADD_X), NewColumn(ADD_Y)]);
            && Replay(base, log).Done?
            && IncrementalRun(w, map[], base, current, log).outcome.Complete?
            && NuclearRun(w, map[], current).outcome.Complete?
            && !Agree(IncrementalRun(w, map[], base, current, log), NuclearRun(w, map[], current))
  {
    hide Models, Loads, Replay, NewColumn, Frame, NewDef, TableT, MetaData, Altered, Get, Read;
    var base, log, current := TableT([]), [ADD_X], TableT([NewColumn(ADD_X), NewColumn(ADD_Y)]);
    WrittenMeta(w);
    WrittenReplays(w);
    var b, c := MetaData(w, Models(base)), MetaData(w, Models(current));
    assert Recreated(map[], b) == b && Recreated(map[], c) == c;
    AlteredByX(w, b, c);
  }

  lemma WrittenReplays(w: World)
    requires forall src :: w.loads(src)
    ensures Loads(w, TableT([])) && Loads(w, TableT([NewColumn(ADD_X), NewColumn(ADD_Y)]))
    ensures Replay(TableT([]), [ADD_X]).Done?
  {
    hide Models, Loads, Replay, NewColumn, NewDef, TableT, TableNames, Position, Read, TableOf, IsIdentifier,
      TableKey;
    WrittenTables();
    assert [NAMED] + [] == [NAMED];
    Identifiers();
    ReadT(w, []);
    ReadT(w, [NewColumn(ADD_X), NewColumn(ADD_Y)]);
    AddsToT([], "x");
  }
}
