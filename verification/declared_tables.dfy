/** The classes a module declares, and how they grow under a log of `add_column`. */
module DeclaredTables {
  import opened Ordering
  import opened PyDict
  import opened Mutations
  import opened MutationSimulation
  import opened MutationRuns

  /** The classes whose body gives no table name: bases and mixins, from which others inherit. */
  function Mixins(models: seq<Model>): seq<Model> {
    if models == [] then [] else (if models[0].tables == {} then [models[0]] else []) + Mixins(models[1..])
  }

  /** A module without its columns, its `__table_args__` and its imports from sqlalchemy:
      what decides whether it has a declarative base. */
  function Frame(src: Source): seq<Top> {
    if src == [] then [] else FrameOf(src[0]) + Frame(src[1..])
  }

  function FrameOf(top: Top): seq<Top> {
    match top
    case Class(name, bases, body) => [Class(name, bases, TableOf(body).rest)]
    case ImportFrom(origin, _) => if origin == "sqlalchemy" then [] else [top]
    case OtherTop(_) => [top]
  }

  predicate AllAdds(log: seq<Mutation>) {
    forall i | 0 <= i < |log| :: log[i].AddColumn?
  }

  /** An addition whose type is an expression and no string. */
  predicate WellTyped(m: Mutation) {
    m.AddColumn? && m.typ.Some? && !m.typ.value.Text?
  }

  /** The column an `add_column` declares. */
  function NewDef(m: Mutation): ColumnDef
    requires m.AddColumn? && m.typ.Some?
  {
    var b := map["nullable" := match m.nullable case Some(v) => v case None => TRUE];
    ColumnDef(Subscript(Name("Mapped"), m.typ.value), [m.typ.value],
              match m.default case Some(v) => b["default" := v] case None => b, [])
  }

  /** What a log adds to the k-th class, in log order. */
  function Added(models: seq<Model>, log: seq<Mutation>, k: nat): Dict<ColumnDef> {
    if log == [] then [] else Added(models, log[..|log| - 1], k) + AddedOne(models, log[|log| - 1], k)
  }

  function AddedOne(models: seq<Model>, m: Mutation, k: nat): Dict<ColumnDef> {
    if m.AddColumn? && m.typ.Some? && FirstModel(models, m.table) == k then [(m.column, NewDef(m))] else []
  }

  // ----- one edit -----

  lemma {:induction false} FirstFound(models: seq<Model>, table: string)
    ensures forall i | 0 <= i < FirstModel(models, table) :: table !in models[i].tables
    ensures FirstModel(models, table) < |models| ==> table in models[FirstModel(models, table)].tables
  {
    if models != [] { FirstFound(models[1..], table); }
  }

  lemma {:induction false} FirstModelIs(models: seq<Model>, table: string, k: nat)
    requires k <= |models| && (forall i | 0 <= i < k :: table !in models[i].tables)
    requires k < |models| ==> table in models[k].tables
    ensures FirstModel(models, table) == k
  {
    if k > 0 { FirstModelIs(models[1..], table, k - 1); }
  }

  /** The same table names, class by class. */
  predicate SameTables(a: seq<Model>, b: seq<Model>) {
    |a| == |b| && forall k | 0 <= k < |a| :: a[k].tables == b[k].tables
  }

  lemma SameFirst(a: seq<Model>, b: seq<Model>)
    requires SameTables(a, b)
    ensures forall table :: FirstModel(a, table) == FirstModel(b, table)
  {
    hide FirstModel;
    forall table ensures FirstModel(a, table) == FirstModel(b, table) {
      FirstFound(a, table);
      FirstModelIs(b, table, FirstModel(a, table));
    }
  }

  lemma {:induction false} SameMixins(models: seq<Model>, k: nat, model: Model)
    requires k < |models| && model.tables == models[k].tables != {}
    ensures Mixins(models[k := model]) == Mixins(models)
  {
    if k > 0 {
      SameMixins(models[1..], k - 1, model);
      assert models[k := model][1..] == models[1..][k - 1 := model];
    }
  }

  function Grown(t: Table, columns: Dict<ColumnDef>): Table {
    t.(columns := t.columns + columns)
  }

  function GrownModel(model: Model, columns: Dict<ColumnDef>): Model {
    model.(table := Grown(model.table, columns))
  }

  lemma AddStep(models: seq<Model>, m: Mutation)
    requires m.AddColumn? && AdmitsIn(models, m)
    ensures WellTyped(m) && FirstModel(models, m.table) < |models|
    ensures m.column !in Keys(models[FirstModel(models, m.table)].table.columns)
    ensures var k := FirstModel(models, m.table);
            EditModels(models, m) == models[k := GrownModel(models[k], [(m.column, NewDef(m))])]
  {
    hide FirstModel, ValidName, ArgsFit, Keys;
  }

  // ----- a log -----

  lemma ReplayedFront(models: seq<Model>, log: seq<Mutation>)
    requires log != [] && ReplayModels(models, log).Some?
    ensures ReplayModels(models, log[..|log| - 1]).Some?
    ensures AdmitsIn(ReplayModels(models, log[..|log| - 1]).value, log[|log| - 1])
    ensures ReplayModels(models, log).value == EditModels(ReplayModels(models, log[..|log| - 1]).value, log[|log| - 1])
  {
    hide AdmitsIn, EditModels;
  }

  lemma NothingReplayed(models: seq<Model>)
    ensures ReplayModels(models, []) == Some(models)
    ensures forall k: nat :: Added(models, [], k) == []
  {
  }

  lemma LastAdd(log: seq<Mutation>)
    requires log != [] && AllAdds(log)
    ensures AllAdds(log[..|log| - 1]) && log[|log| - 1].AddColumn?
  {
  }

  lemma AddedStep(models: seq<Model>, log: seq<Mutation>, k: nat)
    requires log != []
    ensures Added(models, log, k) == Added(models, log[..|log| - 1], k) + AddedOne(models, log[|log| - 1], k)
  {
    hide AddedOne;
  }

  /** The classes after a log of additions: each with its columns, then the added ones. */
  ghost predicate GrownAll(models: seq<Model>, after: seq<Model>, log: seq<Mutation>) {
    && |after| == |models|
    && (forall k | 0 <= k < |models| :: after[k] == GrownModel(models[k], Added(models, log, k)))
  }

  lemma {:induction false} AddsGrow(models: seq<Model>, log: seq<Mutation>)
    requires AllAdds(log) && ReplayModels(models, log).Some?
    ensures GrownAll(models, ReplayModels(models, log).value, log)
    ensures forall table :: FirstModel(ReplayModels(models, log).value, table) == FirstModel(models, table)
    ensures Mixins(ReplayModels(models, log).value) == Mixins(models)
  {
    hide *;
    if log == [] {
      NothingReplayed(models);
      NothingGrown(models);
    } else {
      var n, m := |log| - 1, log[|log| - 1];
      LastAdd(log);
      ReplayedFront(models, log);
      AddsGrow(models, log[..n]);
      var before := ReplayModels(models, log[..n]).value;
      GrowsOnce(models, before, log);
    }
  }

  lemma NothingGrown(models: seq<Model>)
    ensures GrownAll(models, models, [])
  {
    forall k | 0 <= k < |models| ensures models[k] == GrownModel(models[k], Added(models, [], k)) {
      assert models[k].table.columns + [] == models[k].table.columns;
    }
  }

  lemma GrowsOnce(models: seq<Model>, before: seq<Model>, log: seq<Mutation>)
    requires log != [] && log[|log| - 1].AddColumn? && AdmitsIn(before, log[|log| - 1])
    requires GrownAll(models, before, log[..|log| - 1])
    requires (forall table :: FirstModel(before, table) == FirstModel(models, table))
        && Mixins(before) == Mixins(models)
    ensures var after := EditModels(before, log[|log| - 1]);
            && GrownAll(models, after, log) && Mixins(after) == Mixins(models)
            && forall table :: FirstModel(after, table) == FirstModel(models, table)
  {
    hide AdmitsIn, FirstModel, Mixins, Keys, NewDef, EditModels, Added;
    var m := log[|log| - 1];
    AddStep(before, m);
    var j := FirstModel(models, m.table);
    var after := EditModels(before, m);
    FirstFound(before, m.table);
    SameMixins(before, j, after[j]);
    SameFirst(after, before);
    forall k | 0 <= k < |models| ensures after[k] == GrownModel(models[k], Added(models, log, k)) {
      AddedStep(models, log, k);
      var a, one := Added(models, log[..|log| - 1], k), AddedOne(models, m, k);
      assert models[k].table.columns + (a + one) == (models[k].table.columns + a) + one;
      assert before[k].table.columns + [] == before[k].table.columns;
    }
  }

  lemma {:induction false} AddedMembers(models: seq<Model>, log: seq<Mutation>, k: nat, x: (string, ColumnDef))
    requires AllAdds(log) && forall i | 0 <= i < |log| :: log[i].typ.Some?
    ensures x in Added(models, log, k)
       <==> exists i :: 0 <= i < |log| && FirstModel(models, log[i].table) == k && x == (log[i].column, NewDef(log[i]))
  {
    hide NewDef, FirstModel;
    if log != [] {
      var n := |log| - 1;
      assert forall i | 0 <= i < n :: log[..n][i] == log[i];
      AddedMembers(models, log[..n], k, x);
      if x in Added(models, log[..n], k) {
        var i :| 0 <= i < n && FirstModel(models, log[..n][i].table) == k
          && x == (log[..n][i].column, NewDef(log[..n][i]));
        assert FirstModel(models, log[i].table) == k && x == (log[i].column, NewDef(log[i]));
      }
    }
  }

  lemma {:induction false} PrefixReplays(models: seq<Model>, log: seq<Mutation>, k: nat)
    requires k <= |log| && ReplayModels(models, log).Some?
    ensures ReplayModels(models, log[..k]).Some?
    decreases |log| - k
  {
    if k < |log| {
      PrefixReplays(models, log, k + 1);
      ReplayedFront(models, log[..k + 1]);
      assert log[..k + 1][..k] == log[..k];
    } else {
      assert log[..k] == log;
    }
  }

  /** Each added column is new when its turn comes: neither declared nor added before. */
  lemma AddIsNew(models: seq<Model>, log: seq<Mutation>, i: nat)
    requires AllAdds(log) && ReplayModels(models, log).Some? && i < |log|
    ensures WellTyped(log[i]) && FirstModel(models, log[i].table) < |models|
    ensures var k := FirstModel(models, log[i].table);
            log[i].column !in Keys(models[k].table.columns) && log[i].column !in Keys(Added(models, log[..i], k))
  {
    assert log[i].AddColumn?;
    assert AllAdds(log[..i]);
    hide *;
    PrefixReplays(models, log, i);
    PrefixReplays(models, log, i + 1);
    assert log[..i + 1][..i] == log[..i] && log[..i + 1][i] == log[i];
    ReplayedFront(models, log[..i + 1]);
    AddsGrow(models, log[..i]);
    var before, k := ReplayModels(models, log[..i]).value, FirstModel(models, log[i].table);
    AddStep(before, log[i]);
    GrownAt(models, before, log[..i], k);
    KeysConcat(models[k].table.columns, Added(models, log[..i], k));
  }

  lemma GrownAt(models: seq<Model>, after: seq<Model>, log: seq<Mutation>, k: nat)
    requires GrownAll(models, after, log) && k < |after|
    ensures |after| == |models| && after[k].table == Grown(models[k].table, Added(models, log, k))
    ensures after[k].table.columns == models[k].table.columns + Added(models, log, k)
    ensures after[k].name == models[k].name && after[k].bases == models[k].bases && after[k].tables == models[k].tables
    ensures after[k].table.args == models[k].table.args && after[k].table.rest == models[k].table.rest
  {
  }

  lemma {:induction false} KeysConcat<V>(a: Dict<V>, b: Dict<V>)
    ensures Keys(a + b) == Keys(a) + Keys(b)
  {
    if a == [] {
      assert a + b == b;
    } else {
      assert (a + b)[1..] == a[1..] + b;
      KeysConcat(a[1..], b);
    }
  }

  // ----- the source behind it -----

  lemma {:induction false} AddsReplay(src: Source, log: seq<Mutation>)
    requires AllAdds(log) && Replay(src, log).Done?
    ensures ReplayModels(Models(src), log) == Some(Models(Replay(src, log).value))
    ensures Frame(Replay(src, log).value) == Frame(src)
  {
    if log != [] {
      hide Models, Apply, AdmitsIn, EditModels, Frame;
      var before, m := Replay(src, log[..|log| - 1]).value, log[|log| - 1];
      AddsReplay(src, log[..|log| - 1]);
      assert Clear(before, m);
      AdmittedBySchema(before, m);
      MutationSimulates(before, m);
      AddKeepsFrame(before, m);
    }
  }

  lemma {:induction false} FrameConcat(a: Source, b: Source)
    ensures Frame(a + b) == Frame(a) + Frame(b)
  {
    if a == [] {
      assert a + b == b;
    } else {
      hide FrameOf;
      assert (a + b)[1..] == a[1..] + b;
      FrameConcat(a[1..], b);
    }
  }

  lemma OneFrame(top: Top)
    ensures Frame([top]) == FrameOf(top)
  {
    hide FrameOf;
    assert [top][1..] == [];
  }

  lemma FrameOfImports(src: Source, imports: set<string>)
    ensures Frame(WithImports(src, imports)) == Frame(src)
  {
    hide Frame, Known, Sorted;
    var missing := Sorted(imports - Known(src));
    if missing != [] {
      var k := FirstClass(src);
      var top := ImportFrom("sqlalchemy", Aliases(missing));
      OneFrame(top);
      assert src == src[..k] + src[k..];
      FrameConcat(src[..k], src[k..]);
      FrameConcat(src[..k] + [top], src[k..]);
      FrameConcat(src[..k], [top]);
    }
  }

  lemma Cut<T>(s: seq<T>, k: nat)
    requires k < |s|
    ensures s == s[..k] + [s[k]] + s[k + 1..]
  {
  }

  lemma FrameAround(src: Source, k: nat)
    requires k < |src|
    ensures Frame(src) == Frame(src[..k]) + FrameOf(src[k]) + Frame(src[k + 1..])
  {
    hide *;
    Cut(src, k);
    FrameConcat(src[..k] + [src[k]], src[k + 1..]);
    FrameConcat(src[..k], [src[k]]);
    OneFrame(src[k]);
  }

  lemma AddKeepsFrame(src: Source, m: Mutation)
    requires m.AddColumn? && Apply(src, m).Done?
    ensures Frame(Apply(src, m).value) == Frame(src)
  {
    hide Apply, Frame, WithImports, TableOf, NewColumn;
    ApplyShape(src, m);
    var k := ModelIndex(src, m.table);
    ModelIsClass(src[k], m.table);
    var edit := EditBody(src[k].body, m).value;
    var after := src[k := src[k].(body := edit.body)];
    NewColumnIsColumn(m);
    TableOfAppend(src[k].body, NewColumn(m));
    FrameAround(src, k);
    FrameAround(after, k);
    assert after[..k] == src[..k] && after[k + 1..] == src[k + 1..];
    FrameOfImports(after, edit.imports);
  }
}
