/** What an accepted mutation writes, word for word. */
module MutationResults {
  import opened Ordering
  import opened PyDict
  import opened Mutations
  import opened MutationSimulation
  import opened MutationRuns

  /** The definition the table has of a column after a mutation. */
  function After(src: Source, m: Mutation): Option<ColumnDef>
    requires Apply(src, m).Done? && FirstModel(Models(Apply(src, m).value), m.table) < |Models(Apply(src, m).value)|
    requires !m.AddIndex? && !m.Malformed?
  {
    var models := Models(Apply(src, m).value);
    Get(models[FirstModel(models, m.table)].table.columns, m.column)
  }

  lemma EditedModel(src: Source, m: Mutation)
    requires Apply(src, m).Done? && Clear(src, m)
    ensures var models, after := Models(src), Models(Apply(src, m).value);
            var k := FirstModel(models, m.table);
            && k < |models| == |after| && FirstModel(after, m.table) == k
            && after[k].table == EditTable(models[k].table, m)
    ensures NamesFit(Models(src)[FirstModel(Models(src), m.table)].table, m)
  {
    hide Apply, Models, EditTable, NamesFit, ArgsFit;
    Admitted(src, m);
    MutationSimulates(src, m);
    SameNames(Models(src), FirstModel(Models(src), m.table),
              Models(Apply(src, m).value)[FirstModel(Models(src), m.table)]);
  }

  lemma {:induction false} SameNames(models: seq<Model>, k: nat, model: Model)
    requires k < |models| && model.tables == models[k].tables
    ensures forall t :: FirstModel(models[k := model], t) == FirstModel(models, t)
  {
    if k > 0 {
      SameNames(models[1..], k - 1, model);
      assert models[k := model][1..] == models[1..][k - 1 := model];
    } else {
      assert models[k := model][1..] == models[1..];
    }
  }

  lemma ClearUnlessDropped(src: Source, m: Mutation)
    requires !m.DropColumn? && !m.AddIndex?
    ensures Clear(src, m)
  {
  }

  /** `set_not_null` leaves `nullable=False`; `drop_not_null`, and an `add_column` that says
      nothing of it, `nullable=True`; one that does, what it says. */
  lemma NullableWritten(src: Source, m: Mutation)
    requires (m.SetNotNull? || m.DropNotNull? || m.AddColumn?) && Apply(src, m).Done?
    ensures FirstModel(Models(Apply(src, m).value), m.table) < |Models(Apply(src, m).value)|
    ensures After(src, m).Some? && "nullable" in After(src, m).value.bindings
    ensures After(src, m).value.bindings["nullable"]
         == if m.SetNotNull? then Opaque("False")
            else if m.DropNotNull? || m.nullable.None? then Opaque("True")
            else m.nullable.value
  {
    ClearUnlessDropped(src, m);
    EditedModel(src, m);
    hide Apply, Models, NamesType, ValidName, Clear;
    var models := Models(src);
    var t := models[FirstModel(models, m.table)].table;
    if m.AddColumn? {
      AddedRead(t, m);
    } else {
      PutSets(t.columns, m.column, EditedDef(t, m), m.column);
    }
  }

  function EditedDef(t: Table, m: Mutation): ColumnDef
    requires (m.SetNotNull? || m.DropNotNull?) && m.column in Keys(t.columns)
  {
    var def := Get(t.columns, m.column).value;
    def.(bindings := def.bindings["nullable" := Opaque(if m.SetNotNull? then "False" else "True")])
  }

  lemma AddedRead(t: Table, m: Mutation)
    requires m.AddColumn? && m.typ.Some? && m.column !in Keys(t.columns)
    ensures Get(EditTable(t, m).columns, m.column).Some?
    ensures var def := Get(EditTable(t, m).columns, m.column).value;
            && def.annotation == Subscript(Name("Mapped"), m.typ.value) && def.args == [m.typ.value]
              && def.starred == []
            && def.bindings.Keys == {"nullable"} + (if m.default.Some? then {"default"} else {})
            && def.bindings["nullable"] == (match m.nullable case Some(v) => v case None => Opaque("True"))
            && (m.default.Some? ==> def.bindings["default"] == m.default.value)
  {
    hide Keys, Get;
    var grown := EditTable(t, m).columns;
    assert grown == t.columns + [grown[|grown| - 1]];
    AppendEntry(t.columns, grown[|grown| - 1], m.column);
  }

  /** What the table arguments hold: the elements of a tuple, or a dict alone. */
  function Held(value: Expr): seq<Expr> {
    match value case Tuple(elts) => elts case other => [other]
  }

  /** Where `add_index` writes: before what the first plain `__table_args__` holds, or in new
      ones at the end of the body. */
  lemma IndexWritten(src: Source, m: Mutation)
    requires m.AddIndex? && Apply(src, m).Done?
    ensures ModelIndex(src, m.table) < |src|
    ensures var k := ModelIndex(src, m.table);
            var body := src[k].body;
            var i := ArgsIndex(body);
            var index := IndexOf(m.table, m.columns, m.unique);
            var edited := if i == |body| then body + [Assign([Some("__table_args__")], Tuple([index]))]
              else body[i := body[i].(value := Tuple([index] + Held(body[i].value)))];
            Apply(src, m).value == WithImports(src[k := src[k].(body := edited)], {"Index"})
  {
    hide IndexCall, IndexOf, WithImports, ArgsIndex, Position;
    ApplyShape(src, m);
    IndexCallIs(m.table, m.columns, m.unique);
    var k := ModelIndex(src, m.table);
    var body, index := src[k].body, IndexOf(m.table, m.columns, m.unique);
    if ArgsIndex(body) < |body| {
      assert [index, body[ArgsIndex(body)].value] == [index] + [body[ArgsIndex(body)].value];
    }
  }

  /** What is imported: nothing when all names are known, or else one statement before the
      first class that imports each unknown name from sqlalchemy as it stands, in order. */
  lemma ImportsWritten(src: Source, imports: set<string>)
    ensures (forall name | name in imports :: name in Known(src)) ==> WithImports(src, imports) == src
    ensures (exists name :: name in imports && name !in Known(src)) ==>
      var k := FirstClass(src);
      && |WithImports(src, imports)| == |src| + 1
      && WithImports(src, imports)[..k] == src[..k] && WithImports(src, imports)[k + 1..] == src[k..]
      && WithImports(src, imports)[k].ImportFrom? && WithImports(src, imports)[k].origin == "sqlalchemy"
      && AreNames(WithImports(src, imports)[k].names, imports - Known(src))
  {
    hide Known, Sorted, Aliases, AreNames;
    var missing := Sorted(imports - Known(src));
    NamesMissing(src, imports);
    ImportsUnfold(src, imports);
    if missing != [] { AliasesWritten(imports - Known(src)); }
  }

  lemma NamesMissing(src: Source, imports: set<string>)
    ensures Sorted(imports - Known(src)) == [] <==> forall name | name in imports :: name in Known(src)
  {
    hide Known, Sorted;
    var unknown := imports - Known(src);
    assert |Sorted(unknown)| == |unknown|;
    assert Sorted(unknown) == [] <==> unknown == {};
    assert forall name :: name in unknown <==> name in imports && name !in Known(src);
    if unknown != {} {
      var name :| name in unknown;
    }
  }

  lemma AliasesWritten(names: set<string>)
    ensures AreNames(Aliases(Sorted(names)), names)
  {
    hide Sorted;
    var missing := Sorted(names);
    AliasesAre(missing);
    forall name | name in names ensures Alias(name, None) in Aliases(missing) {
      var i :| 0 <= i < |missing| && missing[i] == name;
      assert Aliases(missing)[i] == Alias(name, None);
    }
    forall i | 0 <= i < |missing| ensures missing[i] in names {
      assert missing[i] in missing;
    }
  }

  /** Aliases without `as`, for each of the names once, in sorted order. */
  ghost predicate AreNames(aliases: seq<Alias>, names: set<string>) {
    && (forall i | 0 <= i < |aliases| :: aliases[i].asname.None? && aliases[i].name in names)
    && (forall name | name in names :: Alias(name, None) in aliases)
    && (forall i, j | 0 <= i < j < |aliases| ::
          aliases[i].name != aliases[j].name && Leq(aliases[i].name, aliases[j].name))
  }

  lemma {:induction false} AliasesAre(names: seq<string>)
    ensures |Aliases(names)| == |names| && forall i | 0 <= i < |names| :: Aliases(names)[i] == Alias(names[i], None)
  {
    if names != [] { AliasesAre(names[1..]); }
  }
}
