/** Mutations of a whole module, and of a module by a whole log of mutations. */
module MutationRuns {
  import opened Ordering
  import opened PyDict
  import opened Mutations
  import opened MutationSimulation

  // ----- reading a module in pieces -----

  function HeadModels(src: Source): seq<Model> {
    if src != [] && src[0].Class? then [ModelOf(src[0])] else []
  }

  lemma ModelsHead(src: Source)
    requires src != []
    ensures Models(src) == HeadModels(src) + Models(src[1..])
  {
    hide ModelOf;
  }

  lemma {:induction false} ModelsConcat(a: Source, b: Source)
    ensures Models(a + b) == Models(a) + Models(b)
  {
    if a == [] {
      assert a + b == b;
    } else {
      hide Models, ModelOf;
      assert (a + b)[1..] == a[1..] + b;
      ModelsConcat(a[1..], b);
      ModelsHead(a);
      ModelsHead(a + b);
    }
  }

  lemma {:induction false} KnownConcat(a: Source, b: Source)
    ensures Known(a + b) == Known(a) + Known(b)
  {
    if a == [] {
      assert a + b == b;
    } else {
      assert (a + b)[1..] == a[1..] + b;
      KnownConcat(a[1..], b);
    }
  }

  lemma {:induction false} TableNamesConcat(a: seq<Item>, b: seq<Item>)
    ensures TableNames(a + b) == TableNames(a) + TableNames(b)
  {
    if a == [] {
      assert a + b == b;
    } else {
      assert (a + b)[1..] == a[1..] + b;
      TableNamesConcat(a[1..], b);
    }
  }

  lemma {:induction false} DeclaredIn(body: seq<Item>, table: string)
    ensures table in TableNames(body) <==> exists i :: 0 <= i < |body| && DeclaresTable(body[i], table)
  {
    if body != [] {
      DeclaredIn(body[1..], table);
      if i :| 0 <= i < |body| && DeclaresTable(body[i], table) {
        assert i > 0 ==> DeclaresTable(body[1..][i - 1], table);
      }
      if table in TableNames(body[1..]) {
        var i :| 0 <= i < |body| - 1 && DeclaresTable(body[1..][i], table);
        assert DeclaresTable(body[i + 1], table);
      }
    }
  }

  /** The class the code edits is the first model that declares the table. */
  lemma {:induction false} ModelFound(src: Source, table: string)
    ensures FirstModel(Models(src), table) == |Models(src[..ModelIndex(src, table)])|
  {
    hide TableNames, TableOf, DeclaresTable;
    var k := ModelIndex(src, table);
    if src != [] {
      if src[0].Class? { DeclaredIn(src[0].body, table); }
      if k == 0 {
        assert Models(src)[0] == ModelOf(src[0]);
      } else {
        ModelFound(src[1..], table);
        assert src[..k][1..] == src[1..][..k - 1];
        assert |Models(src[..k])| == (if src[0].Class? then 1 else 0) + |Models(src[1..][..k - 1])|;
        if src[0].Class? {
          assert Models(src)[1..] == Models(src[1..]);
          assert table !in Models(src)[0].tables;
        } else {
          assert Models(src) == Models(src[1..]);
        }
      }
    }
  }

  lemma ModelsAround(src: Source, k: nat)
    requires k < |src| && src[k].Class?
    ensures Models(src) == Models(src[..k]) + [ModelOf(src[k])] + Models(src[k + 1..])
  {
    hide ModelOf, Models;
    assert src == src[..k] + ([src[k]] + src[k + 1..]);
    ModelsConcat(src[..k], [src[k]] + src[k + 1..]);
    ModelsConcat([src[k]], src[k + 1..]);
    assert Models([src[k]]) == [ModelOf(src[k])] by { OneModel(src[k]); }
  }

  lemma OneModel(top: Top)
    ensures Models([top]) == if top.Class? then [ModelOf(top)] else []
  {
    hide ModelOf;
    assert [top][1..] == [];
  }

  lemma ImportsLeaveModels(src: Source, imports: set<string>)
    ensures Models(WithImports(src, imports)) == Models(src)
  {
    hide Models, ModelOf, Known, Sorted;
    var missing := Sorted(imports - Known(src));
    if missing != [] {
      var k := FirstClass(src);
      var top := ImportFrom("sqlalchemy", Aliases(missing));
      OneModel(top);
      assert src == src[..k] + src[k..];
      ModelsConcat(src[..k], src[k..]);
      ModelsConcat(src[..k] + [top], src[k..]);
      ModelsConcat(src[..k], [top]);
    }
  }

  lemma ClassReplaced(src: Source, k: nat, body: seq<Item>, imports: set<string>)
    requires k < |src| && src[k].Class?
    ensures |Models(src[..k])| < |Models(src)|
    ensures Models(src)[|Models(src[..k])|] == ModelOf(src[k])
    ensures Models(WithImports(src[k := src[k].(body := body)], imports))
         == Models(src)[|Models(src[..k])| := ModelOf(src[k].(body := body))]
  {
    hide Models, ModelOf, WithImports;
    var after := src[k := src[k].(body := body)];
    ImportsLeaveModels(after, imports);
    ModelsAround(src, k);
    ModelsAround(after, k);
    assert after[..k] == src[..k] && after[k + 1..] == src[k + 1..];
  }

  // ----- a body edit keeps the tables a class declares -----

  lemma ItemReplaced(body: seq<Item>, k: nat, item: Item)
    requires k < |body|
    requires TableNames([item]) == TableNames([body[k]])
    ensures TableNames(body[k := item]) == TableNames(body)
  {
    hide TableNames;
    assert body == body[..k] + [body[k]] + body[k + 1..];
    assert body[k := item] == body[..k] + [item] + body[k + 1..];
    TableNamesConcat(body[..k] + [body[k]], body[k + 1..]);
    TableNamesConcat(body[..k], [body[k]]);
    TableNamesConcat(body[..k] + [item], body[k + 1..]);
    TableNamesConcat(body[..k], [item]);
  }

  lemma ItemRemoved(body: seq<Item>, k: nat)
    requires k < |body| && TableNames([body[k]]) == {}
    ensures TableNames(WithoutIndex(body, k)) == TableNames(body)
  {
    hide TableNames;
    assert body == body[..k] + [body[k]] + body[k + 1..];
    TableNamesConcat(body[..k] + [body[k]], body[k + 1..]);
    TableNamesConcat(body[..k], [body[k]]);
    TableNamesConcat(body[..k], body[k + 1..]);
  }

  lemma NamesNoTable(item: Item)
    requires item.AnnAssign? || (item.Assign? && !item.value.Text?)
      || (item.Assign? && Some("__tablename__") !in item.targets)
    ensures TableNames([item]) == {}
  {
    assert [item][1..] == [];
  }

  lemma EditKeepsTableNames(body: seq<Item>, m: Mutation)
    requires EditBody(body, m).Done?
    ensures TableNames(EditBody(body, m).value.body) == TableNames(body)
  {
    hide TableNames, SetKeyword, Others, IndexCall, TypeRoot;
    if m.AddIndex? {
      var k := ArgsIndex(body);
      var after := EditBody(body, m).value.body;
      if k == |body| {
        NamesNoTable(after[k]);
        TableNamesConcat(body, [after[k]]);
      } else {
        NamesNoTable(body[k]);
        NamesNoTable(after[k]);
        ItemReplaced(body, k, after[k]);
      }
    } else if m.AddColumn? {
      NamesNoTable(NewColumn(m));
      TableNamesConcat(body, [NewColumn(m)]);
    } else {
      var k := Position(body, m.column).value;
      NamesNoTable(body[k]);
      if m.DropColumn? {
        ItemRemoved(body, k);
      } else {
        var after := EditBody(body, m).value.body;
        NamesNoTable(after[k]);
        ItemReplaced(body, k, after[k]);
      }
    }
  }

  // ----- the simulation -----

  ghost predicate Clear(src: Source, m: Mutation) {
    var k := ModelIndex(src, m.table);
    k < |src| ==> Unambiguous(src[k].body, m)
  }

  lemma ApplyShape(src: Source, m: Mutation)
    ensures var k := ModelIndex(src, m.table);
            Apply(src, m).Done? <==> k < |src| && EditBody(src[k].body, m).Done?
    ensures var k := ModelIndex(src, m.table);
            Apply(src, m).Done? ==>
              (k < |src| && EditBody(src[k].body, m).Done? &&
               var edit := EditBody(src[k].body, m).value;
               Apply(src, m).value == WithImports(src[k := src[k].(body := edit.body)], edit.imports))
  {
    hide EditBody, WithImports;
  }

  /** Reading the tables of the mutated module gives the edited tables of the module read
      before: the addressed table changes as the mutation says, and every other class,
      column, option and their order stay. This is so for each kind, exactly when the
      class declares a dropped column once and an index goes to the `__table_args__` in
      force. */
  lemma MutationSimulates(src: Source, m: Mutation)
    requires Apply(src, m).Done?
    ensures Models(Apply(src, m).value) == EditModels(Models(src), m) <==> Clear(src, m)
  {
    hide Apply, EditBody, Models, TableOf, TableNames, WithImports, EditTable, Unambiguous;
    ApplyShape(src, m);
    ModelFound(src, m.table);
    var k := ModelIndex(src, m.table);
    var edit := EditBody(src[k].body, m).value;
    ClassReplaced(src, k, edit.body, edit.imports);
    EditKeepsTableNames(src[k].body, m);
    BodySimulates(src[k].body, m);
    var models, j := Models(src), |Models(src[..k])|;
    assert EditModels(models, m)[j] == models[j].(table := EditTable(models[j].table, m));
    assert Models(Apply(src, m).value)[j].table == TableOf(edit.body);
  }

  // ----- which mutations a schema admits -----

  predicate Typed(def: ColumnDef) {
    def.args != [] && (def.args[0].Name? || def.args[0].Call?)
  }

  /** Letters, digits and underscores, no digit first, and no word of the language. */
  predicate ValidName(name: string) {
    && name != [] && !('0' <= name[0] <= '9') && name !in KEYWORDS
    && forall c | c in name :: 'a' <= c <= 'z' || 'A' <= c <= 'Z' || '0' <= c <= '9' || c == '_'
  }

  /** A name, or a call of one. */
  predicate NamesType(typ: Option<Expr>) {
    typ.Some? && (typ.value.Name? || (typ.value.Call? && typ.value.func.Name?))
  }

  lemma ValidNameIs(name: string)
    ensures ValidName(name) <==> IsIdentifier(name)
  {
    if IsIdentifier(name) {
      forall c | c in name ensures 'a' <= c <= 'z' || 'A' <= c <= 'Z' || '0' <= c <= '9' || c == '_' {
        var i :| 0 <= i < |name| && name[i] == c;
      }
    }
    if ValidName(name) {
      assert forall i | 0 <= i < |name| :: name[i] in name;
    }
  }

  lemma NamesTypeIs(typ: Option<Expr>)
    ensures NamesType(typ) <==> TypeRoot(typ).Some?
  {
  }

  /** The columns a mutation names are there, or not there, as its kind needs. */
  predicate NamesFit(t: Table, m: Mutation) {
    match m
    case AddColumn(_, column, typ, _, _) => ValidName(column) && column !in Keys(t.columns) && NamesType(typ)
    case ChangeType(_, column, typ) =>
      ValidName(column) && column in Keys(t.columns) && NamesType(typ) && Typed(Get(t.columns, column).value)
    case AddIndex(_, columns, _) => columns != [] && forall c | c in columns :: c in Keys(t.columns)
    case Malformed(_) => false
    case UnknownKind(_, _) => false
    case _ => ValidName(m.column) && m.column in Keys(t.columns)
  }

  /** An index needs literal `__table_args__`, or none. */
  predicate ArgsFit(args: Option<Expr>, m: Mutation) {
    m.AddIndex? && args.Some? ==> args.value.DictDisplay? || args.value.Tuple?
  }

  /** Which mutations of a table are accepted, told from the table alone. */
  predicate Admits(t: Table, m: Mutation) {
    NamesFit(t, m) && ArgsFit(t.args, m)
  }

  /** The `__table_args__` the code looks at. */
  function PlainArgs(body: seq<Item>): Option<Expr> {
    if ArgsIndex(body) < |body| then Some(body[ArgsIndex(body)].value) else None
  }

  lemma ColumnKnown(body: seq<Item>, name: string)
    ensures Position(body, name).Some? <==> name in Keys(TableOf(body).columns)
    ensures Position(body, name).Some? ==>
      Get(TableOf(body).columns, name) == Some(DefOf(body[Position(body, name).value]))
  {
    hide TableOf;
    if Position(body, name).Some? {
      ColumnRead(body, Position(body, name).value, name);
    } else {
      NoColumnRead(body, name);
    }
  }

  lemma IndexAdmitted(body: seq<Item>, m: Mutation)
    requires m.AddIndex?
    ensures EditBody(body, m).Done? <==> NamesFit(TableOf(body), m) && ArgsFit(PlainArgs(body), m)
  {
    hide TableOf, IndexCall, Position;
    forall i | 0 <= i < |m.columns|
      ensures Position(body, m.columns[i]).Some? <==> m.columns[i] in Keys(TableOf(body).columns)
    {
      ColumnKnown(body, m.columns[i]);
    }
  }

  /** Accepted or rejected, the code decides by the columns of the table, and for an index
      by the form of the `__table_args__` it is about to edit. */
  lemma BodyAdmitted(body: seq<Item>, m: Mutation)
    ensures EditBody(body, m).Done? <==> NamesFit(TableOf(body), m) && ArgsFit(PlainArgs(body), m)
  {
    if m.AddIndex? {
      IndexAdmitted(body, m);
    } else if !m.Malformed? {
      ValidNameIs(m.column);
      if m.AddColumn? || m.ChangeType? { NamesTypeIs(m.typ); }
      hide TableOf, SetKeyword, Others, IsIdentifier, ValidName, Position, TypeRoot, NamesType;
      ColumnKnown(body, m.column);
    }
  }

  lemma ClearArgsFit(body: seq<Item>, m: Mutation)
    requires m.AddIndex? ==> Unambiguous(body, m)
    ensures ArgsFit(PlainArgs(body), m) <==> ArgsFit(TableOf(body).args, m)
  {
    hide TableOf;
    if m.AddIndex? && ArgsIndex(body) < |body| { ArgsRead(body, ArgsIndex(body)); }
  }

  predicate AdmitsIn(models: seq<Model>, m: Mutation) {
    FirstModel(models, m.table) < |models| && Admits(models[FirstModel(models, m.table)].table, m)
  }

  lemma NoModelFound(src: Source, m: Mutation)
    requires ModelIndex(src, m.table) == |src|
    ensures !AdmitsIn(Models(src), m)
  {
    hide Models, Admits, FirstModel, ModelIndex;
    ModelFound(src, m.table);
    assert src[..|src|] == src;
  }

  /** Exactly which mutations are accepted. */
  lemma Admitted(src: Source, m: Mutation)
    ensures Apply(src, m).Done? <==>
      var models := Models(src);
      var k := FirstModel(models, m.table);
      && k < |models| && NamesFit(models[k].table, m)
      && ModelIndex(src, m.table) < |src| && ArgsFit(PlainArgs(src[ModelIndex(src, m.table)].body), m)
  {
    hide Apply, EditBody, Models, TableOf, TableNames, WithImports, NamesFit, ArgsFit;
    ApplyShape(src, m);
    var k := ModelIndex(src, m.table);
    if k < |src| {
      ModelFound(src, m.table);
      ClassReplaced(src, k, src[k].body, {});
      BodyAdmitted(src[k].body, m);
    }
  }

  /** So the schema alone decides, but for an index that goes to other `__table_args__` than
      those in force. */
  lemma AdmittedBySchema(src: Source, m: Mutation)
    requires m.AddIndex? ==> Clear(src, m)
    ensures Apply(src, m).Done? <==> AdmitsIn(Models(src), m)
  {
    hide Apply, EditBody, Models, TableOf, TableNames, WithImports, Unambiguous, NamesFit, ArgsFit, PlainArgs;
    Admitted(src, m);
    var k := ModelIndex(src, m.table);
    if k == |src| {
      NoModelFound(src, m);
    } else {
      ModelFound(src, m.table);
      ClassReplaced(src, k, src[k].body, {});
      ClearArgsFit(src[k].body, m);
    }
  }

  // ----- what every accepted mutation keeps -----

  ghost predicate ColumnsOnce(body: seq<Item>) {
    forall i, j | 0 <= i < j < |body| :: IsColumn(body[i]) && IsColumn(body[j]) ==> body[i].target != body[j].target
  }

  ghost predicate ArgsOnce(body: seq<Item>) {
    forall i, j | 0 <= i < j < |body| :: !BindsArgs(body[i]) || !BindsArgs(body[j])
  }

  predicate DictLast(elts: seq<Expr>) {
    forall i | 0 <= i < |elts| - 1 :: !elts[i].DictDisplay?
  }

  ghost predicate TidyItem(item: Item) {
    && (IsColumn(item) ==> forall name :: Occurrences(item.init.value.keywords, name) <= 1)
    && (BindsArgs(item) ==> IsArgs(item))
    && (IsArgs(item) && item.value.Tuple? ==> DictLast(item.value.elts))
  }

  /** Column names unique, keywords bound once, one `__table_args__` with any options dict last. */
  ghost predicate TidyBody(body: seq<Item>) {
    ColumnsOnce(body) && ArgsOnce(body) && forall i | 0 <= i < |body| :: TidyItem(body[i])
  }

  ghost predicate Tidy(src: Source) {
    forall i | 0 <= i < |src| :: src[i].Class? ==> TidyBody(src[i].body)
  }

  lemma TidyIsClear(body: seq<Item>, m: Mutation)
    requires TidyBody(body)
    ensures Unambiguous(body, m)
  {
    if m.AddIndex? {
      hide TableOf, IsColumn, IsArgs;
      if ArgsIndex(body) < |body| {
        PlainIsBinding(body[ArgsIndex(body)]);
      } else {
        NoArgsRead(body);
      }
    }
  }

  lemma PlainIsBinding(item: Item)
    requires IsArgs(item)
    ensures BindsArgs(item)
  {
  }

  lemma TidyBindingIsPlain(item: Item)
    requires TidyItem(item)
    ensures BindsArgs(item) ==> IsArgs(item)
  {
  }

  lemma TidyReplaced(body: seq<Item>, k: nat, item: Item)
    requires TidyBody(body) && k < |body| && TidyItem(item)
    requires IsColumn(item) == IsColumn(body[k]) && BindsArgs(item) == BindsArgs(body[k])
    requires IsColumn(item) ==> item.target == body[k].target
    ensures TidyBody(body[k := item])
  {
    hide TidyItem, IsColumn, BindsArgs;
  }

  lemma TidyRemoved(body: seq<Item>, k: nat)
    requires TidyBody(body) && k < |body|
    ensures TidyBody(WithoutIndex(body, k))
  {
    hide TidyItem, IsColumn, BindsArgs;
    var after := WithoutIndex(body, k);
    assert forall i | 0 <= i < |after| :: after[i] == body[if i < k then i else i + 1];
  }

  lemma ColumnsAppended(body: seq<Item>, item: Item)
    requires ColumnsOnce(body)
    requires IsColumn(item) ==> Position(body, item.target.value).None?
    ensures ColumnsOnce(body + [item])
  {
    hide Position;
    forall i, j | 0 <= i < j < |body + [item]| && IsColumn((body + [item])[i]) && IsColumn((body + [item])[j])
      ensures (body + [item])[i].target != (body + [item])[j].target
    {
      if j == |body| { assert !IsColumnNamed(body[i], item.target.value); }
    }
  }

  lemma TidyAppended(body: seq<Item>, item: Item)
    requires TidyBody(body) && TidyItem(item)
    requires IsColumn(item) ==> Position(body, item.target.value).None?
    requires BindsArgs(item) ==> ArgsIndex(body) == |body|
    ensures TidyBody(body + [item])
  {
    hide TidyItem, BindsArgs, Position, ColumnsOnce, IsColumn;
    ColumnsAppended(body, item);
    forall i | 0 <= i < |body| && BindsArgs(item) ensures !BindsArgs(body[i]) {
      TidyBindingIsPlain(body[i]);
    }
  }

  lemma KeywordsTidy(keywords: seq<Keyword>, name: string, value: Expr)
    requires forall other :: Occurrences(keywords, other) <= 1
    ensures forall other :: Occurrences(SetKeyword(keywords, name, value), other) <= 1
    ensures forall other :: Occurrences(Others(keywords, name), other) <= 1
  {
    hide SetKeyword, Occurrences;
    forall other
      ensures Occurrences(SetKeyword(keywords, name, value), other) <= 1
          && Occurrences(Others(keywords, name), other) <= 1
    {
      SetKeywordBinds(keywords, name, value, other);
      OthersOccur(keywords, name, other);
    }
  }

  lemma NewColumnTidy(m: Mutation)
    requires m.AddColumn? && m.typ.Some?
    ensures TidyItem(NewColumn(m))
  {
    hide SetKeyword;
    var nullable := match m.nullable case Some(v) => v case None => Truth(true);
    KeywordsTidy([], "nullable", nullable);
    if m.default.Some? { KeywordsTidy(SetKeyword([], "nullable", nullable), "default", m.default.value); }
  }

  lemma IndexKeepsTidy(body: seq<Item>, m: Mutation)
    requires TidyBody(body) && m.AddIndex? && EditBody(body, m).Done?
    ensures TidyBody(EditBody(body, m).value.body)
  {
    hide TidyBody, Position;
    var after := EditBody(body, m).value.body;
    var k := ArgsIndex(body);
    if k == |body| {
      TidyAppended(body, after[k]);
    } else {
      assert TidyItem(body[k]) by { TidyAt(body, k); }
      assert TidyItem(after[k]);
      TidyReplaced(body, k, after[k]);
    }
  }

  lemma TidyAt(body: seq<Item>, k: nat)
    requires TidyBody(body) && k < |body|
    ensures TidyItem(body[k])
  {
  }

  lemma ColumnKeepsTidy(body: seq<Item>, m: Mutation, k: nat)
    requires TidyBody(body) && k < |body| && IsColumn(body[k]) && EditColumn(body, k, m).Done?
    ensures TidyBody(EditColumn(body, k, m).value.body)
  {
    hide TidyBody, TypeRoot, SetKeyword, Others, Occurrences;
    TidyAt(body, k);
    var keywords := body[k].init.value.keywords;
    match m
    case DropColumn(_, _) => TidyRemoved(body, k);
    case ChangeType(_, _, typ) => TidyReplaced(body, k, Retyped(body[k], typ.value));
    case SetNotNull(_, _) =>
      KeywordsTidy(keywords, "nullable", Truth(false));
      TidyReplaced(body, k, Rekeyed(body[k], SetKeyword(keywords, "nullable", Truth(false))));
    case DropNotNull(_, _) =>
      KeywordsTidy(keywords, "nullable", Truth(true));
      TidyReplaced(body, k, Rekeyed(body[k], SetKeyword(keywords, "nullable", Truth(true))));
    case SetDefault(_, _, value) =>
      KeywordsTidy(keywords, "default", value);
      TidyReplaced(body, k, Rekeyed(body[k], SetKeyword(keywords, "default", value)));
    case DropDefault(_, _) =>
      KeywordsTidy(keywords, "default", Truth(true));
      TidyReplaced(body, k, Rekeyed(body[k], Others(keywords, "default")));
    case _ =>
  }

  lemma BodyStaysTidy(body: seq<Item>, m: Mutation)
    requires TidyBody(body) && EditBody(body, m).Done?
    ensures TidyBody(EditBody(body, m).value.body)
  {
    hide TidyBody, EditColumn, EditIndex, NewColumn;
    if m.AddIndex? {
      IndexKeepsTidy(body, m);
    } else if m.AddColumn? {
      NewColumnTidy(m);
      assert IsColumn(NewColumn(m)) && NewColumn(m).target == Some(m.column) by { NewColumnIsColumn(m); }
      TidyAppended(body, NewColumn(m));
    } else {
      ColumnKeepsTidy(body, m, Position(body, m.column).value);
    }
  }

  lemma NewColumnIsColumn(m: Mutation)
    requires m.AddColumn? && m.typ.Some?
    ensures IsColumnNamed(NewColumn(m), m.column)
  {
  }

  lemma ImportsKeepTidy(src: Source, imports: set<string>)
    requires Tidy(src)
    ensures Tidy(WithImports(src, imports))
  {
    hide TidyBody, Known, Sorted;
  }

  // ----- names -----

  /** Some `from ... import` statement binds the name: as it stands, or by `as`. */
  ghost predicate Imports(src: Source, name: string) {
    exists top, alias :: top in src && top.ImportFrom? && alias in top.names
      && (alias == Alias(name, None) || alias.asname == Some(name))
  }

  lemma {:induction false} BoundIs(names: seq<Alias>, name: string)
    ensures name in BoundAll(names)
        <==> exists alias :: alias in names && (alias == Alias(name, None) || alias.asname == Some(name))
  {
    if names != [] {
      BoundIs(names[1..], name);
      assert forall alias :: alias in names <==> alias == names[0] || alias in names[1..];
    }
  }

  lemma {:induction false} KnownIs(src: Source, name: string)
    ensures name in Known(src) <==> Imports(src, name)
  {
    if src != [] {
      hide BoundAll;
      KnownIs(src[1..], name);
      if src[0].ImportFrom? { BoundIs(src[0].names, name); }
      assert forall top :: top in src <==> top == src[0] || top in src[1..];
      if Imports(src[1..], name) {
        var top, alias :| top in src[1..] && top.ImportFrom? && alias in top.names
          && (alias == Alias(name, None) || alias.asname == Some(name));
        assert top in src;
      }
    }
  }

  /** The names a mutation needs imported. */
  function Introduced(m: Mutation): set<string> {
    match m
    case AddIndex(_, _, _) => {"Index"}
    case AddColumn(_, _, Some(typ), _, _) => {Called(typ)}
    case ChangeType(_, _, Some(typ)) => {Called(typ)}
    case _ => {}
  }

  /** The name of a type, or of what is called to make it. */
  function Called(typ: Expr): string {
    match typ case Name(id) => id case Call(Name(id), _, _) => id case _ => ""
  }

  lemma {:induction false} BoundAliases(names: seq<string>)
    ensures BoundAll(Aliases(names)) == set n | n in names
  {
    if names != [] {
      BoundAliases(names[1..]);
      assert Aliases(names)[1..] == Aliases(names[1..]);
    }
  }

  lemma KnownWithImports(src: Source, imports: set<string>)
    ensures Known(WithImports(src, imports)) == Known(src) + imports
  {
    hide Known, BoundAll, Sorted;
    var missing := Sorted(imports - Known(src));
    assert (set n | n in missing) == imports - Known(src);
    if missing == [] {
      assert imports - Known(src) == {};
      assert forall n | n in imports :: n in Known(src) || n in imports - Known(src);
      assert Known(src) + imports == Known(src);
    } else {
      var k := FirstClass(src);
      var top := ImportFrom("sqlalchemy", Aliases(missing));
      assert src == src[..k] + src[k..];
      KnownConcat(src[..k], src[k..]);
      KnownConcat(src[..k] + [top], src[k..]);
      KnownConcat(src[..k], [top]);
      OneKnown(top);
      BoundAliases(missing);
    }
  }

  lemma OneKnown(top: Top)
    ensures Known([top]) == if top.ImportFrom? then BoundAll(top.names) else {}
  {
    hide BoundAll;
    assert [top][1..] == [];
  }

  lemma KnownOfClassEdit(src: Source, k: nat, body: seq<Item>)
    requires k < |src| && src[k].Class?
    ensures Known(src[k := src[k].(body := body)]) == Known(src)
  {
    hide Known;
    var after := src[k := src[k].(body := body)];
    assert src == src[..k] + [src[k]] + src[k + 1..];
    assert after == src[..k] + [after[k]] + src[k + 1..];
    KnownConcat(src[..k] + [src[k]], src[k + 1..]);
    KnownConcat(src[..k], [src[k]]);
    KnownConcat(src[..k] + [after[k]], src[k + 1..]);
    KnownConcat(src[..k], [after[k]]);
    OneKnown(src[k]);
    OneKnown(after[k]);
  }

  lemma EditIntroduces(body: seq<Item>, m: Mutation)
    requires EditBody(body, m).Done?
    ensures EditBody(body, m).value.imports == Introduced(m)
  {
    if m.AddColumn? || m.ChangeType? { CalledIs(m.typ); }
    hide TypeRoot, Called, Position, SetKeyword, Others, IndexCall;
  }

  lemma CalledIs(typ: Option<Expr>)
    ensures TypeRoot(typ).Some? ==> TypeRoot(typ).value == Called(typ.value)
  {
  }

  /** An accepted mutation keeps the module tidy and imports exactly the names it introduced. */
  lemma MutationKeeps(src: Source, m: Mutation)
    requires Apply(src, m).Done?
    ensures Known(Apply(src, m).value) == Known(src) + Introduced(m)
    ensures Tidy(src) ==> Tidy(Apply(src, m).value)
  {
    hide Apply, EditBody, WithImports, Known, TidyBody, Introduced;
    ApplyShape(src, m);
    var k := ModelIndex(src, m.table);
    var edit := EditBody(src[k].body, m).value;
    var after := src[k := src[k].(body := edit.body)];
    EditIntroduces(src[k].body, m);
    KnownOfClassEdit(src, k, edit.body);
    KnownWithImports(after, edit.imports);
    if Tidy(src) {
      BodyStaysTidy(src[k].body, m);
      ImportsKeepTidy(after, edit.imports);
    }
  }

  // ----- whole logs -----

  function Replay(src: Source, log: seq<Mutation>): Result<Source> {
    if log == [] then Done(src)
    else match Replay(src, log[..|log| - 1])
      case Rejected(reason) => Rejected(reason)
      case Done(before) => Apply(before, log[|log| - 1])
  }

  function ReplayModels(models: seq<Model>, log: seq<Mutation>): Option<seq<Model>> {
    if log == [] then Some(models)
    else match ReplayModels(models, log[..|log| - 1])
      case None => None
      case Some(before) => if AdmitsIn(before, log[|log| - 1]) then Some(EditModels(before, log[|log| - 1])) else None
  }

  function IntroducedBy(log: seq<Mutation>): set<string> {
    if log == [] then {} else IntroducedBy(log[..|log| - 1]) + Introduced(log[|log| - 1])
  }

  /** Each mutation of the log, when its turn comes, edits the binding in force. */
  ghost predicate ClearThroughout(src: Source, log: seq<Mutation>) {
    log == [] ||
    (ClearThroughout(src, log[..|log| - 1])
     && (Replay(src, log[..|log| - 1]).Done? ==> Clear(Replay(src, log[..|log| - 1]).value, log[|log| - 1])))
  }

  /** After each mutation of the log the source declares the edited tables. */
  ghost predicate InStep(src: Source, log: seq<Mutation>)
    requires Replay(src, log).Done?
  {
    log == [] ||
    (InStep(src, log[..|log| - 1]) && ReplayModels(Models(src), log) == Some(Models(Replay(src, log).value)))
  }

  /** A log edits source text as it edits the schema, mutation by mutation, exactly when
      each of its mutations edits the binding in force. */
  lemma {:induction false} LogSimulatesExactlyWhen(src: Source, log: seq<Mutation>)
    requires Replay(src, log).Done?
    ensures InStep(src, log) <==> ClearThroughout(src, log)
    ensures InStep(src, log) ==> ReplayModels(Models(src), log) == Some(Models(Replay(src, log).value))
  {
    if log != [] {
      hide Apply, Models, AdmitsIn, EditModels, Clear;
      var before, m := Replay(src, log[..|log| - 1]).value, log[|log| - 1];
      LogSimulatesExactlyWhen(src, log[..|log| - 1]);
      MutationSimulates(before, m);
      if Clear(before, m) { AdmittedBySchema(before, m); }
    }
  }

  /** Such a log is accepted on the source iff it is on the schema. */
  lemma {:induction false} LogAdmitted(src: Source, log: seq<Mutation>)
    requires ClearThroughout(src, log)
    ensures Replay(src, log).Done? <==> ReplayModels(Models(src), log).Some?
    ensures Replay(src, log).Done? ==> ReplayModels(Models(src), log) == Some(Models(Replay(src, log).value))
  {
    if log != [] {
      hide Apply, Models, AdmitsIn, EditModels, Clear;
      LogAdmitted(src, log[..|log| - 1]);
      if Replay(src, log[..|log| - 1]).Done? {
        var before, m := Replay(src, log[..|log| - 1]).value, log[|log| - 1];
        AdmittedBySchema(before, m);
        if Apply(before, m).Done? { MutationSimulates(before, m); }
      }
    }
  }

  lemma TidyStepIsClear(src: Source, m: Mutation)
    requires Tidy(src)
    ensures Clear(src, m)
  {
    hide TidyBody, Unambiguous;
    var k := ModelIndex(src, m.table);
    if k < |src| {
      ModelIsClass(src[k], m.table);
      TidyIsClear(src[k].body, m);
    }
  }

  /** A log on a tidy module keeps it tidy, so all of it edits bindings in force, and leaves
      every name it introduced imported. Any log does the latter. */
  lemma {:induction false} LogKeeps(src: Source, log: seq<Mutation>)
    ensures Replay(src, log).Done? ==> Known(Replay(src, log).value) == Known(src) + IntroducedBy(log)
    ensures Replay(src, log).Done? && Tidy(src) ==> Tidy(Replay(src, log).value)
    ensures Tidy(src) ==> ClearThroughout(src, log)
  {
    if log != [] {
      hide Apply, Known, Introduced, Tidy, Clear;
      LogKeeps(src, log[..|log| - 1]);
      if Replay(src, log[..|log| - 1]).Done? {
        var before, m := Replay(src, log[..|log| - 1]).value, log[|log| - 1];
        if Tidy(src) { TidyStepIsClear(before, m); }
        if Apply(before, m).Done? { MutationKeeps(before, m); }
      }
    }
  }

  // ----- adding and dropping -----

  lemma {:induction false} ModelIndexIs(src: Source, table: string, k: nat)
    requires k < |src| && IsModel(src[k], table) && forall i :: 0 <= i < k ==> !IsModel(src[i], table)
    ensures ModelIndex(src, table) == k
  {
    hide IsModel;
  }

  lemma IsModelByName(top: Top, body: seq<Item>, table: string)
    requires top.Class? && TableNames(body) == TableNames(top.body)
    ensures IsModel(top.(body := body), table) == IsModel(top, table)
  {
    hide TableNames;
    DeclaredIn(body, table);
    DeclaredIn(top.body, table);
  }

  /** Where the imports go, as one cut of the module. */
  lemma ImportsCut(src: Source, imports: set<string>) returns (p: nat, added: Source)
    ensures p <= |src| && forall i :: 0 <= i < p ==> !src[i].Class?
    ensures forall i :: 0 <= i < |added| ==> !added[i].Class?
    ensures WithImports(src, imports) == src[..p] + added + src[p..]
    ensures forall k, body | p <= k < |src| && src[k].Class? ::
      WithImports(src[k := src[k].(body := body)], imports) == src[..p] + added + src[k := src[k].(body := body)][p..]
  {
    hide Known, Sorted;
    var missing := Sorted(imports - Known(src));
    p := FirstClass(src);
    added := if missing == [] then [] else [ImportFrom("sqlalchemy", Aliases(missing))];
    assert src == src[..p] + [] + src[p..];
    forall k, body | p <= k < |src| && src[k].Class?
      ensures WithImports(src[k := src[k].(body := body)], imports)
          == src[..p] + added + src[k := src[k].(body := body)][p..]
    {
      var after := src[k := src[k].(body := body)];
      KnownOfClassEdit(src, k, body);
      FirstClassIs(after, p);
      assert after[..p] == src[..p];
      assert after == after[..p] + [] + after[p..];
    }
  }

  /** Dropping the column a mutation just added gives back every class as it was; only an
      import of the type may remain. */
  lemma AddThenDrop(src: Source, add: Mutation)
    requires add.AddColumn? && Apply(src, add).Done?
    ensures Apply(Apply(src, add).value, DropColumn(add.table, add.column))
         == Done(WithImports(src, Introduced(add)))
  {
    hide Apply, EditBody, WithImports, Known, Introduced, TableNames, IsModel, Sorted;
    ApplyShape(src, add);
    var k := ModelIndex(src, add.table);
    ModelIsClass(src[k], add.table);
    var body := src[k].body;
    var edit := EditBody(body, add).value;
    EditIntroduces(body, add);
    EditKeepsTableNames(body, add);
    IsModelByName(src[k], edit.body, add.table);
    var p, added := ImportsCut(src, edit.imports);
    var after := src[k := src[k].(body := edit.body)];
    var mid := src[..p] + added + after[p..];
    assert Apply(src, add).value == mid;
    var j := k + |added|;
    assert mid[j] == after[k];
    forall i | 0 <= i < j ensures !IsModel(mid[i], add.table) {
      if p <= i < p + |added| {
        NotModel(mid[i], add.table);
      } else {
        assert mid[i] == src[if i < p then i else i - |added|];
      }
    }
    ModelIndexIs(mid, add.table, j);
    var drop := DropColumn(add.table, add.column);
    DropUndoes(body, add);
    ApplyShape(mid, drop);
    assert mid[j := mid[j].(body := body)] == src[..p] + added + src[p..];
    NothingToImport(src[..p] + added + src[p..]);
  }

  lemma ModelIsClass(top: Top, table: string)
    requires IsModel(top, table)
    ensures top.Class?
  {
  }

  lemma NotModel(top: Top, table: string)
    requires !top.Class?
    ensures !IsModel(top, table)
  {
  }

  lemma NothingToImport(src: Source)
    ensures WithImports(src, {}) == src
  {
    hide Sorted, Known;
    assert {} - Known(src) == {};
  }

  lemma DropUndoes(body: seq<Item>, add: Mutation)
    requires add.AddColumn? && EditBody(body, add).Done?
    ensures EditBody(EditBody(body, add).value.body, DropColumn(add.table, add.column)) == Done(Edit(body, {}))
  {
    NewColumnIsColumn(add);
    LastPosition(body, NewColumn(add), add.column);
    hide NewColumn, Position, IsColumnNamed, IsIdentifier, TypeRoot;
    var after := EditBody(body, add).value.body;
    assert after == body + [NewColumn(add)];
    assert WithoutIndex(after, |body|) == body;
  }

  lemma LastPosition(body: seq<Item>, item: Item, name: string)
    requires IsColumnNamed(item, name)
    ensures Position(body + [item], name) == Some(|body|)
  {
    hide IsColumnNamed;
  }
}
