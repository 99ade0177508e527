/** A mutation of the source is an edit of the schema it declares. */
module MutationSimulation {
  import opened Ordering
  import opened PyDict
  import opened Mutations

  // ----- the schema a class body declares -----

  /** A column: what Python sees of `name: annotation = mapped_column(args, keywords)`. */
  datatype ColumnDef = ColumnDef(annotation: Expr, args: seq<Expr>, bindings: map<string, Expr>, starred: seq<Expr>)

  /** `columns` in the order the names are first bound, each with its last definition;
      `args` the last `__table_args__`; `rest` everything else in the body. */
  datatype Table = Table(columns: Dict<ColumnDef>, args: Option<Expr>, rest: seq<Item>)

  datatype Model = Model(name: string, bases: seq<string>, tables: set<string>, table: Table)

  function Bindings(keywords: seq<Keyword>): map<string, Expr> {
    if keywords == [] then map[]
    else
      var last := keywords[|keywords| - 1];
      var before := Bindings(keywords[..|keywords| - 1]);
      match last.arg case None => before case Some(name) => before[name := last.value]
  }

  function Starred(keywords: seq<Keyword>): seq<Expr> {
    if keywords == [] then []
    else (if keywords[0].arg.None? then [keywords[0].value] else []) + Starred(keywords[1..])
  }

  function DefOf(item: Item): ColumnDef
    requires IsColumn(item)
  {
    var call := item.init.value;
    ColumnDef(item.annotation, call.args, Bindings(call.keywords), Starred(call.keywords))
  }

  /** The value an item binds `__table_args__` to. An annotated assignment binds it too,
      though the mutation code looks at plain ones only. */
  function ArgsValue(item: Item): Option<Expr> {
    if IsColumn(item) then None
    else if IsArgs(item) then Some(item.value)
    else if item.AnnAssign? && item.target == Some("__table_args__") then item.init
    else None
  }

  predicate BindsArgs(item: Item) {
    ArgsValue(item).Some?
  }

  function AddItem(t: Table, item: Item): Table {
    if IsColumn(item) then t.(columns := Put(t.columns, item.target.value, DefOf(item)))
    else if BindsArgs(item) then t.(args := ArgsValue(item))
    else t.(rest := t.rest + [item])
  }

  /** The body executed from the top. */
  function TableOf(body: seq<Item>): Table {
    if body == [] then Table([], None, []) else AddItem(TableOf(body[..|body| - 1]), body[|body| - 1])
  }

  function TableNames(body: seq<Item>): set<string> {
    if body == [] then {}
    else (if body[0].Assign? && Some("__tablename__") in body[0].targets
      && body[0].value.Text? then {body[0].value.value} else {})
         + TableNames(body[1..])
  }

  /** The model classes of a module, in order. */
  function Models(src: Source): seq<Model> {
    if src == [] then []
    else (if src[0].Class? then [ModelOf(src[0])] else []) + Models(src[1..])
  }

  function ModelOf(top: Top): Model
    requires top.Class?
  {
    Model(top.name, top.bases, TableNames(top.body), TableOf(top.body))
  }

  // ----- the edits of a schema -----

  /** The constants `nullable` and `unique` are given. */
  const TRUE: Expr := Opaque("True")
  const FALSE: Expr := Opaque("False")

  /** The names with underscores between them. */
  function Strung(names: seq<string>): string {
    if names == [] then ""
    else if |names| == 1 then names[0]
    else Strung(names[..|names| - 1]) + "_" + names[|names| - 1]
  }

  /** `Index("ix_<table>_<names>", "<name>", ..., unique=...)`. */
  function IndexOf(table: string, columns: seq<string>, unique: bool): Expr {
    Call(Name("Index"),
         [Text("ix_" + table + "_" + Strung(columns))]
           + seq(|columns|, i requires 0 <= i < |columns| => Text(columns[i])),
         [Keyword(Some("unique"), if unique then TRUE else FALSE)])
  }

  lemma {:induction false} StrungAfter(name: string, names: seq<string>)
    requires names != []
    ensures Strung([name] + names) == name + "_" + Strung(names)
  {
    var all := [name] + names;
    if |names| == 1 {
      assert all[..1] == [name];
    } else {
      var front := names[..|names| - 1];
      assert all[..|all| - 1] == [name] + front;
      StrungAfter(name, front);
      assert name + "_" + Strung(front) + "_" + names[|names| - 1]
        == name + "_" + (Strung(front) + "_" + names[|names| - 1]);
    }
  }

  lemma {:induction false} UnderscoredIs(names: seq<string>)
    ensures Underscored(names) == Strung(names)
  {
    if |names| > 1 {
      UnderscoredIs(names[1..]);
      StrungAfter(names[0], names[1..]);
      assert names == [names[0]] + names[1..];
    }
  }

  lemma {:induction false} TextsAre(names: seq<string>)
    ensures Texts(names) == seq(|names|, i requires 0 <= i < |names| => Text(names[i]))
  {
    if names != [] { TextsAre(names[1..]); }
  }

  lemma IndexCallIs(table: string, columns: seq<string>, unique: bool)
    ensures IndexCall(table, columns, unique) == IndexOf(table, columns, unique)
  {
    UnderscoredIs(columns);
    TextsAre(columns);
  }

  function WithIndex(args: Option<Expr>, index: Expr): Expr {
    match args
    case None => Tuple([index])
    case Some(Tuple(elts)) => Tuple([index] + elts)
    case Some(other) => Tuple([index, other])
  }

  function Rebound(t: Table, column: string, f: map<string, Expr> -> map<string, Expr>): Table {
    match Get(t.columns, column)
    case None => t
    case Some(def) => t.(columns := Put(t.columns, column, def.(bindings := f(def.bindings))))
  }

  function Bind(name: string, value: Expr): map<string, Expr> -> map<string, Expr> {
    (b: map<string, Expr>) => b[name := value]
  }

  function Unbind(name: string): map<string, Expr> -> map<string, Expr> {
    (b: map<string, Expr>) => b - {name}
  }

  /** What each kind of mutation is supposed to do to a table. */
  function EditTable(t: Table, m: Mutation): Table {
    match m
    case AddColumn(_, column, Some(typ), nullable, default) =>
      var b := map["nullable" := match nullable case Some(v) => v case None => TRUE];
      var b' := match default case Some(v) => b["default" := v] case None => b;
      t.(columns := t.columns + [(column, ColumnDef(Subscript(Name("Mapped"), typ), [typ], b', []))])
    case DropColumn(_, column) => t.(columns := Without(t.columns, column))
    case ChangeType(_, column, Some(typ)) =>
      (match Get(t.columns, column)
       case Some(def) =>
         if def.args == [] then t
         else t.(columns := Put(t.columns, column,
                                def.(annotation := Subscript(Name("Mapped"), typ), args := [typ] + def.args[1..])))
       case None => t)
    case SetNotNull(_, column) => Rebound(t, column, Bind("nullable", FALSE))
    case DropNotNull(_, column) => Rebound(t, column, Bind("nullable", TRUE))
    case SetDefault(_, column, value) => Rebound(t, column, Bind("default", value))
    case DropDefault(_, column) => Rebound(t, column, Unbind("default"))
    case AddIndex(table, columns, unique) => t.(args := Some(WithIndex(t.args, IndexOf(table, columns, unique))))
    case _ => t
  }

  function FirstModel(models: seq<Model>, table: string): (k: nat)
    ensures k <= |models|
  {
    if models == [] || table in models[0].tables then 0 else 1 + FirstModel(models[1..], table)
  }

  /** The edit of a schema: the first model of the table changes, every other stays. */
  function EditModels(models: seq<Model>, m: Mutation): seq<Model> {
    var k := FirstModel(models, m.table);
    if k == |models| then models
    else models[k := models[k].(table := EditTable(models[k].table, m))]
  }

  // ----- keywords -----

  lemma BindingsAppend(keywords: seq<Keyword>, last: Keyword)
    ensures Bindings(keywords + [last])
         == match last.arg case None => Bindings(keywords) case Some(name) => Bindings(keywords)[name := last.value]
  {
    var all := keywords + [last];
    assert all[..|all| - 1] == keywords;
  }

  lemma OthersAppend(keywords: seq<Keyword>, last: Keyword, name: string)
    ensures Others(keywords + [last], name) == Others(keywords, name) + (if last.arg == Some(name) then [] else [last])
  {
    OthersConcat(keywords, [last], name);
    OneOther(last, name);
  }

  lemma RemovedUnderUpdate<V>(b: map<string, V>, name: string, other: string, value: V)
    ensures b[other := value] - {name} == if other == name then b - {name} else (b - {name})[other := value]
  {
  }

  lemma {:induction false} BindingsOfOthers(keywords: seq<Keyword>, name: string)
    ensures Bindings(Others(keywords, name)) == Bindings(keywords) - {name}
  {
    if keywords != [] {
      hide *;
      var front, last := keywords[..|keywords| - 1], keywords[|keywords| - 1];
      BindingsOfOthers(front, name);
      OthersAppend(front, last, name);
      BindingsAppend(front, last);
      assert keywords == front + [last];
      if last.arg.Some? { RemovedUnderUpdate(Bindings(front), name, last.arg.value, last.value); }
      if last.arg == Some(name) {
        assert Others(front, name) + [] == Others(front, name);
      } else {
        BindingsAppend(Others(front, name), last);
      }
    }
  }

  lemma {:induction false} StarredConcat(a: seq<Keyword>, b: seq<Keyword>)
    ensures Starred(a + b) == Starred(a) + Starred(b)
    ensures forall v :: Starred([Keyword(None, v)]) == [v]
  {
    forall v ensures Starred([Keyword(None, v)]) == [v] {
      assert [Keyword(None, v)][1..] == [];
    }
    if a == [] {
      assert a + b == b;
    } else {
      assert (a + b)[1..] == a[1..] + b;
      StarredConcat(a[1..], b);
    }
  }

  lemma {:induction false} StarredOfOthers(keywords: seq<Keyword>, name: string)
    ensures Starred(Others(keywords, name)) == Starred(keywords)
  {
    if keywords != [] {
      StarredOfOthers(keywords[1..], name);
      if keywords[0].arg != Some(name) {
        assert Others(keywords, name)[1..] == Others(keywords[1..], name);
      } else {
        assert Others(keywords, name) == Others(keywords[1..], name);
      }
    }
  }

  lemma {:induction false} StarredAppend(keywords: seq<Keyword>, name: string, value: Expr)
    ensures Starred(keywords + [Keyword(Some(name), value)]) == Starred(keywords)
  {
    var all := keywords + [Keyword(Some(name), value)];
    if keywords == [] {
      assert all[1..] == [];
    } else {
      assert all[1..] == keywords[1..] + [Keyword(Some(name), value)];
      StarredAppend(keywords[1..], name, value);
    }
  }

  function Occurrences(keywords: seq<Keyword>, name: string): nat {
    if keywords == [] then 0 else (if keywords[0].arg == Some(name) then 1 else 0) + Occurrences(keywords[1..], name)
  }

  lemma {:induction false} OccurrencesConcat(a: seq<Keyword>, b: seq<Keyword>, name: string)
    ensures Occurrences(a + b, name) == Occurrences(a, name) + Occurrences(b, name)
  {
    if a == [] {
      assert a + b == b;
    } else {
      assert (a + b)[1..] == a[1..] + b;
      OccurrencesConcat(a[1..], b, name);
    }
  }

  lemma {:induction false} OthersOccur(keywords: seq<Keyword>, name: string, other: string)
    ensures Occurrences(Others(keywords, name), other) == if other == name then 0 else Occurrences(keywords, other)
  {
    if keywords != [] {
      OthersOccur(keywords[1..], name, other);
      OccurrencesConcat(if keywords[0].arg == Some(name) then []
        else [keywords[0]], Others(keywords[1..], name), other);
    }
  }

  /** `_set_keyword` leaves the name bound exactly once, to the value given last, and every
      other binding as it was. */
  lemma SetKeywordBinds(keywords: seq<Keyword>, name: string, value: Expr, other: string)
    ensures Bindings(SetKeyword(keywords, name, value)) == Bindings(keywords)[name := value]
    ensures Starred(SetKeyword(keywords, name, value)) == Starred(keywords)
    ensures Occurrences(SetKeyword(keywords, name, value), other)
         == if other == name then 1 else Occurrences(keywords, other)
  {
    BindingsAppend(Others(keywords, name), Keyword(Some(name), value));
    BindingsOfOthers(keywords, name);
    StarredAppend(Others(keywords, name), name, value);
    StarredOfOthers(keywords, name);
    OthersOccur(keywords, name, other);
    OccurrencesConcat(Others(keywords, name), [Keyword(Some(name), value)], other);
  }

  // ----- reading a body after an edit in the middle -----

  lemma TableOfAppend(body: seq<Item>, item: Item)
    ensures TableOf(body + [item]) == AddItem(TableOf(body), item)
  {
    assert (body + [item])[..|body|] == body;
  }

  lemma {:induction false} ColumnRead(body: seq<Item>, k: nat, name: string)
    requires k < |body| && IsColumnNamed(body[k], name)
    requires forall i :: k < i < |body| ==> !IsColumnNamed(body[i], name)
    ensures Get(TableOf(body).columns, name) == Some(DefOf(body[k]))
  {
    var front, last := body[..|body| - 1], body[|body| - 1];
    if k < |body| - 1 { ColumnRead(front, k, name); }
    if IsColumn(last) {
      PutSets(TableOf(front).columns, last.target.value, DefOf(last), name);
    }
  }

  lemma {:induction false} NoColumnRead(body: seq<Item>, name: string)
    requires forall i :: 0 <= i < |body| ==> !IsColumnNamed(body[i], name)
    ensures name !in Keys(TableOf(body).columns)
  {
    if body != [] { NoColumnRead(body[..|body| - 1], name); }
  }

  lemma {:induction false} ColumnsAreADict(body: seq<Item>)
    ensures IsDict(TableOf(body).columns)
  {
    if body != [] { ColumnsAreADict(body[..|body| - 1]); }
  }

  /** Replacing the last declaration of a column replaces its definition, in place. */
  lemma {:induction false} ColumnReplaced(body: seq<Item>, k: nat, name: string, item: Item)
    requires k < |body| && IsColumnNamed(body[k], name) && IsColumnNamed(item, name)
    requires forall i :: k < i < |body| ==> !IsColumnNamed(body[i], name)
    ensures TableOf(body[k := item]) == TableOf(body).(columns := Put(TableOf(body).columns, name, DefOf(item)))
  {
    hide DefOf, TableOf, Get, Put;
    var front, last := body[..|body| - 1], body[|body| - 1];
    var after := body[k := item];
    assert body == front + [last];
    TableOfAppend(front, last);
    if k == |body| - 1 {
      assert after == front + [item];
      TableOfAppend(front, item);
      PutTwice(TableOf(front).columns, name, DefOf(body[k]), DefOf(item));
    } else {
      assert after == front[k := item] + [last];
      TableOfAppend(front[k := item], last);
      ColumnReplaced(front, k, name, item);
      if IsColumn(last) {
        ColumnRead(front, k, name);
        PutsCommute(TableOf(front).columns, name, DefOf(item), last.target.value, DefOf(last));
      }
    }
  }

  /** Removing the only declaration of a column removes the column. */
  lemma {:induction false} ColumnRemoved(body: seq<Item>, k: nat, name: string)
    requires k < |body| && IsColumnNamed(body[k], name)
    requires forall i :: 0 <= i < |body| && i != k ==> !IsColumnNamed(body[i], name)
    ensures TableOf(WithoutIndex(body, k)) == TableOf(body).(columns := Without(TableOf(body).columns, name))
  {
    hide DefOf;
    var front, last := body[..|body| - 1], body[|body| - 1];
    var after := WithoutIndex(body, k);
    if k == |body| - 1 {
      assert after == front;
      NoColumnRead(front, name);
      PutThenWithout(TableOf(front).columns, name, DefOf(body[k]));
    } else {
      assert after == WithoutIndex(front, k) + [last];
      ColumnRemoved(front, k, name);
      TableOfAppend(WithoutIndex(front, k), last);
      if IsColumn(last) {
        WithoutCommutes(TableOf(front).columns, name, last.target.value, DefOf(last));
      }
    }
  }

  /** Removing the last of several declarations leaves the column there. */
  lemma {:induction false} ColumnStays(body: seq<Item>, j: nat, name: string)
    requires j < |body| && IsColumnNamed(body[j], name)
    ensures name in Keys(TableOf(body).columns)
  {
    if j < |body| - 1 { ColumnStays(body[..|body| - 1], j, name); }
  }

  lemma {:induction false} ArgsReplaced(body: seq<Item>, k: nat, item: Item)
    requires k < |body| && BindsArgs(body[k]) && IsArgs(item)
    ensures TableOf(body[k := item])
         == if forall i :: k < i < |body| ==> !BindsArgs(body[i])
            then TableOf(body).(args := Some(item.value)) else TableOf(body)
  {
    hide DefOf, TableOf, Put;
    var front, last := body[..|body| - 1], body[|body| - 1];
    var after := body[k := item];
    assert body == front + [last];
    TableOfAppend(front, last);
    if k == |body| - 1 {
      assert after == front + [item];
      TableOfAppend(front, item);
    } else {
      assert after == front[k := item] + [last];
      TableOfAppend(front[k := item], last);
      ArgsReplaced(front, k, item);
      assert (forall i :: k < i < |body| ==> !BindsArgs(body[i]))
        <==> !BindsArgs(last) && forall i :: k < i < |front| ==> !BindsArgs(front[i]);
    }
  }

  lemma {:induction false} ArgsRead(body: seq<Item>, k: nat)
    requires k < |body| && BindsArgs(body[k]) && forall i :: k < i < |body| ==> !BindsArgs(body[i])
    ensures TableOf(body).args == ArgsValue(body[k])
  {
    if k < |body| - 1 { ArgsRead(body[..|body| - 1], k); }
  }

  lemma {:induction false} NoArgsRead(body: seq<Item>)
    requires forall i :: 0 <= i < |body| ==> !BindsArgs(body[i])
    ensures TableOf(body).args == None
  {
    if body != [] { NoArgsRead(body[..|body| - 1]); }
  }

  // ----- the simulation on one body -----

  /** The `__table_args__` the code edits, the first plain one, is the one in force; when
      there is none, nothing else is lost by adding one. */
  ghost predicate EditsArgsInForce(body: seq<Item>) {
    var k := ArgsIndex(body);
    if k < |body| then forall i | k < i < |body| :: !BindsArgs(body[i])
    else TableOf(body).args == None || TableOf(body).args == Some(Tuple([]))
  }

  /** The code edits the binding that counts: a dropped column is declared once, and an
      index goes to the `__table_args__` in force. */
  ghost predicate Unambiguous(body: seq<Item>, m: Mutation) {
    && (m.DropColumn? ==> forall i, j | 0 <= i < |body| && 0 <= j < |body| ::
          IsColumnNamed(body[i], m.column) && IsColumnNamed(body[j], m.column) ==> i == j)
    && (m.AddIndex? ==> EditsArgsInForce(body))
  }

  lemma IndexSimulates(body: seq<Item>, m: Mutation)
    requires m.AddIndex? && EditBody(body, m).Done?
    ensures TableOf(EditBody(body, m).value.body) == EditTable(TableOf(body), m) <==> Unambiguous(body, m)
  {
    hide TableOf, IndexCall, IndexOf, Position;
    var index := IndexCall(m.table, m.columns, m.unique);
    IndexCallIs(m.table, m.columns, m.unique);
    var k := ArgsIndex(body);
    if k == |body| {
      TableOfAppend(body, Assign([Some("__table_args__")], Tuple([index])));
      OnlyIndex(TableOf(body).args, index);
    } else {
      ArgsReplaced(body, k, body[k].(value := WithArgs(body[k].value, index).value));
      if forall i :: k < i < |body| ==> !BindsArgs(body[i]) {
        ArgsRead(body, k);
        assert Unambiguous(body, m);
      } else {
        assert !Unambiguous(body, m);
        IndexIsNew(TableOf(body).args, index);
      }
    }
  }

  lemma OnlyIndex(args: Option<Expr>, index: Expr)
    ensures WithIndex(args, index) == Tuple([index]) <==> args == None || args == Some(Tuple([]))
  {
    match args
    case Some(Tuple(elts)) =>
      assert |[index] + elts| == 1 + |elts|;
      if elts == [] { assert [index] + elts == [index]; }
    case Some(other) =>
      assert |[index, other]| == 2;
    case None =>
  }

  lemma IndexIsNew(args: Option<Expr>, index: Expr)
    ensures Some(WithIndex(args, index)) != args
  {
    if args.Some? && args.value.Tuple? {
      assert |[index] + args.value.elts| == 1 + |args.value.elts|;
    }
  }

  lemma DropSimulates(body: seq<Item>, m: Mutation)
    requires m.DropColumn? && EditBody(body, m).Done?
    ensures TableOf(EditBody(body, m).value.body) == EditTable(TableOf(body), m) <==> Unambiguous(body, m)
  {
    hide TableOf;
    var k := Position(body, m.column).value;
    if forall i :: 0 <= i < |body| && i != k ==> !IsColumnNamed(body[i], m.column) {
      ColumnRemoved(body, k, m.column);
      assert Unambiguous(body, m);
    } else {
      var j :| 0 <= j < |body| && j != k && IsColumnNamed(body[j], m.column);
      assert j < k;
      assert WithoutIndex(body, k)[j] == body[j];
      ColumnStays(WithoutIndex(body, k), j, m.column);
      ColumnsAreADict(body);
      WithoutForgets(TableOf(body).columns, m.column);
    }
  }

  lemma AddSimulates(body: seq<Item>, m: Mutation)
    requires m.AddColumn? && EditBody(body, m).Done?
    ensures TableOf(EditBody(body, m).value.body) == EditTable(TableOf(body), m)
  {
    hide TableOf;
    var nullable := match m.nullable case Some(v) => v case None => Truth(true);
    var keywords := SetKeyword([], "nullable", nullable);
    SetKeywordBinds([], "nullable", nullable, "");
    if m.default.Some? { SetKeywordBinds(keywords, "default", m.default.value, ""); }
    TableOfAppend(body, NewColumn(m));
    NoColumnRead(body, m.column);
    PutThenWithout(TableOf(body).columns, m.column, DefOf(NewColumn(m)));
  }

  lemma KeywordSimulates(body: seq<Item>, m: Mutation)
    requires m.SetNotNull? || m.DropNotNull? || m.SetDefault? || m.DropDefault? || m.ChangeType?
    requires EditBody(body, m).Done?
    ensures TableOf(EditBody(body, m).value.body) == EditTable(TableOf(body), m)
  {
    hide TableOf, SetKeyword, Others, Bindings, Starred;
    var k := Position(body, m.column).value;
    var keywords := body[k].init.value.keywords;
    ColumnRead(body, k, m.column);
    match m
    case ChangeType(_, _, typ) =>
      var args := body[k].init.value.args;
      assert args[0 := typ.value] == [typ.value] + args[1..];
      ColumnReplaced(body, k, m.column, Retyped(body[k], typ.value));
    case SetNotNull(_, _) =>
      SetKeywordBinds(keywords, "nullable", Truth(false), "");
      ColumnReplaced(body, k, m.column, Rekeyed(body[k], SetKeyword(keywords, "nullable", Truth(false))));
    case DropNotNull(_, _) =>
      SetKeywordBinds(keywords, "nullable", Truth(true), "");
      ColumnReplaced(body, k, m.column, Rekeyed(body[k], SetKeyword(keywords, "nullable", Truth(true))));
    case SetDefault(_, _, value) =>
      SetKeywordBinds(keywords, "default", value, "");
      ColumnReplaced(body, k, m.column, Rekeyed(body[k], SetKeyword(keywords, "default", value)));
    case DropDefault(_, _) =>
      BindingsOfOthers(keywords, "default");
      StarredOfOthers(keywords, "default");
      ColumnReplaced(body, k, m.column, Rekeyed(body[k], Others(keywords, "default")));
  }

  /** The table read from an edited body is the edited table, exactly when the edit was of
      the binding that counts. */
  lemma BodySimulates(body: seq<Item>, m: Mutation)
    requires EditBody(body, m).Done?
    ensures TableOf(EditBody(body, m).value.body) == EditTable(TableOf(body), m) <==> Unambiguous(body, m)
  {
    hide TableOf, EditTable;
    if m.AddIndex? { IndexSimulates(body, m); }
    else if m.DropColumn? { DropSimulates(body, m); }
    else if m.AddColumn? { AddSimulates(body, m); }
    else { KeywordSimulates(body, m); }
  }
}
