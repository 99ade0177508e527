/** Structured edits of a SQLAlchemy model module (mcp_server/mutations.py), on its syntax
    tree. The source edits the nodes in place and renders the tree; a rejected edit raises
    before anything is rendered. */
module Mutations {
  import opened Ordering
  import opened PyDict

  datatype Expr =
    | Name(id: string)
    | Text(value: string)                                  // a string constant
    | Call(func: Expr, args: seq<Expr>, keywords: seq<Keyword>)
    | Subscript(container: Expr, index: Expr)
    | Tuple(elts: seq<Expr>)
    | DictDisplay(entries: string)
    | Opaque(text: string)

  /** `arg` is None for `**value`. */
  datatype Keyword = Keyword(arg: Option<string>, value: Expr)

  /** A target that is not a plain name is None. */
  datatype Item =
    | Assign(targets: seq<Option<string>>, value: Expr)
    | AnnAssign(target: Option<string>, annotation: Expr, init: Option<Expr>)
    | OtherItem(text: string)

  datatype Alias = Alias(name: string, asname: Option<string>)

  datatype Top =
    | ImportFrom(origin: string, names: seq<Alias>)
    | Class(name: string, bases: seq<string>, body: seq<Item>)
    | OtherTop(text: string)

  type Source = seq<Top>

  /** The eight kinds, a kind the code does not know, and a dict without a key the kind
      needs. A type arrives as text: None when the text is not one expression. */
  datatype Mutation =
    | AddColumn(table: string, column: string, typ: Option<Expr>, nullable: Option<Expr>, default: Option<Expr>)
    | DropColumn(table: string, column: string)
    | ChangeType(table: string, column: string, typ: Option<Expr>)
    | SetNotNull(table: string, column: string)
    | DropNotNull(table: string, column: string)
    | SetDefault(table: string, column: string, value: Expr)
    | DropDefault(table: string, column: string)
    | AddIndex(table: string, columns: seq<string>, unique: bool)
    | UnknownKind(table: string, column: string)
    | Malformed(table: string)

  datatype Reason =
    | NoSuchTable | BadIndexColumns | ArgsNotLiteral | NotIdentifier | ColumnExists | NoSuchColumn
    | BadType | TypeNotFirst | UnsupportedKind | MissingKey

  datatype Result<+T> = Done(value: T) | Rejected(reason: Reason)

  // ----- finding things -----

  predicate DeclaresTable(item: Item, table: string) {
    item.Assign? && Some("__tablename__") in item.targets && item.value == Text(table)
  }

  predicate IsModel(top: Top, table: string) {
    top.Class? && exists i :: 0 <= i < |top.body| && DeclaresTable(top.body[i], table)
  }

  /** Position of the first class declaring the table, or the length. */
  function ModelIndex(src: Source, table: string): (k: nat)
    ensures k <= |src|
    ensures k < |src| ==> IsModel(src[k], table)
    ensures forall i :: 0 <= i < k ==> !IsModel(src[i], table)
  {
    if src == [] || IsModel(src[0], table) then 0 else 1 + ModelIndex(src[1..], table)
  }

  predicate IsColumn(item: Item) {
    && item.AnnAssign? && item.target.Some? && item.init.Some?
    && item.init.value.Call? && item.init.value.func == Name("mapped_column")
  }

  predicate IsColumnNamed(item: Item, name: string) {
    IsColumn(item) && item.target.value == name
  }

  /** Position of the last declaration of a column: the one a dict built from the body keeps. */
  function Position(body: seq<Item>, name: string): (r: Option<nat>)
    ensures r.Some? ==> r.value < |body| && IsColumnNamed(body[r.value], name)
    ensures r.Some? ==> forall i :: r.value < i < |body| ==> !IsColumnNamed(body[i], name)
    ensures r.None? ==> forall i :: 0 <= i < |body| ==> !IsColumnNamed(body[i], name)
  {
    if body == [] then None
    else if IsColumnNamed(body[|body| - 1], name) then Some(|body| - 1)
    else Position(body[..|body| - 1], name)
  }

  predicate IsArgs(item: Item) {
    item.Assign? && Some("__table_args__") in item.targets
  }

  /** Position of the first `__table_args__`, or the length. */
  function ArgsIndex(body: seq<Item>): (k: nat)
    ensures k <= |body|
    ensures k < |body| ==> IsArgs(body[k])
    ensures forall i :: 0 <= i < k ==> !IsArgs(body[i])
  {
    if body == [] || IsArgs(body[0]) then 0 else 1 + ArgsIndex(body[1..])
  }

  // ----- pieces of syntax -----

  function Truth(b: bool): Expr {
    Opaque(if b then "True" else "False")
  }

  function Underscored(names: seq<string>): string {
    if names == [] then "" else if |names| == 1 then names[0] else names[0] + "_" + Underscored(names[1..])
  }

  function Texts(names: seq<string>): seq<Expr> {
    if names == [] then [] else [Text(names[0])] + Texts(names[1..])
  }

  function IndexCall(table: string, names: seq<string>, unique: bool): Expr {
    Call(Name("Index"), [Text("ix_" + table + "_" + Underscored(names))] + Texts(names),
         [Keyword(Some("unique"), Truth(unique))])
  }

  function Mapped(typ: Expr): Expr {
    Subscript(Name("Mapped"), typ)
  }

  /** The name a type is built from: the name itself or the constructor called. */
  function TypeRoot(typ: Option<Expr>): (r: Option<string>)
    ensures r.Some? ==> typ.Some?
  {
    match typ
    case Some(Name(id)) => Some(id)
    case Some(Call(Name(id), _, _)) => Some(id)
    case _ => None
  }

  function Others(keywords: seq<Keyword>, name: string): seq<Keyword> {
    if keywords == [] then []
    else (if keywords[0].arg == Some(name) then [] else [keywords[0]]) + Others(keywords[1..], name)
  }

  /** `_set_keyword`: drop every binding of the name, then bind it last. */
  function SetKeyword(keywords: seq<Keyword>, name: string, value: Expr): seq<Keyword> {
    Others(keywords, name) + [Keyword(Some(name), value)]
  }

  predicate IsIdentifier(name: string) {
    && name != [] && IsLetter(name[0])
    && (forall i :: 0 <= i < |name| ==> IsLetter(name[i]) || '0' <= name[i] <= '9')
    && name !in KEYWORDS
  }

  predicate IsLetter(c: char) {
    'a' <= c <= 'z' || 'A' <= c <= 'Z' || c == '_'
  }

  const KEYWORDS: set<string> := {
    "False", "None", "True", "and", "as", "assert", "async", "await", "break", "class", "continue",
    "def", "del", "elif", "else", "except", "finally", "for", "from", "global", "if", "import", "in",
    "is", "lambda", "nonlocal", "not", "or", "pass", "raise", "return", "try", "while", "with", "yield"
  }

  // ----- editing a class body: the new body and the names it needs -----

  datatype Edit = Edit(body: seq<Item>, imports: set<string>)

  function WithArgs(value: Expr, index: Expr): Option<Expr> {
    match value
    case DictDisplay(_) => Some(Tuple([index, value]))
    case Tuple(elts) => Some(Tuple([index] + elts))
    case _ => None
  }

  function EditIndex(body: seq<Item>, table: string, names: seq<string>, unique: bool): Result<Edit> {
    if names == [] || exists i :: 0 <= i < |names| && Position(body, names[i]).None? then Rejected(BadIndexColumns)
    else
      var index := IndexCall(table, names, unique);
      var k := ArgsIndex(body);
      if k == |body| then
        Done(Edit(body + [Assign([Some("__table_args__")], Tuple([index]))], {"Index"}))
      else match WithArgs(body[k].value, index)
        case None => Rejected(ArgsNotLiteral)
        case Some(value) => Done(Edit(body[k := body[k].(value := value)], {"Index"}))
  }

  function NewColumn(m: Mutation): Item
    requires m.AddColumn? && m.typ.Some?
  {
    var nullable := match m.nullable case Some(v) => v case None => Truth(true);
    var keywords := SetKeyword([], "nullable", nullable);
    AnnAssign(Some(m.column), Mapped(m.typ.value),
      Some(Call(Name("mapped_column"), [m.typ.value],
        match m.default case Some(v) => SetKeyword(keywords, "default", v) case None => keywords)))
  }

  function Rekeyed(item: Item, keywords: seq<Keyword>): Item
    requires IsColumn(item)
  {
    item.(init := Some(item.init.value.(keywords := keywords)))
  }

  function Retyped(item: Item, typ: Expr): Item
    requires IsColumn(item) && item.init.value.args != []
  {
    item.(annotation := Mapped(typ), init := Some(item.init.value.(args := item.init.value.args[0 := typ])))
  }

  predicate TypeIsFirst(item: Item)
    requires IsColumn(item)
  {
    var args := item.init.value.args;
    args != [] && (args[0].Name? || args[0].Call?)
  }

  /** An edit of the column declared at position k. */
  function EditColumn(body: seq<Item>, k: nat, m: Mutation): Result<Edit>
    requires k < |body| && IsColumn(body[k])
  {
    var keywords := body[k].init.value.keywords;
    match m
    case ChangeType(_, _, typ) =>
      if TypeRoot(typ).None? then Rejected(BadType)
      else if !TypeIsFirst(body[k]) then Rejected(TypeNotFirst)
      else Done(Edit(body[k := Retyped(body[k], typ.value)], {TypeRoot(typ).value}))
    case DropColumn(_, _) => Done(Edit(WithoutIndex(body, k), {}))
    case SetNotNull(_, _) => Done(Edit(body[k := Rekeyed(body[k], SetKeyword(keywords, "nullable", Truth(false)))], {}))
    case DropNotNull(_, _) => Done(Edit(body[k := Rekeyed(body[k], SetKeyword(keywords, "nullable", Truth(true)))], {}))
    case SetDefault(_, _, value) => Done(Edit(body[k := Rekeyed(body[k], SetKeyword(keywords, "default", value))], {}))
    case DropDefault(_, _) => Done(Edit(body[k := Rekeyed(body[k], Others(keywords, "default"))], {}))
    case _ => Rejected(UnsupportedKind)
  }

  function EditBody(body: seq<Item>, m: Mutation): Result<Edit> {
    if m.Malformed? then Rejected(MissingKey)
    else if m.AddIndex? then EditIndex(body, m.table, m.columns, m.unique)
    else if !IsIdentifier(m.column) then Rejected(NotIdentifier)
    else
      var k := Position(body, m.column);
      if m.AddColumn? then
        if k.Some? then Rejected(ColumnExists)
        else if TypeRoot(m.typ).None? then Rejected(BadType)
        else Done(Edit(body + [NewColumn(m)], {TypeRoot(m.typ).value}))
      else if k.None? then Rejected(NoSuchColumn)
      else EditColumn(body, k.value, m)
  }

  // ----- imports -----

  function Bound(alias: Alias): string {
    match alias.asname case Some(n) => n case None => alias.name
  }

  function BoundAll(names: seq<Alias>): set<string> {
    if names == [] then {} else {Bound(names[0])} + BoundAll(names[1..])
  }

  /** The names the module's `from ... import` statements bind. */
  function Known(src: Source): set<string> {
    if src == [] then {} else (if src[0].ImportFrom? then BoundAll(src[0].names) else {}) + Known(src[1..])
  }

  function FirstClass(src: Source): (k: nat)
    ensures k <= |src|
    ensures forall i :: 0 <= i < k ==> !src[i].Class?
    ensures k < |src| ==> src[k].Class?
  {
    if src == [] || src[0].Class? then 0 else 1 + FirstClass(src[1..])
  }

  function Aliases(names: seq<string>): seq<Alias> {
    if names == [] then [] else [Alias(names[0], None)] + Aliases(names[1..])
  }

  function WithImports(src: Source, imports: set<string>): Source {
    var missing := Sorted(imports - Known(src));
    if missing == [] then src
    else
      var k := FirstClass(src);
      src[..k] + [ImportFrom("sqlalchemy", Aliases(missing))] + src[k..]
  }

  // ----- the whole edit -----

  function Apply(src: Source, m: Mutation): Result<Source> {
    var k := ModelIndex(src, m.table);
    if k == |src| then Rejected(NoSuchTable)
    else match EditBody(src[k].body, m)
      case Rejected(reason) => Rejected(reason)
      case Done(edit) => Done(WithImports(src[k := src[k].(body := edit.body)], edit.imports))
  }

  // ----- the loops of the source -----

  method FindModel(src: Source, table: string) returns (k: nat)
    ensures k == ModelIndex(src, table)
  {
    k := 0;
    while k < |src|
      invariant 0 <= k <= |src|
      invariant ModelIndex(src, table) == k + ModelIndex(src[k..], table)
    {
      var found := false;
      if src[k].Class? {
        var i := 0;
        while i < |src[k].body| && !found
          invariant 0 <= i <= |src[k].body|
          invariant found <==> exists j :: 0 <= j < i && DeclaresTable(src[k].body[j], table)
        {
          found := DeclaresTable(src[k].body[i], table);
          i := i + 1;
        }
      }
      if found {
        return;
      }
      assert src[k..][1..] == src[k + 1..];
      k := k + 1;
    }
  }

  /** The dict comprehension over the body: column name to its last declaration. */
  method DeclaredColumns(body: seq<Item>) returns (columns: Dict<nat>)
    ensures forall name :: Get<nat>(columns, name) == Position(body, name)
  {
    columns := [];
    var i: nat := 0;
    while i < |body|
      invariant 0 <= i <= |body|
      invariant forall name :: Get<nat>(columns, name) == Position(body[..i], name)
    {
      assert body[..i + 1][..i] == body[..i];
      if IsColumn(body[i]) {
        var name := body[i].target.value;
        forall other ensures Get<nat>(Put<nat>(columns, name, i), other) == if other == name then Some(i)
          else Get<nat>(columns, other) {
          PutSets<nat>(columns, name, i, other);
        }
        columns := Put<nat>(columns, name, i);
      }
      i := i + 1;
    }
    assert body[..i] == body;
  }

  lemma {:induction false} OthersConcat(a: seq<Keyword>, b: seq<Keyword>, name: string)
    ensures Others(a + b, name) == Others(a, name) + Others(b, name)
  {
    if a == [] {
      assert a + b == b;
    } else {
      assert (a + b)[1..] == a[1..] + b;
      OthersConcat(a[1..], b, name);
    }
  }

  lemma OneOther(k: Keyword, name: string)
    ensures Others([k], name) == if k.arg == Some(name) then [] else [k]
  {
    assert [k][1..] == [];
  }

  method DropKeyword(keywords: seq<Keyword>, name: string) returns (r: seq<Keyword>)
    ensures r == Others(keywords, name)
  {
    hide Others;
    r := [];
    var i := 0;
    assert Others([], name) == [] by { NoOthers(name); }
    while i < |keywords|
      invariant 0 <= i <= |keywords|
      invariant r == Others(keywords[..i], name)
    {
      OthersConcat(keywords[..i], [keywords[i]], name);
      OneOther(keywords[i], name);
      assert keywords[..i + 1] == keywords[..i] + [keywords[i]];
      if keywords[i].arg != Some(name) {
        r := r + [keywords[i]];
      }
      i := i + 1;
    }
    assert keywords[..i] == keywords;
  }

  lemma NoOthers(name: string)
    ensures Others([], name) == []
  {
  }

  method KnownNames(src: Source) returns (known: set<string>)
    ensures known == Known(src)
  {
    known := {};
    var i := 0;
    while i < |src|
      invariant 0 <= i <= |src|
      invariant known + Known(src[i..]) == Known(src)
    {
      assert src[i..][1..] == src[i + 1..];
      if src[i].ImportFrom? {
        var names := src[i].names;
        var j := 0;
        while j < |names|
          invariant 0 <= j <= |names|
          invariant known + BoundAll(names[j..]) + Known(src[i + 1..]) == Known(src)
        {
          assert names[j..][1..] == names[j + 1..];
          known := known + {Bound(names[j])};
          j := j + 1;
        }
      }
      i := i + 1;
    }
  }

  /** The index branch, on the body as a local list. */
  method MutateIndex(body: seq<Item>, columns: Dict<nat>, m: Mutation) returns (r: Result<Edit>)
    requires m.AddIndex?
    requires forall name :: Get<nat>(columns, name) == Position(body, name)
    ensures r == EditBody(body, m)
  {
    hide Position, IndexCall, ArgsIndex, Get;
    var names := m.columns;
    var i := 0;
    while i < |names|
      invariant 0 <= i <= |names|
      invariant forall j :: 0 <= j < i ==> Position(body, names[j]).Some?
    {
      if Get<nat>(columns, names[i]).None? {
        assert Position(body, names[i]).None?;
        return Rejected(BadIndexColumns);
      }
      i := i + 1;
    }
    if names == [] {
      return Rejected(BadIndexColumns);
    }
    var index := IndexCall(m.table, names, m.unique);
    var k := 0;
    while k < |body| && !IsArgs(body[k])
      invariant 0 <= k <= |body|
      invariant forall j :: 0 <= j < k ==> !IsArgs(body[j])
    {
      k := k + 1;
    }
    assert k == ArgsIndex(body);
    if k == |body| {
      return Done(Edit(body + [Assign([Some("__table_args__")], Tuple([index]))], {"Index"}));
    }
    var value := body[k].value;
    if value.DictDisplay? {
      value := Tuple([index, value]);
    } else if value.Tuple? {
      value := Tuple([index] + value.elts);
    } else {
      return Rejected(ArgsNotLiteral);
    }
    r := Done(Edit(body[k := body[k].(value := value)], {"Index"}));
  }

  /** The column branch, step by step in the order of the source. */
  method MutateColumn(items: seq<Item>, columns: Dict<nat>, m: Mutation) returns (r: Result<Edit>)
    requires !m.AddIndex? && !m.Malformed?
    requires forall name :: Get<nat>(columns, name) == Position(items, name)
    ensures r == EditBody(items, m)
  {
    var body, imports: set<string> := items, {};
    if !IsIdentifier(m.column) {
      return Rejected(NotIdentifier);
    }
    var found := Get<nat>(columns, m.column);
    assert found == Position(items, m.column);
    if m.AddColumn? {
      if found.Some? {
        return Rejected(ColumnExists);
      }
      if m.typ.None? {
        return Rejected(BadType);
      }
      body := body + [AnnAssign(Some(m.column), Mapped(m.typ.value),
                                Some(Call(Name("mapped_column"), [m.typ.value], [])))];
      found := Some(|body| - 1);
    } else if found.None? {
      return Rejected(NoSuchColumn);
    }
    var k := found.value;
    var column := body[k];
    if m.AddColumn? || m.ChangeType? {
      if TypeRoot(m.typ).None? {
        return Rejected(BadType);
      }
      imports := imports + {TypeRoot(m.typ).value};
      if m.ChangeType? && !TypeIsFirst(column) {
        return Rejected(TypeNotFirst);
      }
      column := Retyped(column, m.typ.value);
    }
    var keywords := column.init.value.keywords;
    match m {
      case DropColumn(_, _) =>
        return Done(Edit(WithoutIndex(body, k), imports));
      case AddColumn(_, _, _, nullable, default) =>
        keywords := DropKeyword(keywords, "nullable");
        keywords := keywords + [Keyword(Some("nullable"), match nullable case Some(v) => v case None => Truth(true))];
        if default.Some? {
          keywords := DropKeyword(keywords, "default");
          keywords := keywords + [Keyword(Some("default"), default.value)];
        }
      case SetNotNull(_, _) =>
        keywords := DropKeyword(keywords, "nullable");
        keywords := keywords + [Keyword(Some("nullable"), Truth(false))];
      case DropNotNull(_, _) =>
        keywords := DropKeyword(keywords, "nullable");
        keywords := keywords + [Keyword(Some("nullable"), Truth(true))];
      case SetDefault(_, _, value) =>
        keywords := DropKeyword(keywords, "default");
        keywords := keywords + [Keyword(Some("default"), value)];
      case DropDefault(_, _) =>
        keywords := DropKeyword(keywords, "default");
      case ChangeType(_, _, _) =>
      case _ =>
        return Rejected(UnsupportedKind);
    }
    column := Rekeyed(column, keywords);
    body := body[k := column];
    if m.AddColumn? {
      assert column.init.value.args == [m.typ.value];
      assert column.init.value.keywords == NewColumn(m).init.value.keywords;
      assert column == NewColumn(m);
      assert body == items + [column];
      assert imports == {TypeRoot(m.typ).value};
    } else if m.ChangeType? {
      assert column == Retyped(items[k], m.typ.value);
      assert imports == {TypeRoot(m.typ).value};
    }
    r := Done(Edit(body, imports));
  }

  method ApplyMutation(src: Source, m: Mutation) returns (r: Result<Source>)
    ensures r == Apply(src, m)
  {
    hide EditBody, WithImports, ModelIndex;
    var k := FindModel(src, m.table);
    if k == |src| {
      return Rejected(NoSuchTable);
    }
    assert IsModel(src[k], m.table);
    var columns := DeclaredColumns(src[k].body);
    var edited: Result<Edit>;
    if m.Malformed? {
      MalformedIsRejected(src[k].body, m);
      edited := Rejected(MissingKey);
    } else if m.AddIndex? {
      edited := MutateIndex(src[k].body, columns, m);
    } else {
      edited := MutateColumn(src[k].body, columns, m);
    }
    if edited.Rejected? {
      return Rejected(edited.reason);
    }
    var tree := src[k := src[k].(body := edited.value.body)];
    var known := KnownNames(tree);
    var missing := Sorted(edited.value.imports - known);
    ImportsUnfold(tree, edited.value.imports);
    if missing != [] {
      var position := 0;
      while !tree[position].Class?
        invariant 0 <= position <= k
        invariant forall i :: 0 <= i < position ==> !tree[i].Class?
        decreases k - position
      {
        position := position + 1;
      }
      FirstClassIs(tree, position);
      tree := tree[..position] + [ImportFrom("sqlalchemy", Aliases(missing))] + tree[position..];
    }
    r := Done(tree);
  }

  lemma MalformedIsRejected(body: seq<Item>, m: Mutation)
    requires m.Malformed?
    ensures EditBody(body, m) == Rejected(MissingKey)
  {
  }

  lemma ImportsUnfold(src: Source, imports: set<string>)
    ensures var missing := Sorted(imports - Known(src));
            WithImports(src, imports) == if missing == [] then src
              else src[..FirstClass(src)] + [ImportFrom("sqlalchemy", Aliases(missing))] + src[FirstClass(src)..]
  {
  }

  lemma FirstClassIs(src: Source, k: nat)
    requires k < |src| && src[k].Class? && forall i :: 0 <= i < k ==> !src[i].Class?
    ensures FirstClass(src) == k
  {
  }
}
