/** Canonical form of a schema dump (mcp_server/comparator.py), on parsed statements.
    Parsing and printing are sqlglot's; the model takes the printer as a parameter. */
module Comparator {
  import opened Ordering

  datatype Ident = Ident(name: string, quoted: bool)

  /** A token of an expression or option list. */
  datatype Piece = Token(text: string) | Name(id: Ident)

  /** `PrimaryKey(name, modifiers)` is a column's own PRIMARY KEY: the name given by
      CONSTRAINT, if any, and the arguments of the clause. */
  datatype ColumnConstraint =
    | InlineKey(name: Option<Ident>, modifiers: seq<Piece>)
    | AutoIncrement
    | Inline(body: seq<Piece>)

  /** What the source sorts: every entry of a column list that is no column definition. Next
      to the constraints that is a bare name, which is how the parser reads a column with
      neither type nor constraint, in a table or in the column list of a view. */
  datatype TableConstraint = PrimaryKey(columns: seq<Ident>) | Constraint(body: seq<Piece>) | BareName(id: Ident)

  /** A column definition's type, as written and with its arguments, may be missing when it
      has a constraint. `spelled`: its word stands right after the column's name in the text,
      with nothing but blanks between. */
  datatype Item =
    | Column(id: Ident, typ: Option<string>, spelled: bool, constraints: seq<ColumnConstraint>)
    | Clause(constraint: TableConstraint)

  /** `Create` is any CREATE with a column list, of a table or of a view, the query of a view
      being among its options; `Index` and `Other` are statements
      about a table or about none; `Command` is SQL the parser does not understand. */
  datatype Statement =
    | Create(table: seq<Ident>, items: seq<Item>, options: seq<Piece>, comments: seq<string>)
    | Index(on: Option<seq<Ident>>, body: seq<Piece>, comments: seq<string>)
    | Other(target: Option<seq<Ident>>, body: seq<Piece>, comments: seq<string>)
    | Command(text: string)
    | Empty

  /** How a dialect treats identifiers when it resolves them. */
  datatype Folding = Lowercase | Uppercase | CaseSensitive | CaseInsensitive

  datatype Dialect = Dialect(
    backend: string,
    folding: Folding,
    parsed: Statement -> bool,               // what its parser produces
    printable: Statement -> bool,            // what its printer does not refuse
    typeName: string -> string,              // the dialect's own way to write a type
    clauseText: TableConstraint -> string,   // c.sql(dialect=...)
    statementText: Statement -> string)      // statement.sql(dialect=..., identify=True)

  // ----- identifiers -----

  function Lower(s: string): string {
    if s == [] then [] else [if 'A' <= s[0] <= 'Z' then s[0] - 'A' + 'a' else s[0]] + Lower(s[1..])
  }

  function Upper(s: string): string {
    if s == [] then [] else [if 'a' <= s[0] <= 'z' then s[0] - 'a' + 'A' else s[0]] + Upper(s[1..])
  }

  function FoldName(f: Folding, id: Ident): string {
    match f
    case Lowercase => if id.quoted then id.name else Lower(id.name)
    case Uppercase => if id.quoted then id.name else Upper(id.name)
    case CaseSensitive => id.name
    case CaseInsensitive => Lower(id.name)
  }

  /** `normalize_identifiers`, with the quotes `identify=True` then prints. */
  function FoldIdent(f: Folding, id: Ident): Ident {
    Ident(FoldName(f, id), true)
  }

  function FoldIdents(f: Folding, ids: seq<Ident>): (r: seq<Ident>)
    ensures |r| == |ids|
  {
    if ids == [] then [] else [FoldIdent(f, ids[0])] + FoldIdents(f, ids[1..])
  }

  function FoldPieces(f: Folding, pieces: seq<Piece>): seq<Piece> {
    if pieces == [] then []
    else [if pieces[0].Name? then Name(FoldIdent(f, pieces[0].id)) else pieces[0]] + FoldPieces(f, pieces[1..])
  }

  function FoldClause(f: Folding, c: TableConstraint): TableConstraint {
    match c
    case PrimaryKey(columns) => PrimaryKey(FoldIdents(f, columns))
    case Constraint(body) => Constraint(FoldPieces(f, body))
    case BareName(id) => BareName(FoldIdent(f, id))
  }

  function FoldInline(f: Folding, c: ColumnConstraint): ColumnConstraint {
    match c
    case InlineKey(name, modifiers) =>
      InlineKey(if name.Some? then Some(FoldIdent(f, name.value)) else None, FoldPieces(f, modifiers))
    case AutoIncrement => c
    case Inline(body) => Inline(FoldPieces(f, body))
  }

  function FoldInlines(f: Folding, cs: seq<ColumnConstraint>): seq<ColumnConstraint> {
    if cs == [] then [] else [FoldInline(f, cs[0])] + FoldInlines(f, cs[1..])
  }

  function FoldItem(f: Folding, item: Item): Item {
    match item
    case Column(id, typ, spelled, constraints) => Column(FoldIdent(f, id), typ, spelled, FoldInlines(f, constraints))
    case Clause(c) => Clause(FoldClause(f, c))
  }

  function FoldItems(f: Folding, items: seq<Item>): (r: seq<Item>)
    ensures |r| == |items|
    ensures forall i :: 0 <= i < |r| ==> r[i] == FoldItem(f, items[i])
  {
    if items == [] then [] else [FoldItem(f, items[0])] + FoldItems(f, items[1..])
  }

  function FoldTarget(f: Folding, t: Option<seq<Ident>>): Option<seq<Ident>> {
    match t case None => None case Some(path) => Some(FoldIdents(f, path))
  }

  function FoldStatement(f: Folding, s: Statement): Statement {
    match s
    case Create(table, items, options, comments) =>
      Create(FoldIdents(f, table), FoldItems(f, items), FoldPieces(f, options), comments)
    case Index(on, body, comments) => Index(FoldTarget(f, on), FoldPieces(f, body), comments)
    case Other(target, body, comments) => Other(FoldTarget(f, target), FoldPieces(f, body), comments)
    case _ => s
  }

  // ----- which statements count -----

  /** `^(?:_?dbwarden[_-]|dbwarden_)`, ignoring case, on the table's own name. */
  predicate IsBookkeeping(path: seq<Ident>) {
    path != [] &&
    var name := Lower(path[|path| - 1].name);
    "dbwarden_" <= name || "dbwarden-" <= name || "_dbwarden_" <= name || "_dbwarden-" <= name
  }

  predicate Skipped(s: Statement) {
    match s
    case Create(table, _, _, _) => IsBookkeeping(table)
    case Index(on, _, _) => on.Some? && IsBookkeeping(on.value)
    case Other(target, _, _) => target.Some? && IsBookkeeping(target.value)
    case Command(_) => false
    case Empty => true
  }

  // ----- one CREATE TABLE -----

  predicate IsSqliteInteger(d: Dialect, typ: string) {
    d.backend == "sqlite" && "INTEGER" <= d.typeName(typ)
  }

  /** SQLite tells INTEGER from INT, so there the word itself is kept. */
  function PrintedType(d: Dialect, typ: Option<string>): Option<string> {
    match typ
    case None => None
    case Some(t) => Some(if IsSqliteInteger(d, t) then Upper(t) else d.typeName(t))
  }

  /** A bare PRIMARY KEY, to be moved to the table: no arguments, no AUTOINCREMENT beside it. */
  predicate IsBareKey(c: ColumnConstraint, all: seq<ColumnConstraint>) {
    c.InlineKey? && c.modifiers == [] && AutoIncrement !in all
  }

  function Remaining(cs: seq<ColumnConstraint>, all: seq<ColumnConstraint>): seq<ColumnConstraint> {
    if cs == [] then []
    else (if IsBareKey(cs[0], all) then [] else [cs[0]]) + Remaining(cs[1..], all)
  }

  function Hoisted(id: Ident, cs: seq<ColumnConstraint>, all: seq<ColumnConstraint>): seq<TableConstraint> {
    if cs == [] then []
    else (if IsBareKey(cs[0], all) then [PrimaryKey([id])] else []) + Hoisted(id, cs[1..], all)
  }

  function KeptColumn(d: Dialect, c: Item): Item
    requires c.Column?
  {
    Column(c.id, PrintedType(d, c.typ), true, Remaining(c.constraints, c.constraints))
  }

  function Columns(d: Dialect, items: seq<Item>): seq<Item> {
    if items == [] then []
    else (if items[0].Column? then [KeptColumn(d, items[0])] else []) + Columns(d, items[1..])
  }

  function Constraints(items: seq<Item>): seq<TableConstraint> {
    if items == [] then []
    else (if items[0].Column? then Hoisted(items[0].id, items[0].constraints, items[0].constraints)
          else [items[0].constraint])
         + Constraints(items[1..])
  }

  function Clauses(cs: seq<TableConstraint>): (r: seq<Item>)
    ensures |r| == |cs|
    ensures forall i :: 0 <= i < |r| ==> r[i] == Clause(cs[i])
  {
    if cs == [] then [] else [Clause(cs[0])] + Clauses(cs[1..])
  }

  /** For SQLite the source looks at every column's type: it raises without one, and needs
      the spelling of an integer type at hand. */
  predicate Spelled(d: Dialect, item: Item) {
    item.Column? && d.backend == "sqlite" ==>
      item.typ.Some? && (IsSqliteInteger(d, item.typ.value) ==> item.spelled)
  }

  /** The statement can be taken apart: it is no command and its types can be read. */
  predicate Readable(d: Dialect, s: Statement) {
    !s.Command? && (s.Create? ==> forall item :: item in s.items ==> Spelled(d, item))
  }

  /** The statement can be normalised; the source raises otherwise. */
  predicate Supported(d: Dialect, s: Statement) {
    Readable(d, s) && d.printable(Canonical(d, s))
  }

  function StripComments(s: Statement): Statement {
    match s
    case Create(table, items, options, _) => Create(table, items, options, [])
    case Index(on, body, _) => Index(on, body, [])
    case Other(target, body, _) => Other(target, body, [])
    case _ => s
  }

  /** The canonical statement: no comments, columns first in their order, bare keys moved
      to the table, table constraints sorted by their text, identifiers folded and quoted. */
  function Canonical(d: Dialect, s: Statement): Statement {
    var plain := StripComments(s);
    FoldStatement(d.folding,
      if plain.Create? then
        plain.(items := Columns(d, plain.items) + Clauses(SortBy(Constraints(plain.items), d.clauseText)))
      else plain)
  }

  /** The statements that take part, in order, canonical; None when one is not supported. */
  function CanonicalAll(d: Dialect, dump: seq<Statement>): Option<seq<Statement>> {
    if dump == [] then Some([])
    else if Skipped(dump[0]) then CanonicalAll(d, dump[1..])
    else if !Supported(d, dump[0]) then None
    else match CanonicalAll(d, dump[1..])
      case None => None
      case Some(rest) => Some([Canonical(d, dump[0])] + rest)
  }

  function Texts(d: Dialect, statements: seq<Statement>): (r: seq<string>)
    ensures |r| == |statements|
    ensures forall i :: 0 <= i < |r| ==> r[i] == d.statementText(statements[i])
  {
    if statements == [] then [] else [d.statementText(statements[0])] + Texts(d, statements[1..])
  }

  function Join(texts: seq<string>): string {
    if texts == [] then "" else if |texts| == 1 then texts[0] else texts[0] + ";\n" + Join(texts[1..])
  }

  function Itself(s: string): string { s }

  /** `";\n".join(sorted(statements)) + (";\n" if statements else "")` */
  function Print(texts: seq<string>): string {
    Join(SortBy(texts, Itself)) + if texts == [] then "" else ";\n"
  }

  /** The normal form of a dump; None stands for an exception. */
  function Normalize(d: Dialect, dump: seq<Statement>): Option<string> {
    match CanonicalAll(d, dump)
    case None => None
    case Some(statements) => Some(Print(Texts(d, statements)))
  }

  // ----- the loops of the source -----

  lemma {:induction false} ColumnsConcat(d: Dialect, a: seq<Item>, b: seq<Item>)
    ensures Columns(d, a + b) == Columns(d, a) + Columns(d, b)
    ensures Constraints(a + b) == Constraints(a) + Constraints(b)
  {
    hide KeptColumn, Hoisted;
    if a == [] {
      assert a + b == b;
    } else {
      assert (a + b)[1..] == a[1..] + b;
      ColumnsConcat(d, a[1..], b);
    }
  }

  lemma {:induction false} RemainingConcat(a: seq<ColumnConstraint>, b: seq<ColumnConstraint>,
                                           all: seq<ColumnConstraint>)
    ensures Remaining(a + b, all) == Remaining(a, all) + Remaining(b, all)
  {
    hide IsBareKey;
    if a == [] {
      assert a + b == b;
    } else {
      assert (a + b)[1..] == a[1..] + b;
      RemainingConcat(a[1..], b, all);
    }
  }

  lemma {:induction false} HoistedConcat(id: Ident, a: seq<ColumnConstraint>, b: seq<ColumnConstraint>,
                                         all: seq<ColumnConstraint>)
    ensures Hoisted(id, a + b, all) == Hoisted(id, a, all) + Hoisted(id, b, all)
  {
    hide IsBareKey;
    if a == [] {
      assert a + b == b;
    } else {
      assert (a + b)[1..] == a[1..] + b;
      HoistedConcat(id, a[1..], b, all);
    }
  }

  /** The inner loop: one column's constraints, split into those that stay and those that
      move to the table. */
  method SplitConstraints(id: Ident, all: seq<ColumnConstraint>)
      returns (remaining: seq<ColumnConstraint>, keys: seq<TableConstraint>)
    ensures remaining == Remaining(all, all) && keys == Hoisted(id, all, all)
  {
    remaining, keys := [], [];
    var i := 0;
    while i < |all|
      invariant 0 <= i <= |all|
      invariant remaining == Remaining(all[..i], all) && keys == Hoisted(id, all[..i], all)
    {
      RemainingConcat(all[..i], [all[i]], all);
      HoistedConcat(id, all[..i], [all[i]], all);
      assert all[..i + 1] == all[..i] + [all[i]];
      if IsBareKey(all[i], all) {
        keys := keys + [PrimaryKey([id])];
      } else {
        remaining := remaining + [all[i]];
      }
      i := i + 1;
    }
    assert all[..i] == all;
  }

  /** The middle loop: the items of one CREATE TABLE, rebuilt. */
  method RebuildItems(d: Dialect, items: seq<Item>) returns (r: Option<seq<Item>>)
    ensures r == if forall item :: item in items ==> Spelled(d, item)
                 then Some(Columns(d, items) + Clauses(SortBy(Constraints(items), d.clauseText)))
                 else None
  {
    var columns: seq<Item>, constraints: seq<TableConstraint> := [], [];
    var i := 0;
    while i < |items|
      invariant 0 <= i <= |items|
      invariant forall j :: 0 <= j < i ==> Spelled(d, items[j])
      invariant columns == Columns(d, items[..i]) && constraints == Constraints(items[..i])
    {
      ColumnsConcat(d, items[..i], [items[i]]);
      assert items[..i + 1] == items[..i] + [items[i]];
      if items[i].Clause? {
        constraints := constraints + [items[i].constraint];
      } else {
        if d.backend == "sqlite" {
          if items[i].typ.None? || (IsSqliteInteger(d, items[i].typ.value) && !items[i].spelled) {
            assert items[i] in items;
            return None;
          }
        }
        var remaining, keys := SplitConstraints(items[i].id, items[i].constraints);
        constraints := constraints + keys;
        columns := columns + [Column(items[i].id, PrintedType(d, items[i].typ), true, remaining)];
      }
      i := i + 1;
    }
    assert items[..i] == items;
    r := Some(columns + Clauses(SortBy(constraints, d.clauseText)));
  }

  lemma {:induction false} CanonicalAllConcat(d: Dialect, a: seq<Statement>, b: seq<Statement>)
    ensures CanonicalAll(d, a + b) ==
            match (CanonicalAll(d, a), CanonicalAll(d, b))
            case (Some(x), Some(y)) => Some(x + y)
            case _ => None
  {
    hide Canonical, Skipped, Supported;
    if a == [] {
      assert a + b == b;
      if CanonicalAll(d, b).Some? { assert [] + CanonicalAll(d, b).value == CanonicalAll(d, b).value; }
    } else {
      assert (a + b)[1..] == a[1..] + b;
      CanonicalAllConcat(d, a[1..], b);
      if CanonicalAll(d, a[1..]).Some? && CanonicalAll(d, b).Some? {
        var x, y, c := CanonicalAll(d, a[1..]).value, CanonicalAll(d, b).value, Canonical(d, a[0]);
        assert [c] + (x + y) == ([c] + x) + y;
      }
    }
  }

  lemma TextsAppend(d: Dialect, statements: seq<Statement>, s: Statement)
    ensures Texts(d, statements + [s]) == Texts(d, statements) + [d.statementText(s)]
  {
  }

  /** The body of the outer loop, for a statement that takes part. */
  method NormalizeStatement(d: Dialect, s: Statement) returns (r: Option<Statement>)
    ensures r == if Supported(d, s) then Some(Canonical(d, s)) else None
  {
    if s.Command? {
      return None;
    }
    var plain := StripComments(s);
    if plain.Create? {
      var items := RebuildItems(d, plain.items);
      if items.None? {
        return None;
      }
      plain := plain.(items := items.value);
    }
    var canonical := FoldStatement(d.folding, plain);
    r := if d.printable(canonical) then Some(canonical) else None;
  }

  lemma CanonicalAllOne(d: Dialect, s: Statement)
    ensures CanonicalAll(d, [s]) == if Skipped(s) then Some([])
                                    else if Supported(d, s) then Some([Canonical(d, s)]) else None
  {
    assert [s][1..] == [] && CanonicalAll(d, []) == Some([]);
    assert [Canonical(d, s)] + [] == [Canonical(d, s)];
  }

  /** The outer loop. */
  method NormalizeSchemaDump(d: Dialect, dump: seq<Statement>) returns (r: Option<string>)
    ensures r == Normalize(d, dump)
  {
    hide Canonical, Supported, Skipped, CanonicalAll;
    var statements: seq<string> := [];
    assert CanonicalAll(d, []) == Some([]) by { CanonicalAllNone(d); }
    var i := 0;
    while i < |dump|
      invariant 0 <= i <= |dump|
      invariant CanonicalAll(d, dump[..i]).Some?
      invariant statements == Texts(d, CanonicalAll(d, dump[..i]).value)
    {
      var s := dump[i];
      ghost var before := CanonicalAll(d, dump[..i]).value;
      assert dump[..i + 1] == dump[..i] + [s];
      assert dump == dump[..i + 1] + dump[i + 1..];
      CanonicalAllOne(d, s);
      CanonicalAllConcat(d, dump[..i], [s]);
      CanonicalAllConcat(d, dump[..i + 1], dump[i + 1..]);
      if Skipped(s) {
        assert before + [] == before;
      } else {
        var canonical := NormalizeStatement(d, s);
        if canonical.None? {
          return None;
        }
        TextsAppend(d, before, canonical.value);
        statements := statements + [d.statementText(canonical.value)];
      }
      i := i + 1;
    }
    assert dump[..i] == dump;
    r := Some(Print(statements));
  }

  lemma CanonicalAllNone(d: Dialect)
    ensures CanonicalAll(d, []) == Some([])
  {
  }
}
