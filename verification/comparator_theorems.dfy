/** What the comparison of two dumps means (mcp_server/comparator.py `compare_schemas`). */
module ComparatorTheorems {
  import opened Ordering
  import opened Comparator
  import opened ComparatorParts

  // ----- what is assumed of sqlglot -----

  /** A column definition that is left with something to print besides its name: the parser
      reads a name alone as a bare name. */
  predicate Defines(item: Item) {
    item.Column? && item.typ.None? ==> Remaining(item.constraints, item.constraints) != []
  }

  /** A statement the parser produced, each of whose column definitions keeps its type or a
      constraint when bare keys have moved to the table. */
  ghost predicate Read(d: Dialect, s: Statement) {
    d.parsed(s) && (s.Create? ==> forall item :: item in s.items ==> Defines(item))
  }

  /** A statement as it is printed: the canonical form of one that was read. */
  ghost predicate Printed(d: Dialect, c: Statement) {
    exists s :: Read(d, s) && Supported(d, s) && c == Canonical(d, s)
  }

  /** A constraint that is sorted by its text: of a parsed table, as written or as resolved. */
  ghost predicate Occurs(d: Dialect, c: TableConstraint) {
    exists s :: Read(d, s) && s.Create? && (c in Constraints(s.items) || c in Listed(d, s.items))
  }

  /** What is asked of the parser and the printer, on what they are used for only. The text
      of a constraint tells it from every other; the text of a canonical statement, with its
      terminator, is not the beginning of another's (reading stops at the first unquoted
      semicolon); reading a canonical statement gives that statement; whether one can be
      printed does not depend on the order of its constraints; and types keep their name
      when it is read again, SQLite integers also in upper case. */
  ghost predicate Lawful(d: Dialect) {
    && (forall x, y :: Occurs(d, x) && Occurs(d, y) && d.clauseText(x) == d.clauseText(y) ==> x == y)
    && (forall s, t :: Printed(d, s) && Printed(d, t) && Ended(d, s) <= Ended(d, t) ==> s == t)
    && (forall s :: Printed(d, s) ==> Read(d, s) && d.printable(Canonical(d, s)))
    && (forall typ :: d.typeName(d.typeName(typ)) == d.typeName(typ))
    && (forall typ :: IsSqliteInteger(d, typ) ==> d.typeName(Upper(typ)) == d.typeName(typ))
  }

  /** A dump arrives as its parsed statements. */
  ghost predicate Parsed(d: Dialect, dump: seq<Statement>) {
    forall s :: s in dump ==> Read(d, s)
  }

  ghost predicate AllPrinted(d: Dialect, statements: seq<Statement>) {
    forall s :: s in statements ==> Printed(d, s)
  }

  function Ended(d: Dialect, s: Statement): string {
    d.statementText(s) + ";\n"
  }

  // ----- the printed text determines the canonical statements -----

  function Chain(texts: seq<string>): string {
    if texts == [] then "" else (texts[0] + ";\n") + Chain(texts[1..])
  }

  lemma {:induction false} PrintIsChain(texts: seq<string>)
    ensures Join(texts) + (if texts == [] then "" else ";\n") == Chain(texts)
  {
    if |texts| == 1 {
      assert texts[1..] == [];
      assert Chain(texts) == (texts[0] + ";\n") + "";
    } else if texts != [] {
      PrintIsChain(texts[1..]);
    }
  }

  lemma PrefixOfOne(a: string, x: string, b: string, y: string)
    requires a + x == b + y
    ensures a <= b || b <= a
  {
    if |a| <= |b| {
      assert a == (a + x)[..|a|] == (b + y)[..|a|] == b[..|a|];
    } else {
      assert b == (b + y)[..|b|] == (a + x)[..|b|] == a[..|b|];
    }
  }

  lemma ChainHead(d: Dialect, a: seq<Statement>)
    requires a != []
    ensures Chain(Texts(d, a)) == Ended(d, a[0]) + Chain(Texts(d, a[1..]))
  {
    assert Texts(d, a)[1..] == Texts(d, a[1..]);
  }

  lemma FirstDecodes(d: Dialect, s: Statement, x: string, t: Statement, y: string)
    requires Lawful(d) && Printed(d, s) && Printed(d, t) && Ended(d, s) + x == Ended(d, t) + y
    ensures s == t && x == y
  {
    hide Printed, Occurs, Canonical, IsSqliteInteger;
    PrefixOfOne(Ended(d, s), x, Ended(d, t), y);
    assert x == (Ended(d, s) + x)[|Ended(d, s)|..];
    assert y == (Ended(d, t) + y)[|Ended(d, t)|..];
  }

  lemma NoChain(d: Dialect)
    ensures Chain(Texts(d, [])) == ""
  {
  }

  /** Two lists of statement texts chain to the same text only if they are the same. */
  lemma {:induction false} ChainDecodes(d: Dialect, a: seq<Statement>, b: seq<Statement>)
    requires Lawful(d) && AllPrinted(d, a) && AllPrinted(d, b) && Chain(Texts(d, a)) == Chain(Texts(d, b))
    ensures a == b
  {
    hide Lawful, Printed, Chain, Texts;
    NoChain(d);
    if a != [] { ChainHead(d, a); }
    if b != [] { ChainHead(d, b); }
    if a != [] && b != [] {
      FirstDecodes(d, a[0], Chain(Texts(d, a[1..])), b[0], Chain(Texts(d, b[1..])));
      assert AllPrinted(d, a[1..]) && AllPrinted(d, b[1..]);
      ChainDecodes(d, a[1..], b[1..]);
      assert a == [a[0]] + a[1..] && b == [b[0]] + b[1..];
    }
  }

  /** The statements of a dump in the order their texts sort: what a parser reads in the
      normal form. */
  function Arranged(d: Dialect, statements: seq<Statement>): (r: seq<Statement>)
    ensures multiset(r) == multiset(statements)
  {
    SortBy(statements, d.statementText)
  }

  lemma {:induction false} InsertTexts(d: Dialect, s: Statement, rest: seq<Statement>)
    ensures Texts(d, Insert(s, rest, d.statementText)) == Insert(d.statementText(s), Texts(d, rest), Itself)
  {
    if rest == [] || Leq(d.statementText(s), d.statementText(rest[0])) {
    } else {
      InsertTexts(d, s, rest[1..]);
    }
  }

  /** Sorting the statements by their texts, or the texts themselves, is the same. */
  lemma {:induction false} SortTexts(d: Dialect, statements: seq<Statement>)
    ensures Texts(d, Arranged(d, statements)) == SortBy(Texts(d, statements), Itself)
  {
    if statements != [] {
      SortTexts(d, statements[1..]);
      InsertTexts(d, statements[0], Arranged(d, statements[1..]));
    }
  }

  lemma TextsTellApart(d: Dialect, statements: seq<Statement>)
    requires Lawful(d) && AllPrinted(d, statements)
    ensures TellsApart(d.statementText, statements)
  {
    hide Printed, Occurs, Canonical, IsSqliteInteger;
    forall s, t | s in statements && t in statements && d.statementText(s) == d.statementText(t) ensures s == t {
      assert Ended(d, s) <= Ended(d, t);
    }
  }

  lemma {:induction false} CanonicalArePrinted(d: Dialect, dump: seq<Statement>)
    requires Parsed(d, dump) && CanonicalAll(d, dump).Some?
    ensures AllPrinted(d, CanonicalAll(d, dump).value)
  {
    hide Canonical, Supported, Skipped;
    if dump != [] {
      CanonicalArePrinted(d, dump[1..]);
      assert dump[0] in dump;
    }
  }

  lemma NormalFormIsChain(d: Dialect, dump: seq<Statement>)
    requires CanonicalAll(d, dump).Some?
    ensures Normalize(d, dump) == Some(Chain(Texts(d, Arranged(d, CanonicalAll(d, dump).value))))
  {
    var statements := CanonicalAll(d, dump).value;
    SortTexts(d, statements);
    PrintIsChain(SortBy(Texts(d, statements), Itself));
  }

  lemma ArrangedArePrinted(d: Dialect, statements: seq<Statement>)
    requires AllPrinted(d, statements)
    ensures AllPrinted(d, Arranged(d, statements))
  {
    hide Printed, Arranged;
    forall s | s in Arranged(d, statements) ensures Printed(d, s) {
      assert s in multiset(Arranged(d, statements));
    }
  }

  /** Equal normal forms: the same canonical statements, as often. */
  lemma SameFormSameStatements(d: Dialect, a: seq<Statement>, b: seq<Statement>)
    requires Lawful(d) && Parsed(d, a) && Parsed(d, b)
    requires CanonicalAll(d, a).Some? && CanonicalAll(d, b).Some?
    ensures Normalize(d, a) == Normalize(d, b)
       <==> multiset(CanonicalAll(d, a).value) == multiset(CanonicalAll(d, b).value)
  {
    var x, y := CanonicalAll(d, a).value, CanonicalAll(d, b).value;
    NormalFormIsChain(d, a);
    NormalFormIsChain(d, b);
    CanonicalArePrinted(d, a);
    CanonicalArePrinted(d, b);
    TextsTellApart(d, x);
    SortByPermutation(x, y, d.statementText);
    if Normalize(d, a) == Normalize(d, b) {
      ArrangedArePrinted(d, x);
      ArrangedArePrinted(d, y);
      ChainDecodes(d, Arranged(d, x), Arranged(d, y));
    }
  }

  // ----- the canonical statement, its constraints in no order -----

  datatype Core =
    | CoreTable(path: seq<Ident>, columns: seq<Item>, constraints: multiset<TableConstraint>, options: seq<Piece>)
    | CoreOther(s: Statement)

  function Declared(d: Dialect, items: seq<Item>): multiset<TableConstraint> {
    if items == [] then multiset{}
    else (if items[0].Column? then KeysOf(d, items[0]) else multiset{FoldClause(d.folding, items[0].constraint)})
         + Declared(d, items[1..])
  }

  /** One key on the column for each bare PRIMARY KEY written beside it. */
  function KeysOf(d: Dialect, c: Item): multiset<TableConstraint>
    requires c.Column?
  {
    multiset{}[PrimaryKey([FoldIdent(d.folding, c.id)]) := BareKeys(c.constraints, c.constraints)]
  }

  function BareKeys(cs: seq<ColumnConstraint>, all: seq<ColumnConstraint>): nat {
    if cs == [] then 0 else (if IsBareKey(cs[0], all) then 1 else 0) + BareKeys(cs[1..], all)
  }

  function CoreOf(d: Dialect, s: Statement): Core {
    match s
    case Create(table, items, options, _) =>
      CoreTable(FoldIdents(d.folding, table), FoldItems(d.folding, Columns(d, items)), Declared(d, items),
                FoldPieces(d.folding, options))
    case _ => CoreOther(FoldStatement(d.folding, StripComments(s)))
  }

  /** The parts of the statements that take part. */
  function DumpParts(d: Dialect, dump: seq<Statement>): multiset<Parts> {
    if dump == [] then multiset{}
    else (if Skipped(dump[0]) then multiset{} else multiset{PartsOf(d, dump[0])}) + DumpParts(d, dump[1..])
  }

  // ----- it can be read off the canonical statement -----

  function FoldClauses(f: Folding, cs: seq<TableConstraint>): (r: seq<TableConstraint>)
    ensures |r| == |cs|
    ensures forall i :: 0 <= i < |r| ==> r[i] == FoldClause(f, cs[i])
  {
    if cs == [] then [] else [FoldClause(f, cs[0])] + FoldClauses(f, cs[1..])
  }

  lemma {:induction false} FoldClausesConcat(f: Folding, a: seq<TableConstraint>, b: seq<TableConstraint>)
    ensures FoldClauses(f, a + b) == FoldClauses(f, a) + FoldClauses(f, b)
  {
    if a == [] {
      assert a + b == b;
    } else {
      assert (a + b)[1..] == a[1..] + b;
      FoldClausesConcat(f, a[1..], b);
    }
  }

  lemma {:induction false} HoistedParts(d: Dialect, id: Ident, cs: seq<ColumnConstraint>, all: seq<ColumnConstraint>)
    ensures multiset(FoldClauses(d.folding, Hoisted(id, cs, all)))
         == multiset{}[PrimaryKey([FoldIdent(d.folding, id)]) := BareKeys(cs, all)]
  {
    if cs != [] {
      HoistedParts(d, id, cs[1..], all);
      var rest := Hoisted(id, cs[1..], all);
      if IsBareKey(cs[0], all) {
        var key := PrimaryKey([id]);
        assert FoldIdents(d.folding, [id]) == [FoldIdent(d.folding, id)];
        assert FoldClauses(d.folding, [key] + rest) == [FoldClause(d.folding, key)] + FoldClauses(d.folding, rest);
      } else {
        assert [] + rest == rest;
      }
    }
  }

  lemma {:induction false} ConstraintsParts(d: Dialect, items: seq<Item>)
    ensures multiset(FoldClauses(d.folding, Constraints(items))) == Declared(d, items)
  {
    if items != [] {
      ConstraintsParts(d, items[1..]);
      var head := if items[0].Column? then Hoisted(items[0].id, items[0].constraints, items[0].constraints)
                  else [items[0].constraint];
      FoldClausesConcat(d.folding, head, Constraints(items[1..]));
      if items[0].Column? {
        HoistedParts(d, items[0].id, items[0].constraints, items[0].constraints);
      } else {
        assert FoldClauses(d.folding, head) == [FoldClause(d.folding, items[0].constraint)];
      }
    }
  }

  lemma FoldWithout(f: Folding, b: seq<TableConstraint>, i: nat)
    requires i < |b|
    ensures multiset(FoldClauses(f, WithoutIndex(b, i))) + multiset{FoldClause(f, b[i])} == multiset(FoldClauses(f, b))
  {
    hide FoldClauses, FoldClause;
    var r := FoldClauses(f, b);
    assert FoldClauses(f, WithoutIndex(b, i)) == WithoutIndex(r, i);
    WithoutIndexMultiset(r, i);
  }

  lemma {:induction false} FoldPermutes(f: Folding, a: seq<TableConstraint>, b: seq<TableConstraint>)
    requires multiset(a) == multiset(b)
    ensures multiset(FoldClauses(f, a)) == multiset(FoldClauses(f, b))
    decreases |a|
  {
    hide FoldClauses, FoldClause;
    if a == [] {
      assert |b| == |multiset(b)| == 0;
    } else {
      assert a[0] in multiset(b);
      var i :| 0 <= i < |b| && b[i] == a[0];
      WithoutIndexMultiset(a, 0);
      WithoutIndexMultiset(b, i);
      assert multiset(WithoutIndex(a, 0)) == multiset(a) - multiset{a[0]};
      assert multiset(WithoutIndex(b, i)) == multiset(b) - multiset{b[i]};
      FoldPermutes(f, WithoutIndex(a, 0), WithoutIndex(b, i));
      FoldWithout(f, a, 0);
      FoldWithout(f, b, i);
    }
  }

  lemma {:induction false} FoldItemsConcat(f: Folding, a: seq<Item>, b: seq<Item>)
    ensures FoldItems(f, a + b) == FoldItems(f, a) + FoldItems(f, b)
  {
    if a == [] {
      assert a + b == b;
    } else {
      assert (a + b)[1..] == a[1..] + b;
      FoldItemsConcat(f, a[1..], b);
    }
  }

  lemma {:induction false} FoldOfClauses(f: Folding, cs: seq<TableConstraint>)
    ensures FoldItems(f, Clauses(cs)) == Clauses(FoldClauses(f, cs))
  {
    if cs != [] { FoldOfClauses(f, cs[1..]); }
  }

  /** The constraints of a table as the normal form lists them. */
  function Listed(d: Dialect, items: seq<Item>): seq<TableConstraint> {
    FoldClauses(d.folding, SortBy(Constraints(items), d.clauseText))
  }

  lemma CanonicalItems(d: Dialect, s: Statement)
    requires s.Create?
    ensures Canonical(d, s) == Create(FoldIdents(d.folding, s.table),
                                      FoldItems(d.folding, Columns(d, s.items)) + Clauses(Listed(d, s.items)),
                                      FoldPieces(d.folding, s.options), [])
    ensures multiset(Listed(d, s.items)) == Declared(d, s.items)
  {
    var sorted := SortBy(Constraints(s.items), d.clauseText);
    FoldItemsConcat(d.folding, Columns(d, s.items), Clauses(sorted));
    FoldOfClauses(d.folding, sorted);
    FoldPermutes(d.folding, sorted, Constraints(s.items));
    ConstraintsParts(d, s.items);
  }

  lemma {:induction false} ColumnsAreColumns(d: Dialect, items: seq<Item>)
    ensures forall i :: 0 <= i < |Columns(d, items)| ==> Columns(d, items)[i].Column?
  {
    if items != [] { ColumnsAreColumns(d, items[1..]); }
  }

  /** How many items a table starts with that are columns. */
  function Leading(items: seq<Item>): nat {
    if items == [] || items[0].Clause? then 0 else 1 + Leading(items[1..])
  }

  lemma {:induction false} LeadingColumns(columns: seq<Item>, cs: seq<TableConstraint>)
    requires forall i :: 0 <= i < |columns| ==> columns[i].Column?
    ensures Leading(columns + Clauses(cs)) == |columns|
  {
    if columns == [] {
      assert columns + Clauses(cs) == Clauses(cs);
    } else {
      assert (columns + Clauses(cs))[1..] == columns[1..] + Clauses(cs);
      LeadingColumns(columns[1..], cs);
    }
  }

  lemma SplitUnique(columns: seq<Item>, cs: seq<TableConstraint>, columns': seq<Item>, cs': seq<TableConstraint>)
    requires columns + Clauses(cs) == columns' + Clauses(cs')
    requires forall i :: 0 <= i < |columns| ==> columns[i].Column?
    requires forall i :: 0 <= i < |columns'| ==> columns'[i].Column?
    ensures columns == columns' && cs == cs'
  {
    var all := columns + Clauses(cs);
    LeadingColumns(columns, cs);
    LeadingColumns(columns', cs');
    assert columns == all[..|columns|] && columns' == all[..|columns|];
    assert Clauses(cs) == all[|columns|..] == Clauses(cs');
    ClausesInjective(cs, cs');
  }

  lemma ClausesInjective(a: seq<TableConstraint>, b: seq<TableConstraint>)
    requires Clauses(a) == Clauses(b)
    ensures a == b
  {
    assert |a| == |b|;
    forall i | 0 <= i < |a| ensures a[i] == b[i] {
      assert Clauses(a)[i] == Clauses(b)[i];
    }
  }

  lemma CanonicalCreates(d: Dialect, s: Statement, t: Statement)
    requires s.Create? && t.Create? && Canonical(d, s) == Canonical(d, t)
    ensures CoreOf(d, s) == CoreOf(d, t) && Listed(d, s.items) == Listed(d, t.items)
  {
    CanonicalItems(d, s);
    CanonicalItems(d, t);
    ColumnsAreColumns(d, s.items);
    ColumnsAreColumns(d, t.items);
    SplitUnique(FoldItems(d.folding, Columns(d, s.items)), Listed(d, s.items),
                FoldItems(d.folding, Columns(d, t.items)), Listed(d, t.items));
  }

  /** Statements with the same canonical form have the same core. */
  lemma CanonicalGivesCore(d: Dialect, s: Statement, t: Statement)
    requires Canonical(d, s) == Canonical(d, t)
    ensures CoreOf(d, s) == CoreOf(d, t)
  {
    if s.Create? && t.Create? { CanonicalCreates(d, s, t); }
  }

  /** The order of the table constraints by their text as written is the order by their
      text as resolved. */
  ghost predicate Steady(d: Dialect, s: Statement) {
    s.Create? ==> SortedBy(Listed(d, s.items), d.clauseText)
  }

  lemma ListedTellApart(d: Dialect, s: Statement)
    requires Lawful(d) && Read(d, s) && s.Create?
    ensures TellsApart(d.clauseText, Listed(d, s.items))
    ensures TellsApart(d.clauseText, Constraints(s.items))
  {
    hide Printed, Constraints, Listed, Canonical, IsSqliteInteger;
  }

  /** When the order is steady, statements with the same core have the same form. */
  lemma CoreDeterminesCanonical(d: Dialect, s: Statement, t: Statement)
    requires Lawful(d) && Read(d, s) && Read(d, t)
    requires Steady(d, s) && Steady(d, t) && CoreOf(d, s) == CoreOf(d, t)
    ensures Canonical(d, s) == Canonical(d, t)
  {
    if s.Create? && t.Create? {
      CanonicalItems(d, s);
      CanonicalItems(d, t);
      ListedTellApart(d, s);
      hide Lawful;
      SortedUnique(Listed(d, s.items), Listed(d, t.items), d.clauseText);
    }
  }

  // ----- the core says what the parts say -----

  lemma KeepsIs(d: Dialect, t: string)
    ensures KeepsSpelling(d, t) <==> IsSqliteInteger(d, t)
    ensures Capitals(t) == Upper(t)
  {
    UpperIs(t);
  }

  /** The type printed determines the dialect's name of it, and for SQLite its spelling. */
  lemma PrintedTypeTells(d: Dialect, x: Option<string>, y: Option<string>)
    requires Lawful(d)
    ensures PrintedType(d, x) == PrintedType(d, y) <==> TypeOf(d, x) == TypeOf(d, y)
  {
    if x.Some? { PrintedName(d, x.value); }
    if y.Some? { PrintedName(d, y.value); }
    hide Lawful, IsSqliteInteger, Capitals, KeepsSpelling;
  }

  lemma PrintedName(d: Dialect, t: string)
    requires Lawful(d)
    ensures var printed := PrintedType(d, Some(t)).value;
            d.typeName(printed) == d.typeName(t) && (KeepsSpelling(d, t) <==> KeepsSpelling(d, printed))
    ensures KeepsSpelling(d, t) <==> IsSqliteInteger(d, t)
    ensures Capitals(t) == Upper(t)
  {
    KeepsIs(d, t);
    KeepsIs(d, PrintedType(d, Some(t)).value);
    hide Upper, Capitals, Occurs, Printed, Read;
    assert IsSqliteInteger(d, t) ==> d.typeName(Upper(t)) == d.typeName(t);
  }

  lemma {:induction false} RemainingParts(cs: seq<ColumnConstraint>, all: seq<ColumnConstraint>)
    ensures Remaining(cs, all) == if GivesKeys(all) then OtherThanKeys(cs) else cs
    ensures BareKeys(cs, all) == if GivesKeys(all) then PlainKeys(cs) else 0
  {
    if cs != [] {
      var front, last := cs[..|cs| - 1], cs[|cs| - 1];
      assert cs == front + [last];
      RemainingParts(front, all);
      RemainingConcat(front, [last], all);
      BareKeysConcat(front, [last], all);
      OneRemains(last, all);
    }
  }

  lemma OneRemains(c: ColumnConstraint, all: seq<ColumnConstraint>)
    ensures Remaining([c], all) == if GivesKeys(all) && IsPlainKey(c) then [] else [c]
    ensures BareKeys([c], all) == if GivesKeys(all) && IsPlainKey(c) then 1 else 0
  {
    assert [c][1..] == [];
  }

  lemma {:induction false} BareKeysConcat(a: seq<ColumnConstraint>, b: seq<ColumnConstraint>,
                                          all: seq<ColumnConstraint>)
    ensures BareKeys(a + b, all) == BareKeys(a, all) + BareKeys(b, all)
  {
    if a == [] {
      assert a + b == b;
    } else {
      assert (a + b)[1..] == a[1..] + b;
      BareKeysConcat(a[1..], b, all);
    }
  }

  lemma FoldInlineIs(f: Folding, c: ColumnConstraint)
    ensures FoldInline(f, c) == InlineParts(f, c)
  {
    match c
    case InlineKey(name, modifiers) =>
      FoldPiecesIs(f, modifiers);
      if name.Some? { FoldIdentIs(f, name.value); }
    case Inline(body) => FoldPiecesIs(f, body);
    case AutoIncrement =>
  }

  lemma {:induction false} FoldInlinesIs(f: Folding, cs: seq<ColumnConstraint>)
    ensures FoldInlines(f, cs) == InlinesParts(f, cs)
  {
    if cs != [] {
      FoldInlineIs(f, cs[0]);
      hide FoldInline, InlineParts;
      FoldInlinesIs(f, cs[1..]);
      assert InlinesParts(f, cs) == [InlineParts(f, cs[0])] + InlinesParts(f, cs[1..]);
    }
  }

  lemma FoldClauseIs(f: Folding, c: TableConstraint)
    ensures FoldClause(f, c) == ClauseParts(f, c)
  {
    match c
    case PrimaryKey(columns) => FoldIdentsIs(f, columns);
    case Constraint(body) => FoldPiecesIs(f, body);
    case BareName(id) => FoldIdentIs(f, id);
  }

  /** A column as the form keeps it. */
  function CoreColumn(d: Dialect, c: Item): Item
    requires c.Column?
  {
    FoldItem(d.folding, KeptColumn(d, c))
  }

  lemma ColumnTells(d: Dialect, c: Item, e: Item)
    requires Lawful(d) && c.Column? && e.Column?
    ensures CoreColumn(d, c) == CoreColumn(d, e) <==> ColumnOf(d, c) == ColumnOf(d, e)
  {
    hide Lawful, PrintedType, TypeOf, FoldIdent, Known, FoldInlines, InlinesParts, Remaining, OtherThanKeys;
    PrintedTypeTells(d, c.typ, e.typ);
    FoldIdentIs(d.folding, c.id);
    FoldIdentIs(d.folding, e.id);
    RemainingParts(c.constraints, c.constraints);
    RemainingParts(e.constraints, e.constraints);
    FoldInlinesIs(d.folding, Remaining(c.constraints, c.constraints));
    FoldInlinesIs(d.folding, Remaining(e.constraints, e.constraints));
  }

  /** The columns of a list, one by one. */
  function ColumnItems(items: seq<Item>): (r: seq<Item>)
    ensures forall i | 0 <= i < |r| :: r[i].Column?
  {
    if items == [] then [] else ColumnItems(items[..|items| - 1]) + if items[|items| - 1].Column?
      then [items[|items| - 1]] else []
  }

  lemma {:induction false} ColumnsAre(d: Dialect, items: seq<Item>)
    ensures |ColumnsOf(d, items)| == |FoldItems(d.folding, Columns(d, items))| == |ColumnItems(items)|
    ensures forall i | 0 <= i < |ColumnItems(items)| ::
      ColumnsOf(d, items)[i] == ColumnOf(d, ColumnItems(items)[i])
      && FoldItems(d.folding, Columns(d, items))[i] == CoreColumn(d, ColumnItems(items)[i])
  {
    if items != [] {
      hide ColumnOf, FoldItem, KeptColumn;
      var front, last := items[..|items| - 1], items[|items| - 1];
      assert items == front + [last];
      ColumnsAre(d, front);
      ColumnsConcat(d, front, [last]);
      FoldItemsConcat(d.folding, Columns(d, front), Columns(d, [last]));
      assert [last][1..] == [];
      assert Columns(d, [last]) == if last.Column? then [KeptColumn(d, last)] else [];
    }
  }

  lemma ColumnsTell(d: Dialect, a: seq<Item>, b: seq<Item>)
    requires Lawful(d)
    ensures FoldItems(d.folding, Columns(d, a)) == FoldItems(d.folding, Columns(d, b))
        <==> ColumnsOf(d, a) == ColumnsOf(d, b)
  {
    hide Lawful, ColumnsOf, ColumnOf, CoreColumn, ColumnItems, Columns, FoldItems;
    ColumnsAre(d, a);
    ColumnsAre(d, b);
    var x, y := ColumnItems(a), ColumnItems(b);
    if |x| == |y| {
      forall i | 0 <= i < |x| ensures CoreColumn(d, x[i]) == CoreColumn(d, y[i])
        <==> ColumnOf(d, x[i]) == ColumnOf(d, y[i]) {
        ColumnTells(d, x[i], y[i]);
      }
      var ca, cb, pa, pb := FoldItems(d.folding, Columns(d, a)), FoldItems(d.folding, Columns(d, b)), ColumnsOf(d, a),
                            ColumnsOf(d, b);
      assert ca == cb <==> forall i | 0 <= i < |x| :: ca[i] == cb[i];
      assert pa == pb <==> forall i | 0 <= i < |x| :: pa[i] == pb[i];
    }
  }

  lemma {:induction false} DeclaredConcat(d: Dialect, a: seq<Item>, b: seq<Item>)
    ensures Declared(d, a + b) == Declared(d, a) + Declared(d, b)
  {
    if a == [] {
      assert a + b == b;
    } else {
      hide KeysOf, FoldClause;
      assert (a + b)[1..] == a[1..] + b;
      DeclaredConcat(d, a[1..], b);
    }
  }

  lemma {:induction false} DeclaredIs(d: Dialect, items: seq<Item>)
    ensures Declared(d, items) == ConstraintsOf(d, items)
  {
    if items != [] {
      var front, last := items[..|items| - 1], items[|items| - 1];
      assert items == front + [last];
      DeclaredIs(d, front);
      DeclaredConcat(d, front, [last]);
      OneDeclared(d, last);
    }
  }

  lemma OneDeclared(d: Dialect, item: Item)
    ensures Declared(d, [item])
         == match item
            case Clause(c) => multiset{ClauseParts(d.folding, c)}
            case Column(id, _, _, cs) =>
              multiset{}[PrimaryKey([Known(d.folding, id)]) := if GivesKeys(cs) then PlainKeys(cs) else 0]
  {
    hide FoldClause, ClauseParts, FoldIdent, Known;
    assert [item][1..] == [];
    match item
    case Clause(c) => FoldClauseIs(d.folding, c);
    case Column(id, _, _, cs) =>
      RemainingParts(cs, cs);
      FoldIdentIs(d.folding, id);
  }

  lemma TargetIs(f: Folding, target: Option<seq<Ident>>)
    ensures FoldTarget(f, target) == match target case None => None case Some(path) => Some(KnownAll(f, path))
  {
    if target.Some? { FoldIdentsIs(f, target.value); }
  }

  /** Statements have the same core exactly when they have the same parts. */
  lemma CoreTells(d: Dialect, s: Statement, t: Statement)
    requires Lawful(d)
    ensures CoreOf(d, s) == CoreOf(d, t) <==> PartsOf(d, s) == PartsOf(d, t)
  {
    hide Lawful, Columns, FoldItems, Declared, ColumnsOf, ConstraintsOf, FoldIdents, KnownAll, FoldPieces,
      KnownPieces, FoldTarget;
    CorePieces(d, s);
    CorePieces(d, t);
    if s.Create? && t.Create? {
      ColumnsTell(d, s.items, t.items);
      DeclaredIs(d, s.items);
      DeclaredIs(d, t.items);
    }
  }

  lemma CorePieces(d: Dialect, s: Statement)
    ensures s.Create? ==> FoldIdents(d.folding, s.table) == KnownAll(d.folding, s.table)
    ensures s.Create? ==> FoldPieces(d.folding, s.options) == KnownPieces(d.folding, s.options)
    ensures s.Index? || s.Other? ==> FoldPieces(d.folding, s.body) == KnownPieces(d.folding, s.body)
    ensures s.Index? ==>
      FoldTarget(d.folding, s.on) == match s.on case None => None case Some(p) => Some(KnownAll(d.folding, p))
    ensures s.Other? ==>
      FoldTarget(d.folding, s.target) == match s.target case None => None case Some(p) => Some(KnownAll(d.folding, p))
  {
    match s
    case Create(table, _, options, _) =>
      FoldIdentsIs(d.folding, table);
      FoldPiecesIs(d.folding, options);
    case Index(on, body, _) =>
      TargetIs(d.folding, on);
      FoldPiecesIs(d.folding, body);
    case Other(target, body, _) =>
      TargetIs(d.folding, target);
      FoldPiecesIs(d.folding, body);
    case _ =>
  }

  /** Statements with the same canonical form have the same parts. */
  lemma CanonicalGivesParts(d: Dialect, s: Statement, t: Statement)
    requires Lawful(d) && Canonical(d, s) == Canonical(d, t)
    ensures PartsOf(d, s) == PartsOf(d, t)
  {
    hide *;
    CanonicalGivesCore(d, s, t);
    CoreTells(d, s, t);
  }

  /** When the order is steady, statements with the same parts have the same form. */
  lemma PartsDetermineCanonical(d: Dialect, s: Statement, t: Statement)
    requires Lawful(d) && Read(d, s) && Read(d, t)
    requires Steady(d, s) && Steady(d, t) && PartsOf(d, s) == PartsOf(d, t)
    ensures Canonical(d, s) == Canonical(d, t)
  {
    hide *;
    CoreTells(d, s, t);
    CoreDeterminesCanonical(d, s, t);
  }
}
