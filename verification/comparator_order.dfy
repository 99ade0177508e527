/** A table and a view whose columns change places unseen, in dialects that meet every law. */
module ComparatorOrder {
  import opened Ordering
  import opened Comparator
  import opened ComparatorParts
  import opened ComparatorTheorems
  import opened ComparatorDecision
  import opened ComparatorPasses
  import opened ComparatorMeaning

  function Plain(name: string): Ident {
    Ident(name, false)
  }

  function Quoted(name: string): Ident {
    Ident(name, true)
  }

  /** A create statement whose column list is two bare names. */
  function TwoNames(table: Ident, x: Ident, y: Ident, options: seq<Piece>): Statement {
    Create([table], [Clause(BareName(x)), Clause(BareName(y))], options, [])
  }

  /** `t (b, a)`, `t (a, b)`, and how both are printed, `"t" ("a", "b")`. */
  function BThenA(options: seq<Piece>): Statement {
    TwoNames(Plain("t"), Plain("b"), Plain("a"), options)
  }

  function AThenB(options: seq<Piece>): Statement {
    TwoNames(Plain("t"), Plain("a"), Plain("b"), options)
  }

  function Resolved(options: seq<Piece>): Statement {
    TwoNames(Quoted("t"), Quoted("a"), Quoted("b"), options)
  }

  function NameText(c: TableConstraint): string {
    match c
    case BareName(id) => if id.quoted then "\"" + id.name + "\"" else id.name
    case _ => ""
  }

  /** A dialect whose parser and printer know these three statements. */
  function Three(backend: string, folding: Folding, options: seq<Piece>): Dialect {
    Dialect(backend, folding,
      s => s == BThenA(options) || s == AThenB(options) || s == Resolved(options),
      s => true,
      typ => Upper(typ),
      NameText,
      s => "t")
  }

  /** The foldings of the backends at hand, for names in lower case. */
  predicate Lowers(folding: Folding) {
    folding == Lowercase || folding == CaseInsensitive
  }

  predicate Tokens(options: seq<Piece>) {
    forall p | p in options :: p.Token?
  }

  lemma {:induction false} TokensStay(f: Folding, options: seq<Piece>)
    requires Tokens(options)
    ensures FoldPieces(f, options) == options
  {
    if options != [] {
      assert options[0] in options && forall p | p in options[1..] :: p in options;
      TokensStay(f, options[1..]);
    }
  }

  lemma FoldedNames(f: Folding, id: Ident)
    requires Lowers(f) && (id.name == "a" || id.name == "b" || id.name == "t")
    ensures FoldIdent(f, id) == Quoted(id.name)
  {
    assert "a"[1..] == "" && "b"[1..] == "" && "t"[1..] == "";
  }

  lemma NamesListed(d: Dialect, table: Ident, x: Ident, y: Ident, options: seq<Piece>)
    ensures var items := TwoNames(table, x, y, options).items;
            Constraints(items) == [BareName(x), BareName(y)] && Columns(d, items) == []
  {
    var items := TwoNames(table, x, y, options).items;
    ClauseAlone(d, BareName(x));
    ClauseAlone(d, BareName(y));
    assert items == [items[0]] + [items[1]];
    ColumnsConcat(d, [items[0]], [items[1]]);
  }

  lemma SortNames(d: Dialect, x: TableConstraint, y: TableConstraint)
    ensures SortBy([x, y], d.clauseText) == if Leq(d.clauseText(x), d.clauseText(y)) then [x, y] else [y, x]
  {
    hide Leq;
    assert [y][1..] == [] && SortBy([], d.clauseText) == [];
    assert SortBy([y], d.clauseText) == Insert(y, [], d.clauseText) == [y];
    assert [x, y][1..] == [y];
    assert SortBy([x, y], d.clauseText) == Insert(x, [y], d.clauseText);
    assert Insert(x, [], d.clauseText) == [x];
  }

  lemma TextOrder(q: bool)
    ensures Leq(NameText(BareName(Ident("a", q))), NameText(BareName(Ident("b", q))))
    ensures !Leq(NameText(BareName(Ident("b", q))), NameText(BareName(Ident("a", q))))
  {
    if q {
      var x, y := "\"" + "a" + "\"", "\"" + "b" + "\"";
      assert x[1..][0] == 'a' && y[1..][0] == 'b';
    }
  }

  /** The names as the normal form lists them: `x` first when its text is not greater. */
  lemma ListedNames(d: Dialect, table: Ident, x: Ident, y: Ident, options: seq<Piece>)
    ensures var u, v := BareName(FoldIdent(d.folding, x)), BareName(FoldIdent(d.folding, y));
            var inOrder := Leq(d.clauseText(BareName(x)), d.clauseText(BareName(y)));
            Listed(d, TwoNames(table, x, y, options).items) == if inOrder then [u, v] else [v, u]
  {
    NamesListed(d, table, x, y, options);
    SortNames(d, BareName(x), BareName(y));
    TwoFolded(d.folding, BareName(x), BareName(y));
    TwoFolded(d.folding, BareName(y), BareName(x));
    hide FoldIdent, SortBy, Constraints, FoldClauses, Leq;
  }

  lemma CanonicalNames(d: Dialect, table: Ident, x: Ident, y: Ident, options: seq<Piece>, u: Ident, v: Ident)
    requires Listed(d, TwoNames(table, x, y, options).items) == [BareName(u), BareName(v)]
    ensures Canonical(d, TwoNames(table, x, y, options))
         == TwoNames(FoldIdent(d.folding, table), u, v, FoldPieces(d.folding, options))
  {
    NamesListed(d, table, x, y, options);
    CanonicalItems(d, TwoNames(table, x, y, options));
    TwoClauses(d.folding, table, BareName(u), BareName(v));
    hide FoldIdent, FoldPieces, Constraints, Columns, Listed, Canonical;
  }

  /** Whichever of the two orders, and once more after printing: a comes first. */
  lemma Forms(backend: string, f: Folding, options: seq<Piece>, s: Statement)
    requires Lowers(f) && Tokens(options)
    requires s == BThenA(options) || s == AThenB(options) || s == Resolved(options)
    ensures Listed(Three(backend, f, options), s.items) == [BareName(Quoted("a")), BareName(Quoted("b"))]
    ensures Canonical(Three(backend, f, options), s) == Resolved(options)
  {
    var d := Three(backend, f, options);
    var q := s == Resolved(options);
    var table, a, b := Ident("t", q), Ident("a", q), Ident("b", q);
    assert s == TwoNames(table, a, b, options) || s == TwoNames(table, b, a, options);
    assert d.folding == f && d.clauseText == NameText;
    FoldedNames(f, table);
    FoldedNames(f, a);
    FoldedNames(f, b);
    TextOrder(q);
    TokensStay(f, options);
    hide FoldPieces, FoldIdent, Leq, NameText, Canonical, Listed, Three;
    ListedNames(d, table, a, b, options);
    ListedNames(d, table, b, a, options);
    if s == TwoNames(table, a, b, options) {
      CanonicalNames(d, table, a, b, options, Quoted("a"), Quoted("b"));
    } else {
      CanonicalNames(d, table, b, a, options, Quoted("a"), Quoted("b"));
    }
  }

  lemma TwoFolded(f: Folding, x: TableConstraint, y: TableConstraint)
    ensures FoldClauses(f, [x, y]) == [FoldClause(f, x), FoldClause(f, y)]
  {
    hide FoldClauses, FoldClause;
  }

  lemma TwoClauses(f: Folding, table: Ident, x: TableConstraint, y: TableConstraint)
    ensures FoldIdents(f, [table]) == [FoldIdent(f, table)] && FoldItems(f, []) == []
    ensures Clauses([x, y]) == [Clause(x), Clause(y)] && [] + Clauses([x, y]) == Clauses([x, y])
  {
    assert [table][1..] == [];
  }

  predicate IsName(c: TableConstraint) {
    && c.BareName? && (c.id.name == "a" || c.id.name == "b")
  }

  lemma NamesApart(x: TableConstraint, y: TableConstraint)
    requires IsName(x) && IsName(y) && NameText(x) == NameText(y)
    ensures x == y
  {
    var u, v := NameText(x), NameText(y);
    assert |x.id.name| == |y.id.name| == 1;
    assert u[if x.id.quoted then 1 else 0] == x.id.name[0] && v[if y.id.quoted then 1 else 0] == y.id.name[0];
    assert |u| == (if x.id.quoted then 3 else 1) && |v| == if y.id.quoted then 3 else 1;
  }

  lemma OccursIsName(backend: string, f: Folding, options: seq<Piece>, c: TableConstraint)
    requires Lowers(f) && Tokens(options) && Occurs(Three(backend, f, options), c)
    ensures IsName(c)
  {
    var d := Three(backend, f, options);
    hide Constraints, Listed, Columns, Canonical, FoldPieces, FoldIdent;
    var s :| Read(d, s) && s.Create? && (c in Constraints(s.items) || c in Listed(d, s.items));
    KnownStatement(backend, f, options, s);
    Forms(backend, f, options, s);
    NamesListed(d, Plain("t"), Plain("b"), Plain("a"), options);
    NamesListed(d, Plain("t"), Plain("a"), Plain("b"), options);
    NamesListed(d, Quoted("t"), Quoted("a"), Quoted("b"), options);
    hide Three, Read;
  }

  lemma KnownStatement(backend: string, f: Folding, options: seq<Piece>, s: Statement)
    requires Read(Three(backend, f, options), s)
    ensures s == BThenA(options) || s == AThenB(options) || s == Resolved(options)
  {
    hide BThenA, AThenB, Resolved;
  }

  lemma Works(backend: string, f: Folding, options: seq<Piece>, s: Statement)
    requires s == BThenA(options) || s == AThenB(options) || s == Resolved(options)
    ensures var d := Three(backend, f, options);
            Read(d, s) && Supported(d, s) && !Skipped(s)
  {
    assert |Lower("t")| == 1 by { assert "t"[1..] == ""; }
    hide Canonical;
  }

  lemma ThreeIsLawful(backend: string, f: Folding, options: seq<Piece>)
    requires Lowers(f) && Tokens(options)
    ensures Lawful(Three(backend, f, options))
  {
    var d := Three(backend, f, options);
    forall x, y | Occurs(d, x) && Occurs(d, y) && d.clauseText(x) == d.clauseText(y) ensures x == y {
      OccursIsName(backend, f, options, x);
      OccursIsName(backend, f, options, y);
      NamesApart(x, y);
    }
    forall s | Printed(d, s) ensures s == Resolved(options) && Read(d, s) && d.printable(Canonical(d, s)) {
      PrintedIs(backend, f, options, s);
    }
    forall typ ensures d.typeName(typ) == Upper(typ) && Upper(Upper(typ)) == Upper(typ) {
      LowerTwice(typ);
    }
    hide Occurs, Printed, Read, Canonical;
  }

  lemma PrintedIs(backend: string, f: Folding, options: seq<Piece>, s: Statement)
    requires Lowers(f) && Tokens(options) && Printed(Three(backend, f, options), s)
    ensures s == Resolved(options) && Read(Three(backend, f, options), s)
  {
    var d := Three(backend, f, options);
    Works(backend, f, options, Resolved(options));
    hide Canonical, Supported;
    var s0 :| Read(d, s0) && Supported(d, s0) && s == Canonical(d, s0);
    Forms(backend, f, options, s0);
  }

  lemma OrderOfTwo(f: Folding, table: Ident, x: Ident, y: Ident, options: seq<Piece>)
    ensures Order(f, TwoNames(table, x, y, options).items) == [Some(FoldIdent(f, x)), Some(FoldIdent(f, y))]
  {
    hide FoldIdent;
    var items := TwoNames(table, x, y, options).items;
    OrderConcat(f, [items[0]], [items[1]]);
    OneOrder(f, items[0]);
    OneOrder(f, items[1]);
    assert items == [items[0]] + [items[1]];
  }

  /** The two orders have one normal form and declare different things. */
  lemma OrderIsLost(backend: string, f: Folding, options: seq<Piece>)
    requires Lowers(f) && Tokens(options)
    ensures var d, a, b := Three(backend, f, options), [BThenA(options)], [AThenB(options)];
            && Lawful(d) && Parsed(d, a) && Parsed(d, b)
            && Normalize(d, a).Some? && Normalize(d, a) == Normalize(d, b)
            && DumpParts(d, a) == DumpParts(d, b) && DumpMeaning(d, a) != DumpMeaning(d, b)
  {
    var d, s, t := Three(backend, f, options), BThenA(options), AThenB(options);
    ThreeIsLawful(backend, f, options);
    Works(backend, f, options, s);
    Works(backend, f, options, t);
    Forms(backend, f, options, s);
    Forms(backend, f, options, t);
    OrderOfTwo(f, Plain("t"), Plain("b"), Plain("a"), options);
    OrderOfTwo(f, Plain("t"), Plain("a"), Plain("b"), options);
    FoldedNames(f, Plain("a"));
    FoldedNames(f, Plain("b"));
    assert Columned(d, s)[0] == Some(Quoted("b")) && Columned(d, t)[0] == Some(Quoted("a"));
    assert Quoted("a").name[0] != Quoted("b").name[0];
    hide Lawful, Read, Supported, Skipped, Canonical, Columned, PartsOf, Three, BThenA, AThenB, Normalize;
    AloneInDump(d, s);
    AloneInDump(d, t);
    SameFormSameStatements(d, [s], [t]);
    SameFormSameParts(d, [s], [t]);
    assert multiset([Signify(d)(s)])[Signify(d)(s)] == 1 && multiset([Signify(d)(t)])[Signify(d)(s)] == 0;
  }

  lemma AloneInDump(d: Dialect, s: Statement)
    requires Read(d, s) && Supported(d, s) && !Skipped(s)
    ensures Parsed(d, [s]) && Normalize(d, [s]).Some? && CanonicalAll(d, [s]) == Some([Canonical(d, s)])
    ensures DumpMeaning(d, [s]) == multiset([Signify(d)(s)])
  {
    hide Read, Supported, Skipped, Canonical, Signify;
    CanonicalAllOne(d, s);
    KeptOne(s);
    assert Map(Signify(d), [s]) == [Signify(d)(s)];
  }

  /** SQLite: `CREATE TABLE t (b, a)` and `CREATE TABLE t (a, b)` compare as identical. */
  lemma TableOrderIsLost()
    ensures var d, a, b := Three("sqlite", CaseInsensitive, []), [BThenA([])], [AThenB([])];
            && Lawful(d) && Parsed(d, a) && Parsed(d, b)
            && Normalize(d, a).Some? && Normalize(d, a) == Normalize(d, b) && DumpMeaning(d, a) != DumpMeaning(d, b)
  {
    OrderIsLost("sqlite", CaseInsensitive, []);
  }

  /** Any backend: `CREATE VIEW t (b, a) AS SELECT x, y FROM q` and the view with (a, b), which
      gives each column the other's values. */
  lemma ViewOrderIsLost(backend: string)
    ensures var query := [Token("VIEW"), Token("AS SELECT x, y FROM q")];
            var d, a, b := Three(backend, Lowercase, query), [BThenA(query)], [AThenB(query)];
            && Lawful(d) && Parsed(d, a) && Parsed(d, b)
            && Normalize(d, a).Some? && Normalize(d, a) == Normalize(d, b) && DumpMeaning(d, a) != DumpMeaning(d, b)
  {
    OrderIsLost(backend, Lowercase, [Token("VIEW"), Token("AS SELECT x, y FROM q")]);
  }
}
