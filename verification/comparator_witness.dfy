/** One pass is not enough: two dumps that consist of the same parts and compare as different, in a
    dialect that meets every law. */
module ComparatorWitness {
  import opened Ordering
  import opened Comparator
  import opened ComparatorParts
  import opened ComparatorTheorems
  import opened ComparatorDecision

  function Unique(id: Ident): TableConstraint {
    Constraint([Token("UNIQUE ("), Name(id), Token(")")])
  }

  function TwoKeys(table: Ident, x: Ident, y: Ident): Statement {
    Create([table], [Clause(Unique(x)), Clause(Unique(y))], [], [])
  }

  function Folded(id: Ident): Ident {
    FoldIdent(Lowercase, id)
  }

  // ----- the canonical form of a table with two unique constraints -----

  lemma FoldedKey(id: Ident)
    ensures FoldClause(Lowercase, Unique(id)) == Unique(Folded(id))
  {
    hide FoldIdent;
    var body := Unique(id).body;
    assert body[1..][1..] == [body[2]] && body[2..][1..] == [];
    assert FoldPieces(Lowercase, [body[2]]) == [body[2]];
    assert FoldPieces(Lowercase, body[1..]) == [Name(Folded(id)), body[2]];
  }

  lemma TwoKeyConstraints(d: Dialect, table: Ident, x: Ident, y: Ident)
    ensures Constraints(TwoKeys(table, x, y).items) == [Unique(x), Unique(y)]
    ensures Columns(d, TwoKeys(table, x, y).items) == []
  {
    hide Unique;
    var items := TwoKeys(table, x, y).items;
    ClauseAlone(d, Unique(x));
    ClauseAlone(d, Unique(y));
    assert items == [items[0]] + [items[1]];
    ColumnsConcat(d, [items[0]], [items[1]]);
  }

  lemma SortTwo(d: Dialect, x: TableConstraint, y: TableConstraint)
    ensures SortBy([x, y], d.clauseText) == if Leq(d.clauseText(x), d.clauseText(y)) then [x, y] else [y, x]
  {
    hide Leq;
    assert [y][1..] == [] && SortBy([], d.clauseText) == [];
    assert SortBy([y], d.clauseText) == Insert(y, [], d.clauseText) == [y];
    assert [x, y][1..] == [y];
    assert SortBy([x, y], d.clauseText) == Insert(x, [y], d.clauseText);
    assert Insert(x, [], d.clauseText) == [x];
  }

  lemma FoldTwo(f: Folding, x: TableConstraint, y: TableConstraint)
    ensures FoldClauses(f, [x, y]) == [FoldClause(f, x), FoldClause(f, y)]
  {
    hide FoldClauses, FoldClause;
  }

  lemma Trivia(f: Folding, id: Ident, x: TableConstraint, y: TableConstraint)
    ensures FoldPieces(f, []) == [] && FoldItems(f, []) == []
    ensures FoldIdents(f, [id]) == [FoldIdent(f, id)]
    ensures Clauses([x, y]) == [Clause(x), Clause(y)]
  {
    assert [id][1..] == [];
  }

  lemma ListedTwoKeys(d: Dialect, table: Ident, x: Ident, y: Ident)
    requires d.folding == Lowercase
    ensures Listed(d, TwoKeys(table, x, y).items)
         == if Leq(d.clauseText(Unique(x)), d.clauseText(Unique(y))) then [Unique(Folded(x)), Unique(Folded(y))]
            else [Unique(Folded(y)), Unique(Folded(x))]
  {
    hide *;
    TwoKeyConstraints(d, table, x, y);
    FoldedKey(x);
    FoldedKey(y);
    SortTwo(d, Unique(x), Unique(y));
    FoldTwo(d.folding, Unique(x), Unique(y));
    FoldTwo(d.folding, Unique(y), Unique(x));
    Spell(table, x, y);
    ListedIs(d, TwoKeys(table, x, y).items);
  }

  lemma CanonicalTwoKeys(d: Dialect, table: Ident, x: Ident, y: Ident)
    requires d.folding == Lowercase
    ensures Canonical(d, TwoKeys(table, x, y))
         == if Leq(d.clauseText(Unique(x)), d.clauseText(Unique(y))) then TwoKeys(Folded(table), Folded(x), Folded(y))
            else TwoKeys(Folded(table), Folded(y), Folded(x))
  {
    hide *;
    ListedTwoKeys(d, table, x, y);
    TwoKeyConstraints(d, table, x, y);
    Spell(table, x, y);
    CanonicalItems(d, TwoKeys(table, x, y));
    Trivia(d.folding, table, Unique(Folded(x)), Unique(Folded(y)));
    Trivia(d.folding, table, Unique(Folded(y)), Unique(Folded(x)));
    Spell(Folded(table), Folded(x), Folded(y));
    Spell(Folded(table), Folded(y), Folded(x));
    SpellFold(table);
    assert forall s: seq<Item> :: [] + s == s;
  }

  lemma CoreOfTwoKeys(d: Dialect, table: Ident, x: Ident, y: Ident)
    requires d.folding == Lowercase
    ensures CoreOf(d, TwoKeys(table, x, y))
         == CoreTable([Folded(table)], [], multiset{Unique(Folded(x)), Unique(Folded(y))}, [])
  {
    hide *;
    ListedTwoKeys(d, table, x, y);
    TwoKeyConstraints(d, table, x, y);
    Spell(table, x, y);
    CanonicalItems(d, TwoKeys(table, x, y));
    Trivia(d.folding, table, Unique(x), Unique(y));
    SpellFold(table);
    CoreOfTable(d, TwoKeys(table, x, y));
  }

  lemma Spell(table: Ident, x: Ident, y: Ident)
    ensures TwoKeys(table, x, y) == Create([table], [Clause(Unique(x)), Clause(Unique(y))], [], [])
  {
  }

  lemma SpellFold(id: Ident)
    ensures Folded(id) == FoldIdent(Lowercase, id)
  {
  }

  lemma ListedIs(d: Dialect, items: seq<Item>)
    ensures Listed(d, items) == FoldClauses(d.folding, SortBy(Constraints(items), d.clauseText))
  {
  }

  lemma CoreOfTable(d: Dialect, s: Statement)
    requires s.Create?
    ensures CoreOf(d, s) == CoreTable(FoldIdents(d.folding, s.table), FoldItems(d.folding, Columns(d, s.items)),
                                     Declared(d, s.items), FoldPieces(d.folding, s.options))
  {
  }

  // ----- the dialect -----

  function Small(name: string): Ident {
    Ident(name, false)
  }

  function Quoted(name: string): Ident {
    Ident(name, true)
  }

  /** `t (UNIQUE (B), UNIQUE (a))` and `t (UNIQUE (b), UNIQUE (a))`, as written. */
  function Capital(): Statement {
    TwoKeys(Small("t"), Small("B"), Small("a"))
  }

  function Lowered(): Statement {
    TwoKeys(Small("t"), Small("b"), Small("a"))
  }

  /** The same two, resolved: b before a, and a before b. */
  function BFirst(): Statement {
    TwoKeys(Quoted("t"), Quoted("b"), Quoted("a"))
  }

  function AFirst(): Statement {
    TwoKeys(Quoted("t"), Quoted("a"), Quoted("b"))
  }

  function NameText(id: Ident): string {
    if id.quoted then "\"" + id.name + "\"" else id.name
  }

  function Text(c: TableConstraint): string {
    if c.Constraint? && |c.body| == 3 && c.body[1].Name? then "UNIQUE (" + (NameText(c.body[1].id) + ")") else ""
  }

  /** A dialect whose parser and printer know these four statements. */
  function Four(): Dialect {
    Dialect("", Lowercase,
      s => s == Capital() || s == Lowered() || s == BFirst() || s == AFirst(),
      s => true,
      typ => typ,
      Text,
      s => if s == BFirst() then "1" else if s == AFirst() then "2" else "0")
  }

  lemma FourIs()
    ensures Four().folding == Lowercase && Four().clauseText == Text && Four().backend == ""
    ensures forall s :: Four().parsed(s) <==> s == Capital() || s == Lowered() || s == BFirst() || s == AFirst()
    ensures forall s :: Four().printable(s)
    ensures forall typ :: Four().typeName(typ) == typ
    ensures Four().statementText(BFirst()) == "1"
    ensures AFirst() != BFirst() && Four().statementText(AFirst()) == "2"
  {
    assert AFirst().items[0].constraint.body[1] != BFirst().items[0].constraint.body[1];
  }

  lemma FoldedNames()
    ensures Folded(Small("t")) == Quoted("t") == Folded(Quoted("t"))
    ensures Folded(Small("a")) == Quoted("a") == Folded(Quoted("a"))
    ensures Folded(Small("b")) == Quoted("b") == Folded(Quoted("b")) == Folded(Small("B"))
  {
    assert "B"[1..] == "" && "b"[1..] == "" && "a"[1..] == "" && "t"[1..] == "";
  }

  lemma {:induction false} LeqPrefix(p: string, x: string, y: string)
    ensures Leq(p + x, p + y) <==> Leq(x, y)
  {
    if p == [] {
      assert p + x == x && p + y == y;
    } else {
      assert (p + x)[1..] == p[1..] + x && (p + y)[1..] == p[1..] + y;
      LeqPrefix(p[1..], x, y);
    }
  }

  lemma TextOf(id: Ident)
    ensures Text(Unique(id)) == "UNIQUE (" + (NameText(id) + ")")
  {
  }

  lemma Order(x: Ident, y: Ident)
    requires NameText(x) != [] && NameText(y) != []
    ensures Leq(Text(Unique(x)), Text(Unique(y))) <==> Leq(NameText(x) + ")", NameText(y) + ")")
  {
    hide Text, NameText, Unique, Leq;
    TextOf(x);
    TextOf(y);
    LeqPrefix("UNIQUE (", NameText(x) + ")", NameText(y) + ")");
  }

  lemma TextOrder()
    ensures Leq(Text(Unique(Small("B"))), Text(Unique(Small("a"))))
        && !Leq(Text(Unique(Small("b"))), Text(Unique(Small("a"))))
    ensures !Leq(Text(Unique(Quoted("b"))), Text(Unique(Quoted("a"))))
        && Leq(Text(Unique(Quoted("a"))), Text(Unique(Quoted("b"))))
  {
    hide Text, Unique;
    Order(Small("B"), Small("a"));
    Order(Small("b"), Small("a"));
    Order(Quoted("b"), Quoted("a"));
    Order(Quoted("a"), Quoted("b"));
    LeqPrefix("\"", "b\")", "a\")");
    LeqPrefix("\"", "a\")", "b\")");
    assert NameText(Quoted("b")) + ")" == "\"" + "b\")" && NameText(Quoted("a")) + ")" == "\"" + "a\")";
  }

  lemma Forms()
    ensures Canonical(Four(), Capital()) == BFirst() && Canonical(Four(), Lowered()) == AFirst()
    ensures Canonical(Four(), BFirst()) == AFirst() && Canonical(Four(), AFirst()) == AFirst()
    ensures CoreOf(Four(), Capital()) == CoreOf(Four(), Lowered())
  {
    hide Canonical, CoreOf, Folded, Leq, Text, Unique, Four, TwoKeys, Small, Quoted;
    FourIs();
    FoldedNames();
    TextOrder();
    CanonicalTwoKeys(Four(), Small("t"), Small("B"), Small("a"));
    CanonicalTwoKeys(Four(), Small("t"), Small("b"), Small("a"));
    CanonicalTwoKeys(Four(), Quoted("t"), Quoted("b"), Quoted("a"));
    CanonicalTwoKeys(Four(), Quoted("t"), Quoted("a"), Quoted("b"));
    CoreOfTwoKeys(Four(), Small("t"), Small("B"), Small("a"));
    CoreOfTwoKeys(Four(), Small("t"), Small("b"), Small("a"));
  }

  predicate Known(id: Ident) {
    id == Small("a") || id == Small("b") || id == Small("B") || id == Quoted("a") || id == Quoted("b")
  }

  lemma ConstraintsKnown(table: Ident, x: Ident, y: Ident, c: TableConstraint)
    requires Known(x) && Known(y)
        && c in Constraints(TwoKeys(table, x, y).items) + Listed(Four(), TwoKeys(table, x, y).items)
    ensures exists id :: Known(id) && c == Unique(id)
  {
    hide Folded, Leq, Text, Unique, Four, TwoKeys, Small, Quoted, Constraints, Listed;
    FourIs();
    FoldedNames();
    TwoKeyConstraints(Four(), table, x, y);
    ListedTwoKeys(Four(), table, x, y);
    assert Known(x) && Known(y) && Known(Folded(x)) && Known(Folded(y));
    assert c == Unique(x) || c == Unique(y) || c == Unique(Folded(x)) || c == Unique(Folded(y));
  }

  lemma OccursKnown(c: TableConstraint)
    requires Occurs(Four(), c)
    ensures exists id :: Known(id) && c == Unique(id)
  {
    hide Text, Unique, Four, TwoKeys, Small, Quoted, Constraints, Listed;
    FourIs();
    var s :| Four().parsed(s) && s.Create? && (c in Constraints(s.items) || c in Listed(Four(), s.items));
    if s == Capital() { ConstraintsKnown(Small("t"), Small("B"), Small("a"), c); }
    else if s == Lowered() { ConstraintsKnown(Small("t"), Small("b"), Small("a"), c); }
    else if s == BFirst() { ConstraintsKnown(Quoted("t"), Quoted("b"), Quoted("a"), c); }
    else { ConstraintsKnown(Quoted("t"), Quoted("a"), Quoted("b"), c); }
  }

  lemma TextsDiffer(x: Ident, y: Ident)
    requires Known(x) && Known(y) && Text(Unique(x)) == Text(Unique(y))
    ensures x == y
  {
    hide Text, Unique;
    TextOf(x);
    TextOf(y);
    var u, v := NameText(x) + ")", NameText(y) + ")";
    assert u == Text(Unique(x))[8..] && v == Text(Unique(y))[8..];
    assert |x.name| == |y.name| == 1;
    assert x.quoted <==> |u| == 4;
    assert y.quoted <==> |v| == 4;
    assert u[if x.quoted then 1 else 0] == x.name[0] && v[if y.quoted then 1 else 0] == y.name[0];
    assert x.name == [x.name[0]] && y.name == [y.name[0]];
  }

  lemma KeysOnlyAreRead(d: Dialect, table: Ident, x: Ident, y: Ident)
    ensures Read(d, TwoKeys(table, x, y)) <==> d.parsed(TwoKeys(table, x, y))
  {
    hide Unique;
  }

  lemma FourAreRead()
    ensures Read(Four(), Capital()) && Read(Four(), Lowered()) && Read(Four(), BFirst()) && Read(Four(), AFirst())
  {
    hide Read, Four, TwoKeys, Small, Quoted;
    FourIs();
    KeysOnlyAreRead(Four(), Small("t"), Small("B"), Small("a"));
    KeysOnlyAreRead(Four(), Small("t"), Small("b"), Small("a"));
    KeysOnlyAreRead(Four(), Quoted("t"), Quoted("b"), Quoted("a"));
    KeysOnlyAreRead(Four(), Quoted("t"), Quoted("a"), Quoted("b"));
  }

  lemma FourPrints(s: Statement)
    requires Printed(Four(), s)
    ensures (s == BFirst() || s == AFirst()) && Read(Four(), s) && Four().printable(Canonical(Four(), s))
  {
    hide Canonical, Four, TwoKeys, Supported, Capital, Lowered, AFirst, BFirst;
    FourIs();
    FourAreRead();
    Forms();
  }

  lemma FourIsLawful()
    ensures Lawful(Four())
  {
    hide Canonical, Occurs, Printed, Read, Unique, Text, Four, AFirst, BFirst, Known;
    FourIs();
    forall x, y | Occurs(Four(), x) && Occurs(Four(), y) && Four().clauseText(x) == Four().clauseText(y)
      ensures x == y {
      OccursKnown(x);
      OccursKnown(y);
      var i :| Known(i) && x == Unique(i);
      var j :| Known(j) && y == Unique(j);
      TextsDiffer(i, j);
    }
    forall s | Printed(Four(), s)
      ensures (s == BFirst() || s == AFirst()) && Read(Four(), s) && Four().printable(Canonical(Four(), s))
    {
      FourPrints(s);
    }
    var one, two := Ended(Four(), BFirst()), Ended(Four(), AFirst());
    assert one[0] == '1' && two[0] == '2';
    assert !(one <= two) && !(two <= one);
  }

  /** In a lawful dialect that folds to lower case the two dumps consist of the same parts, and
      the comparison calls them different: capital B sorts before a, and b after it. */
  lemma CaseBreaksTheOrder()
    ensures var d, a, b := Four(), [Capital()], [Lowered()];
            && Lawful(d) && Parsed(d, a) && Parsed(d, b)
            && DumpParts(d, a) == DumpParts(d, b)
            && Normalize(d, a).Some? && Normalize(d, b).Some? && Normalize(d, a) != Normalize(d, b)
  {
    hide Canonical, PartsOf, Lawful, Read, Normalize, DumpParts, CanonicalAll, Four, TwoKeys, AFirst, BFirst, Capital,
      Lowered;
    FourIs();
    FourIsLawful();
    FourAreRead();
    Forms();
    hide CoreOf;
    CoreTells(Four(), Capital(), Lowered());
    OneStatement(Capital());
    OneStatement(Lowered());
    SameFormSameStatements(Four(), [Capital()], [Lowered()]);
    assert multiset([BFirst()])[BFirst()] == 1 && multiset([AFirst()])[BFirst()] == 0;
  }

  lemma OneStatement(s: Statement)
    requires s == Capital() || s == Lowered()
    ensures CanonicalAll(Four(), [s]) == Some([Canonical(Four(), s)]) && Normalize(Four(), [s]).Some?
    ensures DumpParts(Four(), [s]) == multiset{PartsOf(Four(), s)}
  {
    hide Canonical, PartsOf;
    assert !Skipped(s) by { assert |Lower("t")| == 1 by { assert "t"[1..] == ""; } }
    assert Supported(Four(), s);
    hide Skipped, Supported, Four, Capital, Lowered;
    assert [s][1..] == [] && CanonicalAll(Four(), []) == Some([]);
    assert [Canonical(Four(), s)] + [] == [Canonical(Four(), s)];
  }
}
