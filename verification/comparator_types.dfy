/** What one statement, and the type of one column, decide about a whole comparison. */
module ComparatorTypes {
  import opened Ordering
  import opened Comparator
  import opened ComparatorParts
  import opened ComparatorTheorems
  import opened ComparatorDecision

  lemma KeptAround(a: seq<Statement>, s: Statement, b: seq<Statement>)
    requires !Skipped(s)
    ensures Kept(a + [s] + b) == Kept(a) + [s] + Kept(b)
  {
    KeptConcat(a + [s], b);
    KeptConcat(a, [s]);
    assert [s][1..] == [];
    assert Kept([s]) == [s];
  }

  lemma FormsAround(d: Dialect, a: seq<Statement>, s: Statement, b: seq<Statement>)
    requires !Skipped(s)
    ensures multiset(Map(Form(d), Kept(a + [s] + b)))
         == multiset{Canonical(d, s)} + (multiset(Map(Form(d), Kept(a))) + multiset(Map(Form(d), Kept(b))))
  {
    hide *;
    KeptAround(a, s, b);
    MapConcat(Form(d), Kept(a) + [s], Kept(b));
    MapConcat(Form(d), Kept(a), [s]);
    OneForm(d, s);
    var x, y, one := Map(Form(d), Kept(a)), Map(Form(d), Kept(b)), [Canonical(d, s)];
    assert multiset(x + one + y) == multiset(one) + (multiset(x) + multiset(y));
  }

  lemma OneForm(d: Dialect, s: Statement)
    ensures Map(Form(d), [s]) == [Canonical(d, s)]
  {
    hide Canonical;
  }

  /** Two dumps that differ in one statement have one normal form exactly when the two
      statements have one canonical form. */
  lemma StatementDecides(d: Dialect, before: seq<Statement>, s: Statement, t: Statement, after: seq<Statement>)
    requires Lawful(d) && !Skipped(s) && !Skipped(t)
    requires Parsed(d, before + [s] + after) && Parsed(d, before + [t] + after)
    requires Normalize(d, before + [s] + after).Some? && Normalize(d, before + [t] + after).Some?
    ensures Normalize(d, before + [s] + after) == Normalize(d, before + [t] + after)
        <==> Canonical(d, s) == Canonical(d, t)
  {
    hide Lawful, Parsed, Normalize, Skipped, Kept, Map, Canonical;
    SameFormSameKept(d, before + [s] + after, before + [t] + after);
    FormsAround(d, before, s, after);
    FormsAround(d, before, t, after);
    var rest := multiset(Map(Form(d), Kept(before))) + multiset(Map(Form(d), Kept(after)));
    OneMore(Canonical(d, s), Canonical(d, t), rest);
  }

  lemma OneMore<T>(x: T, y: T, rest: multiset<T>)
    ensures multiset{x} + rest == multiset{y} + rest <==> x == y
  {
    var a, b := multiset{x} + rest, multiset{y} + rest;
    assert a[x] == rest[x] + 1;
    assert x != y ==> b[x] == rest[x];
  }

  /** The table with another type for its i-th entry, a column. */
  function Retyped(s: Statement, i: nat, typ: Option<string>): Statement
    requires s.Create? && i < |s.items| && s.items[i].Column?
  {
    s.(items := s.items[i := s.items[i].(typ := typ)])
  }

  lemma Around(items: seq<Item>, i: nat)
    requires i < |items|
    ensures items == items[..i] + [items[i]] + items[i + 1..]
  {
  }

  lemma ColumnsAround(d: Dialect, a: seq<Item>, c: Item, b: seq<Item>)
    requires c.Column?
    ensures FoldItems(d.folding, Columns(d, a + [c] + b))
         == FoldItems(d.folding, Columns(d, a)) + [CoreColumn(d, c)] + FoldItems(d.folding, Columns(d, b))
    ensures Constraints(a + [c] + b) == Constraints(a) + Hoisted(c.id, c.constraints, c.constraints) + Constraints(b)
  {
    hide Columns, Constraints, FoldItem, KeptColumn, Hoisted;
    ThreeParts(d, a, [c], b);
    OneColumn(d, c);
    FoldItemsConcat(d.folding, Columns(d, a) + Columns(d, [c]), Columns(d, b));
    FoldItemsConcat(d.folding, Columns(d, a), Columns(d, [c]));
    hide FoldItems;
    assert FoldItems(d.folding, [KeptColumn(d, c)]) == [FoldItem(d.folding, KeptColumn(d, c))];
  }

  lemma SameColumnTypes(d: Dialect, c: Item, x: Option<string>, y: Option<string>)
    requires Lawful(d) && c.Column?
    ensures CoreColumn(d, c.(typ := x)) == CoreColumn(d, c.(typ := y)) <==> TypeOf(d, x) == TypeOf(d, y)
  {
    hide Lawful, PrintedType, TypeOf, FoldIdent, FoldInlines, Remaining;
    PrintedTypeTells(d, x, y);
  }

  lemma RetypedForms(d: Dialect, s: Statement, i: nat, x: Option<string>, y: Option<string>)
    requires Lawful(d) && s.Create? && i < |s.items| && s.items[i].Column?
    ensures Canonical(d, Retyped(s, i, x)) == Canonical(d, Retyped(s, i, y)) <==> TypeOf(d, x) == TypeOf(d, y)
  {
    hide Lawful, TypeOf, Canonical, FoldIdents, FoldPieces, FoldItems, Columns, Constraints, Declared, CoreColumn,
      Listed;
    var p, q, c := Retyped(s, i, x), Retyped(s, i, y), s.items[i];
    var a, b := s.items[..i], s.items[i + 1..];
    var cx, cy := c.(typ := x), c.(typ := y);
    assert p.items == a + [cx] + b && q.items == a + [cy] + b;
    ColumnsAround(d, a, cx, b);
    ColumnsAround(d, a, cy, b);
    CanonicalItems(d, p);
    CanonicalItems(d, q);
    SameListed(d, p.items, q.items);
    SameColumnTypes(d, c, x, y);
    var k, listed := |FoldItems(d.folding, Columns(d, a))|, Clauses(Listed(d, p.items));
    if TypeOf(d, x) != TypeOf(d, y) {
      assert Canonical(d, p).items[k] == CoreColumn(d, cx) && Canonical(d, q).items[k] == CoreColumn(d, cy);
    }
  }

  lemma SameListed(d: Dialect, a: seq<Item>, b: seq<Item>)
    requires Constraints(a) == Constraints(b)
    ensures Listed(d, a) == Listed(d, b)
  {
  }

  /** Two dumps that differ in the type of one column have one normal form exactly when the
      types are the same: the dialect gives them one name and, for SQLite types whose name
      starts with INTEGER, they are spelled alike but for case. */
  lemma TypeDecides(d: Dialect, before: seq<Statement>, s: Statement, i: nat, x: string, y: string,
                    after: seq<Statement>)
    requires Lawful(d) && s.Create? && i < |s.items| && s.items[i].Column? && !Skipped(s)
    requires var a, b := before + [Retyped(s, i, Some(x))] + after, before + [Retyped(s, i, Some(y))] + after;
             Parsed(d, a) && Parsed(d, b) && Normalize(d, a).Some? && Normalize(d, b).Some?
    ensures Normalize(d, before + [Retyped(s, i, Some(x))] + after)
        == Normalize(d, before + [Retyped(s, i, Some(y))] + after)
       <==> SameType(d, x, y)
  {
    hide Lawful, Parsed, Normalize, Canonical, SameType, IsBookkeeping, TypeOf;
    var p, q := Retyped(s, i, Some(x)), Retyped(s, i, Some(y));
    StatementDecides(d, before, p, q, after);
    RetypedForms(d, s, i, Some(x), Some(y));
    SameTypeExactlyWhen(d, x, y);
  }
}
