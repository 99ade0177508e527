/** When two dumps compare as identical: soundness, completeness, what a second pass
    settles, and what one pass does not. */
module ComparatorDecision {
  import opened Ordering
  import opened Comparator
  import opened ComparatorParts
  import opened ComparatorTheorems

  // ----- lists of statements -----

  function Map<S, T>(f: S -> T, xs: seq<S>): (r: seq<T>)
    ensures |r| == |xs|
    ensures forall i :: 0 <= i < |r| ==> r[i] == f(xs[i])
  {
    if xs == [] then [] else [f(xs[0])] + Map(f, xs[1..])
  }

  lemma MapConcat<S, T>(f: S -> T, xs: seq<S>, ys: seq<S>)
    ensures Map(f, xs + ys) == Map(f, xs) + Map(f, ys)
  {
    hide Map;
  }

  lemma MapWithout<S, T>(f: S -> T, xs: seq<S>, i: nat)
    requires i < |xs|
    ensures multiset(Map(f, WithoutIndex(xs, i))) + multiset{f(xs[i])} == multiset(Map(f, xs))
  {
    hide Map;
    var r := Map(f, xs);
    assert Map(f, WithoutIndex(xs, i)) == WithoutIndex(r, i);
    WithoutIndexMultiset(r, i);
  }

  /** If `g` can be told from `f`, lists alike under `f` are alike under `g`. */
  lemma {:induction false} MapsAgree<S(!new), A, B>(f: S -> A, g: S -> B, xs: seq<S>, ys: seq<S>)
    requires forall x, y :: x in xs && y in ys && f(x) == f(y) ==> g(x) == g(y)
    requires multiset(Map(f, xs)) == multiset(Map(f, ys))
    ensures multiset(Map(g, xs)) == multiset(Map(g, ys))
    decreases |xs|
  {
    hide Map;
    assert |xs| == |multiset(Map(f, xs))| == |ys|;
    if xs != [] {
      assert Map(f, xs)[0] in multiset(Map(f, ys));
      var i :| 0 <= i < |ys| && Map(f, ys)[i] == f(xs[0]);
      MapWithout(f, xs, 0);
      MapWithout(f, ys, i);
      assert multiset(Map(f, WithoutIndex(xs, 0))) == multiset(Map(f, xs)) - multiset{f(xs[0])};
      assert multiset(Map(f, WithoutIndex(ys, i))) == multiset(Map(f, ys)) - multiset{f(ys[i])};
      MapsAgree(f, g, WithoutIndex(xs, 0), WithoutIndex(ys, i));
      MapWithout(g, xs, 0);
      MapWithout(g, ys, i);
    } else {
      assert Map(g, xs) == Map(g, ys);
    }
  }

  /** The statements that take part. */
  function Kept(dump: seq<Statement>): (r: seq<Statement>)
    ensures forall s :: s in r ==> s in dump && !Skipped(s)
  {
    if dump == [] then []
    else (if Skipped(dump[0]) then [] else [dump[0]]) + Kept(dump[1..])
  }

  lemma {:induction false} KeptConcat(a: seq<Statement>, b: seq<Statement>)
    ensures Kept(a + b) == Kept(a) + Kept(b)
  {
    if a == [] {
      assert a + b == b;
    } else {
      hide Skipped;
      assert (a + b)[1..] == a[1..] + b;
      KeptConcat(a[1..], b);
    }
  }

  function Form(d: Dialect): Statement -> Statement {
    s => Canonical(d, s)
  }

  function Sense(d: Dialect): Statement -> Parts {
    s => PartsOf(d, s)
  }

  ghost predicate AllSupported(d: Dialect, dump: seq<Statement>) {
    forall s :: s in dump && !Skipped(s) ==> Supported(d, s)
  }

  /** A dump is rejected exactly when one of its statements that take part is. */
  lemma {:induction false} RejectedExactlyWhen(d: Dialect, dump: seq<Statement>)
    ensures Normalize(d, dump).Some? <==> AllSupported(d, dump)
  {
    hide Supported, Skipped, Canonical, Kept;
    if dump != [] {
      RejectedExactlyWhen(d, dump[1..]);
      assert forall s :: s in dump <==> s == dump[0] || s in dump[1..];
    }
  }

  lemma {:induction false} FormsOfKept(d: Dialect, dump: seq<Statement>)
    requires CanonicalAll(d, dump).Some?
    ensures CanonicalAll(d, dump).value == Map(Form(d), Kept(dump))
  {
    hide Supported, Skipped, Canonical;
    if dump != [] && !Skipped(dump[0]) {
      FormsOfKept(d, dump[1..]);
      assert Kept(dump)[1..] == Kept(dump[1..]);
    } else if dump != [] {
      FormsOfKept(d, dump[1..]);
      assert Kept(dump) == Kept(dump[1..]);
    }
  }

  lemma {:induction false} PartsOfKept(d: Dialect, dump: seq<Statement>)
    ensures DumpParts(d, dump) == multiset(Map(Sense(d), Kept(dump)))
  {
    hide Skipped, PartsOf, Map;
    if dump != [] {
      PartsOfKept(d, dump[1..]);
      var rest := Kept(dump[1..]);
      if Skipped(dump[0]) {
        assert Kept(dump) == [] + rest == rest;
      } else {
        assert Kept(dump) == [dump[0]] + rest;
        MapConcat(Sense(d), [dump[0]], rest);
        assert Map(Sense(d), [dump[0]]) == [PartsOf(d, dump[0])];
      }
    }
  }

  lemma SameFormSameKept(d: Dialect, a: seq<Statement>, b: seq<Statement>)
    requires Lawful(d) && Parsed(d, a) && Parsed(d, b) && Normalize(d, a).Some? && Normalize(d, b).Some?
    ensures Normalize(d, a) == Normalize(d, b)
       <==> multiset(Map(Form(d), Kept(a))) == multiset(Map(Form(d), Kept(b)))
  {
    hide Lawful, Kept, Map;
    SameFormSameStatements(d, a, b);
    FormsOfKept(d, a);
    FormsOfKept(d, b);
  }

  // ----- soundness and completeness -----

  ghost predicate SteadyDump(d: Dialect, dump: seq<Statement>) {
    forall s :: s in Kept(dump) ==> Steady(d, s)
  }

  /** Dumps with the same normal form consist of the same statements, as often. */
  lemma SameFormSameParts(d: Dialect, a: seq<Statement>, b: seq<Statement>)
    requires Lawful(d) && Parsed(d, a) && Parsed(d, b) && Normalize(d, a).Some? && Normalize(d, a) == Normalize(d, b)
    ensures DumpParts(d, a) == DumpParts(d, b)
  {
    hide Lawful, Normalize, Canonical, PartsOf, Map, Kept;
    SameFormSameKept(d, a, b);
    PartsOfKept(d, a);
    PartsOfKept(d, b);
    forall s, t | s in Kept(a) && t in Kept(b) && Form(d)(s) == Form(d)(t) ensures Sense(d)(s) == Sense(d)(t) {
      CanonicalGivesParts(d, s, t);
    }
    MapsAgree(Form(d), Sense(d), Kept(a), Kept(b));
  }

  lemma SamePartsSameForm(d: Dialect, a: seq<Statement>, b: seq<Statement>)
    requires Lawful(d) && Parsed(d, a) && Parsed(d, b) && Normalize(d, a).Some? && Normalize(d, b).Some?
    requires SteadyDump(d, a) && SteadyDump(d, b) && DumpParts(d, a) == DumpParts(d, b)
    ensures Normalize(d, a) == Normalize(d, b)
  {
    hide Lawful, Normalize, Canonical, PartsOf, Map, Kept, Steady;
    SameFormSameKept(d, a, b);
    PartsOfKept(d, a);
    PartsOfKept(d, b);
    forall s, t | s in Kept(a) && t in Kept(b) && Sense(d)(s) == Sense(d)(t) ensures Form(d)(s) == Form(d)(t) {
      PartsDetermineCanonical(d, s, t);
    }
    MapsAgree(Sense(d), Form(d), Kept(a), Kept(b));
  }

  /** Where the constraint order is steady the comparison decides sameness of parts. */
  lemma SteadyComparisonDecides(d: Dialect, a: seq<Statement>, b: seq<Statement>)
    requires Lawful(d) && Parsed(d, a) && Parsed(d, b) && Normalize(d, a).Some? && Normalize(d, b).Some?
    requires SteadyDump(d, a) && SteadyDump(d, b)
    ensures Normalize(d, a) == Normalize(d, b) <==> DumpParts(d, a) == DumpParts(d, b)
  {
    hide Lawful, Normalize, DumpParts, SteadyDump;
    if Normalize(d, a) == Normalize(d, b) {
      SameFormSameParts(d, a, b);
    } else if DumpParts(d, a) == DumpParts(d, b) {
      SamePartsSameForm(d, a, b);
    }
  }

  /** What a statement consists of, in the very spelling of its constraints. */
  datatype Spelling =
    | AsTable(path: seq<Ident>, columns: seq<Item>, constraints: multiset<TableConstraint>, options: seq<Piece>)
    | AsStatement(s: Statement)

  function SpellingOf(d: Dialect, s: Statement): Spelling {
    match s
    case Create(table, items, options, _) =>
      AsTable(FoldIdents(d.folding, table), FoldItems(d.folding, Columns(d, items)),
              multiset(Constraints(items)), FoldPieces(d.folding, options))
    case _ => AsStatement(FoldStatement(d.folding, StripComments(s)))
  }

  function Spelt(d: Dialect): Statement -> Spelling {
    s => SpellingOf(d, s)
  }

  lemma SpellingDeterminesForm(d: Dialect, s: Statement, t: Statement)
    requires Lawful(d) && Read(d, s) && Read(d, t) && SpellingOf(d, s) == SpellingOf(d, t)
    ensures Canonical(d, s) == Canonical(d, t)
  {
    if s.Create? && t.Create? {
      CanonicalItems(d, s);
      CanonicalItems(d, t);
      ListedTellApart(d, s);
      hide Lawful;
      SortByPermutation(Constraints(s.items), Constraints(t.items), d.clauseText);
    }
  }

  /** Completeness: neither the order of statements, nor the order of table constraints or
      their place among the columns, nor comments, nor bookkeeping tables, nor whether a bare
      primary key is written on the column change the normal form. */
  lemma SameSpellingSameForm(d: Dialect, a: seq<Statement>, b: seq<Statement>)
    requires Lawful(d) && Parsed(d, a) && Parsed(d, b) && Normalize(d, a).Some? && Normalize(d, b).Some?
    requires multiset(Map(Spelt(d), Kept(a))) == multiset(Map(Spelt(d), Kept(b)))
    ensures Normalize(d, a) == Normalize(d, b)
  {
    hide Lawful, Normalize, Canonical, SpellingOf, Map, Kept;
    SameFormSameKept(d, a, b);
    forall s, t | s in Kept(a) && t in Kept(b) && Spelt(d)(s) == Spelt(d)(t) ensures Form(d)(s) == Form(d)(t) {
      SpellingDeterminesForm(d, s, t);
    }
    MapsAgree(Spelt(d), Form(d), Kept(a), Kept(b));
  }

  /** A bare inline key may move to the table, at any position among the items. */
  lemma InlineKeyMoves(d: Dialect, before: seq<Item>, c: Item, k: nat, after: seq<Item>, front: seq<Item>,
                       back: seq<Item>)
    requires c.Column? && k < |c.constraints| && IsBareKey(c.constraints[k], c.constraints)
    requires front + back == before + [Bare(c, k)] + after
    ensures var moved := front + [Clause(PrimaryKey([c.id]))] + back;
            && Columns(d, moved) == Columns(d, before + [c] + after)
            && multiset(Constraints(moved)) == multiset(Constraints(before + [c] + after))
  {
    hide Columns, Constraints, Bare, IsBareKey;
    var pk, bare := PrimaryKey([c.id]), [Bare(c, k)];
    BareSplits(d, c, k);
    ClauseAlone(d, pk);
    ThreeParts(d, front, [Clause(pk)], back);
    ColumnsConcat(d, front, back);
    ThreeParts(d, before, bare, after);
    ThreeParts(d, before, [c], after);
    Inserted(Constraints(front), pk, Constraints(back));
    Replaced(Constraints(before), Constraints(bare), Constraints([c]), Constraints(after), pk);
    assert Columns(d, front) + [] == Columns(d, front);
  }

  lemma Inserted<T>(a: seq<T>, x: T, b: seq<T>)
    ensures multiset(a + [x] + b) == multiset(a + b) + multiset{x}
  {
  }

  lemma Replaced<T>(a: seq<T>, m: seq<T>, n: seq<T>, b: seq<T>, x: T)
    requires multiset(n) == multiset(m) + multiset{x}
    ensures multiset(a + n + b) == multiset(a + m + b) + multiset{x}
  {
  }

  lemma ClauseAlone(d: Dialect, c: TableConstraint)
    ensures Columns(d, [Clause(c)]) == [] && Constraints([Clause(c)]) == [c]
  {
  }

  lemma ThreeParts(d: Dialect, a: seq<Item>, b: seq<Item>, c: seq<Item>)
    ensures Columns(d, a + b + c) == Columns(d, a) + Columns(d, b) + Columns(d, c)
    ensures Constraints(a + b + c) == Constraints(a) + Constraints(b) + Constraints(c)
  {
    ColumnsConcat(d, a + b, c);
    ColumnsConcat(d, a, b);
  }

  /** The column without its k-th constraint. */
  function Bare(c: Item, k: nat): Item
    requires c.Column? && k < |c.constraints|
  {
    c.(constraints := WithoutIndex(c.constraints, k))
  }

  lemma BareSplits(d: Dialect, c: Item, k: nat)
    requires c.Column? && k < |c.constraints| && IsBareKey(c.constraints[k], c.constraints)
    ensures Columns(d, [Bare(c, k)]) == Columns(d, [c])
    ensures multiset(Constraints([c])) == multiset(Constraints([Bare(c, k)])) + multiset{PrimaryKey([c.id])}
  {
    var cs, less := c.constraints, WithoutIndex(c.constraints, k);
    assert AutoIncrement !in less;
    SameBareKeys(c.id, less, cs, less);
    KeyTakenOut(c.id, cs, k, cs);
    OneColumn(d, c);
    OneColumn(d, Bare(c, k));
  }

  lemma OneColumn(d: Dialect, c: Item)
    requires c.Column?
    ensures Columns(d, [c]) == [KeptColumn(d, c)]
    ensures Constraints([c]) == Hoisted(c.id, c.constraints, c.constraints)
  {
  }

  function Moves(id: Ident, c: ColumnConstraint, all: seq<ColumnConstraint>): seq<TableConstraint> {
    if IsBareKey(c, all) then [PrimaryKey([id])] else []
  }

  lemma HoistedCut(id: Ident, cs: seq<ColumnConstraint>, k: nat, all: seq<ColumnConstraint>)
    requires k < |cs|
    ensures Remaining(cs, all)
         == Remaining(cs[..k], all) + (if IsBareKey(cs[k], all) then [] else [cs[k]]) + Remaining(cs[k + 1..], all)
    ensures Hoisted(id, cs, all) == Hoisted(id, cs[..k], all) + Moves(id, cs[k], all) + Hoisted(id, cs[k + 1..], all)
  {
    OneConstraint(id, cs[k], all);
    hide *;
    assert cs == cs[..k] + [cs[k]] + cs[k + 1..];
    RemainingConcat(cs[..k] + [cs[k]], cs[k + 1..], all);
    RemainingConcat(cs[..k], [cs[k]], all);
    HoistedConcat(id, cs[..k] + [cs[k]], cs[k + 1..], all);
    HoistedConcat(id, cs[..k], [cs[k]], all);
  }

  lemma OneConstraint(id: Ident, c: ColumnConstraint, all: seq<ColumnConstraint>)
    ensures Remaining([c], all) == if IsBareKey(c, all) then [] else [c]
    ensures Hoisted(id, [c], all) == Moves(id, c, all)
  {
    hide IsBareKey;
    assert [c][1..] == [];
  }

  /** Without the k-th constraint, a bare key, the rest is as before and one key fewer moves. */
  lemma KeyTakenOut(id: Ident, cs: seq<ColumnConstraint>, k: nat, all: seq<ColumnConstraint>)
    requires k < |cs| && IsBareKey(cs[k], all)
    ensures Remaining(WithoutIndex(cs, k), all) == Remaining(cs, all)
    ensures multiset(Hoisted(id, cs, all))
        == multiset(Hoisted(id, WithoutIndex(cs, k), all)) + multiset{PrimaryKey([id])}
  {
    HoistedCut(id, cs, k, all);
    RemainingConcat(cs[..k], cs[k + 1..], all);
    HoistedConcat(id, cs[..k], cs[k + 1..], all);
    assert Moves(id, cs[k], all) == [PrimaryKey([id])];
    hide Remaining, Hoisted, IsBareKey, Moves;
    assert Remaining(cs[..k], all) + [] == Remaining(cs[..k], all);
    Inserted(Hoisted(id, cs[..k], all), PrimaryKey([id]), Hoisted(id, cs[k + 1..], all));
  }

  lemma {:induction false} SameBareKeys(id: Ident, cs: seq<ColumnConstraint>, all: seq<ColumnConstraint>,
                                        all': seq<ColumnConstraint>)
    requires AutoIncrement in all <==> AutoIncrement in all'
    ensures Remaining(cs, all) == Remaining(cs, all') && Hoisted(id, cs, all) == Hoisted(id, cs, all')
  {
    if cs != [] { SameBareKeys(id, cs[1..], all, all'); }
  }

  // ----- the name of an inline key -----

  function UnnamedConstraints(cs: seq<ColumnConstraint>, all: seq<ColumnConstraint>): (r: seq<ColumnConstraint>)
    ensures |r| == |cs|
  {
    if cs == [] then []
    else [if IsBareKey(cs[0], all) then InlineKey(None, []) else cs[0]] + UnnamedConstraints(cs[1..], all)
  }

  /** The items with the names of their bare inline keys left out. */
  function Unnamed(items: seq<Item>): (r: seq<Item>)
    ensures |r| == |items|
  {
    if items == [] then []
    else [if items[0].Column? then items[0].(constraints := UnnamedConstraints(items[0].constraints,
                                                                               items[0].constraints))
          else items[0]] + Unnamed(items[1..])
  }

  lemma {:induction false} UnnamedConstraintsSame(id: Ident, cs: seq<ColumnConstraint>, all: seq<ColumnConstraint>,
                                                  all': seq<ColumnConstraint>)
    requires AutoIncrement in all <==> AutoIncrement in all'
    ensures Remaining(UnnamedConstraints(cs, all), all') == Remaining(cs, all)
    ensures Hoisted(id, UnnamedConstraints(cs, all), all') == Hoisted(id, cs, all)
  {
    if cs != [] {
      UnnamedConstraintsSame(id, cs[1..], all, all');
      assert UnnamedConstraints(cs, all)[1..] == UnnamedConstraints(cs[1..], all);
    }
  }

  lemma {:induction false} UnnamedKeepsAutoIncrement(cs: seq<ColumnConstraint>, all: seq<ColumnConstraint>)
    ensures AutoIncrement in UnnamedConstraints(cs, all) <==> AutoIncrement in cs
  {
    if cs != [] { UnnamedKeepsAutoIncrement(cs[1..], all); }
  }

  lemma {:induction false} UnnamedSame(d: Dialect, items: seq<Item>)
    ensures Columns(d, Unnamed(items)) == Columns(d, items)
    ensures Constraints(Unnamed(items)) == Constraints(items)
  {
    if items != [] {
      UnnamedSame(d, items[1..]);
      assert Unnamed(items)[1..] == Unnamed(items[1..]);
      if items[0].Column? {
        var cs := items[0].constraints;
        UnnamedKeepsAutoIncrement(cs, cs);
        UnnamedConstraintsSame(items[0].id, cs, cs, UnnamedConstraints(cs, cs));
      }
    }
  }

  /** The comparison never sees the name given to a bare inline PRIMARY KEY: the table with
      the names left out has the same canonical form. It is another table exactly when some
      such key has a name. */
  lemma InlineKeyNameIsLost(d: Dialect, s: Statement)
    requires s.Create?
    ensures Canonical(d, s.(items := Unnamed(s.items))) == Canonical(d, s)
    ensures Unnamed(s.items) != s.items <==> NamesAnInlineKey(s.items)
  {
    UnnamedSame(d, s.items);
    UnnamedDiffers(s.items);
  }

  predicate NamesAnInlineKey(items: seq<Item>) {
    exists i :: 0 <= i < |items| && items[i].Column? && NamesAKey(items[i].constraints, items[i].constraints)
  }

  predicate NamesAKey(cs: seq<ColumnConstraint>, all: seq<ColumnConstraint>) {
    exists k :: 0 <= k < |cs| && IsBareKey(cs[k], all) && cs[k].name.Some?
  }

  lemma {:induction false} UnnamedAt(cs: seq<ColumnConstraint>, all: seq<ColumnConstraint>, k: nat)
    requires k < |cs|
    ensures UnnamedConstraints(cs, all)[k] == if IsBareKey(cs[k], all) then InlineKey(None, []) else cs[k]
  {
    if k > 0 { UnnamedAt(cs[1..], all, k - 1); }
  }

  lemma {:induction false} UnnamedItemAt(items: seq<Item>, i: nat)
    requires i < |items|
    ensures Unnamed(items)[i] == if items[i].Column?
                                 then items[i].(constraints := UnnamedConstraints(items[i].constraints,
                                     items[i].constraints))
                                 else items[i]
  {
    if i > 0 { UnnamedItemAt(items[1..], i - 1); }
  }

  lemma UnnamedConstraintsDiffer(cs: seq<ColumnConstraint>, all: seq<ColumnConstraint>)
    ensures UnnamedConstraints(cs, all) != cs <==> NamesAKey(cs, all)
  {
    forall k | 0 <= k < |cs|
      ensures UnnamedConstraints(cs, all)[k] == if IsBareKey(cs[k], all) then InlineKey(None, []) else cs[k]
    {
      UnnamedAt(cs, all, k);
    }
  }

  lemma UnnamedDiffers(items: seq<Item>)
    ensures Unnamed(items) != items <==> NamesAnInlineKey(items)
  {
    forall i | 0 <= i < |items|
      ensures Unnamed(items)[i] != items[i]
          <==> items[i].Column? && NamesAKey(items[i].constraints, items[i].constraints)
    {
      UnnamedItemAt(items, i);
      if items[i].Column? { UnnamedConstraintsDiffer(items[i].constraints, items[i].constraints); }
    }
  }
}
