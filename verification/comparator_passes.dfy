/** Normalising the normal form: the constraints are sorted before their identifiers are
    folded, so one pass does not always settle the order; two passes do. */
module ComparatorPasses {
  import opened Ordering
  import opened Comparator
  import opened ComparatorParts
  import opened ComparatorTheorems
  import opened ComparatorDecision

  /** The statements a parser reads in the normal form of the dump. */
  function Reparsed(d: Dialect, dump: seq<Statement>): seq<Statement>
    requires Normalize(d, dump).Some?
  {
    Arranged(d, CanonicalAll(d, dump).value)
  }

  // ----- folding twice is folding once -----

  lemma {:induction false} LowerTwice(s: string)
    ensures Lower(Lower(s)) == Lower(s) && Lower(Upper(s)) == Lower(s) && Upper(Upper(s)) == Upper(s)
  {
    if s != [] { LowerTwice(s[1..]); }
  }

  lemma FoldIdentTwice(f: Folding, id: Ident)
    ensures FoldIdent(f, FoldIdent(f, id)) == FoldIdent(f, id)
    ensures Lower(FoldIdent(f, id).name) == Lower(id.name)
  {
    LowerTwice(id.name);
  }

  lemma {:induction false} FoldIdentsTwice(f: Folding, ids: seq<Ident>)
    ensures FoldIdents(f, FoldIdents(f, ids)) == FoldIdents(f, ids)
  {
    if ids != [] {
      FoldIdentTwice(f, ids[0]);
      FoldIdentsTwice(f, ids[1..]);
    }
  }

  lemma {:induction false} FoldPiecesTwice(f: Folding, pieces: seq<Piece>)
    ensures FoldPieces(f, FoldPieces(f, pieces)) == FoldPieces(f, pieces)
  {
    if pieces != [] {
      if pieces[0].Name? { FoldIdentTwice(f, pieces[0].id); }
      FoldPiecesTwice(f, pieces[1..]);
    }
  }

  lemma FoldClauseTwice(f: Folding, c: TableConstraint)
    ensures FoldClause(f, FoldClause(f, c)) == FoldClause(f, c)
  {
    match c
    case PrimaryKey(columns) => FoldIdentsTwice(f, columns);
    case Constraint(body) => FoldPiecesTwice(f, body);
    case BareName(id) => FoldIdentTwice(f, id);
  }

  lemma FoldInlineTwice(f: Folding, c: ColumnConstraint)
    ensures FoldInline(f, FoldInline(f, c)) == FoldInline(f, c)
    ensures c.InlineKey? ==> (FoldInline(f, c).modifiers == [] <==> c.modifiers == [])
  {
    match c
    case InlineKey(name, modifiers) =>
      if name.Some? { FoldIdentTwice(f, name.value); }
      FoldPiecesTwice(f, modifiers);
    case Inline(body) => FoldPiecesTwice(f, body);
    case AutoIncrement =>
  }

  lemma {:induction false} FoldInlinesTwice(f: Folding, cs: seq<ColumnConstraint>)
    ensures FoldInlines(f, FoldInlines(f, cs)) == FoldInlines(f, cs)
  {
    if cs != [] {
      FoldInlineTwice(f, cs[0]);
      FoldInlinesTwice(f, cs[1..]);
    }
  }

  lemma FoldTargetTwice(f: Folding, t: Option<seq<Ident>>)
    ensures FoldTarget(f, FoldTarget(f, t)) == FoldTarget(f, t)
  {
    if t.Some? { FoldIdentsTwice(f, t.value); }
  }

  lemma {:induction false} FoldedLast(f: Folding, path: seq<Ident>)
    requires path != []
    ensures FoldIdents(f, path)[|path| - 1] == FoldIdent(f, path[|path| - 1])
  {
    if |path| > 1 { FoldedLast(f, path[1..]); }
  }

  lemma BookkeepingSurvivesFolding(f: Folding, path: seq<Ident>)
    ensures IsBookkeeping(FoldIdents(f, path)) <==> IsBookkeeping(path)
  {
    if path != [] {
      FoldedLast(f, path);
      FoldIdentTwice(f, path[|path| - 1]);
    }
  }

  // ----- a kept column is kept as it is -----

  lemma PrintedTypeTwice(d: Dialect, typ: Option<string>)
    requires Lawful(d)
    ensures PrintedType(d, PrintedType(d, typ)) == PrintedType(d, typ)
  {
    if typ.Some? {
      LowerTwice(typ.value);
      assert IsSqliteInteger(d, typ.value) ==> d.typeName(Upper(typ.value)) == d.typeName(typ.value);
    }
  }

  /** What `Remaining` leaves holds no bare key. */
  lemma {:induction false} NoBareKeyRemains(f: Folding, cs: seq<ColumnConstraint>, all: seq<ColumnConstraint>,
                                            left: seq<ColumnConstraint>)
    requires AutoIncrement in all <==> AutoIncrement in left
    ensures var r := FoldInlines(f, Remaining(cs, all));
            Remaining(r, left) == r && forall id :: Hoisted(id, r, left) == []
  {
    if cs != [] {
      NoBareKeyRemains(f, cs[1..], all, left);
      if !IsBareKey(cs[0], all) {
        FoldInlineTwice(f, cs[0]);
        var rest := Remaining(cs[1..], all);
        assert Remaining(cs, all) == [cs[0]] + rest;
        assert FoldInlines(f, Remaining(cs, all)) == [FoldInline(f, cs[0])] + FoldInlines(f, rest);
      } else {
        assert Remaining(cs, all) == Remaining(cs[1..], all);
      }
    }
  }

  lemma {:induction false} AutoIncrementStays(f: Folding, cs: seq<ColumnConstraint>, all: seq<ColumnConstraint>)
    ensures AutoIncrement in FoldInlines(f, Remaining(cs, all)) <==> AutoIncrement in cs
  {
    if cs != [] {
      AutoIncrementStays(f, cs[1..], all);
      if !IsBareKey(cs[0], all) {
        assert Remaining(cs, all)[1..] == Remaining(cs[1..], all);
      } else {
        assert Remaining(cs, all) == Remaining(cs[1..], all);
      }
    }
  }

  lemma KeptColumnTwice(d: Dialect, c: Item)
    requires Lawful(d) && c.Column?
    ensures var k := FoldItem(d.folding, KeptColumn(d, c));
            && k.Column? && (Spelled(d, c) ==> Spelled(d, k))
            && KeptColumn(d, k) == k && FoldItem(d.folding, k) == k
            && Hoisted(k.id, k.constraints, k.constraints) == []
  {
    hide Lawful;
    var f, left := d.folding, FoldInlines(d.folding, Remaining(c.constraints, c.constraints));
    FoldIdentTwice(f, c.id);
    PrintedTypeTwice(d, c.typ);
    FoldInlinesTwice(f, Remaining(c.constraints, c.constraints));
    AutoIncrementStays(f, c.constraints, c.constraints);
    NoBareKeyRemains(f, c.constraints, c.constraints, left);
  }

  lemma {:induction false} ColumnsTwice(d: Dialect, items: seq<Item>)
    requires Lawful(d)
    ensures var r := FoldItems(d.folding, Columns(d, items));
            && Columns(d, r) == r && FoldItems(d.folding, r) == r && Constraints(r) == []
            && (forall i :: 0 <= i < |r| ==> r[i].Column?)
            && ((forall item :: item in items ==> Spelled(d, item)) ==> forall i :: 0 <= i < |r| ==> Spelled(d, r[i]))
  {
    hide Lawful, KeptColumn, FoldItem, Hoisted, Spelled;
    if items != [] {
      assert items[0] in items && forall item :: item in items[1..] ==> item in items;
      ColumnsTwice(d, items[1..]);
      var rest := FoldItems(d.folding, Columns(d, items[1..]));
      if items[0].Column? {
        KeptColumnTwice(d, items[0]);
        var k := FoldItem(d.folding, KeptColumn(d, items[0]));
        var r := FoldItems(d.folding, Columns(d, items));
        assert Columns(d, items) == [KeptColumn(d, items[0])] + Columns(d, items[1..]);
        assert r == [k] + rest && r[1..] == rest;
      } else {
        assert Columns(d, items) == Columns(d, items[1..]);
      }
    }
  }

  lemma {:induction false} ClausesOnly(d: Dialect, cs: seq<TableConstraint>)
    ensures Columns(d, Clauses(cs)) == [] && Constraints(Clauses(cs)) == cs
  {
    if cs != [] { ClausesOnly(d, cs[1..]); }
  }

  lemma {:induction false} FoldedClausesStay(f: Folding, cs: seq<TableConstraint>)
    requires forall i :: 0 <= i < |cs| ==> FoldClause(f, cs[i]) == cs[i]
    ensures FoldClauses(f, cs) == cs
  {
  }

  lemma ItemsTakenApart(d: Dialect, items: seq<Item>, listed: seq<TableConstraint>)
    requires Lawful(d)
    ensures var columns := FoldItems(d.folding, Columns(d, items));
            var all := columns + Clauses(listed);
            && Columns(d, all) == columns && FoldItems(d.folding, columns) == columns
            && Constraints(all) == listed
            && ((forall item :: item in items ==> Spelled(d, item)) ==> forall item :: item in all ==> Spelled(d, item))
  {
    hide Lawful, Columns, Constraints, FoldItems, Clauses, IsSqliteInteger;
    var columns := FoldItems(d.folding, Columns(d, items));
    ColumnsTwice(d, items);
    ClausesOnly(d, listed);
    ColumnsConcat(d, columns, Clauses(listed));
    assert columns + [] == columns && [] + listed == listed;
  }

  lemma SortedListedStays(d: Dialect, items: seq<Item>)
    ensures FoldClauses(d.folding, SortBy(Listed(d, items), d.clauseText)) == SortBy(Listed(d, items), d.clauseText)
  {
    hide FoldClauses, FoldClause, SortBy;
    var listed := Listed(d, items);
    var sorted := SortBy(listed, d.clauseText);
    FoldedStay(d, SortBy(Constraints(items), d.clauseText));
    forall i | 0 <= i < |sorted| ensures FoldClause(d.folding, sorted[i]) == sorted[i] {
      assert sorted[i] in multiset(sorted);
      assert sorted[i] in listed;
    }
    FoldedClausesStay(d.folding, sorted);
  }

  /** The items of a canonical table, taken apart again. */
  lemma CanonicalTakenApart(d: Dialect, s: Statement)
    requires Lawful(d) && s.Create?
    ensures var c := Canonical(d, s);
            && c.Create?
            && FoldItems(d.folding, Columns(d, c.items)) == FoldItems(d.folding, Columns(d, s.items))
            && Constraints(c.items) == Listed(d, s.items)
            && Listed(d, c.items) == SortBy(Listed(d, s.items), d.clauseText)
            && (Readable(d, s) ==> Readable(d, c))
  {
    hide Lawful, Spelled, Listed, Canonical;
    CanonicalItems(d, s);
    ItemsTakenApart(d, s.items, Listed(d, s.items));
    SortedListedStays(d, s.items);
    assert Listed(d, Canonical(d, s).items) == SortBy(Listed(d, s.items), d.clauseText) by {
      ListedUnfold(d, Canonical(d, s).items);
    }
  }

  lemma ListedUnfold(d: Dialect, items: seq<Item>)
    ensures Listed(d, items) == FoldClauses(d.folding, SortBy(Constraints(items), d.clauseText))
  {
  }

  lemma FoldedStay(d: Dialect, cs: seq<TableConstraint>)
    ensures forall x :: x in FoldClauses(d.folding, cs) ==> FoldClause(d.folding, x) == x
  {
    forall x | x in FoldClauses(d.folding, cs) ensures FoldClause(d.folding, x) == x {
      var i :| 0 <= i < |cs| && FoldClauses(d.folding, cs)[i] == x;
      FoldClauseTwice(d.folding, cs[i]);
    }
  }

  /** A canonical statement takes part, is supported, is steady, and has the parts of the
      statement it came from. */
  lemma CanonicalIsSettled(d: Dialect, s: Statement)
    requires Lawful(d) && Read(d, s) && !Skipped(s) && Supported(d, s)
    ensures var c := Canonical(d, s);
            && !Skipped(c) && Read(d, c) && Supported(d, c) && Steady(d, c)
            && PartsOf(d, c) == PartsOf(d, s)
  {
    var c := Canonical(d, s);
    assert Printed(d, c);
    CanonicalReads(d, s);
    CoreTells(d, c, s);
    assert Read(d, c) && d.printable(Canonical(d, c)) by {
      hide Canonical, Occurs, Printed, IsSqliteInteger, PartsOf, CoreOf;
    }
  }

  lemma CanonicalReads(d: Dialect, s: Statement)
    requires Lawful(d) && !Skipped(s) && Readable(d, s)
    ensures var c := Canonical(d, s);
            && !Skipped(c) && Readable(d, c) && Steady(d, c)
            && CoreOf(d, c) == CoreOf(d, s)
  {
    hide Lawful;
    var f, c := d.folding, Canonical(d, s);
    match s
    case Create(table, items, options, _) =>
      BookkeepingSurvivesFolding(f, table);
      CanonicalTakenApart(d, s);
      CanonicalItems(d, s);
      CanonicalItems(d, c);
      SortBySorted(Listed(d, items), d.clauseText);
      FoldIdentsTwice(f, table);
      FoldPiecesTwice(f, options);
    case Index(on, body, _) =>
      if on.Some? { BookkeepingSurvivesFolding(f, on.value); }
      FoldTargetTwice(f, on);
      FoldPiecesTwice(f, body);
    case Other(target, body, _) =>
      if target.Some? { BookkeepingSurvivesFolding(f, target.value); }
      FoldTargetTwice(f, target);
      FoldPiecesTwice(f, body);
  }

  // ----- whole dumps -----

  lemma {:induction false} AllKept(dump: seq<Statement>)
    requires forall s :: s in dump ==> !Skipped(s)
    ensures Kept(dump) == dump
  {
    if dump != [] { AllKept(dump[1..]); }
  }

  function Same(): Statement -> Statement {
    s => s
  }

  lemma ReparsedAre(d: Dialect, dump: seq<Statement>)
    requires Normalize(d, dump).Some?
    ensures multiset(Reparsed(d, dump)) == multiset(Map(Form(d), Kept(dump)))
    ensures forall c :: c in Reparsed(d, dump) ==> exists s :: s in Kept(dump) && c == Canonical(d, s)
  {
    var r, forms := Reparsed(d, dump), Map(Form(d), Kept(dump));
    FormsOfKept(d, dump);
    hide Normalize, Canonical, Arranged, Kept, Map;
    forall c | c in r ensures exists s :: s in Kept(dump) && c == Canonical(d, s) {
      assert c in multiset(r);
      assert c in multiset(forms);
      var i :| 0 <= i < |forms| && forms[i] == c;
      assert Kept(dump)[i] in Kept(dump);
    }
  }

  lemma ReparsedParts(d: Dialect, dump: seq<Statement>)
    requires Lawful(d) && Parsed(d, dump) && Normalize(d, dump).Some?
    ensures multiset(Map(Sense(d), Reparsed(d, dump))) == multiset(Map(Sense(d), Kept(dump)))
  {
    var r, forms := Reparsed(d, dump), Map(Form(d), Kept(dump));
    ReparsedAre(d, dump);
    CanonicalOfNormalize(d, dump);
    hide Lawful, Normalize, Canonical, PartsOf, Arranged, Kept, Map, Skipped, Supported, Reparsed;
    forall i | 0 <= i < |forms| ensures Map(Sense(d), forms)[i] == Map(Sense(d), Kept(dump))[i] {
      CanonicalIsSettled(d, Kept(dump)[i]);
    }
    assert Map(Sense(d), forms) == Map(Sense(d), Kept(dump));
    assert Map(Same(), r) == r && Map(Same(), forms) == forms;
    MapsAgree(Same(), Sense(d), r, forms);
  }

  lemma ReparsedSteady(d: Dialect, dump: seq<Statement>)
    requires Lawful(d) && Parsed(d, dump) && Normalize(d, dump).Some?
    ensures forall c :: c in Reparsed(d, dump) ==> Read(d, c) && !Skipped(c) && Supported(d, c) && Steady(d, c)
  {
    ReparsedAre(d, dump);
    CanonicalOfNormalize(d, dump);
    hide Lawful, Normalize, Canonical, PartsOf, Kept, Skipped, Supported, Reparsed, Steady;
    forall c | c in Reparsed(d, dump) ensures Read(d, c) && !Skipped(c) && Supported(d, c) && Steady(d, c) {
      var s :| s in Kept(dump) && c == Canonical(d, s);
      CanonicalIsSettled(d, s);
    }
  }

  /** The normal form can be read again, its order is steady, and it means what the dump
      means. */
  lemma ReparsedIsSettled(d: Dialect, dump: seq<Statement>)
    requires Lawful(d) && Parsed(d, dump) && Normalize(d, dump).Some?
    ensures Parsed(d, Reparsed(d, dump)) && Normalize(d, Reparsed(d, dump)).Some?
    ensures SteadyDump(d, Reparsed(d, dump))
    ensures DumpParts(d, Reparsed(d, dump)) == DumpParts(d, dump)
    ensures Kept(Reparsed(d, dump)) == Reparsed(d, dump)
  {
    hide Lawful, Normalize, Steady, Supported, Skipped, Map, Reparsed;
    var r := Reparsed(d, dump);
    ReparsedSteady(d, dump);
    AllKept(r);
    RejectedExactlyWhen(d, r);
    ReparsedParts(d, dump);
    PartsOfKept(d, r);
    PartsOfKept(d, dump);
  }

  lemma CanonicalOfNormalize(d: Dialect, dump: seq<Statement>)
    requires Normalize(d, dump).Some?
    ensures CanonicalAll(d, dump).Some? && forall s :: s in Kept(dump) ==> !Skipped(s) && Supported(d, s)
  {
    RejectedExactlyWhen(d, dump);
  }

  /** Two passes decide: for all dumps that can be normalised, the second normal forms are
      equal exactly when the dumps consist of the same parts. */
  lemma TwoPassesDecide(d: Dialect, a: seq<Statement>, b: seq<Statement>)
    requires Lawful(d) && Parsed(d, a) && Parsed(d, b) && Normalize(d, a).Some? && Normalize(d, b).Some?
    ensures Normalize(d, Reparsed(d, a)).Some? && Normalize(d, Reparsed(d, b)).Some?
    ensures Normalize(d, Reparsed(d, a)) == Normalize(d, Reparsed(d, b)) <==> DumpParts(d, a) == DumpParts(d, b)
  {
    hide Lawful, Normalize, DumpParts, SteadyDump, Reparsed, Parsed;
    ReparsedIsSettled(d, a);
    ReparsedIsSettled(d, b);
    SteadyComparisonDecides(d, Reparsed(d, a), Reparsed(d, b));
  }

  /** The second normal form is a fixed point. */
  lemma ThirdPassChangesNothing(d: Dialect, dump: seq<Statement>)
    requires Lawful(d) && Parsed(d, dump) && Normalize(d, dump).Some?
    ensures Normalize(d, Reparsed(d, dump)).Some?
    ensures Normalize(d, Reparsed(d, Reparsed(d, dump))) == Normalize(d, Reparsed(d, dump))
  {
    hide Lawful, Normalize, DumpParts, SteadyDump, Reparsed, Parsed;
    ReparsedIsSettled(d, dump);
    var r := Reparsed(d, dump);
    ReparsedIsSettled(d, r);
    SteadyComparisonDecides(d, Reparsed(d, r), r);
  }

  lemma MapShares<S, T(!new)>(f: S -> T, xs: seq<S>, ys: seq<S>, k: nat) returns (i: nat)
    requires multiset(Map(f, xs)) == multiset(Map(f, ys)) && k < |ys|
    ensures i < |xs| && f(xs[i]) == f(ys[k])
  {
    assert Map(f, ys)[k] in multiset(Map(f, xs));
    i :| 0 <= i < |xs| && Map(f, xs)[i] == f(ys[k]);
  }

  lemma SettledWasSteady(d: Dialect, dump: seq<Statement>)
    requires Lawful(d) && Parsed(d, dump) && Normalize(d, dump).Some?
    requires Normalize(d, Reparsed(d, dump)) == Normalize(d, dump)
    ensures SteadyDump(d, dump)
  {
    hide Lawful, Normalize, Canonical, DumpParts, Steady, Kept, Map, Reparsed;
    var r := Reparsed(d, dump);
    ReparsedIsSettled(d, dump);
    SameFormSameKept(d, r, dump);
    forall s | s in Kept(dump) ensures Steady(d, s) {
      var k :| 0 <= k < |Kept(dump)| && Kept(dump)[k] == s;
      var j := MapShares(Form(d), Kept(r), Kept(dump), k);
      assert Kept(r)[j] in Kept(r);
      SteadyLikeTheOther(d, Kept(r)[j], s);
    }
  }

  /** One pass is already a fixed point exactly when, in every table, the constraints sort
      the same before and after folding. */
  lemma OnePassSettlesExactlyWhen(d: Dialect, dump: seq<Statement>)
    requires Lawful(d) && Parsed(d, dump) && Normalize(d, dump).Some?
    ensures Normalize(d, Reparsed(d, dump)) == Normalize(d, dump) <==> SteadyDump(d, dump)
  {
    hide Lawful, Normalize, SteadyDump, Reparsed, Parsed;
    ReparsedIsSettled(d, dump);
    if SteadyDump(d, dump) {
      SteadyComparisonDecides(d, Reparsed(d, dump), dump);
    } else if Normalize(d, Reparsed(d, dump)) == Normalize(d, dump) {
      SettledWasSteady(d, dump);
    }
  }

  /** Its names in the entries to be sorted are folded and quoted already. */
  ghost predicate Folded(d: Dialect, s: Statement) {
    s.Create? ==> forall c :: c in Constraints(s.items) ==> FoldClause(d.folding, c) == c
  }

  lemma FoldedIsSteady(d: Dialect, s: Statement)
    requires Folded(d, s)
    ensures Steady(d, s)
  {
    if s.Create? {
      var sorted := SortBy(Constraints(s.items), d.clauseText);
      hide FoldClause, FoldClauses, SortBy, Constraints;
      SortBySorted(Constraints(s.items), d.clauseText);
      forall i | 0 <= i < |sorted| ensures FoldClause(d.folding, sorted[i]) == sorted[i] {
        assert sorted[i] in multiset(sorted);
        assert sorted[i] in Constraints(s.items);
      }
      FoldedClausesStay(d.folding, sorted);
    }
  }

  /** Normalising is idempotent on dumps whose identifiers are folded and quoted to begin
      with: one pass is then a fixed point. */
  lemma FoldedDumpsSettleAtOnce(d: Dialect, dump: seq<Statement>)
    requires Lawful(d) && Parsed(d, dump) && Normalize(d, dump).Some?
    requires forall s :: s in dump ==> Folded(d, s)
    ensures SteadyDump(d, dump) && Normalize(d, Reparsed(d, dump)) == Normalize(d, dump)
  {
    hide Lawful, Normalize, Folded, Steady, Reparsed, Parsed;
    forall s | s in Kept(dump) ensures Steady(d, s) {
      FoldedIsSteady(d, s);
    }
    OnePassSettlesExactlyWhen(d, dump);
  }

  lemma SteadyLikeTheOther(d: Dialect, c: Statement, s: Statement)
    requires Steady(d, c) && Canonical(d, c) == Canonical(d, s)
    ensures Steady(d, s)
  {
    if s.Create? && c.Create? { CanonicalCreates(d, c, s); }
  }
}
