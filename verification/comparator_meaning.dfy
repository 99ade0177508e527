/** What a dump declares, the order of its columns included, and when the comparison sees it:
    bare column names are sorted like constraints, so their order is not compared. */
module ComparatorMeaning {
  import opened Ordering
  import opened Comparator
  import opened ComparatorParts
  import opened ComparatorTheorems
  import opened ComparatorDecision
  import opened ComparatorPasses

  // ----- the order of columns -----

  /** The columns of a list in their order: the name of a bare one, None for a definition
      (whose own order the parts give). */
  function Order(f: Folding, items: seq<Item>): seq<Option<Ident>> {
    if items == [] then [] else OrderOf(f, items[0]) + Order(f, items[1..])
  }

  function OrderOf(f: Folding, item: Item): seq<Option<Ident>> {
    match item
    case Column(_, _, _, _) => [None]
    case Clause(BareName(id)) => [Some(FoldIdent(f, id))]
    case _ => []
  }

  /** The order of the columns of a statement. */
  function Columned(d: Dialect, s: Statement): seq<Option<Ident>> {
    if s.Create? then Order(d.folding, s.items) else []
  }

  datatype Meaning = Meaning(parts: Parts, order: seq<Option<Ident>>)

  function MeaningOf(d: Dialect, s: Statement): Meaning {
    Meaning(PartsOf(d, s), Columned(d, s))
  }

  function Signify(d: Dialect): Statement -> Meaning {
    s => MeaningOf(d, s)
  }

  /** What a dump declares: the meanings of the statements that take part. */
  function DumpMeaning(d: Dialect, dump: seq<Statement>): multiset<Meaning> {
    multiset(Map(Signify(d), Kept(dump)))
  }

  // ----- soundness -----

  /** A statement's text after two passes, which is the same for all spellings of the same
      parts, and the order of its columns. */
  function Placed(d: Dialect): Statement -> (Statement, seq<Option<Ident>>) {
    s => (Canonical(d, Canonical(d, s)), Columned(d, s))
  }

  /** Corresponding statements, those with the same text after two passes, list their
      columns in the same order. */
  ghost predicate SameOrders(d: Dialect, a: seq<Statement>, b: seq<Statement>) {
    multiset(Map(Placed(d), Kept(a))) == multiset(Map(Placed(d), Kept(b)))
  }

  lemma PlacedMeans(d: Dialect, s: Statement, t: Statement)
    requires Lawful(d) && Read(d, s) && Read(d, t) && Supported(d, s) && Supported(d, t) && !Skipped(s) && !Skipped(t)
    ensures Placed(d)(s) == Placed(d)(t) <==> Signify(d)(s) == Signify(d)(t)
  {
    hide Lawful, Read, Supported, Skipped, Canonical, PartsOf, Steady, Columned;
    CanonicalIsSettled(d, s);
    CanonicalIsSettled(d, t);
    var c, e := Canonical(d, s), Canonical(d, t);
    if PartsOf(d, s) == PartsOf(d, t) {
      PartsDetermineCanonical(d, c, e);
    }
    if Canonical(d, c) == Canonical(d, e) {
      CanonicalGivesParts(d, c, e);
    }
  }

  lemma KeptAreUsable(d: Dialect, dump: seq<Statement>)
    requires Parsed(d, dump) && Normalize(d, dump).Some?
    ensures forall s :: s in Kept(dump) ==> Read(d, s) && Supported(d, s) && !Skipped(s)
  {
    hide Read, Supported, Skipped, Normalize;
    CanonicalOfNormalize(d, dump);
  }

  /** Two dumps declare the same exactly when, statement by statement, the second pass prints
      the same and the columns come in the same order. */
  lemma MeaningExactlyWhen(d: Dialect, a: seq<Statement>, b: seq<Statement>)
    requires Lawful(d) && Parsed(d, a) && Parsed(d, b) && Normalize(d, a).Some? && Normalize(d, b).Some?
    ensures DumpMeaning(d, a) == DumpMeaning(d, b) <==> SameOrders(d, a, b)
  {
    hide Lawful, Parsed, Read, Supported, Skipped, Normalize, Kept, Map, Placed, Signify;
    KeptAreUsable(d, a);
    KeptAreUsable(d, b);
    forall s, t | s in Kept(a) && t in Kept(b)
      ensures Placed(d)(s) == Placed(d)(t) <==> Signify(d)(s) == Signify(d)(t)
    {
      PlacedMeans(d, s, t);
    }
    if SameOrders(d, a, b) { MapsAgree(Placed(d), Signify(d), Kept(a), Kept(b)); }
    if DumpMeaning(d, a) == DumpMeaning(d, b) { MapsAgree(Signify(d), Placed(d), Kept(a), Kept(b)); }
  }

  /** Two of the elements are not the same. */
  ghost predicate Differs<T>(s: seq<T>) {
    exists p, q :: p in s && q in s && p != q
  }

  /** The columns that can change places unseen: a bare name and any other column. */
  ghost predicate Ambiguous(d: Dialect, s: Statement) {
    Differs(Columned(d, s))
  }

  // ----- the parts give the columns, without their order -----

  function Count<T(==)>(s: seq<T>, x: T): nat {
    multiset(s)[x]
  }

  lemma CountAdds<T>(a: seq<T>, b: seq<T>, x: T)
    ensures Count(a + b, x) == Count(a, x) + Count(b, x)
  {
  }

  lemma {:induction false} OrderCounts(d: Dialect, items: seq<Item>, id: Ident)
    ensures Count(Order(d.folding, items), None) == |Columns(d, items)|
    ensures Count(Order(d.folding, items), Some(id)) == Declared(d, items)[BareName(id)]
  {
    if items != [] {
      var one, rest := OrderOf(d.folding, items[0]), Order(d.folding, items[1..]);
      OrderCounts(d, items[1..], id);
      CountAdds(one, rest, None);
      CountAdds(one, rest, Some(id));
      hide FoldIdent, KeptColumn, BareKeys, Count;
      OneCounts(d, items[0], id);
    }
  }

  lemma OneCounts(d: Dialect, item: Item, id: Ident)
    ensures Count(OrderOf(d.folding, item), None) == if item.Column? then 1 else 0
    ensures Count(OrderOf(d.folding, item), Some(id))
         == (if item.Column? then KeysOf(d, item) else multiset{FoldClause(d.folding, item.constraint)})[BareName(id)]
  {
    hide FoldIdent, FoldIdents, FoldPieces, BareKeys;
  }

  lemma CoreGivesColumns(d: Dialect, s: Statement, t: Statement)
    requires CoreOf(d, s) == CoreOf(d, t)
    ensures multiset(Columned(d, s)) == multiset(Columned(d, t))
  {
    hide Order, Declared, Columns, FoldIdents, FoldPieces;
    if s.Create? && t.Create? {
      assert |FoldItems(d.folding, Columns(d, s.items))| == |Columns(d, s.items)|;
      assert |FoldItems(d.folding, Columns(d, t.items))| == |Columns(d, t.items)|;
      forall x ensures multiset(Columned(d, s))[x] == multiset(Columned(d, t))[x] {
        var id := match x case Some(i) => i case None => Ident("", false);
        OrderCounts(d, s.items, id);
        OrderCounts(d, t.items, id);
      }
    }
  }

  lemma {:induction false} AllAlike<T>(a: seq<T>, b: seq<T>)
    requires multiset(a) == multiset(b) && forall x, y :: x in a && y in a ==> x == y
    ensures a == b
  {
    assert |a| == |multiset(a)| == |b|;
    forall i | 0 <= i < |a| ensures a[i] == b[i] {
      assert b[i] in multiset(a);
      assert b[i] in a && a[i] in a;
    }
  }

  lemma UnambiguousMeans(d: Dialect, s: Statement, t: Statement)
    requires Lawful(d) && !Ambiguous(d, s) && Canonical(d, s) == Canonical(d, t)
    ensures MeaningOf(d, s) == MeaningOf(d, t)
  {
    hide Lawful, Canonical, PartsOf, CoreOf, Columned;
    CanonicalGivesParts(d, s, t);
    CanonicalGivesCore(d, s, t);
    CoreGivesColumns(d, s, t);
    AllAlike(Columned(d, s), Columned(d, t));
  }

  /** Soundness. Equal normal forms always mean the same statements with the same tables,
      column definitions in order, types, options, constraints and bare names; they mean
      that the dumps declare the same exactly when corresponding statements list their
      columns in the same order; as they must when one dump is unambiguous. */
  lemma SameFormSameMeaning(d: Dialect, a: seq<Statement>, b: seq<Statement>)
    requires Lawful(d) && Parsed(d, a) && Parsed(d, b) && Normalize(d, a).Some? && Normalize(d, a) == Normalize(d, b)
    ensures DumpParts(d, a) == DumpParts(d, b)
    ensures DumpMeaning(d, a) == DumpMeaning(d, b) <==> SameOrders(d, a, b)
    ensures (forall s :: s in Kept(a) ==> !Ambiguous(d, s)) ==> DumpMeaning(d, a) == DumpMeaning(d, b)
  {
    hide Lawful, Parsed, Normalize, Kept, Map, Canonical, Ambiguous, MeaningOf, Placed;
    SameFormSameParts(d, a, b);
    MeaningExactlyWhen(d, a, b);
    SameFormSameKept(d, a, b);
    if forall s :: s in Kept(a) ==> !Ambiguous(d, s) {
      forall s, t | s in Kept(a) && t in Kept(b) && Form(d)(s) == Form(d)(t) ensures Signify(d)(s) == Signify(d)(t) {
        UnambiguousMeans(d, s, t);
      }
      MapsAgree(Form(d), Signify(d), Kept(a), Kept(b));
    }
  }

  // ----- one dump against every other -----

  /** `t` is `s` with two columns changed about, between which there is no other. */
  ghost predicate Turned(f: Folding, s: Statement, t: Statement) {
    s.Create? && t.Create? && t == s.(items := t.items) && exists a, x, m, y, b ::
      TurnedItems(f, s.items, t.items, a, x, m, y, b)
  }

  predicate TurnedItems(f: Folding, items: seq<Item>, turned: seq<Item>, a: seq<Item>, x: Item, m: seq<Item>, y: Item,
                        b: seq<Item>) {
    && items == a + ([x] + m + [y]) + b && turned == a + ([y] + m + [x]) + b
    && |OrderOf(f, x)| == 1 && |OrderOf(f, y)| == 1 && Order(f, m) == []
  }

  /** A parser that reads a list reads it with two columns changed about. */
  ghost predicate Turns(d: Dialect) {
    forall s, t :: Read(d, s) && Turned(d.folding, s, t) ==> Read(d, t)
  }

  lemma {:induction false} OrderConcat(f: Folding, a: seq<Item>, b: seq<Item>)
    ensures Order(f, a + b) == Order(f, a) + Order(f, b)
  {
    if a == [] {
      assert a + b == b;
    } else {
      hide OrderOf;
      assert (a + b)[1..] == a[1..] + b;
      OrderConcat(f, a[1..], b);
    }
  }

  lemma OneOrder(f: Folding, x: Item)
    ensures Order(f, [x]) == OrderOf(f, x)
  {
    hide OrderOf;
    assert [x][1..] == [];
  }

  lemma OrderOfThree(f: Folding, x: Item, m: seq<Item>, y: Item)
    ensures Order(f, [x] + m + [y]) == OrderOf(f, x) + Order(f, m) + OrderOf(f, y)
  {
    hide Order, OrderOf;
    OrderConcat(f, [x] + m, [y]);
    OrderConcat(f, [x], m);
    OneOrder(f, x);
    OneOrder(f, y);
  }

  /** Two different neighbours among the columns, and what stands between them. */
  lemma {:induction false} Neighbours(f: Folding, items: seq<Item>)
    returns (a: seq<Item>, x: Item, m: seq<Item>, y: Item, b: seq<Item>)
    requires Differs(Order(f, items))
    ensures items == a + ([x] + m + [y]) + b
    ensures |OrderOf(f, x)| == 1 && |OrderOf(f, y)| == 1 && OrderOf(f, x) != OrderOf(f, y) && Order(f, m) == []
  {
    hide OrderOf;
    var head, rest := items[0], items[1..];
    AtMostOne(f, head);
    if OrderOf(f, head) == [] || Differs(Order(f, rest)) {
      assert OrderOf(f, head) == [] ==> Order(f, items) == Order(f, rest);
      a, x, m, y, b := Neighbours(f, rest);
      Glue(items, a, [x] + m + [y], b);
      a := [head] + a;
    } else {
      assert OrderOf(f, head) == [OrderOf(f, head)[0]];
      assert Order(f, items) == [OrderOf(f, head)[0]] + Order(f, rest);
      HeadDiffers(OrderOf(f, head)[0], Order(f, rest));
      a, x := [], head;
      m, y, b := NextColumn(f, rest);
      GlueFirst(items, m, y, b);
    }
  }

  lemma HeadDiffers<T>(h: T, rest: seq<T>)
    requires Differs([h] + rest) && !Differs(rest)
    ensures rest != [] && forall p :: p in rest ==> p != h
  {
    var p, q :| p in [h] + rest && q in [h] + rest && p != q;
    if p == h {
      assert q in rest;
    } else {
      assert p in rest;
    }
  }

  lemma Glue(items: seq<Item>, a: seq<Item>, mid: seq<Item>, b: seq<Item>)
    requires items != [] && items[1..] == a + mid + b
    ensures items == ([items[0]] + a) + mid + b
  {
  }

  lemma GlueFirst(items: seq<Item>, m: seq<Item>, y: Item, b: seq<Item>)
    requires items != [] && items[1..] == m + [y] + b
    ensures items == [] + ([items[0]] + m + [y]) + b
  {
  }

  lemma AtMostOne(f: Folding, item: Item)
    ensures |OrderOf(f, item)| <= 1
  {
  }

  lemma {:induction false} NextColumn(f: Folding, items: seq<Item>) returns (m: seq<Item>, y: Item, b: seq<Item>)
    requires Order(f, items) != []
    ensures items == m + [y] + b && Order(f, m) == [] && |OrderOf(f, y)| == 1 && OrderOf(f, y)[0] in Order(f, items)
  {
    hide OrderOf;
    AtMostOne(f, items[0]);
    if OrderOf(f, items[0]) == [] {
      m, y, b := NextColumn(f, items[1..]);
      assert items == [items[0]] + items[1..];
      assert ([items[0]] + m)[1..] == m;
      assert [items[0]] + (m + [y] + b) == ([items[0]] + m) + [y] + b;
      m := [items[0]] + m;
    } else {
      m, y, b := [], items[0], items[1..];
    }
  }

  lemma {:induction false} NoColumns(d: Dialect, m: seq<Item>)
    requires Order(d.folding, m) == []
    ensures Columns(d, m) == []
  {
    if m != [] { NoColumns(d, m[1..]); }
  }

  lemma OneItem(d: Dialect, x: Item)
    requires |OrderOf(d.folding, x)| == 1
    ensures x.Clause? ==> Columns(d, [x]) == [] && OrderOf(d.folding, x)[0].Some?
    ensures x.Column? ==> OrderOf(d.folding, x) == [None]
  {
    assert [x][1..] == [];
  }

  lemma TurnedSpelling(d: Dialect, items: seq<Item>, turned: seq<Item>, a: seq<Item>, x: Item, m: seq<Item>, y: Item,
                       b: seq<Item>)
    requires TurnedItems(d.folding, items, turned, a, x, m, y, b) && OrderOf(d.folding, x) != OrderOf(d.folding, y)
    ensures Columns(d, turned) == Columns(d, items)
    ensures multiset(Constraints(turned)) == multiset(Constraints(items))
    ensures Order(d.folding, turned) != Order(d.folding, items)
    ensures forall i :: i in turned <==> i in items
  {
    hide Columns, Constraints, Order, OrderOf;
    var f := d.folding;
    OneItem(d, x);
    OneItem(d, y);
    NoColumns(d, m);
    ThreeParts(d, a, [x] + m + [y], b);
    ThreeParts(d, a, [y] + m + [x], b);
    ThreeParts(d, [x], m, [y]);
    ThreeParts(d, [y], m, [x]);
    OrderConcat(f, a + ([x] + m + [y]), b);
    OrderConcat(f, a, [x] + m + [y]);
    OrderConcat(f, a + ([y] + m + [x]), b);
    OrderConcat(f, a, [y] + m + [x]);
    OrderOfThree(f, x, m, y);
    OrderOfThree(f, y, m, x);
    assert Columns(d, [x]) == [] || Columns(d, [y]) == [];
    assert Order(f, items)[|Order(f, a)|] == OrderOf(f, x)[0];
    assert Order(f, turned)[|Order(f, a)|] == OrderOf(f, y)[0];
    assert OrderOf(f, x) == [OrderOf(f, x)[0]] && OrderOf(f, y) == [OrderOf(f, y)[0]];
  }

  /** An ambiguous statement has a twin: the same form, another order of columns. */
  lemma Twin(d: Dialect, s: Statement) returns (t: Statement)
    requires Lawful(d) && Turns(d) && Read(d, s) && Supported(d, s) && !Skipped(s) && Ambiguous(d, s)
    ensures Read(d, t) && Supported(d, t) && !Skipped(t)
    ensures Canonical(d, t) == Canonical(d, s) && MeaningOf(d, t) != MeaningOf(d, s)
  {
    assert s.Create?;
    var a, x, m, y, b := Neighbours(d.folding, s.items);
    var turned := a + ([y] + m + [x]) + b;
    t := s.(items := turned);
    assert TurnedItems(d.folding, s.items, turned, a, x, m, y, b);
    assert Turned(d.folding, s, t);
    assert Read(d, t) by { hide Turned, Read; }
    TurnedSpelling(d, s.items, turned, a, x, m, y, b);
    assert SpellingOf(d, s) == SpellingOf(d, t) by { hide Columns, Constraints, FoldItems; }
    hide Lawful, Read, Canonical, Columns, Constraints, Order, SpellingOf, PartsOf, Turns;
    SpellingDeterminesForm(d, t, s);
  }

  lemma KeptOne(s: Statement)
    ensures Kept([s]) == if Skipped(s) then [] else [s]
  {
    hide Skipped;
    assert [s][1..] == [];
  }

  lemma KeptReplaced(dump: seq<Statement>, i: nat, t: Statement)
    requires i < |dump| && !Skipped(dump[i]) && !Skipped(t)
    ensures var k := |Kept(dump[..i])|;
            k < |Kept(dump)| && Kept(dump)[k] == dump[i] && Kept(dump[i := t]) == Kept(dump)[k := t]
  {
    hide *;
    var front, back := dump[..i], dump[i + 1..];
    assert dump == front + [dump[i]] + back && dump[i := t] == front + [t] + back;
    KeptConcat(front + [dump[i]], back);
    KeptConcat(front, [dump[i]]);
    KeptConcat(front + [t], back);
    KeptConcat(front, [t]);
    KeptOne(dump[i]);
    KeptOne(t);
  }

  lemma MapReplaced<S, T>(f: S -> T, xs: seq<S>, k: nat, t: S)
    requires k < |xs|
    ensures Map(f, xs[k := t]) == Map(f, xs)[k := f(t)]
  {
    hide Map;
  }

  lemma OtherMultiset<T>(xs: seq<T>, k: nat, v: T)
    requires k < |xs| && xs[k] != v
    ensures multiset(xs[k := v]) != multiset(xs)
  {
    assert multiset(xs[k := v])[v] == multiset(xs)[v] + 1;
  }

  /** Equal normal forms settle what a dump declares, against every other dump, exactly when
      none of its statements has a bare column name beside another column. */
  lemma SoundForEveryDumpExactlyWhen(d: Dialect, a: seq<Statement>)
    requires Lawful(d) && Turns(d) && Parsed(d, a) && Normalize(d, a).Some?
    ensures (forall b :: Parsed(d, b) && Normalize(d, b) == Normalize(d, a) ==> DumpMeaning(d, b) == DumpMeaning(d, a))
       <==> forall s :: s in Kept(a) ==> !Ambiguous(d, s)
  {
    hide Lawful, Turns, Read, Supported, Skipped, Normalize, Kept, Map, Canonical, Ambiguous, MeaningOf, DumpMeaning;
    if forall s :: s in Kept(a) ==> !Ambiguous(d, s) {
      forall b | Parsed(d, b) && Normalize(d, b) == Normalize(d, a) ensures DumpMeaning(d, b) == DumpMeaning(d, a) {
        SameFormSameMeaning(d, a, b);
      }
    } else {
      var s :| s in Kept(a) && Ambiguous(d, s);
      var b := TwinDump(d, a, s);
      assert Parsed(d, b);
    }
  }

  lemma TwinDump(d: Dialect, a: seq<Statement>, s: Statement) returns (b: seq<Statement>)
    requires Lawful(d) && Turns(d) && Parsed(d, a) && Normalize(d, a).Some? && s in Kept(a) && Ambiguous(d, s)
    ensures Parsed(d, b) && Normalize(d, b) == Normalize(d, a) && DumpMeaning(d, b) != DumpMeaning(d, a)
  {
    hide Lawful, Turns, Read, Supported, Skipped, Normalize, Kept, Map, Canonical, Ambiguous, MeaningOf;
    KeptAreUsable(d, a);
    var t := Twin(d, s);
    var i :| 0 <= i < |a| && a[i] == s;
    KeptReplaced(a, i, t);
    var k := |Kept(a[..i])|;
    b := a[i := t];
    assert Kept(b) == Kept(a)[k := t];
    RejectedExactlyWhen(d, a);
    assert forall u :: u in b ==> u == t || u in a;
    RejectedExactlyWhen(d, b);
    MapReplaced(Form(d), Kept(a), k, t);
    assert Form(d)(t) == Map(Form(d), Kept(a))[k];
    assert Map(Form(d), Kept(b)) == Map(Form(d), Kept(a));
    SameFormSameKept(d, a, b);
    MapReplaced(Signify(d), Kept(a), k, t);
    OtherMultiset(Map(Signify(d), Kept(a)), k, Signify(d)(t));
  }
}
