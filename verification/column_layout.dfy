/** The columns of one table, created at once or created and altered. */
module ColumnLayout {
  import opened Ordering
  import opened PyDict
  import opened Mutations
  import opened MutationSimulation
  import opened MutationRuns
  import opened DeclaredTables
  import opened TrackB
  import StableSort

  // ----- dictionaries and entries -----

  lemma {:induction false} EntryKey<V>(d: Dict<V>, x: (string, V))
    requires x in d
    ensures x.0 in Keys(d)
  {
    if d[0] != x { EntryKey(d[1..], x); }
  }

  lemma {:induction false} KeyEntry<V>(d: Dict<V>, key: string)
    ensures key in Keys(d) <==> exists x :: x in d && x.0 == key
  {
    if d != [] {
      KeyEntry(d[1..], key);
      assert forall x :: x in d <==> x == d[0] || x in d[1..];
      if key in Keys(d[1..]) {
        var x :| x in d[1..] && x.0 == key;
        assert x in d;
      }
      assert d[0] in d;
    }
  }

  lemma {:induction false} GetOnly<V>(d: Dict<V>, key: string, v: V)
    requires (key, v) in d && forall x | x in d && x.0 == key :: x.1 == v
    ensures Get(d, key) == Some(v)
  {
    if d[0].0 == key {
      assert d[0] in d;
    } else {
      assert forall x | x in d[1..] :: x in d;
      GetOnly(d[1..], key, v);
    }
  }

  lemma {:induction false} DictEntry<V>(d: Dict<V>, x: (string, V), y: (string, V))
    requires IsDict(d) && x in d && y in d && x.0 == y.0
    ensures x == y
  {
    if d[0] == x && d[0] == y {
    } else if d[0] == x {
      EntryKey(d[1..], y);
    } else if d[0] == y {
      EntryKey(d[1..], x);
    } else {
      DictEntry(d[1..], x, y);
    }
  }

  // ----- the columns of a class -----

  /** With more columns of its own a class inherits fewer, and strictly fewer when a new one
      was inherited. */
  lemma {:induction false} UnshadowedLess(own: Dict<ColumnDef>, more: Dict<ColumnDef>, inherited: Dict<ColumnDef>)
    requires Keys(own) <= Keys(more)
    ensures |Unshadowed(more, inherited)| <= |Unshadowed(own, inherited)|
    ensures forall e | e in Unshadowed(more, inherited) :: e in Unshadowed(own, inherited)
    ensures (exists a :: a in Keys(more) && a !in Keys(own) && a in Keys(inherited))
        ==> |Unshadowed(more, inherited)| < |Unshadowed(own, inherited)|
    ensures Keys(more) * Keys(inherited) <= Keys(own) ==> Unshadowed(more, inherited) == Unshadowed(own, inherited)
  {
    if inherited != [] { UnshadowedLess(own, more, inherited[1..]); }
  }

  lemma OwnAppend(class_: string, columns: Dict<ColumnDef>, x: (string, ColumnDef))
    ensures Own(class_, columns + [x])
         == var before := Own(class_, columns);
            if Scanned(Mangled(class_, x.0)) then Put(before, Mangled(class_, x.0), x.1) else before
  {
    assert (columns + [x])[..|columns|] == columns;
  }

  /** A public name is the attribute's name, in every class. */
  lemma PublicName(class_: string, name: string)
    requires Scanned(name)
    ensures Mangled(class_, name) == name
  {
  }

  ghost predicate Public(columns: Dict<ColumnDef>) {
    forall x | x in columns :: Scanned(x.0)
  }

  lemma {:induction false} PutEntries<V>(d: Dict<V>, key: string, value: V, e: (string, V))
    ensures e in Put(d, key, value) ==> e == (key, value) || (e in d && (IsDict(d) ==> e.0 != key))
    ensures (key, value) in Put(d, key, value)
    ensures e in d && e.0 != key ==> e in Put(d, key, value)
  {
    if d == [] {
    } else if d[0].0 == key {
      if e in d[1..] { EntryKey(d[1..], e); }
    } else {
      PutEntries(d[1..], key, value, e);
      assert Put(d, key, value) == [d[0]] + Put(d[1..], key, value);
    }
  }

  lemma {:induction false} PutSize<V>(d: Dict<V>, key: string, value: V)
    ensures |Put(d, key, value)| == |d| + if key in Keys(d) then 0 else 1
    ensures key in Keys(d) ==> Keys(Put(d, key, value)) == Keys(d)
    ensures key !in Keys(d) ==> Put(d, key, value) == d + [(key, value)]
  {
    if d != [] && d[0].0 != key { PutSize(d[1..], key, value); }
  }

  /** An entry of the class that an added column makes. */
  ghost predicate Makes(class_: string, x: (string, ColumnDef), e: (string, ColumnDef)) {
    Scanned(Mangled(class_, x.0)) && e == (Mangled(class_, x.0), x.1)
  }

  lemma OneMoreEntry(class_: string, columns: Dict<ColumnDef>, x: (string, ColumnDef), e: (string, ColumnDef))
    requires e in Own(class_, columns + [x])
    ensures e in Own(class_, columns) || Makes(class_, x, e)
  {
    hide Own, Put, Mangled, Scanned;
    OwnAppend(class_, columns, x);
    PutEntries(Own(class_, columns), Mangled(class_, x.0), x.1, e);
  }

  /** An attribute of the grown class is one it had, or one added. */
  lemma {:induction false} OwnEntries(class_: string, columns: Dict<ColumnDef>, added: Dict<ColumnDef>,
                                      e: (string, ColumnDef))
    requires e in Own(class_, columns + added)
    ensures e in Own(class_, columns) || exists x | x in added :: Makes(class_, x, e)
  {
    hide *;
    if added == [] {
      assert columns + added == columns;
    } else {
      var front, last := added[..|added| - 1], added[|added| - 1];
      assert columns + added == (columns + front) + [last];
      OneMoreEntry(class_, columns + front, last, e);
      if e in Own(class_, columns + front) { OwnEntries(class_, columns, front, e); }
    }
  }

  /** Public additions are attributes of the grown class. */
  lemma {:induction false} OwnHasAdded(class_: string, columns: Dict<ColumnDef>, added: Dict<ColumnDef>,
                                       x: (string, ColumnDef))
    requires Public(added) && IsDict(added) && x in added
    ensures x in Own(class_, columns + added)
  {
    hide Own, Put, Mangled, Scanned, IsDict;
    var front, last := added[..|added| - 1], added[|added| - 1];
    assert columns + added == (columns + front) + [last] && added == front + [last];
    assert last in added;
    OwnAppend(class_, columns + front, last);
    PublicName(class_, last.0);
    PutEntries(Own(class_, columns + front), last.0, last.1, x);
    if x != last {
      DictFront(added);
      EntryKey(front, x);
      OwnHasAdded(class_, columns, front, x);
    }
  }

  lemma {:induction false} DictFront<V>(d: Dict<V>)
    requires IsDict(d) && d != []
    ensures IsDict(d[..|d| - 1]) && d[|d| - 1].0 !in Keys(d[..|d| - 1])
  {
    if |d| > 1 {
      DictFront(d[1..]);
      var front := d[..|d| - 1];
      assert front[1..] == d[1..][..|d| - 2];
      KeysConcat(front[1..], [d[|d| - 1]]);
      assert d[1..] == front[1..] + [d[|d| - 1]];
    }
  }

  /** Attributes that neither the class nor its bases have are appended. */
  ghost predicate Fresh(own: Dict<ColumnDef>, added: Dict<ColumnDef>, inherited: Dict<ColumnDef>) {
    Keys(added) !! Keys(own) && Keys(added) !! Keys(inherited)
  }

  lemma {:induction false} OwnGrown(class_: string, columns: Dict<ColumnDef>, added: Dict<ColumnDef>)
    requires Public(added) && IsDict(added) && Keys(added) !! Keys(Own(class_, columns))
    ensures Own(class_, columns + added) == Own(class_, columns) + added
  {
    hide *;
    if added == [] {
      assert columns + added == columns && Own(class_, columns) + added == Own(class_, columns);
    } else {
      var front, last := added[..|added| - 1], added[|added| - 1];
      assert columns + added == (columns + front) + [last] && added == front + [last];
      PublicFront(added);
      DictFront(added);
      KeysConcat(front, [last]);
      OneKey(last);
      OwnGrown(class_, columns, front);
      OwnAppend(class_, columns + front, last);
      PublicName(class_, last.0);
      KeysConcat(Own(class_, columns), front);
      assert last.0 !in Keys(Own(class_, columns) + front);
      PutSize(Own(class_, columns) + front, last.0, last.1);
      StableSort.Regroup(Own(class_, columns), front, [last]);
    }
  }

  lemma PublicFront(added: Dict<ColumnDef>)
    requires Public(added) && added != []
    ensures Public(added[..|added| - 1]) && Scanned(added[|added| - 1].0)
  {
    hide Scanned;
    assert added[|added| - 1] in added;
  }

  function Size(own: Dict<ColumnDef>, inherited: Dict<ColumnDef>): nat {
    |own| + |Unshadowed(own, inherited)|
  }

  lemma PutCounts(own: Dict<ColumnDef>, key: string, def: ColumnDef, inherited: Dict<ColumnDef>)
    ensures Size(Put(own, key, def), inherited) <= Size(own, inherited) + 1
    ensures key in Keys(own) || key in Keys(inherited) ==> Size(Put(own, key, def), inherited) <= Size(own, inherited)
    ensures Keys(own) <= Keys(Put(own, key, def))
  {
    hide Unshadowed;
    PutSize(own, key, def);
    UnshadowedLess(own, Put(own, key, def), inherited);
  }

  /** The grown class has at most as many columns more as were added, and fewer when one
      of the added takes the place of another. */
  lemma {:induction false} OwnSize(class_: string, columns: Dict<ColumnDef>, added: Dict<ColumnDef>,
                                   inherited: Dict<ColumnDef>)
    requires Public(added)
    ensures Size(Own(class_, columns + added), inherited) <= Size(Own(class_, columns), inherited) + |added|
    ensures !Fresh(Own(class_, columns), added, inherited)
        ==> Size(Own(class_, columns + added), inherited) < Size(Own(class_, columns), inherited) + |added|
    ensures Keys(Own(class_, columns)) <= Keys(Own(class_, columns + added))
  {
    if added == [] {
      assert columns + added == columns;
    } else {
      hide Own, Put, Mangled, Scanned, Keys, Size;
      var front, last := added[..|added| - 1], added[|added| - 1];
      assert columns + added == (columns + front) + [last] && added == front + [last];
      assert last in added && forall x | x in front :: x in added;
      OwnSize(class_, columns, front, inherited);
      OwnAppend(class_, columns + front, last);
      PublicName(class_, last.0);
      PutCounts(Own(class_, columns + front), last.0, last.1, inherited);
      KeysConcat(front, [last]);
      OneKey(last);
    }
  }

  lemma OneKey<V>(x: (string, V))
    ensures Keys([x]) == {x.0}
  {
    assert [x][1..] == [];
  }

  lemma LaidMembers(w: World, own: Dict<ColumnDef>, inherited: Dict<ColumnDef>, x: (string, ColumnDef))
    ensures x in Laid(w, own, inherited) <==> x in own || x in Unshadowed(own, inherited)
  {
    StableSort.SortMembers(own + Unshadowed(own, inherited), Key(w), x);
  }

  lemma FullKeys(w: World, d: Dict<ColumnDef>, name: string)
    ensures name in Keys(Full(w, d)) <==> exists x :: x in d && ColumnName(w, x.0, x.1) == name
  {
    hide Keys, ColumnName;
    KeyEntry(Full(w, d), name);
    if x :| x in d && ColumnName(w, x.0, x.1) == name {
      var i :| 0 <= i < |d| && d[i] == x;
      assert Full(w, d)[i] in Full(w, d);
    }
    if y :| y in Full(w, d) && y.0 == name {
      var i :| 0 <= i < |d| && Full(w, d)[i] == y;
      assert d[i] in d;
    }
  }

  // ----- one table -----

  /** Nothing the table has sorts after a column without a sort_order that comes last in
      the class: own columns may tie with it, inherited ones may not. */
  ghost predicate AddedSortLast(w: World, own: Dict<ColumnDef>, inherited: Dict<ColumnDef>) {
    && (forall x | x in own :: SortOrder(w, x.1) <= 0)
    && (forall x | x in Unshadowed(own, inherited) :: SortOrder(w, x.1) < 0)
  }

  lemma FullConcat(w: World, a: Dict<ColumnDef>, b: Dict<ColumnDef>)
    ensures Full(w, a + b) == Full(w, a) + Full(w, b)
  {
  }

  ghost predicate Plain(w: World, added: Dict<ColumnDef>) {
    forall x | x in added :: w.beside(x.1) == {}
  }

  lemma SameEnd<V>(a: seq<V>, b: seq<V>, c: seq<V>)
    requires |b| == |c|
    ensures a + b == a + c <==> b == c
  {
    if a + b == a + c {
      assert b == (a + b)[|a|..] == (a + c)[|a|..] == c;
    }
  }

  /** The added columns have no name but the attribute's, and no sort_order. */
  ghost predicate Simple(w: World, added: Dict<ColumnDef>) {
    forall x | x in added :: ColumnName(w, x.0, x.1) == x.0 && SortOrder(w, x.1) == 0
  }

  lemma PlainIsBare(w: World, added: Dict<ColumnDef>)
    requires Simple(w, added)
    ensures Full(w, added) == Bare(added) <==> Plain(w, added)
  {
    hide ColumnName, SortOrder;
    assert forall i | 0 <= i < |added| :: added[i] in added;
    assert Plain(w, added) <==> forall i | 0 <= i < |added| :: w.beside(added[i].1) == {};
    if Full(w, added) == Bare(added) {
      forall i | 0 <= i < |added| ensures w.beside(added[i].1) == {} {
        assert Full(w, added)[i] == Bare(added)[i];
      }
    }
  }

  /** A table that takes the added columns after its own, in another order or the same. */
  lemma FreshAgrees(w: World, own: Dict<ColumnDef>, added: Dict<ColumnDef>, inherited: Dict<ColumnDef>)
    requires added != [] && Simple(w, added) && Fresh(own, added, inherited)
    requires Keys(added) !! Keys(Full(w, Laid(w, own, inherited)))
    ensures Full(w, Laid(w, own, inherited)) + Bare(added) == Full(w, Laid(w, own + added, inherited))
       <==> AddedSortLast(w, own, inherited) && Plain(w, added)
  {
    hide SortOrder, StableSort.Sort, Unshadowed, Keys, Plain, ColumnName, Full, Bare;
    var q := Unshadowed(own, inherited);
    KeysConcat(own, added);
    UnshadowedLess(own, own + added, inherited);
    var laid, first := Laid(w, own, inherited), Laid(w, own + added, inherited);
    assert first == StableSort.Sort(own + added + q, Key(w)) && laid == StableSort.Sort(own + q, Key(w));
    StableSort.AddedLast(own, added, q, Key(w));
    FullConcat(w, laid, added);
    PlainIsBare(w, added);
    if AddedSortLast(w, own, inherited) {
      assert first == laid + added;
      SameEnd(Full(w, laid), Full(w, added), Bare(added));
    } else {
      var i :| 0 <= i < |own| + |q| + |added| && first[i] in added && (laid + added)[i] in own + q;
      EntryKey(added, first[i]);
      OtherNames(w, own, added, inherited, (laid + added)[i]);
      NamesOfExtended(w, laid, added, i);
      FullAt(w, first, i);
      assert Full(w, first)[i].0 != (Full(w, laid) + Bare(added))[i].0;
    }
  }

  lemma FullAt(w: World, d: Dict<ColumnDef>, i: nat)
    requires i < |d|
    ensures Full(w, d)[i].0 == ColumnName(w, d[i].0, d[i].1)
  {
  }

  lemma OtherNames(w: World, own: Dict<ColumnDef>, added: Dict<ColumnDef>, inherited: Dict<ColumnDef>,
                   x: (string, ColumnDef))
    requires Keys(added) !! Keys(Full(w, Laid(w, own, inherited)))
    requires x in own + Unshadowed(own, inherited)
    ensures ColumnName(w, x.0, x.1) !in Keys(added)
  {
    hide Unshadowed, Keys, Laid, ColumnName;
    LaidMembers(w, own, inherited, x);
    FullKeys(w, Laid(w, own, inherited), ColumnName(w, x.0, x.1));
  }

  lemma NamesOfExtended(w: World, laid: Dict<ColumnDef>, added: Dict<ColumnDef>, i: nat)
    requires i < |laid| + |added| && Simple(w, added)
    ensures (Full(w, laid) + Bare(added))[i].0 == ColumnName(w, (laid + added)[i].0, (laid + added)[i].1)
  {
    hide ColumnName, SortOrder;
    if i >= |laid| { assert added[i - |laid|] in added; }
  }

  /** Creating a table with its added columns, or creating it without and adding them, is
      the same exactly when they take nobody's place, sort last and have nothing created
      beside their clauses. */
  lemma TableAgrees(w: World, class_: string, t: Table, added: Dict<ColumnDef>, inherited: Dict<ColumnDef>)
    requires Public(added) && IsDict(added) && Simple(w, added)
    requires Keys(added) !! Keys(Built(w, class_, t, inherited).columns)
    ensures Extended(Built(w, class_, t, inherited), Bare(added)) == Built(w, class_, Grown(t, added), inherited)
       <==> added == [] || (Fresh(Own(class_, t.columns), added, inherited)
                            && AddedSortLast(w, Own(class_, t.columns), inherited) && Plain(w, added))
  {
    hide Own, Laid, Full, Bare, Keys, IsDict, AddedSortLast, Plain, Simple, Fresh, Public;
    var own := Own(class_, t.columns);
    if added == [] {
      assert t.columns + added == t.columns;
      assert Bare([]) == [] by { NoBare(); }
      assert Full(w, Laid(w, own, inherited)) + [] == Full(w, Laid(w, own, inherited));
    } else if Fresh(own, added, inherited) {
      assert Keys(added) !! Keys(own) by { FreshIs(own, added, inherited); }
      OwnGrown(class_, t.columns, added);
      FreshAgrees(w, own, added, inherited);
    } else {
      OwnSize(class_, t.columns, added, inherited);
      LaidSize(w, own, inherited);
      LaidSize(w, Own(class_, t.columns + added), inherited);
      BareSize(added);
      assert |Extended(Built(w, class_, t, inherited), Bare(added)).columns| == Size(own, inherited) + |added|;
      assert |Built(w, class_, Grown(t, added), inherited).columns| == Size(Own(class_, t.columns + added), inherited);
    }
  }

  lemma NoBare()
    ensures Bare([]) == []
  {
  }

  lemma BareSize(d: Dict<ColumnDef>)
    ensures |Bare(d)| == |d|
  {
  }

  lemma FreshIs(own: Dict<ColumnDef>, added: Dict<ColumnDef>, inherited: Dict<ColumnDef>)
    requires Fresh(own, added, inherited)
    ensures Keys(added) !! Keys(own) && Keys(added) !! Keys(inherited)
  {
  }

  lemma LaidSize(w: World, own: Dict<ColumnDef>, inherited: Dict<ColumnDef>)
    ensures |Full(w, Laid(w, own, inherited))| == Size(own, inherited)
  {
    hide StableSort.Sort;
  }
}
