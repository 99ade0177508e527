/** A stable sort by an integer key, as SQLAlchemy orders the columns of a table. */
module StableSort {

  /** Put `x` before the first element whose key is not smaller. */
  function Insert<T>(x: T, s: seq<T>, key: T -> int): (r: seq<T>)
    ensures |r| == |s| + 1
  {
    if s == [] || key(x) <= key(s[0]) then [x] + s else [s[0]] + Insert(x, s[1..], key)
  }

  function Sort<T>(s: seq<T>, key: T -> int): (r: seq<T>)
    ensures |r| == |s|
  {
    if s == [] then [] else Insert(s[0], Sort(s[1..], key), key)
  }

  lemma {:induction false} InsertMembers<T>(x: T, s: seq<T>, key: T -> int, y: T)
    ensures y in Insert(x, s, key) <==> y == x || y in s
  {
    if s != [] && key(x) > key(s[0]) {
      InsertMembers(x, s[1..], key, y);
      assert y in s <==> y == s[0] || y in s[1..];
    }
  }

  lemma {:induction false} SortMembers<T>(s: seq<T>, key: T -> int, y: T)
    ensures y in Sort(s, key) <==> y in s
  {
    if s != [] {
      SortMembers(s[1..], key, y);
      InsertMembers(s[0], Sort(s[1..], key), key, y);
      assert y in s <==> y == s[0] || y in s[1..];
    }
  }

  /** The elements with one key, in their order. */
  function WithKey<T>(s: seq<T>, key: T -> int, v: int): seq<T> {
    if s == [] then [] else (if key(s[0]) == v then [s[0]] else []) + WithKey(s[1..], key, v)
  }

  predicate Ascending<T>(s: seq<T>, key: T -> int) {
    forall i, j | 0 <= i < j < |s| :: key(s[i]) <= key(s[j])
  }

  lemma AscendingAfter<T>(x: T, s: seq<T>, key: T -> int)
    ensures Ascending([x] + s, key) <==> Ascending(s, key) && forall y | y in s :: key(x) <= key(y)
  {
    var r := [x] + s;
    if Ascending(r, key) {
      forall i, j | 0 <= i < j < |s| ensures key(s[i]) <= key(s[j]) {
        assert s[i] == r[i + 1] && s[j] == r[j + 1];
      }
      forall y | y in s ensures key(x) <= key(y) {
        var i :| 0 <= i < |s| && s[i] == y;
        assert r[0] == x && r[i + 1] == y;
      }
    }
    if Ascending(s, key) && forall y | y in s :: key(x) <= key(y) {
      forall i, j | 0 <= i < j < |r| ensures key(r[i]) <= key(r[j]) {
        assert r[j] == s[j - 1] && s[j - 1] in s;
        if i > 0 { assert r[i] == s[i - 1]; } else { assert r[i] == x; }
      }
    }
  }

  lemma {:induction false} InsertAscends<T>(x: T, s: seq<T>, key: T -> int)
    requires Ascending(s, key)
    ensures Ascending(Insert(x, s, key), key)
  {
    hide Ascending;
    if s != [] { AscendingAfter(s[0], s[1..], key); assert s == [s[0]] + s[1..]; }
    if s == [] || key(x) <= key(s[0]) {
      forall y | y in s ensures key(x) <= key(y) {
      }
      AscendingAfter(x, s, key);
    } else {
      InsertAscends(x, s[1..], key);
      forall y | y in Insert(x, s[1..], key) ensures key(s[0]) <= key(y) {
        InsertMembers(x, s[1..], key, y);
      }
      AscendingAfter(s[0], Insert(x, s[1..], key), key);
    }
  }

  lemma KeyFirst<T>(x: T, s: seq<T>, key: T -> int, v: int)
    ensures WithKey([x] + s, key, v) == (if key(x) == v then [x] else []) + WithKey(s, key, v)
  {
    assert ([x] + s)[1..] == s;
  }

  lemma {:induction false} InsertKeepsOrder<T>(x: T, s: seq<T>, key: T -> int, v: int)
    ensures WithKey(Insert(x, s, key), key, v) == (if key(x) == v then [x] else []) + WithKey(s, key, v)
  {
    hide WithKey;
    if s == [] || key(x) <= key(s[0]) {
      KeyFirst(x, s, key, v);
    } else {
      InsertKeepsOrder(x, s[1..], key, v);
      KeyFirst(s[0], Insert(x, s[1..], key), key, v);
      KeyFirst(s[0], s[1..], key, v);
      assert s == [s[0]] + s[1..];
    }
  }

  /** What the sort is: the elements in ascending order of their keys, those with equal keys
      as they were. */
  lemma {:induction false} SortIsStable<T>(s: seq<T>, key: T -> int, v: int)
    ensures Ascending(Sort(s, key), key)
    ensures WithKey(Sort(s, key), key, v) == WithKey(s, key, v)
  {
    if s != [] {
      SortIsStable(s[1..], key, v);
      InsertAscends(s[0], Sort(s[1..], key), key);
      InsertKeepsOrder(s[0], Sort(s[1..], key), key, v);
    }
  }

  lemma Regroup<T>(a: seq<T>, b: seq<T>, c: seq<T>)
    ensures a + (b + c) == (a + b) + c
  {
  }

  predicate In(kind: int, key: int) {
    if kind < 0 then key < 0 else if kind == 0 then key == 0 else key > 0
  }

  /** The elements with a negative, zero or positive key, in their order. */
  function Part<T>(s: seq<T>, key: T -> int, kind: int): seq<T> {
    if s == [] then [] else (if In(kind, key(s[0])) then [s[0]] else []) + Part(s[1..], key, kind)
  }

  lemma OnePart<T>(s: seq<T>, key: T -> int, kind: int)
    requires s != []
    ensures Part(s, key, kind) == (if In(kind, key(s[0])) then [s[0]] else []) + Part(s[1..], key, kind)
  {
  }

  lemma {:induction false} PartConcat<T>(a: seq<T>, b: seq<T>, key: T -> int, kind: int)
    ensures Part(a + b, key, kind) == Part(a, key, kind) + Part(b, key, kind)
  {
    if a == [] {
      assert a + b == b;
    } else {
      OnePart(a, key, kind);
      OnePart(a + b, key, kind);
      hide *;
      assert (a + b)[0] == a[0] && (a + b)[1..] == a[1..] + b;
      PartConcat(a[1..], b, key, kind);
      Regroup(if In(kind, key(a[0])) then [a[0]] else [], Part(a[1..], key, kind), Part(b, key, kind));
    }
  }

  lemma {:induction false} PartAll<T>(s: seq<T>, key: T -> int, kind: int)
    requires forall x | x in s :: In(kind, key(x))
    ensures Part(s, key, kind) == s
  {
    if s != [] {
      assert s[0] in s && forall x | x in s[1..] :: x in s;
      PartAll(s[1..], key, kind);
    }
  }

  lemma {:induction false} PartNone<T>(s: seq<T>, key: T -> int, kind: int)
    ensures Part(s, key, kind) == [] <==> forall x | x in s :: !In(kind, key(x))
  {
    if s != [] {
      PartNone(s[1..], key, kind);
      assert forall x :: x in s <==> x == s[0] || x in s[1..];
    }
  }

  lemma {:induction false} InsertAfter<T>(x: T, a: seq<T>, b: seq<T>, key: T -> int)
    requires forall y | y in a :: key(y) < key(x)
    ensures Insert(x, a + b, key) == a + Insert(x, b, key)
  {
    if a == [] {
      assert a + b == b;
    } else {
      assert a[0] in a;
      assert (a + b)[1..] == a[1..] + b;
      InsertAfter(x, a[1..], b, key);
    }
  }

  lemma {:induction false} InsertBefore<T>(x: T, a: seq<T>, b: seq<T>, key: T -> int)
    requires b == [] || key(x) <= key(b[0])
    ensures Insert(x, a + b, key) == Insert(x, a, key) + b
  {
    if a == [] {
      assert a + b == b;
    } else if key(x) > key(a[0]) {
      assert (a + b)[1..] == a[1..] + b;
      InsertBefore(x, a[1..], b, key);
    }
  }

  lemma {:induction false} PartMembers<T>(s: seq<T>, key: T -> int, kind: int, y: T)
    ensures y in Part(s, key, kind) <==> y in s && In(kind, key(y))
  {
    if s != [] {
      PartMembers(s[1..], key, kind, y);
      assert y in s <==> y == s[0] || y in s[1..];
    }
  }

  lemma InsertLow<T>(x: T, lows: seq<T>, zeros: seq<T>, highs: seq<T>, key: T -> int)
    requires key(x) < 0 && (forall y | y in zeros :: key(y) == 0) && forall y | y in highs :: key(y) > 0
    ensures Insert(x, lows + (zeros + highs), key) == Insert(x, lows, key) + (zeros + highs)
  {
    hide Insert;
    var later := zeros + highs;
    if later != [] { assert later[0] in zeros || later[0] in highs; }
    InsertBefore(x, lows, later, key);
  }

  lemma InsertZero<T>(x: T, lows: seq<T>, zeros: seq<T>, highs: seq<T>, key: T -> int)
    requires key(x) == 0 && (forall y | y in lows :: key(y) < 0)
    requires (forall y | y in zeros :: key(y) == 0) && forall y | y in highs :: key(y) > 0
    ensures Insert(x, lows + (zeros + highs), key) == lows + (([x] + zeros) + highs)
  {
    hide Insert;
    InsertAfter(x, lows, zeros + highs, key);
    InsertFirst(x, zeros, highs, key);
    Regroup([x], zeros, highs);
  }

  lemma InsertFirst<T>(x: T, zeros: seq<T>, highs: seq<T>, key: T -> int)
    requires key(x) == 0 && (forall y | y in zeros :: key(y) == 0) && forall y | y in highs :: key(y) > 0
    ensures Insert(x, zeros + highs, key) == [x] + (zeros + highs)
  {
    var later := zeros + highs;
    if later != [] { assert later[0] in zeros || later[0] in highs; }
  }

  lemma InsertHigh<T>(x: T, lows: seq<T>, zeros: seq<T>, highs: seq<T>, key: T -> int)
    requires key(x) > 0 && (forall y | y in lows :: key(y) < 0) && forall y | y in zeros :: key(y) == 0
    ensures Insert(x, lows + (zeros + highs), key) == lows + (zeros + Insert(x, highs, key))
  {
    hide Insert;
    InsertAfter(x, lows, zeros + highs, key);
    InsertAfter(x, zeros, highs, key);
  }

  /** The elements with key 0 stay together in their order, between the others. */
  lemma {:induction false} SortInThree<T>(s: seq<T>, key: T -> int)
    ensures Sort(s, key)
         == Sort(Part(s, key, -1), key) + (Part(s, key, 0) + Sort(Part(s, key, 1), key))
  {
    if s == [] {
      NoneToSort(key);
    } else {
      var x, rest := s[0], s[1..];
      SortInThree(rest, key);
      hide Insert, Part, Sort;
      SortStep(s, key);
      OnePart(s, key, 0);
      assert [] + Part(rest, key, 0) == Part(rest, key, 0);
      Signs(rest, key);
      PartInserted(s, key, -1);
      PartInserted(s, key, 1);
      var lows, zeros, highs := Sort(Part(rest, key, -1), key), Part(rest, key, 0), Sort(Part(rest, key, 1), key);
      if key(x) < 0 {
        InsertLow(x, lows, zeros, highs, key);
      } else if key(x) == 0 {
        InsertZero(x, lows, zeros, highs, key);
      } else {
        InsertHigh(x, lows, zeros, highs, key);
      }
    }
  }

  lemma Signs<T>(s: seq<T>, key: T -> int)
    ensures forall y | y in Sort(Part(s, key, -1), key) :: key(y) < 0
    ensures forall y | y in Part(s, key, 0) :: key(y) == 0
    ensures forall y | y in Sort(Part(s, key, 1), key) :: key(y) > 0
  {
    hide Sort, Part;
    var lows, zeros, highs := Sort(Part(s, key, -1), key), Part(s, key, 0), Sort(Part(s, key, 1), key);
    forall y | y in lows ensures key(y) < 0 {
      SortedPart(s, key, -1, y);
    }
    forall y | y in zeros ensures key(y) == 0 {
      PartMembers(s, key, 0, y);
    }
    forall y | y in highs ensures key(y) > 0 {
      SortedPart(s, key, 1, y);
    }
  }

  lemma NoneToSort<T>(key: T -> int)
    ensures Sort([], key) == Sort(Part([], key, -1), key) + (Part([], key, 0) + Sort(Part([], key, 1), key))
  {
  }

  lemma SortedPart<T>(s: seq<T>, key: T -> int, kind: int, y: T)
    ensures y in Sort(Part(s, key, kind), key) ==> y in s && In(kind, key(y))
  {
    PartMembers(s, key, kind, y);
    SortMembers(Part(s, key, kind), key, y);
  }

  lemma PartInserted<T>(s: seq<T>, key: T -> int, kind: int)
    requires s != []
    ensures Sort(Part(s, key, kind), key)
         == if In(kind, key(s[0])) then Insert(s[0], Sort(Part(s[1..], key, kind), key), key)
           else Sort(Part(s[1..], key, kind), key)
  {
    hide *;
    OnePart(s, key, kind);
    if In(kind, key(s[0])) {
      SortFirst(s[0], Part(s[1..], key, kind), key);
    } else {
      assert [] + Part(s[1..], key, kind) == Part(s[1..], key, kind);
    }
  }

  lemma SortFirst<T>(x: T, rest: seq<T>, key: T -> int)
    ensures Sort([x] + rest, key) == Insert(x, Sort(rest, key), key)
  {
    hide Insert;
    assert ([x] + rest)[1..] == rest;
  }

  lemma SortStep<T>(s: seq<T>, key: T -> int)
    requires s != []
    ensures Sort(s, key) == Insert(s[0], Sort(s[1..], key), key)
  {
  }

  /** What follows the key-0 elements of the first group. */
  function Tail<T>(p: seq<T>, q: seq<T>, key: T -> int): seq<T> {
    Part(q, key, 0) + Sort(Part(p + q, key, 1), key)
  }

  function Head<T>(p: seq<T>, q: seq<T>, key: T -> int): seq<T> {
    Sort(Part(p + q, key, -1), key) + Part(p, key, 0)
  }

  lemma TailMembers<T>(p: seq<T>, q: seq<T>, key: T -> int)
    ensures forall x | x in Tail(p, q, key) :: x in p + q
  {
    forall x | x in Tail(p, q, key) ensures x in p + q {
      PartMembers(q, key, 0, x);
      SortedPart(p + q, key, 1, x);
      hide Part, Sort;
      assert x in Part(q, key, 0) || x in Sort(Part(p + q, key, 1), key);
    }
  }

  /** Adding key-0 elements between two groups puts them last exactly when nothing in the
      first group sorts after them and nothing in the second with or after them. If not,
      some place holds an added element in one arrangement and another in the other. */
  lemma AddedLast<T>(p: seq<T>, added: seq<T>, q: seq<T>, key: T -> int)
    requires added != [] && (forall x | x in added :: key(x) == 0)
    ensures if (forall x | x in p :: key(x) <= 0) && (forall x | x in q :: key(x) < 0)
            then Sort(p + added + q, key) == Sort(p + q, key) + added
            else exists i | 0 <= i < |p| + |q| + |added| ::
              Sort(p + added + q, key)[i] in added && (Sort(p + q, key) + added)[i] in p + q
  {
    Decomposed(p, added, q, key);
    TailIsEmpty(p, q, key);
    TailMembers(p, q, key);
    hide Sort, Part, Tail, Head;
    var head, tail := Head(p, q, key), Tail(p, q, key);
    if tail == [] {
      assert head + added + [] == head + added && head + [] == head;
    } else {
      Apart(head, added, tail);
      assert tail[0] in tail;
    }
  }

  lemma Apart<T>(head: seq<T>, added: seq<T>, tail: seq<T>)
    requires added != [] && tail != []
    ensures (head + added + tail)[|head|] == added[0] && (head + tail + added)[|head|] == tail[0]
  {
  }

  lemma Decomposed<T>(p: seq<T>, added: seq<T>, q: seq<T>, key: T -> int)
    requires forall x | x in added :: key(x) == 0
    ensures Sort(p + added + q, key) == Head(p, q, key) + added + Tail(p, q, key)
    ensures Sort(p + q, key) == Head(p, q, key) + Tail(p, q, key)
  {
    SortInThree(p + added + q, key);
    SortInThree(p + q, key);
    ThreeParts(p, added, q, key, -1);
    ThreeParts(p, added, q, key, 0);
    ThreeParts(p, added, q, key, 1);
    PartAll(added, key, 0);
    PartNone(added, key, -1);
    PartNone(added, key, 1);
    hide Sort, Part;
    var z, y := Part(p, key, 0), Part(q, key, 0);
    var lows, highs := Sort(Part(p + q, key, -1), key), Sort(Part(p + q, key, 1), key);
    assert Part(p, key, -1) + [] == Part(p, key, -1) && Part(p, key, 1) + [] == Part(p, key, 1);
    Regroup(z + added, y, highs);
    Regroup(lows, z + added, y + highs);
    Regroup(lows, z, added);
    Regroup(z, y, highs);
    Regroup(lows, z, y + highs);
  }

  lemma ThreeParts<T>(p: seq<T>, added: seq<T>, q: seq<T>, key: T -> int, kind: int)
    ensures Part(p + added + q, key, kind) == Part(p, key, kind) + Part(added, key, kind) + Part(q, key, kind)
    ensures Part(p + q, key, kind) == Part(p, key, kind) + Part(q, key, kind)
  {
    hide Part;
    PartConcat(p + added, q, key, kind);
    PartConcat(p, added, key, kind);
    PartConcat(p, q, key, kind);
  }

  lemma TailIsEmpty<T>(p: seq<T>, q: seq<T>, key: T -> int)
    ensures Tail(p, q, key) == [] <==> (forall x | x in p :: key(x) <= 0) && (forall x | x in q :: key(x) < 0)
  {
    PartNone(q, key, 0);
    PartNone(p + q, key, 1);
    assert |Sort(Part(p + q, key, 1), key)| == |Part(p + q, key, 1)|;
    hide Sort, Part;
    assert forall x :: x in p + q <==> x in p || x in q;
  }
}
