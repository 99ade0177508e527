/** The options and orders every other module shares: Python's order on `str`, the
    stable `sorted(items, key=...)`, and `sorted` of a set of strings. */
module Ordering {

  datatype Option<+T> = None | Some(value: T)

  /** Code points compared from the left, a proper prefix first. */
  predicate Leq(a: string, b: string) {
    a == [] || (b != [] && (a[0] < b[0] || (a[0] == b[0] && Leq(a[1..], b[1..]))))
  }

  /** At the first place where they differ, the first string is smaller. */
  predicate AheadAt(a: string, b: string, k: nat) {
    k < |a| && k < |b| && a[..k] == b[..k] && a[k] < b[k]
  }

  /** One is the beginning of the other, or ahead of it at the first difference. */
  ghost predicate Precedes(a: string, b: string) {
    a <= b || exists k: nat :: AheadAt(a, b, k)
  }

  lemma AheadAfter(a: string, b: string, k: nat)
    requires a != [] && b != [] && a[0] == b[0]
    ensures AheadAt(a, b, k + 1) <==> AheadAt(a[1..], b[1..], k)
    ensures !AheadAt(a, b, 0)
  {
    if k < |a| - 1 && k < |b| - 1 {
      assert a[..k + 1] == [a[0]] + a[1..][..k] && b[..k + 1] == [b[0]] + b[1..][..k];
      assert a[..k + 1][1..] == a[1..][..k] && b[..k + 1][1..] == b[1..][..k];
    }
  }

  lemma SameStart(a: string, b: string, k: nat)
    requires AheadAt(a, b, k)
    ensures k > 0 ==> a[0] == b[0]
  {
    if k > 0 { assert a[..k][0] == b[..k][0]; }
  }

  lemma {:induction false} LeqIs(a: string, b: string)
    ensures Leq(a, b) <==> Precedes(a, b)
  {
    if a != [] && b != [] {
      if a[0] != b[0] {
        assert AheadAt(a, b, 0) <==> a[0] < b[0];
        if k: nat :| AheadAt(a, b, k) { SameStart(a, b, k); }
      } else {
        hide AheadAt;
        LeqIs(a[1..], b[1..]);
        assert a <= b <==> a[1..] <= b[1..] by { assert a == [a[0]] + a[1..] && b == [b[0]] + b[1..]; }
        AheadAfter(a, b, 0);
        if k: nat :| AheadAt(a, b, k) { AheadAfter(a, b, k - 1); }
        if k: nat :| AheadAt(a[1..], b[1..], k) { AheadAfter(a, b, k); }
      }
    }
  }

  lemma {:induction false} LeqTotal(a: string, b: string)
    ensures Leq(a, b) || Leq(b, a)
  {
    if a != [] && b != [] {
      LeqTotal(a[1..], b[1..]);
    }
  }

  lemma {:induction false} LeqAntisymmetric(a: string, b: string)
    requires Leq(a, b) && Leq(b, a)
    ensures a == b
  {
    if a != [] {
      LeqAntisymmetric(a[1..], b[1..]);
      assert a == [a[0]] + a[1..] && b == [b[0]] + b[1..];
    }
  }

  lemma {:induction false} LeqTransitive(a: string, b: string, c: string)
    requires Leq(a, b) && Leq(b, c)
    ensures Leq(a, c)
  {
    if a != [] && a[0] == b[0] == c[0] {
      LeqTransitive(a[1..], b[1..], c[1..]);
    }
  }

  /** The key tells the elements of `s` apart. */
  ghost predicate TellsApart<T>(key: T -> string, s: seq<T>) {
    forall x, y | x in s && y in s :: key(x) == key(y) ==> x == y
  }

  ghost predicate SortedBy<T>(s: seq<T>, key: T -> string) {
    forall i, j :: 0 <= i < j < |s| ==> Leq(key(s[i]), key(s[j]))
  }

  /** Put `x` before the first element whose key is not smaller. */
  function Insert<T>(x: T, s: seq<T>, key: T -> string): (r: seq<T>)
    ensures multiset(r) == multiset{x} + multiset(s)
    ensures |r| == |s| + 1
  {
    if s == [] || Leq(key(x), key(s[0])) then [x] + s
    else
      assert s == [s[0]] + s[1..];
      [s[0]] + Insert(x, s[1..], key)
  }

  /** `sorted(s, key=key)`: a stable insertion sort. */
  function SortBy<T>(s: seq<T>, key: T -> string): (r: seq<T>)
    ensures multiset(r) == multiset(s)
    ensures |r| == |s|
  {
    if s == [] then []
    else
      assert s == [s[0]] + s[1..];
      Insert(s[0], SortBy(s[1..], key), key)
  }

  lemma {:induction false} InsertSorted<T>(x: T, s: seq<T>, key: T -> string)
    requires SortedBy(s, key)
    ensures SortedBy(Insert(x, s, key), key)
  {
    if s == [] {
    } else if Leq(key(x), key(s[0])) {
      forall j | 0 <= j < |s| ensures Leq(key(x), key(s[j])) {
        if j > 0 {
          LeqTransitive(key(x), key(s[0]), key(s[j]));
        }
      }
    } else {
      LeqTotal(key(x), key(s[0]));
      InsertSorted(x, s[1..], key);
      var rest := Insert(x, s[1..], key);
      forall j | 0 <= j < |rest| ensures Leq(key(s[0]), key(rest[j])) {
        assert rest[j] in multiset(rest);
        assert rest[j] == x || rest[j] in s[1..];
      }
    }
  }

  lemma {:induction false} SortBySorted<T>(s: seq<T>, key: T -> string)
    ensures SortedBy(SortBy(s, key), key)
  {
    if s != [] {
      SortBySorted(s[1..], key);
      InsertSorted(s[0], SortBy(s[1..], key), key);
    }
  }

  lemma LeastIsFirst<T>(a: seq<T>, b: seq<T>, key: T -> string)
    requires TellsApart(key, a) && a != [] && b != []
    requires SortedBy(a, key) && SortedBy(b, key) && a[0] in b && b[0] in a
    ensures a[0] == b[0]
  {
    LeqTotal(key(a[0]), key(a[0]));
    assert Leq(key(a[0]), key(b[0])) && Leq(key(b[0]), key(a[0]));
    LeqAntisymmetric(key(a[0]), key(b[0]));
  }

  /** Two sorted arrangements of the same elements are the same sequence. */
  lemma {:induction false} SortedUnique<T>(a: seq<T>, b: seq<T>, key: T -> string)
    requires TellsApart(key, a)
    requires SortedBy(a, key) && SortedBy(b, key)
    requires multiset(a) == multiset(b)
    ensures a == b
  {
    hide Leq;
    assert |a| == |multiset(a)| == |multiset(b)| == |b|;
    if a != [] {
      assert a[0] in multiset(b) && b[0] in multiset(a);
      assert a[0] in b && b[0] in a;
      LeastIsFirst(a, b, key);
      assert a == [a[0]] + a[1..] && b == [b[0]] + b[1..];
      assert multiset(a[1..]) == multiset(a) - multiset{a[0]};
      assert multiset(b[1..]) == multiset(b) - multiset{b[0]};
      SortedUnique(a[1..], b[1..], key);
    }
  }

  /** Sorting forgets the order it was given, and only that. */
  lemma SortByPermutation<T>(a: seq<T>, b: seq<T>, key: T -> string)
    requires TellsApart(key, a)
    ensures SortBy(a, key) == SortBy(b, key) <==> multiset(a) == multiset(b)
  {
    SortBySorted(a, key);
    SortBySorted(b, key);
    if multiset(a) == multiset(b) {
      assert forall x | x in SortBy(a, key) :: x in multiset(SortBy(a, key)) && x in multiset(a) && x in a;
      SortedUnique(SortBy(a, key), SortBy(b, key), key);
    }
  }

  // ----- taking one element out -----

  function WithoutIndex<T>(s: seq<T>, k: nat): seq<T>
    requires k < |s|
  {
    s[..k] + s[k + 1..]
  }

  lemma WithoutIndexMultiset<T>(s: seq<T>, k: nat)
    requires k < |s|
    ensures multiset(WithoutIndex(s, k)) + multiset{s[k]} == multiset(s)
  {
    assert s == s[..k] + [s[k]] + s[k + 1..];
  }

  // ----- sorted(set) -----

  lemma {:induction false} LeastExists(s: set<string>)
    requires s != {}
    ensures exists m :: m in s && forall y | y in s :: Leq(m, y)
  {
    var x :| x in s;
    var rest := s - {x};
    LeqTotal(x, x);
    if rest != {} {
      LeastExists(rest);
      var m :| m in rest && forall y | y in rest :: Leq(m, y);
      LeqTotal(x, m);
      var least := if Leq(x, m) then x else m;
      forall y | y in s ensures Leq(least, y) {
        if y in rest && least == x {
          LeqTransitive(x, m, y);
        }
      }
    } else {
      assert s == {x};
    }
  }

  ghost predicate StrictlySorted(s: seq<string>) {
    forall i, j :: 0 <= i < j < |s| ==> s[i] != s[j] && Leq(s[i], s[j])
  }

  lemma LeastUnique(s: set<string>, m: string, n: string)
    requires m in s && n in s && (forall y | y in s :: Leq(m, y)) && (forall y | y in s :: Leq(n, y))
    ensures m == n
  {
    LeqAntisymmetric(m, n);
  }

  /** The least element of a non-empty set. */
  function Least(s: set<string>): (m: string)
    requires s != {}
    ensures m in s && forall y | y in s :: Leq(m, y)
  {
    LeastExists(s);
    assert forall m, n | m in s && n in s && (forall y | y in s :: Leq(m, y)) && (forall y | y in s :: Leq(n, y)) ::
        m == n by {
      forall m, n | m in s && n in s && (forall y | y in s :: Leq(m, y)) && (forall y | y in s :: Leq(n, y))
        ensures m == n
      {
        LeastUnique(s, m, n);
      }
    }
    var m :| m in s && forall y | y in s :: Leq(m, y);
    m
  }

  /** `sorted(s)` for a set: every element once, in order. */
  function Sorted(s: set<string>): (r: seq<string>)
    ensures forall x :: x in r <==> x in s
    ensures |r| == |s|
    ensures StrictlySorted(r)
  {
    if s == {} then []
    else
      var m := Least(s);
      [m] + Sorted(s - {m})
  }
}
