/** A Python dict with string keys: its entries in the order their keys were first set. */
module PyDict {
  import opened Ordering

  type Dict<V> = seq<(string, V)>

  function Keys<V>(d: Dict<V>): set<string> {
    if d == [] then {} else {d[0].0} + Keys(d[1..])
  }

  /** Each key occurs once. */
  ghost predicate IsDict<V>(d: Dict<V>) {
    d == [] || (d[0].0 !in Keys(d[1..]) && IsDict(d[1..]))
  }

  /** `d[key] = value`: in place if the key is there, else at the end. */
  function Put<V>(d: Dict<V>, key: string, value: V): (r: Dict<V>)
    ensures Keys(r) == Keys(d) + {key}
    ensures IsDict(d) ==> IsDict(r)
  {
    if d == [] then [(key, value)]
    else if d[0].0 == key then [(key, value)] + d[1..]
    else [d[0]] + Put(d[1..], key, value)
  }

  /** `d.get(key)` */
  function Get<V>(d: Dict<V>, key: string): (r: Option<V>)
    ensures r.Some? <==> key in Keys(d)
  {
    if d == [] then None else if d[0].0 == key then Some(d[0].1) else Get(d[1..], key)
  }

  /** `del d[key]`, when it is there. */
  function Without<V>(d: Dict<V>, key: string): Dict<V> {
    if d == [] then [] else if d[0].0 == key then d[1..] else [d[0]] + Without(d[1..], key)
  }

  lemma {:induction false} PutSets<V>(d: Dict<V>, key: string, value: V, other: string)
    ensures Get(Put(d, key, value), other) == if other == key then Some(value) else Get(d, other)
  {
    if d != [] && d[0].0 != key { PutSets(d[1..], key, value, other); }
  }

  lemma {:induction false} PutTwice<V>(d: Dict<V>, key: string, first: V, second: V)
    ensures Put(Put(d, key, first), key, second) == Put(d, key, second)
  {
    if d != [] && d[0].0 != key { PutTwice(d[1..], key, first, second); }
  }

  /** Overwriting a key that is there commutes with setting another key. */
  lemma {:induction false} PutsCommute<V>(d: Dict<V>, key: string, value: V, other: string, second: V)
    requires key in Keys(d) && key != other
    ensures Put(Put(d, key, value), other, second) == Put(Put(d, other, second), key, value)
  {
    if d[0].0 != key && d[0].0 != other { PutsCommute(d[1..], key, value, other, second); }
  }

  lemma {:induction false} PutThenWithout<V>(d: Dict<V>, key: string, value: V)
    requires key !in Keys(d)
    ensures Put(d, key, value) == d + [(key, value)]
    ensures Without(Put(d, key, value), key) == d
  {
    if d != [] { PutThenWithout(d[1..], key, value); }
  }

  lemma {:induction false} WithoutCommutes<V>(d: Dict<V>, key: string, other: string, value: V)
    requires key != other
    ensures Without(Put(d, other, value), key) == Put(Without(d, key), other, value)
  {
    if d != [] && d[0].0 != key && d[0].0 != other { WithoutCommutes(d[1..], key, other, value); }
  }

  lemma {:induction false} WithoutForgets<V>(d: Dict<V>, key: string)
    requires IsDict(d)
    ensures Keys(Without(d, key)) == Keys(d) - {key}
    ensures IsDict(Without(d, key))
  {
    if d != [] && d[0].0 != key { WithoutForgets(d[1..], key); }
  }

  lemma {:induction false} AppendEntry<V>(d: Dict<V>, x: (string, V), key: string)
    ensures Keys(d + [x]) == Keys(d) + {x.0}
    ensures x.0 !in Keys(d) ==> Get(d + [x], key) == if key == x.0 then Some(x.1) else Get(d, key)
  {
    if d == [] {
      assert d + [x] == [x];
    } else {
      assert (d + [x])[1..] == d[1..] + [x];
      AppendEntry(d[1..], x, key);
    }
  }

  lemma {:induction false} NotBefore<V>(d: Dict<V>, i: nat)
    requires IsDict(d) && i < |d|
    ensures d[i].0 !in Keys(d[..i]) && d[i].0 in Keys(d)
  {
    if i > 0 {
      NotBefore(d[1..], i - 1);
      assert d[..i][1..] == d[1..][..i - 1];
    }
  }
}
