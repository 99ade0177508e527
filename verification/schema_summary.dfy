/** The summary of a difference (mcp_server/comparator.py `compare_schemas`, `_parse_schema`):
    which tables and columns are missing, extra or of another type. */
module SchemaSummary {
  import opened Ordering
  import opened PyDict

  /** A table's columns: name to type. */
  type Columns = Dict<string>
  type Schema = map<string, Columns>

  /** What one CREATE TABLE declares: its name and its columns, names possibly repeated. */
  type Declared = seq<(string, string)>
  type Create = (string, Declared)

  /** The dict built from the columns of one CREATE TABLE. */
  function Read(declared: Declared): (r: Columns)
    ensures IsDict(r)
  {
    if declared == [] then []
    else Put(Read(declared[..|declared| - 1]), declared[|declared| - 1].0, declared[|declared| - 1].1)
  }

  function Parsed(creates: seq<Create>): (r: Schema)
    ensures forall t :: t in r ==> IsDict(r[t])
  {
    if creates == [] then map[]
    else Parsed(creates[..|creates| - 1])[creates[|creates| - 1].0 := Read(creates[|creates| - 1].1)]
  }

  // ----- what the schema of a list of statements is -----

  /** The names in the order of their first occurrence, each once. */
  function FirstSeen(declared: Declared): (r: seq<string>)
    ensures forall c :: c in r <==> exists k :: 0 <= k < |declared| && declared[k].0 == c
  {
    if declared == [] then []
    else
      var front, last := declared[..|declared| - 1], declared[|declared| - 1].0;
      assert declared[|declared| - 1].0 == last && forall k | 0 <= k < |front| :: front[k] == declared[k];
      var before := FirstSeen(front);
      if last in before then before else before + [last]
  }

  /** No later entry has the name of entry `k`. */
  predicate IsLast<V>(entries: seq<(string, V)>, k: nat)
    requires k < |entries|
  {
    forall j | k < j < |entries| :: entries[j].0 != entries[k].0
  }

  function KeyList(d: Columns): (r: seq<string>)
    ensures |r| == |d| && forall i | 0 <= i < |r| :: r[i] == d[i].0
  {
    seq(|d|, i requires 0 <= i < |d| => d[i].0)
  }

  /** Columns in the order of first mention, each with the type mentioned last. */
  ghost predicate IsColumnsOf(declared: Declared, columns: Columns) {
    && IsDict(columns)
    && KeyList(columns) == FirstSeen(declared)
    && forall k | 0 <= k < |declared| && IsLast(declared, k) :: Get(columns, declared[k].0) == Some(declared[k].1)
  }

  /** The tables some statement creates, each with the columns of the last that does. */
  ghost predicate IsSchemaOf(creates: seq<Create>, tables: Schema) {
    && (forall t :: t in tables <==> exists i :: 0 <= i < |creates| && creates[i].0 == t)
    && forall i | 0 <= i < |creates| && IsLast(creates, i) ::
         creates[i].0 in tables && IsColumnsOf(creates[i].1, tables[creates[i].0])
  }

  lemma {:induction false} PutKeyList(d: Columns, key: string, value: string)
    ensures KeyList(Put(d, key, value)) == if key in Keys(d) then KeyList(d) else KeyList(d) + [key]
  {
    hide KeyList, IsDict;
    if d != [] && d[0].0 != key {
      PutKeyList(d[1..], key, value);
      assert KeyList(d) == [d[0].0] + KeyList(d[1..]);
      assert KeyList(Put(d, key, value)) == [d[0].0] + KeyList(Put(d[1..], key, value));
    }
  }

  lemma {:induction false} KeysListed(d: Columns, key: string)
    ensures key in Keys(d) <==> key in KeyList(d)
  {
    if d != [] {
      KeysListed(d[1..], key);
      assert KeyList(d) == [d[0].0] + KeyList(d[1..]);
    }
  }

  lemma {:induction false} ReadIs(declared: Declared)
    ensures IsColumnsOf(declared, Read(declared))
  {
    if declared != [] {
      hide Put, Get, Keys, IsDict, FirstSeen, KeyList;
      var n := |declared| - 1;
      var front, last := declared[..n], declared[n];
      ReadIs(front);
      PutKeyList(Read(front), last.0, last.1);
      KeysListed(Read(front), last.0);
      FirstSeenStep(declared);
      forall k | 0 <= k < |declared| && IsLast(declared, k)
        ensures Get(Read(declared), declared[k].0) == Some(declared[k].1)
      {
        PutSets(Read(front), last.0, last.1, declared[k].0);
        if k < n { assert front[k] == declared[k] && IsLast(front, k); }
      }
    } else {
      assert KeyList([]) == [];
    }
  }

  lemma FirstSeenStep(declared: Declared)
    requires declared != []
    ensures var front, last := declared[..|declared| - 1], declared[|declared| - 1].0;
            FirstSeen(declared) == if last in FirstSeen(front) then FirstSeen(front) else FirstSeen(front) + [last]
  {
  }

  lemma {:induction false} ParsedTables(creates: seq<Create>, t: string)
    ensures t in Parsed(creates) <==> exists i :: 0 <= i < |creates| && creates[i].0 == t
  {
    if creates != [] {
      hide Read;
      var n := |creates| - 1;
      ParsedTables(creates[..n], t);
      assert forall i | 0 <= i < n :: creates[..n][i] == creates[i];
      if t in Parsed(creates[..n]) {
        var i :| 0 <= i < n && creates[..n][i].0 == t;
        assert creates[i].0 == t;
      }
    }
  }

  lemma {:induction false} ParsedLast(creates: seq<Create>, i: nat)
    requires i < |creates| && IsLast(creates, i)
    ensures creates[i].0 in Parsed(creates) && Parsed(creates)[creates[i].0] == Read(creates[i].1)
  {
    hide Read;
    var n := |creates| - 1;
    if i < n {
      assert creates[..n][i] == creates[i] && IsLast(creates[..n], i);
      ParsedLast(creates[..n], i);
    }
  }

  lemma ParsedIs(creates: seq<Create>)
    ensures IsSchemaOf(creates, Parsed(creates))
  {
    hide Read, Parsed, IsColumnsOf;
    forall t ensures t in Parsed(creates) <==> exists i :: 0 <= i < |creates| && creates[i].0 == t {
      ParsedTables(creates, t);
    }
    forall i | 0 <= i < |creates| && IsLast(creates, i)
      ensures creates[i].0 in Parsed(creates) && IsColumnsOf(creates[i].1, Parsed(creates)[creates[i].0])
    {
      ParsedLast(creates, i);
      ReadIs(creates[i].1);
    }
  }

  /** `_parse_schema` on the CREATE TABLE statements of a normal form. */
  method ParseSchema(creates: seq<Create>) returns (tables: Schema)
    ensures IsSchemaOf(creates, tables)
    ensures tables == Parsed(creates)
  {
    tables := map[];
    var i := 0;
    while i < |creates|
      invariant 0 <= i <= |creates|
      invariant tables == Parsed(creates[..i])
    {
      var columns: Columns := [];
      var c := creates[i].1;
      var k := 0;
      while k < |c|
        invariant 0 <= k <= |c|
        invariant columns == Read(c[..k])
      {
        assert c[..k + 1][..k] == c[..k];
        columns := Put(columns, c[k].0, c[k].1);
        k := k + 1;
      }
      assert c[..k] == c;
      assert creates[..i + 1][..i] == creates[..i];
      tables := tables[creates[i].0 := columns];
      i := i + 1;
    }
    assert creates[..i] == creates;
    ParsedIs(creates);
  }

  datatype Mismatch = Mismatch(table: string, column: string, expected: string, actual: string)

  datatype Summary = Summary(
    missingTables: seq<string>,
    extraTables: seq<string>,
    missingColumns: seq<(string, string)>,
    typeMismatches: seq<Mismatch>)

  // ----- what each list holds, read from the two schemas alone -----

  ghost predicate IsMissingColumn(expected: Schema, actual: Schema, t: string, c: string) {
    t in expected && t in actual && c in Keys(expected[t]) && c !in Keys(actual[t])
  }

  ghost predicate IsMismatch(expected: Schema, actual: Schema, m: Mismatch) {
    && m.table in expected && m.table in actual
    && Get(expected[m.table], m.column) == Some(m.expected)
    && Get(actual[m.table], m.column) == Some(m.actual)
    && m.expected != m.actual
  }

  ghost predicate IsSummary(expected: Schema, actual: Schema, s: Summary) {
    && (forall t :: t in s.missingTables <==> t in expected && t !in actual)
    && (forall t :: t in s.extraTables <==> t in actual && t !in expected)
    && (forall x :: x in s.missingColumns <==> IsMissingColumn(expected, actual, x.0, x.1))
    && (forall m :: m in s.typeMismatches <==> IsMismatch(expected, actual, m))
  }

  // ----- the order of the report -----

  /** Position of a key, or the length. */
  function Place(d: Columns, key: string): nat {
    if d == [] || d[0].0 == key then 0 else 1 + Place(d[1..], key)
  }

  lemma {:induction false} PlaceOf(d: Columns, i: nat)
    requires IsDict(d) && i < |d|
    ensures Place(d, d[i].0) == i
  {
    if i > 0 {
      NotBefore(d, i);
      assert d[..i][0] == d[0];
      PlaceOf(d[1..], i - 1);
    }
  }

  /** Tables in order, and within one the expected columns in their order. */
  ghost predicate Reported(expected: Schema, x: (string, string), y: (string, string)) {
    (x.0 != y.0 && Leq(x.0, y.0))
    || (x.0 == y.0 && x.0 in expected && Place(expected[x.0], x.1) < Place(expected[x.0], y.1))
  }

  function Spot(m: Mismatch): (string, string) {
    (m.table, m.column)
  }

  ghost predicate InOrder(expected: Schema, s: seq<(string, string)>) {
    forall i, j | 0 <= i < j < |s| :: Reported(expected, s[i], s[j])
  }

  ghost predicate MismatchesInOrder(expected: Schema, s: seq<Mismatch>) {
    forall i, j | 0 <= i < j < |s| :: Reported(expected, Spot(s[i]), Spot(s[j]))
  }

  /** The loop over one table's expected columns. */
  method CompareTable(t: string, expected: Columns, actual: Columns)
    returns (missing: seq<(string, string)>, mismatches: seq<Mismatch>)
    requires IsDict(expected)
    ensures forall x :: x in missing <==> x.0 == t && x.1 in Keys(expected) && x.1 !in Keys(actual)
    ensures forall m :: m in mismatches <==>
              && m.table == t && m.expected != m.actual
              && Get(expected, m.column) == Some(m.expected) && Get(actual, m.column) == Some(m.actual)
    ensures InOrder(map[t := expected], missing) && MismatchesInOrder(map[t := expected], mismatches)
  {
    hide Keys, Get, IsDict, Place, Leq;
    missing, mismatches := [], [];
    var i := 0;
    assert Keys(expected[..0]) == {} by { NoKeys<string>(); }
    assert forall n :: Get(expected[..0], n) == None by { NoKeys<string>(); }
    while i < |expected|
      invariant 0 <= i <= |expected|
      invariant forall x :: x in missing <==> x.0 == t && x.1 in Keys(expected[..i]) && x.1 !in Keys(actual)
      invariant forall m :: m in mismatches <==>
                  && m.table == t && m.expected != m.actual
                  && Get(expected[..i], m.column) == Some(m.expected) && Get(actual, m.column) == Some(m.actual)
      invariant InOrder(map[t := expected], missing) && MismatchesInOrder(map[t := expected], mismatches)
      invariant forall x | x in missing :: Place(expected, x.1) < i
      invariant forall m | m in mismatches :: Place(expected, m.column) < i
    {
      var (column, typ) := expected[i];
      NextColumn(expected, i);
      PlaceOf(expected, i);
      var found := Get(actual, column);
      if found.None? {
        missing := missing + [(t, column)];
      } else if found.value != typ {
        mismatches := mismatches + [Mismatch(t, column, typ, found.value)];
      }
      i := i + 1;
    }
    assert expected[..i] == expected;
  }

  lemma NoKeys<V>()
    ensures Keys<V>([]) == {} && forall n :: Get<V>([], n) == None
  {
  }

  lemma NextColumn(c: Columns, i: nat)
    requires IsDict(c) && i < |c|
    ensures Keys(c[..i + 1]) == Keys(c[..i]) + {c[i].0} && c[i].0 !in Keys(c[..i])
    ensures forall n :: Get(c[..i + 1], n) == if n == c[i].0 then Some(c[i].1) else Get(c[..i], n)
  {
    hide Keys, Get, IsDict;
    assert c[..i + 1] == c[..i] + [c[i]];
    NotBefore(c, i);
    forall n ensures Get(c[..i + 1], n) == if n == c[i].0 then Some(c[i].1) else Get(c[..i], n) {
      AppendEntry(c[..i], c[i], n);
    }
    AppendEntry(c[..i], c[i], c[i].0);
  }

  /** The summary of two schemas. */
  method Summarize(expected: Schema, actual: Schema) returns (s: Summary)
    requires forall t :: t in expected ==> IsDict(expected[t])
    ensures IsSummary(expected, actual, s)
    ensures StrictlySorted(s.missingTables) && StrictlySorted(s.extraTables)
    ensures InOrder(expected, s.missingColumns) && MismatchesInOrder(expected, s.typeMismatches)
  {
    hide Keys, Get, IsDict, Sorted, Leq, Place;
    var missing: seq<(string, string)>, mismatches: seq<Mismatch> := [], [];
    var common := Sorted(expected.Keys * actual.Keys);
    var i := 0;
    while i < |common|
      invariant 0 <= i <= |common|
      invariant forall x :: x in missing <==> IsMissingColumn(expected, actual, x.0, x.1) && x.0 in common[..i]
      invariant forall m :: m in mismatches <==> IsMismatch(expected, actual, m) && m.table in common[..i]
      invariant InOrder(expected, missing) && MismatchesInOrder(expected, mismatches)
    {
      var t := common[i];
      assert t in common;
      assert common[..i + 1] == common[..i] + [t];
      assert forall u | u in common[..i] :: u != t && Leq(u, t);
      var more, wrong := CompareTable(t, expected[t], actual[t]);
      Extend(expected, t, missing, more);
      ExtendMismatches(expected, t, mismatches, wrong);
      missing := missing + more;
      mismatches := mismatches + wrong;
      i := i + 1;
    }
    assert common[..i] == common;
    s := Summary(Sorted(expected.Keys - actual.Keys), Sorted(actual.Keys - expected.Keys), missing, mismatches);
  }

  lemma Extend(expected: Schema, t: string, s: seq<(string, string)>, more: seq<(string, string)>)
    requires t in expected && InOrder(expected, s) && InOrder(map[t := expected[t]], more)
    requires (forall x | x in s :: x.0 != t && Leq(x.0, t)) && forall x | x in more :: x.0 == t
    ensures InOrder(expected, s + more)
  {
    hide Leq, Place;
  }

  lemma ExtendMismatches(expected: Schema, t: string, s: seq<Mismatch>, more: seq<Mismatch>)
    requires t in expected && MismatchesInOrder(expected, s) && MismatchesInOrder(map[t := expected[t]], more)
    requires (forall x | x in s :: x.table != t && Leq(x.table, t)) && forall x | x in more :: x.table == t
    ensures MismatchesInOrder(expected, s + more)
  {
    hide Leq, Place;
  }

  // ----- the partition -----

  /** Each expected table is missing or common, and each expected column of a common table
      is exactly one of missing, of another type, or the same. */
  lemma SummaryPartitions(expected: Schema, actual: Schema, s: Summary, t: string, c: string)
    requires IsSummary(expected, actual, s) && t in expected
    ensures t in s.missingTables <==> t !in actual
    ensures t in actual && c in Keys(expected[t]) ==>
              var missing := (t, c) in s.missingColumns;
              var mismatch := exists m :: m in s.typeMismatches && m.table == t && m.column == c;
              var equal := Get(expected[t], c) == Get(actual[t], c);
              (missing && !mismatch && !equal) || (!missing && mismatch && !equal) || (!missing && !mismatch && equal)
  {
    if t in actual && c in Keys(expected[t]) && c in Keys(actual[t]) && Get(expected[t], c) != Get(actual[t], c) {
      var m := Mismatch(t, c, Get(expected[t], c).value, Get(actual[t], c).value);
      assert IsMismatch(expected, actual, m);
      assert m in s.typeMismatches;
    }
  }

  /** Swapping the dumps exchanges missing and extra tables, and turns each mismatch round. */
  lemma SummarySwaps(expected: Schema, actual: Schema, s: Summary, r: Summary, t: string, m: Mismatch)
    requires IsSummary(expected, actual, s) && IsSummary(actual, expected, r)
    ensures t in s.missingTables <==> t in r.extraTables
    ensures t in s.extraTables <==> t in r.missingTables
    ensures m in s.typeMismatches <==> Mismatch(m.table, m.column, m.actual, m.expected) in r.typeMismatches
  {
    var turned := Mismatch(m.table, m.column, m.actual, m.expected);
    assert IsMismatch(expected, actual, m) <==> IsMismatch(actual, expected, turned);
  }

  // ----- differences the summary does not show -----

  predicate IsEmpty(s: Summary) {
    s.missingTables == [] && s.extraTables == [] && s.missingColumns == [] && s.typeMismatches == []
  }

  /** The same tables, and every expected column there with its type; the actual tables may
      have more columns. */
  ghost predicate Includes(expected: Schema, actual: Schema) {
    && expected.Keys == actual.Keys
    && forall t, c | t in expected && c in Keys(expected[t]) :: Get(actual[t], c) == Get(expected[t], c)
  }

  lemma EmptyList<T(!new)>(s: seq<T>)
    ensures s == [] <==> forall x :: x !in s
  {
    if s != [] { assert s[0] in s; }
  }

  lemma MismatchThere(expected: Schema, actual: Schema, t: string, c: string)
    requires t in expected && t in actual
    ensures (exists m :: IsMismatch(expected, actual, m) && m.table == t && m.column == c)
       <==> c in Keys(expected[t]) && c in Keys(actual[t]) && Get(expected[t], c) != Get(actual[t], c)
  {
    hide Keys, Get;
    var x, y := Get(expected[t], c), Get(actual[t], c);
    if x.Some? && y.Some? {
      assert IsMismatch(expected, actual, Mismatch(t, c, x.value, y.value)) <==> x != y;
    }
  }

  /** When the summary has nothing to say. */
  lemma EmptySummaryExactlyWhen(expected: Schema, actual: Schema, s: Summary)
    requires IsSummary(expected, actual, s)
    ensures IsEmpty(s) <==> Includes(expected, actual)
  {
    hide Keys, Get;
    EmptyList(s.missingTables);
    EmptyList(s.extraTables);
    EmptyList(s.missingColumns);
    EmptyList(s.typeMismatches);
    hide IsMismatch;
    assert s.missingTables == [] && s.extraTables == [] <==> expected.Keys == actual.Keys by {
      assert expected.Keys == actual.Keys <==> forall t :: t in expected <==> t in actual;
    }
    if expected.Keys == actual.Keys {
      forall t, c | t in expected
        ensures ((t, c) !in s.missingColumns && !(exists m :: m in s.typeMismatches && m.table == t && m.column == c))
           <==> (c in Keys(expected[t]) ==> Get(actual[t], c) == Get(expected[t], c))
      {
        MismatchThere(expected, actual, t, c);
      }
      TablesOf(expected, actual, s);
      if IsEmpty(s) {
        forall t, c | t in expected && c in Keys(expected[t]) ensures Get(actual[t], c) == Get(expected[t], c) {
          assert (t, c) !in s.missingColumns;
        }
      } else if Includes(expected, actual) {
        Nothing(expected, s);
      }
    }
  }

  lemma TablesOf(expected: Schema, actual: Schema, s: Summary)
    requires IsSummary(expected, actual, s)
    ensures forall x | x in s.missingColumns :: x.0 in expected
    ensures forall m | m in s.typeMismatches :: m.table in expected
  {
  }

  lemma Nothing(expected: Schema, s: Summary)
    requires s.missingTables == [] && s.extraTables == []
    requires forall x | x in s.missingColumns :: x.0 in expected
    requires forall m | m in s.typeMismatches :: m.table in expected
    requires forall t, c | t in expected ::
      (t, c) !in s.missingColumns && !(exists m :: m in s.typeMismatches && m.table == t && m.column == c)
    ensures IsEmpty(s)
  {
    forall x ensures x !in s.missingColumns {
      assert x == (x.0, x.1);
    }
    forall m ensures m !in s.typeMismatches {
      assert m.table in expected ==> (m.table, m.column) !in s.missingColumns;
    }
    EmptyList(s.missingColumns);
    EmptyList(s.typeMismatches);
  }

  /** The same tables, each with the same columns and types, in any order. */
  ghost predicate Alike(expected: Schema, actual: Schema) {
    && expected.Keys == actual.Keys
    && forall t, c | t in expected :: Get(actual[t], c) == Get(expected[t], c)
  }

  /** The dumps compared either way round, nothing is reported exactly when the tables have
      the same columns with the same types. */
  lemma BothEmptyExactlyWhen(expected: Schema, actual: Schema, s: Summary, r: Summary)
    requires IsSummary(expected, actual, s) && IsSummary(actual, expected, r)
    ensures IsEmpty(s) && IsEmpty(r) <==> Alike(expected, actual)
  {
    EmptySummaryExactlyWhen(expected, actual, s);
    EmptySummaryExactlyWhen(actual, expected, r);
    hide Keys, Get, IsSummary;
    if Includes(expected, actual) && Includes(actual, expected) {
      forall t, c | t in expected ensures Get(actual[t], c) == Get(expected[t], c) {
        assert c in Keys(expected[t]) || c in Keys(actual[t]) || Get(actual[t], c) == None;
      }
    }
  }
}
