/** When the two reference modes agree. */
module ReferenceModes {
  import opened Ordering
  import opened PyDict
  import opened Mutations
  import opened MutationSimulation
  import opened MutationRuns
  import opened DeclaredTables
  import opened TrackB
  import opened ColumnLayout
  import StableSort

  // ----- the classes after a log -----

  /** The classes a log of additions leads to. */
  function Final(models: seq<Model>, log: seq<Mutation>): seq<Model>
    requires ReplayModels(models, log).Some?
  {
    ReplayModels(models, log).value
  }

  /** The facts every entry of an accepted log of additions meets. */
  lemma Entries(models: seq<Model>, log: seq<Mutation>)
    requires AllAdds(log) && ReplayModels(models, log).Some?
    ensures forall i | 0 <= i < |log| :: WellTyped(log[i]) && FirstModel(models, log[i].table) < |models|
  {
    hide *;
    forall i | 0 <= i < |log| ensures WellTyped(log[i]) && FirstModel(models, log[i].table) < |models| {
      AddIsNew(models, log, i);
    }
  }

  lemma NewDefIsSimple(w: World, m: Mutation)
    requires WellTyped(m)
    ensures SortOrder(w, NewDef(m)) == 0 && forall a :: ColumnName(w, a, NewDef(m)) == a
  {
  }

  lemma {:induction false} AddedIsDict(models: seq<Model>, log: seq<Mutation>, k: nat)
    requires AllAdds(log) && ReplayModels(models, log).Some?
    ensures IsDict(Added(models, log, k))
  {
    if log != [] {
      var n, m := |log| - 1, log[|log| - 1];
      assert AllAdds(log[..n]);
      hide ReplayModels, FirstModel, NewDef, AllAdds, Keys, IsDict;
      PrefixReplays(models, log, n);
      AddedIsDict(models, log[..n], k);
      AddIsNew(models, log, n);
      AddedStep(models, log, k);
      var front := Added(models, log[..n], k);
      if FirstModel(models, m.table) == k {
        DictAppend(front, (m.column, NewDef(m)));
      } else {
        assert front + [] == front;
      }
    } else {
      NothingAdded(models, k);
    }
  }

  lemma NothingAdded(models: seq<Model>, k: nat)
    ensures Added(models, [], k) == [] && IsDict(Added(models, [], k))
  {
  }

  lemma {:induction false} DictAppend<V>(d: Dict<V>, x: (string, V))
    requires IsDict(d) && x.0 !in Keys(d)
    ensures IsDict(d + [x])
  {
    if d == [] {
      assert d + [x] == [x] && [x][1..] == [];
    } else {
      assert (d + [x])[1..] == d[1..] + [x];
      KeysConcat(d[1..], [x]);
      OneKey(x);
      DictAppend(d[1..], x);
    }
  }

  lemma AddedIsSimple(w: World, models: seq<Model>, log: seq<Mutation>, k: nat)
    requires AllAdds(log) && ReplayModels(models, log).Some?
    ensures Simple(w, Added(models, log, k))
  {
    Entries(models, log);
    hide ReplayModels, FirstModel, NewDef, AllAdds, ColumnName, SortOrder, Added;
    forall x | x in Added(models, log, k) ensures ColumnName(w, x.0, x.1) == x.0 && SortOrder(w, x.1) == 0 {
      AddedMembers(models, log, k, x);
      var i :| 0 <= i < |log| && FirstModel(models, log[i].table) == k && x == (log[i].column, NewDef(log[i]));
      NewDefIsSimple(w, log[i]);
    }
  }

  // ----- keys -----

  /** Nothing of a class but its columns has changed. */
  ghost predicate SameClasses(models: seq<Model>, after: seq<Model>) {
    && |after| == |models| && Mixins(after) == Mixins(models)
    && forall k | 0 <= k < |models| ::
      && after[k].name == models[k].name && after[k].bases == models[k].bases && after[k].tables == models[k].tables
      && after[k].table.args == models[k].table.args && after[k].table.rest == models[k].table.rest
  }

  lemma FinalIsSame(models: seq<Model>, log: seq<Mutation>)
    requires AllAdds(log) && ReplayModels(models, log).Some?
    ensures SameClasses(models, Final(models, log))
    ensures forall k | 0 <= k < |models| ::
      Final(models, log)[k].table == Grown(models[k].table, Added(models, log, k))
  {
    AddsGrow(models, log);
    hide ReplayModels, AllAdds, Added, Mixins, FirstModel;
  }

  lemma SameKey(w: World, models: seq<Model>, after: seq<Model>)
    requires SameClasses(models, after)
    ensures forall k | 0 <= k < |models| :: TableKey(w, after, k) == TableKey(w, models, k)
    ensures forall k | 0 <= k < |models| :: Inherited(w, after, k) == Inherited(w, models, k)
    ensures TableKeys(w, after) == TableKeys(w, models)
    ensures NamedOnce(after) <==> NamedOnce(models)
    ensures KeysDiffer(w, after) <==> KeysDiffer(w, models)
  {
    hide Mixins, NameGiven;
    forall k | 0 <= k < |models| ensures TableKey(w, after, k) == TableKey(w, models, k) {
    }
    hide TableKey;
  }

  lemma {:induction false} SameKeyIndex(w: World, models: seq<Model>, after: seq<Model>, key: string, from: nat)
    requires SameClasses(models, after) && from <= |models|
    ensures KeyIndex(w, after, key, from) == KeyIndex(w, models, key, from)
    decreases |models| - from
  {
    hide SameClasses;
    SameClassesLength(models, after);
    SameKey(w, models, after);
    hide TableKey;
    if from < |models| { SameKeyIndex(w, models, after, key, from + 1); }
  }

  lemma SameClassesLength(models: seq<Model>, after: seq<Model>)
    requires SameClasses(models, after)
    ensures |after| == |models|
  {
  }

  lemma KeyFound(w: World, models: seq<Model>, key: string)
    ensures key in TableKeys(w, models) <==> KeyIndex(w, models, key, 0) < |models|
    ensures key in MetaData(w, models) <==> key in TableKeys(w, models)
    ensures key in MetaData(w, models) ==> MetaData(w, models)[key] == BuiltAt(w, models, KeyIndex(w, models, key, 0))
  {
    hide TableKey, BuiltAt, KeyIndex;
  }

  lemma KeyIndexIs(w: World, models: seq<Model>, key: string, k: nat)
    requires KeysDiffer(w, models) && k < |models| && TableKey(w, models, k) == Some(key)
    ensures KeyIndex(w, models, key, 0) == k
  {
    hide TableKey;
  }

  // ----- which logs the loop gets through -----

  /** The class edited has its table in the metadata under the plain name; the column is one that SQLAlchemy
      finds by the name written; no column of the table has that name; and the database adds
      it by its clause. */
  ghost predicate Addable(w: World, created: Tables, models: seq<Model>, m: Mutation)
    requires WellTyped(m) && FirstModel(models, m.table) < |models|
  {
    var k := FirstModel(models, m.table);
    && TableKey(w, models, k) == Some(m.table)
    && Scanned(m.column)
    && m.column !in Keys(BuiltAt(w, models, k).columns)
    && w.alters(created, m.table, m.column, NewDef(m))
  }

  ghost predicate WellLogged(models: seq<Model>, log: seq<Mutation>) {
    forall i | 0 <= i < |log| :: WellTyped(log[i]) && FirstModel(models, log[i].table) < |models|
  }

  ghost predicate AllAddable(w: World, created: Tables, models: seq<Model>, log: seq<Mutation>)
    requires WellLogged(models, log)
  {
    forall i | 0 <= i < |log| :: Addable(w, created, models, log[i])
  }

  /** Its names are ones SQLAlchemy finds, and new to the table. */
  ghost predicate NewNames(w: World, models: seq<Model>, log: seq<Mutation>, k: nat)
    requires k < |models|
  {
    Public(Added(models, log, k)) && Keys(Added(models, log, k)) !! Keys(BuiltAt(w, models, k).columns)
  }

  lemma NamesAreNew(w: World, models: seq<Model>, log: seq<Mutation>, k: nat)
    requires AllAdds(log) && WellLogged(models, log) && k < |models|
    requires forall i | 0 <= i < |log| && FirstModel(models, log[i].table) == k ::
      Scanned(log[i].column) && log[i].column !in Keys(BuiltAt(w, models, k).columns)
    ensures NewNames(w, models, log, k)
  {
    hide FirstModel, NewDef, AllAdds, Added, BuiltAt, Scanned, Keys;
    var added := Added(models, log, k);
    forall x | x in added ensures Scanned(x.0) && x.0 !in Keys(BuiltAt(w, models, k).columns) {
      AddedMembers(models, log, k, x);
    }
    forall key | key in Keys(added) ensures key !in Keys(BuiltAt(w, models, k).columns) {
      KeyEntry(added, key);
    }
  }

  /** What the final metadata says of a logged column, when its class has only new names. */
  lemma LoggedRead(w: World, models: seq<Model>, log: seq<Mutation>, k: nat, x: (string, ColumnDef))
    requires AllAdds(log) && ReplayModels(models, log).Some? && k < |models|
    requires NewNames(w, models, log, k) && x in Added(models, log, k)
    ensures k < |Final(models, log)|
    ensures Get(BuiltAt(w, Final(models, log), k).columns, x.0) == Some(Stored(x.1, w.beside(x.1)))
  {
    var model, added, inherited := models[k], Added(models, log, k), Inherited(w, models, k);
    FinalIsSame(models, log);
    AddedIsDict(models, log, k);
    AddedIsSimple(w, models, log, k);
    SameKey(w, models, Final(models, log));
    hide ReplayModels, AllAdds, Added, FirstModel, Own, Laid, Keys, IsDict, Get, Scanned, Mangled, Unshadowed,
      Inherited, Full, ColumnName, SortOrder;
    var columns, class_ := model.table.columns, model.name;
    assert BuiltAt(w, Final(models, log), k) == Built(w, class_, Grown(model.table, added), inherited);
    OwnHasAdded(class_, columns, added, x);
    GrownRead(w, class_, model.table, added, inherited, x);
  }

  lemma GrownRead(w: World, class_: string, t: Table, added: Dict<ColumnDef>, inherited: Dict<ColumnDef>,
                  x: (string, ColumnDef))
    requires Public(added) && IsDict(added) && Simple(w, added) && x in added
    requires Keys(added) !! Keys(Built(w, class_, t, inherited).columns)
    ensures Get(Built(w, class_, Grown(t, added), inherited).columns, x.0) == Some(Stored(x.1, w.beside(x.1)))
  {
    hide Own, Laid, Keys, IsDict, Get, Unshadowed, ColumnName, SortOrder, Mangled, Scanned;
    var own, after := Own(class_, t.columns), Own(class_, t.columns + added);
    var laid := Laid(w, after, inherited);
    var full, v := Full(w, laid), Stored(x.1, w.beside(x.1));
    OwnHasAdded(class_, t.columns, added, x);
    LaidMembers(w, after, inherited, x);
    var j :| 0 <= j < |laid| && laid[j] == x;
    assert full[j] == (x.0, v) && full[j] in full;
    EntryKey(added, x);
    forall y | y in full && y.0 == x.0 ensures y.1 == v {
      var i :| 0 <= i < |full| && full[i] == y;
      var e := laid[i];
      assert e in laid && ColumnName(w, e.0, e.1) == x.0;
      FinalEntry(w, class_, t, added, inherited, e);
      if z :| z in added && Makes(class_, z, e) {
        PublicIs(added, z);
        PublicName(class_, z.0);
        assert ColumnName(w, z.0, z.1) == z.0;
        DictEntry(added, z, x);
      } else {
        FullKeys(w, Laid(w, own, inherited), x.0);
      }
    }
    GetOnly(full, x.0, v);
  }

  lemma PublicIs(added: Dict<ColumnDef>, z: (string, ColumnDef))
    requires Public(added) && z in added
    ensures Scanned(z.0)
  {
  }

  /** A column of the grown table is one the table had, or an added one. */
  lemma FinalEntry(w: World, class_: string, t: Table, added: Dict<ColumnDef>, inherited: Dict<ColumnDef>,
                   e: (string, ColumnDef))
    requires e in Laid(w, Own(class_, t.columns + added), inherited)
    ensures e in Laid(w, Own(class_, t.columns), inherited)
         || exists z | z in added :: Makes(class_, z, e)
  {
    hide Own, Laid, Mangled, Scanned, Unshadowed, Keys;
    var own, after := Own(class_, t.columns), Own(class_, t.columns + added);
    LaidMembers(w, after, inherited, e);
    LaidMembers(w, own, inherited, e);
    if e in after {
      OwnEntries(class_, t.columns, added, e);
    } else {
      OwnKeeps(class_, t.columns, added);
      UnshadowedLess(own, after, inherited);
    }
  }

  lemma {:induction false} OwnKeeps(class_: string, columns: Dict<ColumnDef>, added: Dict<ColumnDef>)
    ensures Keys(Own(class_, columns)) <= Keys(Own(class_, columns + added))
  {
    if added == [] {
      assert columns + added == columns;
    } else {
      hide Own, Put, Mangled, Scanned, Keys;
      var front, last := added[..|added| - 1], added[|added| - 1];
      assert columns + added == (columns + front) + [last];
      OwnKeeps(class_, columns, front);
      OwnAppend(class_, columns + front, last);
    }
  }

  // ----- the loop gets through when every column can be added -----

  /** The created tables with what a log adds to them, clause by clause. */
  function WithAdded(w: World, models: seq<Model>, log: seq<Mutation>): Tables {
    map key | key in TableKeys(w, models) ::
      (var k := KeyIndex(w, models, key, 0); Extended(BuiltAt(w, models, k), Bare(Added(models, log, k))))
  }

  lemma BareKeys(d: Dict<ColumnDef>, key: string)
    ensures key in Keys(Bare(d)) <==> key in Keys(d)
  {
    hide Keys;
    KeyEntry(Bare(d), key);
    KeyEntry(d, key);
    if x :| x in d && x.0 == key {
      var i :| 0 <= i < |d| && d[i] == x;
      assert Bare(d)[i] in Bare(d);
    }
    if y :| y in Bare(d) && y.0 == key {
      var i :| 0 <= i < |d| && Bare(d)[i] == y;
      assert d[i] in d;
    }
  }

  lemma RecreatedUpdated(start: Tables, meta: Tables, t: string, v: DbTable)
    requires t in meta
    ensures Recreated(start, meta)[t := v] == Recreated(start, meta[t := v])
  {
    assert meta[t := v].Keys == meta.Keys;
  }

  lemma WithAddedAt(w: World, models: seq<Model>, log: seq<Mutation>, key: string, k: nat)
    requires k < |models| && KeyIndex(w, models, key, 0) == k
    ensures key in WithAdded(w, models, log)
    ensures WithAdded(w, models, log)[key] == Extended(BuiltAt(w, models, k), Bare(Added(models, log, k)))
  {
    hide TableKey, BuiltAt, Added, Bare, KeyIndex;
    KeyFound(w, models, key);
  }

  lemma WithAddedKeys(w: World, models: seq<Model>, log: seq<Mutation>)
    ensures WithAdded(w, models, log).Keys == TableKeys(w, models)
  {
    hide TableKey, BuiltAt, Added, Bare, KeyIndex, TableKeys;
  }

  /** One more entry of the log extends the table of the class it edits, and no other. */
  lemma WithOneMore(w: World, models: seq<Model>, log: seq<Mutation>, i: nat)
    requires i < |log| && WellTyped(log[i]) && KeysDiffer(w, models)
    requires var k := FirstModel(models, log[i].table);
             k < |models| && TableKey(w, models, k) == Some(log[i].table)
    ensures var before, after, m := WithAdded(w, models, log[..i]), WithAdded(w, models, log[..i + 1]), log[i];
            && m.table in before && m.table in after && after == before[m.table := after[m.table]]
            && after[m.table] == Extended(before[m.table], [(m.column, Stored(NewDef(m), {}))])
  {
    hide TableKey, BuiltAt, Added, Bare, KeyIndex, FirstModel, NewDef, WithAdded, KeysDiffer;
    var m, k := log[i], FirstModel(models, log[i].table);
    var before, after := WithAdded(w, models, log[..i]), WithAdded(w, models, log[..i + 1]);
    KeyIndexIs(w, models, m.table, k);
    WithAddedAt(w, models, log[..i], m.table, k);
    WithAddedAt(w, models, log[..i + 1], m.table, k);
    WithAddedKeys(w, models, log[..i]);
    WithAddedKeys(w, models, log[..i + 1]);
    assert log[..i + 1][..i] == log[..i] && log[..i + 1][i] == m;
    AddedStep(models, log[..i + 1], k);
    var a, c := Added(models, log[..i], k), BuiltAt(w, models, k).columns;
    BareAppend(a, (m.column, NewDef(m)));
    StableSort.Regroup(c, Bare(a), [(m.column, Stored(NewDef(m), {}))]);
    forall key | key in before && key != m.table ensures after[key] == before[key] {
      KeyFound(w, models, key);
      var j := KeyIndex(w, models, key, 0);
      assert j != k;
      WithAddedAt(w, models, log[..i], key, j);
      WithAddedAt(w, models, log[..i + 1], key, j);
      AddedStep(models, log[..i + 1], j);
      assert Added(models, log[..i], j) + [] == Added(models, log[..i], j);
    }
  }

  lemma BareAppend(a: Dict<ColumnDef>, x: (string, ColumnDef))
    ensures Bare(a + [x]) == Bare(a) + [(x.0, Stored(x.1, {}))]
  {
  }

  lemma AllNamesNew(w: World, created: Tables, models: seq<Model>, log: seq<Mutation>, k: nat)
    requires AllAdds(log) && WellLogged(models, log) && AllAddable(w, created, models, log) && k < |models|
    ensures NewNames(w, models, log, k)
  {
    hide FirstModel, BuiltAt, Scanned, TableKey, Keys, NewDef;
    assert forall i | 0 <= i < |log| :: Addable(w, created, models, log[i]);
    NamesAreNew(w, models, log, k);
  }

  lemma AddedHas(models: seq<Model>, log: seq<Mutation>, i: nat)
    requires AllAdds(log) && WellLogged(models, log) && i < |log|
    ensures (log[i].column, NewDef(log[i])) in Added(models, log, FirstModel(models, log[i].table))
  {
    hide FirstModel, NewDef, Added;
    AddedMembers(models, log, FirstModel(models, log[i].table), (log[i].column, NewDef(log[i])));
  }

  /** One ALTER of the log, on the tables as they are when its turn comes. */
  lemma AlterOne(w: World, start: Tables, models: seq<Model>, log: seq<Mutation>, i: nat)
    requires AllAdds(log) && ReplayModels(models, log).Some? && KeysDiffer(w, models) && i < |log|
    requires WellLogged(models, log) && AllAddable(w, Recreated(start, MetaData(w, models)), models, log)
    ensures var created, meta := Recreated(start, MetaData(w, models)), MetaData(w, Final(models, log));
            var before, after := WithAdded(w, models, log[..i]), WithAdded(w, models, log[..i + 1]);
            var next := AddColumnTo(w, created, Recreated(start, before), meta, log[i].table, log[i].column);
            next == Some(Recreated(start, after))
  {
    hide ReplayModels, AllAdds, Added, FirstModel, TableKey, BuiltAt, MetaData, WithAdded, KeyIndex, Get, Keys,
      NewDef, Scanned, KeysDiffer, Final, NewNames, Bare;
    var m, created := log[i], Recreated(start, MetaData(w, models));
    var k := FirstModel(models, m.table);
    assert Addable(w, created, models, m);
    AllNamesNew(w, created, models, log, k);
    AddedHas(models, log, i);
    LoggedRead(w, models, log, k, (m.column, NewDef(m)));
    FinalKey(w, models, log, m.table, k);
    AddIsNew(models, log, i);
    var before, after := WithAdded(w, models, log[..i]), WithAdded(w, models, log[..i + 1]);
    WithOneMore(w, models, log, i);
    KeyIndexIs(w, models, m.table, k);
    WithAddedAt(w, models, log[..i], m.table, k);
    var a := Added(models, log[..i], k);
    KeysConcat(BuiltAt(w, models, k).columns, Bare(a));
    BareKeys(a, m.column);
    RecreatedUpdated(start, before, m.table, after[m.table]);
    assert Recreated(start, before)[m.table] == before[m.table];
  }

  lemma FinalKey(w: World, models: seq<Model>, log: seq<Mutation>, key: string, k: nat)
    requires AllAdds(log) && ReplayModels(models, log).Some? && KeysDiffer(w, models)
    requires k < |models| && TableKey(w, models, k) == Some(key)
    ensures key in MetaData(w, Final(models, log)) && k < |Final(models, log)|
    ensures MetaData(w, Final(models, log))[key] == BuiltAt(w, Final(models, log), k)
  {
    hide ReplayModels, AllAdds, TableKey, BuiltAt, MetaData, KeyIndex, KeysDiffer, Final, SameClasses;
    FinalIsSame(models, log);
    SameClassesLength(models, Final(models, log));
    SameKey(w, models, Final(models, log));
    KeyIndexIs(w, Final(models, log), key, k);
    KeyFound(w, Final(models, log), key);
  }

  lemma {:induction false} GoesThrough(w: World, start: Tables, models: seq<Model>, log: seq<Mutation>, i: nat)
    requires AllAdds(log) && ReplayModels(models, log).Some? && KeysDiffer(w, models) && i <= |log|
    requires WellLogged(models, log) && AllAddable(w, Recreated(start, MetaData(w, models)), models, log)
    ensures Altered(w, Recreated(start, MetaData(w, models)), MetaData(w, Final(models, log)), log[..i])
         == Progress(Recreated(start, WithAdded(w, models, log[..i])), true)
    decreases i
  {
    hide ReplayModels, MetaData, WithAdded, KeysDiffer, Final, AllAddable, Recreated, AddColumnTo, Altered;
    var created, meta := Recreated(start, MetaData(w, models)), MetaData(w, Final(models, log));
    if i == 0 {
      assert log[..0] == [];
      NothingAltered(w, created, meta);
      WithNothing(w, models);
    } else {
      GoesThrough(w, start, models, log, i - 1);
      AlterOne(w, start, models, log, i - 1);
      AlteredStep(w, created, meta, log, i - 1);
    }
  }

  lemma NothingAltered(w: World, created: Tables, meta: Tables)
    ensures Altered(w, created, meta, []) == Progress(created, true)
  {
  }

  lemma WithNothing(w: World, models: seq<Model>)
    ensures WithAdded(w, models, []) == MetaData(w, models)
  {
    hide TableKey, BuiltAt, KeyIndex;
    forall key | key in TableKeys(w, models) ensures WithAdded(w, models, [])[key] == MetaData(w, models)[key] {
      KeyFound(w, models, key);
      var c := BuiltAt(w, models, KeyIndex(w, models, key, 0)).columns;
      assert Bare([]) == [] && c + [] == c;
    }
    assert WithAdded(w, models, []).Keys == MetaData(w, models).Keys;
  }

  // ----- what a loop that gets through has altered -----

  /** The clauses a log adds to one table, in log order, as the final metadata has them. */
  function Logged(log: seq<Mutation>, table: string, meta: Tables): Dict<Stored> {
    if log == [] then [] else Logged(log[..|log| - 1], table, meta) + LoggedOne(log[|log| - 1], table, meta)
  }

  function LoggedOne(m: Mutation, table: string, meta: Tables): Dict<Stored> {
    if m.AddColumn? && m.table == table && table in meta then
      match Get(meta[table].columns, m.column)
      case Some(stored) => [(m.column, Stored(stored.def, {}))]
      case None => []
    else []
  }

  lemma ExtendedTwice(t: DbTable, a: Dict<Stored>, b: Dict<Stored>)
    ensures Extended(Extended(t, a), b) == Extended(t, a + b)
    ensures Extended(t, []) == t
  {
    assert t.columns + a + b == t.columns + (a + b);
    assert t.columns + [] == t.columns;
  }

  /** One successful ALTER extends one table. */
  lemma AddedTo(w: World, created: Tables, db: Tables, meta: Tables, m: Mutation, t: string)
    requires m.AddColumn? && t in db && AddColumnTo(w, created, db, meta, m.table, m.column).Some?
    ensures var after := AddColumnTo(w, created, db, meta, m.table, m.column).value;
            after.Keys == db.Keys && after[t] == Extended(db[t], LoggedOne(m, t, meta))
    ensures m.table in meta
  {
    hide Get, Keys;
    ExtendedTwice(db[t], [], []);
  }

  lemma {:induction false} AlteredIs(w: World, created: Tables, meta: Tables, log: seq<Mutation>, t: string)
    requires Altered(w, created, meta, log).done && t in created
    ensures Altered(w, created, meta, log).db.Keys == created.Keys
    ensures Altered(w, created, meta, log).db[t] == Extended(created[t], Logged(log, t, meta))
    ensures t !in meta ==> Logged(log, t, meta) == []
  {
    hide AddColumnTo, Get;
    ExtendedTwice(created[t], [], []);
    if log != [] {
      var n, m := |log| - 1, log[|log| - 1];
      AlteredIs(w, created, meta, log[..n], t);
      var before := Altered(w, created, meta, log[..n]).db;
      if m.AddColumn? {
        AddedTo(w, created, before, meta, m, t);
        ExtendedTwice(created[t], Logged(log[..n], t, meta), LoggedOne(m, t, meta));
      } else {
        assert Logged(log[..n], t, meta) + [] == Logged(log[..n], t, meta);
      }
    }
  }

  lemma AlteredKeys(w: World, created: Tables, meta: Tables, log: seq<Mutation>)
    requires Altered(w, created, meta, log).done
    ensures Altered(w, created, meta, log).db.Keys == created.Keys
  {
    if created != map[] {
      var t :| t in created;
      AlteredIs(w, created, meta, log, t);
    } else {
      NoTables(w, meta, log);
    }
  }

  lemma {:induction false} NoTables(w: World, meta: Tables, log: seq<Mutation>)
    ensures Altered(w, map[], meta, log).db == map[]
  {
    if log != [] { NoTables(w, meta, log[..|log| - 1]); }
  }

  lemma AddNeeds(w: World, created: Tables, db: Tables, meta: Tables, m: Mutation)
    requires m.AddColumn? && AddColumnTo(w, created, db, meta, m.table, m.column).Some?
    ensures m.table in db && m.column !in Keys(db[m.table].columns)
    ensures m.table in meta && m.column in Keys(meta[m.table].columns)
    ensures w.alters(created, m.table, m.column, Get(meta[m.table].columns, m.column).value.def)
    ensures var after := AddColumnTo(w, created, db, meta, m.table, m.column).value;
            m.table in after && m.column in Keys(after[m.table].columns)
  {
    hide Keys;
    var stored := Get(meta[m.table].columns, m.column).value;
    AppendEntry(db[m.table].columns, (m.column, Stored(stored.def, {})), m.column);
  }

  lemma AddKeeps(w: World, created: Tables, db: Tables, meta: Tables, m: Mutation, t: string, c: string)
    requires m.AddColumn? && AddColumnTo(w, created, db, meta, m.table, m.column).Some?
    requires t in db && c in Keys(db[t].columns)
    ensures var after := AddColumnTo(w, created, db, meta, m.table, m.column).value;
            t in after && c in Keys(after[t].columns)
  {
    hide Keys;
    var stored := Get(meta[m.table].columns, m.column).value;
    KeysConcat(db[m.table].columns, [(m.column, Stored(stored.def, {}))]);
  }

  /** Each entry of a loop that gets through found its column in the metadata, new to the
      table, and taken by the database. */
  lemma {:induction false} AlteredNeeds(w: World, created: Tables, meta: Tables, log: seq<Mutation>, i: nat)
    requires AllAdds(log) && i < |log| && Altered(w, created, meta, log).done
    ensures log[i].table in created && log[i].column !in Keys(created[log[i].table].columns)
    ensures log[i].table in meta && log[i].column in Keys(meta[log[i].table].columns)
    ensures w.alters(created, log[i].table, log[i].column, Get(meta[log[i].table].columns, log[i].column).value.def)
    ensures var after := Altered(w, created, meta, log).db;
            log[i].table in after && log[i].column in Keys(after[log[i].table].columns)
  {
    hide AddColumnTo, Keys, Get;
    var n, m := |log| - 1, log[|log| - 1];
    var before := Altered(w, created, meta, log[..n]).db;
    AlteredKeys(w, created, meta, log[..n]);
    AddNeeds(w, created, before, meta, m);
    AlteredIs(w, created, meta, log[..n], m.table);
    KeysConcat(created[m.table].columns, Logged(log[..n], m.table, meta));
    if i < n {
      AlteredNeeds(w, created, meta, log[..n], i);
      assert log[..n][i] == log[i];
      AddKeeps(w, created, before, meta, m, log[i].table, log[i].column);
    }
  }

  /** Where a logged column that the metadata has and the base table has not comes from. */
  lemma ComesFrom(w: World, models: seq<Model>, log: seq<Mutation>, k: nat, c: string)
    requires AllAdds(log) && ReplayModels(models, log).Some? && WellLogged(models, log) && k < |models|
    requires |Final(models, log)| == |models| && c in Keys(BuiltAt(w, Final(models, log), k).columns)
    requires c !in Keys(BuiltAt(w, models, k).columns)
    ensures Scanned(c)
    ensures exists l | 0 <= l < |log| ::
              FirstModel(models, log[l].table) == k && Mangled(models[k].name, log[l].column) == c
  {
    var model, added, inherited := models[k], Added(models, log, k), Inherited(w, models, k);
    FinalIsSame(models, log);
    SameKey(w, models, Final(models, log));
    AddedIsSimple(w, models, log, k);
    hide ReplayModels, AllAdds, Added, FirstModel, Own, Laid, Keys, Scanned, Mangled, Inherited, Full, ColumnName,
      SortOrder, NewDef;
    var own, after := Own(model.name, model.table.columns), Own(model.name, model.table.columns + added);
    assert BuiltAt(w, Final(models, log), k) == Built(w, model.name, Grown(model.table, added), inherited);
    FullKeys(w, Laid(w, after, inherited), c);
    FullKeys(w, Laid(w, own, inherited), c);
    var e :| e in Laid(w, after, inherited) && ColumnName(w, e.0, e.1) == c;
    FinalEntry(w, model.name, model.table, added, inherited, e);
    var z :| z in added && Makes(model.name, z, e);
    AddedMembers(models, log, k, z);
    var l :| 0 <= l < |log| && FirstModel(models, log[l].table) == k && z == (log[l].column, NewDef(log[l]));
    NewDefIsSimple(w, log[l]);
  }

  /** A loop that gets through looked up, for each entry, a class that some entry edits. */
  ghost predicate LookedUp(w: World, models: seq<Model>, log: seq<Mutation>, i: nat)
    requires i < |log|
  {
    var j := KeyIndex(w, models, log[i].table, 0);
    j < |models| && exists l | 0 <= l < |log| :: FirstModel(models, log[l].table) == j
  }

  /** Then each entry's own class has its table under the plain name: a schema would only
      lengthen the key, and the shortest has none. */
  lemma {:induction false} KeysArePlain(w: World, models: seq<Model>, log: seq<Mutation>, i: nat)
    requires NamedOnce(models) && i < |log| && forall l | 0 <= l < |log| :: LookedUp(w, models, log, l)
    ensures var k := FirstModel(models, log[i].table);
            k < |models| && TableKey(w, models, k) == Some(log[i].table)
    decreases |log[i].table|
  {
    hide FirstModel, KeyIndex, NameGiven;
    assert LookedUp(w, models, log, i);
    var j := KeyIndex(w, models, log[i].table, 0);
    var l :| 0 <= l < |log| && FirstModel(models, log[l].table) == j;
    FirstFound(models, log[l].table);
    assert NameGiven(models[j].table.rest) == Some(Text(log[l].table));
    var schema := w.schema(models[j].bases, Mixins(models), models[j].table.args);
    assert log[i].table == Qualified(schema, log[l].table);
    if schema.Some? {
      KeysArePlain(w, models, log, l);
    }
  }

  lemma LooksUp(w: World, start: Tables, models: seq<Model>, log: seq<Mutation>, i: nat)
    requires AllAdds(log) && ReplayModels(models, log).Some? && WellLogged(models, log) && i < |log|
    requires Altered(w, Recreated(start, MetaData(w, models)), MetaData(w, Final(models, log)), log).done
    ensures LookedUp(w, models, log, i) && Scanned(log[i].column)
    ensures log[i].column !in Keys(BuiltAt(w, models, KeyIndex(w, models, log[i].table, 0)).columns)
  {
    hide ReplayModels, AllAdds, TableKey, BuiltAt, MetaData, KeyIndex, Final, SameClasses, Altered, Keys, FirstModel,
      Mangled, Scanned, Get;
    var created, meta, m := Recreated(start, MetaData(w, models)), MetaData(w, Final(models, log)), log[i];
    AlteredNeeds(w, created, meta, log, i);
    FinalIsSame(models, log);
    SameClassesLength(models, Final(models, log));
    SameKeyIndex(w, models, Final(models, log), m.table, 0);
    KeyFound(w, models, m.table);
    KeyFound(w, Final(models, log), m.table);
    var j := KeyIndex(w, models, m.table, 0);
    assert created[m.table] == MetaData(w, models)[m.table];
    ComesFrom(w, models, log, j, m.column);
  }

  /** A loop that gets through could add every column. */
  lemma DoneMeansAddable(w: World, start: Tables, models: seq<Model>, log: seq<Mutation>)
    requires AllAdds(log) && ReplayModels(models, log).Some? && WellLogged(models, log)
    requires NamedOnce(models) && KeysDiffer(w, models)
    requires Altered(w, Recreated(start, MetaData(w, models)), MetaData(w, Final(models, log)), log).done
    ensures AllAddable(w, Recreated(start, MetaData(w, models)), models, log)
  {
    hide ReplayModels, AllAdds, TableKey, BuiltAt, MetaData, KeyIndex, Final, Altered, Keys, FirstModel, Scanned, Get,
      NamedOnce, KeysDiffer, LookedUp, NewDef, NewNames, Recreated, Added;
    var created, meta := Recreated(start, MetaData(w, models)), MetaData(w, Final(models, log));
    forall i | 0 <= i < |log| ensures LookedUp(w, models, log, i) {
      LooksUp(w, start, models, log, i);
    }
    forall i | 0 <= i < |log|
      ensures var k := FirstModel(models, log[i].table);
              && TableKey(w, models, k) == Some(log[i].table) && Scanned(log[i].column)
              && log[i].column !in Keys(BuiltAt(w, models, k).columns)
    {
      LooksUp(w, start, models, log, i);
      KeysArePlain(w, models, log, i);
      KeyIndexIs(w, models, log[i].table, FirstModel(models, log[i].table));
    }
    forall i | 0 <= i < |log| ensures Addable(w, created, models, log[i]) {
      var m, k := log[i], FirstModel(models, log[i].table);
      NamesAreNew(w, models, log, k);
      AddedHas(models, log, i);
      LoggedRead(w, models, log, k, (m.column, NewDef(m)));
      FinalKey(w, models, log, m.table, k);
      AlteredNeeds(w, created, meta, log, i);
    }
  }

  /** The loop over the log: it gets through exactly when every column can be added, and
      then each table is as created with the logged clauses after its columns. */
  lemma AlteredFollows(w: World, start: Tables, models: seq<Model>, log: seq<Mutation>)
    requires AllAdds(log) && ReplayModels(models, log).Some? && NamedOnce(models) && KeysDiffer(w, models)
    ensures WellLogged(models, log)
    ensures var created := Recreated(start, MetaData(w, models));
            var altered := Altered(w, created, MetaData(w, Final(models, log)), log);
            && (altered.done <==> AllAddable(w, created, models, log))
            && (altered.done ==> altered.db == Recreated(start, WithAdded(w, models, log)))
  {
    Entries(models, log);
    hide ReplayModels, AllAdds, MetaData, Final, Altered, NamedOnce, KeysDiffer, AllAddable, Recreated, WithAdded,
      FirstModel;
    var created := Recreated(start, MetaData(w, models));
    if AllAddable(w, created, models, log) {
      GoesThrough(w, start, models, log, |log|);
      assert log[..|log|] == log;
    } else if Altered(w, created, MetaData(w, Final(models, log)), log).done {
      DoneMeansAddable(w, start, models, log);
    }
  }

  // ----- the two modes -----

  /** The runs agree: the same outcome, and the same database but for what refused DDL
      leaves behind. */
  predicate Agree(a: Run, b: Run) {
    a.outcome == b.outcome && (a.outcome != Failed(ReferenceDdl) ==> a.db == b.db)
  }

  /** The added column takes the place of no attribute of the class or its bases, nothing the
      table has sorts after it, and nothing is created for it beside its clause. */
  ghost predicate InPlace(w: World, models: seq<Model>, m: Mutation)
    requires WellTyped(m) && FirstModel(models, m.table) < |models|
  {
    var k := FirstModel(models, m.table);
    var own, inherited := Own(models[k].name, models[k].table.columns), Inherited(w, models, k);
    && m.column !in Keys(own) && m.column !in Keys(inherited)
    && AddedSortLast(w, own, inherited) && w.beside(NewDef(m)) == {}
  }

  ghost predicate Aligned(w: World, models: seq<Model>, log: seq<Mutation>)
    requires WellLogged(models, log)
  {
    forall i | 0 <= i < |log| :: InPlace(w, models, log[i])
  }

  /** The entry of the log that added a column to the k-th class. */
  ghost predicate AddedBy(models: seq<Model>, m: Mutation, k: nat, x: (string, ColumnDef)) {
    WellTyped(m) && FirstModel(models, m.table) == k && x == (m.column, NewDef(m))
  }

  lemma AddedHere(models: seq<Model>, log: seq<Mutation>, k: nat)
    requires AllAdds(log) && WellLogged(models, log)
    ensures forall i | 0 <= i < |log| && FirstModel(models, log[i].table) == k ::
              AddedBy(models, log[i], k, (log[i].column, NewDef(log[i])))
                && (log[i].column, NewDef(log[i])) in Added(models, log, k)
    ensures forall x | x in Added(models, log, k) :: exists i | 0 <= i < |log| :: AddedBy(models, log[i], k, x)
  {
    hide NewDef, Added, FirstModel;
    forall i | 0 <= i < |log| && FirstModel(models, log[i].table) == k
      ensures (log[i].column, NewDef(log[i])) in Added(models, log, k)
    {
      AddedMembers(models, log, k, (log[i].column, NewDef(log[i])));
    }
    forall x | x in Added(models, log, k) ensures exists i | 0 <= i < |log| :: AddedBy(models, log[i], k, x) {
      AddedMembers(models, log, k, x);
      var i :| 0 <= i < |log| && FirstModel(models, log[i].table) == k && x == (log[i].column, NewDef(log[i]));
      assert AddedBy(models, log[i], k, x);
    }
  }

  lemma FreshHere(own: Dict<ColumnDef>, added: Dict<ColumnDef>, inherited: Dict<ColumnDef>)
    ensures Fresh(own, added, inherited)
       <==> forall x | x in added :: x.0 !in Keys(own) && x.0 !in Keys(inherited)
  {
    hide Keys;
    forall x | x in added ensures x.0 in Keys(added) {
      EntryKey(added, x);
    }
    forall key | key in Keys(added) ensures exists x :: x in added && x.0 == key {
      KeyEntry(added, key);
    }
  }

  /** The added columns as a whole are in place when each is. */
  lemma AllInPlace(w: World, models: seq<Model>, log: seq<Mutation>, k: nat)
    requires AllAdds(log) && WellLogged(models, log) && k < |models|
    ensures (forall i | 0 <= i < |log| && FirstModel(models, log[i].table) == k :: InPlace(w, models, log[i]))
       <==> (var own, inherited, added := Own(models[k].name, models[k].table.columns), Inherited(w, models, k),
             Added(models, log, k);
             added == [] || (Fresh(own, added, inherited) && AddedSortLast(w, own, inherited) && Plain(w, added)))
  {
    var own, inherited, added := Own(models[k].name, models[k].table.columns), Inherited(w, models, k),
      Added(models, log, k);
    AddedHere(models, log, k);
    FreshHere(own, added, inherited);
    hide Own, Inherited, Added, Fresh, AddedSortLast, NewDef, FirstModel, Keys, AllAdds;
    if forall i | 0 <= i < |log| && FirstModel(models, log[i].table) == k :: InPlace(w, models, log[i]) {
      forall x | x in added ensures x.0 !in Keys(own) && x.0 !in Keys(inherited) && w.beside(x.1) == {}
        && AddedSortLast(w, own, inherited)
      {
        var i :| 0 <= i < |log| && AddedBy(models, log[i], k, x);
        assert InPlace(w, models, log[i]);
      }
      if added != [] { assert added[0] in added; }
    }
  }

  lemma BuiltAfter(w: World, models: seq<Model>, log: seq<Mutation>, k: nat)
    requires AllAdds(log) && ReplayModels(models, log).Some? && k < |models|
    ensures |Final(models, log)| == |models|
    ensures BuiltAt(w, Final(models, log), k)
         == Built(w, models[k].name, Grown(models[k].table, Added(models, log, k)), Inherited(w, models, k))
  {
    FinalIsSame(models, log);
    SameKey(w, models, Final(models, log));
    hide ReplayModels, AllAdds, Added, Mixins, Built, Inherited;
  }

  /** The columns added to one class are in place exactly when its table is the same created
      at once or created and altered. */
  lemma TableAgreesAt(w: World, created: Tables, models: seq<Model>, log: seq<Mutation>, k: nat)
    requires AllAdds(log) && ReplayModels(models, log).Some? && k < |models| && k < |Final(models, log)|
    requires WellLogged(models, log) && AllAddable(w, created, models, log)
    ensures Extended(BuiltAt(w, models, k), Bare(Added(models, log, k))) == BuiltAt(w, Final(models, log), k)
       <==> forall i | 0 <= i < |log| && FirstModel(models, log[i].table) == k :: InPlace(w, models, log[i])
  {
    hide *;
    BuiltAfter(w, models, log, k);
    BuiltBefore(w, models, k);
    AddedIsDict(models, log, k);
    AddedIsSimple(w, models, log, k);
    AllNamesNew(w, created, models, log, k);
    NewNamesAre(w, models, log, k);
    AllInPlace(w, models, log, k);
    TableAgrees(w, models[k].name, models[k].table, Added(models, log, k), Inherited(w, models, k));
  }

  lemma BuiltBefore(w: World, models: seq<Model>, k: nat)
    requires k < |models|
    ensures BuiltAt(w, models, k) == Built(w, models[k].name, models[k].table, Inherited(w, models, k))
  {
  }

  lemma NewNamesAre(w: World, models: seq<Model>, log: seq<Mutation>, k: nat)
    requires k < |models| && NewNames(w, models, log, k)
    ensures Public(Added(models, log, k)) && Keys(Added(models, log, k)) !! Keys(BuiltAt(w, models, k).columns)
  {
  }

  lemma FinalKeys(w: World, models: seq<Model>, log: seq<Mutation>)
    requires AllAdds(log) && ReplayModels(models, log).Some?
    ensures |Final(models, log)| == |models| && TableKeys(w, Final(models, log)) == TableKeys(w, models)
  {
    FinalIsSame(models, log);
    SameClassesLength(models, Final(models, log));
    hide *;
    SameKey(w, models, Final(models, log));
  }

  lemma TablesAgree(w: World, created: Tables, models: seq<Model>, log: seq<Mutation>)
    requires AllAdds(log) && ReplayModels(models, log).Some? && KeysDiffer(w, models)
    requires WellLogged(models, log) && AllAddable(w, created, models, log)
    ensures WithAdded(w, models, log).Keys == MetaData(w, Final(models, log)).Keys
    ensures WithAdded(w, models, log) == MetaData(w, Final(models, log)) <==> Aligned(w, models, log)
  {
    hide *;
    FinalKeys(w, models, log);
    WithAddedKeys(w, models, log);
    MetaKeys(w, Final(models, log));
    var x, y := WithAdded(w, models, log), MetaData(w, Final(models, log));
    if Aligned(w, models, log) {
      forall key | key in x ensures x[key] == y[key] {
        AlignedThere(w, created, models, log, key);
      }
      assert x == y;
    } else if x == y {
      SameIsAligned(w, created, models, log);
    }
  }

  lemma MetaKeys(w: World, models: seq<Model>)
    ensures MetaData(w, models).Keys == TableKeys(w, models)
  {
    hide TableKeys, BuiltAt, KeyIndex;
  }

  lemma AlignedThere(w: World, created: Tables, models: seq<Model>, log: seq<Mutation>, key: string)
    requires AllAdds(log) && ReplayModels(models, log).Some? && KeysDiffer(w, models)
    requires WellLogged(models, log) && AllAddable(w, created, models, log) && Aligned(w, models, log)
    requires key in TableKeys(w, models)
    ensures key in WithAdded(w, models, log) && key in MetaData(w, Final(models, log))
    ensures WithAdded(w, models, log)[key] == MetaData(w, Final(models, log))[key]
  {
    hide ReplayModels, AllAdds, Added, TableKey, BuiltAt, MetaData, WithAdded, KeyIndex, KeysDiffer, Final,
      AllAddable, InPlace, SameClasses, TableKeys, FirstModel;
    KeyFound(w, models, key);
    var k := KeyIndex(w, models, key, 0);
    FinalIsSame(models, log);
    SameClassesLength(models, Final(models, log));
    WithAddedAt(w, models, log, key, k);
    FinalKey(w, models, log, key, k);
    TableAgreesAt(w, created, models, log, k);
  }

  lemma SameIsAligned(w: World, created: Tables, models: seq<Model>, log: seq<Mutation>)
    requires AllAdds(log) && ReplayModels(models, log).Some? && KeysDiffer(w, models)
    requires WellLogged(models, log) && AllAddable(w, created, models, log)
    requires WithAdded(w, models, log) == MetaData(w, Final(models, log))
    ensures Aligned(w, models, log)
  {
    hide ReplayModels, AllAdds, Added, TableKey, BuiltAt, MetaData, WithAdded, KeyIndex, KeysDiffer, Final, InPlace,
      SameClasses, TableKeys, FirstModel, Keys, Scanned;
    FinalIsSame(models, log);
    SameClassesLength(models, Final(models, log));
    forall i | 0 <= i < |log| ensures InPlace(w, models, log[i]) {
      var key, k := log[i].table, FirstModel(models, log[i].table);
      assert Addable(w, created, models, log[i]);
      KeyIndexIs(w, models, key, k);
      WithAddedAt(w, models, log, key, k);
      FinalKey(w, models, log, key, k);
      TableAgreesAt(w, created, models, log, k);
    }
  }

  lemma RecreatedApart(start: Tables, a: Tables, b: Tables)
    requires a.Keys == b.Keys
    ensures Recreated(start, a) == Recreated(start, b) <==> a == b
  {
    if Recreated(start, a) == Recreated(start, b) {
      forall t | t in a ensures a[t] == b[t] {
        assert Recreated(start, a)[t] == Recreated(start, b)[t];
      }
    }
  }

  /** Fallback, a final source that does not load, or: the base source loads, and, unless it
      has no base, if the whole schema can be created, so can the base schema, every logged
      column can be added and the columns are aligned; and if it cannot, the incremental run
      is refused too. */
  ghost predicate AgreeCondition(w: World, start: Tables, base: Source, current: Source, log: seq<Mutation>)
    requires LogCounts(log) ==> WellLogged(Models(base), log)
  {
    LogCounts(log) && Loads(w, current) ==>
      var models, whole := Models(base), MetaData(w, Models(current));
      var first := MetaData(w, models);
      var gone := w.creates(start, first) && AllAddable(w, Recreated(start, first), models, log);
      Loads(w, base)
      && (HasBase(w, base) ==> if w.creates(start, whole) then gone && Aligned(w, models, log) else !gone)
  }

  /** When the two modes agree: for every base source, every log that replays to the current
      source, every state of the reference database and every behaviour of Python, SQLAlchemy
      and the database. If the log is used at all, the current source loads and its schema
      can be created, then exactly when the base source loads and its schema can be created;
      each class edited has a table there and no schema, each logged column has a name SQLAlchemy's scan does
      not pass over and no column of the table has, and the database adds it by its clause;
      it takes no attribute's place, no column of its table sorts after it, and nothing is
      created beside the clause. If the whole schema is refused, exactly when the incremental
      run is refused too. */
  lemma ModesAgree(w: World, start: Tables, base: Source, current: Source, log: seq<Mutation>)
    requires Replay(base, log) == Done(current)
    ensures LogCounts(log) ==> WellLogged(Models(base), log)
    ensures Agree(IncrementalRun(w, start, base, current, log), NuclearRun(w, start, current))
       <==> AgreeCondition(w, start, base, current, log)
  {
    hide Models, Replay, NewDef, MetaData, Recreated, WithAdded, Addable, Aligned, Frame, AllAdds, IncrementalRun,
      NuclearRun, AllAddable, Loads, ReplayModels, WellLogged;
    if LogCounts(log) {
      AddsReplay(base, log);
      Entries(Models(base), log);
      LoggedWell(Models(base), log);
      NuclearOutcome(w, start, current);
      if Loads(w, current) && Loads(w, base) {
        IncrementalOutcome(w, start, base, current, log);
        var models, whole := Models(base), MetaData(w, Models(current));
        var created := Recreated(start, MetaData(w, models));
        LoadsKeys(w, base);
        if HasBase(w, base) && AllAddable(w, created, models, log) {
          TablesAgree(w, created, models, log);
          RecreatedApart(start, WithAdded(w, models, log), whole);
        }
      } else {
        NotLoaded(w, start, base, current, log);
      }
    } else {
      Fallback(w, start, base, current, log);
    }
  }

  lemma LoggedWell(models: seq<Model>, log: seq<Mutation>)
    requires forall i | 0 <= i < |log| :: WellTyped(log[i]) && FirstModel(models, log[i].table) < |models|
    ensures WellLogged(models, log)
  {
  }

  lemma LoadsKeys(w: World, src: Source)
    requires Loads(w, src)
    ensures NamedOnce(Models(src)) && KeysDiffer(w, Models(src))
  {
  }

  /** Additions neither rename a class nor change its table's key. */
  lemma LoadsAfter(w: World, base: Source, log: seq<Mutation>)
    requires AllAdds(log) && Replay(base, log).Done? && Loads(w, base)
    ensures Loads(w, Replay(base, log).value) <==> w.loads(Replay(base, log).value)
  {
    hide Models, Replay, AllAdds, NamedOnce, KeysDiffer, ReplayModels, SameClasses;
    AddsReplay(base, log);
    FinalIsSame(Models(base), log);
    SameKey(w, Models(base), Models(Replay(base, log).value));
  }

  lemma NotLoaded(w: World, start: Tables, base: Source, current: Source, log: seq<Mutation>)
    requires LogCounts(log) && !(Loads(w, current) && Loads(w, base))
    ensures IncrementalRun(w, start, base, current, log)
        == Run(Raised, start, if Loads(w, current) then base else current)
  {
    hide Models, MetaData, Frame, AllAdds, Loads;
  }

  lemma Fallback(w: World, start: Tables, base: Source, current: Source, log: seq<Mutation>)
    requires !LogCounts(log)
    ensures IncrementalRun(w, start, base, current, log) == NuclearRun(w, start, current)
  {
  }

  lemma NuclearOutcome(w: World, start: Tables, current: Source)
    ensures var meta := MetaData(w, Models(current));
            NuclearRun(w, start, current) ==
              if !Loads(w, current) then Run(Raised, start, current)
              else if !HasBase(w, current) then Run(Failed(ReferenceLoad), start, current)
              else if !w.creates(start, meta) then Run(Failed(ReferenceDdl), w.leftByCreate(start, meta), current)
              else Run(Dumped(w, Recreated(start, meta)), Recreated(start, meta), current)
  {
    hide Models, MetaData, Frame, Recreated, Loads;
  }

  /** The incremental run of a log of additions that replays. */
  lemma IncrementalOutcome(w: World, start: Tables, base: Source, current: Source, log: seq<Mutation>)
    requires LogCounts(log) && Replay(base, log) == Done(current) && Loads(w, base) && Loads(w, current)
    ensures WellLogged(Models(base), log)
    ensures var first, altered := MetaData(w, Models(base)), Recreated(start, WithAdded(w, Models(base), log));
            var gone := w.creates(start, first) && AllAddable(w, Recreated(start, first), Models(base), log);
            var run := IncrementalRun(w, start, base, current, log);
            && (!HasBase(w, base) ==> run == Run(Failed(ReferenceLoad), start, base))
            && (HasBase(w, base) ==> if gone then run == Run(Dumped(w, altered), altered, base)
                                     else run.outcome == Failed(ReferenceDdl))
  {
    AddsReplay(base, log);
    hide Models, Replay, NewDef, MetaData, Recreated, WithAdded, Altered, AllAddable, Frame, AllAdds, Loads,
      ReplayModels, WellLogged;
    LoadsKeys(w, base);
    AlteredFollows(w, start, Models(base), log);
  }

  // ----- any current source -----

  /** What the current source must be, table by table, for the modes to agree: a table both
      sources declare has the base's columns and then the logged clauses; a table only one
      of them declares was in the database already, as the other mode would make it. */
  ghost predicate AsLogged(start: Tables, b: Tables, c: Tables, log: seq<Mutation>, t: string) {
    && (t in b && t in c ==> c[t] == Extended(b[t], Logged(log, t, c)))
    && (t in b && t !in c ==> t in start && start[t] == b[t])
    && (t !in b && t in c ==> t in start && c[t] == Extended(start[t], Logged(log, t, c)))
  }

  ghost predicate TablesAsLogged(start: Tables, b: Tables, c: Tables, log: seq<Mutation>) {
    forall t :: AsLogged(start, b, c, log, t)
  }

  lemma TableByTable(w: World, start: Tables, b: Tables, c: Tables, log: seq<Mutation>, t: string)
    requires Altered(w, Recreated(start, b), c, log).done
    ensures var x, y := Altered(w, Recreated(start, b), c, log).db, Recreated(start, c);
            SameAt(x, y, t) <==> AsLogged(start, b, c, log, t)
  {
    hide Altered, Logged;
    var created := Recreated(start, b);
    AlteredKeys(w, created, c, log);
    if t in created {
      AlteredIs(w, created, c, log, t);
      ExtendedTwice(created[t], [], []);
    }
  }

  /** In general, from any state of the database, completed runs agree exactly when every
      table of the two sources is as it must be. */
  lemma ModesAgreeExactlyWhen(w: World, start: Tables, base: Source, current: Source, log: seq<Mutation>)
    requires LogCounts(log)
    requires IncrementalRun(w, start, base, current, log).outcome.Complete?
    requires NuclearRun(w, start, current).outcome.Complete?
    ensures Agree(IncrementalRun(w, start, base, current, log), NuclearRun(w, start, current))
       <==> TablesAsLogged(start, MetaData(w, Models(base)), MetaData(w, Models(current)), log)
  {
    hide Models, MetaData, Loads, Altered, AsLogged, Recreated, Frame, AllAdds;
    var b, c := MetaData(w, Models(base)), MetaData(w, Models(current));
    var x, y := Altered(w, Recreated(start, b), c, log).db, Recreated(start, c);
    assert IncrementalRun(w, start, base, current, log) == Run(Complete(x), x, base);
    assert NuclearRun(w, start, current) == Run(Complete(y), y, current);
    hide IncrementalRun, NuclearRun;
    assert Agree(IncrementalRun(w, start, base, current, log), NuclearRun(w, start, current)) <==> x == y;
    forall t ensures SameAt(x, y, t) <==> AsLogged(start, b, c, log, t) {
      TableByTable(w, start, b, c, log, t);
    }
    SameMap(x, y);
    hide SameAt;
    assert x == y <==> TablesAsLogged(start, b, c, log);
  }

  predicate SameAt(x: Tables, y: Tables, t: string) {
    (t in x <==> t in y) && (t in x && t in y ==> x[t] == y[t])
  }

  lemma SameMap(x: Tables, y: Tables)
    ensures x == y <==> forall t :: SameAt(x, y, t)
  {
    if forall t :: SameAt(x, y, t) {
      forall t ensures t in x <==> t in y {
        assert SameAt(x, y, t);
      }
      forall t | t in x ensures x[t] == y[t] {
        assert SameAt(x, y, t);
      }
    }
  }
}
