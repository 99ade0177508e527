/** What a completed nuclear run leaves in the database, told from the source. */
module NuclearTables {
  import opened Ordering
  import opened PyDict
  import opened Mutations
  import opened MutationSimulation
  import opened MutationRuns
  import opened DeclaredTables
  import opened TrackB
  import opened ColumnLayout
  import StableSort

  // ----- a class body -----

  /** The column an item declares: `name: annotation = mapped_column(...)`. */
  function Declares(item: Item): Option<string> {
    match item
    case AnnAssign(Some(name), _, Some(Call(Name(called), _, _))) =>
      if called == "mapped_column" then Some(name) else None
    case _ => None
  }

  /** What an item assigns to a name, other than by declaring a column. */
  function Assigns(item: Item, name: string): Option<Expr> {
    match item
    case Assign(targets, value) => if Some(name) in targets then Some(value) else None
    case AnnAssign(Some(target), _, Some(value)) => if target == name && Declares(item).None? then Some(value) else None
    case _ => None
  }

  /** The value a class body leaves a name with. */
  function LastValue(body: seq<Item>, name: string): Option<Expr> {
    if body == [] then None
    else
      var last := Assigns(body[|body| - 1], name);
      if last.Some? then last else LastValue(body[..|body| - 1], name)
  }

  lemma DeclaresIs(item: Item)
    ensures Declares(item).Some? <==> IsColumn(item)
    ensures Declares(item).Some? ==> item.target == Declares(item)
  {
  }

  lemma {:induction false} ArgsAre(body: seq<Item>)
    ensures TableOf(body).args == LastValue(body, "__table_args__")
  {
    if body != [] {
      DeclaresIs(body[|body| - 1]);
      hide TableOf, Declares;
      ArgsAre(body[..|body| - 1]);
      assert body == body[..|body| - 1] + [body[|body| - 1]];
      TableOfAppend(body[..|body| - 1], body[|body| - 1]);
    }
  }

  lemma NameGivenAppend(rest: seq<Item>, item: Item)
    ensures NameGiven(rest + [item])
         == if item.Assign? && Some("__tablename__") in item.targets then Some(item.value)
            else if item.AnnAssign? && item.target == Some("__tablename__") && item.init.Some? then item.init
            else NameGiven(rest)
  {
    assert (rest + [item])[..|rest|] == rest;
  }

  /** Nothing assigns the table's name and its arguments at once. */
  ghost predicate NamesApart(body: seq<Item>) {
    forall item | item in body :: Assigns(item, "__tablename__").None? || Assigns(item, "__table_args__").None?
  }

  lemma {:induction false} NameIs(body: seq<Item>)
    requires NamesApart(body)
    ensures NameGiven(TableOf(body).rest) == LastValue(body, "__tablename__")
  {
    if body != [] {
      var front, last := body[..|body| - 1], body[|body| - 1];
      assert last in body && forall item | item in front :: item in body;
      assert Assigns(last, "__tablename__").None? || Assigns(last, "__table_args__").None?;
      DeclaresIs(last);
      hide TableOf, Declares, NameGiven;
      NameIs(front);
      assert body == front + [last];
      TableOfAppend(front, last);
      NameGivenAppend(TableOf(front).rest, last);
    }
  }

  /** Which definition a class has of a column: that of its last declaration. */
  lemma ColumnsAre(body: seq<Item>, name: string)
    ensures name in Keys(TableOf(body).columns) <==> exists i :: 0 <= i < |body| && Declares(body[i]) == Some(name)
    ensures forall i | 0 <= i < |body| && Declares(body[i]) == Some(name)
              && (forall j | i < j < |body| :: Declares(body[j]) != Some(name)) ::
              IsColumn(body[i]) && Get(TableOf(body).columns, name) == Some(DefOf(body[i]))
  {
    forall i | 0 <= i < |body| ensures Declares(body[i]) == Some(name) <==> IsColumnNamed(body[i], name) {
      DeclaresIs(body[i]);
    }
    hide TableOf, Declares;
    ColumnKnown(body, name);
  }

  /** What a call of `mapped_column` says: its positional arguments, each keyword's last
      value, and the starred ones. */
  lemma DefIs(item: Item, name: string)
    requires IsColumn(item)
    ensures DefOf(item).annotation == item.annotation && DefOf(item).args == item.init.value.args
    ensures name in DefOf(item).bindings <==> exists k :: k in item.init.value.keywords && k.arg == Some(name)
    ensures forall i | 0 <= i < |item.init.value.keywords| && item.init.value.keywords[i].arg == Some(name)
              && (forall j | i < j < |item.init.value.keywords| :: item.init.value.keywords[j].arg != Some(name)) ::
              name in DefOf(item).bindings && DefOf(item).bindings[name] == item.init.value.keywords[i].value
    ensures (exists k :: k in item.init.value.keywords && k.arg == None) <==> DefOf(item).starred != []
  {
    BindingsAre(item.init.value.keywords, name);
    StarredAre(item.init.value.keywords);
  }

  lemma {:induction false} BindingsAre(keywords: seq<Keyword>, name: string)
    ensures name in Bindings(keywords) <==> exists k :: k in keywords && k.arg == Some(name)
    ensures forall i | 0 <= i < |keywords| && keywords[i].arg == Some(name)
              && (forall j | i < j < |keywords| :: keywords[j].arg != Some(name)) ::
              name in Bindings(keywords) && Bindings(keywords)[name] == keywords[i].value
  {
    if keywords != [] {
      var front, last := keywords[..|keywords| - 1], keywords[|keywords| - 1];
      BindingsAre(front, name);
      assert forall k :: k in keywords <==> k in front || k == last;
    }
  }

  lemma {:induction false} StarredAre(keywords: seq<Keyword>)
    ensures (exists k :: k in keywords && k.arg == None) <==> Starred(keywords) != []
  {
    if keywords != [] {
      StarredAre(keywords[1..]);
      assert forall k :: k in keywords <==> k in keywords[1..] || k == keywords[0];
    }
  }

  // ----- the classes of a module -----

  /** How many classes come before a place. */
  function ClassesBefore(src: Source, i: nat): nat
    requires i <= |src|
  {
    if i == 0 then 0 else ClassesBefore(src, i - 1) + if src[i - 1].Class? then 1 else 0
  }

  lemma {:induction false} ClassesShift(src: Source, i: nat)
    requires 0 < i <= |src|
    ensures ClassesBefore(src, i) == (if src[0].Class? then 1 else 0) + ClassesBefore(src[1..], i - 1)
  {
    if i > 1 { ClassesShift(src, i - 1); }
  }

  /** Each class of the source is a model, in order. */
  lemma {:induction false} ModelAt(src: Source, i: nat)
    requires i < |src| && src[i].Class?
    ensures var k := ClassesBefore(src, i);
            k < |Models(src)| && Models(src)[k].name == src[i].name && Models(src)[k].bases == src[i].bases
            && Models(src)[k].table == TableOf(src[i].body)
  {
    hide TableOf, TableNames;
    if i > 0 {
      ModelAt(src[1..], i - 1);
      ClassesShift(src, i);
    }
  }

  /** The classes others can inherit from: those whose body names no table. */
  lemma {:induction false} MixinsAre(models: seq<Model>, model: Model)
    ensures model in Mixins(models) <==> model in models && model.tables == {}
  {
    if models != [] {
      MixinsAre(models[1..], model);
      assert model in models <==> model == models[0] || model in models[1..];
    }
  }

  /** They are listed in the order of the module. */
  lemma {:induction false} MixinsConcat(a: seq<Model>, b: seq<Model>)
    ensures Mixins(a + b) == Mixins(a) + Mixins(b)
  {
    if a == [] {
      assert a + b == b;
    } else {
      assert (a + b)[1..] == a[1..] + b;
      MixinsConcat(a[1..], b);
    }
  }

  // ----- names -----

  /** Two underscores first, and not two last. */
  predicate IsPrivate(name: string) {
    |name| >= 2 && name[0] == name[1] == '_' && !(name[|name| - 1] == name[|name| - 2] == '_')
  }

  lemma {:induction false} UnprefixedIs(name: string, k: nat)
    requires k <= |name| && (forall i | 0 <= i < k :: name[i] == '_') && (k < |name| ==> name[k] != '_')
    ensures Unprefixed(name) == name[k..]
  {
    if k > 0 { UnprefixedIs(name[1..], k - 1); }
  }

  /** A private name is prefixed with the class's name, less its leading underscores. */
  lemma MangledIs(class_: string, name: string, k: nat)
    requires k <= |class_| && (forall i | 0 <= i < k :: class_[i] == '_') && (k < |class_| ==> class_[k] != '_')
    ensures Mangled(class_, name) == if IsPrivate(name) && k < |class_| then "_" + class_[k..] + name else name
  {
    UnprefixedIs(class_, k);
    hide Unprefixed;
    assert IsPrivate(name) <==> "__" <= name && !Ends(name, "__");
  }

  /** A name SQLAlchemy's scan passes over. */
  predicate PassedOver(name: string) {
    || (|name| >= 2 && name[0] == name[1] == '_')
    || (|name| >= 4 && name[0] == '_' && name[1] == 's' && name[2] == 'a' && name[3] == '_')
  }

  lemma ScannedIs(name: string)
    ensures Scanned(name) <==> !PassedOver(name)
  {
    assert |name| >= 4 ==> ("_sa_" <= name <==> name[..4] == "_sa_");
    assert |name| >= 4 ==> name[..4] == [name[0], name[1], name[2], name[3]];
  }

  /** The definition behind an attribute of a class: of the columns that become it, the one
      the class has last. */
  function Attribute(class_: string, columns: Dict<ColumnDef>, a: string): Option<ColumnDef> {
    if columns == [] || PassedOver(a) then None
    else
      var last := columns[|columns| - 1];
      if Mangled(class_, last.0) == a then Some(last.1) else Attribute(class_, columns[..|columns| - 1], a)
  }

  lemma {:induction false} OwnAre(class_: string, columns: Dict<ColumnDef>, a: string)
    ensures IsDict(Own(class_, columns)) && Get(Own(class_, columns), a) == Attribute(class_, columns, a)
  {
    hide Mangled, Scanned, PassedOver;
    ScannedIs(a);
    if columns != [] {
      var front, last := columns[..|columns| - 1], columns[|columns| - 1];
      OwnAre(class_, front, a);
      ScannedIs(Mangled(class_, last.0));
      PutSets(Own(class_, front), Mangled(class_, last.0), last.1, a);
    }
  }

  /** With public names only, the attributes are the columns, in their order. */
  lemma {:induction false} OwnPublic(class_: string, columns: Dict<ColumnDef>)
    requires IsDict(columns) && forall x | x in columns :: !PassedOver(x.0)
    ensures Own(class_, columns) == columns
  {
    if columns != [] {
      var front, last := columns[..|columns| - 1], columns[|columns| - 1];
      assert columns == front + [last] && last in columns && forall x | x in front :: x in columns;
      DictFront(columns);
      hide PassedOver, Mangled;
      OwnPublic(class_, front);
      ScannedIs(last.0);
      PublicName(class_, last.0);
      PutSize(front, last.0, last.1);
    }
  }

  lemma {:induction false} GetIn<V>(d: Dict<V>, x: (string, V))
    requires IsDict(d)
    ensures x in d <==> Get(d, x.0) == Some(x.1)
  {
    if d != [] {
      GetIn(d[1..], x);
      assert x in d <==> x == d[0] || x in d[1..];
      if x in d[1..] { EntryKey(d[1..], x); }
    }
  }

  // ----- the columns of a table -----

  /** What a column is called in its table: the name it is given, or its attribute. */
  predicate IsTitle(w: World, attribute: string, def: ColumnDef, title: string) {
    if def.args != [] && def.args[0] == Text(title) then true
    else if def.args != [] && def.args[0].Text? then false
    else if ("name" in def.bindings || def.starred != []) && w.columnName(def).Some? then
      w.columnName(def) == Some(title)
    else title == attribute
  }

  /** Where a column is placed: 0 unless `sort_order` says otherwise. */
  predicate IsPlace(w: World, def: ColumnDef, place: int) {
    if "sort_order" in def.bindings || def.starred != [] then place == w.order(def) else place == 0
  }

  /** The table's columns, in order, are the entries, each with its clause and what is
      created beside it. */
  ghost predicate AreColumns(w: World, entries: Dict<ColumnDef>, columns: Dict<Stored>) {
    && |columns| == |entries|
    && forall i | 0 <= i < |columns| ::
      IsTitle(w, entries[i].0, entries[i].1, columns[i].0)
        && columns[i].1 == Stored(entries[i].1, w.beside(entries[i].1))
  }

  /** The entries of a class's table: each attribute with its definition, then what the class
      inherits under other names; by sort_order, and where that is equal in this order. */
  ghost predicate AreEntries(w: World, class_: string, columns: Dict<ColumnDef>, inherited: Dict<ColumnDef>,
                             entries: Dict<ColumnDef>) {
    && (forall x :: x in entries <==> || Attribute(class_, columns, x.0) == Some(x.1)
                                      || (Attribute(class_, columns, x.0).None? && x in inherited))
    && (IsDict(inherited) ==> |entries| == |Keys(Own(class_, columns)) + Keys(inherited)|)
    && (forall i, j, p, q | 0 <= i < j < |entries| && IsPlace(w, entries[i].1, p) && IsPlace(w, entries[j].1, q)
      :: p <= q)
    && (forall v :: StableSort.WithKey(entries, Key(w), v)
                 == StableSort.WithKey(Own(class_, columns) + Unshadowed(Own(class_, columns), inherited), Key(w), v))
  }

  lemma TitleIs(w: World, attribute: string, def: ColumnDef, title: string)
    ensures IsTitle(w, attribute, def, title) <==> title == ColumnName(w, attribute, def)
  {
  }

  lemma PlaceIs(w: World, x: (string, ColumnDef), place: int)
    ensures IsPlace(w, x.1, place) <==> place == Key(w)(x)
  {
  }

  lemma {:induction false} UnshadowedAre(own: Dict<ColumnDef>, inherited: Dict<ColumnDef>, x: (string, ColumnDef))
    ensures x in Unshadowed(own, inherited) <==> x in inherited && x.0 !in Keys(own)
  {
    if inherited != [] {
      UnshadowedAre(own, inherited[1..], x);
      assert x in inherited <==> x == inherited[0] || x in inherited[1..];
    }
  }

  /** They come in the order they are inherited. */
  lemma {:induction false} UnshadowedConcat(own: Dict<ColumnDef>, a: Dict<ColumnDef>, b: Dict<ColumnDef>)
    ensures Unshadowed(own, a + b) == Unshadowed(own, a) + Unshadowed(own, b)
  {
    if a == [] {
      assert a + b == b;
    } else {
      assert (a + b)[1..] == a[1..] + b;
      UnshadowedConcat(own, a[1..], b);
    }
  }

  lemma {:induction false} UnshadowedCount(own: Dict<ColumnDef>, inherited: Dict<ColumnDef>)
    requires IsDict(inherited)
    ensures |Unshadowed(own, inherited)| == |Keys(inherited) - Keys(own)|
  {
    if inherited != [] {
      UnshadowedCount(own, inherited[1..]);
      var rest := Keys(inherited[1..]) - Keys(own);
      if inherited[0].0 in Keys(own) {
        assert Keys(inherited) - Keys(own) == rest;
      } else {
        assert Keys(inherited) - Keys(own) == rest + {inherited[0].0};
      }
    }
  }

  lemma {:induction false} DictSize<V>(d: Dict<V>)
    requires IsDict(d)
    ensures |d| == |Keys(d)|
  {
    if d != [] { DictSize(d[1..]); }
  }

  lemma EntriesCount(w: World, class_: string, columns: Dict<ColumnDef>, inherited: Dict<ColumnDef>)
    requires IsDict(inherited)
    ensures |Laid(w, Own(class_, columns), inherited)| == |Keys(Own(class_, columns)) + Keys(inherited)|
  {
    hide Own, Unshadowed, Keys;
    var own := Own(class_, columns);
    OwnAre(class_, columns, "");
    DictSize(own);
    UnshadowedCount(own, inherited);
    var late := Keys(inherited) - Keys(own);
    assert Keys(own) + Keys(inherited) == Keys(own) + late && Keys(own) !! late;
  }

  lemma LaidAre(w: World, class_: string, columns: Dict<ColumnDef>, inherited: Dict<ColumnDef>)
    ensures AreEntries(w, class_, columns, inherited, Laid(w, Own(class_, columns), inherited))
  {
    hide Own, Unshadowed, StableSort.Sort, StableSort.WithKey, Keys, IsPlace, Attribute, Get;
    var own := Own(class_, columns);
    var entries := Laid(w, own, inherited);
    forall x ensures x in entries <==> || Attribute(class_, columns, x.0) == Some(x.1)
                                       || (Attribute(class_, columns, x.0).None? && x in inherited)
    {
      LaidMembers(w, own, inherited, x);
      OwnAre(class_, columns, x.0);
      GetIn(own, x);
      UnshadowedAre(own, inherited, x);
    }
    if IsDict(inherited) { EntriesCount(w, class_, columns, inherited); }
    forall v ensures StableSort.WithKey(entries, Key(w), v)
      == StableSort.WithKey(own + Unshadowed(own, inherited), Key(w), v) {
      StableSort.SortIsStable(own + Unshadowed(own, inherited), Key(w), v);
    }
    StableSort.SortIsStable(own + Unshadowed(own, inherited), Key(w), 0);
    forall i, j, p, q | 0 <= i < j < |entries| && IsPlace(w, entries[i].1, p) && IsPlace(w, entries[j].1, q)
      ensures p <= q {
      PlaceIs(w, entries[i], p);
      PlaceIs(w, entries[j], q);
    }
  }

  lemma FullAre(w: World, entries: Dict<ColumnDef>)
    ensures AreColumns(w, entries, Full(w, entries))
  {
    hide ColumnName, IsTitle;
    forall i | 0 <= i < |entries| ensures IsTitle(w, entries[i].0, entries[i].1, Full(w, entries)[i].0) {
      TitleIs(w, entries[i].0, entries[i].1, Full(w, entries)[i].0);
    }
  }

  // ----- the run -----

  /** The key of a class's table: the name its body gives as a string, or the one SQLAlchemy
      makes, after its schema and a dot if it has one. */
  lemma KeyIs(w: World, src: Source, i: nat)
    requires i < |src| && src[i].Class? && NamesApart(src[i].body)
    ensures var k, mixins := ClassesBefore(src, i), Mixins(Models(src));
            var given := LastValue(src[i].body, "__tablename__");
            var name := if given.Some? && given.value.Text? then Some(given.value.value)
                        else w.tableName(src[i].name, src[i].bases, mixins, given);
            && k < |Models(src)|
            && TableKey(w, Models(src), k)
            == if !w.mapped(src[i].bases, mixins, Models(src)[k].table.rest) || name.None? then None
               else match w.schema(src[i].bases, mixins, LastValue(src[i].body, "__table_args__"))
                 case None => name
                 case Some(schema) => Some(schema + "." + name.value)
  {
    ModelAt(src, i);
    NameIs(src[i].body);
    ArgsAre(src[i].body);
    hide Models, Mixins, TableOf, NameGiven, LastValue;
  }

  /** What tells whether a module has a base: its classes without columns and table
      arguments, its imports from elsewhere, and its other statements. */
  lemma {:induction false} FrameIs(src: Source, top: Top)
    ensures top in Frame(src)
       <==> || (top.OtherTop? && top in src)
            || (top.ImportFrom? && top.origin != "sqlalchemy" && top in src)
            || (top.Class? && exists body :: Class(top.name, top.bases, body) in src && top.body == TableOf(body).rest)
  {
    if src != [] {
      hide TableOf;
      FrameIs(src[1..], top);
      assert forall x :: x in src <==> x == src[0] || x in src[1..];
    }
  }

  /** A nuclear run completes exactly when the source loads, has a base, the database creates
      its schema and the dump works. It then holds, of each class with a table in the
      metadata, under the table's key, the arguments the class body leaves, its columns and
      nothing else; and of tables with other keys what was there. */
  lemma CompletedRunHolds(w: World, db: Tables, src: Source, i: nat, key: string)
    requires NuclearRun(w, db, src).outcome.Complete?
    requires i < |src| && src[i].Class? && ClassesBefore(src, i) < |Models(src)|
    requires TableKey(w, Models(src), ClassesBefore(src, i)) == Some(key)
    ensures var tables := NuclearRun(w, db, src).outcome.schema;
            && tables == NuclearRun(w, db, src).db
            && key in tables && tables[key].args == LastValue(src[i].body, "__table_args__")
            && exists entries ::
                 && AreEntries(w, src[i].name, TableOf(src[i].body).columns,
                               w.inherited(src[i].bases, Mixins(Models(src))), entries)
                 && AreColumns(w, entries, tables[key].columns)
  {
    var models, k := Models(src), ClassesBefore(src, i);
    ModelAt(src, i);
    ArgsAre(src[i].body);
    var entries := Laid(w, Own(src[i].name, models[k].table.columns), Inherited(w, models, k));
    LaidAre(w, src[i].name, models[k].table.columns, Inherited(w, models, k));
    FullAre(w, entries);
    assert BuiltAt(w, models, k) == DbTable(Full(w, entries), models[k].table.args);
    assert Loads(w, src);
    assert KeyIndex(w, models, key, 0) == k by {
      hide TableKey, MetaData, Models;
      assert KeysDiffer(w, models);
    }
    hide Models, TableOf, TableKey, BuiltAt, Laid, Own, Full, Mixins, LastValue, AreEntries, AreColumns, KeyIndex,
      Inherited, Loads, Frame;
    assert key in TableKeys(w, models);
    assert MetaData(w, models)[key] == BuiltAt(w, models, k);
  }

  lemma OtherTablesStay(w: World, db: Tables, src: Source, key: string)
    requires NuclearRun(w, db, src).outcome.Complete?
    requires forall k | 0 <= k < |Models(src)| :: TableKey(w, Models(src), k) != Some(key)
    ensures var tables := NuclearRun(w, db, src).outcome.schema;
            (key in tables <==> key in db) && (key in db ==> tables[key] == db[key])
  {
    hide Models, TableKey, BuiltAt, KeyIndex, Loads, Frame;
  }

  lemma CompletesExactlyWhen(w: World, db: Tables, src: Source)
    ensures NuclearRun(w, db, src).outcome.Complete?
       <==> Loads(w, src) && w.hasBase(Frame(src)) && w.creates(db, MetaData(w, Models(src))) && w.dumps
  {
    hide Models, MetaData, Loads, Frame;
  }
}
