/** The two ways Track B builds the reference schema (mcp_server/track_b.py). */
module TrackB {
  import opened Ordering
  import opened PyDict
  import opened Mutations
  import opened MutationSimulation
  import opened MutationRuns
  import opened DeclaredTables
  import StableSort

  // ----- what SQLAlchemy and the database hold -----

  /** A column as the database has it: its clause, and what was created for this one column
      beside the clause, its constraints and indexes. */
  datatype Stored = Stored(def: ColumnDef, beside: set<string>)

  /** Ordered columns by name, and the options and indexes of `__table_args__`. */
  datatype DbTable = DbTable(columns: Dict<Stored>, args: Option<Expr>)

  /** By the key of the metadata: the table's name, after its schema and a dot if it has one. */
  type Tables = map<string, DbTable>

  /** What lies outside. Of Python and SQLAlchemy: whether a module executes; which frames of
      a module have a declarative base; which classes are mapped to a table in the metadata
      of the base found, and neither abstract nor of another base; the table name of a class
      that does not give one as a string; the schema its table is in; the name a column is given by keyword; the
      sort_order it is given by keyword; the columns a class inherits; and what is created
      for a column beside its clause. Of the database: which schemas it creates and what is
      left of a refused one; which columns it adds and what a refused addition leaves of the
      created and altered tables; and whether the dump works. */
  datatype World = World(
    loads: Source -> bool,
    hasBase: seq<Top> -> bool,
    mapped: (seq<string>, seq<Model>, seq<Item>) -> bool,
    tableName: (string, seq<string>, seq<Model>, Option<Expr>) -> Option<string>,
    schema: (seq<string>, seq<Model>, Option<Expr>) -> Option<string>,
    columnName: ColumnDef -> Option<string>,
    order: ColumnDef -> int,
    inherited: (seq<string>, seq<Model>) -> Dict<ColumnDef>,
    beside: ColumnDef -> set<string>,
    creates: (Tables, Tables) -> bool,
    leftByCreate: (Tables, Tables) -> Tables,
    alters: (Tables, string, string, ColumnDef) -> bool,
    leftByAlter: (Tables, Tables) -> Tables,
    dumps: bool)

  // ----- names -----

  /** The last value a class body binds `__tablename__` to. */
  function NameGiven(rest: seq<Item>): Option<Expr> {
    if rest == [] then None
    else
      var last := rest[|rest| - 1];
      if last.Assign? && Some("__tablename__") in last.targets then Some(last.value)
      else if last.AnnAssign? && last.target == Some("__tablename__") && last.init.Some? then last.init
      else NameGiven(rest[..|rest| - 1])
  }

  /** The name of the class's table, if it has one in the metadata. */
  function TableName(w: World, models: seq<Model>, k: nat): Option<string>
    requires k < |models|
  {
    if !w.mapped(models[k].bases, Mixins(models), models[k].table.rest) then None
    else match NameGiven(models[k].table.rest)
      case Some(Text(name)) => Some(name)
      case given => w.tableName(models[k].name, models[k].bases, Mixins(models), given)
  }

  function Qualified(schema: Option<string>, name: string): string {
    match schema case Some(s) => s + "." + name case None => name
  }

  /** The key of the class's table in `metadata.tables`. */
  function TableKey(w: World, models: seq<Model>, k: nat): Option<string>
    requires k < |models|
  {
    match TableName(w, models, k)
    case None => None
    case Some(name) => Some(Qualified(w.schema(models[k].bases, Mixins(models), models[k].table.args), name))
  }

  predicate Ends(s: string, end: string) {
    |end| <= |s| && s[|s| - |end|..] == end
  }

  function Unprefixed(name: string): string {
    if name != [] && name[0] == '_' then Unprefixed(name[1..]) else name
  }

  /** Python renames `__x` in a class body to `_Class__x`. */
  function Mangled(class_: string, name: string): string {
    if "__" <= name && !Ends(name, "__") && Unprefixed(class_) != [] then "_" + Unprefixed(class_) + name else name
  }

  /** SQLAlchemy's scan of a class passes over `_sa_...` and `__...`. */
  predicate Scanned(attribute: string) {
    !("_sa_" <= attribute) && !("__" <= attribute)
  }

  /** The attributes of a class that are columns of its own, with their definitions. */
  function Own(class_: string, columns: Dict<ColumnDef>): Dict<ColumnDef> {
    if columns == [] then []
    else
      var before, x := Own(class_, columns[..|columns| - 1]), columns[|columns| - 1];
      if Scanned(Mangled(class_, x.0)) then Put(before, Mangled(class_, x.0), x.1) else before
  }

  /** The name of a column in its table: given as first argument or by keyword, else the
      attribute's. */
  function ColumnName(w: World, attribute: string, def: ColumnDef): string {
    if def.args != [] && def.args[0].Text? then def.args[0].value
    else if "name" !in def.bindings && def.starred == [] then attribute
    else match w.columnName(def) case Some(name) => name case None => attribute
  }

  // ----- metadata -----

  /** `sort_order`, 0 unless given. */
  function SortOrder(w: World, def: ColumnDef): int {
    if "sort_order" in def.bindings || def.starred != [] then w.order(def) else 0
  }

  function Key(w: World): ((string, ColumnDef)) -> int {
    (x: (string, ColumnDef)) => SortOrder(w, x.1)
  }

  /** The inherited attributes the class does not declare itself. */
  function Unshadowed(own: Dict<ColumnDef>, inherited: Dict<ColumnDef>): Dict<ColumnDef> {
    if inherited == [] then []
    else (if inherited[0].0 in Keys(own) then [] else [inherited[0]]) + Unshadowed(own, inherited[1..])
  }

  /** The class's own columns, then the inherited ones, sorted stably by sort_order. */
  function Laid(w: World, own: Dict<ColumnDef>, inherited: Dict<ColumnDef>): Dict<ColumnDef> {
    StableSort.Sort(own + Unshadowed(own, inherited), Key(w))
  }

  /** The columns as CREATE TABLE makes them, and as ALTER TABLE does: the clause alone. */
  function Full(w: World, columns: Dict<ColumnDef>): (r: Dict<Stored>)
    ensures |r| == |columns|
    ensures forall i | 0 <= i < |r| ::
      r[i] == (ColumnName(w, columns[i].0, columns[i].1), Stored(columns[i].1, w.beside(columns[i].1)))
  {
    seq(|columns|, i requires 0 <= i < |columns| =>
      (ColumnName(w, columns[i].0, columns[i].1), Stored(columns[i].1, w.beside(columns[i].1))))
  }

  function Bare(columns: Dict<ColumnDef>): (r: Dict<Stored>)
    ensures |r| == |columns|
    ensures forall i | 0 <= i < |r| :: r[i] == (columns[i].0, Stored(columns[i].1, {}))
  {
    seq(|columns|, i requires 0 <= i < |columns| => (columns[i].0, Stored(columns[i].1, {})))
  }

  function Inherited(w: World, models: seq<Model>, k: nat): Dict<ColumnDef>
    requires k < |models|
  {
    w.inherited(models[k].bases, Mixins(models))
  }

  function Built(w: World, class_: string, t: Table, inherited: Dict<ColumnDef>): DbTable {
    DbTable(Full(w, Laid(w, Own(class_, t.columns), inherited)), t.args)
  }

  /** The table of the k-th class. */
  function BuiltAt(w: World, models: seq<Model>, k: nat): DbTable
    requires k < |models|
  {
    Built(w, models[k].name, models[k].table, Inherited(w, models, k))
  }

  /** Position of the first class whose table has the key, or the length. */
  function KeyIndex(w: World, models: seq<Model>, key: string, from: nat): (k: nat)
    requires from <= |models|
    ensures from <= k <= |models|
    ensures k < |models| ==> TableKey(w, models, k) == Some(key)
    ensures forall i | from <= i < k :: TableKey(w, models, i) != Some(key)
    decreases |models| - from
  {
    if from == |models| || TableKey(w, models, from) == Some(key) then from else KeyIndex(w, models, key, from + 1)
  }

  function TableKeys(w: World, models: seq<Model>): set<string> {
    set k | 0 <= k < |models| && TableKey(w, models, k).Some? :: TableKey(w, models, k).value
  }

  /** `metadata.tables` of a loaded module. */
  function MetaData(w: World, models: seq<Model>): Tables {
    map key | key in TableKeys(w, models) ::
      (var k := KeyIndex(w, models, key, 0); BuiltAt(w, models, k))
  }

  /** Each class that gives its table a name as a string gives no other. */
  ghost predicate NamedOnce(models: seq<Model>) {
    forall k, t | 0 <= k < |models| && t in models[k].tables :: NameGiven(models[k].table.rest) == Some(Text(t))
  }

  /** No two classes have a table of one key. */
  ghost predicate KeysDiffer(w: World, models: seq<Model>) {
    forall i, j | 0 <= i < j < |models| && TableKey(w, models, i).Some?
      :: TableKey(w, models, i) != TableKey(w, models, j)
  }

  /** Executing the module succeeds; SQLAlchemy refuses a second class for a table. */
  ghost predicate Loads(w: World, src: Source) {
    w.loads(src) && NamedOnce(Models(src)) && KeysDiffer(w, Models(src))
  }

  // ----- the runs -----

  datatype Stage = ReferenceLoad | ReferenceDdl | SchemaDump
  datatype Outcome = Raised | Failed(stage: Stage) | Complete(schema: Tables)
  datatype Run = Run(outcome: Outcome, db: Tables, disk: Source)

  /** `drop_all` then `create_all`: tables the metadata does not name are left alone. */
  function Recreated(db: Tables, meta: Tables): Tables {
    (db - meta.Keys) + meta
  }

  function Extended(t: DbTable, columns: Dict<Stored>): DbTable {
    t.(columns := t.columns + columns)
  }

  /** ALTER TABLE ... ADD COLUMN, with the clause the final metadata gives. None: there is
      no such column in the metadata, or the database refuses. */
  function AddColumnTo(w: World, created: Tables, db: Tables, meta: Tables, table: string,
                       column: string): Option<Tables> {
    if table !in meta || table !in db then None
    else match Get(meta[table].columns, column)
      case None => None
      case Some(stored) =>
        if column in Keys(db[table].columns) || !w.alters(created, table, column, stored.def) then None
        else Some(db[table := Extended(db[table], [(column, Stored(stored.def, {}))])])
  }

  /** How far the loop over the log came. */
  datatype Progress = Progress(db: Tables, done: bool)

  function Altered(w: World, created: Tables, meta: Tables, log: seq<Mutation>): Progress {
    if log == [] then Progress(created, true)
    else
      var before := Altered(w, created, meta, log[..|log| - 1]);
      var m := log[|log| - 1];
      if !before.done || !m.AddColumn? then before
      else match AddColumnTo(w, created, before.db, meta, m.table, m.column)
        case None => Progress(before.db, false)
        case Some(after) => Progress(after, true)
  }

  function Dumped(w: World, db: Tables): Outcome {
    if w.dumps then Complete(db) else Failed(SchemaDump)
  }

  predicate HasBase(w: World, src: Source) {
    w.hasBase(Frame(src))
  }

  /** The mode that looks at the log at all. */
  predicate LogCounts(log: seq<Mutation>) {
    log != [] && AllAdds(log)
  }

  ghost function NuclearRun(w: World, db: Tables, current: Source): Run {
    if !Loads(w, current) then Run(Raised, db, current)
    else if !HasBase(w, current) then Run(Failed(ReferenceLoad), db, current)
    else
      var meta := MetaData(w, Models(current));
      if !w.creates(db, meta) then Run(Failed(ReferenceDdl), w.leftByCreate(db, meta), current)
      else Run(Dumped(w, Recreated(db, meta)), Recreated(db, meta), current)
  }

  ghost function IncrementalRun(w: World, db: Tables, base: Source, current: Source, log: seq<Mutation>): Run {
    if !LogCounts(log) then NuclearRun(w, db, current)
    else if !Loads(w, current) then Run(Raised, db, current)
    else if !Loads(w, base) then Run(Raised, db, base)
    else if !HasBase(w, base) || !HasBase(w, current) then Run(Failed(ReferenceLoad), db, base)
    else
      var first := MetaData(w, Models(base));
      if !w.creates(db, first) then Run(Failed(ReferenceDdl), w.leftByCreate(db, first), base)
      else
        var created := Recreated(db, first);
        var altered := Altered(w, created, MetaData(w, Models(current)), log);
        if altered.done then Run(Dumped(w, altered.db), altered.db, base)
        else Run(Failed(ReferenceDdl), w.leftByAlter(created, altered.db), base)
  }

  // ----- the source's own form -----

  class Reference {
    var disk: Source
    var db: Tables

    constructor ()
      ensures disk == [] && db == map[]
    {
      disk := [];
      db := map[];
    }

    /** `loads` says whether executing the module succeeds. */
    method RunNuclear(w: World, current: Source, loads: bool) returns (r: Outcome)
      requires loads == Loads(w, current)
      modifies this
      ensures Run(r, db, disk) == NuclearRun(w, old(db), current)
    {
      hide Models, Loads, MetaData, Frame;
      disk := current;
      if !loads {
        return Raised;
      }
      if !HasBase(w, current) {
        return Failed(ReferenceLoad);
      }
      var meta := MetaData(w, Models(current));
      if !w.creates(db, meta) {
        db := w.leftByCreate(db, meta);
        return Failed(ReferenceDdl);
      }
      db := db - meta.Keys;
      db := db + meta;
      r := if w.dumps then Complete(db) else Failed(SchemaDump);
    }

    method RunIncremental(w: World, base: Source, current: Source, log: seq<Mutation>, baseLoads: bool, loads: bool)
      returns (r: Outcome)
      requires baseLoads == Loads(w, base) && loads == Loads(w, current)
      modifies this
      ensures Run(r, db, disk) == IncrementalRun(w, old(db), base, current, log)
    {
      hide Models, Loads, MetaData, AllAdds, Altered, Frame, AddColumnTo;
      var unsupported := AnyUnsupported(log);
      if unsupported || log == [] {
        r := RunNuclear(w, current, loads);
        return;
      }
      disk := current;
      if !loads {
        return Raised;
      }
      disk := base;
      if !baseLoads {
        return Raised;
      }
      if !HasBase(w, base) || !HasBase(w, current) {
        return Failed(ReferenceLoad);
      }
      var first := MetaData(w, Models(base));
      if !w.creates(db, first) {
        db := w.leftByCreate(db, first);
        return Failed(ReferenceDdl);
      }
      db := db - first.Keys;
      db := db + first;
      var created := db;
      var done := AlterAll(w, MetaData(w, Models(current)), log);
      if !done {
        db := w.leftByAlter(created, db);
        return Failed(ReferenceDdl);
      }
      r := if w.dumps then Complete(db) else Failed(SchemaDump);
    }

    static method AnyUnsupported(log: seq<Mutation>) returns (unsupported: bool)
      ensures unsupported <==> !AllAdds(log)
    {
      unsupported := false;
      var i := 0;
      while i < |log|
        invariant 0 <= i <= |log|
        invariant unsupported <==> exists j | 0 <= j < i :: !log[j].AddColumn?
      {
        unsupported := unsupported || !log[i].AddColumn?;
        i := i + 1;
      }
    }

    method AlterAll(w: World, meta: Tables, log: seq<Mutation>) returns (done: bool)
      requires AllAdds(log)
      modifies this`db
      ensures Progress(db, done) == Altered(w, old(db), meta, log)
    {
      hide AddColumnTo;
      var created := db;
      var k := 0;
      while k < |log|
        invariant 0 <= k <= |log|
        invariant Altered(w, created, meta, log[..k]) == Progress(db, true)
      {
        AlteredStep(w, created, meta, log, k);
        var next := AddColumnTo(w, created, db, meta, log[k].table, log[k].column);
        if next.None? {
          FailureStays(w, created, meta, log, k + 1);
          return false;
        }
        db := next.value;
        k := k + 1;
      }
      assert log[..k] == log;
      done := true;
    }
  }

  lemma AlteredStep(w: World, created: Tables, meta: Tables, log: seq<Mutation>, k: nat)
    requires k < |log| && log[k].AddColumn?
    ensures Altered(w, created, meta, log[..k + 1])
         == var before := Altered(w, created, meta, log[..k]);
            if !before.done then before
            else match AddColumnTo(w, created, before.db, meta, log[k].table, log[k].column)
              case None => Progress(before.db, false)
              case Some(after) => Progress(after, true)
  {
    hide AddColumnTo;
    assert log[..k + 1][..k] == log[..k];
  }

  lemma {:induction false} FailureStays(w: World, created: Tables, meta: Tables, log: seq<Mutation>, k: nat)
    requires k <= |log| && !Altered(w, created, meta, log[..k]).done
    ensures Altered(w, created, meta, log) == Altered(w, created, meta, log[..k])
    decreases |log| - k
  {
    hide AddColumnTo;
    if k < |log| {
      assert log[..k + 1][..k] == log[..k];
      FailureStays(w, created, meta, log, k + 1);
    } else {
      assert log[..k] == log;
    }
  }
}
