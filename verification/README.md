# A verified model of the two-track test harness

The harness compares two ways of building a database schema: Track A runs the `dbwarden` CLI,
Track B builds a reference from SQLAlchemy metadata. This project models the parts whose
correctness everything else leans on, and proves what they promise. Nothing in it is executed.

| file | what it models |
|---|---|
| `pool.dfy`, `pool_protocol.dfy`, `pool_refill.dfy`, `pool_tools.dfy`, `pool_counting.dfy`, `pool_lifecycle.dfy` | the warm container pool: one refill thread interleaved with tool calls at the grain of the lock sections, and the clean-up at exit |
| `comparator.dfy` | the canonical form of a schema dump |
| `comparator_parts.dfy` | what a statement declares, read off the statement alone |
| `comparator_theorems.dfy`, `comparator_decision.dfy`, `comparator_types.dfy`, `comparator_passes.dfy`, `comparator_meaning.dfy` | what equality of two forms says of what the dumps declare, after one pass and after two |
| `comparator_witness.dfy`, `comparator_order.dfy` | dialects in which one pass is not enough, and in which the order of bare column names is lost |
| `schema_summary.dfy`, `compare_schemas.dfy` | the summary of a difference, and the comparison of two dumps as a whole |
| `mutations.dfy`, `mutation_simulation.dfy`, `mutation_runs.dfy`, `mutation_results.dfy` | structured edits of a model module, against edits of the schema it declares, and what they write |
| `declared_tables.dfy`, `track_b.dfy`, `column_layout.dfy`, `nuclear_tables.dfy`, `reference_modes.dfy`, `modes_witness.dfy` | the classes a module declares, the metadata read from them, what a nuclear run leaves, the two reference modes, when they agree, and sources on which they do not |
| `session.dfy` | the source a workspace keeps while it is written, mutated and tested |
| `json_text.dfy`, `diff_payload.dfy`, `json_render.dfy`, `json_accepts.dfy`, `json_limits.dfy` | finding a JSON payload in log output, over a JSON parser that accepts the grammar of RFC 8259, sections 2 to 7, and what goes past the interpreter's limits |
| `drift.dfy` | the drift diff and the grouping of ClickHouse column rows |
| `splitter.dfy` | splitting an Enum argument list on its own commas |
| `cluster.dfy` | start and stop of the ClickHouse cluster with a failure possible at every call |
| `ordering.dfy`, `pydict.dfy`, `stable_sort.dfy` | Python's `sorted` and insertion-ordered `dict`, and a stable sort by an integer |

Where the source changes state there is a class or a method with a loop, proved equal to a
function; the theorems are about the function. Containers, networks, databases and `sqlglot`
appear as parameters: a call may succeed or fail, a printer is any function meeting the stated
laws (`ComparatorTheorems.Lawful`, which `ComparatorWitness.FourIsLawful` shows can be met),
Python's parser and printer are a pair of functions (`Session.Python`), and what SQLAlchemy and
the reference database decide is `TrackB.World`.

## Promises the code does not keep

Each is a theorem here, with the exact condition under which the promise holds.

- An incremental test leaves the base source in `app/models.py`, so the next mutation edits the
  base: earlier mutations drop out of the current source and stay in the log, and the current
  source is no longer the base with the log replayed (`Session.MutationAfterIncrementalTest`;
  `Session.LossFromFresh` is such a session). A later incremental test after another `add_column`
  can only fail (`Session.IncrementalFailsAfterLoss`). The exact set of calls that put file and
  current source out of step is `Session.SyncKeptExactlyWhen`; it includes a Track A failure in the
  base stage, and paths that merely end in `app/models.py`.
- The two reference modes do not always agree, even on a log that replays to the current source.
  `ReferenceModes.ModesAgree` gives the exact condition. The incremental mode fails where the
  nuclear one goes through if a class has a schema, because the metadata is keyed by schema and name
  (`ModesWitness.SchemaDivides`); if a column has a name Python mangles or SQLAlchemy's scan passes
  over (`ModesWitness.PrivateColumnDivides`); if the database refuses the clause in an ALTER
  (`ModesWitness.RefusedAlterDivides`); and if only the base source does not load. Where both go
  through, the incremental mode adds a column by its clause alone and after all others, while
  SQLAlchemy sorts columns by `sort_order` and puts inherited ones last
  (`ModesWitness.SortOrderDivides`). For a current source written by hand after a mutation the exact
  condition is `ReferenceModes.ModesAgreeExactlyWhen`, and `ModesWitness.DirectWriteDivides` fails it.
- Equal normal forms do not fix the order of bare column names, those with neither type nor
  constraint: they are sorted among the constraints. `CREATE TABLE t (b, a)` and
  `CREATE TABLE t (a, b)` compare as identical on SQLite (`ComparatorOrder.TableOrderIsLost`), and on
  any backend so do views whose columns are named in another order, which gives each column other
  values (`ComparatorOrder.ViewOrderIsLost`). Equal forms declare the same exactly when corresponding
  statements list their columns in the same order (`ComparatorMeaning.SameFormSameMeaning`), and
  settle a dump against every other exactly when no statement of it has a bare name beside another
  column (`ComparatorMeaning.SoundForEveryDumpExactlyWhen`).
- Normalising a dump once is not enough: constraints are sorted before identifiers are folded, so
  two dumps that declare the same can compare as different (`ComparatorWitness.CaseBreaksTheOrder`).
  One pass is a fixed point exactly for steady dumps (`ComparatorPasses.OnePassSettlesExactlyWhen`),
  among them those whose identifiers are folded and quoted (`ComparatorPasses.FoldedDumpsSettleAtOnce`);
  two passes always decide, up to that order (`ComparatorPasses.TwoPassesDecide`).
- `docs/mcp-server.md` says that constraint names are kept. The name of a bare inline
  `PRIMARY KEY` is not: tables that differ only in it compare as identical
  (`ComparatorDecision.InlineKeyNameIsLost`).
- A comparison that finds the dumps different can have nothing in its summary: a further column of
  the actual table is never reported, nor is an order, a constraint or an option
  (`CompareSchemas.SilentDifference`, `CompareSchemas.FurtherColumnIsSilent`).
- A running container is lost, referred to by nothing, in exactly six cases
  (`PoolLifecycle.NothingLostExactlyWhen`): the wait for the database gives up after the container
  is up, in the refill thread or in a claim (`PoolLifecycle.SlowStartIsLost`); the second claim of
  a workspace fails; a URL cannot be built; the container lookup at the head of a release raises;
  `stop()` itself raises, which `_safe_stop` swallows.
  What the refill pass caught by a shutdown still appends is stopped by nobody unless another
  clean-up follows (`PoolLifecycle.AfterShutdown`).
- A version tag with a colon, such as a digest in `16@sha256:...`, is never found in the pool again,
  so the pool grows without bound (`Pool.VersionRoundTrip`, `PoolCounting.ColonTagsPileUp`).
- `add_index` edits the first plain `__table_args__`, while Python keeps the last binding of any
  form; `drop_column` removes the last of several declarations, which leaves the column in the
  table. The simulation theorem holds exactly outside these cases
  (`MutationRuns.MutationSimulates`).
- A ClickHouse node container whose joining to the network fails keeps running and is stopped by
  nobody (`Cluster.EveryContainerAccountedExactlyWhen`); a failed removal of the configuration
  directory leaves that field set (`Cluster.StopIsTotal`).
- A log line can hide the payload of a diff: a bracket that starts a reading nested deeper than
  Python's recursion limit, or with a longer integer than its digit limit, raises past the handler
  (`DiffPayload.PrefixStopsExactlyWhen`, `DiffPayload.DeepPrefixStops`,
  `DiffPayload.LongIntegerStops`).
- A quoted Enum member ending in an escaped backslash is joined with the next one
  (`Splitter.EscapedBackslashJoinsMembers`, exactly then by `Splitter.QuotedMember`).

## Model

| member | source | states |
|---|---|---|
| Pool.VersionRoundTrip | infrastructure/providers/docker.py:41-42 | a provider built from repository and tag reports that tag as its version if and only if the tag has no colon |
| Pool.AfterLastColonIs | infrastructure/providers/docker.py:41-42 | the version reported is the text after the last colon of the image, or all of it if there is none |
| Pool.RemoveTakesTheMatch | mcp_server/pool.py:80-82 | removing by dataclass equality takes out the very position the search by version found, and keeps the order of the rest |
| Pool.ContainerPool.Take | mcp_server/pool.py:78-82 | the lock section of `claim` hands out the first provider reporting the version and leaves every other queue and element as it was; an unknown backend or version changes nothing |
| Pool.ContainerPool.Remove | mcp_server/pool.py:82 | `deque.remove` drops the first equal element and nothing when none is equal |
| Pool.ContainerPool.Append | mcp_server/pool.py:126-127 | the lock section shared by refill and release adds one provider at the end of one queue |
| Pool.ContainerPool.Drain | mcp_server/pool.py:36-40 | every queued provider is stopped, once, queue after queue in order, and all queues end empty |
| PoolProtocol.ExactlyOnePlace | mcp_server/pool.py:50-133 | in every run of every interleaving each provider ever created is in exactly one place, once: a queue slot, a workspace, a thread's hands, or one of the stopped, failed and lost lists |
| PoolProtocol.StepMoves | mcp_server/workspace.py:112-126 | no single step of refill, claim, release, destroy or clean-up duplicates or drops a provider |
| PoolRefill.PassFills | mcp_server/pool.py:50-66 | a pass of refill steps alone, every start succeeding, leaves each queue with its providers in order followed by new ones of the configured version, as long as it was or as its target, whichever is more |
| PoolRefill.PassCanBeMade | mcp_server/pool.py:42-66 | from every sleeping state that is not stopped such a pass exists |
| PoolRefill.PassStartsExactly | mcp_server/pool.py:53-66 | whatever the tools do meanwhile, a pass starts for each queue exactly the target less the length it read, and appends what it starts; the first failed start is the last for that queue |
| PoolCounting.PoolStaysBounded | mcp_server/pool.py:50-66 | in every run, per backend and version, queued + owed by the pass + claimed is at most the target (for the configured version, else 0) plus twice the number of workspaces, for colon-free tags |
| PoolCounting.ColonTagsPileUp | mcp_server/pool.py:78-86 | without colon-free tags nothing bounds the pool: for every n a run of accepted calls ends with 2n providers queued and no workspace |
| PoolTools.InitializeExactlyWhen | mcp_server/workspace.py:59-76 | a workspace is accepted if and only if there is room, its id is new and its backend is one of the pool's; a SQLite one is registered without providers |
| PoolTools.InitializeRegisters | mcp_server/workspace.py:84-101 | an initialize whose calls succeed registers the workspace last, under its id, with two providers: each the first queued of the version, which leaves the queue, or a new one; nothing else changes |
| PoolTools.DestroyReleases | mcp_server/workspace.py:112-126 | a destroy takes the first workspace of the id off the list and puts its providers, reset, at the end of their queue in order |
| PoolTools.DestroyStops | mcp_server/pool.py:112-114 | once the pool is stopped it stops them instead |
| PoolLifecycle.ReachableClean | mcp_server/pool.py:116-127 | in every reachable state each queued provider is of its queue's backend and was reset since a workspace used it |
| PoolLifecycle.ClaimDelivers | mcp_server/workspace.py:84-101 | a registered workspace holds two different providers of the backend and version asked for, reset since last used, held by nobody else and queued nowhere |
| PoolLifecycle.NothingLostExactlyWhen | infrastructure/providers/docker.py:21-31 | over every run of every interleaving, every container still running is referred to by a queue, a workspace or a thread, if and only if no step of the run was one of six |
| PoolLifecycle.SlowStartIsLost | mcp_server/pool.py:58-66 | a container the refill thread started whose database does not answer in time runs on and nothing refers to it |
| PoolLifecycle.DrainedStoppedAll | mcp_server/pool.py:34-40 | after a drain nothing is queued, registered or claimed, and each provider ever started has been stopped exactly once unless its start failed, an exception lost it, or the refill thread has it in hand |
| PoolLifecycle.CleanupStopsEverything | mcp_server/server.py:27-30 | a clean-up in which no container lookup raises calls stop on every provider registered or queued when it began, however the refill thread runs beside it |
| PoolLifecycle.AfterShutdown | mcp_server/pool.py:42-66 | after a drain the refill thread begins no pass, takes a bounded number of steps, stops nothing, and leaves each queue within its target |
| PoolLifecycle.SecondCleanup | mcp_server/server.py:27-30 | a second clean-up stops exactly what is queued; it changes nothing if and only if all queues are empty |
| Comparator.SplitConstraints | mcp_server/comparator.py:83-97 | the loop over a column's constraints takes out exactly the bare inline keys and keeps the rest in order |
| Comparator.RebuildItems | mcp_server/comparator.py:70-101 | the rebuilt list has the column definitions in order, then all else, hoisted keys and bare column names included, sorted by text; or the type spelling cannot be kept and it fails |
| Comparator.NormalizeSchemaDump | mcp_server/comparator.py:50-106 | the loop over a dump computes the normal form, or rejects it |
| ComparatorDecision.RejectedExactlyWhen | mcp_server/comparator.py:57-105 | a dump is rejected if and only if some statement that takes part is a command, has a SQLite column with a constraint but no type or with an integer type whose spelling cannot be read, or cannot be printed |
| ComparatorTheorems.ChainDecodes | mcp_server/comparator.py:106 | the joined text determines the list of canonical statements |
| ComparatorTheorems.SameFormSameStatements | mcp_server/comparator.py:103-106 | equal normal forms come from the same canonical statements, each as often |
| ComparatorParts.SkippedExactlyWhen | mcp_server/comparator.py:12-66 | a statement is passed over if and only if it is empty or about a table named as dbwarden's own, in any case |
| ComparatorTypes.TypeDecides | mcp_server/comparator.py:77-105 | two dumps that differ in the type of one column of any table have one normal form if and only if the dialect gives the types one name and, for SQLite names that start with INTEGER, they are spelled alike but for case |
| ComparatorTypes.StatementDecides | mcp_server/comparator.py:57-106 | two dumps that differ in one statement have one normal form if and only if the two statements have one canonical form |
| ComparatorDecision.SameFormSameParts | mcp_server/comparator.py:57-106 | equal normal forms declare the same multiset of tables and views, ordered column definitions, types, options, constraints and bare names, primary keys included however spelled |
| ComparatorMeaning.SameFormSameMeaning | mcp_server/comparator.py:57-106 | soundness: then they declare the same, order of all columns included, if and only if corresponding statements list their columns in the same order; as they must when one dump has no bare name beside another column |
| ComparatorMeaning.MeaningExactlyWhen | mcp_server/comparator.py:57-106 | two dumps declare the same if and only if, statement by statement, the second pass prints the same and the columns come in the same order |
| ComparatorMeaning.SoundForEveryDumpExactlyWhen | mcp_server/comparator.py:97-101 | equal forms settle what a dump declares, against every other dump, if and only if no statement of it has a bare column name beside another column |
| ComparatorOrder.TableOrderIsLost | mcp_server/comparator.py:97-101 | in a dialect that meets every law, a SQLite table of two bare names in either order: one normal form, two meanings |
| ComparatorOrder.ViewOrderIsLost | mcp_server/comparator.py:70-76 | on any backend, a view that names its two columns in either order: one normal form, two meanings |
| ComparatorDecision.SteadyComparisonDecides | mcp_server/comparator.py:99-106 | where the sort order survives folding, comparison is equality of what is declared but for the order of bare names, both ways |
| ComparatorDecision.SameSpellingSameForm | mcp_server/comparator.py:66-106 | completeness: order of statements, order and place of constraints, comments, bookkeeping tables and inline or table-level keys never change the normal form |
| ComparatorDecision.InlineKeyMoves | mcp_server/comparator.py:84-95 | a bare inline primary key may move to the table, at any position, without changing columns or constraints |
| ComparatorDecision.InlineKeyNameIsLost | mcp_server/comparator.py:86-94 | the name of a bare inline key never reaches the form; the table without the names is a different table exactly when some such key is named |
| ComparatorPasses.OnePassSettlesExactlyWhen | mcp_server/comparator.py:99-106 | normalising a normal form again changes nothing if and only if every table's constraints sort the same before and after folding |
| ComparatorPasses.FoldedDumpsSettleAtOnce | mcp_server/comparator.py:99-106 | one pass is a fixed point for every dump whose identifiers are folded and quoted |
| ComparatorPasses.ThirdPassChangesNothing | mcp_server/comparator.py:99-106 | the second normal form of every dump is a fixed point |
| ComparatorPasses.TwoPassesDecide | mcp_server/comparator.py:57-106 | for all dumps that normalise, second normal forms are equal if and only if the dumps declare the same but for the order of bare names |
| ComparatorWitness.CaseBreaksTheOrder | mcp_server/comparator.py:99-102 | in a concrete dialect that meets every law, two concrete dumps that declare the same have different normal forms |
| ComparatorWitness.FourIsLawful | mcp_server/comparator.py:57-105 | the laws asked of parser and printer are met by a dialect |
| SchemaSummary.ParseSchema | mcp_server/comparator.py:113-122 | a table is in the schema if and only if some statement creates it; the last that does gives its columns, in the order of first mention, each with the type mentioned last |
| SchemaSummary.CompareTable | mcp_server/comparator.py:34-46 | one table's loop lists exactly the expected columns that are missing and exactly those of another type, in the order of the expected columns |
| SchemaSummary.Summarize | mcp_server/comparator.py:28-47 | the summary lists exactly the missing and extra tables, the missing columns and the type mismatches of common tables, table by table and in column order |
| SchemaSummary.SummaryPartitions | mcp_server/comparator.py:30-46 | each expected table is missing or common, each expected column of a common table exactly one of missing, mismatched, equal |
| SchemaSummary.SummarySwaps | mcp_server/comparator.py:30-46 | swapping the dumps exchanges missing with extra tables and expected with actual types |
| SchemaSummary.EmptySummaryExactlyWhen | mcp_server/comparator.py:30-46 | the summary is empty if and only if the tables are the same and every expected column is there with its type |
| SchemaSummary.BothEmptyExactlyWhen | mcp_server/comparator.py:30-46 | it is empty either way round if and only if the tables have the same columns and types |
| CompareSchemas.Compare | mcp_server/comparator.py:14-47 | from two dumps to identical, an exception or the summary of their normal forms, and which of the three when |
| CompareSchemas.ReadBack | mcp_server/comparator.py:113-122 | the schema summarised gives each column of a table, the last of their names, the kind of its type in the statement read back |
| CompareSchemas.TablesInAre | mcp_server/comparator.py:113-122 | a table is in the schema summarised if and only if some statement read back creates it |
| CompareSchemas.SilentDifference | mcp_server/comparator.py:17-47 | dumps told apart with an empty summary: exactly when every expected column is in the actual tables |
| CompareSchemas.FurtherColumnIsSilent | mcp_server/comparator.py:34-37 | two concrete tables, the actual one with a further column, and nothing in the summary |
| Mutations.FindModel | mcp_server/mutations.py:20-34 | the search finds the first class that declares the table, or none |
| Mutations.DeclaredColumns | mcp_server/mutations.py:37-45 | the dict of columns maps each name to its last declaration |
| Mutations.ApplyMutation | mcp_server/mutations.py:12-136 | the imperative edit, with all its rejections, is the function the theorems below are about |
| MutationSimulation.SetKeywordBinds | mcp_server/mutations.py:139-141 | after `_set_keyword` the name is bound once, to the new value, and every other binding and every starred argument is as before |
| MutationSimulation.StarredConcat | mcp_server/mutations.py:139-141 | starred arguments are kept apart from the named ones, in their order |
| MutationSimulation.ColumnReplaced | mcp_server/mutations.py:93-118 | replacing the last declaration of a column replaces its definition at its place in the table, whatever surrounds it |
| MutationSimulation.ArgsReplaced | mcp_server/mutations.py:56-75 | editing one `__table_args__` takes effect if and only if no later item binds it |
| MutationSimulation.BodySimulates | mcp_server/mutations.py:46-120 | the table read from the edited body is the edited table, for all kinds, if and only if the edited binding is the one in force |
| MutationRuns.MutationSimulates | mcp_server/mutations.py:18-136 | reading the schema after a mutation is editing the schema read before: the same for every other class, column and order; if and only if the edit was unambiguous |
| MutationRuns.Admitted | mcp_server/mutations.py:35-120 | for every source and mutation: accepted if and only if the schema has the columns it needs and, for an index, the `__table_args__` it edits are literal |
| MutationRuns.AdmittedBySchema | mcp_server/mutations.py:35-120 | for all but an index that goes to other `__table_args__` than those in force, the schema alone tells whether a mutation is accepted |
| MutationRuns.MutationKeeps | mcp_server/mutations.py:121-136 | an accepted mutation imports exactly the names it introduced on top of those known; it keeps a module's column names unique, keywords bound once and an options dict last |
| MutationRuns.KnownIs | mcp_server/mutations.py:121-126 | a name is known if and only if some `from ... import` binds it, as it stands or by `as` |
| MutationResults.NullableWritten | mcp_server/mutations.py:108-113 | after set_not_null the column has nullable=False, after drop_not_null or a plain add_column nullable=True, after one that says so what it says |
| MutationResults.IndexWritten | mcp_server/mutations.py:48-78 | add_index puts `Index("ix_<table>_<names>", names in order, unique as asked)` before what the first plain table arguments hold, or in new ones at the end, and imports Index |
| MutationResults.ImportsWritten | mcp_server/mutations.py:121-135 | the edit adds nothing when all names are known, and otherwise one statement before the first class that imports each unknown name from sqlalchemy, as it stands, once and in sorted order |
| MutationRuns.LogSimulatesExactlyWhen | mcp_server/server.py:120-124 | after each mutation of an accepted log the source declares the edited tables, if and only if each edits the binding in force |
| MutationRuns.LogAdmitted | mcp_server/server.py:120-124 | such a log is accepted on the source if and only if it is on the schema |
| MutationRuns.LogKeeps | mcp_server/mutations.py:121-136 | any accepted log leaves every name it introduced imported; on a module without repeated columns, keywords or table arguments every log edits bindings in force and keeps it so |
| MutationRuns.AddThenDrop | mcp_server/mutations.py:84-106 | dropping the column just added gives the module back as it was, but for an import of the type |
| ReferenceModes.ModesAgree | mcp_server/track_b.py:47-102 | for every base, every log that replays to the current source, every state of the database and every behaviour of Python, SQLAlchemy and the database: exactly when both modes end with the same outcome, tables and ordered columns |
| ReferenceModes.AlteredFollows | mcp_server/track_b.py:80-91 | the loop over the log gets through if and only if each class edited has its table in the metadata under the plain name, and each column is one SQLAlchemy finds under the name logged, new to its table and taken by the database; then each table is as created with the logged clauses after its columns |
| ColumnLayout.TableAgrees | mcp_server/track_b.py:78-91 | created at once or created and altered, a table is the same if and only if the added columns take no attribute's place, nothing of it sorts after them and nothing is created beside their clauses |
| ReferenceModes.ModesAgreeExactlyWhen | mcp_server/track_b.py:78-91 | for any current source and any state of the database, completed runs agree if and only if every table is as it must be, table by table |
| ModesWitness.SchemaDivides | mcp_server/track_b.py:85-90 | a class with a schema in its table arguments: the lookup by plain name fails, nuclear goes through |
| ModesWitness.PrivateColumnDivides | mcp_server/track_b.py:85-87 | a logged column `__x` or `_sa_x`: accepted, replayed, and not found in the metadata |
| ModesWitness.DirectWriteDivides | mcp_server/track_b.py:57-91 | concrete sources on which both modes complete and differ after a direct write |
| ModesWitness.SortOrderDivides | mcp_server/track_b.py:80-91 | a base column with a late sort_order: the modes differ on one added column |
| ModesWitness.RefusedAlterDivides | mcp_server/track_b.py:85-93 | a logged column the database refuses in an ALTER: nuclear goes through, incremental does not |
| TrackB.Reference.RunNuclear | mcp_server/track_b.py:17-44 | the run's outcome, database and models file, failures included |
| NuclearTables.CompletedRunHolds | mcp_server/track_b.py:31-44 | a completed nuclear run holds, of each class mapped to a table, under its key, the last table arguments its body binds, and exactly its columns: each attribute with its last definition, each inherited one not shadowed, placed stably by sort_order |
| NuclearTables.ColumnsAre | mcp_server/track_b.py:103-115 | a class has a column exactly when some statement of its body declares it, with the definition of the last that does |
| NuclearTables.DefIs | mcp_server/track_b.py:103-115 | a definition holds the annotation, the positional arguments, each keyword with its last value, and whether there are starred ones |
| NuclearTables.OwnPublic | mcp_server/track_b.py:103-115 | with public names only, the attributes of a class are its columns, in their order |
| NuclearTables.MixinsAre | mcp_server/track_b.py:103-115 | classes inherit from exactly those that name no table |
| NuclearTables.MixinsConcat | mcp_server/track_b.py:103-115 | and takes them in the order of the module |
| NuclearTables.UnshadowedConcat | mcp_server/track_b.py:31-33 | what a class inherits keeps its order |
| NuclearTables.FrameIs | mcp_server/track_b.py:118-129 | whether there is a base is told from the classes less their columns and table arguments, the imports from elsewhere and the other statements |
| NuclearTables.OtherTablesStay | mcp_server/track_b.py:32-33 | tables the metadata does not name are as they were |
| NuclearTables.CompletesExactlyWhen | mcp_server/track_b.py:17-44 | a nuclear run completes if and only if the source loads and has a base, the database creates its schema and the dump works |
| NuclearTables.KeyIs | mcp_server/track_b.py:85-90 | the key of a table is the last name the class body gives, after its schema and a dot if it has one |
| NuclearTables.MangledIs | mcp_server/track_b.py:87 | a private name is prefixed with an underscore and the class's name less its leading underscores |
| TrackB.Reference.RunIncremental | mcp_server/track_b.py:47-102 | the fallback, the loop over the log, the place and state of a refused ALTER, and which source is left on disk |
| Session.BaseSetOnce | mcp_server/server.py:46-50 | over every run the base source, once set, never changes, is set exactly when a current source is, and the log only grows |
| Session.FrozenIsFixed | mcp_server/server.py:40-42 | a frozen workspace, models file included, is the same after any calls, all of which raise |
| Session.FrozenExactlyWhen | mcp_server/server.py:187-208 | a workspace is frozen after a run if and only if some call of the run found both tracks finished and different, whether or not its bundle was written |
| Session.RejectedLeaveNoTrace | mcp_server/server.py:113-124 | a run without its rejected writes and mutations ends in the same workspace, and the log is exactly the accepted mutations in order |
| Session.SyncedThroughoutExactlyWhen | mcp_server/track_b.py:63-67 | over a run app/models.py equals the current source after every call if and only if every call is of a set told beforehand |
| Session.CurrentIsReplay | mcp_server/server.py:40-50 | over every run that keeps file and source in step, the current source is the last direct write with the later mutations replayed, and with one write it is the base with the whole log |
| Session.ModesAgreeInSession | mcp_server/server.py:148-171 | in such a session with one direct write the log replays the base to the current source, so the modes agree exactly as `ReferenceModes.ModesAgree` says |
| Session.TestLeavesTheRunsDisk | mcp_server/track_a.py:32-52 | the file a test leaves, for every stage at which it can end; after Track A, the file the reference run leaves |
| Session.MutationAfterIncrementalTest | mcp_server/server.py:120-124 | a mutation after an incremental test edits the base source: the logged ones stay in the log, and the current source is not the base with the log replayed |
| Session.LogMatters | mcp_server/mutations.py:12-136 | a log of additions and then a mutation never gives what the mutation alone gives |
| Session.LossFromFresh | mcp_server/server.py:113-171 | four calls from a fresh workspace, all accepted, after which the first mutation is gone |
| Session.IncrementalFailsAfterLoss | mcp_server/track_b.py:78-93 | after such a loss an incremental test on another add_column fails, and in the reference DDL whenever both sources load and have a base |
| Session.LiveWorkspace.WriteModelFile | mcp_server/server.py:40-51 | the whole new state of a write, refused writes included |
| Session.LiveWorkspace.ApplyTo | mcp_server/server.py:114-124 | the whole new state of a mutation, through the imperative edit |
| Session.LiveWorkspace.RunTwoTrackTest | mcp_server/server.py:137-210 | the whole new state of a test, for every stage at which either track can end |
| DiffPayload.ParseDiffOutput | tools/migration_player.py:158-169 | the scan raises if and only if some bracket starts a reading past the interpreter's limits with no payload before it; otherwise it returns the payload of whichever position carries one, and the empty list when none does |
| DiffPayload.OneDocument | tools/case_runner.py:332-343 | at most one bracket of a text starts a JSON document that runs to its end |
| DiffPayload.NoPrefixHidesThePayload | tools/migration_player.py:160-168 | before any text whatsoever a payload stays the only payload, at its place and with its value |
| DiffPayload.PrefixStopsExactlyWhen | tools/migration_player.py:164-166 | a prefix keeps a payload within the limits from being found if and only if one of its brackets starts a reading past them |
| DiffPayload.DeepPrefixStops | tools/migration_player.py:164-166 | for every recursion limit, one opening bracket more than it stops the scan, whatever follows |
| DiffPayload.LongIntegerStops | tools/migration_player.py:164-166 | for every digit limit, a bracket and one digit more than it, before any document, stop the scan |
| DiffPayload.PayloadEndsInBracket | tools/migration_player.py:164-168 | output whose last non-blank character is not a closing bracket carries no payload |
| DiffPayload.ValueReadsBack | tools/migration_player.py:164 | every text the JSON parser accepts leaves the bracket-and-quote automaton where it was |
| JsonAccepts.LoadsExactlyWhen | tools/migration_player.py:164-165 | the parser returns a value if and only if the text spells it: every spelling of every character section 7 of RFC 8259 allows, surrogate pairs included, every number, every layout, the last value of a repeated name; and nothing else but Python's three constants |
| JsonAccepts.PayloadExactlyWhen | tools/migration_player.py:160-168 | a position carries a payload if and only if what follows it is a list of objects in some spelling and layout, and blanks |
| JsonAccepts.PrintedPayloadIsFound | tools/migration_player.py:158-169 | writing any list of objects in any spelling behind any prefix, the scan's only payload is that list |
| JsonLimits.DocEscapesExactlyWhen | tools/migration_player.py:164-166 | reading a document goes past a limit if and only if it is nested deeper or has an integer with more digits |
| JsonLimits.FewNeverStop | tools/migration_player.py:164-166 | output with no more brackets than the depth and no longer run of digits never stops the scan, whatever is wrong with it |
| Drift.DiffSnapshots | tools/drift_checker.py:179-225 | the loop over the sorted tables builds the diff the theorems below are about |
| Drift.DiffIsExact | tools/drift_checker.py:179-225 | an item is reported if and only if it is a difference between the two snapshots |
| Drift.DiffIsOrdered | tools/drift_checker.py:185-224 | items come table by table in sorted order and no kind and object comes twice |
| Drift.DiffIsAPatch | tools/drift_checker.py:179-225 | applying the diff to expected gives actual if and only if the two agree on tables neither lists columns for |
| Drift.NoDriftExactlyWhen | tools/drift_checker.py:227-231 | no item, and agreement outside the listed tables, if and only if the snapshots are equal |
| Drift.DiffFlips | tools/drift_checker.py:179-225 | swapping the snapshots swaps expected with actual in every item and keeps the order |
| Drift.CoveredAgreeOutside | tools/drift_checker.py:61-63 | snapshots whose maps speak only of tables with columns meet the patch condition |
| Drift.GroupRows | tools/drift_checker.py:146-155 | every row lands in its table's list, in query order, and no table is left out |
| Drift.DetailsAre | tools/drift_checker.py:147-155 | a table has one detail for each of its rows, in query order, with the row's name and type, never nullable, and a default only where its kind is given |
| Drift.ZippedAre | tools/drift_checker.py:160-168 | the options pair the four names with the cells after the table's name, one by one |
| Drift.CaptureClickHouse | tools/drift_checker.py:156-175 | every field of a capture: each table's rows in order, the options of the last row that names a table, the empty maps; and it covers its tables if and only if the options query saw no table the first query missed |
| Ordering.LeqIs | tools/drift_checker.py:185 | strings are ordered by their first difference, and a beginning comes before the whole |
| Splitter.SplitMembers | suites/generative/test_literal_rendering.py:59-84 | the character loop computes the split at the separating commas |
| Splitter.JoinOfSplit | suites/generative/test_literal_rendering.py:59-84 | joining the parts with commas gives back every input |
| Splitter.SplitOfJoin | suites/generative/test_literal_rendering.py:59-84 | splitting a joined list gives the list back if and only if it is non-empty, no member has a comma of its own at the top, and all but the last are closed |
| Splitter.QuotedMember | suites/generative/test_literal_rendering.py:64-68 | a quoted literal is one closed member if and only if it does not end in a backslash |
| Splitter.UnquotedMember | suites/generative/test_literal_rendering.py:69-80 | without quotes a comma separates exactly where as many parentheses are closed as opened, and a text is closed when they balance |
| Splitter.QuotesHide | suites/generative/test_literal_rendering.py:64-71 | a quoted literal, parentheses in it or not, leaves the scanner as it found it |
| Splitter.EscapedBackslashJoinsMembers | suites/generative/test_literal_rendering.py:66-67 | an escaped backslash before the closing quote swallows the next member |
| Cluster.StartIsAllOrNothing | infrastructure/providers/clickhouse_cluster.py:50-63 | a start ends fully up if and only if none of its calls failed, and otherwise everything is down and it raised |
| Cluster.StopAfterAnyRun | infrastructure/providers/clickhouse_cluster.py:65-84 | a stop after any sequence of starts and stops: down, every recorded container tried, only what joining failures lost untried, and nothing left for a second stop but the directory |
| Cluster.AlwaysUpOrDown | infrastructure/providers/clickhouse_cluster.py:50-84 | after every sequence of starts and stops the cluster is fully up or fully down, and in its initial state when down if directories can be removed |
| Cluster.EveryContainerAccountedExactlyWhen | infrastructure/providers/clickhouse_cluster.py:160-187 | over every sequence, each container is recorded or had its stop attempted, if and only if no start failed at joining a node to the network |
| Cluster.LeakBound | infrastructure/providers/clickhouse_cluster.py:183-187 | exactly one container is lost for each start that failed there |
| Cluster.ClusterProvider.Start | infrastructure/providers/clickhouse_cluster.py:50-63 | the whole state after a start, Docker's record included, for every place a call can fail |
| Cluster.ClusterProvider.Stop | infrastructure/providers/clickhouse_cluster.py:65-84 | the whole state after a stop: which containers and network were tried, and what is cleared |

## Left out

- PoolStaysBounded: stated for tags without a colon, because with one, as in the digest reference `16@sha256:...`, it is false (`PoolCounting.ColonTagsPileUp`).
- Docker, networks, sockets, readiness polling and time: each call is an action or an oracle that succeeds or fails; the pause between refill passes and `warm_pool_enabled` are not modelled.
- Concurrent tool calls: tools run one after another, only the refill thread is concurrent, and there is one of it.
- `sqlglot`: statements arrive parsed, so a dump that does not parse is not modelled. That the printed text of a canonical statement determines it, and that reading it gives that statement back, are hypotheses (`ComparatorTheorems.Lawful`); the normal form of a normal form (`ComparatorPasses.Reparsed`) rests on the second.
- Editing parse trees and syntax trees in place: the edits are modelled on values, so aliasing between nodes is not captured.
- Python's `ast`: classes, assignments, annotated assignments, calls, names, strings, tuples and dict displays are modelled, the rest is opaque text. A class whose `__tablename__` is annotated or computed has its table in the metadata and, as in the code, cannot be mutated.
- A column declared by anything but an annotated `mapped_column(...)` is not a column of the model: that the database refuses a second column of its name is for `TrackB.World.alters` to say, and an added attribute that replaces such a declaration under another column name is not modelled.
- A column declared twice in one class is read at its first place, and a class that gives two table names does not load here; SQLAlchemy's order for the first is not modelled. Nor are `extend_existing`, `key=` of a column, and a class that names a table it has not but from which others inherit its columns. Which columns a class inherits is a parameter, and a class mapped onto its parent's table (single-table inheritance) adds nothing to that table here.
- A column definition without a type whose only constraints are bare keys, on a backend other than SQLite (which rejects it): once its key has moved it reads back as a bare name, and `ComparatorTheorems.Read` excludes it.
- Identifiers and case folding are ASCII.
- `json.loads`: a number keeps its spelling.
- Refused DDL: a refused schema or a refused ALTER leaves the reference database in any state the parameters say; two runs that both end in refused DDL count as agreeing.
- `run_track_a` is modelled only by the source it leaves in the models file; the `dbwarden` CLI is not part of this model.
- Symbolic links and path resolution: a write says where it leads and whether its text ends in `app/models.py`.
- Collisions of generated workspace ids: two live workspaces have different ids.
- Proof bundles, reports, schema dumping, hashing, file permissions, the read-only SQL guard, classification and version matrices.
- `DriftChecker.capture` through SQLAlchemy inspection: only the shape of its result matters here.
