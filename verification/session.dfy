/** The source a workspace keeps while tools write it, mutate it and test it
    (mcp_server/server.py, mcp_server/workspace.py). */
module Session {
  import opened Ordering
  import opened PyDict
  import opened Mutations
  import opened MutationSimulation
  import opened MutationRuns
  import opened DeclaredTables
  import opened TrackB
  import opened ColumnLayout
  import opened ReferenceModes
  import opened ModesWitness

  /** Python's parser and `ast.unparse`; None is a syntax error. */
  datatype Python = Python(parse: string -> Option<Source>, render: Source -> string)

  ghost predicate Faithful(py: Python) {
    forall src :: py.parse(py.render(src)) == Some(src)
  }

  function MutateText(py: Python, text: string, m: Mutation): Option<string> {
    match py.parse(text)
    case None => None
    case Some(src) => match Apply(src, m) case Rejected(_) => None case Done(r) => Some(py.render(r))
  }

  /** `disk` is what app/models.py holds, if it exists. */
  datatype Workspace = Workspace(base: Option<string>, current: Option<string>, frozen: bool,
                                 log: seq<Mutation>, disk: Option<string>)

  const FRESH: Workspace := Workspace(None, None, false, [], None)

  /** Where a written path leads. */
  datatype Place = Outside | ModelsFile | Elsewhere

  datatype Mode = Nuclear | Incremental | OtherMode

  /** How far Track A came: it fails before writing any models, with the base models on
      disk, with the current ones, or not at all. */
  datatype TrackAEnd = AtInit | AtBase | AtMutation | Passed

  /** Track B: whether the current module and the base module execute, and whether the
      rest succeeds. */
  datatype TrackBEnd = TrackBEnd(currentLoads: bool, baseLoads: bool, success: bool)

  /** The comparison, once both tracks are through: it can raise, and so can the proof bundle
      of a difference, which freezes the workspace before anything else. */
  datatype ComparisonEnd = CompareRaises | Same | Differ(bundled: bool)

  /** `named` is the code's own test: the path given ends in "app/models.py". */
  datatype Op =
    | Write(place: Place, named: bool, content: string)
    | Mutate(m: Mutation)
    | Test(mode: Mode, a: TrackAEnd, b: TrackBEnd, end: ComparisonEnd)

  /** The workspace after a call, and whether the call returned rather than raised. */
  datatype Called = Called(ws: Workspace, returned: bool)

  function AfterWrite(ws: Workspace, place: Place, named: bool, content: string): Called {
    if ws.frozen || place.Outside? then Called(ws, false)
    else
      var onDisk := if place.ModelsFile? then ws.(disk := Some(content)) else ws;
      Called(if named then onDisk.(base := if ws.base.None? then Some(content) else ws.base, current := Some(content))
             else onDisk, true)
  }

  function AfterMutate(py: Python, ws: Workspace, m: Mutation): Called {
    if ws.frozen then Called(ws, false)
    else match MutateText(py, match ws.disk case Some(t) => t case None => "", m)
      case None => Called(ws, false)
      case Some(text) =>
        var written := AfterWrite(ws, ModelsFile, true, text).ws;
        Called(written.(log := ws.log + [m]), true)
  }

  /** `base_models_source or current`: an empty base counts as none. */
  function TestBase(ws: Workspace): string
    requires ws.current.Some?
  {
    match ws.base case Some(b) => (if b == "" then ws.current.value else b) case None => ws.current.value
  }

  predicate UsesLog(ws: Workspace, mode: Mode) {
    mode.Incremental? && ws.log != [] && AllAdds(ws.log)
  }

  function AfterTrackA(ws: Workspace, a: TrackAEnd): Option<string>
    requires ws.current.Some?
  {
    match a
    case AtInit => ws.disk
    case AtBase => Some(TestBase(ws))
    case _ => ws.current
  }

  function AfterTest(ws: Workspace, mode: Mode, a: TrackAEnd, b: TrackBEnd, end: ComparisonEnd): Called {
    if mode.OtherMode? || ws.frozen || ws.current.None? then Called(ws, false)
    else
      var ran := ws.(disk := AfterTrackA(ws, a));
      if !a.Passed? then Called(ran, true)
      else
        var built := if UsesLog(ws, mode) && b.currentLoads then ws.(disk := Some(TestBase(ws))) else ran;
        if !b.currentLoads || (UsesLog(ws, mode) && !b.baseLoads) then Called(built, false)
        else if !b.success then Called(built, true)
        else match end
          case CompareRaises => Called(built, false)
          case Same => Called(built, true)
          case Differ(bundled) => Called(built.(frozen := true), bundled)
  }

  function Step(py: Python, ws: Workspace, op: Op): Called {
    match op
    case Write(place, named, content) => AfterWrite(ws, place, named, content)
    case Mutate(m) => AfterMutate(py, ws, m)
    case Test(mode, a, b, end) => AfterTest(ws, mode, a, b, end)
  }

  function Run(py: Python, ws: Workspace, ops: seq<Op>): Workspace
    decreases |ops|
  {
    if ops == [] then ws else Run(py, Step(py, ws, ops[0]).ws, ops[1..])
  }

  // ----- what no call undoes -----

  /** The base source is set once: no run changes it. */
  lemma {:induction false} BaseSetOnce(py: Python, ws: Workspace, ops: seq<Op>)
    ensures ws.base.Some? ==> Run(py, ws, ops).base == ws.base
    ensures (ws.base.Some? <==> ws.current.Some?)
        ==> (Run(py, ws, ops).base.Some? <==> Run(py, ws, ops).current.Some?)
    ensures ws.log <= Run(py, ws, ops).log
    decreases |ops|
  {
    if ops != [] {
      hide MutateText;
      BaseSetOnce(py, Step(py, ws, ops[0]).ws, ops[1..]);
    }
  }

  /** A frozen workspace is fixed, models file included, whatever is called. */
  lemma {:induction false} FrozenIsFixed(py: Python, ws: Workspace, ops: seq<Op>)
    requires ws.frozen
    ensures Run(py, ws, ops) == ws
    ensures forall i | 0 <= i < |ops| :: !Step(py, ws, ops[i]).returned
  {
    if ops != [] { FrozenIsFixed(py, ws, ops[1..]); }
  }

  /** The call finds its two tracks finished and their schemas different. */
  predicate Freezes(ws: Workspace, op: Op) {
    && op.Test? && !op.mode.OtherMode? && !ws.frozen && ws.current.Some?
    && op.a.Passed? && op.b.currentLoads && (UsesLog(ws, op.mode) ==> op.b.baseLoads)
    && op.b.success && op.end.Differ?
  }

  lemma RunPrefix(py: Python, ws: Workspace, ops: seq<Op>, k: nat)
    requires 0 < k <= |ops|
    ensures Run(py, ws, ops[..k]) == Run(py, Step(py, ws, ops[0]).ws, ops[1..][..k - 1])
  {
    assert ops[..k][1..] == ops[1..][..k - 1];
  }

  /** A workspace is frozen after a run exactly when some call of the run found both tracks
      finished and different, whether or not it went on to write its bundle. */
  lemma {:induction false} FrozenExactlyWhen(py: Python, ws: Workspace, ops: seq<Op>)
    requires !ws.frozen
    ensures Run(py, ws, ops).frozen <==> exists k | 0 <= k < |ops| :: Freezes(Run(py, ws, ops[..k]), ops[k])
    decreases |ops|
  {
    hide MutateText;
    if ops != [] {
      var next := Step(py, ws, ops[0]).ws;
      assert next.frozen <==> Freezes(ws, ops[0]);
      assert Run(py, ws, ops[..0]) == ws;
      hide Step, Freezes;
      forall k | 0 < k <= |ops| ensures Run(py, ws, ops[..k]) == Run(py, next, ops[1..][..k - 1]) {
        RunPrefix(py, ws, ops, k);
      }
      if next.frozen {
        FrozenIsFixed(py, next, ops[1..]);
      } else {
        FrozenExactlyWhen(py, next, ops[1..]);
        if k :| 0 <= k < |ops| && Freezes(Run(py, ws, ops[..k]), ops[k]) {
          assert ops[1..][k - 1] == ops[k];
        }
        if k :| 0 <= k < |ops| - 1 && Freezes(Run(py, next, ops[1..][..k]), ops[1..][k]) {
          assert Freezes(Run(py, ws, ops[..k + 1]), ops[k + 1]);
        }
      }
    }
  }

  /** A write or mutation that raises changes nothing; one that returns is in force. */
  lemma RejectedChangesNothing(py: Python, ws: Workspace, op: Op)
    requires !op.Test?
    ensures !Step(py, ws, op).returned ==> Step(py, ws, op).ws == ws
    ensures op.Mutate? ==> (Step(py, ws, op).returned <==>
              !ws.frozen && MutateText(py, match ws.disk case Some(t) => t case None => "", op.m).Some?)
    ensures op.Mutate? && Step(py, ws, op).returned ==>
      && Step(py, ws, op).ws.log == ws.log + [op.m]
      && Step(py, ws, op).ws.disk == Step(py, ws, op).ws.current
      && Step(py, ws, op).ws.current == MutateText(py, match ws.disk case Some(t) => t case None => "", op.m)
  {
    hide MutateText;
  }

  /** The run without its rejected writes and mutations. A test stays: one that raises can
      have rewritten the file. */
  function Effective(py: Python, ws: Workspace, ops: seq<Op>): seq<Op>
    decreases |ops|
  {
    if ops == [] then []
    else (if ops[0].Test? || Step(py, ws, ops[0]).returned then [ops[0]] else [])
         + Effective(py, Step(py, ws, ops[0]).ws, ops[1..])
  }

  function MutationsIn(ops: seq<Op>): seq<Mutation> {
    if ops == [] then [] else (if ops[0].Mutate? then [ops[0].m] else []) + MutationsIn(ops[1..])
  }

  lemma EffectiveStep(py: Python, ws: Workspace, ops: seq<Op>)
    requires ops != []
    ensures Effective(py, ws, ops) == (if ops[0].Test? || Step(py, ws, ops[0]).returned then [ops[0]] else [])
                                      + Effective(py, Step(py, ws, ops[0]).ws, ops[1..])
    ensures Run(py, ws, ops) == Run(py, Step(py, ws, ops[0]).ws, ops[1..])
  {
    hide Step;
  }

  lemma FirstCall(py: Python, ws: Workspace, op: Op, rest: seq<Op>)
    ensures Run(py, ws, [op] + rest) == Run(py, Step(py, ws, op).ws, rest)
    ensures MutationsIn([op] + rest) == (if op.Mutate? then [op.m] else []) + MutationsIn(rest)
  {
    hide Step;
    assert ([op] + rest)[1..] == rest;
  }

  /** Leaving out what was rejected changes nothing, and the log holds exactly the accepted
      mutations, in order. */
  lemma {:induction false} RejectedLeaveNoTrace(py: Python, ws: Workspace, ops: seq<Op>)
    ensures Run(py, ws, Effective(py, ws, ops)) == Run(py, ws, ops)
    ensures Run(py, ws, ops).log == ws.log + MutationsIn(Effective(py, ws, ops))
    decreases |ops|
  {
    if ops == [] {
      assert ws.log + [] == ws.log;
    } else {
      hide *;
      var op, next := ops[0], Step(py, ws, ops[0]).ws;
      var rest := Effective(py, next, ops[1..]);
      RejectedLeaveNoTrace(py, next, ops[1..]);
      EffectiveStep(py, ws, ops);
      LogStep(py, ws, op);
      FirstCall(py, ws, op, rest);
      var one := if op.Mutate? then [op.m] else [];
      Regroup(ws.log, one, MutationsIn(rest));
      if !op.Test? && !Step(py, ws, op).returned {
        RejectedChangesNothing(py, ws, op);
        assert Effective(py, ws, ops) == [] + rest == rest;
      } else {
        assert Effective(py, ws, ops) == [op] + rest;
      }
    }
  }

  lemma Regroup<T>(a: seq<T>, b: seq<T>, c: seq<T>)
    ensures a + (b + c) == (a + b) + c && [] + c == c
  {
  }

  lemma LogStep(py: Python, ws: Workspace, op: Op)
    ensures Step(py, ws, op).ws.log == ws.log + if op.Mutate? && Step(py, ws, op).returned then [op.m] else []
  {
    hide MutateText;
    assert ws.log + [] == ws.log;
  }

  // ----- disk and current -----

  predicate InSync(ws: Workspace) {
    ws.disk == ws.current
  }

  /** Which calls leave app/models.py holding the current source, told before the call. */
  predicate KeepsSync(ws: Workspace, op: Op) {
    match op
    case Write(place, named, content) =>
      ws.frozen || place.Outside? || named == place.ModelsFile? || ws.current == Some(content)
    case Mutate(_) => true
    case Test(mode, a, b, _) =>
      || mode.OtherMode? || ws.frozen || ws.current.None? || ws.current == Some(TestBase(ws))
      || !(a.AtBase? || (a.Passed? && UsesLog(ws, mode) && b.currentLoads))
  }

  lemma SyncKeptExactlyWhen(py: Python, ws: Workspace, op: Op)
    requires InSync(ws)
    ensures InSync(Step(py, ws, op).ws) <==> KeepsSync(ws, op)
  {
    hide MutateText;
  }

  predicate AllKeepSync(py: Python, ws: Workspace, ops: seq<Op>)
    decreases |ops|
  {
    ops == [] || (KeepsSync(ws, ops[0]) && AllKeepSync(py, Step(py, ws, ops[0]).ws, ops[1..]))
  }

  /** Over a run the file holds the current source after every call exactly when every call
      is one of those. */
  lemma {:induction false} SyncedThroughoutExactlyWhen(py: Python, ws: Workspace, ops: seq<Op>)
    requires InSync(ws)
    ensures (forall k | 0 <= k <= |ops| :: InSync(Run(py, ws, ops[..k]))) <==> AllKeepSync(py, ws, ops)
    decreases |ops|
  {
    if ops != [] {
      hide Step, KeepsSync;
      var next := Step(py, ws, ops[0]).ws;
      SyncKeptExactlyWhen(py, ws, ops[0]);
      forall k | 0 < k <= |ops| ensures Run(py, ws, ops[..k]) == Run(py, next, ops[1..][..k - 1]) {
        RunPrefix(py, ws, ops, k);
      }
      assert Run(py, next, ops[1..][..0]) == next;
      assert Run(py, ws, ops[..1]) == next;
      if InSync(next) {
        SyncedThroughoutExactlyWhen(py, next, ops[1..]);
        if forall k | 0 <= k <= |ops| :: InSync(Run(py, ws, ops[..k])) {
          forall k | 0 <= k <= |ops| - 1 ensures InSync(Run(py, next, ops[1..][..k])) {
            assert InSync(Run(py, ws, ops[..k + 1]));
          }
        }
        if AllKeepSync(py, ws, ops) {
          forall k | 0 <= k <= |ops| ensures InSync(Run(py, ws, ops[..k])) {
            if k == 0 { assert Run(py, ws, ops[..0]) == ws; }
          }
        }
      } else {
        assert !InSync(Run(py, ws, ops[..1]));
      }
    }
  }

  // ----- current as a replay -----

  /** The last direct write that returned and the mutations accepted since. */
  datatype History = History(written: string, later: seq<Mutation>, writes: nat)

  function Recall(py: Python, h: History, ws: Workspace, op: Op): History {
    if !Step(py, ws, op).returned then h
    else match op
      case Write(_, true, content) => History(content, [], h.writes + 1)
      case Mutate(m) => h.(later := h.later + [m])
      case _ => h
  }

  function RecallAll(py: Python, h: History, ws: Workspace, ops: seq<Op>): History
    decreases |ops|
  {
    if ops == [] then h else RecallAll(py, Recall(py, h, ws, ops[0]), Step(py, ws, ops[0]).ws, ops[1..])
  }

  function ReplayText(py: Python, text: string, log: seq<Mutation>): Option<string> {
    if log == [] then Some(text)
    else match ReplayText(py, text, log[..|log| - 1])
      case None => None
      case Some(before) => MutateText(py, before, log[|log| - 1])
  }

  /** What holds between calls, while disk and current agree. */
  ghost predicate Told(py: Python, h: History, ws: Workspace) {
    && InSync(ws)
    && (ws.base.Some? <==> ws.current.Some?)
    && (h.writes == 0 ==> ws.base == None && ws.log == [] && h.later == [])
    && (h.writes > 0 ==> ws.current == ReplayText(py, h.written, h.later))
    && (h.writes == 1 ==> ws.base == Some(h.written) && ws.log == h.later)
    && |h.later| <= |ws.log| && ws.log[|ws.log| - |h.later|..] == h.later
  }

  lemma ToldByWrite(py: Python, h: History, ws: Workspace, op: Op)
    requires op.Write? && Told(py, h, ws) && KeepsSync(ws, op)
    ensures Told(py, Recall(py, h, ws, op), Step(py, ws, op).ws)
  {
    hide MutateText;
  }

  lemma ReplayOneMore(py: Python, text: string, log: seq<Mutation>, m: Mutation)
    ensures ReplayText(py, text, log + [m])
         == match ReplayText(py, text, log) case None => None case Some(t) => MutateText(py, t, m)
  {
    assert (log + [m])[..|log|] == log;
  }

  lemma ToldByMutation(py: Python, h: History, ws: Workspace, m: Mutation)
    requires Told(py, h, ws) && py.parse("") == Some([])
    ensures Told(py, Recall(py, h, ws, Mutate(m)), Step(py, ws, Mutate(m)).ws)
  {
    hide MutateText, ReplayText;
    ReplayOneMore(py, h.written, h.later, m);
    if ws.disk.None? { NothingToMutate(py, m); }
    if Step(py, ws, Mutate(m)).returned {
      var after := ws.log + [m];
      assert after[|after| - |h.later + [m]|..] == ws.log[|ws.log| - |h.later|..] + [m];
    }
  }

  lemma NothingToMutate(py: Python, m: Mutation)
    requires py.parse("") == Some([])
    ensures MutateText(py, "", m) == None
  {
  }

  /** The current source is, after every run whose calls keep the file in step, the last
      direct write with the mutations accepted since replayed on it; and if there was one
      direct write, it is the base source with the whole log replayed. */
  lemma {:induction false} CurrentIsReplay(py: Python, h: History, ws: Workspace, ops: seq<Op>)
    requires Told(py, h, ws) && AllKeepSync(py, ws, ops) && py.parse("") == Some([])
    ensures Told(py, RecallAll(py, h, ws, ops), Run(py, ws, ops))
    decreases |ops|
  {
    if ops != [] {
      hide MutateText, ReplayText, Told, Step, Recall, KeepsSync;
      var op := ops[0];
      match op {
        case Write(_, _, _) => ToldByWrite(py, h, ws, op);
        case Mutate(m) => ToldByMutation(py, h, ws, m);
        case Test(_, _, _, _) => ToldByTest(py, h, ws, op);
      }
      CurrentIsReplay(py, Recall(py, h, ws, op), Step(py, ws, op).ws, ops[1..]);
    }
  }

  lemma TestKeeps(py: Python, ws: Workspace, op: Op)
    requires op.Test?
    ensures var after := Step(py, ws, op).ws;
            after.base == ws.base && after.current == ws.current && after.log == ws.log
  {
  }

  lemma ToldByTest(py: Python, h: History, ws: Workspace, op: Op)
    requires op.Test? && Told(py, h, ws) && KeepsSync(ws, op)
    ensures Told(py, Recall(py, h, ws, op), Step(py, ws, op).ws)
  {
    hide Step, ReplayText, KeepsSync;
    TestKeeps(py, ws, op);
    SyncKeptExactlyWhen(py, ws, op);
  }

  lemma FreshIsTold(py: Python)
    ensures Told(py, History("", [], 0), FRESH)
  {
  }

  // ----- the two reference modes in a session -----

  lemma {:induction false} ReplayTextParses(py: Python, text: string, log: seq<Mutation>)
    requires Faithful(py) && py.parse(text).Some? && ReplayText(py, text, log).Some?
    ensures py.parse(ReplayText(py, text, log).value).Some?
    ensures Replay(py.parse(text).value, log) == Done(py.parse(ReplayText(py, text, log).value).value)
  {
    if log != [] {
      hide Apply;
      ReplayTextParses(py, text, log[..|log| - 1]);
    }
  }

  /** In a session with one direct write, whose calls keep the file in step, the two
      reference modes of the next test agree exactly when `ReferenceModes.ModesAgree` says so
      of the base source and the log: nothing else of the session matters. */
  lemma ModesAgreeInSession(py: Python, ops: seq<Op>, w: World, start: Tables)
    requires Faithful(py) && py.parse("") == Some([])
    requires AllKeepSync(py, FRESH, ops)
    requires RecallAll(py, History("", [], 0), FRESH, ops).writes == 1
    requires py.parse(RecallAll(py, History("", [], 0), FRESH, ops).written).Some?
    ensures var ws := Run(py, FRESH, ops);
            ws.base.Some? && ws.current.Some? && py.parse(ws.base.value).Some? && py.parse(ws.current.value).Some? &&
            var base, current := py.parse(ws.base.value).value, py.parse(ws.current.value).value;
            && Replay(base, ws.log) == Done(current)
            && (LogCounts(ws.log) ==> WellLogged(Models(base), ws.log))
            && (Agree(IncrementalRun(w, start, base, current, ws.log), NuclearRun(w, start, current))
                <==> AgreeCondition(w, start, base, current, ws.log))
  {
    hide Run, RecallAll, AllKeepSync, ReplayText, Models, Loads, IncrementalRun, NuclearRun, Agree, AgreeCondition,
      WellLogged, AllAdds;
    FreshIsTold(py);
    CurrentIsReplay(py, History("", [], 0), FRESH, ops);
    var ws := Run(py, FRESH, ops);
    ReplayTextParses(py, ws.base.value, ws.log);
    ModesAgree(w, start, py.parse(ws.base.value).value, py.parse(ws.current.value).value, ws.log);
  }

  /** What a test leaves on disk, for every way it can end: nothing new when it does not
      start or stops before writing, then the base or the current source, and once Track A
      has passed what the reference run leaves. */
  lemma TestLeavesTheRunsDisk(py: Python, ws: Workspace, op: Op, w: World, start: Tables)
    requires Faithful(py) && op.Test? && ws.current.Some?
    requires py.parse(ws.current.value).Some? && py.parse(TestBase(ws)).Some?
    requires op.b.currentLoads == Loads(w, py.parse(ws.current.value).value)
    ensures var base, current := py.parse(TestBase(ws)).value, py.parse(ws.current.value).value;
            var run := if op.mode.Incremental? then IncrementalRun(w, start, base, current, ws.log)
              else NuclearRun(w, start, current);
            var disk := Step(py, ws, op).ws.disk;
            if op.mode.OtherMode? || ws.frozen || op.a.AtInit? then disk == ws.disk
            else disk.Some? && py.parse(disk.value) == Some(
              match op.a case AtBase => base case Passed => run.disk case _ => current)
  {
    hide Loads, Models, Altered, MetaData, Recreated, Frame;
  }

  // ----- mutations lost after an incremental test -----

  lemma SameColumns(body: seq<Item>, k: nat, item: Item, name: string)
    requires k < |body| && (IsColumnNamed(item, name) <==> IsColumnNamed(body[k], name))
    ensures Position(body[k := item], name).Some? <==> Position(body, name).Some?
  {
    hide IsColumnNamed, Position;
    assert forall i | 0 <= i < |body| :: IsColumnNamed(body[k := item][i], name) <==> IsColumnNamed(body[i], name);
  }

  lemma OneMoreColumn(body: seq<Item>, item: Item, name: string)
    ensures Position(body + [item], name).Some? <==> Position(body, name).Some? || IsColumnNamed(item, name)
  {
    hide IsColumnNamed;
    assert (body + [item])[..|body|] == body;
  }

  lemma OneColumnFewer(body: seq<Item>, k: nat, name: string)
    requires k < |body| && !IsColumnNamed(body[k], name) && Position(body, name).Some?
    ensures Position(WithoutIndex(body, k), name).Some?
  {
    var i := Position(body, name).value;
    hide IsColumnNamed, Position;
    assert i != k && WithoutIndex(body, k)[if i < k then i else i - 1] == body[i];
  }

  lemma FewerColumns(body: seq<Item>, k: nat, name: string)
    requires k < |body| && Position(body, name).None?
    ensures Position(WithoutIndex(body, k), name).None?
  {
    hide IsColumnNamed, Position;
    var after := WithoutIndex(body, k);
    assert forall i | 0 <= i < |after| :: after[i] == body[if i < k then i else i + 1];
  }

  lemma EditColumns(body: seq<Item>, m: Mutation, name: string)
    requires EditBody(body, m).Done?
    ensures Position(body, name).Some? && !(m.DropColumn? && m.column == name)
        ==> Position(EditBody(body, m).value.body, name).Some?
    ensures Position(body, name).None? && !(m.AddColumn? && m.column == name)
        ==> Position(EditBody(body, m).value.body, name).None?
  {
    hide SetKeyword, Others, IndexCall, TypeRoot, NewColumn, Position, ArgsIndex;
    var after := EditBody(body, m).value.body;
    if m.AddIndex? {
      var k := ArgsIndex(body);
      if k == |body| { OneMoreColumn(body, after[k], name); } else { SameColumns(body, k, after[k], name); }
    } else if m.AddColumn? {
      NewColumnIsColumn(m);
      OneMoreColumn(body, NewColumn(m), name);
    } else {
      var k := Position(body, m.column).value;
      if !m.DropColumn? {
        SameColumns(body, k, after[k], name);
      } else {
        if Position(body, name).None? { FewerColumns(body, k, name); }
        if m.column != name && Position(body, name).Some? { OneColumnFewer(body, k, name); }
      }
    }
  }

  predicate HasColumn(models: seq<Model>, table: string, name: string) {
    FirstModel(models, table) < |models| && name in Keys(models[FirstModel(models, table)].table.columns)
  }

  /** A mutation gives or takes no column but the one it names, in the class it names. */
  lemma ApplyColumns(src: Source, m: Mutation, table: string, name: string)
    requires Apply(src, m).Done?
    ensures var models, after := Models(src), Models(Apply(src, m).value);
            var same := FirstModel(models, table) == FirstModel(models, m.table);
            && (HasColumn(models, table, name) && !(m.DropColumn? && m.column == name && same)
              ==> HasColumn(after, table, name))
            && (!HasColumn(models, table, name) && !(m.AddColumn? && m.column == name && same)
              ==> !HasColumn(after, table, name))
            && (same && m.AddColumn? && m.column == name ==> !HasColumn(models, table, name))
            && (same && m.DropColumn? && m.column == name ==> HasColumn(models, table, name))
  {
    hide Apply, Models, WithImports, TableOf, TableNames, Keys, EditBody, FirstModel, Position;
    ApplyShape(src, m);
    var k := ModelIndex(src, m.table);
    ModelIsClass(src[k], m.table);
    var edit := EditBody(src[k].body, m).value;
    ModelFound(src, m.table);
    ClassReplaced(src, k, edit.body, edit.imports);
    EditKeepsTableNames(src[k].body, m);
    var models := Models(src);
    var j := FirstModel(models, m.table);
    SameFirst(models[j := ModelOf(src[k].(body := edit.body))], models);
    ColumnKnown(src[k].body, name);
    ColumnKnown(edit.body, name);
    EditColumns(src[k].body, m, name);
    EditNeeds(src[k].body, m);
  }

  lemma EditNeeds(body: seq<Item>, m: Mutation)
    requires EditBody(body, m).Done?
    ensures m.AddColumn? ==> Position(body, m.column).None?
    ensures m.DropColumn? ==> Position(body, m.column).Some?
  {
  }

  /** A log of additions and then a mutation never gives what the mutation alone gives. */
  lemma LogMatters(base: Source, log: seq<Mutation>, m: Mutation)
    requires LogCounts(log) && Replay(base, log).Done? && Apply(base, m).Done?
    ensures Replay(base, log + [m]) != Done(Apply(base, m).value)
  {
    hide Models, Apply, HasColumn, AllAdds, Replay, Keys;
    assert (log + [m])[..|log|] == log;
    var current := Replay(base, log).value;
    ReplayOne(base, log, m);
    FirstAdded(base, log);
    var t, c := log[0].table, log[0].column;
    ApplyColumns(base, m, t, c);
    if Apply(current, m).Done? {
      ApplyColumns(current, m, t, c);
    }
  }

  lemma ReplayOne(base: Source, log: seq<Mutation>, m: Mutation)
    requires Replay(base, log).Done?
    ensures Replay(base, log + [m]) == Apply(Replay(base, log).value, m)
  {
    hide Apply;
    assert (log + [m])[..|log|] == log;
  }

  /** The first addition of a log: absent from the base, there in the end; and the classes
      of the tables are where they were. */
  lemma FirstAdded(base: Source, log: seq<Mutation>)
    requires LogCounts(log) && Replay(base, log).Done?
    ensures log[0].AddColumn?
    ensures !HasColumn(Models(base), log[0].table, log[0].column)
    ensures HasColumn(Models(Replay(base, log).value), log[0].table, log[0].column)
    ensures forall t :: FirstModel(Models(Replay(base, log).value), t) == FirstModel(Models(base), t)
  {
    assert log[0].AddColumn?;
    var models, after := Models(base), Models(Replay(base, log).value);
    AddsReplay(base, log);
    hide Models, Keys, Replay, ReplayModels, Added, NewDef, AllAdds, FirstModel, WellTyped, WellLogged, GrownAll;
    Entries(models, log);
    LoggedWell(models, log);
    AddIsNew(models, log, 0);
    AddsGrow(models, log);
    var k, x := FirstModel(models, log[0].table), (log[0].column, NewDef(log[0]));
    AddedHas(models, log, 0);
    EntryKey(Added(models, log, k), x);
    GrownLength(models, after, log);
    GrownAt(models, after, log, k);
    KeysConcat(models[k].table.columns, Added(models, log, k));
  }

  lemma GrownLength(models: seq<Model>, after: seq<Model>, log: seq<Mutation>)
    requires GrownAll(models, after, log)
    ensures |after| == |models|
  {
  }

  /** An incremental test that reaches its reference leaves the base source on disk, so the
      next mutation edits that. The logged mutations stay in the log and drop out of the
      current source, which is no longer the base with the log replayed. */
  lemma MutationAfterIncrementalTest(py: Python, ws: Workspace, test: Op, m: Mutation)
    requires Faithful(py) && test.Test? && test.mode.Incremental? && test.a.Passed? && test.b.currentLoads
    requires !ws.frozen && ws.current.Some? && ws.base.Some? && ws.base.value != ""
    requires UsesLog(ws, Incremental) && ws.current == ReplayText(py, ws.base.value, ws.log)
    requires py.parse(ws.base.value).Some?
    requires !Step(py, ws, test).ws.frozen && Step(py, Step(py, ws, test).ws, Mutate(m)).returned
    ensures var after := Run(py, ws, [test, Mutate(m)]);
            && after.current == MutateText(py, ws.base.value, m)
            && after.log == ws.log + [m]
            && after.current != ReplayText(py, ws.base.value, after.log)
  {
    var tested := Step(py, ws, test).ws;
    TwoCalls(py, ws, test, Mutate(m));
    RejectedChangesNothing(py, tested, Mutate(m));
    assert tested.disk == ws.base && tested.log == ws.log;
    var base := py.parse(ws.base.value).value;
    hide Step, Run, Apply, Replay, ReplayText, AllAdds;
    ReplayTextParses(py, ws.base.value, ws.log);
    LogMatters(base, ws.log, m);
    if ReplayText(py, ws.base.value, ws.log + [m]).Some? {
      ReplayTextParses(py, ws.base.value, ws.log + [m]);
    }
  }

  lemma TwoCalls(py: Python, ws: Workspace, x: Op, y: Op)
    ensures Run(py, ws, [x, y]) == Step(py, Step(py, ws, x).ws, y).ws
  {
    hide Step;
    assert [x, y][1..] == [y] && [y][1..] == [];
    assert Run(py, ws, [x, y]) == Run(py, Step(py, ws, x).ws, [y]);
    assert Run(py, Step(py, ws, x).ws, [y]) == Run(py, Step(py, Step(py, ws, x).ws, y).ws, []);
  }

  /** The base of the example below, and its four calls. */
  function StartOf(py: Python): string {
    py.render(TableT([]))
  }

  function LosingCalls(py: Python): seq<Op> {
    [Write(ModelsFile, true, StartOf(py)), Mutate(ADD_X), Test(Incremental, Passed, TrackBEnd(true, true, true), Same),
     Mutate(ADD_Y)]
  }

  lemma TwoAccepted(py: Python)
    requires Faithful(py) && py.parse("") == Some([])
    ensures MutateText(py, StartOf(py), ADD_X).Some?
    ensures Apply(TableT([]), ADD_Y).Done?
    ensures MutateText(py, StartOf(py), ADD_Y) == Some(py.render(Apply(TableT([]), ADD_Y).value))
    ensures StartOf(py) != "" && py.parse(StartOf(py)) == Some(TableT([]))
  {
    hide Apply, NewColumn, TableT;
    BothAdds();
    TableIsThere();
    assert py.parse(py.render(TableT([]))) == Some(TableT([]));
  }

  /** The four calls one by one, where `b` is the base and `x` and `y` what the mutations
      make of it. */
  lemma LosingSteps(py: Python, b: string, x: string, y: string)
    requires b != "" && MutateText(py, b, ADD_X) == Some(x) && MutateText(py, b, ADD_Y) == Some(y)
    ensures Step(py, FRESH, Write(ModelsFile, true, b)) == Called(Workspace(Some(b), Some(b), false, [], Some(b)), true)
    ensures Step(py, Workspace(Some(b), Some(b), false, [], Some(b)), Mutate(ADD_X))
         == Called(Workspace(Some(b), Some(x), false, [ADD_X], Some(x)), true)
    ensures Step(py, Workspace(Some(b), Some(x), false, [ADD_X], Some(x)),
                 Test(Incremental, Passed, TrackBEnd(true, true, true), Same))
         == Called(Workspace(Some(b), Some(x), false, [ADD_X], Some(b)), true)
    ensures Step(py, Workspace(Some(b), Some(x), false, [ADD_X], Some(b)), Mutate(ADD_Y))
         == Called(Workspace(Some(b), Some(y), false, [ADD_X, ADD_Y], Some(y)), true)
  {
    hide MutateText;
    assert AllAdds([ADD_X]);
    assert [] + [ADD_X] == [ADD_X] && [ADD_X] + [ADD_Y] == [ADD_X, ADD_Y];
  }

  /** A session that loses a mutation, from a fresh workspace: write a table `t`, add `x`,
      run an incremental test that passes, add `y`. Every call returns, and `x` is gone. */
  lemma LossFromFresh(py: Python)
    requires Faithful(py) && py.parse("") == Some([])
    ensures var after := Run(py, FRESH, LosingCalls(py));
            && Effective(py, FRESH, LosingCalls(py)) == LosingCalls(py)
            && after.base == Some(StartOf(py)) && after.log == [ADD_X, ADD_Y]
            && Apply(TableT([]), ADD_Y).Done? && after.current == Some(py.render(Apply(TableT([]), ADD_Y).value))
            && after.current != ReplayText(py, StartOf(py), after.log)
  {
    TwoAccepted(py);
    hide Apply, TableT, MutateText, StartOf, Faithful, ReplayText, Run, Effective, Step, AllAdds;
    var ops, b := LosingCalls(py), StartOf(py);
    var x := MutateText(py, b, ADD_X).value;
    LosingSteps(py, b, x, MutateText(py, b, ADD_Y).value);
    OneReplayed(py, b, ADD_X);
    FourCalls(py, FRESH, ops[0], ops[1], ops[2], ops[3]);
    var ws := Workspace(Some(b), Some(x), false, [ADD_X], Some(x));
    TwoCalls(py, ws, ops[2], ops[3]);
    assert AllAdds([ADD_X]) by { JustOne(ADD_X); }
    MutationAfterIncrementalTest(py, ws, ops[2], ADD_Y);
  }

  lemma TableIsThere()
    ensures TableT([]) != []
  {
  }

  lemma OneReplayed(py: Python, text: string, m: Mutation)
    ensures ReplayText(py, text, [m]) == MutateText(py, text, m)
  {
    hide MutateText;
    assert [m][..0] == [];
  }

  lemma BothAdds()
    ensures Apply(TableT([]), ADD_X).Done? && Apply(TableT([]), ADD_Y).Done?
  {
    hide Apply, NewColumn, TableOf, TableNames, IsIdentifier, Read;
    TableOfNamed();
    Identifiers();
    assert [NAMED] + [] == [NAMED];
    NamedDeclaresNone();
    AddsToT([], "x");
    AddsToT([], "y");
    ReplayOne(TableT([]), [], ADD_X);
    ReplayOne(TableT([]), [], ADD_Y);
    assert [] + [ADD_X] == [ADD_X] && [] + [ADD_Y] == [ADD_Y];
  }

  lemma NamedDeclaresNone()
    ensures forall name :: Position([NAMED], name).None?
  {
  }

  lemma FourCalls(py: Python, ws: Workspace, a: Op, b: Op, c: Op, d: Op)
    ensures var s1 := Step(py, ws, a);
            var s2 := Step(py, s1.ws, b);
            var s3 := Step(py, s2.ws, c);
            var s4 := Step(py, s3.ws, d);
            && Run(py, ws, [a, b, c, d]) == s4.ws
            && (s1.returned && s2.returned && s3.returned && s4.returned
              ==> Effective(py, ws, [a, b, c, d]) == [a, b, c, d])
  {
    hide Step;
    var s1 := Step(py, ws, a);
    var s2 := Step(py, s1.ws, b);
    var s3 := Step(py, s2.ws, c);
    var s4 := Step(py, s3.ws, d);
    assert [a, b, c, d][1..] == [b, c, d] && [b, c, d][1..] == [c, d] && [c, d][1..] == [d] && [d][1..] == [];
    assert Run(py, s3.ws, [d]) == Run(py, s4.ws, []) == s4.ws;
    assert Run(py, s2.ws, [c, d]) == s4.ws;
    assert Run(py, s1.ws, [b, c, d]) == s4.ws;
    if s1.returned && s2.returned && s3.returned && s4.returned {
      assert Effective(py, s3.ws, [d]) == [d] + Effective(py, s4.ws, []) == [d];
      assert Effective(py, s2.ws, [c, d]) == [c] + [d];
      assert Effective(py, s1.ws, [b, c, d]) == [b] + [c, d];
      assert Effective(py, ws, [a, b, c, d]) == [a] + [b, c, d];
    }
  }

  // ----- the next incremental test -----

  lemma AlteredTwice(w: World, created: Tables, meta: Tables, log: seq<Mutation>, m: Mutation, i: nat)
    requires AllAdds(log) && m.AddColumn? && i < |log| && log[i].table == m.table && log[i].column == m.column
    ensures !Altered(w, created, meta, log + [m]).done
  {
    hide Keys, AddColumnTo;
    AlteredStep(w, created, meta, log + [m], |log|);
    assert (log + [m])[..|log|] == log && (log + [m])[..|log| + 1] == log + [m];
    var before := Altered(w, created, meta, log);
    if before.done && AddColumnTo(w, created, before.db, meta, m.table, m.column).Some? {
      AlteredNeeds(w, created, meta, log, i);
      AddNeeds(w, created, before.db, meta, m);
    }
  }

  /** Once mutations are lost this way, no incremental test after another `add_column` comes
      to the dump: if the sources load and have a base, the loop over the log stops, because
      it asks for columns the current source lacks, or for one column twice. */
  lemma IncrementalFailsAfterLoss(w: World, start: Tables, base: Source, log: seq<Mutation>, m: Mutation)
    requires LogCounts(log) && Replay(base, log).Done? && m.AddColumn? && Apply(base, m).Done?
    ensures var outcome := IncrementalRun(w, start, base, Apply(base, m).value, log + [m]).outcome;
            && outcome == (if !Loads(w, base) || !Loads(w, Apply(base, m).value) then Raised
                           else if !HasBase(w, base) then Failed(ReferenceLoad)
                           else Failed(ReferenceDdl))
  {
    var all, current := log + [m], Apply(base, m).value;
    assert AllAdds(all) && AllAdds(log) && log != [];
    hide *;
    NoReplay(base, m);
    ReplayOne(base, [], m);
    JustOne(m);
    AddsReplay(base, [m]);
    SameBase(w, base, current);
    LossStops(w, start, Models(base), log, m);
    FinalIs(Models(base), [m], Models(current));
    StoppedRun(w, start, base, current, all);
  }

  lemma SameBase(w: World, base: Source, current: Source)
    requires Frame(current) == Frame(base)
    ensures HasBase(w, current) == HasBase(w, base)
  {
  }

  lemma FinalIs(models: seq<Model>, log: seq<Mutation>, after: seq<Model>)
    requires ReplayModels(models, log) == Some(after)
    ensures Final(models, log) == after
  {
  }

  lemma StoppedRun(w: World, start: Tables, base: Source, current: Source, log: seq<Mutation>)
    requires AllAdds(log) && log != []
    requires var created := Recreated(start, MetaData(w, Models(base)));
             !Altered(w, created, MetaData(w, Models(current)), log).done
    requires HasBase(w, current) == HasBase(w, base)
    ensures var outcome := IncrementalRun(w, start, base, current, log).outcome;
            && outcome == (if !Loads(w, base) || !Loads(w, current) then Raised
                           else if !HasBase(w, base) then Failed(ReferenceLoad)
                           else Failed(ReferenceDdl))
  {
    hide Models, Loads, Frame, MetaData, Recreated, Altered, AllAdds;
  }

  lemma NoReplay(base: Source, m: Mutation)
    ensures Replay(base, []) == Done(base) && [] + [m] == [m]
  {
  }

  lemma JustOne(m: Mutation)
    requires m.AddColumn?
    ensures AllAdds([m])
  {
  }

  /** An entry found in the metadata after the one addition `m`, and not created before, is
      that addition. */
  lemma FoundIsNew(w: World, start: Tables, models: seq<Model>, m: Mutation, t: string, c: string)
    requires AllAdds([m]) && ReplayModels(models, [m]).Some?
    requires var created, meta := Recreated(start, MetaData(w, models)), MetaData(w, Final(models, [m]));
             && t in created && c !in Keys(created[t].columns)
             && t in meta && c in Keys(meta[t].columns)
    ensures var k := FirstModel(models, m.table);
            k < |models| && TableKey(w, models, k) == Some(t) && Mangled(models[k].name, m.column) == c
  {
    hide ReplayModels, AllAdds, TableKey, BuiltAt, MetaData, KeyIndex, Final, SameClasses, Keys, FirstModel, Mangled,
      Scanned, WellTyped;
    Entries(models, [m]);
    LoggedWell(models, [m]);
    FinalIsSame(models, [m]);
    SameClassesLength(models, Final(models, [m]));
    SameKeyIndex(w, models, Final(models, [m]), t, 0);
    FinalKeys(w, models, [m]);
    KeyFound(w, models, t);
    KeyFound(w, Final(models, [m]), t);
    var k := KeyIndex(w, models, t, 0);
    assert Recreated(start, MetaData(w, models))[t] == MetaData(w, models)[t];
    ComesFrom(w, models, [m], k, c);
  }

  /** The loop that looks a log up in the metadata of another addition alone. */
  lemma LossStops(w: World, start: Tables, models: seq<Model>, log: seq<Mutation>, m: Mutation)
    requires AllAdds(log) && log != [] && AllAdds(log + [m]) && AllAdds([m])
    requires ReplayModels(models, [m]).Some?
    ensures !Altered(w, Recreated(start, MetaData(w, models)), MetaData(w, Final(models, [m])), log + [m]).done
  {
    assert m.AddColumn? by { assert [m][0] == m; }
    hide ReplayModels, AllAdds, TableKey, MetaData, Final, Altered, Keys, FirstModel, Mangled, Recreated, Get;
    var created, meta, all := Recreated(start, MetaData(w, models)), MetaData(w, Final(models, [m])), log + [m];
    if Altered(w, created, meta, all).done {
      assert all[0] == log[0] && all[|log|] == m;
      AlteredNeeds(w, created, meta, all, 0);
      AlteredNeeds(w, created, meta, all, |log|);
      FoundIsNew(w, start, models, m, log[0].table, log[0].column);
      FoundIsNew(w, start, models, m, m.table, m.column);
      AlteredTwice(w, created, meta, log, m, 0);
    }
  }

  // ----- the server's own form -----

  class LiveWorkspace {
    var base: Option<string>
    var current: Option<string>
    var frozen: bool
    var log: seq<Mutation>
    var disk: Option<string>

    constructor ()
      ensures State() == FRESH
    {
      base, current, frozen, log, disk := None, None, false, [], None;
    }

    function State(): Workspace
      reads this
    {
      Workspace(base, current, frozen, log, disk)
    }

    method WriteModelFile(place: Place, named: bool, content: string) returns (returned: bool)
      modifies this
      ensures Called(State(), returned) == AfterWrite(old(State()), place, named, content)
    {
      if frozen || place.Outside? {
        return false;
      }
      if place.ModelsFile? {
        disk := Some(content);
      }
      if named {
        if base.None? {
          base := Some(content);
        }
        current := Some(content);
      }
      returned := true;
    }

    method ApplyTo(py: Python, m: Mutation) returns (returned: bool)
      modifies this
      ensures Called(State(), returned) == AfterMutate(py, old(State()), m)
    {
      if frozen {
        return false;
      }
      var source := "";
      if disk.Some? {
        source := disk.value;
      }
      var tree := py.parse(source);
      if tree.None? {
        return false;
      }
      var mutated := ApplyMutation(tree.value, m);
      if mutated.Rejected? {
        return false;
      }
      returned := WriteModelFile(ModelsFile, true, py.render(mutated.value));
      log := log + [m];
    }

    method RunTwoTrackTest(mode: Mode, a: TrackAEnd, b: TrackBEnd, end: ComparisonEnd) returns (returned: bool)
      modifies this
      ensures Called(State(), returned) == AfterTest(old(State()), mode, a, b, end)
    {
      if mode.OtherMode? || frozen || current.None? {
        return false;
      }
      var before := current.value;
      if base.Some? && base.value != "" {
        before := base.value;
      }
      match a {
        case AtInit =>
        case AtBase => disk := Some(before);
        case _ =>
          disk := Some(before);
          disk := current;
      }
      if !a.Passed? {
        return true;
      }
      disk := current;
      if !b.currentLoads {
        return false;
      }
      if UsesLog(State(), mode) {
        disk := Some(before);
        if !b.baseLoads {
          return false;
        }
      }
      if !b.success {
        return true;
      }
      match end {
        case CompareRaises =>
          return false;
        case Same =>
          return true;
        case Differ(bundled) =>
          frozen := true;
          return bundled;
      }
    }
  }
}
