/** The pool under concurrency (mcp_server/pool.py, mcp_server/workspace.py and the
    clean-up of mcp_server/server.py): one refill thread interleaved, at the grain of the
    lock sections and of the calls made outside them, with one thread that runs the tools
    one after another. Whether a Docker call succeeds is chosen by the action. */
module PoolProtocol {
  import opened Ordering
  import opened Pool

  datatype Refill =
    | Sleeping
    | Reading(b: nat)                            // about to read the length of queue b
    | Owing(b: nat, left: nat)                   // `left` more to start for queue b
    | Adding(b: nat, left: nat, p: Provider)     // p started, not appended yet

  datatype ClaimPhase = Taking | Starting | Resetting(p: Provider) | Publishing
  datatype ReleasePhase = Looking | Deciding | Clearing | Appending

  datatype Tool =
    | Ready
    | Claiming(id: string, b: nat, version: string, held: seq<Provider>, claim: ClaimPhase)
    | Releasing(b: nat, p: Provider, rest: seq<Provider>, release: ReleasePhase)

  /** A registered workspace; a SQLite one holds no pooled provider. */
  datatype Workspace = Workspace(id: string, b: nat, held: seq<Provider>)

  datatype Cleanup = NotCleaning | Destroying | Draining

  /** How a start() ends: the container is up and answers, none was made, or it runs and the
      wait for the database gives up. */
  datatype StartEnd = Up | NoContainer | NotReady

  /** `created` lists every provider ever constructed and started, in order; `halted` those
      whose stop() was called, `abandoned` those whose start() raised before there was a
      container, `orphaned` those a raised exception dropped while they were running. `dirty` holds the providers a
      workspace has used since their last reset(). */
  datatype State = State(
    queues: seq<seq<Provider>>, stopped: bool, refill: Refill, tool: Tool,
    workspaces: seq<Workspace>, cleanup: Cleanup, created: seq<Provider>,
    halted: seq<Provider>, abandoned: seq<Provider>, orphaned: seq<Provider>,
    dirty: set<Provider>)

  datatype Action =
    | RefillWake | RefillRead | RefillStart(end: StartEnd) | RefillAppend
    | InitializeSqlite(id: string) | Initialize(id: string, b: nat, version: string)
    | ClaimTake | ClaimStart(end: StartEnd) | ClaimReset(ok: bool) | Publish(ok: bool)
    | Destroy(id: string) | Lookup(ok: bool) | Decide | ReleaseReset(ok: bool) | ReleaseAppend
    | BeginCleanup | CleanupDestroy | SetStopped | DrainQueues

  function Initial(cfg: Config): State {
    State(seq(|cfg.pools|, i => []), false, Sleeping, Ready, [], NotCleaning, [], [], [], [], {})
  }

  // ----- the steps -----

  function Reach(cfg: Config, b: nat): Refill {
    if b < |cfg.pools| then Reading(b) else Sleeping
  }

  function AfterOwed(cfg: Config, b: nat, left: nat): Refill {
    if left == 0 then Reach(cfg, b + 1) else Owing(b, left)
  }

  function Shortfall(cfg: Config, s: State, b: nat): nat
    requires b < |cfg.pools| && b < |s.queues|
  {
    var missing := cfg.pools[b].target - |s.queues[b]|;
    if missing < 0 then 0 else missing
  }

  function Fresh(cfg: Config, s: State, b: nat, version: string): Provider
    requires b < |cfg.pools|
  {
    Provider(b, Image(cfg.pools[b], version), |s.created|)
  }

  function IndexOf(workspaces: seq<Workspace>, id: string): (k: nat)
    ensures k <= |workspaces|
    ensures k < |workspaces| ==> workspaces[k].id == id
    ensures k == |workspaces| <==> forall w :: w in workspaces ==> w.id != id
  {
    if workspaces == [] || workspaces[0].id == id then 0 else 1 + IndexOf(workspaces[1..], id)
  }

  function StartRelease(b: nat, held: seq<Provider>): Tool {
    if held == [] then Ready else Releasing(b, held[0], held[1..], Looking)
  }

  /** `WORKSPACES.destroy`: pop first, then release what was held. */
  function Popped(s: State, k: nat): State
    requires k < |s.workspaces|
  {
    s.(workspaces := WithoutIndex(s.workspaces, k),
       tool := StartRelease(s.workspaces[k].b, s.workspaces[k].held))
  }

  function RefillStep(cfg: Config, s: State, a: Action): Option<State>
    requires |s.queues| == |cfg.pools|
  {
    match (a, s.refill)
    case (RefillWake, Sleeping) =>
      if s.stopped then None else Some(s.(refill := Reach(cfg, 0)))
    case (RefillRead, Reading(b)) =>
      if b < |cfg.pools| then Some(s.(refill := AfterOwed(cfg, b, Shortfall(cfg, s, b)))) else None
    case (RefillStart(end), Owing(b, left)) =>
      if b < |cfg.pools| then
        var p := Fresh(cfg, s, b, cfg.pools[b].version);
        var s' := s.(created := s.created + [p]);
        Some(match end
             case Up => s'.(refill := Adding(b, left, p))
             case NoContainer => s'.(refill := Reach(cfg, b + 1), abandoned := s.abandoned + [p])
             case NotReady => s'.(refill := Reach(cfg, b + 1), orphaned := s.orphaned + [p]))
      else None
    case (RefillAppend, Adding(b, left, p)) =>
      if b < |cfg.pools| && left > 0 then
        Some(s.(queues := s.queues[b := s.queues[b] + [p]], refill := AfterOwed(cfg, b, left - 1)))
      else None
    case _ => None
  }

  /** An exception leaves the tool: what it held is nobody's any more. */
  function Raised(s: State, lost: seq<Provider>): State {
    s.(tool := Ready, orphaned := s.orphaned + lost, cleanup := NotCleaning)
  }

  function ClaimStep(cfg: Config, s: State, a: Action): Option<State>
    requires |s.queues| == |cfg.pools|
    requires s.tool.Claiming?
  {
    var t := s.tool;
    if t.b >= |cfg.pools| then None else
    match (a, t.claim)
    case (ClaimTake, Taking) =>
      Some(match Taken(s.queues[t.b], t.version)
           case None => s.(tool := t.(claim := Starting))
           case Some(p) => s.(queues := s.queues[t.b := Left(s.queues[t.b], t.version)],
                              tool := t.(claim := Resetting(p))))
    case (ClaimStart(end), Starting) =>
      var p := Fresh(cfg, s, t.b, t.version);
      var s' := s.(created := s.created + [p]);
      Some(match end
           case Up => s'.(tool := t.(claim := Resetting(p)))
           case NoContainer => Raised(s'.(abandoned := s.abandoned + [p]), t.held)
           case NotReady => Raised(s', [p] + t.held))
    case (ClaimReset(ok), Resetting(p)) =>
      Some(if ok then
             s.(dirty := s.dirty - {p},
                tool := t.(held := t.held + [p], claim := if |t.held| == 0 then Taking else Publishing))
           else Raised(s.(halted := s.halted + [p]), t.held))
    case (Publish(ok), Publishing) =>
      Some(if ok then
             s.(tool := Ready, workspaces := s.workspaces + [Workspace(t.id, t.b, t.held)],
                dirty := s.dirty + set p | p in t.held)
           else Raised(s, t.held))
    case _ => None
  }

  function ReleaseStep(cfg: Config, s: State, a: Action): Option<State>
    requires |s.queues| == |cfg.pools|
    requires s.tool.Releasing?
  {
    var t := s.tool;
    if t.b >= |cfg.pools| then None else
    match (a, t.release)
    case (Lookup(ok), Looking) =>
      Some(if ok then s.(tool := t.(release := Deciding)) else Raised(s, [t.p] + t.rest))
    case (Decide, Deciding) =>
      Some(if s.stopped then s.(halted := s.halted + [t.p], tool := StartRelease(t.b, t.rest))
           else s.(tool := t.(release := Clearing)))
    case (ReleaseReset(ok), Clearing) =>
      Some(if ok then s.(dirty := s.dirty - {t.p}, tool := t.(release := Appending))
           else s.(halted := s.halted + [t.p], tool := StartRelease(t.b, t.rest)))
    case (ReleaseAppend, Appending) =>
      Some(s.(queues := s.queues[t.b := s.queues[t.b] + [t.p]], tool := StartRelease(t.b, t.rest)))
    case _ => None
  }

  function ReadyStep(cfg: Config, s: State, a: Action): Option<State>
    requires |s.queues| == |cfg.pools|
    requires s.tool.Ready?
  {
    match (a, s.cleanup)
    case (InitializeSqlite(id), NotCleaning) =>
      if |s.workspaces| < cfg.maxWorkspaces && IndexOf(s.workspaces, id) == |s.workspaces| then
        Some(s.(workspaces := s.workspaces + [Workspace(id, 0, [])]))
      else None
    case (Initialize(id, b, version), NotCleaning) =>
      if |s.workspaces| < cfg.maxWorkspaces && b < |cfg.pools| && IndexOf(s.workspaces, id) == |s.workspaces| then
        Some(s.(tool := Claiming(id, b, version, [], Taking)))
      else None
    case (Destroy(id), NotCleaning) =>
      var k := IndexOf(s.workspaces, id);
      Some(if k < |s.workspaces| then Popped(s, k) else s)
    case (BeginCleanup, NotCleaning) => Some(s.(cleanup := Destroying))
    case (CleanupDestroy, Destroying) => if s.workspaces == [] then None else Some(Popped(s, 0))
    case (SetStopped, Destroying) =>
      if s.workspaces == [] then Some(s.(stopped := true, cleanup := Draining)) else None
    case (DrainQueues, Draining) =>
      Some(s.(queues := NoneLeft(s.queues), halted := s.halted + Flatten(s.queues), cleanup := NotCleaning))
    case _ => None
  }

  predicate IsRefill(a: Action) {
    a.RefillWake? || a.RefillRead? || a.RefillStart? || a.RefillAppend?
  }

  /** One atomic step; None when the action is not possible in the state. */
  function Step(cfg: Config, s: State, a: Action): (r: Option<State>)
    requires |s.queues| == |cfg.pools|
    ensures r.Some? ==> |r.value.queues| == |cfg.pools|
  {
    if IsRefill(a) then RefillStep(cfg, s, a)
    else match s.tool
      case Ready => ReadyStep(cfg, s, a)
      case Claiming(_, _, _, _, _) => ClaimStep(cfg, s, a)
      case Releasing(_, _, _, _) => ReleaseStep(cfg, s, a)
  }

  /** Perform the actions in order; None if one of them is not possible when its turn comes. */
  function Run(cfg: Config, s: State, actions: seq<Action>): (r: Option<State>)
    requires |s.queues| == |cfg.pools|
    ensures r.Some? ==> |r.value.queues| == |cfg.pools|
    decreases |actions|
  {
    if actions == [] then Some(s)
    else match Step(cfg, s, actions[0])
      case None => None
      case Some(t) => Run(cfg, t, actions[1..])
  }

  /** The positions the refill thread's own steps produce. */
  ghost predicate RefillPlaced(cfg: Config, r: Refill) {
    match r
    case Sleeping => true
    case Reading(b) => b < |cfg.pools|
    case Owing(b, left) => b < |cfg.pools| && 0 < left <= cfg.pools[b].target
    case Adding(b, left, p) => b < |cfg.pools| && 0 < left <= cfg.pools[b].target && p.backend == b
  }

  // ----- ownership: every provider ever created is in exactly one place -----

  function Count(s: seq<Provider>, p: Provider): nat {
    multiset(s)[p]
  }

  function One(q: Provider, p: Provider): nat {
    if q == p then 1 else 0
  }

  function Queued(queues: seq<seq<Provider>>, p: Provider): nat {
    if queues == [] then 0 else Count(queues[0], p) + Queued(queues[1..], p)
  }

  function Registered(workspaces: seq<Workspace>, p: Provider): nat {
    if workspaces == [] then 0 else Count(workspaces[0].held, p) + Registered(workspaces[1..], p)
  }

  function InRefill(r: Refill, p: Provider): nat {
    if r.Adding? then One(r.p, p) else 0
  }

  function InTool(t: Tool, p: Provider): nat {
    match t
    case Ready => 0
    case Claiming(_, _, _, held, claim) => Count(held, p) + (if claim.Resetting? then One(claim.p, p) else 0)
    case Releasing(_, q, rest, _) => One(q, p) + Count(rest, p)
  }

  /** In how many places `p` is, counted with multiplicity. */
  function Places(s: State, p: Provider): nat {
    Queued(s.queues, p) + Registered(s.workspaces, p) + InRefill(s.refill, p) + InTool(s.tool, p)
    + Count(s.halted, p) + Count(s.abandoned, p) + Count(s.orphaned, p)
  }

  lemma CountAppend(s: seq<Provider>, q: Provider, p: Provider)
    ensures Count(s + [q], p) == Count(s, p) + One(q, p)
    ensures Count([q] + s, p) == Count(s, p) + One(q, p)
  {
  }

  lemma CountConcat(a: seq<Provider>, b: seq<Provider>, p: Provider)
    ensures Count(a + b, p) == Count(a, p) + Count(b, p)
  {
  }

  lemma {:induction false} QueuedUpdate(queues: seq<seq<Provider>>, b: nat, q: seq<Provider>, p: Provider)
    requires b < |queues|
    ensures Queued(queues[b := q], p) == Queued(queues, p) - Count(queues[b], p) + Count(q, p)
  {
    if b == 0 {
      assert queues[0 := q][1..] == queues[1..];
    } else {
      QueuedUpdate(queues[1..], b - 1, q, p);
      assert queues[b := q][1..] == queues[1..][b - 1 := q];
    }
  }

  lemma {:induction false} QueuedNone(queues: seq<seq<Provider>>, p: Provider)
    ensures Queued(NoneLeft(queues), p) == 0
    ensures Queued(queues, p) == Count(Flatten(queues), p)
  {
    if queues != [] {
      QueuedNone(queues[1..], p);
      assert NoneLeft(queues)[1..] == NoneLeft(queues[1..]);
      assert NoneLeft(queues)[0] == [];
    }
  }

  lemma {:induction false} RegisteredWithout(workspaces: seq<Workspace>, k: nat, p: Provider)
    requires k < |workspaces|
    ensures Registered(WithoutIndex(workspaces, k), p) + Count(workspaces[k].held, p) == Registered(workspaces, p)
  {
    if k == 0 {
      assert WithoutIndex(workspaces, 0) == workspaces[1..];
    } else {
      RegisteredWithout(workspaces[1..], k - 1, p);
      assert WithoutIndex(workspaces, k) == [workspaces[0]] + WithoutIndex(workspaces[1..], k - 1);
    }
  }

  lemma {:induction false} RegisteredAppend(workspaces: seq<Workspace>, w: Workspace, p: Provider)
    ensures Registered(workspaces + [w], p) == Registered(workspaces, p) + Count(w.held, p)
  {
    if workspaces == [] {
      assert workspaces + [w] == [w];
    } else {
      RegisteredAppend(workspaces[1..], w, p);
      assert (workspaces + [w])[1..] == workspaces[1..] + [w];
    }
  }

  lemma StartReleaseHolds(b: nat, held: seq<Provider>, p: Provider)
    ensures InTool(StartRelease(b, held), p) == Count(held, p)
  {
    if held != [] { assert held == [held[0]] + held[1..]; }
  }

  /** What a step adds to the places of `p`: 1 if it creates `p`, else nothing. */
  ghost predicate Moves(s: State, t: State, p: Provider) {
    Places(t, p) - Places(s, p) == Count(t.created, p) - Count(s.created, p)
  }

  lemma RefillMoves(cfg: Config, s: State, a: Action, p: Provider)
    requires |s.queues| == |cfg.pools| && IsRefill(a) && RefillStep(cfg, s, a).Some?
    ensures Moves(s, RefillStep(cfg, s, a).value, p)
  {
    hide Queued, Registered, InTool, Count;
    match a
    case RefillAppend =>
      AppendMoves(s.queues, s.refill.b, s.refill.p, p);
    case RefillStart(end) =>
      var q := Fresh(cfg, s, s.refill.b, cfg.pools[s.refill.b].version);
      CountAppend(s.created, q, p);
      CountAppend(s.abandoned, q, p);
      CountAppend(s.orphaned, q, p);
    case _ =>
  }

  lemma AppendMoves(queues: seq<seq<Provider>>, b: nat, q: Provider, p: Provider)
    requires b < |queues|
    ensures Queued(queues[b := queues[b] + [q]], p) == Queued(queues, p) + One(q, p)
  {
    QueuedUpdate(queues, b, queues[b] + [q], p);
    CountAppend(queues[b], q, p);
  }

  lemma LeftCounts(queue: seq<Provider>, version: string, p: Provider)
    ensures Count(Left(queue, version), p)
         == Count(queue, p) - match Taken(queue, version) case None => 0 case Some(q) => One(q, p)
  {
    var k := FirstMatch(queue, version);
    if k < |queue| {
      WithoutIndexMultiset(queue, k);
    }
  }

  lemma TakeMoves(cfg: Config, s: State, p: Provider)
    requires |s.queues| == |cfg.pools| && s.tool.Claiming? && ClaimStep(cfg, s, ClaimTake).Some?
    ensures Moves(s, ClaimStep(cfg, s, ClaimTake).value, p)
  {
    var queue, version := s.queues[s.tool.b], s.tool.version;
    QueuedUpdate(s.queues, s.tool.b, Left(queue, version), p);
    LeftCounts(queue, version, p);
  }

  lemma ClaimMoves(cfg: Config, s: State, a: Action, p: Provider)
    requires |s.queues| == |cfg.pools| && s.tool.Claiming? && ClaimStep(cfg, s, a).Some?
    ensures Moves(s, ClaimStep(cfg, s, a).value, p)
  {
    hide Queued, Registered, Count;
    var held := s.tool.held;
    CountConcat(s.orphaned, held, p);
    match a
    case ClaimTake => TakeMoves(cfg, s, p);
    case ClaimStart(end) =>
      var q := Fresh(cfg, s, s.tool.b, s.tool.version);
      CountAppend(s.created, q, p);
      CountAppend(s.abandoned, q, p);
      CountAppend(held, q, p);
      CountConcat(s.orphaned, [q] + held, p);
    case ClaimReset(ok) =>
      CountAppend(s.halted, s.tool.claim.p, p);
      CountAppend(held, s.tool.claim.p, p);
    case Publish(ok) => RegisteredAppend(s.workspaces, Workspace(s.tool.id, s.tool.b, held), p);
    case _ =>
  }

  lemma ReleaseMoves(cfg: Config, s: State, a: Action, p: Provider)
    requires |s.queues| == |cfg.pools| && s.tool.Releasing? && ReleaseStep(cfg, s, a).Some?
    ensures Moves(s, ReleaseStep(cfg, s, a).value, p)
  {
    var q, rest := s.tool.p, s.tool.rest;
    StartReleaseHolds(s.tool.b, rest, p);
    match a
    case Lookup(ok) =>
      CountAppend(rest, q, p);
      CountConcat(s.orphaned, [q] + rest, p);
    case Decide => CountAppend(s.halted, q, p);
    case ReleaseReset(ok) => CountAppend(s.halted, q, p);
    case ReleaseAppend => AppendMoves(s.queues, s.tool.b, q, p);
    case _ =>
  }

  lemma PopMoves(s: State, k: nat, p: Provider)
    requires s.tool.Ready? && k < |s.workspaces|
    ensures Moves(s, Popped(s, k), p)
  {
    RegisteredWithout(s.workspaces, k, p);
    StartReleaseHolds(s.workspaces[k].b, s.workspaces[k].held, p);
  }

  lemma ReadyMoves(cfg: Config, s: State, a: Action, p: Provider)
    requires |s.queues| == |cfg.pools| && s.tool.Ready? && ReadyStep(cfg, s, a).Some?
    ensures Moves(s, ReadyStep(cfg, s, a).value, p)
  {
    match a
    case InitializeSqlite(id) => RegisteredAppend(s.workspaces, Workspace(id, 0, []), p);
    case Destroy(id) =>
      if IndexOf(s.workspaces, id) < |s.workspaces| { PopMoves(s, IndexOf(s.workspaces, id), p); }
    case CleanupDestroy => PopMoves(s, 0, p);
    case DrainQueues =>
      QueuedNone(s.queues, p);
      CountConcat(s.halted, Flatten(s.queues), p);
    case _ =>
  }

  /** Every step of either thread moves providers between places, never copies or drops one. */
  lemma StepMoves(cfg: Config, s: State, a: Action, p: Provider)
    requires |s.queues| == |cfg.pools| && Step(cfg, s, a).Some?
    ensures Moves(s, Step(cfg, s, a).value, p)
  {
    if IsRefill(a) { RefillMoves(cfg, s, a, p); }
    else if s.tool.Ready? { ReadyMoves(cfg, s, a, p); }
    else if s.tool.Claiming? { ClaimMoves(cfg, s, a, p); }
    else { ReleaseMoves(cfg, s, a, p); }
  }

  ghost predicate Numbered(s: State) {
    forall i :: 0 <= i < |s.created| ==> s.created[i].container == i
  }

  lemma StepNumbered(cfg: Config, s: State, a: Action)
    requires |s.queues| == |cfg.pools| && Step(cfg, s, a).Some? && Numbered(s)
    ensures Numbered(Step(cfg, s, a).value)
  {
  }

  lemma {:induction false} RunMoves(cfg: Config, s: State, actions: seq<Action>, p: Provider)
    requires |s.queues| == |cfg.pools| && Numbered(s) && Run(cfg, s, actions).Some?
    ensures Numbered(Run(cfg, s, actions).value) && Moves(s, Run(cfg, s, actions).value, p)
    decreases |actions|
  {
    hide Step;
    if actions != [] {
      var t := Step(cfg, s, actions[0]).value;
      StepMoves(cfg, s, actions[0], p);
      StepNumbered(cfg, s, actions[0]);
      RunMoves(cfg, t, actions[1..], p);
    }
  }

  lemma {:induction false} NumberedOnce(created: seq<Provider>, p: Provider)
    requires forall i :: 0 <= i < |created| ==> created[i].container == i
    ensures Count(created, p) == if p in created then 1 else 0
  {
    if created != [] {
      var n := |created| - 1;
      assert created == created[..n] + [created[n]];
      NumberedOnce(created[..n], p);
      CountAppend(created[..n], created[n], p);
    }
  }

  /** Whatever the interleaving, each provider ever created sits in exactly one place, once:
      one slot of one queue, one registered workspace, one thread in mid-operation, or one
      of the lists of stopped, failed and lost providers. In particular stop() is called at
      most once on each, and no two tracks share a container. */
  lemma ExactlyOnePlace(cfg: Config, actions: seq<Action>, p: Provider)
    requires Run(cfg, Initial(cfg), actions).Some?
    ensures var s := Run(cfg, Initial(cfg), actions).value;
            Places(s, p) == if p in s.created then 1 else 0
  {
    var s0 := Initial(cfg);
    QueuedNone(s0.queues, p);
    assert NoneLeft(s0.queues) == s0.queues;
    RunMoves(cfg, s0, actions, p);
    NumberedOnce(Run(cfg, s0, actions).value.created, p);
  }
}
