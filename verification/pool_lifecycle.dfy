/** What a claim delivers, what an exception loses, and what shutdown leaves behind. */
module PoolLifecycle {
  import opened Ordering
  import opened Pool
  import opened PoolProtocol

  // ----- invariants of every reachable state -----

  ghost predicate Owned(s: State) {
    Numbered(s) && forall p: Provider :: Places(s, p) == Count(s.created, p)
  }

  lemma OwnedOnce(s: State, p: Provider)
    requires Owned(s)
    ensures Places(s, p) <= 1
    ensures Places(s, p) == 1 <==> p in s.created
  {
    NumberedOnce(s.created, p);
  }

  lemma {:induction false} QueuedAtLeast(queues: seq<seq<Provider>>, b: nat, p: Provider)
    requires b < |queues|
    ensures Count(queues[b], p) <= Queued(queues, p)
  {
    if b > 0 { QueuedAtLeast(queues[1..], b - 1, p); }
  }

  lemma QueuedElement(queues: seq<seq<Provider>>, b: nat, p: Provider)
    requires b < |queues| && p in queues[b]
    ensures Queued(queues, p) > 0
  {
    assert multiset(queues[b])[p] > 0;
    QueuedAtLeast(queues, b, p);
  }

  /** The provider is of backend `b` and was asked for as `version`: it reports it, or it
      was started from that very tag. */
  ghost predicate Fits(cfg: Config, p: Provider, b: nat, version: string)
    requires b < |cfg.pools|
  {
    p.backend == b && (Version(p) == version || p.image == Image(cfg.pools[b], version))
  }

  ghost predicate ToolClean(cfg: Config, s: State) {
    match s.tool
    case Ready => true
    case Claiming(_, b, version, held, claim) =>
      && b < |cfg.pools|
      && s.cleanup.NotCleaning?
      && (claim.Publishing? ==> |held| == 2)
      && (!claim.Publishing? ==> |held| < 2)
      && (forall p :: p in held ==> p !in s.dirty && Fits(cfg, p, b, version))
      && (claim.Resetting? ==> Fits(cfg, claim.p, b, version))
    case Releasing(b, p, rest, release) =>
      && p.backend == b
      && (forall q :: q in rest ==> q.backend == b)
      && (release.Appending? ==> p !in s.dirty)
  }

  ghost predicate Clean(cfg: Config, s: State) {
    && |s.queues| == |cfg.pools|
    && Owned(s)
    && RefillPlaced(cfg, s.refill)
    && (forall p :: p in s.dirty ==> p in s.created)
    && (forall b, p :: 0 <= b < |s.queues| && p in s.queues[b] ==> p.backend == b && p !in s.dirty)
    && (s.refill.Adding? ==> s.refill.p.backend == s.refill.b && s.refill.p !in s.dirty)
    && (forall w, p :: w in s.workspaces && p in w.held ==> p.backend == w.b)
    && ToolClean(cfg, s)
    && (s.cleanup.Draining? ==> s.tool.Ready? && s.stopped && s.workspaces == [])
  }

  lemma StepOwned(cfg: Config, s: State, a: Action)
    requires |s.queues| == |cfg.pools| && Owned(s) && Step(cfg, s, a).Some?
    ensures Owned(Step(cfg, s, a).value)
  {
    StepNumbered(cfg, s, a);
    hide Step;
    var t := Step(cfg, s, a).value;
    forall p: Provider ensures Places(t, p) == Count(t.created, p) {
      StepMoves(cfg, s, a, p);
    }
  }

  lemma RefillStartClean(cfg: Config, s: State, end: StartEnd)
    requires Clean(cfg, s) && RefillStep(cfg, s, RefillStart(end)).Some?
    requires Owned(RefillStep(cfg, s, RefillStart(end)).value)
    ensures Clean(cfg, RefillStep(cfg, s, RefillStart(end)).value)
  {
    assert Fresh(cfg, s, s.refill.b, cfg.pools[s.refill.b].version) !in s.created;
    hide Owned;
    assert ToolClean(cfg, RefillStep(cfg, s, RefillStart(end)).value);
    hide ToolClean;
  }

  lemma RefillClean(cfg: Config, s: State, a: Action)
    requires Clean(cfg, s) && IsRefill(a) && RefillStep(cfg, s, a).Some? && Owned(RefillStep(cfg, s, a).value)
    ensures Clean(cfg, RefillStep(cfg, s, a).value)
  {
    if a.RefillStart? {
      RefillStartClean(cfg, s, a.end);
    } else {
      hide Owned;
      assert ToolClean(cfg, RefillStep(cfg, s, a).value);
      hide ToolClean;
    }
  }

  lemma PublishClean(cfg: Config, s: State)
    requires Clean(cfg, s) && s.tool.Claiming? && ClaimStep(cfg, s, Publish(true)).Some?
    requires Owned(ClaimStep(cfg, s, Publish(true)).value)
    ensures Clean(cfg, ClaimStep(cfg, s, Publish(true)).value)
  {
    var held := s.tool.held;
    PublishedAreApart(s);
    hide Owned;
  }

  lemma PublishedAreApart(s: State)
    requires Owned(s) && s.tool.Claiming?
    ensures forall p :: p in s.tool.held ==>
              && p in s.created
              && (forall b :: 0 <= b < |s.queues| ==> p !in s.queues[b])
              && (s.refill.Adding? ==> s.refill.p != p)
  {
    var held := s.tool.held;
    forall p | p in held
      ensures p in s.created
      ensures forall b :: 0 <= b < |s.queues| ==> p !in s.queues[b]
      ensures s.refill.Adding? ==> s.refill.p != p
    {
      assert multiset(held)[p] > 0;
      OwnedOnce(s, p);
      forall b | 0 <= b < |s.queues| ensures p !in s.queues[b] {
        if p in s.queues[b] { QueuedElement(s.queues, b, p); }
      }
    }
  }

  lemma TakeClean(cfg: Config, s: State)
    requires Clean(cfg, s) && s.tool.Claiming? && ClaimStep(cfg, s, ClaimTake).Some?
    requires Owned(ClaimStep(cfg, s, ClaimTake).value)
    ensures Clean(cfg, ClaimStep(cfg, s, ClaimTake).value)
  {
    hide Owned, Left, Taken;
    LeftWithin(s.queues[s.tool.b], s.tool.version);
  }

  lemma LeftWithin(queue: seq<Provider>, version: string)
    ensures forall p :: p in Left(queue, version) ==> p in queue
  {
  }

  lemma StartClean(cfg: Config, s: State, end: StartEnd)
    requires Clean(cfg, s) && s.tool.Claiming? && ClaimStep(cfg, s, ClaimStart(end)).Some?
    requires Owned(ClaimStep(cfg, s, ClaimStart(end)).value)
    ensures Clean(cfg, ClaimStep(cfg, s, ClaimStart(end)).value)
  {
    assert Fresh(cfg, s, s.tool.b, s.tool.version) !in s.created;
  }

  lemma ResetClean(cfg: Config, s: State, ok: bool)
    requires Clean(cfg, s) && s.tool.Claiming? && ClaimStep(cfg, s, ClaimReset(ok)).Some?
    requires Owned(ClaimStep(cfg, s, ClaimReset(ok)).value)
    ensures Clean(cfg, ClaimStep(cfg, s, ClaimReset(ok)).value)
  {
    hide Owned;
  }

  lemma ClaimClean(cfg: Config, s: State, a: Action)
    requires Clean(cfg, s) && s.tool.Claiming? && ClaimStep(cfg, s, a).Some? && Owned(ClaimStep(cfg, s, a).value)
    ensures Clean(cfg, ClaimStep(cfg, s, a).value)
  {
    match a
    case ClaimTake => TakeClean(cfg, s);
    case ClaimStart(end) => StartClean(cfg, s, end);
    case ClaimReset(ok) => ResetClean(cfg, s, ok);
    case Publish(ok) => if ok { PublishClean(cfg, s); }
    case _ =>
  }

  lemma ReleaseClean(cfg: Config, s: State, a: Action)
    requires Clean(cfg, s) && s.tool.Releasing? && ReleaseStep(cfg, s, a).Some? && Owned(ReleaseStep(cfg, s, a).value)
    ensures Clean(cfg, ReleaseStep(cfg, s, a).value)
  {
    hide Owned;
  }

  lemma PopClean(cfg: Config, s: State, k: nat)
    requires Clean(cfg, s) && s.tool.Ready? && !s.cleanup.Draining? && k < |s.workspaces| && Owned(Popped(s, k))
    ensures Clean(cfg, Popped(s, k))
  {
    hide Owned;
    assert s.workspaces[k] in s.workspaces;
    assert forall w :: w in WithoutIndex(s.workspaces, k) ==> w in s.workspaces;
  }

  lemma ReadyClean(cfg: Config, s: State, a: Action)
    requires Clean(cfg, s) && s.tool.Ready? && ReadyStep(cfg, s, a).Some? && Owned(ReadyStep(cfg, s, a).value)
    ensures Clean(cfg, ReadyStep(cfg, s, a).value)
  {
    hide Owned;
    match a
    case Destroy(id) =>
      if IndexOf(s.workspaces, id) < |s.workspaces| { PopClean(cfg, s, IndexOf(s.workspaces, id)); }
    case CleanupDestroy => PopClean(cfg, s, 0);
    case _ =>
  }

  lemma StepClean(cfg: Config, s: State, a: Action)
    requires Clean(cfg, s) && Step(cfg, s, a).Some?
    ensures Clean(cfg, Step(cfg, s, a).value)
  {
    StepOwned(cfg, s, a);
    if IsRefill(a) { RefillClean(cfg, s, a); }
    else if s.tool.Ready? { ReadyClean(cfg, s, a); }
    else if s.tool.Claiming? { ClaimClean(cfg, s, a); }
    else { ReleaseClean(cfg, s, a); }
  }

  lemma {:induction false} RunClean(cfg: Config, s: State, actions: seq<Action>)
    requires Clean(cfg, s) && Run(cfg, s, actions).Some?
    ensures Clean(cfg, Run(cfg, s, actions).value)
    decreases |actions|
  {
    hide Step;
    if actions != [] {
      StepClean(cfg, s, actions[0]);
      RunClean(cfg, Step(cfg, s, actions[0]).value, actions[1..]);
    }
  }

  lemma InitialClean(cfg: Config)
    ensures Clean(cfg, Initial(cfg))
  {
    var s := Initial(cfg);
    forall p: Provider ensures Places(s, p) == Count(s.created, p) {
      QueuedNone(s.queues, p);
      assert NoneLeft(s.queues) == s.queues;
    }
  }

  lemma ReachableClean(cfg: Config, actions: seq<Action>)
    requires Run(cfg, Initial(cfg), actions).Some?
    ensures Clean(cfg, Run(cfg, Initial(cfg), actions).value)
  {
    InitialClean(cfg);
    RunClean(cfg, Initial(cfg), actions);
  }

  // ----- what a claim delivers -----

  /** A workspace is registered with two different providers, each of the backend and
      version asked for, each reset since a workspace last used it, and neither of them
      held by any other workspace or still queued. */
  lemma ClaimDelivers(cfg: Config, actions: seq<Action>)
    requires Run(cfg, Initial(cfg), actions).Some?
    requires var s := Run(cfg, Initial(cfg), actions).value;
             s.tool.Claiming? && Step(cfg, s, Publish(true)).Some?
    ensures var s := Run(cfg, Initial(cfg), actions).value;
            var t := Step(cfg, s, Publish(true)).value;
            && s.tool.b < |cfg.pools|
            && |s.tool.held| == 2
            && t.workspaces == s.workspaces + [Workspace(s.tool.id, s.tool.b, s.tool.held)]
            && s.tool.held[0] != s.tool.held[1]
            && forall p :: p in s.tool.held ==>
                 && Fits(cfg, p, s.tool.b, s.tool.version) && p !in s.dirty && p in t.dirty
                 && Registered(s.workspaces, p) == 0 && Queued(t.queues, p) == 0 && Registered(t.workspaces, p) == 1
  {
    ReachableClean(cfg, actions);
    var s := Run(cfg, Initial(cfg), actions).value;
    var t := Step(cfg, s, Publish(true)).value;
    StepOwned(cfg, s, Publish(true));
    var held := s.tool.held;
    if held[0] == held[1] {
      assert held == [held[0]] + [held[0]];
      CountAppend([held[0]], held[0], held[0]);
      OwnedOnce(s, held[0]);
    }
    forall p | p in held
      ensures Registered(s.workspaces, p) == 0 && Queued(t.queues, p) == 0 && Registered(t.workspaces, p) == 1
    {
      assert multiset(held)[p] > 0;
      OwnedOnce(s, p);
      OwnedOnce(t, p);
      RegisteredAppend(s.workspaces, Workspace(s.tool.id, s.tool.b, held), p);
    }
  }

  // ----- what an exception loses -----

  /** The providers whose stop() a step calls. */
  function Halts(s: State, a: Action): seq<Provider> {
    match (a, s.tool)
    case (ClaimReset(ok), Claiming(_, _, _, _, Resetting(p))) => if ok then [] else [p]
    case (Decide, Releasing(_, p, _, _)) => if s.stopped then [p] else []
    case (ReleaseReset(ok), Releasing(_, p, _, _)) => if ok then [] else [p]
    case (DrainQueues, _) => Flatten(s.queues)
    case _ => []
  }

  /** The five ways a step drops a running container without stopping it: the database of
      a container just started does not answer, in the refill thread or in a claim; the
      second claim of an initialize fails after the first succeeded; a URL cannot be built;
      the container lookup at the head of a release raises. */
  predicate Drops(s: State, a: Action) {
    match a
    case RefillStart(end) => end.NotReady?
    case ClaimStart(end) => end.NotReady? || (end.NoContainer? && s.tool.Claiming? && s.tool.held != [])
    case ClaimReset(ok) => !ok && s.tool.Claiming? && s.tool.held != []
    case Publish(ok) => !ok
    case Lookup(ok) => !ok
    case _ => false
  }

  /** And the sixth way to lose one: its stop() raises, which the pool swallows. */
  predicate Loses(cfg: Config, s: State, a: Action) {
    Drops(s, a) || exists p | p in Halts(s, a) :: !cfg.stops(p)
  }

  /** Some action of the run is one of those, in the state it is taken in. */
  predicate LosesIn(cfg: Config, s: State, actions: seq<Action>)
    requires |s.queues| == |cfg.pools| && Run(cfg, s, actions).Some?
    decreases |actions|
  {
    actions != [] && (Loses(cfg, s, actions[0]) || LosesIn(cfg, Step(cfg, s, actions[0]).value, actions[1..]))
  }

  /** The container was made and no stop() of its provider succeeded. */
  predicate Running(cfg: Config, s: State, p: Provider) {
    p in s.created && p !in s.abandoned && (p in s.halted ==> !cfg.stops(p))
  }

  /** Something still refers to the provider: a queue, a workspace or a thread. */
  predicate Referred(s: State, p: Provider) {
    Queued(s.queues, p) + Registered(s.workspaces, p) + InRefill(s.refill, p) + InTool(s.tool, p) > 0
  }

  /** No container runs that nothing refers to. */
  ghost predicate AllReferred(cfg: Config, s: State) {
    forall p :: Running(cfg, s, p) ==> Referred(s, p)
  }

  /** A provider that was dropped, or stopped in vain. */
  predicate Stray(cfg: Config, s: State, p: Provider) {
    p in s.orphaned || (p in s.halted && !cfg.stops(p))
  }

  ghost predicate NoStray(cfg: Config, s: State) {
    forall p :: !Stray(cfg, s, p)
  }

  lemma StepOrphans(cfg: Config, s: State, a: Action)
    requires Clean(cfg, s) && Step(cfg, s, a).Some?
    ensures s.orphaned <= Step(cfg, s, a).value.orphaned
    ensures Step(cfg, s, a).value.orphaned != s.orphaned <==> Drops(s, a)
  {
    hide Owned, Taken, Left, NoneLeft, Flatten, Popped, IndexOf, Shortfall, Fresh;
    if IsRefill(a) { hide ClaimStep, ReleaseStep, ReadyStep; }
    else if s.tool.Ready? { hide RefillStep, ClaimStep, ReleaseStep; PoppedKeeps(s); }
    else if s.tool.Claiming? { hide RefillStep, ReleaseStep, ReadyStep; }
    else { hide RefillStep, ClaimStep, ReadyStep; }
  }

  lemma StepHalts(cfg: Config, s: State, a: Action)
    requires Clean(cfg, s) && Step(cfg, s, a).Some?
    ensures Step(cfg, s, a).value.halted == s.halted + Halts(s, a)
  {
    hide Owned, Taken, Left, NoneLeft, Flatten, Popped, IndexOf, Shortfall, Fresh;
    assert s.halted + [] == s.halted;
    if IsRefill(a) { hide ClaimStep, ReleaseStep, ReadyStep; }
    else if s.tool.Ready? { hide RefillStep, ClaimStep, ReleaseStep; PoppedKeeps(s); }
    else if s.tool.Claiming? { hide RefillStep, ReleaseStep, ReadyStep; }
    else { hide RefillStep, ClaimStep, ReadyStep; }
  }

  lemma PoppedKeeps(s: State)
    ensures forall k | 0 <= k < |s.workspaces| :: Popped(s, k).orphaned == s.orphaned && Popped(s, k).halted == s.halted
  {
  }

  lemma StepStrays(cfg: Config, s: State, a: Action)
    requires Clean(cfg, s) && Step(cfg, s, a).Some?
    ensures NoStray(cfg, Step(cfg, s, a).value) <==> NoStray(cfg, s) && !Loses(cfg, s, a)
  {
    var t := Step(cfg, s, a).value;
    StepOrphans(cfg, s, a);
    StepHalts(cfg, s, a);
    hide Step, Clean, Halts, Drops;
    if Drops(s, a) {
      assert |t.orphaned| > |s.orphaned|;
      assert Stray(cfg, t, t.orphaned[|s.orphaned|]);
    }
    forall p ensures Stray(cfg, s, p) ==> Stray(cfg, t, p) {
    }
    forall p | p in Halts(s, a) && !cfg.stops(p) ensures Stray(cfg, t, p) {
    }
    if NoStray(cfg, s) && !Loses(cfg, s, a) {
      forall p ensures !Stray(cfg, t, p) {
        assert !Stray(cfg, s, p);
      }
    }
  }

  lemma {:induction false} RunStrays(cfg: Config, s: State, actions: seq<Action>)
    requires Clean(cfg, s) && Run(cfg, s, actions).Some?
    ensures |s.queues| == |cfg.pools|
    ensures NoStray(cfg, Run(cfg, s, actions).value) <==> NoStray(cfg, s) && !LosesIn(cfg, s, actions)
    decreases |actions|
  {
    hide Step, Loses, Clean, NoStray;
    CleanHasQueues(cfg, s);
    if actions != [] {
      var t := Step(cfg, s, actions[0]).value;
      StepStrays(cfg, s, actions[0]);
      StepClean(cfg, s, actions[0]);
      RunStrays(cfg, t, actions[1..]);
    }
  }

  lemma CleanHasQueues(cfg: Config, s: State)
    requires Clean(cfg, s)
    ensures |s.queues| == |cfg.pools|
  {
  }

  lemma StraysAreLost(cfg: Config, s: State, p: Provider)
    requires Owned(s)
    ensures Stray(cfg, s, p) <==> Running(cfg, s, p) && !Referred(s, p)
  {
    OwnedOnce(s, p);
    assert p in s.orphaned <==> Count(s.orphaned, p) > 0;
    assert p in s.halted <==> Count(s.halted, p) > 0;
    assert p in s.abandoned <==> Count(s.abandoned, p) > 0;
  }

  /** Over every run of every interleaving: every container still running is referred to by
      a queue, a workspace or a thread, exactly when none of the six happened. */
  lemma NothingLostExactlyWhen(cfg: Config, actions: seq<Action>)
    requires Run(cfg, Initial(cfg), actions).Some?
    ensures AllReferred(cfg, Run(cfg, Initial(cfg), actions).value) <==> !LosesIn(cfg, Initial(cfg), actions)
  {
    var s := Run(cfg, Initial(cfg), actions).value;
    InitialClean(cfg);
    assert NoStray(cfg, Initial(cfg));
    RunStrays(cfg, Initial(cfg), actions);
    ReachableClean(cfg, actions);
    hide Step, Run, LosesIn, Running, Referred, Stray;
    forall p ensures Stray(cfg, s, p) <==> Running(cfg, s, p) && !Referred(s, p) {
      StraysAreLost(cfg, s, p);
    }
  }

  /** A container whose database is slow: the refill thread drops it, and it runs on. */
  lemma SlowStartIsLost(cfg: Config)
    requires |cfg.pools| > 0 && cfg.pools[0].target > 0
    ensures var t := Run(cfg, Initial(cfg), [RefillWake, RefillRead, RefillStart(NotReady)]);
            t.Some? && exists p :: Running(cfg, t.value, p) && !Referred(t.value, p)
  {
    var a := [RefillWake, RefillRead, RefillStart(NotReady)];
    var s0 := Initial(cfg);
    var s1 := Step(cfg, s0, a[0]).value;
    var s2 := Step(cfg, s1, a[1]).value;
    var s3 := Step(cfg, s2, a[2]).value;
    assert a[1..] == [a[1], a[2]] && a[1..][1..] == [a[2]] && a[1..][1..][1..] == [];
    assert Run(cfg, s2, [a[2]]) == Run(cfg, s3, []) by { assert [a[2]][1..] == []; }
    assert Run(cfg, s0, a) == Some(s3);
    var p := s3.orphaned[0];
    assert p in s3.orphaned;
    ReachableClean(cfg, a);
    StraysAreLost(cfg, s3, p);
  }

  // ----- shutdown -----

  /** Right after the queues are drained nothing is queued, registered or claimed, and
      every provider ever started has been stopped once, except those whose start failed,
      those an exception lost, and the one the refill thread may have in hand. */
  lemma DrainedStoppedAll(cfg: Config, actions: seq<Action>, p: Provider)
    requires Run(cfg, Initial(cfg), actions).Some?
    requires Step(cfg, Run(cfg, Initial(cfg), actions).value, DrainQueues).Some?
    ensures var t := Step(cfg, Run(cfg, Initial(cfg), actions).value, DrainQueues).value;
            && t.stopped && t.tool.Ready? && t.workspaces == [] && Queued(t.queues, p) == 0
            && (p in t.created ==>
                  Count(t.halted, p) == if p in t.abandoned || p in t.orphaned || InRefill(t.refill, p) == 1 then 0
                    else 1)
  {
    ReachableClean(cfg, actions);
    var s := Run(cfg, Initial(cfg), actions).value;
    var t := Step(cfg, s, DrainQueues).value;
    StepOwned(cfg, s, DrainQueues);
    OwnedOnce(t, p);
    QueuedNone(s.queues, p);
    assert p in t.abandoned <==> Count(t.abandoned, p) > 0;
    assert p in t.orphaned <==> Count(t.orphaned, p) > 0;
  }

  /** Where a provider is safe from being lost by a clean-up. */
  function Kept(s: State, p: Provider): nat {
    Queued(s.queues, p) + Registered(s.workspaces, p) + InTool(s.tool, p) + Count(s.halted, p)
  }

  ghost predicate InCleanup(s: State) {
    !s.cleanup.NotCleaning? && !s.tool.Claiming?
  }

  lemma CleanupStepKeeps(cfg: Config, s: State, a: Action, p: Provider)
    requires Clean(cfg, s) && InCleanup(s) && Step(cfg, s, a).Some? && a != Lookup(false)
    ensures Kept(s, p) <= Kept(Step(cfg, s, a).value, p)
    ensures a == DrainQueues || InCleanup(Step(cfg, s, a).value)
  {
    if IsRefill(a) {
      RefillKeeps(cfg, s, a, p);
    } else {
      StepMoves(cfg, s, a, p);
      CleanupLosesNothing(cfg, s, a);
    }
  }

  lemma RefillKeeps(cfg: Config, s: State, a: Action, p: Provider)
    requires |s.queues| == |cfg.pools| && IsRefill(a) && RefillStep(cfg, s, a).Some?
    ensures var t := RefillStep(cfg, s, a).value;
            Kept(s, p) <= Kept(t, p) && t.tool == s.tool && t.cleanup == s.cleanup
  {
    if a.RefillAppend? { AppendMoves(s.queues, s.refill.b, s.refill.p, p); }
  }

  lemma CleanupLosesNothing(cfg: Config, s: State, a: Action)
    requires |s.queues| == |cfg.pools| && InCleanup(s) && Step(cfg, s, a).Some?
    requires a != Lookup(false) && !IsRefill(a)
    ensures var t := Step(cfg, s, a).value;
            && t.refill == s.refill && t.abandoned == s.abandoned && t.orphaned == s.orphaned && t.created == s.created
            && (a == DrainQueues || InCleanup(t))
  {
  }

  lemma {:induction false} CleanupKeeps(cfg: Config, s: State, actions: seq<Action>, p: Provider)
    requires Clean(cfg, s) && InCleanup(s) && Run(cfg, s, actions).Some?
    requires Lookup(false) !in actions && DrainQueues !in actions
    ensures InCleanup(Run(cfg, s, actions).value)
    ensures Kept(s, p) <= Kept(Run(cfg, s, actions).value, p)
    decreases |actions|
  {
    hide Step;
    if actions != [] {
      StepClean(cfg, s, actions[0]);
      CleanupStepKeeps(cfg, s, actions[0], p);
      CleanupKeeps(cfg, Step(cfg, s, actions[0]).value, actions[1..], p);
    }
  }

  /** A clean-up in which no container lookup raises, however the refill thread runs beside
      it, has called stop() on every provider that was registered or queued when it began. */
  lemma CleanupStopsEverything(cfg: Config, before: seq<Action>, during: seq<Action>, p: Provider)
    requires Run(cfg, Initial(cfg), before).Some?
    requires var s := Run(cfg, Initial(cfg), before).value;
             && s.tool.Ready? && Step(cfg, s, BeginCleanup).Some?
             && (Registered(s.workspaces, p) > 0 || Queued(s.queues, p) > 0)
             && Lookup(false) !in during && DrainQueues !in during
             && Run(cfg, Step(cfg, s, BeginCleanup).value, during).Some?
             && Step(cfg, Run(cfg, Step(cfg, s, BeginCleanup).value, during).value, DrainQueues).Some?
    ensures var s := Run(cfg, Initial(cfg), before).value;
            p in Step(cfg, Run(cfg, Step(cfg, s, BeginCleanup).value, during).value, DrainQueues).value.halted
  {
    hide Step, Run;
    ReachableClean(cfg, before);
    var s := Run(cfg, Initial(cfg), before).value;
    CleanupBegins(cfg, s, p);
    var s1 := Step(cfg, s, BeginCleanup).value;
    CleanupKeeps(cfg, s1, during, p);
    RunClean(cfg, s1, during);
    CleanupEnds(cfg, Run(cfg, s1, during).value, p);
  }

  lemma CleanupBegins(cfg: Config, s: State, p: Provider)
    requires Clean(cfg, s) && s.tool.Ready? && Step(cfg, s, BeginCleanup).Some?
    ensures var t := Step(cfg, s, BeginCleanup).value;
            Clean(cfg, t) && InCleanup(t) && Kept(t, p) == Kept(s, p)
  {
    StepClean(cfg, s, BeginCleanup);
  }

  lemma CleanupEnds(cfg: Config, s: State, p: Provider)
    requires Clean(cfg, s) && InCleanup(s) && Step(cfg, s, DrainQueues).Some? && Kept(s, p) > 0
    ensures p in Step(cfg, s, DrainQueues).value.halted
  {
    var t := Step(cfg, s, DrainQueues).value;
    QueuedNone(s.queues, p);
    CountConcat(s.halted, Flatten(s.queues), p);
    assert Count(t.halted, p) > 0;
  }

  /** The pass caught by the shutdown: what it may still append keeps every queue within
      its target. */
  ghost predicate Winding(cfg: Config, s: State) {
    && |s.queues| == |cfg.pools|
    && s.stopped
    && (forall b :: 0 <= b < |s.queues| ==> |s.queues[b]| <= Allowance(cfg, b))
    && match s.refill
       case Sleeping => true
       case Reading(b) => b < |cfg.pools| && forall c :: b <= c < |s.queues| ==> s.queues[c] == []
       case Owing(b, left) =>
         && b < |cfg.pools| && 0 < left && |s.queues[b]| + left <= Allowance(cfg, b)
         && forall c :: b < c < |s.queues| ==> s.queues[c] == []
       case Adding(b, left, p) =>
         && b < |cfg.pools| && 0 < left && |s.queues[b]| + left <= Allowance(cfg, b)
         && forall c :: b < c < |s.queues| ==> s.queues[c] == []
  }

  function Allowance(cfg: Config, b: nat): nat
    requires b < |cfg.pools|
  {
    if cfg.pools[b].target < 0 then 0 else cfg.pools[b].target
  }

  /** Starts still to come in the pass, each of two steps, and one read a queue. */
  function StepsLeft(cfg: Config, r: Refill): nat {
    match r
    case Sleeping => 0
    case Reading(b) => ReadsFrom(cfg, b)
    case Owing(b, left) => 2 * left + ReadsFrom(cfg, b + 1)
    case Adding(b, left, _) => (if left == 0 then 0 else 2 * left - 1) + ReadsFrom(cfg, b + 1)
  }

  function ReadsFrom(cfg: Config, b: nat): nat
    decreases |cfg.pools| - b
  {
    if b >= |cfg.pools| then 0 else 1 + 2 * Allowance(cfg, b) + ReadsFrom(cfg, b + 1)
  }

  lemma WindingStep(cfg: Config, s: State, a: Action)
    requires Winding(cfg, s) && IsRefill(a) && Step(cfg, s, a).Some?
    ensures Winding(cfg, Step(cfg, s, a).value)
    ensures StepsLeft(cfg, Step(cfg, s, a).value.refill) < StepsLeft(cfg, s.refill)
    ensures Step(cfg, s, a).value.halted == s.halted && !a.RefillWake?
  {
    hide Fresh, ClaimStep, ReleaseStep, ReadyStep;
    assert Step(cfg, s, a) == RefillStep(cfg, s, a);
    hide Step;
    match a
    case RefillAppend => hide ReadsFrom;
    case _ =>
  }

  lemma {:induction false} RefillWindsDown(cfg: Config, s: State, actions: seq<Action>)
    requires Winding(cfg, s) && Run(cfg, s, actions).Some? && forall a :: a in actions ==> IsRefill(a)
    ensures var t := Run(cfg, s, actions).value;
            && Winding(cfg, t) && t.halted == s.halted && RefillWake !in actions
            && |actions| + StepsLeft(cfg, t.refill) <= StepsLeft(cfg, s.refill)
    decreases |actions|
  {
    hide Step;
    if actions != [] {
      WindingStep(cfg, s, actions[0]);
      RefillWindsDown(cfg, Step(cfg, s, actions[0]).value, actions[1..]);
      assert actions == [actions[0]] + actions[1..];
    }
  }

  /** After any drain the refill thread begins no new pass: it takes a bounded number of
      further steps, never calls stop(), and leaves each queue within its target. What it
      appends then is stopped by nobody unless another clean-up follows. */
  lemma AfterShutdown(cfg: Config, before: seq<Action>, after: seq<Action>)
    requires Run(cfg, Initial(cfg), before).Some?
    requires var s := Run(cfg, Initial(cfg), before).value;
             && Step(cfg, s, DrainQueues).Some?
             && Run(cfg, Step(cfg, s, DrainQueues).value, after).Some?
    requires forall a :: a in after ==> IsRefill(a)
    ensures var s := Run(cfg, Initial(cfg), before).value;
            var drained := Step(cfg, s, DrainQueues).value;
            var t := Run(cfg, drained, after).value;
            && RefillWake !in after && |after| <= StepsLeft(cfg, s.refill)
            && t.halted == drained.halted
            && forall b :: 0 <= b < |t.queues| ==>
                 |t.queues[b]| <= if cfg.pools[b].target < 0 then 0 else cfg.pools[b].target
  {
    ReachableClean(cfg, before);
    var s := Run(cfg, Initial(cfg), before).value;
    var drained := Step(cfg, s, DrainQueues).value;
    assert forall c :: 0 <= c < |drained.queues| ==> drained.queues[c] == [];
    assert Winding(cfg, drained);
    RefillWindsDown(cfg, drained, after);
  }

  /** A second clean-up stops exactly what the caught pass appended, so it does nothing when
      that pass appended nothing. */
  lemma SecondCleanup(cfg: Config, s: State)
    requires |s.queues| == |cfg.pools|
    requires s.stopped && s.tool.Ready? && s.cleanup.NotCleaning? && s.workspaces == []
    ensures Run(cfg, s, [BeginCleanup, SetStopped, DrainQueues])
         == Some(s.(queues := NoneLeft(s.queues), halted := s.halted + Flatten(s.queues)))
    ensures Run(cfg, s, [BeginCleanup, SetStopped, DrainQueues]) == Some(s)
       <==> forall b :: 0 <= b < |s.queues| ==> s.queues[b] == []
  {
    var s1 := s.(cleanup := Destroying);
    var s2 := s1.(cleanup := Draining);
    var t := s.(queues := NoneLeft(s.queues), halted := s.halted + Flatten(s.queues));
    assert Step(cfg, s, BeginCleanup) == Some(s1);
    assert Step(cfg, s1, SetStopped) == Some(s2);
    assert Step(cfg, s2, DrainQueues) == Some(t);
    hide Step;
    assert [BeginCleanup, SetStopped, DrainQueues][1..] == [SetStopped, DrainQueues];
    assert [SetStopped, DrainQueues][1..] == [DrainQueues];
    assert Run(cfg, t, []) == Some(t);
    assert [DrainQueues][1..] == [];
    if forall b :: 0 <= b < |s.queues| ==> s.queues[b] == [] {
      FlattenNone(s.queues);
      assert NoneLeft(s.queues) == s.queues && s.halted + [] == s.halted;
      assert t == s;
    } else {
      assert forall b :: 0 <= b < |t.queues| ==> t.queues[b] == [];
    }
  }

  lemma {:induction false} FlattenNone(queues: seq<seq<Provider>>)
    requires forall b :: 0 <= b < |queues| ==> queues[b] == []
    ensures Flatten(queues) == []
  {
    if queues != [] { FlattenNone(queues[1..]); }
  }
}
