/** How many containers the pool can keep alive: a bound on every queue that holds over
    every interleaving, for each backend and each version. */
module PoolCounting {
  import opened Ordering
  import opened Pool
  import opened PoolProtocol

  /** How many of the providers report version `v`. */
  function Versions(s: seq<Provider>, v: string): (n: nat)
    ensures n <= |s|
  {
    if s == [] then 0 else Reports(s[0], v) + Versions(s[1..], v)
  }

  function Reports(p: Provider, v: string): nat {
    if Version(p) == v then 1 else 0
  }

  lemma {:induction false} VersionsConcat(a: seq<Provider>, b: seq<Provider>, v: string)
    ensures Versions(a + b, v) == Versions(a, v) + Versions(b, v)
  {
    if a == [] {
      assert a + b == b;
    } else {
      VersionsConcat(a[1..], b, v);
      assert (a + b)[1..] == a[1..] + b;
    }
  }

  lemma VersionsAppend(s: seq<Provider>, q: Provider, v: string)
    ensures Versions(s + [q], v) == Versions(s, v) + Reports(q, v)
  {
    VersionsConcat(s, [q], v);
  }

  lemma {:induction false} NoVersion(s: seq<Provider>, v: string)
    requires forall p :: p in s ==> Version(p) != v
    ensures Versions(s, v) == 0
  {
    if s != [] { NoVersion(s[1..], v); }
  }

  lemma LeftVersions(queue: seq<Provider>, version: string, v: string)
    ensures match Taken(queue, version)
            case None => Left(queue, version) == queue && Versions(queue, version) == 0
            case Some(q) => Versions(Left(queue, version), v) == Versions(queue, v) - Reports(q, v)
  {
    var k := FirstMatch(queue, version);
    if k == |queue| {
      NoVersion(queue, version);
    } else {
      VersionsConcat(queue[..k], queue[k..], v);
      VersionsConcat(queue[..k], queue[k + 1..], v);
      assert queue == queue[..k] + queue[k..];
      assert queue[k..][1..] == queue[k + 1..];
    }
  }

  // ----- the quantities bounded -----

  function QueuedOf(s: State, b: nat, v: string): nat
    requires b < |s.queues|
  {
    Versions(s.queues[b], v)
  }

  /** Providers the current pass has still to append to queue `b`. */
  function OwedOf(cfg: Config, s: State, b: nat, v: string): nat
    requires b < |cfg.pools|
  {
    if v != cfg.pools[b].version || !(s.refill.Owing? || s.refill.Adding?) || s.refill.b != b then 0
    else s.refill.left
  }

  function HeldBy(workspaces: seq<Workspace>, b: nat, v: string): nat {
    if workspaces == [] then 0
    else (if workspaces[0].b == b then Versions(workspaces[0].held, v) else 0) + HeldBy(workspaces[1..], b, v)
  }

  function HeldByTool(t: Tool, b: nat, v: string): nat {
    match t
    case Ready => 0
    case Claiming(_, tb, _, held, claim) =>
      if tb != b then 0
      else Versions(held, v) + if claim.Resetting? then Reports(claim.p, v) else 0
    case Releasing(tb, p, rest, _) => if tb != b then 0 else Reports(p, v) + Versions(rest, v)
  }

  function ClaimedOf(s: State, b: nat, v: string): nat {
    HeldBy(s.workspaces, b, v) + HeldByTool(s.tool, b, v)
  }

  /** The configured target, when `v` is the version the refill thread starts. */
  function Target(cfg: Config, b: nat, v: string): nat
    requires b < |cfg.pools|
  {
    if v == cfg.pools[b].version && cfg.pools[b].target > 0 then cfg.pools[b].target else 0
  }

  // ----- invariants -----

  ghost predicate ToolShape(cfg: Config, s: State) {
    match s.tool
    case Ready => true
    case Claiming(_, b, version, held, claim) =>
      && b < |cfg.pools| && ':' !in version && |s.workspaces| < cfg.maxWorkspaces
      && |held| <= 2 && (claim.Publishing? <==> |held| == 2)
      && (claim.Resetting? ==> Version(claim.p) == version)
    case Releasing(b, p, rest, _) =>
      b < |cfg.pools| && |rest| <= 1 && |s.workspaces| < cfg.maxWorkspaces
  }

  ghost predicate Shape(cfg: Config, s: State) {
    && |s.queues| == |cfg.pools|
    && RefillPlaced(cfg, s.refill)
    && (s.refill.Adding? ==> Version(s.refill.p) == cfg.pools[s.refill.b].version)
    && ToolShape(cfg, s)
    && |s.workspaces| <= cfg.maxWorkspaces
    && forall w :: w in s.workspaces ==> |w.held| <= 2 && (w.held != [] ==> w.b < |cfg.pools|)
  }

  ghost predicate Bounded(cfg: Config, s: State, b: nat, v: string)
    requires Shape(cfg, s) && b < |cfg.pools|
  {
    && QueuedOf(s, b, v) + OwedOf(cfg, s, b, v) + ClaimedOf(s, b, v) <= Target(cfg, b, v) + 2 * cfg.maxWorkspaces
    && (s.tool.Claiming? && s.tool.claim.Starting? && s.tool.b == b && s.tool.version == v ==>
          QueuedOf(s, b, v) + OwedOf(cfg, s, b, v) <= Target(cfg, b, v))
  }

  /** Image tags with a colon never match again (Pool.VersionRoundTrip). */
  ghost predicate PlainTags(cfg: Config) {
    forall b :: 0 <= b < |cfg.pools| ==> ':' !in cfg.pools[b].version
  }

  ghost predicate PlainTag(a: Action) {
    a.Initialize? ==> ':' !in a.version
  }

  lemma {:induction false} HeldByAppend(workspaces: seq<Workspace>, w: Workspace, b: nat, v: string)
    ensures HeldBy(workspaces + [w], b, v) == HeldBy(workspaces, b, v) + HeldBy([w], b, v)
  {
    if workspaces == [] {
      assert workspaces + [w] == [w];
    } else {
      HeldByAppend(workspaces[1..], w, b, v);
      assert (workspaces + [w])[1..] == workspaces[1..] + [w];
    }
  }

  lemma {:induction false} HeldByWithout(workspaces: seq<Workspace>, k: nat, b: nat, v: string)
    requires k < |workspaces|
    ensures HeldBy(WithoutIndex(workspaces, k), b, v) + HeldBy([workspaces[k]], b, v) == HeldBy(workspaces, b, v)
  {
    if k == 0 {
      assert WithoutIndex(workspaces, 0) == workspaces[1..];
    } else {
      HeldByWithout(workspaces[1..], k - 1, b, v);
      assert WithoutIndex(workspaces, k) == [workspaces[0]] + WithoutIndex(workspaces[1..], k - 1);
    }
  }

  lemma {:induction false} HeldByAtMost(workspaces: seq<Workspace>, b: nat, v: string)
    requires forall w :: w in workspaces ==> |w.held| <= 2
    ensures HeldBy(workspaces, b, v) <= 2 * |workspaces|
  {
    if workspaces != [] { HeldByAtMost(workspaces[1..], b, v); }
  }

  lemma RefillShape(cfg: Config, s: State, a: Action)
    requires PlainTags(cfg) && Shape(cfg, s) && IsRefill(a) && RefillStep(cfg, s, a).Some?
    ensures Shape(cfg, RefillStep(cfg, s, a).value)
  {
    if a.RefillStart? {
      VersionRoundTrip(cfg.pools[s.refill.b], cfg.pools[s.refill.b].version, |s.created|, s.refill.b);
    }
  }

  lemma ClaimShape(cfg: Config, s: State, a: Action)
    requires Shape(cfg, s) && s.tool.Claiming? && ClaimStep(cfg, s, a).Some?
    ensures Shape(cfg, ClaimStep(cfg, s, a).value)
  {
    if a.ClaimStart? {
      VersionRoundTrip(cfg.pools[s.tool.b], s.tool.version, |s.created|, s.tool.b);
    }
  }

  lemma ReleaseShape(cfg: Config, s: State, a: Action)
    requires Shape(cfg, s) && s.tool.Releasing? && ReleaseStep(cfg, s, a).Some?
    ensures Shape(cfg, ReleaseStep(cfg, s, a).value)
  {
  }

  lemma ReadyShape(cfg: Config, s: State, a: Action)
    requires PlainTag(a) && Shape(cfg, s) && s.tool.Ready? && ReadyStep(cfg, s, a).Some?
    ensures Shape(cfg, ReadyStep(cfg, s, a).value)
  {
    if a.Destroy? && IndexOf(s.workspaces, a.id) < |s.workspaces| {
      assert s.workspaces[IndexOf(s.workspaces, a.id)] in s.workspaces;
    } else if a.CleanupDestroy? {
      assert s.workspaces[0] in s.workspaces;
    }
  }

  lemma RefillBounded(cfg: Config, s: State, a: Action, b: nat, v: string)
    requires PlainTags(cfg) && Shape(cfg, s) && b < |cfg.pools| && Bounded(cfg, s, b, v)
    requires IsRefill(a) && RefillStep(cfg, s, a).Some? && Shape(cfg, RefillStep(cfg, s, a).value)
    ensures Bounded(cfg, RefillStep(cfg, s, a).value, b, v)
  {
    hide HeldBy, HeldByTool, Versions;
    if a.RefillAppend? {
      VersionsAppend(s.queues[s.refill.b], s.refill.p, v);
    } else if a.RefillRead? {
      ClaimedAtMost(cfg, s, b, v);
    }
  }

  lemma ClaimedAtMost(cfg: Config, s: State, b: nat, v: string)
    requires Shape(cfg, s)
    ensures ClaimedOf(s, b, v) <= 2 * cfg.maxWorkspaces
  {
    HeldByAtMost(s.workspaces, b, v);
  }

  lemma TakeBounded(cfg: Config, s: State, b: nat, v: string)
    requires Shape(cfg, s) && b < |cfg.pools| && Bounded(cfg, s, b, v)
    requires s.tool.Claiming? && ClaimStep(cfg, s, ClaimTake).Some? && Shape(cfg, ClaimStep(cfg, s, ClaimTake).value)
    ensures Bounded(cfg, ClaimStep(cfg, s, ClaimTake).value, b, v)
  {
    var t := ClaimStep(cfg, s, ClaimTake).value;
    LeftVersions(s.queues[s.tool.b], s.tool.version, v);
    assert OwedOf(cfg, t, b, v) == OwedOf(cfg, s, b, v) <= Target(cfg, b, v);
    assert QueuedOf(t, b, v) + HeldByTool(t.tool, b, v) == QueuedOf(s, b, v) + HeldByTool(s.tool, b, v);
  }

  lemma StartBounded(cfg: Config, s: State, end: StartEnd, b: nat, v: string)
    requires Shape(cfg, s) && b < |cfg.pools| && Bounded(cfg, s, b, v)
    requires s.tool.Claiming? && ClaimStep(cfg, s, ClaimStart(end)).Some?
    requires Shape(cfg, ClaimStep(cfg, s, ClaimStart(end)).value)
    ensures Bounded(cfg, ClaimStep(cfg, s, ClaimStart(end)).value, b, v)
  {
    var t := ClaimStep(cfg, s, ClaimStart(end)).value;
    VersionRoundTrip(cfg.pools[s.tool.b], s.tool.version, |s.created|, s.tool.b);
    HeldByAtMost(s.workspaces, b, v);
    assert OwedOf(cfg, t, b, v) == OwedOf(cfg, s, b, v) && QueuedOf(t, b, v) == QueuedOf(s, b, v);
    assert HeldByTool(t.tool, b, v) <= 2;
  }

  lemma ClaimBounded(cfg: Config, s: State, a: Action, b: nat, v: string)
    requires Shape(cfg, s) && b < |cfg.pools| && Bounded(cfg, s, b, v)
    requires s.tool.Claiming? && ClaimStep(cfg, s, a).Some? && Shape(cfg, ClaimStep(cfg, s, a).value)
    ensures Bounded(cfg, ClaimStep(cfg, s, a).value, b, v)
  {
    match a
    case ClaimTake => TakeBounded(cfg, s, b, v);
    case ClaimStart(end) => StartBounded(cfg, s, end, b, v);
    case ClaimReset(ok) => VersionsAppend(s.tool.held, s.tool.claim.p, v);
    case Publish(ok) => HeldByAppend(s.workspaces, Workspace(s.tool.id, s.tool.b, s.tool.held), b, v);
    case _ =>
  }

  lemma ReleaseBounded(cfg: Config, s: State, a: Action, b: nat, v: string)
    requires Shape(cfg, s) && b < |cfg.pools| && Bounded(cfg, s, b, v)
    requires s.tool.Releasing? && ReleaseStep(cfg, s, a).Some? && Shape(cfg, ReleaseStep(cfg, s, a).value)
    ensures Bounded(cfg, ReleaseStep(cfg, s, a).value, b, v)
  {
    var t := ReleaseStep(cfg, s, a).value;
    VersionsAppend(s.queues[s.tool.b], s.tool.p, v);
    assert OwedOf(cfg, t, b, v) == OwedOf(cfg, s, b, v) && HeldBy(t.workspaces, b, v) == HeldBy(s.workspaces, b, v);
    assert QueuedOf(t, b, v) + HeldByTool(t.tool, b, v) <= QueuedOf(s, b, v) + HeldByTool(s.tool, b, v);
  }

  lemma PopBounded(cfg: Config, s: State, k: nat, b: nat, v: string)
    requires Shape(cfg, s) && b < |cfg.pools| && Bounded(cfg, s, b, v) && s.tool.Ready? && k < |s.workspaces|
    requires Shape(cfg, Popped(s, k))
    ensures Bounded(cfg, Popped(s, k), b, v)
  {
    HeldByWithout(s.workspaces, k, b, v);
  }

  lemma ReadyBounded(cfg: Config, s: State, a: Action, b: nat, v: string)
    requires Shape(cfg, s) && b < |cfg.pools| && Bounded(cfg, s, b, v)
    requires s.tool.Ready? && ReadyStep(cfg, s, a).Some? && Shape(cfg, ReadyStep(cfg, s, a).value)
    ensures Bounded(cfg, ReadyStep(cfg, s, a).value, b, v)
  {
    hide IndexOf, Left, Taken;
    match a
    case InitializeSqlite(id) => HeldByAppend(s.workspaces, Workspace(id, 0, []), b, v);
    case Destroy(id) =>
      hide Bounded, Popped, Shape;
      if IndexOf(s.workspaces, id) < |s.workspaces| { PopBounded(cfg, s, IndexOf(s.workspaces, id), b, v); }
    case CleanupDestroy =>
      hide Bounded, Popped, Shape;
      if s.workspaces != [] { PopBounded(cfg, s, 0, b, v); }
    case _ =>
  }

  lemma StepBounded(cfg: Config, s: State, a: Action, b: nat, v: string)
    requires PlainTags(cfg) && PlainTag(a)
    requires Shape(cfg, s) && b < |cfg.pools| && Bounded(cfg, s, b, v) && Step(cfg, s, a).Some?
    ensures Shape(cfg, Step(cfg, s, a).value) && Bounded(cfg, Step(cfg, s, a).value, b, v)
  {
    if IsRefill(a) { RefillShape(cfg, s, a); RefillBounded(cfg, s, a, b, v); }
    else if s.tool.Ready? { ReadyShape(cfg, s, a); ReadyBounded(cfg, s, a, b, v); }
    else if s.tool.Claiming? { ClaimShape(cfg, s, a); ClaimBounded(cfg, s, a, b, v); }
    else { ReleaseShape(cfg, s, a); ReleaseBounded(cfg, s, a, b, v); }
  }

  lemma {:induction false} RunBounded(cfg: Config, s: State, actions: seq<Action>, b: nat, v: string)
    requires PlainTags(cfg) && forall a :: a in actions ==> PlainTag(a)
    requires Shape(cfg, s) && b < |cfg.pools| && Bounded(cfg, s, b, v) && Run(cfg, s, actions).Some?
    ensures Shape(cfg, Run(cfg, s, actions).value) && Bounded(cfg, Run(cfg, s, actions).value, b, v)
    decreases |actions|
  {
    hide Step;
    if actions != [] {
      StepBounded(cfg, s, actions[0], b, v);
      RunBounded(cfg, Step(cfg, s, actions[0]).value, actions[1..], b, v);
    }
  }

  /** The counting bound, over all runs: for the version the refill thread starts, queued
      plus still owed by the pass plus claimed is at most the target and twice the number
      of workspaces; for any other version the target does not come in. */
  lemma PoolStaysBounded(cfg: Config, actions: seq<Action>, b: nat, v: string)
    requires PlainTags(cfg) && forall a :: a in actions ==> PlainTag(a)
    requires b < |cfg.pools| && Run(cfg, Initial(cfg), actions).Some?
    ensures var s := Run(cfg, Initial(cfg), actions).value;
            QueuedOf(s, b, v) + OwedOf(cfg, s, b, v) + ClaimedOf(s, b, v)
              <= (if v == cfg.pools[b].version && cfg.pools[b].target > 0 then cfg.pools[b].target else 0)
                 + 2 * cfg.maxWorkspaces
  {
    RunBounded(cfg, Initial(cfg), actions, b, v);
  }

  // ----- tags with a colon -----

  /** Between tool calls, with nothing registered and the refill thread asleep. */
  predicate Quiet(cfg: Config, s: State) {
    && |s.queues| == |cfg.pools| && s.tool.Ready? && s.cleanup.NotCleaning? && !s.stopped
    && s.workspaces == [] && s.refill.Sleeping?
  }

  lemma NeverMatches(queue: seq<Provider>, version: string)
    requires ':' in version
    ensures Taken(queue, version) == None
  {
    if Taken(queue, version).Some? {
      AfterLastColonIsColonFree(Taken(queue, version).value.image);
    }
  }

  const CLAIM: seq<Action> := [ClaimTake, ClaimStart(Up), ClaimReset(true)]
  const RETURN: seq<Action> := [Lookup(true), Decide, ReleaseReset(true), ReleaseAppend]

  lemma {:induction false} RunConcat(cfg: Config, s: State, a: seq<Action>, b: seq<Action>)
    requires |s.queues| == |cfg.pools| && Run(cfg, s, a).Some?
    ensures Run(cfg, s, a + b) == Run(cfg, Run(cfg, s, a).value, b)
    decreases |a|
  {
    if a == [] {
      assert a + b == b;
    } else {
      hide Step;
      assert (a + b)[0] == a[0] && (a + b)[1..] == a[1..] + b;
      RunConcat(cfg, Step(cfg, s, a[0]).value, a[1..], b);
    }
  }

  lemma OneStep(cfg: Config, s: State, a: Action)
    requires |s.queues| == |cfg.pools| && Step(cfg, s, a).Some?
    ensures Run(cfg, s, [a]) == Step(cfg, s, a)
  {
    hide Step;
    assert [a][1..] == [];
    assert Run(cfg, Step(cfg, s, a).value, []) == Step(cfg, s, a);
  }

  lemma ClaimStarts(cfg: Config, s: State)
    requires |s.queues| == |cfg.pools| && s.tool.Claiming? && s.tool.claim.Taking? && s.tool.b < |cfg.pools|
    requires ':' in s.tool.version && |s.tool.held| < 2
    ensures var t := Run(cfg, s, CLAIM);
            && t.Some? && t.value.queues == s.queues && t.value.workspaces == s.workspaces
              && t.value.stopped == s.stopped
            && t.value.refill == s.refill && t.value.cleanup == s.cleanup
            && |t.value.created| == |s.created| + 1
            && t.value.tool == s.tool.(held := s.tool.held + [Fresh(cfg, s, s.tool.b, s.tool.version)],
                                       claim := if |s.tool.held| == 0 then Taking else Publishing)
  {
    hide Left;
    NeverMatches(s.queues[s.tool.b], s.tool.version);
    hide Taken;
    var s1 := Step(cfg, s, ClaimTake).value;
    var s2 := Step(cfg, s1, ClaimStart(Up)).value;
    var s3 := Step(cfg, s2, ClaimReset(true)).value;
    OneStep(cfg, s, ClaimTake);
    OneStep(cfg, s1, ClaimStart(Up));
    OneStep(cfg, s2, ClaimReset(true));
    RunConcat(cfg, s, [ClaimTake], [ClaimStart(Up)]);
    RunConcat(cfg, s, [ClaimTake] + [ClaimStart(Up)], [ClaimReset(true)]);
    assert CLAIM == [ClaimTake] + [ClaimStart(Up)] + [ClaimReset(true)];
  }

  lemma ReturnAppends(cfg: Config, s: State)
    requires |s.queues| == |cfg.pools| && s.tool.Releasing? && s.tool.release.Looking? && s.tool.b < |cfg.pools|
        && !s.stopped
    ensures var t := Run(cfg, s, RETURN);
            t.Some? && t.value == s.(queues := s.queues[s.tool.b := s.queues[s.tool.b] + [s.tool.p]],
                                     dirty := s.dirty - {s.tool.p}, tool := StartRelease(s.tool.b, s.tool.rest))
  {
    var s1 := Step(cfg, s, Lookup(true)).value;
    var s2 := Step(cfg, s1, Decide).value;
    var s3 := Step(cfg, s2, ReleaseReset(true)).value;
    var s4 := Step(cfg, s3, ReleaseAppend).value;
    OneStep(cfg, s, Lookup(true));
    OneStep(cfg, s1, Decide);
    OneStep(cfg, s2, ReleaseReset(true));
    OneStep(cfg, s3, ReleaseAppend);
    RunConcat(cfg, s, [Lookup(true)], [Decide]);
    RunConcat(cfg, s, [Lookup(true)] + [Decide], [ReleaseReset(true)]);
    RunConcat(cfg, s, [Lookup(true)] + [Decide] + [ReleaseReset(true)], [ReleaseAppend]);
    assert RETURN == [Lookup(true)] + [Decide] + [ReleaseReset(true)] + [ReleaseAppend];
  }

  /** One workspace, created and destroyed. */
  function Visit(b: nat, version: string): seq<Action> {
    [Initialize("w", b, version)] + CLAIM + CLAIM + [Publish(true)] + [Destroy("w")] + RETURN + RETURN
  }

  lemma VisitGrows(cfg: Config, s: State, b: nat, version: string)
    requires Quiet(cfg, s) && b < |cfg.pools| && ':' in version && cfg.maxWorkspaces > 0
    ensures var t := Run(cfg, s, Visit(b, version));
            t.Some? && Quiet(cfg, t.value) && |t.value.queues[b]| == |s.queues[b]| + 2
  {
    hide Run, RETURN, CLAIM;
    var a0 := [Initialize("w", b, version)];
    var s1 := Step(cfg, s, a0[0]).value;
    OneStep(cfg, s, a0[0]);
    ClaimStarts(cfg, s1);
    RunConcat(cfg, s, a0, CLAIM);
    var s2 := Run(cfg, s1, CLAIM).value;
    ClaimStarts(cfg, s2);
    RunConcat(cfg, s, a0 + CLAIM, CLAIM);
    var s3 := Run(cfg, s2, CLAIM).value;
    var s4 := Step(cfg, s3, Publish(true)).value;
    OneStep(cfg, s3, Publish(true));
    RunConcat(cfg, s, a0 + CLAIM + CLAIM, [Publish(true)]);
    assert s4.workspaces == [Workspace("w", b, s3.tool.held)];
    var s5 := Step(cfg, s4, Destroy("w")).value;
    OneStep(cfg, s4, Destroy("w"));
    RunConcat(cfg, s, a0 + CLAIM + CLAIM + [Publish(true)], [Destroy("w")]);
    ReturnAppends(cfg, s5);
    RunConcat(cfg, s, a0 + CLAIM + CLAIM + [Publish(true)] + [Destroy("w")], RETURN);
    var s6 := Run(cfg, s5, RETURN).value;
    ReturnAppends(cfg, s6);
    RunConcat(cfg, s, a0 + CLAIM + CLAIM + [Publish(true)] + [Destroy("w")] + RETURN, RETURN);
  }

  /** Without the condition on tags nothing bounds the pool: a version with a colon is
      never found again, so each workspace that asks for it leaves two more queued. */
  lemma {:induction false} ColonTagsPileUp(cfg: Config, b: nat, version: string, n: nat) returns (actions: seq<Action>)
    requires b < |cfg.pools| && ':' in version && cfg.maxWorkspaces > 0
    ensures var t := Run(cfg, Initial(cfg), actions);
            t.Some? && Quiet(cfg, t.value) && |t.value.queues[b]| == 2 * n
  {
    hide Step, Visit;
    if n == 0 {
      actions := [];
    } else {
      var before := ColonTagsPileUp(cfg, b, version, n - 1);
      VisitGrows(cfg, Run(cfg, Initial(cfg), before).value, b, version);
      RunConcat(cfg, Initial(cfg), before, Visit(b, version));
      actions := before + Visit(b, version);
    }
  }
}
