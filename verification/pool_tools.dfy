/** What the tool calls on workspaces do to the pool, from call to return. */
module PoolTools {
  import opened Ordering
  import opened Pool
  import opened PoolProtocol

  lemma RunOne(cfg: Config, s: State, a: Action, rest: seq<Action>)
    requires |s.queues| == |cfg.pools| && Step(cfg, s, a).Some?
    ensures Run(cfg, s, [a] + rest) == Run(cfg, Step(cfg, s, a).value, rest)
  {
    hide Step;
    assert ([a] + rest)[0] == a && ([a] + rest)[1..] == rest;
  }

  lemma {:induction false} RunTwo(cfg: Config, s: State, a: seq<Action>, b: seq<Action>)
    requires |s.queues| == |cfg.pools| && Run(cfg, s, a).Some?
    ensures Run(cfg, s, a + b) == Run(cfg, Run(cfg, s, a).value, b)
    decreases |a|
  {
    hide Step;
    if a == [] {
      assert a + b == b;
    } else {
      assert (a + b)[0] == a[0] && (a + b)[1..] == a[1..] + b;
      RunTwo(cfg, Step(cfg, s, a[0]).value, a[1..], b);
    }
  }

  // ----- initialize -----

  /** A workspace is accepted exactly while there is room, its id is new and its backend is
      one of the pool's. */
  lemma InitializeExactlyWhen(cfg: Config, s: State, id: string, b: nat, version: string)
    requires |s.queues| == |cfg.pools| && s.tool.Ready? && s.cleanup.NotCleaning?
    ensures Step(cfg, s, Initialize(id, b, version)).Some?
       <==> |s.workspaces| < cfg.maxWorkspaces && (forall w | w in s.workspaces :: w.id != id) && b < |cfg.pools|
    ensures Step(cfg, s, InitializeSqlite(id)).Some?
       <==> |s.workspaces| < cfg.maxWorkspaces && forall w | w in s.workspaces :: w.id != id
    ensures Step(cfg, s, InitializeSqlite(id)).Some? ==>
      Step(cfg, s, InitializeSqlite(id)).value == s.(workspaces := s.workspaces + [Workspace(id, 0, [])])
  {
  }

  /** Where a claim gets its provider: the first in the queue that reports the version, which
      leaves the queue, or else a new one of that version. */
  ghost predicate Supplies(cfg: Config, s: State, b: nat, version: string, p: Provider, t: State)
    requires b < |cfg.pools| == |s.queues|
  {
    var queue := s.queues[b];
    || (exists k ::
          && 0 <= k < |queue| && queue[k] == p && Version(p) == version
          && (forall i | 0 <= i < k :: Version(queue[i]) != version)
          && t == s.(queues := s.queues[b := queue[..k] + queue[k + 1..]]))
    || (&& (forall q | q in queue :: Version(q) != version)
        && p == Provider(b, cfg.pools[b].repository + ":" + version, |s.created|)
        && t == s.(created := s.created + [p]))
  }

  /** One claim: what it takes, and the calls it makes when each succeeds. */
  lemma OneClaim(cfg: Config, s: State) returns (p: Provider, t: State, steps: seq<Action>)
    requires |s.queues| == |cfg.pools| && s.tool.Claiming? && s.tool.claim.Taking? && s.tool.b < |cfg.pools|
    ensures Supplies(cfg, s, s.tool.b, s.tool.version, p, t) && |t.queues| == |cfg.pools|
    ensures steps == [ClaimTake, ClaimReset(true)] || steps == [ClaimTake, ClaimStart(Up), ClaimReset(true)]
    ensures Run(cfg, s, steps)
         == Some(t.(dirty := s.dirty - {p},
                    tool := s.tool.(held := s.tool.held + [p], claim := if s.tool.held == [] then Taking
                      else Publishing)))
  {
    var queue, version := s.queues[s.tool.b], s.tool.version;
    var k := FirstMatch(queue, version);
    var s1 := Step(cfg, s, ClaimTake).value;
    if k < |queue| {
      p, t := queue[k], s.(queues := s.queues[s.tool.b := queue[..k] + queue[k + 1..]]);
      steps := [ClaimTake] + ([ClaimReset(true)] + []);
      RunOne(cfg, s, ClaimTake, [ClaimReset(true)] + []);
      RunOne(cfg, s1, ClaimReset(true), []);
    } else {
      forall q | q in queue ensures Version(q) != version {
        var i :| 0 <= i < |queue| && queue[i] == q;
      }
      p := Provider(s.tool.b, cfg.pools[s.tool.b].repository + ":" + version, |s.created|);
      t := s.(created := s.created + [p]);
      steps := [ClaimTake] + ([ClaimStart(Up)] + ([ClaimReset(true)] + []));
      var s2 := Step(cfg, s1, ClaimStart(Up)).value;
      RunOne(cfg, s, ClaimTake, [ClaimStart(Up)] + ([ClaimReset(true)] + []));
      RunOne(cfg, s1, ClaimStart(Up), [ClaimReset(true)] + []);
      RunOne(cfg, s2, ClaimReset(true), []);
    }
  }

  /** The two claims of an initialize. */
  lemma TwoClaims(cfg: Config, begun: State) returns (p: Provider, q: Provider, t: State, u: State, steps: seq<Action>)
    requires |begun.queues| == |cfg.pools| && begun.tool.Claiming? && begun.tool.b < |cfg.pools|
    requires begun.tool.held == [] && begun.tool.claim.Taking?
    ensures |t.queues| == |cfg.pools| && Supplies(cfg, begun, begun.tool.b, begun.tool.version, p, t)
    ensures Supplies(cfg, t, begun.tool.b, begun.tool.version, q, u)
    ensures |u.queues| == |cfg.pools| && u.workspaces == begun.workspaces && u.dirty == begun.dirty
    ensures Run(cfg, begun, steps)
         == Some(u.(dirty := begun.dirty - {p} - {q}, tool := begun.tool.(held := [p, q], claim := Publishing)))
    ensures forall a | a in steps :: !IsRefill(a)
  {
    var first, second, v;
    p, t, first := OneClaim(cfg, begun);
    var between := t.(dirty := begun.dirty - {p}, tool := begun.tool.(held := [p]));
    assert [] + [p] == [p];
    assert between.tool == begun.tool.(held := begun.tool.held + [p], claim := Taking);
    hide Step, Supplies;
    q, v, second := OneClaim(cfg, between);
    u := v.(tool := t.tool, dirty := t.dirty);
    SuppliesAnyTool(cfg, between, begun.tool.b, begun.tool.version, q, v, t);
    SuppliesKeeps(cfg, begun, begun.tool.b, begun.tool.version, p, t);
    SuppliesKeeps(cfg, between, begun.tool.b, begun.tool.version, q, v);
    steps := first + second;
    assert [p] + [q] == [p, q];
    RunTwo(cfg, begun, first, second);
    NoRefillSteps(first);
    NoRefillSteps(second);
  }

  lemma NoRefillSteps(steps: seq<Action>)
    requires steps == [ClaimTake, ClaimReset(true)] || steps == [ClaimTake, ClaimStart(Up), ClaimReset(true)]
    ensures forall a | a in steps :: !IsRefill(a)
  {
  }

  lemma SuppliesKeeps(cfg: Config, s: State, b: nat, version: string, p: Provider, t: State)
    requires b < |cfg.pools| == |s.queues| && Supplies(cfg, s, b, version, p, t)
    ensures t == s.(queues := t.queues, created := t.created) && |t.queues| == |s.queues|
  {
  }

  /** An initialize in which every call succeeds registers the workspace under its id, last,
      with two providers got one after the other, and changes nothing else. */
  lemma InitializeRegisters(cfg: Config, s: State, id: string, b: nat, version: string)
      returns (p: Provider, q: Provider, s1: State, s2: State, steps: seq<Action>)
    requires |s.queues| == |cfg.pools| && s.tool.Ready? && Step(cfg, s, Initialize(id, b, version)).Some?
    ensures b < |cfg.pools| && Supplies(cfg, s, b, version, p, s1)
    ensures |s1.queues| == |cfg.pools| && Supplies(cfg, s1, b, version, q, s2)
    ensures forall a | a in steps :: !IsRefill(a)
    ensures Run(cfg, s, [Initialize(id, b, version)] + steps)
         == Some(s2.(workspaces := s.workspaces + [Workspace(id, b, [p, q])], dirty := s.dirty + {p, q}))
  {
    Begun(cfg, s, id, b, version);
    var begun := s.(tool := Claiming(id, b, version, [], Taking));
    var t, u, claims;
    p, q, t, u, claims := TwoClaims(cfg, begun);
    s1, s2 := t.(tool := s.tool), u.(tool := s.tool);
    SuppliesKeeps(cfg, begun, b, version, p, t);
    SuppliesAnyTool(cfg, begun, b, version, p, t, s);
    SuppliesAnyTool(cfg, t, b, version, q, u, s1);
    hide Step, Run, Supplies;
    var claimed := u.(dirty := s.dirty - {p} - {q}, tool := begun.tool.(held := [p, q], claim := Publishing));
    var final := s2.(workspaces := s.workspaces + [Workspace(id, b, [p, q])], dirty := s.dirty + {p, q});
    assert s.dirty - {p} - {q} + {p, q} == s.dirty + {p, q};
    Published(cfg, claimed, final);
    steps := claims + [Publish(true)];
    RunOne(cfg, s, Initialize(id, b, version), steps);
    RunTwo(cfg, begun, claims, [Publish(true)]);
  }

  lemma Begun(cfg: Config, s: State, id: string, b: nat, version: string)
    requires |s.queues| == |cfg.pools| && s.tool.Ready? && Step(cfg, s, Initialize(id, b, version)).Some?
    ensures b < |cfg.pools| && Step(cfg, s, Initialize(id, b, version))
        == Some(s.(tool := Claiming(id, b, version, [], Taking)))
  {
  }

  lemma Published(cfg: Config, s: State, final: State)
    requires |s.queues| == |cfg.pools| && s.tool.Claiming? && s.tool.claim.Publishing? && s.tool.b < |cfg.pools|
    requires |s.tool.held| == 2
    requires final == s.(workspaces := s.workspaces + [Workspace(s.tool.id, s.tool.b, s.tool.held)],
                         dirty := s.dirty + {s.tool.held[0], s.tool.held[1]}, tool := Ready)
    ensures Run(cfg, s, [Publish(true)]) == Some(final)
  {
    assert [Publish(true)] + [] == [Publish(true)];
    RunOne(cfg, s, Publish(true), []);
    assert (set p | p in s.tool.held) == {s.tool.held[0], s.tool.held[1]};
  }

  lemma SuppliesAnyTool(cfg: Config, s: State, b: nat, version: string, p: Provider, t: State, r: State)
    requires b < |cfg.pools| == |s.queues| && Supplies(cfg, s, b, version, p, t)
    requires r == s.(tool := r.tool, dirty := r.dirty)
    ensures Supplies(cfg, r, b, version, p, t.(tool := r.tool, dirty := r.dirty))
  {
  }

  // ----- destroy -----

  lemma UnknownIsIgnored(cfg: Config, s: State, id: string)
    requires |s.queues| == |cfg.pools| && s.tool.Ready? && s.cleanup.NotCleaning?
    requires forall w | w in s.workspaces :: w.id != id
    ensures Step(cfg, s, Destroy(id)) == Some(s)
  {
  }

  /** The state while what a workspace held is released. */
  function Releasing1(s: State, b: nat, p: Provider, rest: seq<Provider>): State {
    s.(tool := Releasing(b, p, rest, Looking))
  }

  lemma InTwo(cfg: Config, s: State, a: Action, s1: State, b: Action, s2: State)
    requires |s.queues| == |s1.queues| == |s2.queues| == |cfg.pools|
    requires Step(cfg, s, a) == Some(s1) && Step(cfg, s1, b) == Some(s2)
    ensures Run(cfg, s, [a, b]) == Some(s2)
  {
    hide Step;
    assert [a, b][1..] == [b] && [b][1..] == [];
    assert Run(cfg, s1, [b]) == Run(cfg, s2, []) == Some(s2);
  }

  /** The release of one provider, once the pool is stopped. */
  lemma StoppedRelease(cfg: Config, s: State, b: nat, p: Provider, rest: seq<Provider>)
    requires |s.queues| == |cfg.pools| && b < |cfg.pools| && s.stopped
    ensures Run(cfg, Releasing1(s, b, p, rest), [Lookup(true), Decide])
         == Some(s.(halted := s.halted + [p], tool := StartRelease(b, rest)))
  {
    var s0 := Releasing1(s, b, p, rest);
    InTwo(cfg, s0, Lookup(true), s0.(tool := s0.tool.(release := Deciding)), Decide,
          s.(halted := s.halted + [p], tool := StartRelease(b, rest)));
  }

  lemma Cleared(cfg: Config, s: State, b: nat, p: Provider, rest: seq<Provider>)
    requires |s.queues| == |cfg.pools| && b < |cfg.pools| && !s.stopped
    ensures Run(cfg, Releasing1(s, b, p, rest), [Lookup(true), Decide])
        == Some(s.(tool := Releasing(b, p, rest, Clearing)))
  {
    var s0 := Releasing1(s, b, p, rest);
    InTwo(cfg, s0, Lookup(true), s0.(tool := s0.tool.(release := Deciding)), Decide,
          s.(tool := Releasing(b, p, rest, Clearing)));
  }

  /** Before that, back to the end of its queue, reset; or stopped, if the reset fails. */
  lemma KeptRelease(cfg: Config, s: State, b: nat, p: Provider, rest: seq<Provider>)
    requires |s.queues| == |cfg.pools| && b < |cfg.pools| && !s.stopped
    ensures Run(cfg, Releasing1(s, b, p, rest), [Lookup(true), Decide] + [ReleaseReset(true), ReleaseAppend])
         == Some(s.(queues := s.queues[b := s.queues[b] + [p]], dirty := s.dirty - {p}, tool := StartRelease(b, rest)))
    ensures Run(cfg, Releasing1(s, b, p, rest), [Lookup(true), Decide] + [ReleaseReset(false)])
         == Some(s.(halted := s.halted + [p], tool := StartRelease(b, rest)))
  {
    Cleared(cfg, s, b, p, rest);
    var s2 := s.(tool := Releasing(b, p, rest, Clearing));
    InTwo(cfg, s2, ReleaseReset(true), s2.(dirty := s.dirty - {p}, tool := s2.tool.(release := Appending)),
          ReleaseAppend,
          s.(queues := s.queues[b := s.queues[b] + [p]], dirty := s.dirty - {p}, tool := StartRelease(b, rest)));
    assert Step(cfg, s2, ReleaseReset(false)) == Some(s.(halted := s.halted + [p], tool := StartRelease(b, rest)));
    hide Step;
    RunTwo(cfg, Releasing1(s, b, p, rest), [Lookup(true), Decide], [ReleaseReset(true), ReleaseAppend]);
    RunTwo(cfg, Releasing1(s, b, p, rest), [Lookup(true), Decide], [ReleaseReset(false)]);
    assert [ReleaseReset(false)] + [] == [ReleaseReset(false)];
    RunOne(cfg, s2, ReleaseReset(false), []);
  }

  lemma Popped1(cfg: Config, s: State, k: nat, p: Provider, q: Provider)
    requires |s.queues| == |cfg.pools| && s.tool.Ready? && s.cleanup.NotCleaning? && k < |s.workspaces|
    requires s.workspaces[k].held == [p, q] && forall i | 0 <= i < k :: s.workspaces[i].id != s.workspaces[k].id
    ensures Step(cfg, s, Destroy(s.workspaces[k].id))
         == Some(Releasing1(s.(workspaces := s.workspaces[..k] + s.workspaces[k + 1..]), s.workspaces[k].b, p, [q]))
  {
    FirstOfId(s.workspaces, k);
    assert [p, q][1..] == [q];
  }

  lemma NextRelease(s: State, b: nat, q: Provider)
    ensures s.(tool := StartRelease(b, [q])) == Releasing1(s, b, q, []) && StartRelease(b, []) == Ready
  {
    assert [q][1..] == [];
  }

  /** A destroy takes the first workspace of the id off the list and gives its providers back
      in order: to the end of their queue, reset. */
  lemma DestroyReleases(cfg: Config, s: State, k: nat, p: Provider, q: Provider)
    requires |s.queues| == |cfg.pools| && s.tool.Ready? && s.cleanup.NotCleaning? && k < |s.workspaces| && !s.stopped
    requires s.workspaces[k].b < |cfg.pools| && s.workspaces[k].held == [p, q]
    requires forall i | 0 <= i < k :: s.workspaces[i].id != s.workspaces[k].id
    ensures var w, release := s.workspaces[k], [Lookup(true), Decide] + [ReleaseReset(true), ReleaseAppend];
            Run(cfg, s, [Destroy(w.id)] + (release + release))
            == Some(s.(workspaces := s.workspaces[..k] + s.workspaces[k + 1..], dirty := s.dirty - {p} - {q},
                       queues := s.queues[w.b := s.queues[w.b] + [p, q]]))
  {
    var w, release := s.workspaces[k], [Lookup(true), Decide] + [ReleaseReset(true), ReleaseAppend];
    Popped1(cfg, s, k, p, q);
    hide Step, Run;
    var s0 := s.(workspaces := s.workspaces[..k] + s.workspaces[k + 1..]);
    var s1 := s0.(queues := s.queues[w.b := s.queues[w.b] + [p]], dirty := s.dirty - {p});
    KeptRelease(cfg, s0, w.b, p, [q]);
    NextRelease(s1, w.b, q);
    KeptRelease(cfg, s1, w.b, q, []);
    RunOne(cfg, s, Destroy(w.id), release + release);
    RunTwo(cfg, Releasing1(s0, w.b, p, [q]), release, release);
    assert s.queues[w.b] + [p] + [q] == s.queues[w.b] + [p, q];
    assert s1.queues[w.b := s1.queues[w.b] + [q]] == s.queues[w.b := s.queues[w.b] + [p, q]];
  }

  /** Once the pool is stopped, it stops them. */
  lemma DestroyStops(cfg: Config, s: State, k: nat, p: Provider, q: Provider)
    requires |s.queues| == |cfg.pools| && s.tool.Ready? && s.cleanup.NotCleaning? && k < |s.workspaces| && s.stopped
    requires s.workspaces[k].b < |cfg.pools| && s.workspaces[k].held == [p, q]
    requires forall i | 0 <= i < k :: s.workspaces[i].id != s.workspaces[k].id
    ensures var release := [Lookup(true), Decide];
            Run(cfg, s, [Destroy(s.workspaces[k].id)] + (release + release))
            == Some(s.(workspaces := s.workspaces[..k] + s.workspaces[k + 1..], halted := s.halted + [p, q]))
  {
    var w, release := s.workspaces[k], [Lookup(true), Decide];
    Popped1(cfg, s, k, p, q);
    hide Step, Run;
    var s0 := s.(workspaces := s.workspaces[..k] + s.workspaces[k + 1..]);
    var s1 := s0.(halted := s.halted + [p]);
    StoppedRelease(cfg, s0, w.b, p, [q]);
    NextRelease(s1, w.b, q);
    StoppedRelease(cfg, s1, w.b, q, []);
    RunOne(cfg, s, Destroy(w.id), release + release);
    RunTwo(cfg, Releasing1(s0, w.b, p, [q]), release, release);
    assert s.halted + [p] + [q] == s.halted + [p, q];
  }

  lemma {:induction false} FirstOfId(workspaces: seq<Workspace>, k: nat)
    requires k < |workspaces| && forall i | 0 <= i < k :: workspaces[i].id != workspaces[k].id
    ensures IndexOf(workspaces, workspaces[k].id) == k
  {
    if k > 0 { FirstOfId(workspaces[1..], k - 1); }
  }
}
