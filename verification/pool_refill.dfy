/** What a pass of the refill thread does: it fills every queue up to its target. */
module PoolRefill {
  import opened Ordering
  import opened Pool
  import opened PoolProtocol

  // ----- a pass with no tool step between -----

  predicate FromRefill(a: Action) {
    a.RefillWake? || a.RefillRead? || a.RefillStart? || a.RefillAppend?
  }

  /** Steps of the refill thread within a pass, in which every container comes up. */
  ghost predicate GoesWell(actions: seq<Action>) {
    forall a | a in actions :: a.RefillRead? || a == RefillStart(Up) || a.RefillAppend?
  }

  function Larger(a: int, b: int): int {
    if a < b then b else a
  }

  /** A new provider of the configured version: created in this pass for this queue. */
  ghost predicate New(cfg: Config, s: State, b: nat, p: Provider)
    requires b < |cfg.pools|
  {
    p.backend == b && p.image == cfg.pools[b].repository + ":" + cfg.pools[b].version && p.container >= |s.created|
  }

  /** What was queued, in order, and then new providers only. */
  ghost predicate Extends(cfg: Config, s: State, b: nat, queue: seq<Provider>)
    requires b < |cfg.pools| == |s.queues|
  {
    s.queues[b] <= queue && forall i | |s.queues[b]| <= i < |queue| :: New(cfg, s, b, queue[i])
  }

  ghost predicate Filled(cfg: Config, s: State, b: nat, queue: seq<Provider>)
    requires b < |cfg.pools| == |s.queues|
  {
    Extends(cfg, s, b, queue) && |queue| == Larger(|s.queues[b]|, cfg.pools[b].target)
  }

  /** The queue the pass is at; past the last one when it is over. */
  function At(cfg: Config, r: Refill): nat {
    match r
    case Sleeping => |cfg.pools|
    case Reading(b) => b
    case Owing(b, _) => b
    case Adding(b, _, _) => b
  }

  /** How far a pass that began in `s` has come in `t`. */
  ghost predicate Filling(cfg: Config, s: State, t: State)
    requires |s.queues| == |cfg.pools| == |t.queues|
  {
    var at := At(cfg, t.refill);
    && |t.created| >= |s.created|
    && (forall b | 0 <= b < |cfg.pools| && b < at :: Filled(cfg, s, b, t.queues[b]))
    && (forall b | 0 <= b < |cfg.pools| && b > at :: t.queues[b] == s.queues[b])
    && match t.refill
       case Sleeping => true
       case Reading(b) => b < |cfg.pools| && t.queues[b] == s.queues[b]
       case Owing(b, left) =>
         && b < |cfg.pools| && left > 0 && Extends(cfg, s, b, t.queues[b])
         && |t.queues[b]| + left == cfg.pools[b].target
       case Adding(b, left, p) =>
         && b < |cfg.pools| && left > 0 && Extends(cfg, s, b, t.queues[b]) && New(cfg, s, b, p)
         && |t.queues[b]| + left == cfg.pools[b].target
  }

  lemma ReadFills(cfg: Config, s: State, t: State)
    requires |s.queues| == |cfg.pools| == |t.queues| && Filling(cfg, s, t) && RefillStep(cfg, t, RefillRead).Some?
    ensures Filling(cfg, s, RefillStep(cfg, t, RefillRead).value)
  {
    var b := t.refill.b;
    assert Extends(cfg, s, b, t.queues[b]);
    assert forall c | b < c < |cfg.pools| :: t.queues[c] == s.queues[c];
  }

  lemma AppendFills(cfg: Config, s: State, t: State)
    requires |s.queues| == |cfg.pools| == |t.queues| && Filling(cfg, s, t) && RefillStep(cfg, t, RefillAppend).Some?
    ensures Filling(cfg, s, RefillStep(cfg, t, RefillAppend).value)
  {
    var b, p := t.refill.b, t.refill.p;
    var u := RefillStep(cfg, t, RefillAppend).value;
    assert u.queues[b] == t.queues[b] + [p];
    assert Extends(cfg, s, b, u.queues[b]);
    assert forall c | 0 <= c < |cfg.pools| && c != b :: u.queues[c] == t.queues[c];
  }

  lemma StepFills(cfg: Config, s: State, t: State, a: Action)
    requires |s.queues| == |cfg.pools| == |t.queues| && Filling(cfg, s, t)
    requires GoesWell([a]) && Step(cfg, t, a).Some?
    ensures Filling(cfg, s, Step(cfg, t, a).value)
    ensures var u := Step(cfg, t, a).value;
            u == t.(queues := u.queues, refill := u.refill, created := u.created) && t.created <= u.created
  {
    assert a in [a];
    match a
    case RefillRead => ReadFills(cfg, s, t);
    case RefillAppend => AppendFills(cfg, s, t);
    case RefillStart(end) =>
  }

  lemma {:induction false} RunFills(cfg: Config, s: State, t: State, actions: seq<Action>)
    requires |s.queues| == |cfg.pools| == |t.queues| && Filling(cfg, s, t)
    requires GoesWell(actions) && Run(cfg, t, actions).Some?
    ensures var u := Run(cfg, t, actions).value;
            && Filling(cfg, s, u)
            && u == t.(queues := u.queues, refill := u.refill, created := u.created) && t.created <= u.created
    decreases |actions|
  {
    if actions != [] {
      hide Filling, Step;
      assert forall a | a in [actions[0]] + actions[1..] :: a in actions;
      StepFills(cfg, s, t, actions[0]);
      RunFills(cfg, s, Step(cfg, t, actions[0]).value, actions[1..]);
    }
  }

  /** A pass made of refill steps alone, in which every start succeeds: each queue keeps its
      providers in order, followed by new ones of the configured version, and is then as
      long as it was or as its target, whichever is more. Nothing else changes. */
  lemma PassFills(cfg: Config, s: State, actions: seq<Action>)
    requires |s.queues| == |cfg.pools| && s.refill.Sleeping? && GoesWell(actions)
    requires Run(cfg, s, [RefillWake] + actions).Some? && Run(cfg, s, [RefillWake] + actions).value.refill.Sleeping?
    ensures var t := Run(cfg, s, [RefillWake] + actions).value;
            && t == s.(queues := t.queues, created := t.created) && s.created <= t.created
            && forall b | 0 <= b < |cfg.pools| ::
              && s.queues[b] <= t.queues[b]
              && |t.queues[b]| == Larger(|s.queues[b]|, cfg.pools[b].target)
              && forall i | |s.queues[b]| <= i < |t.queues[b]| ::
                   t.queues[b][i].backend == b
                   && t.queues[b][i].image == cfg.pools[b].repository + ":" + cfg.pools[b].version
                   && t.queues[b][i].container >= |s.created|
  {
    var all := [RefillWake] + actions;
    assert all[0] == RefillWake && all[1..] == actions;
    var woken := Step(cfg, s, RefillWake).value;
    assert Filling(cfg, s, woken);
    hide Step;
    assert Run(cfg, s, all) == Run(cfg, woken, actions);
    RunFills(cfg, s, woken, actions);
    var t := Run(cfg, s, all).value;
    forall b | 0 <= b < |cfg.pools| ensures Filled(cfg, s, b, t.queues[b]) {
    }
  }

  // ----- such a pass can always be made -----

  /** The rest of a pass. */
  lemma {:induction false} RestOfPass(cfg: Config, s: State, t: State) returns (actions: seq<Action>)
    requires |s.queues| == |cfg.pools| == |t.queues| && Filling(cfg, s, t)
    ensures GoesWell(actions) && Run(cfg, t, actions).Some? && Run(cfg, t, actions).value.refill.Sleeping?
    decreases |cfg.pools| - At(cfg, t.refill), if t.refill.Reading? then 1 else 0,
              if t.refill.Owing? then 2 * t.refill.left else if t.refill.Adding? then 2 * t.refill.left - 1 else 0
  {
    if t.refill.Sleeping? {
      actions := [];
    } else {
      var a := match t.refill case Reading(_) => RefillRead case Owing(_, _) => RefillStart(Up) case _ => RefillAppend;
      assert GoesWell([a]);
      StepFills(cfg, s, t, a);
      var u := Step(cfg, t, a).value;
      var rest := RestOfPass(cfg, s, u);
      actions := [a] + rest;
      assert actions[0] == a && actions[1..] == rest;
    }
  }

  lemma PassCanBeMade(cfg: Config, s: State) returns (actions: seq<Action>)
    requires |s.queues| == |cfg.pools| && s.refill.Sleeping? && !s.stopped
    ensures GoesWell(actions) && Run(cfg, s, [RefillWake] + actions).Some?
    ensures Run(cfg, s, [RefillWake] + actions).value.refill.Sleeping?
  {
    var woken := Step(cfg, s, RefillWake).value;
    assert Filling(cfg, s, woken);
    hide Step;
    actions := RestOfPass(cfg, s, woken);
    assert ([RefillWake] + actions)[1..] == actions;
  }

  // ----- with tool steps between -----

  function Starts(actions: seq<Action>): nat {
    if actions == [] then 0 else (if actions[0].RefillStart? then 1 else 0) + Starts(actions[1..])
  }

  function Appends(actions: seq<Action>): nat {
    if actions == [] then 0 else (if actions[0].RefillAppend? then 1 else 0) + Appends(actions[1..])
  }

  /** The pass does not read or wake again, and of its starts none fails but perhaps the
      last. */
  ghost predicate AtOneQueue(actions: seq<Action>) {
    forall a | a in actions :: !a.RefillRead? && !a.RefillWake?
  }

  ghost predicate AllUp(actions: seq<Action>) {
    forall a | a in actions :: a.RefillStart? ==> a.end.Up?
  }

  /** How many providers the pass still has to start for queue `b`, and to append. */
  function ToStart(r: Refill, b: nat): int {
    match r
    case Owing(c, left) => if c == b then left else 0
    case Adding(c, left, _) => if c == b then left - 1 else 0
    case _ => 0
  }

  function ToAppend(r: Refill, b: nat): int {
    match r
    case Owing(c, left) => if c == b then left else 0
    case Adding(c, left, _) => if c == b then left else 0
    case _ => 0
  }

  predicate Busy(cfg: Config, r: Refill, b: nat) {
    match r
    case Owing(c, left) => c == b && left > 0
    case Adding(c, left, _) => c == b && left > 0
    case Reading(c) => c == b + 1
    case Sleeping => b + 1 == |cfg.pools|
  }

  lemma ToolKeepsRefill(cfg: Config, s: State, a: Action)
    requires |s.queues| == |cfg.pools| && !FromRefill(a) && Step(cfg, s, a).Some?
    ensures Step(cfg, s, a).value.refill == s.refill
  {
  }

  lemma OneStep(cfg: Config, s: State, a: Action, b: nat)
    requires |s.queues| == |cfg.pools| && b < |cfg.pools| && Busy(cfg, s.refill, b)
    requires !a.RefillRead? && !a.RefillWake? && Step(cfg, s, a).Some?
    ensures var t := Step(cfg, s, a).value;
            && Busy(cfg, t.refill, b)
            && (a.RefillStart? ==> ToStart(s.refill, b) > 0)
            && (if a.RefillStart? && !a.end.Up? then t.refill == Reach(cfg, b + 1)
                else && ToStart(t.refill, b) == ToStart(s.refill, b) - (if a.RefillStart? then 1 else 0)
                     && ToAppend(t.refill, b) == ToAppend(s.refill, b) - (if a.RefillAppend? then 1 else 0))
  {
    if !FromRefill(a) { ToolKeepsRefill(cfg, s, a); }
  }

  lemma Gone(cfg: Config, b: nat)
    ensures ToStart(Reach(cfg, b + 1), b) == 0 && ToAppend(Reach(cfg, b + 1), b) == 0
  {
  }

  lemma {:induction false} StartsAre(cfg: Config, s: State, b: nat, actions: seq<Action>)
    requires |s.queues| == |cfg.pools| && b < |cfg.pools| && Busy(cfg, s.refill, b)
    requires AtOneQueue(actions) && Run(cfg, s, actions).Some? && Run(cfg, s, actions).value.refill == Reach(cfg, b + 1)
    ensures if AllUp(actions) then Starts(actions) == ToStart(s.refill, b) && Appends(actions) == ToAppend(s.refill, b)
            else Starts(actions) <= ToStart(s.refill, b)
                 && Appends(actions) - Starts(actions) == ToAppend(s.refill, b) - ToStart(s.refill, b) - 1
    decreases |actions|
  {
    Gone(cfg, b);
    if actions != [] {
      var a, rest := actions[0], actions[1..];
      assert a in actions && forall x | x in rest :: x in actions;
      OneStep(cfg, s, a, b);
      hide Step, Busy, ToStart, ToAppend;
      var t := Step(cfg, s, a).value;
      StartsAre(cfg, t, b, rest);
      if AllUp(rest) && (a.RefillStart? ==> a.end.Up?) {
        assert AllUp(actions) by { assert forall x | x in actions :: x == a || x in rest; }
      }
      if !AllUp(rest) { assert !AllUp(actions); }
      if a.RefillStart? && !a.end.Up? {
        assert !AllUp(actions);
        NoneUntilRead(cfg, t, b, rest);
      }
    }
  }

  /** Once the pass has gone on to the next queue it starts nothing before reading that. */
  lemma {:induction false} NoneUntilRead(cfg: Config, s: State, b: nat, actions: seq<Action>)
    requires |s.queues| == |cfg.pools| && s.refill == Reach(cfg, b + 1)
    requires AtOneQueue(actions) && Run(cfg, s, actions).Some?
    ensures Starts(actions) == 0 && Appends(actions) == 0 && AllUp(actions)
    decreases |actions|
  {
    if actions != [] {
      var a, rest := actions[0], actions[1..];
      assert a in actions && forall x | x in rest :: x in actions;
      if !FromRefill(a) { ToolKeepsRefill(cfg, s, a); }
      hide Step;
      assert !FromRefill(a) by { StuckAtReach(cfg, s, b, a); }
      NoneUntilRead(cfg, Step(cfg, s, a).value, b, rest);
      assert forall x | x in actions :: x == a || x in rest;
    }
  }

  lemma StuckAtReach(cfg: Config, s: State, b: nat, a: Action)
    requires |s.queues| == |cfg.pools| && s.refill == Reach(cfg, b + 1)
    requires !a.RefillRead? && !a.RefillWake? && Step(cfg, s, a).Some?
    ensures !FromRefill(a)
  {
  }

  /** Whatever the tools do meanwhile: from reading the length of a queue to the next queue a
      pass starts exactly the target less the length it read, and appends what it starts; and
      the first start that fails is the last for that queue. */
  lemma PassStartsExactly(cfg: Config, s: State, b: nat, actions: seq<Action>)
    requires |s.queues| == |cfg.pools| && b < |cfg.pools| && s.refill == Reading(b) && AtOneQueue(actions)
    requires Run(cfg, s, [RefillRead] + actions).Some?
    requires var r := Run(cfg, s, [RefillRead] + actions).value.refill;
             if b + 1 < |cfg.pools| then r == Reading(b + 1) else r == Sleeping
    ensures var missing := Larger(0, cfg.pools[b].target - |s.queues[b]|);
            if AllUp(actions) then Starts(actions) == missing && Appends(actions) == missing
            else 1 <= Starts(actions) <= missing && Appends(actions) == Starts(actions) - 1
  {
    var all := [RefillRead] + actions;
    assert all[0] == RefillRead && all[1..] == actions;
    var t := Step(cfg, s, RefillRead).value;
    assert Busy(cfg, t.refill, b);
    StartsAre(cfg, t, b, actions);
    if !AllUp(actions) { SomeStart(actions); }
  }

  lemma {:induction false} SomeStart(actions: seq<Action>)
    requires !AllUp(actions)
    ensures Starts(actions) >= 1
  {
    if !actions[0].RefillStart? {
      assert !AllUp(actions[1..]) by {
        var a :| a in actions && a.RefillStart? && !a.end.Up?;
        assert a in actions[1..];
      }
      SomeStart(actions[1..]);
    }
  }
}
