/** Starting and stopping a two-node ClickHouse cluster, with a failure possible at every
    call (infrastructure/providers/clickhouse_cluster.py). */
module Cluster {
  import opened Ordering

  /** The calls of `_start_keeper` and `_start_nodes` that can raise. */
  datatype Call =
    | MakeDir | WriteKeeper | StartKeeper | ConnectKeeper | WaitKeeper
    | WriteNode | StartNode | ConnectNode | ReadPort | WaitNode

  const SCRIPT: seq<Call> :=
    [MakeDir, WriteKeeper, StartKeeper, ConnectKeeper, WaitKeeper,
     WriteNode, StartNode, ConnectNode, ReadPort,
     WriteNode, StartNode, ConnectNode, ReadPort,
     WaitNode, WaitNode]

  /** Which calls fail during one start or stop, and the port each container is given. */
  datatype Oracle = Oracle(networkFails: bool, fails: nat -> bool, cleanupFails: bool, urlFails: bool, port: nat -> nat)

  /** The provider's five fields; `held`, the container a node loop has started and not yet
      recorded; and Docker's side: how many networks and containers were made (they are
      numbered from 0) and which had a removal or stop attempted. */
  datatype State = State(network: Option<nat>, keeper: Option<nat>, nodes: seq<nat>, ports: seq<nat>, dir: bool,
                         held: Option<nat>, networks: nat, containers: nat, removed: set<nat>, stopped: set<nat>)

  const INITIAL: State := State(None, None, [], [], false, None, 0, 0, {}, {})

  datatype Outcome = Outcome(st: State, raised: bool)

  function Effect(st: State, o: Oracle, c: Call): State {
    match c
    case MakeDir => st.(dir := true)
    case StartKeeper => st.(keeper := Some(st.containers), containers := st.containers + 1)
    case StartNode => st.(held := Some(st.containers), containers := st.containers + 1)
    case ConnectNode => (match st.held case Some(n) => st.(nodes := st.nodes + [n], held := None) case None => st)
    case ReadPort => if st.nodes == [] then st else st.(ports := st.ports + [o.port(st.nodes[|st.nodes| - 1])])
    case _ => st
  }

  function After(st: State, o: Oracle, k: nat): State
    requires k <= |SCRIPT|
  {
    if k == 0 then st else Effect(After(st, o, k - 1), o, SCRIPT[k - 1])
  }

  function FirstFailure(o: Oracle, i: nat): (f: nat)
    requires i <= |SCRIPT|
    ensures i <= f <= |SCRIPT|
    ensures f < |SCRIPT| ==> o.fails(f)
    ensures forall j | i <= j < f :: !o.fails(j)
    decreases |SCRIPT| - i
  {
    if i == |SCRIPT| || o.fails(i) then i else FirstFailure(o, i + 1)
  }

  function Only(x: Option<nat>): set<nat> {
    match x case None => {} case Some(n) => {n}
  }

  function Elements(s: seq<nat>): set<nat> {
    set n | n in s
  }

  function Stopped(st: State, o: Oracle): Outcome {
    var cleared := st.(network := None, keeper := None, nodes := [], ports := [],
                       stopped := st.stopped + Elements(st.nodes) + Only(st.keeper),
                       removed := st.removed + Only(st.network));
    Outcome(cleared.(dir := st.dir && o.cleanupFails), st.dir && o.cleanupFails)
  }

  function Networked(st: State): State {
    st.(network := Some(st.networks), networks := st.networks + 1)
  }

  function Started(st: State, o: Oracle): Outcome {
    if st.nodes != [] then Outcome(st, o.urlFails)
    else if o.networkFails then Outcome(st, true)
    else
      var f := FirstFailure(o, 0);
      if f < |SCRIPT| then Outcome(Stopped(After(Networked(st), o, f).(held := None), o).st, true)
      else Outcome(After(Networked(st), o, |SCRIPT|), o.urlFails)
  }

  datatype Op = Start(o: Oracle) | Stop(o: Oracle)

  function Step(st: State, op: Op): Outcome {
    match op case Start(o) => Started(st, o) case Stop(o) => Stopped(st, o)
  }

  function Run(st: State, ops: seq<Op>): State {
    if ops == [] then st else Step(Run(st, ops[..|ops| - 1]), ops[|ops| - 1]).st
  }

  // ----- how far a start got -----

  function One(b: bool): nat {
    if b then 1 else 0
  }

  /** Down: no network, keeper, node or port. A configuration directory can be left over. */
  predicate Down(st: State) {
    st.network.None? && st.keeper.None? && st.nodes == [] && st.ports == [] && st.held.None?
  }

  predicate Up(st: State) {
    && st.network.Some? && st.keeper.Some? && st.dir && |st.nodes| == 2 && |st.ports| == 2 && st.held.None?
    && st.nodes[0] != st.nodes[1] && st.keeper.value !in st.nodes
  }

  /** What is in place before call `k`, when the start began with the fields empty and `c`
      containers made. */
  predicate Reached(st: State, o: Oracle, c: nat, dir: bool, k: nat) {
    && st.dir == (dir || k >= 1)
    && st.keeper == (if k >= 3 then Some(c) else None)
    && st.nodes == (if k >= 12 then [c + 1, c + 2] else if k >= 8 then [c + 1] else [])
    && st.ports == (if k >= 13 then [o.port(c + 1), o.port(c + 2)] else if k >= 9 then [o.port(c + 1)] else [])
    && st.held == (if k == 7 then Some(c + 1) else if k == 11 then Some(c + 2) else None)
    && st.containers == c + One(k >= 3) + One(k >= 7) + One(k >= 11)
  }

  lemma EffectReaches(st: State, o: Oracle, c: nat, dir: bool, k: nat)
    requires k < |SCRIPT| && Reached(st, o, c, dir, k)
    ensures Reached(Effect(st, o, SCRIPT[k]), o, c, dir, k + 1)
  {
  }

  lemma EffectKeeps(st: State, o: Oracle, c: Call)
    ensures Effect(st, o, c).network == st.network && Effect(st, o, c).networks == st.networks
    ensures Effect(st, o, c).stopped == st.stopped && Effect(st, o, c).removed == st.removed
  {
  }

  lemma {:induction false} AfterReaches(st: State, o: Oracle, k: nat)
    requires k <= |SCRIPT| && st.keeper.None? && st.nodes == [] && st.ports == [] && st.held.None?
    ensures Reached(After(st, o, k), o, st.containers, st.dir, k)
    ensures After(st, o, k).network == st.network && After(st, o, k).networks == st.networks
    ensures After(st, o, k).stopped == st.stopped && After(st, o, k).removed == st.removed
  {
    if k > 0 {
      hide Reached, After;
      NextCall(st, o, k - 1);
      EffectKeeps(After(st, o, k - 1), o, SCRIPT[k - 1]);
      hide Effect;
      AfterReaches(st, o, k - 1);
      EffectReaches(After(st, o, k - 1), o, st.containers, st.dir, k - 1);
    } else {
      assert After(st, o, 0) == st;
    }
  }

  // ----- all or nothing -----

  /** A start begun with everything down ends with everything up or everything down: up
      exactly when no call inside it failed, whatever `url` does afterwards. */
  lemma StartIsAllOrNothing(st: State, o: Oracle)
    requires Down(st)
    ensures Up(Started(st, o).st) <==> !o.networkFails && forall k | 0 <= k < |SCRIPT| :: !o.fails(k)
    ensures !Up(Started(st, o).st) ==> Down(Started(st, o).st) && Started(st, o).raised
    ensures Up(Started(st, o).st) ==> (Started(st, o).raised <==> o.urlFails)
    ensures Started(st, o).st.dir
       <==> if o.networkFails then st.dir
            else Up(Started(st, o).st) || ((st.dir || !o.fails(0)) && o.cleanupFails)
  {
    hide After;
    var f := FirstFailure(o, 0);
    AfterReaches(Networked(st), o, f);
  }

  /** Stopping brings everything down; the directory stays exactly when its removal fails,
      and then `stop` raises. */
  lemma StopIsTotal(st: State, o: Oracle)
    requires Down(st) || Up(st)
    ensures Down(Stopped(st, o).st)
    ensures Stopped(st, o).st.dir <==> Stopped(st, o).raised
    ensures Stopped(st, o).raised <==> st.dir && o.cleanupFails
  {
  }

  predicate CleanupWorks(ops: seq<Op>) {
    forall i | 0 <= i < |ops| :: !ops[i].o.cleanupFails
  }

  /** The five fields as the constructor leaves them. */
  predicate Untouched(st: State) {
    Down(st) && !st.dir
  }

  /** After every sequence of starts and stops the cluster is fully up or fully down; and
      in its initial state whenever it is down, if directories can be removed. */
  lemma {:induction false} AlwaysUpOrDown(ops: seq<Op>)
    ensures Up(Run(INITIAL, ops)) || Down(Run(INITIAL, ops))
    ensures CleanupWorks(ops) ==> Up(Run(INITIAL, ops)) || Untouched(Run(INITIAL, ops))
  {
    if ops != [] {
      hide Started, Stopped, Up, Down;
      var before, op := ops[..|ops| - 1], ops[|ops| - 1];
      AlwaysUpOrDown(before);
      var st := Run(INITIAL, before);
      match op {
        case Start(o) =>
          if Down(st) { StartIsAllOrNothing(st, o); } else { StartedAlready(st, o); }
        case Stop(o) => StopIsTotal(st, o);
      }
    }
  }

  lemma StartedAlready(st: State, o: Oracle)
    requires Up(st)
    ensures Started(st, o).st == st
  {
  }

  // ----- containers -----

  function Recorded(st: State): set<nat> {
    Elements(st.nodes) + Only(st.keeper)
  }

  /** Containers made that the provider does not record and never tried to stop. */
  function Leaked(st: State): set<nat> {
    set n: nat | n < st.containers && n !in st.stopped && n !in Recorded(st)
  }

  /** The first call to fail is joining a node to the network: its container runs, and only
      a local variable knew it. */
  predicate LosesNode(st: State, op: Op) {
    op.Start? && st.nodes == [] && !op.o.networkFails && (FirstFailure(op.o, 0) == 7 || FirstFailure(op.o, 0) == 11)
  }

  ghost predicate Numbered(st: State) {
    && (forall n | n in st.stopped :: n < st.containers)
    && (forall n | n in Recorded(st) :: n < st.containers)
  }

  lemma StopLeaks(st: State, o: Oracle)
    ensures Leaked(Stopped(st, o).st) == Leaked(st)
    ensures Numbered(st) ==> Numbered(Stopped(st, o).st)
  {
    var after := Stopped(st, o).st;
    assert Recorded(after) == {};
    assert after.stopped == st.stopped + Recorded(st);
  }

  lemma StartLeaks(st: State, o: Oracle)
    requires Down(st) && Numbered(st)
    ensures Numbered(Started(st, o).st)
    ensures Leaked(Started(st, o).st) == Leaked(st) +
      if !LosesNode(st, Start(o)) then {}
      else if FirstFailure(o, 0) == 7 then {st.containers + 1} else {st.containers + 2}
  {
    hide After, Leaked;
    var f := FirstFailure(o, 0);
    var mid := After(Networked(st), o, f);
    AfterReaches(Networked(st), o, f);
    if !o.networkFails {
      if f < |SCRIPT| {
        FailedLeaks(st, mid.(held := None), o, f);
        StopLeaks(mid.(held := None), o);
      } else {
        FailedLeaks(st, mid, o, f);
      }
    }
  }

  lemma FailedLeaks(st: State, mid: State, o: Oracle, f: nat)
    requires Down(st) && Numbered(st) && f <= |SCRIPT|
    requires mid.stopped == st.stopped
    requires Reached(mid.(held := if f == 7 then Some(st.containers + 1)
                                  else if f == 11 then Some(st.containers + 2) else None),
                     o, st.containers, st.dir, f)
    ensures Numbered(mid)
    ensures Leaked(mid) == Leaked(st) +
      if f == 7 then {st.containers + 1} else if f == 11 then {st.containers + 2} else {}
  {
    var c := st.containers;
    forall n: nat
      ensures n in Leaked(mid) <==> n in Leaked(st) || (f == 7 && n == c + 1) || (f == 11 && n == c + 2)
    {
      assert n in Elements(mid.nodes) <==> (f >= 8 && n == c + 1) || (f >= 12 && n == c + 2);
    }
  }

  function Losses(ops: seq<Op>): nat {
    if ops == [] then 0
    else Losses(ops[..|ops| - 1]) + One(LosesNode(Run(INITIAL, ops[..|ops| - 1]), ops[|ops| - 1]))
  }

  lemma {:induction false} LeakBound(ops: seq<Op>)
    ensures Numbered(Run(INITIAL, ops))
    ensures |Leaked(Run(INITIAL, ops))| == Losses(ops)
  {
    if ops == [] {
      assert Leaked(INITIAL) == {};
    } else {
      hide Started, Stopped, Numbered, LosesNode, Up, Down, Leaked;
      var before, op := ops[..|ops| - 1], ops[|ops| - 1];
      var st := Run(INITIAL, before);
      LeakBound(before);
      AlwaysUpOrDown(before);
      assert !LosesNode(st, op) || (op.Start? && Down(st)) by { OnlyDownLoses(st, op); }
      match op {
        case Stop(o) => StopLeaks(st, o);
        case Start(o) =>
          if Down(st) {
            StartLeaks(st, o);
            NotYetLeaked(st);
          } else {
            StartedAlready(st, o);
          }
      }
    }
  }

  lemma OnlyDownLoses(st: State, op: Op)
    requires Up(st) || Down(st)
    ensures !LosesNode(st, op) || (op.Start? && Down(st))
  {
  }

  lemma NotYetLeaked(st: State)
    ensures st.containers + 1 !in Leaked(st) && st.containers + 2 !in Leaked(st)
  {
  }

  /** Over every sequence of starts and stops, every container is recorded or has had its
      stop attempted, exactly when no start failed at joining a node to the network; each
      start that does so leaves one container running that nothing will stop. */
  lemma EveryContainerAccountedExactlyWhen(ops: seq<Op>)
    ensures var st := Run(INITIAL, ops);
            (forall n: nat | n < st.containers :: n in st.stopped || n in Recorded(st)) <==> Losses(ops) == 0
  {
    hide Run, Losses, Recorded;
    var st := Run(INITIAL, ops);
    LeakBound(ops);
    if Losses(ops) == 0 {
      assert Leaked(st) == {};
      forall n: nat | n < st.containers ensures n in st.stopped || n in Recorded(st) {
        assert n !in Leaked(st);
      }
    } else {
      assert Leaked(st) != {};
      var n :| n in Leaked(st);
    }
  }

  /** A stop, after any sequence of starts and stops, however they failed: the cluster is
      down; every container the provider knew has had its stop attempted, so what still runs
      untried is what joining failures lost; the network's removal was attempted; and a
      second stop finds nothing left to try but the directory. */
  lemma StopAfterAnyRun(ops: seq<Op>, o: Oracle, again: Oracle)
    ensures var before, st := Run(INITIAL, ops), Run(INITIAL, ops + [Stop(o)]);
            && Down(st) && (st.dir <==> before.dir && o.cleanupFails)
            && Recorded(before) <= st.stopped && Only(before.network) <= st.removed && Leaked(st) == Leaked(before)
            && |Leaked(st)| == Losses(ops)
            && Stopped(st, again) == Outcome(st.(dir := st.dir && again.cleanupFails), st.dir && again.cleanupFails)
  {
    hide Losses, Leaked;
    var before := Run(INITIAL, ops);
    assert (ops + [Stop(o)])[..|ops|] == ops;
    assert Run(INITIAL, ops + [Stop(o)]) == Stopped(before, o).st;
    AlwaysUpOrDown(ops);
    LeakBound(ops);
    StopIsTotal(before, o);
    StopLeaks(before, o);
    var st := Stopped(before, o).st;
    assert st.stopped + {} == st.stopped && Elements([]) == {} && st.removed + {} == st.removed;
  }

  // ----- the source's own form -----

  class ClusterProvider {
    var network: Option<nat>
    var keeper: Option<nat>
    var nodes: seq<nat>
    var ports: seq<nat>
    var dir: bool
    // Docker's side of the calls below.
    var networks: nat
    var containers: nat
    var removed: set<nat>
    var stopped: set<nat>

    constructor ()
      ensures Fields(None) == INITIAL
    {
      network, keeper, nodes, ports, dir := None, None, [], [], false;
      networks, containers, removed, stopped := 0, 0, {}, {};
    }

    function Fields(held: Option<nat>): State
      reads this
    {
      State(network, keeper, nodes, ports, dir, held, networks, containers, removed, stopped)
    }

    method StartContainer() returns (c: nat)
      modifies this`containers
      ensures c == old(containers) && containers == old(containers) + 1
    {
      c := containers;
      containers := containers + 1;
    }

    method StartKeeperNode(o: Oracle, ghost from: State) returns (failed: bool)
      requires Fields(None) == from
      modifies this
      ensures !failed ==> (forall j | 0 <= j < 5 :: !o.fails(j)) && Fields(None) == After(from, o, 5)
      ensures failed ==> FirstFailure(o, 0) < 5 && Fields(None) == After(from, o, FirstFailure(o, 0))
    {
      hide FirstFailure, After;
      KeeperCalls(from, o);
      if o.fails(0) { FailsAt(from, o, 0); return true; }
      dir := true;
      if o.fails(1) { FailsAt(from, o, 1); return true; }
      if o.fails(2) { FailsAt(from, o, 2); return true; }
      var c := StartContainer();
      keeper := Some(c);
      if o.fails(3) { FailsAt(from, o, 3); return true; }
      failed := o.fails(4);
      if failed { FailsAt(from, o, 4); }
    }

    /** One turn of the node loop; `k` is the number of its first call. */
    method StartOneNode(o: Oracle, k: nat, ghost from: State) returns (failed: bool)
      requires k == 5 || k == 9
      requires from.keeper.None? && from.nodes == [] && from.ports == [] && from.held.None?
      requires (forall j | 0 <= j < k :: !o.fails(j)) && Fields(None) == After(from, o, k)
      modifies this
      ensures !failed ==> (forall j | 0 <= j < k + 4 :: !o.fails(j)) && Fields(None) == After(from, o, k + 4)
      ensures failed ==>
        FirstFailure(o, 0) < |SCRIPT| && Fields(None) == After(from, o, FirstFailure(o, 0)).(held := None)
    {
      hide After, FirstFailure;
      OneNode(from, o, k);
      if o.fails(k) { FailsAt(from, o, k); return true; }
      if o.fails(k + 1) { FailsAt(from, o, k + 1); return true; }
      var container := StartContainer();
      if o.fails(k + 2) { FailsAt(from, o, k + 2); return true; }
      nodes := nodes + [container];
      if o.fails(k + 3) { FailsAt(from, o, k + 3); return true; }
      ports := ports + [o.port(container)];
      failed := false;
    }

    method StartNodes(o: Oracle, ghost from: State) returns (failed: bool)
      requires forall j | 0 <= j < 5 :: !o.fails(j)
      requires Fields(None) == After(from, o, 5) && from.nodes == []
      requires from.keeper.None? && from.ports == [] && from.held.None?
      modifies this
      ensures !failed ==> (forall j | 0 <= j < |SCRIPT| :: !o.fails(j)) && Fields(None) == After(from, o, |SCRIPT|)
      ensures failed ==>
        FirstFailure(o, 0) < |SCRIPT| && Fields(None) == After(from, o, FirstFailure(o, 0)).(held := None)
    {
      hide After, FirstFailure;
      var index := 0;
      while index < 2
        invariant 0 <= index <= 2
        invariant forall j | 0 <= j < 5 + 4 * index :: !o.fails(j)
        invariant Fields(None) == After(from, o, 5 + 4 * index)
      {
        failed := StartOneNode(o, 5 + 4 * index, from);
        if failed {
          return;
        }
        index := index + 1;
      }
      failed := WaitForNodes(o, from);
    }

    method WaitForNodes(o: Oracle, ghost from: State) returns (failed: bool)
      requires forall j | 0 <= j < 13 :: !o.fails(j)
      requires Fields(None) == After(from, o, 13) && from.nodes == []
      requires from.keeper.None? && from.ports == [] && from.held.None?
      ensures !failed ==> (forall j | 0 <= j < |SCRIPT| :: !o.fails(j)) && Fields(None) == After(from, o, |SCRIPT|)
      ensures failed ==>
        FirstFailure(o, 0) < |SCRIPT| && Fields(None) == After(from, o, FirstFailure(o, 0)).(held := None)
    {
      hide After, FirstFailure;
      AfterReaches(from, o, 13);
      var node := 0;
      while node < |nodes|
        invariant 0 <= node <= |nodes| == 2
        invariant forall j | 0 <= j < 13 + node :: !o.fails(j)
        invariant Fields(None) == After(from, o, 13 + node)
      {
        NextCall(from, o, 13 + node);
        if o.fails(13 + node) {
          FailsAt(from, o, 13 + node);
          return true;
        }
        node := node + 1;
      }
      failed := false;
    }

    /** A node whose stop raises counts as tried. */
    method StopNodes()
      modifies this`stopped
      ensures stopped == old(stopped) + Elements(nodes)
    {
      hide Elements;
      var i := 0;
      NoElements();
      while i < |nodes|
        invariant 0 <= i <= |nodes|
        invariant stopped == old(stopped) + Elements(nodes[..i])
      {
        OneElement(nodes, i);
        stopped := stopped + {nodes[i]};
        i := i + 1;
      }
      assert nodes[..i] == nodes;
    }

    method Stop(o: Oracle) returns (raised: bool)
      modifies this
      ensures Outcome(Fields(None), raised) == Stopped(old(Fields(None)), o)
    {
      hide Elements;
      StopNodes();
      nodes := [];
      ports := [];
      if keeper.Some? {
        stopped := stopped + {keeper.value};
        keeper := None;
      }
      if network.Some? {
        removed := removed + {network.value};
        network := None;
      }
      if dir {
        if o.cleanupFails {
          return true;
        }
        dir := false;
      }
      raised := false;
    }

    method Start(o: Oracle) returns (raised: bool)
      requires nodes == [] ==> Down(Fields(None))
      modifies this
      ensures Outcome(Fields(None), raised) == Started(old(Fields(None)), o)
    {
      hide After, FirstFailure, Stopped;
      if nodes != [] {
        return o.urlFails;
      }
      if o.networkFails {
        return true;
      }
      network := Some(networks);
      networks := networks + 1;
      ghost var from := Fields(None);
      assert from == Networked(old(Fields(None)));
      var failed := StartKeeperNode(o, from);
      if failed {
        AfterReaches(from, o, FirstFailure(o, 0));
        assert Fields(None) == After(from, o, FirstFailure(o, 0)).(held := None);
      } else {
        failed := StartNodes(o, from);
      }
      if failed {
        var ignored := Stop(o);
        return true;
      }
      NoFailure(o);
      raised := o.urlFails;
    }
  }

  lemma NoElements()
    ensures Elements([]) == {}
  {
  }

  lemma OneElement(s: seq<nat>, i: nat)
    requires i < |s|
    ensures Elements(s[..i + 1]) == Elements(s[..i]) + {s[i]}
  {
    assert s[..i + 1] == s[..i] + [s[i]];
  }

  lemma NextCall(from: State, o: Oracle, k: nat)
    requires k < |SCRIPT|
    ensures After(from, o, k + 1) == Effect(After(from, o, k), o, SCRIPT[k])
  {
  }

  lemma FailsAt(from: State, o: Oracle, k: nat)
    requires k < |SCRIPT| && o.fails(k) && forall j | 0 <= j < k :: !o.fails(j)
    ensures FirstFailure(o, 0) == k
  {
  }

  lemma NoFailure(o: Oracle)
    requires forall j | 0 <= j < |SCRIPT| :: !o.fails(j)
    ensures FirstFailure(o, 0) == |SCRIPT|
  {
  }

  lemma KeeperCalls(from: State, o: Oracle)
    ensures After(from, o, 0) == from && After(from, o, 1) == from.(dir := true)
    ensures After(from, o, 2) == from.(dir := true)
    ensures var up := from.(dir := true, keeper := Some(from.containers), containers := from.containers + 1);
            After(from, o, 3) == up && After(from, o, 4) == up && After(from, o, 5) == up
  {
    hide After;
    Nothing(from, o);
    NextCall(from, o, 0);
    NextCall(from, o, 1);
    NextCall(from, o, 2);
    NextCall(from, o, 3);
    NextCall(from, o, 4);
  }

  lemma Nothing(from: State, o: Oracle)
    ensures After(from, o, 0) == from
  {
  }

  /** The four calls of one turn of the node loop. */
  lemma OneNode(from: State, o: Oracle, k: nat)
    requires k == 5 || k == 9
    requires from.keeper.None? && from.nodes == [] && from.ports == [] && from.held.None?
    ensures var st, c := After(from, o, k), After(from, o, k).containers;
            && st.held == None
            && After(from, o, k + 1) == st
            && After(from, o, k + 2) == st.(held := Some(c), containers := c + 1)
            && After(from, o, k + 3) == st.(nodes := st.nodes + [c], containers := c + 1)
            && After(from, o, k + 4)
            == st.(nodes := st.nodes + [c], containers := c + 1, ports := st.ports + [o.port(c)])
  {
    hide After;
    AfterReaches(from, o, k);
    NextCall(from, o, k);
    NextCall(from, o, k + 1);
    NextCall(from, o, k + 2);
    NextCall(from, o, k + 3);
  }
}
