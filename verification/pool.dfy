/** The warm pool's data and the code of its lock sections (mcp_server/pool.py). */
module Pool {
  import opened Ordering

  /** A started container provider. `backend` is the class behind it, `container` the
      identity of the Docker container it started, so two values are equal exactly when
      the source's dataclass comparison says so. */
  datatype Provider = Provider(backend: nat, image: string, container: nat)

  /** One entry of the warm-pool configuration: the image repository a backend starts,
      the number to keep warm (an environment integer, so possibly negative) and the
      version to start. */
  datatype Spec = Spec(repository: string, target: int, version: string)

  /** `stops` tells which providers' stop() succeeds; the pool swallows a failure, and the
      container runs on. */
  datatype Config = Config(pools: seq<Spec>, maxWorkspaces: nat, stops: Provider -> bool)

  function Image(spec: Spec, version: string): string {
    spec.repository + ":" + version
  }

  /** `image.rsplit(":", 1)[-1]` */
  function AfterLastColon(s: string): string {
    if ':' !in s then s else AfterLastColon(s[1..])
  }

  function Version(p: Provider): string {
    AfterLastColon(p.image)
  }

  lemma {:induction false} AfterLastColonSkips(prefix: string, rest: string)
    requires ':' in rest
    ensures AfterLastColon(prefix + rest) == AfterLastColon(rest)
  {
    if prefix == [] {
      assert prefix + rest == rest;
    } else {
      assert ':' in prefix + rest;
      assert (prefix + rest)[1..] == prefix[1..] + rest;
      AfterLastColonSkips(prefix[1..], rest);
    }
  }

  lemma {:induction false} AfterLastColonIsColonFree(s: string)
    ensures ':' !in AfterLastColon(s)
  {
    if ':' in s { AfterLastColonIsColonFree(s[1..]); }
  }

  /** What `rsplit` leaves: the text after the last colon, or all of it if there is none. */
  lemma {:induction false} AfterLastColonIs(s: string)
    ensures ':' !in s ==> AfterLastColon(s) == s
    ensures ':' in s ==> |AfterLastColon(s)| < |s| && s[|s| - |AfterLastColon(s)|..] == AfterLastColon(s)
    ensures ':' in s ==> s[|s| - |AfterLastColon(s)| - 1] == ':'
  {
    if ':' in s { AfterLastColonIs(s[1..]); }
  }

  /** A provider reports the version it was asked for exactly when the tag has no colon. */
  lemma VersionRoundTrip(spec: Spec, version: string, container: nat, backend: nat)
    ensures Version(Provider(backend, Image(spec, version), container)) == version <==> ':' !in version
  {
    AfterLastColonIsColonFree(Image(spec, version));
    AfterLastColonSkips(spec.repository, ":" + version);
    assert spec.repository + (":" + version) == Image(spec, version);
    assert (":" + version)[1..] == version;
  }

  // ----- claim: first match by version, then `deque.remove` -----

  /** Index of the first provider reporting `version`, or the length if none does. */
  function FirstMatch(queue: seq<Provider>, version: string): (k: nat)
    ensures k <= |queue|
    ensures k < |queue| ==> Version(queue[k]) == version
    ensures forall i :: 0 <= i < k ==> Version(queue[i]) != version
  {
    if queue == [] || Version(queue[0]) == version then 0 else 1 + FirstMatch(queue[1..], version)
  }

  /** `queue.remove(provider)`: drop the first element equal to `p`. */
  function RemoveFirst(queue: seq<Provider>, p: Provider): seq<Provider> {
    if queue == [] then []
    else if queue[0] == p then queue[1..]
    else [queue[0]] + RemoveFirst(queue[1..], p)
  }

  lemma {:induction false} RemoveFirstAt(queue: seq<Provider>, k: nat)
    requires k < |queue| && forall i :: 0 <= i < k ==> queue[i] != queue[k]
    ensures RemoveFirst(queue, queue[k]) == WithoutIndex(queue, k)
  {
    if k > 0 {
      var tail := queue[1..];
      RemoveFirstAt(tail, k - 1);
      assert queue[..k] == [queue[0]] + tail[..k - 1];
      assert tail[k..] == queue[k + 1..];
    }
  }

  lemma {:induction false} RemoveFirstAbsent(queue: seq<Provider>, p: Provider)
    requires p !in queue
    ensures RemoveFirst(queue, p) == queue
  {
    if queue != [] { RemoveFirstAbsent(queue[1..], p); }
  }

  /** Removing by equality takes out the very element the search by version found. */
  lemma RemoveTakesTheMatch(queue: seq<Provider>, version: string)
    requires FirstMatch(queue, version) < |queue|
    ensures RemoveFirst(queue, queue[FirstMatch(queue, version)]) == WithoutIndex(queue, FirstMatch(queue, version))
  {
    var k := FirstMatch(queue, version);
    RemoveFirstAt(queue, k);
  }

  /** What the locked section of `claim` hands out, and what it leaves queued. */
  function Taken(queue: seq<Provider>, version: string): (r: Option<Provider>)
    ensures r.Some? ==> r.value in queue && Version(r.value) == version
    ensures r.None? ==> forall p :: p in queue ==> Version(p) != version
  {
    var k := FirstMatch(queue, version);
    if k == |queue| then None else Some(queue[k])
  }

  function Left(queue: seq<Provider>, version: string): (r: seq<Provider>)
    ensures multiset(r) + Held(Taken(queue, version)) == multiset(queue)
  {
    var k := FirstMatch(queue, version);
    if k == |queue| then queue
    else
      WithoutIndexMultiset(queue, k);
      WithoutIndex(queue, k)
  }

  function Held(p: Option<Provider>): multiset<Provider> {
    match p case None => multiset{} case Some(q) => multiset{q}
  }

  function Flatten(queues: seq<seq<Provider>>): seq<Provider> {
    if queues == [] then [] else queues[0] + Flatten(queues[1..])
  }

  function NoneLeft(queues: seq<seq<Provider>>): (r: seq<seq<Provider>>)
    ensures |r| == |queues|
  {
    seq(|queues|, i => [])
  }

  /** The object shared by the tool thread and the refill thread. Each method is the body
      of one lock section; `halted` records the providers whose stop() was called. */
  class ContainerPool {
    var queues: seq<seq<Provider>>
    var stopped: bool
    ghost var halted: seq<Provider>

    constructor (cfg: Config)
      ensures queues == NoneLeft(seq(|cfg.pools|, i => [])) && !stopped && halted == []
    {
      queues := seq(|cfg.pools|, i => []);
      stopped := false;
      halted := [];
    }

    /** The section of `claim`: search, then remove what was found. */
    method Take(b: nat, version: string) returns (found: Option<Provider>)
      modifies this`queues
      ensures b >= |old(queues)| ==> found == None && queues == old(queues)
      ensures b < |old(queues)| ==>
                && found == Taken(old(queues)[b], version)
                && queues == old(queues)[b := Left(old(queues)[b], version)]
    {
      found := None;
      if b >= |queues| {
        return;
      }
      var queue := queues[b];
      var i := 0;
      while i < |queue|
        invariant 0 <= i <= |queue|
        invariant FirstMatch(queue, version) == i + FirstMatch(queue[i..], version)
      {
        if Version(queue[i]) == version {
          found := Some(queue[i]);
          RemoveTakesTheMatch(queue, version);
          var rest := Remove(queue, queue[i]);
          queues := queues[b := rest];
          return;
        }
        assert queue[i..][1..] == queue[i + 1..];
        i := i + 1;
      }
    }

    /** The loop behind `deque.remove`. */
    static method Remove(queue: seq<Provider>, p: Provider) returns (rest: seq<Provider>)
      ensures rest == RemoveFirst(queue, p)
    {
      var i := 0;
      while i < |queue| && queue[i] != p
        invariant 0 <= i <= |queue|
        invariant forall j :: 0 <= j < i ==> queue[j] != p
      {
        i := i + 1;
      }
      if i < |queue| {
        RemoveFirstAt(queue, i);
        rest := queue[..i] + queue[i + 1..];
      } else {
        RemoveFirstAbsent(queue, p);
        rest := queue;
      }
    }

    /** The section shared by `_top_up` and `release`. */
    method Append(b: nat, p: Provider)
      requires b < |queues|
      modifies this`queues
      ensures queues == old(queues)[b := old(queues)[b] + [p]]
    {
      queues := queues[b := queues[b] + [p]];
    }

    /** The section of `stop`: pop from the left and stop, queue after queue. */
    method Drain()
      modifies this`queues, this`halted
      ensures queues == NoneLeft(old(queues))
      ensures halted == old(halted) + Flatten(old(queues))
    {
      var b := 0;
      while b < |queues|
        invariant 0 <= b <= |queues| == |old(queues)|
        invariant forall i :: 0 <= i < b ==> queues[i] == []
        invariant forall i :: b <= i < |queues| ==> queues[i] == old(queues)[i]
        invariant old(halted) + Flatten(old(queues)) == halted + Flatten(old(queues)[b..])
      {
        ghost var before := halted;
        while queues[b] != []
          invariant |queues| == |old(queues)|
          invariant forall i :: 0 <= i < b ==> queues[i] == []
          invariant forall i :: b < i < |queues| ==> queues[i] == old(queues)[i]
          invariant halted + queues[b] == before + old(queues)[b]
          decreases |queues[b]|
        {
          var provider := queues[b][0];
          halted := halted + [provider];
          queues := queues[b := queues[b][1..]];
        }
        assert old(queues)[b..][1..] == old(queues)[b + 1..];
        assert halted == before + old(queues)[b];
        assert halted + Flatten(old(queues)[b + 1..]) == before + (old(queues)[b] + Flatten(old(queues)[b + 1..]));
        b := b + 1;
      }
      assert old(queues)[b..] == [];
      assert halted + [] == halted;
    }
  }
}
