/** A load balancer: a FIFO queue of requests drained by a fixed pool of
    web servers, one dispatch pass and one tick of every server per cycle. */
module Balancing {
  import opened Requests
  import opened Configs
  import opened Servers

  function Max(a: int, b: int): int {
    if a >= b then a else b
  }

  function Min(a: int, b: int): int {
    if a <= b then a else b
  }

  /** `a` is what remains of `b` after removing some of its front. */
  predicate IsSuffix(a: seq<Request>, b: seq<Request>) {
    |a| <= |b| && a == b[|b| - |a|..]
  }

  lemma SuffixTransitive(a: seq<Request>, b: seq<Request>, c: seq<Request>)
    requires IsSuffix(a, b) && IsSuffix(b, c)
    ensures IsSuffix(a, c)
  {
    assert c[|c| - |b|..][|b| - |a|..] == c[|c| - |a|..];
  }

  predicate AllConsistent(ss: seq<ServerState>) {
    forall i :: 0 <= i < |ss| ==> Consistent(ss[i])
  }

  /** The number of idle servers among those with index in [lo, hi). */
  function IdleBetween(ss: seq<ServerState>, lo: nat, hi: nat): (n: nat)
    requires lo <= hi <= |ss|
    ensures n <= hi - lo
    decreases hi - lo
  {
    if lo == hi then 0 else (if ss[lo].busy then 0 else 1) + IdleBetween(ss, lo + 1, hi)
  }

  /** The requests the factory makes first, in the order it makes them. */
  function Generated(count: int, make: nat -> Request): (rs: seq<Request>)
    ensures |rs| == Max(count, 0)
    ensures forall i :: 0 <= i < |rs| ==> rs[i] == make(i)
  {
    seq(Max(count, 0), i requires 0 <= i => make(i))
  }

  /** The dispatch pass from server `k` on: walk the servers in index
      order, stop as soon as the queue is empty, and give each idle server
      the request at the front. The result is the new states of servers
      k, k+1, ... and what is left of the queue. */
  function DispatchFrom(ss: seq<ServerState>, k: nat, q: seq<Request>): (res: (seq<ServerState>, seq<Request>))
    requires k <= |ss|
    ensures |res.0| == |ss| - k
    ensures |res.1| <= |q|
    decreases |ss| - k
  {
    if k == |ss| || |q| == 0 then (ss[k..], q)
    else if !ss[k].busy then
      var rest := DispatchFrom(ss, k + 1, q[1..]);
      ([AssignState(ss[k], q[0]).1] + rest.0, rest.1)
    else
      var rest := DispatchFrom(ss, k + 1, q);
      ([ss[k]] + rest.0, rest.1)
  }

  /** One dispatch pass over the whole pool. */
  function Dispatch(ss: seq<ServerState>, q: seq<Request>): (res: (seq<ServerState>, seq<Request>))
    ensures |res.0| == |ss|
  {
    DispatchFrom(ss, 0, q)
  }

  /** Every server ticked exactly once. */
  function TickAll(ss: seq<ServerState>): (ts: seq<ServerState>)
    ensures |ts| == |ss|
  {
    if |ss| == 0 then [] else [TickState(ss[0])] + TickAll(ss[1..])
  }

  /** Ticking the pool ticks each server on its own. */
  lemma {:induction false} TickAllEach(ss: seq<ServerState>)
    ensures forall i :: 0 <= i < |ss| ==> TickAll(ss)[i] == TickState(ss[i])
  {
    if |ss| > 0 {
      TickAllEach(ss[1..]);
    }
  }

  /** One cycle of a run: dispatch first, then tick. */
  function Cycle(ss: seq<ServerState>, q: seq<Request>): (res: (seq<ServerState>, seq<Request>))
    ensures |res.0| == |ss|
    ensures |res.1| <= |q|
  {
    var d := Dispatch(ss, q);
    (TickAll(d.0), d.1)
  }

  /** `n` cycles of a run. */
  function RunCycles(ss: seq<ServerState>, q: seq<Request>, n: int): (res: (seq<ServerState>, seq<Request>))
    ensures |res.0| == |ss|
    ensures |res.1| <= |q|
    decreases n
  {
    if n <= 0 then (ss, q)
    else
      var prev := RunCycles(ss, q, n - 1);
      Cycle(prev.0, prev.1)
  }

  // ---------------------------------------------------------------
  // Properties of the dispatch pass and of a run
  // ---------------------------------------------------------------

  /** A dispatch pass takes min(queue length, idle servers) requests from
      the front of the queue and leaves the rest in order. */
  lemma {:induction false} DispatchQueue(ss: seq<ServerState>, k: nat, q: seq<Request>)
    requires k <= |ss|
    ensures DispatchFrom(ss, k, q).1 == q[Min(|q|, IdleBetween(ss, k, |ss|))..]
    decreases |ss| - k
  {
    if k < |ss| && |q| > 0 {
      if !ss[k].busy {
        DispatchQueue(ss, k + 1, q[1..]);
        assert q[1..][Min(|q| - 1, IdleBetween(ss, k + 1, |ss|))..] == q[Min(|q|, IdleBetween(ss, k, |ss|))..];
      } else {
        DispatchQueue(ss, k + 1, q);
      }
    }
  }

  /** What a dispatch pass from server `k` on does to server `i`. */
  lemma {:induction false} DispatchFromFifo(ss: seq<ServerState>, k: nat, q: seq<Request>, i: nat)
    requires k <= i < |ss|
    ensures var out := DispatchFrom(ss, k, q).0;
      var before := IdleBetween(ss, k, i);
      if !ss[i].busy && before < |q| then
        out[i - k] == AssignState(ss[i], q[before]).1
      else
        out[i - k] == ss[i]
    decreases |ss| - k
  {
    if |q| == 0 || i == k {
    } else if !ss[k].busy {
      DispatchFromFifo(ss, k + 1, q[1..], i);
    } else {
      DispatchFromFifo(ss, k + 1, q, i);
    }
  }

  /** What one dispatch pass does to server `i`: the j-th idle server (by
      index) receives the j-th queued request, for as many requests as
      there are, and each such assignment is accepted; every other server,
      in particular every busy one, is left as it was. */
  lemma DispatchFifo(ss: seq<ServerState>, q: seq<Request>, i: nat)
    requires i < |ss|
    ensures var out := Dispatch(ss, q).0;
      var before := IdleBetween(ss, 0, i);
      if !ss[i].busy && before < |q| then
        AssignState(ss[i], q[before]).0 && out[i] == AssignState(ss[i], q[before]).1
      else
        out[i] == ss[i]
  {
    DispatchFromFifo(ss, 0, q, i);
  }

  lemma {:induction false} IdleSplit(ss: seq<ServerState>, lo: nat, mid: nat, hi: nat)
    requires lo <= mid <= hi <= |ss|
    ensures IdleBetween(ss, lo, hi) == IdleBetween(ss, lo, mid) + IdleBetween(ss, mid, hi)
    decreases mid - lo
  {
    if lo < mid {
      IdleSplit(ss, lo + 1, mid, hi);
    }
  }

  /** No request waits while a server idles: after a dispatch pass the
      queue is non-empty only if every server is busy. */
  lemma DispatchSaturates(ss: seq<ServerState>, q: seq<Request>)
    ensures |Dispatch(ss, q).1| == |q| - Min(|q|, IdleBetween(ss, 0, |ss|))
    ensures |Dispatch(ss, q).1| > 0 ==> forall i :: 0 <= i < |ss| ==> Dispatch(ss, q).0[i].busy
  {
    DispatchQueue(ss, 0, q);
    var out := Dispatch(ss, q).0;
    if |Dispatch(ss, q).1| > 0 {
      forall i | 0 <= i < |ss| ensures out[i].busy {
        DispatchFifo(ss, q, i);
        if !ss[i].busy {
          IdleSplit(ss, 0, i, |ss|);
        }
      }
    }
  }

  /** A dispatch pass and a tick keep every server consistent. */
  lemma CycleConsistent(ss: seq<ServerState>, q: seq<Request>)
    requires AllConsistent(ss)
    ensures AllConsistent(Dispatch(ss, q).0)
    ensures AllConsistent(Cycle(ss, q).0)
  {
    var d := Dispatch(ss, q).0;
    forall i | 0 <= i < |ss| ensures Consistent(d[i]) {
      DispatchFifo(ss, q, i);
    }
    TickAllEach(d);
  }

  /** Dispatch comes before the tick within a cycle: a server busy at the
      start of the cycle is only ticked (a server that finishes during the
      tick gets no request until the next cycle), while an idle server that
      receives a request starts counting it down in that same cycle. */
  lemma DispatchThenTick(ss: seq<ServerState>, q: seq<Request>, i: nat)
    requires i < |ss|
    ensures var before := IdleBetween(ss, 0, i);
      var out := Cycle(ss, q).0;
      && (ss[i].busy ==> out[i] == TickState(ss[i]))
      && (!ss[i].busy && before < |q| ==> out[i] == TickState(AssignState(ss[i], q[before]).1))
      && (!ss[i].busy && before >= |q| ==> out[i] == ss[i])
  {
    DispatchFifo(ss, q, i);
    TickAllEach(Dispatch(ss, q).0);
  }

  lemma RunStep(ss: seq<ServerState>, q: seq<Request>, n: int)
    requires n > 0
    ensures RunCycles(ss, q, n) == Cycle(RunCycles(ss, q, n - 1).0, RunCycles(ss, q, n - 1).1)
  {
  }

  /** A run of a non-positive number of cycles does nothing. */
  lemma RunNone(ss: seq<ServerState>, q: seq<Request>, n: int, m: nat)
    requires m == Max(n, 0)
    ensures RunCycles(ss, q, n) == RunCycles(ss, q, m)
  {
  }

  /** Over a whole run the pool keeps its size and every server stays consistent. */
  lemma {:induction false} RunKeepsPool(ss: seq<ServerState>, q: seq<Request>, n: int)
    requires AllConsistent(ss)
    ensures |RunCycles(ss, q, n).0| == |ss|
    ensures AllConsistent(RunCycles(ss, q, n).0)
    decreases n
  {
    if n > 0 {
      RunKeepsPool(ss, q, n - 1);
      var prev := RunCycles(ss, q, n - 1);
      RunStep(ss, q, n);
      CycleConsistent(prev.0, prev.1);
    }
  }

  /** The queue only loses requests from its front: after more cycles it is
      a suffix of what it was after fewer. */
  lemma {:induction false} RunShrinksQueue(ss: seq<ServerState>, q: seq<Request>, m: int, n: int)
    requires m <= n
    ensures IsSuffix(RunCycles(ss, q, n).1, RunCycles(ss, q, m).1)
    decreases n - m
  {
    if m < n && n > 0 {
      RunShrinksQueue(ss, q, m, n - 1);
      var prev := RunCycles(ss, q, n - 1);
      RunStep(ss, q, n);
      DispatchQueue(prev.0, 0, prev.1);
      SuffixTransitive(RunCycles(ss, q, n).1, prev.1, RunCycles(ss, q, m).1);
    }
  }

  /** `d` holds the entries of `t` from index `k` on. */
  predicate TailOf(d: seq<ServerState>, k: nat, t: seq<ServerState>) {
    |d| + k == |t| && forall j :: k <= j < |t| ==> d[j - k] == t[j]
  }

  /** One step of the dispatch pass, as the loop takes it: server `k`
      either takes the front request (when idle) or is passed over. */
  lemma DispatchFromStep(ss: seq<ServerState>, k: nat, q: seq<Request>, t: seq<ServerState>)
    requires k < |ss| && |q| > 0
    requires TailOf(DispatchFrom(ss, k, q).0, k, t)
    ensures var q' := if ss[k].busy then q else q[1..];
      && t[k] == (if ss[k].busy then ss[k] else AssignState(ss[k], q[0]).1)
      && TailOf(DispatchFrom(ss, k + 1, q').0, k + 1, t)
      && DispatchFrom(ss, k + 1, q').1 == DispatchFrom(ss, k, q).1
  {
    var q' := if ss[k].busy then q else q[1..];
    var d := DispatchFrom(ss, k, q).0;
    var d' := DispatchFrom(ss, k + 1, q').0;
    assert d[0] == t[k];
    forall j | k + 1 <= j < |t| ensures d'[j - (k + 1)] == t[j] {
      assert d[j - k] == t[j];
    }
  }

  /** Once the queue is empty the rest of the pass changes nothing. */
  lemma DispatchFromEmpty(ss: seq<ServerState>, k: nat, q: seq<Request>, t: seq<ServerState>)
    requires k <= |ss| && |q| == 0
    requires TailOf(DispatchFrom(ss, k, q).0, k, t)
    ensures forall j :: k <= j < |ss| ==> t[j] == ss[j]
  {
    var d := DispatchFrom(ss, k, q).0;
    forall j | k <= j < |ss| ensures t[j] == ss[j] {
      assert d[j - k] == t[j];
    }
  }

  /** The states of a sequence of server objects. */
  ghost function StatesOf(ws: seq<WebServer>): (ss: seq<ServerState>)
    reads ws
  {
    seq(|ws|, j requires 0 <= j < |ws| reads ws => ws[j].State())
  }

  lemma StatesEqual(ws: seq<WebServer>, ss: seq<ServerState>)
    requires |ws| == |ss|
    requires forall j :: 0 <= j < |ws| ==> ws[j].State() == ss[j]
    ensures StatesOf(ws) == ss
  {
  }

  class LoadBalancer {
    const cfg: Config
    var q: seq<Request>
    var servers: seq<WebServer>

    /** Each server consistent, the one at index i with id i (so the server
        objects are distinct). */
    ghost predicate Valid()
      reads this, servers
    {
      forall i :: 0 <= i < |servers| ==> servers[i].Valid() && servers[i].id == i
    }

    ghost function Servers(): seq<ServerState>
      reads this, servers
    {
      StatesOf(servers)
    }

    /** A balancer with `cfg.numServers` idle servers and an initial queue of
        `numServers * initialQueueMultiplier` requests; `make(k)` stands for
        the k-th request the factory makes. */
    constructor (cfg: Config, make: nat -> Request)
      requires cfg.numServers >= 0
      ensures Valid() && this.cfg == cfg
      ensures |servers| == cfg.numServers
      ensures forall i :: 0 <= i < |servers| ==> servers[i].State() == Idle
      ensures q == Generated(cfg.numServers * cfg.initialQueueMultiplier, make)
    {
      this.cfg := cfg;
      q := [];
      servers := [];
      new;
      InitServers();
      FillInitialQueue(make);
    }

    /** Replaces the pool by servers with ids 0 .. numServers-1, all idle.
        A negative count makes the pool's reservation fail, so it is excluded. */
    method InitServers()
      requires cfg.numServers >= 0
      modifies this`servers
      ensures Valid()
      ensures |servers| == cfg.numServers
      ensures forall i :: 0 <= i < |servers| ==> fresh(servers[i]) && servers[i].State() == Idle
    {
      servers := [];
      var i := 0;
      while i < cfg.numServers
        invariant 0 <= i <= cfg.numServers
        invariant |servers| == i
        invariant Valid()
        invariant forall k :: 0 <= k < i ==> fresh(servers[k]) && servers[k].State() == Idle
      {
        var s := new WebServer(i);
        servers := servers + [s];
        i := i + 1;
      }
    }

    /** Appends `numServers * initialQueueMultiplier` made requests to the queue. */
    method FillInitialQueue(make: nat -> Request)
      modifies this`q
      ensures q == old(q) + Generated(cfg.numServers * cfg.initialQueueMultiplier, make)
    {
      var initialCount := cfg.numServers * cfg.initialQueueMultiplier;
      var i := 0;
      while i < initialCount
        invariant 0 <= i <= Max(initialCount, 0)
        invariant q == old(q) + Generated(i, make)
      {
        q := q + [make(i)];
        i := i + 1;
      }
    }

    /** Hands queue-front requests to idle servers in index order. */
    method AssignToIdleServers()
      requires Valid()
      modifies this`q, servers
      ensures Valid()
      ensures Servers() == Dispatch(old(Servers()), old(q)).0
      ensures q == Dispatch(old(Servers()), old(q)).1
    {
      ghost var ss0 := Servers();
      ghost var target := Dispatch(ss0, q);
      var i := 0;
      while i < |servers|
        invariant 0 <= i <= |servers|
        invariant Valid()
        invariant forall j :: 0 <= j < i ==> servers[j].State() == target.0[j]
        invariant forall j :: i <= j < |servers| ==> servers[j].State() == ss0[j]
        invariant TailOf(DispatchFrom(ss0, i, q).0, i, target.0)
        invariant DispatchFrom(ss0, i, q).1 == target.1
      {
        if |q| == 0 {
          DispatchFromEmpty(ss0, i, q, target.0);
          StatesEqual(servers, target.0);
          return;
        }
        DispatchFromStep(ss0, i, q, target.0);
        var s := servers[i];
        if !s.IsBusy() {
          var accepted := s.Assign(q[0]);
          assert accepted;
          q := q[1..];
        }
        i := i + 1;
      }
      StatesEqual(servers, target.0);
    }

    /** Ticks every server once. */
    method TickServers()
      requires Valid()
      modifies servers
      ensures Valid()
      ensures Servers() == TickAll(old(Servers()))
      ensures q == old(q) && servers == old(servers)
    {
      ghost var ss0 := Servers();
      var i := 0;
      while i < |servers|
        invariant 0 <= i <= |servers|
        invariant Valid()
        invariant forall j :: 0 <= j < i ==> servers[j].State() == TickState(ss0[j])
        invariant forall j :: i <= j < |servers| ==> servers[j].State() == ss0[j]
      {
        servers[i].Tick();
        i := i + 1;
      }
      TickAllEach(ss0);
      assert Servers() == TickAll(ss0);
    }

    /** Runs `cfg.totalCycles` cycles, each a dispatch pass followed by a tick. */
    /** The body of one iteration of the run: dispatch, then tick. */
    method RunCycle()
      requires Valid()
      modifies this`q, servers
      ensures Valid()
      ensures Servers() == Cycle(old(Servers()), old(q)).0
      ensures q == Cycle(old(Servers()), old(q)).1
    {
      AssignToIdleServers();
      TickServers();
    }

    method Run()
      requires Valid()
      modifies this`q, servers
      ensures Valid()
      ensures Servers() == RunCycles(old(Servers()), old(q), cfg.totalCycles).0
      ensures q == RunCycles(old(Servers()), old(q), cfg.totalCycles).1
    {
      ghost var ss0 := Servers();
      ghost var q0 := q;
      ghost var st := (ss0, q0);
      var cycle := 0;
      while cycle < cfg.totalCycles
        invariant 0 <= cycle <= Max(cfg.totalCycles, 0)
        invariant Valid()
        invariant st == RunCycles(ss0, q0, cycle)
        invariant Servers() == st.0 && q == st.1
      {
        RunCycle();
        RunStep(ss0, q0, cycle + 1);
        st := Cycle(st.0, st.1);
        cycle := cycle + 1;
      }
      RunNone(ss0, q0, cfg.totalCycles, cycle);
      assert Servers() == RunCycles(ss0, q0, cfg.totalCycles).0;
      assert q == RunCycles(ss0, q0, cfg.totalCycles).1;
    }

    function QueueSize(): (n: int)
      reads this
      ensures n >= 0 && n == |q|
    {
      |q|
    }

    /** The pool size; on a valid balancer the ids in use are exactly 0 .. n-1. */
    function ActiveServerCount(): (n: int)
      reads this, servers
      ensures n == |servers|
      ensures Valid() ==> forall i :: 0 <= i < n ==> servers[i].id == i
    {
      |servers|
    }
  }
}
