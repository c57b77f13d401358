/** A web server that serves at most one request at a time and counts its
    remaining service time down once per clock cycle. */
module Servers {
  import opened Requests

  /** The three fields a server updates in place, as one value. */
  datatype ServerState = ServerState(busy: bool, remaining: int, current: Option<Request>)

  /** The state of a freshly built server, and of one that has just finished. */
  const Idle := ServerState(false, 0, None)

  /** The server invariant: busy exactly when a request is held, and an
      idle server has nothing left to do. */
  predicate Consistent(s: ServerState) {
    (s.busy <==> s.current.Some?) && (!s.busy ==> s.remaining == 0)
  }

  /** Offering request `r` to a server: whether it was accepted, and the new state. */
  function AssignState(s: ServerState, r: Request): (res: (bool, ServerState))
    ensures res.0 <==> !s.busy
    ensures !res.0 ==> res.1 == s
    ensures res.0 ==> res.1.busy && res.1.current == Some(r) && res.1.remaining == r.timeRequired
    ensures Consistent(s) ==> Consistent(res.1)
  {
    if s.busy then (false, s) else (true, ServerState(true, r.timeRequired, Some(r)))
  }

  /** One clock cycle of a server. */
  function TickState(s: ServerState): (t: ServerState)
    ensures !s.busy ==> t == s
    ensures s.busy && s.remaining > 1 ==> t == s.(remaining := s.remaining - 1)
    ensures s.busy && s.remaining <= 1 ==> t == Idle
    ensures Consistent(s) ==> Consistent(t) && t.remaining >= 0
  {
    if !s.busy then s
    else
      var left := if s.remaining > 0 then s.remaining - 1 else s.remaining;
      if left <= 0 then ServerState(false, 0, None) else s.(remaining := left)
  }

  /** `n` clock cycles of a server. */
  function Ticks(s: ServerState, n: nat): (t: ServerState)
    ensures !s.busy ==> t == s
    ensures Consistent(s) ==> Consistent(t)
    decreases n
  {
    if n == 0 then s else Ticks(TickState(s), n - 1)
  }

  /** A server busy with `m >= 1` cycles left stays busy for the next
      `m - 1` cycles, counting down by one each time, and is idle after `m`. */
  lemma {:induction false} CountDown(r: Request, m: int, k: nat)
    requires m >= 1 && k <= m
    ensures k < m ==> Ticks(ServerState(true, m, Some(r)), k) == ServerState(true, m - k, Some(r))
    ensures k == m ==> Ticks(ServerState(true, m, Some(r)), k) == Idle
    decreases k
  {
    if k > 0 {
      if m == 1 {
        assert Ticks(Idle, 0) == Idle;
      } else {
        CountDown(r, m - 1, k - 1);
      }
    }
  }

  /** After an idle server accepts a request with service time t >= 1, it is
      busy through the first t - 1 cycles and idle after cycle t; a request
      with service time t <= 0 is finished after a single cycle. */
  lemma ServiceTime(s: ServerState, r: Request, k: nat)
    requires !s.busy
    ensures var a := AssignState(s, r).1;
      && (k < r.timeRequired ==> Ticks(a, k).busy && Ticks(a, k).remaining == r.timeRequired - k)
      && (1 <= k == r.timeRequired ==> Ticks(a, k) == Idle)
      && (r.timeRequired <= 0 ==> Ticks(a, 1) == Idle)
  {
    var a := AssignState(s, r).1;
    if r.timeRequired >= 1 && k <= r.timeRequired {
      CountDown(r, r.timeRequired, k);
    }
    if r.timeRequired <= 0 {
      assert Ticks(a, 1) == Ticks(TickState(a), 0);
    }
  }

  /** The object the load balancer holds one of per server. */
  class WebServer {
    const id: int
    var busy: bool
    var remaining: int
    var current: Option<Request>

    function State(): ServerState
      reads this
    {
      ServerState(busy, remaining, current)
    }

    ghost predicate Valid()
      reads this
    {
      Consistent(State())
    }

    constructor (id: int)
      ensures Valid()
      ensures this.id == id && State() == Idle
    {
      this.id := id;
      busy := false;
      remaining := 0;
      current := None;
    }

    /** Takes `r` when idle; a busy server refuses it and keeps its request. */
    method Assign(r: Request) returns (accepted: bool)
      modifies this
      ensures (accepted, State()) == AssignState(old(State()), r)
      ensures old(Valid()) ==> Valid()
    {
      if busy {
        return false;
      }
      current := Some(r);
      remaining := r.timeRequired;
      busy := true;
      return true;
    }

    /** One clock cycle: count down, and release the request when done. */
    method Tick()
      modifies this
      ensures State() == TickState(old(State()))
      ensures old(Valid()) ==> Valid() && remaining >= 0
    {
      if !busy {
        return;
      }
      if remaining > 0 {
        remaining := remaining - 1;
      }
      if remaining <= 0 {
        busy := false;
        current := None;
        remaining := 0;
      }
    }

    function IsBusy(): (b: bool)
      reads this
      ensures b == busy
      ensures Valid() ==> (b <==> CurrentRequest().Some?)
    {
      busy
    }

    /** The id the server was built with; it never changes. */
    function Id(): (n: int)
      reads this
      ensures n == id
    {
      id
    }

    function RemainingTime(): (n: int)
      reads this
      ensures n == remaining
      ensures Valid() && !IsBusy() ==> n == 0
    {
      remaining
    }

    function CurrentRequest(): (r: Option<Request>)
      reads this
      ensures r == current
      ensures Valid() ==> (r.Some? <==> busy) && (r.None? ==> remaining == 0)
    {
      current
    }
  }
}
