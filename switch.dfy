/** The switch in front of two load balancers: it sends streaming jobs to
    one and every other job to the other, and drives both once per cycle. */
module Routing {
  import opened Requests
  import Factory

  /** The two balancers a switch feeds. */
  datatype Lane = Streaming | Processing

  /** The balancer a request goes to: 'S' jobs stream, all others are processed. */
  function LaneOf(r: Request): (l: Lane)
    ensures l == Streaming <==> r.jobType == 'S'
  {
    if r.jobType == 'S' then Streaming else Processing
  }

  /** The requests of `rs` that go to `lane`, in order. */
  function RoutedTo(rs: seq<Request>, lane: Lane): (routed: seq<Request>)
    ensures |routed| <= |rs|
    ensures forall i :: 0 <= i < |routed| ==> LaneOf(routed[i]) == lane
  {
    if |rs| == 0 then []
    else RoutedTo(rs[..|rs| - 1], lane) + (if LaneOf(rs[|rs| - 1]) == lane then [rs[|rs| - 1]] else [])
  }

  /** Every request goes to exactly one of the two balancers: together the
      two parts are `rs` as a multiset, each holding only its own class. */
  lemma {:induction false} RoutingPartitions(rs: seq<Request>)
    ensures |RoutedTo(rs, Streaming)| + |RoutedTo(rs, Processing)| == |rs|
    ensures forall r :: r in RoutedTo(rs, Streaming) ==> r in rs && r.jobType == 'S'
    ensures forall r :: r in RoutedTo(rs, Processing) ==> r in rs && r.jobType != 'S'
    ensures multiset(RoutedTo(rs, Streaming)) + multiset(RoutedTo(rs, Processing)) == multiset(rs)
  {
    if |rs| > 0 {
      RoutingPartitions(rs[..|rs| - 1]);
      assert rs == rs[..|rs| - 1] + [rs[|rs| - 1]];
    }
  }

  /** A call the switch makes on a balancer. Only adding a request has an
      effect that is part of this model; dispatching and scaling are
      recorded in the order they are made. */
  datatype Call = AddRequest(lane: Lane) | Dispatch(lane: Lane) | ScaleServers(lane: Lane)

  /** The calls one cycle makes after any arrival: dispatch then scale,
      streaming balancer first. */
  const CycleCalls: seq<Call> :=
    [Dispatch(Streaming), ScaleServers(Streaming), Dispatch(Processing), ScaleServers(Processing)]

  /** The part of a load balancer the switch sees: its request queue. */
  class BalancerPort {
    var queue: seq<Request>

    constructor (queue: seq<Request>)
      ensures this.queue == queue
    {
      this.queue := queue;
    }

    method AddRequest(r: Request)
      modifies this
      ensures queue == old(queue) + [r]
    {
      queue := queue + [r];
    }
  }

  class Switch {
    const stream: BalancerPort
    const proc: BalancerPort
    var routedStream: int
    var routedProc: int
    var time: int
    /** Every balancer call made so far, in order. */
    var calls: seq<Call>
    /** Every request routed so far, in order. */
    ghost var routed: seq<Request>
    ghost const streamBase: seq<Request>
    ghost const procBase: seq<Request>

    /** Two distinct balancers; each queue is what it started with followed
        by the requests routed to it; the counters count them. */
    ghost predicate Valid()
      reads this, stream, proc
    {
      && stream != proc
      && stream.queue == streamBase + RoutedTo(routed, Streaming)
      && proc.queue == procBase + RoutedTo(routed, Processing)
      && routedStream == |RoutedTo(routed, Streaming)|
      && routedProc == |RoutedTo(routed, Processing)|
    }

    constructor (stream: BalancerPort, proc: BalancerPort)
      requires stream != proc
      ensures Valid()
      ensures this.stream == stream && this.proc == proc
      ensures routedStream == 0 && routedProc == 0 && time == 0
      ensures calls == [] && routed == []
    {
      this.stream := stream;
      this.proc := proc;
      routedStream := 0;
      routedProc := 0;
      time := 0;
      calls := [];
      routed := [];
      streamBase := stream.queue;
      procBase := proc.queue;
    }

    function Port(lane: Lane): BalancerPort
      reads this
    {
      if lane == Streaming then stream else proc
    }

    /** Sends `r` to the balancer its job class selects and counts it there. */
    method Route(r: Request)
      requires Valid()
      modifies this, stream, proc
      ensures Valid()
      ensures routed == old(routed) + [r]
      ensures calls == old(calls) + [AddRequest(LaneOf(r))]
      ensures time == old(time)
      ensures Port(LaneOf(r)).queue == old(Port(LaneOf(r)).queue) + [r]
      ensures r.jobType == 'S' ==> routedStream == old(routedStream) + 1 && routedProc == old(routedProc) && unchanged(proc)
      ensures r.jobType != 'S' ==> routedProc == old(routedProc) + 1 && routedStream == old(routedStream) && unchanged(stream)
    {
      routed := routed + [r];
      assert routed[..|routed| - 1] == old(routed);
      if r.jobType == 'S' {
        stream.AddRequest(r);
        routedStream := routedStream + 1;
      } else {
        proc.AddRequest(r);
        routedProc := routedProc + 1;
      }
      calls := calls + [AddRequest(LaneOf(r))];
    }

    /** Routes one new request when the arrival coin comes up; `draws` are
        the factory's draws for that request. */
    method MaybeGenerateAndRoute(arrives: bool, draws: seq<int>)
      requires Valid()
      requires arrives ==> |draws| >= Factory.DrawsPerRequest
      modifies this, stream, proc
      ensures Valid()
      ensures time == old(time)
      ensures !arrives ==> routed == old(routed) && calls == old(calls) && unchanged(stream, proc)
      ensures arrives ==> routed == old(routed) + [Factory.MakeRequest(draws).0]
      ensures arrives ==> calls == old(calls) + [AddRequest(LaneOf(Factory.MakeRequest(draws).0))]
    {
      if arrives {
        var (r, _) := Factory.MakeRequest(draws);
        Route(r);
      }
    }

    /** One simulation cycle: advance the clock, maybe route an arrival, then
        dispatch and scale the streaming balancer and then the processing one. */
    method Step(arrives: bool, draws: seq<int>)
      requires Valid()
      requires arrives ==> |draws| >= Factory.DrawsPerRequest
      modifies this, stream, proc
      ensures Valid()
      ensures time == old(time) + 1
      ensures |routed| <= |old(routed)| + 1
      ensures routed == old(routed) + (if arrives then [Factory.MakeRequest(draws).0] else [])
      ensures calls == old(calls)
        + (if arrives then [AddRequest(LaneOf(Factory.MakeRequest(draws).0))] else [])
        + CycleCalls
    {
      time := time + 1;
      MaybeGenerateAndRoute(arrives, draws);
      calls := calls + [Dispatch(Streaming)];
      calls := calls + [ScaleServers(Streaming)];
      calls := calls + [Dispatch(Processing)];
      calls := calls + [ScaleServers(Processing)];
    }

    /** The two counters together count every routed request. */
    function RoutedTotal(): (n: int)
      reads this, stream, proc
      ensures Valid() ==> n == |routed|
    {
      RoutingPartitions(routed);
      routedStream + routedProc
    }
  }
}
