# A verified model of a discrete-time load-balancer simulation

This project models, in Dafny, the deterministic core of a C++ simulation of a
web load balancer. The model covers five parts.

- **Web servers** (`web_server.dfy`, module `Servers`). A server holds at most
  one request. It accepts a request only when idle, and counts the request's
  service time down once per clock cycle. The class `WebServer` keeps the
  source's three fields (`busy`, `remaining`, `current`). Its methods are
  proved against the value-level functions `AssignState` and `TickState`.
- **The load balancer** (`load_balancer.dfy`, module `Balancing`). It has a
  FIFO request queue (`seq<Request>`) and a pool of `WebServer` objects, and
  runs these steps:
  - build the pool, with ids 0..n-1;
  - fill the initial queue;
  - a dispatch pass that hands queue-front requests to idle servers in index
    order;
  - a tick of every server;
  - the `totalCycles` loop of dispatch-then-tick.

  Each method is proved against the pure functions `Dispatch`, `TickAll`,
  `Cycle` and `RunCycles`. The lemmas prove FIFO assignment, "busy servers are
  untouched" and "no request waits while a server idles". They also prove that
  a run keeps the pool and only ever shrinks the queue from its front.
- **Loading the configuration file** (`config_loader.dfy`, module
  `ConfigLoading`). It covers:
  - `trim`, as two index loops proved equal to the function `Trimmed`;
  - the line classifier: blank, comment, no `=`, or a key and value split at
    the first `=`;
  - assignment of the assignable keys;
  - the guard block that normalises the result.

  The file arrives as its lines, `None` when it cannot be opened. `std::stoi`
  is the abstract partial function `parseInt`.
- **The switch** (`switch.dfy`, module `Routing`). It sends `'S'` jobs to the
  streaming balancer and all others to the processing balancer, with one
  counter per class. Each step advances the clock, routes at most one
  arrival, and then dispatches and scales the streaming balancer before the
  processing one. The two balancers are seen through their request queues.
  Every call the switch makes on them is recorded, in order, in a trace.
- **Request generation** (`request_factory.dfy`, module `Factory`). A request
  is built from ten random draws, taken in the factory's order:
  1. four octets of the source address;
  2. four octets of the destination address;
  3. the service time;
  4. the job bit.

  The lemmas prove what the address text looks like: three dots and
  `std::to_string` octets with no leading zeros. They also prove that the text
  reads back as the draws.

`requests.dfy` (module `Requests`) and `config.dfy` (module `Configs`) hold the
`Request` and `Config` records.

Two behaviours of the code are kept as written:

- `include/Request.h:10` documents `time_required` only as a processing time
  in clock cycles, and `src/WebServer.cpp:9` copies it into the server
  unchecked. So `assign` accepts a request whose `time_required` is 0 or
  negative. The server is then busy with `remaining <= 0` until its next
  tick, which frees it (`Servers.ServiceTime`, last clause).
- The guard block collapses every non-zero `logVerboseDrops` to 1, although
  `include/Config.h:22` documents a level 2.

## Model

| member | source | states |
|---|---|---|
| `Servers.AssignState` | src/WebServer.cpp:6-12 | an offer is accepted exactly when the server is idle; a refused offer changes nothing; an accepted one leaves the server busy, holding the request, with `remaining` equal to its service time; the server invariant is kept |
| `Servers.TickState` | src/WebServer.cpp:14-25 | an idle server is unchanged; a busy one with more than one cycle left counts down by one; one with at most one cycle left becomes idle with no request and `remaining` 0; the invariant is kept and `remaining` is never negative afterwards |
| `Servers.CountDown` | src/WebServer.cpp:14-25 | a server busy with m >= 1 cycles left is still busy with m-k left after k < m ticks and is idle after m ticks |
| `Servers.ServiceTime` | src/WebServer.cpp:6-25 | after an idle server accepts a request with service time t >= 1 it is busy through the first t-1 ticks and idle after tick t; with t <= 0 it is idle after one tick |
| `Servers.Ticks` | src/WebServer.cpp:14-25 | reference definition of `n` successive ticks; an idle server stays as it is and the server invariant is kept; `Servers.CountDown` and `Servers.ServiceTime` state what it does to a busy server |
| `Servers.WebServer.constructor` | src/WebServer.cpp:3-4 | a new server is idle, has `remaining` 0, holds no request and carries the id it was given |
| `Servers.WebServer.Assign` | src/WebServer.cpp:6-12 | the result and the new fields are those of `AssignState` on the old fields; the invariant is preserved |
| `Servers.WebServer.Tick` | src/WebServer.cpp:14-25 | the new fields are those of `TickState` on the old fields; the invariant is preserved and `remaining` is non-negative afterwards |
| `Servers.WebServer.IsBusy` | src/WebServer.cpp:27 | the server's busy flag; on a consistent server, busy exactly when a request is held |
| `Servers.WebServer.Id` | src/WebServer.cpp:28 | the id the server was built with |
| `Servers.WebServer.RemainingTime` | src/WebServer.cpp:29 | the cycles left on the current request, as counted down by the ticks; an idle consistent server reports 0 |
| `Servers.WebServer.CurrentRequest` | src/WebServer.cpp:30 | the request being served, if any; on a consistent server a request is present exactly when busy, and none is present only with 0 cycles left |
| `Balancing.LoadBalancer.constructor` | src/LoadBalancer.cpp:4-8 | for a non-negative numServers, a new balancer has numServers idle servers with ids 0..n-1 and a queue of the first numServers * initialQueueMultiplier requests made, in the order made |
| `Balancing.LoadBalancer.InitServers` | src/LoadBalancer.cpp:10-16 | for a non-negative numServers, the pool becomes numServers fresh idle servers, the one at index i with id i |
| `Balancing.LoadBalancer.FillInitialQueue` | src/LoadBalancer.cpp:18-23 | exactly numServers * initialQueueMultiplier made requests (none when that is not positive) are appended to the queue, in generation order |
| `Balancing.LoadBalancer.AssignToIdleServers` | src/LoadBalancer.cpp:25-33 | the new server states and queue are those of one dispatch pass over the old ones, so the FIFO and saturation lemmas about `Dispatch` hold of the objects; the server invariant and the ids are kept |
| `Balancing.LoadBalancer.TickServers` | src/LoadBalancer.cpp:35-39 | every server is ticked exactly once; the queue and the pool are unchanged |
| `Balancing.LoadBalancer.RunCycle` | src/LoadBalancer.cpp:46-48 | one iteration of the run: the new server states and queue are those of one cycle, dispatch then tick, of the old ones; the invariant is kept |
| `Balancing.LoadBalancer.Run` | src/LoadBalancer.cpp:41-59 | the final server states and queue are those of `totalCycles` cycles of dispatch-then-tick (none when `totalCycles` is not positive) |
| `Balancing.LoadBalancer.QueueSize` | src/LoadBalancer.cpp:61 | the current queue length, never negative |
| `Balancing.LoadBalancer.ActiveServerCount` | src/LoadBalancer.cpp:62 | the current pool size; on a valid balancer the ids in use are exactly 0..n-1 |
| `Balancing.Generated` | src/LoadBalancer.cpp:18-23 | reference definition of the initial queue: max(count, 0) requests, the k-th being the k-th one made |
| `Balancing.DispatchFrom` | src/LoadBalancer.cpp:26-32 | reference definition of the dispatch pass from server k on: it returns one new state per server from k on and never lengthens the queue; `Balancing.DispatchFromFifo` and `Balancing.DispatchQueue` state what it assigns and what it leaves |
| `Balancing.Dispatch` | src/LoadBalancer.cpp:25-33 | reference definition of one dispatch pass over the whole pool, with one new state per server; `Balancing.DispatchFifo` and `Balancing.DispatchSaturates` state its FIFO and saturation properties |
| `Balancing.TickAll` | src/LoadBalancer.cpp:35-39 | reference definition of ticking the pool: one new state per server; `Balancing.TickAllEach` states that each is that server's tick |
| `Balancing.Cycle` | src/LoadBalancer.cpp:46-48 | reference definition of one cycle, dispatch then tick: the pool keeps its size and the queue does not grow; `Balancing.DispatchThenTick` and `Balancing.CycleConsistent` state its per-server effect |
| `Balancing.RunCycles` | src/LoadBalancer.cpp:46-55 | reference definition of n cycles: the pool keeps its size and the queue does not grow; `Balancing.RunKeepsPool` and `Balancing.RunShrinksQueue` state more |
| `Balancing.DispatchQueue` | src/LoadBalancer.cpp:25-33 | a dispatch pass removes exactly min(queue length, idle servers) requests from the front of the queue and keeps the rest in order |
| `Balancing.DispatchFromFifo` | src/LoadBalancer.cpp:26-32 | in a pass started at server k, the j-th idle server from k on receives the j-th queued request, for as many requests as there are; every other server is untouched |
| `Balancing.DispatchFifo` | src/LoadBalancer.cpp:25-33 | FIFO assignment over the whole pool: the j-th idle server by index gets the j-th queued request and accepts it; busy servers and idle servers beyond the queue's length are untouched |
| `Balancing.DispatchSaturates` | src/LoadBalancer.cpp:25-33 | the queue left after a pass has length queue length minus min(queue length, idle servers), and is non-empty only if every server is busy |
| `Balancing.TickAllEach` | src/LoadBalancer.cpp:35-39 | ticking the pool ticks each server on its own |
| `Balancing.CycleConsistent` | src/LoadBalancer.cpp:46-48 | a dispatch pass and then a tick keep every server's invariant |
| `Balancing.DispatchThenTick` | src/LoadBalancer.cpp:46-48 | within a cycle, dispatch comes before the tick: a server busy at the start is only ticked, and an idle server that receives a request starts counting it down in that same cycle |
| `Balancing.RunKeepsPool` | src/LoadBalancer.cpp:46-55 | over any number of cycles the pool keeps its size and every server its invariant |
| `Balancing.RunShrinksQueue` | src/LoadBalancer.cpp:46-55 | the queue after more cycles is a suffix of the queue after fewer: it never grows and only loses requests from its front |
| `ConfigLoading.StartOf` | src/ConfigLoader.cpp:8-9 | the front scan stops at the first non-white-space character or at the end, having passed only white space |
| `ConfigLoading.EndOf` | src/ConfigLoader.cpp:10-11 | the back scan stops after the last non-white-space character, not before the front scan's stop, having passed only white space |
| `ConfigLoading.Trimmed` | src/ConfigLoader.cpp:7-13 | reference definition of `trim`: never longer than its input and with no white space at either end; `ConfigLoading.TrimmedShape`, `ConfigLoading.TrimmedUnique` and `ConfigLoading.TrimmedIdempotent` state more |
| `ConfigLoading.TrimmedUnique` | src/ConfigLoader.cpp:7-13 | the trimmed text is the one piece s[a..b] with only white space around it and none at its ends |
| `ConfigLoading.TrimmedShape` | src/ConfigLoader.cpp:7-13 | the trimmed text is a contiguous piece of the input with only white space outside it and none at either end |
| `ConfigLoading.TrimmedIdempotent` | src/ConfigLoader.cpp:7-13 | trimming twice is trimming once |
| `ConfigLoading.Trim` | src/ConfigLoader.cpp:7-13 | the two index loops return exactly the trimmed text |
| `ConfigLoading.Find` | src/ConfigLoader.cpp:25-26 | the index of the first `=`, or the length of the line when there is none |
| `ConfigLoading.ClassifyLine` | src/ConfigLoader.cpp:21-29 | a line is blank exactly when it trims to nothing, a comment exactly when it trims to text starting with `#`, and an entry exactly when its trimmed text is neither and contains `=`; `ConfigLoading.EntryRoundTrip` and `ConfigLoading.PaddedEntryRoundTrip` state that an entry's key and value are the trimmed pieces on either side of the first `=` |
| `ConfigLoading.FieldOfKey` | src/ConfigLoader.cpp:32-41 | a key selects a field only when it is that field's name |
| `ConfigLoading.KeyRoundTrip` | src/ConfigLoader.cpp:32-40 | each assignable field's name selects that field |
| `ConfigLoading.Set` | src/ConfigLoader.cpp:32-40 | assigning a field sets that field and leaves every other field unchanged, including the four fields no line may change |
| `ConfigLoading.ApplyEntry` | src/ConfigLoader.cpp:31-44 | an unknown key, or a value that does not parse, leaves the configuration unchanged; otherwise the key's field takes the parsed value |
| `ConfigLoading.SkippedLine` | src/ConfigLoader.cpp:21-26 | a line that is blank after trimming, starts with `#` or contains no `=` is not an entry and leaves the configuration unchanged |
| `ConfigLoading.EntryRoundTrip` | src/ConfigLoader.cpp:25-29 | a trimmed key without `=` and not starting with `#`, then `=`, then a trimmed value reads back as that key and value: the split is at the first `=`, so the value may contain `=` |
| `ConfigLoading.PaddedEntryRoundTrip` | src/ConfigLoader.cpp:21-29 | key and value are each trimmed: a non-empty trimmed key without `=` and not starting with `#`, and a non-empty trimmed value, read back as that key and value whatever white space surrounds the line and the `=` (so `key = value` reads as `key=value`) |
| `ConfigLoading.ApplyLine` | src/ConfigLoader.cpp:21-44 | a line that is not an entry leaves the configuration unchanged; no line changes numServers, totalCycles, initialQueueMultiplier or useColor |
| `ConfigLoading.LineKeepsOthers` | src/ConfigLoader.cpp:31-44 | a line that does not set a field with a parsable value leaves that field as it was |
| `ConfigLoading.ApplyLines` | src/ConfigLoader.cpp:20-44 | the lines applied in order leave numServers, totalCycles, initialQueueMultiplier and useColor unchanged; `ConfigLoading.LastWins` and `ConfigLoading.UnsetFieldKept` state what happens to the other fields |
| `ConfigLoading.LastWins` | src/ConfigLoader.cpp:20-44 | when a key repeats, the field holds the value of the last line that sets it with a value that parses |
| `ConfigLoading.UnsetFieldKept` | src/ConfigLoader.cpp:31-44 | a field that no line sets with a parsable value keeps its previous value |
| `ConfigLoading.Sanitize` | src/ConfigLoader.cpp:47-63 | the result keeps every bound (taskTimeMin >= 1, taskTimeMax >= taskTimeMin, minQueuePerServer >= 1, maxQueuePerServer >= minQueuePerServer, scaleCooldownN >= 0, blockedChancePercent in 0..100, logVerboseDrops in {0,1}, logCheckpointInterval >= 1); a field already within its bound is kept; a field outside it is clamped to the nearest allowed value (1, the new minimum, 0 or 100), and every non-zero logVerboseDrops becomes 1; the protected fields are unchanged |
| `ConfigLoading.SanitizeIdempotent` | src/ConfigLoader.cpp:47-63 | the guard block changes a configuration exactly when it breaks a bound, so applying it twice is applying it once |
| `ConfigLoading.LoadFromFile` | src/ConfigLoader.cpp:15-66 | it reports success exactly when the file could be opened; on failure the configuration is untouched; on success it is the guard block applied to the lines applied in order |
| `ConfigLoading.LoadedNormalized` | src/ConfigLoader.cpp:47-63 | a loaded configuration keeps every bound and the four protected fields of the configuration it started from |
| `ConfigLoading.DefaultLoadsUnchanged` | include/Config.h:6-26 | the built-in defaults keep every bound of the guard block, so a file with no lines loads them unchanged |
| `Routing.LaneOf` | src/Switch.cpp:9-15 | a request goes to the streaming balancer exactly when its job class is `'S'` |
| `Routing.RoutedTo` | src/Switch.cpp:8-16 | reference definition of the requests a sequence of routes sends to one balancer, in order: never more than were routed, each of that balancer's class |
| `Routing.RoutingPartitions` | src/Switch.cpp:8-16 | every routed request goes to exactly one balancer: the two parts together are the routed requests as a multiset, the streaming one holding only `'S'` jobs and the processing one only the others |
| `Routing.BalancerPort.AddRequest` | src/Switch.cpp:10 | a request added to a balancer is appended to the tail of its queue |
| `Routing.Switch.constructor` | src/Switch.cpp:5-6 | a new switch has both counters and the clock at 0, has routed nothing and made no call |
| `Routing.Switch.Route` | src/Switch.cpp:8-16 | an `'S'` request is appended to the streaming queue only and bumps only the streaming counter; any other request goes to the processing queue only and bumps only the processing counter; the other balancer is unchanged |
| `Routing.Switch.MaybeGenerateAndRoute` | src/Switch.cpp:18-26 | with no arrival nothing changes; with an arrival exactly one request, the one made from the draws, is routed |
| `Routing.Switch.Step` | src/Switch.cpp:28-39 | the clock advances by exactly one; at most one request is routed; the calls made are the optional arrival, then streaming dispatch, streaming scale, processing dispatch and processing scale, in that order |
| `Routing.Switch.RoutedTotal` | include/Switch.h:24-25 | the two counters together equal the number of requests routed since construction |
| `Factory.Digits` | include/RequestFactory.h:35-38 | reference definition of the digits `std::to_string` writes for a natural number: at least one, all decimal digits |
| `Factory.DecimalText` | include/RequestFactory.h:35-38 | reference definition of `std::to_string` on an integer: non-empty, starting with `-` exactly when the number is negative |
| `Factory.DigitsRoundTrip` | include/RequestFactory.h:35-38 | the decimal text of a natural number reads back as the number |
| `Factory.DigitsNoLeadingZero` | include/RequestFactory.h:35-38 | the decimal text starts with `0` only for the number zero |
| `Factory.OctetText` | include/RequestFactory.h:35-38 | the text of an octet is one to three digits, with no leading zero except "0" and no `.`, and reads back as the octet |
| `Factory.RandomIP` | include/RequestFactory.h:34-39 | an address uses exactly the next four draws |
| `Factory.RandomIPRoundTrip` | include/RequestFactory.h:34-39 | an address made from four octet draws has exactly three dots, splits into the four octet texts, and reads back as the four draws |
| `Factory.JobType` | include/RequestFactory.h:23 | the job class is `'P'` exactly when the job draw is 0 and `'S'` otherwise |
| `Factory.MakeRequest` | include/RequestFactory.h:18-25 | a request uses exactly the next ten draws, and its job class is `'P'` or `'S'` |
| `Factory.MakeRequestFields` | include/RequestFactory.h:12-25 | the source address reads back as draws 0-3 and the destination as draws 4-7; the service time is draw 8 and lies in [taskTimeMin, taskTimeMax] when the draws lie in the distributions' ranges; the job class is `'P'` exactly when draw 9 is 0 |

## Left out

- File input: `std::ifstream` and `getline` are replaced by the file's lines as a `seq<string>`, with `None` for a file that cannot be opened.
- The parsing rules of `std::stoi` (prefix parses, overflow exceptions): `parseInt` is an arbitrary partial function passed in. A value it rejects stands for one on which `stoi` throws.
- The floating-point `newRequestProb`: its `stod` read, its clamp to [0, 1], and the Bernoulli arrival coin. `newRequestProb` is recognised as a key but changes no modelled field. The coin is the `arrives` parameter of `Routing.Switch.Step`.
- Randomness: the Mersenne Twister, the random device and the uniform distributions. Their draws are inputs (`Factory.MakeRequest`). In `Balancing.LoadBalancer`, the factory is the function `make`, where `make(k)` stands for the k-th request made.
- Factory.RandomIP: the model takes the four octet draws left to right. The order in which C++ evaluates the operands of the chained `+` is unspecified.
- Factory.MakeRequestFields: the ranges of the octet, time and job distributions enter as the assumption `DrawsInRange` on the draws. They are not derived from the distributions.
- Integer widths: `int` fields, `long long` counters and the `int` clock are unbounded here. The 32-bit product `numServers * initialQueueMultiplier` in `fillInitialQueue` and counter wrap-around are not modelled.
- Balancing.LoadBalancer.InitServers: requires a non-negative numServers. With a negative count, `servers_.reserve` at src/LoadBalancer.cpp:12 throws `std::length_error` and no balancer is built; that exception path is not modelled. The driver in src/main.cpp:16 raises numServers to at least 1.
- Balancing.LoadBalancer.constructor: requires a non-negative numServers, for the same reason as InitServers.
- Balancing.LoadBalancer.FillInitialQueue: the count is the exact product, with no 32-bit overflow (see above).
- Console output: the status lines in `LoadBalancer::run`, `Switch::summary`, `src/Simulation.cpp`, `src/main.cpp` (interactive prompts), `src/Logger.cpp` and `include/ConsoleColor.h`.
- The load-balancer operations `dispatch`, `scaleServers`, `processed`, `dropped`, `serverCount` and `generateSummary`: the switch and the driver call them, but `include/LoadBalancer.h` declares none of them. A switch's balancer is modelled only by its queue and `addRequest`. The calls to `dispatch` and `scaleServers` are recorded in order in the switch's trace and have no other effect.
- Routing.Switch.constructor: requires the two balancers to be different objects; the same holds for Routing.Switch.Route, through the switch invariant.
- Routing.Switch.Route: requires the two balancers to be different objects. A switch built over one balancer passed twice is not modelled.
- The `const Config&` references held by the switch and the factory: the model reads no configuration through them.
- Admission filtering, drop counting, checkpoint logging and autoscaling: no code in the modelled files implements them.
