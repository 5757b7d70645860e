/** Model of the orchestration in dnsleak.c, made sequential.

    The globals `running`, `total_packets` and `dns_sent` and the probe table are the fields
    of the class Session.  The outside world (capture callbacks, termination signals, the
    result codes of getaddrinfo_a, nanosleep and pthread_join) is an Oracle consulted at the
    points where the main thread can observe it.  The control flow of main from the first
    probe to the verdict is the method Session.ProbeAndReport, proved equal to the function
    MainSpec; the properties of the run are lemmas about MainSpec and SendLoop.
 */
module DnsLeak {
  import opened NamesCount

  /** Values of the C type u_int. */
  newtype u32 = x: int | 0 <= x < 0x1_0000_0000

  /** total_packets is a u_int32_t and wraps at this modulus. */
  const UInt32Modulus: int := 0x1_0000_0000

  /** EAI_INTR of glibc's <netdb.h>: the request was interrupted by a signal. */
  const EaiIntr: int := -104
  /** EINTR of Linux's <errno.h>. */
  const Eintr: int := 4

  // ---------------------------------------------------------------------------
  // millis_to_timespec
  // ---------------------------------------------------------------------------

  datatype Timespec = Timespec(tvSec: int, tvNsec: int)

  /** The whole milliseconds a normalised timespec stands for. */
  function TimespecMillis(t: Timespec): (ms: int) {
    t.tvSec * 1000 + t.tvNsec / 1_000_000
  }

  /** millis_to_timespec: seconds and the remaining milliseconds as nanoseconds. */
  function MillisToTimespec(millis: u32): (t: Timespec)
    ensures TimespecMillis(t) == millis as int
    ensures 0 <= t.tvSec && 0 <= t.tvNsec < 1_000_000_000
    ensures t.tvNsec % 1_000_000 == 0
    ensures millis == 0 ==> t == Timespec(0, 0)
  {
    Timespec(millis as int / 1000, (millis as int % 1000) * 1_000_000)
  }

  /** A normalised whole-millisecond timespec is what millis_to_timespec gives for its millis. */
  lemma MillisToTimespecOnto(t: Timespec)
    requires 0 <= t.tvSec && 0 <= t.tvNsec < 1_000_000_000 && t.tvNsec % 1_000_000 == 0
    requires TimespecMillis(t) < 0x1_0000_0000
    ensures MillisToTimespec(TimespecMillis(t) as u32) == t
  {
    var m := TimespecMillis(t);
    var q := t.tvNsec / 1_000_000;
    assert t.tvNsec == q * 1_000_000;
    assert 0 <= q < 1000;
    assert m / 1000 == t.tvSec && m % 1000 == q;
  }

  // ---------------------------------------------------------------------------
  // Configuration, oracle, observable actions
  // ---------------------------------------------------------------------------

  /** struct dnsleak_config, without the device name and the verbose flag. */
  datatype Config = Config(
    dnsRequestCount: u32,
    dnsRequestIntervalMs: u32,
    captureExtraTimeMs: u32,
    stopAfterNLeaks: u32)

  /** default_config. */
  const DefaultConfig: Config := Config(10, 200, 1000, 1)

  function Count(cfg: Config): (n: nat) {
    cfg.dnsRequestCount as nat
  }

  /** Something that happens outside the main thread: a capture callback or a signal. */
  datatype Event = Packet(hostname: string) | Signal

  /** The result of one nanosleep call: 0, or -1 with errno set. */
  datatype SleepResult = Slept | SleepFailed(errno: int)

  predicate SleepFails(r: SleepResult) {
    r.SleepFailed? && r.errno != Eintr
  }

  /** What the world answers at each point where the main thread looks at it. */
  datatype Oracle = Oracle(
    beforeCheck: seq<seq<Event>>,    // events handled before the i-th test of the loop condition
    beforeDispatch: seq<seq<Event>>, // events handled between the i-th test and its getaddrinfo_a
    dispatch: seq<int>,              // result of getaddrinfo_a in iteration i
    afterDispatch: seq<seq<Event>>,  // events handled between dispatch i and its sleep decision
    pause: seq<SleepResult>,         // result of the inter-probe nanosleep of iteration i
    afterLoop: seq<Event>,           // events handled between the last loop test and the grace test
    grace: SleepResult,              // result of the grace-period nanosleep
    drain: seq<Event>,               // events handled after the grace decision, before pcap_breakloop
    duringJoin: seq<Event>,          // events handled while main waits in pthread_join
    join: int)                       // result of pthread_join

  /** The oracle answers every question the run can ask. */
  predicate OracleCovers(cfg: Config, o: Oracle) {
    |o.beforeCheck| > Count(cfg) && |o.beforeDispatch| >= Count(cfg) && |o.dispatch| >= Count(cfg) &&
    |o.afterDispatch| >= Count(cfg) && |o.pause| >= Count(cfg)
  }

  datatype Verdict = LeaksDetected | NoLeakDetected

  /** The externally visible steps of a run, in order. */
  datatype Action =
    | Resolve(index: nat, name: string)   // getaddrinfo_a on names_get_nth(index)
    | Pause(duration: Timespec)           // the inter-probe nanosleep
    | GracePause(duration: Timespec)      // the nanosleep of capture_extra_time_ms
    | BreakCapture                        // pcap_breakloop
    | Report(verdict: Verdict)            // the final message

  /** Running: the send loop ended and the run goes on; the others end the process. */
  datatype Status =
    | Running
    | Failure   // return EXIT_FAILURE
    | Killed    // exit(1) from the second signal
    | Success   // return EXIT_SUCCESS after the verdict

  /** The globals the run reads and writes, as values. */
  datatype World = World(
    names: seq<string>,
    hits: seq<bool>,
    running: bool,
    totalPackets: int,
    dnsSent: int)

  datatype Outcome = Outcome(world: World, trace: seq<Action>, status: Status)

  function Then(t: seq<Action>, r: Outcome): (r': Outcome) {
    r.(trace := t + r.trace)
  }

  /** names_get_marked() of a world. */
  function Marked(w: World): (n: nat) {
    CountTrue(w.hits)
  }

  /** The two messages of the verdict. */
  function VerdictOf(marked: int): (v: Verdict) {
    if marked != 0 then LeaksDetected else NoLeakDetected
  }

  // ---------------------------------------------------------------------------
  // signals_handler and on_protocol_discovered, as values
  // ---------------------------------------------------------------------------

  /** What signals_handler does beyond updating running. */
  datatype SignalAction = Terminate(breakCapture: bool) | ExitProcess(status: int)

  /** signals_handler: the new value of running and the action taken. */
  function OnSignal(running: bool, captureOpen: bool): (r: (bool, SignalAction))
    ensures !r.0
    ensures r.1.ExitProcess? <==> !running
    ensures r.1 == ExitProcess(1) || r.1 == Terminate(captureOpen)
  {
    if running then (false, Terminate(captureOpen)) else (false, ExitProcess(1))
  }

  /** on_protocol_discovered: count the packet, then names_mark its hostname. */
  function OnPacket(w: World, hostname: string): (w': World)
    requires |w.hits| == |w.names|
    ensures w'.names == w.names && |w'.hits| == |w.hits|
    ensures w'.running == w.running && w'.dnsSent == w.dnsSent
    ensures 0 <= w'.totalPackets < UInt32Modulus
    ensures forall k :: 0 <= k < |w.hits| && w.hits[k] ==> w'.hits[k]
  {
    w.(totalPackets := (w.totalPackets + 1) % UInt32Modulus,
       hits := MarkHits(w.names, w.hits, hostname))
  }

  /** The handling of one event: a signal while not running ends the process. */
  function Step(w: World, e: Event): (r: Outcome)
    requires |w.hits| == |w.names|
    ensures r.world.names == w.names && |r.world.hits| == |w.hits|
    ensures r.world.dnsSent == w.dnsSent
    ensures r.status == Running || r.status == Killed
  {
    match e
    case Packet(h) => Outcome(OnPacket(w, h), [], Running)
    case Signal =>
      var (running', action) := OnSignal(w.running, true);
      if action.ExitProcess? then Outcome(w.(running := running'), [], Killed)
      else Outcome(w.(running := running'), [BreakCapture], Running)
  }

  /** Handle events in arrival order until one ends the process. */
  function Deliver(w: World, evs: seq<Event>): (r: Outcome)
    requires |w.hits| == |w.names|
    ensures r.world.names == w.names && |r.world.hits| == |w.hits|
    ensures r.world.dnsSent == w.dnsSent
    ensures r.status == Running || r.status == Killed
    decreases |evs|
  {
    if evs == [] then Outcome(w, [], Running)
    else
      var s := Step(w, evs[0]);
      if s.status == Killed then s else Then(s.trace, Deliver(s.world, evs[1..]))
  }

  // ---------------------------------------------------------------------------
  // The run of main, lines 340-400, as a function
  // ---------------------------------------------------------------------------

  predicate SendAction(a: Action) {
    a.Resolve? || a.Pause? || a == BreakCapture
  }

  /** The condition of the for loop of main. */
  predicate LoopCondition(cfg: Config, i: nat, w: World) {
    i < Count(cfg) && w.running && Marked(w) < cfg.stopAfterNLeaks as int
  }

  /** A getaddrinfo_a result that aborts the run. */
  predicate DispatchFails(rv: int) {
    rv != 0 && rv != EaiIntr
  }

  /** The send loop from the i-th test of its condition on. */
  function SendLoop(cfg: Config, o: Oracle, i: nat, w: World): (r: Outcome)
    requires OracleCovers(cfg, o) && i <= Count(cfg)
    requires |w.hits| == |w.names| == Count(cfg)
    ensures r.world.names == w.names && |r.world.hits| == |w.hits|
    decreases Count(cfg) - i, 3
  {
    var d := Deliver(w, o.beforeCheck[i]);
    if d.status == Killed || !LoopCondition(cfg, i, d.world) then d
    else Then(d.trace, Launch(cfg, o, i, d.world))
  }

  /** Iteration i once its test held: the events that come before its getaddrinfo_a, then the probe. */
  function Launch(cfg: Config, o: Oracle, i: nat, w: World): (r: Outcome)
    requires OracleCovers(cfg, o) && i < Count(cfg)
    requires |w.hits| == |w.names| == Count(cfg)
    ensures r.world.names == w.names && |r.world.hits| == |w.hits|
    decreases Count(cfg) - i, 2
  {
    var e := Deliver(w, o.beforeDispatch[i]);
    if e.status == Killed then e else Then(e.trace, Probe(cfg, o, i, e.world))
  }

  /** The body of iteration i: dispatch names_get_nth(i), then the sleep decision. */
  function Probe(cfg: Config, o: Oracle, i: nat, w: World): (r: Outcome)
    requires OracleCovers(cfg, o) && i < Count(cfg)
    requires |w.hits| == |w.names| == Count(cfg)
    ensures r.world.names == w.names && |r.world.hits| == |w.hits|
    decreases Count(cfg) - i, 1
  {
    var sent := [Resolve(i, w.names[i])];
    if DispatchFails(o.dispatch[i]) then Outcome(w, sent, Failure)
    else Then(sent, AfterDispatch(cfg, o, i, Deliver(w.(dnsSent := w.dnsSent + 1), o.afterDispatch[i])))
  }

  /** The end of iteration i once its probe is counted: sleep unless it was the last or running is 0. */
  function AfterDispatch(cfg: Config, o: Oracle, i: nat, a: Outcome): (r: Outcome)
    requires OracleCovers(cfg, o) && i < Count(cfg)
    requires |a.world.hits| == |a.world.names| == Count(cfg)
    ensures r.world.names == a.world.names && |r.world.hits| == |a.world.hits|
    decreases Count(cfg) - i, 0
  {
    if a.status == Killed then a
    else if a.world.running && i != Count(cfg) - 1 then
      var slept := a.trace + [Pause(MillisToTimespec(cfg.dnsRequestIntervalMs))];
      if SleepFails(o.pause[i]) then Outcome(a.world, slept, Failure)
      else Then(slept, SendLoop(cfg, o, i + 1, a.world))
    else Then(a.trace, SendLoop(cfg, o, i + 1, a.world))
  }

  /** After the send loop: the events before the grace test, then the grace period. */
  function Finish(cfg: Config, o: Oracle, w: World): (r: Outcome)
    requires |w.hits| == |w.names|
    ensures r.world.names == w.names && |r.world.hits| == |w.hits| && r.world.dnsSent == w.dnsSent
    ensures r.status != Running
  {
    var a := Deliver(w, o.afterLoop);
    if a.status == Killed then a else Then(a.trace, Grace(cfg, o, a.world))
  }

  /** The grace period if the threshold is not reached, then the capture shutdown and the verdict. */
  function Grace(cfg: Config, o: Oracle, w: World): (r: Outcome)
    requires |w.hits| == |w.names|
    ensures r.world.names == w.names && |r.world.hits| == |w.hits| && r.world.dnsSent == w.dnsSent
    ensures r.status != Running
  {
    if Marked(w) < cfg.stopAfterNLeaks as int then
      var grace := [GracePause(MillisToTimespec(cfg.captureExtraTimeMs))];
      if SleepFails(o.grace) then Outcome(w, grace, Failure)
      else Then(grace, Shutdown(o, Deliver(w, o.drain)))
    else Shutdown(o, Deliver(w, o.drain))
  }

  /** pcap_breakloop, the events handled while pthread_join waits, its result and the verdict,
      after the events d of the grace period. */
  function Shutdown(o: Oracle, d: Outcome): (r: Outcome)
    requires |d.world.hits| == |d.world.names|
    ensures r.world.names == d.world.names && |r.world.hits| == |d.world.hits|
    ensures r.world.dnsSent == d.world.dnsSent
    ensures r.status != Running
  {
    if d.status == Killed then d
    else
      var broken := d.trace + [BreakCapture];
      var j := Deliver(d.world, o.duringJoin);
      if j.status == Killed then Outcome(j.world, broken + j.trace, Killed)
      else if o.join != 0 then Outcome(j.world, broken + j.trace, Failure)
      else Outcome(j.world, broken + j.trace + [Report(VerdictOf(Marked(j.world)))], Success)
  }

  /** main from the computation of const_time to the verdict. */
  function MainSpec(cfg: Config, o: Oracle, w: World): (r: Outcome)
    requires OracleCovers(cfg, o)
    requires |w.hits| == |w.names| == Count(cfg)
    ensures r.status != Running
    ensures r.world.names == w.names && |r.world.hits| == |w.hits|
  {
    var s := SendLoop(cfg, o, 0, w);
    if s.status != Running then s else Then(s.trace, Finish(cfg, o, s.world))
  }

  /** Probe once the dispatch succeeded. */
  lemma ProbeUnfold(cfg: Config, o: Oracle, i: nat, w: World)
    requires OracleCovers(cfg, o) && i < Count(cfg)
    requires |w.hits| == |w.names| == Count(cfg)
    requires !DispatchFails(o.dispatch[i])
    ensures Probe(cfg, o, i, w) ==
            Then([Resolve(i, w.names[i])], AfterDispatch(cfg, o, i, Deliver(w.(dnsSent := w.dnsSent + 1), o.afterDispatch[i])))
  {
  }

  /** Deliver handles the first event, then the rest unless the process ended. */
  lemma DeliverCons(w: World, e: Event, rest: seq<Event>)
    requires |w.hits| == |w.names|
    ensures var s := Step(w, e);
            Deliver(w, [e] + rest) == if s.status == Killed then s else Then(s.trace, Deliver(s.world, rest))
  {
    assert ([e] + rest)[0] == e;
    assert ([e] + rest)[1..] == rest;
  }

  lemma ThenThen(pre: seq<Action>, t: seq<Action>, r: Outcome)
    ensures Then(pre, Then(t, r)) == Then(pre + t, r)
  {
    assert pre + (t + r.trace) == (pre + t) + r.trace;
  }

  // ---------------------------------------------------------------------------
  // The globals and the main thread
  // ---------------------------------------------------------------------------

  class Session {
    /** running: 1 until the first termination signal. */
    var running: bool
    /** total_packets: DNS flows seen by on_protocol_discovered, a u_int32_t. */
    var totalPackets: int
    /** dns_sent: probes dispatched so far. */
    var dnsSent: int
    /** The names_count.c globals. */
    const registry: ProbeTable

    ghost predicate Valid()
      reads this, registry, registry.searchNames, registry.searchHits
    {
      registry.Valid() && 0 <= totalPackets < UInt32Modulus
    }

    ghost function State(): (w: World)
      reads this, registry, registry.searchNames, registry.searchHits
      requires Valid()
      ensures |w.hits| == |w.names|
    {
      World(registry.names, registry.Hits(), running, totalPackets, dnsSent)
    }

    /** The initial values of the globals of dnsleak.c. */
    constructor (table: ProbeTable)
      ensures registry == table
      ensures running && totalPackets == 0 && dnsSent == 0
    {
      registry := table;
      running := true;
      totalPackets := 0;
      dnsSent := 0;
    }

    /** signals_handler: captureOpen says whether workflow is set. */
    method SignalsHandler(captureOpen: bool) returns (action: SignalAction)
      modifies this`running
      ensures (running, action) == OnSignal(old(running), captureOpen)
    {
      if running {
        running := false;
        action := Terminate(captureOpen);
      } else {
        action := ExitProcess(1);
      }
    }

    /** on_protocol_discovered: total_packets++, then names_mark(hostname). */
    method OnProtocolDiscovered(hostname: string) returns (marked: int)
      requires Valid()
      modifies this`totalPackets, registry.searchHits
      ensures Valid()
      ensures State() == OnPacket(old(State()), hostname)
      ensures marked == (if hostname in registry.names then 1 else 0)
    {
      totalPackets := (totalPackets + 1) % UInt32Modulus;
      marked := registry.Mark(hostname);
    }

    /** Handle one event: on_protocol_discovered for a packet, signals_handler for a signal. */
    method HandleEvent(e: Event) returns (trace: seq<Action>, killed: bool)
      requires Valid()
      modifies this`running, this`totalPackets, registry.searchHits
      ensures Valid()
      ensures Step(old(State()), e) == Outcome(State(), trace, if killed then Killed else Running)
    {
      trace, killed := [], false;
      match e {
        case Packet(h) =>
          var _ := OnProtocolDiscovered(h);
        case Signal =>
          var action := SignalsHandler(true);
          if action.ExitProcess? {
            killed := true;
          } else {
            trace := [BreakCapture];
          }
      }
    }

    /** Handle the events the oracle delivers at one point of the main thread. */
    method DeliverEvents(evs: seq<Event>) returns (trace: seq<Action>, killed: bool)
      requires Valid()
      modifies this`running, this`totalPackets, registry.searchHits
      ensures Valid()
      ensures Deliver(old(State()), evs) == Outcome(State(), trace, if killed then Killed else Running)
    {
      trace := [];
      killed := false;
      ghost var w0 := State();
      var j := 0;
      while j < |evs|
        invariant 0 <= j <= |evs|
        invariant Valid()
        invariant Deliver(w0, evs) == Then(trace, Deliver(State(), evs[j..]))
      {
        ghost var w := State();
        assert evs[j..] == [evs[j]] + evs[j + 1..];
        DeliverCons(w, evs[j], evs[j + 1..]);
        var t;
        t, killed := HandleEvent(evs[j]);
        ThenThen(trace, t, Deliver(State(), evs[j + 1..]));
        trace := trace + t;
        if killed {
          return;
        }
        j := j + 1;
      }
    }

    /** One pass of the for loop of main: the condition test and, if it holds, one probe. */
    method SendIteration(cfg: Config, o: Oracle, constTime: Timespec, i: nat)
      returns (status: Status, trace: seq<Action>, next: bool)
      requires Valid() && OracleCovers(cfg, o) && i <= Count(cfg)
      requires |registry.names| == registry.searchN == Count(cfg)
      requires constTime == MillisToTimespec(cfg.dnsRequestIntervalMs)
      modifies this`running, this`totalPackets, this`dnsSent, registry.searchHits
      ensures Valid()
      ensures next ==> i < Count(cfg) &&
                       SendLoop(cfg, o, i, old(State())) == Then(trace, SendLoop(cfg, o, i + 1, State()))
      ensures !next ==> SendLoop(cfg, o, i, old(State())) == Outcome(State(), trace, status)
    {
      var t, killed := DeliverEvents(o.beforeCheck[i]);
      if killed {
        return Killed, t, false;
      }
      var marked := registry.GetMarked();
      if !(i < Count(cfg) && running && marked < cfg.stopAfterNLeaks as int) {
        return Running, t, false;
      }
      var u;
      status, u, next := LaunchStep(cfg, o, constTime, i);
      trace := t + u;
    }

    /** The body of the for loop of main, lines 345-373, once its condition holds: the events
        that arrive before getaddrinfo_a, then the probe. */
    method LaunchStep(cfg: Config, o: Oracle, constTime: Timespec, i: nat)
      returns (status: Status, trace: seq<Action>, next: bool)
      requires Valid() && OracleCovers(cfg, o) && i < Count(cfg)
      requires |registry.names| == registry.searchN == Count(cfg)
      requires constTime == MillisToTimespec(cfg.dnsRequestIntervalMs)
      modifies this`running, this`totalPackets, this`dnsSent, registry.searchHits
      ensures Valid()
      ensures next ==> Launch(cfg, o, i, old(State())) == Then(trace, SendLoop(cfg, o, i + 1, State()))
      ensures !next ==> Launch(cfg, o, i, old(State())) == Outcome(State(), trace, status)
    {
      var t, killed := DeliverEvents(o.beforeDispatch[i]);
      if killed {
        return Killed, t, false;
      }
      var u;
      status, u, next := ProbeStep(cfg, o, constTime, i);
      ThenThen(t, u, if next then SendLoop(cfg, o, i + 1, State()) else Outcome(State(), [], status));
      trace := t + u;
    }

    /** Lines 352-373: getaddrinfo_a on names_get_nth(i), dns_sent++ and the sleep decision. */
    method ProbeStep(cfg: Config, o: Oracle, constTime: Timespec, i: nat)
      returns (status: Status, trace: seq<Action>, next: bool)
      requires Valid() && OracleCovers(cfg, o) && i < Count(cfg)
      requires |registry.names| == registry.searchN == Count(cfg)
      requires constTime == MillisToTimespec(cfg.dnsRequestIntervalMs)
      modifies this`running, this`totalPackets, this`dnsSent, registry.searchHits
      ensures Valid()
      ensures next ==> Probe(cfg, o, i, old(State())) == Then(trace, SendLoop(cfg, o, i + 1, State()))
      ensures !next ==> Probe(cfg, o, i, old(State())) == Outcome(State(), trace, status)
    {
      ghost var w := State();
      var name := registry.GetNth(i).value;
      var rv := o.dispatch[i];
      if rv != 0 {
        if rv != EaiIntr {
          return Failure, [Resolve(i, name)], false;
        }
      }
      dnsSent := dnsSent + 1;
      assert State() == w.(dnsSent := w.dnsSent + 1);
      var t, killed := DeliverEvents(o.afterDispatch[i]);
      ProbeUnfold(cfg, o, i, w);
      var u;
      status, u, next := SleepStep(cfg, o, constTime, i, t, killed);
      ThenThen([Resolve(i, name)], u, if next then SendLoop(cfg, o, i + 1, State()) else Outcome(State(), [], status));
      trace := [Resolve(i, name)] + u;
    }

    /** The sleep at the end of an iteration of the for loop of main, lines 368-373. */
    method SleepStep(cfg: Config, o: Oracle, constTime: Timespec, i: nat, t: seq<Action>, killed: bool)
      returns (status: Status, trace: seq<Action>, next: bool)
      requires Valid() && OracleCovers(cfg, o) && i < Count(cfg)
      requires |registry.names| == Count(cfg)
      requires constTime == MillisToTimespec(cfg.dnsRequestIntervalMs)
      ensures var a := Outcome(State(), t, if killed then Killed else Running);
              && (next ==> AfterDispatch(cfg, o, i, a) == Then(trace, SendLoop(cfg, o, i + 1, State())))
              && (!next ==> AfterDispatch(cfg, o, i, a) == Outcome(State(), trace, status))
    {
      trace := t;
      if killed {
        return Killed, trace, false;
      }
      if running && i != Count(cfg) - 1 {
        trace := trace + [Pause(constTime)];
        if SleepFails(o.pause[i]) {
          return Failure, trace, false;
        }
      }
      status, next := Running, true;
    }

    /** The for loop of main, lines 342-374. */
    method SendProbes(cfg: Config, o: Oracle) returns (status: Status, trace: seq<Action>)
      requires Valid() && OracleCovers(cfg, o)
      requires registry.searchN == Count(cfg)
      modifies this`running, this`totalPackets, this`dnsSent, registry.searchHits
      ensures Valid()
      ensures SendLoop(cfg, o, 0, old(State())) == Outcome(State(), trace, status)
    {
      var constTime := MillisToTimespec(cfg.dnsRequestIntervalMs);
      ghost var w0 := State();
      trace := [];
      var i := 0;
      while true
        invariant Valid() && 0 <= i <= Count(cfg)
        invariant SendLoop(cfg, o, 0, w0) == Then(trace, SendLoop(cfg, o, i, State()))
        decreases Count(cfg) - i
      {
        var t, next;
        status, t, next := SendIteration(cfg, o, constTime, i);
        if !next {
          return status, trace + t;
        }
        trace := trace + t;
        i := i + 1;
      }
    }

    /** main, lines 340-400: send the probes, wait, stop the capture, report the verdict. */
    method ProbeAndReport(cfg: Config, o: Oracle) returns (status: Status, trace: seq<Action>)
      requires Valid() && OracleCovers(cfg, o)
      requires registry.searchN == Count(cfg)
      modifies this`running, this`totalPackets, this`dnsSent, registry.searchHits
      ensures Valid()
      ensures MainSpec(cfg, o, old(State())) == Outcome(State(), trace, status)
    {
      status, trace := SendProbes(cfg, o);
      if status != Running {
        return;
      }
      var t;
      status, t := FinishRun(cfg, o);
      trace := trace + t;
    }

    /** main, lines 376-400: the grace period, then the shutdown. */
    method FinishRun(cfg: Config, o: Oracle) returns (status: Status, trace: seq<Action>)
      requires Valid()
      modifies this`running, this`totalPackets, registry.searchHits
      ensures Valid()
      ensures Finish(cfg, o, old(State())) == Outcome(State(), trace, status)
    {
      var t, killed := DeliverEvents(o.afterLoop);
      if killed {
        return Killed, t;
      }
      var u;
      status, u := GraceStep(cfg, o);
      trace := t + u;
    }

    /** main, lines 376-400 from the grace test on. */
    method GraceStep(cfg: Config, o: Oracle) returns (status: Status, trace: seq<Action>)
      requires Valid()
      modifies this`running, this`totalPackets, registry.searchHits
      ensures Valid()
      ensures Grace(cfg, o, old(State())) == Outcome(State(), trace, status)
    {
      var marked := registry.GetMarked();
      trace := [];
      if marked < cfg.stopAfterNLeaks as int {
        trace := [GracePause(MillisToTimespec(cfg.captureExtraTimeMs))];
        if SleepFails(o.grace) {
          return Failure, trace;
        }
      }
      var t, killed := DeliverEvents(o.drain);
      var u;
      status, u := ShutdownStep(o, t, killed);
      trace := trace + u;
    }

    /** main, lines 386-400: pcap_breakloop, pthread_join with the events handled while it
        waits, and the verdict. */
    method ShutdownStep(o: Oracle, t: seq<Action>, killed: bool) returns (status: Status, trace: seq<Action>)
      requires Valid()
      modifies this`running, this`totalPackets, registry.searchHits
      ensures Valid()
      ensures Shutdown(o, Outcome(old(State()), t, if killed then Killed else Running)) == Outcome(State(), trace, status)
    {
      if killed {
        return Killed, t;
      }
      trace := t + [BreakCapture];
      var j, killedInJoin := DeliverEvents(o.duringJoin);
      trace := trace + j;
      if killedInJoin {
        return Killed, trace;
      }
      if o.join != 0 {
        return Failure, trace;
      }
      var marked := registry.GetMarked();
      trace := trace + [Report(VerdictOf(marked))];
      status := Success;
    }
  }
}
