/** Properties of the run of main, stated about the functions of DnsLeak that
    Session.ProbeAndReport is proved to compute.  Each lemma holds for every oracle, so for
    every interleaving of capture callbacks and signals at the points the model observes. */
module RunProperties {
  import opened NamesCount
  import opened DnsLeak

  // ---------------------------------------------------------------------------
  // Counting events
  // ---------------------------------------------------------------------------

  function PacketCount(evs: seq<Event>): (n: nat) {
    if evs == [] then 0 else (if evs[0].Packet? then 1 else 0) + PacketCount(evs[1..])
  }

  function SignalCount(evs: seq<Event>): (n: nat) {
    if evs == [] then 0 else (if evs[0].Signal? then 1 else 0) + SignalCount(evs[1..])
  }

  /** No flag that was set is cleared. */
  predicate HitsGrow(h: seq<bool>, g: seq<bool>) {
    |h| == |g| && forall k :: 0 <= k < |h| && h[k] ==> g[k]
  }

  lemma HitsGrowTransitive(h: seq<bool>, g: seq<bool>, f: seq<bool>)
    requires HitsGrow(h, g) && HitsGrow(g, f)
    ensures HitsGrow(h, f)
  {
  }

  /** (x mod 2^32 + c) mod 2^32 == (x + c) mod 2^32. */
  lemma ModAddLeft(x: int, c: int)
    ensures (x % UInt32Modulus + c) % UInt32Modulus == (x + c) % UInt32Modulus
  {
    var q := x / UInt32Modulus;
    assert x == q * UInt32Modulus + x % UInt32Modulus;
    assert x + c == (x % UInt32Modulus + c) + q * UInt32Modulus;
  }

  // ---------------------------------------------------------------------------
  // Handling events: signals_handler and on_protocol_discovered in sequence
  // ---------------------------------------------------------------------------

  /** Marking only sets flags, so the marked count never falls while events are handled. */
  lemma {:induction false} DeliverHits(w: World, evs: seq<Event>)
    requires |w.hits| == |w.names|
    ensures HitsGrow(w.hits, Deliver(w, evs).world.hits)
    ensures Marked(w) <= Marked(Deliver(w, evs).world)
    decreases |evs|
  {
    var r := Deliver(w, evs);
    if evs != [] {
      var s := Step(w, evs[0]);
      assert HitsGrow(w.hits, s.world.hits);
      if s.status != Killed {
        DeliverHits(s.world, evs[1..]);
        HitsGrowTransitive(w.hits, s.world.hits, r.world.hits);
      }
    }
    CountTrueMonotone(w.hits, r.world.hits);
  }

  /** The signal state machine over a run of events: the first signal while running clears it
      and breaks the capture, the next signal ends the process, and running never comes back. */
  lemma {:induction false} DeliverSignals(w: World, evs: seq<Event>)
    requires |w.hits| == |w.names|
    ensures var r := Deliver(w, evs);
            && r.world.running == (w.running && SignalCount(evs) == 0)
            && r.trace == (if w.running && SignalCount(evs) > 0 then [BreakCapture] else [])
            && r.status == (if SignalCount(evs) >= (if w.running then 2 else 1) then Killed else Running)
    decreases |evs|
  {
    if evs != [] {
      var s := Step(w, evs[0]);
      if s.status != Killed {
        DeliverSignals(s.world, evs[1..]);
      }
    }
  }

  /** Each packet adds one to total_packets, modulo 2^32, whether or not its name matched. */
  lemma {:induction false} DeliverPackets(w: World, evs: seq<Event>)
    requires |w.hits| == |w.names| && 0 <= w.totalPackets < UInt32Modulus
    ensures var r := Deliver(w, evs);
            && 0 <= r.world.totalPackets < UInt32Modulus
            && (r.status == Running ==>
                  r.world.totalPackets == (w.totalPackets + PacketCount(evs)) % UInt32Modulus)
    decreases |evs|
  {
    if evs != [] {
      var s := Step(w, evs[0]);
      if s.status != Killed {
        DeliverPackets(s.world, evs[1..]);
        if evs[0].Packet? {
          ModAddLeft(w.totalPackets + 1, PacketCount(evs[1..]));
        }
      }
    }
  }

  // ---------------------------------------------------------------------------
  // Reading a trace
  // ---------------------------------------------------------------------------

  /** The indices of the probes a trace sends, in order. */
  function Probes(t: seq<Action>): (p: seq<nat>) {
    if t == [] then [] else (if t[0].Resolve? then [t[0].index] else []) + Probes(t[1..])
  }

  lemma {:induction false} ProbesAppend(a: seq<Action>, b: seq<Action>)
    ensures Probes(a + b) == Probes(a) + Probes(b)
  {
    if a != [] {
      assert (a + b)[0] == a[0];
      assert (a + b)[1..] == a[1..] + b;
      ProbesAppend(a[1..], b);
    } else {
      assert a + b == b;
    }
  }

  lemma {:induction false} ProbesNone(t: seq<Action>)
    requires forall n :: 0 <= n < |t| ==> !t[n].Resolve?
    ensures Probes(t) == []
  {
    if t != [] {
      ProbesNone(t[1..]);
    }
  }

  /** p holds lo, lo + 1, lo + 2, ... */
  predicate Consecutive(p: seq<nat>, lo: nat) {
    forall n :: 0 <= n < |p| ==> p[n] == lo + n
  }

  /** A trace made of capture breaks only. */
  predicate OnlyBreaks(t: seq<Action>) {
    forall n :: 0 <= n < |t| ==> t[n] == BreakCapture
  }

  /** Every probe of t is of the stored name of its index. */
  predicate ProbesStored(names: seq<string>, t: seq<Action>) {
    forall n :: 0 <= n < |t| && t[n].Resolve? ==> t[n].index < |names| && t[n].name == names[t[n].index]
  }

  /** Every action is a probe of the stored name of its index, a pause or a capture break. */
  predicate SendsStored(names: seq<string>, t: seq<Action>) {
    (forall n :: 0 <= n < |t| ==> SendAction(t[n])) && ProbesStored(names, t)
  }

  lemma SendsStoredAppend(names: seq<string>, a: seq<Action>, b: seq<Action>)
    requires SendsStored(names, a) && SendsStored(names, b)
    ensures SendsStored(names, a + b)
  {
    forall n | 0 <= n < |a + b|
      ensures SendAction((a + b)[n])
      ensures (a + b)[n].Resolve? ==> (a + b)[n].index < |names| && (a + b)[n].name == names[(a + b)[n].index]
    {
      if n >= |a| {
        assert (a + b)[n] == b[n - |a|];
      }
    }
  }

  // ---------------------------------------------------------------------------
  // The send loop: what it sends
  // ---------------------------------------------------------------------------

  /** The send loop from world w, ending in r: no verdict, only probes of stored names, pauses
      and capture breaks; running is never set again and the marked count does not fall. */
  ghost predicate Shaped(w: World, r: Outcome) {
    && r.status != Success
    && SendsStored(w.names, r.trace)
    && (r.world.running ==> w.running)
    && Marked(w) <= Marked(r.world)
  }

  /** Facts about the events handled at one boundary. */
  lemma DeliverShaped(w: World, evs: seq<Event>)
    requires |w.hits| == |w.names|
    ensures var d := Deliver(w, evs);
            Shaped(w, d) && OnlyBreaks(d.trace) && (d.trace != [] ==> !d.world.running)
  {
    DeliverSignals(w, evs);
    DeliverHits(w, evs);
  }

  /** Shaped composes: a shaped prefix from w, then a shaped rest from a later world w'. */
  lemma ShapedThen(w: World, w': World, t: seq<Action>, r: Outcome)
    requires SendsStored(w.names, t) && Shaped(w', r)
    requires w'.names == w.names && (w'.running ==> w.running) && Marked(w) <= Marked(w')
    ensures Shaped(w, Then(t, r))
  {
    SendsStoredAppend(w.names, t, r.trace);
  }

  lemma {:induction false} SendLoopShaped(cfg: Config, o: Oracle, i: nat, w: World)
    requires OracleCovers(cfg, o) && i <= Count(cfg)
    requires |w.hits| == |w.names| == Count(cfg)
    ensures Shaped(w, SendLoop(cfg, o, i, w))
    decreases Count(cfg) - i, 3
  {
    var d := Deliver(w, o.beforeCheck[i]);
    DeliverShaped(w, o.beforeCheck[i]);
    if d.status != Killed && LoopCondition(cfg, i, d.world) {
      LaunchShaped(cfg, o, i, d.world);
      ShapedThen(w, d.world, d.trace, Launch(cfg, o, i, d.world));
    }
  }

  lemma {:induction false} LaunchShaped(cfg: Config, o: Oracle, i: nat, w: World)
    requires OracleCovers(cfg, o) && i < Count(cfg)
    requires |w.hits| == |w.names| == Count(cfg)
    ensures Shaped(w, Launch(cfg, o, i, w))
    decreases Count(cfg) - i, 2
  {
    var e := Deliver(w, o.beforeDispatch[i]);
    DeliverShaped(w, o.beforeDispatch[i]);
    if e.status != Killed {
      ProbeShaped(cfg, o, i, e.world);
      ShapedThen(w, e.world, e.trace, Probe(cfg, o, i, e.world));
    }
  }

  lemma {:induction false} ProbeShaped(cfg: Config, o: Oracle, i: nat, w: World)
    requires OracleCovers(cfg, o) && i < Count(cfg)
    requires |w.hits| == |w.names| == Count(cfg)
    ensures Shaped(w, Probe(cfg, o, i, w))
    decreases Count(cfg) - i, 1
  {
    var sent := [Resolve(i, w.names[i])];
    if DispatchFails(o.dispatch[i]) {
      assert Probe(cfg, o, i, w) == Outcome(w, sent, Failure);
    } else {
      var w1 := w.(dnsSent := w.dnsSent + 1);
      var a := Deliver(w1, o.afterDispatch[i]);
      ProbeUnfold(cfg, o, i, w);
      DeliverShaped(w1, o.afterDispatch[i]);
      assert Marked(w1) == Marked(w);
      AfterDispatchShaped(cfg, o, i, a);
      ShapedThen(w, a.world, sent, AfterDispatch(cfg, o, i, a));
    }
  }

  lemma {:induction false} AfterDispatchShaped(cfg: Config, o: Oracle, i: nat, a: Outcome)
    requires OracleCovers(cfg, o) && i < Count(cfg)
    requires |a.world.hits| == |a.world.names| == Count(cfg)
    requires a.status == Running || a.status == Killed
    requires OnlyBreaks(a.trace)
    ensures Shaped(a.world, AfterDispatch(cfg, o, i, a))
    decreases Count(cfg) - i, 0
  {
    CountTrueMonotone(a.world.hits, a.world.hits);
    if a.status != Killed {
      var slept := if a.world.running && i != Count(cfg) - 1
                   then a.trace + [Pause(MillisToTimespec(cfg.dnsRequestIntervalMs))] else a.trace;
      if !(a.world.running && i != Count(cfg) - 1 && SleepFails(o.pause[i])) {
        SendLoopShaped(cfg, o, i + 1, a.world);
        ShapedThen(a.world, a.world, slept, SendLoop(cfg, o, i + 1, a.world));
      }
    }
  }

  // ---------------------------------------------------------------------------
  // The send loop: how far it goes and how it counts
  // ---------------------------------------------------------------------------

  /** 1 when the run failed on the dispatch of its last probe, which dns_sent does not count. */
  function Unsent(r: Outcome): (n: nat) {
    if r.status == Failure && r.trace != [] && r.trace[|r.trace| - 1].Resolve? then 1 else 0
  }

  /** The send loop from iteration i in world w, ending in r:
      - its probes are names_get_nth(i), names_get_nth(i + 1), ..., at most dns_request_count in all;
      - dns_sent grows by one per probe, except for a probe whose dispatch failed;
      - a failure is always the last action of the trace;
      - a loop that ends normally while running and below the threshold did every iteration. */
  ghost predicate Counted(cfg: Config, i: nat, w: World, r: Outcome) {
    && i + |Probes(r.trace)| <= Count(cfg) && Consecutive(Probes(r.trace), i)
    && r.world.dnsSent + Unsent(r) == w.dnsSent + |Probes(r.trace)|
    && (r.status == Failure ==> r.trace != [])
    && (r.status == Running && r.world.running && Marked(r.world) < cfg.stopAfterNLeaks as int ==>
          i + |Probes(r.trace)| == Count(cfg))
  }

  /** Counted composes: a prefix with probes i .. j - 1, then a counted rest from iteration j. */
  lemma CountedThen(cfg: Config, i: nat, w: World, t: seq<Action>, j: nat, w': World, r: Outcome)
    requires Consecutive(Probes(t), i) && j == i + |Probes(t)|
    requires w'.dnsSent == w.dnsSent + |Probes(t)|
    requires Counted(cfg, j, w', r)
    ensures Counted(cfg, i, w, Then(t, r))
  {
    var r' := Then(t, r);
    ProbesAppend(t, r.trace);
    var p := Probes(r'.trace);
    forall n | 0 <= n < |p|
      ensures p[n] == i + n
    {
      if n >= |Probes(t)| {
        assert p[n] == Probes(r.trace)[n - |Probes(t)|];
      }
    }
    if r.trace != [] {
      assert r'.trace[|r'.trace| - 1] == r.trace[|r.trace| - 1];
    }
    assert Unsent(r') == Unsent(r);
  }

  lemma {:induction false} SendLoopCounted(cfg: Config, o: Oracle, i: nat, w: World)
    requires OracleCovers(cfg, o) && i <= Count(cfg)
    requires |w.hits| == |w.names| == Count(cfg)
    ensures Counted(cfg, i, w, SendLoop(cfg, o, i, w))
    decreases Count(cfg) - i, 4
  {
    var d := Deliver(w, o.beforeCheck[i]);
    DeliverShaped(w, o.beforeCheck[i]);
    ProbesNone(d.trace);
    if d.status != Killed && LoopCondition(cfg, i, d.world) {
      LaunchCounted(cfg, o, i, d.world);
      CountedThen(cfg, i, w, d.trace, i, d.world, Launch(cfg, o, i, d.world));
    }
  }

  lemma {:induction false} LaunchCounted(cfg: Config, o: Oracle, i: nat, w: World)
    requires OracleCovers(cfg, o) && i < Count(cfg)
    requires |w.hits| == |w.names| == Count(cfg)
    ensures Counted(cfg, i, w, Launch(cfg, o, i, w))
    decreases Count(cfg) - i, 3
  {
    var e := Deliver(w, o.beforeDispatch[i]);
    DeliverShaped(w, o.beforeDispatch[i]);
    ProbesNone(e.trace);
    if e.status != Killed {
      ProbeCounted(cfg, o, i, e.world);
      CountedThen(cfg, i, w, e.trace, i, e.world, Probe(cfg, o, i, e.world));
    }
  }

  lemma {:induction false} ProbeCounted(cfg: Config, o: Oracle, i: nat, w: World)
    requires OracleCovers(cfg, o) && i < Count(cfg)
    requires |w.hits| == |w.names| == Count(cfg)
    ensures Counted(cfg, i, w, Probe(cfg, o, i, w))
    decreases Count(cfg) - i, 2
  {
    var sent := [Resolve(i, w.names[i])];
    assert Probes(sent) == [i] by {
      assert sent[1..] == [];
    }
    if DispatchFails(o.dispatch[i]) {
      assert Probe(cfg, o, i, w) == Outcome(w, sent, Failure);
      assert Unsent(Outcome(w, sent, Failure)) == 1;
    } else {
      var w1 := w.(dnsSent := w.dnsSent + 1);
      var a := Deliver(w1, o.afterDispatch[i]);
      DeliverShaped(w1, o.afterDispatch[i]);
      AfterDispatchCounted(cfg, o, i, a);
      ProbeUnfold(cfg, o, i, w);
      CountedThen(cfg, i, w, sent, i + 1, a.world, AfterDispatch(cfg, o, i, a));
    }
  }

  lemma {:induction false} AfterDispatchCounted(cfg: Config, o: Oracle, i: nat, a: Outcome)
    requires OracleCovers(cfg, o) && i < Count(cfg)
    requires |a.world.hits| == |a.world.names| == Count(cfg)
    requires a.status == Running || a.status == Killed
    requires OnlyBreaks(a.trace)
    ensures Counted(cfg, i + 1, a.world, AfterDispatch(cfg, o, i, a))
    decreases Count(cfg) - i, 1
  {
    ProbesNone(a.trace);
    if a.status == Killed {
      assert AfterDispatch(cfg, o, i, a) == a;
    } else if a.world.running && i != Count(cfg) - 1 {
      PauseCounted(cfg, o, i, a);
    } else {
      var s := SendLoop(cfg, o, i + 1, a.world);
      assert AfterDispatch(cfg, o, i, a) == Then(a.trace, s);
      SendLoopCounted(cfg, o, i + 1, a.world);
      CountedThen(cfg, i + 1, a.world, a.trace, i + 1, a.world, s);
    }
  }

  /** The inter-probe pause of AfterDispatch and what follows it. */
  lemma {:induction false} PauseCounted(cfg: Config, o: Oracle, i: nat, a: Outcome)
    requires OracleCovers(cfg, o) && i < Count(cfg)
    requires |a.world.hits| == |a.world.names| == Count(cfg)
    requires a.status == Running && a.world.running && i != Count(cfg) - 1
    requires OnlyBreaks(a.trace) && Probes(a.trace) == []
    ensures Counted(cfg, i + 1, a.world, AfterDispatch(cfg, o, i, a))
    decreases Count(cfg) - i, 0
  {
    var slept := a.trace + [Pause(MillisToTimespec(cfg.dnsRequestIntervalMs))];
    ProbesNone(slept);
    if SleepFails(o.pause[i]) {
      assert AfterDispatch(cfg, o, i, a) == Outcome(a.world, slept, Failure);
      assert Unsent(Outcome(a.world, slept, Failure)) == 0;
    } else {
      var s := SendLoop(cfg, o, i + 1, a.world);
      assert AfterDispatch(cfg, o, i, a) == Then(slept, s);
      SendLoopCounted(cfg, o, i + 1, a.world);
      CountedThen(cfg, i + 1, a.world, slept, i + 1, a.world, s);
    }
  }

  /** getaddrinfo_a: the iteration ends the run right after the probe, with dns_sent and
      everything else unchanged, exactly when the result is neither 0 nor EAI_INTR. */
  lemma DispatchRule(cfg: Config, o: Oracle, i: nat, w: World)
    requires OracleCovers(cfg, o) && i < Count(cfg)
    requires |w.hits| == |w.names| == Count(cfg)
    ensures var r := Probe(cfg, o, i, w);
            DispatchFails(o.dispatch[i]) <==>
              r == Outcome(w, [Resolve(i, w.names[i])], Failure)
  {
    if !DispatchFails(o.dispatch[i]) {
      var w1 := w.(dnsSent := w.dnsSent + 1);
      var a := Deliver(w1, o.afterDispatch[i]);
      var r := AfterDispatch(cfg, o, i, a);
      ProbeUnfold(cfg, o, i, w);
      DeliverShaped(w1, o.afterDispatch[i]);
      AfterDispatchCounted(cfg, o, i, a);
      if r.trace == [] {
        assert Probes(r.trace) == [] && Unsent(r) == 0;
        assert r.world.dnsSent == w.dnsSent + 1;
      }
      assert [Resolve(i, w.names[i])] + r.trace != [Resolve(i, w.names[i])] || r.world != w;
    }
  }

  /** nanosleep between probes (running, and not after the last probe): the run ends right
      after the pause exactly when the sleep failed with an errno other than EINTR. */
  lemma PauseRule(cfg: Config, o: Oracle, i: nat, a: Outcome)
    requires OracleCovers(cfg, o) && i < Count(cfg)
    requires |a.world.hits| == |a.world.names| == Count(cfg)
    requires a.status == Running && a.world.running && i != Count(cfg) - 1
    requires OnlyBreaks(a.trace)
    ensures var slept := a.trace + [Pause(MillisToTimespec(cfg.dnsRequestIntervalMs))];
            SleepFails(o.pause[i]) <==> AfterDispatch(cfg, o, i, a) == Outcome(a.world, slept, Failure)
  {
    if !SleepFails(o.pause[i]) {
      var slept := a.trace + [Pause(MillisToTimespec(cfg.dnsRequestIntervalMs))];
      var s := SendLoop(cfg, o, i + 1, a.world);
      assert AfterDispatch(cfg, o, i, a) == Then(slept, s);
      SendLoopCounted(cfg, o, i + 1, a.world);
      assert s.status == Failure ==> |slept + s.trace| > |slept|;
    }
  }

  // ---------------------------------------------------------------------------
  // The send loop: when it stops and in which order it acts
  // ---------------------------------------------------------------------------

  /** Once running is clear, the last iteration is done or the threshold is reached, the next
      loop test fails: the loop only handles the pending events and sends nothing more. */
  lemma SendLoopQuiet(cfg: Config, o: Oracle, i: nat, w: World)
    requires OracleCovers(cfg, o) && i <= Count(cfg)
    requires |w.hits| == |w.names| == Count(cfg)
    requires !w.running || i == Count(cfg) || Marked(w) >= cfg.stopAfterNLeaks as int
    ensures var r := SendLoop(cfg, o, i, w);
            && r == Deliver(w, o.beforeCheck[i])
            && OnlyBreaks(r.trace) && |r.trace| <= 1
            && (!w.running ==> r.trace == [])
  {
    DeliverSignals(w, o.beforeCheck[i]);
    DeliverHits(w, o.beforeCheck[i]);
  }

  /** Every inter-probe pause comes right after a probe that was not the last one. */
  predicate PausesFollowProbes(t: seq<Action>, count: nat) {
    forall n :: 0 <= n < |t| && t[n].Pause? ==> 0 < n && t[n - 1].Resolve? && t[n - 1].index + 1 < count
  }

  /** A probe is followed by its pause, by the capture break of a signal, or by nothing. */
  predicate ProbesPaused(t: seq<Action>) {
    forall n :: 0 <= n < |t| - 1 && t[n].Resolve? ==> t[n + 1] == BreakCapture || t[n + 1].Pause?
  }

  /** A capture break ends the send loop: at most the probe of an iteration whose loop test
      already held follows it, as the last action. */
  predicate BreakEndsLoop(t: seq<Action>) {
    forall n :: 0 <= n < |t| && t[n] == BreakCapture ==> n == |t| - 1 || (n == |t| - 2 && t[n + 1].Resolve?)
  }

  ghost predicate Ordered(cfg: Config, t: seq<Action>) {
    PausesFollowProbes(t, Count(cfg)) && ProbesPaused(t) && BreakEndsLoop(t)
  }

  /** A probe followed by at most a capture break. */
  lemma OrderedLastProbe(cfg: Config, p: Action, q: seq<Action>)
    requires p.Resolve? && OnlyBreaks(q) && |q| <= 1
    ensures Ordered(cfg, [p] + q)
  {
  }

  /** A capture break, then the probe whose dispatch was already under way. */
  lemma OrderedBrokenProbe(cfg: Config, p: Action)
    requires p.Resolve?
    ensures Ordered(cfg, [BreakCapture, p])
  {
  }

  /** A probe, its pause, then an ordered rest. */
  lemma OrderedPausedProbe(cfg: Config, p: Action, d: Timespec, s: seq<Action>)
    requires p.Resolve? && p.index + 1 < Count(cfg) && Ordered(cfg, s)
    ensures Ordered(cfg, [p, Pause(d)] + s)
  {
    var t := [p, Pause(d)] + s;
    forall n | 2 <= n < |t|
      ensures t[n] == s[n - 2]
    {
    }
    assert PausesFollowProbes(t, Count(cfg)) by {
      forall n | 0 <= n < |t| && t[n].Pause?
        ensures 0 < n && t[n - 1].Resolve? && t[n - 1].index + 1 < Count(cfg)
      {
        if n > 2 {
          assert s[n - 2].Pause? && t[n - 1] == s[n - 3];
        }
      }
    }
    assert ProbesPaused(t) by {
      forall n | 0 <= n < |t| - 1 && t[n].Resolve?
        ensures t[n + 1] == BreakCapture || t[n + 1].Pause?
      {
        if n >= 2 {
          assert s[n - 2].Resolve? && t[n + 1] == s[n - 1];
        }
      }
    }
    assert BreakEndsLoop(t) by {
      forall n | 0 <= n < |t| && t[n] == BreakCapture
        ensures n == |t| - 1 || (n == |t| - 2 && t[n + 1].Resolve?)
      {
        assert s[n - 2] == BreakCapture;
        if n < |t| - 1 {
          assert t[n + 1] == s[n - 1];
        }
      }
    }
  }

  /** An iteration that starts after running was cleared sends its probe and stops there. */
  lemma ProbeStopped(cfg: Config, o: Oracle, i: nat, w: World)
    requires OracleCovers(cfg, o) && i < Count(cfg)
    requires |w.hits| == |w.names| == Count(cfg)
    requires !w.running
    ensures Probe(cfg, o, i, w).trace == [Resolve(i, w.names[i])]
  {
    if !DispatchFails(o.dispatch[i]) {
      var w1 := w.(dnsSent := w.dnsSent + 1);
      var a := Deliver(w1, o.afterDispatch[i]);
      ProbeUnfold(cfg, o, i, w);
      DeliverSignals(w1, o.afterDispatch[i]);
      if a.status != Killed {
        SendLoopQuiet(cfg, o, i + 1, a.world);
      }
    }
  }

  lemma {:induction false} SendLoopOrdered(cfg: Config, o: Oracle, i: nat, w: World)
    requires OracleCovers(cfg, o) && i <= Count(cfg)
    requires |w.hits| == |w.names| == Count(cfg)
    ensures Ordered(cfg, SendLoop(cfg, o, i, w).trace)
    decreases Count(cfg) - i, 3
  {
    var d := Deliver(w, o.beforeCheck[i]);
    DeliverSignals(w, o.beforeCheck[i]);
    if d.status != Killed && LoopCondition(cfg, i, d.world) {
      LaunchOrdered(cfg, o, i, d.world);
      assert SendLoop(cfg, o, i, w).trace == Launch(cfg, o, i, d.world).trace;
    }
  }

  lemma {:induction false} LaunchOrdered(cfg: Config, o: Oracle, i: nat, w: World)
    requires OracleCovers(cfg, o) && i < Count(cfg)
    requires |w.hits| == |w.names| == Count(cfg)
    ensures Ordered(cfg, Launch(cfg, o, i, w).trace)
    decreases Count(cfg) - i, 2
  {
    var e := Deliver(w, o.beforeDispatch[i]);
    DeliverSignals(w, o.beforeDispatch[i]);
    if e.status != Killed {
      if e.trace == [] {
        ProbeOrdered(cfg, o, i, e.world);
        assert Launch(cfg, o, i, w).trace == Probe(cfg, o, i, e.world).trace;
      } else {
        ProbeStopped(cfg, o, i, e.world);
        OrderedBrokenProbe(cfg, Resolve(i, e.world.names[i]));
        assert Launch(cfg, o, i, w).trace == [BreakCapture, Resolve(i, e.world.names[i])];
      }
    }
  }

  lemma {:induction false} ProbeOrdered(cfg: Config, o: Oracle, i: nat, w: World)
    requires OracleCovers(cfg, o) && i < Count(cfg)
    requires |w.hits| == |w.names| == Count(cfg)
    ensures Ordered(cfg, Probe(cfg, o, i, w).trace)
    decreases Count(cfg) - i, 1
  {
    if DispatchFails(o.dispatch[i]) {
      OrderedLastProbe(cfg, Resolve(i, w.names[i]), []);
    } else {
      var w1 := w.(dnsSent := w.dnsSent + 1);
      DeliverSignals(w1, o.afterDispatch[i]);
      AfterDispatchOrdered(cfg, o, i, Deliver(w1, o.afterDispatch[i]));
    }
  }

  /** What follows probe i, read together with the probe. */
  lemma {:induction false} AfterDispatchOrdered(cfg: Config, o: Oracle, i: nat, a: Outcome)
    requires OracleCovers(cfg, o) && i < Count(cfg)
    requires |a.world.hits| == |a.world.names| == Count(cfg)
    requires a.status == Running || a.status == Killed
    requires a.trace == [] || (a.trace == [BreakCapture] && !a.world.running)
    ensures Ordered(cfg, [Resolve(i, a.world.names[i])] + AfterDispatch(cfg, o, i, a).trace)
    decreases Count(cfg) - i, 0
  {
    var p := Resolve(i, a.world.names[i]);
    if a.status == Killed {
      OrderedLastProbe(cfg, p, a.trace);
    } else if a.world.running && i != Count(cfg) - 1 {
      var pause := Pause(MillisToTimespec(cfg.dnsRequestIntervalMs));
      if SleepFails(o.pause[i]) {
        OrderedPausedProbe(cfg, p, pause.duration, []);
      } else {
        var s := SendLoop(cfg, o, i + 1, a.world);
        SendLoopOrdered(cfg, o, i + 1, a.world);
        OrderedPausedProbe(cfg, p, pause.duration, s.trace);
        assert [p] + AfterDispatch(cfg, o, i, a).trace == [p, pause] + s.trace;
      }
    } else {
      var s := SendLoop(cfg, o, i + 1, a.world);
      SendLoopQuiet(cfg, o, i + 1, a.world);
      OrderedLastProbe(cfg, p, a.trace + s.trace);
    }
  }

  // ---------------------------------------------------------------------------
  // After the send loop: grace period, capture break, join and verdict
  // ---------------------------------------------------------------------------

  /** The actions after the send loop: capture breaks, the grace pause at index graceAt
      (none when graceAt is -1), and the verdict last on success. */
  predicate Closing(cfg: Config, t: seq<Action>, graceAt: int, success: bool) {
    forall n :: 0 <= n < |t| ==>
      || t[n] == BreakCapture
      || (n == graceAt && t[n] == GracePause(MillisToTimespec(cfg.captureExtraTimeMs)))
      || (success && n == |t| - 1 && t[n].Report?)
  }

  /** A successful run ends with a capture break and then the verdict on the final count,
      and it needed pthread_join to return 0. */
  predicate Reported(o: Oracle, r: Outcome) {
    r.status == Success ==>
      && o.join == 0 && |r.trace| >= 2
      && r.trace[|r.trace| - 1] == Report(VerdictOf(Marked(r.world)))
      && r.trace[|r.trace| - 2] == BreakCapture
  }

  /** From pcap_breakloop on: the marked count does not fall while pthread_join waits, and
      the run ends with breaks and, on success only, the verdict. */
  lemma ShutdownFacts(cfg: Config, o: Oracle, d: Outcome)
    requires |d.world.hits| == |d.world.names|
    requires (d.status == Running || d.status == Killed) && OnlyBreaks(d.trace)
    ensures var r := Shutdown(o, d);
            && Marked(d.world) <= Marked(r.world) && r.status != Running
            && (d.status == Killed ==> r == d)
            && Closing(cfg, r.trace, -1, r.status == Success) && Reported(o, r)
  {
    DeliverShaped(d.world, o.duringJoin);
  }

  /** From the grace test on: the grace pause comes first exactly when the count is below
      the threshold, and a failure always leaves an action behind. */
  lemma GraceFacts(cfg: Config, o: Oracle, w: World)
    requires |w.hits| == |w.names|
    ensures var r := Grace(cfg, o, w);
            var grace := Marked(w) < cfg.stopAfterNLeaks as int;
            && Marked(w) <= Marked(r.world) && r.status != Running
            && Closing(cfg, r.trace, if grace then 0 else -1, r.status == Success) && Reported(o, r)
            && (grace ==> r.trace != [] && r.trace[0].GracePause?)
            && (r.status == Failure ==> r.trace != [])
  {
    var d := Deliver(w, o.drain);
    DeliverShaped(w, o.drain);
    ShutdownFacts(cfg, o, d);
    var f := Shutdown(o, d);
    if Marked(w) < cfg.stopAfterNLeaks as int && !SleepFails(o.grace) {
      var g := [GracePause(MillisToTimespec(cfg.captureExtraTimeMs))];
      assert Grace(cfg, o, w) == Then(g, f);
      forall n | 1 <= n < |g + f.trace|
        ensures (g + f.trace)[n] == f.trace[n - 1]
      {
      }
    }
  }

  /** The rest of main after the send loop: the events before the grace test, then the
      grace pause exactly when no second signal ended the process and the count is below the
      threshold at the test, then the shutdown. */
  lemma FinishFacts(cfg: Config, o: Oracle, w: World)
    requires |w.hits| == |w.names|
    ensures var a := Deliver(w, o.afterLoop);
            var r := Finish(cfg, o, w);
            var grace := a.status != Killed && Marked(a.world) < cfg.stopAfterNLeaks as int;
            && Marked(w) <= Marked(r.world) && r.status != Running
            && Closing(cfg, r.trace, if grace then |a.trace| else -1, r.status == Success)
            && Reported(o, r)
            && (grace ==>
                  |a.trace| < |r.trace| &&
                  r.trace[|a.trace|] == GracePause(MillisToTimespec(cfg.captureExtraTimeMs)))
            && (r.status == Failure ==> r.trace != [])
  {
    var a := Deliver(w, o.afterLoop);
    DeliverShaped(w, o.afterLoop);
    if a.status != Killed {
      var g := Grace(cfg, o, a.world);
      GraceFacts(cfg, o, a.world);
      ClosingAfterBreaks(cfg, o, a.trace, g, Marked(a.world) < cfg.stopAfterNLeaks as int);
    }
  }

  /** Closing and Reported survive the capture breaks of signals handled before them. */
  lemma ClosingAfterBreaks(cfg: Config, o: Oracle, b: seq<Action>, g: Outcome, grace: bool)
    requires OnlyBreaks(b)
    requires Closing(cfg, g.trace, if grace then 0 else -1, g.status == Success) && Reported(o, g)
    requires grace ==> g.trace != [] && g.trace[0].GracePause?
    ensures var r := Then(b, g);
            && Closing(cfg, r.trace, if grace then |b| else -1, r.status == Success) && Reported(o, r)
            && (grace ==> |b| < |r.trace| && r.trace[|b|] == g.trace[0])
            && (g.trace != [] ==> r.trace != [])
  {
    var r := Then(b, g);
    forall n | |b| <= n < |r.trace|
      ensures r.trace[n] == g.trace[n - |b|]
    {
    }
  }

  // ---------------------------------------------------------------------------
  // The whole run
  // ---------------------------------------------------------------------------

  /** The whole run sends names_get_nth(0), names_get_nth(1), ... in order, at most
      dns_request_count of them, each the stored name of its index; dns_sent counts the
      dispatched ones and the marked count never falls. */
  lemma MainSends(cfg: Config, o: Oracle, w: World)
    requires OracleCovers(cfg, o)
    requires |w.hits| == |w.names| == Count(cfg)
    ensures var r := MainSpec(cfg, o, w);
            && |Probes(r.trace)| <= Count(cfg) && Consecutive(Probes(r.trace), 0)
            && r.world.dnsSent + Unsent(r) == w.dnsSent + |Probes(r.trace)|
            && ProbesStored(w.names, r.trace)
            && Marked(w) <= Marked(r.world)
  {
    var s := SendLoop(cfg, o, 0, w);
    SendLoopCounted(cfg, o, 0, w);
    SendLoopShaped(cfg, o, 0, w);
    if s.status == Running {
      FinishAdds(cfg, o, w.names, s.trace, s.world);
    }
  }

  /** The rest of main after a send loop that ended normally sends no probe, keeps dns_sent
      and the names, does not lower the marked count and never fails on a dispatch. */
  lemma FinishAdds(cfg: Config, o: Oracle, names: seq<string>, t: seq<Action>, w: World)
    requires |w.hits| == |w.names|
    requires SendsStored(names, t) && w.names == names
    ensures var f := Finish(cfg, o, w);
            var r := Then(t, f);
            && Probes(r.trace) == Probes(t) && Unsent(r) == 0
            && r.world.dnsSent == w.dnsSent && r.world.names == names
            && ProbesStored(names, r.trace) && Marked(w) <= Marked(r.world)
  {
    var f := Finish(cfg, o, w);
    FinishFacts(cfg, o, w);
    var r := Then(t, f);
    ProbesNone(f.trace);
    ProbesAppend(t, f.trace);
    if f.trace != [] {
      assert r.trace[|r.trace| - 1] == f.trace[|f.trace| - 1];
    }
    assert ProbesStored(names, f.trace);
    ProbesStoredAppend(names, t, f.trace);
  }

  lemma ProbesStoredAppend(names: seq<string>, a: seq<Action>, b: seq<Action>)
    requires ProbesStored(names, a) && ProbesStored(names, b)
    ensures ProbesStored(names, a + b)
  {
    forall n | |a| <= n < |a + b|
      ensures (a + b)[n] == b[n - |a|]
    {
    }
  }

  /** The grace pause after the send loop's actions t, the rest of main running from w. */
  lemma AfterLoopGrace(cfg: Config, o: Oracle, names: seq<string>, t: seq<Action>, w: World)
    requires |w.hits| == |w.names|
    requires SendsStored(names, t)
    ensures var a := Deliver(w, o.afterLoop);
            var grace := a.status != Killed && Marked(a.world) < cfg.stopAfterNLeaks as int;
            var r := Then(t, Finish(cfg, o, w));
            && ((exists n :: 0 <= n < |r.trace| && r.trace[n].GracePause?) <==> grace)
            && (grace ==>
                  |t| + |a.trace| < |r.trace| &&
                  r.trace[|t| + |a.trace|] == GracePause(MillisToTimespec(cfg.captureExtraTimeMs)))
  {
    var a := Deliver(w, o.afterLoop);
    var f := Finish(cfg, o, w);
    FinishFacts(cfg, o, w);
    var r := Then(t, f);
    forall n | |t| <= n < |r.trace|
      ensures r.trace[n] == f.trace[n - |t|]
    {
    }
    if a.status != Killed && Marked(a.world) < cfg.stopAfterNLeaks as int {
      assert r.trace[|t| + |a.trace|].GracePause?;
    }
  }

  /** The verdict after the send loop's actions t, the rest of main running from w. */
  lemma AfterLoopVerdict(cfg: Config, o: Oracle, names: seq<string>, t: seq<Action>, w: World)
    requires |w.hits| == |w.names|
    requires SendsStored(names, t)
    ensures var r := Then(t, Finish(cfg, o, w));
            && Reported(o, r)
            && (forall n :: 0 <= n < |r.trace| && r.trace[n].Report? ==>
                  n == |r.trace| - 1 && r.status == Success)
  {
    var f := Finish(cfg, o, w);
    FinishFacts(cfg, o, w);
    var r := Then(t, f);
    forall n | |t| <= n < |r.trace|
      ensures r.trace[n] == f.trace[n - |t|]
    {
    }
  }

  /** The verdict is reported once, as the last action and only by a successful run, which
      breaks the capture just before it and needed pthread_join to succeed. */
  lemma MainVerdict(cfg: Config, o: Oracle, w: World)
    requires OracleCovers(cfg, o)
    requires |w.hits| == |w.names| == Count(cfg)
    ensures var r := MainSpec(cfg, o, w);
            && Reported(o, r)
            && (forall n :: 0 <= n < |r.trace| && r.trace[n].Report? ==>
                  n == |r.trace| - 1 && r.status == Success)
  {
    var s := SendLoop(cfg, o, 0, w);
    SendLoopShaped(cfg, o, 0, w);
    if s.status == Running {
      AfterLoopVerdict(cfg, o, w.names, s.trace, s.world);
    }
  }

  /** The grace period is slept exactly when the send loop ended normally, no second signal
      ended the process before the grace test and the count is below the threshold there,
      whether or not a signal cleared running; it comes right after the capture break of any
      signal handled at that point and lasts capture_extra_time_ms. */
  lemma MainGrace(cfg: Config, o: Oracle, w: World)
    requires OracleCovers(cfg, o)
    requires |w.hits| == |w.names| == Count(cfg)
    ensures var s := SendLoop(cfg, o, 0, w);
            var a := Deliver(s.world, o.afterLoop);
            var grace := s.status == Running && a.status != Killed &&
                         Marked(a.world) < cfg.stopAfterNLeaks as int;
            var r := MainSpec(cfg, o, w);
            && ((exists n :: 0 <= n < |r.trace| && r.trace[n].GracePause?) <==> grace)
            && (grace ==>
                  |s.trace| + |a.trace| < |r.trace| &&
                  r.trace[|s.trace| + |a.trace|] == GracePause(MillisToTimespec(cfg.captureExtraTimeMs)))
  {
    var s := SendLoop(cfg, o, 0, w);
    SendLoopShaped(cfg, o, 0, w);
    if s.status == Running {
      AfterLoopGrace(cfg, o, w.names, s.trace, s.world);
    } else {
      assert MainSpec(cfg, o, w) == s;
    }
  }

  /** With default_config (stop_after_n_leaks 1, capture_extra_time_ms 1000) the one-second
      grace period is slept exactly when the loop ended normally, no second signal ended the
      process before the grace test and no generated name had been seen by then. */
  lemma DefaultGrace(o: Oracle, w: World)
    requires OracleCovers(DefaultConfig, o)
    requires |w.hits| == |w.names| == Count(DefaultConfig)
    ensures var s := SendLoop(DefaultConfig, o, 0, w);
            var a := Deliver(s.world, o.afterLoop);
            var r := MainSpec(DefaultConfig, o, w);
            (exists n :: 0 <= n < |r.trace| && r.trace[n] == GracePause(Timespec(1, 0))) <==>
              s.status == Running && a.status != Killed &&
              forall k :: 0 <= k < |a.world.hits| ==> !a.world.hits[k]
  {
    var s := SendLoop(DefaultConfig, o, 0, w);
    var a := Deliver(s.world, o.afterLoop);
    MainGrace(DefaultConfig, o, w);
    CountTruePositive(a.world.hits);
    assert MillisToTimespec(DefaultConfig.captureExtraTimeMs) == Timespec(1, 0);
  }

  /** With stop_after_n_leaks 0 the send loop never runs its body: no name is sent, nothing
      is slept, and the run only breaks the capture and reports. */
  lemma MainStopZero(cfg: Config, o: Oracle, w: World)
    requires OracleCovers(cfg, o)
    requires |w.hits| == |w.names| == Count(cfg)
    requires cfg.stopAfterNLeaks == 0
    ensures var r := MainSpec(cfg, o, w);
            && r.world.dnsSent == w.dnsSent
            && (forall n :: 0 <= n < |r.trace| ==> r.trace[n] == BreakCapture || r.trace[n].Report?)
  {
    var s := SendLoop(cfg, o, 0, w);
    SendLoopQuiet(cfg, o, 0, w);
    if s.status == Running {
      var f := Finish(cfg, o, s.world);
      FinishFacts(cfg, o, s.world);
      var r := Then(s.trace, f);
      assert MainSpec(cfg, o, w) == r;
      forall n | |s.trace| <= n < |r.trace|
        ensures r.trace[n] == f.trace[n - |s.trace|]
      {
      }
    }
  }

  /** "Leaks detected" is printed exactly when some generated name was seen in the capture. */
  lemma VerdictLeaks(w: World)
    ensures VerdictOf(Marked(w)) == LeaksDetected <==> exists k :: 0 <= k < |w.hits| && w.hits[k]
  {
    CountTruePositive(w.hits);
  }
}
