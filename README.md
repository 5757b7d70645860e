# DNSleak core, modelled in Dafny

DNSleak checks whether DNS queries leave the host by a path they should not take. It
generates random hostnames such as `qwhzrtu.com` and resolves them one at a time with
`getaddrinfo_a`. Meanwhile a capture thread runs nDPI over the traffic, and every hostname
the dissector reports is marked in the probe table. At the end the program says
"Leaks detected" if any generated name was seen, and "No leak detected" otherwise.

The project has three modules:

- `NamesCount` (`names_count.dfy`) models `names_count.c`. The globals `search_names`,
  `search_hits` and `search_n` are the fields of the class `ProbeTable`.
  - `search_names` is a real character buffer of `search_n * NAME_TOTAL_SIZE` cells with
    the NUL padding `calloc` leaves.
  - `search_hits` is an array of flags.
  - A ghost sequence `names` says which name each slot holds.
  - `random_name` takes the values `rand()` would return as an explicit sequence of draws.
  - `names_generate`, `names_mark` and `names_get_marked` are methods with the source's
    loops. Each is proved against pure functions (`NamesFrom`, `MarkHits`, `CountTrue`),
    and the properties of the table are lemmas about those functions.
- `DnsLeak` (`dnsleak.dfy`) models `millis_to_timespec`, `signals_handler`, the counter of
  `on_protocol_discovered` and lines 340-400 of `main`.
  - The globals `running`, `total_packets` and `dns_sent` are fields of the class `Session`,
    next to its `ProbeTable`.
  - Everything the main thread cannot control comes from an `Oracle`: packets and signals,
    and the result codes of `getaddrinfo_a`, `nanosleep` and `pthread_join`. Events arrive
    at six points: before each test of the loop condition, between a test that held and
    its `getaddrinfo_a`, between a dispatch and its sleep decision, between the end of the
    loop and the grace test, before `pcap_breakloop` (the drain), and while `pthread_join`
    waits. The oracle's events are delivered at exactly those points.
  - A run produces a trace of visible actions: a probe, a pause, the grace pause, the
    capture break and the verdict. It ends with a status: the loop ended, `EXIT_FAILURE`,
    `exit(1)` from the second signal, or `EXIT_SUCCESS`.
  - `Session.ProbeAndReport` runs the loop imperatively. It is proved to compute the pure
    function `MainSpec`, which is built from `SendLoop`, `Launch`, `Probe`,
    `AfterDispatch`, `Finish`, `Grace` and `Shutdown`.
- `RunProperties` (`run_properties.dfy`) proves what the run promises, for every oracle:
  - which probes are sent and in what order;
  - how `dns_sent` counts them;
  - when the loop stops, when it sleeps and when it fails;
  - the grace-period rule, the verdict and the signal state machine.

On three points the model follows what the code does, which differs from what a reader might expect:

- `names_mark` returns 1 whenever the name is stored, even if its flag was already set.
- With duplicate names, `names_mark` sets the flag of the first slot that holds the name.
- `names_end` frees the buffers but leaves `search_n` as it was.

## Model

| member | source | states |
|---|---|---|
| NamesCount.NameNth | names_count.c:30 | NAME_NTH(i): the offset of slot i is a multiple of NAME_TOTAL_SIZE from which i is recovered, so distinct slots start at distinct offsets |
| NamesCount.ValidNameFitsSlot | names_count.c:29 | a generated name and its terminator fit in one NAME_TOTAL_SIZE slot, and the name holds no NUL |
| NamesCount.NameFrom | names_count.c:36-48 | the name random_name builds from its draws: the letters picked by the draws after the length draw, then ".com"; its shape is NameFromIsValid |
| NamesCount.NameFromIsValid | names_count.c:36-48 | the name built from the draws is 6 to 9 letters `a`-`z` followed by `.com`, its prefix as long as the length draw chose |
| NamesCount.RandomName | names_count.c:36-48 | the loop of random_name builds exactly the name the draws determine, uses one length draw plus one draw per letter, and the result has the probe shape |
| NamesCount.NamesFrom | names_count.c:55-56 | names_generate(n) produces exactly n names, each of the probe shape |
| NamesCount.StrCpy | names_count.c:56 | strcpy writes the source and its terminator at the offset and leaves every other cell as it was |
| NamesCount.LayoutSlot | names_count.c:30 | slot i of the buffer (offset NAME_NTH(i)) holds the i-th name, its terminator and zero padding |
| NamesCount.CStringOfTerminated | names_count.c:68 | reading a C string from a slot gives back exactly the name copied into it |
| NamesCount.FillSlots | names_count.c:55-56 | after the slot loop the buffer is exactly the layout of NamesFrom(n, draws), slot i holding the i-th name drawn |
| NamesCount.IndexOf | names_count.c:67-68 | the index found is the first slot equal to the name, or n when no slot is |
| NamesCount.MarkHits | names_count.c:66-75 | the flags after names_mark, which Mark is proved to compute: as many flags as before; which flag is set is MarkHitsSetsFirstMatch |
| NamesCount.CountTrue | names_count.c:77-84 | the count names_get_marked accumulates front to back, which GetMarked is proved to return; it never exceeds the number of flags |
| NamesCount.CountTrueIsCardinality | names_count.c:77-84 | the count names_get_marked accumulates equals the number of indices whose flag is set |
| NamesCount.CountTruePositive | names_count.c:77-84 | the count is nonzero exactly when some flag is set |
| NamesCount.CountTrueSet | names_count.c:69 | setting one flag raises the count by one if it was clear and leaves it otherwise |
| NamesCount.CountTrueMonotone | names_count.c:77-84 | turning flags on, never off, never lowers the count |
| NamesCount.MarkHitsSetsFirstMatch | names_count.c:66-75 | after marking, a flag is set exactly when it was set before or its slot is the first one equal to the name; every other flag is unchanged |
| NamesCount.MarkHitsAbsent | names_count.c:66-75 | marking a name that is not stored changes no flag |
| NamesCount.MarkHitsIdempotent | names_count.c:66-75 | marking twice with the same name gives the flags of marking once |
| NamesCount.MarkHitsCount | names_count.c:66-84 | one mark raises the count by at most one and never lowers it; a stored name leaves it at least 1; an unknown name leaves it unchanged |
| NamesCount.MarkStoredName | names_count.c:59-75 | round trip: marking the name of slot i sets the flag of slot i or of an earlier duplicate, and the count is then at least 1 |
| NamesCount.ProbeTable.constructor | names_count.c:32-34 | before names_generate, no buffer is allocated, search_n is -1, no name is stored and there are no flags |
| NamesCount.ProbeTable.Generate | names_count.c:50-57 | names_generate(n) stores exactly NamesFrom(n, draws) in fresh buffers, search_n becomes n, every flag is clear and the marked count is 0; a negative n allocates nothing |
| NamesCount.ProbeTable.NameAt | names_count.c:63 | the C string read at NAME_NTH(i) is the i-th stored name |
| NamesCount.ProbeTable.GetNth | names_count.c:59-64 | names_get_nth(i) returns a name exactly when 0 <= i < search_n, and that name is the one stored in slot i and has the probe shape; otherwise it returns NULL (None) |
| NamesCount.ProbeTable.Mark | names_count.c:66-75 | names_mark returns 1 exactly when the name is stored; the flags become MarkHits of the old flags, so only the first matching flag is set, and the names are unchanged |
| NamesCount.ProbeTable.GetMarked | names_count.c:77-84 | names_get_marked returns the number of set flags, between 0 and search_n |
| NamesCount.ProbeTable.End | names_count.c:86-89 | names_end sets both pointers to NULL, keeps search_n and the names, and keeps the table valid when nothing was allocated |
| DnsLeak.MillisToTimespec | dnsleak.c:186-193 | tv_sec * 1000 + tv_nsec / 1000000 equals millis; tv_nsec is a multiple of 1000000 below 10^9; 0 ms gives {0, 0} |
| DnsLeak.MillisToTimespecOnto | dnsleak.c:186-193 | inverse direction: every normalised whole-millisecond timespec in range is what millis_to_timespec returns for its milliseconds |
| DnsLeak.OnSignal | dnsleak.c:111-121 | a signal always leaves running 0; the handler exits exactly when running was already 0, and then with status 1; otherwise it breaks the capture exactly when the workflow exists |
| DnsLeak.OnPacket | dnsleak.c:84-85 | counting a packet and marking its hostname keep the names, the number of flags, running and dns_sent, keep total_packets a u_int32_t and only turn flags on |
| DnsLeak.VerdictOf | dnsleak.c:397-400 | the verdict message: "Leaks detected" when names_get_marked() is nonzero, "No leak detected" otherwise; what that means for the flags is VerdictLeaks |
| DnsLeak.Step | dnsleak.c:79-121 | handling one packet or signal never changes the names, the number of flags or dns_sent, and it either goes on or ends the process |
| DnsLeak.Deliver | dnsleak.c:79-121 | handling a run of events never changes the names, the number of flags or dns_sent |
| DnsLeak.LoopCondition | dnsleak.c:342-344 | the loop test: fewer than dns_request_count iterations done, running set, and names_get_marked() below stop_after_n_leaks |
| DnsLeak.SendLoop | dnsleak.c:342-374 | the send loop from any iteration keeps the stored names and the number of flags |
| DnsLeak.Launch | dnsleak.c:345-374 | an iteration from its passed loop test on, with the events handled before its dispatch, keeps the stored names and the number of flags |
| DnsLeak.Probe | dnsleak.c:352-363 | one probe keeps the stored names and the number of flags |
| DnsLeak.AfterDispatch | dnsleak.c:363-374 | the rest of an iteration keeps the stored names and the number of flags |
| DnsLeak.Finish | dnsleak.c:376-400 | the part after the loop, with the events handled before the grace test, keeps the stored names, the number of flags and dns_sent |
| DnsLeak.Grace | dnsleak.c:376-400 | the grace test and everything after it keep the stored names, the number of flags and dns_sent |
| DnsLeak.Shutdown | dnsleak.c:387-400 | breaking the capture, the events handled while pthread_join waits, the join and the verdict keep the stored names, the number of flags and dns_sent |
| DnsLeak.MainSpec | dnsleak.c:340-400 | lines 340-400 of main as a function of the oracle, which ProbeAndReport is proved to compute: the run always ends with an exit status (the loop never leaves it running) and keeps the stored names and the number of flags |
| DnsLeak.Session.constructor | dnsleak.c:67-71 | the globals start with running = 1, total_packets = 0 and dns_sent = 0 |
| DnsLeak.Session.SignalsHandler | dnsleak.c:111-121 | while running, a signal clears running and breaks the capture if the workflow exists; when running is already 0, it exits with status 1 |
| DnsLeak.Session.OnProtocolDiscovered | dnsleak.c:84-85 | total_packets grows by one modulo 2^32, the hostname is marked as names_mark does, and the result is 1 exactly when the hostname is stored |
| DnsLeak.Session.HandleEvent | dnsleak.c:79-121 | the globals change exactly as Step says for one packet or signal |
| DnsLeak.Session.DeliverEvents | dnsleak.c:79-121 | handling events in arrival order changes the globals and emits the actions exactly as Deliver says, stopping at exit(1) |
| DnsLeak.Session.SendIteration | dnsleak.c:342-374 | one test of the loop condition, with its iteration if the test holds, is exactly one unfolding of SendLoop |
| DnsLeak.Session.LaunchStep | dnsleak.c:345-374 | the events handled between a loop test that held and the dispatch, then the loop body, are exactly Launch |
| DnsLeak.Session.ProbeStep | dnsleak.c:345-373 | the loop body (lookup, dispatch, dns_sent++, sleep) is exactly Probe |
| DnsLeak.Session.SleepStep | dnsleak.c:365-373 | the sleep decision is exactly AfterDispatch: sleep only while running and not after the last probe; failure unless EINTR |
| DnsLeak.Session.SendProbes | dnsleak.c:342-374 | the for loop computes exactly SendLoop from iteration 0 |
| DnsLeak.Session.ProbeAndReport | dnsleak.c:340-400 | lines 340-400 of main compute exactly MainSpec: the same final globals, the same actions in the same order and the same exit status |
| DnsLeak.Session.FinishRun | dnsleak.c:376-400 | the events handled before the grace test, the grace period and the shutdown compute exactly Finish |
| DnsLeak.Session.GraceStep | dnsleak.c:376-400 | the grace test, the grace period and the shutdown compute exactly Grace |
| DnsLeak.Session.ShutdownStep | dnsleak.c:387-400 | pcap_breakloop, the events handled while pthread_join waits, its result and the verdict compute exactly Shutdown |
| RunProperties.DeliverHits | dnsleak.c:84-85 | while events are handled, flags only turn on and the marked count never falls |
| RunProperties.DeliverSignals | dnsleak.c:111-121 | signal state machine: running ends set exactly when it was set and no signal came; the capture is broken once, exactly when a signal came while running; the process ends exactly at the second signal (the first, if running was already 0) |
| RunProperties.DeliverPackets | dnsleak.c:84-85 | total_packets grows by the number of packets modulo 2^32, whether or not each name matched, and stays a u_int32_t |
| RunProperties.SendLoopShaped | dnsleak.c:342-374 | the send loop emits only probes of the stored name of their index, pauses and capture breaks; it never reports success, never sets running again and never lowers the marked count |
| RunProperties.LaunchShaped | dnsleak.c:345-374 | the same for one iteration from its passed loop test on |
| RunProperties.ProbeShaped | dnsleak.c:352-363 | the same for one iteration from its probe on |
| RunProperties.AfterDispatchShaped | dnsleak.c:363-374 | the same for the rest of an iteration after its dispatch |
| RunProperties.SendLoopCounted | dnsleak.c:342-374 | from iteration i, the probes are exactly i, i+1, ... in order and stop at dns_request_count; dns_sent grows by one per probe, except for a final probe whose dispatch failed; a failure is the last action; a loop that ends normally, still running and below the threshold, ran every iteration |
| RunProperties.LaunchCounted | dnsleak.c:345-374 | the same count for one iteration from its passed loop test on |
| RunProperties.ProbeCounted | dnsleak.c:352-363 | the same count for one iteration from its probe on |
| RunProperties.AfterDispatchCounted | dnsleak.c:363-374 | the same count for the rest of an iteration after its dispatch |
| RunProperties.PauseCounted | dnsleak.c:365-373 | the same count for the inter-probe sleep and what follows it |
| RunProperties.DispatchRule | dnsleak.c:356-363 | the iteration ends the run right after its probe, with dns_sent unchanged, exactly when getaddrinfo_a returned neither 0 nor EAI_INTR |
| RunProperties.PauseRule | dnsleak.c:365-373 | the run ends right after the inter-probe pause exactly when nanosleep failed with an errno other than EINTR |
| RunProperties.SendLoopQuiet | dnsleak.c:342-344 | when running is clear, all iterations are done or the marked count has reached stop_after_n_leaks, the loop sends nothing else: it only handles the pending events, emitting at most one capture break |
| RunProperties.SendLoopOrdered | dnsleak.c:342-374 | every pause directly follows a probe that was not the last one; after a probe comes its pause, a capture break, or the end; a capture break is followed at most by the probe of an iteration whose loop test had already held, as the last action |
| RunProperties.LaunchOrdered | dnsleak.c:345-374 | the same order for one iteration from its passed loop test on |
| RunProperties.ProbeStopped | dnsleak.c:352-374 | an iteration that reaches its dispatch after running was cleared sends its probe and nothing more: no pause and no further iteration |
| RunProperties.ProbeOrdered | dnsleak.c:352-363 | the same order for one iteration from its probe on |
| RunProperties.AfterDispatchOrdered | dnsleak.c:365-374 | the same order for a probe followed by the rest of its iteration |
| RunProperties.ShutdownFacts | dnsleak.c:387-400 | from pcap_breakloop on there are only capture breaks (a second one for a signal while pthread_join waits) and, on success only, the verdict last, right after a capture break, on the count after the join, and only if pthread_join returned 0; the marked count never falls; a process already ended stays as it was |
| RunProperties.GraceFacts | dnsleak.c:376-400 | from the grace test on: the grace pause of capture_extra_time_ms comes first exactly when the marked count is below stop_after_n_leaks; then only capture breaks and, on success only, the verdict last; the marked count never falls; a failure always leaves an action |
| RunProperties.FinishFacts | dnsleak.c:374-400 | after the loop: the events before the grace test come first; the grace pause comes right after their capture break exactly when no second signal ended the process and the marked count is then below stop_after_n_leaks; otherwise only capture breaks and, on success only, the verdict last; the marked count never falls |
| RunProperties.FinishAdds | dnsleak.c:376-400 | what follows a normally ended loop adds no probe and no uncounted dispatch, keeps dns_sent and never lowers the marked count |
| RunProperties.AfterLoopGrace | dnsleak.c:374-385 | after any loop trace, the grace pause appears exactly when no second signal ended the process before the grace test and the marked count is below the threshold there, and then right after the loop and the capture break of a signal handled before the test |
| RunProperties.AfterLoopVerdict | dnsleak.c:387-400 | after any loop trace, the verdict appears once, last, only on success, right after the capture break and only if pthread_join returned 0 |
| RunProperties.MainSends | dnsleak.c:340-400 | the whole run probes names_get_nth(0), names_get_nth(1), ... in order, at most dns_request_count of them, each the stored name of its index; dns_sent counts the dispatched ones; the marked count never falls |
| RunProperties.MainVerdict | dnsleak.c:387-400 | the verdict is reported once, as the last action, only by a successful run, right after the capture break, on the final marked count, and only if pthread_join returned 0 |
| RunProperties.MainGrace | dnsleak.c:374-385 | the grace sleep happens exactly when the loop ended normally, no second signal ended the process before the grace test and the marked count is below stop_after_n_leaks there, whether or not running was cleared; it comes right after the loop and the capture break of a signal handled before the test, and lasts capture_extra_time_ms |
| RunProperties.DefaultGrace | dnsleak.c:58-65 | with default_config (stop_after_n_leaks 1, capture_extra_time_ms 1000), the one-second grace sleep of lines 376-385 happens exactly when the loop ended normally, no second signal ended the process before the grace test and no generated name had been seen by then |
| RunProperties.MainStopZero | dnsleak.c:342-344 | with stop_after_n_leaks = 0, no probe is sent, nothing is slept and dns_sent is unchanged; the run only breaks the capture and reports |
| RunProperties.VerdictLeaks | dnsleak.c:397-400 | "Leaks detected" is chosen exactly when some flag is set, that is when some generated name was seen |

## Left out

- Packet capture and dissection are not modelled: libpcap, the nDPI workflow and `capture_routine`. These are foreign libraries. A packet is an oracle event carrying the hostname nDPI reported.
- Threads are not modelled: `pthread_create`, `pthread_sigmask`, `setup_signal_handlers`, races and `sig_atomic_t`. Callbacks and signals are handled one at a time, at the six points of the main thread listed above. Only the result code of `pthread_join` is kept.
- The network and the clock are not modelled. `getaddrinfo_a` and `nanosleep` are reduced to their result codes and the durations passed to them. EAI_INTR is -104 (glibc) and EINTR is 4 (Linux).
- Command-line parsing (`read_config`, `usage`) is not modelled. A `Config` is taken as given. `DefaultConfig` holds the defaults of `default_config`, and `DefaultGrace` states the grace rule for them.
- All `printf`/`fprintf` output is left out, including verbose mode, except the choice of verdict message. `atexit`/`exit_callback` reporting is also left out.
- The quality of `rand()` and `srand(time(0))` is not modelled. The draws are an input sequence of naturals.
- An allocation failure of `calloc` is not modelled for a nonnegative count. A negative count gives NULL buffers.
- NamesCount.ProbeTable.End: does not state what the table means after `names_end` once it held buffers. Reading the names after that would be a use after free, so the table is valid afterwards only when nothing was allocated.
- DnsLeak.Session.ProbeAndReport: requires `search_n == dns_request_count`. `main` calls `names_generate(config.dns_request_count)`, which converts the `u_int` to `int`, so counts of 2^31 or more are not modelled.
- The loop index `i` is an `int` compared with `u_int` values. The model uses unbounded naturals because `i` stays below `dns_request_count`. The `u_int` subtraction `dns_request_count - 1` is only reached when the count is at least 1.
- `dns_sent` is an unbounded integer. It never exceeds `dns_request_count`.
- Hostnames are the characters before their terminator: `strcmp` compares strings, and the model compares sequences.
- `signals_handler` always sees a non-NULL `workflow` during lines 340-400, because `main` returns earlier when `init_workflow` fails.
- Signals after `pthread_join` has returned are not modelled. If running is still 1, such a signal only clears it and calls `pcap_breakloop` again, and `main` still prints the verdict and returns `EXIT_SUCCESS`. If running is already 0, it ends the process with status 1 (dnsleak.c:119), before or after the verdict is printed, depending on when the signal arrives. The capture thread has ended by then, so no packet can arrive.
- A signal between `getaddrinfo_a` returning (dnsleak.c:356) and `dns_sent++` (363) is handled after `dns_sent++`. A second signal there therefore ends a model run with that probe counted, while the source ends with it uncounted. `SendLoopCounted` and the other Counted lemmas state the model's count.
- A signal between the sleep test (dnsleak.c:365) and the inter-probe `nanosleep` (367) is handled at the next loop test. The model therefore emits probe, pause, capture break where the source emits probe, capture break, pause. `SendLoopOrdered`, `AfterDispatchOrdered` and their `PausesFollowProbes` part describe the model's order.
- A signal between the grace test (dnsleak.c:376) and the grace `nanosleep` (379) is handled in the drain after the pause. The model therefore emits the grace pause before that capture break, the source after it. `GraceFacts`, `FinishFacts`, `AfterLoopGrace` and `MainGrace` place the pause in the model's order.
