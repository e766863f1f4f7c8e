# ddnsperf: verified model of the load run, the rate search and the report

ddnsperf drives a DNS server with UPDATE transactions (RFC 2136) from a pool of
concurrent Tokio workers, folds their outcomes into a report, and can search for
the highest sustainable request rate with a PID controller. This project models
that logic in Dafny 4.11 and proves what the program's parts promise together.
Nothing was executed; `dafny verify dfyconfig.toml` checks everything.

## What is modelled

- **The load run** (`Engine.dfy`). A transition system with one program counter
  per worker. Reading the cancel flag, `fetch_add`, `fetch_sub`, drawing a record,
  opening the client, each UPDATE exchange and pushing the outcome are separate
  steps; the network may deliver an unanswered message at any later time, any
  number of times or never. A schedule is any sequence of steps, a step that is
  not enabled is passed over, and every result is stated for all schedules, any
  number of workers and both 64-bit counters with their wrap-around. The same steps
  are written a second time as methods of a class with the source's fields
  (`Engine.LoadRun`), each proved equal to its step.
- **The server** (`Update.dfy`, `Transaction.dfy`). A zone is a map from owner
  name and type to a set of data. An exchange gets any answer code, applied or
  not, or none. Results that need an RFC 2136 server say so with `Conforming`:
  NOERROR exactly when applied, YXRRSET only if the RRset is present, NXRRSET
  only if it is absent. Tickets, outcomes and failures are conserved against any
  server, including the bundled stub that answers NOERROR without a zone.
- **The collector** (`Stats.dfy`) and the perf test's latency drain
  (`Sampling.dfy`), both against direct definitions over the outcomes.
- **The rate search** (`Pid.dfy`, `Search.dfy`, `Convergence.dfy`,
  `Sampling.dfy`) over the reals, and the perf test with its workers and its
  two-step sampler as a second transition system (`PerfRun.dfy`).
- **Names, draws and framing** (`Names.dfy`, `Records.dfy`, `Stub.dfy`).

Main results:

- the most tickets any interleaving grants is known exactly, for every limit and
  pool (`GrantsExact`); it exceeds a positive limit exactly when limit plus pool
  size exceeds 2^64 (`TicketLimitExact`), as it does with no `--requests` and two
  or more workers, since the default limit is the largest u64;
- with deletes, a drawn RRset is present only while a delete for it is pending or
  one of its transactions failed, so leaks are bounded by the reported errors, a
  bound that is attained (`ConcurrentDrain`, `LeakBound`, `LeakBoundAttained`);
- without deletes, the final zone is the initial one plus exactly the drawn
  records (`AddOnlyRun`, `AddOnlyAccumulates`), and sequential error-free runs end
  in the same zone whatever the interleaving (`FinalZoneIsDetermined`);
- the report counts every timeout, broken message and refusal under its own kind
  and code, and its latency figures are those that were clocked
  (`ErrorsByCause`, `FinalBreakdown`, `FinalLatencies`);
- for every limit, pool size and server, cancelled or not, runs are bounded and
  never deadlock (`TaskStepsBounded`, `CanFinish`), and a cancelled pool stops
  within one round (`CancelStopsPromptly`, `CancelledCanFinish`); the perf test
  likewise (`CancelStopsWorkers`, `CanJoin`);
- an error-free search converges by window 97 for every positive setpoint and
  every cap (`ErrorFreeConverges`), at exactly one window given in closed form by
  setpoint and cap (`StopsExactly`, `ErrorFreeSearchStops`), which is 96 or 97 for
  setpoints from 0.4 up whose cap is out of reach (`UsualStopWindow`);
- lower error rates never end the search at a lower rate while the clamp does not
  bind (`UnclampedMonotone`), but over all histories a search can have this holds,
  for a setpoint from 0 to 98, exactly for a cap of zero or one
  (`MonotoneExactly`);
- the benchmark phase of `--rps auto` is rate limited exactly when the cap is at
  least one or no window was completed (`BenchmarkIsLimited`).

Where the repository's README and the code differ the code is followed. Its
README says every DNS message is counted (README.md:417) and every transaction has
four messages (README.md:410); the code reports one outcome per transaction, and
`FourMessagesPerRequest` proves that four messages per request holds exactly with
both PTR and delete legs.

## Model

| member | source | states |
|---|---|---|
| Engine.LoadRun.Claim | src/engine.rs:71-75 | taking a ticket: the wrapping fetch_add, and over the limit the worker goes to give it back |
| Engine.LoadRun.Return | src/engine.rs:72-75 | giving the ticket back leaves the pool step's whole new state |
| Engine.LoadRun.DrawRecord | src/engine.rs:81 | drawing a record advances only the generator's counter and that worker |
| Engine.LoadRun.ExchangeLeg | src/dns.rs:247-295 | one UPDATE exchange: zone, stray messages, next leg or failure, exactly as the pool step says |
| Engine.LoadRun.SendOutcome | src/engine.rs:99-100 | one outcome per transaction, with its error, is queued |
| Engine.LoadRun.Run | src/engine.rs:106-113 | after any schedule that lets all workers exit, join then drain: the report summarises every outcome, none is lost |
| Engine.DrainedIsReached | src/engine.rs:106-113 | draining the channel after the join is itself a schedule of the transition system |
| Benchmark.RunBenchmark | src/engine.rs:33-116 | report and final zone of a whole run: totals equal tickets granted and failures; without a cancel the number requested is sent; timeouts, transport errors and each code count the steps that caused them, most frequent code first; minimum, mean and maximum are those of the clocked latencies; an error-free delete run cleans up |
| EngineTickets.Conservation | src/engine.rs:69-102 | in every state of every interleaving: counter = granted + overshooting (mod 2^64); granted = held + queued + folded; each failure is one failed outcome |
| EngineTickets.FinalReport | src/engine.rs:106-113 | when joined and collected: total_sent = tickets granted = records drawn, total_err = failures, ok + err = sent, the counter ends on the granted number |
| EngineTickets.LimitHolds | src/engine.rs:71-75 | in the safe range granted never exceeds the limit, and a worker overshoots only when all tickets are granted |
| EngineTickets.PoolGrantsAll | src/engine.rs:69-75 | without a cancel a nonempty pool in the safe range ends with granted = limit = counter |
| EngineTickets.GrantsBounded | src/engine.rs:69-75 | no interleaving grants more than limit + 2^64 * ((workers - 1) div (2^64 - limit)) tickets, or any for a limit of zero or an empty pool |
| EngineTickets.GrantsAttained | src/engine.rs:69-75 | some interleaving grants exactly that many |
| EngineTickets.GrantsExact | src/engine.rs:42-75 | a bound on the granted tickets holds in every interleaving if and only if it is at least that number |
| EngineTickets.LimitBroken | src/engine.rs:42-43 | outside the safe range some interleaving wraps the counter and grants more than the limit |
| EngineTickets.AllRequestsSent | src/engine.rs:43-75 | without a cancel a nonempty pool sends exactly --requests N, if N plus its size fits the counter, and one worker without --requests the largest u64 |
| EngineTickets.TicketLimitExact | src/engine.rs:42-75 | --requests N is never exceeded if and only if N is zero or N + workers <= 2^64; without it 2^64 - 1 is not if and only if there is at most one worker |
| EngineTickets.ReportHasNoCodeZero | src/dns.rs:135-138 | NOERROR never appears among the report's rejection codes |
| EngineOutcomes.ErrorsByCause | src/dns.rs:57-82 | in every state, for each error kind: errors held, queued and folded number the connections and messages that timed out, or broke, or were refused with that code |
| EngineOutcomes.FinalBreakdown | src/stats.rs:58-85 | the report's timeouts, transport errors and per-code counts are the numbers of steps that caused them, most frequent code first |
| EngineOutcomes.LatenciesClocked | src/engine.rs:97-100 | the outcomes folded and queued carry the clocked latencies in the order they were sent |
| EngineOutcomes.FinalLatencies | src/stats.rs:72-76 | minimum, maximum and mean of the report are those of the clocked latencies |
| EngineTransaction.TaskPlaysTransaction | src/dns.rs:219-303 | the steps of one worker, left alone, end in the same state as the straight-line transaction |
| EngineZone.AlwaysTracked | src/dns.rs:247-295 | against any server: RRsets of records never drawn are untouched, and stray messages come only from failed transactions |
| EngineZone.ConcurrentDrain | src/dns.rs:278-295 | with deletes and a conforming server, in every state: a drawn RRset is present only while some worker still has its delete to run or one of its transactions failed |
| EngineZone.LeftoversFailed | src/dns.rs:278-295 | once all workers exited, a drawn RRset still present belongs to a failed transaction and all others are as they were |
| EngineZone.LeakBound | src/stats.rs:57-71 | leaked A RRsets, and likewise PTR RRsets, are at most the report's total_err, with late deliveries |
| EngineZone.CleanRun | src/engine.rs:69-113 | a report without errors means no drawn RRset is left and every other one is untouched |
| EngineLeak.LeakBoundAttained | src/dns.rs:126-154 | for every n up to hosts and requests some finished run against a conforming server has n errors and leaves n drawn A RRsets, by late deliveries |
| EngineAccumulation.AlwaysFaithful | src/dns.rs:126-139 | without deletes, against any server: existing RRsets never change and new ones hold their own record's data |
| EngineAccumulation.AlwaysFilled | src/dns.rs:247-265 | a drawn RRset is present, about to be created, or belongs to a failure |
| EngineAccumulation.AddOnlyRun | src/dns.rs:135-138 | an error-free run without deletes ends with the initial zone plus exactly the drawn records' RRsets |
| EngineOrder.DrawsInOrder | src/records.rs:40-41 | under any interleaving the j-th draw is host (start + j) mod 2^64 mod h |
| EngineOrder.DrawsBalanced | src/records.rs:35-42 | until the counter wraps every host is drawn floor(n/h) or ceil(n/h) times in any run |
| EngineOrder.TurnCoversHosts | src/records.rs:40-41 | any h consecutive draws of a run, by whichever tasks, cover every host exactly once until the counter wraps |
| EngineOrder.DrawsAsPicked | src/records.rs:36-39 | in random mode the j-th record is the host the j-th pick points at and the counter never moves |
| EngineOrder.AddOnlyAccumulates | src/records.rs:40-41 | sequential add-only run, fault-free, cancelled or not, with N tickets granted: of the hosts without an A RRset exactly the first min(N, H) have one with their address, total_ok = N, total_err = 0 |
| EngineOrder.AddOnlyRequests | src/engine.rs:43-71 | without a cancel, and with N plus the pool size fitting the counter, that N is --requests |
| EngineOrder.FinalZoneIsDetermined | src/engine.rs:52-104 | error-free sequential runs granting equally many tickets leave the same zone, whatever the interleaving |
| EngineLiveness.TaskStepsBounded | src/engine.rs:69-103 | any schedule of any pool has at most one round per ticket that can be granted plus three steps per worker; in the safe range that is one round per requested ticket |
| EngineLiveness.CancelStopsPromptly | src/engine.rs:70 | after the cancel flag is up at most one more outcome per worker is produced, in at most one more round each |
| EngineLiveness.CanFinish | src/engine.rs:106-113 | from every reachable state of every pool, cancelled or not, the run can still be joined and collected, without a further fault, refusal or cancel |
| EngineLiveness.CancelledCanFinish | src/engine.rs:106-113 | from any state with the flag up all tasks can exit and the collector can finish |
| EngineLiveness.GoodRunsExist | src/dns.rs:135-138 | every fault-free prefix against a conforming server extends to a fault-free finished run |
| EngineLiveness.FourMessagesPerRequest | src/dns.rs:214-218 | an error-free run sends legs(shape) messages per request, and four exactly with both PTR and delete legs |
| Transaction.RunTransaction | src/dns.rs:219-303 | the straight-line transaction equals iterating the legs; a failed connection is its timeout or transport error; each leg that ran has its own latency, any other none |
| Transaction.PlayError | src/dns.rs:245-295 | a transaction succeeds if and only if all its legs pass, and its error is that of the first that does not: its code and leg, timeout or transport |
| Transaction.TimedCreate | src/dns.rs:126-139 | codes 0 and 7 are success; any other is a rejection with code and leg, a lost message a timeout or transport error |
| Transaction.TimedDeleteRrset | src/dns.rs:141-154 | codes 0 and 8 are success; any other is a rejection with code and leg, a lost message a timeout or transport error |
| Transaction.TransactionShapes | src/dns.rs:214-218 | the four documented leg sequences |
| Transaction.PlayFrame | src/dns.rs:219-303 | whatever the server does, a transaction changes no RRset but its own, and leaves a stray message only if it failed |
| Transaction.PlayDeletes | src/dns.rs:278-295 | alone on a conforming server an error-free transaction with deletes removes exactly its own RRsets |
| Transaction.PlayAdds | src/dns.rs:247-265 | without deletes it adds exactly its missing RRsets |
| Transaction.Total | src/stats.rs:172-181 | the total adds the legs that ran |
| Records.RecordGenerator.Next | src/records.rs:35-54 | sequential draws take the counter's host and bump it with wrap-around; random draws leave the counter alone |
| Records.RecordNames | src/records.rs:44-53 | a record's PTR name parses to its address, and its host name is prefix, a numeral reading back as the address, and zone |
| Records.BalancedDraws | src/records.rs:40-41 | n draws from any start hit every host floor(n/h) or ceil(n/h) times |
| Records.FullTurn | src/records.rs:40-41 | any h consecutive draws cover every host exactly once |
| Records.DrawsFromZero | src/records.rs:40-41 | from a fresh counter the hosts drawn once more are the first n mod h |
| Names.PtrNameRoundTrip | src/dns.rs:157-161 | a string parses to an address if and only if it is that address's PTR name |
| Names.PtrNameReversed | src/dns.rs:157-161 | the labels are the octets, least significant first, then in-addr.arpa. |
| Names.PtrNameInjective | src/records.rs:44-47 | distinct addresses have distinct PTR names |
| Names.HostnameReads | src/records.rs:49-51 | the numeral after the prefix is the address as one number, most significant octet first |
| Names.HostnameInjective | src/records.rs:49-51 | for one prefix and zone distinct addresses have distinct host names |
| Names.DecimalRoundTrip | src/records.rs:49 | decimal printing is read back, without a leading zero |
| Stats.Collect | src/stats.rs:44-101 | the streaming report equals the direct definitions: counts, extremes, exact mean, histogram |
| Stats.SortByCount | src/stats.rs:85 | the in-place sort yields nonincreasing counts and keeps the entries |
| Stats.WelfordStepIsMean | src/stats.rs:74-76 | one Welford update turns the mean of n - 1 values into the mean of n |
| Stats.OrderFree | src/stats.rs:57-77 | any two arrival orders give the same scalars and the same codes with counts |
| Stats.MeanBetweenExtremes | src/stats.rs:72-76 | min <= mean <= max for a nonempty run |
| Stats.BreakdownComplete | src/stats.rs:58-71 | every outcome is a success or falls under exactly one error kind |
| Stats.HistogramTotal | src/stats.rs:65-85 | per-code counts add up to the number of rejections |
| PidControl.Pid.Update | src/perf.rs:32-38 | integral and previous error after a sample, and the signed correction |
| PidControl.ClosedForm | src/perf.rs:32-38 | the integral is n*s minus the rates; outputs sum to kp*E + ki*EE + kd*e_n because the derivative telescopes |
| PidControl.LowerRatesNeverEndLower | src/perf.rs:32-38 | with nonnegative gains, error rates nowhere higher never sum to a smaller correction |
| Search.RateInRange | src/perf.rs:159-163 | after any window the rate and its truncation, the quota, are in [1, cap] for cap >= 1; cap 0 gives rate zero and quota one |
| Search.BenchmarkIsLimited | src/main.rs:112-129 | the discovered rate yields a limiter if and only if cap >= 1 or no window ran, within the cap, and its quota is that rate, truncated |
| Search.StreakMeaning | src/perf.rs:165-170 | the streak is the longest run of under-2% windows ending with the latest |
| Search.StreakConfinesRate | src/perf.rs:160-173 | a streak of j keeps the rate strictly between 0.98^j and 1.02^j times the rate j windows ago if and only if the cap is not zero |
| Search.UnclampedMonotone | src/perf.rs:158-161 | while the clamp never binds, lower error rates never end at a lower rate |
| Search.MonotoneExactly | src/perf.rs:158-168 | over all histories a search can have before it stops, lower error rates never end at a lower rate if and only if cap <= 1, setpoint <= -25/3 or setpoint >= 325/3; for every setpoint below 6401/65 (98.47) or from 325/3 on, and between them for every cap below 100 + 65 * setpoint |
| Convergence.ErrorFreeRate | src/perf.rs:158-161 | after n error-free windows the rate is 100 + 10s + 50ns + 2.5s*n(n+1), or the cap |
| Convergence.SmallByMargin | src/perf.rs:160-165 | an uncapped error-free window n is under 2% if and only if 40 + s(n^2 - 81n - 1016) > 0 |
| Convergence.ErrorFreeConverges | src/perf.rs:137-171 | for every setpoint s > 0 and every cap the streak is complete by window 97 |
| Convergence.StreakIsRun | src/perf.rs:165-170 | below the cap the streak after n error-free windows is the run of positive margins ending at n |
| Convergence.StreakAtCap | src/perf.rs:159-170 | from the window reaching the cap on, every further window extends the streak |
| Convergence.StopsExactly | src/perf.rs:165-170 | for every s > 0 and every cap: until the search stops its streak is complete at exactly window Stop(s, cap), the uncapped stopping window or five windows after reaching the cap, less the streak carried into it |
| Convergence.StopBounds | src/perf.rs:165-170 | that window is from 5 to 97, and with the cap out of reach it is the uncapped one |
| Convergence.RunStops | src/perf.rs:165-170 | the uncapped stopping window: 5 for s < 10/349, else four windows after the margin turns positive for good, from 81 to 97 |
| Convergence.UsualStopWindow | src/perf.rs:165-170 | from s = 0.4 on that is 96 (s < 10) or 97 |
| Convergence.UnitSetpoint | src/perf.rs:137-171 | for s = 1 and cap >= 28190 the loop stops at window 96, not before, at rate 28190 |
| Sampling.SearchLoop.Sample | src/perf.rs:148-170 | one window: rates from counter deltas, PID, clamp, limiter swap, streak |
| Sampling.RunSearch | src/perf.rs:136-174 | the loop uses exactly the windows up to the first complete streak or the deadline, and returns the rate, verdict and quota of that history, within the given cap or 50,000 |
| Sampling.ErrorFreeSearchConverges | src/perf.rs:143-173 | without failed transactions and with 97 windows before the deadline the search converges, within 97 windows |
| Sampling.ErrorFreeSearchStops | src/perf.rs:143-173 | on an error-free server the search converges if and only if Stop(s, cap) windows come before the deadline, after exactly that many |
| Sampling.ErrorFreeReachesCap | src/perf.rs:159 | without failures the result is exactly the given cap, or 50,000, once the quadratic is at it |
| Sampling.ErrorRate | src/perf.rs:152-156 | the rate times the completions is 100 times the failures |
| Sampling.FailingSearch | src/perf.rs:148-170 | when everything fails and 65 * (target - 100) <= -99 the search is at its floor from window one and converges at exactly window six |
| Sampling.ConvergedMeans | src/perf.rs:165-173 | a converged search used five windows or more and confines its rate strictly by the fifth powers of 0.98 and 1.02 if and only if the cap is not zero |
| Sampling.WindowsPartition | src/perf.rs:148-153 | window deltas add up to the last readings |
| Sampling.DrainLatencies | src/perf.rs:181-196 | count, minimum, maximum and the mean of the wrapping 64-bit sum |
| Sampling.DrainAgreesWithCollector | src/perf.rs:181-196 | drain and collector agree on count and extremes, and on the mean if and only if the latency sum fits a u64; else the drain's sum is short by whole turns of 2^64 |
| PerfRun.DrainSeesEveryCompletion | src/perf.rs:127-130 | drained after the join, latencies number exactly ok + err, kind by kind |
| PerfRun.LatenciesPushed | src/perf.rs:125-130 | the drained latencies are those clocked, in order |
| PerfRun.FailuresAreTransport | src/perf.rs:129 | every failed outcome of the perf test is a transport error |
| PerfRun.ReadingsRecorded | src/perf.rs:143-151 | under every interleaving each window holds the clock and both counters as they stood at its own steps, and starts 500 ms or more after the one before was done |
| PerfRun.CancelStopsWorkers | src/perf.rs:111-132 | after the flag is up the workers push at most one more outcome and take at most three more steps each |
| PerfRun.CancelledCanJoin | src/perf.rs:176-177 | from any such state all workers can be joined, within three steps each |
| PerfRun.CanJoin | src/perf.rs:143-177 | from every state the search can stop, raise the flag and join |
| PerfRun.AlwaysSampled | src/perf.rs:143-171 | under every interleaving of increments with the two reads: deltas never underflow, wake-ups keep their spacing, the loop stops at the first streak or the deadline |
| PerfRun.WindowsBounded | src/perf.rs:143-153 | each completion lands in at most one window, and k windows satisfy 500k < duration in ms |
| PerfRun.StoppedSearchIsResult | src/perf.rs:165-173 | a stopped concurrent sampler has the verdict of the sequential search over its readings |
| PerfRun.ErrorFreePerfConverges | src/perf.rs:137-173 | without failures a stopped sampler of any interleaving took at most Stop(s, cap) windows, and converged if and only if it took that many |
| Stub.MakeNoErrorResponse | src/bin/stub_dns.rs:32-42 | the array filled in place is the specified reply |
| Stub.ResponseAnswersRequest | src/bin/stub_dns.rs:32-42 | same ID and OPCODE, QR = 1, no AA, TC, RD, RA, Z, AD or CD, RCODE = 0, empty sections |
| Stub.FrameLayout | src/bin/stub_dns.rs:72-80 | a message stands behind its length, most significant octet first |
| Stub.RequestsExact | src/bin/stub_dns.rs:71-75 | the messages served are exactly the frames of length 12..4096 up to the first point where none follows |
| Stub.ServeConnection | src/bin/stub_dns.rs:68-83 | the output is one framed reply per request in order, cut where a write fails, and the counter grows by the replies written whole |
| Stub.AnswerDeframes | src/bin/stub_dns.rs:77-81 | deframing the output returns the replies; 14 bytes each |

## Left out

- hickory client internals, sockets, TSIG and `build_client`: an exchange is one atomic server step with an arbitrary verdict.
- The limiter's pacing: waiting for it is an arbitrary delay before the draw; only the quota passed to it is modelled.
- Command-line parsing, progress bars and printed reports, `rcode_name`, `pct`.
- IEEE rounding: the controller, the mean and the error rate are over the reals; `as u32` truncates and saturates.
- Subnet enumeration and the random source: hosts are a nonempty list, distinct where stated, and random mode may pick any index.
- Name length limits and case folding of domain names; CNAME conflicts at an owner name on the server.
- Worker panics: none are assumed; including PTR legs implies a PTR zone as `main.rs` arranges.
- Throughput figures and wall-clock durations; the UDP loop and statistics printer of the stub.
- The total-error breakdown of the perf report, which that code deliberately leaves at zero.
- PerfRun.AlwaysSampled: the two completion counters do not wrap in this model; 2^64 completions are out of reach.
- Stats.Collect: outcome counts are unbounded naturals, and the library sort is an insertion sort with the same contract.
- Search.MonotoneExactly: setpoints from 6401/65 (98.47) to below 325/3 with a cap of 100 + 65 * setpoint or more are open; there the answer turns on how far a search can climb without completing a streak.
