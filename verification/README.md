# A verified model of one viiwork-freetoken node

One node of a mesh that serves language models. It supervises engine processes,
one per GPU; admits requests from clients and from other nodes and routes each to
a local backend or a peer; and feeds dashboards from bounded in-memory stores. This
project models the parts of the node whose correctness depends on interleaving,
history or arithmetic, and proves what they promise.

Objects that the node updates in place are classes here, with a method for each
method the node's code has; each method is proved against a specification function or
against a run of a step system, and the promises are lemmas about those. Where
several goroutines share state the model is a step system with one event per
access to the shared state, so a run is any interleaving.

| file | what it models |
|---|---|
| `Supervisor.dfy`, `BackendState.dfy`, `BackendCode.dfy` | the lifecycle of one engine process: failure ladder, startup patience, respawn budget, hard-failure latch |
| `LateStores.dfy`, `GivingUp.dfy` | what its runs can come to: respawns without a cause; how soon a failing backend is dead, and whether that is final |
| `ContextLearning.dfy` | the context length a backend publishes |
| `Routing.dfy` | the route picker and its two round-robin indices |
| `Admission.dfy`, `RequestPath.dfy` | concurrent request handlers over shared in-flight counters, and one handler's code |
| `Mesh.dfy` | forwarding between nodes |
| `ActivityLog.dfy` | the event ring, and the subscribe-then-backlog protocol (module `Replay`) |
| `Deadband.dfy` | the coarsened memory figure and the pushes it causes |
| `Latency.dfy`, `GpuHistory.dfy`, `Prompts.dfy` | bounded stores against the full log of what was put in |
| `PromptUse.dfy` | how concurrent handlers use the prompt store |
| `Lines.dfy`, `LinePrefix.dfy`, `Sse.dfy` | line-based streams: log prefixing, event-stream writer and reader |
| `Balancer.dfy` | the node-local picker |
| `Common.dfy` | windows, counting and division facts shared by the others |

## Results worth knowing

- **Respawn causes.** A respawn is meant to have one of three causes: startup
  timed out, a hard-failure report, or an exhausted ladder on a backend that had
  served. A report is two separate stores (latch, then status). If the health
  check consumes the latch between them, the status store can land on the *next*
  process, which is then put on the ladder before it ever served. `CauselessIff`
  says exactly which configurations that can make respawn a process with none of
  the three causes: those with a budget of at least two respawns and a startup
  timeout of at least `Max(1, failureThreshold)` times the gap before a tick,
  whatever that gap is. `RespawnIffCause` proves the three causes exact, in both directions,
  as long as no store has landed late; `VerdictExact` says, over all runs, exactly
  when the verdict and the causes part. Late stores can also leave an unhealthy
  backend with a clear latch and a full ladder between ticks, under every
  configuration (`LateStoreOnFullLadder`); `LadderAtTickBoundary` says exactly when.
- **Dead is reached.** An engine that never comes up is given up within a number of
  ticks known beforehand, whatever is reported meanwhile (`DeadWithinBound`). As
  long as no probe succeeds, all ticks, revivals included, are bounded by a measure
  and the handlers that are out (`AllTicksBounded`), so are the check's events
  (`CheckStepsBounded`), and a check can always go on unless the backend is dead
  (`CheckGoesOn`).
- **When dead is final.** A dead backend stays dead if and only if no handler that
  found it healthy is still out; and it may serve again if and only if one is, and
  its process is still there or a respawn is left (`DeadIsFinalIff`). Giving up does
  not stop the process. Giving up on an engine that never came up is final
  (`NeverServedStaysDead`). The latch survives a start and a successful probe; only
  a failed probe consumes it.
- **The in-flight ceiling is not exact.** With at most `W` handlers between reading
  a counter and incrementing it, the counter reaches at most `ceiling - 1 + W`
  (`CeilingOvershoot`), and that bound is attained for every ceiling and every `W`
  (`OvershootAttained`).
- **A panic while forwarding leaks a count.** The decrement of a peer's write-through
  counter is not deferred, unlike a backend's. The model counts such panics in
  `lost`; conservation is stated with that term, and a quiescent peer counter is
  zero exactly when `lost` is zero. `PanicLeaks` is a run with one forward that
  ends with nothing dispatched and that counter at one.
- **Subscribe first.** A viewer's replay and live events cover everything from the
  oldest retained event on if and only if it subscribed no later than it read the
  backlog (`ReplayComplete`).
- **What the event stream carries.** A payload survives writer and reader exactly
  when it has no newline and does not end in a carriage return (`SurvivesIffPlain`),
  and a whole stream exactly when every payload does (`StreamSurvivesIffPlain`).

## Model

| member | source | states |
|---|---|---|
| Supervision.LadderInvHolds | internal/freetoken/manager.go:118-141 | in every interleaving the failure count is the streak of failed probes since the last success or start, and the latch is set exactly while a report is unconsumed |
| Supervision.BudgetInvHolds | internal/freetoken/manager.go:215-235 | in every run the respawns counted are the process starts after the first, never more than the budget, uptime is measured from the last successful start, and a process is held exactly from a successful start to the next stop: giving up does not let go of it |
| Supervision.StatusInvHolds | internal/freetoken/manager.go:118-178 | what each status implies about the history at every point of every check: starting means no success since the start, healthy means one, and a healthy backend between checks has no failures |
| Supervision.CauseInvHolds | internal/freetoken/manager.go:153-177 | an unhealthy backend has served, or has a report waiting, or got a late store; a check that goes on to respawn has a cause, or a full ladder after a late store |
| Supervision.RespawnIffCause | internal/freetoken/manager.go:135-177 | without a late store, a failed check goes on to respawn if and only if startup timed out, the probe consumed a report, or a backend that had served ran up the threshold |
| Supervision.VerdictExact | internal/freetoken/manager.go:153-177 | over all runs, verdict and causes differ exactly when a backend made unhealthy by a late store before it served meets a ladder and a patience that disagree |
| Supervision.RespawnHasCause | internal/freetoken/manager.go:215-224 | every respawn or giving-up in any run has one of the three causes, or a full ladder after a late store |
| LateStores.ServedAndReported | internal/proxy/streaming.go:52-66 | at any pace of ticks, a process can serve and then be reported by any number of handlers whose status stores are outstanding |
| LateStores.StoreOutlivesProcess | internal/balancer/state.go:151-154 | at any pace of ticks, the status store of a report on a process that had served can still be outstanding when the next process has started |
| LateStores.LateStoreRespawnsWithoutCause | internal/balancer/state.go:151-154 | given two respawns and a startup timeout of at least Max(1, threshold) gaps between ticks, a run in which such a store makes the node respawn a process that has never served, with none of the three causes |
| LateStores.CauselessNeedsPatience | internal/freetoken/manager.go:153-177 | no run without that budget and that patience has such a respawn |
| LateStores.CauselessIff | internal/freetoken/manager.go:153-231 | over all runs in which at least a given gap passes before each tick: a respawn can lack the three causes if and only if maxRespawns >= 2 and startupTimeout >= Max(1, failureThreshold) * gap |
| Supervision.StoreInvHolds | internal/balancer/state.go:151-154 | in every run, a store that no probe has seen leaves the backend unhealthy, and one that is unhealthy between checks without such a store has a report waiting or is below the threshold |
| Supervision.LadderAtTickBoundary | internal/freetoken/manager.go:121-177 | between ticks of every run the count is the streak and a healthy backend has no failures; an unhealthy one with a clear latch is below the threshold unless, and exactly unless, a late store that no probe has seen landed on a full ladder |
| LateStores.LateStoreOnFullLadder | internal/balancer/state.go:151-154 | under every configuration and at any pace of ticks, a run that ends between ticks with such a backend: unhealthy, latch clear, ladder full |
| Supervision.StartsBounded | internal/freetoken/manager.go:215-231 | in any run, reports interleaved anywhere, a process is started at most once plus the respawn budget |
| GivingUp.DeadIsNotAbsorbing | internal/balancer/state.go:151-154 | a dead backend that a handler can still report, and that has its process or a respawn left, can serve again |
| GivingUp.DeadIsFinalIff | internal/freetoken/manager.go:103-116 | a backend dead at a tick boundary can leave that state if and only if a handler that found it healthy is still out; it can become healthy if and only if, besides, its process is held or a respawn is left |
| GivingUp.NeverServed | internal/peer/registry.go:275-278 | a backend that was never promoted was never listed to a handler, so no report on it can be under way |
| GivingUp.NeverServedStaysDead | internal/freetoken/manager.go:215-234 | so giving up on an engine that never came up is final |
| GivingUp.RankStep | internal/freetoken/manager.go:153-177 | each event of a failing stretch pays for its tick out of respawns left, then patience left of the current process, except a giving-up |
| GivingUp.RankDecreases | internal/freetoken/manager.go:103-178 | over a whole failing stretch the measure falls by the number of ticks, up to one for each giving-up |
| GivingUp.TicksBounded | internal/freetoken/manager.go:153-222 | from a tick boundary on, a stretch in which every probe fails and the clock moves at every tick has at most one tick more than the measure at the boundary, and one for each giving-up |
| GivingUp.AllTicksBounded | internal/freetoken/manager.go:103-235 | all its ticks are at most the measure, two, and the stores that land in it; if the backend was not healthy at the boundary, at most the measure, two, and the handlers that were out |
| GivingUp.CheckStepsBounded | internal/freetoken/manager.go:118-235 | and in it each tick has at most seven events of the check, so the check cannot drag on |
| GivingUp.CheckGoesOn | internal/freetoken/manager.go:103-116 | the health check can go on from every state except a dead backend at a tick boundary, where it has no event at all |
| GivingUp.DeadAhead | internal/freetoken/manager.go:118-235 | from anywhere in such a stretch, failed checks alone, spawns succeeding, lead to a dead backend within the bound |
| GivingUp.GivenUpWithinBound | internal/freetoken/manager.go:215-222 | a failing stretch with more ticks than the measure and one contains a giving-up |
| GivingUp.DeadWithinBound | internal/freetoken/manager.go:153-234 | for every stretch of failed probes from a tick boundary, reports interleaved anywhere, the backend is given up in it or is dead once failed checks go on, in both cases within a number of ticks fixed at the boundary by respawns, patience and threshold |
| BackendCode.CheckIsRun | internal/freetoken/manager.go:118-178 | a health check that nothing interleaves with is one particular run of the concurrent system, when no process but the backend's own answers |
| BackendStates.BackendState.NoteHardFailure | internal/balancer/state.go:151-154 | sets the latch and overwrites any status with unhealthy |
| BackendCode.Backend.NoteHardFailure | internal/balancer/state.go:151-154 | a report is the two report events of the step system in a row |
| BackendStates.BackendState.TakeHardFailure | internal/balancer/state.go:157-157 | returns the latch and clears it, and changes nothing else |
| BackendCode.Backend.Start | internal/freetoken/backend.go:176-210 | refuses while an unreaped process is held; a start resets failures, health and learned context, publishes the configured limit, and leaves the latch and the respawn count; a failed one changes nothing |
| BackendCode.Backend.Stop | internal/freetoken/backend.go:216-246 | lets go of the process, and marks the backend dead only if it held one |
| BackendCode.Backend.LearnContextLen | internal/freetoken/backend.go:342-374 | the learning step of the context model, latched whether or not anything answered |
| BackendCode.Backend.Probe | internal/freetoken/backend.go:299-319 | succeeds exactly on a document that could be read with status "ok" and no maintenance but "serving", and is the probe step of the context model |
| BackendCode.Backend.RespawnProcess | internal/freetoken/manager.go:215-235 | gives up at the budget without stopping, else spends one respawn, stops and starts; a failed start leaves it dead |
| BackendCode.ContextFollows | internal/freetoken/backend.go:299-374 | whatever history of starts and probes led to a check, the context after it is that of the history with its probe added, and a start if its events contain a successful one |
| BackendCode.Backend.CountFailure | internal/freetoken/manager.go:135-177 | the branches after a failed probe leave the status, counters and context of a failed check |
| BackendCode.Backend.CheckOne | internal/freetoken/manager.go:118-178 | the context continues any history that led to it by this check's probe and its restart if any; status and counters are those of a check, and it is the run of the concurrent system's events unless something answers for a backend without a process |
| BackendCode.Backend.Tick | internal/freetoken/manager.go:103-116 | leaves a dead backend alone and checks any other, with the same promises |
| ContextLearning.ResetMeans | internal/freetoken/metrics.go:62-67 | on the documents themselves: which probes are ready, and that a reset is a start or a ready probe right after a document read with another maintenance than "serving" |
| ContextLearning.LearnedIffKnown | internal/freetoken/backend.go:299-319 | over any run of starts and probes, the latch is set exactly when a ready probe has not been followed by a reset |
| ContextLearning.AsksIff | internal/freetoken/backend.go:342-351 | the engine is asked at exactly the ready probes that a reset separates from every earlier one: at most once between resets, where the resets are a start and a ready probe right after an out-of-service document |
| ContextLearning.PublishedBy | internal/freetoken/backend.go:342-374 | what is published: the configured limit at a start, the smallest figure that answered at an asking probe, and no change otherwise |
| Routing.Picker.PickRoute | internal/peer/route.go:50-96 | the loops over the routes and the two shared indices compute the pick the lemmas below are about |
| Routing.DropFull | internal/peer/route.go:56-67 | the first loop collects exactly the admissible routes and their least load |
| Routing.SplitTies | internal/peer/route.go:72-82 | the second loop collects the local and the peer routes tied at that load |
| Routing.PickRefusals | internal/peer/route.go:50-70 | no route if and only if the list is empty; backpressure if and only if it is not and every route is a local one at a positive ceiling |
| Routing.PickIsBest | internal/peer/route.go:56-95 | the pick is admissible, of least load among the admissible, and local if and only if an admissible local one has that load |
| Routing.PickAmong | internal/peer/route.go:50-96 | refusals and pick in terms of the routes in the list, a peer only if strictly lighter than every admissible local one |
| Routing.PickMoves | internal/peer/route.go:84-95 | the local index moves on by one, modulo 2^64, exactly if two local routes are tied best, the peers' exactly if no local one is best and two peers are; a refused pick or a single target moves neither |
| Routing.DisturbsIff | internal/peer/route.go:25-37 | a pick changes the index that other candidates draw from exactly if it draws itself and from the same one |
| Routing.TargetsAre | internal/peer/route.go:72-82 | the routes rotated over are exactly the best local ones, or the best peers if no local one is best |
| Routing.TargetIsBest | internal/peer/route.go:72-82 | every route the picker rotates over is such a best route |
| Routing.PickTakesTurn | internal/peer/route.go:84-95 | a pick takes the target whose turn it is and moves that index on, except that a single target takes no turn |
| Routing.PickOnTurn | internal/peer/route.go:87-95 | a pick falls on the j-th target exactly when the index it draws is j modulo the number of targets |
| Routing.TargetsDistinct | internal/peer/route.go:72-82 | the routes rotated over are distinct and in list order |
| Routing.HitsBalanced | internal/peer/route.go:87-95 | any n consecutive turns fall on each of k places between n/k rounded down and up |
| Admission.LocalOnlyHolds | internal/proxy/handler.go:261-269 | what is kept of a forwarded request's routes is local and was there; every local route is kept, each in the place after the local ones before it, and nothing else |
| Admission.ChosenRoute | internal/proxy/handler.go:173-185 | a handler dispatches only what it read itself, below the ceiling as read, and never to a peer if the request was forwarded |
| Admission.StepInv | internal/proxy/handler.go:173-228 | every event of every handler, poll or outage keeps the counters equal to the handlers dispatched |
| Admission.RunInv | internal/proxy/handler.go:173-228 | so do all runs of any number of handlers |
| Admission.CountersConserved | internal/proxy/streaming.go:39-41 | in every reachable state a backend's counter is the number of handlers inside its call, and a peer's the number of outstanding forwards plus those that panicked; none is negative |
| Admission.QuiescentCounters | internal/proxy/handler.go:222-228 | with nothing dispatched every backend counter is zero, and a peer's is zero if and only if no forward to it panicked |
| Admission.PanicLeaks | internal/proxy/handler.go:222-228 | a run in which one forward panics and that ends with nothing dispatched and the peer's counter at one |
| Admission.PeerLoadNeverBelowOwn | internal/peer/peer.go:186-198 | across polls and outages, the load a handler records for a peer is at least this node's outstanding requests there |
| Admission.CeilingOvershoot | internal/peer/registry.go:271-288 | if at most W handlers ever stand between reading a backend's counter and incrementing or leaving, the counter never exceeds ceiling - 1 + W |
| Admission.OvershootAttained | internal/peer/route.go:58-67 | for every positive ceiling and W there is a run that keeps to W and reaches exactly ceiling - 1 + W |
| Admission.PerformIsRun | internal/proxy/handler.go:173-228 | events performed one after the other from the start trace out a run, so what holds of runs holds after them |
| Admission.StretchPerforms | internal/proxy/handler.go:173-228 | any stretch of a run is the performance of some events, so what holds of performed events holds inside runs |
| Admission.ChoiceTurns | internal/proxy/handler.go:182-185 | a handler's choice moves the shared indices as its pick does, and it goes on to the route it picked or is refused |
| Admission.UndisturbedIff | internal/peer/route.go:87-95 | a stretch is undisturbed for some candidates exactly if no handler in it chooses from others that draw from the same index; draws from the other index, single targets and refusals do not matter |
| Admission.RaceTurns | internal/peer/route.go:87-95 | the shared index has moved by one, modulo its wrap, for each choice from the same candidates |
| Admission.RaceHits | internal/peer/route.go:84-95 | in the course of any events, handlers with the same candidates hit a target exactly on the turns of its place |
| Admission.RaceBalanced | internal/peer/route.go:25-37 | in any stretch of the concurrent system, n handlers that choose from the same stale list with k tied targets give each target n/k rounded down or up, whatever order they choose in and whatever else happens, as long as no one else draws from their index and it does not wrap |
| Admission.RaceBalancedAcrossWrap | internal/peer/route.go:25-37 | if it wraps once, any two of these targets still differ by at most two |
| RequestPath.PeerState.Update | internal/peer/peer.go:68-89 | overwrites every polled field, makes the peer reachable, and leaves this node's own count alone |
| RequestPath.PeerState.MarkUnreachable | internal/peer/peer.go:97-113 | clears what a poll reported except identity, addresses, number of backends and prompt history, and leaves this node's own count alone |
| RequestPath.PeerState.HasModel | internal/peer/peer.go:154-163 | membership of the model in the peer's list |
| RequestPath.PeerState.TotalInFlight | internal/peer/peer.go:186-194 | the larger of the polled and the own count |
| RequestPath.LocalOnly | internal/proxy/handler.go:261-269 | the loop computes the filter that the admission and mesh results use |
| RequestPath.Node.ListingExact | internal/peer/registry.go:271-288 | the listing that the scan of the step system reads has exactly the entries of the places that serve the model |
| RequestPath.Node.Resolve | internal/peer/registry.go:271-288 | a local route for exactly each healthy backend if the model is this node's, a peer route for exactly each reachable peer that reports it, with the backend's count and the larger of the peer's two, each once, backends before peers |
| RequestPath.Node.ScanIsRun | internal/peer/registry.go:271-288 | reading the counters one by one is a run of the concurrent system's events that ends with that listing read |
| RequestPath.Node.ProxyRequest | internal/proxy/streaming.go:39-81 | an answer is labelled with the load this request is counted in; increment and deferred decrement cancel; a latency sample is recorded exactly for a complete response below 500; only a vanished process is reported |
| RequestPath.Node.Dispatch | internal/proxy/handler.go:205-228 | the target counts the request while it is out and not after; a forward carries this node's id |
| RequestPath.Node.PollPeer | internal/peer/registry.go:213-244 | a poll is the poll or the outage event of the step system, and no answer leaves the peer unreachable with no models |
| RequestPath.Node.HandlingIsRun | internal/proxy/handler.go:173-230 | handling one request uninterrupted is a run of its handler's events that leaves the counters as it found them |
| RequestPath.Node.HandleProxy | internal/proxy/handler.go:167-185 | unavailable if and only if no healthy backend and no reachable peer is on offer, busy if and only if only backends are and all are at the ceiling, otherwise a lightest offer, a peer only if lighter than every backend with room and never for a forwarded request; the counters it leaves are those of its run, an answer reports the depth including itself, and a backend is reported exactly if it served the request and was found gone |
| Mesh.VisitOutcome | internal/proxy/handler.go:173-249 | for any tables: unavailable (503) if and only if no route is open to the request, busy (429) if and only if some are and all are backends at the ceiling, otherwise a lightest open route below the ceiling, sent on under this node's id if it is a peer's |
| Mesh.ForwardedStays | internal/proxy/handler.go:173-180 | a request with an origin is never forwarded |
| Mesh.OneHop | internal/proxy/peerproxy.go:35-43 | in any mesh of nodes with non-empty ids and arbitrary tables a request crosses between nodes at most once, carries the first node's id when it does, and ends served, busy or unavailable |
| Mesh.EmptyIdBounces | cmd/viiwork-freetoken/main.go:72-75 | the minted id is needed: with an empty id there are journeys of every length |
| ActivityLog.Log.constructor | internal/activity/activity.go:40-45 | a capacity below one falls back to the default |
| ActivityLog.Log.Subscribe | internal/activity/activity.go:52-60 | adds one empty channel and touches no other |
| ActivityLog.Log.Unsubscribe | internal/activity/activity.go:62-69 | removes and closes that channel if it is subscribed and touches no other, so no channel is closed twice |
| ActivityLog.Log.Backlog | internal/activity/activity.go:78-87 | the last max events ever emitted, in order, each marked as a replay |
| ActivityLog.Log.Recent | internal/activity/activity.go:92-98 | the last max events ever emitted, unmarked |
| ActivityLog.Log.Emit | internal/activity/activity.go:106-126 | the ring stays the last max events; the event goes to the end of each channel with fewer than 256 waiting, and any other channel stays as it is |
| Replay.LiveStep | internal/activity/activity.go:106-126 | sends, receives and drops neither make nor lose a copy of an event: only emission to a subscriber adds one |
| Replay.RunInv | internal/activity/activity.go:52-126 | in every interleaving each event emitted since the subscription is addressed to the viewer exactly once |
| Replay.RingIsLast | internal/activity/activity.go:106-111 | the ring is always the last max events emitted |
| Replay.ReplayComplete | internal/proxy/meshactivity.go:69-77 | the events addressed to a viewer are exactly those in the ring at its backlog and those emitted since it subscribed; nothing from the oldest retained event on is missing if and only if it subscribed first |
| Replay.SeenTwice | internal/activity/activity.go:47-87 | the events seen twice are exactly those emitted between the two calls and still in the ring at the second |
| Replay.LostOnlyWhenFull | internal/activity/activity.go:118-125 | an event is lost only if the 256-slot channel was full at an earlier moment |
| Replay.HandedInOrder | internal/activity/activity.go:118-125 | what a viewer is handed only grows at its end, by the event whose send happens, unless 256 are waiting |
| Deadband.PublishedNearReading | internal/proxy/meshactivity.go:36-48 | the published figure is always a whole number of steps and strictly within one step of the reading |
| Deadband.ChangeRoundsDown | internal/proxy/meshactivity.go:44-47 | a reading that changes the figure is rounded down to a step |
| Deadband.TwoChangesCostAStep | internal/proxy/meshactivity.go:30-33 | from a change to the second change after it the reading's total variation is at least a step |
| Deadband.ChangesCost | internal/proxy/meshactivity.go:25-34 | k changes cost a total variation of at least a step for every two after the first |
| Deadband.TooSmallToCoarsen | internal/proxy/meshactivity.go:37-43 | a total below one bucket per step publishes every reading as it is |
| Deadband.SnapshotStream.PushSnapshot | internal/proxy/meshactivity.go:172-187 | a snapshot is pushed exactly if its coarsened form differs from the last one pushed |
| Deadband.QuietStream | internal/proxy/meshactivity.go:188-207 | while only the memory reading moves, the pushes are the first snapshot and one per later change of the figure, and they cost movement accordingly |
| Latency.LatencyWindow.EvictLocked | internal/balancer/state.go:187-199 | the loop drops exactly the leading samples before the cutoff |
| Latency.LatencyWindow.RecordLatency | internal/balancer/state.go:160-166 | continues any history by this sample, evicting after it appends |
| Latency.LatencyWindow.AvgLatency | internal/balancer/state.go:172-185 | continues any history by this read; the average is zero when nothing is kept, and otherwise the integer whose product with the number of samples is next to their total, towards zero |
| Latency.TotalConcat | internal/balancer/state.go:180-183 | the totals of two runs of samples add up; that of one sample is its duration (TotalOne) |
| Latency.NothingRecentLost | internal/balancer/state.go:187-199 | for clock readings in any order, no sample at or after the latest cutoff used is ever dropped or invented |
| Latency.KeptExactly | internal/balancer/state.go:160-199 | for clock readings in any order, what is kept is exactly what was recorded from the first sample on that no cutoff used since it was recorded has passed, and nothing if there is none |
| Latency.KeptAreRecent | internal/balancer/state.go:187-199 | with an ordered clock everything kept lies in the window |
| Latency.AverageIsOfWindow | internal/balancer/state.go:168-185 | with an ordered clock the average after any history is that of exactly the samples ever recorded in the window |
| Latency.NoWindowKeepsAll | internal/balancer/state.go:188-190 | a window that is not positive keeps everything |
| GpuHistory.History.InsertSorted | internal/gpu/history.go:30-37 | a new id is sunk by swaps to its sorted place and no id is lost |
| GpuHistory.OfExact | internal/gpu/history.go:39-43 | the samples of a card are all those of the log with its id, each in the place after the earlier ones |
| GpuHistory.History.Add | internal/gpu/history.go:26-45 | each series is its card's last 720 samples in arrival order; the id list is strictly increasing and holds exactly the cards seen |
| GpuHistory.History.Latest | internal/gpu/history.go:48-58 | the last sample of every card ever seen, by increasing id |
| GpuHistory.History.Series | internal/gpu/history.go:61-71 | the retained window of exactly the cards seen |
| Prompts.Truncate | internal/activity/prompts.go:95-100 | a text is kept whole up to 50000 characters, and a longer one to exactly that many |
| Prompts.PromptStore.constructor | internal/activity/prompts.go:32-37 | a capacity below one falls back to the default |
| Prompts.PromptStore.Append | internal/activity/prompts.go:88-93 | one more entry, oldest out first |
| Prompts.PromptStore.Search | internal/activity/prompts.go:65-71 | the backward search finds the newest entry of the request |
| Prompts.PromptStore.Store | internal/activity/prompts.go:46-53 | the storing step of the history model; an empty prompt stores nothing |
| Prompts.PromptStore.StoreOutput | internal/activity/prompts.go:59-73 | the answering step: joins the newest entry of the request, or makes one |
| Prompts.PromptStore.Get | internal/activity/prompts.go:76-85 | finds something if and only if some entry has the request's id, and then the newest of them, answered or not |
| Prompts.StoreMatches | internal/activity/prompts.go:46-93 | after any well-used history the store is the last max appends, each as its operation and a later answer left it |
| Prompts.InWindow | internal/activity/prompts.go:88-93 | an entry is retained if and only if fewer than max appends followed it |
| Prompts.AnswerJoins | internal/activity/prompts.go:59-73 | an answer never makes a second entry while the prompt's is retained |
| Prompts.OneEntryPerRequest | internal/activity/prompts.go:46-93 | at most one entry per request, and as many entries as appends, up to max |
| Prompts.BothIffNotEvicted | internal/proxy/handler.go:187-203 | a look-up finds prompt and answer together if and only if both were given and fewer than max entries were appended since the prompt |
| PromptUse.RunInv | internal/proxy/handler.go:187-203 | with any number of handlers interleaved in any way, each number is taken once, stored at most once and answered at most once, in that order |
| PromptUse.RequestsAccounted | internal/proxy/handler.go:187-203 | in every interleaving a request that is done has stored its prompt, if it had one, and then its answer, exactly once |
| PromptUse.StoreServesRequests | internal/proxy/handler.go:187-203 | so in every reachable state the store has one entry per request and a look-up finds prompt and answer together exactly while the entry is kept |
| LinePrefix.PrefixWriter.Write | internal/freetoken/prefix.go:25-43 | every complete line goes out tagged and the tail is kept; a sink that refuses a line loses that line alone, and all after it stays buffered; with a sink that does not fail it continues any sequence of writes by this one |
| LinePrefix.ChunkingIndependent | internal/freetoken/prefix.go:9-13 | sink and buffer after any sequence of writes depend on the concatenated input alone |
| LinePrefix.StripRestores | internal/freetoken/prefix.go:25-43 | taking the tags off and adding the buffer gives the input back |
| Sse.SseWriter.Send | internal/proxy/sse.go:38-53 | continues the stream of any calls by this one |
| Sse.Wire | internal/proxy/sse.go:38-64 | the bytes of a call: an event line with the name if there is one, the data line, a blank line; a keepalive is a comment |
| Sse.NameOnWire | internal/proxy/sse.go:43-47 | the lines of a named frame are the event line with that name, the data line and a blank line |
| Sse.SseWriter.Comment | internal/proxy/sse.go:58-64 | appends the keepalive frame |
| Sse.SseReader.Next | internal/proxy/meshactivity.go:290-301 | the next data field of the complete lines left, or end of input |
| Sse.SseReader.ReadAll | internal/proxy/meshactivity.go:245-253 | reading to the end gives all of them in order |
| Sse.LineReadsAs | internal/proxy/meshactivity.go:296-298 | any line, whoever wrote it, is read as what follows "data: " up to its carriage returns and newlines, and skipped if it does not start so |
| Sse.RoundTrip | internal/proxy/sse.go:38-64 | for any sequence of sends and keepalives, reading what was written returns exactly the payloads, in order |
| Sse.CutStream | internal/proxy/meshactivity.go:290-295 | a stream cut off anywhere returns the first of the payloads, each whole |
| Sse.SurvivesIffPlain | internal/proxy/meshactivity.go:296-298 | a payload comes back as sent if and only if it is one line not ending in a carriage return |
| Sse.StreamSurvivesIffPlain | internal/proxy/meshactivity.go:290-301 | with event names free of newlines, a whole stream comes back as sent if and only if every payload of it is such a line |
| Balancer.PickIdleLowestLatency | internal/balancer/balancer.go:103-120 | the first of the fastest idle candidates, none if none is idle |
| Balancer.PickLeastLoaded | internal/balancer/balancer.go:122-139 | the first of the least loaded, ties to the faster |
| Balancer.Load | internal/balancer/balancer.go:40-46 | the load over every backend |
| Balancer.TotalConcat | internal/balancer/balancer.go:40-46 | loads add up over the backends, healthy or not; that of one is its count (TotalOne) |
| Balancer.HealthyOnes | internal/balancer/balancer.go:72-80 | exactly the healthy backends, in order |
| Balancer.BelowCeiling | internal/balancer/balancer.go:82-90 | exactly those of them below the ceiling, if there is one |
| Balancer.Pick | internal/balancer/balancer.go:71-98 | nothing if and only if none is healthy, saturated if and only if all healthy ones are at the ceiling, else the specified minimum on the snapshot |

## Left out

- Spawning, signals, reaping, `/proc` and the environment of a process: a spawn succeeds or fails at will, a process is held or not, and stopping is one event however long the grace period.
- Shutdown racing a respawn.
- The manager's loop over several backends: backends share nothing in a tick, so one is modelled.
- Log lines, load-phase notes, GPU pinning checks, scheduler statistics and memory of a process: nothing modelled reads them.
- A cache rebuild that no probe sees, or that a failed health read separates from the next ready probe: the node does not relearn then, and nothing is claimed.
- HTTP, JSON, YAML and `nvidia-smi` parsing: documents, figures and samples are inputs, JSON payloads are already encoded, and a payload that cannot be encoded is skipped by the node before anything is written.
- Text extraction from requests and responses, CORS, the mesh port, status pages and dashboards.
- Power and energy figures, GPU models, model lists, cluster state, configuration defaults and validation.
- Upstream failures of a forward (a 502 to the client) and panics in one handler's code: the step system has both as the end of a dispatch, the class does not distinguish them.
- A send on a channel that is closed while an emitter still holds it: the modelled viewer stays subscribed.
- The order of live events across emitters: sends happen outside the lock, so delivery is stated per event.
- 64-bit overflow of latency sums, times and counters; the two round-robin indices do wrap.
- Trimming of header values in transit.
- A sink that takes part of a line, and a stream writer whose client has gone.
- Polls and dispatches are single events on the peer they concern; the read lock is not modelled because a handler reads the polled count and its own count as two separate events.
- Prompts.StoreMatches: assumes each request is stored at most once and answered at most once, in that order; `PromptUse.RunInv` proves that the request path does so.
- RequestPath.Node.HandleProxy: does not emit the activity events of a request, whose texts come from a package outside the repository, nor call the prompt store, which `PromptUse` models; request bodies that cannot be read or parsed are answered before it starts.
- Latency.AverageIsOfWindow: with clock readings out of order the average is not that of the window but of what `Latency.KeptExactly` says is kept.
- Another process that answers on the port of a backend whose own is gone: the step system lets only a held process answer a probe, and `BackendCode.Backend.CheckOne` says when that matters.
