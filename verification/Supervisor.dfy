/** The backend supervisor: the lifecycle of one engine process, its failure
    ladder, startup patience, respawn budget and hard-failure latch.

    `Supervision` is the concurrent system: one event per access the health
    check or a request handler makes to shared state, so a run is any
    interleaving of the two. `LateStores` and `GivingUp` prove what its runs can
    come to; `BackendCode` is the code that runs when nothing interleaves, proved
    to be one particular run of that system. */
module Supervision {
  import opened Common

  datatype Status = Starting | Healthy | Unhealthy | Dead

  datatype Config = Config(failureThreshold: int, maxRespawns: int, startupTimeout: int)

  /** What one backend stores: status, latch, counters, whether a process is
      held, and when the last successful start happened. */
  datatype Backend = Backend(
    status: Status,
    latch: bool,
    failures: nat,
    respawns: nat,
    hasProcess: bool,
    startedAt: Option<int>)

  /** Where the backend's health check stands. */
  datatype Pc =
    | Booting
    | Idle
    | Probing
    | Promoting
    | FailedProbe(prev: Status)
    | Deciding(prev: Status, hard: bool)
    | Respawning
    | Stopping
    | Spawning

  /** `calls` counts request handlers that found the backend healthy and are not
      done with it: only they can report it. `landing` counts those that have set
      the latch and not yet written the status: a report is two separate stores. */
  datatype State = State(b: Backend, pc: Pc, calls: nat, landing: nat, clock: int)

  datatype Event =
    | Wait(d: nat)
    | Call
    | Return
    | ReportLatch
    | ReportStore
    | Begin(d: nat)
    | ProbeOk
    | Promote
    | ProbeFail
    | TakeLatch
    | Decide
    | GiveUp
    | Respawn
    | StopProcess
    | Spawn(ok: bool)

  const FRESH := Backend(Starting, false, 0, 0, false, None)

  const INIT := State(FRESH, Booting, 0, 0, 0)

  /** Time since the last successful start, zero when there was none. */
  function Uptime(b: Backend, clock: int): int {
    if b.startedAt.None? then 0 else clock - b.startedAt.value
  }

  /** The verdict of the health check after a failed probe. */
  predicate WantsRespawn(c: Config, s: State)
    requires s.pc.Deciding?
  {
    if s.pc.prev == Starting && !s.pc.hard then Uptime(s.b, s.clock) > c.startupTimeout
    else s.pc.hard || s.b.failures >= c.failureThreshold
  }

  /** Only a process of the backend's own answers its probes. */
  predicate Enabled(c: Config, s: State, e: Event) {
    match e
    case Wait(_) => true
    case Call => s.b.status == Healthy
    case Return => s.calls > 0
    case ReportLatch => s.calls > 0
    case ReportStore => s.landing > 0
    case Begin(_) => s.pc == Idle && s.b.status != Dead
    case ProbeOk => s.pc == Probing && s.b.hasProcess
    case Promote => s.pc == Promoting
    case ProbeFail => s.pc == Probing
    case TakeLatch => s.pc.FailedProbe?
    case Decide => s.pc.Deciding?
    case GiveUp => s.pc == Respawning && s.b.respawns >= c.maxRespawns
    case Respawn => s.pc == Respawning && s.b.respawns < c.maxRespawns
    case StopProcess => s.pc == Stopping
    case Spawn(_) => s.pc == Booting || s.pc == Spawning
  }

  function Step(c: Config, s: State, e: Event): State
    requires Enabled(c, s, e)
  {
    match e
    case Wait(d) => s.(clock := s.clock + d)
    case Call => s.(calls := s.calls + 1)
    case Return => s.(calls := s.calls - 1)
    case ReportLatch => s.(b := s.b.(latch := true), calls := s.calls - 1, landing := s.landing + 1)
    case ReportStore => s.(b := s.b.(status := Unhealthy), landing := s.landing - 1)
    case Begin(d) => s.(pc := Probing, clock := s.clock + d)
    case ProbeOk =>
      s.(b := s.b.(failures := 0), pc := if s.b.status == Healthy then Idle else Promoting)
    case Promote => s.(b := s.b.(status := Healthy), pc := Idle)
    case ProbeFail => s.(pc := FailedProbe(s.b.status))
    case TakeLatch =>
      s.(b := s.b.(latch := false, failures := s.b.failures + 1),
         pc := Deciding(s.pc.prev, s.b.latch))
    case Decide =>
      s.(b := if s.pc.prev == Healthy then s.b.(status := Unhealthy) else s.b,
         pc := if WantsRespawn(c, s) then Respawning else Idle)
    case GiveUp => s.(b := s.b.(status := Dead), pc := Idle)
    case Respawn => s.(b := s.b.(respawns := s.b.respawns + 1), pc := Stopping)
    case StopProcess =>
      s.(b := if s.b.hasProcess then s.b.(hasProcess := false, status := Dead) else s.b,
         pc := Spawning)
    case Spawn(ok) =>
      s.(b := if ok then s.b.(hasProcess := true, startedAt := Some(s.clock), failures := 0, status := Starting)
              else s.b.(status := Dead),
         pc := Idle)
  }

  /** The state after the events of `tr` from `s`, if each was enabled in turn. */
  function Run(c: Config, s: State, tr: seq<Event>): Option<State> {
    if tr == [] then Some(s)
    else
      var before := Run(c, s, tr[..|tr| - 1]);
      if before.Some? && Enabled(c, before.value, tr[|tr| - 1])
      then Some(Step(c, before.value, tr[|tr| - 1]))
      else None
  }

  /** A run of a supervised backend from the node's start. */
  predicate IsRun(c: Config, tr: seq<Event>) {
    Run(c, INIT, tr).Some?
  }

  function After(c: Config, tr: seq<Event>): State
    requires IsRun(c, tr)
  {
    Run(c, INIT, tr).value
  }

  lemma RunSnoc(c: Config, s: State, tr: seq<Event>, e: Event)
    ensures Run(c, s, tr + [e]).Some? <==>
            Run(c, s, tr).Some? && Enabled(c, Run(c, s, tr).value, e)
    ensures Run(c, s, tr + [e]).Some? ==>
            Run(c, s, tr + [e]).value == Step(c, Run(c, s, tr).value, e)
  {
    assert (tr + [e])[..|tr|] == tr;
  }

  // ---- What a trace says, read without looking at any state ----

  /** Whether a probe has succeeded since the last start attempt. */
  predicate OkSinceStart(tr: seq<Event>) {
    tr != [] &&
    match tr[|tr| - 1]
    case ProbeOk => true
    case Spawn(_) => false
    case _ => OkSinceStart(tr[..|tr| - 1])
  }

  /** Consecutive failed probes since the last success or successful start. */
  function FailStreak(tr: seq<Event>): nat {
    if tr == [] then 0 else
    match tr[|tr| - 1]
    case ProbeOk => 0
    case Spawn(true) => 0
    case ProbeFail => FailStreak(tr[..|tr| - 1]) + 1
    case _ => FailStreak(tr[..|tr| - 1])
  }

  /** Time that has passed since the last successful start. */
  function SinceStart(tr: seq<Event>): nat {
    if tr == [] then 0 else
    match tr[|tr| - 1]
    case Spawn(true) => 0
    case Wait(d) => SinceStart(tr[..|tr| - 1]) + d
    case Begin(d) => SinceStart(tr[..|tr| - 1]) + d
    case _ => SinceStart(tr[..|tr| - 1])
  }

  /** Whether a report has been latched and not consumed by a failed probe. */
  predicate ReportPending(tr: seq<Event>) {
    tr != [] &&
    match tr[|tr| - 1]
    case ReportLatch => true
    case TakeLatch => false
    case _ => ReportPending(tr[..|tr| - 1])
  }

  /** Whether the last failed probe consumed a report. */
  predicate ReportConsumed(tr: seq<Event>) {
    tr != [] &&
    if tr[|tr| - 1] == TakeLatch then ReportPending(tr[..|tr| - 1])
    else ReportConsumed(tr[..|tr| - 1])
  }

  /** Whether, since the last start attempt, a handler's status store has landed
      while no latched report was pending, its own included. A report whose two
      stores are adjacent never lands late. */
  predicate LateStoreSinceStart(tr: seq<Event>) {
    tr != [] &&
    match tr[|tr| - 1]
    case Spawn(_) => false
    case ReportStore => !ReportPending(tr[..|tr| - 1]) || LateStoreSinceStart(tr[..|tr| - 1])
    case _ => LateStoreSinceStart(tr[..|tr| - 1])
  }

  /** Whether the last process started has not been stopped. */
  predicate ProcessHeld(tr: seq<Event>) {
    tr != [] &&
    match tr[|tr| - 1]
    case Spawn(true) => true
    case StopProcess => false
    case _ => ProcessHeld(tr[..|tr| - 1])
  }

  function Starts(tr: seq<Event>): nat {
    if tr == [] then 0
    else Starts(tr[..|tr| - 1]) + (if tr[|tr| - 1].Spawn? then 1 else 0)
  }

  // ---- The three causes of a respawn ----

  predicate StartupTimedOut(c: Config, tr: seq<Event>) {
    !OkSinceStart(tr) && SinceStart(tr) > c.startupTimeout
  }

  predicate LadderExhausted(c: Config, tr: seq<Event>) {
    OkSinceStart(tr) && FailStreak(tr) >= c.failureThreshold
  }

  /** The ladder run up on a process that has not served, after a late store. */
  predicate LateLadder(c: Config, tr: seq<Event>) {
    LateStoreSinceStart(tr) && FailStreak(tr) >= c.failureThreshold
  }

  predicate HasCause(c: Config, tr: seq<Event>) {
    StartupTimedOut(c, tr) || ReportConsumed(tr) || LadderExhausted(c, tr)
  }

  // ---- Invariants ----

  /** The status a check read at the start of a failed probe. */
  predicate PrevAgrees(tr: seq<Event>, s: State, prev: Status) {
    && prev != Dead
    && (prev == Starting ==> !OkSinceStart(tr) && s.b.startedAt.Some?)
    && (prev == Healthy ==> OkSinceStart(tr))
    && (s.b.status == Starting ==> prev == Starting)
    && (s.b.status == Healthy ==> prev == Healthy)
  }

  /** The failure count and the latch say what the trace says. */
  ghost predicate LadderInv(tr: seq<Event>, s: State) {
    && FailStreak(tr) == s.b.failures + (if s.pc.FailedProbe? then 1 else 0)
    && (ReportPending(tr) <==> s.b.latch)
    && (s.pc.Deciding? ==> (ReportConsumed(tr) <==> s.pc.hard))
  }

  /** So do the start time, the respawn count and whether a process is held. */
  ghost predicate BudgetInv(c: Config, tr: seq<Event>, s: State) {
    && (s.b.startedAt.Some? ==> s.clock - s.b.startedAt.value == SinceStart(tr))
    && (ProcessHeld(tr) <==> s.b.hasProcess)
    && (s.pc == Spawning ==> !s.b.hasProcess)
    && s.b.respawns <= Max(0, c.maxRespawns)
    && Starts(tr) == s.b.respawns
         + (if s.pc == Booting || s.pc == Stopping || s.pc == Spawning then 0 else 1)
  }

  /** What each status implies about the trace, in every interleaving. */
  ghost predicate StatusInv(tr: seq<Event>, s: State) {
    && (s.b.status == Starting && s.pc != Booting && s.pc != Promoting ==>
          !OkSinceStart(tr) && s.b.startedAt.Some?)
    && (s.b.status == Healthy ==> OkSinceStart(tr))
    && (s.pc.FailedProbe? || s.pc.Deciding? ==> PrevAgrees(tr, s, s.pc.prev))
    && (s.pc == Probing || s.pc == Promoting || s.pc.FailedProbe? || s.pc.Deciding? ==> s.b.status != Dead)
    && (s.pc == Promoting ==> OkSinceStart(tr) && s.b.failures == 0)
    && (s.pc == Respawning || s.pc == Stopping || s.pc == Spawning ==> s.b.status != Healthy)
    && ((s.pc == Idle || s.pc == Probing) && s.b.status == Healthy ==> s.b.failures == 0)
    && (s.pc == Booting ==> s.calls == 0 && s.landing == 0 && s.b == FRESH)
  }

  ghost predicate Inv(c: Config, tr: seq<Event>, s: State) {
    LadderInv(tr, s) && BudgetInv(c, tr, s) && StatusInv(tr, s)
  }

  /** Why an unhealthy backend is unhealthy: it has served, or a report is
      waiting for it, or a store landed late. */
  predicate Explained(tr: seq<Event>, s: State) {
    s.b.latch || OkSinceStart(tr) || LateStoreSinceStart(tr)
  }

  ghost predicate CauseInv(c: Config, tr: seq<Event>, s: State) {
    && (s.b.status == Unhealthy ==>
          Explained(tr, s) || (s.pc.Deciding? && s.pc.hard)
          || s.pc == Respawning || s.pc == Stopping || s.pc == Spawning)
    && (s.pc.FailedProbe? && s.pc.prev == Unhealthy ==> Explained(tr, s))
    && (s.pc.Deciding? && s.pc.prev == Unhealthy ==>
          s.pc.hard || OkSinceStart(tr) || LateStoreSinceStart(tr))
    && (s.pc == Respawning ==> HasCause(c, tr) || LateLadder(c, tr))
    && ((s.pc == Idle || s.pc == Probing) && s.b.status == Unhealthy ==>
          s.b.failures < c.failureThreshold || s.b.latch || LateStoreSinceStart(tr))
  }

  lemma LadderInvStep(c: Config, tr: seq<Event>, s: State, e: Event)
    requires LadderInv(tr, s) && Enabled(c, s, e)
    ensures LadderInv(tr + [e], Step(c, s, e))
  {
    assert (tr + [e])[..|tr|] == tr;
  }

  lemma {:induction false} LadderInvHolds(c: Config, tr: seq<Event>)
    requires IsRun(c, tr)
    ensures LadderInv(tr, After(c, tr))
  {
    if tr != [] {
      var before, e := tr[..|tr| - 1], tr[|tr| - 1];
      LadderInvHolds(c, before);
      LadderInvStep(c, before, After(c, before), e);
      assert before + [e] == tr;
    }
  }

  lemma BudgetInvStep(c: Config, tr: seq<Event>, s: State, e: Event)
    requires BudgetInv(c, tr, s) && Enabled(c, s, e)
    ensures BudgetInv(c, tr + [e], Step(c, s, e))
  {
    assert (tr + [e])[..|tr|] == tr;
  }

  lemma {:induction false} BudgetInvHolds(c: Config, tr: seq<Event>)
    requires IsRun(c, tr)
    ensures BudgetInv(c, tr, After(c, tr))
  {
    if tr != [] {
      var before, e := tr[..|tr| - 1], tr[|tr| - 1];
      BudgetInvHolds(c, before);
      BudgetInvStep(c, before, After(c, before), e);
      assert before + [e] == tr;
    }
  }

  lemma {:induction false} StatusInvHolds(c: Config, tr: seq<Event>)
    requires IsRun(c, tr)
    ensures StatusInv(tr, After(c, tr))
  {
    if tr != [] {
      StatusInvHolds(c, tr[..|tr| - 1]);
    }
  }

  lemma InvHolds(c: Config, tr: seq<Event>)
    requires IsRun(c, tr)
    ensures Inv(c, tr, After(c, tr))
  {
    LadderInvHolds(c, tr);
    BudgetInvHolds(c, tr);
    StatusInvHolds(c, tr);
  }

  lemma CauseInvStep(c: Config, tr: seq<Event>, s: State, e: Event)
    requires CauseInv(c, tr, s) && Inv(c, tr, s) && Enabled(c, s, e)
    ensures CauseInv(c, tr + [e], Step(c, s, e))
  {
    assert (tr + [e])[..|tr|] == tr;
  }

  lemma {:induction false} CauseInvHolds(c: Config, tr: seq<Event>)
    requires IsRun(c, tr)
    ensures CauseInv(c, tr, After(c, tr))
  {
    if tr != [] {
      var before, e := tr[..|tr| - 1], tr[|tr| - 1];
      InvHolds(c, before);
      CauseInvHolds(c, before);
      CauseInvStep(c, before, After(c, before), e);
      assert before + [e] == tr;
    }
  }

  // ---- Causes ----

  /** After a failed probe the check goes on to respawn exactly when one of the
      three causes has arisen, as long as no store has landed late. */
  lemma RespawnIffCause(c: Config, tr: seq<Event>)
    requires IsRun(c, tr + [Decide]) && !LateStoreSinceStart(tr)
    ensures After(c, tr + [Decide]).pc == Respawning <==> HasCause(c, tr)
  {
    RunSnoc(c, INIT, tr, Decide);
    InvHolds(c, tr);
    CauseInvHolds(c, tr);
  }

  /** Whether a check found the backend unhealthy with no report on it, though its
      process has never served. */
  predicate UnhealthyBeforeServing(tr: seq<Event>, s: State) {
    s.pc.Deciding? && s.pc.prev == Unhealthy && !s.pc.hard && !OkSinceStart(tr)
  }

  /** Over all runs the verdict agrees with the three causes unless a late store
      put a process that has never served on the ladder, and the ladder and the
      startup patience disagree about it. */
  lemma VerdictExact(c: Config, tr: seq<Event>)
    requires IsRun(c, tr + [Decide])
    ensures (After(c, tr + [Decide]).pc == Respawning <==> HasCause(c, tr))
            <==> !(UnhealthyBeforeServing(tr, After(c, tr))
                   && (FailStreak(tr) >= c.failureThreshold <==> !StartupTimedOut(c, tr)))
    ensures UnhealthyBeforeServing(tr, After(c, tr)) ==> LateStoreSinceStart(tr)
  {
    RunSnoc(c, INIT, tr, Decide);
    InvHolds(c, tr);
    CauseInvHolds(c, tr);
  }

  /** In every run each respawn, and each giving-up in place of one, has one of
      the three causes when it happens, or a ladder run up after a late store. */
  lemma RespawnHasCause(c: Config, tr: seq<Event>, e: Event)
    requires e == Respawn || e == GiveUp
    requires IsRun(c, tr + [e])
    ensures HasCause(c, tr) || LateLadder(c, tr)
  {
    RunSnoc(c, INIT, tr, e);
    CauseInvHolds(c, tr);
  }

  lemma Extend(c: Config, start: State, tr: seq<Event>, s: State, e: Event)
    returns (longer: seq<Event>, next: State)
    requires Run(c, start, tr) == Some(s) && Enabled(c, s, e)
    ensures longer == tr + [e] && next == Step(c, s, e)
    ensures Run(c, start, longer) == Some(next)
    ensures longer[..|longer| - 1] == tr && longer[|longer| - 1] == e
  {
    longer, next := tr + [e], Step(c, s, e);
    RunSnoc(c, start, tr, e);
  }

  // ---- Tick boundaries ----

  /** Whether a store has landed that no probe has seen and no change of status
      has overwritten. */
  predicate UnseenStore(tr: seq<Event>) {
    tr != [] &&
    match tr[|tr| - 1]
    case ReportStore => true
    case ProbeOk | ProbeFail | Promote | GiveUp | Spawn(_) => false
    case _ => UnseenStore(tr[..|tr| - 1])
  }

  /** What makes a backend unhealthy between checks, and during one. */
  ghost predicate StoreInv(c: Config, tr: seq<Event>, s: State) {
    && (s.pc == Idle || s.pc == Probing || s.pc.FailedProbe? || s.pc.Deciding? ==>
          (UnseenStore(tr) ==> s.b.status == Unhealthy))
    && (s.pc == Idle || s.pc == Probing ==>
          (s.b.status == Unhealthy ==> UnseenStore(tr) || s.b.latch || s.b.failures < c.failureThreshold))
    && (s.pc.FailedProbe? || s.pc.Deciding? ==>
          (s.b.status == Unhealthy ==> UnseenStore(tr) || s.pc.prev == Unhealthy))
  }

  lemma StoreInvStep(c: Config, tr: seq<Event>, s: State, e: Event)
    requires StoreInv(c, tr, s) && Inv(c, tr, s) && Enabled(c, s, e)
    ensures StoreInv(c, tr + [e], Step(c, s, e))
  {
    assert (tr + [e])[..|tr|] == tr;
  }

  lemma {:induction false} StoreInvHolds(c: Config, tr: seq<Event>)
    requires IsRun(c, tr)
    ensures StoreInv(c, tr, After(c, tr))
  {
    if tr != [] {
      var before, e := tr[..|tr| - 1], tr[|tr| - 1];
      StoreInvHolds(c, before);
      InvHolds(c, before);
      StoreInvStep(c, before, After(c, before), e);
      assert before + [e] == tr;
    }
  }

  /** At a tick boundary the count is the streak of failed probes, and a healthy
      backend has none. An unhealthy one that no report has reached is below the
      threshold, unless a store that no probe has seen landed on a full ladder;
      only a late store does that. */
  lemma LadderAtTickBoundary(c: Config, tr: seq<Event>)
    requires IsRun(c, tr) && After(c, tr).pc == Idle
    ensures var b := After(c, tr).b;
            && b.failures == FailStreak(tr)
            && (b.status == Healthy ==> b.failures == 0)
            && ((b.status == Unhealthy && !b.latch ==> b.failures < c.failureThreshold)
                <==> !(UnseenStore(tr) && !ReportPending(tr) && FailStreak(tr) >= c.failureThreshold))
    ensures UnseenStore(tr) && !ReportPending(tr) && FailStreak(tr) >= c.failureThreshold ==> LateStoreSinceStart(tr)
  {
    InvHolds(c, tr);
    CauseInvHolds(c, tr);
    StoreInvHolds(c, tr);
  }

  // ---- Budget ----

  /** Whatever interleaves, a process is started at most once plus the budget. */
  lemma StartsBounded(c: Config, tr: seq<Event>)
    requires IsRun(c, tr)
    ensures Starts(tr) <= 1 + Max(0, c.maxRespawns)
  {
    InvHolds(c, tr);
  }
}
