/** What a report whose two stores are far apart can do: exactly when a respawn
    can lack the three causes, and how an unhealthy backend gets a full ladder. */
module LateStores {
  import opened Common
  import opened Supervision

  /** At least `gap` passes right before each tick. */
  predicate Paced(tr: seq<Event>, gap: nat) {
    forall i :: 0 <= i < |tr| ==> tr[i].Begin? ==> tr[i].d >= gap
  }

  /** A paced run that ends in `s`. */
  ghost predicate At(c: Config, gap: nat, tr: seq<Event>, s: State) {
    IsRun(c, tr) && After(c, tr) == s && Paced(tr, gap)
  }

  lemma Go(c: Config, gap: nat, tr: seq<Event>, s: State, e: Event) returns (longer: seq<Event>, next: State)
    requires At(c, gap, tr, s) && Enabled(c, s, e) && (e.Begin? ==> e.d >= gap)
    ensures longer == tr + [e] && next == Step(c, s, e) && At(c, gap, longer, next)
    ensures longer[..|longer| - 1] == tr && longer[|longer| - 1] == e
  {
    longer, next := tr + [e], Step(c, s, e);
    RunSnoc(c, INIT, tr, e);
  }

  // ---- Reports on a process that has served ----

  /** The first process, started at time zero, comes up at the first tick. */
  lemma FirstServes(c: Config, gap: nat) returns (tr: seq<Event>, s: State)
    ensures At(c, gap, tr, s)
    ensures s == State(Backend(Healthy, false, 0, 0, true, Some(0)), Idle, 0, 0, gap)
  {
    s := INIT;
    tr, s := Go(c, gap, [], s, Spawn(true));
    tr, s := Go(c, gap, tr, s, Begin(gap));
    tr, s := Go(c, gap, tr, s, ProbeOk);
    tr, s := Go(c, gap, tr, s, Promote);
  }

  lemma OneReport(c: Config, gap: nat, tr: seq<Event>, s: State) returns (longer: seq<Event>, next: State)
    requires At(c, gap, tr, s) && s.b.status == Healthy
    ensures At(c, gap, longer, next) && next == s.(b := s.b.(latch := true), landing := s.landing + 1)
  {
    longer, next := Go(c, gap, tr, s, Call);
    longer, next := Go(c, gap, longer, next, ReportLatch);
  }

  /** The first process serves, `reports` handlers call it and find it gone, and
      their status stores are outstanding. */
  lemma {:induction false} ServedAndReported(c: Config, gap: nat, reports: nat) returns (tr: seq<Event>, s: State)
    ensures At(c, gap, tr, s)
    ensures s == State(Backend(Healthy, reports > 0, 0, 0, true, Some(0)), Idle, 0, reports, gap)
  {
    if reports == 0 {
      tr, s := FirstServes(c, gap);
    } else {
      tr, s := ServedAndReported(c, gap, reports - 1);
      tr, s := OneReport(c, gap, tr, s);
    }
  }

  /** The next check consumes the latch; the stores are still outstanding. */
  lemma ReportConsumedEarly(c: Config, gap: nat, reports: nat) returns (tr: seq<Event>, s: State)
    requires reports > 0
    ensures At(c, gap, tr, s)
    ensures s == State(Backend(Unhealthy, false, 1, 0, true, Some(0)), Respawning, 0, reports, gap + gap)
  {
    tr, s := ServedAndReported(c, gap, reports);
    tr, s := Go(c, gap, tr, s, Begin(gap));
    tr, s := Go(c, gap, tr, s, ProbeFail);
    tr, s := Go(c, gap, tr, s, TakeLatch);
    tr, s := Go(c, gap, tr, s, Decide);
  }

  /** A store can still be outstanding when the next process has started. */
  lemma StoreOutlivesProcess(c: Config, gap: nat) returns (tr: seq<Event>, s: State)
    requires c.maxRespawns >= 1
    ensures At(c, gap, tr, s)
    ensures s == State(Backend(Starting, false, 0, 1, true, Some(gap + gap)), Idle, 0, 1, gap + gap)
  {
    tr, s := ReportConsumedEarly(c, gap, 1);
    tr, s := Go(c, gap, tr, s, Respawn);
    tr, s := Go(c, gap, tr, s, StopProcess);
    tr, s := Go(c, gap, tr, s, Spawn(true));
  }

  // ---- Failed checks ----

  /** One failed check of an unhealthy backend, up to its verdict. */
  function Failed(c: Config, gap: nat, s: State): State {
    s.(b := s.b.(latch := false, failures := s.b.failures + 1),
       pc := if s.b.latch || s.b.failures + 1 >= c.failureThreshold then Respawning else Idle,
       clock := s.clock + gap)
  }

  lemma FailsProbe(c: Config, gap: nat, tr: seq<Event>, s: State) returns (longer: seq<Event>, next: State)
    requires At(c, gap, tr, s) && s.pc == Idle && s.b.status == Unhealthy
    ensures At(c, gap, longer, next) && tr <= longer
    ensures next == s.(pc := FailedProbe(Unhealthy), clock := s.clock + gap)
    ensures OkSinceStart(longer) == OkSinceStart(tr)
  {
    longer, next := Go(c, gap, tr, s, Begin(gap));
    assert OkSinceStart(longer) == OkSinceStart(tr);
    longer, next := Go(c, gap, longer, next, ProbeFail);
  }

  lemma FailsCheck(c: Config, gap: nat, tr: seq<Event>, s: State) returns (longer: seq<Event>, next: State)
    requires At(c, gap, tr, s) && s.pc == Idle && s.b.status == Unhealthy
    ensures At(c, gap, longer, next) && tr <= longer && next == Failed(c, gap, s)
    ensures OkSinceStart(longer) == OkSinceStart(tr) && ReportConsumed(longer) == s.b.latch
  {
    longer, next := FailsProbe(c, gap, tr, s);
    LadderInvHolds(c, longer);
    longer, next := Go(c, gap, longer, next, TakeLatch);
    assert OkSinceStart(longer) == OkSinceStart(tr) && ReportConsumed(longer) == s.b.latch;
    longer, next := Go(c, gap, longer, next, Decide);
  }

  /** Failed checks of an unhealthy backend short of the threshold. */
  lemma {:induction false} Climbs(c: Config, gap: nat, tr: seq<Event>, s: State, n: nat)
    returns (longer: seq<Event>, next: State)
    requires At(c, gap, tr, s) && s.pc == Idle && s.b.status == Unhealthy && !s.b.latch
    requires n > 0 ==> s.b.failures + n < c.failureThreshold
    ensures At(c, gap, longer, next) && OkSinceStart(longer) == OkSinceStart(tr)
    ensures next == s.(b := s.b.(failures := s.b.failures + n), clock := s.clock + n * gap)
  {
    longer, next := tr, s;
    if n > 0 {
      longer, next := Climbs(c, gap, tr, s, n - 1);
      longer, next := FailsCheck(c, gap, longer, next);
      assert (n - 1) * gap + gap == n * gap;
    }
  }

  // ---- Respawns without a cause ----

  /** The last event of a paced run is a respawn with none of the three causes. */
  ghost predicate Causeless(c: Config, gap: nat, tr: seq<Event>) {
    Paced(tr, gap) && IsRun(c, tr + [Respawn]) && !HasCause(c, tr)
  }

  /** With patience for a whole ladder the late store respawns a process that has
      never served, with none of the three causes. */
  lemma LateStoreRespawnsWithoutCause(c: Config, gap: nat) returns (tr: seq<Event>)
    requires c.maxRespawns >= 2 && c.startupTimeout >= Max(1, c.failureThreshold) * gap
    ensures Causeless(c, gap, tr)
  {
    var s: State;
    tr, s := StoreOutlivesProcess(c, gap);
    StatusInvHolds(c, tr);
    tr, s := Go(c, gap, tr, s, ReportStore);
    var below := Max(1, c.failureThreshold) - 1;
    assert below * gap + gap == Max(1, c.failureThreshold) * gap;
    tr, s := Climbs(c, gap, tr, s, below);
    tr, s := FailsCheck(c, gap, tr, s);
    BudgetInvHolds(c, tr);
    assert SinceStart(tr) == Max(1, c.failureThreshold) * gap;
    var longer, next := Go(c, gap, tr, s, Respawn);
  }

  /** Every failed probe of a streak has had its tick since the start, and before
      the first respawn only a process that has served can have been reported. */
  ghost predicate PaceInv(gap: nat, tr: seq<Event>, s: State) {
    && SinceStart(tr) >= FailStreak(tr) * gap + (if s.pc == Probing then gap else 0)
    && (s.pc.FailedProbe? || s.pc.Deciding? || s.pc == Respawning ==> FailStreak(tr) >= 1)
    && (s.b.respawns == 0 && (s.calls > 0 || s.landing > 0 || LateStoreSinceStart(tr)) ==> OkSinceStart(tr))
    && (s.pc == Stopping || s.pc == Spawning ==> s.b.respawns > 0)
  }

  lemma PaceInvStep(c: Config, gap: nat, tr: seq<Event>, s: State, e: Event)
    requires PaceInv(gap, tr, s) && Inv(c, tr, s) && Enabled(c, s, e) && (e.Begin? ==> e.d >= gap)
    ensures PaceInv(gap, tr + [e], Step(c, s, e))
  {
    assert (tr + [e])[..|tr|] == tr;
    var streak := FailStreak(tr);
    assert (streak + 1) * gap == streak * gap + gap;
  }

  lemma {:induction false} PaceInvHolds(c: Config, gap: nat, tr: seq<Event>)
    requires IsRun(c, tr) && Paced(tr, gap)
    ensures PaceInv(gap, tr, After(c, tr))
  {
    if tr != [] {
      var before, e := tr[..|tr| - 1], tr[|tr| - 1];
      PaceInvHolds(c, gap, before);
      InvHolds(c, before);
      PaceInvStep(c, gap, before, After(c, before), e);
      assert before + [e] == tr;
    }
  }

  lemma Scaled(a: nat, b: nat, gap: nat)
    requires a <= b
    ensures a * gap <= b * gap
  {
  }

  /** And it takes that patience, and a second respawn. */
  lemma CauselessNeedsPatience(c: Config, gap: nat, tr: seq<Event>)
    requires Causeless(c, gap, tr)
    ensures c.maxRespawns >= 2 && c.startupTimeout >= Max(1, c.failureThreshold) * gap
  {
    RunSnoc(c, INIT, tr, Respawn);
    RespawnHasCause(c, tr, Respawn);
    PaceInvHolds(c, gap, tr);
    Scaled(Max(1, c.failureThreshold), FailStreak(tr), gap);
  }

  /** A respawn can lack the three causes if and only if the budget allows two and
      the startup patience outlasts a ladder climbed at the pace of the ticks. */
  lemma CauselessIff(c: Config, gap: nat)
    ensures (exists tr :: Causeless(c, gap, tr))
            <==> c.maxRespawns >= 2 && c.startupTimeout >= Max(1, c.failureThreshold) * gap
  {
    if tr :| Causeless(c, gap, tr) {
      CauselessNeedsPatience(c, gap, tr);
    }
    if c.maxRespawns >= 2 && c.startupTimeout >= Max(1, c.failureThreshold) * gap {
      var tr := LateStoreRespawnsWithoutCause(c, gap);
    }
  }

  // ---- A full ladder between ticks ----

  /** A condemned backend that is given up, or whose next process does not spawn,
      keeps its failures. */
  lemma GoesDead(c: Config, gap: nat, tr: seq<Event>, s: State) returns (longer: seq<Event>, next: State)
    requires At(c, gap, tr, s) && s.pc == Respawning && !s.b.latch
    ensures At(c, gap, longer, next) && next.pc == Idle && next.b.status == Dead
    ensures next.b.failures == s.b.failures && !next.b.latch && next.landing == s.landing
  {
    if s.b.respawns >= c.maxRespawns {
      longer, next := Go(c, gap, tr, s, GiveUp);
    } else {
      longer, next := Go(c, gap, tr, s, Respawn);
      longer, next := Go(c, gap, longer, next, StopProcess);
      longer, next := Go(c, gap, longer, next, Spawn(false));
    }
  }

  /** Under every configuration and at every pace, late stores can leave a backend
      unhealthy between ticks with a clear latch and a full ladder: two reports,
      the second of them landing after the ladder that the first began. */
  lemma LateStoreOnFullLadder(c: Config, gap: nat) returns (tr: seq<Event>)
    ensures IsRun(c, tr) && Paced(tr, gap) && After(c, tr).pc == Idle
    ensures var b := After(c, tr).b;
            b.status == Unhealthy && !b.latch && b.failures >= c.failureThreshold
  {
    var s: State;
    tr, s := ReportConsumedEarly(c, gap, 2);
    tr, s := GoesDead(c, gap, tr, s);
    tr, s := Go(c, gap, tr, s, ReportStore);
    if c.failureThreshold > 1 {
      tr, s := Climbs(c, gap, tr, s, c.failureThreshold - 2);
      tr, s := FailsCheck(c, gap, tr, s);
      tr, s := GoesDead(c, gap, tr, s);
      tr, s := Go(c, gap, tr, s, ReportStore);
    }
  }
}
