/** How long a failing backend is kept up, that giving up on it is reached, and
    whether it is final. */
module GivingUp {
  import opened Common
  import opened Supervision
  import opened LateStores

  // ---- Giving up is reached ----

  /** Failed ticks a started process can absorb at most. */
  function Patience(c: Config): nat {
    Max(0, c.startupTimeout + 1) + Max(1, c.failureThreshold)
  }

  function PatienceLeft(c: Config, s: State): nat {
    if s.pc == Stopping || s.pc == Spawning then Patience(c)
    else if s.b.status == Starting then
      Max(0, c.startupTimeout + 1 - Uptime(s.b, s.clock)) + Max(1, c.failureThreshold)
    else Max(0, Max(1, c.failureThreshold) - s.b.failures)
  }

  /** `n` times `k`. */
  function Times(n: nat, k: nat): nat {
    if n == 0 then 0 else Times(n - 1, k) + k
  }

  lemma {:induction false} TimesIsProduct(n: nat, k: nat)
    ensures Times(n, k) == n * k
  {
    if n > 0 {
      TimesIsProduct(n - 1, k);
      assert (n - 1) * k + k == n * k;
    }
  }

  /** Respawns left first, then what the current process can still absorb. */
  function Rank(c: Config, s: State): nat {
    Times(Max(0, c.maxRespawns - s.b.respawns), Patience(c) + 1) + PatienceLeft(c, s)
  }

  /** Whether the tick in progress has yet to pay for itself. */
  function Owed(c: Config, s: State): nat {
    match s.pc
    case Probing =>
      if s.b.status == Starting && Uptime(s.b, s.clock) <= c.startupTimeout then 0 else 1
    case FailedProbe(prev) =>
      if prev == Starting && Uptime(s.b, s.clock) <= c.startupTimeout then 0 else 1
    case Deciding(_, _) => if WantsRespawn(c, s) then 1 else 0
    case Respawning => 1
    case _ => 0
  }

  function Ticks(tr: seq<Event>): nat {
    if tr == [] then 0
    else Ticks(tr[..|tr| - 1]) + (if tr[|tr| - 1].Begin? then 1 else 0)
  }

  function GiveUps(tr: seq<Event>): nat {
    if tr == [] then 0
    else GiveUps(tr[..|tr| - 1]) + (if tr[|tr| - 1] == GiveUp then 1 else 0)
  }

  /** Status stores of reports that land. */
  function Landings(tr: seq<Event>): nat {
    if tr == [] then 0
    else Landings(tr[..|tr| - 1]) + (if tr[|tr| - 1] == ReportStore then 1 else 0)
  }

  /** A stretch in which no probe succeeds and every tick finds the clock advanced. */
  predicate Failing(tr: seq<Event>) {
    forall i :: 0 <= i < |tr| ==> tr[i] != ProbeOk && (tr[i].Begin? ==> tr[i].d >= 1)
  }

  /** Until it respawns, a failing backend uses up patience; giving up is the one
      way out of a tick that is not paid for. */
  lemma PatienceStep(c: Config, tr: seq<Event>, s: State, e: Event)
    requires Inv(c, tr, s) && s.pc != Booting && s.pc != Promoting
    requires Enabled(c, s, e) && e != ProbeOk && e != Respawn
    requires e.Begin? ==> e.d >= 1
    ensures var t := Step(c, s, e);
            && t.pc != Booting && t.pc != Promoting && t.b.respawns == s.b.respawns
            && PatienceLeft(c, t) + (if e.Begin? then 1 else 0) + Owed(c, s)
               <= PatienceLeft(c, s) + Owed(c, t) + (if e == GiveUp then 1 else 0)
  {
  }

  lemma RankStep(c: Config, tr: seq<Event>, s: State, e: Event)
    requires Inv(c, tr, s) && s.pc != Booting && s.pc != Promoting
    requires Enabled(c, s, e) && Failing([e])
    ensures var t := Step(c, s, e);
            && t.pc != Booting && t.pc != Promoting
            && Rank(c, t) + Ticks([e]) + Owed(c, s) <= Rank(c, s) + Owed(c, t) + GiveUps([e])
  {
    assert [e][0] == e && [e][..0] == [];
    if e != Respawn {
      PatienceStep(c, tr, s, e);
    }
  }

  /** The ticks of a stretch so far are paid for, but for those that ended in
      giving up. */
  ghost predicate Paid(c: Config, start: State, tr: seq<Event>, s: State) {
    && s.pc != Booting && s.pc != Promoting
    && Rank(c, s) + Ticks(tr) <= Rank(c, start) + Owed(c, s) + GiveUps(tr)
  }

  lemma Tally(tr: seq<Event>, e: Event)
    ensures Ticks(tr + [e]) == Ticks(tr) + Ticks([e]) && GiveUps(tr + [e]) == GiveUps(tr) + GiveUps([e])
  {
    assert (tr + [e])[..|tr|] == tr && [e][..0] == [];
  }

  lemma PaidStep(c: Config, start: State, past: seq<Event>, tr: seq<Event>, s: State, e: Event)
    requires Paid(c, start, tr, s) && Inv(c, past, s) && Enabled(c, s, e) && Failing([e])
    ensures Paid(c, start, tr + [e], Step(c, s, e))
  {
    Tally(tr, e);
    RankStep(c, past, s, e);
  }

  /** The last event of a run that goes on from `base`. */
  lemma Peel(c: Config, base: seq<Event>, tr: seq<Event>) returns (before: seq<Event>, e: Event)
    requires tr != [] && IsRun(c, base + tr)
    ensures before == tr[..|tr| - 1] && e == tr[|tr| - 1] && before + [e] == tr
    ensures IsRun(c, base + before) && Enabled(c, After(c, base + before), e)
    ensures After(c, base + tr) == Step(c, After(c, base + before), e)
  {
    before, e := tr[..|tr| - 1], tr[|tr| - 1];
    assert base + tr == base + before + [e];
    RunSnoc(c, INIT, base + before, e);
  }

  lemma {:induction false} RankDecreases(c: Config, base: seq<Event>, tr: seq<Event>)
    requires IsRun(c, base + tr) && IsRun(c, base) && After(c, base).pc == Idle && Failing(tr)
    ensures Paid(c, After(c, base), tr, After(c, base + tr))
  {
    if tr == [] {
      assert base + tr == base;
    } else {
      var before, e := Peel(c, base, tr);
      RankDecreases(c, base, before);
      InvHolds(c, base + before);
      PaidStep(c, After(c, base), base + before, before, After(c, base + before), e);
    }
  }

  lemma RankBounded(c: Config, tr: seq<Event>)
    requires IsRun(c, tr)
    ensures Rank(c, After(c, tr)) + 1
            <= (1 + Max(0, c.maxRespawns)) * (Max(0, c.startupTimeout + 1) + Max(1, c.failureThreshold) + 1)
  {
    InvHolds(c, tr);
    var s, patience := After(c, tr), Max(0, c.startupTimeout + 1) + Max(1, c.failureThreshold);
    assert Patience(c) == patience && PatienceLeft(c, s) <= patience;
    TimesIsProduct(Max(0, c.maxRespawns - s.b.respawns), patience + 1);
    ScaledRank(Max(0, c.maxRespawns - s.b.respawns), Max(0, c.maxRespawns), PatienceLeft(c, s), patience);
  }

  lemma ScaledRank(left: nat, budget: nat, steps: nat, patience: nat)
    requires left <= budget && steps <= patience
    ensures left * (patience + 1) + steps < (1 + budget) * (patience + 1)
  {
  }

  /** From a tick boundary on, ticks whose probes fail are bounded up to one more
      for each time the backend is given up. */
  lemma TicksBounded(c: Config, base: seq<Event>, tr: seq<Event>)
    requires IsRun(c, base + tr) && IsRun(c, base) && After(c, base).pc == Idle && Failing(tr)
    ensures Ticks(tr) <= Rank(c, After(c, base)) + 1 + GiveUps(tr)
  {
    RankDecreases(c, base, tr);
  }

  /** An event of the health check itself, as opposed to time or a handler's. */
  predicate OfCheck(e: Event) {
    !e.Wait? && !e.Call? && !e.Return? && !e.ReportLatch? && !e.ReportStore?
  }

  /** Events a check in progress has left at most. */
  function Left(pc: Pc): nat {
    match pc
    case Idle => 0
    case Probing => 6
    case FailedProbe(_) => 5
    case Deciding(_, _) => 4
    case Respawning => 3
    case Stopping => 2
    case Spawning => 1
    case _ => 0
  }

  function CheckSteps(tr: seq<Event>): nat {
    if tr == [] then 0
    else CheckSteps(tr[..|tr| - 1]) + (if OfCheck(tr[|tr| - 1]) then 1 else 0)
  }

  lemma CheckStep(c: Config, s: State, e: Event)
    requires Enabled(c, s, e) && s.pc != Booting && s.pc != Promoting && e != ProbeOk
    ensures CheckSteps([e]) + Left(Step(c, s, e).pc) <= Left(s.pc) + 7 * Ticks([e])
  {
    assert [e][..0] == [];
  }

  /** Nor can a check drag on: each tick has at most seven events. */
  lemma {:induction false} CheckStepsBounded(c: Config, base: seq<Event>, tr: seq<Event>)
    requires IsRun(c, base + tr) && IsRun(c, base) && After(c, base).pc == Idle && Failing(tr)
    ensures CheckSteps(tr) + Left(After(c, base + tr).pc) <= 7 * Ticks(tr)
  {
    if tr == [] {
      assert base + tr == base;
    } else {
      var before, e := Peel(c, base, tr);
      CheckStepsBounded(c, base, before);
      NotBooting(c, base, before);
      CheckStep(c, After(c, base + before), e);
    }
  }

  lemma NotBooting(c: Config, base: seq<Event>, tr: seq<Event>)
    requires IsRun(c, base + tr) && IsRun(c, base) && After(c, base).pc == Idle && Failing(tr)
    ensures After(c, base + tr).pc != Booting && After(c, base + tr).pc != Promoting
  {
    RankDecreases(c, base, tr);
  }

  /** The event with which a check whose probe fails goes on, one second after
      the last tick when it is the next tick. */
  function Onward(c: Config, s: State): Event {
    match s.pc
    case Idle => Begin(1)
    case Probing => ProbeFail
    case FailedProbe(_) => TakeLatch
    case Deciding(_, _) => Decide
    case Respawning => if s.b.respawns < c.maxRespawns then Respawn else GiveUp
    case Stopping => StopProcess
    case Booting | Spawning => Spawn(true)
    case Promoting => Promote
  }

  /** The health check is never stuck: unless the backend is dead at a tick
      boundary, it can go on. */
  lemma CheckGoesOn(c: Config, s: State)
    ensures Enabled(c, s, Onward(c, s)) <==> !(s.pc == Idle && s.b.status == Dead)
    ensures OfCheck(Onward(c, s))
    ensures s.pc == Idle && s.b.status == Dead ==> forall e :: Enabled(c, s, e) ==> !OfCheck(e)
  {
  }

  predicate DeadAtRest(s: State) {
    s.pc == Idle && s.b.status == Dead
  }

  /** Events with which a check fails and its engine, restarted, never comes up. */
  predicate Fruitless(tr: seq<Event>) {
    forall i :: 0 <= i < |tr| ==>
      OfCheck(tr[i]) && tr[i] != ProbeOk && tr[i] != Spawn(false) && (tr[i].Begin? ==> tr[i].d >= 1)
  }

  lemma FruitlessCons(e: Event, rest: seq<Event>)
    requires Fruitless([e]) && Fruitless(rest)
    ensures Fruitless([e] + rest)
  {
    assert [e][0] == e;
  }

  /** One such event more: it ends the stretch, or starts a tick, or brings the
      check in progress nearer its end. */
  lemma OneMore(c: Config, base: seq<Event>, tr: seq<Event>) returns (e: Event)
    requires IsRun(c, base + tr) && IsRun(c, base) && After(c, base).pc == Idle && Failing(tr)
    requires !DeadAtRest(After(c, base + tr))
    ensures Fruitless([e]) && IsRun(c, base + (tr + [e]))
    ensures Ticks(tr + [e]) == Ticks(tr) + (if e.Begin? then 1 else 0)
    ensures GiveUps(tr + [e]) == GiveUps(tr) + (if e == GiveUp then 1 else 0)
    ensures var s, t := After(c, base + tr), After(c, base + (tr + [e]));
            && Failing(tr + [e])
            && (if e == GiveUp then DeadAtRest(t) else e.Begin? || Left(t.pc) < Left(s.pc))
  {
    var s := After(c, base + tr);
    NotBooting(c, base, tr);
    CheckGoesOn(c, s);
    e := Onward(c, s);
    assert base + tr + [e] == base + (tr + [e]);
    RunSnoc(c, INIT, base + tr, e);
    assert (tr + [e])[..|tr|] == tr;
  }

  /** From anywhere in a failing stretch, reports included, failed checks alone
      lead to a dead backend, and within the bound on ticks. */
  lemma {:induction false} DeadAhead(c: Config, base: seq<Event>, tr: seq<Event>) returns (more: seq<Event>)
    requires IsRun(c, base + tr) && IsRun(c, base) && After(c, base).pc == Idle && Failing(tr)
    ensures Fruitless(more) && IsRun(c, base + (tr + more)) && DeadAtRest(After(c, base + (tr + more)))
    ensures Ticks(tr + more) <= Rank(c, After(c, base)) + 1 + GiveUps(tr)
    decreases Rank(c, After(c, base)) + 1 + GiveUps(tr) - Ticks(tr), Left(After(c, base + tr).pc)
  {
    more := [];
    TicksBounded(c, base, tr);
    assert tr + [] == tr;
    if !DeadAtRest(After(c, base + tr)) {
      var e := OneMore(c, base, tr);
      more := [e];
      if e != GiveUp {
        TicksBounded(c, base, tr + [e]);
        var rest := DeadAhead(c, base, tr + [e]);
        more := [e] + rest;
        FruitlessCons(e, rest);
        Assoc(tr, [e], rest);
      }
    }
  }

  lemma {:induction false} PrefixIsRun(c: Config, tr: seq<Event>, n: nat)
    requires IsRun(c, tr) && n <= |tr|
    ensures IsRun(c, tr[..n])
  {
    if n < |tr| {
      PrefixIsRun(c, tr[..|tr| - 1], n);
      assert tr[..|tr| - 1][..n] == tr[..n];
    } else {
      assert tr[..n] == tr;
    }
  }

  /** The first giving-up of a stretch, its length if there is none. */
  lemma {:induction false} UntilGivenUp(tr: seq<Event>) returns (n: nat)
    ensures n <= |tr| && GiveUps(tr[..n]) == 0
    ensures n < |tr| ==> tr[n] == GiveUp
  {
    n := |tr|;
    if tr != [] {
      n := UntilGivenUp(tr[..|tr| - 1]);
      assert tr[..|tr| - 1][..n] == tr[..n];
      if n == |tr| - 1 && tr[n] != GiveUp {
        n := n + 1;
      }
      assert tr[..|tr|] == tr;
    }
  }

  /** Dead is reached. Let every probe from some tick boundary on fail and every
      tick find the clock advanced, whatever is reported and whether or not
      spawns succeed: either the backend is given up in that stretch, or the
      check comes to it, or finds it dead, by going on failing; and in both cases
      within a number of ticks fixed at the boundary. */
  lemma DeadWithinBound(c: Config, base: seq<Event>, tr: seq<Event>) returns (dead: seq<Event>)
    requires IsRun(c, base + tr) && IsRun(c, base) && After(c, base).pc == Idle && Failing(tr)
    ensures dead <= tr || (tr <= dead && Fruitless(dead[|tr|..]))
    ensures IsRun(c, base + dead) && DeadAtRest(After(c, base + dead))
    ensures Ticks(dead) <= Rank(c, After(c, base)) + 1
    ensures Rank(c, After(c, base)) + 1
            <= (1 + Max(0, c.maxRespawns)) * (Max(0, c.startupTimeout + 1) + Max(1, c.failureThreshold) + 1)
  {
    RankBounded(c, base);
    var n := UntilGivenUp(tr);
    if n == |tr| {
      assert tr[..n] == tr;
      var more := DeadAhead(c, base, tr);
      dead := tr + more;
    } else {
      dead := tr[..n] + [tr[n]];
      GivenUpAt(c, base, tr, n);
    }
  }

  lemma GivenUpAt(c: Config, base: seq<Event>, tr: seq<Event>, n: nat)
    requires IsRun(c, base + tr) && IsRun(c, base) && After(c, base).pc == Idle
    requires n < |tr| && Failing(tr[..n]) && GiveUps(tr[..n]) == 0 && tr[n] == GiveUp
    ensures var dead := tr[..n] + [tr[n]];
            && IsRun(c, base + dead) && DeadAtRest(After(c, base + dead))
            && Ticks(dead) <= Rank(c, After(c, base)) + 1
  {
    var up, dead := tr[..n], tr[..n] + [tr[n]];
    PrefixIsRun(c, base + tr, |base| + n + 1);
    assert (base + tr)[..|base| + n + 1] == base + dead;
    Assoc(base, up, [tr[n]]);
    RunSnoc(c, INIT, base + up, tr[n]);
    TicksBounded(c, base, up);
    assert dead[..n] == up;
  }

  /** A stretch with more ticks than that contains the giving-up: the backend was
      dead and a report revived it. */
  lemma GivenUpWithinBound(c: Config, base: seq<Event>, tr: seq<Event>)
    requires IsRun(c, base + tr) && IsRun(c, base) && After(c, base).pc == Idle && Failing(tr)
    ensures Ticks(tr) <= Rank(c, After(c, base)) + 1 || exists i :: 0 <= i < |tr| && tr[i] == GiveUp
  {
    TicksBounded(c, base, tr);
    var n := UntilGivenUp(tr);
    assert n == |tr| ==> tr[..n] == tr;
  }

  // ---- All ticks of an engine that never comes back ----

  /** Only a landing store revives a backend that was given up, and while no probe
      succeeds no one can call it who had not before. */
  ghost predicate Spent(start: State, tr: seq<Event>, s: State) {
    && GiveUps(tr) <= Landings(tr) + (if DeadAtRest(s) then 1 else 0)
    && (start.b.status != Healthy ==>
          s.b.status != Healthy && Landings(tr) + s.landing + s.calls <= start.landing + start.calls)
  }

  lemma SpentStep(c: Config, start: State, tr: seq<Event>, s: State, e: Event)
    requires Spent(start, tr, s) && Enabled(c, s, e) && e != ProbeOk && s.pc != Promoting
    ensures Spent(start, tr + [e], Step(c, s, e))
  {
    assert (tr + [e])[..|tr|] == tr;
  }

  lemma {:induction false} SpentHolds(c: Config, base: seq<Event>, tr: seq<Event>)
    requires IsRun(c, base + tr) && IsRun(c, base) && After(c, base).pc == Idle && Failing(tr)
    ensures Spent(After(c, base), tr, After(c, base + tr))
  {
    if tr == [] {
      assert base + tr == base;
    } else {
      var before, e := Peel(c, base, tr);
      SpentHolds(c, base, before);
      NotBooting(c, base, before);
      SpentStep(c, After(c, base), before, After(c, base + before), e);
    }
  }

  /** If no probe ever succeeds again, all ticks are bounded by the measure and
      the stores that land, and if the backend is not healthy to begin with, by
      the measure and the handlers that are out. */
  lemma AllTicksBounded(c: Config, base: seq<Event>, tr: seq<Event>)
    requires IsRun(c, base + tr) && IsRun(c, base) && After(c, base).pc == Idle && Failing(tr)
    ensures var s := After(c, base);
            && Ticks(tr) <= Rank(c, s) + 2 + Landings(tr)
            && (s.b.status != Healthy ==> Ticks(tr) <= Rank(c, s) + 2 + s.landing + s.calls)
  {
    TicksBounded(c, base, tr);
    SpentHolds(c, base, tr);
  }

  // ---- Whether dead is final ----

  /** Going on with `more` the backend is no longer dead. */
  ghost predicate Leaves(c: Config, tr: seq<Event>, more: seq<Event>) {
    IsRun(c, tr + more) && After(c, tr + more).b.status != Dead
  }

  /** Going on with `more` it is in service. */
  ghost predicate Serves(c: Config, tr: seq<Event>, more: seq<Event>) {
    IsRun(c, tr + more) && After(c, tr + more).b.status == Healthy
  }

  /** No handler can report the backend any more. */
  predicate Unreportable(s: State) {
    s.calls == 0 && s.landing == 0
  }

  lemma {:induction false} StaysDead(c: Config, tr: seq<Event>, more: seq<Event>)
    requires IsRun(c, tr) && DeadAtRest(After(c, tr)) && Unreportable(After(c, tr)) && IsRun(c, tr + more)
    ensures DeadAtRest(After(c, tr + more)) && Unreportable(After(c, tr + more))
  {
    if more == [] {
      assert tr + more == tr;
    } else {
      var before, e := Peel(c, tr, more);
      StaysDead(c, tr, before);
    }
  }

  /** Neither a process nor a respawn left to get one. */
  predicate Stranded(c: Config, s: State) {
    && !s.b.hasProcess && s.b.respawns >= c.maxRespawns
    && s.b.status != Healthy
    && (s.pc == Idle || s.pc == Probing || s.pc.FailedProbe? || s.pc.Deciding? || s.pc == Respawning)
  }

  lemma StrandedStep(c: Config, s: State, e: Event)
    requires Stranded(c, s) && Enabled(c, s, e)
    ensures Stranded(c, Step(c, s, e))
  {
  }

  lemma {:induction false} StaysStranded(c: Config, tr: seq<Event>, more: seq<Event>)
    requires IsRun(c, tr) && Stranded(c, After(c, tr)) && IsRun(c, tr + more)
    ensures Stranded(c, After(c, tr + more))
  {
    if more == [] {
      assert tr + more == tr;
    } else {
      var before, e := Peel(c, tr, more);
      StaysStranded(c, tr, before);
      StrandedStep(c, After(c, tr + before), e);
    }
  }

  /** A report on a dead backend puts it back among the probed. */
  lemma Reported(c: Config, tr: seq<Event>) returns (longer: seq<Event>, s: State)
    requires IsRun(c, tr) && DeadAtRest(After(c, tr)) && !Unreportable(After(c, tr))
    ensures At(c, 0, longer, s) && tr <= longer && s.pc == Idle && s.b.status == Unhealthy
    ensures s.b.hasProcess == After(c, tr).b.hasProcess && s.b.respawns == After(c, tr).b.respawns
  {
    longer, s := tr, After(c, tr);
    if s.landing == 0 {
      longer, s := Go(c, 0, longer, s, ReportLatch);
    }
    longer, s := Go(c, 0, longer, s, ReportStore);
  }

  /** Failed checks condemn an unhealthy backend in the end. */
  lemma {:induction false} Condemned(c: Config, tr: seq<Event>, s: State) returns (longer: seq<Event>, next: State)
    requires At(c, 0, tr, s) && s.pc == Idle && s.b.status == Unhealthy
    ensures At(c, 0, longer, next) && tr <= longer && next.pc == Respawning
    ensures next.b.hasProcess == s.b.hasProcess && next.b.respawns == s.b.respawns
    decreases c.failureThreshold - s.b.failures
  {
    longer, next := FailsCheck(c, 0, tr, s);
    if next.pc == Idle {
      longer, next := Condemned(c, longer, next);
    }
  }

  /** Dead is not final for a backend that a handler can still report: with its
      process still there, or a respawn left, it can serve again. */
  lemma DeadIsNotAbsorbing(c: Config, tr: seq<Event>) returns (more: seq<Event>)
    requires IsRun(c, tr) && DeadAtRest(After(c, tr)) && !Unreportable(After(c, tr))
    requires After(c, tr).b.hasProcess || After(c, tr).b.respawns < c.maxRespawns
    ensures Serves(c, tr, more)
  {
    var t, s := Reported(c, tr);
    if !s.b.hasProcess {
      t, s := Condemned(c, t, s);
      t, s := Restarted(c, t, s);
    }
    t, s := ComesUp(c, t, s);
    more := t[|tr|..];
    assert tr + more == t;
  }

  lemma Restarted(c: Config, tr: seq<Event>, s: State) returns (longer: seq<Event>, next: State)
    requires At(c, 0, tr, s) && s.pc == Respawning && s.b.respawns < c.maxRespawns
    ensures At(c, 0, longer, next) && tr <= longer && next.pc == Idle && next.b.status == Starting && next.b.hasProcess
  {
    longer, next := Go(c, 0, tr, s, Respawn);
    longer, next := Go(c, 0, longer, next, StopProcess);
    longer, next := Go(c, 0, longer, next, Spawn(true));
  }

  lemma ComesUp(c: Config, tr: seq<Event>, s: State) returns (longer: seq<Event>, next: State)
    requires At(c, 0, tr, s) && s.pc == Idle && s.b.hasProcess && (s.b.status == Starting || s.b.status == Unhealthy)
    ensures At(c, 0, longer, next) && tr <= longer && next.b.status == Healthy
  {
    longer, next := Go(c, 0, tr, s, Begin(0));
    longer, next := Go(c, 0, longer, next, ProbeOk);
    longer, next := Go(c, 0, longer, next, Promote);
  }

  /** Dead is final if and only if no handler is out that can still report it; and
      it may serve again if and only if one is, and its process is still there or
      a respawn is left. */
  lemma DeadIsFinalIff(c: Config, tr: seq<Event>)
    requires IsRun(c, tr) && DeadAtRest(After(c, tr))
    ensures var s := After(c, tr);
            && ((exists more :: Leaves(c, tr, more)) <==> !Unreportable(s))
            && ((exists more :: Serves(c, tr, more))
                <==> !Unreportable(s) && (s.b.hasProcess || s.b.respawns < c.maxRespawns))
  {
    var s := After(c, tr);
    if !Unreportable(s) {
      var t, u := Reported(c, tr);
      assert tr + t[|tr|..] == t;
      assert Leaves(c, tr, t[|tr|..]);
      if s.b.hasProcess || s.b.respawns < c.maxRespawns {
        var more := DeadIsNotAbsorbing(c, tr);
      }
    } else if more :| Leaves(c, tr, more) {
      StaysDead(c, tr, more);
    }
    if more :| Serves(c, tr, more) {
      assert Leaves(c, tr, more);
      if !s.b.hasProcess && s.b.respawns >= c.maxRespawns {
        StaysStranded(c, tr, more);
      }
    }
  }

  /** An engine that never came up was never called. */
  lemma {:induction false} NeverServed(c: Config, tr: seq<Event>)
    requires IsRun(c, tr) && forall i :: 0 <= i < |tr| ==> tr[i] != Promote
    ensures Unreportable(After(c, tr)) && After(c, tr).b.status != Healthy
  {
    if tr != [] {
      NeverServed(c, tr[..|tr| - 1]);
    }
  }

  /** So giving up on one is final. */
  lemma NeverServedStaysDead(c: Config, tr: seq<Event>, more: seq<Event>)
    requires IsRun(c, tr) && DeadAtRest(After(c, tr)) && IsRun(c, tr + more)
    requires forall i :: 0 <= i < |tr| ==> tr[i] != Promote
    ensures DeadAtRest(After(c, tr + more))
  {
    NeverServed(c, tr);
    StaysDead(c, tr, more);
  }
}
