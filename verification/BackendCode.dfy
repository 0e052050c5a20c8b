/** One supervised backend as the code has it: a record that the health check
    and the request path update in place. Each method is tied to the run of
    events it performs when nothing interleaves with it. */
module BackendCode {
  import opened BackendStates
  import opened Common
  import C = ContextLearning
  import S = Supervision

  /** The events of one uninterrupted health check. */
  function CheckEvents(cfg: S.Config, b: S.Backend, now: int, ready: bool, spawns: bool): seq<S.Event> {
    if ready then
      [S.Begin(0)] + [S.ProbeOk] + (if b.status == S.Healthy then [] else [S.Promote])
    else
      [S.Begin(0), S.ProbeFail, S.TakeLatch, S.Decide]
      + RespawnEvents(cfg, b, now, spawns)
  }

  /** The backend once a failed probe has been counted and the latch taken. */
  function Failed(b: S.Backend): S.Backend {
    b.(latch := false, failures := b.failures + 1)
  }

  predicate Condemned(cfg: S.Config, b: S.Backend, now: int) {
    S.WantsRespawn(cfg, S.State(Failed(b), S.Deciding(b.status, b.latch), 0, 0, now))
  }

  function RespawnEvents(cfg: S.Config, b: S.Backend, now: int, spawns: bool): seq<S.Event> {
    if !Condemned(cfg, b, now) then []
    else if b.respawns >= cfg.maxRespawns then [S.GiveUp]
    else [S.Respawn] + ([S.StopProcess] + [S.Spawn(spawns)])
  }

  /** The backend after giving up on it or restarting it. */
  function Respawned(cfg: S.Config, b: S.Backend, spawns: bool, now: int): S.Backend {
    if b.respawns >= cfg.maxRespawns then b.(status := S.Dead)
    else if spawns then S.Backend(S.Starting, b.latch, 0, b.respawns + 1, true, Some(now))
    else b.(status := S.Dead, respawns := b.respawns + 1, hasProcess := false)
  }

  function Checked(cfg: S.Config, b: S.Backend, now: int, ready: bool, spawns: bool): S.Backend {
    if ready then b.(failures := 0, status := S.Healthy)
    else
      var f := if b.status == S.Healthy then Failed(b).(status := S.Unhealthy) else Failed(b);
      if Condemned(cfg, b, now) then Respawned(cfg, f, spawns, now) else f
  }

  /** The context after a health check: a restart's, or else a probe's. */
  function CheckedContext(cfg: S.Config, maxSeqLen: int, b: S.Backend, x: C.Context, seen: C.Observation,
                          spawns: bool, now: int): C.Context {
    if !C.Ready(C.Document(seen)) && Condemned(cfg, b, now) && b.respawns < cfg.maxRespawns && spawns
    then C.Start(maxSeqLen) else C.Probe(maxSeqLen, x, seen)
  }

  /** Whether the events of a check contain a successful start. */
  lemma RestartsIff(cfg: S.Config, b: S.Backend, now: int, ready: bool, spawns: bool)
    ensures S.Spawn(true) in CheckEvents(cfg, b, now, ready, spawns)
            <==> !ready && Condemned(cfg, b, now) && b.respawns < cfg.maxRespawns && spawns
  {
  }

  /** What a check adds to the history of starts and probes: its probe, and a start
      if its events have one. */
  function Learned(cfg: S.Config, b: S.Backend, seen: C.Observation, spawns: bool, now: int): seq<C.Event> {
    if S.Spawn(true) in CheckEvents(cfg, b, now, C.Ready(C.Document(seen)), spawns)
    then [C.Probed(seen)] + [C.Started] else [C.Probed(seen)]
  }

  /** The context a check leaves is that of the history it continues. */
  lemma ContextFollows(cfg: S.Config, maxSeqLen: int, b: S.Backend, seen: C.Observation, spawns: bool, now: int,
                       tr: seq<C.Event>)
    ensures CheckedContext(cfg, maxSeqLen, b, C.After(maxSeqLen, tr), seen, spawns, now)
         == C.After(maxSeqLen, tr + Learned(cfg, b, seen, spawns, now))
  {
    RestartsIff(cfg, b, now, C.Ready(C.Document(seen)), spawns);
    C.AfterNext(maxSeqLen, tr, C.Probed(seen));
    if S.Spawn(true) in CheckEvents(cfg, b, now, C.Ready(C.Document(seen)), spawns) {
      C.AfterNext(maxSeqLen, tr + [C.Probed(seen)], C.Started);
      Assoc(tr, [C.Probed(seen)], [C.Started]);
    }
  }

  /** An uninterrupted health check is a run of the concurrent system. */
  lemma CheckIsRun(cfg: S.Config, b: S.Backend, now: int, ready: bool, spawns: bool)
    requires b.status != S.Dead && (ready ==> b.hasProcess)
    ensures S.Run(cfg, S.State(b, S.Idle, 0, 0, now), CheckEvents(cfg, b, now, ready, spawns))
         == Some(S.State(Checked(cfg, b, now, ready, spawns), S.Idle, 0, 0, now))
  {
    if ready {
      ReadyCheckIsRun(cfg, b, now, spawns);
    } else {
      var tr, s := FailedProbeIsRun(cfg, b, now);
      FailedCheckIsRun(cfg, b, now, spawns, tr, s);
    }
  }

  lemma ReadyCheckIsRun(cfg: S.Config, b: S.Backend, now: int, spawns: bool)
    requires b.status != S.Dead && b.hasProcess
    ensures S.Run(cfg, S.State(b, S.Idle, 0, 0, now), CheckEvents(cfg, b, now, true, spawns))
         == Some(S.State(Checked(cfg, b, now, true, spawns), S.Idle, 0, 0, now))
  {
    var from := S.State(b, S.Idle, 0, 0, now);
    var tr, s := S.Extend(cfg, from, [], from, S.Begin(0));
    assert tr == [S.Begin(0)];
    tr, s := S.Extend(cfg, from, tr, s, S.ProbeOk);
    if b.status == S.Healthy {
      assert tr + [] == tr;
    } else {
      tr, s := S.Extend(cfg, from, tr, s, S.Promote);
    }
  }

  lemma FailedProbeIsRun(cfg: S.Config, b: S.Backend, now: int) returns (tr: seq<S.Event>, s: S.State)
    requires b.status != S.Dead
    ensures tr == [S.Begin(0), S.ProbeFail, S.TakeLatch, S.Decide]
    ensures S.Run(cfg, S.State(b, S.Idle, 0, 0, now), tr) == Some(s)
    ensures s == S.State(if b.status == S.Healthy then Failed(b).(status := S.Unhealthy) else Failed(b),
                         if Condemned(cfg, b, now) then S.Respawning else S.Idle, 0, 0, now)
  {
    var from := S.State(b, S.Idle, 0, 0, now);
    tr, s := S.Extend(cfg, from, [], from, S.Begin(0));
    tr, s := S.Extend(cfg, from, tr, s, S.ProbeFail);
    tr, s := S.Extend(cfg, from, tr, s, S.TakeLatch);
    tr, s := S.Extend(cfg, from, tr, s, S.Decide);
  }

  lemma FailedCheckIsRun(cfg: S.Config, b: S.Backend, now: int, spawns: bool, tr: seq<S.Event>, s: S.State)
    requires tr == [S.Begin(0), S.ProbeFail, S.TakeLatch, S.Decide]
    requires S.Run(cfg, S.State(b, S.Idle, 0, 0, now), tr) == Some(s)
    requires s == S.State(if b.status == S.Healthy then Failed(b).(status := S.Unhealthy) else Failed(b),
                          if Condemned(cfg, b, now) then S.Respawning else S.Idle, 0, 0, now)
    ensures S.Run(cfg, S.State(b, S.Idle, 0, 0, now), tr + RespawnEvents(cfg, b, now, spawns))
         == Some(S.State(Checked(cfg, b, now, false, spawns), S.Idle, 0, 0, now))
  {
    var from := S.State(b, S.Idle, 0, 0, now);
    if Condemned(cfg, b, now) && b.respawns >= cfg.maxRespawns {
      var t, next := S.Extend(cfg, from, tr, s, S.GiveUp);
    } else if Condemned(cfg, b, now) {
      RestartIsRun(cfg, from, tr, s, spawns);
    } else {
      assert tr + [] == tr;
    }
  }

  lemma RestartIsRun(cfg: S.Config, from: S.State, tr: seq<S.Event>, s: S.State, spawns: bool)
    requires S.Run(cfg, from, tr) == Some(s) && s.pc == S.Respawning && s.b.respawns < cfg.maxRespawns
    ensures S.Run(cfg, from, tr + ([S.Respawn] + ([S.StopProcess] + [S.Spawn(spawns)])))
         == Some(s.(b := Respawned(cfg, s.b, spawns, s.clock), pc := S.Idle))
  {
    var t, next := S.Extend(cfg, from, tr, s, S.Respawn);
    ReplaceIsRun(cfg, from, t, next, spawns);
    Assoc(tr, [S.Respawn], [S.StopProcess] + [S.Spawn(spawns)]);
  }

  lemma ReplaceIsRun(cfg: S.Config, from: S.State, tr: seq<S.Event>, s: S.State, spawns: bool)
    requires S.Run(cfg, from, tr) == Some(s) && s.pc == S.Stopping
    ensures S.Run(cfg, from, tr + ([S.StopProcess] + [S.Spawn(spawns)]))
         == Some(s.(b := if spawns then S.Backend(S.Starting, s.b.latch, 0, s.b.respawns, true, Some(s.clock))
                         else s.b.(status := S.Dead, hasProcess := false),
                    pc := S.Idle))
  {
    var t, next := S.Extend(cfg, from, tr, s, S.StopProcess);
    t, next := S.Extend(cfg, from, t, next, S.Spawn(spawns));
    Assoc(tr, [S.StopProcess], [S.Spawn(spawns)]);
  }

  class Backend {
    const cfg: S.Config
    const maxSeqLen: int
    const state: BackendState

    var failures: nat
    var respawns: nat
    var hasProcess: bool
    var started: Option<int>
    var health: C.Health
    var ctxLearned: bool

    function View(): S.Backend
      reads this, state
    {
      S.Backend(state.status, state.hardFailure, failures, respawns, hasProcess, started)
    }

    function Context(): C.Context
      reads this, state
    {
      C.Context(health, ctxLearned, state.maxModelLen)
    }

    constructor (cfg: S.Config, maxSeqLen: int, state: BackendState)
      requires state.status == S.Starting && !state.hardFailure && state.maxModelLen == 0
      ensures this.cfg == cfg && this.maxSeqLen == maxSeqLen && this.state == state
      ensures View() == S.FRESH && Context() == C.INIT
    {
      this.cfg, this.maxSeqLen, this.state := cfg, maxSeqLen, state;
      failures, respawns := 0, 0;
      hasProcess, started := false, None;
      health, ctxLearned := C.NO_HEALTH, false;
    }

    /** A report is its two events in a row. */
    method NoteHardFailure()
      modifies state`hardFailure, state`status
      ensures S.Run(cfg, S.State(old(View()), S.Idle, 1, 0, 0), [S.ReportLatch, S.ReportStore])
           == Some(S.State(View(), S.Idle, 0, 0, 0))
    {
      ghost var from := S.State(View(), S.Idle, 1, 0, 0);
      ghost var tr, s := S.Extend(cfg, from, [], from, S.ReportLatch);
      state.NoteHardFailure();
      tr, s := S.Extend(cfg, from, tr, s, S.ReportStore);
    }

    /** Spawns the process. `exited` says whether a process still held has been
        reaped, `spawns` whether the operating system would start a new one. */
    method Start(exited: bool, spawns: bool, now: int) returns (ok: bool)
      modifies this, state
      ensures ok <==> (!old(hasProcess) || exited) && spawns
      ensures ok ==> View() == S.Backend(S.Starting, old(state.hardFailure), 0, old(respawns), true, Some(now))
      ensures ok ==> Context() == C.Start(maxSeqLen)
      ensures !ok ==> View() == old(View()) && Context() == old(Context())
    {
      if hasProcess && !exited {
        return false;
      }
      if !spawns {
        return false;
      }
      hasProcess := true;
      started := Some(now);
      failures := 0;
      health := C.NO_HEALTH;
      ctxLearned := false;
      state.status := S.Starting;
      state.maxModelLen := maxSeqLen;
      return true;
    }

    /** Lets go of the process; one that was held leaves the backend dead. */
    method Stop()
      modifies this`hasProcess, state`status
      ensures View() == if old(hasProcess) then old(View()).(hasProcess := false, status := S.Dead)
                        else old(View())
    {
      var held := hasProcess;
      hasProcess := false;
      if !held {
        return;
      }
      state.status := S.Dead;
    }

    method LearnContextLen(checkpoint: Option<int>, kv: Option<int>)
      modifies this`ctxLearned, state`maxModelLen
      ensures Context() == C.Learn(maxSeqLen, old(Context()), checkpoint, kv)
    {
      if maxSeqLen > 0 {
        return;
      }
      if ctxLearned {
        return;
      }
      var limit := 0;
      if checkpoint.Some? {
        limit := checkpoint.value;
      }
      if kv.Some? && (limit == 0 || kv.value < limit) {
        limit := kv.value;
      }
      ctxLearned := true;
      if limit > 0 {
        state.maxModelLen := limit;
      }
    }

    method Probe(seen: C.Observation) returns (ready: bool)
      modifies this`health, this`ctxLearned, state`maxModelLen
      ensures ready <==> seen.health.Some? && seen.health.value.status == "ok"
                         && (seen.health.value.maintenance == "" || seen.health.value.maintenance == "serving")
      ensures ready <==> C.Ready(C.Document(seen))
      ensures Context() == C.Probe(maxSeqLen, old(Context()), seen)
    {
      var prev := health;
      health := if seen.health.Some? then seen.health.value else C.NO_HEALTH;
      if prev.maintenance != "" && prev.maintenance != C.SERVING && C.Ready(health) {
        ctxLearned := false;
      }
      if seen.health.None? || !C.Ready(health) {
        return false;
      }
      LearnContextLen(seen.checkpoint, seen.kv);
      return true;
    }

    method RespawnProcess(spawns: bool, now: int)
      modifies this, state
      ensures View() == Respawned(cfg, old(View()), spawns, now)
      ensures Context() == if old(respawns) < cfg.maxRespawns && spawns then C.Start(maxSeqLen)
                           else old(Context())
    {
      if respawns >= cfg.maxRespawns {
        state.status := S.Dead;
        return;
      }
      respawns := respawns + 1;
      Stop();
      var ok := Start(false, spawns, now);
      if !ok {
        state.status := S.Dead;
      }
    }

    /** Whether no process but the backend's own answers its probe. */
    predicate OwnAnswer(seen: C.Observation)
      reads this
    {
      C.Ready(C.Document(seen)) ==> hasProcess
    }

    /** The context of a check, whichever history led to it. */
    lemma Continues(seen: C.Observation, spawns: bool, now: int)
      ensures forall tr :: C.After(maxSeqLen, tr) == Context() ==>
                CheckedContext(cfg, maxSeqLen, View(), Context(), seen, spawns, now)
                == C.After(maxSeqLen, tr + Learned(cfg, View(), seen, spawns, now))
    {
      forall tr | C.After(maxSeqLen, tr) == Context()
        ensures CheckedContext(cfg, maxSeqLen, View(), Context(), seen, spawns, now)
             == C.After(maxSeqLen, tr + Learned(cfg, View(), seen, spawns, now))
      {
        ContextFollows(cfg, maxSeqLen, View(), seen, spawns, now, tr);
      }
    }

    /** One health check that nothing interleaves with continues the history of
        starts and probes by its probe and a restart if it makes one, and is the
        run of its events unless something else answers on the port of a backend
        that has no process. */
    method CheckOne(seen: C.Observation, spawns: bool, now: int)
      requires state.status != S.Dead
      modifies this, state
      ensures View() == Checked(cfg, old(View()), now, C.Ready(C.Document(seen)), spawns)
      ensures old(OwnAnswer(seen)) ==>
                (S.Run(cfg, S.State(old(View()), S.Idle, 0, 0, now),
                       CheckEvents(cfg, old(View()), now, C.Ready(C.Document(seen)), spawns))
                 == Some(S.State(View(), S.Idle, 0, 0, now)))
      ensures forall tr :: C.After(maxSeqLen, tr) == old(Context()) ==>
                Context() == C.After(maxSeqLen, tr + Learned(cfg, old(View()), seen, spawns, now))
    {
      Continues(seen, spawns, now);
      if OwnAnswer(seen) {
        CheckIsRun(cfg, View(), now, C.Ready(C.Document(seen)), spawns);
      }
      var ok := Probe(seen);
      var prev := state.status;
      if ok {
        failures := 0;
        if prev != S.Healthy {
          state.status := S.Healthy;
        }
        return;
      }
      CountFailure(prev, spawns, now);
    }

    /** The rest of a check whose probe failed. */
    method CountFailure(prev: S.Status, spawns: bool, now: int)
      requires prev == state.status
      modifies this, state
      ensures View() == Checked(cfg, old(View()), now, false, spawns)
      ensures Context() == if Condemned(cfg, old(View()), now) && old(respawns) < cfg.maxRespawns && spawns
                           then C.Start(maxSeqLen) else old(Context())
    {
      var hard := state.TakeHardFailure();
      failures := failures + 1;
      if prev == S.Starting && !hard {
        var uptime := if started.None? then 0 else now - started.value;
        if uptime > cfg.startupTimeout {
          RespawnProcess(spawns, now);
        }
        return;
      }
      if prev == S.Healthy {
        state.status := S.Unhealthy;
      }
      if hard || failures >= cfg.failureThreshold {
        RespawnProcess(spawns, now);
      }
    }

    /** The health loop leaves a dead backend alone. */
    method Tick(seen: C.Observation, spawns: bool, now: int)
      modifies this, state
      ensures old(state.status) == S.Dead ==> View() == old(View()) && Context() == old(Context())
      ensures old(state.status) != S.Dead ==>
                View() == Checked(cfg, old(View()), now, C.Ready(C.Document(seen)), spawns)
                && forall tr :: C.After(maxSeqLen, tr) == old(Context()) ==>
                     Context() == C.After(maxSeqLen, tr + Learned(cfg, old(View()), seen, spawns, now))
      ensures old(state.status) != S.Dead && old(OwnAnswer(seen)) ==>
                (S.Run(cfg, S.State(old(View()), S.Idle, 0, 0, now),
                       CheckEvents(cfg, old(View()), now, C.Ready(C.Document(seen)), spawns))
                 == Some(S.State(View(), S.Idle, 0, 0, now)))
    {
      if state.status == S.Dead {
        return;
      }
      CheckOne(seen, spawns, now);
    }
  }
}
