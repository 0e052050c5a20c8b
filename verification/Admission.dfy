/** Admission under concurrency: any number of request handlers over the shared
    in-flight counters, each of which reads the counters one by one, picks, and
    only then increments.

    Backend health and peer reachability are left to the environment: a scan may
    take or skip any entry. Polls overwrite a peer's polled load at any time. */
module Admission {
  import opened Common
  import opened Routing

  datatype Config = Config(backends: nat, peers: nat, ceiling: int)

  datatype Pc =
    | Waiting
    | Resolving(next: nat, polled: Option<int>, seen: seq<Route>)
    | Picked(route: Route)
    | Serving(backend: nat)
    | Forwarding(peer: nat)
    | Finished

  /** `forwarded` is set when the request came from another node. */
  datatype Handler = Handler(forwarded: bool, pc: Pc)

  /** `lost` counts, per peer, forwards whose handler panicked. */
  datatype State = State(
    inFlight: seq<int>,
    polled: seq<int>,
    local: seq<int>,
    lost: seq<nat>,
    turns: Indices,
    handlers: seq<Handler>)

  datatype Action =
    | Arrive(ownModel: bool)
    | Skip
    | ReadBackend
    | ReadPolled
    | ReadLocal
    | Choose
    | Dispatch
    | Finish
    | Panic

  datatype Event =
    | Handle(h: nat, act: Action)
    | Poll(p: nat, load: int)
    | Unreachable(p: nat)

  predicate Shaped(c: Config, s: State) {
    |s.inFlight| == c.backends && |s.polled| == |s.local| == |s.lost| == c.peers
  }

  predicate Initial(c: Config, s: State) {
    && Shaped(c, s)
    && (forall b :: 0 <= b < c.backends ==> s.inFlight[b] == 0)
    && (forall p :: 0 <= p < c.peers ==> s.polled[p] == 0 && s.local[p] == 0 && s.lost[p] == 0)
    && (forall h :: 0 <= h < |s.handlers| ==> s.handlers[h].pc == Waiting)
  }

  /** A forwarded request keeps its local routes only. */
  function LocalOnly(routes: seq<Route>): seq<Route> {
    if routes == [] then []
    else
      var r := routes[|routes| - 1];
      LocalOnly(routes[..|routes| - 1]) + (if r.Local? then [r] else [])
  }

  function Candidates(h: Handler): seq<Route>
    requires h.pc.Resolving?
  {
    if h.forwarded then LocalOnly(h.pc.seen) else h.pc.seen
  }

  /** Routes that name backends and peers this node has. */
  predicate Known(c: Config, r: Route) {
    match r
    case Local(b, _) => b < c.backends
    case Peer(p, _) => p < c.peers
  }

  predicate CanAct(c: Config, pc: Pc, act: Action) {
    match act
    case Arrive(_) => pc == Waiting
    case Skip => pc.Resolving? && pc.next < c.backends + c.peers && pc.polled.None?
    case ReadBackend => pc.Resolving? && pc.next < c.backends
    case ReadPolled => pc.Resolving? && c.backends <= pc.next < c.backends + c.peers && pc.polled.None?
    case ReadLocal => pc.Resolving? && c.backends <= pc.next < c.backends + c.peers && pc.polled.Some?
    case Choose => pc.Resolving? && pc.next == c.backends + c.peers
    case Dispatch => pc.Picked? && Known(c, pc.route)
    case Finish => Dispatched(c, pc)
    case Panic => pc.Resolving? || pc.Picked? || Dispatched(c, pc)
  }

  predicate Dispatched(c: Config, pc: Pc) {
    match pc
    case Serving(b) => b < c.backends
    case Forwarding(p) => p < c.peers
    case _ => false
  }

  predicate Enabled(c: Config, s: State, e: Event) {
    match e
    case Handle(h, act) => h < |s.handlers| && CanAct(c, s.handlers[h].pc, act)
    case Poll(p, _) => p < c.peers
    case Unreachable(p) => p < c.peers
  }

  function Move(s: State, h: nat, pc: Pc): State
    requires h < |s.handlers|
  {
    s.(handlers := s.handlers[h := s.handlers[h].(pc := pc)])
  }

  function Step(c: Config, s: State, e: Event): State
    requires Shaped(c, s) && Enabled(c, s, e)
  {
    match e
    case Poll(p, load) => s.(polled := s.polled[p := load])
    case Unreachable(p) => s.(polled := s.polled[p := 0])
    case Handle(h, act) => Act(c, s, h, act)
  }

  function Act(c: Config, s: State, h: nat, act: Action): State
    requires Shaped(c, s) && h < |s.handlers| && CanAct(c, s.handlers[h].pc, act)
  {
    var pc := s.handlers[h].pc;
    match act
    case Arrive(own) => Move(s, h, Resolving(if own then 0 else c.backends, None, []))
    case Skip => Move(s, h, pc.(next := pc.next + 1))
    case ReadBackend =>
      Move(s, h, pc.(next := pc.next + 1, seen := pc.seen + [Local(pc.next, s.inFlight[pc.next])]))
    case ReadPolled => Move(s, h, pc.(polled := Some(s.polled[pc.next - c.backends])))
    case ReadLocal =>
      var p := pc.next - c.backends;
      Move(s, h, Resolving(pc.next + 1, None, pc.seen + [Peer(p, Max(pc.polled.value, s.local[p]))]))
    case Choose =>
      var routes := Candidates(s.handlers[h]);
      var (pick, turns) := Pick(routes, c.ceiling, s.turns);
      PickIsBest(routes, c.ceiling, s.turns);
      Move(s.(turns := turns), h, if pick.Chosen? then Picked(routes[pick.at]) else Finished)
    case Dispatch =>
      (match pc.route
       case Local(b, _) => Move(s.(inFlight := s.inFlight[b := s.inFlight[b] + 1]), h, Serving(b))
       case Peer(p, _) => Move(s.(local := s.local[p := s.local[p] + 1]), h, Forwarding(p)))
    case Finish => Move(Release(c, s, pc), h, Finished)
    case Panic =>
      // A backend's decrement is deferred and runs anyway; a peer's is not.
      if pc.Forwarding? then Move(s.(lost := s.lost[pc.peer := s.lost[pc.peer] + 1]), h, Finished)
      else Move(Release(c, s, pc), h, Finished)
  }

  /** The decrement that ends a dispatch. */
  function Release(c: Config, s: State, pc: Pc): State
    requires Shaped(c, s) && (pc.Serving? || pc.Forwarding? ==> Dispatched(c, pc))
  {
    match pc
    case Serving(b) => s.(inFlight := s.inFlight[b := s.inFlight[b] - 1])
    case Forwarding(p) => s.(local := s.local[p := s.local[p] - 1])
    case _ => s
  }

  ghost predicate Next(c: Config, s: State, t: State) {
    Shaped(c, s) && exists e :: Enabled(c, s, e) && t == Step(c, s, e)
  }

  ghost predicate IsRun(c: Config, run: seq<State>) {
    && run != []
    && Initial(c, run[0])
    && forall i :: 0 <= i < |run| - 1 ==> Next(c, run[i], run[i + 1])
  }

  // ---- Events in sequence ----

  /** The state after the events of `es` from `s`, if each was enabled in turn. */
  function Perform(c: Config, s: State, es: seq<Event>): Option<State> {
    if es == [] then Some(s)
    else
      var before := Perform(c, s, es[..|es| - 1]);
      if before.Some? && Shaped(c, before.value) && Enabled(c, before.value, es[|es| - 1])
      then Some(Step(c, before.value, es[|es| - 1]))
      else None
  }

  lemma PerformNext(c: Config, s: State, es: seq<Event>, t: State, e: Event)
    requires Perform(c, s, es) == Some(t) && Shaped(c, t) && Enabled(c, t, e)
    ensures Perform(c, s, es + [e]) == Some(Step(c, t, e))
  {
    assert (es + [e])[..|es|] == es;
  }

  /** A performable sequence of events from the start traces out a run. */
  lemma {:induction false} PerformIsRun(c: Config, s: State, es: seq<Event>) returns (run: seq<State>)
    requires Initial(c, s) && Perform(c, s, es).Some?
    ensures IsRun(c, run) && run[|run| - 1] == Perform(c, s, es).value
  {
    if es == [] {
      run := [s];
    } else {
      run := PerformIsRun(c, s, es[..|es| - 1]);
      var t := Perform(c, s, es).value;
      assert Next(c, run[|run| - 1], t);
      run := run + [t];
    }
  }

  lemma PerformOneMore(c: Config, run: seq<State>, i: nat, j: nat, es: seq<Event>) returns (longer: seq<Event>)
    requires IsRun(c, run) && i <= j && j + 1 < |run| && Perform(c, run[i], es) == Some(run[j])
    ensures |longer| == |es| + 1 && Perform(c, run[i], longer) == Some(run[j + 1])
  {
    var e := StepAt(c, run, j);
    PerformNext(c, run[i], es, run[j], e);
    longer := es + [e];
  }

  /** And any stretch of a run is the performance of some events. */
  lemma {:induction false} StretchPerforms(c: Config, run: seq<State>, i: nat, j: nat) returns (es: seq<Event>)
    requires IsRun(c, run) && i <= j < |run|
    ensures |es| == j - i && Perform(c, run[i], es) == Some(run[j])
  {
    es := [];
    if i < j {
      es := StretchPerforms(c, run, i, j - 1);
      es := PerformOneMore(c, run, i, j - 1, es);
    }
  }

  /** The event between two states of a run. */
  lemma StepAt(c: Config, run: seq<State>, i: nat) returns (e: Event)
    requires IsRun(c, run) && i + 1 < |run|
    ensures Shaped(c, run[i]) && Enabled(c, run[i], e) && run[i + 1] == Step(c, run[i], e)
  {
    assert Next(c, run[i], run[i + 1]);
    e :| Enabled(c, run[i], e) && run[i + 1] == Step(c, run[i], e);
  }

  lemma MoveAgain(s: State, h: nat, was: Pc, now: Pc)
    requires h < |s.handlers|
    ensures Move(Move(s, h, was), h, now) == Move(s, h, now)
  {
  }

  lemma Begins(c: Config, s: State, h: nat, own: bool) returns (es: seq<Event>)
    requires Shaped(c, s) && h < |s.handlers| && s.handlers[h].pc == Waiting
    ensures Perform(c, s, es) == Some(Move(s, h, Resolving(if own then 0 else c.backends, None, [])))
  {
    es := [] + [Handle(h, Arrive(own))];
    PerformNext(c, s, [], s, Handle(h, Arrive(own)));
  }

  /** One read, or one skipped entry, of a handler that alone has moved since `s`. */
  lemma Scans(c: Config, s: State, es: seq<Event>, h: nat, pc: Pc, act: Action) returns (longer: seq<Event>)
    requires Shaped(c, s) && h < |s.handlers| && Perform(c, s, es) == Some(Move(s, h, pc))
    requires act in {Skip, ReadBackend, ReadPolled, ReadLocal} && CanAct(c, pc, act)
    ensures longer == es + [Handle(h, act)]
    ensures Perform(c, s, longer) == Some(Move(s, h, Act(c, Move(s, h, pc), h, act).handlers[h].pc))
  {
    var t := Move(s, h, pc);
    longer := es + [Handle(h, act)];
    PerformNext(c, s, es, t, Handle(h, act));
    MoveAgain(s, h, pc, Act(c, t, h, act).handlers[h].pc);
  }

  lemma Chooses(c: Config, s: State, es: seq<Event>, h: nat, seen: seq<Route>)
    returns (longer: seq<Event>, chosen: State)
    requires Shaped(c, s) && h < |s.handlers|
    requires Perform(c, s, es) == Some(Move(s, h, Resolving(c.backends + c.peers, None, seen)))
    ensures Perform(c, s, longer) == Some(chosen)
    ensures var routes := if s.handlers[h].forwarded then LocalOnly(seen) else seen;
            var (pick, turns) := Pick(routes, c.ceiling, s.turns);
            && (pick.Chosen? ==> pick.at < |routes|)
            && chosen == Move(s.(turns := turns), h, if pick.Chosen? then Picked(routes[pick.at]) else Finished)
  {
    var t := Move(s, h, Resolving(c.backends + c.peers, None, seen));
    longer, chosen := es + [Handle(h, Choose)], Step(c, t, Handle(h, Choose));
    PerformNext(c, s, es, t, Handle(h, Choose));
    MoveAgain(s, h, t.handlers[h].pc, chosen.handlers[h].pc);
    var routes := if s.handlers[h].forwarded then LocalOnly(seen) else seen;
    PickIsBest(routes, c.ceiling, s.turns);
  }

  /** The bracket of a dispatch gives back what it took. */
  lemma Dispatches(c: Config, s: State, es: seq<Event>, t: State, h: nat) returns (longer: seq<Event>)
    requires Perform(c, s, es) == Some(t) && Shaped(c, t)
    requires h < |t.handlers| && t.handlers[h].pc.Picked? && Known(c, t.handlers[h].pc.route)
    ensures longer == es + [Handle(h, Dispatch)] + [Handle(h, Finish)]
    ensures Perform(c, s, longer) == Some(Move(t, h, Finished))
  {
    longer := es + [Handle(h, Dispatch)] + [Handle(h, Finish)];
    var u := Step(c, t, Handle(h, Dispatch));
    PerformNext(c, s, es, t, Handle(h, Dispatch));
    PerformNext(c, s, es + [Handle(h, Dispatch)], u, Handle(h, Finish));
    GivesBack(c, t, h);
  }

  lemma GivesBack(c: Config, t: State, h: nat)
    requires Shaped(c, t) && h < |t.handlers| && t.handlers[h].pc.Picked? && Known(c, t.handlers[h].pc.route)
    ensures Act(c, Act(c, t, h, Dispatch), h, Finish) == Move(t, h, Finished)
  {
    match t.handlers[h].pc.route
    case Local(b, _) =>
      var u := t.(inFlight := t.inFlight[b := t.inFlight[b] + 1]);
      assert Release(c, Move(u, h, Serving(b)), Serving(b)).inFlight == t.inFlight;
      assert Release(c, Move(u, h, Serving(b)), Serving(b)) == Move(t, h, Serving(b));
      MoveAgain(t, h, Serving(b), Finished);
    case Peer(p, _) =>
      var u := t.(local := t.local[p := t.local[p] + 1]);
      assert Release(c, Move(u, h, Forwarding(p)), Forwarding(p)).local == t.local;
      assert Release(c, Move(u, h, Forwarding(p)), Forwarding(p)) == Move(t, h, Forwarding(p));
      MoveAgain(t, h, Forwarding(p), Finished);
  }

  // ---- Counting handlers ----

  function ServingOn(b: nat): Handler -> bool {
    (h: Handler) => h.pc == Serving(b)
  }

  function ForwardingTo(p: nat): Handler -> bool {
    (h: Handler) => h.pc == Forwarding(p)
  }

  /** The handler has read backend `b` and neither dispatched nor left. */
  function Holding(b: nat): Handler -> bool {
    (h: Handler) =>
      (h.pc.Resolving? && exists i :: 0 <= i < |h.pc.seen| && h.pc.seen[i].Local? && h.pc.seen[i].backend == b)
      || (h.pc.Picked? && h.pc.route.Local? && h.pc.route.backend == b)
  }

  /** The handler may still increment backend `b`: what it read was below the ceiling. */
  function Eligible(b: nat, ceiling: int): Handler -> bool {
    (h: Handler) =>
      (h.pc.Resolving? &&
       exists i :: 0 <= i < |h.pc.seen| && h.pc.seen[i].Local? && h.pc.seen[i].backend == b
                   && h.pc.seen[i].inFlight < ceiling)
      || (h.pc.Picked? && h.pc.route.Local? && h.pc.route.backend == b)
  }

  // ---- Invariants ----

  predicate Conserved(c: Config, s: State)
    requires Shaped(c, s)
  {
    && (forall b :: 0 <= b < c.backends ==> s.inFlight[b] == Count(s.handlers, ServingOn(b)))
    && (forall p :: 0 <= p < c.peers ==> s.local[p] == Count(s.handlers, ForwardingTo(p)) + s.lost[p])
  }

  predicate Sound(c: Config, h: Handler) {
    && (h.pc.Resolving? ==> forall i :: 0 <= i < |h.pc.seen| ==> Known(c, h.pc.seen[i]))
    && (h.pc.Picked? ==> Known(c, h.pc.route) && (h.forwarded ==> h.pc.route.Local?))
    && (h.pc.Serving? ==> h.pc.backend < c.backends)
    && (h.pc.Forwarding? ==> h.pc.peer < c.peers && !h.forwarded)
  }

  ghost predicate Inv(c: Config, s: State) {
    && Shaped(c, s)
    && (forall h :: 0 <= h < |s.handlers| ==> Sound(c, s.handlers[h]))
    && Conserved(c, s)
  }

  function IsLocal(): Route -> bool {
    (r: Route) => r.Local?
  }

  lemma {:induction false} LocalOnlyKeepsLocal(routes: seq<Route>)
    ensures forall i :: 0 <= i < |LocalOnly(routes)| ==>
              LocalOnly(routes)[i].Local? && LocalOnly(routes)[i] in routes
  {
    if routes != [] {
      LocalOnlyKeepsLocal(routes[..|routes| - 1]);
    }
  }

  lemma {:induction false} LocalOnlyMembers(routes: seq<Route>, r: Route)
    ensures r in LocalOnly(routes) <==> r in routes && r.Local?
  {
    if routes != [] {
      LocalOnlyMembers(routes[..|routes| - 1], r);
    }
  }

  /** What is kept is local and was there, as many as there were; and each local
      route is kept, in the place after the local ones before it. */
  lemma {:induction false} LocalOnlyHolds(routes: seq<Route>)
    ensures forall i :: 0 <= i < |LocalOnly(routes)| ==>
              LocalOnly(routes)[i].Local? && LocalOnly(routes)[i] in routes
    ensures |LocalOnly(routes)| == Count(routes, IsLocal())
    ensures forall i :: 0 <= i < |routes| && routes[i].Local? ==>
              Count(routes[..i], IsLocal()) < |LocalOnly(routes)|
              && LocalOnly(routes)[Count(routes[..i], IsLocal())] == routes[i]
  {
    LocalOnlyKeepsLocal(routes);
    if routes != [] {
      var n := |routes| - 1;
      var before := routes[..n];
      LocalOnlyHolds(before);
      forall i | 0 <= i < |routes| && routes[i].Local?
        ensures Count(routes[..i], IsLocal()) < |LocalOnly(routes)|
                && LocalOnly(routes)[Count(routes[..i], IsLocal())] == routes[i]
      {
        if i < n {
          assert before[..i] == routes[..i] && before[i] == routes[i];
        }
      }
    }
  }

  lemma {:induction false} CountNone<T>(s: seq<T>, p: T -> bool)
    requires forall i :: 0 <= i < |s| ==> !p(s[i])
    ensures Count(s, p) == 0
  {
    if s != [] {
      CountNone(s[..|s| - 1], p);
    }
  }

  lemma InitialInv(c: Config, s: State)
    requires Initial(c, s)
    ensures Inv(c, s)
  {
    forall b | 0 <= b < c.backends
      ensures Count(s.handlers, ServingOn(b)) == 0
    {
      CountNone(s.handlers, ServingOn(b));
    }
    forall p | 0 <= p < c.peers
      ensures Count(s.handlers, ForwardingTo(p)) == 0
    {
      CountNone(s.handlers, ForwardingTo(p));
    }
  }

  /** What a handler picks comes from what it read, and is admissible. */
  lemma ChosenRoute(c: Config, s: State, h: nat)
    requires Shaped(c, s) && Enabled(c, s, Handle(h, Choose))
    ensures var pc := Step(c, s, Handle(h, Choose)).handlers[h].pc;
            && (pc == Finished || pc.Picked?)
            && (pc.Picked? ==>
                  && pc.route in s.handlers[h].pc.seen
                  && Admissible(pc.route, c.ceiling)
                  && (s.handlers[h].forwarded ==> pc.route.Local?))
  {
    var routes := Candidates(s.handlers[h]);
    PickIsBest(routes, c.ceiling, s.turns);
    LocalOnlyKeepsLocal(s.handlers[h].pc.seen);
  }

  /** One event moves one handler, if any. */
  lemma StepMoves(c: Config, s: State, e: Event)
    requires Inv(c, s) && Enabled(c, s, e)
    ensures var t := Step(c, s, e);
            && Shaped(c, t)
            && (if !e.Handle? then t.handlers == s.handlers
                else e.h < |s.handlers| && t.handlers == s.handlers[e.h := t.handlers[e.h]]
                     && t.handlers[e.h].forwarded == s.handlers[e.h].forwarded
                     && Sound(c, t.handlers[e.h]))
  {
    if e.Handle? && e.act == Choose {
      ChosenRoute(c, s, e.h);
    }
  }

  /** A backend's counter moves with the handler that moves. */
  lemma InFlightMoves(c: Config, s: State, e: Event, b: nat)
    requires Inv(c, s) && Enabled(c, s, e) && e.Handle? && b < c.backends
    ensures var t := Step(c, s, e);
            && Shaped(c, t) && e.h < |t.handlers|
            && t.inFlight[b] == s.inFlight[b] - (if ServingOn(b)(s.handlers[e.h]) then 1 else 0)
                                + (if ServingOn(b)(t.handlers[e.h]) then 1 else 0)
  {
  }

  /** So does a peer's, with the forwards it has lost. */
  lemma OutstandingMoves(c: Config, s: State, e: Event, p: nat)
    requires Inv(c, s) && Enabled(c, s, e) && e.Handle? && p < c.peers
    ensures var t := Step(c, s, e);
            && Shaped(c, t) && e.h < |t.handlers|
            && t.local[p] - t.lost[p] == s.local[p] - s.lost[p]
                                         - (if ForwardingTo(p)(s.handlers[e.h]) then 1 else 0)
                                         + (if ForwardingTo(p)(t.handlers[e.h]) then 1 else 0)
  {
  }

  lemma StepConserves(c: Config, s: State, e: Event)
    requires Inv(c, s) && Enabled(c, s, e) && e.Handle?
    ensures Shaped(c, Step(c, s, e)) && Conserved(c, Step(c, s, e))
  {
    var t := Step(c, s, e);
    StepMoves(c, s, e);
    forall b | 0 <= b < c.backends
      ensures t.inFlight[b] == Count(t.handlers, ServingOn(b))
    {
      InFlightMoves(c, s, e, b);
      CountUpdate(s.handlers, ServingOn(b), e.h, t.handlers[e.h]);
    }
    forall p | 0 <= p < c.peers
      ensures t.local[p] == Count(t.handlers, ForwardingTo(p)) + t.lost[p]
    {
      OutstandingMoves(c, s, e, p);
      CountUpdate(s.handlers, ForwardingTo(p), e.h, t.handlers[e.h]);
    }
  }

  lemma StepInv(c: Config, s: State, e: Event)
    requires Inv(c, s) && Enabled(c, s, e)
    ensures Inv(c, Step(c, s, e))
  {
    StepMoves(c, s, e);
    if e.Handle? {
      StepConserves(c, s, e);
    }
  }

  lemma {:induction false} RunInv(c: Config, run: seq<State>, i: nat)
    requires IsRun(c, run) && i < |run|
    ensures Inv(c, run[i])
  {
    if i == 0 {
      InitialInv(c, run[0]);
    } else {
      RunInv(c, run, i - 1);
      var e := StepAt(c, run, i - 1);
      StepInv(c, run[i - 1], e);
    }
  }

  // ---- Conservation ----

  /** In every reachable state each backend's counter is the number of handlers
      inside its proxy call, and each peer's is the number of its outstanding
      forwards plus those whose handler panicked. */
  lemma CountersConserved(c: Config, run: seq<State>, i: nat)
    requires IsRun(c, run) && i < |run|
    ensures var s := run[i];
            && Shaped(c, s)
            && (forall b :: 0 <= b < c.backends ==> s.inFlight[b] == Count(s.handlers, ServingOn(b)) >= 0)
            && (forall p :: 0 <= p < c.peers ==>
                  s.local[p] == Count(s.handlers, ForwardingTo(p)) + s.lost[p] >= 0)
  {
    RunInv(c, run, i);
  }

  /** Once nothing is dispatched every backend counter is back to zero, and a
      peer's is exactly when none of its forwards ended in a panic. */
  lemma QuiescentCounters(c: Config, run: seq<State>, i: nat)
    requires IsRun(c, run) && i < |run|
    requires forall h :: 0 <= h < |run[i].handlers| ==>
               !run[i].handlers[h].pc.Serving? && !run[i].handlers[h].pc.Forwarding?
    ensures Shaped(c, run[i])
    ensures forall b :: 0 <= b < c.backends ==> run[i].inFlight[b] == 0
    ensures forall p :: 0 <= p < c.peers ==> (run[i].local[p] == 0 <==> run[i].lost[p] == 0)
  {
    RunInv(c, run, i);
    var s := run[i];
    forall b | 0 <= b < c.backends
      ensures s.inFlight[b] == 0
    {
      CountNone(s.handlers, ServingOn(b));
    }
    forall p | 0 <= p < c.peers
      ensures s.local[p] == s.lost[p]
    {
      CountNone(s.handlers, ForwardingTo(p));
    }
  }

  /** A forward whose handler panics keeps what it took. */
  lemma ForwardPanics(c: Config, s: State, es: seq<Event>, t: State, h: nat) returns (longer: seq<Event>)
    requires Perform(c, s, es) == Some(t) && Shaped(c, t) && h < |t.handlers|
    requires t.handlers[h].pc.Picked? && t.handlers[h].pc.route.Peer? && Known(c, t.handlers[h].pc.route)
    ensures var p := t.handlers[h].pc.route.peer;
            Perform(c, s, longer)
            == Some(Move(t.(local := t.local[p := t.local[p] + 1], lost := t.lost[p := t.lost[p] + 1]), h, Finished))
  {
    var p := t.handlers[h].pc.route.peer;
    var u := Step(c, t, Handle(h, Dispatch));
    PerformNext(c, s, es, t, Handle(h, Dispatch));
    PerformNext(c, s, es + [Handle(h, Dispatch)], u, Handle(h, Panic));
    longer := es + [Handle(h, Dispatch)] + [Handle(h, Panic)];
    MoveAgain(t.(local := t.local[p := t.local[p] + 1], lost := t.lost[p := t.lost[p] + 1]), h,
              Forwarding(p), Finished);
  }

  /** A node that serves nothing itself reads its only peer, which looks idle. */
  lemma ReadsOnlyPeer(c: Config, s: State) returns (es: seq<Event>)
    requires c.backends == 0 && c.peers == 1 && Shaped(c, s) && s.polled == [0] && s.local == [0]
    requires s.handlers == [Handler(false, Waiting)]
    ensures Perform(c, s, es) == Some(Move(s, 0, Resolving(1, None, [Peer(0, 0)])))
  {
    es := Begins(c, s, 0, false);
    es := Scans(c, s, es, 0, Resolving(0, None, []), ReadPolled);
    es := Scans(c, s, es, 0, Resolving(0, Some(0), []), ReadLocal);
    assert [] + [Peer(0, 0)] == [Peer(0, 0)];
  }

  lemma PicksOnlyPeer(c: Config, s: State) returns (es: seq<Event>)
    requires c.backends == 0 && c.peers == 1 && Shaped(c, s) && s.polled == [0] && s.local == [0]
    requires s.handlers == [Handler(false, Waiting)]
    ensures Perform(c, s, es) == Some(Move(s, 0, Picked(Peer(0, 0))))
  {
    es := ReadsOnlyPeer(c, s);
    LoneRoute([Peer(0, 0)], c.ceiling, s.turns);
    var chosen;
    es, chosen := Chooses(c, s, es, 0, [Peer(0, 0)]);
  }

  lemma LeaksOne(c: Config, s: State) returns (es: seq<Event>)
    requires c.backends == 0 && c.peers == 1 && Shaped(c, s) && s.polled == [0] && s.local == [0] && s.lost == [0]
    requires s.handlers == [Handler(false, Waiting)]
    ensures Perform(c, s, es).Some?
    ensures var t := Perform(c, s, es).value;
            t.handlers == [Handler(false, Finished)] && t.local == [1] && t.lost == [1]
  {
    es := PicksOnlyPeer(c, s);
    es := ForwardPanics(c, s, es, Move(s, 0, Picked(Peer(0, 0))), 0);
  }

  /** One such panic is enough: a node that forwards one request to its only peer
      ends with nothing dispatched and the peer's counter at one. */
  lemma PanicLeaks(ceiling: int) returns (run: seq<State>)
    ensures IsRun(Config(0, 1, ceiling), run)
    ensures var s := run[|run| - 1];
            s.handlers == [Handler(false, Finished)] && s.local == [1] && s.lost == [1]
  {
    var c := Config(0, 1, ceiling);
    var s := State([], [0], [0], [0], Indices(0, 0), [Handler(false, Waiting)]);
    var es := LeaksOne(c, s);
    run := PerformIsRun(c, s, es);
  }

  /** However stale the poll, the load a handler records for a peer is at least
      the number of requests this node has outstanding there. */
  lemma PeerLoadNeverBelowOwn(c: Config, run: seq<State>, i: nat, h: nat)
    requires IsRun(c, run) && i < |run|
    requires Enabled(c, run[i], Handle(h, ReadLocal))
    ensures Shaped(c, run[i])
    ensures var p := run[i].handlers[h].pc.next - c.backends;
            var seen := Step(c, run[i], Handle(h, ReadLocal)).handlers[h].pc.seen;
            && seen != []
            && seen[|seen| - 1].Peer? && seen[|seen| - 1].peer == p
            && seen[|seen| - 1].inFlight >= Count(run[i].handlers, ForwardingTo(p))
  {
    RunInv(c, run, i);
  }

  // ---- The ceiling ----

  /** The most a backend's counter can come to. */
  ghost predicate WithinOvershoot(c: Config, s: State, b: nat, width: nat)
    requires Shaped(c, s) && b < c.backends
  {
    s.inFlight[b] + Count(s.handlers, Eligible(b, c.ceiling)) <= c.ceiling - 1 + width
  }

  lemma EligibleHolds(c: Config, s: State, b: nat)
    ensures Count(s.handlers, Eligible(b, c.ceiling)) <= Count(s.handlers, Holding(b))
  {
    CountWeaken(s.handlers, Eligible(b, c.ceiling), Holding(b));
  }

  /** A handler becomes eligible only by reading a counter below the ceiling. */
  lemma BecomesEligible(c: Config, s: State, e: Event, b: nat)
    requires Inv(c, s) && Enabled(c, s, e) && e.Handle? && c.ceiling > 0 && b < c.backends
    requires Eligible(b, c.ceiling)(Step(c, s, e).handlers[e.h])
    ensures Eligible(b, c.ceiling)(s.handlers[e.h])
            || (e.act == ReadBackend && s.handlers[e.h].pc.next == b && s.inFlight[b] < c.ceiling)
  {
    var was, now := s.handlers[e.h].pc, Step(c, s, e).handlers[e.h].pc;
    if e.act == Choose {
      ChosenRoute(c, s, e.h);
      var i :| 0 <= i < |was.seen| && was.seen[i] == now.route;
    } else if now.Resolving? {
      var i :| 0 <= i < |now.seen| && now.seen[i].Local? && now.seen[i].backend == b
               && now.seen[i].inFlight < c.ceiling;
      if was.Resolving? && i < |was.seen| {
        assert was.seen[i] == now.seen[i];
      }
    }
  }

  lemma StepWithinOvershoot(c: Config, s: State, e: Event, b: nat, width: nat)
    requires Inv(c, s) && Enabled(c, s, e) && c.ceiling > 0 && b < c.backends
    requires WithinOvershoot(c, s, b, width)
    requires Count(Step(c, s, e).handlers, Holding(b)) <= width
    ensures Shaped(c, Step(c, s, e)) && WithinOvershoot(c, Step(c, s, e), b, width)
  {
    StepInv(c, s, e);
    StepMoves(c, s, e);
    var t := Step(c, s, e);
    EligibleHolds(c, t, b);
    if e.Handle? {
      CountUpdate(s.handlers, Eligible(b, c.ceiling), e.h, t.handlers[e.h]);
      if Eligible(b, c.ceiling)(t.handlers[e.h]) {
        BecomesEligible(c, s, e, b);
      }
    }
  }

  lemma InitialWithin(c: Config, s: State, b: nat, width: nat)
    requires Initial(c, s) && c.ceiling > 0 && b < c.backends
    ensures WithinOvershoot(c, s, b, width)
  {
    CountNone(s.handlers, Eligible(b, c.ceiling));
  }

  lemma WithinBound(c: Config, s: State, b: nat, width: nat)
    requires Shaped(c, s) && b < c.backends && WithinOvershoot(c, s, b, width)
    ensures s.inFlight[b] <= c.ceiling - 1 + width
  {
  }

  lemma OvershootKept(c: Config, run: seq<State>, b: nat, width: nat, i: nat)
    requires IsRun(c, run) && i + 1 < |run| && c.ceiling > 0 && b < c.backends
    requires Shaped(c, run[i]) && WithinOvershoot(c, run[i], b, width)
    requires Count(run[i + 1].handlers, Holding(b)) <= width
    ensures Shaped(c, run[i + 1]) && WithinOvershoot(c, run[i + 1], b, width)
  {
    RunInv(c, run, i);
    var e := StepAt(c, run, i);
    StepWithinOvershoot(c, run[i], e, b, width);
  }

  /** The ceiling is not exact, and this is how far it can be passed: if no more
      than `width` handlers ever stand between reading a backend's counter and
      incrementing it or leaving, it never exceeds the ceiling by more than
      `width - 1`. With one at a time the ceiling is never passed. */
  lemma {:induction false} CeilingOvershoot(c: Config, run: seq<State>, b: nat, width: nat, i: nat)
    requires IsRun(c, run) && i < |run| && c.ceiling > 0 && b < c.backends
    requires forall k :: 0 <= k < |run| ==> Count(run[k].handlers, Holding(b)) <= width
    ensures Shaped(c, run[i]) && WithinOvershoot(c, run[i], b, width)
    ensures run[i].inFlight[b] <= c.ceiling - 1 + width
  {
    if i == 0 {
      InitialWithin(c, run[0], b, width);
    } else {
      CeilingOvershoot(c, run, b, width, i - 1);
      OvershootKept(c, run, b, width, i - 1);
    }
    WithinBound(c, run[i], b, width);
  }

  // ---- The bound is attained ----

  /** A run in which at most `width` handlers at a time hold backend 0. */
  ghost predicate NarrowRun(c: Config, run: seq<State>, width: nat) {
    && IsRun(c, run)
    && Shaped(c, run[|run| - 1])
    && forall k :: 0 <= k < |run| ==> Count(run[k].handlers, Holding(0)) <= width
  }

  /** One backend, `a` handlers being served, the next `r` about to pick on the
      strength of a counter one below the ceiling, the others not yet arrived. */
  ghost predicate Racing(c: Config, s: State, a: nat, r: nat) {
    && c.backends == 1 && c.peers == 0
    && s.inFlight == [a]
    && a + r <= |s.handlers|
    && (forall h :: 0 <= h < |s.handlers| ==>
          s.handlers[h] == Handler(false,
            if h < a then Serving(0)
            else if h < a + r then Resolving(1, None, [Local(0, c.ceiling - 1)])
            else Waiting))
    && Count(s.handlers, Holding(0)) == r
  }

  lemma Advance(c: Config, run: seq<State>, width: nat, h: nat, act: Action) returns (longer: seq<State>)
    requires NarrowRun(c, run, width)
    requires var s := run[|run| - 1];
             && Enabled(c, s, Handle(h, act))
             && Count(Step(c, s, Handle(h, act)).handlers, Holding(0)) <= width
    ensures NarrowRun(c, longer, width)
    ensures longer[|longer| - 1] == Step(c, run[|run| - 1], Handle(h, act))
  {
    var s := run[|run| - 1];
    longer := run + [Step(c, s, Handle(h, act))];
    assert Next(c, s, Step(c, s, Handle(h, act)));
    RunInv(c, longer, |run|);
  }

  lemma HoldingAfter(s: State, h: nat, pc: Pc)
    requires h < |s.handlers|
    ensures Count(Move(s, h, pc).handlers, Holding(0))
         == Count(s.handlers, Holding(0)) - (if Holding(0)(s.handlers[h]) then 1 else 0)
            + (if Holding(0)(s.handlers[h].(pc := pc)) then 1 else 0)
  {
    CountUpdate(s.handlers, Holding(0), h, s.handlers[h].(pc := pc));
  }

  /** A handler that arrives and reads the counter. */
  lemma ArriveAndRead(c: Config, run: seq<State>, width: nat, h: nat, a: nat, r: nat) returns (longer: seq<State>)
    requires NarrowRun(c, run, width) && Racing(c, run[|run| - 1], a, r)
    requires r < width && h == a + r < |run[|run| - 1].handlers|
    ensures NarrowRun(c, longer, width)
    ensures longer[|longer| - 1] == Move(run[|run| - 1], h, Resolving(1, None, [Local(0, a)]))
    ensures Count(longer[|longer| - 1].handlers, Holding(0)) == r + 1
  {
    var s := run[|run| - 1];
    var t := Move(s, h, Resolving(0, None, []));
    HoldingAfter(s, h, Resolving(0, None, []));
    longer := Advance(c, run, width, h, Arrive(true));
    assert longer[|longer| - 1] == t && Count(t.handlers, Holding(0)) == r;
    ReadStep(c, t, h, a);
    MoveAgain(s, h, Resolving(0, None, []), Resolving(1, None, [Local(0, a)]));
    longer := Advance(c, longer, width, h, ReadBackend);
  }

  lemma ReadStep(c: Config, t: State, h: nat, a: int)
    requires c.backends == 1 && c.peers == 0 && Shaped(c, t) && t.inFlight == [a]
    requires h < |t.handlers| && t.handlers[h].pc == Resolving(0, None, [])
    ensures Step(c, t, Handle(h, ReadBackend)) == Move(t, h, Resolving(1, None, [Local(0, a)]))
    ensures Count(Step(c, t, Handle(h, ReadBackend)).handlers, Holding(0)) == Count(t.handlers, Holding(0)) + 1
  {
    var now := Resolving(1, None, [Local(0, a)]);
    assert [] + [Local(0, a)] == [Local(0, a)];
    assert now.seen[0].Local? && now.seen[0].backend == 0;
    HoldingAfter(t, h, now);
  }

  /** A handler that read a counter below the ceiling picks that backend. */
  lemma PickStep(c: Config, s: State, h: nat, v: int)
    requires c.backends == 1 && c.peers == 0 && Shaped(c, s) && v < c.ceiling
    requires h < |s.handlers| && s.handlers[h] == Handler(false, Resolving(1, None, [Local(0, v)]))
    ensures Step(c, s, Handle(h, Choose)) == Move(s, h, Picked(Local(0, v)))
  {
    LoneRoute([Local(0, v)], c.ceiling, s.turns);
  }

  lemma PickOne(c: Config, run: seq<State>, width: nat, h: nat, v: int) returns (longer: seq<State>)
    requires NarrowRun(c, run, width) && c.backends == 1 && c.peers == 0 && v < c.ceiling
    requires h < |run[|run| - 1].handlers|
    requires run[|run| - 1].handlers[h] == Handler(false, Resolving(1, None, [Local(0, v)]))
    ensures NarrowRun(c, longer, width)
    ensures var s, t := run[|run| - 1], longer[|longer| - 1];
            t == Move(s, h, Picked(Local(0, v))) && Count(t.handlers, Holding(0)) == Count(s.handlers, Holding(0))
  {
    var s := run[|run| - 1];
    assert s.handlers[h].pc.seen[0].backend == 0;
    PickStep(c, s, h, v);
    HoldingAfter(s, h, Picked(Local(0, v)));
    longer := Advance(c, run, width, h, Choose);
  }

  /** And increments. */
  lemma DispatchOne(c: Config, run: seq<State>, width: nat, h: nat, v: int) returns (longer: seq<State>)
    requires NarrowRun(c, run, width) && c.backends == 1 && c.peers == 0
    requires h < |run[|run| - 1].handlers| && run[|run| - 1].handlers[h] == Handler(false, Picked(Local(0, v)))
    ensures NarrowRun(c, longer, width)
    ensures var s, t := run[|run| - 1], longer[|longer| - 1];
            && t.handlers == s.handlers[h := Handler(false, Serving(0))]
            && t.inFlight == [s.inFlight[0] + 1]
            && Count(t.handlers, Holding(0)) == Count(s.handlers, Holding(0)) - 1
  {
    var s := run[|run| - 1];
    HoldingAfter(s, h, Serving(0));
    longer := Advance(c, run, width, h, Dispatch);
    assert longer[|longer| - 1].inFlight == [s.inFlight[0] + 1];
  }

  lemma PickAndDispatch(c: Config, run: seq<State>, width: nat, h: nat, v: int, k: nat) returns (longer: seq<State>)
    requires NarrowRun(c, run, width) && c.backends == 1 && c.peers == 0 && v < c.ceiling
    requires h < |run[|run| - 1].handlers|
    requires run[|run| - 1].handlers[h] == Handler(false, Resolving(1, None, [Local(0, v)]))
    requires Count(run[|run| - 1].handlers, Holding(0)) == k
    ensures NarrowRun(c, longer, width)
    ensures var s, t := run[|run| - 1], longer[|longer| - 1];
            && t.handlers == s.handlers[h := Handler(false, Serving(0))]
            && t.inFlight == [s.inFlight[0] + 1]
            && Count(t.handlers, Holding(0)) == k - 1
  {
    longer := PickOne(c, run, width, h, v);
    longer := DispatchOne(c, longer, width, h, v);
  }

  /** Handlers that take their turns one by one fill the backend up to one below
      the ceiling. */
  lemma {:induction false} FillUp(c: Config, run: seq<State>, width: nat, a: nat) returns (longer: seq<State>)
    requires NarrowRun(c, run, width) && Racing(c, run[|run| - 1], a, 0)
    requires a <= c.ceiling - 1 <= |run[|run| - 1].handlers| && width > 0
    ensures NarrowRun(c, longer, width) && Racing(c, longer[|longer| - 1], c.ceiling - 1, 0)
    ensures |longer[|longer| - 1].handlers| == |run[|run| - 1].handlers|
    decreases c.ceiling - a
  {
    longer := run;
    if a < c.ceiling - 1 {
      longer := ArriveAndRead(c, run, width, a, a, 0);
      longer := PickAndDispatch(c, longer, width, a, a, 1);
      longer := FillUp(c, longer, width, a + 1);
    }
  }

  /** Then `width` of them read before any increments. */
  lemma {:induction false} AllRead(c: Config, run: seq<State>, width: nat, r: nat) returns (longer: seq<State>)
    requires NarrowRun(c, run, width) && c.ceiling > 0 && Racing(c, run[|run| - 1], c.ceiling - 1, r)
    requires r <= width && c.ceiling - 1 + width == |run[|run| - 1].handlers|
    ensures NarrowRun(c, longer, width) && Racing(c, longer[|longer| - 1], c.ceiling - 1, width)
    ensures |longer[|longer| - 1].handlers| == |run[|run| - 1].handlers|
    decreases width - r
  {
    longer := run;
    if r < width {
      longer := ArriveAndRead(c, run, width, c.ceiling - 1 + r, c.ceiling - 1, r);
      longer := AllRead(c, longer, width, r + 1);
    }
  }

  /** And then they all increment. */
  lemma {:induction false} AllDispatch(c: Config, run: seq<State>, width: nat, a: nat, r: nat)
    returns (longer: seq<State>)
    requires NarrowRun(c, run, width) && c.ceiling > 0 && Racing(c, run[|run| - 1], a, r)
    ensures NarrowRun(c, longer, width) && longer[|longer| - 1].inFlight == [a + r]
    decreases r
  {
    longer := run;
    if r > 0 {
      longer := PickAndDispatch(c, run, width, a, c.ceiling - 1, r);
      longer := AllDispatch(c, longer, width, a + 1, r - 1);
    }
  }

  /** No better bound holds: for every ceiling and every width there is a run
      that keeps to the width and ends exactly at the bound. */
  lemma OvershootAttained(ceiling: int, width: nat) returns (run: seq<State>)
    requires ceiling > 0 && width > 0
    ensures var c := Config(1, 0, ceiling);
            && IsRun(c, run)
            && (forall k :: 0 <= k < |run| ==> Count(run[k].handlers, Holding(0)) <= width)
            && run[|run| - 1].inFlight == [ceiling - 1 + width]
  {
    var c := Config(1, 0, ceiling);
    var handlers := seq(ceiling - 1 + width, (i: int) => Handler(false, Waiting));
    CountNone(handlers, Holding(0));
    run := [State([0], [], [], [], Indices(0, 0), handlers)];
    run := FillUp(c, run, width, 0);
    run := AllRead(c, run, width, 0);
    run := AllDispatch(c, run, width, ceiling - 1, width);
  }

  // ---- Racing for the same targets ----

  /** `e` is the choice of a handler that has exactly these candidates. */
  predicate ChoosesFrom(s: State, e: Event, routes: seq<Route>) {
    e.Handle? && e.act == Choose && e.h < |s.handlers|
    && s.handlers[e.h].pc.Resolving? && Candidates(s.handlers[e.h]) == routes
  }

  /** What the handlers with these candidates pick in the course of `es`, in the
      order in which they choose. */
  function Choices(c: Config, s: State, es: seq<Event>, routes: seq<Route>): seq<Picked>
    requires Perform(c, s, es).Some?
  {
    if es == [] then []
    else
      var n := |es| - 1;
      var t := Perform(c, s, es[..n]).value;
      Choices(c, s, es[..n], routes)
      + (if ChoosesFrom(t, es[n], routes) then [Pick(routes, c.ceiling, t.turns).0] else [])
  }

  /** No handler with other candidates draws from the index that these draw from.
      Everything else may happen in between. */
  predicate Undisturbed(c: Config, s: State, es: seq<Event>, routes: seq<Route>)
    requires Perform(c, s, es).Some? && Available(routes, c.ceiling) != []
  {
    es == [] ||
    var n := |es| - 1;
    var t, u := Perform(c, s, es[..n]).value, Perform(c, s, es).value;
    && Undisturbed(c, s, es[..n], routes)
    && (ChoosesFrom(t, es[n], routes)
        || Drawn(routes, c.ceiling, u.turns) == Drawn(routes, c.ceiling, t.turns))
  }

  /** Choosing moves the indices as a pick does. */
  lemma ChoiceTurns(c: Config, s: State, e: Event, routes: seq<Route>)
    requires Shaped(c, s) && Enabled(c, s, e) && ChoosesFrom(s, e, routes)
    ensures Step(c, s, e).turns == Pick(routes, c.ceiling, s.turns).1
    ensures var pick := Pick(routes, c.ceiling, s.turns).0;
            Step(c, s, e).handlers[e.h].pc
            == if pick.Chosen? && pick.at < |routes| then Picked(routes[pick.at]) else Finished
  {
    PickIsBest(routes, c.ceiling, s.turns);
  }

  /** The stretch is undisturbed exactly if no handler in it chooses from other
      candidates that draw from the same index: those that draw from the other
      one, have one target or are refused do not matter. */
  lemma {:induction false} UndisturbedIff(c: Config, s: State, es: seq<Event>, routes: seq<Route>)
    requires Perform(c, s, es).Some? && Available(routes, c.ceiling) != []
    ensures Undisturbed(c, s, es, routes) <==> NoRival(c, s, es, routes)
  {
    if es != [] {
      var n := |es| - 1;
      UndisturbedIff(c, s, es[..n], routes);
      var t := Perform(c, s, es[..n]).value;
      RivalDraws(c, t, es[n], routes);
    }
  }

  /** No choice from other candidates in `es` draws from the index of `routes`. */
  ghost predicate NoRival(c: Config, s: State, es: seq<Event>, routes: seq<Route>)
    requires Perform(c, s, es).Some?
  {
    es == [] ||
    var n := |es| - 1;
    NoRival(c, s, es[..n], routes) && !Rivals(c, Perform(c, s, es[..n]).value, es[n], routes)
  }

  /** `e` is such a choice. */
  ghost predicate Rivals(c: Config, s: State, e: Event, routes: seq<Route>) {
    e.Handle? && e.act == Choose && e.h < |s.handlers| && s.handlers[e.h].pc.Resolving?
    && Candidates(s.handlers[e.h]) != routes && Disturbs(Candidates(s.handlers[e.h]), routes, c.ceiling)
  }

  lemma RivalDraws(c: Config, s: State, e: Event, routes: seq<Route>)
    requires Shaped(c, s) && Enabled(c, s, e) && Available(routes, c.ceiling) != []
    ensures ChoosesFrom(s, e, routes)
            || Drawn(routes, c.ceiling, Step(c, s, e).turns) == Drawn(routes, c.ceiling, s.turns)
            <==> !Rivals(c, s, e, routes)
  {
    if e.Handle? && e.act == Choose {
      var others := Candidates(s.handlers[e.h]);
      ChoiceTurns(c, s, e, others);
      DisturbsIff(others, routes, c.ceiling, s.turns);
    }
  }

  /** What one event does to the choices, to the index they draw from, and to
      whether that index was disturbed. */
  lemma RaceStep(c: Config, s: State, es: seq<Event>, routes: seq<Route>)
    requires es != [] && Perform(c, s, es).Some?
    requires Available(routes, c.ceiling) != [] && Undisturbed(c, s, es, routes)
    ensures var n := |es| - 1;
            var t, u := Perform(c, s, es[..n]), Perform(c, s, es).value;
            && t.Some? && Undisturbed(c, s, es[..n], routes)
            && var now, next := Drawn(routes, c.ceiling, t.value.turns), Drawn(routes, c.ceiling, u.turns);
               if ChoosesFrom(t.value, es[n], routes)
               then Choices(c, s, es, routes)
                    == Choices(c, s, es[..n], routes) + [Pick(routes, c.ceiling, t.value.turns).0]
                    && next == if |Targets(routes, c.ceiling)| == 1 then now else NextIndex(now)
               else Choices(c, s, es, routes) == Choices(c, s, es[..n], routes) && next == now
  {
    var n := |es| - 1;
    var t := Perform(c, s, es[..n]).value;
    if ChoosesFrom(t, es[n], routes) {
      ChoiceTurns(c, t, es[n], routes);
      PickTakesTurn(routes, c.ceiling, t.turns);
    }
  }

  /** The index has moved by one for each of these choices. */
  lemma {:induction false} RaceTurns(c: Config, s: State, es: seq<Event>, routes: seq<Route>)
    requires Perform(c, s, es).Some?
    requires Available(routes, c.ceiling) != [] && Undisturbed(c, s, es, routes)
    requires |Targets(routes, c.ceiling)| > 1
    requires Drawn(routes, c.ceiling, s.turns) + |Choices(c, s, es, routes)| < 2 * WRAP
    ensures Drawn(routes, c.ceiling, Perform(c, s, es).value.turns)
         == TurnAfter(Drawn(routes, c.ceiling, s.turns), |Choices(c, s, es, routes)|)
  {
    if es != [] {
      RaceStep(c, s, es, routes);
      RaceTurns(c, s, es[..|es| - 1], routes);
    }
  }

  /** The i-th of these choices falls on place `j` exactly when its turn does. */
  lemma {:induction false} RaceFalls(c: Config, s: State, es: seq<Event>, routes: seq<Route>, i: nat, j: nat)
    requires Perform(c, s, es).Some?
    requires Available(routes, c.ceiling) != [] && Undisturbed(c, s, es, routes)
    requires i < |Choices(c, s, es, routes)| && j < |Targets(routes, c.ceiling)|
    requires Drawn(routes, c.ceiling, s.turns) + |Choices(c, s, es, routes)| <= 2 * WRAP
    ensures var ts := Targets(routes, c.ceiling);
            Choices(c, s, es, routes)[i] == Chosen(ts[j])
            <==> TurnAfter(Drawn(routes, c.ceiling, s.turns), i) % |ts| == j
  {
    var before := es[..|es| - 1];
    RaceStep(c, s, es, routes);
    if i < |Choices(c, s, before, routes)| {
      RaceFalls(c, s, before, routes, i, j);
    } else {
      LastFalls(c, s, before, routes, j);
    }
  }

  /** So does the next choice to come. */
  lemma LastFalls(c: Config, s: State, es: seq<Event>, routes: seq<Route>, j: nat)
    requires Perform(c, s, es).Some?
    requires Available(routes, c.ceiling) != [] && Undisturbed(c, s, es, routes)
    requires j < |Targets(routes, c.ceiling)|
    requires Drawn(routes, c.ceiling, s.turns) + |Choices(c, s, es, routes)| < 2 * WRAP
    ensures var ts := Targets(routes, c.ceiling);
            Pick(routes, c.ceiling, Perform(c, s, es).value.turns).0 == Chosen(ts[j])
            <==> TurnAfter(Drawn(routes, c.ceiling, s.turns), |Choices(c, s, es, routes)|) % |ts| == j
  {
    var now := Perform(c, s, es).value.turns;
    PickOnTurn(routes, c.ceiling, now, j);
    if |Targets(routes, c.ceiling)| > 1 {
      RaceTurns(c, s, es, routes);
    } else {
      ModOne(TurnAfter(Drawn(routes, c.ceiling, s.turns), |Choices(c, s, es, routes)|));
      ModOne(Drawn(routes, c.ceiling, now));
    }
  }

  lemma RaceHits(c: Config, s: State, es: seq<Event>, routes: seq<Route>, j: nat)
    requires Perform(c, s, es).Some?
    requires Available(routes, c.ceiling) != [] && Undisturbed(c, s, es, routes)
    requires j < |Targets(routes, c.ceiling)|
    requires Drawn(routes, c.ceiling, s.turns) + |Choices(c, s, es, routes)| <= 2 * WRAP
    ensures var ts, picks := Targets(routes, c.ceiling), Choices(c, s, es, routes);
            Count(picks, IsPick(ts[j])) == TurnsOn(Drawn(routes, c.ceiling, s.turns), |picks|, |ts|, j)
  {
    var ts, picks, start := Targets(routes, c.ceiling), Choices(c, s, es, routes), Drawn(routes, c.ceiling, s.turns);
    forall i | 0 <= i < |picks|
      ensures picks[i] == Chosen(ts[j]) <==> TurnAfter(start, i) % |ts| == j
    {
      RaceFalls(c, s, es, routes, i, j);
    }
    TurnsHit(picks, ts[j], start, |ts|, j);
  }

  /** Between any two states of a run, the handlers that choose from the same
      stale list are spread evenly over its tied targets, to within one, in
      whatever order they choose and whatever else happens in between, as long
      as no one else draws from their index and it does not wrap. */
  lemma RaceBalanced(c: Config, s: State, es: seq<Event>, routes: seq<Route>, j: nat)
    requires Perform(c, s, es).Some?
    requires Available(routes, c.ceiling) != [] && Undisturbed(c, s, es, routes)
    requires j < |Targets(routes, c.ceiling)|
    requires Drawn(routes, c.ceiling, s.turns) + |Choices(c, s, es, routes)| <= WRAP
    ensures var k, picks := |Targets(routes, c.ceiling)|, Choices(c, s, es, routes);
            |picks| / k <= Count(picks, IsPick(Targets(routes, c.ceiling)[j])) <= (|picks| + k - 1) / k
  {
    RaceHits(c, s, es, routes, j);
    HitsBalanced(Drawn(routes, c.ceiling, s.turns), |Choices(c, s, es, routes)|, |Targets(routes, c.ceiling)|, j);
  }

  /** Across one wrap any two targets still differ by at most two. */
  lemma RaceBalancedAcrossWrap(c: Config, s: State, es: seq<Event>, routes: seq<Route>, i: nat, j: nat)
    requires Perform(c, s, es).Some?
    requires Available(routes, c.ceiling) != [] && Undisturbed(c, s, es, routes)
    requires i < |Targets(routes, c.ceiling)| && j < |Targets(routes, c.ceiling)|
    requires WRAP < Drawn(routes, c.ceiling, s.turns) + |Choices(c, s, es, routes)| <= 2 * WRAP
    ensures var ts, picks := Targets(routes, c.ceiling), Choices(c, s, es, routes);
            -2 <= Count(picks, IsPick(ts[i])) - Count(picks, IsPick(ts[j])) <= 2
  {
    var n, k, start := |Choices(c, s, es, routes)|, |Targets(routes, c.ceiling)|, Drawn(routes, c.ceiling, s.turns);
    RaceHits(c, s, es, routes, i);
    RaceHits(c, s, es, routes, j);
    WrapShare(start, n, k, i);
    WrapShare(start, n, k, j);
  }
}
