/** One node's request path as the code has it: records that handlers and polls
    update in place. Handling a request that nothing interleaves with is tied to
    the events it performs in the concurrent system, and to the visit it is in a
    journey through the mesh. */
module RequestPath {
  import opened BackendStates
  import opened Common
  import opened Routing
  import A = Admission
  import L = Latency
  import M = Mesh
  import S = Supervision

  /** How the upstream call on a local backend ends: without a response, or with
      one that is streamed to its end or until the client is gone. */
  datatype Upstream =
    | BadRequest
    | Aborted
    | Gone
    | Failed
    | Answered(status: int, cutShort: bool, ended: int, elapsed: int)

  /** What a peer's status says of it. Backends, cards and figures are carried
      along as they came. */
  datatype Report = Report(
    nodeId: string,
    hostname: string,
    listenAddr: string,
    models: seq<string>,
    backends: seq<string>,
    gpus: seq<string>,
    totalInFlight: int,
    healthyBackends: int,
    totalBackends: int,
    powerWatts: real,
    powerAvailable: bool,
    powerSource: string,
    hostMemTotalMb: int,
    hostMemUsedMb: int,
    energyKwh24h: real,
    energyKwh30d: real,
    promptHistory: int)

  class PeerState {
    var reachable: bool
    var seen: Report
    var local: int

    method Update(status: Report)
      modifies this`reachable, this`seen
      ensures reachable && seen == status
    {
      reachable, seen := true, status;
    }

    /** Forgets the last poll, except who the peer is, how many backends it has
        and how long its prompt history is. */
    method MarkUnreachable()
      modifies this`reachable, this`seen
      ensures !reachable
      ensures seen == Report(old(seen).nodeId, old(seen).hostname, old(seen).listenAddr,
                             [], [], [], 0, 0, old(seen).totalBackends, 0.0, false, "", 0, 0, 0.0, 0.0,
                             old(seen).promptHistory)
    {
      reachable := false;
      seen := seen.(models := [], backends := [], gpus := [], totalInFlight := 0, healthyBackends := 0,
                    powerWatts := 0.0, powerAvailable := false, powerSource := "",
                    hostMemTotalMb := 0, hostMemUsedMb := 0, energyKwh24h := 0.0, energyKwh30d := 0.0);
    }

    method HasModel(name: string) returns (has: bool)
      ensures has <==> name in seen.models
    {
      for i := 0 to |seen.models|
        invariant name !in seen.models[..i]
      {
        if seen.models[i] == name {
          return true;
        }
      }
      return false;
    }

    /** The load given to the picker: neither view of the peer exceeds it. */
    method TotalInFlight() returns (n: int)
      ensures n >= seen.totalInFlight && n >= local && (n == seen.totalInFlight || n == local)
    {
      if local > seen.totalInFlight {
        return local;
      }
      return seen.totalInFlight;
    }

    method IncLocalInFlight()
      modifies this`local
      ensures local == old(local) + 1
    {
      local := local + 1;
    }

    method DecLocalInFlight()
      modifies this`local
      ensures local == old(local) - 1
    {
      local := local - 1;
    }
  }

  /** The loop that keeps a forwarded request on this node. */
  method LocalOnly(routes: seq<Route>) returns (out: seq<Route>)
    ensures out == A.LocalOnly(routes)
  {
    out := [];
    for i := 0 to |routes|
      invariant out == A.LocalOnly(routes[..i])
    {
      assert routes[..i + 1][..i] == routes[..i];
      if routes[i].Local? {
        out := out + [routes[i]];
      }
    }
    assert routes[..|routes|] == routes;
  }

  predicate AllKnown(c: A.Config, routes: seq<Route>) {
    forall at :: 0 <= at < |routes| ==> A.Known(c, routes[at])
  }

  lemma {:induction false} LocalOnlyKnown(c: A.Config, routes: seq<Route>)
    requires AllKnown(c, routes)
    ensures AllKnown(c, A.LocalOnly(routes))
  {
    if routes != [] {
      LocalOnlyKnown(c, routes[..|routes| - 1]);
    }
  }

  class Node {
    const nodeId: string
    const localModel: string
    const ceiling: int
    const backends: seq<BackendState>
    const peers: seq<PeerState>
    const picker: Picker

    constructor (nodeId: string, localModel: string, ceiling: int,
                 backends: seq<BackendState>, peers: seq<PeerState>, picker: Picker)
      ensures this.nodeId == nodeId && this.localModel == localModel && this.ceiling == ceiling
      ensures this.backends == backends && this.peers == peers && this.picker == picker
    {
      this.nodeId, this.localModel, this.ceiling := nodeId, localModel, ceiling;
      this.backends, this.peers, this.picker := backends, peers, picker;
    }

    predicate Valid() {
      && (forall i, j :: 0 <= i < j < |backends| ==> backends[i] != backends[j])
      && (forall i, j :: 0 <= i < j < |peers| ==> peers[i] != peers[j])
    }

    function Windows(): set<L.LatencyWindow> {
      set b | 0 <= b < |backends| :: backends[b].latency
    }

    function Shape(): A.Config {
      A.Config(|backends|, |peers|, ceiling)
    }

    /** The shared counters and indices are those of `s`. */
    ghost predicate Matches(s: A.State)
      reads backends, peers, picker
    {
      && A.Shaped(Shape(), s)
      && (forall b :: 0 <= b < |backends| ==> backends[b].inFlight == s.inFlight[b])
      && (forall p :: 0 <= p < |peers| ==> peers[p].seen.totalInFlight == s.polled[p] && peers[p].local == s.local[p])
      && picker.Turn() == s.turns
    }

    /** Whether the backend or peer at place `i` of a scan can serve the model. */
    predicate Serves(name: string, i: nat)
      requires i < |backends| + |peers|
      reads backends, peers
    {
      if i < |backends| then name == localModel && backends[i].status == S.Healthy
      else peers[i - |backends|].reachable && name in peers[i - |backends|].seen.models
    }

    function Entry(i: nat): Route
      requires i < |backends| + |peers|
      reads backends, peers
    {
      if i < |backends| then Local(i, backends[i].inFlight)
      else Peer(i - |backends|, Max(peers[i - |backends|].seen.totalInFlight, peers[i - |backends|].local))
    }

    /** The routes of the places below `n`. */
    function Listing(name: string, n: nat): seq<Route>
      requires n <= |backends| + |peers|
      reads backends, peers
    {
      if n == 0 then []
      else Listing(name, n - 1) + (if Serves(name, n - 1) then [Entry(n - 1)] else [])
    }

    /** A route is listed exactly for each place that can serve the model. */
    lemma {:induction false} ListingExact(name: string, n: nat, r: Route)
      requires n <= |backends| + |peers|
      ensures r in Listing(name, n) <==> exists i :: 0 <= i < n && Serves(name, i) && Entry(i) == r
    {
      if n > 0 {
        ListingExact(name, n - 1, r);
      }
    }

    /** The events of handler `h` up to place `n` of its scan, where it has read
        the routes below. */
    ghost predicate Scanned(name: string, s: A.State, h: nat, events: seq<A.Event>, n: nat)
      requires h < |s.handlers| && n <= |backends| + |peers|
      reads backends, peers
    {
      A.Perform(Shape(), s, events) == Some(A.Move(s, h, A.Resolving(n, None, Listing(name, n))))
    }

    lemma SkipEntry(name: string, s: A.State, h: nat, events: seq<A.Event>, n: nat)
      returns (longer: seq<A.Event>)
      requires A.Shaped(Shape(), s) && h < |s.handlers| && n < |backends| + |peers|
      requires Scanned(name, s, h, events, n) && !Serves(name, n)
      ensures Scanned(name, s, h, longer, n + 1)
    {
      longer := A.Scans(Shape(), s, events, h, A.Resolving(n, None, Listing(name, n)), A.Skip);
      assert Listing(name, n + 1) == Listing(name, n);
    }

    lemma ReadBackend(name: string, s: A.State, h: nat, events: seq<A.Event>, b: nat)
      returns (longer: seq<A.Event>)
      requires Matches(s) && h < |s.handlers| && b < |backends|
      requires Scanned(name, s, h, events, b) && Serves(name, b)
      ensures Scanned(name, s, h, longer, b + 1)
    {
      longer := A.Scans(Shape(), s, events, h, A.Resolving(b, None, Listing(name, b)), A.ReadBackend);
    }

    lemma ReadPeer(name: string, s: A.State, h: nat, events: seq<A.Event>, p: nat)
      returns (longer: seq<A.Event>)
      requires Matches(s) && h < |s.handlers| && p < |peers|
      requires Scanned(name, s, h, events, |backends| + p) && Serves(name, |backends| + p)
      ensures Scanned(name, s, h, longer, |backends| + p + 1)
    {
      var n := |backends| + p;
      longer := A.Scans(Shape(), s, events, h, A.Resolving(n, None, Listing(name, n)), A.ReadPolled);
      var polled := Some(peers[p].seen.totalInFlight);
      longer := A.Scans(Shape(), s, longer, h, A.Resolving(n, polled, Listing(name, n)), A.ReadLocal);
    }

    lemma ScanNext(name: string, s: A.State, h: nat, events: seq<A.Event>, n: nat)
      returns (longer: seq<A.Event>)
      requires Matches(s) && h < |s.handlers| && n < |backends| + |peers|
      requires Scanned(name, s, h, events, n)
      ensures Scanned(name, s, h, longer, n + 1)
    {
      if !Serves(name, n) {
        longer := SkipEntry(name, s, h, events, n);
      } else if n < |backends| {
        longer := ReadBackend(name, s, h, events, n);
      } else {
        longer := ReadPeer(name, s, h, events, n - |backends|);
      }
    }

    /** Listing the places one by one is a run of the events of a scan. */
    lemma {:induction false} ScanIsRun(name: string, s: A.State, h: nat, n: nat)
      returns (events: seq<A.Event>)
      requires Matches(s) && h < |s.handlers| && s.handlers[h].pc == A.Waiting
      requires n <= |backends| + |peers| && (name == localModel || n >= |backends|)
      ensures Scanned(name, s, h, events, n)
    {
      if n == 0 || (name != localModel && n == |backends|) {
        events := A.Begins(Shape(), s, h, name == localModel);
        NoLocals(name, n);
      } else {
        events := ScanIsRun(name, s, h, n - 1);
        events := ScanNext(name, s, h, events, n - 1);
      }
    }

    /** A node that serves another model lists none of its backends. */
    lemma {:induction false} NoLocals(name: string, n: nat)
      requires n <= |backends| && (name != localModel || n == 0)
      ensures Listing(name, n) == []
    {
      if n > 0 {
        NoLocals(name, n - 1);
      }
    }

    lemma ListNext(name: string, n: nat)
      requires n < |backends| + |peers|
      ensures Listing(name, n + 1) == if Serves(name, n) then Listing(name, n) + [Entry(n)] else Listing(name, n)
    {
    }

    lemma LocalListed(name: string, b: nat, load: int)
      ensures Local(b, load) in Listing(name, |backends| + |peers|)
              <==> b < |backends| && name == localModel && backends[b].status == S.Healthy
                   && load == backends[b].inFlight
    {
      ListingExact(name, |backends| + |peers|, Local(b, load));
      if b < |backends| && Serves(name, b) {
        assert Entry(b) == Local(b, backends[b].inFlight);
      }
    }

    lemma PeerListed(name: string, p: nat, load: int)
      ensures Peer(p, load) in Listing(name, |backends| + |peers|)
              <==> p < |peers| && peers[p].reachable && name in peers[p].seen.models && load == PeerLoad(p)
    {
      ListingExact(name, |backends| + |peers|, Peer(p, load));
      if p < |peers| && Serves(name, |backends| + p) {
        assert Entry(|backends| + p) == Peer(p, PeerLoad(p));
      }
    }

    /** The larger of what the peer was last seen with and what this node has out. */
    function PeerLoad(p: nat): int
      requires p < |peers|
      reads peers
    {
      if peers[p].local > peers[p].seen.totalInFlight then peers[p].local else peers[p].seen.totalInFlight
    }

    /** Backends before peers, each in its order and once. */
    predicate InOrder(routes: seq<Route>) {
      forall k, l :: 0 <= k < l < |routes| ==>
        match routes[k]
        case Local(b, _) => routes[l].Local? ==> b < routes[l].backend
        case Peer(p, _) => routes[l].Peer? && p < routes[l].peer
    }

    lemma {:induction false} ListingInOrder(name: string, n: nat)
      requires n <= |backends| + |peers|
      ensures InOrder(Listing(name, n))
      ensures forall k :: 0 <= k < |Listing(name, n)| ==>
                match Listing(name, n)[k]
                case Local(b, _) => b < n
                case Peer(p, _) => |backends| + p < n
    {
      if n > 0 {
        ListingInOrder(name, n - 1);
      }
    }

    /** A local route is there exactly for each healthy backend if the model is this
        node's, a peer's exactly for each reachable peer that has it, with the
        current load. */
    ghost predicate ListsAll(name: string, routes: seq<Route>)
      reads backends, peers
    {
      && (forall b: nat, load :: Local(b, load) in routes <==>
            b < |backends| && name == localModel && backends[b].status == S.Healthy
            && load == backends[b].inFlight)
      && (forall p: nat, load :: Peer(p, load) in routes <==>
            p < |peers| && peers[p].reachable && name in peers[p].seen.models && load == PeerLoad(p))
    }

    lemma ListingMeans(name: string)
      ensures ListsAll(name, Listing(name, |backends| + |peers|))
    {
      forall b: nat, load
        ensures Local(b, load) in Listing(name, |backends| + |peers|) <==>
                b < |backends| && name == localModel && backends[b].status == S.Healthy
                && load == backends[b].inFlight
      {
        LocalListed(name, b, load);
      }
      forall p: nat, load
        ensures Peer(p, load) in Listing(name, |backends| + |peers|) <==>
                p < |peers| && peers[p].reachable && name in peers[p].seen.models && load == PeerLoad(p)
      {
        PeerListed(name, p, load);
      }
    }

    /** Reads the counters one by one: every healthy backend if the model is this
        node's, then every reachable peer that has it, with their loads. */
    method Resolve(name: string) returns (routes: seq<Route>)
      ensures routes == Listing(name, |backends| + |peers|)
      ensures forall b: nat, load :: Local(b, load) in routes <==>
                b < |backends| && name == localModel && backends[b].status == S.Healthy
                && load == backends[b].inFlight
      ensures forall p: nat, load :: Peer(p, load) in routes <==>
                p < |peers| && peers[p].reachable && name in peers[p].seen.models
                && load == if peers[p].local > peers[p].seen.totalInFlight then peers[p].local
                           else peers[p].seen.totalInFlight
      ensures InOrder(routes)
    {
      routes := ReadRoutes(name);
      ListingInOrder(name, |backends| + |peers|);
      ListingMeans(name);
    }

    method ReadRoutes(name: string) returns (routes: seq<Route>)
      ensures routes == Listing(name, |backends| + |peers|)
    {
      routes := [];
      if name == localModel {
        for i := 0 to |backends|
          invariant routes == Listing(name, i)
        {
          ListNext(name, i);
          if backends[i].status == S.Healthy {
            routes := routes + [Local(i, backends[i].inFlight)];
          }
        }
      } else {
        NoLocals(name, |backends|);
      }
      for j := 0 to |peers|
        invariant routes == Listing(name, |backends| + j)
      {
        ListNext(name, |backends| + j);
        var has := peers[j].HasModel(name);
        if peers[j].reachable && has {
          var load := peers[j].TotalInFlight();
          routes := routes + [Peer(j, load)];
        }
      }
    }

    /** The upstream call on a backend, between its increment and its deferred
        decrement. An answer carries the load with this request counted in; one
        that is complete and no server error leaves a latency sample; only a
        vanished process is reported. */
    method ProxyRequest(b: nat, upstream: Upstream) returns (depth: Option<int>)
      requires Valid() && b < |backends|
      modifies backends[b], backends[b].latency
      ensures depth == if upstream.Answered? then Some(old(backends[b].inFlight) + 1) else None
      ensures backends[b].inFlight == old(backends[b].inFlight)
      ensures backends[b].maxModelLen == old(backends[b].maxModelLen)
      ensures backends[b].latency.samples
           == if upstream.Answered? && !upstream.cutShort && upstream.status < 500
              then L.Evict(backends[b].latency.window,
                           old(backends[b].latency.samples) + [L.Sample(upstream.ended, upstream.elapsed)],
                           upstream.ended)
              else old(backends[b].latency.samples)
      ensures upstream.Gone? ==> backends[b].hardFailure && backends[b].status == S.Unhealthy
      ensures !upstream.Gone? ==> backends[b].hardFailure == old(backends[b].hardFailure)
                                  && backends[b].status == old(backends[b].status)
    {
      backends[b].IncrInFlight();
      depth := None;
      if upstream.Gone? {
        backends[b].NoteHardFailure();
      } else if upstream.Answered? {
        depth := Some(backends[b].inFlight);
        if !upstream.cutShort && upstream.status < 500 {
          backends[b].latency.RecordLatency(upstream.ended, upstream.elapsed);
        }
      }
      backends[b].DecrInFlight();
    }

    /** Sends the request where it was routed. `t` is the state in which handler
        `h` has picked; the counters are back where they were at the end.
        `during` is the count of the request's target while it was out. */
    method Dispatch(route: Route, upstream: Upstream, ghost t: A.State)
      returns (outcome: M.Outcome, depth: Option<int>, ghost during: int)
      requires Valid() && Matches(t) && A.Known(Shape(), route)
      modifies backends, peers, Windows()
      ensures Matches(t)
      ensures outcome == match route case Local(b, _) => M.Served(b) case Peer(p, _) => M.Forward(p, nodeId)
      ensures route.Peer? ==> during == t.local[route.peer] + 1
      ensures depth == if route.Local? && upstream.Answered? then Some(t.inFlight[route.backend] + 1) else None
      ensures Reported(outcome, upstream)
    {
      depth, during := None, 0;
      match route
      case Local(b, _) =>
        depth := ProxyRequest(b, upstream);
        outcome := M.Served(b);
      case Peer(p, _) =>
        peers[p].IncLocalInFlight();
        during := peers[p].local;
        peers[p].DecLocalInFlight();
        outcome := M.Forward(p, nodeId);
    }

    /** One poll of a peer, absent when the peer did not answer with a status. */
    method PollPeer(p: nat, answer: Option<Report>, ghost s: A.State)
      requires Valid() && Matches(s) && p < |peers|
      modifies peers[p]
      ensures Matches(A.Step(Shape(), s,
                             if answer.Some? then A.Poll(p, answer.value.totalInFlight) else A.Unreachable(p)))
      ensures peers[p].reachable <==> answer.Some?
      ensures peers[p].seen.models == if answer.Some? then answer.value.models else []
    {
      if answer.None? {
        peers[p].MarkUnreachable();
        return;
      }
      peers[p].Update(answer.value);
    }

    /** Exactly the backend that was found gone is reported. */
    twostate predicate Reported(outcome: M.Outcome, upstream: Upstream)
      reads backends
    {
      forall b :: 0 <= b < |backends| ==>
        if outcome == M.Served(b) && upstream.Gone?
        then backends[b].hardFailure && backends[b].status == S.Unhealthy
        else backends[b].hardFailure == old(backends[b].hardFailure)
             && backends[b].status == old(backends[b].status)
    }

    /** The routes a request finds. */
    function Found(model: string): seq<Route>
      reads backends, peers
    {
      Listing(if model == "" then localModel else model, |backends| + |peers|)
    }

    /** What the picker gets to choose from. */
    function Candidates(model: string, origin: string): seq<Route>
      reads backends, peers
    {
      if origin != "" then A.LocalOnly(Found(model)) else Found(model)
    }

    lemma CandidatesKnown(model: string, origin: string)
      ensures AllKnown(Shape(), Candidates(model, origin))
    {
      ListingKnown(if model == "" then localModel else model, |backends| + |peers|);
      LocalOnlyKnown(Shape(), Found(model));
    }

    lemma {:induction false} ListingKnown(name: string, n: nat)
      requires n <= |backends| + |peers|
      ensures AllKnown(Shape(), Listing(name, n))
    {
      if n > 0 {
        ListingKnown(name, n - 1);
      }
    }

    /** What a request leaves behind: at most an index has moved on. */
    function Settled(model: string, origin: string, s: A.State): A.State
      reads backends, peers
    {
      s.(turns := Pick(Candidates(model, origin), ceiling, s.turns).1)
    }

    /** The state once handler `h` has picked. */
    function Decided(model: string, origin: string, s: A.State, h: nat): A.State
      requires h < |s.handlers|
      reads backends, peers
    {
      var routes := Candidates(model, origin);
      var pick := Pick(routes, ceiling, s.turns).0;
      PickIsBest(routes, ceiling, s.turns);
      A.Move(Settled(model, origin, s), h, if pick.Chosen? then A.Picked(routes[pick.at]) else A.Finished)
    }

    lemma DecisionIsRun(model: string, origin: string, s: A.State, h: nat) returns (events: seq<A.Event>)
      requires Matches(s) && h < |s.handlers| && s.handlers[h] == A.Handler(origin != "", A.Waiting)
      ensures A.Perform(Shape(), s, events) == Some(Decided(model, origin, s, h))
    {
      events := ScanIsRun(if model == "" then localModel else model, s, h, |backends| + |peers|);
      var chosen;
      events, chosen := A.Chooses(Shape(), s, events, h, Found(model));
    }

    /** A request that nothing interleaves with is a run of its handler's events,
        and leaves the counters as it found them. */
    lemma HandlingIsRun(model: string, origin: string, s: A.State, h: nat) returns (events: seq<A.Event>)
      requires Matches(s) && h < |s.handlers| && s.handlers[h] == A.Handler(origin != "", A.Waiting)
      ensures A.Perform(Shape(), s, events) == Some(A.Move(Settled(model, origin, s), h, A.Finished))
    {
      var t := Decided(model, origin, s, h);
      events := DecisionIsRun(model, origin, s, h);
      PickIsBest(Candidates(model, origin), ceiling, s.turns);
      if t.handlers[h].pc.Picked? {
        CandidatesKnown(model, origin);
        events := A.Dispatches(Shape(), s, events, t, h);
        A.MoveAgain(Settled(model, origin, s), h, t.handlers[h].pc, A.Finished);
      }
    }

    /** A healthy backend, if the request is for this node's model. */
    predicate LocalOffer(model: string, b: nat)
      reads backends
    {
      b < |backends| && (model == "" || model == localModel) && backends[b].status == S.Healthy
    }

    /** A reachable peer that has the model, if the request was not forwarded. */
    predicate PeerOffer(model: string, origin: string, p: nat)
      reads peers
    {
      p < |peers| && origin == "" && peers[p].reachable
      && (if model == "" then localModel else model) in peers[p].seen.models
    }

    predicate LocalRoom(model: string, b: nat)
      reads backends
    {
      LocalOffer(model, b) && (ceiling > 0 ==> backends[b].inFlight < ceiling)
    }

    /** What a request must get: refused as unavailable if and only if nothing is
        offered, as busy if and only if only backends are and all are at the
        ceiling; else served by a lightest backend below the ceiling, or forwarded
        to a lightest peer if it is lighter than all of those. */
    ghost predicate RightAnswer(model: string, origin: string, outcome: M.Outcome)
      reads backends, peers
    {
      && (outcome.Unavailable? <==> NothingOffered(model, origin))
      && (outcome.Busy? <==> AllFull(model, origin))
      && (outcome.Served? ==> RightBackend(model, origin, outcome.backend))
      && (outcome.Forward? ==> outcome.origin == nodeId && RightPeer(model, origin, outcome.peer))
    }

    ghost predicate NothingOffered(model: string, origin: string)
      reads backends, peers
    {
      (forall b: nat :: !LocalOffer(model, b)) && forall p: nat :: !PeerOffer(model, origin, p)
    }

    ghost predicate AllFull(model: string, origin: string)
      reads backends, peers
    {
      && (exists b: nat :: LocalOffer(model, b)) && ceiling > 0
      && (forall b: nat :: LocalOffer(model, b) ==> backends[b].inFlight >= ceiling)
      && forall p: nat :: !PeerOffer(model, origin, p)
    }

    ghost predicate RightBackend(model: string, origin: string, chosen: nat)
      reads backends, peers
    {
      && LocalRoom(model, chosen)
      && (forall b: nat :: LocalRoom(model, b) ==> backends[chosen].inFlight <= backends[b].inFlight)
      && forall p: nat :: PeerOffer(model, origin, p) ==> backends[chosen].inFlight <= PeerLoad(p)
    }

    ghost predicate RightPeer(model: string, origin: string, chosen: nat)
      reads backends, peers
    {
      && PeerOffer(model, origin, chosen)
      && (forall b: nat :: LocalRoom(model, b) ==> PeerLoad(chosen) < backends[b].inFlight)
      && forall p: nat :: PeerOffer(model, origin, p) ==> PeerLoad(chosen) <= PeerLoad(p)
    }

    /** A request at this node, with the routes it finds. */
    function VisitOf(model: string, origin: string, turns: Indices): M.Visit
      reads backends, peers
    {
      M.Visit(nodeId, origin, Found(model), ceiling, turns)
    }

    /** The routes open to a visit of this node are its offers. */
    lemma OpenIsOffered(model: string, origin: string, turns: Indices, r: Route)
      ensures M.Open(VisitOf(model, origin, turns), r) <==>
              match r
              case Local(b, load) => LocalOffer(model, b) && load == backends[b].inFlight
              case Peer(p, load) => PeerOffer(model, origin, p) && load == PeerLoad(p)
    {
      var name := if model == "" then localModel else model;
      if r.Local? {
        LocalListed(name, r.backend, r.inFlight);
      } else {
        PeerListed(name, r.peer, r.inFlight);
      }
    }

    lemma OffersAreOpen(model: string, origin: string, turns: Indices)
      ensures forall b: nat :: LocalOffer(model, b) ==>
                M.Open(VisitOf(model, origin, turns), Local(b, backends[b].inFlight))
      ensures forall p: nat :: PeerOffer(model, origin, p) ==>
                M.Open(VisitOf(model, origin, turns), Peer(p, PeerLoad(p)))
    {
      forall b: nat | LocalOffer(model, b)
        ensures M.Open(VisitOf(model, origin, turns), Local(b, backends[b].inFlight))
      {
        OpenIsOffered(model, origin, turns, Local(b, backends[b].inFlight));
      }
      forall p: nat | PeerOffer(model, origin, p)
        ensures M.Open(VisitOf(model, origin, turns), Peer(p, PeerLoad(p)))
      {
        OpenIsOffered(model, origin, turns, Peer(p, PeerLoad(p)));
      }
    }

    lemma RefusedRightly(model: string, origin: string, turns: Indices)
      ensures var v := VisitOf(model, origin, turns);
              && ((forall r :: !M.Open(v, r)) <==> NothingOffered(model, origin))
              && ((exists r :: M.Open(v, r)) && ceiling > 0
                  && (forall r :: M.Open(v, r) ==> r.Local? && r.inFlight >= ceiling)
                  <==> AllFull(model, origin))
    {
      var v := VisitOf(model, origin, turns);
      OffersAreOpen(model, origin, turns);
      forall r | M.Open(v, r)
        ensures match r
                case Local(b, load) => LocalOffer(model, b) && load == backends[b].inFlight
                case Peer(p, load) => PeerOffer(model, origin, p) && load == PeerLoad(p)
      {
        OpenIsOffered(model, origin, turns, r);
      }
    }

    lemma TakenRightly(model: string, origin: string, turns: Indices, r: Route)
      requires M.Lightest(VisitOf(model, origin, turns), r)
      ensures r.Local? ==> RightBackend(model, origin, r.backend)
      ensures r.Peer? && (forall other :: M.Room(VisitOf(model, origin, turns), other) && other.Local?
                            ==> r.inFlight < other.inFlight)
              ==> RightPeer(model, origin, r.peer)
    {
      OffersAreOpen(model, origin, turns);
      OpenIsOffered(model, origin, turns, r);
      var v := VisitOf(model, origin, turns);
      forall b: nat | LocalRoom(model, b)
        ensures M.Room(v, Local(b, backends[b].inFlight))
      {
      }
      forall p: nat | PeerOffer(model, origin, p)
        ensures M.Room(v, Peer(p, PeerLoad(p)))
      {
      }
    }

    lemma HandlingIsRight(model: string, origin: string, turns: Indices)
      ensures RightAnswer(model, origin, M.Handle(VisitOf(model, origin, turns)))
    {
      var v := VisitOf(model, origin, turns);
      M.VisitOutcome(v);
      RefusedRightly(model, origin, turns);
      var outcome := M.Handle(v);
      if outcome.Served? {
        var r :| M.Lightest(v, r) && r.Local? && r.backend == outcome.backend;
        TakenRightly(model, origin, turns, r);
      } else if outcome.Forward? {
        var r :| M.Lightest(v, r) && r.Peer? && r.peer == outcome.peer
                 && forall other :: M.Room(v, other) && other.Local? ==> r.inFlight < other.inFlight;
        TakenRightly(model, origin, turns, r);
      }
    }

    /** Handles a request from start to end: what comes of it is what comes of a
        visit with that origin to this node, and the counters it leaves are those
        its run leaves. */
    method HandleProxy(model: string, origin: string, upstream: Upstream, ghost s: A.State)
      returns (outcome: M.Outcome, depth: Option<int>)
      requires Valid() && Matches(s)
      modifies backends, peers, picker, Windows()
      ensures outcome == M.Handle(M.Visit(nodeId, origin, old(Found(model)), ceiling, old(picker.Turn())))
      ensures old(RightAnswer(model, origin, outcome))
      ensures Matches(old(Settled(model, origin, s)))
      ensures depth.Some? <==> outcome.Served? && upstream.Answered?
      ensures depth.Some? ==> outcome.backend < |backends| && depth.value == s.inFlight[outcome.backend] + 1
      ensures Reported(outcome, upstream)
    {
      HandlingIsRight(model, origin, picker.Turn());
      ghost var t := Settled(model, origin, s);
      var routes := FindCandidates(model, origin);
      PickIsBest(routes, ceiling, picker.Turn());
      var pick := picker.PickRoute(routes, ceiling);
      outcome, depth := Follow(routes, pick, upstream, t);
    }

    /** Refuses, or sends the request on its way. */
    method Follow(routes: seq<Route>, pick: Picked, upstream: Upstream, ghost t: A.State)
      returns (outcome: M.Outcome, depth: Option<int>)
      requires Valid() && Matches(t) && AllKnown(Shape(), routes) && (pick.Chosen? ==> pick.at < |routes|)
      modifies backends, peers, Windows()
      ensures Matches(t)
      ensures outcome == M.Follow(nodeId, routes, pick)
      ensures depth.Some? <==> outcome.Served? && upstream.Answered?
      ensures depth.Some? ==> outcome.backend < |backends| && depth.value == t.inFlight[outcome.backend] + 1
      ensures Reported(outcome, upstream)
    {
      depth := None;
      match pick
      case NoRoute => outcome := M.Unavailable;
      case Backpressure => outcome := M.Busy;
      case Chosen(at) =>
        ghost var during;
        outcome, depth, during := Dispatch(routes[at], upstream, t);
    }

    method FindCandidates(model: string, origin: string) returns (routes: seq<Route>)
      ensures routes == Candidates(model, origin)
      ensures AllKnown(Shape(), routes)
    {
      routes := Resolve(if model == "" then localModel else model);
      if origin != "" {
        routes := LocalOnly(routes);
      }
      CandidatesKnown(model, origin);
    }
  }
}
