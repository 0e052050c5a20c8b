/** A request's journey through a mesh whose nodes hold arbitrary, stale or
    inconsistent tables of each other: a forwarded request is never forwarded
    again, because each forward carries the forwarding node's id. */
module Mesh {
  import opened Routing
  import Admission

  /** What becomes of a request at one node. A forward names the peer and the
      origin header it is sent with. */
  datatype Outcome =
    | Served(backend: nat)
    | Busy
    | Unavailable
    | Forward(peer: nat, origin: string)

  /** One arrival: the node's id, the origin header of the request, and whatever
      the node's tables, ceiling and indices happened to be. */
  datatype Visit = Visit(id: string, header: string, routes: seq<Route>, ceiling: int, turns: Indices)

  /** What follows from a pick among `routes` at the node `id`. */
  function Follow(id: string, routes: seq<Route>, pick: Picked): Outcome
    requires pick.Chosen? ==> pick.at < |routes|
  {
    match pick
    case NoRoute => Unavailable
    case Backpressure => Busy
    case Chosen(at) =>
      (match routes[at]
       case Local(b, _) => Served(b)
       case Peer(p, _) => Forward(p, id))
  }

  function Handle(v: Visit): Outcome {
    var routes := if v.header != "" then Admission.LocalOnly(v.routes) else v.routes;
    PickIsBest(routes, v.ceiling, v.turns);
    Follow(v.id, routes, Pick(routes, v.ceiling, v.turns).0)
  }

  /** Each visit but the first is the arrival of what the one before forwarded,
      at a node and with tables of the adversary's choosing. */
  predicate IsJourney(vs: seq<Visit>) {
    forall i :: 0 <= i < |vs| - 1 ==>
      Handle(vs[i]).Forward? && vs[i + 1].header == Handle(vs[i]).origin
  }

  /** A route the request may take: any that was found, unless it was forwarded. */
  predicate Open(v: Visit, r: Route) {
    r in v.routes && (v.header == "" || r.Local?)
  }

  /** And that is not a backend at the ceiling. */
  predicate Room(v: Visit, r: Route) {
    Open(v, r) && (r.Local? && v.ceiling > 0 ==> r.inFlight < v.ceiling)
  }

  ghost predicate Lightest(v: Visit, r: Route) {
    Room(v, r) && forall other :: Room(v, other) ==> r.inFlight <= other.inFlight
  }

  /** Unavailable is for want of a route, busy for backends at their ceiling alone;
      otherwise a lightest route is taken, a peer's only if it is lighter than
      any local one. */
  lemma VisitOutcome(v: Visit)
    ensures Handle(v).Unavailable? <==> forall r :: !Open(v, r)
    ensures Handle(v).Busy? <==>
            (exists r :: Open(v, r)) && v.ceiling > 0
            && forall r :: Open(v, r) ==> r.Local? && r.inFlight >= v.ceiling
    ensures Handle(v).Served? ==> exists r :: Lightest(v, r) && r.Local? && r.backend == Handle(v).backend
    ensures Handle(v).Forward? ==>
            && Handle(v).origin == v.id
            && exists r :: Lightest(v, r) && r.Peer? && r.peer == Handle(v).peer
                           && forall other :: Room(v, other) && other.Local? ==> r.inFlight < other.inFlight
  {
    var routes := if v.header != "" then Admission.LocalOnly(v.routes) else v.routes;
    forall r
      ensures r in routes <==> Open(v, r)
    {
      Admission.LocalOnlyMembers(v.routes, r);
    }
    PickAmong(routes, v.ceiling, v.turns);
    var pick := Pick(routes, v.ceiling, v.turns).0;
    if pick.Chosen? {
      assert Lightest(v, routes[pick.at]);
    }
  }

  lemma ForwardedStays(v: Visit)
    requires v.header != ""
    ensures !Handle(v).Forward?
  {
    var routes := Admission.LocalOnly(v.routes);
    Admission.LocalOnlyKeepsLocal(v.routes);
    PickIsBest(routes, v.ceiling, v.turns);
  }

  /** With node ids that are not empty, a request crosses between nodes at most
      once, and not at all if it arrived with an origin; where it ends up it is
      served, turned away busy, or has no backend. */
  lemma OneHop(vs: seq<Visit>)
    requires vs != [] && IsJourney(vs)
    requires forall i :: 0 <= i < |vs| ==> vs[i].id != ""
    ensures |vs| <= 2
    ensures vs[0].header != "" ==> |vs| == 1
    ensures |vs| == 2 || vs[0].header != "" ==> !Handle(vs[|vs| - 1]).Forward?
    ensures |vs| == 2 ==> vs[1].header == vs[0].id
  {
    if vs[0].header != "" {
      ForwardedStays(vs[0]);
    }
    if |vs| >= 2 {
      assert Handle(vs[0]).origin == vs[0].id;
      ForwardedStays(vs[1]);
    }
  }

  /** The ids must not be empty: one node without an id, listed among its own
      peers, is enough for a journey of any length. */
  lemma {:induction false} EmptyIdBounces(n: nat) returns (vs: seq<Visit>)
    ensures |vs| == n && IsJourney(vs)
    ensures forall i :: 0 <= i < n ==> vs[i] == Visit("", "", [Peer(0, 0)], 1, Indices(0, 0))
  {
    var v := Visit("", "", [Peer(0, 0)], 1, Indices(0, 0));
    vs := seq(n, _ => v);
    PickRefusals(v.routes, v.ceiling, v.turns);
    PickIsBest(v.routes, v.ceiling, v.turns);
    assert v.routes[0].Peer?;
    assert Handle(v) == Forward(0, "");
  }
}
