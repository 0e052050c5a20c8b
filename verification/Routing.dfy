/** The route picker: the admissible routes of least load, local before peer,
    ties drawn in turn from two indices shared by every request. */
module Routing {
  import opened Common

  datatype Route = Local(backend: nat, inFlight: int) | Peer(peer: nat, inFlight: int)

  /** `Chosen` names a position in the list of routes. */
  datatype Picked = Chosen(at: nat) | NoRoute | Backpressure

  const WRAP: nat := 0x1_0000_0000_0000_0000

  /** An unsigned 64-bit counter, which wraps. */
  type Index = n: nat | n < WRAP

  /** The two round-robin indices. */
  datatype Indices = Indices(local: Index, peer: Index)

  function NextIndex(idx: Index): Index {
    if idx + 1 == WRAP then 0 else idx + 1
  }

  /** A ceiling that is not positive is no ceiling, and peers have none. */
  predicate Admissible(r: Route, ceiling: int) {
    r.Local? && ceiling > 0 ==> r.inFlight < ceiling
  }

  predicate Within(at: seq<nat>, routes: seq<Route>) {
    forall k :: 0 <= k < |at| ==> at[k] < |routes|
  }

  /** The positions below `n` whose routes may be picked, in order. */
  function AvailableBelow(routes: seq<Route>, ceiling: int, n: nat): seq<nat>
    requires n <= |routes|
  {
    if n == 0 then []
    else AvailableBelow(routes, ceiling, n - 1)
         + (if Admissible(routes[n - 1], ceiling) then [n - 1] else [])
  }

  lemma {:induction false} AvailableHolds(routes: seq<Route>, ceiling: int, n: nat)
    requires n <= |routes|
    ensures var at := AvailableBelow(routes, ceiling, n);
            && (forall k :: 0 <= k < |at| ==> at[k] < n && Admissible(routes[at[k]], ceiling))
            && Increasing(at)
  {
    if n > 0 {
      AvailableHolds(routes, ceiling, n - 1);
    }
  }

  lemma {:induction false} AvailableHasAll(routes: seq<Route>, ceiling: int, n: nat, i: nat)
    requires i < n <= |routes| && Admissible(routes[i], ceiling)
    ensures i in AvailableBelow(routes, ceiling, n)
  {
    if i < n - 1 {
      AvailableHasAll(routes, ceiling, n - 1, i);
    }
  }

  function Available(routes: seq<Route>, ceiling: int): (at: seq<nat>)
    ensures Within(at, routes)
  {
    AvailableHolds(routes, ceiling, |routes|);
    AvailableBelow(routes, ceiling, |routes|)
  }

  /** Those of the positions `at` that are tied at `load`, of one kind, in order. */
  function Ties(routes: seq<Route>, at: seq<nat>, load: int, local: bool): seq<nat>
    requires Within(at, routes)
  {
    if at == [] then []
    else
      var i := at[|at| - 1];
      Ties(routes, at[..|at| - 1], load, local)
      + (if routes[i].inFlight == load && routes[i].Local? == local then [i] else [])
  }

  lemma {:induction false} TiesHolds(routes: seq<Route>, at: seq<nat>, load: int, local: bool)
    requires Within(at, routes)
    ensures var ts := Ties(routes, at, load, local);
            && (forall k :: 0 <= k < |ts| ==>
                  ts[k] in at && routes[ts[k]].inFlight == load && routes[ts[k]].Local? == local)
            && (forall k :: 0 <= k < |at| && routes[at[k]].inFlight == load && routes[at[k]].Local? == local ==>
                  at[k] in ts)
  {
    if at != [] {
      var n := |at| - 1;
      TiesHolds(routes, at[..n], load, local);
      assert forall k :: 0 <= k < n ==> at[k] == at[..n][k];
    }
  }

  predicate Increasing(xs: seq<nat>) {
    forall k, l :: 0 <= k < l < |xs| ==> xs[k] < xs[l]
  }

  lemma {:induction false} TiesIncrease(routes: seq<Route>, at: seq<nat>, load: int, local: bool)
    requires Within(at, routes) && Increasing(at)
    ensures Increasing(Ties(routes, at, load, local))
  {
    if at != [] {
      var n := |at| - 1;
      TiesIncrease(routes, at[..n], load, local);
      TiesHolds(routes, at[..n], load, local);
    }
  }

  function LeastLoad(routes: seq<Route>, at: seq<nat>): int
    requires at != [] && Within(at, routes)
  {
    var n := |at| - 1;
    if n == 0 then routes[at[0]].inFlight
    else
      var m := LeastLoad(routes, at[..n]);
      if routes[at[n]].inFlight < m then routes[at[n]].inFlight else m
  }

  lemma {:induction false} LeastLoadIsLeast(routes: seq<Route>, at: seq<nat>)
    requires at != [] && Within(at, routes)
    ensures forall k :: 0 <= k < |at| ==> LeastLoad(routes, at) <= routes[at[k]].inFlight
    ensures exists k :: 0 <= k < |at| && routes[at[k]].inFlight == LeastLoad(routes, at)
  {
    var n := |at| - 1;
    if n > 0 {
      LeastLoadIsLeast(routes, at[..n]);
      var k :| 0 <= k < n && routes[at[..n][k]].inFlight == LeastLoad(routes, at[..n]);
      assert at[k] == at[..n][k];
    }
  }

  /** The available routes of one kind tied at the least load. */
  function Tied(routes: seq<Route>, ceiling: int, local: bool): seq<nat>
    requires Available(routes, ceiling) != []
  {
    var at := Available(routes, ceiling);
    Ties(routes, at, LeastLoad(routes, at), local)
  }

  function Pick(routes: seq<Route>, ceiling: int, idx: Indices): (Picked, Indices) {
    if routes == [] then (NoRoute, idx)
    else if Available(routes, ceiling) == [] then (Backpressure, idx)
    else
      var locals, peers := Tied(routes, ceiling, true), Tied(routes, ceiling, false);
      SomeTie(routes, ceiling);
      if |locals| == 1 then (Chosen(locals[0]), idx)
      else if |locals| > 1 then
        (Chosen(locals[idx.local % |locals|]), idx.(local := NextIndex(idx.local)))
      else if |peers| == 1 then (Chosen(peers[0]), idx)
      else (Chosen(peers[idx.peer % |peers|]), idx.(peer := NextIndex(idx.peer)))
  }

  lemma SomeTie(routes: seq<Route>, ceiling: int)
    requires Available(routes, ceiling) != []
    ensures Tied(routes, ceiling, true) != [] || Tied(routes, ceiling, false) != []
  {
    var at := Available(routes, ceiling);
    var m := LeastLoad(routes, at);
    LeastLoadIsLeast(routes, at);
    var k :| 0 <= k < |at| && routes[at[k]].inFlight == m;
    TiesHolds(routes, at, m, routes[at[k]].Local?);
    assert at[k] in Tied(routes, ceiling, routes[at[k]].Local?);
  }

  class Picker {
    var localIdx: Index
    var peerIdx: Index

    function Turn(): Indices
      reads this
    {
      Indices(localIdx, peerIdx)
    }

    method PickRoute(routes: seq<Route>, ceiling: int) returns (r: Picked)
      modifies this
      ensures (r, Turn()) == Pick(routes, ceiling, old(Turn()))
    {
      if |routes| == 0 {
        return NoRoute;
      }
      var available, least := DropFull(routes, ceiling);
      if |available| == 0 {
        return Backpressure;
      }
      var tiedLocals, tiedPeers := SplitTies(routes, available, least);
      SomeTie(routes, ceiling);
      if |tiedLocals| == 1 {
        return Chosen(tiedLocals[0]);
      }
      if |tiedLocals| > 1 {
        var turn := localIdx;
        localIdx := NextIndex(localIdx);
        return Chosen(tiedLocals[turn % |tiedLocals|]);
      }
      if |tiedPeers| == 1 {
        return Chosen(tiedPeers[0]);
      }
      var turn := peerIdx;
      peerIdx := NextIndex(peerIdx);
      return Chosen(tiedPeers[turn % |tiedPeers|]);
    }
  }

  /** The first loop of the picker: routes below the ceiling and their least load. */
  method DropFull(routes: seq<Route>, ceiling: int) returns (available: seq<nat>, least: int)
    ensures available == Available(routes, ceiling)
    ensures available != [] ==> least == LeastLoad(routes, available)
  {
    available, least := [], 0;
    for i := 0 to |routes|
      invariant available == AvailableBelow(routes, ceiling, i)
      invariant Within(available, routes)
      invariant available != [] ==> least == LeastLoad(routes, available)
    {
      LeastLoadNext(routes, available, i);
      if !(routes[i].Local? && ceiling > 0 && routes[i].inFlight >= ceiling) {
        if |available| == 0 || routes[i].inFlight < least {
          least := routes[i].inFlight;
        }
        available := available + [i];
      }
    }
  }

  lemma LeastLoadNext(routes: seq<Route>, at: seq<nat>, i: nat)
    requires Within(at, routes) && i < |routes|
    ensures Within(at + [i], routes)
    ensures LeastLoad(routes, at + [i])
         == if at == [] || routes[i].inFlight < LeastLoad(routes, at) then routes[i].inFlight
            else LeastLoad(routes, at)
  {
    assert (at + [i])[..|at|] == at;
  }

  /** The second loop: the ties at the least load, locals and peers apart. */
  method SplitTies(routes: seq<Route>, available: seq<nat>, least: int)
    returns (tiedLocals: seq<nat>, tiedPeers: seq<nat>)
    requires Within(available, routes)
    ensures tiedLocals == Ties(routes, available, least, true)
    ensures tiedPeers == Ties(routes, available, least, false)
  {
    tiedLocals, tiedPeers := [], [];
    for k := 0 to |available|
      invariant tiedLocals == Ties(routes, available[..k], least, true)
      invariant tiedPeers == Ties(routes, available[..k], least, false)
    {
      var i := available[k];
      assert available[..k + 1][..k] == available[..k];
      if routes[i].inFlight == least {
        if routes[i].Local? {
          tiedLocals := tiedLocals + [i];
        } else {
          tiedPeers := tiedPeers + [i];
        }
      }
    }
    assert available[..|available|] == available;
  }

  /** The places a burst rotates over: tied locals, or peers when there are none. */
  function Targets(routes: seq<Route>, ceiling: int): (r: seq<nat>)
    requires Available(routes, ceiling) != []
    ensures r != []
  {
    SomeTie(routes, ceiling);
    if Tied(routes, ceiling, true) != [] then Tied(routes, ceiling, true)
    else Tied(routes, ceiling, false)
  }

  /** The index that the burst draws from. */
  function Drawn(routes: seq<Route>, ceiling: int, idx: Indices): Index
    requires Available(routes, ceiling) != []
  {
    if Tied(routes, ceiling, true) != [] then idx.local else idx.peer
  }

  /** Every target attains the least load, and locals exclude peers. */
  lemma TargetIsBest(routes: seq<Route>, ceiling: int, t: nat)
    requires Available(routes, ceiling) != [] && t in Targets(routes, ceiling)
    ensures t < |routes| && Admissible(routes[t], ceiling)
    ensures forall i :: 0 <= i < |routes| && Admissible(routes[i], ceiling) ==>
              routes[t].inFlight <= routes[i].inFlight
    ensures routes[t].Local? <==>
            exists i :: 0 <= i < |routes| && routes[i].Local? && Admissible(routes[i], ceiling)
                        && routes[i].inFlight == routes[t].inFlight
  {
    AvailableHolds(routes, ceiling, |routes|);
    SomeTie(routes, ceiling);
    var at := Available(routes, ceiling);
    var m := LeastLoad(routes, at);
    LeastLoadIsLeast(routes, at);
    TiesHolds(routes, at, m, true);
    TiesHolds(routes, at, m, false);
    assert t in at && routes[t].inFlight == m;
    forall i | 0 <= i < |routes| && Admissible(routes[i], ceiling)
      ensures m <= routes[i].inFlight
      ensures routes[i].Local? && routes[i].inFlight == m ==> Tied(routes, ceiling, true) != []
    {
      AvailableHasAll(routes, ceiling, |routes|, i);
      if routes[i].Local? && routes[i].inFlight == m {
        assert i in Tied(routes, ceiling, true);
      }
    }
  }

  /** `i` is an admissible route of least load among the admissible. */
  predicate IsBest(routes: seq<Route>, ceiling: int, i: nat) {
    i < |routes| && Admissible(routes[i], ceiling)
    && forall k :: 0 <= k < |routes| && Admissible(routes[k], ceiling) ==> routes[i].inFlight <= routes[k].inFlight
  }

  lemma TiedAreBest(routes: seq<Route>, ceiling: int, local: bool, i: nat)
    requires Available(routes, ceiling) != []
    ensures i in Tied(routes, ceiling, local) <==> IsBest(routes, ceiling, i) && routes[i].Local? == local
  {
    var at := Available(routes, ceiling);
    AvailableHolds(routes, ceiling, |routes|);
    LeastLoadIsLeast(routes, at);
    TiesHolds(routes, at, LeastLoad(routes, at), local);
    forall k | 0 <= k < |routes| && Admissible(routes[k], ceiling)
      ensures k in at
    {
      AvailableHasAll(routes, ceiling, |routes|, k);
    }
  }

  /** Exactly the best routes are rotated over, local ones if there are any. */
  lemma TargetsAre(routes: seq<Route>, ceiling: int, t: nat)
    requires Available(routes, ceiling) != []
    ensures t in Targets(routes, ceiling)
            <==> IsBest(routes, ceiling, t)
                 && (routes[t].Local?
                     || forall i :: 0 <= i < |routes| && IsBest(routes, ceiling, i) ==> routes[i].Peer?)
  {
    TiedAre(routes, ceiling, true);
    TiedAre(routes, ceiling, false);
    if Tied(routes, ceiling, true) != [] {
      assert Tied(routes, ceiling, true)[0] in Tied(routes, ceiling, true);
    }
  }

  /** Refusals and the pick, in terms of the routes themselves. */
  lemma PickAmong(routes: seq<Route>, ceiling: int, idx: Indices)
    ensures var p := Pick(routes, ceiling, idx).0;
            && (p.NoRoute? <==> forall r :: r !in routes)
            && (p.Backpressure? <==>
                  (exists r :: r in routes) && ceiling > 0
                  && forall r :: r in routes ==> r.Local? && r.inFlight >= ceiling)
            && (p.Chosen? ==>
                  && p.at < |routes| && Admissible(routes[p.at], ceiling)
                  && forall r :: r in routes && Admissible(r, ceiling) ==>
                       routes[p.at].inFlight <= r.inFlight
                       && (r.Local? && routes[p.at].Peer? ==> routes[p.at].inFlight < r.inFlight))
  {
    PickRefusals(routes, ceiling, idx);
    PickIsBest(routes, ceiling, idx);
    if routes != [] {
      assert routes[0] in routes;
    }
  }

  /** At least two routes of a kind are tied at the least load. */
  ghost predicate Contested(routes: seq<Route>, ceiling: int, local: bool) {
    exists i, j :: 0 <= i < j < |routes| && IsBest(routes, ceiling, i) && IsBest(routes, ceiling, j)
                   && routes[i].Local? == local && routes[j].Local? == local
  }

  /** Some route of a kind is. */
  ghost predicate Offered(routes: seq<Route>, ceiling: int, local: bool) {
    exists i :: 0 <= i < |routes| && IsBest(routes, ceiling, i) && routes[i].Local? == local
  }

  lemma TiedAre(routes: seq<Route>, ceiling: int, local: bool)
    requires Available(routes, ceiling) != []
    ensures Increasing(Tied(routes, ceiling, local))
    ensures forall i: nat :: i in Tied(routes, ceiling, local) <==>
              IsBest(routes, ceiling, i) && routes[i].Local? == local
  {
    var at := Available(routes, ceiling);
    AvailableHolds(routes, ceiling, |routes|);
    TiesIncrease(routes, at, LeastLoad(routes, at), local);
    forall i: nat
      ensures i in Tied(routes, ceiling, local) <==> IsBest(routes, ceiling, i) && routes[i].Local? == local
    {
      TiedAreBest(routes, ceiling, local, i);
    }
  }

  /** A strictly increasing sequence has an element, or two. */
  lemma OneOrTwo(ts: seq<nat>)
    requires Increasing(ts)
    ensures |ts| >= 1 <==> exists i :: i in ts
    ensures |ts| >= 2 <==> exists i, j :: i < j && i in ts && j in ts
  {
    if |ts| >= 1 {
      assert ts[0] in ts;
    }
    if |ts| >= 2 {
      assert ts[0] < ts[1] && ts[1] in ts;
    }
  }

  lemma TiedCount(routes: seq<Route>, ceiling: int, local: bool)
    requires Available(routes, ceiling) != []
    ensures |Tied(routes, ceiling, local)| >= 1 <==> Offered(routes, ceiling, local)
    ensures |Tied(routes, ceiling, local)| >= 2 <==> Contested(routes, ceiling, local)
  {
    TiedAre(routes, ceiling, local);
    OneOrTwo(Tied(routes, ceiling, local));
  }

  lemma NoneAvailable(routes: seq<Route>, ceiling: int)
    requires Available(routes, ceiling) == []
    ensures forall i :: 0 <= i < |routes| ==> !Admissible(routes[i], ceiling)
  {
    forall i | 0 <= i < |routes|
      ensures !Admissible(routes[i], ceiling)
    {
      if Admissible(routes[i], ceiling) {
        AvailableHasAll(routes, ceiling, |routes|, i);
      }
    }
  }

  /** The next value of a 64-bit index. */
  predicate Advances(was: nat, now: nat) {
    now == if was == 0xFFFF_FFFF_FFFF_FFFF then 0 else was + 1
  }

  /** What a pick does to the indices: the local one moves on exactly if two local
      routes are tied, the peers' one exactly if no local one is best and two
      peers are, and a pick that is refused, or has one target, moves neither. */
  lemma PickMoves(routes: seq<Route>, ceiling: int, idx: Indices)
    ensures var next := Pick(routes, ceiling, idx).1;
            && (if Contested(routes, ceiling, true) then Advances(idx.local, next.local) else next.local == idx.local)
            && (if Contested(routes, ceiling, false) && !Offered(routes, ceiling, true)
                then Advances(idx.peer, next.peer) else next.peer == idx.peer)
  {
    if Available(routes, ceiling) == [] {
      NoneAvailable(routes, ceiling);
    } else {
      TiedCount(routes, ceiling, true);
      TiedCount(routes, ceiling, false);
      SomeTie(routes, ceiling);
    }
  }

  /** Picks that draw from one index leave the other alone: a pick disturbs those
      from `routes` only if it draws itself, and from the same index. */
  ghost predicate Disturbs(others: seq<Route>, routes: seq<Route>, ceiling: int) {
    if Offered(routes, ceiling, true) then Contested(others, ceiling, true)
    else Contested(others, ceiling, false) && !Offered(others, ceiling, true)
  }

  lemma DisturbsIff(others: seq<Route>, routes: seq<Route>, ceiling: int, idx: Indices)
    requires Available(routes, ceiling) != []
    ensures Drawn(routes, ceiling, Pick(others, ceiling, idx).1) != Drawn(routes, ceiling, idx)
            <==> Disturbs(others, routes, ceiling)
  {
    TiedCount(routes, ceiling, true);
    PickMoves(others, ceiling, idx);
  }

  /** One pick takes the target whose turn it is and passes the turn on; a
      single target takes no turn. */
  lemma PickTakesTurn(routes: seq<Route>, ceiling: int, idx: Indices)
    requires Available(routes, ceiling) != []
    ensures var ts, start := Targets(routes, ceiling), Drawn(routes, ceiling, idx);
            var (p, next) := Pick(routes, ceiling, idx);
            && p == Chosen(ts[start % |ts|])
            && Drawn(routes, ceiling, next) == if |ts| == 1 then start else NextIndex(start)
  {
    SomeTie(routes, ceiling);
    var ts, start := Targets(routes, ceiling), Drawn(routes, ceiling, idx);
    if |ts| == 1 {
      DivUnique(start, start, 1);
    }
  }

  /** A pick is refused for want of any route, or because every route is a
      local one at its ceiling, and for no other reason. */
  lemma PickRefusals(routes: seq<Route>, ceiling: int, idx: Indices)
    ensures var p := Pick(routes, ceiling, idx).0;
            && (p.NoRoute? <==> routes == [])
            && (p.Backpressure? <==>
                  routes != [] && ceiling > 0
                  && forall i :: 0 <= i < |routes| ==> routes[i].Local? && routes[i].inFlight >= ceiling)
  {
    var at := Available(routes, ceiling);
    if at != [] {
      AvailableHolds(routes, ceiling, |routes|);
      PickTakesTurn(routes, ceiling, idx);
      assert Admissible(routes[at[0]], ceiling);
    } else {
      forall i | 0 <= i < |routes|
        ensures !Admissible(routes[i], ceiling)
      {
        if Admissible(routes[i], ceiling) {
          AvailableHasAll(routes, ceiling, |routes|, i);
        }
      }
      assert routes != [] ==> !Admissible(routes[0], ceiling);
    }
  }

  /** A route that is picked is admissible and has the least load of all
      admissible ones, and it is a peer only if no local one has that load. */
  lemma PickIsBest(routes: seq<Route>, ceiling: int, idx: Indices)
    ensures var p := Pick(routes, ceiling, idx).0;
            p.Chosen? ==>
              && p.at < |routes|
              && Admissible(routes[p.at], ceiling)
              && (forall i :: 0 <= i < |routes| && Admissible(routes[i], ceiling) ==>
                    routes[p.at].inFlight <= routes[i].inFlight)
              && (routes[p.at].Local? <==>
                    exists i :: 0 <= i < |routes| && routes[i].Local? && Admissible(routes[i], ceiling)
                                && routes[i].inFlight == routes[p.at].inFlight)
  {
    if Available(routes, ceiling) != [] {
      PickTakesTurn(routes, ceiling, idx);
      var p := Pick(routes, ceiling, idx).0;
      TargetIsBest(routes, ceiling, p.at);
    }
  }

  /** A lone admissible route is picked, and takes no turn. */
  lemma LoneRoute(routes: seq<Route>, ceiling: int, idx: Indices)
    requires |routes| == 1 && Admissible(routes[0], ceiling)
    ensures Pick(routes, ceiling, idx) == (Chosen(0), idx)
  {
    assert AvailableBelow(routes, ceiling, 0) == [];
    var at := Available(routes, ceiling);
    assert at == [0] && at[..0] == [];
    assert Ties(routes, at[..0], routes[0].inFlight, true) == [];
    assert Ties(routes, at[..0], routes[0].inFlight, false) == [];
  }

  // ---- Turns ----

  /** How many of the `n` turns from `start` on fall on place `j` of `k`. */
  function Hits(start: nat, n: nat, k: nat, j: nat): nat
    requires k > 0
  {
    if n == 0 then 0 else Hits(start, n - 1, k, j) + (if (start + n - 1) % k == j then 1 else 0)
  }

  lemma NextTurn(x: nat, k: nat, j: nat)
    requires j < k
    ensures (x + 1 + k - 1 - j) / k == (x + k - 1 - j) / k + (if x % k == j then 1 else 0)
  {
    var q, r := x / k, x % k;
    assert x == q * k + r;
    assert (q + 1) * k == q * k + k;
    DivUnique(x + k - 1 - j, if r <= j then q else q + 1, k);
    DivUnique(x + k - j, if r < j then q else q + 1, k);
  }

  lemma {:induction false} HitsClosedForm(start: nat, n: nat, k: nat, j: nat)
    requires j < k
    ensures Hits(start, n, k, j) == (start + n + k - 1 - j) / k - (start + k - 1 - j) / k
  {
    if n > 0 {
      HitsClosedForm(start, n - 1, k, j);
      NextTurn(start + n - 1, k, j);
    }
  }

  lemma Distribute(p: nat, q: nat, k: nat)
    ensures (p + q) * k == p * k + q * k
  {
  }

  lemma Parts(a: nat, k: nat) returns (r: nat)
    requires k > 0
    ensures r < k && a == a / k * k + r && a % k == r
  {
    r := a % k;
  }

  /** The quotient of a sum, by whether the remainders carry. */
  lemma SumDiv(a: nat, b: nat, k: nat)
    requires k > 0
    ensures (a + b) / k == a / k + b / k + (if a % k + b % k < k then 0 else 1)
  {
    var r := Parts(a, k);
    var s := Parts(b, k);
    Distribute(a / k, b / k, k);
    Distribute(a / k + b / k, 1, k);
    DivUnique(a + b, a / k + b / k + (if r + s < k then 0 else 1), k);
  }

  lemma Small(r: nat, k: nat)
    requires r < k
    ensures r / k == 0 && r % k == r
  {
    DivUnique(r, 0, k);
  }

  /** Rounding up. */
  lemma CeilDiv(n: nat, k: nat)
    requires k > 0
    ensures (n + k - 1) / k == n / k + (if n % k == 0 then 0 else 1)
  {
    SumDiv(n, k - 1, k);
    Small(k - 1, k);
  }

  /** A stretch of length `n` crosses between n/k and ceil(n/k) multiples of k. */
  lemma Crossings(a: nat, n: nat, k: nat)
    requires k > 0
    ensures n / k <= (a + n) / k - a / k <= (n + k - 1) / k
  {
    SumDiv(a, n, k);
    CeilDiv(n, k);
    var r := Parts(a, k);
  }

  /** Consecutive turns give every place its even share. */
  lemma HitsBalanced(start: nat, n: nat, k: nat, j: nat)
    requires j < k
    ensures n / k <= Hits(start, n, k, j) <= (n + k - 1) / k
  {
    HitsClosedForm(start, n, k, j);
    Crossings(start + k - 1 - j, n, k);
  }

  lemma TargetsDistinct(routes: seq<Route>, ceiling: int)
    requires Available(routes, ceiling) != []
    ensures Increasing(Targets(routes, ceiling))
  {
    AvailableHolds(routes, ceiling, |routes|);
    var at := Available(routes, ceiling);
    var local := Tied(routes, ceiling, true) != [];
    TiesIncrease(routes, at, LeastLoad(routes, at), local);
  }

  function IsPick(at: nat): Picked -> bool {
    p => p == Chosen(at)
  }

  /** The value of an index after `n` draws, across at most one wrap. */
  function TurnAfter(start: nat, n: nat): nat {
    if start + n < WRAP then start + n else start + n - WRAP
  }

  /** A pick falls on place `j` exactly when its turn does. */
  lemma PickOnTurn(routes: seq<Route>, ceiling: int, idx: Indices, j: nat)
    requires Available(routes, ceiling) != [] && j < |Targets(routes, ceiling)|
    ensures var ts := Targets(routes, ceiling);
            Pick(routes, ceiling, idx).0 == Chosen(ts[j]) <==> Drawn(routes, ceiling, idx) % |ts| == j
  {
    var ts, start := Targets(routes, ceiling), Drawn(routes, ceiling, idx);
    PickTakesTurn(routes, ceiling, idx);
    TargetsDistinct(routes, ceiling);
    assert ts[start % |ts|] == ts[j] <==> start % |ts| == j;
  }

  lemma ModOne(x: nat)
    ensures x % 1 == 0
  {
  }

  /** Of `n` turns from `start`, those that fall on place `j`: up to the wrap of the
      index, and those counted from zero after it. */
  function TurnsOn(start: nat, n: nat, k: nat, j: nat): nat
    requires start < WRAP && k > 0
  {
    if start + n <= WRAP then Hits(start, n, k, j)
    else Hits(start, WRAP - start, k, j) + Hits(0, start + n - WRAP, k, j)
  }

  lemma NextTurnOn(start: nat, n: nat, k: nat, j: nat)
    requires start < WRAP && k > 0
    ensures TurnsOn(start, n + 1, k, j)
         == TurnsOn(start, n, k, j) + (if TurnAfter(start, n) % k == j then 1 else 0)
  {
    if start + n == WRAP {
      assert Hits(0, 1, k, j) == Hits(0, 0, k, j) + (if 0 % k == j then 1 else 0);
    }
  }

  /** Picks that fall on a target exactly on the turns of place `j`. */
  lemma {:induction false} TurnsHit(ps: seq<Picked>, target: nat, start: nat, k: nat, j: nat)
    requires start < WRAP && k > 0
    requires forall i :: 0 <= i < |ps| ==> (ps[i] == Chosen(target) <==> TurnAfter(start, i) % k == j)
    ensures Count(ps, IsPick(target)) == TurnsOn(start, |ps|, k, j)
  {
    if ps != [] {
      var n := |ps| - 1;
      TurnsHit(ps[..n], target, start, k, j);
      NextTurnOn(start, n, k, j);
    }
  }

  lemma OneApart(n: nat, k: nat)
    requires k > 0
    ensures (n + k - 1) / k - n / k <= 1
  {
    CeilDiv(n, k);
  }

  lemma WrapShare(start: nat, n: nat, k: nat, j: nat)
    requires start < WRAP < start + n && j < k
    ensures var m := WRAP - start;
            m / k + (n - m) / k <= TurnsOn(start, n, k, j) <= m / k + (n - m) / k + 2
  {
    var m := WRAP - start;
    HitsBalanced(start, m, k, j);
    HitsBalanced(0, n - m, k, j);
    OneApart(m, k);
    OneApart(n - m, k);
  }
}
