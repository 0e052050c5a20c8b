/** The node-local picker: the fastest idle backend while the node is lightly
    loaded, else the least loaded one, the faster of equals. */
module Balancer {
  import opened Common

  /** One backend as a pick reads it. */
  datatype Backend = Backend(healthy: bool, inFlight: int, latency: int)

  function TotalInFlight(bs: seq<Backend>): int {
    if bs == [] then 0 else TotalInFlight(bs[..|bs| - 1]) + bs[|bs| - 1].inFlight
  }

  lemma TotalOne(b: Backend)
    ensures TotalInFlight([b]) == b.inFlight
  {
    assert [b][..0] == [];
  }

  /** The load of a node is that of all its backends, healthy or not. */
  lemma {:induction false} TotalConcat(a: seq<Backend>, b: seq<Backend>)
    ensures TotalInFlight(a + b) == TotalInFlight(a) + TotalInFlight(b)
  {
    if b == [] {
      assert a + b == a;
    } else {
      var n := |b| - 1;
      assert (a + b)[..|a| + n] == a + b[..n];
      TotalConcat(a, b[..n]);
    }
  }

  predicate Eligible(b: Backend, ceiling: int) {
    b.healthy && (ceiling <= 0 || b.inFlight < ceiling)
  }

  /** Lighter, or as light and faster. */
  predicate Better(a: Backend, b: Backend) {
    a.inFlight < b.inFlight || (a.inFlight == b.inFlight && a.latency < b.latency)
  }

  /** `i` is the first of the fastest idle backends among `at`. */
  predicate IsFastestIdle(bs: seq<Backend>, at: seq<nat>, i: nat)
    requires Positions(bs, at)
  {
    i in at && i < |bs| && bs[i].inFlight == 0
    && forall k :: 0 <= k < |at| && bs[at[k]].inFlight == 0 ==>
         bs[i].latency <= bs[at[k]].latency && (at[k] < i ==> bs[i].latency < bs[at[k]].latency)
  }

  /** `i` is the first of the best loaded among `at`. */
  predicate IsLeastLoaded(bs: seq<Backend>, at: seq<nat>, i: nat)
    requires Positions(bs, at)
  {
    i in at && i < |bs|
    && forall k :: 0 <= k < |at| ==> !Better(bs[at[k]], bs[i]) && (at[k] < i ==> Better(bs[i], bs[at[k]]))
  }

  predicate Positions(bs: seq<Backend>, at: seq<nat>) {
    && (forall k :: 0 <= k < |at| ==> at[k] < |bs|)
    && (forall k, l :: 0 <= k < l < |at| ==> at[k] < at[l])
  }

  method PickIdleLowestLatency(bs: seq<Backend>, candidates: seq<nat>) returns (r: Option<nat>)
    requires Positions(bs, candidates)
    ensures r.None? <==> forall k :: 0 <= k < |candidates| ==> bs[candidates[k]].inFlight != 0
    ensures r.Some? ==> IsFastestIdle(bs, candidates, r.value)
  {
    r := None;
    for k := 0 to |candidates|
      invariant Positions(bs, candidates[..k])
      invariant r.None? <==> forall m :: 0 <= m < k ==> bs[candidates[m]].inFlight != 0
      invariant r.Some? ==> r.value in candidates[..k] && IsFastestIdle(bs, candidates[..k], r.value)
    {
      var i := candidates[k];
      assert candidates[..k + 1] == candidates[..k] + [i];
      if bs[i].inFlight == 0 {
        if r.None? || bs[i].latency < bs[r.value].latency {
          r := Some(i);
        }
      }
    }
    assert candidates[..|candidates|] == candidates;
  }

  method PickLeastLoaded(bs: seq<Backend>, candidates: seq<nat>) returns (best: nat)
    requires Positions(bs, candidates) && candidates != []
    ensures IsLeastLoaded(bs, candidates, best)
  {
    best := candidates[0];
    for k := 1 to |candidates|
      invariant Positions(bs, candidates[..k])
      invariant best in candidates[..k] && IsLeastLoaded(bs, candidates[..k], best)
    {
      var i := candidates[k];
      assert candidates[..k + 1] == candidates[..k] + [i];
      if bs[i].inFlight < bs[best].inFlight {
        best := i;
      } else if bs[i].inFlight == bs[best].inFlight && bs[i].latency < bs[best].latency {
        best := i;
      }
    }
    assert candidates[..|candidates|] == candidates;
  }

  /** On one snapshot: nothing when no backend is healthy, saturated when some are
      but all of them at the ceiling; else, below the high-load threshold, the
      fastest idle eligible backend if one is idle, and otherwise the least
      loaded eligible one, ties to the faster and then to the first. */
  method Pick(bs: seq<Backend>, highLoad: int, ceiling: int) returns (pick: Option<nat>, saturated: bool)
    ensures pick.None? && !saturated <==> forall i :: 0 <= i < |bs| ==> !bs[i].healthy
    ensures pick.None? && saturated <==>
            (exists i :: 0 <= i < |bs| && bs[i].healthy)
            && forall i :: 0 <= i < |bs| && bs[i].healthy ==> ceiling > 0 && bs[i].inFlight >= ceiling
    ensures pick.Some? ==> !saturated && pick.value < |bs| && bs[pick.value].healthy
                           && (ceiling > 0 ==> bs[pick.value].inFlight < ceiling)
    ensures var idleWins := TotalInFlight(bs) < highLoad
                            && exists i :: 0 <= i < |bs| && Eligible(bs[i], ceiling) && bs[i].inFlight == 0;
            pick.Some? ==>
              if idleWins then
                && bs[pick.value].inFlight == 0
                && forall i :: 0 <= i < |bs| && Eligible(bs[i], ceiling) && bs[i].inFlight == 0 ==>
                     bs[pick.value].latency <= bs[i].latency
                     && (i < pick.value ==> bs[pick.value].latency < bs[i].latency)
              else
                forall i :: 0 <= i < |bs| && Eligible(bs[i], ceiling) ==>
                  && bs[pick.value].inFlight <= bs[i].inFlight
                  && (bs[pick.value].inFlight == bs[i].inFlight ==>
                        bs[pick.value].latency <= bs[i].latency
                        && (i < pick.value ==> bs[pick.value].latency < bs[i].latency))
  {
    var healthy := HealthyOnes(bs);
    if |healthy| == 0 {
      return None, false;
    }
    assert healthy[0] in healthy;
    var eligible := BelowCeiling(bs, healthy, ceiling);
    if |eligible| == 0 {
      return None, true;
    }
    assert eligible[0] in eligible;
    var total := Load(bs);
    if total < highLoad {
      var idle := PickIdleLowestLatency(bs, eligible);
      if idle.Some? {
        return idle, false;
      }
    }
    var best := PickLeastLoaded(bs, eligible);
    return Some(best), false;
  }

  method HealthyOnes(bs: seq<Backend>) returns (at: seq<nat>)
    ensures Positions(bs, at)
    ensures forall j :: 0 <= j < |bs| ==> (j in at <==> bs[j].healthy)
  {
    at := [];
    for i := 0 to |bs|
      invariant Positions(bs, at) && (forall k :: 0 <= k < |at| ==> at[k] < i)
      invariant forall j :: 0 <= j < i ==> (j in at <==> bs[j].healthy)
    {
      if bs[i].healthy {
        at := at + [i];
      }
    }
  }

  method BelowCeiling(bs: seq<Backend>, among: seq<nat>, ceiling: int) returns (at: seq<nat>)
    requires Positions(bs, among)
    ensures Positions(bs, at)
    ensures forall j :: 0 <= j < |bs| ==>
              (j in at <==> j in among && (ceiling <= 0 || bs[j].inFlight < ceiling))
  {
    at := [];
    for k := 0 to |among|
      invariant Positions(bs, at) && (forall m :: 0 <= m < |at| ==> at[m] in among[..k])
      invariant forall m :: 0 <= m < k ==>
                  (among[m] in at <==> ceiling <= 0 || bs[among[m]].inFlight < ceiling)
    {
      var i := among[k];
      assert forall m :: 0 <= m < |at| ==> at[m] < i;
      if ceiling <= 0 || bs[i].inFlight < ceiling {
        at := at + [i];
      }
    }
  }

  method Load(bs: seq<Backend>) returns (n: int)
    ensures n == TotalInFlight(bs)
  {
    n := 0;
    for i := 0 to |bs|
      invariant n == TotalInFlight(bs[..i])
    {
      assert bs[..i + 1][..i] == bs[..i];
      n := n + bs[i].inFlight;
    }
    assert bs[..|bs|] == bs;
  }
}
