/** The host-memory figure of the push stream: rounded down to a step, and held
    until the reading has moved a full step away from it. */
module Deadband {
  import opened Common

  const BUCKETS := 64

  function Abs(v: int): nat {
    if v < 0 then -v else v
  }

  /** How far apart two readings are. */
  function Gap(a: int, b: int): nat {
    Abs(b - a)
  }

  function Coarsen(prev: int, total: int, used: int): int {
    if total <= 0 then used
    else
      var step := total / BUCKETS;
      if step <= 0 then used
      else if prev != 0 && Abs(used - prev) < step then prev
      else TruncDiv(used, step) * step
  }

  /** The figure published after the first `n` readings of a connection. */
  function Published(total: int, used: seq<nat>, n: nat): int
    requires n <= |used|
  {
    if n == 0 then 0 else Coarsen(Published(total, used, n - 1), total, used[n - 1])
  }

  /** The published figure changed at reading `i`. */
  predicate ChangesAt(total: int, used: seq<nat>, i: nat)
    requires i < |used|
  {
    Published(total, used, i + 1) != Published(total, used, i)
  }

  function Changes(total: int, used: seq<nat>, n: nat): (c: nat)
    requires n <= |used|
    ensures c <= n
  {
    if n == 0 then 0
    else Changes(total, used, n - 1) + (if ChangesAt(total, used, n - 1) then 1 else 0)
  }

  /** Total variation of the readings from position `i` to position `j`. */
  function Variation(used: seq<nat>, i: nat, j: nat): nat
    requires i <= j < |used|
  {
    if i == j then 0 else Variation(used, i, j - 1) + Gap(used[j - 1], used[j])
  }

  lemma {:induction false} VariationSplits(used: seq<nat>, i: nat, j: nat, k: nat)
    requires i <= j <= k < |used|
    ensures Variation(used, i, k) == Variation(used, i, j) + Variation(used, j, k)
  {
    if j < k {
      VariationSplits(used, i, j, k - 1);
    }
  }

  lemma {:induction false} VariationBounds(used: seq<nat>, i: nat, j: nat)
    requires i <= j < |used|
    ensures Gap(used[i], used[j]) <= Variation(used, i, j)
  {
    if i < j {
      VariationBounds(used, i, j - 1);
    }
  }

  /** A whole number of steps, counted down to zero. */
  predicate OnStep(p: nat, step: nat)
    requires step > 0
  {
    p == 0 || (p >= step && OnStep(p - step, step))
  }

  lemma {:induction false} MultipleOnStep(q: nat, step: nat)
    requires step > 0
    ensures OnStep(q * step, step)
  {
    if q > 0 {
      MultipleOnStep(q - 1, step);
      assert q * step == (q - 1) * step + step;
    }
  }

  lemma FloorStep(u: nat, step: nat)
    requires step > 0
    ensures u / step * step <= u < u / step * step + step
    ensures OnStep(u / step * step, step)
  {
    MultipleOnStep(u / step, step);
  }

  lemma CoarsenedNear(prev: nat, total: int, used: nat)
    requires total >= BUCKETS && OnStep(prev, total / BUCKETS)
    ensures var p, step := Coarsen(prev, total, used), total / BUCKETS;
            p >= 0 && OnStep(p, step) && Gap(p, used) < step
  {
    FloorStep(used, total / BUCKETS);
  }

  /** The published figure is always a whole number of steps, and strictly less
      than one step from the reading it was published for. */
  lemma {:induction false} PublishedNearReading(total: int, used: seq<nat>, n: nat)
    requires total >= 64 && n <= |used|
    ensures var p, step := Published(total, used, n), total / 64;
            p >= 0 && OnStep(p, step) && (n > 0 ==> Gap(p, used[n - 1]) < step)
  {
    if n == 0 {
      FloorStep(0, total / BUCKETS);
    } else {
      PublishedNearReading(total, used, n - 1);
      CoarsenedNear(Published(total, used, n - 1), total, used[n - 1]);
    }
  }

  /** A reading that changes the figure is rounded down. */
  lemma ChangeRoundsDown(total: int, used: seq<nat>, i: nat)
    requires total >= BUCKETS && i < |used| && ChangesAt(total, used, i)
    ensures var p, step := Published(total, used, i + 1), total / BUCKETS;
            p <= used[i] < p + step
  {
    FloorStep(used[i], total / BUCKETS);
  }

  lemma {:induction false} HeldBetween(total: int, used: seq<nat>, i: nat, j: nat)
    requires i <= j <= |used|
    requires forall k :: i <= k < j ==> !ChangesAt(total, used, k)
    ensures Published(total, used, j) == Published(total, used, i)
  {
    if i < j {
      HeldBetween(total, used, i, j - 1);
      assert !ChangesAt(total, used, j - 1);
    }
  }

  lemma {:induction false} StepApart(p: nat, q: nat, step: nat)
    requires step > 0 && OnStep(p, step) && OnStep(q, step) && p < q
    ensures q >= p + step
  {
    if p > 0 {
      StepApart(p - step, q - step, step);
    }
  }

  /** A change upwards is by a step or more, and one downwards takes a reading a
      full step below the figure. */
  lemma ChangeMoves(total: int, used: seq<nat>, i: nat)
    requires total >= BUCKETS && i < |used| && ChangesAt(total, used, i)
    ensures var p, q, step := Published(total, used, i), Published(total, used, i + 1), total / BUCKETS;
            && q <= used[i] < q + step
            && (if q > p then q >= p + step else used[i] + step <= p)
  {
    PublishedNearReading(total, used, i);
    PublishedNearReading(total, used, i + 1);
    ChangeRoundsDown(total, used, i);
    var p, q := Published(total, used, i), Published(total, used, i + 1);
    if q > p {
      StepApart(p, q, total / BUCKETS);
    }
  }

  /** From one change to the second change after it the reading must have moved
      by a full step in all. */
  lemma TwoChangesCostAStep(total: int, used: seq<nat>, i: nat, j: nat, k: nat)
    requires total >= BUCKETS && i < j < k < |used|
    requires ChangesAt(total, used, i) && ChangesAt(total, used, j) && ChangesAt(total, used, k)
    requires forall m :: i < m < j || j < m < k ==> !ChangesAt(total, used, m)
    ensures Variation(used, i, k) >= total / BUCKETS
  {
    ChangeRoundsDown(total, used, i);
    HeldBetween(total, used, i + 1, j);
    ChangeMoves(total, used, j);
    HeldBetween(total, used, j + 1, k);
    ChangeMoves(total, used, k);
    VariationSplits(used, i, j, k);
    VariationBounds(used, i, j);
    VariationBounds(used, j, k);
  }

  lemma {:induction false} LastChange(total: int, used: seq<nat>, n: nat) returns (i: nat)
    requires n <= |used| && Changes(total, used, n) > 0
    ensures i < n && ChangesAt(total, used, i)
    ensures Changes(total, used, i) == Changes(total, used, n) - 1
    ensures forall m :: i < m < n ==> !ChangesAt(total, used, m)
  {
    if ChangesAt(total, used, n - 1) {
      i := n - 1;
    } else {
      i := LastChange(total, used, n - 1);
    }
  }

  lemma OneMorePair(step: nat, c: nat)
    requires c >= 3
    ensures step * ((c - 1) / 2) == step * ((c - 3) / 2) + step
  {
    assert (c - 1) / 2 == (c - 3) / 2 + 1;
  }

  /** Pushes are paid for by movement: `c` changes of the published figure take
      a total variation of at least a step for every two after the first. */
  lemma {:induction false} ChangesCost(total: int, used: seq<nat>, n: nat)
    requires total >= BUCKETS && 0 < n <= |used| && Changes(total, used, n) > 0
    ensures Variation(used, 0, n - 1) >= (total / BUCKETS) * ((Changes(total, used, n) - 1) / 2)
  {
    var step, c := total / BUCKETS, Changes(total, used, n);
    if c >= 3 {
      var k := LastChange(total, used, n);
      var j := LastChange(total, used, k);
      var i := LastChange(total, used, j);
      assert Changes(total, used, i + 1) == c - 2;
      ChangesCost(total, used, i + 1);
      TwoChangesCostAStep(total, used, i, j, k);
      VariationSplits(used, 0, i, k);
      VariationSplits(used, 0, k, n - 1);
      OneMorePair(step, c);
    }
  }

  /** An exact figure needs no such movement: when the memory is too small for a
      step every different reading is published. */
  lemma TooSmallToCoarsen(total: int, used: seq<nat>, n: nat)
    requires total < 64 && 0 < n <= |used|
    ensures Published(total, used, n) == used[n - 1]
  {
  }

  // ---- The push stream ----

  /** What a snapshot says besides the memory figure, and that figure. */
  datatype Snapshot = Snapshot(rest: string, total: int, used: int)

  /** One viewer's connection: the last figure published and the last snapshot
      pushed. */
  class SnapshotStream {
    var lastMem: int
    var lastSnapshot: Option<Snapshot>

    constructor ()
      ensures lastMem == 0 && lastSnapshot == None
    {
      lastMem, lastSnapshot := 0, None;
    }

    /** Pushes the coarsened snapshot if it differs from the last one pushed. */
    method PushSnapshot(state: Snapshot) returns (sent: Option<Snapshot>)
      modifies this
      ensures lastMem == Coarsen(old(lastMem), state.total, state.used)
      ensures lastSnapshot == Some(state.(used := lastMem))
      ensures sent == if lastSnapshot == old(lastSnapshot) then None else lastSnapshot
    {
      lastMem := Coarsen(lastMem, state.total, state.used);
      var coarse := state.(used := lastMem);
      if lastSnapshot == Some(coarse) {
        return None;
      }
      lastSnapshot := Some(coarse);
      return lastSnapshot;
    }
  }

  /** A connection on which nothing but the memory reading changes: the pushes
      it makes are the first snapshot and one for each change of the figure after
      it, and they cost the reading a step's movement for every two. */
  method QuietStream(rest: string, total: int, used: seq<nat>) returns (pushes: nat)
    requires total >= BUCKETS && used != []
    ensures pushes == 1 + Changes(total, used, |used|) - Changes(total, used, 1)
    ensures pushes >= 2 ==> Variation(used, 0, |used| - 1) >= (total / BUCKETS) * ((pushes - 2) / 2)
  {
    var stream := new SnapshotStream();
    pushes := 0;
    for n := 0 to |used|
      invariant stream.lastMem == Published(total, used, n)
      invariant stream.lastSnapshot == if n == 0 then None else Some(Snapshot(rest, total, stream.lastMem))
      invariant pushes == if n == 0 then 0 else 1 + Changes(total, used, n) - Changes(total, used, 1)
    {
      var sent := stream.PushSnapshot(Snapshot(rest, total, used[n]));
      if sent.Some? {
        pushes := pushes + 1;
      }
    }
    var c := Changes(total, used, |used|);
    if pushes >= 2 {
      ChangesCost(total, used, |used|);
      ScaleUp(total / BUCKETS, (pushes - 2) / 2, (c - 1) / 2);
    }
  }

  lemma ScaleUp(step: nat, a: nat, b: nat)
    requires a <= b
    ensures step * a <= step * b
  {
  }
}
