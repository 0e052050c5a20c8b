/** The per-GPU history: one bounded ring per card and an id list kept sorted as
    cards appear, against the full log of samples ever added. */
module GpuHistory {
  import opened Common

  datatype Sample = Sample(gpuId: int, utilization: real, vramUsed: real, vramTotal: real, power: real, time: int)

  const SLOTS: nat := 720

  /** The samples of one card, in arrival order. */
  function Of(log: seq<Sample>, id: int): seq<Sample> {
    if log == [] then []
    else Of(log[..|log| - 1], id) + (if log[|log| - 1].gpuId == id then [log[|log| - 1]] else [])
  }

  /** `s` is the last sample of its card. */
  predicate IsLatest(log: seq<Sample>, id: int, s: Sample) {
    Of(log, id) != [] && s == Of(log, id)[|Of(log, id)| - 1]
  }

  predicate StrictlyIncreasing(xs: seq<int>) {
    forall i, j :: 0 <= i < j < |xs| ==> xs[i] < xs[j]
  }

  /** `xs` with `x` put in at position `i`. */
  function Placed(xs: seq<int>, i: nat, x: int): seq<int>
    requires i <= |xs|
  {
    xs[..i] + [x] + xs[i..]
  }

  lemma SwapDown(xs: seq<int>, i: nat, x: int)
    requires 0 < i <= |xs|
    ensures var ys := Placed(xs, i, x);
            ys[i - 1 := ys[i]][i := ys[i - 1]] == Placed(xs, i - 1, x)
  {
  }

  lemma PlacedSorted(xs: seq<int>, i: nat, x: int)
    requires i <= |xs| && StrictlyIncreasing(xs) && x !in xs
    requires i < |xs| ==> x < xs[i]
    requires i > 0 ==> xs[i - 1] <= x
    ensures StrictlyIncreasing(Placed(xs, i, x))
  {
    var ys := Placed(xs, i, x);
    assert i > 0 ==> xs[i - 1] in xs;
    forall k, l | 0 <= k < l < |ys|
      ensures ys[k] < ys[l]
    {
      assert ys[k] == if k < i then xs[k] else if k == i then x else xs[k - 1];
      assert ys[l] == if l < i then xs[l] else if l == i then x else xs[l - 1];
    }
  }

  lemma PlacedHolds(xs: seq<int>, i: nat, x: int)
    requires i <= |xs|
    ensures forall y :: y in Placed(xs, i, x) <==> y in xs || y == x
  {
    assert xs == xs[..i] + xs[i..];
  }

  /** Every card seen has its last samples, and only cards seen have a series. */
  ghost predicate Windows(series: map<int, seq<Sample>>, log: seq<Sample>) {
    forall id :: (id in series <==> Of(log, id) != [])
              && (id in series ==> series[id] == Last(Of(log, id), SLOTS))
  }

  lemma WindowsAdd(series: map<int, seq<Sample>>, log: seq<Sample>, s: Sample, ring: seq<Sample>)
    requires Windows(series, log)
    requires var longer := (if s.gpuId in series then series[s.gpuId] else []) + [s];
             ring == if |longer| > SLOTS then longer[|longer| - SLOTS..] else longer
    ensures Windows(series[s.gpuId := ring], log + [s])
  {
    OfAppend(log, s);
    OneWindow(series, log, s);
  }

  /** The ring of the card the sample is of. */
  lemma OneWindow(series: map<int, seq<Sample>>, log: seq<Sample>, s: Sample)
    requires Windows(series, log)
    ensures var longer := (if s.gpuId in series then series[s.gpuId] else []) + [s];
            (if |longer| > SLOTS then longer[|longer| - SLOTS..] else longer)
            == Last(Of(log, s.gpuId) + [s], SLOTS)
  {
    LastAppend(Of(log, s.gpuId), SLOTS, s);
  }

  class History {
    var series: map<int, seq<Sample>>
    var order: seq<int>
    ghost var log: seq<Sample>

    /** Each series is the last samples of its card, and the id list is the cards
        seen, in increasing order. */
    ghost predicate Valid()
      reads this
    {
      && StrictlyIncreasing(order)
      && (forall id :: id in order <==> id in series)
      && Windows(series, log)
    }

    constructor ()
      ensures Valid() && log == []
    {
      series, order, log := map[], [], [];
    }

    /** Sinks a new id to its place by swaps from the end. */
    method InsertSorted(id: int)
      requires StrictlyIncreasing(order) && id !in order
      modifies this`order
      ensures StrictlyIncreasing(order)
      ensures forall x :: x in order <==> x in old(order) || x == id
    {
      ghost var before := order;
      order := order + [id];
      var i := |order| - 1;
      while i > 0 && order[i - 1] > order[i]
        invariant 0 <= i <= |before|
        invariant order == Placed(before, i, id)
        invariant i < |before| ==> id < before[i]
      {
        SwapDown(before, i, id);
        order := order[i - 1 := order[i]][i := order[i - 1]];
        i := i - 1;
      }
      PlacedSorted(before, i, id);
      PlacedHolds(before, i, id);
    }

    method AddOne(s: Sample)
      requires Valid()
      modifies this
      ensures Valid() && log == old(log) + [s]
    {
      if s.gpuId !in series {
        InsertSorted(s.gpuId);
      }
      var held := if s.gpuId in series then series[s.gpuId] else [];
      var ring := held + [s];
      if |ring| > SLOTS {
        ring := ring[|ring| - SLOTS..];
      }
      WindowsAdd(series, log, s, ring);
      series := series[s.gpuId := ring];
      log := log + [s];
    }

    method Add(samples: seq<Sample>)
      requires Valid()
      modifies this
      ensures Valid() && log == old(log) + samples
    {
      for i := 0 to |samples|
        invariant Valid() && log == old(log) + samples[..i]
      {
        AddOne(samples[i]);
      }
    }

    /** The last sample of every card ever seen, in increasing order of its id. */
    method Latest() returns (out: seq<Sample>)
      requires Valid()
      ensures |out| == |order|
      ensures forall i :: 0 <= i < |out| ==> Newest(log, out[i])
      ensures forall i, j :: 0 <= i < j < |out| ==> out[i].gpuId < out[j].gpuId
      ensures forall k :: 0 <= k < |log| ==> exists i :: 0 <= i < |out| && out[i].gpuId == log[k].gpuId
    {
      out := [];
      for i := 0 to |order|
        invariant |out| == i
        invariant forall k :: 0 <= k < i ==> IsLatest(log, order[k], out[k])
      {
        assert order[i] in order && order[i] in series;
        var ring := series[order[i]];
        if |ring| > 0 {
          out := out + [ring[|ring| - 1]];
        }
      }
      LatestCovers(log, order, out);
    }

    method Series() returns (out: map<int, seq<Sample>>)
      requires Valid()
      ensures forall id :: id in out <==> Of(log, id) != []
      ensures forall id :: id in out ==> IsLast(out[id], Of(log, id), 720)
    {
      out := series;
      forall id | id in out
        ensures IsLast(out[id], Of(log, id), 720)
      {
        LastIs(Of(log, id), SLOTS);
      }
    }
  }

  /** `s` is in the log, and no later sample is of its card. */
  ghost predicate Newest(log: seq<Sample>, s: Sample) {
    exists k :: 0 <= k < |log| && log[k] == s && forall l :: k < l < |log| ==> log[l].gpuId != s.gpuId
  }

  lemma {:induction false} LatestAt(log: seq<Sample>, id: int, s: Sample) returns (k: nat)
    requires IsLatest(log, id, s)
    ensures k < |log| && log[k] == s && s.gpuId == id && forall l :: k < l < |log| ==> log[l].gpuId != id
  {
    k := |log| - 1;
    if log[k].gpuId != id {
      k := LatestAt(log[..k], id, s);
    }
  }

  lemma LatestIsNewest(log: seq<Sample>, id: int, s: Sample)
    requires IsLatest(log, id, s)
    ensures Newest(log, s) && s.gpuId == id
  {
    var k := LatestAt(log, id, s);
  }

  /** The last samples of all cards seen, card by card. */
  lemma LatestCovers(log: seq<Sample>, order: seq<int>, out: seq<Sample>)
    requires |out| == |order| && forall id :: Of(log, id) != [] ==> id in order
    requires forall i :: 0 <= i < |out| ==> IsLatest(log, order[i], out[i])
    ensures forall i :: 0 <= i < |out| ==> out[i].gpuId == order[i] && Newest(log, out[i])
    ensures forall k :: 0 <= k < |log| ==> exists i :: 0 <= i < |out| && out[i].gpuId == log[k].gpuId
  {
    forall i | 0 <= i < |out|
      ensures out[i].gpuId == order[i] && Newest(log, out[i])
    {
      LatestIsNewest(log, order[i], out[i]);
    }
    forall k | 0 <= k < |log|
      ensures exists i :: 0 <= i < |out| && out[i].gpuId == log[k].gpuId
    {
      OfHolds(log, log[k].gpuId);
      SomePosition(order, log[k].gpuId);
    }
  }

  lemma SomePosition(xs: seq<int>, x: int)
    requires x in xs
    ensures exists i :: 0 <= i < |xs| && xs[i] == x
  {
  }

  function IsOf(id: int): Sample -> bool {
    (s: Sample) => s.gpuId == id
  }

  /** The samples of a card are those of the log with its id, all of them, each in
      the place after the earlier ones. */
  lemma {:induction false} OfExact(log: seq<Sample>, id: int)
    ensures |Of(log, id)| == Count(log, IsOf(id))
    ensures forall k :: 0 <= k < |log| && log[k].gpuId == id ==>
              Count(log[..k], IsOf(id)) < |Of(log, id)| && Of(log, id)[Count(log[..k], IsOf(id))] == log[k]
  {
    if log != [] {
      var n := |log| - 1;
      var before := log[..n];
      OfExact(before, id);
      forall k | 0 <= k < |log| && log[k].gpuId == id
        ensures Count(log[..k], IsOf(id)) < |Of(log, id)| && Of(log, id)[Count(log[..k], IsOf(id))] == log[k]
      {
        if k < n {
          assert before[..k] == log[..k] && before[k] == log[k];
        }
      }
    }
  }

  lemma OfAppend(log: seq<Sample>, s: Sample)
    ensures forall id :: Of(log + [s], id) == Of(log, id) + (if id == s.gpuId then [s] else [])
  {
    assert (log + [s])[..|log|] == log;
  }

  lemma {:induction false} OfHolds(log: seq<Sample>, id: int)
    ensures forall i :: 0 <= i < |Of(log, id)| ==> Of(log, id)[i].gpuId == id
    ensures forall k :: 0 <= k < |log| && log[k].gpuId == id ==> Of(log, id) != []
  {
    if log != [] {
      OfHolds(log[..|log| - 1], id);
    }
  }
}
