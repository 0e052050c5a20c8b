/** A backend's rolling latency: samples evicted lazily from the front, whose
    mean must be that of the window over everything ever recorded. */
module Latency {
  import opened Common

  datatype Sample = Sample(at: int, dur: int)

  /** Drops samples from the front as long as they lie before the cutoff. */
  function DropOlder(samples: seq<Sample>, cutoff: int): seq<Sample> {
    if samples == [] || samples[0].at >= cutoff then samples else DropOlder(samples[1..], cutoff)
  }

  /** A window that is not positive never evicts. */
  function Evict(window: int, samples: seq<Sample>, now: int): seq<Sample> {
    if window <= 0 then samples else DropOlder(samples, now - window)
  }

  function Total(samples: seq<Sample>): int {
    if samples == [] then 0 else Total(samples[..|samples| - 1]) + samples[|samples| - 1].dur
  }

  /** The mean truncated toward zero, zero when there is no sample. */
  function Mean(samples: seq<Sample>): int {
    if samples == [] then 0 else TruncDiv(Total(samples), |samples|)
  }

  lemma TotalOne(x: Sample)
    ensures Total([x]) == x.dur
  {
    assert [x][..0] == [];
  }

  lemma {:induction false} TotalConcat(a: seq<Sample>, b: seq<Sample>)
    ensures Total(a + b) == Total(a) + Total(b)
  {
    if b == [] {
      assert a + b == a;
    } else {
      var n := |b| - 1;
      assert (a + b)[..|a| + n] == a + b[..n];
      TotalConcat(a, b[..n]);
    }
  }

  lemma TruncBounds(t: int, n: nat)
    requires n > 0
    ensures t >= 0 ==> TruncDiv(t, n) * n <= t < (TruncDiv(t, n) + 1) * n
    ensures t < 0 ==> (TruncDiv(t, n) - 1) * n < t <= TruncDiv(t, n) * n
  {
    var q := (if t >= 0 then t else -t) / n;
    assert q * n <= (if t >= 0 then t else -t) < q * n + n;
    assert (q + 1) * n == q * n + n && (-q) * n == -(q * n) && (-q - 1) * n == -(q * n) - n;
  }

  class LatencyWindow {
    const window: int
    var samples: seq<Sample>

    constructor (window: int)
      ensures this.window == window && samples == []
    {
      this.window, samples := window, [];
    }

    method EvictLocked(now: int)
      modifies this
      ensures samples == Evict(window, old(samples), now)
    {
      if window <= 0 {
        return;
      }
      var cutoff := now - window;
      var i := 0;
      while i < |samples| && samples[i].at < cutoff
        invariant 0 <= i <= |samples|
        invariant DropOlder(samples[i..], cutoff) == DropOlder(samples, cutoff)
      {
        assert samples[i..][1..] == samples[i + 1..];
        i := i + 1;
      }
      if i > 0 {
        samples := samples[i..];
      }
    }

    method RecordLatency(now: int, d: int)
      modifies this
      ensures samples == Evict(window, old(samples) + [Sample(now, d)], now)
      ensures forall ops :: After(window, ops) == old(samples) ==> samples == After(window, ops + [Record(now, d)])
    {
      forall ops | After(window, ops) == samples
        ensures After(window, ops + [Record(now, d)]) == Evict(window, samples + [Sample(now, d)], now)
      {
        AfterOp(window, ops, Record(now, d));
      }
      samples := samples + [Sample(now, d)];
      EvictLocked(now);
    }

    method AvgLatency(now: int) returns (avg: int)
      modifies this
      ensures samples == Evict(window, old(samples), now)
      ensures forall ops :: After(window, ops) == old(samples) ==> samples == After(window, ops + [Read(now)])
      ensures avg == Mean(samples)
      ensures samples == [] ==> avg == 0
      ensures samples != [] && Total(samples) >= 0 ==>
                avg * |samples| <= Total(samples) < (avg + 1) * |samples|
      ensures samples != [] && Total(samples) < 0 ==>
                (avg - 1) * |samples| < Total(samples) <= avg * |samples|
    {
      forall ops | After(window, ops) == samples
        ensures After(window, ops + [Read(now)]) == Evict(window, samples, now)
      {
        AfterOp(window, ops, Read(now));
      }
      EvictLocked(now);
      if |samples| == 0 {
        return 0;
      }
      var total := 0;
      for i := 0 to |samples|
        invariant total == Total(samples[..i])
      {
        assert samples[..i + 1][..i] == samples[..i];
        total := total + samples[i].dur;
      }
      assert samples[..|samples|] == samples;
      TruncBounds(total, |samples|);
      return TruncDiv(total, |samples|);
    }
  }

  // ---- Whole histories ----

  datatype Op = Record(now: int, dur: int) | Read(now: int)

  function After(window: int, ops: seq<Op>): seq<Sample> {
    if ops == [] then []
    else
      var before := After(window, ops[..|ops| - 1]);
      match ops[|ops| - 1]
      case Record(now, d) => Evict(window, before + [Sample(now, d)], now)
      case Read(now) => Evict(window, before, now)
  }

  lemma AfterOp(window: int, ops: seq<Op>, op: Op)
    ensures op.Record? ==>
              After(window, ops + [op]) == Evict(window, After(window, ops) + [Sample(op.now, op.dur)], op.now)
    ensures op.Read? ==> After(window, ops + [op]) == Evict(window, After(window, ops), op.now)
  {
    assert (ops + [op])[..|ops|] == ops;
  }

  /** Every sample ever recorded. */
  function Recorded(ops: seq<Op>): seq<Sample> {
    if ops == [] then []
    else
      var before := Recorded(ops[..|ops| - 1]);
      match ops[|ops| - 1]
      case Record(now, d) => before + [Sample(now, d)]
      case Read(_) => before
  }

  /** The samples at or after `cutoff`, wherever they stand. */
  function Since(samples: seq<Sample>, cutoff: int): seq<Sample> {
    if samples == [] then []
    else (if samples[0].at >= cutoff then [samples[0]] else []) + Since(samples[1..], cutoff)
  }

  lemma {:induction false} SinceAppend(s: seq<Sample>, x: Sample, cutoff: int)
    ensures Since(s + [x], cutoff) == Since(s, cutoff) + (if x.at >= cutoff then [x] else [])
  {
    var tail := if x.at >= cutoff then [x] else [];
    if s == [] {
      assert s + [x] == [x] && [x][1..] == [];
    } else {
      var longer, head := s + [x], if s[0].at >= cutoff then [s[0]] else [];
      assert longer[0] == s[0] && longer[1..] == s[1..] + [x];
      SinceAppend(s[1..], x, cutoff);
      assert Since(longer, cutoff) == head + Since(longer[1..], cutoff);
      assert head + (Since(s[1..], cutoff) + tail) == (head + Since(s[1..], cutoff)) + tail;
    }
  }

  /** Dropping from the front takes nothing at or after a later cutoff. */
  lemma {:induction false} DropKeepsSince(s: seq<Sample>, cutoff: int, later: int)
    requires cutoff <= later
    ensures Since(DropOlder(s, cutoff), later) == Since(s, later)
  {
    if s != [] && s[0].at < cutoff {
      DropKeepsSince(s[1..], cutoff, later);
    }
  }

  /** No eviction of the history used a cutoff later than this one. */
  predicate CutoffsUpTo(window: int, ops: seq<Op>, cutoff: int) {
    forall i :: 0 <= i < |ops| ==> ops[i].now - window <= cutoff
  }

  /** In whatever order the clock readings arrive, eviction never takes a sample
      at or after the latest cutoff used: from there on, what is kept is what
      was recorded. */
  lemma {:induction false} NothingRecentLost(window: int, ops: seq<Op>, cutoff: int)
    requires window > 0 && CutoffsUpTo(window, ops, cutoff)
    ensures Since(After(window, ops), cutoff) == Since(Recorded(ops), cutoff)
  {
    if ops != [] {
      var n := |ops| - 1;
      var before := After(window, ops[..n]);
      NothingRecentLost(window, ops[..n], cutoff);
      match ops[n]
      case Record(now, d) =>
        SinceAppend(before, Sample(now, d), cutoff);
        SinceAppend(Recorded(ops[..n]), Sample(now, d), cutoff);
        DropKeepsSince(before + [Sample(now, d)], now - window, cutoff);
      case Read(now) =>
        DropKeepsSince(before, now - window, cutoff);
    }
  }

  /** Clock readings that never go back. */
  predicate Ordered(ops: seq<Op>) {
    forall i, j :: 0 <= i < j < |ops| ==> ops[i].now <= ops[j].now
  }

  predicate Sorted(s: seq<Sample>) {
    forall i, j :: 0 <= i < j < |s| ==> s[i].at <= s[j].at
  }

  /** Sorted, and within these bounds. */
  predicate SortedWithin(s: seq<Sample>, lo: int, hi: int) {
    Sorted(s) && forall i :: 0 <= i < |s| ==> lo <= s[i].at <= hi
  }

  lemma {:induction false} DropFromSorted(s: seq<Sample>, lo: int, cutoff: int, hi: int)
    requires SortedWithin(s, lo, hi)
    ensures SortedWithin(DropOlder(s, cutoff), cutoff, hi)
  {
    if s != [] && s[0].at < cutoff {
      DropFromSorted(s[1..], lo, cutoff, hi);
    }
  }

  /** With an ordered clock the kept samples are sorted, none of them older than
      the last cutoff, none newer than the last reading. */
  lemma {:induction false} KeptAreRecent(window: int, ops: seq<Op>)
    requires window > 0 && Ordered(ops) && ops != []
    ensures var now := ops[|ops| - 1].now;
            SortedWithin(After(window, ops), now - window, now)
  {
    var n := |ops| - 1;
    var before, now := After(window, ops[..n]), ops[n].now;
    var lo := if n > 0 then ops[n - 1].now - window else now;
    if n > 0 {
      KeptAreRecent(window, ops[..n]);
      assert ops[..n][n - 1].now <= now;
    }
    assert SortedWithin(before, lo, now);
    match ops[n]
    case Record(_, d) => DropFromSorted(before + [Sample(now, d)], lo, now - window, now);
    case Read(_) => DropFromSorted(before, lo, now - window, now);
  }

  lemma {:induction false} SinceAll(s: seq<Sample>, cutoff: int)
    requires forall i :: 0 <= i < |s| ==> s[i].at >= cutoff
    ensures Since(s, cutoff) == s
  {
    if s != [] {
      SinceAll(s[1..], cutoff);
    }
  }

  /** With an ordered clock, the average read at the end of any history is the
      truncated mean of exactly the samples ever recorded that lie in the
      window, and zero when there are none. */
  lemma AverageIsOfWindow(window: int, ops: seq<Op>)
    requires window > 0 && Ordered(ops) && ops != [] && ops[|ops| - 1].Read?
    ensures Mean(After(window, ops)) == Mean(Since(Recorded(ops), ops[|ops| - 1].now - window))
  {
    var cutoff := ops[|ops| - 1].now - window;
    NothingRecentLost(window, ops, cutoff);
    KeptAreRecent(window, ops);
    SinceAll(After(window, ops), cutoff);
  }

  // ---- Clock readings in any order ----

  /** Operation `i` recorded a sample that no cutoff used since has passed. */
  predicate Outlasts(window: int, ops: seq<Op>, i: nat)
    requires i < |ops|
  {
    ops[i].Record? && forall j :: i <= j < |ops| ==> ops[j].now - window <= ops[i].now
  }

  /** Operation `i` is the first of these; there is none if `i` is past the end. */
  predicate FirstOutlasting(window: int, ops: seq<Op>, i: nat) {
    && i <= |ops|
    && (i < |ops| ==> Outlasts(window, ops, i))
    && forall k :: 0 <= k < i ==> !Outlasts(window, ops, k)
  }

  lemma {:induction false} SomeFirst(window: int, ops: seq<Op>, n: nat) returns (i: nat)
    requires n <= |ops| && forall k :: 0 <= k < n ==> !Outlasts(window, ops, k)
    ensures FirstOutlasting(window, ops, i)
    decreases |ops| - n
  {
    i := n;
    if n < |ops| && !Outlasts(window, ops, n) {
      i := SomeFirst(window, ops, n + 1);
    }
  }

  function SampleOf(op: Op): seq<Sample> {
    if op.Record? then [Sample(op.now, op.dur)] else []
  }

  lemma {:induction false} RecordedCons(op: Op, ops: seq<Op>)
    ensures Recorded([op] + ops) == SampleOf(op) + Recorded(ops)
  {
    var all := [op] + ops;
    if ops == [] {
      assert all == [op] && all[..0] == [];
    } else {
      var n := |ops| - 1;
      assert all[..n + 1] == [op] + ops[..n] && all[n + 1] == ops[n];
      RecordedCons(op, ops[..n]);
      Assoc(SampleOf(op), Recorded(ops[..n]), SampleOf(ops[n]));
    }
  }

  /** Dropping from the samples of all operations leaves those from the first one
      that was recorded at or after the cutoff. */
  lemma {:induction false} DropRecorded(ops: seq<Op>, i: nat, cutoff: int)
    requires i <= |ops|
    requires forall k :: 0 <= k < i && ops[k].Record? ==> ops[k].now < cutoff
    requires i < |ops| ==> ops[i].Record? && ops[i].now >= cutoff
    ensures DropOlder(Recorded(ops), cutoff) == Recorded(ops[i..])
  {
    if i == 0 {
      assert ops[0..] == ops;
      if ops != [] {
        assert ops == [ops[0]] + ops[1..];
        RecordedCons(ops[0], ops[1..]);
      }
    } else {
      assert ops == [ops[0]] + ops[1..] && ops[1..][i - 1..] == ops[i..];
      RecordedCons(ops[0], ops[1..]);
      DropRecorded(ops[1..], i - 1, cutoff);
      if ops[0].Record? {
        assert Recorded(ops)[1..] == Recorded(ops[1..]);
      } else {
        assert Recorded(ops) == Recorded(ops[1..]);
      }
    }
  }

  lemma OutlastsBefore(window: int, ops: seq<Op>, i: nat)
    requires i + 1 < |ops| && Outlasts(window, ops, i)
    ensures Outlasts(window, ops[..|ops| - 1], i)
  {
  }

  /** One more operation: the first to outlast it comes at or after the first that
      outlasted the others, and its cutoff has passed all samples in between. */
  lemma FirstMovesOn(window: int, ops: seq<Op>, before: nat, i: nat)
    requires window > 0 && ops != []
    requires FirstOutlasting(window, ops[..|ops| - 1], before) && FirstOutlasting(window, ops, i)
    ensures before <= i
    ensures var cutoff := ops[|ops| - 1].now - window;
            && (forall k :: before <= k < i && ops[k].Record? ==> ops[k].now < cutoff)
            && (i < |ops| ==> ops[i].now >= cutoff)
  {
    var n := |ops| - 1;
    var cutoff := ops[n].now - window;
    if i < n {
      OutlastsBefore(window, ops, i);
    }
    forall k | before <= k < i && ops[k].Record?
      ensures ops[k].now < cutoff
    {
      assert !Outlasts(window, ops, k) && !Outlasts(window, ops, before);
      if k < n {
        assert Outlasts(window, ops[..n], before);
        assert forall j :: before <= j < n ==> ops[..n][j] == ops[j];
        assert ops[before].now < cutoff;
      }
    }
  }

  lemma DropRest(ops: seq<Op>, before: nat, i: nat, cutoff: int)
    requires before <= i <= |ops|
    requires forall k :: before <= k < i && ops[k].Record? ==> ops[k].now < cutoff
    requires i < |ops| ==> ops[i].Record? && ops[i].now >= cutoff
    ensures DropOlder(Recorded(ops[before..]), cutoff) == Recorded(ops[i..])
  {
    var rest := ops[before..];
    assert forall k :: 0 <= k < |rest| ==> rest[k] == ops[before + k];
    DropRecorded(rest, i - before, cutoff);
    assert rest[i - before..] == ops[i..];
  }

  lemma RecordedRest(ops: seq<Op>, before: nat)
    requires before < |ops|
    ensures Recorded(ops[before..]) == Recorded(ops[..|ops| - 1][before..]) + SampleOf(ops[|ops| - 1])
  {
    var rest := ops[before..];
    assert rest[..|rest| - 1] == ops[..|ops| - 1][before..] && rest[|rest| - 1] == ops[|ops| - 1];
  }

  /** A read evicts as a record does, with nothing to add. */
  lemma AfterNext(window: int, ops: seq<Op>)
    requires window > 0 && ops != []
    ensures var n := |ops| - 1;
            After(window, ops) == DropOlder(After(window, ops[..n]) + SampleOf(ops[n]), ops[n].now - window)
  {
    var before := After(window, ops[..|ops| - 1]);
    assert before + [] == before;
  }

  /** In whatever order the clock readings arrive, what is kept is exactly what
      was recorded from the first sample on that no cutoff used since it was
      recorded has passed; nothing if there is no such sample. */
  lemma {:induction false} KeptExactly(window: int, ops: seq<Op>, i: nat)
    requires window > 0 && FirstOutlasting(window, ops, i)
    ensures After(window, ops) == Recorded(ops[i..])
  {
    if ops == [] {
      assert ops[i..] == [];
    } else {
      var n := |ops| - 1;
      var before := SomeFirst(window, ops[..n], 0);
      KeptExactly(window, ops[..n], before);
      FirstMovesOn(window, ops, before, i);
      AfterNext(window, ops);
      RecordedRest(ops, before);
      DropRest(ops, before, i, ops[n].now - window);
    }
  }

  /** Without a window the average is over everything ever recorded. */
  lemma {:induction false} NoWindowKeepsAll(window: int, ops: seq<Op>)
    requires window <= 0
    ensures After(window, ops) == Recorded(ops)
  {
    if ops != [] {
      NoWindowKeepsAll(window, ops[..|ops| - 1]);
    }
  }
}
