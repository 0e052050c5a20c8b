/** The prompt store: the last requests' prompts and answers, an answer joining
    its prompt's entry as long as that entry has not been evicted. */
module Prompts {
  import opened Common
  import opened ActivityLog

  datatype Entry = Entry(id: int, time: int, model: string, prompt: string, output: string, elapsedMs: int)

  const DEFAULT_PROMPTS: nat := 1000
  const MAX_CHARS: nat := 50000

  function Truncate(s: string): (r: string)
    ensures r <= s && |r| == Min(50000, |s|)
  {
    if |s| <= MAX_CHARS then s else s[..MAX_CHARS]
  }

  /** The position of the newest entry of a request, or the store's length. */
  function Find(entries: seq<Entry>, id: int): (at: nat)
    ensures at <= |entries|
    ensures at < |entries| ==> entries[at].id == id && forall k :: at < k < |entries| ==> entries[k].id != id
    ensures at == |entries| ==> forall k :: 0 <= k < |entries| ==> entries[k].id != id
  {
    if entries == [] then 0
    else
      var n := |entries| - 1;
      if entries[n].id == id then n
      else
        var at := Find(entries[..n], id);
        if at == n then n + 1 else at
  }

  datatype Op =
    | Put(id: int, time: int, model: string, prompt: string)
    | Answer(id: int, time: int, model: string, output: string, elapsedMs: int)

  function Apply(max: nat, entries: seq<Entry>, op: Op): seq<Entry> {
    match op
    case Put(id, t, m, prompt) =>
      if prompt == "" then entries
      else Push(entries, max, Entry(id, t, m, Truncate(prompt), "", 0))
    case Answer(id, t, m, output, ms) =>
      if output == "" then entries
      else
        var at := Find(entries, id);
        if at < |entries| then entries[at := entries[at].(output := Truncate(output), elapsedMs := ms)]
        else Push(entries, max, Entry(id, t, m, "", Truncate(output), ms))
  }

  function Lookup(entries: seq<Entry>, id: int): Option<Entry> {
    var at := Find(entries, id);
    if at < |entries| then Some(entries[at]) else None
  }

  class PromptStore {
    const max: nat
    var entries: seq<Entry>

    constructor (max: int)
      ensures this.max == (if max < 1 then 1000 else max) && entries == []
    {
      this.max := if max < 1 then DEFAULT_PROMPTS else max;
      entries := [];
    }

    method Append(e: Entry)
      modifies this
      ensures entries == Push(old(entries), max, e)
    {
      entries := entries + [e];
      if |entries| > max {
        entries := entries[|entries| - max..];
      }
    }

    method Store(id: int, time: int, model: string, prompt: string)
      modifies this
      ensures entries == Apply(max, old(entries), Put(id, time, model, prompt))
      ensures forall ops :: After(max, ops) == old(entries) ==>
                entries == After(max, ops + [Put(id, time, model, prompt)])
    {
      AfterNext(max, entries, Put(id, time, model, prompt));
      if prompt == "" {
        return;
      }
      Append(Entry(id, time, model, Truncate(prompt), "", 0));
    }

    /** The backward search shared by answers and look-ups. */
    method Search(id: int) returns (at: nat)
      ensures at == Find(entries, id)
    {
      var i := |entries|;
      while i > 0
        invariant 0 <= i <= |entries|
        invariant forall k :: i <= k < |entries| ==> entries[k].id != id
      {
        i := i - 1;
        if entries[i].id == id {
          return i;
        }
      }
      return |entries|;
    }

    method StoreOutput(id: int, time: int, model: string, output: string, elapsedMs: int)
      modifies this
      ensures entries == Apply(max, old(entries), Answer(id, time, model, output, elapsedMs))
      ensures forall ops :: After(max, ops) == old(entries) ==>
                entries == After(max, ops + [Answer(id, time, model, output, elapsedMs)])
    {
      AfterNext(max, entries, Answer(id, time, model, output, elapsedMs));
      if output == "" {
        return;
      }
      var at := Search(id);
      if at < |entries| {
        entries := entries[at := entries[at].(output := Truncate(output), elapsedMs := elapsedMs)];
        return;
      }
      Append(Entry(id, time, model, "", Truncate(output), elapsedMs));
    }

    /** Found if and only if some entry has the id, and then the newest of them. */
    method Get(id: int) returns (r: Option<Entry>)
      ensures r == Lookup(entries, id)
      ensures r.Some? <==> exists k :: 0 <= k < |entries| && entries[k].id == id
      ensures r.Some? ==> exists k :: 0 <= k < |entries| && entries[k] == r.value && r.value.id == id
                                      && forall l :: k < l < |entries| ==> entries[l].id != id
    {
      var at := Search(id);
      return if at < |entries| then Some(entries[at]) else None;
    }
  }

  // ---- Whole histories ----

  function After(max: nat, ops: seq<Op>): seq<Entry> {
    if ops == [] then [] else Apply(max, After(max, ops[..|ops| - 1]), ops[|ops| - 1])
  }

  lemma AfterNext(max: nat, entries: seq<Entry>, op: Op)
    ensures forall ops :: After(max, ops) == entries ==> After(max, ops + [op]) == Apply(max, entries, op)
  {
    forall ops | After(max, ops) == entries
      ensures After(max, ops + [op]) == Apply(max, entries, op)
    {
      assert (ops + [op])[..|ops|] == ops;
    }
  }

  /** Operation `i` of the history put a new entry into the store. */
  predicate AppendsAt(max: nat, ops: seq<Op>, i: nat)
    requires i < |ops|
  {
    match ops[i]
    case Put(_, _, _, prompt) => prompt != ""
    case Answer(id, _, _, output, _) =>
      output != "" && Find(After(max, ops[..i]), id) == |After(max, ops[..i])|
  }

  /** The operations among the first `n` that appended, in order. */
  function Appended(max: nat, ops: seq<Op>, n: nat): seq<nat>
    requires n <= |ops|
  {
    if n == 0 then []
    else Appended(max, ops, n - 1) + (if AppendsAt(max, ops, n - 1) then [n - 1] else [])
  }

  /** The answer stored for a request among operations `from` to `n`, and how
      long it took. */
  function AnswerIn(ops: seq<Op>, id: int, from: nat, n: nat): (string, int)
    requires n <= |ops|
  {
    if n <= from then ("", 0)
    else if ops[n - 1].Answer? && ops[n - 1].id == id && ops[n - 1].output != ""
    then (Truncate(ops[n - 1].output), ops[n - 1].elapsedMs)
    else AnswerIn(ops, id, from, n - 1)
  }

  /** Each request is stored at most once, answered at most once, in that order. */
  predicate WellUsed(ops: seq<Op>) {
    forall i, j :: 0 <= i < j < |ops| && ops[i].id == ops[j].id ==> ops[i].Put? && ops[j].Answer?
  }

  /** What the store holds for the operation that appended an entry. */
  predicate Holds(ops: seq<Op>, n: nat, i: nat, e: Entry)
    requires i < n <= |ops|
  {
    && e.id == ops[i].id
    && match ops[i]
       case Put(id, t, m, prompt) =>
         && e.prompt == Truncate(prompt) && e.time == t && e.model == m
         && (e.output, e.elapsedMs) == AnswerIn(ops, id, i + 1, n)
       case Answer(_, t, m, output, ms) =>
         e.prompt == "" && e.output == Truncate(output) && e.time == t && e.model == m && e.elapsedMs == ms
  }

  /** Each entry is as its operation, and an answer since, left it. */
  ghost predicate Corresponds(ops: seq<Op>, n: nat, entries: seq<Entry>, from: seq<nat>)
    requires n <= |ops|
  {
    && |entries| == |from|
    && (forall k :: 0 <= k < |from| ==> from[k] < n && Holds(ops, n, from[k], entries[k]))
    && (forall k, l :: 0 <= k < l < |from| ==> from[k] < from[l])
  }

  lemma SuffixCorresponds(ops: seq<Op>, n: nat, entries: seq<Entry>, from: seq<nat>, d: nat)
    requires n <= |ops| && Corresponds(ops, n, entries, from) && d <= |from|
    ensures Corresponds(ops, n, entries[d..], from[d..])
  {
    forall k | 0 <= k < |from| - d
      ensures from[d..][k] < n && Holds(ops, n, from[d..][k], entries[d..][k])
    {
      assert from[d..][k] == from[d + k] && entries[d..][k] == entries[d + k];
    }
  }

  lemma LastCorresponds(max: nat, ops: seq<Op>, n: nat, entries: seq<Entry>, from: seq<nat>)
    requires n <= |ops| && Corresponds(ops, n, entries, from)
    ensures Corresponds(ops, n, Last(entries, max), Last(from, max))
  {
    var d := if |from| > max then |from| - max else 0;
    SuffixCorresponds(ops, n, entries, from, d);
    assert Last(entries, max) == entries[d..] && Last(from, max) == from[d..];
  }

  lemma GrownCorresponds(ops: seq<Op>, n: nat, entries: seq<Entry>, from: seq<nat>, e: Entry)
    requires n < |ops| && Corresponds(ops, n, entries, from) && Holds(ops, n + 1, n, e)
    requires ops[n].Answer? ==> forall k :: 0 <= k < |entries| ==> entries[k].id != ops[n].id
    ensures Corresponds(ops, n + 1, entries + [e], from + [n])
  {
  }

  lemma AppendCorresponds(max: nat, ops: seq<Op>, n: nat, entries: seq<Entry>, from: seq<nat>, e: Entry)
    requires max > 0 && n < |ops| && Corresponds(ops, n, entries, from) && Holds(ops, n + 1, n, e)
    requires ops[n].Answer? ==> forall k :: 0 <= k < |entries| ==> entries[k].id != ops[n].id
    ensures Corresponds(ops, n + 1, Push(entries, max, e), Last(from + [n], max))
  {
    GrownCorresponds(ops, n, entries, from, e);
    LastCorresponds(max, ops, n + 1, entries + [e], from + [n]);
  }

  lemma AnswerCorresponds(ops: seq<Op>, n: nat, entries: seq<Entry>, from: seq<nat>, at: nat, e: Entry)
    requires n < |ops| && WellUsed(ops) && Corresponds(ops, n, entries, from)
    requires ops[n].Answer? && ops[n].output != "" && at < |entries| && entries[at].id == ops[n].id
    requires e == entries[at].(output := Truncate(ops[n].output), elapsedMs := ops[n].elapsedMs)
    ensures Corresponds(ops, n + 1, entries[at := e], from)
  {
  }

  lemma IdleCorresponds(ops: seq<Op>, n: nat, entries: seq<Entry>, from: seq<nat>)
    requires n < |ops| && Corresponds(ops, n, entries, from)
    requires ops[n].Answer? ==> ops[n].output == ""
    ensures Corresponds(ops, n + 1, entries, from)
  {
  }

  function Window(max: nat, ops: seq<Op>, n: nat): seq<nat>
    requires n <= |ops|
  {
    Last(Appended(max, ops, n), max)
  }

  lemma WindowNext(max: nat, ops: seq<Op>, n: nat)
    requires max > 0 && n < |ops|
    ensures After(max, ops[..n + 1]) == Apply(max, After(max, ops[..n]), ops[n])
    ensures Window(max, ops, n + 1)
         == if AppendsAt(max, ops, n) then Last(Window(max, ops, n) + [n], max) else Window(max, ops, n)
  {
    assert ops[..n + 1][..n] == ops[..n];
    LastAppend(Appended(max, ops, n), max, n);
  }

  /** The store is the last `max` appends, each as its operation and a later
      answer left it. */
  lemma {:induction false} StoreMatches(max: nat, ops: seq<Op>, n: nat)
    requires max > 0 && WellUsed(ops) && n <= |ops|
    ensures Corresponds(ops, n, After(max, ops[..n]), Window(max, ops, n))
  {
    if n > 0 {
      var m := n - 1;
      StoreMatches(max, ops, m);
      WindowNext(max, ops, m);
      var entries, from := After(max, ops[..m]), Window(max, ops, m);
      match ops[m]
      case Put(id, t, model, prompt) =>
        if prompt != "" {
          AppendCorresponds(max, ops, m, entries, from, Entry(id, t, model, Truncate(prompt), "", 0));
        } else {
          IdleCorresponds(ops, m, entries, from);
        }
      case Answer(id, t, model, output, ms) =>
        var at := Find(entries, id);
        if output == "" {
          IdleCorresponds(ops, m, entries, from);
        } else if at < |entries| {
          AnswerCorresponds(ops, m, entries, from, at,
                            entries[at].(output := Truncate(output), elapsedMs := ms));
        } else {
          AppendCorresponds(max, ops, m, entries, from, Entry(id, t, model, "", Truncate(output), ms));
        }
    }
  }

  lemma {:induction false} AppendedIncreases(max: nat, ops: seq<Op>, n: nat)
    requires n <= |ops|
    ensures forall k :: 0 <= k < |Appended(max, ops, n)| ==> Appended(max, ops, n)[k] < n
    ensures forall k :: 0 <= k < |Appended(max, ops, n)| ==> AppendsAt(max, ops, Appended(max, ops, n)[k])
    ensures forall k, l :: 0 <= k < l < |Appended(max, ops, n)| ==>
              Appended(max, ops, n)[k] < Appended(max, ops, n)[l]
  {
    if n > 0 {
      AppendedIncreases(max, ops, n - 1);
      var before, all := Appended(max, ops, n - 1), Appended(max, ops, n);
      assert forall k :: 0 <= k < |before| ==> all[k] == before[k];
      assert |all| > |before| ==> all[|before|] == n - 1 && |all| == |before| + 1;
    }
  }

  /** Appends after operation `i`. */
  function AppendsAfter(max: nat, ops: seq<Op>, i: nat): int
    requires i < |ops|
  {
    |Appended(max, ops, |ops|)| - |Appended(max, ops, i + 1)|
  }

  lemma {:induction false} AppendedPrefix(max: nat, ops: seq<Op>, m: nat, n: nat)
    requires m <= n <= |ops|
    ensures Appended(max, ops, m) <= Appended(max, ops, n)
  {
    if m < n {
      AppendedPrefix(max, ops, m, n - 1);
    }
  }

  /** Where an appending operation stands among all appends. */
  lemma AppendPosition(max: nat, ops: seq<Op>, i: nat, n: nat)
    requires i < n <= |ops| && AppendsAt(max, ops, i)
    ensures var p, all := |Appended(max, ops, i)|, Appended(max, ops, n);
            p < |all| && all[p] == i && |Appended(max, ops, i + 1)| == p + 1
  {
    AppendedPrefix(max, ops, i + 1, n);
  }

  /** Of an increasing sequence, exactly the last elements are in the window. */
  lemma InLast(all: seq<nat>, max: nat, p: nat)
    requires p < |all| && forall k, l :: 0 <= k < l < |all| ==> all[k] < all[l]
    ensures all[p] in Last(all, max) <==> |all| - p <= max
  {
    var window := Last(all, max);
    var cut := |all| - |window|;
    if p >= cut {
      assert window[p - cut] == all[p];
    } else {
      forall k | 0 <= k < |window|
        ensures window[k] != all[p]
      {
        assert window[k] == all[cut + k];
      }
    }
  }

  /** An append is in the window at `n` exactly when fewer than `max` followed it. */
  lemma InWindow(max: nat, ops: seq<Op>, i: nat, n: nat)
    requires max > 0 && i < n <= |ops| && AppendsAt(max, ops, i)
    ensures i in Window(max, ops, n) <==> |Appended(max, ops, n)| - |Appended(max, ops, i + 1)| < max
  {
    AppendPosition(max, ops, i, n);
    AppendedIncreases(max, ops, n);
    InLast(Appended(max, ops, n), max, |Appended(max, ops, i)|);
  }

  /** An append in the window at the end was in it ever since. */
  lemma InWindowBefore(max: nat, ops: seq<Op>, i: nat, m: nat, n: nat)
    requires max > 0 && i < m <= n <= |ops| && AppendsAt(max, ops, i)
    requires i in Window(max, ops, n)
    ensures i in Window(max, ops, m)
  {
    InWindow(max, ops, i, m);
    InWindow(max, ops, i, n);
    AppendedPrefix(max, ops, m, n);
  }

  /** Two appends of one request are never in the window together: an answer
      joins the entry of its request as long as there is one. */
  lemma AnswerJoins(max: nat, ops: seq<Op>, i: nat, j: nat)
    requires max > 0 && WellUsed(ops) && i < j < |ops|
    requires AppendsAt(max, ops, i) && AppendsAt(max, ops, j) && i in Window(max, ops, |ops|)
    ensures ops[i].id != ops[j].id
  {
    InWindowBefore(max, ops, i, j, |ops|);
    StoreMatches(max, ops, j);
    var k :| 0 <= k < |Window(max, ops, j)| && Window(max, ops, j)[k] == i;
    assert Holds(ops, j, i, After(max, ops[..j])[k]);
  }

  lemma WindowAppends(max: nat, ops: seq<Op>, n: nat, k: nat)
    requires n <= |ops| && k < |Window(max, ops, n)|
    ensures Window(max, ops, n)[k] < n && AppendsAt(max, ops, Window(max, ops, n)[k])
  {
    AppendedIncreases(max, ops, n);
    var all, window := Appended(max, ops, n), Window(max, ops, n);
    assert window[k] == all[|all| - |window| + k];
  }

  /** A request has at most one entry, and the store as many as there were
      appends, up to its capacity. */
  lemma OneEntryPerRequest(max: nat, ops: seq<Op>)
    requires max > 0 && WellUsed(ops)
    ensures var entries := After(max, ops);
            && |entries| == Min(max, |Appended(max, ops, |ops|)|)
            && forall k, l :: 0 <= k < l < |entries| ==> entries[k].id != entries[l].id
  {
    assert ops[..|ops|] == ops;
    StoreMatches(max, ops, |ops|);
    var entries, from := After(max, ops), Window(max, ops, |ops|);
    forall k, l | 0 <= k < l < |entries|
      ensures entries[k].id != entries[l].id
    {
      WindowAppends(max, ops, |ops|, k);
      WindowAppends(max, ops, |ops|, l);
      AnswerJoins(max, ops, from[k], from[l]);
    }
  }

  /** Operation `i` stored the request's prompt; an answer to it followed, and
      fewer than `max` appends. */
  predicate KeptWhole(max: nat, ops: seq<Op>, id: int, i: nat)
    requires i < |ops|
  {
    && ops[i].Put? && ops[i].id == id && ops[i].prompt != ""
    && AnswerIn(ops, id, i + 1, |ops|).0 != ""
    && AppendsAfter(max, ops, i) < max
  }

  predicate Whole(e: Entry) {
    e.prompt != "" && e.output != ""
  }

  lemma WholeOnlyIfKept(max: nat, ops: seq<Op>, k: nat)
    requires max > 0 && WellUsed(ops) && k < |After(max, ops)| && Whole(After(max, ops)[k])
    ensures exists i :: 0 <= i < |ops| && KeptWhole(max, ops, After(max, ops)[k].id, i)
  {
    assert ops[..|ops|] == ops;
    StoreMatches(max, ops, |ops|);
    WindowAppends(max, ops, |ops|, k);
    var i := Window(max, ops, |ops|)[k];
    InWindow(max, ops, i, |ops|);
    assert Holds(ops, |ops|, i, After(max, ops)[k]);
    assert KeptWhole(max, ops, After(max, ops)[k].id, i);
  }

  lemma KeptIsWhole(max: nat, ops: seq<Op>, id: int, i: nat) returns (k: nat)
    requires max > 0 && WellUsed(ops) && i < |ops| && KeptWhole(max, ops, id, i)
    ensures k < |After(max, ops)| && After(max, ops)[k].id == id && Whole(After(max, ops)[k])
  {
    assert ops[..|ops|] == ops;
    StoreMatches(max, ops, |ops|);
    InWindow(max, ops, i, |ops|);
    k :| 0 <= k < |Window(max, ops, |ops|)| && Window(max, ops, |ops|)[k] == i;
    assert Holds(ops, |ops|, i, After(max, ops)[k]);
  }

  lemma FindIs(entries: seq<Entry>, k: nat)
    requires k < |entries| && forall i, j :: 0 <= i < j < |entries| ==> entries[i].id != entries[j].id
    ensures Find(entries, entries[k].id) == k
  {
  }

  /** A look-up finds prompt and answer together exactly when the request was
      stored with a prompt, answered, and fewer than `max` entries have been
      appended since it was stored. */
  lemma BothIffNotEvicted(max: nat, ops: seq<Op>, id: int)
    requires max > 0 && WellUsed(ops)
    ensures var r := Lookup(After(max, ops), id);
            r.Some? && Whole(r.value) <==> exists i :: 0 <= i < |ops| && KeptWhole(max, ops, id, i)
  {
    var entries := After(max, ops);
    var at := Find(entries, id);
    if at < |entries| && Whole(entries[at]) {
      WholeOnlyIfKept(max, ops, at);
    }
    if i :| 0 <= i < |ops| && KeptWhole(max, ops, id, i) {
      var k := KeptIsWhole(max, ops, id, i);
      OneEntryPerRequest(max, ops);
      FindIs(entries, k);
    }
  }
}
