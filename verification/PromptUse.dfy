/** How the request path uses the prompt store: any number of handlers, each of
    which takes a number, stores its prompt and, when the response has ended,
    its answer, interleaved in any way. */
module PromptUse {
  import opened Common
  import opened Prompts

  datatype Pc =
    | Arriving
    | Numbered(rid: nat)
    | Working(rid: nat, prompt: string)
    | Done(rid: nat, prompt: string, output: string)

  /** `ops` are the calls made on the store so far, `last` the last number taken. */
  datatype State = State(last: nat, handlers: seq<Pc>, ops: seq<Op>)

  datatype Event =
    | Take(h: nat)
    | Ask(h: nat, time: int, model: string, prompt: string)
    | Reply(h: nat, time: int, model: string, output: string, elapsedMs: int)

  predicate Initial(s: State) {
    s.last == 0 && s.ops == [] && forall h :: 0 <= h < |s.handlers| ==> s.handlers[h] == Arriving
  }

  predicate Enabled(s: State, e: Event) {
    e.h < |s.handlers| &&
    match e
    case Take(h) => s.handlers[h] == Arriving
    case Ask(h, _, _, _) => s.handlers[h].Numbered?
    case Reply(h, _, _, _, _) => s.handlers[h].Working?
  }

  /** A request without a prompt is not stored; its answer still is. */
  function Step(s: State, e: Event): State
    requires Enabled(s, e)
  {
    match e
    case Take(h) => State(s.last + 1, s.handlers[h := Numbered(s.last + 1)], s.ops)
    case Ask(h, t, model, prompt) =>
      var rid := s.handlers[h].rid;
      State(s.last, s.handlers[h := Working(rid, prompt)],
            s.ops + (if prompt != "" then [Put(rid, t, model, prompt)] else []))
    case Reply(h, t, model, output, ms) =>
      var pc := s.handlers[h];
      State(s.last, s.handlers[h := Done(pc.rid, pc.prompt, output)],
            s.ops + [Answer(pc.rid, t, model, output, ms)])
  }

  ghost predicate Next(s: State, t: State) {
    exists e :: Enabled(s, e) && t == Step(s, e)
  }

  ghost predicate IsRun(run: seq<State>) {
    && run != []
    && Initial(run[0])
    && forall i :: 0 <= i < |run| - 1 ==> Next(run[i], run[i + 1])
  }

  predicate Holding(pc: Pc) {
    pc.Numbered? || pc.Working?
  }

  /** Call `i` was made with the number that handler `h` holds. */
  predicate IsCallOf(s: State, i: nat, h: nat)
    requires i < |s.ops| && h < |s.handlers|
  {
    Holding(s.handlers[h]) && s.ops[i].id == s.handlers[h].rid
  }

  /** Numbers are taken once, and a handler that holds one has made none of its
      calls, or the first. */
  ghost predicate Inv(s: State) {
    && WellUsed(s.ops)
    && (forall i :: 0 <= i < |s.ops| ==> s.ops[i].id <= s.last)
    && (forall h :: 0 <= h < |s.handlers| && s.handlers[h] != Arriving ==> s.handlers[h].rid <= s.last)
    && (forall g, h :: 0 <= g < h < |s.handlers| && s.handlers[g] != Arriving && s.handlers[h] != Arriving ==>
          s.handlers[g].rid != s.handlers[h].rid)
    && (forall h, i :: 0 <= h < |s.handlers| && 0 <= i < |s.ops| && IsCallOf(s, i, h) ==>
          s.handlers[h].Working? && s.ops[i].Put?)
  }

  lemma StepInv(s: State, e: Event)
    requires Inv(s) && Enabled(s, e)
    ensures Inv(Step(s, e))
  {
  }

  /** The calls made with a number, in order. */
  function Calls(ops: seq<Op>, rid: int): seq<Op> {
    if ops == [] then []
    else Calls(ops[..|ops| - 1], rid) + (if ops[|ops| - 1].id == rid then [ops[|ops| - 1]] else [])
  }

  predicate IsAsk(calls: seq<Op>, prompt: string) {
    if prompt == "" then calls == [] else |calls| == 1 && calls[0].Put? && calls[0].prompt == prompt
  }

  /** What a handler has called so far: its prompt if there was one, and when it is
      done its answer, once. */
  predicate Accounted(calls: seq<Op>, pc: Pc)
    requires pc != Arriving
  {
    match pc
    case Numbered(_) => calls == []
    case Working(_, prompt) => IsAsk(calls, prompt)
    case Done(_, prompt, output) =>
      && calls != [] && IsAsk(calls[..|calls| - 1], prompt)
      && calls[|calls| - 1].Answer? && calls[|calls| - 1].output == output
  }

  ghost predicate CallsInv(s: State) {
    forall h :: 0 <= h < |s.handlers| && s.handlers[h] != Arriving ==>
      Accounted(Calls(s.ops, s.handlers[h].rid), s.handlers[h])
  }

  lemma CallsAppend(ops: seq<Op>, op: Op, rid: int)
    ensures Calls(ops + [op], rid) == Calls(ops, rid) + (if op.id == rid then [op] else [])
  {
    assert (ops + [op])[..|ops|] == ops;
  }

  lemma {:induction false} CallsNone(ops: seq<Op>, rid: int)
    requires forall i :: 0 <= i < |ops| ==> ops[i].id != rid
    ensures Calls(ops, rid) == []
  {
    if ops != [] {
      CallsNone(ops[..|ops| - 1], rid);
    }
  }

  lemma OthersCalls(s: State, e: Event, h: nat)
    requires Inv(s) && Enabled(s, e) && h < |s.handlers| && h != e.h && s.handlers[h] != Arriving
    ensures Calls(Step(s, e).ops, s.handlers[h].rid) == Calls(s.ops, s.handlers[h].rid)
  {
    var rid := s.handlers[h].rid;
    match e
    case Take(_) =>
    case Ask(_, time, model, prompt) =>
      if prompt != "" {
        CallsAppend(s.ops, Put(s.handlers[e.h].rid, time, model, prompt), rid);
      } else {
        assert s.ops + [] == s.ops;
      }
    case Reply(_, time, model, output, ms) =>
      CallsAppend(s.ops, Answer(s.handlers[e.h].rid, time, model, output, ms), rid);
  }

  lemma AskAccounted(ops: seq<Op>, rid: nat, time: int, model: string, prompt: string)
    requires Calls(ops, rid) == []
    ensures IsAsk(Calls(ops + (if prompt != "" then [Put(rid, time, model, prompt)] else []), rid), prompt)
  {
    if prompt != "" {
      CallsAppend(ops, Put(rid, time, model, prompt), rid);
    } else {
      assert ops + [] == ops;
    }
  }

  lemma ReplyAccounted(ops: seq<Op>, rid: nat, prompt: string, answer: Op)
    requires IsAsk(Calls(ops, rid), prompt) && answer.Answer? && answer.id == rid
    ensures Accounted(Calls(ops + [answer], rid), Done(rid, prompt, answer.output))
  {
    CallsAppend(ops, answer, rid);
    assert (Calls(ops, rid) + [answer])[..|Calls(ops, rid)|] == Calls(ops, rid);
  }

  lemma OwnCalls(s: State, e: Event)
    requires Inv(s) && Enabled(s, e)
    requires s.handlers[e.h] != Arriving ==> Accounted(Calls(s.ops, s.handlers[e.h].rid), s.handlers[e.h])
    ensures var t := Step(s, e);
            Accounted(Calls(t.ops, t.handlers[e.h].rid), t.handlers[e.h])
  {
    match e
    case Take(_) =>
      CallsNone(s.ops, s.last + 1);
    case Ask(h, time, model, prompt) =>
      AskAccounted(s.ops, s.handlers[h].rid, time, model, prompt);
    case Reply(h, time, model, output, ms) =>
      ReplyAccounted(s.ops, s.handlers[h].rid, s.handlers[h].prompt,
                     Answer(s.handlers[h].rid, time, model, output, ms));
  }

  lemma StepCalls(s: State, e: Event)
    requires Inv(s) && CallsInv(s) && Enabled(s, e)
    ensures CallsInv(Step(s, e))
  {
    var t := Step(s, e);
    forall h | 0 <= h < |t.handlers| && t.handlers[h] != Arriving
      ensures Accounted(Calls(t.ops, t.handlers[h].rid), t.handlers[h])
    {
      if h == e.h {
        OwnCalls(s, e);
      } else {
        OthersCalls(s, e, h);
      }
    }
  }

  /** In every interleaving a handler that is done has called the store with its
      prompt, if there was one, and then exactly once with its answer. */
  lemma {:induction false} RequestsAccounted(run: seq<State>, i: nat)
    requires IsRun(run) && i < |run|
    ensures CallsInv(run[i])
  {
    if i > 0 {
      RequestsAccounted(run, i - 1);
      RunInv(run, i - 1);
      assert Next(run[i - 1], run[i]);
      var e :| Enabled(run[i - 1], e) && run[i] == Step(run[i - 1], e);
      StepCalls(run[i - 1], e);
    }
  }

  lemma {:induction false} RunInv(run: seq<State>, i: nat)
    requires IsRun(run) && i < |run|
    ensures Inv(run[i])
  {
    if i > 0 {
      RunInv(run, i - 1);
      assert Next(run[i - 1], run[i]);
      var e :| Enabled(run[i - 1], e) && run[i] == Step(run[i - 1], e);
      StepInv(run[i - 1], e);
    }
  }

  /** So in every interleaving the store keeps one entry per request, and a
      look-up finds prompt and answer together exactly while the entry is kept. */
  lemma StoreServesRequests(max: nat, run: seq<State>, i: nat, rid: int)
    requires max > 0 && IsRun(run) && i < |run|
    ensures var entries, ops := After(max, run[i].ops), run[i].ops;
            && (forall k, l :: 0 <= k < l < |entries| ==> entries[k].id != entries[l].id)
            && var r := Lookup(entries, rid);
               (r.Some? && Whole(r.value) <==> exists n :: 0 <= n < |ops| && KeptWhole(max, ops, rid, n))
  {
    RunInv(run, i);
    OneEntryPerRequest(max, run[i].ops);
    BothIffNotEvicted(max, run[i].ops, rid);
  }
}
