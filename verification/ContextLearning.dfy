/** How a backend's published context length follows the engine: what each probe
    reads, when the engine is asked, and what becomes of the answers. */
module ContextLearning {
  import opened Common

  /** The two fields of a health document that decide readiness. */
  datatype Health = Health(status: string, maintenance: string)

  const NO_HEALTH := Health("", "")
  const SERVING := "serving"

  predicate Ready(h: Health) {
    h.status == "ok" && (h.maintenance == "" || h.maintenance == SERVING)
  }

  /** A rebuild, or any other maintenance in which the engine serves nothing. */
  predicate OutOfService(h: Health) {
    h.maintenance != "" && h.maintenance != SERVING
  }

  /** What one probe finds: the health document, if it could be read, and the
      two context figures, each absent when its endpoint did not answer. */
  datatype Observation = Observation(health: Option<Health>, checkpoint: Option<int>, kv: Option<int>)

  datatype Event = Started | Probed(seen: Observation)

  datatype Context = Context(health: Health, learned: bool, published: int)

  const INIT := Context(NO_HEALTH, false, 0)

  function Document(o: Observation): Health {
    if o.health.Some? then o.health.value else NO_HEALTH
  }

  /** The context a request is measured against, from the figures that answered. */
  function Limit(checkpoint: Option<int>, kv: Option<int>): int {
    var limit := if checkpoint.Some? then checkpoint.value else 0;
    if kv.Some? && (limit == 0 || kv.value < limit) then kv.value else limit
  }

  function Start(maxSeqLen: int): Context {
    Context(NO_HEALTH, false, maxSeqLen)
  }

  /** Takes in a health document; coming out of a rebuild forgets the context. */
  function TakeHealth(x: Context, h: Health): Context {
    Context(h, x.learned && !(OutOfService(x.health) && Ready(h)), x.published)
  }

  function Learn(maxSeqLen: int, x: Context, checkpoint: Option<int>, kv: Option<int>): Context {
    if maxSeqLen > 0 || x.learned then x
    else
      var limit := Limit(checkpoint, kv);
      x.(learned := true, published := if limit > 0 then limit else x.published)
  }

  function Probe(maxSeqLen: int, x: Context, o: Observation): Context {
    var y := TakeHealth(x, Document(o));
    if Ready(Document(o)) then Learn(maxSeqLen, y, o.checkpoint, o.kv) else y
  }

  function After(maxSeqLen: int, tr: seq<Event>): Context {
    if tr == [] then INIT
    else
      var x := After(maxSeqLen, tr[..|tr| - 1]);
      match tr[|tr| - 1]
      case Started => Start(maxSeqLen)
      case Probed(o) => Probe(maxSeqLen, x, o)
  }

  // ---- What a run of starts and probes says by itself ----

  predicate ReadyAt(tr: seq<Event>, i: int) {
    0 <= i < |tr| && tr[i].Probed? && Ready(Document(tr[i].seen))
  }

  function DocumentAt(tr: seq<Event>, i: int): Health
    requires 0 <= i < |tr|
  {
    if tr[i].Started? then NO_HEALTH else Document(tr[i].seen)
  }

  /** A start, or a ready probe right after a document that was out of service. */
  predicate ResetAt(tr: seq<Event>, i: int) {
    0 <= i < |tr| &&
    (tr[i].Started? || (ReadyAt(tr, i) && i > 0 && OutOfService(DocumentAt(tr, i - 1))))
  }

  /** On the documents themselves: a failed read is never ready, and only a document
      that names another maintenance than "serving" is out of service. */
  lemma ResetMeans(tr: seq<Event>, i: nat)
    requires i < |tr|
    ensures ReadyAt(tr, i) <==>
            tr[i].Probed? && tr[i].seen.health.Some? && tr[i].seen.health.value.status == "ok"
            && (tr[i].seen.health.value.maintenance == "" || tr[i].seen.health.value.maintenance == "serving")
    ensures ResetAt(tr, i) <==>
            tr[i].Started?
            || (ReadyAt(tr, i) && i > 0 && tr[i - 1].Probed? && tr[i - 1].seen.health.Some?
                && tr[i - 1].seen.health.value.maintenance != ""
                && tr[i - 1].seen.health.value.maintenance != "serving")
  {
  }

  lemma AfterNext(maxSeqLen: int, tr: seq<Event>, e: Event)
    ensures After(maxSeqLen, tr + [e])
         == if e.Started? then Start(maxSeqLen) else Probe(maxSeqLen, After(maxSeqLen, tr), e.seen)
  {
    assert (tr + [e])[..|tr|] == tr;
  }

  /** Some ready probe before `n` has not been followed by a reset before `n`. */
  ghost predicate KnownAt(tr: seq<Event>, n: nat) {
    exists i :: i < n && ReadyAt(tr, i) && forall k :: i < k < n ==> !ResetAt(tr, k)
  }

  /** The engine is asked at event `i`: what it answers there is latched. */
  predicate AsksAt(maxSeqLen: int, tr: seq<Event>, i: int) {
    && ReadyAt(tr, i)
    && maxSeqLen <= 0
    && !TakeHealth(After(maxSeqLen, tr[..i]), Document(tr[i].seen)).learned
  }

  lemma {:induction false} LearnedIffKnown(maxSeqLen: int, tr: seq<Event>, n: nat)
    requires n <= |tr|
    ensures After(maxSeqLen, tr[..n]).learned <==> maxSeqLen <= 0 && KnownAt(tr, n)
    ensures n > 0 ==> After(maxSeqLen, tr[..n]).health == DocumentAt(tr, n - 1)
  {
    if n > 0 {
      assert tr[..n][..n - 1] == tr[..n - 1];
      LearnedIffKnown(maxSeqLen, tr, n - 1);
      if KnownAt(tr, n - 1) && !ResetAt(tr, n - 1) {
        var i :| i < n - 1 && ReadyAt(tr, i) && forall k :: i < k < n - 1 ==> !ResetAt(tr, k);
        assert forall k :: i < k < n ==> !ResetAt(tr, k);
      }
      if ReadyAt(tr, n - 1) {
        assert forall k :: n - 1 < k < n ==> !ResetAt(tr, k);
      } else if KnownAt(tr, n) {
        var i :| i < n && ReadyAt(tr, i) && forall k :: i < k < n ==> !ResetAt(tr, k);
        assert i < n - 1 && forall k :: i < k < n - 1 ==> !ResetAt(tr, k);
      }
    }
  }

  /** The engine is asked at exactly those ready probes that every earlier ready
      probe is separated from by a reset: at most once between resets, and
      always once after one, when no limit is configured. */
  lemma AsksIff(maxSeqLen: int, tr: seq<Event>, i: nat)
    requires i < |tr|
    ensures AsksAt(maxSeqLen, tr, i) <==>
            && ReadyAt(tr, i)
            && maxSeqLen <= 0
            && forall j :: j < i && ReadyAt(tr, j) ==> exists k :: j < k <= i && ResetAt(tr, k)
  {
    LearnedIffKnown(maxSeqLen, tr, i);
    if ReadyAt(tr, i) && maxSeqLen <= 0 {
      if ResetAt(tr, i) {
        assert forall j :: j < i && ReadyAt(tr, j) ==> j < i <= i && ResetAt(tr, i);
      } else if KnownAt(tr, i) {
        var j :| j < i && ReadyAt(tr, j) && forall k :: j < k < i ==> !ResetAt(tr, k);
        assert forall k :: j < k <= i ==> !ResetAt(tr, k);
      }
    }
  }

  /** The smallest figure that answered. */
  function Smallest(checkpoint: Option<int>, kv: Option<int>): int
    requires checkpoint.Some? || kv.Some?
  {
    if kv.None? then checkpoint.value
    else if checkpoint.None? then kv.value
    else Min(checkpoint.value, kv.value)
  }

  /** What each event does to the published figure: a start publishes the
      configured limit, an asking probe the smallest figure that answered, and
      nothing else changes it. A checkpoint figure is positive when present; a
      smallest figure that is not positive is never published. */
  lemma PublishedBy(maxSeqLen: int, tr: seq<Event>, i: nat)
    requires i < |tr|
    requires tr[i].Probed? && tr[i].seen.checkpoint.Some? ==> tr[i].seen.checkpoint.value > 0
    ensures var before, now := After(maxSeqLen, tr[..i]).published, After(maxSeqLen, tr[..i + 1]).published;
            now == if tr[i].Started? then maxSeqLen
                   else if !AsksAt(maxSeqLen, tr, i) then before
                   else if tr[i].seen.checkpoint.None? && tr[i].seen.kv.None? then before
                   else if Smallest(tr[i].seen.checkpoint, tr[i].seen.kv) > 0
                   then Smallest(tr[i].seen.checkpoint, tr[i].seen.kv)
                   else before
  {
    assert tr[..i + 1][..i] == tr[..i];
  }
}
