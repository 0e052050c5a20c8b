/** The activity log: a bounded ring of events and the channels of its live
    subscribers. */
module ActivityLog {
  import opened Common

  datatype Event = Event(
    time: int,
    kind: string,
    message: string,
    gpuId: int,
    requestId: int,
    taskId: string,
    replay: bool)

  const CHANNEL := 256
  const DEFAULT_EVENTS: nat := 2000

  /** The ring after one more event, trimmed from the front. */
  function Push<T>(ring: seq<T>, max: nat, e: T): seq<T> {
    Last(ring + [e], max)
  }

  /** A send that never blocks: a full channel loses the event. */
  function Offer<T>(channel: seq<T>, e: T): seq<T> {
    if |channel| < CHANNEL then channel + [e] else channel
  }

  /** The same events, marked as a replay. */
  predicate Marked(out: seq<Event>, kept: seq<Event>) {
    |out| == |kept| && forall i :: 0 <= i < |out| ==> out[i] == kept[i].(replay := true)
  }

  class Log {
    const max: nat
    var ring: seq<Event>
    var subs: map<nat, seq<Event>>
    var closed: set<nat>
    ghost var emitted: seq<Event>

    ghost predicate Valid()
      reads this
    {
      && max > 0
      && ring == Last(emitted, max)
      && forall ch :: ch in subs ==> |subs[ch]| <= CHANNEL && ch !in closed
    }

    constructor (max: int)
      ensures Valid() && emitted == [] && subs == map[] && closed == {}
      ensures this.max == if max < 1 then 2000 else max
    {
      this.max := if max < 1 then DEFAULT_EVENTS else max;
      ring, subs, closed, emitted := [], map[], {}, [];
    }

    /** Registers an empty channel that is not in use yet. */
    method Subscribe(ch: nat)
      requires Valid() && ch !in subs && ch !in closed
      modifies this`subs
      ensures Valid() && subs == old(subs)[ch := []]
    {
      subs := subs[ch := []];
    }

    /** Removes and closes a channel that is subscribed; any other is left alone,
        so none is closed twice. */
    method Unsubscribe(ch: nat)
      requires Valid()
      modifies this`subs, this`closed
      ensures Valid() && subs == old(subs) - {ch}
      ensures closed == old(closed) + (if ch in old(subs) then {ch} else {})
    {
      if ch in subs {
        subs := subs - {ch};
        closed := closed + {ch};
      }
    }

    /** The retained events, each marked as a replay; the ring keeps them unmarked. */
    method Backlog() returns (out: seq<Event>)
      requires Valid()
      ensures exists kept: seq<Event> :: IsLast(kept, emitted, max) && |out| == |kept|
                && forall i :: 0 <= i < |out| ==> out[i] == kept[i].(replay := true)
    {
      out := [];
      for i := 0 to |ring|
        invariant Marked(out, ring[..i])
      {
        out := out + [ring[i].(replay := true)];
      }
      assert ring[..|ring|] == ring && Marked(out, ring);
      LastIs(emitted, max);
    }

    method Recent() returns (out: seq<Event>)
      requires Valid()
      ensures IsLast(out, emitted, max)
    {
      LastIs(emitted, max);
      out := ring;
    }

    /** Records an event and puts it at the end of the channel of every subscriber
        that has room, in no fixed order; a full channel stays as it is. */
    method Emit(e: Event)
      requires Valid()
      modifies this
      ensures Valid() && emitted == old(emitted) + [e] && closed == old(closed)
      ensures subs.Keys == old(subs).Keys
      ensures forall ch :: ch in subs ==>
                subs[ch] == if |old(subs)[ch]| < 256 then old(subs)[ch] + [e] else old(subs)[ch]
    {
      LastAppend(emitted, max, e);
      ring := ring + [e];
      if |ring| > max {
        ring := ring[|ring| - max..];
      }
      emitted := emitted + [e];
      Publish(e);
    }

    method Publish(e: Event)
      modifies this`subs
      ensures subs.Keys == old(subs).Keys
      ensures forall ch :: ch in subs ==> subs[ch] == Offer(old(subs)[ch], e)
    {
      var rest := subs.Keys;
      while rest != {}
        invariant rest <= subs.Keys == old(subs).Keys
        invariant forall ch :: ch in rest ==> subs[ch] == old(subs)[ch]
        invariant forall ch :: ch in subs && ch !in rest ==> subs[ch] == Offer(old(subs)[ch], e)
        decreases rest
      {
        var ch :| ch in rest;
        rest := rest - {ch};
        if |subs[ch]| < CHANNEL {
          subs := subs[ch := subs[ch] + [e]];
        }
      }
    }
  }
}

/** Subscribing and reading the backlog while other goroutines emit: which events
    a viewer ends up with. Events are named by their emission number. An emitter
    appends under the lock and sends to the channels it captured after releasing
    it, so its send can land at any later time. */
module Replay {
  import opened Common
  import opened ActivityLog

  /** `unsent` holds events appended after the viewer subscribed whose send to
      its channel has not happened yet. */
  datatype State = State(
    emitted: nat,
    ring: seq<nat>,
    subscribedAt: Option<nat>,
    backlogAt: Option<nat>,
    replayed: seq<nat>,
    unsent: seq<nat>,
    channel: seq<nat>,
    received: seq<nat>,
    dropped: seq<nat>)

  /** Any of the outstanding sends may be the next to happen. */
  datatype Action = Emit | Send(i: nat) | Subscribe | ReadBacklog | Receive

  const INIT := State(0, [], None, None, [], [], [], [], [])

  predicate Enabled(s: State, a: Action) {
    match a
    case Emit => true
    case Send(i) => i < |s.unsent|
    case Subscribe => s.subscribedAt.None?
    case ReadBacklog => s.backlogAt.None?
    case Receive => s.channel != []
  }

  function Step(max: nat, s: State, a: Action): State
    requires Enabled(s, a)
  {
    match a
    case Emit =>
      s.(emitted := s.emitted + 1,
         ring := Push(s.ring, max, s.emitted),
         unsent := if s.subscribedAt.Some? then s.unsent + [s.emitted] else s.unsent)
    case Send(i) =>
      s.(unsent := Without(s.unsent, i),
         channel := Offer(s.channel, s.unsent[i]),
         dropped := if |s.channel| < CHANNEL then s.dropped else s.dropped + [s.unsent[i]])
    case Subscribe => s.(subscribedAt := Some(s.emitted))
    case ReadBacklog => s.(backlogAt := Some(s.emitted), replayed := s.ring)
    case Receive => s.(received := s.received + [s.channel[0]], channel := s.channel[1..])
  }

  ghost predicate Next(max: nat, s: State, t: State) {
    exists a :: Enabled(s, a) && t == Step(max, s, a)
  }

  ghost predicate IsRun(max: nat, run: seq<State>) {
    && run != []
    && run[0] == INIT
    && forall i :: 0 <= i < |run| - 1 ==> Next(max, run[i], run[i + 1])
  }

  function Range(lo: nat, hi: nat): (r: seq<nat>)
    requires lo <= hi
    ensures |r| == hi - lo && forall i :: 0 <= i < |r| ==> r[i] == lo + i
  {
    seq(hi - lo, (i: nat) => lo + i)
  }

  /** The oldest event a ring of `max` still holds after `n` emissions. */
  function Oldest(max: nat, n: nat): nat {
    if n <= max then 0 else n - max
  }

  /** How often `e` was addressed to the viewer: received, waiting in the
      channel, about to be sent, or lost. */
  function Live(s: State, e: nat): nat {
    Count(s.received, Is(e)) + Count(s.channel, Is(e)) + Count(s.unsent, Is(e)) + Count(s.dropped, Is(e))
  }

  /** Each event emitted since the viewer subscribed is addressed to it once. */
  ghost predicate Addressed(s: State) {
    forall e: nat ::
      Live(s, e) == if s.subscribedAt.Some? && s.subscribedAt.value <= e < s.emitted then 1 else 0
  }

  ghost predicate Windows(max: nat, s: State) {
    && s.ring == Range(Oldest(max, s.emitted), s.emitted)
    && (s.subscribedAt.Some? ==> s.subscribedAt.value <= s.emitted)
    && (s.backlogAt.Some? ==>
          s.backlogAt.value <= s.emitted
          && s.replayed == Range(Oldest(max, s.backlogAt.value), s.backlogAt.value))
    && |s.channel| <= CHANNEL
  }

  ghost predicate Inv(max: nat, s: State) {
    Windows(max, s) && Addressed(s)
  }

  lemma WindowsStep(max: nat, s: State, a: Action)
    requires max > 0 && Windows(max, s) && Enabled(s, a)
    ensures Windows(max, Step(max, s, a))
  {
    if a.Emit? {
      var t := Step(max, s, a);
      assert t.ring == Range(Oldest(max, t.emitted), t.emitted);
    }
  }

  lemma LiveStep(max: nat, s: State, a: Action, e: nat)
    requires Enabled(s, a)
    ensures Live(Step(max, s, a), e)
         == Live(s, e) + (if a.Emit? && s.subscribedAt.Some? && e == s.emitted then 1 else 0)
  {
    match a
    case Emit =>
      CountAppend(s.unsent, s.emitted, Is(e));
    case Send(i) =>
      CountWithout(s.unsent, i, Is(e));
      CountAppend(s.channel, s.unsent[i], Is(e));
      CountAppend(s.dropped, s.unsent[i], Is(e));
    case Receive =>
      CountAppend(s.received, s.channel[0], Is(e));
      CountWithout(s.channel, 0, Is(e));
      assert Without(s.channel, 0) == s.channel[1..];
    case _ =>
  }

  lemma StepInv(max: nat, s: State, a: Action)
    requires max > 0 && Inv(max, s) && Enabled(s, a)
    ensures Inv(max, Step(max, s, a))
  {
    WindowsStep(max, s, a);
    var t := Step(max, s, a);
    forall e: nat
      ensures Live(t, e) == if t.subscribedAt.Some? && t.subscribedAt.value <= e < t.emitted then 1 else 0
    {
      LiveStep(max, s, a, e);
    }
  }

  lemma {:induction false} RunInv(max: nat, run: seq<State>, i: nat)
    requires max > 0 && IsRun(max, run) && i < |run|
    ensures Inv(max, run[i])
  {
    if i > 0 {
      RunInv(max, run, i - 1);
      assert Next(max, run[i - 1], run[i]);
      var a :| Enabled(run[i - 1], a) && run[i] == Step(max, run[i - 1], a);
      StepInv(max, run[i - 1], a);
    }
  }

  /** The viewer has seen `e`, or it is on its way, or its channel lost it. */
  predicate Covered(s: State, e: nat) {
    e in s.replayed || Live(s, e) > 0
  }

  /** In every interleaving the events addressed to the viewer are exactly those the
      ring held when it read the backlog and those emitted after it subscribed:
      every event from the oldest one retained at the backlog on is covered if
      and only if it subscribed first. */
  lemma ReplayComplete(max: nat, run: seq<State>, i: nat)
    requires max > 0 && IsRun(max, run) && i < |run|
    requires run[i].subscribedAt.Some? && run[i].backlogAt.Some?
    ensures var s := run[i];
            var from, subscribed, backlog := Oldest(max, s.backlogAt.value), s.subscribedAt.value, s.backlogAt.value;
            && (forall e: nat :: Covered(s, e) <==> from <= e < backlog || subscribed <= e < s.emitted)
            && ((forall e: nat :: from <= e < s.emitted ==> Covered(s, e)) <==> subscribed <= backlog)
  {
    RunInv(max, run, i);
    var s := run[i];
    var from, subscribed, backlog := Oldest(max, s.backlogAt.value), s.subscribedAt.value, s.backlogAt.value;
    forall e: nat
      ensures Covered(s, e) <==> from <= e < backlog || subscribed <= e < s.emitted
    {
      if from <= e < backlog {
        assert s.replayed[e - from] == e;
      }
    }
    if backlog < subscribed {
      assert !Covered(s, backlog);
    }
  }

  /** A viewer that subscribed first meets an event twice exactly when it was
      emitted between the two calls and still in the ring at the second; live
      events are never repeated among themselves. */
  lemma SeenTwice(max: nat, run: seq<State>, i: nat, e: nat)
    requires max > 0 && IsRun(max, run) && i < |run|
    requires run[i].subscribedAt.Some? && run[i].backlogAt.Some?
    requires run[i].subscribedAt.value <= run[i].backlogAt.value
    ensures var s := run[i];
            && Live(s, e) <= 1
            && (e in s.replayed && Live(s, e) > 0 <==>
                  Max(s.subscribedAt.value, Oldest(max, s.backlogAt.value)) <= e < s.backlogAt.value)
  {
    RunInv(max, run, i);
    ReplayComplete(max, run, i);
    var s := run[i];
    var from := Oldest(max, s.backlogAt.value);
    if from <= e < s.backlogAt.value {
      assert s.replayed[e - from] == e;
    }
  }

  /** Nothing is lost unless the channel was full at some moment of the run. */
  lemma {:induction false} LostOnlyWhenFull(max: nat, run: seq<State>, i: nat)
    requires max > 0 && IsRun(max, run) && i < |run|
    requires run[i].dropped != []
    ensures exists k :: 0 <= k < i && |run[k].channel| == 256
  {
    if i > 0 {
      assert Next(max, run[i - 1], run[i]);
      if run[i - 1].dropped != [] {
        LostOnlyWhenFull(max, run, i - 1);
      } else {
        RunInv(max, run, i - 1);
        assert |run[i - 1].channel| == CHANNEL;
      }
    }
  }

  /** The ring is always the last `max` events emitted. */
  lemma RingIsLast(max: nat, run: seq<State>, i: nat)
    requires max > 0 && IsRun(max, run) && i < |run|
    ensures |run[i].ring| == Min(max, run[i].emitted)
    ensures forall k :: 0 <= k < |run[i].ring| ==> run[i].ring[k] == run[i].emitted - |run[i].ring| + k
  {
    RunInv(max, run, i);
  }

  /** What the viewer has received and what waits for it in its channel. */
  function Handed(s: State): seq<nat> {
    s.received + s.channel
  }

  /** The viewer is handed events in the order in which their sends happen: each
      goes behind all earlier ones, or is lost on a full channel. */
  lemma HandedInOrder(max: nat, s: State, a: Action)
    requires Enabled(s, a)
    ensures var t := Step(max, s, a);
            && s.received <= t.received
            && Handed(t) == if a.Send? && |s.channel| < 256 then Handed(s) + [s.unsent[a.i]] else Handed(s)
  {
    match a
    case Send(i) => Assoc(s.received, s.channel, [s.unsent[i]]);
    case Receive => assert s.channel == [s.channel[0]] + s.channel[1..];
    case _ =>
  }
}
