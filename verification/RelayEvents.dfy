/**
 Live relay events for many clients: one subscription to the followed engine's
 bus, copied by a fan-out thread to every open stream, each with a bounded queue
 that drops its oldest. Taking an event off the bus, delivering one to the open
 streams, running one posted callback, and each call on the event loop are atomic
 steps that interleave in any order.
 */
module RelayEvents {

  import opened Common

  /** An engine's event, or one the application publishes itself. */
  datatype Event = Event(fromEngine: bool, body: int)

  /** Events a client may fall behind by before its oldest are dropped. */
  const STREAM_QUEUE_SIZE: nat := 200

  /** What the engine said, of the events offered. */
  function EngineEvents(events: seq<Event>): seq<int> {
    if events == [] then []
    else
      var last := events[|events| - 1];
      EngineEvents(events[..|events| - 1]) + if last.fromEngine then [last.body] else []
  }

  lemma {:induction false} EngineEventsStep(events: seq<Event>, e: Event)
    ensures EngineEvents(events + [e]) == EngineEvents(events) + if e.fromEngine then [e.body] else []
  {
    assert (events + [e])[..|events|] == events;
  }

  lemma SameRest(start: seq<int>, a: seq<int>, b: seq<int>, rest: seq<int>)
    requires start + a + b == start + rest
    ensures rest == a + b
  {
    assert rest == (start + rest)[|start|..];
    assert a + b == (start + a + b)[|start|..];
  }

  class EventStream {
    /** The client's queue. */
    var queue: seq<Event>
    /** Offered from some thread; the put is posted to the event loop. */
    var posted: seq<Event>
    var closed: bool
    /** Every event offered, in order. */
    ghost var offered: seq<Event>
    /** Those the client has read or lost, and how many lie up to the last one read. */
    ghost var gone: seq<Event>
    ghost var readUpTo: nat
    /** The engine events that had been delivered when the stream opened. */
    ghost const before: seq<int>

    /** Nothing offered is missing, doubled or out of order, and only a full queue loses anything. */
    ghost predicate Valid()
      reads this
    {
      && offered == gone + queue + posted
      && |queue| <= STREAM_QUEUE_SIZE
      && readUpTo <= |gone|
      && (readUpTo < |gone| ==> |queue| == STREAM_QUEUE_SIZE)
    }

    /** How many of the offered events have reached the queue. */
    ghost function Arrived(): nat
      reads this
    {
      |gone| + |queue|
    }

    constructor (ghost before: seq<int>)
      ensures Valid() && !closed && offered == [] && this.before == before
    {
      queue, posted, closed := [], [], false;
      offered, gone, readUpTo, this.before := [], [], 0, before;
    }

    /** The queue holds the newest at most 200 of the arrived events after the last one read. */
    lemma QueueIsNewest()
      requires Valid()
      ensures Arrived() <= |offered|
      ensures queue == offered[Max(readUpTo, Arrived() - 200)..Arrived()]
    {
    }

    /** Queue an event, from any thread. */
    method Offer(e: Event)
      requires Valid()
      modifies `posted, `offered
      ensures Valid() && offered == old(offered) + [e]
    {
      posted := posted + [e];
      offered := offered + [e];
    }

    /** The event loop runs one posted put. */
    method Put()
      requires Valid() && posted != []
      modifies `posted, `queue, `gone
      ensures Valid() && Arrived() == old(Arrived()) + 1
    {
      var e := posted[0];
      posted := posted[1..];
      if |queue| == STREAM_QUEUE_SIZE {
        gone := gone + [queue[0]];
        queue := queue[1..];
      }
      queue := queue + [e];
    }

    /** The client reads the next event: the oldest it hasn't read or lost. */
    method Get() returns (e: Event)
      requires Valid() && queue != []
      modifies `queue, `gone, `readUpTo
      ensures Valid() && e == old(queue)[0] && queue == old(queue)[1..]
      ensures gone == old(gone) + [e] && readUpTo == |gone|
    {
      e := queue[0];
      queue := queue[1..];
      gone := gone + [e];
      readUpTo := |gone|;
    }
  }

  /** The one subscription to an engine, and the event its thread has in hand. */
  class EventFanout {
    var waiting: seq<int>
    var inHand: Option<int>

    constructor ()
      ensures waiting == [] && inHand == None
    {
      waiting, inHand := [], None;
    }

    /** What the thread has still to deliver, in order. */
    function Backlog(): seq<int>
      reads this
    {
      (if inHand.Some? then [inHand.value] else []) + waiting
    }
  }

  ghost predicate Distinct(streams: seq<EventStream>) {
    forall i, j :: 0 <= i < j < |streams| ==> streams[i] != streams[j]
  }

  lemma DistinctWith(streams: seq<EventStream>, s: EventStream)
    requires Distinct(streams) && s !in streams
    ensures Distinct(streams + [s])
  {
  }

  class RelayEvents {
    var streams: seq<EventStream>
    var engine: Option<nat>
    /** The fan-out whose thread runs: the attached one or, while an unfollow waits for it, the one being stopped. */
    var fanout: EventFanout?
    var stopping: bool
    /** The engine events delivered to the open streams so far, in order. */
    ghost var delivered: seq<int>
    /** The relay's own objects. */
    ghost var repr: set<object>

    ghost predicate Valid()
      reads this, streams, fanout
    {
      && this in repr && (forall s :: s in streams ==> s in repr) && (fanout != null ==> fanout in repr)
      && Serving()
      && (stopping ==> fanout != null && engine == None)
      && (!stopping ==> (fanout != null <==> engine.Some? && streams != []))
    }

    /** What holds while an event is being delivered, too. */
    ghost predicate Serving()
      reads this, streams
    {
      Distinct(streams) && forall s :: s in streams ==> Served(s)
    }

    /** An open stream has been offered exactly the engine events delivered since it opened, in order. */
    ghost predicate Served(s: EventStream)
      reads this, s
    {
      s.Valid() && !s.closed && delivered == s.before + EngineEvents(s.offered)
    }

    /** What the engine has emitted and the thread has still to deliver. */
    function Backlog(): seq<int>
      reads this, fanout
    {
      if fanout == null then [] else fanout.Backlog()
    }

    /** The engine events the open streams have been, or are owed to be, offered. */
    ghost function Owed(): seq<int>
      reads this, fanout
    {
      delivered + Backlog()
    }

    constructor ()
      ensures Valid() && streams == [] && engine == None && fresh(repr)
    {
      streams, engine, fanout, stopping, delivered := [], None, null, false, [];
      repr := {this};
    }

    // -------------------------------------------------------------------
    // The event loop's calls
    // -------------------------------------------------------------------

    /** Open a stream: it is owed every event the followed engine emits from now on. */
    method Open() returns (s: EventStream)
      requires Valid()
      modifies `streams, `fanout, `repr
      ensures Valid() && fresh(s) && streams == old(streams) + [s] && s.before == delivered
      ensures fanout == old(fanout) || (old(fanout) == null && fresh(fanout))
      ensures Backlog() == old(Backlog()) && (forall o :: o in repr ==> o in old(repr) || fresh(o))
    {
      s := AddStream();
      Attach();
    }

    method AddStream() returns (s: EventStream)
      requires Valid()
      modifies `streams, `repr
      ensures Serving() && fresh(s) && streams == old(streams) + [s] && repr == old(repr) + {s}
      ensures s.before == delivered
    {
      s := new EventStream(delivered);
      DistinctWith(streams, s);
      streams := streams + [s];
      repr := repr + {s};
      assert Served(s);
    }

    /** Subscribe, if there is an engine to follow and a stream to feed. */
    method Attach()
      modifies `fanout, `repr
      ensures if old(fanout) == null && engine.Some? && streams != []
              then fanout != null && fresh(fanout) && fanout.Backlog() == [] && repr == old(repr) + {fanout}
              else fanout == old(fanout) && repr == old(repr)
    {
      if fanout == null && engine.Some? && streams != [] {
        fanout := new EventFanout();
        repr := repr + {fanout};
      }
    }

    /** Unsubscribe without waiting: what the thread still had is delivered to no one. */
    method Abandon()
      modifies `fanout
      ensures fanout == null
    {
      fanout := null;
    }

    /** A stream's client goes away; the last one takes the subscription with it. */
    method Close(s: EventStream)
      requires Valid() && s in streams
      modifies `streams, `fanout, s`closed
      ensures Valid() && s.closed
      ensures forall t :: t in streams <==> t in old(streams) && t != s
      ensures fanout == if streams == [] && !stopping then null else old(fanout)
    {
      s.closed := true;
      var k :| 0 <= k < |streams| && streams[k] == s;
      ghost var before := streams;
      streams := streams[..k] + streams[k + 1..];
      assert forall t :: t in streams <==> t in before && t != s;
      if streams == [] && !stopping {
        Abandon();
      }
    }

    /** Follow an engine from now on; what another one still had is delivered to no one. */
    method Follow(newEngine: nat)
      requires Valid() && !stopping
      modifies `engine, `fanout, `repr
      ensures Valid() && engine == Some(newEngine) && (forall o :: o in repr ==> o in old(repr) || fresh(o))
      ensures if old(engine) == Some(newEngine) then fanout == old(fanout)
              else Backlog() == [] && (fanout == null || fresh(fanout))
    {
      if Some(newEngine) != engine {
        Abandon();
        engine := Some(newEngine);
      }
      Attach();
    }

    /** Stop following an engine that has stopped; its fan-out is told to stop, and its thread waited for. */
    method BeginUnfollow()
      requires Valid() && !stopping
      modifies `engine, `stopping
      ensures Valid() && engine == None && stopping == (fanout != null) && Owed() == old(Owed())
    {
      stopping, engine := fanout != null, None;
    }

    /** The thread delivers what it holds and ends; the rest is drained. */
    method EndUnfollow()
      requires Valid() && stopping
      modifies `fanout, `stopping, `delivered, streams
      ensures Valid() && !stopping && Backlog() == [] && delivered == old(Owed())
    {
      var last := fanout;
      fanout, stopping := null, false;
      DeliverAll(last.Backlog());
    }

    // -------------------------------------------------------------------
    // The engine and the fan-out thread
    // -------------------------------------------------------------------

    /** An engine emits: only the followed engine's subscription, if there is one, gets the event. */
    method Emit(emitter: nat, body: int)
      requires Valid()
      modifies fanout
      ensures Valid()
      ensures Backlog() == old(Backlog()) + if fanout != null && engine == Some(emitter) then [body] else []
    {
      if fanout != null && engine == Some(emitter) {
        fanout.waiting := fanout.waiting + [body];
      }
    }

    /** The thread takes an event off the bus. */
    method ThreadTakes()
      requires Valid() && fanout != null && fanout.inHand == None && fanout.waiting != []
      modifies fanout
      ensures Valid() && fanout.inHand == Some(old(fanout.waiting)[0]) && Backlog() == old(Backlog())
    {
      fanout.inHand, fanout.waiting := Some(fanout.waiting[0]), fanout.waiting[1..];
    }

    /** The thread delivers the event it holds, then looks for another. */
    method ThreadDelivers()
      requires Valid() && fanout != null && fanout.inHand.Some?
      modifies `delivered, streams, fanout
      ensures Valid() && fanout.inHand == None && Owed() == old(Owed())
      ensures delivered == old(delivered) + [old(fanout.inHand.value)]
    {
      var body := fanout.inHand.value;
      Deliver(body);
      assert fanout.Backlog() == [body] + fanout.waiting;
      fanout.inHand := None;
      assert fanout.Backlog() == fanout.waiting;
    }

    /** Offer an event of the engine's to every open stream. */
    method Deliver(body: int)
      requires Serving()
      modifies `delivered, streams
      ensures Serving() && delivered == old(delivered) + [body]
    {
      forall s | s in streams {
        EngineEventsStep(s.offered, Event(true, body));
      }
      OfferAll(Event(true, body));
      delivered := delivered + [body];
      assert forall s :: s in streams ==> Served(s);
    }

    method DeliverAll(bodies: seq<int>)
      requires Serving()
      modifies `delivered, streams
      ensures Serving() && delivered == old(delivered) + bodies
    {
      for k := 0 to |bodies|
        invariant Serving() && delivered == old(delivered) + bodies[..k]
      {
        Deliver(bodies[k]);
      }
    }

    method OfferAll(e: Event)
      requires Distinct(streams)
      requires forall s :: s in streams ==> s.Valid()
      modifies streams
      ensures forall s :: s in streams ==> s.Valid() && s.offered == old(s.offered) + [e]
      ensures forall s :: s in streams ==> s.closed == old(s.closed) && s.queue == old(s.queue)
    {
      for k := 0 to |streams|
        invariant forall i :: k <= i < |streams| ==> streams[i].offered == old(streams[i].offered)
        invariant forall i :: 0 <= i < k ==> streams[i].offered == old(streams[i].offered) + [e]
        invariant forall s :: s in streams ==> s.Valid() && s.closed == old(s.closed) && s.queue == old(s.queue)
      {
        streams[k].Offer(e);
      }
    }

    /** Send an event that isn't the engine's to every open stream. */
    method Publish(body: int)
      requires Valid()
      modifies streams
      ensures Valid()
      ensures forall s :: s in streams ==>
        s.offered == old(s.offered) + [Event(false, body)] && s.queue == old(s.queue)
    {
      forall s | s in streams {
        EngineEventsStep(s.offered, Event(false, body));
      }
      OfferAll(Event(false, body));
    }

    // -------------------------------------------------------------------
    // Runs
    // -------------------------------------------------------------------

    /** The event loop runs a stream's next posted put, or its client reads, if there is anything. */
    method Touch(s: EventStream, client: bool)
      requires Valid() && s in streams
      modifies s
      ensures Valid()
    {
      assert Served(s);
      if client && s.queue != [] {
        var e := s.Get();
      } else if !client && s.posted != [] {
        s.Put();
      }
      assert Served(s);
    }

    /** One step of any thread; a step that can't be taken now does nothing. */
    method Do(step: Step)
      requires Valid()
      modifies repr
      ensures Valid() && (forall o :: o in repr ==> o in old(repr) || fresh(o))
      ensures forall s :: s in old(streams) && !Closes(old(streams), step, s) ==> s in streams
      ensures Keeps(step, old(engine)) ==> engine == old(engine)
      ensures Keeps(step, old(engine)) && streams != [] ==>
        Owed() == old(Owed()) + if old(fanout) != null then EmittedBy(step, engine) else []
    {
      if step.OpenStream? || step.CloseStream? || step.FollowEngine? || step.StopFollowing? || step.ThreadEnds? {
        DoCall(step);
      } else {
        DoEvent(step);
      }
    }

    /** A call that opens, closes, follows or unfollows. */
    method DoCall(step: Step)
      requires Valid()
      requires step.OpenStream? || step.CloseStream? || step.FollowEngine? || step.StopFollowing? || step.ThreadEnds?
      modifies repr
      ensures Valid() && (forall o :: o in repr ==> o in old(repr) || fresh(o))
      ensures forall s :: s in old(streams) && !Closes(old(streams), step, s) ==> s in streams
      ensures Keeps(step, old(engine)) ==> engine == old(engine)
      ensures Keeps(step, old(engine)) && streams != [] ==> Owed() == old(Owed())
    {
      match step
      case OpenStream => var s := Open();
      case CloseStream(k) => if k < |streams| { Close(streams[k]); }
      case FollowEngine(e) => if !stopping { Follow(e); }
      case StopFollowing => if !stopping { BeginUnfollow(); }
      case ThreadEnds => if stopping { EndUnfollow(); }
    }

    /** An event emitted, published, on its way, or read. */
    method DoEvent(step: Step)
      requires Valid()
      requires !(step.OpenStream? || step.CloseStream? || step.FollowEngine? || step.StopFollowing? || step.ThreadEnds?)
      modifies `delivered, streams, fanout
      ensures Valid()
      ensures Owed() == old(Owed()) + if fanout != null then EmittedBy(step, engine) else []
    {
      match step
      case PublishOwn(body) => Publish(body);
      case EngineEmits(e, body) => Emit(e, body);
      case ThreadTakesEvent => if fanout != null && fanout.inHand == None && fanout.waiting != [] { ThreadTakes(); }
      case ThreadDeliversEvent => if fanout != null && fanout.inHand.Some? { ThreadDelivers(); }
      case LoopPuts(k) => if k < |streams| { Touch(streams[k], false); }
      case ClientReads(k) => if k < |streams| { Touch(streams[k], true); }
    }

    /**
     A stream opened while an engine is followed, and kept open through any run until
     the engine is unfollowed and any other while that waits for the thread, has then
     been offered every event the engine emitted meanwhile, once each and in order,
     after those emitted but not yet delivered when it opened.
     */
    method WatchedRun(engineId: nat, steps: seq<Step>, waits: seq<Step>)
      returns (s: EventStream, ghost waiting: seq<int>)
      requires Valid() && engine == Some(engineId)
      requires AllKeep(steps, Some(engineId)) && AllKeep(waits, None)
      modifies repr
      ensures Valid() && s in streams && engine == None && !stopping
      ensures waiting == old(Backlog())
      ensures EngineEvents(s.offered) == waiting + EmittedDuring(steps, Some(engineId))
    {
      waiting := Backlog();
      s := Open();
      WatchToUnfollow(s, engineId, steps, waits);
      SameRest(s.before, waiting, EmittedDuring(steps, Some(engineId)), EngineEvents(s.offered));
    }

    /**
     A stream already open when another engine is followed is offered, from then
     until the unfollow, exactly that engine's events, once each and in order.
     */
    method FollowedRun(s: EventStream, engineId: nat, steps: seq<Step>, waits: seq<Step>)
      requires Valid() && s in streams && engine != Some(engineId) && !stopping
      requires AllKeep(steps, Some(engineId)) && AllKeep(waits, None)
      modifies repr
      ensures Valid() && s in streams && engine == None && !stopping
      ensures EngineEvents(s.offered) == old(EngineEvents(s.offered)) + EmittedDuring(steps, Some(engineId))
    {
      ghost var had := EngineEvents(s.offered);
      assert Served(s);
      Follow(engineId);
      assert Owed() == s.before + had;
      WatchToUnfollow(s, engineId, steps, waits);
      SameRest(s.before, had, EmittedDuring(steps, Some(engineId)), EngineEvents(s.offered));
    }

    method WatchToUnfollow(s: EventStream, engineId: nat, steps: seq<Step>, waits: seq<Step>)
      requires Valid() && engine == Some(engineId) && s in streams
      requires AllKeep(steps, Some(engineId)) && AllKeep(waits, None)
      modifies repr
      ensures Valid() && engine == None && !stopping && s in streams
      ensures s.before + EngineEvents(s.offered) == old(Owed()) + EmittedDuring(steps, Some(engineId))
    {
      Watch(s, Some(engineId), steps, |steps|, Owed(), Owed() + EmittedDuring(steps, Some(engineId)));
      BeginUnfollow();
      WaitForThread(s, waits);
    }

    method WaitForThread(s: EventStream, waits: seq<Step>)
      requires Valid() && engine == None && s in streams && AllKeep(waits, None)
      modifies repr
      ensures Valid() && engine == None && !stopping && s in streams
      ensures s.before + EngineEvents(s.offered) == old(Owed())
    {
      NoneEmitted(waits, |waits|);
      Watch(s, None, waits, |waits|, Owed(), Owed());
      FinishUnfollow();
      assert Served(s);
    }

    /** The unfollow returns, if its thread hasn't ended already. */
    method FinishUnfollow()
      requires Valid() && engine == None
      modifies `fanout, `stopping, `delivered, streams
      ensures Valid() && !stopping && delivered == old(Owed())
    {
      if stopping {
        EndUnfollow();
      }
    }

    /** A step the watched stream stays open through: what the streams are owed becomes `next`. */
    method WatchStep(s: EventStream, followed: Option<nat>, step: Step, ghost next: seq<int>)
      requires Valid() && engine == followed && s in streams && Keeps(step, followed)
      requires next == Owed() + EmittedBy(step, followed)
      modifies repr
      ensures Valid() && engine == followed && s in streams && (forall o :: o in repr ==> o in old(repr) || fresh(o))
      ensures Owed() == next
    {
      if !Closes(streams, step, s) {
        Do(step);
      }
    }

    /** The first k steps: what the streams are owed becomes `next`. */
    method Watch(s: EventStream, followed: Option<nat>, steps: seq<Step>, k: nat,
                 ghost owed: seq<int>, ghost next: seq<int>)
      requires Valid() && engine == followed && s in streams && Owed() == owed
      requires k <= |steps| && forall i :: 0 <= i < k ==> Keeps(steps[i], followed)
      requires next == owed + EmittedFirst(steps, k, followed)
      modifies repr
      ensures Valid() && engine == followed && s in streams && (forall o :: o in repr ==> o in old(repr) || fresh(o))
      ensures Owed() == next
      decreases k
    {
      if k > 0 {
        ghost var mid := OneStepLess(steps, k, followed, owed, next);
        Watch(s, followed, steps, k - 1, owed, mid);
        WatchStep(s, followed, steps[k - 1], next);
      }
    }
  }

  datatype Step =
    | OpenStream
    | CloseStream(index: nat)
    | FollowEngine(engine: nat)
    | StopFollowing
    | ThreadEnds
    | PublishOwn(body: int)
    | EngineEmits(engine: nat, body: int)
    | ThreadTakesEvent
    | ThreadDeliversEvent
    | LoopPuts(index: nat)
    | ClientReads(index: nat)

  predicate Closes(streams: seq<EventStream>, step: Step, s: EventStream) {
    step.CloseStream? && step.index < |streams| && streams[step.index] == s
  }

  /** The step leaves the followed engine as it is. */
  predicate Keeps(step: Step, engine: Option<nat>) {
    && (step.StopFollowing? ==> engine == None)
    && (step.FollowEngine? ==> engine == Some(step.engine))
  }

  predicate AllKeep(steps: seq<Step>, engine: Option<nat>) {
    forall k :: 0 <= k < |steps| ==> Keeps(steps[k], engine)
  }

  function EmittedBy(step: Step, engine: Option<nat>): seq<int> {
    if step.EngineEmits? && engine == Some(step.engine) then [step.body] else []
  }

  function EmittedFirst(steps: seq<Step>, k: nat, engine: Option<nat>): seq<int>
    requires k <= |steps|
  {
    if k == 0 then [] else EmittedFirst(steps, k - 1, engine) + EmittedBy(steps[k - 1], engine)
  }

  /** What has been emitted but for the last of k steps. */
  lemma OneStepLess(steps: seq<Step>, k: nat, engine: Option<nat>, owed: seq<int>, next: seq<int>)
    returns (mid: seq<int>)
    requires 0 < k <= |steps| && next == owed + EmittedFirst(steps, k, engine)
    ensures mid == owed + EmittedFirst(steps, k - 1, engine) && next == mid + EmittedBy(steps[k - 1], engine)
  {
    mid := owed + EmittedFirst(steps, k - 1, engine);
  }

  /** What an engine emits in a run, in order. */
  function EmittedDuring(steps: seq<Step>, engine: Option<nat>): seq<int> {
    EmittedFirst(steps, |steps|, engine)
  }

  lemma {:induction false} NoneEmitted(steps: seq<Step>, k: nat)
    requires k <= |steps|
    ensures EmittedFirst(steps, k, None) == []
  {
    if k > 0 {
      NoneEmitted(steps, k - 1);
    }
  }

  /** Any run of any number of steps from the start keeps every open stream served. */
  method AnyRun(steps: seq<Step>) returns (relay: RelayEvents)
    ensures relay.Valid()
    ensures forall s :: s in relay.streams ==> s.Valid() && relay.delivered == s.before + EngineEvents(s.offered)
  {
    relay := new RelayEvents();
    for k := 0 to |steps|
      invariant relay.Valid() && fresh(relay.repr)
    {
      relay.Do(steps[k]);
    }
  }
}
