/**
 The tunnel's state, its open and close events, and the backstop that closes
 it after a while without streams, or past its hard cap, whatever the Portal
 does. Times are whole units of the agent's clock, which never goes back. A
 sleep ends at most `lateness` after its time, and may end early.
 */
module TunnelBackstop {

  import opened Common
  import opened PortalEvents

  datatype State = IsClosed | Opening | Open

  /** The largest nonce a Wake may carry. */
  const MAX_NONCE: nat := 256

  /** Opens and closes alternate, beginning with an open. */
  ghost predicate Alternates(history: seq<TunnelEvent>) {
    forall i :: 0 <= i < |history| ==> history[i].kind == if i % 2 == 0 then Opened else Closed
  }

  class TunnelClient {
    var state: State
    var since: int
    var active: int
    var idleSince: int
    /** The newest 20 opens and closes. */
    var events: seq<TunnelEvent>

    /** This tunnel's limits. */
    var idleTimeout: int
    var hardCap: int
    /** Whether the backstop is still watching, and when its present sleep ends. */
    var watching: bool
    var wakeAt: int

    /** The clock, and how late a sleep may end. */
    var now: int
    const lateness: int

    /** The streams really served: this tunnel's, and those earlier tunnels left behind. */
    var own: nat
    var stale: nat

    /** Every open and close so far. */
    ghost var history: seq<TunnelEvent>
    /** How many of the earlier tunnels' streams were left when this tunnel opened, and how many of them have ended. */
    ghost var leftAtOpen: nat
    ghost var staleEnded: nat
    /** Since when this tunnel has had no stream, if it has none. */
    ghost var idleFrom: int

    ghost predicate Valid()
      reads this
    {
      && lateness >= 0
      && idleTimeout > 0 && hardCap >= 0
      && since <= now && idleSince <= now && idleFrom <= now
      && active == own - staleEnded
      && leftAtOpen == stale + staleEnded
      && (watching ==> state == Open && Watched())
      && Recorded()
    }

    /** A watched tunnel's deadlines are never missed by more than the lateness. */
    ghost predicate Watched()
      reads this
    {
      && wakeAt - idleTimeout <= now <= wakeAt + lateness
      && wakeAt <= since + hardCap + idleTimeout
      && since <= idleFrom
      && (staleEnded == 0 && own == 0 ==> idleSince == idleFrom && wakeAt <= idleFrom + idleTimeout)
    }

    /** The events kept are the newest of an alternating history with ids all different. */
    ghost predicate Recorded()
      reads this
    {
      && events == Latest(20, history)
      && Alternates(history)
      && UniqueIds(history)
      && (state == Open <==> |history| % 2 == 1)
    }

    constructor (lateness: int)
      requires lateness >= 0
      ensures Valid() && this.lateness == lateness && now == 0
      ensures state == IsClosed && !watching && history == [] && own == stale == 0
    {
      this.lateness := lateness;
      state, since, active, idleSince, events := IsClosed, 0, 0, 0, [];
      idleTimeout, hardCap, watching, wakeAt, now := 1, 0, false, 0, 0;
      history, own, stale, leftAtOpen, staleEnded, idleFrom := [], 0, 0, 0, 0, 0;
    }

    // -------------------------------------------------------------------
    // Opening and closing
    // -------------------------------------------------------------------

    /** Change state, recording an open or a close; `id` is a new random one. */
    method Set(next: State, id: nat)
      requires since <= now && Recorded() && !watching
      requires id !in Ids(history) && (next == Open ==> state == Opening) && (state == Open ==> next == IsClosed)
      modifies `state, `since, `events, `history
      ensures state == next && since == now && Recorded()
      ensures history == old(history) +
        if old(state) == Opening && next == Open then [TunnelEvent(id, Opened, now)]
        else if old(state) == Open && next == IsClosed then [TunnelEvent(id, Closed, now)] else []
    {
      var previous := state;
      state, since := next, now;
      if previous == Opening && next == Open {
        Record(id, Opened);
      } else if previous == Open && next == IsClosed {
        Record(id, Closed);
      }
    }

    method Record(id: nat, kind: Kind)
      modifies `events, `history
      requires since == now && id !in Ids(history)
      requires events == Latest(TUNNEL_EVENTS, history) && Alternates(history) && UniqueIds(history)
      requires kind == if |history| % 2 == 0 then Opened else Closed
      ensures events == Latest(TUNNEL_EVENTS, history) && Alternates(history) && UniqueIds(history)
      ensures history == old(history) + [TunnelEvent(id, kind, now)]
    {
      var event := TunnelEvent(id, kind, since);
      LatestWith(TUNNEL_EVENTS, history, event);
      assert forall i :: 0 <= i < |history| ==> Ids(history)[i] == history[i].id;
      if |events| == TUNNEL_EVENTS {
        events := events[1..];
      }
      events := events + [event];
      history := history + [event];
    }

    /** A Wake starts opening a tunnel, unless there is one or the nonce is malformed. */
    method Wake(nonceLength: nat, idle: int, cap: int, id: nat)
      requires Valid() && id !in Ids(history) && idle > 0 && cap >= 0
      modifies `state, `since, `events, `history, `idleTimeout, `hardCap
      ensures Valid() && history == old(history)
      ensures if old(state) == IsClosed && 0 < nonceLength <= 256
              then state == Opening && idleTimeout == idle && hardCap == cap
              else state == old(state) && since == old(since)
    {
      if state != IsClosed || nonceLength == 0 || MAX_NONCE < nonceLength {
        return;
      }
      Set(Opening, id);
      idleTimeout, hardCap := idle, cap;
    }

    /** Open just now: no stream has started, and none an earlier tunnel left has ended since. */
    ghost predicate JustOpened()
      reads this
    {
      && Valid() && watching
      && now == since == idleSince == idleFrom
      && own == staleEnded == 0
    }

    /** Connecting succeeds or fails. */
    method Connected(ok: bool, id: nat)
      requires Valid() && state == Opening && id !in Ids(history)
      modifies this
      ensures Valid() && now == old(now) && idleTimeout == old(idleTimeout) && hardCap == old(hardCap)
      ensures history == old(history) + if ok then [TunnelEvent(id, Opened, now)] else []
      ensures if ok then JustOpened() && leftAtOpen == old(stale + own)
              else state == IsClosed && !watching && own == old(own) && leftAtOpen == old(leftAtOpen)
    {
      if ok {
        Set(Open, id);
        Begin();
      } else {
        Set(IsClosed, id);
      }
    }

    /** A tunnel just opened counts its streams from none; any still served are an earlier one's. */
    method Begin()
      requires state == Open && since == now && Recorded()
      requires lateness >= 0 && idleTimeout > 0 && hardCap >= 0
      modifies `active, `idleSince, `watching, `wakeAt, `own, `stale, `leftAtOpen, `staleEnded, `idleFrom
      ensures JustOpened() && leftAtOpen == old(stale + own)
    {
      active, idleSince := 0, since;
      watching, wakeAt := true, now;
      stale, own := stale + own, 0;
      leftAtOpen, staleEnded, idleFrom := stale, 0, now;
    }

    /** The tunnel closes: its backstop returned, the Portal closed it, or the agent does. */
    method Finish(id: nat)
      requires Valid() && state == Open && id !in Ids(history)
      modifies `state, `since, `events, `history, `watching
      ensures Valid() && state == IsClosed && since == now
      ensures history == old(history) + [TunnelEvent(id, Closed, now)]
    {
      watching := false;
      Set(IsClosed, id);
    }

    // -------------------------------------------------------------------
    // Streams
    // -------------------------------------------------------------------

    method StreamStarts()
      requires Valid() && state == Open
      modifies `active, `own
      ensures Valid() && own == old(own) + 1
    {
      active := active + 1;
      own := own + 1;
    }

    /** One of this tunnel's streams ends, or one an earlier tunnel left behind. */
    method StreamEnds(earlier: bool)
      requires Valid() && (if earlier then stale > 0 else own > 0)
      modifies `active, `idleSince, `own, `stale, `staleEnded, `idleFrom
      ensures Valid() && idleSince == if active == 0 then now else old(idleSince)
      ensures earlier ==> stale == old(stale) - 1 && staleEnded == old(staleEnded) + 1 && own == old(own)
      ensures !earlier ==> own == old(own) - 1 && stale == old(stale) && staleEnded == old(staleEnded)
      ensures idleFrom == if !earlier && own == 0 then now else old(idleFrom)
    {
      active := active - 1;
      if active == 0 {
        idleSince := now;
      }
      if earlier {
        stale, staleEnded := stale - 1, staleEnded + 1;
      } else {
        own := own - 1;
        if own == 0 {
          idleFrom := now;
        }
      }
    }

    // -------------------------------------------------------------------
    // Time
    // -------------------------------------------------------------------

    /** Time passes, but never further past the end of a sleep than the lateness. */
    method Advance(t: int)
      requires Valid() && now <= t && (watching ==> t <= wakeAt + lateness)
      modifies `now
      ensures Valid() && now == t
    {
      now := t;
    }

    /**
     One pass of the backstop's loop, whenever its sleep ends. While no stream an
     earlier tunnel left has ended, it returns exactly at a deadline. Once one has, a
     tunnel without streams is not seen to be idle, and a tunnel with as many streams
     as have ended so is taken for idle. It otherwise sleeps on, for longer than nothing.
     */
    method Pass() returns (slept: int)
      requires Valid() && watching
      modifies `watching, `wakeAt
      ensures Valid()
      ensures now >= CapEnds() ==> !watching
      ensures now < CapEnds() && staleEnded == 0 ==> (watching <==> (own == 0 ==> now < idleFrom + idleTimeout))
      ensures now < CapEnds() && staleEnded > 0 ==>
        (watching <==> (own == staleEnded ==> now < idleSince + idleTimeout))
      ensures watching ==> slept > 0 && now + slept == wakeAt
      ensures watching ==> wakeAt == Min(CapEnds(), (if own == staleEnded then idleSince else now) + idleTimeout)
    {
      slept := 0;
      var closesAt := since + (idleTimeout + hardCap);
      if now >= closesAt {
        watching := false;
        return;
      }
      var next := closesAt;
      if active == 0 {
        var idleEnds := idleSince + idleTimeout;
        if now >= idleEnds {
          watching := false;
          return;
        }
        next := Min(next, idleEnds);
      } else {
        next := Min(next, now + idleTimeout);
      }
      wakeAt := next;
      slept := next - now;
    }

    /** When the tunnel is closed however busy it is. */
    function CapEnds(): int
      reads this
    {
      since + hardCap + idleTimeout
    }

    /**
     While it is watched, a tunnel is within both limits, give or take the lateness;
     the idle one, if no stream of an earlier tunnel was left when it opened.
     */
    lemma WithinLimits()
      requires Valid() && watching
      ensures now <= CapEnds() + lateness
      ensures leftAtOpen == 0 && own == 0 ==> now <= idleFrom + idleTimeout + lateness
    {
    }

    // -------------------------------------------------------------------
    // Streams that outlive their tunnel
    // -------------------------------------------------------------------

    /**
     Any stream left when a tunnel opens can keep it open past its idle limit: it ends,
     the count is -1, and though every sleep ends on time the tunnel stays open for
     another idle timeout, or until its hard cap, without a stream.
     */
    method MissesIdle()
      requires JustOpened() && leftAtOpen > 0 && hardCap > 0
      modifies this
      ensures Valid() && watching && own == 0 && idleFrom == old(now)
      ensures now == idleFrom + idleTimeout + Min(idleTimeout, hardCap)
      ensures idleTimeout == old(idleTimeout) && hardCap == old(hardCap)
    {
      StreamEnds(true);
      var slept := Pass();
      Advance(now + slept);
      slept := Pass();
      Advance(now + slept);
    }

    /**
     And it can have the tunnel closed under a live stream, at the idle timeout and
     before the hard cap: it ends, a stream starts, and the count is 0.
     */
    method ClosesBusy()
      requires JustOpened() && leftAtOpen > 0 && hardCap > 0
      modifies this
      ensures Valid() && !watching && own == 1 && now == since + idleTimeout < CapEnds()
    {
      StreamEnds(true);
      StreamStarts();
      var slept := Pass();
      Advance(now + slept);
      slept := Pass();
    }

    // -------------------------------------------------------------------
    // Runs
    // -------------------------------------------------------------------

    /** One step, if it can be taken now. */
    method Do(step: Step, id: nat)
      requires Valid() && id !in Ids(history)
      modifies this
      ensures Valid()
      ensures history == old(history) || exists e: TunnelEvent :: e.id == id && history == old(history) + [e]
    {
      match step
      case Wakes(nonceLength, idle, cap) => if idle > 0 && cap >= 0 { Wake(nonceLength, idle, cap, id); }
      case Connects(ok) => if state == Opening { Connected(ok, id); }
      case Closes => if state == Open { Finish(id); }
      case Starts => if state == Open { StreamStarts(); }
      case Ends(earlier) => if if earlier then stale > 0 else own > 0 { StreamEnds(earlier); }
      case Time(t) => if now <= t && (watching ==> t <= wakeAt + lateness) { Advance(t); }
      case BackstopRuns => if watching { var slept := Pass(); }
    }
  }

  datatype Step =
    | Wakes(nonceLength: nat, idle: int, cap: int)
    | Connects(ok: bool)
    | Closes
    | Starts
    | Ends(earlier: bool)
    | Time(t: int)
    | BackstopRuns

  /**
   Any run of any number of tunnels keeps a watched one within its hard cap, and
   within its idle limit too if no earlier stream was left when it opened, and records
   every open and close.
   */
  method AnyRun(lateness: int, steps: seq<Step>) returns (client: TunnelClient)
    requires lateness >= 0
    ensures client.Valid()
    ensures client.watching ==> client.now <= client.CapEnds() + lateness
    ensures client.watching && client.leftAtOpen == 0 && client.own == 0 ==>
      client.now <= client.idleFrom + client.idleTimeout + lateness
  {
    client := new TunnelClient(lateness);
    for k := 0 to |steps|
      invariant fresh(client) && client.Valid() && client.lateness == lateness
      invariant forall id :: id in Ids(client.history) ==> id < k
    {
      ghost var before := client.history;
      client.Do(steps[k], k);
      if client.history != before {
        IdsWith(before, client.history[|before|]);
      }
    }
  }

  /** A run of one tunnel whose stream outlives it, up to the next tunnel's opening. */
  method StreamLeft() returns (client: TunnelClient)
    ensures fresh(client) && client.JustOpened() && client.lateness == client.now == 0
    ensures client.leftAtOpen == 1 && client.idleTimeout == 10 && client.hardCap == 100
  {
    client := new TunnelClient(0);
    client.Wake(1, 10, 100, 0);
    client.Connected(true, 0);
    client.StreamStarts();
    client.Finish(1);
    client.Wake(1, 10, 100, 2);
    client.Connected(true, 2);
  }

  /** The next tunnel may be open for two idle timeouts without a stream. */
  method OutlivingStream() returns (client: TunnelClient)
    ensures client.Valid() && client.watching && client.own == 0 && client.lateness == 0
    ensures client.now == client.idleFrom + 2 * client.idleTimeout
  {
    client := StreamLeft();
    client.MissesIdle();
  }

  /** Or be closed with a stream open, long before its hard cap. */
  method ClosedUnderAStream() returns (client: TunnelClient)
    ensures client.Valid() && !client.watching && client.own == 1 && client.lateness == 0
    ensures client.now == client.since + client.idleTimeout < client.CapEnds()
  {
    client := StreamLeft();
    client.ClosesBusy();
  }
}
