/**
 Event log entries for the Portal tunnel's opens and closes: read from the
 agent's status every few seconds, and raised once each, though only the last
 200 raised ids are remembered.
 */
module PortalEvents {

  import opened Common

  datatype Kind = Opened | Closed

  datatype TunnelEvent = TunnelEvent(id: nat, kind: Kind, at: int)

  /** How many event ids are remembered as already raised. */
  const REMEMBERED: nat := 200

  /** How many tunnel opens and closes the agent's status keeps. */
  const TUNNEL_EVENTS: nat := 20

  function Ids(events: seq<TunnelEvent>): seq<nat> {
    seq(|events|, i requires 0 <= i < |events| => events[i].id)
  }

  /** The last at most n of a sequence. */
  function Latest<T>(n: nat, s: seq<T>): seq<T> {
    if |s| <= n then s else s[|s| - n..]
  }

  lemma LatestWith<T>(n: nat, s: seq<T>, x: T)
    requires n > 0
    ensures Latest(n, s + [x]) == if |Latest(n, s)| < n then Latest(n, s) + [x] else Latest(n, s)[1..] + [x]
  {
  }

  lemma IdsWith(events: seq<TunnelEvent>, e: TunnelEvent)
    ensures Ids(events + [e]) == Ids(events) + [e.id]
  {
  }

  /** The log after raising one status's new events, remembering the last `memory` raised. */
  function Raise(log: seq<TunnelEvent>, events: seq<TunnelEvent>, memory: nat): seq<TunnelEvent> {
    if events == [] then log
    else
      var before := Raise(log, events[..|events| - 1], memory);
      var e := events[|events| - 1];
      if e.id in Latest(memory, Ids(before)) then before else before + [e]
  }

  /** The log after raising one status's new events, remembering every one ever raised. */
  function RaiseNew(log: seq<TunnelEvent>, events: seq<TunnelEvent>): seq<TunnelEvent> {
    if events == [] then log
    else
      var before := RaiseNew(log, events[..|events| - 1]);
      var e := events[|events| - 1];
      if e.id in Ids(before) then before else before + [e]
  }

  /** The last event is raised unless its id is among those remembered. */
  lemma RaiseLast(log: seq<TunnelEvent>, events: seq<TunnelEvent>, memory: nat, now: seq<TunnelEvent>, known: bool)
    requires events != [] && Raise(log, events[..|events| - 1], memory) == now
    requires events[|events| - 1].id in Latest(memory, Ids(now)) <==> known
    ensures Raise(log, events, memory) == now + if known then [] else [events[|events| - 1]]
  {
  }

  lemma RaiseNewLast(log: seq<TunnelEvent>, events: seq<TunnelEvent>, now: seq<TunnelEvent>, known: bool)
    requires events != [] && RaiseNew(log, events[..|events| - 1]) == now
    requires events[|events| - 1].id in Ids(now) <==> known
    ensures RaiseNew(log, events) == now + if known then [] else [events[|events| - 1]]
  {
  }

  class PortalEvents {
    /** The ids remembered, oldest first. */
    var seen: seq<nat>
    /** What has been published. */
    var log: seq<TunnelEvent>

    ghost predicate Valid()
      reads this
    {
      seen == Latest(REMEMBERED, Ids(log))
    }

    constructor ()
      ensures Valid() && log == []
    {
      seen, log := [], [];
    }

    /** Read the agent's status once (it may be unavailable) and raise any new entries. */
    method Check(status: Option<seq<TunnelEvent>>)
      requires Valid()
      modifies this
      ensures Valid()
      ensures log == if status.None? then old(log) else Raise(old(log), status.value, 200)
    {
      if status.None? {
        return;
      }
      var events := status.value;
      for k := 0 to |events|
        invariant Valid() && log == Raise(old(log), events[..k], REMEMBERED)
      {
        assert events[..k + 1][..k] == events[..k];
        if events[k].id in seen {
          continue;
        }
        Remember(events[k]);
        log := log + [events[k]];
      }
      assert events[..|events|] == events;
    }

    /** Add an id as the newest, and forget the oldest while there are too many. */
    method Remember(e: TunnelEvent)
      requires Valid()
      modifies `seen
      ensures seen == Latest(REMEMBERED, Ids(log + [e]))
    {
      IdsWith(log, e);
      LatestWith(REMEMBERED, Ids(log), e.id);
      seen := seen + [e.id];
      ghost var all := seen;
      while |seen| > REMEMBERED
        invariant |seen| <= |all| && seen == all[|all| - |seen|..]
        invariant |seen| == |all| || REMEMBERED <= |seen|
      {
        seen := seen[1..];
      }
    }
  }

  // -------------------------------------------------------------------
  // Any number of reads of one ever-growing stream
  // -------------------------------------------------------------------

  /** A status lists stream[low..high], oldest first. */
  datatype Window = Window(low: nat, high: nat)

  predicate UniqueIds(stream: seq<TunnelEvent>) {
    forall i, j :: 0 <= i < j < |stream| ==> stream[i].id != stream[j].id
  }

  /** Each status lists at most 20 consecutive events, and no earlier ones than the status before. */
  predicate Sliding(stream: seq<TunnelEvent>, windows: seq<Window>) {
    && (forall k :: 0 <= k < |windows| ==>
          windows[k].low <= windows[k].high <= |stream| && windows[k].high - windows[k].low <= TUNNEL_EVENTS)
    && (forall k :: 0 < k < |windows| ==>
          windows[k - 1].low <= windows[k].low && windows[k - 1].high <= windows[k].high)
  }

  function Listed(stream: seq<TunnelEvent>, w: Window): seq<TunnelEvent>
    requires w.low <= w.high <= |stream|
  {
    stream[w.low..w.high]
  }

  function Range(low: nat, high: nat): (r: seq<nat>)
    requires low <= high
  {
    seq(high - low, i requires 0 <= i < high - low => low + i)
  }

  function Pick(stream: seq<TunnelEvent>, indices: seq<nat>): seq<TunnelEvent>
    requires forall i :: i in indices ==> i < |stream|
  {
    seq(|indices|, k requires 0 <= k < |indices| => assert indices[k] in indices; stream[indices[k]])
  }

  /** How far the statuses have listed the stream. */
  function Reached(windows: seq<Window>): nat {
    if windows == [] then 0 else windows[|windows| - 1].high
  }

  function Bottom(windows: seq<Window>): nat {
    if windows == [] then 0 else windows[|windows| - 1].low
  }

  /** Where in the stream each entry of the log lies. */
  function Raised(stream: seq<TunnelEvent>, windows: seq<Window>): seq<nat>
    requires Sliding(stream, windows)
  {
    if windows == [] then []
    else
      var init, w := windows[..|windows| - 1], windows[|windows| - 1];
      SlidesOn(stream, windows);
      Through(Raised(stream, init), Max(w.low, Reached(init)), w.high)
  }

  /** The indices from low up to high added. */
  function Through(at: seq<nat>, low: nat, high: nat): seq<nat> {
    if low < high then at + Range(low, high) else at
  }

  lemma ThroughOneMore(at: seq<nat>, low: nat, j: nat)
    requires low <= j
    ensures Through(at, low, j + 1) == Through(at, low, j) + [j]
  {
    assert Range(low, j + 1) == Range(low, j) + [j];
  }

  lemma ThroughContains(at: seq<nat>, low: nat, high: nat, i: nat)
    ensures i in Through(at, low, high) <==> i in at || low <= i < high
  {
    if low <= i < high {
      assert Range(low, high)[i - low] == i;
      assert Through(at, low, high)[|at| + i - low] == i;
    }
    if k :| 0 <= k < |at| && at[k] == i {
      assert Through(at, low, high)[k] == i;
    }
  }

  lemma ThroughAscends(at: seq<nat>, low: nat, high: nat)
    requires Ascending(at) && forall i :: i in at ==> i < low
    ensures Ascending(Through(at, low, high))
  {
    assert forall k :: 0 <= k < |at| ==> at[k] in at;
  }

  /** The last indices are low up to high. */
  ghost predicate EndsIn(at: seq<nat>, low: nat, high: nat) {
    low <= high <= low + |at| && forall k :: low - high + |at| <= k < |at| ==> at[k] == high - |at| + k
  }

  lemma SlidesOn(stream: seq<TunnelEvent>, windows: seq<Window>)
    requires Sliding(stream, windows) && windows != []
    ensures Sliding(stream, windows[..|windows| - 1])
    ensures Reached(windows[..|windows| - 1]) <= windows[|windows| - 1].high
    ensures Bottom(windows[..|windows| - 1]) <= windows[|windows| - 1].low
  {
  }

  /** Some status listed the stream's event i. */
  predicate Lists(windows: seq<Window>, i: int) {
    exists k :: 0 <= k < |windows| && windows[k].low <= i < windows[k].high
  }

  lemma ListsWith(windows: seq<Window>, i: int)
    requires windows != []
    ensures Lists(windows, i) <==>
      Lists(windows[..|windows| - 1], i) || windows[|windows| - 1].low <= i < windows[|windows| - 1].high
  {
    var init := windows[..|windows| - 1];
    assert forall k :: 0 <= k < |init| ==> init[k] == windows[k];
  }

  ghost predicate Ascending(indices: seq<nat>) {
    forall k, l :: 0 <= k < l < |indices| ==> indices[k] < indices[l]
  }

  /** Every listed event once, in stream order, and nothing else. */
  lemma {:induction false} RaisedOnceInOrder(stream: seq<TunnelEvent>, windows: seq<Window>)
    requires Sliding(stream, windows)
    ensures Ascending(Raised(stream, windows))
    ensures forall i: nat :: i in Raised(stream, windows) <==> Lists(windows, i)
    ensures forall i :: i in Raised(stream, windows) ==> i < Reached(windows) <= |stream|
  {
    if windows != [] {
      SlidesOn(stream, windows);
      var init, w := windows[..|windows| - 1], windows[|windows| - 1];
      var at, m := Raised(stream, init), Max(w.low, Reached(init));
      RaisedOnceInOrder(stream, init);
      ThroughAscends(at, m, w.high);
      forall i: nat ensures i in Raised(stream, windows) <==> Lists(windows, i)
                    ensures i in Raised(stream, windows) ==> i < w.high
      {
        ListsWith(windows, i);
        ThroughContains(at, m, w.high, i);
        if w.low <= i < Reached(init) {
          assert init[|init| - 1].low <= i < init[|init| - 1].high;
        }
      }
    }
  }

  /** What the last status listed are the last entries raised. */
  lemma {:induction false} LastWindowIsLast(stream: seq<TunnelEvent>, windows: seq<Window>)
    requires Sliding(stream, windows)
    ensures EndsIn(Raised(stream, windows), Bottom(windows), Reached(windows))
  {
    if windows != [] {
      SlidesOn(stream, windows);
      LastWindowIsLast(stream, windows[..|windows| - 1]);
    }
  }

  // -------------------------------------------------------------------
  // Remembering 200 is as good as remembering all
  // -------------------------------------------------------------------

  /** The log after the statuses, remembering the last `memory` raised. */
  function Log(stream: seq<TunnelEvent>, windows: seq<Window>, memory: nat): seq<TunnelEvent>
    requires Sliding(stream, windows)
  {
    if windows == [] then []
    else
      SlidesOn(stream, windows);
      Raise(Log(stream, windows[..|windows| - 1], memory), Listed(stream, windows[|windows| - 1]), memory)
  }

  /** The log after the statuses, remembering everything. */
  function FullLog(stream: seq<TunnelEvent>, windows: seq<Window>): seq<TunnelEvent>
    requires Sliding(stream, windows)
  {
    if windows == [] then []
    else
      SlidesOn(stream, windows);
      RaiseNew(FullLog(stream, windows[..|windows| - 1]), Listed(stream, windows[|windows| - 1]))
  }

  /**
   Over any number of statuses, the logs of every memory of at least 20 ids, and of an
   unbounded one, are the same: every listed event, once each and in stream order.
   */
  lemma {:induction false} BoundedIsUnbounded(stream: seq<TunnelEvent>, windows: seq<Window>, memory: nat)
    requires UniqueIds(stream) && Sliding(stream, windows) && memory >= TUNNEL_EVENTS
    ensures InBounds(stream, Raised(stream, windows))
    ensures Log(stream, windows, memory) == FullLog(stream, windows) == Pick(stream, Raised(stream, windows))
  {
    RaisedOnceInOrder(stream, windows);
    if windows != [] {
      SlidesOn(stream, windows);
      BoundedIsUnbounded(stream, windows[..|windows| - 1], memory);
      LastStatus(stream, windows);
    }
  }

  /** The last status brings the log from what the statuses before it raised to what they and it do. */
  lemma LastStatus(stream: seq<TunnelEvent>, windows: seq<Window>)
    requires UniqueIds(stream) && Sliding(stream, windows) && windows != []
    ensures var init, w := windows[..|windows| - 1], windows[|windows| - 1];
      && Sliding(stream, init) && InBounds(stream, Raised(stream, init)) && w.low <= w.high <= |stream|
      && Agree(stream, Pick(stream, Raised(stream, init)), Listed(stream, w), Raised(stream, windows))
  {
    SlidesOn(stream, windows);
    var init, w := windows[..|windows| - 1], windows[|windows| - 1];
    RaisedOnceInOrder(stream, init);
    LastWindowIsLast(stream, init);
    OneStatus(stream, Raised(stream, init), Bottom(init), Reached(init), w.low, Listed(stream, w));
  }

  /** The windows the statuses gave; the agent may be unavailable any number of times between them. */
  function Given(statuses: seq<Option<Window>>): seq<Window> {
    if statuses == [] then []
    else
      var last := statuses[|statuses| - 1];
      if last.Some? then Given(statuses[..|statuses| - 1]) + [last.value] else Given(statuses[..|statuses| - 1])
  }

  /** A run of checks raises exactly the listed events, whatever it has had to forget. */
  method Checks(stream: seq<TunnelEvent>, statuses: seq<Option<Window>>) returns (portal: PortalEvents)
    requires UniqueIds(stream) && Sliding(stream, Given(statuses))
    ensures portal.Valid() && fresh(portal) && portal.log == FullLog(stream, Given(statuses))
    decreases |statuses|
  {
    if statuses == [] {
      portal := new PortalEvents();
      return;
    }
    var last := statuses[|statuses| - 1];
    if last.None? {
      portal := Checks(stream, statuses[..|statuses| - 1]);
      portal.Check(None);
    } else {
      ghost var before := Given(statuses[..|statuses| - 1]);
      OneMoreWindow(stream, before, last.value);
      portal := Checks(stream, statuses[..|statuses| - 1]);
      portal.Check(Some(Listed(stream, last.value)));
    }
  }

  lemma OneMoreWindow(stream: seq<TunnelEvent>, windows: seq<Window>, w: Window)
    requires UniqueIds(stream) && Sliding(stream, windows + [w])
    ensures Sliding(stream, windows) && w.low <= w.high <= |stream|
    ensures FullLog(stream, windows + [w]) == Raise(FullLog(stream, windows), Listed(stream, w), REMEMBERED)
  {
    var longer := windows + [w];
    assert longer[..|longer| - 1] == windows;
    SlidesOn(stream, longer);
    BoundedIsUnbounded(stream, longer, REMEMBERED);
    BoundedIsUnbounded(stream, windows, REMEMBERED);
  }

  /** An agent that keeps its newest 20 events, read at any moments, lists such windows. */
  lemma NewestSlide(stream: seq<TunnelEvent>, counts: seq<nat>)
    requires forall k :: 0 <= k < |counts| ==> counts[k] <= |stream|
    requires forall k :: 0 < k < |counts| ==> counts[k - 1] <= counts[k]
    ensures var windows := seq(|counts|, k requires 0 <= k < |counts| => Newest(counts[k]));
      && Sliding(stream, windows)
      && forall k :: 0 <= k < |counts| ==>
           Listed(stream, windows[k]) == Latest(TUNNEL_EVENTS, stream[..counts[k]])
  {
  }

  function Newest(count: nat): (w: Window)
  {
    Window(if count < TUNNEL_EVENTS then 0 else count - TUNNEL_EVENTS, count)
  }

  lemma AlreadyRaised(
    stream: seq<TunnelEvent>, at: seq<nat>, bottom: nat, reached: nat, j: nat, memory: nat)
    requires bottom <= j < reached <= bottom + TUNNEL_EVENTS && TUNNEL_EVENTS <= memory
    requires EndsIn(at, bottom, reached)
    requires forall i :: i in at ==> i < |stream|
    ensures j < |stream| && stream[j].id in Latest(memory, Ids(Pick(stream, at)))
    ensures stream[j].id in Ids(Pick(stream, at))
  {
    var k := |at| - (reached - j);
    assert at[k] == j && j in at;
    var ids := Ids(Pick(stream, at));
    assert ids[k] == stream[j].id;
    InLatest(memory, ids, k);
  }

  lemma InLatest<T>(n: nat, s: seq<T>, k: nat)
    requires |s| - n <= k < |s|
    ensures s[k] in Latest(n, s)
  {
    if |s| > n {
      assert Latest(n, s)[k - (|s| - n)] == s[k];
    }
  }

  lemma NotYetRaised(stream: seq<TunnelEvent>, cur: seq<nat>, j: nat, memory: nat)
    requires UniqueIds(stream) && j < |stream|
    requires forall i :: i in cur ==> i < j
    ensures stream[j].id !in Ids(Pick(stream, cur))
    ensures stream[j].id !in Latest(memory, Ids(Pick(stream, cur)))
  {
    var ids := Ids(Pick(stream, cur));
    forall k | 0 <= k < |ids| ensures ids[k] != stream[j].id {
      assert cur[k] in cur;
    }
  }

  ghost predicate InBounds(stream: seq<TunnelEvent>, indices: seq<nat>) {
    forall i :: i in indices ==> i < |stream|
  }

  /** Raising these events, with any memory of 20 or more, makes the log the stream's events at these indices. */
  ghost predicate Agree(stream: seq<TunnelEvent>, log: seq<TunnelEvent>, events: seq<TunnelEvent>, indices: seq<nat>) {
    && InBounds(stream, indices) && RaiseNew(log, events) == Pick(stream, indices)
    && forall memory: nat :: memory >= TUNNEL_EVENTS ==> Raise(log, events, memory) == Pick(stream, indices)
  }

  /** The indices raised: none past `reached`, and at the end the last window's, from `bottom` on. */
  ghost predicate RaisedSoFar(stream: seq<TunnelEvent>, at: seq<nat>, bottom: nat, reached: nat) {
    && UniqueIds(stream) && reached <= bottom + TUNNEL_EVENTS && EndsIn(at, bottom, reached)
    && forall i :: i in at ==> i < reached && i < |stream|
  }

  ghost predicate Occurs(stream: seq<TunnelEvent>, low: nat, events: seq<TunnelEvent>) {
    low + |events| <= |stream| && forall k :: 0 <= k < |events| ==> events[k] == stream[low + k]
  }

  /** A status whose window begins at or after the last one's: the part not listed before is raised. */
  lemma {:induction false} OneStatus(
    stream: seq<TunnelEvent>, at: seq<nat>, bottom: nat, reached: nat, low: nat, events: seq<TunnelEvent>)
    requires RaisedSoFar(stream, at, bottom, reached) && bottom <= low && Occurs(stream, low, events)
    ensures Agree(stream, Pick(stream, at), events, Through(at, Max(low, reached), low + |events|))
    decreases |events|
  {
    if events == [] {
      NoEvents(Pick(stream, at), events);
    } else {
      var last := |events| - 1;
      OneStatus(stream, at, bottom, reached, low, events[..last]);
      OneEvent(stream, at, bottom, reached, low, low + last, Pick(stream, at), events);
    }
  }

  lemma NoEvents(log: seq<TunnelEvent>, events: seq<TunnelEvent>)
    requires events == []
    ensures RaiseNew(log, events) == log && forall memory: nat :: Raise(log, events, memory) == log
  {
  }

  lemma OneEvent(
    stream: seq<TunnelEvent>, at: seq<nat>, bottom: nat, reached: nat, low: nat, j: nat,
    log: seq<TunnelEvent>, events: seq<TunnelEvent>)
    requires RaisedSoFar(stream, at, bottom, reached) && bottom <= low <= j < |stream|
    requires events != [] && events[|events| - 1] == stream[j]
    requires Agree(stream, log, events[..|events| - 1], Through(at, Max(low, reached), j))
    ensures Agree(stream, log, events, Through(at, Max(low, reached), j + 1))
  {
    var m := Max(low, reached);
    var cur, now := Through(at, m, j), Pick(stream, Through(at, m, j));
    if j >= m {
      forall i | i in cur ensures i < j {
        ThroughContains(at, m, j, i);
      }
      ThroughOneMore(at, m, j);
    }
    var next := Pick(stream, Through(at, m, j + 1));
    assert next == now + if j < m then [] else [stream[j]];
    KnownExactly(stream, at, bottom, reached, low, j, TUNNEL_EVENTS);
    RaiseNewLast(log, events, now, j < m);
    forall memory: nat | memory >= TUNNEL_EVENTS ensures Raise(log, events, memory) == next {
      KnownExactly(stream, at, bottom, reached, low, j, memory);
      RaiseLast(log, events, memory, now, j < m);
    }
  }

  /** An event listed before is remembered, and one not listed before is in neither memory. */
  lemma KnownExactly(
    stream: seq<TunnelEvent>, at: seq<nat>, bottom: nat, reached: nat, low: nat, j: nat, memory: nat)
    requires RaisedSoFar(stream, at, bottom, reached) && bottom <= low <= j < |stream| && memory >= TUNNEL_EVENTS
    requires InBounds(stream, Through(at, Max(low, reached), j))
    ensures var now := Pick(stream, Through(at, Max(low, reached), j));
      && (stream[j].id in Latest(memory, Ids(now)) <==> j < Max(low, reached))
      && (stream[j].id in Ids(now) <==> j < Max(low, reached))
  {
    var m := Max(low, reached);
    if j < m {
      AlreadyRaised(stream, at, bottom, reached, j, memory);
    } else {
      forall i | i in Through(at, m, j) ensures i < j {
        ThroughContains(at, m, j, i);
      }
      NotYetRaised(stream, Through(at, m, j), j, memory);
    }
  }
}
