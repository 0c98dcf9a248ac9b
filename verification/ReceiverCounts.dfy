/** The receiver's console-port counters, accumulated over a survey. */
module ReceiverCounting {

  const WRAP := 0x1_0000

  datatype Counters = Counters(rxBytes: nat, rtcm3Messages: nat, skippedBytes: nat, overrunErrors: nat) {
    function Plus(c: Counters): Counters {
      Counters(rxBytes + c.rxBytes, rtcm3Messages + c.rtcm3Messages,
               skippedBytes + c.skippedBytes, overrunErrors + c.overrunErrors)
    }

    predicate IsZero() {
      this == Counters(0, 0, 0, 0)
    }

    predicate AtMost(c: Counters) {
      && rxBytes <= c.rxBytes && rtcm3Messages <= c.rtcm3Messages
      && skippedBytes <= c.skippedBytes && overrunErrors <= c.overrunErrors
    }

    /** Message and error registers are 16 bits wide; byte registers don't wrap in a survey. */
    function Register(): Counters {
      Counters(rxBytes, rtcm3Messages % 65536, skippedBytes, overrunErrors % 65536)
    }

    predicate FitsRegister() {
      rtcm3Messages < 65536 && overrunErrors < 65536
    }
  }

  const ZERO := Counters(0, 0, 0, 0)

  /** What one read adds to the totals after the read before it. */
  function Growth(last: Counters, now: Counters): Counters {
    var base := if now.rxBytes < last.rxBytes then ZERO else last;
    Counters(now.rxBytes - base.rxBytes,
             (now.rtcm3Messages - base.rtcm3Messages) % WRAP,
             if now.skippedBytes < base.skippedBytes then 0 else now.skippedBytes - base.skippedBytes,
             (now.overrunErrors - base.overrunErrors) % WRAP)
  }

  function Totals(readings: seq<Counters>): Counters {
    var n := |readings|;
    if n <= 1 then ZERO else Totals(readings[..n - 1]).Plus(Growth(readings[n - 2], readings[n - 1]))
  }

  class ReceiverCounts {
    var seen: bool
    var last: Counters
    var totals: Counters
    ghost var readings: seq<Counters>

    ghost predicate Valid()
      reads this
    {
      && (seen <==> readings != [])
      && (seen ==> last == readings[|readings| - 1])
      && totals == Totals(readings)
    }

    constructor ()
      ensures Valid() && readings == []
    {
      seen, last, totals, readings := false, ZERO, ZERO, [];
    }

    method Add(now: Counters)
      requires Valid()
      modifies this
      ensures Valid() && readings == old(readings) + [now]
    {
      var before, was := seen, last;
      seen, last := true, now;
      readings := readings + [now];
      assert readings[..|readings| - 1] == old(readings);
      if !before {
        return;  // the first read is the baseline
      }
      if now.rxBytes < was.rxBytes {  // the receiver reset its counters
        was := ZERO;
      }
      totals := Counters(
        totals.rxBytes + now.rxBytes - was.rxBytes,
        totals.rtcm3Messages + (now.rtcm3Messages - was.rtcm3Messages) % WRAP,
        totals.skippedBytes + (if now.skippedBytes < was.skippedBytes then 0 else now.skippedBytes - was.skippedBytes),
        totals.overrunErrors + (now.overrunErrors - was.overrunErrors) % WRAP);
    }
  }

  // ---------------------------------------------------------------------
  // What the totals mean
  // ---------------------------------------------------------------------

  /**
   The truth at one read: how often the receiver has reset, its unwrapped counts
   since then, and what it counted after the read before this one and lost to a
   reset (zero unless it reset since).
   */
  datatype Truth = Truth(resets: nat, since: Counters, lost: Counters)

  /** What the receiver really counted between two readings. */
  function TrueStep(a: Truth, b: Truth): Counters
    requires Plausible(a, b)
  {
    if a.resets == b.resets then
      Counters(b.since.rxBytes - a.since.rxBytes, b.since.rtcm3Messages - a.since.rtcm3Messages,
               b.since.skippedBytes - a.since.skippedBytes, b.since.overrunErrors - a.since.overrunErrors)
    else
      b.lost.Plus(b.since)
  }

  /** Fewer than 2^16 counted between readings; a reset shows as a smaller byte count. */
  predicate Plausible(a: Truth, b: Truth) {
    if a.resets == b.resets then
      && a.since.AtMost(b.since) && b.lost == ZERO
      && b.since.rtcm3Messages - a.since.rtcm3Messages < 65536
      && b.since.overrunErrors - a.since.overrunErrors < 65536
    else
      a.resets < b.resets && b.since.rxBytes < a.since.rxBytes && b.since.FitsRegister()
  }

  predicate PlausibleRun(h: seq<Truth>) {
    forall i :: 0 < i < |h| ==> Plausible(h[i - 1], h[i])
  }

  function Registers(h: seq<Truth>): (r: seq<Counters>)
    ensures |r| == |h|
  {
    seq(|h|, i requires 0 <= i < |h| => h[i].since.Register())
  }

  function TrueGrowth(h: seq<Truth>): Counters
    requires PlausibleRun(h)
  {
    var n := |h|;
    if n <= 1 then ZERO else TrueGrowth(h[..n - 1]).Plus(TrueStep(h[n - 2], h[n - 1]))
  }

  function Lost(h: seq<Truth>): Counters {
    var n := |h|;
    if n <= 1 then ZERO else Lost(h[..n - 1]).Plus(h[n - 1].lost)
  }

  lemma WrappedDifference(a: nat, b: nat)
    requires a <= b < a + WRAP
    ensures (b % WRAP - a % WRAP) % WRAP == b - a
  {
    var d := b % WRAP - a % WRAP;
    var k := a / WRAP - b / WRAP;
    assert d == (b - a) + WRAP * k;
    if d >= 0 {
      assert k == 0;
    } else {
      assert k == -1;
    }
  }

  lemma GrowthIsTrue(a: Truth, b: Truth)
    requires Plausible(a, b)
    ensures TrueStep(a, b) == Growth(a.since.Register(), b.since.Register()).Plus(b.lost)
  {
    if a.resets == b.resets {
      WrappedDifference(a.since.rtcm3Messages, b.since.rtcm3Messages);
      WrappedDifference(a.since.overrunErrors, b.since.overrunErrors);
    }
  }

  /**
   What any read adds to the one before it, or to zero after a reset (which a smaller byte
   count shows): the wrapped registers come to the new read's, and skipped bytes never go back.
   */
  lemma GrowthReaches(last: Counters, now: Counters)
    ensures var g, base := Growth(last, now), if now.rxBytes < last.rxBytes then ZERO else last;
      && base.rxBytes + g.rxBytes == now.rxBytes
      && g.rtcm3Messages < 65536 && (base.rtcm3Messages + g.rtcm3Messages) % 65536 == now.rtcm3Messages % 65536
      && g.overrunErrors < 65536 && (base.overrunErrors + g.overrunErrors) % 65536 == now.overrunErrors % 65536
      && base.skippedBytes + g.skippedBytes
         == if now.skippedBytes < base.skippedBytes then base.skippedBytes else now.skippedBytes
  {
    var base := if now.rxBytes < last.rxBytes then ZERO else last;
    WrappedReaches(base.rtcm3Messages, now.rtcm3Messages);
    WrappedReaches(base.overrunErrors, now.overrunErrors);
  }

  lemma WrappedReaches(a: nat, b: nat)
    ensures var d := (b - a) % WRAP;
      d < 65536 && (a + d) % 65536 == b % 65536
  {
    var d, q := (b - a) % WRAP, (b - a) / WRAP;
    assert b - a == q * 65536 + d;
    assert a + d == b - q * 65536;
    ModShift(b, q);
  }

  lemma ModShift(b: int, q: int)
    ensures (b - q * 65536) % 65536 == b % 65536
  {
    var r := b % 65536;
    assert b - q * 65536 == (b / 65536 - q) * 65536 + r;
  }

  predicate NeverReset(h: seq<Truth>) {
    forall i :: 0 < i < |h| ==> h[i - 1].resets == h[i].resets
  }

  /** If the truth was totals and losses, it still is after growth and losses on both sides. */
  lemma Regroup(truth: Counters, totals: Counters, lost: Counters, growth: Counters, loss: Counters,
                truth': Counters, totals': Counters, lost': Counters)
    requires truth == totals.Plus(lost) && truth' == truth.Plus(growth.Plus(loss))
    requires totals' == totals.Plus(growth) && lost' == lost.Plus(loss)
    ensures truth' == totals'.Plus(lost')
  {
  }

  /** One more read adds the same growth to the totals and, but for what was lost, to the truth. */
  lemma LastGrowth(h: seq<Truth>) returns (g: Counters)
    requires |h| > 1 && PlausibleRun(h)
    ensures Totals(Registers(h)) == Totals(Registers(h[..|h| - 1])).Plus(g)
    ensures TrueStep(h[|h| - 2], h[|h| - 1]) == g.Plus(h[|h| - 1].lost)
  {
    assert Registers(h)[..|h| - 1] == Registers(h[..|h| - 1]);
    g := Growth(h[|h| - 2].since.Register(), h[|h| - 1].since.Register());
    GrowthIsTrue(h[|h| - 2], h[|h| - 1]);
  }

  /**
   Through wraps and resets, the totals are the true growth since the first read,
   less exactly what was lost to resets.
   */
  lemma {:induction false} TotalsAreTrue(h: seq<Truth>)
    requires PlausibleRun(h)
    ensures TrueGrowth(h) == Totals(Registers(h)).Plus(Lost(h))
  {
    if |h| > 1 {
      TotalsAreTrue(h[..|h| - 1]);
      TotalsStayTrue(h);
    } else {
      NothingYet(h);
      NothingAdded(TrueGrowth(h), Totals(Registers(h)), Lost(h));
    }
  }

  lemma TotalsStayTrue(h: seq<Truth>)
    requires |h| > 1 && PlausibleRun(h)
    requires TrueGrowth(h[..|h| - 1]) == Totals(Registers(h[..|h| - 1])).Plus(Lost(h[..|h| - 1]))
    ensures TrueGrowth(h) == Totals(Registers(h)).Plus(Lost(h))
  {
    var init, last := h[..|h| - 1], h[|h| - 1];
    var g := LastGrowth(h);
    TruthOneMore(h, g.Plus(last.lost));
    Regroup(TrueGrowth(init), Totals(Registers(init)), Lost(init), g, last.lost,
            TrueGrowth(h), Totals(Registers(h)), Lost(h));
  }

  lemma TruthOneMore(h: seq<Truth>, step: Counters)
    requires |h| > 1 && PlausibleRun(h) && step == TrueStep(h[|h| - 2], h[|h| - 1])
    ensures TrueGrowth(h) == TrueGrowth(h[..|h| - 1]).Plus(step)
    ensures Lost(h) == Lost(h[..|h| - 1]).Plus(h[|h| - 1].lost)
  {
  }

  lemma NothingYet(h: seq<Truth>)
    requires |h| <= 1 && PlausibleRun(h)
    ensures TrueGrowth(h) == Totals(Registers(h)) && Lost(h).IsZero()
  {
  }

  lemma NothingAdded(truth: Counters, totals: Counters, lost: Counters)
    requires truth == totals && lost.IsZero()
    ensures truth == totals.Plus(lost)
  {
  }

  /** The totals never exceed the truth, and without a reset they are the truth. */
  lemma TotalsNeverExceedTruth(h: seq<Truth>)
    requires PlausibleRun(h)
    ensures Totals(Registers(h)).AtMost(TrueGrowth(h))
    ensures NeverReset(h) ==> Totals(Registers(h)) == TrueGrowth(h)
  {
    TotalsAreTrue(h);
    if NeverReset(h) {
      NothingLostWithoutReset(h);
    }
  }

  lemma {:induction false} NothingMore(lost: Counters, more: Counters)
    requires lost.IsZero() && more.IsZero()
    ensures lost.Plus(more).IsZero()
  {
  }

  lemma {:induction false} NothingLostWithoutReset(h: seq<Truth>)
    requires PlausibleRun(h) && NeverReset(h)
    ensures Lost(h).IsZero()
  {
    if |h| > 1 {
      var init, last := h[..|h| - 1], h[|h| - 1];
      assert Plausible(h[|h| - 2], last) && last.lost.IsZero();
      NothingLostWithoutReset(init);
      NothingMore(Lost(init), last.lost);
    }
  }
}
