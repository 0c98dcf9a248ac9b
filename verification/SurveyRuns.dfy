/** Properties of every run of the sample loop, over `TraceOf` any history of samples. */
module SurveyRuns {
  import opened Common
  import opened SurveyModels
  import opened SurveyAveraging
  import opened SurveyLoop

  // ---------------------------------------------------------------------
  // The chain of accepted Fixed samples
  // ---------------------------------------------------------------------

  /** `e` is sample number `e.number` of `h`. */
  predicate Taken(h: seq<Sample>, e: Entry) {
    e.number < |h| && h[e.number] == e.sample
  }

  /** Samples of `h`, in the order taken. */
  predicate Listed(h: seq<Sample>, entries: seq<Entry>) {
    && (forall k :: 0 <= k < |entries| ==> Taken(h, entries[k]))
    && (forall j, k :: 0 <= j < k < |entries| ==> entries[j].number < entries[k].number)
  }

  lemma ListedStep(h: seq<Sample>, s: Sample, entries: seq<Entry>)
    requires Listed(h, entries)
    ensures Listed(h + [s], entries)
    ensures Listed(h + [s], entries + [Entry(|h|, s)])
  {
  }

  /** Fresh Fixed samples, each within 5 cm of the one before. */
  predicate Chain(entries: seq<Entry>) {
    && (forall k :: 0 <= k < |entries| ==> FreshFixed(entries[k].sample.position))
    && (forall k :: 0 < k < |entries| ==>
          Within(entries[k].sample.position.at, entries[k - 1].sample.position.at, FIXED_JUMP_M))
  }

  /** Everything a trace holds was sampled, in order; the chain starts at the last jump. */
  predicate Sound(h: seq<Sample>, t: Trace) {
    && Listed(h, t.chain) && Chain(t.chain) && Listed(h, t.jumps) && Listed(h, t.observed)
    && StartsAtJump(t)
    && (t.runStart.Some? ==> Taken(h, t.runStart.value))
    && (t.lastObserved.Some? ==> Taken(h, t.lastObserved.value))
  }

  lemma ChainStep(l: Limits, t: Trace, e: Entry)
    requires Chain(t.chain)
    ensures Chain(Next(l, t, e).chain)
  {
  }

  lemma ListedMaybe(h: seq<Sample>, s: Sample, entries: seq<Entry>, more: bool)
    requires Listed(h, entries)
    ensures Listed(h + [s], entries + if more then [Entry(|h|, s)] else [])
  {
    ListedStep(h, s, entries);
    assert entries + [] == entries;
  }

  /** Every list of the next trace is of samples taken, in order. */
  lemma ListsStep(l: Limits, h: seq<Sample>, t: Trace, s: Sample)
    requires Listed(h, t.chain) && Listed(h, t.jumps) && Listed(h, t.observed)
    ensures var t' := Next(l, t, Entry(|h|, s));
      Listed(h + [s], t'.chain) && Listed(h + [s], t'.jumps) && Listed(h + [s], t'.observed)
  {
    var e := Entry(|h|, s);
    var judged := Judge(l, t.Reference(), t.excursions, s.position);
    assert [] + [e] == [e];
    ListedMaybe(h, s, if judged.Jump? then [] else t.chain, judged.Jump? || judged.Near?);
    ListedMaybe(h, s, t.jumps, judged.Jump?);
    ListedMaybe(h, s, if judged.Jump? then [] else t.observed, true);
    ListedMaybe(h, s, if judged.Jump? then [] else t.observed, false);
  }

  lemma MarksStep(l: Limits, h: seq<Sample>, t: Trace, s: Sample)
    requires t.runStart.Some? ==> Taken(h, t.runStart.value)
    requires t.lastObserved.Some? ==> Taken(h, t.lastObserved.value)
    ensures var t' := Next(l, t, Entry(|h|, s));
      && (t'.runStart.Some? ==> Taken(h + [s], t'.runStart.value))
      && (t'.lastObserved.Some? ==> Taken(h + [s], t'.lastObserved.value))
  {
  }

  /** The chain starts at the last jump. */
  predicate StartsAtJump(t: Trace) {
    t.jumps != [] ==> t.chain != [] && t.chain[0] == t.jumps[|t.jumps| - 1]
  }

  lemma StartStep(l: Limits, t: Trace, e: Entry)
    requires StartsAtJump(t)
    ensures StartsAtJump(Next(l, t, e))
  {
  }

  lemma SoundStep(l: Limits, h: seq<Sample>, t: Trace, s: Sample)
    requires Sound(h, t)
    ensures Sound(h + [s], Next(l, t, Entry(|h|, s)))
  {
    ListsStep(l, h, t, s);
    MarksStep(l, h, t, s);
    ChainStep(l, t, Entry(|h|, s));
    StartStep(l, t, Entry(|h|, s));
  }

  lemma {:induction false} TraceIsSound(l: Limits, h: seq<Sample>)
    ensures Sound(h, TraceOf(l, h))
  {
    if h != [] {
      var init, s := h[..|h| - 1], h[|h| - 1];
      assert h == init + [s];
      TraceIsSound(l, init);
      TraceStep(l, init, s);
      SoundStep(l, init, TraceOf(l, init), s);
    }
  }

  /** Two accepted Fixed samples k steps of the chain apart are within k times 5 cm. */
  lemma {:induction false} DriftBound(chain: seq<Entry>, a: nat, b: nat)
    requires Chain(chain) && a <= b < |chain|
    ensures Within(chain[b].sample.position.at, chain[a].sample.position.at, (b - a) as real * FIXED_JUMP_M)
    decreases b
  {
    if a < b {
      DriftBound(chain, a, b - 1);
      Triangle(chain[b].sample.position.at, chain[b - 1].sample.position.at, chain[a].sample.position.at,
               FIXED_JUMP_M, (b - 1 - a) as real * FIXED_JUMP_M);
      assert FIXED_JUMP_M + (b - 1 - a) as real * FIXED_JUMP_M == (b - a) as real * FIXED_JUMP_M;
    }
  }

  // ---------------------------------------------------------------------
  // Excursions
  // ---------------------------------------------------------------------

  /** How many fresh Fixed samples `h` has from number `from` on. */
  function FreshFixedFrom(h: seq<Sample>, from: nat): nat {
    if |h| <= from then 0
    else FreshFixedFrom(h[..|h| - 1], from) + if FreshFixed(h[|h| - 1].position) then 1 else 0
  }

  /** The number after the last accepted Fixed. */
  function AfterChain(t: Trace): nat {
    if t.chain == [] then 0 else t.chain[|t.chain| - 1].number + 1
  }

  /** The fresh Fixed samples from `from` on are all more than 5 cm from `reference`. */
  predicate AllApart(h: seq<Sample>, from: nat, reference: Option<Xyz>) {
    forall i :: from <= i < |h| && FreshFixed(h[i].position) ==>
      reference.Some? && Apart(h[i].position.at, reference.value)
  }

  predicate Counted(h: seq<Sample>, t: Trace) {
    && t.excursions == FreshFixedFrom(h, AfterChain(t)) < FIXED_JUMP_SAMPLES
    && AllApart(h, AfterChain(t), t.Reference())
  }

  lemma CountedStep(l: Limits, h: seq<Sample>, t: Trace, s: Sample)
    requires l.corrected && Sound(h, t) && Counted(h, t)
    ensures Counted(h + [s], Next(l, t, Entry(|h|, s)))
  {
    var judged := Judge(l, t.Reference(), t.excursions, s.position);
    if judged.Near? || judged.Jump? {
      CountedFromNone(h + [s], Next(l, t, Entry(|h|, s)));
    } else {
      CountedOn(h, t, s, Next(l, t, Entry(|h|, s)));
    }
  }

  /** An accepted Fixed starts the count again. */
  lemma CountedFromNone(h: seq<Sample>, t: Trace)
    requires t.excursions == 0 && AfterChain(t) == |h|
    ensures Counted(h, t)
  {
  }

  /** Any other sample leaves the chain, and adds to the count if it is a fresh Fixed one. */
  lemma CountedOn(h: seq<Sample>, t: Trace, s: Sample, t': Trace)
    requires Counted(h, t) && AfterChain(t) <= |h| && t'.chain == t.chain
    requires t'.excursions == (t.excursions + if FreshFixed(s.position) then 1 else 0) < FIXED_JUMP_SAMPLES
    requires FreshFixed(s.position) ==> t.Reference().Some? && Apart(s.position.at, t.Reference().value)
    ensures Counted(h + [s], t')
  {
    FreshFixedStep(h, s, AfterChain(t));
    AllApartStep(h, s, AfterChain(t), t.Reference());
  }

  lemma AllApartStep(h: seq<Sample>, s: Sample, from: nat, reference: Option<Xyz>)
    requires AllApart(h, from, reference)
    requires FreshFixed(s.position) ==> reference.Some? && Apart(s.position.at, reference.value)
    ensures AllApart(h + [s], from, reference)
  {
    assert forall i :: 0 <= i < |h| ==> (h + [s])[i] == h[i];
  }

  lemma {:induction false} FreshFixedStep(h: seq<Sample>, s: Sample, from: nat)
    requires from <= |h|
    ensures FreshFixedFrom(h + [s], from) == FreshFixedFrom(h, from) + if FreshFixed(s.position) then 1 else 0
  {
    assert (h + [s])[..|h|] == h;
  }

  /**
   The excursion count is how many fresh Fixed samples came after the last accepted
   one: always fewer than three, and every one of them more than 5 cm from it.
   */
  lemma {:induction false} ExcursionsCounted(l: Limits, h: seq<Sample>)
    requires l.corrected
    ensures Counted(h, TraceOf(l, h))
  {
    if h != [] {
      var init, s := h[..|h| - 1], h[|h| - 1];
      ExcursionsCounted(l, init);
      TraceIsSound(l, init);
      CountedStep(l, init, TraceOf(l, init), s);
      assert h == init + [s];
    }
  }

  /** Samples that are either no candidates or more than 5 cm from `reference`. */
  predicate NoneNear(w: seq<Sample>, reference: Option<Xyz>) {
    forall k :: 0 <= k < |w| && FreshFixed(w[k].position) ==>
      reference.Some? && Apart(w[k].position.at, reference.value)
  }

  /** Up to two excursions, whatever else lies between them, leave the average and its chain as they were. */
  lemma {:induction false} ExcursionsLeaveAverage(l: Limits, h: seq<Sample>, w: seq<Sample>)
    requires l.corrected && NoneNear(w, TraceOf(l, h).Reference())
    requires TraceOf(l, h).excursions + FreshFixedFrom(w, 0) < FIXED_JUMP_SAMPLES
    ensures var t, t' := TraceOf(l, h), TraceOf(l, h + w);
      && t'.observed == t.observed && t'.chain == t.chain && t'.jumps == t.jumps
      && t'.lastObserved == t.lastObserved
      && t'.excursions == t.excursions + FreshFixedFrom(w, 0)
  {
    if w == [] {
      assert h + w == h;
    } else {
      var init, s := w[..|w| - 1], w[|w| - 1];
      assert w == init + [s];
      assert FreshFixedFrom(init, 0) <= FreshFixedFrom(w, 0);
      ExcursionsLeaveAverage(l, h, init);
      OneLeftOut(l, TraceOf(l, h + init), Entry(|h + init|, s));
      TraceStep(l, h + init, s);
      assert h + w == h + init + [s];
    }
  }

  /** A sample that is no candidate, or the first or second excursion, leaves the average and its chain. */
  lemma OneLeftOut(l: Limits, t: Trace, e: Entry)
    requires l.corrected
    requires FreshFixed(e.sample.position) ==>
      && t.Reference().Some? && Apart(e.sample.position.at, t.Reference().value)
      && t.excursions + 1 < FIXED_JUMP_SAMPLES
    ensures var t' := Next(l, t, e);
      && t'.observed == t.observed && t'.chain == t.chain && t'.jumps == t.jumps
      && t'.lastObserved == t.lastObserved
      && t'.excursions == t.excursions + if FreshFixed(e.sample.position) then 1 else 0
  {
    assert t.observed + [] == t.observed;
  }

  /** The third excursion in a row discards the average and starts the chain, and the settling, again from itself. */
  lemma {:induction false} ThirdExcursionRestarts(l: Limits, h: seq<Sample>, w: seq<Sample>, s: Sample)
    requires l.corrected && NoneNear(w + [s], TraceOf(l, h).Reference()) && FreshFixed(s.position)
    requires TraceOf(l, h).excursions + FreshFixedFrom(w, 0) == FIXED_JUMP_SAMPLES - 1
    ensures var t, t', e := TraceOf(l, h), TraceOf(l, h + w + [s]), Entry(|h + w|, s);
      && t'.observed == [] && t'.chain == [e] && t'.jumps == t.jumps + [e] && t'.excursions == 0
      && t'.runStart == Some(e)
  {
    assert NoneNear(w, TraceOf(l, h).Reference()) by {
      assert forall k :: 0 <= k < |w| ==> (w + [s])[k] == w[k];
    }
    ExcursionsLeaveAverage(l, h, w);
    TraceStep(l, h + w, s);
    assert (w + [s])[|w|] == s;
  }

  // ---------------------------------------------------------------------
  // Settling
  // ---------------------------------------------------------------------

  /**
   Samples `j` to `i` are all Fixed with no jump after `j`, and the run can't
   reach further back: it starts at the first sample, after a break, or at a jump.
   */
  predicate FixedRun(h: seq<Sample>, jumps: seq<Entry>, j: nat, i: nat) {
    && j <= i < |h|
    && (forall m :: j <= m <= i ==> IsFixed(h[m].position))
    && (forall m :: j < m <= i ==> Entry(m, h[m]) !in jumps)
    && (j == 0 || !IsFixed(h[j - 1].position) || Entry(j, h[j]) in jumps)
  }

  lemma FixedRunIsUnique(h: seq<Sample>, jumps: seq<Entry>, j: nat, k: nat, i: nat)
    requires FixedRun(h, jumps, j, i) && FixedRun(h, jumps, k, i)
    ensures j == k
  {
  }

  lemma FixedRunGrows(h: seq<Sample>, s: Sample, jumps: seq<Entry>, j: nat, i: nat)
    requires i < |h|
    ensures FixedRun(h + [s], jumps, j, i) <==> FixedRun(h, jumps, j, i)
  {
    assert forall m :: 0 <= m < |h| ==> (h + [s])[m] == h[m];
  }

  /** The run's start is where the settling clock started. */
  predicate RunStarts(h: seq<Sample>, t: Trace) {
    && (t.runStart.Some? <==> h != [] && IsFixed(h[|h| - 1].position))
    && (t.runStart.Some? ==> FixedRun(h, t.jumps, t.runStart.value.number, |h| - 1))
  }

  /** The settling clock runs from the first sample of the current Fixed run. */
  lemma {:induction false} RunStartIsFixedRun(l: Limits, h: seq<Sample>)
    ensures RunStarts(h, TraceOf(l, h))
  {
    if h != [] {
      var init, s := h[..|h| - 1], h[|h| - 1];
      assert h == init + [s];
      RunStartIsFixedRun(l, init);
      TraceIsSound(l, init);
      TraceStep(l, init, s);
      RunStartStep(l, init, TraceOf(l, init), s);
    }
  }

  lemma RunStartStep(l: Limits, h: seq<Sample>, t: Trace, s: Sample)
    requires RunStarts(h, t) && Sound(h, t)
    ensures RunStarts(h + [s], Next(l, t, Entry(|h|, s)))
  {
    var e, t' := Entry(|h|, s), Next(l, t, Entry(|h|, s));
    var judged := Judge(l, t.Reference(), t.excursions, s.position);
    if IsFixed(s.position) {
      if judged.Jump? {
        assert t'.jumps[|t.jumps|] == e && e in t'.jumps;
      } else if t.runStart.Some? {
        RunGoesOn(h, t.jumps, t.runStart.value.number, s);
      } else {
        RunBegins(h, t.jumps, s);
      }
    }
  }

  lemma RunGoesOn(h: seq<Sample>, jumps: seq<Entry>, j: nat, s: Sample)
    requires h != [] && FixedRun(h, jumps, j, |h| - 1) && IsFixed(s.position) && Listed(h, jumps)
    ensures FixedRun(h + [s], jumps, j, |h|)
  {
    assert forall m :: 0 <= m < |h| ==> (h + [s])[m] == h[m];
    assert Entry(|h|, s) !in jumps;
  }

  lemma RunBegins(h: seq<Sample>, jumps: seq<Entry>, s: Sample)
    requires IsFixed(s.position) && (h == [] || !IsFixed(h[|h| - 1].position))
    ensures FixedRun(h + [s], jumps, |h|, |h|)
  {
  }

  ghost predicate SettledAt(l: Limits, h: seq<Sample>, jumps: seq<Entry>, i: nat) {
    i < |h| && exists j: nat :: FixedRun(h, jumps, j, i) && h[i].clock.held - h[j].clock.settle >= l.fixedSettleS
  }

  lemma SettledAtGrows(l: Limits, h: seq<Sample>, s: Sample, jumps: seq<Entry>, i: nat)
    requires i < |h|
    ensures SettledAt(l, h + [s], jumps, i) <==> SettledAt(l, h, jumps, i)
  {
    assert forall m :: 0 <= m < |h| ==> (h + [s])[m] == h[m];
    if SettledAt(l, h, jumps, i) {
      var j: nat :| FixedRun(h, jumps, j, i) && h[i].clock.held - h[j].clock.settle >= l.fixedSettleS;
      FixedRunGrows(h, s, jumps, j, i);
    }
    if SettledAt(l, h + [s], jumps, i) {
      var j: nat :| FixedRun(h + [s], jumps, j, i)
        && (h + [s])[i].clock.held - (h + [s])[j].clock.settle >= l.fixedSettleS;
      FixedRunGrows(h, s, jumps, j, i);
    }
  }

  /**
   Exactly which samples the average holds: the accepted Fixed samples since the
   last jump, but for the jump itself, at which Fixed had held for the settling time.
   */
  lemma {:induction false} ObservationsExactly(l: Limits, h: seq<Sample>, i: nat)
    requires l.corrected && i < |h|
    ensures var t, e := TraceOf(l, h), Entry(i, h[i]);
      e in t.observed <==> e in t.chain && e !in t.jumps && SettledAt(l, h, t.jumps, i)
  {
    var init, s := h[..|h| - 1], h[|h| - 1];
    assert h == init + [s];
    TraceStep(l, init, s);
    TraceIsSound(l, init);
    if i < |init| {
      ObservationsExactly(l, init, i);
      SettledAtGrows(l, init, s, TraceOf(l, init).jumps, i);
      assert h[i] == init[i];
    } else {
      LastObservationExactly(l, init, s);
    }
  }

  lemma {:induction false} LastObservationExactly(l: Limits, h: seq<Sample>, s: Sample)
    requires l.corrected
    ensures var t, e := TraceOf(l, h + [s]), Entry(|h|, s);
      e in t.observed <==> e in t.chain && e !in t.jumps && SettledAt(l, h + [s], t.jumps, |h|)
  {
    var t, e := TraceOf(l, h), Entry(|h|, s);
    TraceStep(l, h, s);
    TraceIsSound(l, h);
    NewEntry(l, h, t, e);
    if e in TraceOf(l, h + [s]).chain && e !in TraceOf(l, h + [s]).jumps {
      LastSettled(l, h, s);
    }
  }

  /** Where the entry of the newest sample ends up. */
  lemma NewEntry(l: Limits, h: seq<Sample>, t: Trace, e: Entry)
    requires l.corrected && Sound(h, t) && e.number == |h|
    ensures var t', judged := Next(l, t, e), Judge(l, t.Reference(), t.excursions, e.sample.position);
      && (e in t'.chain <==> judged.Near? || judged.Jump?)
      && (e in t'.jumps <==> judged.Jump?)
      && (e in t'.observed <==> judged.Near? && HeldS(t'.runStart, e) >= l.fixedSettleS)
  {
    assert e !in t.observed && e !in t.chain && e !in t.jumps;
  }

  lemma {:induction false} LastSettled(l: Limits, h: seq<Sample>, s: Sample)
    requires IsFixed(s.position)
    ensures var t, e := TraceOf(l, h + [s]), Entry(|h|, s);
      SettledAt(l, h + [s], t.jumps, |h|) <==> HeldS(t.runStart, e) >= l.fixedSettleS
  {
    var g := h + [s];
    var t := TraceOf(l, g);
    RunStartIsFixedRun(l, g);
    TraceIsSound(l, g);
    var start := t.runStart.value;
    if SettledAt(l, g, t.jumps, |h|) {
      var j: nat :| FixedRun(g, t.jumps, j, |h|) && g[|h|].clock.held - g[j].clock.settle >= l.fixedSettleS;
      FixedRunIsUnique(g, t.jumps, j, start.number, |h|);
    }
  }

  // ---------------------------------------------------------------------
  // What a sample is judged by, in the receiver's own terms
  // ---------------------------------------------------------------------

  /** A Fixed solution is a valid RTK fix; a fresh one is on corrections at most 10 s old. */
  lemma FreshFixedMeans(p: Position)
    ensures IsFixed(p) <==> p.fixOk && p.rtk == Fixed
    ensures FreshFixed(p) <==>
      p.fixOk && p.rtk == Fixed && p.correctionAgeS.Some? && p.correctionAgeS.value <= 10.0
  {
  }

  /**
   Only a Corrected survey's fresh Fixed samples are judged at all: the first, and any within 5 cm of
   the last accepted, is near; the first two further off are excursions, the third a jump.
   */
  lemma JudgedBy(l: Limits, last: Option<Xyz>, excursions: nat, p: Position)
    ensures var judged := Judge(l, last, excursions, p);
      var far := last.Some? && Square(p.at.x - last.value.x) + Square(p.at.y - last.value.y)
                               + Square(p.at.z - last.value.z) > 0.0025;
      && (judged.NoCandidate? <==> !(l.corrected && FreshFixed(p)))
      && (judged.Near? <==> l.corrected && FreshFixed(p) && !far)
      && (judged.Excursion? <==> l.corrected && FreshFixed(p) && far && excursions < 2)
      && (judged.Jump? <==> l.corrected && FreshFixed(p) && far && excursions >= 2)
  {
  }

  // ---------------------------------------------------------------------
  // A plain survey
  // ---------------------------------------------------------------------

  /** A plain survey averages exactly the samples with a valid fix, in order, and never restarts. */
  lemma {:induction false} PlainObservations(l: Limits, h: seq<Sample>, i: nat)
    requires !l.corrected && i < |h|
    ensures Entry(i, h[i]) in TraceOf(l, h).observed <==> h[i].position.fixOk
    ensures TraceOf(l, h).jumps == [] && TraceOf(l, h).chain == []
  {
    var init, s := h[..|h| - 1], h[|h| - 1];
    assert h == init + [s];
    TraceStep(l, init, s);
    TraceIsSound(l, init);
    PlainNeverJumps(l, init);
    if i < |init| {
      PlainObservations(l, init, i);
      assert h[i] == init[i];
    }
    PlainStep(l, TraceOf(l, init), Entry(|init|, s));
  }

  lemma {:induction false} PlainNeverJumps(l: Limits, h: seq<Sample>)
    requires !l.corrected
    ensures TraceOf(l, h).jumps == [] && TraceOf(l, h).chain == []
  {
    if h != [] {
      PlainNeverJumps(l, h[..|h| - 1]);
    }
  }

  lemma PlainStep(l: Limits, t: Trace, e: Entry)
    requires !l.corrected && t.jumps == [] && t.chain == []
    ensures Next(l, t, e).observed == t.observed + if e.sample.position.fixOk then [e] else []
    ensures Next(l, t, e).jumps == [] && Next(l, t, e).chain == []
  {
  }

  /** A plain survey completes only on enough, accurate samples, each with a valid fix. */
  lemma PlainCommitted(l: Limits, startedAt: real, h: seq<Sample>)
    requires !l.corrected && h != [] && VerdictOf(l, startedAt, h) == Complete
    ensures var observed := TraceOf(l, h).observed;
      && Enough(l, Positions(observed)) && Listed(h, observed)
      && forall e :: e in observed ==> e.sample.position.fixOk
  {
    TraceIsSound(l, h);
    forall e | e in TraceOf(l, h).observed ensures e.sample.position.fixOk {
      assert Taken(h, e);
      PlainObservations(l, h, e.number);
    }
  }

  // ---------------------------------------------------------------------
  // Verdicts
  // ---------------------------------------------------------------------

  /** Sample `k` was an Observation when it was taken. */
  predicate WasObserved(l: Limits, h: seq<Sample>, k: nat) {
    k < |h| && Entry(k, h[k]) in TraceOf(l, h[..k + 1]).observed
  }

  lemma WasObservedGrows(l: Limits, h: seq<Sample>, s: Sample, k: nat)
    requires k < |h|
    ensures WasObserved(l, h + [s], k) <==> WasObserved(l, h, k)
  {
    assert (h + [s])[..k + 1] == h[..k + 1];
  }

  /** `o` is the last sample that was an Observation when it was taken, if any was. */
  ghost predicate LastObserved(l: Limits, h: seq<Sample>, o: Option<Entry>) {
    && (o.Some? ==> Taken(h, o.value) && WasObserved(l, h, o.value.number))
    && forall k: nat :: WasObserved(l, h, k) ==> o.Some? && k <= o.value.number
  }

  /** The stall clock started at the last Observation. */
  lemma {:induction false} LastObservedIsLast(l: Limits, h: seq<Sample>)
    ensures LastObserved(l, h, TraceOf(l, h).lastObserved)
  {
    if h != [] {
      var init, s := h[..|h| - 1], h[|h| - 1];
      assert h == init + [s];
      LastObservedIsLast(l, init);
      TraceIsSound(l, init);
      TraceStep(l, init, s);
      LastObservedStep(l, init, TraceOf(l, init), s);
    }
  }

  lemma LastObservedStep(l: Limits, h: seq<Sample>, t: Trace, s: Sample)
    requires t == TraceOf(l, h) && Sound(h, t) && LastObserved(l, h, t.lastObserved)
    requires TraceOf(l, h + [s]) == Next(l, t, Entry(|h|, s))
    ensures LastObserved(l, h + [s], TraceOf(l, h + [s]).lastObserved)
  {
    NewestObserved(l, h, t, s);
    NewestWas(l, h, s);
    if Next(l, t, Entry(|h|, s)).lastObserved == Some(Entry(|h|, s)) {
      NewestIsLast(l, h, s);
    } else {
      LastStays(l, h, s, t.lastObserved);
    }
  }

  lemma NewestIsLast(l: Limits, h: seq<Sample>, s: Sample)
    requires WasObserved(l, h + [s], |h|)
    ensures LastObserved(l, h + [s], Some(Entry(|h|, s)))
  {
  }

  lemma LastStays(l: Limits, h: seq<Sample>, s: Sample, o: Option<Entry>)
    requires LastObserved(l, h, o) && !WasObserved(l, h + [s], |h|)
    ensures LastObserved(l, h + [s], o)
  {
    if o.Some? {
      WasObservedGrows(l, h, s, o.value.number);
    }
    forall k: nat | WasObserved(l, h + [s], k) ensures o.Some? && k <= o.value.number {
      WasObservedGrows(l, h, s, k);
    }
  }

  lemma NewestWas(l: Limits, h: seq<Sample>, s: Sample)
    ensures WasObserved(l, h + [s], |h|) <==> Entry(|h|, s) in TraceOf(l, h + [s]).observed
  {
    assert (h + [s])[..|h| + 1] == h + [s] && (h + [s])[|h|] == s;
  }

  /** The newest sample is an Observation exactly when the trace marks it as the last one. */
  lemma NewestObserved(l: Limits, h: seq<Sample>, t: Trace, s: Sample)
    requires Sound(h, t)
    ensures var e := Entry(|h|, s);
      var t' := Next(l, t, e);
      && (e in t'.observed <==> t'.lastObserved == Some(e))
      && (t'.lastObserved == Some(e) || t'.lastObserved == t.lastObserved)
  {
    assert t.lastObserved.Some? ==> t.lastObserved.value.number < |h|;
    assert forall k :: 0 <= k < |t.observed| ==> t.observed[k].number < |h|;
  }

  /** Why a survey stalls: no fresh corrections, a Fixed that doesn't settle, or no Fixed. */
  function Reason(p: Position): StallReason {
    if p.correctionAgeS.None? || p.correctionAgeS.value > 10.0 then NoCorrections
    else if p.fixOk && p.rtk == Fixed then FixedUnsettled
    else NoFixed
  }

  /** A Corrected survey stalls once it has gone long enough without an Observation. */
  predicate StallsNow(l: Limits, startedAt: real, last: Option<Entry>, now: real) {
    l.corrected && now - (if last.None? then startedAt else last.value.sample.clock.growth) >= l.stallAbortS
  }

  /**
   Exactly when each verdict is given, in the order the loop decides: stalled, for a
   reason its last sample gives; complete, on an Observation that makes them enough and
   accurate enough; timed out, at both an hour and three minimum durations.
   */
  lemma VerdictExactly(l: Limits, startedAt: real, h: seq<Sample>)
    requires h != []
    ensures LastObserved(l, h, TraceOf(l, h).lastObserved)
    ensures var t, last := TraceOf(l, h), h[|h| - 1];
      var stalls := StallsNow(l, startedAt, t.lastObserved, last.clock.stall);
      var completes := WasObserved(l, h, |h| - 1) && t.observed != [] && |t.observed| >= l.minDurationS
                       && AccurateTo(Positions(t.observed), l.accuracyLimitMm as real / 1000.0);
      var late := last.clock.cap - startedAt;
      VerdictOf(l, startedAt, h) ==
        if stalls then Stalled(Reason(last.position))
        else if completes then Complete
        else if late >= 3600.0 && late >= 3.0 * l.minDurationS as real then TimedOut
        else Continue
  {
    LastObservedIsLast(l, h);
    NewestMarked(l, h);
    DecideExactly(l, startedAt, TraceOf(l, h), Entry(|h| - 1, h[|h| - 1]));
  }

  lemma NewestMarked(l: Limits, h: seq<Sample>)
    requires h != []
    ensures var t, e := TraceOf(l, h), Entry(|h| - 1, h[|h| - 1]);
      && (e in t.observed <==> t.lastObserved == Some(e))
      && (WasObserved(l, h, |h| - 1) <==> e in t.observed)
  {
    var init, s := h[..|h| - 1], h[|h| - 1];
    assert h == init + [s];
    TraceIsSound(l, init);
    TraceStep(l, init, s);
    NewestObserved(l, init, TraceOf(l, init), s);
    NewestWas(l, init, s);
  }

  lemma DecideExactly(l: Limits, startedAt: real, t: Trace, e: Entry)
    requires e in t.observed <==> t.lastObserved == Some(e)
    ensures var late := e.sample.clock.cap - startedAt;
      Decide(l, startedAt, t, e) ==
        if StallsNow(l, startedAt, t.lastObserved, e.sample.clock.stall) then Stalled(Reason(e.sample.position))
        else if e in t.observed && |t.observed| >= l.minDurationS
                && AccurateTo(Positions(t.observed), l.accuracyLimitMm as real / 1000.0) then Complete
        else if late >= 3600.0 && late >= 3.0 * l.minDurationS as real then TimedOut
        else Continue
  {
  }

  // ---------------------------------------------------------------------
  // Time
  // ---------------------------------------------------------------------

  /** The clock never goes back, and each sleep lasts at least as long as asked. */
  predicate Paced(startedAt: real, h: seq<Sample>) {
    && (forall i :: 0 <= i < |h| ==> h[i].clock.Monotone() && startedAt <= h[i].clock.settle)
    && (forall i :: 0 < i < |h| ==> WokeInTime(h[i - 1].clock.sleep, startedAt + i as real, h[i].clock.settle))
  }

  /** A sleep asked at `asked` until `until` (not at all if that has passed) was over by `woke`. */
  predicate WokeInTime(asked: real, until: real, woke: real) {
    woke >= asked + if until > asked then until - asked else 0.0
  }

  /** The loop went on after every sample but perhaps the last. */
  predicate KeptGoing(l: Limits, startedAt: real, h: seq<Sample>) {
    forall n :: 0 < n < |h| ==> VerdictOf(l, startedAt, h[..n]) == Continue
  }

  lemma SampleTimes(startedAt: real, h: seq<Sample>, i: nat)
    requires Paced(startedAt, h) && i < |h|
    ensures h[i].clock.settle >= startedAt + i as real
  {
    if i > 0 {
      assert WokeInTime(h[i - 1].clock.sleep, startedAt + i as real, h[i].clock.settle);
    }
  }

  /** Every survey ends: the wall-clock cap bounds the number of samples. */
  lemma EndsInTime(l: Limits, startedAt: real, h: seq<Sample>)
    requires Paced(startedAt, h) && KeptGoing(l, startedAt, h)
    ensures |h| <= l.HardCapS() + 1
  {
    if |h| > 1 {
      var n := |h| - 1;
      SampleTimes(startedAt, h, n - 1);
      assert VerdictOf(l, startedAt, h[..n]) == Continue;
      assert h[..n][n - 1] == h[n - 1];
      assert (n - 1) as real < l.HardCapS() as real;
    }
  }

  lemma {:induction false} ListedIsShort(h: seq<Sample>, entries: seq<Entry>)
    requires Listed(h, entries)
    ensures entries != [] ==> |entries| <= entries[|entries| - 1].number + 1 <= |h|
  {
    if |entries| > 1 {
      ListedIsShort(h, entries[..|entries| - 1]);
    }
  }

  /** At most one Observation a second since the survey began, and one. */
  lemma {:induction false} ObservationsPaced(l: Limits, startedAt: real, h: seq<Sample>)
    requires h != [] && Paced(startedAt, h)
    ensures |TraceOf(l, h).observed| as real <= h[|h| - 1].clock.settle - startedAt + 1.0
  {
    TraceIsSound(l, h);
    ListedIsShort(h, TraceOf(l, h).observed);
    SampleTimes(startedAt, h, |h| - 1);
  }

  // ---------------------------------------------------------------------
  // What is committed
  // ---------------------------------------------------------------------

  /**
   Observations fit to commit: enough of them and accurate enough; all settled Fixed
   samples on fresh corrections, taken after the last jump; and any two of them within
   5 cm for each step of the Fixed chain between them.
   */
  ghost predicate FitToCommit(l: Limits, h: seq<Sample>, t: Trace) {
    && Enough(l, Positions(t.observed))
    && (forall e :: e in t.observed ==>
          && Taken(h, e) && FreshFixed(e.sample.position) && SettledAt(l, h, t.jumps, e.number)
          && (forall j :: j in t.jumps ==> j.number < e.number))
    && (forall u, v :: u in t.observed && v in t.observed ==> ChainApart(t.chain, u, v))
  }

  /** A Corrected survey completes only on Observations fit to commit. */
  lemma {:induction false} CommittedObservations(l: Limits, startedAt: real, h: seq<Sample>)
    requires l.corrected && h != [] && VerdictOf(l, startedAt, h) == Complete
    ensures FitToCommit(l, h, TraceOf(l, h))
  {
    var t := TraceOf(l, h);
    TraceIsSound(l, h);
    forall e | e in t.observed
      ensures Taken(h, e) && e in t.chain && FreshFixed(e.sample.position) && SettledAt(l, h, t.jumps, e.number)
      ensures forall j :: j in t.jumps ==> j.number < e.number
    {
      ObservedOnChain(l, h, e);
      AfterTheLastJump(h, t, e);
    }
    forall u, v | u in t.observed && v in t.observed ensures ChainApart(t.chain, u, v) {
      ChainBound(t.chain, u, v);
    }
  }

  lemma {:induction false} ObservedOnChain(l: Limits, h: seq<Sample>, e: Entry)
    requires l.corrected && e in TraceOf(l, h).observed
    ensures var t := TraceOf(l, h);
      && Taken(h, e) && e in t.chain && e !in t.jumps
      && FreshFixed(e.sample.position) && SettledAt(l, h, t.jumps, e.number)
  {
    TraceIsSound(l, h);
    assert Taken(h, e);
    ObservationsExactly(l, h, e.number);
  }

  lemma ChainBound(chain: seq<Entry>, u: Entry, v: Entry)
    requires Chain(chain) && u in chain && v in chain
    ensures ChainApart(chain, u, v)
  {
    var a: nat :| a < |chain| && chain[a] == u;
    var b: nat :| b < |chain| && chain[b] == v;
    if a <= b {
      DriftBound(chain, a, b);
      WithinIsSymmetric(u.sample.position.at, v.sample.position.at, (b - a) as real * FIXED_JUMP_M);
    } else {
      DriftBound(chain, b, a);
    }
    assert StepsApart(chain, u, v, a, b);
  }

  lemma WithinIsSymmetric(p: Xyz, q: Xyz, d: real)
    requires Within(q, p, d)
    ensures Within(p, q, d)
  {
  }

  lemma AfterTheLastJump(h: seq<Sample>, t: Trace, e: Entry)
    requires Sound(h, t) && e in t.chain && e !in t.jumps
    ensures forall j :: j in t.jumps ==> j.number < e.number
  {
    if t.jumps != [] {
      var last := t.jumps[|t.jumps| - 1];
      assert last in t.jumps && t.chain[0] == last;
      assert last.number < e.number;
    }
  }

  /** `u` and `v` are on the chain, within 5 cm for each step between them. */
  ghost predicate ChainApart(chain: seq<Entry>, u: Entry, v: Entry) {
    exists a: nat, b: nat :: StepsApart(chain, u, v, a, b)
  }

  predicate StepsApart(chain: seq<Entry>, u: Entry, v: Entry, a: nat, b: nat) {
    && a < |chain| && b < |chain| && chain[a] == u && chain[b] == v
    && var steps := if a <= b then b - a else a - b;
       Within(u.sample.position.at, v.sample.position.at, steps as real * FIXED_JUMP_M)
  }
}
