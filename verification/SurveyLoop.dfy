/**
 The sample loop of an application-averaged survey: one position a second, the
 last accepted Fixed, the excursion count, the settling and stall clocks, and
 the running mean. `TraceOf` says what any history of samples leaves behind;
 the class updates its fields in place and is proved to hold exactly that.
 */
module SurveyLoop {
  import opened Common
  import opened SurveyModels
  import opened SurveyAveraging

  const FIXED_JUMP_M: real := 0.05
  const FIXED_JUMP_SAMPLES: nat := 3
  const SAMPLE_INTERVAL_S: real := 1.0
  const HARD_CAP_MIN_S: nat := 3600
  const HARD_CAP_MULTIPLE: nat := 3

  datatype Limits = Limits(
    minDurationS: nat,
    accuracyLimitMm: nat,
    corrected: bool,
    fixedSettleS: real,
    stallAbortS: real)
  {
    function LimitM(): real {
      accuracyLimitMm as real / 1000.0
    }

    function HardCapS(): nat {
      if HARD_CAP_MULTIPLE * minDurationS < HARD_CAP_MIN_S then HARD_CAP_MIN_S
      else HARD_CAP_MULTIPLE * minDurationS
    }
  }

  /** The clock readings one pass of the loop takes, in the order it takes them. */
  datatype Clock = Clock(settle: real, held: real, growth: real, stall: real, cap: real, sleep: real) {
    predicate Monotone() {
      settle <= held <= growth <= stall <= cap <= sleep
    }
  }

  datatype Sample = Sample(position: Position, clock: Clock)

  datatype StallReason = NoCorrections | FixedUnsettled | NoFixed

  datatype Verdict = Continue | Stalled(reason: StallReason) | Complete | TimedOut

  function StallReasonOf(p: Position): StallReason {
    if !Fresh(p) then NoCorrections else if IsFixed(p) then FixedUnsettled else NoFixed
  }

  predicate FreshFixed(p: Position) {
    IsFixed(p) && Fresh(p)
  }

  /** More than 5 cm apart in 3D. */
  predicate Apart(a: Xyz, b: Xyz) {
    DistSq(a, b) > FIXED_JUMP_M * FIXED_JUMP_M
  }

  // ---------------------------------------------------------------------
  // What a history of samples leaves behind
  // ---------------------------------------------------------------------

  /** A sample and its number in the survey. */
  datatype Entry = Entry(number: nat, sample: Sample)

  /**
   The accepted Fixed samples since the last jump (which starts the chain), the
   excursions since the last of them, the jumps, the Observations since the last
   jump, the first sample of the current unbroken Fixed run, and the last
   Observation of the survey.
   */
  datatype Trace = Trace(
    chain: seq<Entry>,
    excursions: nat,
    jumps: seq<Entry>,
    runStart: Option<Entry>,
    observed: seq<Entry>,
    lastObserved: Option<Entry>)
  {
    /** The position of the last accepted Fixed. */
    function Reference(): Option<Xyz> {
      if chain == [] then None else Some(chain[|chain| - 1].sample.position.at)
    }
  }

  const NO_TRACE := Trace([], 0, [], None, [], None)

  /**
   What a sample is to the last accepted Fixed: no candidate at all (a plain
   survey, no Fixed, or stale corrections), near enough to be accepted, an
   excursion left out of the average, or the third excursion in a row: a jump.
   */
  datatype Judged = NoCandidate | Near | Excursion | Jump

  function Judge(l: Limits, lastFixed: Option<Xyz>, excursions: nat, p: Position): Judged {
    if !l.corrected || !FreshFixed(p) then NoCandidate
    else if lastFixed.None? || !Apart(p.at, lastFixed.value) then Near
    else if excursions + 1 >= FIXED_JUMP_SAMPLES then Jump
    else Excursion
  }

  function Next(l: Limits, t: Trace, e: Entry): Trace {
    var p := e.sample.position;
    var judged := Judge(l, t.Reference(), t.excursions, p);
    var runStart :=
      if !IsFixed(p) then None
      else if judged.Jump? || t.runStart.None? then Some(e)
      else t.runStart;
    var counts := Counts(l, judged, p, HeldS(runStart, e));
    Trace(
      if judged.Jump? then [e] else if judged.Near? then t.chain + [e] else t.chain,
      if judged.NoCandidate? then t.excursions else if judged.Excursion? then t.excursions + 1 else 0,
      if judged.Jump? then t.jumps + [e] else t.jumps,
      runStart,
      (if judged.Jump? then [] else t.observed) + (if counts then [e] else []),
      if counts then Some(e) else t.lastObserved)
  }

  /** Plain: any valid 3D fix. Corrected: near the last Fixed, on a Fixed that has settled. */
  predicate Counts(l: Limits, judged: Judged, p: Position, heldS: real) {
    if l.corrected then judged.Near? && heldS >= l.fixedSettleS else p.fixOk
  }

  /** How long Fixed has held at an entry, in the run that began at `start`. */
  function HeldS(start: Option<Entry>, e: Entry): real {
    if start.None? then 0.0 else e.sample.clock.held - start.value.sample.clock.settle
  }

  function TraceOf(l: Limits, h: seq<Sample>): Trace {
    if h == [] then NO_TRACE
    else Next(l, TraceOf(l, h[..|h| - 1]), Entry(|h| - 1, h[|h| - 1]))
  }

  lemma TraceStep(l: Limits, h: seq<Sample>, s: Sample)
    ensures TraceOf(l, h + [s]) == Next(l, TraceOf(l, h), Entry(|h|, s))
  {
    assert (h + [s])[..|h|] == h;
  }

  function Positions(entries: seq<Entry>): (ps: seq<Position>)
    ensures |ps| == |entries|
  {
    seq(|entries|, k requires 0 <= k < |entries| => entries[k].sample.position)
  }

  function LastGrowthAt(startedAt: real, t: Trace): real {
    if t.lastObserved.Some? then t.lastObserved.value.sample.clock.growth else startedAt
  }

  /** What the loop decides after the last sample of `h`. */
  function VerdictOf(l: Limits, startedAt: real, h: seq<Sample>): Verdict
    requires h != []
  {
    Decide(l, startedAt, TraceOf(l, h), Entry(|h| - 1, h[|h| - 1]))
  }

  function Decide(l: Limits, startedAt: real, t: Trace, e: Entry): Verdict {
    var c := e.sample.clock;
    if l.corrected && c.stall - LastGrowthAt(startedAt, t) >= l.stallAbortS then
      Stalled(StallReasonOf(e.sample.position))
    else if t.lastObserved == Some(e) && Enough(l, Positions(t.observed)) then
      Complete
    else if c.cap - startedAt >= l.HardCapS() as real then
      TimedOut
    else
      Continue
  }

  /** Enough Observations, and accurate enough, to commit their mean. */
  predicate Enough(l: Limits, ps: seq<Position>) {
    ps != [] && |ps| >= l.minDurationS && AccurateTo(ps, l.LimitM())
  }

  // ---------------------------------------------------------------------
  // The loop's variables, updated in place
  // ---------------------------------------------------------------------

  class SampleLoop {
    const limits: Limits
    const startedAt: real
    var averaging: Averaging
    var nextSampleAt: real
    var lastGrowthAt: real
    var fixedSince: Option<real>
    var lastFixed: Option<Xyz>
    var excursion: nat
    /** The samples taken so far. */
    ghost var samples: seq<Sample>

    ghost predicate Valid()
      reads this, averaging
    {
      && averaging.Valid()
      && averaging.added == Positions(TraceOf(limits, samples).observed)
      && Follows(TraceOf(limits, samples))
      && nextSampleAt == startedAt + |samples| as real
    }

    /** The settling, jump and stall variables hold what the trace says. */
    ghost predicate Follows(t: Trace)
      reads this
    {
      && excursion == t.excursions
      && lastFixed == t.Reference()
      && fixedSince == (if t.runStart.None? then None else Some(t.runStart.value.sample.clock.settle))
      && lastGrowthAt == LastGrowthAt(startedAt, t)
    }

    constructor (limits: Limits, startedAt: real)
      ensures Valid() && samples == [] && this.limits == limits && this.startedAt == startedAt
      ensures fresh(averaging)
    {
      this.limits, this.startedAt := limits, startedAt;
      averaging := new Averaging();
      nextSampleAt, lastGrowthAt := startedAt, startedAt;
      fixedSince, lastFixed, excursion := None, None, 0;
      samples := [];
    }

    /** One pass of the loop, from the position just read to its decision. */
    method Take(position: Position, clock: Clock) returns (verdict: Verdict)
      requires Valid()
      modifies this, averaging
      ensures samples == old(samples) + [Sample(position, clock)]
      ensures verdict == VerdictOf(limits, startedAt, samples)
      ensures averaging == old(averaging) || fresh(averaging)
      ensures verdict.Continue? ==> Valid()
      ensures verdict.Complete? ==>
        averaging.Valid() && averaging.added == Positions(TraceOf(limits, samples).observed)
    {
      var observed := Follow(position, clock);
      if limits.corrected && clock.stall - lastGrowthAt >= limits.stallAbortS {
        return Stalled(StallReasonOf(position));
      }
      if observed {
        var enough := AddObservation(position);
        if enough {
          return Complete;
        }
      }
      if clock.cap - startedAt >= limits.HardCapS() as real {
        return TimedOut;
      }
      nextSampleAt := nextSampleAt + SAMPLE_INTERVAL_S;
      return Continue;
    }

    /** Judge a sample against the last accepted Fixed; a jump starts the average and the settling again. */
    method JudgeJump(position: Position) returns (judged: Judged)
      modifies this
      ensures samples == old(samples) && nextSampleAt == old(nextSampleAt) && lastGrowthAt == old(lastGrowthAt)
      ensures judged == Judge(limits, old(lastFixed), old(excursion), position)
      ensures excursion == if judged.NoCandidate? then old(excursion)
                           else if judged.Excursion? then old(excursion) + 1 else 0
      ensures lastFixed == if judged.Near? || judged.Jump? then Some(position.at) else old(lastFixed)
      ensures fixedSince == if judged.Jump? then None else old(fixedSince)
      ensures !judged.Jump? ==> averaging == old(averaging)
      ensures judged.Jump? ==> fresh(averaging) && averaging.Valid() && averaging.added == []
    {
      if !(IsFixed(position) && limits.corrected && Fresh(position)) {
        return NoCandidate;
      }
      if lastFixed.Some? && Apart(position.at, lastFixed.value) {
        excursion := excursion + 1;
        if excursion < FIXED_JUMP_SAMPLES {
          return Excursion;
        }
        averaging := new Averaging();
        fixedSince := None;
        excursion := 0;
        lastFixed := Some(position.at);
        return Jump;
      }
      excursion := 0;
      lastFixed := Some(position.at);
      return Near;
    }

    /** The jump, settling and stall bookkeeping; whether the sample is an Observation. */
    method Follow(position: Position, clock: Clock) returns (observed: bool)
      requires Valid()
      modifies this
      ensures samples == old(samples) + [Sample(position, clock)]
      ensures nextSampleAt == old(nextSampleAt)
      ensures averaging == old(averaging) || fresh(averaging)
      ensures averaging.Valid()
      ensures Follows(TraceOf(limits, samples))
      ensures var t := TraceOf(limits, samples);
        && observed == (t.lastObserved == Some(Entry(|samples| - 1, samples[|samples| - 1])))
        && Positions(t.observed) == averaging.added + if observed then [position] else []
    {
      ghost var t, s := TraceOf(limits, samples), Sample(position, clock);
      ghost var e := Entry(|samples|, s);
      TraceStep(limits, samples, s);
      ObservedNext(limits, samples, s);
      NumbersPast(limits, samples);
      samples := samples + [s];
      observed := Advance(position, clock, t, e);
    }

    /** The same, from a trace to the next. */
    method Advance(position: Position, clock: Clock, ghost t: Trace, ghost e: Entry) returns (observed: bool)
      requires Follows(t) && averaging.Valid() && e.sample == Sample(position, clock) && t.lastObserved != Some(e)
      modifies this
      ensures samples == old(samples) && nextSampleAt == old(nextSampleAt)
      ensures averaging.Valid() && (averaging == old(averaging) || fresh(averaging))
      ensures averaging.added
           == if Judge(limits, t.Reference(), t.excursions, position).Jump? then [] else old(averaging.added)
      ensures Follows(Next(limits, t, e)) && observed == (Next(limits, t, e).lastObserved == Some(e))
    {
      var judged := JudgeJump(position);
      observed := Settle(position, clock, judged.Excursion? || judged.Jump?);
    }

    /** The settling clock, and the stall clock an Observation restarts. */
    method Settle(position: Position, clock: Clock, excursionSample: bool) returns (observed: bool)
      modifies `fixedSince, `lastGrowthAt
      ensures fixedSince == if !IsFixed(position) then None
                            else if old(fixedSince).None? then Some(clock.settle) else old(fixedSince)
      ensures observed == (IsObservation(position, if fixedSince.None? then 0.0 else clock.held - fixedSince.value)
                           && !excursionSample)
      ensures lastGrowthAt == if observed then clock.growth else old(lastGrowthAt)
    {
      if !IsFixed(position) {
        fixedSince := None;
      } else if fixedSince.None? {
        fixedSince := Some(clock.settle);
      }
      var heldS := if fixedSince.Some? then clock.held - fixedSince.value else 0.0;
      observed := IsObservation(position, heldS) && !excursionSample;
      if observed {
        lastGrowthAt := clock.growth;
      }
    }

    method AddObservation(position: Position) returns (enough: bool)
      requires averaging.Valid()
      modifies averaging
      ensures averaging.Valid() && averaging.added == old(averaging.added) + [position]
      ensures enough == Enough(limits, averaging.added)
    {
      averaging.Add(position);
      enough := false;
      if averaging.count >= limits.minDurationS {
        enough := averaging.IsAccurateTo(limits.LimitM());
      }
    }

    predicate IsObservation(position: Position, heldS: real) {
      if !limits.corrected then position.fixOk
      else IsFixed(position) && heldS >= limits.fixedSettleS && Fresh(position)
    }
  }

  lemma {:induction false} NumbersPast(l: Limits, h: seq<Sample>)
    ensures var o := TraceOf(l, h).lastObserved; o.Some? ==> o.value.number < |h|
  {
    if h != [] {
      NumbersPast(l, h[..|h| - 1]);
    }
  }

  lemma ObservedNext(l: Limits, h: seq<Sample>, s: Sample)
    ensures var t, e := TraceOf(l, h), Entry(|h|, s);
      var t' := Next(l, t, e);
      && Positions(t'.observed)
         == (if Judge(l, t.Reference(), t.excursions, s.position).Jump? then [] else Positions(t.observed))
            + (if t'.lastObserved == Some(e) then [s.position] else [])
  {
    NumbersPast(l, h);
  }
}
