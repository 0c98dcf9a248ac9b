/**
 The life of a survey: start, sample, commit, abort, cancel, disconnect and
 shutdown, over a log of every call made to the receiver. A device call may
 fail; the log says whether it did. Each public operation is one atomic step,
 and a cancelled task is cancelled at its position read or its sleep.
 */
module SurveyLifecycle {
  import opened Common
  import opened SurveyModels
  import opened SurveyAveraging
  import opened SurveyLoop
  import opened SurveyRuns

  // ---------------------------------------------------------------------
  // The log of receiver calls
  // ---------------------------------------------------------------------

  /** A survey's limits, when it began, and the samples it took. */
  datatype Survey = Survey(limits: Limits, startedAt: real, samples: seq<Sample>)

  datatype Op =
    | DisableBaseMode
    | BeginInput
    | EndInput
    | WriteFixedBase(at: Xyz, survey: Survey)
    | RestoreSavedBase
    | ConfigureSurveyIn
    | CancelSurveyIn

  /** A call to the receiver connected at the time, and whether it succeeded. */
  datatype Call = Call(driver: nat, op: Op, ok: bool)

  /** Correction input was begun, and its restore hasn't been attempted since. */
  predicate InputOpen(calls: seq<Call>) {
    calls != [] &&
    match calls[|calls| - 1].op
    case BeginInput => true
    case EndInput => false
    case _ => InputOpen(calls[..|calls| - 1])
  }

  /** The survey was complete, and `at` is the mean of its Observations since its last jump. */
  predicate Earned(survey: Survey, at: Xyz) {
    && survey.samples != []
    && VerdictOf(survey.limits, survey.startedAt, survey.samples) == Complete
    && var observed := TraceOf(survey.limits, survey.samples).observed;
       observed != [] && at == MeanPosition(Positions(observed))
  }

  /** Whether `c` may follow `calls`. */
  predicate Allowed(calls: seq<Call>, c: Call) {
    match c.op
    case BeginInput => !InputOpen(calls)
    case EndInput => InputOpen(calls)
    case WriteFixedBase(at, survey) =>
      && !InputOpen(calls) && Earned(survey, at)
      && (survey.limits.corrected ==> calls != [] && calls[|calls| - 1] == Call(c.driver, EndInput, true))
    case _ => true
  }

  predicate AllowedAt(calls: seq<Call>, i: nat)
    requires i < |calls|
  {
    Allowed(calls[..i], calls[i])
  }

  predicate Safe(calls: seq<Call>) {
    forall i :: 0 <= i < |calls| ==> AllowedAt(calls, i)
  }

  /** How many attempts to restore the input `calls` holds from `from` up to `end`. */
  function Restores(calls: seq<Call>, from: nat, end: nat): nat
    requires from <= end <= |calls|
  {
    if from == end then 0 else Restores(calls, from, end - 1) + if calls[end - 1].op.EndInput? then 1 else 0
  }

  /**
   From one begin of correction input up to the next, the restore is attempted at
   most once, and exactly once by the time the input is closed.
   */
  lemma {:induction false} RestoredOnce(calls: seq<Call>, begin: nat, end: nat)
    requires Safe(calls) && begin < end <= |calls| && calls[begin].op.BeginInput?
    requires forall k :: begin < k < end ==> !calls[k].op.BeginInput?
    ensures Restores(calls, begin + 1, end) == if InputOpen(calls[..end]) then 0 else 1
    decreases end
  {
    assert calls[..end][..end - 1] == calls[..end - 1];
    if end > begin + 1 {
      RestoredOnce(calls, begin, end - 1);
      assert AllowedAt(calls, end - 1);
    }
  }

  /**
   Every fixed base in a safe log: written by a complete survey at the mean of its
   Observations, with no input left open; by a Corrected survey, right after a
   restore that succeeded, and on settled Fixed samples that never mix two solutions.
   */
  lemma EveryFixedBase(calls: seq<Call>, i: nat)
    requires Safe(calls) && i < |calls| && calls[i].op.WriteFixedBase?
    ensures var w := calls[i].op;
      && Earned(w.survey, w.at) && !InputOpen(calls[..i])
      && (w.survey.limits.corrected ==>
            && i > 0 && calls[i - 1] == Call(calls[i].driver, EndInput, true)
            && FitToCommit(w.survey.limits, w.survey.samples, TraceOf(w.survey.limits, w.survey.samples)))
  {
    assert AllowedAt(calls, i);
    FixedBaseAllowed(calls[..i], calls[i]);
  }

  lemma {:induction false} FixedBaseAllowed(calls: seq<Call>, c: Call)
    requires c.op.WriteFixedBase? && Allowed(calls, c)
    ensures Earned(c.op.survey, c.op.at) && !InputOpen(calls)
    ensures c.op.survey.limits.corrected ==>
      && calls != [] && calls[|calls| - 1] == Call(c.driver, EndInput, true)
      && FitToCommit(c.op.survey.limits, c.op.survey.samples, TraceOf(c.op.survey.limits, c.op.survey.samples))
  {
    if c.op.survey.limits.corrected {
      CommittedObservations(c.op.survey.limits, c.op.survey.startedAt, c.op.survey.samples);
    }
  }

  lemma {:induction false} LogStep(calls: seq<Call>, c: Call)
    ensures Safe(calls + [c]) <==> Safe(calls) && Allowed(calls, c)
    ensures InputOpen(calls + [c]) <==> c.op.BeginInput? || (!c.op.EndInput? && InputOpen(calls))
  {
    var longer := calls + [c];
    assert longer[..|calls|] == calls;
    assert AllowedAt(longer, |calls|) <==> Allowed(calls, c);
    forall i | 0 <= i < |calls| ensures AllowedAt(longer, i) <==> AllowedAt(calls, i) {
      assert longer[..i] == calls[..i];
    }
  }

  // ---------------------------------------------------------------------
  // The service
  // ---------------------------------------------------------------------

  datatype AbortReason = Stall(reason: StallReason) | InputNotRestored | AccuracyNotReached | DeviceDisconnected

  datatype Outcome = Running | Completed | Aborted(reason: AbortReason) | Cancelled

  datatype Progress = Progress(outcome: Outcome, byStation: bool)

  datatype Start = Started | Busy | Failed

  /** The loop went on after every one of these samples. */
  predicate Going(l: Limits, startedAt: real, h: seq<Sample>) {
    forall n :: 0 < n <= |h| ==> VerdictOf(l, startedAt, h[..n]) == Continue
  }

  /** A run that was paced and kept going, whose last sleep is over at `now`. */
  predicate Kept(l: Limits, startedAt: real, h: seq<Sample>, now: real) {
    && Paced(startedAt, h) && Going(l, startedAt, h) && startedAt <= now
    && (h != [] ==> WokeInTime(h[|h| - 1].clock.sleep, startedAt + |h| as real, now))
  }

  /** The restore of the input, if there was one to restore. */
  function Restoring(driver: nat, fed: bool, ok: bool): seq<Call> {
    if fed then [Call(driver, EndInput, ok)] else []
  }

  /** How the calls that end a survey went; one that isn't made counts for nothing. */
  datatype Ending = Ending(restored: bool, wrote: bool, fellBack: bool)

  /** The calls a verdict is followed by: the restore, the base if it was earned, and the saved base after any abort. */
  function EndingCalls(driver: nat, fed: bool, survey: Survey, verdict: Verdict, e: Ending): seq<Call> {
    Restoring(driver, fed, e.restored) +
    if verdict.Complete? && (fed ==> e.restored) then BaseCalls(driver, survey, e)
    else [Call(driver, RestoreSavedBase, e.fellBack)]
  }

  function BaseCalls(driver: nat, survey: Survey, e: Ending): seq<Call> {
    [Call(driver, WriteFixedBase(BaseOf(survey), survey), e.wrote)]
    + if e.wrote then [] else [Call(driver, RestoreSavedBase, e.fellBack)]
  }

  /** How the calls that start a Corrected survey went, and whether its source was reached. */
  datatype Feeding = Feeding(rover: bool, begun: bool, reached: bool, restored: bool, fellBack: bool) {
    predicate Connected() {
      rover && begun && reached
    }
  }

  /** A rover first, then the input. */
  function FeedingCalls(driver: nat, f: Feeding): seq<Call> {
    [Call(driver, DisableBaseMode, f.rover)] + if f.rover then InputCalls(driver, f) else []
  }

  /** What goes wrong once the input is begun restores it, and the saved base. */
  function InputCalls(driver: nat, f: Feeding): seq<Call> {
    [Call(driver, BeginInput, f.begun)] +
    if f.begun && f.reached then []
    else [Call(driver, EndInput, f.restored), Call(driver, RestoreSavedBase, f.fellBack)]
  }

  lemma Regroup(a: seq<Call>, b: seq<Call>, c: seq<Call>)
    ensures a + b + c == a + (b + c)
  {
  }

  /** The mean of the Observations since a survey's last jump. */
  function BaseOf(survey: Survey): Xyz {
    var observed := TraceOf(survey.limits, survey.samples).observed;
    if observed == [] then Xyz(0.0, 0.0, 0.0) else MeanPosition(Positions(observed))
  }

  /** The outcome a verdict ends in: an input not restored comes first, then a base not written. */
  function OutcomeOf(fed: bool, verdict: Verdict, e: Ending): Outcome {
    match verdict
    case Continue => Running
    case Complete =>
      if fed && !e.restored then Aborted(InputNotRestored)
      else if e.wrote then Completed else Aborted(DeviceDisconnected)
    case Stalled(reason) => Aborted(if fed && !e.restored then InputNotRestored else Stall(reason))
    case TimedOut => Aborted(AccuracyNotReached)
  }

  class SurveyService {
    /** The receiver connected now. */
    var driver: nat
    var progress: Option<Progress>
    /** The receiver the survey runs on. */
    var surveyDriver: Option<nat>
    /** A Corrected survey's own Relay instance. */
    var feed: bool
    /** The sampling task while it runs. */
    var task: SampleLoop?
    /** A time the clock has reached. */
    var now: real
    ghost var calls: seq<Call>

    ghost predicate Valid()
      reads this, task, if task == null then {} else {task.averaging}
    {
      && Safe(calls)
      && (InputOpen(calls) <==> feed)
      && (task == null ==> !feed)
      && (task != null ==>
            && progress == Some(Progress(Running, true))
            && feed == task.limits.corrected
            && RunValid(task))
    }

    ghost predicate RunValid(run: SampleLoop)
      reads this, run, run.averaging
    {
      && run.Valid()
      && Kept(run.limits, run.startedAt, run.samples, now)
    }

    constructor (driver: nat)
      ensures Valid() && calls == [] && task == null
    {
      this.driver := driver;
      progress, surveyDriver, feed, task := None, None, false, null;
      now, calls := 0.0, [];
    }

    /** One call to the receiver; it may fail. */
    method Ask(ghost op: Op) returns (ok: bool)
      modifies `calls
      ensures calls == old(calls) + [Call(driver, op, ok)]
      ensures Safe(calls) <==> Safe(old(calls)) && Allowed(old(calls), Call(driver, op, ok))
      ensures InputOpen(calls) <==> op.BeginInput? || (!op.EndInput? && InputOpen(old(calls)))
    {
      ok := *;
      LogStep(calls, Call(driver, op, ok));
      calls := calls + [Call(driver, op, ok)];
    }

    /** Stop a Corrected survey's Relay instance and restore the input, once. */
    method StopCorrections() returns (restored: bool)
      requires Safe(calls) && (InputOpen(calls) <==> feed)
      modifies `calls, `feed
      ensures Safe(calls) && !InputOpen(calls) && !feed
      ensures calls == if old(feed) then old(calls) + [Call(driver, EndInput, restored)] else old(calls)
      ensures !old(feed) ==> restored
    {
      var fed := feed;
      feed := false;
      if !fed {
        return true;
      }
      restored := Ask(EndInput);
    }

    /** Cancel the sampling task: its own exit restores the input, nothing else. */
    method StopTask() returns (ghost restored: bool)
      requires Valid()
      modifies `calls, `feed, `task
      ensures Valid() && task == null
      ensures calls == old(calls) + Restoring(driver, old(feed), restored)
    {
      restored := true;
      if task != null {
        task := null;
        restored := StopCorrections();
      }
    }

    /** Drop the survey once a different receiver is connected. */
    method ForgetIfReceiverChanged() returns (ghost restored: bool)
      requires Valid()
      modifies `progress, `surveyDriver, `calls, `feed, `task
      ensures Valid()
      ensures if old(progress).None? || Some(driver) == old(surveyDriver)
              then task == old(task) && progress == old(progress) && surveyDriver == old(surveyDriver)
                   && calls == old(calls) && feed == old(feed)
              else task == null && progress == None && surveyDriver == None
                   && calls == old(calls) + Restoring(driver, old(feed), restored)
    {
      restored := true;
      if progress.None? || Some(driver) == surveyDriver {
        return;
      }
      restored := StopTask();
      progress := None;
      surveyDriver := None;
    }

    /** A survey has just begun. */
    predicate Begun(l: Limits)
      reads this, task
    {
      && task != null && task.limits == l && task.startedAt == now && progress == Some(Progress(Running, true))
      && feed == l.corrected
    }

    /** Begin sampling: a new run and its first progress. */
    method Launch(l: Limits)
      requires Safe(calls) && (InputOpen(calls) <==> feed) && feed == l.corrected
      modifies `task, `progress
      ensures Valid() && Begun(l) && task.samples == [] && fresh({task, task.averaging})
    {
      progress := Some(Progress(Running, true));
      task := new SampleLoop(l, now);
    }

    /** Start a Corrected survey: a rover first, then correction input and the Relay instance. */
    method StartCorrected(l: Limits) returns (r: Start, ghost fed: Feeding, ghost restored: bool)
      requires Valid() && l.corrected
      modifies `progress, `surveyDriver, `calls, `feed, `task
      ensures Valid()
      ensures task == null || task == old(task) || fresh({task, task.averaging})
      ensures r.Busy? <==> old(task) != null && Some(driver) == old(surveyDriver)
      ensures r.Started? ==> Begun(l) && fresh(task) && task.samples == [] && surveyDriver == Some(driver)
      ensures r.Failed? ==> task == null && !feed
      ensures r.Busy? ==> calls == old(calls) && task == old(task) && progress == old(progress)
      ensures !r.Busy? ==>
        && calls == old(calls) + Restoring(driver, old(feed), restored) + FeedingCalls(driver, fed)
        && (r.Started? <==> fed.Connected())
    {
      restored := ForgetIfReceiverChanged();
      fed := Feeding(false, false, false, false, false);
      if task != null {
        return Busy, fed, restored;
      }
      r, fed := BeginCorrected(l);
    }

    method BeginCorrected(l: Limits) returns (r: Start, ghost fed: Feeding)
      requires Valid() && task == null && l.corrected
      modifies `calls, `feed, `task, `progress, `surveyDriver
      ensures Valid() && (task == null || fresh({task, task.averaging}))
      ensures calls == old(calls) + FeedingCalls(driver, fed) && r == if fed.Connected() then Started else Failed
      ensures if r.Started? then Begun(l) && task.samples == [] && surveyDriver == Some(driver)
              else task == null && !feed
    {
      var rover := Ask(DisableBaseMode);
      if rover {
        r, fed := FeedAndLaunch(l);
        Regroup(old(calls), [Call(driver, DisableBaseMode, true)], InputCalls(driver, fed));
      } else {
        r, fed := Failed, Feeding(false, false, false, false, false);
      }
    }

    method FeedAndLaunch(l: Limits) returns (r: Start, ghost fed: Feeding)
      requires Valid() && task == null && l.corrected
      modifies `calls, `feed, `task, `progress, `surveyDriver
      ensures Valid() && (task == null || fresh({task, task.averaging})) && fed.rover
      ensures calls == old(calls) + InputCalls(driver, fed) && r == if fed.Connected() then Started else Failed
      ensures if r.Started? then Begun(l) && task.samples == [] && surveyDriver == Some(driver)
              else task == null && !feed
    {
      var ok;
      ok, fed := StartFeed();
      if !ok {
        return Failed, fed;
      }
      surveyDriver := Some(driver);
      Launch(l);
      return Started, fed;
    }

    /** Begin correction input and connect to the source; a failure restores the input and the saved base. */
    method StartFeed() returns (ok: bool, ghost fed: Feeding)
      requires Safe(calls) && !InputOpen(calls) && !feed
      modifies `calls, `feed
      ensures Safe(calls) && (InputOpen(calls) <==> feed) && feed == ok == fed.Connected() && fed.rover
      ensures calls == old(calls) + InputCalls(driver, fed)
    {
      var begun := Ask(BeginInput);
      var connected: bool := *;
      ok := begun && connected;
      fed := Feeding(true, begun, connected, false, false);
      if !ok {
        var restored := Ask(EndInput);
        var fellBack := Ask(RestoreSavedBase);
        fed := Feeding(true, begun, connected, restored, fellBack);
      }
      feed := ok;
    }

    /** Start a plain survey, averaged by the receiver where it can. */
    method StartPlain(l: Limits, receiverAverages: bool) returns (r: Start, ghost ok: bool, ghost restored: bool)
      requires Valid() && !l.corrected
      modifies `progress, `surveyDriver, `calls, `feed, `task
      ensures Valid()
      ensures task == null || task == old(task) || fresh({task, task.averaging})
      ensures r.Busy? <==> old(task) != null && Some(driver) == old(surveyDriver)
      ensures r.Busy? ==> calls == old(calls) && task == old(task) && progress == old(progress)
      ensures r.Started? && receiverAverages ==> task == null && progress == Some(Progress(Running, false))
      ensures r.Started? && !receiverAverages ==> Begun(l) && fresh(task) && task.samples == []
      ensures !r.Busy? ==> surveyDriver == Some(driver) && (r.Started? <==> ok)
      ensures !r.Busy? ==>
        calls == old(calls) + Restoring(driver, old(feed), restored)
                 + [Call(driver, if receiverAverages then ConfigureSurveyIn else DisableBaseMode, ok)]
    {
      restored := ForgetIfReceiverChanged();
      ok := false;
      if task != null {
        return Busy, ok, restored;
      }
      surveyDriver := Some(driver);
      if receiverAverages {
        r, ok := AverageOnReceiver();
      } else {
        r, ok := AverageHere(l);
      }
    }

    method AverageOnReceiver() returns (r: Start, ghost ok: bool)
      requires Valid() && task == null
      modifies `calls, `progress
      ensures Valid() && r == (if ok then Started else Failed)
      ensures ok ==> progress == Some(Progress(Running, false))
      ensures calls == old(calls) + [Call(driver, ConfigureSurveyIn, ok)]
    {
      var configured := Ask(ConfigureSurveyIn);
      if !configured {
        return Failed, false;
      }
      progress := Some(Progress(Running, false));
      return Started, true;
    }

    method AverageHere(l: Limits) returns (r: Start, ghost ok: bool)
      requires Valid() && task == null && !l.corrected
      modifies `calls, `progress, `task
      ensures Valid() && (task == null || fresh({task, task.averaging})) && r == (if ok then Started else Failed)
      ensures ok ==> Begun(l) && task.samples == []
      ensures calls == old(calls) + [Call(driver, DisableBaseMode, ok)]
    {
      var rover := Ask(DisableBaseMode);
      if !rover {
        return Failed, false;
      }
      Launch(l);
      return Started, true;
    }

    // -------------------------------------------------------------------
    // One pass of the running task
    // -------------------------------------------------------------------

    ghost function Run(): set<object>
      reads this, task
    {
      if task == null then {} else var run: SampleLoop := task; {run, run.averaging}
    }

    /** One pass, given what the position read gave: an answer is judged, and no answer ends the survey. */
    method TaskStep(read: Option<Position>) returns (ghost e: Ending, ghost clock: Clock)
      requires Valid() && task != null
      modifies `progress, `calls, `feed, `task, `now, Run()
      ensures Valid()
      ensures old(task).averaging == old(task.averaging) || fresh(old(task).averaging)
      ensures read.None? ==>
        && task == null && old(task).samples == old(task.samples)
        && progress == Some(Progress(Aborted(DeviceDisconnected), true))
        && calls == old(calls) + Restoring(driver, old(feed), e.restored) + [Call(driver, RestoreSavedBase, e.fellBack)]
      ensures task == null || (task == old(task) && feed == old(feed))
      ensures read.Some? ==> SampleTaken(old(task), old(task.samples) + [Sample(read.value, clock)],
                                         old(calls), old(feed), e)
    {
      if read.Some? {
        e, clock := TakeSample(read.value);
      } else {
        var restored, fellBack := Abort(DeviceDisconnected);
        e, clock := Ending(restored, false, fellBack), Clock(now, now, now, now, now, now);
      }
    }

    /** A run goes on after a sample, or ends, just as the verdict on its samples says. */
    ghost predicate SampleTaken(run: SampleLoop, samples: seq<Sample>, before: seq<Call>, fed: bool, e: Ending)
      requires samples != []
      reads this, run
    {
      && run.samples == samples
      && var verdict := VerdictOf(run.limits, run.startedAt, samples);
         if verdict.Continue? then task == run && calls == before && progress == Some(Progress(Running, true))
         else
           && task == null && progress == Some(Progress(OutcomeOf(fed, verdict, e), true))
           && calls == before + EndingCalls(driver, fed, Survey(run.limits, run.startedAt, samples), verdict, e)
    }

    method TakeSample(position: Position) returns (ghost e: Ending, ghost clock: Clock)
      requires Valid() && task != null
      modifies `progress, `calls, `feed, `task, `now, Run()
      ensures Valid()
      ensures SampleTaken(old(task), old(task.samples) + [Sample(position, clock)], old(calls), old(feed), e)
      ensures old(task).averaging == old(task.averaging) || fresh(old(task).averaging)
    {
      var run: SampleLoop := task;
      var readings := ReadClock();
      ghost var h := run.samples;
      clock, e := readings, Ending(true, false, false);
      var verdict := run.Take(position, readings);
      if verdict.Continue? {
        GoOn(run, readings, h, position);
      } else {
        e := Conclude(run, verdict);
      }
    }

    /** Sleep until the next sample, the run kept. */
    method GoOn(run: SampleLoop, clock: Clock, ghost h: seq<Sample>, ghost position: Position)
      requires run.samples == h + [Sample(position, clock)] && run.nextSampleAt == run.startedAt + (|h| + 1) as real
      requires Kept(run.limits, run.startedAt, h, now) && now <= clock.settle && clock.Monotone()
      requires VerdictOf(run.limits, run.startedAt, run.samples) == Continue
      modifies `now
      ensures Kept(run.limits, run.startedAt, run.samples, now)
    {
      ghost var before := now;
      Sleep(clock.sleep, run.nextSampleAt);
      KeptStep(run.limits, run.startedAt, h, Sample(position, clock), before, now);
    }

    /** End the run as its verdict says. */
    method Conclude(run: SampleLoop, verdict: Verdict) returns (ghost e: Ending)
      requires Safe(calls) && (InputOpen(calls) <==> feed)
      requires feed == run.limits.corrected
      requires progress.Some? && progress.value.byStation
      requires run.samples != [] && verdict == VerdictOf(run.limits, run.startedAt, run.samples) != Continue
      requires verdict.Complete? ==>
        run.averaging.Valid() && run.averaging.added == Positions(TraceOf(run.limits, run.samples).observed)
      modifies `progress, `calls, `feed, `task
      ensures Valid() && task == null && progress == Some(Progress(OutcomeOf(old(feed), verdict, e), true))
      ensures calls == old(calls)
        + EndingCalls(driver, old(feed), Survey(run.limits, run.startedAt, run.samples), verdict, e)
    {
      if verdict.Complete? {
        e := Commit(run);
      } else {
        e := GiveUp(verdict);
        Regroup(old(calls), Restoring(driver, old(feed), e.restored), [Call(driver, RestoreSavedBase, e.fellBack)]);
      }
    }

    /** A survey that stalled or ran out of time: the input restored before the outcome shows, then the saved base. */
    method GiveUp(verdict: Verdict) returns (ghost e: Ending)
      requires Safe(calls) && (InputOpen(calls) <==> feed) && (verdict.Stalled? || verdict.TimedOut?)
      requires progress.Some? && progress.value.byStation
      modifies `progress, `calls, `feed, `task
      ensures Valid() && task == null && progress == Some(Progress(OutcomeOf(old(feed), verdict, e), true))
      ensures calls == old(calls)
        + Restoring(driver, old(feed), e.restored) + [Call(driver, RestoreSavedBase, e.fellBack)]
    {
      var restored := StopCorrections();
      var reason := if verdict.TimedOut? then AccuracyNotReached
                    else if restored then Stall(verdict.reason) else InputNotRestored;
      var _, fellBack := Abort(reason);
      e := Ending(restored, false, fellBack);
    }

    /** Any time from `t` on. */
    static method Later(t: real) returns (later: real)
      ensures later >= t
    {
      var passed: real := *;
      later := if passed < 0.0 then t else t + passed;
    }

    /** The readings one pass takes of a clock that never goes back. */
    method ReadClock() returns (c: Clock)
      ensures c.Monotone() && c.settle >= now
    {
      var settle := Later(now);
      var held := Later(settle);
      var growth := Later(held);
      var stall := Later(growth);
      var cap := Later(stall);
      var sleep := Later(cap);
      c := Clock(settle, held, growth, stall, cap, sleep);
    }

    /** Sleep until the next sample is due, or longer. */
    method Sleep(asked: real, until: real)
      modifies `now
      ensures WokeInTime(asked, until, now)
    {
      now := Later(asked + if until > asked then until - asked else 0.0);
    }

    /** Give up: the outcome, then what every exit and every abort does. */
    method Abort(reason: AbortReason) returns (ghost restored: bool, ghost fellBack: bool)
      requires Safe(calls) && (InputOpen(calls) <==> feed)
      requires progress.Some? && progress.value.byStation
      modifies `progress, `calls, `feed, `task
      ensures Valid() && task == null && progress == Some(Progress(Aborted(reason), true))
      ensures calls == old(calls)
        + Restoring(driver, old(feed), restored) + [Call(driver, RestoreSavedBase, fellBack)]
    {
      progress := Some(Progress(Aborted(reason), true));
      restored := StopCorrections();
      fellBack := Ask(RestoreSavedBase);
      task := null;
    }

    /** Restore the input, then write the mean as the fixed base; a failed restore writes nothing. */
    method Commit(run: SampleLoop) returns (ghost e: Ending)
      requires Safe(calls) && (InputOpen(calls) <==> feed)
      requires feed == run.limits.corrected
      requires progress.Some? && progress.value.byStation
      requires run.samples != [] && VerdictOf(run.limits, run.startedAt, run.samples) == Complete
      requires run.averaging.Valid()
      requires run.averaging.added == Positions(TraceOf(run.limits, run.samples).observed)
      modifies `progress, `calls, `feed, `task
      ensures Valid() && task == null && progress == Some(Progress(OutcomeOf(old(feed), Complete, e), true))
      ensures calls == old(calls)
        + EndingCalls(driver, old(feed), Survey(run.limits, run.startedAt, run.samples), Complete, e)
    {
      var restored := StopCorrections();
      if restored {
        ghost var wrote, fellBack := WriteMean(run);
        e := Ending(true, wrote, fellBack);
        Regroup(old(calls), Restoring(driver, old(feed), true),
                BaseCalls(driver, Survey(run.limits, run.startedAt, run.samples), e));
      } else {
        var _, fellBack := Abort(InputNotRestored);
        e := Ending(false, false, fellBack);
        Regroup(old(calls), Restoring(driver, old(feed), false), [Call(driver, RestoreSavedBase, fellBack)]);
      }
    }

    /** Write the mean as the fixed base; a write that fails ends on the saved base. */
    method WriteMean(run: SampleLoop) returns (ghost wrote: bool, ghost fellBack: bool)
      requires Safe(calls) && !InputOpen(calls) && !feed
      requires progress.Some? && progress.value.byStation
      requires run.samples != [] && VerdictOf(run.limits, run.startedAt, run.samples) == Complete
      requires run.averaging.Valid()
      requires run.averaging.added == Positions(TraceOf(run.limits, run.samples).observed)
      requires run.limits.corrected ==> calls != [] && calls[|calls| - 1] == Call(driver, EndInput, true)
      modifies `progress, `calls, `feed, `task
      ensures Valid() && task == null
      ensures progress == Some(Progress(if wrote then Completed else Aborted(DeviceDisconnected), true))
      ensures calls == old(calls)
        + BaseCalls(driver, Survey(run.limits, run.startedAt, run.samples), Ending(true, wrote, fellBack))
    {
      var mean := run.averaging.MeanXyz();
      var ok := Ask(WriteFixedBase(mean, Survey(run.limits, run.startedAt, run.samples)));
      wrote := ok;
      fellBack := AfterWrite(ok);
    }

    /** The survey is completed, or aborted if its base couldn't be written. */
    method AfterWrite(ok: bool) returns (ghost fellBack: bool)
      requires Safe(calls) && !InputOpen(calls) && !feed
      requires progress.Some? && progress.value.byStation
      modifies `progress, `calls, `feed, `task
      ensures Valid() && task == null
      ensures progress == Some(Progress(if ok then Completed else Aborted(DeviceDisconnected), true))
      ensures calls == old(calls) + if ok then [] else [Call(driver, RestoreSavedBase, fellBack)]
    {
      fellBack := false;
      if ok {
        progress := Some(Progress(Completed, true));
        task := null;
      } else {
        var _, back := Abort(DeviceDisconnected);
        fellBack := back;
      }
    }

    // -------------------------------------------------------------------
    // Cancel, disconnect, shutdown
    // -------------------------------------------------------------------

    /** The station's survey of the connected receiver is over. */
    predicate Finished()
      reads this
    {
      progress.Some? && progress.value.byStation && !progress.value.outcome.Running?
      && surveyDriver == Some(driver)
    }

    /** Stop the current survey; the receiver returns to its saved base. */
    method Cancel() returns (done: bool, ghost restored: bool)
      requires Valid()
      modifies `progress, `surveyDriver, `calls, `feed, `task
      ensures Valid() && task == null
      ensures old(Finished()) ==> done && calls == old(calls) && progress == old(progress) && Finished()
      ensures old(Current()) && !old(Finished()) ==>
        && progress == Some(Progress(Cancelled, true)) && surveyDriver == old(surveyDriver)
        && calls == old(calls) + Restoring(driver, old(feed), restored) + [Call(driver, RestoreSavedBase, done)]
      ensures !old(Current()) ==>
        && calls == old(calls) + Restoring(driver, old(feed), restored) + [Call(driver, CancelSurveyIn, done)]
        && progress == (if old(progress).None? || old(surveyDriver) != Some(driver) then None
                        else if done && old(progress).value.outcome.Running? then Some(Progress(Cancelled, false))
                        else old(progress))
    {
      restored := ForgetIfReceiverChanged();
      if progress.Some? && progress.value.byStation {
        done, restored := CancelOwn();
      } else {
        done := CancelReceivers();
      }
    }

    /** Cancel the station's own survey, unless it is over. */
    method CancelOwn() returns (done: bool, ghost restored: bool)
      requires Valid() && progress.Some? && progress.value.byStation
      modifies `progress, `calls, `feed, `task
      ensures Valid() && task == null
      ensures if !old(progress).value.outcome.Running? then done && calls == old(calls) && progress == old(progress)
              else
                && progress == Some(Progress(Cancelled, true))
                && calls == old(calls) + Restoring(driver, old(feed), restored) + [Call(driver, RestoreSavedBase, done)]
    {
      restored := StopTask();
      if !progress.value.outcome.Running? {
        return true, restored;  // finished: never undo a committed fixed base
      }
      progress := Some(Progress(Cancelled, true));
      done := Ask(RestoreSavedBase);
    }

    /** Cancel whatever survey the receiver runs. */
    method CancelReceivers() returns (done: bool)
      requires Valid() && (progress.Some? ==> !progress.value.byStation)
      modifies `progress, `calls
      ensures Valid() && task == null && calls == old(calls) + [Call(driver, CancelSurveyIn, done)]
      ensures progress == if done && old(progress).Some? && old(progress).value.outcome.Running?
                          then Some(Progress(Cancelled, false)) else old(progress)
    {
      assert task == null;
      done := Ask(CancelSurveyIn);
      if done && progress.Some? && progress.value.outcome.Running? {
        progress := Some(Progress(Cancelled, false));
      }
    }

    /** The survey last seen is the station's own, of the receiver connected now. */
    predicate Current()
      reads this
    {
      progress.Some? && progress.value.byStation && surveyDriver == Some(driver)
    }

    /** Stop a running survey while the receiver still answers. */
    method BeforeDisconnect() returns (ghost restored: bool, ghost fellBack: bool)
      requires Valid()
      modifies `progress, `calls, `feed, `task
      ensures Valid() && task == null
      ensures if old(task) == null then calls == old(calls) && progress == old(progress)
              else
                && progress == Some(Progress(Aborted(DeviceDisconnected), true))
                && calls == old(calls)
                     + Restoring(driver, old(feed), restored) + [Call(driver, RestoreSavedBase, fellBack)]
    {
      restored, fellBack := true, false;
      if task == null {
        return;
      }
      restored := StopTask();
      ghost var _, back := Abort(DeviceDisconnected);
      fellBack := back;
    }

    method Shutdown() returns (ghost restored: bool)
      requires Valid()
      modifies `calls, `feed, `task
      ensures Valid() && task == null && calls == old(calls) + Restoring(driver, old(feed), restored)
    {
      restored := StopTask();
    }

    /** Read the progress of a survey the receiver averages; the station's own is known. */
    method ReadProgress() returns (ghost restored: bool)
      requires Valid()
      modifies `progress, `surveyDriver, `calls, `feed, `task
      ensures Valid() && (task == null || task == old(task))
      ensures old(Current()) || old(progress).None? ==>
        calls == old(calls) && progress == old(progress) && task == old(task) && surveyDriver == old(surveyDriver)
      ensures old(progress).Some? && old(surveyDriver) != Some(driver) ==>
        progress == None && task == null && calls == old(calls) + Restoring(driver, old(feed), restored)
      ensures old(progress).Some? && !old(progress).value.byStation && old(surveyDriver) == Some(driver) ==>
        && calls == old(calls) && progress.Some? && !progress.value.byStation
        && if old(progress).value.outcome.Cancelled? || old(progress).value.outcome.Aborted?
           then progress == old(progress)
           else progress.value.outcome.Running? || progress.value.outcome.Completed?
    {
      restored := ForgetIfReceiverChanged();
      if progress.Some? && !progress.value.byStation
         && !progress.value.outcome.Cancelled? && !progress.value.outcome.Aborted? {
        var valid: bool := *;
        progress := Some(Progress(if valid then Completed else Running, false));
      }
    }

    /** A different receiver may be connected at any time. */
    method ConnectReceiver(other: nat)
      requires Valid()
      modifies `driver
      ensures Valid() && driver == other
    {
      driver := other;
    }

    // -------------------------------------------------------------------
    // Whole runs
    // -------------------------------------------------------------------

    /**
     Left alone, a survey ends, within its wall-clock cap in samples and one more: on the
     first sample whose verdict isn't to go on, as that says, or at a read that isn't answered.
     */
    method RunApplicationSurvey() returns (ghost answered: bool, ghost e: Ending)
      requires Valid() && task != null
      modifies `progress, `calls, `feed, `task, `now, Run()
      ensures Valid() && task == null
      ensures |old(task).samples| <= old(task).limits.HardCapS() + 1
      ensures Over(old(task), old(calls), old(feed), answered, e)
    {
      var run: SampleLoop := task;
      answered, e := true, Ending(true, false, false);
      KeptIsShort(run.limits, run.startedAt, run.samples, now);
      while task != null
        invariant Valid() && (task == null || task == run)
        invariant if task != null then calls == old(calls) && feed == old(feed)
                  else Over(run, old(calls), old(feed), answered, e)
        invariant |run.samples| <= run.limits.HardCapS() + if task == null then 1 else 0
        invariant run.averaging == old(run.averaging) || fresh(run.averaging)
        decreases run.limits.HardCapS() + 1 - |run.samples|, task != null
      {
        answered, e := RunOnce(run);
      }
    }

    /** The receiver answers with a position, or doesn't. */
    static method ReadPosition() returns (read: Option<Position>)
    {
      var answers: bool, position: Position := *, *;
      read := if answers then Some(position) else None;
    }

    /** One more pass of a run. */
    method RunOnce(run: SampleLoop) returns (ghost answered: bool, ghost e: Ending)
      requires Valid() && task == run && |run.samples| <= run.limits.HardCapS()
      modifies `progress, `calls, `feed, `task, `now, Run()
      ensures Valid() && (task == null || task == run)
      ensures if task != null then calls == old(calls) && feed == old(feed)
              else Over(run, old(calls), old(feed), answered, e)
      ensures |run.samples| <= run.limits.HardCapS() + if task == null then 1 else 0
      ensures |run.samples| >= |old(run.samples)| + if task == null then 0 else 1
      ensures run.averaging == old(run.averaging) || fresh(run.averaging)
    {
      var read := ReadPosition();
      answered := read.Some?;
      ghost var clock;
      e, clock := TaskStep(read);
      if task != null {
        assert RunValid(run);
        KeptIsShort(run.limits, run.startedAt, run.samples, now);
      }
    }

    /** A run is over, by the verdict on its samples or by a read that wasn't answered. */
    ghost predicate Over(run: SampleLoop, before: seq<Call>, fed: bool, answered: bool, e: Ending)
      reads this, run
    {
      if answered then run.samples != [] && SampleTaken(run, run.samples, before, fed, e)
      else
        && progress == Some(Progress(Aborted(DeviceDisconnected), true))
        && calls == before + Restoring(driver, fed, e.restored) + [Call(driver, RestoreSavedBase, e.fellBack)]
    }

    /** Whatever happens next: any operation, by anyone. */
    method AnyOperation()
      requires Valid()
      modifies this, Run()
      ensures Valid()
      ensures task == null || task == old(task) || fresh(task)
      ensures task != null ==> task.averaging in old(Run()) || fresh(task.averaging)
    {
      var which: nat := *;
      if which == 0 {
        AnyStart();
      } else if which == 1 && task != null {
        AnyPass();
      } else {
        AnyOther();
      }
    }

    method AnyPass()
      requires Valid() && task != null
      modifies this, Run()
      ensures Valid() && (task == null || task == old(task))
      ensures old(task).averaging == old(task.averaging) || fresh(old(task).averaging)
    {
      var read := ReadPosition();
      var e, clock := TaskStep(read);
    }

    method AnyStart()
      requires Valid()
      modifies this
      ensures Valid()
      ensures task == null || task == old(task) || fresh({task, task.averaging})
    {
      var l: Limits := *;
      var receiverAverages: bool := *;
      if l.corrected {
        var r, fed, restored := StartCorrected(l);
      } else {
        var r, ok, restored := StartPlain(l, receiverAverages);
      }
    }

    method AnyOther()
      requires Valid()
      modifies this
      ensures Valid() && (task == null || task == old(task))
    {
      var which: nat := *;
      if which == 0 {
        var done, restored := Cancel();
      } else if which == 1 {
        var restored, fellBack := BeforeDisconnect();
      } else if which == 2 {
        var restored := Shutdown();
      } else if which == 3 {
        var restored := ReadProgress();
      } else {
        var other: nat := *;
        ConnectReceiver(other);
      }
    }

    /**
     Any number of operations in any order: the log stays safe, so `EveryFixedBase`
     and `RestoredOnce` hold of every log the service can leave behind.
     */
    method AnyRun(steps: nat)
      requires Valid()
      modifies this, Run()
      ensures Valid()
    {
      for step := 0 to steps
        invariant Valid()
        invariant task == null || task == old(task) || fresh(task)
        invariant task != null ==> task.averaging in old(Run()) || fresh(task.averaging)
      {
        AnyOperation();
      }
    }

    /** A finished survey's base is left alone by every later cancel, disconnect, shutdown and read. */
    method AfterFinish(steps: nat)
      requires Valid() && Finished()
      modifies this
      ensures Valid() && Finished() && calls == old(calls) && progress == old(progress)
    {
      for step := 0 to steps
        invariant Valid() && Finished() && calls == old(calls) && progress == old(progress)
      {
        var which: nat := *;
        if which == 0 {
          var done, restored := Cancel();
        } else if which == 1 {
          var restored, fellBack := BeforeDisconnect();
        } else if which == 2 {
          var restored := Shutdown();
        } else {
          var restored := ReadProgress();
        }
      }
    }
  }

  lemma KeptStep(l: Limits, startedAt: real, h: seq<Sample>, s: Sample, before: real, after: real)
    requires Kept(l, startedAt, h, before) && before <= s.clock.settle && s.clock.Monotone()
    requires VerdictOf(l, startedAt, h + [s]) == Continue
    requires WokeInTime(s.clock.sleep, startedAt + (|h| + 1) as real, after)
    ensures Kept(l, startedAt, h + [s], after)
  {
    var longer := h + [s];
    forall n | 0 < n <= |longer| ensures VerdictOf(l, startedAt, longer[..n]) == Continue {
      assert n <= |h| ==> longer[..n] == h[..n];
      assert n > |h| ==> longer[..n] == longer;
    }
  }

  lemma KeptIsShort(l: Limits, startedAt: real, h: seq<Sample>, now: real)
    requires Kept(l, startedAt, h, now)
    ensures |h| <= l.HardCapS()
  {
    if h != [] {
      SampleTimes(startedAt, h, |h| - 1);
      assert h[..|h|] == h;
      assert VerdictOf(l, startedAt, h) == Continue;
    }
  }
}
