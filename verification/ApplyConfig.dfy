/**
 Apply: read the receiver, diff, write only the steps that differ, and keep the
 management link alive. The receiver is part of the model: driver calls update
 what it holds, a failed step may leave any of its leaves old or new, and the
 link answers exactly when it is open at the receiver's rate on the true console
 port (USB has no rate).
 */
module ApplyConfig {
  import opened Common
  import opened ReceiverState

  datatype Link = Serial(baud: int) | Bluetooth

  datatype Rule = UbxInLiveness | ConsoleBaudOverBluetooth | SurveyInActive | TmodeFixedRequiresCoordinates

  datatype Status = StepOk | StepFailed | StepSkipped

  datatype Outcome =
    | NotConnected
    | Refused(rule: Rule)
    | ReadFailed(steps: seq<Status>)
    | LinkLost(previousBaud: int, newBaud: int)
    | Applied(ok: bool, readBack: Assertion, diff: seq<Entry>, steps: seq<Status>, stepWarnings: set<Step>)

  /** A UART whose rate this Apply changed, and its new rate. */
  datatype BaudChange = BaudChange(port: PortId, rate: int)

  function RateOn(a: Assertion, port: PortId): int {
    if port.Uart2? then a.uart2 else a.uart1
  }

  // ---------------------------------------------------------------------
  // What a run of the steps leaves behind
  // ---------------------------------------------------------------------

  /** A leaf after a step over it: written, untouched, or (if the step failed) either. */
  predicate LeafAfter(status: Status, target: Assertion, before: Assertion, after: Assertion, leaf: Leaf) {
    match status
    case StepOk => ValueAt(after, leaf) == Written(target, before, leaf)
    case StepSkipped => ValueAt(after, leaf) == ValueAt(before, leaf)
    case StepFailed =>
      ValueAt(after, leaf) == Written(target, before, leaf) || ValueAt(after, leaf) == ValueAt(before, leaf)
  }

  /** The status of a leaf's step; a step not reached is as good as skipped. */
  function StatusOf(steps: seq<Status>, leaf: Leaf): Status {
    var k := StepIndex(StepOf(leaf));
    if k < |steps| then steps[k] else StepSkipped
  }

  ghost predicate After(target: Assertion, before: Assertion, after: Assertion, steps: seq<Status>) {
    forall leaf: Leaf :: LeafAfter(StatusOf(steps, leaf), target, before, after, leaf)
  }

  /** The first failed step, or how many steps there are. */
  function FirstFailure(steps: seq<Status>): (f: nat)
    ensures f <= |steps|
    ensures forall k :: 0 <= k < f ==> steps[k] != StepFailed
    ensures f < |steps| ==> steps[f] == StepFailed
  {
    if steps == [] then 0
    else
      var f := FirstFailure(steps[..|steps| - 1]);
      if f < |steps| - 1 || steps[|steps| - 1].StepFailed? then f else |steps|
  }

  /** Up to the first failure a step runs exactly when it is due; after it, nothing runs. */
  predicate InSequence(steps: seq<Status>, due: set<Step>) {
    && |steps| <= |APPLY_STEPS|
    && (forall k :: 0 <= k < |steps| && k < FirstFailure(steps) ==>
          steps[k] == if APPLY_STEPS[k] in due then StepOk else StepSkipped)
    && (forall k :: FirstFailure(steps) < k < |steps| ==> steps[k] == StepSkipped)
    && (FirstFailure(steps) < |steps| ==> APPLY_STEPS[FirstFailure(steps)] in due)
  }

  /** The steps that ran, in order. */
  function Ran(steps: seq<Status>): seq<Step>
    requires |steps| <= |APPLY_STEPS|
  {
    if steps == [] then []
    else Ran(steps[..|steps| - 1]) + if steps[|steps| - 1].StepSkipped? then [] else [APPLY_STEPS[|steps| - 1]]
  }

  lemma {:induction false} NoneRan(steps: seq<Status>)
    requires |steps| <= |APPLY_STEPS| && forall k :: 0 <= k < |steps| ==> steps[k] == StepSkipped
    ensures Ran(steps) == []
  {
    if steps != [] {
      NoneRan(steps[..|steps| - 1]);
    }
  }

  /** The steps that own a leaf at which the receiver differs from the request. */
  ghost predicate ChangedSteps(changed: set<Step>, target: Assertion, before: Assertion) {
    forall s: Step :: s in changed <==>
      exists leaf: Leaf :: StepOf(leaf) == s && ValueAt(target, leaf) != ValueAt(before, leaf)
  }

  /**
   The incremental Apply refines writing everything. Every step before the first
   failure holds what writing it would have put there, whether it ran or was
   skipped; every later one holds its old values; and with no failure the receiver
   is, leaf by leaf, where writing every step would have left it.
   */
  lemma {:induction false} IncrementalRefines(target: Assertion, before: Assertion, after: Assertion,
                                              steps: seq<Status>, changed: set<Step>, due: set<Step>)
    requires |steps| == |APPLY_STEPS|
    requires ChangedSteps(changed, target, before) && changed <= due
    requires After(target, before, after, steps) && InSequence(steps, due)
    ensures forall leaf: Leaf ::
      var k, f := StepIndex(StepOf(leaf)), FirstFailure(steps);
      && (k < f ==> ValueAt(after, leaf) == Written(target, before, leaf))
      && (k > f ==> ValueAt(after, leaf) == ValueAt(before, leaf))
    ensures FirstFailure(steps) == |steps| ==> SameLeaves(after, WriteEverything(target, before, |APPLY_STEPS|))
  {
    forall leaf: Leaf
      ensures var k, f := StepIndex(StepOf(leaf)), FirstFailure(steps);
        && (k < f ==> ValueAt(after, leaf) == Written(target, before, leaf))
        && (k > f ==> ValueAt(after, leaf) == ValueAt(before, leaf))
        && (k == f ==> ValueAt(after, leaf) in {Written(target, before, leaf), ValueAt(before, leaf)})
    {
      assert LeafAfter(StatusOf(steps, leaf), target, before, after, leaf);
      if ValueAt(target, leaf) != ValueAt(before, leaf) {
        assert StepOf(leaf) in changed;
      }
    }
    if FirstFailure(steps) == |steps| {
      forall leaf: Leaf
        ensures ValueAt(after, leaf) == ValueAt(WriteEverything(target, before, |APPLY_STEPS|), leaf)
      {
        WriteEverythingLeaves(target, before, |APPLY_STEPS|, leaf);
      }
    }
  }

  /** A leaf after one step ended with a status: no other step's leaf changes. */
  predicate OneStep(step: Step, status: Status, target: Assertion, before: Assertion, after: Assertion, leaf: Leaf) {
    if StepOf(leaf) == step then LeafAfter(status, target, before, after, leaf)
    else ValueAt(after, leaf) == ValueAt(before, leaf)
  }

  lemma AfterStep(target: Assertion, before: Assertion, mid: Assertion, after: Assertion,
                                     steps: seq<Status>, status: Status)
    requires |steps| < |APPLY_STEPS| && After(target, before, mid, steps)
    requires forall leaf: Leaf :: OneStep(APPLY_STEPS[|steps|], status, target, mid, after, leaf)
    ensures After(target, before, after, steps + [status])
  {
    forall leaf: Leaf ensures LeafAfter(StatusOf(steps + [status], leaf), target, before, after, leaf) {
      assert LeafAfter(StatusOf(steps, leaf), target, before, mid, leaf);
      assert OneStep(APPLY_STEPS[|steps|], status, target, mid, after, leaf);
      StepsInOrder(|steps|);
    }
  }

  lemma {:induction false} SequenceStep(steps: seq<Status>, due: set<Step>, status: Status)
    requires InSequence(steps, due) && |steps| < |APPLY_STEPS|
    requires if FirstFailure(steps) < |steps| then status.StepSkipped?
             else if APPLY_STEPS[|steps|] in due then !status.StepSkipped? else status.StepSkipped?
    ensures InSequence(steps + [status], due)
    ensures FirstFailure(steps + [status]) < |steps| + 1 <==> FirstFailure(steps) < |steps| || status.StepFailed?
    ensures Ran(steps + [status]) == Ran(steps) + if status.StepSkipped? then [] else [APPLY_STEPS[|steps|]]
  {
    assert (steps + [status])[..|steps|] == steps;
  }

  /** One more step done, as it was due. */
  lemma StepDone(target: Assertion, before: Assertion, mid: Assertion, after: Assertion,
                 steps: seq<Status>, due: set<Step>, status: Status)
    requires |steps| < |APPLY_STEPS| && After(target, before, mid, steps) && InSequence(steps, due)
    requires forall leaf: Leaf :: OneStep(APPLY_STEPS[|steps|], status, target, mid, after, leaf)
    requires status.StepSkipped? <==> FirstFailure(steps) < |steps| || APPLY_STEPS[|steps|] !in due
    ensures After(target, before, after, steps + [status]) && InSequence(steps + [status], due)
    ensures FirstFailure(steps + [status]) < |steps| + 1 <==> FirstFailure(steps) < |steps| || status.StepFailed?
    ensures Ran(steps + [status]) == Ran(steps) + if status.StepSkipped? then [] else [APPLY_STEPS[|steps|]]
  {
    AfterStep(target, before, mid, after, steps, status);
    SequenceStep(steps, due, status);
  }

  /** Any mix of the leaves of one step old and new, and nothing else changed. */
  predicate Torn(step: Step, target: Assertion, before: Assertion, after: Assertion) {
    forall i :: 0 <= i < |AllLeaves()| ==> TornAt(step, target, before, after, AllLeaves()[i])
  }

  lemma TornEverywhere(step: Step, target: Assertion, before: Assertion, after: Assertion)
    requires Torn(step, target, before, after)
    ensures forall leaf: Leaf :: OneStep(step, StepFailed, target, before, after, leaf)
  {
    EveryLeafOnce();
    forall leaf: Leaf ensures OneStep(step, StepFailed, target, before, after, leaf) {
      assert TornAt(step, target, before, after, AllLeaves()[Rank(leaf)]);
    }
  }

  predicate TornAt(step: Step, target: Assertion, before: Assertion, after: Assertion, leaf: Leaf) {
    OneStep(step, StepFailed, target, before, after, leaf)
  }

  /** UBX input stays on at `port` wherever the request writes it. */
  predicate KeepsUbx(target: Assertion, before: Assertion, port: PortId) {
    Ubx in before.Port(port).ins && port in target.ports ==> Ubx in target.ports[port].ins
  }

  // ---------------------------------------------------------------------
  // The service
  // ---------------------------------------------------------------------

  class DeviceService {
    /** The receiver port this link is really attached to. */
    const truePort: PortId
    /** What the receiver holds. */
    var held: Assertion
    var surveyActive: bool
    var hasPosition: bool
    /** The rate the link is open at on the receiver's side of it, if it is open. */
    var openAt: Option<int>
    /** A reopen failed though the receiver would have answered. */
    ghost var flaky: bool
    /** The steps written, and the rates tried to reopen the link at, so far. */
    ghost var writes: seq<Step>
    ghost var reopens: seq<int>

    var link: Link
    /** The Console port as last identified; None while unknown. */
    var consolePort: Option<PortId>
    var stepsWarnedLastApply: set<Step>
    var connected: bool

    /** The receiver reports every port, and what the service believes is true or unknown. */
    predicate Valid()
      reads this
    {
      && held.NamesEveryPort()
      && (consolePort.Some? ==> consolePort.value == truePort)
      && (link.Serial? && openAt.Some? ==> openAt.value == link.baud)
    }

    predicate Answers()
      reads this
    {
      openAt.Some? && (truePort.Usb? || openAt.value == RateOn(held, truePort))
    }

    predicate UbxAlive()
      reads this
    {
      Ubx in held.Port(truePort).ins
    }

    constructor (truePort: PortId, held: Assertion, link: Link, openAt: Option<int>)
      requires held.NamesEveryPort() && (link.Serial? && openAt.Some? ==> openAt.value == link.baud)
      ensures Valid() && this.truePort == truePort && this.held == held && writes == []
    {
      this.truePort, this.held, this.link, this.openAt := truePort, held, link, openAt;
      surveyActive, hasPosition, connected := *, *, *;
      flaky, writes, reopens := false, [], [];
      consolePort, stepsWarnedLastApply := None, {};
    }

    // -------------------------------------------------------------------
    // The receiver
    // -------------------------------------------------------------------

    method ReadFullAssertion() returns (read: Option<Assertion>)
      ensures read == if Answers() then Some(held) else None
    {
      read := if Answers() then Some(held) else None;
    }

    /** One step's driver call, over a link that answers. If it fails, some of its leaves may have been written. */
    method RunApplyStep(step: Step, target: Assertion) returns (status: Status)
      requires held.NamesEveryPort() && Answers()
      modifies `held, `writes
      ensures !status.StepSkipped?
      ensures writes == old(writes) + [step] && held.NamesEveryPort()
      ensures forall leaf: Leaf :: OneStep(step, status, target, old(held), held, leaf)
    {
      writes := writes + [step];
      var ok: bool := *;
      if ok {
        forall leaf: Leaf ensures OneStep(step, StepOk, target, held, WriteStep(step, target, held), leaf) {
          WriteStepLeaves(step, target, held, leaf);
        }
        held := WriteStep(step, target, held);
        return StepOk;
      }
      var torn: Assertion := *;
      if torn.NamesEveryPort() && Torn(step, target, held, torn) {
        TornEverywhere(step, target, held, torn);
        held := torn;
      }
      return StepFailed;
    }

    /** Reopen the link at a rate; over Bluetooth the module keeps its own. */
    method ReconnectAtBaud(rate: int) returns (ok: bool)
      modifies `openAt, `reopens, `flaky
      ensures ok ==> Answers() && flaky == old(flaky)
      ensures ok && link.Serial? ==> openAt == Some(rate)
      ensures !ok ==> openAt == None
      ensures !ok && link.Serial? && (truePort.Usb? || rate == RateOn(held, truePort)) ==> flaky
      ensures old(flaky) ==> flaky
      ensures reopens == old(reopens) + [rate]
    {
      reopens := reopens + [rate];
      if link.Serial? {
        openAt := Some(rate);
      }
      ok := Answers();
      if ok {
        ok := *;
        flaky := flaky || !ok;
      }
      if !ok {
        openAt := None;
      }
    }

    /** Ask the receiver which port this link is on: it answers the truth or not at all. */
    method IdentifyConsolePort()
      modifies `consolePort
      ensures consolePort.Some? ==> consolePort.value == truePort
    {
      var identified: bool := *;
      consolePort := if identified then Some(truePort) else None;
    }

    // -------------------------------------------------------------------
    // Apply
    // -------------------------------------------------------------------

    /**
     The steps in order, skipping what matches and stopping at the first failure. The rates
     come last, so that every step is written over a link that still answers.
     */
    method RunSteps(target: Assertion, changed: set<Step>) returns (steps: seq<Status>, stepWarnings: set<Step>)
      requires Valid() && Answers()
      modifies `held, `writes, `stepsWarnedLastApply
      ensures held.NamesEveryPort()
      ensures |steps| == |APPLY_STEPS| && InSequence(steps, changed + old(stepsWarnedLastApply))
      ensures After(target, old(held), held, steps)
      ensures writes == old(writes) + Ran(steps)
      ensures WarnedAfter(old(stepsWarnedLastApply), steps, stepWarnings, stepsWarnedLastApply)
    {
      var updatedWarned := stepsWarnedLastApply;
      var blocked := false;
      steps, stepWarnings := [], {};
      for i := 0 to |APPLY_STEPS|
        invariant |steps| == i && held.NamesEveryPort() && (i < |APPLY_STEPS| ==> Answers())
        invariant InSequence(steps, changed + stepsWarnedLastApply)
        invariant blocked <==> FirstFailure(steps) < |steps|
        invariant After(target, old(held), held, steps)
        invariant writes == old(writes) + Ran(steps)
        invariant stepsWarnedLastApply == old(stepsWarnedLastApply)
        invariant WarnedAfter(stepsWarnedLastApply, steps, stepWarnings, updatedWarned)
      {
        var step := APPLY_STEPS[i];
        ghost var mid := held;
        var status, drained := TakeStep(step, target, !blocked && (step in changed || step in stepsWarnedLastApply));
        blocked := blocked || status.StepFailed?;
        WarnedStep(stepsWarnedLastApply, steps, stepWarnings, updatedWarned, status, drained);
        if drained {
          updatedWarned, stepWarnings := updatedWarned + {step}, stepWarnings + {step};
        } else if status.StepOk? {
          updatedWarned := updatedWarned - {step};
        }
        BaudIsLast(i);
        StepDone(target, old(held), mid, held, steps, changed + stepsWarnedLastApply, status);
        steps := steps + [status];
      }
      stepsWarnedLastApply := updatedWarned;
    }

    static lemma BaudIsLast(i: nat)
      requires i < |APPLY_STEPS|
      ensures APPLY_STEPS[i].Baud? <==> i + 1 == |APPLY_STEPS|
    {
    }

    /** Run a step if it is due; a driver may have warnings to drain after one that ran. */
    method TakeStep(step: Step, target: Assertion, due: bool) returns (status: Status, drained: bool)
      requires held.NamesEveryPort() && Answers()
      modifies `held, `writes
      ensures status.StepSkipped? <==> !due
      ensures drained ==> status.StepOk?
      ensures held.NamesEveryPort() && writes == old(writes) + if due then [step] else []
      ensures forall leaf: Leaf :: OneStep(step, status, target, old(held), held, leaf)
      ensures !step.Baud? ==> Answers()
    {
      status, drained := StepSkipped, false;
      if due {
        status := RunApplyStep(step, target);
        if status.StepOk? {
          drained := *;
        }
      }
      assert OneStep(step, status, target, old(held), held, BaudUart1);
      assert OneStep(step, status, target, old(held), held, BaudUart2);
    }

    // -------------------------------------------------------------------
    // Guards
    // -------------------------------------------------------------------

    /** Refuse, while the console port is unknown, to drop UBX input anywhere. */
    predicate DropsUbxAnywhere(target: Assertion, pre: Assertion) {
      exists port: PortId :: port in target.ports && Ubx !in target.ports[port].ins
                             && port in pre.ports && Ubx in pre.ports[port].ins
    }

    /** Whether the console port's own rate would change; any UART's, while it is unknown. */
    predicate ChangesConsoleBaud(target: Assertion, pre: Assertion)
      reads this
    {
      exists port: PortId :: !port.Usb? && (consolePort.None? || consolePort.value == port)
                             && RateOn(target, port) != RateOn(pre, port)
    }

    /** The guards that need the pre-read, in the order they are checked. */
    method Guards(target: Assertion, pre: Assertion) returns (refusal: Option<Rule>)
      requires Valid() && pre == held && ConsoleKeepsUbx(target)
      ensures refusal == RefusalFor(target)
    {
      PortByPort(target);
      if consolePort.None? && DropsUbxAnywhere(target, pre) {
        return Some(UbxInLiveness);
      }
      if link.Bluetooth? && ChangesConsoleBaud(target, pre) {
        return Some(ConsoleBaudOverBluetooth);
      }
      if target.tmodeMode != pre.tmodeMode && surveyActive {
        return Some(SurveyInActive);
      }
      if target.tmodeMode.FixedMode? && !hasPosition {
        return Some(TmodeFixedRequiresCoordinates);
      }
      return None;
    }

    /** The known console port must keep UBX input, if the request names it. */
    predicate ConsoleKeepsUbx(target: Assertion)
      reads this
    {
      consolePort.Some? && consolePort.value in target.ports ==> Ubx in target.ports[consolePort.value].ins
    }

    /** The request names a port without UBX input that takes it now. */
    predicate Drops(target: Assertion, port: PortId)
      reads this
    {
      port in target.ports && Ubx !in target.ports[port].ins && Ubx in held.Port(port).ins
    }

    /**
     Which rule refuses a request, port by port: UBX input at the known console port, or
     while it is unknown at any port that takes it now; over Bluetooth, the console port's
     own rate, or any UART's while it is unknown; a running survey; no position to fix.
     */
    function RefusalFor(target: Assertion): Option<Rule>
      reads this
    {
      var first, second := target.uart1 != held.uart1, target.uart2 != held.uart2;
      var losesUbx := match consolePort
        case Some(port) => port in target.ports && Ubx !in target.ports[port].ins
        case None => Drops(target, Uart1) || Drops(target, Uart2) || Drops(target, Usb);
      var losesLink := link.Bluetooth? && match consolePort
        case Some(Uart1) => first
        case Some(Uart2) => second
        case Some(Usb) => false
        case None => first || second;
      if losesUbx then Some(UbxInLiveness)
      else if losesLink then Some(ConsoleBaudOverBluetooth)
      else if target.tmodeMode != held.tmodeMode && surveyActive then Some(SurveyInActive)
      else if target.tmodeMode.FixedMode? && !hasPosition then Some(TmodeFixedRequiresCoordinates)
      else None
    }

    /** What the guards look for among all ports, said of each. */
    lemma PortByPort(target: Assertion)
      requires Valid()
      ensures DropsUbxAnywhere(target, held) <==> Drops(target, Uart1) || Drops(target, Uart2) || Drops(target, Usb)
      ensures ChangesConsoleBaud(target, held) <==>
        || (target.uart1 != held.uart1 && (consolePort.None? || consolePort == Some(Uart1)))
        || (target.uart2 != held.uart2 && (consolePort.None? || consolePort == Some(Uart2)))
    {
      forall port: PortId
        ensures Drops(target, port) <==> port in target.ports && Ubx !in target.ports[port].ins
                                         && port in held.ports && Ubx in held.ports[port].ins
      {
        assert port in held.ports;
      }
      if port: PortId :| Drops(target, port) {
        match port case Uart1 => case Uart2 => case Usb =>
      }
      assert RateOn(target, Uart1) == target.uart1 && RateOn(target, Uart2) == target.uart2;
      assert RateOn(held, Uart1) == held.uart1 && RateOn(held, Uart2) == held.uart2;
    }

    // -------------------------------------------------------------------
    // The link after a baud write
    // -------------------------------------------------------------------

    /** Reopen the console's own link at its new rate; a failure tries the old one once and is lost either way. */
    method ReopenAfterBaudWrite(newBaud: int) returns (lost: Option<Outcome>)
      requires Valid() && link.Serial?
      modifies `openAt, `reopens, `flaky, `link, `connected
      ensures Valid() && (old(flaky) ==> flaky) && (lost.Some? ==> lost.value.LinkLost?)
      ensures lost.None? ==> Answers() && flaky == old(flaky) && connected == old(connected)
      ensures lost.Some? && newBaud == RateOn(held, truePort) ==> flaky
      ensures reopens == old(reopens) + [newBaud] + if lost.Some? then [old(link.baud)] else []
      ensures lost.Some? ==> lost.value == LinkLost(old(link.baud), newBaud) && (connected <==> openAt.Some?)
      ensures link == if lost.None? then Serial(newBaud) else old(link)
    {
      var previousBaud := link.baud;
      var ok := ReconnectAtBaud(newBaud);
      if ok {
        link := Serial(newBaud);
        return None;
      }
      ok := ReconnectAtBaud(previousBaud);
      if ok {
        link := Serial(previousBaud);
      }
      connected := ok;
      return Some(LinkLost(previousBaud, newBaud));
    }

    /**
     Keep the link alive once UART rates have changed: reopen if it was the console's
     own, and if the console port is unknown, look for it among the new rates.
     */
    method KeepConsoleLinkAfterBaudWrite(changes: seq<BaudChange>) returns (lost: Option<Outcome>)
      requires Valid() && 1 <= |changes| <= 2
      requires forall c :: c in changes ==> !c.port.Usb? && c.rate == RateOn(held, c.port)
      requires |changes| == 2 ==> changes[0].port != changes[1].port
      requires Answers() || exists c :: c in changes && c.port == truePort
      requires link.Bluetooth? ==> Answers() && forall c :: c in changes ==> consolePort != Some(c.port)
      requires openAt.Some?
      modifies `openAt, `reopens, `flaky, `link, `connected, `consolePort
      ensures Valid() && (old(flaky) ==> flaky) && (lost.Some? ==> lost.value.LinkLost?)
      ensures lost.None? ==> Answers()
      ensures lost.None? && old(connected) ==> connected
      ensures lost.Some? ==> flaky && old(link).Serial? && lost.value.previousBaud == old(link.baud)
      ensures lost.Some? ==>
        if old(consolePort).Some? then BaudChange(old(consolePort).value, lost.value.newBaud) in changes
        else lost.value.newBaud == changes[0].rate
      ensures old(consolePort).Some? ==> consolePort == old(consolePort)
      ensures old(consolePort).Some? && (forall c :: c in changes ==> c.port != old(consolePort).value) ==>
        lost.None? && reopens == old(reopens) && link == old(link)
      ensures old(consolePort).None? && old(Answers()) ==>
        lost.None? && reopens == old(reopens) && link == old(link) && consolePort == old(consolePort)
    {
      if consolePort.Some? {
        var newBaud := RateFor(changes, consolePort.value);
        lost := None;
        if newBaud.Some? {
          lost := ReopenAfterBaudWrite(newBaud.value);
        }
        return;
      }
      if Answers() {
        return None;
      }
      lost := FindConsoleAtNewRates(changes);
    }

    /** The console port is unknown and the link is dead: the new rate that answers says where it is. */
    method FindConsoleAtNewRates(changes: seq<BaudChange>) returns (lost: Option<Outcome>)
      requires Valid() && 1 <= |changes| <= 2 && link.Serial? && consolePort.None? && !truePort.Usb?
      requires forall c :: c in changes ==> c.rate == RateOn(held, c.port)
      requires |changes| == 2 ==> changes[0].port != changes[1].port
      requires exists c :: c in changes && c.port == truePort
      modifies `openAt, `reopens, `flaky, `link, `connected, `consolePort
      ensures Valid() && (old(flaky) ==> flaky) && (lost.Some? ==> lost.value.LinkLost? && flaky)
      ensures lost.None? ==> Answers() && connected
      ensures lost.None? && (|changes| == 2 ==> changes[0].rate != changes[1].rate) ==> consolePort == Some(truePort)
      ensures lost.Some? ==> lost.value == LinkLost(old(link.baud), changes[0].rate) && !connected && openAt.None?
      ensures var rates := if |changes| == 2 && changes[0].rate != changes[1].rate
                           then [changes[0].rate, changes[1].rate] else [changes[0].rate];
        if lost.Some? then reopens == old(reopens) + rates
        else link.Serial? && exists i :: 0 <= i < |rates| && link.baud == rates[i]
                                         && reopens == old(reopens) + rates[..i + 1]
    {
      var previousBaud := link.baud;
      var rates := if |changes| == 2 && changes[0].rate != changes[1].rate
                   then [changes[0].rate, changes[1].rate] else [changes[0].rate];
      assert rates[..|rates|] == rates;
      assert forall c :: c in changes ==> c.rate in rates;
      for i := 0 to |rates|
        invariant Valid() && link.Serial? && consolePort.None? && (old(flaky) ==> flaky)
        invariant RateOn(held, truePort) in rates[..i] ==> flaky
        invariant reopens == old(reopens) + rates[..i]
        invariant i > 0 ==> openAt.None?
      {
        var ok := ReconnectAtBaud(rates[i]);
        if ok {
          link := Serial(rates[i]);
          connected := true;
          var portsAtRate := PortsAt(changes, rates[i]);
          OneOrBoth(changes, rates[i]);
          if |portsAtRate| == 1 {
            consolePort := Some(portsAtRate[0]);
          } else {
            IdentifyConsolePort();
          }
          return None;
        }
      }
      connected := false;
      return Some(LinkLost(previousBaud, changes[0].rate));
    }

    // -------------------------------------------------------------------
    // The whole Apply
    // -------------------------------------------------------------------

    /** The UART rates an Apply changed, if its baud step succeeded. */
    static function ChangedBauds(target: Assertion, pre: Assertion, steps: seq<Status>): seq<BaudChange>
      requires |steps| == |APPLY_STEPS|
    {
      if !steps[StepIndex(Baud)].StepOk? then []
      else (if target.uart1 != pre.uart1 then [BaudChange(Uart1, target.uart1)] else [])
           + (if target.uart2 != pre.uart2 then [BaudChange(Uart2, target.uart2)] else [])
    }

    method ApplyReceiverConfig(target: Assertion) returns (r: Outcome)
      requires Valid()
      modifies `held, `openAt, `reopens, `flaky, `writes, `link, `consolePort, `stepsWarnedLastApply, `connected
      ensures Valid()
      ensures old(UbxAlive()) ==> UbxAlive()
      ensures r.NotConnected? <==> !old(connected)
      ensures old(connected && Answers()) ==>
        (r.Refused? <==> old(RefusalFor(target)).Some?) && (r.Refused? ==> Some(r.rule) == old(RefusalFor(target)))
      ensures old(connected && !Answers()) ==>
        r == if old(ConsoleKeepsUbx(target)) then ReadFailed([]) else Refused(UbxInLiveness)
      ensures r.NotConnected? || r.Refused? || r == ReadFailed([]) ==>
        held == old(held) && writes == old(writes) && stepsWarnedLastApply == old(stepsWarnedLastApply)
      ensures old(connected && Answers() && RefusalFor(target).None?) ==>
        EndsAs(target, old(held), old(stepsWarnedLastApply), old(writes), r)
      ensures r.LinkLost? ==>
        old(link).Serial? && r == LinkLost(old(link.baud), NewRate(old(consolePort), target, old(held)))
      ensures r.Applied? && StepFailed !in r.steps ==>
        SameLeaves(held, WriteEverything(target, old(held), |APPLY_STEPS|))
    {
      flaky := false;
      if !connected {
        return NotConnected;
      }
      if !ConsoleKeepsUbx(target) {
        return Refused(UbxInLiveness);
      }
      var preRead := ReadFullAssertion();
      if preRead.None? {
        return ReadFailed([]);
      }
      var refusal := Guards(target, preRead.value);
      if refusal.Some? {
        return Refused(refusal.value);
      }
      r := WriteAndConfirm(target, preRead.value);
      if r.Applied? && StepFailed !in r.steps {
        NoneFailed(target, old(held), old(stepsWarnedLastApply), old(writes), r.steps);
      }
    }

    /** With no failed step, the steps taken are as good as writing every one. */
    lemma NoneFailed(target: Assertion, before: Assertion, warnedBefore: set<Step>, writesBefore: seq<Step>,
                     steps: seq<Status>)
      requires StepsTaken(target, before, warnedBefore, writesBefore, steps) && StepFailed !in steps
      ensures SameLeaves(held, WriteEverything(target, before, |APPLY_STEPS|))
    {
      var changed: set<Step> :|
        ChangedSteps(changed, target, before) && InSequence(steps, changed + warnedBefore);
      assert forall k :: 0 <= k < |steps| ==> steps[k] in steps;
      IncrementalRefines(target, before, held, steps, changed, changed + warnedBefore);
    }

    /** What an Apply that no guard refused leaves behind. */
    ghost predicate EndsAs(target: Assertion, before: Assertion, warnedBefore: set<Step>, writesBefore: seq<Step>,
                            r: Outcome)
      reads this
    {
      match r
      case Applied(ok, readBack, diff, steps, stepWarnings) =>
        && Answers() && connected && readBack == held
        && diff == DiffOver(AllLeaves(), target, held) && ok == (diff == [])
        && StepsTaken(target, before, warnedBefore, writesBefore, steps)
        && WarnedAfter(warnedBefore, steps, stepWarnings, stepsWarnedLastApply)
      case ReadFailed(steps) =>
        StepsTaken(target, before, warnedBefore, writesBefore, steps) && steps[StepIndex(Baud)].StepFailed?
      case LinkLost(_, _) =>
        && flaky
        && exists steps: seq<Status> ::
             StepsTaken(target, before, warnedBefore, writesBefore, steps) && steps[StepIndex(Baud)].StepOk?
      case _ => false
    }

    /** The steps ran in order, as far as they were due, and the receiver holds what they wrote. */
    ghost predicate StepsTaken(target: Assertion, before: Assertion, warnedBefore: set<Step>, writesBefore: seq<Step>,
                               steps: seq<Status>)
      reads this
    {
      && |steps| == |APPLY_STEPS| && After(target, before, held, steps)
      && writes == writesBefore + Ran(steps)
      && exists changed: set<Step> ::
           ChangedSteps(changed, target, before) && InSequence(steps, changed + warnedBefore)
    }

    /** What a request that no rule refuses leaves alone: UBX input at the console port, and over Bluetooth its rate. */
    lemma Guarded(target: Assertion)
      requires Valid() && RefusalFor(target).None?
      ensures KeepsUbx(target, held, truePort) && (link.Bluetooth? ==> !ChangesConsoleBaud(target, held))
    {
      PortByPort(target);
      match truePort case Uart1 => case Uart2 => case Usb =>
    }

    method WriteAndConfirm(target: Assertion, pre: Assertion) returns (r: Outcome)
      requires Valid() && connected && !flaky && Answers() && pre == held && RefusalFor(target).None?
      modifies `held, `openAt, `reopens, `flaky, `writes, `link, `consolePort, `stepsWarnedLastApply, `connected
      ensures Valid()
      ensures old(UbxAlive()) ==> UbxAlive()
      ensures EndsAs(target, old(held), old(stepsWarnedLastApply), old(writes), r)
      ensures r.LinkLost? ==>
        old(link).Serial? && r == LinkLost(old(link.baud), NewRate(old(consolePort), target, old(held)))
    {
      Guarded(target);
      var steps, stepWarnings := WriteSteps(target, pre);
      r := Confirm(target, pre, steps, stepWarnings);
    }

    /** Write the steps whose leaves differ, or that warned last time; UBX input stays where no guard refused. */
    method WriteSteps(target: Assertion, pre: Assertion) returns (steps: seq<Status>, stepWarnings: set<Step>)
      requires Valid() && Answers() && pre == held && KeepsUbx(target, held, truePort)
      modifies `held, `writes, `stepsWarnedLastApply
      ensures held.NamesEveryPort() && (old(UbxAlive()) ==> UbxAlive())
      ensures StepsTaken(target, pre, old(stepsWarnedLastApply), old(writes), steps)
      ensures WarnedAfter(old(stepsWarnedLastApply), steps, stepWarnings, stepsWarnedLastApply)
    {
      var preDiff := DiffReceiverAssertions(target, pre);
      var changed := StepsOf(preDiff);
      StepsOfDiff(target, pre, preDiff, changed);
      steps, stepWarnings := RunSteps(target, changed);
      UbxSurvives(target, pre, held, steps, truePort);
    }

    /** The rate a lost link was last known to be changing to: the console port's, or the first changed one. */
    static function NewRate(port: Option<PortId>, target: Assertion, pre: Assertion): int {
      if port == Some(Uart1) || (port != Some(Uart2) && target.uart1 != pre.uart1) then target.uart1 else target.uart2
    }

    /** After the steps: keep the link, then read back and compare. */
    method Confirm(target: Assertion, pre: Assertion, steps: seq<Status>, stepWarnings: set<Step>) returns (r: Outcome)
      requires Valid() && connected && !flaky && openAt.Some?
      requires truePort.Usb? || openAt.value == RateOn(pre, truePort)
      requires |steps| == |APPLY_STEPS| && After(target, pre, held, steps)
      requires link.Bluetooth? ==> !ChangesConsoleBaud(target, pre)
      modifies `openAt, `reopens, `flaky, `link, `consolePort, `connected
      ensures Valid()
      ensures r.Applied? ==>
        && Answers() && connected
        && r == Applied(r.diff == [], held, DiffOver(AllLeaves(), target, held), steps, stepWarnings)
      ensures r.LinkLost? ==> flaky && steps[StepIndex(Baud)].StepOk?
      ensures r.LinkLost? ==>
        old(link).Serial? && r == LinkLost(old(link.baud), NewRate(old(consolePort), target, pre))
      ensures r.ReadFailed? ==> r.steps == steps && steps[StepIndex(Baud)].StepFailed?
      ensures r.Applied? || r.LinkLost? || r.ReadFailed?
    {
      BaudsAfter(target, pre, held, steps);
      var changes := ChangedBauds(target, pre, steps);
      if changes != [] {
        var lost := KeepConsoleLinkAfterBaudWrite(changes);
        if lost.Some? {
          return lost.value;
        }
      }
      var read := ReadFullAssertion();
      if read.None? {
        return ReadFailed(steps);
      }
      var diff := DiffReceiverAssertions(target, read.value);
      r := Applied(diff == [], read.value, diff, steps, stepWarnings);
    }

    /**
     Apply, then apply the same request again. Once the first has returned "ok" with no
     warning pending, the second is permitted, writes nothing and returns "ok";
     `between` is what had been written before it.
     */
    method ApplyTwice(target: Assertion)
      returns (first: Outcome, pending: set<Step>, second: Outcome, ghost between: seq<Step>)
      requires Valid() && UbxAlive()
      modifies `held, `openAt, `reopens, `flaky, `writes, `link, `consolePort, `stepsWarnedLastApply, `connected
      ensures Valid() && UbxAlive()
      ensures first.Applied? && first.ok && pending == {} ==>
        && second.Applied? && second.ok
        && (forall k :: 0 <= k < |second.steps| ==> second.steps[k] == StepSkipped)
        && writes == between && SameLeaves(second.readBack, first.readBack)
    {
      first := ApplyOnce(target);
      pending, second, between := stepsWarnedLastApply, first, writes;
      if first.Applied? && first.ok && pending == {} {
        second := ApplyAgain(target);
      }
    }

    /** An Apply that returns "ok" leaves a live receiver at the request. */
    method ApplyOnce(target: Assertion) returns (r: Outcome)
      requires Valid() && UbxAlive()
      modifies `held, `openAt, `reopens, `flaky, `writes, `link, `consolePort, `stepsWarnedLastApply, `connected
      ensures Valid() && UbxAlive()
      ensures r.Applied? && r.ok ==>
        && connected && Answers() && r.readBack == held && SameLeaves(target, held)
        && (target.tmodeMode.FixedMode? ==> hasPosition)
    {
      r := ApplyReceiverConfig(target);
      DiffIsEmpty(target, held);
    }

    /** Applying what a live receiver already holds, with no warning pending. */
    method ApplyAgain(target: Assertion) returns (r: Outcome)
      requires Valid() && UbxAlive() && connected && Answers() && stepsWarnedLastApply == {}
      requires SameLeaves(target, held) && (target.tmodeMode.FixedMode? ==> hasPosition)
      modifies `held, `openAt, `reopens, `flaky, `writes, `link, `consolePort, `stepsWarnedLastApply, `connected
      ensures Valid() && UbxAlive() && writes == old(writes)
      ensures r.Applied? && r.ok && SameLeaves(r.readBack, old(held))
      ensures forall k :: 0 <= k < |r.steps| ==> r.steps[k] == StepSkipped
    {
      HeldIsNotRefused(target);
      ghost var before, writesBefore := held, writes;
      r := ApplyReceiverConfig(target);
      QuietOutcome(target, before, writesBefore, r);
    }

    /** A request equal to what a live receiver holds passes every guard. */
    lemma HeldIsNotRefused(target: Assertion)
      requires Valid() && UbxAlive() && SameLeaves(target, held)
      requires target.tmodeMode.FixedMode? ==> hasPosition
      ensures RefusalFor(target).None?
    {
      forall p: PortId ensures Ubx in target.Port(p).ins <==> Ubx in held.Port(p).ins {
        assert ValueAt(target, PortIn(p, Ubx)) == ValueAt(held, PortIn(p, Ubx));
      }
      forall p: PortId | p in target.ports ensures target.ports[p] == target.Port(p) {
      }
      assert ValueAt(target, BaudUart1) == ValueAt(held, BaudUart1);
      assert ValueAt(target, BaudUart2) == ValueAt(held, BaudUart2);
      assert ValueAt(target, Tmode) == ValueAt(held, Tmode);
    }

    lemma QuietOutcome(target: Assertion, before: Assertion, writesBefore: seq<Step>, r: Outcome)
      requires SameLeaves(target, before) && EndsAs(target, before, {}, writesBefore, r)
      ensures r.Applied? && r.ok && SameLeaves(r.readBack, before)
      ensures writes == writesBefore && forall k :: 0 <= k < |r.steps| ==> r.steps[k] == StepSkipped
    {
      if r.Applied? {
        QuietSteps(target, before, writesBefore, r.steps);
        QuietDiff(target, before);
      } else if r.ReadFailed? {
        QuietSteps(target, before, writesBefore, r.steps);
      } else {
        var steps: seq<Status> :|
          StepsTaken(target, before, {}, writesBefore, steps) && steps[StepIndex(Baud)].StepOk?;
        QuietSteps(target, before, writesBefore, steps);
      }
    }

    lemma QuietDiff(target: Assertion, before: Assertion)
      requires SameLeaves(target, before) && SameLeaves(held, before)
      ensures DiffOver(AllLeaves(), target, held) == []
    {
      DiffIsEmpty(target, held);
    }

    /** Steps taken with nothing due were all skipped. */
    lemma QuietSteps(target: Assertion, before: Assertion, writesBefore: seq<Step>, steps: seq<Status>)
      requires SameLeaves(target, before) && StepsTaken(target, before, {}, writesBefore, steps)
      ensures SameLeaves(held, before) && writes == writesBefore
      ensures forall k :: 0 <= k < |steps| ==> steps[k] == StepSkipped
    {
      var changed: set<Step> :| ChangedSteps(changed, target, before) && InSequence(steps, changed + {});
      assert changed + {} == changed;
      NothingDue(target, before, held, steps, changed);
      NoneRan(steps);
    }

    /** Any number of Applies, each from a fresh connect or not: the console port keeps taking UBX. */
    method AnyApplies(targets: seq<Assertion>)
      requires Valid() && UbxAlive()
      modifies `held, `openAt, `reopens, `flaky, `writes, `link, `consolePort, `stepsWarnedLastApply, `connected
      ensures Valid() && UbxAlive()
    {
      for i := 0 to |targets|
        invariant Valid() && UbxAlive()
      {
        var reconnects: bool := *;
        if reconnects {
          var rate: int := *;
          Connect(rate);
        }
        var r := ApplyReceiverConfig(targets[i]);
      }
    }

    /** A new connection, at any rate the user picks. */
    method Connect(rate: int)
      modifies `openAt, `link, `consolePort, `connected
      ensures openAt.Some? ==> link.Serial? ==> openAt.value == link.baud
      ensures consolePort.Some? ==> consolePort.value == truePort
    {
      if link.Serial? {
        link := Serial(rate);
      }
      openAt := Some(rate);
      connected := Answers();
      IdentifyConsolePort();
    }
  }

  /** An Apply of what the receiver holds, with nothing pending, changes and runs nothing. */
  lemma NothingDue(target: Assertion, before: Assertion, after: Assertion, steps: seq<Status>,
                                      changed: set<Step>)
    requires SameLeaves(target, before) && ChangedSteps(changed, target, before)
    requires |steps| == |APPLY_STEPS| && InSequence(steps, changed) && After(target, before, after, steps)
    ensures forall k :: 0 <= k < |steps| ==> steps[k] == StepSkipped
    ensures SameLeaves(after, before)
  {
    assert forall s: Step :: s !in changed;
    forall leaf: Leaf ensures ValueAt(after, leaf) == ValueAt(before, leaf) {
      assert LeafAfter(StatusOf(steps, leaf), target, before, after, leaf);
    }
  }

  /** The steps a diff's entries belong to, by their paths. */
  function StepsOf(diff: seq<Entry>): set<Step> {
    set d <- diff | StepForDiffPath(Path(d.leaf)).Some? :: StepForDiffPath(Path(d.leaf)).value
  }

  lemma {:induction false} StepsOfDiff(target: Assertion, pre: Assertion, diff: seq<Entry>, changed: set<Step>)
    requires diff == DiffOver(AllLeaves(), target, pre) && changed == StepsOf(diff)
    ensures ChangedSteps(changed, target, pre)
  {
    DiffExactly(target, pre);
    forall leaf: Leaf ensures StepForDiffPath(Path(leaf)) == Some(StepOf(leaf)) {
      PathsHaveSteps(leaf);
    }
    forall s: Step
      ensures s in changed <==> exists leaf: Leaf :: StepOf(leaf) == s && ValueAt(target, leaf) != ValueAt(pre, leaf)
    {
      if s in changed {
        var d :| d in diff && StepOf(d.leaf) == s;
        assert Reports(d, target, pre);
      }
      if leaf: Leaf :| StepOf(leaf) == s && ValueAt(target, leaf) != ValueAt(pre, leaf) {
        var d := Entry(leaf, ValueAt(target, leaf), ValueAt(pre, leaf));
        EveryLeafOnce();
        assert d in diff;
      }
    }
  }

  /** If no guard refused, UBX input at `port` outlives the steps, however far they got. */
  lemma UbxSurvives(target: Assertion, before: Assertion, after: Assertion, steps: seq<Status>,
                                       port: PortId)
    requires After(target, before, after, steps)
    ensures KeepsUbx(target, before, port) && Ubx in before.Port(port).ins ==> Ubx in after.Port(port).ins
  {
    var leaf := PortIn(port, Ubx);
    assert LeafAfter(StatusOf(steps, leaf), target, before, after, leaf);
  }

  /** The rates after the steps: the request's if the baud step ran, the old ones if it was skipped. */
  lemma BaudsAfter(target: Assertion, before: Assertion, after: Assertion, steps: seq<Status>)
    requires |steps| == |APPLY_STEPS| && After(target, before, after, steps)
    ensures steps[StepIndex(Baud)].StepOk? ==> after.uart1 == target.uart1 && after.uart2 == target.uart2
    ensures steps[StepIndex(Baud)].StepSkipped? ==> after.uart1 == before.uart1 && after.uart2 == before.uart2
  {
    assert LeafAfter(StatusOf(steps, BaudUart1), target, before, after, BaudUart1);
    assert LeafAfter(StatusOf(steps, BaudUart2), target, before, after, BaudUart2);
  }

  function RateFor(changes: seq<BaudChange>, port: PortId): (rate: Option<int>)
    ensures rate.None? <==> forall c :: c in changes ==> c.port != port
    ensures rate.Some? ==> BaudChange(port, rate.value) in changes
  {
    if changes == [] then None
    else if changes[0].port == port then Some(changes[0].rate)
    else RateFor(changes[1..], port)
  }

  /** Of one or two changed ports, those at a rate. */
  lemma OneOrBoth(changes: seq<BaudChange>, rate: int)
    requires 1 <= |changes| <= 2
    ensures PortsAt(changes, rate) == (if changes[0].rate == rate then [changes[0].port] else [])
                                      + if |changes| == 2 && changes[1].rate == rate then [changes[1].port] else []
  {
    if |changes| == 2 {
      assert changes[1..][0] == changes[1] && changes[1..][1..] == [];
    } else {
      assert changes[1..] == [];
    }
  }

  /** The changed ports now at a rate. */
  function PortsAt(changes: seq<BaudChange>, rate: int): (ports: seq<PortId>)
    ensures forall c :: c in changes && c.rate == rate ==> c.port in ports
  {
    if changes == [] then []
    else (if changes[0].rate == rate then [changes[0].port] else []) + PortsAt(changes[1..], rate)
  }

  /** A step that ran is warned exactly if it warned this time; any other keeps its mark. */
  predicate WarnedAfter(before: set<Step>, steps: seq<Status>, stepWarnings: set<Step>, warned: set<Step>)
    requires |steps| <= |APPLY_STEPS|
  {
    forall k :: 0 <= k < |APPLY_STEPS| ==> WarnedAt(before, steps, stepWarnings, warned, APPLY_STEPS[k], k)
  }

  predicate WarnedAt(before: set<Step>, steps: seq<Status>, stepWarnings: set<Step>, warned: set<Step>,
                     step: Step, k: nat)
  {
    && (step in stepWarnings ==> k < |steps| && steps[k].StepOk?)
    && (step in warned <==> if k < |steps| && steps[k].StepOk? then step in stepWarnings else step in before)
  }

  lemma WarnedStep(before: set<Step>, steps: seq<Status>, stepWarnings: set<Step>, warned: set<Step>,
                                      status: Status, drained: bool)
    requires |steps| < |APPLY_STEPS| && WarnedAfter(before, steps, stepWarnings, warned)
    requires drained ==> status.StepOk?
    ensures var step := APPLY_STEPS[|steps|];
      WarnedAfter(before, steps + [status],
                  if drained then stepWarnings + {step} else stepWarnings,
                  if drained then warned + {step} else if status.StepOk? then warned - {step} else warned)
  {
    var step := APPLY_STEPS[|steps|];
    var stepWarnings' := if drained then stepWarnings + {step} else stepWarnings;
    var warned' := if drained then warned + {step} else if status.StepOk? then warned - {step} else warned;
    forall k | 0 <= k < |APPLY_STEPS|
      ensures WarnedAt(before, steps + [status], stepWarnings', warned', APPLY_STEPS[k], k)
    {
      assert WarnedAt(before, steps, stepWarnings, warned, APPLY_STEPS[k], k);
      StepsInOrder(k);
      StepsInOrder(|steps|);
    }
  }
}
