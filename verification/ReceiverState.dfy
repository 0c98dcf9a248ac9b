/**
 The whole writable state of a receiver, its leaf-by-leaf diff, and the steps
 that write it.
 */
module ReceiverState {

  import opened Common

  datatype PortId = Uart1 | Uart2 | Usb
  datatype Protocol = Ubx | Nmea | Rtcm3x
  datatype Constellation = Gps | Glonass | Galileo | Beidou | Sbas | Qzss
  datatype TmodeMode = Disabled | SurveyIn | FixedMode
  datatype DynModel =
    | Stationary | Portable | Pedestrian | Automotive | Sea | Airborne1g | Airborne2g | Airborne4g
  datatype RowId =
    | R1005 | R4072_0 | R4072_1 | R1074 | R1077 | R1084 | R1087 | R1094 | R1097 | R1124 | R1127 | R1230

  const PORTS := [Uart1, Uart2, Usb]
  const PROTOCOLS := [Ubx, Nmea, Rtcm3x]
  const CONSTELLATIONS := [Gps, Glonass, Galileo, Beidou, Sbas, Qzss]
  const ROWS := [R1005, R4072_0, R4072_1, R1074, R1077, R1084, R1087, R1094, R1097, R1124, R1127, R1230]

  /** The protocols a port takes in and sends out; a list, read as a set. */
  datatype PortProtocolSet = PortProtocolSet(ins: seq<Protocol>, outs: seq<Protocol>)

  type Matrix = map<RowId, map<PortId, bool>>

  datatype Assertion = Assertion(
    uart1: int,
    uart2: int,
    measPeriodMs: int,
    constellations: seq<Constellation>,
    ports: map<PortId, PortProtocolSet>,
    dynModel: DynModel,
    tmodeMode: TmodeMode,
    elevationMaskDeg: int,
    bdsB2Enabled: bool,
    spiEnabled: bool,
    matrix: Matrix)
  {
    /** A port nothing is said about takes and sends nothing. */
    function Port(p: PortId): PortProtocolSet {
      if p in ports then ports[p] else PortProtocolSet([], [])
    }

    predicate NamesEveryPort() {
      forall p: PortId :: p in ports
    }
  }

  /** An absent cell is off. */
  function Cell(m: Matrix, row: RowId, port: PortId): bool {
    row in m && port in m[row] && m[row][port]
  }

  // ---------------------------------------------------------------------
  // Leaves
  // ---------------------------------------------------------------------

  datatype Leaf =
    | BaudUart1 | BaudUart2
    | MeasPeriod
    | ConstellationOn(c: Constellation)
    | PortIn(port: PortId, protocol: Protocol)
    | PortOut(port: PortId, protocol: Protocol)
    | Dynamics | Tmode
    | ElevationMask | BdsB2 | Spi
    | RtcmCell(row: RowId, port: PortId)

  datatype Value = Flag(on: bool) | Number(n: int) | Dyn(d: DynModel) | Mode(m: TmodeMode)

  function ValueAt(a: Assertion, leaf: Leaf): Value {
    match leaf
    case BaudUart1 => Number(a.uart1)
    case BaudUart2 => Number(a.uart2)
    case MeasPeriod => Number(a.measPeriodMs)
    case ConstellationOn(c) => Flag(c in a.constellations)
    case PortIn(p, proto) => Flag(proto in a.Port(p).ins)
    case PortOut(p, proto) => Flag(proto in a.Port(p).outs)
    case Dynamics => Dyn(a.dynModel)
    case Tmode => Mode(a.tmodeMode)
    case ElevationMask => Number(a.elevationMaskDeg)
    case BdsB2 => Flag(a.bdsB2Enabled)
    case Spi => Flag(a.spiEnabled)
    case RtcmCell(row, p) => Flag(Cell(a.matrix, row, p))
  }

  ghost predicate SameLeaves(a: Assertion, b: Assertion) {
    forall leaf: Leaf :: ValueAt(a, leaf) == ValueAt(b, leaf)
  }

  // ---------------------------------------------------------------------
  // The steps that write them
  // ---------------------------------------------------------------------

  datatype Step = MeasRate | Ports | Constellations | Optimisations | DynamicsStep | TmodeStep | RtcmMatrix | Baud

  const APPLY_STEPS := [MeasRate, Ports, Constellations, Optimisations, DynamicsStep, TmodeStep, RtcmMatrix, Baud]

  /** Where a step stands in the order of execution. */
  function StepIndex(s: Step): (i: nat)
    ensures i < |APPLY_STEPS| && APPLY_STEPS[i] == s
  {
    match s
    case MeasRate => 0
    case Ports => 1
    case Constellations => 2
    case Optimisations => 3
    case DynamicsStep => 4
    case TmodeStep => 5
    case RtcmMatrix => 6
    case Baud => 7
  }

  lemma StepsInOrder(i: nat)
    requires i < |APPLY_STEPS|
    ensures StepIndex(APPLY_STEPS[i]) == i
  {
  }

  function StepOf(leaf: Leaf): Step {
    match leaf
    case BaudUart1 => Baud
    case BaudUart2 => Baud
    case MeasPeriod => MeasRate
    case ConstellationOn(_) => Constellations
    case PortIn(_, _) => Ports
    case PortOut(_, _) => Ports
    case Dynamics => DynamicsStep
    case Tmode => TmodeStep
    case ElevationMask => Optimisations
    case BdsB2 => Optimisations
    case Spi => Optimisations
    case RtcmCell(_, _) => RtcmMatrix
  }

  /** The receiver after one step's driver call succeeds: the step's whole key set, written assertively. */
  function WriteStep(s: Step, target: Assertion, held: Assertion): Assertion {
    match s
    case MeasRate => held.(measPeriodMs := target.measPeriodMs)
    case Ports => held.(ports := held.ports + target.ports)
    case Constellations => held.(constellations := target.constellations)
    case Optimisations => held.(elevationMaskDeg := target.elevationMaskDeg,
                                bdsB2Enabled := target.bdsB2Enabled, spiEnabled := target.spiEnabled)
    case DynamicsStep => held.(dynModel := target.dynModel)
    case TmodeStep => held.(tmodeMode := target.tmodeMode)
    case RtcmMatrix => held.(matrix := DenseMatrix(target.matrix))
    case Baud => held.(uart1 := target.uart1, uart2 := target.uart2)
  }

  /** Every row and matrix port, absent cells off. */
  function DenseMatrix(m: Matrix): Matrix {
    map row | row in ROWS :: map port | port in PORTS :: Cell(m, row, port)
  }

  lemma DenseMatrixKeepsCells(m: Matrix, row: RowId, port: PortId)
    ensures Cell(DenseMatrix(m), row, port) == Cell(m, row, port)
  {
    assert row in ROWS by { RowIsListed(row); }
    assert port in PORTS by { PortIsListed(port); }
  }

  lemma RowIsListed(row: RowId)
    ensures RowIndex(row) < |ROWS| && ROWS[RowIndex(row)] == row
  {
  }

  lemma PortIsListed(port: PortId)
    ensures PortIndex(port) < |PORTS| && PORTS[PortIndex(port)] == port
  {
  }

  function RowIndex(row: RowId): nat {
    match row
    case R1005 => 0 case R4072_0 => 1 case R4072_1 => 2 case R1074 => 3 case R1077 => 4 case R1084 => 5
    case R1087 => 6 case R1094 => 7 case R1097 => 8 case R1124 => 9 case R1127 => 10 case R1230 => 11
  }

  function PortIndex(port: PortId): nat {
    match port case Uart1 => 0 case Uart2 => 1 case Usb => 2
  }

  function ProtocolIndex(p: Protocol): nat {
    match p case Ubx => 0 case Nmea => 1 case Rtcm3x => 2
  }

  function ConstellationIndex(c: Constellation): nat {
    match c case Gps => 0 case Glonass => 1 case Galileo => 2 case Beidou => 3 case Sbas => 4 case Qzss => 5
  }

  /** What writing `target` over `held` puts at a leaf: only the ports it names are touched. */
  function Written(target: Assertion, held: Assertion, leaf: Leaf): Value {
    if (leaf.PortIn? || leaf.PortOut?) && leaf.port !in target.ports then ValueAt(held, leaf)
    else ValueAt(target, leaf)
  }

  /** A step writes its own leaves and no other: every leaf belongs to exactly one step. */
  lemma WriteStepLeaves(s: Step, target: Assertion, held: Assertion, leaf: Leaf)
    ensures ValueAt(WriteStep(s, target, held), leaf)
         == if StepOf(leaf) == s then Written(target, held, leaf) else ValueAt(held, leaf)
  {
    if leaf.RtcmCell? {
      DenseMatrixKeepsCells(target.matrix, leaf.row, leaf.port);
    }
  }

  /** The simple form Apply refines: every step, in order. */
  function WriteEverything(target: Assertion, held: Assertion, steps: nat): Assertion
    requires steps <= |APPLY_STEPS|
  {
    if steps == 0 then held
    else WriteStep(APPLY_STEPS[steps - 1], target, WriteEverything(target, held, steps - 1))
  }

  lemma {:induction false} WriteEverythingLeaves(target: Assertion, held: Assertion, steps: nat, leaf: Leaf)
    requires steps <= |APPLY_STEPS|
    ensures ValueAt(WriteEverything(target, held, steps), leaf)
         == if StepIndex(StepOf(leaf)) < steps then Written(target, held, leaf) else ValueAt(held, leaf)
    decreases steps
  {
    if steps > 0 {
      WriteEverythingLeaves(target, held, steps - 1, leaf);
      WriteStepLeaves(APPLY_STEPS[steps - 1], target, WriteEverything(target, held, steps - 1), leaf);
      StepsInOrder(steps - 1);
    }
  }

  /**
   Writing everything leaves the receiver at the request exactly when every port
   the request doesn't name already took and sent nothing.
   */
  lemma {:induction false} WriteEverythingReaches(target: Assertion, held: Assertion)
    ensures SameLeaves(WriteEverything(target, held, |APPLY_STEPS|), target)
       <==> forall p: PortId :: p !in target.ports ==> held.Port(p).ins == [] == held.Port(p).outs
  {
    var all := WriteEverything(target, held, |APPLY_STEPS|);
    forall leaf: Leaf ensures ValueAt(all, leaf) == Written(target, held, leaf) {
      WriteEverythingLeaves(target, held, |APPLY_STEPS|, leaf);
    }
    if SameLeaves(all, target) {
      forall p: PortId | p !in target.ports ensures held.Port(p).ins == [] == held.Port(p).outs {
        forall q: Protocol ensures q !in held.Port(p).ins && q !in held.Port(p).outs {
          assert ValueAt(all, PortIn(p, q)) == ValueAt(target, PortIn(p, q));
          assert ValueAt(all, PortOut(p, q)) == ValueAt(target, PortOut(p, q));
        }
        EmptyWithoutMembers(held.Port(p).ins);
        EmptyWithoutMembers(held.Port(p).outs);
      }
    }
  }

  /** A receiver whose USB port takes UBX, and a request equal to what it holds but for saying nothing of any port. */
  function OnlyUsb(): Assertion {
    Assertion(38400, 38400, 1000, [], map[Usb := PortProtocolSet([Ubx], [])], Stationary, Disabled,
              10, false, false, map[])
  }

  /** Such a request isn't reached: writing it leaves UBX on, which the diff then reports as a difference. */
  lemma UnnamedPortStays()
    ensures var held := OnlyUsb();
      var target := held.(ports := map[]);
      var after := WriteEverything(target, held, |APPLY_STEPS|);
      && ValueAt(after, PortIn(Usb, Ubx)) == Flag(true) && ValueAt(target, PortIn(Usb, Ubx)) == Flag(false)
      && DiffOver(AllLeaves(), target, after) != []
  {
    var held := OnlyUsb();
    var target := held.(ports := map[]);
    var after := WriteEverything(target, held, |APPLY_STEPS|);
    WriteEverythingLeaves(target, held, |APPLY_STEPS|, PortIn(Usb, Ubx));
    DiffExactly(target, after);
  }

  lemma EmptyWithoutMembers(s: seq<Protocol>)
    ensures s == [] <==> forall q: Protocol :: q !in s
  {
    if s != [] {
      assert s[0] in s;
    }
  }

  // ---------------------------------------------------------------------
  // The diff
  // ---------------------------------------------------------------------

  /** One leaf at which two states differ. */
  datatype Entry = Entry(leaf: Leaf, expected: Value, actual: Value)

  function ConstellationLeaves(n: nat): (ls: seq<Leaf>)
    requires n <= 6
    ensures |ls| == n
  {
    seq(n, i requires 0 <= i < 6 => ConstellationOn(CONSTELLATIONS[i]))
  }

  /** Port by port, protocol by protocol, input before output. */
  function PortLeaves(n: nat): (ls: seq<Leaf>)
    requires n <= 18
    ensures |ls| == n
  {
    seq(n, i requires 0 <= i < 18 =>
      if i % 2 == 0 then PortIn(PORTS[i / 6], PROTOCOLS[i % 6 / 2]) else PortOut(PORTS[i / 6], PROTOCOLS[i % 6 / 2]))
  }

  function MatrixLeaves(n: nat): (ls: seq<Leaf>)
    requires n <= 36
    ensures |ls| == n
  {
    seq(n, i requires 0 <= i < 36 => RtcmCell(ROWS[i / 3], PORTS[i % 3]))
  }

  /** Every leaf, in the order the diff lists them. */
  function AllLeaves(): seq<Leaf> {
    [BaudUart1, BaudUart2, MeasPeriod] + ConstellationLeaves(6) + PortLeaves(18)
    + [Dynamics, Tmode, ElevationMask, BdsB2, Spi] + MatrixLeaves(36)
  }

  /** Where a leaf stands in `AllLeaves`. */
  function Rank(leaf: Leaf): (r: nat)
    ensures r < 68
  {
    match leaf
    case BaudUart1 => 0
    case BaudUart2 => 1
    case MeasPeriod => 2
    case ConstellationOn(c) => 3 + ConstellationIndex(c)
    case PortIn(p, q) => 9 + 6 * PortIndex(p) + 2 * ProtocolIndex(q)
    case PortOut(p, q) => 10 + 6 * PortIndex(p) + 2 * ProtocolIndex(q)
    case Dynamics => 27
    case Tmode => 28
    case ElevationMask => 29
    case BdsB2 => 30
    case Spi => 31
    case RtcmCell(row, p) => 32 + 3 * RowIndex(row) + PortIndex(p)
  }

  /** The list is a bijection: every leaf once. */
  lemma EveryLeafOnce()
    ensures |AllLeaves()| == 68
    ensures forall leaf: Leaf :: AllLeaves()[Rank(leaf)] == leaf
    ensures forall i :: 0 <= i < 68 ==> Rank(AllLeaves()[i]) == i
  {
    forall leaf: Leaf ensures AllLeaves()[Rank(leaf)] == leaf {
      LeafAtRank(leaf);
    }
    forall i | 0 <= i < 68 ensures Rank(AllLeaves()[i]) == i {
      RankOfLeafFor(i);
      LeafAtRank(LeafFor(i));
    }
  }

  lemma LeafAtRank(leaf: Leaf)
    ensures AllLeaves()[Rank(leaf)] == leaf
  {
    var scalars := [Dynamics, Tmode, ElevationMask, BdsB2, Spi];
    FivePartsAt([BaudUart1, BaudUart2, MeasPeriod], ConstellationLeaves(6), PortLeaves(18), scalars, MatrixLeaves(36));
    if leaf.PortIn? || leaf.PortOut? {
      PortIsListed(leaf.port);
      PortLeafAt(leaf.port, leaf.protocol);
    } else if leaf.RtcmCell? {
      CellAt(leaf.row, leaf.port);
    }
  }

  lemma FivePartsAt(a: seq<Leaf>, b: seq<Leaf>, c: seq<Leaf>, d: seq<Leaf>, e: seq<Leaf>)
    ensures forall k :: 0 <= k < |c| ==> (a + b + c + d + e)[|a| + |b| + k] == c[k]
    ensures forall k :: 0 <= k < |e| ==> (a + b + c + d + e)[|a| + |b| + |c| + |d| + k] == e[k]
  {
  }

  lemma PortLeafAt(port: PortId, protocol: Protocol)
    ensures var k := 6 * PortIndex(port) + 2 * ProtocolIndex(protocol);
      PortLeaves(18)[k] == PortIn(port, protocol) && PortLeaves(18)[k + 1] == PortOut(port, protocol)
  {
    PortIsListed(port);
    var k := 6 * PortIndex(port) + 2 * ProtocolIndex(protocol);
    assert k / 6 == PortIndex(port) && k % 6 / 2 == ProtocolIndex(protocol) && k % 2 == 0;
    assert (k + 1) / 6 == PortIndex(port) && (k + 1) % 6 / 2 == ProtocolIndex(protocol) && (k + 1) % 2 == 1;
  }

  lemma CellAt(row: RowId, port: PortId)
    ensures MatrixLeaves(36)[3 * RowIndex(row) + PortIndex(port)] == RtcmCell(row, port)
  {
    PortIsListed(port);
    RowIsListed(row);
    var k := 3 * RowIndex(row) + PortIndex(port);
    assert k / 3 == RowIndex(row) && k % 3 == PortIndex(port);
  }

  /** The leaf a rank belongs to. */
  function LeafFor(i: nat): Leaf
    requires i < 68
  {
    if i == 0 then BaudUart1 else if i == 1 then BaudUart2 else if i == 2 then MeasPeriod
    else if i < 9 then ConstellationOn(CONSTELLATIONS[i - 3])
    else if i < 27 then
      var k := i - 9;
      if k % 2 == 0 then PortIn(PORTS[k / 6], PROTOCOLS[k % 6 / 2]) else PortOut(PORTS[k / 6], PROTOCOLS[k % 6 / 2])
    else if i == 27 then Dynamics else if i == 28 then Tmode else if i == 29 then ElevationMask
    else if i == 30 then BdsB2 else if i == 31 then Spi
    else RtcmCell(ROWS[(i - 32) / 3], PORTS[(i - 32) % 3])
  }

  lemma RankOfLeafFor(i: nat)
    requires i < 68
    ensures Rank(LeafFor(i)) == i
  {
    if 9 <= i < 27 {
      PortIndices((i - 9) / 6);
      PortIndices((i - 9) % 6 / 2);
    } else if 32 <= i {
      RowIndices((i - 32) / 3);
      PortIndices((i - 32) % 3);
    } else if 3 <= i < 9 {
      ConstellationIndices(i - 3);
    }
  }

  lemma RowIndices(i: nat)
    requires i < 12
    ensures RowIndex(ROWS[i]) == i
  {
  }

  lemma ConstellationIndices(i: nat)
    requires i < 6
    ensures ConstellationIndex(CONSTELLATIONS[i]) == i
  {
  }

  lemma PortIndices(i: nat)
    requires i < 3
    ensures PortIndex(PORTS[i]) == i && ProtocolIndex(PROTOCOLS[i]) == i
  {
  }

  function DiffOver(leaves: seq<Leaf>, expected: Assertion, actual: Assertion): seq<Entry> {
    if leaves == [] then []
    else
      var leaf := leaves[|leaves| - 1];
      DiffOver(leaves[..|leaves| - 1], expected, actual) + DiffAt(leaf, expected, actual)
  }

  function DiffAt(leaf: Leaf, expected: Assertion, actual: Assertion): seq<Entry> {
    var e, a := ValueAt(expected, leaf), ValueAt(actual, leaf);
    if e == a then [] else [Entry(leaf, e, a)]
  }

  lemma {:induction false} DiffStep(leaves: seq<Leaf>, leaf: Leaf, expected: Assertion, actual: Assertion)
    ensures DiffOver(leaves + [leaf], expected, actual)
         == DiffOver(leaves, expected, actual) + DiffAt(leaf, expected, actual)
  {
    assert (leaves + [leaf])[..|leaves|] == leaves;
  }

  function Noted(diffs: seq<Entry>, leaf: Leaf, expected: Value, actual: Value): seq<Entry> {
    if expected == actual then diffs else diffs + [Entry(leaf, expected, actual)]
  }

  /** Every leaf-level difference, one entry each, listed by field. */
  method DiffReceiverAssertions(expected: Assertion, actual: Assertion) returns (diffs: seq<Entry>)
    ensures diffs == DiffOver(AllLeaves(), expected, actual)
  {
    ghost var s0, s1, s2, s3, s4 := LeavesInStages();
    diffs := DiffRates(s0, expected, actual);
    diffs := DiffConstellations(diffs, s0, s1, expected, actual);
    diffs := DiffPorts(diffs, s1, s2, expected, actual);
    diffs := DiffScalars(diffs, s2, s3, expected, actual);
    diffs := DiffMatrix(diffs, s3, s4, expected, actual);
  }

  /** The leaves listed after each group of fields. */
  lemma LeavesInStages() returns (s0: seq<Leaf>, s1: seq<Leaf>, s2: seq<Leaf>, s3: seq<Leaf>, s4: seq<Leaf>)
    ensures s0 == [BaudUart1, BaudUart2, MeasPeriod] && s1 == s0 + ConstellationLeaves(6)
    ensures s2 == s1 + PortLeaves(18) && s3 == s2 + [Dynamics, Tmode, ElevationMask, BdsB2, Spi]
    ensures s4 == s3 + MatrixLeaves(36) == AllLeaves()
  {
    s0 := [BaudUart1, BaudUart2, MeasPeriod];
    s1 := s0 + ConstellationLeaves(6);
    s2 := s1 + PortLeaves(18);
    s3 := s2 + [Dynamics, Tmode, ElevationMask, BdsB2, Spi];
    s4 := s3 + MatrixLeaves(36);
  }

  /** Noting one leaf extends the diff over one leaf. */
  lemma {:induction false} NotedStep(diffs: seq<Entry>, seen: seq<Leaf>, leaf: Leaf, seen': seq<Leaf>,
                                     expected: Assertion, actual: Assertion)
    requires diffs == DiffOver(seen, expected, actual) && seen' == seen + [leaf]
    ensures Noted(diffs, leaf, ValueAt(expected, leaf), ValueAt(actual, leaf)) == DiffOver(seen', expected, actual)
  {
    DiffStep(seen, leaf, expected, actual);
  }

  /** A list of three leaves, one at a time. */
  lemma ThreeLeaves(seen: seq<Leaf>, a: Leaf, b: Leaf, c: Leaf) returns (s1: seq<Leaf>, s2: seq<Leaf>, s3: seq<Leaf>)
    ensures s1 == seen + [a] && s2 == s1 + [b] && s3 == s2 + [c] == seen + [a, b, c]
    ensures seen == [] ==> s3 == [a, b, c]
  {
    s1 := seen + [a];
    s2 := s1 + [b];
    s3 := s2 + [c];
  }

  method DiffRates(ghost after: seq<Leaf>, expected: Assertion, actual: Assertion) returns (diffs: seq<Entry>)
    requires after == [BaudUart1, BaudUart2, MeasPeriod]
    ensures diffs == DiffOver(after, expected, actual)
  {
    ghost var s1, s2, s3 := ThreeLeaves([], BaudUart1, BaudUart2, MeasPeriod);
    NotedStep([], [], BaudUart1, s1, expected, actual);
    diffs := Noted([], BaudUart1, Number(expected.uart1), Number(actual.uart1));
    NotedStep(diffs, s1, BaudUart2, s2, expected, actual);
    diffs := Noted(diffs, BaudUart2, Number(expected.uart2), Number(actual.uart2));
    NotedStep(diffs, s2, MeasPeriod, s3, expected, actual);
    diffs := Noted(diffs, MeasPeriod, Number(expected.measPeriodMs), Number(actual.measPeriodMs));
  }

  lemma ConstellationLeavesStep(seen: seq<Leaf>, i: nat)
    requires i < 6
    ensures seen + ConstellationLeaves(i + 1) == seen + ConstellationLeaves(i) + [ConstellationOn(CONSTELLATIONS[i])]
  {
    assert ConstellationLeaves(i + 1) == ConstellationLeaves(i) + [ConstellationOn(CONSTELLATIONS[i])];
  }

  method DiffConstellations(before: seq<Entry>, ghost seen: seq<Leaf>, ghost after: seq<Leaf>,
                            expected: Assertion, actual: Assertion)
    returns (diffs: seq<Entry>)
    requires before == DiffOver(seen, expected, actual) && after == seen + ConstellationLeaves(6)
    ensures diffs == DiffOver(after, expected, actual)
  {
    diffs := before;
    ghost var listed := seen;
    assert seen + ConstellationLeaves(0) == seen;
    for i := 0 to |CONSTELLATIONS|
      invariant listed == seen + ConstellationLeaves(i)
      invariant diffs == DiffOver(listed, expected, actual)
    {
      ConstellationLeavesStep(seen, i);
      ghost var next := listed + [ConstellationOn(CONSTELLATIONS[i])];
      diffs := DiffConstellation(diffs, CONSTELLATIONS[i], listed, next, expected, actual);
      listed := next;
    }
  }

  method DiffConstellation(before: seq<Entry>, c: Constellation, ghost s0: seq<Leaf>, ghost s1: seq<Leaf>,
                           expected: Assertion, actual: Assertion)
    returns (diffs: seq<Entry>)
    requires before == DiffOver(s0, expected, actual) && s1 == s0 + [ConstellationOn(c)]
    ensures diffs == DiffOver(s1, expected, actual)
  {
    NotedStep(before, s0, ConstellationOn(c), s1, expected, actual);
    diffs := Noted(before, ConstellationOn(c), Flag(c in expected.constellations), Flag(c in actual.constellations));
  }

  /** A port's leaves, for its first n protocols. */
  function OnePort(port: PortId, n: nat): (ls: seq<Leaf>)
    requires n <= 3
  {
    if n == 0 then []
    else OnePort(port, n - 1) + [PortIn(port, PROTOCOLS[n - 1]), PortOut(port, PROTOCOLS[n - 1])]
  }

  lemma PortLeavesStep(p: nat)
    requires p < 3
    ensures PortLeaves(6 * (p + 1)) == PortLeaves(6 * p) + OnePort(PORTS[p], 3)
  {
    ProtocolLeaves(p, 0);
    ProtocolLeaves(p, 1);
    ProtocolLeaves(p, 2);
  }

  lemma ProtocolLeaves(p: nat, q: nat)
    requires p < 3 && q < 3
    ensures OnePort(PORTS[p], q + 1)
         == OnePort(PORTS[p], q) + [PortIn(PORTS[p], PROTOCOLS[q]), PortOut(PORTS[p], PROTOCOLS[q])]
    ensures PortLeaves(6 * p + 2 * q + 2)
         == PortLeaves(6 * p + 2 * q) + [PortIn(PORTS[p], PROTOCOLS[q]), PortOut(PORTS[p], PROTOCOLS[q])]
  {
    var n := 6 * p + 2 * q;
    assert n / 6 == p && n % 6 / 2 == q && (n + 1) / 6 == p && (n + 1) % 6 / 2 == q;
  }

  method DiffPorts(before: seq<Entry>, ghost seen: seq<Leaf>, ghost after: seq<Leaf>,
                   expected: Assertion, actual: Assertion)
    returns (diffs: seq<Entry>)
    requires before == DiffOver(seen, expected, actual) && after == seen + PortLeaves(18)
    ensures diffs == DiffOver(after, expected, actual)
  {
    diffs := before;
    assert seen + PortLeaves(0) == seen;
    for p := 0 to |PORTS|
      invariant diffs == DiffOver(seen + PortLeaves(6 * p), expected, actual)
    {
      diffs := DiffPortAt(diffs, p, PORTS[p], seen, expected, actual);
    }
  }

  method DiffPortAt(before: seq<Entry>, ghost p: nat, port: PortId, ghost seen: seq<Leaf>,
                    expected: Assertion, actual: Assertion)
    returns (diffs: seq<Entry>)
    requires p < 3 && port == PORTS[p] && before == DiffOver(seen + PortLeaves(6 * p), expected, actual)
    ensures diffs == DiffOver(seen + PortLeaves(6 * (p + 1)), expected, actual)
  {
    PortLeavesStep(p);
    Appended(seen, PortLeaves(6 * p), OnePort(port, 3), PortLeaves(6 * (p + 1)));
    diffs := DiffPort(before, port, seen + PortLeaves(6 * p), expected, actual);
  }

  method DiffPort(before: seq<Entry>, port: PortId, ghost seen: seq<Leaf>, expected: Assertion, actual: Assertion)
    returns (diffs: seq<Entry>)
    requires before == DiffOver(seen, expected, actual)
    ensures diffs == DiffOver(seen + OnePort(port, 3), expected, actual)
  {
    diffs := before;
    assert seen + OnePort(port, 0) == seen;
    for q := 0 to |PROTOCOLS|
      invariant diffs == DiffOver(seen + OnePort(port, q), expected, actual)
    {
      ghost var s0, s1, s2 := TwoMore(seen, port, q);
      diffs := DiffProtocol(diffs, port, PROTOCOLS[q], s0, s1, s2, expected, actual);
    }
  }

  lemma TwoMore(seen: seq<Leaf>, port: PortId, q: nat) returns (s0: seq<Leaf>, s1: seq<Leaf>, s2: seq<Leaf>)
    requires q < 3
    ensures s0 == seen + OnePort(port, q) && s2 == seen + OnePort(port, q + 1)
    ensures s1 == s0 + [PortIn(port, PROTOCOLS[q])] && s2 == s1 + [PortOut(port, PROTOCOLS[q])]
  {
    s0 := seen + OnePort(port, q);
    s1 := s0 + [PortIn(port, PROTOCOLS[q])];
    s2 := s1 + [PortOut(port, PROTOCOLS[q])];
  }

  method DiffProtocol(before: seq<Entry>, port: PortId, protocol: Protocol,
                      ghost s0: seq<Leaf>, ghost s1: seq<Leaf>, ghost s2: seq<Leaf>,
                      expected: Assertion, actual: Assertion)
    returns (diffs: seq<Entry>)
    requires before == DiffOver(s0, expected, actual)
    requires s1 == s0 + [PortIn(port, protocol)] && s2 == s1 + [PortOut(port, protocol)]
    ensures diffs == DiffOver(s2, expected, actual)
  {
    var expectedPort, actualPort := expected.Port(port), actual.Port(port);
    NotedStep(before, s0, PortIn(port, protocol), s1, expected, actual);
    diffs := Noted(before, PortIn(port, protocol),
                   Flag(protocol in expectedPort.ins), Flag(protocol in actualPort.ins));
    NotedStep(diffs, s1, PortOut(port, protocol), s2, expected, actual);
    diffs := Noted(diffs, PortOut(port, protocol),
                   Flag(protocol in expectedPort.outs), Flag(protocol in actualPort.outs));
  }

  method DiffScalars(before: seq<Entry>, ghost seen: seq<Leaf>, ghost after: seq<Leaf>,
                     expected: Assertion, actual: Assertion)
    returns (diffs: seq<Entry>)
    requires before == DiffOver(seen, expected, actual)
    requires after == seen + [Dynamics, Tmode, ElevationMask, BdsB2, Spi]
    ensures diffs == DiffOver(after, expected, actual)
  {
    ghost var s1, s2 := ScalarsInStages(seen);
    NotedStep(before, seen, Dynamics, s1, expected, actual);
    diffs := Noted(before, Dynamics, Dyn(expected.dynModel), Dyn(actual.dynModel));
    NotedStep(diffs, s1, Tmode, s2, expected, actual);
    diffs := Noted(diffs, Tmode, Mode(expected.tmodeMode), Mode(actual.tmodeMode));
    diffs := DiffOptimisations(diffs, s2, after, expected, actual);
  }

  lemma ScalarsInStages(seen: seq<Leaf>) returns (s1: seq<Leaf>, s2: seq<Leaf>)
    ensures s1 == seen + [Dynamics] && s2 == s1 + [Tmode]
    ensures s2 + [ElevationMask, BdsB2, Spi] == seen + [Dynamics, Tmode, ElevationMask, BdsB2, Spi]
  {
    s1 := seen + [Dynamics];
    s2 := s1 + [Tmode];
  }

  method DiffOptimisations(before: seq<Entry>, ghost seen: seq<Leaf>, ghost after: seq<Leaf>,
                           expected: Assertion, actual: Assertion)
    returns (diffs: seq<Entry>)
    requires before == DiffOver(seen, expected, actual) && after == seen + [ElevationMask, BdsB2, Spi]
    ensures diffs == DiffOver(after, expected, actual)
  {
    ghost var s1, s2, s3 := ThreeLeaves(seen, ElevationMask, BdsB2, Spi);
    NotedStep(before, seen, ElevationMask, s1, expected, actual);
    diffs := Noted(before, ElevationMask, Number(expected.elevationMaskDeg), Number(actual.elevationMaskDeg));
    NotedStep(diffs, s1, BdsB2, s2, expected, actual);
    diffs := Noted(diffs, BdsB2, Flag(expected.bdsB2Enabled), Flag(actual.bdsB2Enabled));
    NotedStep(diffs, s2, Spi, s3, expected, actual);
    diffs := Noted(diffs, Spi, Flag(expected.spiEnabled), Flag(actual.spiEnabled));
  }

  function RowLeaves(row: RowId, n: nat): (ls: seq<Leaf>)
    requires n <= 3
  {
    if n == 0 then [] else RowLeaves(row, n - 1) + [RtcmCell(row, PORTS[n - 1])]
  }

  lemma MatrixLeavesStep(r: nat)
    requires r < 12
    ensures MatrixLeaves(3 * (r + 1)) == MatrixLeaves(3 * r) + RowLeaves(ROWS[r], 3)
  {
    CellLeaf(r, 0);
    CellLeaf(r, 1);
    CellLeaf(r, 2);
  }

  lemma CellLeaf(r: nat, p: nat)
    requires r < 12 && p < 3
    ensures RowLeaves(ROWS[r], p + 1) == RowLeaves(ROWS[r], p) + [RtcmCell(ROWS[r], PORTS[p])]
    ensures MatrixLeaves(3 * r + p + 1) == MatrixLeaves(3 * r + p) + [RtcmCell(ROWS[r], PORTS[p])]
  {
    var n := 3 * r + p;
    assert n / 3 == r && n % 3 == p;
  }

  lemma Appended(seen: seq<Leaf>, a: seq<Leaf>, b: seq<Leaf>, c: seq<Leaf>)
    requires c == a + b
    ensures seen + c == seen + a + b
  {
  }

  method DiffMatrix(before: seq<Entry>, ghost seen: seq<Leaf>, ghost after: seq<Leaf>,
                    expected: Assertion, actual: Assertion)
    returns (diffs: seq<Entry>)
    requires before == DiffOver(seen, expected, actual) && after == seen + MatrixLeaves(36)
    ensures diffs == DiffOver(after, expected, actual)
  {
    diffs := before;
    assert seen + MatrixLeaves(0) == seen;
    for r := 0 to |ROWS|
      invariant diffs == DiffOver(seen + MatrixLeaves(3 * r), expected, actual)
    {
      diffs := DiffRowAt(diffs, r, ROWS[r], seen, expected, actual);
    }
  }

  method DiffRowAt(before: seq<Entry>, ghost r: nat, row: RowId, ghost seen: seq<Leaf>,
                   expected: Assertion, actual: Assertion)
    returns (diffs: seq<Entry>)
    requires r < 12 && row == ROWS[r] && before == DiffOver(seen + MatrixLeaves(3 * r), expected, actual)
    ensures diffs == DiffOver(seen + MatrixLeaves(3 * (r + 1)), expected, actual)
  {
    MatrixLeavesStep(r);
    Appended(seen, MatrixLeaves(3 * r), RowLeaves(row, 3), MatrixLeaves(3 * (r + 1)));
    diffs := DiffRow(before, row, seen + MatrixLeaves(3 * r), expected, actual);
  }

  method DiffRow(before: seq<Entry>, row: RowId, ghost seen: seq<Leaf>, expected: Assertion, actual: Assertion)
    returns (diffs: seq<Entry>)
    requires before == DiffOver(seen, expected, actual)
    ensures diffs == DiffOver(seen + RowLeaves(row, 3), expected, actual)
  {
    diffs := before;
    assert seen + RowLeaves(row, 0) == seen;
    for p := 0 to |PORTS|
      invariant diffs == DiffOver(seen + RowLeaves(row, p), expected, actual)
    {
      Appended(seen, RowLeaves(row, p), [RtcmCell(row, PORTS[p])], RowLeaves(row, p + 1));
      diffs := DiffCell(diffs, row, PORTS[p], seen + RowLeaves(row, p), seen + RowLeaves(row, p + 1), expected, actual);
    }
  }

  method DiffCell(before: seq<Entry>, row: RowId, port: PortId, ghost s0: seq<Leaf>, ghost s1: seq<Leaf>,
                  expected: Assertion, actual: Assertion)
    returns (diffs: seq<Entry>)
    requires before == DiffOver(s0, expected, actual) && s1 == s0 + [RtcmCell(row, port)]
    ensures diffs == DiffOver(s1, expected, actual)
  {
    NotedStep(before, s0, RtcmCell(row, port), s1, expected, actual);
    diffs := Noted(before, RtcmCell(row, port),
                   Flag(Cell(expected.matrix, row, port)), Flag(Cell(actual.matrix, row, port)));
  }

  /** The difference a diff entry reports is real. */
  predicate Reports(d: Entry, expected: Assertion, actual: Assertion) {
    d == Entry(d.leaf, ValueAt(expected, d.leaf), ValueAt(actual, d.leaf)) && d.expected != d.actual
  }

  /** `diffs` is the differing leaves among the first `n`, in order. */
  ghost predicate Lists(diffs: seq<Entry>, n: nat, expected: Assertion, actual: Assertion) {
    && (forall i :: 0 <= i < |diffs| ==> Reports(diffs[i], expected, actual) && Rank(diffs[i].leaf) < n)
    && (forall i, j :: 0 <= i < j < |diffs| ==> Rank(diffs[i].leaf) < Rank(diffs[j].leaf))
    && (forall leaf: Leaf :: Rank(leaf) < n && ValueAt(expected, leaf) != ValueAt(actual, leaf) ==>
          Entry(leaf, ValueAt(expected, leaf), ValueAt(actual, leaf)) in diffs)
  }

  lemma ListsStep(diffs: seq<Entry>, leaf: Leaf, n: nat, expected: Assertion, actual: Assertion)
    requires Lists(diffs, n, expected, actual) && Rank(leaf) == n
    requires forall other: Leaf :: Rank(other) == n ==> other == leaf
    ensures Lists(diffs + DiffAt(leaf, expected, actual), n + 1, expected, actual)
  {
    var e, a := ValueAt(expected, leaf), ValueAt(actual, leaf);
    if e != a {
      var longer := diffs + [Entry(leaf, e, a)];
      assert longer[|diffs|] == Entry(leaf, e, a);
      assert forall d :: d in diffs ==> d in longer;
    }
  }

  /** Each leaf stands at its rank. */
  ghost predicate ByRank(leaves: seq<Leaf>) {
    && (forall i :: 0 <= i < |leaves| ==> Rank(leaves[i]) == i)
    && (forall leaf: Leaf :: Rank(leaf) < |leaves| ==> leaves[Rank(leaf)] == leaf)
  }

  lemma {:induction false} DiffOverLists(leaves: seq<Leaf>, n: nat, expected: Assertion, actual: Assertion)
    requires ByRank(leaves) && n <= |leaves|
    ensures Lists(DiffOver(leaves[..n], expected, actual), n, expected, actual)
    decreases n
  {
    if n > 0 {
      DiffOverLists(leaves, n - 1, expected, actual);
      var leaf := leaves[n - 1];
      assert leaves[..n] == leaves[..n - 1] + [leaf];
      DiffStep(leaves[..n - 1], leaf, expected, actual);
      ListsStep(DiffOver(leaves[..n - 1], expected, actual), leaf, n - 1, expected, actual);
    }
  }

  lemma EmptyDiff(diffs: seq<Entry>, expected: Assertion, actual: Assertion)
    requires Lists(diffs, 68, expected, actual)
    ensures diffs == [] <==> SameLeaves(expected, actual)
  {
    if diffs != [] {
      assert Reports(diffs[0], expected, actual);
    }
  }

  lemma {:induction false} DiffOverExactly(leaves: seq<Leaf>, expected: Assertion, actual: Assertion)
    requires ByRank(leaves) && |leaves| == 68
    ensures var diffs := DiffOver(leaves, expected, actual);
      Lists(diffs, 68, expected, actual) && (diffs == [] <==> SameLeaves(expected, actual))
  {
    assert leaves[..68] == leaves;
    DiffOverLists(leaves, 68, expected, actual);
    EmptyDiff(DiffOver(leaves, expected, actual), expected, actual);
  }

  /**
   The diff is the differing leaves, each once, in a fixed order; it is empty
   exactly when the two states agree leaf by leaf.
   */
  lemma {:induction false} DiffExactly(expected: Assertion, actual: Assertion)
    ensures var diffs := DiffOver(AllLeaves(), expected, actual);
      Lists(diffs, 68, expected, actual) && (diffs == [] <==> SameLeaves(expected, actual))
  {
    EveryLeafOnce();
    DiffOverExactly(AllLeaves(), expected, actual);
  }

  lemma {:induction false} DiffIsEmpty(expected: Assertion, actual: Assertion)
    ensures DiffOver(AllLeaves(), expected, actual) == [] <==> SameLeaves(expected, actual)
  {
    DiffExactly(expected, actual);
  }

  // ---------------------------------------------------------------------
  // Paths
  // ---------------------------------------------------------------------

  function PortName(p: PortId): string {
    match p case Uart1 => "UART1" case Uart2 => "UART2" case Usb => "USB"
  }

  function ProtocolName(p: Protocol): string {
    match p case Ubx => "UBX" case Nmea => "NMEA" case Rtcm3x => "RTCM3X"
  }

  function ConstellationName(c: Constellation): string {
    match c
    case Gps => "gps" case Glonass => "glonass" case Galileo => "galileo"
    case Beidou => "beidou" case Sbas => "sbas" case Qzss => "qzss"
  }

  function RowName(r: RowId): string {
    match r
    case R1005 => "1005" case R4072_0 => "4072.0" case R4072_1 => "4072.1" case R1074 => "1074"
    case R1077 => "1077" case R1084 => "1084" case R1087 => "1087" case R1094 => "1094"
    case R1097 => "1097" case R1124 => "1124" case R1127 => "1127" case R1230 => "1230"
  }

  /** The path the diff reports a leaf under. */
  function Path(leaf: Leaf): string {
    match leaf
    case BaudUart1 => "baud.uart1"
    case BaudUart2 => "baud.uart2"
    case MeasPeriod => "meas_period_ms"
    case ConstellationOn(c) => "constellations." + ConstellationName(c)
    case PortIn(p, q) => "ports." + PortName(p) + ".in." + ProtocolName(q)
    case PortOut(p, q) => "ports." + PortName(p) + ".out." + ProtocolName(q)
    case Dynamics => "dyn_model"
    case Tmode => "tmode_mode"
    case ElevationMask => "elevation_mask_deg"
    case BdsB2 => "bds_b2_enabled"
    case Spi => "spi_enabled"
    case RtcmCell(row, p) => "rtcm." + RowName(row) + "." + PortName(p)
  }

  /** The step that owns a path, or None for a path no diff produces. */
  function StepForDiffPath(path: string): Option<Step> {
    if path == "meas_period_ms" then Some(MeasRate)
    else if "ports." <= path then Some(Ports)
    else if "constellations." <= path then Some(Constellations)
    else if path in ["elevation_mask_deg", "bds_b2_enabled", "spi_enabled"] then Some(Optimisations)
    else if path == "dyn_model" then Some(DynamicsStep)
    else if path == "tmode_mode" then Some(TmodeStep)
    else if "rtcm." <= path then Some(RtcmMatrix)
    else if "baud." <= path then Some(Baud)
    else None
  }

  /** Every path a diff can produce is owned by the step that writes its leaf. */
  lemma PathsHaveSteps(leaf: Leaf)
    ensures StepForDiffPath(Path(leaf)) == Some(StepOf(leaf))
  {
    var path := Path(leaf);
    assert path[0] == 'p' || path[0] == 'c' || path[0] == 'r' || StepForDiffPath(path) == Some(StepOf(leaf));
  }

  // ---------------------------------------------------------------------
  // Profiles
  // ---------------------------------------------------------------------

  /** What a profile asks for; None leaves the receiver's own value. Its matrix is always assertive. */
  datatype Profile = Profile(
    uart1: Option<int>,
    uart2: Option<int>,
    measPeriodMs: int,
    constellations: Option<seq<Constellation>>,
    ports: Option<map<PortId, PortProtocolSet>>,
    dynModel: Option<DynModel>,
    tmodeMode: Option<TmodeMode>,
    elevationMaskDeg: Option<int>,
    bdsB2Enabled: Option<bool>,
    spiEnabled: Option<bool>,
    matrix: Matrix)

  function Or<T>(wanted: Option<T>, live: T): T {
    if wanted.Some? then wanted.value else live
  }

  function MergeProfileIntoAssertion(profile: Profile, live: Assertion): Assertion {
    Assertion(
      Or(profile.uart1, live.uart1),
      Or(profile.uart2, live.uart2),
      profile.measPeriodMs,
      Or(profile.constellations, live.constellations),
      if profile.ports.Some? then live.ports + profile.ports.value else live.ports,
      Or(profile.dynModel, live.dynModel),
      Or(profile.tmodeMode, live.tmodeMode),
      Or(profile.elevationMaskDeg, live.elevationMaskDeg),
      Or(profile.bdsB2Enabled, live.bdsB2Enabled),
      Or(profile.spiEnabled, live.spiEnabled),
      DenseMatrix(profile.matrix))
  }

  /** A merge into a live read names every port, so a receiver written with it ends up equal to it. */
  lemma {:induction false} MergedRequestReaches(profile: Profile, live: Assertion, held: Assertion)
    requires live.NamesEveryPort()
    ensures var merged := MergeProfileIntoAssertion(profile, live);
      merged.NamesEveryPort() && SameLeaves(WriteEverything(merged, held, |APPLY_STEPS|), merged)
  {
    WriteEverythingReaches(MergeProfileIntoAssertion(profile, live), held);
  }

  /** A field's own value at one of its leaves, if the profile has the field. */
  function Given<T>(field: Option<T>, value: T -> Value): Option<Value> {
    if field.None? then None else Some(value(field.value))
  }

  /**
   What a profile asks for at a leaf, if anything: it always says the measurement
   period, and of every cell of the matrix whether it is on.
   */
  function Asked(profile: Profile, leaf: Leaf): Option<Value> {
    match leaf
    case BaudUart1 => Given(profile.uart1, n => Number(n))
    case BaudUart2 => Given(profile.uart2, n => Number(n))
    case MeasPeriod => Some(Number(profile.measPeriodMs))
    case ConstellationOn(c) => Given(profile.constellations, on => Flag(c in on))
    case PortIn(p, q) =>
      if profile.ports.None? || p !in profile.ports.value then None else Some(Flag(q in profile.ports.value[p].ins))
    case PortOut(p, q) =>
      if profile.ports.None? || p !in profile.ports.value then None else Some(Flag(q in profile.ports.value[p].outs))
    case Dynamics => Given(profile.dynModel, d => Dyn(d))
    case Tmode => Given(profile.tmodeMode, m => Mode(m))
    case ElevationMask => Given(profile.elevationMaskDeg, n => Number(n))
    case BdsB2 => Given(profile.bdsB2Enabled, on => Flag(on))
    case Spi => Given(profile.spiEnabled, on => Flag(on))
    case RtcmCell(row, p) =>
      Some(Flag(row in profile.matrix && p in profile.matrix[row] && profile.matrix[row][p]))
  }

  /** Leaf by leaf, the merge is what the profile asks for, and what the receiver holds where it asks for nothing. */
  lemma MergeLeaves(profile: Profile, live: Assertion, leaf: Leaf)
    ensures ValueAt(MergeProfileIntoAssertion(profile, live), leaf)
         == match Asked(profile, leaf) case Some(value) => value case None => ValueAt(live, leaf)
  {
    if leaf.RtcmCell? {
      DenseMatrixKeepsCells(profile.matrix, leaf.row, leaf.port);
    }
  }
}
