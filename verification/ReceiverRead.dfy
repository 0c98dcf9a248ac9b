/** A full live read of the receiver, put together from the driver's three reads. */
module ReceiverRead {

  import opened ReceiverState

  /** The ports RTCM rates are read for; only three of them are ones the application writes. */
  datatype OutputPort = OnUart1 | OnUart2 | OnUsb | OnI2c | OnSpi

  /** Per row and port, how many messages an epoch; a missing entry is none. */
  type RtcmRates = map<RowId, map<OutputPort, nat>>

  datatype PortProtocols = PortProtocols(ins: map<PortId, seq<Protocol>>, outs: map<PortId, seq<Protocol>>)

  datatype Scalars = Scalars(
    uart1Baud: int,
    uart2Baud: int,
    measPeriodMs: int,
    dynModel: DynModel,
    tmodeMode: TmodeMode,
    constellations: seq<Constellation>,
    elevationMaskDeg: int,
    bdsB2Enabled: bool,
    spiEnabled: bool)

  function OutputOf(p: PortId): OutputPort {
    match p case Uart1 => OnUart1 case Uart2 => OnUart2 case Usb => OnUsb
  }

  function Rate(rtcm: RtcmRates, row: RowId, port: OutputPort): nat {
    if row in rtcm && port in rtcm[row] then rtcm[row][port] else 0
  }

  function Enabled(protocols: map<PortId, seq<Protocol>>, p: PortId): seq<Protocol> {
    if p in protocols then protocols[p] else []
  }

  function BuildReceiverAssertion(rtcm: RtcmRates, ports: PortProtocols, s: Scalars): Assertion {
    var matrix := map row | row in ROWS :: map p | p in PORTS :: Rate(rtcm, row, OutputOf(p)) > 0;
    var portSet := map p | p in PORTS :: PortProtocolSet(Enabled(ports.ins, p), Enabled(ports.outs, p));
    Assertion(s.uart1Baud, s.uart2Baud, s.measPeriodMs, s.constellations, portSet, s.dynModel, s.tmodeMode,
              s.elevationMaskDeg, s.bdsB2Enabled, s.spiEnabled, matrix)
  }

  /** A row is sent out of a port, at least once an epoch. */
  predicate Rated(rtcm: RtcmRates, row: RowId, port: OutputPort) {
    row in rtcm && port in rtcm[row] && rtcm[row][port] >= 1
  }

  /** The setting of the receiver a leaf stands for, as the driver read it. */
  function ReadAt(rtcm: RtcmRates, ports: PortProtocols, s: Scalars, leaf: Leaf): Value {
    match leaf
    case BaudUart1 => Number(s.uart1Baud)
    case BaudUart2 => Number(s.uart2Baud)
    case MeasPeriod => Number(s.measPeriodMs)
    case ConstellationOn(c) => Flag(c in s.constellations)
    case PortIn(p, proto) => Flag(p in ports.ins && proto in ports.ins[p])
    case PortOut(p, proto) => Flag(p in ports.outs && proto in ports.outs[p])
    case Dynamics => Dyn(s.dynModel)
    case Tmode => Mode(s.tmodeMode)
    case ElevationMask => Number(s.elevationMaskDeg)
    case BdsB2 => Flag(s.bdsB2Enabled)
    case Spi => Flag(s.spiEnabled)
    case RtcmCell(row, Uart1) => Flag(Rated(rtcm, row, OnUart1))
    case RtcmCell(row, Uart2) => Flag(Rated(rtcm, row, OnUart2))
    case RtcmCell(row, Usb) => Flag(Rated(rtcm, row, OnUsb))
  }

  /** Nothing read is lost or moved, and the result names every port. */
  lemma ReadLeaves(rtcm: RtcmRates, ports: PortProtocols, s: Scalars, leaf: Leaf)
    ensures var read := BuildReceiverAssertion(rtcm, ports, s);
      ValueAt(read, leaf) == ReadAt(rtcm, ports, s, leaf) && read.NamesEveryPort()
  {
    forall p: PortId
      ensures var read := BuildReceiverAssertion(rtcm, ports, s);
        p in read.ports && read.ports[p] == PortProtocolSet(Enabled(ports.ins, p), Enabled(ports.outs, p))
    {
      PortIsListed(p);
    }
    if leaf.RtcmCell? {
      ReadCell(rtcm, ports, s, leaf.row, leaf.port);
    }
  }

  lemma ReadCell(rtcm: RtcmRates, ports: PortProtocols, s: Scalars, row: RowId, port: PortId)
    ensures Cell(BuildReceiverAssertion(rtcm, ports, s).matrix, row, port) == Rated(rtcm, row, OutputOf(port))
  {
    var matrix := BuildReceiverAssertion(rtcm, ports, s).matrix;
    PortIsListed(port);
    RowIsListed(row);
    assert row in matrix && port in matrix[row];
    assert matrix[row][port] == (Rate(rtcm, row, OutputOf(port)) > 0);
  }

  /** Writing a live read back, over whatever the receiver has since come to hold, brings back exactly what was read. */
  lemma {:induction false} ReadWrittenBack(rtcm: RtcmRates, ports: PortProtocols, s: Scalars, held: Assertion)
    ensures var read := BuildReceiverAssertion(rtcm, ports, s);
      forall leaf: Leaf ::
        ValueAt(WriteEverything(read, held, |APPLY_STEPS|), leaf) == ReadAt(rtcm, ports, s, leaf)
  {
    var read := BuildReceiverAssertion(rtcm, ports, s);
    ReadLeaves(rtcm, ports, s, Dynamics);
    WriteEverythingReaches(read, held);
    forall leaf: Leaf
      ensures ValueAt(WriteEverything(read, held, |APPLY_STEPS|), leaf) == ReadAt(rtcm, ports, s, leaf)
    {
      ReadLeaves(rtcm, ports, s, leaf);
    }
  }
}
