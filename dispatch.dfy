/**
  The pipeline dispatcher of asterixformat.cxx: `ReadPacket`, `WritePacket`, `ProcessPacket` and
  `HeartbeatProcessing` each switch on a format identifier and either forward to the subformat that
  implements that format or answer `false` ("operation unsupported"), plus the status query and the
  two channel-reset hooks.

  The subformat functions themselves (CAsterixRawSubformat::ReadPacket and the like) are not part of
  this model. A forwarded call is described by a `Call` value, and what the subformat then answers is
  an abstract behaviour `subformats` given as a parameter: it stands for the subformats acting on
  the same format descriptor and device the dispatcher was handed.

  `ASSERT(0)` on the default branch is modelled as in a release build: the identifier falls through
  to the error log and `return false`. The `Unhandled` route marks exactly where a debug build would
  stop at that assertion.
 */
module Dispatch {
  import opened Wrappers
  import opened Registry

  /** The subformat classes the dispatcher forwards to. */
  datatype Subformat =
    | RawSubformat | PcapSubformat | TxtSubformat | KmlSubformat | TracksSubformat
    | FinalSubformat | XIDEFSubformat | HDLCSubformat | OutSubformat

  /** The four per-format operations. */
  datatype Operation = ReadOp | WriteOp | ProcessOp | HeartbeatOp

  /** One forwarded call: which subformat's function for which operation, and the Oradis mode argument. */
  datatype Call = Call(subformat: Subformat, op: Operation, oradis: bool)

  /**
    What a switch does with an identifier: forward, answer `false` from an explicit case
    (`Unsupported`), or reach `default:` / `ASSERT(0)` and log "Unsupported format type" (`Unhandled`).
   */
  datatype Route = Delegate(call: Call) | Unsupported | Unhandled

  /** The return value of a packet operation and the value left in its `bool &discard` argument. */
  datatype PacketResult = PacketResult(ok: bool, discard: bool)

  /** The subformats' packet functions: the call and the incoming `discard`, to the outcome. */
  type PacketBehaviour = (Call, bool) -> PacketResult

  /** The subformats' heartbeat functions. */
  type HeartbeatBehaviour = Call -> bool

  // ---------------------------------------------------------------------------------------------
  // Reference description of the formats, independent of the four switches.

  /** The subformat class that implements a format. */
  function SubformatOf(f: FormatId): Subformat
  {
    match f
    case ERaw | EOradisRaw => RawSubformat
    case EPcap | EOradisPcap => PcapSubformat
    case ETxt => TxtSubformat
    case EKml => KmlSubformat
    case ETracks => TracksSubformat
    case EFinal => FinalSubformat
    case EXIDEF => XIDEFSubformat
    case EHDLC => HDLCSubformat
    case EOut => OutSubformat
  }

  /** The Oradis variants reuse the Raw and Pcap subformats with the mode flag set. */
  predicate IsOradis(f: FormatId)
  {
    f == EOradisRaw || f == EOradisPcap
  }

  /** The call a format makes for an operation when it forwards at all. */
  function OwnCall(f: FormatId, op: Operation): Call
  {
    Call(SubformatOf(f), op, IsOradis(f))
  }

  /** The framing formats: the ones that read and decode input. */
  const FramingFormats: set<FormatId> := {ERaw, EPcap, EOradisRaw, EOradisPcap, EFinal, EHDLC}

  /** The formats with periodic housekeeping. */
  const HeartbeatFormats: set<FormatId> := FramingFormats + {ETracks}

  // ---------------------------------------------------------------------------------------------
  // The four switches.

  /** The switch of `ReadPacket`. */
  function ReadRoute(formatType: UInt32): (r: Route)
    ensures FromIndex(formatType).None? ==> r == Unhandled
    ensures FromIndex(formatType).Some? ==>
      var f := FromIndex(formatType).value;
      r == if f in FramingFormats then Delegate(OwnCall(f, ReadOp))
           else if f == EXIDEF then Unsupported
           else Unhandled
  {
    match FromIndex(formatType)
    case Some(ERaw) => Delegate(Call(RawSubformat, ReadOp, false))
    case Some(EPcap) => Delegate(Call(PcapSubformat, ReadOp, false))
    case Some(EOradisRaw) => Delegate(Call(RawSubformat, ReadOp, true))
    case Some(EOradisPcap) => Delegate(Call(PcapSubformat, ReadOp, true))
    case Some(EFinal) => Delegate(Call(FinalSubformat, ReadOp, false))
    case Some(EXIDEF) => Unsupported
    case Some(EHDLC) => Delegate(Call(HDLCSubformat, ReadOp, false))
    case _ => Unhandled
  }

  /** The switch of `WritePacket`: every format forwards to its own subformat. */
  function WriteRoute(formatType: UInt32): (r: Route)
    ensures FromIndex(formatType).None? ==> r == Unhandled
    ensures FromIndex(formatType).Some? ==> r == Delegate(OwnCall(FromIndex(formatType).value, WriteOp))
  {
    match FromIndex(formatType)
    case Some(ERaw) => Delegate(Call(RawSubformat, WriteOp, false))
    case Some(EPcap) => Delegate(Call(PcapSubformat, WriteOp, false))
    case Some(EOradisRaw) => Delegate(Call(RawSubformat, WriteOp, true))
    case Some(EOradisPcap) => Delegate(Call(PcapSubformat, WriteOp, true))
    case Some(ETxt) => Delegate(Call(TxtSubformat, WriteOp, false))
    case Some(EKml) => Delegate(Call(KmlSubformat, WriteOp, false))
    case Some(ETracks) => Delegate(Call(TracksSubformat, WriteOp, false))
    case Some(EFinal) => Delegate(Call(FinalSubformat, WriteOp, false))
    case Some(EXIDEF) => Delegate(Call(XIDEFSubformat, WriteOp, false))
    case Some(EHDLC) => Delegate(Call(HDLCSubformat, WriteOp, false))
    case Some(EOut) => Delegate(Call(OutSubformat, WriteOp, false))
    case None => Unhandled
  }

  /** The switch of `ProcessPacket`: the output-only formats have no decode phase. */
  function ProcessRoute(formatType: UInt32): (r: Route)
    ensures FromIndex(formatType).None? ==> r == Unhandled
    ensures FromIndex(formatType).Some? ==>
      var f := FromIndex(formatType).value;
      r == if f in FramingFormats then Delegate(OwnCall(f, ProcessOp)) else Unsupported
  {
    match FromIndex(formatType)
    case Some(ERaw) => Delegate(Call(RawSubformat, ProcessOp, false))
    case Some(EPcap) => Delegate(Call(PcapSubformat, ProcessOp, false))
    case Some(EOradisRaw) => Delegate(Call(RawSubformat, ProcessOp, true))
    case Some(EOradisPcap) => Delegate(Call(PcapSubformat, ProcessOp, true))
    case Some(ETxt) => Unsupported
    case Some(EKml) => Unsupported
    case Some(ETracks) => Unsupported
    case Some(EFinal) => Delegate(Call(FinalSubformat, ProcessOp, false))
    case Some(EXIDEF) => Unsupported
    case Some(EHDLC) => Delegate(Call(HDLCSubformat, ProcessOp, false))
    case Some(EOut) => Unsupported
    case None => Unhandled
  }

  /** The switch of `HeartbeatProcessing`. */
  function HeartbeatRoute(formatType: UInt32): (r: Route)
    ensures FromIndex(formatType).None? ==> r == Unhandled
    ensures FromIndex(formatType).Some? ==>
      var f := FromIndex(formatType).value;
      r == if f in HeartbeatFormats then Delegate(OwnCall(f, HeartbeatOp)) else Unsupported
  {
    match FromIndex(formatType)
    case Some(ERaw) => Delegate(Call(RawSubformat, HeartbeatOp, false))
    case Some(EPcap) => Delegate(Call(PcapSubformat, HeartbeatOp, false))
    case Some(EOradisRaw) => Delegate(Call(RawSubformat, HeartbeatOp, true))
    case Some(EOradisPcap) => Delegate(Call(PcapSubformat, HeartbeatOp, true))
    case Some(ETxt) => Unsupported
    case Some(EKml) => Unsupported
    case Some(ETracks) => Delegate(Call(TracksSubformat, HeartbeatOp, false))
    case Some(EFinal) => Delegate(Call(FinalSubformat, HeartbeatOp, false))
    case Some(EXIDEF) => Unsupported
    case Some(EHDLC) => Delegate(Call(HDLCSubformat, HeartbeatOp, false))
    case Some(EOut) => Unsupported
    case None => Unhandled
  }

  /** The switch used for an operation. */
  function RouteOf(op: Operation, formatType: UInt32): Route
  {
    match op
    case ReadOp => ReadRoute(formatType)
    case WriteOp => WriteRoute(formatType)
    case ProcessOp => ProcessRoute(formatType)
    case HeartbeatOp => HeartbeatRoute(formatType)
  }

  // ---------------------------------------------------------------------------------------------
  // The four entry points.

  /** `ReadPacket`: forwards with the caller's `discard`; otherwise false with `discard` untouched. */
  function ReadPacket(subformats: PacketBehaviour, formatType: UInt32, discard: bool): (r: PacketResult)
    ensures r.ok ==> FromIndex(formatType).Some? && FromIndex(formatType).value in FramingFormats
    ensures FromIndex(formatType).Some? && FromIndex(formatType).value in FramingFormats ==>
      r == subformats(OwnCall(FromIndex(formatType).value, ReadOp), discard)
    ensures !(FromIndex(formatType).Some? && FromIndex(formatType).value in FramingFormats) ==>
      r == PacketResult(false, discard)
  {
    match ReadRoute(formatType)
    case Delegate(call) => subformats(call, discard)
    case _ => PacketResult(false, discard)
  }

  /** `WritePacket`: every enumerated format forwards; only an identifier out of range answers false. */
  function WritePacket(subformats: PacketBehaviour, formatType: UInt32, discard: bool): (r: PacketResult)
    ensures formatType < TotalFormats ==> r == subformats(OwnCall(FromIndex(formatType).value, WriteOp), discard)
    ensures formatType >= TotalFormats ==> r == PacketResult(false, discard)
  {
    match WriteRoute(formatType)
    case Delegate(call) => subformats(call, discard)
    case _ => PacketResult(false, discard)
  }

  /**
    `ProcessPacket`: sets `discard` to false on entry, then forwards that false to the framing
    formats' decoders; every other identifier answers false and leaves `discard` false. The
    incoming value, `incomingDiscard`, is never read.
   */
  function ProcessPacket(subformats: PacketBehaviour, formatType: UInt32, incomingDiscard: bool): (r: PacketResult)
    ensures r.ok ==> FromIndex(formatType).Some? && FromIndex(formatType).value in FramingFormats
    ensures FromIndex(formatType).Some? && FromIndex(formatType).value in FramingFormats ==>
      r == subformats(OwnCall(FromIndex(formatType).value, ProcessOp), false)
    ensures !(FromIndex(formatType).Some? && FromIndex(formatType).value in FramingFormats) ==>
      r == PacketResult(false, false)
  {
    var discard := false;
    match ProcessRoute(formatType)
    case Delegate(call) => subformats(call, discard)
    case _ => PacketResult(false, discard)
  }

  /** `HeartbeatProcessing`: forwards for the framing formats and Tracks, answers false otherwise. */
  function HeartbeatProcessing(heartbeats: HeartbeatBehaviour, formatType: UInt32): (ok: bool)
    ensures ok ==> FromIndex(formatType).Some? && FromIndex(formatType).value in HeartbeatFormats
    ensures FromIndex(formatType).Some? && FromIndex(formatType).value in HeartbeatFormats ==>
      ok == heartbeats(OwnCall(FromIndex(formatType).value, HeartbeatOp))
  {
    match HeartbeatRoute(formatType)
    case Delegate(call) => heartbeats(call)
    case _ => false
  }

  // ---------------------------------------------------------------------------------------------
  // Properties of the dispatch tables.

  /** Whenever a switch forwards, it forwards to the format's own subformat, with the Oradis flag set exactly for the Oradis formats. */
  lemma DelegatesToOwnSubformat(op: Operation, f: FormatId)
    ensures RouteOf(op, Index(f)).Delegate? ==> RouteOf(op, Index(f)).call == OwnCall(f, op)
    ensures RouteOf(op, Index(f)).Delegate? ==> RouteOf(op, Index(f)).call.oradis == IsOradis(f)
  {
    IndexRoundTrip(f);
  }

  /** In all four operations the Oradis variants forward exactly as Raw and Pcap do, plus the `true` mode argument. */
  lemma OradisForwarding(op: Operation)
    ensures RouteOf(op, Index(ERaw)).Delegate? && RouteOf(op, Index(EPcap)).Delegate?
    ensures RouteOf(op, Index(EOradisRaw)) == Delegate(RouteOf(op, Index(ERaw)).call.(oradis := true))
    ensures RouteOf(op, Index(EOradisPcap)) == Delegate(RouteOf(op, Index(EPcap)).call.(oradis := true))
    ensures !RouteOf(op, Index(ERaw)).call.oradis && !RouteOf(op, Index(EPcap)).call.oradis
  {
  }

  /** An identifier outside the enumeration reaches the `ASSERT(0)` default in every switch. */
  lemma OutOfRangeIsUnhandled(op: Operation, formatType: UInt32)
    requires formatType >= TotalFormats
    ensures RouteOf(op, formatType) == Unhandled
  {
  }

  /** Only `ReadPacket` sends enumerated identifiers to its default branch: Txt, Kml, Tracks and Out have no case there. */
  lemma UnhandledEnumerated(op: Operation, f: FormatId)
    ensures RouteOf(op, Index(f)) == Unhandled <==> op == ReadOp && f in {ETxt, EKml, ETracks, EOut}
  {
    IndexRoundTrip(f);
  }

  /** Reading forwards exactly for the formats that decode, so a read that succeeds is followed by a decode that is forwarded too. */
  lemma ReadAndProcessAgree(formatType: UInt32)
    ensures ReadRoute(formatType).Delegate? <==> ProcessRoute(formatType).Delegate?
    ensures ReadRoute(formatType).Delegate? ==>
      ProcessRoute(formatType).call == ReadRoute(formatType).call.(op := ProcessOp)
  {
  }

  /** `ProcessPacket` never depends on the `discard` value it was handed. */
  lemma ProcessPacketIgnoresIncomingDiscard(subformats: PacketBehaviour, formatType: UInt32, d1: bool, d2: bool)
    ensures ProcessPacket(subformats, formatType, d1) == ProcessPacket(subformats, formatType, d2)
  {
  }

  // ---------------------------------------------------------------------------------------------
  // Status query and channel-reset hooks.

  /** The one capability of a device this layer uses. */
  datatype Device = Device(isOpened: bool)

  /** `STS_NO_DATA`, or the 0 that `GetStatus` returns otherwise. */
  datatype Status = NoData | StatusOk

  /** `GetStatus`: "no data" exactly when the device is not open, whatever the format and query. */
  function GetStatus(device: Device, formatType: UInt32, query: int): (s: Status)
    ensures s == NoData <==> !device.isOpened
    ensures s == StatusOk <==> device.isOpened
  {
    if !device.isOpened then NoData else StatusOk
  }

  lemma StatusIgnoresFormatAndQuery(device: Device, f1: UInt32, q1: int, f2: UInt32, q2: int)
    ensures GetStatus(device, f1, q1) == GetStatus(device, f2, q2)
  {
  }

  /** `OnResetInputChannel`: the core takes no action on an input reset. */
  function OnResetInputChannel<D>(formatDescriptor: D): (handled: bool)
    ensures !handled
  {
    false
  }

  /** `OnResetOutputChannel`: an output reset is acknowledged. */
  function OnResetOutputChannel<D>(channel: UInt32, formatDescriptor: D): (acknowledged: bool)
    ensures acknowledged
  {
    true
  }
}
