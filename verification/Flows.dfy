/** Flows, and what of them is exported. */
module Flows {
  import opened Bytes
  import opened Ipfix

  datatype Address = V4(octets: bytes) | V6(octets: bytes)

  datatype FlowKey = FlowKey(
    sourceIp: Address, destinationIp: Address, protocol: u8, sourcePort: u16, destinationPort: u16)

  datatype EndReason = IdleTimeout | ActiveTimeout | ForcedEnd | LackOfResources

  /** When a packet was captured, and on the monotonic clock. */
  datatype Seen = Seen(time: Time, instant: nat)

  datatype Flow = Flow(
    key: FlowKey, octetCount: u64, packetCount: u64, tcpFlags: bv16, start: Time, end: Time,
    firstSeen: nat, lastSeen: nat, endReason: Option<EndReason>)

  const TWO64: nat := 0x1_0000_0000_0000_0000

  function NewFlow(key: FlowKey, seen: Seen): Flow {
    Flow(key, 0, 0, 0, seen.time, seen.time, seen.instant, seen.instant, None)
  }

  function WrappingAdd(a: u64, b: u64): u64 {
    (a + b) % TWO64
  }

  /** The counters wrap. */
  function Update(f: Flow, size: u64, flags: bv16, seen: Seen): Flow {
    f.(octetCount := WrappingAdd(f.octetCount, size), packetCount := WrappingAdd(f.packetCount, 1),
       tcpFlags := f.tcpFlags | flags, end := seen.time, lastSeen := seen.instant)
  }

  function Ended(f: Flow, reason: EndReason): Flow {
    f.(endReason := Some(reason))
  }

  datatype FlowData = FlowData(
    sourceIp: Address, destinationIp: Address, protocol: u8, sourcePort: u16, destinationPort: u16,
    octetCount: u64, packetCount: u64, tcpFlags: u16, start: Time, end: Time, endReason: u8)

  function ReasonCode(reason: Option<EndReason>): u8 {
    match reason
    case None => 0
    case Some(IdleTimeout) => 1
    case Some(ActiveTimeout) => 2
    case Some(ForcedEnd) => 4
    case Some(LackOfResources) => 5
  }

  function ToFlowData(f: Flow): FlowData {
    FlowData(f.key.sourceIp, f.key.destinationIp, f.key.protocol, f.key.sourcePort, f.key.destinationPort,
             f.octetCount, f.packetCount, f.tcpFlags as int, f.start, f.end, ReasonCode(f.endReason))
  }

  /** The reason as exported, by RFC 5102's values of flowEndReason. */
  lemma ReasonExported(f: Flow)
    ensures var code := ToFlowData(f).endReason;
            && (code == 1 <==> f.endReason == Some(IdleTimeout)) && (code == 2 <==> f.endReason == Some(ActiveTimeout))
            && (code == 4 <==> f.endReason == Some(ForcedEnd)) && (code == 5 <==> f.endReason == Some(LackOfResources))
            && (code == 0 <==> f.endReason == None)
  {
    match f.endReason
    case None =>
    case Some(IdleTimeout) =>
    case Some(ActiveTimeout) =>
    case Some(ForcedEnd) =>
    case Some(LackOfResources) =>
  }
}
