/**
 Timeout policy of the flow engine. Each protocol slot has a timeout, in
 seconds, for each lifecycle state of a flow (new, established, closed), and a
 second, emergency set of timeouts that is used while the global flags carry
 `FLOW_EMERGENCY`: the engine then lacks spare flows or has reached its memory
 cap, and reclaims idle flows sooner.
 */
module FlowTimeouts {
  import opened FlowProto

  /** Lifecycle state of a flow, as far as the timeout policy is concerned. */
  datatype FlowState = StateNew | StateEstablished | StateClosed

  /** Global flag: the flow engine is in emergency mode. */
  const FLOW_EMERGENCY: bv32 := 0x01

  // Normal timeouts, in seconds.
  const FLOW_DEFAULT_NEW_TIMEOUT: nat := 30
  const FLOW_DEFAULT_EST_TIMEOUT: nat := 300
  const FLOW_DEFAULT_CLOSED_TIMEOUT: nat := 0
  const FLOW_IPPROTO_TCP_NEW_TIMEOUT: nat := 30
  const FLOW_IPPROTO_TCP_EST_TIMEOUT: nat := 300
  const FLOW_IPPROTO_UDP_NEW_TIMEOUT: nat := 30
  const FLOW_IPPROTO_UDP_EST_TIMEOUT: nat := 300
  const FLOW_IPPROTO_ICMP_NEW_TIMEOUT: nat := 30
  const FLOW_IPPROTO_ICMP_EST_TIMEOUT: nat := 300

  // Emergency timeouts, in seconds.
  const FLOW_DEFAULT_EMERG_NEW_TIMEOUT: nat := 10
  const FLOW_DEFAULT_EMERG_EST_TIMEOUT: nat := 100
  const FLOW_DEFAULT_EMERG_CLOSED_TIMEOUT: nat := 0
  const FLOW_IPPROTO_TCP_EMERG_NEW_TIMEOUT: nat := 10
  const FLOW_IPPROTO_TCP_EMERG_EST_TIMEOUT: nat := 100
  const FLOW_IPPROTO_UDP_EMERG_NEW_TIMEOUT: nat := 10
  const FLOW_IPPROTO_UDP_EMERG_EST_TIMEOUT: nat := 100
  const FLOW_IPPROTO_ICMP_EMERG_NEW_TIMEOUT: nat := 10
  const FLOW_IPPROTO_ICMP_EMERG_EST_TIMEOUT: nat := 100

  /** True when the emergency bit is set in the global flags word. */
  predicate InEmergency(flags: bv32) {
    flags & FLOW_EMERGENCY != 0
  }

  /** Normal timeout of a protocol slot in a state. A slot without a constant
      of its own (SCTP, and the closed state of TCP, UDP and ICMP) uses the
      default constant. */
  function NormalTimeout(p: FlowProtoId, s: FlowState): nat {
    match s
    case StateNew =>
      (match p
       case ProtoTcp => FLOW_IPPROTO_TCP_NEW_TIMEOUT
       case ProtoUdp => FLOW_IPPROTO_UDP_NEW_TIMEOUT
       case ProtoIcmp => FLOW_IPPROTO_ICMP_NEW_TIMEOUT
       case _ => FLOW_DEFAULT_NEW_TIMEOUT)
    case StateEstablished =>
      (match p
       case ProtoTcp => FLOW_IPPROTO_TCP_EST_TIMEOUT
       case ProtoUdp => FLOW_IPPROTO_UDP_EST_TIMEOUT
       case ProtoIcmp => FLOW_IPPROTO_ICMP_EST_TIMEOUT
       case _ => FLOW_DEFAULT_EST_TIMEOUT)
    case StateClosed => FLOW_DEFAULT_CLOSED_TIMEOUT
  }

  /** Emergency timeout of a protocol slot in a state, with the same fallback
      to the default constants. It is never longer than the normal timeout,
      and strictly shorter for new and established flows. */
  function EmergencyTimeout(p: FlowProtoId, s: FlowState): (secs: nat)
    ensures secs <= NormalTimeout(p, s)
    ensures s != StateClosed ==> secs < NormalTimeout(p, s)
  {
    match s
    case StateNew =>
      (match p
       case ProtoTcp => FLOW_IPPROTO_TCP_EMERG_NEW_TIMEOUT
       case ProtoUdp => FLOW_IPPROTO_UDP_EMERG_NEW_TIMEOUT
       case ProtoIcmp => FLOW_IPPROTO_ICMP_EMERG_NEW_TIMEOUT
       case _ => FLOW_DEFAULT_EMERG_NEW_TIMEOUT)
    case StateEstablished =>
      (match p
       case ProtoTcp => FLOW_IPPROTO_TCP_EMERG_EST_TIMEOUT
       case ProtoUdp => FLOW_IPPROTO_UDP_EMERG_EST_TIMEOUT
       case ProtoIcmp => FLOW_IPPROTO_ICMP_EMERG_EST_TIMEOUT
       case _ => FLOW_DEFAULT_EMERG_EST_TIMEOUT)
    case StateClosed => FLOW_DEFAULT_EMERG_CLOSED_TIMEOUT
  }

  /** The timeout part of one `flow_proto` entry. */
  datatype ProtoTimeouts = ProtoTimeouts(
    newTimeout: nat, estTimeout: nat, closedTimeout: nat,
    emergNewTimeout: nat, emergEstTimeout: nat, emergClosedTimeout: nat)
  {
    /** The emergency value of each state is at most its normal value. */
    predicate EmergencyNoLonger() {
      && emergNewTimeout <= newTimeout
      && emergEstTimeout <= estTimeout
      && emergClosedTimeout <= closedTimeout
    }

    /** The field of this entry that applies to a state and mode. */
    function Select(s: FlowState, emergency: bool): nat {
      match s
      case StateNew => if emergency then emergNewTimeout else newTimeout
      case StateEstablished => if emergency then emergEstTimeout else estTimeout
      case StateClosed => if emergency then emergClosedTimeout else closedTimeout
    }
  }

  /** The entry for one protocol slot, filled from the constants. */
  function EntryFor(p: FlowProtoId): ProtoTimeouts {
    ProtoTimeouts(
      NormalTimeout(p, StateNew), NormalTimeout(p, StateEstablished),
      NormalTimeout(p, StateClosed),
      EmergencyTimeout(p, StateNew), EmergencyTimeout(p, StateEstablished),
      EmergencyTimeout(p, StateClosed))
  }

  /** The timeout part of `flow_proto`: one entry per protocol slot, at the
      slot's enumerator value, each with emergency values no longer than the
      normal ones. */
  function FlowProtoTable(): (t: seq<ProtoTimeouts>)
    ensures |t| == FLOW_PROTO_MAX
    ensures forall i | 0 <= i < |t| :: t[i].EmergencyNoLonger()
    ensures forall p :: t[EnumValue(p)] == EntryFor(p)
  {
    [EntryFor(ProtoDefault), EntryFor(ProtoTcp), EntryFor(ProtoUdp),
     EntryFor(ProtoIcmp), EntryFor(ProtoSctp)]
  }

  /** The timeout the engine applies to a flow of protocol `p` in state `s`
      under the global flags `flags`, read from the `flow_proto` table. It is
      the emergency value exactly when the emergency bit is set, and it never
      exceeds the normal value. */
  function FlowTimeout(p: FlowProtoId, s: FlowState, flags: bv32): (secs: nat)
    ensures InEmergency(flags) ==> secs == EmergencyTimeout(p, s)
    ensures !InEmergency(flags) ==> secs == NormalTimeout(p, s)
    ensures secs <= NormalTimeout(p, s)
  {
    FlowProtoTable()[EnumValue(p)].Select(s, InEmergency(flags))
  }

  /** Only the emergency bit of the flags word selects the timeout. */
  lemma OnlyEmergencyBitMatters(p: FlowProtoId, s: FlowState, flags: bv32)
    ensures FlowTimeout(p, s, flags) == FlowTimeout(p, s, flags & FLOW_EMERGENCY)
  {
  }

  /** Entering emergency mode never lengthens a flow's timeout, whatever the
      other flags, protocol and state are. */
  lemma EnteringEmergencyNeverLengthens(p: FlowProtoId, s: FlowState, flags: bv32)
    ensures FlowTimeout(p, s, flags | FLOW_EMERGENCY) <= FlowTimeout(p, s, flags)
  {
  }
}
