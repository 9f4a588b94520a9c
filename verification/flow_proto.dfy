/**
 Protocol slots of the flow engine. Every tracked flow is mapped to one of a
 fixed number of protocol slots, and the per-protocol table `flow_proto` has
 one entry per slot. The slots are numbered densely from 0 and the count of
 slots is `FLOW_PROTO_MAX`, the enumerator that follows the last protocol.
 */
module FlowProto {
  import opened Wrappers

  /** The protocol slots, in declaration order. */
  datatype FlowProtoId = ProtoDefault | ProtoTcp | ProtoUdp | ProtoIcmp | ProtoSctp

  /** Number of protocol slots: the value of the sentinel enumerator. */
  const FLOW_PROTO_MAX: nat := 5

  /** The enumerator value of a protocol slot, i.e. its index in `flow_proto`. */
  function EnumValue(p: FlowProtoId): (i: nat)
    ensures i < FLOW_PROTO_MAX
  {
    match p
    case ProtoDefault => 0
    case ProtoTcp => 1
    case ProtoUdp => 2
    case ProtoIcmp => 3
    case ProtoSctp => 4
  }

  /** The protocol slot an index names, or None when the index is outside the
      table. */
  function FromEnumValue(i: nat): (r: Option<FlowProtoId>)
    ensures r.Some? <==> i < FLOW_PROTO_MAX
    ensures r.Some? ==> EnumValue(r.value) == i
  {
    if i == 0 then Some(ProtoDefault)
    else if i == 1 then Some(ProtoTcp)
    else if i == 2 then Some(ProtoUdp)
    else if i == 3 then Some(ProtoIcmp)
    else if i == 4 then Some(ProtoSctp)
    else None
  }

  /** Decoding an enumerator value gives back the slot it was taken from. */
  lemma EnumValueRoundTrip(p: FlowProtoId)
    ensures FromEnumValue(EnumValue(p)) == Some(p)
  {
  }

  /** Distinct slots have distinct enumerator values: no two protocols share
      an entry of `flow_proto`. */
  lemma EnumValueInjective(p: FlowProtoId, q: FlowProtoId)
    ensures EnumValue(p) == EnumValue(q) <==> p == q
  {
  }
}
