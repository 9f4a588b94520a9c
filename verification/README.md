# Flow engine spare pool and timeout policy

A Dafny model of two pieces of the flow-tracking engine of a network
inspection system, as declared in its private flow header:

- **The spare pool.** Recycled, unused or preallocated flows are kept on a
  stack (`flow_spare_stack`) together with a counter of spare flows
  (`flow_spare_cnt`, an `unsigned int`). `FlowSpareInit` empties both,
  `FlowSpareStore` pushes a flow and increments the counter, `FlowSpareGet`
  pops a flow and decrements the counter only when a flow came off (an empty
  stack yields NULL and leaves the counter alone), and `FlowSpareSize` reads
  the counter. The model (module `FlowSpare`) turns the pool into a value: the
  stack is a `seq<FlowId>` whose last element is the top, the counter is a
  32-bit unsigned number with explicit wrap-around, and a NULL result is
  `None`. It proves that the counter always equals the number of spare flows
  (modulo 2^32, so exactly while fewer than 2^32 flows are spare), that
  store and get undo each other, and that the pool is LIFO.
- **The timeout policy.** The protocol slots `FLOW_PROTO_DEFAULT` ..
  `FLOW_PROTO_SCTP`, numbered 0 to 4 with `FLOW_PROTO_MAX` = 5 slots
  (module `FlowProto`), and the normal and emergency timeouts, in seconds,
  for flows in the new, established and closed states (module
  `FlowTimeouts`). The timeout that applies is a pure lookup in a
  `FLOW_PROTO_MAX`-entry table from protocol, state and the global flags
  word; the emergency value is used exactly when the `FLOW_EMERGENCY` bit is
  set. The model proves that the emergency timeout is never longer than the
  normal one, and strictly shorter for new and established flows.

Where the header has no constant of its own, the table uses the default
constants: SCTP has no timeout constants at all, and TCP, UDP and ICMP have
no closed-state constants, so those entries take `FLOW_DEFAULT_*` (30/300/0
normal, 10/100/0 emergency). The start-up code that fills `flow_proto` is not
part of this model.

Both closed-state timeouts are 0, so for closed flows the emergency timeout
equals the normal one. The model proves "never longer" for every state and
"strictly shorter" only for new and established flows.

The stack of the source links flows through a field of the flow object, so a
flow can be on it at most once. The model's stack is a plain sequence; the
predicate `NoDuplicates` states that rule, and `FlowSpareStore` proves the
stack keeps it exactly when the stored flow was not already spare.

Files: `wrappers.dfy` (`Option`), `flow_proto.dfy`, `flow_timeouts.dfy`,
`flow_spare.dfy`.

## Model

| member | source | states |
|---|---|---|
| FlowProto.EnumValue | src/flow-private.h:59-68 | every protocol slot's enumerator value is below `FLOW_PROTO_MAX`, so it indexes `flow_proto` in range |
| FlowProto.FromEnumValue | src/flow-private.h:59-75 | an index names a protocol slot exactly when it is below `FLOW_PROTO_MAX` (the numbering from 0 is dense), and the slot it names has that index |
| FlowProto.EnumValueRoundTrip | src/flow-private.h:59-68 | decoding a slot's enumerator value gives back that slot |
| FlowProto.EnumValueInjective | src/flow-private.h:59-75 | two slots share an enumerator value (an entry of `flow_proto`) if and only if they are the same slot |
| FlowTimeouts.EmergencyTimeout | src/flow-private.h:39-57 | for every protocol and state the emergency timeout is at most the normal one, and strictly less for new and established flows |
| FlowTimeouts.FlowProtoTable | src/flow-private.h:39-75 | the table has exactly `FLOW_PROTO_MAX` entries, every entry's emergency values are no longer than its normal values, and each protocol's entry sits at its enumerator value |
| FlowTimeouts.FlowTimeout | src/flow-private.h:33-57 | the timeout read from the table is the emergency constant exactly when the `FLOW_EMERGENCY` flag is set, the normal constant otherwise, and never more than the normal constant |
| FlowTimeouts.OnlyEmergencyBitMatters | src/flow-private.h:33-36 | flag bits other than `FLOW_EMERGENCY` do not change the timeout |
| FlowTimeouts.EnteringEmergencyNeverLengthens | src/flow-private.h:33-57 | setting the emergency flag never lengthens any flow's timeout |
| FlowSpare.FlowSpareIncr | src/flow-private.h:105-106 | the counter goes up by one, wrapping to 0 from the largest `unsigned int` |
| FlowSpare.FlowSpareDecr | src/flow-private.h:107-108 | the counter goes down by one, wrapping from 0 to the largest `unsigned int` |
| FlowSpare.IncrDecrInverse | src/flow-private.h:105-108 | decrement undoes increment and increment undoes decrement, for every counter value |
| FlowSpare.FlowSpareInit | src/flow-private.h:80-83 | after initialisation the stack is empty, the counter is 0, and the two agree |
| FlowSpare.FlowSpareSize | src/flow-private.h:103-104 | on a consistent pool the size read is the number of spare flows modulo 2^32, and exactly that number below 2^32 |
| FlowSpare.FlowSpareStore | src/flow-private.h:98-101 | the stored flow is on top, the flows beneath it are unchanged, the count rises by exactly one below 2^32, counter and stack stay in agreement, and the stack stays free of duplicates if and only if it was so and the flow was not already spare |
| FlowSpare.FlowSpareGet | src/flow-private.h:90-96 | an empty stack yields NULL and an unchanged pool and counter; otherwise the most recently stored flow comes off, the rest of the stack is kept, the count drops by exactly one, counter and stack stay in agreement, and a stack without duplicates stays so and no longer holds the flow that came off |
| FlowSpare.StoreThenGet | src/flow-private.h:90-101 | storing a flow and then getting one returns that flow and restores stack and counter |
| FlowSpare.GetThenStore | src/flow-private.h:90-101 | storing back the flow a get returned restores the pool it was taken from |
| FlowSpare.StoreAllThenGetAllIsLifo | src/flow-private.h:90-101 | storing any sequence of flows and getting as many returns them in reverse order and leaves the pool as before |
| FlowSpare.RunPreservesConsistent | src/flow-private.h:80-108 | every sequence of gets and stores keeps the counter equal to the number of flows on the stack (modulo 2^32) |
| FlowSpare.RunPreservesNoDuplicates | src/flow-private.h:90-101 | a sequence of gets and stores that never stores a flow already spare keeps a duplicate-free stack duplicate-free |
| FlowSpare.SizeMatchesStackAfterInit | src/flow-private.h:80-112 | from `FlowSpareInit`, after any sequence of gets and stores, `FlowSpareSize` is the number of spare flows while it is below 2^32 |

## Left out

- Atomicity and lock-free behaviour of the spare counter and spare stack: only the sequential effect of each macro is modelled, as a function from pool to pool; the atomic and stack primitives are not part of this model.
- `FlowSpareDestroy`: teardown of the stack and counter, with no observable result to state.
- Internals of `Stack`, `FlowBucket`, `FlowConfig` and `FlowProto`: defined elsewhere; the free and state-transition callbacks in `FlowProto` are foreign code, so only the timeout part of a `flow_proto` entry is modelled.
- The flow hash table (`flow_hash`), lookup, eviction, the expiry comparison and the switching of emergency mode on and off: none of it is in the modelled header.
- `flow_memuse` and memcap enforcement: only the counter's declaration is present.
- The `FLOWBITS_STATS` block: disabled statistics plumbing.
- FlowSpare.FlowSpareStore: storing a flow that is already spare is accepted as a plain push. In the source the stack links through the flow itself, so such a store corrupts the list: later gets return the flow repeatedly and the counter no longer matches. The model does not represent that corruption. `StoreThenGet`, `StoreAllThenGetAllIsLifo` and `RunPreservesConsistent` describe the source only for runs that never store a flow already spare (`StoresOnlyNonSpare`); `FlowSpareStore` and `RunPreservesNoDuplicates` state that rule.
- FlowTimeouts.FlowProtoTable: the header gives no SCTP constants and no closed-state constants for TCP, UDP or ICMP. The values in those entries (the `FLOW_DEFAULT_*` constants) are an assumption about start-up code that is not part of this model. They are not stated by the header.
- FlowTimeouts.EmergencyTimeout: for SCTP, and for the closed state of TCP, UDP and ICMP, the "never longer" and "strictly shorter" results rest on that same assumed fallback to `FLOW_DEFAULT_*`.
- Flow identities are plain numbers standing for flow addresses; nothing about the flow objects themselves is modelled.
