/**
 The spare pool: recycled, unused or preallocated flows kept on a stack
 (`flow_spare_stack`) next to a counter of how many there are
 (`flow_spare_cnt`). Getting a flow pops the stack and, when a flow came off,
 decrements the counter; storing a flow pushes it and increments the counter.

 Only the sequential effect of each operation is modelled: the atomic counter
 and the lock-free stack are a value `Pool`, and each operation maps a pool
 to a new pool. The counter is an `unsigned int` and wraps modulo 2^32.
 */
module FlowSpare {
  import opened Wrappers

  /** Identity of a flow object (the address of a `Flow`). */
  type FlowId = nat

  /** Number of values of a 32-bit `unsigned int`. */
  const UINT_MODULUS: nat := 0x1_0000_0000

  type Uint32 = x: nat | x < UINT_MODULUS

  /** The spare stack (its top is the LAST element) and the spare counter. */
  datatype Pool = Pool(stack: seq<FlowId>, spareCnt: Uint32)

  /** Outcome of a get: the pool afterwards and the flow popped, None for a
      NULL pointer. */
  datatype GetResult = GetResult(pool: Pool, flow: Option<FlowId>)

  /** The counter agrees with the stack: it holds the number of spare flows,
      reduced modulo 2^32 as an `unsigned int` holds it. */
  predicate Consistent(p: Pool) {
    p.spareCnt == |p.stack| % UINT_MODULUS
  }

  /** No flow is on the stack twice. The stack links flows through a field of
      the flow object itself, so a stack with a repeated flow cannot exist in
      memory: pushing a flow that is already spare corrupts the list. */
  predicate NoDuplicates(s: seq<FlowId>) {
    forall i, j | 0 <= i < j < |s| :: s[i] != s[j]
  }

  /** Atomic add of one to the spare counter, wrapping at 2^32. */
  function FlowSpareIncr(c: Uint32): (r: Uint32)
    ensures c < UINT_MODULUS - 1 ==> r == c + 1
    ensures c == UINT_MODULUS - 1 ==> r == 0
  {
    (c + 1) % UINT_MODULUS
  }

  /** Atomic subtract of one from the spare counter, wrapping below 0. */
  function FlowSpareDecr(c: Uint32): (r: Uint32)
    ensures c > 0 ==> r == c - 1
    ensures c == 0 ==> r == UINT_MODULUS - 1
  {
    (c + UINT_MODULUS - 1) % UINT_MODULUS
  }

  /** Decrement undoes increment and increment undoes decrement. */
  lemma IncrDecrInverse(c: Uint32)
    ensures FlowSpareDecr(FlowSpareIncr(c)) == c
    ensures FlowSpareIncr(FlowSpareDecr(c)) == c
  {
  }

  /** A counter that matches a stack still matches it after one more flow is
      counted on both sides. */
  lemma ConsistentSucc(n: nat, c: Uint32)
    ensures c == n % UINT_MODULUS ==> FlowSpareIncr(c) == (n + 1) % UINT_MODULUS
  {
  }

  /** A fresh pool: empty stack, counter at zero. */
  function FlowSpareInit(): (p: Pool)
    ensures p.stack == []
    ensures p.spareCnt == 0
    ensures Consistent(p)
  {
    Pool([], 0)
  }

  /** The number of spare flows the engine reads: the counter. For a
      consistent pool it is the length of the stack, modulo 2^32, and exactly
      the length while fewer than 2^32 flows are spare. */
  function FlowSpareSize(p: Pool): (n: Uint32)
    ensures Consistent(p) ==> n == |p.stack| % UINT_MODULUS
    ensures Consistent(p) && |p.stack| < UINT_MODULUS ==> n == |p.stack|
  {
    p.spareCnt
  }

  /** Push a flow on the spare stack and count it. The flows beneath it are
      unchanged, and a consistent pool stays consistent. The stack stays free
      of duplicates exactly when it was so before and the flow was not
      already spare. */
  function FlowSpareStore(p: Pool, f: FlowId): (q: Pool)
    ensures q.stack == p.stack + [f]
    ensures q.stack[|q.stack| - 1] == f
    ensures q.stack[..|p.stack|] == p.stack
    ensures Consistent(p) ==> Consistent(q)
    ensures Consistent(p) && |q.stack| < UINT_MODULUS ==> q.spareCnt == p.spareCnt + 1
    ensures NoDuplicates(q.stack) <==> NoDuplicates(p.stack) && f !in p.stack
  {
    ConsistentSucc(|p.stack|, p.spareCnt);
    Pool(p.stack + [f], FlowSpareIncr(p.spareCnt))
  }

  /** Pop a flow off the spare stack. On an empty stack the result is NULL and
      the pool, counter included, is unchanged. Otherwise the result is the
      most recently stored flow, it is removed, and the counter drops by one.
      Nothing is lost: the remaining stack plus the popped flow is the old
      stack. A consistent pool stays consistent, and a stack without
      duplicates stays so, no longer holding the flow that came off. */
  function FlowSpareGet(p: Pool): (r: GetResult)
    ensures p.stack == [] ==> r.flow == None && r.pool == p
    ensures p.stack != [] ==>
              && r.flow == Some(p.stack[|p.stack| - 1])
              && r.pool.stack + [r.flow.value] == p.stack
              && r.pool.spareCnt == FlowSpareDecr(p.spareCnt)
    ensures Consistent(p) && 0 < |p.stack| < UINT_MODULUS ==> r.pool.spareCnt + 1 == p.spareCnt
    ensures Consistent(p) ==> Consistent(r.pool)
    ensures NoDuplicates(p.stack) ==> NoDuplicates(r.pool.stack)
    ensures NoDuplicates(p.stack) && r.flow.Some? ==> r.flow.value !in r.pool.stack
  {
    if p.stack == [] then
      GetResult(p, None)
    else
      var n := |p.stack| - 1;
      ConsistentSucc(n, n % UINT_MODULUS);
      GetResult(Pool(p.stack[..n], FlowSpareDecr(p.spareCnt)), Some(p.stack[n]))
  }

  /** Round trip: storing a flow and getting one returns that flow and
      restores both the stack and the counter. */
  lemma StoreThenGet(p: Pool, f: FlowId)
    ensures FlowSpareGet(FlowSpareStore(p, f)) == GetResult(p, Some(f))
  {
  }

  /** The other round trip: a flow that was got and is stored back leaves the
      pool as it was. */
  lemma GetThenStore(p: Pool)
    requires p.stack != []
    ensures FlowSpareStore(FlowSpareGet(p).pool, FlowSpareGet(p).flow.value) == p
  {
  }

  /** Store a sequence of flows, first element first. */
  function StoreAll(p: Pool, fs: seq<FlowId>): (q: Pool)
    ensures q.stack == p.stack + fs
  {
    if fs == [] then p
    else FlowSpareStore(StoreAll(p, fs[..|fs| - 1]), fs[|fs| - 1])
  }

  /** Get `n` times, collecting what each get returned, first get first. */
  function GetN(p: Pool, n: nat): (r: (Pool, seq<Option<FlowId>>))
    ensures |r.1| == n
    decreases n
  {
    if n == 0 then (p, [])
    else
      var g := FlowSpareGet(p);
      var rest := GetN(g.pool, n - 1);
      (rest.0, [g.flow] + rest.1)
  }

  /** The flows of `fs` in reverse order, each as a non-NULL get result. */
  function ReversedSome(fs: seq<FlowId>): (r: seq<Option<FlowId>>)
    ensures |r| == |fs|
    ensures forall i | 0 <= i < |fs| :: r[i] == Some(fs[|fs| - 1 - i])
  {
    if fs == [] then []
    else [Some(fs[|fs| - 1])] + ReversedSome(fs[..|fs| - 1])
  }

  /** LIFO: storing a sequence of flows and then getting as many returns them
      in the reverse order of storing, and leaves the pool as it was. */
  lemma {:induction false} StoreAllThenGetAllIsLifo(p: Pool, fs: seq<FlowId>)
    ensures GetN(StoreAll(p, fs), |fs|) == (p, ReversedSome(fs))
  {
    if fs != [] {
      var init := fs[..|fs| - 1];
      var last := fs[|fs| - 1];
      StoreThenGet(StoreAll(p, init), last);
      StoreAllThenGetAllIsLifo(p, init);
    }
  }

  /** One operation on the spare pool. */
  datatype SpareOp = OpGet | OpStore(f: FlowId)

  /** The pool after one operation. */
  function Step(p: Pool, op: SpareOp): Pool {
    match op
    case OpGet => FlowSpareGet(p).pool
    case OpStore(f) => FlowSpareStore(p, f)
  }

  /** The pool after a sequence of operations, first operation first. */
  function Run(p: Pool, ops: seq<SpareOp>): Pool
    decreases |ops|
  {
    if ops == [] then p else Run(Step(p, ops[0]), ops[1..])
  }

  /** Invariant: from any pool whose counter matches its stack, every sequence
      of gets and stores leaves the counter equal to the number of flows on
      the stack (modulo 2^32). */
  lemma {:induction false} RunPreservesConsistent(p: Pool, ops: seq<SpareOp>)
    requires Consistent(p)
    ensures Consistent(Run(p, ops))
    decreases |ops|
  {
    if ops != [] {
      RunPreservesConsistent(Step(p, ops[0]), ops[1..]);
    }
  }

  /** Every store in `ops` pushes a flow that is not spare at that moment:
      the rule the stack's callers must keep. */
  predicate StoresOnlyNonSpare(p: Pool, ops: seq<SpareOp>)
    decreases |ops|
  {
    ops == [] ||
    ((ops[0].OpStore? ==> ops[0].f !in p.stack)
     && StoresOnlyNonSpare(Step(p, ops[0]), ops[1..]))
  }

  /** A run that never stores a flow already spare keeps the stack free of
      duplicates (a single store of a spare flow breaks it, see
      `FlowSpareStore`). */
  lemma {:induction false} RunPreservesNoDuplicates(p: Pool, ops: seq<SpareOp>)
    requires NoDuplicates(p.stack)
    ensures StoresOnlyNonSpare(p, ops) ==> NoDuplicates(Run(p, ops).stack)
    decreases |ops|
  {
    if ops != [] && StoresOnlyNonSpare(p, ops) {
      RunPreservesNoDuplicates(Step(p, ops[0]), ops[1..]);
    }
  }

  /** Starting from `FlowSpareInit`, the spare size equals the stack length
      after any sequence of operations that never holds 2^32 spare flows. */
  lemma SizeMatchesStackAfterInit(ops: seq<SpareOp>)
    requires |Run(FlowSpareInit(), ops).stack| < UINT_MODULUS
    ensures FlowSpareSize(Run(FlowSpareInit(), ops)) == |Run(FlowSpareInit(), ops).stack|
  {
    RunPreservesConsistent(FlowSpareInit(), ops);
  }
}
