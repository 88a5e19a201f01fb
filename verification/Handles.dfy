/**
  Handles over all allocation histories.  The arena seen from outside is a pool: a generation per slot
  and the list of free slots.  A handle stays good until its slot is freed and is refused ever after,
  even when the slot is in use again, as long as the slot is not freed 2^32 times.
 */
module Handles {
  import opened Types

  /** A slot's generation is a u32 and wraps. */
  const GENERATIONS: nat := 0x1_0000_0000

  datatype OrderId = OrderId(index: nat, generation: nat)

  datatype Pool = Pool(generations: seq<nat>, free: seq<nat>)

  datatype PoolOp = AllocSlot | FreeSlot(index: nat)

  predicate InUse(p: Pool, i: nat) {
    i < |p.generations| && i !in p.free
  }

  /** Allocation takes the head of the free list; freeing a slot in use bumps its generation. */
  function Apply(p: Pool, op: PoolOp): Pool {
    match op
    case AllocSlot =>
      if p.free == [] then p else p.(free := p.free[1..])
    case FreeSlot(i) =>
      if InUse(p, i)
      then Pool(p.generations[i := (p.generations[i] + 1) % GENERATIONS], [i] + p.free)
      else p
  }

  function ApplyAll(p: Pool, ops: seq<PoolOp>): Pool
    decreases |ops|
  {
    if ops == [] then p else ApplyAll(Apply(p, ops[0]), ops[1..])
  }

  /** The slot a handle names, if it is current and in use. */
  function Resolve(p: Pool, id: OrderId): Option<nat> {
    if InUse(p, id.index) && p.generations[id.index] == id.generation then Some(id.index) else None
  }

  /** How often a history frees slot `i`. */
  function Frees(p: Pool, ops: seq<PoolOp>, i: nat): nat
    decreases |ops|
  {
    if ops == [] then 0
    else (if ops[0] == FreeSlot(i) && InUse(p, i) then 1 else 0) + Frees(Apply(p, ops[0]), ops[1..], i)
  }

  ghost predicate PoolOk(p: Pool) {
    && (forall k | 0 <= k < |p.free| :: p.free[k] < |p.generations|)
    && (forall j, k | 0 <= j < k < |p.free| :: p.free[j] != p.free[k])
    && (forall i | 0 <= i < |p.generations| :: p.generations[i] < GENERATIONS)
  }

  lemma ApplyKeepsOk(p: Pool, op: PoolOp)
    requires PoolOk(p)
    ensures PoolOk(Apply(p, op)) && |Apply(p, op).generations| == |p.generations|
  {
  }

  lemma WrapStep(g: nat, n: nat)
    ensures ((g + 1) % GENERATIONS + n) % GENERATIONS == (g + 1 + n) % GENERATIONS
  {
  }

  /** One operation on slot `i`: a free of the slot in use bumps its generation, nothing else does. */
  lemma OneGeneration(p: Pool, op: PoolOp, i: nat)
    requires PoolOk(p) && i < |p.generations|
    ensures PoolOk(Apply(p, op)) && |Apply(p, op).generations| == |p.generations|
    ensures var frees := op == FreeSlot(i) && InUse(p, i);
            && Apply(p, op).generations[i] == (if frees then (p.generations[i] + 1) % GENERATIONS else p.generations[i])
            && (InUse(p, i) && !frees ==> InUse(Apply(p, op), i))
    ensures p.generations[i] < GENERATIONS
  {
    ApplyKeepsOk(p, op);
  }

  /** A generation counts the frees of its slot, modulo 2^32; a slot in use and not freed stays in use. */
  lemma {:induction false} GenerationCountsFrees(p: Pool, ops: seq<PoolOp>, i: nat)
    requires PoolOk(p) && i < |p.generations|
    ensures PoolOk(ApplyAll(p, ops)) && |ApplyAll(p, ops).generations| == |p.generations|
    ensures ApplyAll(p, ops).generations[i] == (p.generations[i] + Frees(p, ops, i)) % 0x1_0000_0000
    ensures InUse(p, i) && Frees(p, ops, i) == 0 ==> InUse(ApplyAll(p, ops), i)
    decreases |ops|
  {
    hide PoolOk, Apply, InUse;
    OneGeneration(p, AllocSlot, i);
    if ops != [] {
      OneGeneration(p, ops[0], i);
      GenerationCountsFrees(Apply(p, ops[0]), ops[1..], i);
      WrapStep(p.generations[i], Frees(Apply(p, ops[0]), ops[1..], i));
    }
  }

  lemma WrapsBack(g: nat, n: nat)
    requires g < GENERATIONS
    ensures (g + n) % GENERATIONS == g <==> n % GENERATIONS == 0
  {
  }

  /** Exactly when a handle given out by an allocation is good after any history: the slot is in use and
      has been freed a multiple of 2^32 times since. */
  lemma HandleGoodIff(p: Pool, ops: seq<PoolOp>)
    requires PoolOk(p) && p.free != []
    ensures var id := OrderId(p.free[0], p.generations[p.free[0]]);
            var now, later := Apply(p, AllocSlot), ApplyAll(Apply(p, AllocSlot), ops);
            && Resolve(now, id) == Some(id.index)
            && (Resolve(later, id) == Some(id.index) <==>
                InUse(later, id.index) && Frees(now, ops, id.index) % 0x1_0000_0000 == 0)
            && (Resolve(later, id).Some? ==> Resolve(later, id).value == id.index)
  {
    var now, i := Apply(p, AllocSlot), p.free[0];
    ApplyKeepsOk(p, AllocSlot);
    GenerationCountsFrees(now, ops, i);
    WrapsBack(p.generations[i], Frees(now, ops, i));
    hide ApplyAll, Frees;
  }

  /** Until its slot is freed a handle resolves; from then on it is refused, whatever happens to the
      slot, for as long as the slot has been freed fewer than 2^32 times. */
  lemma HandleSafety(p: Pool, ops: seq<PoolOp>)
    requires PoolOk(p) && p.free != []
    ensures var id := OrderId(p.free[0], p.generations[p.free[0]]);
            var now := Apply(p, AllocSlot);
            && (Frees(now, ops, id.index) == 0 ==> Resolve(ApplyAll(now, ops), id) == Some(id.index))
            && (0 < Frees(now, ops, id.index) < 0x1_0000_0000 ==> Resolve(ApplyAll(now, ops), id) == None)
  {
    var now, i := Apply(p, AllocSlot), p.free[0];
    HandleGoodIff(p, ops);
    ApplyKeepsOk(p, AllocSlot);
    GenerationCountsFrees(now, ops, i);
    assert InUse(now, i);
    hide ApplyAll, Frees, PoolOk;
  }

  // ---------------------------------------------------------------- the bound is needed

  /** A slot is freed and, as the last one freed, at once allocated again, `n` times over. */
  function Cycles(i: nat, n: nat): seq<PoolOp> {
    if n == 0 then [] else [FreeSlot(i), AllocSlot] + Cycles(i, n - 1)
  }

  lemma OneCycle(p: Pool, i: nat, rest: seq<PoolOp>)
    requires PoolOk(p) && InUse(p, i)
    ensures var p1 := p.(generations := p.generations[i := (p.generations[i] + 1) % GENERATIONS]);
            ApplyAll(p, [FreeSlot(i), AllocSlot] + rest) == ApplyAll(p1, rest) && PoolOk(p1) && InUse(p1, i)
  {
    var ops := [FreeSlot(i), AllocSlot] + rest;
    assert ops[1..] == [AllocSlot] + rest && ops[1..][1..] == rest;
    assert ([i] + p.free)[1..] == p.free;
  }

  lemma {:induction false} CyclesReturn(p: Pool, i: nat, n: nat)
    requires PoolOk(p) && InUse(p, i)
    ensures ApplyAll(p, Cycles(i, n)) == p.(generations := p.generations[i := (p.generations[i] + n) % GENERATIONS])
    decreases n
  {
    hide ApplyAll;
    if n == 0 {
      NoOps(p);
    } else {
      OneCycle(p, i, Cycles(i, n - 1));
      CyclesReturn(p.(generations := p.generations[i := (p.generations[i] + 1) % GENERATIONS]), i, n - 1);
      WrapStep(p.generations[i], n - 1);
    }
  }

  lemma NoOps(p: Pool)
    ensures ApplyAll(p, []) == p
  {
  }

  /** A handle outlives its order after all: with its slot freed and allocated again `n` times it names
      the latest order in the slot exactly when `n` is a multiple of 2^32. */
  lemma HandleWraps(p: Pool, n: nat)
    requires PoolOk(p) && p.free != []
    ensures var id := OrderId(p.free[0], p.generations[p.free[0]]);
            var later := ApplyAll(Apply(p, AllocSlot), Cycles(id.index, n));
            InUse(later, id.index) && (Resolve(later, id) == Some(id.index) <==> n % 0x1_0000_0000 == 0)
  {
    var i, now := p.free[0], Apply(p, AllocSlot);
    ApplyKeepsOk(p, AllocSlot);
    assert InUse(now, i) && now.generations == p.generations;
    CyclesReturn(now, i, n);
    WrapsBack(p.generations[i], n);
    hide ApplyAll, Cycles;
  }
}
