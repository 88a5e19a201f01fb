/**
  The ring buffer: a power-of-two number of cells, addressed by masking a sequence number.
 */
module RingBuffers {
  import opened Arithmetic

  function Pow2(k: nat): (r: nat)
    ensures r >= 1
  {
    if k == 0 then 1 else 2 * Pow2(k - 1)
  }

  /** Bitwise and on naturals. */
  function BitAnd(a: nat, b: nat): nat {
    if a == 0 || b == 0 then 0 else a % 2 * (b % 2) + 2 * BitAnd(a / 2, b / 2)
  }

  lemma DoubleMod(x: nat, p: nat)
    requires p >= 1
    ensures x % (2 * p) == x % 2 + 2 * (x / 2 % p)
  {
    var h := x / 2;
    var q, r := h / p, h % p;
    Division(h, p);
    assert 2 * (q * p) == q * (2 * p);
    DivisionUnique(x, 2 * p, q, x % 2 + 2 * r);
  }

  lemma {:induction false} BitAndZero(a: nat)
    ensures BitAnd(a, 0) == 0
  {
  }

  /** Masking by one less than a power of two is the remainder by it. */
  lemma {:induction false} MaskIsMod(x: nat, k: nat)
    ensures BitAnd(x, Pow2(k) - 1) == x % Pow2(k)
  {
    if k == 0 {
    } else if x == 0 {
    } else {
      var p := Pow2(k - 1);
      MaskIsMod(x / 2, k - 1);
      assert (2 * p - 1) % 2 == 1 && (2 * p - 1) / 2 == p - 1;
      DoubleMod(x, p);
      if p == 1 {
        BitAndZero(x / 2);
      }
    }
  }

  /** Where a sequence number lives in a ring of `capacity` cells. */
  function Index(seqNo: int, capacity: nat): (i: nat)
    requires capacity >= 1
    ensures i < capacity
  {
    seqNo % capacity
  }

  /** Two different sequence numbers less than a capacity apart live in different cells. */
  lemma WindowInjective(x: int, y: int, capacity: nat)
    requires capacity >= 1 && x < y < x + capacity
    ensures Index(x, capacity) != Index(y, capacity)
  {
    Division(x, capacity);
    Division(y, capacity);
    var qx, qy := x / capacity, y / capacity;
    if qx < qy {
      MultipleGap(qx, qy, capacity);
    } else if qy < qx {
      MultipleGap(qy, qx, capacity);
    }
  }

  class RingBuffer<T> {
    const buffer: array<T>
    const mask: nat
    ghost const bits: nat

    ghost predicate Valid() {
      buffer.Length == Pow2(bits) && mask == buffer.Length - 1
    }

    constructor (ghost k: nat, capacity: nat, initial: T)
      requires capacity == Pow2(k)
      ensures Valid() && fresh(buffer) && buffer.Length == capacity
      ensures forall i | 0 <= i < capacity :: buffer[i] == initial
    {
      buffer := new T[capacity](_ => initial);
      mask := capacity - 1;
      bits := k;
    }

    function Capacity(): (c: nat)
      requires Valid()
      ensures c == buffer.Length
    {
      mask + 1
    }

    /** The cell of a sequence number: `seq & mask`. */
    function Cell(seqNo: nat): (i: nat)
      requires Valid()
      ensures i == Index(seqNo, buffer.Length) == seqNo % buffer.Length
    {
      MaskIsMod(seqNo, bits);
      BitAnd(seqNo, mask)
    }

    method Read(seqNo: nat) returns (value: T)
      requires Valid()
      ensures value == buffer[Index(seqNo, buffer.Length)]
    {
      value := buffer[Cell(seqNo)];
    }

    /** A write is read back under its own number, and is not seen under any other number of a window
        of one capacity around it. */
    method Write(seqNo: nat, value: T)
      requires Valid()
      modifies buffer
      ensures buffer[Index(seqNo, buffer.Length)] == value
      ensures forall other: nat | other != seqNo && other < seqNo + buffer.Length && seqNo < other + buffer.Length ::
                buffer[Index(other, buffer.Length)] == old(buffer[Index(other, buffer.Length)])
    {
      buffer[Cell(seqNo)] := value;
      forall other: nat | other != seqNo && other < seqNo + buffer.Length && seqNo < other + buffer.Length
        ensures Index(other, buffer.Length) != Index(seqNo, buffer.Length)
      {
        if other < seqNo {
          WindowInjective(other, seqNo, buffer.Length);
        } else {
          WindowInjective(seqNo, other, buffer.Length);
        }
      }
    }
  }
}
