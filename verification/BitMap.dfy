/**
  The three-level summary bitmap over 64 * 64 * 64 ticks.

  A word is a `bv64`.  A tick `n` is split into `n >> 12`, `(n >> 6) & 63` and `n & 63`, which on naturals
  are `n / 4096`, `n / 64 % 64` and `n % 64`.
 */
module BitMaps {
  import opened Types

  // ---------------------------------------------------------------- single words

  predicate Bit(w: bv64, k: bv6) {
    (w >> k) & 1 == 1
  }

  /** Bit `k` of a word, with `k` counted in naturals. */
  predicate Test(w: bv64, k: nat)
    requires k < 64
  {
    Bit(w, k as bv6)
  }

  lemma Successor(b: bv6)
    ensures b < 63 ==> (b + 1) as int == b as int + 1
  {
  }

  lemma {:induction false} BitIndexExists(k: nat) returns (b: bv6)
    requires k < 64
    ensures b as int == k
  {
    if k == 0 {
      b := 0;
    } else {
      var c := BitIndexExists(k - 1);
      Successor(c);
      b := c + 1;
    }
  }

  lemma BitIndex(k: nat)
    requires k < 64
    ensures (k as bv6) as int == k
  {
    var b := BitIndexExists(k);
  }

  lemma SetOneBit(w: bv64, k: bv6, j: bv6)
    ensures Bit(w | (1 << k), j) <==> Bit(w, j) || j == k
  {
  }

  lemma ClearOneBit(w: bv64, k: bv6, j: bv6)
    ensures Bit(w & !(1 << k), j) <==> Bit(w, j) && j != k
  {
  }

  lemma BitIndexInjective(k: nat, j: nat)
    requires k < 64 && j < 64
    ensures k as bv6 == j as bv6 <==> k == j
  {
    BitIndex(k);
    BitIndex(j);
  }

  lemma TestAfterSet(w: bv64, k: nat, j: nat)
    requires k < 64 && j < 64
    ensures Test(w | (1 << (k as bv6)), j) <==> Test(w, j) || j == k
  {
    BitIndex(k);
    BitIndex(j);
    SetOneBit(w, k as bv6, j as bv6);
  }

  lemma TestAfterClear(w: bv64, k: nat, j: nat)
    requires k < 64 && j < 64
    ensures Test(w & !(1 << (k as bv6)), j) <==> Test(w, j) && j != k
  {
    BitIndexInjective(k, j);
    ClearOneBit(w, k as bv6, j as bv6);
  }

  /** `w | (1 << k)` */
  function WithBit(w: bv64, k: nat): (r: bv64)
    requires k < 64
    ensures forall j: nat | j < 64 :: Test(r, j) <==> Test(w, j) || j == k
    ensures r != 0
  {
    var r := w | (1 << (k as bv6));
    assert forall j: nat | j < 64 :: Test(r, j) <==> Test(w, j) || j == k by {
      forall j: nat | j < 64
        ensures Test(r, j) <==> Test(w, j) || j == k
      {
        TestAfterSet(w, k, j);
      }
    }
    assert Test(r, k);
    ZeroWord(r);
    r
  }

  /** `w & !(1 << k)` */
  function WithoutBit(w: bv64, k: nat): (r: bv64)
    requires k < 64
    ensures forall j: nat | j < 64 :: Test(r, j) <==> Test(w, j) && j != k
    ensures w == 0 ==> r == 0
  {
    var r := w & !(1 << (k as bv6));
    assert forall j: nat | j < 64 :: Test(r, j) <==> Test(w, j) && j != k by {
      forall j: nat | j < 64
        ensures Test(r, j) <==> Test(w, j) && j != k
      {
        TestAfterClear(w, k, j);
      }
    }
    r
  }

  lemma TestZero(j: nat)
    requires j < 64
    ensures !Test(0, j)
  {
  }

  lemma ShiftStep(w: bv64, k: bv6)
    requires 0 < k && w >> k == 0 && !Bit(w, k - 1)
    ensures w >> (k - 1) == 0
  {
  }

  lemma TopShift(w: bv64)
    requires !Bit(w, 63)
    ensures w >> (63 as bv6) == 0
  {
  }

  lemma {:induction false} NoHighBits(w: bv64, k: bv6)
    requires forall j: nat | j < 64 :: !Test(w, j)
    ensures w >> k == 0
    decreases 63 - k as int
  {
    BitAsTest(w, k);
    if k == 63 {
      TopShift(w);
    } else {
      Successor(k);
      NoHighBits(w, k + 1);
      ShiftStep(w, k + 1);
    }
  }

  lemma BitAsTest(w: bv64, k: bv6)
    ensures (k as int) as bv6 == k
    ensures Bit(w, k) == Test(w, k as int)
  {
  }

  lemma ZeroWord(w: bv64)
    ensures w == 0 <==> forall j: nat | j < 64 :: !Test(w, j)
  {
    if forall j: nat | j < 64 :: !Test(w, j) {
      NoHighBits(w, 0);
    }
    forall j: nat | j < 64
      ensures w == 0 ==> !Test(w, j)
    {
      TestZero(j);
    }
  }

  // ---------------------------------------------------------------- scanning a word

  predicate NoneBelow(w: bv64, k: nat)
    requires k <= 64
  {
    forall j | 0 <= j < k :: !Test(w, j)
  }

  predicate NoneFrom(w: bv64, k: nat) {
    forall j: nat | k <= j < 64 :: !Test(w, j)
  }

  /** The lowest set bit at or above `k`, or 64. */
  function ScanUp(w: bv64, k: nat): (r: nat)
    requires k <= 64
    ensures k <= r <= 64
    ensures r < 64 ==> Test(w, r)
    ensures forall j | k <= j < r :: !Test(w, j)
    decreases 64 - k
  {
    if k == 64 || Test(w, k) then k else ScanUp(w, k + 1)
  }

  /** One more than the highest set bit below `k`, or 0. */
  function ScanDown(w: bv64, k: nat): (r: nat)
    requires k <= 64
    ensures r <= k
    ensures 0 < r ==> Test(w, r - 1)
    ensures forall j | r <= j < k :: !Test(w, j)
  {
    if k == 0 || Test(w, k - 1) then k else ScanDown(w, k - 1)
  }

  /** The machine instruction: the number of zero bits below the lowest set bit; 64 for 0. */
  function TrailingZeros(w: bv64): (r: nat)
    ensures r <= 64 && (r == 64 <==> w == 0)
    ensures r < 64 ==> Test(w, r)
    ensures NoneBelow(w, r)
  {
    ZeroWord(w);
    ScanUp(w, 0)
  }

  /** The machine instruction: the number of zero bits above the highest set bit; 64 for 0. */
  function LeadingZeros(w: bv64): (r: nat)
    ensures r <= 64 && (r == 64 <==> w == 0)
    ensures r < 64 ==> Test(w, 63 - r)
    ensures NoneFrom(w, 64 - r)
  {
    ZeroWord(w);
    64 - ScanDown(w, 64)
  }

  // ---------------------------------------------------------------- the three fields of a tick

  // A tick has 18 bits.  Its fields are joined and split by shifts; that these are the sums, quotients and
  // remainders used everywhere else is proved here, once.

  function Value(b: bv18): nat {
    b as nat
  }

  function Word(n: nat): bv18
    requires n < TICKS
  {
    n as bv18
  }

  lemma ValueOfWord(b: bv18)
    ensures Value(b) < TICKS && Word(Value(b)) == b
  {
  }

  lemma SmallSuccessor(b: bv18)
    requires b < 63
    ensures Value(b + 1) == Value(b) + 1
  {
  }

  lemma SmallBound(b: bv18, k: nat)
    requires Value(b) == k < 64
    ensures b < 64 && (k < 63 ==> b < 63) && (k == 63 ==> b == 63) && (k == 0 ==> b == 0)
  {
  }

  lemma Add64(b: bv18)
    requires b <= 0x3FFBF
    ensures Value(b + 64) == Value(b) + 64
  {
  }

  lemma ValueOfZero()
    ensures Value(0) == 0
  {
  }

  /** The word of a six-bit field. */
  lemma {:induction false} FieldWord(k: nat) returns (b: bv18)
    requires k < 64
    ensures Value(b) == k && b < 64 && Word(k) == b
  {
    hide Value, Word;
    if k == 0 {
      b := 0;
      ValueOfZero();
    } else {
      var c := FieldWord(k - 1);
      SmallBound(c, k - 1);
      SmallSuccessor(c);
      b := c + 1;
      SmallBound(b, k);
    }
    ValueOfWord(b);
  }

  lemma NextField(b: bv18, c: bv18, k: nat)
    requires 0 < k < 64 && Value(b) == k && Value(c) == k - 1
    ensures b == c + 1 && c < 63
  {
    hide Value, Word;
    SmallBound(c, k - 1);
    SmallSuccessor(c);
    ValueOfWord(b);
    ValueOfWord(c + 1);
  }

  function SumWord(b0: bv18, b1: bv18, b2: bv18): bv18 {
    b0 * 4096 + b1 * 64 + b2
  }

  function ShiftWord(b0: bv18, b1: bv18, b2: bv18): bv18 {
    (b0 << 12) | (b1 << 6) | b2
  }

  lemma ShiftsAreSum(b0: bv18, b1: bv18, b2: bv18)
    requires b0 < 64 && b1 < 64 && b2 < 64
    ensures ShiftWord(b0, b1, b2) == SumWord(b0, b1, b2)
  {
  }

  lemma NextMiddle(b0: bv18, c1: bv18, b2: bv18)
    requires b0 < 64 && c1 < 63 && b2 < 64
    ensures SumWord(b0, c1, b2) <= 0x3FFBF && SumWord(b0, c1 + 1, b2) == SumWord(b0, c1, b2) + 64
  {
  }

  lemma NextTop(c0: bv18, b2: bv18)
    requires c0 < 63 && b2 < 64
    ensures SumWord(c0, 63, b2) <= 0x3FFBF && SumWord(c0 + 1, 0, b2) == SumWord(c0, 63, b2) + 64
  {
  }

  lemma OnlyLow(b2: bv18)
    ensures SumWord(0, 0, b2) == b2
  {
  }

  lemma {:induction false} SumOfFields(b0: bv18, b1: bv18, b2: bv18, i0: nat, i1: nat, i2: nat)
    requires i0 < 64 && i1 < 64 && i2 < 64 && Value(b0) == i0 && Value(b1) == i1 && Value(b2) == i2
    ensures Value(SumWord(b0, b1, b2)) == i0 * 4096 + i1 * 64 + i2
    decreases i0, i1
  {
    hide Value, SumWord;
    SmallBound(b0, i0);
    SmallBound(b1, i1);
    SmallBound(b2, i2);
    if i1 > 0 {
      var c1 := FieldWord(i1 - 1);
      NextField(b1, c1, i1);
      NextMiddle(b0, c1, b2);
      SumOfFields(b0, c1, b2, i0, i1 - 1, i2);
      Add64(SumWord(b0, c1, b2));
    } else if i0 > 0 {
      var c0 := FieldWord(i0 - 1);
      var c1 := FieldWord(63);
      NextField(b0, c0, i0);
      SmallBound(c1, 63);
      NextTop(c0, b2);
      SumOfFields(c0, c1, b2, i0 - 1, 63, i2);
      Add64(SumWord(c0, c1, b2));
    } else {
      OnlyLow(b2);
    }
  }

  /** Joining three six-bit fields by shifts is the sum. */
  lemma JoinFields(i0: nat, i1: nat, i2: nat)
    requires i0 < 64 && i1 < 64 && i2 < 64
    ensures Value(ShiftWord(Word(i0), Word(i1), Word(i2))) == i0 * 4096 + i1 * 64 + i2
  {
    hide Value, Word, SumWord, ShiftWord;
    var b0 := FieldWord(i0);
    var b1 := FieldWord(i1);
    var b2 := FieldWord(i2);
    ShiftsAreSum(b0, b1, b2);
    SumOfFields(b0, b1, b2, i0, i1, i2);
  }

  /** `(i0 << 12) | (i1 << 6) | i2` */
  function Joined(i0: nat, i1: nat, i2: nat): (n: nat)
    requires i0 < 64 && i1 < 64 && i2 < 64
    ensures n == i0 * 4096 + i1 * 64 + i2
  {
    JoinFields(i0, i1, i2);
    Value(ShiftWord(Word(i0), Word(i1), Word(i2)))
  }

  function ShiftedTop(w: bv18): bv18 {
    w >> 12
  }

  function ShiftedMiddle(w: bv18): bv18 {
    (w >> 6) & 63
  }

  function MaskedLow(w: bv18): bv18 {
    w & 63
  }

  lemma SplitBits(b0: bv18, b1: bv18, b2: bv18)
    requires b0 < 64 && b1 < 64 && b2 < 64
    ensures var w := ShiftWord(b0, b1, b2); ShiftedTop(w) == b0 && ShiftedMiddle(w) == b1 && MaskedLow(w) == b2
  {
  }

  /** Splitting a tick by shifts and masks gives its quotients and remainders. */
  lemma SplitFields(n: nat)
    requires n < TICKS
    ensures Value(ShiftedTop(Word(n))) == n / 4096
    ensures Value(ShiftedMiddle(Word(n))) == n / 64 % 64
    ensures Value(MaskedLow(Word(n))) == n % 64
  {
    hide Value, Word, ShiftWord, ShiftedTop, ShiftedMiddle, MaskedLow;
    Fields(n);
    var b0 := FieldWord(n / 4096);
    var b1 := FieldWord(n / 64 % 64);
    var b2 := FieldWord(n % 64);
    JoinFields(n / 4096, n / 64 % 64, n % 64);
    ValueOfWord(ShiftWord(b0, b1, b2));
    SplitBits(b0, b1, b2);
  }

  /** `n >> 12` */
  function TopField(n: nat): (r: nat)
    requires n < TICKS
    ensures r == n / 4096 < 64
  {
    SplitFields(n);
    Value(ShiftedTop(Word(n)))
  }

  /** `(n >> 6) & 63` */
  function MiddleField(n: nat): (r: nat)
    requires n < TICKS
    ensures r == n / 64 % 64
  {
    SplitFields(n);
    Value(ShiftedMiddle(Word(n)))
  }

  /** `n & 63` */
  function LowField(n: nat): (r: nat)
    requires n < TICKS
    ensures r == n % 64
  {
    SplitFields(n);
    Value(MaskedLow(Word(n)))
  }

  // ---------------------------------------------------------------- three levels of words

  /** A summary bit is set exactly when the word below it is non-zero. */
  ghost predicate Summaries(l0: bv64, l1: seq<bv64>, l2: seq<bv64>) {
    && |l1| == 64 && |l2| == 4096
    && (forall i | 0 <= i < 64 :: Test(l0, i) <==> l1[i] != 0)
    && (forall i | 0 <= i < 4096 :: Test(l1[i / 64], i % 64) <==> l2[i] != 0)
  }

  /** The set of ticks the lowest level stands for. */
  ghost predicate Member(l2: seq<bv64>, n: nat)
    requires |l2| == 4096
  {
    n < TICKS && Test(l2[n / 64], n % 64)
  }

  /** Every member is reached from the top word through set summary bits. */
  lemma SummaryPath(l0: bv64, l1: seq<bv64>, l2: seq<bv64>, n: nat)
    requires Summaries(l0, l1, l2) && Member(l2, n)
    ensures Test(l0, n / 4096) && Test(l1[n / 4096], n / 64 % 64)
  {
    hide Test;
    ZeroWord(l2[n / 64]);
    ZeroWord(l1[n / 4096]);
  }

  lemma MemberAfterClear(l2: seq<bv64>, n: nat, m: nat)
    requires |l2| == 4096 && n < TICKS
    ensures Member(l2[n / 64 := WithoutBit(l2[n / 64], n % 64)], m) <==> Member(l2, m) && m != n
  {
    hide Test, WithoutBit;
  }

  lemma MemberAfterSet(l2: seq<bv64>, n: nat, m: nat)
    requires |l2| == 4096 && n < TICKS
    ensures Member(l2[n / 64 := WithBit(l2[n / 64], n % 64)], m) <==> Member(l2, m) || m == n
  {
    hide Test, WithBit;
  }

  lemma SizesOf(l0: bv64, l1: seq<bv64>, l2: seq<bv64>)
    requires Summaries(l0, l1, l2)
    ensures |l1| == 64 && |l2| == 4096
  {
  }

  lemma SummariesAfterSet(l0: bv64, l1: seq<bv64>, l2: seq<bv64>, n: nat)
    requires Summaries(l0, l1, l2) && n < TICKS
    ensures Summaries(WithBit(l0, n / 4096), l1[n / 4096 := WithBit(l1[n / 4096], n / 64 % 64)],
                      l2[n / 64 := WithBit(l2[n / 64], n % 64)])
  {
    hide Test, WithBit;
    var l2' := l2[n / 64 := WithBit(l2[n / 64], n % 64)];
    var l1' := l1[n / 4096 := WithBit(l1[n / 4096], n / 64 % 64)];
    forall i | 0 <= i < 4096
      ensures Test(l1'[i / 64], i % 64) <==> l2'[i] != 0
    {
      assert Test(l1[i / 64], i % 64) <==> l2[i] != 0;
    }
  }

  /** Clearing a bit of one word, and its summary bits as far as words become zero, keeps the summaries. */
  lemma SummariesAfterClear(l0: bv64, l1: seq<bv64>, l2: seq<bv64>, n: nat)
    requires Summaries(l0, l1, l2) && n < TICKS
    ensures var l2' := l2[n / 64 := WithoutBit(l2[n / 64], n % 64)];
            var l1' := if l2'[n / 64] == 0 then l1[n / 4096 := WithoutBit(l1[n / 4096], n / 64 % 64)] else l1;
            var l0' := if l1'[n / 4096] == 0 then WithoutBit(l0, n / 4096) else l0;
            Summaries(l0', l1', l2')
  {
    hide Test, WithoutBit;
    var l2' := l2[n / 64 := WithoutBit(l2[n / 64], n % 64)];
    var l1' := if l2'[n / 64] == 0 then l1[n / 4096 := WithoutBit(l1[n / 4096], n / 64 % 64)] else l1;
    forall i | 0 <= i < 4096
      ensures Test(l1'[i / 64], i % 64) <==> l2'[i] != 0
    {
      assert Test(l1[i / 64], i % 64) <==> l2[i] != 0;
    }
  }

  /** The three fields of a tick, and the word of the lowest level it is in. */
  lemma Fields(n: nat)
    requires n < TICKS
    ensures n / 4096 < 64 && n / 4096 * 64 + n / 64 % 64 == n / 64 < 4096
    ensures n / 64 / 64 == n / 4096 && n / 4096 * 4096 + n / 64 % 64 * 64 + n % 64 == n
  {
  }

  lemma NoMember(l0: bv64, l1: seq<bv64>, l2: seq<bv64>)
    requires Summaries(l0, l1, l2) && l0 == 0
    ensures forall m: nat :: !Member(l2, m)
  {
    hide Test, Member;
    ZeroWord(0);
    forall m: nat | Member(l2, m)
      ensures false
    {
      MemberInRange(l2, m);
      SummaryPath(l0, l1, l2, m);
    }
  }

  lemma MemberInRange(l2: seq<bv64>, m: nat)
    requires |l2| == 4096 && Member(l2, m)
    ensures m < TICKS
  {
  }

  lemma IsMember(l2: seq<bv64>, i0: nat, i1: nat, i2: nat)
    requires |l2| == 4096 && i0 < 64 && i1 < 64 && i2 < 64 && Test(l2[i0 * 64 + i1], i2)
    ensures Member(l2, i0 * 4096 + i1 * 64 + i2)
  {
    hide Test;
    var n := i0 * 4096 + i1 * 64 + i2;
    assert n / 64 == i0 * 64 + i1 && n % 64 == i2;
  }

  /** The lowest bits, level by level, lead to the lowest member. */
  lemma Lowest(l0: bv64, l1: seq<bv64>, l2: seq<bv64>, i0: nat, i1: nat, i2: nat, m: nat)
    requires Summaries(l0, l1, l2) && i0 < 64 && i1 < 64 && i2 < 64 && Member(l2, m)
    requires NoneBelow(l0, i0) && NoneBelow(l1[i0], i1) && NoneBelow(l2[i0 * 64 + i1], i2)
    ensures i0 * 4096 + i1 * 64 + i2 <= m
  {
    hide Test;
    SummaryPath(l0, l1, l2, m);
    var m0, m1, m2 := m / 4096, m / 64 % 64, m % 64;
    assert m / 64 == m0 * 64 + m1 && m == m0 * 4096 + m1 * 64 + m2;
    assert m0 >= i0;
    if m0 == i0 && m1 == i1 {
      assert Test(l2[i0 * 64 + i1], m2);
    }
  }

  /** The highest bits, level by level, lead to the highest member. */
  lemma Highest(l0: bv64, l1: seq<bv64>, l2: seq<bv64>, i0: nat, i1: nat, i2: nat, m: nat)
    requires Summaries(l0, l1, l2) && i0 < 64 && i1 < 64 && i2 < 64 && Member(l2, m)
    requires NoneFrom(l0, i0 + 1) && NoneFrom(l1[i0], i1 + 1) && NoneFrom(l2[i0 * 64 + i1], i2 + 1)
    ensures m <= i0 * 4096 + i1 * 64 + i2
  {
    hide Test;
    SummaryPath(l0, l1, l2, m);
    var m0, m1, m2 := m / 4096, m / 64 % 64, m % 64;
    assert m / 64 == m0 * 64 + m1 && m == m0 * 4096 + m1 * 64 + m2;
    assert m0 <= i0;
    if m0 == i0 && m1 == i1 {
      assert Test(l2[i0 * 64 + i1], m2);
    }
  }

  // ---------------------------------------------------------------- the bitmap

  class BitMap {
    var l0: bv64
    const l1: array<bv64>
    const l2: array<bv64>

    ghost predicate Valid()
      reads this, l1, l2
    {
      && l1 != l2 && l1.Length == 64 && l2.Length == 4096
      && Summaries(l0, l1[..], l2[..])
    }

    ghost predicate Has(n: nat)
      requires l2.Length == 4096
      reads l2
    {
      Member(l2[..], n)
    }

    constructor ()
      ensures Valid() && fresh(l1) && fresh(l2)
      ensures forall n: nat :: !Has(n)
    {
      l0 := 0;
      l1 := new bv64[64](_ => 0);
      l2 := new bv64[4096](_ => 0);
      new;
      ZeroWord(0);
    }

    method SetBit(n: nat)
      requires Valid() && n < TICKS
      modifies this, l1, l2
      ensures Valid()
      ensures forall m: nat :: Has(m) <==> old(Has(m)) || m == n
    {
      hide Test, WithBit, Member, Summaries, TopField, MiddleField, LowField;
      SizesOf(l0, l1[..], l2[..]);
      var l0Bit, l1Bit, l2Bit := TopField(n), MiddleField(n), LowField(n);
      var word := l0Bit * 64 + l1Bit;
      Fields(n);
      l2[word] := WithBit(l2[word], l2Bit);
      l1[l0Bit] := WithBit(l1[l0Bit], l1Bit);
      l0 := WithBit(l0, l0Bit);
      assert l2[..] == old(l2[..])[word := WithBit(old(l2[..])[word], l2Bit)];
      assert l1[..] == old(l1[..])[l0Bit := WithBit(old(l1[..])[l0Bit], l1Bit)];
      SummariesAfterSet(old(l0), old(l1[..]), old(l2[..]), n);
      forall m: nat
        ensures Has(m) <==> old(Has(m)) || m == n
      {
        MemberAfterSet(old(l2[..]), n, m);
      }
    }

    method ClearBit(n: nat)
      requires Valid() && n < TICKS
      modifies this, l1, l2
      ensures Valid()
      ensures forall m: nat :: Has(m) <==> old(Has(m)) && m != n
    {
      hide Test, WithoutBit, Member, Summaries, TopField, MiddleField, LowField;
      SizesOf(l0, l1[..], l2[..]);
      var l0Bit, l1Bit, l2Bit := TopField(n), MiddleField(n), LowField(n);
      var word := l0Bit * 64 + l1Bit;
      Fields(n);
      l2[word] := WithoutBit(l2[word], l2Bit);
      if l2[word] == 0 {
        l1[l0Bit] := WithoutBit(l1[l0Bit], l1Bit);
      }
      if l1[l0Bit] == 0 {
        l0 := WithoutBit(l0, l0Bit);
      }
      assert l2[..] == old(l2[..])[word := WithoutBit(old(l2[..])[word], l2Bit)];
      SummariesAfterClear(old(l0), old(l1[..]), old(l2[..]), n);
      ghost var words1 := old(l1[..]);
      assert l1[..] == if l2[word] == 0 then words1[l0Bit := WithoutBit(words1[l0Bit], l1Bit)] else words1;
      forall m: nat
        ensures Has(m) <==> old(Has(m)) && m != n
      {
        MemberAfterClear(old(l2[..]), n, m);
      }
    }

    method BestAsk() returns (best: Option<nat>)
      requires Valid()
      ensures best.None? ==> forall m: nat :: !Has(m)
      ensures best.Some? ==> Has(best.value) && forall m: nat | Has(m) :: best.value <= m
    {
      hide Test, TrailingZeros, Member, Joined;
      ghost var words1, words2 := l1[..], l2[..];
      if l0 == 0 {
        NoMember(l0, words1, words2);
        return None;
      }
      var i0 := TrailingZeros(l0);
      var i1 := TrailingZeros(l1[i0]);
      var i2 := TrailingZeros(l2[i0 * 64 + i1]);
      IsMember(words2, i0, i1, i2);
      forall m: nat | Has(m)
        ensures i0 * 4096 + i1 * 64 + i2 <= m
      {
        Lowest(l0, words1, words2, i0, i1, i2, m);
      }
      best := Some(Joined(i0, i1, i2));
    }

    method BestBid() returns (best: Option<nat>)
      requires Valid()
      ensures best.None? ==> forall m: nat :: !Has(m)
      ensures best.Some? ==> Has(best.value) && forall m: nat | Has(m) :: m <= best.value
    {
      hide Test, LeadingZeros, Member, Joined;
      ghost var words1, words2 := l1[..], l2[..];
      if l0 == 0 {
        NoMember(l0, words1, words2);
        return None;
      }
      var i0 := 63 - LeadingZeros(l0);
      var i1 := 63 - LeadingZeros(l1[i0]);
      var i2 := 63 - LeadingZeros(l2[i0 * 64 + i1]);
      IsMember(words2, i0, i1, i2);
      forall m: nat | Has(m)
        ensures m <= i0 * 4096 + i1 * 64 + i2
      {
        Highest(l0, words1, words2, i0, i1, i2, m);
      }
      best := Some(Joined(i0, i1, i2));
    }
  }
}
