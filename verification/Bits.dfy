/** Bits of bytes, most significant first, and numbers as bits. */
module Bits {
  function Pow2(n: nat): (p: nat)
    ensures p >= 1
  {
    if n == 0 then 1 else 2 * Pow2(n - 1)
  }

  // ----- One byte ------------------------------------------------------------------------------

  /** Bit `k` of a byte, counted from the most significant. */
  function BitOf(b: bv8, k: nat): bool
    requires k < 8
  {
    (b >> (7 - k)) & 1 == 1
  }

  function Mask(k: nat): bv8
    requires k < 8
  {
    1 << (7 - k)
  }

  lemma MaskSetsOne(b: bv8, k: nat, j: nat)
    requires k < 8 && j < 8
    ensures BitOf(b | Mask(k), j) == (j == k || BitOf(b, j))
  {
    assert k == 0 || k == 1 || k == 2 || k == 3 || k == 4 || k == 5 || k == 6 || k == 7;
    assert j == 0 || j == 1 || j == 2 || j == 3 || j == 4 || j == 5 || j == 6 || j == 7;
  }

  lemma ZeroHasNoBits(j: nat)
    requires j < 8
    ensures !BitOf(0, j)
  {
    assert j == 0 || j == 1 || j == 2 || j == 3 || j == 4 || j == 5 || j == 6 || j == 7;
  }

  lemma ByteByBits(a: bv8, b: bv8)
    requires forall k :: 0 <= k < 8 ==> BitOf(a, k) == BitOf(b, k)
    ensures a == b
  {
    assert BitOf(a, 0) == BitOf(b, 0) && BitOf(a, 1) == BitOf(b, 1) && BitOf(a, 2) == BitOf(b, 2)
        && BitOf(a, 3) == BitOf(b, 3) && BitOf(a, 4) == BitOf(b, 4) && BitOf(a, 5) == BitOf(b, 5)
        && BitOf(a, 6) == BitOf(b, 6) && BitOf(a, 7) == BitOf(b, 7);
  }

  // ----- Byte strings --------------------------------------------------------------------------

  function BitAt(bytes: seq<bv8>, i: nat): bool
    requires i < 8 * |bytes|
  {
    BitOf(bytes[i / 8], i % 8)
  }

  function BitsIn(bytes: seq<bv8>): (bits: seq<bool>)
    ensures |bits| == 8 * |bytes|
    ensures forall i :: 0 <= i < |bits| ==> bits[i] == BitAt(bytes, i)
  {
    seq(8 * |bytes|, i requires 0 <= i < 8 * |bytes| => BitAt(bytes, i))
  }

  function SetBit(bytes: seq<bv8>, i: nat): (r: seq<bv8>)
    requires i < 8 * |bytes|
    ensures |r| == |bytes|
  {
    bytes[i / 8 := bytes[i / 8] | Mask(i % 8)]
  }

  lemma SetBitSets(bytes: seq<bv8>, i: nat)
    requires i < 8 * |bytes|
    ensures BitsIn(SetBit(bytes, i)) == BitsIn(bytes)[i := true]
  {
    hide BitOf, Mask;
    forall j | 0 <= j < 8 * |bytes|
      ensures BitAt(SetBit(bytes, i), j) == BitsIn(bytes)[i := true][j]
    {
      if i / 8 == j / 8 {
        MaskSetsOne(bytes[i / 8], i % 8, j % 8);
        assert i % 8 == j % 8 ==> i == j;
      }
    }
  }

  function Zeros(n: nat): (bits: seq<bool>)
    ensures |bits| == n && forall i :: 0 <= i < n ==> !bits[i]
  {
    seq(n, _ => false)
  }

  lemma ZeroBytesAreZeros(bytes: seq<bv8>)
    requires forall i :: 0 <= i < |bytes| ==> bytes[i] == 0
    ensures BitsIn(bytes) == Zeros(8 * |bytes|)
  {
    hide BitOf;
    forall j | 0 <= j < 8 * |bytes|
      ensures !BitAt(bytes, j)
    {
      ZeroHasNoBits(j % 8);
    }
  }

  /** Different byte strings of a length have different bits. */
  lemma BytesByBits(a: seq<bv8>, b: seq<bv8>)
    requires |a| == |b| && BitsIn(a) == BitsIn(b)
    ensures a == b
  {
    hide BitOf;
    forall i | 0 <= i < |a|
      ensures a[i] == b[i]
    {
      forall k | 0 <= k < 8
        ensures BitOf(a[i], k) == BitOf(b[i], k)
      {
        var j := 8 * i + k;
        assert j / 8 == i && j % 8 == k;
        assert BitsIn(a)[j] == BitsIn(b)[j];
      }
      ByteByBits(a[i], b[i]);
    }
  }

  lemma BitsOfPrefix(bytes: seq<bv8>, n: nat)
    requires n <= |bytes|
    ensures BitsIn(bytes[..n]) == BitsIn(bytes)[..8 * n]
  {
    hide BitOf;
    forall j | 0 <= j < 8 * n
      ensures BitAt(bytes[..n], j) == BitsIn(bytes)[..8 * n][j]
    {
    }
  }

  // ----- Numbers -------------------------------------------------------------------------------

  function Num(bit: bool): nat {
    if bit then 1 else 0
  }

  /** A number read most significant bit first. */
  function ValueOf(bits: seq<bool>): nat
    decreases |bits|
  {
    if bits == [] then 0 else 2 * ValueOf(bits[..|bits| - 1]) + Num(bits[|bits| - 1])
  }

  function Odd(v: nat): bool {
    v % 2 == 1
  }

  /** Shifting right, bit by bit. */
  function Shift(v: nat, k: nat): nat {
    if k == 0 then v else Shift(v / 2, k - 1)
  }

  /** The low `width` bits of a number, most significant first. */
  function BitsOf(value: nat, width: nat): (bits: seq<bool>)
    ensures |bits| == width
  {
    if width == 0 then [] else BitsOf(value / 2, width - 1) + [Odd(value)]
  }

  /** Shifting is dividing by a power of two. */
  lemma {:induction false} ShiftDivides(v: nat, k: nat)
    ensures Shift(v, k) == v / Pow2(k)
  {
    if k > 0 {
      ShiftDivides(v / 2, k - 1);
      HalfDivides(v, Pow2(k - 1));
    } else {
      assert v / 1 == v;
    }
  }

  lemma HalfDivides(v: nat, p: nat)
    requires p > 0
    ensures v / (2 * p) == v / 2 / p
  {
    var h := v / 2;
    var q, r := h / p, h % p;
    assert h == p * q + r && (2 * p) * q == 2 * (p * q);
    DivideBy(v, 2 * p, q, 2 * r + v % 2);
  }

  lemma DivideBy(v: nat, d: nat, q: nat, r: nat)
    requires d > 0 && r < d && v == d * q + r
    ensures v / d == q
  {
    var x := v / d;
    assert d * x + v % d == v;
    MulLe(d, x + 1, q);
    MulLe(d, q + 1, x);
  }

  lemma MulLe(d: nat, a: int, b: int)
    ensures a <= b ==> d * a <= d * b
  {
  }

  /** The bit `k` places from the left is the number shifted right by the places after it. */
  lemma {:induction false} BitsOfAt(v: nat, w: nat, k: nat)
    requires k < w
    ensures BitsOf(v, w)[k] == Odd(Shift(v, w - 1 - k))
  {
    if k < w - 1 {
      BitsOfAt(v / 2, w - 1, k);
    } else {
      assert Shift(v, 0) == v;
    }
  }

  lemma {:induction false} ValueOfBitsOf(v: nat, w: nat)
    requires v < Pow2(w)
    ensures ValueOf(BitsOf(v, w)) == v
  {
    if w > 0 {
      assert BitsOf(v, w)[..w - 1] == BitsOf(v / 2, w - 1);
      ValueOfBitsOf(v / 2, w - 1);
    }
  }

  lemma {:induction false} BitsOfValueOf(bits: seq<bool>)
    ensures ValueOf(bits) < Pow2(|bits|) && BitsOf(ValueOf(bits), |bits|) == bits
    decreases |bits|
  {
    if bits != [] {
      var n, front := |bits| - 1, bits[..|bits| - 1];
      BitsOfValueOf(front);
      assert bits == front + [bits[n]];
    }
  }

  lemma {:induction false} Pow2Grows(a: nat, b: nat)
    requires a < b
    ensures 2 * Pow2(a) <= Pow2(b)
    decreases b
  {
    if a + 1 < b {
      Pow2Grows(a, b - 1);
    }
  }

  lemma Pow2Of32()
    ensures Pow2(32) == 0x1_0000_0000
  {
    assert Pow2(8) == 256;
    assert Pow2(16) == 65536;
    assert Pow2(24) == 0x100_0000;
  }

  // ----- OR on numbers -------------------------------------------------------------------------

  /** Bit `j` of a number, from the least significant. */
  predicate HasBit(v: nat, j: nat) {
    Odd(Shift(v, j))
  }

  function Or(a: nat, b: nat): nat
    decreases a + b
  {
    if a == 0 then b
    else if b == 0 then a
    else 2 * Or(a / 2, b / 2) + Num(Odd(a) || Odd(b))
  }

  lemma HasBitStep(v: nat, j: nat)
    requires j > 0
    ensures HasBit(v, j) == HasBit(v / 2, j - 1)
  {
  }

  lemma HasBitZero(v: nat)
    ensures HasBit(v, 0) == Odd(v)
  {
    assert Shift(v, 0) == v;
  }

  lemma {:induction false} NoBitsInZero(j: nat)
    ensures !HasBit(0, j)
    decreases j
  {
    if j > 0 {
      HasBitStep(0, j);
      NoBitsInZero(j - 1);
    } else {
      HasBitZero(0);
    }
  }

  /** OR sets a bit exactly where one of the two has it. */
  lemma {:induction false} OrBits(a: nat, b: nat, j: nat)
    ensures HasBit(Or(a, b), j) == (HasBit(a, j) || HasBit(b, j))
    decreases a + b
  {
    hide HasBit;
    NoBitsInZero(j);
    if a != 0 && b != 0 {
      var r := Or(a, b);
      assert r / 2 == Or(a / 2, b / 2) && Odd(r) == (Odd(a) || Odd(b));
      if j > 0 {
        HasBitStep(r, j);
        HasBitStep(a, j);
        HasBitStep(b, j);
        OrBits(a / 2, b / 2, j - 1);
      } else {
        HasBitZero(r);
        HasBitZero(a);
        HasBitZero(b);
      }
    }
  }

  /** A power of two has one bit. */
  lemma {:induction false} Pow2Bit(k: nat, j: nat)
    ensures HasBit(Pow2(k), j) == (j == k)
    decreases k, j
  {
    hide HasBit;
    if j > 0 {
      HasBitStep(Pow2(k), j);
      if k > 0 {
        Pow2Bit(k - 1, j - 1);
      } else {
        NoBitsInZero(j - 1);
      }
    } else {
      HasBitZero(Pow2(k));
    }
  }

  /** Numbers that share no bits are ORed by adding. */
  lemma {:induction false} OrShifted(a: nat, b: nat, k: nat)
    requires b < Pow2(k)
    ensures Or(a * Pow2(k), b) == a * Pow2(k) + b
    decreases k
  {
    if a == 0 || b == 0 {
      assert a == 0 ==> a * Pow2(k) == 0;
      OrZero(a * Pow2(k), b);
    } else {
      var p := Pow2(k - 1);
      assert Pow2(k) == 2 * p;
      assert a * (2 * p) == 2 * (a * p);
      OrShifted(a, b / 2, k - 1);
      assert a * p > 0;
    }
  }

  lemma OrZero(a: nat, b: nat)
    ensures a == 0 || b == 0 ==> Or(a, b) == a + b
  {
  }

  /** The bits above the low `n` are those of the high part. */
  lemma {:induction false} HighBits(h: nat, l: nat, n: nat, k: nat)
    requires l < Pow2(n)
    ensures HasBit(h * Pow2(n) + l, n + k) == HasBit(h, k)
    decreases n
  {
    hide HasBit;
    if n > 0 {
      var p := Pow2(n - 1);
      var v := h * Pow2(n) + l;
      assert v == 2 * (h * p) + l;
      HasBitStep(v, n + k);
      HighBits(h, l / 2, n - 1, k);
    }
  }
}
