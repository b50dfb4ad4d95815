/*
 * Bit-level vocabulary shared by every builder and parser.
 *
 * Addresses, commands and checksums are C `uint32_t` values, modelled as
 * naturals below 2^32.  Every builder walks the bits of a value and tests
 * `value & (1 << i)` (here `Bit(value, i)`) to choose between the logic-1
 * and the logic-0 record; every parser rebuilds a value with
 * `acc |= (logic_value << i)` (here `Or(acc, ...)` with `Pow2(i)` for
 * `1 << i`).  The lemmas relate the two directions: what a parser loop
 * accumulates from the bits a builder loop emits is the original value
 * restricted to the bits that were sent.
 */
module IrBits {

  /** The C type `uint32_t`. */
  type U32 = x: nat | x < 0x1_0000_0000

  /** `1 << n`. */
  function Pow2(n: nat): (r: nat)
    ensures r >= 1
  {
    if n == 0 then 1 else 2 * Pow2(n - 1)
  }

  /** Bit i of x is set, that is, `x & (1 << i)` is nonzero. */
  predicate Bit(x: nat, i: nat)
  {
    if i == 0 then x % 2 == 1 else Bit(x / 2, i - 1)
  }

  /** Bitwise OR, the C operator `|` on unsigned values. */
  function Or(a: nat, b: nat): nat
    decreases a + b
  {
    if a == 0 then b
    else if b == 0 then a
    else (if a % 2 == 1 || b % 2 == 1 then 1 else 0) + 2 * Or(a / 2, b / 2)
  }

  /** The bits a builder emits for a least-significant-first loop `for i in 0 .. n-1`. */
  function LsbBits(x: nat, n: nat): seq<bool>
  {
    seq(n, k requires 0 <= k < n => Bit(x, k))
  }

  /** The bits a builder emits for a most-significant-first loop `for i in top down to top-n+1`. */
  function MsbBits(x: nat, top: nat, n: nat): seq<bool>
    requires n <= top + 1
  {
    seq(n, k requires 0 <= k < n => Bit(x, top - k))
  }

  /** Bitwise AND, the C operator `&` on unsigned values. */
  function And(a: nat, b: nat): nat
    decreases a + b
  {
    if a == 0 || b == 0 then 0
    else (if a % 2 == 1 && b % 2 == 1 then 1 else 0) + 2 * And(a / 2, b / 2)
  }

  /** Bitwise exclusive OR, the C operator `^` on unsigned values. */
  function Xor(a: nat, b: nat): nat
    decreases a + b
  {
    if a == 0 then b
    else if b == 0 then a
    else (if a % 2 != b % 2 then 1 else 0) + 2 * Xor(a / 2, b / 2)
  }

  /** The value whose bit k is the k-th element of bits, for every k. */
  function FromLsb(bits: seq<bool>): nat
    decreases |bits|
  {
    if |bits| == 0 then 0
    else
      var n := |bits| - 1;
      FromLsb(bits[..n]) + (if bits[n] then Pow2(n) else 0)
  }

  /** The value whose bit top-k is the k-th element of bits, for every k, and whose other bits are clear. */
  function FromMsb(bits: seq<bool>, top: nat): nat
    requires |bits| <= top + 1
    decreases |bits|
  {
    if |bits| == 0 then 0
    else
      var n := |bits| - 1;
      FromMsb(bits[..n], top) + (if bits[n] then Pow2(top - n) else 0)
  }

  // ---------------------------------------------------------------------
  // Division facts

  lemma ModUnique(y: int, p: int, q: int, s: int)
    requires p > 0 && y == p * q + s && 0 <= s < p
    ensures y / p == q && y % p == s
  {
    var d := y / p - q;
    assert p * d == s - y % p;
  }

  /** The remainder modulo 2p is the lowest bit plus twice the remainder of the upper bits modulo p. */
  lemma ModHalf(x: nat, p: nat)
    requires p > 0
    ensures x % (2 * p) == x % 2 + 2 * ((x / 2) % p)
  {
    var q := x / (2 * p);
    var r := x % (2 * p);
    var m := p * q;
    assert x == 2 * m + r;
    assert x / 2 == m + r / 2;
    ModUnique(x / 2, p, q, r / 2);
  }

  /** The low k+1 bits are the low k bits plus bit k. */
  lemma {:induction false} LowBitsStep(x: nat, k: nat)
    ensures x % Pow2(k + 1) == x % Pow2(k) + (if Bit(x, k) then Pow2(k) else 0)
  {
    if k > 0 {
      LowBitsStep(x / 2, k - 1);
      ModHalf(x, Pow2(k));
      ModHalf(x, Pow2(k - 1));
    }
  }

  // ---------------------------------------------------------------------
  // OR-ing a single bit into a value that does not have it is an addition

  lemma {:induction false} OrZero(a: nat)
    ensures Or(a, 0) == a
  {
  }

  lemma {:induction false} OrFreshBit(a: nat, k: nat)
    requires !Bit(a, k)
    ensures Or(a, Pow2(k)) == a + Pow2(k)
  {
    if k > 0 {
      OrFreshBit(a / 2, k - 1);
    }
  }

  lemma {:induction false} BelowHasNoBit(a: nat, k: nat)
    requires a < Pow2(k)
    ensures !Bit(a, k)
  {
    if k > 0 {
      BelowHasNoBit(a / 2, k - 1);
    }
  }

  lemma AlignedHasNoBit(a: nat, k: nat)
    requires a % Pow2(k + 1) == 0
    ensures !Bit(a, k)
  {
    LowBitsStep(a, k);
  }

  // ---------------------------------------------------------------------
  // What a parser loop accumulates

  lemma {:induction false} Pow2Mono(i: nat, j: nat)
    requires i <= j
    ensures Pow2(i) <= Pow2(j)
  {
    if i < j {
      Pow2Mono(i, j - 1);
    }
  }

  /** FromMsb(bits, top) sets no bit above top nor below top-|bits|+1. */
  lemma {:induction false} FromMsbBound(bits: seq<bool>, top: nat)
    requires |bits| <= top + 1
    ensures FromMsb(bits, top) <= Pow2(top + 1) - Pow2(top + 1 - |bits|)
  {
    if |bits| > 0 {
      var n := |bits| - 1;
      assert |bits[..n]| == n;
      FromMsbBound(bits[..n], top);
      assert Pow2(top + 1 - n) == 2 * Pow2(top - n);
    }
  }

  lemma {:induction false} FromLsbBound(bits: seq<bool>)
    ensures FromLsb(bits) < Pow2(|bits|)
  {
    if |bits| > 0 {
      FromLsbBound(bits[..|bits| - 1]);
    }
  }

  lemma MultipleStep(a: nat, p: nat, b: bool)
    requires p > 0 && a % (2 * p) == 0
    ensures (a + (if b then p else 0)) % p == 0
  {
    var q := a / (2 * p);
    assert a == p * (2 * q);
    if b {
      ModUnique(a + p, p, 2 * q + 1, 0);
    } else {
      ModUnique(a, p, 2 * q, 0);
    }
  }

  /** Only the bits top .. top-|bits|+1 can be set in FromMsb(bits, top). */
  lemma {:induction false} FromMsbAligned(bits: seq<bool>, top: nat)
    requires |bits| <= top + 1
    ensures FromMsb(bits, top) % Pow2(top + 1 - |bits|) == 0
  {
    if |bits| == 0 {
      ModUnique(0, Pow2(top + 1), 0, 0);
    } else {
      var n := |bits| - 1;
      var k := top - n;
      FromMsbAligned(bits[..n], top);
      assert |bits[..n]| == n && top + 1 - n == k + 1 && top + 1 - |bits| == k;
      assert Pow2(k + 1) == 2 * Pow2(k);
      MultipleStep(FromMsb(bits[..n], top), Pow2(k), bits[n]);
      assert FromMsb(bits, top) == FromMsb(bits[..n], top) + (if bits[n] then Pow2(k) else 0);
    }
  }

  /** One iteration of a least-significant-first parser loop: `acc |= bit << i`. */
  lemma LsbAccumulate(bits: seq<bool>, i: nat)
    requires i < |bits|
    ensures Or(FromLsb(bits[..i]), if bits[i] then Pow2(i) else 0) == FromLsb(bits[..i + 1])
  {
    assert bits[..i + 1][..i] == bits[..i];
    if bits[i] {
      FromLsbBound(bits[..i]);
      BelowHasNoBit(FromLsb(bits[..i]), i);
      OrFreshBit(FromLsb(bits[..i]), i);
    } else {
      OrZero(FromLsb(bits[..i]));
    }
  }

  /** One iteration of a most-significant-first parser loop: `acc |= bit << (top - i)`. */
  lemma MsbAccumulate(bits: seq<bool>, top: nat, i: nat)
    requires i < |bits| <= top + 1
    ensures Or(FromMsb(bits[..i], top), if bits[i] then Pow2(top - i) else 0) == FromMsb(bits[..i + 1], top)
  {
    assert bits[..i + 1][..i] == bits[..i];
    if bits[i] {
      FromMsbAligned(bits[..i], top);
      AlignedHasNoBit(FromMsb(bits[..i], top), top - i);
      OrFreshBit(FromMsb(bits[..i], top), top - i);
    } else {
      OrZero(FromMsb(bits[..i], top));
    }
  }

  // ---------------------------------------------------------------------
  // Round trips: what a parser loop recovers from what a builder loop emits

  /** Reading back n bits emitted least-significant first recovers the low n bits. */
  lemma {:induction false} LsbRoundTrip(x: nat, n: nat)
    ensures FromLsb(LsbBits(x, n)) == x % Pow2(n)
  {
    if n > 0 {
      assert LsbBits(x, n)[..n - 1] == LsbBits(x, n - 1);
      LsbRoundTrip(x, n - 1);
      LowBitsStep(x, n - 1);
    }
  }

  /** Reading back n bits emitted most-significant first from bit top recovers bits top .. top-n+1. */
  lemma {:induction false} MsbRoundTrip(x: nat, top: nat, n: nat)
    requires n <= top + 1
    ensures FromMsb(MsbBits(x, top, n), top) == x % Pow2(top + 1) - x % Pow2(top + 1 - n)
  {
    if n > 0 {
      assert MsbBits(x, top, n)[..n - 1] == MsbBits(x, top, n - 1);
      MsbRoundTrip(x, top, n - 1);
      LowBitsStep(x, top - (n - 1));
    }
  }

  /** A value below 2^k, k <= 32, is a `uint32_t`. */
  lemma BelowPow2IsU32(x: nat, k: nat)
    requires k <= 32 && x < Pow2(k)
    ensures x < 0x1_0000_0000
  {
    Pow2Mono(k, 32);
    Pow2Constants();
  }

  // ---------------------------------------------------------------------
  // Exclusive OR and all-ones masks

  /** Bit i of `a ^ b` is set exactly when bit i is set in one operand and not the other. */
  lemma {:induction false} XorBit(a: nat, b: nat, i: nat)
    ensures Bit(Xor(a, b), i) == (Bit(a, i) != Bit(b, i))
  {
    if a == 0 {
      BelowHasNoBit(0, i);
    } else if b == 0 {
      BelowHasNoBit(0, i);
    } else {
      var d := if a % 2 != b % 2 then 1 else 0;
      ModUnique(Xor(a, b), 2, Xor(a / 2, b / 2), d);
      if i > 0 {
        XorBit(a / 2, b / 2, i - 1);
      }
    }
  }

  /** XOR with `(1 << n) - 1` complements the low n bits and keeps the others. */
  lemma {:induction false} XorAllOnes(x: nat, n: nat)
    ensures Xor(x, Pow2(n) - 1) == x - x % Pow2(n) + (Pow2(n) - 1 - x % Pow2(n))
  {
    if n == 0 {
      assert Pow2(n) == 1 && x % Pow2(n) == 0;
    } else if x == 0 {
      ModUnique(0, Pow2(n), 0, 0);
    } else {
      XorAllOnes(x / 2, n - 1);
      XorAllOnesStep(x, n);
    }
  }

  /** The inductive step of `XorAllOnes`: from the low n - 1 bits of x / 2 to the low n bits of x. */
  lemma XorAllOnesStep(x: nat, n: nat)
    requires 0 < x && 0 < n
    requires Xor(x / 2, Pow2(n - 1) - 1) == x / 2 - (x / 2) % Pow2(n - 1) + (Pow2(n - 1) - 1 - (x / 2) % Pow2(n - 1))
    ensures Xor(x, Pow2(n) - 1) == x - x % Pow2(n) + (Pow2(n) - 1 - x % Pow2(n))
  {
    var half := Pow2(n - 1);
    assert Pow2(n) == 2 * half;
    XorOddStep(x, half);
    ModHalf(x, half);
    AllOnesStep(x, x / 2, x % 2, Pow2(n), half, (x / 2) % half, x % Pow2(n), Xor(x, Pow2(n) - 1), Xor(x / 2, half - 1));
  }

  /** One unfolding of XOR with the odd value `2 * half - 1`. */
  lemma XorOddStep(x: nat, half: nat)
    requires 0 < x && 0 < half
    ensures Xor(x, 2 * half - 1) == (if x % 2 != 1 then 1 else 0) + 2 * Xor(x / 2, half - 1)
  {
    ModUnique(2 * half - 1, 2, half - 1, 1);
  }

  /** The arithmetic that closes the inductive step of `XorAllOnes`, with every term named. */
  lemma AllOnesStep(x: int, q: int, e: int, p: int, half: int, r: int, m: int, v: int, w: int)
    requires p == 2 * half && x == 2 * q + e && (e == 0 || e == 1) && m == e + 2 * r
    requires v == (if e != 1 then 1 else 0) + 2 * w
    requires w == q - r + (half - 1 - r)
    ensures v == x - m + (p - 1 - m)
  {
  }

  /** The mask `(1 << n) - 1` has exactly the bits below n set. */
  lemma {:induction false} AllOnesBit(n: nat, i: nat)
    ensures Bit(Pow2(n) - 1, i) == (i < n)
  {
    if n == 0 {
      BelowHasNoBit(0, i);
    } else {
      var half := Pow2(n - 1);
      assert Pow2(n) - 1 == 2 * (half - 1) + 1;
      ModUnique(Pow2(n) - 1, 2, half - 1, 1);
      if i > 0 {
        AllOnesBit(n - 1, i - 1);
      }
    }
  }

  /** A loop accumulating n bits yields `(1 << n) - 1` exactly when every bit was set. */
  lemma {:induction false} FromLsbAllOnes(bits: seq<bool>)
    ensures FromLsb(bits) == Pow2(|bits|) - 1 <==> forall k :: 0 <= k < |bits| ==> bits[k]
  {
    if |bits| > 0 {
      var n := |bits| - 1;
      var init := bits[..n];
      FromLsbAllOnes(init);
      FromLsbBound(init);
      if bits[n] {
        assert (forall k :: 0 <= k < |bits| ==> bits[k]) <==> (forall k :: 0 <= k < n ==> init[k]);
      }
    }
  }

  lemma Pow2Constants()
    ensures Pow2(0) == 1 && Pow2(1) == 2 && Pow2(4) == 0x10 && Pow2(5) == 0x20
    ensures Pow2(7) == 0x80 && Pow2(8) == 0x100 && Pow2(12) == 0x1000 && Pow2(13) == 0x2000
    ensures Pow2(10) == 0x400 && Pow2(16) == 0x1_0000 && Pow2(24) == 0x100_0000 && Pow2(28) == 0x1000_0000
    ensures Pow2(32) == 0x1_0000_0000
  {
  }
}
