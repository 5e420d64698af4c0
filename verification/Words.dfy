/** Machine words of an arbitrary width `w`: naturals below `2^w`, with the bit operations
    defined bit by bit and related to arithmetic. */
module Words {
  function Pow2(k: nat): (p: nat)
    ensures p > 0
  {
    if k == 0 then 1 else 2 * Pow2(k - 1)
  }

  predicate IsWord(w: nat, x: nat) { x < Pow2(w) }

  function Max(w: nat): nat { Pow2(w) - 1 }

  function WrappingAdd(w: nat, a: nat, b: nat): (r: nat)
    ensures IsWord(w, r)
  {
    (a + b) % Pow2(w)
  }

  /** `1_usize.strict_shl(n)`, which panics unless the shift is less than the width. */
  function StrictShl(w: nat, n: nat): (r: nat)
    requires n < w
    ensures IsWord(w, r)
  {
    Pow2Monotone(n, w);
    Pow2(n)
  }

  function And(a: nat, b: nat): nat {
    if a == 0 || b == 0 then 0 else 2 * And(a / 2, b / 2) + (a % 2) * (b % 2)
  }

  function Or(a: nat, b: nat): nat
    decreases a + b
  {
    if a == 0 then b else if b == 0 then a
    else 2 * Or(a / 2, b / 2) + (if a % 2 + b % 2 == 0 then 0 else 1)
  }

  function Xor(a: nat, b: nat): nat
    decreases a + b
  {
    if a == 0 then b else if b == 0 then a
    else 2 * Xor(a / 2, b / 2) + (a + b) % 2
  }

  /** Every one of the `w` bits flipped. */
  function Not(w: nat, a: nat): nat {
    if w == 0 then 0 else 2 * Not(w - 1, a / 2) + 1 - a % 2
  }

  function CountOnes(a: nat): nat {
    if a == 0 then 0 else CountOnes(a / 2) + a % 2
  }

  function TrailingZeros(w: nat, a: nat): (n: nat)
    ensures n <= w
  {
    if w == 0 || a % 2 == 1 then 0 else 1 + TrailingZeros(w - 1, a / 2)
  }

  function LeadingOnes(w: nat, a: nat): (n: nat)
    requires IsWord(w, a)
    ensures n <= w
  {
    if w == 0 || a < Pow2(w - 1) then 0 else 1 + LeadingOnes(w - 1, a - Pow2(w - 1))
  }

  /** `usize::is_power_of_two`. */
  predicate IsPowerOfTwo(a: nat) { CountOnes(a) == 1 }

  // ---- Powers of two -----------------------------------------------------------

  lemma {:induction false} Pow2Monotone(i: nat, j: nat)
    ensures i < j <==> Pow2(i) < Pow2(j)
    ensures i <= j <==> Pow2(i) <= Pow2(j)
    decreases i + j
  {
    if i > 0 && j > 0 { Pow2Monotone(i - 1, j - 1); }
  }

  lemma {:induction false} Pow2Divides(i: nat, j: nat)
    requires i <= j
    ensures Pow2(j) % Pow2(i) == 0
  {
    if i > 0 {
      Pow2Divides(i - 1, j - 1);
      ModDouble(Pow2(j), Pow2(i - 1));
    }
  }

  /** The remainder by an even divisor, bit by bit. */
  lemma ModDouble(x: nat, d: nat)
    requires d > 0
    ensures x % (2 * d) == 2 * ((x / 2) % d) + x % 2
  {
    var q, r := x / 2 / d, x / 2 % d;
    assert x == 2 * (d * q + r) + x % 2;
    assert 2 * (d * q + r) == (2 * d) * q + 2 * r;
    DivisionIsUnique(x, 2 * d, q, 2 * r + x % 2);
  }

  lemma DivisionIsUnique(x: int, d: int, q: int, r: int)
    requires d > 0 && x == d * q + r && 0 <= r < d
    ensures x / d == q && x % d == r
  {
    var q' := x / d;
    MulDiff(d, q, q');
    if q > q' { MulAtLeast(d, q - q'); }
    if q < q' { MulAtLeast(d, q' - q); }
  }

  lemma MulDiff(d: int, a: int, b: int)
    ensures d * (a - b) == d * a - d * b && d * (b - a) == d * b - d * a
  {
  }

  lemma MulAtLeast(d: int, t: int)
    requires d > 0 && t >= 1
    ensures d * t >= d
  {
  }

  lemma {:induction false} PowerHasOneBit(k: nat)
    ensures IsPowerOfTwo(Pow2(k))
  {
    if k > 0 {
      PowerHasOneBit(k - 1);
      DoublingKeepsOnes(Pow2(k - 1));
    }
  }

  lemma DoublingKeepsOnes(a: nat)
    ensures CountOnes(2 * a) == CountOnes(a)
  {
    assert 2 * a / 2 == a && 2 * a % 2 == 0;
  }

  lemma {:induction false} OneBitIsPower(a: nat) returns (k: nat)
    requires IsPowerOfTwo(a)
    ensures a == Pow2(k)
  {
    if a == 1 {
      k := 0;
    } else {
      if a % 2 == 1 { NonzeroHasABit(a / 2); }
      var half := OneBitIsPower(a / 2);
      k := half + 1;
    }
  }

  lemma {:induction false} NonzeroHasABit(a: nat)
    requires a > 0
    ensures CountOnes(a) > 0
  {
    if a % 2 == 0 { NonzeroHasABit(a / 2); }
  }

  /** The powers of two are the numbers with a single one bit. */
  lemma PowersHaveOneBit(a: nat)
    ensures IsPowerOfTwo(a) <==> exists k: nat :: a == Pow2(k)
  {
    if IsPowerOfTwo(a) { var k := OneBitIsPower(a); }
    if k: nat :| a == Pow2(k) { PowerHasOneBit(k); }
  }

  // ---- Bit operations, bit by bit ------------------------------------------------

  /** Bit `k` of `a`, counted from the low end. */
  function Bit(a: nat, k: nat): nat { a / Pow2(k) % 2 }

  lemma BitOfHalf(a: nat, k: nat)
    requires k > 0
    ensures Bit(a, k) == Bit(a / 2, k - 1)
  {
    var d := Pow2(k - 1);
    var q, r := a / 2 / d, a / 2 % d;
    assert a == 2 * (d * q + r) + a % 2;
    assert 2 * (d * q + r) == (2 * d) * q + 2 * r;
    DivisionIsUnique(a, 2 * d, q, 2 * r + a % 2);
  }

  lemma ZeroHasNoBits(k: nat)
    ensures Bit(0, k) == 0
  {
  }

  lemma {:induction false} BitsOfAnd(a: nat, b: nat, k: nat)
    ensures Bit(And(a, b), k) == 1 <==> Bit(a, k) == 1 && Bit(b, k) == 1
    decreases k
  {
    ZeroHasNoBits(k);
    if a > 0 && b > 0 {
      var r := And(a, b);
      assert (a % 2) * (b % 2) == if a % 2 == 1 && b % 2 == 1 then 1 else 0;
      assert r / 2 == And(a / 2, b / 2) && r % 2 == (a % 2) * (b % 2);
      if k > 0 {
        hide And, Bit;
        BitOfHalf(a, k);
        BitOfHalf(b, k);
        BitOfHalf(r, k);
        BitsOfAnd(a / 2, b / 2, k - 1);
      }
    }
  }

  lemma {:induction false} BitsOfOr(a: nat, b: nat, k: nat)
    ensures Bit(Or(a, b), k) == 1 <==> Bit(a, k) == 1 || Bit(b, k) == 1
    decreases k
  {
    ZeroHasNoBits(k);
    if a > 0 && b > 0 {
      var r := Or(a, b);
      assert r / 2 == Or(a / 2, b / 2) && r % 2 == if a % 2 + b % 2 == 0 then 0 else 1;
      if k > 0 {
        hide Or, Bit;
        BitOfHalf(a, k);
        BitOfHalf(b, k);
        BitOfHalf(r, k);
        BitsOfOr(a / 2, b / 2, k - 1);
      }
    }
  }

  lemma XorHalves(a: nat, b: nat)
    requires a > 0 && b > 0
    ensures Xor(a, b) / 2 == Xor(a / 2, b / 2)
    ensures Bit(Xor(a, b), 0) == 1 <==> Bit(a, 0) != Bit(b, 0)
  {
    var x := Xor(a / 2, b / 2);
    assert Xor(a, b) == 2 * x + (a + b) % 2;
    hide Xor;
    LowestBit(a);
    LowestBit(b);
    LowestBit(2 * x + (a + b) % 2);
    ParityOfSum(a, b);
  }

  lemma LowestBit(a: nat)
    ensures Bit(a, 0) == a % 2
  {
  }

  lemma ParityOfSum(a: nat, b: nat)
    ensures (a + b) % 2 == if a % 2 == b % 2 then 0 else 1
  {
  }

  lemma {:induction false} BitsOfXor(a: nat, b: nat, k: nat)
    ensures Bit(Xor(a, b), k) == 1 <==> Bit(a, k) != Bit(b, k)
    decreases k
  {
    if a == 0 || b == 0 {
      XorZero(a, b);
      ZeroHasNoBits(k);
    } else {
      hide Xor, Bit;
      XorHalves(a, b);
      if k > 0 {
        BitOfHalf(a, k);
        BitOfHalf(b, k);
        BitOfHalf(Xor(a, b), k);
        BitsOfXor(a / 2, b / 2, k - 1);
      }
    }
  }

  lemma {:induction false} BitsOfNot(w: nat, a: nat, k: nat)
    ensures Bit(Not(w, a), k) == 1 <==> k < w && Bit(a, k) == 0
    decreases k
  {
    ZeroHasNoBits(k);
    if w > 0 {
      var r := Not(w, a);
      assert r / 2 == Not(w - 1, a / 2) && r % 2 == 1 - a % 2;
      if k > 0 {
        hide Not, Bit;
        BitOfHalf(a, k);
        BitOfHalf(r, k);
        BitsOfNot(w - 1, a / 2, k - 1);
      }
    }
  }

  // ---- Bit operations as arithmetic ----------------------------------------------

  lemma {:induction false} NotIsComplement(w: nat, a: nat)
    requires IsWord(w, a)
    ensures Not(w, a) == Max(w) - a
  {
    if w > 0 { NotIsComplement(w - 1, a / 2); }
  }

  lemma {:induction false} AndAllOnes(w: nat, x: nat)
    requires IsWord(w, x)
    ensures And(x, Max(w)) == x
  {
    if x > 0 {
      assert Max(w) / 2 == Max(w - 1) && Max(w) % 2 == 1;
      AndAllOnes(w - 1, x / 2);
    }
  }

  /** Ones in all positions from `k` up: the masks of the alignments. */
  function HighOnes(w: nat, k: nat): (m: nat)
    requires k <= w
    ensures IsWord(w, m) && m + Pow2(k) == Pow2(w)
  {
    Pow2Monotone(k, w);
    Pow2(w) - Pow2(k)
  }

  /** Masking with ones down to bit `k` rounds down to a multiple of `2^k`. */
  lemma {:induction false} AndHighOnes(w: nat, k: nat, x: nat)
    requires k <= w && IsWord(w, x)
    ensures And(x, HighOnes(w, k)) == x - x % Pow2(k)
  {
    if k == 0 {
      AndAllOnes(w, x);
    } else {
      AndHighOnes(w - 1, k - 1, x / 2);
      ModDouble(x, Pow2(k - 1));
      var m := HighOnes(w, k);
      assert m == 2 * HighOnes(w - 1, k - 1);
      if x > 0 && m > 0 {
        assert And(x, m) == 2 * And(x / 2, m / 2);
      }
    }
  }

  /** Bits are either in both, or in one of the two. */
  lemma {:induction false} OrIsSumWithoutAnd(a: nat, b: nat)
    ensures Or(a, b) + And(a, b) == a + b
    decreases a + b
  {
    if a > 0 && b > 0 {
      OrIsSumWithoutAnd(a / 2, b / 2);
      assert (a % 2) * (b % 2) == if a % 2 == 1 && b % 2 == 1 then 1 else 0;
    }
  }

  /** Where the low `k` bits of `x` are zero, flipping them adds `2^k - 1`. */
  lemma {:induction false} XorLowZeros(k: nat, x: nat)
    requires x % Pow2(k) == 0
    ensures Xor(x, Pow2(k) - 1) == x + Pow2(k) - 1
  {
    if k > 0 && x > 0 {
      hide Xor;
      var half := x / 2;
      EvenHalf(x, Pow2(k - 1));
      XorLowZeros(k - 1, half);
      XorOdd(half, Pow2(k - 1) - 1);
    } else {
      XorZero(x, Pow2(k) - 1);
    }
  }

  lemma EvenHalf(x: nat, d: nat)
    requires d > 0 && x % (2 * d) == 0
    ensures x == 2 * (x / 2) && x / 2 % d == 0
  {
    ModDouble(x, d);
  }

  lemma XorZero(a: nat, b: nat)
    ensures Xor(0, b) == b && Xor(a, 0) == a
  {
  }

  lemma XorOdd(a: nat, b: nat)
    requires a > 0
    ensures Xor(2 * a, 2 * b + 1) == 2 * Xor(a, b) + 1
  {
    var x, y := 2 * a, 2 * b + 1;
    assert x / 2 == a && y / 2 == b && (x + y) % 2 == 1;
  }

  // ---- Counting bits from the ends -------------------------------------------------

  /** `TrailingZeros` is the exponent of the largest power of two that divides `x`. */
  lemma {:induction false} TrailingZerosDivide(w: nat, x: nat, k: nat)
    requires 0 < x && IsWord(w, x)
    ensures TrailingZeros(w, x) < w
    ensures x % Pow2(k) == 0 <==> k <= TrailingZeros(w, x)
  {
    if k > 0 { ModDouble(x, Pow2(k - 1)); }
    if x % 2 == 0 {
      if k > 0 {
        TrailingZerosDivide(w - 1, x / 2, k - 1);
      } else {
        TrailingZerosDivide(w - 1, x / 2, 0);
      }
    }
  }

  lemma {:induction false} LeadingOnesBound(w: nat, x: nat, n: nat)
    requires IsWord(w, x) && n <= w
    ensures n <= LeadingOnes(w, x) <==> x >= Pow2(w) - Pow2(w - n)
  {
    if n > 0 {
      if x >= Pow2(w - 1) {
        LeadingOnesBound(w - 1, x - Pow2(w - 1), n - 1);
      } else {
        Pow2Monotone(w - n, w - 1);
      }
    }
  }
}
