/** `Align` and `Mask`, for machine words of any width `w`. An alignment or a mask is the
    word it is represented by; what the Rust code asserts, unwraps or promises to an
    unchecked constructor is an assertion or a precondition here. */
module Layouts {
  import opened Wrappers
  import opened Words

  // ---- layout_private ----------------------------------------------------------

  datatype Ordering = Less | Equal | Greater

  predicate HasHole(w: nat, value: nat)
    requires IsWord(w, value)
  {
    LeadingOnes(w, value) + TrailingZeros(w, value) != w
  }

  function Compare(lhs: nat, rhs: nat): (o: Ordering)
    ensures (o.Less? <==> lhs < rhs) && (o.Greater? <==> lhs > rhs)
  {
    if lhs > rhs then Greater else if lhs < rhs then Less else Equal
  }

  function MinWord(a: nat, b: nat): nat {
    match Compare(b, a)
    case Less => b
    case _ => a
  }

  function MaxWord(a: nat, b: nat): nat {
    match Compare(b, a)
    case Less => a
    case _ => b
  }

  function ClampWord(value: nat, min: nat, max: nat): Option<nat> {
    if min <= max then
      if value < min then Some(min) else if value > max then Some(max) else Some(value)
    else
      None
  }

  /** `r` is the point between `min` and `max` that is nearest to `x`. */
  predicate IsNearest(x: nat, min: nat, max: nat, r: nat) {
    min <= r <= max && (r < x ==> r == max) && (r > x ==> r == min)
  }

  /** The values of the enumerations `AlignRepr` and `MaskRepr`. */
  function AlignRepr(index: nat): nat { Pow2(index) }

  function MaskRepr(w: nat, index: nat): nat
    requires index < w
  {
    Not(w, AlignRepr(index) - 1)
  }

  ghost predicate IsAlign(w: nat, a: nat) {
    exists index: nat :: index < w && a == AlignRepr(index)
  }

  ghost predicate IsMask(w: nat, m: nat) {
    exists index: nat :: index < w && m == MaskRepr(w, index)
  }

  /** The index of an alignment; it is the base-two logarithm. */
  ghost function IndexOf(w: nat, a: nat): (index: nat)
    requires IsAlign(w, a)
    ensures index < w && a == Pow2(index) && a < Pow2(w)
  {
    var index: nat :| index < w && a == AlignRepr(index);
    Pow2Monotone(index, w);
    index
  }

  lemma MaskReprIsHighOnes(w: nat, index: nat)
    requires index < w
    ensures MaskRepr(w, index) == HighOnes(w, index)
  {
    Pow2Monotone(index, w);
    NotIsComplement(w, Pow2(index) - 1);
  }

  // ---- Align ---------------------------------------------------------------------

  lemma AlignsArePowers(w: nat, x: nat)
    requires IsWord(w, x)
    ensures IsAlign(w, x) <==> IsPowerOfTwo(x)
  {
    PowersHaveOneBit(x);
    if k: nat :| x == Pow2(k) {
      Pow2Monotone(k, w);
      assert x == AlignRepr(k);
    }
    if k: nat :| k < w && x == AlignRepr(k) {
      assert x == Pow2(k);
    }
  }

  /** `Align::new`. */
  function AlignNew(w: nat, align: nat): (r: Option<nat>)
    requires IsWord(w, align)
    ensures r == if IsAlign(w, align) then Some(align) else None
  {
    AlignsArePowers(w, align);
    if IsPowerOfTwo(align) then Some(align) else None
  }

  /** `Align::from_addr_nonzero`: the largest alignment of a nonzero address. */
  function FromAddrNonzero(w: nat, addr: nat): (a: nat)
    requires IsWord(w, addr) && addr > 0
    ensures IsAlign(w, a)
    ensures addr % a == 0
    ensures forall b: nat :: IsAlign(w, b) && addr % b == 0 ==> b <= a
  {
    var n := TrailingZeros(w, addr);
    TrailingZerosDivide(w, addr, n);
    assert IsAlign(w, AlignRepr(n));
    assert forall b: nat :: IsAlign(w, b) && addr % b == 0 ==> b <= Pow2(n) by {
      forall b: nat | IsAlign(w, b) && addr % b == 0 ensures b <= Pow2(n) {
        TrailingZerosDivide(w, addr, IndexOf(w, b));
        Pow2Monotone(IndexOf(w, b), n);
      }
    }
    AlignNew(w, StrictShl(w, n)).value
  }

  /** `Align::from_addr`. */
  function FromAddr(w: nat, addr: nat): (r: Option<nat>)
    requires IsWord(w, addr)
    ensures r.None? <==> addr == 0
    ensures r.Some? ==> IsAlign(w, r.value) && addr % r.value == 0
    ensures r.Some? ==> forall b: nat :: IsAlign(w, b) && addr % b == 0 ==> b <= r.value
  {
    if addr == 0 then None else Some(FromAddrNonzero(w, addr))
  }

  lemma {:induction false} PowerTrailingZeros(w: nat, k: nat)
    requires k < w
    ensures TrailingZeros(w, Pow2(k)) == k
  {
    if k > 0 { PowerTrailingZeros(w - 1, k - 1); }
  }

  /** `Align::log2`. */
  function Log2(w: nat, a: nat): (n: nat)
    requires IsAlign(w, a)
    ensures n < w && Pow2(n) == a
  {
    PowerTrailingZeros(w, IndexOf(w, a));
    TrailingZeros(w, a)
  }

  /** `Mask::from_align`, which is also `Align::mask`. */
  function FromAlign(w: nat, a: nat): (m: nat)
    requires IsAlign(w, a)
    ensures IsMask(w, m) && IsWord(w, m) && m + a == Pow2(w)
  {
    var k := IndexOf(w, a);
    assert Not(w, a - 1) == MaskRepr(w, k);
    MaskReprIsHighOnes(w, k);
    Not(w, a - 1)
  }

  /** Masking with an alignment's mask rounds down to a multiple of it. */
  lemma MaskRoundsDown(w: nat, a: nat, x: nat)
    requires IsAlign(w, a) && IsWord(w, x)
    ensures And(x, FromAlign(w, a)) == x - x % a
  {
    AndHighOnes(w, IndexOf(w, a), x);
  }

  /** `Align::round_up_size`. The word is masked after an addition that may wrap. */
  function RoundUpSize(w: nat, a: nat, size: nat): (r: Option<nat>)
    requires IsAlign(w, a) && IsWord(w, size)
    ensures r.Some? <==> 0 < size <= Pow2(w) - a
    ensures r.Some? ==> IsWord(w, r.value) && IsLeastMultiple(a, size, r.value)
  {
    var newSize := And(WrappingAdd(w, size, a - 1), FromAlign(w, a));
    RoundingIsExact(w, a, size);
    // assert!(new_size.is_multiple_of(self.get()))
    assert newSize % a == 0;
    if newSize == 0 then None else Some(newSize)
  }

  /** `r` is the smallest multiple of `a` that is not below `size`. */
  ghost predicate IsLeastMultiple(a: nat, size: nat, r: nat)
    requires a > 0
  {
    r % a == 0 && r >= size && forall q: nat :: q % a == 0 && q >= size ==> r <= q
  }

  lemma MultiplesApart(a: nat, q: nat, r: nat)
    requires a > 0 && q % a == 0 && r % a == 0 && q < r
    ensures q + a <= r
  {
    var i, j := q / a, r / a;
    assert q == a * i && r == a * j;
    MulDiff(a, j, i);
    if j <= i { if i > j { MulAtLeast(a, i - j); } } else { MulAtLeast(a, j - i); }
  }

  lemma SubtractRemainder(x: nat, a: nat)
    requires a > 0
    ensures x % a <= x && (x - x % a) % a == 0
  {
    DivisionIsUnique(x - x % a, a, x / a, 0);
  }

  lemma RoundingStep(w: nat, a: nat, size: nat)
    requires IsAlign(w, a) && IsWord(w, size)
    ensures var sum := size + a - 1;
            var newSize := And(WrappingAdd(w, size, a - 1), FromAlign(w, a));
            && newSize % a == 0
            && (sum >= Pow2(w) ==> newSize == 0)
            && (sum < Pow2(w) ==> newSize == sum - sum % a)
  {
    var k := IndexOf(w, a);
    var sum := size + a - 1;
    var wrapped := WrappingAdd(w, size, a - 1);
    MaskRoundsDown(w, a, wrapped);
    SubtractRemainder(wrapped, a);
    if sum >= Pow2(w) {
      DivisionIsUnique(sum, Pow2(w), 1, sum - Pow2(w));
      DivisionIsUnique(wrapped, a, 0, wrapped);
    } else {
      DivisionIsUnique(sum, Pow2(w), 0, sum);
    }
  }

  lemma RoundDownIsLeast(a: nat, size: nat)
    requires a > 0 && size > 0
    ensures var sum := size + a - 1; sum % a <= sum && IsLeastMultiple(a, size, sum - sum % a)
  {
    var sum := size + a - 1;
    SubtractRemainder(sum, a);
    var r: nat := sum - sum % a;
    forall q: nat | q % a == 0 && q >= size ensures r <= q {
      if q < r { MultiplesApart(a, q, r); }
    }
  }

  /** Zero if the size is zero or the sum wraps, and the least multiple otherwise. */
  lemma RoundingIsExact(w: nat, a: nat, size: nat)
    requires IsAlign(w, a) && IsWord(w, size)
    ensures var newSize := And(WrappingAdd(w, size, a - 1), FromAlign(w, a));
            && newSize % a == 0
            && (newSize > 0 <==> 0 < size <= Pow2(w) - a)
            && (newSize > 0 ==> IsWord(w, newSize) && IsLeastMultiple(a, size, newSize))
  {
    RoundingStep(w, a, size);
    if size == 0 {
      DivisionIsUnique(a - 1, a, 0, a - 1);
    } else {
      RoundDownIsLeast(a, size);
    }
  }

  /** `Align::max_size`. */
  function MaxSize(w: nat, a: nat): (n: nat)
    requires IsAlign(w, a)
    ensures n + a == Pow2(w - 1)
  {
    Pow2Monotone(IndexOf(w, a), w - 1);
    AlignRepr(w - 1) - a
  }

  function AlignMin(w: nat, a: nat, b: nat): (r: nat)
    requires IsAlign(w, a) && IsAlign(w, b)
    ensures IsAlign(w, r) && r <= a && r <= b && r in {a, b}
  {
    MinWord(a, b)
  }

  function AlignMax(w: nat, a: nat, b: nat): (r: nat)
    requires IsAlign(w, a) && IsAlign(w, b)
    ensures IsAlign(w, r) && r >= a && r >= b && r in {a, b}
  {
    MaxWord(a, b)
  }

  function AlignClamp(w: nat, a: nat, min: nat, max: nat): (r: Option<nat>)
    requires IsAlign(w, a) && IsAlign(w, min) && IsAlign(w, max)
    ensures r.Some? <==> min <= max
    ensures r.Some? ==> IsAlign(w, r.value) && IsNearest(a, min, max, r.value)
  {
    ClampWord(a, min, max)
  }

  // ---- Mask ------------------------------------------------------------------------

  /** `Mask::from_nonzero`, with the XOR test. */
  function FromNonzero(w: nat, mask: nat): (r: Option<nat>)
    requires IsWord(w, mask) && mask > 0
    ensures r == if IsMask(w, mask) then Some(mask) else None
  {
    TrailingZerosDivide(w, mask, 0);
    var trailingZerosMask := StrictShl(w, TrailingZeros(w, mask)) - 1;
    XorTest(w, mask);
    if Xor(mask, trailingZerosMask) == Max(w) then
      // unsafe { Align::new_unchecked((!mask).unchecked_add(1)) }
      assert Not(w, mask) + 1 < Pow2(w) && IsAlign(w, Not(w, mask) + 1) by { MaskToAlign(w, mask); }
      Some(mask)
    else
      None
  }

  /** `Mask::new`. */
  function MaskNew(w: nat, mask: nat): (r: Option<nat>)
    requires IsWord(w, mask)
    ensures r == if IsMask(w, mask) then Some(mask) else None
  {
    assert IsMask(w, mask) ==> mask > 0 by { if IsMask(w, mask) { MaskToAlign(w, mask); } }
    if mask == 0 then None else FromNonzero(w, mask)
  }

  /** `Mask::align`: the addition does not overflow and the unwrap does not fail. */
  function MaskAlign(w: nat, mask: nat): (a: nat)
    requires IsMask(w, mask)
    ensures IsAlign(w, a) && a + mask == Pow2(w)
  {
    MaskToAlign(w, mask);
    AlignNew(w, Not(w, mask) + 1).value
  }

  lemma MaskToAlign(w: nat, mask: nat)
    requires IsMask(w, mask)
    ensures 0 < mask && IsWord(w, mask)
    ensures Not(w, mask) + 1 < Pow2(w) && IsAlign(w, Not(w, mask) + 1) && Not(w, mask) + 1 + mask == Pow2(w)
  {
    var k: nat :| k < w && mask == MaskRepr(w, k);
    MaskReprIsHighOnes(w, k);
    Pow2Monotone(k, w);
    NotIsComplement(w, mask);
    assert Not(w, mask) + 1 == AlignRepr(k);
  }

  /** The XOR test accepts exactly the masks. */
  lemma XorTest(w: nat, m: nat)
    requires IsWord(w, m) && m > 0
    ensures Xor(m, Pow2(TrailingZeros(w, m)) - 1) == Max(w) <==> IsMask(w, m)
  {
    var t := TrailingZeros(w, m);
    TrailingZerosDivide(w, m, t);
    XorLowZeros(t, m);
    MaskReprIsHighOnes(w, t);
    if k: nat :| k < w && m == MaskRepr(w, k) {
      MaskReprIsHighOnes(w, k);
      HighOnesTrailing(w, k);
    }
  }

  lemma HighOnesTrailing(w: nat, k: nat)
    requires k < w
    ensures 0 < HighOnes(w, k) && TrailingZeros(w, HighOnes(w, k)) == k
  {
    var m := HighOnes(w, k);
    Pow2Monotone(k, w);
    OnlyBits(w, k, k);
    OnlyBits(w, k, k + 1);
    TrailingZerosDivide(w, m, k);
    TrailingZerosDivide(w, m, k + 1);
  }

  /** `2^w - 2^k` is divisible by `2^j` just when `j <= k`. */
  lemma {:induction false} OnlyBits(w: nat, k: nat, j: nat)
    requires k < w
    ensures HighOnes(w, k) % Pow2(j) == 0 <==> j <= k
  {
    var m := HighOnes(w, k);
    if j > 0 {
      ModDouble(m, Pow2(j - 1));
      if k > 0 {
        OnlyBits(w - 1, k - 1, j - 1);
        assert m == 2 * HighOnes(w - 1, k - 1);
      } else {
        assert m % 2 == 1;
      }
    }
  }

  /** The test with leading ones and trailing zeros accepts zero and exactly the masks. */
  lemma HoleTest(w: nat, m: nat)
    requires IsWord(w, m) && m > 0
    ensures !HasHole(w, m) <==> IsMask(w, m)
  {
    var t := TrailingZeros(w, m);
    TrailingZerosDivide(w, m, t);
    MaskReprIsHighOnes(w, t);
    LeadingOnesBound(w, m, w - t);
    if t > 0 { Pow2Divides(t, w); }
    if m > HighOnes(w, t) {
      Pow2Divides(t, w);
      MultiplesApart(Pow2(t), m, Pow2(w));
    }
    if k: nat :| k < w && m == MaskRepr(w, k) {
      MaskReprIsHighOnes(w, k);
      HighOnesTrailing(w, k);
      LeadingOnesBound(w, m, w - k);
      if k > 0 {
        LeadingOnesBound(w, m, w - k + 1);
        Pow2Monotone(k - 1, k);
      }
    }
  }

  function MaskMin(w: nat, a: nat, b: nat): (r: nat)
    requires IsMask(w, a) && IsMask(w, b)
    ensures IsMask(w, r) && r <= a && r <= b && r in {a, b}
  {
    MinWord(a, b)
  }

  function MaskMax(w: nat, a: nat, b: nat): (r: nat)
    requires IsMask(w, a) && IsMask(w, b)
    ensures IsMask(w, r) && r >= a && r >= b && r in {a, b}
  {
    MaxWord(a, b)
  }

  function MaskClamp(w: nat, m: nat, min: nat, max: nat): (r: Option<nat>)
    requires IsMask(w, m) && IsMask(w, min) && IsMask(w, max)
    ensures r.Some? <==> min <= max
    ensures r.Some? ==> IsMask(w, r.value) && IsNearest(m, min, max, r.value)
  {
    ClampWord(m, min, max)
  }

  // ---- What the two types promise ----------------------------------------------------

  lemma MasksAreHighOnes(w: nat, m: nat)
    ensures IsMask(w, m) <==> exists k: nat :: k < w && m == Pow2(w) - Pow2(k)
  {
    hide MaskRepr, Pow2, Not;
    if IsMask(w, m) {
      var k: nat :| k < w && m == MaskRepr(w, k);
      MaskReprIsHighOnes(w, k);
      assert m == Pow2(w) - Pow2(k);
    }
    if k: nat :| k < w && m == Pow2(w) - Pow2(k) {
      MaskReprIsHighOnes(w, k);
      assert m == MaskRepr(w, k);
    }
  }

  /** `Mask::new` accepts exactly the words `2^w - 2^k`, which are the values of `MaskRepr`,
      and the nonzero words without a hole. */
  lemma MaskNewAccepts(w: nat, m: nat)
    requires IsWord(w, m)
    ensures MaskNew(w, m).Some? <==> exists k: nat :: k < w && m == Pow2(w) - Pow2(k)
    ensures MaskNew(w, m).Some? <==> m != 0 && !HasHole(w, m)
    ensures MaskNew(w, m).Some? <==> IsMask(w, m)
    ensures MaskNew(w, m).Some? ==> Not(w, m) + 1 < Pow2(w) && IsPowerOfTwo(Not(w, m) + 1)
  {
    hide MaskNew, IsMask, HasHole, Not, CountOnes;
    MasksAreHighOnes(w, m);
    if m > 0 { HoleTest(w, m); }
    if IsMask(w, m) {
      MaskToAlign(w, m);
      AlignsArePowers(w, Not(w, m) + 1);
    }
  }

  /** The documented validity check, that leading ones and trailing zeros add up to the
      width, lets exactly one more word through: zero. */
  lemma DocumentedCheckAlsoAcceptsZero(w: nat, m: nat)
    requires IsWord(w, m)
    ensures LeadingOnes(w, m) + TrailingZeros(w, m) == w <==> IsMask(w, m) || m == 0
  {
    if m > 0 { HoleTest(w, m); } else { ZeroIsAllTrailing(w); }
  }

  lemma {:induction false} ZeroIsAllTrailing(w: nat)
    ensures LeadingOnes(w, 0) == 0 && TrailingZeros(w, 0) == w
  {
    if w > 0 { ZeroIsAllTrailing(w - 1); }
  }

  /** `from_align` and `align` are inverse to each other and reverse the order. */
  lemma AlignsAndMasksCorrespond(w: nat, a: nat, b: nat, m: nat)
    requires IsAlign(w, a) && IsAlign(w, b) && IsMask(w, m)
    ensures MaskAlign(w, FromAlign(w, a)) == a
    ensures FromAlign(w, MaskAlign(w, m)) == m
    ensures a <= b <==> FromAlign(w, a) >= FromAlign(w, b)
  {
  }

  /** What lies `c` below a multiple of `b`. */
  lemma BelowMultiple(x: nat, b: nat, c: nat)
    requires b > 0 && x % b == 0 && 0 < c <= b <= x
    ensures (x - c) % b == if c == b then 0 else b - c
  {
    var q := x / b;
    MulDiff(b, q, 1);
    if c == b { DivisionIsUnique(x - c, b, q - 1, 0); } else { DivisionIsUnique(x - c, b, q - 1, b - c); }
  }

  lemma AndOfMasks(w: nat, a: nat, b: nat)
    requires IsAlign(w, a) && IsAlign(w, b)
    ensures And(FromAlign(w, a), FromAlign(w, b)) == FromAlign(w, if a <= b then b else a)
  {
    var m := FromAlign(w, a);
    var i, j := IndexOf(w, a), IndexOf(w, b);
    MaskRoundsDown(w, b, m);
    Pow2Monotone(i, j);
    Pow2Divides(j, w);
    if a <= b {
      BelowMultiple(Pow2(w), b, a);
    } else {
      SmallerAlignDivides(w, b, a, 0);
      SmallerAlignDivides(w, b, a, m);
    }
  }

  /** The correspondence turns minima into maxima, and these are bitwise AND and OR. */
  lemma MinAndMaxCorrespond(w: nat, a: nat, b: nat)
    requires IsAlign(w, a) && IsAlign(w, b)
    ensures var m, n := FromAlign(w, a), FromAlign(w, b);
            && FromAlign(w, AlignMin(w, a, b)) == MaskMax(w, m, n) == Or(m, n)
            && FromAlign(w, AlignMax(w, a, b)) == MaskMin(w, m, n) == And(m, n)
  {
    AndOfMasks(w, a, b);
    OrIsSumWithoutAnd(FromAlign(w, a), FromAlign(w, b));
  }

  lemma ClampCorresponds(w: nat, a: nat, lo: nat, hi: nat)
    requires IsAlign(w, a) && IsAlign(w, lo) && IsAlign(w, hi)
    ensures var r := AlignClamp(w, a, lo, hi);
            MaskClamp(w, FromAlign(w, a), FromAlign(w, hi), FromAlign(w, lo))
            == if r.None? then None else Some(FromAlign(w, r.value))
  {
    AlignsAndMasksCorrespond(w, lo, hi, FromAlign(w, a));
    AlignsAndMasksCorrespond(w, a, lo, FromAlign(w, a));
    AlignsAndMasksCorrespond(w, a, hi, FromAlign(w, a));
  }

  /** An address is aligned to `a` in three equivalent ways. */
  lemma AlignedThreeWays(w: nat, addr: nat, a: nat)
    requires IsWord(w, addr) && addr > 0 && IsAlign(w, a)
    ensures FromAddr(w, addr).Some? && (a <= FromAddr(w, addr).value <==> addr % a == 0)
    ensures addr % a == 0 <==> And(addr, FromAlign(w, a)) == addr
    ensures IsWord(w, a) && FromAddr(w, a) == Some(a)
  {
    MaskRoundsDown(w, a, addr);
    var g := FromAddr(w, addr).value;
    if a <= g { SmallerAlignDivides(w, a, g, addr); }
    var own := IndexOf(w, a);
    var found := FromAddrNonzero(w, a);
    assert a % a == 0;
    assert a <= found;
    assert a % found == 0;
    if a < found { DivisionIsUnique(a, found, 0, a); }
  }

  /** Rounding up to `b` directly, or to a smaller alignment first, is the same. */
  function RoundUpTwice(w: nat, a: nat, b: nat, size: nat): Option<nat>
    requires IsAlign(w, a) && IsAlign(w, b) && IsWord(w, size)
  {
    match RoundUpSize(w, a, size)
    case None => None
    case Some(r) => RoundUpSize(w, b, r)
  }

  lemma SmallerAlignDivides(w: nat, a: nat, b: nat, q: nat)
    requires IsAlign(w, a) && IsAlign(w, b) && a <= b && q % b == 0
    ensures q % a == 0 && b % a == 0 && (Pow2(w) - b) % b == 0
  {
    var i, j := IndexOf(w, a), IndexOf(w, b);
    Pow2Monotone(i, j);
    Pow2Divides(i, j);
    MultipleOfMultiple(a, b, q);
    Pow2Divides(j, w);
    BelowMultiple(Pow2(w), b, b);
  }

  lemma MultipleOfMultiple(a: nat, b: nat, q: nat)
    requires a > 0 && b > 0 && b % a == 0 && q % b == 0
    ensures q % a == 0
  {
    var i, j := b / a, q / b;
    assert b == a * i && q == b * j;
    assert q == a * (i * j) by { assert (a * i) * j == a * (i * j); }
    DivisionIsUnique(q, a, i * j, 0);
  }

  lemma LeastIsUnique(a: nat, size: nat, r: nat, r': nat)
    requires a > 0 && IsLeastMultiple(a, size, r) && IsLeastMultiple(a, size, r')
    ensures r == r'
  {
  }

  lemma LeastThroughLeast(w: nat, a: nat, b: nat, size: nat, first: nat, second: nat)
    requires IsAlign(w, a) && IsAlign(w, b) && a <= b
    requires IsLeastMultiple(a, size, first) && IsLeastMultiple(b, first, second)
    ensures IsLeastMultiple(b, size, second)
  {
    forall q: nat | q % b == 0 && q >= size ensures second <= q {
      SmallerAlignDivides(w, a, b, q);
    }
  }

  /** It agrees on every failure as well. */
  lemma RoundingComposes(w: nat, a: nat, b: nat, size: nat)
    requires IsAlign(w, a) && IsAlign(w, b) && a <= b && IsWord(w, size)
    ensures RoundUpTwice(w, a, b, size) == RoundUpSize(w, b, size)
  {
    hide IsLeastMultiple;
    var first := RoundUpSize(w, a, size);
    var direct := RoundUpSize(w, b, size);
    if first.Some? {
      var second := RoundUpSize(w, b, first.value);
      FirstFits(w, a, b, size, first.value);
      if second.Some? {
        LeastThroughLeast(w, a, b, size, first.value, second.value);
        LeastIsUnique(b, size, second.value, direct.value);
      }
    }
  }

  /** The first rounding stays in the range of the second just when the size is in it. */
  lemma FirstFits(w: nat, a: nat, b: nat, size: nat, first: nat)
    requires IsAlign(w, a) && IsAlign(w, b) && a <= b && size > 0 && IsLeastMultiple(a, size, first)
    ensures 0 < first <= Pow2(w) - b <==> size <= Pow2(w) - b
  {
    var k := IndexOf(w, b);
    SmallerAlignDivides(w, a, b, 0);
    SmallerAlignDivides(w, a, b, Pow2(w) - b);
  }

  /** Rounding keeps what is rounded already, and keeps the order. */
  lemma RoundingIsIdempotentAndMonotone(w: nat, a: nat, x: nat, y: nat)
    requires IsAlign(w, a) && IsWord(w, x) && IsWord(w, y)
    ensures var r := RoundUpSize(w, a, x); r.Some? ==> RoundUpSize(w, a, r.value) == r
    ensures 0 < x <= y && RoundUpSize(w, a, y).Some? ==>
              RoundUpSize(w, a, x).Some? && RoundUpSize(w, a, x).value <= RoundUpSize(w, a, y).value
  {
    RoundingComposes(w, a, a, x);
  }

  /** `max_size` is the largest size that still rounds up to at most `isize::MAX`. */
  lemma MaxSizeIsTight(w: nat, a: nat, size: nat)
    requires IsAlign(w, a) && IsWord(w, size) && size > 0
    ensures size <= MaxSize(w, a) <==>
            RoundUpSize(w, a, size).Some? && RoundUpSize(w, a, size).value <= Pow2(w - 1) - 1
  {
    var half := Pow2(w - 1);
    var k := IndexOf(w, a);
    Pow2Divides(k, w - 1);
    Pow2Monotone(k, w - 1);
    BelowMultiple(half, a, a);
    assert MaxSize(w, a) % a == 0;
    var r := RoundUpSize(w, a, size);
    if r.Some? && r.value < half { MultiplesApart(a, r.value, half); }
  }
}
