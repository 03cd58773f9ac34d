/** Big-endian positional numerals: the arithmetic behind base58 and the fixed-width encodings. */
module Numerals {
  predicate InBase(base: nat, digits: seq<nat>) {
    forall i :: 0 <= i < |digits| ==> digits[i] < base
  }

  /** The number that `digits` stand for, most significant digit first. */
  function Val(base: nat, digits: seq<nat>): (n: nat) {
    if digits == [] then 0 else Val(base, digits[..|digits| - 1]) * base + digits[|digits| - 1]
  }

  /** The digits of `n` without leading zeros; none for 0. */
  function Digits(base: nat, n: nat): (r: seq<nat>)
    requires base >= 2
    ensures InBase(base, r)
    ensures n == 0 <==> r == []
    ensures r != [] ==> r[0] != 0
  {
    if n == 0 then []
    else
      QuotientShrinks(n, base);
      Digits(base, n / base) + [n % base]
  }

  lemma QuotientShrinks(n: nat, base: nat)
    requires base >= 2 && n > 0
    ensures n / base < n
  {}

  function Zeros(digits: seq<nat>): (k: nat)
    ensures k <= |digits|
    ensures forall i :: 0 <= i < k ==> digits[i] == 0
    ensures k < |digits| ==> digits[k] != 0
  {
    if digits == [] || digits[0] != 0 then 0 else 1 + Zeros(digits[1..])
  }

  function ZeroDigits(n: nat): (r: seq<nat>)
    ensures |r| == n && forall i :: 0 <= i < n ==> r[i] == 0
  {
    seq(n, _ => 0)
  }

  lemma Quotient(n: nat, base: nat)
    requires base >= 1
    ensures n == (n / base) * base + n % base
  {}

  lemma Scale(a: nat, b: nat, m: nat)
    requires a <= b
    ensures a * m <= b * m
  {}

  lemma MultiplesAreFar(k: int, base: nat)
    ensures k != 0 ==> k * base >= base || k * base + base <= 0
  {
    if k > 0 { Scale(1, k, base); }
    if k < 0 { Scale(1, -k, base); assert k * base == -((-k) * base); }
  }

  lemma DivMod(q: nat, base: nat, r: nat)
    requires r < base
    ensures (q * base + r) / base == q && (q * base + r) % base == r
  {
    var n := q * base + r;
    Quotient(n, base);
    MultiplesAreFar(n / base - q, base);
    assert (n / base - q) * base == (n / base) * base - q * base;
  }

  lemma {:induction false} ValOfDigits(base: nat, n: nat)
    requires base >= 2
    ensures Val(base, Digits(base, n)) == n
  {
    if n > 0 {
      QuotientShrinks(n, base);
      ValOfDigits(base, n / base);
      var ds := Digits(base, n);
      assert ds[..|ds| - 1] == Digits(base, n / base);
      Quotient(n, base);
    }
  }

  lemma {:induction false} ZerosUnique(digits: seq<nat>, k: nat)
    requires k <= |digits| && (forall i :: 0 <= i < k ==> digits[i] == 0) && (k < |digits| ==> digits[k] != 0)
    ensures Zeros(digits) == k
  {
    if k > 0 { ZerosUnique(digits[1..], k - 1); }
  }

  lemma {:induction false} ValOfZeros(base: nat, digits: seq<nat>)
    requires forall i :: 0 <= i < |digits| ==> digits[i] == 0
    ensures Val(base, digits) == 0
  {
    if digits != [] { ValOfZeros(base, digits[..|digits| - 1]); }
  }

  lemma {:induction false} ValPositive(base: nat, digits: seq<nat>)
    requires base >= 2 && exists i :: 0 <= i < |digits| && digits[i] != 0
    ensures Val(base, digits) > 0
  {
    var i :| 0 <= i < |digits| && digits[i] != 0;
    var init := digits[..|digits| - 1];
    if i < |digits| - 1 {
      assert init[i] != 0;
      ValPositive(base, init);
    }
  }

  /** The last digit comes off by division. */
  lemma DigitsStep(base: nat, n: nat, q: nat, last: nat)
    requires base >= 2 && n == q * base + last && last < base && n > 0
    ensures Digits(base, n) == Digits(base, q) + [last]
  {
    DivMod(q, base, last);
  }

  lemma ValStep(base: nat, init: seq<nat>, last: nat)
    ensures Val(base, init + [last]) == Val(base, init) * base + last
  {
    assert (init + [last])[..|init|] == init;
  }

  lemma DropZeros(init: seq<nat>, last: nat)
    requires Zeros(init + [last]) < |init| + 1
    ensures (init + [last])[Zeros(init + [last])..] == init[Zeros(init)..] + [last]
  {
    ZerosOfInit(init + [last]);
    assert (init + [last])[..|init|] == init;
    DropFront(init, last, Zeros(init));
  }

  lemma DropFront(init: seq<nat>, last: nat, k: nat)
    requires k <= |init|
    ensures (init + [last])[k..] == init[k..] + [last]
  {}

  /** The digits of the number that digits stand for are those digits without their leading zeros. */
  lemma {:induction false} DigitsOfVal(base: nat, digits: seq<nat>)
    requires base >= 2 && InBase(base, digits)
    ensures Digits(base, Val(base, digits)) == digits[Zeros(digits)..]
  {
    if Zeros(digits) == |digits| {
      ValOfZeros(base, digits);
    } else {
      var init, last := digits[..|digits| - 1], digits[|digits| - 1];
      assert digits == init + [last];
      DigitsOfVal(base, init);
      ValPositive(base, digits);
      ValStep(base, init, last);
      DigitsStep(base, Val(base, digits), Val(base, init), last);
      DropZeros(init, last);
    }
  }

  lemma {:induction false} ZerosOfInit(digits: seq<nat>)
    requires Zeros(digits) < |digits|
    ensures Zeros(digits[..|digits| - 1]) == Zeros(digits)
  {
    ZerosUnique(digits[..|digits| - 1], Zeros(digits));
  }

  /** Leading zeros are the only thing the number forgets. */
  lemma ZerosOfPadded(k: nat, digits: seq<nat>)
    requires digits != [] ==> digits[0] != 0
    ensures Zeros(ZeroDigits(k) + digits) == k && (ZeroDigits(k) + digits)[k..] == digits
  {
    ZerosUnique(ZeroDigits(k) + digits, k);
  }

  lemma ValOfPadded(base: nat, k: nat, digits: seq<nat>)
    requires base >= 2 && InBase(base, digits) && (digits != [] ==> digits[0] != 0)
    ensures Val(base, ZeroDigits(k) + digits) == Val(base, digits)
  {
    var padded := ZeroDigits(k) + digits;
    ZerosOfPadded(k, digits);
    DigitsOfVal(base, padded);
    assert digits[0..] == digits;
    DigitsOfVal(base, digits);
    ValOfDigits(base, Val(base, padded));
    ValOfDigits(base, Val(base, digits));
  }

  lemma SplitZeros(digits: seq<nat>, rest: seq<nat>)
    requires rest == digits[Zeros(digits)..]
    ensures digits == ZeroDigits(Zeros(digits)) + rest
  {}

  /** Digits come back from their number, given the count of leading zeros. */
  lemma FromNumber(base: nat, digits: seq<nat>)
    requires base >= 2 && InBase(base, digits)
    ensures digits == ZeroDigits(Zeros(digits)) + Digits(base, Val(base, digits))
    ensures digits != [] ==> Zeros(digits) > 0 || Val(base, digits) > 0
  {
    DigitsOfVal(base, digits);
    SplitZeros(digits, Digits(base, Val(base, digits)));
    if Zeros(digits) < |digits| { ValPositive(base, digits); }
  }

  /** A number comes back from its zero-padded digits. */
  lemma ToNumber(base: nat, z: nat, n: nat)
    requires base >= 2
    ensures Zeros(ZeroDigits(z) + Digits(base, n)) == z
    ensures Val(base, ZeroDigits(z) + Digits(base, n)) == n
  {
    ZerosOfPadded(z, Digits(base, n));
    ValOfPadded(base, z, Digits(base, n));
    ValOfDigits(base, n);
  }

  // ---- Fixed width ------------------------------------------------------------------------

  function Pow(base: nat, k: nat): (r: nat) {
    if k == 0 then 1 else base * Pow(base, k - 1)
  }

  lemma {:induction false} PowPositive(base: nat, k: nat)
    requires base >= 1
    ensures Pow(base, k) >= 1
  {
    if k > 0 {
      PowPositive(base, k - 1);
      Scale(1, Pow(base, k - 1), base);
    }
  }

  /** `n` in exactly `width` digits, dropping what does not fit. */
  function Fixed(base: nat, width: nat, n: nat): (r: seq<nat>)
    requires base >= 2
    ensures |r| == width && InBase(base, r)
  {
    if width == 0 then [] else Fixed(base, width - 1, n / base) + [n % base]
  }

  lemma {:induction false} ValOfFixed(base: nat, width: nat, n: nat)
    requires base >= 2 && n < Pow(base, width)
    ensures Val(base, Fixed(base, width, n)) == n
  {
    if width > 0 {
      QuotientBound(n, base, Pow(base, width - 1));
      Quotient(n, base);
      ValOfFixed(base, width - 1, n / base);
      var r := Fixed(base, width, n);
      assert r[..width - 1] == Fixed(base, width - 1, n / base);
    }
  }

  lemma QuotientBound(n: nat, base: nat, bound: nat)
    requires base >= 2 && n < base * bound
    ensures n / base < bound
  {
    Quotient(n, base);
    Scale(bound, if n / base < bound then bound else n / base, base);
  }

  /** Fixed-width numerals tell numbers that fit apart. */
  lemma FixedInjective(base: nat, width: nat, m: nat, n: nat)
    requires base >= 2 && m < Pow(base, width) && n < Pow(base, width)
    ensures Fixed(base, width, m) == Fixed(base, width, n) <==> m == n
  {
    ValOfFixed(base, width, m);
    ValOfFixed(base, width, n);
  }

  lemma {:induction false} ValBound(base: nat, digits: seq<nat>)
    requires base >= 2 && InBase(base, digits)
    ensures Val(base, digits) < Pow(base, |digits|)
  {
    if digits != [] {
      var init := digits[..|digits| - 1];
      ValBound(base, init);
      Scale(Val(base, init) + 1, Pow(base, |init|), base);
      assert (Val(base, init) + 1) * base == Val(base, init) * base + base;
    }
  }

  /** Digits of equal length are told apart by their number. */
  lemma {:induction false} FixedOfVal(base: nat, digits: seq<nat>)
    requires base >= 2 && InBase(base, digits)
    ensures Fixed(base, |digits|, Val(base, digits)) == digits
  {
    if digits != [] {
      var init, last := digits[..|digits| - 1], digits[|digits| - 1];
      FixedOfVal(base, init);
      DivMod(Val(base, init), base, last);
      assert digits == init + [last];
    }
  }

  /** The digits in front count for a power of the base per digit behind them. */
  lemma {:induction false} ValAppend(base: nat, a: seq<nat>, b: seq<nat>)
    ensures Val(base, a + b) == Val(base, a) * Pow(base, |b|) + Val(base, b)
  {
    if b == [] {
      assert a + b == a;
    } else {
      var init := b[..|b| - 1];
      assert (a + b)[..|a + b| - 1] == a + init;
      ValAppend(base, a, init);
      Distribute(Val(base, a), Pow(base, |init|), Val(base, init), base);
    }
  }

  lemma Distribute(v: nat, p: nat, w: nat, base: nat)
    ensures (v * p + w) * base == v * (base * p) + w * base
  {
    assert v * (base * p) == (v * p) * base;
  }
}
