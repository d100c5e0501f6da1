/**
 * The helpers of util.h that the evaluator relies on: the ASCII character
 * classes, the 128-bit integer types and their limit, the symbol-encoding
 * offset and the TRY early-return macro.  The bit-level helpers at the end
 * give C's `&`, `|` and shifts a meaning on unbounded naturals.
 */
module Util {

  datatype Option<T> = None | Some(value: T)

  // ---------------------------------------------------------------------
  // Character classes (util.h, IS_WHITESPACE .. IS_DIGIT)
  // ---------------------------------------------------------------------

  predicate IsWhitespace(c: char) {
    c == ' ' || c == '\t' || c == '\U{000B}' || c == '\r' || c == '\n'
  }

  predicate IsLower(c: char) { 'a' <= c <= 'z' }

  predicate IsUpper(c: char) { 'A' <= c <= 'Z' }

  predicate IsLetter(c: char) { IsLower(c) || IsUpper(c) || c == '_' }

  predicate IsDigit(c: char) { '0' <= c <= '9' }

  /** The value of a decimal digit character. */
  function DigitValue(c: char): (d: nat)
    requires IsDigit(c)
    ensures d < 10
    ensures c == ('0' as int + d) as char
  {
    c as int - '0' as int
  }

  /** IS_WHITESPACE admits exactly five characters, and NUL is none of them. */
  lemma WhitespaceIsExactlyFive(c: char)
    ensures IsWhitespace(c) <==> c in {' ', '\t', '\U{000B}', '\r', '\n'}
    ensures !IsWhitespace('\0') && !IsLetter('\0') && !IsDigit('\0')
  {
  }

  /** The three classes the lexer dispatches on never overlap. */
  lemma ClassesDisjoint(c: char)
    ensures !(IsWhitespace(c) && IsLetter(c))
    ensures !(IsWhitespace(c) && IsDigit(c))
    ensures !(IsLetter(c) && IsDigit(c))
  {
  }

  // ---------------------------------------------------------------------
  // Powers of two and ten
  // ---------------------------------------------------------------------

  function Pow2(n: nat): (r: nat)
    ensures r >= 1
  {
    if n == 0 then 1 else 2 * Pow2(n - 1)
  }

  lemma {:induction false} Pow2Add(a: nat, b: nat)
    ensures Pow2(a + b) == Pow2(a) * Pow2(b)
  {
    if a > 0 {
      Pow2Add(a - 1, b);
      assert Pow2(a + b) == 2 * Pow2(a - 1 + b);
    }
  }

  lemma {:induction false} Pow2Monotone(a: nat, b: nat)
    requires a <= b
    ensures Pow2(a) <= Pow2(b)
  {
    if a < b {
      Pow2Monotone(a, b - 1);
    }
  }

  function Pow10(n: nat): (r: nat)
    ensures r >= 1
  {
    if n == 0 then 1 else 10 * Pow10(n - 1)
  }

  lemma {:induction false} Pow10Add(a: nat, b: nat)
    ensures Pow10(a + b) == Pow10(a) * Pow10(b)
  {
    if a > 0 {
      Pow10Add(a - 1, b);
    }
  }

  lemma {:induction false} Pow10Monotone(a: nat, b: nat)
    requires a <= b
    ensures Pow10(a) <= Pow10(b)
  {
    if a < b {
      Pow10Monotone(a, b - 1);
    }
  }

  // ---------------------------------------------------------------------
  // The 128-bit integer types of util.h
  // ---------------------------------------------------------------------

  /** sizeof(int_t) for `_BitInt(128)`. */
  const SIZEOF_INT_T: nat := 16

  /** INT_T_MAX exactly as the macro computes it: ((unt_t)1 << (16 * 8 - 1)) - 1. */
  function IntTMax(): int {
    Pow2(SIZEOF_INT_T * 8 - 1) - 1
  }

  const INT_T_MAX: int := 0x7fff_ffff_ffff_ffff_ffff_ffff_ffff_ffff
  const INT_T_MIN: int := -0x8000_0000_0000_0000_0000_0000_0000_0000
  /** 2^128, the number of values of `unt_t`. */
  const UNT_T_MOD: int := 0x1_0000_0000_0000_0000_0000_0000_0000_0000

  /** A value of the signed `int_t`. */
  type IntT = x: int | INT_T_MIN <= x <= INT_T_MAX

  /** A value of the unsigned `unt_t`. */
  type UntT = x: int | 0 <= x < UNT_T_MOD

  predicate InIntT(x: int) { INT_T_MIN <= x <= INT_T_MAX }

  lemma Pow2Of32()
    ensures Pow2(32) == 0x1_0000_0000
  {
    assert Pow2(4) == 16;
    Pow2Add(4, 4);
    Pow2Add(8, 8);
    Pow2Add(16, 16);
  }

  lemma Pow2Of64()
    ensures Pow2(64) == 0x1_0000_0000_0000_0000
  {
    Pow2Of32();
    Pow2Add(32, 32);
  }

  lemma Pow2Of127()
    ensures Pow2(127) == 0x8000_0000_0000_0000_0000_0000_0000_0000
  {
    Pow2Of32();
    Pow2Of64();
    assert Pow2(31) == 0x8000_0000 by { Pow2Halves(32); }
    Pow2Add(64, 32);
    Pow2Add(96, 31);
  }

  /** The macro's value is 2^127 - 1, the largest `int_t`, and the range is 2^128 wide. */
  lemma IntTMaxValue()
    ensures IntTMax() == INT_T_MAX
    ensures INT_T_MAX + 1 == Pow2(127) && INT_T_MIN + Pow2(127) == 0
    ensures UNT_T_MOD == Pow2(128)
  {
    Pow2Of127();
    Pow2Add(127, 1);
  }

  /** Reading the `n_int` member of a union whose `n_unt` member was written (two's complement). */
  function SignedOf(u: UntT): (x: IntT)
    ensures 0 <= x ==> x == u
    ensures x < 0 ==> x == u - UNT_T_MOD
  {
    if u <= INT_T_MAX then u else u - UNT_T_MOD
  }

  /** Reading `n_unt` after writing `n_int`. */
  function UnsignedOf(x: IntT): (u: UntT)
    ensures (u - x) % UNT_T_MOD == 0
  {
    if x >= 0 then x else x + UNT_T_MOD
  }

  lemma SignedUnsignedRoundTrip(x: IntT, u: UntT)
    ensures SignedOf(UnsignedOf(x)) == x
    ensures UnsignedOf(SignedOf(u)) == u
  {
  }

  // ---------------------------------------------------------------------
  // ENC_OFF
  // ---------------------------------------------------------------------

  /** ENC_OFF = 'Z' - 'A' + 1. */
  const ENC_OFF: int := 'Z' as int - 'A' as int + 1

  /** ENC_OFF is the number of upper-case letters: they are exactly the offsets 0 .. ENC_OFF-1 from 'A'. */
  lemma EncOffCountsUpper(c: char)
    ensures ENC_OFF == 26
    ensures IsUpper(c) <==> 0 <= c as int - 'A' as int < ENC_OFF
  {
  }

  // ---------------------------------------------------------------------
  // TRY
  // ---------------------------------------------------------------------

  /**
   * TRY(prefix, expr): the statement returns `err` from the enclosing
   * function when it differs from the NOERROR value, and otherwise control
   * falls through to the rest of the function, whose result is `rest`.
   */
  function Try<E(==)>(err: E, noError: E, rest: E): E {
    if err != noError then err else rest
  }

  /** The first status different from `noError`, or `noError` when all succeeded. */
  function FirstError<E(==)>(errs: seq<E>, noError: E): (r: E)
    ensures r == noError <==> forall i :: 0 <= i < |errs| ==> errs[i] == noError
    ensures r != noError ==> exists i :: 0 <= i < |errs| && errs[i] == r
  {
    if errs == [] then noError
    else if errs[0] != noError then errs[0]
    else FirstError(errs[1..], noError)
  }

  /** A function made of consecutive TRY statements and a final `return noError`. */
  function TryAll<E(==)>(errs: seq<E>, noError: E): E {
    if errs == [] then noError else Try(errs[0], noError, TryAll(errs[1..], noError))
  }

  /** A chain of TRY statements returns the first failing status and nothing later. */
  lemma {:induction false} TryChainReturnsFirstError<E>(errs: seq<E>, noError: E)
    ensures TryAll(errs, noError) == FirstError(errs, noError)
  {
    if errs != [] {
      TryChainReturnsFirstError(errs[1..], noError);
    }
  }

  // ---------------------------------------------------------------------
  // Bit operations on naturals
  // ---------------------------------------------------------------------

  /** C's `&` on non-negative integers, bit by bit. */
  function BitAnd(a: nat, b: nat): nat
    decreases a
  {
    if a == 0 || b == 0 then 0 else 2 * BitAnd(a / 2, b / 2) + (a % 2) * (b % 2)
  }

  /** C's `|` on non-negative integers, bit by bit. */
  function BitOr(a: nat, b: nat): nat
    decreases a + b
  {
    if a == 0 then b
    else if b == 0 then a
    else 2 * BitOr(a / 2, b / 2) + (if a % 2 == 1 || b % 2 == 1 then 1 else 0)
  }

  /** Or-ing two values below 2^w stays below 2^w. */
  lemma {:induction false} BitOrBound(a: nat, b: nat, w: nat)
    requires a < Pow2(w) && b < Pow2(w)
    ensures BitOr(a, b) < Pow2(w)
    decreases a + b
  {
    if a != 0 && b != 0 {
      assert w > 0;
      Pow2Halves(w);
      BitOrBound(a / 2, b / 2, w - 1);
    }
  }

  lemma {:induction false} Pow2Halves(n: nat)
    requires n > 0
    ensures Pow2(n) / 2 == Pow2(n - 1) && Pow2(n) % 2 == 0
  {
  }

  /** All-ones masks: x & (2^w - 1) == x whenever x < 2^w. */
  lemma {:induction false} BitAndAllOnes(x: nat, w: nat)
    requires x < Pow2(w)
    ensures BitAnd(x, Pow2(w) - 1) == x
  {
    if x != 0 {
      assert w > 0;
      Pow2Halves(w);
      BitAndAllOnes(x / 2, w - 1);
      assert (Pow2(w) - 1) / 2 == Pow2(w - 1) - 1;
      assert (Pow2(w) - 1) % 2 == 1;
    }
  }

  /** Clearing the low k bits: x & (2^w - 2^k) == x - x % 2^k for x < 2^w. */
  lemma {:induction false} BitAndClearsLow(x: nat, w: nat, k: nat)
    requires k <= w && x < Pow2(w)
    ensures Pow2(k) <= Pow2(w)
    ensures BitAnd(x, Pow2(w) - Pow2(k)) == x - x % Pow2(k)
    decreases k, 1
  {
    Pow2Monotone(k, w);
    if k == 0 {
      ClearNoBits(x, w, k);
    } else if x == 0 {
      ClearOfZero(x, w, k);
    } else if w == k {
      ClearAllBits(x, w, k);
    } else {
      ClearLowStep(x, w, k);
    }
  }

  lemma ClearNoBits(x: nat, w: nat, k: nat)
    requires k == 0 && x < Pow2(w)
    ensures BitAnd(x, Pow2(w) - Pow2(k)) == x - x % Pow2(k)
  {
    BitAndAllOnes(x, w);
    assert x % 1 == 0;
  }

  lemma ClearOfZero(x: nat, w: nat, k: nat)
    requires x == 0 && k <= w
    ensures Pow2(k) <= Pow2(w)
    ensures BitAnd(x, Pow2(w) - Pow2(k)) == x - x % Pow2(k)
  {
    Pow2Monotone(k, w);
  }

  lemma ClearAllBits(x: nat, w: nat, k: nat)
    requires k == w && x < Pow2(w)
    ensures BitAnd(x, Pow2(w) - Pow2(k)) == x - x % Pow2(k)
  {
    assert BitAnd(x, 0) == 0;
    ModUnique(x, Pow2(w), 0, x);
  }

  lemma {:induction false} ClearLowStep(x: nat, w: nat, k: nat)
    requires 0 < k < w && 0 < x < Pow2(w)
    ensures Pow2(k) <= Pow2(w)
    ensures BitAnd(x, Pow2(w) - Pow2(k)) == x - x % Pow2(k)
    decreases k, 0
  {
    MaskHalves(w, k);
    var m, h := Pow2(w) - Pow2(k), x / 2;
    HalfBelow(x, w);
    BitAndClearsLow(h, w - 1, k - 1);
    BitAndEven(x, m);
    DivModHalf(x, k);
    LinearCombine(BitAnd(x, m), BitAnd(h, m / 2), h, x % 2, h % Pow2(k - 1), x % Pow2(k), x);
  }

  lemma LinearCombine(bx: int, bh: int, h: int, b: int, rh: int, xm: int, x: int)
    requires bx == 2 * bh && bh == h - rh && xm == 2 * rh + b && x == 2 * h + b
    ensures bx == x - xm
  {
  }

  /** 2^w - 2^k is even and halves to 2^(w-1) - 2^(k-1). */
  lemma MaskHalves(w: nat, k: nat)
    requires 0 < k < w
    ensures Pow2(k) < Pow2(w)
    ensures (Pow2(w) - Pow2(k)) % 2 == 0 && (Pow2(w) - Pow2(k)) / 2 == Pow2(w - 1) - Pow2(k - 1)
  {
    Pow2Monotone(k, w);
    Pow2Monotone(k - 1, w - 1);
    Pow2Halves(w);
    Pow2Halves(k);
    assert Pow2(k) < Pow2(w) by { Pow2Monotone(k + 1, w); }
    assert Pow2(w) - Pow2(k) == 2 * (Pow2(w - 1) - Pow2(k - 1));
  }

  lemma HalfBelow(x: nat, w: nat)
    requires w > 0 && x < Pow2(w)
    ensures x / 2 < Pow2(w - 1)
  {
    Pow2Halves(w);
  }

  /** `&` with an even mask: the lowest bit is 0 and the rest is the `&` of the halves. */
  lemma BitAndEven(x: nat, m: nat)
    requires m % 2 == 0
    ensures BitAnd(x, m) == 2 * BitAnd(x / 2, m / 2)
  {
    if x != 0 && m != 0 {
      assert (x % 2) * (m % 2) == 0;
    }
  }

  lemma DivModHalf(x: nat, k: nat)
    requires k > 0
    ensures x % Pow2(k) == 2 * ((x / 2) % Pow2(k - 1)) + x % 2
  {
    var p := Pow2(k - 1);
    assert Pow2(k) == 2 * p;
    var q := (x / 2) / p;
    var r := (x / 2) % p;
    assert x / 2 == q * p + r;
    assert x == (q * p + r) * 2 + x % 2;
    assert x == q * (2 * p) + (2 * r + x % 2);
    assert 0 <= 2 * r + x % 2 < 2 * p;
    ModUnique(x, 2 * p, q, 2 * r + x % 2);
  }

  lemma ModUnique(x: int, m: int, q: int, r: int)
    requires m > 0 && 0 <= r < m && x == q * m + r
    ensures x % m == r && x / m == q
  {
    var q', r' := x / m, x % m;
    assert (q - q') * m == r' - r;
    if q > q' {
      MulAtLeast(q - q', m);
    } else if q < q' {
      MulAtLeast(q' - q, m);
    }
  }

  lemma MulAtLeast(a: int, m: int)
    requires a >= 1 && m > 0
    ensures a * m >= m
  {
  }

  /** Or-ing in a value whose bits all lie above those of `a` is addition. */
  lemma {:induction false} BitOrDisjoint(a: nat, c: nat, k: nat)
    requires a < Pow2(k)
    ensures BitOr(a, c * Pow2(k)) == a + c * Pow2(k)
  {
    if a == 0 || c == 0 {
    } else {
      assert k > 0;
      Pow2Halves(k);
      assert c * Pow2(k) == 2 * (c * Pow2(k - 1));
      assert (c * Pow2(k)) / 2 == c * Pow2(k - 1);
      assert (c * Pow2(k)) % 2 == 0;
      BitOrDisjoint(a / 2, c, k - 1);
    }
  }
}
