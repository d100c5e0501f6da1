/**
 * The lexer of mewa.c.  A token is read starting from the reader's current
 * character: `lx_next_token` first steps the reader, skips whitespace, sets
 * the mark and dispatches on the character.  A token that had to look one
 * character too far pushes it back with rd_prev, so that the next token
 * starts on it; a token that ends on its own last character leaves that
 * character current.
 *
 * `LexState` is the lexer as a value and the `Lx*` functions are its
 * operations; the class `Lexer` has the same fields and methods proved
 * equal to those functions.  `Tokens` is the whole token stream a lexer
 * state will deliver, which the parser is specified against.
 */
module Lexing {
  import opened Util
  import opened Numerics
  import opened Reading

  datatype TokenType =
    | TIll | TEos
    | TSym | TInt | TFlt | TCmx | TFal | TTru
    | TLet
    | TAnd | TOrr
    | TGre | TLes | TGeq | TLeq | TEqu | TNeq
    | TAdd | TSub
    | TMul | TQuo | TMod
    | TPow
    | TNot | TFac
    | TLp0 | TRp0
    | TAbs
    | TEox

  /** The Lexer struct: its reader, the current token type and its payload. */
  datatype LexState = LexState(rd: RdState, tt: TokenType, pm: Raw)

  // ---------------------------------------------------------------------
  // Runs of characters
  // ---------------------------------------------------------------------

  /** The characters the reader delivers, from `cc` on, while `p` holds. */
  function Run(rd: RdState, p: char -> bool): (cs: seq<char>)
    requires Valid(rd)
    ensures forall i :: 0 <= i < |cs| ==> p(cs[i])
    ensures 2 * |cs| <= Rank(rd)
    decreases Rank(rd)
  {
    if p(rd.cc) && !rd.prv && rd.cc != '\0' then
      NextCharRank(rd);
      [rd.cc] + Run(RdNextChar(rd), p)
    else []
  }

  // ---------------------------------------------------------------------
  // lx_read_integer
  // ---------------------------------------------------------------------

  /** What lx_read_integer leaves: the reader, `*mnt`, `*exp` and the returned `pow10`. */
  datatype IntRead = IntRead(rd: RdState, mnt: nat, exp: nat, pow10: nat)

  /** The decimal value of a digit string, most significant digit first. */
  function Decimal(ds: seq<char>): (v: nat)
    requires forall i :: 0 <= i < |ds| ==> IsDigit(ds[i])
    ensures v < Pow10(|ds|)
  {
    if ds == [] then 0 else 10 * Decimal(ds[..|ds| - 1]) + DigitValue(ds[|ds| - 1])
  }

  /** The most digits lx_read_integer keeps before it only counts them in `exp`. */
  const MAX_KEPT_DIGITS: nat := 38

  /** The loop of lx_read_integer, from an intermediate state of its variables. */
  function ReadDigits(rd: RdState, mnt: nat, exp: nat, pow10: nat, overflow: bool): (r: IntRead)
    requires Valid(rd) && !rd.prv
    requires mnt < pow10 <= INT_T_MAX && (overflow <==> pow10 > INT_T_MAX / 10)
    ensures Valid(r.rd) && !r.rd.prv && !IsDigit(r.rd.cc)
    ensures r.mnt < r.pow10 <= INT_T_MAX && r.exp >= exp
    ensures Rank(r.rd) + 2 * (r.exp - exp) <= Rank(rd)
    ensures IsDigit(rd.cc) ==> Rank(r.rd) + 2 <= Rank(rd) && Moved(r.rd)
    ensures !IsDigit(rd.cc) ==> r == IntRead(rd, mnt, exp, pow10)
    decreases Rank(rd)
  {
    if IsDigit(rd.cc) then
      NextCharRank(rd);
      var next := RdNextChar(rd);
      if !overflow then
        NextCharRank(next);
        ReadDigits(next, mnt * 10 + DigitValue(rd.cc), exp, pow10 * 10, pow10 * 10 > INT_T_MAX / 10)
      else
        NextCharRank(next);
        ReadDigits(next, mnt, exp + 1, pow10, overflow)
    else IntRead(rd, mnt, exp, pow10)
  }

  /** The loop invariant of lx_read_integer: the rest of the loop delivers `target`. */
  predicate DigitsInv(rd: RdState, mnt: nat, exp: nat, pow10: nat, overflow: bool, target: IntRead) {
    && Valid(rd) && !rd.prv
    && mnt < pow10 <= INT_T_MAX && (overflow <==> pow10 > INT_T_MAX / 10)
    && ReadDigits(rd, mnt, exp, pow10, overflow) == target
  }

  /**
   * One iteration of the loop of lx_read_integer keeps its invariant:
   * `mnt'`, `exp'`, `pow10'` and `overflow'` are the variables after the
   * body, before the reader steps.
   */
  lemma ReadDigitsStep(rd: RdState, mnt: nat, exp: nat, pow10: nat, overflow: bool, target: IntRead,
                       mnt': nat, exp': nat, pow10': nat, overflow': bool)
    requires DigitsInv(rd, mnt, exp, pow10, overflow, target) && IsDigit(rd.cc)
    requires !overflow ==>
      mnt' == mnt * 10 + DigitValue(rd.cc) && exp' == exp && pow10' == pow10 * 10 && (overflow' <==> pow10' > INT_T_MAX / 10)
    requires overflow ==> mnt' == mnt && exp' == exp + 1 && pow10' == pow10 && overflow' == overflow
    ensures Rank(RdNextChar(rd)) + 2 <= Rank(rd)
    ensures DigitsInv(RdNextChar(rd), mnt', exp', pow10', overflow', target)
  {
    NextCharRank(rd);
  }

  /** lx_read_integer: the reader after the digits, `*mnt`, `*exp` and the returned `pow10`. */
  function LxReadInteger(rd: RdState): (r: IntRead)
    requires Valid(rd) && !rd.prv
    ensures Valid(r.rd) && !r.rd.prv && !IsDigit(r.rd.cc)
    ensures r.mnt < r.pow10 <= INT_T_MAX
    ensures Rank(r.rd) + 2 * r.exp <= Rank(rd)
    ensures IsDigit(rd.cc) ==> Rank(r.rd) + 2 <= Rank(rd) && Moved(r.rd)
    ensures !IsDigit(rd.cc) ==> r == IntRead(rd, 0, 0, 1)
  {
    Pow10Threshold(0);
    ReadDigits(rd, 0, 0, 1, false)
  }

  lemma Pow10Of37()
    ensures Pow10(37) == 10_000_000_000_000_000_000_000_000_000_000_000_000
  {
    assert Pow10(1) == 10 && Pow10(2) == 100;
    Pow10Add(2, 2);
    Pow10Add(4, 4);
    Pow10Add(8, 8);
    Pow10Add(16, 16);
    Pow10Add(32, 4);
    Pow10Add(36, 1);
  }

  /** 10^k passes INT_T_MAX / 10 exactly at k = 38, so at most 38 digits are kept. */
  lemma Pow10Threshold(k: nat)
    requires k <= MAX_KEPT_DIGITS
    ensures Pow10(k) <= INT_T_MAX
    ensures Pow10(k) > INT_T_MAX / 10 <==> k == MAX_KEPT_DIGITS
  {
    Pow10Of37();
    var p := Pow10(37);
    assert Pow10(38) == 10 * p;
    if k < MAX_KEPT_DIGITS {
      Pow10Monotone(k, 37);
    }
  }

  /** 10^k for a number of kept digits. */
  function KeptPow10(k: nat): (p: nat)
    requires k <= MAX_KEPT_DIGITS
    ensures p == Pow10(k) && p <= INT_T_MAX
    ensures p > INT_T_MAX / 10 <==> k == MAX_KEPT_DIGITS
  {
    Pow10Threshold(k);
    Pow10(k)
  }

  predicate AllDigits(ds: seq<char>) {
    forall i :: 0 <= i < |ds| ==> IsDigit(ds[i])
  }

  /** How many of the digits `ds` lx_read_integer keeps in the mantissa. */
  function Kept(ds: seq<char>): (k: nat)
    ensures k <= |ds| && k <= MAX_KEPT_DIGITS
    ensures k == |ds| || k == MAX_KEPT_DIGITS
  {
    if |ds| < MAX_KEPT_DIGITS then |ds| else MAX_KEPT_DIGITS
  }

  /** The mantissa, the dropped-digit count and the power of ten after reading `ds`. */
  function Digits(ds: seq<char>): (r: IntRead)
    requires AllDigits(ds)
    ensures r.pow10 <= INT_T_MAX && r.mnt < r.pow10
  {
    var k := Kept(ds);
    IntRead(RdState([], 0, false, [], 0, 0, 0, 0, '\0', false, false, false, false),
      Decimal(ds[..k]), |ds| - k, KeptPow10(k))
  }

  /** One more digit: kept while fewer than 38 are, otherwise only counted. */
  lemma DigitsStep(ds: seq<char>, d: char)
    requires AllDigits(ds) && IsDigit(d)
    ensures AllDigits(ds + [d])
    ensures var a, b := Digits(ds), Digits(ds + [d]);
      if Kept(ds) < MAX_KEPT_DIGITS then
        && b.mnt == a.mnt * 10 + DigitValue(d) && b.exp == a.exp && b.pow10 == a.pow10 * 10
        && (Kept(ds + [d]) == MAX_KEPT_DIGITS <==> a.pow10 * 10 > INT_T_MAX / 10)
      else
        b.mnt == a.mnt && b.exp == a.exp + 1 && b.pow10 == a.pow10 && Kept(ds + [d]) == MAX_KEPT_DIGITS
  {
    var ds' := ds + [d];
    assert AllDigits(ds');
    var k := Kept(ds);
    if k < MAX_KEPT_DIGITS {
      assert Kept(ds') == k + 1 && ds'[..k + 1] == ds + [d];
      assert (ds + [d])[..k] == ds && ds[..k] == ds;
    } else {
      assert Kept(ds') == k;
      assert ds'[..k] == ds[..k];
    }
  }

  /**
   * lx_read_integer keeps the first min(n, 38) of the n digits it reads:
   * `*mnt` is their decimal value, the result is 10 to their number, and
   * `*exp` counts the digits after them.
   */
  lemma ReadIntegerValue(rd: RdState)
    requires Valid(rd) && !rd.prv
    ensures var ds := Run(rd, IsDigit);
      var r := LxReadInteger(rd);
      && r.mnt == Decimal(ds[..Kept(ds)])
      && r.pow10 == Pow10(Kept(ds))
      && r.exp == |ds| - Kept(ds)
  {
    assert Digits([]).mnt == 0 && Digits([]).pow10 == 1;
    ReadDigitsValue(rd, []);
    assert [] + Run(rd, IsDigit) == Run(rd, IsDigit);
  }

  /** ReadIntegerValue, generalised to the digits `pre` the loop has already read. */
  lemma {:induction false} ReadDigitsValue(rd: RdState, pre: seq<char>)
    requires Valid(rd) && !rd.prv && AllDigits(pre)
    ensures AllDigits(pre + Run(rd, IsDigit))
    ensures var a, b := Digits(pre), Digits(pre + Run(rd, IsDigit));
      var r := ReadDigits(rd, a.mnt, a.exp, a.pow10, Kept(pre) == MAX_KEPT_DIGITS);
      r.mnt == b.mnt && r.pow10 == b.pow10 && r.exp == b.exp
    decreases Rank(rd), 1
  {
    if IsDigit(rd.cc) {
      ReadDigitsValueStep(rd, pre);
    } else {
      assert Run(rd, IsDigit) == [];
      assert pre + [] == pre;
    }
  }

  /** The case of ReadDigitsValue where the run of digits is not empty. */
  lemma {:induction false} ReadDigitsValueStep(rd: RdState, pre: seq<char>)
    requires Valid(rd) && !rd.prv && AllDigits(pre) && IsDigit(rd.cc)
    ensures AllDigits(pre + Run(rd, IsDigit))
    ensures var a, b := Digits(pre), Digits(pre + Run(rd, IsDigit));
      var r := ReadDigits(rd, a.mnt, a.exp, a.pow10, Kept(pre) == MAX_KEPT_DIGITS);
      r.mnt == b.mnt && r.pow10 == b.pow10 && r.exp == b.exp
    decreases Rank(rd), 0
  {
    NextCharRank(rd);
    var next := RdNextChar(rd);
    RunStep(rd, IsDigit);
    assert pre + Run(rd, IsDigit) == (pre + [rd.cc]) + Run(next, IsDigit);
    DigitsStep(pre, rd.cc);
    var a, a' := Digits(pre), Digits(pre + [rd.cc]);
    var overflow := Kept(pre) == MAX_KEPT_DIGITS;
    var target := ReadDigits(rd, a.mnt, a.exp, a.pow10, overflow);
    ReadDigitsStep(rd, a.mnt, a.exp, a.pow10, overflow, target,
                   a'.mnt, a'.exp, a'.pow10, Kept(pre + [rd.cc]) == MAX_KEPT_DIGITS);
    ReadDigitsValue(next, pre + [rd.cc]);
  }

  /** A run that starts on a matching character is that character and the run after it. */
  lemma RunStep(rd: RdState, p: char -> bool)
    requires Valid(rd) && !rd.prv && p(rd.cc) && rd.cc != '\0'
    ensures Valid(RdNextChar(rd))
    ensures Run(rd, p) == [rd.cc] + Run(RdNextChar(rd), p)
  {
    NextCharRank(rd);
  }

  // ---------------------------------------------------------------------
  // lx_next_token_number
  // ---------------------------------------------------------------------

  /** Whether a lexer state can be handed to the token readers. */
  predicate Ready(ls: LexState) {
    Valid(ls.rd) && !ls.rd.prv && Rank(ls.rd) <= INT_T_MAX
  }

  /** `(flt_t)mnt * pow(10, (flt_t)exp)`. */
  function Scaled(d: IntRead, ops: Ops): Flt
    requires d.mnt <= INT_T_MAX && d.exp <= INT_T_MAX
  {
    ops.mulF(ops.fltOfInt(d.mnt), ops.powF(ops.fltOfInt(10), ops.fltOfInt(d.exp)))
  }

  /** The reader after the digits of a number and, when a `.` follows them, the fraction digits. */
  function NumberEnd(ls: LexState): (rd: RdState)
    requires Ready(ls)
    ensures Valid(rd) && !rd.prv
  {
    var d := LxReadInteger(ls.rd);
    if d.rd.cc == '.' then
      NextCharRank(d.rd);
      LxReadInteger(RdNextChar(d.rd)).rd
    else d.rd
  }

  /** lx_next_token_number before its final test for a trailing `i`. */
  function NumberBody(ls: LexState, ops: Ops): (t: LexState)
    requires Ready(ls)
    ensures t.rd == NumberEnd(ls)
  {
    var d := LxReadInteger(ls.rd);
    if d.rd.cc == '.' then
      NextCharRank(d.rd);
      var f := LxReadInteger(RdNextChar(d.rd));
      LexState(f.rd, TFlt, RFlt(ops.addF(Scaled(d, ops), ops.quoF(ops.fltOfInt(f.mnt), ops.fltOfInt(f.pow10)))))
    else if d.exp != 0 then LexState(d.rd, TFlt, RFlt(Scaled(d, ops)))
    else if d.rd.cc != 'i' || d.mnt != 0 then LexState(d.rd, TInt, RInt(d.mnt))
    else LexState(d.rd, TIll, ls.pm)
  }

  /** lx_next_token_number. */
  function LxNextTokenNumber(ls: LexState, ops: Ops): (t: LexState)
    requires Ready(ls)
  {
    NumberTail(NumberBody(ls, ops), ops)
  }

  /** The final test of lx_next_token_number: a trailing `i` makes the number imaginary. */
  function NumberTail(t0: LexState, ops: Ops): (t: LexState) {
    if t0.rd.cc == 'i' then
      var pm :=
        if t0.tt == TIll then RCmx(ops.imagUnit)
        else if t0.tt == TFlt then RCmx(ops.mulC(ops.cmxOfFlt(AsFlt(t0.pm, ops)), ops.imagUnit))
        else if t0.tt == TInt then RCmx(ops.mulC(ops.cmxOfInt(AsInt(t0.pm, ops)), ops.imagUnit))
        else t0.pm;
      t0.(tt := TCmx, pm := pm)
    else t0.(rd := RdPrev(t0.rd))
  }

  /**
   * The classification lx_next_token_number makes, with `d` the integer
   * part it reads: a trailing `i` always makes a complex number, the
   * imaginary unit itself when no `.` came and the mantissa is zero or
   * empty; otherwise a `.` or dropped digits make a float, and the rest is
   * an integer with the value of the kept digits.
   */
  lemma NumberClassification(ls: LexState, ops: Ops)
    requires Ready(ls)
    ensures var d := LxReadInteger(ls.rd);
      var t := LxNextTokenNumber(ls, ops);
      var end := NumberEnd(ls);
      && (t.tt == TCmx <==> end.cc == 'i')
      && (end.cc == 'i' && d.rd.cc != '.' && d.exp == 0 && d.mnt == 0 ==> t.pm == RCmx(ops.imagUnit))
      && (end.cc != 'i' && (d.rd.cc == '.' || d.exp != 0) ==> t.tt == TFlt)
      && (end.cc != 'i' && d.rd.cc != '.' && d.exp == 0 ==> t.tt == TInt && t.pm == RInt(d.mnt))
      && t.tt in {TInt, TFlt, TCmx}
  {
  }

  /** `0i` and a bare `i` both lex as the imaginary unit. */
  lemma ZeroIIsImaginaryUnit(ls: LexState, ops: Ops)
    requires Ready(ls)
    requires ls.rd.cc == 'i' || (ls.rd.cc == '0' && RdNextChar(ls.rd).cc == 'i')
    ensures LxNextTokenNumber(ls, ops).tt == TCmx
    ensures LxNextTokenNumber(ls, ops).pm == RCmx(ops.imagUnit)
  {
    if ls.rd.cc == '0' {
      NextCharRank(ls.rd);
      var next := RdNextChar(ls.rd);
      Pow10Threshold(1);
      assert LxReadInteger(ls.rd) == ReadDigits(next, 0, 0, 10, false);
    }
  }

  // ---------------------------------------------------------------------
  // lx_next_token_symbol
  // ---------------------------------------------------------------------

  predicate IsSymbolChar(c: char) { IsLetter(c) || IsDigit(c) }

  /** `x << off` on unt_t; a shift of 128 bits or more, undefined in C, gives 0. */
  function Shl(x: nat, off: nat): (r: UntT)
  {
    if off < 128 then Doubled(x, off) % UNT_T_MOD else 0
  }

  /** `x` doubled `n` times, without bound. */
  function Doubled(x: nat, n: nat): nat {
    if n == 0 then x else 2 * Doubled(x, n - 1)
  }

  /** Doubling n times multiplies by 2^n. */
  lemma {:induction false} DoubledIsProduct(x: nat, n: nat)
    ensures Doubled(x, n) == x * Pow2(n)
  {
    if n > 0 {
      DoubledIsProduct(x, n - 1);
      assert x * Pow2(n) == 2 * (x * Pow2(n - 1));
    }
  }

  /** The loop of lx_next_token_symbol: or in each character's code at the next 6-bit offset. */
  function PackLoop(rd: RdState, u: UntT, off: nat, ops: Ops): (r: (RdState, UntT))
    requires Valid(rd) && !rd.prv
    ensures Valid(r.0) && !r.0.prv && !IsSymbolChar(r.0.cc)
    ensures Rank(r.0) <= Rank(rd)
    ensures IsSymbolChar(rd.cc) ==> Rank(r.0) + 2 <= Rank(rd) && Moved(r.0)
    decreases Rank(rd)
  {
    if IsSymbolChar(rd.cc) then
      NextCharRank(rd);
      var next := RdNextChar(rd);
      assert rd.cc != '\0';
      assert Rank(next) + 2 <= Rank(rd);
      IntTMaxValue();
      BitOrBound(u, Shl(ops.encodeSymbolC(rd.cc), off), 128);
      NextCharRank(next);
      PackLoop(next, BitOr(u, Shl(ops.encodeSymbolC(rd.cc), off)), off + 6, ops)
    else (rd, u)
  }

  /** lx_next_token_symbol. */
  function LxNextTokenSymbol(ls: LexState, ops: Ops): LexState
    requires Ready(ls)
  {
    var (rd, u) := PackLoop(ls.rd, 0, 0, ops);
    LexState(RdPrev(rd), TSym, RUnt(u))
  }

  /** The codes of the characters `cs`, packed 6 bits apiece with the first in the lowest bits. */
  function Pack(cs: seq<char>, ops: Ops): nat {
    if cs == [] then 0 else ops.encodeSymbolC(cs[0]) + 64 * Pack(cs[1..], ops)
  }

  /** The 6-bit field i of a packed value: the inverse of Pack. */
  function Field(u: nat, i: nat): (f: nat)
    ensures f < 64
  {
    if i == 0 then u % 64 else Field(u / 64, i - 1)
  }

  /** Every character's code fits in the 6 bits a symbol reserves for it. */
  predicate SixBit(cs: seq<char>, ops: Ops) {
    forall i :: 0 <= i < |cs| ==> ops.encodeSymbolC(cs[i]) < 64
  }

  lemma {:induction false} PackFields(cs: seq<char>, ops: Ops, i: nat)
    requires SixBit(cs, ops) && i < |cs|
    ensures Field(Pack(cs, ops), i) == ops.encodeSymbolC(cs[i])
  {
    assert cs[1..] == cs[1..] && cs[0] == cs[0];
    ModUnique(Pack(cs, ops), 64, Pack(cs[1..], ops), ops.encodeSymbolC(cs[0]));
    if i > 0 {
      assert cs[1..][i - 1] == cs[i];
      PackFields(cs[1..], ops, i - 1);
    }
  }

  lemma {:induction false} PackBound(cs: seq<char>, ops: Ops)
    requires SixBit(cs, ops)
    ensures Pack(cs, ops) < Pow2(6 * |cs|)
  {
    if cs != [] {
      var rest := Pack(cs[1..], ops);
      var p := Pow2(6 * (|cs| - 1));
      assert SixBit(cs[1..], ops) by {
        forall i | 0 <= i < |cs| - 1 ensures ops.encodeSymbolC(cs[1..][i]) < 64 {
          assert cs[1..][i] == cs[i + 1];
        }
      }
      PackBound(cs[1..], ops);
      Pow2Add(6, 6 * (|cs| - 1));
      assert Pow2(6) == 64;
      assert Pow2(6 * |cs|) == 64 * p;
      ShiftBelow(ops.encodeSymbolC(cs[0]), rest, p);
    }
  }

  lemma ShiftBelow(c: nat, rest: nat, p: nat)
    requires c < 64 && rest < p
    ensures c + 64 * rest < 64 * p
  {
  }

  /** Appending a character adds its code at the offset after the others. */
  lemma {:induction false} PackSnoc(cs: seq<char>, c: char, ops: Ops)
    ensures Pack(cs + [c], ops) == Pack(cs, ops) + ops.encodeSymbolC(c) * Pow2(6 * |cs|)
  {
    var code := ops.encodeSymbolC(c);
    if cs == [] {
      assert [] + [c] == [c] && [c][1..] == [];
    } else {
      var tail := cs[1..];
      assert (cs + [c])[1..] == tail + [c];
      assert (cs + [c])[0] == cs[0];
      PackSnoc(tail, c, ops);
      var p := Pow2(6 * |tail|);
      Pow2Add(6, 6 * |tail|);
      assert Pow2(6) == 64;
      assert Pow2(6 * |cs|) == 64 * p;
      ShiftDistributes(Pack(tail, ops), code, p);
    }
  }

  lemma ShiftDistributes(a: int, c: int, p: int)
    ensures 64 * (a + c * p) == 64 * a + c * (64 * p)
  {
  }

  /** A 6-bit code shifted to an offset that leaves room for it is not cut by the shift. */
  lemma ShlExact(c: nat, off: nat)
    requires c < 64 && off + 6 <= 128
    ensures Shl(c, off) == c * Pow2(off)
  {
    IntTMaxValue();
    Pow2Add(6, off);
    assert Pow2(6) == 64;
    Pow2Monotone(off + 6, 128);
    ProductBelow(c, Pow2(off), Pow2(off + 6), UNT_T_MOD);
    DoubledIsProduct(c, off);
    ModSmall(Doubled(c, off), UNT_T_MOD);
  }

  lemma ProductBelow(c: nat, p: nat, q: nat, m: int)
    requires c < 64 && p > 0 && q == 64 * p && q <= m
    ensures c * p < m
  {
    MulBelow(c, 64, p);
  }

  lemma MulBelow(c: nat, m: nat, p: nat)
    requires c < m && p > 0
    ensures c * p < m * p
  {
  }

  lemma ModSmall(x: int, m: int)
    requires 0 <= x < m
    ensures x % m == x
  {
  }

  /** One turn of the symbol loop or's the next code in above the ones packed so far. */
  lemma PackStep(cs: seq<char>, c: char, ops: Ops)
    requires SixBit(cs, ops) && ops.encodeSymbolC(c) < 64 && |cs| < 21
    ensures Pack(cs, ops) < UNT_T_MOD
    ensures BitOr(Pack(cs, ops), Shl(ops.encodeSymbolC(c), 6 * |cs|)) == Pack(cs + [c], ops)
  {
    IntTMaxValue();
    PackBound(cs, ops);
    Pow2Monotone(6 * |cs|, 128);
    ShlExact(ops.encodeSymbolC(c), 6 * |cs|);
    BitOrDisjoint(Pack(cs, ops), ops.encodeSymbolC(c), 6 * |cs|);
    PackSnoc(cs, c, ops);
  }

  /**
   * A symbol of at most 21 characters whose codes fit in six bits is
   * packed exactly: character n sits at bit offset 6n, so field n of the
   * payload is its code.
   */
  lemma SymbolPacking(ls: LexState, ops: Ops, n: nat)
    requires Ready(ls) && IsLetter(ls.rd.cc)
    requires |Run(ls.rd, IsSymbolChar)| <= 21 && SixBit(Run(ls.rd, IsSymbolChar), ops)
    ensures var t := LxNextTokenSymbol(ls, ops);
      var cs := Run(ls.rd, IsSymbolChar);
      && t.tt == TSym
      && t.pm.RUnt?
      && t.pm.u == Pack(cs, ops)
      && (n < |cs| ==> Field(t.pm.u, n) == ops.encodeSymbolC(cs[n]))
  {
    var cs := Run(ls.rd, IsSymbolChar);
    PackLoopValue(ls.rd, [], ops);
    assert [] + cs == cs;
    if n < |cs| {
      PackFields(cs, ops, n);
    }
  }

  /** PackLoop, generalised to the characters `pre` already packed. */
  lemma {:induction false} PackLoopValue(rd: RdState, pre: seq<char>, ops: Ops)
    requires Valid(rd) && !rd.prv
    requires |pre| + |Run(rd, IsSymbolChar)| <= 21
    requires SixBit(pre + Run(rd, IsSymbolChar), ops)
    ensures Pack(pre, ops) < UNT_T_MOD
    ensures PackLoop(rd, Pack(pre, ops), 6 * |pre|, ops).1 == Pack(pre + Run(rd, IsSymbolChar), ops)
    decreases Rank(rd), 1
  {
    SixBitPrefix(pre, Run(rd, IsSymbolChar), ops);
    PackFits(pre, ops);
    if IsSymbolChar(rd.cc) {
      PackLoopValueStep(rd, pre, ops);
    } else {
      assert pre + Run(rd, IsSymbolChar) == pre;
    }
  }

  /** The case of PackLoopValue where the run is not empty. */
  lemma {:induction false} PackLoopValueStep(rd: RdState, pre: seq<char>, ops: Ops)
    requires Valid(rd) && !rd.prv && IsSymbolChar(rd.cc)
    requires |pre| + |Run(rd, IsSymbolChar)| <= 21
    requires SixBit(pre + Run(rd, IsSymbolChar), ops)
    requires Pack(pre, ops) < UNT_T_MOD && SixBit(pre, ops)
    ensures PackLoop(rd, Pack(pre, ops), 6 * |pre|, ops).1 == Pack(pre + Run(rd, IsSymbolChar), ops)
    decreases Rank(rd), 0
  {
    NextCharRank(rd);
    var next := RdNextChar(rd);
    assert rd.cc != '\0';
    RunStep(rd, IsSymbolChar);
    var c, rest := rd.cc, Run(next, IsSymbolChar);
    SymbolStep(pre, c, rest, ops);
    PackStep(pre, c, ops);
    var u, off := Pack(pre, ops), 6 * |pre|;
    PackLoopStep(rd, next, u, off, ops);
    assert off + 6 == 6 * |pre + [c]|;
    PackLoopValue(next, pre + [c], ops);
    assert PackLoop(rd, u, off, ops) == PackLoop(next, Pack(pre + [c], ops), 6 * |pre + [c]|, ops);
  }

  /** The codes of at most 21 characters fit in unt_t. */
  lemma PackFits(cs: seq<char>, ops: Ops)
    requires SixBit(cs, ops) && |cs| <= 21
    ensures Pack(cs, ops) < UNT_T_MOD
  {
    IntTMaxValue();
    PackBound(cs, ops);
    Pow2Monotone(6 * |cs|, 128);
  }

  /** The loop invariant of lx_next_token_symbol: the rest of the loop delivers `target`. */
  predicate PackInv(rd: RdState, u: UntT, off: nat, ops: Ops, target: (RdState, UntT)) {
    Valid(rd) && !rd.prv && PackLoop(rd, u, off, ops) == target
  }

  /** One turn of the loop of lx_next_token_symbol keeps its invariant. */
  lemma PackInvStep(rd: RdState, u: UntT, off: nat, ops: Ops, target: (RdState, UntT))
    requires PackInv(rd, u, off, ops, target) && IsSymbolChar(rd.cc)
    ensures Rank(RdNextChar(rd)) + 2 <= Rank(rd)
    ensures BitOr(u, Shl(ops.encodeSymbolC(rd.cc), off)) < UNT_T_MOD
    ensures PackInv(RdNextChar(rd), BitOr(u, Shl(ops.encodeSymbolC(rd.cc), off)), off + 6, ops, target)
  {
    assert rd.cc != '\0';
    NextCharRank(rd);
    PackLoopStep(rd, RdNextChar(rd), u, off, ops);
  }

  /** One turn of the loop of lx_next_token_symbol. */
  lemma PackLoopStep(rd: RdState, next: RdState, u: UntT, off: nat, ops: Ops)
    requires Valid(rd) && !rd.prv && IsSymbolChar(rd.cc)
    requires next == RdNextChar(rd) && Valid(next) && !next.prv
    ensures BitOr(u, Shl(ops.encodeSymbolC(rd.cc), off)) < UNT_T_MOD
    ensures PackLoop(rd, u, off, ops) == PackLoop(next, BitOr(u, Shl(ops.encodeSymbolC(rd.cc), off)), off + 6, ops)
  {
    IntTMaxValue();
    BitOrBound(u, Shl(ops.encodeSymbolC(rd.cc), off), 128);
  }

  lemma SixBitPrefix(a: seq<char>, b: seq<char>, ops: Ops)
    requires SixBit(a + b, ops)
    ensures SixBit(a, ops)
  {
    forall i | 0 <= i < |a| ensures ops.encodeSymbolC(a[i]) < 64 {
      assert (a + b)[i] == a[i];
    }
  }

  /** The symbol loop takes one character from the run to the part already packed. */
  lemma SymbolStep(pre: seq<char>, c: char, rest: seq<char>, ops: Ops)
    requires SixBit(pre + ([c] + rest), ops)
    ensures pre + ([c] + rest) == (pre + [c]) + rest
    ensures ops.encodeSymbolC(c) < 64
  {
    assert (pre + ([c] + rest))[|pre|] == c;
  }

  // ---------------------------------------------------------------------
  // lx_next_token_factorial
  // ---------------------------------------------------------------------

  predicate IsBang(c: char) { c == '!' }

  /** The loop of lx_next_token_factorial, counting `!` in the unt_t payload. */
  function BangLoop(rd: RdState, n: UntT): (r: (RdState, UntT))
    requires Valid(rd) && !rd.prv
    ensures Valid(r.0) && !r.0.prv && r.0.cc != '!'
    ensures Rank(r.0) <= Rank(rd)
    ensures rd.cc == '!' ==> Rank(r.0) + 2 <= Rank(rd) && Moved(r.0)
    decreases Rank(rd)
  {
    if rd.cc == '!' then
      NextCharRank(rd);
      var next := RdNextChar(rd);
      NextCharRank(next);
      BangLoop(next, (n + 1) % UNT_T_MOD)
    else (rd, n)
  }

  /** The loop invariant of lx_next_token_factorial: the rest of the loop delivers `target`. */
  predicate BangInv(rd: RdState, n: UntT, target: (RdState, UntT)) {
    Valid(rd) && !rd.prv && BangLoop(rd, n) == target
  }

  /** One turn of the loop of lx_next_token_factorial keeps its invariant. */
  lemma BangInvStep(rd: RdState, n: UntT, target: (RdState, UntT))
    requires BangInv(rd, n, target) && rd.cc == '!'
    ensures Rank(RdNextChar(rd)) + 2 <= Rank(rd)
    ensures (n + 1) % UNT_T_MOD < UNT_T_MOD
    ensures BangInv(RdNextChar(rd), (n + 1) % UNT_T_MOD, target)
  {
    IntTMaxValue();
    NextCharRank(rd);
  }

  /** lx_next_token_factorial. */
  function LxNextTokenFactorial(ls: LexState): LexState
    requires Ready(ls)
  {
    var (rd, n) := BangLoop(ls.rd, 0);
    if n == 1 && rd.cc == '=' then LexState(rd, TNeq, RUnt(n))
    else LexState(RdPrev(rd), if n == 1 then TNot else TFac, RUnt(n))
  }

  /**
   * With n the number of consecutive `!`: one `!` before `=` is `!=`, one
   * alone is `!`, and two or more are a factorial token carrying n.
   */
  lemma FactorialCount(ls: LexState)
    requires Ready(ls) && ls.rd.cc == '!'
    ensures var n := |Run(ls.rd, IsBang)|;
      var t := LxNextTokenFactorial(ls);
      var after := BangLoop(ls.rd, 0).0;
      && t.pm == RUnt(n)
      && (n == 1 && after.cc == '=' ==> t.tt == TNeq)
      && (n == 1 && after.cc != '=' ==> t.tt == TNot)
      && (n >= 2 ==> t.tt == TFac)
  {
    IntTMaxValue();
    BangLoopCount(ls.rd, 0);
  }

  lemma {:induction false} BangLoopCount(rd: RdState, n: nat)
    requires Valid(rd) && !rd.prv
    requires n + Rank(rd) < UNT_T_MOD
    ensures BangLoop(rd, n).1 == n + |Run(rd, IsBang)|
    decreases Rank(rd)
  {
    if rd.cc == '!' {
      NextCharRank(rd);
      var next := RdNextChar(rd);
      assert Run(rd, IsBang) == [rd.cc] + Run(next, IsBang);
      ModUnique(n + 1, UNT_T_MOD, 0, n + 1);
      BangLoopCount(next, n + 1);
    }
  }

  // ---------------------------------------------------------------------
  // lx_next_token
  // ---------------------------------------------------------------------

  /** The token type the first alternative whose character is `c` gives, if any. */
  function FirstMatch(alts: seq<(char, TokenType)>, c: char): (r: Option<TokenType>)
    ensures r.Some? <==> exists i :: 0 <= i < |alts| && alts[i].0 == c
    ensures r.Some? ==> exists i :: 0 <= i < |alts| && alts[i] == (c, r.value)
  {
    if alts == [] then None
    else if alts[0].0 == c then Some(alts[0].1)
    else
      var r := FirstMatch(alts[1..], c);
      if r.Some? then
        assert alts[1..][0] == alts[1];
        r
      else r
  }

  /**
   * LX_CONSUME_C_OR_RET_TT with the LX_TRY_C alternatives: step to the
   * next character; when an alternative matches it, that token ends on it,
   * otherwise the character is pushed back and the fallback token stands.
   */
  function Consume(l: LexState, fail: TokenType, alts: seq<(char, TokenType)>): LexState
    requires Valid(l.rd)
  {
    NextCharRank(l.rd);
    var rd := RdNextChar(l.rd);
    match FirstMatch(alts, rd.cc)
    case Some(tt) => l.(rd := rd, tt := tt)
    case None => l.(rd := RdPrev(rd), tt := fail)
  }

  /** The reader where lx_next_token dispatches: one step, the whitespace skipped, the mark set. */
  function TokenStart(rd: RdState): (r: RdState)
    requires Valid(rd)
    ensures Valid(r) && !r.prv && !IsWhitespace(r.cc) && r.mrk == r.ptr
    ensures Rank(r) <= Rank(RdNextChar(rd)) && Rank(r) <= Rank(rd)
  {
    NextCharRank(rd);
    var s := RdSkipWhitespaces(RdNextChar(rd));
    s.(mrk := s.ptr)
  }

  /** Which token lx_next_token dispatches to on its first character. */
  predicate StartsNumber(c: char) { IsDigit(c) || c == '.' || c == 'i' }

  /** lx_next_token. */
  function LxNextToken(ls: LexState, ops: Ops): (t: LexState)
    requires Valid(ls.rd) && Rank(ls.rd) <= INT_T_MAX
  {
    NextCharRank(ls.rd);
    Dispatch(LexState(TokenStart(ls.rd), TIll, ls.pm), ops)
  }

  /** The switch of lx_next_token on the character at the mark. */
  function Dispatch(l: LexState, ops: Ops): (t: LexState)
    requires Ready(l)
  {
    var rd := l.rd;
    match rd.cc
    case '+' => l.(tt := TAdd)
    case '-' => l.(tt := TSub)
    case '*' => l.(tt := TMul)
    case '/' => l.(tt := TQuo)
    case '%' => l.(tt := TMod)
    case '^' => l.(tt := TPow)
    case '(' => l.(tt := TLp0)
    case ')' => l.(tt := TRp0)
    case ';' => l.(tt := TEox)
    case '\0' => l.(tt := TEos)
    case '!' => LxNextTokenFactorial(l)
    case '&' => Consume(l, TIll, [('&', TAnd)])
    case '|' => Consume(l, TAbs, [('|', TOrr)])
    case '>' => Consume(l, TGre, [('=', TGeq)])
    case '<' => Consume(l, TLes, [('=', TLeq)])
    case '=' => Consume(l, TLet, [('=', TEqu)])
    case '\'' => Consume(l, TIll, [('f', TFal), ('t', TTru)])
    case _ => DispatchDefault(l, ops)
  }

  /** The default branch of the switch: numbers, then symbols; anything else stays illegal. */
  function DispatchDefault(l: LexState, ops: Ops): (t: LexState)
    requires Ready(l)
  {
    if StartsNumber(l.rd.cc) then LxNextTokenNumber(l, ops)
    else if IsLetter(l.rd.cc) then LxNextTokenSymbol(l, ops)
    else l
  }

  /** A character that no case of the switch names goes to the default branch. */
  lemma DispatchToDefault(l: LexState, ops: Ops)
    requires Ready(l) && SingleCharToken(l.rd.cc).None? && TwoCharToken(l.rd.cc, '\0').None? && l.rd.cc != '!'
    ensures Dispatch(l, ops) == DispatchDefault(l, ops)
  {
  }

  /**
   * The states between tokens: a valid reader whose current character
   * is still to be consumed (pushed back, or not the NUL of the end),
   * unless the token is the end of the string.
   */
  predicate LexValid(ls: LexState) {
    && Valid(ls.rd) && Rank(ls.rd) <= INT_T_MAX
    && (ls.tt == TEos || ls.rd.prv || ls.rd.cc != '\0')
  }

  /** lx_next_token keeps LexValid and, before the end of the string, consumes input. */
  lemma NextTokenProgress(ls: LexState, ops: Ops)
    requires LexValid(ls)
    ensures LexValid(LxNextToken(ls, ops))
    ensures ls.tt != TEos ==> Rank(LxNextToken(ls, ops).rd) < Rank(ls.rd)
  {
    NextCharRank(ls.rd);
    var rd := TokenStart(ls.rd);
    var l := LexState(rd, TIll, ls.pm);
    assert LxNextToken(ls, ops) == Dispatch(l, ops);
    assert ls.tt != TEos ==> Rank(rd) < Rank(ls.rd);
    if rd.cc in {'!', '&', '|', '>', '<', '=', '\''} {
      assert rd.cc != '\0';
      if rd.cc == '!' {
        FactorialProgress(l);
      } else {
        ConsumeProgress(l, if rd.cc == '&' then TIll else if rd.cc == '|' then TAbs else if rd.cc == '>' then TGre
          else if rd.cc == '<' then TLes else if rd.cc == '=' then TLet else TIll,
          if rd.cc == '&' then [('&', TAnd)] else if rd.cc == '|' then [('|', TOrr)] else if rd.cc == '>' then [('=', TGeq)]
          else if rd.cc == '<' then [('=', TLeq)] else if rd.cc == '=' then [('=', TEqu)] else [('f', TFal), ('t', TTru)]);
      }
    } else if rd.cc !in {'+', '-', '*', '/', '%', '^', '(', ')', ';', '\0'} {
      if StartsNumber(rd.cc) {
        NumberProgress(l, ops);
      } else if IsLetter(rd.cc) {
        SymbolProgress(l, ops);
      }
    }
  }

  /** A token reader that starts on a character other than NUL ends with one still to consume. */
  predicate Progressed(l: LexState, t: LexState) {
    && Valid(t.rd) && Rank(t.rd) <= Rank(l.rd)
    && (t.rd.prv || t.rd.cc != '\0')
  }

  lemma ConsumeProgress(l: LexState, fail: TokenType, alts: seq<(char, TokenType)>)
    requires Ready(l) && l.rd.cc != '\0'
    requires forall i :: 0 <= i < |alts| ==> alts[i].0 != '\0'
    ensures Progressed(l, Consume(l, fail, alts))
  {
    NextCharRank(l.rd);
    var rd := RdNextChar(l.rd);
    PrevRank(rd);
    PrevAfterMove(rd);
  }

  lemma FactorialProgress(l: LexState)
    requires Ready(l) && l.rd.cc == '!'
    ensures Progressed(l, LxNextTokenFactorial(l))
  {
    var (rd, n) := BangLoop(l.rd, 0);
    PrevRank(rd);
    PrevAfterMove(rd);
  }

  lemma SymbolProgress(l: LexState, ops: Ops)
    requires Ready(l) && IsLetter(l.rd.cc)
    ensures Progressed(l, LxNextTokenSymbol(l, ops))
  {
    var (rd, u) := PackLoop(l.rd, 0, 0, ops);
    PrevRank(rd);
    PrevAfterMove(rd);
  }

  lemma NumberProgress(l: LexState, ops: Ops)
    requires Ready(l) && StartsNumber(l.rd.cc)
    ensures Progressed(l, LxNextTokenNumber(l, ops))
  {
    var d := LxReadInteger(l.rd);
    var end := NumberEnd(l);
    if d.rd.cc == '.' {
      NextCharRank(d.rd);
      var f := LxReadInteger(RdNextChar(d.rd));
      assert Moved(end) && Rank(end) + 2 <= Rank(l.rd);
    } else if IsDigit(l.rd.cc) {
      assert Moved(end) && Rank(end) + 2 <= Rank(l.rd);
    } else {
      assert l.rd.cc == 'i' && end == l.rd;
    }
    if end.cc != 'i' {
      PrevRank(end);
      PrevAfterMove(end);
    }
  }

  /** A token and its payload. */
  datatype Token = Token(tt: TokenType, pm: Raw)

  /** The tokens a lexer delivers from its current one up to and including the end of the string. */
  function Tokens(ls: LexState, ops: Ops): (ts: seq<Token>)
    requires LexValid(ls)
    ensures |ts| >= 1 && ts[0] == Token(ls.tt, ls.pm)
    decreases Rank(ls.rd)
  {
    if ls.tt == TEos then [Token(ls.tt, ls.pm)]
    else
      NextTokenProgress(ls, ops);
      [Token(ls.tt, ls.pm)] + Tokens(LxNextToken(ls, ops), ops)
  }

  /** The stream ends with the end-of-string token and holds it nowhere else. */
  lemma {:induction false} TokensShape(ls: LexState, ops: Ops)
    requires LexValid(ls)
    ensures var ts := Tokens(ls, ops);
      && ts[|ts| - 1].tt == TEos
      && forall i :: 0 <= i < |ts| - 1 ==> ts[i].tt != TEos
    decreases Rank(ls.rd)
  {
    if ls.tt != TEos {
      NextTokenProgress(ls, ops);
      var next := LxNextToken(ls, ops);
      TokensShape(next, ops);
      ConsToken(Token(ls.tt, ls.pm), Tokens(next, ops));
    }
  }

  /** Putting a token other than the end of the string in front keeps the shape Tokens promises. */
  lemma ConsToken(t: Token, rest: seq<Token>)
    requires t.tt != TEos && |rest| >= 1 && rest[|rest| - 1].tt == TEos
    requires forall i :: 0 <= i < |rest| - 1 ==> rest[i].tt != TEos
    ensures var ts := [t] + rest;
      && |ts| >= 1 && ts[0] == t && ts[|ts| - 1].tt == TEos
      && forall i :: 0 <= i < |ts| - 1 ==> ts[i].tt != TEos
  {
    var ts := [t] + rest;
    forall i | 0 <= i < |ts| - 1
      ensures ts[i].tt != TEos
    {
      if i > 0 {
        assert ts[i] == rest[i - 1];
      }
    }
  }

  /** The characters that are a token by themselves, and that token. */
  function SingleCharToken(c: char): Option<TokenType> {
    match c
    case '+' => Some(TAdd)
    case '-' => Some(TSub)
    case '*' => Some(TMul)
    case '/' => Some(TQuo)
    case '%' => Some(TMod)
    case '^' => Some(TPow)
    case '(' => Some(TLp0)
    case ')' => Some(TRp0)
    case ';' => Some(TEox)
    case '\0' => Some(TEos)
    case _ => None
  }

  /** A single-character token is recognised on its character and ends on it. */
  lemma SingleCharTokens(ls: LexState, ops: Ops)
    requires LexValid(ls)
    requires SingleCharToken(TokenStart(ls.rd).cc).Some?
    ensures var t := LxNextToken(ls, ops);
      t.tt == SingleCharToken(TokenStart(ls.rd).cc).value && t.rd == TokenStart(ls.rd) && t.pm == ls.pm
  {
    NextCharRank(ls.rd);
    var l := LexState(TokenStart(ls.rd), TIll, ls.pm);
    assert LxNextToken(ls, ops) == Dispatch(l, ops);
    DispatchSingle(l, ops);
  }

  /** Dispatch on a single-character token only sets the token type. */
  lemma DispatchSingle(l: LexState, ops: Ops)
    requires Ready(l) && SingleCharToken(l.rd.cc).Some?
    ensures Dispatch(l, ops) == l.(tt := SingleCharToken(l.rd.cc).value)
  {
    var c := l.rd.cc;
    if c == '+' { assert Dispatch(l, ops) == l.(tt := TAdd); }
    else if c == '-' { assert Dispatch(l, ops) == l.(tt := TSub); }
    else if c == '*' { assert Dispatch(l, ops) == l.(tt := TMul); }
    else if c == '/' { assert Dispatch(l, ops) == l.(tt := TQuo); }
    else if c == '%' { assert Dispatch(l, ops) == l.(tt := TMod); }
    else if c == '^' { assert Dispatch(l, ops) == l.(tt := TPow); }
    else if c == '(' { assert Dispatch(l, ops) == l.(tt := TLp0); }
    else if c == ')' { assert Dispatch(l, ops) == l.(tt := TRp0); }
    else if c == ';' { assert Dispatch(l, ops) == l.(tt := TEox); }
    else { assert Dispatch(l, ops) == l.(tt := TEos); }
  }

  /** The token the two-character operators starting with `c` give, by the character `c2` after it. */
  function TwoCharToken(c: char, c2: char): Option<TokenType> {
    match c
    case '&' => Some(if c2 == '&' then TAnd else TIll)
    case '|' => Some(if c2 == '|' then TOrr else TAbs)
    case '>' => Some(if c2 == '=' then TGeq else TGre)
    case '<' => Some(if c2 == '=' then TLeq else TLes)
    case '=' => Some(if c2 == '=' then TEqu else TLet)
    case '\'' => Some(if c2 == 'f' then TFal else if c2 == 't' then TTru else TIll)
    case _ => None
  }

  /** Whether the second character completes the two-character token. */
  predicate Completes(c: char, c2: char) {
    (c == '&' && c2 == '&') || (c == '|' && c2 == '|') || (c in {'>', '<', '='} && c2 == '=')
    || (c == '\'' && c2 in {'f', 't'})
  }

  /**
   * Maximal munch over two characters: `&& || >= <= ==` and `'f`/`'t` are
   * one token ending on the second character; otherwise the first
   * character alone gives the fallback token and the second is pushed
   * back, so that stepping the reader again returns to it.
   */
  lemma TwoCharMunch(ls: LexState, ops: Ops)
    requires LexValid(ls)
    requires TwoCharToken(TokenStart(ls.rd).cc, '\0').Some?
    ensures var rd := TokenStart(ls.rd);
      var second := RdNextChar(rd);
      var t := LxNextToken(ls, ops);
      && t.tt == TwoCharToken(rd.cc, second.cc).value
      && (Completes(rd.cc, second.cc) ==> t.rd == second)
      && (!Completes(rd.cc, second.cc) ==> t.rd.prv && RdNextChar(t.rd) == second)
  {
    NextCharRank(ls.rd);
    var l := LexState(TokenStart(ls.rd), TIll, ls.pm);
    assert LxNextToken(ls, ops) == Dispatch(l, ops);
    DispatchTwoChar(l, ops);
  }

  lemma DispatchTwoChar(l: LexState, ops: Ops)
    requires Ready(l) && TwoCharToken(l.rd.cc, '\0').Some?
    ensures var second := RdNextChar(l.rd);
      var t := Dispatch(l, ops);
      && t.tt == TwoCharToken(l.rd.cc, second.cc).value
      && (Completes(l.rd.cc, second.cc) ==> t.rd == second)
      && (!Completes(l.rd.cc, second.cc) ==> t.rd.prv && RdNextChar(t.rd) == second)
  {
    DispatchConsume(l, ops);
    var c := l.rd.cc;
    if c == '\'' {
      ConsumeEffect(l, TIll, [('f', TFal), ('t', TTru)]);
    } else if c == '&' {
      ConsumeEffect(l, TIll, [('&', TAnd)]);
    } else if c == '|' {
      ConsumeEffect(l, TAbs, [('|', TOrr)]);
    } else if c == '>' {
      ConsumeEffect(l, TGre, [('=', TGeq)]);
    } else if c == '<' {
      ConsumeEffect(l, TLes, [('=', TLeq)]);
    } else {
      ConsumeEffect(l, TLet, [('=', TEqu)]);
    }
  }

  /** What Consume does to the reader: the second character is kept on a match, pushed back otherwise. */
  lemma ConsumeEffect(l: LexState, fail: TokenType, alts: seq<(char, TokenType)>)
    requires Valid(l.rd) && !l.rd.prv
    ensures var second := RdNextChar(l.rd);
      var t := Consume(l, fail, alts);
      var m := FirstMatch(alts, second.cc);
      && (m.Some? ==> t.tt == m.value && t.rd == second)
      && (m.None? ==> t.tt == fail && t.rd.prv && RdNextChar(t.rd) == second)
  {
    NextCharRank(l.rd);
    var second := RdNextChar(l.rd);
    PrevAfterMove(second);
    PushbackRoundTrip(second);
  }

  /**
   * The other branches of lx_next_token's switch.  A leading `i` starts a
   * number, not a symbol, so a symbol never begins with `i`.
   */
  lemma TokenClasses(ls: LexState, ops: Ops)
    requires LexValid(ls)
    ensures var l := LexState(TokenStart(ls.rd), TIll, ls.pm);
      var c := l.rd.cc;
      var t := LxNextToken(ls, ops);
      && (c == '!' ==> t == LxNextTokenFactorial(l))
      && (StartsNumber(c) ==> t == LxNextTokenNumber(l, ops))
      && (IsLetter(c) && c != 'i' ==> t == LxNextTokenSymbol(l, ops))
      && (SingleCharToken(c).None? && TwoCharToken(c, '\0').None? && c != '!' && !StartsNumber(c) && !IsLetter(c)
          ==> t == l)
  {
    NextCharRank(ls.rd);
    var l := LexState(TokenStart(ls.rd), TIll, ls.pm);
    assert LxNextToken(ls, ops) == Dispatch(l, ops);
    var c := l.rd.cc;
    if c == '!' {
      DispatchBang(l, ops);
    } else if StartsNumber(c) {
      DispatchNumber(l, ops);
    } else if IsLetter(c) {
      DispatchSymbol(l, ops);
    } else if SingleCharToken(c).None? && TwoCharToken(c, '\0').None? {
      DispatchNone(l, ops);
    }
  }

  /** The branches of Dispatch that may take a second character. */
  lemma DispatchConsume(l: LexState, ops: Ops)
    requires Ready(l)
    ensures var c := l.rd.cc;
      && (c == '&' ==> Dispatch(l, ops) == Consume(l, TIll, [('&', TAnd)]))
      && (c == '|' ==> Dispatch(l, ops) == Consume(l, TAbs, [('|', TOrr)]))
      && (c == '>' ==> Dispatch(l, ops) == Consume(l, TGre, [('=', TGeq)]))
      && (c == '<' ==> Dispatch(l, ops) == Consume(l, TLes, [('=', TLeq)]))
      && (c == '=' ==> Dispatch(l, ops) == Consume(l, TLet, [('=', TEqu)]))
      && (c == '\'' ==> Dispatch(l, ops) == Consume(l, TIll, [('f', TFal), ('t', TTru)]))
  {
  }

  /** Dispatch on `!` reads a factorial or `!`/`!=`. */
  lemma DispatchBang(l: LexState, ops: Ops)
    requires Ready(l) && l.rd.cc == '!'
    ensures Dispatch(l, ops) == LxNextTokenFactorial(l)
  {
  }

  /** Dispatch on a digit, `.` or `i` reads a number. */
  lemma DispatchNumber(l: LexState, ops: Ops)
    requires Ready(l) && StartsNumber(l.rd.cc)
    ensures Dispatch(l, ops) == LxNextTokenNumber(l, ops)
  {
    assert SingleCharToken(l.rd.cc).None? && TwoCharToken(l.rd.cc, '\0').None?;
    DispatchToDefault(l, ops);
  }

  /** Dispatch on a letter other than `i` reads a symbol. */
  lemma DispatchSymbol(l: LexState, ops: Ops)
    requires Ready(l) && IsLetter(l.rd.cc) && l.rd.cc != 'i'
    ensures Dispatch(l, ops) == LxNextTokenSymbol(l, ops)
  {
    assert SingleCharToken(l.rd.cc).None? && TwoCharToken(l.rd.cc, '\0').None? && !StartsNumber(l.rd.cc);
    DispatchToDefault(l, ops);
  }

  /** Any other character leaves the token illegal and the reader where it is. */
  lemma DispatchNone(l: LexState, ops: Ops)
    requires Ready(l)
    requires var c := l.rd.cc;
      SingleCharToken(c).None? && TwoCharToken(c, '\0').None? && c != '!' && !StartsNumber(c) && !IsLetter(c)
    ensures Dispatch(l, ops) == l
  {
    DispatchToDefault(l, ops);
  }

  // ---------------------------------------------------------------------
  // The Lexer struct
  // ---------------------------------------------------------------------

  /** The lexer as the mutable struct the parser owns; each method is its `lx_*` routine. */
  class Lexer {
    const rd: Reader
    var tt: TokenType
    var pm: Raw
    const ops: Ops

    function State(): LexState
      reads this, rd, rd.buf
    {
      LexState(rd.State(), tt, pm)
    }

    /** A zero-initialised lexer: token type TT_EOS (0) and an all-zero payload. */
    constructor (reader: Reader, ops: Ops)
      ensures rd == reader && this.ops == ops
      ensures tt == TEos && pm == RUnt(0)
    {
      rd := reader;
      this.ops := ops;
      tt := TEos;
      pm := RUnt(0);
    }

    method ReadInteger() returns (mnt: nat, exp: nat, pow10: nat)
      requires Valid(rd.State()) && !rd.State().prv
      modifies rd, rd.buf
      ensures IntRead(rd.State(), mnt, exp, pow10) == LxReadInteger(old(rd.State()))
    {
      mnt, exp, pow10 := 0, 0, 1;
      var overflow := false;
      Pow10Threshold(0);
      while IsDigit(rd.cc)
        invariant DigitsInv(rd.State(), mnt, exp, pow10, overflow, LxReadInteger(old(rd.State())))
        modifies rd, rd.buf
        decreases Rank(rd.State())
      {
        ghost var st, mnt0, exp0, pow100, overflow0 := rd.State(), mnt, exp, pow10, overflow;
        if !overflow {
          mnt := mnt * 10 + DigitValue(rd.cc);
          pow10 := pow10 * 10;
          overflow := pow10 > INT_T_MAX / 10;
        } else {
          exp := exp + 1;
        }
        ReadDigitsStep(st, mnt0, exp0, pow100, overflow0, LxReadInteger(old(rd.State())), mnt, exp, pow10, overflow);
        rd.NextChar();
      }
    }

    method NextTokenNumber()
      requires Ready(State())
      modifies this, rd, rd.buf
      ensures State() == LxNextTokenNumber(old(State()), ops)
    {
      ghost var s := State();
      tt := TIll;
      var mnt, exp, _ := ReadInteger();
      assert exp <= INT_T_MAX;
      if rd.cc == '.' {
        ReadFraction(mnt, exp);
      } else if exp != 0 {
        tt := TFlt;
        pm := RFlt(ops.mulF(ops.fltOfInt(mnt), ops.powF(ops.fltOfInt(10), ops.fltOfInt(exp))));
      } else if rd.cc != 'i' || mnt != 0 {
        tt := TInt;
        pm := RInt(mnt);
      }
      ghost var t0 := State();
      assert t0 == NumberBody(s, ops);
      NumberSuffix();
    }

    /** The `.` branch of lx_next_token_number, after the integer part `mnt`, `exp`. */
    method ReadFraction(mnt: IntT, exp: IntT)
      requires Valid(rd.State()) && !rd.State().prv && rd.cc == '.' && mnt >= 0 && exp >= 0
      modifies this, rd, rd.buf
      ensures
        var f := LxReadInteger(RdNextChar(old(rd.State())));
        var scaled := ops.mulF(ops.fltOfInt(mnt), ops.powF(ops.fltOfInt(10), ops.fltOfInt(exp)));
        State() == LexState(f.rd, TFlt, RFlt(ops.addF(scaled, ops.quoF(ops.fltOfInt(f.mnt), ops.fltOfInt(f.pow10)))))
    {
      tt := TFlt;
      NextCharRank(rd.State());
      rd.NextChar();
      var scaled := ops.mulF(ops.fltOfInt(mnt), ops.powF(ops.fltOfInt(10), ops.fltOfInt(exp)));
      var mnt', _, decimalLog10 := ReadInteger();
      pm := RFlt(ops.addF(scaled, ops.quoF(ops.fltOfInt(mnt'), ops.fltOfInt(decimalLog10))));
    }

    /** The final test of lx_next_token_number for a trailing `i`. */
    method NumberSuffix()
      modifies this, rd
      ensures State() == NumberTail(old(State()), ops)
    {
      if rd.cc == 'i' {
        if tt == TIll {
          pm := RCmx(ops.imagUnit);
        } else if tt == TFlt {
          pm := RCmx(ops.mulC(ops.cmxOfFlt(AsFlt(pm, ops)), ops.imagUnit));
        } else if tt == TInt {
          pm := RCmx(ops.mulC(ops.cmxOfInt(AsInt(pm, ops)), ops.imagUnit));
        }
        tt := TCmx;
        return;
      }
      rd.Prev();
    }

    method NextTokenSymbol()
      requires Ready(State())
      modifies this, rd, rd.buf
      ensures State() == LxNextTokenSymbol(old(State()), ops)
    {
      tt := TSym;
      var u := PackSymbol();
      pm := RUnt(u);
      rd.Prev();
    }

    /** The loop of lx_next_token_symbol, on the reader. */
    method PackSymbol() returns (u: UntT)
      requires Valid(rd.State()) && !rd.prv
      modifies rd, rd.buf
      ensures (rd.State(), u) == PackLoop(old(rd.State()), 0, 0, ops)
    {
      u := 0;
      var off: nat := 0;
      ghost var target := PackLoop(rd.State(), 0, 0, ops);
      while IsSymbolChar(rd.cc)
        invariant PackInv(rd.State(), u, off, ops, target)
        decreases Rank(rd.State())
      {
        ghost var st := rd.State();
        PackInvStep(st, u, off, ops, target);
        u := BitOr(u, Shl(ops.encodeSymbolC(rd.cc), off));
        off := off + 6;
        rd.NextChar();
        assert PackInv(RdNextChar(st), u, off, ops, target);
      }
    }

    method NextTokenFactorial()
      requires Ready(State())
      modifies this, rd, rd.buf
      ensures State() == LxNextTokenFactorial(old(State()))
    {
      tt := TFac;
      var n := CountBangs();
      pm := RUnt(n);
      if n == 1 && rd.cc == '=' {
        tt := TNeq;
        return;
      }
      if n == 1 {
        tt := TNot;
      }
      rd.Prev();
    }

    /** The loop of lx_next_token_factorial, on the reader. */
    method CountBangs() returns (n: UntT)
      requires Valid(rd.State()) && !rd.prv
      modifies rd, rd.buf
      ensures (rd.State(), n) == BangLoop(old(rd.State()), 0)
    {
      n := 0;
      ghost var target := BangLoop(rd.State(), 0);
      while rd.cc == '!'
        invariant BangInv(rd.State(), n, target)
        decreases Rank(rd.State())
      {
        BangInvStep(rd.State(), n, target);
        rd.NextChar();
        n := (n + 1) % UNT_T_MOD;
      }
    }

    /** LX_CONSUME_C_OR_RET_TT with the LX_TRY_C alternatives `alts`. */
    method ConsumeOrReturn(failure: TokenType, alts: seq<(char, TokenType)>)
      requires Valid(rd.State())
      modifies this, rd, rd.buf
      ensures State() == Consume(old(State()), failure, alts)
    {
      NextCharRank(rd.State());
      rd.NextChar();
      var m := FirstMatch(alts, rd.cc);
      if m.Some? {
        tt := m.value;
        return;
      }
      rd.Prev();
      tt := failure;
    }

    method NextToken()
      requires Valid(rd.State()) && Rank(rd.State()) <= INT_T_MAX
      modifies this, rd, rd.buf
      ensures State() == LxNextToken(old(State()), ops)
    {
      ghost var s := State();
      NextCharRank(rd.State());
      rd.NextChar();
      rd.SkipWhitespaces();
      rd.mrk := rd.ptr;
      tt := TIll;
      assert State() == LexState(TokenStart(s.rd), TIll, s.pm);
      assert LxNextToken(s, ops) == Dispatch(State(), ops);
      Switch();
    }

    /** The switch of lx_next_token. */
    method Switch()
      requires Ready(State())
      modifies this, rd, rd.buf
      ensures State() == Dispatch(old(State()), ops)
    {
      ghost var l := State();
      if SingleCharToken(l.rd.cc).Some? {
        DispatchSingle(l, ops);
      }
      DispatchConsume(l, ops);
      var c := rd.cc;
      if c == '+' { tt := TAdd; }
      else if c == '-' { tt := TSub; }
      else if c == '*' { tt := TMul; }
      else if c == '/' { tt := TQuo; }
      else if c == '%' { tt := TMod; }
      else if c == '^' { tt := TPow; }
      else if c == '(' { tt := TLp0; }
      else if c == ')' { tt := TRp0; }
      else if c == ';' { tt := TEox; }
      else if c == '\0' { tt := TEos; }
      else if c == '!' { DispatchBang(l, ops); NextTokenFactorial(); }
      else if c == '&' { ConsumeOrReturn(TIll, [('&', TAnd)]); }
      else if c == '|' { ConsumeOrReturn(TAbs, [('|', TOrr)]); }
      else if c == '>' { ConsumeOrReturn(TGre, [('=', TGeq)]); }
      else if c == '<' { ConsumeOrReturn(TLes, [('=', TLeq)]); }
      else if c == '=' { ConsumeOrReturn(TLet, [('=', TEqu)]); }
      else if c == '\'' { ConsumeOrReturn(TIll, [('f', TFal), ('t', TTru)]); }
      else if StartsNumber(c) { DispatchNumber(l, ops); NextTokenNumber(); }
      else if IsLetter(c) { DispatchSymbol(l, ops); NextTokenSymbol(); }
      else { DispatchNone(l, ops); }
    }
  }
}
