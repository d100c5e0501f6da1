/**
 * The value domain shared by the lexer, parser and interpreter: the
 * `Primitive` union and the external numeric routines.
 *
 * Floating-point (`flt_t`, a long double) and complex values are opaque;
 * every operation on them, every libm routine and every foreign routine
 * declared in util.h without a body is a field of an `Ops` record that the
 * model is parameterised by.  Only the integer and boolean parts of the
 * evaluator are interpreted.
 */
module Numerics {
  import opened Util

  /** flt_t (long double), uninterpreted. */
  type Flt(==)

  /** The complex long double of <complex.h>, uninterpreted. */
  type Cmx(==)

  /**
   * The `Primitive` union, as the member that was written last.  Reading a
   * different member reinterprets the bytes; between the 128-bit integer
   * members that is two's complement, every other pun is left to `Ops`.
   */
  datatype Raw =
    | RUnt(u: UntT)    // n_unt
    | RInt(i: IntT)    // n_int
    | RFlt(f: Flt)     // n_flt
    | RCmx(c: Cmx)     // n_cmx
    | RBol(b: bool)    // n_bol

  /** The routines the model does not interpret. */
  datatype Ops = Ops(
    // conversions (casts and the usual arithmetic conversions)
    fltOfInt: IntT -> Flt,
    cmxOfInt: IntT -> Cmx,
    cmxOfFlt: Flt -> Cmx,
    // flt_t arithmetic and libm
    addF: (Flt, Flt) -> Flt,
    subF: (Flt, Flt) -> Flt,
    mulF: (Flt, Flt) -> Flt,
    quoF: (Flt, Flt) -> Flt,
    fmodF: (Flt, Flt) -> Flt,
    powF: (Flt, Flt) -> Flt,
    negF: Flt -> Flt,
    fabsF: Flt -> Flt,
    gtF: (Flt, Flt) -> bool,
    ltF: (Flt, Flt) -> bool,
    isZeroF: Flt -> bool,
    almostEqF: (Flt, Flt) -> bool,
    // complex arithmetic
    addC: (Cmx, Cmx) -> Cmx,
    subC: (Cmx, Cmx) -> Cmx,
    mulC: (Cmx, Cmx) -> Cmx,
    quoC: (Cmx, Cmx) -> Cmx,
    powC: (Cmx, Cmx) -> Cmx,
    negC: Cmx -> Cmx,
    cabsC: Cmx -> Flt,
    isZeroC: Cmx -> bool,
    almostEqC: (Cmx, Cmx) -> bool,
    imagUnit: Cmx,
    // foreign routines of util.h
    powInt: (IntT, IntT) -> IntT,
    facInt: (IntT, IntT) -> IntT,
    facFlt: (Flt, Flt) -> Flt,
    encodeSymbolC: char -> UntT,
    // reinterpretation of union members across representations
    punInt: Raw -> IntT,
    punFlt: Raw -> Flt,
    punCmx: Raw -> Cmx,
    punBol: Raw -> bool)

  /** Reading the n_int member. */
  function AsInt(r: Raw, ops: Ops): (x: IntT)
    ensures r.RInt? ==> x == r.i
    ensures r.RUnt? ==> x == SignedOf(r.u)
  {
    match r
    case RInt(i) => i
    case RUnt(u) => SignedOf(u)
    case _ => ops.punInt(r)
  }

  /** Reading the n_unt member. */
  function AsUnt(r: Raw, ops: Ops): (u: UntT)
    ensures r.RUnt? ==> u == r.u
    ensures r.RInt? ==> u == UnsignedOf(r.i)
  {
    match r
    case RUnt(u) => u
    case RInt(i) => UnsignedOf(i)
    case _ => UnsignedOf(ops.punInt(r))
  }

  /** Reading the n_flt member. */
  function AsFlt(r: Raw, ops: Ops): (f: Flt)
    ensures r.RFlt? ==> f == r.f
  {
    if r.RFlt? then r.f else ops.punFlt(r)
  }

  /** Reading the n_cmx member. */
  function AsCmx(r: Raw, ops: Ops): (c: Cmx)
    ensures r.RCmx? ==> c == r.c
  {
    if r.RCmx? then r.c else ops.punCmx(r)
  }

  /** Reading the n_bol member. */
  function AsBol(r: Raw, ops: Ops): (b: bool)
    ensures r.RBol? ==> b == r.b
  {
    if r.RBol? then r.b else ops.punBol(r)
  }

  /** The two 128-bit members alias exactly: writing one and reading the other loses nothing. */
  lemma IntegerMembersAlias(x: IntT, u: UntT, ops: Ops)
    ensures AsUnt(RInt(AsInt(RUnt(u), ops)), ops) == u
    ensures AsInt(RUnt(AsUnt(RInt(x), ops)), ops) == x
  {
    SignedUnsignedRoundTrip(x, u);
  }
}
