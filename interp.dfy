/**
 * The tree-walking evaluator of mewa.c (the `ir_*` routines).
 *
 * Every routine of the C code writes its result into a caller-supplied
 * node `dst` and returns an IR_ERR.  Only the node's type and its
 * `Primitive` union are ever written or read, so `dst` is a `Slot` value
 * and each routine is a function from the `Slot` it finds to the `Slot` it
 * leaves, together with its error.  A routine that returns an error may
 * already have written `dst`; the model keeps those partial writes, since
 * ir_biop_exec reads the right operand's `dst` even when its evaluation
 * failed.
 *
 * Signed overflow, a division or remainder of INT_T_MIN by -1 and a
 * remainder by zero are undefined behaviour in C.  The integer routines
 * that would perform one have a precondition excluding it, and the
 * evaluator yields `Undefined` instead of calling them.
 */
module Interp {
  import opened Util
  import opened Numerics
  import opened Ast

  /** IR_ERR. */
  datatype IrErr = NoErr | IllNt | NumArgExpected | DivByZero | NotDefinedForType | NotImplemented

  /** The parts of `dst` the evaluator uses: its node type and its union. */
  datatype Slot = Slot(kind: PrimKind, pm: Raw)

  /** What a call of an `ir_*` routine does: an error and the `dst` it leaves, or undefined behaviour. */
  datatype Outcome = Done(err: IrErr, dst: Slot) | Undefined

  // ---------------------------------------------------------------------
  // C integer division
  // ---------------------------------------------------------------------

  function AbsInt(x: int): nat { if x < 0 then -x else x }

  /** C's `/` on integers: the quotient truncated toward zero. */
  function TruncDiv(x: int, y: int): int
    requires y != 0
  {
    if (x < 0) == (y < 0) then AbsInt(x) / AbsInt(y) else -(AbsInt(x) / AbsInt(y))
  }

  /** C's `%` on integers: what is left after the truncated quotient. */
  function TruncMod(x: int, y: int): int
    requires y != 0
  {
    x - y * TruncDiv(x, y)
  }

  /** The two conditions section 6.5.5 of ISO C11 places on `/` and `%`. */
  lemma TruncDivMod(x: int, y: int)
    requires y != 0
    ensures TruncDiv(x, y) * y + TruncMod(x, y) == x
    ensures AbsInt(TruncMod(x, y)) < AbsInt(y)
    ensures x >= 0 ==> TruncMod(x, y) >= 0
    ensures x <= 0 ==> TruncMod(x, y) <= 0
    ensures AbsInt(TruncDiv(x, y)) <= AbsInt(x)
  {
    var ax: int, ay: int := AbsInt(x), AbsInt(y);
    var q: int, m: int := ax / ay, ax % ay;
    NatDivMod(ax, ay);
    assert y * TruncDiv(x, y) == if x < 0 then -(ay * q) else ay * q by {
      SignedProduct(x < 0, y < 0, ay, q);
    }
    assert TruncMod(x, y) == if x < 0 then -m else m;
  }

  /** Euclidean division of naturals, with the quotient no larger than the dividend. */
  lemma NatDivMod(a: int, b: int)
    requires a >= 0 && b > 0
    ensures a == (a / b) * b + a % b && 0 <= a % b < b && 0 <= a / b <= a
  {
    var q := a / b;
    if q >= 1 {
      MulAtLeast(b, q);
      assert q * b >= q;
    }
  }

  /** The sign rule for a product of a signed divisor and a signed truncated quotient. */
  lemma SignedProduct(xNeg: bool, yNeg: bool, ay: int, q: int)
    ensures (if yNeg then -ay else ay) * (if xNeg == yNeg then q else -q) == if xNeg then -(ay * q) else ay * q
  {
    if yNeg && !xNeg {
      assert (-ay) * (-q) == ay * q;
    } else if yNeg {
      assert (-ay) * q == -(ay * q);
    } else if xNeg {
      assert ay * (-q) == -(ay * q);
    }
  }

  /** A C division or remainder is defined exactly when the divisor is not zero and the quotient fits. */
  predicate DivDefined(x: IntT, y: IntT) {
    y != 0 && !(x == INT_T_MIN && y == -1)
  }

  /** `a.n_int / b.n_int`, with the undefined cases excluded. */
  function QuoInt(x: IntT, y: IntT): (q: IntT)
    requires DivDefined(x, y)
    ensures TruncDiv(x, y) == q
  {
    TruncDivMod(x, y);
    TruncDiv(x, y)
  }

  /** `a.n_int % b.n_int`, with the undefined cases excluded. */
  function ModInt(x: IntT, y: IntT): (m: IntT)
    requires DivDefined(x, y)
    ensures QuoInt(x, y) * y + m == x
    ensures AbsInt(m) < AbsInt(y) && (x >= 0 ==> m >= 0) && (x <= 0 ==> m <= 0)
  {
    TruncDivMod(x, y);
    TruncMod(x, y)
  }

  // ---------------------------------------------------------------------
  // Unary operators
  // ---------------------------------------------------------------------

  /** ir_unop_exec_n_int.  `a` is also what `dst` holds. */
  function UnopInt(op: UnKind, a: Raw, ops: Ops): (r: Outcome)
    ensures r.Undefined? <==> op in {Neg, Abs} && AsInt(a, ops) == INT_T_MIN
    ensures r.Done? ==> r.dst.kind == KInt && (r.err == NoErr <==> op != Not)
    ensures r.Done? && op != Not ==> AsInt(r.dst.pm, ops) == if op == Nop then AsInt(a, ops)
      else if op == Neg then -AsInt(a, ops) else AbsInt(AsInt(a, ops))
  {
    var x := AsInt(a, ops);
    match op
    case Nop => Done(NoErr, Slot(KInt, a))
    case Neg => if x == INT_T_MIN then Undefined else Done(NoErr, Slot(KInt, RInt(-x)))
    case Abs =>
      if x < 0 then (if x == INT_T_MIN then Undefined else Done(NoErr, Slot(KInt, RInt(-x))))
      else Done(NoErr, Slot(KInt, RInt(x)))
    case Not => Done(IllNt, Slot(KInt, a))
  }

  /** ir_unop_exec_n_flt. */
  function UnopFlt(op: UnKind, a: Raw, ops: Ops): (r: Outcome)
    ensures r.Done? && r.dst.kind == KFlt && (r.err == NoErr <==> op != Not)
  {
    var x := AsFlt(a, ops);
    match op
    case Nop => Done(NoErr, Slot(KFlt, a))
    case Neg => Done(NoErr, Slot(KFlt, RFlt(ops.negF(x))))
    case Abs => Done(NoErr, Slot(KFlt, RFlt(ops.fabsF(x))))
    case Not => Done(IllNt, Slot(KFlt, a))
  }

  /** ir_unop_exec_n_cmx: the absolute value of a complex number is a float. */
  function UnopCmx(op: UnKind, a: Raw, ops: Ops): (r: Outcome)
    ensures r.Done? && (r.err == NoErr <==> op != Not)
    ensures r.dst.kind == if op == Abs then KFlt else KCmx
  {
    var z := AsCmx(a, ops);
    match op
    case Nop => Done(NoErr, Slot(KCmx, a))
    case Neg => Done(NoErr, Slot(KCmx, RCmx(ops.negC(z))))
    case Abs => Done(NoErr, Slot(KFlt, RFlt(ops.cabsC(z))))
    case Not => Done(IllNt, Slot(KCmx, a))
  }

  /** ir_unop_exec_n_bol: only `!` applies to a boolean. */
  function UnopBol(op: UnKind, a: Raw, ops: Ops): (r: Outcome)
    ensures r.Done? && r.dst.kind == KBol && (r.err == NoErr <==> op == Not)
    ensures r.err == NoErr ==> r.dst.pm == RBol(!AsBol(a, ops))
  {
    match op
    case Not => Done(NoErr, Slot(KBol, RBol(!AsBol(a, ops))))
    case _ => Done(IllNt, Slot(KBol, a))
  }

  // ---------------------------------------------------------------------
  // Binary operators, one table per operand type
  // ---------------------------------------------------------------------

  predicate IsComparison(op: BiKind) { op in {Gre, Les, Geq, Leq, Equ, Neq} }

  /** The truth of an integer comparison. */
  function CompareInt(op: BiKind, x: int, y: int): bool
    requires IsComparison(op)
  {
    match op
    case Gre => x > y
    case Les => x < y
    case Geq => x >= y
    case Leq => x <= y
    case Equ => x == y
    case Neq => x != y
  }

  /** ir_biop_exec_cmp_n_int.  `d` is what `dst`'s union holds on entry. */
  function CmpInt(op: BiKind, x: IntT, y: IntT, d: Raw): (r: Outcome)
    ensures r.Done? && r.dst.kind == KBol && (r.err == NoErr <==> IsComparison(op))
    ensures r.err == NoErr ==> r.dst.pm == RBol(CompareInt(op, x, y))
  {
    match op
    case Gre => Done(NoErr, Slot(KBol, RBol(x > y)))
    case Les => Done(NoErr, Slot(KBol, RBol(x < y)))
    case Geq => Done(NoErr, Slot(KBol, RBol(x >= y)))
    case Leq => Done(NoErr, Slot(KBol, RBol(x <= y)))
    case Equ => Done(NoErr, Slot(KBol, RBol(x == y)))
    case Neq => Done(NoErr, Slot(KBol, RBol(x != y)))
    case _ => Done(IllNt, Slot(KBol, d))
  }

  /** The C operations of ir_biop_exec_n_int that are undefined for these operands. */
  predicate IntUndefined(op: BiKind, x: IntT, y: IntT) {
    match op
    case Add => !InIntT(x + y)
    case Sub => !InIntT(x - y)
    case Mul => !InIntT(x * y)
    case Mod => !DivDefined(x, y)
    case Quo => y != 0 && !DivDefined(x, y)
    case _ => false
  }

  /** ir_biop_exec_n_int, with the comparisons of ir_biop_exec_cmp_n_int as its default case. */
  function BiopInt(op: BiKind, a: Raw, b: Raw, d: Raw, ops: Ops): (r: Outcome)
    ensures var x, y := AsInt(a, ops), AsInt(b, ops);
      && (r.Undefined? <==> IntUndefined(op, x, y))
      && (r.Done? ==> (r.err == DivByZero <==> op == Quo && y == 0))
      && (r.Done? ==> (r.err == IllNt <==> op in {Let, And, Orr}))
      && (r.Done? ==> r.err in {NoErr, DivByZero, IllNt})
      && (r.Done? && r.err == NoErr ==>
            r.dst.kind == (if IsComparison(op) then KBol
              else if (op == Quo && DivDefined(x, y) && ModInt(x, y) != 0) || (op == Pow && y < 0) then KFlt
              else KInt))
  {
    var x, y := AsInt(a, ops), AsInt(b, ops);
    match op
    case Add => if InIntT(x + y) then Done(NoErr, Slot(KInt, RInt(x + y))) else Undefined
    case Sub => if InIntT(x - y) then Done(NoErr, Slot(KInt, RInt(x - y))) else Undefined
    case Mul => if InIntT(x * y) then Done(NoErr, Slot(KInt, RInt(x * y))) else Undefined
    case Mod => if DivDefined(x, y) then Done(NoErr, Slot(KInt, RInt(ModInt(x, y)))) else Undefined
    case Fac => Done(NoErr, Slot(KInt, RInt(ops.facInt(x, y))))
    case Quo =>
      if y == 0 then Done(DivByZero, Slot(KInt, d))
      else if !DivDefined(x, y) then Undefined
      else if ModInt(x, y) != 0 then Done(NoErr, Slot(KFlt, RFlt(ops.quoF(ops.fltOfInt(x), ops.fltOfInt(y)))))
      else Done(NoErr, Slot(KInt, RInt(QuoInt(x, y))))
    case Pow =>
      if y < 0 then Done(NoErr, Slot(KFlt, RFlt(ops.powF(ops.fltOfInt(x), ops.fltOfInt(y)))))
      else Done(NoErr, Slot(KInt, RInt(ops.powInt(x, y))))
    case _ => CmpInt(op, x, y, d)
  }

  /** ir_biop_exec_cmp_n_flt: `>=`, `<=`, `==` and `!=` go through is_almost_equal_flt. */
  function CmpFlt(op: BiKind, x: Flt, y: Flt, d: Raw, ops: Ops): (r: Outcome)
    ensures r.Done? && r.dst.kind == KBol && (r.err == NoErr <==> IsComparison(op))
    ensures op == Neq ==> r.dst.pm == RBol(!ops.almostEqF(x, y))
  {
    match op
    case Gre => Done(NoErr, Slot(KBol, RBol(ops.gtF(x, y))))
    case Les => Done(NoErr, Slot(KBol, RBol(ops.ltF(x, y))))
    case Geq => Done(NoErr, Slot(KBol, RBol(ops.almostEqF(x, y) || ops.gtF(x, y))))
    case Leq => Done(NoErr, Slot(KBol, RBol(ops.almostEqF(x, y) || ops.ltF(x, y))))
    case Equ => Done(NoErr, Slot(KBol, RBol(ops.almostEqF(x, y))))
    case Neq => Done(NoErr, Slot(KBol, RBol(!ops.almostEqF(x, y))))
    case _ => Done(IllNt, Slot(KBol, d))
  }

  /** ir_biop_exec_n_flt. */
  function BiopFlt(op: BiKind, a: Raw, b: Raw, d: Raw, ops: Ops): (r: Outcome)
    ensures r.Done?
    ensures r.err == DivByZero <==> op == Quo && ops.isZeroF(AsFlt(b, ops))
    ensures r.err == IllNt <==> op in {Let, And, Orr}
    ensures r.err in {NoErr, DivByZero, IllNt}
    ensures r.err == NoErr ==> r.dst.kind == if IsComparison(op) then KBol else KFlt
  {
    var x, y := AsFlt(a, ops), AsFlt(b, ops);
    match op
    case Add => Done(NoErr, Slot(KFlt, RFlt(ops.addF(x, y))))
    case Sub => Done(NoErr, Slot(KFlt, RFlt(ops.subF(x, y))))
    case Mul => Done(NoErr, Slot(KFlt, RFlt(ops.mulF(x, y))))
    case Mod => Done(NoErr, Slot(KFlt, RFlt(ops.fmodF(x, y))))
    case Pow => Done(NoErr, Slot(KFlt, RFlt(ops.powF(x, y))))
    case Fac => Done(NoErr, Slot(KFlt, RFlt(ops.facFlt(x, y))))
    case Quo =>
      if ops.isZeroF(y) then Done(DivByZero, Slot(KFlt, d))
      else Done(NoErr, Slot(KFlt, RFlt(ops.quoF(x, y))))
    case _ => CmpFlt(op, x, y, d, ops)
  }

  /** ir_biop_exec_cmp_n_cmx: complex numbers compare only for (almost) equality. */
  function CmpCmx(op: BiKind, x: Cmx, y: Cmx, d: Raw, ops: Ops): (r: Outcome)
    ensures r.Done? && r.dst.kind == KBol && (r.err == NoErr <==> op in {Equ, Neq})
  {
    match op
    case Equ => Done(NoErr, Slot(KBol, RBol(ops.almostEqC(x, y))))
    case Neq => Done(NoErr, Slot(KBol, RBol(!ops.almostEqC(x, y))))
    case _ => Done(IllNt, Slot(KBol, d))
  }

  /** ir_biop_exec_n_cmx: no remainder and no factorial of complex numbers. */
  function BiopCmx(op: BiKind, a: Raw, b: Raw, d: Raw, ops: Ops): (r: Outcome)
    ensures r.Done?
    ensures r.err == NotDefinedForType <==> op in {Mod, Fac}
    ensures r.err == DivByZero <==> op == Quo && ops.isZeroC(AsCmx(b, ops))
    ensures r.err == IllNt <==> op in {Let, And, Orr, Gre, Les, Geq, Leq}
    ensures r.err == NoErr ==> r.dst.kind == if op in {Equ, Neq} then KBol else KCmx
  {
    var x, y := AsCmx(a, ops), AsCmx(b, ops);
    match op
    case Add => Done(NoErr, Slot(KCmx, RCmx(ops.addC(x, y))))
    case Sub => Done(NoErr, Slot(KCmx, RCmx(ops.subC(x, y))))
    case Mul => Done(NoErr, Slot(KCmx, RCmx(ops.mulC(x, y))))
    case Pow => Done(NoErr, Slot(KCmx, RCmx(ops.powC(x, y))))
    case Mod => Done(NotDefinedForType, Slot(KCmx, d))
    case Fac => Done(NotDefinedForType, Slot(KCmx, d))
    case Quo =>
      if ops.isZeroC(y) then Done(DivByZero, Slot(KCmx, d))
      else Done(NoErr, Slot(KCmx, RCmx(ops.quoC(x, y))))
    case _ => CmpCmx(op, x, y, d, ops)
  }

  /** ir_biop_exec_n_bol: the logical operators and equality; booleans are not ordered. */
  function BiopBol(op: BiKind, a: Raw, b: Raw, d: Raw, ops: Ops): (r: Outcome)
    ensures r.Done? && r.dst.kind == KBol
    ensures r.err == NoErr <==> op in {Orr, And, Equ, Neq}
    ensures r.err == NotDefinedForType <==> op in {Gre, Les, Geq, Leq}
    ensures r.err in {NoErr, NotDefinedForType, IllNt}
  {
    var x, y := AsBol(a, ops), AsBol(b, ops);
    match op
    case Orr => Done(NoErr, Slot(KBol, RBol(x || y)))
    case And => Done(NoErr, Slot(KBol, RBol(x && y)))
    case Equ => Done(NoErr, Slot(KBol, RBol(x == y)))
    case Neq => Done(NoErr, Slot(KBol, RBol(x != y)))
    case Gre => Done(NotDefinedForType, Slot(KBol, d))
    case Les => Done(NotDefinedForType, Slot(KBol, d))
    case Geq => Done(NotDefinedForType, Slot(KBol, d))
    case Leq => Done(NotDefinedForType, Slot(KBol, d))
    case _ => Done(IllNt, Slot(KBol, d))
  }

  // ---------------------------------------------------------------------
  // Type promotion
  // ---------------------------------------------------------------------

  predicate Numeric(k: PrimKind) { k in {KInt, KFlt, KCmx} }

  /** INT < FLT < CMX. */
  function NumRank(k: PrimKind): nat { if k == KInt then 0 else if k == KFlt then 1 else 2 }

  /** An operand as ir_biop_exec keeps it: its type and its value. */
  datatype Operand = Operand(kind: PrimKind, pm: Raw)

  /** IR_PM_CONVERT: an integer or a float operand rewritten as a higher type. */
  function Convert(x: Operand, to: PrimKind, ops: Ops): Operand {
    if to == KFlt then Operand(KFlt, RFlt(ops.fltOfInt(AsInt(x.pm, ops))))
    else if x.kind == KInt then Operand(KCmx, RCmx(ops.cmxOfInt(AsInt(x.pm, ops))))
    else Operand(KCmx, RCmx(ops.cmxOfFlt(AsFlt(x.pm, ops))))
  }

  /** The six conversions of ir_biop_exec, tried in its order: the operand of lower rank is raised. */
  function Promote(a: Operand, b: Operand, ops: Ops): (p: (Operand, Operand))
    ensures Numeric(a.kind) && Numeric(b.kind) ==>
      p.0.kind == p.1.kind && NumRank(p.0.kind) == Max(NumRank(a.kind), NumRank(b.kind))
    ensures !(Numeric(a.kind) && Numeric(b.kind)) || a.kind == b.kind ==> p == (a, b)
    ensures NumRank(a.kind) >= NumRank(b.kind) ==> p.0 == a
    ensures NumRank(b.kind) >= NumRank(a.kind) ==> p.1 == b
  {
    if a.kind == KFlt && b.kind == KInt then (a, Convert(b, KFlt, ops))
    else if a.kind == KInt && b.kind == KFlt then (Convert(a, KFlt, ops), b)
    else if a.kind == KCmx && b.kind == KInt then (a, Convert(b, KCmx, ops))
    else if a.kind == KInt && b.kind == KCmx then (Convert(a, KCmx, ops), b)
    else if a.kind == KCmx && b.kind == KFlt then (a, Convert(b, KCmx, ops))
    else if a.kind == KFlt && b.kind == KCmx then (Convert(a, KCmx, ops), b)
    else (a, b)
  }

  function Max(x: nat, y: nat): nat { if x < y then y else x }

  /** The table of a numeric type, as ir_biop_exec picks it by the left operand's type. */
  function Table(k: PrimKind, op: BiKind, a: Raw, b: Raw, d: Raw, ops: Ops): Outcome {
    if k == KCmx then BiopCmx(op, a, b, d, ops)
    else if k == KFlt then BiopFlt(op, a, b, d, ops)
    else BiopInt(op, a, b, d, ops)
  }

  /**
   * The end of ir_biop_exec, once both operands are converted: the table of
   * the left operand's type, under TRY, then the boolean check.  `d` is the
   * `dst` the right operand's evaluation left.
   */
  function Dispatch(op: BiKind, a: Operand, b: Operand, d: Slot, ops: Ops): (r: Outcome)
    ensures a.kind == KSym && b.kind != KBol ==> r == Done(NoErr, d)
    ensures a.kind == KBol && b.kind != KBol ==> r == Done(NotDefinedForType, d)
    ensures a.kind == KBol && b.kind == KBol ==> r == BiopBol(op, a.pm, b.pm, d.pm, ops)
    // a number on the left and a boolean on the right: the left type's table
    // decides first, and only its success is turned into NOT_DEFINED_FOR_TYPE
    ensures Numeric(a.kind) && b.kind == KBol ==>
      var t := Table(a.kind, op, a.pm, b.pm, d.pm, ops);
      r == if t.Done? && t.err == NoErr then Done(NotDefinedForType, t.dst) else t
    ensures Numeric(a.kind) && b.kind == KBol ==> r.Undefined? || r.err != NoErr
  {
    var first := if Numeric(a.kind) then Table(a.kind, op, a.pm, b.pm, d.pm, ops) else Done(NoErr, d);
    match first
    case Undefined => Undefined
    case Done(e, d1) =>
      if e != NoErr then first
      else if a.kind == KBol || b.kind == KBol then
        if a.kind != KBol || b.kind != KBol then Done(NotDefinedForType, d1)
        else BiopBol(op, a.pm, b.pm, d1.pm, ops)
      else first
  }

  // ---------------------------------------------------------------------
  // The evaluator
  // ---------------------------------------------------------------------

  /** ir_exec: evaluate `src` into `dst`. */
  function Exec(dst: Slot, src: Node, ops: Ops): (r: Outcome)
    decreases src, 1
  {
    match src
    case Leaf(p) => Done(NoErr, Slot(p.kind, p.pm))
    case UnOp(op, arg) => UnopExec(dst, op, arg, ops)
    case BiOp(op, l, r) => BiopExec(dst, op, l, r, ops)
    case _ => Done(NotImplemented, dst)
  }

  /** ir_unop_exec: evaluate the operand, then apply the table of its type. */
  function UnopExec(dst: Slot, op: UnKind, arg: Node, ops: Ops): (r: Outcome)
    decreases UnOp(op, arg), 0
  {
    match Exec(dst, arg, ops)
    case Undefined => Undefined
    case Done(e, d) =>
      if e != NoErr then Done(e, d)
      else match d.kind
        case KBol => UnopBol(op, d.pm, ops)
        case KInt => UnopInt(op, d.pm, ops)
        case KFlt => UnopFlt(op, d.pm, ops)
        case KCmx => UnopCmx(op, d.pm, ops)
        case KSym => Done(NumArgExpected, d)
  }

  /**
   * ir_biop_exec: the left operand under TRY, then the right operand with
   * its error status dropped, then promotion and dispatch.
   */
  function BiopExec(dst: Slot, op: BiKind, l: Node, r: Node, ops: Ops): (res: Outcome)
    decreases BiOp(op, l, r), 0
  {
    match Exec(dst, l, ops)
    case Undefined => Undefined
    case Done(e, da) =>
      if e != NoErr then Done(e, da)
      else match Exec(da, r, ops)
        case Undefined => Undefined
        case Done(_, db) =>
          var p := Promote(Operand(da.kind, da.pm), Operand(db.kind, db.pm), ops);
          Dispatch(op, p.0, p.1, db, ops)
  }
}
