/**
 * Properties of the evaluator: how it uses `dst`, how the errors of the
 * two operands of a binary operator are treated, the promotion of mixed
 * numeric operands, and agreement with a mathematical evaluation of
 * integer and boolean expressions.
 */
module InterpProps {
  import opened Util
  import opened Numerics
  import opened Ast
  import opened Interp

  // ---------------------------------------------------------------------
  // dst is written before it is read
  // ---------------------------------------------------------------------

  /**
   * What `dst` holds on entry never matters: either the evaluation writes
   * `dst` before reading it and both runs agree, or it fails before
   * touching `dst` and both runs report the same error.
   */
  lemma {:induction false} ExecWritesBeforeReading(d1: Slot, d2: Slot, n: Node, ops: Ops)
    ensures var r1, r2 := Exec(d1, n, ops), Exec(d2, n, ops);
      || r1 == r2
      || (r1.Done? && r1.err != NoErr && r1 == Done(r1.err, d1) && r2 == Done(r1.err, d2))
  {
    match n
    case Leaf(_) =>
    case UnOp(op, arg) =>
      ExecWritesBeforeReading(d1, d2, arg, ops);
    case BiOp(op, l, r) =>
      ExecWritesBeforeReading(d1, d2, l, ops);
    case _ =>
  }

  /** In particular a successful evaluation leaves the same `dst`, whatever `dst` held. */
  lemma SuccessIgnoresDst(d1: Slot, d2: Slot, n: Node, ops: Ops)
    requires Exec(d1, n, ops).Done? && Exec(d1, n, ops).err == NoErr
    ensures Exec(d2, n, ops) == Exec(d1, n, ops)
  {
    ExecWritesBeforeReading(d1, d2, n, ops);
  }

  // ---------------------------------------------------------------------
  // The operands of a binary operator
  // ---------------------------------------------------------------------

  /** The TRY around the left operand: its error is returned at once, with the `dst` it left. */
  lemma LeftErrorReturned(d: Slot, op: BiKind, l: Node, r: Node, ops: Ops)
    requires Exec(d, l, ops).Done? && Exec(d, l, ops).err != NoErr
    ensures Exec(d, BiOp(op, l, r), ops) == Exec(d, l, ops)
  {
  }

  /**
   * The right operand's error status is discarded: two right operands that
   * leave the same `dst` give the same result, whether or not they failed.
   */
  lemma RightErrorIgnored(d: Slot, op: BiKind, l: Node, r1: Node, r2: Node, ops: Ops)
    requires Exec(d, l, ops).Done? && Exec(d, l, ops).err == NoErr
    requires var da := Exec(d, l, ops).dst;
      Exec(da, r1, ops).Done? && Exec(da, r2, ops).Done? && Exec(da, r1, ops).dst == Exec(da, r2, ops).dst
    ensures Exec(d, BiOp(op, l, r1), ops) == Exec(d, BiOp(op, l, r2), ops)
  {
  }

  function IntLeaf(x: IntT): Node { Leaf(Prim(KInt, RInt(x))) }

  /** `1 + 2 / 0` evaluates to 1 without an error: the division fails, leaving its divisor in `dst`. */
  lemma DivisionErrorLost(d: Slot, ops: Ops)
    ensures Exec(d, BiOp(Add, IntLeaf(1), BiOp(Quo, IntLeaf(2), IntLeaf(0))), ops) == Done(NoErr, Slot(KInt, RInt(1)))
  {
    var da := Slot(KInt, RInt(1));
    assert Exec(da, BiOp(Quo, IntLeaf(2), IntLeaf(0)), ops) == Done(DivByZero, Slot(KInt, RInt(0)));
  }

  /** A symbol on the left matches no table: the result is the right operand's, with NOERROR. */
  lemma SymbolFallsThrough(d: Slot, op: BiKind, l: Node, r: Node, ops: Ops)
    requires Exec(d, l, ops).Done? && Exec(d, l, ops).err == NoErr && Exec(d, l, ops).dst.kind == KSym
    requires var db := Exec(Exec(d, l, ops).dst, r, ops); db.Done? && db.dst.kind != KBol
    ensures Exec(d, BiOp(op, l, r), ops) == Done(NoErr, Exec(Exec(d, l, ops).dst, r, ops).dst)
  {
  }

  /** A boolean operand never combines with an operand of another type. */
  lemma BooleanMixNeverSucceeds(d: Slot, op: BiKind, l: Node, r: Node, ops: Ops)
    requires Exec(d, l, ops).Done? && Exec(d, l, ops).err == NoErr
    requires var da := Exec(d, l, ops).dst; var rb := Exec(da, r, ops);
      rb.Done? && (da.kind == KBol) != (rb.dst.kind == KBol)
    ensures var res := Exec(d, BiOp(op, l, r), ops); res.Undefined? || res.err != NoErr
  {
  }

  // ---------------------------------------------------------------------
  // Promotion
  // ---------------------------------------------------------------------

  /** The type of higher rank of two numeric operands. */
  function Join(a: PrimKind, b: PrimKind): PrimKind {
    if NumRank(a) >= NumRank(b) then a else b
  }

  /** An operand raised to type `k`, or kept when it already has it. */
  function Raise(x: Operand, k: PrimKind, ops: Ops): Operand {
    if x.kind == k then x else Convert(x, k, ops)
  }

  /**
   * With two numeric operands, the one of lower rank is converted to the
   * type of the other and the table of that type decides the result.
   */
  lemma NumericPromotion(d: Slot, op: BiKind, l: Node, r: Node, da: Slot, e: IrErr, db: Slot, ops: Ops)
    requires Exec(d, l, ops) == Done(NoErr, da) && Exec(da, r, ops) == Done(e, db)
    requires Numeric(da.kind) && Numeric(db.kind)
    ensures var k := Join(da.kind, db.kind);
      Exec(d, BiOp(op, l, r), ops) ==
        Table(k, op, Raise(Operand(da.kind, da.pm), k, ops).pm, Raise(Operand(db.kind, db.pm), k, ops).pm, db.pm, ops)
  {
    var a, b := Operand(da.kind, da.pm), Operand(db.kind, db.pm);
    var p := Promote(a, b, ops);
    assert Exec(d, BiOp(op, l, r), ops) == Dispatch(op, p.0, p.1, db, ops);
    PromoteRaises(a, b, ops);
    var k := Join(da.kind, db.kind);
    DispatchNumeric(op, Raise(a, k, ops), Raise(b, k, ops), db, ops);
  }

  /** The six conversions of ir_biop_exec raise the operand of lower rank to the type of the other. */
  lemma PromoteRaises(a: Operand, b: Operand, ops: Ops)
    requires Numeric(a.kind) && Numeric(b.kind)
    ensures var k := Join(a.kind, b.kind); Promote(a, b, ops) == (Raise(a, k, ops), Raise(b, k, ops))
  {
  }

  /** Two numeric operands of one type are handed to that type's table and nothing after it. */
  lemma DispatchNumeric(op: BiKind, a: Operand, b: Operand, d: Slot, ops: Ops)
    requires Numeric(a.kind) && a.kind == b.kind
    ensures Dispatch(op, a, b, d, ops) == Table(a.kind, op, a.pm, b.pm, d.pm, ops)
  {
  }

  /** Remainder and factorial are not defined as soon as one numeric operand is complex. */
  lemma ComplexModFac(d: Slot, op: BiKind, l: Node, r: Node, da: Slot, e: IrErr, db: Slot, ops: Ops)
    requires op in {Mod, Fac}
    requires Exec(d, l, ops) == Done(NoErr, da) && Exec(da, r, ops) == Done(e, db)
    requires Numeric(da.kind) && Numeric(db.kind) && (da.kind == KCmx || db.kind == KCmx)
    ensures Exec(d, BiOp(op, l, r), ops) == Done(NotDefinedForType, Slot(KCmx, db.pm))
  {
    NumericPromotion(d, op, l, r, da, e, db, ops);
  }

  // ---------------------------------------------------------------------
  // Unary operators
  // ---------------------------------------------------------------------

  /**
   * ir_unop_exec by the operand's type: `!` applies to booleans only, the
   * other three to numbers only, a symbol is not a number, and the
   * absolute value of a complex number is a float.
   */
  lemma UnaryDispatch(d: Slot, op: UnKind, arg: Node, ops: Ops)
    requires Exec(d, arg, ops).Done?
    ensures var a := Exec(d, arg, ops); var res := Exec(d, UnOp(op, arg), ops);
      && (a.err != NoErr ==> res == a)
      && (a.err == NoErr && a.dst.kind == KSym ==> res == Done(NumArgExpected, a.dst))
      && (a.err == NoErr && a.dst.kind == KBol ==> res.Done? && res.dst.kind == KBol && (res.err == NoErr <==> op == Not))
      && (a.err == NoErr && Numeric(a.dst.kind) ==>
            && (res.Undefined? <==> a.dst.kind == KInt && op in {Neg, Abs} && AsInt(a.dst.pm, ops) == INT_T_MIN)
            && (res.Done? ==> (res.err == NoErr <==> op != Not))
            && (res.Done? ==> res.dst.kind == if op == Abs && a.dst.kind == KCmx then KFlt else a.dst.kind))
  {
  }

  // ---------------------------------------------------------------------
  // Agreement with mathematical evaluation
  // ---------------------------------------------------------------------

  /** Integer expressions: integer leaves under `+`, `-`, `*` and the three numeric prefixes. */
  predicate IntExpr(n: Node) {
    match n
    case Leaf(p) => p.kind == KInt
    case UnOp(op, a) => op != Not && IntExpr(a)
    case BiOp(op, l, r) => op in {Add, Sub, Mul} && IntExpr(l) && IntExpr(r)
    case _ => false
  }

  /** Boolean expressions: boolean leaves under `!`, `&&`, `||`, `==`, `!=`, and comparisons of integer expressions. */
  predicate BoolExpr(n: Node) {
    match n
    case Leaf(p) => p.kind == KBol
    case UnOp(op, a) => op == Not && BoolExpr(a)
    case BiOp(op, l, r) =>
      || (op in {And, Orr, Equ, Neq} && BoolExpr(l) && BoolExpr(r))
      || (IsComparison(op) && IntExpr(l) && IntExpr(r))
    case _ => false
  }

  /** The value of an integer expression over the unbounded integers. */
  function IntValue(n: Node, ops: Ops): int {
    match n
    case Leaf(p) => AsInt(p.pm, ops)
    case UnOp(op, a) =>
      var v := IntValue(a, ops);
      if op == Neg then -v else if op == Abs then AbsInt(v) else v
    case BiOp(op, l, r) =>
      var x, y := IntValue(l, ops), IntValue(r, ops);
      if op == Add then x + y else if op == Sub then x - y else x * y
    case _ => 0
  }

  /** The value of a boolean expression. */
  function BoolValue(n: Node, ops: Ops): bool {
    match n
    case Leaf(p) => AsBol(p.pm, ops)
    case UnOp(_, a) => !BoolValue(a, ops)
    case BiOp(op, l, r) =>
      if IsComparison(op) && IntExpr(l) then CompareInt(op, IntValue(l, ops), IntValue(r, ops))
      else
        var x, y := BoolValue(l, ops), BoolValue(r, ops);
        if op == And then x && y else if op == Orr then x || y else if op == Equ then x == y else x != y
    case _ => false
  }

  /** Every intermediate integer value of the expression fits in int_t. */
  predicate Fits(n: Node, ops: Ops) {
    match n
    case Leaf(_) => true
    case UnOp(op, a) => Fits(a, ops) && (op != Not ==> InIntT(IntValue(n, ops)))
    case BiOp(op, l, r) => Fits(l, ops) && Fits(r, ops) && (op in {Add, Sub, Mul} ==> InIntT(IntValue(n, ops)))
    case _ => true
  }

  lemma IntNotBool(n: Node)
    requires IntExpr(n)
    ensures !BoolExpr(n)
  {
  }

  /**
   * An integer expression evaluates to its mathematical value when every
   * intermediate value fits in int_t, and is undefined behaviour otherwise.
   */
  lemma {:induction false} IntAgreement(d: Slot, n: Node, ops: Ops)
    requires IntExpr(n)
    ensures Exec(d, n, ops).Undefined? <==> !Fits(n, ops)
    ensures Fits(n, ops) ==> var res := Exec(d, n, ops);
      res.err == NoErr && res.dst.kind == KInt && AsInt(res.dst.pm, ops) == IntValue(n, ops)
    decreases n
  {
    match n
    case Leaf(_) =>
    case UnOp(op, a) =>
      IntAgreement(d, a, ops);
      IntUnary(d, op, a, ops);
    case BiOp(op, l, r) =>
      IntAgreement(d, l, ops);
      if Fits(l, ops) {
        IntAgreement(Exec(d, l, ops).dst, r, ops);
        IntBinary(d, op, l, r, ops);
      }
  }

  /** One prefix operator over an integer operand that evaluated to its value. */
  lemma IntUnary(d: Slot, op: UnKind, a: Node, ops: Ops)
    requires op != Not && IntExpr(a)
    requires Exec(d, a, ops).Undefined? <==> !Fits(a, ops)
    requires Fits(a, ops) ==> var res := Exec(d, a, ops);
      res.err == NoErr && res.dst.kind == KInt && AsInt(res.dst.pm, ops) == IntValue(a, ops)
    ensures Exec(d, UnOp(op, a), ops).Undefined? <==> !Fits(UnOp(op, a), ops)
    ensures Fits(UnOp(op, a), ops) ==> var res := Exec(d, UnOp(op, a), ops);
      res.err == NoErr && res.dst.kind == KInt && AsInt(res.dst.pm, ops) == IntValue(UnOp(op, a), ops)
  {
  }

  /** One binary operator over two integer operands that evaluated to their values. */
  lemma IntBinary(d: Slot, op: BiKind, l: Node, r: Node, ops: Ops)
    requires op in {Add, Sub, Mul} && Fits(l, ops)
    requires var res := Exec(d, l, ops);
      res.Done? && res.err == NoErr && res.dst.kind == KInt && AsInt(res.dst.pm, ops) == IntValue(l, ops)
    requires var da := Exec(d, l, ops).dst;
      && (Exec(da, r, ops).Undefined? <==> !Fits(r, ops))
      && (Fits(r, ops) ==> var res := Exec(da, r, ops);
            res.err == NoErr && res.dst.kind == KInt && AsInt(res.dst.pm, ops) == IntValue(r, ops))
    ensures Exec(d, BiOp(op, l, r), ops).Undefined? <==> !Fits(BiOp(op, l, r), ops)
    ensures Fits(BiOp(op, l, r), ops) ==> var res := Exec(d, BiOp(op, l, r), ops);
      res.err == NoErr && res.dst.kind == KInt && AsInt(res.dst.pm, ops) == IntValue(BiOp(op, l, r), ops)
  {
    var da := Exec(d, l, ops).dst;
    if Fits(r, ops) {
      var db := Exec(da, r, ops).dst;
      assert Exec(d, BiOp(op, l, r), ops) == BiopInt(op, da.pm, db.pm, db.pm, ops);
    }
  }

  /** A boolean expression evaluates to its value when its integer parts fit in int_t. */
  lemma {:induction false} BoolAgreement(d: Slot, n: Node, ops: Ops)
    requires BoolExpr(n)
    ensures Exec(d, n, ops).Undefined? <==> !Fits(n, ops)
    ensures Fits(n, ops) ==> var res := Exec(d, n, ops);
      res.err == NoErr && res.dst.kind == KBol && AsBol(res.dst.pm, ops) == BoolValue(n, ops)
    decreases n
  {
    match n
    case Leaf(_) =>
    case UnOp(op, a) =>
      BoolAgreement(d, a, ops);
    case BiOp(op, l, r) =>
      if IsComparison(op) && IntExpr(l) {
        IntNotBool(l);
        IntAgreement(d, l, ops);
        if Fits(l, ops) {
          IntAgreement(Exec(d, l, ops).dst, r, ops);
          Comparison(d, op, l, r, ops);
        }
      } else {
        BoolAgreement(d, l, ops);
        if Fits(l, ops) {
          BoolAgreement(Exec(d, l, ops).dst, r, ops);
          Connective(d, op, l, r, ops);
        }
      }
  }

  /** A comparison of two integer operands that evaluated to their values. */
  lemma Comparison(d: Slot, op: BiKind, l: Node, r: Node, ops: Ops)
    requires IsComparison(op) && IntExpr(l) && IntExpr(r) && Fits(l, ops)
    requires var res := Exec(d, l, ops);
      res.Done? && res.err == NoErr && res.dst.kind == KInt && AsInt(res.dst.pm, ops) == IntValue(l, ops)
    requires var da := Exec(d, l, ops).dst;
      && (Exec(da, r, ops).Undefined? <==> !Fits(r, ops))
      && (Fits(r, ops) ==> var res := Exec(da, r, ops);
            res.err == NoErr && res.dst.kind == KInt && AsInt(res.dst.pm, ops) == IntValue(r, ops))
    ensures Exec(d, BiOp(op, l, r), ops).Undefined? <==> !Fits(BiOp(op, l, r), ops)
    ensures Fits(BiOp(op, l, r), ops) ==> var res := Exec(d, BiOp(op, l, r), ops);
      res.err == NoErr && res.dst.kind == KBol && AsBol(res.dst.pm, ops) == BoolValue(BiOp(op, l, r), ops)
  {
    var da := Exec(d, l, ops).dst;
    if Fits(r, ops) {
      var db := Exec(da, r, ops).dst;
      assert Exec(d, BiOp(op, l, r), ops) == BiopInt(op, da.pm, db.pm, db.pm, ops);
    }
  }

  /** A logical connective or a boolean equality of two operands that evaluated to their values. */
  lemma Connective(d: Slot, op: BiKind, l: Node, r: Node, ops: Ops)
    requires op in {And, Orr, Equ, Neq} && BoolExpr(l) && BoolExpr(r) && !IntExpr(l) && Fits(l, ops)
    requires var res := Exec(d, l, ops);
      res.Done? && res.err == NoErr && res.dst.kind == KBol && AsBol(res.dst.pm, ops) == BoolValue(l, ops)
    requires var da := Exec(d, l, ops).dst;
      && (Exec(da, r, ops).Undefined? <==> !Fits(r, ops))
      && (Fits(r, ops) ==> var res := Exec(da, r, ops);
            res.err == NoErr && res.dst.kind == KBol && AsBol(res.dst.pm, ops) == BoolValue(r, ops))
    ensures Exec(d, BiOp(op, l, r), ops).Undefined? <==> !Fits(BiOp(op, l, r), ops)
    ensures Fits(BiOp(op, l, r), ops) ==> var res := Exec(d, BiOp(op, l, r), ops);
      res.err == NoErr && res.dst.kind == KBol && AsBol(res.dst.pm, ops) == BoolValue(BiOp(op, l, r), ops)
  {
    var da := Exec(d, l, ops).dst;
    if Fits(r, ops) {
      var db := Exec(da, r, ops).dst;
      assert Exec(d, BiOp(op, l, r), ops) == BiopBol(op, da.pm, db.pm, db.pm, ops);
    }
  }
}
