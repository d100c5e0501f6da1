/**
 * The syntax tree mewa.c builds and evaluates.  A `Node` is a value: the
 * arena allocation of the C code becomes construction of a datatype.
 */
module Ast {
  import opened Numerics

  /** The NT_PRIM_* node types. */
  datatype PrimKind = KSym | KInt | KFlt | KCmx | KBol

  /** A primitive node: its type and its payload. */
  datatype Prim = Prim(kind: PrimKind, pm: Raw)

  /** The NT_UNOP_* node types. */
  datatype UnKind = Abs | Not | Nop | Neg

  /** The NT_BIOP_* node types. */
  datatype BiKind = Let | And | Orr | Gre | Les | Geq | Leq | Equ | Neq | Add | Sub | Mul | Quo | Mod | Pow | Fac

  /**
   * A node.  NT_FUNC, NT_CALL and NT_CALL_ANON carry function definitions
   * and calls that no part of the program builds or evaluates; they are
   * kept without their fields.
   */
  datatype Node =
    | Leaf(p: Prim)
    | UnOp(uop: UnKind, arg: Node)
    | BiOp(bop: BiKind, l: Node, r: Node)
    | Func
    | Call
    | CallAnon
}
