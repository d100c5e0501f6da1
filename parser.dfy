/**
 * The precedence-climbing parser of mewa.c (`pr_*`, `pt_*`).
 *
 * The recursive descent reads the lexer's current token and advances the
 * lexer; its other state is the parenthesis counter `p0c` and the flag
 * `abs` that is set inside `|…|`.  The functions below take the tokens the
 * lexer will deliver as a sequence and a `PState` holding the position in
 * it together with `p0c` and `abs`; the `Parser` class at the end runs the
 * same descent on a real `Lexer` and is proved equal to them.
 */
module Parsing {
  import opened Util
  import opened Numerics
  import opened Reading
  import opened Lexing
  import opened Ast

  // ---------------------------------------------------------------------
  // Priorities
  // ---------------------------------------------------------------------

  /** The `Priority` enum, loosest first. */
  datatype Priority =
    | PSkipRp0 | PLet0 | PLet1 | POrr | PAnd | PCmp | PAddSub | PMulQuoMod
    | PNotNopNeg | PPow0 | PPow1 | PFac | PPrim

  /** pt_includes_tt: the tokens a level acts on; the levels without a case act on none. */
  predicate PtIncludesTt(pt: Priority, tt: TokenType) {
    match pt
    case PLet0 => tt == TLet
    case POrr => tt == TOrr
    case PAnd => tt == TAnd
    case PCmp => tt == TGre || tt == TLes || tt == TGeq || tt == TLeq || tt == TEqu || tt == TNeq
    case PAddSub => tt == TAdd || tt == TSub
    case PMulQuoMod => tt == TMul || tt == TQuo || tt == TMod
    case PNotNopNeg => tt == TNot || tt == TSub || tt == TAdd
    case PPow0 => tt == TPow
    case PFac => tt == TNot || tt == TFac
    case _ => false
  }

  /** pt_rl_biop: the right-associative levels. */
  predicate PtRlBiop(pt: Priority) { pt == PLet0 || pt == PPow0 }

  /** `pt + pt_rl_biop(pt)`: the level of a right operand. */
  function Succ(pt: Priority): Priority {
    if pt == PLet0 then PLet1 else if pt == PPow0 then PPow1 else pt
  }

  /** The levels pr_biop_next_node is called with. */
  predicate IsBiopLevel(pt: Priority) {
    pt == PLet0 || pt == POrr || pt == PAnd || pt == PCmp || pt == PAddSub || pt == PMulQuoMod || pt == PPow0
  }

  /** The binary token types. */
  predicate IsBinaryTt(tt: TokenType) {
    match tt
    case TLet | TAnd | TOrr | TGre | TLes | TGeq | TLeq | TEqu | TNeq | TAdd | TSub | TMul | TQuo | TMod | TPow => true
    case _ => false
  }

  /** `(NodeType)tt`: the binary node types share the values of their tokens. */
  function BiKindOf(tt: TokenType): BiKind
    requires IsBinaryTt(tt)
  {
    match tt
    case TLet => Let
    case TAnd => And
    case TOrr => Orr
    case TGre => Gre
    case TLes => Les
    case TGeq => Geq
    case TLeq => Leq
    case TEqu => Equ
    case TNeq => Neq
    case TAdd => Add
    case TSub => Sub
    case TMul => Mul
    case TQuo => Quo
    case TMod => Mod
    case TPow => Pow
  }

  /** The prefix operator a token names in pr_unop_next_node. */
  function UnKindOf(tt: TokenType): UnKind
    requires tt == TNot || tt == TSub || tt == TAdd
  {
    if tt == TNot then Not else if tt == TSub then Neg else Nop
  }

  /** Every level a biop level acts on is a binary token. */
  lemma BiopLevelBinary(pt: Priority, tt: TokenType)
    requires IsBiopLevel(pt) && PtIncludesTt(pt, tt)
    ensures IsBinaryTt(tt)
  {
  }

  // ---------------------------------------------------------------------
  // Parser state and results
  // ---------------------------------------------------------------------

  /** The PR_ERR codes. */
  datatype PrErr =
    | NoError
    | General
    | ParenNotOpened
    | ParenNotClosed
    | ArgExpectedIllegal
    | ArgExpectedEos
    | ArgExpectedEox
    | ArgExpectedRp0
    | ArgExpectedAbs
    | TokenUnexpected

  /** The position in the token sequence, `p0c` and `abs`. */
  datatype PState = PState(i: nat, p0c: int, abs: bool)

  /** A parse: the node and the state after it, or the error and the state it was found in. */
  datatype Parsed = Ok(node: Node, st: PState) | Fail(err: PrErr, st: PState)

  /** The current token; past the end of the sequence the lexer only delivers the end of the string. */
  function Tok(ts: seq<Token>, i: nat): Token {
    if i < |ts| then ts[i] else Token(TEos, RInt(0))
  }

  /** lx_next_token, on the sequence. */
  function Next(st: PState): PState { st.(i := st.i + 1) }

  /** The errors the parser reports: never NOERROR, GENERAL or PAREN_NOT_CLOSED. */
  predicate Reported(r: Parsed) {
    r.Fail? ==> r.err != NoError && r.err != General && r.err != ParenNotClosed
  }

  /** The measure of the descent: pr_call at a level calls only tighter routines. */
  function Level(pt: Priority): nat {
    match pt
    case PPrim => 15
    case PSkipRp0 => 14
    case PLet1 => 14
    case PLet0 => 13
    case POrr => 12
    case PAnd => 11
    case PCmp => 10
    case PAddSub => 9
    case PMulQuoMod => 8
    case PPow1 => 8
    case PNotNopNeg => 7
    case PPow0 => 6
    case PFac => 5
  }

  // ---------------------------------------------------------------------
  // The descent
  // ---------------------------------------------------------------------

  /** pr_call. */
  function PrCall(ts: seq<Token>, st: PState, pt: Priority, ops: Ops): (r: Parsed)
    requires st.i <= |ts|
    ensures st.i <= r.st.i <= |ts| && Reported(r)
    decreases |ts| - st.i, 2 * Level(pt) + 1
  {
    match pt
    case PSkipRp0 => PrBiop(ts, st, PLet0, ops)
    case PLet0 => PrBiop(ts, st, POrr, ops)
    case PLet1 => PrBiop(ts, st, PLet0, ops)
    case POrr => PrBiop(ts, st, PAnd, ops)
    case PAnd => PrBiop(ts, st, PCmp, ops)
    case PCmp => PrBiop(ts, st, PAddSub, ops)
    case PAddSub => PrBiop(ts, st, PMulQuoMod, ops)
    case PMulQuoMod => PrUnop(ts, st, PNotNopNeg, ops)
    case PNotNopNeg => PrBiop(ts, st, PPow0, ops)
    case PPow0 => PrBiopFac(ts, st, PFac, ops)
    case PPow1 => PrUnop(ts, st, PNotNopNeg, ops)
    case PFac => PrPrimitive(ts, st, PPrim, ops)
    case PPrim => PrSkipRp0(ts, st, PSkipRp0, ops)
  }

  /** pr_biop_next_node: the left operand, then the loop. */
  function PrBiop(ts: seq<Token>, st: PState, pt: Priority, ops: Ops): (r: Parsed)
    requires st.i <= |ts| && IsBiopLevel(pt)
    ensures st.i <= r.st.i <= |ts| && Reported(r)
    decreases |ts| - st.i, 2 * Level(pt) + 2
  {
    match PrCall(ts, st, pt, ops)
    case Fail(e, s) => Fail(e, s)
    case Ok(left, s) => BiopLoop(ts, s, pt, left, ops)
  }

  /** The while loop of pr_biop_next_node: fold each operator of the level and its right operand into the node. */
  function BiopLoop(ts: seq<Token>, st: PState, pt: Priority, node: Node, ops: Ops): (r: Parsed)
    requires st.i <= |ts| && IsBiopLevel(pt)
    ensures st.i <= r.st.i <= |ts| && Reported(r)
    decreases |ts| - st.i, 0
  {
    var tt := Tok(ts, st.i).tt;
    if PtIncludesTt(pt, tt) then
      BiopLevelBinary(pt, tt);
      match PrCall(ts, Next(st), Succ(pt), ops)
      case Fail(e, s) => Fail(e, s)
      case Ok(right, s) => BiopLoop(ts, s, pt, BiOp(BiKindOf(tt), node, right), ops)
    else Ok(node, st)
  }

  /** pr_unop_next_node: at most one prefix operator, then its operand at the same level. */
  function PrUnop(ts: seq<Token>, st: PState, pt: Priority, ops: Ops): (r: Parsed)
    requires st.i <= |ts| && pt == PNotNopNeg
    ensures st.i <= r.st.i <= |ts| && Reported(r)
    decreases |ts| - st.i, 2 * Level(pt) + 2
  {
    var tt := Tok(ts, st.i).tt;
    if PtIncludesTt(pt, tt) then
      match PrCall(ts, Next(st), pt, ops)
      case Fail(e, s) => Fail(e, s)
      case Ok(arg, s) => Ok(UnOp(UnKindOf(tt), arg), s)
    else PrCall(ts, st, pt, ops)
  }

  /** pr_biop_next_node_fac: the operand, then at most one factorial holding the token's n_int. */
  function PrBiopFac(ts: seq<Token>, st: PState, pt: Priority, ops: Ops): (r: Parsed)
    requires st.i <= |ts|
    ensures st.i <= r.st.i <= |ts| && Reported(r)
    decreases |ts| - st.i, 2 * Level(pt) + 2
  {
    match PrCall(ts, st, pt, ops)
    case Fail(e, s) => Fail(e, s)
    case Ok(left, s) =>
      var t := Tok(ts, s.i);
      if PtIncludesTt(pt, t.tt) then
        Ok(BiOp(Fac, left, Leaf(Prim(KInt, RInt(AsInt(t.pm, ops))))), Next(s))
      else Ok(left, s)
  }

  /** pr_skip_rp0: a whole expression, then a closing `)` or `|` if there is one. */
  function PrSkipRp0(ts: seq<Token>, st: PState, pt: Priority, ops: Ops): (r: Parsed)
    requires st.i <= |ts|
    ensures st.i <= r.st.i <= |ts| && Reported(r)
    decreases |ts| - st.i, 2 * Level(pt) + 2
  {
    match PrCall(ts, st, pt, ops)
    case Fail(e, s) => Fail(e, s)
    case Ok(node, s) => CloseGroup(ts, s, node)
  }

  /** The end of pr_skip_rp0: a `)` is counted off `p0c` and read, a `|` clears `abs` and is read. */
  function CloseGroup(ts: seq<Token>, s: PState, node: Node): (r: Parsed)
    requires s.i <= |ts|
    ensures s.i <= r.st.i <= |ts| && Reported(r)
  {
    var tt := Tok(ts, s.i).tt;
    if tt == TRp0 then
      var s' := s.(p0c := s.p0c - 1);
      if s'.p0c < 0 then Fail(ParenNotOpened, s') else Ok(node, Next(s'))
    else if tt == TAbs then Ok(node, Next(s.(abs := false)))
    else Ok(node, s)
  }

  /** pr_next_primitive_node: a primitive, `|…|` or `(…)`, or the error for the token found instead. */
  function PrPrimitive(ts: seq<Token>, st: PState, pt: Priority, ops: Ops): (r: Parsed)
    requires st.i <= |ts|
    ensures st.i <= r.st.i <= |ts| && Reported(r)
    decreases |ts| - st.i, 0
  {
    var t := Tok(ts, st.i);
    match t.tt
    case TAbs =>
      if st.abs then Fail(ArgExpectedAbs, st)
      else
        (match PrCall(ts, Next(st.(abs := true)), pt, ops)
         case Fail(e, s) => Fail(e, s)
         case Ok(arg, s) => Ok(UnOp(Abs, arg), s))
    case TLp0 => PrCall(ts, Next(st.(p0c := st.p0c + 1)), pt, ops)
    case _ => PrAtom(t, st, ops)
  }

  /** The cases of pr_next_primitive_node that do not descend: a literal leaf, or the error for a token that cannot start an operand. */
  function PrAtom(t: Token, st: PState, ops: Ops): (r: Parsed)
    ensures Reported(r)
    ensures r.Ok? <==> t.tt in {TSym, TInt, TFlt, TCmx, TTru, TFal}
    ensures r.st == if r.Ok? then Next(st) else st
  {
    match t.tt
    case TIll => Fail(ArgExpectedIllegal, st)
    case TEos => Fail(ArgExpectedEos, st)
    case TSym => Ok(Leaf(Prim(KSym, RUnt(AsUnt(t.pm, ops)))), Next(st))
    case TInt => Ok(Leaf(Prim(KInt, RInt(AsInt(t.pm, ops)))), Next(st))
    case TFlt => Ok(Leaf(Prim(KFlt, RFlt(AsFlt(t.pm, ops)))), Next(st))
    case TCmx => Ok(Leaf(Prim(KCmx, RCmx(AsCmx(t.pm, ops)))), Next(st))
    case TTru => Ok(Leaf(Prim(KBol, RBol(true))), Next(st))
    case TFal => Ok(Leaf(Prim(KBol, RBol(false))), Next(st))
    case TRp0 => Fail(ArgExpectedRp0, st)
    case TEox => Fail(ArgExpectedEox, st)
    case _ => Fail(TokenUnexpected, st)
  }

  /** The `|` case of pr_next_primitive_node: an error inside another `|`, else the operand under ABS. */
  function AbsCase(ts: seq<Token>, st: PState, pt: Priority, ops: Ops): (r: Parsed)
    requires st.i < |ts|
    ensures st.i <= r.st.i <= |ts| && Reported(r)
    decreases |ts| - st.i, 0
  {
    if st.abs then Fail(ArgExpectedAbs, st)
    else
      match PrCall(ts, Next(st.(abs := true)), pt, ops)
      case Fail(e, s) => Fail(e, s)
      case Ok(arg, s) => Ok(UnOp(Abs, arg), s)
  }

  /** pr_next_primitive_node by the current token's type. */
  lemma PrimitiveCases(ts: seq<Token>, st: PState, pt: Priority, ops: Ops)
    requires st.i <= |ts|
    ensures Tok(ts, st.i).tt == TAbs ==> st.i < |ts| && PrPrimitive(ts, st, pt, ops) == AbsCase(ts, st, pt, ops)
    ensures Tok(ts, st.i).tt == TLp0 ==> PrPrimitive(ts, st, pt, ops) == PrCall(ts, Next(st.(p0c := st.p0c + 1)), pt, ops)
    ensures Tok(ts, st.i).tt !in {TAbs, TLp0} ==> PrPrimitive(ts, st, pt, ops) == PrAtom(Tok(ts, st.i), st, ops)
  {
  }

  /** pr_next_node after its lx_next_token: one expression from the loosest level. */
  function PrNextNode(ts: seq<Token>, st: PState, ops: Ops): (r: Parsed)
    requires st.i <= |ts|
    ensures st.i <= r.st.i <= |ts| && Reported(r)
  {
    PrCall(ts, st, PSkipRp0, ops)
  }

  // ---------------------------------------------------------------------
  // The Parser struct
  // ---------------------------------------------------------------------

  /** What a parsing routine hands back: its PR_ERR, and the node when there is none. */
  predicate Outcome(r: Parsed, err: PrErr, node: Node) {
    if r.Ok? then err == NoError && node == r.node else err == r.err
  }

  /** Past a token other than the end of the string, the lexer delivers the rest of its tokens. */
  lemma TokensTail(ls: LexState, ops: Ops)
    requires LexValid(ls) && ls.tt != TEos
    ensures LexValid(LxNextToken(ls, ops)) && Tokens(LxNextToken(ls, ops), ops) == Tokens(ls, ops)[1..]
  {
    NextTokenProgress(ls, ops);
  }

  /** The tokens the lexer delivers once lx_next_token has read the first of them. */
  function Upcoming(ls: LexState, ops: Ops): (ts: seq<Token>)
    requires LexValid(ls)
    ensures |ts| >= 1
  {
    NextTokenProgress(ls, ops);
    Tokens(LxNextToken(ls, ops), ops)
  }

  /** One turn of the loop of pr_biop_next_node: a failing right operand ends it with its error. */
  lemma LoopTurn(ts: seq<Token>, s: PState, pt: Priority, node: Node, ops: Ops)
    requires s.i <= |ts| && IsBiopLevel(pt) && PtIncludesTt(pt, Tok(ts, s.i).tt)
    ensures IsBinaryTt(Tok(ts, s.i).tt)
    ensures var q := PrCall(ts, Next(s), Succ(pt), ops);
      BiopLoop(ts, s, pt, node, ops) ==
        if q.Fail? then q else BiopLoop(ts, q.st, pt, BiOp(BiKindOf(Tok(ts, s.i).tt), node, q.node), ops)
  {
  }

  /**
   * The parser with its lexer.  Each method is its `pr_*` routine and is
   * proved to deliver what the function of the same name computes on the
   * tokens the lexer has still to deliver.
   */
  class Parser {
    const lx: Lexer
    var p0c: int
    var abs: bool

    /** A zero-initialised parser. */
    constructor (lexer: Lexer)
      ensures lx == lexer && p0c == 0 && !abs
    {
      lx := lexer;
      p0c := 0;
      abs := false;
    }

    /** The lexer is at token `st.i` of `ts`, and `p0c` and `abs` are those of `st`. */
    predicate On(ts: seq<Token>, st: PState)
      reads this, lx, lx.rd, lx.rd.buf
    {
      LexValid(lx.State()) && st.i < |ts| && Tokens(lx.State(), lx.ops) == ts[st.i..]
      && p0c == st.p0c && abs == st.abs
    }

    lemma Current(ts: seq<Token>, st: PState)
      requires On(ts, st)
      ensures Tok(ts, st.i) == Token(lx.tt, lx.pm)
    {
      assert ts[st.i..][0] == ts[st.i];
    }

    /** lx_next_token on any token but the end of the string. */
    method Advance(ghost ts: seq<Token>, ghost st: PState)
      requires On(ts, st) && lx.tt != TEos
      modifies lx, lx.rd, lx.rd.buf
      ensures On(ts, Next(st))
    {
      ghost var s := lx.State();
      TokensTail(s, lx.ops);
      lx.NextToken();
      assert ts[st.i..][1..] == ts[st.i + 1..];
    }

    method Call(pt: Priority, ghost ts: seq<Token>, ghost st: PState) returns (err: PrErr, node: Node)
      requires On(ts, st)
      modifies this, lx, lx.rd, lx.rd.buf
      ensures var r := PrCall(ts, st, pt, lx.ops); Outcome(r, err, node) && On(ts, r.st)
      decreases |ts| - st.i, 2 * Level(pt) + 1
    {
      match pt
      case PSkipRp0 => err, node := Biop(PLet0, ts, st);
      case PLet0 => err, node := Biop(POrr, ts, st);
      case PLet1 => err, node := Biop(PLet0, ts, st);
      case POrr => err, node := Biop(PAnd, ts, st);
      case PAnd => err, node := Biop(PCmp, ts, st);
      case PCmp => err, node := Biop(PAddSub, ts, st);
      case PAddSub => err, node := Biop(PMulQuoMod, ts, st);
      case PMulQuoMod => err, node := Unop(PNotNopNeg, ts, st);
      case PNotNopNeg => err, node := Biop(PPow0, ts, st);
      case PPow0 => err, node := BiopFac(PFac, ts, st);
      case PPow1 => err, node := Unop(PNotNopNeg, ts, st);
      case PFac => err, node := Primitive(PPrim, ts, st);
      case PPrim => err, node := SkipRp0(PSkipRp0, ts, st);
    }

    method Biop(pt: Priority, ghost ts: seq<Token>, ghost st: PState) returns (err: PrErr, node: Node)
      requires On(ts, st) && IsBiopLevel(pt)
      modifies this, lx, lx.rd, lx.rd.buf
      ensures var r := PrBiop(ts, st, pt, lx.ops); Outcome(r, err, node) && On(ts, r.st)
      decreases |ts| - st.i, 2 * Level(pt) + 2
    {
      err, node := Call(pt, ts, st);
      if err != NoError {
        return;
      }
      ghost var r := PrBiop(ts, st, pt, lx.ops);
      ghost var s := PrCall(ts, st, pt, lx.ops).st;
      while PtIncludesTt(pt, lx.tt)
        invariant On(ts, s) && err == NoError
        invariant BiopLoop(ts, s, pt, node, lx.ops) == r
        decreases |ts| - s.i
      {
        Current(ts, s);
        LoopTurn(ts, s, pt, node, lx.ops);
        var kind := BiKindOf(lx.tt);
        ghost var q := PrCall(ts, Next(s), Succ(pt), lx.ops);
        Advance(ts, s);
        var right;
        err, right := Call(Succ(pt), ts, Next(s));
        if err != NoError {
          return;
        }
        node := BiOp(kind, node, right);
        s := q.st;
      }
      Current(ts, s);
    }

    method Unop(pt: Priority, ghost ts: seq<Token>, ghost st: PState) returns (err: PrErr, node: Node)
      requires On(ts, st) && pt == PNotNopNeg
      modifies this, lx, lx.rd, lx.rd.buf
      ensures var r := PrUnop(ts, st, pt, lx.ops); Outcome(r, err, node) && On(ts, r.st)
      decreases |ts| - st.i, 2 * Level(pt) + 2
    {
      Current(ts, st);
      if PtIncludesTt(pt, lx.tt) {
        var kind := UnKindOf(lx.tt);
        Advance(ts, st);
        var arg;
        err, arg := Call(pt, ts, Next(st));
        node := if err != NoError then arg else UnOp(kind, arg);
      } else {
        err, node := Call(pt, ts, st);
      }
    }

    method BiopFac(pt: Priority, ghost ts: seq<Token>, ghost st: PState) returns (err: PrErr, node: Node)
      requires On(ts, st)
      modifies this, lx, lx.rd, lx.rd.buf
      ensures var r := PrBiopFac(ts, st, pt, lx.ops); Outcome(r, err, node) && On(ts, r.st)
      decreases |ts| - st.i, 2 * Level(pt) + 2
    {
      err, node := Call(pt, ts, st);
      if err != NoError {
        return;
      }
      ghost var s := PrCall(ts, st, pt, lx.ops).st;
      Current(ts, s);
      if PtIncludesTt(pt, lx.tt) {
        node := BiOp(Fac, node, Leaf(Prim(KInt, RInt(AsInt(lx.pm, lx.ops)))));
        Advance(ts, s);
      }
    }

    method SkipRp0(pt: Priority, ghost ts: seq<Token>, ghost st: PState) returns (err: PrErr, node: Node)
      requires On(ts, st)
      modifies this, lx, lx.rd, lx.rd.buf
      ensures var r := PrSkipRp0(ts, st, pt, lx.ops); Outcome(r, err, node) && On(ts, r.st)
      decreases |ts| - st.i, 2 * Level(pt) + 2
    {
      err, node := Call(pt, ts, st);
      if err != NoError {
        return;
      }
      err := Close(ts, PrCall(ts, st, pt, lx.ops).st, node);
    }

    method Close(ghost ts: seq<Token>, ghost s: PState, node: Node) returns (err: PrErr)
      requires On(ts, s)
      modifies this, lx, lx.rd, lx.rd.buf
      ensures var r := CloseGroup(ts, s, node); Outcome(r, err, node) && On(ts, r.st)
    {
      Current(ts, s);
      err := NoError;
      if lx.tt == TRp0 {
        p0c := p0c - 1;
        if p0c < 0 {
          err := ParenNotOpened;
          return;
        }
        Advance(ts, s.(p0c := s.p0c - 1));
      } else if lx.tt == TAbs {
        abs := false;
        Advance(ts, s.(abs := false));
      }
    }

    method Primitive(pt: Priority, ghost ts: seq<Token>, ghost st: PState) returns (err: PrErr, node: Node)
      requires On(ts, st)
      modifies this, lx, lx.rd, lx.rd.buf
      ensures var r := PrPrimitive(ts, st, pt, lx.ops); Outcome(r, err, node) && On(ts, r.st)
      decreases |ts| - st.i, 1
    {
      Current(ts, st);
      PrimitiveCases(ts, st, pt, lx.ops);
      if lx.tt == TAbs {
        err, node := AbsGroup(pt, ts, st);
      } else if lx.tt == TLp0 {
        err, node := ParenGroup(pt, ts, st);
      } else {
        err, node := Atom(ts, st);
      }
    }

    /** The `|` case of pr_next_primitive_node. */
    method AbsGroup(pt: Priority, ghost ts: seq<Token>, ghost st: PState) returns (err: PrErr, node: Node)
      requires On(ts, st) && lx.tt == TAbs
      modifies this, lx, lx.rd, lx.rd.buf
      ensures var r := AbsCase(ts, st, pt, lx.ops); Outcome(r, err, node) && On(ts, r.st)
      decreases |ts| - st.i, 0
    {
      Current(ts, st);
      if abs {
        return ArgExpectedAbs, Leaf(Prim(KBol, RBol(false)));
      }
      ghost var s1 := Next(st.(abs := true));
      abs := true;
      Advance(ts, st.(abs := true));
      var arg;
      err, arg := Call(pt, ts, s1);
      node := if err != NoError then arg else UnOp(Abs, arg);
    }

    /** The `(` case of pr_next_primitive_node. */
    method ParenGroup(pt: Priority, ghost ts: seq<Token>, ghost st: PState) returns (err: PrErr, node: Node)
      requires On(ts, st) && lx.tt == TLp0
      modifies this, lx, lx.rd, lx.rd.buf
      ensures var r := PrCall(ts, Next(st.(p0c := st.p0c + 1)), pt, lx.ops); Outcome(r, err, node) && On(ts, r.st)
      decreases |ts| - st.i, 0
    {
      Current(ts, st);
      ghost var s1 := Next(st.(p0c := st.p0c + 1));
      p0c := p0c + 1;
      Advance(ts, st.(p0c := st.p0c + 1));
      err, node := Call(pt, ts, s1);
    }

    /** The cases of pr_next_primitive_node that read at most one token. */
    method Atom(ghost ts: seq<Token>, ghost st: PState) returns (err: PrErr, node: Node)
      requires On(ts, st)
      modifies lx, lx.rd, lx.rd.buf
      ensures var r := PrAtom(Tok(ts, st.i), st, lx.ops); Outcome(r, err, node) && On(ts, r.st)
    {
      ghost var r := PrAtom(Tok(ts, st.i), st, lx.ops);
      Current(ts, st);
      err, node := NoError, Leaf(Prim(KBol, RBol(false)));
      match lx.tt
      case TIll => err := ArgExpectedIllegal;
      case TEos => err := ArgExpectedEos;
      case TSym =>
        node := Leaf(Prim(KSym, RUnt(AsUnt(lx.pm, lx.ops))));
        Advance(ts, st);
      case TInt =>
        node := Leaf(Prim(KInt, RInt(AsInt(lx.pm, lx.ops))));
        Advance(ts, st);
      case TFlt =>
        node := Leaf(Prim(KFlt, RFlt(AsFlt(lx.pm, lx.ops))));
        Advance(ts, st);
      case TCmx =>
        node := Leaf(Prim(KCmx, RCmx(AsCmx(lx.pm, lx.ops))));
        Advance(ts, st);
      case TTru =>
        node := Leaf(Prim(KBol, RBol(true)));
        Advance(ts, st);
      case TFal =>
        Advance(ts, st);
      case TRp0 => err := ArgExpectedRp0;
      case TEox => err := ArgExpectedEox;
      case _ => err := TokenUnexpected;
    }

    /** pr_next_node: advance the lexer to the first token, then parse one expression from the loosest level. */
    method NextNode() returns (err: PrErr, node: Node)
      requires LexValid(lx.State())
      modifies this, lx, lx.rd, lx.rd.buf
      ensures var ts := Upcoming(old(lx.State()), lx.ops);
        var r := PrNextNode(ts, PState(0, old(p0c), old(abs)), lx.ops);
        Outcome(r, err, node) && On(ts, r.st)
    {
      ghost var s := lx.State();
      NextTokenProgress(s, lx.ops);
      lx.NextToken();
      ghost var ts := Tokens(lx.State(), lx.ops);
      assert ts == Upcoming(s, lx.ops);
      assert ts[0..] == ts;
      err, node := Call(PSkipRp0, ts, PState(0, p0c, abs));
    }
  }
}
