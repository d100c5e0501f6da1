/**
 * What the descent of mewa.c's parser does with whole classes of token
 * sequences: the binary levels climb, every operand error reaches the top
 * unchanged, and a fully parenthesised printing of a tree parses back to
 * that tree.
 */
module ParsingProps {
  import opened Util
  import opened Numerics
  import opened Lexing
  import opened Ast
  import opened Parsing

  // ---------------------------------------------------------------------
  // Frames: the routines pr_call reaches while descending, numbered from
  // the loosest (1, the `=` loop) to the tightest (10, the primitive).
  // ---------------------------------------------------------------------

  function BiopAt(d: nat): Priority
    requires 1 <= d <= 8 && d != 7
  {
    if d == 1 then PLet0 else if d == 2 then POrr else if d == 3 then PAnd
    else if d == 4 then PCmp else if d == 5 then PAddSub else if d == 6 then PMulQuoMod
    else PPow0
  }

  /** The routine behind frame `d`. */
  function Frame(ts: seq<Token>, st: PState, d: nat, ops: Ops): Parsed
    requires st.i <= |ts| && 1 <= d <= 10
  {
    if d == 7 then PrUnop(ts, st, PNotNopNeg, ops)
    else if d == 9 then PrBiopFac(ts, st, PFac, ops)
    else if d == 10 then PrPrimitive(ts, st, PPrim, ops)
    else PrBiop(ts, st, BiopAt(d), ops)
  }

  /** The frame pr_call enters at each level but the primitive one. */
  function Entry(pt: Priority): nat
    requires pt != PPrim
  {
    match pt
    case PSkipRp0 => 1
    case PLet1 => 1
    case PLet0 => 2
    case POrr => 3
    case PAnd => 4
    case PCmp => 5
    case PAddSub => 6
    case PMulQuoMod => 7
    case PPow1 => 7
    case PNotNopNeg => 8
    case PPow0 => 9
    case PFac => 10
  }

  lemma CallIsFrame(ts: seq<Token>, st: PState, pt: Priority, ops: Ops)
    requires st.i <= |ts| && pt != PPrim
    ensures 1 <= Entry(pt) <= 10 && PrCall(ts, st, pt, ops) == Frame(ts, st, Entry(pt), ops)
  {
  }

  /** The token frame `d` tests after its operand (the prefix frame 7 tests before it, the primitive nothing). */
  predicate Checks(d: nat, tt: TokenType) {
    if 1 <= d <= 8 && d != 7 then PtIncludesTt(BiopAt(d), tt)
    else d == 9 && PtIncludesTt(PFac, tt)
  }

  /** Tokens after which every frame returns. */
  predicate IsStop(tt: TokenType) {
    tt == TRp0 || tt == TAbs || tt == TEos || tt == TEox
  }

  lemma StopChecksNothing(tt: TokenType)
    requires IsStop(tt)
    ensures forall d :: !Checks(d, tt)
  {
  }

  /**
   * A result of frame `X` is the result of every looser frame `d` when no
   * frame between them acts on the token after it, and, if the prefix
   * frame lies between them, the first token is no prefix operator.
   */
  lemma {:induction false} ClimbAbove(ts: seq<Token>, st: PState, d: nat, x: nat, m: Node, s2: PState, ops: Ops)
    requires st.i <= |ts| && 1 <= d <= x <= 10
    requires Frame(ts, st, x, ops) == Ok(m, s2)
    requires forall e :: d <= e < x ==> !Checks(e, Tok(ts, s2.i).tt)
    requires d <= 7 < x ==> !PtIncludesTt(PNotNopNeg, Tok(ts, st.i).tt)
    ensures Frame(ts, st, d, ops) == Ok(m, s2)
    decreases x - d
  {
    if d < x {
      ClimbAbove(ts, st, d + 1, x, m, s2, ops);
      ClimbStep(ts, st, d, m, s2, ops);
    }
  }

  /** One frame of ClimbAbove. */
  lemma ClimbStep(ts: seq<Token>, st: PState, d: nat, m: Node, s2: PState, ops: Ops)
    requires st.i <= |ts| && 1 <= d < 10
    requires Frame(ts, st, d + 1, ops) == Ok(m, s2)
    requires !Checks(d, Tok(ts, s2.i).tt)
    requires d == 7 ==> !PtIncludesTt(PNotNopNeg, Tok(ts, st.i).tt)
    ensures Frame(ts, st, d, ops) == Ok(m, s2)
  {
    if d == 7 {
      CallIsFrame(ts, st, PNotNopNeg, ops);
    } else if d == 9 {
      CallIsFrame(ts, st, PFac, ops);
    } else {
      var pt := BiopAt(d);
      CallIsFrame(ts, st, pt, ops);
      assert Entry(pt) == d + 1;
      assert BiopLoop(ts, s2, pt, m, ops) == Ok(m, s2);
    }
  }

  /** An error of frame `X` is the error of every looser frame, under the same condition on the first token. */
  lemma {:induction false} FailAbove(ts: seq<Token>, st: PState, d: nat, x: nat, e: PrErr, s2: PState, ops: Ops)
    requires st.i <= |ts| && 1 <= d <= x <= 10
    requires Frame(ts, st, x, ops) == Fail(e, s2)
    requires d <= 7 < x ==> !PtIncludesTt(PNotNopNeg, Tok(ts, st.i).tt)
    ensures Frame(ts, st, d, ops) == Fail(e, s2)
    decreases x - d
  {
    if d < x {
      FailAbove(ts, st, d + 1, x, e, s2, ops);
      if d == 7 {
        CallIsFrame(ts, st, PNotNopNeg, ops);
      } else if d == 9 {
        CallIsFrame(ts, st, PFac, ops);
      } else {
        CallIsFrame(ts, st, BiopAt(d), ops);
        assert Entry(BiopAt(d)) == d + 1;
      }
    }
  }

  // ---------------------------------------------------------------------
  // A fully parenthesised printer
  // ---------------------------------------------------------------------

  /** A punctuation or operator token; its payload is never read. */
  function Punct(tt: TokenType): Token { Token(tt, RInt(0)) }

  /** The token of a primitive whose payload matches its type. */
  function LeafToken(p: Prim): Option<Token> {
    match p.kind
    case KSym => if p.pm.RUnt? then Some(Token(TSym, p.pm)) else None
    case KInt => if p.pm.RInt? then Some(Token(TInt, p.pm)) else None
    case KFlt => if p.pm.RFlt? then Some(Token(TFlt, p.pm)) else None
    case KCmx => if p.pm.RCmx? then Some(Token(TCmx, p.pm)) else None
    case KBol => if p.pm.RBol? then Some(Token(if p.pm.b then TTru else TFal, p.pm)) else None
  }

  function UnTok(op: UnKind): TokenType {
    match op
    case Abs => TAbs
    case Not => TNot
    case Neg => TSub
    case Nop => TAdd
  }

  function BiTok(op: BiKind): TokenType {
    match op
    case Let => TLet
    case And => TAnd
    case Orr => TOrr
    case Gre => TGre
    case Les => TLes
    case Geq => TGeq
    case Leq => TLeq
    case Equ => TEqu
    case Neq => TNeq
    case Add => TAdd
    case Sub => TSub
    case Mul => TMul
    case Quo => TQuo
    case Mod => TMod
    case Pow => TPow
    case Fac => TFac
  }

  /** The frame whose loop folds a binary operator. */
  function DepthOf(op: BiKind): nat
    requires op != Fac
  {
    match op
    case Let => 1
    case Orr => 2
    case And => 3
    case Add => 5
    case Sub => 5
    case Mul => 6
    case Quo => 6
    case Mod => 6
    case Pow => 8
    case Gre => 4
    case Les => 4
    case Geq => 4
    case Leq => 4
    case Equ => 4
    case Neq => 4
  }

  /** No `|…|` inside. */
  predicate AbsFree(n: Node) {
    match n
    case UnOp(op, x) => op != Abs && AbsFree(x)
    case BiOp(_, l, r) => AbsFree(l) && AbsFree(r)
    case _ => true
  }

  /**
   * The trees the parser can build: primitives whose payload matches their
   * type, no `|…|` inside another, and a factorial whose count is an
   * integer primitive.
   */
  predicate Printable(n: Node) {
    match n
    case Leaf(p) => LeafToken(p).Some?
    case UnOp(op, x) => Printable(x) && (op == Abs ==> AbsFree(x))
    case BiOp(op, l, r) =>
      Printable(l) && (if op == Fac then r.Leaf? && r.p.kind == KInt && r.p.pm.RInt? else Printable(r))
    case _ => false
  }

  /** The nodes printed inside a pair of parentheses. */
  predicate Parenthesised(n: Node) {
    (n.UnOp? && n.uop != Abs) || n.BiOp?
  }

  /** Every operator and its operands in parentheses, `|…|` as itself. */
  function Print(n: Node): seq<Token>
    requires Printable(n)
    decreases n, 1
  {
    match n
    case Leaf(p) => [LeafToken(p).value]
    case UnOp(Abs, x) => [Punct(TAbs)] + Print(x) + [Punct(TAbs)]
    case _ => [Punct(TLp0)] + Inner(n) + [Punct(TRp0)]
  }

  /** What the parentheses of Print hold. */
  function Inner(n: Node): seq<Token>
    requires Printable(n) && Parenthesised(n)
    decreases n, 0
  {
    match n
    case UnOp(op, x) => [Punct(UnTok(op))] + Print(x)
    case BiOp(op, l, r) =>
      if op == Fac then Print(l) + [Token(TFac, r.p.pm)]
      else Print(l) + [Punct(BiTok(op))] + Print(r)
  }

  /** `s` lies in `ts` from position `i`. */
  predicate At(ts: seq<Token>, i: nat, s: seq<Token>) {
    i + |s| <= |ts| && ts[i..i + |s|] == s
  }

  lemma AtSplit(ts: seq<Token>, i: nat, a: seq<Token>, b: seq<Token>)
    requires At(ts, i, a + b)
    ensures At(ts, i, a) && At(ts, i + |a|, b)
  {
    assert ts[i..i + |a|] == ts[i..i + |a| + |b|][..|a|];
    assert ts[i + |a|..i + |a| + |b|] == ts[i..i + |a| + |b|][|a|..];
  }

  lemma AtOne(ts: seq<Token>, i: nat, t: Token)
    requires At(ts, i, [t])
    ensures Tok(ts, i) == t
  {
    assert ts[i..i + 1][0] == ts[i];
  }

  lemma AtWrap(ts: seq<Token>, i: nat, t1: Token, a: seq<Token>, t2: Token)
    requires At(ts, i, [t1] + a + [t2])
    ensures Tok(ts, i) == t1 && At(ts, i + 1, a) && Tok(ts, i + 1 + |a|) == t2
  {
    AtSplit(ts, i, [t1] + a, [t2]);
    AtSplit(ts, i, [t1], a);
    AtOne(ts, i, t1);
    AtOne(ts, i + 1 + |a|, t2);
  }

  lemma AtInfix(ts: seq<Token>, i: nat, a: seq<Token>, t: Token, b: seq<Token>)
    requires At(ts, i, a + [t] + b)
    ensures At(ts, i, a) && Tok(ts, i + |a|) == t && At(ts, i + |a| + 1, b)
  {
    AtSplit(ts, i, a + [t], b);
    AtSplit(ts, i, a, [t]);
    AtOne(ts, i + |a|, t);
  }

  lemma AtCons(ts: seq<Token>, i: nat, t: Token, a: seq<Token>)
    requires At(ts, i, [t] + a)
    ensures Tok(ts, i) == t && At(ts, i + 1, a)
  {
    AtSplit(ts, i, [t], a);
    AtOne(ts, i, t);
  }

  lemma AtSnoc(ts: seq<Token>, i: nat, a: seq<Token>, t: Token)
    requires At(ts, i, a + [t])
    ensures At(ts, i, a) && Tok(ts, i + |a|) == t
  {
    AtSplit(ts, i, a, [t]);
    AtOne(ts, i + |a|, t);
  }

  /** A printed tree starts with no prefix operator. */
  lemma FirstNotPrefix(ts: seq<Token>, i: nat, n: Node)
    requires Printable(n) && At(ts, i, Print(n))
    ensures !PtIncludesTt(PNotNopNeg, Tok(ts, i).tt)
  {
    match n
    case Leaf(p) =>
      AtOne(ts, i, LeafToken(p).value);
    case UnOp(op, x) =>
      if op == Abs {
        AbsAt(ts, i, x);
      } else {
        ParenAt(ts, i, n);
      }
    case BiOp(_, _, _) =>
      ParenAt(ts, i, n);
  }

  /** The parts of a parenthesised printing. */
  lemma ParenAt(ts: seq<Token>, i: nat, n: Node)
    requires Printable(n) && Parenthesised(n) && At(ts, i, Print(n))
    ensures Tok(ts, i) == Punct(TLp0) && At(ts, i + 1, Inner(n))
    ensures Tok(ts, i + 1 + |Inner(n)|) == Punct(TRp0)
    ensures |Print(n)| == |Inner(n)| + 2
  {
    assert Print(n) == [Punct(TLp0)] + Inner(n) + [Punct(TRp0)];
    AtWrap(ts, i, Punct(TLp0), Inner(n), Punct(TRp0));
  }

  /** A binary operator's token is acted on by its own frame and no other. */
  lemma OpChecks(op: BiKind, e: nat)
    requires op != Fac
    ensures Checks(e, BiTok(op)) <==> e == DepthOf(op)
    ensures IsBinaryTt(BiTok(op)) && BiKindOf(BiTok(op)) == op
    ensures 1 <= DepthOf(op) <= 8 && DepthOf(op) != 7 && PtIncludesTt(BiopAt(DepthOf(op)), BiTok(op))
    ensures IsBiopLevel(BiopAt(DepthOf(op)))
  {
  }

  /** The parts of a printed `|…|`. */
  lemma AbsAt(ts: seq<Token>, i: nat, x: Node)
    requires Printable(UnOp(Abs, x)) && At(ts, i, Print(UnOp(Abs, x)))
    ensures Tok(ts, i) == Punct(TAbs) && At(ts, i + 1, Print(x))
    ensures Tok(ts, i + 1 + |Print(x)|) == Punct(TAbs)
  {
    assert Print(UnOp(Abs, x)) == [Punct(TAbs)] + Print(x) + [Punct(TAbs)];
    AtWrap(ts, i, Punct(TAbs), Print(x), Punct(TAbs));
  }

  /** A printed tree lies at the position, and the state can read it. */
  predicate Printed(ts: seq<Token>, st: PState, n: Node) {
    Printable(n) && At(ts, st.i, Print(n)) && st.p0c >= 0 && (st.abs ==> AbsFree(n))
  }

  /**
   * The primitive routine reads a printed tree back, leaving `p0c` and
   * `abs` as they were.
   */
  lemma {:induction false} PrimaryRoundTrip(ts: seq<Token>, st: PState, n: Node, ops: Ops)
    requires Printed(ts, st, n)
    ensures Frame(ts, st, 10, ops) == Ok(n, st.(i := st.i + |Print(n)|))
    ensures !PtIncludesTt(PNotNopNeg, Tok(ts, st.i).tt)
    decreases n, 5
  {
    FirstNotPrefix(ts, st.i, n);
    match n
    case Leaf(p) =>
      AtOne(ts, st.i, LeafToken(p).value);
    case UnOp(op, x) =>
      if op == Abs {
        AbsRoundTrip(ts, st, x, ops);
      } else {
        ParenRoundTrip(ts, st, n, ops);
      }
    case BiOp(_, _, _) =>
      ParenRoundTrip(ts, st, n, ops);
  }

  lemma {:induction false} AbsRoundTrip(ts: seq<Token>, st: PState, x: Node, ops: Ops)
    requires Printable(UnOp(Abs, x)) && At(ts, st.i, Print(UnOp(Abs, x)))
    requires st.p0c >= 0 && !st.abs
    ensures Frame(ts, st, 10, ops) == Ok(UnOp(Abs, x), st.(i := st.i + |Print(UnOp(Abs, x))|))
    decreases UnOp(Abs, x), 4
  {
    AbsAt(ts, st.i, x);
    var s1 := Next(st.(abs := true));
    PrimaryRoundTrip(ts, s1, x, ops);
    var s2 := s1.(i := s1.i + |Print(x)|);
    SkipAbs(ts, s1, x, s2, ops);
    PrimitiveAbs(ts, st, x, Next(s2.(abs := false)), ops);
  }

  lemma {:induction false} ParenRoundTrip(ts: seq<Token>, st: PState, n: Node, ops: Ops)
    requires Printable(n) && Parenthesised(n) && At(ts, st.i, Print(n))
    requires st.p0c >= 0 && (st.abs ==> AbsFree(n))
    ensures Frame(ts, st, 10, ops) == Ok(n, st.(i := st.i + |Print(n)|))
    decreases n, 4
  {
    ParenAt(ts, st.i, n);
    var s1 := Next(st.(p0c := st.p0c + 1));
    StopChecksNothing(TRp0);
    var s2 := s1.(i := s1.i + |Inner(n)|);
    InnerRoundTrip(ts, s1, n, s2, ops);
    SkipRp0(ts, s1, n, s2, ops);
    PrimitiveParen(ts, st, n, Next(s2.(p0c := st.p0c)), ops);
  }

  /** pr_skip_rp0 after a whole expression: a closing `)` of an open parenthesis is consumed. */
  lemma SkipRp0(ts: seq<Token>, st: PState, n: Node, s2: PState, ops: Ops)
    requires st.i <= |ts| && Frame(ts, st, 1, ops) == Ok(n, s2)
    requires Tok(ts, s2.i).tt == TRp0 && s2.p0c >= 1
    ensures PrCall(ts, st, PPrim, ops) == Ok(n, Next(s2.(p0c := s2.p0c - 1)))
  {
    CallIsFrame(ts, st, PSkipRp0, ops);
  }

  /** pr_skip_rp0 after a whole expression: a closing `|` is consumed and clears `abs`. */
  lemma SkipAbs(ts: seq<Token>, st: PState, n: Node, s2: PState, ops: Ops)
    requires st.i <= |ts| && Frame(ts, st, 10, ops) == Ok(n, s2)
    requires !PtIncludesTt(PNotNopNeg, Tok(ts, st.i).tt) && Tok(ts, s2.i).tt == TAbs
    ensures PrCall(ts, st, PPrim, ops) == Ok(n, Next(s2.(abs := false)))
  {
    StopChecksNothing(TAbs);
    ClimbAbove(ts, st, 1, 10, n, s2, ops);
    CallIsFrame(ts, st, PSkipRp0, ops);
  }

  /** The primitive routine on `|`. */
  lemma PrimitiveAbs(ts: seq<Token>, st: PState, x: Node, s3: PState, ops: Ops)
    requires st.i <= |ts| && Tok(ts, st.i).tt == TAbs && !st.abs
    requires PrCall(ts, Next(st.(abs := true)), PPrim, ops) == Ok(x, s3)
    ensures Frame(ts, st, 10, ops) == Ok(UnOp(Abs, x), s3)
  {
  }

  /** The primitive routine on `(`. */
  lemma PrimitiveParen(ts: seq<Token>, st: PState, n: Node, s3: PState, ops: Ops)
    requires st.i <= |ts| && Tok(ts, st.i).tt == TLp0
    requires PrCall(ts, Next(st.(p0c := st.p0c + 1)), PPrim, ops) == Ok(n, s3)
    ensures Frame(ts, st, 10, ops) == Ok(n, s3)
  {
  }

  /** The whole descent reads the inside of a pair of parentheses back. */
  lemma {:induction false} InnerRoundTrip(ts: seq<Token>, st: PState, n: Node, s2: PState, ops: Ops)
    requires Printable(n) && Parenthesised(n) && At(ts, st.i, Inner(n))
    requires s2 == st.(i := st.i + |Inner(n)|) && IsStop(Tok(ts, s2.i).tt)
    requires st.p0c >= 0 && (st.abs ==> AbsFree(n))
    ensures Frame(ts, st, 1, ops) == Ok(n, s2)
    decreases n, 3
  {
    if n.UnOp? {
      InnerPrefix(ts, st, n, s2, ops);
    } else if n.bop == Fac {
      InnerFac(ts, st, n, s2, ops);
    } else {
      InnerBinary(ts, st, n, s2, ops);
    }
  }

  lemma {:induction false} InnerPrefix(ts: seq<Token>, st: PState, n: Node, s2: PState, ops: Ops)
    requires n.UnOp? && Printable(n) && Parenthesised(n) && At(ts, st.i, Inner(n))
    requires s2 == st.(i := st.i + |Inner(n)|) && IsStop(Tok(ts, s2.i).tt)
    requires st.p0c >= 0 && (st.abs ==> AbsFree(n))
    ensures Frame(ts, st, 1, ops) == Ok(n, s2)
    decreases n, 2
  {
    PrefixAt(ts, st.i, n.uop, n.arg);
    PrefixRoundTrip(ts, st, n.uop, n.arg, s2, ops);
  }

  lemma {:induction false} InnerFac(ts: seq<Token>, st: PState, n: Node, s2: PState, ops: Ops)
    requires n.BiOp? && n.bop == Fac && Printable(n) && At(ts, st.i, Inner(n))
    requires s2 == st.(i := st.i + |Inner(n)|) && IsStop(Tok(ts, s2.i).tt)
    requires st.p0c >= 0 && (st.abs ==> AbsFree(n))
    ensures Frame(ts, st, 1, ops) == Ok(n, s2)
    decreases n, 2
  {
    FacAt(ts, st.i, n.l, n.r);
    FacRoundTrip(ts, st, n.l, n.r.p.pm.i, st.(i := st.i + |Print(n.l)|), s2, ops);
  }

  lemma {:induction false} InnerBinary(ts: seq<Token>, st: PState, n: Node, s2: PState, ops: Ops)
    requires n.BiOp? && n.bop != Fac && Printable(n) && At(ts, st.i, Inner(n))
    requires s2 == st.(i := st.i + |Inner(n)|) && IsStop(Tok(ts, s2.i).tt)
    requires st.p0c >= 0 && (st.abs ==> AbsFree(n))
    ensures Frame(ts, st, 1, ops) == Ok(n, s2)
    decreases n, 2
  {
    BinaryAt(ts, st.i, n.bop, n.l, n.r);
    BinaryRoundTrip(ts, st, n.bop, n.l, n.r, st.(i := st.i + |Print(n.l)|), s2, ops);
  }

  /** The parts of a printed prefix operator's inside. */
  lemma PrefixAt(ts: seq<Token>, i: nat, op: UnKind, x: Node)
    requires op != Abs && Printable(UnOp(op, x)) && At(ts, i, Inner(UnOp(op, x)))
    ensures i < |ts| && Tok(ts, i).tt == UnTok(op) && At(ts, i + 1, Print(x))
    ensures |Inner(UnOp(op, x))| == 1 + |Print(x)|
  {
    var t := Punct(UnTok(op));
    assert Inner(UnOp(op, x)) == [t] + Print(x);
    AtCons(ts, i, t, Print(x));
  }

  /** The parts of a printed factorial's inside. */
  lemma FacAt(ts: seq<Token>, i: nat, l: Node, r: Node)
    requires Printable(BiOp(Fac, l, r)) && At(ts, i, Inner(BiOp(Fac, l, r)))
    ensures At(ts, i, Print(l)) && i + |Print(l)| < |ts|
    ensures Tok(ts, i + |Print(l)|) == Token(TFac, RInt(r.p.pm.i))
    ensures |Inner(BiOp(Fac, l, r))| == |Print(l)| + 1
  {
    var t := Token(TFac, r.p.pm);
    assert Inner(BiOp(Fac, l, r)) == Print(l) + [t];
    AtSnoc(ts, i, Print(l), t);
  }

  lemma {:induction false} PrefixRoundTrip(ts: seq<Token>, st: PState, op: UnKind, x: Node, s2: PState, ops: Ops)
    requires op != Abs && Printable(x) && st.i < |ts| && Tok(ts, st.i).tt == UnTok(op)
    requires At(ts, st.i + 1, Print(x)) && s2 == st.(i := st.i + 1 + |Print(x)|)
    requires IsStop(Tok(ts, s2.i).tt)
    requires st.p0c >= 0 && (st.abs ==> AbsFree(x))
    ensures Frame(ts, st, 1, ops) == Ok(UnOp(op, x), s2)
    decreases UnOp(op, x), 1
  {
    StopChecksNothing(Tok(ts, s2.i).tt);
    var s1 := Next(st);
    PrimaryRoundTrip(ts, s1, x, ops);
    ClimbAbove(ts, s1, 8, 10, x, s2, ops);
    CallIsFrame(ts, s1, PNotNopNeg, ops);
    assert Frame(ts, st, 7, ops) == Ok(UnOp(op, x), s2);
    ClimbAbove(ts, st, 1, 7, UnOp(op, x), s2, ops);
  }

  lemma {:induction false} FacRoundTrip(ts: seq<Token>, st: PState, l: Node, k: IntT, s1: PState, s2: PState, ops: Ops)
    requires Printed(ts, st, l) && s1 == st.(i := st.i + |Print(l)|) && s2 == Next(s1)
    requires Tok(ts, s1.i) == Token(TFac, RInt(k)) && IsStop(Tok(ts, s2.i).tt)
    ensures Frame(ts, st, 1, ops) == Ok(BiOp(Fac, l, Leaf(Prim(KInt, RInt(k)))), s2)
    decreases l, 7
  {
    StopChecksNothing(Tok(ts, s2.i).tt);
    PrimaryRoundTrip(ts, st, l, ops);
    FacFrame(ts, st, l, k, s1, ops);
    ClimbAbove(ts, st, 1, 9, BiOp(Fac, l, Leaf(Prim(KInt, RInt(k)))), Next(s1), ops);
  }

  /** pr_biop_next_node_fac on an operand followed by a factorial. */
  lemma FacFrame(ts: seq<Token>, st: PState, l: Node, k: IntT, s1: PState, ops: Ops)
    requires st.i <= |ts| && Frame(ts, st, 10, ops) == Ok(l, s1)
    requires Tok(ts, s1.i) == Token(TFac, RInt(k))
    ensures Frame(ts, st, 9, ops) == Ok(BiOp(Fac, l, Leaf(Prim(KInt, RInt(k)))), Next(s1))
  {
    CallIsFrame(ts, st, PFac, ops);
  }

  lemma {:induction false} BinaryRoundTrip(ts: seq<Token>, st: PState, op: BiKind, l: Node, r: Node, s1: PState, s2: PState, ops: Ops)
    requires op != Fac && Printable(l) && Printable(r)
    requires At(ts, st.i, Print(l)) && s1 == st.(i := st.i + |Print(l)|) && Tok(ts, s1.i).tt == BiTok(op)
    requires At(ts, s1.i + 1, Print(r)) && s2 == s1.(i := s1.i + 1 + |Print(r)|)
    requires IsStop(Tok(ts, s2.i).tt)
    requires st.p0c >= 0 && (st.abs ==> AbsFree(l) && AbsFree(r))
    ensures Frame(ts, st, 1, ops) == Ok(BiOp(op, l, r), s2)
    decreases BiOp(op, l, r), 1
  {
    OpChecks(op, 0);
    LeftOperand(ts, st, op, l, s1, ops);
    var s1n := Next(s1);
    assert s1n.i == s1.i + 1;
    assert At(ts, s1n.i, Print(r));
    assert s2 == s1n.(i := s1n.i + |Print(r)|);
    assert s1n.p0c >= 0 && (s1n.abs ==> AbsFree(r));
    RightOperand(ts, s1n, BiopAt(DepthOf(op)), r, s2, ops);
    FirstNotPrefix(ts, st.i, l);
    BinaryClimb(ts, st, op, l, r, s1, s2, ops);
  }

  /** A binary operator between its two operands is folded by its frame and climbs to the top. */
  lemma BinaryClimb(ts: seq<Token>, st: PState, op: BiKind, l: Node, r: Node, s1: PState, s2: PState, ops: Ops)
    requires op != Fac && st.i <= |ts| && s1.i <= |ts|
    requires 1 <= DepthOf(op) <= 8 && DepthOf(op) != 7
    requires Frame(ts, st, DepthOf(op) + 1, ops) == Ok(l, s1) && Tok(ts, s1.i).tt == BiTok(op)
    requires PrCall(ts, Next(s1), Succ(BiopAt(DepthOf(op))), ops) == Ok(r, s2)
    requires IsStop(Tok(ts, s2.i).tt) && !PtIncludesTt(PNotNopNeg, Tok(ts, st.i).tt)
    ensures Frame(ts, st, 1, ops) == Ok(BiOp(op, l, r), s2)
  {
    var x := DepthOf(op);
    var stop := Tok(ts, s2.i).tt;
    StopChecksNothing(stop);
    OpChecks(op, 0);
    assert !PtIncludesTt(BiopAt(x), stop) by {
      assert !Checks(x, stop);
    }
    FoldOnce(ts, s1, BiopAt(x), l, r, s2, ops);
    FrameOfLoop(ts, st, x, l, s1, Ok(BiOp(op, l, r), s2), ops);
    ClimbAbove(ts, st, 1, x, BiOp(op, l, r), s2, ops);
  }

  /** The parts of a printed binary operator's inside. */
  lemma BinaryAt(ts: seq<Token>, i: nat, op: BiKind, l: Node, r: Node)
    requires op != Fac && Printable(BiOp(op, l, r)) && At(ts, i, Inner(BiOp(op, l, r)))
    ensures At(ts, i, Print(l)) && Tok(ts, i + |Print(l)|).tt == BiTok(op)
    ensures At(ts, i + |Print(l)| + 1, Print(r))
    ensures |Inner(BiOp(op, l, r))| == |Print(l)| + 1 + |Print(r)|
  {
    var t := Punct(BiTok(op));
    assert Inner(BiOp(op, l, r)) == Print(l) + [t] + Print(r);
    AtInfix(ts, i, Print(l), t, Print(r));
  }

  /** The left operand of a printed binary operator climbs to the frame below the operator's. */
  lemma LeftOperand(ts: seq<Token>, st: PState, op: BiKind, l: Node, s1: PState, ops: Ops)
    requires op != Fac && Printable(l) && At(ts, st.i, Print(l))
    requires s1 == st.(i := st.i + |Print(l)|) && Tok(ts, s1.i).tt == BiTok(op)
    requires st.p0c >= 0 && (st.abs ==> AbsFree(l))
    ensures 1 <= DepthOf(op) <= 8 && DepthOf(op) != 7
    ensures Frame(ts, st, DepthOf(op) + 1, ops) == Ok(l, s1)
    decreases l, 6
  {
    OpChecks(op, 0);
    var x := DepthOf(op);
    forall e | x + 1 <= e < 10 ensures !Checks(e, BiTok(op)) {
      OpChecks(op, e);
    }
    PrimaryRoundTrip(ts, st, l, ops);
    FirstNotPrefix(ts, st.i, l);
    ClimbAbove(ts, st, x + 1, 10, l, s1, ops);
  }

  /** The right operand of a printed binary operator, parsed at the level's right-operand level. */
  lemma RightOperand(ts: seq<Token>, st: PState, pt: Priority, r: Node, s2: PState, ops: Ops)
    requires IsBiopLevel(pt) && Printable(r) && At(ts, st.i, Print(r))
    requires s2 == st.(i := st.i + |Print(r)|) && IsStop(Tok(ts, s2.i).tt)
    requires st.p0c >= 0 && (st.abs ==> AbsFree(r))
    ensures PrCall(ts, st, Succ(pt), ops) == Ok(r, s2)
    decreases r, 6
  {
    StopChecksNothing(Tok(ts, s2.i).tt);
    PrimaryRoundTrip(ts, st, r, ops);
    FirstNotPrefix(ts, st.i, r);
    CallIsFrame(ts, st, Succ(pt), ops);
    ClimbAbove(ts, st, Entry(Succ(pt)), 10, r, s2, ops);
  }

  /** One turn of the loop of pr_biop_next_node, then its exit. */
  lemma FoldOnce(ts: seq<Token>, s1: PState, pt: Priority, l: Node, r: Node, s2: PState, ops: Ops)
    requires s1.i <= |ts| && IsBiopLevel(pt) && PtIncludesTt(pt, Tok(ts, s1.i).tt)
    requires PrCall(ts, Next(s1), Succ(pt), ops) == Ok(r, s2)
    requires !PtIncludesTt(pt, Tok(ts, s2.i).tt)
    ensures IsBinaryTt(Tok(ts, s1.i).tt)
    ensures BiopLoop(ts, s1, pt, l, ops) == Ok(BiOp(BiKindOf(Tok(ts, s1.i).tt), l, r), s2)
  {
  }

  /** A binary frame is its loop run on the result of the next frame. */
  lemma FrameOfLoop(ts: seq<Token>, st: PState, x: nat, l: Node, s1: PState, res: Parsed, ops: Ops)
    requires st.i <= |ts| && 1 <= x <= 8 && x != 7
    requires Frame(ts, st, x + 1, ops) == Ok(l, s1)
    requires BiopLoop(ts, s1, BiopAt(x), l, ops) == res
    ensures Frame(ts, st, x, ops) == res
  {
    CallIsFrame(ts, st, BiopAt(x), ops);
    assert Entry(BiopAt(x)) == x + 1;
  }

  /** A printed tree followed by the end of the string parses back to the tree. */
  lemma ParseRoundTrip(n: Node, ops: Ops)
    requires Printable(n)
    ensures PrNextNode(Print(n) + [Punct(TEos)], PState(0, 0, false), ops) == Ok(n, PState(|Print(n)|, 0, false))
  {
    var ts := Print(n) + [Punct(TEos)];
    var st := PState(0, 0, false);
    AtSplit(ts, 0, Print(n), [Punct(TEos)]);
    AtOne(ts, |Print(n)|, Punct(TEos));
    PrimaryRoundTrip(ts, st, n, ops);
    FirstNotPrefix(ts, 0, n);
    StopChecksNothing(TEos);
    ClimbAbove(ts, st, 1, 10, n, PState(|Print(n)|, 0, false), ops);
    CallIsFrame(ts, st, PSkipRp0, ops);
  }
}
