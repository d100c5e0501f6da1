/**
 * What mewa.c's parser does on particular shapes of input: where an
 * operand is missing, how parentheses and `|…|` are counted, and how
 * precedence and associativity nest two operators.
 */
module ParsingLaws {
  import opened Util
  import opened Numerics
  import opened Lexing
  import opened Ast
  import opened Parsing
  import opened ParsingProps

  // ---------------------------------------------------------------------
  // A missing operand
  // ---------------------------------------------------------------------

  /** The error for a token that cannot start an operand, if it cannot. */
  function OperandError(tt: TokenType, abs: bool): Option<PrErr> {
    match tt
    case TIll => Some(ArgExpectedIllegal)
    case TEos => Some(ArgExpectedEos)
    case TRp0 => Some(ArgExpectedRp0)
    case TEox => Some(ArgExpectedEox)
    case TAbs => if abs then Some(ArgExpectedAbs) else None
    case TSym | TInt | TFlt | TCmx | TTru | TFal | TLp0 => None
    case _ => Some(TokenUnexpected)
  }

  /** pr_next_primitive_node reads at least one token unless the token cannot start an operand. */
  lemma PrimitiveProgress(ts: seq<Token>, st: PState, ops: Ops)
    requires st.i <= |ts|
    ensures var r := Frame(ts, st, 10, ops);
      (r.st.i == st.i <==> OperandError(Tok(ts, st.i).tt, st.abs).Some?) &&
      (r.st.i == st.i ==> r == Fail(OperandError(Tok(ts, st.i).tt, st.abs).value, st))
  {
  }

  /** No frame ends before the frame below it. */
  lemma FrameStepProgress(ts: seq<Token>, st: PState, d: nat, ops: Ops)
    requires st.i <= |ts| && 1 <= d < 10
    requires d == 7 ==> !PtIncludesTt(PNotNopNeg, Tok(ts, st.i).tt)
    ensures Frame(ts, st, d, ops).st.i >= Frame(ts, st, d + 1, ops).st.i
  {
    if d == 7 {
      CallIsFrame(ts, st, PNotNopNeg, ops);
    } else if d == 9 {
      CallIsFrame(ts, st, PFac, ops);
    } else {
      CallIsFrame(ts, st, BiopAt(d), ops);
      assert Entry(BiopAt(d)) == d + 1;
    }
  }

  lemma {:induction false} FrameProgress(ts: seq<Token>, st: PState, d: nat, x: nat, ops: Ops)
    requires st.i <= |ts| && 1 <= d <= x <= 10
    requires d <= 7 < x ==> !PtIncludesTt(PNotNopNeg, Tok(ts, st.i).tt)
    ensures Frame(ts, st, d, ops).st.i >= Frame(ts, st, x, ops).st.i
    decreases x - d
  {
    if d < x {
      FrameProgress(ts, st, d + 1, x, ops);
      FrameStepProgress(ts, st, d, ops);
    }
  }

  /**
   * pr_next_node stops where it started exactly when the first token is no
   * prefix operator and cannot start an operand, and then it reports that
   * token's error.
   */
  lemma StuckAtStart(ts: seq<Token>, st: PState, ops: Ops)
    requires st.i <= |ts|
    ensures var r := PrNextNode(ts, st, ops);
      var tt := Tok(ts, st.i).tt;
      (r.st.i == st.i <==> !PtIncludesTt(PNotNopNeg, tt) && OperandError(tt, st.abs).Some?) &&
      (r.st.i == st.i ==> r == Fail(OperandError(tt, st.abs).value, st))
  {
    var tt := Tok(ts, st.i).tt;
    CallIsFrame(ts, st, PSkipRp0, ops);
    if PtIncludesTt(PNotNopNeg, tt) {
      FrameProgress(ts, st, 1, 7, ops);
    } else {
      FrameProgress(ts, st, 1, 10, ops);
      PrimitiveProgress(ts, st, ops);
      var r := Frame(ts, st, 10, ops);
      if r.st.i == st.i {
        FailAbove(ts, st, 1, 10, r.err, st, ops);
      }
    }
  }

  /** Two prefix operators in a row: the second is an unexpected token. */
  lemma DoublePrefix(ts: seq<Token>, st: PState, ops: Ops)
    requires st.i + 1 < |ts|
    requires PtIncludesTt(PNotNopNeg, Tok(ts, st.i).tt) && PtIncludesTt(PNotNopNeg, Tok(ts, st.i + 1).tt)
    ensures PrNextNode(ts, st, ops) == Fail(TokenUnexpected, Next(st))
  {
    var s1 := Next(st);
    assert Frame(ts, s1, 10, ops) == Fail(TokenUnexpected, s1);
    FailAbove(ts, s1, 8, 10, TokenUnexpected, s1, ops);
    CallIsFrame(ts, s1, PNotNopNeg, ops);
    assert Frame(ts, st, 7, ops) == Fail(TokenUnexpected, s1);
    FailAbove(ts, st, 1, 7, TokenUnexpected, s1, ops);
    CallIsFrame(ts, st, PSkipRp0, ops);
  }

  // ---------------------------------------------------------------------
  // Counting parentheses and `|…|`
  // ---------------------------------------------------------------------

  /** A printed tree, its state and the frame reading it up to a stop token. */
  lemma WholeAt(ts: seq<Token>, st: PState, n: Node, s2: PState, ops: Ops)
    requires Printed(ts, st, n) && s2 == st.(i := st.i + |Print(n)|) && IsStop(Tok(ts, s2.i).tt)
    ensures Frame(ts, st, 1, ops) == Ok(n, s2)
  {
    StopChecksNothing(Tok(ts, s2.i).tt);
    PrimaryRoundTrip(ts, st, n, ops);
    ClimbAbove(ts, st, 1, 10, n, s2, ops);
  }

  /**
   * A `)` closing an expression that follows a top-level `|` is counted
   * against parentheses that were never opened: `|x)` reports
   * PAREN_NOT_OPENED with the counter at -1.
   */
  lemma AbsClosedByParen(x: Node, ops: Ops)
    requires Printable(x) && AbsFree(x)
    ensures var ts := [Punct(TAbs)] + Print(x) + [Punct(TRp0)];
      PrNextNode(ts, PState(0, 0, false), ops) == Fail(ParenNotOpened, PState(1 + |Print(x)|, -1, true))
  {
    var ts := [Punct(TAbs)] + Print(x) + [Punct(TRp0)];
    AtWrap(ts, 0, Punct(TAbs), Print(x), Punct(TRp0));
    assert Printed(ts, PState(1, 0, true), x);
    AbsParenAt(ts, PState(0, 0, false), x, PState(1 + |Print(x)|, 0, true), ops);
  }

  lemma AbsParenAt(ts: seq<Token>, st: PState, x: Node, s2: PState, ops: Ops)
    requires st.i < |ts| && Tok(ts, st.i).tt == TAbs && !st.abs && st.p0c == 0
    requires Printed(ts, Next(st.(abs := true)), x) && s2 == st.(i := st.i + 1 + |Print(x)|, abs := true)
    requires Tok(ts, s2.i).tt == TRp0
    ensures PrNextNode(ts, st, ops) == Fail(ParenNotOpened, s2.(p0c := -1))
  {
    var s1 := Next(st.(abs := true));
    WholeAt(ts, s1, x, s2, ops);
    CallIsFrame(ts, s1, PSkipRp0, ops);
    assert PrCall(ts, s1, PPrim, ops) == Fail(ParenNotOpened, s2.(p0c := -1));
    assert Frame(ts, st, 10, ops) == Fail(ParenNotOpened, s2.(p0c := -1));
    FailAbove(ts, st, 1, 10, ParenNotOpened, s2.(p0c := -1), ops);
    CallIsFrame(ts, st, PSkipRp0, ops);
  }

  /** A `(` never closed is accepted, and the counter stays at 1. */
  lemma UnclosedParen(n: Node, ops: Ops)
    requires Printable(n)
    ensures var ts := [Punct(TLp0)] + Print(n) + [Punct(TEos)];
      PrNextNode(ts, PState(0, 0, false), ops) == Ok(n, PState(1 + |Print(n)|, 1, false))
  {
    var ts := [Punct(TLp0)] + Print(n) + [Punct(TEos)];
    AtWrap(ts, 0, Punct(TLp0), Print(n), Punct(TEos));
    UnclosedAt(ts, PState(0, 0, false), n, PState(1 + |Print(n)|, 1, false), ops);
  }

  lemma UnclosedAt(ts: seq<Token>, st: PState, n: Node, s2: PState, ops: Ops)
    requires st.i < |ts| && Tok(ts, st.i).tt == TLp0
    requires Printed(ts, Next(st.(p0c := st.p0c + 1)), n) && s2 == st.(i := st.i + 1 + |Print(n)|, p0c := st.p0c + 1)
    requires Tok(ts, s2.i).tt == TEos
    ensures PrNextNode(ts, st, ops) == Ok(n, s2)
  {
    var s1 := Next(st.(p0c := st.p0c + 1));
    WholeAt(ts, s1, n, s2, ops);
    CallIsFrame(ts, s1, PSkipRp0, ops);
    PrimitiveParen(ts, st, n, s2, ops);
    StopChecksNothing(TEos);
    ClimbAbove(ts, st, 1, 10, n, s2, ops);
    CallIsFrame(ts, st, PSkipRp0, ops);
  }

  /** A `)` after a whole top-level expression is not read: pr_next_node stops in front of it. */
  lemma TrailingParen(n: Node, rest: seq<Token>, ops: Ops)
    requires Printable(n)
    ensures var ts := Print(n) + [Punct(TRp0)] + rest;
      PrNextNode(ts, PState(0, 0, false), ops) == Ok(n, PState(|Print(n)|, 0, false))
  {
    var ts := Print(n) + [Punct(TRp0)] + rest;
    AtInfix(ts, 0, Print(n), Punct(TRp0), rest);
    WholeAt(ts, PState(0, 0, false), n, PState(|Print(n)|, 0, false), ops);
    CallIsFrame(ts, PState(0, 0, false), PSkipRp0, ops);
  }

  // ---------------------------------------------------------------------
  // Precedence and associativity of two operators
  // ---------------------------------------------------------------------

  /** `=` and `^` take their right operand one level looser (pt_rl_biop). */
  predicate RightAssoc(op: BiKind) { op == Let || op == Pow }

  /** `a op1 b op2 c` groups as `a op1 (b op2 c)`. */
  predicate NestsRight(op1: BiKind, op2: BiKind)
    requires op1 != Fac && op2 != Fac
  {
    DepthOf(op1) < DepthOf(op2) || (DepthOf(op1) == DepthOf(op2) && RightAssoc(op1))
  }

  /** An operator's token is acted on by no frame tighter than its own. */
  lemma OpAbove(op: BiKind, d: nat)
    requires op != Fac && DepthOf(op) < d
    ensures forall e :: d <= e < 10 ==> !Checks(e, BiTok(op))
  {
    forall e | d <= e < 10 ensures !Checks(e, BiTok(op)) {
      OpChecks(op, e);
    }
  }

  /** A printed operand is read by frame `d` when no frame from `d` on acts on the token after it. */
  lemma OperandAt(ts: seq<Token>, st: PState, n: Node, d: nat, s2: PState, ops: Ops)
    requires Printed(ts, st, n) && 1 <= d <= 10 && s2 == st.(i := st.i + |Print(n)|)
    requires forall e :: d <= e < 10 ==> !Checks(e, Tok(ts, s2.i).tt)
    ensures Frame(ts, st, d, ops) == Ok(n, s2)
    ensures !PtIncludesTt(PNotNopNeg, Tok(ts, st.i).tt)
  {
    PrimaryRoundTrip(ts, st, n, ops);
    ClimbAbove(ts, st, d, 10, n, s2, ops);
  }

  /** One turn of the loop of pr_biop_next_node. */
  lemma FoldStep(ts: seq<Token>, s1: PState, pt: Priority, l: Node, r: Node, s2: PState, ops: Ops)
    requires s1.i <= |ts| && IsBiopLevel(pt) && PtIncludesTt(pt, Tok(ts, s1.i).tt)
    requires PrCall(ts, Next(s1), Succ(pt), ops) == Ok(r, s2)
    ensures IsBinaryTt(Tok(ts, s1.i).tt)
    ensures BiopLoop(ts, s1, pt, l, ops) == BiopLoop(ts, s2, pt, BiOp(BiKindOf(Tok(ts, s1.i).tt), l, r), ops)
  {
  }

  /** A binary frame folding one operator whose loop then stops. */
  lemma FoldedAt(ts: seq<Token>, st: PState, op: BiKind, l: Node, r: Node, s1: PState, s2: PState, ops: Ops)
    requires op != Fac && st.i <= |ts| && s1.i <= |ts|
    requires 1 <= DepthOf(op) <= 8 && DepthOf(op) != 7 && IsBiopLevel(BiopAt(DepthOf(op)))
    requires Frame(ts, st, DepthOf(op) + 1, ops) == Ok(l, s1) && Tok(ts, s1.i).tt == BiTok(op)
    requires PrCall(ts, Next(s1), Succ(BiopAt(DepthOf(op))), ops) == Ok(r, s2)
    requires !PtIncludesTt(BiopAt(DepthOf(op)), Tok(ts, s2.i).tt)
    ensures Frame(ts, st, DepthOf(op), ops) == Ok(BiOp(op, l, r), s2)
  {
    OpChecks(op, 0);
    FoldOnce(ts, s1, BiopAt(DepthOf(op)), l, r, s2, ops);
    FrameOfLoop(ts, st, DepthOf(op), l, s1, Ok(BiOp(op, l, r), s2), ops);
  }

  /** A printed operand, the state after it and the type of the token following it. */
  predicate Before(ts: seq<Token>, st: PState, n: Node, tt: TokenType, s1: PState) {
    Printed(ts, st, n) && s1 == st.(i := st.i + |Print(n)|) && Tok(ts, s1.i).tt == tt
  }

  /** Three printed operands with two operators between them and a stop token after them. */
  predicate Chained(ts: seq<Token>, st: PState, a: Node, op1: BiKind, b: Node, op2: BiKind, c: Node, s1: PState, s2: PState, s3: PState) {
    Before(ts, st, a, BiTok(op1), s1) && Before(ts, Next(s1), b, BiTok(op2), s2) &&
    Before(ts, Next(s2), c, Tok(ts, s3.i).tt, s3) && IsStop(Tok(ts, s3.i).tt)
  }

  /** The facts about an operator's level the groupings use. */
  lemma LevelFacts(op: BiKind)
    requires op != Fac
    ensures 1 <= DepthOf(op) <= 8 && DepthOf(op) != 7 && IsBiopLevel(BiopAt(DepthOf(op)))
    ensures Entry(BiopAt(DepthOf(op))) == DepthOf(op) + 1
    ensures Entry(Succ(BiopAt(DepthOf(op)))) == (if op == Let then 1 else if op == Pow then 7 else DepthOf(op) + 1)
    ensures !RightAssoc(op) ==> Succ(BiopAt(DepthOf(op))) == BiopAt(DepthOf(op))
    ensures forall e :: DepthOf(op) < e < 10 ==> !Checks(e, BiTok(op))
    ensures IsBinaryTt(BiTok(op)) && BiKindOf(BiTok(op)) == op && PtIncludesTt(BiopAt(DepthOf(op)), BiTok(op))
  {
    OpChecks(op, 0);
    OpAbove(op, DepthOf(op) + 1);
  }

  /** A stop token ends the loop of every binary level. */
  lemma StopEndsLoop(x: nat, stop: TokenType)
    requires 1 <= x <= 8 && x != 7 && IsStop(stop)
    ensures !PtIncludesTt(BiopAt(x), stop)
  {
    StopChecksNothing(stop);
    assert !Checks(x, stop);
  }

  /** `b op2 c` followed by a stop token is read by the frame of `op2`. */
  lemma RightPair(ts: seq<Token>, st: PState, op2: BiKind, b: Node, c: Node, s2: PState, s3: PState, ops: Ops)
    requires op2 != Fac && Before(ts, st, b, BiTok(op2), s2)
    requires Before(ts, Next(s2), c, Tok(ts, s3.i).tt, s3) && IsStop(Tok(ts, s3.i).tt)
    ensures 1 <= DepthOf(op2) <= 8 && DepthOf(op2) != 7
    ensures Frame(ts, st, DepthOf(op2), ops) == Ok(BiOp(op2, b, c), s3)
    ensures !PtIncludesTt(PNotNopNeg, Tok(ts, st.i).tt)
  {
    LevelFacts(op2);
    var x2 := DepthOf(op2);
    OperandAt(ts, st, b, x2 + 1, s2, ops);
    RightOperand(ts, Next(s2), BiopAt(x2), c, s3, ops);
    StopEndsLoop(x2, Tok(ts, s3.i).tt);
    FoldedAt(ts, st, op2, b, c, s2, s3, ops);
  }

  lemma NestEntry(op1: BiKind, op2: BiKind)
    requires op1 != Fac && op2 != Fac && NestsRight(op1, op2)
    ensures 1 <= DepthOf(op1) <= 8 && DepthOf(op1) != 7
    ensures 1 <= Entry(Succ(BiopAt(DepthOf(op1)))) <= DepthOf(op2)
  {
    LevelFacts(op1);
    LevelFacts(op2);
  }

  /** `b op2 c` as the right operand of a looser (or the same right-associative) `op1`. */
  lemma RightGroup(ts: seq<Token>, st: PState, a: Node, op1: BiKind, b: Node, op2: BiKind, c: Node, s1: PState, s2: PState, s3: PState, ops: Ops)
    requires op1 != Fac && op2 != Fac && NestsRight(op1, op2)
    requires Chained(ts, st, a, op1, b, op2, c, s1, s2, s3)
    ensures 1 <= DepthOf(op1) <= 8 && DepthOf(op1) != 7
    ensures PrCall(ts, Next(s1), Succ(BiopAt(DepthOf(op1))), ops) == Ok(BiOp(op2, b, c), s3)
  {
    RightPair(ts, Next(s1), op2, b, c, s2, s3, ops);
    NestEntry(op1, op2);
    var pt := Succ(BiopAt(DepthOf(op1)));
    StopChecksNothing(Tok(ts, s3.i).tt);
    ClimbAbove(ts, Next(s1), Entry(pt), DepthOf(op2), BiOp(op2, b, c), s3, ops);
    CallIsFrame(ts, Next(s1), pt, ops);
  }

  lemma NestRight(ts: seq<Token>, st: PState, a: Node, op1: BiKind, b: Node, op2: BiKind, c: Node, s1: PState, s2: PState, s3: PState, ops: Ops)
    requires op1 != Fac && op2 != Fac && NestsRight(op1, op2)
    requires Chained(ts, st, a, op1, b, op2, c, s1, s2, s3)
    ensures Frame(ts, st, 1, ops) == Ok(BiOp(op1, a, BiOp(op2, b, c)), s3)
  {
    LevelFacts(op1);
    var x1 := DepthOf(op1);
    OperandAt(ts, st, a, x1 + 1, s1, ops);
    RightGroup(ts, st, a, op1, b, op2, c, s1, s2, s3, ops);
    StopEndsLoop(x1, Tok(ts, s3.i).tt);
    FoldedAt(ts, st, op1, a, BiOp(op2, b, c), s1, s3, ops);
    StopChecksNothing(Tok(ts, s3.i).tt);
    ClimbAbove(ts, st, 1, x1, BiOp(op1, a, BiOp(op2, b, c)), s3, ops);
  }

  lemma TighterEntry(op1: BiKind, op2: BiKind)
    requires op1 != Fac && op2 != Fac && DepthOf(op1) > DepthOf(op2)
    ensures 1 <= DepthOf(op1) <= 8 && DepthOf(op1) != 7
    ensures DepthOf(op2) < Entry(Succ(BiopAt(DepthOf(op1)))) <= 10
    ensures !PtIncludesTt(BiopAt(DepthOf(op1)), BiTok(op2))
  {
    LevelFacts(op1);
    LevelFacts(op2);
    OpChecks(op2, DepthOf(op1));
  }

  /** `a op1 b` with a tighter `op1`, read by the frame of `op1` up to `op2`. */
  lemma LeftPairTighter(ts: seq<Token>, st: PState, a: Node, op1: BiKind, b: Node, op2: BiKind, s1: PState, s2: PState, ops: Ops)
    requires op1 != Fac && op2 != Fac && DepthOf(op1) > DepthOf(op2)
    requires Before(ts, st, a, BiTok(op1), s1) && Before(ts, Next(s1), b, BiTok(op2), s2)
    ensures 1 <= DepthOf(op1) <= 8 && DepthOf(op1) != 7
    ensures Frame(ts, st, DepthOf(op1), ops) == Ok(BiOp(op1, a, b), s2)
  {
    LevelFacts(op1);
    LevelFacts(op2);
    TighterEntry(op1, op2);
    var x1 := DepthOf(op1);
    OperandAt(ts, st, a, x1 + 1, s1, ops);
    var pt1 := Succ(BiopAt(x1));
    OperandAt(ts, Next(s1), b, Entry(pt1), s2, ops);
    CallIsFrame(ts, Next(s1), pt1, ops);
    FoldedAt(ts, st, op1, a, b, s1, s2, ops);
  }

  /** `a op1 b` with a tighter `op1` climbs to the frame below `op2`. */
  lemma LeftGroupTighter(ts: seq<Token>, st: PState, a: Node, op1: BiKind, b: Node, op2: BiKind, c: Node, s1: PState, s2: PState, s3: PState, ops: Ops)
    requires op1 != Fac && op2 != Fac && DepthOf(op1) > DepthOf(op2)
    requires Chained(ts, st, a, op1, b, op2, c, s1, s2, s3)
    ensures Frame(ts, st, DepthOf(op2) + 1, ops) == Ok(BiOp(op1, a, b), s2)
  {
    LeftPairTighter(ts, st, a, op1, b, op2, s1, s2, ops);
    LevelFacts(op2);
    FirstNotPrefix(ts, st.i, a);
    ClimbAbove(ts, st, DepthOf(op2) + 1, DepthOf(op1), BiOp(op1, a, b), s2, ops);
  }

  lemma NestLeftTighter(ts: seq<Token>, st: PState, a: Node, op1: BiKind, b: Node, op2: BiKind, c: Node, s1: PState, s2: PState, s3: PState, ops: Ops)
    requires op1 != Fac && op2 != Fac && DepthOf(op1) > DepthOf(op2)
    requires Chained(ts, st, a, op1, b, op2, c, s1, s2, s3)
    ensures Frame(ts, st, 1, ops) == Ok(BiOp(op2, BiOp(op1, a, b), c), s3)
  {
    LevelFacts(op2);
    var x2 := DepthOf(op2);
    LeftGroupTighter(ts, st, a, op1, b, op2, c, s1, s2, s3, ops);
    RightOperand(ts, Next(s2), BiopAt(x2), c, s3, ops);
    StopEndsLoop(x2, Tok(ts, s3.i).tt);
    FoldedAt(ts, st, op2, BiOp(op1, a, b), c, s2, s3, ops);
    FirstNotPrefix(ts, st.i, a);
    StopChecksNothing(Tok(ts, s3.i).tt);
    ClimbAbove(ts, st, 1, x2, BiOp(op2, BiOp(op1, a, b), c), s3, ops);
  }

  /** The first turn of the loop of a left-associative level on `a op1 b op2`. */
  lemma LeftPairSame(ts: seq<Token>, st: PState, a: Node, op1: BiKind, b: Node, op2: BiKind, s1: PState, s2: PState, ops: Ops)
    requires op1 != Fac && op2 != Fac && DepthOf(op1) == DepthOf(op2) && !RightAssoc(op1)
    requires Before(ts, st, a, BiTok(op1), s1) && Before(ts, Next(s1), b, BiTok(op2), s2)
    ensures 1 <= DepthOf(op1) <= 8 && DepthOf(op1) != 7 && IsBiopLevel(BiopAt(DepthOf(op1)))
    ensures Frame(ts, st, DepthOf(op1) + 1, ops) == Ok(a, s1)
    ensures BiopLoop(ts, s1, BiopAt(DepthOf(op1)), a, ops) == BiopLoop(ts, s2, BiopAt(DepthOf(op1)), BiOp(op1, a, b), ops)
  {
    LevelFacts(op1);
    LevelFacts(op2);
    var x := DepthOf(op1);
    var pt := BiopAt(x);
    OperandAt(ts, st, a, x + 1, s1, ops);
    OperandAt(ts, Next(s1), b, x + 1, s2, ops);
    CallIsFrame(ts, Next(s1), pt, ops);
    assert PtIncludesTt(pt, Tok(ts, s1.i).tt);
    FoldStep(ts, s1, pt, a, b, s2, ops);
  }

  /** Two operators of one left-associative level fold from the left. */
  lemma NestLeftSame(ts: seq<Token>, st: PState, a: Node, op1: BiKind, b: Node, op2: BiKind, c: Node, s1: PState, s2: PState, s3: PState, ops: Ops)
    requires op1 != Fac && op2 != Fac && DepthOf(op1) == DepthOf(op2) && !RightAssoc(op1)
    requires Chained(ts, st, a, op1, b, op2, c, s1, s2, s3)
    ensures Frame(ts, st, 1, ops) == Ok(BiOp(op2, BiOp(op1, a, b), c), s3)
  {
    LeftPairSame(ts, st, a, op1, b, op2, s1, s2, ops);
    LevelFacts(op2);
    var x := DepthOf(op1);
    var pt := BiopAt(x);
    RightOperand(ts, Next(s2), pt, c, s3, ops);
    StopEndsLoop(x, Tok(ts, s3.i).tt);
    FoldOnce(ts, s2, pt, BiOp(op1, a, b), c, s3, ops);
    FrameOfLoop(ts, st, x, a, s1, Ok(BiOp(op2, BiOp(op1, a, b), c), s3), ops);
    FirstNotPrefix(ts, st.i, a);
    StopChecksNothing(Tok(ts, s3.i).tt);
    ClimbAbove(ts, st, 1, x, BiOp(op2, BiOp(op1, a, b), c), s3, ops);
  }

  /** The tokens of `a op1 b op2 c` and the end of the string. */
  function Chain(a: Node, op1: BiKind, b: Node, op2: BiKind, c: Node): seq<Token>
    requires Printable(a) && Printable(b) && Printable(c)
  {
    Print(a) + ([Punct(BiTok(op1))] + (Print(b) + ([Punct(BiTok(op2))] + (Print(c) + [Punct(TEos)]))))
  }

  lemma BeforeAt(ts: seq<Token>, st: PState, n: Node, t: Token, rest: seq<Token>, s1: PState)
    requires Printable(n) && st.p0c >= 0 && !st.abs && At(ts, st.i, Print(n) + ([t] + rest))
    requires s1 == st.(i := st.i + |Print(n)|)
    ensures Before(ts, st, n, t.tt, s1) && At(ts, Next(s1).i, rest)
  {
    AtSplit(ts, st.i, Print(n), [t] + rest);
    AtCons(ts, s1.i, t, rest);
  }

  lemma ChainedAtStart(ts: seq<Token>, a: Node, op1: BiKind, b: Node, op2: BiKind, c: Node, s1: PState, s2: PState, s3: PState)
    requires Printable(a) && Printable(b) && Printable(c) && ts == Chain(a, op1, b, op2, c)
    requires s1 == PState(0, 0, false).(i := 0 + |Print(a)|)
    requires s2 == Next(s1).(i := Next(s1).i + |Print(b)|) && s3 == Next(s2).(i := Next(s2).i + |Print(c)|)
    ensures Chained(ts, PState(0, 0, false), a, op1, b, op2, c, s1, s2, s3) && Tok(ts, s3.i).tt == TEos
  {
    var pc := Print(c) + [Punct(TEos)];
    var pb := Print(b) + ([Punct(BiTok(op2))] + pc);
    assert At(ts, 0, Print(a) + ([Punct(BiTok(op1))] + pb));
    BeforeAt(ts, PState(0, 0, false), a, Punct(BiTok(op1)), pb, s1);
    BeforeAt(ts, Next(s1), b, Punct(BiTok(op2)), pc, s2);
    AtSnoc(ts, Next(s2).i, Print(c), Punct(TEos));
  }

  /** The grouping of two operators, wherever they stand. */
  lemma Grouping(ts: seq<Token>, st: PState, a: Node, op1: BiKind, b: Node, op2: BiKind, c: Node, s1: PState, s2: PState, s3: PState, ops: Ops)
    requires op1 != Fac && op2 != Fac
    requires Chained(ts, st, a, op1, b, op2, c, s1, s2, s3)
    ensures Frame(ts, st, 1, ops) ==
      Ok(if NestsRight(op1, op2) then BiOp(op1, a, BiOp(op2, b, c)) else BiOp(op2, BiOp(op1, a, b), c), s3)
  {
    if NestsRight(op1, op2) {
      NestRight(ts, st, a, op1, b, op2, c, s1, s2, s3, ops);
    } else if DepthOf(op1) > DepthOf(op2) {
      NestLeftTighter(ts, st, a, op1, b, op2, c, s1, s2, s3, ops);
    } else {
      NestLeftSame(ts, st, a, op1, b, op2, c, s1, s2, s3, ops);
    }
  }

  /**
   * Precedence and associativity: `a op1 b op2 c` groups to the right when
   * `op1` binds more loosely, or both are the same right-associative `=` or
   * `^`, and to the left otherwise.
   */
  lemma TwoOperators(a: Node, op1: BiKind, b: Node, op2: BiKind, c: Node, ops: Ops)
    requires op1 != Fac && op2 != Fac && Printable(a) && Printable(b) && Printable(c)
    ensures var ts := Chain(a, op1, b, op2, c);
      PrNextNode(ts, PState(0, 0, false), ops) ==
        Ok(if NestsRight(op1, op2) then BiOp(op1, a, BiOp(op2, b, c)) else BiOp(op2, BiOp(op1, a, b), c),
           PState(|ts| - 1, 0, false))
  {
    var ts := Chain(a, op1, b, op2, c);
    var st := PState(0, 0, false);
    var s1 := st.(i := 0 + |Print(a)|);
    var s2 := Next(s1).(i := Next(s1).i + |Print(b)|);
    var s3 := Next(s2).(i := Next(s2).i + |Print(c)|);
    ChainedAtStart(ts, a, op1, b, op2, c, s1, s2, s3);
    Grouping(ts, st, a, op1, b, op2, c, s1, s2, s3, ops);
    CallIsFrame(ts, st, PSkipRp0, ops);
  }
}
