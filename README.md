# mewa, modelled in Dafny

mewa ("Math EWAluator") is a command-line evaluator of arithmetic
expressions over booleans, 128-bit integers, long-double floats and complex
numbers. This project models its core and proves properties of the model:

- the character **reader** (`rd_*`);
- the **lexer** (`lx_*`);
- the precedence-climbing **parser** (`pr_*`, `pt_*`);
- the tree-walking **interpreter** (`ir_*`);
- the open-addressing table of `hmap.h`;
- the helpers and types of `util.h`.

Files and modules:

| file | module | what it holds |
|---|---|---|
| `util.dfy` | `Util` | character classes, the `int_t`/`unt_t` ranges and reinterpretation, `TRY`, bit operations on naturals |
| `numerics.dfy` | `Numerics` | the `Primitive` union as a datatype, and the `Ops` record of uninterpreted float, complex and foreign routines |
| `ast.dfy` | `Ast` | the syntax tree (`NodeType` and `Node`) as a datatype |
| `reader.dfy` | `Reading` | the reader as a value `RdState` with its operations, and the class `Reader` proved equal to them |
| `lexer.dfy` | `Lexing` | the lexer as a value `LexState` with its operations, the class `Lexer`, and the token stream `Tokens` |
| `parser.dfy` | `Parsing` | the descent as functions over the token stream, and the class `Parser` proved equal to them |
| `parser_props.dfy` | `ParsingProps` | the frames of the descent, and the round trip "a printed tree parses back to itself" |
| `parser_laws.dfy` | `ParsingLaws` | error cases, parenthesis counting, precedence and associativity |
| `interp.dfy` | `Interp` | the evaluator: C division, the per-type operator tables, promotion, `Exec` |
| `interp_props.dfy` | `InterpProps` | the evaluator's error flow, promotion, and agreement with reference semantics |
| `hmap.dfy` | `HMap` | `align`, the slot stride, the specification functions of get/set/pop, and the three routines on an `array` |

Each stateful part has two layers:

- **Values.** The reader's and lexer's structs are datatypes (`RdState`, `LexState`), and each routine is a function on them.
- **Classes.** The classes `Reader`, `Lexer` and `Parser` hold the same fields as the C structs. Each method is the C routine, written with the same loops and updates. Its postcondition states that the new state is the function of the old state. The one departure is the reader's end of stream: the classes, and the lexer and parser built on them, use the corrected rd_next_char of the first row under "## Findings" (see "## Left out").

The parser is specified against the token sequence its lexer will deliver (`Lexing.Tokens`). Those functions are about a position in that sequence, plus the parenthesis counter `p0c` and the flag `abs`.

The interpreter is pure:

- `Exec(dst, src, ops)` returns an `Outcome`. That is either `Done(err, dst)`, with the `IR_ERR` and the `dst` node's type and union as C leaves them, or `Undefined` where the C code has undefined behaviour.
- The cases that give `Undefined` are signed overflow, `%` by zero, `INT_T_MIN / -1` and `-INT_T_MIN`.

## Model

| member | source | states |
|---|---|---|
| Util.DigitValue | util.h:69 | a digit's value is below 10 and is its offset from `'0'` |
| Util.WhitespaceIsExactlyFive | util.h:60-61 | IS_WHITESPACE holds for exactly space, tab, vertical tab, CR and LF; NUL is neither whitespace, a letter nor a digit |
| Util.ClassesDisjoint | util.h:60-69 | whitespace, letters and digits are pairwise disjoint classes |
| Util.IntTMaxValue | util.h:81-85 | INT_T_MAX as the macro computes it is 2^127 - 1; `int_t` spans 2^128 values, as many as `unt_t` |
| Util.SignedOf | util.h:107-111 | reading `n_int` after writing `n_unt` is two's complement: the value itself below 2^127, else the value minus 2^128 |
| Util.UnsignedOf | util.h:107-111 | reading `n_unt` after writing `n_int` gives the value modulo 2^128 |
| Util.SignedUnsignedRoundTrip | util.h:107-111 | the two integer members of the union alias exactly, in both directions |
| Util.EncOffCountsUpper | util.h:87 | ENC_OFF is 26, and a character is upper case exactly when its offset from `'A'` is below ENC_OFF |
| Util.TryChainReturnsFirstError | util.h:33-38 | a routine made of TRY statements returns the first failing status, or NOERROR when all succeed |
| Util.BitOrBound | mewa.c:333 | or-ing two values below 2^w stays below 2^w |
| Util.BitOrDisjoint | mewa.c:333 | or-ing in a value whose bits all lie above those of `a` is addition |
| Util.BitAndAllOnes | hmap.h:42 | `x & (2^w - 1) == x` for every `x < 2^w` |
| Util.BitAndClearsLow | hmap.h:42 | `x & ~(2^k - 1)`, in a w-bit word, clears the low k bits: it is `x - x % 2^k` |
| Numerics.AsInt | util.h:107-111 | reading `n_int` gives the stored integer, or the two's-complement reading of a stored `n_unt` |
| Numerics.AsUnt | util.h:107-111 | reading `n_unt` gives the stored value, or the stored `n_int` modulo 2^128 |
| Numerics.IntegerMembersAlias | util.h:107-111 | writing one integer member and reading the other loses nothing, in both directions |
| Reading.RdResetCounters | mewa.c:104-110 | cursor, mark, row and column are 0 and all four flags are cleared; buffer, source and current character are kept |
| Reading.FreadCount | mewa.c:125-129 | fread delivers at most a page and at most what is left, and delivers less than a page only when the stream is exhausted |
| Reading.NextCharCases | mewa.c:134-158 | rd_next_char in its three cases: it only clears a pending pushback; within the page it steps on to the next character; past the page it ends the input or loads the next page |
| Reading.ResetIsValid | mewa.c:104-110 | a reset reader, before any stream read, satisfies the reader's invariant |
| Reading.RefillRank | mewa.c:147-157 | a refill that does not end the input keeps the invariant and strictly decreases the measure of unread input |
| Reading.NextCharRank | mewa.c:134-158 | rd_next_char keeps the invariant and never increases the measure; it consumes a unit when it only clears a pushback, and two when it leaves a character other than NUL |
| Reading.PrevRank | mewa.c:112-114 | rd_prev keeps the invariant and adds at most one unit to the measure |
| Reading.PrevAfterMove | mewa.c:112-114 | once the cursor has left the token mark, rd_prev always sets a pushback |
| Reading.PushbackRoundTrip | mewa.c:112-138 | rd_prev followed by rd_next_char restores the reader exactly: the same character is delivered and nothing else changes |
| Reading.NextCharAfterPushback | mewa.c:135-138 | with a pushback pending, rd_next_char only clears it |
| Reading.NextCharCounters | mewa.c:140-157 | leaving a newline increments the row and zeroes the column; any other character increments the column; within the page the cursor advances by one and `cc` is the next character |
| Reading.InMemoryEnd | mewa.c:147-151 | in memory, stepping onto the length sets end-of-stream with NUL current |
| Reading.EndOfStreamIsNul | mewa.c:129-157 | (corrected) whenever rd_next_char reports end-of-stream, the current character is NUL |
| Reading.StaleCharAtStreamEnd | mewa.c:129-157 | (as written) a stream "1234" read through a 4-character page reports end-of-stream with `cc == '1'`; the corrected reader gives NUL |
| Reading.RdSkipWhitespaces | mewa.c:160-163 | stops on the first character that is not whitespace, keeps the invariant, never increases the measure, and leaves a reader already on a non-whitespace character unchanged |
| Reading.RdSkipLine | mewa.c:165-168 | stops at NUL or at a newline, keeping the invariant and never increasing the measure; a reader already at NUL or a newline is left unchanged, so skipping twice is skipping once |
| Reading.Reader.constructor | mewa.c:85-102 | a reader over a page buffer and an optional stream, in the initial state |
| Reading.Reader.ResetCounters | mewa.c:104-110 | the new state is RdResetCounters of the old one |
| Reading.Reader.Prev | mewa.c:112-114 | the new state is RdPrev of the old one |
| Reading.Reader.NextPage | mewa.c:116-132 | the new state is RdNextPage of the old one |
| Reading.Reader.Fread | mewa.c:125 | copies FreadCount characters from the stream into the front of the buffer and keeps the rest of the buffer |
| Reading.Reader.NextChar | mewa.c:134-158 | the new state is RdNextChar of the old one |
| Reading.Reader.Advance | mewa.c:140-145 | the new state counts the character left and moves the cursor |
| Reading.Reader.LeavePage | mewa.c:147-155 | the new state is the end-of-page branch applied to the old one |
| Reading.Reader.SkipWhitespaces | mewa.c:160-163 | the loop leaves RdSkipWhitespaces of the old state |
| Reading.Reader.SkipLine | mewa.c:165-168 | the loop leaves RdSkipLine of the old state |
| Lexing.LxReadInteger | mewa.c:266-288 | stops on the first non-digit; the mantissa is below the returned power of ten, which is at most INT_T_MAX; with no digit the result is mantissa 0, exponent 0 and power 1 |
| Lexing.ReadIntegerValue | mewa.c:266-288 | of the n digits read, the first min(n, 38) are kept: the mantissa is their decimal value, the result is 10 to their number, and the exponent counts the digits after them |
| Lexing.Pow10Threshold | mewa.c:277-278 | 10^k exceeds INT_T_MAX / 10 exactly at k = 38, so the overflow flag stops the mantissa at 38 digits |
| Lexing.Kept | mewa.c:274-282 | at most 38 digits are kept, and fewer only when there are fewer |
| Lexing.DigitsStep | mewa.c:274-282 | one more digit is added to the mantissa while fewer than 38 are kept, and is only counted in the exponent after that |
| Lexing.NumberClassification | mewa.c:290-324 | a trailing `i` makes a complex number, and it is the imaginary unit when no `.` came and the mantissa is zero; otherwise a `.` or dropped digits make a float, and anything else is an integer with the value of the kept digits |
| Lexing.ZeroIIsImaginaryUnit | mewa.c:306-313 | `0i` and a bare `i` both lex as the imaginary unit |
| Lexing.SymbolPacking | mewa.c:326-339 | a symbol of at most 21 characters with 6-bit codes is packed exactly: character n occupies bits 6n to 6n+5 |
| Lexing.PackFields | mewa.c:332-335 | field i of the packed value is the code of character i (unpacking inverts packing) |
| Lexing.PackBound | mewa.c:332-335 | n packed characters fit below 2^(6n) |
| Lexing.PackSnoc | mewa.c:332-335 | appending a character adds its code at the offset after the others |
| Lexing.ShlExact | mewa.c:333 | a 6-bit code shifted to an offset that leaves room for it is not truncated by the 128-bit shift |
| Lexing.PackStep | mewa.c:333-334 | one turn of the symbol loop ors the next code in above those packed so far |
| Lexing.PackFits | mewa.c:332-335 | the codes of up to 21 characters fit in `unt_t` |
| Lexing.FactorialCount | mewa.c:341-355 | with n consecutive `!`, the payload is n; one `!` before `=` is `!=`, one alone is `!`, two or more are a factorial token |
| Lexing.BangLoopCount | mewa.c:344-345 | the counting loop adds exactly the number of consecutive `!` |
| Lexing.FirstMatch | mewa.c:357-363 | finds an alternative exactly when one names the character, and returns that alternative's token |
| Lexing.TokenStart | mewa.c:375-378 | lx_next_token dispatches on a non-whitespace character with the mark set at the cursor and no pushback |
| Lexing.DispatchToDefault | mewa.c:381-405 | a character no case of the switch names goes to the default branch |
| Lexing.NextTokenProgress | mewa.c:374-406 | lx_next_token keeps the lexer's invariant and, for any token other than end-of-string, strictly consumes input |
| Lexing.ConsumeProgress | mewa.c:365-372 | a two-character candidate leaves the lexer with input still to consume |
| Lexing.FactorialProgress | mewa.c:341-355 | the factorial reader leaves the lexer with input still to consume |
| Lexing.SymbolProgress | mewa.c:326-339 | the symbol reader leaves the lexer with input still to consume |
| Lexing.NumberProgress | mewa.c:290-324 | the number reader leaves the lexer with input still to consume |
| Lexing.Tokens | mewa.c:374-406 | the token stream is never empty and starts with the lexer's current token |
| Lexing.TokensShape | mewa.c:391 | the stream ends with the end-of-string token and holds it nowhere earlier |
| Lexing.SingleCharTokens | mewa.c:382-391 | each single-character operator is recognised on its character, ends on it and keeps the payload |
| Lexing.DispatchSingle | mewa.c:382-391 | the switch on a single-character operator only sets the token type |
| Lexing.TwoCharMunch | mewa.c:393-399 | maximal munch: `&& \|\| >= <= == 'f 't` end on their second character; otherwise the first character's fallback token stands and the second is pushed back, to be delivered again |
| Lexing.DispatchTwoChar | mewa.c:393-399 | the switch on a two-character candidate yields the completed token or the fallback |
| Lexing.ConsumeEffect | mewa.c:365-372 | when the second character matches it is kept as current; otherwise it is pushed back |
| Lexing.TokenClasses | mewa.c:392-405 | `!` reads a factorial; a digit, `.` or `i` reads a number; another letter reads a symbol, so no symbol starts with `i`; every other character leaves an illegal token and the reader in place |
| Lexing.DispatchConsume | mewa.c:393-399 | the two-character branches of the switch are the consume-or-return step |
| Lexing.DispatchBang | mewa.c:392 | the switch on `!` is lx_next_token_factorial |
| Lexing.DispatchNumber | mewa.c:400-402 | the default branch on a digit, `.` or `i` is lx_next_token_number |
| Lexing.DispatchSymbol | mewa.c:403-404 | the default branch on another letter is lx_next_token_symbol |
| Lexing.DispatchNone | mewa.c:400-405 | any other character leaves the lexer unchanged |
| Lexing.Lexer.constructor | mewa.c:259-264 | a zero-initialised lexer: token type TT_EOS and a zero payload |
| Lexing.Lexer.ReadInteger | mewa.c:266-288 | the loop returns LxReadInteger of the reader it started on |
| Lexing.Lexer.NextTokenNumber | mewa.c:290-324 | the new state is LxNextTokenNumber of the old one |
| Lexing.Lexer.ReadFraction | mewa.c:296-302 | the `.` branch sets the float of the integer part plus the fraction |
| Lexing.Lexer.NumberSuffix | mewa.c:311-323 | a trailing `i` turns the value complex; otherwise the character is pushed back |
| Lexing.Lexer.NextTokenSymbol | mewa.c:326-339 | the new state is LxNextTokenSymbol of the old one |
| Lexing.Lexer.PackSymbol | mewa.c:332-336 | the loop leaves the reader and payload of the packing function |
| Lexing.Lexer.NextTokenFactorial | mewa.c:341-355 | the new state is LxNextTokenFactorial of the old one |
| Lexing.Lexer.CountBangs | mewa.c:344-345 | the loop leaves the reader and count of the counting function |
| Lexing.Lexer.ConsumeOrReturn | mewa.c:357-372 | the new state is the consume-or-return step over the alternatives |
| Lexing.Lexer.NextToken | mewa.c:374-406 | the new state is LxNextToken of the old one |
| Lexing.Lexer.Switch | mewa.c:381-405 | the new state is the switch applied to the old one |
| Parsing.BiopLevelBinary | mewa.c:624-649 | every token a binary level acts on is a binary operator token |
| Parsing.PrCall | mewa.c:828-860 | never moves backwards or past the stream, and never reports NOERROR, GENERAL or PAREN_NOT_CLOSED as an error |
| Parsing.PrBiop | mewa.c:764-782 | the same bounds and reported errors as PrCall |
| Parsing.BiopLoop | mewa.c:769-779 | the same bounds and reported errors as PrCall |
| Parsing.PrUnop | mewa.c:748-762 | the same bounds and reported errors as PrCall |
| Parsing.PrBiopFac | mewa.c:784-803 | the same bounds and reported errors as PrCall |
| Parsing.PrSkipRp0 | mewa.c:805-819 | the same bounds and reported errors as PrCall |
| Parsing.CloseGroup | mewa.c:808-816 | the same bounds and reported errors as PrCall |
| Parsing.PrPrimitive | mewa.c:693-746 | the same bounds and reported errors as PrCall |
| Parsing.PrAtom | mewa.c:694-724 | succeeds exactly on a symbol, number or boolean literal, reading that one token; on the other tokens it fails where it stands |
| Parsing.AbsCase | mewa.c:725-732 | the same bounds and reported errors as PrCall |
| Parsing.PrimitiveCases | mewa.c:693-746 | pr_next_primitive_node by token type: the `\|` case, the `(` case (counter incremented, whole expression), and every other token through PrAtom |
| Parsing.PrNextNode | mewa.c:821-826 | the same bounds and reported errors as PrCall |
| Parsing.TokensTail | mewa.c:374-406 | after any token other than end-of-string, the lexer delivers the rest of the stream |
| Parsing.Upcoming | mewa.c:821-822 | the stream after pr_next_node's first lx_next_token is non-empty |
| Parsing.LoopTurn | mewa.c:769-779 | a failing right operand ends the binary loop with its error |
| Parsing.Parser.constructor | mewa.c:654-659 | a zero-initialised parser: counter 0 and not inside `\|…\|` |
| Parsing.Parser.Advance | mewa.c:702 | lx_next_token moves the lexer to the next token of the stream |
| Parsing.Parser.Call | mewa.c:828-860 | the error, node and new position are those of PrCall |
| Parsing.Parser.Biop | mewa.c:764-782 | the error, node and new position are those of PrBiop |
| Parsing.Parser.Unop | mewa.c:748-762 | the error, node and new position are those of PrUnop |
| Parsing.Parser.BiopFac | mewa.c:784-803 | the error, node and new position are those of PrBiopFac |
| Parsing.Parser.SkipRp0 | mewa.c:805-819 | the error, node and new position are those of PrSkipRp0 |
| Parsing.Parser.Close | mewa.c:808-816 | the error and new position are those of CloseGroup |
| Parsing.Parser.Primitive | mewa.c:693-746 | the error, node and new position are those of PrPrimitive |
| Parsing.Parser.AbsGroup | mewa.c:725-732 | the error, node and new position are those of AbsCase |
| Parsing.Parser.ParenGroup | mewa.c:733-736 | the result of parsing a whole expression after `(` with the counter incremented |
| Parsing.Parser.Atom | mewa.c:694-724 | the error, node and new position are those of PrAtom |
| Parsing.Parser.NextNode | mewa.c:821-826 | the result of PrNextNode on the stream the lexer delivers from its first token |
| ParsingProps.CallIsFrame | mewa.c:828-860 | pr_call at each priority is the frame it enters |
| ParsingProps.StopChecksNothing | mewa.c:624-649 | after a stop token (`)`, `\|`, `;`, end-of-string) no level continues |
| ParsingProps.ClimbAbove | mewa.c:764-860 | a subtree read by a tight frame is the result of every looser frame, when no level in between acts on the next token |
| ParsingProps.FailAbove | mewa.c:764-819 | an error of a tight frame is, through TRY, the error of every looser frame |
| ParsingProps.OpChecks | mewa.c:624-649 | a binary operator's token is acted on by its own level and no other |
| ParsingProps.PrimaryRoundTrip | mewa.c:693-746 | the primary frame reads a printed tree back to the tree and ends right after it |
| ParsingProps.AbsRoundTrip | mewa.c:725-732 | `\|x\|` is read back to an absolute-value node |
| ParsingProps.ParenRoundTrip | mewa.c:733-736 | a parenthesised tree is read back to the tree |
| ParsingProps.SkipRp0 | mewa.c:808-812 | after a whole expression, a closing `)` is consumed and decrements the counter |
| ParsingProps.SkipAbs | mewa.c:813-816 | after a whole expression, a closing `\|` is consumed and clears `abs` |
| ParsingProps.InnerRoundTrip | mewa.c:828-860 | the whole descent reads the inside of a pair of parentheses back to the tree |
| ParsingProps.PrefixRoundTrip | mewa.c:748-762 | a prefix operator and its printed operand are read back to the unary node |
| ParsingProps.FacRoundTrip | mewa.c:784-803 | an operand followed by a factorial token is read back to the factorial node whose right child holds the count |
| ParsingProps.BinaryRoundTrip | mewa.c:764-782 | two printed operands around a binary operator are read back to the binary node |
| ParsingProps.FoldOnce | mewa.c:769-779 | one turn of the binary loop builds the node of the operator with the previous tree on the left |
| ParsingProps.ParseRoundTrip | mewa.c:821-826 | every printable tree, printed fully parenthesised and followed by end-of-string, parses back to itself with the counter at 0 |
| ParsingLaws.PrimitiveProgress | mewa.c:693-746 | the primary frame reads a token exactly when that token can start an operand; otherwise it reports that token's error where it stands |
| ParsingLaws.FrameProgress | mewa.c:828-860 | no frame ends before the tighter frames it calls |
| ParsingLaws.StuckAtStart | mewa.c:821-826 | pr_next_node stays in place exactly when the first token is neither a prefix operator nor the start of an operand, and then it reports that token's error |
| ParsingLaws.DoublePrefix | mewa.c:748-762 | two prefix operators in a row report TOKEN_UNEXPECTED on the second |
| ParsingLaws.AbsClosedByParen | mewa.c:805-819 | `\|x)` reports PAREN_NOT_OPENED with the counter at -1 |
| ParsingLaws.UnclosedParen | mewa.c:733-819 | `(x` followed by the end of the string is accepted, with the counter left at 1 |
| ParsingLaws.TrailingParen | mewa.c:805-826 | a `)` after a whole top-level expression is not read: pr_next_node stops in front of it |
| ParsingLaws.FoldStep | mewa.c:769-779 | one turn of the binary loop continues the loop with the folded node |
| ParsingLaws.NestRight | mewa.c:764-782 | `a op1 b op2 c` groups as `a op1 (b op2 c)` when op1 binds more loosely, or both are the same right-associative `=` or `^` |
| ParsingLaws.NestLeftTighter | mewa.c:764-782 | `a op1 b op2 c` groups as `(a op1 b) op2 c` when op1 binds more tightly |
| ParsingLaws.NestLeftSame | mewa.c:769-779 | two operators of one left-associative level fold from the left |
| ParsingLaws.Grouping | mewa.c:764-782 | the grouping of two operators, wherever they stand in the stream |
| ParsingLaws.TwoOperators | mewa.c:651 | precedence and associativity: a whole expression `a op1 b op2 c` parses to the right-nested tree exactly when NestsRight holds, and to the left-nested tree otherwise |
| Interp.TruncDivMod | mewa.c:997-1007 | C division: quotient times divisor plus remainder is the dividend, the remainder is smaller than the divisor in magnitude and takes the dividend's sign, and the quotient is no larger than the dividend |
| Interp.QuoInt | mewa.c:1007 | `/` on `int_t` is the quotient truncated toward zero |
| Interp.ModInt | mewa.c:997-1003 | `%` on `int_t` is the remainder of the truncated quotient, with C's bound and sign |
| Interp.UnopInt | mewa.c:896-908 | undefined exactly for `-` or absolute value of INT_T_MIN; the result is an integer, and the error is ILL_NT exactly for `!`; the value is v, -v or \|v\| |
| Interp.UnopFlt | mewa.c:910-922 | the result is a float; the error is ILL_NT exactly for `!` |
| Interp.UnopCmx | mewa.c:924-939 | the error is ILL_NT exactly for `!`; absolute value yields a float, the other operators a complex |
| Interp.UnopBol | mewa.c:941-951 | only `!` applies to a boolean, and it negates it |
| Interp.CmpInt | mewa.c:972-988 | succeeds exactly on the six comparisons, giving the boolean of the integer comparison |
| Interp.BiopInt | mewa.c:990-1023 | undefined exactly on overflow or a C-undefined `%` or `/`; DIV_BY_ZERO exactly for `/` by 0; ILL_NT exactly for `=`, `&&`, `\|\|`; an inexact quotient and a negative power are floats, a comparison is a boolean, the rest are integers |
| Interp.CmpFlt | mewa.c:1025-1047 | succeeds exactly on the six comparisons; inequality is the negation of almost-equal |
| Interp.BiopFlt | mewa.c:1049-1070 | DIV_BY_ZERO exactly for `/` by zero; ILL_NT exactly for `=`, `&&`, `\|\|`; a comparison is a boolean and the rest are floats |
| Interp.CmpCmx | mewa.c:1072-1086 | succeeds exactly on `==` and `!=` |
| Interp.BiopCmx | mewa.c:1088-1110 | NOT_DEFINED_FOR_TYPE exactly for `%` and factorial; DIV_BY_ZERO exactly for `/` by zero; ILL_NT exactly for `=`, `&&`, `\|\|` and the orderings |
| Interp.BiopBol | mewa.c:1112-1130 | succeeds exactly on `\|\| && == !=`; the orderings are NOT_DEFINED_FOR_TYPE and the rest ILL_NT |
| Interp.Promote | mewa.c:1147-1158 | two numeric operands end with the same type, the higher-ranked of the two; non-numeric or equal types are left alone; the higher-ranked operand is never changed |
| Interp.Dispatch | mewa.c:1160-1176 | a symbol on the left with a non-boolean on the right succeeds with `dst` untouched; a boolean on the left with a non-boolean on the right is NOT_DEFINED_FOR_TYPE; two booleans go to the boolean table; a number on the left with a boolean on the right first runs the left type's table under TRY, so its error or undefined behaviour wins and only its success becomes NOT_DEFINED_FOR_TYPE; such a mix never succeeds |
| InterpProps.ExecWritesBeforeReading | mewa.c:1179-1217 | `dst` on entry never influences the result except where evaluation fails without writing it |
| InterpProps.SuccessIgnoresDst | mewa.c:1179-1217 | a successful evaluation gives the same result whatever `dst` held |
| InterpProps.LeftErrorReturned | mewa.c:1139 | an error of the left operand is the error of the binary node |
| InterpProps.RightErrorIgnored | mewa.c:1143-1145 | two right operands that leave the same `dst` give the same result, whatever errors they report |
| InterpProps.DivisionErrorLost | mewa.c:1143 | `1 + 2 / 0` evaluates to the integer 1 with no error |
| InterpProps.SymbolFallsThrough | mewa.c:1160-1176 | a symbol on the left with a non-boolean right operand succeeds, leaving the right operand's value |
| InterpProps.BooleanMixNeverSucceeds | mewa.c:1169-1171 | a boolean combined with a non-boolean never succeeds |
| InterpProps.NumericPromotion | mewa.c:1147-1167 | with two numeric operands, the result is the table of the higher type applied to both operands raised to it |
| InterpProps.PromoteRaises | mewa.c:1147-1158 | the conversions raise the lower operand to the higher operand's type |
| InterpProps.DispatchNumeric | mewa.c:1160-1167 | two numeric operands of one type go to that type's table |
| InterpProps.ComplexModFac | mewa.c:1096-1098 | `%` or factorial with a complex operand is NOT_DEFINED_FOR_TYPE |
| InterpProps.UnaryDispatch | mewa.c:953-970 | a unary node returns its operand's error, NUM_ARG_EXPECTED on a symbol, the boolean table on a boolean, and on a number its type's table, undefined exactly for `-` or absolute value of INT_T_MIN |
| InterpProps.IntNotBool | mewa.c:1179-1217 | an integer expression is not a boolean expression |
| InterpProps.IntUnary | mewa.c:896-970 | the unary case of IntAgreement |
| InterpProps.IntBinary | mewa.c:990-1177 | the `+ - *` case of IntAgreement |
| InterpProps.IntAgreement | mewa.c:1179-1217 | an expression of integer literals, `+ - *`, prefix `+ -` and absolute value is undefined exactly when an intermediate value leaves `int_t`; otherwise it succeeds with the integer of its mathematical value |
| InterpProps.Comparison | mewa.c:972-988 | the integer-comparison case of BoolAgreement |
| InterpProps.Connective | mewa.c:1112-1119 | the `&& \|\| == !=` case of BoolAgreement |
| InterpProps.BoolAgreement | mewa.c:1179-1217 | a boolean expression of boolean literals, `!`, `&& \|\| == !=` and integer comparisons is undefined exactly when an integer part overflows; otherwise it succeeds with the boolean of its logical value |
| HMap.AlignRoundsUp | hmap.h:33-43 | (corrected) for a power-of-two alignment and no wrap-around, align returns a multiple of the alignment, at least sz and less than one alignment above it, and returns sz exactly when sz is already aligned |
| HMap.AlignClearsLow | hmap.h:41-43 | align clears the low bits of sz + alignment - 1 |
| HMap.AlignAcslPremiseTooWeak | hmap.h:34-43 | (as written) `alignment > 0` admits 3, and align(1, 3) is 1, which is not a multiple of 3 |
| HMap.EntryLen | hmap.h:84-85 | the stride in words is 1 + ceil(val_sz / 8) |
| HMap.StrideMatchesAcsl | hmap.h:52-54 | the code's stride equals the ACSL `entry_len`, and its value words hold val_sz bytes with less than a word to spare |
| HMap.Keys | hmap.h:47-50 | one key per slot, in slot order |
| HMap.Probe | hmap.h:81-97 | every probed index is a slot |
| HMap.ProbeStart | hmap.h:81 | probing starts at key % cap |
| HMap.ProbeStep | hmap.h:95 | `index = (index + 1) % cap` is the next probe step |
| HMap.ProbeCoversAll | hmap.h:87-97 | the first cap probe steps visit every slot |
| HMap.FirstStop | hmap.h:87-97 | the first probe step that stops the search, or none when no step does |
| HMap.Found | hmap.h:87-97 | the slot found, if any, is a slot of the table |
| HMap.FoundIffSomeSlot | hmap.h:65-75 | the probe finds a slot exactly when some slot passes the test, as ACSL's complete and disjoint behaviours say |
| HMap.WriteSlotEffect | hmap.h:136-141 | writing a slot changes its key and value and no other slot |
| HMap.SetSpec | hmap.h:127-149 | the table after map_set keeps its shape |
| HMap.PopSpec | hmap.h:162-183 | the table after map_pop keeps its shape |
| HMap.SetChangesOneSlot | hmap.h:113-117 | map_set changes at most the slot it found, which then holds the key and the value |
| HMap.GetAfterSet | hmap.h:79-149 | after a successful map_set, map_get of the same key returns the value set |
| HMap.PopUndoesFreshSet | hmap.h:157-158 | popping a key right after setting it when it was absent restores every slot's key |
| HMap.MapGet | hmap.h:79-100 | returns true exactly when some slot holds the key, and then copies the value of the first probed such slot; otherwise the output is untouched |
| HMap.MapSet | hmap.h:127-149 | returns true exactly when some slot holds the key or is empty; the table becomes SetSpec of the old one |
| HMap.MapPop | hmap.h:162-183 | returns true exactly when some slot holds the key; the table becomes PopSpec of the old one |

### Behaviour of the code worth knowing

- Symbols are packed into the 128-bit `unt_t` (util.h:83), so 21 characters fit.
- ir_biop_exec evaluates the right operand without TRY (mewa.c:1143). An error there is dropped: `true \|\| (1/0)` does not report the division by zero, and `1 + 2 / 0` is 1 (InterpProps.DivisionErrorLost).
- PAREN_NOT_CLOSED is never returned. An unclosed `(` is accepted (ParsingLaws.UnclosedParen).
- A leading `)` reports ARGUMENT_EXPECTED_RIGHT_PAREN_UNEXPECTED. PAREN_NOT_OPENED (mewa.c:808-810) arises only after a `)` has closed a `|…|`, as in `|x)` (ParsingLaws.AbsClosedByParen) or `(|x))`.
- Assignment `=` with numeric operands reports ILL_NT. The numeric table's default case hands `=` to the comparison table (mewa.c:1018-1019), whose own default case returns that error.
- The right operand of `^` is parsed at priority PT_POW1 (`pt + pt_rl_biop(pt)`, mewa.c:776), which pr_call sends back to the prefix level. So `2 ^ -1` parses and `^` nests to the right.
- `0i` lexes as the imaginary unit, as a bare `i` does (Lexing.ZeroIIsImaginaryUnit).

## Left out

- I/O. fread's read error (`ferror` and PFATAL) and the FILE handle are not modelled. The stream is the sequence of characters it will deliver.
- Floating point and complex arithmetic. `flt_t`, the complex type, every libm routine, casts between them and the float/complex union puns are uninterpreted, through the `Ops` record. So is the almost-equal test. The model proves nothing about numeric accuracy.
- The foreign routines `pow_int`, `fac_int`, `fac_flt` and `encode_symbol_c` are declared in util.h without a body and are model parameters. Symbol packing is stated for codes that fit in 6 bits.
- Lexing.Shl: a shift of 128 bits or more is undefined in C and is modelled as 0. Symbols longer than 21 characters are covered only by that choice.
- The arena (`ARENA_NEW`) and node allocation. Trees are values, and the in-place construction through `Node **` is not modelled.
- Parsing.Parser's methods: on an error, the node they return is arbitrary. The partially built tree the C code leaves behind is not modelled.
- Parsing.Upcoming states only that the stream is non-empty. That it ends with end-of-string is proved separately, as Lexing.TokensShape.
- `DBG_PRINT`, `DBG_FATAL`, `FATAL` and the `*_stringify` functions (`tt_stringify`, `nt_stringify`, `pr_err_stringify`, `ir_err_stringify`), which only print or name values. `nd_tree_print` is left out for the same reason.
- NT_FUNC, NT_CALL and NT_CALL_ANON carry no fields. Nothing builds them, and the evaluator only answers NOT_IMPLEMENTED for them.
- C undefined behaviour in the evaluator is an `Undefined` outcome rather than a precondition of `Exec`. In the reader, an index past the buffer reads as NUL.
- Interp.Exec: `dst` is modelled by its type (restricted to a primitive kind) and its union. The rest of the node is never read.
- Reading.Reader.NextChar, Reading.Reader.LeavePage: when a refill finds the stream exhausted, these keep NUL as the current character (the `eos` return in LeavePage), where mewa.c:153-157 reloads the stale `page.data[0]`. The classes `Lexer` and `Parser`, and `Lexing.Tokens`, therefore run on the corrected reader. The code as written is modelled by `Reading.RdNextCharAsWritten` only.
- HMap.WriteSlot, HMap.MapGet, HMap.MapSet: a value is whole words, the EntryLen(val_sz) - 1 words after the key. memcpy (hmap.h:91, 140) copies only val_sz bytes, so when val_sz is not a multiple of 8 C keeps the slot's trailing padding bytes and the model overwrites them. map_get never reads those bytes, so no result differs.
- Exec, UnopExec and BiopExec carry no contract of their own. They are specified by the lemmas of `InterpProps`.

## Findings

| source | as written | input that shows it | evidently intended | confidence | as-written member | corrected member |
|---|---|---|---|---|---|---|
| mewa.c:129-157 | at a page refill that finds the stream exhausted, rd_next_page sets `eos` and `cc = '\0'`; rd_next_char then overwrites `cc` with the stale `page.data[0]` | a stream "1234" through a 4-character page: end-of-stream is reported with `cc == '1'`, so the input reads as "12341" | keep NUL as the current character at the end of the stream | high (not executed) | Reading.StaleCharAtStreamEnd | Reading.EndOfStreamIsNul |
| hmap.h:34-43 | the ACSL contract of `align` requires only `alignment > 0`, but `& ~(alignment - 1)` rounds up only for a power of two | align(1, 3) == 1, not a multiple of 3 | require a power-of-two alignment (and no wrap-around of sz + alignment - 1) | high (not executed) | HMap.AlignAcslPremiseTooWeak | HMap.AlignRoundsUp |
