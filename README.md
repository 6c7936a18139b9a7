# jpc core: lexer, parser and C generator of a Japanese-keyword language

jpc compiles a small language whose keywords, particles and punctuation are
Japanese into a C program. A program looks like
`メイン ｛ ”x” を 「１」 で宣言する。 もし （”x” が 「1」 と一緒か） ｛ 「hi」 と出力する。 ｝ ｝`.
The compiler works in three stages:

- **Lexer (`src/lexer.c`).** It reads the source file byte by byte through a
  20-entry pushback stack and counts lines. It decodes UTF-8 characters and skips
  `＃` line comments and `＄…＄` block comments. Keywords are matched with
  backtracking, `”…”` is read as a variable name, and `「…」` is classified as
  either a number or a print literal.
- **Parser (`src/parser.c`).** A recursive descent with one token of lookahead
  builds the tree of `src/parser.h`. It handles:
  - six simple statement shapes;
  - loops;
  - if / else-if / else chains;
  - conditions, in which AND binds tighter than OR and both group to the left.
- **Generator (`src/codegen.c`).** It walks the tree and writes C text with tab
  indentation.

Each stage is modelled in its own form:

- **Lexer.**
  - `LexSpec` (lexspec.dfy) describes the lexer as pure functions over the
    *pending stream*: the bytes the lexer will deliver next. That stream is the
    pushback stack, top first, followed by the rest of the file with carriage
    returns removed.
  - `Lexer.LexerState` (lexer.dfy) is the imperative lexer. It holds the file,
    its read position, a 20-slot `array` for the pushback stack, the line
    counter, and the `token`/`tokenStr` globals. Each C function is a method
    proved to act on the pending stream exactly as its `LexSpec` function says.
- **Parser.**
  - `ParseSpec` (parsespec.dfy) describes each parse function as a pure function
    from a token stream and a cursor to a node and a new cursor, or to an error
    category.
  - `Parser.Parser` (parser.dfy) is the imperative parser. It keeps a cursor
    field, its `while` loops mirror the C loops, and each method is proved equal
    to its `ParseSpec` function.
  - `RoundTrip` (unparse.dfy) spells every tree back as tokens. It proves that
    the parser reads back the same tree from any token stream that spells it.
    A stream spells a token sequence when the kinds agree, and the texts agree
    for literals, print literals and variables. The lexer gives keyword and
    symbol tokens their own bytes as text; the parser never reads that text,
    so a spelling leaves it free.
  - `Converse` (converse.dfy) goes the other way: a successful parse of a
    value, a simple condition, a simple statement, or a program made only of
    simple statements has read exactly the spelling of its result. For
    conditions and block statements this does not hold in general, and two
    lemmas exhibit why.
- **Generator.**
  - `Generator` (codegen.dfy) gives `gen` as functions from a tree to the text
    it appends to standard output.
  - `Printer.Stdout` (printer.dfy) holds the loops of `print_indent`,
    `gen_block` and the argument list as methods over an output buffer.
  - `CodegenProps` states what the generated text looks like.
- **The whole pipeline.** `Compiler` chains the three stages.

Errors are results that carry the category of `src/error.h`: lexer, syntax,
semantic, codegen or system. They carry no message and no line number.

## Model

| member | source | states |
|---|---|---|
| Lexer.NoCRHasNoCR | src/lexer.c:26-28 | the bytes getCh takes from the file never include a carriage return |
| Lexer.LexerState.constructor | src/lexer.c:15-17 | a fresh lexer has an empty pushback stack, line 1, and the file (without carriage returns) as its pending stream |
| Lexer.LexerState.GetCh | src/lexer.c:20-35 | returns the top of the pushback stack if there is one, otherwise the next file byte, otherwise EOF; the pending stream loses that byte; the stack only shrinks; the line counter grows by one exactly when the byte is a newline; a byte straight from the file is never a carriage return |
| Lexer.LexerState.PopPushback | src/lexer.c:22-23 | pops the top of the pushback stack, which is the first pending byte; the count drops by one |
| Lexer.LexerState.ReadFile | src/lexer.c:24-29 | with an empty stack, reads past carriage returns to the next file byte, which is the first pending byte, or EOF when none is left; never a carriage return |
| Lexer.LexerState.UngetCh | src/lexer.c:37-47 | at a stack count below 20, a byte is pushed so that it is the next byte delivered (LIFO), and EOF pushes nothing; at a count of 20 it is a fatal system error whatever the byte; un-reading a newline lowers the line counter by one, so un-reading then re-reading leaves it unchanged |
| Lexer.LexerState.PushBack | src/lexer.c:157-159 | pushing bytes back in reverse order makes them the next bytes delivered, in their original order; it fails only with a system error, and never while the stack has room for them all |
| Lexer.LexerState.ReadUTF8Char | src/lexer.c:101-132 | returns 0 only at end of input; skips spaces and tabs only when asked; reads as many bytes as the lead byte announces, or fewer at end of input; agrees with LexSpec.ReadChar on the pending stream |
| Lexer.LexerState.ReadLeadByte | src/lexer.c:104-116 | the first loop delivers the first pending byte, after dropping leading spaces and tabs only when asked, or EOF when nothing is left |
| Lexer.LexerState.ReadContinuation | src/lexer.c:125-129 | the second loop appends pending bytes until the character has as many bytes as its lead byte announced or the input ends, as LexSpec.ReadMore says |
| Utf8.MaskedCharLen | src/lexer.c:118-122 | the bit masks of readUTF8Char give length 2, 3 or 4 for lead bytes 110xxxxx, 1110xxxx or 11110xxx, and 1 otherwise (the lead-byte table of RFC 3629 section 3) |
| Utf8.MaskedLenRanges | src/lexer.c:118-122 | the masked length equals the length given by the byte ranges C0-DF, E0-EF and F0-F7 |
| Utf8.EncodeIsOneChar | src/lexer.c:118-130 | every encoded code point is one character by its lead byte and contains no NUL |
| Utf8.CStrPrefix | src/lexer.c:130 | the C string of a buffer is its prefix up to, but not including, the first NUL |
| LexSpec.ReadCharFromLead | src/lexer.c:104-131 | the two loops of readUTF8Char yield the C string of the lead byte plus the bytes it announces, and at most 4 bytes |
| LexSpec.ReadsEncodedCodePoint | src/lexer.c:101-132 | after any blanks that are skipped, a well-formed encoded code point is read back as itself |
| LexSpec.DropBlanksSuffix | src/lexer.c:104-116 | skipping drops exactly the leading spaces and tabs |
| LexSpec.LineCommentRest | src/lexer.c:57-62 | a `＃` comment consumes everything through the first newline, or the whole input if there is none |
| LexSpec.BlockCommentRest | src/lexer.c:64-87 | a `＄` comment consumes everything through the first closing `＄` plus one newline right after it, or the whole input if nothing closes it |
| Lexer.LexerState.CheckCommentOut | src/lexer.c:50-97 | agrees with LexSpec.CommentAfter: it returns 1 and leaves the stream after the comment when `c` opens one; otherwise it returns 0 and the bytes read after `c` are pushed back, so the stream is unchanged |
| Lexer.LexerState.SkipLineComment | src/lexer.c:58-61 | the read-until-newline loop leaves the stream LexSpec.LineCommentRest describes |
| Lexer.LexerState.SkipBlockComment | src/lexer.c:66-86 | the loop that searches for the closing `＄` leaves the stream LexSpec.BlockCommentRest describes |
| Lexer.LexerState.BlockCommentStep | src/lexer.c:67-85 | one round of that loop either closes the comment or drops exactly one byte that starts no closing `＄` |
| Lexer.LexerState.BlockCloserRest | src/lexer.c:70-84 | after a 0xEF inside a block comment: a whole closing `＄` and one newline straight after it are consumed; otherwise the stream is back to the bytes after the 0xEF |
| LexSpec.KeywordScanSpells | src/lexer.c:135-162 | checkKeyword returns 1 exactly when the upcoming characters, with half-width blanks skipped, spell the keyword |
| LexSpec.KeywordScanRestores | src/lexer.c:154-161 | a failed checkKeyword gives back every byte it read, in the original order, so only the skipped blanks are gone (for a stream without NUL bytes) |
| LexSpec.KeywordScanRestoresExactly | src/lexer.c:154-161 | on a stream with nothing to skip, a failed checkKeyword leaves the stream exactly as it found it |
| Lexer.LexerState.CheckKeyword | src/lexer.c:135-162 | agrees with LexSpec.KeywordScan on the pending stream, and never overflows the pushback stack for a keyword of at most 17 bytes |
| LexSpec.KeywordTables | src/lexer.c:290-361 | every keyword continuation fits the pushback stack, and none yields TK_EOF |
| LexSpec.ZenkakuDigitExact | src/lexer.c:165-176 | convertZenkakuNum accepts exactly the ten full-width digits U+FF10-U+FF19 and maps each to its half-width digit |
| LexSpec.ZenkakuDotExact | src/lexer.c:178-188 | convertZenkakuDot accepts exactly U+FF0E and maps it to '.' |
| LexSpec.NumeralByTests | src/lexer.c:402-419 | the chain of tests in the literal loop picks out exactly the numeric characters, each with its half-width value |
| LexSpec.ClassifyLiteral | src/lexer.c:422-434 | a closed `「…」` is TK_LITERAL carrying the half-width digits exactly when every character is numeric, there is at most one dot, the digits are non-empty and neither start nor end with '.'; otherwise it is TK_PRINT_LIT carrying the raw text |
| LexSpec.ScanLiteralBody | src/lexer.c:381-436 | a literal body closed by `」` whose raw text before its last character is under 1000 bytes (so up to 1003 bytes in all) is one token classified as ClassifyLiteral says, and the stream continues after the `」` |
| LexSpec.ScanLiteralTooLong | src/lexer.c:396-398 | a literal whose raw text has reached 1000 bytes and goes on is a lexical error |
| LexSpec.ScanLiteralUnclosed | src/lexer.c:388-393 | a literal left open at a newline or at end of input is a lexical error |
| LexSpec.ScanVariableBody | src/lexer.c:364-378 | `”name”` is one TK_VARIABLE token carrying the raw name, and the stream continues after the closing `”` |
| LexSpec.ScanVariableUnclosed | src/lexer.c:367-373 | a variable name left open at a newline or at end of input is a lexical error |
| LexSpec.TryAlternativesNone | src/lexer.c:290-361 | a run of keyword checks finds nothing exactly when no continuation is spelled, and then gives the stream back untouched |
| LexSpec.TryAlternativesFirst | src/lexer.c:290-361 | a run of keyword checks yields the first continuation, in source order, that the upcoming characters spell |
| LexSpec.TryAlternativesKind | src/lexer.c:290-361 | a run of keyword checks yields only kinds from its own table |
| LexSpec.WoParticle | src/lexer.c:303-320 | `を` always lexes; it is TK_WO exactly when none of 代入する, たす, かける and ひく follows, and then nothing after it is consumed |
| LexSpec.LeadWithoutContinuation | src/lexer.c:290-361 | a lead such as メ, か, ル, も, 入, と, ま or 以 is a lexical error exactly when none of its continuations follows |
| LexSpec.PrefixedLeadWithoutContinuation | src/lexer.c:295-361 | で and よ followed by none of their continuations and not by their middle part (は, り) are a lexical error |
| LexSpec.LeadDispatch | src/lexer.c:289-361 | a keyword lead at the start of the stream is sent to its keyword branch |
| LexSpec.DispatchCases | src/lexer.c:270-438 | the first character decides the branch: a newline is TK_LN, a full-width space TK_WS, the symbols and particles are their own tokens, then come the keyword leads, `”`, `「`, and an unrecognised character is a lexical error |
| LexSpec.NextTokenDispatch | src/lexer.c:241-270 | once comments are skipped, the first character decides the token |
| LexSpec.SkipCommentsPlain | src/lexer.c:248-267 | a character that is not a blank and does not start with byte EF is taken as it is, with no comment check |
| Lexer.LexerState.ReadFirstChar | src/lexer.c:241-268 | the comment-skipping loop at the start of getNextToken agrees with LexSpec.SkipComments |
| Lexer.LexerState.TryKeywords | src/lexer.c:290-361 | a run of checkKeyword calls agrees with LexSpec.TryAlternatives and yields a kind from its table |
| Lexer.LexerState.LexKeywordChars | src/lexer.c:289-361 | the keyword branches agree with LexSpec.LexKeyword; a failure is a lexical error |
| Lexer.LexerState.ScanVariableChars | src/lexer.c:364-378 | the variable loop agrees with LexSpec.ScanVariable |
| Lexer.LexerState.ScanLiteralChars | src/lexer.c:381-436 | the literal loop agrees with LexSpec.ScanLiteral and yields TK_LITERAL or TK_PRINT_LIT |
| Lexer.LexerState.LexToken | src/lexer.c:270-438 | once the first character `ch` has been read past the comments, the token it makes and the stream it leaves are those LexSpec.NextToken gives; the token is never TK_EOF; a failure is a lexical error |
| Lexer.LexerState.GetNextToken | src/lexer.c:234-439 | sets `token`, and `tokenStr` for every token except TK_EOF (at end of input `tokenStr` keeps its old text and the token's text counts as empty), and leaves the pending stream as LexSpec.NextToken says; at end of input the token is TK_EOF; a failure is a lexical error; the line counter stays in step with the stream |
| Compiler.TokensEndAtEof | src/lexer.c:241-245 | the token sequence of a file holds TK_EOF once, as its last token, unless lexing stops on an error first |
| ParseSpec.Consume | src/parser.c:49-55 | consume passes the lookahead only when it matches and reports whether it did |
| ParseProps.ExpectMoves | src/parser.c:58-63 | expect fails with a syntax error, without moving, when the lookahead differs; otherwise it moves on by exactly one token, unless lexing that token fails |
| Parser.Parser.constructor | src/parser.c:75-76 | the parser starts at the first token of the stream |
| Parser.Parser.Advance | src/parser.c:51 | getNextToken moves the cursor one token on, or fails with a lexical error and leaves it in place |
| Parser.Parser.Consume | src/parser.c:49-55 | agrees with ParseSpec.Consume |
| Parser.Parser.Expect | src/parser.c:58-63 | moves on by one exactly when the lookahead matches and the next token lexes; a mismatch is a syntax error and leaves the cursor in place |
| ParseSpec.ParseValue | src/parser.c:115-127 | a value is a literal or a variable and takes exactly one token; any other token is a syntax error |
| Parser.Parser.ParseValue | src/parser.c:115-127 | agrees with ParseSpec.ParseValue |
| ParseSpec.ParseSimpleStatement | src/parser.c:130-199 | a parsed simple statement has a statement shape, and the cursor moves forward but stays within the stream |
| ParseProps.SimpleStatementKinds | src/parser.c:130-199 | parse_simple_statement builds only an output, declare, div, input, assign, add, mul or sub node, and anything that does not start with a literal, print literal or variable is a syntax error |
| Parser.Parser.ParseSimpleStatement | src/parser.c:130-199 | agrees with ParseSpec.ParseSimpleStatement |
| Parser.Parser.ParseWoSuffix | src/parser.c:153-163 | after `を`, a value followed by 宣言する gives declare and one followed by わる gives div; anything else is an error |
| Parser.Parser.ParseNiSuffix | src/parser.c:164-187 | after `に`, 入力する gives input, and a value followed by 代入する, たす or かける gives assign, add or mul |
| ParseSpec.ParseSimpleCondition | src/parser.c:203-223 | a simple condition is `variable が value` followed by one of the six comparison tokens, and builds that comparison |
| Parser.Parser.ParseSimpleCondition | src/parser.c:203-223 | agrees with ParseSpec.ParseSimpleCondition |
| Parser.Parser.ParseConditionFactor | src/parser.c:241-248 | an operand is a parenthesised condition or a simple condition (the code parse_condition_term repeats for each operand) |
| Parser.Parser.ParseConditionTerm | src/parser.c:239-263 | the AND loop agrees with ParseSpec.ParseConditionTerm and builds a left-nested chain |
| Parser.Parser.ParseConditionExpression | src/parser.c:228-236 | the OR loop agrees with ParseSpec.ParseConditionExpression and builds a left-nested chain |
| ParseProps.ConditionStart | src/parser.c:203-248 | a condition can start only with a variable or `（`; anything else is a syntax error |
| RoundTrip.ConditionRoundTrip | src/parser.c:228-263 | every condition tree is read back from any stream that spells it, when the next token continues neither chain |
| RoundTrip.AndBindsTighter | src/parser.c:228-263 | `a または b かつ c` is read as OR(a, AND(b, c)) |
| RoundTrip.OrGroupsLeft | src/parser.c:228-236 | `a または b または c` is read as OR(OR(a, b), c) |
| RoundTrip.SimpleConditionRoundTrip | src/parser.c:203-223 | every simple condition is read back from any stream that spells its four tokens |
| ParseSpec.ParseStatement | src/parser.c:102-112 | a parsed statement has a statement shape, and the cursor stays within the stream |
| ParseProps.StatementForms | src/parser.c:102-112 | ループ and もし start the block forms; every other statement is a simple one that ends with `。`; any other first token, including TK_LN and TK_WS, is a syntax error |
| Parser.Parser.ParseStatement | src/parser.c:102-112 | agrees with ParseSpec.ParseStatement |
| ParseSpec.StatementList | src/parser.c:93-96 | the statement loop stops only at `｝` or EOF |
| ParseProps.EmptyStatementList | src/parser.c:87-99 | a list that starts at `｝` or EOF is empty, and the cursor stays |
| Parser.Parser.ParseStatementList | src/parser.c:87-99 | the loop that appends at the tail agrees with ParseSpec.ParseStatementList: statements in source order |
| ParseSpec.ParseGuardedBody | src/parser.c:289-294 | `（ condition ）｛ statements ｝` gives a condition and a statement list |
| Parser.Parser.ParseGuardedBody | src/parser.c:289-294 | agrees with ParseSpec.ParseGuardedBody |
| ParseSpec.ElseIfArms | src/parser.c:302-318 | the else-if loop stops at the first token that is not ではなく |
| Parser.Parser.ParseElseIfArms | src/parser.c:302-318 | the else-if loop agrees with ParseSpec.ElseIfArms: the arms in source order |
| ParseProps.EmptyElse | src/parser.c:320-326 | `ではない ｛ ｝` gives the empty else list, as when no else follows |
| Parser.Parser.ParseElsePart | src/parser.c:320-326 | agrees with ParseSpec.ElsePart |
| ParseSpec.Chain | src/parser.c:301-325 | linking the arms through `els`, with the else list last, gives a well-formed else chain |
| RoundTrip.ChainParts | src/parser.c:301-325 | every well-formed else chain is the link of its arms and its else list |
| ParseSpec.ParseBlockStatement | src/parser.c:271-333 | a block statement has a statement shape |
| ParseProps.BlockKinds | src/parser.c:271-333 | ループ builds a loop and もし builds an if; any other lookahead, including an else-if or else with no if before it, is a syntax error |
| Parser.Parser.ParseBlockStatement | src/parser.c:271-333 | agrees with ParseSpec.ParseBlockStatement |
| ParseSpec.ParseProgram | src/parser.c:75-84 | a parsed program has program shape |
| Parser.Parser.ParseProgram | src/parser.c:75-84 | agrees with ParseSpec.ParseProgram |
| RoundTrip.ValueRoundTrip | src/parser.c:115-127 | every value is read back from any stream that spells its one token |
| RoundTrip.OutputRoundTrip | src/parser.c:132-146 | `literal と出力する` is read back as an output of that literal from any stream that spells it |
| RoundTrip.WoRoundTrip | src/parser.c:153-163 | `variable を value で宣言する / でわる` is read back as declare / div from any stream that spells it |
| RoundTrip.NiRoundTrip | src/parser.c:164-187 | `variable に value を代入する / をたす / をかける` is read back as assign / add / mul from any stream that spells it |
| RoundTrip.InputRoundTrip | src/parser.c:164-172 | `variable に 入力する` is read back as input from any stream that spells it |
| RoundTrip.KaraRoundTrip | src/parser.c:188-193 | `variable から value をひく` is read back as sub from any stream that spells it |
| RoundTrip.SimpleStatementRoundTrip | src/parser.c:130-199 | every simple statement is read back from any stream that spells it |
| RoundTrip.StatementStart | src/parser.c:102-112 | every statement's tokens start with a literal, print literal, variable, ループ or もし |
| RoundTrip.StatementRoundTrip | src/parser.c:102-112 | every statement is read back from any stream that spells it |
| RoundTrip.LoopRoundTrip | src/parser.c:272-285 | every loop is read back from any stream that spells it |
| RoundTrip.GuardedRoundTrip | src/parser.c:289-294 | every `（ condition ）｛ statements ｝` is read back from any stream that spells it |
| RoundTrip.IfRoundTrip | src/parser.c:287-329 | every if chain with its else-if arms and else list is read back from any stream that spells it |
| RoundTrip.ElseRoundTrip | src/parser.c:302-326 | every else chain is read back as its arms and its else list from any stream that spells it |
| RoundTrip.StatementsRoundTrip | src/parser.c:87-99 | every statement list followed by `｝` or EOF is read back in order from any stream that spells it |
| RoundTrip.ProgramRoundTrip | src/parser.c:75-84 | parse_program reads back every program from any stream that spells it, whatever follows the closing `｝`, provided the token after it lexes |
| RoundTrip.KeywordTextFree | src/parser.c:49-63 | a keyword or symbol in a spelling is matched by a token of that kind whatever its text, since consume and expect compare kinds only |
| Converse.ValueSpelled | src/parser.c:115-127 | a value parse_value reads took exactly one token, and that token spells the value |
| Converse.SimpleConditionSpelled | src/parser.c:203-223 | a simple condition parse_simple_condition reads took exactly the tokens that spell it |
| Converse.SimpleStatementSpelled | src/parser.c:130-199 | a statement parse_simple_statement reads is neither a loop nor an if, and took exactly the tokens that spell it |
| Converse.StatementSpelled | src/parser.c:102-112 | a statement parse_statement reads without a ループ or もし lead is simple, and took exactly the tokens that spell it |
| Converse.BlockLead | src/parser.c:102-112 | a statement parse_statement reads from a ループ or もし lead is a loop or an if |
| Converse.StatementListSpelled | src/parser.c:87-99 | when every statement the list loop adds is simple, the loop took exactly the tokens that spell them, and kept the statements before them |
| Converse.StatementListKeeps | src/parser.c:87-99 | the list loop keeps the statements linked before it and adds well-formed ones after them |
| Converse.ProgramSpelled | src/parser.c:75-84 | a program parse_program reads whose statements are all simple was read from a stream that spells it |
| Converse.RedundantParentheses | src/parser.c:241-248 | a simple condition in parentheses, with no AND or OR after it, is read as the bare condition: two tokens more than its spelling |
| Converse.EmptyElseLongerThanSpelling | src/parser.c:320-326 | an if followed by `ではない ｛ ｝` is read as the same if without an else: three tokens more than its spelling |
| Compiler.CompileSpelled | src/parser.c:75-84 | a source whose lexed tokens spell a program compiles to that program's rendering |
| Generator.Indent | src/codegen.c:8-12 | print_indent(d) is exactly d tabs |
| Printer.Stdout.PrintIndent | src/codegen.c:8-12 | the counting loop appends exactly Generator.Indent(depth) to the output |
| Generator.NatText | src/codegen.c:87 | %d of a non-negative id is its decimal digits, with no leading zero |
| Generator.NatTextValue | src/codegen.c:87 | reading the digits back gives the number printed |
| Generator.IntText | src/codegen.c:87 | %d of an id is a non-empty piece of text with no tab or newline |
| Generator.IntTextInjective | src/codegen.c:84-171 | distinct ids print as distinct texts, so distinct variables get distinct C names |
| Generator.Chars | src/codegen.c:109 | a string literal is emitted byte for byte, unescaped |
| Printer.Stdout.PrintArgs | src/codegen.c:110-112 | the argument loop appends one `, jpc_var_<id>` per argument, in order |
| Printer.Stdout.GenBlock | src/codegen.c:18-22 | gen_block succeeds exactly when the rendering function does, and then appends every statement in order at one depth; its only failure is a codegen error, after which the output has only grown |
| CodegenProps.GenBlockAppend | src/codegen.c:18-22 | rendering a concatenation of lists renders each list, and joins the texts in order |
| CodegenProps.GenOk | src/codegen.c:24-177 | gen succeeds exactly on trees where a print literal appears only directly under an output; its only failure is a codegen error |
| CodegenProps.CompoundOk | src/codegen.c:28-80 | the same for programs, blocks, ifs, else-ifs and loops |
| CodegenProps.BlockOk | src/codegen.c:18-22 | gen_block succeeds exactly when every statement is renderable |
| CodegenProps.ElseOk | src/codegen.c:59-69 | the `els` part succeeds exactly when its nodes are renderable |
| CodegenProps.StatementRenders | src/codegen.c:24-177 | every statement the parser can build is renderable |
| CodegenProps.StatementsRender | src/codegen.c:18-22 | every statement list the parser can build is renderable |
| CodegenProps.ElseRenders | src/codegen.c:59-69 | every else chain the parser can build is renderable |
| CodegenProps.ConditionRenders | src/codegen.c:140-163 | every condition the parser can build is renderable |
| CodegenProps.ProgramRenders | src/codegen.c:173-176 | code generation never fails on a program the parser built |
| CodegenProps.ValueText | src/codegen.c:165-171 | a literal or variable renders at any depth to text with no tab or newline (given a %f rendering with none) |
| CodegenProps.ConditionText | src/codegen.c:140-163 | a condition renders the same at every depth, as `(` … `)` with no tab or newline |
| CodegenProps.ProgramText | src/codegen.c:28-35 | a program renders as `#include <stdio.h>\nint main() {\n`, then its statements, then `\treturn 0;\n}\n` |
| CodegenProps.IfStart | src/codegen.c:43-58 | an if starts with its indentation and `if (`; an else-if continues the line with ` else if (` |
| CodegenProps.ChainEnd | src/codegen.c:43-70 | every if or else-if chain ends with `}` and exactly one newline |
| CodegenProps.NamesIgnored | src/codegen.c:84-171 | the generated text does not depend on variable names: blanking every name leaves it unchanged |
| CodegenProps.StripKeepsId | src/codegen.c:170 | a variable's C name is made from its id alone |
| CodegenProps.BlockNamesIgnored | src/codegen.c:18-22 | the same for statement lists |
| CodegenProps.ElseNamesIgnored | src/codegen.c:59-69 | the same for else chains |
| Compiler.CompileFails | src/codegen.c:179-181 | the compiler fails only in the lexer or the parser; its output is the rendering of the parsed program |
| Compiler.CompiledShape | src/codegen.c:28-35 | every compiled program starts with the stdio include and `int main() {` and ends by returning 0 |

## Left out

- **File handling.** The file is a byte sequence, so `fp == NULL` in getCh
  (src/lexer.c:25) is not modelled.
- **Floating point.** `atof` (src/parser.c:117,135) and the `%f`/`%g` rendering are
  left out:
  - a literal keeps its half-width digit text;
  - the generator takes the `%f` rendering as a function parameter;
  - `printf("%g\n", …)` is kept as literal text.
- **Error reporting.** Messages, line numbers, stderr and `exit(1)` are left out.
  A fatal error is a failure result that carries only its category. Output that
  codegen wrote before it failed is described only as a prefix of the final
  output.
- Printer.Stdout.GenBlock: on failure it promises only that the output grew.
  It does not say which statements were written before the failing one.
- **Drivers.** `src/main.c`, `src/lexer-test.c`, `src/jpc.c` and
  `src/test-getopt.c` are left out: token dumping, gcc invocation and option
  parsing. No driver in `src/` calls parse_program and then codegen;
  `Compiler.Compile` chains lexer, parser and codegen in that order, and a
  lexical error on the first token stops it.
- **Fixed buffers.** `tokenStr[1024]`, `readBuf[100]` and `charBuf[5]` are
  sequences here:
  - a variable name has no length bound (the source does not check one);
  - a literal keeps the source's length test: 1000 bytes of raw text before a further character is an error, so a body of up to 1003 bytes is accepted;
  - bytes that EOF cuts off a multi-byte character are simply not there.
- **Names and ids.** The parser never sets a variable id or a print literal's
  arguments, so trees carry id 0 and no arguments. No resolver is invented.
- **Unused state.** `token_line` (src/lexer.c:13,238) is never read, and
  `getTokenName` (src/lexer.c:191-231) is a debug table. Both are left out.
- **Null links.** The datatype has no null node:
  - `gen(NULL)` is the empty text only where a list or an `els` may be empty;
  - a missing child cannot occur in trees the parser builds.
- **Condition function names.** `parse_condition_factor` (src/parser.c:265-267)
  only calls `parse_condition_term`. The operand code that
  `parse_condition_term` repeats for each operand (src/parser.c:241-248 and
  252-259) is modelled as `ParseConditionFactor`, and the OR loop reads terms.
  This is the same grammar under clearer names.
- **Else chain.** The C code builds it by moving `curr` along the
  `els` links. The model gathers the arms in a list and links them with
  `ParseSpec.Chain` afterwards, which gives the same tree.
- Parser.Parser.ParseStatementList: requires the cursor to be within the
  stream. Every parse method keeps it there, so any cursor a method can reach
  satisfies this.
- ParseSpec.ParseStatement: the converse of the round trip (what was read
  spells the tree) is proved only for statements without a ループ or もし lead.
  It is false for block statements: Converse.EmptyElseLongerThanSpelling and
  Converse.RedundantParentheses give streams that are longer than the spelling
  of the tree read from them.
- ParseSpec.ParseProgram: the same converse is proved only for programs whose
  statements are all simple (Converse.ProgramSpelled), for the same reason.
- **Lexer integers.** `pushback_buf` holds `int`s. The model stores bytes, which
  is all that is ever pushed, because EOF is never pushed.
