/** Properties of the parser read off single calls: what expect and consume do
    to the cursor, which lookaheads start which statement forms, where a simple
    statement ends, and how the empty forms read. */
module ParseProps {
  import opened Errors
  import opened Tokens
  import opened Ast
  import opened ParseSpec

  /** expect fails without moving when the lookahead differs, and otherwise moves
      on by exactly one token, unless lexing that token fails. */
  lemma ExpectMoves(st: Stream, pos: nat, kind: TokenType)
    ensures Peek(st, pos).kind != kind ==> Expect(st, pos, kind) == Err(SyntaxError)
    ensures Expect(st, pos, kind).Ok? <==> Peek(st, pos).kind == kind && Next(st, pos).Ok?
    ensures Expect(st, pos, kind).Ok? ==> Expect(st, pos, kind).value == pos + 1
    ensures Expect(st, pos, kind).Err? && Peek(st, pos).kind == kind ==> Expect(st, pos, kind) == Err(LexerError)
  {
  }

  /** parse_simple_statement builds an output, a declaration, an input or one of
      the five updates, never a block, and starts only at a literal, a print
      literal or a variable. */
  lemma {:induction false} SimpleStatementKinds(st: Stream, pos: nat)
    ensures ParseSimpleStatement(st, pos).Ok? ==>
      var s := ParseSimpleStatement(st, pos).value.0;
      (s.Output? || s.Declare? || s.Div? || s.Input? || s.Assign? || s.Add? || s.Mul? || s.Sub?)
    ensures Peek(st, pos).kind !in {TkLiteral, TkPrintLit, TkVariable} ==>
      ParseSimpleStatement(st, pos) == Err(SyntaxError)
  {
    var t := Peek(st, pos);
    if t.kind == TkVariable {
      var p := Next(st, pos);
      if p.Ok? {
        var k := Peek(st, p.value).kind;
        if k == TkWo {
          var q := Next(st, p.value);
          if q.Ok? {
            var target := Var(t.text, 0);
            assert ParseSimpleStatement(st, pos) == ParseWoStatement(st, target, q.value);
          }
        } else if k == TkNi {
          var q := Next(st, p.value);
          if q.Ok? {
            var target := Var(t.text, 0);
            assert ParseSimpleStatement(st, pos) == ParseNiStatement(st, target, q.value);
          }
        }
      }
    }
  }

  /** parse_statement: ループ and もし start the block forms; every other statement
      is a simple one followed by 。; and a statement may start with nothing else,
      so a newline, a full-width space, an else-if or an else at the start of a
      statement is a syntax error. */
  lemma {:induction false} StatementForms(st: Stream, pos: nat)
    ensures Peek(st, pos).kind in {TkLoop, TkIf} ==> ParseStatement(st, pos) == ParseBlockStatement(st, pos)
    ensures Peek(st, pos).kind !in {TkLoop, TkIf, TkLiteral, TkPrintLit, TkVariable} ==>
      ParseStatement(st, pos) == Err(SyntaxError)
    ensures ParseStatement(st, pos).Ok? && Peek(st, pos).kind !in {TkLoop, TkIf} ==>
      var (s, q) := ParseStatement(st, pos).value;
      q > 0 && Peek(st, q - 1).kind == TkPeriod && !s.Loop? && !s.If?
    ensures ParseStatement(st, pos).Ok? ==>
      (ParseStatement(st, pos).value.0.Loop? || ParseStatement(st, pos).value.0.If?
       <==> Peek(st, pos).kind in {TkLoop, TkIf})
  {
    SimpleStatementKinds(st, pos);
    BlockKinds(st, pos);
  }

  /** parse_block_statement builds a loop from ループ and an if from もし, and
      rejects every other lookahead. */
  lemma BlockKinds(st: Stream, pos: nat)
    ensures ParseBlockStatement(st, pos).Ok? ==>
      (ParseBlockStatement(st, pos).value.0.Loop? <==> Peek(st, pos).kind == TkLoop)
      && (ParseBlockStatement(st, pos).value.0.If? <==> Peek(st, pos).kind == TkIf)
    ensures Peek(st, pos).kind !in {TkLoop, TkIf} ==> ParseBlockStatement(st, pos) == Err(SyntaxError)
  {
  }

  /** A statement list that starts at ｝ or at the end of the input is empty (the
      null list), and the cursor stays. */
  lemma EmptyStatementList(st: Stream, pos: nat)
    requires pos <= |st.toks| && Peek(st, pos).kind in {TkRBrace, TkEof}
    ensures ParseStatementList(st, pos) == Ok(([], pos))
  {
  }

  /** `ではない ｛ ｝` reads as no else at all: the else statements are the null
      list, just as when no else follows. */
  lemma EmptyElse(st: Stream, pos: nat)
    requires pos + 3 < |st.toks|
    requires Peek(st, pos).kind == TkElse && Peek(st, pos + 1).kind == TkLBrace
    requires Peek(st, pos + 2).kind == TkRBrace
    ensures ElsePart(st, pos) == Ok(([], pos + 3))
  {
    assert Next(st, pos) == Ok(pos + 1);
    assert Expect(st, pos + 1, TkLBrace) == Ok(pos + 2);
    assert ParseStatementList(st, pos + 2) == Ok(([], pos + 2));
  }

  /** A condition can start only with a variable or an opening parenthesis. */
  lemma ConditionStart(st: Stream, pos: nat)
    requires Peek(st, pos).kind !in {TkVariable, TkLPar}
    ensures ParseConditionExpression(st, pos) == Err(SyntaxError)
  {
    assert ParseConditionFactor(st, pos) == Err(SyntaxError);
    assert ParseConditionTerm(st, pos) == Err(SyntaxError);
  }
}
