/** What parser.c computes, as pure functions over the tokens the lexer delivers.
    Every parse function takes the cursor `pos` of the lookahead token and returns
    the node it builds with the cursor after it, or the category of the fatal
    error. */
module ParseSpec {
  import opened Errors
  import opened Utf8
  import opened Tokens
  import opened Ast

  /** The tokens successive getNextToken calls deliver for one source, in order;
      `failed` when the call after the last of them stops with a lexical error. */
  datatype Stream = Stream(toks: seq<Token>, failed: bool)

  /** The lookahead at `pos`; past the last token the lexer keeps answering TK_EOF. */
  function Peek(st: Stream, pos: nat): Token {
    if pos < |st.toks| then st.toks[pos] else Token(TkEof, [])
  }

  /** The tokens still ahead of `pos`: the measure every parse function decreases. */
  function Left(st: Stream, pos: nat): nat {
    if pos <= |st.toks| then |st.toks| - pos else 0
  }

  /** getNextToken: the cursor moves on, unless lexing the next token fails. */
  function Next(st: Stream, pos: nat): Result<nat> {
    if pos + 1 < |st.toks| || !st.failed then Ok(pos + 1) else Err(LexerError)
  }

  /** expect (parser.c:58-63): the lookahead must be `kind`; it is then passed. */
  function Expect(st: Stream, pos: nat, kind: TokenType): Result<nat> {
    if Peek(st, pos).kind != kind then Err(SyntaxError) else Next(st, pos)
  }

  /** consume (parser.c:49-55): pass the lookahead only if it is `kind`, and say so. */
  function Consume(st: Stream, pos: nat, kind: TokenType): (r: Result<(bool, nat)>)
    ensures r.Ok? && !r.value.0 <==> Peek(st, pos).kind != kind
    ensures r.Ok? ==> r.value.1 == if r.value.0 then pos + 1 else pos
    ensures r.Err? ==> Peek(st, pos).kind == kind && Next(st, pos).Err?
  {
    if Peek(st, pos).kind != kind then Ok((false, pos))
    else
      var p :- Next(st, pos);
      Ok((true, p))
  }

  /** The node a comparison operator token builds (parse_simple_condition). */
  function Comparison(kind: TokenType, lhs: Node, rhs: Node): Option<Node> {
    match kind
    case TkOpGe => Some(Ge(lhs, rhs))
    case TkOpLe => Some(Le(lhs, rhs))
    case TkOpGt => Some(Gt(lhs, rhs))
    case TkOpLt => Some(Lt(lhs, rhs))
    case TkOpEq => Some(Eq(lhs, rhs))
    case TkOpNe => Some(Ne(lhs, rhs))
    case _ => None
  }

  // ---------------------------------------------------------------------------
  // Values and simple statements

  /** parse_value: a number literal or a variable. */
  function ParseValue(st: Stream, pos: nat): (r: Result<(Node, nat)>)
    ensures r.Ok? ==> ValueShape(r.value.0) && r.value.1 == pos + 1 && pos < r.value.1 <= |st.toks|
    ensures Peek(st, pos).kind != TkLiteral && Peek(st, pos).kind != TkVariable ==> r == Err(SyntaxError)
  {
    var t := Peek(st, pos);
    if t.kind == TkLiteral then
      var p :- Next(st, pos);
      Ok((Literal(t.text), p))
    else if t.kind == TkVariable then
      var p :- Next(st, pos);
      Ok((Var(t.text, 0), p))
    else Err(SyntaxError)
  }

  /** The `<variable> を <value> …` forms: declaration and division. */
  function ParseWoStatement(st: Stream, target: Node, pos: nat): (r: Result<(Node, nat)>)
    requires VarShape(target)
    ensures r.Ok? ==> StatementShape(r.value.0) && pos < r.value.1 <= |st.toks|
  {
    var v :- ParseValue(st, pos);
    var (val, p) := v;
    var k := Peek(st, p).kind;
    if k == TkDeclare || k == TkDiv then
      var q :- Next(st, p);
      Ok((if k == TkDeclare then Declare(target, val) else Div(target, val), q))
    else Err(SyntaxError)
  }

  /** The `<variable> に …` forms: input, assignment, addition, multiplication. */
  function ParseNiStatement(st: Stream, target: Node, pos: nat): (r: Result<(Node, nat)>)
    requires VarShape(target)
    ensures r.Ok? ==> StatementShape(r.value.0) && pos < r.value.1 <= |st.toks|
  {
    if Peek(st, pos).kind == TkInput then
      var q :- Next(st, pos);
      Ok((Input(target), q))
    else
      var v :- ParseValue(st, pos);
      var (val, p) := v;
      var k := Peek(st, p).kind;
      if k == TkAssign || k == TkAdd || k == TkMul then
        var q :- Next(st, p);
        Ok((if k == TkAssign then Assign(target, val)
            else if k == TkAdd then Add(target, val)
            else Mul(target, val), q))
      else Err(SyntaxError)
  }

  /** parse_simple_statement: output, declaration, input and the arithmetic
      updates; the closing 。 is left to the caller. */
  function ParseSimpleStatement(st: Stream, pos: nat): (r: Result<(Node, nat)>)
    ensures r.Ok? ==> StatementShape(r.value.0) && pos < r.value.1 <= |st.toks|
  {
    var t := Peek(st, pos);
    if t.kind == TkLiteral || t.kind == TkPrintLit then
      var lhs := if t.kind == TkLiteral then Literal(t.text) else StrLit(t.text, []);
      var p :- Next(st, pos);
      var q :- Expect(st, p, TkOutput);
      Ok((Output(lhs), q))
    else if t.kind == TkVariable then
      var target := Var(t.text, 0);
      var p :- Next(st, pos);
      var k := Peek(st, p).kind;
      if k == TkWo then
        var q :- Next(st, p);
        ParseWoStatement(st, target, q)
      else if k == TkNi then
        var q :- Next(st, p);
        ParseNiStatement(st, target, q)
      else if k == TkKara then
        var q :- Next(st, p);
        var v :- ParseValue(st, q);
        var (val, p2) := v;
        var q2 :- Expect(st, p2, TkSub);
        Ok((Sub(target, val), q2))
      else Err(SyntaxError)
    else Err(SyntaxError)
  }

  // ---------------------------------------------------------------------------
  // Conditions

  /** parse_simple_condition: `<variable> が <value> <comparison>`. */
  function ParseSimpleCondition(st: Stream, pos: nat): (r: Result<(Node, nat)>)
    ensures r.Ok? ==> SimpleConditionShape(r.value.0) && pos < r.value.1 <= |st.toks|
  {
    var t := Peek(st, pos);
    if t.kind != TkVariable then Err(SyntaxError)
    else
      var lhs := Var(t.text, 0);
      var p :- Next(st, pos);
      var q :- Expect(st, p, TkGa);
      var v :- ParseValue(st, q);
      var (rhs, p2) := v;
      match Comparison(Peek(st, p2).kind, lhs, rhs)
      case None => Err(SyntaxError)
      case Some(c) =>
        var q2 :- Next(st, p2);
        Ok((c, q2))
  }

  /** parse_condition_expression: terms joined by OR, grouped to the left. */
  function ParseConditionExpression(st: Stream, pos: nat): (r: Result<(Node, nat)>)
    ensures r.Ok? ==> ConditionShape(r.value.0) && pos < r.value.1 <= |st.toks|
    decreases Left(st, pos), 2
  {
    var t :- ParseConditionTerm(st, pos);
    OrChain(st, t.0, t.1)
  }

  /** The loop of parse_condition_expression: `node` is the condition read so far. */
  function OrChain(st: Stream, node: Node, pos: nat): (r: Result<(Node, nat)>)
    requires ConditionShape(node) && pos <= |st.toks|
    ensures r.Ok? ==> ConditionShape(r.value.0) && pos <= r.value.1 <= |st.toks|
    decreases Left(st, pos), 0
  {
    if Peek(st, pos).kind != TkOr then Ok((node, pos))
    else
      var p :- Next(st, pos);
      var t :- ParseConditionTerm(st, p);
      OrChain(st, Or(node, t.0), t.1)
  }

  /** parse_condition_term: factors joined by AND, grouped to the left. */
  function ParseConditionTerm(st: Stream, pos: nat): (r: Result<(Node, nat)>)
    ensures r.Ok? ==> ConditionShape(r.value.0) && pos < r.value.1 <= |st.toks|
    decreases Left(st, pos), 1
  {
    var f :- ParseConditionFactor(st, pos);
    AndChain(st, f.0, f.1)
  }

  /** The loop of parse_condition_term. */
  function AndChain(st: Stream, node: Node, pos: nat): (r: Result<(Node, nat)>)
    requires ConditionShape(node) && pos <= |st.toks|
    ensures r.Ok? ==> ConditionShape(r.value.0) && pos <= r.value.1 <= |st.toks|
    decreases Left(st, pos), 0
  {
    if Peek(st, pos).kind != TkAnd then Ok((node, pos))
    else
      var p :- Next(st, pos);
      var f :- ParseConditionFactor(st, p);
      AndChain(st, And(node, f.0), f.1)
  }

  /** A parenthesised condition or a simple one; parse_condition_term writes this
      out twice, before its loop and inside it. */
  function ParseConditionFactor(st: Stream, pos: nat): (r: Result<(Node, nat)>)
    ensures r.Ok? ==> ConditionShape(r.value.0) && pos < r.value.1 <= |st.toks|
    decreases Left(st, pos), 0
  {
    if Peek(st, pos).kind == TkLPar then
      var p :- Next(st, pos);
      var e :- ParseConditionExpression(st, p);
      var q :- Expect(st, e.1, TkRPar);
      Ok((e.0, q))
    else ParseSimpleCondition(st, pos)
  }

  // ---------------------------------------------------------------------------
  // Statements and blocks

  /** parse_statement: a block statement, or a simple statement and its 。. */
  function ParseStatement(st: Stream, pos: nat): (r: Result<(Node, nat)>)
    ensures r.Ok? ==> StatementShape(r.value.0) && pos < r.value.1 <= |st.toks|
    decreases Left(st, pos), 1
  {
    var k := Peek(st, pos).kind;
    if k == TkLoop || k == TkIf then ParseBlockStatement(st, pos)
    else
      var s :- ParseSimpleStatement(st, pos);
      var q :- Expect(st, s.1, TkPeriod);
      Ok((s.0, q))
  }

  /** parse_statement_list, from the statements `acc` already linked: statements
      up to ｝ or the end of the input. */
  function StatementList(st: Stream, acc: seq<Node>, pos: nat): (r: Result<(seq<Node>, nat)>)
    requires StatementsShape(acc) && pos <= |st.toks|
    ensures r.Ok? ==> StatementsShape(r.value.0) && pos <= r.value.1 <= |st.toks|
    ensures r.Ok? ==> Peek(st, r.value.1).kind in {TkRBrace, TkEof}
    decreases Left(st, pos), 2
  {
    var k := Peek(st, pos).kind;
    if k == TkRBrace || k == TkEof then Ok((acc, pos))
    else
      var s :- ParseStatement(st, pos);
      StatementsShapeAppend(acc, s.0);
      StatementList(st, acc + [s.0], s.1)
  }

  function ParseStatementList(st: Stream, pos: nat): (r: Result<(seq<Node>, nat)>)
    requires pos <= |st.toks|
    ensures r.Ok? ==> StatementsShape(r.value.0) && pos <= r.value.1 <= |st.toks|
    decreases Left(st, pos), 3
  {
    StatementList(st, [], pos)
  }

  /** `（ <condition> ）｛ <statements> ｝` after a loop, if or else-if keyword. */
  function ParseGuardedBody(st: Stream, pos: nat): (r: Result<((Node, seq<Node>), nat)>)
    ensures r.Ok? ==> ConditionShape(r.value.0.0) && StatementsShape(r.value.0.1)
    ensures r.Ok? ==> pos < r.value.1 <= |st.toks|
    decreases Left(st, pos), 0
  {
    var p1 :- Expect(st, pos, TkLPar);
    var c :- ParseConditionExpression(st, p1);
    var p2 :- Expect(st, c.1, TkRPar);
    var p3 :- Expect(st, p2, TkLBrace);
    var b :- ParseStatementList(st, p3);
    var p4 :- Expect(st, b.1, TkRBrace);
    Ok(((c.0, b.0), p4))
  }

  /** The else-if loop of parse_block_statement: the arms read so far are `arms`. */
  function ElseIfArms(st: Stream, arms: seq<(Node, seq<Node>)>, pos: nat)
    : (r: Result<(seq<(Node, seq<Node>)>, nat)>)
    requires ArmsShape(arms) && pos <= |st.toks|
    ensures r.Ok? ==> ArmsShape(r.value.0) && pos <= r.value.1 <= |st.toks|
    ensures r.Ok? ==> Peek(st, r.value.1).kind != TkElseIf
    decreases Left(st, pos), 0
  {
    if Peek(st, pos).kind != TkElseIf then Ok((arms, pos))
    else
      var p :- Next(st, pos);
      var g :- ParseGuardedBody(st, p);
      ArmsShapeAppend(arms, g.0);
      ElseIfArms(st, arms + [g.0], g.1)
  }

  /** Every arm is a condition with a statement list. */
  predicate ArmsShape(arms: seq<(Node, seq<Node>)>) {
    arms == [] || (ConditionShape(arms[0].0) && StatementsShape(arms[0].1) && ArmsShape(arms[1..]))
  }

  /** Adding an arm at the end keeps the arms well formed. */
  lemma {:induction false} ArmsShapeAppend(arms: seq<(Node, seq<Node>)>, g: (Node, seq<Node>))
    requires ArmsShape(arms) && ConditionShape(g.0) && StatementsShape(g.1)
    ensures ArmsShape(arms + [g])
    decreases |arms|
  {
    if arms == [] {
      assert [] + [g] == [g];
      assert [g][1..] == [];
    } else {
      assert (arms + [g])[1..] == arms[1..] + [g];
      ArmsShapeAppend(arms[1..], g);
    }
  }

  /** The optional `ではない ｛ <statements> ｝`; an empty else reads as none. */
  function ElsePart(st: Stream, pos: nat): (r: Result<(seq<Node>, nat)>)
    requires pos <= |st.toks|
    ensures r.Ok? ==> StatementsShape(r.value.0) && pos <= r.value.1 <= |st.toks|
    decreases Left(st, pos), 0
  {
    if Peek(st, pos).kind != TkElse then Ok(([], pos))
    else
      var p :- Next(st, pos);
      var p1 :- Expect(st, p, TkLBrace);
      var b :- ParseStatementList(st, p1);
      var p2 :- Expect(st, b.1, TkRBrace);
      Ok((b.0, p2))
  }

  /** The `els` chain parse_block_statement links: each else-if arm points at the
      next one, and the last at the else statements. */
  function Chain(arms: seq<(Node, seq<Node>)>, last: seq<Node>): (r: seq<Node>)
    requires ArmsShape(arms) && StatementsShape(last)
    ensures ElseShape(r)
  {
    if arms == [] then
      assert |last| == 1 ==> StatementShape(last[0]);
      last
    else [ElseIf(arms[0].0, arms[0].1, Chain(arms[1..], last))]
  }

  /** parse_block_statement: a loop, or an if with its else-if arms and else. */
  function ParseBlockStatement(st: Stream, pos: nat): (r: Result<(Node, nat)>)
    ensures r.Ok? ==> StatementShape(r.value.0) && pos < r.value.1 <= |st.toks|
    decreases Left(st, pos), 0
  {
    var k := Peek(st, pos).kind;
    if k == TkLoop then
      var p :- Next(st, pos);
      var g :- ParseGuardedBody(st, p);
      Ok((Loop(g.0.0, g.0.1), g.1))
    else if k == TkIf then
      var p :- Next(st, pos);
      var g :- ParseGuardedBody(st, p);
      var a :- ElseIfArms(st, [], g.1);
      var e :- ElsePart(st, a.1);
      Ok((If(g.0.0, g.0.1, Chain(a.0, e.0)), e.1))
    else Err(SyntaxError)
  }

  /** parse_program: `メイン ｛ <statements> ｝`; nothing after the ｝ is looked at. */
  function ParseProgram(st: Stream): (r: Result<Node>)
    ensures r.Ok? ==> ProgramShape(r.value)
  {
    var p1 :- Expect(st, 0, TkMain);
    var p2 :- Expect(st, p1, TkLBrace);
    var b :- ParseStatementList(st, p2);
    var p3 :- Expect(st, b.1, TkRBrace);
    Ok(Program(b.0))
  }
}
