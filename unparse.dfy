/** The token sequence that spells each tree the parser builds, and the proof that
    the parser reads each such sequence back into the tree it spells: this pins
    down the grammar parser.c accepts, the precedence and grouping of AND and OR,
    and the shape of the else-if chains it links. */
module RoundTrip {
  import opened Errors
  import opened Utf8
  import opened Tokens
  import opened Ast
  import opened ParseSpec
  import opened Seqs

  /** A keyword or symbol token as a spelling writes it. Its text is left empty:
      the parser never reads it, and `Matches` accepts any text in its place. */
  function K(kind: TokenType): Token {
    Token(kind, [])
  }

  // ---------------------------------------------------------------------------
  // Spelling trees as tokens

  function UnparseValue(v: Node): seq<Token>
    requires ValueShape(v)
  {
    if v.Literal? then [Token(TkLiteral, v.text)] else [Token(TkVariable, v.name)]
  }

  /** The operator token of a comparison. */
  function OperatorOf(c: Node): TokenType
    requires IsComparison(c)
  {
    match c
    case Ge(_, _) => TkOpGe
    case Le(_, _) => TkOpLe
    case Gt(_, _) => TkOpGt
    case Lt(_, _) => TkOpLt
    case Eq(_, _) => TkOpEq
    case Ne(_, _) => TkOpNe
  }

  /** `<variable> <particle> <value> <operator>`: a simple condition and most
      simple statements have this form. */
  function Phrase(name: seq<Byte>, particle: TokenType, v: Node, op: TokenType): seq<Token>
    requires ValueShape(v)
  {
    [Token(TkVariable, name), K(particle)] + UnparseValue(v) + [K(op)]
  }

  function UnparseSimple(c: Node): seq<Token>
    requires SimpleConditionShape(c)
  {
    Phrase(c.lhs.name, TkGa, c.rhs, OperatorOf(c))
  }

  /** A condition: its OR operands left to right; a right operand that is itself
      an OR is the only one that needs parentheses. */
  function UnparseExpr(c: Node): seq<Token>
    requires ConditionShape(c)
    decreases c, if c.Or? then 0 else if c.And? then 2 else 4
  {
    if c.Or? then UnparseExpr(c.lhs) + [K(TkOr)] + UnparseTerm(c.rhs)
    else UnparseTerm(c)
  }

  function UnparseTerm(c: Node): seq<Token>
    requires ConditionShape(c)
    decreases c, if c.Or? then 4 else if c.And? then 0 else 2
  {
    if c.And? then UnparseTerm(c.lhs) + [K(TkAnd)] + UnparseFactor(c.rhs)
    else UnparseFactor(c)
  }

  function UnparseFactor(c: Node): seq<Token>
    requires ConditionShape(c)
    decreases c, if c.Or? then 2 else if c.And? then 4 else 0
  {
    if c.And? || c.Or? then [K(TkLPar)] + UnparseExpr(c) + [K(TkRPar)]
    else UnparseSimple(c)
  }

  /** A simple statement without its closing 。. */
  function UnparseSimpleStatement(s: Node): seq<Token>
    requires StatementShape(s) && !s.Loop? && !s.If?
  {
    match s
    case Output(lhs) =>
      [if lhs.Literal? then Token(TkLiteral, lhs.text) else Token(TkPrintLit, lhs.strVal), K(TkOutput)]
    case Declare(lhs, rhs) => Phrase(lhs.name, TkWo, rhs, TkDeclare)
    case Div(lhs, rhs) => Phrase(lhs.name, TkWo, rhs, TkDiv)
    case Input(lhs) => [Token(TkVariable, lhs.name), K(TkNi), K(TkInput)]
    case Assign(lhs, rhs) => Phrase(lhs.name, TkNi, rhs, TkAssign)
    case Add(lhs, rhs) => Phrase(lhs.name, TkNi, rhs, TkAdd)
    case Mul(lhs, rhs) => Phrase(lhs.name, TkNi, rhs, TkMul)
    case Sub(lhs, rhs) => Phrase(lhs.name, TkKara, rhs, TkSub)
  }

  function UnparseStatement(s: Node): seq<Token>
    requires StatementShape(s)
    decreases s, 1
  {
    if s.Loop? then [K(TkLoop)] + UnparseGuarded(s.cond, s.body)
    else if s.If? then [K(TkIf)] + UnparseGuarded(s.cond, s.body) + UnparseElse(s.els)
    else UnparseSimpleStatement(s) + [K(TkPeriod)]
  }

  function UnparseStatements(ss: seq<Node>): seq<Token>
    requires StatementsShape(ss)
    decreases ss, 0
  {
    if ss == [] then [] else UnparseStatement(ss[0]) + UnparseStatements(ss[1..])
  }

  /** `（ <condition> ）｛ <statements> ｝`. */
  function UnparseGuarded(c: Node, body: seq<Node>): seq<Token>
    requires ConditionShape(c) && StatementsShape(body)
    decreases body, 1
  {
    [K(TkLPar)] + UnparseExpr(c) + [K(TkRPar), K(TkLBrace)] + UnparseStatements(body) + [K(TkRBrace)]
  }

  /** An `els` field: nothing, an else-if arm, or a non-empty else. */
  function UnparseElse(els: seq<Node>): seq<Token>
    requires ElseShape(els)
    decreases els, 1
  {
    if |els| == 1 && els[0].ElseIf? then
      [K(TkElseIf)] + UnparseGuarded(els[0].cond, els[0].body) + UnparseElse(els[0].els)
    else if els == [] then []
    else [K(TkElse), K(TkLBrace)] + UnparseStatements(els) + [K(TkRBrace)]
  }

  function UnparseProgram(p: Node): seq<Token>
    requires ProgramShape(p)
  {
    [K(TkMain), K(TkLBrace)] + UnparseStatements(p.stmts) + [K(TkRBrace)]
  }

  /** The else-if arms of an `els` field, in order. */
  function ArmsOf(els: seq<Node>): (r: seq<(Node, seq<Node>)>)
    requires ElseShape(els)
    ensures ArmsShape(r)
  {
    if |els| == 1 && els[0].ElseIf? then [(els[0].cond, els[0].body)] + ArmsOf(els[0].els)
    else []
  }

  /** The else statements at the end of an `els` chain. */
  function LastOf(els: seq<Node>): (r: seq<Node>)
    requires ElseShape(els)
    ensures StatementsShape(r)
  {
    if |els| == 1 && els[0].ElseIf? then LastOf(els[0].els) else els
  }

  /** Linking the arms and the else part of an `els` chain gives the chain back. */
  lemma {:induction false} ChainParts(els: seq<Node>)
    requires ElseShape(els)
    ensures Chain(ArmsOf(els), LastOf(els)) == els
  {
    if |els| == 1 && els[0].ElseIf? {
      ChainParts(els[0].els);
      assert ArmsOf(els)[1..] == ArmsOf(els[0].els);
    }
  }

  // ---------------------------------------------------------------------------
  // Token sequences in the stream

  /** The token kinds whose text the parser reads: a literal, a print literal and
      a variable. Every other token is told apart by its kind alone. */
  predicate Carries(kind: TokenType) {
    kind == TkLiteral || kind == TkPrintLit || kind == TkVariable
  }

  /** Token `t` of a stream stands where the spelling has `u`: the same kind, and
      the same text when the parser reads it. The text the lexer gives a keyword or
      a symbol (its own bytes) is free. */
  predicate Matches(t: Token, u: Token) {
    t.kind == u.kind && (Carries(u.kind) ==> t.text == u.text)
  }

  /** The token `i` places after `pos`, or the end-of-file token past the end. */
  function TokAt(st: Stream, pos: nat, i: nat): Token {
    Peek(st, pos + i)
  }

  /** `u` is spelled at `pos` of the stream. */
  predicate Reads(st: Stream, pos: nat, u: seq<Token>) {
    pos + |u| <= |st.toks| &&
    forall i {:trigger TokAt(st, pos, i)} | 0 <= i < |u| :: Matches(TokAt(st, pos, i), u[i])
  }

  /** Moving the cursor onto `p` does not hit a lexical error. */
  predicate Live(st: Stream, p: nat) {
    p < |st.toks| || !st.failed
  }

  lemma ReadsAt(st: Stream, pos: nat, u: seq<Token>, i: nat)
    requires Reads(st, pos, u) && i < |u|
    ensures Peek(st, pos + i).kind == u[i].kind
    ensures Carries(u[i].kind) ==> Peek(st, pos + i) == u[i]
  {
    assert Matches(TokAt(st, pos, i), u[i]);
  }

  lemma ReadsSplit(st: Stream, pos: nat, a: seq<Token>, b: seq<Token>)
    requires Reads(st, pos, a + b)
    ensures Reads(st, pos, a) && Reads(st, pos + |a|, b)
  {
    forall i | 0 <= i < |a|
      ensures Matches(TokAt(st, pos, i), a[i])
    {
      assert Matches(TokAt(st, pos, i), (a + b)[i]);
    }
    forall i | 0 <= i < |b|
      ensures Matches(TokAt(st, pos + |a|, i), b[i])
    {
      assert TokAt(st, pos + |a|, i) == TokAt(st, pos, |a| + i);
      assert Matches(TokAt(st, pos, |a| + i), (a + b)[|a| + i]);
    }
  }

  /** A keyword or symbol of the spelling matches a token of that kind whatever
      its text, so the bytes the lexer leaves in it do not matter. */
  lemma KeywordTextFree(t: Token, kind: TokenType)
    requires !Carries(kind)
    ensures Matches(t, K(kind)) <==> t.kind == kind
  {
  }

  // ---------------------------------------------------------------------------
  // Reading conditions back

  lemma ValueRoundTrip(st: Stream, pos: nat, v: Node)
    requires ValueShape(v) && Reads(st, pos, UnparseValue(v)) && Live(st, pos + 1)
    ensures ParseValue(st, pos) == Ok((v, pos + 1))
  {
    ReadsAt(st, pos, UnparseValue(v), 0);
  }

  /** Where the four tokens of a phrase sit. */
  lemma PhraseTokens(st: Stream, pos: nat, name: seq<Byte>, particle: TokenType, v: Node, op: TokenType)
    requires ValueShape(v) && Reads(st, pos, Phrase(name, particle, v, op)) && Live(st, pos + 4)
    ensures |Phrase(name, particle, v, op)| == 4
    ensures Peek(st, pos) == Token(TkVariable, name) && Next(st, pos) == Ok(pos + 1)
    ensures Peek(st, pos + 1).kind == particle && Next(st, pos + 1) == Ok(pos + 2)
    ensures ParseValue(st, pos + 2) == Ok((v, pos + 3))
    ensures Peek(st, pos + 3).kind == op && Next(st, pos + 3) == Ok(pos + 4)
  {
    var u := Phrase(name, particle, v, op);
    var w := UnparseValue(v);
    assert |w| == 1;
    ReadsAt(st, pos, u, 0);
    ReadsAt(st, pos, u, 1);
    ReadsAt(st, pos, u, 3);
    ReadsSplit(st, pos, [Token(TkVariable, name), K(particle)] + w, [K(op)]);
    ReadsSplit(st, pos, [Token(TkVariable, name), K(particle)], w);
    ValueRoundTrip(st, pos + 2, v);
  }

  lemma SimpleConditionRoundTrip(st: Stream, pos: nat, c: Node)
    requires SimpleConditionShape(c) && Reads(st, pos, UnparseSimple(c))
    requires Live(st, pos + |UnparseSimple(c)|)
    ensures ParseSimpleCondition(st, pos) == Ok((c, pos + |UnparseSimple(c)|))
  {
    PhraseTokens(st, pos, c.lhs.name, TkGa, c.rhs, OperatorOf(c));
    assert |UnparseSimple(c)| == 4;
    assert Comparison(OperatorOf(c), Var(c.lhs.name, 0), c.rhs) == Some(c);
  }

  /** Where the parts of `a <op> b` sit. */
  lemma InfixTokens(st: Stream, pos: nat, a: seq<Token>, op: TokenType, b: seq<Token>, q: nat)
    requires q == pos + |a|
    requires Reads(st, pos, a + [K(op)] + b) && Live(st, q + 1 + |b|)
    ensures Reads(st, pos, a) && Reads(st, q + 1, b)
    ensures Peek(st, q).kind == op && Next(st, q) == Ok(q + 1)
    ensures Live(st, q) && q + 1 + |b| <= |st.toks|
  {
    ReadsSplit(st, pos, a + [K(op)], b);
    ReadsSplit(st, pos, a, [K(op)]);
    ReadsAt(st, q, [K(op)], 0);
  }

  /** The OR loop stops at a token other than OR. */
  lemma OrChainStop(st: Stream, node: Node, pos: nat)
    requires ConditionShape(node) && pos <= |st.toks| && Peek(st, pos).kind != TkOr
    ensures OrChain(st, node, pos) == Ok((node, pos))
  {
  }

  /** One round of the OR loop. */
  lemma OrChainStep(st: Stream, node: Node, pos: nat, t: Node, p: nat)
    requires ConditionShape(node) && ConditionShape(t) && pos < p <= |st.toks|
    requires Peek(st, pos).kind == TkOr && Next(st, pos) == Ok(pos + 1)
    requires ParseConditionTerm(st, pos + 1) == Ok((t, p))
    ensures OrChain(st, node, pos) == OrChain(st, Or(node, t), p)
  {
    var n := Next(st, pos);
    assert !n.IsFailure() && n.Extract() == pos + 1;
    var r := ParseConditionTerm(st, pos + 1);
    assert !r.IsFailure() && r.Extract() == (t, p);
  }

  lemma AndChainStop(st: Stream, node: Node, pos: nat)
    requires ConditionShape(node) && pos <= |st.toks| && Peek(st, pos).kind != TkAnd
    ensures AndChain(st, node, pos) == Ok((node, pos))
  {
  }

  lemma AndChainStep(st: Stream, node: Node, pos: nat, f: Node, p: nat)
    requires ConditionShape(node) && ConditionShape(f) && pos < p <= |st.toks|
    requires Peek(st, pos).kind == TkAnd && Next(st, pos) == Ok(pos + 1)
    requires ParseConditionFactor(st, pos + 1) == Ok((f, p))
    ensures AndChain(st, node, pos) == AndChain(st, And(node, f), p)
  {
    var n := Next(st, pos);
    assert !n.IsFailure() && n.Extract() == pos + 1;
    var r := ParseConditionFactor(st, pos + 1);
    assert !r.IsFailure() && r.Extract() == (f, p);
  }

  /** Reading the tokens of `c` leaves the OR loop of parse_condition_expression
      with `c` as its node. */
  lemma {:induction false} ExpressionPrefix(st: Stream, pos: nat, c: Node, end: nat)
    requires ConditionShape(c) && end == pos + |UnparseExpr(c)| && Reads(st, pos, UnparseExpr(c))
    requires Live(st, end) && Peek(st, end).kind != TkAnd
    ensures ParseConditionExpression(st, pos) == OrChain(st, c, end)
    decreases c, if c.Or? then 2 else 6
  {
    if c.Or? {
      OrPrefix(st, pos, c, end);
    } else {
      TermPrefix(st, pos, c, end);
      AndChainStop(st, c, end);
    }
  }

  lemma {:induction false} OrPrefix(st: Stream, pos: nat, c: Node, end: nat)
    requires ConditionShape(c) && c.Or?
    requires end == pos + |UnparseExpr(c.lhs) + [K(TkOr)] + UnparseTerm(c.rhs)|
    requires Reads(st, pos, UnparseExpr(c.lhs) + [K(TkOr)] + UnparseTerm(c.rhs))
    requires Live(st, end) && Peek(st, end).kind != TkAnd
    ensures ParseConditionExpression(st, pos) == OrChain(st, c, end)
    decreases c, 0
  {
    var a := UnparseExpr(c.lhs);
    var b := UnparseTerm(c.rhs);
    var q := pos + |a|;
    InfixTokens(st, pos, a, TkOr, b, q);
    ExpressionPrefix(st, pos, c.lhs, q);
    TermPrefix(st, q + 1, c.rhs, end);
    AndChainStop(st, c.rhs, end);
    OrChainStep(st, c.lhs, q, c.rhs, end);
  }

  /** Reading the tokens of `c` leaves the AND loop of parse_condition_term with
      `c` as its node. */
  lemma {:induction false} TermPrefix(st: Stream, pos: nat, c: Node, end: nat)
    requires ConditionShape(c) && end == pos + |UnparseTerm(c)| && Reads(st, pos, UnparseTerm(c))
    requires Live(st, end)
    ensures ParseConditionTerm(st, pos) == AndChain(st, c, end)
    decreases c, if c.Or? then 8 else 4
  {
    if c.And? {
      AndPrefix(st, pos, c, end);
    } else {
      FactorRoundTrip(st, pos, c, end);
    }
  }

  lemma {:induction false} AndPrefix(st: Stream, pos: nat, c: Node, end: nat)
    requires ConditionShape(c) && c.And?
    requires end == pos + |UnparseTerm(c.lhs) + [K(TkAnd)] + UnparseFactor(c.rhs)|
    requires Reads(st, pos, UnparseTerm(c.lhs) + [K(TkAnd)] + UnparseFactor(c.rhs))
    requires Live(st, end)
    ensures ParseConditionTerm(st, pos) == AndChain(st, c, end)
    decreases c, 2
  {
    var a := UnparseTerm(c.lhs);
    var b := UnparseFactor(c.rhs);
    var q := pos + |a|;
    InfixTokens(st, pos, a, TkAnd, b, q);
    TermPrefix(st, pos, c.lhs, q);
    AndRest(st, pos, c, q, end);
  }

  /** The factor after `かつ` once the left operand has been read. */
  lemma {:induction false} AndRest(st: Stream, pos: nat, c: Node, q: nat, end: nat)
    requires ConditionShape(c) && c.And? && q < |st.toks|
    requires ParseConditionTerm(st, pos) == AndChain(st, c.lhs, q)
    requires Peek(st, q).kind == TkAnd && Next(st, q) == Ok(q + 1)
    requires end == q + 1 + |UnparseFactor(c.rhs)| && Reads(st, q + 1, UnparseFactor(c.rhs))
    requires Live(st, end)
    ensures ParseConditionTerm(st, pos) == AndChain(st, c, end)
    decreases c, 0
  {
    FactorRoundTrip(st, q + 1, c.rhs, end);
    AndChainStep(st, c.lhs, q, c.rhs, end);
  }

  /** Where the parts of a parenthesised condition sit. */
  lemma ParenTokens(st: Stream, pos: nat, e: seq<Token>, q: nat)
    requires q == pos + 1 + |e|
    requires Reads(st, pos, [K(TkLPar)] + e + [K(TkRPar)]) && Live(st, q + 1)
    ensures Peek(st, pos).kind == TkLPar && Next(st, pos) == Ok(pos + 1)
    ensures Reads(st, pos + 1, e) && Live(st, q)
    ensures Peek(st, q).kind == TkRPar && Next(st, q) == Ok(q + 1)
  {
    ReadsSplit(st, pos, [K(TkLPar)] + e, [K(TkRPar)]);
    ReadsSplit(st, pos, [K(TkLPar)], e);
    ReadsAt(st, pos, [K(TkLPar)], 0);
    ReadsAt(st, pos + 1 + |e|, [K(TkRPar)], 0);
  }

  /** A parenthesised factor. */
  lemma FactorParen(st: Stream, pos: nat, c: Node, q: nat)
    requires Peek(st, pos).kind == TkLPar && Next(st, pos) == Ok(pos + 1)
    requires ParseConditionExpression(st, pos + 1) == Ok((c, q))
    requires Peek(st, q).kind == TkRPar && Next(st, q) == Ok(q + 1)
    ensures ParseConditionFactor(st, pos) == Ok((c, q + 1))
  {
  }

  lemma {:induction false} FactorRoundTrip(st: Stream, pos: nat, c: Node, end: nat)
    requires ConditionShape(c) && end == pos + |UnparseFactor(c)| && Reads(st, pos, UnparseFactor(c))
    requires Live(st, end)
    ensures ParseConditionFactor(st, pos) == Ok((c, end))
    decreases c, if c.Or? then 6 else if c.And? then 10 else 0
  {
    if c.And? || c.Or? {
      ParenRoundTrip(st, pos, c, end);
    } else {
      SimpleConditionRoundTrip(st, pos, c);
      ReadsAt(st, pos, UnparseSimple(c), 0);
    }
  }

  lemma {:induction false} ParenRoundTrip(st: Stream, pos: nat, c: Node, end: nat)
    requires ConditionShape(c) && (c.And? || c.Or?)
    requires end == pos + |UnparseExpr(c)| + 2 && Reads(st, pos, [K(TkLPar)] + UnparseExpr(c) + [K(TkRPar)])
    requires Live(st, end)
    ensures ParseConditionFactor(st, pos) == Ok((c, end))
    decreases c, if c.Or? then 4 else 8
  {
    var e := UnparseExpr(c);
    var q := pos + 1 + |e|;
    ParenTokens(st, pos, e, q);
    ConditionRoundTrip(st, pos + 1, c, q);
    FactorParen(st, pos, c, q);
  }

  /** A condition is read back whole when the token after it continues neither
      an AND nor an OR. */
  lemma ConditionRoundTrip(st: Stream, pos: nat, c: Node, end: nat)
    requires ConditionShape(c) && end == pos + |UnparseExpr(c)| && Reads(st, pos, UnparseExpr(c))
    requires Live(st, end) && Peek(st, end).kind !in {TkAnd, TkOr}
    ensures ParseConditionExpression(st, pos) == Ok((c, end))
    decreases c, if c.Or? then 3 else 7
  {
    ExpressionPrefix(st, pos, c, end);
    OrChainStop(st, c, end);
  }

  /** A simple condition is a condition, spelled the same at every level. */
  lemma SimpleSpelling(c: Node)
    requires SimpleConditionShape(c)
    ensures ConditionShape(c)
    ensures UnparseExpr(c) == UnparseTerm(c) == UnparseFactor(c) == UnparseSimple(c)
  {
  }

  /** AND binds tighter than OR: `a または b かつ c` is read as `a または (b かつ c)`. */
  lemma AndBindsTighter(st: Stream, pos: nat, a: Node, b: Node, c: Node, end: nat)
    requires SimpleConditionShape(a) && SimpleConditionShape(b) && SimpleConditionShape(c)
    requires Reads(st, pos, UnparseSimple(a) + [K(TkOr)] + UnparseSimple(b) + [K(TkAnd)] + UnparseSimple(c))
    requires end == pos + |UnparseSimple(a)| + |UnparseSimple(b)| + |UnparseSimple(c)| + 2
    requires Live(st, end) && Peek(st, end).kind !in {TkAnd, TkOr}
    ensures ParseConditionExpression(st, pos) == Ok((Or(a, And(b, c)), end))
  {
    var x, y, z := UnparseSimple(a), UnparseSimple(b), UnparseSimple(c);
    SimpleSpelling(a);
    SimpleSpelling(b);
    SimpleSpelling(c);
    assert ConditionShape(And(b, c)) && UnparseTerm(And(b, c)) == y + [K(TkAnd)] + z;
    assert UnparseExpr(Or(a, And(b, c))) == x + [K(TkOr)] + (y + [K(TkAnd)] + z);
    AppendAssoc(x + [K(TkOr)], y + [K(TkAnd)], z);
    AppendAssoc(x + [K(TkOr)], y, [K(TkAnd)]);
    ConditionRoundTrip(st, pos, Or(a, And(b, c)), end);
  }

  /** OR groups to the left: `a または b または c` is read as `(a または b) または c`. */
  lemma OrGroupsLeft(st: Stream, pos: nat, a: Node, b: Node, c: Node, end: nat)
    requires SimpleConditionShape(a) && SimpleConditionShape(b) && SimpleConditionShape(c)
    requires Reads(st, pos, UnparseSimple(a) + [K(TkOr)] + UnparseSimple(b) + [K(TkOr)] + UnparseSimple(c))
    requires end == pos + |UnparseSimple(a)| + |UnparseSimple(b)| + |UnparseSimple(c)| + 2
    requires Live(st, end) && Peek(st, end).kind !in {TkAnd, TkOr}
    ensures ParseConditionExpression(st, pos) == Ok((Or(Or(a, b), c), end))
  {
    var x, y, z := UnparseSimple(a), UnparseSimple(b), UnparseSimple(c);
    SimpleSpelling(a);
    SimpleSpelling(b);
    SimpleSpelling(c);
    assert ConditionShape(Or(a, b)) && UnparseExpr(Or(a, b)) == x + [K(TkOr)] + y;
    assert UnparseExpr(Or(Or(a, b), c)) == x + [K(TkOr)] + y + [K(TkOr)] + z;
    ConditionRoundTrip(st, pos, Or(Or(a, b), c), end);
  }

  // ---------------------------------------------------------------------------
  // Reading statements back

  /** Where the parts of `a <op>` sit. */
  lemma ThenTokens(st: Stream, pos: nat, a: seq<Token>, op: TokenType, q: nat, e: nat)
    requires q == pos + |a| && e == q + 1
    requires Reads(st, pos, a + [K(op)]) && Live(st, e)
    ensures Reads(st, pos, a) && Live(st, q)
    ensures Peek(st, q).kind == op && Expect(st, q, op) == Ok(e)
  {
    ReadsSplit(st, pos, a, [K(op)]);
    ReadsAt(st, q, [K(op)], 0);
  }

  /** Where the parts of `<op> b` sit. */
  lemma LeadTokens(st: Stream, pos: nat, op: TokenType, b: seq<Token>)
    requires Reads(st, pos, [K(op)] + b) && Live(st, pos + 1 + |b|)
    ensures Reads(st, pos + 1, b) && Live(st, pos + 1)
    ensures Peek(st, pos).kind == op && Next(st, pos) == Ok(pos + 1)
  {
    ReadsSplit(st, pos, [K(op)], b);
    ReadsAt(st, pos, [K(op)], 0);
  }

  /** Every statement starts with a literal, a variable, a loop or an if. */
  lemma StatementStart(s: Node)
    requires StatementShape(s)
    ensures |UnparseStatement(s)| > 0
    ensures UnparseStatement(s)[0].kind in {TkLiteral, TkPrintLit, TkVariable, TkLoop, TkIf}
  {
  }

  lemma OutputRoundTrip(st: Stream, pos: nat, lhs: Node, t: Token, end: nat)
    requires lhs.Literal? || (lhs.StrLit? && lhs.args == [])
    requires t == (if lhs.Literal? then Token(TkLiteral, lhs.text) else Token(TkPrintLit, lhs.strVal))
    requires end == pos + 2 && Reads(st, pos, [t, K(TkOutput)]) && Live(st, end)
    ensures ParseSimpleStatement(st, pos) == Ok((Output(lhs), end))
  {
    ReadsAt(st, pos, [t, K(TkOutput)], 0);
    ReadsAt(st, pos, [t, K(TkOutput)], 1);
  }

  /** `<variable> を <value> 宣言／割る`. */
  lemma WoRoundTrip(st: Stream, pos: nat, name: seq<Byte>, v: Node, op: TokenType, end: nat)
    requires ValueShape(v) && (op == TkDeclare || op == TkDiv)
    requires end == pos + 4 && Reads(st, pos, Phrase(name, TkWo, v, op)) && Live(st, end)
    ensures ParseSimpleStatement(st, pos)
         == Ok((if op == TkDeclare then Declare(Var(name, 0), v) else Div(Var(name, 0), v), end))
  {
    PhraseTokens(st, pos, name, TkWo, v, op);
    assert ParseSimpleStatement(st, pos) == ParseWoStatement(st, Var(name, 0), pos + 2);
  }

  /** `<variable> に <value> 代入／足す／掛ける`. */
  lemma NiRoundTrip(st: Stream, pos: nat, name: seq<Byte>, v: Node, op: TokenType, end: nat)
    requires ValueShape(v) && (op == TkAssign || op == TkAdd || op == TkMul)
    requires end == pos + 4 && Reads(st, pos, Phrase(name, TkNi, v, op)) && Live(st, end)
    ensures ParseSimpleStatement(st, pos)
         == Ok((if op == TkAssign then Assign(Var(name, 0), v)
                else if op == TkAdd then Add(Var(name, 0), v)
                else Mul(Var(name, 0), v), end))
  {
    PhraseTokens(st, pos, name, TkNi, v, op);
    assert ParseSimpleStatement(st, pos) == ParseNiStatement(st, Var(name, 0), pos + 2);
  }

  /** `<variable> に 入力`. */
  lemma InputRoundTrip(st: Stream, pos: nat, name: seq<Byte>, end: nat)
    requires end == pos + 3 && Reads(st, pos, [Token(TkVariable, name), K(TkNi), K(TkInput)]) && Live(st, end)
    ensures ParseSimpleStatement(st, pos) == Ok((Input(Var(name, 0)), end))
  {
    var u := [Token(TkVariable, name), K(TkNi), K(TkInput)];
    ReadsAt(st, pos, u, 0);
    ReadsAt(st, pos, u, 1);
    ReadsAt(st, pos, u, 2);
    assert ParseSimpleStatement(st, pos) == ParseNiStatement(st, Var(name, 0), pos + 2);
  }

  /** `<variable> から <value> 引く`. */
  lemma KaraRoundTrip(st: Stream, pos: nat, name: seq<Byte>, v: Node, end: nat)
    requires ValueShape(v) && end == pos + 4 && Reads(st, pos, Phrase(name, TkKara, v, TkSub)) && Live(st, end)
    ensures ParseSimpleStatement(st, pos) == Ok((Sub(Var(name, 0), v), end))
  {
    PhraseTokens(st, pos, name, TkKara, v, TkSub);
  }

  lemma SimpleStatementRoundTrip(st: Stream, pos: nat, s: Node, end: nat)
    requires StatementShape(s) && !s.Loop? && !s.If? && end == pos + |UnparseSimpleStatement(s)|
    requires Reads(st, pos, UnparseSimpleStatement(s)) && Live(st, end)
    ensures ParseSimpleStatement(st, pos) == Ok((s, end))
  {
    if s.Output? {
      OutputRoundTrip(st, pos, s.lhs, UnparseSimpleStatement(s)[0], end);
    } else if s.Declare? || s.Div? {
      WoRoundTrip(st, pos, s.lhs.name, s.rhs, if s.Declare? then TkDeclare else TkDiv, end);
    } else if s.Input? {
      InputRoundTrip(st, pos, s.lhs.name, end);
    } else if s.Sub? {
      KaraRoundTrip(st, pos, s.lhs.name, s.rhs, end);
    } else {
      NiRoundTrip(st, pos, s.lhs.name, s.rhs, if s.Assign? then TkAssign else if s.Add? then TkAdd else TkMul, end);
    }
  }

  lemma StatementListStop(st: Stream, acc: seq<Node>, pos: nat)
    requires StatementsShape(acc) && pos <= |st.toks| && Peek(st, pos).kind in {TkRBrace, TkEof}
    ensures StatementList(st, acc, pos) == Ok((acc, pos))
  {
  }

  lemma StatementListStep(st: Stream, acc: seq<Node>, pos: nat, s: Node, p: nat)
    requires StatementsShape(acc) && pos <= |st.toks| && Peek(st, pos).kind !in {TkRBrace, TkEof}
    requires ParseStatement(st, pos) == Ok((s, p)) && StatementsShape(acc + [s])
    ensures StatementList(st, acc, pos) == StatementList(st, acc + [s], p)
  {
  }

  lemma ElseIfArmsStop(st: Stream, arms: seq<(Node, seq<Node>)>, pos: nat)
    requires ArmsShape(arms) && pos <= |st.toks| && Peek(st, pos).kind != TkElseIf
    ensures ElseIfArms(st, arms, pos) == Ok((arms, pos))
  {
  }

  lemma ElseIfArmsStep(st: Stream, arms: seq<(Node, seq<Node>)>, pos: nat, g: (Node, seq<Node>), p: nat)
    requires ArmsShape(arms) && pos <= |st.toks|
    requires Peek(st, pos).kind == TkElseIf && Next(st, pos) == Ok(pos + 1)
    requires ParseGuardedBody(st, pos + 1) == Ok((g, p)) && ArmsShape(arms + [g])
    ensures ElseIfArms(st, arms, pos) == ElseIfArms(st, arms + [g], p)
  {
  }

  /** The six steps of `（ <condition> ）｛ <statements> ｝`. */
  lemma GuardedStep(st: Stream, pos: nat, c: Node, e: nat, body: seq<Node>, f: nat, end: nat)
    requires Expect(st, pos, TkLPar) == Ok(pos + 1)
    requires ParseConditionExpression(st, pos + 1) == Ok((c, e))
    requires Expect(st, e, TkRPar) == Ok(e + 1) && Expect(st, e + 1, TkLBrace) == Ok(e + 2)
    requires e + 2 <= |st.toks| && StatementList(st, [], e + 2) == Ok((body, f))
    requires Expect(st, f, TkRBrace) == Ok(end)
    ensures ParseGuardedBody(st, pos) == Ok(((c, body), end))
  {
  }

  lemma {:induction false} StatementRoundTrip(st: Stream, pos: nat, s: Node, end: nat)
    requires StatementShape(s) && end == pos + |UnparseStatement(s)| && Reads(st, pos, UnparseStatement(s))
    requires Live(st, end) && Peek(st, end).kind !in {TkElseIf, TkElse}
    ensures ParseStatement(st, pos) == Ok((s, end))
    decreases s, 2
  {
    if s.Loop? {
      LoopRoundTrip(st, pos, s, end);
    } else if s.If? {
      IfRoundTrip(st, pos, s, end);
    } else {
      SimpleRoundTrip(st, pos, s, end);
    }
  }

  lemma SimpleRoundTrip(st: Stream, pos: nat, s: Node, end: nat)
    requires StatementShape(s) && !s.Loop? && !s.If?
    requires end == pos + |UnparseStatement(s)| && Reads(st, pos, UnparseStatement(s)) && Live(st, end)
    ensures ParseStatement(st, pos) == Ok((s, end))
  {
    SimpleStart(s);
    var a := UnparseSimpleStatement(s);
    var q := pos + |a|;
    PeriodRoundTrip(st, pos, s, a, q, end);
    PeriodStep(st, pos, s, q, end);
  }

  /** A simple statement is spelled with its closing 。, and starts with a
      literal, a print literal or a variable. */
  lemma SimpleStart(s: Node)
    requires StatementShape(s) && !s.Loop? && !s.If?
    ensures UnparseStatement(s) == UnparseSimpleStatement(s) + [K(TkPeriod)]
    ensures |UnparseSimpleStatement(s)| > 0
    ensures UnparseSimpleStatement(s)[0].kind in {TkLiteral, TkPrintLit, TkVariable}
  {
  }

  /** The parts of a simple statement spelled `a` and its closing 。. */
  lemma PeriodRoundTrip(st: Stream, pos: nat, s: Node, a: seq<Token>, q: nat, end: nat)
    requires StatementShape(s) && !s.Loop? && !s.If? && a == UnparseSimpleStatement(s)
    requires a != [] && a[0].kind in {TkLiteral, TkPrintLit, TkVariable}
    requires q == pos + |a| && end == q + 1 && Reads(st, pos, a + [K(TkPeriod)]) && Live(st, end)
    ensures Peek(st, pos).kind !in {TkLoop, TkIf}
    ensures ParseSimpleStatement(st, pos) == Ok((s, q)) && Expect(st, q, TkPeriod) == Ok(end)
  {
    ThenTokens(st, pos, a, TkPeriod, q, end);
    SimpleStatementRoundTrip(st, pos, s, q);
    ReadsAt(st, pos, a, 0);
  }

  /** The simple-statement branch of parse_statement. */
  lemma PeriodStep(st: Stream, pos: nat, s: Node, q: nat, end: nat)
    requires Peek(st, pos).kind !in {TkLoop, TkIf}
    requires ParseSimpleStatement(st, pos) == Ok((s, q)) && Expect(st, q, TkPeriod) == Ok(end)
    ensures ParseStatement(st, pos) == Ok((s, end))
  {
    var r := ParseSimpleStatement(st, pos);
    assert !r.IsFailure() && r.Extract() == (s, q);
    var e := Expect(st, q, TkPeriod);
    assert !e.IsFailure() && e.Extract() == end;
  }

  lemma {:induction false} LoopRoundTrip(st: Stream, pos: nat, s: Node, end: nat)
    requires StatementShape(s) && s.Loop? && end == pos + |UnparseStatement(s)|
    requires Reads(st, pos, UnparseStatement(s)) && Live(st, end)
    ensures ParseStatement(st, pos) == Ok((s, end))
    decreases s, 1
  {
    LeadTokens(st, pos, TkLoop, UnparseGuarded(s.cond, s.body));
    GuardedRoundTrip(st, pos + 1, s.cond, s.body, end);
  }

  /** The steps of an if statement: its guarded body, its else-if arms, its else. */
  lemma IfStep(st: Stream, pos: nat, c: Node, body: seq<Node>, q: nat,
               arms: seq<(Node, seq<Node>)>, r: nat, last: seq<Node>, end: nat)
    requires ArmsShape(arms) && StatementsShape(last) && q <= |st.toks|
    requires Peek(st, pos).kind == TkIf && Next(st, pos) == Ok(pos + 1)
    requires ParseGuardedBody(st, pos + 1) == Ok(((c, body), q))
    requires ElseIfArms(st, [], q) == Ok((arms, r)) && ElsePart(st, r) == Ok((last, end))
    ensures ParseStatement(st, pos) == Ok((If(c, body, Chain(arms, last)), end))
  {
  }

  lemma {:induction false} IfRoundTrip(st: Stream, pos: nat, s: Node, end: nat)
    requires StatementShape(s) && s.If? && end == pos + |UnparseStatement(s)|
    requires Reads(st, pos, UnparseStatement(s))
    requires Live(st, end) && Peek(st, end).kind !in {TkElseIf, TkElse}
    ensures ParseStatement(st, pos) == Ok((s, end))
    decreases s, 1
  {
    var g := UnparseGuarded(s.cond, s.body);
    var u := UnparseElse(s.els);
    var q := pos + 1 + |g|;
    assert UnparseStatement(s) == [K(TkIf)] + g + u;
    IfTokens(st, pos, g, u, q);
    GuardedRoundTrip(st, pos + 1, s.cond, s.body, q);
    IfRest(st, pos, s, q, end);
  }

  /** The else-if arms and else part after an if's guarded body that has been read. */
  lemma {:induction false} IfRest(st: Stream, pos: nat, s: Node, q: nat, end: nat)
    requires StatementShape(s) && s.If? && q <= |st.toks|
    requires Peek(st, pos).kind == TkIf && Next(st, pos) == Ok(pos + 1)
    requires ParseGuardedBody(st, pos + 1) == Ok(((s.cond, s.body), q))
    requires end == q + |UnparseElse(s.els)| && Reads(st, q, UnparseElse(s.els))
    requires Live(st, end) && Peek(st, end).kind !in {TkElseIf, TkElse}
    ensures ParseStatement(st, pos) == Ok((s, end))
    decreases s, 0
  {
    var r := ElseRoundTrip(st, q, s.els, [], end);
    ChainParts(s.els);
    AppendNil(ArmsOf(s.els));
    IfStep(st, pos, s.cond, s.body, q, ArmsOf(s.els), r, LastOf(s.els), end);
  }

  /** Where the parts of `もし g u` sit. */
  lemma IfTokens(st: Stream, pos: nat, g: seq<Token>, u: seq<Token>, q: nat)
    requires q == pos + 1 + |g|
    requires Reads(st, pos, [K(TkIf)] + g + u) && Live(st, q + |u|)
    ensures Peek(st, pos).kind == TkIf && Next(st, pos) == Ok(pos + 1)
    ensures Reads(st, pos + 1, g) && Reads(st, q, u) && Live(st, q)
  {
    ReadsSplit(st, pos, [K(TkIf)] + g, u);
    LeadTokens(st, pos, TkIf, g);
  }

  /** Where the parts of `（ e ）｛ b ｝` sit: it starts at `pos`, the `）` is at `q`,
      the `｝` at `f`, and `end` follows it. */
  predicate GuardedAt(st: Stream, pos: nat, e: seq<Token>, b: seq<Token>, q: nat, f: nat, end: nat) {
    q == pos + 1 + |e| && end == f + 1
    && Expect(st, pos, TkLPar) == Ok(pos + 1)
    && Reads(st, pos + 1, e) && Live(st, q) && Peek(st, q).kind == TkRPar
    && Expect(st, q, TkRPar) == Ok(q + 1) && Expect(st, q + 1, TkLBrace) == Ok(q + 2)
    && ListAt(st, q + 2, b, f)
    && Expect(st, f, TkRBrace) == Ok(end)
  }

  /** The tokens `b` of a statement list sit at `p`, and ｝ right after them. */
  predicate ListAt(st: Stream, p: nat, b: seq<Token>, f: nat) {
    f == p + |b| && Reads(st, p, b) && Live(st, f) && Peek(st, f).kind == TkRBrace
  }

  lemma GuardedTokens(st: Stream, pos: nat, e: seq<Token>, b: seq<Token>, q: nat, f: nat, end: nat)
    requires q == pos + 1 + |e| && f == q + 2 + |b| && end == f + 1
    requires Reads(st, pos, [K(TkLPar)] + e + [K(TkRPar), K(TkLBrace)] + b + [K(TkRBrace)])
    requires Live(st, end)
    ensures GuardedAt(st, pos, e, b, q, f, end)
  {
    ThenTokens(st, pos, [K(TkLPar)] + e + [K(TkRPar), K(TkLBrace)] + b, TkRBrace, f, end);
    ReadsSplit(st, pos, [K(TkLPar)] + e + [K(TkRPar), K(TkLBrace)], b);
    GuardedHead(st, pos, e, q);
  }

  /** Where the parts of `（ e ）｛` sit. */
  lemma GuardedHead(st: Stream, pos: nat, e: seq<Token>, q: nat)
    requires q == pos + 1 + |e|
    requires Reads(st, pos, [K(TkLPar)] + e + [K(TkRPar), K(TkLBrace)]) && Live(st, q + 2)
    ensures Expect(st, pos, TkLPar) == Ok(pos + 1)
    ensures Reads(st, pos + 1, e) && Live(st, q) && Peek(st, q).kind == TkRPar
    ensures Expect(st, q, TkRPar) == Ok(q + 1) && Expect(st, q + 1, TkLBrace) == Ok(q + 2)
  {
    ReadsSplit(st, pos, [K(TkLPar)] + e, [K(TkRPar), K(TkLBrace)]);
    LeadTokens(st, pos, TkLPar, e);
    ReadsAt(st, q, [K(TkRPar), K(TkLBrace)], 0);
    ReadsAt(st, q, [K(TkRPar), K(TkLBrace)], 1);
  }

  lemma {:induction false} GuardedRoundTrip(st: Stream, pos: nat, c: Node, body: seq<Node>, end: nat)
    requires ConditionShape(c) && StatementsShape(body)
    requires end == pos + |UnparseGuarded(c, body)| && Reads(st, pos, UnparseGuarded(c, body))
    requires Live(st, end)
    ensures ParseGuardedBody(st, pos) == Ok(((c, body), end))
    decreases body, 5
  {
    var e := UnparseExpr(c);
    var b := UnparseStatements(body);
    assert UnparseGuarded(c, body) == [K(TkLPar)] + e + [K(TkRPar), K(TkLBrace)] + b + [K(TkRBrace)];
    var q := pos + 1 + |e|;
    var f := q + 2 + |b|;
    GuardedTokens(st, pos, e, b, q, f, end);
    GuardedParts(st, pos, c, body, q, f, end);
    GuardedStep(st, pos, c, q, body, f, end);
  }

  /** The condition and the statements of `（ c ）｛ body ｝` parse back. */
  lemma {:induction false} GuardedParts(st: Stream, pos: nat, c: Node, body: seq<Node>, q: nat, f: nat, end: nat)
    requires ConditionShape(c) && StatementsShape(body)
    requires GuardedAt(st, pos, UnparseExpr(c), UnparseStatements(body), q, f, end)
    ensures ParseConditionExpression(st, pos + 1) == Ok((c, q))
    ensures q + 2 <= |st.toks| && StatementList(st, [], q + 2) == Ok((body, f))
    decreases body, 4
  {
    BracedStatements(st, q + 2, body, f);
    GuardedCondition(st, pos, c, body, q, f, end);
  }

  lemma GuardedCondition(st: Stream, pos: nat, c: Node, body: seq<Node>, q: nat, f: nat, end: nat)
    requires ConditionShape(c) && StatementsShape(body)
    requires GuardedAt(st, pos, UnparseExpr(c), UnparseStatements(body), q, f, end)
    ensures ParseConditionExpression(st, pos + 1) == Ok((c, q))
  {
    ConditionRoundTrip(st, pos + 1, c, q);
  }

  /** The statements between `｛` and `｝` parse back as one list. */
  lemma {:induction false} BracedStatements(st: Stream, p: nat, body: seq<Node>, f: nat)
    requires StatementsShape(body) && ListAt(st, p, UnparseStatements(body), f)
    ensures p <= |st.toks| && StatementList(st, [], p) == Ok((body, f))
    decreases body, 3
  {
    StatementsRoundTrip(st, p, body, [], f);
    AppendNil(body);
  }

  /** The token at the start of a statement list's tokens: a statement's first
      token, or the one after the list. */
  lemma StatementsStart(st: Stream, pos: nat, ss: seq<Node>, end: nat)
    requires StatementsShape(ss) && end == pos + |UnparseStatements(ss)| && Reads(st, pos, UnparseStatements(ss))
    requires Peek(st, end).kind in {TkRBrace, TkEof}
    ensures ss != [] ==> Peek(st, pos).kind in {TkLiteral, TkPrintLit, TkVariable, TkLoop, TkIf}
    ensures ss == [] ==> Peek(st, pos).kind in {TkRBrace, TkEof}
    ensures ss != [] ==> Peek(st, pos).kind !in {TkRBrace, TkEof}
    ensures Peek(st, pos).kind !in {TkElseIf, TkElse}
  {
    if ss != [] {
      StatementStart(ss[0]);
      ReadsSplit(st, pos, UnparseStatement(ss[0]), UnparseStatements(ss[1..]));
      ReadsAt(st, pos, UnparseStatement(ss[0]), 0);
    }
  }

  lemma {:induction false} StatementsRoundTrip(st: Stream, pos: nat, ss: seq<Node>, acc: seq<Node>, end: nat)
    requires StatementsShape(ss) && StatementsShape(acc)
    requires end == pos + |UnparseStatements(ss)| && Reads(st, pos, UnparseStatements(ss))
    requires Live(st, end) && Peek(st, end).kind in {TkRBrace, TkEof}
    ensures StatementList(st, acc, pos) == Ok((acc + ss, end))
    decreases ss, 2
  {
    if ss == [] {
      StatementsStart(st, pos, ss, end);
      StatementListStop(st, acc, pos);
      AppendNil(acc);
    } else {
      StatementsParts(ss);
      var s, rest := ss[0], ss[1..];
      var mid := pos + |UnparseStatement(s)|;
      assert end == mid + |UnparseStatements(rest)|;
      PairTokens(st, pos, UnparseStatement(s), UnparseStatements(rest), mid);
      StatementsConsPeek(st, pos, s, rest, mid, end);
      StatementsConsRoundTrip(st, pos, ss, s, rest, acc, mid, end);
      ConsSplit(ss);
      AppendAssoc(acc, [ss[0]], ss[1..]);
    }
  }

  /** A statement `s` followed by the statements `rest`. */
  lemma {:induction false} StatementsConsRoundTrip(st: Stream, pos: nat, ss: seq<Node>, s: Node, rest: seq<Node>,
                                                   acc: seq<Node>, mid: nat, end: nat)
    requires ss != [] && s == ss[0] && rest == ss[1..]
    requires StatementShape(s) && StatementsShape(rest) && StatementsShape(acc)
    requires mid == pos + |UnparseStatement(s)| && Reads(st, pos, UnparseStatement(s))
    requires Live(st, mid) && Peek(st, mid).kind !in {TkElseIf, TkElse}
    requires pos <= |st.toks| && Peek(st, pos).kind !in {TkRBrace, TkEof}
    requires end == mid + |UnparseStatements(rest)| && Reads(st, mid, UnparseStatements(rest))
    requires Live(st, end) && Peek(st, end).kind in {TkRBrace, TkEof}
    ensures StatementList(st, acc, pos) == Ok((acc + [s] + rest, end))
    decreases ss, 1
  {
    StatementRoundTrip(st, pos, s, mid);
    StatementsShapeAppend(acc, s);
    StatementsRoundTrip(st, mid, rest, acc + [s], end);
    StatementsCombine(st, acc, pos, s, mid, rest, end);
  }

  /** A non-empty list is spelled as its first statement followed by the rest. */
  lemma StatementsParts(ss: seq<Node>)
    requires StatementsShape(ss) && ss != []
    ensures StatementShape(ss[0]) && StatementsShape(ss[1..])
    ensures UnparseStatements(ss) == UnparseStatement(ss[0]) + UnparseStatements(ss[1..])
  {
  }

  /** The first token of a statement and the token after it. */
  lemma StatementsConsPeek(st: Stream, pos: nat, s: Node, rest: seq<Node>, mid: nat, end: nat)
    requires StatementShape(s) && StatementsShape(rest)
    requires Reads(st, pos, UnparseStatement(s)) && mid == pos + |UnparseStatement(s)|
    requires end == mid + |UnparseStatements(rest)| && Reads(st, mid, UnparseStatements(rest))
    requires Peek(st, end).kind in {TkRBrace, TkEof}
    ensures pos <= |st.toks| && Peek(st, pos).kind !in {TkRBrace, TkEof}
    ensures Peek(st, mid).kind !in {TkElseIf, TkElse}
  {
    StatementStart(s);
    ReadsAt(st, pos, UnparseStatement(s), 0);
    StatementsStart(st, mid, rest, end);
  }

  /** Where the parts of `a b` sit. */
  lemma PairTokens(st: Stream, pos: nat, a: seq<Token>, b: seq<Token>, m: nat)
    requires m == pos + |a| && Reads(st, pos, a + b) && Live(st, m + |b|)
    ensures Reads(st, pos, a) && Reads(st, m, b) && Live(st, m)
  {
    ReadsSplit(st, pos, a, b);
  }

  /** One statement followed by the statements after it. */
  lemma StatementsCombine(st: Stream, acc: seq<Node>, pos: nat, s: Node, mid: nat, rest: seq<Node>, end: nat)
    requires StatementsShape(acc) && StatementsShape(acc + [s]) && pos <= |st.toks| && mid <= |st.toks|
    requires Peek(st, pos).kind !in {TkRBrace, TkEof} && ParseStatement(st, pos) == Ok((s, mid))
    requires StatementList(st, acc + [s], mid) == Ok((acc + [s] + rest, end))
    ensures StatementList(st, acc, pos) == Ok((acc + [s] + rest, end))
  {
    StatementListStep(st, acc, pos, s, mid);
  }

  lemma {:induction false} ElseRoundTrip(st: Stream, pos: nat, els: seq<Node>, acc: seq<(Node, seq<Node>)>, end: nat)
    returns (r: nat)
    requires ElseShape(els) && ArmsShape(acc)
    requires end == pos + |UnparseElse(els)| && Reads(st, pos, UnparseElse(els))
    requires Live(st, end) && Peek(st, end).kind !in {TkElseIf, TkElse}
    ensures ElseIfArms(st, acc, pos) == Ok((acc + ArmsOf(els), r))
    ensures ElsePart(st, r) == Ok((LastOf(els), end))
    decreases els, 6
  {
    if |els| == 1 && els[0].ElseIf? {
      ArmParts(els);
      r := ElseArmRoundTrip(st, pos, els, els[0].cond, els[0].body, els[0].els, acc, end);
    } else if els == [] {
      ElseIfArmsStop(st, acc, pos);
      AppendNil(acc);
      r := pos;
    } else {
      r := ElseBodyRoundTrip(st, pos, els, acc, end);
    }
  }

  /** An else-if arm `[ElseIf(c, body, rest)]`, given by its parts. */
  lemma {:induction false} ElseArmRoundTrip(st: Stream, pos: nat, els: seq<Node>, c: Node, body: seq<Node>, rest: seq<Node>,
                                            acc: seq<(Node, seq<Node>)>, end: nat)
    returns (r: nat)
    requires els == [ElseIf(c, body, rest)]
    requires ConditionShape(c) && StatementsShape(body) && ElseShape(rest) && ArmsShape(acc)
    requires end == pos + 1 + |UnparseGuarded(c, body)| + |UnparseElse(rest)|
    requires Reads(st, pos, [K(TkElseIf)] + UnparseGuarded(c, body) + UnparseElse(rest))
    requires Live(st, end) && Peek(st, end).kind !in {TkElseIf, TkElse}
    ensures ElseIfArms(st, acc, pos) == Ok((acc + ([(c, body)] + ArmsOf(rest)), r))
    ensures ElsePart(st, r) == Ok((LastOf(rest), end))
    decreases els, 1
  {
    var q := pos + 1 + |UnparseGuarded(c, body)|;
    ElseArmHead(st, pos, els, c, body, rest, q, end);
    r := ElseArmRest(st, pos, els, c, body, rest, acc, q, end);
  }

  /** The keyword and the guarded body of an else-if arm parse back. */
  lemma ElseArmHead(st: Stream, pos: nat, els: seq<Node>, c: Node, body: seq<Node>, rest: seq<Node>, q: nat, end: nat)
    requires els == [ElseIf(c, body, rest)]
    requires ConditionShape(c) && StatementsShape(body) && ElseShape(rest)
    requires q == pos + 1 + |UnparseGuarded(c, body)| && end == q + |UnparseElse(rest)|
    requires Reads(st, pos, [K(TkElseIf)] + UnparseGuarded(c, body) + UnparseElse(rest)) && Live(st, end)
    ensures pos <= |st.toks| && Peek(st, pos).kind == TkElseIf && Next(st, pos) == Ok(pos + 1)
    ensures ParseGuardedBody(st, pos + 1) == Ok(((c, body), q))
    ensures Reads(st, q, UnparseElse(rest))
    decreases els, 0
  {
    assert els[0] == ElseIf(c, body, rest);
    ElseIfTokens(st, pos, UnparseGuarded(c, body), UnparseElse(rest), q);
    GuardedRoundTrip(st, pos + 1, c, body, q);
  }

  /** The arms and else part after an else-if arm that has been read. */
  lemma {:induction false} ElseArmRest(st: Stream, pos: nat, els: seq<Node>, c: Node, body: seq<Node>, rest: seq<Node>,
                                       acc: seq<(Node, seq<Node>)>, q: nat, end: nat)
    returns (r: nat)
    requires els == [ElseIf(c, body, rest)]
    requires ConditionShape(c) && StatementsShape(body) && ElseShape(rest) && ArmsShape(acc)
    requires pos <= |st.toks| && Peek(st, pos).kind == TkElseIf && Next(st, pos) == Ok(pos + 1)
    requires ParseGuardedBody(st, pos + 1) == Ok(((c, body), q))
    requires end == q + |UnparseElse(rest)| && Reads(st, q, UnparseElse(rest))
    requires Live(st, end) && Peek(st, end).kind !in {TkElseIf, TkElse}
    ensures ElseIfArms(st, acc, pos) == Ok((acc + ([(c, body)] + ArmsOf(rest)), r))
    ensures ElsePart(st, r) == Ok((LastOf(rest), end))
    decreases els, 0
  {
    assert els[0] == ElseIf(c, body, rest);
    ArmsShapeAppend(acc, (c, body));
    r := ElseRoundTrip(st, q, rest, acc + [(c, body)], end);
    ArmCombine(st, pos, acc, (c, body), q, ArmsOf(rest), r);
  }

  /** An `els` field holding one else-if arm, taken apart. */
  lemma ArmParts(els: seq<Node>)
    requires ElseShape(els) && |els| == 1 && els[0].ElseIf?
    ensures ConditionShape(els[0].cond) && StatementsShape(els[0].body) && ElseShape(els[0].els)
    ensures UnparseElse(els) == [K(TkElseIf)] + UnparseGuarded(els[0].cond, els[0].body) + UnparseElse(els[0].els)
    ensures ArmsOf(els) == [(els[0].cond, els[0].body)] + ArmsOf(els[0].els)
    ensures LastOf(els) == LastOf(els[0].els)
  {
  }

  /** One else-if arm followed by the arms after it. */
  lemma ArmCombine(st: Stream, pos: nat, acc: seq<(Node, seq<Node>)>, g: (Node, seq<Node>), q: nat,
                   tail: seq<(Node, seq<Node>)>, r: nat)
    requires ArmsShape(acc) && ArmsShape(acc + [g]) && pos <= |st.toks| && q <= |st.toks|
    requires Peek(st, pos).kind == TkElseIf && Next(st, pos) == Ok(pos + 1)
    requires ParseGuardedBody(st, pos + 1) == Ok((g, q))
    requires ElseIfArms(st, acc + [g], q) == Ok((acc + [g] + tail, r))
    ensures ElseIfArms(st, acc, pos) == Ok((acc + ([g] + tail), r))
  {
    ElseIfArmsStep(st, acc, pos, g, q);
    AppendAssoc(acc, [g], tail);
  }

  /** Where the parts of `でなければもし g u` sit. */
  lemma ElseIfTokens(st: Stream, pos: nat, g: seq<Token>, u: seq<Token>, q: nat)
    requires q == pos + 1 + |g|
    requires Reads(st, pos, [K(TkElseIf)] + g + u) && Live(st, q + |u|)
    ensures Peek(st, pos).kind == TkElseIf && Next(st, pos) == Ok(pos + 1)
    ensures Reads(st, pos + 1, g) && Reads(st, q, u) && Live(st, q)
  {
    ReadsSplit(st, pos, [K(TkElseIf)] + g, u);
    LeadTokens(st, pos, TkElseIf, g);
  }

  /** The steps of a non-empty else: ではない, ｛, the statements, ｝. */
  lemma ElsePartStep(st: Stream, pos: nat, body: seq<Node>, f: nat, end: nat)
    requires ElseAt(st, pos, f) && pos + 2 <= |st.toks| && end == f + 1
    requires StatementList(st, [], pos + 2) == Ok((body, f))
    ensures ElsePart(st, pos) == Ok((body, end))
  {
  }

  /** ではない and ｛ at `pos`, and the ｝ at `f` that closes the else. */
  predicate ElseAt(st: Stream, pos: nat, f: nat) {
    pos <= |st.toks| && Peek(st, pos).kind == TkElse && Next(st, pos) == Ok(pos + 1)
    && Expect(st, pos + 1, TkLBrace) == Ok(pos + 2) && Expect(st, f, TkRBrace) == Ok(f + 1)
  }

  /** Where the parts of `ではない ｛ b ｝` sit. */
  lemma ElseTokens(st: Stream, pos: nat, b: seq<Token>, f: nat)
    requires f == pos + 2 + |b|
    requires Reads(st, pos, [K(TkElse), K(TkLBrace)] + b + [K(TkRBrace)]) && Live(st, f + 1)
    ensures ElseAt(st, pos, f) && ListAt(st, pos + 2, b, f)
  {
    ThenTokens(st, pos, [K(TkElse), K(TkLBrace)] + b, TkRBrace, f, f + 1);
    ReadsSplit(st, pos, [K(TkElse), K(TkLBrace)], b);
    ReadsAt(st, pos, [K(TkElse), K(TkLBrace)], 0);
    ReadsAt(st, pos, [K(TkElse), K(TkLBrace)], 1);
  }

  lemma {:induction false} ElseBodyRoundTrip(st: Stream, pos: nat, els: seq<Node>, acc: seq<(Node, seq<Node>)>, end: nat)
    returns (r: nat)
    requires ElseShape(els) && ArmsShape(acc) && els != [] && !(|els| == 1 && els[0].ElseIf?)
    requires end == pos + |UnparseElse(els)| && Reads(st, pos, UnparseElse(els))
    requires Live(st, end)
    ensures ElseIfArms(st, acc, pos) == Ok((acc + ArmsOf(els), r))
    ensures ElsePart(st, r) == Ok((LastOf(els), end))
    decreases els, 5
  {
    assert UnparseElse(els) == [K(TkElse), K(TkLBrace)] + UnparseStatements(els) + [K(TkRBrace)];
    ElseBody(st, pos, els, end);
    assert ArmsOf(els) == [] && LastOf(els) == els;
    ElseIfArmsStop(st, acc, pos);
    AppendNil(acc);
    r := pos;
  }

  /** `ではない ｛ els ｝` parses back as the else statements `els`. */
  lemma {:induction false} ElseBody(st: Stream, pos: nat, els: seq<Node>, end: nat)
    requires StatementsShape(els) && els != []
    requires end == pos + 3 + |UnparseStatements(els)|
    requires Reads(st, pos, [K(TkElse), K(TkLBrace)] + UnparseStatements(els) + [K(TkRBrace)])
    requires Live(st, end)
    ensures pos <= |st.toks| && Peek(st, pos).kind == TkElse
    ensures ElsePart(st, pos) == Ok((els, end))
    decreases els, 4
  {
    var b := UnparseStatements(els);
    var f := pos + 2 + |b|;
    ElseTokens(st, pos, b, f);
    BracedStatements(st, pos + 2, els, f);
    ElsePartStep(st, pos, els, f, end);
  }

  /** parse_program reads back every program from any token stream that spells it,
      whatever follows the closing ｝, as long as the token after it can be lexed. */
  lemma ProgramRoundTrip(st: Stream, p: Node)
    requires ProgramShape(p) && Reads(st, 0, UnparseProgram(p))
    requires Live(st, |UnparseProgram(p)|)
    ensures ParseProgram(st) == Ok(p)
  {
    var b := UnparseStatements(p.stmts);
    var f := 2 + |b|;
    ThenTokens(st, 0, [K(TkMain), K(TkLBrace)] + b, TkRBrace, f, f + 1);
    ReadsSplit(st, 0, [K(TkMain), K(TkLBrace)], b);
    ReadsAt(st, 0, [K(TkMain), K(TkLBrace)], 0);
    ReadsAt(st, 0, [K(TkMain), K(TkLBrace)], 1);
    StatementsRoundTrip(st, 2, p.stmts, [], f);
    AppendNil(p.stmts);
  }
}
