/** The other direction of the round trip: what parser.c accepts is spelled by the
    tree it builds. For values, simple conditions and simple statements a successful
    parse has read exactly the spelling of its result, and so has a program whose
    statements are all simple. For conditions and block statements it need not
    have: redundant parentheses and an empty else are read into a tree whose
    spelling is shorter than what was read. */
module Converse {
  import opened Errors
  import opened Utf8
  import opened Tokens
  import opened Ast
  import opened ParseSpec
  import opened RoundTrip

  /** Two spellings side by side spell their concatenation. */
  lemma ReadsJoin(st: Stream, pos: nat, a: seq<Token>, b: seq<Token>)
    requires Reads(st, pos, a) && Reads(st, pos + |a|, b)
    ensures Reads(st, pos, a + b)
  {
    forall i | 0 <= i < |a + b|
      ensures Matches(TokAt(st, pos, i), (a + b)[i])
    {
      if i < |a| {
        assert Matches(TokAt(st, pos, i), a[i]);
      } else {
        assert TokAt(st, pos, i) == TokAt(st, pos + |a|, i - |a|);
        assert Matches(TokAt(st, pos + |a|, i - |a|), b[i - |a|]);
      }
    }
  }

  /** A keyword or symbol of kind `kind` at `pos` spells `K(kind)`. */
  lemma KeywordSpelled(st: Stream, pos: nat, kind: TokenType)
    requires pos < |st.toks| && !Carries(kind) && Peek(st, pos).kind == kind
    ensures Reads(st, pos, [K(kind)])
  {
    assert Matches(TokAt(st, pos, 0), [K(kind)][0]);
  }

  /** A token whose text the parser keeps spells itself. */
  lemma TokenSpelled(st: Stream, pos: nat, t: Token)
    requires pos < |st.toks| && Peek(st, pos) == t
    ensures Reads(st, pos, [t])
  {
    assert Matches(TokAt(st, pos, 0), [t][0]);
  }

  lemma ValueSpelled(st: Stream, pos: nat, v: Node, q: nat)
    requires ParseValue(st, pos) == Ok((v, q))
    ensures q == pos + 1 && Reads(st, pos, UnparseValue(v))
  {
    TokenSpelled(st, pos, UnparseValue(v)[0]);
  }

  /** `<variable> <particle> <value> <operator>` read one token after the other. */
  lemma PhraseSpelled(st: Stream, pos: nat, name: seq<Byte>, particle: TokenType, v: Node, op: TokenType)
    requires !Carries(particle) && !Carries(op) && pos + 4 <= |st.toks|
    requires Peek(st, pos) == Token(TkVariable, name) && Peek(st, pos + 1).kind == particle
    requires ParseValue(st, pos + 2) == Ok((v, pos + 3)) && Peek(st, pos + 3).kind == op
    ensures Reads(st, pos, Phrase(name, particle, v, op))
  {
    TokenSpelled(st, pos, Token(TkVariable, name));
    KeywordSpelled(st, pos + 1, particle);
    ReadsJoin(st, pos, [Token(TkVariable, name)], [K(particle)]);
    ValueSpelled(st, pos + 2, v, pos + 3);
    ReadsJoin(st, pos, [Token(TkVariable, name), K(particle)], UnparseValue(v));
    KeywordSpelled(st, pos + 3, op);
    ReadsJoin(st, pos, [Token(TkVariable, name), K(particle)] + UnparseValue(v), [K(op)]);
  }

  /** A simple condition parse_simple_condition reads is exactly its spelling. */
  lemma SimpleConditionSpelled(st: Stream, pos: nat, c: Node, q: nat)
    requires ParseSimpleCondition(st, pos) == Ok((c, q))
    ensures q == pos + |UnparseSimple(c)| && Reads(st, pos, UnparseSimple(c))
  {
    SimpleConditionRead(st, pos, c, q);
    PhraseSpelled(st, pos, c.lhs.name, TkGa, c.rhs, OperatorOf(c));
  }

  /** The four tokens parse_simple_condition reads. */
  lemma SimpleConditionRead(st: Stream, pos: nat, c: Node, q: nat)
    requires ParseSimpleCondition(st, pos) == Ok((c, q))
    ensures Peek(st, pos) == Token(TkVariable, c.lhs.name) && Peek(st, pos + 1).kind == TkGa
    ensures ParseValue(st, pos + 2) == Ok((c.rhs, pos + 3)) && Peek(st, pos + 3).kind == OperatorOf(c)
    ensures q == pos + 4 && q <= |st.toks|
  {
    var v := ParseValue(st, pos + 2);
    assert Expect(st, pos + 1, TkGa) == Ok(pos + 2) && v.Ok? && Next(st, v.value.1) == Ok(q);
  }

  /** The `を` forms after `<variable> を`. */
  lemma WoSpelled(st: Stream, pos: nat, name: seq<Byte>, s: Node, q: nat)
    requires Peek(st, pos) == Token(TkVariable, name) && Peek(st, pos + 1).kind == TkWo
    requires ParseWoStatement(st, Var(name, 0), pos + 2) == Ok((s, q))
    requires pos + 2 <= |st.toks|
    ensures (s.Declare? || s.Div?) && q == pos + 4
    ensures Reads(st, pos, UnparseSimpleStatement(s))
  {
    WoRead(st, pos + 2, name, s, q);
    PhraseSpelled(st, pos, name, TkWo, s.rhs, if s.Declare? then TkDeclare else TkDiv);
  }

  /** The value and the operator parse_wo_statement reads. */
  lemma WoRead(st: Stream, pos: nat, name: seq<Byte>, s: Node, q: nat)
    requires ParseWoStatement(st, Var(name, 0), pos) == Ok((s, q))
    ensures (s.Declare? || s.Div?) && s.lhs == Var(name, 0) && q == pos + 2 && q <= |st.toks|
    ensures ParseValue(st, pos) == Ok((s.rhs, pos + 1))
    ensures Peek(st, pos + 1).kind == if s.Declare? then TkDeclare else TkDiv
  {
    var v := ParseValue(st, pos);
    assert v.Ok? && Next(st, v.value.1) == Ok(q);
  }

  /** The `に` forms after `<variable> に`. */
  lemma NiSpelled(st: Stream, pos: nat, name: seq<Byte>, s: Node, q: nat)
    requires Peek(st, pos) == Token(TkVariable, name) && Peek(st, pos + 1).kind == TkNi
    requires pos + 2 <= |st.toks|
    requires ParseNiStatement(st, Var(name, 0), pos + 2) == Ok((s, q))
    ensures (s.Input? || s.Assign? || s.Add? || s.Mul?)
    ensures q == pos + |UnparseSimpleStatement(s)| && Reads(st, pos, UnparseSimpleStatement(s))
  {
    if Peek(st, pos + 2).kind == TkInput {
      InputRead(st, pos + 2, name, s, q);
      InputSpelled(st, pos, name);
    } else {
      NiPhraseSpelled(st, pos, name, s, q);
    }
  }

  /** `<variable> に <value> <operator>`, read back as its spelling. */
  lemma NiPhraseSpelled(st: Stream, pos: nat, name: seq<Byte>, s: Node, q: nat)
    requires Peek(st, pos) == Token(TkVariable, name) && Peek(st, pos + 1).kind == TkNi
    requires pos + 2 <= |st.toks| && Peek(st, pos + 2).kind != TkInput
    requires ParseNiStatement(st, Var(name, 0), pos + 2) == Ok((s, q))
    ensures s.Assign? || s.Add? || s.Mul?
    ensures q == pos + |UnparseSimpleStatement(s)| && Reads(st, pos, UnparseSimpleStatement(s))
  {
    NiRead(st, pos + 2, name, s, q);
    PhraseSpelled(st, pos, name, TkNi, s.rhs,
                  if s.Assign? then TkAssign else if s.Add? then TkAdd else TkMul);
  }

  /** `入力` after `<variable> に`. */
  lemma InputRead(st: Stream, pos: nat, name: seq<Byte>, s: Node, q: nat)
    requires ParseNiStatement(st, Var(name, 0), pos) == Ok((s, q)) && Peek(st, pos).kind == TkInput
    requires pos <= |st.toks|
    ensures s == Input(Var(name, 0)) && q == pos + 1 && q <= |st.toks|
  {
  }

  /** The value and the operator parse_ni_statement reads when no `入力` follows. */
  lemma NiRead(st: Stream, pos: nat, name: seq<Byte>, s: Node, q: nat)
    requires ParseNiStatement(st, Var(name, 0), pos) == Ok((s, q)) && Peek(st, pos).kind != TkInput
    ensures (s.Assign? || s.Add? || s.Mul?) && s.lhs == Var(name, 0) && q == pos + 2 && q <= |st.toks|
    ensures ParseValue(st, pos) == Ok((s.rhs, pos + 1))
    ensures Peek(st, pos + 1).kind == if s.Assign? then TkAssign else if s.Add? then TkAdd else TkMul
  {
    var v := ParseValue(st, pos);
    assert v.Ok? && Next(st, v.value.1) == Ok(q);
  }

  /** `<variable> に 入力`. */
  lemma InputSpelled(st: Stream, pos: nat, name: seq<Byte>)
    requires pos + 3 <= |st.toks| && Peek(st, pos) == Token(TkVariable, name)
    requires Peek(st, pos + 1).kind == TkNi && Peek(st, pos + 2).kind == TkInput
    ensures Reads(st, pos, [Token(TkVariable, name), K(TkNi), K(TkInput)])
  {
    TokenSpelled(st, pos, Token(TkVariable, name));
    KeywordSpelled(st, pos + 1, TkNi);
    ReadsJoin(st, pos, [Token(TkVariable, name)], [K(TkNi)]);
    KeywordSpelled(st, pos + 2, TkInput);
    ReadsJoin(st, pos, [Token(TkVariable, name), K(TkNi)], [K(TkInput)]);
  }

  /** A simple statement parse_simple_statement reads is exactly its spelling. */
  lemma SimpleStatementSpelled(st: Stream, pos: nat, s: Node, q: nat)
    requires ParseSimpleStatement(st, pos) == Ok((s, q))
    ensures !s.Loop? && !s.If?
    ensures q == pos + |UnparseSimpleStatement(s)| && Reads(st, pos, UnparseSimpleStatement(s))
  {
    var t := Peek(st, pos);
    if t.kind == TkLiteral || t.kind == TkPrintLit {
      OutputBranch(st, pos, s, q);
      TokenSpelled(st, pos, t);
      KeywordSpelled(st, pos + 1, TkOutput);
      ReadsJoin(st, pos, [t], [K(TkOutput)]);
    } else {
      var k := VariableBranch(st, pos, s, q);
      if k == TkWo {
        WoSpelled(st, pos, t.text, s, q);
      } else if k == TkNi {
        NiSpelled(st, pos, t.text, s, q);
      } else {
        KaraBranch(st, pos, s, q);
        PhraseSpelled(st, pos, t.text, TkKara, s.rhs, TkSub);
      }
    }
  }

  /** The output branch of parse_simple_statement. */
  lemma OutputBranch(st: Stream, pos: nat, s: Node, q: nat)
    requires ParseSimpleStatement(st, pos) == Ok((s, q))
    requires Peek(st, pos).kind == TkLiteral || Peek(st, pos).kind == TkPrintLit
    ensures q == pos + 2 && q <= |st.toks| && Peek(st, pos + 1).kind == TkOutput
    ensures s == Output(if Peek(st, pos).kind == TkLiteral then Literal(Peek(st, pos).text)
                        else StrLit(Peek(st, pos).text, []))
  {
    assert Next(st, pos) == Ok(pos + 1) && Expect(st, pos + 1, TkOutput) == Ok(q);
  }

  /** The branches of parse_simple_statement behind a variable: `k` is the
      particle, and the rest of the statement is read from `pos + 2` on. */
  lemma VariableBranch(st: Stream, pos: nat, s: Node, q: nat) returns (k: TokenType)
    requires ParseSimpleStatement(st, pos) == Ok((s, q))
    requires Peek(st, pos).kind != TkLiteral && Peek(st, pos).kind != TkPrintLit
    ensures Peek(st, pos).kind == TkVariable && k == Peek(st, pos + 1).kind && pos + 2 <= |st.toks|
    ensures k == TkWo ==> ParseWoStatement(st, Var(Peek(st, pos).text, 0), pos + 2) == Ok((s, q))
    ensures k == TkNi ==> ParseNiStatement(st, Var(Peek(st, pos).text, 0), pos + 2) == Ok((s, q))
    ensures k != TkWo && k != TkNi ==> k == TkKara
  {
    k := Peek(st, pos + 1).kind;
    assert Next(st, pos) == Ok(pos + 1) && Next(st, pos + 1) == Ok(pos + 2);
  }

  /** The `から` branch of parse_simple_statement. */
  lemma KaraBranch(st: Stream, pos: nat, s: Node, q: nat)
    requires ParseSimpleStatement(st, pos) == Ok((s, q))
    requires Peek(st, pos).kind == TkVariable && Peek(st, pos + 1).kind == TkKara
    ensures s.Sub? && s.lhs == Var(Peek(st, pos).text, 0) && q == pos + 4 && q <= |st.toks|
    ensures ParseValue(st, pos + 2) == Ok((s.rhs, pos + 3)) && Peek(st, pos + 3).kind == TkSub
  {
    var v := ParseValue(st, pos + 2);
    assert Next(st, pos + 1) == Ok(pos + 2) && v.Ok? && Expect(st, v.value.1, TkSub) == Ok(q);
  }

  /** A simple statement parse_statement reads, with its 。, is exactly its
      spelling. */
  lemma StatementSpelled(st: Stream, pos: nat, s: Node, q: nat)
    requires ParseStatement(st, pos) == Ok((s, q)) && Peek(st, pos).kind !in {TkLoop, TkIf}
    ensures !s.Loop? && !s.If?
    ensures q == pos + |UnparseStatement(s)| && Reads(st, pos, UnparseStatement(s))
  {
    var r := ParseSimpleStatement(st, pos);
    assert r.Ok? && r.value.0 == s;
    var s1, p := r.value.0, r.value.1;
    SimpleStatementSpelled(st, pos, s1, p);
    KeywordSpelled(st, p, TkPeriod);
    ReadsJoin(st, pos, UnparseSimpleStatement(s), [K(TkPeriod)]);
  }

  /** Neither a loop nor an if. */
  predicate Simple(s: Node) {
    !s.Loop? && !s.If?
  }

  /** Behind ループ or もし, parse_statement builds a loop or an if. */
  lemma BlockLead(st: Stream, pos: nat, s: Node, q: nat)
    requires ParseStatement(st, pos) == Ok((s, q))
    ensures Peek(st, pos).kind in {TkLoop, TkIf} ==> !Simple(s)
  {
    if Peek(st, pos).kind in {TkLoop, TkIf} {
      var r := ParseBlockStatement(st, pos);
      assert r == ParseStatement(st, pos);
      var n := Next(st, pos);
      assert n.Ok?;
      var g := ParseGuardedBody(st, n.value);
      assert g.Ok?;
      if Peek(st, pos).kind == TkLoop {
        assert r == Ok((Loop(g.value.0.0, g.value.0.1), g.value.1));
      } else {
        var a := ElseIfArms(st, [], g.value.1);
        assert a.Ok?;
        var e := ElsePart(st, a.value.1);
        assert e.Ok?;
        assert r == Ok((If(g.value.0.0, g.value.0.1, Chain(a.value.0, e.value.0)), e.value.1));
      }
    }
  }

  /** One statement of parse_statement_list, when the list goes on. */
  lemma StatementListNext(st: Stream, acc: seq<Node>, pos: nat, ss: seq<Node>, q: nat)
    requires StatementsShape(acc) && pos <= |st.toks|
    requires StatementList(st, acc, pos) == Ok((ss, q)) && Peek(st, pos).kind !in {TkRBrace, TkEof}
    ensures ParseStatement(st, pos).Ok? && StatementShape(ParseStatement(st, pos).value.0)
    ensures StatementsShape(acc + [ParseStatement(st, pos).value.0])
    ensures StatementList(st, acc + [ParseStatement(st, pos).value.0], ParseStatement(st, pos).value.1)
         == Ok((ss, q))
  {
    var r := ParseStatement(st, pos);
    if r.Ok? {
      StatementsShapeAppend(acc, r.value.0);
    }
  }

  /** parse_statement_list keeps the statements linked before and adds well-formed
      ones after them. */
  lemma {:induction false} StatementListKeeps(st: Stream, acc: seq<Node>, pos: nat, ss: seq<Node>, q: nat)
    requires StatementsShape(acc) && pos <= |st.toks|
    requires StatementList(st, acc, pos) == Ok((ss, q))
    ensures |acc| <= |ss| && ss[..|acc|] == acc && StatementsShape(ss[|acc|..])
    decreases Left(st, pos)
  {
    if Peek(st, pos).kind in {TkRBrace, TkEof} {
      assert ss[|acc|..] == [];
    } else {
      StatementListNext(st, acc, pos, ss, q);
      var r := ParseStatement(st, pos);
      var s, p := r.value.0, r.value.1;
      StatementListKeeps(st, acc + [s], p, ss, q);
      KeepsStep(acc, s, ss);
    }
  }

  /** A prefix one statement longer, and well-formed statements after it. */
  lemma KeepsStep(acc: seq<Node>, s: Node, ss: seq<Node>)
    requires |acc| + 1 <= |ss| && ss[..|acc| + 1] == acc + [s]
    requires StatementShape(s) && StatementsShape(ss[|acc| + 1..])
    ensures ss[..|acc|] == acc && StatementsShape(ss[|acc|..])
  {
    PrefixNext(acc, s, ss);
    assert ss[..|acc|] == (acc + [s])[..|acc|];
  }

  /** When all the statements parse_statement_list adds are simple, it has read
      exactly their spelling. */
  lemma {:induction false} StatementListSpelled(st: Stream, acc: seq<Node>, pos: nat, ss: seq<Node>, q: nat)
    requires StatementsShape(acc) && pos <= |st.toks|
    requires StatementList(st, acc, pos) == Ok((ss, q))
    requires forall i | |acc| <= i < |ss| :: Simple(ss[i])
    ensures |acc| <= |ss| && StatementsShape(ss[|acc|..])
    ensures q == pos + |UnparseStatements(ss[|acc|..])| && Reads(st, pos, UnparseStatements(ss[|acc|..]))
    decreases Left(st, pos)
  {
    StatementListKeeps(st, acc, pos, ss, q);
    if Peek(st, pos).kind in {TkRBrace, TkEof} {
      assert ss[|acc|..] == [];
    } else {
      StatementListNext(st, acc, pos, ss, q);
      var r := ParseStatement(st, pos);
      var s, p := r.value.0, r.value.1;
      StatementListKeeps(st, acc + [s], p, ss, q);
      StatementListSpelled(st, acc + [s], p, ss, q);
      PrefixNext(acc, s, ss);
      SpelledStep(st, pos, acc, s, ss, p, q);
    }
  }

  /** One simple statement spelled in front of the ones after it. */
  lemma SpelledStep(st: Stream, pos: nat, acc: seq<Node>, s: Node, ss: seq<Node>, p: nat, q: nat)
    requires ParseStatement(st, pos) == Ok((s, p)) && Simple(s)
    requires |acc| + 1 <= |ss| && ss[..|acc| + 1] == acc + [s] && StatementsShape(ss[|acc|..])
    requires q == p + |UnparseStatements(ss[|acc| + 1..])| && Reads(st, p, UnparseStatements(ss[|acc| + 1..]))
    ensures q == pos + |UnparseStatements(ss[|acc|..])| && Reads(st, pos, UnparseStatements(ss[|acc|..]))
  {
    PrefixNext(acc, s, ss);
    SimpleStep(st, pos, s, p);
    ConsSpelled(st, pos, ss[|acc|..], p, q);
  }

  /** The statement after the prefix `acc`. */
  lemma PrefixNext(acc: seq<Node>, s: Node, ss: seq<Node>)
    requires |acc| + 1 <= |ss| && ss[..|acc| + 1] == acc + [s]
    ensures ss[|acc|] == s && ss[|acc|..][0] == s && ss[|acc|..][1..] == ss[|acc| + 1..]
  {
    assert ss[|acc|] == (acc + [s])[|acc|];
  }

  /** A simple statement parse_statement builds is exactly its spelling. */
  lemma SimpleStep(st: Stream, pos: nat, s: Node, p: nat)
    requires ParseStatement(st, pos) == Ok((s, p)) && Simple(s)
    ensures p == pos + |UnparseStatement(s)| && Reads(st, pos, UnparseStatement(s))
  {
    BlockLead(st, pos, s, p);
    StatementSpelled(st, pos, s, p);
  }

  /** The spelling of a statement followed by the spelling of the rest. */
  lemma ConsSpelled(st: Stream, pos: nat, xs: seq<Node>, p: nat, q: nat)
    requires StatementsShape(xs) && xs != []
    requires p == pos + |UnparseStatement(xs[0])| && Reads(st, pos, UnparseStatement(xs[0]))
    requires q == p + |UnparseStatements(xs[1..])| && Reads(st, p, UnparseStatements(xs[1..]))
    ensures q == pos + |UnparseStatements(xs)| && Reads(st, pos, UnparseStatements(xs))
  {
    var a, b := UnparseStatement(xs[0]), UnparseStatements(xs[1..]);
    assert UnparseStatements(xs) == a + b;
    ReadsJoin(st, pos, a, b);
  }

  /** A program whose statements are all simple was read from exactly its
      spelling, up to its closing ｝. */
  lemma ProgramSpelled(st: Stream, p: Node)
    requires ParseProgram(st) == Ok(p)
    ensures (forall i | 0 <= i < |p.stmts| :: Simple(p.stmts[i])) ==> Reads(st, 0, UnparseProgram(p))
  {
    var q := ProgramParts(st, p);
    if forall i | 0 <= i < |p.stmts| :: Simple(p.stmts[i]) {
      StatementListSpelled(st, [], 2, p.stmts, q);
      assert p.stmts[0..] == p.stmts;
      MainSpelled(st, UnparseStatements(p.stmts), q);
    }
  }

  /** `メイン ｛`, the spelling `b`, and the `｝` at `q`. */
  lemma MainSpelled(st: Stream, b: seq<Token>, q: nat)
    requires Peek(st, 0).kind == TkMain && Peek(st, 1).kind == TkLBrace && 2 <= q < |st.toks|
    requires q == 2 + |b| && Reads(st, 2, b) && Peek(st, q).kind == TkRBrace
    ensures Reads(st, 0, [K(TkMain), K(TkLBrace)] + b + [K(TkRBrace)])
  {
    KeywordSpelled(st, 0, TkMain);
    KeywordSpelled(st, 1, TkLBrace);
    ReadsJoin(st, 0, [K(TkMain)], [K(TkLBrace)]);
    ReadsJoin(st, 0, [K(TkMain), K(TkLBrace)], b);
    KeywordSpelled(st, q, TkRBrace);
    ReadsJoin(st, 0, [K(TkMain), K(TkLBrace)] + b, [K(TkRBrace)]);
  }

  /** The steps of parse_program: `メイン`, `｛`, the statement list up to `q`,
      and the `｝` at `q`. */
  lemma ProgramParts(st: Stream, p: Node) returns (q: nat)
    requires ParseProgram(st) == Ok(p)
    ensures Peek(st, 0).kind == TkMain && Peek(st, 1).kind == TkLBrace && 2 <= q < |st.toks|
    ensures StatementList(st, [], 2) == Ok((p.stmts, q)) && Peek(st, q).kind == TkRBrace
  {
    var p1 := Expect(st, 0, TkMain);
    assert !p1.IsFailure() && p1.Extract() == 1;
    var p2 := Expect(st, 1, TkLBrace);
    assert !p2.IsFailure() && p2.Extract() == 2;
    var b := ParseStatementList(st, 2);
    assert !b.IsFailure() && b.Extract().0 == p.stmts;
    q := b.Extract().1;
    assert Expect(st, q, TkRBrace).Ok?;
  }

  // ---------------------------------------------------------------------------
  // Where the other direction fails

  /** A simple condition in parentheses is read into the same condition as
      without them, two tokens further on: the parentheses leave no trace in the
      tree, so its spelling is shorter than what was read. */
  lemma RedundantParentheses(st: Stream, pos: nat, c: Node, end: nat)
    requires SimpleConditionShape(c) && end == pos + |UnparseSimple(c)| + 2
    requires Reads(st, pos, [K(TkLPar)] + UnparseSimple(c) + [K(TkRPar)])
    requires Live(st, end) && Peek(st, end).kind !in {TkAnd, TkOr}
    ensures ConditionShape(c) && ParseConditionExpression(st, pos) == Ok((c, end))
    ensures end == pos + |UnparseExpr(c)| + 2
  {
    SimpleSpelling(c);
    var e := UnparseExpr(c);
    var q := pos + 1 + |e|;
    ParenTokens(st, pos, e, q);
    ConditionRoundTrip(st, pos + 1, c, q);
    FactorParen(st, pos, c, q);
    AndChainStop(st, c, end);
    OrChainStop(st, c, end);
  }

  /** An if followed by `ではない ｛｝` is read into the same if without an else,
      three tokens further on: the empty else leaves no trace in the tree, so its
      spelling is shorter than what was read. */
  lemma EmptyElseLongerThanSpelling(st: Stream, pos: nat, c: Node, body: seq<Node>, end: nat)
    requires ConditionShape(c) && StatementsShape(body)
    requires end == pos + 1 + |UnparseGuarded(c, body)| + 3
    requires Reads(st, pos, [K(TkIf)]) && Reads(st, pos + 1, UnparseGuarded(c, body))
    requires Reads(st, end - 3, [K(TkElse), K(TkLBrace), K(TkRBrace)]) && Live(st, end)
    ensures ParseStatement(st, pos) == Ok((If(c, body, []), end))
    ensures end == pos + |UnparseStatement(If(c, body, []))| + 3
  {
    var q := end - 3;
    ReadsAt(st, pos, [K(TkIf)], 0);
    ElseBraces(st, q);
    EmptyElseSteps(st, pos, c, body, q);
    IfWithoutElse(c, body);
  }

  /** Where the keywords of `ではない ｛｝` sit. */
  lemma ElseBraces(st: Stream, q: nat)
    requires Reads(st, q, [K(TkElse), K(TkLBrace), K(TkRBrace)])
    ensures q + 3 <= |st.toks|
    ensures Peek(st, q).kind == TkElse && Peek(st, q + 1).kind == TkLBrace && Peek(st, q + 2).kind == TkRBrace
  {
    var u := [K(TkElse), K(TkLBrace), K(TkRBrace)];
    ReadsAt(st, q, u, 0);
    ReadsAt(st, q, u, 1);
    ReadsAt(st, q, u, 2);
  }

  lemma IfWithoutElse(c: Node, body: seq<Node>)
    requires ConditionShape(c) && StatementsShape(body)
    ensures UnparseStatement(If(c, body, [])) == [K(TkIf)] + UnparseGuarded(c, body)
  {
    assert UnparseElse([]) == [];
  }

  /** The if statement once its guarded body has been read up to `q`, where
      `ではない ｛｝` follows. */
  lemma EmptyElseSteps(st: Stream, pos: nat, c: Node, body: seq<Node>, q: nat)
    requires ConditionShape(c) && StatementsShape(body) && q + 3 <= |st.toks| && Live(st, q + 3)
    requires Peek(st, pos).kind == TkIf && Next(st, pos) == Ok(pos + 1)
    requires q == pos + 1 + |UnparseGuarded(c, body)| && Reads(st, pos + 1, UnparseGuarded(c, body))
    requires Peek(st, q).kind == TkElse && Peek(st, q + 1).kind == TkLBrace && Peek(st, q + 2).kind == TkRBrace
    ensures ParseStatement(st, pos) == Ok((If(c, body, []), q + 3))
  {
    GuardedRoundTrip(st, pos + 1, c, body, q);
    ElseIfArmsStop(st, [], q);
    EmptyElsePart(st, q);
    assert Chain([], []) == [];
    IfStep(st, pos, c, body, q, [], q, [], q + 3);
  }

  /** `ではない ｛｝` on its own. */
  lemma EmptyElsePart(st: Stream, q: nat)
    requires q + 3 <= |st.toks| && Live(st, q + 3)
    requires Peek(st, q).kind == TkElse && Peek(st, q + 1).kind == TkLBrace && Peek(st, q + 2).kind == TkRBrace
    ensures ElsePart(st, q) == Ok(([], q + 3))
  {
    StatementListStop(st, [], q + 2);
    var p := Next(st, q);
    assert !p.IsFailure() && p.Extract() == q + 1;
    var p1 := Expect(st, q + 1, TkLBrace);
    assert !p1.IsFailure() && p1.Extract() == q + 2;
    var b := ParseStatementList(st, q + 2);
    assert !b.IsFailure() && b.Extract() == ([], q + 2);
  }
}
