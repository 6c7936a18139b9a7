/** parser.c as an object: the lookahead `token` of the C globals is the token at
    the cursor `pos` of the stream the lexer delivers, and each parse function is a
    method that moves the cursor and returns the node it builds. Every method is
    proved against the function of ParseSpec that describes it: on success the
    result and the new cursor are the function's, on failure the error category is. */
module Parser {
  import opened Errors
  import opened Tokens
  import opened Ast
  import opened ParseSpec

  /** A method's result and the cursor it leaves, in the form ParseSpec uses. */
  function At<T>(r: Result<T>, pos: nat): Result<(T, nat)> {
    match r
    case Ok(v) => Ok((v, pos))
    case Err(e) => Err(e)
  }

  /** A cursor move that may fail, in the form ParseSpec uses. */
  function Moved(o: Outcome, pos: nat): Result<nat> {
    match o
    case Pass => Ok(pos)
    case Fail(e) => Err(e)
  }

  class Parser {
    /** The tokens getNextToken delivers, and whether it stops on a lexical error. */
    const st: Stream
    /** Which of them is the lookahead `token`. */
    var pos: nat

    /** A parser whose lookahead is the first token, as after the driver's first
        getNextToken call. */
    constructor (st: Stream)
      ensures this.st == st && pos == 0
    {
      this.st := st;
      pos := 0;
    }

    /** getNextToken as the parser sees it: the next token becomes the lookahead,
        unless lexing it fails. */
    method Advance() returns (o: Outcome)
      modifies this`pos
      ensures Moved(o, pos) == Next(st, old(pos))
      ensures o.Fail? ==> pos == old(pos)
    {
      if pos + 1 < |st.toks| || !st.failed {
        pos := pos + 1;
        o := Pass;
      } else {
        o := Fail(LexerError);
      }
    }

    /** consume: pass the lookahead and answer true if it is `kind`, else answer
        false and stay. */
    method Consume(kind: TokenType) returns (r: Result<bool>)
      modifies this`pos
      ensures At(r, pos) == ParseSpec.Consume(st, old(pos), kind)
      ensures r == Ok(false) ==> pos == old(pos)
      ensures r == Ok(true) ==> pos == old(pos) + 1
    {
      if Peek(st, pos).kind != kind {
        return Ok(false);
      }
      var o := Advance();
      if o.Fail? {
        return Err(o.error);
      }
      return Ok(true);
    }

    /** expect: the lookahead must be `kind`; a syntax error otherwise, with the
        cursor where it was. */
    method Expect(kind: TokenType) returns (o: Outcome)
      modifies this`pos
      ensures Moved(o, pos) == ParseSpec.Expect(st, old(pos), kind)
      ensures Peek(st, old(pos)).kind != kind ==> o == Fail(SyntaxError) && pos == old(pos)
      ensures o.Pass? ==> Peek(st, old(pos)).kind == kind && pos == old(pos) + 1
    {
      if Peek(st, pos).kind != kind {
        return Fail(SyntaxError);
      }
      o := Advance();
    }

    /** parse_value. */
    method ParseValue() returns (r: Result<Node>)
      modifies this`pos
      ensures At(r, pos) == ParseSpec.ParseValue(st, old(pos))
    {
      var t := Peek(st, pos);
      if t.kind == TkLiteral {
        var o := Advance();
        if o.Fail? {
          return Err(o.error);
        }
        return Ok(Literal(t.text));
      } else if t.kind == TkVariable {
        var node := Var(t.text, 0);
        var o := Advance();
        if o.Fail? {
          return Err(o.error);
        }
        return Ok(node);
      }
      return Err(SyntaxError);
    }

    /** parse_simple_statement: the statement without its closing 。. */
    method ParseSimpleStatement() returns (r: Result<Node>)
      modifies this`pos
      ensures At(r, pos) == ParseSpec.ParseSimpleStatement(st, old(pos))
    {
      var t := Peek(st, pos);
      if t.kind == TkLiteral || t.kind == TkPrintLit {
        var node := if t.kind == TkLiteral then Literal(t.text) else StrLit(t.text, []);
        var o := Advance();
        if o.Fail? {
          return Err(o.error);
        }
        o := Expect(TkOutput);
        if o.Fail? {
          return Err(o.error);
        }
        return Ok(Output(node));
      }
      if t.kind == TkVariable {
        var target := Var(t.text, 0);
        var o := Advance();
        if o.Fail? {
          return Err(o.error);
        }
        var k := Peek(st, pos).kind;
        if k == TkWo {
          o := Advance();
          if o.Fail? {
            return Err(o.error);
          }
          r := ParseWoSuffix(target);
        } else if k == TkNi {
          o := Advance();
          if o.Fail? {
            return Err(o.error);
          }
          r := ParseNiSuffix(target);
        } else if k == TkKara {
          o := Advance();
          if o.Fail? {
            return Err(o.error);
          }
          var v := ParseValue();
          if v.Err? {
            return v;
          }
          o := Expect(TkSub);
          if o.Fail? {
            return Err(o.error);
          }
          return Ok(Sub(target, v.value));
        } else {
          return Err(SyntaxError);
        }
        return;
      }
      return Err(SyntaxError);
    }

    /** The `を` branch of parse_simple_statement, after the を: `<value> で宣言する`
        or `<value> でわる`. */
    method ParseWoSuffix(target: Node) returns (r: Result<Node>)
      requires VarShape(target)
      modifies this`pos
      ensures At(r, pos) == ParseWoStatement(st, target, old(pos))
    {
      var v := ParseValue();
      if v.Err? {
        return v;
      }
      var k := Peek(st, pos).kind;
      if k == TkDeclare || k == TkDiv {
        var o := Advance();
        if o.Fail? {
          return Err(o.error);
        }
        return Ok(if k == TkDeclare then Declare(target, v.value) else Div(target, v.value));
      }
      return Err(SyntaxError);
    }

    /** The `に` branch of parse_simple_statement, after the に: `入力する`, or
        `<value>` and を代入する, をたす or をかける. */
    method ParseNiSuffix(target: Node) returns (r: Result<Node>)
      requires VarShape(target)
      modifies this`pos
      ensures At(r, pos) == ParseNiStatement(st, target, old(pos))
    {
      if Peek(st, pos).kind == TkInput {
        var o := Advance();
        if o.Fail? {
          return Err(o.error);
        }
        return Ok(Input(target));
      }
      var v := ParseValue();
      if v.Err? {
        return v;
      }
      var k := Peek(st, pos).kind;
      if k == TkAssign || k == TkAdd || k == TkMul {
        var o := Advance();
        if o.Fail? {
          return Err(o.error);
        }
        return Ok(if k == TkAssign then Assign(target, v.value)
                  else if k == TkAdd then Add(target, v.value)
                  else Mul(target, v.value));
      }
      return Err(SyntaxError);
    }

    /** parse_simple_condition: `<variable> が <value> <comparison>`. */
    method ParseSimpleCondition() returns (r: Result<Node>)
      modifies this`pos
      ensures At(r, pos) == ParseSpec.ParseSimpleCondition(st, old(pos))
    {
      var t := Peek(st, pos);
      if t.kind != TkVariable {
        return Err(SyntaxError);
      }
      var lhs := Var(t.text, 0);
      var o := Advance();
      if o.Fail? {
        return Err(o.error);
      }
      o := Expect(TkGa);
      if o.Fail? {
        return Err(o.error);
      }
      var v := ParseValue();
      if v.Err? {
        return v;
      }
      match Comparison(Peek(st, pos).kind, lhs, v.value)
      case None =>
        return Err(SyntaxError);
      case Some(c) =>
        o := Advance();
        if o.Fail? {
          return Err(o.error);
        }
        return Ok(c);
    }

    /** parse_condition_expression: a term, then `または <term>` as long as the
        lookahead is または, each time making the condition so far the left operand. */
    method ParseConditionExpression() returns (r: Result<Node>)
      modifies this`pos
      ensures At(r, pos) == ParseSpec.ParseConditionExpression(st, old(pos))
      decreases Left(st, pos), 2
    {
      var first := ParseConditionTerm();
      if first.Err? {
        return first;
      }
      var node := first.value;
      while Peek(st, pos).kind == TkOr
        invariant old(pos) < pos <= |st.toks| && ConditionShape(node)
        invariant ParseSpec.ParseConditionExpression(st, old(pos)) == OrChain(st, node, pos)
        decreases Left(st, pos)
      {
        var o := Advance();
        if o.Fail? {
          return Err(o.error);
        }
        var t := ParseConditionTerm();
        if t.Err? {
          return t;
        }
        node := Or(node, t.value);
      }
      return Ok(node);
    }

    /** parse_condition_term: a factor, then `かつ <factor>` as long as the
        lookahead is かつ. */
    method ParseConditionTerm() returns (r: Result<Node>)
      modifies this`pos
      ensures At(r, pos) == ParseSpec.ParseConditionTerm(st, old(pos))
      decreases Left(st, pos), 1
    {
      var first := ParseConditionFactor();
      if first.Err? {
        return first;
      }
      var node := first.value;
      while Peek(st, pos).kind == TkAnd
        invariant old(pos) < pos <= |st.toks| && ConditionShape(node)
        invariant ParseSpec.ParseConditionTerm(st, old(pos)) == AndChain(st, node, pos)
        decreases Left(st, pos)
      {
        var o := Advance();
        if o.Fail? {
          return Err(o.error);
        }
        var f := ParseConditionFactor();
        if f.Err? {
          return f;
        }
        node := And(node, f.value);
      }
      return Ok(node);
    }

    /** An operand of かつ: `（ <condition> ）` or a simple condition. parse_condition_term
        spells this out twice, once before its loop and once inside it. */
    method ParseConditionFactor() returns (r: Result<Node>)
      modifies this`pos
      ensures At(r, pos) == ParseSpec.ParseConditionFactor(st, old(pos))
      decreases Left(st, pos), 0
    {
      if Peek(st, pos).kind == TkLPar {
        var o := Advance();
        if o.Fail? {
          return Err(o.error);
        }
        r := ParseConditionExpression();
        if r.Err? {
          return;
        }
        o := Expect(TkRPar);
        if o.Fail? {
          return Err(o.error);
        }
      } else {
        r := ParseSimpleCondition();
      }
    }

    /** parse_statement: a block statement, or a simple statement and its 。. */
    method ParseStatement() returns (r: Result<Node>)
      modifies this`pos
      ensures At(r, pos) == ParseSpec.ParseStatement(st, old(pos))
      decreases Left(st, pos), 1
    {
      var k := Peek(st, pos).kind;
      if k == TkLoop || k == TkIf {
        r := ParseBlockStatement();
        return;
      }
      r := ParseSimpleStatement();
      if r.Err? {
        return;
      }
      var o := Expect(TkPeriod);
      if o.Fail? {
        return Err(o.error);
      }
    }

    /** parse_statement_list: statements, linked in the order they are read, up to
        ｝ or the end of the input. */
    method ParseStatementList() returns (r: Result<seq<Node>>)
      requires pos <= |st.toks|
      modifies this`pos
      ensures At(r, pos) == ParseSpec.ParseStatementList(st, old(pos))
      decreases Left(st, pos), 3
    {
      var list: seq<Node> := [];
      while Peek(st, pos).kind != TkRBrace && Peek(st, pos).kind != TkEof
        invariant old(pos) <= pos <= |st.toks| && StatementsShape(list)
        invariant ParseSpec.ParseStatementList(st, old(pos)) == StatementList(st, list, pos)
        decreases Left(st, pos)
      {
        var s := ParseStatement();
        if s.Err? {
          return Err(s.error);
        }
        StatementsShapeAppend(list, s.value);
        list := list + [s.value];
      }
      return Ok(list);
    }

    /** `（ <condition> ）｛ <statements> ｝`, which parse_block_statement reads after
        ループ, もし and ではなく alike. */
    method ParseGuardedBody() returns (r: Result<(Node, seq<Node>)>)
      modifies this`pos
      ensures At(r, pos) == ParseSpec.ParseGuardedBody(st, old(pos))
      decreases Left(st, pos), 0
    {
      var o := Expect(TkLPar);
      if o.Fail? {
        return Err(o.error);
      }
      var c := ParseConditionExpression();
      if c.Err? {
        return Err(c.error);
      }
      o := Expect(TkRPar);
      if o.Fail? {
        return Err(o.error);
      }
      o := Expect(TkLBrace);
      if o.Fail? {
        return Err(o.error);
      }
      var body := ParseStatementList();
      if body.Err? {
        return Err(body.error);
      }
      o := Expect(TkRBrace);
      if o.Fail? {
        return Err(o.error);
      }
      return Ok((c.value, body.value));
    }

    /** parse_block_statement: a loop, or an if with its else-if arms and its else.
        Each arm read is linked after the previous one, and the else statements after
        the last arm. */
    method ParseBlockStatement() returns (r: Result<Node>)
      modifies this`pos
      ensures At(r, pos) == ParseSpec.ParseBlockStatement(st, old(pos))
      decreases Left(st, pos), 0
    {
      var k := Peek(st, pos).kind;
      if k == TkLoop {
        var o := Advance();
        if o.Fail? {
          return Err(o.error);
        }
        var g := ParseGuardedBody();
        if g.Err? {
          return Err(g.error);
        }
        return Ok(Loop(g.value.0, g.value.1));
      }
      if k == TkIf {
        var o := Advance();
        if o.Fail? {
          return Err(o.error);
        }
        var g := ParseGuardedBody();
        if g.Err? {
          return Err(g.error);
        }
        var arms := ParseElseIfArms();
        if arms.Err? {
          return Err(arms.error);
        }
        var last := ParseElsePart();
        if last.Err? {
          return Err(last.error);
        }
        return Ok(If(g.value.0, g.value.1, Chain(arms.value, last.value)));
      }
      return Err(SyntaxError);
    }

    /** The else-if loop of parse_block_statement: arms as long as the lookahead
        is ではなく, each linked after the one before. */
    method ParseElseIfArms() returns (r: Result<seq<(Node, seq<Node>)>>)
      requires pos <= |st.toks|
      modifies this`pos
      ensures At(r, pos) == ElseIfArms(st, [], old(pos))
      decreases Left(st, pos), 0
    {
      var arms: seq<(Node, seq<Node>)> := [];
      while Peek(st, pos).kind == TkElseIf
        invariant old(pos) <= pos <= |st.toks| && ArmsShape(arms)
        invariant ElseIfArms(st, [], old(pos)) == ElseIfArms(st, arms, pos)
        decreases Left(st, pos)
      {
        var o := Advance();
        if o.Fail? {
          return Err(o.error);
        }
        var g := ParseGuardedBody();
        if g.Err? {
          return Err(g.error);
        }
        ArmsShapeAppend(arms, g.value);
        arms := arms + [g.value];
      }
      return Ok(arms);
    }

    /** The optional else of parse_block_statement: `ではない ｛ <statements> ｝`. */
    method ParseElsePart() returns (r: Result<seq<Node>>)
      requires pos <= |st.toks|
      modifies this`pos
      ensures At(r, pos) == ElsePart(st, old(pos))
      decreases Left(st, pos), 0
    {
      if Peek(st, pos).kind != TkElse {
        return Ok([]);
      }
      var o := Advance();
      if o.Fail? {
        return Err(o.error);
      }
      o := Expect(TkLBrace);
      if o.Fail? {
        return Err(o.error);
      }
      var body := ParseStatementList();
      if body.Err? {
        return Err(body.error);
      }
      o := Expect(TkRBrace);
      if o.Fail? {
        return Err(o.error);
      }
      return Ok(body.value);
    }

    /** parse_program: `メイン ｛ <statements> ｝`, with the lookahead at the first
        token. */
    method ParseProgram() returns (r: Result<Node>)
      requires pos == 0
      modifies this`pos
      ensures r == ParseSpec.ParseProgram(st)
    {
      var o := Expect(TkMain);
      if o.Fail? {
        return Err(o.error);
      }
      o := Expect(TkLBrace);
      if o.Fail? {
        return Err(o.error);
      }
      var body := ParseStatementList();
      if body.Err? {
        return Err(body.error);
      }
      o := Expect(TkRBrace);
      if o.Fail? {
        return Err(o.error);
      }
      return Ok(Program(body.value));
    }
  }
}
