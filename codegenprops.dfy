/** What the generated text is made of: which trees gen can render, how the
    rendering of a list splits, what conditions, programs and if chains look like,
    and that variable names never reach the output. */
module CodegenProps {
  import opened Errors
  import opened Utf8
  import opened Ast
  import opened Generator

  // ---------------------------------------------------------------------------
  // When gen fails

  /** Every print literal the walk reaches is the operand of an output: the walk
      goes into every child except the variable of a declaration, an assignment
      or an input, the print literal of an output, and whatever follows an
      else-if in an `els` list. */
  predicate Renderable(n: Node)
    decreases n, 1
  {
    if IsUpdate(n) || IsComparison(n) || n.And? || n.Or? then
      Renderable(n.lhs) && Renderable(n.rhs)
    else
      match n
      case StrLit(_, _) => false
      case Output(lhs) => lhs.StrLit? || Renderable(lhs)
      case Program(ss) => AllRenderable(ss)
      case Block(ss) => AllRenderable(ss)
      case If(c, body, els) => Renderable(c) && AllRenderable(body) && ElseRenderable(els)
      case ElseIf(c, body, els) => Renderable(c) && AllRenderable(body) && ElseRenderable(els)
      case Loop(c, body) => Renderable(c) && AllRenderable(body)
      case Declare(_, rhs) => Renderable(rhs)
      case Assign(_, rhs) => Renderable(rhs)
      case Input(_) => true
      case Var(_, _) => true
      case Literal(_) => true
  }

  predicate AllRenderable(ss: seq<Node>)
    decreases ss, 0
  {
    forall i | 0 <= i < |ss| :: Renderable(ss[i])
  }

  predicate ElseRenderable(els: seq<Node>)
    decreases els, 1
  {
    els == [] || (if els[0].ElseIf? then Renderable(els[0]) else AllRenderable(els))
  }

  /** gen stops with a codegen error exactly when it reaches a print literal that
      is not the operand of an output, at any depth. */
  lemma {:induction false} GenOk(n: Node, depth: nat, fixed: Fixed)
    ensures Gen(n, depth, fixed).Ok? <==> Renderable(n)
    ensures Gen(n, depth, fixed).Err? ==> Gen(n, depth, fixed).error == CodegenError
    decreases n, 2
  {
    if n.Program? || n.Block? || n.If? || n.ElseIf? || n.Loop? {
      CompoundOk(n, depth, fixed);
    } else if IsUpdate(n) || IsComparison(n) || n.And? || n.Or? {
      BinaryOk(n, depth, fixed);
    } else {
      match n
      case Declare(_, rhs) => GenOk(rhs, 0, fixed);
      case Assign(_, rhs) => GenOk(rhs, 0, fixed);
      case Output(lhs) =>
        if !lhs.StrLit? {
          GenOk(lhs, 0, fixed);
        }
      case Input(_) =>
      case Var(_, _) =>
      case Literal(_) =>
      case StrLit(_, _) =>
    }
  }

  lemma {:induction false} BinaryOk(n: Node, depth: nat, fixed: Fixed)
    requires IsUpdate(n) || IsComparison(n) || n.And? || n.Or?
    ensures Gen(n, depth, fixed).Ok? <==> Renderable(n)
    ensures Gen(n, depth, fixed).Err? ==> Gen(n, depth, fixed).error == CodegenError
    decreases n, 0
  {
    GenOk(n.lhs, 0, fixed);
    GenOk(n.rhs, 0, fixed);
    if IsUpdate(n) {
      UpdateRule(n, depth, fixed);
    } else {
      InfixRule(n, depth, fixed);
    }
  }

  lemma {:induction false} CompoundOk(n: Node, depth: nat, fixed: Fixed)
    requires n.Program? || n.Block? || n.If? || n.ElseIf? || n.Loop?
    ensures Gen(n, depth, fixed).Ok? <==> Renderable(n)
    ensures Gen(n, depth, fixed).Err? ==> Gen(n, depth, fixed).error == CodegenError
    decreases n, 1
  {
    match n
    case Program(ss) => BlockOk(ss, 1, fixed);
    case Block(ss) => BlockOk(ss, depth, fixed);
    case If(c, body, els) =>
      IfOk(n, Indent(depth) + "if (", depth, fixed);
      assert Gen(n, depth, fixed) == GenIf(n, Indent(depth) + "if (", depth, fixed);
    case ElseIf(c, body, els) =>
      IfOk(n, " else if (", depth, fixed);
      assert Gen(n, depth, fixed) == GenIf(n, " else if (", depth, fixed);
    case Loop(c, body) =>
      GenOk(c, 0, fixed);
      BlockOk(body, depth + 1, fixed);
      assert Renderable(n) == (Renderable(c) && AllRenderable(body));
  }

  lemma {:induction false} IfOk(n: Node, head: string, depth: nat, fixed: Fixed)
    requires n.If? || n.ElseIf?
    ensures GenIf(n, head, depth, fixed).Ok? <==> Renderable(n)
    ensures GenIf(n, head, depth, fixed).Err? ==> GenIf(n, head, depth, fixed).error == CodegenError
    decreases n, 0
  {
    GenOk(n.cond, 0, fixed);
    BlockOk(n.body, depth + 1, fixed);
    ElseOk(n.els, depth, fixed);
    assert Renderable(n) == (Renderable(n.cond) && AllRenderable(n.body) && ElseRenderable(n.els));
  }

  lemma {:induction false} BlockOk(ss: seq<Node>, depth: nat, fixed: Fixed)
    ensures GenBlock(ss, depth, fixed).Ok? <==> AllRenderable(ss)
    ensures GenBlock(ss, depth, fixed).Err? ==> GenBlock(ss, depth, fixed).error == CodegenError
    decreases ss, 0
  {
    if ss != [] {
      GenOk(ss[0], depth, fixed);
      BlockOk(ss[1..], depth, fixed);
      assert AllRenderable(ss) <==> Renderable(ss[0]) && AllRenderable(ss[1..]) by {
        if Renderable(ss[0]) && AllRenderable(ss[1..]) {
          forall i | 0 <= i < |ss|
            ensures Renderable(ss[i])
          {
            if i > 0 {
              assert ss[i] == ss[1..][i - 1];
            }
          }
        }
      }
    }
  }

  lemma {:induction false} ElseOk(els: seq<Node>, depth: nat, fixed: Fixed)
    ensures GenElse(els, depth, fixed).Ok? <==> ElseRenderable(els)
    ensures GenElse(els, depth, fixed).Err? ==> GenElse(els, depth, fixed).error == CodegenError
    decreases els, 1
  {
    if els != [] {
      if els[0].ElseIf? {
        GenOk(els[0], depth, fixed);
      } else {
        BlockOk(els, depth + 1, fixed);
      }
    }
  }

  /** The trees the parser builds have a print literal only as the operand of an
      output, so gen never fails on them. */
  lemma {:induction false} StatementRenders(s: Node)
    requires StatementShape(s)
    ensures Renderable(s)
    decreases s, 1
  {
    match s
    case Loop(c, body) =>
      ConditionRenders(c);
      StatementsRender(body);
    case If(c, body, els) =>
      ConditionRenders(c);
      StatementsRender(body);
      ElseRenders(els);
    case Output(_) =>
    case Declare(_, _) =>
    case Assign(_, _) =>
    case Input(_) =>
    case Add(_, _) =>
    case Sub(_, _) =>
    case Mul(_, _) =>
    case Div(_, _) =>
  }

  lemma {:induction false} StatementsRender(ss: seq<Node>)
    requires StatementsShape(ss)
    ensures AllRenderable(ss)
    decreases ss, 0
  {
    forall i | 0 <= i < |ss|
      ensures Renderable(ss[i])
    {
      StatementsShapeAt(ss, i);
      StatementRenders(ss[i]);
    }
  }

  lemma {:induction false} ElseRenders(els: seq<Node>)
    requires ElseShape(els)
    ensures ElseRenderable(els)
    decreases els, 2
  {
    if |els| == 1 && els[0].ElseIf? {
      var e := els[0];
      ConditionRenders(e.cond);
      StatementsRender(e.body);
      ElseRenders(e.els);
    } else {
      StatementsRender(els);
    }
  }

  lemma {:induction false} ConditionRenders(c: Node)
    requires ConditionShape(c)
    ensures Renderable(c)
  {
    if c.And? || c.Or? {
      ConditionRenders(c.lhs);
      ConditionRenders(c.rhs);
    }
  }

  /** codegen never fails on a program the parser accepts. */
  lemma ProgramRenders(p: Node, fixed: Fixed)
    requires ProgramShape(p)
    ensures Codegen(p, fixed).Ok?
  {
    StatementsRender(p.stmts);
    GenOk(p, 0, fixed);
  }

  // ---------------------------------------------------------------------------
  // Lists

  /** gen_block renders a list in order: the text of two lists one after the other
      is the text of the first followed by the text of the second. */
  lemma {:induction false} GenBlockAppend(a: seq<Node>, b: seq<Node>, depth: nat, fixed: Fixed)
    ensures GenBlock(a + b, depth, fixed).Ok? <==> GenBlock(a, depth, fixed).Ok? && GenBlock(b, depth, fixed).Ok?
    ensures GenBlock(a + b, depth, fixed).Ok? ==>
      GenBlock(a + b, depth, fixed).value == GenBlock(a, depth, fixed).value + GenBlock(b, depth, fixed).value
    decreases |a|
  {
    if a == [] {
      assert a + b == b;
    } else {
      assert (a + b)[0] == a[0];
      assert (a + b)[1..] == a[1..] + b;
      GenBlockAppend(a[1..], b, depth, fixed);
      if GenBlock(a + b, depth, fixed).Ok? {
        var h := Gen(a[0], depth, fixed).value;
        var x := GenBlock(a[1..], depth, fixed).value;
        var y := GenBlock(b, depth, fixed).value;
        assert h + (x + y) == (h + x) + y;
      }
    }
  }

  // ---------------------------------------------------------------------------
  // Lines

  /** A value renders as a single piece of a line, whatever the depth. */
  lemma ValueText(v: Node, depth: nat, fixed: Fixed)
    requires ValueShape(v) && FixedPlain(fixed)
    ensures Gen(v, depth, fixed).Ok? && Plain(Gen(v, depth, fixed).value)
  {
  }

  /** Conditions are rendered fully parenthesised, on one line, and the same at any
      depth: gen is always called on them at depth 0 and they carry no tab. */
  lemma {:induction false} ConditionText(c: Node, depth: nat, fixed: Fixed)
    requires ConditionShape(c) && FixedPlain(fixed)
    ensures Gen(c, depth, fixed).Ok? && Gen(c, depth, fixed) == Gen(c, 0, fixed)
    ensures var t := Gen(c, depth, fixed).value;
      Plain(t) && |t| >= 2 && t[0] == '(' && t[|t| - 1] == ')'
  {
    if c.And? || c.Or? {
      ConditionText(c.lhs, 0, fixed);
      ConditionText(c.rhs, 0, fixed);
    } else {
      ValueText(c.lhs, 0, fixed);
      ValueText(c.rhs, 0, fixed);
    }
    InfixText(c, depth, fixed);
  }

  /** An infix node whose operands render as pieces of a line renders as one
      parenthesised piece, the same at every depth. */
  lemma InfixText(c: Node, depth: nat, fixed: Fixed)
    requires IsComparison(c) || c.And? || c.Or?
    requires Gen(c.lhs, 0, fixed).Ok? && Plain(Gen(c.lhs, 0, fixed).value)
    requires Gen(c.rhs, 0, fixed).Ok? && Plain(Gen(c.rhs, 0, fixed).value)
    ensures Gen(c, depth, fixed).Ok? && Gen(c, depth, fixed) == Gen(c, 0, fixed)
    ensures var t := Gen(c, depth, fixed).value;
      Plain(t) && |t| >= 2 && t[0] == '(' && t[|t| - 1] == ')'
  {
    var l := Gen(c.lhs, 0, fixed).value;
    var r := Gen(c.rhs, 0, fixed).value;
    InfixRule(c, depth, fixed);
    InfixRule(c, 0, fixed);
    assert GenInfix(c, c.lhs, c.rhs, fixed) == Ok("(" + l + OperatorText(c) + r + ")");
    assert Plain(OperatorText(c));
    Parenthesised(l, OperatorText(c), r);
  }

  lemma Parenthesised(l: string, op: string, r: string)
    requires Plain(l) && Plain(op) && Plain(r)
    ensures var t := "(" + l + op + r + ")";
      Plain(t) && |t| >= 2 && t[0] == '(' && t[|t| - 1] == ')'
  {
  }

  /** A program is the stdio include and the head of main, its statements one tab
      in, then the return and the closing brace. */
  lemma ProgramText(p: Node, fixed: Fixed)
    requires p.Program? && Codegen(p, fixed).Ok?
    ensures var t := Codegen(p, fixed).value;
      var head := "#include <stdio.h>\nint main() {\n";
      var tail := "\treturn 0;\n}\n";
      GenBlock(p.stmts, 1, fixed).Ok?
      && t == head + GenBlock(p.stmts, 1, fixed).value + tail
      && t[..|head|] == head && t[|t| - |tail|..] == tail
  {
    var b := GenBlock(p.stmts, 1, fixed).value;
    var head := "#include <stdio.h>\n" + "int main() {\n";
    assert Indent(1) == "\t";
    assert Codegen(p, fixed).value == head + b + "\t" + "return 0;\n" + "}\n";
    assert head == "#include <stdio.h>\nint main() {\n";
    assert "\t" + "return 0;\n" + "}\n" == "\treturn 0;\n}\n";
    Framed(head, b, "\t", "return 0;\n", "}\n");
  }

  lemma Framed(head: string, b: string, t1: string, t2: string, t3: string)
    ensures var t := head + b + t1 + t2 + t3;
      t == head + b + (t1 + t2 + t3)
      && t[..|head|] == head && t[|t| - |t1 + t2 + t3|..] == t1 + t2 + t3
  {
  }

  /** Every if chain ends with its closing brace and exactly one newline, whether
      it ends with an else-if, an else or nothing. */
  lemma {:induction false} ChainEnd(n: Node, depth: nat, fixed: Fixed)
    requires (n.If? || n.ElseIf?) && Gen(n, depth, fixed).Ok?
    ensures var t := Gen(n, depth, fixed).value;
      |t| >= 2 && t[|t| - 2..] == "}\n"
    decreases n
  {
    var head := if n.If? then Indent(depth) + "if (" else " else if (";
    assert Gen(n, depth, fixed) == GenIf(n, head, depth, fixed);
    var ct := Gen(n.cond, 0, fixed).value;
    var bt := GenBlock(n.body, depth + 1, fixed).value;
    var e := GenElse(n.els, depth, fixed);
    assert e.Ok?;
    var t := Gen(n, depth, fixed).value;
    assert t == (head + ct + ") {\n" + bt + Indent(depth) + "}") + e.value;
    var els := n.els;
    if els == [] {
      assert e.value == "\n";
    } else if els[0].ElseIf? {
      assert e == Gen(els[0], depth, fixed);
      ChainEnd(els[0], depth, fixed);
    } else {
      var b := GenBlock(els, depth + 1, fixed).value;
      assert e.value == (" else {\n" + b + Indent(depth)) + "}\n";
    }
  }

  /** An if starts its line at the statement's indentation; the else-ifs after it
      continue that line after the ｝. */
  lemma IfStart(n: Node, depth: nat, fixed: Fixed)
    requires Gen(n, depth, fixed).Ok?
    ensures n.If? ==> var t := Gen(n, depth, fixed).value;
      |t| >= depth + 4 && t[..depth + 4] == Indent(depth) + "if ("
    ensures n.ElseIf? ==> var t := Gen(n, depth, fixed).value;
      |t| >= 10 && t[..10] == " else if ("
  {
  }

  // ---------------------------------------------------------------------------
  // Names

  /** The tree with every variable name erased. */
  function StripNames(n: Node): (r: Node)
    decreases n, 1
  {
    match n
    case Program(ss) => Program(StripAll(ss))
    case Block(ss) => Block(StripAll(ss))
    case If(c, body, els) => If(StripNames(c), StripAll(body), StripAll(els))
    case ElseIf(c, body, els) => ElseIf(StripNames(c), StripAll(body), StripAll(els))
    case Loop(c, body) => Loop(StripNames(c), StripAll(body))
    case Declare(lhs, rhs) => Declare(StripNames(lhs), StripNames(rhs))
    case Assign(lhs, rhs) => Assign(StripNames(lhs), StripNames(rhs))
    case Add(lhs, rhs) => Add(StripNames(lhs), StripNames(rhs))
    case Sub(lhs, rhs) => Sub(StripNames(lhs), StripNames(rhs))
    case Mul(lhs, rhs) => Mul(StripNames(lhs), StripNames(rhs))
    case Div(lhs, rhs) => Div(StripNames(lhs), StripNames(rhs))
    case Input(lhs) => Input(StripNames(lhs))
    case Output(lhs) => Output(StripNames(lhs))
    case Var(_, id) => Var([], id)
    case Literal(_) => n
    case StrLit(_, _) => n
    case Eq(lhs, rhs) => Eq(StripNames(lhs), StripNames(rhs))
    case Ne(lhs, rhs) => Ne(StripNames(lhs), StripNames(rhs))
    case Lt(lhs, rhs) => Lt(StripNames(lhs), StripNames(rhs))
    case Le(lhs, rhs) => Le(StripNames(lhs), StripNames(rhs))
    case Gt(lhs, rhs) => Gt(StripNames(lhs), StripNames(rhs))
    case Ge(lhs, rhs) => Ge(StripNames(lhs), StripNames(rhs))
    case And(lhs, rhs) => And(StripNames(lhs), StripNames(rhs))
    case Or(lhs, rhs) => Or(StripNames(lhs), StripNames(rhs))
  }

  function StripAll(ss: seq<Node>): (r: seq<Node>)
    ensures |r| == |ss|
    decreases ss, 0
  {
    if ss == [] then [] else [StripNames(ss[0])] + StripAll(ss[1..])
  }

  /** Variables reach the output only through their ids: erasing every name
      changes nothing in the generated program. */
  lemma {:induction false} NamesIgnored(n: Node, depth: nat, fixed: Fixed)
    ensures Gen(StripNames(n), depth, fixed) == Gen(n, depth, fixed)
    decreases n, 1
  {
    if n.Program? || n.Block? || n.If? || n.ElseIf? || n.Loop? {
      CompoundNamesIgnored(n, depth, fixed);
    } else if IsUpdate(n) {
      UpdateNamesIgnored(n, depth, fixed);
    } else if IsComparison(n) || n.And? || n.Or? {
      InfixNamesIgnored(n, depth, fixed);
    } else if n.Output? {
      OutputNamesIgnored(n, depth, fixed);
    } else if n.Declare? || n.Assign? {
      BindNamesIgnored(n, depth, fixed);
    } else {
      LeafNamesIgnored(n, depth, fixed);
    }
  }

  lemma {:induction false} CompoundNamesIgnored(n: Node, depth: nat, fixed: Fixed)
    requires n.Program? || n.Block? || n.If? || n.ElseIf? || n.Loop?
    ensures Gen(StripNames(n), depth, fixed) == Gen(n, depth, fixed)
    decreases n, 0
  {
    match n
    case Program(ss) => BlockNamesIgnored(ss, 1, fixed);
    case Block(ss) => BlockNamesIgnored(ss, depth, fixed);
    case If(c, body, els) =>
      NamesIgnored(c, 0, fixed);
      BlockNamesIgnored(body, depth + 1, fixed);
      ElseNamesIgnored(els, depth, fixed);
    case ElseIf(c, body, els) =>
      NamesIgnored(c, 0, fixed);
      BlockNamesIgnored(body, depth + 1, fixed);
      ElseNamesIgnored(els, depth, fixed);
    case Loop(c, body) =>
      NamesIgnored(c, 0, fixed);
      BlockNamesIgnored(body, depth + 1, fixed);
  }

  /** Erasing names keeps every node's kind and every variable's id. */
  lemma StripKeepsId(x: Node)
    ensures VarName(StripNames(x)) == VarName(x)
  {
    if x.Var? {
      assert StripNames(x) == Var([], x.id);
    } else {
      assert !StripNames(x).Var?;
    }
  }

  lemma LeafNamesIgnored(n: Node, depth: nat, fixed: Fixed)
    requires n.Var? || n.Literal? || n.StrLit? || n.Input?
    ensures Gen(StripNames(n), depth, fixed) == Gen(n, depth, fixed)
  {
    var m := StripNames(n);
    if n.Input? {
      assert m == Input(StripNames(n.lhs));
      StripKeepsId(n.lhs);
    } else if n.Var? {
      assert m == Var([], n.id);
    } else {
      assert m == n;
    }
  }

  lemma {:induction false} OutputNamesIgnored(n: Node, depth: nat, fixed: Fixed)
    requires n.Output?
    ensures Gen(StripNames(n), depth, fixed) == Gen(n, depth, fixed)
    decreases n, 0
  {
    var m := StripNames(n);
    assert m == Output(StripNames(n.lhs));
    if n.lhs.StrLit? {
      assert m.lhs == n.lhs;
    } else {
      NamesIgnored(n.lhs, 0, fixed);
    }
  }

  lemma {:induction false} BindNamesIgnored(n: Node, depth: nat, fixed: Fixed)
    requires n.Declare? || n.Assign?
    ensures Gen(StripNames(n), depth, fixed) == Gen(n, depth, fixed)
    decreases n, 0
  {
    var m := StripNames(n);
    StripKeepsId(n.lhs);
    NamesIgnored(n.rhs, 0, fixed);
    if n.Declare? {
      assert m == Declare(StripNames(n.lhs), StripNames(n.rhs));
    } else {
      assert m == Assign(StripNames(n.lhs), StripNames(n.rhs));
    }
  }

  lemma {:induction false} UpdateNamesIgnored(n: Node, depth: nat, fixed: Fixed)
    requires IsUpdate(n)
    ensures Gen(StripNames(n), depth, fixed) == Gen(n, depth, fixed)
    decreases n, 0
  {
    var m := StripNames(n);
    StripBinary(n);
    NamesIgnored(n.lhs, 0, fixed);
    NamesIgnored(n.rhs, 0, fixed);
    UpdateRule(m, depth, fixed);
    UpdateRule(n, depth, fixed);
    SameUpdate(m, n, depth, fixed);
  }

  lemma {:induction false} InfixNamesIgnored(n: Node, depth: nat, fixed: Fixed)
    requires IsComparison(n) || n.And? || n.Or?
    ensures Gen(StripNames(n), depth, fixed) == Gen(n, depth, fixed)
    decreases n, 0
  {
    var m := StripNames(n);
    StripBinary(n);
    NamesIgnored(n.lhs, 0, fixed);
    NamesIgnored(n.rhs, 0, fixed);
    InfixRule(m, depth, fixed);
    InfixRule(n, depth, fixed);
    SameInfix(m, n, fixed);
  }

  /** Erasing names keeps an operator node's kind and works on its operands. */
  lemma StripBinary(n: Node)
    requires IsUpdate(n) || IsComparison(n) || n.And? || n.Or?
    ensures var m := StripNames(n);
      IsUpdate(m) == IsUpdate(n) && IsComparison(m) == IsComparison(n)
      && m.And? == n.And? && m.Or? == n.Or? && OperatorText(m) == OperatorText(n)
      && m.lhs == StripNames(n.lhs) && m.rhs == StripNames(n.rhs)
  {
    match n
    case Add(_, _) =>
    case Sub(_, _) =>
    case Mul(_, _) =>
    case Div(_, _) =>
    case Eq(_, _) =>
    case Ne(_, _) =>
    case Lt(_, _) =>
    case Le(_, _) =>
    case Gt(_, _) =>
    case Ge(_, _) =>
    case And(_, _) =>
    case Or(_, _) =>
  }

  /** gen on a compound assignment is its update rule. */
  lemma UpdateRule(n: Node, depth: nat, fixed: Fixed)
    requires IsUpdate(n)
    ensures Gen(n, depth, fixed) == GenUpdate(n, n.lhs, n.rhs, depth, fixed)
  {
    match n
    case Add(_, _) =>
    case Sub(_, _) =>
    case Mul(_, _) =>
    case Div(_, _) =>
  }

  /** gen on a comparison or a logical node is its infix rule, whatever the depth. */
  lemma InfixRule(n: Node, depth: nat, fixed: Fixed)
    requires IsComparison(n) || n.And? || n.Or?
    ensures Gen(n, depth, fixed) == GenInfix(n, n.lhs, n.rhs, fixed)
  {
    match n
    case Eq(_, _) =>
    case Ne(_, _) =>
    case Lt(_, _) =>
    case Le(_, _) =>
    case Gt(_, _) =>
    case Ge(_, _) =>
    case And(_, _) =>
    case Or(_, _) =>
  }

  lemma SameUpdate(m: Node, n: Node, depth: nat, fixed: Fixed)
    requires IsUpdate(m) && IsUpdate(n) && OperatorText(m) == OperatorText(n)
    requires Gen(m.lhs, 0, fixed) == Gen(n.lhs, 0, fixed) && Gen(m.rhs, 0, fixed) == Gen(n.rhs, 0, fixed)
    ensures GenUpdate(m, m.lhs, m.rhs, depth, fixed) == GenUpdate(n, n.lhs, n.rhs, depth, fixed)
  {
  }

  lemma SameInfix(m: Node, n: Node, fixed: Fixed)
    requires IsComparison(m) || m.And? || m.Or?
    requires IsComparison(n) || n.And? || n.Or?
    requires OperatorText(m) == OperatorText(n)
    requires Gen(m.lhs, 0, fixed) == Gen(n.lhs, 0, fixed) && Gen(m.rhs, 0, fixed) == Gen(n.rhs, 0, fixed)
    ensures GenInfix(m, m.lhs, m.rhs, fixed) == GenInfix(n, n.lhs, n.rhs, fixed)
  {
  }

  lemma {:induction false} BlockNamesIgnored(ss: seq<Node>, depth: nat, fixed: Fixed)
    ensures GenBlock(StripAll(ss), depth, fixed) == GenBlock(ss, depth, fixed)
    decreases ss, 0
  {
    if ss != [] {
      var r := StripAll(ss);
      assert r[0] == StripNames(ss[0]) && r[1..] == StripAll(ss[1..]);
      NamesIgnored(ss[0], depth, fixed);
      BlockNamesIgnored(ss[1..], depth, fixed);
    }
  }

  lemma {:induction false} ElseNamesIgnored(els: seq<Node>, depth: nat, fixed: Fixed)
    ensures GenElse(StripAll(els), depth, fixed) == GenElse(els, depth, fixed)
    decreases els, 1
  {
    if els != [] {
      var r := StripAll(els);
      assert r[0] == StripNames(els[0]);
      if els[0].ElseIf? {
        NamesIgnored(els[0], depth, fixed);
      } else {
        BlockNamesIgnored(els, depth + 1, fixed);
      }
    }
  }
}
