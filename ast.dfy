/** The syntax tree of parser.h. A `Node *` that heads a `next`-linked list of
    statements is a sequence of nodes, null being the empty sequence; the other
    link fields hold one node. */
module Ast {
  import opened Utf8

  /** One constructor per NodeKind of parser.h, in the same order. Var carries the
      variable id and StrLit the ids of its arguments, which the generator reads;
      the parser leaves them at their calloc value (0, none). A literal keeps its
      digit text in place of the double that atof would make of it. */
  datatype Node =
    | Program(stmts: seq<Node>)
    | Block(stmts: seq<Node>)
    | If(cond: Node, body: seq<Node>, els: seq<Node>)
    | ElseIf(cond: Node, body: seq<Node>, els: seq<Node>)
    | Loop(cond: Node, body: seq<Node>)
    | Declare(lhs: Node, rhs: Node)
    | Assign(lhs: Node, rhs: Node)
    | Add(lhs: Node, rhs: Node)
    | Sub(lhs: Node, rhs: Node)
    | Mul(lhs: Node, rhs: Node)
    | Div(lhs: Node, rhs: Node)
    | Input(lhs: Node)
    | Output(lhs: Node)
    | Var(name: seq<Byte>, id: int)
    | Literal(text: seq<Byte>)
    | StrLit(strVal: seq<Byte>, args: seq<int>)
    | Eq(lhs: Node, rhs: Node)
    | Ne(lhs: Node, rhs: Node)
    | Lt(lhs: Node, rhs: Node)
    | Le(lhs: Node, rhs: Node)
    | Gt(lhs: Node, rhs: Node)
    | Ge(lhs: Node, rhs: Node)
    | And(lhs: Node, rhs: Node)
    | Or(lhs: Node, rhs: Node)

  /** The six comparisons. */
  predicate IsComparison(n: Node) {
    n.Eq? || n.Ne? || n.Lt? || n.Le? || n.Gt? || n.Ge?
  }

  /** The compound assignments. */
  predicate IsUpdate(n: Node) {
    n.Add? || n.Sub? || n.Mul? || n.Div?
  }

  // ---------------------------------------------------------------------------
  // The trees the parser builds

  /** parse_value: a literal or a variable, as the parser makes them. */
  predicate ValueShape(n: Node) {
    n.Literal? || (n.Var? && n.id == 0)
  }

  /** A variable as the parser makes it. */
  predicate VarShape(n: Node) {
    n.Var? && n.id == 0
  }

  /** parse_simple_condition: a variable compared with a value. */
  predicate SimpleConditionShape(c: Node) {
    IsComparison(c) && VarShape(c.lhs) && ValueShape(c.rhs)
  }

  /** A condition: comparisons joined by AND and OR. */
  predicate ConditionShape(c: Node) {
    if c.And? || c.Or? then ConditionShape(c.lhs) && ConditionShape(c.rhs)
    else SimpleConditionShape(c)
  }

  /** The statement forms of parse_statement. */
  predicate StatementShape(s: Node)
    decreases s, 0
  {
    match s
    case Output(lhs) => lhs.Literal? || (lhs.StrLit? && lhs.args == [])
    case Declare(lhs, rhs) => VarShape(lhs) && ValueShape(rhs)
    case Div(lhs, rhs) => VarShape(lhs) && ValueShape(rhs)
    case Assign(lhs, rhs) => VarShape(lhs) && ValueShape(rhs)
    case Add(lhs, rhs) => VarShape(lhs) && ValueShape(rhs)
    case Mul(lhs, rhs) => VarShape(lhs) && ValueShape(rhs)
    case Sub(lhs, rhs) => VarShape(lhs) && ValueShape(rhs)
    case Input(lhs) => VarShape(lhs)
    case Loop(cond, body) => ConditionShape(cond) && StatementsShape(body)
    case If(cond, body, els) => ConditionShape(cond) && StatementsShape(body) && ElseShape(els)
    case _ => false
  }

  /** Every node of `ss` is a statement (stated by recursion on the list, the way
      the parser links it). */
  predicate StatementsShape(ss: seq<Node>)
    decreases ss, 0
  {
    ss == [] || (StatementShape(ss[0]) && StatementsShape(ss[1..]))
  }

  /** What an `els` link holds: nothing, one else-if arm, or the else statements. */
  predicate ElseShape(els: seq<Node>)
    decreases els, 1
  {
    if |els| == 1 && els[0].ElseIf? then
      ConditionShape(els[0].cond) && StatementsShape(els[0].body) && ElseShape(els[0].els)
    else StatementsShape(els)
  }

  predicate ProgramShape(p: Node) {
    p.Program? && StatementsShape(p.stmts)
  }

  /** A statement list is a list of statements, element by element. */
  lemma {:induction false} StatementsShapeAt(ss: seq<Node>, i: nat)
    requires StatementsShape(ss) && i < |ss|
    ensures StatementShape(ss[i])
    decreases i
  {
    if i > 0 {
      assert ss[1..][i - 1] == ss[i];
      StatementsShapeAt(ss[1..], i - 1);
    }
  }

  /** Linking a statement at the end keeps a statement list. */
  lemma {:induction false} StatementsShapeAppend(ss: seq<Node>, s: Node)
    requires StatementsShape(ss) && StatementShape(s)
    ensures StatementsShape(ss + [s])
    decreases |ss|
  {
    if ss == [] {
      assert [] + [s] == [s];
      assert [s][1..] == [];
    } else {
      assert (ss + [s])[1..] == ss[1..] + [s];
      StatementsShapeAppend(ss[1..], s);
    }
  }
}
