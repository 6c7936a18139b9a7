/** codegen.c: the C program the compiler writes for a tree. `gen` is a walk whose
    only effect is to append to standard output, so it is a function from the tree
    to the text it appends; the loops of print_indent, gen_block and the argument
    list of a print literal are methods over an output buffer, proved to append
    exactly that text. */
module Generator {
  import opened Errors
  import opened Utf8
  import opened Ast
  import opened Seqs

  /** How printf("%f", atof(text)) renders a literal's digit text; the floating
      point conversion is not part of this model, so the generator takes it as a
      parameter. */
  type Fixed = seq<Byte> -> string

  /** A rendering of literals that puts no tab or newline in the output, as %f
      never does. */
  ghost predicate FixedPlain(fixed: Fixed) {
    forall t :: '\t' !in fixed(t) && '\n' !in fixed(t)
  }

  /** Text with neither a tab nor a newline: one piece of one line. */
  predicate Plain(s: string) {
    '\t' !in s && '\n' !in s
  }

  /** The bytes of a C string, as the characters printf writes for them. */
  function Chars(b: seq<Byte>): (r: string)
    ensures |r| == |b| && forall i | 0 <= i < |b| :: r[i] as int == b[i]
  {
    if b == [] then [] else [b[0] as char] + Chars(b[1..])
  }

  // ---------------------------------------------------------------------------
  // %d

  function Digit(d: nat): char
    requires d < 10
  {
    ('0' as int + d) as char
  }

  /** printf("%d", n) for n >= 0: decimal digits, most significant first, with no
      leading zero. */
  function NatText(n: nat): (r: string)
    ensures 1 <= |r| && forall i | 0 <= i < |r| :: '0' <= r[i] <= '9'
    ensures |r| > 1 ==> r[0] != '0'
  {
    if n < 10 then [Digit(n)] else NatText(n / 10) + [Digit(n % 10)]
  }

  /** printf("%d", n): a minus sign before the digits of a negative value. */
  function IntText(n: int): (r: string)
    ensures Plain(r) && r != []
  {
    if n < 0 then "-" + NatText(-n) else NatText(n)
  }

  /** The value a string of decimal digits denotes. */
  function DigitsValue(s: string): int {
    if s == [] then 0 else DigitsValue(s[..|s| - 1]) * 10 + (s[|s| - 1] as int - '0' as int)
  }

  /** Reading the digits back gives the number printed: %d loses nothing, so
      distinct variable ids give distinct C names. */
  lemma {:induction false} NatTextValue(n: nat)
    ensures DigitsValue(NatText(n)) == n
  {
    var r := NatText(n);
    if n >= 10 {
      NatTextValue(n / 10);
      assert r[..|r| - 1] == NatText(n / 10);
    }
  }

  lemma {:induction false} IntTextInjective(a: int, b: int)
    requires IntText(a) == IntText(b)
    ensures a == b
  {
    if a < 0 {
      assert IntText(a)[0] == '-';
      assert b < 0;
      assert NatText(-b) == IntText(b)[1..] == IntText(a)[1..] == NatText(-a);
    } else {
      assert b >= 0;
    }
    NatTextValue(if a < 0 then -a else a);
    NatTextValue(if b < 0 then -b else b);
  }

  // ---------------------------------------------------------------------------
  // The rendering rules

  /** print_indent: `depth` tabs. */
  function Indent(depth: nat): (r: string)
    ensures |r| == depth && forall i | 0 <= i < depth :: r[i] == '\t'
  {
    if depth == 0 then [] else Indent(depth - 1) + "\t"
  }

  /** The C name of a variable node; it is built from the id alone (a node that
      is no variable reads as the calloc value 0). */
  function VarName(n: Node): string {
    "jpc_var_" + IntText(if n.Var? then n.id else 0)
  }

  /** The variables a print literal interpolates, in order. */
  function ArgsText(args: seq<int>): string {
    if args == [] then [] else ArgsText(args[..|args| - 1]) + (", jpc_var_" + IntText(args[|args| - 1]))
  }

  /** The C operator of a comparison, a logical node or an update. */
  function OperatorText(n: Node): string {
    match n
    case Eq(_, _) => " == "
    case Ne(_, _) => " != "
    case Lt(_, _) => " < "
    case Le(_, _) => " <= "
    case Gt(_, _) => " > "
    case Ge(_, _) => " >= "
    case And(_, _) => " && "
    case Or(_, _) => " || "
    case Add(_, _) => " += "
    case Sub(_, _) => " -= "
    case Mul(_, _) => " *= "
    case Div(_, _) => " /= "
    case _ => ""
  }

  /** gen: the text appended for `n` at indentation `depth`; a node with no rule
      (a print literal anywhere but directly under an output) is a codegen error. */
  function Gen(n: Node, depth: nat, fixed: Fixed): Result<string>
    decreases n, 1
  {
    match n
    case Program(ss) =>
      var b :- GenBlock(ss, 1, fixed);
      Ok("#include <stdio.h>\n" + "int main() {\n" + b + Indent(1) + "return 0;\n" + "}\n")
    case Block(ss) => GenBlock(ss, depth, fixed)
    case If(_, _, _) => GenIf(n, Indent(depth) + "if (", depth, fixed)
    case ElseIf(_, _, _) => GenIf(n, " else if (", depth, fixed)
    case Loop(c, body) =>
      var ct :- Gen(c, 0, fixed);
      var bt :- GenBlock(body, depth + 1, fixed);
      Ok(Indent(depth) + "while (" + ct + ") {\n" + bt + Indent(depth) + "}\n")
    case Declare(lhs, rhs) =>
      var r :- Gen(rhs, 0, fixed);
      Ok(Indent(depth) + "double " + VarName(lhs) + " = " + r + ";\n")
    case Assign(lhs, rhs) =>
      var r :- Gen(rhs, 0, fixed);
      Ok(Indent(depth) + VarName(lhs) + " = " + r + ";\n")
    case Input(lhs) =>
      Ok(Indent(depth) + "scanf(\"%lf\", &" + VarName(lhs) + ");\n")
    case Output(lhs) =>
      if lhs.StrLit? then
        Ok(Indent(depth) + "printf(\"" + Chars(lhs.strVal) + "\"" + ArgsText(lhs.args) + ");\n")
      else
        var e :- Gen(lhs, 0, fixed);
        Ok(Indent(depth) + "printf(\"%g\\n\", " + e + ");\n")
    case Add(lhs, rhs) => GenUpdate(n, lhs, rhs, depth, fixed)
    case Sub(lhs, rhs) => GenUpdate(n, lhs, rhs, depth, fixed)
    case Mul(lhs, rhs) => GenUpdate(n, lhs, rhs, depth, fixed)
    case Div(lhs, rhs) => GenUpdate(n, lhs, rhs, depth, fixed)
    case Eq(lhs, rhs) => GenInfix(n, lhs, rhs, fixed)
    case Ne(lhs, rhs) => GenInfix(n, lhs, rhs, fixed)
    case Lt(lhs, rhs) => GenInfix(n, lhs, rhs, fixed)
    case Le(lhs, rhs) => GenInfix(n, lhs, rhs, fixed)
    case Gt(lhs, rhs) => GenInfix(n, lhs, rhs, fixed)
    case Ge(lhs, rhs) => GenInfix(n, lhs, rhs, fixed)
    case And(lhs, rhs) => GenInfix(n, lhs, rhs, fixed)
    case Or(lhs, rhs) => GenInfix(n, lhs, rhs, fixed)
    case Literal(text) => Ok(fixed(text))
    case Var(_, _) => Ok(VarName(n))
    case StrLit(_, _) => Err(CodegenError)
  }

  /** An if or else-if node: its head, the condition, the braced body, then what
      its `els` holds. */
  function GenIf(n: Node, head: string, depth: nat, fixed: Fixed): Result<string>
    requires n.If? || n.ElseIf?
    decreases n, 0
  {
    var ct :- Gen(n.cond, 0, fixed);
    var bt :- GenBlock(n.body, depth + 1, fixed);
    var et :- GenElse(n.els, depth, fixed);
    Ok(head + ct + ") {\n" + bt + Indent(depth) + "}" + et)
  }

  /** What follows the ｝ of an if or else-if: the next else-if on the same line,
      a braced else, or the newline that ends the chain. */
  function GenElse(els: seq<Node>, depth: nat, fixed: Fixed): Result<string>
    decreases els, 1
  {
    if els == [] then Ok("\n")
    else if els[0].ElseIf? then Gen(els[0], depth, fixed)
    else
      var b :- GenBlock(els, depth + 1, fixed);
      Ok(" else {\n" + b + Indent(depth) + "}\n")
  }

  function GenUpdate(n: Node, lhs: Node, rhs: Node, depth: nat, fixed: Fixed): Result<string>
    requires lhs < n && rhs < n
    decreases n, 0
  {
    var l :- Gen(lhs, 0, fixed);
    var r :- Gen(rhs, 0, fixed);
    Ok(Indent(depth) + l + OperatorText(n) + r + ";\n")
  }

  function GenInfix(n: Node, lhs: Node, rhs: Node, fixed: Fixed): Result<string>
    requires lhs < n && rhs < n
    decreases n, 0
  {
    var l :- Gen(lhs, 0, fixed);
    var r :- Gen(rhs, 0, fixed);
    Ok("(" + l + OperatorText(n) + r + ")")
  }

  /** gen_block: the statements of a list, in order, at one depth. */
  function GenBlock(ss: seq<Node>, depth: nat, fixed: Fixed): Result<string>
    decreases ss, 0
  {
    if ss == [] then Ok([])
    else
      var h :- Gen(ss[0], depth, fixed);
      var t :- GenBlock(ss[1..], depth, fixed);
      Ok(h + t)
  }

  /** codegen: the whole program, at depth 0. */
  function Codegen(n: Node, fixed: Fixed): Result<string> {
    Gen(n, 0, fixed)
  }
}
