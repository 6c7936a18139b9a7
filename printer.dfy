/** The loops of codegen.c over standard output: the output is a buffer that only
    ever grows, and each loop is proved to append what the rendering functions of
    Generator say. */
module Printer {
  import opened Errors
  import opened Ast
  import opened Generator
  import opened CodegenProps
  import opened Seqs

  class Stdout {
    /** Everything written so far. */
    var out: string

    constructor ()
      ensures out == []
    {
      out := [];
    }

    /** print_indent: one tab per level. */
    method PrintIndent(depth: nat)
      modifies this
      ensures out == old(out) + Indent(depth)
    {
      for i := 0 to depth
        invariant out == old(out) + Indent(i)
      {
        out := out + "\t";
      }
    }

    /** The loop over a print literal's arguments in gen's output rule: one
        `, jpc_var_<id>` per argument, in order. */
    method PrintArgs(args: seq<int>)
      modifies this
      ensures out == old(out) + ArgsText(args)
    {
      for i := 0 to |args|
        invariant out == old(out) + ArgsText(args[..i])
      {
        var piece := ", jpc_var_" + IntText(args[i]);
        assert args[..i + 1][..i] == args[..i];
        assert ArgsText(args[..i + 1]) == ArgsText(args[..i]) + piece;
        AppendAssoc(old(out), ArgsText(args[..i]), piece);
        out := out + piece;
      }
      assert args[..|args|] == args;
    }

    /** gen_block: gen for each statement of the list, in order, at one depth. It
        stops at the first statement gen cannot render, with a codegen error. */
    method GenBlock(ss: seq<Node>, depth: nat, fixed: Fixed) returns (o: Outcome)
      modifies this
      ensures o.Pass? <==> Generator.GenBlock(ss, depth, fixed).Ok?
      ensures o.Pass? ==> out == old(out) + Generator.GenBlock(ss, depth, fixed).value
      ensures o.Fail? ==> o.error == CodegenError && old(out) <= out
    {
      for i := 0 to |ss|
        invariant Generator.GenBlock(ss[..i], depth, fixed).Ok?
        invariant out == old(out) + Generator.GenBlock(ss[..i], depth, fixed).value
      {
        var t := Gen(ss[i], depth, fixed);
        if t.Err? {
          BlockStops(ss, i, depth, fixed);
          return Fail(CodegenError);
        }
        BlockStep(ss, i, depth, fixed);
        AppendAssoc(old(out), Generator.GenBlock(ss[..i], depth, fixed).value, t.value);
        out := out + t.value;
      }
      assert ss[..|ss|] == ss;
      return Pass;
    }
  }

  /** One more statement rendered: the text of the first i + 1 statements is the
      text of the first i followed by the new one. */
  lemma BlockStep(ss: seq<Node>, i: nat, depth: nat, fixed: Fixed)
    requires i < |ss| && GenBlock(ss[..i], depth, fixed).Ok? && Gen(ss[i], depth, fixed).Ok?
    ensures GenBlock(ss[..i + 1], depth, fixed)
      == Ok(GenBlock(ss[..i], depth, fixed).value + Gen(ss[i], depth, fixed).value)
  {
    var t := Gen(ss[i], depth, fixed);
    GenBlockAppend(ss[..i], [ss[i]], depth, fixed);
    assert ss[..i] + [ss[i]] == ss[..i + 1];
    assert [ss[i]][1..] == [];
    AppendNil(t.value);
    assert GenBlock([ss[i]], depth, fixed) == t;
  }

  /** A statement gen cannot render stops the whole list with a codegen error. */
  lemma BlockStops(ss: seq<Node>, i: nat, depth: nat, fixed: Fixed)
    requires i < |ss| && Gen(ss[i], depth, fixed).Err?
    ensures GenBlock(ss, depth, fixed).Err?
  {
    var t := Gen(ss[i], depth, fixed);
    GenBlockAppend(ss[..i], [ss[i]], depth, fixed);
    GenBlockAppend(ss[..i + 1], ss[i + 1..], depth, fixed);
    assert ss[..i] + [ss[i]] == ss[..i + 1];
    assert ss[..i + 1] + ss[i + 1..] == ss;
    assert [ss[i]][1..] == [];
    assert GenBlock([ss[i]], depth, fixed).Err?;
  }
}
