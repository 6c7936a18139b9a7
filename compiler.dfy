/** The three stages one after the other: the lexer turns the file into tokens on
    demand, parse_program reads them into a tree, and codegen writes the C program for it. */
module Compiler {
  import opened Errors
  import opened Utf8
  import opened Tokens
  import opened Ast
  import opened LexSpec
  import opened Lexer
  import opened ParseSpec
  import opened Generator
  import opened CodegenProps
  import opened RoundTrip

  /** The tokens the lexer delivers for a file; a lexical error on the very first
      token stops the compiler before the parser starts. */
  function Compile(src: seq<Byte>, fixed: Fixed): Result<string> {
    var (toks, failed) := Tokenize(NoCR(src));
    if toks == [] then Err(LexerError)
    else
      var tree :- ParseSpec.ParseProgram(Stream(toks, failed));
      Codegen(tree, fixed)
  }

  /** TK_EOF comes only last, and it does come unless lexing stopped on an
      error first. */
  predicate EofLast(ts: seq<Token>, failed: bool) {
    (forall i | 0 <= i < |ts| - 1 :: ts[i].kind != TkEof)
    && (!failed ==> ts != [] && ts[|ts| - 1].kind == TkEof)
    && (failed ==> forall i | 0 <= i < |ts| :: ts[i].kind != TkEof)
  }

  lemma EofLastCons(t: Token, ts: seq<Token>, failed: bool)
    requires t.kind != TkEof && EofLast(ts, failed)
    ensures EofLast([t] + ts, failed)
  {
    forall i | 1 <= i < |[t] + ts|
      ensures ([t] + ts)[i] == ts[i - 1]
    {
    }
  }

  /** The lexer delivers TK_EOF once, as its last token, unless it stops on a
      lexical error first. */
  lemma {:induction false} TokensEndAtEof(s: seq<Byte>)
    ensures EofLast(Tokenize(s).0, Tokenize(s).1)
    decreases |s|
  {
    var r := NextToken(s);
    if r.LexOk? && r.tok.kind != TkEof {
      TokensEndAtEof(r.rest);
      EofLastCons(r.tok, Tokenize(r.rest).0, Tokenize(r.rest).1);
    }
  }

  /** Once the parser accepts the tokens, code generation cannot fail: the
      compiler stops with an error only in the lexer or the parser, and its output
      is the rendering of the parsed program. */
  lemma CompileFails(src: seq<Byte>, fixed: Fixed)
    ensures var (toks, failed) := Tokenize(NoCR(src));
      (Compile(src, fixed).Ok? <==> toks != [] && ParseSpec.ParseProgram(Stream(toks, failed)).Ok?)
      && (Compile(src, fixed).Ok? ==>
            Compile(src, fixed).value == Codegen(ParseSpec.ParseProgram(Stream(toks, failed)).value, fixed).value)
  {
    var (toks, failed) := Tokenize(NoCR(src));
    if toks != [] {
      var r := ParseSpec.ParseProgram(Stream(toks, failed));
      if r.Ok? {
        ProgramRenders(r.value, fixed);
      }
    }
  }

  /** A compiled program starts with the stdio include and the head of main and
      ends by returning 0 from main. */
  lemma CompiledShape(src: seq<Byte>, fixed: Fixed)
    requires Compile(src, fixed).Ok?
    ensures var t := Compile(src, fixed).value;
      var head := "#include <stdio.h>\nint main() {\n";
      var tail := "\treturn 0;\n}\n";
      |t| >= |head| + |tail| && t[..|head|] == head && t[|t| - |tail|..] == tail
  {
    var (toks, failed) := Tokenize(NoCR(src));
    var p := ParseSpec.ParseProgram(Stream(toks, failed)).value;
    CompileFails(src, fixed);
    ProgramText(p, fixed);
  }

  /** A source whose tokens spell a program compiles to that program's rendering.
      The lexer's keyword and symbol tokens carry their own bytes as text; the
      spelling matches them by kind alone. */
  lemma CompileSpelled(src: seq<Byte>, fixed: Fixed, p: Node)
    requires ProgramShape(p)
    requires Reads(Stream(Tokenize(NoCR(src)).0, Tokenize(NoCR(src)).1), 0, UnparseProgram(p))
    requires Live(Stream(Tokenize(NoCR(src)).0, Tokenize(NoCR(src)).1), |UnparseProgram(p)|)
    ensures Compile(src, fixed) == Codegen(p, fixed)
  {
    var (toks, failed) := Tokenize(NoCR(src));
    ProgramRoundTrip(Stream(toks, failed), p);
  }
}
