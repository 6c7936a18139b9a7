/** The token kinds of lexer.h and the token the lexer hands to the parser. */
module Tokens {
  import opened Utf8

  /** One constructor per TokenType of lexer.h, in the same order. */
  datatype TokenType =
    | TkEof
    | TkMain                                  // メイン
    | TkVariable | TkLiteral | TkPrintLit     // ”…”, 「…」 numeric, 「…」 text
    | TkWs | TkLn                             // full-width space, newline
    | TkLPar | TkRPar | TkLBrace | TkRBrace | TkPeriod
    | TkWo | TkNi | TkKara | TkGa             // particles を に から が
    | TkDeclare | TkDiv | TkAssign | TkAdd | TkMul | TkSub | TkInput | TkOutput
    | TkLoop | TkIf | TkElseIf | TkElse
    | TkOpGe | TkOpLe | TkOpGt | TkOpLt | TkOpEq | TkOpNe
    | TkAnd | TkOr

  /** The lookahead: the global `token` together with `tokenStr`. */
  datatype Token = Token(kind: TokenType, text: seq<Byte>)
}
