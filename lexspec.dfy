/** The lexer of lexer.c as functions of the pending byte stream: the bytes that the
    next `getCh` calls would deliver (pushback buffer first, then the file with its
    carriage returns removed). The Lexer class is proved to follow these functions. */
module LexSpec {
  import opened Errors
  import opened Utf8
  import opened Tokens

  // ---------------------------------------------------------------------------
  // readUTF8Char

  /** The stream after readUTF8Char's skipping of half-width spaces and tabs. */
  function DropBlanks(s: seq<Byte>): (r: seq<Byte>)
    ensures |r| <= |s|
  {
    if s != [] && IsBlank(s[0]) then DropBlanks(s[1..]) else s
  }

  /** Skipping removes a run of blanks from the front and stops at a non-blank. */
  lemma {:induction false} DropBlanksSuffix(s: seq<Byte>)
    ensures DropBlanks(s) == s[|s| - |DropBlanks(s)|..]
    ensures DropBlanks(s) != [] ==> !IsBlank(DropBlanks(s)[0])
    ensures forall i | 0 <= i < |s| - |DropBlanks(s)| :: IsBlank(s[i])
  {
    if s != [] && IsBlank(s[0]) {
      DropBlanksSuffix(s[1..]);
    }
  }

  /** What one readUTF8Char call yields: end of input, or the C string left in its
      buffer together with the stream after the bytes it read. */
  datatype CharRead = EndOfInput | Char(ch: seq<Byte>, rest: seq<Byte>)

  function ReadChar(s: seq<Byte>, skip: bool): (r: CharRead)
    ensures r.Char? ==> |r.ch| + |r.rest| <= |s| && |r.rest| < |s|
    ensures r.Char? ==> r.rest == s[|s| - |r.rest|..]
    ensures r.Char? ==> forall i | 0 <= i < |r.ch| :: r.ch[i] != 0
  {
    var t := if skip then DropBlanks(s) else s;
    DropBlanksSuffix(s);
    if t == [] then EndOfInput
    else
      var n := Min(CharLen(t[0]), |t|);
      CStrPrefix(t[..n]);
      Char(CStr(t[..n]), t[n..])
  }

  /** readUTF8Char's second loop: bytes are appended to `raw` until it holds `len`
      of them or the input ends. */
  function ReadMore(raw: seq<Byte>, s: seq<Byte>, len: nat): (r: (seq<Byte>, seq<Byte>))
    decreases |s|
  {
    if |raw| >= len || s == [] then (raw, s) else ReadMore(raw + [s[0]], s[1..], len)
  }

  lemma {:induction false} ReadMoreTakes(raw: seq<Byte>, s: seq<Byte>, len: nat)
    ensures var m := if |raw| >= len then 0 else Min(len - |raw|, |s|);
      ReadMore(raw, s, len) == (raw + s[..m], s[m..])
    decreases |s|
  {
    if |raw| < len && s != [] {
      ReadMoreTakes(raw + [s[0]], s[1..], len);
      var m := Min(len - |raw|, |s|);
      assert raw + [s[0]] + s[1..][..m - 1] == raw + s[..m] by {
        assert [s[0]] + s[1..][..m - 1] == s[..m];
        AppendAssoc(raw, [s[0]], s[1..][..m - 1]);
      }
      assert s[1..][m - 1..] == s[m..];
    } else {
      assert s[..0] == [] && raw + [] == raw;
    }
  }

  /** The two loops of readUTF8Char compute ReadChar: after the first byte that is not
      skipped, the bytes its lead announces, or fewer at the end of input. */
  lemma ReadCharFromLead(s: seq<Byte>, skip: bool, t: seq<Byte>)
    requires t == (if skip then DropBlanks(s) else s) && t != []
    ensures ReadChar(s, skip) ==
      Char(CStr(ReadMore([t[0]], t[1..], CharLen(t[0])).0), ReadMore([t[0]], t[1..], CharLen(t[0])).1)
    ensures |ReadMore([t[0]], t[1..], CharLen(t[0])).0| <= 4
  {
    var len := CharLen(t[0]);
    ReadMoreTakes([t[0]], t[1..], len);
    var m := if 1 >= len then 0 else Min(len - 1, |t| - 1);
    assert [t[0]] + t[1..][..m] == t[..m + 1];
    assert t[1..][m..] == t[m + 1..];
    assert m + 1 == Min(len, |t|);
  }

  /** A character as it is encoded in a well-formed source: as long as its lead byte
      says, and free of NUL bytes. */
  predicate WholeChar(ch: seq<Byte>) {
    ch != [] && CharLen(ch[0]) == |ch| && forall i | 0 <= i < |ch| :: ch[i] != 0
  }

  lemma AppendAssoc(x: seq<Byte>, y: seq<Byte>, z: seq<Byte>)
    ensures x + y + z == x + (y + z)
  {
  }

  /** A whole character is read back exactly. */
  lemma ReadsWholeCharAt(ch: seq<Byte>, rest: seq<Byte>)
    requires WholeChar(ch)
    ensures ReadChar(ch + rest, false) == Char(ch, rest)
  {
    var t := ch + rest;
    assert t[..|ch|] == ch && t[|ch|..] == rest;
    CStrNoNul(ch);
  }

  /** A whole character, after any blanks the caller skips, is read back exactly. */
  lemma ReadsWholeChar(blanks: seq<Byte>, ch: seq<Byte>, rest: seq<Byte>, skip: bool)
    requires WholeChar(ch)
    requires forall i | 0 <= i < |blanks| :: IsBlank(blanks[i])
    requires skip ==> !IsBlank(ch[0])
    requires !skip ==> blanks == []
    ensures ReadChar(blanks + ch + rest, skip) == Char(ch, rest)
  {
    ReadsWholeCharAt(ch, rest);
    AppendAssoc(blanks, ch, rest);
    if skip {
      DropBlanksOver(blanks, ch + rest);
    } else {
      assert blanks + (ch + rest) == ch + rest;
    }
  }

  lemma {:induction false} DropBlanksOver(blanks: seq<Byte>, s: seq<Byte>)
    requires forall i | 0 <= i < |blanks| :: IsBlank(blanks[i])
    requires s != [] ==> !IsBlank(s[0])
    ensures DropBlanks(blanks + s) == s
  {
    if blanks == [] {
      assert blanks + s == s;
    } else {
      assert (blanks + s)[1..] == blanks[1..] + s;
      DropBlanksOver(blanks[1..], s);
    }
  }

  /** Every encoded code point is read back as itself, after skipped blanks. */
  lemma ReadsEncodedCodePoint(blanks: seq<Byte>, cp: nat, rest: seq<Byte>, skip: bool)
    requires 0 < cp < 0x110000
    requires forall i | 0 <= i < |blanks| :: IsBlank(blanks[i])
    requires skip ==> cp != SPACE && cp != TAB
    requires !skip ==> blanks == []
    ensures ReadChar(blanks + Encode(cp) + rest, skip) == Char(Encode(cp), rest)
  {
    EncodeIsOneChar(cp);
    var e := Encode(cp);
    assert forall i | 0 <= i < |e| :: e[i] != 0;
    ReadsWholeChar(blanks, e, rest, skip);
  }

  /** Concatenation of a list of characters. */
  function Concat(cs: seq<seq<Byte>>): seq<Byte> {
    if cs == [] then [] else cs[0] + Concat(cs[1..])
  }

  lemma {:induction false} ConcatAppend(a: seq<seq<Byte>>, b: seq<seq<Byte>>)
    ensures Concat(a + b) == Concat(a) + Concat(b)
  {
    if a == [] {
      assert a + b == b;
    } else {
      assert (a + b)[0] == a[0] && (a + b)[1..] == a[1..] + b;
      ConcatAppend(a[1..], b);
    }
  }

  // ---------------------------------------------------------------------------
  // checkKeyword

  /** checkKeyword(want) on stream `s`, `read` holding the bytes it has read so far:
      whether it matched, and the stream afterwards (on failure, the bytes read are
      pushed back in front of what is left). */
  function KeywordScan(s: seq<Byte>, want: seq<Byte>, read: seq<Byte>): (r: (bool, seq<Byte>))
    ensures |r.1| <= |read| + |s|
    ensures r.0 ==> |r.1| <= |s|
    decreases |s|
  {
    if want == [] then (true, s)
    else
      match ReadChar(s, true)
      case EndOfInput => (false, read)
      case Char(ch, rest) =>
        if ch <= want then KeywordScan(rest, want[|ch|..], read + ch)
        else (false, read + ch + rest)
  }

  /** A character on the keyword moves checkKeyword on to the rest of the keyword. */
  lemma KeywordScanMatch(s: seq<Byte>, want: seq<Byte>, read: seq<Byte>, p: nat, ch: seq<Byte>, rest: seq<Byte>,
                         read': seq<Byte>, p': nat)
    requires p < |want| && ReadChar(s, true) == Char(ch, rest) && ch <= want[p..]
    requires read' == read + ch && p' == p + |ch|
    ensures p' <= |want|
    ensures KeywordScan(s, want[p..], read) == KeywordScan(rest, want[p'..], read')
  {
    assert want[p..][|ch|..] == want[p'..];
  }

  /** A character off the keyword stops checkKeyword, which gives back what it read. */
  lemma KeywordScanMismatch(s: seq<Byte>, want: seq<Byte>, read: seq<Byte>, p: nat, ch: seq<Byte>, rest: seq<Byte>)
    requires p < |want| && ReadChar(s, true) == Char(ch, rest) && !(ch <= want[p..])
    ensures KeywordScan(s, want[p..], read) == (false, read + ch + rest)
  {
  }

  /** The end of input stops checkKeyword. */
  lemma KeywordScanEnd(s: seq<Byte>, want: seq<Byte>, read: seq<Byte>, p: nat)
    requires p < |want| && ReadChar(s, true) == EndOfInput
    ensures KeywordScan(s, want[p..], read) == (false, read + [])
  {
    assert read + [] == read;
  }

  /** The characters a run of readUTF8Char calls with blank skipping yields from `s`. */
  function CharsOf(s: seq<Byte>): seq<seq<Byte>>
    decreases |s|
  {
    match ReadChar(s, true)
    case EndOfInput => []
    case Char(ch, rest) => [ch] + CharsOf(rest)
  }

  /** The upcoming characters, blanks skipped, spell `e`. */
  ghost predicate Spells(s: seq<Byte>, e: seq<Byte>) {
    exists n :: 0 <= n <= |CharsOf(s)| && Concat(CharsOf(s)[..n]) == e
  }

  lemma ConcatPrefixCons(ch: seq<Byte>, cs: seq<seq<Byte>>, n: nat)
    requires 1 <= n <= |cs| + 1
    ensures Concat(([ch] + cs)[..n]) == ch + Concat(cs[..n - 1])
  {
    assert ([ch] + cs)[..n] == [ch] + cs[..n - 1];
  }

  lemma PrefixSplit(a: seq<Byte>, b: seq<Byte>)
    requires a <= b
    ensures a + b[|a|..] == b
  {
  }

  /** checkKeyword succeeds exactly when the upcoming characters spell the keyword. */
  lemma {:induction false} KeywordScanSpells(s: seq<Byte>, e: seq<Byte>, read: seq<Byte>)
    ensures KeywordScan(s, e, read).0 <==> Spells(s, e)
    decreases |s|
  {
    var cs := CharsOf(s);
    if e == [] {
      assert Concat(cs[..0]) == e;
    } else if ReadChar(s, true).EndOfInput? {
      assert cs == [];
    } else {
      var ch, rest := ReadChar(s, true).ch, ReadChar(s, true).rest;
      var cr := CharsOf(rest);
      assert cs == [ch] + cr;
      if Spells(s, e) {
        var n :| 0 <= n <= |cs| && Concat(cs[..n]) == e;
        assert n != 0 by { assert cs[..0] == []; }
        ConcatPrefixCons(ch, cr, n);
        assert Concat(cr[..n - 1]) == e[|ch|..];
        assert Spells(rest, e[|ch|..]);
        KeywordScanSpells(rest, e[|ch|..], read + ch);
      } else if ch <= e {
        KeywordScanSpells(rest, e[|ch|..], read + ch);
        if Spells(rest, e[|ch|..]) {
          var m :| 0 <= m <= |cr| && Concat(cr[..m]) == e[|ch|..];
          assert Concat(cs[..m + 1]) == e by {
            ConcatPrefixCons(ch, cr, m + 1);
            PrefixSplit(ch, e);
          }
        }
      }
    }
  }

  /** The stream without its half-width spaces and tabs. */
  function NoBlanks(s: seq<Byte>): seq<Byte> {
    if s == [] then [] else (if IsBlank(s[0]) then [] else [s[0]]) + NoBlanks(s[1..])
  }

  lemma {:induction false} NoBlanksAppend(a: seq<Byte>, b: seq<Byte>)
    ensures NoBlanks(a + b) == NoBlanks(a) + NoBlanks(b)
  {
    if a == [] {
      assert a + b == b;
    } else {
      assert (a + b)[0] == a[0] && (a + b)[1..] == a[1..] + b;
      NoBlanksAppend(a[1..], b);
    }
  }

  lemma {:induction false} NoBlanksOfBlanks(s: seq<Byte>)
    requires forall i | 0 <= i < |s| :: IsBlank(s[i])
    ensures NoBlanks(s) == []
  {
    if s != [] {
      NoBlanksOfBlanks(s[1..]);
    }
  }

  /** In a NUL-free stream, readUTF8Char loses nothing but the blanks it skips. */
  lemma ReadCharKeepsBytes(s: seq<Byte>)
    requires forall i | 0 <= i < |s| :: s[i] != 0
    ensures ReadChar(s, true).EndOfInput? ==> NoBlanks(s) == []
    ensures ReadChar(s, true).Char? ==>
      NoBlanks(s) == NoBlanks(ReadChar(s, true).ch + ReadChar(s, true).rest)
  {
    NoBlanksDrop(s);
    if DropBlanks(s) != [] {
      ReadCharSplits(s, DropBlanks(s));
    }
  }

  /** The blanks readUTF8Char skips are exactly what NoBlanks ignores. */
  lemma NoBlanksDrop(s: seq<Byte>)
    ensures NoBlanks(s) == NoBlanks(DropBlanks(s))
  {
    var t := DropBlanks(s);
    DropBlanksSuffix(s);
    var skipped := s[..|s| - |t|];
    assert s == skipped + t;
    NoBlanksOfBlanks(skipped);
    NoBlanksAppend(skipped, t);
  }

  /** In a NUL-free stream, the character read and the rest of the stream make up
      the stream after the skipped blanks. */
  lemma ReadCharSplits(s: seq<Byte>, t: seq<Byte>)
    requires forall i | 0 <= i < |s| :: s[i] != 0
    requires t == DropBlanks(s) && t != []
    ensures ReadChar(s, true).Char? && ReadChar(s, true).ch + ReadChar(s, true).rest == t
  {
    var n := Min(CharLen(t[0]), |t|);
    HeadNoNul(s, t, n);
    assert ReadChar(s, true) == Char(t[..n], t[n..]);
    assert t == t[..n] + t[n..];
  }

  /** The bytes after the skipped blanks of a NUL-free stream are their own C string. */
  lemma HeadNoNul(s: seq<Byte>, t: seq<Byte>, n: nat)
    requires forall i | 0 <= i < |s| :: s[i] != 0
    requires t == DropBlanks(s) && n <= |t|
    ensures CStr(t[..n]) == t[..n]
  {
    DropBlanksSuffix(s);
    assert forall i | 0 <= i < n :: t[..n][i] == s[|s| - |t| + i];
    CStrNoNul(t[..n]);
  }

  /** A failed checkKeyword pushes back every byte it read, in the original order:
      in a stream without NUL bytes, only the half-width blanks it skipped are gone. */
  lemma {:induction false} KeywordScanRestores(s: seq<Byte>, e: seq<Byte>, read: seq<Byte>)
    requires forall i | 0 <= i < |s| :: s[i] != 0
    ensures !KeywordScan(s, e, read).0 ==> NoBlanks(KeywordScan(s, e, read).1) == NoBlanks(read + s)
    decreases |s|
  {
    if e != [] {
      var c := ReadChar(s, true);
      ReadCharKeepsBytes(s);
      if c.EndOfInput? {
        NoBlanksAppend(read, s);
        assert KeywordScan(s, e, read) == (false, read);
        assert NoBlanks(read + s) == NoBlanks(read) + [];
        assert NoBlanks(read) + [] == NoBlanks(read);
      } else {
        var ch, rest := c.ch, c.rest;
        calc {
          NoBlanks(read + s);
          { NoBlanksAppend(read, s); }
          NoBlanks(read) + NoBlanks(s);
          { NoBlanksAppend(ch, rest); }
          NoBlanks(read) + (NoBlanks(ch) + NoBlanks(rest));
          { AppendAssoc(NoBlanks(read), NoBlanks(ch), NoBlanks(rest)); }
          NoBlanks(read) + NoBlanks(ch) + NoBlanks(rest);
          { NoBlanksAppend(read, ch); NoBlanksAppend(read + ch, rest); }
          NoBlanks(read + ch + rest);
        }
        if ch <= e {
          assert KeywordScan(s, e, read) == KeywordScan(rest, e[|ch|..], read + ch);
          assert forall i | 0 <= i < |rest| :: rest[i] != 0 by {
            assert rest == s[|s| - |rest|..];
          }
          KeywordScanRestores(rest, e[|ch|..], read + ch);
        } else {
          assert KeywordScan(s, e, read) == (false, read + ch + rest);
        }
      }
    }
  }

  // ---------------------------------------------------------------------------
  // checkCommentOut

  /** The stream after a ＃ line comment: everything through the next newline. */
  function LineCommentRest(s: seq<Byte>): (r: seq<Byte>)
    ensures |r| <= |s|
    ensures (forall i | 0 <= i < |s| :: s[i] != NL) ==> r == []
    ensures forall k | 0 <= k < |s| && s[k] == NL && (forall i | 0 <= i < k :: s[i] != NL) :: r == s[k + 1..]
  {
    if s == [] then []
    else if s[0] == NL then s[1..]
    else LineCommentRest(s[1..])
  }

  /** The closing ＄ (EF BC 84) starts at index k. */
  predicate CloserAt(s: seq<Byte>, k: int) {
    0 <= k && k + 3 <= |s| && s[k] == 0xEF && s[k + 1] == 0xBC && s[k + 2] == 0x84
  }

  /** One newline right after the closing mark is consumed too. */
  function SkipNewline(s: seq<Byte>): seq<Byte> {
    if s != [] && s[0] == NL then s[1..] else s
  }

  /** The stream after a ＄ block comment: through the first closing ＄, plus one
      newline right after it; all of it when no ＄ closes the comment. */
  function BlockCommentRest(s: seq<Byte>): (r: seq<Byte>)
    ensures |r| <= |s|
    ensures (forall k | 0 <= k < |s| :: !CloserAt(s, k)) ==> r == []
    ensures forall k | CloserAt(s, k) && (forall j | 0 <= j < k :: !CloserAt(s, j)) :: r == SkipNewline(s[k + 3..])
  {
    if s == [] then []
    else if CloserAt(s, 0) then SkipNewline(s[3..])
    else
      assert forall k | CloserAt(s[1..], k) :: CloserAt(s, k + 1);
      assert forall k | 1 <= k && CloserAt(s, k) :: CloserAt(s[1..], k - 1);
      BlockCommentRest(s[1..])
  }

  /** checkCommentOut(c) with the stream `s` after `c`: the stream after the comment,
      or None when `c` does not open a comment (then nothing is consumed). */
  function CommentAfter(c: int, s: seq<Byte>): (r: Option<seq<Byte>>)
    ensures r.Some? ==> |r.value| + 2 <= |s|
  {
    if c == 0xEF && |s| >= 2 && s[0] == 0xBC && s[1] == 0x83 then Some(LineCommentRest(s[2..]))
    else if c == 0xEF && |s| >= 2 && s[0] == 0xBC && s[1] == 0x84 then Some(BlockCommentRest(s[2..]))
    else None
  }

  // ---------------------------------------------------------------------------
  // convertZenkakuNum, convertZenkakuDot

  const DOT: Byte := '.' as Byte

  /** U+FF10..U+FF19 (EF BC 90..99) to '0'..'9'; None for anything else. */
  function ZenkakuDigit(ch: seq<Byte>): (r: Option<Byte>)
  {
    if At(ch, 0) == 0xEF && At(ch, 1) == 0xBC && 0x90 <= At(ch, 2) <= 0x99
    then Some(At(ch, 2) - 0x90 + '0' as Byte)
    else None
  }

  /** U+FF0E (EF BC 8E) to '.'; None for anything else. */
  function ZenkakuDot(ch: seq<Byte>): (r: Option<Byte>)
  {
    if At(ch, 0) == 0xEF && At(ch, 1) == 0xBC && At(ch, 2) == 0x8E then Some(DOT) else None
  }

  /** The full-width digit d, the inverse of ZenkakuDigit. */
  function FullWidthDigit(d: nat): (r: seq<Byte>)
    requires d < 10
  {
    Encode(0xFF10 + d)
  }

  /** convertZenkakuNum recognises exactly the ten full-width digits and yields
      their half-width counterparts. */
  lemma ZenkakuDigitExact(ch: seq<Byte>)
    requires WholeChar(ch)
    ensures ZenkakuDigit(ch).Some? <==> exists d :: 0 <= d < 10 && ch == FullWidthDigit(d)
    ensures forall d | 0 <= d < 10 && ch == FullWidthDigit(d) :: ZenkakuDigit(ch) == Some('0' as Byte + d)
  {
    if ZenkakuDigit(ch).Some? {
      var d := ch[2] - 0x90;
      assert ch == FullWidthDigit(d);
    }
  }

  /** convertZenkakuDot recognises exactly the full-width full stop U+FF0E. */
  lemma ZenkakuDotExact(ch: seq<Byte>)
    requires WholeChar(ch)
    ensures ZenkakuDot(ch).Some? <==> ch == Encode(0xFF0E)
    ensures ZenkakuDot(ch).Some? ==> ZenkakuDot(ch).value == DOT
  {
    if ZenkakuDot(ch).Some? {
    }
  }

  // ---------------------------------------------------------------------------
  // 「…」 literals

  /** The accumulators of the literal loop: rawStr, numStr, is_pure_number, dot_count. */
  datatype LitAcc = LitAcc(raw: seq<Byte>, num: seq<Byte>, pure: bool, dots: nat)

  const LIT_START := LitAcc([], [], true, 0)

  /** One character of the literal body added to the accumulators. */
  function LitStep(a: LitAcc, ch: seq<Byte>): (r: LitAcc)
    ensures r.raw == a.raw + ch
  {
    var raw := a.raw + ch;
    if IsAsciiDigit(At(ch, 0)) then a.(raw := raw, num := a.num + [At(ch, 0)])
    else if At(ch, 0) == DOT then a.(raw := raw, num := a.num + [DOT], dots := a.dots + 1)
    else if ZenkakuDigit(ch).Some? then a.(raw := raw, num := a.num + [ZenkakuDigit(ch).value])
    else if ZenkakuDot(ch).Some? then a.(raw := raw, num := a.num + [DOT], dots := a.dots + 1)
    else a.(raw := raw, pure := false)
  }

  /** The token a closed literal yields from its accumulators. */
  function LiteralToken(a: LitAcc): Token {
    if a.pure && a.dots <= 1 && |a.num| > 0 && a.num[0] != DOT && a.num[|a.num| - 1] != DOT
    then Token(TkLiteral, a.num)
    else Token(TkPrintLit, a.raw)
  }

  /** The result of lexing one token: the token and the stream after it, or a lexical error. */
  datatype Lexed = LexOk(tok: Token, rest: seq<Byte>) | LexError

  /** The loop after 「: raw characters until 」, a newline or carriage return, the end of
      input, or a further character once the raw text has reached 1000 bytes. */
  function ScanLiteral(s: seq<Byte>, a: LitAcc): (r: Lexed)
    ensures r.LexOk? ==> |r.rest| < |s|
    decreases |s|
  {
    match ReadChar(s, false)
    case EndOfInput => LexError
    case Char(ch, rest) =>
      if ch == [NL] || ch == [CR] then LexError
      else if ch == CLOSE_KAGI then LexOk(LiteralToken(a), rest)
      else if |a.raw| >= 1000 then LexError
      else ScanLiteral(rest, LitStep(a, ch))
  }

  /** The loop after an opening ”: raw characters up to the closing ”. */
  function ScanVariable(s: seq<Byte>, name: seq<Byte>): (r: Lexed)
    ensures r.LexOk? ==> |r.rest| < |s|
    decreases |s|
  {
    match ReadChar(s, false)
    case EndOfInput => LexError
    case Char(ch, rest) =>
      if ch == [NL] || ch == [CR] then LexError
      else if ch == QUOTE then LexOk(Token(TkVariable, name), rest)
      else ScanVariable(rest, name + ch)
  }

  /** One character of a literal body read from the stream, while the raw text is
      under 1000 bytes. */
  lemma ScanLiteralRead(s: seq<Byte>, a: LitAcc, ch: seq<Byte>, rest: seq<Byte>, a': LitAcc)
    requires ReadChar(s, false) == Char(ch, rest)
    requires ch != [NL] && ch != [CR] && ch != CLOSE_KAGI && |a.raw| < 1000
    requires a' == LitStep(a, ch)
    ensures ScanLiteral(s, a) == ScanLiteral(rest, a')
  {
  }

  /** One character of a variable name read from the stream. */
  lemma ScanVariableRead(s: seq<Byte>, name: seq<Byte>, ch: seq<Byte>, rest: seq<Byte>, name': seq<Byte>)
    requires ReadChar(s, false) == Char(ch, rest)
    requires ch != [NL] && ch != [CR] && ch != QUOTE && name' == name + ch
    ensures ScanVariable(s, name) == ScanVariable(rest, name')
  {
  }

  /** The literal loop run over a sequence of characters. */
  function LitFold(a: LitAcc, cs: seq<seq<Byte>>): LitAcc
    decreases |cs|
  {
    if cs == [] then a else LitFold(LitStep(a, cs[0]), cs[1..])
  }

  /** The number a character stands for: an ASCII digit or full stop as itself, a
      full-width digit as its ASCII digit, the full-width full stop as '.'. */
  ghost function Numeral(ch: seq<Byte>): Option<Byte> {
    if |ch| == 1 && (IsAsciiDigit(ch[0]) || ch[0] == DOT) then Some(ch[0])
    else if ch == Encode(0xFF0E) then Some(DOT)
    else if exists d | 0 <= d < 10 :: ch == FullWidthDigit(d) then
      var d :| 0 <= d < 10 && ch == FullWidthDigit(d); Some('0' as Byte + d)
    else None
  }

  /** The numeral of a character as text: one byte, or none. */
  ghost function NumeralText(ch: seq<Byte>): seq<Byte> {
    if Numeral(ch).Some? then [Numeral(ch).value] else []
  }

  /** The half-width text of the numeric characters of a literal body. */
  ghost function Numerals(cs: seq<seq<Byte>>): seq<Byte> {
    if cs == [] then [] else NumeralText(cs[0]) + Numerals(cs[1..])
  }

  /** Every character of the body is a numeral. */
  ghost predicate AllNumerals(cs: seq<seq<Byte>>) {
    forall i | 0 <= i < |cs| :: Numeral(cs[i]).Some?
  }

  /** A literal body the lexer takes as a number: numeric characters only, at most one
      full stop, and neither leading nor trailing. */
  ghost predicate IsNumber(cs: seq<seq<Byte>>) {
    var n := Numerals(cs);
    AllNumerals(cs) && multiset(n)[DOT] <= 1 && n != [] && n[0] != DOT && n[|n| - 1] != DOT
  }

  lemma FullWidthDigitInjective(d: nat, d': nat)
    requires d < 10 && d' < 10 && FullWidthDigit(d) == FullWidthDigit(d')
    ensures d == d'
  {
    assert FullWidthDigit(d)[2] == 0x90 + d;
    assert FullWidthDigit(d')[2] == 0x90 + d';
  }

  /** The tests of the literal loop pick out exactly the numerals, with their values. */
  lemma NumeralByTests(ch: seq<Byte>)
    requires WholeChar(ch)
    ensures Numeral(ch) ==
      if IsAsciiDigit(At(ch, 0)) || At(ch, 0) == DOT then Some(At(ch, 0))
      else if ZenkakuDigit(ch).Some? then ZenkakuDigit(ch)
      else ZenkakuDot(ch)
  {
    ZenkakuDigitExact(ch);
    ZenkakuDotExact(ch);
    if IsAsciiDigit(At(ch, 0)) || At(ch, 0) == DOT {
      assert |ch| == 1;
    } else if ZenkakuDigit(ch).Some? {
      var d :| 0 <= d < 10 && ch == FullWidthDigit(d);
      forall d' | 0 <= d' < 10 && ch == FullWidthDigit(d')
        ensures d' == d
      {
        FullWidthDigitInjective(d, d');
      }
    } else if ZenkakuDot(ch).None? {
      if |ch| == 1 {
        assert At(ch, 0) == ch[0];
      }
    }
  }

  /** One step of the literal loop: the raw text grows by the character, the number
      text by its numeral, and purity is lost on a character that is no numeral. */
  lemma LitStepNumeral(a: LitAcc, ch: seq<Byte>)
    requires WholeChar(ch)
    ensures LitStep(a, ch).raw == a.raw + ch
    ensures LitStep(a, ch).num == a.num + NumeralText(ch)
    ensures LitStep(a, ch).pure == (a.pure && Numeral(ch).Some?)
    ensures LitStep(a, ch).dots == a.dots + multiset(NumeralText(ch))[DOT]
  {
    NumeralByTests(ch);
  }

  lemma {:induction false} LitFoldRaw(a: LitAcc, cs: seq<seq<Byte>>)
    ensures LitFold(a, cs).raw == a.raw + Concat(cs)
    decreases |cs|
  {
    if cs == [] {
      assert a.raw + [] == a.raw;
    } else {
      LitFoldRaw(LitStep(a, cs[0]), cs[1..]);
      assert a.raw + cs[0] + Concat(cs[1..]) == a.raw + Concat(cs);
    }
  }

  lemma {:induction false} LitFoldNum(a: LitAcc, cs: seq<seq<Byte>>)
    requires forall i | 0 <= i < |cs| :: WholeChar(cs[i])
    ensures LitFold(a, cs).num == a.num + Numerals(cs)
    decreases |cs|
  {
    if cs == [] {
      assert a.num + [] == a.num;
    } else {
      LitStepNumeral(a, cs[0]);
      LitFoldNum(LitStep(a, cs[0]), cs[1..]);
      AppendAssoc(a.num, NumeralText(cs[0]), Numerals(cs[1..]));
    }
  }

  lemma {:induction false} LitFoldDots(a: LitAcc, cs: seq<seq<Byte>>)
    requires forall i | 0 <= i < |cs| :: WholeChar(cs[i])
    ensures LitFold(a, cs).dots == a.dots + multiset(Numerals(cs))[DOT]
    decreases |cs|
  {
    if cs != [] {
      LitStepNumeral(a, cs[0]);
      LitFoldDots(LitStep(a, cs[0]), cs[1..]);
      assert multiset(Numerals(cs)) == multiset(NumeralText(cs[0])) + multiset(Numerals(cs[1..]));
    }
  }

  lemma {:induction false} LitFoldPure(a: LitAcc, cs: seq<seq<Byte>>)
    requires forall i | 0 <= i < |cs| :: WholeChar(cs[i])
    ensures LitFold(a, cs).pure == (a.pure && AllNumerals(cs))
    decreases |cs|
  {
    if cs != [] {
      LitStepNumeral(a, cs[0]);
      LitFoldPure(LitStep(a, cs[0]), cs[1..]);
      assert AllNumerals(cs) == (Numeral(cs[0]).Some? && AllNumerals(cs[1..])) by {
        assert forall i | 1 <= i < |cs| :: cs[i] == cs[1..][i - 1];
      }
    }
  }

  /** A closed literal is TK_LITERAL carrying its half-width digits exactly when its body
      is a number; otherwise TK_PRINT_LIT carrying the raw body. */
  lemma ClassifyLiteral(cs: seq<seq<Byte>>)
    requires forall i | 0 <= i < |cs| :: WholeChar(cs[i])
    ensures LiteralToken(LitFold(LIT_START, cs)) ==
      if IsNumber(cs) then Token(TkLiteral, Numerals(cs)) else Token(TkPrintLit, Concat(cs))
  {
    var acc := LitFold(LIT_START, cs);
    assert acc.raw == Concat(cs) by {
      LitFoldRaw(LIT_START, cs);
      assert [] + Concat(cs) == Concat(cs);
    }
    assert acc.num == Numerals(cs) by {
      LitFoldNum(LIT_START, cs);
      assert [] + Numerals(cs) == Numerals(cs);
    }
    LitFoldDots(LIT_START, cs);
    LitFoldPure(LIT_START, cs);
  }

  /** A body character of a literal or variable: not the closing mark, and not a line end. */
  predicate BodyChar(ch: seq<Byte>, close: seq<Byte>) {
    WholeChar(ch) && ch != [NL] && ch != [CR] && ch != close
  }

  lemma ConcatCons(cs: seq<seq<Byte>>, tail: seq<Byte>)
    requires cs != []
    ensures Concat(cs) + tail == cs[0] + (Concat(cs[1..]) + tail)
  {
  }

  /** One body character of a literal, read while the raw text is under 1000 bytes. */
  lemma ScanLiteralStep(ch: seq<Byte>, s: seq<Byte>, a: LitAcc)
    requires BodyChar(ch, CLOSE_KAGI) && |a.raw| < 1000
    ensures ScanLiteral(ch + s, a) == ScanLiteral(s, LitStep(a, ch))
  {
    ReadsWholeCharAt(ch, s);
  }

  /** A body character of a variable name. */
  lemma ScanVariableStep(ch: seq<Byte>, s: seq<Byte>, name: seq<Byte>)
    requires BodyChar(ch, QUOTE)
    ensures ScanVariable(ch + s, name) == ScanVariable(s, name + ch)
  {
    ReadsWholeCharAt(ch, s);
  }

  /** The closing 」 ends a literal. */
  lemma ScanLiteralClose(s: seq<Byte>, a: LitAcc)
    ensures ScanLiteral(CLOSE_KAGI + s, a) == LexOk(LiteralToken(a), s)
  {
    ReadsWholeCharAt(CLOSE_KAGI, s);
  }

  /** The closing ” ends a variable name. */
  lemma ScanVariableClose(s: seq<Byte>, name: seq<Byte>)
    ensures ScanVariable(QUOTE + s, name) == LexOk(Token(TkVariable, name), s)
  {
    ReadsWholeCharAt(QUOTE, s);
  }

  /** Where a body is cut short by a line end or by the end of input. */
  predicate LineEndOrEnd(stop: seq<Byte>) {
    stop == [] || stop[0] == NL || stop[0] == CR
  }

  /** 「body」 is read as one literal token when the length test passes before every body
      character: the raw text before the last one is under 1000 bytes, so the last
      character may take the raw text up to 1003 bytes. */
  lemma {:induction false} ScanLiteralBody(body: seq<seq<Byte>>, rest: seq<Byte>, a: LitAcc)
    requires forall i | 0 <= i < |body| :: BodyChar(body[i], CLOSE_KAGI)
    requires body == [] || |a.raw| + |Concat(body[..|body| - 1])| < 1000
    ensures ScanLiteral(Concat(body) + (CLOSE_KAGI + rest), a) == LexOk(LiteralToken(LitFold(a, body)), rest)
    decreases |body|
  {
    if body == [] {
      assert Concat(body) + (CLOSE_KAGI + rest) == CLOSE_KAGI + rest;
      ScanLiteralClose(rest, a);
    } else {
      var tail := Concat(body[1..]) + (CLOSE_KAGI + rest);
      assert Concat(body) + (CLOSE_KAGI + rest) == body[0] + tail by {
        ConcatCons(body, CLOSE_KAGI + rest);
      }
      if |body| > 1 {
        InitCons(body);
      }
      ScanLiteralStep(body[0], tail, a);
      ScanLiteralBody(body[1..], rest, LitStep(a, body[0]));
    }
  }

  /** The characters before the last one, split after the first. */
  lemma InitCons(body: seq<seq<Byte>>)
    requires |body| > 1
    ensures Concat(body[..|body| - 1]) == body[0] + Concat(body[1..][..|body| - 2])
  {
    assert body[..|body| - 1][1..] == body[1..][..|body| - 2];
  }

  /** A further body character once the raw text has reached 1000 bytes. */
  lemma ScanLiteralFull(ch: seq<Byte>, s: seq<Byte>, a: LitAcc)
    requires BodyChar(ch, CLOSE_KAGI) && |a.raw| >= 1000
    ensures ScanLiteral(ch + s, a) == LexError
  {
    ReadsWholeCharAt(ch, s);
  }

  /** A literal whose raw body has reached 1000 bytes and goes on is a lexical error. */
  lemma {:induction false} ScanLiteralTooLong(body: seq<seq<Byte>>, ch: seq<Byte>, rest: seq<Byte>, a: LitAcc)
    requires forall i | 0 <= i < |body| :: BodyChar(body[i], CLOSE_KAGI)
    requires BodyChar(ch, CLOSE_KAGI)
    requires |a.raw| + |Concat(body)| >= 1000
    ensures ScanLiteral(Concat(body) + (ch + rest), a) == LexError
    decreases |body|
  {
    if body == [] {
      assert Concat(body) + (ch + rest) == ch + rest;
      ScanLiteralFull(ch, rest, a);
    } else {
      ConcatCons(body, ch + rest);
      if |a.raw| < 1000 {
        ScanLiteralStep(body[0], Concat(body[1..]) + (ch + rest), a);
        ScanLiteralTooLong(body[1..], ch, rest, LitStep(a, body[0]));
      } else {
        ScanLiteralFull(body[0], Concat(body[1..]) + (ch + rest), a);
      }
    }
  }

  /** A literal left open at a line end or at the end of input is a lexical error. */
  lemma {:induction false} ScanLiteralUnclosed(body: seq<seq<Byte>>, stop: seq<Byte>, a: LitAcc)
    requires forall i | 0 <= i < |body| :: BodyChar(body[i], CLOSE_KAGI)
    requires LineEndOrEnd(stop)
    ensures ScanLiteral(Concat(body) + stop, a) == LexError
    decreases |body|
  {
    if body == [] {
      assert Concat(body) + stop == stop;
      ScanLineEnd(stop);
    } else {
      ConcatCons(body, stop);
      if |a.raw| < 1000 {
        ScanLiteralStep(body[0], Concat(body[1..]) + stop, a);
        ScanLiteralUnclosed(body[1..], stop, LitStep(a, body[0]));
      } else {
        ScanLiteralFull(body[0], Concat(body[1..]) + stop, a);
      }
    }
  }

  /** Scanning stops with an error at a line end or at the end of input. */
  lemma ScanLineEnd(stop: seq<Byte>)
    requires LineEndOrEnd(stop)
    ensures forall a: LitAcc :: ScanLiteral(stop, a) == LexError
    ensures forall name: seq<Byte> :: ScanVariable(stop, name) == LexError
  {
    if stop != [] {
      assert stop[..1] == [stop[0]];
      CStrNoNul([stop[0]]);
      assert ReadChar(stop, false).ch == [stop[0]];
    }
  }

  /** ”name” is read as one variable token carrying the raw name. */
  lemma {:induction false} ScanVariableBody(body: seq<seq<Byte>>, rest: seq<Byte>, name: seq<Byte>)
    requires forall i | 0 <= i < |body| :: BodyChar(body[i], QUOTE)
    ensures ScanVariable(Concat(body) + (QUOTE + rest), name) == LexOk(Token(TkVariable, name + Concat(body)), rest)
    decreases |body|
  {
    if body == [] {
      assert Concat(body) + (QUOTE + rest) == QUOTE + rest;
      ScanVariableClose(rest, name);
      assert name + Concat(body) == name;
    } else {
      ConcatCons(body, QUOTE + rest);
      ScanVariableStep(body[0], Concat(body[1..]) + (QUOTE + rest), name);
      ScanVariableBody(body[1..], rest, name + body[0]);
      AppendAssoc(name, body[0], Concat(body[1..]));
    }
  }

  /** A variable name left open at a line end or at the end of input is a lexical error. */
  lemma {:induction false} ScanVariableUnclosed(body: seq<seq<Byte>>, stop: seq<Byte>, name: seq<Byte>)
    requires forall i | 0 <= i < |body| :: BodyChar(body[i], QUOTE)
    requires LineEndOrEnd(stop)
    ensures ScanVariable(Concat(body) + stop, name) == LexError
    decreases |body|
  {
    if body == [] {
      assert Concat(body) + stop == stop;
      ScanLineEnd(stop);
    } else {
      ConcatCons(body, stop);
      ScanVariableStep(body[0], Concat(body[1..]) + stop, name);
      ScanVariableUnclosed(body[1..], stop, name + body[0]);
    }
  }

  // ---------------------------------------------------------------------------
  // Keywords

  /** A keyword continuation and the token it yields. */
  datatype Keyword = Keyword(tail: seq<Byte>, kind: TokenType)

  predicate IsKeywordLead(ch: seq<Byte>) {
    ch == ME || ch == DE || ch == WO || ch == KA || ch == RU || ch == MO ||
    ch == IRU || ch == TO || ch == MA || ch == I || ch == YO
  }

  /** The continuations tried, in order, after a lead character. */
  function Alternatives(lead: seq<Byte>): seq<Keyword> {
    if lead == ME then [Keyword(IN, TkMain)]
    else if lead == DE then [Keyword(SENGENSURU, TkDeclare), Keyword(WARU, TkDiv)]
    else if lead == WO then
      [Keyword(DAINYUSURU, TkAssign), Keyword(TASU, TkAdd), Keyword(KAKERU, TkMul), Keyword(HIKU, TkSub)]
    else if lead == KA then [Keyword(RA, TkKara), Keyword(TSU, TkAnd)]
    else if lead == RU then [Keyword(RUPU, TkLoop)]
    else if lead == MO then [Keyword(SHI, TkIf)]
    else if lead == IRU then [Keyword(RYOKUSURU, TkInput)]
    else if lead == TO then
      [Keyword(SHUTSURYOKUSURU, TkOutput), Keyword(ISSHOKA, TkOpEq), Keyword(CHIGAUKA, TkOpNe)]
    else if lead == MA then [Keyword(TAHA, TkOr)]
    else if lead == I then [Keyword(JOUKA, TkOpGe), Keyword(KAKA, TkOpLe)]
    else []
  }

  /** で and より: after the alternatives fail, a shared middle part and a second set. */
  function Prefixed(lead: seq<Byte>): Option<(seq<Byte>, seq<Keyword>)> {
    if lead == DE then Some((HA, [Keyword(NAKU, TkElseIf), Keyword(NAI, TkElse)]))
    else if lead == YO then Some((RI, [Keyword(OOKIIKA, TkOpGt), Keyword(CHIISAIKA, TkOpLt)]))
    else None
  }

  /** A run of checkKeyword calls, stopping at the first that matches. */
  function TryAlternatives(s: seq<Byte>, alts: seq<Keyword>): (r: (Option<TokenType>, seq<Byte>))
    ensures |r.1| <= |s|
    decreases |alts|
  {
    if alts == [] then (None, s)
    else
      var (m, s1) := KeywordScan(s, alts[0].tail, []);
      if m then (Some(alts[0].kind), s1) else TryAlternatives(s1, alts[1..])
  }

  /** A keyword check that fails hands the rest of the run to the next continuation. */
  lemma TryAlternativesMiss(s: seq<Byte>, alts: seq<Keyword>, i: nat, s1: seq<Byte>, j: nat)
    requires i < |alts| && KeywordScan(s, alts[i].tail, []) == (false, s1) && j == i + 1
    ensures TryAlternatives(s, alts[i..]) == TryAlternatives(s1, alts[j..])
  {
    assert alts[i..][0] == alts[i] && alts[i..][1..] == alts[j..];
  }

  /** A keyword check that succeeds ends the run with its token kind. */
  lemma TryAlternativesHit(s: seq<Byte>, alts: seq<Keyword>, i: nat, s1: seq<Byte>)
    requires i < |alts| && KeywordScan(s, alts[i].tail, []) == (true, s1)
    ensures TryAlternatives(s, alts[i..]) == (Some(alts[i].kind), s1)
  {
    assert alts[i..][0] == alts[i];
  }

  /** No keyword tail is longer than 17 bytes: a failed check never gives back more than
      the pushback stack holds. */
  predicate ShortTails(alts: seq<Keyword>) {
    forall i | 0 <= i < |alts| :: |alts[i].tail| <= 17
  }

  /** No continuation yields TK_EOF. */
  predicate NoEofKinds(alts: seq<Keyword>) {
    forall i | 0 <= i < |alts| :: alts[i].kind != TkEof
  }

  lemma KeywordTables(lead: seq<Byte>)
    ensures ShortTails(Alternatives(lead)) && NoEofKinds(Alternatives(lead))
    ensures Prefixed(lead).Some? ==>
      |Prefixed(lead).value.0| <= 17 && ShortTails(Prefixed(lead).value.1) && NoEofKinds(Prefixed(lead).value.1)
  {
    AlternativesFit(Alternatives(lead));
    if Prefixed(lead).Some? {
      AlternativesFit(Prefixed(lead).value.1);
    }
  }

  /** Every continuation table of getNextToken fits the pushback stack and names
      no TK_EOF. */
  lemma AlternativesFit(alts: seq<Keyword>)
    requires alts in {
      [], [Keyword(IN, TkMain)], [Keyword(SENGENSURU, TkDeclare), Keyword(WARU, TkDiv)],
      [Keyword(DAINYUSURU, TkAssign), Keyword(TASU, TkAdd), Keyword(KAKERU, TkMul), Keyword(HIKU, TkSub)],
      [Keyword(RA, TkKara), Keyword(TSU, TkAnd)], [Keyword(RUPU, TkLoop)], [Keyword(SHI, TkIf)],
      [Keyword(RYOKUSURU, TkInput)],
      [Keyword(SHUTSURYOKUSURU, TkOutput), Keyword(ISSHOKA, TkOpEq), Keyword(CHIGAUKA, TkOpNe)],
      [Keyword(TAHA, TkOr)], [Keyword(JOUKA, TkOpGe), Keyword(KAKA, TkOpLe)],
      [Keyword(NAKU, TkElseIf), Keyword(NAI, TkElse)], [Keyword(OOKIIKA, TkOpGt), Keyword(CHIISAIKA, TkOpLt)]}
    ensures ShortTails(alts) && NoEofKinds(alts)
  {
  }

  /** The keyword branches of getNextToken after the lead character. A failed lead is a
      lexical error, except を, which is the particle when no continuation matches. */
  function LexKeyword(lead: seq<Byte>, s: seq<Byte>): (r: Lexed)
    ensures r.LexOk? ==> |r.rest| <= |s|
  {
    var (k, s1) := TryAlternatives(s, Alternatives(lead));
    if k.Some? then LexOk(Token(k.value, lead), s1)
    else if lead == WO then LexOk(Token(TkWo, lead), s1)
    else
      match Prefixed(lead)
      case None => LexError
      case Some((middle, alts)) =>
        var (m, s2) := KeywordScan(s1, middle, []);
        if !m then LexError
        else
          var (k2, s3) := TryAlternatives(s2, alts);
          if k2.Some? then LexOk(Token(k2.value, lead), s3) else LexError
  }

  /** A stream with neither NUL bytes nor half-width blanks. */
  predicate Clean(s: seq<Byte>) {
    forall i | 0 <= i < |s| :: s[i] != 0 && !IsBlank(s[i])
  }

  /** On a clean stream readUTF8Char takes the first character as it is. */
  lemma ReadCharClean(s: seq<Byte>)
    requires Clean(s) && s != []
    ensures var n := Min(CharLen(s[0]), |s|);
      ReadChar(s, true) == Char(s[..n], s[n..]) && Clean(s[n..])
  {
    var n := Min(CharLen(s[0]), |s|);
    assert DropBlanks(s) == s;
    CStrNoNul(s[..n]);
    assert forall i | 0 <= i < |s| - n :: s[n..][i] == s[n + i];
  }

  /** On a clean stream a failed checkKeyword gives back exactly what it read. */
  lemma {:induction false} KeywordScanRestoresExactly(s: seq<Byte>, e: seq<Byte>, read: seq<Byte>)
    requires Clean(s)
    ensures !KeywordScan(s, e, read).0 ==> KeywordScan(s, e, read).1 == read + s
    decreases |s|
  {
    if e != [] {
      if s == [] {
        assert DropBlanks(s) == [];
        assert read + s == read;
      } else {
        ReadCharClean(s);
        var n := Min(CharLen(s[0]), |s|);
        AppendAssoc(read, s[..n], s[n..]);
        assert s[..n] + s[n..] == s;
        if s[..n] <= e {
          KeywordScanRestoresExactly(s[n..], e[n..], read + s[..n]);
        }
      }
    }
  }

  /** A run of keyword checks on a clean stream finds nothing exactly when the upcoming
      characters spell none of the continuations, and then gives the stream back
      untouched. */
  lemma {:induction false} TryAlternativesNone(s: seq<Byte>, alts: seq<Keyword>)
    requires Clean(s)
    ensures TryAlternatives(s, alts).0.None? <==> forall i | 0 <= i < |alts| :: !Spells(s, alts[i].tail)
    ensures TryAlternatives(s, alts).0.None? ==> TryAlternatives(s, alts).1 == s
    decreases |alts|
  {
    if alts != [] {
      KeywordScanSpells(s, alts[0].tail, []);
      KeywordScanRestoresExactly(s, alts[0].tail, []);
      if !Spells(s, alts[0].tail) {
        assert [] + s == s;
        TryAlternativesNone(s, alts[1..]);
        assert forall i | 1 <= i < |alts| :: alts[i] == alts[1..][i - 1];
      }
    }
  }

  /** A run of keyword checks on a clean stream yields the first continuation the
      upcoming characters spell. */
  lemma TryAlternativesFirst(s: seq<Byte>, alts: seq<Keyword>, j: nat)
    requires Clean(s)
    requires j < |alts| && Spells(s, alts[j].tail)
    requires forall i | 0 <= i < j :: !Spells(s, alts[i].tail)
    ensures TryAlternatives(s, alts).0 == Some(alts[j].kind)
  {
    forall i | 0 <= i < j
      ensures !KeywordScan(s, alts[i].tail, []).0
    {
      KeywordScanSpells(s, alts[i].tail, []);
    }
    KeywordScanSpells(s, alts[j].tail, []);
    TryAlternativesScan(s, alts, j);
  }

  /** The same, with each check stated by the scan itself. */
  lemma {:induction false} TryAlternativesScan(s: seq<Byte>, alts: seq<Keyword>, j: nat)
    requires Clean(s)
    requires j < |alts| && KeywordScan(s, alts[j].tail, []).0
    requires forall i | 0 <= i < j :: !KeywordScan(s, alts[i].tail, []).0
    ensures TryAlternatives(s, alts).0 == Some(alts[j].kind)
    decreases j
  {
    if j > 0 {
      assert !KeywordScan(s, alts[0].tail, []).0;
      KeywordScanRestoresExactly(s, alts[0].tail, []);
      assert [] + s == s;
      assert alts[1..][j - 1] == alts[j];
      forall i | 0 <= i < j - 1
        ensures !KeywordScan(s, alts[1..][i].tail, []).0
      {
        assert alts[1..][i] == alts[i + 1];
      }
      TryAlternativesScan(s, alts[1..], j - 1);
    }
  }

  /** A character that is no blank and does not start with EF is taken as it stands:
      no comment check happens. */
  lemma SkipCommentsPlain(ch: seq<Byte>, rest: seq<Byte>)
    requires WholeChar(ch) && !IsBlank(ch[0]) && ch[0] != 0xEF
    ensures SkipComments(ch + rest) == Char(ch, rest)
  {
    ReadsWholeChar([], ch, rest, true);
    assert [] + ch + rest == ch + rest;
    SkipCommentsFirst(ch + rest, ch, rest);
  }

  /** A first character that does not start with EF ends the comment loop. */
  lemma SkipCommentsFirst(s: seq<Byte>, ch: seq<Byte>, rest: seq<Byte>)
    requires ReadChar(s, true) == Char(ch, rest) && At(ch, 0) != 0xEF
    ensures SkipComments(s) == Char(ch, rest)
  {
  }

  lemma LeadsClassified(lead: seq<Byte>)
    requires IsKeywordLead(lead)
    ensures Classify(lead) == KeywordLead
  {
  }

  /** A keyword lead character is sent to the keyword branches. */
  lemma LeadDispatch(lead: seq<Byte>, rest: seq<Byte>)
    requires IsKeywordLead(lead)
    ensures NextToken(lead + rest) == LexKeyword(lead, rest)
  {
    SkipCommentsPlain(lead, rest);
    LeadsClassified(lead);
  }

  /** A run of keyword checks yields only kinds from its table. */
  lemma {:induction false} TryAlternativesKind(s: seq<Byte>, alts: seq<Keyword>)
    ensures TryAlternatives(s, alts).0.Some? ==>
      exists i | 0 <= i < |alts| :: TryAlternatives(s, alts).0.value == alts[i].kind
    decreases |alts|
  {
    if alts != [] {
      var (m, s1) := KeywordScan(s, alts[0].tail, []);
      if !m {
        TryAlternativesKind(s1, alts[1..]);
        if TryAlternatives(s1, alts[1..]).0.Some? {
          var i :| 0 <= i < |alts[1..]| && TryAlternatives(s1, alts[1..]).0.value == alts[1..][i].kind;
          assert alts[1..][i] == alts[i + 1];
        }
      }
    }
  }

  /** After を (sent here by LeadDispatch), the particle TK_WO comes exactly when the upcoming characters spell none of
      代入する, たす, かける and ひく; then nothing after it is consumed. */
  lemma WoParticle(rest: seq<Byte>)
    requires Clean(rest)
    ensures LexKeyword(WO, rest).LexOk?
    ensures LexKeyword(WO, rest).tok.kind == TkWo <==>
      !Spells(rest, DAINYUSURU) && !Spells(rest, TASU) && !Spells(rest, KAKERU) && !Spells(rest, HIKU)
    ensures LexKeyword(WO, rest).tok.kind == TkWo ==> LexKeyword(WO, rest) == LexOk(Token(TkWo, WO), rest)
  {
    var alts := Alternatives(WO);
    assert alts == [Keyword(DAINYUSURU, TkAssign), Keyword(TASU, TkAdd), Keyword(KAKERU, TkMul), Keyword(HIKU, TkSub)];
    TryAlternativesNone(rest, alts);
    TryAlternativesKind(rest, alts);
    var r := TryAlternatives(rest, alts);
    assert LexKeyword(WO, rest) == LexOk(Token(if r.0.Some? then r.0.value else TkWo, WO), r.1);
    var none := !Spells(rest, DAINYUSURU) && !Spells(rest, TASU) && !Spells(rest, KAKERU) && !Spells(rest, HIKU);
    if r.0.Some? {
      var i :| 0 <= i < |alts| && r.0.value == alts[i].kind;
      assert alts[0].kind == TkAssign && alts[1].kind == TkAdd && alts[2].kind == TkMul && alts[3].kind == TkSub;
      assert i == 0 || i == 1 || i == 2 || i == 3;
      assert !none by {
        var j :| 0 <= j < |alts| && Spells(rest, alts[j].tail);
        assert j == 0 || j == 1 || j == 2 || j == 3;
      }
    } else {
      assert alts[0].tail == DAINYUSURU && alts[1].tail == TASU && alts[2].tail == KAKERU && alts[3].tail == HIKU;
      assert none;
    }
  }

  /** A lead character of one keyword family (メ, か, ル, も, 入, と, ま, 以) not followed
      by one of its continuations is a lexical error, and only then. */
  lemma LeadWithoutContinuation(lead: seq<Byte>, rest: seq<Byte>)
    requires IsKeywordLead(lead) && lead != WO && lead != DE && lead != YO
    requires Clean(rest)
    ensures LexKeyword(lead, rest).LexError? <==>
      forall i | 0 <= i < |Alternatives(lead)| :: !Spells(rest, Alternatives(lead)[i].tail)
  {
    TryAlternativesNone(rest, Alternatives(lead));
  }

  /** で and よ not followed by any continuation, nor by their middle part (は, り), are a
      lexical error. */
  lemma PrefixedLeadWithoutContinuation(lead: seq<Byte>, rest: seq<Byte>)
    requires lead == DE || lead == YO
    requires Clean(rest)
    requires forall i | 0 <= i < |Alternatives(lead)| :: !Spells(rest, Alternatives(lead)[i].tail)
    requires !Spells(rest, Prefixed(lead).value.0)
    ensures LexKeyword(lead, rest) == LexError
  {
    TryAlternativesNone(rest, Alternatives(lead));
    KeywordScanSpells(rest, Prefixed(lead).value.0, []);
  }

  // ---------------------------------------------------------------------------
  // getNextToken

  /** getNextToken's first loop: skips comments, and yields the first character of the
      token (re-read after the comment check gave back an EF-led character). */
  function SkipComments(s: seq<Byte>): (r: CharRead)
    ensures r.Char? ==> |r.rest| < |s|
    decreases |s|
  {
    match ReadChar(s, true)
    case EndOfInput => EndOfInput
    case Char(ch, rest) =>
      if At(ch, 0) != 0xEF then Char(ch, rest)
      else
        var s1 := ch + rest;
        match CommentAfter(0xEF, s1[1..])
        case Some(after) => SkipComments(after)
        case None => ReadChar(s1, true)
  }

  /** What getNextToken's chain of comparisons makes of a first character. */
  datatype CharClass = Single(kind: TokenType) | KeywordLead | VariableOpen | LiteralOpen | Unknown

  function Classify(ch: seq<Byte>): CharClass {
    if ch == [NL] then Single(TkLn)
    else if ch == FW_SPACE then Single(TkWs)
    else if ch == FW_LPAR then Single(TkLPar)
    else if ch == FW_RPAR then Single(TkRPar)
    else if ch == FW_LBRACE then Single(TkLBrace)
    else if ch == FW_RBRACE then Single(TkRBrace)
    else if ch == PERIOD then Single(TkPeriod)
    else if ch == NI then Single(TkNi)
    else if ch == GA then Single(TkGa)
    else if IsKeywordLead(ch) then KeywordLead
    else if ch == QUOTE then VariableOpen
    else if ch == OPEN_KAGI then LiteralOpen
    else Unknown
  }

  /** The token getNextToken makes of its first character. */
  function Dispatch(ch: seq<Byte>, rest: seq<Byte>): (r: Lexed)
    ensures r.LexOk? ==> |r.rest| <= |rest|
  {
    match Classify(ch)
    case Single(kind) => LexOk(Token(kind, ch), rest)
    case KeywordLead => LexKeyword(ch, rest)
    case VariableOpen => ScanVariable(rest, [])
    case LiteralOpen => ScanLiteral(rest, LIT_START)
    case Unknown => LexError
  }

  /** One getNextToken call on the pending stream `s`. At the end of input the token is
      TK_EOF. */
  function NextToken(s: seq<Byte>): (r: Lexed)
    ensures r.LexOk? && r.tok.kind != TkEof ==> |r.rest| < |s|
  {
    match SkipComments(s)
    case EndOfInput => LexOk(Token(TkEof, []), [])
    case Char(ch, rest) => Dispatch(ch, rest)
  }

  /** Each class of first character leads to its own branch. */
  lemma DispatchCases(ch: seq<Byte>, rest: seq<Byte>)
    ensures Classify(ch).Single? ==> Dispatch(ch, rest) == LexOk(Token(Classify(ch).kind, ch), rest)
    ensures Classify(ch).KeywordLead? ==> Dispatch(ch, rest) == LexKeyword(ch, rest)
    ensures Classify(ch).VariableOpen? ==> Dispatch(ch, rest) == ScanVariable(rest, [])
    ensures Classify(ch).LiteralOpen? ==> Dispatch(ch, rest) == ScanLiteral(rest, LIT_START)
    ensures Classify(ch).Unknown? ==> Dispatch(ch, rest) == LexError
  {
  }

  /** After the comments, the first character decides the token. */
  lemma NextTokenDispatch(s: seq<Byte>, ch: seq<Byte>, rest: seq<Byte>)
    requires SkipComments(s) == Char(ch, rest)
    ensures NextToken(s) == Dispatch(ch, rest)
  {
  }

  /** At the end of input the token is TK_EOF with empty text, and nothing remains. */
  lemma NextTokenEnd(s: seq<Byte>)
    requires SkipComments(s) == EndOfInput
    ensures NextToken(s) == LexOk(Token(TkEof, []), [])
  {
  }

  /** The tokens successive getNextToken calls deliver, through TK_EOF, and whether the
      lexer stopped on a lexical error instead. */
  function Tokenize(s: seq<Byte>): (r: (seq<Token>, bool))
    decreases |s|
  {
    match NextToken(s)
    case LexError => ([], true)
    case LexOk(t, rest) =>
      if t.kind == TkEof then ([t], false)
      else
        var (ts, failed) := Tokenize(rest);
        ([t] + ts, failed)
  }
}
