/** The lexer of lexer.c as it runs: the global state (the input file, the pushback
    stack of 20 entries, the line counter, the current token and its text) is the
    state of a LexerState object, and each C function is a method. Every method is
    proved to act on the pending byte stream as the matching LexSpec function says. */
module Lexer {
  import opened Errors
  import opened Utf8
  import opened Tokens
  import opened LexSpec

  /** Entries of the pushback stack. */
  const PUSHBACK_SIZE: nat := 20

  /** The bytes of a stack in the order pops deliver them: the top (last) one first. */
  function PopOrder(s: seq<Byte>): (r: seq<Byte>)
    ensures |r| == |s|
  {
    if s == [] then [] else [s[|s| - 1]] + PopOrder(s[..|s| - 1])
  }

  /** The file as getCh reads it: carriage returns never come out. */
  function NoCR(s: seq<Byte>): (r: seq<Byte>)
    ensures |r| <= |s|
  {
    if s == [] then []
    else if s[0] == CR then NoCR(s[1..])
    else [s[0]] + NoCR(s[1..])
  }

  /** getCh never delivers a carriage return read from the file. */
  lemma {:induction false} NoCRHasNoCR(s: seq<Byte>)
    ensures forall i | 0 <= i < |NoCR(s)| :: NoCR(s)[i] != CR
  {
    if s != [] {
      NoCRHasNoCR(s[1..]);
    }
  }

  /** A push makes the pushed byte the next one delivered, in front of the others. */
  lemma PushFront(s: seq<Byte>, b: Byte)
    ensures PopOrder(s + [b]) == [b] + PopOrder(s)
  {
    assert (s + [b])[..|s|] == s;
  }

  /** A byte taken from the front of a stream and given back restores it. */
  lemma Cons(s: seq<Byte>)
    requires s != []
    ensures [s[0]] + s[1..] == s
  {
  }

  class LexerState {
    /** The input file. */
    const src: seq<Byte>
    /** Position of the next fgetc. */
    var pos: nat
    /** pushback_buf and pushback_count. */
    const buf: array<Byte>
    var count: nat
    /** current_line. */
    var line: int
    /** The lookahead token and tokenStr. */
    var token: TokenType
    var tokenStr: seq<Byte>

    /** The bytes successive getCh calls deliver: the pushback stack, top first, then
        the rest of the file without its carriage returns. */
    ghost var pending: seq<Byte>

    ghost predicate Valid()
      reads this`pos, this`count, this`pending, buf
    {
      buf.Length == PUSHBACK_SIZE && count <= PUSHBACK_SIZE && pos <= |src| &&
      pending == PopOrder(buf[..count]) + NoCR(src[pos..])
    }

    /** The value the line counter reaches once every pending byte has been read. The
        line counter moves with the newlines read and un-read, so every operation
        keeps this value. */
    ghost function LineAtEnd(): int
      reads this`line, this`pending
    {
      line + CountNL(pending)
    }

    constructor (input: seq<Byte>)
      ensures Valid() && fresh(buf)
      ensures src == input && pending == NoCR(input)
      ensures count == 0 && line == 1
    {
      src := input;
      pos := 0;
      buf := new Byte[PUSHBACK_SIZE];
      count := 0;
      line := 1;
      token := TkEof;
      tokenStr := [];
      pending := NoCR(input);
      new;
      assert buf[..0] == [];
      assert input[0..] == input;
    }

    /** getCh: pops the pushback stack, or reads the file skipping carriage returns;
        EOF when both are exhausted. Delivering a newline advances the line counter. */
    method GetCh() returns (c: int)
      requires Valid()
      modifies this`pos, this`count, this`line, this`pending
      ensures Valid()
      ensures c == EOF || 0 <= c < 256
      ensures c == (if old(pending) == [] then EOF else old(pending)[0])
      ensures pending == if old(pending) == [] then [] else old(pending)[1..]
      ensures line == old(line) + (if c == NL then 1 else 0)
      ensures LineAtEnd() == old(LineAtEnd())
      ensures old(count) > 0 ==> count == old(count) - 1
      ensures old(count) == 0 ==> count == 0 && c != CR
    {
      if count > 0 {
        c := PopPushback();
      } else {
        c := ReadFile();
      }
      if c == NL {
        line := line + 1;
      }
    }

    /** getCh's first branch: the top of the pushback stack. */
    method PopPushback() returns (c: int)
      requires Valid() && count > 0
      modifies this`count, this`pending
      ensures Valid() && count == old(count) - 1
      ensures old(pending) != [] && c == old(pending)[0] && pending == old(pending)[1..]
      ensures 0 <= c < 256
    {
      ghost var p0 := pending;
      ghost var file := NoCR(src[pos..]);
      count := count - 1;
      c := buf[count];
      assert buf[..count + 1] == buf[..count] + [buf[count]];
      PushFront(buf[..count], buf[count]);
      AppendAssoc([buf[count]], PopOrder(buf[..count]), file);
      assert p0[1..] == PopOrder(buf[..count]) + file;
      pending := p0[1..];
    }

    /** getCh's second branch: the next byte of the file that is not a carriage
        return, or EOF. */
    method ReadFile() returns (c: int)
      requires Valid() && count == 0
      modifies this`pos, this`pending
      ensures Valid()
      ensures c == (if old(pending) == [] then EOF else old(pending)[0])
      ensures pending == if old(pending) == [] then [] else old(pending)[1..]
      ensures c != CR && (c == EOF || 0 <= c < 256)
    {
      ghost var p0 := pending;
      assert buf[..0] == [];
      while pos < |src| && src[pos] == CR
        invariant pos <= |src| && pending == p0
        invariant NoCR(src[pos..]) == p0
      {
        assert src[pos..][1..] == src[pos + 1..];
        pos := pos + 1;
      }
      if pos < |src| {
        c := src[pos];
        assert src[pos..][1..] == src[pos + 1..];
        pos := pos + 1;
      } else {
        c := EOF;
      }
      pending := if p0 == [] then [] else p0[1..];
    }

    /** ungetCh: un-reading a newline moves the line counter back; any byte but EOF is
        pushed, so the next getCh delivers it; a push onto a full stack is a system
        error. */
    method UngetCh(c: int) returns (o: Outcome)
      requires Valid()
      requires c == EOF || 0 <= c < 256
      modifies this`count, this`line, this`pending, buf
      ensures Valid()
      ensures line == old(line) - (if c == NL then 1 else 0)
      ensures c != EOF && old(count) < PUSHBACK_SIZE ==>
        o == Pass && count == old(count) + 1 && pending == [c as Byte] + old(pending)
      ensures c == EOF && old(count) < PUSHBACK_SIZE ==>
        o == Pass && count == old(count) && pending == old(pending)
      ensures old(count) == PUSHBACK_SIZE ==> o == Fail(SystemError) && pending == old(pending)
      ensures o == Pass ==> LineAtEnd() == old(LineAtEnd())
    {
      ghost var p0 := pending;
      if c == NL {
        line := line - 1;
      }
      if c != EOF && count < PUSHBACK_SIZE {
        ghost var stack := buf[..count];
        ghost var file := NoCR(src[pos..]);
        buf[count] := c as Byte;
        count := count + 1;
        assert buf[..count] == stack + [c as Byte];
        PushFront(stack, c as Byte);
        AppendAssoc([c as Byte], PopOrder(stack), file);
        pending := [c as Byte] + p0;
        assert pending[1..] == p0;
        o := Pass;
      } else if count >= PUSHBACK_SIZE {
        o := Fail(SystemError);
      } else {
        o := Pass;
      }
    }

    /** The loops of checkKeyword and getNextToken that un-read a run of bytes, last
        byte first, so that they are delivered again in their original order. */
    method PushBack(bytes: seq<Byte>) returns (o: Outcome)
      requires Valid()
      modifies this`count, this`line, this`pending, buf
      ensures Valid()
      ensures old(count) + |bytes| <= PUSHBACK_SIZE ==> o == Pass
      ensures o == Pass ==> pending == bytes + old(pending) && count == old(count) + |bytes|
      ensures o == Pass ==> LineAtEnd() == old(LineAtEnd())
      ensures o.Fail? ==> o.error == SystemError
    {
      var i := |bytes|;
      o := Pass;
      assert bytes[|bytes|..] == [];
      while i > 0
        invariant 0 <= i <= |bytes| && Valid() && o == Pass
        invariant pending == bytes[i..] + old(pending)
        invariant count == old(count) + |bytes| - i
        invariant LineAtEnd() == old(LineAtEnd())
      {
        i := i - 1;
        ghost var before := pending;
        o := UngetCh(bytes[i]);
        if o.Fail? {
          assert old(count) + |bytes| > PUSHBACK_SIZE;
          return;
        }
        assert pending == [bytes[i]] + (bytes[i + 1..] + old(pending));
        AppendAssoc([bytes[i]], bytes[i + 1..], old(pending));
        assert bytes[i..] == [bytes[i]] + bytes[i + 1..];
      }
      assert bytes[0..] == bytes;
    }

    /** readUTF8Char: skips half-width blanks when `skip` is set, then reads one
        character, as many bytes as its lead byte announces or as many as the input
        still has. `ch` is the C string left in the buffer. */
    method ReadUTF8Char(skip: bool) returns (ok: bool, ch: seq<Byte>)
      requires Valid()
      modifies this`pos, this`count, this`line, this`pending
      ensures Valid()
      ensures ReadChar(old(pending), skip) == if ok then Char(ch, pending) else EndOfInput
      ensures !ok ==> pending == []
      ensures |ch| <= 4
      ensures LineAtEnd() == old(LineAtEnd())
      ensures count + (|old(pending)| - |pending|) <= old(count) || count == 0
    {
      ghost var p0 := pending;
      var c := ReadLeadByte(skip);
      ghost var t := if skip then DropBlanks(p0) else p0;
      if c == EOF {
        return false, [];
      }
      var len := MaskedLen(c as bv8);
      MaskedCharLen(c as Byte);
      ReadCharFromLead(p0, skip, t);
      var raw := ReadContinuation([c as Byte], len);
      ch := CStr(raw);
      ok := true;
    }

    /** readUTF8Char's first byte, and its first loop: when `skip` is set, half-width
        blanks are read past. */
    method ReadLeadByte(skip: bool) returns (c: int)
      requires Valid()
      modifies this`pos, this`count, this`line, this`pending
      ensures Valid() && LineAtEnd() == old(LineAtEnd())
      ensures var t := if skip then DropBlanks(old(pending)) else old(pending);
        if c == EOF then t == [] && pending == [] else t != [] && c == t[0] && pending == t[1..]
      ensures count + (|old(pending)| - |pending|) <= old(count) || count == 0
    {
      ghost var prev := pending;
      c := GetCh();
      if skip {
        while c == SPACE || c == TAB
          invariant Valid() && LineAtEnd() == old(LineAtEnd())
          invariant c == EOF ==> prev == [] && pending == []
          invariant c != EOF ==> prev != [] && c == prev[0] && pending == prev[1..]
          invariant DropBlanks(prev) == DropBlanks(old(pending))
          invariant count + (|old(pending)| - |pending|) <= old(count) || count == 0
          decreases |prev|
        {
          prev := pending;
          c := GetCh();
        }
      }
    }

    /** readUTF8Char's second loop: appends bytes to `raw` until it holds `len` of
        them or the input ends. */
    method ReadContinuation(raw0: seq<Byte>, len: nat) returns (raw: seq<Byte>)
      requires Valid()
      modifies this`pos, this`count, this`line, this`pending
      ensures Valid() && LineAtEnd() == old(LineAtEnd())
      ensures ReadMore(raw0, old(pending), len) == (raw, pending)
      ensures count + (|old(pending)| - |pending|) <= old(count) || count == 0
    {
      raw := raw0;
      while |raw| < len
        invariant Valid() && LineAtEnd() == old(LineAtEnd())
        invariant ReadMore(raw, pending, len) == ReadMore(raw0, old(pending), len)
        invariant count + (|old(pending)| - |pending|) <= old(count) || count == 0
        decreases len - |raw|
      {
        var next := GetCh();
        if next == EOF {
          break;
        }
        raw := raw + [next as Byte];
      }
    }

    /** checkCommentOut(c), `c` being the byte just read: consumes a ＃ line comment
        through its newline, or a ＄ block comment through its closing ＄ and one
        newline right after it; gives back what it read when `c` opens neither. */
    method CheckCommentOut(c: int) returns (r: bool)
      requires Valid()
      requires c == EOF || 0 <= c < 256
      modifies this`pos, this`count, this`line, this`pending, buf
      ensures Valid()
      ensures CommentAfter(c, old(pending)) == if r then Some(pending) else None
      ensures !r ==> pending == old(pending) && (count <= old(count) || count <= 2)
      ensures LineAtEnd() == old(LineAtEnd())
    {
      if c != 0xEF {
        return false;
      }
      ghost var p0 := pending;
      var next1 := GetCh();
      if next1 == 0xBC {
        var next2 := GetCh();
        if next2 == 0x83 {
          assert p0[1..][1..] == p0[2..];
          SkipLineComment();
          return true;
        } else if next2 == 0x84 {
          assert p0[1..][1..] == p0[2..];
          SkipBlockComment();
          return true;
        }
        var o := UngetCh(next2);
        o := UngetCh(next1);
        Cons(p0);
        if next2 != EOF {
          Cons(p0[1..]);
        }
        return false;
      }
      var o := UngetCh(next1);
      if next1 != EOF {
        Cons(p0);
      }
      return false;
    }

    /** The loop of checkCommentOut after ＃: reads through the next newline or to the
        end of input. */
    method SkipLineComment()
      requires Valid()
      modifies this`pos, this`count, this`line, this`pending
      ensures Valid()
      ensures pending == LineCommentRest(old(pending))
      ensures LineAtEnd() == old(LineAtEnd())
    {
      ghost var prev := pending;
      var d := GetCh();
      while d != NL && d != EOF
        invariant Valid() && LineAtEnd() == old(LineAtEnd())
        invariant d == EOF ==> prev == [] && pending == []
        invariant d != EOF ==> prev != [] && d == prev[0] && pending == prev[1..]
        invariant LineCommentRest(prev) == LineCommentRest(old(pending))
        decreases |prev|
      {
        prev := pending;
        d := GetCh();
      }
    }

    /** The loop of checkCommentOut after ＄: reads up to the closing ＄, one iteration
        at a time. */
    method SkipBlockComment()
      requires Valid()
      modifies this`pos, this`count, this`line, this`pending, buf
      ensures Valid()
      ensures pending == BlockCommentRest(old(pending))
      ensures LineAtEnd() == old(LineAtEnd())
    {
      while true
        invariant Valid() && LineAtEnd() == old(LineAtEnd())
        invariant BlockCommentRest(pending) == BlockCommentRest(old(pending))
        decreases |pending|
      {
        var closed := BlockCommentStep();
        if closed {
          return;
        }
      }
    }

    /** One iteration of the ＄ loop: a byte other than the start of ＄ is dropped; a
        started but unfinished ＄ gives back its bytes after the first; a whole ＄ ends
        the comment together with one newline right after it. */
    method BlockCommentStep() returns (closed: bool)
      requires Valid()
      modifies this`pos, this`count, this`line, this`pending, buf
      ensures Valid() && LineAtEnd() == old(LineAtEnd())
      ensures closed ==> pending == BlockCommentRest(old(pending))
      ensures !closed ==> old(pending) != [] && !CloserAt(old(pending), 0) && pending == old(pending)[1..]
    {
      ghost var s := pending;
      var d := GetCh();
      if d == EOF {
        return true;
      }
      if d == 0xEF {
        closed := BlockCloserRest(s);
        return;
      }
      return false;
    }

    /** The bytes after a 0xEF in a ＄ comment: the rest of a ＄ and one newline right
        after it are consumed; anything else is given back. */
    method BlockCloserRest(ghost s: seq<Byte>) returns (closed: bool)
      requires Valid() && count < PUSHBACK_SIZE
      requires s != [] && s[0] == 0xEF && pending == s[1..]
      modifies this`pos, this`count, this`line, this`pending, buf
      ensures Valid() && LineAtEnd() == old(LineAtEnd())
      ensures closed ==> pending == BlockCommentRest(s)
      ensures !closed ==> !CloserAt(s, 0) && pending == s[1..]
    {
      var n1 := GetCh();
      if n1 == 0xBC {
        var n2 := GetCh();
        if n2 == 0x84 {
          assert CloserAt(s, 0) && pending == s[3..];
          var e := GetCh();
          if e != NL && e != EOF {
            var o := UngetCh(e);
            Cons(s[3..]);
          }
          return true;
        }
        var o := UngetCh(n2);
        o := UngetCh(n1);
        Cons(s[1..]);
        if n2 != EOF {
          Cons(s[1..][1..]);
        }
      } else {
        var o := UngetCh(n1);
        if n1 != EOF {
          Cons(s[1..]);
        }
      }
      return false;
    }

    /** checkKeyword(want): reads characters, blanks skipped, while they spell the
        front of `want`; on success they are consumed, otherwise every byte read is
        pushed back. A keyword of at most 17 bytes never overflows the pushback stack:
        at most its length less one byte plus one character of four bytes is given
        back. */
    method CheckKeyword(want: seq<Byte>) returns (matched: bool, o: Outcome)
      requires Valid()
      modifies this`pos, this`count, this`line, this`pending, buf
      ensures Valid()
      ensures |want| <= 17 ==> o == Pass
      ensures o == Pass ==> (matched, pending) == KeywordScan(old(pending), want, [])
      ensures o == Pass ==> LineAtEnd() == old(LineAtEnd())
      ensures o.Fail? ==> o.error == SystemError
    {
      ghost var p0 := pending;
      var read: seq<Byte> := [];
      var p := 0;
      var stop := false;
      assert want[0..] == want;
      while p < |want| && !stop
        invariant Valid() && LineAtEnd() == old(LineAtEnd())
        invariant 0 <= p <= |want|
        invariant !stop ==> |read| == p && KeywordScan(pending, want[p..], read) == KeywordScan(p0, want, [])
        invariant stop ==> p < |want| && |read| <= p + 4 && KeywordScan(p0, want, []) == (false, read + pending)
        invariant count + |read| <= old(count) || count == 0
        decreases |pending|, if stop then 0 else 1
      {
        ghost var s := pending;
        var ok, ch := ReadUTF8Char(true);
        if !ok {
          KeywordScanEnd(s, want, read, p);
          stop := true;
        } else if !(ch <= want[p..]) {
          KeywordScanMismatch(s, want, read, p, ch, pending);
          read := read + ch;
          stop := true;
        } else {
          ghost var r0, q := read, p;
          read := read + ch;
          p := p + |ch|;
          KeywordScanMatch(s, want, r0, q, ch, pending, read, p);
        }
      }
      if p == |want| {
        return true, Pass;
      }
      o := PushBack(read);
      matched := false;
    }

    /** The first loop of getNextToken: reads a character, blanks skipped; one that
        starts with EF is given back and offered to checkCommentOut, which consumes a
        comment (and the loop goes on) or gives it back to be read again. */
    method ReadFirstChar() returns (ok: bool, ch: seq<Byte>)
      requires Valid()
      modifies this`pos, this`count, this`line, this`pending, buf
      ensures Valid()
      ensures SkipComments(old(pending)) == if ok then Char(ch, pending) else EndOfInput
      ensures !ok ==> pending == []
      ensures LineAtEnd() == old(LineAtEnd())
    {
      while true
        invariant Valid() && LineAtEnd() == old(LineAtEnd())
        invariant SkipComments(pending) == SkipComments(old(pending))
        decreases |pending|
      {
        ghost var s := pending;
        ok, ch := ReadUTF8Char(true);
        if !ok || At(ch, 0) != 0xEF {
          return;
        }
        ghost var s1 := ch + pending;
        var o := PushBack(ch);
        var c := GetCh();
        var comment := CheckCommentOut(c);
        if comment {
          continue;
        }
        o := UngetCh(c);
        Cons(s1);
        ok, ch := ReadUTF8Char(true);
        return;
      }
    }

    /** A run of checkKeyword calls over the continuations of one lead character, in
        the order getNextToken tries them, stopping at the first that matches. */
    method TryKeywords(alts: seq<Keyword>) returns (k: Option<TokenType>, o: Outcome)
      requires Valid()
      modifies this`pos, this`count, this`line, this`pending, buf
      ensures Valid()
      ensures ShortTails(alts) ==> o == Pass
      ensures o == Pass ==> (k, pending) == TryAlternatives(old(pending), alts)
      ensures k.Some? ==> exists i | 0 <= i < |alts| :: k.value == alts[i].kind
      ensures o == Pass ==> LineAtEnd() == old(LineAtEnd())
      ensures o.Fail? ==> o.error == SystemError
    {
      k, o := None, Pass;
      var i := 0;
      assert alts[0..] == alts;
      while i < |alts|
        invariant 0 <= i <= |alts| && Valid() && LineAtEnd() == old(LineAtEnd()) && o == Pass
        invariant TryAlternatives(pending, alts[i..]) == TryAlternatives(old(pending), alts)
      {
        ghost var s := pending;
        var m;
        m, o := CheckKeyword(alts[i].tail);
        if o.Fail? {
          return;
        }
        if m {
          TryAlternativesHit(s, alts, i, pending);
          k := Some(alts[i].kind);
          return;
        }
        TryAlternativesMiss(s, alts, i, pending, i + 1);
        i := i + 1;
      }
    }

    /** The keyword branches of getNextToken for the lead character `lead`: the token
        kind of the continuation that follows; を alone is the particle; で and より try a
        second set after their middle part (は, り). */
    method LexKeywordChars(lead: seq<Byte>) returns (kind: TokenType, o: Outcome)
      requires Valid()
      modifies this`pos, this`count, this`line, this`pending, buf
      ensures Valid()
      ensures LexKeyword(lead, old(pending)) == if o == Pass then LexOk(Token(kind, lead), pending) else LexError
      ensures o == Pass ==> kind != TkEof
      ensures o.Fail? ==> o.error == LexerError
      ensures o == Pass ==> LineAtEnd() == old(LineAtEnd())
    {
      KeywordTables(lead);
      var k;
      k, o := TryKeywords(Alternatives(lead));
      if k.Some? {
        return k.value, Pass;
      }
      if lead == WO {
        return TkWo, Pass;
      }
      var prefixed := Prefixed(lead);
      if prefixed.None? {
        return TkEof, Fail(LexerError);
      }
      var m;
      m, o := CheckKeyword(prefixed.value.0);
      if !m {
        return TkEof, Fail(LexerError);
      }
      k, o := TryKeywords(prefixed.value.1);
      if k.Some? {
        return k.value, Pass;
      }
      return TkEof, Fail(LexerError);
    }

    /** The loop after an opening ”: the raw characters up to the closing ” make the
        name; a line end or the end of input first is a lexical error. */
    method ScanVariableChars() returns (ok: bool, name: seq<Byte>)
      requires Valid()
      modifies this`pos, this`count, this`line, this`pending
      ensures Valid()
      ensures ScanVariable(old(pending), []) == if ok then LexOk(Token(TkVariable, name), pending) else LexError
      ensures LineAtEnd() == old(LineAtEnd())
    {
      name := [];
      while true
        invariant Valid() && LineAtEnd() == old(LineAtEnd())
        invariant ScanVariable(pending, name) == ScanVariable(old(pending), [])
        decreases |pending|
      {
        ghost var s := pending;
        var r, ch := ReadUTF8Char(false);
        if !r || ch == [NL] || ch == [CR] {
          return false, name;
        }
        if ch == QUOTE {
          return true, name;
        }
        ghost var before := name;
        name := name + ch;
        ScanVariableRead(s, before, ch, pending, name);
      }
    }

    /** The loop after 「: collects the raw text, and beside it the half-width number text
        (ASCII digits and full stops as they are, full-width ones converted), whether
        every character was numeric, and the number of full stops; then classifies the
        literal. A line end, the end of input, or raw text of 1000 bytes that goes on is
        a lexical error. */
    method ScanLiteralChars() returns (ok: bool, tok: Token)
      requires Valid()
      modifies this`pos, this`count, this`line, this`pending
      ensures Valid()
      ensures ScanLiteral(old(pending), LIT_START) == if ok then LexOk(tok, pending) else LexError
      ensures ok ==> tok.kind == TkLiteral || tok.kind == TkPrintLit
      ensures LineAtEnd() == old(LineAtEnd())
    {
      var raw: seq<Byte>, num: seq<Byte>, pure, dots := [], [], true, 0;
      while true
        invariant Valid() && LineAtEnd() == old(LineAtEnd())
        invariant ScanLiteral(pending, LitAcc(raw, num, pure, dots)) == ScanLiteral(old(pending), LIT_START)
        decreases |pending|
      {
        ghost var s := pending;
        var r, ch := ReadUTF8Char(false);
        if !r || ch == [NL] || ch == [CR] {
          return false, Token(TkEof, []);
        }
        if ch == CLOSE_KAGI {
          break;
        }
        if |raw| >= 1000 {
          return false, Token(TkEof, []);
        }
        ghost var a := LitAcc(raw, num, pure, dots);
        raw := raw + ch;
        if IsAsciiDigit(At(ch, 0)) {
          num := num + [At(ch, 0)];
          assert LitAcc(raw, num, pure, dots) == LitStep(a, ch);
        } else if At(ch, 0) == DOT {
          num := num + [DOT];
          dots := dots + 1;
          assert LitAcc(raw, num, pure, dots) == LitStep(a, ch);
        } else if ZenkakuDigit(ch).Some? {
          num := num + [ZenkakuDigit(ch).value];
          assert LitAcc(raw, num, pure, dots) == LitStep(a, ch);
        } else if ZenkakuDot(ch).Some? {
          num := num + [ZenkakuDot(ch).value];
          dots := dots + 1;
          assert LitAcc(raw, num, pure, dots) == LitStep(a, ch);
        } else {
          pure := false;
          assert LitAcc(raw, num, pure, dots) == LitStep(a, ch);
        }
        ScanLiteralRead(s, a, ch, pending, LitAcc(raw, num, pure, dots));
      }
      if pure && dots <= 1 && |num| > 0 && num[0] != DOT && num[|num| - 1] != DOT {
        tok := Token(TkLiteral, num);
      } else {
        tok := Token(TkPrintLit, raw);
      }
      ok := true;
    }

    /** getNextToken: skips comments and reads the first character, then makes the
        token of it. At the end of input the token is TK_EOF and tokenStr is left as
        it was. */
    method GetNextToken() returns (o: Outcome)
      requires Valid()
      modifies this`pos, this`count, this`line, this`pending, buf, this`token, this`tokenStr
      ensures Valid()
      ensures NextToken(old(pending)) ==
        if o.Fail? then LexError else LexOk(Token(token, if token == TkEof then [] else tokenStr), pending)
      ensures o.Fail? ==> o.error == LexerError
      ensures o == Pass && token == TkEof ==> tokenStr == old(tokenStr)
      ensures o == Pass ==> LineAtEnd() == old(LineAtEnd())
    {
      ghost var s := pending;
      var ok, ch := ReadFirstChar();
      if !ok {
        NextTokenEnd(s);
        token := TkEof;
        return Pass;
      }
      var tok;
      o, tok := LexToken(ch, s);
      if o == Pass {
        token, tokenStr := tok.kind, tok.text;
        assert Token(token, if token == TkEof then [] else tokenStr) == tok;
      }
    }

    /** The rest of getNextToken once the first character `ch` is read (and copied to
        tokenStr): the chain of comparisons picks the token, or the branch that reads
        on. */
    method LexToken(ch: seq<Byte>, ghost s: seq<Byte>) returns (o: Outcome, tok: Token)
      requires Valid() && SkipComments(s) == Char(ch, pending)
      modifies this`pos, this`count, this`line, this`pending, buf
      ensures Valid()
      ensures NextToken(s) == if o.Fail? then LexError else LexOk(tok, pending)
      ensures o.Fail? ==> o.error == LexerError
      ensures o == Pass ==> tok.kind != TkEof && LineAtEnd() == old(LineAtEnd())
    {
      NextTokenDispatch(s, ch, pending);
      DispatchCases(ch, pending);
      tok := Token(TkEof, ch);
      match Classify(ch) {
        case Single(kind) =>
          tok, o := Token(kind, ch), Pass;
        case KeywordLead =>
          var kind;
          kind, o := LexKeywordChars(ch);
          tok := Token(kind, ch);
        case VariableOpen =>
          var named, name := ScanVariableChars();
          tok := Token(TkVariable, name);
          o := if named then Pass else Fail(LexerError);
        case LiteralOpen =>
          var closed;
          closed, tok := ScanLiteralChars();
          o := if closed then Pass else Fail(LexerError);
        case Unknown =>
          o := Fail(LexerError);
      }
    }
  }
}
