/** Bytes as the lexer sees them: values of `fgetc`, C strings held in small buffers,
    the UTF-8 lead-byte rule, and the encodings of the characters the language uses. */
module Utf8 {

  type Byte = b: int | 0 <= b < 256

  /** `fgetc`'s end-of-file value. */
  const EOF: int := -1

  const NL: Byte := 0x0A
  const CR: Byte := 0x0D
  const SPACE: Byte := 0x20
  const TAB: Byte := 0x09

  predicate IsBlank(b: Byte) { b == SPACE || b == TAB }

  predicate IsAsciiDigit(b: Byte) { '0' as Byte <= b <= '9' as Byte }

  function Min(a: nat, b: nat): nat { if a < b then a else b }

  /** The C string stored in a buffer: the bytes before the first NUL. */
  function CStr(b: seq<Byte>): (r: seq<Byte>)
    ensures |r| <= |b|
  {
    if b == [] || b[0] == 0 then [] else [b[0]] + CStr(b[1..])
  }

  /** The C string is the longest NUL-free prefix of the buffer. */
  lemma {:induction false} CStrPrefix(b: seq<Byte>)
    ensures CStr(b) == b[..|CStr(b)|]
    ensures forall i | 0 <= i < |CStr(b)| :: CStr(b)[i] != 0
    ensures |CStr(b)| < |b| ==> b[|CStr(b)|] == 0
  {
    if b != [] && b[0] != 0 {
      CStrPrefix(b[1..]);
    }
  }

  /** Byte `i` of a C string, reading its terminating NUL past the end. */
  function At(s: seq<Byte>, i: nat): Byte {
    if i < |s| then s[i] else 0
  }

  /** Number of newline bytes, the unit of the line counter. */
  function CountNL(s: seq<Byte>): nat {
    if s == [] then 0 else (if s[0] == NL then 1 else 0) + CountNL(s[1..])
  }

  lemma {:induction false} CountNLAppend(a: seq<Byte>, b: seq<Byte>)
    ensures CountNL(a + b) == CountNL(a) + CountNL(b)
  {
    if a == [] {
      assert a + b == b;
    } else {
      assert (a + b)[0] == a[0] && (a + b)[1..] == a[1..] + b;
      CountNLAppend(a[1..], b);
    }
  }

  /** Character length readUTF8Char chooses from the lead byte: two, three or four
      bytes for the lead-byte ranges of the UTF-8 table (RFC 3629, section 3), one
      byte for anything else. */
  function CharLen(lead: Byte): (n: nat)
    ensures 1 <= n <= 4
  {
    if 0xC0 <= lead <= 0xDF then 2
    else if 0xE0 <= lead <= 0xEF then 3
    else if 0xF0 <= lead <= 0xF7 then 4
    else 1
  }

  /** The length readUTF8Char computes with its bit masks. */
  function MaskedLen(u: bv8): nat {
    if u & 0xE0 == 0xC0 then 2
    else if u & 0xF0 == 0xE0 then 3
    else if u & 0xF8 == 0xF0 then 4
    else 1
  }

  lemma MaskedLenRanges(u: bv8)
    ensures MaskedLen(u) ==
      if 0xC0 <= u <= 0xDF then 2
      else if 0xE0 <= u <= 0xEF then 3
      else if 0xF0 <= u <= 0xF7 then 4
      else 1
  {
  }

  /** The masks (`c & 0xE0 == 0xC0`, `c & 0xF0 == 0xE0`, `c & 0xF8 == 0xF0`) select
      exactly the ranges CharLen names. */
  lemma MaskedCharLen(lead: Byte)
    ensures CharLen(lead) == MaskedLen(lead as bv8)
  {
    var u := lead as bv8;
    MaskedLenRanges(u);
    assert 0xC0 <= u <= 0xDF <==> 0xC0 <= lead <= 0xDF;
    assert 0xE0 <= u <= 0xEF <==> 0xE0 <= lead <= 0xEF;
    assert 0xF0 <= u <= 0xF7 <==> 0xF0 <= lead <= 0xF7;
  }

  /** UTF-8 encoding of a code point (RFC 3629, section 3). */
  function Encode(cp: nat): (r: seq<Byte>)
    requires cp < 0x110000
    ensures 1 <= |r| <= 4
  {
    if cp < 0x80 then [cp]
    else if cp < 0x800 then [0xC0 + cp / 64, 0x80 + cp % 64]
    else if cp < 0x10000 then [0xE0 + cp / 4096, 0x80 + (cp / 64) % 64, 0x80 + cp % 64]
    else [0xF0 + cp / 262144, 0x80 + (cp / 4096) % 64, 0x80 + (cp / 64) % 64, 0x80 + cp % 64]
  }

  /** An encoded code point other than NUL has the length its lead byte announces
      and holds no NUL byte, so the lexer reads it back as one whole character. */
  lemma EncodeIsOneChar(cp: nat)
    requires 0 < cp < 0x110000
    ensures CharLen(Encode(cp)[0]) == |Encode(cp)|
    ensures CStr(Encode(cp)) == Encode(cp)
  {
    var e := Encode(cp);
    assert forall i | 0 <= i < |e| :: e[i] != 0;
    CStrNoNul(e);
  }

  lemma {:induction false} CStrNoNul(b: seq<Byte>)
    requires forall i | 0 <= i < |b| :: b[i] != 0
    ensures CStr(b) == b
  {
    if b != [] {
      CStrNoNul(b[1..]);
    }
  }

  // Encodings of the characters and keyword tails the lexer compares against.
  const FW_SPACE: seq<Byte> := [0xE3, 0x80, 0x80]   // 　 (U+3000)
  const FW_LPAR: seq<Byte> := [0xEF, 0xBC, 0x88]    // （
  const FW_RPAR: seq<Byte> := [0xEF, 0xBC, 0x89]    // ）
  const FW_LBRACE: seq<Byte> := [0xEF, 0xBD, 0x9B]  // ｛
  const FW_RBRACE: seq<Byte> := [0xEF, 0xBD, 0x9D]  // ｝
  const PERIOD: seq<Byte> := [0xE3, 0x80, 0x82]     // 。
  const QUOTE: seq<Byte> := [0xE2, 0x80, 0x9D]      // ” (opens and closes a variable)
  const OPEN_KAGI: seq<Byte> := [0xE3, 0x80, 0x8C]  // 「
  const CLOSE_KAGI: seq<Byte> := [0xE3, 0x80, 0x8D] // 」

  const NI: seq<Byte> := [0xE3, 0x81, 0xAB]         // に
  const GA: seq<Byte> := [0xE3, 0x81, 0x8C]         // が
  const ME: seq<Byte> := [0xE3, 0x83, 0xA1]         // メ
  const DE: seq<Byte> := [0xE3, 0x81, 0xA7]         // で
  const WO: seq<Byte> := [0xE3, 0x82, 0x92]         // を
  const KA: seq<Byte> := [0xE3, 0x81, 0x8B]         // か
  const RU: seq<Byte> := [0xE3, 0x83, 0xAB]         // ル
  const MO: seq<Byte> := [0xE3, 0x82, 0x82]         // も
  const IRU: seq<Byte> := [0xE5, 0x85, 0xA5]        // 入
  const TO: seq<Byte> := [0xE3, 0x81, 0xA8]         // と
  const MA: seq<Byte> := [0xE3, 0x81, 0xBE]         // ま
  const I: seq<Byte> := [0xE4, 0xBB, 0xA5]          // 以
  const YO: seq<Byte> := [0xE3, 0x82, 0x88]         // よ

  const IN: seq<Byte> := [0xE3, 0x82, 0xA4, 0xE3, 0x83, 0xB3]                                // イン
  const SENGENSURU: seq<Byte> := [0xE5, 0xAE, 0xA3, 0xE8, 0xA8, 0x80, 0xE3, 0x81, 0x99, 0xE3, 0x82, 0x8B] // 宣言する
  const WARU: seq<Byte> := [0xE3, 0x82, 0x8F, 0xE3, 0x82, 0x8B]                              // わる
  const HA: seq<Byte> := [0xE3, 0x81, 0xAF]                                                  // は
  const NAKU: seq<Byte> := [0xE3, 0x81, 0xAA, 0xE3, 0x81, 0x8F]                              // なく
  const NAI: seq<Byte> := [0xE3, 0x81, 0xAA, 0xE3, 0x81, 0x84]                               // ない
  const DAINYUSURU: seq<Byte> := [0xE4, 0xBB, 0xA3, 0xE5, 0x85, 0xA5, 0xE3, 0x81, 0x99, 0xE3, 0x82, 0x8B] // 代入する
  const TASU: seq<Byte> := [0xE3, 0x81, 0x9F, 0xE3, 0x81, 0x99]                              // たす
  const KAKERU: seq<Byte> := [0xE3, 0x81, 0x8B, 0xE3, 0x81, 0x91, 0xE3, 0x82, 0x8B]          // かける
  const HIKU: seq<Byte> := [0xE3, 0x81, 0xB2, 0xE3, 0x81, 0x8F]                              // ひく
  const RA: seq<Byte> := [0xE3, 0x82, 0x89]                                                  // ら
  const TSU: seq<Byte> := [0xE3, 0x81, 0xA4]                                                 // つ
  const RUPU: seq<Byte> := [0xE3, 0x83, 0xBC, 0xE3, 0x83, 0x97]                              // ープ
  const SHI: seq<Byte> := [0xE3, 0x81, 0x97]                                                 // し
  const RYOKUSURU: seq<Byte> := [0xE5, 0x8A, 0x9B, 0xE3, 0x81, 0x99, 0xE3, 0x82, 0x8B]       // 力する
  const SHUTSURYOKUSURU: seq<Byte> := [0xE5, 0x87, 0xBA, 0xE5, 0x8A, 0x9B, 0xE3, 0x81, 0x99, 0xE3, 0x82, 0x8B] // 出力する
  const ISSHOKA: seq<Byte> := [0xE4, 0xB8, 0x80, 0xE7, 0xB7, 0x92, 0xE3, 0x81, 0x8B]         // 一緒か
  const CHIGAUKA: seq<Byte> := [0xE9, 0x81, 0x95, 0xE3, 0x81, 0x86, 0xE3, 0x81, 0x8B]        // 違うか
  const TAHA: seq<Byte> := [0xE3, 0x81, 0x9F, 0xE3, 0x81, 0xAF]                              // たは
  const JOUKA: seq<Byte> := [0xE4, 0xB8, 0x8A, 0xE3, 0x81, 0x8B]                             // 上か
  const KAKA: seq<Byte> := [0xE4, 0xB8, 0x8B, 0xE3, 0x81, 0x8B]                              // 下か
  const RI: seq<Byte> := [0xE3, 0x82, 0x8A]                                                  // り
  const OOKIIKA: seq<Byte> := [0xE5, 0xA4, 0xA7, 0xE3, 0x81, 0x8D, 0xE3, 0x81, 0x84, 0xE3, 0x81, 0x8B] // 大きいか
  const CHIISAIKA: seq<Byte> := [0xE5, 0xB0, 0x8F, 0xE3, 0x81, 0x95, 0xE3, 0x81, 0x84, 0xE3, 0x81, 0x8B] // 小さいか
}
