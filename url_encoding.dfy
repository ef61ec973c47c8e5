/**
 * The application/x-www-form-urlencoded text codec as Python's `urllib.parse`
 * implements it (WHATWG URL Standard, section 5): `quote_plus` encodes text as
 * UTF-8 and escapes every byte outside letters, digits and `_.-~`, writing a
 * space as `+`; `unquote_plus` turns `+` into a space and decodes each run of
 * ASCII characters, `%XX` escapes included, as UTF-8, replacing every maximal
 * ill-formed byte subsequence by U+FFFD.
 */
module UrlEncoding {

  type Byte = b: int | 0 <= b < 256

  const Replacement: char := '\U{FFFD}'

  /** The integers that are Unicode scalar values, which are exactly Dafny's characters. */
  predicate IsScalar(n: int) {
    0 <= n < 0xD800 || 0xE000 <= n < 0x110000
  }

  // ---------------------------------------------------------------- UTF-8

  /** The UTF-8 encoding of one character. */
  function EncodeChar(c: char): (bs: seq<Byte>)
    ensures 1 <= |bs| <= 4
    ensures (|bs| == 1) == (c as int < 0x80)
  {
    var n := c as int;
    if n < 0x80 then [n]
    else if n < 0x800 then [0xC0 + n / 64, 0x80 + n % 64]
    else if n < 0x10000 then [0xE0 + n / 4096, 0x80 + (n / 64) % 64, 0x80 + n % 64]
    else [0xF0 + n / 262144, 0x80 + (n / 4096) % 64, 0x80 + (n / 64) % 64, 0x80 + n % 64]
  }

  function Utf8Encode(s: string): seq<Byte> {
    if s == [] then [] else EncodeChar(s[0]) + Utf8Encode(s[1..])
  }

  /** The length of the sequence a lead byte announces, or 0 for a byte that cannot start one. */
  function SequenceLength(b0: Byte): nat {
    if b0 < 0x80 then 1
    else if 0xC2 <= b0 <= 0xDF then 2
    else if 0xE0 <= b0 <= 0xEF then 3
    else if 0xF0 <= b0 <= 0xF4 then 4
    else 0
  }

  /** Whether `b` may stand at position `k` (counting from 0) of a sequence led by `b0`. */
  predicate ContinuationOk(b0: Byte, k: nat, b: Byte) {
    if k == 1 && b0 == 0xE0 then 0xA0 <= b <= 0xBF
    else if k == 1 && b0 == 0xED then 0x80 <= b <= 0x9F
    else if k == 1 && b0 == 0xF0 then 0x90 <= b <= 0xBF
    else if k == 1 && b0 == 0xF4 then 0x80 <= b <= 0x8F
    else 0x80 <= b <= 0xBF
  }

  /** How long the valid start of the sequence led by `bs[0]` is, having checked `k` bytes already. */
  function Matched(bs: seq<Byte>, n: nat, k: nat): (m: nat)
    requires 1 <= k <= n && k <= |bs|
    ensures k <= m <= n && m <= |bs|
    ensures forall j :: k <= j < m ==> ContinuationOk(bs[0], j, bs[j])
    ensures m < n && m < |bs| ==> !ContinuationOk(bs[0], m, bs[m])
    decreases n - k
  {
    if k < n && k < |bs| && ContinuationOk(bs[0], k, bs[k]) then Matched(bs, n, k + 1) else k
  }

  /** The scalar value of a complete, well-formed multi-byte sequence. */
  function Combine(bs: seq<Byte>, n: nat): (v: int)
    requires 2 <= n <= 4 && n <= |bs| && n == SequenceLength(bs[0])
    requires forall j :: 1 <= j < n ==> ContinuationOk(bs[0], j, bs[j])
    ensures IsScalar(v)
  {
    var b0, b1 := bs[0] as int, bs[1] as int;
    if n == 2 then (b0 - 0xC0) * 64 + (b1 - 0x80)
    else if n == 3 then
      assert ContinuationOk(bs[0], 1, bs[1]) && ContinuationOk(bs[0], 2, bs[2]);
      assert b0 == 0xED ==> b1 <= 0x9F;
      (b0 - 0xE0) * 4096 + (b1 - 0x80) * 64 + (bs[2] as int - 0x80)
    else
      assert ContinuationOk(bs[0], 1, bs[1]) && ContinuationOk(bs[0], 2, bs[2]) && ContinuationOk(bs[0], 3, bs[3]);
      assert b0 == 0xF0 ==> b1 >= 0x90;
      assert b0 == 0xF4 ==> b1 <= 0x8F;
      (b0 - 0xF0) * 262144 + (b1 - 0x80) * 4096 + (bs[2] as int - 0x80) * 64 + (bs[3] as int - 0x80)
  }

  /** One step of the decoder: the next character and how many bytes it used. */
  function DecodeStep(bs: seq<Byte>): (r: (char, nat))
    requires bs != []
    ensures 1 <= r.1 <= |bs|
  {
    var n := SequenceLength(bs[0]);
    if n == 1 then (bs[0] as char, 1)
    else if n == 0 then (Replacement, 1)
    else
      var m := Matched(bs, n, 1);
      if m == n then (Combine(bs, n) as char, n) else (Replacement, m)
  }

  /** `bytes.decode('utf-8', 'replace')`. */
  function Utf8Decode(bs: seq<Byte>): string
    decreases |bs|
  {
    if bs == [] then []
    else
      var step := DecodeStep(bs);
      [step.0] + Utf8Decode(bs[step.1..])
  }

  /** The decoder reads back exactly the character that `EncodeChar` wrote. */
  lemma DecodeEncodedChar(c: char, rest: seq<Byte>)
    ensures DecodeStep(EncodeChar(c) + rest) == (c, |EncodeChar(c)|)
  {
    var n := c as int;
    if n < 0x80 {
    } else if n < 0x800 {
      DecodeTwoBytes(c, rest);
    } else if n < 0x10000 {
      DecodeThreeBytes(c, rest);
    } else {
      DecodeFourBytes(c, rest);
    }
  }

  lemma DecodeTwoBytes(c: char, rest: seq<Byte>)
    requires 0x80 <= c as int < 0x800
    ensures DecodeStep(EncodeChar(c) + rest) == (c, 2)
  {
    var n := c as int;
    var bs := EncodeChar(c) + rest;
    var q, r := n / 64, n % 64;
    assert n == 64 * q + r && 2 <= q < 32;
    assert bs[0] == 0xC0 + q && bs[1] == 0x80 + r;
    assert SequenceLength(bs[0]) == 2;
    assert Matched(bs, 2, 2) == 2;
    assert Matched(bs, 2, 1) == 2;
  }

  lemma DecodeThreeBytes(c: char, rest: seq<Byte>)
    requires 0x800 <= c as int < 0x10000
    ensures DecodeStep(EncodeChar(c) + rest) == (c, 3)
  {
    var n := c as int;
    var bs := EncodeChar(c) + rest;
    var a, b, r := n / 4096, (n / 64) % 64, n % 64;
    assert n / 64 == 64 * a + b;
    assert n == 4096 * a + 64 * b + r && 0 <= a < 16;
    assert bs[0] == 0xE0 + a && bs[1] == 0x80 + b && bs[2] == 0x80 + r;
    assert a == 0 ==> b >= 32;
    assert a == 13 ==> b < 32;
    assert SequenceLength(bs[0]) == 3;
    assert ContinuationOk(bs[0], 1, bs[1]) && ContinuationOk(bs[0], 2, bs[2]);
    assert Matched(bs, 3, 3) == 3;
    assert Matched(bs, 3, 2) == 3;
    assert Matched(bs, 3, 1) == 3;
  }

  lemma DecodeFourBytes(c: char, rest: seq<Byte>)
    requires 0x10000 <= c as int
    ensures DecodeStep(EncodeChar(c) + rest) == (c, 4)
  {
    var n := c as int;
    var bs := EncodeChar(c) + rest;
    var a, b, d, r := n / 262144, (n / 4096) % 64, (n / 64) % 64, n % 64;
    assert n / 64 == 64 * (n / 4096) + d;
    assert n / 4096 == 64 * a + b;
    assert n == 262144 * a + 4096 * b + 64 * d + r && 0 <= a <= 4;
    assert bs[0] == 0xF0 + a && bs[1] == 0x80 + b && bs[2] == 0x80 + d && bs[3] == 0x80 + r;
    assert a == 0 ==> b >= 16;
    assert a == 4 ==> b < 16;
    assert SequenceLength(bs[0]) == 4;
    assert ContinuationOk(bs[0], 1, bs[1]) && ContinuationOk(bs[0], 2, bs[2]) && ContinuationOk(bs[0], 3, bs[3]);
    assert Matched(bs, 4, 4) == 4;
    assert Matched(bs, 4, 3) == 4;
    assert Matched(bs, 4, 2) == 4;
    assert Matched(bs, 4, 1) == 4;
  }

  /** Decoding undoes encoding: no text is altered by a UTF-8 round trip. */
  lemma {:induction false} Utf8RoundTrip(s: string)
    ensures Utf8Decode(Utf8Encode(s)) == s
  {
    if s != [] {
      var head, tail := EncodeChar(s[0]), Utf8Encode(s[1..]);
      DecodeEncodedChar(s[0], tail);
      assert (head + tail)[|head|..] == tail;
      Utf8RoundTrip(s[1..]);
    }
  }

  // ---------------------------------------------------------------- quoting

  /** Bytes `quote` never escapes: ASCII letters, digits and `_.-~`. */
  predicate AlwaysSafe(b: Byte) {
    || 'A' as int <= b <= 'Z' as int
    || 'a' as int <= b <= 'z' as int
    || '0' as int <= b <= '9' as int
    || b == '_' as int || b == '.' as int || b == '-' as int || b == '~' as int
  }

  const HexDigits: string := "0123456789ABCDEF"

  /** One byte as `quote_plus` writes it. */
  function QuoteByte(b: Byte): (r: string)
    ensures AllAscii(r)
  {
    if AlwaysSafe(b) then [b as char]
    else if b == 0x20 then "+"
    else ['%', HexDigits[b / 16], HexDigits[b % 16]]
  }

  function QuoteBytes(bs: seq<Byte>): string {
    if bs == [] then [] else QuoteByte(bs[0]) + QuoteBytes(bs[1..])
  }

  /** `urllib.parse.quote_plus(s)`. */
  function QuotePlus(s: string): (r: string)
    ensures forall i :: 0 <= i < |r| ==> IsQuotedChar(r[i])
  {
    QuoteBytesAlphabet(Utf8Encode(s));
    QuoteBytes(Utf8Encode(s))
  }

  /** The characters `quote_plus` may write: safe characters, `+`, `%` and upper-case hex digits. */
  predicate IsQuotedChar(c: char) {
    (c as int < 256 && AlwaysSafe(c as int)) || c == '+' || c == '%'
  }

  lemma {:induction false} QuoteBytesAlphabet(bs: seq<Byte>)
    ensures forall i :: 0 <= i < |QuoteBytes(bs)| ==> IsQuotedChar(QuoteBytes(bs)[i])
  {
    if bs != [] {
      QuoteBytesAlphabet(bs[1..]);
      var head := QuoteByte(bs[0]);
      assert forall i :: 0 <= i < |head| ==> IsQuotedChar(head[i]);
    }
  }

  /** Quoted text never holds `&` or `=`, so it can stand as a key or a value in a query string. */
  lemma QuotePlusHasNoDelimiters(s: string)
    ensures '&' !in QuotePlus(s) && '=' !in QuotePlus(s)
  {
  }

  // ---------------------------------------------------------------- unquoting

  predicate IsAscii(c: char) {
    c as int < 0x80
  }

  function HexValue(c: char): int {
    if '0' <= c <= '9' then c as int - '0' as int
    else if 'A' <= c <= 'F' then c as int - 'A' as int + 10
    else if 'a' <= c <= 'f' then c as int - 'a' as int + 10
    else -1
  }

  predicate IsHexDigit(c: char) {
    HexValue(c) >= 0
  }

  /** `unquote_to_bytes` on ASCII text: a `%` followed by two hex digits is one byte, anything else stands for itself. */
  function UnquoteToBytes(s: string): seq<Byte>
    requires forall i :: 0 <= i < |s| ==> IsAscii(s[i])
  {
    if s == [] then []
    else if s[0] == '%' && |s| >= 3 && IsHexDigit(s[1]) && IsHexDigit(s[2]) then
      var b: Byte := 16 * HexValue(s[1]) + HexValue(s[2]);
      [b] + UnquoteToBytes(s[3..])
    else
      assert IsAscii(s[0]);
      var b: Byte := s[0] as int;
      [b] + UnquoteToBytes(s[1..])
  }

  /** The length of the longest all-ASCII prefix of `s`. */
  function AsciiRun(s: string): (n: nat)
    ensures n <= |s|
    ensures forall i :: 0 <= i < n ==> IsAscii(s[i])
    ensures n < |s| ==> !IsAscii(s[n])
  {
    if s != [] && IsAscii(s[0]) then 1 + AsciiRun(s[1..]) else 0
  }

  /**
   * `urllib.parse.unquote(s)`: non-ASCII characters pass through; each ASCII
   * run is unescaped and decoded. Text without `%` comes back unchanged.
   */
  function Unquote(s: string): (r: string)
    ensures '%' !in s ==> r == s
    decreases |s|
  {
    if s == [] then []
    else if !IsAscii(s[0]) then
      assert '%' !in s ==> '%' !in s[1..];
      [s[0]] + Unquote(s[1..])
    else
      var n := AsciiRun(s);
      if '%' !in s then
        UnquoteToBytesNoPercent(s[..n]);
        assert '%' !in s[n..];
        assert s == s[..n] + s[n..];
        Utf8Decode(UnquoteToBytes(s[..n])) + Unquote(s[n..])
      else
        Utf8Decode(UnquoteToBytes(s[..n])) + Unquote(s[n..])
  }

  function PlusToSpace(s: string): (r: string)
    ensures |r| == |s|
    ensures forall i :: 0 <= i < |s| ==> r[i] == if s[i] == '+' then ' ' else s[i]
  {
    if s == [] then [] else [if s[0] == '+' then ' ' else s[0]] + PlusToSpace(s[1..])
  }

  /** `urllib.parse.unquote_plus(s)`: each `+` becomes a space, then escapes are decoded. */
  function UnquotePlus(s: string): (r: string)
    ensures '%' !in s ==> r == PlusToSpace(s)
  {
    assert '%' !in s ==> '%' !in PlusToSpace(s);
    Unquote(PlusToSpace(s))
  }

  /** Text without `%` and non-ASCII characters is returned unchanged, as `unquote`'s shortcut does. */
  lemma {:induction false} UnquoteToBytesNoPercent(s: string)
    requires forall i :: 0 <= i < |s| ==> IsAscii(s[i]) && s[i] != '%'
    ensures Utf8Decode(UnquoteToBytes(s)) == s
  {
    if s != [] {
      UnquoteToBytesNoPercent(s[1..]);
      var bs := UnquoteToBytes(s);
      assert bs == [s[0] as int] + UnquoteToBytes(s[1..]);
      assert DecodeStep(bs) == (s[0], 1);
      assert bs[1..] == UnquoteToBytes(s[1..]);
    }
  }

  // The round trip, in three steps: `+` back to space, escapes back to bytes, bytes back to text.

  /** `QuoteBytes` with the `+` for a space already turned back into a space. */
  function SpacedQuoteBytes(bs: seq<Byte>): (s: string)
    ensures forall i :: 0 <= i < |s| ==> IsAscii(s[i])
  {
    if bs == [] then []
    else
      var head, tail := if bs[0] == 0x20 then " " else QuoteByte(bs[0]), SpacedQuoteBytes(bs[1..]);
      assert AllAscii(head);
      assert forall i :: |head| <= i < |head + tail| ==> (head + tail)[i] == tail[i - |head|];
      head + tail
  }

  lemma {:induction false} PlusToSpaceAppend(a: string, b: string)
    ensures PlusToSpace(a + b) == PlusToSpace(a) + PlusToSpace(b)
  {
    var l, r := PlusToSpace(a + b), PlusToSpace(a) + PlusToSpace(b);
    assert |l| == |r|;
    forall i | 0 <= i < |l| ensures l[i] == r[i] {
      if i < |a| { assert (a + b)[i] == a[i]; } else { assert (a + b)[i] == b[i - |a|]; }
    }
  }

  lemma PlusBecomesSpaceInByte(b: Byte)
    ensures PlusToSpace(QuoteByte(b)) == if b == 0x20 then " " else QuoteByte(b)
  {
    var q := QuoteByte(b);
    if b != 0x20 {
      assert forall i :: 0 <= i < |q| ==> q[i] != '+';
      assert PlusToSpace(q) == q;
    }
  }

  lemma {:induction false} PlusBecomesSpace(bs: seq<Byte>)
    ensures PlusToSpace(QuoteBytes(bs)) == SpacedQuoteBytes(bs)
  {
    if bs != [] {
      PlusToSpaceAppend(QuoteByte(bs[0]), QuoteBytes(bs[1..]));
      PlusBecomesSpaceInByte(bs[0]);
      PlusBecomesSpace(bs[1..]);
    }
  }

  predicate AllAscii(s: string) {
    forall i :: 0 <= i < |s| ==> IsAscii(s[i])
  }

  /** The digit `HexDigits` writes for `d` reads back as `d`. */
  lemma HexDigitValue(d: int)
    requires 0 <= d < 16
    ensures HexValue(HexDigits[d]) == d
  {
    assert HexDigits[d] == (if d < 10 then ('0' as int + d) as char else ('A' as int + d - 10) as char);
  }

  /** `%` and two hex digits are read as one byte, ahead of whatever follows. */
  lemma UnquotePercentTriple(hi: char, lo: char, rest: string)
    requires IsHexDigit(hi) && IsHexDigit(lo) && AllAscii(rest)
    ensures AllAscii(['%', hi, lo] + rest)
    ensures var r := UnquoteToBytes(['%', hi, lo] + rest);
      |r| >= 1 && r[0] == 16 * HexValue(hi) + HexValue(lo) && r[1..] == UnquoteToBytes(rest)
  {
    var s := ['%', hi, lo] + rest;
    assert forall i :: 3 <= i < |s| ==> s[i] == rest[i - 3];
    assert s[3..] == rest;
  }

  /** A byte written as `%XX` is read back as that byte, ahead of whatever follows. */
  lemma UnquoteEscapedByte(b: Byte, rest: string)
    requires AllAscii(rest)
    ensures AllAscii(['%', HexDigits[b / 16], HexDigits[b % 16]] + rest)
    ensures UnquoteToBytes(['%', HexDigits[b / 16], HexDigits[b % 16]] + rest) == [b] + UnquoteToBytes(rest)
  {
    var hi, lo := HexDigits[b / 16], HexDigits[b % 16];
    HexDigitValue(b / 16);
    HexDigitValue(b % 16);
    UnquotePercentTriple(hi, lo, rest);
    var r := UnquoteToBytes(['%', hi, lo] + rest);
    assert r == [r[0]] + r[1..];
  }

  /** Any ASCII character other than `%` is read as its own code, ahead of whatever follows. */
  lemma UnquoteLiteral(c: char, rest: string)
    requires IsAscii(c) && c != '%' && AllAscii(rest)
    ensures AllAscii([c] + rest)
    ensures var r := UnquoteToBytes([c] + rest);
      |r| >= 1 && r[0] == c as int && r[1..] == UnquoteToBytes(rest)
  {
    var s := [c] + rest;
    assert forall i :: 1 <= i < |s| ==> s[i] == rest[i - 1];
    assert s[1..] == rest;
  }

  lemma {:induction false} UnescapeSpacedQuoteBytes(bs: seq<Byte>)
    ensures UnquoteToBytes(SpacedQuoteBytes(bs)) == bs
  {
    if bs != [] {
      var b := bs[0];
      var rest := SpacedQuoteBytes(bs[1..]);
      UnescapeSpacedQuoteBytes(bs[1..]);
      if b == 0x20 || AlwaysSafe(b) {
        assert SpacedQuoteBytes(bs) == [b as char] + rest;
        UnquoteLiteral(b as char, rest);
        var r := UnquoteToBytes([b as char] + rest);
        assert r == [r[0]] + r[1..];
      } else {
        assert SpacedQuoteBytes(bs) == ['%', HexDigits[b / 16], HexDigits[b % 16]] + rest;
        UnquoteEscapedByte(b, rest);
      }
      assert [b] + bs[1..] == bs;
    }
  }

  lemma UnquoteAllAscii(s: string)
    requires s != [] && forall i :: 0 <= i < |s| ==> IsAscii(s[i])
    ensures Unquote(s) == Utf8Decode(UnquoteToBytes(s))
  {
    assert AsciiRun(s) == |s|;
    assert s[..|s|] == s && s[|s|..] == [];
  }

  /** `unquote_plus(quote_plus(s)) == s` for every text `s`. */
  lemma QuoteRoundTrip(s: string)
    ensures UnquotePlus(QuotePlus(s)) == s
  {
    var bs := Utf8Encode(s);
    PlusBecomesSpace(bs);
    UnescapeSpacedQuoteBytes(bs);
    Utf8RoundTrip(s);
    if SpacedQuoteBytes(bs) != [] {
      UnquoteAllAscii(SpacedQuoteBytes(bs));
    } else {
      assert Utf8Decode(UnquoteToBytes(SpacedQuoteBytes(bs))) == [];
    }
  }
}
