/** Percent-encoded Wikipedia page addresses (src/dj_fact_sources.rs; percent-encoding as in
    section 2.1 of RFC 3986). */
module WikiUrl {
  import Utf8

  function Underscored(id: string): (r: string)
    ensures |r| == |id|
    ensures forall i | 0 <= i < |id| :: r[i] == if id[i] == ' ' then '_' else id[i]
  {
    if id == [] then [] else [if id[0] == ' ' then '_' else id[0]] + Underscored(id[1..])
  }

  predicate IsPlain(b: int) {
    || 0x30 <= b <= 0x39 || 0x41 <= b <= 0x5A || 0x61 <= b <= 0x7A
    || b == 0x5F || b == 0x2D || b == 0x2E || b == 0x2A
  }

  function HexDigit(n: int): char
    requires 0 <= n < 16
  {
    if n < 10 then (0x30 + n) as char else (0x41 + n - 10) as char
  }

  function HexValue(c: char): int {
    if '0' <= c <= '9' then c as int - 0x30 else c as int - 0x41 + 10
  }

  function EncodeByte(b: int): string
    requires 0 <= b < 256
  {
    if IsPlain(b) then [b as char] else ['%', HexDigit(b / 16), HexDigit(b % 16)]
  }

  predicate AreBytes(bs: seq<int>) {
    forall i | 0 <= i < |bs| :: 0 <= bs[i] < 256
  }

  function EncodeBytes(bs: seq<int>): string
    requires AreBytes(bs)
  {
    if bs == [] then [] else EncodeByte(bs[0]) + EncodeBytes(bs[1..])
  }

  function WikiTitleUrl(id: string): string {
    EncodeBytes(Utf8.Bytes(Underscored(id)))
  }

  /** Percent-decoding: the reader's side of the encoding. */
  function DecodeBytes(url: string): seq<int> {
    if url == [] then []
    else if url[0] == '%' && |url| >= 3 then
      [16 * HexValue(url[1]) + HexValue(url[2])] + DecodeBytes(url[3..])
    else [url[0] as int] + DecodeBytes(url[1..])
  }

  lemma DecodeByte(b: int, rest: string)
    requires 0 <= b < 256
    ensures DecodeBytes(EncodeByte(b) + rest) == [b] + DecodeBytes(rest)
  {
    var head := EncodeByte(b);
    assert (head + rest)[|head|..] == rest;
  }

  /** Every encoded address decodes to the bytes it was made from. */
  lemma {:induction false} DecodeEncode(bs: seq<int>)
    requires AreBytes(bs)
    ensures DecodeBytes(EncodeBytes(bs)) == bs
  {
    if bs != [] {
      DecodeEncode(bs[1..]);
      DecodeByte(bs[0], EncodeBytes(bs[1..]));
    }
  }

  /** Two page ids have the same address exactly when they differ only in spaces written as
      underscores. */
  lemma SameUrlIff(a: string, b: string)
    ensures WikiTitleUrl(a) == WikiTitleUrl(b) <==> Underscored(a) == Underscored(b)
  {
    DecodeEncode(Utf8.Bytes(Underscored(a)));
    DecodeEncode(Utf8.Bytes(Underscored(b)));
    if WikiTitleUrl(a) == WikiTitleUrl(b) {
      Utf8.BytesInjective(Underscored(a), Underscored(b));
    }
  }

  /** An address holds only unreserved ASCII, '*' and percent escapes. */
  lemma {:induction false} UrlIsPlain(bs: seq<int>)
    requires AreBytes(bs)
    ensures forall i | 0 <= i < |EncodeBytes(bs)| ::
      EncodeBytes(bs)[i] == '%' || IsPlain(EncodeBytes(bs)[i] as int)
  {
    if bs != [] {
      UrlIsPlain(bs[1..]);
    }
  }

  /** The bytes an address shows as they are: ASCII letters, digits and "_-.*". */
  predicate StaysAsItIs(c: char) {
    '0' <= c <= '9' || 'A' <= c <= 'Z' || 'a' <= c <= 'z' || c in ['_', '-', '.', '*']
  }

  /** Such a byte is written as its character, and any other as a percent sign and its two upper-case
      hexadecimal digits. */
  lemma EncodedByteIs(b: int)
    requires 0 <= b < 256
    ensures EncodeByte(b)
      == if b < 128 && StaysAsItIs(b as char) then [b as char]
         else ['%', "0123456789ABCDEF"[b / 16], "0123456789ABCDEF"[b % 16]]
  {
  }
}
