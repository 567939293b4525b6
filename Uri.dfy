/** The two URI encoders the shell calls: encodeURIComponent for search
    queries and encodeURI for the exported data URI (section 19.2.6 of
    ECMA-262, "URI Handling Functions"). A character outside the kept set is
    written as the percent-escapes of its UTF-8 bytes, with upper-case hex
    digits. Dafny characters are Unicode scalar values, so the lone-surrogate
    error of the standard cannot arise. */
module Uri {

  /** uriUnreserved: letters, digits and - _ . ! ~ * ' ( ) */
  predicate IsUnreserved(c: char) {
    ('A' <= c <= 'Z') || ('a' <= c <= 'z') || ('0' <= c <= '9') ||
    c == '-' || c == '_' || c == '.' || c == '!' || c == '~' || c == '*' ||
    c == '\'' || c == '(' || c == ')'
  }

  /** uriReserved and '#', which encodeURI also keeps. */
  predicate IsReservedOrHash(c: char) {
    c == ';' || c == '/' || c == '?' || c == ':' || c == '@' || c == '&' ||
    c == '=' || c == '+' || c == '$' || c == ',' || c == '#'
  }

  predicate IsHexDigit(c: char) {
    ('0' <= c <= '9') || ('A' <= c <= 'F')
  }

  function HexDigit(d: nat): (c: char)
    requires d < 16
    ensures IsHexDigit(c)
  {
    if d < 10 then ('0' as int + d) as char else ('A' as int + d - 10) as char
  }

  /** The UTF-8 encoding of one scalar value. */
  function Utf8(c: char): (bytes: seq<nat>)
    ensures 1 <= |bytes| <= 4
    ensures forall i :: 0 <= i < |bytes| ==> bytes[i] < 256
    ensures (c as int < 0x80) <==> |bytes| == 1
    ensures |bytes| == 1 ==> bytes[0] == c as int
  {
    var n := c as int;
    if n < 0x80 then [n]
    else if n < 0x800 then [0xC0 + n / 64, 0x80 + n % 64]
    else if n < 0x10000 then [0xE0 + n / 4096, 0x80 + (n / 64) % 64, 0x80 + n % 64]
    else [0xF0 + n / 262144, 0x80 + (n / 4096) % 64, 0x80 + (n / 64) % 64, 0x80 + n % 64]
  }

  /** "%XY" for each byte. */
  function Escapes(bytes: seq<nat>): (r: string)
    requires forall i :: 0 <= i < |bytes| ==> bytes[i] < 256
    ensures |r| == 3 * |bytes|
    ensures forall i :: 0 <= i < |r| ==> r[i] == '%' || IsHexDigit(r[i])
  {
    if bytes == [] then ""
    else ['%', HexDigit(bytes[0] / 16), HexDigit(bytes[0] % 16)] + Escapes(bytes[1..])
  }

  /** Encode, keeping the characters `keep` accepts and escaping all others. */
  function Encode(s: string, keep: char -> bool): (r: string)
    ensures forall i :: 0 <= i < |r| ==> keep(r[i]) || r[i] == '%' || IsHexDigit(r[i])
    ensures (forall i :: 0 <= i < |s| ==> keep(s[i])) ==> r == s
  {
    if s == [] then ""
    else (if keep(s[0]) then [s[0]] else Escapes(Utf8(s[0]))) + Encode(s[1..], keep)
  }

  /** Encoding is character by character: it distributes over
      concatenation. */
  lemma {:induction false} EncodeConcat(a: string, b: string, keep: char -> bool)
    ensures Encode(a + b, keep) == Encode(a, keep) + Encode(b, keep)
  {
    if a == [] {
      assert a + b == b;
    } else {
      assert (a + b)[1..] == a[1..] + b;
      EncodeConcat(a[1..], b, keep);
    }
  }

  function KeptByComponent(c: char): bool { IsUnreserved(c) }

  function KeptByUri(c: char): bool { IsUnreserved(c) || IsReservedOrHash(c) }

  /** encodeURIComponent: only unreserved characters, '%' and hex digits come
      out, so the result can follow "?q=" without starting another parameter
      or a fragment. */
  function EncodeURIComponent(s: string): (r: string)
    ensures forall i :: 0 <= i < |r| ==> IsUnreserved(r[i]) || r[i] == '%'
    ensures forall i :: 0 <= i < |r| ==> r[i] != '&' && r[i] != '=' && r[i] != '#' && r[i] != ' ' && r[i] != '?'
    ensures (forall i :: 0 <= i < |s| ==> IsUnreserved(s[i])) ==> r == s
  {
    Encode(s, KeptByComponent)
  }

  /** encodeURI: reserved characters and '#' are kept as well. */
  function EncodeURI(s: string): (r: string)
    ensures forall i :: 0 <= i < |r| ==> KeptByUri(r[i]) || r[i] == '%'
    ensures (forall i :: 0 <= i < |s| ==> KeptByUri(s[i])) ==> r == s
  {
    Encode(s, KeptByUri)
  }

  /** A space becomes "%20". */
  lemma SpaceEscape()
    ensures EncodeURIComponent(" ") == "%20"
    ensures EncodeURI(" ") == "%20"
  {
    assert Utf8(' ') == [32];
    assert Escapes([32]) == ['%', HexDigit(2), HexDigit(0)] + Escapes([]);
  }

  /** A two-byte character: "ü" (U+00FC) becomes "%C3%BC". */
  lemma TwoByteEscape()
    ensures EncodeURIComponent("\U{00FC}") == "%C3%BC"
  {
    assert Utf8('\U{00FC}') == [0xC3, 0xBC];
    assert Escapes([0xC3, 0xBC]) == ['%', HexDigit(12), HexDigit(3)] + Escapes([0xBC]);
    assert Escapes([0xBC]) == ['%', HexDigit(11), HexDigit(12)] + Escapes([]);
  }
}
