/** The JavaScript builtin `encodeURIComponent`, which the share link applies to the
    colour value. As ECMA-262 defines it (section 19.2.6.5, the abstract operation
    Encode), every character outside a small unescaped set is replaced by the
    percent-escapes of its UTF-8 bytes, written with upper-case hexadecimal digits.
    Characters are Unicode scalar values here, so the URIError that a lone UTF-16
    surrogate raises cannot arise. */
module UriComponent {

  /** The characters `encodeURIComponent` leaves as they are: ASCII letters, decimal
      digits and the marks `-_.!~*'()`. Section 2.3 of RFC 3986 calls letters, digits
      and `-._~` unreserved; the other marks are left alone by ECMAScript as well. */
  predicate IsUnescaped(c: char) {
    ('a' <= c <= 'z') || ('A' <= c <= 'Z') || ('0' <= c <= '9') || c in "-_.!~*'()"
  }

  predicate IsUpperHexDigit(c: char) {
    ('0' <= c <= '9') || ('A' <= c <= 'F')
  }

  /** The UTF-8 encoding of one Unicode scalar value (RFC 3629, section 3): one byte
      below 0x80, and otherwise a lead byte followed by continuation bytes 10xxxxxx. */
  function Utf8(c: char): (bytes: seq<int>)
    ensures 1 <= |bytes| <= 4
    ensures forall k :: 0 <= k < |bytes| ==> 0 <= bytes[k] < 256
    ensures (c as int < 0x80) <==> |bytes| == 1
    ensures |bytes| == 1 ==> bytes[0] == c as int
    ensures |bytes| == (if c as int < 0x80 then 1 else if c as int < 0x800 then 2
                        else if c as int < 0x1_0000 then 3 else 4)
    ensures |bytes| == 2 ==> 0xC0 <= bytes[0] < 0xE0
    ensures |bytes| == 3 ==> 0xE0 <= bytes[0] < 0xF0
    ensures |bytes| == 4 ==> 0xF0 <= bytes[0] < 0xF8
    ensures forall k :: 1 <= k < |bytes| ==> 0x80 <= bytes[k] < 0xC0
  {
    var cp := c as int;
    if cp < 0x80 then
      [cp]
    else if cp < 0x800 then
      [0xC0 + cp / 0x40, 0x80 + cp % 0x40]
    else if cp < 0x1_0000 then
      [0xE0 + cp / 0x1000, 0x80 + (cp / 0x40) % 0x40, 0x80 + cp % 0x40]
    else
      [0xF0 + cp / 0x4_0000, 0x80 + (cp / 0x1000) % 0x40, 0x80 + (cp / 0x40) % 0x40, 0x80 + cp % 0x40]
  }

  /** The payload bits of the bytes `Utf8` produces, reassembled: the reference
      against which the encoding is shown to lose nothing. */
  function Utf8Payload(bytes: seq<int>): int
    requires 1 <= |bytes| <= 4
  {
    match |bytes|
    case 1 => bytes[0]
    case 2 => (bytes[0] - 0xC0) * 0x40 + (bytes[1] - 0x80)
    case 3 => (bytes[0] - 0xE0) * 0x1000 + (bytes[1] - 0x80) * 0x40 + (bytes[2] - 0x80)
    case 4 => (bytes[0] - 0xF0) * 0x4_0000 + (bytes[1] - 0x80) * 0x1000 + (bytes[2] - 0x80) * 0x40 + (bytes[3] - 0x80)
  }

  /** The UTF-8 bytes of a character carry its whole code point. */
  lemma Utf8Lossless(c: char)
    ensures Utf8Payload(Utf8(c)) == c as int
  {
    var cp := c as int;
    if cp < 0x80 {
    } else if cp < 0x800 {
      assert cp == (cp / 0x40) * 0x40 + cp % 0x40;
    } else if cp < 0x1_0000 {
      assert cp / 0x40 == (cp / 0x1000) * 0x40 + (cp / 0x40) % 0x40;
      assert cp == (cp / 0x40) * 0x40 + cp % 0x40;
    } else {
      assert cp / 0x1000 == (cp / 0x4_0000) * 0x40 + (cp / 0x1000) % 0x40;
      assert cp / 0x40 == (cp / 0x1000) * 0x40 + (cp / 0x40) % 0x40;
      assert cp == (cp / 0x40) * 0x40 + cp % 0x40;
    }
  }

  /** The upper-case hexadecimal digit of a value below 16. */
  function HexDigit(n: int): (d: char)
    requires 0 <= n < 16
    ensures IsUpperHexDigit(d)
    ensures n < 10 ==> d as int == '0' as int + n
    ensures 10 <= n ==> d as int == 'A' as int + (n - 10)
  {
    "0123456789ABCDEF"[n]
  }

  /** `%XY` for one byte, XY its two upper-case hexadecimal digits. */
  function ByteEscape(b: int): (r: string)
    requires 0 <= b < 256
    ensures |r| == 3 && r[0] == '%' && IsUpperHexDigit(r[1]) && IsUpperHexDigit(r[2])
  {
    ['%', HexDigit(b / 16), HexDigit(b % 16)]
  }

  /** The escape of every byte, in order: the k-th triple is the k-th byte's. */
  function PercentEscape(bytes: seq<int>): (r: string)
    requires forall k :: 0 <= k < |bytes| ==> 0 <= bytes[k] < 256
    ensures |r| == 3 * |bytes|
    ensures forall k :: 0 <= k < |r| ==> r[k] == '%' || IsUpperHexDigit(r[k])
    ensures forall k :: 0 <= k < |bytes| ==> r[3 * k..3 * k + 3] == ByteEscape(bytes[k])
  {
    if bytes == [] then
      []
    else
      var tail := PercentEscape(bytes[1..]);
      EscapeTriplesShift(bytes, tail);
      ByteEscape(bytes[0]) + tail
  }

  /** Putting the first byte's escape in front of the escapes of the rest moves each
      of them one triple along. */
  lemma EscapeTriplesShift(bytes: seq<int>, tail: string)
    requires bytes != [] && forall k :: 0 <= k < |bytes| ==> 0 <= bytes[k] < 256
    requires |tail| == 3 * (|bytes| - 1)
    requires forall k :: 0 <= k < |bytes[1..]| ==> tail[3 * k..3 * k + 3] == ByteEscape(bytes[1..][k])
    ensures forall k :: 0 <= k < |bytes| ==>
              (ByteEscape(bytes[0]) + tail)[3 * k..3 * k + 3] == ByteEscape(bytes[k])
  {
    var r := ByteEscape(bytes[0]) + tail;
    forall k | 0 <= k < |bytes|
      ensures r[3 * k..3 * k + 3] == ByteEscape(bytes[k])
    {
      if k == 0 {
        assert r[..3] == ByteEscape(bytes[0]);
      } else {
        assert bytes[1..][k - 1] == bytes[k];
        assert tail[3 * (k - 1)..3 * (k - 1) + 3] == ByteEscape(bytes[k]);
        assert r[3 * k..3 * k + 3] == tail[3 * (k - 1)..3 * (k - 1) + 3];
      }
    }
  }

  /** One character as `encodeURIComponent` writes it. */
  function EncodeChar(c: char): (r: string)
    ensures IsUnescaped(c) ==> r == [c]
    ensures !IsUnescaped(c) ==> |r| == 3 * |Utf8(c)|
    ensures !IsUnescaped(c) ==> forall k :: 0 <= k < |Utf8(c)| ==> r[3 * k..3 * k + 3] == ByteEscape(Utf8(c)[k])
    ensures forall k :: 0 <= k < |r| ==> IsUnescaped(r[k]) || r[k] == '%'
  {
    if IsUnescaped(c) then [c] else PercentEscape(Utf8(c))
  }

  /** `encodeURIComponent(s)`. Its output is made only of unescaped characters and
      `%`, so it never holds a query-string delimiter such as `&`, `=`, `#` or `?`. */
  function EncodeUriComponent(s: string): (r: string)
    ensures |s| <= |r|
    ensures forall k :: 0 <= k < |r| ==> IsUnescaped(r[k]) || r[k] == '%'
  {
    if s == [] then [] else EncodeChar(s[0]) + EncodeUriComponent(s[1..])
  }

  /** Encoding works character by character, so it distributes over concatenation. */
  lemma {:induction false} EncodeConcat(a: string, b: string)
    ensures EncodeUriComponent(a + b) == EncodeUriComponent(a) + EncodeUriComponent(b)
  {
    if a == [] {
      assert a + b == b;
    } else {
      assert (a + b)[1..] == a[1..] + b;
      EncodeConcat(a[1..], b);
    }
  }

  /** A string of unescaped characters comes out unchanged. */
  lemma {:induction false} EncodeUnescaped(s: string)
    requires forall k :: 0 <= k < |s| ==> IsUnescaped(s[k])
    ensures EncodeUriComponent(s) == s
  {
    if s != [] {
      EncodeUnescaped(s[1..]);
      assert s == [s[0]] + s[1..];
    }
  }

  /** Section 2.2 of RFC 3986 makes `#` a reserved gen-delim: it becomes `%23`. */
  lemma EncodeHash()
    ensures EncodeUriComponent("#") == "%23"
  {
    assert Utf8('#') == [0x23];
    assert EncodeChar('#') == "%23";
  }

  /** An encoded value cannot contain the separators of a query string. */
  lemma EncodedHasNoDelimiter(s: string, k: int)
    requires 0 <= k < |EncodeUriComponent(s)|
    ensures EncodeUriComponent(s)[k] !in "&=#?"
  {
    var c := EncodeUriComponent(s)[k];
    assert IsUnescaped(c) || c == '%';
    assert c != '&' && c != '=' && c != '#' && c != '?';
  }
}
