/**
 * PHP `urlencode` / `urldecode`: percent-encoding as in section 2.1 of RFC 3986, with the
 * HTML form convention that a space is written `+`.
 */
module UrlEncoding {
  import opened ByteStrings

  /** Bytes `urlencode` leaves alone: letters, digits, `-`, `_` and `.`. */
  predicate IsUnreserved(c: Byte) {
    'a' <= c <= 'z' || 'A' <= c <= 'Z' || '0' <= c <= '9' || c == '-' || c == '_' || c == '.'
  }

  /** Bytes that can occur in the output of `urlencode`. */
  predicate IsEncodedChar(c: Byte) {
    IsUnreserved(c) || c == '+' || c == '%'
  }

  predicate IsHex(c: Byte) {
    '0' <= c <= '9' || 'A' <= c <= 'F' || 'a' <= c <= 'f'
  }

  /** Upper-case hexadecimal digit for `d`, as `urlencode` writes it. */
  function HexDigit(d: nat): (c: Byte)
    requires d < 16
    ensures IsHex(c) && IsUnreserved(c)
  {
    if d < 10 then ('0' as int + d) as char else ('A' as int + d - 10) as char
  }

  function HexValue(c: Byte): (v: nat)
    requires IsHex(c)
    ensures v < 16
  {
    if '0' <= c <= '9' then c as int - '0' as int
    else if 'A' <= c <= 'F' then c as int - 'A' as int + 10
    else c as int - 'a' as int + 10
  }

  /** The encoding of a single byte. */
  function EncodeByte(c: Byte): Bytes
  {
    if IsUnreserved(c) then [c]
    else if c == ' ' then ['+']
    else ['%', HexDigit(c as int / 16), HexDigit(c as int % 16)]
  }

  /** The encodings of the bytes of `s`, one piece per byte. */
  function EncodedPieces(s: Bytes): seq<Bytes>
  {
    seq(|s|, i requires 0 <= i < |s| => EncodeByte(s[i]))
  }

  /** PHP `urlencode`: every byte replaced by its encoding. */
  function UrlEncode(s: Bytes): Bytes
  {
    Concat(EncodedPieces(s))
  }

  /** The encoding of a non-empty string starts with the encoding of its first byte. */
  lemma UrlEncodeCons(s: Bytes)
    requires s != []
    ensures UrlEncode(s) == EncodeByte(s[0]) + UrlEncode(s[1..])
  {
    assert EncodedPieces(s)[1..] == EncodedPieces(s[1..]);
  }

  /**
   * The output of `urlencode` consists of unreserved bytes, `+` and `%` only (so it holds no
   * `&`, `=`, `?` or space), and is never shorter than the input.
   */
  lemma {:induction false} UrlEncodeAlphabet(s: Bytes)
    ensures forall i | 0 <= i < |UrlEncode(s)| :: IsEncodedChar(UrlEncode(s)[i])
    ensures |UrlEncode(s)| >= |s|
    decreases |s|
  {
    if s != [] {
      UrlEncodeCons(s);
      UrlEncodeAlphabet(s[1..]);
      var e := EncodeByte(s[0]);
      assert forall i | 0 <= i < |e| :: IsEncodedChar(e[i]);
    }
  }

  /** Text made only of unreserved bytes (a client id, a state token) is left as it is. */
  lemma {:induction false} UnreservedUnchanged(s: Bytes)
    requires forall i | 0 <= i < |s| :: IsUnreserved(s[i])
    ensures UrlEncode(s) == s
    decreases |s|
  {
    if s != [] {
      UrlEncodeCons(s);
      UnreservedUnchanged(s[1..]);
      assert [s[0]] + s[1..] == s;
    }
  }

  /**
   * PHP `urldecode`: `+` is a space, `%` followed by two hexadecimal digits is that byte,
   * every other byte (a stray `%` included) stands for itself.
   */
  function UrlDecode(s: Bytes): Bytes
    decreases |s|
  {
    if s == [] then []
    else if s[0] == '+' then [' '] + UrlDecode(s[1..])
    else if s[0] == '%' && |s| >= 3 && IsHex(s[1]) && IsHex(s[2]) then
      [(HexValue(s[1]) * 16 + HexValue(s[2])) as char] + UrlDecode(s[3..])
    else [s[0]] + UrlDecode(s[1..])
  }

  /** Encoding distributes over concatenation. */
  lemma UrlEncodeAppend(a: Bytes, b: Bytes)
    ensures UrlEncode(a + b) == UrlEncode(a) + UrlEncode(b)
  {
    assert EncodedPieces(a + b) == EncodedPieces(a) + EncodedPieces(b);
    ConcatAppend(EncodedPieces(a), EncodedPieces(b));
  }

  /** Decoding the encoding of one byte followed by anything yields that byte first. */
  lemma DecodeEncodedByte(c: Byte, rest: Bytes)
    ensures UrlDecode(EncodeByte(c) + rest) == [c] + UrlDecode(rest)
  {
    var s := EncodeByte(c) + rest;
    if IsUnreserved(c) || c == ' ' {
      assert s[1..] == rest;
    } else {
      assert s[3..] == rest;
      assert HexValue(s[1]) * 16 + HexValue(s[2]) == c as int;
    }
  }

  /** `urldecode(urlencode(s)) == s` for every byte string. */
  lemma {:induction false} UrlDecodeEncode(s: Bytes)
    ensures UrlDecode(UrlEncode(s)) == s
    decreases |s|
  {
    if s != [] {
      UrlEncodeCons(s);
      DecodeEncodedByte(s[0], UrlEncode(s[1..]));
      UrlDecodeEncode(s[1..]);
      assert [s[0]] + s[1..] == s;
    }
  }

  /** Distinct strings have distinct encodings. */
  lemma UrlEncodeInjective(a: Bytes, b: Bytes)
    requires UrlEncode(a) == UrlEncode(b)
    ensures a == b
  {
    UrlDecodeEncode(a);
    UrlDecodeEncode(b);
  }

  /** The encodings of each string of `ss`, in order. */
  function EncodeEach(ss: seq<Bytes>): seq<Bytes>
  {
    seq(|ss|, i requires 0 <= i < |ss| => UrlEncode(ss[i]))
  }

  /**
   * Encoding a space-joined list equals joining the encoded items with `+`: the scope list
   * of an authorization request keeps its items and their order.
   */
  lemma {:induction false} UrlEncodeJoin(ss: seq<Bytes>)
    ensures UrlEncode(Join(ss, ' ')) == Join(EncodeEach(ss), '+')
    decreases |ss|
  {
    if |ss| >= 2 {
      UrlEncodeJoin(ss[1..]);
      UrlEncodeAppend(ss[0] + [' '], Join(ss[1..], ' '));
      UrlEncodeAppend(ss[0], [' ']);
      UrlEncodeCons([' ']);
      assert EncodeEach(ss)[1..] == EncodeEach(ss[1..]);
    }
  }
}
