/**
 * PHP strings are sequences of bytes. A byte is modelled as a `char` below 256, so that
 * ASCII literals can be written directly.
 */
module ByteStrings {

  type Byte = c: char | c as int < 256
  type Bytes = seq<Byte>

  /** PHP `implode(sep, parts)`: the parts with `sep` between neighbours. */
  function Join(parts: seq<Bytes>, sep: Byte): Bytes
  {
    if |parts| == 0 then []
    else if |parts| == 1 then parts[0]
    else parts[0] + [sep] + Join(parts[1..], sep)
  }

  /** The pieces written one after another. */
  function Concat(pieces: seq<Bytes>): Bytes
  {
    if pieces == [] then [] else pieces[0] + Concat(pieces[1..])
  }

  lemma {:induction false} ConcatAppend(x: seq<Bytes>, y: seq<Bytes>)
    ensures Concat(x + y) == Concat(x) + Concat(y)
    decreases |x|
  {
    if x == [] {
      assert x + y == y;
    } else {
      assert (x + y)[1..] == x[1..] + y;
      ConcatAppend(x[1..], y);
    }
  }

  /** PHP `explode(sep, s)`: the pieces of `s` between occurrences of `sep`. */
  function Split(s: Bytes, sep: Byte): (parts: seq<Bytes>)
    ensures |parts| >= 1
    ensures forall i | 0 <= i < |parts| :: sep !in parts[i]
    ensures Join(parts, sep) == s
    decreases |s|
  {
    if s == [] then [[]]
    else
      var rest := Split(s[1..], sep);
      if s[0] == sep then
        assert ([[]] + rest)[1..] == rest;
        [[]] + rest
      else
        var parts := [[s[0]] + rest[0]] + rest[1..];
        assert parts[1..] == rest[1..];
        assert s == [s[0]] + s[1..];
        parts
  }

  /** A piece free of the separator splits to itself. */
  lemma {:induction false} SplitWithoutSeparator(p: Bytes, sep: Byte)
    requires sep !in p
    ensures Split(p, sep) == [p]
    decreases |p|
  {
    if p != [] {
      SplitWithoutSeparator(p[1..], sep);
    }
  }

  /** Splitting `p + [sep] + r` cuts exactly after `p` when `p` holds no separator. */
  lemma {:induction false} SplitAfterPiece(p: Bytes, r: Bytes, sep: Byte)
    requires sep !in p
    ensures Split(p + [sep] + r, sep) == [p] + Split(r, sep)
    decreases |p|
  {
    var s := p + [sep] + r;
    if p == [] {
      assert s[1..] == r;
    } else {
      assert s[1..] == p[1..] + [sep] + r;
      SplitAfterPiece(p[1..], r, sep);
      assert [p[0]] + p[1..] == p;
    }
  }

  /** `explode` undoes `implode` when no part contains the separator. */
  lemma {:induction false} SplitOfJoin(parts: seq<Bytes>, sep: Byte)
    requires |parts| >= 1
    requires forall i | 0 <= i < |parts| :: sep !in parts[i]
    ensures Split(Join(parts, sep), sep) == parts
    decreases |parts|
  {
    if |parts| == 1 {
      SplitWithoutSeparator(parts[0], sep);
    } else {
      SplitOfJoin(parts[1..], sep);
      SplitAfterPiece(parts[0], Join(parts[1..], sep), sep);
      assert [parts[0]] + parts[1..] == parts;
    }
  }

  predicate IsDigit(c: Byte) {
    '0' <= c <= '9'
  }

  function DigitChar(d: nat): (c: Byte)
    requires d < 10
    ensures IsDigit(c) && c as int - '0' as int == d
  {
    ('0' as int + d) as char
  }

  /** PHP's string form of a non-negative integer: its decimal digits, most significant first. */
  function Decimal(n: nat): (r: Bytes)
    ensures |r| >= 1
    ensures forall i | 0 <= i < |r| :: IsDigit(r[i])
  {
    if n < 10 then [DigitChar(n)] else Decimal(n / 10) + [DigitChar(n % 10)]
  }

  /** The value of a string of decimal digits (leading zeros allowed). */
  function DigitsValue(s: Bytes): nat
    requires forall i | 0 <= i < |s| :: IsDigit(s[i])
  {
    if s == [] then 0
    else
      assert IsDigit(s[|s| - 1]);
      DigitsValue(s[..|s| - 1]) * 10 + (s[|s| - 1] as int - '0' as int)
  }

  /** Reading the decimal form of `n` gives `n` back. */
  lemma {:induction false} DecimalRoundTrip(n: nat)
    ensures DigitsValue(Decimal(n)) == n
  {
    if n >= 10 {
      var r := Decimal(n);
      assert r[..|r| - 1] == Decimal(n / 10);
      DecimalRoundTrip(n / 10);
    }
  }
}
