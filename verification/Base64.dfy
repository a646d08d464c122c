/** Padded base64 (section 4 of RFC 4648), as written by the cipher wrapper. */
module Base64 {
  import opened Wrappers

  type Byte = n: int | 0 <= n < 256
  type Bytes = seq<Byte>
  type Sextet = n: int | 0 <= n < 64

  function Digit(n: Sextet): char {
    if n < 26 then (n + 'A' as int) as char
    else if n < 52 then (n - 26 + 'a' as int) as char
    else if n < 62 then (n - 52 + '0' as int) as char
    else if n == 62 then '+'
    else '/'
  }

  function DigitValue(c: char): Option<Sextet> {
    if 'A' <= c <= 'Z' then Some(c as int - 'A' as int)
    else if 'a' <= c <= 'z' then Some(c as int - 'a' as int + 26)
    else if '0' <= c <= '9' then Some(c as int - '0' as int + 52)
    else if c == '+' then Some(62)
    else if c == '/' then Some(63)
    else None
  }

  // The four digits of three bytes, and the three bytes of four digits.
  function First(x: Byte): Sextet { x / 4 }
  function Second(x: Byte, y: Byte): Sextet { x % 4 * 16 + y / 16 }
  function Third(y: Byte, z: Byte): Sextet { y % 16 * 4 + z / 64 }
  function Fourth(z: Byte): Sextet { z % 64 }
  function HighByte(p: Sextet, q: Sextet): Byte { p * 4 + q / 16 }
  function MiddleByte(q: Sextet, r: Sextet): Byte { q % 16 * 16 + r / 4 }
  function LowByte(r: Sextet, s: Sextet): Byte { r % 4 * 64 + s }

  lemma BytesFromDigits(x: Byte, y: Byte, z: Byte)
    ensures HighByte(First(x), Second(x, y)) == x
    ensures MiddleByte(Second(x, y), Third(y, z)) == y
    ensures LowByte(Third(y, z), Fourth(z)) == z
  {
  }

  function Encode(b: Bytes): string {
    if |b| == 0 then ""
    else if |b| == 1 then
      [Digit(First(b[0])), Digit(Second(b[0], 0)), '=', '=']
    else if |b| == 2 then
      [Digit(First(b[0])), Digit(Second(b[0], b[1])), Digit(Third(b[1], 0)), '=']
    else
      [Digit(First(b[0])), Digit(Second(b[0], b[1])), Digit(Third(b[1], b[2])), Digit(Fourth(b[2]))]
      + Encode(b[3..])
  }

  /** The bytes of one group of four characters; padding is allowed in the last group only. */
  function DecodeGroup(c: string, last: bool): Option<Bytes>
    requires |c| == 4
  {
    match (DigitValue(c[0]), DigitValue(c[1]), DigitValue(c[2]), DigitValue(c[3]))
    case (Some(p), Some(q), Some(r), Some(s)) => Some([HighByte(p, q), MiddleByte(q, r), LowByte(r, s)])
    case (Some(p), Some(q), Some(r), None) =>
      if last && c[3] == '=' then Some([HighByte(p, q), MiddleByte(q, r)]) else None
    case (Some(p), Some(q), None, None) =>
      if last && c[2] == '=' && c[3] == '=' then Some([HighByte(p, q)]) else None
    case _ => None
  }

  function Decode(c: string): Option<Bytes> {
    if c == "" then Some([])
    else if |c| < 4 then None
    else
      match (DecodeGroup(c[..4], |c| == 4), Decode(c[4..]))
      case (Some(group), Some(rest)) => Some(group + rest)
      case _ => None
  }

  lemma DigitRoundTrip(n: Sextet)
    ensures DigitValue(Digit(n)) == Some(n)
  {
  }

  lemma FourDigits(p: Sextet, q: Sextet, r: Sextet, s: Sextet, last: bool)
    ensures DecodeGroup([Digit(p), Digit(q), Digit(r), Digit(s)], last)
         == Some([HighByte(p, q), MiddleByte(q, r), LowByte(r, s)])
  {
    DigitRoundTrip(p);
    DigitRoundTrip(q);
    DigitRoundTrip(r);
    DigitRoundTrip(s);
  }

  lemma ThreeDigits(p: Sextet, q: Sextet, r: Sextet)
    ensures DecodeGroup([Digit(p), Digit(q), Digit(r), '='], true) == Some([HighByte(p, q), MiddleByte(q, r)])
  {
    DigitRoundTrip(p);
    DigitRoundTrip(q);
    DigitRoundTrip(r);
  }

  lemma TwoDigits(p: Sextet, q: Sextet)
    ensures DecodeGroup([Digit(p), Digit(q), '=', '='], true) == Some([HighByte(p, q)])
  {
    DigitRoundTrip(p);
    DigitRoundTrip(q);
  }

  /** Decoding goes group by group. */
  lemma DecodeJoin(group: string, rest: string, b: Bytes, tail: Bytes)
    requires |group| == 4
    requires DecodeGroup(group, rest == "") == Some(b)
    requires Decode(rest) == Some(tail)
    ensures Decode(group + rest) == Some(b + tail)
  {
    var text := group + rest;
    assert text[..4] == group && text[4..] == rest;
  }

  lemma LastGroup(group: string, b: Bytes)
    requires |group| == 4 && DecodeGroup(group, true) == Some(b)
    ensures Decode(group) == Some(b)
  {
    DecodeJoin(group, "", b, []);
    assert group + "" == group && b + [] == b;
  }

  lemma OneByteRoundTrip(x: Byte)
    ensures Decode(Encode([x])) == Some([x])
  {
    var p, q := First(x), Second(x, 0);
    assert HighByte(p, q) == x;
    TwoDigits(p, q);
    LastGroup([Digit(p), Digit(q), '=', '='], [x]);
  }

  lemma TwoBytesRoundTrip(x: Byte, y: Byte)
    ensures Decode(Encode([x, y])) == Some([x, y])
  {
    var p, q, r := First(x), Second(x, y), Third(y, 0);
    assert HighByte(p, q) == x && MiddleByte(q, r) == y by {
      BytesFromDigits(x, y, 0);
    }
    ThreeDigits(p, q, r);
    LastGroup([Digit(p), Digit(q), Digit(r), '='], [x, y]);
  }

  lemma FirstGroup(b: Bytes) returns (group: string)
    requires |b| > 2
    ensures |group| == 4 && Encode(b) == group + Encode(b[3..])
    ensures forall last :: DecodeGroup(group, last) == Some([b[0], b[1], b[2]])
  {
    var p, q, r, s := First(b[0]), Second(b[0], b[1]), Third(b[1], b[2]), Fourth(b[2]);
    group := [Digit(p), Digit(q), Digit(r), Digit(s)];
    BytesFromDigits(b[0], b[1], b[2]);
    forall last { FourDigits(p, q, r, s, last); }
  }

  lemma {:induction false} RoundTrip(b: Bytes)
    ensures Decode(Encode(b)) == Some(b)
  {
    match |b|
    case 0 =>
    case 1 => OneByteRoundTrip(b[0]); assert b == [b[0]];
    case 2 => TwoBytesRoundTrip(b[0], b[1]); assert b == [b[0], b[1]];
    case _ =>
      var head, rest := [b[0], b[1], b[2]], b[3..];
      RoundTrip(rest);
      var group := FirstGroup(b);
      DecodeJoin(group, Encode(rest), head, rest);
      assert b == head + rest;
  }

  /** Every group of three bytes, started or full, takes four characters. */
  lemma {:induction false} EncodedLength(b: Bytes)
    ensures |Encode(b)| == (|b| + 2) / 3 * 4
  {
    if |b| > 3 {
      EncodedLength(b[3..]);
      assert (|b| + 2) / 3 == (|b| - 1) / 3 + 1;
    }
  }

  function ByteSize(bits: nat): nat {
    (bits + 7) / 8
  }

  /** The header's own computation: six bits a digit, digits padded to groups of four. */
  function Base64Size(bits: nat): nat {
    ((bits + 5) / 6 + 3) / 4 * 4
  }

  /** Dividing up by 6 and then by 4, or by 8 and then by 3, is dividing up by 24. */
  lemma DivideUp(bits: nat)
    ensures ((bits + 5) / 6 + 3) / 4 == (bits + 23) / 24 == ((bits + 7) / 8 + 2) / 3
  {
    var digits, octets := (bits + 5) / 6, (bits + 7) / 8;
    var k, n := (bits + 23) / 24, (digits + 3) / 4;
    assert n <= k && k <= n;
    var m := (octets + 2) / 3;
    assert m <= k && k <= m;
  }

  /** The header's constant arithmetic is right for every bit size, not only for 128. */
  lemma Base64SizeIsEncodedLength(bits: nat, b: Bytes)
    requires |b| == ByteSize(bits)
    ensures |Encode(b)| == Base64Size(bits)
  {
    EncodedLength(b);
    DivideUp(bits);
  }

  /** The digits of table 1 of RFC 4648: three runs of consecutive characters, a plus and a slash. */
  lemma DigitsOfTheStandard()
    ensures Digit(0) == 'A' && Digit(26) == 'a' && Digit(52) == '0' && Digit(62) == '+' && Digit(63) == '/'
    ensures forall n: int | 0 <= n < 61 && n != 25 && n != 51 :: Digit(n + 1) as int == Digit(n) as int + 1
  {
  }

  /** Three bytes are four groups of six bits; one or two bytes at the end are filled with zero bits and padded
      (section 4 of RFC 4648). */
  lemma EncodedGroups(x: Byte, y: Byte, z: Byte, rest: Bytes)
    ensures Encode([x, y, z] + rest)
         == [Digit(x / 4), Digit(x % 4 * 16 + y / 16), Digit(y % 16 * 4 + z / 64), Digit(z % 64)] + Encode(rest)
    ensures Encode([x, y]) == [Digit(x / 4), Digit(x % 4 * 16 + y / 16), Digit(y % 16 * 4), '=']
    ensures Encode([x]) == [Digit(x / 4), Digit(x % 4 * 16), '=', '=']
  {
    assert ([x, y, z] + rest)[3..] == rest;
  }
}
