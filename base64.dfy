/** Base64 as Node's `Buffer` does it. `buffer.toString('base64')` is the
    padded encoding of section 4 of RFC 4648; `Buffer.from(s, 'base64')` is
    lenient: it skips characters outside the alphabet, also accepts the
    URL-safe `-` and `_`, and stops at the first `=`. */
module Base64 {
  import opened Core

  /** The character of a 6-bit value (the alphabet of RFC 4648, table 1). */
  function CharOf(v: int): (c: char)
    requires 0 <= v < 64
  {
    if v < 26 then ('A' as int + v) as char
    else if v < 52 then ('a' as int + v - 26) as char
    else if v < 62 then ('0' as int + v - 52) as char
    else if v == 62 then '+'
    else '/'
  }

  /** The 6-bit value a character stands for when decoding, if any. */
  function ValueOf(c: char): (r: Option<int>)
    ensures r.Some? ==> 0 <= r.value < 64
  {
    if 'A' <= c <= 'Z' then Some(c as int - 'A' as int)
    else if 'a' <= c <= 'z' then Some(c as int - 'a' as int + 26)
    else if '0' <= c <= '9' then Some(c as int - '0' as int + 52)
    else if c == '+' || c == '-' then Some(62)
    else if c == '/' || c == '_' then Some(63)
    else None
  }

  predicate IsSextets(vs: seq<int>) {
    forall i :: 0 <= i < |vs| ==> 0 <= vs[i] < 64
  }

  /** The 6-bit groups of `b`, most significant bits first: four for every
      three bytes, and two or three (low bits zero) for a last one or two. */
  function Sextets(b: seq<byte>): (vs: seq<int>)
    ensures IsSextets(vs)
    ensures |vs| == (4 * |b| + 2) / 3
  {
    if |b| == 0 then []
    else if |b| == 1 then
      [b[0] as int / 4, (b[0] as int % 4) * 16]
    else if |b| == 2 then
      [b[0] as int / 4, (b[0] as int % 4) * 16 + b[1] as int / 16, (b[1] as int % 16) * 4]
    else
      [b[0] as int / 4, (b[0] as int % 4) * 16 + b[1] as int / 16,
       (b[1] as int % 16) * 4 + b[2] as int / 64, b[2] as int % 64] + Sextets(b[3..])
  }

  function Chars(vs: seq<int>): (s: string)
    requires IsSextets(vs)
    ensures |s| == |vs|
  {
    seq(|vs|, i requires 0 <= i < |vs| => CharOf(vs[i]))
  }

  /** The `=` characters that bring the encoding to a multiple of four. */
  function Padding(n: nat): string {
    if n % 3 == 1 then "==" else if n % 3 == 2 then "=" else ""
  }

  /** `Buffer.from(b).toString('base64')`. */
  function Encode(b: seq<byte>): (s: string)
    ensures |s| == (|b| + 2) / 3 * 4
  {
    Chars(Sextets(b)) + Padding(|b|)
  }

  /** The values of the alphabet characters of `s` before its first `=`. */
  function Scan(s: string): (vs: seq<int>)
    ensures IsSextets(vs)
  {
    if s == [] || s[0] == '=' then []
    else match ValueOf(s[0])
      case Some(v) => [v] + Scan(s[1..])
      case None => Scan(s[1..])
  }

  /** Bytes from 6-bit groups: three per four groups; a last two or three
      groups give one or two bytes, a last single group gives none. */
  function Regroup(vs: seq<int>): (b: seq<byte>)
    requires IsSextets(vs)
  {
    if |vs| < 2 then []
    else if |vs| == 2 then [(vs[0] * 4 + vs[1] / 16) as byte]
    else if |vs| == 3 then
      [(vs[0] * 4 + vs[1] / 16) as byte, ((vs[1] % 16) * 16 + vs[2] / 4) as byte]
    else
      [(vs[0] * 4 + vs[1] / 16) as byte, ((vs[1] % 16) * 16 + vs[2] / 4) as byte,
       ((vs[2] % 4) * 64 + vs[3]) as byte] + Regroup(vs[4..])
  }

  /** `Buffer.from(s, 'base64')`. */
  function Decode(s: string): seq<byte> {
    Regroup(Scan(s))
  }

  lemma {:induction false} ScanChars(vs: seq<int>, pad: string)
    requires IsSextets(vs)
    requires pad == [] || pad[0] == '='
    ensures Scan(Chars(vs) + pad) == vs
    decreases |vs|
  {
    if vs != [] {
      var s := Chars(vs) + pad;
      assert s[0] == CharOf(vs[0]);
      assert ValueOf(CharOf(vs[0])) == Some(vs[0]);
      assert s[1..] == Chars(vs[1..]) + pad;
      ScanChars(vs[1..], pad);
    }
  }

  /** Three bytes survive the trip through four 6-bit groups. */
  lemma RegroupGroup(x: int, y: int, z: int)
    requires 0 <= x < 256 && 0 <= y < 256 && 0 <= z < 256
    ensures var v1 := (x % 4) * 16 + y / 16;
            var v2 := (y % 16) * 4 + z / 64;
            && (x / 4) * 4 + v1 / 16 == x
            && (v1 % 16) * 16 + v2 / 4 == y
            && (v2 % 4) * 64 + z % 64 == z
  {
    var v1 := (x % 4) * 16 + y / 16;
    var v2 := (y % 16) * 4 + z / 64;
    assert v1 / 16 == x % 4 && v1 % 16 == y / 16;
    assert v2 / 4 == y % 16 && v2 % 4 == z / 64;
  }

  /** Four full groups regroup into the three bytes they came from. */
  lemma RegroupFour(x: byte, y: byte, z: byte, rest: seq<int>)
    requires IsSextets(rest)
    ensures var v1 := (x as int % 4) * 16 + y as int / 16;
            var v2 := (y as int % 16) * 4 + z as int / 64;
            var vs := [x as int / 4, v1, v2, z as int % 64] + rest;
            IsSextets(vs) && Regroup(vs) == [x, y, z] + Regroup(rest)
  {
    RegroupGroup(x as int, y as int, z as int);
    var v1 := (x as int % 4) * 16 + y as int / 16;
    var v2 := (y as int % 16) * 4 + z as int / 64;
    var vs := [x as int / 4, v1, v2, z as int % 64] + rest;
    assert vs[4..] == rest;
  }

  /** A last single byte survives the trip through two groups. */
  lemma RegroupOne(x: byte)
    ensures Regroup([x as int / 4, (x as int % 4) * 16]) == [x]
  {
    var v1 := (x as int % 4) * 16;
    assert v1 / 16 == x as int % 4;
    assert (x as int / 4) * 4 + x as int % 4 == x as int;
  }

  /** A last two bytes survive the trip through three groups. */
  lemma RegroupTwo(x: byte, y: byte)
    ensures Regroup([x as int / 4, (x as int % 4) * 16 + y as int / 16, (y as int % 16) * 4]) == [x, y]
  {
    var v1 := (x as int % 4) * 16 + y as int / 16;
    var v2 := (y as int % 16) * 4;
    assert v1 / 16 == x as int % 4 && v1 % 16 == y as int / 16;
    assert v2 / 4 == y as int % 16;
    assert (x as int / 4) * 4 + x as int % 4 == x as int;
    assert (y as int / 16) * 16 + y as int % 16 == y as int;
  }

  lemma {:induction false} RegroupSextets(b: seq<byte>)
    ensures Regroup(Sextets(b)) == b
    decreases |b|
  {
    if |b| == 0 {
    } else if |b| == 1 {
      RegroupOne(b[0]);
      assert b == [b[0]];
    } else if |b| == 2 {
      RegroupTwo(b[0], b[1]);
      assert b == [b[0], b[1]];
    } else {
      RegroupFour(b[0], b[1], b[2], Sextets(b[3..]));
      RegroupSextets(b[3..]);
      assert b == [b[0], b[1], b[2]] + b[3..];
    }
  }

  /** Decoding what Node encodes gives back the original bytes. */
  lemma DecodeEncode(b: seq<byte>)
    ensures Decode(Encode(b)) == b
  {
    ScanChars(Sextets(b), Padding(|b|));
    RegroupSextets(b);
  }
}
