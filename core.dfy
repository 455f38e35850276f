/** Value types shared by the relay and the agent: optional values, bytes,
    JavaScript objects used as string dictionaries, and the small string
    primitives the source relies on (`toLowerCase`, `includes`, UTF-8 writes). */
module Core {

  datatype Option<+T> = None | Some(value: T)

  newtype byte = x: int | 0 <= x < 256

  /** A plain JavaScript object with string values (a header object), as the
      list of its own entries in `Object.entries` order. */
  type Fields = seq<(string, string)>

  /** `obj[k]`: the value of the first entry named `k`, or undefined. */
  function Lookup(f: Fields, k: string): (r: Option<string>)
    ensures r.Some? ==> (k, r.value) in f
    ensures r.None? ==> forall e :: e in f ==> e.0 != k
  {
    if f == [] then None
    else if f[0].0 == k then Some(f[0].1)
    else Lookup(f[1..], k)
  }

  lemma LookupCons(e: (string, string), f: Fields)
    ensures forall k :: Lookup([e] + f, k) == if e.0 == k then Some(e.1) else Lookup(f, k)
  {
    assert ([e] + f)[1..] == f;
  }

  /** `obj[k] = v`: an existing entry keeps its place and takes the new value;
      otherwise the entry is appended. */
  function Put(f: Fields, k: string, v: string): (r: Fields)
    ensures Lookup(r, k) == Some(v)
    ensures forall k' :: k' != k ==> Lookup(r, k') == Lookup(f, k')
    ensures Lookup(f, k).Some? ==> |r| == |f|
    ensures Lookup(f, k).None? ==> r == f + [(k, v)]
  {
    if f == [] then [(k, v)]
    else if f[0].0 == k then
      LookupCons((k, v), f[1..]);
      LookupCons(f[0], f[1..]);
      assert f == [f[0]] + f[1..];
      [(k, v)] + f[1..]
    else
      var tail := Put(f[1..], k, v);
      LookupCons(f[0], tail);
      LookupCons(f[0], f[1..]);
      assert f == [f[0]] + f[1..];
      assert Lookup(f, k).None? ==> [f[0]] + tail == f + [(k, v)];
      [f[0]] + tail
  }

  /** `delete obj[k]`: every entry named `k` goes, the others keep their order. */
  function Remove(f: Fields, k: string): (r: Fields)
    ensures Lookup(r, k) == None
    ensures forall k' :: k' != k ==> Lookup(r, k') == Lookup(f, k')
    ensures forall e :: e in r <==> e in f && e.0 != k
  {
    if f == [] then []
    else if f[0].0 == k then Remove(f[1..], k)
    else [f[0]] + Remove(f[1..], k)
  }

  /** One character of `toLowerCase`: ASCII capitals become small letters,
      every other character is left as it is. */
  function LowerChar(c: char): char {
    if 'A' <= c <= 'Z' then (c as int + 32) as char else c
  }

  /** `String.prototype.toLowerCase` on ASCII letters. */
  function Lower(s: string): (r: string)
    ensures |r| == |s|
  {
    if s == [] then [] else [LowerChar(s[0])] + Lower(s[1..])
  }

  /** `Lower` maps each character on its own, in place. */
  lemma {:induction false} LowerChars(s: string)
    ensures forall i :: 0 <= i < |s| ==> Lower(s)[i] == LowerChar(s[i])
  {
    if s != [] {
      LowerChars(s[1..]);
      forall i | 0 <= i < |s| ensures Lower(s)[i] == LowerChar(s[i]) {
        if i > 0 {
          assert Lower(s)[i] == Lower(s[1..])[i - 1];
        }
      }
    }
  }

  /** `sub` stands in `s` at position `i`. */
  predicate OccursAt(sub: string, s: string, i: nat) {
    i + |sub| <= |s| && s[i..i + |sub|] == sub
  }

  /** `sub` occurs somewhere in `s`. */
  ghost predicate Occurs(sub: string, s: string) {
    exists i: nat :: OccursAt(sub, s, i)
  }

  /** A string no longer than `sub` that does not start with it holds no
      occurrence of it. */
  lemma NoRoom(sub: string, s: string)
    requires |s| <= |sub| && !(sub <= s)
    ensures !Occurs(sub, s)
  {
    forall i: nat ensures !OccursAt(sub, s, i) {
      if i + |sub| <= |s| {
        assert s[i..i + |sub|] == s;
      }
    }
  }

  /** When `s` does not start with `sub`, `sub` occurs in `s` iff it occurs
      in the tail of `s`. */
  lemma OccursInTail(sub: string, s: string)
    requires |s| > 0 && !(sub <= s)
    ensures Occurs(sub, s) <==> Occurs(sub, s[1..])
  {
    if Occurs(sub, s[1..]) {
      var i: nat :| OccursAt(sub, s[1..], i);
      assert s[1..][i..i + |sub|] == s[i + 1..i + 1 + |sub|];
      assert OccursAt(sub, s, i + 1);
    }
    assert !OccursAt(sub, s, 0) by {
      if |sub| <= |s| {
        assert s[0..|sub|] == s[..|sub|];
      }
    }
    if Occurs(sub, s) {
      var i: nat :| OccursAt(sub, s, i);
      assert s[1..][i - 1..i - 1 + |sub|] == s[i..i + |sub|];
      assert OccursAt(sub, s[1..], i - 1);
    }
  }

  /** `s.includes(sub)`, searched from the front. */
  function Includes(s: string, sub: string): (r: bool)
    ensures r <==> Occurs(sub, s)
    decreases |s|
  {
    if sub <= s then
      assert OccursAt(sub, s, 0);
      true
    else if |s| <= |sub| then
      NoRoom(sub, s);
      false
    else
      OccursInTail(sub, s);
      Includes(s[1..], sub)
  }

  predicate IsAscii(s: string) {
    forall i :: 0 <= i < |s| ==> s[i] as int < 128
  }

  /** The UTF-8 encoding of one Unicode scalar value. */
  function Utf8Char(c: char): (b: seq<byte>)
    ensures 1 <= |b| <= 4
    ensures c as int < 128 ==> b == [c as int as byte]
    ensures c as int >= 128 ==> b[0] >= 0xC0 && forall i :: 1 <= i < |b| ==> 0x80 <= b[i] < 0xC0
  {
    var n := c as int;
    if n < 0x80 then [n as byte]
    else if n < 0x800 then [(0xC0 + n / 64) as byte, (0x80 + n % 64) as byte]
    else if n < 0x10000 then
      [(0xE0 + n / 4096) as byte, (0x80 + (n / 64) % 64) as byte, (0x80 + n % 64) as byte]
    else
      [(0xF0 + n / 262144) as byte, (0x80 + (n / 4096) % 64) as byte,
       (0x80 + (n / 64) % 64) as byte, (0x80 + n % 64) as byte]
  }

  /** What `socket.write(s)` puts on the wire for a string (Node's default
      encoding is UTF-8). */
  function Utf8(s: string): (b: seq<byte>)
    ensures |b| >= |s|
    ensures IsAscii(s) ==> |b| == |s| && forall i :: 0 <= i < |s| ==> b[i] as int == s[i] as int
  {
    if s == [] then [] else Utf8Char(s[0]) + Utf8(s[1..])
  }

  // Reading UTF-8 back (section 3 of RFC 3629), the partner of `Utf8`.

  /** The length of the sequence a lead byte starts. */
  function SequenceLength(lead: byte): nat {
    if lead < 0x80 then 1 else if lead < 0xE0 then 2 else if lead < 0xF0 then 3 else 4
  }

  /** The code point a sequence of one to four bytes stands for: the lead
      byte's payload bits followed by six bits from each continuation byte. */
  function CodePoint(b: seq<byte>): int
    requires 1 <= |b| <= 4
  {
    if |b| == 1 then b[0] as int
    else if |b| == 2 then (b[0] as int - 0xC0) * 64 + (b[1] as int - 0x80)
    else if |b| == 3 then (b[0] as int - 0xE0) * 4096 + (b[1] as int - 0x80) * 64 + (b[2] as int - 0x80)
    else (b[0] as int - 0xF0) * 262144 + (b[1] as int - 0x80) * 4096 + (b[2] as int - 0x80) * 64
         + (b[3] as int - 0x80)
  }

  /** The code points of a byte string, sequence by sequence; a truncated
      last sequence is dropped. */
  function DecodeUtf8(b: seq<byte>): seq<int>
    decreases |b|
  {
    if b == [] then []
    else
      var n := SequenceLength(b[0]);
      if |b| < n then [] else [CodePoint(b[..n])] + DecodeUtf8(b[n..])
  }

  function CodePoints(s: string): (r: seq<int>)
    ensures |r| == |s|
  {
    seq(|s|, i requires 0 <= i < |s| => s[i] as int)
  }

  lemma TwoBytesDecode(n: int)
    requires 0x80 <= n < 0x800
    ensures var b := [(0xC0 + n / 64) as byte, (0x80 + n % 64) as byte];
            SequenceLength(b[0]) == 2 && CodePoint(b) == n
  {
    assert (n / 64) * 64 + n % 64 == n;
  }

  lemma ThreeBytesDecode(n: int)
    requires 0x800 <= n < 0x10000
    ensures var b := [(0xE0 + n / 4096) as byte, (0x80 + (n / 64) % 64) as byte, (0x80 + n % 64) as byte];
            SequenceLength(b[0]) == 3 && CodePoint(b) == n
  {
    var q := n / 64;
    assert q * 64 + n % 64 == n;
    assert (q / 64) * 64 + q % 64 == q;
    assert q / 64 == n / 4096;
  }

  lemma FourBytesDecode(n: int)
    requires 0x10000 <= n < 0x110000
    ensures var b := [(0xF0 + n / 262144) as byte, (0x80 + (n / 4096) % 64) as byte,
                      (0x80 + (n / 64) % 64) as byte, (0x80 + n % 64) as byte];
            SequenceLength(b[0]) == 4 && CodePoint(b) == n
  {
    var q := n / 64;
    var r := q / 64;
    assert q * 64 + n % 64 == n;
    assert r * 64 + q % 64 == q;
    assert (r / 64) * 64 + r % 64 == r;
    assert r == n / 4096;
    assert r / 64 == n / 262144;
  }

  /** The bytes of one character start with a lead byte announcing their
      number and read back as that character. */
  lemma Utf8CharDecodes(c: char)
    ensures var b := Utf8Char(c); |b| == SequenceLength(b[0]) && CodePoint(b) == c as int
  {
    var n := c as int;
    if n < 0x80 {
    } else if n < 0x800 {
      TwoBytesDecode(n);
    } else if n < 0x10000 {
      ThreeBytesDecode(n);
    } else {
      FourBytesDecode(n);
    }
  }

  /** Decoding what a socket write puts on the wire gives back the string. */
  lemma {:induction false} Utf8Decodes(s: string)
    ensures DecodeUtf8(Utf8(s)) == CodePoints(s)
    decreases |s|
  {
    if s != [] {
      var first := Utf8Char(s[0]);
      var b := Utf8(s);
      assert b == first + Utf8(s[1..]);
      Utf8CharDecodes(s[0]);
      assert b[0] == first[0];
      assert b[..|first|] == first;
      assert b[|first|..] == Utf8(s[1..]);
      Utf8Decodes(s[1..]);
      assert CodePoints(s) == [s[0] as int] + CodePoints(s[1..]);
    }
  }
}
