/** Bytes and the big-endian 32-bit words that head a relay envelope and a
    terminal frame. */
module Bytes {
  type Byte = x: int | 0 <= x < 256
  type U32 = x: int | 0 <= x < 0x1_0000_0000

  function PutU32(n: U32): (s: seq<Byte>)
    ensures |s| == 4
  {
    [n / 0x100_0000, n / 0x1_0000 % 0x100, n / 0x100 % 0x100, n % 0x100]
  }

  function GetU32(s: seq<Byte>): U32
    requires |s| >= 4
  {
    var a: int, b: int, c: int, d: int := s[0], s[1], s[2], s[3];
    a * 0x100_0000 + b * 0x1_0000 + c * 0x100 + d
  }

  /** Big-endian: the first byte weighs most. */
  lemma BigEndian(a: Byte, b: Byte, c: Byte, d: Byte, tail: seq<Byte>)
    ensures GetU32([a, b, c, d] + tail) == ((a as int * 256 + b as int) * 256 + c as int) * 256 + d as int
  {
  }

  lemma Digits(n: U32)
    ensures n == n / 0x100_0000 * 0x100_0000 + n / 0x1_0000 % 0x100 * 0x1_0000 + n / 0x100 % 0x100 * 0x100 + n % 0x100
  {
    var h, m, l := n / 0x100_0000, n / 0x1_0000, n / 0x100;
    assert h == m / 0x100;
    assert m == l / 0x100;
    assert m == h * 0x100 + m % 0x100;
    assert l == m * 0x100 + l % 0x100;
  }

  lemma GetPut(n: U32, tail: seq<Byte>)
    ensures GetU32(PutU32(n) + tail) == n
  {
    var w, s := PutU32(n), PutU32(n) + tail;
    assert s[0] == w[0] && s[1] == w[1] && s[2] == w[2] && s[3] == w[3];
    Digits(n);
  }

  lemma PutGet(s: seq<Byte>)
    requires |s| >= 4
    ensures PutU32(GetU32(s)) == s[..4]
  {
    var n := GetU32(s);
    var a: int, b: int, c: int := s[0], s[1], s[2];
    assert n / 0x100_0000 == a;
    assert n / 0x1_0000 == a * 0x100 + b;
    assert n / 0x100 == a * 0x1_0000 + b * 0x100 + c;
  }

  /** Overwrites four bytes of a buffer, as binary.BigEndian.PutUint32 does. */
  method PutU32At(a: array<Byte>, off: nat, n: U32)
    requires off + 4 <= a.Length
    modifies a
    ensures a[..] == old(a[..off]) + PutU32(n) + old(a[off + 4..])
  {
    var w := PutU32(n);
    a[off], a[off + 1], a[off + 2], a[off + 3] := w[0], w[1], w[2], w[3];
    assert a[off..off + 4] == w;
  }
}
