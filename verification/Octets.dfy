/** Octets, and unsigned integers in network order. */
module Octets {
  type Byte = b: nat | b < 256

  function U16(n: nat): (bs: seq<Byte>)
    requires n < 0x1_0000
    ensures |bs| == 2
  {
    [n / 256, n % 256]
  }

  function U32(n: nat): (bs: seq<Byte>)
    requires n < 0x1_0000_0000
    ensures |bs| == 4
  {
    U16(n / 0x1_0000) + U16(n % 0x1_0000)
  }

  function Read16(m: seq<Byte>, i: nat): (n: nat)
    requires i + 2 <= |m|
    ensures n < 0x1_0000
  {
    var high: int, low: int := m[i], m[i + 1];
    high * 256 + low
  }

  function Read32(m: seq<Byte>, i: nat): (n: nat)
    requires i + 4 <= |m|
    ensures n < 0x1_0000_0000
  {
    Read16(m, i) * 0x1_0000 + Read16(m, i + 2)
  }

  /** The most significant byte comes first. */
  lemma NetworkOrder(a: Byte, b: Byte, c: Byte, d: Byte)
    ensures U16(256 * a + b) == [a, b] && Read16([a, b], 0) == 256 * a + b
    ensures Read32([a, b, c, d], 0) == 16777216 * a + 65536 * b + 256 * c + d
  {
  }

  lemma ReadsBack16(m: seq<Byte>, i: nat, n: nat)
    requires n < 0x1_0000 && i + 2 <= |m|
    ensures m[i..i + 2] == U16(n) <==> Read16(m, i) == n
  {
    if m[i..i + 2] == U16(n) {
      assert m[i] == m[i..i + 2][0] && m[i + 1] == m[i..i + 2][1];
    }
  }

  lemma ReadsBack32(m: seq<Byte>, i: nat, n: nat)
    requires n < 0x1_0000_0000 && i + 4 <= |m|
    ensures m[i..i + 4] == U32(n) <==> Read32(m, i) == n
  {
    ReadsBack16(m, i, n / 0x1_0000);
    ReadsBack16(m, i + 2, n % 0x1_0000);
    assert m[i..i + 4] == m[i..i + 2] + m[i + 2..i + 4];
    if m[i..i + 4] == U32(n) {
      assert m[i..i + 2] == m[i..i + 4][..2] && m[i + 2..i + 4] == m[i..i + 4][2..];
    }
  }
}
