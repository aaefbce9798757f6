/** Raw bytes, 32-bit unsigned words and the byte swap used on ephemeris files. */
module Bytes {

  type Byte = b: int | 0 <= b < 256

  const Two32: int := 0x1_0000_0000

  /** The values of a C `uint32_t`. */
  type U32 = x: int | 0 <= x < 0x1_0000_0000

  /** `a + b` on unsigned ints. */
  function AddU32(a: U32, b: U32): U32
  {
    (a + b) % Two32
  }

  /** `a - b` on unsigned ints: a negative difference wraps around. */
  function SubU32(a: U32, b: U32): U32
  {
    (a - b) % Two32
  }

  /** `a * b` on unsigned ints. */
  function MulU32(a: U32, b: U32): U32
  {
    (a * b) % Two32
  }

  /** The bytes of `s` in the opposite order. */
  function Reverse<T>(s: seq<T>): (r: seq<T>)
    ensures |r| == |s|
  {
    seq(|s|, i requires 0 <= i < |s| => s[|s| - 1 - i])
  }

  lemma ReverseReverse<T>(s: seq<T>)
    ensures Reverse(Reverse(s)) == s
  {
    assert forall i :: 0 <= i < |s| ==> Reverse(Reverse(s))[i] == s[i];
  }

  /** A four-byte chunk read as a little-endian (host order) unsigned word. */
  function LE32(c: seq<Byte>): U32
    requires |c| == 4
  {
    c[0] as int + 256 * (c[1] as int) + 65536 * (c[2] as int) + 16777216 * (c[3] as int)
  }

  /** The four bytes of a word, least significant first. */
  function Bytes32(x: U32): (c: seq<Byte>)
    ensures |c| == 4
  {
    [x % 256, x / 256 % 256, x / 256 / 256 % 256, x / 256 / 256 / 256]
  }

  lemma LE32Bytes32(x: U32)
    ensures LE32(Bytes32(x)) == x
  {
    var q1 := x / 256;
    var q2 := q1 / 256;
    var q3 := q2 / 256;
    assert x == x % 256 + 256 * (q1 % 256 + 256 * (q2 % 256 + 256 * q3));
  }

  lemma Bytes32LE32(c: seq<Byte>)
    requires |c| == 4
    ensures Bytes32(LE32(c)) == c
  {
    var x := LE32(c);
    var r2 := c[2] as int + 256 * (c[3] as int);
    var r1 := c[1] as int + 256 * r2;
    assert x == c[0] as int + 256 * r1;
    assert x / 256 == r1 && x % 256 == c[0];
    assert r1 / 256 == r2 && r1 % 256 == c[1];
    assert r2 / 256 == c[3] && r2 % 256 == c[2];
  }

  /** `bswap_32`: the word with its four bytes in the opposite order. */
  function Bswap32(x: U32): U32
  {
    x % 256 * 16777216 + x / 256 % 256 * 65536 + x / 65536 % 256 * 256 + x / 16777216
  }

  /** Swapping the decoded word is decoding the reversed chunk. */
  lemma Bswap32OfChunk(c: seq<Byte>)
    requires |c| == 4
    ensures Bswap32(LE32(c)) == LE32(Reverse(c))
  {
    var x := LE32(c);
    Bytes32LE32(c);
    assert x / 65536 == x / 256 / 256 && x / 16777216 == x / 256 / 256 / 256;
    assert Reverse(c) == [c[3], c[2], c[1], c[0]];
  }

  lemma Bswap32Involutive(x: U32)
    ensures Bswap32(Bswap32(x)) == x
  {
    var c := Bytes32(x);
    LE32Bytes32(x);
    Bswap32OfChunk(c);
    Bswap32OfChunk(Reverse(c));
    ReverseReverse(c);
  }

  lemma ModPlusMultiple(x: int, k: int)
    ensures (x + k * Two32) % Two32 == x % Two32
  {
  }

  /** Unsigned 32-bit addition: reducing each operand first changes nothing. */
  lemma ModAdd(a: int, b: int)
    ensures (a % Two32 + b % Two32) % Two32 == (a + b) % Two32
  {
    ModPlusMultiple(a % Two32 + b % Two32, a / Two32 + b / Two32);
  }

  /** Unsigned 32-bit multiplication: reducing the left operand first changes nothing. */
  lemma ModMulLeft(b: int, c: int)
    ensures ((b % Two32) * c) % Two32 == (b * c) % Two32
  {
    var q, r := b / Two32, b % Two32;
    assert b * c == r * c + (q * c) * Two32 by {
      assert b == r + q * Two32;
    }
    ModPlusMultiple(r * c, q * c);
  }

  /** A non-zero 16-bit id swapped lands at or above 2^16. */
  lemma Bswap32OfSmall(x: U32)
    requires 0 < x < 65536
    ensures Bswap32(x) >= 65536
  {
  }
}
