/** Plain values in memory and in files: little-endian numbers, and parts of byte sequences. */
module Bytes {
  type byte = x: int | 0 <= x < 256

  /** What n bytes can hold. */
  function Limit(n: nat): (r: nat)
    ensures r > 0
  {
    if n == 0 then 1 else 256 * Limit(n - 1)
  }

  /** The low n bytes of a number, lowest first. */
  function Little(n: nat, x: nat): (r: seq<byte>)
    ensures |r| == n
  {
    if n == 0 then [] else [x % 256] + Little(n - 1, x / 256)
  }

  function Number(s: seq<byte>): nat {
    if s == [] then 0 else s[0] as nat + 256 * Number(s[1..])
  }

  lemma {:induction false} NumberOfLittle(n: nat, x: nat)
    requires x < Limit(n)
    ensures Number(Little(n, x)) == x
  {
    if n > 0 {
      NumberOfLittle(n - 1, x / 256);
      assert Little(n, x)[1..] == Little(n - 1, x / 256);
    }
  }

  lemma {:induction false} NumberBelow(s: seq<byte>)
    ensures Number(s) < Limit(|s|)
  {
    if s != [] { NumberBelow(s[1..]); }
  }

  lemma {:induction false} LittleOfNumber(s: seq<byte>)
    ensures Little(|s|, Number(s)) == s
  {
    if s != [] {
      LittleOfNumber(s[1..]);
      assert (s[0] as nat + 256 * Number(s[1..])) / 256 == Number(s[1..]);
      assert s == [s[0]] + s[1..];
    }
  }

  function Patched(value: seq<byte>, offset: nat, bytes: seq<byte>): (r: seq<byte>)
    requires offset + |bytes| <= |value|
    ensures |r| == |value|
  {
    value[..offset] + bytes + value[offset + |bytes|..]
  }

  /** The bytes lie at this offset of the data. */
  predicate Lies(data: seq<byte>, at: nat, bytes: seq<byte>) {
    at + |bytes| <= |data| && data[at..at + |bytes|] == bytes
  }

  lemma LiesJoin(data: seq<byte>, at: nat, a: seq<byte>, b: seq<byte>)
    requires Lies(data, at, a) && Lies(data, at + |a|, b)
    ensures Lies(data, at, a + b)
  {
    assert data[at..at + |a + b|] == data[at..at + |a|] + data[at + |a|..at + |a| + |b|];
  }

  lemma LiesSplit(data: seq<byte>, at: nat, a: seq<byte>, b: seq<byte>)
    requires Lies(data, at, a + b)
    ensures Lies(data, at, a) && Lies(data, at + |a|, b)
  {
    assert a == (a + b)[..|a|] && b == (a + b)[|a|..];
    assert data[at..at + |a|] == data[at..at + |a + b|][..|a|];
    assert data[at + |a|..at + |a| + |b|] == data[at..at + |a + b|][|a|..];
  }
}
