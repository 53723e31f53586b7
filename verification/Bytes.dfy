/** Bytes, and the little-endian fixed-width integers of the on-disk headers. */
module Bytes {

  type byte = x: int | 0 <= x < 0x100

  /** 256 to the power k: one more than the largest value that k bytes hold. */
  function Pow256(k: nat): (p: nat)
    ensures p >= 1
  {
    if k == 0 then 1 else 256 * Pow256(k - 1)
  }

  /** The k-byte little-endian image of n; higher bytes are dropped, as a narrowing store drops them. */
  function LittleEndian(n: nat, k: nat): (s: seq<byte>)
    ensures |s| == k
  {
    if k == 0 then [] else [n % 256] + LittleEndian(n / 256, k - 1)
  }

  function FromLittleEndian(s: seq<byte>): nat {
    if s == [] then 0 else s[0] + 256 * FromLittleEndian(s[1..])
  }

  lemma {:induction false} LittleEndianRoundTrip(n: nat, k: nat)
    requires n < Pow256(k)
    ensures FromLittleEndian(LittleEndian(n, k)) == n
  {
    if k == 0 {
    } else {
      LittleEndianRoundTrip(n / 256, k - 1);
      assert LittleEndian(n, k)[1..] == LittleEndian(n / 256, k - 1);
    }
  }

  /** n without its lowest i bytes. */
  function DropBytes(n: nat, i: nat): nat {
    if i == 0 then n else DropBytes(n / 256, i - 1)
  }

  lemma {:induction false} LittleEndianAt(n: nat, k: nat, i: nat)
    requires i < k
    ensures LittleEndian(n, k)[i] == DropBytes(n, i) % 256
  {
    if i > 0 {
      LittleEndianAt(n / 256, k - 1, i - 1);
    }
  }

  /** Strings of the same length that read as the same number are the same. */
  lemma {:induction false} LittleEndianInjective(a: seq<byte>, b: seq<byte>)
    requires |a| == |b| && FromLittleEndian(a) == FromLittleEndian(b)
    ensures a == b
  {
    if a == [] {
    } else {
      LittleEndianInjective(a[1..], b[1..]);
      assert a == [a[0]] + a[1..] && b == [b[0]] + b[1..];
    }
  }

  /** Four bytes at a time. */
  lemma FourMore(s: seq<byte>)
    requires |s| >= 4
    ensures FromLittleEndian(s)
        == s[0] + 0x100 * s[1] + 0x1_0000 * s[2] + 0x100_0000 * s[3] + 0x1_0000_0000 * FromLittleEndian(s[4..])
  {
    assert s[1..][1..] == s[2..] && s[2..][1..] == s[3..] && s[3..][1..] == s[4..];
    assert FromLittleEndian(s[3..]) == s[3] + 0x100 * FromLittleEndian(s[4..]);
    assert FromLittleEndian(s[2..]) == s[2] + 0x100 * FromLittleEndian(s[3..]);
    assert FromLittleEndian(s[1..]) == s[1] + 0x100 * FromLittleEndian(s[2..]);
  }

  lemma Pow256Values()
    ensures Pow256(4) == 0x1_0000_0000
    ensures Pow256(8) == 0x1_0000_0000_0000_0000
  {
    assert Pow256(2) == 0x1_0000;
    assert Pow256(4) == 0x1_0000_0000;
    assert Pow256(6) == 0x1_0000_0000_0000;
  }

  function Zeros(n: nat): (s: seq<byte>)
    ensures |s| == n
    ensures forall i :: 0 <= i < n ==> s[i] == 0
  {
    seq(n, i => 0)
  }
}
