/** Bytes, optional values, and the few sequence helpers every module shares. */
module Bytes {
  type byte = x: int | 0 <= x < 256

  datatype Option<+T> = None | Some(value: T)

  /** The bytes of `s` with `e` written over the positions from `at` on. */
  function Splice(s: seq<byte>, at: nat, e: seq<byte>): (r: seq<byte>)
    requires at + |e| <= |s|
    ensures |r| == |s|
    ensures r[at..at + |e|] == e
    ensures forall i :: 0 <= i < |s| && !(at <= i < at + |e|) ==> r[i] == s[i]
  {
    s[..at] + e + s[at + |e|..]
  }

  // ---------- big-endian integers

  function Pow256(n: nat): nat {
    if n == 0 then 1 else 256 * Pow256(n - 1)
  }

  /** The low `n` bytes of `v`, most significant first. */
  function BigEndian(v: nat, n: nat): (r: seq<byte>)
    ensures |r| == n
  {
    if n == 0 then [] else BigEndian(v / 256, n - 1) + [v % 256]
  }

  function FromBigEndian(s: seq<byte>): nat {
    if s == [] then 0 else FromBigEndian(s[..|s| - 1]) * 256 + s[|s| - 1] as int
  }

  lemma {:induction false} BigEndianBound(s: seq<byte>)
    ensures FromBigEndian(s) < Pow256(|s|)
    ensures |s| == 4 ==> FromBigEndian(s) < 0x1_0000_0000
    ensures |s| == 2 ==> FromBigEndian(s) < 0x1_0000
  {
    if s != [] {
      BigEndianBound(s[..|s| - 1]);
    }
    Pow256Values();
  }

  lemma Pow256Values()
    ensures Pow256(1) == 0x100 && Pow256(2) == 0x1_0000 && Pow256(4) == 0x1_0000_0000
  {
    assert Pow256(3) == 256 * Pow256(2);
  }

  /** A value that fits in `n` bytes is read back. */
  lemma {:induction false} BigEndianRoundTrip(v: nat, n: nat)
    requires v < Pow256(n) || (n == 4 && v < 0x1_0000_0000) || (n == 2 && v < 0x1_0000)
    ensures FromBigEndian(BigEndian(v, n)) == v
  {
    Pow256Values();
    if n > 0 {
      var r := BigEndian(v, n);
      assert r[..n - 1] == BigEndian(v / 256, n - 1);
      BigEndianRoundTrip(v / 256, n - 1);
    }
  }

  /** Any bytes are the big-endian form of the number they denote. */
  lemma {:induction false} FromBigEndianRoundTrip(s: seq<byte>)
    ensures BigEndian(FromBigEndian(s), |s|) == s
  {
    if s != [] {
      FromBigEndianRoundTrip(s[..|s| - 1]);
    }
  }
}
