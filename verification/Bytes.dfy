/** Octets and the big-endian integer fields every wire format here is made of. */
module Bytes {

  type byte = b: int | 0 <= b < 256
  type bytes = seq<byte>

  function Pow256(k: nat): (p: nat)
    ensures p >= 1
  {
    if k == 0 then 1 else 256 * Pow256(k - 1)
  }

  /** The low `k` octets of `n`, most significant first: what a cast to an
      unsigned integer of `k` octets followed by a big-endian store leaves. */
  function BE(n: nat, k: nat): (b: bytes)
    ensures |b| == k
  {
    if k == 0 then [] else BE(n / 256, k - 1) + [n % 256]
  }

  function FromBE(b: bytes): (n: nat)
  {
    if b == [] then 0 else FromBE(b[..|b| - 1]) * 256 + b[|b| - 1]
  }

  lemma {:induction false} FromBEBound(b: bytes)
    ensures FromBE(b) < Pow256(|b|)
  {
    if b != [] {
      FromBEBound(b[..|b| - 1]);
    }
  }

  /** A field of `k` octets gives a number back exactly when the number fits. */
  lemma {:induction false} BERoundTrip(n: nat, k: nat)
    ensures FromBE(BE(n, k)) == n <==> n < Pow256(k)
  {
    FromBEBound(BE(n, k));
    if n < Pow256(k) && k > 0 {
      BERoundTrip(n / 256, k - 1);
      assert BE(n, k)[..k - 1] == BE(n / 256, k - 1);
    }
  }

  /** The first octet is the most significant. */
  lemma {:induction false} MostSignificantFirst(x: byte, b: bytes)
    ensures FromBE([x] + b) == x * Pow256(|b|) + FromBE(b)
  {
    if b == [] {
      assert [x] + b == [x] && [x][..0] == [];
    } else {
      var n := |b| - 1;
      assert ([x] + b)[..n + 1] == [x] + b[..n];
      MostSignificantFirst(x, b[..n]);
    }
  }

  lemma Powers()
    ensures Pow256(1) == 0x100
    ensures Pow256(2) == 0x1_0000
    ensures Pow256(3) == 0x100_0000
    ensures Pow256(4) == 0x1_0000_0000
    ensures Pow256(8) == 0x1_0000_0000_0000_0000
  {
    assert Pow256(0) == 1;
    assert Pow256(1) == 256 * Pow256(0);
    assert Pow256(2) == 256 * Pow256(1);
    assert Pow256(3) == 256 * Pow256(2);
    assert Pow256(4) == 256 * Pow256(3);
    assert Pow256(5) == 256 * Pow256(4);
    assert Pow256(6) == 256 * Pow256(5);
    assert Pow256(7) == 256 * Pow256(6);
    assert Pow256(8) == 256 * Pow256(7);
  }

  lemma SliceOfSlice(d: bytes, from: nat, to: nat, i: nat, j: nat)
    requires from <= to <= |d| && i <= j <= to - from
    ensures d[from..to][i..j] == d[from + i..from + j]
  {
    var s := d[from..to];
    forall k | 0 <= k < j - i
      ensures s[i..j][k] == d[from + i..from + j][k]
    {
      assert s[i + k] == d[from + i + k];
    }
  }

  lemma {:induction false} OneByte(n: nat)
    ensures BE(n, 1) == [n % 256]
  {
    assert BE(n, 1) == BE(n / 256, 0) + [n % 256];
  }

  /** Reading on from a known suffix. */
  lemma Suffix(d: bytes, from: nat, r: bytes, i: nat, j: nat)
    requires from <= |d| && d[from..] == r && i <= j <= |r|
    ensures d[from + i..from + j] == r[i..j] && d[from + j..] == r[j..]
    ensures r != [] ==> d[from] == r[0]
  {
    assert d[from..|d|] == d[from..];
    SliceOfSlice(d, from, |d|, i, j);
    SliceOfSlice(d, from, |d|, j, |r|);
  }

  lemma Associate(a: bytes, b: bytes, c: bytes)
    ensures a + b + c == a + (b + c)
  {
  }

  /** Concatenation of a list of byte strings. */
  function Concat(parts: seq<bytes>): (b: bytes)
  {
    if parts == [] then [] else parts[0] + Concat(parts[1..])
  }

  lemma {:induction false} ConcatAppend(parts: seq<bytes>, last: bytes)
    ensures Concat(parts + [last]) == Concat(parts) + last
  {
    if parts == [] {
      assert [last][1..] == [];
    } else {
      assert (parts + [last])[1..] == parts[1..] + [last];
      ConcatAppend(parts[1..], last);
    }
  }
}
