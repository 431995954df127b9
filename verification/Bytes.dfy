/** Bytes and fixed-width big-endian integers, as Go's encoding/binary lays them out. */
module Bytes {

  type byte = n: int | 0 <= n < 256
  type u32 = n: int | 0 <= n < 0x1_0000_0000

  const U32 := 0x1_0000_0000
  const U64 := 0x1_0000_0000_0000_0000

  function Pow256(k: nat): (p: nat)
    ensures p > 0
  {
    if k == 0 then 1 else 256 * Pow256(k - 1)
  }

  /** The low `width` bytes of `v`, most significant first. */
  function PutUint(width: nat, v: nat): (b: seq<byte>)
    ensures |b| == width
  {
    if width == 0 then [] else PutUint(width - 1, v / 256) + [v % 256]
  }

  function GetUint(b: seq<byte>): nat {
    if b == [] then 0 else 256 * GetUint(b[..|b| - 1]) + b[|b| - 1]
  }

  lemma Pow256Values()
    ensures Pow256(2) == 0x1_0000 && Pow256(4) == U32 && Pow256(8) == U64
  {
    assert Pow256(2) == 0x1_0000;
    assert Pow256(4) == 256 * (256 * Pow256(2));
    assert Pow256(6) == 256 * (256 * Pow256(4));
    assert Pow256(8) == 256 * (256 * Pow256(6));
  }

  lemma {:induction false} GetPut(width: nat, v: nat)
    requires v < Pow256(width)
    ensures GetUint(PutUint(width, v)) == v
  {
    if width != 0 {
      GetPut(width - 1, v / 256);
      assert PutUint(width, v)[..width - 1] == PutUint(width - 1, v / 256);
    }
  }

  lemma {:induction false} PutGet(b: seq<byte>)
    ensures GetUint(b) < Pow256(|b|)
    ensures PutUint(|b|, GetUint(b)) == b
  {
    if b != [] {
      PutGet(b[..|b| - 1]);
      assert b == b[..|b| - 1] + [b[|b| - 1]];
    }
  }

  lemma Scaled(a: nat, p: nat)
    ensures a * (256 * p) == 256 * (a * p)
  {
  }

  /** Most significant first: the first of n bytes has weight 256 to the n - 1. */
  lemma {:induction false} BigEndian(b: seq<byte>)
    requires b != []
    ensures GetUint(b) == b[0] * Pow256(|b| - 1) + GetUint(b[1..])
    decreases |b|
  {
    var n := |b|;
    if n == 1 {
      assert b[..0] == [];
    } else {
      var init, last, lead := b[..n - 1], b[n - 1], b[0] * Pow256(n - 2);
      BigEndian(init);
      assert init[1..] == b[1..][..n - 2];
      assert GetUint(init) == lead + GetUint(init[1..]);
      assert GetUint(b) == 256 * GetUint(init) + last;
      assert GetUint(b[1..]) == 256 * GetUint(init[1..]) + last;
      assert b[0] * Pow256(n - 1) == 256 * lead by { Scaled(b[0], Pow256(n - 2)); }
    }
  }

  /** Writes the low `width` bytes of `v` into `a` from `off`, as PutUint32 and PutUint64 do. */
  method PutUintAt(a: array<byte>, off: nat, width: nat, v: nat)
    requires off + width <= a.Length
    modifies a
    ensures a[..] == old(a[..off]) + PutUint(width, v) + old(a[off + width..])
  {
    var k, rest := width, v;
    ghost var done: seq<byte> := [];
    while k > 0
      invariant 0 <= k <= width
      invariant |done| == width - k
      invariant PutUint(width, v) == PutUint(k, rest) + done
      invariant a[..off + k] == old(a[..off + k])
      invariant a[off + k..off + width] == done
      invariant a[off + width..] == old(a[off + width..])
    {
      k := k - 1;
      a[off + k] := rest % 256;
      done := [rest % 256] + done;
      rest := rest / 256;
      assert a[off + k..off + width] == done;
    }
    assert a[..] == a[..off] + a[off..off + width] + a[off + width..];
  }
}
