/** Byte-buffer helpers the firmware uses on its arrays. */
module Bytes {
  import opened Words

  /** s with b written at off. */
  function Patch(s: seq<byte>, off: nat, b: seq<byte>): (t: seq<byte>)
    requires off + |b| <= |s|
    ensures |t| == |s|
  {
    s[..off] + b + s[off + |b|..]
  }

  /** Every group of four bytes reversed: what bswap_32 does to each word of a buffer. */
  function Flip(b: seq<byte>): seq<byte> {
    if |b| < 4 then [] else Swap(b[..4]) + Flip(b[4..])
  }

  function Swap(w: seq<byte>): (t: seq<byte>)
    requires |w| == 4
    ensures |t| == 4
  {
    [w[3], w[2], w[1], w[0]]
  }

  function Reverse(b: seq<byte>): (t: seq<byte>)
    ensures |t| == |b|
  {
    seq(|b|, i requires 0 <= i < |b| => b[|b| - 1 - i])
  }

  lemma PatchOver(s: seq<byte>, off: nat, a: seq<byte>, b: seq<byte>)
    requires |a| == |b| && off + |a| <= |s|
    ensures Patch(Patch(s, off, a), off, b) == Patch(s, off, b)
  {}

  lemma {:induction false} FlipLength(b: seq<byte>, n: nat)
    requires |b| == 4 * n
    ensures |Flip(b)| == 4 * n
  {
    if n > 0 {
      FlipLength(b[4..], n - 1);
    }
  }

  lemma {:induction false} FlipAppend(a: seq<byte>, n: nat, b: seq<byte>)
    requires |a| == 4 * n
    ensures Flip(a + b) == Flip(a) + Flip(b)
  {
    hide Swap;
    if n == 0 {
      assert a + b == b && Flip(a) == [];
    } else {
      FlipAppend(a[4..], n - 1, b);
      assert (a + b)[..4] == a[..4] && (a + b)[4..] == a[4..] + b;
    }
  }

  lemma FlipCons(b: seq<byte>)
    requires |b| >= 4
    ensures Flip(b) == Swap(b[..4]) + Flip(b[4..])
  {}

  lemma SliceAfter4(b: seq<byte>, k: nat)
    requires 4 * k + 8 <= |b|
    ensures b[4..][4 * k..4 * k + 4] == b[4 * (k + 1)..4 * (k + 1) + 4]
  {
    var x, y := b[4..][4 * k..4 * k + 4], b[4 * (k + 1)..4 * (k + 1) + 4];
    assert x[0] == y[0] && x[1] == y[1] && x[2] == y[2] && x[3] == y[3];
  }

  lemma {:induction false} FlipWordAt(b: seq<byte>, k: nat)
    requires 4 * k + 4 <= |b|
    ensures 4 * k + 4 <= |Flip(b)| && Flip(b)[4 * k..4 * k + 4] == Swap(b[4 * k..4 * k + 4])
  {
    hide Flip, Swap;
    FlipCons(b);
    var f := Flip(b);
    if k == 0 {
      assert f[0..4] == Swap(b[..4]);
      assert b[0..4] == b[..4];
    } else {
      FlipWordAt(b[4..], k - 1);
      var c := Flip(b[4..]);
      assert forall i :: 0 <= i < |c| ==> f[4 + i] == c[i];
      assert f[4 * k..4 * k + 4] == c[4 * (k - 1)..4 * (k - 1) + 4];
      SliceAfter4(b, k - 1);
    }
  }

  lemma FlipNext(b: seq<byte>, n: nat)
    requires 4 * n + 4 <= |b|
    ensures Flip(b[..4 * n + 4]) == Flip(b[..4 * n]) + Swap(b[4 * n..4 * n + 4])
    ensures |Flip(b[..4 * n])| == 4 * n
  {
    var w := b[4 * n..4 * n + 4];
    assert b[..4 * n + 4] == b[..4 * n] + w;
    FlipAppend(b[..4 * n], n, w);
    FlipLength(b[..4 * n], n);
    assert w[..4] == w && Flip(w[4..]) == [];
  }

  lemma PatchNext(s: seq<byte>, done: seq<byte>, was: seq<byte>, i: nat, b: seq<byte>)
    requires i + 4 <= |was| && |done| == i && |b| == 4 && s == done + was[i..]
    ensures s[..i] + b + s[i + 4..] == done + b + was[i + 4..]
  {}

  /** memcpy between different buffers. */
  method Copy(dst: array<byte>, d: nat, src: array<byte>, s: nat, n: nat)
    requires dst != src && d + n <= dst.Length && s + n <= src.Length
    modifies dst
    ensures dst[..] == Patch(old(dst[..]), d, src[s..s + n])
  {
    for i := 0 to n
      invariant dst[..] == Patch(old(dst[..]), d, src[s..s + i])
    {
      dst[d + i] := src[s + i];
    }
  }

  /** The four bytes of src at j go to dst at k in reverse order. */
  method SwapWord(dst: array<byte>, k: nat, src: array<byte>, j: nat)
    requires k + 4 <= dst.Length && j + 4 <= src.Length
    modifies dst
    ensures dst[..] == old(dst[..k]) + Swap(old(src[j..j + 4])) + old(dst[k + 4..])
  {
    var b0, b1, b2, b3 := src[j], src[j + 1], src[j + 2], src[j + 3];
    dst[k], dst[k + 1], dst[k + 2], dst[k + 3] := b3, b2, b1, b0;
  }

  /** flip32, flip64 and flip80: words of src at s, byte-swapped, to the start of dst; a buffer may be flipped in place. */
  method FlipWords(dst: array<byte>, src: array<byte>, s: nat, words: nat, ghost from: seq<byte>)
    requires 4 * words <= dst.Length && s + 4 * words <= src.Length && src[s..s + 4 * words] == from
    requires dst == src ==> s == 0
    modifies dst
    ensures dst[..] == Flip(from) + old(dst[4 * words..])
  {
    hide Flip;
    ghost var was, rest := dst[..], dst[4 * words..];
    assert was[4 * words..] == rest;
    FlipNone(from);
    for i := 0 to words
      invariant dst[..] == Flip(from[..4 * i]) + was[4 * i..] && |Flip(from[..4 * i])| == 4 * i
      invariant dst != src ==> src[s..s + 4 * words] == from
    {
      FlipNextWord(dst, src, s, words, i, from, was);
    }
    assert from[..4 * words] == from;
  }

  method FlipNextWord(dst: array<byte>, src: array<byte>, s: nat, words: nat, i: nat, ghost from: seq<byte>, ghost was: seq<byte>)
    requires i < words && 4 * words <= dst.Length == |was| && s + 4 * words <= src.Length && |from| == 4 * words
    requires dst == src ==> s == 0 && was[0..4 * words] == from
    requires dst != src ==> src[s..s + 4 * words] == from
    requires dst[..] == Flip(from[..4 * i]) + was[4 * i..] && |Flip(from[..4 * i])| == 4 * i
    modifies dst
    ensures dst[..] == Flip(from[..4 * (i + 1)]) + was[4 * (i + 1)..] && |Flip(from[..4 * (i + 1)])| == 4 * (i + 1)
    ensures dst != src ==> src[s..s + 4 * words] == from
  {
    hide Flip;
    if dst == src {
      InPlace(dst[..], was, Flip(from[..4 * i]), 4 * words, 4 * i);
    } else {
      SliceOfSlice(src[..], s, 4 * words, 4 * i, 4 * i + 4);
    }
    FlipStep(dst, src, s + 4 * i, i, from, was);
  }

  method FlipStep(dst: array<byte>, src: array<byte>, j: nat, i: nat, ghost from: seq<byte>, ghost was: seq<byte>)
    requires 4 * i + 4 <= |was| == dst.Length && 4 * i + 4 <= |from| && j + 4 <= src.Length
    requires src[j..j + 4] == from[4 * i..4 * i + 4]
    requires dst[..] == Flip(from[..4 * i]) + was[4 * i..] && |Flip(from[..4 * i])| == 4 * i
    modifies dst
    ensures dst[..] == Flip(from[..4 * (i + 1)]) + was[4 * (i + 1)..] && |Flip(from[..4 * (i + 1)])| == 4 * (i + 1)
  {
    hide Flip, Swap;
    FlipNext(from, i);
    FlipLength(from[..4 * i + 4], i + 1);
    PatchNext(dst[..], Flip(from[..4 * i]), was, 4 * i, Swap(from[4 * i..4 * i + 4]));
    SwapWord(dst, 4 * i, src, j);
  }

  /** The part of a buffer flipped in place that has not been reached is what it was. */
  lemma InPlace(now: seq<byte>, was: seq<byte>, done: seq<byte>, n: nat, k: nat)
    requires k + 4 <= n <= |was| && |done| == k && now == done + was[k..]
    ensures now[0 + k..0 + k + 4] == was[0..0 + n][k..k + 4]
  {
    assert now[k..] == was[k..];
    assert now[k..k + 4] == now[k..][..4];
  }

  lemma SliceOfSlice(a: seq<byte>, off: nat, len: nat, i: nat, j: nat)
    requires off + len <= |a| && i <= j <= len
    ensures a[off..off + len][i..j] == a[off + i..off + j]
  {
    var x, y := a[off..off + len][i..j], a[off + i..off + j];
    assert |x| == |y| && forall k :: 0 <= k < |x| ==> x[k] == y[k];
  }

  lemma FlipNone(b: seq<byte>)
    ensures b[..0] == [] && Flip([]) == []
  {}

  /** rev: l bytes at off reversed in place. */
  method Rev(s: array<byte>, off: nat, l: nat)
    requires 0 < l && off + l <= s.Length
    modifies s
    ensures s[..] == Patch(old(s[..]), off, Reverse(old(s[off..off + l])))
  {
    ghost var was := s[..];
    var i, j := off, off + l - 1;
    while i < j
      invariant off <= i <= j + 1 && j == 2 * off + l - 1 - i
      invariant forall k :: off <= k < i || j < k < off + l ==> s[k] == was[2 * off + l - 1 - k]
      invariant forall k :: 0 <= k < off || i <= k <= j || off + l <= k < s.Length ==> s[k] == was[k]
    {
      var t := s[i];
      s[i] := s[j];
      s[j] := t;
      i, j := i + 1, j - 1;
    }
    assert s[..] == Patch(was, off, Reverse(was[off..off + l]));
  }
}
