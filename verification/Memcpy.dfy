/** firmware/minilibc/memcpy.c over the whole memory; addresses are indices, so an address is aligned when its index is. */
module Memcpy {
  import opened Words
  import opened Bytes

  // Bits 0 and 1 of an address or a count.

  predicate Bit0(a: nat) { a % 2 == 1 }

  predicate Bit1(a: nat) { a % 4 >= 2 }

  lemma After1(a: nat)
    ensures Bit0(a + 1) == !Bit0(a)
  {}

  lemma After2(a: nat)
    ensures Bit0(a + 2) == Bit0(a) && Bit1(a + 2) == !Bit1(a)
  {
    After1(a);
    After1(a + 1);
    hide Bit0;
    assert a == 4 * (a / 4) + a % 4;
    if a % 4 < 2 {
      Remainder(a / 4, a % 4 + 2);
    } else {
      Remainder(a / 4 + 1, a % 4 - 2);
    }
  }

  lemma Remainder(q: nat, r: nat)
    requires r < 4
    ensures (4 * q + r) % 4 == r
  {}

  lemma After4(a: nat)
    ensures Bit0(a + 4) == Bit0(a) && Bit1(a + 4) == Bit1(a)
  {
    hide Bit0, Bit1;
    After2(a);
    After2(a + 2);
  }

  lemma Halves(n: nat)
    ensures n == 2 * (n / 2) + (if Bit0(n) then 1 else 0)
  {}

  lemma Quarters(n: nat)
    ensures n == 4 * (n / 4) + (if Bit1(n) then 2 else 0) + (if Bit0(n) then 1 else 0)
  {
    var q, r := n / 4, n % 4;
    assert n == 4 * q + r;
    Parity(2 * q, r);
  }

  lemma Parity(q: nat, r: nat)
    ensures Bit0(2 * q + r) == Bit0(r)
  {}

  /** One byte is copied, at any address. */
  method CopyByte(mem: array<byte>, to: nat, from: nat)
    requires to < mem.Length && from < mem.Length
    modifies mem
    ensures mem[..] == Patch(old(mem[..]), to, old(mem[..])[from..from + 1])
  {
    mem[to] := mem[from];
  }

  /** Two bytes are copied in one access; the processor traps on an odd address. */
  method CopyShort(mem: array<byte>, to: nat, from: nat)
    requires to + 2 <= mem.Length && from + 2 <= mem.Length
    requires !Bit0(to) && !Bit0(from)
    modifies mem
    ensures mem[..] == Patch(old(mem[..]), to, old(mem[..])[from..from + 2])
  {
    ghost var was := mem[..];
    var b0, b1 := mem[from], mem[from + 1];
    mem[to] := b0;
    mem[to + 1] := b1;
    PatchIs(mem[..], was, to, was[from..from + 2]);
  }

  /** Four bytes are copied in one access; the processor traps on an address that is not a multiple of four. */
  method CopyLong(mem: array<byte>, to: nat, from: nat)
    requires to + 4 <= mem.Length && from + 4 <= mem.Length
    requires !Bit0(to) && !Bit1(to) && !Bit0(from) && !Bit1(from)
    modifies mem
    ensures mem[..] == Patch(old(mem[..]), to, old(mem[..])[from..from + 4])
  {
    ghost var was := mem[..];
    var b0, b1, b2, b3 := mem[from], mem[from + 1], mem[from + 2], mem[from + 3];
    mem[to] := b0;
    mem[to + 1] := b1;
    mem[to + 2] := b2;
    mem[to + 3] := b3;
    PatchIs(mem[..], was, to, was[from..from + 4]);
  }

  lemma PatchIs(now: seq<byte>, was: seq<byte>, to: nat, b: seq<byte>)
    requires |now| == |was| && to + |b| <= |was|
    requires forall i :: to <= i < to + |b| ==> now[i] == b[i - to]
    requires forall i :: 0 <= i < to || to + |b| <= i < |was| ==> now[i] == was[i]
    ensures now == Patch(was, to, b)
  {
    assert |b| == |now[to..to + |b|]| && now[to..to + |b|] == b;
    assert now[..to] == was[..to];
    assert now[to + |b|..] == was[to + |b|..];
    assert now == now[..to] + now[to..to + |b|] + now[to + |b|..];
  }

  /** A copy: the regions are disjoint, or the destination lies below the source. */
  datatype Job = Job(to: nat, from: nat, n: nat) {
    predicate Forward() { to <= from || from + n <= to }
  }

  /** Memory after the first k bytes of a copy. */
  ghost predicate Progress(now: seq<byte>, was: seq<byte>, j: Job, k: nat) {
    && j.to + j.n <= |was| && j.from + j.n <= |was| && k <= j.n
    && now == Patch(was, j.to, was[j.from..j.from + k])
  }

  lemma PatchPatch(was: seq<byte>, to: nat, a: seq<byte>, b: seq<byte>)
    requires to + |a| + |b| <= |was|
    ensures Patch(Patch(was, to, a), to + |a|, b) == Patch(was, to, a + b)
  {
    var x := Patch(was, to, a);
    assert x[..to + |a|] == was[..to] + a;
    assert x[to + |a| + |b|..] == was[to + |a| + |b|..];
  }

  lemma Untouched(now: seq<byte>, was: seq<byte>, j: Job, k: nat, w: nat)
    requires Progress(now, was, j, k) && j.Forward() && k + w <= j.n
    ensures now[j.from + k..j.from + k + w] == was[j.from + k..j.from + k + w]
  {
    if j.to + k <= j.from + k {
      assert now[j.to + k..] == was[j.to + k..];
      Tails(now, was, j.to + k, j.from + k, w);
    } else {
      assert now[..j.to] == was[..j.to];
      Heads(now, was, j.to, j.from + k, w);
    }
  }

  lemma Tails(x: seq<byte>, y: seq<byte>, at: nat, lo: nat, w: nat)
    requires at <= lo && lo + w <= |x| == |y| && x[at..] == y[at..]
    ensures x[lo..lo + w] == y[lo..lo + w]
  {
    forall i | lo <= i < lo + w
      ensures x[i] == y[i]
    {
      assert x[i] == x[at..][i - at] && y[i] == y[at..][i - at];
    }
  }

  lemma Heads(x: seq<byte>, y: seq<byte>, at: nat, lo: nat, w: nat)
    requires lo + w <= at <= |x| == |y| && x[..at] == y[..at]
    ensures x[lo..lo + w] == y[lo..lo + w]
  {
    forall i | lo <= i < lo + w
      ensures x[i] == y[i]
    {
      assert x[i] == x[..at][i] && y[i] == y[..at][i];
    }
  }

  /** The next w bytes of the source have not been overwritten yet, so copying them makes progress. */
  lemma Advance(now: seq<byte>, was: seq<byte>, j: Job, k: nat, w: nat, next: seq<byte>)
    requires Progress(now, was, j, k) && j.Forward() && k + w <= j.n
    requires next == Patch(now, j.to + k, now[j.from + k..j.from + k + w])
    ensures Progress(next, was, j, k + w)
  {
    var done, more := was[j.from..j.from + k], was[j.from + k..j.from + k + w];
    Untouched(now, was, j, k, w);
    PatchPatch(was, j.to, done, more);
    assert done + more == was[j.from..j.from + (k + w)];
    hide Patch, Job.Forward;
  }

  lemma Bounds(now: seq<byte>, was: seq<byte>, j: Job, k: nat)
    requires Progress(now, was, j, k)
    ensures |now| == |was| && j.to + j.n <= |now| && j.from + j.n <= |now|
  {}

  // One step of a loop, of one, two or four bytes.

  method StepByte(mem: array<byte>, t: nat, f: nat, ghost j: Job, ghost k: nat, ghost was: seq<byte>)
    requires j.Forward() && k + 1 <= j.n && t == j.to + k && f == j.from + k && Progress(mem[..], was, j, k)
    modifies mem
    ensures Progress(mem[..], was, j, k + 1)
  {
    hide Patch, Progress, Job.Forward;
    ghost var now := mem[..];
    Bounds(now, was, j, k);
    CopyByte(mem, t, f);
    Advance(now, was, j, k, 1, mem[..]);
  }

  method StepShort(mem: array<byte>, t: nat, f: nat, ghost j: Job, ghost k: nat, ghost was: seq<byte>)
    requires j.Forward() && k + 2 <= j.n && t == j.to + k && f == j.from + k && Progress(mem[..], was, j, k)
    requires !Bit0(t) && !Bit0(f)
    modifies mem
    ensures Progress(mem[..], was, j, k + 2)
  {
    hide Patch, Progress, Job.Forward, Bit0;
    ghost var now := mem[..];
    Bounds(now, was, j, k);
    CopyShort(mem, t, f);
    Advance(now, was, j, k, 2, mem[..]);
  }

  method StepLong(mem: array<byte>, t: nat, f: nat, ghost j: Job, ghost k: nat, ghost was: seq<byte>)
    requires j.Forward() && k + 4 <= j.n && t == j.to + k && f == j.from + k && Progress(mem[..], was, j, k)
    requires !Bit0(t) && !Bit1(t) && !Bit0(f) && !Bit1(f)
    modifies mem
    ensures Progress(mem[..], was, j, k + 4)
  {
    hide Patch, Progress, Job.Forward, Bit0, Bit1;
    ghost var now := mem[..];
    Bounds(now, was, j, k);
    CopyLong(mem, t, f);
    Advance(now, was, j, k, 4, mem[..]);
  }

  // The loops.

  method Bytewise(mem: array<byte>, t0: nat, f0: nat, count: nat, ghost j: Job, ghost was: seq<byte>)
    requires j.Forward() && count <= j.n && t0 == j.to + (j.n - count) && f0 == j.from + (j.n - count)
    requires Progress(mem[..], was, j, j.n - count)
    modifies mem
    ensures Progress(mem[..], was, j, j.n)
  {
    hide Patch, Progress, Job.Forward;
    var t: nat, f: nat, n: nat := t0, f0, count;
    while n > 0
      invariant n <= j.n && t == j.to + (j.n - n) && f == j.from + (j.n - n)
      invariant Progress(mem[..], was, j, j.n - n)
    {
      StepByte(mem, t, f, j, j.n - n, was);
      t, f, n := t + 1, f + 1, n - 1;
    }
  }

  method Shorts(mem: array<byte>, t0: nat, f0: nat, count: nat, ghost k: nat, ghost j: Job, ghost was: seq<byte>)
    returns (t: nat, f: nat)
    requires j.Forward() && k + 2 * count <= j.n && t0 == j.to + k && f0 == j.from + k
    requires Progress(mem[..], was, j, k) && !Bit0(t0) && !Bit0(f0)
    modifies mem
    ensures t == t0 + 2 * count && f == f0 + 2 * count
    ensures Progress(mem[..], was, j, k + 2 * count)
  {
    hide Patch, Progress, Job.Forward, Bit0, Bit1;
    t, f := t0, f0;
    var temp: nat := count;
    while temp > 0
      invariant temp <= count && t == t0 + 2 * (count - temp) && f == f0 + 2 * (count - temp)
      invariant !Bit0(t) && !Bit0(f)
      invariant Progress(mem[..], was, j, k + 2 * (count - temp))
    {
      After2(t);
      After2(f);
      StepShort(mem, t, f, j, k + 2 * (count - temp), was);
      t, f, temp := t + 2, f + 2, temp - 1;
    }
  }

  method Longs(mem: array<byte>, t0: nat, f0: nat, count: nat, ghost k: nat, ghost j: Job, ghost was: seq<byte>)
    returns (t: nat, f: nat)
    requires j.Forward() && k + 4 * count <= j.n && t0 == j.to + k && f0 == j.from + k
    requires Progress(mem[..], was, j, k) && !Bit0(t0) && !Bit0(f0) && (count > 0 ==> !Bit1(t0) && !Bit1(f0))
    modifies mem
    ensures t == t0 + 4 * count && f == f0 + 4 * count && !Bit0(t) && !Bit0(f)
    ensures Progress(mem[..], was, j, k + 4 * count)
  {
    hide Patch, Progress, Job.Forward, Bit0, Bit1;
    t, f := t0, f0;
    var temp: nat := count;
    while temp > 0
      invariant temp <= count && t == t0 + 4 * (count - temp) && f == f0 + 4 * (count - temp)
      invariant !Bit0(t) && !Bit0(f) && (count > 0 ==> !Bit1(t) && !Bit1(f))
      invariant Progress(mem[..], was, j, k + 4 * (count - temp))
    {
      After4(t);
      After4(f);
      StepLong(mem, t, f, j, k + 4 * (count - temp), was);
      t, f, temp := t + 4, f + 4, temp - 1;
    }
  }

  /** The source is halfword- but not word-aligned. */
  method Halfwords(mem: array<byte>, t0: nat, f0: nat, n: nat, ghost j: Job, ghost was: seq<byte>)
    requires j.Forward() && n <= j.n && t0 == j.to + (j.n - n) && f0 == j.from + (j.n - n)
    requires Progress(mem[..], was, j, j.n - n) && !Bit0(t0) && !Bit0(f0)
    modifies mem
    ensures Progress(mem[..], was, j, j.n)
  {
    hide Patch, Progress, Job.Forward, Bit0, Bit1;
    Halves(n);
    var t, f := Shorts(mem, t0, f0, n / 2, j.n - n, j, was);
    if Bit0(n) {
      StepByte(mem, t, f, j, j.n - 1, was);
    }
  }

  /** Both addresses are word-aligned, or less than a word is left. */
  method Wordwise(mem: array<byte>, t0: nat, f0: nat, n: nat, ghost j: Job, ghost was: seq<byte>)
    requires j.Forward() && n <= j.n && t0 == j.to + (j.n - n) && f0 == j.from + (j.n - n)
    requires Progress(mem[..], was, j, j.n - n) && !Bit0(t0) && !Bit0(f0) && !Bit1(f0) && (n > 2 ==> !Bit1(t0))
    modifies mem
    ensures Progress(mem[..], was, j, j.n)
  {
    hide Patch, Progress, Job.Forward, Bit0, Bit1;
    Quarters(n);
    var t, f := Longs(mem, t0, f0, n / 4, j.n - n, j, was);
    if Bit1(n) {
      StepShort(mem, t, f, j, j.n - n + 4 * (n / 4), was);
      t, f := t + 2, f + 2;
    }
    if Bit0(n) {
      StepByte(mem, t, f, j, j.n - 1, was);
    }
  }

  lemma Ends(was: seq<byte>, j: Job)
    requires j.to + j.n <= |was| && j.from + j.n <= |was|
    ensures Progress(was, was, j, 0)
    ensures forall now :: Progress(now, was, j, j.n) ==> now == Patch(was, j.to, was[j.from..j.from + j.n])
  {}

  /** Copies exactly n bytes and changes nothing else; every access of two or four bytes is aligned. */
  method Memcpy(mem: array<byte>, to: nat, from: nat, n: nat) returns (xto: nat)
    requires to + n <= mem.Length && from + n <= mem.Length && Job(to, from, n).Forward()
    modifies mem
    ensures xto == to
    ensures mem[..] == Patch(old(mem[..]), to, old(mem[..])[from..from + n])
  {
    hide Patch, Progress, Job.Forward, Bit0, Bit1;
    ghost var was, j := mem[..], Job(to, from, n);
    Ends(was, j);
    xto := to;
    if n == 0 { return; }
    var t: nat, f: nat, left: nat := to, from, n;
    if Bit0(t) {
      After1(t);
      StepByte(mem, t, f, j, 0, was);
      t, f, left := t + 1, f + 1, left - 1;
    }
    if Bit0(f) {
      Bytewise(mem, t, f, left, j, was);
      return;
    }
    if left > 2 && Bit1(t) {
      After2(t);
      After2(f);
      StepShort(mem, t, f, j, n - left, was);
      t, f, left := t + 2, f + 2, left - 2;
    }
    if Bit1(f) {
      Halfwords(mem, t, f, left, j, was);
      return;
    }
    Wordwise(mem, t, f, left, j, was);
  }
}
