/** fulltest, test_nonce (firmware/miner.c) and the words exchanged with the A-Link (firmware/alink.c). */
module Verdict {
  import opened Words
  import opened Fips180
  import opened Message
  import opened Bytes
  import opened ShaCore
  import opened ShaUnit
  import opened ShaDriver
  import opened Jobs
  import opened Miner

  const NONCE_HW := 0
  const NONCE_VALID := 1
  const NONCE_DIFF := 2

  /** A 32-bit number stored least significant byte first. */
  function Le32(b: seq<byte>): (n: nat)
    requires |b| == 4
    ensures n < 0x1_0000_0000
  {
    Value(b[0]) + 0x100 * Value(b[1]) + 0x1_0000 * Value(b[2]) + 0x100_0000 * Value(b[3])
  }

  function Value(b: byte): (n: nat)
    ensures n < 0x100
  {
    b as nat
  }

  /** A number stored least significant byte first. */
  function LeNumber(b: seq<byte>): nat {
    if |b| < 4 then 0 else Le32(b[..4]) + 0x1_0000_0000 * LeNumber(b[4..])
  }

  function WordLe(b: seq<byte>, k: nat): nat
    requires 4 * k + 4 <= |b|
  {
    Le32(b[4 * k..4 * k + 4])
  }

  /** A big-endian load followed by bswap_32 is a little-endian load. */
  lemma SwappedLoad(b: seq<byte>)
    requires |b| == 4
    ensures Load(Swap(b)) as nat == Le32(b)
  {
    hide Load, Value;
    LoadValue(b[3], b[2], b[1], b[0]);
  }

  lemma LoadValue(a: byte, b: byte, c: byte, d: byte)
    ensures Load([a, b, c, d]) as nat == 0x100_0000 * Value(a) + 0x1_0000 * Value(b) + 0x100 * Value(c) + Value(d)
  {
    LoadValueBits(a, b, c, d);
  }

  lemma LoadValueBits(a: byte, b: byte, c: byte, d: byte)
    ensures ((a as word << 24) | (b as word << 16) | (c as word << 8) | d as word) as nat
            == 0x100_0000 * a as nat + 0x1_0000 * b as nat + 0x100 * c as nat + d as nat
  {}

  /** The most significant word in which two numbers differ decides. */
  lemma {:induction false} TopDecides(h: seq<byte>, t: seq<byte>, n: nat, i: nat)
    requires |h| == |t| == 4 * n && i < n
    requires forall k :: i < k < n ==> WordLe(h, k) == WordLe(t, k)
    ensures WordLe(h, i) < WordLe(t, i) ==> LeNumber(h) < LeNumber(t)
    ensures WordLe(h, i) == WordLe(t, i) && i == 0 ==> LeNumber(h) == LeNumber(t)
  {
    hide Le32;
    var g, u := h[4..], t[4..];
    forall k: nat | k + 1 < n
      ensures WordLe(g, k) == WordLe(h, k + 1) && WordLe(u, k) == WordLe(t, k + 1)
    {
      assert g[4 * k..4 * k + 4] == h[4 * (k + 1)..4 * (k + 1) + 4];
      assert u[4 * k..4 * k + 4] == t[4 * (k + 1)..4 * (k + 1) + 4];
    }
    assert h[4 * 0..4 * 0 + 4] == h[..4] && t[4 * 0..4 * 0 + 4] == t[..4];
    if i > 0 {
      TopDecides(g, u, n - 1, i - 1);
    } else if n > 1 {
      assert WordLe(g, 0) == WordLe(u, 0);
      TopDecides(g, u, n - 1, 0);
    }
  }

  /** fulltest */
  method Fulltest(hash: array<byte>, target: array<byte>) returns (rc: int)
    requires hash.Length == 32 && target.Length == 32
    ensures rc == if LeNumber(hash[..]) < LeNumber(target[..]) then NONCE_DIFF else NONCE_VALID
  {
    hide LeNumber, Le32;
    rc := 1;
    var i := 7;
    while i >= 0
      invariant -1 <= i <= 7 && rc == 1
      invariant forall k :: i < k < 8 ==> WordLe(hash[..], k) == WordLe(target[..], k)
      invariant i == -1 ==> LeNumber(hash[..]) == LeNumber(target[..])
    {
      var h32, t32 := Load(Swap(hash[4 * i..4 * i + 4])) as nat, Load(Swap(target[4 * i..4 * i + 4])) as nat;
      SwappedLoad(hash[4 * i..4 * i + 4]);
      SwappedLoad(target[4 * i..4 * i + 4]);
      assert hash[4 * i..4 * i + 4] == hash[..][4 * i..4 * i + 4] && target[4 * i..4 * i + 4] == target[..][4 * i..4 * i + 4];
      assert h32 == WordLe(hash[..], i) && t32 == WordLe(target[..], i);
      TopDecides(hash[..], target[..], 8, i);
      TopDecides(target[..], hash[..], 8, i);
      if h32 > t32 {
        return NONCE_VALID;
      }
      if h32 < t32 {
        return NONCE_DIFF;
      }
      i := i - 1;
    }
  }

  // Hardware errors.

  /** 2^224 */
  const LIMIT := 0x1_00000000_00000000_00000000_00000000_00000000_00000000_00000000

  function Power(n: nat): nat { if n == 0 then 1 else 0x1_0000_0000 * Power(n - 1) }

  lemma PowerIs()
    ensures Power(7) == LIMIT
  {
    assert Power(3) == 0x1_00000000_00000000_00000000;
    assert Power(5) == 0x1_00000000_00000000_00000000_00000000_00000000;
  }

  lemma {:induction false} TopWord(b: seq<byte>, n: nat)
    requires |b| == 4 * n + 4
    ensures LeNumber(b) < Power(n) <==> WordLe(b, n) == 0
    ensures LeNumber(b) < Power(n + 1)
  {
    hide Le32, LeNumber, Power;
    var c := b[4..];
    LeStep(b);
    PowerStep(n);
    if n == 0 {
      assert b[..4] == b && b[0..4] == b;
    } else {
      TopWord(c, n - 1);
      PowerStep(n - 1);
      assert c[4 * (n - 1)..4 * (n - 1) + 4] == b[4 * n..4 * n + 4];
      Scaled(Le32(b[..4]), LeNumber(c), Power(n - 1));
      Scaled(Le32(b[..4]), LeNumber(c), Power(n));
    }
  }

  lemma LeStep(b: seq<byte>)
    requires |b| >= 4
    ensures LeNumber(b) == Le32(b[..4]) + 0x1_0000_0000 * LeNumber(b[4..]) && LeNumber([]) == 0
    ensures |b| == 4 ==> b[4..] == []
  {
    hide Le32;
  }

  lemma PowerStep(n: nat)
    ensures Power(n + 1) == 0x1_0000_0000 * Power(n) && Power(0) == 1
  {}

  lemma Scaled(low: nat, high: nat, p: nat)
    requires low < 0x1_0000_0000
    ensures low + 0x1_0000_0000 * high < 0x1_0000_0000 * p <==> high < p
  {}

  lemma LastWordDecides(b: seq<byte>)
    requires |b| == 32
    ensures LeNumber(b) < LIMIT <==> Load(b[28..32]) == 0
  {
    hide LeNumber, Load, Le32, Power;
    PowerIs();
    TopWord(b, 7);
    LastWordZero(b[28..32]);
    LowZero(b[28..32]);
  }

  lemma LowZero(b: seq<byte>)
    requires |b| == 4
    ensures Le32(b) == 0 <==> b == [0, 0, 0, 0]
  {
    hide Value;
    ZeroByte(b[0]);
    ZeroByte(b[1]);
    ZeroByte(b[2]);
    ZeroByte(b[3]);
  }

  lemma ZeroByte(b: byte)
    ensures Value(b) == 0 <==> b == 0
  {}

  /** nonce2 and the nonce are stored least significant byte first. */
  lemma LeIs(n: word)
    ensures Le32(Le(n)) == n as nat
  {
    hide Load, Store, Le32;
    SwappedLoad(Le(n));
    SwapTwice(Store(n));
    LoadStore(n);
  }

  /** struct result */
  datatype Result = Result(minerId: seq<byte>, taskId: seq<byte>, ntime: seq<byte>, nonce: seq<byte>)
  {
    predicate Valid() { |minerId| == 4 && |taskId| == 8 && |ntime| == 4 && |nonce| == 4 }

    function Nonce2(): word requires Valid() { Load(taskId[4..]) }

    /** The chips return the nonce with an offset. */
    function Nonce(): word requires Valid() { Load(nonce) - 0x1000 }
  }

  /** dsha256(swap, 80, hash1) */
  method HashTwice(sha: Sha, swap: array<byte>) returns (hash1: array<byte>)
    requires sha.State().Quiet() && swap.Length == 80
    modifies sha, sha.core, sha.dbl
    ensures sha.State().Quiet() && fresh(hash1) && hash1.Length == 32 && hash1[..] == Sha256(Sha256(swap[..]))
  {
    hide Inv, Sha256, Unit.Live, Unit.Valid;
    assert swap[0..0 + 80] == swap[..];
    hash1 := new byte[32];
    Dsha256(sha, swap, 0, 80, hash1);
  }

  /** test_nonce */
  method TestNonce(sha: Sha, mw: MmWork, ret: Result) returns (verdict: int)
    requires sha.State().Quiet() && mw.Valid() && ret.Valid()
    modifies sha, sha.core, sha.dbl, mw.coinbase, mw.header
    ensures sha.State().Quiet() && mw.Valid() && mw.View() == Gen(old(mw.View()), ret.Nonce2())
    ensures var hash, limit := LeNumber(Sha256(Sha256(Message80(mw.header[..], ret.Nonce())))), LeNumber(old(mw.target[..]));
            && (verdict == NONCE_HW <==> hash >= LIMIT)
            && (verdict == NONCE_DIFF <==> hash < LIMIT && hash < limit)
            && (verdict == NONCE_VALID <==> limit <= hash < LIMIT)
  {
    hide Inv, Gen, WorkMidstate, WorkTail, WorkTaps, Message80, Sha256, LeNumber, Load, Store, Unit.Live, Unit.Valid;
    var work := new Work();
    GenNonce2Work(sha, mw, Load(ret.taskId[4..]), work);
    ghost var u := sha.State();
    var swap := SwappedHeader(mw, work, Load(ret.nonce) - 0x1000);
    assert sha.State() == u;
    var hash1 := HashTwice(sha, swap);
    verdict := Decide(hash1, mw.target);
  }

  /** The end of test_nonce: a hardware error unless the last hash word is zero, else a share if the hash is below the
      target as a number. */
  method Decide(hash: array<byte>, target: array<byte>) returns (verdict: int)
    requires hash.Length == 32 && target.Length == 32
    ensures verdict == NONCE_HW <==> LeNumber(hash[..]) >= LIMIT
    ensures verdict == NONCE_DIFF <==> LeNumber(hash[..]) < LIMIT && LeNumber(hash[..]) < LeNumber(target[..])
    ensures verdict == NONCE_VALID <==> LeNumber(target[..]) <= LeNumber(hash[..]) < LIMIT
  {
    hide Load, LeNumber;
    LastWordDecides(hash[..]);
    assert hash[28..32] == hash[..][28..32];
    if Load(hash[28..32]) != 0 {
      verdict := NONCE_HW;
    } else {
      verdict := Fulltest(hash, target);
    }
  }

  lemma LastWordZero(b: seq<byte>)
    requires |b| == 4
    ensures Load(b) == 0 <==> b == [0, 0, 0, 0]
  {}

  /** The nonce goes to bytes 76 to 79 of the header, and the first 80 bytes are flipped. */
  method SwappedHeader(mw: MmWork, work: Work, nonce: word) returns (swap: array<byte>)
    requires mw.Valid() && work.Valid() && work.header[..] == mw.header[..]
    requires work.header != mw.header && work.header != mw.coinbase
    modifies work.header
    ensures fresh(swap) && swap.Length == 80 && swap[..] == Message80(mw.header[..], nonce)
  {
    hide Flip, Le, Store;
    ghost var header := mw.header[..];
    var le := Le(nonce);
    work.header[76], work.header[77], work.header[78], work.header[79] := le[0], le[1], le[2], le[3];
    ghost var h := Patch(header[..80], 76, Le(nonce));
    assert work.header[0..0 + 4 * 20] == h;
    swap := new byte[80];
    FlipWords(swap, work.header, 0, 20, h);
    FlipLength(h, 20);
    assert swap[..] == Flip(h) + [];
  }

  /** Whatever works were generated before and after, testing a nonce rebuilds the header that was sent. */
  lemma HeaderRebuilt(j: Job, before: seq<word>, after: seq<word>, nonce2: word)
    requires j.InRange()
    ensures Gen(GenAll(j, before), nonce2).header == Gen(GenAll(j, after), nonce2).header
  {
    HistoryIndependent(j, before, nonce2);
    HistoryIndependent(j, after, nonce2);
  }
}
