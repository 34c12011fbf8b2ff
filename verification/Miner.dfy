/** firmware/miner.c on the arrays it works on. */
module Miner {
  import opened Words
  import opened Fips180
  import opened Message
  import opened Bytes
  import opened ShaCore
  import opened ShaUnit
  import opened ShaDriver
  import opened Jobs

  /** struct mm_work */
  class MmWork {
    var jobId: seq<byte>
    var coinbaseLen: nat
    const coinbase: array<byte>
    var nonce2: word
    var nonce2Offset: nat
    var nonce2Size: nat
    var merkleOffset: nat
    var nmerkles: nat
    var merkles: seq<seq<byte>>
    const header: array<byte>
    var poolNo: word
    const target: array<byte>

    /** What generation depends on. */
    ghost function View(): Job
      requires nmerkles <= |merkles|
      reads this, coinbase, header
    {
      Job(coinbase[..], coinbaseLen, nonce2Offset, merkles[..nmerkles], merkleOffset, header[..])
    }

    /** The job is one the firmware can serve: four bytes of nonce2, and every field within its buffer. */
    ghost predicate Valid()
      reads this, coinbase, header
    {
      && coinbase != header && coinbase != target && header != target && target.Length == 32
      && nonce2Size == 4 && nmerkles <= |merkles| && View().InRange()
    }

    constructor (coinbase: array<byte>, header: array<byte>, target: array<byte>)
      ensures this.coinbase == coinbase && this.header == header && this.target == target
    {
      this.coinbase, this.header, this.target := coinbase, header, target;
      jobId, merkles, nonce2, poolNo := [], [], 0, 0;
      coinbaseLen, nonce2Offset, nonce2Size, merkleOffset, nmerkles := 0, 0, 4, 0, 0;
    }
  }

  /** struct work; its four-byte fields are only ever written as a whole. */
  class Work {
    var nonce2: word
    var taskId: seq<byte>
    var step: seq<byte>
    var timeout: seq<byte>
    var clock: seq<byte>
    var a2: seq<byte>
    var e0: seq<byte>
    var e1: seq<byte>
    var e2: seq<byte>
    var a0: seq<byte>
    var a1: seq<byte>
    const data: array<byte>
    const header: array<byte>

    ghost predicate Valid() { data != header && data.Length == 44 && header.Length == 128 }

    constructor ()
      ensures Valid() && fresh(data) && fresh(header)
    {
      data := new byte[44];
      header := new byte[128];
      nonce2, taskId, step, timeout, clock := 0, [], [], [], [];
      a0, a1, a2, e0, e1, e2 := [], [], [], [], [], [];
    }
  }

  /** The SHA unit and the buffers of a job and of a work are all different objects. */
  ghost predicate Apart(mw: MmWork, work: Work) {
    && work.data != mw.coinbase && work.data != mw.header && work.data != mw.target
    && work.header != mw.coinbase && work.header != mw.header && work.header != mw.target
  }

  method StoreNonce2(mw: MmWork, nonce2: word)
    requires mw.Valid()
    modifies mw.coinbase
    ensures mw.Valid() && mw.View() == Stamp(old(mw.View()), nonce2)
  {
    hide Swap, Store;
    var tmp32 := new byte[4](i requires 0 <= i < 4 => Le(nonce2)[i]);
    assert tmp32[0..0 + 4] == Le(nonce2);
    if mw.coinbaseLen > COINBASE_SIZE {
      Copy(mw.coinbase, mw.nonce2Offset % 64 + 32, tmp32, 0, mw.nonce2Size);
    } else {
      Copy(mw.coinbase, mw.nonce2Offset, tmp32, 0, mw.nonce2Size);
    }
  }

  method HashCoinbase(sha: Sha, mw: MmWork, root: array<byte>)
    requires sha.State().Quiet() && mw.Valid() && root.Length == 32 && root != mw.coinbase && root != mw.header
    modifies sha, sha.core, sha.dbl, root
    ensures sha.State().Quiet() && root[..] == CoinbaseHash(mw.View())
  {
    hide Inv, Sha256, Fold, WordsOf, Digest, ShortPad, HashOf, Unit.Live, Unit.Valid;
    if mw.coinbaseLen > COINBASE_SIZE {
      Remainder(mw.coinbaseLen, mw.nonce2Offset);
      var lenPosthash := mw.coinbaseLen - mw.nonce2Offset + mw.nonce2Offset % 64;
      Dsha256Posthash(sha, mw.coinbase, mw.coinbaseLen, lenPosthash, root);
    } else {
      Dsha256(sha, mw.coinbase, 0, mw.coinbaseLen, root);
      assert mw.coinbase[0..0 + mw.coinbaseLen] == mw.coinbase[..mw.coinbaseLen];
    }
  }

  lemma Remainder(len: nat, off: nat)
    requires off <= len
    ensures (len - off + off % 64) % 64 == len % 64
  {
    var q := off / 64;
    assert len - off + off % 64 == len - 64 * q;
    var p, r := len / 64, len % 64;
    assert len - 64 * q == 64 * (p - q) + r;
  }

  method HashMerkles(sha: Sha, mw: MmWork, root: array<byte>)
    requires sha.State().Quiet() && mw.Valid() && root.Length == 32 && root != mw.coinbase && root != mw.header
    modifies sha, sha.core, sha.dbl, root
    ensures sha.State().Quiet() && root[..] == MerkleRoot(old(root[..]), mw.View().merkles)
  {
    hide Inv, Sha256, Unit.Live, Unit.Valid;
    ghost var leaf, branch := root[..], mw.merkles[..mw.nmerkles];
    var sha64 := new byte[64];
    Copy(sha64, 0, root, 0, 32);
    assert root[0..32] == root[..] && sha64[..32] == leaf;
    for i := 0 to mw.nmerkles
      invariant sha.State().Quiet()
      invariant root[..] == MerkleRoot(leaf, branch[..i]) && sha64[..32] == root[..]
    {
      assert branch[..i + 1][..i] == branch[..i];
      MerkleStep(sha, sha64, mw.merkles[i], root);
    }
    assert branch[..mw.nmerkles] == branch;
  }

  /** One branch: it goes behind the root so far, and their double hash becomes the root. */
  method MerkleStep(sha: Sha, sha64: array<byte>, merkle: seq<byte>, root: array<byte>)
    requires sha.State().Quiet() && sha64.Length == 64 && |merkle| == 32 && root.Length == 32 && root != sha64
    modifies sha, sha.core, sha.dbl, sha64, root
    ensures sha.State().Quiet()
    ensures root[..] == Sha256(Sha256(old(sha64[..32]) + merkle)) && sha64[..32] == root[..]
  {
    hide Inv, Sha256, Unit.Live, Unit.Valid;
    ghost var u, left := sha.State(), sha64[..32];
    for k := 0 to 32
      modifies sha64
      invariant sha64[..32] == left && sha64[32..32 + k] == merkle[..k]
    {
      sha64[32 + k] := merkle[k];
    }
    assert sha64[0..0 + 64] == left + merkle;
    assert sha.State() == u;
    Dsha256(sha, sha64, 0, 64, root);
    assert root[..] == Sha256(Sha256(left + merkle));
    Copy(sha64, 0, root, 0, 32);
    assert root[0..32] == root[..];
  }

  /** calc_midstate */
  method CalcMidstate(sha: Sha, mw: MmWork, work: Work)
    requires sha.State().Quiet() && mw.Valid() && work.Valid() && Apart(mw, work)
    modifies sha, sha.core, sha.dbl, work.data
    ensures sha.State().Quiet()
    ensures work.data[..] == Flip(Digest(HeaderMidstate(mw.header[..]))) + mw.header[64..76]
  {
    hide Inv, Flip, Fold, WordsOf, Digest, Unit.Live, Unit.Valid;
    ghost var head := mw.header[..64];
    var data := new byte[64];
    assert mw.header[0..0 + 4 * 16] == head;
    FlipWords(data, mw.header, 0, 16, head);
    FlipLength(head, 16);
    Init(sha);
    assert data[0..0 + 64 / 64 * 64] == Flip(head);
    Update(sha, data, 0, 64, Flip(head), IV, []);
    assert [] + WordsOf(Flip(head)) == WordsOf(Flip(head));
    Final(sha, work.data, IV, WordsOf(Flip(head)));
    ghost var digest := Digest(HeaderMidstate(mw.header[..]));
    SwapDigest(data, work, digest);
    Copy(work.data, 32, mw.header, 64, 12);
    assert work.data[..] == Flip(digest) + mw.header[64..76];
  }

  /** The digest is copied out, flipped together with the stale half of the buffer, and copied back. */
  method SwapDigest(data: array<byte>, work: Work, ghost digest: seq<byte>)
    requires data.Length == 64 && work.Valid() && data != work.data && |digest| == 32 && work.data[..32] == digest
    modifies data, work.data
    ensures |Flip(digest)| == 32 && work.data[..] == Flip(digest) + old(work.data[32..])
  {
    hide Flip;
    Copy(data, 0, work.data, 0, 32);
    assert work.data[0..32] == digest;
    ghost var all := data[..];
    assert all == digest + all[32..] && data[0..0 + 4 * 16] == all;
    FlipWords(data, data, 0, 16, all);
    FlipAppend(digest, 8, all[32..]);
    FlipLength(digest, 8);
    FlipLength(all[32..], 8);
    Copy(work.data, 0, data, 0, 32);
    assert data[0..32] == Flip(digest);
  }

  /** The two reversals of miner_gen_nonce2_work. */
  method ReverseData(work: Work)
    requires work.Valid()
    modifies work.data
    ensures work.data[..] == Reverse(old(work.data[..32])) + Reverse(old(work.data[32..]))
  {
    ghost var a, b := work.data[..32], work.data[32..];
    var workT := new byte[44];
    Copy(workT, 0, work.data, 0, 44);
    assert workT[..] == a + b && workT[0..0 + 32] == a;
    Rev(workT, 0, 32);
    assert workT[32..32 + 12] == b;
    Rev(workT, 32, 12);
    assert workT[..] == Reverse(a) + Reverse(b);
    Copy(work.data, 0, workT, 0, 44);
    assert workT[0..44] == workT[..];
  }

  /** calc_prepare */
  method CalcPrepare(sha: Sha, work: Work, ghost header: seq<byte>)
    requires sha.State().Quiet() && work.Valid() && |header| == 128
    requires work.data[..] == WorkMidstate(header) + WorkTail(header)
    modifies sha, sha.core, sha.dbl, work
    ensures sha.State().Quiet() && work.Valid() && work.nonce2 == old(work.nonce2)
    ensures var t := WorkTaps(header);
            work.a0 == Store(t.a0) && work.a1 == Store(t.a1) && work.a2 == Store(t.a2)
            && work.e0 == Store(t.e0) && work.e1 == Store(t.e1) && work.e2 == Store(t.e2)
  {
    hide Inv, WorkMidstate, WorkTail, Store, BytesOf, WordsOf, ShortPad, FirstRounds, LoadsDown, HashOf, Unit.Live, Unit.Valid;
    ghost var mid, tail := WorkMidstate(header), WorkTail(header);
    assert work.data[0..0 + 32] == mid && work.data[32..32 + 12] == tail;
    var precalc := new byte[24];
    Precalc(sha, work.data, 0, work.data, 32, 12, precalc);
    ghost var t := WorkTaps(header);
    assert (tail[8..] + tail[4..8] + tail[..4])[..12] == tail[8..] + tail[4..8] + tail[..4];
    assert precalc[..] == BytesOf(PreWords(t));
    TapBytesOf(t, precalc[..]);
    work.a0 := precalc[0..4];
    work.a1 := precalc[4..8];
    work.a2 := precalc[8..12];
    work.e0 := precalc[12..16];
    work.e1 := precalc[16..20];
    work.e2 := precalc[20..24];
  }

  lemma TapBytesOf(t: Taps, b: seq<byte>)
    requires |b| == 24 && b == BytesOf(PreWords(t))
    ensures b[0..4] == Store(t.a0) && b[4..8] == Store(t.a1) && b[8..12] == Store(t.a2)
    ensures b[12..16] == Store(t.e0) && b[16..20] == Store(t.e1) && b[20..24] == Store(t.e2)
  {
    hide Store, BytesOf;
    var ws := PreWords(t);
    BytesAt(ws, 0);
    BytesAt(ws, 1);
    BytesAt(ws, 2);
    BytesAt(ws, 3);
    BytesAt(ws, 4);
    BytesAt(ws, 5);
  }

  /** miner_gen_nonce2_work */
  method GenNonce2Work(sha: Sha, mw: MmWork, nonce2: word, work: Work)
    requires sha.State().Quiet() && mw.Valid() && work.Valid() && Apart(mw, work)
    modifies sha, sha.core, sha.dbl, mw.coinbase, mw.header, work, work.data, work.header
    ensures sha.State().Quiet() && mw.Valid() && work.Valid()
    ensures mw.View() == Gen(old(mw.View()), nonce2)
    ensures work.nonce2 == nonce2 && work.header[..] == mw.header[..]
    ensures work.data[..] == WorkMidstate(mw.header[..]) + WorkTail(mw.header[..])
    ensures var t := WorkTaps(mw.header[..]);
            work.a0 == Store(t.a0) && work.a1 == Store(t.a1) && work.a2 == Store(t.a2)
            && work.e0 == Store(t.e0) && work.e1 == Store(t.e1) && work.e2 == Store(t.e2)
  {
    hide Inv, CoinbaseHash, MerkleRoot, WorkMidstate, WorkTail, WorkTaps, Store, Flip, Le, Unit.Live, Unit.Valid;
    work.nonce2 := nonce2;
    PutRoot(sha, mw, nonce2);
    Copy(work.header, 0, mw.header, 0, 128);
    assert mw.header[0..128] == mw.header[..];
    MakeData(sha, mw, work);
    CalcPrepare(sha, work, mw.header[..]);
  }

  /** The root, every word byte-swapped, goes into the header. */
  method StoreRoot(mw: MmWork, root: array<byte>, ghost s: Job)
    requires mw.Valid() && mw.View() == s && root.Length == 32 && root != mw.header && root != mw.coinbase
    requires root[..] == MerkleRoot(CoinbaseHash(s), s.merkles)
    modifies mw.header
    ensures mw.Valid() && mw.View() == s.(header := Patch(s.header, s.mOff, HeaderRoot(s)))
  {
    hide CoinbaseHash, MerkleRoot, Flip;
    ghost var r := root[..];
    var swap := new byte[32];
    assert root[0..0 + 4 * 8] == r;
    FlipWords(swap, root, 0, 8, r);
    FlipLength(r, 8);
    assert swap[0..0 + 32] == Flip(r) == HeaderRoot(s);
    Copy(mw.header, mw.merkleOffset, swap, 0, 32);
  }

  method PutRoot(sha: Sha, mw: MmWork, nonce2: word)
    requires sha.State().Quiet() && mw.Valid()
    modifies sha, sha.core, sha.dbl, mw.coinbase, mw.header
    ensures sha.State().Quiet() && mw.Valid() && mw.View() == Gen(old(mw.View()), nonce2)
  {
    hide Inv, CoinbaseHash, MerkleRoot, Le, Flip, Unit.Live, Unit.Valid;
    ghost var u := sha.State();
    StoreNonce2(mw, nonce2);
    ghost var s := mw.View();
    var root := new byte[32];
    assert sha.State() == u;
    HashCoinbase(sha, mw, root);
    HashMerkles(sha, mw, root);
    assert mw.View() == s;
    StoreRoot(mw, root, s);
  }

  method MakeData(sha: Sha, mw: MmWork, work: Work)
    requires sha.State().Quiet() && mw.Valid() && work.Valid() && Apart(mw, work)
    modifies sha, sha.core, sha.dbl, work.data
    ensures sha.State().Quiet()
    ensures work.data[..] == WorkMidstate(mw.header[..]) + WorkTail(mw.header[..])
  {
    hide Inv, Flip, Digest, HeaderMidstate, Reverse, Unit.Live, Unit.Valid;
    CalcMidstate(sha, mw, work);
    ghost var u := sha.State();
    ghost var d := Flip(Digest(HeaderMidstate(mw.header[..])));
    FlipLength(Digest(HeaderMidstate(mw.header[..])), 8);
    assert work.data[..32] == d && work.data[32..] == mw.header[64..76] == mw.header[..][64..76];
    ReverseData(work);
    assert sha.State() == u;
  }
}
