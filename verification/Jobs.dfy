/** What a job and a nonce2 determine: the coinbase hash, the merkle root, the block header, the work sent to the
    chips and the verdict on a nonce. */
module Jobs {
  import opened Words
  import opened Fips180
  import opened Message
  import opened Bytes
  import opened ShaCore
  import opened ShaDriver

  const COINBASE_SIZE: nat := 6 * 1024

  /** The fields of struct mm_work that generation reads and writes. */
  datatype Job = Job(coinbase: seq<byte>, len: nat, off: nat, merkles: seq<seq<byte>>, mOff: nat, header: seq<byte>)
  {
    /** The coinbase is too long for its buffer: the buffer holds the midstate of its first blocks and the rest. */
    predicate Posthash() { len > COINBASE_SIZE }

    /** The part of the coinbase that is hashed from the midstate. */
    function PostLen(): int { len - off + off % 64 }

    /** Where nonce2 goes in the buffer. */
    function Slot(): nat { if Posthash() then off % 64 + 32 else off }

    predicate InRange() {
      && |coinbase| == COINBASE_SIZE && |header| == 128 && mOff + 32 <= 128
      && (forall m :: m in merkles ==> |m| == 32)
      && off + 4 <= len < 0x2000_0000
      && (Posthash() ==> 32 + PostLen() <= COINBASE_SIZE)
    }
  }

  /** nonce2 as it is written into the coinbase: least significant byte first. */
  function Le(n: word): (b: seq<byte>)
    ensures |b| == 4
  {
    Swap(Store(n))
  }

  function Stamp(j: Job, nonce2: word): Job
    requires j.InRange()
  {
    j.(coinbase := Patch(j.coinbase, j.Slot(), Le(nonce2)))
  }

  function CoinbaseHash(j: Job): (h: seq<byte>)
    requires j.InRange()
    ensures |h| == 32
  {
    if j.Posthash() then
      Sha256(Digest(Fold(Midstate(j.coinbase[..32]), WordsOf(j.coinbase[32..32 + j.PostLen()] + ShortPad(j.len)))))
    else Sha256(Sha256(j.coinbase[..j.len]))
  }

  function Midstate(b: seq<byte>): Hash
    requires |b| == 32
  {
    WordsLength(b);
    HashOf(WordsOf(b))
  }

  function MerkleRoot(leaf: seq<byte>, branch: seq<seq<byte>>): (root: seq<byte>)
    requires |leaf| == 32 && forall m :: m in branch ==> |m| == 32
    ensures |root| == 32
  {
    if |branch| == 0 then leaf
    else Sha256(Sha256(MerkleRoot(leaf, branch[..|branch| - 1]) + branch[|branch| - 1]))
  }

  function HeaderRoot(j: Job): (b: seq<byte>)
    requires j.InRange()
    ensures |b| == 32
  {
    var root := MerkleRoot(CoinbaseHash(j), j.merkles);
    FlipLength(root, 8);
    Flip(root)
  }

  /** The job after generating the work for nonce2. */
  function Gen(j: Job, nonce2: word): (k: Job)
    requires j.InRange()
    ensures k.InRange()
  {
    var s := Stamp(j, nonce2);
    s.(header := Patch(s.header, s.mOff, HeaderRoot(s)))
  }

  function GenAll(j: Job, nonces: seq<word>): (k: Job)
    requires j.InRange()
    ensures k.InRange()
  {
    if |nonces| == 0 then j else Gen(GenAll(j, nonces[..|nonces| - 1]), nonces[|nonces| - 1])
  }

  lemma GenOver(j: Job, a: word, b: word)
    requires j.InRange()
    ensures Gen(Gen(j, a), b) == Gen(j, b)
  {
    hide CoinbaseHash, MerkleRoot, Le, Patch, Flip;
    PatchOver(j.coinbase, j.Slot(), Le(a), Le(b));
    var s, t := Stamp(Gen(j, a), b), Stamp(j, b);
    assert s.coinbase == t.coinbase;
    SameHash(s, t);
    PatchOver(j.header, j.mOff, HeaderRoot(Stamp(j, a)), HeaderRoot(t));
  }

  lemma SameHash(s: Job, t: Job)
    requires s.InRange() && t == s.(header := t.header) && |t.header| == 128
    ensures t.InRange() && HeaderRoot(s) == HeaderRoot(t)
  {
    hide Sha256, Fold, MerkleRoot, Flip;
  }

  /** Works generated earlier, in any number and with any nonce2, leave no trace. */
  lemma {:induction false} HistoryIndependent(j: Job, nonces: seq<word>, nonce2: word)
    requires j.InRange()
    ensures Gen(GenAll(j, nonces), nonce2) == Gen(j, nonce2)
  {
    hide Gen;
    if |nonces| > 0 {
      var n := |nonces| - 1;
      GenOver(GenAll(j, nonces[..n]), nonces[n], nonce2);
      HistoryIndependent(j, nonces[..n], nonce2);
    }
  }

  /** If the buffer of a long coinbase starts with the midstate of its whole blocks before nonce2, the result is the
      double hash of the whole coinbase with nonce2 at its true offset. */
  lemma ResumeExact(j: Job, prefix: seq<byte>, nonce2: word)
    requires j.InRange() && j.len > COINBASE_SIZE && |prefix| == j.off - j.off % 64
    requires j.coinbase[..32] == Digest(Fold(IV, WordsOf(prefix)))
    ensures var whole := prefix + j.coinbase[32..32 + j.PostLen()];
            |whole| == j.len && CoinbaseHash(Stamp(j, nonce2)) == Sha256(Sha256(Patch(whole, j.off, Le(nonce2))))
  {
    hide WordsOf, Digest, Fold, Sha256, Le, ShortPad, Patch;
    var k, q := j.off % 64, j.off / 64;
    assert j.off == 64 * q + k;
    var n := j.PostLen();
    var rest, patched := j.coinbase[32..32 + n], Stamp(j, nonce2).coinbase[32..32 + n];
    PatchInside(j.coinbase, n, k, Le(nonce2));
    PatchBehind(prefix, rest, k, Le(nonce2));
    MidstateOfDigest(Fold(IV, WordsOf(prefix)));
    Resumes(prefix, q, patched);
  }

  /** A coinbase that fits its buffer is hashed as it is, with nonce2 at its offset. */
  lemma ShortExact(j: Job, nonce2: word)
    requires j.InRange() && j.len <= COINBASE_SIZE
    ensures CoinbaseHash(Stamp(j, nonce2)) == Sha256(Sha256(Patch(j.coinbase[..j.len], j.off, Le(nonce2))))
  {
    hide Sha256, Le;
    assert Patch(j.coinbase, j.off, Le(nonce2))[..j.len] == Patch(j.coinbase[..j.len], j.off, Le(nonce2));
  }

  lemma PatchInside(c: seq<byte>, n: nat, k: nat, b: seq<byte>)
    requires 32 + n <= |c| && k + |b| <= n
    ensures Patch(c, k + 32, b)[32..32 + n] == Patch(c[32..32 + n], k, b) && Patch(c, k + 32, b)[..32] == c[..32]
  {}

  lemma PatchBehind(prefix: seq<byte>, rest: seq<byte>, k: nat, b: seq<byte>)
    requires k + |b| <= |rest|
    ensures Patch(prefix + rest, |prefix| + k, b) == prefix + Patch(rest, k, b)
  {}

  lemma MidstateOfDigest(v: Hash)
    ensures Midstate(Digest(v)) == v
  {
    WordsOfBytes(v.Words());
  }

  // The merkle root.

  /** The tree of a block's transactions, by their hashes. */
  datatype Tree = Leaf(hash: seq<byte>) | Node(left: Tree, right: Tree)

  ghost predicate Hashes(t: Tree) {
    match t
    case Leaf(hash) => |hash| == 32
    case Node(left, right) => Hashes(left) && Hashes(right)
  }

  ghost function Root(t: Tree): (r: seq<byte>)
    requires Hashes(t)
    ensures |r| == 32
  {
    match t
    case Leaf(hash) => hash
    case Node(left, right) => Sha256(Sha256(Root(left) + Root(right)))
  }

  /** The hash of the coinbase, which is the first transaction. */
  ghost function FirstLeaf(t: Tree): seq<byte> {
    match t
    case Leaf(hash) => hash
    case Node(left, _) => FirstLeaf(left)
  }

  /** What the host sends of the rest: the right siblings on the way up from it. */
  ghost function Branches(t: Tree): seq<seq<byte>>
    requires Hashes(t)
  {
    match t
    case Leaf(_) => []
    case Node(left, right) => Branches(left) + [Root(right)]
  }

  /** Folding the branches into the hash of the coinbase gives the root of the tree. */
  lemma {:induction false} RootOfTree(t: Tree)
    requires Hashes(t)
    ensures |FirstLeaf(t)| == 32 && forall m :: m in Branches(t) ==> |m| == 32
    ensures MerkleRoot(FirstLeaf(t), Branches(t)) == Root(t)
  {
    hide Sha256;
    match t {
      case Leaf(_) =>
      case Node(left, right) =>
        RootOfTree(left);
        assert Branches(t)[..|Branches(t)| - 1] == Branches(left);
    }
  }

  lemma SwapTwice(w: seq<byte>)
    requires |w| == 4
    ensures Swap(Swap(w)) == w
  {}

  lemma {:induction false} FlipTwice(b: seq<byte>, n: nat)
    requires |b| == 4 * n
    ensures |Flip(b)| == 4 * n && Flip(Flip(b)) == b
  {
    hide Swap;
    FlipLength(b, n);
    if n > 0 {
      FlipTwice(b[4..], n - 1);
      SwapTwice(b[..4]);
      assert Flip(b)[..4] == Swap(b[..4]) && Flip(b)[4..] == Flip(b[4..]);
    }
  }

  lemma {:induction false} FlipSlice(b: seq<byte>, k: nat, n: nat)
    requires 4 * k + 4 * n <= |b|
    ensures 4 * k + 4 * n <= |Flip(b)| && Flip(b)[4 * k..4 * k + 4 * n] == Flip(b[4 * k..4 * k + 4 * n])
    decreases n
  {
    hide Flip, Swap;
    var c := b[4 * k..4 * k + 4 * n];
    FlipLength(c, n);
    if n == 0 {
      assert Flip([]) == [] by { FlipLength([], 0); }
      if k > 0 { FlipWordAt(b, k - 1); }
    } else {
      FlipSlice(b, k + 1, n - 1);
      FlipWordAt(b, k);
      FlipCons(c);
      assert c[..4] == b[4 * k..4 * k + 4] && c[4..] == b[4 * (k + 1)..4 * (k + 1) + 4 * (n - 1)];
      var f := Flip(b);
      assert f[4 * k..4 * k + 4 * n] == f[4 * k..4 * k + 4] + f[4 * (k + 1)..4 * (k + 1) + 4 * (n - 1)];
    }
  }

  /** In the message that is hashed the root stands unflipped at the merkle offset, which is 36 in a block header. */
  lemma RootInMessage(j: Job, nonce2: word, nonce: word, k: nat)
    requires j.InRange() && j.mOff == 4 * k && j.mOff + 32 <= 76
    ensures var s := Stamp(j, nonce2);
            Message80(Gen(j, nonce2).header, nonce)[j.mOff..j.mOff + 32] == MerkleRoot(CoinbaseHash(s), s.merkles)
  {
    hide Flip, CoinbaseHash, MerkleRoot, Le, Patch;
    var s := Stamp(j, nonce2);
    var root, header := MerkleRoot(CoinbaseHash(s), s.merkles), Gen(j, nonce2).header;
    FlipTwice(root, 8);
    var h := Patch(header[..80], 76, Le(nonce));
    PatchedAt(s.header, j.mOff, Flip(root));
    PatchKeeps(header, Le(nonce), j.mOff);
    FlipSlice(h, k, 8);
  }

  lemma PatchedAt(s: seq<byte>, off: nat, b: seq<byte>)
    requires off + |b| <= |s|
    ensures Patch(s, off, b)[off..off + |b|] == b
  {}

  lemma PatchKeeps(header: seq<byte>, b: seq<byte>, off: nat)
    requires |header| == 128 && |b| == 4 && off + 32 <= 76
    ensures Patch(header[..80], 76, b)[off..off + 32] == header[off..off + 32]
  {}

  // The work sent to the chips.

  /** The midstate of a header: the compression of its first 64 bytes, each word byte-swapped. */
  function HeaderMidstate(header: seq<byte>): Hash
    requires |header| >= 64
  {
    Fold(IV, WordsOf(Flip(header[..64])))
  }

  /** The first 32 bytes of the data sent. */
  function WorkMidstate(header: seq<byte>): (d: seq<byte>)
    requires |header| >= 64
    ensures |d| == 32
  {
    var m := Digest(HeaderMidstate(header));
    FlipLength(m, 8);
    Reverse(Flip(m))
  }

  /** The other 12. */
  function WorkTail(header: seq<byte>): (d: seq<byte>)
    requires |header| >= 76
    ensures |d| == 12
  {
    Reverse(header[64..76])
  }

  /** What sha256_precalc makes of them. */
  function WorkTaps(header: seq<byte>): Taps
    requires |header| >= 76
  {
    var t := WorkTail(header);
    OneBlock(t[8..] + t[4..8] + t[..4]);
    FirstRounds(HashOf(LoadsDown(WorkMidstate(header))), WordsOf(t[8..] + t[4..8] + t[..4] + ShortPad(12)))
  }

  /** The message test_nonce hashes. */
  function Message80(header: seq<byte>, nonce: word): (m: seq<byte>)
    requires |header| >= 80
    ensures |m| == 80
  {
    var h := Patch(header[..80], 76, Le(nonce));
    FlipLength(h, 20);
    Flip(h)
  }

  lemma Reversals(b: seq<byte>, k: nat)
    requires |b| == 32 && k < 8
    ensures |Flip(b)| == 32 && Reverse(Flip(b))[28 - 4 * k..32 - 4 * k] == b[4 * k..4 * k + 4]
  {
    FlipLength(b, 8);
    FlipWordAt(b, k);
    var f := Flip(b);
    var x, w := f[4 * k..4 * k + 4], Reverse(f)[28 - 4 * k..32 - 4 * k];
    assert w[0] == x[3] && w[1] == x[2] && w[2] == x[1] && w[3] == x[0];
  }

  /** The word-wise loads of the driver undo the reversal of the swapped midstate. */
  lemma MidstateCancels(v: Hash)
    ensures |Flip(Digest(v))| == 32 && HashOf(LoadsDown(Reverse(Flip(Digest(v))))) == v
  {
    hide Flip, Load, Store, BytesOf, WordsOf;
    var b := Digest(v);
    FlipLength(b, 8);
    WordsOfBytes(v.Words());
    var ws := LoadsDown(Reverse(Flip(b)));
    forall k: nat | k < 8
      ensures ws[k] == v.Words()[k]
    {
      Reversals(b, k);
      WordAt(b, k);
    }
  }

  /** Reversing the three words and reading them in reverse order swaps each of them. */
  lemma TailCancels(h: seq<byte>)
    requires |h| == 12
    ensures var t := Reverse(h); t[8..] + t[4..8] + t[..4] == Flip(h)
  {
    hide Swap;
    ReverseParts(h);
    FlipThree(h);
  }

  lemma ReverseParts(h: seq<byte>)
    requires |h| == 12
    ensures var t := Reverse(h); t[8..] == Swap(h[..4]) && t[4..8] == Swap(h[4..8]) && t[..4] == Swap(h[8..])
  {}

  lemma FlipThree(h: seq<byte>)
    requires |h| == 12
    ensures Flip(h) == Swap(h[..4]) + Swap(h[4..8]) + Swap(h[8..])
  {
    hide Swap;
    var g, f := h[4..], h[8..];
    assert g[..4] == h[4..8] && g[4..] == f && f[..4] == f;
    assert Flip(h) == Swap(h[..4]) + Flip(g);
    assert Flip(g) == Swap(h[4..8]) + Flip(f);
    assert Flip(f) == Swap(f) + Flip(f[4..]) && Flip(f[4..]) == [];
  }

  lemma FirstThreeWords(v: Hash, m: seq<word>, n: seq<word>)
    requires |m| == 16 && |n| == 16 && m[..3] == n[..3]
    ensures FirstRounds(v, m) == FirstRounds(v, n)
  {
    hide Round, K;
    assert forall t: nat :: t < 3 ==> m[t] == m[..3][t] && n[t] == n[..3][t];
    forall t: nat | t < 3
      ensures Schedule(m, t) == Schedule(n, t)
    {}
    assert Rounds(v, m, 1) == Rounds(v, n, 1);
    assert Rounds(v, m, 2) == Rounds(v, n, 2);
  }

  lemma NonceWord(nonce: word)
    ensures WordsOf(Flip(Le(nonce))) == [nonce]
  {
    hide Store, Load;
    var c := Le(nonce);
    FlipCons(c);
    assert c[..4] == c && Flip(c[4..]) == [];
    assert Swap(c) == Store(nonce) by { SwapTwice(Store(nonce)); }
    assert Flip(c) == Store(nonce);
    WordsOfStore(nonce);
  }

  /** The two blocks of the padded message, and what the nonce cannot reach. */
  lemma MessageBlocks(header: seq<byte>, nonce: word)
    requires |header| >= 80
    ensures var ws := WordsOf(Pad(Message80(header, nonce)));
            |ws| == 32 && ws[..16] == WordsOf(Flip(header[..64])) && ws[16..19] == WordsOf(Flip(header[64..76])) && ws[19] == nonce
  {
    hide WordsOf, Flip, Le;
    var m := Message80(header, nonce);
    var a, b, c := header[..64], header[64..76], Le(nonce);
    var h := Patch(header[..80], 76, c);
    assert h == a + (b + c);
    FlipAppend(a, 16, b + c);
    FlipAppend(b, 3, c);
    FlipLength(a, 16);
    FlipLength(b, 3);
    assert Gap(80) == 39;
    var last := [0x80] + Zeros(39) + Be32(0) + Be32(640);
    var rest := Flip(c) + last;
    assert Pad(m) == Flip(a) + (Flip(b) + rest);
    WordsOfAppend(Flip(a), Flip(b) + rest);
    WordsOfAppend(Flip(b), rest);
    NonceWord(nonce);
    WordsOfAppend(Flip(c), last);
    WordsLength(Flip(a));
    WordsLength(Flip(b));
    WordsLength(Pad(m));
  }

  /** The precomputed state sent with a work is the state after rounds 0, 1 and 2 of the second block of the message
      test_nonce hashes, started from the hash of its first block, whatever the nonce. */
  lemma PrecalcExact(header: seq<byte>, nonce: word)
    requires |header| >= 80
    ensures var ws := WordsOf(Pad(Message80(header, nonce)));
            |ws| == 32 && HeaderMidstate(header) == Fold(IV, ws[..16])
            && WorkTaps(header) == FirstRounds(Fold(IV, ws[..16]), ws[16..])
  {
    hide WordsOf, Flip, Fold, Pad, Message80, FirstRounds, Digest, LoadsDown, ShortPad;
    var ws := WordsOf(Pad(Message80(header, nonce)));
    MessageBlocks(header, nonce);
    MidstateCancels(HeaderMidstate(header));
    var tail := header[64..76];
    TailCancels(tail);
    FlipLength(tail, 3);
    OneBlock(Flip(tail));
    var m := WordsOf(Flip(tail) + ShortPad(12));
    WordsOfAppend(Flip(tail), ShortPad(12));
    WordsLength(Flip(tail));
    assert m[..3] == WordsOf(Flip(tail));
    assert ws[16..][..3] == ws[16..19];
    FirstThreeWords(Fold(IV, ws[..16]), m, ws[16..]);
  }
}
