/** firmware/sha256.c: the driver of the SHA unit. */
module ShaDriver {
  import opened Words
  import opened Bytes
  import opened Fips180
  import opened ShaCore
  import opened ShaUnit
  import opened Message

  /** The unit is between blocks; it was seeded with seed and has taken ws. */
  ghost predicate Between(u: Unit, seed: Hash, ws: seq<word>) {
    u.Quiet() && u.hist == Hist(true, seed, ws)
  }

  /** Inside a block, or ready to begin one. */
  ghost predicate Hungry(u: Unit, seed: Hash, ws: seq<word>, round: nat) {
    u.Live() && !u.dbl.start && !u.core.done && u.core.round == round && u.hist == Hist(true, seed, ws)
  }

  /** A whole block is in and its rounds are running. */
  ghost predicate Full(u: Unit, seed: Hash, ws: seq<word>) {
    u.Live() && !u.dbl.start && u.hist == Hist(true, seed, ws) && u.Coming()
  }

  lemma BetweenIsHungry(u: Unit, seed: Hash, ws: seq<word>)
    requires Between(u, seed, ws)
    ensures Hungry(u, seed, ws, 0)
  {
    hide Inv;
  }

  /** The bus-visible registers writing data leaves alone. */
  ghost predicate CountersKept(u: Unit, w: Unit) {
    w.ctl.hx == u.ctl.hx && w.ctl.hashCnt == u.ctl.hashCnt && w.ctl.preCnt == u.ctl.preCnt
  }

  method PutWord(sha: Sha, d: word, ghost seed: Hash, ghost ws: seq<word>, ghost round: nat)
    requires round < 16 && Hungry(sha.State(), seed, ws, round)
    modifies sha, sha.core, sha.dbl
    ensures CountersKept(old(sha.State()), sha.State())
    ensures if round < 15 then Hungry(sha.State(), seed, ws + [d], round + 1) else Full(sha.State(), seed, ws + [d])
  {
    hide Inv, NextUnit;
    DinTaken(sha.State(), d);
    sha.Write(WrDin(d));
  }

  method WaitBlock(sha: Sha, ghost seed: Hash, ghost ws: seq<word>)
    requires Full(sha.State(), seed, ws)
    modifies sha, sha.core, sha.dbl
    ensures CountersKept(old(sha.State()), sha.State())
    ensures Between(sha.State(), seed, ws) && sha.ctl.regDone
  {
    hide Inv, NextUnit;
    sha.WaitDone();
  }

  /** write_block: 16 big-endian words, then wait for DONE. */
  method WriteBlock(sha: Sha, block: array<byte>, off: nat, ghost data: seq<byte>, ghost seed: Hash, ghost ws: seq<word>)
    requires off + 64 <= block.Length && block[off..off + 64] == data
    requires Between(sha.State(), seed, ws)
    modifies sha, sha.core, sha.dbl
    ensures Between(sha.State(), seed, ws + WordsOf(data))
    ensures sha.ctl.regDone && CountersKept(old(sha.State()), sha.State())
  {
    hide Inv, NextUnit, Load, Hungry, Full, Between, Store, WordsOf, Unit.Quiet, Unit.Live, Unit.Valid, Unit.Coming;
    BetweenIsHungry(sha.State(), seed, ws);
    ghost var u, sofar := sha.State(), ws;
    var i := 0;
    NoWords();
    assert ws + [] == ws && data[..0] == [];
    while i < 64
      invariant i % 4 == 0 && i <= 64
      invariant block[off..off + 64] == data && sofar == ws + WordsOf(data[..i])
      invariant i < 64 ==> Hungry(sha.State(), seed, sofar, i / 4)
      invariant i == 64 ==> Between(sha.State(), seed, sofar) && sha.ctl.regDone
      invariant CountersKept(u, sha.State())
    {
      var tmp := Load(block[off + i..off + i + 4]);
      SliceOfSlice(block[..], off, 64, i, i + 4);
      WordsOfNext(data, i);
      PutWord(sha, tmp, seed, sofar, i / 4);
      sofar := sofar + [tmp];
      if i == 60 {
        WaitBlock(sha, seed, sofar);
      }
      i := i + 4;
    }
    assert data[..64] == data;
  }

  lemma WholeBlocks(count: nat)
    ensures count / 64 * 64 + count % 64 == count && count / 64 * 64 % 4 == 0
  {
    var q := count / 64;
    assert q * 64 == 4 * (16 * q);
  }

  lemma NoWords()
    ensures WordsOf([]) == []
  {}

  lemma WordsOfNext(data: seq<byte>, i: nat)
    requires i % 4 == 0 && i + 4 <= |data|
    ensures data[..0] == [] && WordsOf(data[..i + 4]) == WordsOf(data[..i]) + [Load(data[i..i + 4])]
  {
    hide Load;
    WordsOfAppend(data[..i], data[i..i + 4]);
    assert data[..i] + data[i..i + 4] == data[..i + 4];
    var one := data[i..i + 4];
    assert one[..4] == one && WordsOf(one[4..]) == [];
  }

  /** sha256_init: the initial value into SHA256_Hx, then into the core. */
  method Init(sha: Sha)
    requires sha.State().Quiet()
    modifies sha, sha.core, sha.dbl
    ensures Between(sha.State(), IV, []) && sha.ctl.hx == IV && sha.ctl.hashCnt == 0 && sha.ctl.preCnt == 0
    ensures sha.dbl.hashR == old(sha.dbl.hashR)
  {
    Command(sha, true);
    Command(sha, false);
  }

  /** A write of CMD_RST or CMD_INIT. */
  method Command(sha: Sha, rst: bool)
    requires sha.State().Quiet()
    modifies sha, sha.core, sha.dbl
    ensures sha.State().Quiet() && sha.dbl.hashR == old(sha.dbl.hashR)
    ensures rst ==> sha.ctl.hx == IV && sha.core.hist == old(sha.core.hist)
    ensures !rst ==> Between(sha.State(), sha.ctl.hx, []) && sha.ctl.hx == old(sha.ctl.hx) && sha.ctl.hashCnt == 0 && sha.ctl.preCnt == 0
  {
    hide Inv, NextUnit;
    RstSetsIv(sha.State());
    InitLoads(sha.State());
    sha.Write(if rst then WrCmd(false, true, false) else WrCmd(true, false, false));
  }

  /** sha256_update: the whole blocks of the input. */
  method Update(sha: Sha, input: array<byte>, off: nat, count: nat, ghost data: seq<byte>, ghost seed: Hash, ghost ws: seq<word>)
    requires off + count / 64 * 64 <= input.Length && input[off..off + count / 64 * 64] == data
    requires Between(sha.State(), seed, ws)
    modifies sha, sha.core, sha.dbl
    ensures Between(sha.State(), seed, ws + WordsOf(data))
    ensures CountersKept(old(sha.State()), sha.State())
  {
    hide Inv, NextUnit, Between, WordsOf, Unit.Quiet, Unit.Live, Unit.Valid;
    var lenBlocks := count / 64;
    ghost var u, sofar := sha.State(), ws;
    NoWords();
    assert ws + [] == ws;
    if lenBlocks != 0 {
      var i := 0;
      ghost var k := 0;
      while i < lenBlocks * 64
        invariant i == 64 * k && k <= lenBlocks && |data| == 64 * lenBlocks
        invariant input[off..off + |data|] == data && sofar == ws + WordsOf(data[..i])
        invariant Between(sha.State(), seed, sofar)
        invariant CountersKept(u, sha.State())
      {
        SliceOfSlice(input[..], off, |data|, i, i + 64);
        WordsOfBlock(data, k);
        WriteBlock(sha, input, off + i, data[i..i + 64], seed, sofar);
        sofar := sofar + WordsOf(data[i..i + 64]);
        i, k := i + 64, k + 1;
      }
    }
    assert data[..|data|] == data;
  }

  lemma WordsOfBlock(data: seq<byte>, k: nat)
    requires 64 * k + 64 <= |data|
    ensures WordsOf(data[..64 * k + 64]) == WordsOf(data[..64 * k]) + WordsOf(data[64 * k..64 * k + 64])
  {
    hide WordsOf;
    Quarters(16 * k);
    WordsOfAppend(data[..64 * k], data[64 * k..64 * k + 64]);
    assert data[..64 * k] + data[64 * k..64 * k + 64] == data[..64 * k + 64];
  }

  method LengthBytes(bits: nat) returns (b: seq<byte>)
    requires bits < 0x1_0000_0000
    ensures |b| == 4 && b == Be32(bits)
  {
    b := [(bits / 0x100_0000 % 256) as byte, (bits / 0x1_0000 % 256) as byte, (bits / 0x100 % 256) as byte, (bits % 256) as byte];
  }

  /** The 32-bit length field the firmware writes: count * 8 in unsigned arithmetic. */
  method PutLength(block: array<byte>, count: nat)
    requires block.Length == 64
    modifies block
    ensures block[..] == old(block[..60]) + Be32(8 * count % 0x1_0000_0000)
  {
    var bits := count * 8 % 0x1_0000_0000;
    var b := LengthBytes(bits);
    hide Be32;
    block[60], block[61], block[62], block[63] := b[0], b[1], b[2], b[3];
  }

  /** The remainder of the message and the end mark in an otherwise zero block. */
  method MarkedBlock(input: array<byte>, off: nat, rem: nat) returns (block: array<byte>)
    requires off + rem <= input.Length && rem < 64
    ensures fresh(block) && block.Length == 64
    ensures block[..] == input[off..off + rem] + [0x80] + Zeros(63 - rem)
  {
    block := new byte[64](_ => 0);
    for i := 0 to rem
      invariant block[..i] == input[off..off + i] && block[i..] == Zeros(64 - i)
    {
      block[i] := input[off + i];
    }
    block[rem] := 0x80;
  }

  /** The last one or two blocks of sha256_padding. */
  method LastBlocks(input: array<byte>, off: nat, count: nat) returns (block: array<byte>, block1: array<byte>, two: bool)
    requires off + count % 64 <= input.Length
    ensures fresh(block) && fresh(block1) && block.Length == 64 && block1.Length == 64
    ensures (if two then block[..] + block1[..] else block[..]) == input[off..off + count % 64] + ShortPad(count)
  {
    hide Be32, ShortPad, Gap;
    block1 := new byte[64](_ => 0);
    assert block1[..] == Zeros(64);
    var rem := count % 64;
    block := MarkedBlock(input, off, rem);
    PadSplits(input[off..off + rem], count);
    two := 64 - 9 < rem;
    if two {
      PutLength(block1, count);
    } else {
      PutLength(block, count);
    }
  }

  lemma PadSplits(tail: seq<byte>, count: nat)
    requires |tail| == count % 64
    ensures var len := Be32(8 * count % 0x1_0000_0000);
            if |tail| > 55 then tail + [0x80] + Zeros(63 - |tail|) + (Zeros(64)[..60] + len) == tail + ShortPad(count)
            else (tail + [0x80] + Zeros(63 - |tail|))[..60] + len == tail + ShortPad(count)
  {
    hide Be32;
    if |tail| > 55 {
      assert Zeros(63 - |tail|) + Zeros(64)[..60] == Zeros(Gap(count) + 4);
    } else {
      assert (tail + [0x80] + Zeros(63 - |tail|))[..60] == tail + [0x80] + Zeros(Gap(count) + 4);
    }
  }

  /** sha256_padding: the remainder of the message, the end mark and the length, in one block or two. */
  method Padding(sha: Sha, input: array<byte>, off: nat, count: nat, ghost rest: seq<byte>, ghost seed: Hash, ghost ws: seq<word>)
    requires off + count % 64 <= input.Length && input[off..off + count % 64] == rest
    requires Between(sha.State(), seed, ws)
    modifies sha, sha.core, sha.dbl
    ensures Between(sha.State(), seed, ws + WordsOf(rest + ShortPad(count)))
    ensures sha.ctl.regDone && CountersKept(old(sha.State()), sha.State())
  {
    hide Inv, NextUnit, Between, WordsOf, Unit.Quiet, Unit.Live, Unit.Valid, ShortPad;
    ghost var u := sha.State();
    var block, block1, two := LastBlocks(input, off, count);
    assert sha.State() == u;
    ghost var b, b1 := block[..], block1[..];
    assert block[0..0 + 64] == b && block1[0..0 + 64] == b1;
    WriteBlock(sha, block, 0, b, seed, ws);
    if two {
      WriteBlock(sha, block1, 0, b1, seed, ws + WordsOf(b));
      WordsOfAppend(b, b1);
      assert ws + WordsOf(b) + WordsOf(b1) == ws + (WordsOf(b) + WordsOf(b1));
    }
  }

  lemma StoredNone(was: seq<byte>, ws: seq<word>)
    ensures was == BytesOf(ws[..0]) + was[0..]
  {}

  lemma StoredAll(v: Hash)
    ensures BytesOf(v.Words()[..8]) == Digest(v)
  {
    assert v.Words()[..8] == v.Words();
  }

  /** The next digest word is read from the unit and stored big-endian at i. */
  method NextHash(sha: Sha, state: array<byte>, i: nat, ghost seed: Hash, ghost ws: seq<word>, ghost v: Hash, ghost was: seq<byte>, ghost k: nat)
    requires Between(sha.State(), seed, ws) && sha.core.v == v && k < 8 && sha.ctl.hashCnt == k
    requires i == 4 * k && i + 4 <= state.Length == |was| && state[..] == BytesOf(v.Words()[..k]) + was[i..]
    modifies sha, sha.core, sha.dbl, state
    ensures Between(sha.State(), seed, ws) && sha.core.v == v && sha.ctl.hashCnt == if k + 1 < 8 then k + 1 else 0
    ensures state[..] == BytesOf(v.Words()[..k + 1]) + was[i + 4..]
  {
    hide Inv, NextUnit, Between, Fold, Store, BytesOf, Hash.Words, Unit.Live, Unit.Valid, Unit.Quiet;
    var tmp := ReadHash(sha, seed, ws);
    StoreNext(state, i, tmp, v.Words(), was, k);
  }

  /** sha256_final: eight words of the digest, big-endian, into the first 32 bytes of state. */
  method Final(sha: Sha, state: array<byte>, ghost seed: Hash, ghost ws: seq<word>)
    requires state.Length >= 32
    requires Between(sha.State(), seed, ws) && sha.ctl.hashCnt == 0
    modifies sha, sha.core, sha.dbl, state
    ensures state[..] == Digest(Fold(seed, ws)) + old(state[32..])
    ensures Between(sha.State(), seed, ws) && sha.ctl.hashCnt == 0
  {
    hide Inv, NextUnit, Between, Fold, Store, BytesOf, Hash.Words, Unit.Live, Unit.Valid, Unit.Quiet;
    ghost var v, was, rest := sha.core.v, state[..], state[32..];
    assert was[32..] == rest;
    Between0(sha.State(), seed, ws);
    var i := 0;
    ghost var k := 0;
    StoredNone(was, v.Words());
    while i < 32
      invariant i == 4 * k && k <= 8
      invariant Between(sha.State(), seed, ws) && sha.core.v == v && sha.ctl.hashCnt == if k < 8 then k else 0
      invariant state[..] == BytesOf(v.Words()[..k]) + was[i..]
    {
      NextHash(sha, state, i, seed, ws, v, was, k);
      i := i + 4;
      k := k + 1;
    }
    StoredAll(v);
  }

  lemma Between0(u: Unit, seed: Hash, ws: seq<word>)
    requires Between(u, seed, ws)
    ensures u.core.v == Fold(seed, ws)
  {
    hide Fold, Tracks;
    InvHolds(u.core, u.hist);
  }

  lemma BytesOfCons(ws: seq<word>)
    requires |ws| > 0
    ensures BytesOf(ws) == Store(ws[0]) + BytesOf(ws[1..])
  {}

  lemma {:induction false} BytesOfAppend(a: seq<word>, b: seq<word>)
    ensures BytesOf(a + b) == BytesOf(a) + BytesOf(b)
  {
    hide Store;
    if |a| == 0 {
      assert a + b == b;
    } else {
      BytesOfCons(a);
      BytesOfCons(a + b);
      hide BytesOf;
      BytesOfAppend(a[1..], b);
      assert (a + b)[0] == a[0] && (a + b)[1..] == a[1..] + b;
      assert Store(a[0]) + (BytesOf(a[1..]) + BytesOf(b)) == (Store(a[0]) + BytesOf(a[1..])) + BytesOf(b);
    }
  }

  lemma BytesOfNext(ws: seq<word>, k: nat)
    requires k < |ws|
    ensures BytesOf(ws[..k + 1]) == BytesOf(ws[..k]) + Store(ws[k])
  {
    BytesOfAppend(ws[..k], [ws[k]]);
    assert ws[..k + 1] == ws[..k] + [ws[k]];
    assert [ws[k]][1..] == [] && BytesOf([ws[k]]) == Store(ws[k]) + BytesOf([]);
  }

  /** The word tmp goes into the four bytes at i; the CPU is big-endian. */
  method StoreAt(state: array<byte>, i: nat, tmp: word)
    requires i + 4 <= state.Length
    modifies state
    ensures state[..] == old(state[..i]) + Store(tmp) + old(state[i + 4..])
  {
    var b := Store(tmp);
    state[i], state[i + 1], state[i + 2], state[i + 3] := b[0], b[1], b[2], b[3];
  }

  /** The next word of ws goes behind those already stored. */
  method StoreNext(state: array<byte>, i: nat, tmp: word, ghost ws: seq<word>, ghost was: seq<byte>, ghost k: nat)
    requires i == 4 * k && i + 4 <= state.Length == |was| && k < |ws| && tmp == ws[k]
    requires state[..] == BytesOf(ws[..k]) + was[i..]
    modifies state
    ensures state[..] == BytesOf(ws[..k + 1]) + was[i + 4..]
  {
    hide Store, BytesOf;
    BytesOfNext(ws, k);
    BytesLength(ws[..k]);
    PatchNext(state[..], BytesOf(ws[..k]), was, i, Store(tmp));
    StoreAt(state, i, tmp);
  }

  lemma {:induction false} BytesLength(ws: seq<word>)
    ensures |BytesOf(ws)| == 4 * |ws|
  {
    hide Store;
    if |ws| > 0 {
      BytesLength(ws[1..]);
    }
  }

  /** readl of the hash register. */
  method ReadHash(sha: Sha, ghost seed: Hash, ghost ws: seq<word>) returns (d: word)
    requires Between(sha.State(), seed, ws)
    modifies sha, sha.core, sha.dbl
    ensures Between(sha.State(), seed, ws) && sha.core.v == old(sha.core.v)
    ensures old(sha.ctl.hashCnt) < 8 && d == old(sha.core.v).Words()[old(sha.ctl.hashCnt)]
    ensures sha.ctl.hashCnt == (old(sha.ctl.hashCnt) + 1) % 8
  {
    hide Inv, NextUnit, Unit.DatO;
    ReadsAnswer(sha.State(), RdHash);
    d := sha.Read(RdHash);
  }

  /** readl of the pre register. */
  method ReadPre(sha: Sha, ghost seed: Hash, ghost ws: seq<word>) returns (d: word)
    requires Between(sha.State(), seed, ws) && sha.ctl.preCnt < 6
    modifies sha, sha.core, sha.dbl
    ensures Between(sha.State(), seed, ws) && sha.core.taps == old(sha.core.taps)
    ensures |PreWords(old(sha.core.taps))| == 6 && d == PreWords(old(sha.core.taps))[old(sha.ctl.preCnt)]
    ensures sha.ctl.preCnt == old(sha.ctl.preCnt) + 1
  {
    hide Inv, NextUnit, Unit.DatO;
    ReadsAnswer(sha.State(), RdPre);
    d := sha.Read(RdPre);
  }

  lemma TapsStored(now: seq<byte>, was: seq<byte>, t: Taps)
    requires |PreWords(t)| == 6 && |was| == 24 && now == BytesOf(PreWords(t)[..6]) + was[24..]
    ensures now == BytesOf(PreWords(t))
  {
    hide BytesOf, PreWords;
    assert PreWords(t)[..6] == PreWords(t) && was[24..] == [];
  }

  /** The next tap is read from the unit and stored big-endian at i. */
  method NextPre(sha: Sha, state: array<byte>, i: nat, ghost seed: Hash, ghost ws: seq<word>, ghost t: Taps, ghost was: seq<byte>, ghost k: nat)
    requires Between(sha.State(), seed, ws) && sha.core.taps == t && k < |PreWords(t)| == 6 && sha.ctl.preCnt == k
    requires i == 4 * k && i + 4 <= state.Length == |was| && state[..] == BytesOf(PreWords(t)[..k]) + was[i..]
    modifies sha, sha.core, sha.dbl, state
    ensures Between(sha.State(), seed, ws) && sha.core.taps == t && sha.ctl.preCnt == k + 1
    ensures state[..] == BytesOf(PreWords(t)[..k + 1]) + was[i + 4..]
  {
    hide Inv, NextUnit, Between, Fold, Store, BytesOf, PreWords, Unit.Live, Unit.Valid, Unit.Quiet;
    var tmp := ReadPre(sha, seed, ws);
    StoreNext(state, i, tmp, PreWords(t), was, k);
  }

  /** sha256_precalc_final: the six taps, big-endian. */
  method PrecalcFinal(sha: Sha, state: array<byte>, ghost seed: Hash, ghost ws: seq<word>)
    requires state.Length == 24
    requires Between(sha.State(), seed, ws) && sha.ctl.preCnt == 0
    modifies sha, sha.core, sha.dbl, state
    ensures state[..] == BytesOf(PreWords(old(sha.core.taps)))
    ensures Between(sha.State(), seed, ws)
  {
    hide Inv, NextUnit, Between, Fold, Store, BytesOf, PreWords, Unit.Live, Unit.Valid, Unit.Quiet;
    ghost var t, was := sha.core.taps, state[..];
    var i := 0;
    ghost var k := 0;
    PreWordsLength(t);
    StoredNone(was, PreWords(t));
    while i < 24
      invariant i == 4 * k && k <= 6
      invariant Between(sha.State(), seed, ws) && sha.core.taps == t && sha.ctl.preCnt == k
      invariant state[..] == BytesOf(PreWords(t)[..k]) + was[i..]
    {
      NextPre(sha, state, i, seed, ws, t, was, k);
      i := i + 4;
      k := k + 1;
    }
    TapsStored(state[..], was, t);
  }

  lemma PreWordsLength(t: Taps)
    ensures |PreWords(t)| == 6
  {}

  /** sha256_update and sha256_padding on the count bytes at off, of which the first whole blocks and the
      remainder are hashed; total is the length written into the padding. */
  method Absorb(sha: Sha, input: array<byte>, off: nat, count: nat, total: nat, ghost data: seq<byte>, ghost seed: Hash)
    requires off + count <= input.Length && input[off..off + count] == data && total % 64 == count % 64
    requires Between(sha.State(), seed, [])
    modifies sha, sha.core, sha.dbl
    ensures Between(sha.State(), seed, WordsOf(data + ShortPad(total)))
    ensures sha.ctl.regDone && CountersKept(old(sha.State()), sha.State())
  {
    hide Inv, NextUnit, Between, WordsOf, ShortPad, Unit.Quiet, Unit.Live, Unit.Valid;
    var n := count / 64 * 64;
    ghost var head, rest := data[..n], data[n..];
    WholeBlocks(count);
    SliceOfSlice(input[..], off, count, 0, n);
    SliceOfSlice(input[..], off, count, n, count);
    Update(sha, input, off, count, head, seed, []);
    assert [] + WordsOf(head) == WordsOf(head);
    Padding(sha, input, off + n, total, rest, seed, WordsOf(head));
    WordsOfParts(head, rest, ShortPad(total));
    assert head + rest == data;
  }

  lemma WordsOfParts(head: seq<byte>, rest: seq<byte>, pad: seq<byte>)
    requires |head| % 4 == 0
    ensures WordsOf(head) + WordsOf(rest + pad) == WordsOf(head + rest + pad)
  {
    hide WordsOf;
    WordsOfAppend(head, rest + pad);
    assert head + (rest + pad) == head + rest + pad;
  }

  /** The first hash for every length the signed loop counters can hold. */
  ghost function FirmwareSha256(m: seq<byte>): (d: seq<byte>)
  {
    Digest(Fold(IV, WordsOf(m + ShortPad(|m|))))
  }

  /** sha256 */
  method Sha256Of(sha: Sha, input: array<byte>, off: nat, count: nat, state: array<byte>)
    requires sha.State().Quiet() && state.Length >= 32
    requires off + count <= input.Length && count < 0x8000_0000
    modifies sha, sha.core, sha.dbl, state
    ensures sha.State().Quiet()
    ensures state[..] == FirmwareSha256(old(input[off..off + count])) + old(state[32..])
    ensures count < 0x2000_0000 ==> state[..32] == Sha256(old(input[off..off + count]))
  {
    hide Inv, NextUnit, WordsOf, ShortPad, Pad, Fold, Digest;
    ghost var m := input[off..off + count];
    Init(sha);
    Absorb(sha, input, off, count, count, m, IV);
    Final(sha, state, IV, WordsOf(m + ShortPad(count)));
    ShortPadIsPad(m);
  }

  /** After DONE the double-hash unit holds the digest. */
  lemma DigestStored(u: Unit, seed: Hash, ws: seq<word>)
    requires Between(u, seed, ws) && u.ctl.regDone && |ws| > 0
    ensures u.dbl.hashR == Fold(seed, ws).Words()
  {
    hide Inv, Fold, Hash.Words;
    Between0(u, seed, ws);
  }

  /** sha256_double: the stored digest is hashed from the value in SHA256_Hx. */
  method Double(sha: Sha, ghost digest: Hash)
    requires sha.State().Quiet() && sha.ctl.hx == IV && sha.dbl.hashR == digest.Words()
    modifies sha, sha.core, sha.dbl
    ensures Between(sha.State(), IV, WordsOf(Pad(Digest(digest))))
    ensures sha.ctl.hashCnt == 0
  {
    hide Inv, NextUnit, WordsOf, Pad, Digest, Hash.Words;
    DblStreams(sha.State());
    DigestPadded(digest);
    sha.Write(WrCmd(false, false, true));
    sha.WaitDone();
  }

  /** dsha256 */
  method Dsha256(sha: Sha, input: array<byte>, off: nat, count: nat, state: array<byte>)
    requires sha.State().Quiet() && state.Length >= 32
    requires off + count <= input.Length && count < 0x8000_0000
    modifies sha, sha.core, sha.dbl, state
    ensures sha.State().Quiet()
    ensures state[..] == Sha256(FirmwareSha256(old(input[off..off + count]))) + old(state[32..])
    ensures count < 0x2000_0000 ==> state[..] == Sha256(Sha256(old(input[off..off + count]))) + old(state[32..])
  {
    hide Inv, NextUnit, WordsOf, ShortPad, Pad, Fold, Digest, Unit.Live, Unit.Valid;
    ghost var m := input[off..off + count];
    ghost var ws := WordsOf(m + ShortPad(count));
    Init(sha);
    Absorb(sha, input, off, count, count, m, IV);
    SomeWords(m);
    DigestStored(sha.State(), IV, ws);
    Double(sha, Fold(IV, ws));
    Final(sha, state, IV, WordsOf(Pad(Digest(Fold(IV, ws)))));
    ShortPadIsPad(m);
  }

  lemma SomeWords(m: seq<byte>)
    ensures |WordsOf(m + ShortPad(|m|))| > 0
  {
    WordsLength(m + ShortPad(|m|));
  }

  /** The chaining value is shifted into SHA256_Hx word by word. */
  method LoadHx(sha: Sha, d: word)
    requires sha.State().Quiet()
    modifies sha, sha.core, sha.dbl
    ensures sha.State().Quiet() && sha.ctl.hx == ShiftIn(old(sha.ctl.hx), d)
  {
    hide Inv, NextUnit;
    HiShifts(sha.State(), d);
    sha.Write(WrHi(d));
  }

  /** dsha256_posthash: the first 32 bytes of input are a midstate, the remaining bytes are hashed from it as the
      end of a message of count bytes; then comes the second hash. */
  method Dsha256Posthash(sha: Sha, input: array<byte>, count: nat, countPosthash: nat, state: array<byte>)
    requires sha.State().Quiet() && state.Length >= 32
    requires 32 + countPosthash <= input.Length && countPosthash % 64 == count % 64 && countPosthash < 0x8000_0000
    modifies sha, sha.core, sha.dbl, state
    ensures sha.State().Quiet()
    ensures |WordsOf(old(input[..32]))| == 8
    ensures state[..] == Sha256(Digest(Fold(HashOf(WordsOf(old(input[..32]))),
                                            WordsOf(old(input[32..32 + countPosthash]) + ShortPad(count))))) + old(state[32..])
  {
    hide Inv, NextUnit, WordsOf, ShortPad, Pad, Fold, Digest, Load, Unit.Live, Unit.Valid;
    ghost var data, mid := input[32..32 + countPosthash], input[..32];
    WordsLength(mid);
    Command(sha, true);
    LoadMidstate(sha, input, mid);
    ghost var seed := HashOf(WordsOf(mid));
    Command(sha, false);
    Absorb(sha, input, 32, countPosthash, count, data, seed);
    ghost var ws := WordsOf(data + ShortPad(count));
    TailWords(data, count);
    DigestStored(sha.State(), seed, ws);
    Init(sha);
    Double(sha, Fold(seed, ws));
    Final(sha, state, IV, WordsOf(Pad(Digest(Fold(seed, ws)))));
  }

  lemma TailWords(data: seq<byte>, count: nat)
    ensures |WordsOf(data + ShortPad(count))| > 0
  {
    WordsLength(data + ShortPad(count));
  }

  method LoadMidstate(sha: Sha, input: array<byte>, ghost mid: seq<byte>)
    requires sha.State().Quiet() && input.Length >= 32 && input[..32] == mid
    requires |WordsOf(mid)| == 8
    modifies sha, sha.core, sha.dbl
    ensures sha.State().Quiet() && sha.ctl.hx == HashOf(WordsOf(mid))
  {
    hide Inv, NextUnit, WordsOf, Load, ShiftIn, Unit.Live, Unit.Valid;
    ghost var was, ws := sha.ctl.hx, WordsOf(mid);
    var i := 0;
    ghost var k := 0;
    while i < 32
      invariant i == 4 * k && k <= 8
      invariant input[..32] == mid && sha.State().Quiet()
      invariant sha.ctl.hx == ShiftAll(was, ws[..k])
    {
      var tmp := Load(input[i..i + 4]);
      SliceOfSlice(input[..], 0, 32, i, i + 4);
      WordAt(mid, k);
      ShiftOne(was, ws, k);
      LoadHx(sha, tmp);
      i, k := i + 4, k + 1;
    }
    assert ws[..8] == ws;
    ShiftEight(was, ws);
  }

  function ShiftAll(h: Hash, ws: seq<word>): Hash {
    if |ws| == 0 then h else ShiftIn(ShiftAll(h, ws[..|ws| - 1]), ws[|ws| - 1])
  }

  lemma ShiftOne(h: Hash, ws: seq<word>, k: nat)
    requires k < |ws|
    ensures ShiftAll(h, ws[..k + 1]) == ShiftIn(ShiftAll(h, ws[..k]), ws[k])
  {
    assert ws[..k + 1][..k] == ws[..k];
  }

  /** Eight words written to SHA256_HI become H0 to H7 in the order written. */
  lemma ShiftEight(h: Hash, ws: seq<word>)
    requires |ws| == 8
    ensures ShiftAll(h, ws) == HashOf(ws)
  {
    hide ShiftAll;
    ShiftOne(h, ws, 7);
    ShiftOne(h, ws, 6);
    ShiftOne(h, ws, 5);
    ShiftOne(h, ws, 4);
    ShiftOne(h, ws, 3);
    ShiftOne(h, ws, 2);
    ShiftOne(h, ws, 1);
    ShiftOne(h, ws, 0);
    assert ws[..8] == ws;
  }

  lemma WordsOfCons(b: seq<byte>)
    requires |b| >= 4
    ensures WordsOf(b) == [Load(b[..4])] + WordsOf(b[4..])
  {}

  lemma {:induction false} WordAt(b: seq<byte>, k: nat)
    requires 4 * k + 4 <= |b|
    ensures k < |WordsOf(b)| && WordsOf(b)[k] == Load(b[4 * k..4 * k + 4])
  {
    hide WordsOf;
    WordsOfCons(b);
    if k > 0 {
      WordAt(b[4..], k - 1);
      SliceAfter4(b, k - 1);
    }
  }

  /** A and E after rounds 0, 1 and 2 on block m. */
  function FirstRounds(v: Hash, m: seq<word>): Taps
    requires |m| == 16
  {
    var r0, r1, r2 := Rounds(v, m, 1), Rounds(v, m, 2), Rounds(v, m, 3);
    Taps(r0.a, r1.a, r2.a, r0.e, r1.e, r2.e)
  }

  /** sha256_precalc: the midstate is read from its last word to its first, the three words of the message
      likewise; the taps of the block they begin are returned. */
  method Precalc(sha: Sha, h: array<byte>, hOff: nat, input: array<byte>, off: nat, count: nat, state: array<byte>)
    requires sha.State().Quiet() && state.Length == 24 && count <= 12
    requires hOff + 32 <= h.Length && off + 12 <= input.Length
    modifies sha, sha.core, sha.dbl, state
    ensures sha.State().Quiet()
    ensures var mid, msg := old(h[hOff..hOff + 32]), old(input[off..off + 12]);
            var digest := msg[8..] + msg[4..8] + msg[..4];
            |WordsOf(digest[..count] + ShortPad(count))| == 16
            && state[..] == BytesOf(PreWords(FirstRounds(HashOf(LoadsDown(mid)), WordsOf(digest[..count] + ShortPad(count)))))
  {
    hide Inv, NextUnit, WordsOf, BytesOf, ShortPad, Load, Rounds, HashOf, PreWords, Unit.Live, Unit.Valid;
    ghost var mid, msg := h[hOff..hOff + 32], input[off..off + 12];
    Command(sha, true);
    LoadDown(sha, h, hOff, mid);
    ghost var seed := HashOf(LoadsDown(mid));
    Command(sha, false);
    var digest := ReversedWords(input, off);
    SliceOfSlice(input[..], off, 12, 8, 12);
    SliceOfSlice(input[..], off, 12, 4, 8);
    SliceOfSlice(input[..], off, 12, 0, 4);
    ghost var words := (msg[8..] + msg[4..8] + msg[..4])[..count];
    ghost var m := WordsOf(words + ShortPad(count));
    assert digest[0..0 + count] == words;
    Absorb(sha, digest, 0, count, count, words, seed);
    OneBlock(words);
    TapsOfBlock(sha.State(), seed, m);
    PrecalcFinal(sha, state, seed, m);
  }

  /** Eight words read from the end of a midstate to its beginning. */
  function LoadsDown(mid: seq<byte>): (ws: seq<word>)
    requires |mid| == 32
    ensures |ws| == 8
  {
    seq(8, k requires 0 <= k < 8 => Load(mid[28 - 4 * k..32 - 4 * k]))
  }

  method LoadDown(sha: Sha, h: array<byte>, hOff: nat, ghost mid: seq<byte>)
    requires sha.State().Quiet() && hOff + 32 <= h.Length && h[hOff..hOff + 32] == mid
    modifies sha, sha.core, sha.dbl
    ensures sha.State().Quiet() && sha.ctl.hx == HashOf(LoadsDown(mid))
  {
    hide Inv, NextUnit, Load, ShiftIn, Unit.Live, Unit.Valid;
    ghost var was, ws := sha.ctl.hx, LoadsDown(mid);
    var i := 28;
    ghost var k := 0;
    while i >= 0
      invariant i == 28 - 4 * k && k <= 8
      invariant h[hOff..hOff + 32] == mid && sha.State().Quiet()
      invariant sha.ctl.hx == ShiftAll(was, ws[..k])
    {
      var tmp := Load(h[hOff + i..hOff + i + 4]);
      SliceOfSlice(h[..], hOff, 32, i, i + 4);
      ShiftOne(was, ws, k);
      LoadHx(sha, tmp);
      i, k := i - 4, k + 1;
    }
    assert ws[..8] == ws;
    ShiftEight(was, ws);
  }

  /** The local digest of sha256_precalc: three words in reverse order. */
  method ReversedWords(input: array<byte>, off: nat) returns (digest: array<byte>)
    requires off + 12 <= input.Length
    ensures fresh(digest) && digest.Length == 12
    ensures digest[..] == input[off + 8..off + 12] + input[off + 4..off + 8] + input[off..off + 4]
  {
    digest := new byte[12](_ => 0);
    for i := 0 to 4
      invariant digest[..i] == input[off + 8..off + 8 + i]
      invariant digest[4..4 + i] == input[off + 4..off + 4 + i]
      invariant digest[8..8 + i] == input[off..off + i]
    {
      digest[i], digest[4 + i], digest[8 + i] := input[off + 8 + i], input[off + 4 + i], input[off + i];
    }
  }

  lemma OneBlock(d: seq<byte>)
    requires |d| <= 12
    ensures |WordsOf(d + ShortPad(|d|))| == 16
  {
    hide WordsOf;
    assert Gap(|d|) == 55 - |d|;
    assert |ShortPad(|d|)| == 64 - |d|;
    WordsLength(d + ShortPad(|d|));
  }

  lemma TapsOfBlock(u: Unit, seed: Hash, m: seq<word>)
    requires Between(u, seed, m) && |m| == 16
    ensures u.core.taps == FirstRounds(seed, m)
  {
    hide Inv, Rounds;
    InvHolds(u.core, u.hist);
    assert m[..0] == [] && m[0..] == m;
    FoldNone(seed);
  }
}
