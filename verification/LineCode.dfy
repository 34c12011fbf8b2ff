/** The line code of tx_phy.v and rx_phy.v. */
module LineCode {
  const W32 := 0x1_0000_0000

  /** The two wires of a line: 00 before each bit, 10 for a one, 01 for a zero, 11 at rest. */
  datatype Level = Level(p: bool, n: bool)

  const LOW := Level(false, false)
  const HIGH := Level(true, true)

  function Sym(b: bool): Level { Level(b, !b) }

  // Words as bits.

  /** The n low bits of a word, lowest first. */
  function BitsLow(w: nat, n: nat): (b: seq<bool>)
    ensures |b| == n
  {
    if n == 0 then [] else [w % 2 == 1] + BitsLow(w / 2, n - 1)
  }

  function AllBits(ws: seq<nat>): (b: seq<bool>)
    ensures |b| == 32 * |ws|
  {
    if |ws| == 0 then [] else AllBits(ws[..|ws| - 1]) + BitsLow(ws[|ws| - 1], 32)
  }

  lemma AllBitsAppend(ws: seq<nat>, w: nat)
    ensures AllBits(ws + [w]) == AllBits(ws) + BitsLow(w, 32)
  {
    hide BitsLow;
    assert (ws + [w])[..|ws|] == ws;
  }

  lemma Nothing(w: nat)
    ensures BitsLow(w, 0) == [] && AllBits([]) == []
  {}

  // Levels held for a time.

  function Hold(l: Level, k: nat): (h: seq<Level>)
    ensures |h| == k
  {
    seq(k, _ => l)
  }

  /** Cycles of 00 before the n-th bit, counted from one: fifteen, and nineteen before the first. */
  function Gap(n: nat): nat { if n == 1 then 19 else 15 }

  /** Each bit as 00 and then its symbol for fifteen cycles. */
  function Wave(bits: seq<bool>): seq<Level> {
    var n := |bits|;
    if n == 0 then [] else Wave(bits[..n - 1]) + Hold(LOW, Gap(n)) + Hold(Sym(bits[n - 1]), 15)
  }

  lemma NoWave()
    ensures Wave([]) == []
  {}

  lemma GapIs(n: nat)
    ensures Gap(n + 1) == if n == 0 then 19 else 15
  {}

  lemma OneMore(l: Level, k: nat)
    ensures Hold(l, k) + [l] == Hold(l, k + 1)
  {}

  lemma WaveGrows(bits: seq<bool>)
    requires |bits| > 0
    ensures Wave(bits) == Wave(bits[..|bits| - 1]) + Hold(LOW, Gap(|bits|)) + Hold(Sym(bits[|bits| - 1]), 15)
  {}

  lemma {:induction false} WaveLength(bits: seq<bool>)
    ensures |Wave(bits)| == 30 * |bits| + if |bits| == 0 then 0 else 4
  {
    if |bits| > 0 {
      WaveLength(bits[..|bits| - 1]);
    }
  }

  /** The number a bit string is, lowest bit first. */
  function Value(b: seq<bool>): nat {
    if |b| == 0 then 0 else (if b[0] then 1 else 0) + 2 * Value(b[1..])
  }

  function Pow2(n: nat): nat { if n == 0 then 1 else 2 * Pow2(n - 1) }

  lemma {:induction false} ValueOfBits(w: nat, n: nat)
    requires w < Pow2(n)
    ensures Value(BitsLow(w, n)) == w
    decreases n
  {
    if n > 0 {
      ValueOfBits(w / 2, n - 1);
      assert BitsLow(w, n)[1..] == BitsLow(w / 2, n - 1);
    }
  }

  lemma Pow32()
    ensures Pow2(32) == W32
  {
    assert Pow2(8) == 0x100;
    assert Pow2(12) == 0x1000;
    assert Pow2(16) == 0x1_0000;
    assert Pow2(20) == 0x10_0000;
    assert Pow2(24) == 0x100_0000;
    assert Pow2(28) == 0x1000_0000;
  }
}
