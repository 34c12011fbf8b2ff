/** rx_phy.v: decodes a line into a nonce and pushes a five-word result. */
module RxPhy {
  import opened LineCode

  const DATA_LEN := 5

  /** d0..d3 are report_p_d and report_n_d, d0 the newest sample; nonce is nonce_buf, bit k at index k. */
  datatype RxPhy = RxPhy(d0: Level, d1: Level, d2: Level, d3: Level, nonce: seq<bool>, idH: nat, idL: nat, push: nat)

  datatype In = In(rst: bool, flush: bool, busy: bool, idVld: bool, idH: nat, idL: nat, line: Level)

  /** The bit three consecutive samples complete: 00, then a symbol held for two cycles. */
  function Read(a: Level, b: Level, c: Level): seq<bool> {
    if a == LOW && b == Sym(false) && c == Sym(false) then [false]
    else if a == LOW && b == Sym(true) && c == Sym(true) then [true]
    else []
  }

  predicate Symbol(a: Level) { a.p != a.n }

  /** rx_stop on three consecutive samples. */
  predicate Ends(a: Level, b: Level, c: Level) { Symbol(a) && Symbol(b) && c == HIGH }

  predicate RxStop(r: RxPhy) { Ends(r.d3, r.d2, r.d1) }

  predicate RxVld(r: RxPhy) { r.push != 0 }

  predicate RxStart(r: RxPhy, busy: bool) { busy && RxStop(r) && !RxVld(r) }

  predicate RxLast(r: RxPhy) { r.push == DATA_LEN }

  function RxDat(r: RxPhy, myId: nat, timerCnt: nat): nat {
    if r.push == 1 then myId else if r.push == 2 then r.idH else if r.push == 3 then r.idL
    else if r.push == 4 then timerCnt else Value(r.nonce)
  }

  /** The shift register with bits shifted in at the top. */
  function ShiftIn(nonce: seq<bool>, bits: seq<bool>): (s: seq<bool>)
    ensures |s| == |nonce|
  {
    (nonce + bits)[|bits|..]
  }

  /** One clock edge. */
  function Next(r: RxPhy, i: In): (s: RxPhy)
    ensures |s.nonce| == |r.nonce|
  {
    var quiet := i.flush || i.rst || !i.busy;
    RxPhy(
      if quiet then HIGH else i.line, if quiet then HIGH else r.d0, if quiet then HIGH else r.d1, if quiet then HIGH else r.d2,
      ShiftIn(r.nonce, Read(r.d3, r.d2, r.d1)),
      if !RxVld(r) && i.idVld then i.idH else r.idH,
      if !RxVld(r) && i.idVld then i.idL else r.idL,
      if i.rst then 0
      else if RxStart(r, i.busy) then 1
      else if r.push != 0 && r.push < DATA_LEN then r.push + 1
      else 0)
  }

  function Run(r: RxPhy, ins: seq<In>): (s: RxPhy)
    ensures |s.nonce| == |r.nonce|
    decreases |ins|
  {
    if |ins| == 0 then r else Next(Run(r, ins[..|ins| - 1]), ins[|ins| - 1])
  }

  /** A result is of one task: from its first word to its last the ids stay as they are, whatever arrives. */
  lemma {:induction false} OneTask(r: RxPhy, ins: seq<In>)
    requires 1 <= r.push && r.push + |ins| <= DATA_LEN && forall k :: 0 <= k < |ins| ==> !ins[k].rst
    ensures var s := Run(r, ins); s.push == r.push + |ins| && s.idH == r.idH && s.idL == r.idL
    decreases |ins|
  {
    if |ins| > 0 {
      OneTask(r, ins[..|ins| - 1]);
    }
    hide ShiftIn, Read;
  }

  // What a run of samples decodes to.

  function Decoded(x: seq<Level>): seq<bool>
    decreases |x|
  {
    var n := |x|;
    if n < 3 then [] else Decoded(x[..n - 1]) + Read(x[n - 3], x[n - 2], x[n - 1])
  }

  lemma DecodeLast(x: seq<Level>, y: seq<Level>, c: Level)
    requires y == x + [c] && |x| >= 2
    ensures Decoded(y) == Decoded(x) + Read(x[|x| - 2], x[|x| - 1], c)
  {
    assert y[..|y| - 1] == x;
  }

  lemma TooShort(x: seq<Level>)
    requires |x| < 3
    ensures Decoded(x) == []
  {}

  /** A busy receiver fed with these samples. */
  ghost predicate Carries(ins: seq<In>, x: seq<Level>) {
    |ins| == |x| && forall k :: 0 <= k < |x| ==> !ins[k].rst && !ins[k].flush && ins[k].busy && ins[k].line == x[k]
  }

  function Held(r: RxPhy): seq<Level> { [r.d3, r.d2, r.d1, r.d0] }

  /** After samples x, the four newest are held, and everything before the two newest has been decoded. */
  lemma {:induction false} Follows(r: RxPhy, ins: seq<In>, x: seq<Level>)
    requires Carries(ins, x)
    ensures var h := Held(r) + x; var m := |h|; var s := Run(r, ins);
            && s.d0 == h[m - 1] && s.d1 == h[m - 2] && s.d2 == h[m - 3] && s.d3 == h[m - 4]
            && s.nonce == ShiftIn(r.nonce, Decoded(h[..m - 2]))
    decreases |x|
  {
    hide Read, Decoded;
    var h := Held(r) + x;
    var m := |h|;
    if |x| == 0 {
      assert h == Held(r) && r.nonce + [] == r.nonce;
      assert Decoded(h[..2]) == [] by { TooShort(h[..2]); }
    } else {
      var n := |x| - 1;
      var g := Held(r) + x[..n];
      Follows(r, ins[..n], x[..n]);
      assert g == h[..m - 1] && g[..m - 3] == h[..m - 3];
      assert h[..m - 2][..m - 3] == h[..m - 3];
      DecodeLast(h[..m - 3], h[..m - 2], h[m - 3]);
      ShiftMore(r.nonce, Decoded(h[..m - 3]), Read(h[m - 5], h[m - 4], h[m - 3]));
    }
  }

  lemma ShiftMore(nonce: seq<bool>, a: seq<bool>, b: seq<bool>)
    ensures ShiftIn(ShiftIn(nonce, a), b) == ShiftIn(nonce, a + b)
  {
    assert nonce + (a + b) == (nonce + a) + b;
  }

  // Signals.

  /** A bit sent as 00 for gap cycles and its symbol for hold cycles. */
  datatype Pulse = Pulse(bit: bool, gap: nat, hold: nat)

  /** Every level is held long enough: one cycle for 00, two for a symbol. */
  predicate Firm(ps: seq<Pulse>) {
    forall k :: 0 <= k < |ps| ==> ps[k].gap >= 1 && ps[k].hold >= 2
  }

  function Signal(ps: seq<Pulse>): seq<Level> {
    var n := |ps|;
    if n == 0 then [] else Signal(ps[..n - 1]) + Hold(LOW, ps[n - 1].gap) + Hold(Sym(ps[n - 1].bit), ps[n - 1].hold)
  }

  function BitsOf(ps: seq<Pulse>): (b: seq<bool>)
    ensures |b| == |ps|
  {
    seq(|ps|, k requires 0 <= k < |ps| => ps[k].bit)
  }

  lemma {:induction false} LowDecodesNothing(x: seq<Level>, l: Level, k: nat)
    requires !Symbol(l)
    ensures Decoded(x + Hold(l, k)) == Decoded(x)
    decreases k
  {
    var y := x + Hold(l, k);
    if k == 0 {
      assert y == x;
    } else {
      LowDecodesNothing(x, l, k - 1);
      assert y[..|y| - 1] == x + Hold(l, k - 1);
      assert y[|y| - 1] == l;
    }
  }

  lemma FirstSymbols(x: seq<Level>, b: bool)
    requires |x| >= 2 && x[|x| - 1] == LOW
    ensures Decoded(x + [Sym(b)] + [Sym(b)]) == Decoded(x) + [b]
  {
    hide Decoded;
    var y := x + [Sym(b)];
    DecodeLast(x, y, Sym(b));
    DecodeLast(y, y + [Sym(b)], Sym(b));
    assert Decoded(x) + [] + [b] == Decoded(x) + [b];
  }

  lemma {:induction false} SymbolDecodesOnce(x: seq<Level>, b: bool, k: nat)
    requires |x| >= 2 && x[|x| - 1] == LOW && k >= 2
    ensures Decoded(x + Hold(Sym(b), k)) == Decoded(x) + [b]
    decreases k
  {
    hide Decoded;
    if k == 2 {
      FirstSymbols(x, b);
      assert x + Hold(Sym(b), 2) == x + [Sym(b)] + [Sym(b)];
    } else {
      var z := x + Hold(Sym(b), k - 1);
      SymbolDecodesOnce(x, b, k - 1);
      assert x + Hold(Sym(b), k) == z + [Sym(b)];
      DecodeLast(z, z + [Sym(b)], Sym(b));
      assert Decoded(z) + [] == Decoded(z);
    }
  }

  lemma PulseDecodes(y: seq<Level>, p: Pulse)
    requires p.gap >= 1 && p.hold >= 2 && |y| >= 1
    ensures Decoded(y + (Hold(LOW, p.gap) + Hold(Sym(p.bit), p.hold))) == Decoded(y) + [p.bit]
  {
    hide Decoded;
    LowDecodesNothing(y, LOW, p.gap);
    SymbolDecodesOnce(y + Hold(LOW, p.gap), p.bit, p.hold);
    assert y + (Hold(LOW, p.gap) + Hold(Sym(p.bit), p.hold)) == y + Hold(LOW, p.gap) + Hold(Sym(p.bit), p.hold);
  }

  /** Each bit of a signal is decoded once, in order, and nothing else is. */
  lemma {:induction false} SignalDecodes(x: seq<Level>, ps: seq<Pulse>)
    requires Firm(ps) && |x| >= 1
    ensures Decoded(x + Signal(ps)) == Decoded(x) + BitsOf(ps)
    decreases |ps|
  {
    hide Decoded;
    var n := |ps|;
    if n == 0 {
      assert x + Signal(ps) == x;
      assert Decoded(x) + BitsOf(ps) == Decoded(x);
    } else {
      var p := ps[n - 1];
      SignalDecodes(x, ps[..n - 1]);
      PulseDecodes(x + Signal(ps[..n - 1]), p);
      Assoc(x, Signal(ps[..n - 1]), Hold(LOW, p.gap), Hold(Sym(p.bit), p.hold));
      OneMoreBit(Decoded(x), ps);
    }
  }

  lemma Assoc(x: seq<Level>, s: seq<Level>, a: seq<Level>, b: seq<Level>)
    ensures x + (s + a + b) == x + s + (a + b)
  {}

  lemma OneMoreBit(d: seq<bool>, ps: seq<Pulse>)
    requires |ps| > 0
    ensures d + BitsOf(ps[..|ps| - 1]) + [ps[|ps| - 1].bit] == d + BitsOf(ps)
  {
    assert BitsOf(ps) == BitsOf(ps[..|ps| - 1]) + [ps[|ps| - 1].bit];
  }

  lemma {:induction false} SignalNeverHigh(ps: seq<Pulse>, j: nat)
    requires j < |Signal(ps)|
    ensures Signal(ps)[j] != HIGH
    decreases |ps|
  {
    var n := |ps|;
    if j < |Signal(ps[..n - 1])| {
      SignalNeverHigh(ps[..n - 1], j);
    }
  }

  lemma SignalEndsInSymbols(ps: seq<Pulse>)
    requires Firm(ps) && |ps| > 0
    ensures var n := |Signal(ps)|; n >= 2 && Symbol(Signal(ps)[n - 1]) && Symbol(Signal(ps)[n - 2])
  {}

  /** After resting at 11, a signal and then 11: the end is seen once, where 11 begins. */
  lemma EndsOnce(x: seq<Level>, ps: seq<Pulse>, k: nat, j: nat)
    requires Firm(ps) && |ps| > 0 && (forall i :: 0 <= i < |x| ==> x[i] == HIGH) && |x| >= 2
    requires j + 2 < |x| + |Signal(ps)| + k
    ensures var h := x + Signal(ps) + Hold(HIGH, k);
            Ends(h[j], h[j + 1], h[j + 2]) <==> j + 2 == |x| + |Signal(ps)|
  {
    var h := x + Signal(ps) + Hold(HIGH, k);
    var sig := Signal(ps);
    SignalEndsInSymbols(ps);
    hide Signal;
    if j + 2 < |x| {
      assert h[j] == HIGH;
    } else if j + 2 < |x| + |sig| {
      SignalNeverHigh(ps, j + 2 - |x|);
      assert h[j + 2] == sig[j + 2 - |x|];
    } else if j + 2 == |x| + |sig| {
      assert h[j] == sig[|sig| - 2] && h[j + 1] == sig[|sig| - 1];
    } else {
      assert h[j + 1] == HIGH;
    }
  }

  predicate AtRest(r: RxPhy) { r.d0 == HIGH && r.d1 == HIGH && r.d2 == HIGH && r.d3 == HIGH }

  /** The samples before a signal: those held, then 11 for w cycles. */
  function Rest(r: RxPhy, w: nat): seq<Level> { Held(r) + Hold(HIGH, w) }

  /** What has been decoded j cycles into the final 11. */
  lemma DecodedAtEnd(r: RxPhy, w: nat, ps: seq<Pulse>, j: nat)
    requires AtRest(r) && Firm(ps)
    ensures Decoded(Rest(r, w) + Signal(ps) + Hold(HIGH, j)) == BitsOf(ps)
  {
    RestDecodesNothing(r, w);
    hide Signal, Firm, Decoded;
    LowDecodesNothing(Rest(r, w) + Signal(ps), HIGH, j);
    SignalDecodes(Rest(r, w), ps);
    assert [] + BitsOf(ps) == BitsOf(ps);
  }

  /** The line of a PHY: 11 for w cycles, the signal, then 11 for k cycles. */
  function Around(w: nat, sig: seq<Level>, k: nat): seq<Level> { Hold(HIGH, w) + sig + Hold(HIGH, k) }

  lemma Window(r: RxPhy, w: nat, sig: seq<Level>, k: nat, n: nat)
    requires n <= w + |sig| + k
    ensures var all := Rest(r, w) + sig + Hold(HIGH, k);
            && Held(r) + Around(w, sig, k)[..n] == all[..n + 4]
            && (n >= w + |sig| + 2 ==> all[..n + 2] == Rest(r, w) + sig + Hold(HIGH, n - w - |sig| - 2))
  {}

  /** A receiver at rest, kept busy while its line rests, brings a firm signal and rests again: rx_stop is high exactly
      once, and from that cycle on the shift register holds the bits of the signal, each shifted in once and in order. */
  lemma Receives(r: RxPhy, w: nat, ps: seq<Pulse>, k: nat, ins: seq<In>, n: nat)
    requires AtRest(r) && Firm(ps) && |ps| > 0 && Carries(ins, Around(w, Signal(ps), k)) && n <= |ins|
    ensures RxStop(Run(r, ins[..n])) <==> n == w + |Signal(ps)| + 2
    ensures n >= w + |Signal(ps)| + 2 ==> Run(r, ins[..n]).nonce == ShiftIn(r.nonce, BitsOf(ps))
  {
    var sig := Signal(ps);
    var x := Around(w, sig, k);
    var rest, all := Rest(r, w), Rest(r, w) + sig + Hold(HIGH, k);
    hide Signal, Firm, Run, Decoded, Hold, Ends, Around, Rest, ShiftIn, AtRest, Carries, Held;
    Lengths(r, w, sig, k);
    AllRest(r, w);
    CarriesPart(ins, x, n);
    Window(r, w, sig, k, n);
    Follows(r, ins[..n], x[..n]);
    EndsOnce(rest, ps, k, n);
    Newest(all, n);
    if n >= w + |sig| + 2 {
      DecodedAtEnd(r, w, ps, n - w - |sig| - 2);
    }
  }

  lemma Lengths(r: RxPhy, w: nat, sig: seq<Level>, k: nat)
    ensures |Around(w, sig, k)| == w + |sig| + k && |Rest(r, w)| == w + 4 && |Held(r)| == 4
  {}

  lemma AllRest(r: RxPhy, w: nat)
    requires AtRest(r)
    ensures |Rest(r, w)| == w + 4 && forall j :: 0 <= j < w + 4 ==> Rest(r, w)[j] == HIGH
  {}

  lemma CarriesPart(ins: seq<In>, x: seq<Level>, n: nat)
    requires Carries(ins, x) && n <= |ins|
    ensures |ins| == |x| && Carries(ins[..n], x[..n])
  {}

  lemma Newest(all: seq<Level>, n: nat)
    requires n + 4 <= |all|
    ensures var h := all[..n + 4]; h[n] == all[n] && h[n + 1] == all[n + 1] && h[n + 2] == all[n + 2] && h[..n + 2] == all[..n + 2]
  {}

  lemma RestDecodesNothing(r: RxPhy, w: nat)
    requires AtRest(r)
    ensures Decoded(Rest(r, w)) == []
  {
    TooShort([]);
    LowDecodesNothing([], HIGH, w + 4);
    assert [] + Hold(HIGH, w + 4) == Rest(r, w);
  }

  // The transmitter's wave is such a signal.

  function PulsesOf(bits: seq<bool>): (ps: seq<Pulse>)
    ensures |ps| == |bits|
  {
    seq(|bits|, k requires 0 <= k < |bits| => Pulse(bits[k], Gap(k + 1), 15))
  }

  lemma {:induction false} WaveIsSignal(bits: seq<bool>)
    ensures Wave(bits) == Signal(PulsesOf(bits)) && Firm(PulsesOf(bits)) && BitsOf(PulsesOf(bits)) == bits
    decreases |bits|
  {
    var n := |bits|;
    if n > 0 {
      WaveIsSignal(bits[..n - 1]);
      assert PulsesOf(bits)[..n - 1] == PulsesOf(bits[..n - 1]);
    }
  }

  /** The receiver undoes the transmitter: fed with the wave of some words and then 11 it ends with the last of them. */
  lemma ReceivesWave(r: RxPhy, w: nat, ws: seq<nat>, k: nat, ins: seq<In>, n: nat)
    requires AtRest(r) && |r.nonce| == 32 && |ws| > 0 && ws[|ws| - 1] < W32
    requires Carries(ins, Around(w, Wave(AllBits(ws)), k)) && n <= |ins|
    ensures RxStop(Run(r, ins[..n])) <==> n == w + |Wave(AllBits(ws))| + 2
    ensures n >= w + |Wave(AllBits(ws))| + 2 ==> Value(Run(r, ins[..n]).nonce) == ws[|ws| - 1]
  {
    LastWord(r.nonce, ws);
    WaveIsSignal(AllBits(ws));
    hide AllBits, Wave, Signal, Run, Around;
    Receives(r, w, PulsesOf(AllBits(ws)), k, ins, n);
  }

  /** With the bits of some words shifted in the register holds the last of them. */
  lemma LastWord(nonce: seq<bool>, ws: seq<nat>)
    requires |nonce| == 32 && |ws| > 0 && ws[|ws| - 1] < W32
    ensures Value(ShiftIn(nonce, AllBits(ws))) == ws[|ws| - 1]
  {
    var bits, w := AllBits(ws), ws[|ws| - 1];
    assert bits[|bits| - 32..] == BitsLow(w, 32);
    LastBits(nonce, bits);
    hide AllBits, BitsLow;
    Pow32();
    ValueOfBits(w, 32);
  }

  lemma LastBits(nonce: seq<bool>, bits: seq<bool>)
    requires |nonce| <= |bits|
    ensures ShiftIn(nonce, bits) == bits[|bits| - |nonce|..]
  {}

  class RxPhyModule {
    const myId: nat
    var report: (Level, Level, Level, Level)  // the newest sample first
    var nonce: seq<bool>
    var idH: nat
    var idL: nat
    var push: nat

    ghost function View(): RxPhy
      reads this
    {
      RxPhy(report.0, report.1, report.2, report.3, nonce, idH, idL, push)
    }

    /** rx_start, rx_last, rx_vld and rx_dat. */
    method Outputs(busy: bool, timerCnt: nat) returns (start: bool, last: bool, vld: bool, dat: nat)
      ensures start == RxStart(View(), busy) && last == RxLast(View()) && vld == RxVld(View())
      ensures dat == RxDat(View(), myId, timerCnt)
    {
      var (d0, d1, d2, d3) := report;
      vld := push != 0;
      start := busy && d3.p != d3.n && d2.p != d2.n && d1.p && d1.n && !vld;
      last := push == DATA_LEN;
      dat := if push == 1 then myId else if push == 2 then idH else if push == 3 then idL
             else if push == 4 then timerCnt else Value(nonce);
    }

    method Shifted() returns (n: seq<bool>)
      ensures n == ShiftIn(nonce, Read(report.3, report.2, report.1))
    {
      var (_, d1, d2, d3) := report;
      var low := !d3.p && !d3.n && d2 == d1;
      if |nonce| > 0 && low && !d1.p && d1.n {
        n := nonce[1..] + [false];
      } else if |nonce| > 0 && low && d1.p && !d1.n {
        n := nonce[1..] + [true];
      } else {
        n := nonce;
      }
    }

    method Step(i: In)
      modifies this`report, this`nonce, this`idH, this`idL, this`push
      ensures |nonce| == old(|nonce|) && View() == Next(old(View()), i)
    {
      hide Value, ShiftIn, Read;
      var start, last, vld, _ := Outputs(i.busy, 0);
      var (d0, d1, d2, d3) := report;
      nonce := Shifted();
      report := if i.flush || i.rst || !i.busy then (HIGH, HIGH, HIGH, HIGH) else (i.line, d0, d1, d2);
      if !vld && i.idVld { idH, idL := i.idH, i.idL; }
      push := if i.rst then 0 else if start then 1 else if push != 0 && push < DATA_LEN then push + 1 else 0;
    }
  }
}
