/** sha_core.v: one SHA-256 round per clock, fed a word at a time. */
module ShaCore {
  import opened Words
  import opened Fips180

  // The bit-slice networks of the core, written with shifts.

  function F1(e: word, f: word, g: word): word { (e & f) ^ (!e & g) }

  function F2(a: word, b: word, c: word): word { (a & b) ^ (b & c) ^ (a & c) }

  function F3(a: word): word { ((a << 30) | (a >> 2)) ^ ((a << 19) | (a >> 13)) ^ ((a << 10) | (a >> 22)) }

  function F4(e: word): word { ((e << 26) | (e >> 6)) ^ ((e << 21) | (e >> 11)) ^ ((e << 7) | (e >> 25)) }

  function F5(w: word): word { ((w << 25) | (w >> 7)) ^ ((w << 14) | (w >> 18)) ^ (w >> 3) }

  function F6(w: word): word { ((w << 15) | (w >> 17)) ^ ((w << 13) | (w >> 19)) ^ (w >> 10) }

  /** Next values of A..H during a round. */
  function Turned(v: Hash, kt: word, wt: word): Hash {
    var t1 := Sum5(v.h, F4(v.e), F1(v.e, v.f, v.g), kt, wt);
    var t2 := Add(F3(v.a), F2(v.a, v.b, v.c));
    Hash(Add(t1, t2), v.a, v.b, v.c, Add(v.d, t1), v.e, v.f, v.g)
  }

  function NextWt(win: seq<word>): word
    requires |win| == 15
  {
    Sum4(F6(win[14]), win[9], F5(win[1]), win[0])
  }

  lemma Networks(x: word, y: word, z: word)
    ensures F1(x, y, z) == Ch(x, y, z) && F2(x, y, z) == Maj(x, y, z)
    ensures F3(x) == BigSigma0(x) && F4(x) == BigSigma1(x)
    ensures F5(x) == SmallSigma0(x) && F6(x) == SmallSigma1(x)
  {}

  lemma TurnedIsRound(v: Hash, kt: word, wt: word)
    ensures Turned(v, kt, wt) == Round(v, kt, wt)
  {
    Networks(v.a, v.b, v.c);
    Networks(v.e, v.f, v.g);
  }

  /** Registers A0..A2 and E0..E2. */
  datatype Taps = Taps(a0: word, a1: word, a2: word, e0: word, e1: word, e2: word)

  /** All registers except busy, which drives nothing. */
  datatype Regs = Regs(round: nat, hc: Hash, win: seq<word>, wt: word, kt: word, v: Hash, done: bool, taps: Taps)
  {
    predicate Shaped() { round <= 64 && |win| == 15 }
  }

  function Fill(round: nat): nat { if round < 16 then round else 16 }

  /** The registers hold what FIPS 180-4 computes: chaining value cv, words cur of the current block,
      round - 1 rounds done. */
  ghost predicate Tracks(p: Regs, cv: Hash, cur: seq<word>) {
    && p.round <= 64 && |p.win| == 15 && |cur| == Fill(p.round)
    && (p.round == 0 ==> p.v == cv)
    && (!p.done ==> p.hc == cv)
    && (p.done ==> p.round == 0)
    && (p.round > 0 ==>
          && p.v == Rounds(cv, cur, p.round - 1)
          && p.wt == Schedule(cur, p.round - 1)
          && p.kt == K(p.round - 1)
          && Window(p.win, cur, p.round)
          && Tapped(p.taps, cv, cur, p.round - 1))
  }

  ghost predicate Window(win: seq<word>, cur: seq<word>, round: nat)
    requires |win| == 15 && round <= 64 && |cur| == Fill(round)
  {
    forall j :: 0 <= j < 15 && j < round ==> win[j] == Schedule(cur, (if round < 16 then 0 else round - 16) + j)
  }

  /** The taps hold A and E as they were after rounds 0, 1 and 2, as far as those are among the first n rounds. */
  ghost predicate Tapped(t: Taps, cv: Hash, m: seq<word>, n: nat)
    requires Known(m, n)
  {
    && (n >= 1 ==> var r := Rounds(cv, m, 1); t.a0 == r.a && t.e0 == r.e)
    && (n >= 2 ==> var r := Rounds(cv, m, 2); t.a1 == r.a && t.e1 == r.e)
    && (n >= 3 ==> var r := Rounds(cv, m, 3); t.a2 == r.a && t.e2 == r.e)
  }

  function Tap(t: Taps, round: nat, v: Hash): Taps {
    if round == 1 then t.(a0 := v.a, e0 := v.e)
    else if round == 2 then t.(a1 := v.a, e1 := v.e)
    else if round == 3 then t.(a2 := v.a, e2 := v.e)
    else t
  }

  // What one clock does: a word is taken, no word is offered, a round without input, the last round.

  function Loads(p: Regs, din: word): Regs
    requires p.round < 16 && |p.win| == 15
  {
    var turned := Turned(p.v, p.kt, p.wt);
    Regs(p.round + 1, if p.done then p.v else p.hc, if p.round < 15 then p.win[p.round := din] else p.win, din, K(p.round),
         if p.round == 0 then p.v else turned, false, Tap(p.taps, p.round, turned))
  }

  function Waits(p: Regs): Regs {
    p.(hc := if p.done then p.v else p.hc, done := false)
  }

  function Runs(p: Regs): Regs
    requires 16 <= p.round < 64 && |p.win| == 15
  {
    Regs(p.round + 1, if p.done then p.v else p.hc, p.win[1..] + [p.wt], NextWt(p.win), K(p.round), Turned(p.v, p.kt, p.wt), false, p.taps)
  }

  function Ends(p: Regs): Regs {
    Regs(0, if p.done then p.v else p.hc, p.win, p.wt, 0, Ended(Turned(p.v, p.kt, p.wt), p.hc), true, p.taps)
  }

  /** H0 to H7 are added to the next A to H. */
  function Ended(v: Hash, hc: Hash): Hash {
    Hash(Add(v.a, hc.a), Add(v.b, hc.b), Add(v.c, hc.c), Add(v.d, hc.d), Add(v.e, hc.e), Add(v.f, hc.f), Add(v.g, hc.g), Add(v.h, hc.h))
  }

  lemma LoadKeeps(p: Regs, din: word, cv: Hash, cur: seq<word>)
    requires p.round < 16 && Tracks(p, cv, cur)
    ensures Tracks(Loads(p, din), cv, cur + [din])
  {
    hide K, Turned, Round, Tapped, Window, Rounds, Schedule;
    var q := Loads(p, din);
    if p.round > 0 {
      RoundsGrow(cv, cur, din, p.round - 1);
      RoundNext(cv, cur + [din], p.round - 1);
      TurnedIsRound(p.v, p.kt, p.wt);
      ScheduleGrows(cur, din, p.round - 1);
    }
    NoRounds(cv, cur + [din]);
    LastWord(cur, din);
    WindowLoads(p.win, cur, din, p.round);
    TapsKeep(p.taps, cv, cur, din, q.v);
  }

  lemma RoundNext(cv: Hash, m: seq<word>, t: nat)
    requires t < 64 && Known(m, t + 1)
    ensures Rounds(cv, m, t + 1) == Round(Rounds(cv, m, t), K(t), Schedule(m, t))
  {
    hide Round, K, Schedule;
  }

  lemma NoRounds(cv: Hash, m: seq<word>)
    requires |m| <= 16
    ensures Rounds(cv, m, 0) == cv
  {}

  lemma LastWord(cur: seq<word>, din: word)
    requires |cur| < 16
    ensures Schedule(cur + [din], |cur|) == din
  {}

  lemma WindowLoads(win: seq<word>, cur: seq<word>, din: word, round: nat)
    requires |win| == 15 && round < 16 && |cur| == round && (round > 0 ==> Window(win, cur, round))
    ensures Window(if round < 15 then win[round := din] else win, cur + [din], round + 1)
  {
    hide Schedule;
    LastWord(cur, din);
    forall j | 0 <= j < 15 && j < round
      ensures Schedule(cur + [din], j) == win[j]
    {
      ScheduleGrows(cur, din, j);
    }
  }

  lemma TapsKeep(t: Taps, cv: Hash, cur: seq<word>, din: word, v: Hash)
    requires |cur| < 16
    requires |cur| > 0 ==> Tapped(t, cv, cur, |cur| - 1) && v == Rounds(cv, cur + [din], |cur|)
    ensures Tapped(Tap(t, |cur|, v), cv, cur + [din], |cur|)
  {
    hide Rounds;
    if |cur| >= 1 { RoundsGrow(cv, cur, din, 1); }
    if |cur| >= 2 { RoundsGrow(cv, cur, din, 2); }
    if |cur| >= 3 { RoundsGrow(cv, cur, din, 3); }
  }

  lemma RunKeeps(p: Regs, cv: Hash, cur: seq<word>)
    requires 16 <= p.round < 64 && Tracks(p, cv, cur)
    ensures Tracks(Runs(p), cv, cur)
  {
    hide K, Turned, Round, Window, NextWt, Tapped, Rounds, Schedule;
    TurnedIsRound(p.v, p.kt, p.wt);
    RoundNext(cv, cur, p.round - 1);
    WindowRuns(p.win, p.wt, cur, p.round);
    TapsStay(p.taps, cv, cur, p.round - 1);
  }

  /** The window moves on by one word, and the next schedule word is made of it. */
  lemma WindowRuns(win: seq<word>, wt: word, cur: seq<word>, round: nat)
    requires 16 <= round < 64 && |cur| == 16 && |win| == 15 && Window(win, cur, round) && wt == Schedule(cur, round - 1)
    ensures Window(win[1..] + [wt], cur, round + 1) && NextWt(win) == Schedule(cur, round)
  {
    hide Sum4, F5, F6, SmallSigma0, SmallSigma1;
    Networks(win[1], 0, 0);
    Networks(win[14], 0, 0);
    assert win[0] == Schedule(cur, round - 16) && win[1] == Schedule(cur, round - 15);
    assert win[9] == Schedule(cur, round - 7) && win[14] == Schedule(cur, round - 2);
  }

  lemma TapsStay(t: Taps, cv: Hash, m: seq<word>, n: nat)
    requires |m| == 16 && 15 <= n < 64 && Tapped(t, cv, m, n)
    ensures Tapped(t, cv, m, n + 1)
  {
    hide Rounds;
  }

  lemma EndKeeps(p: Regs, cv: Hash, cur: seq<word>)
    requires p.round == 64 && Tracks(p, cv, cur)
    ensures Tracks(Ends(p), Compress(cv, cur), [])
    ensures Tapped(Ends(p).taps, cv, cur, 64)
  {
    hide K, Turned, Round;
    TurnedIsRound(p.v, p.kt, p.wt);
  }

  /** Kt goes on with the round, which init does not touch. */
  function InitKt(p: Regs, vld: bool): word
    requires p.round <= 64
  {
    if p.round < 16 then (if vld then K(p.round) else p.kt) else if p.round < 64 then K(p.round) else 0
  }

  /** One clock of the core without reset. */
  function Next(p: Regs, init: bool, vld: bool, din: word, iv: Hash): Regs
    requires p.round <= 64 && |p.win| == 15
  {
    if init then p.(hc := iv, v := iv, done := p.round == 64, kt := InitKt(p, vld))
    else if p.round < 16 then (if vld then Loads(p, din) else Waits(p))
    else if p.round < 64 then Runs(p)
    else Ends(p)
  }

  /** What happened so far: was the last init since reset given between blocks, what chaining value did it load, which
      words were taken since. */
  datatype Hist = Hist(loaded: bool, seed: Hash, taken: seq<word>)

  function NextHist(p: Regs, h: Hist, init: bool, vld: bool, din: word, iv: Hash): Hist {
    if init then Hist(p.round == 0, iv, []) else if vld && p.round < 16 then h.(taken := h.taken + [din]) else h
  }

  /** The taps are those of the last block of ws. */
  ghost predicate TappedLast(t: Taps, seed: Hash, ws: seq<word>)
    requires |ws| > 0 && |ws| % 16 == 0
  {
    Tapped(t, Fold(seed, ws[..|ws| - 16]), ws[|ws| - 16..], 64)
  }

  /** The invariant of the core over every run. */
  ghost predicate Inv(p: Regs, h: Hist) {
    && p.Shaped()
    && (h.loaded ==>
          var n := |h.taken| - Fill(p.round);
          && (p.done ==> p.round == 0) && n >= 0 && n % 16 == 0
          && Tracks(p, Fold(h.seed, h.taken[..n]), h.taken[n..])
          && (p.round == 0 && n > 0 ==> TappedLast(p.taps, h.seed, h.taken)))
  }

  lemma NextShaped(p: Regs, init: bool, vld: bool, din: word, iv: Hash)
    requires p.Shaped()
    ensures var q := Next(p, init, vld, din, iv);
            && q.Shaped() && q.done == (p.round == 64)
            && q.round == (if init || (p.round < 16 && !vld) then p.round else if p.round < 64 then p.round + 1 else 0)
            && (!init && p.round < 16 && !vld ==> q.taps == p.taps)
  {
    hide K, Turned, NextWt, InitKt, Ended, Tap;
  }

  lemma InitKeeps(p: Regs, vld: bool, din: word, iv: Hash)
    requires p.Shaped() && p.round == 0
    ensures Tracks(Next(p, true, vld, din, iv), Fold(iv, []), [])
    ensures Next(p, true, vld, din, iv).v == iv
  {
    hide K, InitKt;
    FoldNone(iv);
  }

  lemma WaitKeeps(p: Regs, cv: Hash, cur: seq<word>)
    requires p.round < 16 && Tracks(p, cv, cur)
    ensures Tracks(Waits(p), cv, cur)
  {
    hide K, Rounds, Schedule, Window, Tapped;
  }

  lemma LoadOfBlock(p: Regs, h: Hist, n: nat, din: word)
    requires p.round < 16 && |h.taken| == n + p.round && Tracks(p, Fold(h.seed, h.taken[..n]), h.taken[n..])
    ensures Tracks(Loads(p, din), Fold(h.seed, (h.taken + [din])[..n]), (h.taken + [din])[n..])
  {
    hide Tracks, Fold, Loads;
    LoadKeeps(p, din, Fold(h.seed, h.taken[..n]), h.taken[n..]);
    assert (h.taken + [din])[..n] == h.taken[..n] && (h.taken + [din])[n..] == h.taken[n..] + [din];
  }

  lemma NextBlock(n: nat)
    ensures (n + 16) % 16 == n % 16
  {}

  lemma EndOfBlock(p: Regs, h: Hist, n: nat)
    requires p.round == 64 && h.loaded && |h.taken| == n + 16 && |h.taken| % 16 == 0
    requires Tracks(p, Fold(h.seed, h.taken[..n]), h.taken[n..])
    ensures Tracks(Ends(p), Fold(h.seed, h.taken[..|h.taken|]), h.taken[|h.taken|..]) && TappedLast(Ends(p).taps, h.seed, h.taken)
  {
    hide Tracks, Tapped, Fold, Compress, Ends;
    EndKeeps(p, Fold(h.seed, h.taken[..n]), h.taken[n..]);
    FoldEnds(h.seed, h.taken);
    assert h.taken[..|h.taken|] == h.taken && h.taken[|h.taken|..] == [];
  }

  lemma KeepsInit(p: Regs, h: Hist, vld: bool, din: word, iv: Hash)
    requires Inv(p, h)
    ensures Inv(Next(p, true, vld, din, iv), NextHist(p, h, true, vld, din, iv))
  {
    NextShaped(p, true, vld, din, iv);
    var none: seq<word> := [];
    assert none[..0] == none && none[0..] == none;
    if p.round == 0 {
      InitKeeps(p, vld, din, iv);
    }
    hide Next, Tracks, Fold, TappedLast;
  }

  lemma KeepsLoad(p: Regs, h: Hist, din: word, iv: Hash)
    requires Inv(p, h) && h.loaded && p.round < 16
    ensures Inv(Next(p, false, true, din, iv), NextHist(p, h, false, true, din, iv))
  {
    hide K, Turned, Compress, Tapped, TappedLast, NextWt, Rounds, Schedule, Window, Fold, InitKt, Ended, Tap;
    LoadOfBlock(p, h, |h.taken| - Fill(p.round), din);
  }

  lemma KeepsWait(p: Regs, h: Hist, din: word, iv: Hash)
    requires Inv(p, h) && h.loaded && p.round < 16
    ensures Inv(Next(p, false, false, din, iv), NextHist(p, h, false, false, din, iv))
  {
    NextShaped(p, false, false, din, iv);
    hide Waits, Tracks, Fold, TappedLast;
    var n := |h.taken| - Fill(p.round);
    WaitKeeps(p, Fold(h.seed, h.taken[..n]), h.taken[n..]);
  }

  lemma KeepsRun(p: Regs, h: Hist, vld: bool, din: word, iv: Hash)
    requires Inv(p, h) && h.loaded && 16 <= p.round < 64
    ensures Inv(Next(p, false, vld, din, iv), NextHist(p, h, false, vld, din, iv))
  {
    hide K, Turned, Compress, Tapped, TappedLast, NextWt, Rounds, Schedule, Window, Fold, InitKt, Ended, Tap;
    var n := |h.taken| - Fill(p.round);
    RunKeeps(p, Fold(h.seed, h.taken[..n]), h.taken[n..]);
  }

  lemma KeepsEnd(p: Regs, h: Hist, vld: bool, din: word, iv: Hash)
    requires Inv(p, h) && h.loaded && p.round == 64
    ensures Inv(Next(p, false, vld, din, iv), NextHist(p, h, false, vld, din, iv))
  {
    hide K, Turned, Compress, Tapped, TappedLast, NextWt, Rounds, Schedule, Window, Fold, InitKt, Ended, Tap;
    var n := |h.taken| - Fill(p.round);
    NextBlock(n);
    EndOfBlock(p, h, n);
  }

  lemma NextKeeps(p: Regs, h: Hist, init: bool, vld: bool, din: word, iv: Hash)
    requires Inv(p, h)
    ensures Next(p, init, vld, din, iv).Shaped()
    ensures Inv(Next(p, init, vld, din, iv), NextHist(p, h, init, vld, din, iv))
  {
    NextShaped(p, init, vld, din, iv);
    if init {
      KeepsInit(p, h, vld, din, iv);
    } else if h.loaded {
      if p.round >= 64 {
        KeepsEnd(p, h, vld, din, iv);
      } else if p.round >= 16 {
        KeepsRun(p, h, vld, din, iv);
      } else if vld {
        KeepsLoad(p, h, din, iv);
      } else {
        KeepsWait(p, h, din, iv);
      }
    }
    hide Next, Tracks, TappedLast, Fold;
  }

  /** An init begins a block from the value it loads if and only if it comes between blocks. In the middle of one the
      round goes on from where it was, with the new value, and this is the beginning of a block from no value at all. */
  lemma InitExact(p: Regs, vld: bool, din: word, iv: Hash)
    requires p.Shaped()
    ensures var q := Next(p, true, vld, din, iv);
            && (Tracks(q, iv, []) <==> p.round == 0)
            && ((exists cv :: Tracks(q, cv, [])) <==> p.round == 0)
            && q.round == p.round && q.win == p.win && q.v == iv && q.hc == iv
  {
    FoldNone(iv);
    if p.round == 0 {
      InitKeeps(p, vld, din, iv);
    }
    hide K, InitKt, Fold;
  }

  lemma BetweenBlocks(p: Regs, cv: Hash, cur: seq<word>)
    requires Tracks(p, cv, cur) && p.round == 0
    ensures p.v == cv
  {}

  /** Between blocks the core holds the hash of all the words taken, and the taps those of the last block. */
  lemma InvHolds(p: Regs, h: Hist)
    requires Inv(p, h) && h.loaded
    ensures |h.taken| >= Fill(p.round) && (|h.taken| - Fill(p.round)) % 16 == 0
    ensures p.round == 0 ==> p.v == Fold(h.seed, h.taken)
    ensures p.round == 0 && |h.taken| > 0 ==> TappedLast(p.taps, h.seed, h.taken)
  {
    hide Tapped, Fold, TappedLast, Tracks;
    var n := |h.taken| - Fill(p.round);
    if p.round == 0 {
      BetweenBlocks(p, Fold(h.seed, h.taken[..n]), h.taken[n..]);
      assert h.taken[..n] == h.taken;
    }
  }

  class Core {
    var round: nat
    var hc: Hash         // H0..H7
    var win: seq<word>   // W0..W14
    var wt: word
    var kt: word
    var v: Hash          // A..H
    var busy: bool
    var done: bool
    var taps: Taps

    ghost var hist: Hist

    ghost function State(): Regs reads this { Regs(round, hc, win, wt, kt, v, done, taps) }

    ghost predicate Valid() reads this { State().Shaped() && Inv(State(), hist) }

    constructor ()
      ensures Valid() && !hist.loaded && round == 0 && !done
    {
      round, busy, done := 0, false, false;
      win := seq(15, _ => 0);
      wt, kt := 0, 0;
      v := Hash(0, 0, 0, 0, 0, 0, 0, 0);
      hist := Hist(false, v, []);
    }

    /** The next A to H and H0 to H7, added word by word. */
    method Sums(v: Hash) returns (s: Hash)
      ensures s == Ended(v, hc)
    {
      hide Add;
      s := Hash(Add(v.a, hc.a), Add(v.b, hc.b), Add(v.c, hc.c), Add(v.d, hc.d), Add(v.e, hc.e), Add(v.f, hc.f), Add(v.g, hc.g), Add(v.h, hc.h));
    }

    /** All registers take their next values at once. */
    method Clock(init: bool, vld: bool, din: word, iv: Hash)
      requires State().Shaped()
      modifies this`round, this`hc, this`win, this`wt, this`kt, this`v, this`busy, this`done, this`taps
      ensures State() == Next(old(State()), init, vld, din, iv)
    {
      hide K, Turned, NextWt, Tap, Ended, Inv;
      var load, run, last := !init && round < 16 && vld, !init && 16 <= round < 64, !init && round == 64;
      var turned := Turned(v, kt, wt);
      var ended := Sums(turned);
      hc, kt, done, round, busy, win, wt, v, taps :=
        if init then iv else if done then v else hc,
        if round < 16 then (if vld then K(round) else kt) else if round < 64 then K(round) else 0,
        round == 64,
        if load || run then round + 1 else if last then 0 else round,
        if load && round == 0 then true else if last then false else busy,
        if load && round < 15 then win[round := din] else if run then win[1..] + [wt] else win,
        if load then din else if run then NextWt(win) else wt,
        if init then iv else if run || (load && round > 0) then turned else if last then ended else v,
        if load then Tap(taps, round, turned) else taps;
    }

    method Step(init: bool, vld: bool, din: word, iv: Hash)
      requires Valid()
      modifies this
      ensures Valid()
      ensures State() == Next(old(State()), init, vld, din, iv)
      ensures hist == NextHist(old(State()), old(hist), init, vld, din, iv)
    {
      hide K, Turned, NextWt, Tracks, Tapped, Fold, Next, Tap, Ended;
      NextKeeps(State(), hist, init, vld, din, iv);
      hist := NextHist(State(), hist, init, vld, din, iv);
      Clock(init, vld, din, iv);
    }
  }
}
