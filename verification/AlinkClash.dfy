/** Two runs from reset in which results garble or lose one another. */
module AlinkClash {
  import opened LineCode
  import opened Phys
  import opened Alink
  import opened AlinkResults
  import opened AlinkSignals
  import K = AlinkTasks
  import L = AlinkLive
  import A = TxC
  import C = RxC
  import P = TxPhy
  import R = RxPhy
  import T = TxTimer

  const ALL := [true, true, true, true, true]
  const REST := [HIGH, HIGH, HIGH, HIGH, HIGH]

  /** Two works with two numbers each and the longest timeout. */
  const STEP := 0x8000_0000
  const TOUT := T.LOW26 - 1
  const SET := L.Setting(ALL, TOUT, 2)
  const TWO := 2 * TASK_WORDS

  function Word(n: nat): nat {
    if n % TASK_WORDS == 2 then STEP else if n % TASK_WORDS == 3 then TOUT else 0
  }

  function Words(n: nat): (ws: seq<nat>)
    ensures |ws| == n
  {
    seq(n, k requires 0 <= k => Word(k))
  }

  /** Cycle n after reset: one of the 46 words is written, or nothing happens. */
  function Cycle(n: nat): In {
    In(false, false, ALL, false, n < TWO, Word(n), false, REST)
  }

  function Script(n: nat, m: nat): (ins: seq<In>)
    ensures |ins| == m
  {
    seq(m, k requires 0 <= k => Cycle(n + k))
  }

  lemma StepCeiling()
    ensures L.HasCeiling(STEP, 2) && L.Longest(SET) == 20164
  {
    assert P.IsCeiling(2, STEP);
  }

  lemma WordsSound(n: nat)
    ensures L.Sound(Words(n), SET)
  {
    StepCeiling();
    hide L.HasCeiling;
  }

  lemma WordsGrow(n: nat)
    ensures Words(n) + [Word(n)] == Words(n + 1)
  {}

  // The first two tasks go to PHYs 0 and 1.

  /** Timers started so far: one for each task completed, and one for the task in hand once its ids have been seen. */
  function Started(s: Sys, h: K.Hist): nat {
    |h.tasks| + if s.txc.state.Sent? && !s.phy.state.Task? && !s.phy.idVld then 1 else 0
  }

  ghost predicate Turns(s: Sys, h: K.Hist, n: nat)
    requires Sized(s)
  {
    && |h.tasks| <= 2
    && (forall k :: 0 <= k < PHYS ==> (s.timers[k].busy <==> k < Started(s, h)) && s.timers[k].timer <= n)
    && (s.txc.sel == Only(|h.tasks|) || (s.txc.state.Idle? && s.txc.sel == Only(PHYS)))
  }

  ghost predicate Resting(s: Sys)
    requires Sized(s)
  {
    forall k :: 0 <= k < PHYS ==> R.AtRest(s.rx[k]) && s.rx[k].push == 0
  }

  /** After n cycles of the script. */
  ghost predicate Early(s: Sys, h: K.Hist, n: nat) {
    && L.Going(s, h, SET, 4) && Sized(s) && h.written == Words(if n < TWO then n else TWO)
    && Turns(s, h, n) && Resting(s)
  }

  lemma CycleNormal(s: Sys, h: K.Hist, n: nat)
    requires Early(s, h, n)
    ensures Fits(Cycle(n)) && !Reset(Cycle(n)) && L.Normal(s, Cycle(n), h, SET)
    ensures K.Record(s, Cycle(n), h).written == Words(if n + 1 < TWO then n + 1 else TWO)
  {
    L.GoingGood(s, h, SET, 4);
    FifoShort(s, h);
    WordsSound(if n + 1 < TWO then n + 1 else TWO);
    if n < TWO {
      WordsGrow(n);
    }
    hide L.Going, Turns, Resting, L.Sound, Words, P.Observe;
  }

  lemma FifoShort(s: Sys, h: K.Hist)
    requires K.Good(s, h)
    ensures |s.txFifo| <= |h.written|
  {
    hide Alink.Inv, P.Inv, K.Concat;
  }

  lemma RestCycle(s: Sys, n: nat)
    requires Sized(s) && Resting(s) && Fits(Cycle(n))
    ensures Resting(Next(s, Cycle(n)))
  {
    hide Next, R.AtRest, RxStarts, Cycle, Fits, Reset;
    CycleFits(n);
    CycleRests(n);
    forall k | 0 <= k < PHYS
      ensures R.AtRest(Next(s, Cycle(n)).rx[k]) && Next(s, Cycle(n)).rx[k].push == 0
    {
      RestsOn(s, Cycle(n), k);
      PushMoves(s, Cycle(n), k);
    }
  }

  lemma CycleRests(n: nat)
    ensures |Cycle(n).lines| == PHYS && forall k :: 0 <= k < PHYS ==> Cycle(n).lines[k] == HIGH
  {}

  // Turn by turn.

  /** What the sender does in one cycle. */
  lemma SenderMoves(s: Sys, i: In)
    requires Lockstep(s) && Fits(i) && !Reset(i)
    ensures var u := Next(s, i);
            && (s.txc.state.Sent? && s.phy.state.Task? ==> u.txc.state.Sent? && (u.phy.state.Task? || u.phy.idVld))
            && (s.txc.state.Sent? && s.phy.idVld ==> u.txc.state.Sent? && !u.phy.state.Task? && !u.phy.idVld)
            && (s.txc.state.Sent? && u.txc.state.Sent? && !s.phy.state.Task? ==> !u.phy.state.Task? && !u.phy.idVld)
            && (!s.txc.state.Sent? && u.txc.state.Sent? ==> u.phy.state.Task?)
            && (s.txc.state.Idle? ==> !u.txc.state.Sent?)
  {
    PhyMoves(s.phy, PhyIn(s, i));
    IdVldAfterTask(s.phy, PhyIn(s, i));
    hide Any, A.Arbitrate, BusyVector, P.Next, C.Next, R.Next, T.Next, Fifo;
  }

  lemma IdVldAfterTask(p: P.TxPhy, i: P.In)
    ensures p.state.Task? && !i.rst ==> P.Next(p, i).state.Task? || P.Next(p, i).idVld
  {
    hide P.NextLine, P.NextPop, P.NextFlg, P.NextData, P.NextCounts, P.NextIds;
  }

  lemma StartedMoves(s: Sys, h: K.Hist, i: In)
    requires K.Good(s, h) && Sized(s) && Fits(i) && !Reset(i)
    ensures var u, g := Next(s, i), K.Record(s, i, h);
            && Started(u, g) == Started(s, h) + (if s.phy.idVld then 1 else 0)
            && |g.tasks| == |h.tasks| + (if s.txc.state.Sent? && !u.txc.state.Sent? then 1 else 0)
  {
    L.GoodIsInv(s, h);
    SenderMoves(s, i);
    IdVldWhen(s);
    if s.txc.state.Sent? {
      K.OneCycleOfTask(s, i, h);
    } else {
      L.IdleRecords(s, i, h);
    }
    hide K.Good, Next, K.Record, Alink.Inv;
  }

  lemma IdVldWhen(s: Sys)
    requires Lockstep(s)
    ensures s.phy.idVld ==> s.txc.state.Sent? && s.phy.state.Hash?
  {}

  lemma TimerStays(t: T.Timer, tout: nat)
    requires T.Regular(t, TOUT) && !t.busy
    ensures T.Next(t, false, false, tout, false) == T.Timer(0, false)
    ensures T.Next(t, false, false, tout, true).busy && T.Next(t, false, false, tout, true).timer <= 1
  {
    T.Low(tout);
  }

  lemma RegularOf(s: Sys, h: K.Hist, k: nat)
    requires L.Going(s, h, SET, 4) && k < PHYS
    ensures T.Regular(s.timers[k], TOUT) && Alink.Inv(s) && Sized(s) && (s.timers[k].busy ==> s.phy.tout == TOUT)
  {
    L.GoingGood(s, h, SET, 4);
    L.GoodIsInv(s, h);
    hide K.Good, T.Regular, Alink.Inv;
  }

  /** One cycle of a timer that is not due. */
  lemma TimerTurns(s: Sys, h: K.Hist, i: In, n: nat, k: nat)
    requires L.Going(s, h, SET, 4) && Sized(s) && Fits(i) && !Reset(i) && k < PHYS && s.timers[k].timer <= n < TOUT
    ensures var t := Next(s, i).timers[k]; (t.busy <==> s.timers[k].busy || TimerStart(s, k)) && t.timer <= n + 1
  {
    RegularOf(s, h, k);
    TimerMoves(s, i, k);
    FlushIsReset(i);
    if s.timers[k].busy {
      if TimerStart(s, k) {
        NeverRestarted(s, k);
      }
      T.Nears(s.timers[k], TOUT);
    } else {
      TimerStays(s.timers[k], s.phy.tout);
    }
    hide L.Going, Next, T.Next, T.Regular, Alink.Inv;
  }

  lemma OnlyAt(k: nat, j: nat)
    requires k < PHYS
    ensures Only(j)[k] <==> k == j
  {}

  lemma ArbitrateTurn(busy: seq<bool>, m: nat)
    requires |busy| == PHYS && m < PHYS && forall k :: 0 <= k < PHYS ==> (busy[k] <==> k < m)
    ensures A.Arbitrate(busy, ALL) == Only(m)
  {
    assert m == 0 || m == 1 || m == 2 || m == 3 || m == 4;
  }

  lemma SelectTurn(s: Sys, h: K.Hist, i: In, n: nat)
    requires Lockstep(s) && Fits(i) && !Reset(i) && i.mask == ALL && Turns(s, h, n) && |h.tasks| < 2
    ensures var u := Next(s, i);
            && (s.txc.state.Idle? ==> u.txc.sel == Only(|h.tasks|))
            && (s.txc.state.Sent? && !u.txc.state.Sent? ==> u.txc.state.Idle? && u.txc.sel == Only(PHYS))
            && (!s.txc.state.Idle? && !(s.txc.state.Sent? && !u.txc.state.Sent?) ==> u.txc.sel == s.txc.sel)
  {
    if s.txc.state.Idle? {
      IdVldWhen(s);
      ArbitrateTurn(BusyVector(s), |h.tasks|);
    } else {
      SelectionStands(s, i);
      NoneIs(Next(s, i).txc.sel);
    }
    hide Any, Only, A.Arbitrate, P.Next, C.Next, R.Next, T.Next, Fifo;
  }

  lemma NoneIs(sel: seq<bool>)
    requires |sel| == PHYS
    ensures !Any(sel) ==> sel == Only(PHYS)
  {
    if !Any(sel) {
      forall k | 0 <= k < PHYS
        ensures sel[k] == Only(PHYS)[k]
      {
        assert !sel[k];
      }
    }
  }

  lemma TurnsKeep(s: Sys, h: K.Hist, n: nat)
    requires Early(s, h, n) && |h.tasks| < 2 && n < TOUT && Fits(Cycle(n)) && !Reset(Cycle(n))
    ensures Turns(Next(s, Cycle(n)), K.Record(s, Cycle(n), h), n + 1)
  {
    hide L.Going, K.Good, Alink.Inv, Next, K.Record, Only, Resting, Any, Lockstep, Cycle, Words;
    var i := Cycle(n);
    var u, g := Next(s, i), K.Record(s, i, h);
    CycleMask(n);
    L.GoingGood(s, h, SET, 4);
    L.GoodIsInv(s, h);
    StartedMoves(s, h, i);
    SelectTurn(s, h, i, n);
    IdVldWhen(s);
    forall k | 0 <= k < PHYS
      ensures (u.timers[k].busy <==> k < Started(u, g)) && u.timers[k].timer <= n + 1
    {
      TimerTurns(s, h, i, n, k);
      OnlyAt(k, |h.tasks|);
    }
  }

  lemma CycleMask(n: nat)
    ensures Cycle(n).mask == ALL
  {}

  lemma EarlyKeeps(s: Sys, h: K.Hist, n: nat)
    requires Early(s, h, n) && |h.tasks| < 2 && n < TOUT
    ensures Fits(Cycle(n)) && !Reset(Cycle(n)) && L.Normal(s, Cycle(n), h, SET)
    ensures Early(Next(s, Cycle(n)), K.Record(s, Cycle(n), h), n + 1)
  {
    CycleNormal(s, h, n);
    RestCycle(s, n);
    TurnsKeep(s, h, n);
    L.GoingKeeps(s, Cycle(n), h, SET, 4);
    hide L.Going, Turns, Resting, L.Normal, Next, K.Record, Words;
  }

  // Until both have been sent.

  /** Cycles within which the next task ends once its words are there, and all of it. */
  const SPAN := 20168
  const LIMIT := TWO + 2 * SPAN

  lemma EarlyRank(s: Sys, h: K.Hist, n: nat)
    requires Early(s, h, n) && |h.tasks| < 2
    ensures 0 < L.Rank(s, h, SET, 4) < SPAN
  {
    L.RankPositive(s, h, SET, 4);
    StepCeiling();
    hide L.Going, Any, L.Longest, L.HasCeiling;
  }

  ghost function Cost(s: Sys, h: K.Hist, n: nat): int
    requires Sized(s)
  {
    if n < TWO then TWO + (2 - |h.tasks|) * SPAN else n + (1 - |h.tasks|) * SPAN + L.Rank(s, h, SET, 4)
  }

  lemma CostKeeps(s: Sys, h: K.Hist, n: nat, u: Sys, g: K.Hist)
    requires Early(s, h, n) && |h.tasks| < 2 && Cost(s, h, n) <= LIMIT && Fits(Cycle(n)) && L.Normal(s, Cycle(n), h, SET)
    requires Early(u, g, n + 1) && |g.tasks| < 2 && u == Next(s, Cycle(n)) && g == K.Record(s, Cycle(n), h)
    ensures Cost(u, g, n + 1) <= LIMIT
  {
    hide Early, L.Going, L.Normal, L.Rank, Next, K.Record, Cycle, Fits;
    EarlyRank(s, h, n);
    EarlyRank(u, g, n + 1);
    if n >= TWO {
      EarlyWritten(s, h, n);
      L.RankFalls(s, Cycle(n), h, SET, 4);
    }
  }

  lemma EarlyWritten(s: Sys, h: K.Hist, n: nat)
    requires Early(s, h, n)
    ensures Sized(s) && L.Going(s, h, SET, 4) && |h.written| == if n < TWO then n else TWO
  {
    hide L.Going;
  }

  lemma CycleFits(n: nat)
    ensures Fits(Cycle(n)) && !Reset(Cycle(n))
  {}

  lemma ScriptFits(n: nat, m: nat)
    ensures forall j :: 0 <= j < m ==> Fits(Script(n, m)[j]) && !Reset(Script(n, m)[j])
  {
    hide Cycle, Fits, Reset;
    forall j | 0 <= j < m
      ensures Fits(Script(n, m)[j]) && !Reset(Script(n, m)[j])
    {
      CycleFits(n + j);
    }
  }

  ghost function Played(s: Sys, n: nat, m: nat): (u: Sys)
    requires Sized(s)
    ensures Sized(u)
  {
    ScriptFits(n, m);
    Run(s, Script(n, m))
  }

  lemma PlayedOne(s: Sys, n: nat, m: nat)
    requires Sized(s)
    ensures Played(s, n, 0) == s
    ensures Fits(Cycle(n)) && Played(s, n, m + 1) == Played(Next(s, Cycle(n)), n + 1, m)
  {
    hide Next, Fits, Cycle, Reset;
    CycleFits(n);
    ScriptFits(n, m + 1);
    ScriptFits(n + 1, m);
    assert Script(n, m + 1)[1..] == Script(n + 1, m);
  }

  lemma CostLeaves(s: Sys, h: K.Hist, n: nat)
    requires Early(s, h, n) && |h.tasks| < 2 && Cost(s, h, n) <= LIMIT
    ensures n < LIMIT < TOUT
  {
    EarlyRank(s, h, n);
    hide L.Going, L.Rank, Turns, Resting;
  }

  lemma TasksSoFar(s: Sys, h: K.Hist, n: nat)
    requires Early(s, h, n)
    ensures |h.tasks| <= 2 && Sized(s)
  {
    hide L.Going;
  }

  lemma {:induction false} Walk(s: Sys, h: K.Hist, n: nat) returns (m: nat, g: K.Hist)
    requires Early(s, h, n) && Sized(s) && |h.tasks| < 2 && Cost(s, h, n) <= LIMIT
    ensures Early(Played(s, n, m), g, n + m) && |g.tasks| == 2 && n + m <= LIMIT
    decreases LIMIT - n
  {
    hide Early, Cost, Next, K.Record, L.Normal, Cycle, Script, Fits, Reset, Played;
    CostLeaves(s, h, n);
    EarlyKeeps(s, h, n);
    var u, f := Next(s, Cycle(n)), K.Record(s, Cycle(n), h);
    TasksSoFar(u, f, n + 1);
    if |f.tasks| == 2 {
      m, g := 0, f;
    } else {
      CostKeeps(s, h, n, u, f);
      m, g := Walk(u, f, n + 1);
    }
    PlayedOne(u, n + 1, 0);
    PlayedOne(s, n, m);
    m := m + 1;
  }

  /** From reset the script leads to a state in which PHYs 0 and 1 are busy for a long time to come. */
  lemma TwoBusy(s: Sys, i: In) returns (m: nat, g: K.Hist)
    requires Sized(s) && Fits(i) && i.rst && s.phy.step < W32 && Dout(s) < W32
    ensures Early(Played(Next(s, i), 0, m), g, m) && |g.tasks| == 2 && m <= LIMIT
  {
    hide Early, Next, Played, Fits, L.Going, Only;
    L.GoingFromReset(s, i, SET, 4);
    Resets(s, i);
    EarlyBegins(Next(s, i));
    m, g := Walk(Next(s, i), K.EMPTY, 0);
  }

  lemma EarlyBegins(s: Sys)
    requires AfterReset(s) && L.Going(s, K.EMPTY, SET, 4)
    ensures Early(s, K.EMPTY, 0) && Cost(s, K.EMPTY, 0) <= LIMIT
  {
    hide L.Going, Only;
    assert Words(0) == [];
  }

  // The results up to there.

  function IdsOf(s: Sys): (ids: seq<(nat, nat)>)
    requires Sized(s)
    ensures |ids| == PHYS && Named(s, ids)
  {
    seq(PHYS, k requires 0 <= k < PHYS => (s.rx[k].idH, s.rx[k].idL))
  }

  lemma ResetBegins(s: Sys)
    requires AfterReset(s)
    ensures Good(s, EMPTY, IdsOf(s)) && Load(s) == 0
  {
    ResetInv(s);
    hide Alink.Inv, Only;
    assert [] + (s.rxFifo + OnOutput(s)) == Concat([]) + [];
  }

  ghost predicate Still(s: Sys, ins: seq<In>) {
    && Sized(s) && (forall k :: 0 <= k < PHYS ==> R.AtRest(s.rx[k]))
    && (forall j :: 0 <= j < |ins| ==> Fits(ins[j]) && !Reset(ins[j]))
    && forall j, k :: 0 <= j < |ins| && 0 <= k < PHYS ==> ins[j].lines[k] == HIGH
  }

  lemma StillOne(s: Sys, ins: seq<In>)
    requires Still(s, ins) && |ins| > 0
    ensures Fits(ins[0]) && !Reset(ins[0]) && FirstStart(s) == PHYS && Still(Next(s, ins[0]), ins[1..])
  {
    hide R.AtRest, RxStarts, Next, Fits;
    forall k | 0 <= k < PHYS
      ensures R.AtRest(Next(s, ins[0]).rx[k]) && !RxStarts(s, k)
    {
      RestsOn(s, ins[0], k);
    }
  }

  lemma StillRecords(s: Sys, i: In, h: Hist, ids: seq<(nat, nat)>)
    requires Sized(s) && h.cur == PHYS && |ids| == PHYS && !Reset(i) && FirstStart(s) == PHYS
    ensures var g := Record(s, i, h, ids); g.cur == PHYS && g.parts == h.parts
  {}

  /** As long as all lines rest nothing is selected. */
  lemma {:induction false} StillRun(s: Sys, h: Hist, ids: seq<(nat, nat)>, ins: seq<In>)
    requires Good(s, h, ids) && h.cur == PHYS && Still(s, ins)
    ensures Sized(s) && forall j :: 0 <= j < |ins| ==> Fits(ins[j])
    ensures var (u, g, r) := After(s, h, ids, ins);
            u == Run(s, ins) && Good(u, g, r) && g.cur == PHYS && g.parts == h.parts && Load(u) <= Load(s)
    decreases |ins|
  {
    GoodShaped(s, h, ids);
    assert forall j :: 0 <= j < |ins| ==> Fits(ins[j]);
    hide Good, Next, Record, Recent, Still, Load, FirstStart, Fits, Reset;
    if |ins| > 0 {
      StillOne(s, ins);
      AfterOne(s, h, ids, ins);
      StillRecords(s, ins[0], h, ids);
      LoadMoves(s, ins[0], h, ids);
      StillRun(Next(s, ins[0]), Record(s, ins[0], h, ids), Recent(s, ids), ins[1..]);
    }
  }

  lemma {:induction false} AfterCat(s: Sys, h: Hist, ids: seq<(nat, nat)>, a: seq<In>, b: seq<In>)
    requires Good(s, h, ids) && (forall j :: 0 <= j < |a| ==> Fits(a[j]) && !Reset(a[j])) && forall j :: 0 <= j < |b| ==> Fits(b[j])
    ensures forall j :: 0 <= j < |a + b| ==> Fits((a + b)[j])
    ensures var (u, g, r) := After(s, h, ids, a); Good(u, g, r) && After(s, h, ids, a + b) == After(u, g, r, b)
    decreases |a|
  {
    hide Good, Next, Record, Recent, Fits, Reset;
    if |a| == 0 {
      assert a + b == b;
    } else {
      AfterOne(s, h, ids, a);
      AfterCat(Next(s, a[0]), Record(s, a[0], h, ids), Recent(s, ids), a[1..], b);
      var c := a + b;
      assert c[0] == a[0] && c[1..] == a[1..] + b;
      AfterOne(s, h, ids, c);
    }
  }

  // Two signals.

  const PULSE := [R.Pulse(true, 1, 2)]

  lemma PulseIs()
    ensures R.Firm(PULSE) && R.Signal(PULSE) == [LOW, Sym(true), Sym(true)]
  {
    assert R.Signal([]) == [];
    assert PULSE[..0] == [];
    assert Hold(LOW, 1) == [LOW] && Hold(Sym(true), 2) == [Sym(true), Sym(true)];
  }

  /** The line of a PHY that sends a one after w cycles, n cycles in all. */
  function Line(w: nat, n: nat): (x: seq<Level>)
    requires n >= w + 3
    ensures |x| == n
  {
    Hold(HIGH, w) + [LOW, Sym(true), Sym(true)] + Hold(HIGH, n - w - 3)
  }

  lemma LineIs(w: nat, n: nat)
    requires n >= w + 3
    ensures Line(w, n) == R.Around(w, R.Signal(PULSE), n - w - 3)
  {
    PulseIs();
    hide R.Signal;
  }

  /** PHY 0 sends at once, PHY 1 after d cycles. */
  function Pair(d: nat, n: nat): (ins: seq<In>)
    requires n >= d + 3
    ensures |ins| == n
  {
    seq(n, k requires 0 <= k < n => In(false, false, ALL, false, false, 0, false, [Line(0, n)[k], Line(d, n)[k], HIGH, HIGH, HIGH]))
  }

  lemma PairFits(d: nat, n: nat)
    requires n >= d + 3
    ensures forall k :: 0 <= k < n ==> Fits(Pair(d, n)[k]) && !Reset(Pair(d, n)[k]) && !Pair(d, n)[k].push
    ensures forall j, k :: 0 <= k < n && 2 <= j < PHYS ==> Pair(d, n)[k].lines[j] == HIGH
    ensures LinesOf(Pair(d, n), 0) == Line(0, n) && LinesOf(Pair(d, n), 1) == Line(d, n)
  {
    hide Line;
  }

  /** With nothing written and nothing in the FIFO the sender stays idle and the timeout register keeps its value. */
  ghost predicate Drained(s: Sys, tout: nat) {
    Lockstep(s) && s.phy.state.Idle? && s.txFifo == [] && s.phy.tout == tout
  }

  lemma DrainedKeeps(s: Sys, i: In, tout: nat)
    requires Drained(s, tout) && Fits(i) && !Reset(i) && !i.push
    ensures Drained(Next(s, i), tout)
  {
    LockstepKeeps(s, i);
    PhyMoves(s.phy, PhyIn(s, i));
    PhyStep(s, i);
    ToutMoves(s.phy, PhyIn(s, i));
    FifoStays(s, i);
    hide Next, P.Next, Lockstep;
  }

  lemma FifoStays(s: Sys, i: In)
    requires Lockstep(s) && s.phy.state.Idle? && s.txFifo == [] && Fits(i) && !Reset(i) && !i.push
    ensures Next(s, i).txFifo == []
  {
    hide A.Next, P.Next, C.Next, R.Next, T.Next;
  }

  lemma {:induction false} DrainedSteady(s: Sys, ins: seq<In>, tout: nat)
    requires Drained(s, tout) && forall j :: 0 <= j < |ins| ==> Fits(ins[j]) && !Reset(ins[j]) && !ins[j].push
    ensures Sized(s) && Steady(s, ins, tout)
    decreases |ins|
  {
    if |ins| > 0 {
      DrainedKeeps(s, ins[0], tout);
      hide Next, Lockstep, Fits, Reset;
      DrainedSteady(Next(s, ins[0]), ins[1..], tout);
    }
  }

  /** After both tasks nothing is left to send, and both PHYs are busy. */
  lemma BothStarted(s: Sys, h: K.Hist, n: nat)
    requires Early(s, h, n) && |h.tasks| == 2
    ensures Drained(s, TOUT) && Resting(s) && s.timers[0].busy && s.timers[1].busy
    ensures forall k :: 0 <= k < PHYS ==> s.timers[k].timer <= n && T.Regular(s.timers[k], TOUT)
  {
    L.GoingGood(s, h, SET, 4);
    L.GoodIsInv(s, h);
    NothingLeft(s, h);
    RegularOf(s, h, 0);
    forall k | 0 <= k < PHYS
      ensures T.Regular(s.timers[k], TOUT) && (s.timers[k].busy ==> s.phy.tout == TOUT)
    {
      RegularOf(s, h, k);
    }
    hide L.Going, K.Good, Alink.Inv, Lockstep, Words, Only, T.Regular, R.AtRest;
  }

  lemma NothingLeft(s: Sys, h: K.Hist)
    requires K.Good(s, h) && |h.tasks| == 2 && |h.written| <= TWO
    ensures s.phy.state.Idle? && s.txFifo == []
  {
    K.ConcatLength(h.tasks);
    hide Alink.Inv, P.Inv, K.Concat;
  }

  lemma PairBrought(s: Sys, d: nat, n: nat, k: nat, w: nat)
    requires Alink.Inv(s) && Drained(s, TOUT) && Resting(s) && n > d + 10 && k < 2 && w == (if k == 0 then 0 else d)
    requires s.timers[k].busy && T.Regular(s.timers[k], TOUT) && s.timers[k].timer + n <= TOUT
    ensures Brought(s, Pair(d, n), TOUT, k, w, PULSE, n - w - 3) && At(w, PULSE) == w + 5
  {
    hide Alink.Inv, T.Regular, Line, Pair, R.Around, R.Firm, R.Signal, Lockstep, Steady, Fits, Reset, LinesOf, R.AtRest;
    PulseIs();
    PairFits(d, n);
    DrainedSteady(s, Pair(d, n), TOUT);
    LineIs(w, n);
    Alink.InvSized(s);
  }

  lemma PairQuiet(s: Sys, d: nat, n: nat, k: nat)
    requires Sized(s) && Resting(s) && n > d + 10 && 2 <= k < PHYS
    ensures Quiet(s, Pair(d, n), k)
  {
    PairFits(d, n);
    hide Pair, R.AtRest, Fits, Reset;
  }

  lemma PairSignals(s: Sys, d: nat, n: nat)
    requires Alink.Inv(s) && Drained(s, TOUT) && Resting(s) && n > d + 10
    requires forall k :: 0 <= k < 2 ==> s.timers[k].busy && T.Regular(s.timers[k], TOUT) && s.timers[k].timer + n <= TOUT
    ensures Signals(s, Pair(d, n), TOUT, 0, 0, PULSE, n - 3, 1, d, PULSE, n - d - 3) && At(0, PULSE) == 5 && At(d, PULSE) == d + 5
  {
    hide Alink.Inv, T.Regular, Pair, R.Around, R.Firm, R.Signal, Lockstep, Fits, Reset, Brought, Quiet, Resting, At;
    Alink.InvSized(s);
    PairBrought(s, d, n, 0, 0);
    PairBrought(s, d, n, 1, d);
    forall k | 0 <= k < PHYS && k != 0 && k != 1
      ensures Quiet(s, Pair(d, n), k)
    {
      PairQuiet(s, d, n, k);
    }
  }

  lemma ScriptStill(s: Sys, m: nat)
    requires AfterReset(s)
    ensures Still(s, Script(0, m))
  {
    ScriptFits(0, m);
    RestIsHigh();
    forall j | 0 <= j < m
      ensures Script(0, m)[j].lines == REST
    {
      assert Script(0, m)[j] == Cycle(j);
    }
    hide Only, Fits, Reset, Script;
  }

  lemma RestIsHigh()
    ensures |REST| == PHYS && forall k :: 0 <= k < PHYS ==> REST[k] == HIGH
  {}

  /** The run: both tasks are sent, and some time later PHYs 0 and 1 bring results that end d cycles apart. */
  function Scene(m: nat, d: nat, n: nat): (ins: seq<In>)
    requires n >= d + 3
  {
    Script(0, m) + Pair(d, n)
  }

  /** From reset, for every distance d and for as long afterwards as timers run, there is a run whose results are those
      that TwoSignals says. */
  lemma Clash(s: Sys, i: In, d: nat, n: nat) returns (m: nat, a: Part, b: Part)
    requires Sized(s) && Fits(i) && i.rst && s.phy.step < W32 && Dout(s) < W32 && d + 10 < n <= TOUT - LIMIT
    ensures var u, ins := Next(s, i), Scene(m, d, n);
            && Good(u, EMPTY, IdsOf(u)) && (forall j :: 0 <= j < |ins| ==> Fits(ins[j]))
            && Whole(a) && a.phy == 0 && Whole(b) && b.phy == 1
            && After(u, EMPTY, IdsOf(u), ins).1.parts == Entered(0, 1, d, a, b)
  {
    hide Early, Next, Script, Pair, Good, Still, Load, Fits, Reset, After, IdsOf, Drained, Resting, T.Regular, Signals, Alink.Inv, Played, At, Entered;
    Resets(s, i);
    var u := Next(s, i);
    var g;
    m, g := TwoBusy(s, i);
    ResetBegins(u);
    ScriptStill(u, m);
    StillRun(u, EMPTY, IdsOf(u), Script(0, m));
    var (v, h, r) := After(u, EMPTY, IdsOf(u), Script(0, m));
    PlayedIs(u, m);
    BothStarted(v, g, m);
    GoodShaped(v, h, r);
    GoodNaming(v, h, r);
    PairSignals(v, d, n);
    Small(u, v);
    TwoSignals(v, h, r, Pair(d, n), TOUT, 0, 0, PULSE, n - 3, 1, d, PULSE, n - d - 3);
    PairFits(d, n);
    ScriptFits(0, m);
    AfterCat(u, EMPTY, IdsOf(u), Script(0, m), Pair(d, n));
    a, b := ResultOf(v, r, 0, 0, PULSE), ResultOf(v, r, 1, d, PULSE);
    NoParts(Entered(0, 1, d, a, b));
  }

  lemma NoParts(ps: seq<Part>)
    ensures [] + ps == ps
  {}

  lemma Small(u: Sys, v: Sys)
    requires Load(u) == 0 && Load(v) <= Load(u)
    ensures Load(v) <= ROOM
  {}

  lemma PlayedIs(s: Sys, m: nat)
    requires Sized(s)
    ensures forall j :: 0 <= j < m ==> Fits(Script(0, m)[j])
    ensures Played(s, 0, m) == Run(s, Script(0, m))
  {
    ScriptFits(0, m);
    hide Fits, Reset, Run, Script;
  }

  /** Two cycles apart: the first result leaves two words, and the five of the second follow. */
  lemma Garbled(s: Sys, i: In, n: nat) returns (m: nat)
    requires Sized(s) && Fits(i) && i.rst && s.phy.step < W32 && Dout(s) < W32 && 12 < n <= TOUT - LIMIT
    ensures var u, ins := Next(s, i), Scene(m, 2, n);
            && Good(u, EMPTY, IdsOf(u)) && (forall j :: 0 <= j < |ins| ==> Fits(ins[j]))
            && var ps := After(u, EMPTY, IdsOf(u), ins).1.parts;
               |ps| == 2 && ps[0].phy == 0 && |ps[0].words| == 2 && ps[1].phy == 1 && Whole(ps[1])
  {
    var a, b;
    hide Next, Script, Pair, Good, Fits, Reset, After, IdsOf, Scene;
    m, a, b := Clash(s, i, 2, n);
  }

  /** Five cycles apart: the second is lost, however long the run goes on while the timers run. */
  lemma Lost(s: Sys, i: In, n: nat) returns (m: nat)
    requires Sized(s) && Fits(i) && i.rst && s.phy.step < W32 && Dout(s) < W32 && 15 < n <= TOUT - LIMIT
    ensures var u, ins := Next(s, i), Scene(m, 5, n);
            && Good(u, EMPTY, IdsOf(u)) && (forall j :: 0 <= j < |ins| ==> Fits(ins[j]))
            && var ps := After(u, EMPTY, IdsOf(u), ins).1.parts; |ps| == 1 && ps[0].phy == 0 && Whole(ps[0])
  {
    var a, b;
    hide Next, Script, Pair, Good, Fits, Reset, After, IdsOf, Scene;
    m, a, b := Clash(s, i, 5, n);
  }
}
