/** From the lines of the chips to the results: what signals on the lines of busy PHYs leave in the FIFO. */
module AlinkSignals {
  import opened LineCode
  import opened Phys
  import opened Alink
  import opened AlinkResults
  import A = TxC
  import C = RxC
  import P = TxPhy
  import R = RxPhy
  import T = TxTimer

  // Runs cut in two.

  lemma {:induction false} RunPlus(s: Sys, ins: seq<In>, n: nat)
    requires Sized(s) && n < |ins| && forall j :: 0 <= j < |ins| ==> Fits(ins[j])
    ensures Run(s, ins[..n + 1]) == Next(Run(s, ins[..n]), ins[n])
    decreases n
  {
    hide Next, Fits;
    var u := ins[..n + 1];
    if n == 0 {
      assert u == [ins[0]] && u[1..] == [];
    } else {
      RunPlus(Next(s, ins[0]), ins[1..], n - 1);
      assert u[1..] == ins[1..][..n] && ins[..n][1..] == ins[1..][..n - 1];
    }
  }

  /** The receiver of PHY k sees this. */
  ghost function RxIns(s: Sys, ins: seq<In>, k: nat): (r: seq<R.In>)
    requires Sized(s) && k < PHYS && forall j :: 0 <= j < |ins| ==> Fits(ins[j])
    ensures |r| == |ins|
    decreases |ins|
  {
    if |ins| == 0 then [] else RxIns(s, ins[..|ins| - 1], k) + [RxIn(Run(s, ins[..|ins| - 1]), ins[|ins| - 1], k)]
  }

  lemma RxMoves(s: Sys, i: In, k: nat)
    requires Sized(s) && Fits(i) && k < PHYS
    ensures Next(s, i).rx[k] == R.Next(s.rx[k], RxIn(s, i, k))
  {
    hide A.Next, P.Next, C.Next, R.Next, T.Next, Fifo;
  }

  /** In the engine a receiver does what it does alone. */
  lemma {:induction false} ReceiverAlone(s: Sys, ins: seq<In>, k: nat)
    requires Sized(s) && k < PHYS && forall j :: 0 <= j < |ins| ==> Fits(ins[j])
    ensures Run(s, ins).rx[k] == R.Run(s.rx[k], RxIns(s, ins, k))
    decreases |ins|
  {
    hide Next, R.Next, RxIn, Run, Fits, R.Run;
    var n := |ins|;
    if n == 0 {
      NoneYet(s, ins, k);
    } else {
      var front := ins[..n - 1];
      ReceiverAlone(s, front, k);
      RunPlus(s, ins, n - 1);
      assert ins[..n] == ins;
      RxMoves(Run(s, front), ins[n - 1], k);
      OneMoreIn(s.rx[k], RxIns(s, front, k), RxIn(Run(s, front), ins[n - 1], k));
    }
  }

  lemma NoneYet(s: Sys, ins: seq<In>, k: nat)
    requires Sized(s) && k < PHYS && |ins| == 0
    ensures Run(s, ins).rx[k] == R.Run(s.rx[k], RxIns(s, ins, k))
  {}

  lemma OneMoreIn(r: R.RxPhy, xs: seq<R.In>, x: R.In)
    ensures R.Run(r, xs + [x]) == R.Next(R.Run(r, xs), x)
  {
    assert (xs + [x])[..|xs|] == xs;
    hide R.Next;
  }

  lemma {:induction false} RxInsPrefix(s: Sys, ins: seq<In>, k: nat, n: nat)
    requires Sized(s) && k < PHYS && n <= |ins| && forall j :: 0 <= j < |ins| ==> Fits(ins[j])
    ensures RxIns(s, ins[..n], k) == RxIns(s, ins, k)[..n]
    decreases |ins|
  {
    hide Run, RxIn, Fits;
    var m := |ins|;
    if n < m {
      RxInsPrefix(s, ins[..m - 1], k, n);
      assert ins[..m - 1][..n] == ins[..n];
    } else {
      assert ins[..n] == ins;
    }
  }

  lemma RxInsAt(s: Sys, ins: seq<In>, k: nat, n: nat)
    requires Sized(s) && k < PHYS && n < |ins| && forall j :: 0 <= j < |ins| ==> Fits(ins[j])
    ensures RxIns(s, ins, k)[n] == RxIn(Run(s, ins[..n]), ins[n], k)
  {
    hide Run, RxIn, Fits, RxIns;
    var front := ins[..n + 1];
    RxInsPrefix(s, ins, k, n + 1);
    RxInsLast(s, front, k);
    assert front[..n] == ins[..n] && front[n] == ins[n];
  }

  lemma RxInsLast(s: Sys, ins: seq<In>, k: nat)
    requires Sized(s) && k < PHYS && |ins| > 0 && forall j :: 0 <= j < |ins| ==> Fits(ins[j])
    ensures var n := |ins| - 1; RxIns(s, ins, k)[n] == RxIn(Run(s, ins[..n]), ins[n], k)
  {
    hide Run, RxIn, Fits;
  }

  // A PHY that stays busy.

  /** The timer runs for all of these cycles and does not expire. */
  ghost predicate StaysBusy(s: Sys, ins: seq<In>, tout: nat, k: nat) {
    && Alink.Inv(s) && Sized(s) && k < PHYS && Steady(s, ins, tout) && tout < T.LOW26
    && T.Regular(s.timers[k], tout) && s.timers[k].busy && s.timers[k].timer + |ins| <= tout
  }

  lemma BusyCycle(s: Sys, ins: seq<In>, tout: nat, k: nat)
    requires StaysBusy(s, ins, tout, k) && |ins| > 0
    ensures Fits(ins[0]) && !Reset(ins[0]) && !TimerStart(s, k)
    ensures var u := Next(s, ins[0]); StaysBusy(u, ins[1..], tout, k) && u.timers[k].timer == s.timers[k].timer + 1
  {
    Alink.InvKeeps(s, ins[0]);
    TimerMoves(s, ins[0], k);
    FlushIsReset(ins[0]);
    if TimerStart(s, k) {
      NeverRestarted(s, k);
    }
    T.RegularKeeps(s.timers[k], tout, false);
    T.Nears(s.timers[k], tout);
    hide Next, Alink.Inv, T.Next, T.Regular;
  }

  lemma {:induction false} BusyThroughout(s: Sys, ins: seq<In>, tout: nat, k: nat, n: nat)
    requires StaysBusy(s, ins, tout, k) && n <= |ins|
    ensures forall j :: 0 <= j < |ins| ==> Fits(ins[j]) && !Reset(ins[j])
    ensures Run(s, ins[..n]).timers[k] == T.Timer(s.timers[k].timer + n, true)
    ensures Alink.Inv(Run(s, ins[..n]))
    decreases |ins|
  {
    hide Next, StaysBusy, Alink.Inv;
    BusyNow(s, ins, tout, k);
    if |ins| > 0 {
      BusyCycle(s, ins, tout, k);
      BusyThroughout(Next(s, ins[0]), ins[1..], tout, k, if n > 0 then n - 1 else 0);
      assert n > 0 ==> ins[..n][1..] == ins[1..][..n - 1];
    }
  }

  lemma BusyNow(s: Sys, ins: seq<In>, tout: nat, k: nat)
    requires StaysBusy(s, ins, tout, k)
    ensures Sized(s) && Alink.Inv(s) && k < PHYS && s.timers[k] == T.Timer(s.timers[k].timer, true)
  {}

  // The schedule of starts.

  /** What a PHY does in a run: it starts no result, or one in cycle at, counted from now; from then on its register holds
      nonce, and due is the count of its timer when the fourth word is pushed. */
  datatype Sound = Mute | Sound(at: int, due: int, nonce: seq<bool>)

  function Later(g: Sound, n: nat): Sound {
    match g case Mute => Mute case Sound(at, due, nonce) => Sound(at - n, due, nonce)
  }

  ghost predicate Now(s: Sys, k: nat, g: Sound)
    requires Sized(s) && k < PHYS
  {
    match g
    case Mute => !RxStarts(s, k)
    case Sound(at, due, nonce) =>
      && (RxStarts(s, k) <==> at == 0) && (at <= 0 ==> s.rx[k].nonce == nonce)
      && s.timers[k].busy && s.timers[k].timer + at + 4 == due
  }

  type Score = gs: seq<Sound> | |gs| == PHYS witness [Mute, Mute, Mute, Mute, Mute]

  function Shift(gs: Score, n: nat): Score { seq(PHYS, k requires 0 <= k < PHYS => Later(gs[k], n)) }

  /** The run follows the score. */
  ghost predicate Plays(s: Sys, ins: seq<In>, gs: Score)
    requires Sized(s)
    decreases |ins|
  {
    |ins| > 0 ==>
      && Fits(ins[0]) && !Reset(ins[0]) && (forall k :: 0 <= k < PHYS ==> Now(s, k, gs[k]))
      && Plays(Next(s, ins[0]), ins[1..], Shift(gs, 1))
  }

  /** The first PHY that starts now, PHYS for none. */
  function First(gs: Score): (k: nat)
    ensures k <= PHYS
  {
    if gs[0].Sound? && gs[0].at == 0 then 0 else if gs[1].Sound? && gs[1].at == 0 then 1
    else if gs[2].Sound? && gs[2].at == 0 then 2 else if gs[3].Sound? && gs[3].at == 0 then 3
    else if gs[4].Sound? && gs[4].at == 0 then 4 else PHYS
  }

  lemma FirstIs(gs: Score)
    ensures First(gs) < PHYS ==> gs[First(gs)].Sound? && gs[First(gs)].at == 0
  {}

  lemma FirstStarts(s: Sys, gs: Score)
    requires Sized(s) && forall k :: 0 <= k < PHYS ==> Now(s, k, gs[k])
    ensures FirstStart(s) == First(gs) && (Silent(s) <==> First(gs) == PHYS)
  {
    hide RxStarts;
    assert Now(s, 0, gs[0]) && Now(s, 1, gs[1]) && Now(s, 2, gs[2]) && Now(s, 3, gs[3]) && Now(s, 4, gs[4]);
  }

  // The words of a result.

  /** The five words a PHY pushes: itself, the ids of its task, the count of its timer and the number received. */
  function Words(k: nat, task: (nat, nat), g: Sound): (ws: seq<nat>)
    requires g.Sound?
    ensures |ws| == WORDS
  {
    [k, task.0, task.1, if g.due < 0 then 0 else g.due, Value(g.nonce)]
  }

  /** The PHY selected has handed over the words before this cycle's. */
  ghost predicate Handing(h: Hist, gs: Score) {
    && h.cur <= PHYS
    && (h.cur < PHYS ==>
          var g := gs[h.cur];
          g.Sound? && |h.words| < WORDS && g.at == -(|h.words| + 1) && h.words == Words(h.cur, h.task, g)[..|h.words|])
  }

  lemma HandsOver(s: Sys, h: Hist, ids: seq<(nat, nat)>, gs: Score)
    requires Selected(s, h) && Naming(s, h, ids) && h.cur < PHYS && Handing(h, gs) && Now(s, h.cur, gs[h.cur])
    ensures Handed(s, h) == Words(h.cur, h.task, gs[h.cur])[..|h.words| + 1]
  {
    assert (s.rx[h.cur].idH, s.rx[h.cur].idL) == ids[h.cur];
    hide Only, Value, RxStarts;
  }

  /** Words the FIFO holds, with the one on its way. */
  function Load(s: Sys): nat { |s.rxFifo| + |OnOutput(s)| }

  ghost predicate Playing(s: Sys, h: Hist, ids: seq<(nat, nat)>, ins: seq<In>, gs: Score) {
    Good(s, h, ids) && Sized(s) && Plays(s, ins, gs) && Handing(h, gs)
  }

  /** What one cycle does to the selection and the parts. */
  ghost predicate Moved(s: Sys, h: Hist, ids: seq<(nat, nat)>, gs: Score, g: Hist)
    requires Handing(h, gs) && Sized(s) && |ids| == PHYS
  {
    var k := First(gs);
    if h.cur < PHYS && |h.words| == WORDS - 1 then
      g.cur == PHYS && g.parts == h.parts + [Part(h.cur, h.task, Words(h.cur, h.task, gs[h.cur]))]
    else if k < PHYS && !AlmostFull(s) then
      && g.cur == k && g.words == [] && g.task == ids[k]
      && g.parts == h.parts + if h.cur < PHYS then [Part(h.cur, h.task, Words(h.cur, h.task, gs[h.cur])[..|h.words| + 1])] else []
    else
      && g.cur == h.cur && g.parts == h.parts
      && (h.cur < PHYS ==> |g.words| == |h.words| + 1 && g.task == h.task)
  }

  /** A busy PHY keeps its ids. */
  lemma IdsStay(s: Sys, ids: seq<(nat, nat)>, k: nat)
    requires Alink.Inv(s) && k < PHYS && |ids| == PHYS && s.timers[k].busy
    ensures Recent(s, ids)[k] == ids[k]
  {
    if s.phy.idVld && s.phy.sel[k] {
      NeverRestarted(s, k);
    }
  }

  lemma OneBeat(s: Sys, h: Hist, ids: seq<(nat, nat)>, ins: seq<In>, gs: Score)
    requires Playing(s, h, ids, ins, gs) && |ins| > 0
    ensures |ids| == PHYS && h.cur <= PHYS && Fits(ins[0])
    ensures var u, g, r := Next(s, ins[0]), Record(s, ins[0], h, ids), Recent(s, ids);
            && Playing(u, g, r, ins[1..], Shift(gs, 1)) && Moved(s, h, ids, gs, g)
            && Load(u) <= Load(s) + (if h.cur < PHYS then 1 else 0)
            && forall k :: 0 <= k < PHYS && gs[k].Sound? ==> r[k] == ids[k]
  {
    hide Good, Next, Record, Recent, Handed, Now, Words, AlmostFull, Load, RxStarts, FirstStart, First, Handing, Moved, Shift, Reset, Fits;
    GoodShaped(s, h, ids);
    PlaysNow(s, ins, gs);
    GoodKeeps(s, ins[0], h, ids);
    GoodSelected(s, h, ids);
    GoodNaming(s, h, ids);
    FirstStarts(s, gs);
    LoadMoves(s, ins[0], h, ids);
    AllIdsStay(s, ids, gs);
    if h.cur < PHYS {
      HandsOver(s, h, ids, gs);
    }
    FirstIs(gs);
    BeatMoves(s, ins[0], h, ids, gs);
  }

  lemma PlaysNow(s: Sys, ins: seq<In>, gs: Score)
    requires Sized(s) && Plays(s, ins, gs) && |ins| > 0
    ensures Fits(ins[0]) && !Reset(ins[0]) && (forall k :: 0 <= k < PHYS ==> Now(s, k, gs[k]))
    ensures Plays(Next(s, ins[0]), ins[1..], Shift(gs, 1))
  {
    hide Next, Now, Shift, Fits;
  }

  lemma AllIdsStay(s: Sys, ids: seq<(nat, nat)>, gs: Score)
    requires Alink.Inv(s) && Sized(s) && |ids| == PHYS && forall k :: 0 <= k < PHYS ==> Now(s, k, gs[k])
    ensures forall k :: 0 <= k < PHYS && gs[k].Sound? ==> Recent(s, ids)[k] == ids[k]
  {
    forall k | 0 <= k < PHYS && gs[k].Sound?
      ensures Recent(s, ids)[k] == ids[k]
    {
      assert Now(s, k, gs[k]);
      IdsStay(s, ids, k);
    }
  }

  lemma GoodNaming(s: Sys, h: Hist, ids: seq<(nat, nat)>)
    requires Good(s, h, ids)
    ensures Naming(s, h, ids) && Alink.Inv(s)
  {}

  lemma LoadMoves(s: Sys, i: In, h: Hist, ids: seq<(nat, nat)>)
    requires Good(s, h, ids) && Sized(s) && Fits(i) && !Reset(i)
    ensures Load(Next(s, i)) <= Load(s) + (if h.cur < PHYS then 1 else 0)
  {
    NeverFull(s, h, ids);
    GoodSelected(s, h, ids);
    RxcFollows(s, i, h);
    RxFifoMoves(s, i);
    hide Good, Next, Only, Successor, Pushed;
  }

  lemma BeatMoves(s: Sys, i: In, h: Hist, ids: seq<(nat, nat)>, gs: Score)
    requires Selected(s, h) && Fits(i) && !Reset(i) && |ids| == PHYS && Handing(h, gs) && FirstStart(s) == First(gs)
    requires h.cur < PHYS ==> Handed(s, h) == Words(h.cur, h.task, gs[h.cur])[..|h.words| + 1]
    requires First(gs) < PHYS ==> gs[First(gs)].Sound? && gs[First(gs)].at == 0 && Recent(s, ids)[First(gs)] == ids[First(gs)]
    ensures var g := Record(s, i, h, ids); Moved(s, h, ids, gs, g) && Handing(g, Shift(gs, 1))
  {
    var k := First(gs);
    if k < PHYS && h.cur < PHYS {
      assert gs[k].at == 0 && gs[h.cur].at < 0;
    }
    assert h.parts + [] == h.parts;
    if h.cur < PHYS && |h.words| == WORDS - 1 {
      assert Words(h.cur, h.task, gs[h.cur])[..WORDS] == Words(h.cur, h.task, gs[h.cur]);
    }
    hide Next, Recent, Handed, Only, AlmostFull, RxStarts, Read, FirstStart, First;
  }

  // Points of a run.

  /** Where a run stands, with the cycles to come. */
  datatype Point = Point(s: Sys, h: Hist, ids: seq<(nat, nat)>, ins: seq<In>, gs: Score)

  ghost predicate On(p: Point) { Playing(p.s, p.h, p.ids, p.ins, p.gs) && |p.ids| == PHYS }

  /** What is left in the end. */
  ghost predicate Ends(p: Point, u: Sys, g: Hist, r: seq<(nat, nat)>) {
    && On(p) && (forall j :: 0 <= j < |p.ins| ==> Fits(p.ins[j])) && After(p.s, p.h, p.ids, p.ins) == (u, g, r)
  }

  /** The run goes from p to q in n cycles. */
  ghost predicate Leads(p: Point, n: nat, q: Point) {
    && On(p) && On(q) && n <= |p.ins| && q.ins == p.ins[n..] && q.gs == Shift(p.gs, n)
    && (forall k :: 0 <= k < PHYS && p.gs[k].Sound? ==> q.ids[k] == p.ids[k])
    && forall u, g, r :: Ends(q, u, g, r) ==> Ends(p, u, g, r)
  }

  lemma {:induction false} PlaysFits(s: Sys, ins: seq<In>, gs: Score)
    requires Sized(s) && Plays(s, ins, gs)
    ensures forall j :: 0 <= j < |ins| ==> Fits(ins[j]) && !Reset(ins[j])
    decreases |ins|
  {
    hide Next, Now, Fits;
    if |ins| > 0 {
      PlaysFits(Next(s, ins[0]), ins[1..], Shift(gs, 1));
    }
  }

  lemma ShiftMore(gs: Score, n: nat, m: nat)
    ensures Shift(Shift(gs, n), m) == Shift(gs, n + m) && Shift(gs, 0) == gs
  {
    forall k | 0 <= k < PHYS
      ensures Shift(Shift(gs, n), m)[k] == Shift(gs, n + m)[k]
    {}
  }

  lemma Stands(p: Point)
    requires On(p)
    ensures Leads(p, 0, p)
  {
    ShiftMore(p.gs, 0, 0);
    hide On, Shift;
  }

  lemma Onwards(p: Point, n: nat, q: Point, m: nat, r: Point)
    requires Leads(p, n, q) && Leads(q, m, r)
    ensures Leads(p, n + m, r)
  {
    ShiftMore(p.gs, n, m);
    assert p.ins[n..][m..] == p.ins[n + m..];
    forall k | 0 <= k < PHYS && p.gs[k].Sound?
      ensures r.ids[k] == p.ids[k]
    {
      assert q.gs[k].Sound?;
    }
    OnIds(p);
    OnIds(q);
    OnIds(r);
    hide On, Ends, Shift;
  }

  lemma OnIds(p: Point)
    requires On(p)
    ensures |p.ids| == PHYS && Good(p.s, p.h, p.ids) && Sized(p.s) && p.h.cur <= PHYS && Handing(p.h, p.gs)
    ensures p.h.cur < PHYS ==> p.h.task == p.ids[p.h.cur]
  {
    GoodShaped(p.s, p.h, p.ids);
    GoodNaming(p.s, p.h, p.ids);
    hide Good, Plays, Words, Names;
  }

  /** The result of PHY k in this run, sooner or later. */
  function Result(p: Point, k: nat): Part
    requires k < PHYS && |p.ids| == PHYS && p.gs[k].Sound?
  {
    Part(k, p.ids[k], Words(k, p.ids[k], p.gs[k]))
  }

  /** Only these two PHYs start results, in cycles a and b from now. */
  ghost predicate Duo(p: Point, j: nat, k: nat, a: int, b: int) {
    && On(p) && j < PHYS && k < PHYS && p.gs[j].Sound? && p.gs[k].Sound? && p.gs[j].at == a && p.gs[k].at == b
    && forall n :: 0 <= n < PHYS && n != j && n != k ==> p.gs[n].Mute?
  }

  lemma DuoLeads(p: Point, n: nat, q: Point, j: nat, k: nat, a: int, b: int)
    requires Leads(p, n, q) && Duo(p, j, k, a, b)
    ensures Duo(q, j, k, a - n, b - n) && n <= |p.ins| && |q.ins| == |p.ins| - n
    ensures |p.ids| == |q.ids| == PHYS && SameResult(p, q, j) && SameResult(p, q, k)
  {
    OnIds(p);
    OnIds(q);
    SameWords(j, p.ids[j], p.gs, n);
    SameWords(k, p.ids[k], p.gs, n);
    Shifted(p.gs, n);
    hide On, Ends, Words, Shift;
  }

  lemma Shifted(gs: Score, n: nat)
    ensures forall k :: 0 <= k < PHYS ==> Shift(gs, n)[k] == Later(gs[k], n)
  {}

  lemma SameWords(k: nat, task: (nat, nat), gs: Score, n: nat)
    requires k < PHYS && gs[k].Sound?
    ensures Shift(gs, n)[k].Sound? && Words(k, task, Shift(gs, n)[k]) == Words(k, task, gs[k])
  {}

  predicate SameResult(p: Point, q: Point, k: nat) {
    |p.ids| == |q.ids| == PHYS && k < PHYS && p.gs[k].Sound? && q.gs[k].Sound? && Result(q, k) == Result(p, k)
  }

  lemma DuoFirst(p: Point, j: nat, k: nat, a: int, b: int)
    requires Duo(p, j, k, a, b)
    ensures First(p.gs) == if a == 0 && b == 0 then (if j < k then j else k) else if a == 0 then j else if b == 0 then k else PHYS
  {
    hide On;
  }

  /** What one cycle does, with the results named. */
  ghost predicate Step(p: Point, k: nat, q: Point)
    requires On(p) && On(q) && (k < PHYS ==> p.gs[k].Sound?)
  {
    var h, g := p.h, q.h;
    OnIds(p);
    if h.cur < PHYS && |h.words| == WORDS - 1 then
      g.cur == PHYS && g.parts == h.parts + [Result(p, h.cur)]
    else if k < PHYS && !AlmostFull(p.s) then
      && g.cur == k && g.words == []
      && g.parts == if h.cur < PHYS then h.parts + [Cut(Result(p, h.cur), |h.words| + 1)] else h.parts
    else
      && g.cur == h.cur && g.parts == h.parts && (h.cur < PHYS ==> |g.words| == |h.words| + 1)
  }

  function Cut(p: Part, n: nat): Part
    requires n <= |p.words|
  {
    Part(p.phy, p.task, p.words[..n])
  }

  function NextPoint(p: Point): (q: Point)
    requires Sized(p.s) && p.h.cur <= PHYS && |p.ids| == PHYS && |p.ins| > 0 && Fits(p.ins[0])
  {
    Point(Next(p.s, p.ins[0]), Record(p.s, p.ins[0], p.h, p.ids), Recent(p.s, p.ids), p.ins[1..], Shift(p.gs, 1))
  }

  lemma EndsOne(p: Point, q: Point, u: Sys, g: Hist, r: seq<(nat, nat)>)
    requires On(p) && |p.ins| > 0 && Sized(p.s) && p.h.cur <= PHYS && |p.ids| == PHYS && Fits(p.ins[0]) && q == NextPoint(p) && Ends(q, u, g, r)
    ensures Ends(p, u, g, r)
  {
    PlaysFits(p.s, p.ins, p.gs);
    hide Next, Record, Recent, Good, Plays, Handing, Fits, Shift, After;
    AfterOne(p.s, p.h, p.ids, p.ins);
  }

  lemma StepIs(p: Point, q: Point)
    requires On(p) && On(q) && Sized(p.s) && |p.ids| == PHYS && Handing(p.h, p.gs) && Moved(p.s, p.h, p.ids, p.gs, q.h)
    ensures var k := First(p.gs); (k < PHYS ==> p.gs[k].Sound?) && Step(p, k, q)
  {
    OnIds(p);
    FirstIs(p.gs);
    assert p.h.parts + [] == p.h.parts;
    hide On, First, Words, AlmostFull;
  }

  lemma Beat(p: Point, k: nat) returns (q: Point)
    requires On(p) && |p.ins| > 0 && First(p.gs) == k
    ensures Leads(p, 1, q) && On(q) && (k < PHYS ==> p.gs[k].Sound?) && Step(p, k, q)
    ensures Load(q.s) <= Load(p.s) + (if p.h.cur < PHYS then 1 else 0)
  {
    OnIds(p);
    OneBeat(p.s, p.h, p.ids, p.ins, p.gs);
    q := NextPoint(p);
    assert On(q);
    hide Next, Record, Recent, Playing, Moved, Load, Good, Handing, Fits, First, Shift, Ends, Step;
    StepIs(p, q);
    forall u, g, r | Ends(q, u, g, r)
      ensures Ends(p, u, g, r)
    {
      EndsOne(p, q, u, g, r);
    }
  }

  // Stretches in which none starts.

  function Left(h: Hist): int { if h.cur < PHYS then WORDS - |h.words| else 0 }

  ghost predicate Kept(p: Point, n: nat, q: Point)
    requires On(p)
  {
    var h, g := p.h, q.h;
    OnIds(p);
    if h.cur == PHYS then g.cur == PHYS && g.parts == h.parts
    else if |h.words| + n < WORDS then g.cur == h.cur && |g.words| == |h.words| + n && g.parts == h.parts
    else g.cur == PHYS && g.parts == h.parts + [Result(p, h.cur)]
  }

  lemma KeptOne(p: Point, q: Point, n: nat, r: Point)
    requires On(p) && On(q) && Step(p, PHYS, q) && Kept(q, n, r) && (p.h.cur < PHYS ==> SameResult(p, q, p.h.cur))
    ensures Kept(p, n + 1, r) && Left(q.h) == if p.h.cur < PHYS then Left(p.h) - 1 else 0
  {
    OnIds(p);
    OnIds(q);
    hide On, Words;
  }

  lemma CurOf(p: Point, j: nat, k: nat, a: int, b: int)
    requires Duo(p, j, k, a, b)
    ensures On(p) && j < PHYS && k < PHYS && (p.h.cur == j || p.h.cur == k || p.h.cur == PHYS) && (p.h.cur < PHYS ==> |p.h.words| < WORDS)
  {
    OnIds(p);
    hide On;
  }

  lemma KeptNone(p: Point)
    requires On(p)
    ensures Kept(p, 0, p) && 0 <= Left(p.h)
  {
    OnIds(p);
    hide On, Words;
  }

  lemma {:induction false} Stretch(p: Point, j: nat, k: nat, a: int, b: int, n: nat) returns (q: Point)
    requires Duo(p, j, k, a, b) && On(p) && n <= |p.ins| && !(0 <= a < n) && !(0 <= b < n)
    ensures Leads(p, n, q) && Kept(p, n, q) && Load(q.s) <= Load(p.s) + Left(p.h)
    decreases n, 1
  {
    hide On, Leads, Kept, Load, First, Step, Duo, SameResult, Ends, Left;
    if n == 0 {
      Stands(p);
      KeptNone(p);
      q := p;
    } else {
      q := StretchOn(p, j, k, a, b, n);
    }
  }

  lemma {:induction false} StretchOn(p: Point, j: nat, k: nat, a: int, b: int, n: nat) returns (q: Point)
    requires Duo(p, j, k, a, b) && On(p) && 0 < n <= |p.ins| && !(0 <= a < n) && !(0 <= b < n)
    ensures Leads(p, n, q) && Kept(p, n, q) && Load(q.s) <= Load(p.s) + Left(p.h)
    decreases n, 0
  {
    hide On, Leads, Kept, Load, First, Step, Duo, SameResult, Ends, Left;
    DuoFirst(p, j, k, a, b);
    CurOf(p, j, k, a, b);
    var o := Beat(p, PHYS);
    DuoLeads(p, 1, o, j, k, a, b);
    q := Stretch(o, j, k, a - 1, b - 1, n - 1);
    KeptOne(p, o, n - 1, q);
    LeftOne(p.h);
    Onwards(p, 1, o, n - 1, q);
  }

  lemma LeftOne(h: Hist)
    ensures h.cur >= PHYS ==> Left(h) == 0
  {}

  // Two results.

  /** As long as the FIFO holds no more there is room for two results. */
  const ROOM := RX_DEPTH - 15

  lemma RoomIs(s: Sys)
    requires Load(s) <= ROOM + WORDS
    ensures !AlmostFull(s)
  {}

  /** What enters of the results of j and k, of which k's starts d cycles after j's. */
  function Entered(j: nat, k: nat, d: nat, a: Part, b: Part): seq<Part>
    requires |a.words| == WORDS
  {
    if d == 0 then [if j < k then a else b]
    else if d < WORDS then [Cut(a, d), b]
    else if d == WORDS then [a]
    else [a, b]
  }

  lemma BothFrom(p: Point, j: nat, k: nat, d: nat) returns (q: Point)
    requires Duo(p, j, k, 0, d) && p.h.cur == PHYS && Load(p.s) <= ROOM && |p.ins| > d + WORDS && |p.ids| == PHYS
    ensures Leads(p, |p.ins|, q) && q.h.cur == PHYS && q.h.parts == p.h.parts + Entered(j, k, d, Result(p, j), Result(p, k))
  {
    hide On, Leads, Load, Duo, Ends, Result;
    if d == 0 {
      q := Together(p, j, k);
    } else if d < WORDS {
      q := Garble(p, j, k, d);
    } else if d == WORDS {
      q := Lose(p, j, k);
    } else {
      q := Apart(p, j, k, d);
    }
  }

  /** One result enters whole: it is the first to start now, and none starts in the next five cycles. */
  lemma WholeFrom(p: Point, j: nat, k: nat, a: int, b: int, w: nat, n: nat) returns (q: Point)
    requires Duo(p, j, k, a, b) && On(p) && p.h.cur == PHYS && !AlmostFull(p.s) && First(p.gs) == w < PHYS
    requires WORDS < n <= |p.ins| && !(1 <= a < n) && !(1 <= b < n) && |p.ids| == PHYS
    ensures p.gs[w].Sound? && Leads(p, n, q) && q.h.cur == PHYS && q.h.parts == p.h.parts + [Result(p, w)]
    ensures Load(q.s) <= Load(p.s) + WORDS
  {
    hide On, Leads, Kept, Load, First, Step, Duo, SameResult, Ends, Result, AlmostFull, Left;
    DuoNames(p, j, k, a, b, w);
    var o := Beat(p, w);
    DuoLeads(p, 1, o, j, k, a, b);
    q := Stretch(o, j, k, a - 1, b - 1, n - 1);
    Onwards(p, 1, o, n - 1, q);
    Started(p, w, o, n - 1, q);
  }

  lemma DuoNames(p: Point, j: nat, k: nat, a: int, b: int, w: nat)
    requires Duo(p, j, k, a, b) && First(p.gs) == w < PHYS
    ensures p.gs[w].Sound? && (w == j || w == k)
  {
    hide On;
    FirstIs(p.gs);
  }

  lemma Started(p: Point, w: nat, o: Point, m: nat, q: Point)
    requires On(p) && On(o) && p.h.cur == PHYS && w < PHYS && !AlmostFull(p.s) && p.gs[w].Sound? && Step(p, w, o)
    requires m >= WORDS && Kept(o, m, q) && SameResult(p, o, w)
    ensures |p.ids| == PHYS && q.h.cur == PHYS && q.h.parts == p.h.parts + [Result(p, w)] && Left(o.h) == WORDS
  {
    OnIds(p);
    OnIds(o);
    hide On, Words;
  }

  lemma Together(p: Point, j: nat, k: nat) returns (q: Point)
    requires Duo(p, j, k, 0, 0) && p.h.cur == PHYS && Load(p.s) <= ROOM && |p.ins| > WORDS && |p.ids| == PHYS
    ensures Leads(p, |p.ins|, q) && q.h.cur == PHYS && q.h.parts == p.h.parts + Entered(j, k, 0, Result(p, j), Result(p, k))
  {
    hide On, Leads, Load, First, Result;
    CurOf(p, j, k, 0, 0);
    DuoFirst(p, j, k, 0, 0);
    RoomIs(p.s);
    q := WholeFrom(p, j, k, 0, 0, if j < k then j else k, |p.ins|);
  }

  lemma Apart(p: Point, j: nat, k: nat, d: nat) returns (q: Point)
    requires Duo(p, j, k, 0, d) && p.h.cur == PHYS && Load(p.s) <= ROOM && |p.ins| > d + WORDS && d > WORDS && |p.ids| == PHYS
    ensures Leads(p, |p.ins|, q) && q.h.cur == PHYS && q.h.parts == p.h.parts + [Result(p, j), Result(p, k)]
  {
    hide On, Leads, Load, First, Result, Duo, SameResult;
    CurOf(p, j, k, 0, d);
    DuoFirst(p, j, k, 0, d);
    RoomIs(p.s);
    var o := WholeFrom(p, j, k, 0, d, j, d);
    DuoLeads(p, d, o, j, k, 0, d);
    DuoFirst(o, j, k, 0 - d, 0);
    CurOf(o, j, k, 0 - d, 0);
    RoomIs(o.s);
    q := WholeFrom(o, j, k, 0 - d, 0, k, |o.ins|);
    Onwards(p, d, o, |o.ins|, q);
    ApartParts(p, o, q, j, k);
  }

  /** Up to the cycle in which k's result starts: d - 1 words of j's have been handed over, and it goes on or is done. */
  lemma Between(p: Point, j: nat, k: nat, d: nat) returns (q: Point)
    requires Duo(p, j, k, 0, d) && p.h.cur == PHYS && Load(p.s) <= ROOM && |p.ins| > d + WORDS && 0 < d <= WORDS
    ensures Leads(p, d, q) && q.h.cur == j && |q.h.words| == d - 1 && q.h.parts == p.h.parts && !AlmostFull(q.s)
  {
    hide On, Leads, Kept, Load, First, Step, Duo, SameResult, Ends, Result, AlmostFull, Left;
    CurOf(p, j, k, 0, d);
    DuoFirst(p, j, k, 0, d);
    DuoNames(p, j, k, 0, d, j);
    LoadIs(p.s);
    RoomIs(p.s);
    var o := Beat(p, j);
    DuoLeads(p, 1, o, j, k, 0, d);
    q := Stretch(o, j, k, -1, d - 1, d - 1);
    Onwards(p, 1, o, d - 1, q);
    BetweenIs(p, j, o, d - 1, q);
    RoomIs(q.s);
  }

  lemma LoadIs(s: Sys)
    requires Load(s) <= ROOM
    ensures Load(s) <= ROOM + WORDS
  {}

  lemma BetweenIs(p: Point, j: nat, o: Point, m: nat, q: Point)
    requires On(p) && On(o) && p.h.cur == PHYS && j < PHYS && !AlmostFull(p.s) && p.gs[j].Sound? && Step(p, j, o)
    requires m < WORDS && Kept(o, m, q)
    ensures q.h.cur == j && |q.h.words| == m && q.h.parts == p.h.parts && Left(o.h) == WORDS
  {
    OnIds(p);
    OnIds(o);
    hide On, Words;
  }

  /** A start within the first four cycles cuts the result in hand short. */
  lemma Garble(p: Point, j: nat, k: nat, d: nat) returns (q: Point)
    requires Duo(p, j, k, 0, d) && p.h.cur == PHYS && Load(p.s) <= ROOM && |p.ins| > d + WORDS && 0 < d < WORDS && |p.ids| == PHYS
    ensures Leads(p, |p.ins|, q) && q.h.cur == PHYS && q.h.parts == p.h.parts + [Cut(Result(p, j), d), Result(p, k)]
  {
    hide On, Leads, Kept, Load, First, Step, Duo, SameResult, Ends, Result, AlmostFull, Left;
    CurOf(p, j, k, 0, d);
    var o := Between(p, j, k, d);
    DuoLeads(p, d, o, j, k, 0, d);
    CurOf(o, j, k, 0 - d, 0);
    DuoFirst(o, j, k, 0 - d, 0);
    DuoNames(o, j, k, 0 - d, 0, k);
    var w := Beat(o, k);
    DuoLeads(o, 1, w, j, k, 0 - d, 0);
    q := Stretch(w, j, k, 0 - d - 1, -1, |w.ins|);
    Onwards(o, 1, w, |w.ins|, q);
    Onwards(p, d, o, 1 + |w.ins|, q);
    GarbleIs(p, j, k, d, o, w, |w.ins|, q);
  }

  lemma GarbleIs(p: Point, j: nat, k: nat, d: nat, o: Point, w: Point, m: nat, q: Point)
    requires On(o) && On(w) && j < PHYS && k < PHYS && SameResult(p, o, j) && SameResult(p, o, k) && SameResult(o, w, k)
    requires o.h.cur == j && |o.h.words| == d - 1 && 0 < d < WORDS && o.h.parts == p.h.parts && !AlmostFull(o.s)
    requires Step(o, k, w) && m >= WORDS && Kept(w, m, q)
    ensures q.h.cur == PHYS && q.h.parts == p.h.parts + [Cut(Result(p, j), d), Result(p, k)]
  {
    OnIds(o);
    OnIds(w);
    hide On, Words, AlmostFull;
  }

  /** A start in the fifth is lost. */
  lemma Lose(p: Point, j: nat, k: nat) returns (q: Point)
    requires Duo(p, j, k, 0, WORDS) && p.h.cur == PHYS && Load(p.s) <= ROOM && |p.ins| > WORDS + WORDS && |p.ids| == PHYS
    ensures Leads(p, |p.ins|, q) && q.h.cur == PHYS && q.h.parts == p.h.parts + [Result(p, j)]
  {
    hide On, Leads, Kept, Load, First, Step, Duo, SameResult, Ends, Result, AlmostFull, Left;
    CurOf(p, j, k, 0, WORDS);
    var o := Between(p, j, k, WORDS);
    DuoLeads(p, WORDS, o, j, k, 0, WORDS);
    CurOf(o, j, k, 0 - WORDS, 0);
    DuoFirst(o, j, k, 0 - WORDS, 0);
    DuoNames(o, j, k, 0 - WORDS, 0, k);
    var w := Beat(o, k);
    DuoLeads(o, 1, w, j, k, 0 - WORDS, 0);
    q := Stretch(w, j, k, 0 - WORDS - 1, -1, |w.ins|);
    Onwards(o, 1, w, |w.ins|, q);
    Onwards(p, WORDS, o, 1 + |w.ins|, q);
    LoseIs(p, j, k, o, w, |w.ins|, q);
  }

  lemma LoseIs(p: Point, j: nat, k: nat, o: Point, w: Point, m: nat, q: Point)
    requires On(o) && On(w) && j < PHYS && k < PHYS && SameResult(p, o, j) && o.gs[k].Sound?
    requires o.h.cur == j && |o.h.words| == WORDS - 1 && o.h.parts == p.h.parts
    requires Step(o, k, w) && Kept(w, m, q)
    ensures q.h.cur == PHYS && q.h.parts == p.h.parts + [Result(p, j)]
  {
    OnIds(o);
    OnIds(w);
    hide On, Words, AlmostFull;
  }

  lemma ApartParts(p: Point, o: Point, q: Point, j: nat, k: nat)
    requires |p.ids| == |o.ids| == PHYS && j < PHYS && k < PHYS && p.gs[j].Sound? && SameResult(p, o, k)
    requires o.h.parts == p.h.parts + [Result(p, j)] && q.h.parts == o.h.parts + [Result(o, k)]
    ensures q.h.parts == p.h.parts + [Result(p, j), Result(p, k)]
  {}

  // From the lines to the score.

  function LinesOf(ins: seq<In>, k: nat): (x: seq<Level>)
    requires k < PHYS && forall j :: 0 <= j < |ins| ==> Fits(ins[j])
    ensures |x| == |ins|
  {
    seq(|ins|, j requires 0 <= j < |ins| && Fits(ins[j]) => ins[j].lines[k])
  }

  /** PHY k is busy all the time, its receiver is at rest, and its line brings a signal after w cycles. */
  ghost predicate Brought(s: Sys, ins: seq<In>, tout: nat, k: nat, w: nat, ps: seq<R.Pulse>, m: nat) {
    && StaysBusy(s, ins, tout, k) && R.AtRest(s.rx[k]) && s.rx[k].push == 0 && R.Firm(ps) && |ps| > 0
    && (forall j :: 0 <= j < |ins| ==> Fits(ins[j]))
    && LinesOf(ins, k) == R.Around(w, R.Signal(ps), m)
  }

  /** The cycle in which the receiver has seen the end of the signal. */
  function At(w: nat, ps: seq<R.Pulse>): nat { w + |R.Signal(ps)| + 2 }

  function SoundOf(s: Sys, k: nat, w: nat, ps: seq<R.Pulse>): (g: Sound)
    requires Sized(s) && k < PHYS
    ensures g.Sound?
  {
    Sound(At(w, ps), s.timers[k].timer + At(w, ps) + 4, R.ShiftIn(s.rx[k].nonce, R.BitsOf(ps)))
  }

  lemma RxInIs(s: Sys, i: In, k: nat)
    requires Sized(s) && Fits(i) && k < PHYS && !Reset(i) && s.timers[k].busy
    ensures var x := RxIn(s, i, k); !x.rst && !x.flush && x.busy && x.line == i.lines[k]
  {}

  lemma BusyCarries(s: Sys, ins: seq<In>, tout: nat, k: nat)
    requires StaysBusy(s, ins, tout, k)
    ensures forall j :: 0 <= j < |ins| ==> Fits(ins[j])
    ensures R.Carries(RxIns(s, ins, k), LinesOf(ins, k))
  {
    hide StaysBusy, RxIn, RxIns, Run, Fits, Reset, Alink.Inv;
    BusyThroughout(s, ins, tout, k, 0);
    BusyNow(s, ins, tout, k);
    forall n | 0 <= n < |ins|
      ensures var x := RxIns(s, ins, k)[n]; !x.rst && !x.flush && x.busy && x.line == LinesOf(ins, k)[n]
    {
      BusyThroughout(s, ins, tout, k, n);
      RxInIs(Run(s, ins[..n]), ins[n], k);
      RxInsAt(s, ins, k, n);
    }
  }

  /** What the receiver does on its own, in the engine. */
  lemma Stops(s: Sys, ins: seq<In>, tout: nat, k: nat, w: nat, ps: seq<R.Pulse>, m: nat, n: nat)
    requires Brought(s, ins, tout, k, w, ps, m) && n <= |ins|
    ensures var r := Run(s, ins[..n]).rx[k];
            && (R.RxStop(r) <==> n == At(w, ps)) && (n >= At(w, ps) ==> r.nonce == R.ShiftIn(s.rx[k].nonce, R.BitsOf(ps)))
  {
    hide StaysBusy, RxIns, Run, Fits, R.Carries, R.Firm, R.Signal, R.Around, R.RxStop, R.Run, R.ShiftIn;
    BusyNow(s, ins, tout, k);
    BusyCarries(s, ins, tout, k);
    ReceiverAlone(s, ins[..n], k);
    RxInsPrefix(s, ins, k, n);
    R.Receives(s.rx[k], w, ps, m, RxIns(s, ins, k), n);
  }

  lemma StartIs(s: Sys, k: nat)
    requires Sized(s) && k < PHYS && s.timers[k].busy
    ensures RxStarts(s, k) <==> R.RxStop(s.rx[k]) && s.rx[k].push == 0
  {
    hide R.RxStop;
  }

  /** Until then it pushes nothing. */
  lemma {:induction false} NothingPushed(s: Sys, ins: seq<In>, tout: nat, k: nat, w: nat, ps: seq<R.Pulse>, m: nat, n: nat)
    requires Brought(s, ins, tout, k, w, ps, m) && n <= |ins| && n <= At(w, ps)
    ensures Run(s, ins[..n]).rx[k].push == 0
    decreases n
  {
    hide StaysBusy, Fits, R.Firm, R.Signal, R.Around, R.RxStop, Next, At, LinesOf;
    BusyNow(s, ins, tout, k);
    if n > 0 {
      NothingPushed(s, ins, tout, k, w, ps, m, n - 1);
      Stops(s, ins, tout, k, w, ps, m, n - 1);
      BusyThroughout(s, ins, tout, k, n - 1);
      RunPlus(s, ins, n - 1);
      var u := Run(s, ins[..n - 1]);
      StartIs(u, k);
      PushMoves(u, ins[n - 1], k);
    }
  }

  lemma SoundNow(s: Sys, ins: seq<In>, tout: nat, k: nat, w: nat, ps: seq<R.Pulse>, m: nat, n: nat)
    requires Brought(s, ins, tout, k, w, ps, m) && n <= |ins|
    ensures Now(Run(s, ins[..n]), k, Later(SoundOf(s, k, w, ps), n))
  {
    hide StaysBusy, Fits, R.Firm, R.Signal, R.Around, R.RxStop, R.ShiftIn, Next, At, Run, LinesOf, RxStarts;
    BusyNow(s, ins, tout, k);
    BusyThroughout(s, ins, tout, k, n);
    Stops(s, ins, tout, k, w, ps, m, n);
    StartIs(Run(s, ins[..n]), k);
    if n <= At(w, ps) {
      NothingPushed(s, ins, tout, k, w, ps, m, n);
    }
  }

  // A line at rest.

  lemma RestsOn(s: Sys, i: In, k: nat)
    requires Sized(s) && Fits(i) && k < PHYS && R.AtRest(s.rx[k]) && i.lines[k] == HIGH
    ensures R.AtRest(Next(s, i).rx[k]) && !RxStarts(s, k)
  {
    RxMoves(s, i, k);
    hide Next;
  }

  ghost predicate Quiet(s: Sys, ins: seq<In>, k: nat) {
    && Sized(s) && k < PHYS && R.AtRest(s.rx[k])
    && (forall j :: 0 <= j < |ins| ==> Fits(ins[j])) && forall j :: 0 <= j < |ins| ==> ins[j].lines[k] == HIGH
  }

  lemma {:induction false} MuteNow(s: Sys, ins: seq<In>, k: nat, n: nat)
    requires Quiet(s, ins, k) && n < |ins|
    ensures Now(Run(s, ins[..n]), k, Mute) && R.AtRest(Run(s, ins[..n]).rx[k])
    decreases n
  {
    hide R.AtRest, RxStarts, Fits, Next;
    if n > 0 {
      MuteNow(s, ins, k, n - 1);
      RunPlus(s, ins, n - 1);
      RestsOn(Run(s, ins[..n - 1]), ins[n - 1], k);
    }
    RestsOn(Run(s, ins[..n]), ins[n], k);
  }

  /** A run follows a score if each PHY does in each cycle. */
  lemma {:induction false} PlaysIf(s: Sys, ins: seq<In>, gs: Score)
    requires Sized(s) && forall j :: 0 <= j < |ins| ==> Fits(ins[j]) && !Reset(ins[j])
    requires forall n, k :: 0 <= n < |ins| && 0 <= k < PHYS ==> Now(Run(s, ins[..n]), k, Later(gs[k], n))
    ensures Plays(s, ins, gs)
    decreases |ins|
  {
    hide Next, Now, Fits, Later;
    if |ins| > 0 {
      var u := Next(s, ins[0]);
      forall k | 0 <= k < PHYS
        ensures Now(s, k, gs[k])
      {
        assert Now(Run(s, ins[..0]), k, Later(gs[k], 0));
        LaterNone(gs[k]);
      }
      forall n, k | 0 <= n < |ins| - 1 && 0 <= k < PHYS
        ensures Now(Run(u, ins[1..][..n]), k, Later(Shift(gs, 1)[k], n))
      {
        assert Now(Run(s, ins[..n + 1]), k, Later(gs[k], n + 1));
        assert ins[..n + 1][1..] == ins[1..][..n];
        LaterMore(gs[k], n);
      }
      PlaysIf(u, ins[1..], Shift(gs, 1));
    }
  }

  lemma LaterNone(g: Sound)
    ensures Later(g, 0) == g
  {}

  lemma LaterMore(g: Sound, n: nat)
    ensures Later(Later(g, 1), n) == Later(g, n + 1)
  {}

  // What the signals of two PHYs leave.

  /** The result of a signal: the PHY, the ids of its task, the count of its timer four cycles after the start, and the
      number the signal shifts into the register. */
  function ResultOf(s: Sys, ids: seq<(nat, nat)>, k: nat, w: nat, ps: seq<R.Pulse>): (r: Part)
    requires Sized(s) && k < PHYS && |ids| == PHYS
    ensures |r.words| == WORDS
  {
    Part(k, ids[k], [k, ids[k].0, ids[k].1, s.timers[k].timer + At(w, ps) + 4, Value(R.ShiftIn(s.rx[k].nonce, R.BitsOf(ps)))])
  }

  function Opening(s: Sys, j: nat, w: nat, ps: seq<R.Pulse>, k: nat, v: nat, qs: seq<R.Pulse>): (gs: Score)
    requires Sized(s) && j < PHYS && k < PHYS
  {
    var a, b := SoundOf(s, j, w, ps), SoundOf(s, k, v, qs);
    seq(PHYS, n requires 0 <= n < PHYS => if n == j then a else if n == k then b else Mute)
  }

  /** Two PHYs bring signals, the others none; with j == k there is one. */
  ghost predicate Signals(s: Sys, ins: seq<In>, tout: nat, j: nat, w: nat, ps: seq<R.Pulse>, m: nat, k: nat, v: nat, qs: seq<R.Pulse>, l: nat) {
    && Brought(s, ins, tout, j, w, ps, m) && Brought(s, ins, tout, k, v, qs, l) && (j == k ==> w == v && ps == qs)
    && forall n :: 0 <= n < PHYS && n != j && n != k ==> Quiet(s, ins, n)
  }

  lemma BroughtBusy(s: Sys, ins: seq<In>, tout: nat, k: nat, w: nat, ps: seq<R.Pulse>, m: nat)
    requires Brought(s, ins, tout, k, w, ps, m)
    ensures Sized(s) && k < PHYS && forall j :: 0 <= j < |ins| ==> Fits(ins[j]) && !Reset(ins[j])
  {
    BusyNow(s, ins, tout, k);
    BusyThroughout(s, ins, tout, k, 0);
  }

  lemma SignalsPlay(s: Sys, ins: seq<In>, tout: nat, j: nat, w: nat, ps: seq<R.Pulse>, m: nat, k: nat, v: nat, qs: seq<R.Pulse>, l: nat)
    requires Signals(s, ins, tout, j, w, ps, m, k, v, qs, l)
    ensures Sized(s) && j < PHYS && k < PHYS && (j == k ==> w == v && ps == qs) && Plays(s, ins, Opening(s, j, w, ps, k, v, qs))
  {
    hide Brought, Quiet, Plays, Now, Later, Run, SoundOf, Fits, Reset;
    BroughtBusy(s, ins, tout, j, w, ps, m);
    BroughtBusy(s, ins, tout, k, v, qs, l);
    var gs := Opening(s, j, w, ps, k, v, qs);
    forall n, i | 0 <= n < |ins| && 0 <= i < PHYS
      ensures Now(Run(s, ins[..n]), i, Later(gs[i], n))
    {
      if i == j {
        SoundNow(s, ins, tout, j, w, ps, m, n);
      } else if i == k {
        SoundNow(s, ins, tout, k, v, qs, l, n);
      } else {
        MuteNow(s, ins, i, n);
        LaterMute(n);
      }
    }
    PlaysIf(s, ins, gs);
  }

  lemma LaterMute(n: nat)
    ensures Later(Mute, n) == Mute
  {}

  lemma OpeningDuo(p: Point, j: nat, w: nat, ps: seq<R.Pulse>, k: nat, v: nat, qs: seq<R.Pulse>)
    requires Good(p.s, p.h, p.ids) && Sized(p.s) && p.h.cur == PHYS && |p.ids| == PHYS && j < PHYS && k < PHYS && (j == k ==> w == v && ps == qs)
    requires p.gs == Opening(p.s, j, w, ps, k, v, qs) && Plays(p.s, p.ins, p.gs)
    ensures Duo(p, j, k, At(w, ps), At(v, qs))
    ensures Result(p, j) == ResultOf(p.s, p.ids, j, w, ps) && Result(p, k) == ResultOf(p.s, p.ids, k, v, qs)
  {
    hide Good, Plays, At;
  }

  lemma Finish(p: Point, q: Point)
    requires Leads(p, |p.ins|, q)
    ensures (forall j :: 0 <= j < |p.ins| ==> Fits(p.ins[j])) && After(p.s, p.h, p.ids, p.ins) == (q.s, q.h, q.ids)
  {
    assert q.ins == [];
    assert Ends(q, q.s, q.h, q.ids);
    hide On;
  }

  /** Whatever two busy PHYs receive and whenever, with rxc at rest and room in the FIFO: of two results that end d cycles
      apart, with d at most four the first leaves its first d words, and with d five the second is lost; with d zero the
      one of the lower PHY enters. From six on both enter whole. */
  lemma TwoSignals(s: Sys, h: Hist, ids: seq<(nat, nat)>, ins: seq<In>, tout: nat, j: nat, w: nat, ps: seq<R.Pulse>, m: nat,
                   k: nat, v: nat, qs: seq<R.Pulse>, l: nat)
    requires Good(s, h, ids) && |ids| == PHYS && h.cur == PHYS && Load(s) <= ROOM && Signals(s, ins, tout, j, w, ps, m, k, v, qs, l)
    requires At(w, ps) <= At(v, qs) && |ins| > At(v, qs) + WORDS
    ensures Sized(s) && j < PHYS && k < PHYS && forall i :: 0 <= i < |ins| ==> Fits(ins[i])
    ensures var g := After(s, h, ids, ins).1;
            && g.cur == PHYS
            && g.parts == h.parts + Entered(j, k, At(v, qs) - At(w, ps), ResultOf(s, ids, j, w, ps), ResultOf(s, ids, k, v, qs))
  {
    hide Signals, On, Leads, Load, Duo, Ends, Result, ResultOf, At, Entered, Good, Plays, Opening, Fits, Kept, SameResult, After;
    SignalsPlay(s, ins, tout, j, w, ps, m, k, v, qs, l);
    var p := Point(s, h, ids, ins, Opening(s, j, w, ps, k, v, qs));
    var a, b := At(w, ps), At(v, qs);
    OpeningDuo(p, j, w, ps, k, v, qs);
    CurOf(p, j, k, a, b);
    var o := Stretch(p, j, k, a, b, a);
    StillNone(p, a, o);
    DuoLeads(p, a, o, j, k, a, b);
    var q := BothFrom(o, j, k, b - a);
    Onwards(p, a, o, |o.ins|, q);
    Finish(p, q);
    SameParts(p, o, j, k);
  }

  lemma StillNone(p: Point, n: nat, q: Point)
    requires On(p) && p.h.cur == PHYS && Kept(p, n, q)
    ensures q.h.cur == PHYS && q.h.parts == p.h.parts && Left(p.h) == 0
  {
    hide On;
  }

  lemma SameParts(p: Point, q: Point, j: nat, k: nat)
    requires SameResult(p, q, j) && SameResult(p, q, k)
    ensures |p.ids| == |q.ids| == PHYS && j < PHYS && k < PHYS && p.gs[j].Sound? && q.gs[j].Sound? && p.gs[k].Sound? && q.gs[k].Sound?
    ensures Result(q, j) == Result(p, j) && Result(q, k) == Result(p, k)
  {}

  /** One signal alone ends as one whole result. */
  lemma OneSignal(s: Sys, h: Hist, ids: seq<(nat, nat)>, ins: seq<In>, tout: nat, k: nat, w: nat, ps: seq<R.Pulse>, m: nat)
    requires Good(s, h, ids) && |ids| == PHYS && h.cur == PHYS && Load(s) <= ROOM && |ins| > At(w, ps) + WORDS
    requires Brought(s, ins, tout, k, w, ps, m) && forall n :: 0 <= n < PHYS && n != k ==> Quiet(s, ins, n)
    ensures Sized(s) && k < PHYS && forall i :: 0 <= i < |ins| ==> Fits(ins[i])
    ensures var g := After(s, h, ids, ins).1; g.cur == PHYS && g.parts == h.parts + [ResultOf(s, ids, k, w, ps)]
  {
    hide Brought, Quiet, Load, Good, After, ResultOf, At;
    TwoSignals(s, h, ids, ins, tout, k, w, ps, m, k, w, ps, m);
  }

  /** So what a chip sends as a transmitter does, the last of its words the number it has found, is read as a result: the
      PHY, the ids of the task most recently started there, the count of its timer, and that number. */
  lemma WaveResult(s: Sys, h: Hist, ids: seq<(nat, nat)>, ins: seq<In>, tout: nat, k: nat, w: nat, ws: seq<nat>, m: nat)
    requires Good(s, h, ids) && |ids| == PHYS && h.cur == PHYS && Load(s) <= ROOM && StaysBusy(s, ins, tout, k)
    requires R.AtRest(s.rx[k]) && s.rx[k].push == 0 && |s.rx[k].nonce| == 32 && |ws| > 0 && ws[|ws| - 1] < W32
    requires (forall i :: 0 <= i < |ins| ==> Fits(ins[i])) && LinesOf(ins, k) == R.Around(w, Wave(AllBits(ws)), m) && m > 2 + WORDS
    requires forall n :: 0 <= n < PHYS && n != k ==> Quiet(s, ins, n)
    ensures var g := After(s, h, ids, ins).1;
            && g.cur == PHYS
            && g.parts == h.parts + [Part(k, ids[k], [k, ids[k].0, ids[k].1, s.timers[k].timer + w + |Wave(AllBits(ws))| + 6, ws[|ws| - 1]])]
  {
    var bits := AllBits(ws);
    R.WaveIsSignal(bits);
    hide Wave, AllBits, R.Signal, R.Firm, Good, After, Load, StaysBusy, Quiet, Fits, ResultOf, R.Around;
    AroundLength(w, Wave(bits), m);
    BusyNow(s, ins, tout, k);
    AtWave(s, ids, k, w, ws);
    OneSignal(s, h, ids, ins, tout, k, w, R.PulsesOf(bits), m);
  }

  lemma AroundLength(w: nat, sig: seq<Level>, m: nat)
    ensures |R.Around(w, sig, m)| == w + |sig| + m
  {}

  lemma AtWave(s: Sys, ids: seq<(nat, nat)>, k: nat, w: nat, ws: seq<nat>)
    requires Sized(s) && k < PHYS && |ids| == PHYS && |s.rx[k].nonce| == 32 && |ws| > 0 && ws[|ws| - 1] < W32
    ensures var ps, n := R.PulsesOf(AllBits(ws)), w + |Wave(AllBits(ws))|;
            && At(w, ps) == n + 2
            && ResultOf(s, ids, k, w, ps) == Part(k, ids[k], [k, ids[k].0, ids[k].1, s.timers[k].timer + n + 6, ws[|ws| - 1]])
  {
    R.WaveIsSignal(AllBits(ws));
    R.LastWord(s.rx[k].nonce, ws);
    hide Wave, AllBits, R.Signal, R.Firm, Value, R.ShiftIn;
  }
}
