/** alink.v: the A-Link engine, its modules wired together, cycle by cycle. */
module Alink {
  import opened LineCode
  import opened Phys
  import A = TxC
  import T = TxTimer
  import P = TxPhy
  import R = RxPhy
  import C = RxC

  const TASK_WORDS := 23
  const TX_DEPTH := 1024
  const RX_DEPTH := 512

  /** The registers of all modules, and the two FIFOs, whose first word is on their output. */
  datatype Sys = Sys(txc: A.TxC, timers: seq<T.Timer>, phy: P.TxPhy, rx: seq<R.RxPhy>, rxc: C.RxC, txFifo: seq<nat>, rxFifo: seq<nat>)

  /** One cycle's inputs: reset and flush, the mask and scan registers, a word written to the transmit FIFO, a read of the
      receive FIFO, and the lines from the chips. */
  datatype In = In(rst: bool, flush: bool, mask: seq<bool>, scan: bool, push: bool, din: nat, pop: bool, lines: seq<Level>)

  predicate Sized(s: Sys) {
    && |s.timers| == |s.rx| == |s.txc.sel| == |s.phy.sel| == |s.rxc.sel| == PHYS
    && forall k :: 0 <= k < PHYS ==> T.Sized(s.timers[k])
  }

  predicate Fits(i: In) { |i.mask| == |i.lines| == PHYS && i.din < W32 }

  predicate Reset(i: In) { i.rst || i.flush }

  // Wires.

  predicate TimerStart(s: Sys, k: nat)
    requires Sized(s) && k < PHYS
  {
    s.phy.idVld && s.txc.sel[k]
  }

  predicate Busy(s: Sys, k: nat)
    requires Sized(s) && k < PHYS
  {
    TimerStart(s, k) || s.timers[k].busy
  }

  function BusyVector(s: Sys): (b: seq<bool>)
    requires Sized(s)
    ensures |b| == PHYS
  {
    seq(PHYS, k requires 0 <= k < PHYS => Busy(s, k))
  }

  predicate TaskVld(s: Sys) { |s.txFifo| >= TASK_WORDS }

  function Dout(s: Sys): nat { if |s.txFifo| > 0 then s.txFifo[0] else 0 }

  predicate AlmostFull(s: Sys) { |s.rxFifo| + 10 > RX_DEPTH }

  predicate RxEmpty(s: Sys) { |s.rxFifo| < 5 }

  function TxcIn(s: Sys, i: In): A.In
    requires Sized(s)
  {
    A.In(Reset(i), i.flush, i.mask, BusyVector(s), TaskVld(s), P.Done(s.phy))
  }

  function PhyIn(s: Sys, i: In): P.In {
    P.In(Reset(i), i.flush, i.scan, A.Starts(s.txc, TaskVld(s)), s.txc.sel, Dout(s))
  }

  function RxIn(s: Sys, i: In, k: nat): R.In
    requires Sized(s) && Fits(i) && k < PHYS
  {
    R.In(Reset(i), i.flush, Busy(s, k), s.phy.idVld && s.phy.sel[k], s.phy.idH, s.phy.idL, i.lines[k])
  }

  predicate RxStarts(s: Sys, k: nat)
    requires Sized(s) && k < PHYS
  {
    R.RxStart(s.rx[k], Busy(s, k))
  }

  function RxcIn(s: Sys, i: In): C.In
    requires Sized(s)
  {
    C.In(Reset(i), i.flush, AlmostFull(s),
         seq(PHYS, k requires 0 <= k < PHYS => RxStarts(s, k)),
         seq(PHYS, k requires 0 <= k < PHYS => R.RxLast(s.rx[k])),
         seq(PHYS, k requires 0 <= k < PHYS => R.RxDat(s.rx[k], k, s.timers[k].timer)))
  }

  function Taken(f: seq<nat>, pop: bool): seq<nat> { if pop && |f| > 0 then f[1..] else f }

  function Fifo(f: seq<nat>, rst: bool, pop: bool, push: bool, w: nat, depth: nat): seq<nat> {
    if rst then [] else Taken(f, pop) + if push && |f| < depth then [w] else []
  }

  /** One clock edge of everything. */
  function Next(s: Sys, i: In): (u: Sys)
    requires Sized(s) && Fits(i)
    ensures Sized(u)
  {
    Sys(A.Next(s.txc, TxcIn(s, i)),
        seq(PHYS, k requires 0 <= k < PHYS => T.Next(s.timers[k], Reset(i), i.flush, s.phy.tout, TimerStart(s, k))),
        P.Next(s.phy, PhyIn(s, i)),
        seq(PHYS, k requires 0 <= k < PHYS => R.Next(s.rx[k], RxIn(s, i, k))),
        C.Next(s.rxc, RxcIn(s, i)),
        Fifo(s.txFifo, Reset(i), P.Pops(s.phy), i.push, i.din, TX_DEPTH),
        Fifo(s.rxFifo, Reset(i), i.pop, s.rxc.vld, s.rxc.dat, RX_DEPTH))
  }

  // The two state machines in lockstep.

  /** Of tx_phy only this matters for control. */
  ghost predicate PhyShape(p: P.TxPhy) {
    && (p.idVld ==> p.state.Hash?)
    && (p.state.Task? ==> p.rdCnt < 4)
    && (p.hashPop ==> p.state.Hash?)
  }

  lemma PhyMoves(p: P.TxPhy, i: P.In)
    requires PhyShape(p)
    ensures var q := P.Next(p, i);
            && PhyShape(q)
            && (i.rst ==> q.state.Idle? && !q.idVld)
            && (!i.rst ==>
                  && (p.state.Idle? ==> q.state == (if i.start then P.Task else P.Idle) && !q.idVld)
                  && (p.state.Task? ==> (if q.state.Task? then q.rdCnt == p.rdCnt + 1 && !q.idVld else q.state.Hash? && p.rdCnt == 3))
                  && (P.Sending(p) ==> !q.idVld && !q.state.Task? && q.state.Idle? == P.Done(p)))
            && (p.state.Idle? && i.start ==> q.sel == i.phySel && (!i.rst ==> q.rdCnt == 0))
            && (!(p.state.Idle? && i.start) ==> q.sel == p.sel)
  {
    hide P.NextLine, P.NextFlg, P.NextData, P.NextIds;
  }

  /** txc is in SENT exactly while tx_phy is sending, and then both name the same PHY, if any. */
  ghost predicate Lockstep(s: Sys) {
    && Sized(s) && PhyShape(s.phy)
    && (s.txc.state.Sent? <==> !s.phy.state.Idle?)
    && AtMostOne(s.txc.sel)
    && (s.txc.state.Sent? ==> s.phy.sel == s.txc.sel)
  }

  lemma LockstepKeeps(s: Sys, i: In)
    requires Lockstep(s) && Fits(i)
    ensures Lockstep(Next(s, i))
  {
    PhyMoves(s.phy, PhyIn(s, i));
    A.ArbitrateChooses(BusyVector(s), i.mask);
    NoneChosen();
    hide Any, AtMostOne, A.Arbitrate, Only, BusyVector, P.Next, C.Next, R.Next, T.Next, PhyShape, Fifo;
  }

  // A selected PHY is free, and its receiver is done.

  /** Selected, its timer not yet started. */
  ghost predicate Waiting(s: Sys, k: nat)
    requires Sized(s) && k < PHYS
  {
    s.txc.sel[k] && (!s.txc.state.Sent? || s.phy.state.Task? || s.phy.idVld)
  }

  /** Cycles for which rx_vld stays high. */
  function Remaining(r: R.RxPhy): int { if r.push == 0 then 0 else 6 - r.push }

  /** How many of them there may be at most: the start of the task is at least one cycle further off. */
  function Budget(s: Sys): int {
    if !s.txc.state.Sent? then 4 else if s.phy.state.Task? then 3 - s.phy.rdCnt else 0
  }

  ghost predicate Calm(s: Sys, k: nat)
    requires Sized(s) && k < PHYS
  {
    && s.rx[k].push <= 5
    && (Waiting(s, k) ==> !s.timers[k].busy && R.AtRest(s.rx[k]) && Remaining(s.rx[k]) <= Budget(s))
  }

  ghost predicate Inv(s: Sys) {
    Lockstep(s) && forall k :: 0 <= k < PHYS ==> Calm(s, k)
  }

  /** A PHY that is not busy stays so, its receiver comes to rest and its push runs on. */
  lemma RestSettles(s: Sys, i: In, k: nat)
    requires Sized(s) && Fits(i) && k < PHYS && !Busy(s, k) && s.rx[k].push <= 5
    ensures var u := Next(s, i);
            && !u.timers[k].busy && R.AtRest(u.rx[k]) && u.rx[k].push <= 5
            && Remaining(u.rx[k]) <= if Remaining(s.rx[k]) > 0 then Remaining(s.rx[k]) - 1 else 0
  {
    hide P.Next, C.Next, A.Next, Fifo;
  }

  lemma PushBounded(s: Sys, i: In, k: nat)
    requires Sized(s) && Fits(i) && k < PHYS && s.rx[k].push <= 5
    ensures Next(s, i).rx[k].push <= 5
  {
    hide P.Next, C.Next, A.Next, T.Next, Fifo;
  }

  /** Whoever waits after an edge was not busy before it, and had cycles to spare. */
  lemma WaitsBecauseFree(s: Sys, i: In, k: nat)
    requires Inv(s) && Fits(i) && k < PHYS && Waiting(Next(s, i), k)
    ensures !Busy(s, k)
    ensures Budget(Next(s, i)) >= 0 && Remaining(s.rx[k]) - 1 <= Budget(Next(s, i))
  {
    assert Calm(s, k);
    PhyMoves(s.phy, PhyIn(s, i));
    A.ArbitrateChooses(BusyVector(s), i.mask);
    assert BusyVector(s)[k] == Busy(s, k);
    assert !Only(PHYS)[k];
    hide Any, AtMostOne, A.Arbitrate, Only, BusyVector, P.Next, C.Next, R.Next, T.Next, PhyShape, Fifo, R.AtRest;
  }

  lemma CalmKeeps(s: Sys, i: In, k: nat)
    requires Inv(s) && Fits(i) && k < PHYS
    ensures Calm(Next(s, i), k)
  {
    InvSized(s);
    assert Calm(s, k);
    hide Next, Lockstep;
    PushBounded(s, i, k);
    if Waiting(Next(s, i), k) {
      WaitsBecauseFree(s, i, k);
      RestSettles(s, i, k);
    }
  }

  lemma InvKeeps(s: Sys, i: In)
    requires Inv(s) && Fits(i)
    ensures Inv(Next(s, i))
  {
    hide Next, Lockstep, Calm;
    InvSized(s);
    LockstepKeeps(s, i);
    forall k | 0 <= k < PHYS
      ensures Calm(Next(s, i), k)
    {
      CalmKeeps(s, i, k);
    }
  }

  lemma InvSized(s: Sys)
    requires Inv(s)
    ensures Sized(s) && Lockstep(s)
  {}

  /** No task id arrives at a receiver that is pushing a result. */
  lemma NoCollision(s: Sys, k: nat)
    requires Inv(s) && k < PHYS && s.phy.idVld && s.phy.sel[k]
    ensures !R.RxVld(s.rx[k])
  {
    assert Calm(s, k) && Waiting(s, k);
  }

  /** No timer is started while it is busy. */
  lemma NeverRestarted(s: Sys, k: nat)
    requires Inv(s) && k < PHYS && TimerStart(s, k)
    ensures !s.timers[k].busy
  {
    assert Calm(s, k) && Waiting(s, k);
  }

  /** At most one line leaves 11, and only that of the PHY selected, while a task is being sent. */
  lemma OneLine(s: Sys, j: nat, k: nat)
    requires Inv(s) && j < PHYS && k < PHYS && s.txc.state.Sent?
    requires P.Wire(s.phy, j) != HIGH && P.Wire(s.phy, k) != HIGH
    ensures j == k && s.txc.sel[k]
  {}

  // Every run.

  function Run(s: Sys, ins: seq<In>): (u: Sys)
    requires Sized(s) && forall k :: 0 <= k < |ins| ==> Fits(ins[k])
    ensures Sized(u)
    decreases |ins|
  {
    if |ins| == 0 then s else Run(Next(s, ins[0]), ins[1..])
  }

  /** What reset leaves: the task and result registers hold anything. */
  predicate AfterReset(s: Sys) {
    && Sized(s) && s.txc == A.TxC(A.Idle, Only(PHYS)) && s.phy.state.Idle? && !s.phy.idVld && !s.phy.hashPop
    && s.rxc.sel == Only(PHYS) && !s.rxc.vld && s.txFifo == [] && s.rxFifo == []
    && forall k :: 0 <= k < PHYS ==> s.timers[k] == T.Timer(0, false) && s.rx[k].push == 0 && R.AtRest(s.rx[k])
  }

  /** Whatever the state was, one cycle of reset leaves this. */
  lemma Resets(s: Sys, i: In)
    requires Sized(s) && Fits(i) && i.rst
    ensures AfterReset(Next(s, i))
  {
    hide Only, P.NextLine, P.NextData, P.NextIds, R.ShiftIn;
  }

  lemma ResetInv(s: Sys)
    requires AfterReset(s)
    ensures Inv(s)
  {
    NoneChosen();
  }

  lemma {:induction false} RunKeeps(s: Sys, ins: seq<In>)
    requires Inv(s) && Sized(s) && forall k :: 0 <= k < |ins| ==> Fits(ins[k])
    ensures Inv(Run(s, ins))
    decreases |ins|
  {
    hide Inv, Next;
    if |ins| > 0 {
      InvKeeps(s, ins[0]);
      RunKeeps(Next(s, ins[0]), ins[1..]);
    }
  }

  /** In every run from reset, whatever the mask, the lines and the traffic: the state machines are in lockstep, no task id
      meets a result being pushed on the same PHY, and no busy timer is started. */
  lemma Safety(s: Sys, ins: seq<In>, k: nat)
    requires AfterReset(s) && k < PHYS && forall j :: 0 <= j < |ins| ==> Fits(ins[j])
    ensures var u := Run(s, ins);
            && (u.txc.state.Sent? <==> !u.phy.state.Idle?)
            && !(u.phy.idVld && u.phy.sel[k] && R.RxVld(u.rx[k]))
            && !(TimerStart(u, k) && u.timers[k].busy)
  {
    ResetInv(s);
    RunKeeps(s, ins);
    var u := Run(s, ins);
    hide Run;
    InvSized(u);
    if u.phy.idVld && u.phy.sel[k] {
      NoCollision(u, k);
    }
    if TimerStart(u, k) {
      NeverRestarted(u, k);
    }
  }

  // A stable mask.

  /** With mask the value of the mask register in the cycle before: a PHY is selected from REQ on, and it is enabled. */
  ghost predicate Chosen(s: Sys, mask: seq<bool>)
    requires Sized(s) && |mask| == PHYS
  {
    && (!s.txc.state.Idle? ==> Any(s.txc.sel))
    && forall k :: 0 <= k < PHYS && s.txc.sel[k] ==> mask[k]
  }

  /** As long as the mask changes only under reset or flush. */
  lemma ChosenKeeps(s: Sys, mask: seq<bool>, i: In)
    requires Inv(s) && Sized(s) && |mask| == PHYS && Chosen(s, mask) && Fits(i) && (i.mask == mask || Reset(i))
    ensures Chosen(Next(s, i), i.mask)
  {
    A.ArbitrateChooses(BusyVector(s), i.mask);
    NoneChosen();
    assert forall k :: 0 <= k < PHYS ==> !Only(PHYS)[k];
    if s.txc.state.Idle? && Any(s.txc.sel) {
      var k :| 0 <= k < PHYS && s.txc.sel[k];
      assert Calm(s, k) && Waiting(s, k);
      assert BusyVector(s)[k] == Busy(s, k);
    }
    hide A.Arbitrate, Only, BusyVector, P.Next, C.Next, R.Next, T.Next, Fifo, Calm;
  }

  /** So from REQ on exactly one is. */
  lemma ExactlyOne(s: Sys, mask: seq<bool>) returns (k: nat)
    requires Inv(s) && Sized(s) && |mask| == PHYS && Chosen(s, mask) && !s.txc.state.Idle?
    ensures k < PHYS && mask[k] && forall j :: 0 <= j < PHYS ==> (s.txc.sel[j] <==> j == k)
  {
    k :| 0 <= k < PHYS && s.txc.sel[k];
  }

  // A mask that changes.

  /** What the last cycle of IDLE leaves for REQ, for every mask: a PHY is selected if and only if one is free and enabled
      in that cycle, and it is the first such. */
  lemma RequestExact(s: Sys, i: In)
    requires Sized(s) && Fits(i) && !Reset(i) && s.txc.state.Idle? && Any(s.txc.sel)
    ensures var u := Next(s, i);
            && u.txc.state.Req?
            && (Any(u.txc.sel) <==> exists k :: 0 <= k < PHYS && !Busy(s, k) && i.mask[k])
            && AtMostOne(u.txc.sel)
            && forall k :: 0 <= k < PHYS && u.txc.sel[k] ==>
                 !Busy(s, k) && i.mask[k] && forall j :: 0 <= j < k ==> Busy(s, j) || !i.mask[j]
  {
    var b := BusyVector(s);
    assert forall k :: 0 <= k < PHYS ==> b[k] == Busy(s, k);
    Requests(s, i);
    A.ArbitrateChooses(b, i.mask);
    assert Next(s, i).txc.sel == A.Arbitrate(b, i.mask);
    hide AtMostOne, A.Arbitrate, BusyVector, Next, Busy;
  }

  /** From then on to the end of the task the selection stands. */
  lemma SelectionStands(s: Sys, i: In)
    requires Sized(s) && Fits(i) && !Reset(i) && !s.txc.state.Idle?
    ensures var u := Next(s, i); if u.txc.state.Idle? then !Any(u.txc.sel) else u.txc.sel == s.txc.sel
  {
    NoneChosen();
    hide Any, Only, P.Next, C.Next, R.Next, T.Next, Fifo, BusyVector;
  }

  /** A mask cleared in the last cycle of IDLE is one way to leave REQ without a PHY. */
  lemma MaskDropped(s: Sys, i: In)
    requires Sized(s) && Fits(i) && !Reset(i) && s.txc.state.Idle? && Any(s.txc.sel)
    requires forall k :: 0 <= k < PHYS && i.mask[k] ==> Busy(s, k)
    ensures Next(s, i).txc.state.Req? && !Any(Next(s, i).txc.sel)
  {
    RequestExact(s, i);
  }

  /** A task sent with no PHY selected: every line stays at 11 and no timer is started. */
  lemma Unheard(s: Sys, k: nat)
    requires Lockstep(s) && s.txc.state.Sent? && !Any(s.txc.sel) && k < PHYS
    ensures P.Wire(s.phy, k) == HIGH && !TimerStart(s, k)
  {}

  // Which task a result names.

  /** For each PHY the ids of the task most recently started on it; at first whatever its receiver holds. */
  function Recent(s: Sys, ids: seq<(nat, nat)>): (r: seq<(nat, nat)>)
    requires Sized(s) && |ids| == PHYS
    ensures |r| == PHYS
  {
    seq(PHYS, k requires 0 <= k < PHYS => if s.phy.idVld && s.phy.sel[k] then (s.phy.idH, s.phy.idL) else ids[k])
  }

  predicate Named(s: Sys, ids: seq<(nat, nat)>) {
    Sized(s) && |ids| == PHYS && forall k :: 0 <= k < PHYS ==> (s.rx[k].idH, s.rx[k].idL) == ids[k]
  }

  /** No task id is missed, so the second and third words of every result are those of the task most recently started. */
  lemma NamedKeeps(s: Sys, ids: seq<(nat, nat)>, i: In)
    requires Inv(s) && Named(s, ids) && Fits(i)
    ensures Named(Next(s, i), Recent(s, ids))
  {
    forall k | 0 <= k < PHYS
      ensures (Next(s, i).rx[k].idH, Next(s, i).rx[k].idL) == Recent(s, ids)[k]
    {
      if s.phy.idVld && s.phy.sel[k] {
        NoCollision(s, k);
      }
      CapturesIds(s, i, k);
      hide Next, Inv;
    }
    hide Next, Inv;
  }

  lemma CapturesIds(s: Sys, i: In, k: nat)
    requires Sized(s) && Fits(i) && k < PHYS && (s.phy.idVld && s.phy.sel[k] ==> !R.RxVld(s.rx[k]))
    ensures var r := Next(s, i).rx[k];
            (r.idH, r.idL) == if s.phy.idVld && s.phy.sel[k] then (s.phy.idH, s.phy.idL) else (s.rx[k].idH, s.rx[k].idL)
  {
    hide A.Next, P.Next, C.Next, T.Next, Fifo;
  }

  /** And they do not change while the result is being pushed. */
  lemma IdsSteady(s: Sys, ids: seq<(nat, nat)>, k: nat)
    requires Inv(s) && Named(s, ids) && k < PHYS && R.RxVld(s.rx[k])
    ensures Recent(s, ids)[k] == ids[k]
  {
    if s.phy.idVld && s.phy.sel[k] {
      NoCollision(s, k);
    }
  }

  /** The ids after a run. */
  function RecentRun(s: Sys, ids: seq<(nat, nat)>, ins: seq<In>): (r: seq<(nat, nat)>)
    requires Sized(s) && |ids| == PHYS && forall k :: 0 <= k < |ins| ==> Fits(ins[k])
    ensures |r| == PHYS
    decreases |ins|
  {
    if |ins| == 0 then ids else RecentRun(Next(s, ins[0]), Recent(s, ids), ins[1..])
  }

  lemma {:induction false} NamedRun(s: Sys, ids: seq<(nat, nat)>, ins: seq<In>)
    requires Inv(s) && Sized(s) && Named(s, ids) && forall k :: 0 <= k < |ins| ==> Fits(ins[k])
    ensures Named(Run(s, ins), RecentRun(s, ids, ins))
    decreases |ins|
  {
    hide Inv, Next, Recent;
    if |ins| > 0 {
      NamedSized(s, ids);
      InvKeeps(s, ins[0]);
      NamedKeeps(s, ids, ins[0]);
      hide Named;
      NamedRun(Next(s, ins[0]), Recent(s, ids), ins[1..]);
    }
  }

  lemma NamedSized(s: Sys, ids: seq<(nat, nat)>)
    requires Named(s, ids)
    ensures Sized(s) && |ids| == PHYS
  {}

  // The timers in the engine.

  /** No reset, and the timeout register keeps its value. */
  ghost predicate Steady(s: Sys, ins: seq<In>, tout: nat)
    requires Sized(s)
    decreases |ins|
  {
    |ins| > 0 ==> Fits(ins[0]) && !Reset(ins[0]) && s.phy.tout == tout && Steady(Next(s, ins[0]), ins[1..], tout)
  }

  ghost function StartsOf(s: Sys, ins: seq<In>, tout: nat, k: nat): seq<bool>
    requires Sized(s) && k < PHYS && Steady(s, ins, tout)
    decreases |ins|
  {
    if |ins| == 0 then [] else [TimerStart(s, k)] + StartsOf(Next(s, ins[0]), ins[1..], tout, k)
  }

  lemma {:induction false} SteadyFits(s: Sys, ins: seq<In>, tout: nat)
    requires Sized(s) && Steady(s, ins, tout)
    ensures forall k :: 0 <= k < |ins| ==> Fits(ins[k])
    decreases |ins|
  {
    hide Next, Fits, Sized, Reset;
    if |ins| > 0 {
      SteadyFits(Next(s, ins[0]), ins[1..], tout);
    }
  }

  /** The timer of a PHY runs as it does alone, and the arbiter never starts it while it is busy; so after each start it is
      busy for exactly the timeout modulo 2^26 cycles, and the PHY is then eligible again. */
  lemma {:induction false} TimerAlone(s: Sys, ins: seq<In>, tout: nat, k: nat)
    requires Inv(s) && Sized(s) && k < PHYS && Steady(s, ins, tout)
    ensures forall j :: 0 <= j < |ins| ==> Fits(ins[j])
    ensures var starts := StartsOf(s, ins, tout, k);
            && T.NoRestart(s.timers[k], tout, starts)
            && Run(s, ins).timers[k] == T.Run(s.timers[k], tout, starts)
    decreases |ins|
  {
    SteadyFits(s, ins, tout);
    if |ins| > 0 {
      var i := ins[0];
      var u := Next(s, i);
      InvKeeps(s, i);
      TimerAlone(u, ins[1..], tout, k);
      if TimerStart(s, k) {
        NeverRestarted(s, k);
      }
      TimerMoves(s, i, k);
      FlushIsReset(i);
      hide Inv, Next, T.Next;
      var starts := StartsOf(s, ins, tout, k);
      assert starts[0] == TimerStart(s, k) && starts[1..] == StartsOf(u, ins[1..], tout, k);
    }
  }

  lemma TimerMoves(s: Sys, i: In, k: nat)
    requires Sized(s) && Fits(i) && k < PHYS
    ensures Next(s, i).timers[k] == T.Next(s.timers[k], Reset(i), i.flush, s.phy.tout, TimerStart(s, k))
  {}

  lemma FlushIsReset(i: In)
    ensures i.flush ==> Reset(i)
  {}

  /** So after a start, with a timeout of 1 to 2^26 - 1, the PHY is busy for exactly that many cycles. */
  lemma BusyForTimeout(s: Sys, ins: seq<In>, tout: nat, k: nat)
    requires Inv(s) && Sized(s) && k < PHYS && Steady(s, ins, tout) && 0 < tout < T.LOW26
    requires T.Regular(s.timers[k], tout) && TimerStart(s, k) && 1 <= |ins| <= tout + 1
    ensures forall j :: 0 <= j < |ins| ==> Fits(ins[j])
    ensures Run(s, ins).timers[k].busy <==> |ins| <= tout
  {
    TimerAlone(s, ins, tout, k);
    NeverRestarted(s, k);
    var starts := StartsOf(s, ins, tout, k);
    StartsLength(s, ins, tout, k);
    assert starts[0] == TimerStart(s, k);
    assert starts[..|ins|] == starts;
    T.Low(tout);
    hide Inv, Next, T.Next, T.Run, Run;
    T.BusyExactly(s.timers[k], tout, starts, |ins|);
  }

  lemma {:induction false} StartsLength(s: Sys, ins: seq<In>, tout: nat, k: nat)
    requires Sized(s) && k < PHYS && Steady(s, ins, tout)
    ensures |StartsOf(s, ins, tout, k)| == |ins|
    decreases |ins|
  {
    hide Next;
    if |ins| > 0 {
      StartsLength(Next(s, ins[0]), ins[1..], tout, k);
    }
  }

  // From reset, when every task brings the same timeout.

  /** The fourth word of a task goes into the timeout register. */
  predicate Brings(s: Sys, tout: nat) {
    s.phy.state.Task? && s.phy.rdCnt == 3 ==> Dout(s) == tout
  }

  /** Until the first task is started no timer has run; from then on the register holds its timeout. */
  ghost predicate Timed(s: Sys, tout: nat) {
    && Sized(s)
    && (s.phy.idVld ==> s.phy.tout == tout)
    && (s.phy.tout == tout || forall k :: 0 <= k < PHYS ==> s.timers[k] == T.Timer(0, false))
    && (forall k :: 0 <= k < PHYS ==> T.Regular(s.timers[k], tout))
  }

  lemma ToutMoves(p: P.TxPhy, i: P.In)
    ensures var q := P.Next(p, i);
            && q.tout == (if p.state.Task? && p.rdCnt == 3 then i.dout else p.tout)
            && (q.idVld ==> p.state.Task? && p.rdCnt == 3)
  {
    hide P.NextLine, P.NextPop, P.NextFlg, P.NextData, P.NextCounts;
  }

  lemma NotRun(tout: nat, reset: bool, flush: bool)
    ensures T.Next(T.Timer(0, false), reset, flush, tout, false) == T.Timer(0, false)
  {}

  lemma TimerReset(t: T.Timer, flush: bool, tout: nat, start: bool)
    requires T.Sized(t)
    ensures T.Next(t, true, flush, tout, start) == T.Timer(0, false)
  {}

  lemma TimedKeeps(s: Sys, i: In, tout: nat)
    requires Inv(s) && Timed(s, tout) && Fits(i) && Brings(s, tout)
    ensures Timed(Next(s, i), tout)
  {
    var u := Next(s, i);
    ToutMoves(s.phy, PhyIn(s, i));
    FlushIsReset(i);
    forall k | 0 <= k < PHYS
      ensures T.Regular(u.timers[k], tout)
      ensures Reset(i) || (s.phy.tout != tout && s.timers[k] == T.Timer(0, false)) ==> u.timers[k] == T.Timer(0, false)
    {
      TimerMoves(s, i, k);
      if Reset(i) {
        TimerReset(s.timers[k], i.flush, s.phy.tout, TimerStart(s, k));
      } else if s.phy.tout == tout {
        if TimerStart(s, k) {
          NeverRestarted(s, k);
        }
        T.RegularKeeps(s.timers[k], tout, TimerStart(s, k));
      } else {
        NotRun(s.phy.tout, false, i.flush);
      }
      hide Next, Inv, T.Next, TimerStart;
    }
    hide Next, Inv, T.Next, T.Regular;
  }

  ghost predicate AllBring(s: Sys, ins: seq<In>, tout: nat)
    requires Sized(s)
    decreases |ins|
  {
    |ins| > 0 ==> Fits(ins[0]) && Brings(s, tout) && AllBring(Next(s, ins[0]), ins[1..], tout)
  }

  lemma {:induction false} BringFits(s: Sys, ins: seq<In>, tout: nat)
    requires Sized(s) && AllBring(s, ins, tout)
    ensures forall k :: 0 <= k < |ins| ==> Fits(ins[k])
    decreases |ins|
  {
    hide Next, Fits, Sized, Brings;
    if |ins| > 0 {
      BringFits(Next(s, ins[0]), ins[1..], tout);
    }
  }

  lemma {:induction false} TimedRun(s: Sys, ins: seq<In>, tout: nat)
    requires Inv(s) && Timed(s, tout) && AllBring(s, ins, tout)
    ensures forall k :: 0 <= k < |ins| ==> Fits(ins[k])
    ensures Inv(Run(s, ins)) && Timed(Run(s, ins), tout)
    decreases |ins|
  {
    BringFits(s, ins, tout);
    if |ins| > 0 {
      InvKeeps(s, ins[0]);
      TimedKeeps(s, ins[0], tout);
      hide Inv, Next, T.Regular, Brings;
      TimedRun(Next(s, ins[0]), ins[1..], tout);
    }
  }

  lemma ResetTimed(s: Sys, tout: nat)
    requires AfterReset(s)
    ensures Timed(s, tout)
  {}

  lemma {:induction false} BringsSteady(s: Sys, ins: seq<In>, tout: nat)
    requires Sized(s) && s.phy.tout == tout && AllBring(s, ins, tout) && forall k :: 0 <= k < |ins| ==> !Reset(ins[k])
    ensures Steady(s, ins, tout)
    decreases |ins|
  {
    if |ins| > 0 {
      ToutMoves(s.phy, PhyIn(s, ins[0]));
      PhyStep(s, ins[0]);
      hide Next, P.Next, Reset;
      BringsSteady(Next(s, ins[0]), ins[1..], tout);
    }
  }

  lemma PhyStep(s: Sys, i: In)
    requires Sized(s) && Fits(i)
    ensures Next(s, i).phy == P.Next(s.phy, PhyIn(s, i))
  {}

  /** In every run from reset in which each task brings the timeout tout, of 1 to 2^26 - 1: a PHY whose timer is started in
      the cycle after before is busy for exactly tout cycles. */
  lemma BusyFromReset(s: Sys, before: seq<In>, ins: seq<In>, tout: nat, k: nat)
    requires AfterReset(s) && 0 < tout < T.LOW26 && k < PHYS && forall j :: 0 <= j < |before| ==> Fits(before[j])
    requires AllBring(s, before, tout) && AllBring(Run(s, before), ins, tout)
    requires TimerStart(Run(s, before), k) && 1 <= |ins| <= tout + 1
    requires forall j :: 0 <= j < |ins| ==> Fits(ins[j]) && !Reset(ins[j])
    ensures Run(Run(s, before), ins).timers[k].busy <==> |ins| <= tout
  {
    ResetInv(s);
    ResetTimed(s, tout);
    TimedRun(s, before, tout);
    var u := Run(s, before);
    assert u.phy.tout == tout && T.Regular(u.timers[k], tout);
    hide Inv, T.Regular, Run;
    BringsSteady(u, ins, tout);
    BusyForTimeout(u, ins, tout, k);
  }

  /** And whatever made it busy, it is free again after what its timer lacks; so every enabled PHY becomes eligible again. */
  lemma FreeAgain(s: Sys, ins: seq<In>, tout: nat, k: nat)
    requires Inv(s) && Timed(s, tout) && 0 < tout < T.LOW26 && k < PHYS && s.timers[k].busy
    requires AllBring(s, ins, tout) && (forall j :: 0 <= j < |ins| ==> !Reset(ins[j])) && |ins| == tout + 1 - s.timers[k].timer
    ensures forall j :: 0 <= j < |ins| ==> Fits(ins[j])
    ensures !Run(s, ins).timers[k].busy
  {
    T.Low(tout);
    BringsSteady(s, ins, tout);
    TimerAlone(s, ins, tout, k);
    StartsLength(s, ins, tout, k);
    var starts := StartsOf(s, ins, tout, k);
    hide Inv, Next, Run, StartsOf, Steady;
    T.FreeWhenDue(s.timers[k], tout, starts);
  }

  // And then it gets a task.

  /** A free and enabled PHY, and a whole task in the FIFO. */
  ghost predicate Ready(s: Sys, mask: seq<bool>)
    requires Sized(s) && |mask| == PHYS
  {
    TaskVld(s) && exists k :: 0 <= k < PHYS && !Busy(s, k) && mask[k]
  }

  /** While tx_phy is idle nothing leaves the transmit FIFO. */
  lemma FifoGrows(s: Sys, i: In)
    requires Inv(s) && Sized(s) && Fits(i) && !Reset(i) && s.phy.state.Idle?
    ensures |Next(s, i).txFifo| >= |s.txFifo|
  {
    hide A.Next, P.Next, C.Next, R.Next, T.Next, Calm;
  }

  lemma Selects(s: Sys, i: In)
    requires Inv(s) && Sized(s) && Fits(i) && !Reset(i) && s.txc.state.Idle? && !Any(s.txc.sel) && Ready(s, i.mask)
    ensures Next(s, i).txc.state.Idle? && Any(Next(s, i).txc.sel)
  {
    A.ArbitrateChooses(BusyVector(s), i.mask);
    var k :| 0 <= k < PHYS && !Busy(s, k) && i.mask[k];
    assert BusyVector(s)[k] == Busy(s, k);
    hide Any, A.Arbitrate, BusyVector, P.Next, C.Next, R.Next, T.Next, Fifo, Calm;
  }

  lemma Requests(s: Sys, i: In)
    requires Sized(s) && Fits(i) && !Reset(i) && s.txc.state.Idle? && Any(s.txc.sel)
    ensures Next(s, i).txc.state.Req?
  {
    hide Any, A.Arbitrate, BusyVector, P.Next, C.Next, R.Next, T.Next, Fifo;
  }

  lemma Sends(s: Sys, i: In)
    requires Inv(s) && Sized(s) && Fits(i) && !Reset(i) && s.txc.state.Req? && TaskVld(s)
    ensures Next(s, i).phy.state.Task? && Next(s, i).phy.sel == s.txc.sel
  {
    PhyMoves(s.phy, PhyIn(s, i));
    hide P.Next, C.Next, R.Next, T.Next, Fifo, Calm;
  }

  /** With a stable mask, from idle the task is being sent three cycles later, to an enabled PHY. */
  lemma TaskBegins(s: Sys, mask: seq<bool>, i: In, j: In, l: In) returns (k: nat)
    requires Inv(s) && Sized(s) && |mask| == PHYS && Chosen(s, mask)
    requires Fits(i) && Fits(j) && Fits(l) && !Reset(i) && !Reset(j) && !Reset(l) && i.mask == j.mask == l.mask == mask
    requires s.txc.state.Idle? && !Any(s.txc.sel) && Ready(s, mask)
    ensures k < PHYS && mask[k]
    ensures var u := Next(Next(Next(s, i), j), l); u.phy.state.Task? && u.phy.sel[k]
  {
    hide Next, Inv, Any, Chosen, Lockstep;
    var a := Next(s, i);
    Selects(s, i);
    InvIdle(s);
    FifoGrows(s, i);
    InvKeeps(s, i);
    ChosenKeeps(s, mask, i);
    var b := Next(a, j);
    Requests(a, j);
    InvIdle(a);
    FifoGrows(a, j);
    InvKeeps(a, j);
    ChosenKeeps(a, mask, j);
    Sends(b, l);
    k := ExactlyOne(b, mask);
  }

  lemma InvIdle(s: Sys)
    requires Inv(s)
    ensures s.txc.state.Idle? ==> s.phy.state.Idle?
  {}
}
