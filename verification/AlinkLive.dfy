/** Progress of the A-Link engine: every work written is sent. */
module AlinkLive {
  import opened LineCode
  import opened Phys
  import opened Alink
  import opened AlinkTasks
  import A = TxC
  import T = TxTimer
  import P = TxPhy
  import C = RxC
  import R = RxPhy

  /** What stays the same: the mask, the timeout every work brings, and how many numbers a task has at most. */
  datatype Setting = Setting(mask: seq<bool>, tout: nat, most: nat)

  predicate Proper(c: Setting) { |c.mask| == PHYS && 0 < c.tout < T.LOW26 }

  ghost predicate HasCeiling(step: nat, most: nat) { exists n: nat :: n <= most && P.IsCeiling(n, step) }

  /** The third word of each work is a step, the fourth the timeout. */
  ghost predicate Sound(written: seq<nat>, c: Setting) {
    forall n :: 0 <= n < |written| ==>
      && (n % TASK_WORDS == 2 ==> HasCeiling(written[n], c.most)) && (n % TASK_WORDS == 3 ==> written[n] == c.tout)
  }

  /** With 2^32 numbers at most every step above zero will do. */
  lemma AnyStep(step: nat)
    requires step > 0
    ensures HasCeiling(step, W32)
  {
    P.CeilingExists(step);
    hide P.IsCeiling;
  }

  ghost predicate Going(s: Sys, h: Hist, c: Setting, k: nat) {
    && Proper(c) && Good(s, h) && Timed(s, c.tout) && Chosen(s, c.mask) && k < PHYS && c.mask[k] && Sound(h.written, c)
  }

  /** A cycle without reset or flush, with the mask as it is, and with no word lost or out of place. */
  ghost predicate Normal(s: Sys, i: In, h: Hist, c: Setting)
    requires Sized(s)
  {
    Fits(i) && !Reset(i) && Room(s, i) && i.mask == c.mask && Sound(Record(s, i, h).written, c)
  }

  // What the words written say about the task in hand.

  lemma {:induction false} TaskStart(tasks: seq<seq<nat>>, hand: seq<nat>, fifo: seq<nat>, written: seq<nat>, j: nat)
    requires written == Concat(tasks) + (hand + fifo) && (forall k :: 0 <= k < |tasks| ==> |tasks[k]| == TASK_WORDS)
    requires j < |hand| + |fifo| && j < TASK_WORDS
    ensures var n := TASK_WORDS * |tasks| + j; n < |written| && written[n] == (hand + fifo)[j] && n % TASK_WORDS == j
  {
    ConcatLength(tasks);
    hide Concat;
    Place(|tasks|, j);
  }

  lemma Place(m: nat, j: nat)
    requires j < TASK_WORDS
    ensures (TASK_WORDS * m + j) % TASK_WORDS == j
  {}

  lemma BringsTimeout(s: Sys, h: Hist, c: Setting)
    requires Good(s, h) && Sound(h.written, c)
    ensures Brings(s, c.tout)
  {
    if s.phy.state.Task? && s.phy.rdCnt == 3 {
      TaskStart(h.tasks, h.trace.popped, s.txFifo, h.written, 3);
      hide Alink.Inv, Concat, P.Stream, P.Counting, P.OnLine, P.Shape;
    }
  }

  lemma StepInHand(s: Sys, h: Hist, c: Setting) returns (n: nat)
    requires Good(s, h) && Sound(h.written, c) && P.Sending(s.phy)
    ensures n <= c.most && P.IsCeiling(n, s.phy.step)
  {
    TaskStart(h.tasks, h.trace.popped, s.txFifo, h.written, 2);
    hide Alink.Inv, Concat, P.Stream, P.Counting, P.OnLine, P.Shape, P.IsCeiling;
    assert h.trace.popped[2] == s.phy.step;
    n :| n <= c.most && P.IsCeiling(n, s.phy.step);
  }

  lemma GoingKeeps(s: Sys, i: In, h: Hist, c: Setting, k: nat)
    requires Going(s, h, c, k) && Sized(s) && Normal(s, i, h, c)
    ensures Going(Next(s, i), Record(s, i, h), c, k)
  {
    BringsTimeout(s, h, c);
    GoodKeeps(s, i, h);
    GoodIsInv(s, h);
    TimedKeeps(s, i, c.tout);
    ChosenKeeps(s, c.mask, i);
    hide Good, Timed, Chosen, Next, Record, Sound, Alink.Inv;
  }

  lemma GoodIsInv(s: Sys, h: Hist)
    requires Good(s, h)
    ensures Alink.Inv(s) && Sized(s) && Lockstep(s)
  {}

  // How far off the end of the next task is, at most.

  function Longest(c: Setting): nat { P.Duration(c.most) }

  /** Cycles the timer of PHY k still lacks. */
  function Lack(s: Sys, c: Setting, k: nat): int
    requires Sized(s) && k < PHYS
  {
    if s.timers[k].busy then c.tout + 1 - s.timers[k].timer else 0
  }

  ghost function Rank(s: Sys, h: Hist, c: Setting, k: nat): int
    requires Sized(s) && k < PHYS
  {
    if s.txc.state.Sent? then Longest(c) - |h.trace.samples|
    else if s.txc.state.Req? then Longest(c) + 1
    else if Any(s.txc.sel) then Longest(c) + 2
    else Longest(c) + 3 + Lack(s, c, k)
  }

  function Bound(c: Setting): nat { Longest(c) + 3 + c.tout }

  lemma LongestCovers(n: nat, c: Setting)
    requires n <= c.most
    ensures P.Duration(n) <= Longest(c)
  {}

  lemma PhyCycle(p: P.TxPhy, t: P.Trace, i: P.In)
    requires P.Inv(p, t) && p.state.Task? && !i.rst && !i.flush
    ensures |t.samples| == p.rdCnt < 4 && |P.Observe(t, p, i).samples| == |t.samples| + 1
    ensures !P.Done(p) && !P.Next(p, i).state.Idle?
  {
    hide P.Stream, P.Source, P.Counting, P.Ones;
  }

  /** In each cycle of a task the end comes nearer, and with the end the task counts as completed. */
  lemma SentFalls(s: Sys, i: In, h: Hist, c: Setting, k: nat)
    requires Going(s, h, c, k) && Sized(s) && Normal(s, i, h, c) && s.txc.state.Sent?
    ensures var u, g := Next(s, i), Record(s, i, h);
            && 0 < Rank(s, h, c, k) <= Bound(c)
            && (|g.tasks| == |h.tasks| + 1 || (|g.tasks| == |h.tasks| && Rank(u, g, c, k) < Rank(s, h, c, k)))
  {
    var u, g, x := Next(s, i), Record(s, i, h), PhyIn(s, i);
    GoodIsInv(s, h);
    OneCycleOfTask(s, i, h);
    PhyStep(s, i);
    GoodKeeps(s, i, h);
    GoodIsInv(u, g);
    GoodTraced(s, h);
    if s.phy.state.Task? {
      PhyCycle(s.phy, h.trace, x);
    } else {
      var n := StepInHand(s, h, c);
      P.OneCycle(s.phy, h.trace, x, n);
      LongestCovers(n, c);
    }
    hide Good, Timed, Chosen, Next, Sound, Alink.Inv, P.Inv, P.Next, P.Observe, P.IsCeiling, Any, P.Done, P.Duration;
  }

  lemma GoodTraced(s: Sys, h: Hist)
    requires Good(s, h)
    ensures P.Inv(s.phy, h.trace)
  {}

  /** While no task is being sent none is completed. */
  lemma IdleRecords(s: Sys, i: In, h: Hist)
    requires Good(s, h) && Sized(s) && !Reset(i) && !s.txc.state.Sent?
    ensures var g := Record(s, i, h); g.tasks == h.tasks && g.trace == P.FRESH && s.phy.state.Idle?
  {
    hide P.Inv, Conserved, Calm, Any;
  }

  /** Words of another work are in the FIFO. */
  lemma WaitingWords(s: Sys, h: Hist)
    requires Good(s, h) && s.phy.state.Idle? && |h.written| >= TASK_WORDS * (|h.tasks| + 1)
    ensures TaskVld(s)
  {
    HeadAtBoundary(s, h);
    hide Good, Concat;
  }

  lemma ReqFalls(s: Sys, i: In, h: Hist, c: Setting, k: nat)
    requires Going(s, h, c, k) && Sized(s) && Normal(s, i, h, c) && s.txc.state.Req? && |h.written| >= TASK_WORDS * (|h.tasks| + 1)
    ensures var u, g := Next(s, i), Record(s, i, h);
            |g.tasks| == |h.tasks| && Rank(u, g, c, k) < Rank(s, h, c, k) && 0 < Rank(s, h, c, k) <= Bound(c)
  {
    IdleRecords(s, i, h);
    WaitingWords(s, h);
    GoodIsInv(s, h);
    Sends(s, i);
    GoodKeeps(s, i, h);
    GoodIsInv(Next(s, i), Record(s, i, h));
    hide Good, Timed, Chosen, Next, Record, Sound, Alink.Inv, Any, P.Duration;
  }

  lemma SelectedFalls(s: Sys, i: In, h: Hist, c: Setting, k: nat)
    requires Going(s, h, c, k) && Sized(s) && Normal(s, i, h, c) && s.txc.state.Idle? && Any(s.txc.sel)
    ensures var u, g := Next(s, i), Record(s, i, h);
            |g.tasks| == |h.tasks| && Rank(u, g, c, k) < Rank(s, h, c, k) && 0 < Rank(s, h, c, k) <= Bound(c)
  {
    IdleRecords(s, i, h);
    Requests(s, i);
    hide Good, Timed, Chosen, Next, Record, Sound, Any, P.Duration;
  }

  lemma NoStart(s: Sys, k: nat)
    requires Alink.Inv(s) && k < PHYS && s.phy.state.Idle?
    ensures !TimerStart(s, k) && (Busy(s, k) <==> s.timers[k].busy)
  {}

  lemma StaysIdle(s: Sys, i: In)
    requires Sized(s) && Fits(i) && !Reset(i) && s.txc.state.Idle? && !Any(s.txc.sel)
    ensures Next(s, i).txc.state.Idle?
  {
    hide Any, A.Arbitrate, BusyVector, P.Next, C.Next, R.Next, T.Next, Fifo;
  }

  lemma TimedIs(s: Sys, tout: nat, k: nat)
    requires Timed(s, tout) && k < PHYS && s.timers[k].busy
    ensures s.phy.tout == tout && T.Regular(s.timers[k], tout)
  {
    hide T.Regular;
  }

  lemma BusyFalls(s: Sys, i: In, h: Hist, c: Setting, k: nat)
    requires Going(s, h, c, k) && Sized(s) && Normal(s, i, h, c) && s.txc.state.Idle? && !Any(s.txc.sel) && s.timers[k].busy
    ensures var u := Next(s, i); Lack(u, c, k) < Lack(s, c, k) && 0 <= Lack(u, c, k) && Lack(s, c, k) <= c.tout
  {
    GoodIsInv(s, h);
    InvIdle(s);
    NoStart(s, k);
    TimedIs(s, c.tout, k);
    T.Nears(s.timers[k], c.tout);
    TimerMoves(s, i, k);
    FlushIsReset(i);
    hide Good, Timed, Chosen, Next, Sound, Any, T.Regular, T.Next, Alink.Inv;
  }

  lemma FreeFalls(s: Sys, i: In, h: Hist, c: Setting, k: nat)
    requires Going(s, h, c, k) && Sized(s) && Normal(s, i, h, c) && s.txc.state.Idle? && !Any(s.txc.sel) && !s.timers[k].busy
    requires |h.written| >= TASK_WORDS * (|h.tasks| + 1)
    ensures var u := Next(s, i); u.txc.state.Idle? && Any(u.txc.sel)
  {
    GoodIsInv(s, h);
    InvIdle(s);
    WaitingWords(s, h);
    NoStart(s, k);
    assert Ready(s, i.mask);
    Selects(s, i);
  }

  lemma WaitFalls(s: Sys, i: In, h: Hist, c: Setting, k: nat)
    requires Going(s, h, c, k) && Sized(s) && Normal(s, i, h, c) && s.txc.state.Idle? && !Any(s.txc.sel)
    requires |h.written| >= TASK_WORDS * (|h.tasks| + 1)
    ensures var u, g := Next(s, i), Record(s, i, h);
            |g.tasks| == |h.tasks| && Rank(u, g, c, k) < Rank(s, h, c, k) && 0 < Rank(s, h, c, k) <= Bound(c)
  {
    IdleRecords(s, i, h);
    StaysIdle(s, i);
    if s.timers[k].busy {
      BusyFalls(s, i, h, c, k);
    } else {
      FreeFalls(s, i, h, c, k);
    }
    hide Good, Timed, Chosen, Next, Record, Sound, Any, P.Duration;
  }

  /** While a whole work waits or is being sent, every cycle completes a task or brings the end of one nearer. */
  lemma RankFalls(s: Sys, i: In, h: Hist, c: Setting, k: nat)
    requires Going(s, h, c, k) && Sized(s) && Normal(s, i, h, c) && |h.written| >= TASK_WORDS * (|h.tasks| + 1)
    ensures var u, g := Next(s, i), Record(s, i, h);
            && 0 < Rank(s, h, c, k) <= Bound(c)
            && (|g.tasks| == |h.tasks| + 1 || (|g.tasks| == |h.tasks| && Rank(u, g, c, k) < Rank(s, h, c, k)))
  {
    hide Going, Normal, Next, Record, Rank, Any;
    if s.txc.state.Sent? {
      SentFalls(s, i, h, c, k);
    } else if s.txc.state.Req? {
      ReqFalls(s, i, h, c, k);
    } else if Any(s.txc.sel) {
      SelectedFalls(s, i, h, c, k);
    } else {
      WaitFalls(s, i, h, c, k);
    }
  }

  // Whole runs.

  ghost predicate NormalRun(s: Sys, h: Hist, ins: seq<In>, c: Setting)
    requires Sized(s)
    decreases |ins|
  {
    |ins| > 0 ==> Normal(s, ins[0], h, c) && NormalRun(Next(s, ins[0]), Record(s, ins[0], h), ins[1..], c)
  }

  lemma {:induction false} NormalRoomy(s: Sys, h: Hist, ins: seq<In>, c: Setting)
    requires Sized(s) && NormalRun(s, h, ins, c)
    ensures Roomy(s, ins)
    decreases |ins|
  {
    hide Next, Record, Sound, Room;
    if |ins| > 0 {
      NormalRoomy(Next(s, ins[0]), Record(s, ins[0], h), ins[1..], c);
    }
  }

  ghost function Ends(s: Sys, h: Hist, ins: seq<In>, c: Setting): (e: (Sys, Hist))
    requires Sized(s) && NormalRun(s, h, ins, c)
    ensures Sized(e.0)
  {
    NormalRoomy(s, h, ins, c);
    (Last(s, ins), History(s, h, ins))
  }

  lemma EndsOne(s: Sys, h: Hist, ins: seq<In>, c: Setting)
    requires Sized(s) && NormalRun(s, h, ins, c) && |ins| > 0
    ensures Normal(s, ins[0], h, c) && Fits(ins[0]) && NormalRun(Next(s, ins[0]), Record(s, ins[0], h), ins[1..], c)
    ensures Ends(s, h, ins, c) == Ends(Next(s, ins[0]), Record(s, ins[0], h), ins[1..], c)
  {
    NormalRoomy(s, h, ins, c);
    hide Next, Record, Normal;
  }

  lemma {:induction false} EndsSplit(s: Sys, h: Hist, ins: seq<In>, n: nat, c: Setting)
    requires Sized(s) && NormalRun(s, h, ins, c) && n <= |ins|
    ensures NormalRun(s, h, ins[..n], c)
    ensures var e := Ends(s, h, ins[..n], c); NormalRun(e.0, e.1, ins[n..], c) && Ends(s, h, ins, c) == Ends(e.0, e.1, ins[n..], c)
    decreases n
  {
    hide Next, Record, Normal, Ends;
    if n == 0 {
      assert ins[0..] == ins;
      NoCycles(s, h, ins[..0], c);
    } else {
      EndsOne(s, h, ins, c);
      var u, g := Next(s, ins[0]), Record(s, ins[0], h);
      EndsSplit(u, g, ins[1..], n - 1, c);
      assert ins[..n][1..] == ins[1..][..n - 1] && ins[1..][n - 1..] == ins[n..];
      EndsOne(s, h, ins[..n], c);
    }
  }

  lemma NoCycles(s: Sys, h: Hist, ins: seq<In>, c: Setting)
    requires Sized(s) && |ins| == 0
    ensures NormalRun(s, h, ins, c) && Ends(s, h, ins, c) == (s, h)
  {}

  lemma {:induction false} GoingRun(s: Sys, h: Hist, ins: seq<In>, c: Setting, k: nat)
    requires Going(s, h, c, k) && Sized(s) && NormalRun(s, h, ins, c)
    ensures var e := Ends(s, h, ins, c); Going(e.0, e.1, c, k)
    decreases |ins|
  {
    hide Next, Record, Normal, Ends, Going;
    if |ins| > 0 {
      EndsOne(s, h, ins, c);
      GoingKeeps(s, ins[0], h, c, k);
      GoingRun(Next(s, ins[0]), Record(s, ins[0], h), ins[1..], c, k);
    } else {
      NoCycles(s, h, ins, c);
    }
  }

  lemma WrittenGrows(s: Sys, i: In, h: Hist, c: Setting)
    requires Sized(s) && Normal(s, i, h, c)
    ensures h.written <= Record(s, i, h).written && h.tasks <= Record(s, i, h).tasks
  {
    hide Sound, P.Observe, P.Done;
  }

  /** If a whole work waits or is being sent, the next task is completed within Rank cycles. */
  lemma {:induction false} NextTask(s: Sys, h: Hist, ins: seq<In>, c: Setting, k: nat) returns (n: nat)
    requires Going(s, h, c, k) && Sized(s) && NormalRun(s, h, ins, c)
    requires |h.written| >= TASK_WORDS * (|h.tasks| + 1) && |ins| >= Rank(s, h, c, k)
    ensures 0 < n <= Rank(s, h, c, k) <= Bound(c) && n <= |ins| && NormalRun(s, h, ins[..n], c)
    ensures var e := Ends(s, h, ins[..n], c); |e.1.tasks| == |h.tasks| + 1 && h.written <= e.1.written
    decreases |ins|
  {
    hide Next, Record, Normal, Ends, Going, Rank;
    if |ins| == 0 {
      RankPositive(s, h, c, k);
    }
    EndsOne(s, h, ins, c);
    var u, g := Next(s, ins[0]), Record(s, ins[0], h);
    RankFalls(s, ins[0], h, c, k);
    WrittenGrows(s, ins[0], h, c);
    if |g.tasks| == |h.tasks| + 1 {
      n := 1;
      NoCycles(u, g, ins[..1][1..], c);
    } else {
      GoingKeeps(s, ins[0], h, c, k);
      n := NextTask(u, g, ins[1..], c, k);
      n := n + 1;
      assert ins[..n][1..] == ins[1..][..n - 1];
    }
    EndsSplit(s, h, ins, n, c);
    EndsOne(s, h, ins[..n], c);
  }

  lemma RankPositive(s: Sys, h: Hist, c: Setting, k: nat)
    requires Going(s, h, c, k) && Sized(s)
    ensures Rank(s, h, c, k) > 0
  {
    GoodIsInv(s, h);
    if s.txc.state.Sent? {
      SamplesShort(s, h, c);
    } else if s.timers[k].busy {
      TimedIs(s, c.tout, k);
      T.Nears(s.timers[k], c.tout);
    }
    hide Good, Timed, Chosen, Sound, Any, T.Next, T.Regular, P.Duration;
  }

  lemma SamplesShort(s: Sys, h: Hist, c: Setting)
    requires Good(s, h) && Sound(h.written, c) && !s.phy.state.Idle?
    ensures |h.trace.samples| < Longest(c)
  {
    var x := P.In(false, false, false, false, [], 0);
    GoodTraced(s, h);
    if s.phy.state.Task? {
      PhyCycle(s.phy, h.trace, x);
    } else {
      var n := StepInHand(s, h, c);
      P.OneCycle(s.phy, h.trace, x, n);
      LongestCovers(n, c);
    }
    hide Good, Sound, P.Inv, P.Next, P.Observe, P.IsCeiling, P.Done;
  }

  /** Of m works that wait or are being sent, all have been sent after m times the bound. */
  lemma {:induction false} Progress(s: Sys, h: Hist, ins: seq<In>, c: Setting, k: nat, m: nat)
    requires Going(s, h, c, k) && Sized(s) && NormalRun(s, h, ins, c)
    requires |h.written| >= TASK_WORDS * (|h.tasks| + m) && |ins| >= m * Bound(c)
    ensures |Ends(s, h, ins, c).1.tasks| >= |h.tasks| + m
    decreases m
  {
    hide Next, Record, NormalRun, Ends, Going, Rank, Bound;
    if m == 0 {
      TasksGrow(s, h, ins, c);
    } else {
      RankBounded(s, h, c, k);
      AtLeastOne(m, Bound(c));
      var n := NextTask(s, h, ins, c, k);
      var e := Ends(s, h, ins[..n], c);
      GoingRun(s, h, ins[..n], c, k);
      EndsSplit(s, h, ins, n, c);
      Progress(e.0, e.1, ins[n..], c, k, m - 1);
    }
  }

  lemma AtLeastOne(m: nat, b: nat)
    requires m > 0
    ensures m * b == (m - 1) * b + b && (m - 1) * b >= 0
  {}

  lemma RankBounded(s: Sys, h: Hist, c: Setting, k: nat)
    requires Going(s, h, c, k) && Sized(s)
    ensures Rank(s, h, c, k) <= Bound(c)
  {
    if s.timers[k].busy {
      TimedIs(s, c.tout, k);
      T.Nears(s.timers[k], c.tout);
    }
    hide Good, Timed, Chosen, Sound, Any, T.Next, T.Regular, P.Duration;
  }

  lemma {:induction false} TasksGrow(s: Sys, h: Hist, ins: seq<In>, c: Setting)
    requires Sized(s) && NormalRun(s, h, ins, c)
    ensures |Ends(s, h, ins, c).1.tasks| >= |h.tasks|
    decreases |ins|
  {
    hide Next, Normal, Ends;
    if |ins| > 0 {
      EndsOne(s, h, ins, c);
      WrittenGrows(s, ins[0], h, c);
      hide Record;
      TasksGrow(Next(s, ins[0]), Record(s, ins[0], h), ins[1..], c);
    } else {
      NoCycles(s, h, ins, c);
    }
  }

  /** Reset begins it. */
  lemma GoingFromReset(s: Sys, i: In, c: Setting, k: nat)
    requires Sized(s) && Fits(i) && i.rst && s.phy.step < W32 && Dout(s) < W32 && Proper(c) && k < PHYS && c.mask[k]
    ensures Going(Next(s, i), EMPTY, c, k)
  {
    BeginsGood(s, i);
    Resets(s, i);
    ResetTimed(Next(s, i), c.tout);
    hide Good, Timed, Next;
  }

  /** From reset, with a mask that stays and enables some PHY, works whose steps are above zero and which bring one
      timeout: however many works have been written before, so many times the bound later all have been sent, in order. */
  lemma EveryWorkSent(s: Sys, i: In, before: seq<In>, after: seq<In>, c: Setting, k: nat, works: seq<seq<nat>>)
    requires Sized(s) && Fits(i) && i.rst && s.phy.step < W32 && Dout(s) < W32 && Proper(c) && k < PHYS && c.mask[k]
    requires NormalRun(Next(s, i), EMPTY, before, c)
    requires var e := Ends(Next(s, i), EMPTY, before, c);
             e.1.written == Concat(works) && NormalRun(e.0, e.1, after, c) && |after| >= |works| * Bound(c)
    requires forall j :: 0 <= j < |works| ==> |works[j]| == TASK_WORDS
    ensures var e := Ends(Next(s, i), EMPTY, before, c); var f := Ends(e.0, e.1, after, c);
            |f.1.tasks| >= |works| && f.1.tasks[..|works|] == works
  {
    hide Next, NormalRun, Going, Bound, Ends, Good, Concat;
    GoingFromReset(s, i, c, k);
    GoingRun(Next(s, i), EMPTY, before, c, k);
    var e := Ends(Next(s, i), EMPTY, before, c);
    ConcatLength(works);
    TasksWritten(e.0, e.1, c, k);
    Fewer(|works| - |e.1.tasks|, |works|, Bound(c));
    Progress(e.0, e.1, after, c, k, |works| - |e.1.tasks|);
    GoingRun(e.0, e.1, after, c, k);
    var f := Ends(e.0, e.1, after, c);
    WrittenStays(e.0, e.1, after, c);
    forall j | 0 <= j < |works|
      ensures f.1.tasks[j] == works[j]
    {
      GoingGood(f.0, f.1, c, k);
      KthTask(f.0, f.1, j);
      ConcatAt(works, j);
      assert f.1.written[..|e.1.written|] == e.1.written;
    }
  }

  lemma Fewer(a: nat, b: nat, x: nat)
    requires a <= b
    ensures a * x <= b * x
  {}

  lemma GoingGood(s: Sys, h: Hist, c: Setting, k: nat)
    requires Going(s, h, c, k)
    ensures Good(s, h) && Sized(s)
  {
    GoodIsInv(s, h);
  }

  lemma TasksWritten(s: Sys, h: Hist, c: Setting, k: nat)
    requires Going(s, h, c, k)
    ensures TASK_WORDS * |h.tasks| <= |h.written|
  {
    if |h.tasks| > 0 {
      KthTask(s, h, |h.tasks| - 1);
    }
    hide Good;
  }

  lemma {:induction false} WrittenStays(s: Sys, h: Hist, ins: seq<In>, c: Setting)
    requires Sized(s) && NormalRun(s, h, ins, c)
    ensures h.written <= Ends(s, h, ins, c).1.written
    decreases |ins|
  {
    hide Next, Normal, Ends;
    if |ins| > 0 {
      EndsOne(s, h, ins, c);
      WrittenGrows(s, ins[0], h, c);
      WrittenStays(Next(s, ins[0]), Record(s, ins[0], h), ins[1..], c);
    } else {
      NoCycles(s, h, ins, c);
    }
  }
}
