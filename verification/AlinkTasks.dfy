/** The transmit side of the A-Link engine: tasks leave the FIFO whole and in order. */
module AlinkTasks {
  import opened LineCode
  import opened Phys
  import opened Alink
  import A = TxC
  import P = TxPhy
  import C = RxC
  import R = RxPhy
  import T = TxTimer

  /** What has happened since reset: the words written, the 23 words of each task completed, and the trace of the one in hand. */
  datatype Hist = Hist(written: seq<nat>, tasks: seq<seq<nat>>, trace: P.Trace)

  const EMPTY := Hist([], [], P.FRESH)

  function Record(s: Sys, i: In, h: Hist): Hist
    requires Sized(s)
  {
    if Reset(i) then EMPTY
    else
      Hist(if i.push then h.written + [i.din] else h.written,
           if P.Done(s.phy) then h.tasks + [h.trace.popped] else h.tasks,
           P.Observe(h.trace, s.phy, PhyIn(s, i)))
  }

  function Concat(tasks: seq<seq<nat>>): seq<nat> {
    var n := |tasks|;
    if n == 0 then [] else Concat(tasks[..n - 1]) + tasks[n - 1]
  }

  /** The words the task in hand has taken so far. */
  function InHand(s: Sys, h: Hist): seq<nat> {
    if s.phy.state.Idle? then [] else h.trace.popped
  }

  /** A word is written only when there is room; the firmware writes only below 24 * 5. */
  predicate Room(s: Sys, i: In) { i.push ==> |s.txFifo| < TX_DEPTH }

  ghost predicate Conserved(s: Sys, h: Hist) {
    && h.written == Concat(h.tasks) + (InHand(s, h) + s.txFifo)
    && (forall k :: 0 <= k < |h.tasks| ==> |h.tasks[k]| == TASK_WORDS)
    && (forall k :: 0 <= k < |s.txFifo| ==> s.txFifo[k] < W32)
    && (!s.phy.state.Idle? ==> |h.trace.popped| + |s.txFifo| >= TASK_WORDS)
  }

  /** How many words have been popped is a matter of where the task stands. */
  lemma PoppedSoFar(p: P.TxPhy, t: P.Trace)
    requires P.Inv(p, t)
    ensures p.hashPop ==> p.state.Hash?
    ensures P.Pops(p) ==> |t.popped| < TASK_WORDS && !p.state.Idle?
    ensures P.Done(p) ==> |t.popped| == TASK_WORDS && !P.Pops(p) && !p.state.Idle?
  {
    hide P.Stream, P.Counting, P.OnLine, P.Ones;
  }

  lemma TraceMoves(s: Sys, i: In, t: P.Trace)
    requires Sized(s) && !Reset(i)
    ensures var v := P.Observe(t, s.phy, PhyIn(s, i));
            && (s.phy.state.Idle? ==> v.popped == [])
            && (!s.phy.state.Idle? ==> v.popped == if P.Pops(s.phy) then t.popped + [Dout(s)] else t.popped)
  {
    hide P.NextData;
  }

  lemma PhyMovesOn(s: Sys, i: In)
    requires Sized(s) && Lockstep(s) && Fits(i) && !Reset(i)
    ensures var u := Next(s, i);
            && (s.phy.state.Idle? ==> u.phy.state.Idle? || TaskVld(s))
            && (!s.phy.state.Idle? ==> (u.phy.state.Idle? <==> P.Done(s.phy)))
  {
    PhyMoves(s.phy, PhyIn(s, i));
    hide P.Next, C.Next, R.Next, T.Next, A.Next, Fifo;
  }

  lemma FifoMoves(s: Sys, i: In)
    requires Sized(s) && Fits(i) && !Reset(i) && Room(s, i)
    ensures Next(s, i).txFifo == Taken(s.txFifo, P.Pops(s.phy)) + if i.push then [i.din] else []
  {
    hide P.Next, C.Next, R.Next, T.Next, A.Next;
  }

  lemma ConcatAppend(tasks: seq<seq<nat>>, w: seq<nat>)
    ensures Concat(tasks + [w]) == Concat(tasks) + w
  {
    assert (tasks + [w])[..|tasks|] == tasks;
  }

  /** One cycle without reset. */
  lemma ConservedMoves(s: Sys, i: In, h: Hist, u: Sys, g: Hist, more: seq<nat>)
    requires Conserved(s, h) && (forall k :: 0 <= k < |more| ==> more[k] < W32)
    requires g.written == h.written + more && u.txFifo == Taken(s.txFifo, P.Pops(s.phy)) + more
    requires g.tasks == if P.Done(s.phy) then h.tasks + [h.trace.popped] else h.tasks
    requires P.Pops(s.phy) ==> |h.trace.popped| < TASK_WORDS && !s.phy.state.Idle? && !P.Done(s.phy)
    requires P.Done(s.phy) ==> |h.trace.popped| == TASK_WORDS && !s.phy.state.Idle?
    requires s.phy.state.Idle? ==> g.trace.popped == [] && (u.phy.state.Idle? || TaskVld(s))
    requires !s.phy.state.Idle? ==>
               && (u.phy.state.Idle? <==> P.Done(s.phy))
               && g.trace.popped == if P.Pops(s.phy) then h.trace.popped + [Dout(s)] else h.trace.popped
    ensures Conserved(u, g)
  {
    hide P.Pops, P.Done, Concat, Conserved, Taken, TaskVld;
    if P.Pops(s.phy) {
      AfterPop(s, h, u, g, more);
    } else if P.Done(s.phy) {
      AfterDone(s, h, u, g, more);
    } else {
      AfterOther(s, h, u, g, more);
    }
  }

  lemma NothingYet(u: Sys, g: Hist)
    requires u.txFifo == [] && u.phy.state.Idle? && g == EMPTY
    ensures Conserved(u, g)
  {}

  lemma ConservedKeeps(s: Sys, i: In, h: Hist)
    requires Sized(s) && Lockstep(s) && Fits(i) && P.Inv(s.phy, h.trace) && Conserved(s, h) && Room(s, i)
    ensures Conserved(Next(s, i), Record(s, i, h))
  {
    if Reset(i) {
      ResetEmpties(s, i);
      NothingYet(Next(s, i), Record(s, i, h));
    } else {
      hide Next, P.Inv, P.Observe, P.Pops, P.Done, Concat, Lockstep, Conserved, Taken, TaskVld;
      PoppedSoFar(s.phy, h.trace);
      TraceMoves(s, i, h.trace);
      PhyMovesOn(s, i);
      FifoMoves(s, i);
      ConservedMoves(s, i, h, Next(s, i), Record(s, i, h), if i.push then [i.din] else []);
    }
  }

  lemma AfterPop(s: Sys, h: Hist, u: Sys, g: Hist, more: seq<nat>)
    requires Conserved(s, h) && !s.phy.state.Idle? && !u.phy.state.Idle? && |h.trace.popped| < TASK_WORDS
    requires u.txFifo == Taken(s.txFifo, true) + more && g.tasks == h.tasks && g.written == h.written + more
    requires g.trace.popped == h.trace.popped + [Dout(s)] && forall k :: 0 <= k < |more| ==> more[k] < W32
    ensures Conserved(u, g)
  {
    Regroup(Concat(h.tasks), h.trace.popped, s.txFifo, more);
    hide Concat;
  }

  lemma AfterDone(s: Sys, h: Hist, u: Sys, g: Hist, more: seq<nat>)
    requires Conserved(s, h) && !s.phy.state.Idle? && u.phy.state.Idle? && |h.trace.popped| == TASK_WORDS
    requires u.txFifo == Taken(s.txFifo, false) + more && g.tasks == h.tasks + [h.trace.popped] && g.written == h.written + more
    requires forall k :: 0 <= k < |more| ==> more[k] < W32
    ensures Conserved(u, g)
  {
    ConcatAppend(h.tasks, h.trace.popped);
    hide Concat;
    Finish(Concat(h.tasks), h.trace.popped, s.txFifo, more);
  }

  lemma AfterOther(s: Sys, h: Hist, u: Sys, g: Hist, more: seq<nat>)
    requires Conserved(s, h) && u.txFifo == Taken(s.txFifo, false) + more && g.tasks == h.tasks && g.written == h.written + more
    requires forall k :: 0 <= k < |more| ==> more[k] < W32
    requires if s.phy.state.Idle? then (u.phy.state.Idle? || TaskVld(s)) && g.trace.popped == []
             else !u.phy.state.Idle? && g.trace.popped == h.trace.popped
    ensures Conserved(u, g)
  {
    hide Concat;
    Extend(Concat(h.tasks), InHand(s, h), s.txFifo, more);
  }

  lemma ResetEmpties(s: Sys, i: In)
    requires Sized(s) && Fits(i) && Reset(i)
    ensures Next(s, i).txFifo == [] && Next(s, i).phy.state.Idle?
  {
    hide P.NextLine, P.NextData, P.NextIds, C.Next, R.Next, T.Next, A.Next;
  }

  lemma Regroup(c: seq<nat>, p: seq<nat>, f: seq<nat>, more: seq<nat>)
    requires |f| > 0
    ensures c + (p + f) + more == c + ((p + [f[0]]) + (f[1..] + more))
  {}

  lemma Finish(c: seq<nat>, p: seq<nat>, f: seq<nat>, more: seq<nat>)
    ensures c + (p + f) + more == (c + p) + ([] + (f + more))
  {}

  lemma Extend(c: seq<nat>, p: seq<nat>, f: seq<nat>, more: seq<nat>)
    ensures c + (p + f) + more == c + (p + (f + more))
  {}

  // Every run between flushes.

  ghost predicate Good(s: Sys, h: Hist) {
    Alink.Inv(s) && P.Inv(s.phy, h.trace) && Conserved(s, h)
  }

  lemma GoodKeeps(s: Sys, i: In, h: Hist)
    requires Good(s, h) && Sized(s) && Fits(i) && Room(s, i)
    ensures Good(Next(s, i), Record(s, i, h))
  {
    hide P.Inv, Conserved, Alink.Inv, Lockstep, P.Next, P.Observe, C.Next, R.Next, T.Next, A.Next, Fifo;
    Alink.InvSized(s);
    Alink.InvKeeps(s, i);
    ConservedKeeps(s, i, h);
    DoutIsWord(s, h);
    P.InvKeeps(s.phy, h.trace, PhyIn(s, i));
    if Reset(i) {
      ObserveReset(s, i, h.trace);
    }
  }

  lemma DoutIsWord(s: Sys, h: Hist)
    requires Conserved(s, h)
    ensures Dout(s) < W32
  {}

  lemma ObserveReset(s: Sys, i: In, t: P.Trace)
    requires Sized(s) && Reset(i)
    ensures P.Observe(t, s.phy, PhyIn(s, i)) == P.FRESH
  {}

  /** The FIFO output is at the first word of a task whenever no task is being sent. */
  lemma HeadAtBoundary(s: Sys, h: Hist)
    requires Good(s, h) && s.phy.state.Idle?
    ensures h.written == Concat(h.tasks) + s.txFifo && |h.written| - |s.txFifo| == TASK_WORDS * |h.tasks|
  {
    ConcatLength(h.tasks);
    hide Alink.Inv, P.Inv, Concat;
    assert [] + s.txFifo == s.txFifo;
  }

  lemma {:induction false} ConcatLength(tasks: seq<seq<nat>>)
    requires forall k :: 0 <= k < |tasks| ==> |tasks[k]| == TASK_WORDS
    ensures |Concat(tasks)| == TASK_WORDS * |tasks|
  {
    if |tasks| > 0 {
      ConcatLength(tasks[..|tasks| - 1]);
    }
  }

  lemma {:induction false} ConcatAt(tasks: seq<seq<nat>>, k: nat)
    requires k < |tasks| && forall j :: 0 <= j < |tasks| ==> |tasks[j]| == TASK_WORDS
    ensures TASK_WORDS * k + TASK_WORDS <= |Concat(tasks)|
    ensures Concat(tasks)[TASK_WORDS * k..TASK_WORDS * k + TASK_WORDS] == tasks[k]
  {
    var n := |tasks|;
    var front := tasks[..n - 1];
    ConcatLength(front);
    ConcatLength(tasks);
    if k < n - 1 {
      ConcatAt(front, k);
      assert front[k] == tasks[k];
      Within(Concat(front), tasks[n - 1], TASK_WORDS * k);
    }
  }

  lemma Within(a: seq<nat>, b: seq<nat>, lo: nat)
    requires lo + TASK_WORDS <= |a|
    ensures (a + b)[lo..lo + TASK_WORDS] == a[lo..lo + TASK_WORDS]
  {}

  /** The k-th task completed is the k-th group of 23 words written. */
  lemma KthTask(s: Sys, h: Hist, k: nat)
    requires Good(s, h) && k < |h.tasks|
    ensures TASK_WORDS * k + TASK_WORDS <= |h.written|
    ensures h.tasks[k] == h.written[TASK_WORDS * k..TASK_WORDS * k + TASK_WORDS]
  {
    ConcatAt(h.tasks, k);
    Within(Concat(h.tasks), InHand(s, h) + s.txFifo, TASK_WORDS * k);
  }

  /** So if the words written so far begin those of works of 23 words each, the k-th task sent is the k-th work. */
  lemma TasksAreWorks(s: Sys, h: Hist, works: seq<seq<nat>>, k: nat)
    requires Good(s, h) && k < |h.tasks| && h.written <= Concat(works)
    requires forall j :: 0 <= j < |works| ==> |works[j]| == TASK_WORDS
    ensures k < |works| && h.tasks[k] == works[k]
  {
    KthTask(s, h, k);
    ConcatLength(works);
    ConcatAt(works, k);
    hide Good, Concat;
    assert h.written == Concat(works)[..|h.written|];
  }

  /** When a task ends, what has gone over the selected line is its nineteen data words and the numbers of its step, and
      what it was made of is the next group of 23 words written. */
  lemma TaskEnds(s: Sys, i: In, h: Hist) returns (task: seq<nat>, numbers: seq<nat>)
    requires Good(s, h) && Sized(s) && Fits(i) && Room(s, i) && !Reset(i) && P.Done(s.phy)
    ensures var n := |h.tasks|;
            && TASK_WORDS * n + TASK_WORDS <= |h.written| && task == h.written[TASK_WORDS * n..TASK_WORDS * n + TASK_WORDS]
            && Record(s, i, h).tasks == h.tasks + [task]
    ensures P.IsCeiling(|numbers|, task[2]) && (h.trace.plain ==> numbers == P.Multiples(task[2], |numbers|))
    ensures h.trace.scanned ==> numbers == P.ScanWords(task[0], task[1], |numbers|)
    ensures Record(s, i, h).trace.samples == Wave(AllBits(task[4..] + numbers))
  {
    hide P.Inv, Alink.Inv, P.Observe, Concat, AllBits, Wave, Conserved, P.Multiples, P.ScanWords, P.IsCeiling, P.Done, Next;
    task := h.trace.popped;
    PoppedSoFar(s.phy, h.trace);
    var data;
    data, numbers := P.TaskSent(s.phy, h.trace, PhyIn(s, i));
    assert task == [s.phy.idH, s.phy.idL, s.phy.step, s.phy.tout] + data;
    assert task[4..] == data && task[2] == s.phy.step && task[0] == s.phy.idH && task[1] == s.phy.idL;
    WordsInHand(s, h);
  }

  lemma WordsInHand(s: Sys, h: Hist)
    requires Conserved(s, h) && !s.phy.state.Idle? && |h.trace.popped| == TASK_WORDS
    ensures var n := TASK_WORDS * |h.tasks|; n + TASK_WORDS <= |h.written| && h.written[n..n + TASK_WORDS] == h.trace.popped
  {
    ConcatLength(h.tasks);
    Middle(Concat(h.tasks), h.trace.popped, s.txFifo);
  }

  lemma Middle(a: seq<nat>, b: seq<nat>, c: seq<nat>)
    ensures (a + (b + c))[|a|..|a| + |b|] == b
  {}

  /** One cycle of reset is a good beginning. */
  lemma BeginsGood(s: Sys, i: In)
    requires Sized(s) && Fits(i) && i.rst && s.phy.step < W32 && Dout(s) < W32
    ensures Good(Next(s, i), EMPTY)
  {
    Resets(s, i);
    ResetInv(Next(s, i));
    P.ShapeReset(s.phy, P.FRESH, PhyIn(s, i));
    var u := Next(s, i);
    assert u.phy.step < W32;
    assert u.phy.state.Idle?;
    hide P.Shape, P.Next, Alink.Inv, C.Next, R.Next, T.Next, A.Next;
    assert [] + ([] + u.txFifo) == u.txFifo;
  }

  ghost predicate Roomy(s: Sys, ins: seq<In>)
    requires Sized(s)
    decreases |ins|
  {
    |ins| > 0 ==> Fits(ins[0]) && Room(s, ins[0]) && Roomy(Next(s, ins[0]), ins[1..])
  }

  ghost function Last(s: Sys, ins: seq<In>): (u: Sys)
    requires Sized(s) && Roomy(s, ins)
    ensures Sized(u)
    decreases |ins|
  {
    if |ins| == 0 then s else Last(Next(s, ins[0]), ins[1..])
  }

  ghost function History(s: Sys, h: Hist, ins: seq<In>): Hist
    requires Sized(s) && Roomy(s, ins)
    decreases |ins|
  {
    if |ins| == 0 then h else History(Next(s, ins[0]), Record(s, ins[0], h), ins[1..])
  }

  /** Every run in which no word is written to a full FIFO. */
  lemma {:induction false} RunGood(s: Sys, h: Hist, ins: seq<In>)
    requires Good(s, h) && Sized(s) && Roomy(s, ins)
    ensures Good(Last(s, ins), History(s, h, ins))
    decreases |ins|
  {
    hide Good, Next, Record;
    if |ins| > 0 {
      GoodKeeps(s, ins[0], h);
      RunGood(Next(s, ins[0]), Record(s, ins[0], h), ins[1..]);
    }
  }

  /** From reset: whatever was going on before, what is sent after it is what is written after it. */
  lemma FromReset(s: Sys, i: In, ins: seq<In>)
    requires Sized(s) && Fits(i) && i.rst && s.phy.step < W32 && Dout(s) < W32 && Roomy(Next(s, i), ins)
    ensures Good(Last(Next(s, i), ins), History(Next(s, i), EMPTY, ins))
  {
    BeginsGood(s, i);
    hide Good, Next;
    RunGood(Next(s, i), EMPTY, ins);
  }

  // The firmware's own test.

  const TEST := 24 * 5

  /** The firmware begins to write a work only after it has read a count below 24 * 5, which until then only falls. */
  predicate Tested(s: Sys, i: In, h: Hist) {
    i.push && |h.written| % TASK_WORDS == 0 ==> |s.txFifo| < TEST
  }

  /** Then the FIFO holds less than that and one work. */
  predicate Paced(s: Sys, h: Hist) {
    var m := |h.written| % TASK_WORDS;
    |s.txFifo| < TEST + if m == 0 then TASK_WORDS else m
  }

  lemma PacedKeeps(s: Sys, i: In, h: Hist)
    requires Sized(s) && Fits(i) && Paced(s, h) && Tested(s, i, h)
    ensures Room(s, i) && Paced(Next(s, i), Record(s, i, h))
  {
    if Reset(i) {
      ResetEmpties(s, i);
    } else {
      FifoMoves(s, i);
      NextPlace(|h.written|);
    }
    hide Next, P.Observe, P.Pops, P.Done;
  }

  lemma NextPlace(n: nat)
    ensures (n + 1) % TASK_WORDS == if n % TASK_WORDS == 22 then 0 else n % TASK_WORDS + 1
  {}

  ghost predicate AllTested(s: Sys, h: Hist, ins: seq<In>)
    requires Sized(s)
    decreases |ins|
  {
    |ins| > 0 ==> Fits(ins[0]) && Tested(s, ins[0], h) && AllTested(Next(s, ins[0]), Record(s, ins[0], h), ins[1..])
  }

  /** So no word the firmware writes is dropped, in any run. */
  lemma {:induction false} TestMakesRoom(s: Sys, h: Hist, ins: seq<In>)
    requires Sized(s) && Paced(s, h) && AllTested(s, h, ins)
    ensures Roomy(s, ins)
    decreases |ins|
  {
    hide Next, Record, Paced, Tested, Room;
    if |ins| > 0 {
      PacedKeeps(s, ins[0], h);
      TestMakesRoom(Next(s, ins[0]), Record(s, ins[0], h), ins[1..]);
    }
  }

  // A task for nobody.

  /** A run every cycle of which belongs to the task in hand. */
  ghost predicate Through(s: Sys, ins: seq<In>)
    requires Sized(s)
    decreases |ins|
  {
    |ins| > 0 ==>
      Fits(ins[0]) && Room(s, ins[0]) && !Reset(ins[0]) && s.txc.state.Sent? && Through(Next(s, ins[0]), ins[1..])
  }

  lemma {:induction false} ThroughRoomy(s: Sys, ins: seq<In>)
    requires Sized(s) && Through(s, ins)
    ensures Roomy(s, ins)
    decreases |ins|
  {
    hide Next;
    if |ins| > 0 {
      ThroughRoomy(Next(s, ins[0]), ins[1..]);
    }
  }

  /** If REQ was left without a PHY, then to its end the task is heard by nobody, and yet 23 words are gone: no PHY is
      selected, every line stays at 11, no timer starts, and when tx_phy is idle again the task counts as completed. */
  lemma {:induction false} TaskForNobody(s: Sys, h: Hist, ins: seq<In>, k: nat)
    requires Good(s, h) && Sized(s) && s.txc.state.Sent? && !Any(s.txc.sel) && Through(s, ins) && k < PHYS
    ensures Roomy(s, ins)
    ensures var u, g := Last(s, ins), History(s, h, ins);
            && !Any(u.txc.sel)
            && (u.txc.state.Sent? ==> P.Wire(u.phy, k) == HIGH && !TimerStart(u, k) && g.tasks == h.tasks)
            && (u.txc.state.Idle? ==> |g.tasks| == |h.tasks| + 1 && |g.tasks[|h.tasks|]| == TASK_WORDS)
            && !u.txc.state.Req?
    decreases |ins|
  {
    ThroughRoomy(s, ins);
    hide Next, Conserved, P.Inv, Alink.Inv, Any, Record;
    Alink.InvSized(s);
    if |ins| == 0 {
      Unheard(s, k);
    } else {
      var i := ins[0];
      var u, g := Next(s, i), Record(s, i, h);
      GoodKeeps(s, i, h);
      SelectionStands(s, i);
      OneCycleOfTask(s, i, h);
      if u.txc.state.Sent? {
        TaskForNobody(u, g, ins[1..], k);
      } else {
        assert |ins| == 1;
      }
    }
  }

  lemma OneCycleOfTask(s: Sys, i: In, h: Hist)
    requires Good(s, h) && Sized(s) && Fits(i) && !Reset(i) && s.txc.state.Sent?
    ensures var u, g := Next(s, i), Record(s, i, h);
            && (u.txc.state.Sent? ==> g.tasks == h.tasks)
            && (!u.txc.state.Sent? ==> u.txc.state.Idle? && g.tasks == h.tasks + [h.trace.popped] && |h.trace.popped| == TASK_WORDS)
  {
    PoppedSoFar(s.phy, h.trace);
    hide P.Next, P.Inv, P.Observe, C.Next, R.Next, T.Next, Fifo, Conserved, Any, Calm;
  }
}
