/** The wires to the chips: what each PHY's pair of lines carries in the course of a task. */
module AlinkWires {
  import opened LineCode
  import opened Phys
  import opened Alink
  import K = AlinkTasks
  import P = TxPhy
  import R = RxPhy

  /** For each PHY the levels of its two wires, TX_P and TX_N, in the cycles of the task in hand. */
  type Wires = ws: seq<seq<Level>> | |ws| == PHYS witness [[], [], [], [], []]

  const NOTHING: Wires := [[], [], [], [], []]

  function Watch(s: Sys, i: In, ws: Wires): Wires
    requires Sized(s)
  {
    if Reset(i) || s.phy.state.Idle? then NOTHING
    else seq(PHYS, k requires 0 <= k < PHYS => ws[k] + [P.Wire(s.phy, k)])
  }

  /** While a task is being sent the selected PHY's wires have carried what the sender puts out; all others have rested. */
  ghost predicate Carried(s: Sys, h: K.Hist, ws: Wires) {
    && Sized(s)
    && (!s.phy.state.Idle? ==>
          forall k :: 0 <= k < PHYS ==> ws[k] == if s.phy.sel[k] then h.trace.samples else Hold(HIGH, |h.trace.samples|))
  }

  lemma SamplesMove(s: Sys, i: In, h: K.Hist)
    requires Sized(s) && !Reset(i)
    ensures var g := K.Record(s, i, h);
            g.trace.samples == if s.phy.state.Idle? then [] else h.trace.samples + [s.phy.line]
  {
    hide P.NextData, P.Done;
  }

  lemma SelectionMoves(s: Sys, i: In)
    requires Lockstep(s) && Fits(i)
    ensures var u := Next(s, i);
            && (Reset(i) ==> u.phy.state.Idle?) && (!s.phy.state.Idle? ==> u.phy.sel == s.phy.sel)
  {
    PhyMoves(s.phy, PhyIn(s, i));
    PhyStep(s, i);
    hide Next, P.Next;
  }

  /** One cycle of a task on every wire. */
  lemma WatchIs(s: Sys, i: In, h: K.Hist, ws: Wires)
    requires Carried(s, h, ws) && Fits(i) && !Reset(i) && !s.phy.state.Idle?
    ensures var samples := h.trace.samples + [s.phy.line];
            forall k :: 0 <= k < PHYS ==> Watch(s, i, ws)[k] == if s.phy.sel[k] then samples else Hold(HIGH, |samples|)
  {
    OneMore(HIGH, |h.trace.samples|);
    hide Hold;
  }

  lemma CarriedKeeps(s: Sys, i: In, h: K.Hist, ws: Wires)
    requires Lockstep(s) && Carried(s, h, ws) && Fits(i)
    ensures Carried(Next(s, i), K.Record(s, i, h), Watch(s, i, ws))
  {
    SelectionMoves(s, i);
    if !Reset(i) {
      SamplesMove(s, i, h);
      if !s.phy.state.Idle? {
        WatchIs(s, i, h, ws);
      }
    }
    hide Next, K.Record, P.Wire;
  }

  ghost function WatchRun(s: Sys, ws: Wires, ins: seq<In>): Wires
    requires Sized(s) && K.Roomy(s, ins)
    decreases |ins|
  {
    if |ins| == 0 then ws else WatchRun(Next(s, ins[0]), Watch(s, ins[0], ws), ins[1..])
  }

  /** So in every run. */
  lemma {:induction false} CarriedRun(s: Sys, h: K.Hist, ws: Wires, ins: seq<In>)
    requires K.Good(s, h) && Carried(s, h, ws) && K.Roomy(s, ins)
    ensures K.Good(K.Last(s, ins), K.History(s, h, ins))
    ensures Carried(K.Last(s, ins), K.History(s, h, ins), WatchRun(s, ws, ins))
    decreases |ins|
  {
    hide K.Good, Next, K.Record, Watch, Lockstep;
    if |ins| > 0 {
      GoodLockstep(s, h);
      K.GoodKeeps(s, ins[0], h);
      CarriedKeeps(s, ins[0], h, ws);
      CarriedRun(Next(s, ins[0]), K.Record(s, ins[0], h), Watch(s, ins[0], ws), ins[1..]);
    }
  }

  lemma GoodLockstep(s: Sys, h: K.Hist)
    requires K.Good(s, h)
    ensures Lockstep(s) && Alink.Inv(s)
  {
    Alink.InvSized(s);
  }

  /** When a task ends, each wire pair of the PHY it was for has carried the wave of the task's data words and of its
      numbers, and those of every other PHY have stood at 11 all the time. */
  lemma TaskOnWires(s: Sys, i: In, h: K.Hist, ws: Wires) returns (task: seq<nat>, numbers: seq<nat>)
    requires K.Good(s, h) && Carried(s, h, ws) && Fits(i) && K.Room(s, i) && !Reset(i) && P.Done(s.phy)
    ensures K.Record(s, i, h).tasks == h.tasks + [task] && |task| == TASK_WORDS
    ensures P.IsCeiling(|numbers|, task[2]) && (h.trace.plain ==> numbers == P.Multiples(task[2], |numbers|))
    ensures h.trace.scanned ==> numbers == P.ScanWords(task[0], task[1], |numbers|)
    ensures var wave := Wave(AllBits(task[4..] + numbers));
            forall k :: 0 <= k < PHYS ==> Watch(s, i, ws)[k] == if s.phy.sel[k] then wave else Hold(HIGH, |wave|)
  {
    hide K.Good, K.Record, Watch, Wave, AllBits, P.IsCeiling, P.Multiples, P.ScanWords, Hold, P.Done;
    task, numbers := K.TaskEnds(s, i, h);
    DoneSends(s);
    WatchIs(s, i, h, ws);
    SamplesMove(s, i, h);
  }

  lemma DoneSends(s: Sys)
    ensures P.Done(s.phy) ==> !s.phy.state.Idle?
  {}

  /** With a stable mask the task goes to exactly one PHY, and it is enabled. */
  lemma OneHears(s: Sys, i: In, h: K.Hist, ws: Wires, mask: seq<bool>) returns (k: nat, task: seq<nat>, numbers: seq<nat>)
    requires K.Good(s, h) && Carried(s, h, ws) && Fits(i) && K.Room(s, i) && !Reset(i) && P.Done(s.phy)
    requires |mask| == PHYS && Chosen(s, mask)
    ensures k < PHYS && mask[k] && K.Record(s, i, h).tasks == h.tasks + [task] && |task| == TASK_WORDS
    ensures var wave := Wave(AllBits(task[4..] + numbers));
            forall j :: 0 <= j < PHYS ==> Watch(s, i, ws)[j] == if j == k then wave else Hold(HIGH, |wave|)
  {
    hide K.Good, K.Record, Watch, Wave, AllBits, Hold, P.Done, P.IsCeiling;
    GoodLockstep(s, h);
    DoneSends(s);
    SentWhen(s);
    k := ExactlyOne(s, mask);
    task, numbers := TaskOnWires(s, i, h, ws);
  }

  lemma SentWhen(s: Sys)
    requires Lockstep(s)
    ensures !s.phy.state.Idle? ==> s.txc.state.Sent? && s.phy.sel == s.txc.sel
  {}

  /** And a receiver like ours at the end of its wires, fed with what they carried and then 11, ends with the last number. */
  lemma WiresReceived(s: Sys, i: In, h: K.Hist, ws: Wires, k: nat, r: R.RxPhy, w: nat, m: nat, ins: seq<R.In>) returns (numbers: seq<nat>)
    requires K.Good(s, h) && Carried(s, h, ws) && Fits(i) && K.Room(s, i) && !Reset(i) && P.Done(s.phy) && h.trace.plain
    requires k < PHYS && s.phy.sel[k] && R.AtRest(r) && |r.nonce| == 32 && R.Carries(ins, R.Around(w, Watch(s, i, ws)[k], m)) && m > 2
    ensures |numbers| > 0 && Value(R.Run(r, ins).nonce) == numbers[|numbers| - 1] == (|numbers| - 1) * s.phy.step % W32
    ensures P.IsCeiling(|numbers|, s.phy.step)
  {
    hide K.Good, K.Record, Watch, Wave, AllBits, Hold, P.Done, R.Run, P.IsCeiling, P.Multiples;
    var task;
    task, numbers := TaskOnWires(s, i, h, ws);
    LastMultiple(task[2], |numbers|);
    StepOfTask(s, i, h, task);
    AroundLength(w, Wave(AllBits(task[4..] + numbers)), m);
    R.ReceivesWave(r, w, task[4..] + numbers, m, ins, |ins|);
    assert ins[..|ins|] == ins;
  }

  lemma AroundLength(w: nat, sig: seq<Level>, m: nat)
    ensures |R.Around(w, sig, m)| == w + |sig| + m
  {}

  lemma LastMultiple(step: nat, n: nat)
    requires P.IsCeiling(n, step)
    ensures n > 0 && P.Multiples(step, n)[n - 1] == (n - 1) * step % W32 < W32
  {}

  lemma StepOfTask(s: Sys, i: In, h: K.Hist, task: seq<nat>)
    requires K.Good(s, h) && Sized(s) && !Reset(i) && P.Done(s.phy) && K.Record(s, i, h).tasks == h.tasks + [task] && |task| == TASK_WORDS
    ensures task[2] == s.phy.step
  {
    assert (h.tasks + [task])[|h.tasks|] == task;
    hide Alink.Inv, K.Conserved, P.Shape, P.Stream, P.Counting, P.OnLine;
  }
}
