/** The receive side of the A-Link engine: which results enter the FIFO, with which words, and how they are read. */
module AlinkResults {
  import opened LineCode
  import opened Phys
  import opened Alink
  import A = TxC
  import C = RxC
  import P = TxPhy
  import R = RxPhy
  import T = TxTimer

  const WORDS := 5

  /** What one selection by rxc sent to the FIFO: the PHY, the ids of the task most recently started on it, the words. */
  datatype Part = Part(phy: nat, task: (nat, nat), words: seq<nat>)

  /** The history since reset: the PHY rxc has selected, PHYS for none, with the task it names and the words handed over so
      far; the parts before; the words read. */
  datatype Hist = Hist(cur: nat, task: (nat, nat), words: seq<nat>, parts: seq<Part>, read: seq<nat>)

  const EMPTY := Hist(PHYS, (0, 0), [], [], [])

  predicate Whole(p: Part) { |p.words| == WORDS }

  // What decides.

  ghost predicate Silent(s: Sys)
    requires Sized(s)
  {
    forall j :: 0 <= j < PHYS ==> !RxStarts(s, j)
  }

  /** The first PHY that starts to push a result. */
  function FirstStart(s: Sys): (k: nat)
    requires Sized(s)
    ensures k <= PHYS && (k < PHYS ==> RxStarts(s, k)) && forall j :: 0 <= j < k ==> !RxStarts(s, j)
  {
    if RxStarts(s, 0) then 0 else if RxStarts(s, 1) then 1 else if RxStarts(s, 2) then 2
    else if RxStarts(s, 3) then 3 else if RxStarts(s, 4) then 4 else PHYS
  }

  /** In the fifth cycle of its push the selection is cleared. */
  predicate LastCycle(s: Sys, cur: nat)
    requires Sized(s)
  {
    cur < PHYS && s.rx[cur].push == WORDS
  }

  function Successor(s: Sys, cur: nat): (k: nat)
    requires Sized(s) && cur <= PHYS
    ensures k <= PHYS
  {
    if LastCycle(s, cur) then PHYS
    else if !AlmostFull(s) && FirstStart(s) < PHYS then FirstStart(s)
    else cur
  }

  function Pushed(s: Sys, k: nat): nat
    requires Sized(s) && k < PHYS
  {
    R.RxDat(s.rx[k], k, s.timers[k].timer)
  }

  function Handed(s: Sys, h: Hist): seq<nat>
    requires Sized(s) && h.cur <= PHYS
  {
    if h.cur < PHYS then h.words + [Pushed(s, h.cur)] else []
  }

  function Read(s: Sys, i: In, h: Hist): seq<nat> {
    if i.pop && |s.rxFifo| > 0 then h.read + [s.rxFifo[0]] else h.read
  }

  /** One cycle; ids are those of the tasks most recently started. */
  function Record(s: Sys, i: In, h: Hist, ids: seq<(nat, nat)>): Hist
    requires Sized(s) && h.cur <= PHYS && |ids| == PHYS
  {
    var k := Successor(s, h.cur);
    if Reset(i) then EMPTY
    else
      Hist(k,
           if k == h.cur || k == PHYS then h.task else Recent(s, ids)[k],
           if k == h.cur then Handed(s, h) else [],
           if h.cur < PHYS && k != h.cur then h.parts + [Part(h.cur, h.task, Handed(s, h))] else h.parts,
           Read(s, i, h))
  }

  // The selection, in every run.

  /** The PHY selected is pushing, and one word has been handed over for each cycle before this. */
  ghost predicate Selected(s: Sys, h: Hist) {
    && Sized(s) && h.cur <= PHYS
    && (forall k :: 0 <= k < PHYS ==> s.rx[k].push <= WORDS)
    && s.rxc.sel == Only(h.cur)
    && (if h.cur < PHYS then 1 <= s.rx[h.cur].push && |h.words| == s.rx[h.cur].push - 1 else h.words == [])
  }

  lemma PushMoves(s: Sys, i: In, k: nat)
    requires Sized(s) && Fits(i) && k < PHYS && !Reset(i)
    ensures Next(s, i).rx[k].push ==
            if RxStarts(s, k) then 1 else if s.rx[k].push != 0 && s.rx[k].push < WORDS then s.rx[k].push + 1 else 0
  {
    hide A.Next, P.Next, C.Next, T.Next, Fifo, R.RxStart;
  }

  lemma StartsIdle(s: Sys, k: nat)
    requires Sized(s) && k < PHYS && RxStarts(s, k)
    ensures s.rx[k].push == 0
  {}

  lemma RxcMoves(s: Sys, i: In)
    requires Sized(s) && Fits(i)
    ensures Next(s, i).rxc == C.Next(s.rxc, RxcIn(s, i))
  {
    hide A.Next, P.Next, C.Next, R.Next, T.Next, Fifo;
  }

  lemma FinishesOnly(k: nat, last: seq<bool>)
    requires k <= PHYS && |last| == PHYS
    ensures C.Finishes(Only(k), last) == (k < PHYS && last[k])
  {
    if k < PHYS {
      assert Only(k)[k];
    }
  }

  /** rxc moves its selection to the successor, and what it selected goes on its output. */
  lemma RxcFollows(s: Sys, i: In, h: Hist)
    requires Selected(s, h) && Fits(i) && !Reset(i)
    ensures var c := Next(s, i).rxc;
            && c.sel == Only(Successor(s, h.cur)) && c.vld == (h.cur < PHYS)
            && (h.cur < PHYS ==> c.dat == Pushed(s, h.cur))
  {
    var x := RxcIn(s, i);
    RxcMoves(s, i);
    FinishesOnly(h.cur, x.last);
    NoneChosen();
    if FirstStart(s) < PHYS {
      C.PickFirst(x.start, s.rxc.sel, FirstStart(s));
    } else {
      C.PickNone(x.start, s.rxc.sel);
    }
    if h.cur < PHYS {
      C.MuxOnly(h.cur, x.dat);
    }
    hide Next, Only, Any, C.Finishes, C.Pick, C.Mux, RxStarts, Pushed;
  }

  lemma SelectedKeeps(s: Sys, i: In, h: Hist, ids: seq<(nat, nat)>)
    requires Selected(s, h) && Fits(i) && !Reset(i) && |ids| == PHYS
    ensures Selected(Next(s, i), Record(s, i, h, ids))
  {
    RxcFollows(s, i, h);
    var u := Next(s, i);
    var k := Successor(s, h.cur);
    forall j | 0 <= j < PHYS
      ensures u.rx[j].push <= WORDS
    {
      PushMoves(s, i, j);
    }
    if k < PHYS {
      PushMoves(s, i, k);
      if RxStarts(s, k) {
        StartsIdle(s, k);
      }
    }
    hide Next, Only, RxStarts, Pushed, Recent, Read;
  }

  // The words.

  /** Words handed over so far name the PHY and the task most recently started on it. */
  ghost predicate Names(phy: nat, task: (nat, nat), words: seq<nat>) {
    && (|words| > 0 ==> words[0] == phy) && (|words| > 1 ==> words[1] == task.0) && (|words| > 2 ==> words[2] == task.1)
  }

  ghost predicate Naming(s: Sys, h: Hist, ids: seq<(nat, nat)>) {
    && Named(s, ids) && h.cur <= PHYS
    && (h.cur < PHYS ==> h.task == ids[h.cur] && Names(h.cur, h.task, h.words))
    && (forall n :: 0 <= n < |h.parts| ==>
          var p := h.parts[n]; p.phy < PHYS && 1 <= |p.words| <= WORDS && Names(p.phy, p.task, p.words))
  }

  lemma HandedNames(s: Sys, h: Hist, ids: seq<(nat, nat)>)
    requires Selected(s, h) && Naming(s, h, ids) && h.cur < PHYS
    ensures Names(h.cur, h.task, Handed(s, h)) && 1 <= |Handed(s, h)| <= WORDS
  {
    assert (s.rx[h.cur].idH, s.rx[h.cur].idL) == ids[h.cur];
    hide Only, Value;
  }

  lemma NamingKeeps(s: Sys, i: In, h: Hist, ids: seq<(nat, nat)>)
    requires Alink.Inv(s) && Selected(s, h) && Naming(s, h, ids) && Fits(i) && !Reset(i)
    ensures Naming(Next(s, i), Record(s, i, h, ids), Recent(s, ids))
  {
    NamedKeeps(s, ids, i);
    if h.cur < PHYS {
      HandedNames(s, h, ids);
      IdsSteady(s, ids, h.cur);
    }
    hide Next, Only, RxStarts, Recent, Alink.Inv, Named, Pushed, Names, FirstStart;
  }

  // The FIFO.

  function Concat(ps: seq<Part>): seq<nat> {
    var n := |ps|;
    if n == 0 then [] else Concat(ps[..n - 1]) + ps[n - 1].words
  }

  lemma ConcatAppend(ps: seq<Part>, p: Part)
    ensures Concat(ps + [p]) == Concat(ps) + p.words
  {
    assert (ps + [p])[..|ps|] == ps;
  }

  function OnOutput(s: Sys): seq<nat> { if s.rxc.vld then [s.rxc.dat] else [] }

  /** Cycles for which the PHY selected will go on pushing. */
  function ToCome(s: Sys, h: Hist): int
    requires Sized(s) && h.cur <= PHYS
  {
    if h.cur < PHYS then 6 - s.rx[h.cur].push else 0
  }

  /** Words read, words in the FIFO and the word on rxc's output are those handed over, in order; all still to come fit. */
  ghost predicate Queued(s: Sys, h: Hist) {
    && Sized(s) && h.cur <= PHYS
    && h.read + (s.rxFifo + OnOutput(s)) == Concat(h.parts) + h.words
    && |s.rxFifo| + |OnOutput(s)| + ToCome(s, h) <= 509
  }

  lemma RxFifoMoves(s: Sys, i: In)
    requires Sized(s) && Fits(i) && !Reset(i) && |s.rxFifo| < RX_DEPTH
    ensures Next(s, i).rxFifo == Taken(s.rxFifo, i.pop) + OnOutput(s)
  {
    hide A.Next, P.Next, C.Next, R.Next, T.Next;
  }

  /** Reading moves one word from the front of the FIFO to what has been read. */
  lemma ReadMoves(s: Sys, i: In, h: Hist, more: seq<nat>)
    ensures Read(s, i, h) + (Taken(s.rxFifo, i.pop) + more) == h.read + (s.rxFifo + more)
  {
    if i.pop && |s.rxFifo| > 0 {
      assert s.rxFifo == [s.rxFifo[0]] + s.rxFifo[1..];
    }
  }

  /** What is handed over in one cycle is appended. */
  lemma HandedMoves(s: Sys, i: In, h: Hist, ids: seq<(nat, nat)>)
    requires Sized(s) && h.cur <= PHYS && |ids| == PHYS && !Reset(i) && (h.cur == PHYS ==> h.words == [])
    ensures var g := Record(s, i, h, ids);
            Concat(g.parts) + g.words == Concat(h.parts) + h.words + if h.cur < PHYS then [Pushed(s, h.cur)] else []
  {
    hide Concat, Pushed, Recent, Read, Successor;
    var g := Record(s, i, h, ids);
    if h.cur < PHYS {
      var w := h.words + [Pushed(s, h.cur)];
      if g.cur != h.cur {
        ConcatAppend(h.parts, Part(h.cur, h.task, w));
      }
      assert Concat(h.parts) + w == Concat(h.parts) + h.words + [Pushed(s, h.cur)];
    }
  }

  lemma RoomKeeps(s: Sys, i: In, h: Hist)
    requires Selected(s, h) && Queued(s, h) && Fits(i) && !Reset(i)
    ensures var u, k := Next(s, i), Successor(s, h.cur);
            |Taken(s.rxFifo, i.pop)| + |OnOutput(s)| + (if h.cur < PHYS then 1 else 0) + (if k < PHYS then 6 - u.rx[k].push else 0) <= 509
  {
    var k := Successor(s, h.cur);
    if k < PHYS {
      PushMoves(s, i, k);
      if RxStarts(s, k) {
        StartsIdle(s, k);
      }
    }
    hide Next, Only, Concat, RxStarts;
  }

  lemma QueuedKeeps(s: Sys, i: In, h: Hist, ids: seq<(nat, nat)>)
    requires Selected(s, h) && Queued(s, h) && Fits(i) && !Reset(i) && |ids| == PHYS
    ensures Queued(Next(s, i), Record(s, i, h, ids))
  {
    RxcFollows(s, i, h);
    RxFifoMoves(s, i);
    HandedMoves(s, i, h, ids);
    RoomKeeps(s, i, h);
    var u, g := Next(s, i), Record(s, i, h, ids);
    assert g.cur == Successor(s, h.cur) && g.read == Read(s, i, h);
    hide Next, Concat, Only, Successor, Pushed, Record, Taken, Read, Selected;
    ReadMoves(s, i, h, OnOutput(s));
    Assoc(g.read, Taken(s.rxFifo, i.pop) + OnOutput(s), OnOutput(u));
  }

  lemma Assoc(a: seq<nat>, b: seq<nat>, c: seq<nat>)
    ensures a + (b + c) == (a + b) + c
  {}

  // Every run, whatever the chips do.

  ghost predicate Good(s: Sys, h: Hist, ids: seq<(nat, nat)>) {
    Alink.Inv(s) && Selected(s, h) && Naming(s, h, ids) && Queued(s, h)
  }

  lemma GoodShaped(s: Sys, h: Hist, ids: seq<(nat, nat)>)
    requires Good(s, h, ids)
    ensures Sized(s) && h.cur <= PHYS && |ids| == PHYS
  {}

  lemma ResetGood(s: Sys, i: In, ids: seq<(nat, nat)>)
    requires Alink.Inv(s) && Named(s, ids) && Fits(i) && Reset(i)
    ensures Good(Next(s, i), EMPTY, Recent(s, ids))
  {
    Alink.InvKeeps(s, i);
    NamedKeeps(s, ids, i);
    hide P.Next, A.Next, T.Next, Only, C.Finishes, C.Pick, C.Mux, R.ShiftIn, Alink.Inv, Named, Recent;
    assert [] + (Next(s, i).rxFifo + OnOutput(Next(s, i))) == Concat([]) + [];
  }

  lemma GoodKeeps(s: Sys, i: In, h: Hist, ids: seq<(nat, nat)>)
    requires Good(s, h, ids) && Sized(s) && h.cur <= PHYS && |ids| == PHYS && Fits(i)
    ensures Good(Next(s, i), Record(s, i, h, ids), Recent(s, ids))
  {
    if Reset(i) {
      ResetGood(s, i, ids);
    } else {
      SelectedKeeps(s, i, h, ids);
      QueuedKeeps(s, i, h, ids);
      NamingKeeps(s, i, h, ids);
      Alink.InvKeeps(s, i);
      hide Selected, Queued, Naming, Alink.Inv, Next, Record, Recent;
    }
  }

  lemma NeverFull(s: Sys, h: Hist, ids: seq<(nat, nat)>)
    requires Good(s, h, ids)
    ensures |s.rxFifo| <= 509 < RX_DEPTH
  {
    hide Concat, Only, Alink.Inv, Naming;
    assert s.rxc.sel == Only(h.cur);
  }

  // Which results enter.

  /** A result that starts is selected if and only if the FIFO holds at most 502 of its 512 words, it is the first to start
      in this cycle, and no result selected is in its last cycle. */
  lemma TakenExact(s: Sys, i: In, h: Hist, k: nat)
    requires Selected(s, h) && Fits(i) && !Reset(i) && k < PHYS && RxStarts(s, k)
    ensures Next(s, i).rxc.sel == Only(k) <==> |s.rxFifo| <= 502 && FirstStart(s) == k && !LastCycle(s, h.cur)
  {
    RxcFollows(s, i, h);
    StartsIdle(s, k);
    OnlyInjective(Successor(s, h.cur), k);
    hide Next, Only, RxStarts;
  }

  lemma OnlyInjective(j: nat, k: nat)
    requires k < PHYS && j <= PHYS
    ensures Only(j) == Only(k) <==> j == k
  {
    assert Only(k)[k];
    assert Only(j)[k] == (j == k);
  }

  /** A result selected and not in its last cycle stays selected if and only if none starts or the FIFO lacks room. */
  lemma StaysExact(s: Sys, i: In, h: Hist)
    requires Selected(s, h) && Fits(i) && !Reset(i) && h.cur < PHYS && !LastCycle(s, h.cur)
    ensures Next(s, i).rxc.sel == s.rxc.sel <==> AlmostFull(s) || Silent(s)
  {
    RxcFollows(s, i, h);
    OnlyInjective(Successor(s, h.cur), h.cur);
    if FirstStart(s) < PHYS {
      StartsIdle(s, FirstStart(s));
    }
    hide Next, Only, RxStarts;
  }

  /** How many of the words of the PHY selected, pushed of which are through before this cycle, get through in this run:
      up to the first cycle in which another starts and the FIFO has room. */
  ghost function Through(s: Sys, ins: seq<In>, pushed: nat): nat
    requires Sized(s) && pushed < WORDS && |ins| == WORDS - pushed && forall j :: 0 <= j < |ins| ==> Fits(ins[j])
    decreases |ins|
  {
    if pushed == WORDS - 1 || !(AlmostFull(s) || Silent(s)) then pushed + 1 else Through(Next(s, ins[0]), ins[1..], pushed + 1)
  }

  /** Nothing takes the selection away in these cycles but the last. */
  ghost predicate Alone(s: Sys, ins: seq<In>)
    requires Sized(s) && forall j :: 0 <= j < |ins| ==> Fits(ins[j])
    decreases |ins|
  {
    |ins| > 1 ==> (AlmostFull(s) || Silent(s)) && Alone(Next(s, ins[0]), ins[1..])
  }

  lemma {:induction false} ThroughExact(s: Sys, ins: seq<In>, pushed: nat)
    requires Sized(s) && pushed < WORDS && |ins| == WORDS - pushed && forall j :: 0 <= j < |ins| ==> Fits(ins[j])
    ensures pushed < Through(s, ins, pushed) <= WORDS
    ensures Through(s, ins, pushed) == WORDS <==> Alone(s, ins)
    decreases |ins|
  {
    hide Next, Silent;
    if pushed < WORDS - 1 && (AlmostFull(s) || Silent(s)) {
      ThroughExact(Next(s, ins[0]), ins[1..], pushed + 1);
    }
  }

  ghost function After(s: Sys, h: Hist, ids: seq<(nat, nat)>, ins: seq<In>): (Sys, Hist, seq<(nat, nat)>)
    requires Good(s, h, ids) && forall j :: 0 <= j < |ins| ==> Fits(ins[j])
    decreases |ins|
  {
    if |ins| == 0 then (s, h, ids)
    else
      GoodShaped(s, h, ids);
      GoodKeeps(s, ins[0], h, ids);
      After(Next(s, ins[0]), Record(s, ins[0], h, ids), Recent(s, ids), ins[1..])
  }

  lemma {:induction false} PartsStay(s: Sys, h: Hist, ids: seq<(nat, nat)>, ins: seq<In>)
    requires Good(s, h, ids) && forall j :: 0 <= j < |ins| ==> Fits(ins[j]) && !Reset(ins[j])
    ensures var (u, g, r) := After(s, h, ids, ins); Good(u, g, r) && h.parts <= g.parts
    decreases |ins|
  {
    hide Next, Good, Successor, Recent;
    if |ins| > 0 {
      GoodShaped(s, h, ids);
      GoodKeeps(s, ins[0], h, ids);
      PartsStay(Next(s, ins[0]), Record(s, ins[0], h, ids), Recent(s, ids), ins[1..]);
    }
  }

  lemma OneCycle(s: Sys, i: In, h: Hist, ids: seq<(nat, nat)>)
    requires Selected(s, h) && Fits(i) && !Reset(i) && |ids| == PHYS && h.cur < PHYS
    ensures var g := Record(s, i, h, ids);
            if |h.words| < WORDS - 1 && (AlmostFull(s) || Silent(s))
            then g.cur == h.cur && g.task == h.task && |g.words| == |h.words| + 1 && g.parts == h.parts
            else g.parts == h.parts + [Part(h.cur, h.task, Handed(s, h))]
  {
    if FirstStart(s) < PHYS {
      StartsIdle(s, FirstStart(s));
    }
    hide Only, RxStarts, Pushed, Recent, Read;
  }

  lemma HandedLength(s: Sys, h: Hist)
    requires Sized(s) && h.cur < PHYS
    ensures |Handed(s, h)| == |h.words| + 1
  {}

  lemma FirstCycle(s: Sys, h: Hist, ids: seq<(nat, nat)>, ins: seq<In>)
    requires Good(s, h, ids) && Sized(s) && h.cur < PHYS && |ins| > 0 && forall j :: 0 <= j < |ins| ==> Fits(ins[j])
    requires !Reset(ins[0])
    ensures |ids| == PHYS && |Handed(s, h)| == |h.words| + 1
    ensures var u, g, r := Next(s, ins[0]), Record(s, ins[0], h, ids), Recent(s, ids);
            && Sized(u) && Good(u, g, r) && After(s, h, ids, ins) == After(u, g, r, ins[1..])
            && if |h.words| < WORDS - 1 && (AlmostFull(s) || Silent(s))
               then g.cur == h.cur && g.task == h.task && |g.words| == |h.words| + 1 && g.parts == h.parts
               else g.parts == h.parts + [Part(h.cur, h.task, Handed(s, h))]
  {
    GoodShaped(s, h, ids);
    GoodSelected(s, h, ids);
    HandedLength(s, h);
    hide Next, Good, Successor, Recent, Silent, Record, Selected, AlmostFull, Pushed, Handed, After, Fits, Reset;
    OneCycle(s, ins[0], h, ids);
    AfterOne(s, h, ids, ins);
  }

  /** What a selected result sends to the FIFO: exactly the words up to the first cycle in which another result starts
      and the FIFO has room, hence all five if and only if there is no such cycle before its last. */
  lemma {:induction false} EntersExact(s: Sys, h: Hist, ids: seq<(nat, nat)>, ins: seq<In>)
    requires Good(s, h, ids) && Sized(s) && h.cur < PHYS && |h.words| < WORDS && |ins| == WORDS - |h.words|
    requires forall j :: 0 <= j < |ins| ==> Fits(ins[j]) && !Reset(ins[j])
    ensures var (u, g, r) := After(s, h, ids, ins);
            var n := |h.parts|;
            && n < |g.parts| && g.parts[n].phy == h.cur && g.parts[n].task == h.task
            && |g.parts[n].words| == Through(s, ins, |h.words|)
            && (Whole(g.parts[n]) <==> Alone(s, ins))
    decreases |ins|
  {
    hide Next, Good, Successor, Recent, Silent, Record, Alone, Selected, AlmostFull, Pushed, Handed, After, Fits, Reset, Sized;
    ThroughExact(s, ins, |h.words|);
    FirstCycle(s, h, ids, ins);
    var u, g := Next(s, ins[0]), Record(s, ins[0], h, ids);
    if |h.words| < WORDS - 1 && (AlmostFull(s) || Silent(s)) {
      EntersExact(u, g, Recent(s, ids), ins[1..]);
    } else {
      PartsStay(u, g, Recent(s, ids), ins[1..]);
      assert g.parts[|h.parts|] == Part(h.cur, h.task, Handed(s, h));
    }
  }

  // Completions at least six cycles apart.

  /** Results start one at a time, and none while another is being pushed, which takes the five cycles after its start. */
  ghost predicate Spaced(s: Sys)
    requires Sized(s)
  {
    Silent(s) || ((forall j :: 0 <= j < PHYS ==> s.rx[j].push == 0)
                  && forall j, k :: 0 <= j < PHYS && 0 <= k < PHYS && RxStarts(s, j) && RxStarts(s, k) ==> j == k)
  }

  predicate AllWhole(h: Hist) { forall n :: 0 <= n < |h.parts| ==> Whole(h.parts[n]) }

  /** Then every result taken enters the FIFO as five consecutive words. */
  lemma SpacedWhole(s: Sys, i: In, h: Hist, ids: seq<(nat, nat)>)
    requires Selected(s, h) && Fits(i) && |ids| == PHYS && Spaced(s) && AllWhole(h)
    ensures AllWhole(Record(s, i, h, ids))
  {
    if !Reset(i) && h.cur < PHYS {
      OneCycle(s, i, h, ids);
    }
    hide Only, RxStarts, Pushed, Recent, Read, Successor;
  }

  /** And a result that starts is taken exactly when the FIFO has room. */
  lemma SpacedTaken(s: Sys, i: In, h: Hist, k: nat)
    requires Selected(s, h) && Fits(i) && !Reset(i) && Spaced(s) && k < PHYS && RxStarts(s, k)
    ensures Next(s, i).rxc.sel == Only(k) <==> |s.rxFifo| <= 502
  {
    TakenExact(s, i, h, k);
    hide Next, Only, RxStarts;
  }

  // Reading.

  /** alink_read_result reads five words, the first only after it has seen rxempty low. */
  predicate Reads(s: Sys, i: In, h: Hist) {
    i.pop && |h.read| % WORDS == 0 ==> !RxEmpty(s)
  }

  /** Inside a reading there are words for the rest of it. */
  predicate Served(s: Sys, h: Hist) {
    |h.read| % WORDS != 0 ==> |h.read| % WORDS + |s.rxFifo| >= WORDS
  }

  /** A reading may begin exactly when a whole result is there. */
  lemma MayRead(s: Sys, i: In, h: Hist)
    requires i.pop && |h.read| % WORDS == 0
    ensures Reads(s, i, h) <==> |s.rxFifo| >= 5
  {}

  lemma NextPlace(n: nat)
    ensures (n + 1) % WORDS == if n % WORDS == 4 then 0 else n % WORDS + 1
  {}

  lemma OneRead(s: Sys, i: In, h: Hist)
    requires Served(s, h) && Reads(s, i, h)
    ensures i.pop ==> |s.rxFifo| > 0
    ensures var m := |Read(s, i, h)| % WORDS; m != 0 ==> m + |Taken(s.rxFifo, i.pop)| >= WORDS
  {
    NextPlace(|h.read|);
  }

  lemma StillServed(u: Sys, g: Hist, f: seq<nat>, more: seq<nat>)
    requires u.rxFifo == f + more && (|g.read| % WORDS != 0 ==> |g.read| % WORDS + |f| >= WORDS)
    ensures Served(u, g)
  {}

  lemma NothingRead(u: Sys)
    ensures Served(u, EMPTY)
  {}

  /** So no word is read from an empty FIFO. */
  lemma ServedKeeps(s: Sys, i: In, h: Hist, ids: seq<(nat, nat)>)
    requires Good(s, h, ids) && Sized(s) && h.cur <= PHYS && |ids| == PHYS && Fits(i) && Reads(s, i, h) && Served(s, h)
    ensures i.pop ==> |s.rxFifo| > 0
    ensures Served(Next(s, i), Record(s, i, h, ids))
  {
    hide Next, Good, Successor, Recent, Handed, OnOutput, AlmostFull, Read, Taken, Served, Reads, RxEmpty;
    OneRead(s, i, h);
    if !Reset(i) {
      NeverFull(s, h, ids);
      RxFifoMoves(s, i);
      StillServed(Next(s, i), Record(s, i, h, ids), Taken(s.rxFifo, i.pop), OnOutput(s));
    } else {
      NothingRead(Next(s, i));
    }
  }

  lemma {:induction false} ConcatLength(ps: seq<Part>)
    requires forall k :: 0 <= k < |ps| ==> Whole(ps[k])
    ensures |Concat(ps)| == WORDS * |ps|
  {
    if |ps| > 0 {
      ConcatLength(ps[..|ps| - 1]);
    }
  }

  lemma {:induction false} ConcatAt(ps: seq<Part>, k: nat)
    requires k < |ps| && forall j :: 0 <= j < |ps| ==> Whole(ps[j])
    ensures WORDS * k + WORDS <= |Concat(ps)| && Concat(ps)[WORDS * k..WORDS * k + WORDS] == ps[k].words
  {
    var n := |ps|;
    var front := ps[..n - 1];
    ConcatLength(front);
    ConcatLength(ps);
    if k < n - 1 {
      ConcatAt(front, k);
      assert front[k] == ps[k];
      Within(Concat(front), ps[n - 1].words, WORDS * k);
    }
  }

  lemma Within(a: seq<nat>, b: seq<nat>, lo: nat)
    requires lo + WORDS <= |a|
    ensures (a + b)[lo..lo + WORDS] == a[lo..lo + WORDS]
  {}

  /** With whole results, the n-th alink_read_result returns the n-th result taken: its PHY, and the ids of the task that
      had most recently been started on that PHY when it was taken. */
  lemma NthRead(s: Sys, h: Hist, ids: seq<(nat, nat)>, n: nat)
    requires Good(s, h, ids) && AllWhole(h) && WORDS * n + WORDS <= |h.read|
    ensures n < |h.parts| && h.read[WORDS * n..WORDS * n + WORDS] == h.parts[n].words
    ensures h.read[WORDS * n] == h.parts[n].phy
    ensures (h.read[WORDS * n + 1], h.read[WORDS * n + 2]) == h.parts[n].task
  {
    ReadIsHanded(s, h, ids);
    var all, w := Concat(h.parts), h.read[WORDS * n..WORDS * n + WORDS];
    ConcatLength(h.parts);
    ConcatAt(h.parts, n);
    Within(h.read, s.rxFifo + OnOutput(s), WORDS * n);
    Within(all, h.words, WORDS * n);
    assert w[0] == h.read[WORDS * n] && w[1] == h.read[WORDS * n + 1] && w[2] == h.read[WORDS * n + 2];
    hide Concat, Good;
  }

  lemma ReadIsHanded(s: Sys, h: Hist, ids: seq<(nat, nat)>)
    requires Good(s, h, ids)
    ensures h.read + (s.rxFifo + OnOutput(s)) == Concat(h.parts) + h.words && |h.words| < WORDS
    ensures forall n :: 0 <= n < |h.parts| ==> Names(h.parts[n].phy, h.parts[n].task, h.parts[n].words)
  {
    hide Alink.Inv, Only, Concat, Names, Named;
  }

  /** The five words of a result, in order: the PHY, the two task ids, the timer and the nonce at the time. */
  lemma WordsInOrder(s: Sys, h: Hist)
    requires Selected(s, h) && h.cur < PHYS
    ensures var r, k := s.rx[h.cur], |h.words| + 1;
            Handed(s, h) == h.words + [if k == 1 then h.cur else if k == 2 then r.idH else if k == 3 then r.idL
                                       else if k == 4 then s.timers[h.cur].timer else Value(r.nonce)]
  {
    hide Only, Value;
  }

  /** Every run from reset in which completions are six cycles apart and the firmware reads as it does. */
  ghost predicate Orderly(s: Sys, h: Hist, ids: seq<(nat, nat)>, ins: seq<In>)
    requires Good(s, h, ids)
    decreases |ins|
  {
    GoodShaped(s, h, ids);
    |ins| > 0 ==>
      && Fits(ins[0]) && Reads(s, ins[0], h) && Spaced(s)
      && (GoodKeeps(s, ins[0], h, ids);
          Orderly(Next(s, ins[0]), Record(s, ins[0], h, ids), Recent(s, ids), ins[1..]))
  }

  lemma OneOrderly(s: Sys, h: Hist, ids: seq<(nat, nat)>, ins: seq<In>)
    requires Good(s, h, ids) && Orderly(s, h, ids, ins) && |ins| > 0
    ensures Sized(s) && h.cur <= PHYS && |ids| == PHYS && Fits(ins[0]) && Reads(s, ins[0], h) && Spaced(s)
    ensures var u, g, r := Next(s, ins[0]), Record(s, ins[0], h, ids), Recent(s, ids);
            Good(u, g, r) && Orderly(u, g, r, ins[1..])
  {
    GoodShaped(s, h, ids);
    GoodKeeps(s, ins[0], h, ids);
    hide Good, Next, Record, Recent, Spaced, Reads;
  }

  lemma {:induction false} OrderlyFits(s: Sys, h: Hist, ids: seq<(nat, nat)>, ins: seq<In>)
    requires Good(s, h, ids) && Orderly(s, h, ids, ins)
    ensures forall j :: 0 <= j < |ins| ==> Fits(ins[j])
    decreases |ins|
  {
    hide Good, Next, Record, Recent, Spaced, Reads, Orderly, Fits;
    if |ins| > 0 {
      OneOrderly(s, h, ids, ins);
      OrderlyFits(Next(s, ins[0]), Record(s, ins[0], h, ids), Recent(s, ids), ins[1..]);
    }
  }

  lemma AfterOne(s: Sys, h: Hist, ids: seq<(nat, nat)>, ins: seq<In>)
    requires Good(s, h, ids) && |ins| > 0 && forall j :: 0 <= j < |ins| ==> Fits(ins[j])
    ensures Sized(s) && h.cur <= PHYS && |ids| == PHYS && Good(Next(s, ins[0]), Record(s, ins[0], h, ids), Recent(s, ids))
    ensures After(s, h, ids, ins) == After(Next(s, ins[0]), Record(s, ins[0], h, ids), Recent(s, ids), ins[1..])
  {
    GoodShaped(s, h, ids);
    GoodKeeps(s, ins[0], h, ids);
    hide Good, Next, Record, Recent, Fits;
  }

  lemma {:induction false} OrderlyRun(s: Sys, h: Hist, ids: seq<(nat, nat)>, ins: seq<In>)
    requires Good(s, h, ids) && AllWhole(h) && Served(s, h) && Orderly(s, h, ids, ins)
    ensures forall j :: 0 <= j < |ins| ==> Fits(ins[j])
    ensures var (u, g, r) := After(s, h, ids, ins); Good(u, g, r) && AllWhole(g) && Served(u, g)
    decreases |ins|
  {
    OrderlyFits(s, h, ids, ins);
    if |ins| > 0 {
      OneOrderly(s, h, ids, ins);
      AfterOne(s, h, ids, ins);
      ServedKeeps(s, ins[0], h, ids);
      GoodSelected(s, h, ids);
      SpacedWhole(s, ins[0], h, ids);
      hide Good, Next, Record, Recent, Selected, Served, AllWhole, Spaced, Reads, Orderly, After, Fits;
      OrderlyRun(Next(s, ins[0]), Record(s, ins[0], h, ids), Recent(s, ids), ins[1..]);
    }
  }

  lemma GoodSelected(s: Sys, h: Hist, ids: seq<(nat, nat)>)
    requires Good(s, h, ids)
    ensures Selected(s, h)
  {}
}
