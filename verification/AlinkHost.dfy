/** firmware/alink.c: a work becomes 23 words, a result is five. */
module AlinkHost {
  import opened Words
  import opened Fips180
  import opened Message
  import opened Bytes
  import opened ShaCore
  import opened ShaDriver
  import opened Jobs
  import opened Miner
  import opened Verdict
  import Alink
  import AlinkTasks
  import LineCode
  import P = TxPhy

  /** The register through which words reach the transmit FIFO. */
  class TxPort {
    var sent: seq<word>

    constructor ()
      ensures sent == []
    {
      sent := [];
    }

    method Write(w: word)
      modifies this
      ensures sent == old(sent) + [w]
    {
      sent := sent + [w];
    }
  }

  /** A work that miner_gen_nonce2_work and miner_init_work have filled in. */
  ghost predicate Filled(w: Work)
    reads w
  {
    && w.Valid() && |w.taskId| == 8 && |w.step| == 4 && |w.timeout| == 4 && |w.clock| == 8
    && |w.a0| == |w.a1| == |w.a2| == |w.e0| == |w.e1| == |w.e2| == 4
  }

  /** The part of miner_init_work that identifies a task: pool number and nonce2, and the nonce range of one chip. */
  method InitWork(mw: MmWork, work: Work)
    modifies work
    ensures work.taskId == Store(mw.poolNo) + Store(work.nonce2) && work.step == [0x19, 0x99, 0x99, 0x9a]
    ensures work.nonce2 == old(work.nonce2) && work.timeout == old(work.timeout) && work.clock == old(work.clock)
    ensures [work.a0, work.a1, work.a2, work.e0, work.e1, work.e2] == old([work.a0, work.a1, work.a2, work.e0, work.e1, work.e2])
  {
    work.taskId := Store(mw.poolNo) + Store(work.nonce2);
    work.step := [0x19, 0x99, 0x99, 0x9a];
  }

  /** n words of b at off, from the last to the first. */
  function Down(b: seq<byte>, off: nat, n: nat): (ws: seq<word>)
    requires off + 4 * n <= |b|
    ensures |ws| == n
  {
    if n == 0 then [] else [Load(b[off + 4 * n - 4..off + 4 * n])] + Down(b, off, n - 1)
  }

  ghost function ConfigWords(w: Work): (ws: seq<word>)
    requires Filled(w)
    reads w
    ensures |ws| == 6
  {
    [Load(w.taskId[..4]), Load(w.taskId[4..]), Load(w.step), Load(w.timeout), Load(w.clock[..4]), Load(w.clock[4..])]
  }

  ghost function TapWords(w: Work): (ws: seq<word>)
    requires Filled(w)
    reads w
    ensures |ws| == 5
  {
    [Load(w.a1), Load(w.a0), Load(w.e2), Load(w.e1), Load(w.e0)]
  }

  /** The 23 words in the order they are written. */
  ghost function TaskWords(w: Work): (ws: seq<word>)
    requires Filled(w)
    reads w, w.data
    ensures |ws| == 23
  {
    ConfigWords(w) + Down(w.data[..], 32, 3) + TapWords(w) + Down(w.data[..], 0, 8) + [Load(w.a2)]
  }

  /** The loops of alink_send_work: n words of data at off are written, the last one first. */
  method SendDown(data: array<byte>, off: nat, n: nat, tx: TxPort)
    requires off + 4 * n <= data.Length
    modifies tx
    ensures tx.sent == old(tx.sent) + Down(data[..], off, n)
  {
    hide Load, Down;
    ghost var b, was, done := data[..], tx.sent, [];
    var i: int := 4 * n - 4;
    ghost var k: nat := n;
    assert [] + Down(b, off, n) == Down(b, off, n) && was + [] == was;
    while i >= 0
      invariant i == 4 * k - 4
      invariant tx.sent == was + done && done + Down(b, off, k) == Down(b, off, n)
    {
      DownNext(b, off, k, done);
      assert data[off + i..off + i + 4] == b[off + i..off + i + 4];
      var tmp := Load(data[off + i..off + i + 4]);
      tx.Write(tmp);
      assert was + done + [tmp] == was + (done + [tmp]);
      done := done + [tmp];
      i, k := i - 4, k - 1;
    }
    DownNone(b, off);
    assert done + [] == done;
  }

  lemma DownNext(b: seq<byte>, off: nat, k: nat, done: seq<word>)
    requires off + 4 * k <= |b| && k > 0
    ensures done + Down(b, off, k) == done + [Load(b[off + 4 * k - 4..off + 4 * k])] + Down(b, off, k - 1)
  {
    hide Load;
  }

  lemma DownNone(b: seq<byte>, off: nat)
    requires off <= |b|
    ensures Down(b, off, 0) == []
  {}

  method SendConfig(w: Work, tx: TxPort)
    requires Filled(w)
    modifies tx
    ensures tx.sent == old(tx.sent) + ConfigWords(w)
  {
    hide Load;
    tx.Write(Load(w.taskId[..4]));
    tx.Write(Load(w.taskId[4..]));
    tx.Write(Load(w.step));
    tx.Write(Load(w.timeout));
    tx.Write(Load(w.clock[..4]));
    tx.Write(Load(w.clock[4..]));
  }

  method SendTaps(w: Work, tx: TxPort)
    requires Filled(w)
    modifies tx
    ensures tx.sent == old(tx.sent) + TapWords(w)
  {
    hide Load;
    tx.Write(Load(w.a1));
    tx.Write(Load(w.a0));
    tx.Write(Load(w.e2));
    tx.Write(Load(w.e1));
    tx.Write(Load(w.e0));
  }

  /** alink_send_work */
  method SendWork(w: Work, tx: TxPort)
    requires Filled(w)
    modifies tx
    ensures tx.sent == old(tx.sent) + TaskWords(w)
  {
    hide Load, Down, ConfigWords, TapWords;
    SendConfig(w, tx);
    SendDown(w.data, 32, 3, tx);
    SendTaps(w, tx);
    SendDown(w.data, 0, 8, tx);
    tx.Write(Load(w.a2));
  }

  /** The words of the data part, in natural order: the reversals of the firmware and of this order cancel. */
  lemma DataInOrder(header: seq<byte>)
    requires |header| == 128
    ensures var data := WorkMidstate(header) + WorkTail(header);
            && Down(data, 32, 3) == WordsOf(Flip(header[64..76]))
            && Down(data, 0, 8) == HeaderMidstate(header).Words()
  {
    hide Load, WordsOf, Flip, Digest, Reverse, HeaderMidstate, Down, Hash.Words;
    var data := WorkMidstate(header) + WorkTail(header);
    assert data[..32] == WorkMidstate(header) && data[32..] == WorkTail(header);
    TailWordsDown(header[64..76], data);
    MidstateWordsDown(HeaderMidstate(header), data);
  }

  lemma DownUnrolled(b: seq<byte>, off: nat)
    requires off + 12 <= |b|
    ensures Down(b, off, 3) == [Load(b[off + 8..off + 12]), Load(b[off + 4..off + 8]), Load(b[off..off + 4])]
  {
    hide Load;
    assert Down(b, off, 0) == [];
    assert Down(b, off, 1) == [Load(b[off..off + 4])];
    assert Down(b, off, 2) == [Load(b[off + 4..off + 8]), Load(b[off..off + 4])];
  }

  lemma TailWordsDown(h: seq<byte>, data: seq<byte>)
    requires |h| == 12 && |data| == 44 && data[32..] == Reverse(h)
    ensures Down(data, 32, 3) == WordsOf(Flip(h))
  {
    hide Load, Flip, Reverse, Down;
    var t, f := Reverse(h), Flip(h);
    DownUnrolled(data, 32);
    TailCancels(h);
    FlipLength(h, 3);
    WordsLength(f);
    WordAt(f, 0);
    WordAt(f, 1);
    WordAt(f, 2);
    assert data[40..44] == t[8..] == f[4 * 0..4 * 0 + 4];
    assert data[36..40] == t[4..8] == f[4 * 1..4 * 1 + 4];
    assert data[32..36] == t[..4] == f[4 * 2..4 * 2 + 4];
  }

  lemma {:induction false} DownAt(b: seq<byte>, off: nat, n: nat, k: nat)
    requires off + 4 * n <= |b| && k < n
    ensures Down(b, off, n)[k] == Load(b[off + 4 * (n - 1 - k)..off + 4 * (n - 1 - k) + 4])
  {
    hide Load;
    if k > 0 {
      DownAt(b, off, n - 1, k - 1);
    }
  }

  lemma MidstateWordDown(b: seq<byte>, data: seq<byte>, k: nat)
    requires |data| == 44 && |b| == 32 && |Flip(b)| == 32 && data[..32] == Reverse(Flip(b)) && k < 8
    ensures |WordsOf(b)| > k && Down(data, 0, 8)[k] == WordsOf(b)[k]
  {
    hide Load, Flip, Reverse, WordsOf, Down;
    DownAt(data, 0, 8, k);
    Reversals(b, k);
    WordAt(b, k);
    SliceOfSlice(data, 0, 32, 28 - 4 * k, 32 - 4 * k);
    assert 0 + 4 * (8 - 1 - k) == 28 - 4 * k;
  }

  lemma MidstateWordsDown(v: Hash, data: seq<byte>)
    requires |data| == 44 && |Flip(Digest(v))| == 32 && data[..32] == Reverse(Flip(Digest(v)))
    ensures Down(data, 0, 8) == v.Words()
  {
    hide Flip, Reverse, Digest, BytesOf, WordsOf, Down, Load;
    var b := Digest(v);
    WordsOfBytes(v.Words());
    DigestIsBytes(v);
    forall k: nat | k < 8
      ensures Down(data, 0, 8)[k] == v.Words()[k]
    {
      MidstateWordDown(b, data, k);
    }
  }

  lemma DigestIsBytes(v: Hash)
    ensures Digest(v) == BytesOf(v.Words())
  {}

  /** The chips receive, for the header of the work: words 16 to 18 of the message test_nonce hashes, the state after
      rounds 0 to 2 of its second block, and the hash of its first block. */
  lemma TaskIsHeader(w: Work, header: seq<byte>)
    requires Filled(w) && |header| == 128 && w.data[..] == WorkMidstate(header) + WorkTail(header)
    requires var t := WorkTaps(header);
             w.a0 == Store(t.a0) && w.a1 == Store(t.a1) && w.a2 == Store(t.a2)
             && w.e0 == Store(t.e0) && w.e1 == Store(t.e1) && w.e2 == Store(t.e2)
    ensures var t, ws := WorkTaps(header), TaskWords(w);
            && ws[6..9] == WordsOf(Flip(header[64..76])) && ws[14..22] == HeaderMidstate(header).Words()
            && ws[9..14] == [t.a1, t.a0, t.e2, t.e1, t.e0] && ws[22] == t.a2
  {
    hide Load, Store, Down, WorkMidstate, WorkTail, WorkTaps, WordsOf, Flip, HeaderMidstate;
    DataInOrder(header);
    Slices(ConfigWords(w), Down(w.data[..], 32, 3), TapWords(w), Down(w.data[..], 0, 8), Load(w.a2));
    var t := WorkTaps(header);
    LoadStore(t.a0);
    LoadStore(t.a1);
    LoadStore(t.a2);
    LoadStore(t.e0);
    LoadStore(t.e1);
    LoadStore(t.e2);
  }

  /** Before them come pool number and nonce2, which the result will bring back, the step, the timeout and the clock words. */
  lemma TaskBegins(mw: MmWork, w: Work)
    requires Filled(w) && w.taskId == Store(mw.poolNo) + Store(w.nonce2)
    ensures var ws := TaskWords(w);
            && ws[0] == mw.poolNo && ws[1] == w.nonce2 && ws[2] == Load(w.step) && ws[3] == Load(w.timeout)
            && ws[4] == Load(w.clock[..4]) && ws[5] == Load(w.clock[4..])
  {
    hide Load, Store, Down;
    LoadStore(mw.poolNo);
    LoadStore(w.nonce2);
    assert w.taskId[..4] == Store(mw.poolNo) && w.taskId[4..] == Store(w.nonce2);
    Slices(ConfigWords(w), Down(w.data[..], 32, 3), TapWords(w), Down(w.data[..], 0, 8), Load(w.a2));
    var ws := TaskWords(w);
    assert forall k :: 0 <= k < 6 ==> ws[k] == ws[..6][k];
  }

  lemma Slices(a: seq<word>, b: seq<word>, c: seq<word>, d: seq<word>, e: word)
    requires |a| == 6 && |b| == 3 && |c| == 5 && |d| == 8
    ensures var s := a + b + c + d + [e]; s[..6] == a && s[6..9] == b && s[9..14] == c && s[14..22] == d && s[22] == e
  {}

  /** alink_read_result: five words popped from the receive FIFO. */
  function ReadResult(ws: seq<word>): (r: Result)
    requires |ws| == 5
    ensures r.Valid()
  {
    Result(Store(ws[0]), Store(ws[1]) + Store(ws[2]), Store(ws[3]), Store(ws[4]))
  }

  /** The words of a result, in the order in which they come. */
  lemma ResultFields(ws: seq<word>)
    requires |ws| == 5
    ensures var r := ReadResult(ws);
            && Load(r.minerId) == ws[0] && Load(r.taskId[..4]) == ws[1] && Load(r.taskId[4..]) == ws[2]
            && Load(r.ntime) == ws[3] && Load(r.nonce) == ws[4]
  {
    hide Load, Store;
    var r := ReadResult(ws);
    assert r.taskId[..4] == Store(ws[1]) && r.taskId[4..] == Store(ws[2]);
    LoadStore(ws[0]);
    LoadStore(ws[1]);
    LoadStore(ws[2]);
    LoadStore(ws[3]);
    LoadStore(ws[4]);
  }

  /** The ids a chip's result carries back select the nonce2 of the work they were sent with. */
  lemma ResultNamesWork(mw: MmWork, w: Work, ws: seq<word>)
    requires Filled(w) && |ws| == 5
    requires w.taskId == Store(mw.poolNo) + Store(w.nonce2)
    requires ws[1..3] == TaskWords(w)[..2]
    ensures ReadResult(ws).Nonce2() == w.nonce2 && ReadResult(ws).Nonce() == ws[4] - 0x1000
  {
    hide Load, Store, Down;
    LoadStore(mw.poolNo);
    LoadStore(w.nonce2);
    LoadStore(ws[4]);
    assert w.taskId[..4] == Store(mw.poolNo) && w.taskId[4..] == Store(w.nonce2);
    assert ws[2] == ws[1..3][1] == TaskWords(w)[..2][1] == TaskWords(w)[1] == ConfigWords(w)[1];
    assert ReadResult(ws).taskId[4..] == Store(ws[2]);
  }

  // Into the engine.

  /** The words written as the engine sees them. */
  function Numbers(ws: seq<word>): (ns: seq<nat>)
    ensures |ns| == |ws|
  {
    seq(|ws|, i requires 0 <= i < |ws| => ws[i] as nat)
  }

  function AllWords(works: seq<seq<word>>): seq<word> {
    var n := |works|;
    if n == 0 then [] else AllWords(works[..n - 1]) + works[n - 1]
  }

  function AllNumbers(works: seq<seq<word>>): (ns: seq<seq<nat>>)
    ensures |ns| == |works|
  {
    seq(|works|, i requires 0 <= i < |works| => Numbers(works[i]))
  }

  lemma {:induction false} NumbersOfWorks(works: seq<seq<word>>)
    ensures Numbers(AllWords(works)) == AlinkTasks.Concat(AllNumbers(works))
  {
    var n := |works|;
    if n > 0 {
      NumbersOfWorks(works[..n - 1]);
      assert AllNumbers(works)[..n - 1] == AllNumbers(works[..n - 1]);
      NumbersAppend(AllWords(works[..n - 1]), works[n - 1]);
    }
  }

  lemma NumbersAppend(a: seq<word>, b: seq<word>)
    ensures Numbers(a + b) == Numbers(a) + Numbers(b)
  {}

  /** If what has been written to the engine begins the words alink_send_work has sent, works of 23 words each, then the
      k-th task it completes is the k-th work, also while a work is still being written. */
  lemma WorksAreSent(s: Alink.Sys, h: AlinkTasks.Hist, works: seq<seq<word>>, k: nat)
    requires AlinkTasks.Good(s, h) && k < |h.tasks| && h.written <= Numbers(AllWords(works))
    requires forall j :: 0 <= j < |works| ==> |works[j]| == 23
    ensures k < |works| && h.tasks[k] == Numbers(works[k])
  {
    NumbersOfWorks(works);
    hide AlinkTasks.Good, Numbers;
    AlinkTasks.TasksAreWorks(s, h, AllNumbers(works), k);
  }

  lemma FirmwareStepWord()
    ensures Load([0x19, 0x99, 0x99, 0x9a]) as nat == 0x1999999a
  {
    LoadValue(0x19, 0x99, 0x99, 0x9a);
  }

  /** A task that ends brings its PHY, behind the nineteen data words of its work, exactly ten numbers: the multiples of
      the step that InitWork has stored, one for each chip. */
  lemma WorkOnLine(s: Alink.Sys, i: Alink.In, h: AlinkTasks.Hist, works: seq<seq<word>>, w: Work) returns (numbers: seq<nat>)
    requires AlinkTasks.Good(s, h) && Alink.Sized(s) && Alink.Fits(i) && AlinkTasks.Room(s, i) && !Alink.Reset(i) && P.Done(s.phy)
    requires h.written <= Numbers(AllWords(works)) && forall j :: 0 <= j < |works| ==> |works[j]| == 23
    requires |h.tasks| < |works| && Filled(w) && w.step == [0x19, 0x99, 0x99, 0x9a] && works[|h.tasks|] == TaskWords(w)
    ensures |numbers| == 10 && (h.trace.plain ==> numbers == P.Multiples(0x1999999a, 10))
    ensures AlinkTasks.Record(s, i, h).trace.samples == LineCode.Wave(LineCode.AllBits(Numbers(TaskWords(w)[4..]) + numbers))
  {
    hide AlinkTasks.Good, AlinkTasks.Record, TaskWords, LineCode.Wave, LineCode.AllBits, P.Multiples, P.Done, Load;
    var task;
    task, numbers := AlinkTasks.TaskEnds(s, i, h);
    NextWork(works, h.written, |h.tasks|, task);
    StepOf(w, task);
    FirmwareStepWord();
    P.FirmwareStep();
    TenNumbers(|numbers|);
    assert task[4..] == Numbers(TaskWords(w)[4..]);
  }

  lemma TenNumbers(n: nat)
    requires P.IsCeiling(n, 0x1999999a)
    ensures n == 10
  {}

  lemma StepOf(w: Work, task: seq<nat>)
    requires Filled(w) && task == Numbers(TaskWords(w))
    ensures task[2] == Load(w.step) as nat
  {
    hide Load, Down;
    Slices(ConfigWords(w), Down(w.data[..], 32, 3), TapWords(w), Down(w.data[..], 0, 8), Load(w.a2));
    assert TaskWords(w)[2] == TaskWords(w)[..6][2];
  }

  lemma NextWork(works: seq<seq<word>>, written: seq<nat>, n: nat, task: seq<nat>)
    requires n < |works| && (forall j :: 0 <= j < |works| ==> |works[j]| == 23) && written <= Numbers(AllWords(works))
    requires 23 * n + 23 <= |written| && task == written[23 * n..23 * n + 23]
    ensures task == Numbers(works[n])
  {
    NumbersOfWorks(works);
    AlinkTasks.ConcatAt(AllNumbers(works), n);
    assert task == Numbers(AllWords(works))[23 * n..23 * n + 23];
    hide Numbers, AllWords, AlinkTasks.Concat;
  }
}
