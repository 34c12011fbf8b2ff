/** tx_phy.v: pops a task from the FIFO and sends its data words and a nonce sequence over two lines. */
module TxPhy {
  import opened LineCode

  const TIMING := 14
  const TASKID_LEN := 4
  const DATA_LEN := 19
  const W33 := 0x2_0000_0000
  const ONES := 0xffff_ffff

  datatype State = Idle | Task | Hash | Nonce

  datatype TxPhy = TxPhy(state: State, rdCnt: nat, timing: nat, wordCnt: nat, hashPop: bool, flg: nat, buf: nat, step: nat,
                         overflow: bool, nonce: nat, scanCnt: nat, idVld: bool, sel: seq<bool>, idH: nat, idL: nat, tout: nat,
                         line: Level)

  // Groups of registers: tx_rd_en_cnt, timing_cnt and word_cnt; tx_buf, nonce_over_flow, nonce_buf and scan_cnt;
  // task_id_h, task_id_l, reg_step and reg_tout.

  datatype Counts = Counts(rd: nat, timing: nat, word: nat)

  datatype Data = Data(buf: nat, overflow: bool, nonce: nat, scan: nat)

  datatype Ids = Ids(h: nat, l: nat, step: nat, tout: nat)

  /** rst is the system reset or a flush. */
  datatype In = In(rst: bool, flush: bool, scan: bool, start: bool, phySel: seq<bool>, dout: nat)

  predicate Tick(s: TxPhy) { s.timing == TIMING }

  /** A symbol goes on the line and the buffer shifts. */
  predicate Shifts(s: TxPhy) { s.line == LOW && Tick(s) }

  predicate Sending(s: TxPhy) { s.state.Hash? || s.state.Nonce? }

  function NextState(s: TxPhy, start: bool): State {
    match s.state
    case Idle => if start then Task else Idle
    case Task => if s.rdCnt == TASKID_LEN - 1 then Hash else Task
    case Hash => if s.wordCnt == DATA_LEN - 1 && s.flg == 0 then Nonce else Hash
    case Nonce => if s.overflow && Tick(s) then Idle else Nonce
  }

  /** tx_rd_en */
  predicate Pops(s: TxPhy) { s.state.Task? || s.hashPop }

  /** tx_phy_done */
  predicate Done(s: TxPhy) { s.state.Nonce? && s.overflow && Tick(s) }

  /** What the nonce state sends; in scan mode all ones but for the word that carries the nonce to be found. */
  function NonceWord(s: TxPhy, scan: bool, plain: nat): nat {
    if !scan then plain else if s.idH % 256 == s.scanCnt then s.idL else ONES
  }

  function NextLine(s: TxPhy, i: In): Level {
    var nxt := NextState(s, i.start);
    if i.rst || (s.state.Nonce? && nxt.Idle?) || i.flush then HIGH
    else if s.state.Idle? && nxt.Task? then LOW
    else if Sending(s) && Shifts(s) then Sym(s.buf % 2 == 1)
    else if Sending(s) && Tick(s) then LOW
    else s.line
  }

  function NextPop(s: TxPhy, i: In): bool {
    var nxt := NextState(s, i.start);
    && !i.rst && !(s.state.Idle? && nxt.Task?) && !Shifts(s)
    && ((s.state.Task? && nxt.Hash?) || (s.state.Hash? && !nxt.Nonce? && s.flg == 0))
  }

  function NextFlg(s: TxPhy, i: In): nat {
    if i.rst || s.state.Idle? then ONES
    else if Shifts(s) then s.flg / 2
    else if Sending(s) && s.flg == 0 then ONES
    else s.flg
  }

  function NextData(s: TxPhy, i: In): Data {
    var nxt := NextState(s, i.start);
    if i.rst then Data(0, false, 0, 0)
    else if s.state.Idle? && nxt.Task? then Data(s.buf, false, 0, 0)
    else if Shifts(s) then Data(s.buf / 2, s.overflow, s.nonce, s.scanCnt)
    else if s.hashPop then Data(i.dout, s.overflow, s.nonce, s.scanCnt)
    else if s.state.Hash? && nxt.Nonce? then
      Data(NonceWord(s, i.scan, 0), s.overflow, (s.nonce + s.step) % W33, (s.scanCnt + if i.scan then 1 else 0) % 256)
    else if s.state.Nonce? && s.flg == 0 then
      Data(NonceWord(s, i.scan, s.nonce % W32), s.nonce > ONES, (s.nonce + s.step) % W33, (s.scanCnt + if i.scan then 1 else 0) % 256)
    else Data(s.buf, s.overflow, s.nonce, s.scanCnt)
  }

  function NextCounts(s: TxPhy, rst: bool): Counts {
    Counts(if rst || s.state.Idle? then 0 else if s.state.Task? then (s.rdCnt + 1) % 8 else s.rdCnt,
           if rst || Tick(s) || !Sending(s) then 0 else (s.timing + 1) % 16,
           if rst || s.state.Idle? then 0 else if s.state.Hash? && s.flg == 0 then (s.wordCnt + 1) % 32 else s.wordCnt)
  }

  function NextIds(s: TxPhy, dout: nat): Ids {
    Ids(if s.state.Task? && s.rdCnt == 0 then dout else s.idH,
        if s.state.Task? && s.rdCnt == 1 then dout else s.idL,
        if s.state.Task? && s.rdCnt == 2 then dout else s.step,
        if s.state.Task? && s.rdCnt == 3 then dout else s.tout)
  }

  /** One clock edge. */
  function Next(s: TxPhy, i: In): TxPhy {
    var nxt := NextState(s, i.start);
    var Counts(rdCnt, timing, wordCnt) := NextCounts(s, i.rst);
    var Data(buf, overflow, nonce, scanCnt) := NextData(s, i);
    var Ids(idH, idL, step, tout) := NextIds(s, i.dout);
    TxPhy(if i.rst then Idle else nxt, rdCnt, timing, wordCnt, NextPop(s, i), NextFlg(s, i), buf, step, overflow, nonce, scanCnt,
          !i.rst && s.state.Task? && nxt.Hash?, if s.state.Idle? && nxt.Task? then i.phySel else s.sel, idH, idL, tout,
          NextLine(s, i))
  }

  /** TX_P[k] and TX_N[k] */
  function Wire(s: TxPhy, k: nat): Level
    requires k < |s.sel|
  {
    if s.sel[k] then s.line else HIGH
  }

  // The history of the task being sent.

  /** The words popped, the words put into tx_buf, the bits put on the line, the level of every cycle, and how many bits
      of the word in tx_buf are still to be sent; plain and scanned: reg_scan has been low, or high, all the time. */
  datatype Trace = Trace(popped: seq<nat>, loaded: seq<nat>, bits: seq<bool>, samples: seq<Level>, left: nat, plain: bool, scanned: bool)

  const FRESH := Trace([], [], [], [], 32, true, true)

  function Observe(t: Trace, s: TxPhy, i: In): Trace {
    if i.rst || s.state.Idle? then FRESH
    else
      Trace(
        if Pops(s) then t.popped + [i.dout] else t.popped,
        if Shifts(s) then t.loaded
        else if s.hashPop || (s.state.Hash? && NextState(s, i.start).Nonce?) || (s.state.Nonce? && s.flg == 0)
        then t.loaded + [NextData(s, i).buf]
        else t.loaded,
        if Sending(s) && Shifts(s) then t.bits + [s.buf % 2 == 1] else t.bits,
        t.samples + [s.line],
        if Shifts(s) then (if t.left > 0 then t.left - 1 else 0)
        else if Sending(s) && t.left == 0 then 32
        else t.left,
        t.plain && !i.scan, t.scanned && i.scan)
  }

  /** r ones. */
  function Ones(r: nat): nat {
    if r == 0 then 0 else 2 * Ones(r - 1) + 1
  }

  lemma OnesFacts(r: nat)
    ensures (Ones(r) == 0) == (r == 0)
    ensures r > 0 ==> Ones(r) / 2 == Ones(r - 1)
  {}

  lemma AllOnes()
    ensures Ones(32) == ONES
  {
    assert Ones(8) == 0xff;
    assert Ones(16) == 0xffff by {
      assert Ones(12) == 0xfff;
    }
    assert Ones(24) == 0xff_ffff by {
      assert Ones(20) == 0xf_ffff;
    }
    assert Ones(28) == 0xfff_ffff;
  }

  // Control: where the sender stands within a task.

  ghost predicate Shape(s: TxPhy, t: Trace) {
    && s.flg == Ones(t.left) && s.timing <= TIMING
    && match s.state
       case Idle => s.line == HIGH && !s.hashPop && !s.idVld && s.timing == 0
       case Task => ShapeTask(s, t)
       case Hash => ShapeHash(s, t)
       case Nonce => ShapeNonce(s, t)
  }

  ghost predicate ShapeTask(s: TxPhy, t: Trace) {
    && s.rdCnt < TASKID_LEN && s.timing == 0 && s.wordCnt == 0 && s.line == LOW && !s.hashPop && !s.overflow && s.nonce == 0 && s.scanCnt == 0
    && !s.idVld && t.left == 32 && t.loaded == [] && t.bits == []
  }

  ghost predicate ShapeHash(s: TxPhy, t: Trace) {
    && s.rdCnt == TASKID_LEN && !s.overflow && s.nonce == 0 && s.scanCnt == 0 && s.line != HIGH && t.left <= 32
    && s.idVld == (s.hashPop && |t.loaded| == 0)
    && if s.hashPop then
         && t.left == 32 && |t.loaded| < DATA_LEN && s.wordCnt == |t.loaded| && |t.bits| == 32 * |t.loaded|
         && (if |t.loaded| == 0 then s.line == LOW && s.timing == 0 else s.line != LOW && s.timing == 1)
       else
         && 1 <= |t.loaded| <= DATA_LEN && s.wordCnt == |t.loaded| - 1 && |t.bits| == 32 * |t.loaded| - t.left
         && (t.left == 0 ==> s.line != LOW && s.timing == 0)
  }

  ghost predicate ShapeNonce(s: TxPhy, t: Trace) {
    && s.rdCnt == TASKID_LEN && s.wordCnt == DATA_LEN && !s.hashPop && !s.idVld && s.line != HIGH && t.left <= 32
    && |t.loaded| > DATA_LEN && |t.bits| == 32 * |t.loaded| - t.left
    && (t.left == 0 ==> s.line != LOW && s.timing == 0 && !s.overflow)
    && (s.overflow ==> t.left == 32 && s.line != LOW && s.timing > 0)
  }

  /** The wiring: a flush also resets. */
  predicate Wired(i: In) { i.flush ==> i.rst }

  lemma ShapeKeeps(s: TxPhy, t: Trace, i: In)
    requires Shape(s, t) && Wired(i)
    ensures Shape(Next(s, i), Observe(t, s, i))
  {
    if i.rst {
      ShapeReset(s, t, i);
    } else {
      hide ShapeTask, ShapeHash, ShapeNonce, Next, Observe, Ones;
      match s.state {
        case Idle => FromIdle(s, t, i);
        case Task => FromTask(s, t, i);
        case Hash => FromHash(s, t, i);
        case Nonce => FromNonce(s, t, i);
      }
    }
  }

  lemma ShapeReset(s: TxPhy, t: Trace, i: In)
    requires i.rst
    ensures Shape(Next(s, i), Observe(t, s, i))
  {
    AllOnes();
    hide Ones;
  }

  lemma FromIdle(s: TxPhy, t: Trace, i: In)
    requires Shape(s, t) && s.state.Idle? && !i.rst && !i.flush
    ensures Shape(Next(s, i), Observe(t, s, i))
  {
    AllOnes();
    hide Ones;
  }

  lemma FromTask(s: TxPhy, t: Trace, i: In)
    requires Shape(s, t) && s.state.Task? && !i.rst && !i.flush
    ensures Shape(Next(s, i), Observe(t, s, i))
  {
    hide Ones;
    OnesFacts(t.left);
  }

  lemma FromHash(s: TxPhy, t: Trace, i: In)
    requires Shape(s, t) && s.state.Hash? && !i.rst && !i.flush
    ensures Shape(Next(s, i), Observe(t, s, i))
  {
    hide Ones;
    OnesFacts(t.left);
    AllOnes();
  }

  lemma FromNonce(s: TxPhy, t: Trace, i: In)
    requires Shape(s, t) && s.state.Nonce? && !i.rst && !i.flush
    ensures Shape(Next(s, i), Observe(t, s, i))
  {
    hide Ones;
    OnesFacts(t.left);
    AllOnes();
  }

  // Data: what has been popped, loaded and sent.

  /** The bits sent and those left in the buffer are the bits of all words loaded. */
  ghost predicate Stream(s: TxPhy, t: Trace) {
    Sending(s) ==> t.bits + (if s.hashPop then [] else BitsLow(s.buf, t.left)) == AllBits(t.loaded)
  }

  lemma StreamKeeps(s: TxPhy, t: Trace, i: In)
    requires Shape(s, t) && Stream(s, t) && Wired(i)
    ensures Stream(Next(s, i), Observe(t, s, i))
  {
    if !i.rst {
      if Sending(s) && Shifts(s) {
        StreamShift(s, t, i);
      } else {
        StreamLoad(s, t, i);
      }
    }
  }

  lemma StreamShift(s: TxPhy, t: Trace, i: In)
    requires Shape(s, t) && Stream(s, t) && !i.rst && Sending(s) && Shifts(s)
    ensures Stream(Next(s, i), Observe(t, s, i))
  {
    hide Ones, AllBits;
    assert t.left > 0 && !s.hashPop;
    assert t.bits + ([s.buf % 2 == 1] + BitsLow(s.buf / 2, t.left - 1)) == (t.bits + [s.buf % 2 == 1]) + BitsLow(s.buf / 2, t.left - 1);
  }

  lemma StreamLoad(s: TxPhy, t: Trace, i: In)
    requires Shape(s, t) && Stream(s, t) && !i.rst && !i.flush && !(Sending(s) && Shifts(s))
    ensures Stream(Next(s, i), Observe(t, s, i))
  {
    OnesFacts(t.left);
    hide Ones, AllBits, BitsLow;
    Nothing(s.buf);
    var u, v := Next(s, i), Observe(t, s, i);
    if v.loaded != t.loaded && !s.state.Idle? {
      AllBitsAppend(t.loaded, u.buf);
      assert t.bits + [] == t.bits;
    }
  }

  /** Registers and loaded words against the words popped: first the two task ids, the step and the timeout, then the data. */
  ghost predicate Source(s: TxPhy, t: Trace) {
    match s.state
    case Idle => true
    case Task => |t.popped| == s.rdCnt <= TASKID_LEN && Head(s, t.popped)
    case Hash => t.popped == [s.idH, s.idL, s.step, s.tout] + t.loaded
    case Nonce => |t.loaded| > DATA_LEN && t.popped == [s.idH, s.idL, s.step, s.tout] + t.loaded[..DATA_LEN]
  }

  predicate Head(s: TxPhy, popped: seq<nat>) {
    var n := |popped|;
    && (n > 0 ==> popped[0] == s.idH) && (n > 1 ==> popped[1] == s.idL)
    && (n > 2 ==> popped[2] == s.step) && (n > 3 ==> popped[3] == s.tout)
  }

  lemma SourceKeeps(s: TxPhy, t: Trace, i: In)
    requires Shape(s, t) && Source(s, t) && Wired(i)
    ensures Source(Next(s, i), Observe(t, s, i))
  {
    hide Ones;
    OnesFacts(t.left);
  }

  // The nonce sequence.

  /** 0, step, 2 * step, ... */
  function Multiples(step: nat, m: nat): (ws: seq<nat>)
    ensures |ws| == m
  {
    if m == 0 then [] else Multiples(step, m - 1) + [(m - 1) * step % W32]
  }

  /** What scan mode sends instead: all ones, but for the word whose number, modulo 256, is the low byte of the first
      task id; that is the second task id. */
  function ScanWords(idH: nat, idL: nat, m: nat): (ws: seq<nat>)
    ensures |ws| == m
  {
    if m == 0 then [] else ScanWords(idH, idL, m - 1) + [if idH % 256 == (m - 1) % 256 then idL else ONES]
  }

  /** With m numbers loaded, m * step is next; all are below 2^32, unless the overflow flag stands, when the last is not. */
  ghost predicate Counting(s: TxPhy, t: Trace) {
    && s.step < W32
    && (s.state.Nonce? && |t.loaded| > DATA_LEN ==> Numbers(s, t, |t.loaded| - DATA_LEN))
  }

  ghost predicate Numbers(s: TxPhy, t: Trace, m: nat)
    requires |t.loaded| == DATA_LEN + m && m > 0
  {
    && (!s.overflow ==> s.nonce == m * s.step && (m - 1) * s.step < W32)
    && (s.overflow ==> m >= 2 && (m - 1) * s.step >= W32 && (m - 2) * s.step < W32)
    && (t.plain ==> t.loaded[DATA_LEN..] == Multiples(s.step, m))
    && Scanning(s, t, m)
  }

  ghost predicate Scanning(s: TxPhy, t: Trace, m: nat)
    requires |t.loaded| == DATA_LEN + m
  {
    t.scanned ==> t.loaded[DATA_LEN..] == ScanWords(s.idH, s.idL, m) && s.scanCnt == m % 256
  }

  predicate LoadsNonce(s: TxPhy, start: bool) {
    (s.state.Hash? && NextState(s, start).Nonce?) || (s.state.Nonce? && s.flg == 0)
  }

  lemma CountingKeeps(s: TxPhy, t: Trace, i: In)
    requires Shape(s, t) && Counting(s, t) && Wired(i) && i.dout < W32
    ensures Counting(Next(s, i), Observe(t, s, i))
  {
    if !i.rst && LoadsNonce(s, i.start) {
      Loads(s, t, i);
      if s.state.Hash? {
        FirstNumber(Next(s, i), Observe(t, s, i));
      } else {
        NextNumber(s, t, i.scan, Next(s, i), Observe(t, s, i));
      }
    } else {
      NoLoad(s, t, i);
    }
  }

  lemma Loads(s: TxPhy, t: Trace, i: In)
    requires Shape(s, t) && LoadsNonce(s, i.start) && !i.rst && !i.flush
    ensures var u, v := Next(s, i), Observe(t, s, i);
            && u.state.Nonce? && u.step == s.step && u.nonce == (s.nonce + s.step) % W33 && v.plain == (t.plain && !i.scan)
            && u.idH == s.idH && u.idL == s.idL && v.scanned == (t.scanned && i.scan) && (s.state.Hash? && t.scanned ==> s.scanCnt == 0)
            && (i.scan ==> u.scanCnt == (s.scanCnt + 1) % 256)
            && u.overflow == (s.state.Nonce? && s.nonce > ONES) && (s.state.Hash? ==> s.nonce == 0 && |t.loaded| == DATA_LEN)
            && v.loaded == t.loaded + [NonceWord(s, i.scan, s.nonce % W32)] && (s.state.Nonce? ==> !s.overflow)
  {
    hide Ones, NonceWord;
    OnesFacts(t.left);
  }

  lemma FirstNumber(u: TxPhy, v: Trace)
    requires u.step < W32 && |v.loaded| == DATA_LEN + 1 && !u.overflow && u.nonce == u.step % W33
    requires v.plain ==> v.loaded[DATA_LEN] == 0
    requires v.scanned ==> v.loaded[DATA_LEN] == (if u.idH % 256 == 0 then u.idL else ONES) && u.scanCnt == 1
    ensures Counting(u, v)
  {
    assert Multiples(u.step, 1) == Multiples(u.step, 0) + [0 * u.step % W32] == [0];
    assert ScanWords(u.idH, u.idL, 1) == ScanWords(u.idH, u.idL, 0) + [if u.idH % 256 == 0 then u.idL else ONES];
    assert 1 * u.step == u.step && 0 * u.step == 0;
  }

  lemma NextNumber(s: TxPhy, t: Trace, scan: bool, u: TxPhy, v: Trace)
    requires Counting(s, t) && s.state.Nonce? && |t.loaded| > DATA_LEN && !s.overflow
    requires u.state.Nonce? && u.step == s.step && u.nonce == (s.nonce + s.step) % W33 && u.overflow == (s.nonce > ONES)
    requires v.plain == (t.plain && !scan) && v.loaded == t.loaded + [NonceWord(s, scan, s.nonce % W32)]
    requires u.idH == s.idH && u.idL == s.idL && v.scanned == (t.scanned && scan) && (scan ==> u.scanCnt == (s.scanCnt + 1) % 256)
    ensures Counting(u, v)
  {
    var m := |t.loaded| - DATA_LEN;
    Product(m, s.step);
    assert Numbers(s, t, m);
    NextScanned(s, t, scan, u, v, m);
    assert v.loaded[DATA_LEN..] == t.loaded[DATA_LEN..] + [NonceWord(s, scan, s.nonce % W32)];
    hide Scanning;
  }

  lemma NextScanned(s: TxPhy, t: Trace, scan: bool, u: TxPhy, v: Trace, m: nat)
    requires |t.loaded| == DATA_LEN + m && v.loaded == t.loaded + [NonceWord(s, scan, s.nonce % W32)] && Scanning(s, t, m)
    requires u.idH == s.idH && u.idL == s.idL && v.scanned == (t.scanned && scan) && (scan ==> u.scanCnt == (s.scanCnt + 1) % 256)
    ensures Scanning(u, v, m + 1)
  {
    assert v.loaded[DATA_LEN..] == t.loaded[DATA_LEN..] + [NonceWord(s, scan, s.nonce % W32)];
    NextMod(m);
  }

  lemma NextMod(m: nat)
    ensures (m % 256 + 1) % 256 == (m + 1) % 256
  {}

  lemma Product(m: nat, step: nat)
    ensures (m + 1) * step == m * step + step && (m > 0 ==> m * step == (m - 1) * step + step)
  {}

  lemma NoLoad(s: TxPhy, t: Trace, i: In)
    requires Shape(s, t) && Counting(s, t) && Wired(i) && i.dout < W32 && (i.rst || !LoadsNonce(s, i.start))
    ensures Counting(Next(s, i), Observe(t, s, i))
  {
    hide Ones, Multiples, ScanWords;
    OnesFacts(t.left);
  }

  // The line.

  /** How long the current level has been held before this cycle. */
  ghost predicate OnLine(s: TxPhy, t: Trace) {
    match s.state
    case Idle => true
    case Task => t.samples == Hold(LOW, s.rdCnt)
    case _ =>
      var n := |t.bits|;
      if s.line == LOW then t.samples == Wave(t.bits) + Hold(LOW, s.timing + if n == 0 then 4 else 0)
      else n > 0 && s.line == Sym(t.bits[n - 1])
           && t.samples == Wave(t.bits[..n - 1]) + Hold(LOW, Gap(n)) + Hold(s.line, s.timing)
  }

  lemma OnLineKeeps(s: TxPhy, t: Trace, i: In)
    requires Shape(s, t) && OnLine(s, t) && Wired(i)
    ensures OnLine(Next(s, i), Observe(t, s, i))
  {
    if !i.rst && Sending(s) {
      Levels(s, t, i);
      hide Shape, Next, Observe;
      HoldMore(s, t, Next(s, i), Observe(t, s, i));
    } else {
      hide Ones, Wave;
      assert Hold(LOW, s.rdCnt) + [LOW] == Hold(LOW, s.rdCnt + 1);
      assert Hold(LOW, 0) == [];
      assert Wave([]) + Hold(LOW, 4) == Hold(LOW, 4) by { NoWave(); }
    }
  }

  /** What happens to the line in one cycle of sending. */
  lemma Levels(s: TxPhy, t: Trace, i: In)
    requires Shape(s, t) && Sending(s) && !i.rst && !i.flush
    ensures var u, v := Next(s, i), Observe(t, s, i);
            && v.samples == t.samples + [s.line] && s.timing <= TIMING && (u.state.Idle? || Sending(u))
            && if Tick(s) then
                 && u.timing == 0
                 && if s.line == LOW then v.bits == t.bits + [s.buf % 2 == 1] && u.line == Sym(s.buf % 2 == 1) && Sending(u)
                    else v.bits == t.bits && (u.line == LOW || u.state.Idle?)
               else v.bits == t.bits && u.line == s.line && u.timing == s.timing + 1
  {
    hide Ones;
    OnesFacts(t.left);
  }

  lemma HoldMore(s: TxPhy, t: Trace, u: TxPhy, v: Trace)
    requires OnLine(s, t) && Sending(s) && s.timing <= TIMING && (u.state.Idle? || Sending(u))
    requires v.samples == t.samples + [s.line]
    requires if Tick(s) then
               && u.timing == 0
               && if s.line == LOW then v.bits == t.bits + [s.buf % 2 == 1] && u.line == Sym(s.buf % 2 == 1)
                  else v.bits == t.bits && (u.line == LOW || u.state.Idle?)
             else v.bits == t.bits && u.line == s.line && u.timing == s.timing + 1
    ensures OnLine(u, v)
  {
    hide Wave, Gap, Hold;
    var n := |t.bits|;
    var k := s.timing + if s.line == LOW && n == 0 then 4 else 0;
    OneMore(s.line, k);
    HoldNone(LOW);
    HoldNone(Sym(s.buf % 2 == 1));
    if Tick(s) && s.line == LOW {
      GapIs(n);
      assert v.bits[..n] == t.bits;
      assert v.samples == Wave(t.bits) + (Hold(LOW, k) + [LOW]);
    } else if Tick(s) {
      WaveGrows(t.bits);
      assert v.samples == Wave(t.bits[..n - 1]) + Hold(LOW, Gap(n)) + (Hold(s.line, k) + [s.line]);
    } else if s.line == LOW {
      assert v.samples == Wave(t.bits) + (Hold(LOW, k) + [LOW]);
    } else {
      assert v.samples == Wave(t.bits[..n - 1]) + Hold(LOW, Gap(n)) + (Hold(s.line, k) + [s.line]);
    }
  }

  lemma HoldNone(l: Level)
    ensures Hold(l, 0) == []
  {}

  // The whole task.

  /** What every run keeps. */
  ghost predicate Inv(s: TxPhy, t: Trace) {
    Shape(s, t) && Stream(s, t) && Source(s, t) && Counting(s, t) && OnLine(s, t)
  }

  lemma InvKeeps(s: TxPhy, t: Trace, i: In)
    requires Inv(s, t) && Wired(i) && i.dout < W32
    ensures Inv(Next(s, i), Observe(t, s, i))
  {
    hide Shape, Stream, Source, Counting, OnLine, Next, Observe;
    ShapeKeeps(s, t, i);
    StreamKeeps(s, t, i);
    SourceKeeps(s, t, i);
    CountingKeeps(s, t, i);
    OnLineKeeps(s, t, i);
  }

  /** n is 2^32 / step rounded up. */
  predicate IsCeiling(n: nat, step: nat) { (n - 1) * step < W32 <= n * step && n >= 1 }

  /** When a task ends, its 23 words have been popped; its nineteen data words and after them the multiples of its step
      below 2^32, all of them, have been sent, lowest bit first, each bit as 00 and a symbol of fifteen cycles each. */
  lemma TaskSent(s: TxPhy, t: Trace, i: In) returns (data: seq<nat>, numbers: seq<nat>)
    requires Inv(s, t) && !i.rst && !i.flush && Done(s)
    ensures Next(s, i).state.Idle? && Next(s, i).line == HIGH
    ensures t.popped == [s.idH, s.idL, s.step, s.tout] + data && |data| == DATA_LEN
    ensures IsCeiling(|numbers|, s.step) && (t.plain ==> numbers == Multiples(s.step, |numbers|))
    ensures t.scanned ==> numbers == ScanWords(s.idH, s.idL, |numbers|)
    ensures Observe(t, s, i).bits == AllBits(data + numbers)
    ensures Observe(t, s, i).samples == Wave(AllBits(data + numbers))
  {
    hide Shape, Stream, Source, Counting, OnLine, AllBits, Next, Observe, Wave, Multiples, ScanWords, IsCeiling;
    EndSource(s, t);
    var m := |t.loaded| - DATA_LEN;
    data, numbers := Parts(t, m);
    LastOverflows(s, t, m);
    EndBits(s, t, data + numbers, t.loaded[|t.loaded| - 1]);
    EndLine(s, t, i);
  }

  lemma EndSource(s: TxPhy, t: Trace)
    requires Source(s, t) && s.state.Nonce?
    ensures |t.loaded| > DATA_LEN && t.popped == [s.idH, s.idL, s.step, s.tout] + t.loaded[..DATA_LEN]
  {}

  lemma Parts(t: Trace, m: nat) returns (data: seq<nat>, numbers: seq<nat>)
    requires |t.loaded| == DATA_LEN + m && m > 0
    ensures data == t.loaded[..DATA_LEN] && numbers == t.loaded[DATA_LEN..][..m - 1]
    ensures t.loaded == data + numbers + [t.loaded[|t.loaded| - 1]]
  {
    data, numbers := t.loaded[..DATA_LEN], t.loaded[DATA_LEN..][..m - 1];
  }

  lemma LastOverflows(s: TxPhy, t: Trace, m: nat)
    requires Counting(s, t) && s.state.Nonce? && s.overflow && |t.loaded| == DATA_LEN + m && m > 0
    ensures IsCeiling(m - 1, s.step) && (t.plain ==> t.loaded[DATA_LEN..][..m - 1] == Multiples(s.step, m - 1))
    ensures t.scanned ==> t.loaded[DATA_LEN..][..m - 1] == ScanWords(s.idH, s.idL, m - 1)
  {
    assert Numbers(s, t, m);
    assert Multiples(s.step, m)[..m - 1] == Multiples(s.step, m - 1);
    assert ScanWords(s.idH, s.idL, m)[..m - 1] == ScanWords(s.idH, s.idL, m - 1);
  }

  lemma EndBits(s: TxPhy, t: Trace, ws: seq<nat>, w: nat)
    requires Shape(s, t) && Stream(s, t) && Done(s) && t.loaded == ws + [w]
    ensures t.bits == AllBits(ws)
  {
    hide Ones, AllBits, BitsLow;
    AllBitsAppend(ws, w);
    assert t.left == 32 && |t.bits| == 32 * |ws|;
    assert t.bits == (t.bits + BitsLow(s.buf, 32))[..32 * |ws|];
    assert AllBits(ws) == (AllBits(ws) + BitsLow(w, 32))[..32 * |ws|];
  }

  lemma EndLine(s: TxPhy, t: Trace, i: In)
    requires Shape(s, t) && OnLine(s, t) && Done(s) && !i.rst && !i.flush
    ensures Next(s, i).state.Idle? && Next(s, i).line == HIGH
    ensures Observe(t, s, i).bits == t.bits && Observe(t, s, i).samples == Wave(t.bits)
  {
    hide Ones, Wave;
    WaveGrows(t.bits);
    OneMore(s.line, 14);
  }

  // How long a task takes.

  /** Cycles outside Idle of a task with n numbers: four to read it, then thirty a bit. */
  function Duration(n: nat): nat { 4 + 960 * (DATA_LEN + n) }

  lemma CeilingUnique(n: nat, m: nat, step: nat)
    requires IsCeiling(n, step) && m * step < W32
    ensures m < n
  {
    if m >= n {
      assert m * step >= n * step by { Grows(n, m, step); }
    }
  }

  lemma Grows(n: nat, m: nat, step: nat)
    requires n <= m
    ensures n * step <= m * step
  {}

  /** How many numbers have been loaded, at most. */
  lemma NumbersBound(s: TxPhy, t: Trace, n: nat)
    requires Shape(s, t) && Counting(s, t) && s.state.Nonce? && IsCeiling(n, s.step)
    ensures var m := |t.loaded| - DATA_LEN; if s.overflow then m == n + 1 else m <= n
  {
    var m := |t.loaded| - DATA_LEN;
    assert Numbers(s, t, m);
    if s.overflow {
      CeilingUnique(n, m - 2, s.step);
      if m - 1 < n {
        Grows(m - 1, n - 1, s.step);
      }
    } else {
      CeilingUnique(n, m - 1, s.step);
    }
  }

  lemma SamplesSoFar(s: TxPhy, t: Trace)
    requires OnLine(s, t) && Sending(s)
    ensures var b := |t.bits|;
            if s.line == LOW then |t.samples| == 30 * b + 4 + s.timing
            else b > 0 && |t.samples| == 30 * b - 11 + s.timing
  {
    var n := |t.bits|;
    if s.line == LOW {
      WaveLength(t.bits);
    } else {
      WaveLength(t.bits[..n - 1]);
    }
    hide Wave;
  }

  /** A cycle of sending is one of Duration many, and the last of them ends the task. */
  lemma OneCycle(s: TxPhy, t: Trace, i: In, n: nat)
    requires Inv(s, t) && Sending(s) && !i.rst && !i.flush && IsCeiling(n, s.step)
    ensures |t.samples| < Duration(n) && |Observe(t, s, i).samples| == |t.samples| + 1
    ensures Next(s, i).step == s.step
    ensures if |t.samples| + 1 == Duration(n) then Next(s, i).state.Idle? else Sending(Next(s, i))
  {
    SamplesSoFar(s, t);
    if s.state.Nonce? {
      NumbersBound(s, t, n);
    }
    hide Stream, Source, Counting, OnLine, Ones, IsCeiling;
  }

  function Run(s: TxPhy, ins: seq<In>): TxPhy
    decreases |ins|
  {
    if |ins| == 0 then s else Run(Next(s, ins[0]), ins[1..])
  }

  predicate Undisturbed(ins: seq<In>) {
    forall k :: 0 <= k < |ins| ==> !ins[k].rst && !ins[k].flush && ins[k].dout < W32
  }

  /** Undisturbed, a task whose step has n as its ceiling is over after exactly Duration(n) cycles, and not before. */
  lemma {:induction false} TakesExactly(s: TxPhy, t: Trace, ins: seq<In>, n: nat)
    requires Inv(s, t) && Sending(s) && IsCeiling(n, s.step) && Undisturbed(ins) && |ins| == Duration(n) - |t.samples| > 0
    ensures Run(s, ins).state.Idle?
    ensures forall k :: 0 <= k < |ins| ==> Sending(Run(s, ins[..k]))
    decreases |ins|
  {
    hide Inv, IsCeiling, Next, Observe, Sending;
    var i := ins[0];
    var u, v := Next(s, i), Observe(t, s, i);
    OneCycle(s, t, i, n);
    InvKeeps(s, t, i);
    if |ins| > 1 {
      TakesExactly(u, v, ins[1..], n);
    }
    forall k | 0 <= k < |ins|
      ensures Sending(Run(s, ins[..k]))
    {
      if k > 0 {
        assert ins[..k][1..] == ins[1..][..k - 1];
      }
    }
  }

  /** Every step above zero has a ceiling, of at most 2^32, so a task with such a step ends. */
  lemma CeilingExists(step: nat)
    requires step > 0
    ensures IsCeiling((W32 + step - 1) / step, step) && (W32 + step - 1) / step <= W32
  {
    var n := (W32 + step - 1) / step;
    var r := (W32 + step - 1) % step;
    assert n * step == W32 + step - 1 - r;
    assert (n - 1) * step == n * step - step;
  }

  /** With a step of zero the nonce state is never left. */
  lemma {:induction false} NeverEnds(s: TxPhy, t: Trace, ins: seq<In>)
    requires Inv(s, t) && Sending(s) && s.step == 0 && Undisturbed(ins)
    ensures Sending(Run(s, ins))
    decreases |ins|
  {
    if |ins| > 0 {
      StaysSending(s, t, ins[0]);
      InvKeeps(s, t, ins[0]);
      hide Inv, Next, Observe, Sending;
      NeverEnds(Next(s, ins[0]), Observe(t, s, ins[0]), ins[1..]);
    }
  }

  lemma StaysSending(s: TxPhy, t: Trace, i: In)
    requires Inv(s, t) && Sending(s) && s.step == 0 && !i.rst && !i.flush
    ensures Sending(Next(s, i)) && Next(s, i).step == 0
  {
    if s.state.Nonce? {
      assert Numbers(s, t, |t.loaded| - DATA_LEN);
    }
    hide Stream, Source, OnLine, Ones;
  }

  // Sharing the nonces between the chips of a PHY.

  /** The step for n chips. */
  function StepFor(n: nat): nat
    requires n > 0
  {
    W32 / n + 1
  }

  lemma StepForCeiling(n: nat)
    requires 2 <= n <= 65536
    ensures IsCeiling(n, StepFor(n))
  {
    var q := W32 / n;
    Quotient(n, q);
    assert (n - 1) * (q + 1) == n * q + n - q - 1;
    assert n * (q + 1) == n * q + n;
  }

  lemma Quotient(n: nat, q: nat)
    requires 2 <= n <= 65536 && q == W32 / n
    ensures n * q <= W32 < n * q + n && q >= 65536
  {
    assert W32 == n * q + W32 % n;
    if q < 65536 {
      Grows(q + 1, 65536, n);
    }
  }

  /** The k-th chip searches from k * step up to the next number, the last up to 2^32. */
  predicate InRange(v: nat, k: nat, step: nat) { k * step <= v < (k + 1) * step && v < W32 }

  lemma StepPositive(n: nat)
    requires n > 0
    ensures StepFor(n) > 0
  {}

  lemma InItsRange(v: nat, k: nat, step: nat)
    requires step > 0 && v < W32 && k == v / step
    ensures InRange(v, k, step)
  {
    assert v == step * k + v % step;
    Commute(step, k);
    Product(k, step);
  }

  lemma Commute(a: nat, b: nat)
    ensures a * b == b * a
  {}

  lemma BeforeCeiling(n: nat, k: nat, step: nat, v: nat)
    requires IsCeiling(n, step) && InRange(v, k, step)
    ensures k < n
  {
    hide IsCeiling;
    CeilingUnique(n, k, step);
  }

  lemma OneRange(v: nat, j: nat, k: nat, step: nat)
    requires InRange(v, j, step) && InRange(v, k, step)
    ensures j == k
  {
    if j < k {
      Grows(j + 1, k, step);
    } else if k < j {
      Grows(k + 1, j, step);
    }
  }

  /** Then n numbers are sent, and every nonce is in the range of exactly one of them. */
  lemma RangesPartition(n: nat, v: nat) returns (k: nat)
    requires 2 <= n <= 65536 && v < W32
    ensures k < n && InRange(v, k, StepFor(n))
    ensures forall j: nat :: InRange(v, j, StepFor(n)) ==> j == k
  {
    var step := StepFor(n);
    StepForCeiling(n);
    StepPositive(n);
    hide StepFor, IsCeiling, InRange;
    k := v / step;
    InItsRange(v, k, step);
    BeforeCeiling(n, k, step, v);
    forall j: nat | InRange(v, j, step)
      ensures j == k
    {
      OneRange(v, j, k, step);
    }
  }

  /** The firmware's constant is the step for its ten chips. */
  lemma FirmwareStep()
    ensures StepFor(10) == 0x1999999a && IsCeiling(10, 0x1999999a)
  {
    StepForCeiling(10);
  }

  // The module.

  class TxPhyModule {
    var state: State
    var counts: Counts
    var hashPop: bool
    var flg: nat
    var data: Data
    var idVld: bool
    var sel: seq<bool>
    var ids: Ids
    var line: Level

    ghost function View(): TxPhy
      reads this
    {
      TxPhy(state, counts.rd, counts.timing, counts.word, hashPop, flg, data.buf, ids.step, data.overflow, data.nonce, data.scan, idVld, sel, ids.h, ids.l, ids.tout, line)
    }

    /** nxt_state */
    method Successor(start: bool) returns (nxt: State)
      ensures nxt == NextState(View(), start)
    {
      nxt := state;
      match state {
        case Idle => if start { nxt := Task; }
        case Task => if counts.rd == TASKID_LEN - 1 { nxt := Hash; }
        case Hash => if counts.word == DATA_LEN - 1 && flg == 0 { nxt := Nonce; }
        case Nonce => if data.overflow && counts.timing == TIMING { nxt := Idle; }
      }
    }

    /** The next TX_Px and TX_Nx. */
    method NewLine(i: In, nxt: State) returns (l: Level)
      requires nxt == NextState(View(), i.start)
      ensures l == NextLine(View(), i)
    {
      var low, tick := !line.p && !line.n, counts.timing == TIMING;
      l := line;
      if i.rst || (state.Nonce? && nxt.Idle?) || i.flush {
        l := HIGH;
      } else if state.Idle? && nxt.Task? {
        l := LOW;
      } else if state.Hash? || state.Nonce? {
        if low && tick {
          l := if data.buf % 2 == 1 then Level(true, false) else Level(false, true);
        } else if tick {
          l := LOW;
        }
      }
    }

    /** The next hash_pop and tx_buf_flg. */
    method NewFlags(i: In, nxt: State) returns (pop: bool, f: nat)
      requires nxt == NextState(View(), i.start)
      ensures pop == NextPop(View(), i) && f == NextFlg(View(), i)
    {
      var low, tick := !line.p && !line.n, counts.timing == TIMING;
      if i.rst || (state.Idle? && nxt.Task?) || (low && tick) {
        pop := false;
      } else if state.Task? && nxt.Hash? {
        pop := true;
      } else if state.Hash? && !nxt.Nonce? && flg == 0 {
        pop := true;
      } else {
        pop := false;
      }
      f := flg;
      if i.rst || state.Idle? {
        f := ONES;
      } else if low && tick {
        f := flg / 2;
      } else if (state.Hash? || state.Nonce?) && flg == 0 {
        f := ONES;
      }
    }

    /** The next tx_buf, nonce_over_flow, nonce_buf and scan_cnt. */
    method NewData(i: In, nxt: State) returns (d: Data)
      requires nxt == NextState(View(), i.start)
      ensures d == NextData(View(), i)
    {
      var low, tick := !line.p && !line.n, counts.timing == TIMING;
      var scanned := if i.scan then (data.scan + 1) % 256 else data.scan % 256;
      d := Data(data.buf, data.overflow, data.nonce, data.scan);
      if i.rst {
        d := Data(0, false, 0, 0);
      } else if state.Idle? && nxt.Task? {
        d := Data(data.buf, false, 0, 0);
      } else if low && tick {
        d := Data(data.buf / 2, data.overflow, data.nonce, data.scan);
      } else if hashPop {
        d := Data(i.dout, data.overflow, data.nonce, data.scan);
      } else if state.Hash? && nxt.Nonce? {
        var w := if i.scan && ids.h % 256 == data.scan then ids.l else if i.scan then ONES else 0;
        d := Data(w, data.overflow, (data.nonce + ids.step) % W33, scanned);
      } else if state.Nonce? && flg == 0 {
        var w := if i.scan && ids.h % 256 == data.scan then ids.l else if i.scan then ONES else data.nonce % W32;
        d := Data(w, data.nonce > ONES, (data.nonce + ids.step) % W33, scanned);
      }
    }

    method NewCounts(rst: bool) returns (c: Counts)
      ensures c == NextCounts(View(), rst)
    {
      var rd, tm, wd := counts.rd, 0, counts.word;
      if rst || state.Idle? {
        rd, wd := 0, 0;
      } else {
        if state.Task? { rd := (counts.rd + 1) % 8; }
        if state.Hash? && flg == 0 { wd := (counts.word + 1) % 32; }
      }
      if !rst && counts.timing != TIMING && (state.Hash? || state.Nonce?) { tm := (counts.timing + 1) % 16; }
      c := Counts(rd, tm, wd);
    }

    method NewIds(dout: nat) returns (r: Ids)
      ensures r == NextIds(View(), dout)
    {
      r := Ids(ids.h, ids.l, ids.step, ids.tout);
      if state.Task? {
        if counts.rd == 0 { r := Ids(dout, ids.l, ids.step, ids.tout); }
        if counts.rd == 1 { r := Ids(ids.h, dout, ids.step, ids.tout); }
        if counts.rd == 2 { r := Ids(ids.h, ids.l, dout, ids.tout); }
        if counts.rd == 3 { r := Ids(ids.h, ids.l, ids.step, dout); }
      }
    }

    /** One clock edge: every register from the old values of all. */
    method Step(i: In)
      modifies this
      ensures View() == Next(old(View()), i)
    {
      hide NextState, NextLine, NextPop, NextFlg, NextData, NextCounts, NextIds;
      var nxt := Successor(i.start);
      var nextLine := NewLine(i, nxt);
      var pop, ones := NewFlags(i, nxt);
      var d := NewData(i, nxt);
      var c := NewCounts(i.rst);
      var r := NewIds(i.dout);
      state, counts, hashPop, flg, data, idVld, sel, ids, line :=
        if i.rst then Idle else nxt, c, pop, ones, d,
        !i.rst && state.Task? && nxt.Hash?,
        if state.Idle? && nxt.Task? then i.phySel else sel,
        r, nextLine;
    }
  }
}
