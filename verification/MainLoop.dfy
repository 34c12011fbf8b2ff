/** firmware/main.c: the job loop, with what decode_pkg does to the state that gates it. */
module MainLoop {
  const WORD := 0x1_0000_0000
  const MODULES := 4

  /** The packets that touch the gating state; hot: a sensor reads IDLE_TEMP or more, and SET is ignored. */
  datatype Packet = Detect | Static | Set(offset: nat, range: nat, hot: bool) | Other

  /** What has happened: an accepted SET, an accepted DETECT or STATIC, the timeout branch, a work made, a work sent. */
  datatype Entry = Started(base: nat) | Stopped | Idled | Generated(nonce2: nat) | Pushed(nonce2: nat)

  /** g_new_stratum, g_nonce2_offset, g_nonce2_range, mm_work.nonce2, and the history. */
  datatype Loop = Loop(stratum: bool, offset: nat, range: nat, nonce2: nat, log: seq<Entry>)

  /** The inputs of one iteration: the packets each get_pkg accepts, the answers of the timer and the sensors and of
      alink_txbuf_count, and for each result found the packets of the get_pkg after it. */
  datatype Turn = Turn(first: seq<Packet>, expired: bool, hot: bool, room: bool, second: seq<Packet>, results: seq<seq<Packet>>)

  /** The first nonce2 of a module, in 32-bit arithmetic. */
  function Slot(offset: nat, range: nat, id: nat): nat {
    (offset + range / MODULES * id) % WORD
  }

  function Decode(s: Loop, p: Packet, id: nat): Loop {
    match p
    case Detect => s.(stratum := false, log := s.log + [Stopped])
    case Static => s.(stratum := false, log := s.log + [Stopped])
    case Set(offset, range, hot) =>
      if hot then s
      else Loop(true, offset, range, Slot(offset, range, id), s.log + [Started(Slot(offset, range, id))])
    case Other => s
  }

  function Packets(s: Loop, ps: seq<Packet>, id: nat): Loop
    decreases |ps|
  {
    if |ps| == 0 then s else Packets(Decode(s, ps[0], id), ps[1..], id)
  }

  function Idle(s: Loop, t: Turn): Loop {
    if (t.expired && s.stratum) || t.hot then s.(stratum := false, log := s.log + [Idled]) else s
  }

  function Make(s: Loop): Loop { s.(log := s.log + [Generated(s.nonce2)]) }

  function Push(s: Loop, work: nat): Loop {
    s.(nonce2 := (s.nonce2 + 1) % WORD, log := s.log + [Pushed(work)])
  }

  function Results(s: Loop, results: seq<seq<Packet>>, id: nat): Loop
    decreases |results|
  {
    if |results| == 0 then s
    else
      var t := Packets(s, results[0], id);
      if t.stratum then Results(t, results[1..], id) else t
  }

  /** One iteration of the loop in main. */
  function Iterate(s: Loop, t: Turn, id: nat): Loop {
    var a := Idle(Packets(s, t.first, id), t);
    if !a.stratum then a
    else if !t.room then Results(a, t.results, id)
    else
      var b := Packets(Make(a), t.second, id);
      if !b.stratum then b else Results(Push(b, a.nonce2), t.results, id)
  }

  function Run(s: Loop, ts: seq<Turn>, id: nat): Loop
    decreases |ts|
  {
    if |ts| == 0 then s else Run(Iterate(s, ts[0], id), ts[1..], id)
  }

  // What a history says.

  function Before(log: seq<Entry>): (l: seq<Entry>)
    requires |log| > 0
    ensures |l| < |log|
  {
    log[..|log| - 1]
  }

  function Last(log: seq<Entry>): Entry
    requires |log| > 0
  {
    log[|log| - 1]
  }

  /** A SET has been accepted and nothing has ended its job. */
  predicate Running(log: seq<Entry>) {
    |log| > 0 && match Last(log)
                 case Started(_) => true
                 case Stopped => false
                 case Idled => false
                 case _ => Running(Before(log))
  }

  /** The nonce2 the newest SET began with. */
  function Base(log: seq<Entry>): nat {
    if |log| == 0 then 0 else if Last(log).Started? then Last(log).base else Base(Before(log))
  }

  /** How many works have been pushed since. */
  function Since(log: seq<Entry>): nat {
    if |log| == 0 || Last(log).Started? then 0 else Since(Before(log)) + if Last(log).Pushed? then 1 else 0
  }

  /** The nonce2 of the work made last. */
  function Made(log: seq<Entry>): nat {
    if |log| == 0 then 0 else if Last(log).Generated? then Last(log).nonce2 else Made(Before(log))
  }

  /** The work made last has not been pushed. */
  predicate Owed(log: seq<Entry>) {
    |log| > 0 && (Last(log).Generated? || (!Last(log).Pushed? && Owed(Before(log))))
  }

  /** The work made last belongs to the newest SET. */
  predicate Fresh(log: seq<Entry>) {
    |log| > 0 && (Last(log).Generated? || (!Last(log).Started? && Fresh(Before(log))))
  }

  function Due(log: seq<Entry>): nat { (Base(log) + Since(log)) % WORD }

  /** What holds of entry e after history log. */
  predicate Justified(log: seq<Entry>, e: Entry) {
    match e
    case Generated(n) => Running(log) && n == Due(log)
    case Pushed(n) => Running(log) && Owed(log) && n == Made(log)
    case _ => true
  }

  predicate Good(log: seq<Entry>) {
    forall i :: 0 <= i < |log| ==> Justified(log[..i], log[i])
  }

  /** The state agrees with the history. */
  predicate Agrees(s: Loop) {
    && s.stratum == Running(s.log) && Good(s.log)
    && (Running(s.log) ==> s.nonce2 == Due(s.log))
  }

  lemma Append(log: seq<Entry>, e: Entry)
    ensures Before(log + [e]) == log && Last(log + [e]) == e
  {}

  lemma GoodAppend(log: seq<Entry>, e: Entry)
    requires Good(log) && Justified(log, e)
    ensures Good(log + [e])
  {
    hide Justified;
    var l := log + [e];
    forall i | 0 <= i < |l|
      ensures Justified(l[..i], l[i])
    {
      if i == |log| {
        assert l[..i] == log;
      } else {
        assert l[..i] == log[..i];
      }
    }
  }

  lemma StopAgrees(s: Loop, e: Entry)
    requires Agrees(s) && (e.Stopped? || e.Idled?)
    ensures Agrees(s.(stratum := false, log := s.log + [e]))
  {
    hide Good, Due;
    Append(s.log, e);
    GoodAppend(s.log, e);
  }

  lemma StartAgrees(s: Loop, offset: nat, range: nat, base: nat)
    requires Agrees(s) && base < WORD
    ensures Agrees(Loop(true, offset, range, base, s.log + [Started(base)]))
  {
    var e := Started(base);
    Append(s.log, e);
    assert Running(s.log + [e]) && Base(s.log + [e]) == base && Since(s.log + [e]) == 0;
    hide Good, Running, Base, Since;
    GoodAppend(s.log, e);
    SmallRemainder(base);
  }

  lemma SmallRemainder(a: nat)
    requires a < WORD
    ensures (a + 0) % WORD == a
  {}

  lemma SlotIsWord(offset: nat, range: nat, id: nat)
    ensures Slot(offset, range, id) < WORD
  {}

  lemma DecodeAgrees(s: Loop, p: Packet, id: nat)
    requires Agrees(s)
    ensures Agrees(Decode(s, p, id))
  {
    hide Agrees, Slot;
    match p {
      case Detect => StopAgrees(s, Stopped);
      case Static => StopAgrees(s, Stopped);
      case Set(offset, range, hot) =>
        SlotIsWord(offset, range, id);
        StartAgrees(s, offset, range, Slot(offset, range, id));
      case Other =>
    }
  }

  lemma {:induction false} PacketsAgree(s: Loop, ps: seq<Packet>, id: nat)
    requires Agrees(s)
    ensures Agrees(Packets(s, ps, id))
    decreases |ps|
  {
    hide Agrees, Decode;
    if |ps| > 0 {
      DecodeAgrees(s, ps[0], id);
      PacketsAgree(Decode(s, ps[0], id), ps[1..], id);
    }
  }

  lemma IdleAgrees(s: Loop, t: Turn)
    requires Agrees(s)
    ensures Agrees(Idle(s, t))
  {
    hide Agrees;
    StopAgrees(s, Idled);
  }

  lemma MakeAgrees(s: Loop)
    requires Agrees(s) && s.stratum
    ensures Agrees(Make(s)) && Owed(Make(s).log) && Made(Make(s).log) == s.nonce2
  {
    hide Good;
    var e := Generated(s.nonce2);
    Append(s.log, e);
    GoodAppend(s.log, e);
  }

  /** Packets neither make nor push works. */
  lemma {:induction false} PacketsOwe(s: Loop, ps: seq<Packet>, id: nat)
    requires Owed(s.log)
    ensures Owed(Packets(s, ps, id).log) && Made(Packets(s, ps, id).log) == Made(s.log)
    decreases |ps|
  {
    if |ps| > 0 {
      var t := Decode(s, ps[0], id);
      if t.log != s.log {
        Append(s.log, Last(t.log));
      }
      hide Decode;
      PacketsOwe(t, ps[1..], id);
    }
  }

  lemma PushAgrees(s: Loop, work: nat)
    requires Agrees(s) && s.stratum && Owed(s.log) && Made(s.log) == work
    ensures Agrees(Push(s, work))
  {
    hide Good;
    var e := Pushed(work);
    Append(s.log, e);
    GoodAppend(s.log, e);
    NextDue(Base(s.log), Since(s.log));
  }

  lemma NextDue(b: nat, n: nat)
    ensures ((b + n) % WORD + 1) % WORD == (b + (n + 1)) % WORD
  {}

  lemma {:induction false} ResultsAgree(s: Loop, results: seq<seq<Packet>>, id: nat)
    requires Agrees(s)
    ensures Agrees(Results(s, results, id))
    decreases |results|
  {
    hide Agrees, Packets;
    if |results| > 0 {
      PacketsAgree(s, results[0], id);
      var t := Packets(s, results[0], id);
      if t.stratum {
        ResultsAgree(t, results[1..], id);
      }
    }
  }

  lemma IterateAgrees(s: Loop, t: Turn, id: nat)
    requires Agrees(s)
    ensures Agrees(Iterate(s, t, id))
  {
    hide Agrees, Packets, Idle, Make, Push, Results;
    PacketsAgree(s, t.first, id);
    var p := Packets(s, t.first, id);
    IdleAgrees(p, t);
    var a := Idle(p, t);
    if a.stratum {
      if t.room {
        MakeAgrees(a);
        PacketsAgree(Make(a), t.second, id);
        PacketsOwe(Make(a), t.second, id);
        var b := Packets(Make(a), t.second, id);
        if b.stratum {
          PushAgrees(b, a.nonce2);
          ResultsAgree(Push(b, a.nonce2), t.results, id);
        }
      } else {
        ResultsAgree(a, t.results, id);
      }
    }
  }

  /** main's state when the loop begins; mm_work is not initialised. */
  predicate Initial(s: Loop) {
    !s.stratum && s.offset == 0 && s.range == 0xffffffff && s.log == []
  }

  lemma {:induction false} RunAgrees(s: Loop, ts: seq<Turn>, id: nat)
    requires Agrees(s)
    ensures Agrees(Run(s, ts, id))
    decreases |ts|
  {
    hide Agrees, Iterate;
    if |ts| > 0 {
      IterateAgrees(s, ts[0], id);
      RunAgrees(Iterate(s, ts[0], id), ts[1..], id);
    }
  }

  /** Every history of every run is justified entry by entry. */
  lemma RunGood(s: Loop, ts: seq<Turn>, id: nat)
    requires Initial(s)
    ensures Good(Run(s, ts, id).log)
  {
    hide Good, Running, Due, Run;
    assert Agrees(s) by { Empty(s); }
    RunAgrees(s, ts, id);
  }

  lemma Empty(s: Loop)
    requires Initial(s)
    ensures Agrees(s)
  {}

  // Consequences.

  /** Between an accepted DETECT or STATIC, or the timeout, and the next accepted SET no work is pushed. */
  lemma {:induction false} NoPushBetween(log: seq<Entry>, i: nat, j: nat)
    requires Good(log) && i < j < |log| && (log[i].Stopped? || log[i].Idled?) && log[j].Pushed?
    ensures exists k :: i < k < j && log[k].Started?
  {
    assert Justified(log[..j], log[j]);
    var k := StartedAfter(log[..j], i);
  }

  lemma {:induction false} StartedAfter(log: seq<Entry>, i: nat) returns (k: nat)
    requires Running(log) && i < |log| && (log[i].Stopped? || log[i].Idled?)
    ensures i < k < |log| && log[k].Started?
    decreases |log|
  {
    if Last(log).Started? {
      k := |log| - 1;
    } else {
      k := StartedAfter(Before(log), i);
    }
  }

  /** A work that is fresh and not yet pushed carries the nonce2 that is due; one that is not fresh was made before
      the newest SET, and nothing has been pushed since that. */
  lemma {:induction false} OwedWork(log: seq<Entry>)
    requires Good(log) && Owed(log)
    ensures if Fresh(log) then Made(log) == Due(log) else Since(log) == 0
  {
    var l := Before(log);
    GoodBefore(log);
    assert Justified(log[..|log| - 1], log[|log| - 1]);
    if !Last(log).Generated? {
      OwedWork(l);
    }
  }

  lemma GoodBefore(log: seq<Entry>)
    requires Good(log) && |log| > 0
    ensures Good(Before(log))
  {
    hide Justified;
    var l := Before(log);
    forall i | 0 <= i < |l|
      ensures Justified(l[..i], l[i])
    {
      assert l[..i] == log[..i] && l[i] == log[i];
    }
  }

  lemma {:induction false} GoodPrefix(log: seq<Entry>, n: nat)
    requires Good(log) && n <= |log|
    ensures Good(log[..n])
  {
    hide Justified;
    forall i | 0 <= i < n
      ensures Justified(log[..n][..i], log[..n][i])
    {
      assert log[..n][..i] == log[..i];
    }
  }

  /** The k-th work pushed after a SET, counted from zero, carries the nonce2 that SET began with plus k modulo 2^32;
      only the first can fail to, exactly when a SET was accepted between making and pushing it. */
  lemma NthWork(log: seq<Entry>, i: nat)
    requires Good(log) && i < |log| && log[i].Pushed?
    ensures Running(log[..i])
    ensures Fresh(log[..i]) ==> log[i].nonce2 == (Base(log[..i]) + Since(log[..i])) % WORD
    ensures !Fresh(log[..i]) ==> Since(log[..i]) == 0
  {
    hide Running, Made, Owed, Fresh, Base, Since;
    GoodPrefix(log, i);
    assert Justified(log[..i], log[i]);
    OwedWork(log[..i]);
  }

  predicate Between(log: seq<Entry>, i: nat, j: nat) {
    i < j < |log| && forall k :: i < k < j ==> !log[k].Pushed? && !log[k].Started?
  }

  /** Two works pushed one after the other without a SET between them carry consecutive nonce2 values. */
  lemma Consecutive(log: seq<Entry>, i: nat, j: nat)
    requires Good(log) && Between(log, i, j) && log[i].Pushed? && log[j].Pushed? && Fresh(log[..i])
    ensures log[j].nonce2 == (log[i].nonce2 + 1) % WORD
  {
    hide Good;
    NthWork(log, i);
    NthWork(log, j);
    Quiet(log, i, j);
    NextDue(Base(log[..i]), Since(log[..i]));
  }

  lemma {:induction false} Quiet(log: seq<Entry>, i: nat, j: nat)
    requires Between(log, i, j) && log[i].Pushed?
    ensures Base(log[..j]) == Base(log[..i]) && Since(log[..j]) == Since(log[..i]) + 1
    decreases j
  {
    var l := log[..j];
    assert Before(l) == log[..j - 1] && Last(l) == log[j - 1];
    if j > i + 1 {
      Quiet(log, i, j - 1);
    }
  }

  // Sharing the range between modules.

  lemma SlotsApart(offset: nat, q: nat, i: nat, j: nat, k: nat, l: nat)
    requires i < j < MODULES && k < q && l < q && q * MODULES < WORD
    ensures (offset + q * i + k) % WORD != (offset + q * j + l) % WORD
  {
    var d := q * (j - i) + l - k;
    assert q * (j - i) == q * j - q * i;
    assert q <= q * (j - i) <= q * 3 by { Times(q, j - i); }
    assert 0 < d < WORD;
    DifferentRemainders(offset + q * i + k, d);
  }

  lemma Times(q: nat, n: nat)
    requires 1 <= n <= 3
    ensures q <= q * n <= q * 3
  {}

  lemma DifferentRemainders(a: nat, d: nat)
    requires 0 < d < WORD
    ensures a % WORD != (a + d) % WORD
  {
    var x, y := a / WORD, (a + d) / WORD;
    assert a == x * WORD + a % WORD && a + d == y * WORD + (a + d) % WORD;
  }

  lemma SlotPlus(offset: nat, range: nat, id: nat, k: nat)
    ensures (Slot(offset, range, id) + k) % WORD == (offset + range / MODULES * id + k) % WORD
  {
    AddRemainder(offset + range / MODULES * id, k);
  }

  lemma AddRemainder(a: nat, k: nat)
    ensures (a % WORD + k) % WORD == (a + k) % WORD
  {
    var x := a / WORD;
    assert a + k == a % WORD + k + x * WORD;
    MultipleDrops(a % WORD + k, x);
  }

  lemma {:induction false} MultipleDrops(a: nat, x: nat)
    ensures (a + x * WORD) % WORD == a % WORD
  {
    if x > 0 {
      MultipleDrops(a, x - 1);
      assert a + x * WORD == a + (x - 1) * WORD + WORD;
    }
  }

  /** Two modules that accepted a SET of the same offset and range push no nonce2 both among the first range/4 works
      each has pushed since, a first work left over from an earlier SET excepted. */
  lemma ModulesDisjoint(logA: seq<Entry>, a: nat, i: nat, logB: seq<Entry>, b: nat, j: nat, offset: nat, range: nat)
    requires a < MODULES && b < MODULES && a != b && range < WORD
    requires Good(logA) && i < |logA| && logA[i].Pushed? && Fresh(logA[..i])
    requires Good(logB) && j < |logB| && logB[j].Pushed? && Fresh(logB[..j])
    requires Base(logA[..i]) == Slot(offset, range, a) && Since(logA[..i]) < range / MODULES
    requires Base(logB[..j]) == Slot(offset, range, b) && Since(logB[..j]) < range / MODULES
    ensures logA[i].nonce2 != logB[j].nonce2
  {
    hide Good, Base, Since, Fresh, Running, Slot;
    NthWork(logA, i);
    NthWork(logB, j);
    var q, k, l := range / MODULES, Since(logA[..i]), Since(logB[..j]);
    SlotPlus(offset, range, a, k);
    SlotPlus(offset, range, b, l);
    if a < b {
      SlotsApart(offset, q, a, b, k, l);
    } else {
      SlotsApart(offset, q, b, a, l, k);
    }
  }

  /** The bound is sharp: the work after the first range/4 has the nonce2 the next module began with. A module whose
      first work was left over reaches it with its own range/4-th work. */
  lemma NextModulesFirst(log: seq<Entry>, i: nat, offset: nat, range: nat, id: nat)
    requires Good(log) && i < |log| && log[i].Pushed? && Fresh(log[..i])
    requires Base(log[..i]) == Slot(offset, range, id) && Since(log[..i]) == range / MODULES
    ensures log[i].nonce2 == Slot(offset, range, id + 1)
  {
    hide Good, Base, Since, Fresh, Running;
    NthWork(log, i);
    SlotPlus(offset, range, id, range / MODULES);
    assert range / MODULES * (id + 1) == range / MODULES * id + range / MODULES;
  }

  /** How many works of the newest SET's own have been pushed. */
  function Own(log: seq<Entry>): nat {
    if |log| == 0 || Last(log).Started? then 0
    else Own(Before(log)) + if Last(log).Pushed? && Fresh(Before(log)) then 1 else 0
  }

  /** Works pushed since the newest SET are its own, but for at most one. */
  lemma {:induction false} OwnOrLeftOver(log: seq<Entry>)
    requires Good(log)
    ensures Own(log) <= Since(log) <= Own(log) + 1
    ensures Since(log) == 0 ==> Own(log) == 0
  {
    if |log| > 0 {
      GoodBefore(log);
      OwnOrLeftOver(Before(log));
      if Last(log).Pushed? {
        assert log[..|log| - 1] == Before(log);
        NthWork(log, |log| - 1);
      }
    }
  }

  /** A SET accepted while a work is being made: that work is pushed although its job has been replaced, and the first
      nonce2 of the new job is skipped. */
  lemma LeftOverWork(s: Loop, t: Turn, id: nat, offset: nat, range: nat)
    requires s.stratum && t.first == [] && !t.expired && !t.hot && t.room && t.results == []
    requires t.second == [Set(offset, range, false)]
    ensures var u := Iterate(s, t, id);
            && u.log == s.log + [Generated(s.nonce2), Started(Slot(offset, range, id)), Pushed(s.nonce2)]
            && u.nonce2 == (Slot(offset, range, id) + 1) % WORD
            && !Fresh(s.log + [Generated(s.nonce2), Started(Slot(offset, range, id))])
  {
    var a := Idle(Packets(s, t.first, id), t);
    assert a == s;
    var m := Make(a);
    OnePacket(m, t.second[0], id);
    var b := Packets(m, t.second, id);
    assert t.second == [t.second[0]];
    assert m.log + [Started(Slot(offset, range, id))] == s.log + [Generated(s.nonce2), Started(Slot(offset, range, id))];
    Append(m.log, Started(Slot(offset, range, id)));
  }

  // What an iteration pushes.

  /** Whether a job is running after these packets. */
  predicate Gate(running: bool, ps: seq<Packet>)
    decreases |ps|
  {
    if |ps| == 0 then running
    else Gate(match ps[0] case Detect => false case Static => false case Set(_, _, hot) => !hot || running case Other => running, ps[1..])
  }

  /** And the nonce2 that is next then. */
  function NextNonce2(nonce2: nat, ps: seq<Packet>, id: nat): nat
    decreases |ps|
  {
    if |ps| == 0 then nonce2
    else NextNonce2(if ps[0].Set? && !ps[0].hot then Slot(ps[0].offset, ps[0].range, id) else nonce2, ps[1..], id)
  }

  /** The nonce2 values of the works pushed. */
  function Works(log: seq<Entry>): seq<nat> {
    if |log| == 0 then [] else Works(Before(log)) + if Last(log).Pushed? then [Last(log).nonce2] else []
  }

  lemma WorksAppend(log: seq<Entry>, e: Entry)
    ensures Works(log + [e]) == Works(log) + if e.Pushed? then [e.nonce2] else []
  {
    Append(log, e);
  }

  lemma {:induction false} PacketsGate(s: Loop, ps: seq<Packet>, id: nat)
    ensures var t := Packets(s, ps, id);
            t.stratum == Gate(s.stratum, ps) && t.nonce2 == NextNonce2(s.nonce2, ps, id) && Works(t.log) == Works(s.log)
    decreases |ps|
  {
    hide Slot;
    if |ps| > 0 {
      var t := Decode(s, ps[0], id);
      if t.log != s.log {
        WorksAppend(s.log, Last(t.log));
        Append(s.log, Last(t.log));
      }
      hide Works;
      PacketsGate(t, ps[1..], id);
    }
  }

  lemma {:induction false} ResultsPushNothing(s: Loop, results: seq<seq<Packet>>, id: nat)
    ensures Works(Results(s, results, id).log) == Works(s.log)
    decreases |results|
  {
    hide Packets, Works, Gate, NextNonce2;
    if |results| > 0 {
      PacketsGate(s, results[0], id);
      var t := Packets(s, results[0], id);
      if t.stratum {
        ResultsPushNothing(t, results[1..], id);
      }
    }
  }

  /** A work is due: a job is running after the first packets, neither the timeout nor both sensors end it, the FIFO has
      room, and the packets that arrive while the work is made leave a job running. */
  predicate WorkDue(running: bool, t: Turn) {
    Gate(running, t.first) && !t.expired && !t.hot && t.room && Gate(true, t.second)
  }

  /** Every iteration pushes one work if one is due, with the nonce2 that was next after the first packets, else none. */
  lemma PushesWhenDue(s: Loop, t: Turn, id: nat)
    ensures Works(Iterate(s, t, id).log) ==
            Works(s.log) + if WorkDue(s.stratum, t) then [NextNonce2(s.nonce2, t.first, id)] else []
  {
    hide Packets, Results, Works, Gate, NextNonce2;
    PacketsGate(s, t.first, id);
    var p := Packets(s, t.first, id);
    WorksAppend(p.log, Idled);
    var a := Idle(p, t);
    WorksAppend(a.log, Generated(a.nonce2));
    PacketsGate(Make(a), t.second, id);
    var b := Packets(Make(a), t.second, id);
    WorksAppend(b.log, Pushed(a.nonce2));
    ResultsPushNothing(Push(b, a.nonce2), t.results, id);
    ResultsPushNothing(a, t.results, id);
  }

  /** So the timeout during a job, or both sensors at their limit, ends it, and nothing is pushed in that iteration. */
  lemma TimeoutStops(s: Loop, t: Turn, id: nat)
    requires t.hot || (t.expired && Gate(s.stratum, t.first))
    ensures var u := Iterate(s, t, id); !u.stratum && Works(u.log) == Works(s.log)
  {
    PacketsGate(s, t.first, id);
    PushesWhenDue(s, t, id);
    assert Works(s.log) + [] == Works(s.log);
    hide Packets, Results, Works, Gate, NextNonce2;
  }

  lemma OnePacket(s: Loop, p: Packet, id: nat)
    ensures Packets(s, [p], id) == Decode(s, p, id)
  {
    hide Decode;
    assert [p][1..] == [];
  }

  class Main {
    const moduleId: nat
    var g_new_stratum: bool
    var g_nonce2_offset: nat
    var g_nonce2_range: nat
    var nonce2: nat
    ghost var log: seq<Entry>

    ghost function View(): Loop
      reads this
    {
      Loop(g_new_stratum, g_nonce2_offset, g_nonce2_range, nonce2, log)
    }

    constructor (id: nat, garbage: nat)
      ensures moduleId == id && Initial(View())
    {
      moduleId := id;
      g_new_stratum, g_nonce2_offset, g_nonce2_range, nonce2, log := false, 0, 0xffffffff, garbage, [];
    }

    /** The part of decode_pkg that touches the gating state. */
    method DecodePkg(p: Packet)
      modifies this
      ensures View() == Decode(old(View()), p, moduleId)
    {
      match p {
        case Detect =>
          g_new_stratum := false;
          log := log + [Stopped];
        case Static =>
          g_new_stratum := false;
          log := log + [Stopped];
        case Set(offset, range, hot) =>
          if hot { return; }
          g_nonce2_offset := offset;
          g_nonce2_range := range;
          nonce2 := (g_nonce2_offset + g_nonce2_range / MODULES * moduleId) % WORD;
          g_new_stratum := true;
          log := log + [Started(nonce2)];
        case Other =>
      }
    }

    /** get_pkg, as far as the packets it accepts. */
    method GetPkg(ps: seq<Packet>)
      modifies this
      ensures View() == Packets(old(View()), ps, moduleId)
    {
      hide Decode;
      assert ps[0..] == ps;
      for i := 0 to |ps|
        invariant Packets(View(), ps[i..], moduleId) == Packets(old(View()), ps, moduleId)
      {
        assert ps[i..][1..] == ps[i + 1..];
        DecodePkg(ps[i]);
      }
    }

    /** The body of the loop in main. */
    method Body(t: Turn)
      modifies this
      ensures View() == Iterate(old(View()), t, moduleId)
    {
      hide Packets;
      GetPkg(t.first);
      if (t.expired && g_new_stratum) || t.hot {
        g_new_stratum := false;
        log := log + [Idled];
      }
      if !g_new_stratum { return; }
      if t.room {
        var work := nonce2;
        log := log + [Generated(work)];
        GetPkg(t.second);
        if !g_new_stratum { return; }
        nonce2 := (nonce2 + 1) % WORD;
        log := log + [Pushed(work)];
      }
      ghost var a := View();
      var i := 0;
      assert t.results[0..] == t.results;
      while i < |t.results|
        invariant i <= |t.results|
        invariant Results(View(), t.results[i..], moduleId) == Results(a, t.results, moduleId)
      {
        assert t.results[i..][1..] == t.results[i + 1..];
        GetPkg(t.results[i]);
        i := i + 1;
        if !g_new_stratum { break; }
      }
    }
  }
}
