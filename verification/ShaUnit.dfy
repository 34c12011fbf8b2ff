/** sha.v and dbl_sha.v: the register interface of the core and the hardware second hash. */
module ShaUnit {
  import opened Words
  import opened Fips180
  import opened ShaCore

  /** What dbl_sha.v sends after the digest. */
  const PAD_TAIL: seq<word> := [0x8000_0000, 0, 0, 0, 0, 0, 0, 0x100]

  /** The registers of dbl_sha.v. */
  datatype Dbl = Dbl(start: bool, cnt: nat, hashR: seq<word>)
  {
    ghost predicate Valid() { cnt < 16 && |hashR| == 8 && (!start ==> cnt == 0) }

    /** The words still to be offered to the core. */
    ghost function Stream(): seq<word>
      requires Valid()
    {
      if !start then [] else if cnt < 8 then hashR[..8 - cnt] + PAD_TAIL else hashR[..16 - cnt]
    }
  }

  function NextDbl(d: Dbl, regDbl: bool, done: bool, hash: Hash): Dbl
    requires |d.hashR| == 8
  {
    Dbl(if regDbl then true else if d.cnt == 15 then false else d.start,
        if d.start then (d.cnt + 1) % 16 else d.cnt,
        if done then hash.Words() else if d.start && d.cnt != 7 then d.hashR[1..] + [0] else if d.start then PAD_TAIL else d.hashR)
  }

  /** Each clock of a transfer offers the first word of the stream and leaves the rest. */
  lemma StreamAdvances(d: Dbl, hash: Hash)
    requires d.Valid() && d.start
    ensures NextDbl(d, false, false, hash).Valid()
    ensures [d.hashR[0]] + NextDbl(d, false, false, hash).Stream() == d.Stream()
  {
    hide Hash.Words;
    if d.cnt < 7 {
      DigestAdvances(d, hash);
    } else {
      PaddingAdvances(d, hash);
    }
    hide Dbl.Stream;
  }

  lemma DigestAdvances(d: Dbl, hash: Hash)
    requires d.Valid() && d.start && d.cnt < 7
    ensures [d.hashR[0]] + NextDbl(d, false, false, hash).Stream() == d.Stream()
  {
    hide Hash.Words;
    var h := d.hashR;
    FirstOff(h, 8 - d.cnt);
    Assoc([h[0]], (h[1..] + [0])[..7 - d.cnt], PAD_TAIL);
  }

  lemma PaddingAdvances(d: Dbl, hash: Hash)
    requires d.Valid() && d.start && d.cnt >= 7
    ensures [d.hashR[0]] + NextDbl(d, false, false, hash).Stream() == d.Stream()
  {
    hide Hash.Words;
    var h := d.hashR;
    FirstOff(h, 1);
    if d.cnt == 7 {
      assert PAD_TAIL[..8] == PAD_TAIL;
    } else {
      FirstOff(h, 16 - d.cnt);
    }
  }

  lemma FirstOff(h: seq<word>, k: nat)
    requires |h| == 8 && 1 <= k <= 8
    ensures [h[0]] + (h[1..] + [0])[..k - 1] == h[..k]
    ensures k == 1 ==> [h[0]] == h[..k]
  {}

  lemma Assoc(a: seq<word>, b: seq<word>, c: seq<word>)
    ensures a + (b + c) == (a + b) + c
  {}

  /** A transfer begins with the stored digest followed by the padding of a 32-byte message. */
  lemma StreamBegins(d: Dbl, hash: Hash)
    requires d.Valid() && !d.start
    ensures NextDbl(d, true, false, hash).Stream() == d.hashR + PAD_TAIL
  {}

  class DblSha {
    var start: bool
    var cnt: nat
    var hashR: seq<word>

    ghost function State(): Dbl reads this { Dbl(start, cnt, hashR) }

    constructor ()
      ensures State().Valid() && !start
    {
      start, cnt := false, 0;
      var any: word := *;
      hashR := seq(8, _ => any);
    }

    method Step(regDbl: bool, done: bool, hash: Hash)
      requires |hashR| == 8
      modifies this
      ensures State() == NextDbl(old(State()), regDbl, done, hash)
    {
      var nextStart := if regDbl then true else if cnt == 15 then false else start;
      var nextCnt := if start then (cnt + 1) % 16 else cnt;
      if done {
        hashR := hash.Words();
      } else if start && cnt != 7 {
        hashR := hashR[1..] + [0];
      } else if start {
        hashR := PAD_TAIL;
      }
      start, cnt := nextStart, nextCnt;
    }
  }

  /** What the bus does in one clock; a command word is given by its INIT, RST and DBL bits. */
  datatype Op = Idle | WrCmd(init: bool, rst: bool, dbl: bool) | WrDin(d: word) | WrHi(d: word) | RdCmd | RdHash | RdPre

  function ShiftIn(h: Hash, d: word): Hash {
    Hash(h.b, h.c, h.d, h.e, h.f, h.g, h.h, d)
  }

  /** The read-back order of the taps. */
  function PreWords(t: Taps): seq<word> { [t.a0, t.a1, t.a2, t.e0, t.e1, t.e2] }

  /** The registers of sha.v itself. */
  datatype Ctl = Ctl(regInit: bool, regDone: bool, regRst: bool, regDbl: bool, regDin: word, vld: bool,
                     hashCnt: nat, preCnt: nat, hx: Hash, cmdRd: bool, hashRd: bool, preRd: bool)
  {
    /** No command, word or read strobe is on its way. */
    predicate Settled() { !regInit && !regRst && !regDbl && !vld && !hashRd && !preRd }
  }

  const POWER_ON := Ctl(false, false, false, false, 0, false, 0, 0, IV, false, false, false)

  /** One clock of these registers; done comes from the core. */
  function NextCtl(c: Ctl, op: Op, done: bool): Ctl {
    Ctl(op.WrCmd? && (op.init || op.dbl),
        done || (c.regDone && !op.WrDin? && !(op.WrCmd? && op.dbl)),
        op.WrCmd? && op.rst,
        op.WrCmd? && op.dbl,
        if op.WrDin? then op.d else c.regDin,
        op.WrDin?,
        if c.regInit then 0 else if c.hashRd then (c.hashCnt + 1) % 8 else c.hashCnt,
        if c.regInit then 0 else if c.preRd then (c.preCnt + 1) % 8 else c.preCnt,
        if c.regRst then IV else if op.WrHi? then ShiftIn(c.hx, op.d) else c.hx,
        op.RdCmd?, op.RdHash?, op.RdPre?)
  }

  /** The whole unit, with the history of its core. */
  datatype Unit = Unit(ctl: Ctl, core: Regs, dbl: Dbl, hist: Hist)
  {
    ghost predicate Valid() {
      && core.Shaped() && (core.done ==> core.round == 0) && Inv(core, hist)
      && dbl.Valid() && ctl.hashCnt < 8 && ctl.preCnt < 8
    }

    function Vld(): bool { ctl.vld || dbl.start }

    function Din(): word requires |dbl.hashR| == 8 { if dbl.start then dbl.hashR[0] else ctl.regDin }

    /** SHA_DAT_O */
    function DatO(): word {
      if ctl.cmdRd then (if ctl.regDone then 2 else 0)
      else if ctl.hashRd then (if ctl.hashCnt < 8 then core.v.Words()[ctl.hashCnt] else 0)
      else if ctl.preCnt < 6 then PreWords(core.taps)[ctl.preCnt] else 0
    }

    // What a run of bus accesses keeps.

    ghost predicate Live() {
      && Valid() && ctl.Settled()
      && (dbl.start ==> core.round == dbl.cnt && !core.done && !ctl.regDone)
      && (ctl.regDone ==> core.round == 0 && !core.done)
      && (ctl.regDone && |hist.taken| > 0 ==> dbl.hashR == core.v.Words())
    }

    /** Nothing is going on. */
    ghost predicate Quiet() { Live() && core.round == 0 && !core.done && !dbl.start }

    /** DONE is set or will be without further input. */
    ghost predicate Coming() { ctl.regDone || core.done || core.round >= 16 || dbl.start }

    /** Clocks until then. */
    ghost function Left(): nat
      requires Live()
    {
      if ctl.regDone then 0 else if core.done then 1 else if core.round >= 16 then 66 - core.round
      else if dbl.start then 100 - dbl.cnt else 0
    }

    /** The words taken or about to be. */
    ghost function Fed(): seq<word>
      requires dbl.Valid()
    {
      if dbl.start then hist.taken + dbl.Stream() else hist.taken
    }
  }

  function NextUnit(u: Unit, op: Op): (w: Unit)
    requires u.core.Shaped() && |u.dbl.hashR| == 8
    requires u.ctl.regInit ==> u.core.round == 0
    ensures w.core.Shaped() && |w.dbl.hashR| == 8
  {
    Unit(NextCtl(u.ctl, op, u.core.done),
         Next(u.core, u.ctl.regInit, u.Vld(), u.Din(), u.ctl.hx),
         NextDbl(u.dbl, u.ctl.regDbl, u.core.done, u.core.v),
         NextHist(u.core, u.hist, u.ctl.regInit, u.Vld(), u.Din(), u.ctl.hx))
  }

  /** Everything idle clocks leave alone. */
  ghost predicate Same(u: Unit, w: Unit)
    requires u.dbl.Valid() && w.dbl.Valid()
  {
    && w.ctl.hx == u.ctl.hx && w.ctl.hashCnt == u.ctl.hashCnt && w.ctl.preCnt == u.ctl.preCnt
    && w.hist.loaded == u.hist.loaded && w.hist.seed == u.hist.seed && w.Fed() == u.Fed()
    && (u.core.round < 16 && !u.dbl.start ==>
          w.core.round == u.core.round && w.core.v == u.core.v && w.core.taps == u.core.taps)
    && (!u.core.done && u.core.round < 16 && !u.dbl.start ==> w.dbl.hashR == u.dbl.hashR && !w.core.done)
    && (!u.dbl.start ==> !w.dbl.start)
    && (u.ctl.regDone ==> w.ctl.regDone)
    && (u.Coming() <==> w.Coming())
  }

  lemma TickKeeps(u: Unit)
    requires u.Live()
    ensures NextUnit(u, Idle).Live() && Same(u, NextUnit(u, Idle))
    ensures u.Coming() && !u.ctl.regDone ==> NextUnit(u, Idle).Left() < u.Left()
  {
    hide Unit.Live, Same, Unit.Coming, Unit.Left, NextUnit;
    if u.dbl.start {
      TickStreams(u);
    } else {
      TickRuns(u);
    }
  }

  lemma TickStreams(u: Unit)
    requires u.Live() && u.dbl.start
    ensures NextUnit(u, Idle).Live() && Same(u, NextUnit(u, Idle))
    ensures u.Coming() && !u.ctl.regDone ==> NextUnit(u, Idle).Left() < u.Left()
  {
    StreamLive(u);
    StreamFed(u);
    hide Inv, Turned, NextWt, Tap, K, Ended, Dbl.Stream, Unit.Fed, Hash.Words;
  }

  lemma StreamLive(u: Unit)
    requires u.Live() && u.dbl.start
    ensures NextUnit(u, Idle).Live()
  {
    hide Inv, Turned, NextWt, Tap, K, Ended, Dbl.Stream;
    NextKeeps(u.core, u.hist, false, u.Vld(), u.Din(), u.ctl.hx);
    StreamAdvances(u.dbl, u.core.v);
  }

  /** The word the core takes is the first of those still to be offered. */
  lemma StreamFed(u: Unit)
    requires u.Live() && u.dbl.start
    ensures NextUnit(u, Idle).dbl.Valid() && NextUnit(u, Idle).Fed() == u.Fed()
  {
    hide Inv, Turned, NextWt, Tap, K, Ended, Dbl.Stream, Hash.Words, Loads;
    StreamAdvances(u.dbl, u.core.v);
    var w := NextUnit(u, Idle);
    assert w.hist.taken == u.hist.taken + [u.dbl.hashR[0]];
    Assoc(u.hist.taken, [u.dbl.hashR[0]], w.dbl.Stream());
    if !w.dbl.start {
      StreamOver(w.dbl);
      assert w.hist.taken + [] == w.hist.taken;
    }
  }

  lemma StreamOver(d: Dbl)
    requires d.Valid() && !d.start
    ensures d.Stream() == []
  {}

  lemma TickRuns(u: Unit)
    requires u.Live() && !u.dbl.start
    ensures NextUnit(u, Idle).Live() && Same(u, NextUnit(u, Idle))
    ensures u.Coming() && !u.ctl.regDone ==> NextUnit(u, Idle).Left() < u.Left()
  {
    hide Inv, Turned, NextWt, Tap, K, Ended, Hash.Words;
    NextKeeps(u.core, u.hist, false, u.Vld(), u.Din(), u.ctl.hx);
  }

  /** A bus access: the strobe is accepted in one clock and acknowledged in the next. */
  ghost function Access(u: Unit, op: Op): Unit
    requires u.Live()
    requires op.WrCmd? ==> u.Quiet()
  {
    NextUnit(NextUnit(u, op), Idle)
  }

  lemma BetweenClocks(u: Unit, op: Op)
    requires u.Live() && (op.WrCmd? ==> u.Quiet())
    ensures NextUnit(u, op).Valid() && (NextUnit(u, op).ctl.regInit ==> NextUnit(u, op).core.round == 0)
  {
    hide Inv, Turned, NextWt, Tap, K, Ended;
    NextKeeps(u.core, u.hist, false, u.Vld(), u.Din(), u.ctl.hx);
    if u.dbl.start {
      StreamAdvances(u.dbl, u.core.v);
    }
  }

  /** What every access leaves alone unless it is about it. */
  ghost predicate Kept(u: Unit, w: Unit) {
    w.core.v == u.core.v && w.core.taps == u.core.taps && w.hist == u.hist && w.dbl.hashR == u.dbl.hashR
    && w.ctl.regDone == u.ctl.regDone
  }

  lemma RstSetsIv(u: Unit)
    requires u.Quiet()
    ensures var w := Access(u, WrCmd(false, true, false));
            w.Quiet() && Kept(u, w) && w.ctl.hx == IV && w.ctl.hashCnt == u.ctl.hashCnt && w.ctl.preCnt == u.ctl.preCnt
  {
    hide Inv, Hash.Words;
    NextKeeps(u.core, u.hist, false, false, u.Din(), u.ctl.hx);
    var m := NextUnit(u, WrCmd(false, true, false));
    NextKeeps(m.core, m.hist, false, false, m.Din(), m.ctl.hx);
  }

  lemma HiShifts(u: Unit, d: word)
    requires u.Quiet()
    ensures var w := Access(u, WrHi(d));
            w.Quiet() && Kept(u, w) && w.ctl.hx == ShiftIn(u.ctl.hx, d) && w.ctl.hashCnt == u.ctl.hashCnt && w.ctl.preCnt == u.ctl.preCnt
  {
    hide Inv, Hash.Words;
    NextKeeps(u.core, u.hist, false, false, u.Din(), u.ctl.hx);
    var m := NextUnit(u, WrHi(d));
    NextKeeps(m.core, m.hist, false, false, m.Din(), m.ctl.hx);
  }

  lemma InitLoads(u: Unit)
    requires u.Quiet()
    ensures var w := Access(u, WrCmd(true, false, false));
            w.Quiet() && w.hist == Hist(true, u.ctl.hx, []) && w.ctl.hx == u.ctl.hx
            && w.dbl.hashR == u.dbl.hashR && w.ctl.hashCnt == 0 && w.ctl.preCnt == 0
  {
    hide Inv, Hash.Words;
    NextKeeps(u.core, u.hist, false, false, u.Din(), u.ctl.hx);
    var m := NextUnit(u, WrCmd(true, false, false));
    NextKeeps(m.core, m.hist, true, false, m.Din(), m.ctl.hx);
  }

  /** A word written is taken, DONE is cleared, and sixteen words start the rounds that need no input. */
  lemma DinTaken(u: Unit, d: word)
    requires u.Live() && !u.dbl.start && u.core.round < 16 && !u.core.done
    ensures var w := Access(u, WrDin(d));
            w.Live() && !w.dbl.start && !w.core.done && !w.ctl.regDone && w.core.round == u.core.round + 1
            && w.hist == u.hist.(taken := u.hist.taken + [d]) && w.ctl.hx == u.ctl.hx
            && w.ctl.hashCnt == u.ctl.hashCnt && w.ctl.preCnt == u.ctl.preCnt
  {
    hide Inv, Turned, Tap, K, Hash.Words;
    NextKeeps(u.core, u.hist, false, false, u.Din(), u.ctl.hx);
    var m := NextUnit(u, WrDin(d));
    NextKeeps(m.core, m.hist, false, true, d, m.ctl.hx);
  }

  /** The second hash: the core restarts from SHA256_Hx and is fed the stored digest and its padding. */
  lemma DblStreams(u: Unit)
    requires u.Quiet()
    ensures var w := Access(u, WrCmd(false, false, true));
            w.Live() && w.Coming() && !w.ctl.regDone && w.hist.loaded && w.hist.seed == u.ctl.hx && w.ctl.hx == u.ctl.hx
            && w.Fed() == u.dbl.hashR + PAD_TAIL && w.ctl.hashCnt == 0 && w.ctl.preCnt == 0
  {
    hide Inv, Hash.Words;
    NextKeeps(u.core, u.hist, false, false, u.Din(), u.ctl.hx);
    var m := NextUnit(u, WrCmd(false, false, true));
    NextKeeps(m.core, m.hist, true, false, m.Din(), m.ctl.hx);
    StreamBegins(u.dbl, u.core.v);
  }

  lemma ReadsAnswer(u: Unit, op: Op)
    requires u.Live() && (op.RdCmd? || (u.Quiet() && (op.RdHash? || op.RdPre?)))
    ensures NextUnit(u, op).DatO() ==
            match op
            case RdCmd => if NextUnit(u, op).ctl.regDone then 2 else 0
            case RdHash => u.core.v.Words()[u.ctl.hashCnt]
            case _ => if u.ctl.preCnt < 6 then PreWords(u.core.taps)[u.ctl.preCnt] else 0
    ensures NextUnit(u, op).core == NextUnit(u, Idle).core && NextUnit(u, op).ctl.regDone == NextUnit(u, Idle).ctl.regDone
    ensures op.RdCmd? ==> Access(u, op).Live() && Same(u, Access(u, op)) 
    ensures op.RdCmd? && u.Coming() ==> Access(u, op).Left() <= u.Left()
    ensures op.RdCmd? && u.Coming() && !u.ctl.regDone ==> Access(u, op).Left() < u.Left()
    ensures op.RdCmd? ==> (u.ctl.regDone ==> NextUnit(u, op).ctl.regDone) && (NextUnit(u, op).ctl.regDone ==> Access(u, op).ctl.regDone)
    ensures u.Quiet() ==> Access(u, op).Quiet() && Kept(u, Access(u, op)) && Access(u, op).ctl.hx == u.ctl.hx
    ensures Access(u, op).ctl.hashCnt == if op.RdHash? then (u.ctl.hashCnt + 1) % 8 else u.ctl.hashCnt
    ensures Access(u, op).ctl.preCnt == if op.RdPre? then (u.ctl.preCnt + 1) % 8 else u.ctl.preCnt
  {
    hide Inv, Turned, NextWt, Tap, K, Ended;
    TickKeeps(u);
    TickKeeps(NextUnit(u, Idle));
  }

  class Sha {
    var ctl: Ctl
    const core: Core
    const dbl: DblSha

    ghost function State(): Unit reads this, core, dbl { Unit(ctl, core.State(), dbl.State(), core.hist) }

    constructor ()
      ensures State().Quiet() && ctl == POWER_ON && fresh(core) && fresh(dbl)
    {
      ctl := POWER_ON;
      core := new Core();
      dbl := new DblSha();
    }

    method Step(op: Op)
      requires core.Valid() && |dbl.hashR| == 8
      requires ctl.regInit ==> core.round == 0
      modifies this, core, dbl
      ensures State() == NextUnit(old(State()), op)
      ensures core.Valid()
    {
      hide Next, NextHist, NextCtl, NextDbl, Inv, Regs.Shaped;
      var done, hash := core.done, core.v;
      core.Step(ctl.regInit, ctl.vld || dbl.start, if dbl.start then dbl.hashR[0] else ctl.regDin, ctl.hx);
      dbl.Step(ctl.regDbl, done, hash);
      ctl := NextCtl(ctl, op, done);
    }

    /** Any number of idle clocks. */
    method Rest()
      requires State().Live()
      modifies this, core, dbl
      ensures State().Live() && Same(old(State()), State())
      ensures old(State()).Coming() ==> State().Left() <= old(State()).Left()
    {
      hide Inv, NextUnit;
      var n: nat := *;
      while n > 0
        invariant State().Live() && Same(old(State()), State())
        invariant old(State()).Coming() ==> State().Left() <= old(State()).Left()
      {
        TickKeeps(State());
        Step(Idle);
        n := n - 1;
      }
    }

    /** One bus write, then any number of idle clocks. */
    method Write(op: Op)
      requires State().Live() && (op.WrCmd? ==> State().Quiet())
      requires Access(State(), op).Live()
      modifies this, core, dbl
      ensures State().Live() && Same(Access(old(State()), op), State())
    {
      hide Inv, NextUnit;
      BetweenClocks(State(), op);
      Step(op);
      Step(Idle);
      Rest();
    }

    /** The bus output: the status, the digest word or the tap selected by the read counters. */
    method Sample() returns (d: word)
      ensures d == State().DatO()
    {
      if ctl.cmdRd {
        d := if ctl.regDone then 2 else 0;
      } else if ctl.hashRd {
        var v := core.v;
        match ctl.hashCnt
        case 0 => d := v.a;
        case 1 => d := v.b;
        case 2 => d := v.c;
        case 3 => d := v.d;
        case 4 => d := v.e;
        case 5 => d := v.f;
        case 6 => d := v.g;
        case 7 => d := v.h;
        case _ => d := 0;
      } else {
        var t := core.taps;
        match ctl.preCnt
        case 0 => d := t.a0;
        case 1 => d := t.a1;
        case 2 => d := t.a2;
        case 3 => d := t.e0;
        case 4 => d := t.e1;
        case 5 => d := t.e2;
        case _ => d := 0;
      }
    }

    /** One bus read, then any number of idle clocks. */
    method Read(op: Op) returns (d: word)
      requires State().Live() && (op.RdCmd? || (State().Quiet() && (op.RdHash? || op.RdPre?)))
      modifies this, core, dbl
      ensures d == NextUnit(old(State()), op).DatO()
      ensures State().Live() && Access(old(State()), op).Live() && Same(Access(old(State()), op), State())
      ensures Access(old(State()), op).Coming() ==> State().Left() <= Access(old(State()), op).Left()
    {
      hide Inv, NextUnit, Unit.DatO;
      ReadsAnswer(State(), op);
      BetweenClocks(State(), op);
      Step(op);
      d := Sample();
      Step(Idle);
      Rest();
    }

    /** The firmware's polling loop: it ends, and then the unit is quiet. */
    method WaitDone()
      requires State().Live() && State().Coming()
      modifies this, core, dbl
      ensures State().Quiet() && ctl.regDone
      ensures Same(old(State()), State())
    {
      hide Inv, NextUnit, Unit.DatO;
      ReadsAnswer(State(), RdCmd);
      var s := Read(RdCmd);
      while s & 2 == 0
        invariant State().Live() && State().Coming() && Same(old(State()), State())
        invariant s & 2 != 0 ==> ctl.regDone
        invariant s == 0 || s == 2
        decreases State().Left() + if s & 2 == 0 then 1 else 0
      {
        ReadsAnswer(State(), RdCmd);
        s := Read(RdCmd);
      }
    }
  }
}
