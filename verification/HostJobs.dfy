/** firmware/main.c: from the bytes of the host to the jobs of the loop. */
module HostJobs {
  import opened Words
  import opened Bytes
  import H = HostLink
  import M = MainLoop
  import UartRing

  const DETECT: byte := 10
  const STATIC: byte := 11
  const SET: byte := 19

  /** The number in the four data bytes at at. */
  function Number(f: H.Frame, at: nat): nat
    requires |f| == H.COUNT && at + 4 <= 32
  {
    Load(f[5 + at..5 + at + 4]) as nat
  }

  /** The switch of decode_pkg, as far as it gates the job loop; hot: a sensor reads IDLE_TEMP or more. */
  function PacketOf(f: H.Frame, hot: bool): M.Packet
    requires |f| == H.COUNT
  {
    if f[2] == DETECT then M.Detect
    else if f[2] == STATIC then M.Static
    else if f[2] == SET then M.Set(Number(f, 12), Number(f, 16), hot)
    else M.Other
  }

  /** A SET frame brings the offset and the range it was made with. */
  lemma SetBrings(f: H.Frame, offset: word, range: word, hot: bool)
    requires |f| == H.COUNT && f[2] == SET && f[17..21] == Store(offset) && f[21..25] == Store(range)
    ensures PacketOf(f, hot) == M.Set(offset as nat, range as nat, hot)
  {
    LoadStore(offset);
    LoadStore(range);
    hide Load, Store;
  }

  ghost predicate Accepted(f: H.Frame) { |f| == H.COUNT && H.CrcOk(f) }

  /** The packets of frames handed to decode_pkg one after the other, the first of them as number from; those with a wrong
      CRC bring none. The sensors are read anew for each. */
  ghost function PacketsOf(fs: seq<H.Frame>, from: nat, hot: nat -> bool): seq<M.Packet>
  {
    if |fs| == 0 then []
    else (if Accepted(fs[0]) then [PacketOf(fs[0], hot(from))] else []) + PacketsOf(fs[1..], from + 1, hot)
  }

  lemma {:induction false} PacketsCat(fs: seq<H.Frame>, gs: seq<H.Frame>, from: nat, hot: nat -> bool)
    ensures PacketsOf(fs + gs, from, hot) == PacketsOf(fs, from, hot) + PacketsOf(gs, from + |fs|, hot)
    decreases |fs|
  {
    hide Accepted, PacketOf;
    if |fs| == 0 {
      assert fs + gs == gs;
    } else {
      var all := fs + gs;
      assert all[0] == fs[0] && all[1..] == fs[1..] + gs;
      PacketsCons(all, from, hot);
      PacketsCons(fs, from, hot);
      hide PacketsOf;
      PacketsCat(fs[1..], gs, from + 1, hot);
    }
  }

  lemma PacketsCons(fs: seq<H.Frame>, from: nat, hot: nat -> bool)
    requires |fs| > 0
    ensures PacketsOf(fs, from, hot) == (if Accepted(fs[0]) then [PacketOf(fs[0], hot(from))] else []) + PacketsOf(fs[1..], from + 1, hot)
  {}

  // The loop over bytes.

  /** The parser, the state of the loop, the bytes read so far, and how many frames have gone to decode_pkg. */
  datatype State = State(parser: H.Parser, loop: M.Loop, read: seq<byte>, seen: nat)

  /** The bytes each call of get_pkg reads in one iteration, and the other inputs. */
  datatype Turn = Turn(first: seq<byte>, expired: bool, hot: bool, room: bool, second: seq<byte>, results: seq<seq<byte>>)

  ghost predicate Ok(x: State) { H.Ok(x.parser) }

  ghost function Packets(x: State, s: seq<byte>, hot: nat -> bool): seq<M.Packet>
    requires Ok(x)
  {
    PacketsOf(H.Frames(x.parser, s), x.seen, hot)
  }

  /** One call of get_pkg that reads s. */
  ghost function Call(x: State, s: seq<byte>, id: nat, hot: nat -> bool): (y: State)
    requires Ok(x)
    ensures Ok(y)
  {
    State(H.Parse(x.parser, s), M.Packets(x.loop, Packets(x, s, hot), id), x.read + s, x.seen + |H.Frames(x.parser, s)|)
  }

  ghost function Results(x: State, rs: seq<seq<byte>>, id: nat, hot: nat -> bool): (y: State)
    requires Ok(x)
    ensures Ok(y)
    decreases |rs|
  {
    if |rs| == 0 then x
    else
      var y := Call(x, rs[0], id, hot);
      if y.loop.stratum then Results(y, rs[1..], id, hot) else y
  }

  /** The packets of those calls. */
  ghost function ResultPackets(x: State, rs: seq<seq<byte>>, id: nat, hot: nat -> bool): seq<seq<M.Packet>>
    requires Ok(x)
    decreases |rs|
  {
    if |rs| == 0 then []
    else
      var y := Call(x, rs[0], id, hot);
      [Packets(x, rs[0], hot)] + if y.loop.stratum then ResultPackets(y, rs[1..], id, hot) else []
  }

  ghost function Idle(x: State, t: Turn): (y: State)
    requires Ok(x)
    ensures Ok(y)
  {
    x.(loop := M.Idle(x.loop, M.Turn([], t.expired, t.hot, t.room, [], [])))
  }

  /** One iteration of the loop in main. */
  ghost function Iterate(x: State, t: Turn, id: nat, hot: nat -> bool): (y: State)
    requires Ok(x)
    ensures Ok(y)
  {
    var a := Idle(Call(x, t.first, id, hot), t);
    if !a.loop.stratum then a
    else if !t.room then Results(a, t.results, id, hot)
    else
      var b := Call(a.(loop := M.Make(a.loop)), t.second, id, hot);
      if !b.loop.stratum then b else Results(b.(loop := M.Push(b.loop, a.loop.nonce2)), t.results, id, hot)
  }

  /** The packets of an iteration, for the calls that are made. */
  ghost function TurnOf(x: State, t: Turn, id: nat, hot: nat -> bool): M.Turn
    requires Ok(x)
  {
    var a := Idle(Call(x, t.first, id, hot), t);
    var m := a.(loop := M.Make(a.loop));
    var b := Call(m, t.second, id, hot);
    M.Turn(Packets(x, t.first, hot), t.expired, t.hot, t.room, if t.room then Packets(m, t.second, hot) else [],
           if !t.room then ResultPackets(a, t.results, id, hot)
           else ResultPackets(b.(loop := M.Push(b.loop, a.loop.nonce2)), t.results, id, hot))
  }

  lemma {:induction false} ResultsRefine(x: State, rs: seq<seq<byte>>, id: nat, hot: nat -> bool)
    requires Ok(x)
    ensures Results(x, rs, id, hot).loop == M.Results(x.loop, ResultPackets(x, rs, id, hot), id)
    decreases |rs|
  {
    hide M.Packets, Packets;
    if |rs| > 0 {
      var y := Call(x, rs[0], id, hot);
      if y.loop.stratum {
        ResultsRefine(y, rs[1..], id, hot);
      }
      var ps := ResultPackets(x, rs, id, hot);
      assert ps[0] == Packets(x, rs[0], hot) && ps[1..] == if y.loop.stratum then ResultPackets(y, rs[1..], id, hot) else [];
    }
  }

  /** The loop over bytes is the loop over the packets in them, so all that holds of that loop holds of it. */
  lemma IterateRefines(x: State, t: Turn, id: nat, hot: nat -> bool)
    requires Ok(x)
    ensures Iterate(x, t, id, hot).loop == M.Iterate(x.loop, TurnOf(x, t, id, hot), id)
  {
    hide M.Packets, Packets, M.Results, Results, ResultPackets, M.Make, M.Push;
    var a := Idle(Call(x, t.first, id, hot), t);
    var b := Call(a.(loop := M.Make(a.loop)), t.second, id, hot);
    ResultsRefine(a, t.results, id, hot);
    ResultsRefine(b.(loop := M.Push(b.loop, a.loop.nonce2)), t.results, id, hot);
  }

  ghost function Run(x: State, ts: seq<Turn>, id: nat, hot: nat -> bool): (y: State)
    requires Ok(x)
    ensures Ok(y)
    decreases |ts|
  {
    if |ts| == 0 then x else Run(Iterate(x, ts[0], id, hot), ts[1..], id, hot)
  }

  // What the host has asked for.

  /** The jobs begun and ended by packets, out of a history. */
  function Orders(log: seq<M.Entry>): seq<M.Entry> {
    if |log| == 0 then []
    else Orders(M.Before(log)) + if M.Last(log).Started? || M.Last(log).Stopped? then [M.Last(log)] else []
  }

  /** And as the packets ask for them. */
  function OrdersIn(ps: seq<M.Packet>, id: nat): seq<M.Entry> {
    if |ps| == 0 then []
    else
      (match ps[0]
       case Detect => [M.Stopped]
       case Static => [M.Stopped]
       case Set(offset, range, hot) => if hot then [] else [M.Started(M.Slot(offset, range, id))]
       case Other => []) + OrdersIn(ps[1..], id)
  }

  lemma OrdersAppend(log: seq<M.Entry>, e: M.Entry)
    ensures Orders(log + [e]) == Orders(log) + if e.Started? || e.Stopped? then [e] else []
  {
    M.Append(log, e);
  }

  lemma {:induction false} OrdersCat(ps: seq<M.Packet>, qs: seq<M.Packet>, id: nat)
    ensures OrdersIn(ps + qs, id) == OrdersIn(ps, id) + OrdersIn(qs, id)
    decreases |ps|
  {
    hide M.Slot;
    if |ps| == 0 {
      assert ps + qs == qs;
    } else {
      var all := ps + qs;
      assert all[0] == ps[0] && all[1..] == ps[1..] + qs;
      OrdersCons(all, id);
      OrdersCons(ps, id);
      hide OrdersIn;
      OrdersCat(ps[1..], qs, id);
      assert OrdersIn([ps[0]], id) + (OrdersIn(ps[1..], id) + OrdersIn(qs, id)) == OrdersIn([ps[0]], id) + OrdersIn(ps[1..], id) + OrdersIn(qs, id);
    }
  }

  lemma OrdersCons(ps: seq<M.Packet>, id: nat)
    requires |ps| > 0
    ensures OrdersIn(ps, id) == OrdersIn([ps[0]], id) + OrdersIn(ps[1..], id)
  {
    hide M.Slot;
    var none := [ps[0]][1..];
    assert none == [] && OrdersIn(none, id) == [];
  }

  lemma {:induction false} PacketsOrder(s: M.Loop, ps: seq<M.Packet>, id: nat)
    ensures Orders(M.Packets(s, ps, id).log) == Orders(s.log) + OrdersIn(ps, id)
    decreases |ps|
  {
    hide M.Slot;
    if |ps| > 0 {
      var t := M.Decode(s, ps[0], id);
      if t.log != s.log {
        OrdersAppend(s.log, M.Last(t.log));
        M.Append(s.log, M.Last(t.log));
      }
      DecodeOrders(s, ps[0], id);
      hide Orders, M.Decode;
      PacketsOrder(t, ps[1..], id);
    }
  }

  lemma DecodeOrders(s: M.Loop, p: M.Packet, id: nat)
    ensures Orders(M.Decode(s, p, id).log) == Orders(s.log) + OrdersIn([p], id)
  {
    hide Orders, M.Slot;
    assert [p][1..] == [];
    match p {
      case Set(offset, range, _) => OrdersAppend(s.log, M.Started(M.Slot(offset, range, id)));
      case Detect => OrdersAppend(s.log, M.Stopped);
      case Static => OrdersAppend(s.log, M.Stopped);
      case Other =>
    }
  }

  /** The jobs begun and ended so far are those the bytes read so far ask for. */
  ghost predicate Follows(x: State, p: H.Parser, id: nat, hot: nat -> bool) {
    && H.Ok(p) && x.parser == H.Parse(p, x.read) && x.seen == |H.Frames(p, x.read)|
    && Orders(x.loop.log) == OrdersIn(PacketsOf(H.Frames(p, x.read), 0, hot), id)
  }

  lemma CallFollows(x: State, p: H.Parser, s: seq<byte>, id: nat, hot: nat -> bool)
    requires Ok(x) && Follows(x, p, id, hot)
    ensures Follows(Call(x, s, id, hot), p, id, hot)
  {
    hide H.Parse, H.Frames, PacketsOf, Orders, OrdersIn, M.Packets;
    H.Cut(p, x.read, s);
    PacketsCat(H.Frames(p, x.read), H.Frames(x.parser, s), 0, hot);
    PacketsOrder(x.loop, Packets(x, s, hot), id);
    OrdersCat(PacketsOf(H.Frames(p, x.read), 0, hot), Packets(x, s, hot), id);
  }

  /** Timeouts and works change nothing of that. */
  lemma OtherFollows(x: State, p: H.Parser, l: M.Loop, e: M.Entry, id: nat, hot: nat -> bool)
    requires Follows(x, p, id, hot) && l.log == x.loop.log + [e] && !e.Started? && !e.Stopped?
    ensures Follows(x.(loop := l), p, id, hot)
  {
    OrdersAppend(x.loop.log, e);
    assert Orders(x.loop.log) + [] == Orders(x.loop.log);
  }

  lemma {:induction false} ResultsFollow(x: State, p: H.Parser, rs: seq<seq<byte>>, id: nat, hot: nat -> bool)
    requires Ok(x) && Follows(x, p, id, hot)
    ensures Follows(Results(x, rs, id, hot), p, id, hot)
    decreases |rs|
  {
    hide Follows, Call;
    if |rs| > 0 {
      CallFollows(x, p, rs[0], id, hot);
      ResultsFollow(Call(x, rs[0], id, hot), p, rs[1..], id, hot);
    }
  }

  lemma IdleFollows(x: State, p: H.Parser, t: Turn, id: nat, hot: nat -> bool)
    requires Ok(x) && Follows(x, p, id, hot)
    ensures Follows(Idle(x, t), p, id, hot)
  {
    var y := Idle(x, t);
    hide Follows;
    if y != x {
      OtherFollows(x, p, y.loop, M.Idled, id, hot);
    }
  }

  lemma IterateFollows(x: State, p: H.Parser, t: Turn, id: nat, hot: nat -> bool)
    requires Ok(x) && Follows(x, p, id, hot)
    ensures Follows(Iterate(x, t, id, hot), p, id, hot)
  {
    hide Follows, Call, Results, Idle;
    CallFollows(x, p, t.first, id, hot);
    IdleFollows(Call(x, t.first, id, hot), p, t, id, hot);
    var a := Idle(Call(x, t.first, id, hot), t);
    if a.loop.stratum {
      if !t.room {
        ResultsFollow(a, p, t.results, id, hot);
      } else {
        OtherFollows(a, p, M.Make(a.loop), M.Generated(a.loop.nonce2), id, hot);
        var m := a.(loop := M.Make(a.loop));
        CallFollows(m, p, t.second, id, hot);
        var b := Call(m, t.second, id, hot);
        OtherFollows(b, p, M.Push(b.loop, a.loop.nonce2), M.Pushed(a.loop.nonce2), id, hot);
        ResultsFollow(b.(loop := M.Push(b.loop, a.loop.nonce2)), p, t.results, id, hot);
      }
    }
  }

  lemma {:induction false} RunFollows(x: State, p: H.Parser, ts: seq<Turn>, id: nat, hot: nat -> bool)
    requires Ok(x) && Follows(x, p, id, hot)
    ensures Follows(Run(x, ts, id, hot), p, id, hot)
    decreases |ts|
  {
    hide Follows, Iterate;
    if |ts| > 0 {
      IterateFollows(x, p, ts[0], id, hot);
      RunFollows(Iterate(x, ts[0], id, hot), p, ts[1..], id, hot);
    }
  }

  ghost function TurnsOf(x: State, ts: seq<Turn>, id: nat, hot: nat -> bool): seq<M.Turn>
    requires Ok(x)
    decreases |ts|
  {
    if |ts| == 0 then [] else [TurnOf(x, ts[0], id, hot)] + TurnsOf(Iterate(x, ts[0], id, hot), ts[1..], id, hot)
  }

  lemma {:induction false} RunRefines(x: State, ts: seq<Turn>, id: nat, hot: nat -> bool)
    requires Ok(x)
    ensures Run(x, ts, id, hot).loop == M.Run(x.loop, TurnsOf(x, ts, id, hot), id)
    decreases |ts|
  {
    hide Iterate, TurnOf, M.Iterate;
    if |ts| > 0 {
      IterateRefines(x, ts[0], id, hot);
      RunRefines(Iterate(x, ts[0], id, hot), ts[1..], id, hot);
      var all := TurnsOf(x, ts, id, hot);
      assert all[0] == TurnOf(x, ts[0], id, hot) && all[1..] == TurnsOf(Iterate(x, ts[0], id, hot), ts[1..], id, hot);
    }
  }

  lemma BeginFollows(x: State, id: nat, hot: nat -> bool)
    requires M.Initial(x.loop) && x.parser == H.INITIAL && x.read == [] && x.seen == 0
    ensures Ok(x) && Follows(x, H.INITIAL, id, hot)
  {}

  /** The host sends frames with garbage between them. In every run from the start of main in which no more than that has
      been read, cut into calls of get_pkg anyhow: the jobs begun and ended are exactly those the first n frames ask for, in
      order, all of them if everything has been read; and every work made and pushed is as the job loop promises. */
  lemma HostDrives(x: State, ts: seq<Turn>, id: nat, hot: nat -> bool, chunks: seq<H.Chunk>, g: seq<byte>, part: seq<byte>) returns (n: nat)
    requires M.Initial(x.loop) && x.parser == H.INITIAL && x.read == [] && x.seen == 0
    requires (forall c :: c in chunks ==> H.Clean(c)) && H.Tail(g, part)
    requires Ok(x) && Run(x, ts, id, hot).read <= H.Join(chunks) + (g + part)
    ensures var y := Run(x, ts, id, hot);
            && M.Good(y.loop.log)
            && n <= |H.FramesOf(chunks)|
            && Orders(y.loop.log) == OrdersIn(PacketsOf(H.FramesOf(chunks)[..n], 0, hot), id)
            && (y.read == H.Join(chunks) + (g + part) ==> n == |H.FramesOf(chunks)|)
  {
    hide Run, Orders, OrdersIn, PacketsOf, H.Parse, H.Frames, H.Clean, H.Tail, H.FramesOf, H.Join, M.Run, M.Good, TurnsOf;
    BeginFollows(x, id, hot);
    RunFollows(x, H.INITIAL, ts, id, hot);
    RunRefines(x, ts, id, hot);
    M.RunGood(x.loop, TurnsOf(x, ts, id, hot), id);
    var read, all := Run(x, ts, id, hot).read, H.Join(chunks) + (g + part);
    H.RecoveredWithTail(H.INITIAL, chunks, g, part);
    n := |H.Frames(H.INITIAL, read)|;
    assert all == read + all[|read|..];
    H.Cut(H.INITIAL, read, all[|read|..]);
    assert H.FramesOf(chunks)[..n] == H.Frames(H.INITIAL, read);
  }

  // What each frame does.

  /** The parser is between frames. */
  ghost predicate Hunting(x: State) { Ok(x) && !x.parser.start }

  lemma OneFrame(x: State, f: H.Frame, id: nat, hot: nat -> bool)
    requires Hunting(x) && H.IsFrame(f)
    ensures var y := Call(x, f, id, hot);
            && Hunting(y) && y.seen == x.seen + 1 && y.read == x.read + f
            && y.loop == if Accepted(f) then M.Decode(x.loop, PacketOf(f, hot(x.seen)), id) else x.loop
  {
    hide H.Parse, H.Frames, H.Feed, Accepted, PacketOf, M.Decode;
    H.FrameTaken(x.parser, f);
    FreshHunts(x.parser, f);
    PacketsCons([f], x.seen, hot);
    assert [f][1..] == [];
    NoPackets(x.loop, x.seen + 1, hot, id);
    if Accepted(f) {
      M.OnePacket(x.loop, PacketOf(f, hot(x.seen)), id);
      assert [PacketOf(f, hot(x.seen))] + PacketsOf([], x.seen + 1, hot) == [PacketOf(f, hot(x.seen))];
    }
  }

  lemma FreshHunts(p: H.Parser, f: H.Frame)
    requires H.Ok(p) && H.Fresh(H.Parse(p, f))
    ensures !H.Parse(p, f).start
  {}

  /** A DETECT frame, of type 10, or a STATIC frame, of type 11, ends the job. */
  lemma StopFrame(x: State, f: H.Frame, id: nat, hot: nat -> bool)
    requires Hunting(x) && H.IsFrame(f) && Accepted(f) && (f[2] == 10 || f[2] == 11)
    ensures Call(x, f, id, hot).loop == x.loop.(stratum := false, log := x.loop.log + [M.Stopped])
  {
    OneFrame(x, f, id, hot);
    hide Call, Accepted;
  }

  /** A SET frame, of type 19, begins one with the numbers at data bytes 12 and 16, unless a sensor is too hot. */
  lemma SetFrame(x: State, f: H.Frame, id: nat, hot: nat -> bool, offset: word, range: word)
    requires Hunting(x) && H.IsFrame(f) && Accepted(f) && f[2] == 19
    requires f[17..21] == Store(offset) && f[21..25] == Store(range)
    ensures var base := (offset as nat + range as nat / 4 * id) % 0x1_0000_0000;
            Call(x, f, id, hot).loop ==
            if hot(x.seen) then x.loop else M.Loop(true, offset as nat, range as nat, base, x.loop.log + [M.Started(base)])
  {
    hide Call, Accepted, PacketOf, Store;
    SetBrings(f, offset, range, hot(x.seen));
    JobBegins(x, f, id, hot, offset as nat, range as nat);
  }

  lemma JobBegins(x: State, f: H.Frame, id: nat, hot: nat -> bool, offset: nat, range: nat)
    requires Hunting(x) && H.IsFrame(f) && Accepted(f) && PacketOf(f, hot(x.seen)) == M.Set(offset, range, hot(x.seen))
    ensures var base := (offset + range / 4 * id) % 0x1_0000_0000;
            Call(x, f, id, hot).loop == if hot(x.seen) then x.loop else M.Loop(true, offset, range, base, x.loop.log + [M.Started(base)])
  {
    OneFrame(x, f, id, hot);
    hide Call, Accepted, PacketOf;
  }

  /** No other frame touches the job, and none with a wrong CRC. */
  lemma OtherFrame(x: State, f: H.Frame, id: nat, hot: nat -> bool)
    requires Hunting(x) && H.IsFrame(f) && (Accepted(f) ==> f[2] != 10 && f[2] != 11 && f[2] != 19)
    ensures Call(x, f, id, hot).loop == x.loop
  {
    OneFrame(x, f, id, hot);
    hide Call, Accepted;
  }

  /** What a call does to the bytes it reads it does to them frame by frame. */
  lemma CallSplit(x: State, a: seq<byte>, b: seq<byte>, id: nat, hot: nat -> bool)
    requires Ok(x)
    ensures Call(x, a + b, id, hot) == Call(Call(x, a, id, hot), b, id, hot)
  {
    hide H.Parse, H.Frames, M.Packets, PacketsOf;
    H.Cut(x.parser, a, b);
    var fs, gs := H.Frames(x.parser, a), H.Frames(H.Parse(x.parser, a), b);
    PacketsCat(fs, gs, x.seen, hot);
    PacketsTwice(x.loop, PacketsOf(fs, x.seen, hot), PacketsOf(gs, x.seen + |fs|, hot), id);
    assert x.read + (a + b) == x.read + a + b;
  }

  /** Garbage before it makes no difference. */
  lemma GarbageFirst(x: State, g: seq<byte>, f: H.Frame, id: nat, hot: nat -> bool)
    requires Ok(x) && H.Fresh(x.parser) && H.Quiet(g)
    ensures var y := Call(x, g, id, hot);
            Hunting(y) && y.loop == x.loop && y.seen == x.seen && Call(x, g + f, id, hot) == Call(y, f, id, hot)
  {
    hide H.Parse, H.Frames, H.Feed, H.Quiet;
    CallSplit(x, g, f, id, hot);
    H.QuietAfter(x.parser, g);
    H.QuietHunts(x.parser, g);
    NoPackets(x.loop, x.seen, hot, id);
  }

  // No work between a stop and the next SET.

  /** The n-th frame handed over begins a job. */
  ghost predicate BeginsJob(f: H.Frame, n: nat, hot: nat -> bool) { Accepted(f) && f[2] == 19 && !hot(n) }

  ghost predicate NoneBegins(fs: seq<H.Frame>, from: nat, hot: nat -> bool) {
    forall k :: 0 <= k < |fs| ==> !BeginsJob(fs[k], from + k, hot)
  }

  lemma {:induction false} StaysStopped(fs: seq<H.Frame>, from: nat, hot: nat -> bool)
    requires NoneBegins(fs, from, hot)
    ensures !M.Gate(false, PacketsOf(fs, from, hot))
    decreases |fs|
  {
    hide H.CrcOk, Number;
    if |fs| > 0 {
      assert !BeginsJob(fs[0], from + 0, hot);
      forall k | 0 <= k < |fs| - 1
        ensures !BeginsJob(fs[1..][k], from + 1 + k, hot)
      {
        assert !BeginsJob(fs[k + 1], from + (k + 1), hot);
      }
      StaysStopped(fs[1..], from + 1, hot);
      PacketsCons(fs, from, hot);
      if Accepted(fs[0]) {
        var ps := PacketsOf(fs, from, hot);
        assert ps[0] == PacketOf(fs[0], hot(from)) && ps[1..] == PacketsOf(fs[1..], from + 1, hot);
      } else {
        assert [] + PacketsOf(fs[1..], from + 1, hot) == PacketsOf(fs[1..], from + 1, hot);
      }
    }
  }

  /** The bytes a run reads. */
  lemma {:induction false} ReadsOn(x: State, ts: seq<Turn>, id: nat, hot: nat -> bool)
    requires Ok(x)
    ensures x.read <= Run(x, ts, id, hot).read
    decreases |ts|
  {
    hide Iterate;
    if |ts| > 0 {
      IterateReads(x, ts[0], id, hot);
      ReadsOn(Iterate(x, ts[0], id, hot), ts[1..], id, hot);
    }
  }

  lemma {:induction false} ResultsRead(x: State, rs: seq<seq<byte>>, id: nat, hot: nat -> bool)
    requires Ok(x)
    ensures x.read <= Results(x, rs, id, hot).read
    decreases |rs|
  {
    if |rs| > 0 {
      var y := Call(x, rs[0], id, hot);
      assert x.read <= y.read;
      hide Call;
      if y.loop.stratum {
        ResultsRead(y, rs[1..], id, hot);
      }
    }
  }

  lemma IterateReads(x: State, t: Turn, id: nat, hot: nat -> bool)
    requires Ok(x)
    ensures x.read <= Iterate(x, t, id, hot).read
    ensures x.read + t.first <= Iterate(x, t, id, hot).read
  {
    var a := Idle(Call(x, t.first, id, hot), t);
    assert a.read == x.read + t.first;
    var m := a.(loop := M.Make(a.loop));
    var b := Call(m, t.second, id, hot);
    assert b.read == a.read + t.second;
    ResultsRead(a, t.results, id, hot);
    ResultsRead(b.(loop := M.Push(b.loop, a.loop.nonce2)), t.results, id, hot);
    hide Call, Results, Idle;
  }

  /** One iteration with no job running and none begun. */
  lemma IdleIteration(x: State, t: Turn, id: nat, hot: nat -> bool)
    requires Ok(x) && !x.loop.stratum && NoneBegins(H.Frames(x.parser, t.first), x.seen, hot)
    ensures var y := Iterate(x, t, id, hot);
            && !y.loop.stratum && M.Works(y.loop.log) == M.Works(x.loop.log)
            && y.read == x.read + t.first && y.parser == H.Parse(x.parser, t.first) && y.seen == x.seen + |H.Frames(x.parser, t.first)|
  {
    hide H.Parse, H.Frames, M.Packets, PacketsOf, M.Works, M.Gate;
    StaysStopped(H.Frames(x.parser, t.first), x.seen, hot);
    M.PacketsGate(x.loop, Packets(x, t.first, hot), id);
    var c := Call(x, t.first, id, hot);
    M.WorksAppend(c.loop.log, M.Idled);
    assert M.Works(c.loop.log) + [] == M.Works(c.loop.log);
  }

  /** After a DETECT or STATIC frame, as long as no SET frame that begins a job has been read, no work is pushed, whatever
      the timer, the sensors, the FIFO and the results do. */
  lemma {:induction false} NoWorkUntilSet(x: State, ts: seq<Turn>, id: nat, hot: nat -> bool, tail: seq<byte>)
    requires Ok(x) && !x.loop.stratum && Run(x, ts, id, hot).read == x.read + tail
    requires NoneBegins(H.Frames(x.parser, tail), x.seen, hot)
    ensures var y := Run(x, ts, id, hot); !y.loop.stratum && M.Works(y.loop.log) == M.Works(x.loop.log)
    decreases |ts|
  {
    hide H.Parse, H.Frames, M.Works, Iterate, Run;
    RunStep(x, ts, id, hot);
    if |ts| > 0 {
      var t := ts[0];
      var y := Iterate(x, t, id, hot);
      IterateReads(x, t, id, hot);
      ReadsOn(y, ts[1..], id, hot);
      var first, rest := t.first, tail[|t.first|..];
      FirstOfTail(x.read, first, y.read, Run(y, ts[1..], id, hot).read, tail);
      H.Cut(x.parser, first, rest);
      NoneInParts(H.Frames(x.parser, first), H.Frames(H.Parse(x.parser, first), rest), x.seen, hot);
      IdleIteration(x, t, id, hot);
      assert x.read + tail == y.read + rest;
      NoWorkUntilSet(y, ts[1..], id, hot, rest);
    }
  }

  lemma RunStep(x: State, ts: seq<Turn>, id: nat, hot: nat -> bool)
    requires Ok(x)
    ensures if |ts| == 0 then Run(x, ts, id, hot) == x else Run(x, ts, id, hot) == Run(Iterate(x, ts[0], id, hot), ts[1..], id, hot)
  {
    hide Iterate;
  }

  lemma FirstOfTail(read: seq<byte>, first: seq<byte>, mid: seq<byte>, end: seq<byte>, tail: seq<byte>)
    requires read + first <= mid <= end == read + tail
    ensures |first| <= |tail| && tail == first + tail[|first|..] && read + tail == read + first + tail[|first|..]
  {
    assert (read + tail)[|read|..] == tail;
    assert (read + first)[|read|..] == first;
    assert first == tail[..|first|];
  }

  lemma NoneInParts(fs: seq<H.Frame>, gs: seq<H.Frame>, from: nat, hot: nat -> bool)
    requires NoneBegins(fs + gs, from, hot)
    ensures NoneBegins(fs, from, hot) && NoneBegins(gs, from + |fs|, hot)
  {
    hide BeginsJob;
    var all := fs + gs;
    forall k | 0 <= k < |fs|
      ensures !BeginsJob(fs[k], from + k, hot)
    {
      assert all[k] == fs[k];
    }
    forall k | 0 <= k < |gs|
      ensures !BeginsJob(gs[k], from + |fs| + k, hot)
    {
      assert all[|fs| + k] == gs[k];
      assert !BeginsJob(all[|fs| + k], from + (|fs| + k), hot);
    }
  }

  // The code.

  lemma OneMoreFrame(fs: seq<H.Frame>, from: nat, hot: nat -> bool, n: nat)
    requires n < |fs|
    ensures PacketsOf(fs[..n + 1], from, hot) ==
            PacketsOf(fs[..n], from, hot) + if Accepted(fs[n]) then [PacketOf(fs[n], hot(from + n))] else []
  {
    PacketsCat(fs[..n], [fs[n]], from, hot);
    assert fs[..n + 1] == fs[..n] + [fs[n]];
    assert [fs[n]][1..] == [];
    hide Accepted, PacketOf;
  }

  lemma {:induction false} PacketsTwice(s: M.Loop, ps: seq<M.Packet>, qs: seq<M.Packet>, id: nat)
    ensures M.Packets(s, ps + qs, id) == M.Packets(M.Packets(s, ps, id), qs, id)
    decreases |ps|
  {
    hide M.Decode;
    if |ps| == 0 {
      assert ps + qs == qs;
    } else {
      PacketsTwice(M.Decode(s, ps[0], id), ps[1..], qs, id);
      assert (ps + qs)[0] == ps[0] && (ps + qs)[1..] == ps[1..] + qs;
    }
  }

  /** get_pkg with decode_pkg: the frames found are decoded in order; one with a wrong CRC ends the call. */
  method GetPkg(link: H.Link, main: M.Main, input: seq<byte>, ready: seq<bool>, seen: nat, hot: nat -> bool) returns (n: nat)
    requires link.Valid()
    modifies link`start, link`count, link`preLast, link`last, link.g_pkg, main
    ensures link.Valid() && n <= |input| && link.View() == H.Parse(old(link.View()), input[..n])
    ensures main.View() == M.Packets(old(main.View()), PacketsOf(H.Frames(old(link.View()), input[..n]), seen, hot), main.moduleId)
  {
    hide H.Parse, H.Frames, H.CrcOk, M.Packets, PacketsOf, PacketOf;
    var failed, frames;
    n, failed, frames := link.GetPkg(input, ready);
    var count := if failed then |frames| - 1 else |frames|;
    assert frames[..0] == [];
    NoPackets(main.View(), seen, hot, main.moduleId);
    for i := 0 to count
      invariant main.View() == M.Packets(old(main.View()), PacketsOf(frames[..i], seen, hot), main.moduleId)
      invariant link.Valid() && link.View() == H.Parse(old(link.View()), input[..n])
    {
      OneMoreFrame(frames, seen, hot, i);
      var p := PacketOf(frames[i], hot(seen + i));
      PacketsTwice(old(main.View()), PacketsOf(frames[..i], seen, hot), [p], main.moduleId);
      M.OnePacket(main.View(), p, main.moduleId);
      main.DecodePkg(p);
    }
    if failed {
      OneMoreFrame(frames, seen, hot, count);
      assert PacketsOf(frames[..count], seen, hot) + [] == PacketsOf(frames[..count], seen, hot);
    }
    assert frames[..|frames|] == frames;
  }

  lemma NoPackets(s: M.Loop, seen: nat, hot: nat -> bool, id: nat)
    ensures M.Packets(s, PacketsOf([], seen, hot), id) == s
  {}
}
