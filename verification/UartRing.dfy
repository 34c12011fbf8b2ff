/** firmware/uart.c: the receive ring between the interrupt handler and uart_read. */
module UartRing {
  import opened Words

  const SIZE := 1024

  /** Where uart_read stands: before its wait loop, past it, or with the byte loaded and the index not yet advanced. */
  datatype Place = Waiting | Ready | Loaded(c: byte)

  /** rx_buf, rx_produce and rx_consume, and the reader. */
  datatype Ring = Ring(buf: seq<byte>, produce: nat, consume: nat, place: Place)

  /** The interrupt handler runs to completion between two statements of uart_read; the bytes are those it finds. */
  datatype Event = Interrupt(bytes: seq<byte>) | Statement

  predicate Sized(r: Ring) { |r.buf| == SIZE && r.produce < SIZE && r.consume < SIZE }

  function Receive(r: Ring, b: byte): (t: Ring)
    requires Sized(r)
    ensures Sized(t)
  {
    r.(buf := r.buf[r.produce := b], produce := (r.produce + 1) % SIZE)
  }

  function Interrupted(r: Ring, bytes: seq<byte>): (t: Ring)
    requires Sized(r)
    ensures Sized(t)
    decreases |bytes|
  {
    if |bytes| == 0 then r else Interrupted(Receive(r, bytes[0]), bytes[1..])
  }

  /** The next statement of uart_read. */
  function Stepped(r: Ring): (t: Ring)
    requires Sized(r)
    ensures Sized(t)
  {
    match r.place
    case Waiting => if r.consume == r.produce then r else r.(place := Ready)
    case Ready => r.(place := Loaded(r.buf[r.consume]))
    case Loaded(_) => r.(consume := (r.consume + 1) % SIZE, place := Waiting)
  }

  /** uart_read_nonblock */
  predicate NonBlock(r: Ring) { r.consume != r.produce }

  function After(r: Ring, e: Event): (t: Ring)
    requires Sized(r)
    ensures Sized(t)
  {
    match e
    case Interrupt(bytes) => Interrupted(r, bytes)
    case Statement => Stepped(r)
  }

  /** The byte uart_read returns with its last statement. */
  function Returned(r: Ring, e: Event): seq<byte> {
    if e.Statement? && r.place.Loaded? then [r.place.c] else []
  }

  function Arrived(e: Event): seq<byte> {
    match e
    case Interrupt(bytes) => bytes
    case Statement => []
  }

  // Whole runs.

  function Run(r: Ring, es: seq<Event>): (t: Ring)
    requires Sized(r)
    ensures Sized(t)
    decreases |es|
  {
    if |es| == 0 then r else Run(After(r, es[0]), es[1..])
  }

  /** All bytes received, in order. */
  function Received(es: seq<Event>): seq<byte> {
    if |es| == 0 then [] else Arrived(es[0]) + Received(es[1..])
  }

  /** All bytes uart_read has returned, in order. */
  function ReadBytes(r: Ring, es: seq<Event>): seq<byte>
    requires Sized(r)
    decreases |es|
  {
    if |es| == 0 then [] else Returned(r, es[0]) + ReadBytes(After(r, es[0]), es[1..])
  }

  /** At no moment more than limit bytes are unread, starting with so many. */
  predicate Bounded(r: Ring, es: seq<Event>, unread: nat, limit: nat)
    requires Sized(r)
    decreases |es|
  {
    && unread <= limit
    && (|es| > 0 ==>
          var left := unread + |Arrived(es[0])| - |Returned(r, es[0])|;
          left >= 0 && Bounded(After(r, es[0]), es[1..], left, limit))
  }

  /** The ring after p bytes came in, the list of which is h, and c were read. */
  ghost predicate Holds(r: Ring, h: seq<byte>, c: nat) {
    && Sized(r) && c <= |h| && r.produce == |h| % SIZE && r.consume == c % SIZE
    && (forall i :: c <= i < |h| ==> r.buf[i % SIZE] == h[i])
    && (r.place.Ready? ==> c < |h|)
    && (r.place.Loaded? ==> c < |h| && r.place.c == h[c])
  }

  lemma Apart(i: nat, j: nat)
    requires i < j < i + SIZE
    ensures i % SIZE != j % SIZE
  {}

  lemma NextSlot(n: nat)
    ensures (n % SIZE + 1) % SIZE == (n + 1) % SIZE
  {}

  lemma ReceiveHolds(r: Ring, h: seq<byte>, c: nat, b: byte)
    requires Holds(r, h, c) && |h| + 1 - c <= SIZE
    ensures Holds(Receive(r, b), h + [b], c)
  {
    NextSlot(|h|);
    var t := Receive(r, b);
    forall i | c <= i < |h| + 1
      ensures t.buf[i % SIZE] == (h + [b])[i]
    {
      if i < |h| {
        Apart(i, |h|);
      }
    }
  }

  lemma {:induction false} InterruptHolds(r: Ring, h: seq<byte>, c: nat, bytes: seq<byte>)
    requires Holds(r, h, c) && |h| + |bytes| - c <= SIZE
    ensures Holds(Interrupted(r, bytes), h + bytes, c)
    decreases |bytes|
  {
    hide Holds, Receive;
    if |bytes| == 0 {
      assert h + bytes == h;
    } else {
      Count(r, h, c);
      ReceiveHolds(r, h, c, bytes[0]);
      InterruptHolds(Receive(r, bytes[0]), h + [bytes[0]], c, bytes[1..]);
      assert h + [bytes[0]] + bytes[1..] == h + bytes;
    }
  }

  lemma Count(r: Ring, h: seq<byte>, c: nat)
    requires Holds(r, h, c)
    ensures Sized(r) && c <= |h| && (r.place.Loaded? ==> c < |h| && Returned(r, Statement) == [h[c]])
  {}

  /** With fewer than 1024 bytes unread the indices differ exactly when a byte is unread. */
  lemma NonBlockExact(r: Ring, h: seq<byte>, c: nat)
    requires Holds(r, h, c) && |h| - c < SIZE
    ensures NonBlock(r) <==> c < |h|
  {
    if c < |h| {
      Apart(c, |h|);
    }
  }

  /** With exactly 1024 unread the ring looks empty: uart_read waits although a full buffer is there. */
  lemma FullLooksEmpty(r: Ring, h: seq<byte>, c: nat)
    requires Holds(r, h, c) && |h| - c == SIZE
    ensures !NonBlock(r) && (r.place.Waiting? ==> Stepped(r) == r)
  {
    assert |h| % SIZE == c % SIZE;
  }

  /** And one byte more makes it look as if that byte were the only one: the 1024 before it are lost. */
  lemma OverrunLosesAll(r: Ring, h: seq<byte>, c: nat, b: byte)
    requires Holds(r, h, c) && |h| - c == SIZE && r.place.Waiting?
    ensures var t := Receive(r, b); Stepped(Stepped(t)).place == Loaded(b) && !NonBlock(Stepped(Stepped(Stepped(t))))
  {
    assert |h| % SIZE == c % SIZE;
    NextSlot(c);
  }

  lemma StatementHolds(r: Ring, h: seq<byte>, c: nat)
    requires Holds(r, h, c) && |h| - c < SIZE
    ensures Holds(Stepped(r), h, c + |Returned(r, Statement)|)
  {
    NonBlockExact(r, h, c);
    NextSlot(c);
  }

  lemma EventHolds(r: Ring, h: seq<byte>, c: nat, e: Event)
    requires Holds(r, h, c) && |h| - c < SIZE && |h| + |Arrived(e)| - c - |Returned(r, e)| < SIZE
    ensures Holds(After(r, e), h + Arrived(e), c + |Returned(r, e)|)
    ensures Returned(r, e) == (h + Arrived(e))[c..c + |Returned(r, e)|]
  {
    hide Holds, Interrupted, Stepped;
    Count(r, h, c);
    if e.Statement? {
      StatementHolds(r, h, c);
      Count(Stepped(r), h, c + |Returned(r, Statement)|);
      assert h + [] == h;
    } else {
      InterruptHolds(r, h, c, e.bytes);
    }
  }

  /** Under every interleaving of interrupts with the statements of uart_read in which at most 1023 bytes are ever
      unread, the bytes read are the first of the bytes received, in order, and the ring holds all others. */
  lemma {:induction false} Fifo(r: Ring, h: seq<byte>, c: nat, es: seq<Event>)
    requires Holds(r, h, c) && Bounded(r, es, |h| - c, SIZE - 1)
    ensures c + |ReadBytes(r, es)| <= |h + Received(es)|
    ensures h[..c] + ReadBytes(r, es) == (h + Received(es))[..c + |ReadBytes(r, es)|]
    ensures Holds(Run(r, es), h + Received(es), c + |ReadBytes(r, es)|)
    ensures |h + Received(es)| - (c + |ReadBytes(r, es)|) < SIZE
    decreases |es|
  {
    hide Holds, After, Arrived, Returned;
    Count(r, h, c);
    if |es| == 0 {
      assert h + Received(es) == h;
      assert h[..c] + [] == h[..c];
    } else {
      var e, rest := es[0], es[1..];
      var h', c' := h + Arrived(e), c + |Returned(r, e)|;
      assert es == [e] + rest;
      Small(r, e, rest, |h| - c, SIZE - 1);
      EventHolds(r, h, c, e);
      FirstEvent(r, es);
      hide Run, ReadBytes, Received, Bounded;
      Fifo(After(r, e), h', c', rest);
      Later(h, Arrived(e), Received(rest));
      Glue(h, h', c, Returned(r, e), ReadBytes(After(r, e), rest), h' + Received(rest));
    }
  }

  lemma Small(r: Ring, e: Event, rest: seq<Event>, unread: nat, limit: nat)
    requires Sized(r) && Bounded(r, [e] + rest, unread, limit)
    ensures var left := unread + |Arrived(e)| - |Returned(r, e)|; 0 <= left <= limit && Bounded(After(r, e), rest, left, limit)
  {
    hide After, Arrived, Returned;
    assert ([e] + rest)[0] == e && ([e] + rest)[1..] == rest;
  }

  lemma FirstEvent(r: Ring, es: seq<Event>)
    requires Sized(r) && |es| > 0
    ensures Run(r, es) == Run(After(r, es[0]), es[1..]) && Received(es) == Arrived(es[0]) + Received(es[1..])
    ensures ReadBytes(r, es) == Returned(r, es[0]) + ReadBytes(After(r, es[0]), es[1..])
  {
    hide After, Arrived, Returned;
  }

  lemma Later(h: seq<byte>, a: seq<byte>, b: seq<byte>)
    ensures h + a + b == h + (a + b)
  {}

  lemma Glue(h: seq<byte>, h': seq<byte>, c: nat, x: seq<byte>, y: seq<byte>, all: seq<byte>)
    requires c <= |h| && h <= h' <= all && c + |x| <= |h'| && x == h'[c..c + |x|]
    requires c + |x| + |y| <= |all| && h'[..c + |x|] + y == all[..c + |x| + |y|]
    ensures h[..c] + (x + y) == all[..c + |x + y|]
  {
    assert h'[..c + |x|] == h[..c] + x;
    assert h[..c] + (x + y) == (h[..c] + x) + y;
  }

  const RESET := Ring(seq(SIZE, _ => 0), 0, 0, Waiting)

  /** From uart_init on. */
  lemma ReadIsPrefix(es: seq<Event>)
    requires Bounded(RESET, es, 0, SIZE - 1)
    ensures ReadBytes(RESET, es) <= Received(es)
    ensures NonBlock(Run(RESET, es)) <==> ReadBytes(RESET, es) != Received(es)
  {
    hide Run, ReadBytes, Received, Bounded;
    assert Holds(RESET, [], 0);
    Fifo(RESET, [], 0, es);
    var h, c := [] + Received(es), 0 + |ReadBytes(RESET, es)|;
    assert h == Received(es);
    assert [] + ReadBytes(RESET, es) == ReadBytes(RESET, es);
    NonBlockExact(Run(RESET, es), h, c);
  }

  /** The module's static state; rx_buf is written by the handler while uart_read reads it. */
  class Uart {
    var rx_buf: array<byte>
    var rx_produce: nat
    var rx_consume: nat
    ghost var place: Place

    ghost predicate Valid()
      reads this, rx_buf
    {
      rx_buf.Length == SIZE && rx_produce < SIZE && rx_consume < SIZE
    }

    ghost function View(): (r: Ring)
      requires Valid()
      ensures Sized(r)
      reads this, rx_buf
    {
      Ring(rx_buf[..], rx_produce, rx_consume, place)
    }

    /** uart_init, with rx_buf in the zeroed data segment. */
    constructor ()
      ensures Valid() && View() == RESET && fresh(rx_buf)
    {
      rx_buf := new byte[SIZE](_ => 0);
      rx_produce, rx_consume, place := 0, 0, Waiting;
      new;
      assert rx_buf[..] == RESET.buf;
    }

    /** uart_isr: the bytes the receiver holds, until it reports none. */
    method Isr(fifo: seq<byte>)
      requires Valid()
      modifies this`rx_produce, rx_buf
      ensures Valid() && View() == Interrupted(old(View()), fifo)
    {
      hide Receive;
      var i := 0;
      assert fifo[0..] == fifo;
      while i < |fifo|
        invariant i <= |fifo| && Valid()
        invariant Interrupted(View(), fifo[i..]) == Interrupted(old(View()), fifo)
      {
        assert fifo[i..][1..] == fifo[i + 1..];
        Take(fifo[i]);
        i := i + 1;
      }
    }

    method Take(b: byte)
      requires Valid()
      modifies this`rx_produce, rx_buf
      ensures Valid() && View() == Receive(old(View()), b)
    {
      rx_buf[rx_produce] := b;
      rx_produce := (rx_produce + 1) % SIZE;
    }

    /** uart_read, interrupted before each evaluation of its loop condition and each further statement.
        polls are the bytes found by the handler before each evaluation; the last evaluation finds the ring not empty. */
    method Read(polls: seq<seq<byte>>, beforeLoad: seq<byte>, beforeAdvance: seq<byte>) returns (done: bool, c: byte, ghost es: seq<Event>)
      requires Valid() && place == Waiting
      modifies this, rx_buf
      ensures Valid() && rx_buf == old(rx_buf)
      ensures View() == Run(old(View()), es)
      ensures ReadBytes(old(View()), es) == if done then [c] else []
      ensures done ==> place == Waiting
    {
      hide Interrupted, Stepped;
      ghost var r0 := View();
      var i := 0;
      var waiting := true;
      es := [];
      while i < |polls| && waiting
        invariant i <= |polls| && Valid() && rx_buf == old(rx_buf) && place == if waiting then Waiting else Ready
        invariant View() == Run(r0, es) && ReadBytes(r0, es) == []
      {
        Isr(polls[i]);
        RunOn(r0, es, Interrupt(polls[i]));
        es := es + [Interrupt(polls[i])];
        waiting := rx_consume == rx_produce;
        RunOn(r0, es, Statement);
        es := es + [Statement];
        assert Stepped(View()) == View().(place := if waiting then Waiting else Ready) by { PollStep(View()); }
        place := if waiting then Waiting else Ready;
        i := i + 1;
      }
      done, c := !waiting, 0;
      if waiting { return; }
      Isr(beforeLoad);
      RunOn(r0, es, Interrupt(beforeLoad));
      es := es + [Interrupt(beforeLoad)];
      c := rx_buf[rx_consume];
      RunOn(r0, es, Statement);
      es := es + [Statement];
      LoadStep(View());
      place := Loaded(c);
      Isr(beforeAdvance);
      RunOn(r0, es, Interrupt(beforeAdvance));
      es := es + [Interrupt(beforeAdvance)];
      RunOn(r0, es, Statement);
      es := es + [Statement];
      AdvanceStep(View());
      rx_consume := (rx_consume + 1) % SIZE;
      place := Waiting;
    }
  }

  lemma PollStep(r: Ring)
    requires Sized(r) && r.place.Waiting?
    ensures Stepped(r) == r.(place := if r.consume == r.produce then Waiting else Ready)
  {}

  lemma LoadStep(r: Ring)
    requires Sized(r) && r.place.Ready?
    ensures Stepped(r) == r.(place := Loaded(r.buf[r.consume]))
  {}

  lemma AdvanceStep(r: Ring)
    requires Sized(r) && r.place.Loaded?
    ensures Stepped(r) == r.(consume := (r.consume + 1) % SIZE, place := Waiting)
  {}

  lemma {:induction false} RunOn(r: Ring, es: seq<Event>, e: Event)
    requires Sized(r)
    ensures Run(r, es + [e]) == After(Run(r, es), e)
    ensures ReadBytes(r, es + [e]) == ReadBytes(r, es) + Returned(Run(r, es), e)
    decreases |es|
  {
    hide After, Returned;
    if |es| == 0 {
      assert es + [e] == [e];
      assert [e][1..] == [];
    } else {
      RunOn(After(r, es[0]), es[1..], e);
      assert (es + [e])[0] == es[0] && (es + [e])[1..] == es[1..] + [e];
    }
  }
}
