/** firmware/main.c, get_pkg and the check in decode_pkg: frames out of a byte stream. */
module HostLink {
  import opened Words
  import opened Bytes
  import opened Gf2
  import opened Crc16
  import UartRing

  const H1: byte := 0x41
  const H2: byte := 0x56
  const COUNT := 39

  type Frame = seq<byte>

  /** The static variables of get_pkg, and g_pkg. */
  datatype Parser = Parser(start: bool, count: nat, preLast: byte, last: byte, pkg: seq<byte>)

  predicate Ok(p: Parser) {
    && |p.pkg| == COUNT && 2 <= p.count < COUNT && (!p.start ==> p.count == 2)
    && (p.start ==> p.pkg[0] == H1 && p.pkg[1] == H2)
  }

  const INITIAL := Parser(false, 2, 0, 0, seq(COUNT, _ => 0))

  /** What one byte does, and the frame it completes. */
  datatype Fed = Fed(parser: Parser, out: seq<Frame>)

  function Feed(p: Parser, b: byte): (f: Fed)
    requires Ok(p)
    ensures Ok(f.parser)
  {
    if p.start then
      var pkg := p.pkg[p.count := b];
      if p.count + 1 == COUNT then Fed(Parser(false, 2, 0, 0, pkg), [pkg])
      else Fed(Parser(true, p.count + 1, p.last, b, pkg), [])
    else if p.last == H1 && b == H2 then Fed(Parser(true, 2, p.last, b, p.pkg[0 := p.last][1 := b]), [])
    else Fed(Parser(false, 2, p.last, b, p.pkg), [])
  }

  function Parse(p: Parser, s: seq<byte>): (q: Parser)
    requires Ok(p)
    ensures Ok(q)
    decreases |s|
  {
    if |s| == 0 then p else Parse(Feed(p, s[0]).parser, s[1..])
  }

  /** The frames handed to decode_pkg. */
  function Frames(p: Parser, s: seq<byte>): seq<Frame>
    requires Ok(p)
    decreases |s|
  {
    if |s| == 0 then [] else Feed(p, s[0]).out + Frames(Feed(p, s[0]).parser, s[1..])
  }

  lemma OneByte(p: Parser, s: seq<byte>)
    requires Ok(p) && |s| > 0
    ensures var f := Feed(p, s[0]); Parse(p, s) == Parse(f.parser, s[1..]) && Frames(p, s) == f.out + Frames(f.parser, s[1..])
  {}

  /** A stream may be cut anywhere. */
  lemma {:induction false} Cut(p: Parser, a: seq<byte>, b: seq<byte>)
    requires Ok(p)
    ensures Parse(p, a + b) == Parse(Parse(p, a), b)
    ensures Frames(p, a + b) == Frames(p, a) + Frames(Parse(p, a), b)
    decreases |a|
  {
    if |a| == 0 {
      assert a + b == b;
    } else {
      hide Feed, Parse, Frames;
      Cut(Feed(p, a[0]).parser, a[1..], b);
      var s := a + b;
      assert s[0] == a[0] && s[1..] == a[1..] + b;
      OneByte(p, a);
      OneByte(p, s);
    }
  }

  function Concat(parts: seq<seq<byte>>): seq<byte> {
    if |parts| == 0 then [] else parts[0] + Concat(parts[1..])
  }

  /** The frames of a sequence of calls, each taking its part of the stream. */
  function CallFrames(p: Parser, parts: seq<seq<byte>>): seq<Frame>
    requires Ok(p)
    decreases |parts|
  {
    if |parts| == 0 then [] else Frames(p, parts[0]) + CallFrames(Parse(p, parts[0]), parts[1..])
  }

  /** It does not matter how the bytes are split over calls of get_pkg. */
  lemma {:induction false} SplitAnywhere(p: Parser, parts: seq<seq<byte>>)
    requires Ok(p)
    ensures CallFrames(p, parts) == Frames(p, Concat(parts))
    decreases |parts|
  {
    if |parts| > 0 {
      SplitAnywhere(Parse(p, parts[0]), parts[1..]);
      Cut(p, parts[0], Concat(parts[1..]));
    }
  }

  // Framing and its inverse.

  predicate IsFrame(f: Frame) { |f| == COUNT && f[0] == H1 && f[1] == H2 }

  predicate PairAt(s: seq<byte>, i: nat) { i + 1 < |s| && s[i] == H1 && s[i + 1] == H2 }

  ghost predicate Quiet(g: seq<byte>) { forall i: nat :: !PairAt(g, i) }

  /** Garbage without an AV pair, then a frame. */
  datatype Chunk = Chunk(garbage: seq<byte>, frame: Frame)

  ghost predicate Clean(c: Chunk) { Quiet(c.garbage) && IsFrame(c.frame) }

  function Join(chunks: seq<Chunk>): seq<byte> {
    if |chunks| == 0 then [] else chunks[0].garbage + chunks[0].frame + Join(chunks[1..])
  }

  function FramesOf(chunks: seq<Chunk>): seq<Frame> {
    if |chunks| == 0 then [] else [chunks[0].frame] + FramesOf(chunks[1..])
  }

  /** Hunting, with no A just seen. */
  predicate Fresh(p: Parser) { Ok(p) && !p.start && p.last != H1 }

  /** Bytes without a pair, the previous byte included, leave the parser hunting. */
  lemma {:induction false} QuietHunts(p: Parser, g: seq<byte>)
    requires Ok(p) && !p.start && Quiet([p.last] + g)
    ensures Frames(p, g) == [] && !Parse(p, g).start
    ensures Parse(p, g).last == ([p.last] + g)[|g|]
    decreases |g|
  {
    if |g| > 0 {
      var h := [p.last] + g;
      assert !PairAt(h, 0);
      assert [g[0]] + g[1..] == h[1..];
      forall i: nat
        ensures !PairAt(h[1..], i)
      {
        assert !PairAt(h, i + 1);
      }
      QuietHunts(Feed(p, g[0]).parser, g[1..]);
    }
  }

  lemma QuietAfter(p: Parser, g: seq<byte>)
    requires Fresh(p) && Quiet(g)
    ensures Quiet([p.last] + g)
  {
    var h := [p.last] + g;
    forall i: nat
      ensures !PairAt(h, i)
    {
      assert i > 0 ==> !PairAt(g, i - 1);
    }
  }

  lemma NoBytes(p: Parser, s: seq<byte>)
    requires Ok(p) && |s| == 0
    ensures Parse(p, s) == p && Frames(p, s) == []
  {}

  lemma FeedInside(p: Parser, b: byte)
    requires Ok(p) && p.start
    ensures var f := Feed(p, b);
            && f.parser.pkg[..p.count + 1] == p.pkg[..p.count] + [b]
            && if p.count + 1 == COUNT then !f.parser.start && f.parser.last == 0 && f.out == [p.pkg[..p.count] + [b]]
               else f.parser.start && f.parser.count == p.count + 1 && f.out == []
  {
    assert p.pkg[p.count := b][..p.count + 1] == p.pkg[..p.count] + [b];
    assert p.count + 1 == COUNT ==> p.pkg[p.count := b][..p.count + 1] == p.pkg[p.count := b];
  }

  /** Inside a frame bytes are collected until it is complete. */
  lemma {:induction false} Collect(p: Parser, w: seq<byte>)
    requires Ok(p) && p.start && 0 < |w| <= COUNT - p.count
    ensures var f := p.pkg[..p.count] + w;
            if |w| == COUNT - p.count then Frames(p, w) == [f] && !Parse(p, w).start && Parse(p, w).last == 0
            else Frames(p, w) == [] && Parse(p, w).start && Parse(p, w).count == p.count + |w| && Parse(p, w).pkg[..p.count + |w|] == f
    decreases |w|
  {
    hide Parse, Frames, Feed;
    OneByte(p, w);
    FeedInside(p, w[0]);
    var q := Feed(p, w[0]).parser;
    if |w| == 1 {
      assert w == [w[0]];
      NoBytes(q, w[1..]);
    } else {
      Collect(q, w[1..]);
      assert p.pkg[..p.count] + [w[0]] + w[1..] == p.pkg[..p.count] + w;
    }
  }

  /** The header of a frame puts the parser inside it. */
  lemma Header(p: Parser, f: seq<byte>)
    requires Ok(p) && !p.start && |f| >= 2 && f[0] == H1 && f[1] == H2
    ensures Frames(p, f[..2]) == [] && Parse(p, f[..2]).start && Parse(p, f[..2]).count == 2
    ensures Parse(p, f[..2]).pkg[..2] == f[..2]
  {
    var s := f[..2];
    var q := Feed(p, s[0]).parser;
    var r := Feed(q, s[1]).parser;
    assert Feed(p, s[0]).out == [] && Feed(q, s[1]).out == [] && r.start && r.count == 2;
    assert r.pkg[..2] == s;
    hide Parse, Frames, Feed;
    OneByte(p, s);
    OneByte(q, s[1..]);
    NoBytes(r, s[1..][1..]);
  }

  /** Whatever was seen before, a frame is taken, and nothing of it is left behind. */
  lemma FrameTaken(p: Parser, f: Frame)
    requires Ok(p) && !p.start && IsFrame(f)
    ensures Frames(p, f) == [f] && Fresh(Parse(p, f))
  {
    hide Parse, Frames, Feed;
    Header(p, f);
    var q := Parse(p, f[..2]);
    Collect(q, f[2..]);
    assert f == f[..2] + f[2..];
    Cut(p, f[..2], f[2..]);
  }

  lemma ChunkTaken(p: Parser, c: Chunk)
    requires Fresh(p) && Clean(c)
    ensures Frames(p, c.garbage + c.frame) == [c.frame] && Fresh(Parse(p, c.garbage + c.frame))
  {
    hide Parse, Frames, Feed, Quiet;
    QuietAfter(p, c.garbage);
    QuietHunts(p, c.garbage);
    FrameTaken(Parse(p, c.garbage), c.frame);
    Cut(p, c.garbage, c.frame);
  }

  /** The parser is a left inverse of framing: from frames interleaved with garbage, exactly the frames, in order. */
  lemma {:induction false} Recovered(p: Parser, chunks: seq<Chunk>)
    requires Fresh(p) && forall c :: c in chunks ==> Clean(c)
    ensures Frames(p, Join(chunks)) == FramesOf(chunks) && Fresh(Parse(p, Join(chunks)))
    decreases |chunks|
  {
    hide Feed, Clean, Fresh;
    if |chunks| > 0 {
      var c := chunks[0];
      var s := c.garbage + c.frame;
      FreshOk(p);
      ChunkTaken(p, c);
      FreshOk(Parse(p, s));
      Recovered(Parse(p, s), chunks[1..]);
      Cut(p, s, Join(chunks[1..]));
    }
  }

  lemma FreshOk(p: Parser)
    requires Fresh(p)
    ensures Ok(p)
  {}

  /** What follows the last complete frame: garbage, then a frame cut short. */
  ghost predicate Tail(g: seq<byte>, part: seq<byte>) {
    Quiet(g) && (|part| == 0 || (2 <= |part| < COUNT && part[0] == H1 && part[1] == H2))
  }

  lemma TailYieldsNothing(p: Parser, g: seq<byte>, part: seq<byte>)
    requires Fresh(p) && Tail(g, part)
    ensures Frames(p, g + part) == []
  {
    hide Parse, Frames, Feed, Quiet;
    QuietAfter(p, g);
    QuietHunts(p, g);
    var q := Parse(p, g);
    Cut(p, g, part);
    if |part| == 0 {
      NoBytes(q, part);
    } else {
      Header(q, part);
      Cut(q, part[..2], part[2..]);
      assert part == part[..2] + part[2..];
      if |part| > 2 {
        Collect(Parse(q, part[..2]), part[2..]);
      } else {
        NoBytes(Parse(q, part[..2]), part[2..]);
      }
    }
  }

  /** A whole stream, its unfinished end included. */
  lemma RecoveredWithTail(p: Parser, chunks: seq<Chunk>, g: seq<byte>, part: seq<byte>)
    requires Fresh(p) && (forall c :: c in chunks ==> Clean(c)) && Tail(g, part)
    ensures Frames(p, Join(chunks) + (g + part)) == FramesOf(chunks)
  {
    hide Parse, Frames, Feed, Clean, Tail;
    Recovered(p, chunks);
    Cut(p, Join(chunks), g + part);
    TailYieldsNothing(Parse(p, Join(chunks)), g, part);
  }

  /** And every stream reads in this one way, so what decode_pkg is given is what framing put in. */
  lemma {:induction false} Decomposes(s: seq<byte>) returns (chunks: seq<Chunk>, g: seq<byte>, part: seq<byte>)
    ensures (forall c :: c in chunks ==> Clean(c)) && Tail(g, part)
    ensures s == Join(chunks) + (g + part)
    decreases |s|
  {
    if Quiet(s) {
      chunks, g, part := [], s, [];
      assert s == [] + (s + []);
    } else {
      var i := FirstPair(s, 0);
      g := s[..i];
      var rest := s[i..];
      if |rest| < COUNT {
        chunks, part := [], rest;
        assert s == [] + (g + rest);
      } else {
        var c := Chunk(g, rest[..COUNT]);
        var more, g', part' := Decomposes(rest[COUNT..]);
        chunks, g, part := [c] + more, g', part';
        assert chunks[1..] == more;
        assert s == c.garbage + c.frame + rest[COUNT..];
      }
    }
  }

  lemma FirstPair(s: seq<byte>, k: nat) returns (i: nat)
    requires !Quiet(s) && forall j: nat :: j < k ==> !PairAt(s, j)
    ensures PairAt(s, i) && Quiet(s[..i])
    decreases |s| - k
  {
    if PairAt(s, k) {
      i := k;
      forall j: nat
        ensures !PairAt(s[..i], j)
      {
        assert j < k ==> !PairAt(s, j);
      }
    } else {
      i := FirstPair(s, k + 1);
    }
  }

  // Resynchronisation.

  predicate NoA(w: seq<byte>) { forall i :: 0 <= i < |w| ==> w[i] != H1 }

  lemma NoAHunts(p: Parser, w: seq<byte>)
    requires Ok(p) && !p.start && NoA(w) && !(p.last == H1 && |w| > 0 && w[0] == H2)
    ensures !Parse(p, w).start
  {
    QuietHunts(p, w);
  }

  /** Inside a frame, as many bytes as it lacks end it, and the rest find nothing. */
  lemma NoALeaves(p: Parser, w: seq<byte>)
    requires Ok(p) && p.start && NoA(w)
    ensures Parse(p, w).start <==> |w| < COUNT - p.count
  {
    hide Parse, Feed;
    var n := COUNT - p.count;
    if |w| == 0 {
      NoBytes(p, w);
    } else if |w| < n {
      Collect(p, w);
    } else {
      Collect(p, w[..n]);
      assert w == w[..n] + w[n..];
      Cut(p, w[..n], w[n..]);
      NoAHunts(Parse(p, w[..n]), w[n..]);
    }
  }

  /** Thirty-seven bytes free of A restore hunting from every state but one: an A has just been seen and the first of
      them is a V, which opens a frame that thirty-six more bytes leave one byte short. */
  lemma ResyncExact(p: Parser, w: seq<byte>)
    requires Ok(p) && |w| == 37 && NoA(w)
    ensures !Parse(p, w).start <==> !(!p.start && p.last == H1 && w[0] == H2)
  {
    if p.start {
      NoALeaves(p, w);
    } else if p.last == H1 && w[0] == H2 {
      var q := Feed(p, w[0]).parser;
      hide Feed;
      NoALeaves(q, w[1..]);
      assert Parse(p, w) == Parse(q, w[1..]);
    } else {
      NoAHunts(p, w);
    }
  }

  /** Thirty-eight always do. */
  lemma Resync(p: Parser, w: seq<byte>)
    requires Ok(p) && |w| >= 38 && NoA(w)
    ensures !Parse(p, w).start
  {
    if p.start {
      NoALeaves(p, w);
    } else if p.last == H1 && w[0] == H2 {
      var q := Feed(p, w[0]).parser;
      hide Feed;
      NoALeaves(q, w[1..]);
      assert Parse(p, w) == Parse(q, w[1..]);
    } else {
      NoAHunts(p, w);
    }
  }

  /** The exception is real: V then thirty-six zeros after an A. */
  lemma ThirtySevenIsTooFew()
    ensures var w := [H2] + seq(36, _ => 0);
            |w| == 37 && NoA(w) && Ok(INITIAL) && Parse(Parse(INITIAL, [H1]), w).start
  {
    var w := [H2] + seq(36, _ => 0);
    assert Parse(INITIAL, [H1]) == Parser(false, 2, 0, H1, INITIAL.pkg);
    ResyncExact(Parser(false, 2, 0, H1, INITIAL.pkg), w);
  }

  // The two CRC bytes, high byte first.

  ghost predicate CrcOk(f: Frame)
    requires |f| == COUNT
  {
    ToRem((f[38] as crc) | ((f[37] as crc) << 8)) == Crc(f[5..37])
  }

  /** encode_pkg writes the two bytes low byte first. */
  ghost predicate EncodedCrc(f: Frame)
    requires |f| == COUNT
  {
    ToRem((f[37] as crc) | ((f[38] as crc) << 8)) == Crc(f[5..37])
  }

  /** So decode_pkg would accept what encode_pkg wrote exactly when the two bytes happen to be equal. */
  lemma OrdersDiffer(f: Frame)
    requires |f| == COUNT && EncodedCrc(f)
    ensures CrcOk(f) <==> f[37] == f[38]
  {
    hide ToRem, Crc16.Crc;
    var x, y := (f[37] as crc) | ((f[38] as crc) << 8), (f[38] as crc) | ((f[37] as crc) << 8);
    if ToRem(x) == ToRem(y) {
      ToRemInjective(x, y);
      Swapped(f[37], f[38]);
    }
  }

  /** One that is rejected: the acknowledgement of module 1, which has no payload; its CRC is 0x1021. */
  lemma OwnFrameRejected()
    ensures var f: Frame := [0x41, 0x56, 21, 1, 1] + seq(31, _ => 0) + [1, 0x21, 0x10];
            && IsFrame(f) && f[5..37] == Patch(seq(28, _ => 0) + [0, 0, 0, 1], 0, []) && EncodedCrc(f) && !CrcOk(f)
  {
    var zeros: seq<byte> := seq(31, _ => 0);
    var f: Frame := [0x41, 0x56, 21, 1, 1] + zeros + [1, 0x21, 0x10];
    assert f[5..37] == zeros + [1];
    NextOfSmall();
    ZerosCrc(31);
    NextByte(zeros, 1, 0);
    hide ToRem, Crc16.Crc, Crc16.Next;
    assert EncodedCrc(f);
    OrdersDiffer(f);
  }

  lemma NextOfSmall()
    ensures Crc16.Next(0, 0) == 0 && Crc16.Next(0, 1) == 0x1021
  {}

  lemma {:induction false} ZerosCrc(n: nat)
    ensures Crc16.Crc(seq(n, _ => 0)) == ToRem(0)
  {
    if n == 0 {
      ZeroRem();
    } else {
      ZerosCrc(n - 1);
      NextOfSmall();
      NextByte(seq(n - 1, _ => 0), 0, 0);
      assert seq(n, _ => 0 as byte) == seq(n - 1, _ => 0 as byte) + [0];
    }
  }

  lemma Swapped(a: byte, b: byte)
    requires (a as crc) | ((b as crc) << 8) == (b as crc) | ((a as crc) << 8)
    ensures a == b
  {}

  lemma Halves(c: crc, lo: byte, hi: byte)
    requires lo == (c & 0x00ff) as byte && hi == ((c & 0xff00) >> 8) as byte
    ensures (lo as crc) | ((hi as crc) << 8) == c
  {}

  predicate Headed(f: Frame, kind: byte) { |f| == COUNT && f[0] == H1 && f[1] == H2 && f[2] == kind && f[3] == 1 && f[4] == 1 }

  /** The memset, the header and the module id of encode_pkg. */
  method Prepare(p: array<byte>, kind: byte, moduleId: seq<byte>)
    requires p.Length == COUNT && |moduleId| == 4
    modifies p
    ensures Headed(p[..], kind) && p[5..37] == seq(28, _ => 0) + moduleId
  {
    for i := 0 to COUNT
      invariant forall j :: 0 <= j < i ==> p[j] == 0
    {
      p[i] := 0;
    }
    p[0], p[1], p[2], p[3], p[4] := H1, H2, kind, 1, 1;
    for i := 0 to 4
      invariant Headed(p[..], kind)
      invariant forall j :: 5 <= j < 33 ==> p[j] == 0
      invariant forall j :: 0 <= j < i ==> p[33 + j] == moduleId[j]
    {
      p[33 + i] := moduleId[i];
    }
    assert p[5..33] == seq(28, _ => 0);
    assert p[33..37] == moduleId;
    assert p[5..37] == p[5..33] + p[33..37];
  }

  method Attach(p: array<byte>, ghost kind: byte, buf: seq<byte>)
    requires p.Length == COUNT && |buf| <= 32 && Headed(p[..], kind)
    modifies p
    ensures Headed(p[..], kind) && p[5..37] == Patch(old(p[5..37]), 0, buf)
  {
    ghost var was := p[5..37];
    for i := 0 to |buf|
      invariant Headed(p[..], kind)
      invariant forall j :: 0 <= j < 32 ==> p[5 + j] == if j < i then buf[j] else was[j]
    {
      p[5 + i] := buf[i];
    }
    assert forall j :: 0 <= j < 32 ==> p[5..37][j] == p[5 + j];
  }

  method CrcBytes(crc: crc) returns (lo: byte, hi: byte)
    ensures (lo as crc) | ((hi as crc) << 8) == crc
  {
    lo, hi := (crc & 0x00ff) as byte, ((crc & 0xff00) >> 8) as byte;
    Halves(crc, lo, hi);
  }

  /** The two CRC bytes. */
  method Seal(p: array<byte>, ghost kind: byte)
    requires p.Length == COUNT && Headed(p[..], kind)
    modifies p
    ensures Headed(p[..], kind) && p[5..37] == old(p[5..37])
    ensures EncodedCrc(p[..])
  {
    hide ToRem, Crc16.Crc;
    var crc := Crc16.Crc16(p, 5, 32);
    ghost var data := p[5..37];
    var lo, hi := CrcBytes(crc);
    p[COUNT - 2] := lo;
    p[COUNT - 1] := hi;
    assert p[5..37] == data;
    assert p[..][5..37] == p[5..37];
  }

  /** encode_pkg; buf is what the type puts at the start of the data, for a status report seven words of measurements. */
  method EncodePkg(p: array<byte>, kind: byte, buf: seq<byte>, moduleId: seq<byte>)
    requires p.Length == COUNT && |buf| <= 32 && |moduleId| == 4
    modifies p
    ensures IsFrame(p[..]) && p[2] == kind && p[3] == 1 && p[4] == 1
    ensures p[5..37] == Patch(seq(28, _ => 0) + moduleId, 0, buf)
    ensures EncodedCrc(p[..])
  {
    hide EncodedCrc, Patch;
    Prepare(p, kind, moduleId);
    Attach(p, kind, buf);
    Seal(p, kind);
  }

  class Link {
    var g_pkg: array<byte>
    var start: bool
    var count: nat
    var preLast: byte
    var last: byte

    ghost predicate Valid()
      reads this, g_pkg
    {
      g_pkg.Length == COUNT && Ok(View())
    }

    ghost function View(): Parser
      reads this, g_pkg
    {
      Parser(start, count, preLast, last, g_pkg[..])
    }

    constructor ()
      ensures Valid() && View() == INITIAL && fresh(g_pkg)
    {
      g_pkg := new byte[COUNT](_ => 0);
      start, count, preLast, last := false, 2, 0, 0;
      new;
      assert g_pkg[..] == INITIAL.pkg;
    }

    /** The CRC check with which decode_pkg begins; true means it returns 1. */
    method Rejects() returns (rejected: bool)
      requires g_pkg.Length == COUNT
      ensures rejected <==> !CrcOk(g_pkg[..])
    {
      hide ToRem, Crc16.Crc;
      var expected := (g_pkg[COUNT - 1] as crc) | ((g_pkg[COUNT - 2] as crc) << 8);
      var actual := Crc16.Crc16(g_pkg, 5, 32);
      assert g_pkg[5..37] == g_pkg[..][5..37];
      rejected := expected != actual;
      if ToRem(expected) == ToRem(actual) {
        ToRemInjective(expected, actual);
      }
    }

    /** get_pkg on the bytes its uart_reads will return; ready[n] is the answer of uart_read_nonblock before byte n.
        Out of input inside a frame, uart_read waits; what the function does next is what a new call would do. */
    method GetPkg(input: seq<byte>, ready: seq<bool>) returns (n: nat, failed: bool, frames: seq<Frame>)
      requires Valid()
      modifies this`start, this`count, this`preLast, this`last, g_pkg
      ensures Valid() && n <= |input|
      ensures View() == Parse(old(View()), input[..n]) && frames == Frames(old(View()), input[..n])
      ensures failed ==> |frames| > 0 && |frames[|frames| - 1]| == COUNT && !CrcOk(frames[|frames| - 1])
      ensures forall i :: 0 <= i < |frames| && (failed ==> i < |frames| - 1) ==> |frames[i]| == COUNT && CrcOk(frames[i])
      ensures !failed && n < |input| ==> !start && !(n < |ready| && ready[n])
    {
      hide Feed, CrcOk;
      n, failed, frames := 0, false, [];
      while n < |input|
        invariant Valid() && n <= |input| && !failed
        invariant View() == Parse(old(View()), input[..n]) && frames == Frames(old(View()), input[..n])
        invariant forall i :: 0 <= i < |frames| ==> |frames[i]| == COUNT && CrcOk(frames[i])
      {
        if !(n < |ready| && ready[n]) && !start { break; }
        FeedOne(old(View()), input, n);
        var out := Byte(input[n]);
        n := n + 1;
        frames := frames + out;
        if |out| > 0 {
          failed := Rejects();
          if failed { return; }
        }
      }
    }

    /** One iteration up to the call of decode_pkg, and the search for a header, which never finds one after it. */
    method Byte(b: byte) returns (out: seq<Frame>)
      requires Valid()
      modifies this`start, this`count, this`preLast, this`last, g_pkg
      ensures Valid() && Fed(View(), out) == Feed(old(View()), b)
      ensures out == [] || out == [g_pkg[..]]
    {
      out := [];
      preLast := last;
      last := b;
      if start {
        g_pkg[count] := last;
        count := count + 1;
      }
      if count == COUNT {
        preLast, last := 0, 0;
        start := false;
        count := 2;
        out := [g_pkg[..]];
      }
      if preLast == H1 && last == H2 && !start {
        g_pkg[0] := preLast;
        g_pkg[1] := last;
        start := true;
        count := 2;
      }
    }
  }

  lemma FeedOne(p: Parser, input: seq<byte>, n: nat)
    requires Ok(p) && n < |input|
    ensures Parse(p, input[..n + 1]) == Feed(Parse(p, input[..n]), input[n]).parser
    ensures Frames(p, input[..n + 1]) == Frames(p, input[..n]) + Feed(Parse(p, input[..n]), input[n]).out
  {
    hide Feed;
    assert input[..n + 1] == input[..n] + [input[n]];
    Cut(p, input[..n], [input[n]]);
    var q := Parse(p, input[..n]);
    assert Parse(Feed(q, input[n]).parser, [input[n]][1..]) == Feed(q, input[n]).parser;
    assert Frames(q, [input[n]]) == Feed(q, input[n]).out;
  }

  // Behind the receive ring.

  /** Frames sent, received by interrupts interleaved with uart_read and parsed: the first of the frames sent, and all
      of them once everything received has been read. */
  lemma FramesReceived(es: seq<UartRing.Event>, chunks: seq<Chunk>, g: seq<byte>, part: seq<byte>)
    requires UartRing.Bounded(UartRing.RESET, es, 0, UartRing.SIZE - 1)
    requires (forall c :: c in chunks ==> Clean(c)) && Tail(g, part) && UartRing.Received(es) == Join(chunks) + (g + part)
    ensures Frames(INITIAL, UartRing.ReadBytes(UartRing.RESET, es)) <= FramesOf(chunks)
    ensures !UartRing.NonBlock(UartRing.Run(UartRing.RESET, es)) ==> Frames(INITIAL, UartRing.ReadBytes(UartRing.RESET, es)) == FramesOf(chunks)
  {
    hide Parse, Frames, Feed, Clean, Tail, UartRing.Run, UartRing.ReadBytes, UartRing.Received, UartRing.Bounded;
    UartRing.ReadIsPrefix(es);
    var got, all := UartRing.ReadBytes(UartRing.RESET, es), UartRing.Received(es);
    RecoveredWithTail(INITIAL, chunks, g, part);
    assert all == got + all[|got|..];
    Cut(INITIAL, got, all[|got|..]);
  }
}
