/** firmware/crc16.c: the table-driven CRC. */
module Crc16 {
  import opened Words
  import opened Gf2

  type crc = bv16

  /** crc16_table, eight entries a row. */
  function Table(i: byte): crc {
    var r := i >> 3;
    if r == 0 then Row(i & 7, 0x0000, 0x1021, 0x2042, 0x3063, 0x4084, 0x50A5, 0x60C6, 0x70E7)
    else if r == 1 then Row(i & 7, 0x8108, 0x9129, 0xA14A, 0xB16B, 0xC18C, 0xD1AD, 0xE1CE, 0xF1EF)
    else if r == 2 then Row(i & 7, 0x1231, 0x0210, 0x3273, 0x2252, 0x52B5, 0x4294, 0x72F7, 0x62D6)
    else if r == 3 then Row(i & 7, 0x9339, 0x8318, 0xB37B, 0xA35A, 0xD3BD, 0xC39C, 0xF3FF, 0xE3DE)
    else if r == 4 then Row(i & 7, 0x2462, 0x3443, 0x0420, 0x1401, 0x64E6, 0x74C7, 0x44A4, 0x5485)
    else if r == 5 then Row(i & 7, 0xA56A, 0xB54B, 0x8528, 0x9509, 0xE5EE, 0xF5CF, 0xC5AC, 0xD58D)
    else if r == 6 then Row(i & 7, 0x3653, 0x2672, 0x1611, 0x0630, 0x76D7, 0x66F6, 0x5695, 0x46B4)
    else if r == 7 then Row(i & 7, 0xB75B, 0xA77A, 0x9719, 0x8738, 0xF7DF, 0xE7FE, 0xD79D, 0xC7BC)
    else if r == 8 then Row(i & 7, 0x48C4, 0x58E5, 0x6886, 0x78A7, 0x0840, 0x1861, 0x2802, 0x3823)
    else if r == 9 then Row(i & 7, 0xC9CC, 0xD9ED, 0xE98E, 0xF9AF, 0x8948, 0x9969, 0xA90A, 0xB92B)
    else if r == 10 then Row(i & 7, 0x5AF5, 0x4AD4, 0x7AB7, 0x6A96, 0x1A71, 0x0A50, 0x3A33, 0x2A12)
    else if r == 11 then Row(i & 7, 0xDBFD, 0xCBDC, 0xFBBF, 0xEB9E, 0x9B79, 0x8B58, 0xBB3B, 0xAB1A)
    else if r == 12 then Row(i & 7, 0x6CA6, 0x7C87, 0x4CE4, 0x5CC5, 0x2C22, 0x3C03, 0x0C60, 0x1C41)
    else if r == 13 then Row(i & 7, 0xEDAE, 0xFD8F, 0xCDEC, 0xDDCD, 0xAD2A, 0xBD0B, 0x8D68, 0x9D49)
    else if r == 14 then Row(i & 7, 0x7E97, 0x6EB6, 0x5ED5, 0x4EF4, 0x3E13, 0x2E32, 0x1E51, 0x0E70)
    else if r == 15 then Row(i & 7, 0xFF9F, 0xEFBE, 0xDFDD, 0xCFFC, 0xBF1B, 0xAF3A, 0x9F59, 0x8F78)
    else if r == 16 then Row(i & 7, 0x9188, 0x81A9, 0xB1CA, 0xA1EB, 0xD10C, 0xC12D, 0xF14E, 0xE16F)
    else if r == 17 then Row(i & 7, 0x1080, 0x00A1, 0x30C2, 0x20E3, 0x5004, 0x4025, 0x7046, 0x6067)
    else if r == 18 then Row(i & 7, 0x83B9, 0x9398, 0xA3FB, 0xB3DA, 0xC33D, 0xD31C, 0xE37F, 0xF35E)
    else if r == 19 then Row(i & 7, 0x02B1, 0x1290, 0x22F3, 0x32D2, 0x4235, 0x5214, 0x6277, 0x7256)
    else if r == 20 then Row(i & 7, 0xB5EA, 0xA5CB, 0x95A8, 0x8589, 0xF56E, 0xE54F, 0xD52C, 0xC50D)
    else if r == 21 then Row(i & 7, 0x34E2, 0x24C3, 0x14A0, 0x0481, 0x7466, 0x6447, 0x5424, 0x4405)
    else if r == 22 then Row(i & 7, 0xA7DB, 0xB7FA, 0x8799, 0x97B8, 0xE75F, 0xF77E, 0xC71D, 0xD73C)
    else if r == 23 then Row(i & 7, 0x26D3, 0x36F2, 0x0691, 0x16B0, 0x6657, 0x7676, 0x4615, 0x5634)
    else if r == 24 then Row(i & 7, 0xD94C, 0xC96D, 0xF90E, 0xE92F, 0x99C8, 0x89E9, 0xB98A, 0xA9AB)
    else if r == 25 then Row(i & 7, 0x5844, 0x4865, 0x7806, 0x6827, 0x18C0, 0x08E1, 0x3882, 0x28A3)
    else if r == 26 then Row(i & 7, 0xCB7D, 0xDB5C, 0xEB3F, 0xFB1E, 0x8BF9, 0x9BD8, 0xABBB, 0xBB9A)
    else if r == 27 then Row(i & 7, 0x4A75, 0x5A54, 0x6A37, 0x7A16, 0x0AF1, 0x1AD0, 0x2AB3, 0x3A92)
    else if r == 28 then Row(i & 7, 0xFD2E, 0xED0F, 0xDD6C, 0xCD4D, 0xBDAA, 0xAD8B, 0x9DE8, 0x8DC9)
    else if r == 29 then Row(i & 7, 0x7C26, 0x6C07, 0x5C64, 0x4C45, 0x3CA2, 0x2C83, 0x1CE0, 0x0CC1)
    else if r == 30 then Row(i & 7, 0xEF1F, 0xFF3E, 0xCF5D, 0xDF7C, 0xAF9B, 0xBFBA, 0x8FD9, 0x9FF8)
    else Row(i & 7, 0x6E17, 0x7E36, 0x4E55, 0x5E74, 0x2E93, 0x3EB2, 0x0ED1, 0x1EF0)
  }

  function Row(k: byte, t0: crc, t1: crc, t2: crc, t3: crc, t4: crc, t5: crc, t6: crc, t7: crc): crc {
    if k == 0 then t0 else if k == 1 then t1 else if k == 2 then t2 else if k == 3 then t3
    else if k == 4 then t4 else if k == 5 then t5 else if k == 6 then t6 else t7
  }

  /** The mask of coefficient k, that of x^15 first. */
  function Mask(k: int): crc {
    if k == 0 then 0x8000 else if k == 1 then 0x4000 else if k == 2 then 0x2000 else if k == 3 then 0x1000
    else if k == 4 then 0x800 else if k == 5 then 0x400 else if k == 6 then 0x200 else if k == 7 then 0x100
    else if k == 8 then 0x80 else if k == 9 then 0x40 else if k == 10 then 0x20 else if k == 11 then 0x10
    else if k == 12 then 8 else if k == 13 then 4 else if k == 14 then 2 else 1
  }

  predicate HasBit(c: crc, mask: crc) { c & mask != 0 }

  /** The coefficients of a word. */
  function ToRem(c: crc): Rem {
    seq(16, k => HasBit(c, Mask(k)))
  }

  /** A byte as the top coefficients of a word. */
  function Top(b: byte): crc { (b as crc) << 8 }

  /** The bits of a byte, most significant first. */
  function BitsOf(b: byte): (s: seq<bool>)
    ensures |s| == 8
  {
    seq(8, k => HasBit(Top(b), Mask(k)))
  }

  function Bits(m: seq<byte>): (s: seq<bool>)
    ensures |s| == 8 * |m|
  {
    if |m| == 0 then [] else BitsOf(m[0]) + Bits(m[1..])
  }

  // Single bits of words.

  lemma MaskSingle(k: int)
    ensures Mask(k) != 0 && Mask(k) & (Mask(k) - 1) == 0
  {}

  lemma MaskNext(k: int)
    requires 0 <= k < 15
    ensures Mask(k + 1) == Mask(k) >> 1
  {}

  lemma MaskZero()
    ensures Mask(0) == 0x8000
  {}

  lemma XorBit(c: crc, d: crc, m: crc)
    requires m != 0 && m & (m - 1) == 0
    ensures ((c ^ d) & m != 0) == ((c & m != 0) != (d & m != 0))
  {}

  lemma XorHas(c: crc, d: crc, k: int)
    ensures HasBit(c ^ d, Mask(k)) == (HasBit(c, Mask(k)) != HasBit(d, Mask(k)))
  {
    MaskSingle(k);
    var m := Mask(k);
    hide Mask;
    XorBit(c, d, m);
  }

  lemma XorMatches(c: crc, d: crc)
    ensures ToRem(c ^ d) == Xor(ToRem(c), ToRem(d))
  {
    forall k | 0 <= k < 16
      ensures HasBit(c ^ d, Mask(k)) == (HasBit(c, Mask(k)) != HasBit(d, Mask(k)))
    {
      XorHas(c, d, k);
    }
    hide HasBit, Mask;
  }

  lemma TopBit(b: byte, m: crc)
    requires m < 0x100
    ensures ((b as crc) << 8) & m == 0
  {}

  lemma MaskLow(k: int)
    requires k >= 8
    ensures Mask(k) < 0x100
  {}

  lemma TopMatches(b: byte)
    ensures ToRem(Top(b)) == Lead(BitsOf(b))
  {
    forall k | 8 <= k < 16
      ensures !HasBit(Top(b), Mask(k))
    {
      MaskLow(k);
      var m := Mask(k);
      hide Mask;
      TopBit(b, m);
    }
    hide HasBit, Mask, Top;
  }

  lemma LowBits(x: crc, m: crc)
    requires m != 0 && m & (m - 1) == 0 && x & m == 0 && (m == 1 || x & ((m >> 1) + ((m >> 1) - 1)) == 0)
    ensures x & (m + (m - 1)) == 0
  {}

  lemma NoBits(x: crc, k: nat)
    requires k < 16 && forall i :: k <= i < 16 ==> !HasBit(x, Mask(i))
    ensures x & (Mask(k) + (Mask(k) - 1)) == 0
    decreases 16 - k
  {
    MaskSingle(k);
    assert k < 15 || Mask(k) == 1;
    if k < 15 {
      NoBits(x, k + 1);
      MaskNext(k);
    }
    assert !HasBit(x, Mask(k));
    var m := Mask(k);
    hide Mask;
    LowBits(x, m);
  }

  /** The coefficients determine the word. */
  lemma ToRemInjective(c: crc, d: crc)
    requires ToRem(c) == ToRem(d)
    ensures c == d
  {
    XorMatches(c, d);
    forall k | 0 <= k < 16
      ensures !HasBit(c ^ d, Mask(k))
    {
      assert !ToRem(c ^ d)[k];
    }
    NoBits(c ^ d, 0);
    XorZero(c, d);
  }

  lemma XorZero(c: crc, d: crc)
    requires (c ^ d) & (0x8000 + (0x8000 - 1)) == 0
    ensures c == d
  {}

  // One step of the division, on machine words.

  /** Multiplied by x modulo the polynomial. */
  function TimesX(c: crc): crc {
    (c << 1) ^ (if c & 0x8000 != 0 then 0x1021 else 0)
  }

  lemma ShlBit(c: crc, m: crc)
    requires m != 0 && m & (m - 1) == 0
    ensures ((c << 1) & m != 0) == (c & (m >> 1) != 0)
  {}

  lemma ShlHas(c: crc, k: int)
    requires 0 <= k < 16
    ensures HasBit(c << 1, Mask(k)) == (k < 15 && HasBit(c, Mask(k + 1)))
  {
    MaskSingle(k);
    assert k < 15 || Mask(k) == 1;
    if k < 15 {
      MaskNext(k);
    }
    var m, n := Mask(k), Mask(k + 1);
    hide Mask;
    ShlBit(c, m);
  }

  lemma TapHas(k: int)
    requires 0 <= k < 16
    ensures HasBit(0x1021, Mask(k)) == Tap(k)
  {}

  lemma NothingHas(m: crc)
    ensures !HasBit(0, m)
  {}

  /** Coefficient k of d is that of c times x, plus that of f. */
  predicate Fed(c: crc, f: crc, d: crc, k: int) {
    HasBit(d, Mask(k)) == ((k < 15 && HasBit(c, Mask(k + 1))) != HasBit(f, Mask(k)))
  }

  lemma FedHas(c: crc, f: crc, d: crc, k: int)
    requires 0 <= k < 16 && d == (c << 1) ^ f
    ensures Fed(c, f, d, k)
  {
    hide HasBit, Mask;
    XorHas(c << 1, f, k);
    ShlHas(c, k);
  }

  lemma FedIsShift(c: crc, f: crc, d: crc)
    requires forall k :: 0 <= k < 16 ==> Fed(c, f, d, k)
    requires forall k :: 0 <= k < 16 ==> HasBit(f, Mask(k)) == (HasBit(c, Mask(0)) && Tap(k))
    ensures ToRem(d) == Shift(ToRem(c), false)
  {
    hide HasBit, Mask, Tap;
    var r, s := ToRem(c), ToRem(d);
    assert r[0] == HasBit(c, Mask(0));
    forall k | 0 <= k < 16
      ensures s[k] == Shift(r, false)[k]
    {
      assert s[k] == HasBit(d, Mask(k));
      assert k < 15 ==> r[k + 1] == HasBit(c, Mask(k + 1));
      assert HasBit(f, Mask(k)) == (r[0] && Tap(k));
      assert Fed(c, f, d, k);
      assert Shift(r, false)[k] == ((k < 15 && r[k + 1]) != (r[0] && Tap(k)));
    }
  }

  lemma FedBack(c: crc, f: crc, d: crc)
    requires d == (c << 1) ^ f
    requires forall k :: 0 <= k < 16 ==> HasBit(f, Mask(k)) == (HasBit(c, Mask(0)) && Tap(k))
    ensures ToRem(d) == Shift(ToRem(c), false)
  {
    hide HasBit, Mask, Tap, ToRem, Shift, Fed;
    forall k | 0 <= k < 16
      ensures Fed(c, f, d, k)
    {
      FedHas(c, f, d, k);
    }
    FedIsShift(c, f, d);
  }

  lemma TimesXIsShift(c: crc)
    ensures ToRem(TimesX(c)) == Shift(ToRem(c), false)
  {
    MaskZero();
    hide Mask, Tap, ToRem, Shift;
    var f: crc := if c & 0x8000 != 0 then 0x1021 else 0;
    forall k | 0 <= k < 16
      ensures HasBit(f, Mask(k)) == (HasBit(c, Mask(0)) && Tap(k))
    {
      TapHas(k);
      NothingHas(Mask(k));
    }
    FedBack(c, f, TimesX(c));
  }

  lemma ZeroStep(c: crc, n: nat)
    requires n > 0
    ensures Divide(ToRem(c), Zeros(n)) == Divide(ToRem(TimesX(c)), Zeros(n - 1))
  {
    TimesXIsShift(c);
    hide Shift, TimesX, ToRem;
    assert Zeros(n)[1..] == Zeros(n - 1);
  }

  function TimesX8(c: crc): crc {
    TimesX(TimesX(TimesX(TimesX(TimesX(TimesX(TimesX(TimesX(c))))))))
  }

  lemma EightZeros(c: crc)
    ensures Divide(ToRem(c), Zeros(8)) == ToRem(TimesX8(c))
  {
    hide Shift, TimesX, ToRem, Zeros;
    var c1 := TimesX(c);
    var c2 := TimesX(c1);
    var c3 := TimesX(c2);
    var c4 := TimesX(c3);
    var c5 := TimesX(c4);
    var c6 := TimesX(c5);
    var c7 := TimesX(c6);
    ZeroStep(c, 8);
    ZeroStep(c1, 7);
    ZeroStep(c2, 6);
    ZeroStep(c3, 5);
    ZeroStep(c4, 4);
    ZeroStep(c5, 3);
    ZeroStep(c6, 2);
    ZeroStep(c7, 1);
    assert Divide(ToRem(TimesX(c7)), Zeros(0)) == ToRem(TimesX(c7));
  }

  // Eight of them at once: the feedback of n steps comes from the n bits they shift out.

  lemma OneStep(c: crc, d: crc)
    requires d == (c << 1) ^ (if c & 0x8000 != 0 then 0x1021 else 0)
    ensures d == (c << 1) ^ (c >> 15) ^ ((c >> 15) << 5) ^ ((c >> 15) << 12)
  {}

  lemma TwoSteps(c: crc, d: crc, e: crc)
    requires d == (c << 1) ^ (c >> 15) ^ ((c >> 15) << 5) ^ ((c >> 15) << 12)
    requires e == (d << 1) ^ (d >> 15) ^ ((d >> 15) << 5) ^ ((d >> 15) << 12)
    ensures e == (c << 2) ^ (c >> 14) ^ ((c >> 14) << 5) ^ ((c >> 14) << 12)
  {}

  lemma FourSteps(c: crc, d: crc, e: crc)
    requires d == (c << 2) ^ (c >> 14) ^ ((c >> 14) << 5) ^ ((c >> 14) << 12)
    requires e == (d << 2) ^ (d >> 14) ^ ((d >> 14) << 5) ^ ((d >> 14) << 12)
    ensures e == (c << 4) ^ (c >> 12) ^ ((c >> 12) << 5) ^ ((c >> 12) << 12)
  {}

  lemma EightSteps(c: crc, d: crc, e: crc)
    requires d == (c << 4) ^ (c >> 12) ^ ((c >> 12) << 5) ^ ((c >> 12) << 12)
    requires e == (d << 4) ^ (d >> 12) ^ ((d >> 12) << 5) ^ ((d >> 12) << 12)
    ensures e == (c >> 8) ^ ((c >> 8) << 5) ^ ((c >> 8) << 12) ^ (c >> 12) ^ ((c >> 12) << 5) ^ ((c >> 12) << 12) ^ (c << 8)
  {}

  lemma OneTime(c: crc, d: crc)
    requires d == TimesX(c)
    ensures d == (c << 1) ^ (c >> 15) ^ ((c >> 15) << 5) ^ ((c >> 15) << 12)
  {
    OneStep(c, d);
  }

  lemma TwoTimes(c: crc)
    ensures TimesX(TimesX(c)) == (c << 2) ^ (c >> 14) ^ ((c >> 14) << 5) ^ ((c >> 14) << 12)
  {
    hide TimesX;
    var d := TimesX(c);
    OneTime(c, d);
    OneTime(d, TimesX(d));
    TwoSteps(c, d, TimesX(d));
  }

  lemma FourTimes(c: crc)
    ensures TimesX(TimesX(TimesX(TimesX(c)))) == (c << 4) ^ (c >> 12) ^ ((c >> 12) << 5) ^ ((c >> 12) << 12)
  {
    hide TimesX;
    var d := TimesX(TimesX(c));
    TwoTimes(c);
    TwoTimes(d);
    FourSteps(c, d, TimesX(TimesX(d)));
  }

  lemma EightTimes(c: crc, t: crc, u: crc, s: crc)
    requires t == c >> 8 && u == c >> 12 && s == c << 8
    ensures TimesX8(c) == t ^ (t << 5) ^ (t << 12) ^ u ^ (u << 5) ^ (u << 12) ^ s
  {
    hide TimesX;
    var d := TimesX(TimesX(TimesX(TimesX(c))));
    FourTimes(c);
    FourTimes(d);
    EightSteps(c, d, TimesX(TimesX(TimesX(TimesX(d)))));
  }

  // The loop body of crc16.

  function Next(c: crc, b: byte): crc {
    Table(((c >> 8) & 0xff) as byte ^ b) ^ (c << 8)
  }

  /** The table in closed form. */
  lemma TableIs(i: byte, t: crc, u: crc)
    requires t == i as crc && u == t >> 4
    ensures Table(i) == t ^ (t << 5) ^ (t << 12) ^ u ^ (u << 5) ^ (u << 12)
  {}

  lemma Index(c: crc, b: byte, d: crc, i: byte)
    requires d == c ^ ((b as crc) << 8)
    requires i == ((c >> 8) & 0xff) as byte ^ b
    ensures d >> 8 == i as crc && d >> 12 == (i as crc) >> 4 && d << 8 == c << 8
  {}

  lemma NextIsTimesX8(c: crc, b: byte)
    ensures Next(c, b) == TimesX8(c ^ Top(b))
  {
    hide Table, TimesX8;
    var d, i := c ^ Top(b), ((c >> 8) & 0xff) as byte ^ b;
    TopIs(b, c, d);
    hide Top;
    TableIsTimesX8(c, b, d, i);
    NextIs(c, b, i);
    hide Next;
  }

  lemma TopIs(b: byte, c: crc, d: crc)
    requires d == c ^ Top(b)
    ensures d == c ^ ((b as crc) << 8)
  {}

  lemma NextIs(c: crc, b: byte, i: byte)
    requires i == ((c >> 8) & 0xff) as byte ^ b
    ensures Next(c, b) == Table(i) ^ (c << 8)
  {
    hide Table;
  }

  lemma TableIsTimesX8(c: crc, b: byte, d: crc, i: byte)
    requires d == c ^ ((b as crc) << 8)
    requires i == ((c >> 8) & 0xff) as byte ^ b
    ensures Table(i) ^ (c << 8) == TimesX8(d)
  {
    hide Table, TimesX8;
    Index(c, b, d, i);
    SameFold(i, i as crc, (i as crc) >> 4, c << 8, d);
  }

  lemma SameFold(i: byte, t: crc, u: crc, s: crc, d: crc)
    requires t == i as crc && u == t >> 4
    requires t == d >> 8 && u == d >> 12 && s == d << 8
    ensures Table(i) ^ s == TimesX8(d)
  {
    hide Table, TimesX8;
    TableIs(i, t, u);
    EightTimes(d, t, u, s);
  }

  /** One table step is eight steps of the division. */
  lemma NextIsDivision(c: crc, b: byte)
    ensures ToRem(Next(c, b)) == Divide(ToRem(c), BitsOf(b))
  {
    hide Next, TimesX8, ToRem, BitsOf, Shift, Lead, Xor, Zeros, Top;
    NextIsTimesX8(c, b);
    EightZeros(c ^ Top(b));
    XorMatches(c, Top(b));
    TopMatches(b);
    DivideChunk(ToRem(c), BitsOf(b));
  }

  lemma {:induction false} BitsAppend(a: seq<byte>, b: seq<byte>)
    ensures Bits(a + b) == Bits(a) + Bits(b)
  {
    hide BitsOf;
    if |a| == 0 {
      assert a + b == b;
    } else {
      BitsAppend(a[1..], b);
      var c := a + b;
      assert c[0] == a[0] && c[1..] == a[1..] + b;
      var x, y, z := BitsOf(a[0]), Bits(a[1..]), Bits(b);
      assert Bits(c) == x + (y + z);
      assert x + (y + z) == (x + y) + z;
    }
  }

  /** crc16: the remainder of the buffer times x^16, the division started from zero. */
  method Crc16(buffer: array<byte>, off: nat, len: int) returns (c: crc)
    requires off <= buffer.Length && off + len <= buffer.Length
    ensures ToRem(c) == Crc(buffer[off..off + if len > 0 then len else 0])
  {
    hide Table, Next, BitsOf, ToRem, Shift;
    c := 0;
    ZeroRem();
    var left, i := len, 0;
    while left > 0
      invariant 0 <= i && (if len > 0 then i + left == len && left >= 0 else i == 0 && left == len)
      invariant ToRem(c) == Crc(buffer[off..off + i])
    {
      left := left - 1;
      NextByte(buffer[off..off + i], buffer[off + i], c);
      assert buffer[off..off + i] + [buffer[off + i]] == buffer[off..off + (i + 1)];
      c := Next(c, buffer[off + i]);
      i := i + 1;
    }
  }

  lemma ZeroRem()
    ensures ToRem(0) == ZERO
  {}

  lemma NextByte(m: seq<byte>, b: byte, c: crc)
    requires ToRem(c) == Crc(m)
    ensures ToRem(Next(c, b)) == Crc(m + [b])
  {
    hide BitsOf, Next, ToRem, Shift;
    BitsAppend(m, [b]);
    assert Bits([b]) == BitsOf(b) + Bits([]) == BitsOf(b);
    DivideAppend(ZERO, Bits(m), BitsOf(b));
    NextIsDivision(c, b);
  }

  /** The CRC of a buffer. */
  ghost function Crc(m: seq<byte>): Rem { Divide(ZERO, Bits(m)) }

  /** It is the remainder modulo the polynomial, and nothing else is. */
  lemma CrcIsRemainder(m: seq<byte>, r: Rem, q: Poly)
    requires IsQuotient(Bits(m), q, r)
    ensures r == Crc(m)
  {
    var p := DivideIsRemainder(Bits(m));
    RemainderUnique(Bits(m), q, r, p, Crc(m));
  }

  // Linearity and parity.

  function XorBytes(a: seq<byte>, b: seq<byte>): (s: seq<byte>)
    requires |a| == |b|
  {
    seq(|a|, i requires 0 <= i < |a| => a[i] ^ b[i])
  }

  lemma TopXor(a: byte, b: byte, c: byte)
    requires c == a ^ b
    ensures (c as crc) << 8 == ((a as crc) << 8) ^ ((b as crc) << 8)
  {}

  lemma TopIsXor(a: byte, b: byte, c: byte, d: crc)
    requires c == a ^ b && d == Top(c)
    ensures d == Top(a) ^ Top(b)
  {
    TopXor(a, b, c);
  }

  lemma XorAt(c: crc, d: crc, e: crc, k: int)
    requires e == c ^ d
    ensures HasBit(e, Mask(k)) == (HasBit(c, Mask(k)) != HasBit(d, Mask(k)))
  {
    XorHas(c, d, k);
  }

  lemma BitsOfXor(a: byte, b: byte, c: byte)
    requires c == a ^ b
    ensures BitsOf(c) == Xor(BitsOf(a), BitsOf(b))
  {
    hide Mask, HasBit, Top, BitsOf, Xor;
    TopIsXor(a, b, c, Top(c));
    TopsXor(a, b, c);
  }

  lemma TopsXor(a: byte, b: byte, c: byte)
    requires Top(c) == Top(a) ^ Top(b)
    ensures BitsOf(c) == Xor(BitsOf(a), BitsOf(b))
  {
    hide Mask, HasBit, Top, BitsOf, Xor;
    forall k | 0 <= k < 8
      ensures HasBit(Top(c), Mask(k)) == (HasBit(Top(a), Mask(k)) != HasBit(Top(b), Mask(k)))
    {
      XorAt(Top(a), Top(b), Top(c), k);
    }
    BitwiseXor(a, b, c);
  }

  lemma BitwiseXor(a: byte, b: byte, c: byte)
    requires forall k :: 0 <= k < 8 ==> HasBit(Top(c), Mask(k)) == (HasBit(Top(a), Mask(k)) != HasBit(Top(b), Mask(k)))
    ensures BitsOf(c) == Xor(BitsOf(a), BitsOf(b))
  {
    hide Mask, HasBit, Top;
  }

  lemma {:induction false} BitsXor(a: seq<byte>, b: seq<byte>)
    requires |a| == |b|
    ensures Bits(XorBytes(a, b)) == Xor(Bits(a), Bits(b))
  {
    hide BitsOf, Xor;
    if |a| == 0 {
      XorAppend([], [], [], []);
    } else {
      var c := XorBytes(a, b);
      BitsOfXor(a[0], b[0], c[0]);
      BitsXor(a[1..], b[1..]);
      assert c[1..] == XorBytes(a[1..], b[1..]);
      XorAppend(BitsOf(a[0]), BitsOf(b[0]), Bits(a[1..]), Bits(b[1..]));
    }
  }

  /** The CRC of a bytewise difference is the difference of the CRCs. */
  lemma CrcLinear(a: seq<byte>, b: seq<byte>)
    requires |a| == |b|
    ensures Crc(XorBytes(a, b)) == Xor(Crc(a), Crc(b))
  {
    hide Shift, Bits, XorBytes;
    BitsXor(a, b);
    assert Xor(ZERO, ZERO) == ZERO;
    Linear(ZERO, ZERO, Bits(a), Bits(b));
  }

  /** A CRC has as many ones as its buffer, modulo two. */
  lemma CrcParity(m: seq<byte>)
    ensures Parity(Crc(m)) == Parity(Bits(m))
  {
    hide Shift;
    DivideParity(ZERO, Bits(m));
    ParityZeros(16);
  }

  /** Every odd number of bit errors is detected. */
  lemma OddErrorsDetected(a: seq<byte>, b: seq<byte>)
    requires Parity(Bits(a)) != Parity(Bits(b))
    ensures Crc(a) != Crc(b)
  {
    hide Shift;
    CrcParity(a);
    CrcParity(b);
  }

  /** Two buffers of one length whose bits differ somewhere, but only within sixteen consecutive positions, never
      share a CRC. */
  lemma BurstErrorsDetected(a: seq<byte>, b: seq<byte>, k: nat)
    requires |a| == |b| && Bits(a) != Bits(b)
    requires forall i :: 0 <= i < |Bits(a)| && (i < k || i >= k + 16) ==> Bits(a)[i] == Bits(b)[i]
    ensures Crc(a) != Crc(b)
  {
    hide Shift, Bits;
    var x, y := Bits(a), Bits(b);
    var lo := if k < |x| then k else |x|;
    var hi := if k + 16 < |x| then k + 16 else |x|;
    var p, s := x[..lo], x[hi..];
    assert p == y[..lo] && s == y[hi..];
    var u, v := x[lo..hi], y[lo..hi];
    assert x == p + u + s && y == p + v + s;
    BurstDetected(p, u, v, s);
  }

  /** Sixteen is sharp: these two buffers differ in a burst of seventeen bits. */
  lemma SeventeenIsTooMany()
    ensures Crc([0x88, 0x10, 0x80]) == Crc([0, 0, 0])
  {
    hide BitsOf, ToRem, Shift, Next;
    ZeroRem();
    ThreeBytes(0x88, 0x10, 0x80);
    ThreeBytes(0, 0, 0);
    Collide();
  }

  lemma CollideSteps()
    ensures Next(0, 0x88) == 0x1080 && Next(0x1080, 0x10) == 0x8000 && Next(0x8000, 0x80) == 0 && Next(0, 0) == 0
  {}

  lemma Collide()
    ensures Next(Next(Next(0, 0x88), 0x10), 0x80) == Next(Next(Next(0, 0), 0), 0)
  {
    CollideSteps();
    hide Next;
  }

  lemma ThreeBytes(x: byte, y: byte, z: byte)
    ensures Crc([x, y, z]) == ToRem(Next(Next(Next(0, x), y), z))
  {
    hide BitsOf, ToRem, Shift, Next;
    ZeroRem();
    NextByte([], x, 0);
    NextByte([x], y, Next(0, x));
    NextByte([x, y], z, Next(Next(0, x), y));
    assert [] + [x] == [x] && [x] + [y] == [x, y] && [x, y] + [z] == [x, y, z];
  }
}
