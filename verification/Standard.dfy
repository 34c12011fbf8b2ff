/** What the functions of Fips180 and Message compute, in numbers and bits. */
module Standard {
  import opened Words
  import opened Sums
  import opened Fips180
  import opened Message

  // Bits.

  /** Ch takes the bits of y where x has ones and those of z elsewhere. */
  lemma ChIs(x: word, y: word, z: word)
    ensures Ch(x, y, z) & x == y & x && Ch(x, y, z) & !x == z & !x
  {
    ChOnOnes(x, y, z);
    ChElsewhere(x, y, z);
    hide Ch;
  }

  lemma ChOnOnes(x: word, y: word, z: word)
    ensures Ch(x, y, z) & x == y & x
  {}

  lemma ChElsewhere(x: word, y: word, z: word)
    ensures Ch(x, y, z) & !x == z & !x
  {}

  /** Maj takes what x and y agree on, and z elsewhere. */
  lemma MajIs(x: word, y: word, z: word)
    ensures Maj(x, y, z) & !(x ^ y) == x & !(x ^ y) && Maj(x, y, z) & (x ^ y) == z & (x ^ y)
  {
    MajAgreed(x, y, z);
    MajElsewhere(x, y, z);
    hide Maj;
  }

  lemma MajAgreed(x: word, y: word, z: word)
    ensures Maj(x, y, z) & !(x ^ y) == x & !(x ^ y)
  {}

  lemma MajElsewhere(x: word, y: word, z: word)
    ensures Maj(x, y, z) & (x ^ y) == z & (x ^ y)
  {}

  /** The lowest bit goes to these places, 32 less each number of section 4.1.2. */
  lemma SigmasOfOne()
    ensures BigSigma0(1) == (1 << 30) | (1 << 19) | (1 << 10) && BigSigma1(1) == (1 << 26) | (1 << 21) | (1 << 7)
    ensures SmallSigma0(1) == (1 << 25) | (1 << 14) && SmallSigma1(1) == (1 << 15) | (1 << 13)
  {}

  // Numbers.

  predicate IsSum(z: word, x: word, y: word) { Number(z) == (Number(x) + Number(y)) % WORD }

  lemma SumOf(x: word, y: word)
    ensures IsSum(Add(y, x), x, y)
  {
    hide Add, Number;
    AddIs(y, x);
  }

  /** A block adds to each word of the hash value, modulo 2^32, what 64 rounds make of it. */
  lemma CompressIs(v: Hash, m: seq<word>)
    requires |m| == 16
    ensures var r, c := Rounds(v, m, 64), Compress(v, m);
            && IsSum(c.a, v.a, r.a) && IsSum(c.b, v.b, r.b) && IsSum(c.c, v.c, r.c) && IsSum(c.d, v.d, r.d)
            && IsSum(c.e, v.e, r.e) && IsSum(c.f, v.f, r.f) && IsSum(c.g, v.g, r.g) && IsSum(c.h, v.h, r.h)
  {
    hide Rounds, Add, IsSum;
    var r := Rounds(v, m, 64);
    SumOf(v.a, r.a);
    SumOf(v.b, r.b);
    SumOf(v.c, r.c);
    SumOf(v.d, r.d);
    SumOf(v.e, r.e);
    SumOf(v.f, r.f);
    SumOf(v.g, r.g);
    SumOf(v.h, r.h);
  }

  /** A round moves six of the working variables on and makes two new ones. */
  lemma RoundIs(v: Hash, k: word, w: word)
    ensures var r := Round(v, k, w);
            var t1 := Number(v.h) + Number(BigSigma1(v.e)) + Number(Ch(v.e, v.f, v.g)) + Number(k) + Number(w);
            var t2 := Number(BigSigma0(v.a)) + Number(Maj(v.a, v.b, v.c));
            && r.b == v.a && r.c == v.b && r.d == v.c && r.f == v.e && r.g == v.f && r.h == v.g
            && Number(r.a) == (t1 + t2) % WORD && Number(r.e) == (Number(v.d) + t1) % WORD
  {
    hide Add, Sum5, Number, BigSigma0, BigSigma1, Ch, Maj;
    var t1 := Number(v.h) + Number(BigSigma1(v.e)) + Number(Ch(v.e, v.f, v.g)) + Number(k) + Number(w);
    var t2 := Number(BigSigma0(v.a)) + Number(Maj(v.a, v.b, v.c));
    Sum5Is(v.h, BigSigma1(v.e), Ch(v.e, v.f, v.g), k, w);
    AddIs(BigSigma0(v.a), Maj(v.a, v.b, v.c));
    AddIs(T1(v, k, w), T2(v));
    AddIs(v.d, T1(v, k, w));
    Reduced(t1, t2 % WORD);
    Reduced(t2, t1);
    Reduced(t1, Number(v.d));
  }

  /** From word 16 on the schedule is the sum of four earlier words. */
  lemma ScheduleIs(m: seq<word>, t: nat)
    requires |m| == 16 && 16 <= t < 64
    ensures Number(Schedule(m, t)) == (Number(SmallSigma1(Schedule(m, t - 2))) + Number(Schedule(m, t - 7))
                                       + Number(SmallSigma0(Schedule(m, t - 15))) + Number(Schedule(m, t - 16))) % WORD
  {
    hide Sum4, SmallSigma0, SmallSigma1, Number;
    Sum4Is(SmallSigma1(Schedule(m, t - 2)), Schedule(m, t - 7), SmallSigma0(Schedule(m, t - 15)), Schedule(m, t - 16));
  }

  // Padding.

  /** A number stored most significant byte first. */
  function BigEndian(b: seq<byte>): nat {
    var n := |b|;
    if n == 0 then 0 else 0x100 * BigEndian(b[..n - 1]) + b[n - 1] as nat
  }

  lemma Four(a: byte, b: byte, c: byte, d: byte)
    ensures BigEndian([a, b, c, d]) == 0x100_0000 * a as nat + 0x1_0000 * b as nat + 0x100 * c as nat + d as nat
  {
    var x := [a, b, c, d];
    assert x[..3] == [a, b, c] && [a, b, c][..2] == [a, b] && [a, b][..1] == [a] && [a][..0] == [];
    assert BigEndian([]) == 0;
    assert BigEndian([a]) == 0x100 * BigEndian([]) + a as nat;
    assert BigEndian([a, b]) == 0x100 * BigEndian([a]) + b as nat;
    assert BigEndian([a, b, c]) == 0x100 * BigEndian([a, b]) + c as nat;
  }

  lemma Digits(n: nat)
    ensures n % WORD == 0x100_0000 * (n / 0x100_0000 % 0x100) + 0x1_0000 * (n / 0x1_0000 % 0x100) + 0x100 * (n / 0x100 % 0x100) + n % 0x100
  {
    var a, b, c := n / 0x100, n / 0x1_0000, n / 0x100_0000;
    assert n == 0x100 * a + n % 0x100 && a == 0x100 * (a / 0x100) + a % 0x100 && a / 0x100 == b;
    assert b == 0x100 * (b / 0x100) + b % 0x100 && b / 0x100 == c;
    assert c == 0x100 * (c / 0x100) + c % 0x100;
    Unique(n, c / 0x100, 0x100_0000 * (c % 0x100) + 0x1_0000 * (b % 0x100) + 0x100 * (a % 0x100) + n % 0x100);
  }

  lemma Unique(n: nat, q: nat, r: nat)
    requires n == WORD * q + r && r < WORD
    ensures n % WORD == r
  {}

  lemma ByteValue(n: nat, m: nat)
    requires n < 0x100 && m == n % 0x100
    ensures (m as byte) as nat == n
  {}

  /** The low 32 bits of a number. */
  lemma Be32Is(n: nat)
    ensures BigEndian(Be32(n)) == n % WORD
  {
    hide BigEndian;
    Digits(n);
    Four((n / 0x100_0000 % 256) as byte, (n / 0x1_0000 % 256) as byte, (n / 0x100 % 256) as byte, (n % 256) as byte);
    ByteValue(n / 0x100_0000 % 256, n / 0x100_0000 % 256 % 256);
    ByteValue(n / 0x1_0000 % 256, n / 0x1_0000 % 256 % 256);
    ByteValue(n / 0x100 % 256, n / 0x100 % 256 % 256);
    ByteValue(n % 256, n % 256 % 256);
  }

  lemma {:induction false} BigEndianCat(a: seq<byte>, b: seq<byte>)
    requires |b| == 4
    ensures BigEndian(a + b) == WORD * BigEndian(a) + BigEndian(b)
  {
    var p, q, r := b[..3], b[..2], b[..1];
    assert (a + b)[..|a| + 3] == a + p && (a + p)[..|a| + 2] == a + q && (a + q)[..|a| + 1] == a + r && (a + r)[..|a|] == a;
    assert p[..2] == q && q[..1] == r && r[..0] == [];
    assert BigEndian(a + r) == 0x100 * BigEndian(a) + b[0] as nat && BigEndian(r) == b[0] as nat;
    assert BigEndian(a + q) == 0x100 * BigEndian(a + r) + b[1] as nat && BigEndian(q) == 0x100 * BigEndian(r) + b[1] as nat;
    assert BigEndian(a + p) == 0x100 * BigEndian(a + q) + b[2] as nat && BigEndian(p) == 0x100 * BigEndian(q) + b[2] as nat;
    assert BigEndian(a + b) == 0x100 * BigEndian(a + p) + b[3] as nat && BigEndian(b) == 0x100 * BigEndian(p) + b[3] as nat;
  }

  /** Section 5.1.1: the message, a one bit, as few zeros as will do, and the length in bits as a 64-bit number. */
  lemma PadIs(m: seq<byte>)
    requires 8 * |m| < WORD * WORD
    ensures var p, n := Pad(m), |Pad(m)|;
            && n % 64 == 0 && |m| + 9 <= n < |m| + 9 + 64
            && p[..|m|] == m && p[|m|] == 0x80 && (forall k :: |m| < k < n - 8 ==> p[k] == 0)
            && BigEndian(p[n - 8..]) == 8 * |m|
  {
    hide BigEndian, Be32, Gap;
    var p, n := Pad(m), |Pad(m)|;
    var hi, lo := Be32(8 * |m| / WORD), Be32(8 * |m|);
    assert p == m + [0x80] + Zeros(Gap(|m|)) + hi + lo;
    assert p[n - 8..] == hi + lo;
    BigEndianCat(hi, lo);
    Be32Is(8 * |m| / WORD);
    Be32Is(8 * |m|);
    assert 8 * |m| / WORD < WORD;
  }
}
