/** SHA-256 as FIPS 180-4 defines it: section 4.1.2 (functions), 4.2.2 (constants), 5.1.1 (padding),
    5.3.3 (initial value) and 6.2 (hash computation). */
module Fips180 {
  import opened Words

  function Ch(x: word, y: word, z: word): word { (x & y) ^ (!x & z) }

  function Maj(x: word, y: word, z: word): word { (x & y) ^ (x & z) ^ (y & z) }

  function BigSigma0(x: word): word { x.RotateRight(2) ^ x.RotateRight(13) ^ x.RotateRight(22) }

  function BigSigma1(x: word): word { x.RotateRight(6) ^ x.RotateRight(11) ^ x.RotateRight(25) }

  function SmallSigma0(x: word): word { x.RotateRight(7) ^ x.RotateRight(18) ^ (x >> 3) }

  function SmallSigma1(x: word): word { x.RotateRight(17) ^ x.RotateRight(19) ^ (x >> 10) }

  /** The eight working variables, or the eight words of a hash value. */
  datatype Hash = Hash(a: word, b: word, c: word, d: word, e: word, f: word, g: word, h: word)
  {
    function Plus(o: Hash): Hash {
      Hash(Add(a, o.a), Add(b, o.b), Add(c, o.c), Add(d, o.d), Add(e, o.e), Add(f, o.f), Add(g, o.g), Add(h, o.h))
    }

    function Words(): (s: seq<word>)
      ensures |s| == 8
    {
      [a, b, c, d, e, f, g, h]
    }
  }

  const IV := Hash(0x6a09e667, 0xbb67ae85, 0x3c6ef372, 0xa54ff53a, 0x510e527f, 0x9b05688c, 0x1f83d9ab, 0x5be0cd19)

  function K(t: nat): word
    requires t < 64
  {
    match t / 8
    case 0 => Octet(t % 8, 0x428a2f98, 0x71374491, 0xb5c0fbcf, 0xe9b5dba5, 0x3956c25b, 0x59f111f1, 0x923f82a4, 0xab1c5ed5)
    case 1 => Octet(t % 8, 0xd807aa98, 0x12835b01, 0x243185be, 0x550c7dc3, 0x72be5d74, 0x80deb1fe, 0x9bdc06a7, 0xc19bf174)
    case 2 => Octet(t % 8, 0xe49b69c1, 0xefbe4786, 0x0fc19dc6, 0x240ca1cc, 0x2de92c6f, 0x4a7484aa, 0x5cb0a9dc, 0x76f988da)
    case 3 => Octet(t % 8, 0x983e5152, 0xa831c66d, 0xb00327c8, 0xbf597fc7, 0xc6e00bf3, 0xd5a79147, 0x06ca6351, 0x14292967)
    case 4 => Octet(t % 8, 0x27b70a85, 0x2e1b2138, 0x4d2c6dfc, 0x53380d13, 0x650a7354, 0x766a0abb, 0x81c2c92e, 0x92722c85)
    case 5 => Octet(t % 8, 0xa2bfe8a1, 0xa81a664b, 0xc24b8b70, 0xc76c51a3, 0xd192e819, 0xd6990624, 0xf40e3585, 0x106aa070)
    case 6 => Octet(t % 8, 0x19a4c116, 0x1e376c08, 0x2748774c, 0x34b0bcb5, 0x391c0cb3, 0x4ed8aa4a, 0x5b9cca4f, 0x682e6ff3)
    case _ => Octet(t % 8, 0x748f82ee, 0x78a5636f, 0x84c87814, 0x8cc70208, 0x90befffa, 0xa4506ceb, 0xbef9a3f7, 0xc67178f2)
  }

  function Octet(i: nat, k0: word, k1: word, k2: word, k3: word, k4: word, k5: word, k6: word, k7: word): word {
    if i == 0 then k0 else if i == 1 then k1 else if i == 2 then k2 else if i == 3 then k3
    else if i == 4 then k4 else if i == 5 then k5 else if i == 6 then k6 else k7
  }

  /** A block, or the part of one already received: the schedule word t needs only the words before it. */
  predicate Known(m: seq<word>, t: nat) {
    |m| <= 16 && (t <= |m| || |m| == 16)
  }

  function Schedule(m: seq<word>, t: nat): word
    requires Known(m, t + 1)
  {
    if t < 16 then m[t]
    else Sum4(SmallSigma1(Schedule(m, t - 2)), Schedule(m, t - 7), SmallSigma0(Schedule(m, t - 15)), Schedule(m, t - 16))
  }

  function T1(v: Hash, k: word, w: word): word { Sum5(v.h, BigSigma1(v.e), Ch(v.e, v.f, v.g), k, w) }

  function T2(v: Hash): word { Add(BigSigma0(v.a), Maj(v.a, v.b, v.c)) }

  function Round(v: Hash, k: word, w: word): Hash {
    Hash(Add(T1(v, k, w), T2(v)), v.a, v.b, v.c, Add(v.d, T1(v, k, w)), v.e, v.f, v.g)
  }

  /** The working variables after the first t rounds on block m. */
  function Rounds(v: Hash, m: seq<word>, t: nat): Hash
    requires t <= 64 && Known(m, t)
  {
    if t == 0 then v else Round(Rounds(v, m, t - 1), K(t - 1), Schedule(m, t - 1))
  }

  function Compress(v: Hash, m: seq<word>): Hash
    requires |m| == 16
  {
    Rounds(v, m, 64).Plus(v)
  }

  /** H(n): the chaining value after all whole blocks of ws. */
  function Fold(v: Hash, ws: seq<word>): Hash
  {
    if |ws| < 16 then v else Compress(Fold(v, ws[..|ws| - 16]), ws[|ws| - 16..])
  }

  lemma {:induction false} ScheduleGrows(m: seq<word>, x: word, t: nat)
    requires |m| < 16 && t < |m|
    ensures Schedule(m + [x], t) == Schedule(m, t)
  {}

  lemma {:induction false} RoundsGrow(v: Hash, m: seq<word>, x: word, t: nat)
    requires |m| < 16 && t <= |m|
    ensures Rounds(v, m + [x], t) == Rounds(v, m, t)
  {
    if t > 0 {
      RoundsGrow(v, m, x, t - 1);
      ScheduleGrows(m, x, t - 1);
    }
  }

  lemma FoldEnds(v: Hash, ws: seq<word>)
    requires |ws| % 16 == 0 && |ws| > 0
    ensures Fold(v, ws) == Compress(Fold(v, ws[..|ws| - 16]), ws[|ws| - 16..])
  {
    hide Compress;
  }

  lemma FoldNone(v: Hash)
    ensures Fold(v, []) == v
  {}
}
