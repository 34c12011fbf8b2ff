/** Where the constants of SHA-256 come from (FIPS 180-4, sections 4.2.2 and 5.3.3). */
module Constants {
  import opened Words
  import opened Fips180

  /** The first 64 primes; FirstPrimes shows that they are. */
  function Prime(t: nat): nat
    requires t < 64
  {
    match t / 8
    case 0 => Pick(t % 8, 2, 3, 5, 7, 11, 13, 17, 19)
    case 1 => Pick(t % 8, 23, 29, 31, 37, 41, 43, 47, 53)
    case 2 => Pick(t % 8, 59, 61, 67, 71, 73, 79, 83, 89)
    case 3 => Pick(t % 8, 97, 101, 103, 107, 109, 113, 127, 131)
    case 4 => Pick(t % 8, 137, 139, 149, 151, 157, 163, 167, 173)
    case 5 => Pick(t % 8, 179, 181, 191, 193, 197, 199, 211, 223)
    case 6 => Pick(t % 8, 227, 229, 233, 239, 241, 251, 257, 263)
    case _ => Pick(t % 8, 269, 271, 277, 281, 283, 293, 307, 311)
  }

  function Pick(i: nat, p0: nat, p1: nat, p2: nat, p3: nat, p4: nat, p5: nat, p6: nat, p7: nat): nat {
    if i == 0 then p0 else if i == 1 then p1 else if i == 2 then p2 else if i == 3 then p3
    else if i == 4 then p4 else if i == 5 then p5 else if i == 6 then p6 else p7
  }

  // The table holds the first 64 primes.

  predicate IsPrime(n: nat) {
    n >= 2 && forall d :: 2 <= d < n ==> n % d != 0
  }

  /** Below 19 * 19 a number that is not prime has one of these factors. */
  predicate SmallFactor(n: nat) {
    || (n % 2 == 0 && n != 2) || (n % 3 == 0 && n != 3) || (n % 5 == 0 && n != 5) || (n % 7 == 0 && n != 7)
    || (n % 11 == 0 && n != 11) || (n % 13 == 0 && n != 13) || (n % 17 == 0 && n != 17)
  }

  lemma SmallFactorComposite(n: nat)
    requires n >= 2 && SmallFactor(n)
    ensures !IsPrime(n)
  {
    var d := if n % 2 == 0 && n != 2 then 2 else if n % 3 == 0 && n != 3 then 3 else if n % 5 == 0 && n != 5 then 5
             else if n % 7 == 0 && n != 7 then 7 else if n % 11 == 0 && n != 11 then 11 else if n % 13 == 0 && n != 13 then 13 else 17;
    assert n % d == 0;
    Multiple(n, d);
  }

  lemma Multiple(n: nat, d: nat)
    requires n > 0 && 0 < d && n % d == 0
    ensures d <= n
  {}

  /** A factor below 19 gives one of the seven. */
  lemma FactorIsSmall(n: nat, m: nat)
    requires 2 <= m <= 18 && m < n && n % m == 0
    ensures SmallFactor(n)
  {
    var q := n / m;
    assert n == m * q;
    Factor(n, m, q);
  }

  lemma Factor(n: nat, m: nat, q: nat)
    requires 2 <= m <= 18 && m < n && n == m * q
    ensures SmallFactor(n)
  {
    if m == 2 || m == 4 || m == 6 || m == 8 || m == 10 || m == 12 || m == 14 || m == 16 || m == 18 {
      Times(2, m / 2, q, n);
    } else if m == 3 || m == 9 || m == 15 {
      Times(3, m / 3, q, n);
    } else {
      Times(m, 1, q, n);
    }
  }

  lemma Times(p: nat, a: nat, q: nat, n: nat)
    requires p > 0 && n == p * a * q
    ensures n % p == 0
  {
    assert n == p * (a * q);
    ProductRemainder(p, a * q);
  }

  lemma ProductRemainder(p: nat, k: nat)
    requires p > 0
    ensures p * k % p == 0
  {
    var x := p * k;
    Split(p, k, x / p, x % p);
  }

  lemma Split(p: nat, k: nat, d: nat, r: nat)
    requires p * k == p * d + r && r < p
    ensures r == 0
  {
    if k > d {
      assert p * k == p * d + p * (k - d);
      AtLeast(p, k - d);
    } else if k < d {
      assert p * d == p * k + p * (d - k);
      AtLeast(p, d - k);
    }
  }

  lemma AtLeast(p: nat, j: nat)
    requires j >= 1
    ensures p * j >= p
  {}

  lemma NoSmallFactorPrime(n: nat)
    requires 2 <= n < 361 && !SmallFactor(n)
    ensures IsPrime(n)
  {
    forall d | 2 <= d < n
      ensures n % d != 0
    {
      if n % d == 0 {
        var e := n / d;
        assert n == d * e;
        if d <= 18 {
          FactorIsSmall(n, d);
        } else {
          Cofactor(n, d, e);
          Times(e, 1, d, n);
          FactorIsSmall(n, e);
        }
      }
    }
  }

  lemma Cofactor(n: nat, d: nat, e: nat)
    requires n == d * e && 19 <= d < n < 361
    ensures 2 <= e <= 18 && e < n
  {
    if e >= 19 {
      Larger(d, e);
    }
  }

  lemma Larger(d: nat, e: nat)
    requires d >= 19 && e >= 19
    ensures d * e >= 361
  {}

  predicate Gap(lo: nat, hi: nat)
    decreases hi - lo
  {
    lo >= hi || (SmallFactor(lo) && Gap(lo + 1, hi))
  }

  lemma {:induction false} GapHasNone(lo: nat, hi: nat, n: nat)
    requires Gap(lo, hi) && lo <= n < hi
    ensures SmallFactor(n)
    decreases hi - lo
  {
    if lo < n {
      GapHasNone(lo + 1, hi, n);
    }
  }

  /** No small factor, and small factors all the way to the next prime in the table. */
  predicate Follows(p: nat, q: nat) { p >= 2 && !SmallFactor(p) && p < q && Gap(p + 1, q) }

  lemma Primes0(t: nat)
    requires 0 <= t < 8
    ensures Follows(Prime(t), Prime(t + 1))
  {
    assert Follows(2, 3);
    assert Follows(3, 5);
    assert Follows(5, 7);
    assert Follows(7, 11);
    assert Follows(11, 13);
    assert Follows(13, 17);
    assert Follows(17, 19);
    assert Follows(19, 23);
  }

  lemma Primes8(t: nat)
    requires 8 <= t < 16
    ensures Follows(Prime(t), Prime(t + 1))
  {
    assert Follows(23, 29);
    assert Follows(29, 31);
    assert Follows(31, 37);
    assert Follows(37, 41);
    assert Follows(41, 43);
    assert Follows(43, 47);
    assert Follows(47, 53);
    assert Follows(53, 59);
  }

  lemma Primes16(t: nat)
    requires 16 <= t < 24
    ensures Follows(Prime(t), Prime(t + 1))
  {
    assert Follows(59, 61);
    assert Follows(61, 67);
    assert Follows(67, 71);
    assert Follows(71, 73);
    assert Follows(73, 79);
    assert Follows(79, 83);
    assert Follows(83, 89);
    assert Follows(89, 97);
  }

  lemma Primes24(t: nat)
    requires 24 <= t < 32
    ensures Follows(Prime(t), Prime(t + 1))
  {
    assert Follows(97, 101);
    assert Follows(101, 103);
    assert Follows(103, 107);
    assert Follows(107, 109);
    assert Follows(109, 113);
    assert Follows(113, 127);
    assert Follows(127, 131);
    assert Follows(131, 137);
  }

  lemma Primes32(t: nat)
    requires 32 <= t < 40
    ensures Follows(Prime(t), Prime(t + 1))
  {
    assert Follows(137, 139);
    assert Follows(139, 149);
    assert Follows(149, 151);
    assert Follows(151, 157);
    assert Follows(157, 163);
    assert Follows(163, 167);
    assert Follows(167, 173);
    assert Follows(173, 179);
  }

  lemma Primes40(t: nat)
    requires 40 <= t < 48
    ensures Follows(Prime(t), Prime(t + 1))
  {
    assert Follows(179, 181);
    assert Follows(181, 191);
    assert Follows(191, 193);
    assert Follows(193, 197);
    assert Follows(197, 199);
    assert Follows(199, 211);
    assert Follows(211, 223);
    assert Follows(223, 227);
  }

  lemma Primes48(t: nat)
    requires 48 <= t < 56
    ensures Follows(Prime(t), Prime(t + 1))
  {
    assert Follows(227, 229);
    assert Follows(229, 233);
    assert Follows(233, 239);
    assert Follows(239, 241);
    assert Follows(241, 251);
    assert Follows(251, 257);
    assert Follows(257, 263);
    assert Follows(263, 269);
  }

  lemma Primes56(t: nat)
    requires 56 <= t < 63
    ensures Follows(Prime(t), Prime(t + 1))
  {
    assert Follows(269, 271);
    assert Follows(271, 277);
    assert Follows(277, 281);
    assert Follows(281, 283);
    assert Follows(283, 293);
    assert Follows(293, 307);
    assert Follows(307, 311);
  }

  lemma TableFollows(t: nat)
    requires t < 63
    ensures Follows(Prime(t), Prime(t + 1))
  {
    hide Follows, Prime;
    if t < 8 { Primes0(t); } else if t < 16 { Primes8(t); } else if t < 24 { Primes16(t); } else if t < 32 { Primes24(t); }
    else if t < 40 { Primes32(t); } else if t < 48 { Primes40(t); } else if t < 56 { Primes48(t); } else { Primes56(t); }
  }

  lemma Below361(t: nat)
    requires t < 64
    ensures 2 <= Prime(t) < 361 && Prime(0) == 2 && Prime(63) == 311
  {}

  /** The first is 2, all are prime, and there is no prime between one and the next. */
  lemma FirstPrimes(t: nat)
    requires t < 64
    ensures IsPrime(Prime(t)) && Prime(0) == 2
    ensures t < 63 ==> Prime(t) < Prime(t + 1) && forall n: nat :: Prime(t) < n < Prime(t + 1) ==> !IsPrime(n)
  {
    Below361(t);
    hide Prime, IsPrime, SmallFactor, Gap;
    if t < 63 {
      TableFollows(t);
      forall n: nat | Prime(t) < n < Prime(t + 1)
        ensures !IsPrime(n)
      {
        GapHasNone(Prime(t) + 1, Prime(t + 1), n);
        SmallFactorComposite(n);
      }
    } else {
      assert !SmallFactor(311) by { LastPrime(); }
    }
    NoSmallFactorPrime(Prime(t));
  }

  lemma LastPrime()
    ensures !SmallFactor(311)
  {}

  /** k is the first 32 bits of the fractional part of the cube root of p, whose integer part is root. */
  predicate CubeRootBits(p: nat, root: nat, k: nat) {
    var c := root * 0x1_0000_0000 + k;
    k < 0x1_0000_0000 && c * c * c <= p * 0x1_0000_0000_0000_0000_0000_0000 < (c + 1) * (c + 1) * (c + 1)
  }

  /** The same for the square root. */
  predicate SquareRootBits(p: nat, root: nat, k: nat) {
    var c := root * 0x1_0000_0000 + k;
    k < 0x1_0000_0000 && c * c <= p * 0x1_0000_0000_0000_0000 < (c + 1) * (c + 1)
  }

  /** The integer part of the cube root of a prime in the table. */
  function Cbrt(p: nat): nat {
    if p < 8 then 1 else if p < 27 then 2 else if p < 64 then 3 else if p < 125 then 4 else if p < 216 then 5 else 6
  }

  predicate Derived(t: nat)
    requires t < 64
  {
    CubeRootBits(Prime(t), Cbrt(Prime(t)), K(t) as nat)
  }

  lemma Derive(t: nat, p: nat, root: nat, k: nat)
    requires t < 64 && Prime(t) == p && Cbrt(p) == root && K(t) as nat == k && CubeRootBits(p, root, k)
    ensures Derived(t)
  {}

  /** Every round constant is what section 4.2.2 says it is. */
  lemma RoundConstants(t: nat)
    requires t < 64
    ensures CubeRootBits(Prime(t), Cbrt(Prime(t)), K(t) as nat)
  {
    hide K, Prime, Cbrt, CubeRootBits;
    match t / 4
    case 0 => Constants0();
    case 1 => Constants4();
    case 2 => Constants8();
    case 3 => Constants12();
    case 4 => Constants16();
    case 5 => Constants20();
    case 6 => Constants24();
    case 7 => Constants28();
    case 8 => Constants32();
    case 9 => Constants36();
    case 10 => Constants40();
    case 11 => Constants44();
    case 12 => Constants48();
    case 13 => Constants52();
    case 14 => Constants56();
    case _ => Constants60();
  }

  lemma Constants0()
    ensures Derived(0) && Derived(1) && Derived(2) && Derived(3)
  {
    hide Derived;
    Derive(0, 2, 1, 0x428a2f98);
    Derive(1, 3, 1, 0x71374491);
    Derive(2, 5, 1, 0xb5c0fbcf);
    Derive(3, 7, 1, 0xe9b5dba5);
  }

  lemma Constants4()
    ensures Derived(4) && Derived(5) && Derived(6) && Derived(7)
  {
    hide Derived;
    Derive(4, 11, 2, 0x3956c25b);
    Derive(5, 13, 2, 0x59f111f1);
    Derive(6, 17, 2, 0x923f82a4);
    Derive(7, 19, 2, 0xab1c5ed5);
  }

  lemma Constants8()
    ensures Derived(8) && Derived(9) && Derived(10) && Derived(11)
  {
    hide Derived;
    Derive(8, 23, 2, 0xd807aa98);
    Derive(9, 29, 3, 0x12835b01);
    Derive(10, 31, 3, 0x243185be);
    Derive(11, 37, 3, 0x550c7dc3);
  }

  lemma Constants12()
    ensures Derived(12) && Derived(13) && Derived(14) && Derived(15)
  {
    hide Derived;
    Derive(12, 41, 3, 0x72be5d74);
    Derive(13, 43, 3, 0x80deb1fe);
    Derive(14, 47, 3, 0x9bdc06a7);
    Derive(15, 53, 3, 0xc19bf174);
  }

  lemma Constants16()
    ensures Derived(16) && Derived(17) && Derived(18) && Derived(19)
  {
    hide Derived;
    Derive(16, 59, 3, 0xe49b69c1);
    Derive(17, 61, 3, 0xefbe4786);
    Derive(18, 67, 4, 0x0fc19dc6);
    Derive(19, 71, 4, 0x240ca1cc);
  }

  lemma Constants20()
    ensures Derived(20) && Derived(21) && Derived(22) && Derived(23)
  {
    hide Derived;
    Derive(20, 73, 4, 0x2de92c6f);
    Derive(21, 79, 4, 0x4a7484aa);
    Derive(22, 83, 4, 0x5cb0a9dc);
    Derive(23, 89, 4, 0x76f988da);
  }

  lemma Constants24()
    ensures Derived(24) && Derived(25) && Derived(26) && Derived(27)
  {
    hide Derived;
    Derive(24, 97, 4, 0x983e5152);
    Derive(25, 101, 4, 0xa831c66d);
    Derive(26, 103, 4, 0xb00327c8);
    Derive(27, 107, 4, 0xbf597fc7);
  }

  lemma Constants28()
    ensures Derived(28) && Derived(29) && Derived(30) && Derived(31)
  {
    hide Derived;
    Derive(28, 109, 4, 0xc6e00bf3);
    Derive(29, 113, 4, 0xd5a79147);
    Derive(30, 127, 5, 0x06ca6351);
    Derive(31, 131, 5, 0x14292967);
  }

  lemma Constants32()
    ensures Derived(32) && Derived(33) && Derived(34) && Derived(35)
  {
    hide Derived;
    Derive(32, 137, 5, 0x27b70a85);
    Derive(33, 139, 5, 0x2e1b2138);
    Derive(34, 149, 5, 0x4d2c6dfc);
    Derive(35, 151, 5, 0x53380d13);
  }

  lemma Constants36()
    ensures Derived(36) && Derived(37) && Derived(38) && Derived(39)
  {
    hide Derived;
    Derive(36, 157, 5, 0x650a7354);
    Derive(37, 163, 5, 0x766a0abb);
    Derive(38, 167, 5, 0x81c2c92e);
    Derive(39, 173, 5, 0x92722c85);
  }

  lemma Constants40()
    ensures Derived(40) && Derived(41) && Derived(42) && Derived(43)
  {
    hide Derived;
    Derive(40, 179, 5, 0xa2bfe8a1);
    Derive(41, 181, 5, 0xa81a664b);
    Derive(42, 191, 5, 0xc24b8b70);
    Derive(43, 193, 5, 0xc76c51a3);
  }

  lemma Constants44()
    ensures Derived(44) && Derived(45) && Derived(46) && Derived(47)
  {
    hide Derived;
    Derive(44, 197, 5, 0xd192e819);
    Derive(45, 199, 5, 0xd6990624);
    Derive(46, 211, 5, 0xf40e3585);
    Derive(47, 223, 6, 0x106aa070);
  }

  lemma Constants48()
    ensures Derived(48) && Derived(49) && Derived(50) && Derived(51)
  {
    hide Derived;
    Derive(48, 227, 6, 0x19a4c116);
    Derive(49, 229, 6, 0x1e376c08);
    Derive(50, 233, 6, 0x2748774c);
    Derive(51, 239, 6, 0x34b0bcb5);
  }

  lemma Constants52()
    ensures Derived(52) && Derived(53) && Derived(54) && Derived(55)
  {
    hide Derived;
    Derive(52, 241, 6, 0x391c0cb3);
    Derive(53, 251, 6, 0x4ed8aa4a);
    Derive(54, 257, 6, 0x5b9cca4f);
    Derive(55, 263, 6, 0x682e6ff3);
  }

  lemma Constants56()
    ensures Derived(56) && Derived(57) && Derived(58) && Derived(59)
  {
    hide Derived;
    Derive(56, 269, 6, 0x748f82ee);
    Derive(57, 271, 6, 0x78a5636f);
    Derive(58, 277, 6, 0x84c87814);
    Derive(59, 281, 6, 0x8cc70208);
  }

  lemma Constants60()
    ensures Derived(60) && Derived(61) && Derived(62) && Derived(63)
  {
    hide Derived;
    Derive(60, 283, 6, 0x90befffa);
    Derive(61, 293, 6, 0xa4506ceb);
    Derive(62, 307, 6, 0xbef9a3f7);
    Derive(63, 311, 6, 0xc67178f2);
  }

  /** Every word of the initial value is what section 5.3.3 says it is. */
  lemma InitialValue()
    ensures SquareRootBits(2, 1, IV.a as nat)
    ensures SquareRootBits(3, 1, IV.b as nat)
    ensures SquareRootBits(5, 2, IV.c as nat)
    ensures SquareRootBits(7, 2, IV.d as nat)
    ensures SquareRootBits(11, 3, IV.e as nat)
    ensures SquareRootBits(13, 3, IV.f as nat)
    ensures SquareRootBits(17, 4, IV.g as nat)
    ensures SquareRootBits(19, 4, IV.h as nat)
  {
    assert SquareRootBits(2, 1, 0x6a09e667);
    assert SquareRootBits(3, 1, 0xbb67ae85);
    assert SquareRootBits(5, 2, 0x3c6ef372);
    assert SquareRootBits(7, 2, 0xa54ff53a);
    assert SquareRootBits(11, 3, 0x510e527f);
    assert SquareRootBits(13, 3, 0x9b05688c);
    assert SquareRootBits(17, 4, 0x1f83d9ab);
    assert SquareRootBits(19, 4, 0x5be0cd19);
  }
}
