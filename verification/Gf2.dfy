/** Division of bit strings by the polynomial x^16 + x^12 + x^5 + 1 over GF(2) (section 2 of ITU-T V.41). */
module Gf2 {
  /** A remainder: sixteen coefficients, that of x^15 first. */
  type Rem = r: seq<bool> | |r| == 16 witness seq(16, _ => false)

  /** The divisor without its leading term: x^12, x^5 and 1. */
  predicate Tap(i: int) { i == 3 || i == 10 || i == 15 }

  /** One step: the next message bit is added to the top coefficient of the remainder, which is then multiplied by x;
      a top coefficient of one subtracts the divisor. */
  function Shift(r: Rem, bit: bool): Rem {
    seq(16, i requires 0 <= i < 16 => (i < 15 && r[i + 1]) != (r[0] != bit && Tap(i)))
  }

  function Divide(r: Rem, bits: seq<bool>): Rem
    decreases |bits|
  {
    if |bits| == 0 then r else Divide(Shift(r, bits[0]), bits[1..])
  }

  function Zeros(n: nat): (s: seq<bool>)
    ensures |s| == n
  {
    seq(n, _ => false)
  }

  const ZERO: Rem := Zeros(16)

  lemma {:induction false} DivideAppend(r: Rem, a: seq<bool>, b: seq<bool>)
    ensures Divide(r, a + b) == Divide(Divide(r, a), b)
    decreases |a|
  {
    hide Shift;
    if |a| == 0 {
      assert a + b == b;
    } else {
      DivideAppend(Shift(r, a[0]), a[1..], b);
      assert (a + b)[0] == a[0] && (a + b)[1..] == a[1..] + b;
    }
  }

  // Linearity.

  function Xor(a: seq<bool>, b: seq<bool>): (s: seq<bool>)
    requires |a| == |b|
    ensures |s| == |a|
  {
    seq(|a|, i requires 0 <= i < |a| => a[i] != b[i])
  }

  lemma XorAppend(a: seq<bool>, b: seq<bool>, c: seq<bool>, d: seq<bool>)
    requires |a| == |b| && |c| == |d|
    ensures Xor(a + c, b + d) == Xor(a, b) + Xor(c, d)
  {}

  lemma ShiftLinear(r: Rem, q: Rem, x: bool, y: bool)
    ensures Shift(Xor(r, q), x != y) == Xor(Shift(r, x), Shift(q, y))
  {}

  lemma DivideCons(r: Rem, bits: seq<bool>)
    requires |bits| > 0
    ensures Divide(r, bits) == Divide(Shift(r, bits[0]), bits[1..])
  {}

  /** The remainder of a bitwise difference is the difference of the remainders. */
  lemma {:induction false} Linear(r: Rem, q: Rem, a: seq<bool>, b: seq<bool>)
    requires |a| == |b|
    ensures Divide(Xor(r, q), Xor(a, b)) == Xor(Divide(r, a), Divide(q, b))
    decreases |a|
  {
    hide Shift;
    if |a| == 0 {
      assert Xor(a, b) == [];
    } else {
      ShiftLinear(r, q, a[0], b[0]);
      Linear(Shift(r, a[0]), Shift(q, b[0]), a[1..], b[1..]);
      var c := Xor(a, b);
      assert c[0] == (a[0] != b[0]) && c[1..] == Xor(a[1..], b[1..]);
      DivideCons(Xor(r, q), c);
      DivideCons(r, a);
      DivideCons(q, b);
    }
  }

  // Parity: the divisor has an even number of terms.

  function Parity(s: seq<bool>): bool {
    if |s| == 0 then false else s[0] != Parity(s[1..])
  }

  lemma {:induction false} ParityXor(a: seq<bool>, b: seq<bool>)
    requires |a| == |b|
    ensures Parity(Xor(a, b)) == (Parity(a) != Parity(b))
  {
    if |a| > 0 {
      ParityXor(a[1..], b[1..]);
      assert Xor(a, b)[1..] == Xor(a[1..], b[1..]);
    }
  }

  lemma {:induction false} ParityAppend(a: seq<bool>, b: seq<bool>)
    ensures Parity(a + b) == (Parity(a) != Parity(b))
  {
    if |a| == 0 {
      assert a + b == b;
    } else {
      ParityAppend(a[1..], b);
      assert (a + b)[1..] == a[1..] + b;
    }
  }

  lemma {:induction false} ParityZeros(n: nat)
    ensures !Parity(Zeros(n))
  {
    if n > 0 {
      ParityZeros(n - 1);
      assert Zeros(n)[1..] == Zeros(n - 1);
    }
  }

  const TAPS: Rem := Zeros(3) + [true] + Zeros(6) + [true] + Zeros(4) + [true]

  lemma ShiftIsXor(r: Rem, b: bool)
    ensures Shift(r, b) == Xor(r[1..] + [false], if r[0] != b then TAPS else ZERO)
  {}

  lemma TapsParity()
    ensures Parity(TAPS)
  {
    ParityZeros(3);
    ParityZeros(6);
    ParityZeros(4);
    ParityAppend(Zeros(3), [true]);
    ParityAppend(Zeros(3) + [true], Zeros(6));
    ParityAppend(Zeros(3) + [true] + Zeros(6), [true]);
    ParityAppend(Zeros(3) + [true] + Zeros(6) + [true], Zeros(4));
    ParityAppend(Zeros(3) + [true] + Zeros(6) + [true] + Zeros(4), [true]);
  }

  lemma ShiftParity(r: Rem, b: bool)
    ensures Parity(Shift(r, b)) == (Parity(r) != b)
  {
    hide Shift, Xor, Zeros;
    ShiftIsXor(r, b);
    ParityXor(r[1..] + [false], if r[0] != b then TAPS else ZERO);
    ParityAppend(r[1..], [false]);
    TapsParity();
    ParityZeros(16);
  }

  lemma {:induction false} DivideParity(r: Rem, s: seq<bool>)
    ensures Parity(Divide(r, s)) == (Parity(r) != Parity(s))
    decreases |s|
  {
    hide Shift;
    if |s| > 0 {
      ShiftParity(r, s[0]);
      DivideParity(Shift(r, s[0]), s[1..]);
    }
  }

  // Injectivity and bursts.

  lemma ShiftInjective(r: Rem, q: Rem, b: bool)
    requires Shift(r, b) == Shift(q, b)
    ensures r == q
  {
    var s, t := Shift(r, b), Shift(q, b);
    assert s[15] == t[15];
    assert r[0] == q[0];
    forall j | 0 < j < 16
      ensures r[j] == q[j]
    {
      assert s[j - 1] == t[j - 1];
    }
  }

  lemma {:induction false} DivideInjective(r: Rem, q: Rem, s: seq<bool>)
    requires Divide(r, s) == Divide(q, s)
    ensures r == q
    decreases |s|
  {
    hide Shift;
    if |s| > 0 {
      DivideInjective(Shift(r, s[0]), Shift(q, s[0]), s[1..]);
      ShiftInjective(r, q, s[0]);
    }
  }

  /** At most sixteen bits as leading coefficients. */
  function Lead(w: seq<bool>): Rem
    requires |w| <= 16
  {
    w + Zeros(16 - |w|)
  }

  lemma ShiftLead(r: Rem, w: seq<bool>)
    requires 0 < |w| <= 16
    ensures Shift(Xor(r, Lead(w)), false) == Xor(Shift(r, w[0]), Lead(w[1..]))
  {}

  /** A chunk of at most sixteen bits may be added to the remainder at once. */
  lemma {:induction false} DivideChunk(r: Rem, w: seq<bool>)
    requires |w| <= 16
    ensures Divide(r, w) == Divide(Xor(r, Lead(w)), Zeros(|w|))
    decreases |w|
  {
    hide Shift, Lead;
    if |w| == 0 {
      AddNothing(r, w);
    } else {
      DivideChunk(Shift(r, w[0]), w[1..]);
      ShiftLead(r, w);
      assert Zeros(|w|)[1..] == Zeros(|w[1..]|);
    }
  }

  lemma AddNothing(r: Rem, w: seq<bool>)
    requires |w| == 0
    ensures Xor(r, Lead(w)) == r
  {}

  /** Two messages that differ, but only within sixteen consecutive bits, have different remainders. */
  lemma BurstDetected(p: seq<bool>, u: seq<bool>, v: seq<bool>, s: seq<bool>)
    requires |u| == |v| <= 16 && u != v
    ensures Divide(ZERO, p + u + s) != Divide(ZERO, p + v + s)
  {
    hide Shift, Lead, Xor;
    var r := Divide(ZERO, p);
    DivideAppend(ZERO, p + u, s);
    DivideAppend(ZERO, p, u);
    DivideAppend(ZERO, p + v, s);
    DivideAppend(ZERO, p, v);
    if Divide(ZERO, p + u + s) == Divide(ZERO, p + v + s) {
      DivideInjective(Divide(r, u), Divide(r, v), s);
      DivideChunk(r, u);
      DivideChunk(r, v);
      DivideInjective(Xor(r, Lead(u)), Xor(r, Lead(v)), Zeros(|u|));
      LeadInjective(r, u, v);
    }
  }

  lemma LeadInjective(r: Rem, u: seq<bool>, v: seq<bool>)
    requires |u| == |v| <= 16 && Xor(r, Lead(u)) == Xor(r, Lead(v))
    ensures u == v
  {
    forall i | 0 <= i < |u|
      ensures u[i] == v[i]
    {
      assert Xor(r, Lead(u))[i] == Xor(r, Lead(v))[i];
    }
  }

  // Polynomials as sets of exponents, and what it means to be the remainder.

  type Poly = set<int>

  /** a * (x^16 + x^12 + x^5 + 1) + r has x^n. */
  predicate DivisorTimesPlus(a: Poly, r: Rem, n: int) {
    (((n - 16 in a) != (n - 12 in a)) != ((n - 5 in a) != (n in a))) != Coefficient(r, n)
  }

  predicate Coefficient(r: Rem, n: int) { 0 <= n < 16 && r[15 - n] }

  /** The message has x^n; its last bit is the coefficient of 1. */
  predicate Message(bits: seq<bool>, n: int) {
    0 <= n < |bits| && bits[|bits| - 1 - n]
  }

  /** The message times x^16 is q times the divisor plus r. */
  ghost predicate IsQuotient(bits: seq<bool>, q: Poly, r: Rem) {
    && (forall n :: n in q ==> n >= 0)
    && (forall n :: Message(bits, n - 16) == DivisorTimesPlus(q, r, n))
  }

  function UpOne(q: Poly, low: bool): Poly {
    (set n | n in q :: n + 1) + (if low then {0} else {})
  }

  lemma UpOneHas(q: Poly, low: bool, n: int)
    requires forall k :: k in q ==> k >= 0
    ensures n in UpOne(q, low) <==> if n == 0 then low else n - 1 in q
  {
    if n - 1 in q {
      assert (n - 1) + 1 in UpOne(q, low);
    }
  }

  lemma DivisionStep(bits: seq<bool>, b: bool, q: Poly, r: Rem)
    requires IsQuotient(bits, q, r)
    ensures IsQuotient(bits + [b], UpOne(q, r[0] != b), Shift(r, b))
  {
    hide Message, DivisorTimesPlus, UpOne, Shift;
    var t := UpOne(q, r[0] != b);
    forall n | n in t
      ensures n >= 0
    {
      UpOneHas(q, r[0] != b, n);
    }
    forall n: int
      ensures Message(bits + [b], n - 16) == DivisorTimesPlus(t, Shift(r, b), n)
    {
      StepAt(bits, b, q, r, n);
    }
  }

  lemma StepAt(bits: seq<bool>, b: bool, q: Poly, r: Rem, n: int)
    requires IsQuotient(bits, q, r)
    ensures Message(bits + [b], n - 16) == DivisorTimesPlus(UpOne(q, r[0] != b), Shift(r, b), n)
  {
    hide UpOne;
    var top := r[0] != b;
    UpOneHas(q, top, n);
    UpOneHas(q, top, n - 5);
    UpOneHas(q, top, n - 12);
    UpOneHas(q, top, n - 16);
    MessageGrows(bits, b, n - 16);
    ShiftAt(r, b, n);
    assert Message(bits, n - 1 - 16) == DivisorTimesPlus(q, r, n - 1);
    assert n - 5 - 1 == n - 1 - 5 && n - 12 - 1 == n - 1 - 12 && n - 16 - 1 == n - 1 - 16;
  }

  lemma MessageGrows(bits: seq<bool>, b: bool, n: int)
    ensures Message(bits + [b], n) == if n == 0 then b else Message(bits, n - 1)
  {}

  lemma ShiftAt(r: Rem, b: bool, n: int)
    ensures Coefficient(Shift(r, b), n) == ((n < 16 && Coefficient(r, n - 1)) != (r[0] != b && (n == 12 || n == 5 || n == 0)))
  {}

  /** Divide computes a remainder. */
  lemma {:induction false} DivideIsRemainder(bits: seq<bool>) returns (q: Poly)
    ensures IsQuotient(bits, q, Divide(ZERO, bits))
    decreases |bits|
  {
    hide Shift;
    if |bits| == 0 {
      q := {};
    } else {
      var n := |bits| - 1;
      q := DivideIsRemainder(bits[..n]);
      var r := Divide(ZERO, bits[..n]);
      DivisionStep(bits[..n], bits[n], q, r);
      assert bits == bits[..n] + [bits[n]];
      DivideAppend(ZERO, bits[..n], [bits[n]]);
      assert Divide(r, [bits[n]]) == Shift(r, bits[n]);
      q := UpOne(q, r[0] != bits[n]);
    }
  }

  /** And there is only one: a nonzero multiple of the divisor has a term x^16 or higher. */
  lemma RemainderUnique(bits: seq<bool>, q: Poly, r: Rem, p: Poly, s: Rem)
    requires IsQuotient(bits, q, r) && IsQuotient(bits, p, s)
    ensures q == p && r == s
  {
    hide Message, DivisorTimesPlus;
    forall n: int
      ensures n in q <==> n in p
    {
      if (n in q) != (n in p) {
        var m := TopDifference(q, p, n);
        TopTerm(q, r, p, s, m);
      }
    }
    assert q == p;
    SameRemainder(bits, q, r, s);
  }

  lemma TopTerm(q: Poly, r: Rem, p: Poly, s: Rem, m: int)
    requires m >= 0 && (m in q) != (m in p) && forall n :: n > m ==> ((n in q) == (n in p))
    ensures DivisorTimesPlus(q, r, m + 16) != DivisorTimesPlus(p, s, m + 16)
  {}

  lemma SameRemainder(bits: seq<bool>, q: Poly, r: Rem, s: Rem)
    requires IsQuotient(bits, q, r) && IsQuotient(bits, q, s)
    ensures r == s
  {
    forall i | 0 <= i < 16
      ensures r[i] == s[i]
    {
      var n := 15 - i;
      assert Message(bits, n - 16) == DivisorTimesPlus(q, r, n);
      assert Message(bits, n - 16) == DivisorTimesPlus(q, s, n);
    }
  }

  function Above(a: Poly, k: int): Poly { set n | n in a && n > k }

  /** The highest exponent two polynomials do not share, searched upwards from one they do not share. */
  lemma TopDifference(q: Poly, p: Poly, k: int) returns (m: int)
    requires (k in q) != (k in p) && k >= 0
    ensures m >= 0 && (m in q) != (m in p) && forall n :: n > m ==> ((n in q) == (n in p))
    decreases Above(q + p, k)
  {
    if forall n :: n > k ==> ((n in q) == (n in p)) {
      m := k;
    } else {
      var j :| j > k && (j in q) != (j in p);
      assert j in Above(q + p, k) && j !in Above(q + p, j) && Above(q + p, j) <= Above(q + p, k);
      m := TopDifference(q, p, j);
    }
  }
}
