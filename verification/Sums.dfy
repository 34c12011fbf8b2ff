/** The additions of the SHA blocks are additions of numbers modulo 2^32. */
module Sums {
  import opened Words

  const WORD := 0x1_0000_0000

  // Four bits.

  function N1(x: bv1): nat { x as nat }

  function N4(x: bv4): nat { x as nat }

  function N5(x: bv5): nat { x as nat }

  function Plus4(x: bv4, y: bv4, c: bv1): bv5 { x as bv5 + y as bv5 + c as bv5 }

  lemma Total4(x: bv4, y: bv4, c: bv1)
    ensures N5(Plus4(x, y, c)) == N4(x) + N4(y) + N1(c)
  {}

  function Carry5(x: bv5): bv1 { (x >> 4) as bv1 }

  function Rest5(x: bv5): bv4 { (x & 0xf) as bv4 }

  lemma Carried5(x: bv5)
    ensures N5(x) == 0x10 * N1(Carry5(x)) + N4(Rest5(x))
  {
    assert x == (((x >> 4) as bv1) as bv5 << 4) | ((x & 0xf) as bv4) as bv5;
  }

  // 8 bits.

  function N8(x: bv8): nat { x as nat }

  function N9(x: bv9): nat { x as nat }

  function Plus8(x: bv8, y: bv8, c: bv1): bv9 { x as bv9 + y as bv9 + c as bv9 }

  function High8(x: bv8): bv4 { (x >> 4) as bv4 }

  function Low8(x: bv8): bv4 { (x & 0xf) as bv4 }

  function Top9(x: bv9): bv5 { (x >> 4) as bv5 }

  function Bottom9(x: bv9): bv4 { (x & 0xf) as bv4 }

  lemma Value8(x: bv8)
    ensures N8(x) == 0x10 * N4(High8(x)) + N4(Low8(x))
  {
    assert x == (((x >> 4) as bv4) as bv8 << 4) | ((x & 0xf) as bv4) as bv8;
  }

  lemma Value9(x: bv9)
    ensures N9(x) == 0x10 * N5(Top9(x)) + N4(Bottom9(x))
  {
    assert x == (((x >> 4) as bv5) as bv9 << 4) | ((x & 0xf) as bv4) as bv9;
  }

  lemma LowHalf8(x: bv8, y: bv8, c: bv1)
    ensures Bottom9(Plus8(x, y, c)) == Rest5(Plus4(Low8(x), Low8(y), c))
  {}

  lemma HighHalf8(x: bv8, y: bv8, c: bv1)
    ensures Top9(Plus8(x, y, c)) == Plus4(High8(x), High8(y), Carry5(Plus4(Low8(x), Low8(y), c)))
  {}

  lemma Total8(x: bv8, y: bv8, c: bv1)
    ensures N9(Plus8(x, y, c)) == N8(x) + N8(y) + N1(c)
  {
    hide N1, N4, N5, N8, N9, Plus4, Plus8, High8, Low8, Carry5, Rest5, Top9, Bottom9;
    var s := Plus4(Low8(x), Low8(y), c);
    var t := Plus4(High8(x), High8(y), Carry5(s));
    LowHalf8(x, y, c);
    HighHalf8(x, y, c);
    Value8(x);
    Value8(y);
    Carried5(s);
    Value9(Plus8(x, y, c));
    Total4(Low8(x), Low8(y), c);
    Total4(High8(x), High8(y), Carry5(s));
  }

  function Carry9(x: bv9): bv1 { (x >> 8) as bv1 }

  function Rest9(x: bv9): bv8 { (x & 0xff) as bv8 }

  lemma Carried9(x: bv9)
    ensures N9(x) == 0x100 * N1(Carry9(x)) + N8(Rest9(x))
  {
    assert x == (((x >> 8) as bv1) as bv9 << 8) | ((x & 0xff) as bv8) as bv9;
  }

  // 16 bits.

  function N16(x: bv16): nat { x as nat }

  function N17(x: bv17): nat { x as nat }

  function Plus16(x: bv16, y: bv16, c: bv1): bv17 { x as bv17 + y as bv17 + c as bv17 }

  function High16(x: bv16): bv8 { (x >> 8) as bv8 }

  function Low16(x: bv16): bv8 { (x & 0xff) as bv8 }

  function Top17(x: bv17): bv9 { (x >> 8) as bv9 }

  function Bottom17(x: bv17): bv8 { (x & 0xff) as bv8 }

  lemma Value16(x: bv16)
    ensures N16(x) == 0x100 * N8(High16(x)) + N8(Low16(x))
  {
    assert x == (((x >> 8) as bv8) as bv16 << 8) | ((x & 0xff) as bv8) as bv16;
  }

  lemma Value17(x: bv17)
    ensures N17(x) == 0x100 * N9(Top17(x)) + N8(Bottom17(x))
  {
    assert x == (((x >> 8) as bv9) as bv17 << 8) | ((x & 0xff) as bv8) as bv17;
  }

  lemma LowHalf16(x: bv16, y: bv16, c: bv1)
    ensures Bottom17(Plus16(x, y, c)) == Rest9(Plus8(Low16(x), Low16(y), c))
  {}

  lemma HighHalf16(x: bv16, y: bv16, c: bv1)
    ensures Top17(Plus16(x, y, c)) == Plus8(High16(x), High16(y), Carry9(Plus8(Low16(x), Low16(y), c)))
  {}

  lemma Total16(x: bv16, y: bv16, c: bv1)
    ensures N17(Plus16(x, y, c)) == N16(x) + N16(y) + N1(c)
  {
    hide N1, N8, N9, N16, N17, Plus8, Plus16, High16, Low16, Carry9, Rest9, Top17, Bottom17;
    var s := Plus8(Low16(x), Low16(y), c);
    var t := Plus8(High16(x), High16(y), Carry9(s));
    LowHalf16(x, y, c);
    HighHalf16(x, y, c);
    Value16(x);
    Value16(y);
    Carried9(s);
    Value17(Plus16(x, y, c));
    Total8(Low16(x), Low16(y), c);
    Total8(High16(x), High16(y), Carry9(s));
  }

  function Carry17(x: bv17): bv1 { (x >> 16) as bv1 }

  function Rest17(x: bv17): bv16 { (x & 0xffff) as bv16 }

  lemma Carried17(x: bv17)
    ensures N17(x) == 0x10000 * N1(Carry17(x)) + N16(Rest17(x))
  {
    assert x == (((x >> 16) as bv1) as bv17 << 16) | ((x & 0xffff) as bv16) as bv17;
  }

  // Words, as the numbers they are.

  function Number(x: word): nat { x as nat }

  function High32(x: word): bv16 { (x >> 16) as bv16 }

  function Low32(x: word): bv16 { (x & 0xffff) as bv16 }

  function Join32(h: bv16, l: bv16): word { (h as word << 16) | l as word }

  lemma Parts(x: word)
    ensures x == Join32(High32(x), Low32(x))
  {}

  lemma Joined32(h: bv16, l: bv16)
    ensures Number(Join32(h, l)) == 0x1_0000 * N16(h) + N16(l)
  {}

  // The two halves of a sum of words.

  lemma LowHalf32(x: word, y: word)
    ensures Low32(Add(x, y)) == Rest17(Plus16(Low32(x), Low32(y), 0))
  {}

  lemma HighHalf32(x: word, y: word)
    ensures High32(Add(x, y)) == Rest17(Plus16(High32(x), High32(y), Carry17(Plus16(Low32(x), Low32(y), 0))))
  {}

  lemma Zero()
    ensures N1(0) == 0
  {}

  lemma Remainder(s: nat, k: nat, z: nat)
    requires s == WORD * k + z && z < WORD
    ensures z == s % WORD
  {}

  lemma Small(x: bv16)
    ensures N16(x) < 0x1_0000
  {}

  /** Add is addition modulo 2^32. */
  lemma AddIs(x: word, y: word)
    ensures Number(Add(x, y)) == (Number(x) + Number(y)) % WORD
  {
    hide N1, N16, N17, Number, Plus16, High32, Low32, Carry17, Rest17, Join32, Add;
    var s := Plus16(Low32(x), Low32(y), 0);
    var t := Plus16(High32(x), High32(y), Carry17(s));
    Parts(x);
    Parts(y);
    Joined32(High32(x), Low32(x));
    Joined32(High32(y), Low32(y));
    LowHalf32(x, y);
    HighHalf32(x, y);
    Parts(Add(x, y));
    Joined32(Rest17(t), Rest17(s));
    Total16(Low32(x), Low32(y), 0);
    Total16(High32(x), High32(y), Carry17(s));
    Carried17(s);
    Carried17(t);
    Zero();
    Small(Rest17(t));
    Small(Rest17(s));
    Remainder(Number(x) + Number(y), N1(Carry17(t)), Number(Add(x, y)));
  }

  lemma Reduced(s: nat, n: nat)
    ensures (s % WORD + n) % WORD == (s + n) % WORD
  {
    assert s + n == s % WORD + n + s / WORD * WORD;
  }

  /** So are the sums of four and of five words. */
  lemma Sum4Is(x: word, y: word, z: word, u: word)
    ensures Number(Sum4(x, y, z, u)) == (Number(x) + Number(y) + Number(z) + Number(u)) % WORD
  {
    hide Add, Number;
    AddIs(x, y);
    AddIs(Add(x, y), z);
    AddIs(Add(Add(x, y), z), u);
    Reduced(Number(x) + Number(y), Number(z));
    Reduced(Number(x) + Number(y) + Number(z), Number(u));
  }

  lemma Sum5Is(x: word, y: word, z: word, u: word, t: word)
    ensures Number(Sum5(x, y, z, u, t)) == (Number(x) + Number(y) + Number(z) + Number(u) + Number(t)) % WORD
  {
    hide Add, Sum4, Number;
    Sum4Is(x, y, z, u);
    AddIs(Sum4(x, y, z, u), t);
    Reduced(Number(x) + Number(y) + Number(z) + Number(u), Number(t));
  }
}
