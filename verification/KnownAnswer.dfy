/** One digest everybody knows, that of "abc", step by step. It ties the functions of Fips180 and Message to the standard
    by their values. */
module KnownAnswer {
  import opened Words
  import opened Fips180
  import opened Message

  const ABC: seq<byte> := [0x61, 0x62, 0x63]

  /** The one block of the padded message. */
  const BLOCK: seq<word> := [0x61626380, 0, 0, 0, 0, 0, 0, 0, 0, 0, 0, 0, 0, 0, 0, 0x18]

  // The schedule.

  function S(t: nat): word
    requires t < 64
  {
    Schedule(BLOCK, t)
  }

  /** Eight words of it from t on. */
  predicate Eight(t: nat, a: word, b: word, c: word, d: word, e: word, f: word, g: word, h: word)
    requires t + 8 <= 64
  {
    && S(t) == a && S(t + 1) == b && S(t + 2) == c && S(t + 3) == d
    && S(t + 4) == e && S(t + 5) == f && S(t + 6) == g && S(t + 7) == h
  }

  lemma Given(t: nat)
    requires t < 16
    ensures S(t) == BLOCK[t]
  {}

  lemma Expand(t: nat, a: word, b: word, c: word, d: word)
    requires 16 <= t < 64
    requires S(t - 2) == a && S(t - 7) == b && S(t - 15) == c && S(t - 16) == d
    ensures S(t) == Sum4(SmallSigma1(a), b, SmallSigma0(c), d)
  {}

  lemma Words0()
    ensures S(0) == 0x61626380 && S(15) == 0x18
    ensures forall t :: 0 < t < 15 ==> S(t) == 0
  {
    hide S;
    Given(0);
    Given(15);
    forall t | 0 < t < 15
      ensures S(t) == 0
    {
      Given(t);
    }
  }

  lemma Sums16()
    ensures Sum4(SmallSigma1(0x00000000), 0x00000000, SmallSigma0(0x00000000), 0x61626380) == 0x61626380
    ensures Sum4(SmallSigma1(0x00000018), 0x00000000, SmallSigma0(0x00000000), 0x00000000) == 0x000f0000
    ensures Sum4(SmallSigma1(0x61626380), 0x00000000, SmallSigma0(0x00000000), 0x00000000) == 0x7da86405
    ensures Sum4(SmallSigma1(0x000f0000), 0x00000000, SmallSigma0(0x00000000), 0x00000000) == 0x600003c6
    ensures Sum4(SmallSigma1(0x7da86405), 0x00000000, SmallSigma0(0x00000000), 0x00000000) == 0x3e9d7b78
    ensures Sum4(SmallSigma1(0x600003c6), 0x00000000, SmallSigma0(0x00000000), 0x00000000) == 0x0183fc00
    ensures Sum4(SmallSigma1(0x3e9d7b78), 0x00000018, SmallSigma0(0x00000000), 0x00000000) == 0x12dcbfdb
    ensures Sum4(SmallSigma1(0x0183fc00), 0x61626380, SmallSigma0(0x00000000), 0x00000000) == 0xe2e2c38e
  {}

  lemma Words16()
    ensures Eight(16, 0x61626380, 0x000f0000, 0x7da86405, 0x600003c6, 0x3e9d7b78, 0x0183fc00, 0x12dcbfdb, 0xe2e2c38e)
  {
    hide S, Sum4, SmallSigma0, SmallSigma1;
    Words0();
    Sums16();
    Expand(16, 0x00000000, 0x00000000, 0x00000000, 0x61626380);
    Expand(17, 0x00000018, 0x00000000, 0x00000000, 0x00000000);
    Expand(18, 0x61626380, 0x00000000, 0x00000000, 0x00000000);
    Expand(19, 0x000f0000, 0x00000000, 0x00000000, 0x00000000);
    Expand(20, 0x7da86405, 0x00000000, 0x00000000, 0x00000000);
    Expand(21, 0x600003c6, 0x00000000, 0x00000000, 0x00000000);
    Expand(22, 0x3e9d7b78, 0x00000018, 0x00000000, 0x00000000);
    Expand(23, 0x0183fc00, 0x61626380, 0x00000000, 0x00000000);
  }

  lemma Sums24()
    ensures Sum4(SmallSigma1(0x12dcbfdb), 0x000f0000, SmallSigma0(0x00000000), 0x00000000) == 0xc8215c1a
    ensures Sum4(SmallSigma1(0xe2e2c38e), 0x7da86405, SmallSigma0(0x00000000), 0x00000000) == 0xb73679a2
    ensures Sum4(SmallSigma1(0xc8215c1a), 0x600003c6, SmallSigma0(0x00000000), 0x00000000) == 0xe5bc3909
    ensures Sum4(SmallSigma1(0xb73679a2), 0x3e9d7b78, SmallSigma0(0x00000000), 0x00000000) == 0x32663c5b
    ensures Sum4(SmallSigma1(0xe5bc3909), 0x0183fc00, SmallSigma0(0x00000000), 0x00000000) == 0x9d209d67
    ensures Sum4(SmallSigma1(0x32663c5b), 0x12dcbfdb, SmallSigma0(0x00000000), 0x00000000) == 0xec8726cb
    ensures Sum4(SmallSigma1(0x9d209d67), 0xe2e2c38e, SmallSigma0(0x00000018), 0x00000000) == 0x702138a4
    ensures Sum4(SmallSigma1(0xec8726cb), 0xc8215c1a, SmallSigma0(0x61626380), 0x00000018) == 0xd3b7973b
  {}

  lemma Words24()
    ensures Eight(24, 0xc8215c1a, 0xb73679a2, 0xe5bc3909, 0x32663c5b, 0x9d209d67, 0xec8726cb, 0x702138a4, 0xd3b7973b)
  {
    hide S, Sum4, SmallSigma0, SmallSigma1;
    Words0();
    Words16();
    Sums24();
    Expand(24, 0x12dcbfdb, 0x000f0000, 0x00000000, 0x00000000);
    Expand(25, 0xe2e2c38e, 0x7da86405, 0x00000000, 0x00000000);
    Expand(26, 0xc8215c1a, 0x600003c6, 0x00000000, 0x00000000);
    Expand(27, 0xb73679a2, 0x3e9d7b78, 0x00000000, 0x00000000);
    Expand(28, 0xe5bc3909, 0x0183fc00, 0x00000000, 0x00000000);
    Expand(29, 0x32663c5b, 0x12dcbfdb, 0x00000000, 0x00000000);
    Expand(30, 0x9d209d67, 0xe2e2c38e, 0x00000018, 0x00000000);
    Expand(31, 0xec8726cb, 0xc8215c1a, 0x61626380, 0x00000018);
  }

  lemma Sums32()
    ensures Sum4(SmallSigma1(0x702138a4), 0xb73679a2, SmallSigma0(0x000f0000), 0x61626380) == 0x93f5997f
    ensures Sum4(SmallSigma1(0xd3b7973b), 0xe5bc3909, SmallSigma0(0x7da86405), 0x000f0000) == 0x3b68ba73
    ensures Sum4(SmallSigma1(0x93f5997f), 0x32663c5b, SmallSigma0(0x600003c6), 0x7da86405) == 0xaff4ffc1
    ensures Sum4(SmallSigma1(0x3b68ba73), 0x9d209d67, SmallSigma0(0x3e9d7b78), 0x600003c6) == 0xf10a5c62
    ensures Sum4(SmallSigma1(0xaff4ffc1), 0xec8726cb, SmallSigma0(0x0183fc00), 0x3e9d7b78) == 0x0a8b3996
    ensures Sum4(SmallSigma1(0xf10a5c62), 0x702138a4, SmallSigma0(0x12dcbfdb), 0x0183fc00) == 0x72af830a
    ensures Sum4(SmallSigma1(0x0a8b3996), 0xd3b7973b, SmallSigma0(0xe2e2c38e), 0x12dcbfdb) == 0x9409e33e
    ensures Sum4(SmallSigma1(0x72af830a), 0x93f5997f, SmallSigma0(0xc8215c1a), 0xe2e2c38e) == 0x24641522
  {}

  lemma Words32()
    ensures Eight(32, 0x93f5997f, 0x3b68ba73, 0xaff4ffc1, 0xf10a5c62, 0x0a8b3996, 0x72af830a, 0x9409e33e, 0x24641522)
  {
    hide S, Sum4, SmallSigma0, SmallSigma1;
    Words16();
    Words24();
    Sums32();
    Expand(32, 0x702138a4, 0xb73679a2, 0x000f0000, 0x61626380);
    Expand(33, 0xd3b7973b, 0xe5bc3909, 0x7da86405, 0x000f0000);
    Expand(34, 0x93f5997f, 0x32663c5b, 0x600003c6, 0x7da86405);
    Expand(35, 0x3b68ba73, 0x9d209d67, 0x3e9d7b78, 0x600003c6);
    Expand(36, 0xaff4ffc1, 0xec8726cb, 0x0183fc00, 0x3e9d7b78);
    Expand(37, 0xf10a5c62, 0x702138a4, 0x12dcbfdb, 0x0183fc00);
    Expand(38, 0x0a8b3996, 0xd3b7973b, 0xe2e2c38e, 0x12dcbfdb);
    Expand(39, 0x72af830a, 0x93f5997f, 0xc8215c1a, 0xe2e2c38e);
  }

  lemma Sums40()
    ensures Sum4(SmallSigma1(0x9409e33e), 0x3b68ba73, SmallSigma0(0xb73679a2), 0xc8215c1a) == 0x9f47bf94
    ensures Sum4(SmallSigma1(0x24641522), 0xaff4ffc1, SmallSigma0(0xe5bc3909), 0xb73679a2) == 0xf0a64f5a
    ensures Sum4(SmallSigma1(0x9f47bf94), 0xf10a5c62, SmallSigma0(0x32663c5b), 0xe5bc3909) == 0x3e246a79
    ensures Sum4(SmallSigma1(0xf0a64f5a), 0x0a8b3996, SmallSigma0(0x9d209d67), 0x32663c5b) == 0x27333ba3
    ensures Sum4(SmallSigma1(0x3e246a79), 0x72af830a, SmallSigma0(0xec8726cb), 0x9d209d67) == 0x0c4763f2
    ensures Sum4(SmallSigma1(0x27333ba3), 0x9409e33e, SmallSigma0(0x702138a4), 0xec8726cb) == 0x840abf27
    ensures Sum4(SmallSigma1(0x0c4763f2), 0x24641522, SmallSigma0(0xd3b7973b), 0x702138a4) == 0x7a290d5d
    ensures Sum4(SmallSigma1(0x840abf27), 0x9f47bf94, SmallSigma0(0x93f5997f), 0xd3b7973b) == 0x065c43da
  {}

  lemma Words40()
    ensures Eight(40, 0x9f47bf94, 0xf0a64f5a, 0x3e246a79, 0x27333ba3, 0x0c4763f2, 0x840abf27, 0x7a290d5d, 0x065c43da)
  {
    hide S, Sum4, SmallSigma0, SmallSigma1;
    Words24();
    Words32();
    Sums40();
    Expand(40, 0x9409e33e, 0x3b68ba73, 0xb73679a2, 0xc8215c1a);
    Expand(41, 0x24641522, 0xaff4ffc1, 0xe5bc3909, 0xb73679a2);
    Expand(42, 0x9f47bf94, 0xf10a5c62, 0x32663c5b, 0xe5bc3909);
    Expand(43, 0xf0a64f5a, 0x0a8b3996, 0x9d209d67, 0x32663c5b);
    Expand(44, 0x3e246a79, 0x72af830a, 0xec8726cb, 0x9d209d67);
    Expand(45, 0x27333ba3, 0x9409e33e, 0x702138a4, 0xec8726cb);
    Expand(46, 0x0c4763f2, 0x24641522, 0xd3b7973b, 0x702138a4);
    Expand(47, 0x840abf27, 0x9f47bf94, 0x93f5997f, 0xd3b7973b);
  }

  lemma Sums48()
    ensures Sum4(SmallSigma1(0x7a290d5d), 0xf0a64f5a, SmallSigma0(0x3b68ba73), 0x93f5997f) == 0xfb3e89cb
    ensures Sum4(SmallSigma1(0x065c43da), 0x3e246a79, SmallSigma0(0xaff4ffc1), 0x3b68ba73) == 0xcc7617db
    ensures Sum4(SmallSigma1(0xfb3e89cb), 0x27333ba3, SmallSigma0(0xf10a5c62), 0xaff4ffc1) == 0xb9e66c34
    ensures Sum4(SmallSigma1(0xcc7617db), 0x0c4763f2, SmallSigma0(0x0a8b3996), 0xf10a5c62) == 0xa9993667
    ensures Sum4(SmallSigma1(0xb9e66c34), 0x840abf27, SmallSigma0(0x72af830a), 0x0a8b3996) == 0x84badedd
    ensures Sum4(SmallSigma1(0xa9993667), 0x7a290d5d, SmallSigma0(0x9409e33e), 0x72af830a) == 0xc21462bc
    ensures Sum4(SmallSigma1(0x84badedd), 0x065c43da, SmallSigma0(0x24641522), 0x9409e33e) == 0x1487472c
    ensures Sum4(SmallSigma1(0xc21462bc), 0xfb3e89cb, SmallSigma0(0x9f47bf94), 0x24641522) == 0xb20f7a99
  {}

  lemma Words48()
    ensures Eight(48, 0xfb3e89cb, 0xcc7617db, 0xb9e66c34, 0xa9993667, 0x84badedd, 0xc21462bc, 0x1487472c, 0xb20f7a99)
  {
    hide S, Sum4, SmallSigma0, SmallSigma1;
    Words32();
    Words40();
    Sums48();
    Expand(48, 0x7a290d5d, 0xf0a64f5a, 0x3b68ba73, 0x93f5997f);
    Expand(49, 0x065c43da, 0x3e246a79, 0xaff4ffc1, 0x3b68ba73);
    Expand(50, 0xfb3e89cb, 0x27333ba3, 0xf10a5c62, 0xaff4ffc1);
    Expand(51, 0xcc7617db, 0x0c4763f2, 0x0a8b3996, 0xf10a5c62);
    Expand(52, 0xb9e66c34, 0x840abf27, 0x72af830a, 0x0a8b3996);
    Expand(53, 0xa9993667, 0x7a290d5d, 0x9409e33e, 0x72af830a);
    Expand(54, 0x84badedd, 0x065c43da, 0x24641522, 0x9409e33e);
    Expand(55, 0xc21462bc, 0xfb3e89cb, 0x9f47bf94, 0x24641522);
  }

  lemma Sums56()
    ensures Sum4(SmallSigma1(0x1487472c), 0xcc7617db, SmallSigma0(0xf0a64f5a), 0x9f47bf94) == 0xef57b9cd
    ensures Sum4(SmallSigma1(0xb20f7a99), 0xb9e66c34, SmallSigma0(0x3e246a79), 0xf0a64f5a) == 0xebe6b238
    ensures Sum4(SmallSigma1(0xef57b9cd), 0xa9993667, SmallSigma0(0x27333ba3), 0x3e246a79) == 0x9fe3095e
    ensures Sum4(SmallSigma1(0xebe6b238), 0x84badedd, SmallSigma0(0x0c4763f2), 0x27333ba3) == 0x78bc8d4b
    ensures Sum4(SmallSigma1(0x9fe3095e), 0xc21462bc, SmallSigma0(0x840abf27), 0x0c4763f2) == 0xa43fcf15
    ensures Sum4(SmallSigma1(0x78bc8d4b), 0x1487472c, SmallSigma0(0x7a290d5d), 0x840abf27) == 0x668b2ff8
    ensures Sum4(SmallSigma1(0xa43fcf15), 0xb20f7a99, SmallSigma0(0x065c43da), 0x7a290d5d) == 0xeeaba2cc
    ensures Sum4(SmallSigma1(0x668b2ff8), 0xef57b9cd, SmallSigma0(0xfb3e89cb), 0x065c43da) == 0x12b1edeb
  {}

  lemma Words56()
    ensures Eight(56, 0xef57b9cd, 0xebe6b238, 0x9fe3095e, 0x78bc8d4b, 0xa43fcf15, 0x668b2ff8, 0xeeaba2cc, 0x12b1edeb)
  {
    hide S, Sum4, SmallSigma0, SmallSigma1;
    Words40();
    Words48();
    Sums56();
    Expand(56, 0x1487472c, 0xcc7617db, 0xf0a64f5a, 0x9f47bf94);
    Expand(57, 0xb20f7a99, 0xb9e66c34, 0x3e246a79, 0xf0a64f5a);
    Expand(58, 0xef57b9cd, 0xa9993667, 0x27333ba3, 0x3e246a79);
    Expand(59, 0xebe6b238, 0x84badedd, 0x0c4763f2, 0x27333ba3);
    Expand(60, 0x9fe3095e, 0xc21462bc, 0x840abf27, 0x0c4763f2);
    Expand(61, 0x78bc8d4b, 0x1487472c, 0x7a290d5d, 0x840abf27);
    Expand(62, 0xa43fcf15, 0xb20f7a99, 0x065c43da, 0x7a290d5d);
    Expand(63, 0x668b2ff8, 0xef57b9cd, 0xfb3e89cb, 0x065c43da);
  }

  // The rounds.

  lemma Step(t: nat, v: Hash, w: word)
    requires t < 64 && Rounds(IV, BLOCK, t) == v && S(t) == w
    ensures Rounds(IV, BLOCK, t + 1) == Round(v, K(t), w)
  {
    hide Schedule, Round, K;
  }

  lemma Turns0()
    ensures Round(Hash(0x6a09e667, 0xbb67ae85, 0x3c6ef372, 0xa54ff53a, 0x510e527f, 0x9b05688c, 0x1f83d9ab, 0x5be0cd19), 0x428a2f98, 0x61626380) == Hash(0x5d6aebcd, 0x6a09e667, 0xbb67ae85, 0x3c6ef372, 0xfa2a4622, 0x510e527f, 0x9b05688c, 0x1f83d9ab)
    ensures Round(Hash(0x5d6aebcd, 0x6a09e667, 0xbb67ae85, 0x3c6ef372, 0xfa2a4622, 0x510e527f, 0x9b05688c, 0x1f83d9ab), 0x71374491, 0x00000000) == Hash(0x5a6ad9ad, 0x5d6aebcd, 0x6a09e667, 0xbb67ae85, 0x78ce7989, 0xfa2a4622, 0x510e527f, 0x9b05688c)
    ensures Round(Hash(0x5a6ad9ad, 0x5d6aebcd, 0x6a09e667, 0xbb67ae85, 0x78ce7989, 0xfa2a4622, 0x510e527f, 0x9b05688c), 0xb5c0fbcf, 0x00000000) == Hash(0xc8c347a7, 0x5a6ad9ad, 0x5d6aebcd, 0x6a09e667, 0xf92939eb, 0x78ce7989, 0xfa2a4622, 0x510e527f)
    ensures Round(Hash(0xc8c347a7, 0x5a6ad9ad, 0x5d6aebcd, 0x6a09e667, 0xf92939eb, 0x78ce7989, 0xfa2a4622, 0x510e527f), 0xe9b5dba5, 0x00000000) == Hash(0xd550f666, 0xc8c347a7, 0x5a6ad9ad, 0x5d6aebcd, 0x24e00850, 0xf92939eb, 0x78ce7989, 0xfa2a4622)
    ensures Round(Hash(0xd550f666, 0xc8c347a7, 0x5a6ad9ad, 0x5d6aebcd, 0x24e00850, 0xf92939eb, 0x78ce7989, 0xfa2a4622), 0x3956c25b, 0x00000000) == Hash(0x04409a6a, 0xd550f666, 0xc8c347a7, 0x5a6ad9ad, 0x43ada245, 0x24e00850, 0xf92939eb, 0x78ce7989)
    ensures Round(Hash(0x04409a6a, 0xd550f666, 0xc8c347a7, 0x5a6ad9ad, 0x43ada245, 0x24e00850, 0xf92939eb, 0x78ce7989), 0x59f111f1, 0x00000000) == Hash(0x2b4209f5, 0x04409a6a, 0xd550f666, 0xc8c347a7, 0x714260ad, 0x43ada245, 0x24e00850, 0xf92939eb)
    ensures Round(Hash(0x2b4209f5, 0x04409a6a, 0xd550f666, 0xc8c347a7, 0x714260ad, 0x43ada245, 0x24e00850, 0xf92939eb), 0x923f82a4, 0x00000000) == Hash(0xe5030380, 0x2b4209f5, 0x04409a6a, 0xd550f666, 0x9b27a401, 0x714260ad, 0x43ada245, 0x24e00850)
    ensures Round(Hash(0xe5030380, 0x2b4209f5, 0x04409a6a, 0xd550f666, 0x9b27a401, 0x714260ad, 0x43ada245, 0x24e00850), 0xab1c5ed5, 0x00000000) == Hash(0x85a07b5f, 0xe5030380, 0x2b4209f5, 0x04409a6a, 0x0c657a79, 0x9b27a401, 0x714260ad, 0x43ada245)
  {}

  lemma Constants0()
    ensures K(0) == 0x428a2f98 && K(1) == 0x71374491 && K(2) == 0xb5c0fbcf && K(3) == 0xe9b5dba5
    ensures K(4) == 0x3956c25b && K(5) == 0x59f111f1 && K(6) == 0x923f82a4 && K(7) == 0xab1c5ed5
  {}

  lemma After8()
    ensures Rounds(IV, BLOCK, 8) == Hash(0x85a07b5f, 0xe5030380, 0x2b4209f5, 0x04409a6a, 0x0c657a79, 0x9b27a401, 0x714260ad, 0x43ada245)
  {
    hide S, Round, Rounds, K;
    Begin();
    Words0();
    Turns0();
    Constants0();
    Step(0, Hash(0x6a09e667, 0xbb67ae85, 0x3c6ef372, 0xa54ff53a, 0x510e527f, 0x9b05688c, 0x1f83d9ab, 0x5be0cd19), 0x61626380);
    Step(1, Hash(0x5d6aebcd, 0x6a09e667, 0xbb67ae85, 0x3c6ef372, 0xfa2a4622, 0x510e527f, 0x9b05688c, 0x1f83d9ab), 0x00000000);
    Step(2, Hash(0x5a6ad9ad, 0x5d6aebcd, 0x6a09e667, 0xbb67ae85, 0x78ce7989, 0xfa2a4622, 0x510e527f, 0x9b05688c), 0x00000000);
    Step(3, Hash(0xc8c347a7, 0x5a6ad9ad, 0x5d6aebcd, 0x6a09e667, 0xf92939eb, 0x78ce7989, 0xfa2a4622, 0x510e527f), 0x00000000);
    Step(4, Hash(0xd550f666, 0xc8c347a7, 0x5a6ad9ad, 0x5d6aebcd, 0x24e00850, 0xf92939eb, 0x78ce7989, 0xfa2a4622), 0x00000000);
    Step(5, Hash(0x04409a6a, 0xd550f666, 0xc8c347a7, 0x5a6ad9ad, 0x43ada245, 0x24e00850, 0xf92939eb, 0x78ce7989), 0x00000000);
    Step(6, Hash(0x2b4209f5, 0x04409a6a, 0xd550f666, 0xc8c347a7, 0x714260ad, 0x43ada245, 0x24e00850, 0xf92939eb), 0x00000000);
    Step(7, Hash(0xe5030380, 0x2b4209f5, 0x04409a6a, 0xd550f666, 0x9b27a401, 0x714260ad, 0x43ada245, 0x24e00850), 0x00000000);
  }

  lemma Turns8()
    ensures Round(Hash(0x85a07b5f, 0xe5030380, 0x2b4209f5, 0x04409a6a, 0x0c657a79, 0x9b27a401, 0x714260ad, 0x43ada245), 0xd807aa98, 0x00000000) == Hash(0x8e04ecb9, 0x85a07b5f, 0xe5030380, 0x2b4209f5, 0x32ca2d8c, 0x0c657a79, 0x9b27a401, 0x714260ad)
    ensures Round(Hash(0x8e04ecb9, 0x85a07b5f, 0xe5030380, 0x2b4209f5, 0x32ca2d8c, 0x0c657a79, 0x9b27a401, 0x714260ad), 0x12835b01, 0x00000000) == Hash(0x8c87346b, 0x8e04ecb9, 0x85a07b5f, 0xe5030380, 0x1cc92596, 0x32ca2d8c, 0x0c657a79, 0x9b27a401)
    ensures Round(Hash(0x8c87346b, 0x8e04ecb9, 0x85a07b5f, 0xe5030380, 0x1cc92596, 0x32ca2d8c, 0x0c657a79, 0x9b27a401), 0x243185be, 0x00000000) == Hash(0x4798a3f4, 0x8c87346b, 0x8e04ecb9, 0x85a07b5f, 0x436b23e8, 0x1cc92596, 0x32ca2d8c, 0x0c657a79)
    ensures Round(Hash(0x4798a3f4, 0x8c87346b, 0x8e04ecb9, 0x85a07b5f, 0x436b23e8, 0x1cc92596, 0x32ca2d8c, 0x0c657a79), 0x550c7dc3, 0x00000000) == Hash(0xf71fc5a9, 0x4798a3f4, 0x8c87346b, 0x8e04ecb9, 0x816fd6e9, 0x436b23e8, 0x1cc92596, 0x32ca2d8c)
    ensures Round(Hash(0xf71fc5a9, 0x4798a3f4, 0x8c87346b, 0x8e04ecb9, 0x816fd6e9, 0x436b23e8, 0x1cc92596, 0x32ca2d8c), 0x72be5d74, 0x00000000) == Hash(0x87912990, 0xf71fc5a9, 0x4798a3f4, 0x8c87346b, 0x1e578218, 0x816fd6e9, 0x436b23e8, 0x1cc92596)
    ensures Round(Hash(0x87912990, 0xf71fc5a9, 0x4798a3f4, 0x8c87346b, 0x1e578218, 0x816fd6e9, 0x436b23e8, 0x1cc92596), 0x80deb1fe, 0x00000000) == Hash(0xd932eb16, 0x87912990, 0xf71fc5a9, 0x4798a3f4, 0x745a48de, 0x1e578218, 0x816fd6e9, 0x436b23e8)
    ensures Round(Hash(0xd932eb16, 0x87912990, 0xf71fc5a9, 0x4798a3f4, 0x745a48de, 0x1e578218, 0x816fd6e9, 0x436b23e8), 0x9bdc06a7, 0x00000000) == Hash(0xc0645fde, 0xd932eb16, 0x87912990, 0xf71fc5a9, 0x0b92f20c, 0x745a48de, 0x1e578218, 0x816fd6e9)
    ensures Round(Hash(0xc0645fde, 0xd932eb16, 0x87912990, 0xf71fc5a9, 0x0b92f20c, 0x745a48de, 0x1e578218, 0x816fd6e9), 0xc19bf174, 0x00000018) == Hash(0xb0fa238e, 0xc0645fde, 0xd932eb16, 0x87912990, 0x07590dcd, 0x0b92f20c, 0x745a48de, 0x1e578218)
  {}

  lemma Constants8()
    ensures K(8) == 0xd807aa98 && K(9) == 0x12835b01 && K(10) == 0x243185be && K(11) == 0x550c7dc3
    ensures K(12) == 0x72be5d74 && K(13) == 0x80deb1fe && K(14) == 0x9bdc06a7 && K(15) == 0xc19bf174
  {}

  lemma After16()
    ensures Rounds(IV, BLOCK, 16) == Hash(0xb0fa238e, 0xc0645fde, 0xd932eb16, 0x87912990, 0x07590dcd, 0x0b92f20c, 0x745a48de, 0x1e578218)
  {
    hide S, Round, Rounds, K;
    After8();
    Words0();
    Turns8();
    Constants8();
    Step(8, Hash(0x85a07b5f, 0xe5030380, 0x2b4209f5, 0x04409a6a, 0x0c657a79, 0x9b27a401, 0x714260ad, 0x43ada245), 0x00000000);
    Step(9, Hash(0x8e04ecb9, 0x85a07b5f, 0xe5030380, 0x2b4209f5, 0x32ca2d8c, 0x0c657a79, 0x9b27a401, 0x714260ad), 0x00000000);
    Step(10, Hash(0x8c87346b, 0x8e04ecb9, 0x85a07b5f, 0xe5030380, 0x1cc92596, 0x32ca2d8c, 0x0c657a79, 0x9b27a401), 0x00000000);
    Step(11, Hash(0x4798a3f4, 0x8c87346b, 0x8e04ecb9, 0x85a07b5f, 0x436b23e8, 0x1cc92596, 0x32ca2d8c, 0x0c657a79), 0x00000000);
    Step(12, Hash(0xf71fc5a9, 0x4798a3f4, 0x8c87346b, 0x8e04ecb9, 0x816fd6e9, 0x436b23e8, 0x1cc92596, 0x32ca2d8c), 0x00000000);
    Step(13, Hash(0x87912990, 0xf71fc5a9, 0x4798a3f4, 0x8c87346b, 0x1e578218, 0x816fd6e9, 0x436b23e8, 0x1cc92596), 0x00000000);
    Step(14, Hash(0xd932eb16, 0x87912990, 0xf71fc5a9, 0x4798a3f4, 0x745a48de, 0x1e578218, 0x816fd6e9, 0x436b23e8), 0x00000000);
    Step(15, Hash(0xc0645fde, 0xd932eb16, 0x87912990, 0xf71fc5a9, 0x0b92f20c, 0x745a48de, 0x1e578218, 0x816fd6e9), 0x00000018);
  }

  lemma Turns16()
    ensures Round(Hash(0xb0fa238e, 0xc0645fde, 0xd932eb16, 0x87912990, 0x07590dcd, 0x0b92f20c, 0x745a48de, 0x1e578218), 0xe49b69c1, 0x61626380) == Hash(0x21da9a9b, 0xb0fa238e, 0xc0645fde, 0xd932eb16, 0x8034229c, 0x07590dcd, 0x0b92f20c, 0x745a48de)
    ensures Round(Hash(0x21da9a9b, 0xb0fa238e, 0xc0645fde, 0xd932eb16, 0x8034229c, 0x07590dcd, 0x0b92f20c, 0x745a48de), 0xefbe4786, 0x000f0000) == Hash(0xc2fbd9d1, 0x21da9a9b, 0xb0fa238e, 0xc0645fde, 0x846ee454, 0x8034229c, 0x07590dcd, 0x0b92f20c)
    ensures Round(Hash(0xc2fbd9d1, 0x21da9a9b, 0xb0fa238e, 0xc0645fde, 0x846ee454, 0x8034229c, 0x07590dcd, 0x0b92f20c), 0x0fc19dc6, 0x7da86405) == Hash(0xfe777bbf, 0xc2fbd9d1, 0x21da9a9b, 0xb0fa238e, 0xcc899961, 0x846ee454, 0x8034229c, 0x07590dcd)
    ensures Round(Hash(0xfe777bbf, 0xc2fbd9d1, 0x21da9a9b, 0xb0fa238e, 0xcc899961, 0x846ee454, 0x8034229c, 0x07590dcd), 0x240ca1cc, 0x600003c6) == Hash(0xe1f20c33, 0xfe777bbf, 0xc2fbd9d1, 0x21da9a9b, 0xb0638179, 0xcc899961, 0x846ee454, 0x8034229c)
    ensures Round(Hash(0xe1f20c33, 0xfe777bbf, 0xc2fbd9d1, 0x21da9a9b, 0xb0638179, 0xcc899961, 0x846ee454, 0x8034229c), 0x2de92c6f, 0x3e9d7b78) == Hash(0x9dc68b63, 0xe1f20c33, 0xfe777bbf, 0xc2fbd9d1, 0x8ada8930, 0xb0638179, 0xcc899961, 0x846ee454)
    ensures Round(Hash(0x9dc68b63, 0xe1f20c33, 0xfe777bbf, 0xc2fbd9d1, 0x8ada8930, 0xb0638179, 0xcc899961, 0x846ee454), 0x4a7484aa, 0x0183fc00) == Hash(0xc2606d6d, 0x9dc68b63, 0xe1f20c33, 0xfe777bbf, 0xe1257970, 0x8ada8930, 0xb0638179, 0xcc899961)
    ensures Round(Hash(0xc2606d6d, 0x9dc68b63, 0xe1f20c33, 0xfe777bbf, 0xe1257970, 0x8ada8930, 0xb0638179, 0xcc899961), 0x5cb0a9dc, 0x12dcbfdb) == Hash(0xa7a3623f, 0xc2606d6d, 0x9dc68b63, 0xe1f20c33, 0x49f5114a, 0xe1257970, 0x8ada8930, 0xb0638179)
    ensures Round(Hash(0xa7a3623f, 0xc2606d6d, 0x9dc68b63, 0xe1f20c33, 0x49f5114a, 0xe1257970, 0x8ada8930, 0xb0638179), 0x76f988da, 0xe2e2c38e) == Hash(0xc5d53d8d, 0xa7a3623f, 0xc2606d6d, 0x9dc68b63, 0xaa47c347, 0x49f5114a, 0xe1257970, 0x8ada8930)
  {}

  lemma Constants16()
    ensures K(16) == 0xe49b69c1 && K(17) == 0xefbe4786 && K(18) == 0x0fc19dc6 && K(19) == 0x240ca1cc
    ensures K(20) == 0x2de92c6f && K(21) == 0x4a7484aa && K(22) == 0x5cb0a9dc && K(23) == 0x76f988da
  {}

  lemma After24()
    ensures Rounds(IV, BLOCK, 24) == Hash(0xc5d53d8d, 0xa7a3623f, 0xc2606d6d, 0x9dc68b63, 0xaa47c347, 0x49f5114a, 0xe1257970, 0x8ada8930)
  {
    hide S, Round, Rounds, K;
    After16();
    Words16();
    Turns16();
    Constants16();
    Step(16, Hash(0xb0fa238e, 0xc0645fde, 0xd932eb16, 0x87912990, 0x07590dcd, 0x0b92f20c, 0x745a48de, 0x1e578218), 0x61626380);
    Step(17, Hash(0x21da9a9b, 0xb0fa238e, 0xc0645fde, 0xd932eb16, 0x8034229c, 0x07590dcd, 0x0b92f20c, 0x745a48de), 0x000f0000);
    Step(18, Hash(0xc2fbd9d1, 0x21da9a9b, 0xb0fa238e, 0xc0645fde, 0x846ee454, 0x8034229c, 0x07590dcd, 0x0b92f20c), 0x7da86405);
    Step(19, Hash(0xfe777bbf, 0xc2fbd9d1, 0x21da9a9b, 0xb0fa238e, 0xcc899961, 0x846ee454, 0x8034229c, 0x07590dcd), 0x600003c6);
    Step(20, Hash(0xe1f20c33, 0xfe777bbf, 0xc2fbd9d1, 0x21da9a9b, 0xb0638179, 0xcc899961, 0x846ee454, 0x8034229c), 0x3e9d7b78);
    Step(21, Hash(0x9dc68b63, 0xe1f20c33, 0xfe777bbf, 0xc2fbd9d1, 0x8ada8930, 0xb0638179, 0xcc899961, 0x846ee454), 0x0183fc00);
    Step(22, Hash(0xc2606d6d, 0x9dc68b63, 0xe1f20c33, 0xfe777bbf, 0xe1257970, 0x8ada8930, 0xb0638179, 0xcc899961), 0x12dcbfdb);
    Step(23, Hash(0xa7a3623f, 0xc2606d6d, 0x9dc68b63, 0xe1f20c33, 0x49f5114a, 0xe1257970, 0x8ada8930, 0xb0638179), 0xe2e2c38e);
  }

  lemma Turns24()
    ensures Round(Hash(0xc5d53d8d, 0xa7a3623f, 0xc2606d6d, 0x9dc68b63, 0xaa47c347, 0x49f5114a, 0xe1257970, 0x8ada8930), 0x983e5152, 0xc8215c1a) == Hash(0x1c2c2838, 0xc5d53d8d, 0xa7a3623f, 0xc2606d6d, 0x2823ef91, 0xaa47c347, 0x49f5114a, 0xe1257970)
    ensures Round(Hash(0x1c2c2838, 0xc5d53d8d, 0xa7a3623f, 0xc2606d6d, 0x2823ef91, 0xaa47c347, 0x49f5114a, 0xe1257970), 0xa831c66d, 0xb73679a2) == Hash(0xcde8037d, 0x1c2c2838, 0xc5d53d8d, 0xa7a3623f, 0x14383d8e, 0x2823ef91, 0xaa47c347, 0x49f5114a)
    ensures Round(Hash(0xcde8037d, 0x1c2c2838, 0xc5d53d8d, 0xa7a3623f, 0x14383d8e, 0x2823ef91, 0xaa47c347, 0x49f5114a), 0xb00327c8, 0xe5bc3909) == Hash(0xb62ec4bc, 0xcde8037d, 0x1c2c2838, 0xc5d53d8d, 0xc74c6516, 0x14383d8e, 0x2823ef91, 0xaa47c347)
    ensures Round(Hash(0xb62ec4bc, 0xcde8037d, 0x1c2c2838, 0xc5d53d8d, 0xc74c6516, 0x14383d8e, 0x2823ef91, 0xaa47c347), 0xbf597fc7, 0x32663c5b) == Hash(0x77d37528, 0xb62ec4bc, 0xcde8037d, 0x1c2c2838, 0xedffbff8, 0xc74c6516, 0x14383d8e, 0x2823ef91)
    ensures Round(Hash(0x77d37528, 0xb62ec4bc, 0xcde8037d, 0x1c2c2838, 0xedffbff8, 0xc74c6516, 0x14383d8e, 0x2823ef91), 0xc6e00bf3, 0x9d209d67) == Hash(0x363482c9, 0x77d37528, 0xb62ec4bc, 0xcde8037d, 0x6112a3b7, 0xedffbff8, 0xc74c6516, 0x14383d8e)
    ensures Round(Hash(0x363482c9, 0x77d37528, 0xb62ec4bc, 0xcde8037d, 0x6112a3b7, 0xedffbff8, 0xc74c6516, 0x14383d8e), 0xd5a79147, 0xec8726cb) == Hash(0xa0060b30, 0x363482c9, 0x77d37528, 0xb62ec4bc, 0xade79437, 0x6112a3b7, 0xedffbff8, 0xc74c6516)
    ensures Round(Hash(0xa0060b30, 0x363482c9, 0x77d37528, 0xb62ec4bc, 0xade79437, 0x6112a3b7, 0xedffbff8, 0xc74c6516), 0x06ca6351, 0x702138a4) == Hash(0xea992a22, 0xa0060b30, 0x363482c9, 0x77d37528, 0x0109ab3a, 0xade79437, 0x6112a3b7, 0xedffbff8)
    ensures Round(Hash(0xea992a22, 0xa0060b30, 0x363482c9, 0x77d37528, 0x0109ab3a, 0xade79437, 0x6112a3b7, 0xedffbff8), 0x14292967, 0xd3b7973b) == Hash(0x73b33bf5, 0xea992a22, 0xa0060b30, 0x363482c9, 0xba591112, 0x0109ab3a, 0xade79437, 0x6112a3b7)
  {}

  lemma Constants24()
    ensures K(24) == 0x983e5152 && K(25) == 0xa831c66d && K(26) == 0xb00327c8 && K(27) == 0xbf597fc7
    ensures K(28) == 0xc6e00bf3 && K(29) == 0xd5a79147 && K(30) == 0x06ca6351 && K(31) == 0x14292967
  {}

  lemma After32()
    ensures Rounds(IV, BLOCK, 32) == Hash(0x73b33bf5, 0xea992a22, 0xa0060b30, 0x363482c9, 0xba591112, 0x0109ab3a, 0xade79437, 0x6112a3b7)
  {
    hide S, Round, Rounds, K;
    After24();
    Words24();
    Turns24();
    Constants24();
    Step(24, Hash(0xc5d53d8d, 0xa7a3623f, 0xc2606d6d, 0x9dc68b63, 0xaa47c347, 0x49f5114a, 0xe1257970, 0x8ada8930), 0xc8215c1a);
    Step(25, Hash(0x1c2c2838, 0xc5d53d8d, 0xa7a3623f, 0xc2606d6d, 0x2823ef91, 0xaa47c347, 0x49f5114a, 0xe1257970), 0xb73679a2);
    Step(26, Hash(0xcde8037d, 0x1c2c2838, 0xc5d53d8d, 0xa7a3623f, 0x14383d8e, 0x2823ef91, 0xaa47c347, 0x49f5114a), 0xe5bc3909);
    Step(27, Hash(0xb62ec4bc, 0xcde8037d, 0x1c2c2838, 0xc5d53d8d, 0xc74c6516, 0x14383d8e, 0x2823ef91, 0xaa47c347), 0x32663c5b);
    Step(28, Hash(0x77d37528, 0xb62ec4bc, 0xcde8037d, 0x1c2c2838, 0xedffbff8, 0xc74c6516, 0x14383d8e, 0x2823ef91), 0x9d209d67);
    Step(29, Hash(0x363482c9, 0x77d37528, 0xb62ec4bc, 0xcde8037d, 0x6112a3b7, 0xedffbff8, 0xc74c6516, 0x14383d8e), 0xec8726cb);
    Step(30, Hash(0xa0060b30, 0x363482c9, 0x77d37528, 0xb62ec4bc, 0xade79437, 0x6112a3b7, 0xedffbff8, 0xc74c6516), 0x702138a4);
    Step(31, Hash(0xea992a22, 0xa0060b30, 0x363482c9, 0x77d37528, 0x0109ab3a, 0xade79437, 0x6112a3b7, 0xedffbff8), 0xd3b7973b);
  }

  lemma Turns32()
    ensures Round(Hash(0x73b33bf5, 0xea992a22, 0xa0060b30, 0x363482c9, 0xba591112, 0x0109ab3a, 0xade79437, 0x6112a3b7), 0x27b70a85, 0x93f5997f) == Hash(0x98e12507, 0x73b33bf5, 0xea992a22, 0xa0060b30, 0x9cd9f5f6, 0xba591112, 0x0109ab3a, 0xade79437)
    ensures Round(Hash(0x98e12507, 0x73b33bf5, 0xea992a22, 0xa0060b30, 0x9cd9f5f6, 0xba591112, 0x0109ab3a, 0xade79437), 0x2e1b2138, 0x3b68ba73) == Hash(0xfe604df5, 0x98e12507, 0x73b33bf5, 0xea992a22, 0x59249dd3, 0x9cd9f5f6, 0xba591112, 0x0109ab3a)
    ensures Round(Hash(0xfe604df5, 0x98e12507, 0x73b33bf5, 0xea992a22, 0x59249dd3, 0x9cd9f5f6, 0xba591112, 0x0109ab3a), 0x4d2c6dfc, 0xaff4ffc1) == Hash(0xa9a7738c, 0xfe604df5, 0x98e12507, 0x73b33bf5, 0x085f3833, 0x59249dd3, 0x9cd9f5f6, 0xba591112)
    ensures Round(Hash(0xa9a7738c, 0xfe604df5, 0x98e12507, 0x73b33bf5, 0x085f3833, 0x59249dd3, 0x9cd9f5f6, 0xba591112), 0x53380d13, 0xf10a5c62) == Hash(0x65a0cfe4, 0xa9a7738c, 0xfe604df5, 0x98e12507, 0xf4b002d6, 0x085f3833, 0x59249dd3, 0x9cd9f5f6)
    ensures Round(Hash(0x65a0cfe4, 0xa9a7738c, 0xfe604df5, 0x98e12507, 0xf4b002d6, 0x085f3833, 0x59249dd3, 0x9cd9f5f6), 0x650a7354, 0x0a8b3996) == Hash(0x41a65cb1, 0x65a0cfe4, 0xa9a7738c, 0xfe604df5, 0x0772a26b, 0xf4b002d6, 0x085f3833, 0x59249dd3)
    ensures Round(Hash(0x41a65cb1, 0x65a0cfe4, 0xa9a7738c, 0xfe604df5, 0x0772a26b, 0xf4b002d6, 0x085f3833, 0x59249dd3), 0x766a0abb, 0x72af830a) == Hash(0x34df1604, 0x41a65cb1, 0x65a0cfe4, 0xa9a7738c, 0xa507a53d, 0x0772a26b, 0xf4b002d6, 0x085f3833)
    ensures Round(Hash(0x34df1604, 0x41a65cb1, 0x65a0cfe4, 0xa9a7738c, 0xa507a53d, 0x0772a26b, 0xf4b002d6, 0x085f3833), 0x81c2c92e, 0x9409e33e) == Hash(0x6dc57a8a, 0x34df1604, 0x41a65cb1, 0x65a0cfe4, 0xf0781bc8, 0xa507a53d, 0x0772a26b, 0xf4b002d6)
    ensures Round(Hash(0x6dc57a8a, 0x34df1604, 0x41a65cb1, 0x65a0cfe4, 0xf0781bc8, 0xa507a53d, 0x0772a26b, 0xf4b002d6), 0x92722c85, 0x24641522) == Hash(0x79ea687a, 0x6dc57a8a, 0x34df1604, 0x41a65cb1, 0x1efbc0a0, 0xf0781bc8, 0xa507a53d, 0x0772a26b)
  {}

  lemma Constants32()
    ensures K(32) == 0x27b70a85 && K(33) == 0x2e1b2138 && K(34) == 0x4d2c6dfc && K(35) == 0x53380d13
    ensures K(36) == 0x650a7354 && K(37) == 0x766a0abb && K(38) == 0x81c2c92e && K(39) == 0x92722c85
  {}

  lemma After40()
    ensures Rounds(IV, BLOCK, 40) == Hash(0x79ea687a, 0x6dc57a8a, 0x34df1604, 0x41a65cb1, 0x1efbc0a0, 0xf0781bc8, 0xa507a53d, 0x0772a26b)
  {
    hide S, Round, Rounds, K;
    After32();
    Words32();
    Turns32();
    Constants32();
    Step(32, Hash(0x73b33bf5, 0xea992a22, 0xa0060b30, 0x363482c9, 0xba591112, 0x0109ab3a, 0xade79437, 0x6112a3b7), 0x93f5997f);
    Step(33, Hash(0x98e12507, 0x73b33bf5, 0xea992a22, 0xa0060b30, 0x9cd9f5f6, 0xba591112, 0x0109ab3a, 0xade79437), 0x3b68ba73);
    Step(34, Hash(0xfe604df5, 0x98e12507, 0x73b33bf5, 0xea992a22, 0x59249dd3, 0x9cd9f5f6, 0xba591112, 0x0109ab3a), 0xaff4ffc1);
    Step(35, Hash(0xa9a7738c, 0xfe604df5, 0x98e12507, 0x73b33bf5, 0x085f3833, 0x59249dd3, 0x9cd9f5f6, 0xba591112), 0xf10a5c62);
    Step(36, Hash(0x65a0cfe4, 0xa9a7738c, 0xfe604df5, 0x98e12507, 0xf4b002d6, 0x085f3833, 0x59249dd3, 0x9cd9f5f6), 0x0a8b3996);
    Step(37, Hash(0x41a65cb1, 0x65a0cfe4, 0xa9a7738c, 0xfe604df5, 0x0772a26b, 0xf4b002d6, 0x085f3833, 0x59249dd3), 0x72af830a);
    Step(38, Hash(0x34df1604, 0x41a65cb1, 0x65a0cfe4, 0xa9a7738c, 0xa507a53d, 0x0772a26b, 0xf4b002d6, 0x085f3833), 0x9409e33e);
    Step(39, Hash(0x6dc57a8a, 0x34df1604, 0x41a65cb1, 0x65a0cfe4, 0xf0781bc8, 0xa507a53d, 0x0772a26b, 0xf4b002d6), 0x24641522);
  }

  lemma Turns40()
    ensures Round(Hash(0x79ea687a, 0x6dc57a8a, 0x34df1604, 0x41a65cb1, 0x1efbc0a0, 0xf0781bc8, 0xa507a53d, 0x0772a26b), 0xa2bfe8a1, 0x9f47bf94) == Hash(0xd6670766, 0x79ea687a, 0x6dc57a8a, 0x34df1604, 0x26352d63, 0x1efbc0a0, 0xf0781bc8, 0xa507a53d)
    ensures Round(Hash(0xd6670766, 0x79ea687a, 0x6dc57a8a, 0x34df1604, 0x26352d63, 0x1efbc0a0, 0xf0781bc8, 0xa507a53d), 0xa81a664b, 0xf0a64f5a) == Hash(0xdf46652f, 0xd6670766, 0x79ea687a, 0x6dc57a8a, 0x838b2711, 0x26352d63, 0x1efbc0a0, 0xf0781bc8)
    ensures Round(Hash(0xdf46652f, 0xd6670766, 0x79ea687a, 0x6dc57a8a, 0x838b2711, 0x26352d63, 0x1efbc0a0, 0xf0781bc8), 0xc24b8b70, 0x3e246a79) == Hash(0x17aa0dfe, 0xdf46652f, 0xd6670766, 0x79ea687a, 0xdecd4715, 0x838b2711, 0x26352d63, 0x1efbc0a0)
    ensures Round(Hash(0x17aa0dfe, 0xdf46652f, 0xd6670766, 0x79ea687a, 0xdecd4715, 0x838b2711, 0x26352d63, 0x1efbc0a0), 0xc76c51a3, 0x27333ba3) == Hash(0x9d4baf93, 0x17aa0dfe, 0xdf46652f, 0xd6670766, 0xfda24c2e, 0xdecd4715, 0x838b2711, 0x26352d63)
    ensures Round(Hash(0x9d4baf93, 0x17aa0dfe, 0xdf46652f, 0xd6670766, 0xfda24c2e, 0xdecd4715, 0x838b2711, 0x26352d63), 0xd192e819, 0x0c4763f2) == Hash(0x26628815, 0x9d4baf93, 0x17aa0dfe, 0xdf46652f, 0xa80f11f0, 0xfda24c2e, 0xdecd4715, 0x838b2711)
    ensures Round(Hash(0x26628815, 0x9d4baf93, 0x17aa0dfe, 0xdf46652f, 0xa80f11f0, 0xfda24c2e, 0xdecd4715, 0x838b2711), 0xd6990624, 0x840abf27) == Hash(0x72ab4b91, 0x26628815, 0x9d4baf93, 0x17aa0dfe, 0xb7755da1, 0xa80f11f0, 0xfda24c2e, 0xdecd4715)
    ensures Round(Hash(0x72ab4b91, 0x26628815, 0x9d4baf93, 0x17aa0dfe, 0xb7755da1, 0xa80f11f0, 0xfda24c2e, 0xdecd4715), 0xf40e3585, 0x7a290d5d) == Hash(0xa14c14b0, 0x72ab4b91, 0x26628815, 0x9d4baf93, 0xd57b94a9, 0xb7755da1, 0xa80f11f0, 0xfda24c2e)
    ensures Round(Hash(0xa14c14b0, 0x72ab4b91, 0x26628815, 0x9d4baf93, 0xd57b94a9, 0xb7755da1, 0xa80f11f0, 0xfda24c2e), 0x106aa070, 0x065c43da) == Hash(0x4172328d, 0xa14c14b0, 0x72ab4b91, 0x26628815, 0xfecf0bc6, 0xd57b94a9, 0xb7755da1, 0xa80f11f0)
  {}

  lemma Constants40()
    ensures K(40) == 0xa2bfe8a1 && K(41) == 0xa81a664b && K(42) == 0xc24b8b70 && K(43) == 0xc76c51a3
    ensures K(44) == 0xd192e819 && K(45) == 0xd6990624 && K(46) == 0xf40e3585 && K(47) == 0x106aa070
  {}

  lemma After48()
    ensures Rounds(IV, BLOCK, 48) == Hash(0x4172328d, 0xa14c14b0, 0x72ab4b91, 0x26628815, 0xfecf0bc6, 0xd57b94a9, 0xb7755da1, 0xa80f11f0)
  {
    hide S, Round, Rounds, K;
    After40();
    Words40();
    Turns40();
    Constants40();
    Step(40, Hash(0x79ea687a, 0x6dc57a8a, 0x34df1604, 0x41a65cb1, 0x1efbc0a0, 0xf0781bc8, 0xa507a53d, 0x0772a26b), 0x9f47bf94);
    Step(41, Hash(0xd6670766, 0x79ea687a, 0x6dc57a8a, 0x34df1604, 0x26352d63, 0x1efbc0a0, 0xf0781bc8, 0xa507a53d), 0xf0a64f5a);
    Step(42, Hash(0xdf46652f, 0xd6670766, 0x79ea687a, 0x6dc57a8a, 0x838b2711, 0x26352d63, 0x1efbc0a0, 0xf0781bc8), 0x3e246a79);
    Step(43, Hash(0x17aa0dfe, 0xdf46652f, 0xd6670766, 0x79ea687a, 0xdecd4715, 0x838b2711, 0x26352d63, 0x1efbc0a0), 0x27333ba3);
    Step(44, Hash(0x9d4baf93, 0x17aa0dfe, 0xdf46652f, 0xd6670766, 0xfda24c2e, 0xdecd4715, 0x838b2711, 0x26352d63), 0x0c4763f2);
    Step(45, Hash(0x26628815, 0x9d4baf93, 0x17aa0dfe, 0xdf46652f, 0xa80f11f0, 0xfda24c2e, 0xdecd4715, 0x838b2711), 0x840abf27);
    Step(46, Hash(0x72ab4b91, 0x26628815, 0x9d4baf93, 0x17aa0dfe, 0xb7755da1, 0xa80f11f0, 0xfda24c2e, 0xdecd4715), 0x7a290d5d);
    Step(47, Hash(0xa14c14b0, 0x72ab4b91, 0x26628815, 0x9d4baf93, 0xd57b94a9, 0xb7755da1, 0xa80f11f0, 0xfda24c2e), 0x065c43da);
  }

  lemma Turns48()
    ensures Round(Hash(0x4172328d, 0xa14c14b0, 0x72ab4b91, 0x26628815, 0xfecf0bc6, 0xd57b94a9, 0xb7755da1, 0xa80f11f0), 0x19a4c116, 0xfb3e89cb) == Hash(0x05757ceb, 0x4172328d, 0xa14c14b0, 0x72ab4b91, 0xbd714038, 0xfecf0bc6, 0xd57b94a9, 0xb7755da1)
    ensures Round(Hash(0x05757ceb, 0x4172328d, 0xa14c14b0, 0x72ab4b91, 0xbd714038, 0xfecf0bc6, 0xd57b94a9, 0xb7755da1), 0x1e376c08, 0xcc7617db) == Hash(0xf11bfaa8, 0x05757ceb, 0x4172328d, 0xa14c14b0, 0x6e5c390c, 0xbd714038, 0xfecf0bc6, 0xd57b94a9)
    ensures Round(Hash(0xf11bfaa8, 0x05757ceb, 0x4172328d, 0xa14c14b0, 0x6e5c390c, 0xbd714038, 0xfecf0bc6, 0xd57b94a9), 0x2748774c, 0xb9e66c34) == Hash(0x7a0508a1, 0xf11bfaa8, 0x05757ceb, 0x4172328d, 0x52f1ccf7, 0x6e5c390c, 0xbd714038, 0xfecf0bc6)
    ensures Round(Hash(0x7a0508a1, 0xf11bfaa8, 0x05757ceb, 0x4172328d, 0x52f1ccf7, 0x6e5c390c, 0xbd714038, 0xfecf0bc6), 0x34b0bcb5, 0xa9993667) == Hash(0x886e7a22, 0x7a0508a1, 0xf11bfaa8, 0x05757ceb, 0x49231c1e, 0x52f1ccf7, 0x6e5c390c, 0xbd714038)
    ensures Round(Hash(0x886e7a22, 0x7a0508a1, 0xf11bfaa8, 0x05757ceb, 0x49231c1e, 0x52f1ccf7, 0x6e5c390c, 0xbd714038), 0x391c0cb3, 0x84badedd) == Hash(0x101fd28f, 0x886e7a22, 0x7a0508a1, 0xf11bfaa8, 0x529e7d00, 0x49231c1e, 0x52f1ccf7, 0x6e5c390c)
    ensures Round(Hash(0x101fd28f, 0x886e7a22, 0x7a0508a1, 0xf11bfaa8, 0x529e7d00, 0x49231c1e, 0x52f1ccf7, 0x6e5c390c), 0x4ed8aa4a, 0xc21462bc) == Hash(0xf5702fdb, 0x101fd28f, 0x886e7a22, 0x7a0508a1, 0x9f4787c3, 0x529e7d00, 0x49231c1e, 0x52f1ccf7)
    ensures Round(Hash(0xf5702fdb, 0x101fd28f, 0x886e7a22, 0x7a0508a1, 0x9f4787c3, 0x529e7d00, 0x49231c1e, 0x52f1ccf7), 0x5b9cca4f, 0x1487472c) == Hash(0x3ec45cdb, 0xf5702fdb, 0x101fd28f, 0x886e7a22, 0xe50e1b4f, 0x9f4787c3, 0x529e7d00, 0x49231c1e)
    ensures Round(Hash(0x3ec45cdb, 0xf5702fdb, 0x101fd28f, 0x886e7a22, 0xe50e1b4f, 0x9f4787c3, 0x529e7d00, 0x49231c1e), 0x682e6ff3, 0xb20f7a99) == Hash(0x38cc9913, 0x3ec45cdb, 0xf5702fdb, 0x101fd28f, 0x54cb266b, 0xe50e1b4f, 0x9f4787c3, 0x529e7d00)
  {}

  lemma Constants48()
    ensures K(48) == 0x19a4c116 && K(49) == 0x1e376c08 && K(50) == 0x2748774c && K(51) == 0x34b0bcb5
    ensures K(52) == 0x391c0cb3 && K(53) == 0x4ed8aa4a && K(54) == 0x5b9cca4f && K(55) == 0x682e6ff3
  {}

  lemma After56()
    ensures Rounds(IV, BLOCK, 56) == Hash(0x38cc9913, 0x3ec45cdb, 0xf5702fdb, 0x101fd28f, 0x54cb266b, 0xe50e1b4f, 0x9f4787c3, 0x529e7d00)
  {
    hide S, Round, Rounds, K;
    After48();
    Words48();
    Turns48();
    Constants48();
    Step(48, Hash(0x4172328d, 0xa14c14b0, 0x72ab4b91, 0x26628815, 0xfecf0bc6, 0xd57b94a9, 0xb7755da1, 0xa80f11f0), 0xfb3e89cb);
    Step(49, Hash(0x05757ceb, 0x4172328d, 0xa14c14b0, 0x72ab4b91, 0xbd714038, 0xfecf0bc6, 0xd57b94a9, 0xb7755da1), 0xcc7617db);
    Step(50, Hash(0xf11bfaa8, 0x05757ceb, 0x4172328d, 0xa14c14b0, 0x6e5c390c, 0xbd714038, 0xfecf0bc6, 0xd57b94a9), 0xb9e66c34);
    Step(51, Hash(0x7a0508a1, 0xf11bfaa8, 0x05757ceb, 0x4172328d, 0x52f1ccf7, 0x6e5c390c, 0xbd714038, 0xfecf0bc6), 0xa9993667);
    Step(52, Hash(0x886e7a22, 0x7a0508a1, 0xf11bfaa8, 0x05757ceb, 0x49231c1e, 0x52f1ccf7, 0x6e5c390c, 0xbd714038), 0x84badedd);
    Step(53, Hash(0x101fd28f, 0x886e7a22, 0x7a0508a1, 0xf11bfaa8, 0x529e7d00, 0x49231c1e, 0x52f1ccf7, 0x6e5c390c), 0xc21462bc);
    Step(54, Hash(0xf5702fdb, 0x101fd28f, 0x886e7a22, 0x7a0508a1, 0x9f4787c3, 0x529e7d00, 0x49231c1e, 0x52f1ccf7), 0x1487472c);
    Step(55, Hash(0x3ec45cdb, 0xf5702fdb, 0x101fd28f, 0x886e7a22, 0xe50e1b4f, 0x9f4787c3, 0x529e7d00, 0x49231c1e), 0xb20f7a99);
  }

  lemma Turns56()
    ensures Round(Hash(0x38cc9913, 0x3ec45cdb, 0xf5702fdb, 0x101fd28f, 0x54cb266b, 0xe50e1b4f, 0x9f4787c3, 0x529e7d00), 0x748f82ee, 0xef57b9cd) == Hash(0xfcd1887b, 0x38cc9913, 0x3ec45cdb, 0xf5702fdb, 0x9b5e906c, 0x54cb266b, 0xe50e1b4f, 0x9f4787c3)
    ensures Round(Hash(0xfcd1887b, 0x38cc9913, 0x3ec45cdb, 0xf5702fdb, 0x9b5e906c, 0x54cb266b, 0xe50e1b4f, 0x9f4787c3), 0x78a5636f, 0xebe6b238) == Hash(0xc062d46f, 0xfcd1887b, 0x38cc9913, 0x3ec45cdb, 0x7e44008e, 0x9b5e906c, 0x54cb266b, 0xe50e1b4f)
    ensures Round(Hash(0xc062d46f, 0xfcd1887b, 0x38cc9913, 0x3ec45cdb, 0x7e44008e, 0x9b5e906c, 0x54cb266b, 0xe50e1b4f), 0x84c87814, 0x9fe3095e) == Hash(0xffb70472, 0xc062d46f, 0xfcd1887b, 0x38cc9913, 0x6d83bfc6, 0x7e44008e, 0x9b5e906c, 0x54cb266b)
    ensures Round(Hash(0xffb70472, 0xc062d46f, 0xfcd1887b, 0x38cc9913, 0x6d83bfc6, 0x7e44008e, 0x9b5e906c, 0x54cb266b), 0x8cc70208, 0x78bc8d4b) == Hash(0xb6ae8fff, 0xffb70472, 0xc062d46f, 0xfcd1887b, 0xb21bad3d, 0x6d83bfc6, 0x7e44008e, 0x9b5e906c)
    ensures Round(Hash(0xb6ae8fff, 0xffb70472, 0xc062d46f, 0xfcd1887b, 0xb21bad3d, 0x6d83bfc6, 0x7e44008e, 0x9b5e906c), 0x90befffa, 0xa43fcf15) == Hash(0xb85e2ce9, 0xb6ae8fff, 0xffb70472, 0xc062d46f, 0x961f4894, 0xb21bad3d, 0x6d83bfc6, 0x7e44008e)
    ensures Round(Hash(0xb85e2ce9, 0xb6ae8fff, 0xffb70472, 0xc062d46f, 0x961f4894, 0xb21bad3d, 0x6d83bfc6, 0x7e44008e), 0xa4506ceb, 0x668b2ff8) == Hash(0x04d24d6c, 0xb85e2ce9, 0xb6ae8fff, 0xffb70472, 0x948d25b6, 0x961f4894, 0xb21bad3d, 0x6d83bfc6)
    ensures Round(Hash(0x04d24d6c, 0xb85e2ce9, 0xb6ae8fff, 0xffb70472, 0x948d25b6, 0x961f4894, 0xb21bad3d, 0x6d83bfc6), 0xbef9a3f7, 0xeeaba2cc) == Hash(0xd39a2165, 0x04d24d6c, 0xb85e2ce9, 0xb6ae8fff, 0xfb121210, 0x948d25b6, 0x961f4894, 0xb21bad3d)
    ensures Round(Hash(0xd39a2165, 0x04d24d6c, 0xb85e2ce9, 0xb6ae8fff, 0xfb121210, 0x948d25b6, 0x961f4894, 0xb21bad3d), 0xc67178f2, 0x12b1edeb) == Hash(0x506e3058, 0xd39a2165, 0x04d24d6c, 0xb85e2ce9, 0x5ef50f24, 0xfb121210, 0x948d25b6, 0x961f4894)
  {}

  lemma Constants56()
    ensures K(56) == 0x748f82ee && K(57) == 0x78a5636f && K(58) == 0x84c87814 && K(59) == 0x8cc70208
    ensures K(60) == 0x90befffa && K(61) == 0xa4506ceb && K(62) == 0xbef9a3f7 && K(63) == 0xc67178f2
  {}

  lemma After64()
    ensures Rounds(IV, BLOCK, 64) == Hash(0x506e3058, 0xd39a2165, 0x04d24d6c, 0xb85e2ce9, 0x5ef50f24, 0xfb121210, 0x948d25b6, 0x961f4894)
  {
    hide S, Round, Rounds, K;
    After56();
    Words56();
    Turns56();
    Constants56();
    Step(56, Hash(0x38cc9913, 0x3ec45cdb, 0xf5702fdb, 0x101fd28f, 0x54cb266b, 0xe50e1b4f, 0x9f4787c3, 0x529e7d00), 0xef57b9cd);
    Step(57, Hash(0xfcd1887b, 0x38cc9913, 0x3ec45cdb, 0xf5702fdb, 0x9b5e906c, 0x54cb266b, 0xe50e1b4f, 0x9f4787c3), 0xebe6b238);
    Step(58, Hash(0xc062d46f, 0xfcd1887b, 0x38cc9913, 0x3ec45cdb, 0x7e44008e, 0x9b5e906c, 0x54cb266b, 0xe50e1b4f), 0x9fe3095e);
    Step(59, Hash(0xffb70472, 0xc062d46f, 0xfcd1887b, 0x38cc9913, 0x6d83bfc6, 0x7e44008e, 0x9b5e906c, 0x54cb266b), 0x78bc8d4b);
    Step(60, Hash(0xb6ae8fff, 0xffb70472, 0xc062d46f, 0xfcd1887b, 0xb21bad3d, 0x6d83bfc6, 0x7e44008e, 0x9b5e906c), 0xa43fcf15);
    Step(61, Hash(0xb85e2ce9, 0xb6ae8fff, 0xffb70472, 0xc062d46f, 0x961f4894, 0xb21bad3d, 0x6d83bfc6, 0x7e44008e), 0x668b2ff8);
    Step(62, Hash(0x04d24d6c, 0xb85e2ce9, 0xb6ae8fff, 0xffb70472, 0x948d25b6, 0x961f4894, 0xb21bad3d, 0x6d83bfc6), 0xeeaba2cc);
    Step(63, Hash(0xd39a2165, 0x04d24d6c, 0xb85e2ce9, 0xb6ae8fff, 0xfb121210, 0x948d25b6, 0x961f4894, 0xb21bad3d), 0x12b1edeb);
  }

  lemma Begin()
    ensures Rounds(IV, BLOCK, 0) == Hash(0x6a09e667, 0xbb67ae85, 0x3c6ef372, 0xa54ff53a, 0x510e527f, 0x9b05688c, 0x1f83d9ab, 0x5be0cd19)
  {}

  // The digest.

  lemma Added()
    ensures Hash(0x506e3058, 0xd39a2165, 0x04d24d6c, 0xb85e2ce9, 0x5ef50f24, 0xfb121210, 0x948d25b6, 0x961f4894).Plus(IV) ==
            Hash(0xba7816bf, 0x8f01cfea, 0x414140de, 0x5dae2223, 0xb00361a3, 0x96177a9c, 0xb410ff61, 0xf20015ad)
  {}

  lemma Compressed()
    ensures Compress(IV, BLOCK) == Hash(0xba7816bf, 0x8f01cfea, 0x414140de, 0x5dae2223, 0xb00361a3, 0x96177a9c, 0xb410ff61, 0xf20015ad)
  {
    hide S, Round, Rounds, K;
    After64();
    Added();
  }

  lemma Regroup(m: seq<byte>, e: seq<byte>, y: seq<byte>, z: seq<byte>, tail: seq<byte>)
    ensures m + e + y + z + tail == (m + e) + ((y + z) + tail)
  {}

  lemma MoreZeros()
    ensures Gap(3) == 52 && Be32(0) == Zeros(4) && Zeros(52) + Zeros(4) == Zeros(56)
  {}

  lemma PadIs(head: seq<byte>, tail: seq<byte>)
    requires head == ABC + [0x80] && tail == Be32(24)
    ensures Pad(ABC) == head + (Zeros(56) + tail)
  {
    MoreZeros();
    hide Zeros, Be32, Gap;
    Regroup(ABC, [0x80], Zeros(52), Zeros(4), tail);
  }

  lemma Padded()
    ensures WordsOf(Pad(ABC)) == BLOCK
  {
    hide WordsOf, Load, Store, Pad, Zeros, Be32;
    var first: word, last: word := 0x61626380, 0x18;
    var head, tail := Store(first), Store(last);
    Ends();
    PadIs(head, tail);
    NoZeros(56);
    WordsOfAppend(head, Zeros(56) + tail);
    WordsOfAppend(Zeros(56), tail);
    WordsOfZeros(14);
    WordsOfStore(first);
    WordsOfStore(last);
    assert [first] + (seq(14, _ => 0 as word) + [last]) == BLOCK;
  }

  lemma NoZeros(n: nat)
    ensures |Zeros(n)| == n
  {}

  lemma Ends()
    ensures Store(0x61626380) == ABC + [0x80] && Store(0x18) == Be32(24)
  {}

  lemma Stores()
    ensures Store(0xba7816bf) == [0xba, 0x78, 0x16, 0xbf]
    ensures Store(0x8f01cfea) == [0x8f, 0x01, 0xcf, 0xea]
    ensures Store(0x414140de) == [0x41, 0x41, 0x40, 0xde]
    ensures Store(0x5dae2223) == [0x5d, 0xae, 0x22, 0x23]
    ensures Store(0xb00361a3) == [0xb0, 0x03, 0x61, 0xa3]
    ensures Store(0x96177a9c) == [0x96, 0x17, 0x7a, 0x9c]
    ensures Store(0xb410ff61) == [0xb4, 0x10, 0xff, 0x61]
    ensures Store(0xf20015ad) == [0xf2, 0x00, 0x15, 0xad]
  {}

  /** The SHA-256 of "abc", word by word. */
  lemma Sha256OfAbc()
    ensures Sha256(ABC)[0..4] == [0xba, 0x78, 0x16, 0xbf]
    ensures Sha256(ABC)[4..8] == [0x8f, 0x01, 0xcf, 0xea]
    ensures Sha256(ABC)[8..12] == [0x41, 0x41, 0x40, 0xde]
    ensures Sha256(ABC)[12..16] == [0x5d, 0xae, 0x22, 0x23]
    ensures Sha256(ABC)[16..20] == [0xb0, 0x03, 0x61, 0xa3]
    ensures Sha256(ABC)[20..24] == [0x96, 0x17, 0x7a, 0x9c]
    ensures Sha256(ABC)[24..28] == [0xb4, 0x10, 0xff, 0x61]
    ensures Sha256(ABC)[28..32] == [0xf2, 0x00, 0x15, 0xad]
  {
    hide Pad, WordsOf, Compress, BytesOf, Store, Fold;
    Padded();
    Compressed();
    Stores();
    FoldEnds(IV, BLOCK);
    FoldNone(IV);
    assert BLOCK[..0] == [] && BLOCK[0..] == BLOCK;
    var ws := Hash(0xba7816bf, 0x8f01cfea, 0x414140de, 0x5dae2223, 0xb00361a3, 0x96177a9c, 0xb410ff61, 0xf20015ad).Words();
    BytesAt(ws, 0);
    BytesAt(ws, 1);
    BytesAt(ws, 2);
    BytesAt(ws, 3);
    BytesAt(ws, 4);
    BytesAt(ws, 5);
    BytesAt(ws, 6);
    BytesAt(ws, 7);
  }
}
