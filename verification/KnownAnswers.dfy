/** Known answers: what the hash of the specification comes to on a concrete input, and where its constants come from. */
module KnownAnswers {
  import opened Bytes
  import opened Sha256

  // ----- where the constants come from -----

  /** The first 64 prime numbers. */
  const PRIMES: seq<nat> := P0 + P1 + P2 + P3 + P4 + P5 + P6 + P7

  const P0: seq<nat> := [2, 3, 5, 7, 11, 13, 17, 19]
  const P1: seq<nat> := [23, 29, 31, 37, 41, 43, 47, 53]
  const P2: seq<nat> := [59, 61, 67, 71, 73, 79, 83, 89]
  const P3: seq<nat> := [97, 101, 103, 107, 109, 113, 127, 131]
  const P4: seq<nat> := [137, 139, 149, 151, 157, 163, 167, 173]
  const P5: seq<nat> := [179, 181, 191, 193, 197, 199, 211, 223]
  const P6: seq<nat> := [227, 229, 233, 239, 241, 251, 257, 263]
  const P7: seq<nat> := [269, 271, 277, 281, 283, 293, 307, 311]

  const TWO_96 := TWO_64 * TWO_32

  /** The 32 bits behind the point of the cube root of p, and of its square root. */
  ghost predicate CubeRootBits(p: nat, k: word) {
    exists n: nat :: Cube(n) <= p * TWO_96 < Cube(n + 1) && k as int == n % TWO_32
  }

  ghost predicate SquareRootBits(p: nat, k: word) {
    exists n: nat :: Square(n) <= p * TWO_64 < Square(n + 1) && k as int == n % TWO_32
  }

  function Cube(n: nat): nat {
    n * n * n
  }

  function Square(n: nat): nat {
    n * n
  }

  lemma CubeRoot(p: nat, n: nat, k: word)
    requires Cube(n) <= p * TWO_96 < Cube(n + 1) && k as int == n % TWO_32
    ensures CubeRootBits(p, k)
  {
  }

  lemma SquareRoot(p: nat, n: nat, k: word)
    requires Square(n) <= p * TWO_64 < Square(n + 1) && k as int == n % TWO_32
    ensures SquareRootBits(p, k)
  {
  }

  lemma CubeRoots0()
    ensures forall t :: 0 <= t < 8 ==> CubeRootBits(P0[t], K0[t])
  {
    hide CubeRootBits;
    CubeRoot(2, 0x1428a2f98, 0x428a2f98);
    CubeRoot(3, 0x171374491, 0x71374491);
    CubeRoot(5, 0x1b5c0fbcf, 0xb5c0fbcf);
    CubeRoot(7, 0x1e9b5dba5, 0xe9b5dba5);
    CubeRoot(11, 0x23956c25b, 0x3956c25b);
    CubeRoot(13, 0x259f111f1, 0x59f111f1);
    CubeRoot(17, 0x2923f82a4, 0x923f82a4);
    CubeRoot(19, 0x2ab1c5ed5, 0xab1c5ed5);
  }

  lemma CubeRoots1()
    ensures forall t :: 0 <= t < 8 ==> CubeRootBits(P1[t], K1[t])
  {
    hide CubeRootBits;
    CubeRoot(23, 0x2d807aa98, 0xd807aa98);
    CubeRoot(29, 0x312835b01, 0x12835b01);
    CubeRoot(31, 0x3243185be, 0x243185be);
    CubeRoot(37, 0x3550c7dc3, 0x550c7dc3);
    CubeRoot(41, 0x372be5d74, 0x72be5d74);
    CubeRoot(43, 0x380deb1fe, 0x80deb1fe);
    CubeRoot(47, 0x39bdc06a7, 0x9bdc06a7);
    CubeRoot(53, 0x3c19bf174, 0xc19bf174);
  }

  lemma CubeRoots2()
    ensures forall t :: 0 <= t < 8 ==> CubeRootBits(P2[t], K2[t])
  {
    hide CubeRootBits;
    CubeRoot(59, 0x3e49b69c1, 0xe49b69c1);
    CubeRoot(61, 0x3efbe4786, 0xefbe4786);
    CubeRoot(67, 0x40fc19dc6, 0x0fc19dc6);
    CubeRoot(71, 0x4240ca1cc, 0x240ca1cc);
    CubeRoot(73, 0x42de92c6f, 0x2de92c6f);
    CubeRoot(79, 0x44a7484aa, 0x4a7484aa);
    CubeRoot(83, 0x45cb0a9dc, 0x5cb0a9dc);
    CubeRoot(89, 0x476f988da, 0x76f988da);
  }

  lemma CubeRoots3()
    ensures forall t :: 0 <= t < 8 ==> CubeRootBits(P3[t], K3[t])
  {
    hide CubeRootBits;
    CubeRoot(97, 0x4983e5152, 0x983e5152);
    CubeRoot(101, 0x4a831c66d, 0xa831c66d);
    CubeRoot(103, 0x4b00327c8, 0xb00327c8);
    CubeRoot(107, 0x4bf597fc7, 0xbf597fc7);
    CubeRoot(109, 0x4c6e00bf3, 0xc6e00bf3);
    CubeRoot(113, 0x4d5a79147, 0xd5a79147);
    CubeRoot(127, 0x506ca6351, 0x06ca6351);
    CubeRoot(131, 0x514292967, 0x14292967);
  }

  lemma CubeRoots4()
    ensures forall t :: 0 <= t < 8 ==> CubeRootBits(P4[t], K4[t])
  {
    hide CubeRootBits;
    CubeRoot(137, 0x527b70a85, 0x27b70a85);
    CubeRoot(139, 0x52e1b2138, 0x2e1b2138);
    CubeRoot(149, 0x54d2c6dfc, 0x4d2c6dfc);
    CubeRoot(151, 0x553380d13, 0x53380d13);
    CubeRoot(157, 0x5650a7354, 0x650a7354);
    CubeRoot(163, 0x5766a0abb, 0x766a0abb);
    CubeRoot(167, 0x581c2c92e, 0x81c2c92e);
    CubeRoot(173, 0x592722c85, 0x92722c85);
  }

  lemma CubeRoots5()
    ensures forall t :: 0 <= t < 8 ==> CubeRootBits(P5[t], K5[t])
  {
    hide CubeRootBits;
    CubeRoot(179, 0x5a2bfe8a1, 0xa2bfe8a1);
    CubeRoot(181, 0x5a81a664b, 0xa81a664b);
    CubeRoot(191, 0x5c24b8b70, 0xc24b8b70);
    CubeRoot(193, 0x5c76c51a3, 0xc76c51a3);
    CubeRoot(197, 0x5d192e819, 0xd192e819);
    CubeRoot(199, 0x5d6990624, 0xd6990624);
    CubeRoot(211, 0x5f40e3585, 0xf40e3585);
    CubeRoot(223, 0x6106aa070, 0x106aa070);
  }

  lemma CubeRoots6()
    ensures forall t :: 0 <= t < 8 ==> CubeRootBits(P6[t], K6[t])
  {
    hide CubeRootBits;
    CubeRoot(227, 0x619a4c116, 0x19a4c116);
    CubeRoot(229, 0x61e376c08, 0x1e376c08);
    CubeRoot(233, 0x62748774c, 0x2748774c);
    CubeRoot(239, 0x634b0bcb5, 0x34b0bcb5);
    CubeRoot(241, 0x6391c0cb3, 0x391c0cb3);
    CubeRoot(251, 0x64ed8aa4a, 0x4ed8aa4a);
    CubeRoot(257, 0x65b9cca4f, 0x5b9cca4f);
    CubeRoot(263, 0x6682e6ff3, 0x682e6ff3);
  }

  lemma CubeRoots7()
    ensures forall t :: 0 <= t < 8 ==> CubeRootBits(P7[t], K7[t])
  {
    hide CubeRootBits;
    CubeRoot(269, 0x6748f82ee, 0x748f82ee);
    CubeRoot(271, 0x678a5636f, 0x78a5636f);
    CubeRoot(277, 0x684c87814, 0x84c87814);
    CubeRoot(281, 0x68cc70208, 0x8cc70208);
    CubeRoot(283, 0x690befffa, 0x90befffa);
    CubeRoot(293, 0x6a4506ceb, 0xa4506ceb);
    CubeRoot(307, 0x6bef9a3f7, 0xbef9a3f7);
    CubeRoot(311, 0x6c67178f2, 0xc67178f2);
  }

  /** The round constants are the first 32 bits of the fractional parts of the cube roots of the first 64 primes. */
  lemma ConstantsAreCubeRoots(t: nat)
    requires t < 64
    ensures CubeRootBits(PRIMES[t], RoundConstant(t))
  {
    hide CubeRootBits;
    CubeRoots0();
    CubeRoots1();
    CubeRoots2();
    CubeRoots3();
    CubeRoots4();
    CubeRoots5();
    CubeRoots6();
    CubeRoots7();
    assert t / 8 == 0 ==> PRIMES[t] == P0[t - 0] && K[t] == K0[t - 0];
    assert t / 8 == 1 ==> PRIMES[t] == P1[t - 8] && K[t] == K1[t - 8];
    assert t / 8 == 2 ==> PRIMES[t] == P2[t - 16] && K[t] == K2[t - 16];
    assert t / 8 == 3 ==> PRIMES[t] == P3[t - 24] && K[t] == K3[t - 24];
    assert t / 8 == 4 ==> PRIMES[t] == P4[t - 32] && K[t] == K4[t - 32];
    assert t / 8 == 5 ==> PRIMES[t] == P5[t - 40] && K[t] == K5[t - 40];
    assert t / 8 == 6 ==> PRIMES[t] == P6[t - 48] && K[t] == K6[t - 48];
    assert t / 8 == 7 ==> PRIMES[t] == P7[t - 56] && K[t] == K7[t - 56];
  }

  /** The initial value is that of the square roots of the first eight. */
  lemma InitialIsSquareRoots(t: nat)
    requires t < 8
    ensures SquareRootBits(PRIMES[t], INITIAL[t])
  {
    hide SquareRootBits;
    SquareRoot(2, 0x16a09e667, 0x6a09e667);
    SquareRoot(3, 0x1bb67ae85, 0xbb67ae85);
    SquareRoot(5, 0x23c6ef372, 0x3c6ef372);
    SquareRoot(7, 0x2a54ff53a, 0xa54ff53a);
    SquareRoot(11, 0x3510e527f, 0x510e527f);
    SquareRoot(13, 0x39b05688c, 0x9b05688c);
    SquareRoot(17, 0x41f83d9ab, 0x1f83d9ab);
    SquareRoot(19, 0x45be0cd19, 0x5be0cd19);
    assert PRIMES[t] == P0[t];
  }

  // ----- SHA-256, eight words and eight rounds at a time -----

  datatype Eight = Eight(w0: word, w1: word, w2: word, w3: word, w4: word, w5: word, w6: word, w7: word)

  predicate WordsAt(block: seq<word>, t: nat, w: Eight)
    requires |block| == 16
  {
    && Schedule(block, t) == w.w0 && Schedule(block, t + 1) == w.w1 && Schedule(block, t + 2) == w.w2
    && Schedule(block, t + 3) == w.w3 && Schedule(block, t + 4) == w.w4 && Schedule(block, t + 5) == w.w5
    && Schedule(block, t + 6) == w.w6 && Schedule(block, t + 7) == w.w7
  }

  predicate ConstantsAt(t: nat, k: Eight)
    requires t <= 56
  {
    && RoundConstant(t) == k.w0 && RoundConstant(t + 1) == k.w1 && RoundConstant(t + 2) == k.w2
    && RoundConstant(t + 3) == k.w3 && RoundConstant(t + 4) == k.w4 && RoundConstant(t + 5) == k.w5
    && RoundConstant(t + 6) == k.w6 && RoundConstant(t + 7) == k.w7
  }

  // One more word of the schedule, from the four it is made of.
  function Scheduled(w2: word, w7: word, w15: word, w16: word): word {
    Add(Add(Add(SmallSigma1(w2), w7), SmallSigma0(w15)), w16)
  }

  // The eight words behind sixteen.
  function NextEight(a: Eight, b: Eight): Eight {
    var x0 := Scheduled(b.w6, b.w1, a.w1, a.w0);
    var x1 := Scheduled(b.w7, b.w2, a.w2, a.w1);
    var x2 := Scheduled(x0, b.w3, a.w3, a.w2);
    var x3 := Scheduled(x1, b.w4, a.w4, a.w3);
    var x4 := Scheduled(x2, b.w5, a.w5, a.w4);
    var x5 := Scheduled(x3, b.w6, a.w6, a.w5);
    var x6 := Scheduled(x4, b.w7, a.w7, a.w6);
    var x7 := Scheduled(x5, x0, b.w0, a.w7);
    Eight(x0, x1, x2, x3, x4, x5, x6, x7)
  }

  lemma ScheduleStep(block: seq<word>, t: nat)
    requires |block| == 16 && t >= 16
    ensures Schedule(block, t) ==
      Scheduled(Schedule(block, t - 2), Schedule(block, t - 7), Schedule(block, t - 15), Schedule(block, t - 16))
  {
  }

  lemma NextWord(block: seq<word>, t: nat, w2: word, w7: word, w15: word, w16: word)
    requires |block| == 16 && t >= 16 && Schedule(block, t - 2) == w2 && Schedule(block, t - 7) == w7
    requires Schedule(block, t - 15) == w15 && Schedule(block, t - 16) == w16
    ensures Schedule(block, t) == Scheduled(w2, w7, w15, w16)
  {
    hide Schedule, Scheduled;
    ScheduleStep(block, t);
  }

  lemma NextWords(block: seq<word>, t: nat, a: Eight, b: Eight)
    requires |block| == 16 && t >= 16 && WordsAt(block, t - 16, a) && WordsAt(block, t - 8, b)
    ensures WordsAt(block, t, NextEight(a, b))
  {
    hide Schedule, Scheduled;
    var x := NextEight(a, b);
    NextWord(block, t, b.w6, b.w1, a.w1, a.w0);
    NextWord(block, t + 1, b.w7, b.w2, a.w2, a.w1);
    NextWord(block, t + 2, x.w0, b.w3, a.w3, a.w2);
    NextWord(block, t + 3, x.w1, b.w4, a.w4, a.w3);
    NextWord(block, t + 4, x.w2, b.w5, a.w5, a.w4);
    NextWord(block, t + 5, x.w3, b.w6, a.w6, a.w5);
    NextWord(block, t + 6, x.w4, b.w7, a.w7, a.w6);
    NextWord(block, t + 7, x.w5, x.w0, b.w0, a.w7);
  }

  function BlockOf(a: Eight, b: Eight): (block: seq<word>)
    ensures |block| == 16
  {
    [a.w0, a.w1, a.w2, a.w3, a.w4, a.w5, a.w6, a.w7, b.w0, b.w1, b.w2, b.w3, b.w4, b.w5, b.w6, b.w7]
  }

  lemma FirstWord(block: seq<word>, t: nat)
    requires |block| == 16 && t < 16
    ensures Schedule(block, t) == block[t]
  {
  }

  lemma FirstWords(a: Eight, b: Eight)
    ensures WordsAt(BlockOf(a, b), 0, a) && WordsAt(BlockOf(a, b), 8, b)
  {
    hide Schedule;
    var block := BlockOf(a, b);
    FirstWord(block, 0);
    FirstWord(block, 1);
    FirstWord(block, 2);
    FirstWord(block, 3);
    FirstWord(block, 4);
    FirstWord(block, 5);
    FirstWord(block, 6);
    FirstWord(block, 7);
    FirstWord(block, 8);
    FirstWord(block, 9);
    FirstWord(block, 10);
    FirstWord(block, 11);
    FirstWord(block, 12);
    FirstWord(block, 13);
    FirstWord(block, 14);
    FirstWord(block, 15);
  }

  lemma EightInitialWords()
    ensures |INITIAL| == 8
  {
  }

  function EightRounds(v: Vars, k: Eight, w: Eight): Vars {
    var v1 := Round(v, k.w0, w.w0);
    var v2 := Round(v1, k.w1, w.w1);
    var v3 := Round(v2, k.w2, w.w2);
    var v4 := Round(v3, k.w3, w.w3);
    var v5 := Round(v4, k.w4, w.w4);
    var v6 := Round(v5, k.w5, w.w5);
    var v7 := Round(v6, k.w6, w.w6);
    Round(v7, k.w7, w.w7)
  }

  lemma RoundStep(v: Vars, block: seq<word>, n: nat)
    requires |block| == 16 && n < 64
    ensures Rounds(v, block, n + 1) == Round(Rounds(v, block, n), RoundConstant(n), Schedule(block, n))
  {
  }

  lemma NextRounds(v: Vars, block: seq<word>, n: nat, k: Eight, w: Eight)
    requires |block| == 16 && n <= 56 && ConstantsAt(n, k) && WordsAt(block, n, w)
    ensures Rounds(v, block, n + 8) == EightRounds(Rounds(v, block, n), k, w)
  {
    hide Schedule, Rounds, Round, RoundConstant;
    RoundStep(v, block, n);
    RoundStep(v, block, n + 1);
    RoundStep(v, block, n + 2);
    RoundStep(v, block, n + 3);
    RoundStep(v, block, n + 4);
    RoundStep(v, block, n + 5);
    RoundStep(v, block, n + 6);
    RoundStep(v, block, n + 7);
  }

  const CONSTANTS0: Eight := Eight(0x428a2f98, 0x71374491, 0xb5c0fbcf, 0xe9b5dba5, 0x3956c25b, 0x59f111f1,
      0x923f82a4, 0xab1c5ed5)
  const CONSTANTS8: Eight := Eight(0xd807aa98, 0x12835b01, 0x243185be, 0x550c7dc3, 0x72be5d74, 0x80deb1fe,
      0x9bdc06a7, 0xc19bf174)
  const CONSTANTS16: Eight := Eight(0xe49b69c1, 0xefbe4786, 0x0fc19dc6, 0x240ca1cc, 0x2de92c6f, 0x4a7484aa,
      0x5cb0a9dc, 0x76f988da)
  const CONSTANTS24: Eight := Eight(0x983e5152, 0xa831c66d, 0xb00327c8, 0xbf597fc7, 0xc6e00bf3, 0xd5a79147,
      0x06ca6351, 0x14292967)
  const CONSTANTS32: Eight := Eight(0x27b70a85, 0x2e1b2138, 0x4d2c6dfc, 0x53380d13, 0x650a7354, 0x766a0abb,
      0x81c2c92e, 0x92722c85)
  const CONSTANTS40: Eight := Eight(0xa2bfe8a1, 0xa81a664b, 0xc24b8b70, 0xc76c51a3, 0xd192e819, 0xd6990624,
      0xf40e3585, 0x106aa070)
  const CONSTANTS48: Eight := Eight(0x19a4c116, 0x1e376c08, 0x2748774c, 0x34b0bcb5, 0x391c0cb3, 0x4ed8aa4a,
      0x5b9cca4f, 0x682e6ff3)
  const CONSTANTS56: Eight := Eight(0x748f82ee, 0x78a5636f, 0x84c87814, 0x8cc70208, 0x90befffa, 0xa4506ceb,
      0xbef9a3f7, 0xc67178f2)

  lemma Constants0()
    ensures ConstantsAt(0, CONSTANTS0)
  {
  }

  lemma Constants8()
    ensures ConstantsAt(8, CONSTANTS8)
  {
  }

  lemma Constants16()
    ensures ConstantsAt(16, CONSTANTS16)
  {
  }

  lemma Constants24()
    ensures ConstantsAt(24, CONSTANTS24)
  {
  }

  lemma Constants32()
    ensures ConstantsAt(32, CONSTANTS32)
  {
  }

  lemma Constants40()
    ensures ConstantsAt(40, CONSTANTS40)
  {
  }

  lemma Constants48()
    ensures ConstantsAt(48, CONSTANTS48)
  {
  }

  lemma Constants56()
    ensures ConstantsAt(56, CONSTANTS56)
  {
  }

  const INITIAL_STATE: Vars := Vars(0x6a09e667, 0xbb67ae85, 0x3c6ef372, 0xa54ff53a, 0x510e527f, 0x9b05688c,
      0x1f83d9ab, 0x5be0cd19)

  lemma NoRounds(block: seq<word>)
    requires |block| == 16
    ensures Rounds(Load(INITIAL), block, 0) == INITIAL_STATE
  {
  }

  // The result of the compression of one block from the initial value.
  function Feedforward(v: Vars): seq<word> {
    [Add(INITIAL[0], v.a), Add(INITIAL[1], v.b), Add(INITIAL[2], v.c), Add(INITIAL[3], v.d),
     Add(INITIAL[4], v.e), Add(INITIAL[5], v.f), Add(INITIAL[6], v.g), Add(INITIAL[7], v.h)]
  }

  lemma Compressed(block: seq<word>, v: Vars)
    requires |block| == 16 && Rounds(Load(INITIAL), block, 64) == v
    ensures Compress(INITIAL, block) == Feedforward(v)
  {
    hide Rounds, Add;
  }

  const ABC_0: Eight := Eight(0x61626380, 0x00000000, 0x00000000, 0x00000000, 0x00000000, 0x00000000, 0x00000000,
      0x00000000)
  const ABC_8: Eight := Eight(0x00000000, 0x00000000, 0x00000000, 0x00000000, 0x00000000, 0x00000000, 0x00000000,
      0x00000018)
  const ABC_16: Eight := Eight(0x61626380, 0x000f0000, 0x7da86405, 0x600003c6, 0x3e9d7b78, 0x0183fc00, 0x12dcbfdb,
      0xe2e2c38e)
  const ABC_24: Eight := Eight(0xc8215c1a, 0xb73679a2, 0xe5bc3909, 0x32663c5b, 0x9d209d67, 0xec8726cb, 0x702138a4,
      0xd3b7973b)
  const ABC_32: Eight := Eight(0x93f5997f, 0x3b68ba73, 0xaff4ffc1, 0xf10a5c62, 0x0a8b3996, 0x72af830a, 0x9409e33e,
      0x24641522)
  const ABC_40: Eight := Eight(0x9f47bf94, 0xf0a64f5a, 0x3e246a79, 0x27333ba3, 0x0c4763f2, 0x840abf27, 0x7a290d5d,
      0x065c43da)
  const ABC_48: Eight := Eight(0xfb3e89cb, 0xcc7617db, 0xb9e66c34, 0xa9993667, 0x84badedd, 0xc21462bc, 0x1487472c,
      0xb20f7a99)
  const ABC_56: Eight := Eight(0xef57b9cd, 0xebe6b238, 0x9fe3095e, 0x78bc8d4b, 0xa43fcf15, 0x668b2ff8, 0xeeaba2cc,
      0x12b1edeb)

  lemma AbcEachWord16()
    ensures Scheduled(0x00000000, 0x00000000, 0x00000000, 0x61626380) == 0x61626380
    ensures Scheduled(0x00000018, 0x00000000, 0x00000000, 0x00000000) == 0x000f0000
    ensures Scheduled(0x61626380, 0x00000000, 0x00000000, 0x00000000) == 0x7da86405
    ensures Scheduled(0x000f0000, 0x00000000, 0x00000000, 0x00000000) == 0x600003c6
    ensures Scheduled(0x7da86405, 0x00000000, 0x00000000, 0x00000000) == 0x3e9d7b78
    ensures Scheduled(0x600003c6, 0x00000000, 0x00000000, 0x00000000) == 0x0183fc00
    ensures Scheduled(0x3e9d7b78, 0x00000018, 0x00000000, 0x00000000) == 0x12dcbfdb
    ensures Scheduled(0x0183fc00, 0x61626380, 0x00000000, 0x00000000) == 0xe2e2c38e
  {
  }

  lemma AbcWords16()
    ensures NextEight(ABC_0, ABC_8) == ABC_16
  {
    hide Scheduled;
    AbcEachWord16();
  }

  lemma AbcEachWord24()
    ensures Scheduled(0x12dcbfdb, 0x000f0000, 0x00000000, 0x00000000) == 0xc8215c1a
    ensures Scheduled(0xe2e2c38e, 0x7da86405, 0x00000000, 0x00000000) == 0xb73679a2
    ensures Scheduled(0xc8215c1a, 0x600003c6, 0x00000000, 0x00000000) == 0xe5bc3909
    ensures Scheduled(0xb73679a2, 0x3e9d7b78, 0x00000000, 0x00000000) == 0x32663c5b
    ensures Scheduled(0xe5bc3909, 0x0183fc00, 0x00000000, 0x00000000) == 0x9d209d67
    ensures Scheduled(0x32663c5b, 0x12dcbfdb, 0x00000000, 0x00000000) == 0xec8726cb
    ensures Scheduled(0x9d209d67, 0xe2e2c38e, 0x00000018, 0x00000000) == 0x702138a4
    ensures Scheduled(0xec8726cb, 0xc8215c1a, 0x61626380, 0x00000018) == 0xd3b7973b
  {
  }

  lemma AbcWords24()
    ensures NextEight(ABC_8, ABC_16) == ABC_24
  {
    hide Scheduled;
    AbcEachWord24();
  }

  lemma AbcEachWord32()
    ensures Scheduled(0x702138a4, 0xb73679a2, 0x000f0000, 0x61626380) == 0x93f5997f
    ensures Scheduled(0xd3b7973b, 0xe5bc3909, 0x7da86405, 0x000f0000) == 0x3b68ba73
    ensures Scheduled(0x93f5997f, 0x32663c5b, 0x600003c6, 0x7da86405) == 0xaff4ffc1
    ensures Scheduled(0x3b68ba73, 0x9d209d67, 0x3e9d7b78, 0x600003c6) == 0xf10a5c62
    ensures Scheduled(0xaff4ffc1, 0xec8726cb, 0x0183fc00, 0x3e9d7b78) == 0x0a8b3996
    ensures Scheduled(0xf10a5c62, 0x702138a4, 0x12dcbfdb, 0x0183fc00) == 0x72af830a
    ensures Scheduled(0x0a8b3996, 0xd3b7973b, 0xe2e2c38e, 0x12dcbfdb) == 0x9409e33e
    ensures Scheduled(0x72af830a, 0x93f5997f, 0xc8215c1a, 0xe2e2c38e) == 0x24641522
  {
  }

  lemma AbcWords32()
    ensures NextEight(ABC_16, ABC_24) == ABC_32
  {
    hide Scheduled;
    AbcEachWord32();
  }

  lemma AbcEachWord40()
    ensures Scheduled(0x9409e33e, 0x3b68ba73, 0xb73679a2, 0xc8215c1a) == 0x9f47bf94
    ensures Scheduled(0x24641522, 0xaff4ffc1, 0xe5bc3909, 0xb73679a2) == 0xf0a64f5a
    ensures Scheduled(0x9f47bf94, 0xf10a5c62, 0x32663c5b, 0xe5bc3909) == 0x3e246a79
    ensures Scheduled(0xf0a64f5a, 0x0a8b3996, 0x9d209d67, 0x32663c5b) == 0x27333ba3
    ensures Scheduled(0x3e246a79, 0x72af830a, 0xec8726cb, 0x9d209d67) == 0x0c4763f2
    ensures Scheduled(0x27333ba3, 0x9409e33e, 0x702138a4, 0xec8726cb) == 0x840abf27
    ensures Scheduled(0x0c4763f2, 0x24641522, 0xd3b7973b, 0x702138a4) == 0x7a290d5d
    ensures Scheduled(0x840abf27, 0x9f47bf94, 0x93f5997f, 0xd3b7973b) == 0x065c43da
  {
  }

  lemma AbcWords40()
    ensures NextEight(ABC_24, ABC_32) == ABC_40
  {
    hide Scheduled;
    AbcEachWord40();
  }

  lemma AbcEachWord48()
    ensures Scheduled(0x7a290d5d, 0xf0a64f5a, 0x3b68ba73, 0x93f5997f) == 0xfb3e89cb
    ensures Scheduled(0x065c43da, 0x3e246a79, 0xaff4ffc1, 0x3b68ba73) == 0xcc7617db
    ensures Scheduled(0xfb3e89cb, 0x27333ba3, 0xf10a5c62, 0xaff4ffc1) == 0xb9e66c34
    ensures Scheduled(0xcc7617db, 0x0c4763f2, 0x0a8b3996, 0xf10a5c62) == 0xa9993667
    ensures Scheduled(0xb9e66c34, 0x840abf27, 0x72af830a, 0x0a8b3996) == 0x84badedd
    ensures Scheduled(0xa9993667, 0x7a290d5d, 0x9409e33e, 0x72af830a) == 0xc21462bc
    ensures Scheduled(0x84badedd, 0x065c43da, 0x24641522, 0x9409e33e) == 0x1487472c
    ensures Scheduled(0xc21462bc, 0xfb3e89cb, 0x9f47bf94, 0x24641522) == 0xb20f7a99
  {
  }

  lemma AbcWords48()
    ensures NextEight(ABC_32, ABC_40) == ABC_48
  {
    hide Scheduled;
    AbcEachWord48();
  }

  lemma AbcEachWord56()
    ensures Scheduled(0x1487472c, 0xcc7617db, 0xf0a64f5a, 0x9f47bf94) == 0xef57b9cd
    ensures Scheduled(0xb20f7a99, 0xb9e66c34, 0x3e246a79, 0xf0a64f5a) == 0xebe6b238
    ensures Scheduled(0xef57b9cd, 0xa9993667, 0x27333ba3, 0x3e246a79) == 0x9fe3095e
    ensures Scheduled(0xebe6b238, 0x84badedd, 0x0c4763f2, 0x27333ba3) == 0x78bc8d4b
    ensures Scheduled(0x9fe3095e, 0xc21462bc, 0x840abf27, 0x0c4763f2) == 0xa43fcf15
    ensures Scheduled(0x78bc8d4b, 0x1487472c, 0x7a290d5d, 0x840abf27) == 0x668b2ff8
    ensures Scheduled(0xa43fcf15, 0xb20f7a99, 0x065c43da, 0x7a290d5d) == 0xeeaba2cc
    ensures Scheduled(0x668b2ff8, 0xef57b9cd, 0xfb3e89cb, 0x065c43da) == 0x12b1edeb
  {
  }

  lemma AbcWords56()
    ensures NextEight(ABC_40, ABC_48) == ABC_56
  {
    hide Scheduled;
    AbcEachWord56();
  }

  const ABC_STATE8: Vars := Vars(0x85a07b5f, 0xe5030380, 0x2b4209f5, 0x04409a6a, 0x0c657a79, 0x9b27a401, 0x714260ad,
      0x43ada245)
  const ABC_STATE16: Vars := Vars(0xb0fa238e, 0xc0645fde, 0xd932eb16, 0x87912990, 0x07590dcd, 0x0b92f20c, 0x745a48de,
      0x1e578218)
  const ABC_STATE24: Vars := Vars(0xc5d53d8d, 0xa7a3623f, 0xc2606d6d, 0x9dc68b63, 0xaa47c347, 0x49f5114a, 0xe1257970,
      0x8ada8930)
  const ABC_STATE32: Vars := Vars(0x73b33bf5, 0xea992a22, 0xa0060b30, 0x363482c9, 0xba591112, 0x0109ab3a, 0xade79437,
      0x6112a3b7)
  const ABC_STATE40: Vars := Vars(0x79ea687a, 0x6dc57a8a, 0x34df1604, 0x41a65cb1, 0x1efbc0a0, 0xf0781bc8, 0xa507a53d,
      0x0772a26b)
  const ABC_STATE48: Vars := Vars(0x4172328d, 0xa14c14b0, 0x72ab4b91, 0x26628815, 0xfecf0bc6, 0xd57b94a9, 0xb7755da1,
      0xa80f11f0)
  const ABC_STATE56: Vars := Vars(0x38cc9913, 0x3ec45cdb, 0xf5702fdb, 0x101fd28f, 0x54cb266b, 0xe50e1b4f, 0x9f4787c3,
      0x529e7d00)
  const ABC_STATE64: Vars := Vars(0x506e3058, 0xd39a2165, 0x04d24d6c, 0xb85e2ce9, 0x5ef50f24, 0xfb121210, 0x948d25b6,
      0x961f4894)

  lemma AbcEachRound0()
    ensures Round(Vars(0x6a09e667, 0xbb67ae85, 0x3c6ef372, 0xa54ff53a, 0x510e527f, 0x9b05688c, 0x1f83d9ab,
        0x5be0cd19), 0x428a2f98, 0x61626380) ==
      Vars(0x5d6aebcd, 0x6a09e667, 0xbb67ae85, 0x3c6ef372, 0xfa2a4622, 0x510e527f, 0x9b05688c, 0x1f83d9ab)
    ensures Round(Vars(0x5d6aebcd, 0x6a09e667, 0xbb67ae85, 0x3c6ef372, 0xfa2a4622, 0x510e527f, 0x9b05688c,
        0x1f83d9ab), 0x71374491, 0x00000000) ==
      Vars(0x5a6ad9ad, 0x5d6aebcd, 0x6a09e667, 0xbb67ae85, 0x78ce7989, 0xfa2a4622, 0x510e527f, 0x9b05688c)
    ensures Round(Vars(0x5a6ad9ad, 0x5d6aebcd, 0x6a09e667, 0xbb67ae85, 0x78ce7989, 0xfa2a4622, 0x510e527f,
        0x9b05688c), 0xb5c0fbcf, 0x00000000) ==
      Vars(0xc8c347a7, 0x5a6ad9ad, 0x5d6aebcd, 0x6a09e667, 0xf92939eb, 0x78ce7989, 0xfa2a4622, 0x510e527f)
    ensures Round(Vars(0xc8c347a7, 0x5a6ad9ad, 0x5d6aebcd, 0x6a09e667, 0xf92939eb, 0x78ce7989, 0xfa2a4622,
        0x510e527f), 0xe9b5dba5, 0x00000000) ==
      Vars(0xd550f666, 0xc8c347a7, 0x5a6ad9ad, 0x5d6aebcd, 0x24e00850, 0xf92939eb, 0x78ce7989, 0xfa2a4622)
    ensures Round(Vars(0xd550f666, 0xc8c347a7, 0x5a6ad9ad, 0x5d6aebcd, 0x24e00850, 0xf92939eb, 0x78ce7989,
        0xfa2a4622), 0x3956c25b, 0x00000000) ==
      Vars(0x04409a6a, 0xd550f666, 0xc8c347a7, 0x5a6ad9ad, 0x43ada245, 0x24e00850, 0xf92939eb, 0x78ce7989)
    ensures Round(Vars(0x04409a6a, 0xd550f666, 0xc8c347a7, 0x5a6ad9ad, 0x43ada245, 0x24e00850, 0xf92939eb,
        0x78ce7989), 0x59f111f1, 0x00000000) ==
      Vars(0x2b4209f5, 0x04409a6a, 0xd550f666, 0xc8c347a7, 0x714260ad, 0x43ada245, 0x24e00850, 0xf92939eb)
    ensures Round(Vars(0x2b4209f5, 0x04409a6a, 0xd550f666, 0xc8c347a7, 0x714260ad, 0x43ada245, 0x24e00850,
        0xf92939eb), 0x923f82a4, 0x00000000) ==
      Vars(0xe5030380, 0x2b4209f5, 0x04409a6a, 0xd550f666, 0x9b27a401, 0x714260ad, 0x43ada245, 0x24e00850)
    ensures Round(Vars(0xe5030380, 0x2b4209f5, 0x04409a6a, 0xd550f666, 0x9b27a401, 0x714260ad, 0x43ada245,
        0x24e00850), 0xab1c5ed5, 0x00000000) ==
      Vars(0x85a07b5f, 0xe5030380, 0x2b4209f5, 0x04409a6a, 0x0c657a79, 0x9b27a401, 0x714260ad, 0x43ada245)
  {
  }

  lemma AbcRounds0()
    ensures EightRounds(INITIAL_STATE, CONSTANTS0, ABC_0) == ABC_STATE8
  {
    hide Round;
    AbcEachRound0();
  }

  lemma AbcEachRound8()
    ensures Round(Vars(0x85a07b5f, 0xe5030380, 0x2b4209f5, 0x04409a6a, 0x0c657a79, 0x9b27a401, 0x714260ad,
        0x43ada245), 0xd807aa98, 0x00000000) ==
      Vars(0x8e04ecb9, 0x85a07b5f, 0xe5030380, 0x2b4209f5, 0x32ca2d8c, 0x0c657a79, 0x9b27a401, 0x714260ad)
    ensures Round(Vars(0x8e04ecb9, 0x85a07b5f, 0xe5030380, 0x2b4209f5, 0x32ca2d8c, 0x0c657a79, 0x9b27a401,
        0x714260ad), 0x12835b01, 0x00000000) ==
      Vars(0x8c87346b, 0x8e04ecb9, 0x85a07b5f, 0xe5030380, 0x1cc92596, 0x32ca2d8c, 0x0c657a79, 0x9b27a401)
    ensures Round(Vars(0x8c87346b, 0x8e04ecb9, 0x85a07b5f, 0xe5030380, 0x1cc92596, 0x32ca2d8c, 0x0c657a79,
        0x9b27a401), 0x243185be, 0x00000000) ==
      Vars(0x4798a3f4, 0x8c87346b, 0x8e04ecb9, 0x85a07b5f, 0x436b23e8, 0x1cc92596, 0x32ca2d8c, 0x0c657a79)
    ensures Round(Vars(0x4798a3f4, 0x8c87346b, 0x8e04ecb9, 0x85a07b5f, 0x436b23e8, 0x1cc92596, 0x32ca2d8c,
        0x0c657a79), 0x550c7dc3, 0x00000000) ==
      Vars(0xf71fc5a9, 0x4798a3f4, 0x8c87346b, 0x8e04ecb9, 0x816fd6e9, 0x436b23e8, 0x1cc92596, 0x32ca2d8c)
    ensures Round(Vars(0xf71fc5a9, 0x4798a3f4, 0x8c87346b, 0x8e04ecb9, 0x816fd6e9, 0x436b23e8, 0x1cc92596,
        0x32ca2d8c), 0x72be5d74, 0x00000000) ==
      Vars(0x87912990, 0xf71fc5a9, 0x4798a3f4, 0x8c87346b, 0x1e578218, 0x816fd6e9, 0x436b23e8, 0x1cc92596)
    ensures Round(Vars(0x87912990, 0xf71fc5a9, 0x4798a3f4, 0x8c87346b, 0x1e578218, 0x816fd6e9, 0x436b23e8,
        0x1cc92596), 0x80deb1fe, 0x00000000) ==
      Vars(0xd932eb16, 0x87912990, 0xf71fc5a9, 0x4798a3f4, 0x745a48de, 0x1e578218, 0x816fd6e9, 0x436b23e8)
    ensures Round(Vars(0xd932eb16, 0x87912990, 0xf71fc5a9, 0x4798a3f4, 0x745a48de, 0x1e578218, 0x816fd6e9,
        0x436b23e8), 0x9bdc06a7, 0x00000000) ==
      Vars(0xc0645fde, 0xd932eb16, 0x87912990, 0xf71fc5a9, 0x0b92f20c, 0x745a48de, 0x1e578218, 0x816fd6e9)
    ensures Round(Vars(0xc0645fde, 0xd932eb16, 0x87912990, 0xf71fc5a9, 0x0b92f20c, 0x745a48de, 0x1e578218,
        0x816fd6e9), 0xc19bf174, 0x00000018) ==
      Vars(0xb0fa238e, 0xc0645fde, 0xd932eb16, 0x87912990, 0x07590dcd, 0x0b92f20c, 0x745a48de, 0x1e578218)
  {
  }

  lemma AbcRounds8()
    ensures EightRounds(ABC_STATE8, CONSTANTS8, ABC_8) == ABC_STATE16
  {
    hide Round;
    AbcEachRound8();
  }

  lemma AbcEachRound16()
    ensures Round(Vars(0xb0fa238e, 0xc0645fde, 0xd932eb16, 0x87912990, 0x07590dcd, 0x0b92f20c, 0x745a48de,
        0x1e578218), 0xe49b69c1, 0x61626380) ==
      Vars(0x21da9a9b, 0xb0fa238e, 0xc0645fde, 0xd932eb16, 0x8034229c, 0x07590dcd, 0x0b92f20c, 0x745a48de)
    ensures Round(Vars(0x21da9a9b, 0xb0fa238e, 0xc0645fde, 0xd932eb16, 0x8034229c, 0x07590dcd, 0x0b92f20c,
        0x745a48de), 0xefbe4786, 0x000f0000) ==
      Vars(0xc2fbd9d1, 0x21da9a9b, 0xb0fa238e, 0xc0645fde, 0x846ee454, 0x8034229c, 0x07590dcd, 0x0b92f20c)
    ensures Round(Vars(0xc2fbd9d1, 0x21da9a9b, 0xb0fa238e, 0xc0645fde, 0x846ee454, 0x8034229c, 0x07590dcd,
        0x0b92f20c), 0x0fc19dc6, 0x7da86405) ==
      Vars(0xfe777bbf, 0xc2fbd9d1, 0x21da9a9b, 0xb0fa238e, 0xcc899961, 0x846ee454, 0x8034229c, 0x07590dcd)
    ensures Round(Vars(0xfe777bbf, 0xc2fbd9d1, 0x21da9a9b, 0xb0fa238e, 0xcc899961, 0x846ee454, 0x8034229c,
        0x07590dcd), 0x240ca1cc, 0x600003c6) ==
      Vars(0xe1f20c33, 0xfe777bbf, 0xc2fbd9d1, 0x21da9a9b, 0xb0638179, 0xcc899961, 0x846ee454, 0x8034229c)
    ensures Round(Vars(0xe1f20c33, 0xfe777bbf, 0xc2fbd9d1, 0x21da9a9b, 0xb0638179, 0xcc899961, 0x846ee454,
        0x8034229c), 0x2de92c6f, 0x3e9d7b78) ==
      Vars(0x9dc68b63, 0xe1f20c33, 0xfe777bbf, 0xc2fbd9d1, 0x8ada8930, 0xb0638179, 0xcc899961, 0x846ee454)
    ensures Round(Vars(0x9dc68b63, 0xe1f20c33, 0xfe777bbf, 0xc2fbd9d1, 0x8ada8930, 0xb0638179, 0xcc899961,
        0x846ee454), 0x4a7484aa, 0x0183fc00) ==
      Vars(0xc2606d6d, 0x9dc68b63, 0xe1f20c33, 0xfe777bbf, 0xe1257970, 0x8ada8930, 0xb0638179, 0xcc899961)
    ensures Round(Vars(0xc2606d6d, 0x9dc68b63, 0xe1f20c33, 0xfe777bbf, 0xe1257970, 0x8ada8930, 0xb0638179,
        0xcc899961), 0x5cb0a9dc, 0x12dcbfdb) ==
      Vars(0xa7a3623f, 0xc2606d6d, 0x9dc68b63, 0xe1f20c33, 0x49f5114a, 0xe1257970, 0x8ada8930, 0xb0638179)
    ensures Round(Vars(0xa7a3623f, 0xc2606d6d, 0x9dc68b63, 0xe1f20c33, 0x49f5114a, 0xe1257970, 0x8ada8930,
        0xb0638179), 0x76f988da, 0xe2e2c38e) ==
      Vars(0xc5d53d8d, 0xa7a3623f, 0xc2606d6d, 0x9dc68b63, 0xaa47c347, 0x49f5114a, 0xe1257970, 0x8ada8930)
  {
  }

  lemma AbcRounds16()
    ensures EightRounds(ABC_STATE16, CONSTANTS16, ABC_16) == ABC_STATE24
  {
    hide Round;
    AbcEachRound16();
  }

  lemma AbcEachRound24()
    ensures Round(Vars(0xc5d53d8d, 0xa7a3623f, 0xc2606d6d, 0x9dc68b63, 0xaa47c347, 0x49f5114a, 0xe1257970,
        0x8ada8930), 0x983e5152, 0xc8215c1a) ==
      Vars(0x1c2c2838, 0xc5d53d8d, 0xa7a3623f, 0xc2606d6d, 0x2823ef91, 0xaa47c347, 0x49f5114a, 0xe1257970)
    ensures Round(Vars(0x1c2c2838, 0xc5d53d8d, 0xa7a3623f, 0xc2606d6d, 0x2823ef91, 0xaa47c347, 0x49f5114a,
        0xe1257970), 0xa831c66d, 0xb73679a2) ==
      Vars(0xcde8037d, 0x1c2c2838, 0xc5d53d8d, 0xa7a3623f, 0x14383d8e, 0x2823ef91, 0xaa47c347, 0x49f5114a)
    ensures Round(Vars(0xcde8037d, 0x1c2c2838, 0xc5d53d8d, 0xa7a3623f, 0x14383d8e, 0x2823ef91, 0xaa47c347,
        0x49f5114a), 0xb00327c8, 0xe5bc3909) ==
      Vars(0xb62ec4bc, 0xcde8037d, 0x1c2c2838, 0xc5d53d8d, 0xc74c6516, 0x14383d8e, 0x2823ef91, 0xaa47c347)
    ensures Round(Vars(0xb62ec4bc, 0xcde8037d, 0x1c2c2838, 0xc5d53d8d, 0xc74c6516, 0x14383d8e, 0x2823ef91,
        0xaa47c347), 0xbf597fc7, 0x32663c5b) ==
      Vars(0x77d37528, 0xb62ec4bc, 0xcde8037d, 0x1c2c2838, 0xedffbff8, 0xc74c6516, 0x14383d8e, 0x2823ef91)
    ensures Round(Vars(0x77d37528, 0xb62ec4bc, 0xcde8037d, 0x1c2c2838, 0xedffbff8, 0xc74c6516, 0x14383d8e,
        0x2823ef91), 0xc6e00bf3, 0x9d209d67) ==
      Vars(0x363482c9, 0x77d37528, 0xb62ec4bc, 0xcde8037d, 0x6112a3b7, 0xedffbff8, 0xc74c6516, 0x14383d8e)
    ensures Round(Vars(0x363482c9, 0x77d37528, 0xb62ec4bc, 0xcde8037d, 0x6112a3b7, 0xedffbff8, 0xc74c6516,
        0x14383d8e), 0xd5a79147, 0xec8726cb) ==
      Vars(0xa0060b30, 0x363482c9, 0x77d37528, 0xb62ec4bc, 0xade79437, 0x6112a3b7, 0xedffbff8, 0xc74c6516)
    ensures Round(Vars(0xa0060b30, 0x363482c9, 0x77d37528, 0xb62ec4bc, 0xade79437, 0x6112a3b7, 0xedffbff8,
        0xc74c6516), 0x06ca6351, 0x702138a4) ==
      Vars(0xea992a22, 0xa0060b30, 0x363482c9, 0x77d37528, 0x0109ab3a, 0xade79437, 0x6112a3b7, 0xedffbff8)
    ensures Round(Vars(0xea992a22, 0xa0060b30, 0x363482c9, 0x77d37528, 0x0109ab3a, 0xade79437, 0x6112a3b7,
        0xedffbff8), 0x14292967, 0xd3b7973b) ==
      Vars(0x73b33bf5, 0xea992a22, 0xa0060b30, 0x363482c9, 0xba591112, 0x0109ab3a, 0xade79437, 0x6112a3b7)
  {
  }

  lemma AbcRounds24()
    ensures EightRounds(ABC_STATE24, CONSTANTS24, ABC_24) == ABC_STATE32
  {
    hide Round;
    AbcEachRound24();
  }

  lemma AbcEachRound32()
    ensures Round(Vars(0x73b33bf5, 0xea992a22, 0xa0060b30, 0x363482c9, 0xba591112, 0x0109ab3a, 0xade79437,
        0x6112a3b7), 0x27b70a85, 0x93f5997f) ==
      Vars(0x98e12507, 0x73b33bf5, 0xea992a22, 0xa0060b30, 0x9cd9f5f6, 0xba591112, 0x0109ab3a, 0xade79437)
    ensures Round(Vars(0x98e12507, 0x73b33bf5, 0xea992a22, 0xa0060b30, 0x9cd9f5f6, 0xba591112, 0x0109ab3a,
        0xade79437), 0x2e1b2138, 0x3b68ba73) ==
      Vars(0xfe604df5, 0x98e12507, 0x73b33bf5, 0xea992a22, 0x59249dd3, 0x9cd9f5f6, 0xba591112, 0x0109ab3a)
    ensures Round(Vars(0xfe604df5, 0x98e12507, 0x73b33bf5, 0xea992a22, 0x59249dd3, 0x9cd9f5f6, 0xba591112,
        0x0109ab3a), 0x4d2c6dfc, 0xaff4ffc1) ==
      Vars(0xa9a7738c, 0xfe604df5, 0x98e12507, 0x73b33bf5, 0x085f3833, 0x59249dd3, 0x9cd9f5f6, 0xba591112)
    ensures Round(Vars(0xa9a7738c, 0xfe604df5, 0x98e12507, 0x73b33bf5, 0x085f3833, 0x59249dd3, 0x9cd9f5f6,
        0xba591112), 0x53380d13, 0xf10a5c62) ==
      Vars(0x65a0cfe4, 0xa9a7738c, 0xfe604df5, 0x98e12507, 0xf4b002d6, 0x085f3833, 0x59249dd3, 0x9cd9f5f6)
    ensures Round(Vars(0x65a0cfe4, 0xa9a7738c, 0xfe604df5, 0x98e12507, 0xf4b002d6, 0x085f3833, 0x59249dd3,
        0x9cd9f5f6), 0x650a7354, 0x0a8b3996) ==
      Vars(0x41a65cb1, 0x65a0cfe4, 0xa9a7738c, 0xfe604df5, 0x0772a26b, 0xf4b002d6, 0x085f3833, 0x59249dd3)
    ensures Round(Vars(0x41a65cb1, 0x65a0cfe4, 0xa9a7738c, 0xfe604df5, 0x0772a26b, 0xf4b002d6, 0x085f3833,
        0x59249dd3), 0x766a0abb, 0x72af830a) ==
      Vars(0x34df1604, 0x41a65cb1, 0x65a0cfe4, 0xa9a7738c, 0xa507a53d, 0x0772a26b, 0xf4b002d6, 0x085f3833)
    ensures Round(Vars(0x34df1604, 0x41a65cb1, 0x65a0cfe4, 0xa9a7738c, 0xa507a53d, 0x0772a26b, 0xf4b002d6,
        0x085f3833), 0x81c2c92e, 0x9409e33e) ==
      Vars(0x6dc57a8a, 0x34df1604, 0x41a65cb1, 0x65a0cfe4, 0xf0781bc8, 0xa507a53d, 0x0772a26b, 0xf4b002d6)
    ensures Round(Vars(0x6dc57a8a, 0x34df1604, 0x41a65cb1, 0x65a0cfe4, 0xf0781bc8, 0xa507a53d, 0x0772a26b,
        0xf4b002d6), 0x92722c85, 0x24641522) ==
      Vars(0x79ea687a, 0x6dc57a8a, 0x34df1604, 0x41a65cb1, 0x1efbc0a0, 0xf0781bc8, 0xa507a53d, 0x0772a26b)
  {
  }

  lemma AbcRounds32()
    ensures EightRounds(ABC_STATE32, CONSTANTS32, ABC_32) == ABC_STATE40
  {
    hide Round;
    AbcEachRound32();
  }

  lemma AbcEachRound40()
    ensures Round(Vars(0x79ea687a, 0x6dc57a8a, 0x34df1604, 0x41a65cb1, 0x1efbc0a0, 0xf0781bc8, 0xa507a53d,
        0x0772a26b), 0xa2bfe8a1, 0x9f47bf94) ==
      Vars(0xd6670766, 0x79ea687a, 0x6dc57a8a, 0x34df1604, 0x26352d63, 0x1efbc0a0, 0xf0781bc8, 0xa507a53d)
    ensures Round(Vars(0xd6670766, 0x79ea687a, 0x6dc57a8a, 0x34df1604, 0x26352d63, 0x1efbc0a0, 0xf0781bc8,
        0xa507a53d), 0xa81a664b, 0xf0a64f5a) ==
      Vars(0xdf46652f, 0xd6670766, 0x79ea687a, 0x6dc57a8a, 0x838b2711, 0x26352d63, 0x1efbc0a0, 0xf0781bc8)
    ensures Round(Vars(0xdf46652f, 0xd6670766, 0x79ea687a, 0x6dc57a8a, 0x838b2711, 0x26352d63, 0x1efbc0a0,
        0xf0781bc8), 0xc24b8b70, 0x3e246a79) ==
      Vars(0x17aa0dfe, 0xdf46652f, 0xd6670766, 0x79ea687a, 0xdecd4715, 0x838b2711, 0x26352d63, 0x1efbc0a0)
    ensures Round(Vars(0x17aa0dfe, 0xdf46652f, 0xd6670766, 0x79ea687a, 0xdecd4715, 0x838b2711, 0x26352d63,
        0x1efbc0a0), 0xc76c51a3, 0x27333ba3) ==
      Vars(0x9d4baf93, 0x17aa0dfe, 0xdf46652f, 0xd6670766, 0xfda24c2e, 0xdecd4715, 0x838b2711, 0x26352d63)
    ensures Round(Vars(0x9d4baf93, 0x17aa0dfe, 0xdf46652f, 0xd6670766, 0xfda24c2e, 0xdecd4715, 0x838b2711,
        0x26352d63), 0xd192e819, 0x0c4763f2) ==
      Vars(0x26628815, 0x9d4baf93, 0x17aa0dfe, 0xdf46652f, 0xa80f11f0, 0xfda24c2e, 0xdecd4715, 0x838b2711)
    ensures Round(Vars(0x26628815, 0x9d4baf93, 0x17aa0dfe, 0xdf46652f, 0xa80f11f0, 0xfda24c2e, 0xdecd4715,
        0x838b2711), 0xd6990624, 0x840abf27) ==
      Vars(0x72ab4b91, 0x26628815, 0x9d4baf93, 0x17aa0dfe, 0xb7755da1, 0xa80f11f0, 0xfda24c2e, 0xdecd4715)
    ensures Round(Vars(0x72ab4b91, 0x26628815, 0x9d4baf93, 0x17aa0dfe, 0xb7755da1, 0xa80f11f0, 0xfda24c2e,
        0xdecd4715), 0xf40e3585, 0x7a290d5d) ==
      Vars(0xa14c14b0, 0x72ab4b91, 0x26628815, 0x9d4baf93, 0xd57b94a9, 0xb7755da1, 0xa80f11f0, 0xfda24c2e)
    ensures Round(Vars(0xa14c14b0, 0x72ab4b91, 0x26628815, 0x9d4baf93, 0xd57b94a9, 0xb7755da1, 0xa80f11f0,
        0xfda24c2e), 0x106aa070, 0x065c43da) ==
      Vars(0x4172328d, 0xa14c14b0, 0x72ab4b91, 0x26628815, 0xfecf0bc6, 0xd57b94a9, 0xb7755da1, 0xa80f11f0)
  {
  }

  lemma AbcRounds40()
    ensures EightRounds(ABC_STATE40, CONSTANTS40, ABC_40) == ABC_STATE48
  {
    hide Round;
    AbcEachRound40();
  }

  lemma AbcEachRound48()
    ensures Round(Vars(0x4172328d, 0xa14c14b0, 0x72ab4b91, 0x26628815, 0xfecf0bc6, 0xd57b94a9, 0xb7755da1,
        0xa80f11f0), 0x19a4c116, 0xfb3e89cb) ==
      Vars(0x05757ceb, 0x4172328d, 0xa14c14b0, 0x72ab4b91, 0xbd714038, 0xfecf0bc6, 0xd57b94a9, 0xb7755da1)
    ensures Round(Vars(0x05757ceb, 0x4172328d, 0xa14c14b0, 0x72ab4b91, 0xbd714038, 0xfecf0bc6, 0xd57b94a9,
        0xb7755da1), 0x1e376c08, 0xcc7617db) ==
      Vars(0xf11bfaa8, 0x05757ceb, 0x4172328d, 0xa14c14b0, 0x6e5c390c, 0xbd714038, 0xfecf0bc6, 0xd57b94a9)
    ensures Round(Vars(0xf11bfaa8, 0x05757ceb, 0x4172328d, 0xa14c14b0, 0x6e5c390c, 0xbd714038, 0xfecf0bc6,
        0xd57b94a9), 0x2748774c, 0xb9e66c34) ==
      Vars(0x7a0508a1, 0xf11bfaa8, 0x05757ceb, 0x4172328d, 0x52f1ccf7, 0x6e5c390c, 0xbd714038, 0xfecf0bc6)
    ensures Round(Vars(0x7a0508a1, 0xf11bfaa8, 0x05757ceb, 0x4172328d, 0x52f1ccf7, 0x6e5c390c, 0xbd714038,
        0xfecf0bc6), 0x34b0bcb5, 0xa9993667) ==
      Vars(0x886e7a22, 0x7a0508a1, 0xf11bfaa8, 0x05757ceb, 0x49231c1e, 0x52f1ccf7, 0x6e5c390c, 0xbd714038)
    ensures Round(Vars(0x886e7a22, 0x7a0508a1, 0xf11bfaa8, 0x05757ceb, 0x49231c1e, 0x52f1ccf7, 0x6e5c390c,
        0xbd714038), 0x391c0cb3, 0x84badedd) ==
      Vars(0x101fd28f, 0x886e7a22, 0x7a0508a1, 0xf11bfaa8, 0x529e7d00, 0x49231c1e, 0x52f1ccf7, 0x6e5c390c)
    ensures Round(Vars(0x101fd28f, 0x886e7a22, 0x7a0508a1, 0xf11bfaa8, 0x529e7d00, 0x49231c1e, 0x52f1ccf7,
        0x6e5c390c), 0x4ed8aa4a, 0xc21462bc) ==
      Vars(0xf5702fdb, 0x101fd28f, 0x886e7a22, 0x7a0508a1, 0x9f4787c3, 0x529e7d00, 0x49231c1e, 0x52f1ccf7)
    ensures Round(Vars(0xf5702fdb, 0x101fd28f, 0x886e7a22, 0x7a0508a1, 0x9f4787c3, 0x529e7d00, 0x49231c1e,
        0x52f1ccf7), 0x5b9cca4f, 0x1487472c) ==
      Vars(0x3ec45cdb, 0xf5702fdb, 0x101fd28f, 0x886e7a22, 0xe50e1b4f, 0x9f4787c3, 0x529e7d00, 0x49231c1e)
    ensures Round(Vars(0x3ec45cdb, 0xf5702fdb, 0x101fd28f, 0x886e7a22, 0xe50e1b4f, 0x9f4787c3, 0x529e7d00,
        0x49231c1e), 0x682e6ff3, 0xb20f7a99) ==
      Vars(0x38cc9913, 0x3ec45cdb, 0xf5702fdb, 0x101fd28f, 0x54cb266b, 0xe50e1b4f, 0x9f4787c3, 0x529e7d00)
  {
  }

  lemma AbcRounds48()
    ensures EightRounds(ABC_STATE48, CONSTANTS48, ABC_48) == ABC_STATE56
  {
    hide Round;
    AbcEachRound48();
  }

  lemma AbcEachRound56()
    ensures Round(Vars(0x38cc9913, 0x3ec45cdb, 0xf5702fdb, 0x101fd28f, 0x54cb266b, 0xe50e1b4f, 0x9f4787c3,
        0x529e7d00), 0x748f82ee, 0xef57b9cd) ==
      Vars(0xfcd1887b, 0x38cc9913, 0x3ec45cdb, 0xf5702fdb, 0x9b5e906c, 0x54cb266b, 0xe50e1b4f, 0x9f4787c3)
    ensures Round(Vars(0xfcd1887b, 0x38cc9913, 0x3ec45cdb, 0xf5702fdb, 0x9b5e906c, 0x54cb266b, 0xe50e1b4f,
        0x9f4787c3), 0x78a5636f, 0xebe6b238) ==
      Vars(0xc062d46f, 0xfcd1887b, 0x38cc9913, 0x3ec45cdb, 0x7e44008e, 0x9b5e906c, 0x54cb266b, 0xe50e1b4f)
    ensures Round(Vars(0xc062d46f, 0xfcd1887b, 0x38cc9913, 0x3ec45cdb, 0x7e44008e, 0x9b5e906c, 0x54cb266b,
        0xe50e1b4f), 0x84c87814, 0x9fe3095e) ==
      Vars(0xffb70472, 0xc062d46f, 0xfcd1887b, 0x38cc9913, 0x6d83bfc6, 0x7e44008e, 0x9b5e906c, 0x54cb266b)
    ensures Round(Vars(0xffb70472, 0xc062d46f, 0xfcd1887b, 0x38cc9913, 0x6d83bfc6, 0x7e44008e, 0x9b5e906c,
        0x54cb266b), 0x8cc70208, 0x78bc8d4b) ==
      Vars(0xb6ae8fff, 0xffb70472, 0xc062d46f, 0xfcd1887b, 0xb21bad3d, 0x6d83bfc6, 0x7e44008e, 0x9b5e906c)
    ensures Round(Vars(0xb6ae8fff, 0xffb70472, 0xc062d46f, 0xfcd1887b, 0xb21bad3d, 0x6d83bfc6, 0x7e44008e,
        0x9b5e906c), 0x90befffa, 0xa43fcf15) ==
      Vars(0xb85e2ce9, 0xb6ae8fff, 0xffb70472, 0xc062d46f, 0x961f4894, 0xb21bad3d, 0x6d83bfc6, 0x7e44008e)
    ensures Round(Vars(0xb85e2ce9, 0xb6ae8fff, 0xffb70472, 0xc062d46f, 0x961f4894, 0xb21bad3d, 0x6d83bfc6,
        0x7e44008e), 0xa4506ceb, 0x668b2ff8) ==
      Vars(0x04d24d6c, 0xb85e2ce9, 0xb6ae8fff, 0xffb70472, 0x948d25b6, 0x961f4894, 0xb21bad3d, 0x6d83bfc6)
    ensures Round(Vars(0x04d24d6c, 0xb85e2ce9, 0xb6ae8fff, 0xffb70472, 0x948d25b6, 0x961f4894, 0xb21bad3d,
        0x6d83bfc6), 0xbef9a3f7, 0xeeaba2cc) ==
      Vars(0xd39a2165, 0x04d24d6c, 0xb85e2ce9, 0xb6ae8fff, 0xfb121210, 0x948d25b6, 0x961f4894, 0xb21bad3d)
    ensures Round(Vars(0xd39a2165, 0x04d24d6c, 0xb85e2ce9, 0xb6ae8fff, 0xfb121210, 0x948d25b6, 0x961f4894,
        0xb21bad3d), 0xc67178f2, 0x12b1edeb) ==
      Vars(0x506e3058, 0xd39a2165, 0x04d24d6c, 0xb85e2ce9, 0x5ef50f24, 0xfb121210, 0x948d25b6, 0x961f4894)
  {
  }

  lemma AbcRounds56()
    ensures EightRounds(ABC_STATE56, CONSTANTS56, ABC_56) == ABC_STATE64
  {
    hide Round;
    AbcEachRound56();
  }

  lemma AbcCompress(block: seq<word>)
    requires block == BlockOf(ABC_0, ABC_8)
    ensures Compress(INITIAL, block)
        == [0xba7816bf, 0x8f01cfea, 0x414140de, 0x5dae2223, 0xb00361a3, 0x96177a9c, 0xb410ff61, 0xf20015ad]
  {
    hide *;
    FirstWords(ABC_0, ABC_8);
    EightInitialWords();
    Constants0();
    NextRounds(Load(INITIAL), block, 0, CONSTANTS0, ABC_0);
    AbcRounds0();
    Constants8();
    NextRounds(Load(INITIAL), block, 8, CONSTANTS8, ABC_8);
    AbcRounds8();
    AbcWords16();
    NextWords(block, 16, ABC_0, ABC_8);
    Constants16();
    NextRounds(Load(INITIAL), block, 16, CONSTANTS16, ABC_16);
    AbcRounds16();
    AbcWords24();
    NextWords(block, 24, ABC_8, ABC_16);
    Constants24();
    NextRounds(Load(INITIAL), block, 24, CONSTANTS24, ABC_24);
    AbcRounds24();
    AbcWords32();
    NextWords(block, 32, ABC_16, ABC_24);
    Constants32();
    NextRounds(Load(INITIAL), block, 32, CONSTANTS32, ABC_32);
    AbcRounds32();
    AbcWords40();
    NextWords(block, 40, ABC_24, ABC_32);
    Constants40();
    NextRounds(Load(INITIAL), block, 40, CONSTANTS40, ABC_40);
    AbcRounds40();
    AbcWords48();
    NextWords(block, 48, ABC_32, ABC_40);
    Constants48();
    NextRounds(Load(INITIAL), block, 48, CONSTANTS48, ABC_48);
    AbcRounds48();
    AbcWords56();
    NextWords(block, 56, ABC_40, ABC_48);
    Constants56();
    NextRounds(Load(INITIAL), block, 56, CONSTANTS56, ABC_56);
    AbcRounds56();
    NoRounds(block);
    Compressed(block, ABC_STATE64);
    AbcSum();
  }

  lemma AbcSum()
    ensures Feedforward(ABC_STATE64)
        == [0xba7816bf, 0x8f01cfea, 0x414140de, 0x5dae2223, 0xb00361a3, 0x96177a9c, 0xb410ff61, 0xf20015ad]
  {
  }

  // ----- messages of one block -----

  /** A padded message of at most 55 bytes, byte by byte. */
  predicate OneBlock(m: seq<byte>, p: seq<byte>) {
    && |m| <= 55 && |p| == 64 && p[..|m|] == m && p[|m|] == 0x80
    && (forall i :: |m| < i < 56 ==> p[i] == 0)
    && p[56..] == BigEndian64(8 * |m|)
  }

  lemma ShortMessage(m: seq<byte>)
    requires |m| <= 55
    ensures OneBlock(m, Padded(m, 8 * |m|))
  {
    hide BigEndian64;
    var p, z := Padded(m, 8 * |m|), 55 - |m|;
    assert p == m + [0x80] + Zeros(z) + BigEndian64(8 * |m|);
  }

  lemma HashOfOneBlock(m: seq<byte>, p: seq<byte>, h: seq<word>)
    requires |m| <= 55 && p == Padded(m, 8 * |m|) && |p| == 64 && Compress(INITIAL, Words(p)) == h && |h| == 8
    ensures Sha48(m) == First48(h)
  {
    hide Compress, Padded, First48, Words;
    assert p[..0] == [] && p[0..] == p;
    assert HashBlocks([]) == INITIAL;
  }

  lemma AbcBlock(p: seq<byte>)
    requires OneBlock([0x61, 0x62, 0x63], p)
    ensures Words(p) == BlockOf(ABC_0, ABC_8)
  {
    hide BigEndianWord;
    AbcLength();
    AbcBytes(p);
    AbcWords();
    var w := Words(p);
    assert w[0] == BigEndianWord(0x61, 0x62, 0x63, 0x80);
    assert w[1] == BigEndianWord(0x00, 0x00, 0x00, 0x00);
    assert w[2] == BigEndianWord(0x00, 0x00, 0x00, 0x00);
    assert w[3] == BigEndianWord(0x00, 0x00, 0x00, 0x00);
    assert w[4] == BigEndianWord(0x00, 0x00, 0x00, 0x00);
    assert w[5] == BigEndianWord(0x00, 0x00, 0x00, 0x00);
    assert w[6] == BigEndianWord(0x00, 0x00, 0x00, 0x00);
    assert w[7] == BigEndianWord(0x00, 0x00, 0x00, 0x00);
    assert w[8] == BigEndianWord(0x00, 0x00, 0x00, 0x00);
    assert w[9] == BigEndianWord(0x00, 0x00, 0x00, 0x00);
    assert w[10] == BigEndianWord(0x00, 0x00, 0x00, 0x00);
    assert w[11] == BigEndianWord(0x00, 0x00, 0x00, 0x00);
    assert w[12] == BigEndianWord(0x00, 0x00, 0x00, 0x00);
    assert w[13] == BigEndianWord(0x00, 0x00, 0x00, 0x00);
    assert w[14] == BigEndianWord(0x00, 0x00, 0x00, 0x00);
    assert w[15] == BigEndianWord(0x00, 0x00, 0x00, 0x18);
  }

  lemma AbcWords()
    ensures BigEndianWord(0x61, 0x62, 0x63, 0x80) == 0x61626380
    ensures BigEndianWord(0x00, 0x00, 0x00, 0x00) == 0x00000000
    ensures BigEndianWord(0x00, 0x00, 0x00, 0x00) == 0x00000000
    ensures BigEndianWord(0x00, 0x00, 0x00, 0x00) == 0x00000000
    ensures BigEndianWord(0x00, 0x00, 0x00, 0x00) == 0x00000000
    ensures BigEndianWord(0x00, 0x00, 0x00, 0x00) == 0x00000000
    ensures BigEndianWord(0x00, 0x00, 0x00, 0x00) == 0x00000000
    ensures BigEndianWord(0x00, 0x00, 0x00, 0x00) == 0x00000000
    ensures BigEndianWord(0x00, 0x00, 0x00, 0x00) == 0x00000000
    ensures BigEndianWord(0x00, 0x00, 0x00, 0x00) == 0x00000000
    ensures BigEndianWord(0x00, 0x00, 0x00, 0x00) == 0x00000000
    ensures BigEndianWord(0x00, 0x00, 0x00, 0x00) == 0x00000000
    ensures BigEndianWord(0x00, 0x00, 0x00, 0x00) == 0x00000000
    ensures BigEndianWord(0x00, 0x00, 0x00, 0x00) == 0x00000000
    ensures BigEndianWord(0x00, 0x00, 0x00, 0x00) == 0x00000000
    ensures BigEndianWord(0x00, 0x00, 0x00, 0x18) == 0x00000018
  {
  }

  lemma AbcLength()
    ensures BigEndian64(24) == [0x00, 0x00, 0x00, 0x00, 0x00, 0x00, 0x00, 0x18]
  {
    hide BigEndian64;
    BigEndian64Digits(24);
  }

  lemma AbcBytes(p: seq<byte>)
    requires OneBlock([0x61, 0x62, 0x63], p)
    ensures p[0] == 0x61 && p[1] == 0x62 && p[2] == 0x63 && p[3] == 0x80
    ensures p[4] == 0x00 && p[5] == 0x00 && p[6] == 0x00 && p[7] == 0x00
    ensures p[8] == 0x00 && p[9] == 0x00 && p[10] == 0x00 && p[11] == 0x00
    ensures p[12] == 0x00 && p[13] == 0x00 && p[14] == 0x00 && p[15] == 0x00
    ensures p[16] == 0x00 && p[17] == 0x00 && p[18] == 0x00 && p[19] == 0x00
    ensures p[20] == 0x00 && p[21] == 0x00 && p[22] == 0x00 && p[23] == 0x00
    ensures p[24] == 0x00 && p[25] == 0x00 && p[26] == 0x00 && p[27] == 0x00
    ensures p[28] == 0x00 && p[29] == 0x00 && p[30] == 0x00 && p[31] == 0x00
    ensures p[32] == 0x00 && p[33] == 0x00 && p[34] == 0x00 && p[35] == 0x00
    ensures p[36] == 0x00 && p[37] == 0x00 && p[38] == 0x00 && p[39] == 0x00
    ensures p[40] == 0x00 && p[41] == 0x00 && p[42] == 0x00 && p[43] == 0x00
    ensures p[44] == 0x00 && p[45] == 0x00 && p[46] == 0x00 && p[47] == 0x00
    ensures p[48] == 0x00 && p[49] == 0x00 && p[50] == 0x00 && p[51] == 0x00
    ensures p[52] == 0x00 && p[53] == 0x00 && p[54] == 0x00 && p[55] == 0x00
    ensures p[56] == 0x00 && p[57] == 0x00 && p[58] == 0x00 && p[59] == 0x00
    ensures p[60] == 0x00 && p[61] == 0x00 && p[62] == 0x00 && p[63] == 0x18
  {
    hide BigEndian64;
    AbcLength();
    var m: seq<byte> := [0x61, 0x62, 0x63];
    assert |m| == 3;
    forall i | 0 <= i < 3
      ensures p[i] == m[i]
    {
      assert p[..3][i] == m[i];
    }
    forall i | 0 <= i < 8
      ensures p[56 + i] == BigEndian64(24)[i]
    {
      assert p[56..][i] == p[56 + i];
    }
  }

  lemma AbcFirst()
    ensures First48([0xba7816bf, 0x8f01cfea, 0x414140de, 0x5dae2223, 0xb00361a3, 0x96177a9c, 0xb410ff61, 0xf20015ad]) ==
      [0xba, 0x78, 0x16, 0xbf, 0x8f, 0x01]
  {
  }

  /** The first 48 bits of the hash of "abc", as FIPS 180-4 gives them. */
  lemma AbcHash()
    ensures Sha48([0x61, 0x62, 0x63]) == [0xba, 0x78, 0x16, 0xbf, 0x8f, 0x01]
  {
    hide *;
    var m: seq<byte> := [0x61, 0x62, 0x63];
    var p := Padded(m, 8 * |m|);
    ShortMessage(m);
    AbcParts(m, p);
    AbcBlock(p);
    AbcCompress(Words(p));
    AbcFirst();
    HashOfOneBlock(m, p, [0xba7816bf, 0x8f01cfea, 0x414140de, 0x5dae2223, 0xb00361a3, 0x96177a9c, 0xb410ff61,
        0xf20015ad]);
  }

  lemma AbcParts(m: seq<byte>, p: seq<byte>)
    requires OneBlock(m, p)
    ensures |m| <= 55 && |p| == 64
  {
  }

}
