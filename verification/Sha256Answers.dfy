/**
  What SHA-256 computes, without its own definitions: the logical functions bit by bit, the
  constants as roots of primes, words as numbers, and the hash of "abc", round by round.
 */
module Sha256Answers {
  import opened BigEndianBytes
  import opened Texts
  import opened Sha256

  // ---- The functions of section 4.1.2 of FIPS 180-4 ----

  /** Where `x` has a one `Ch` is `y`, elsewhere `z`. */
  lemma ChChooses(x: Word, y: Word, z: Word)
    ensures Ch(x, y, z) & x == y & x
    ensures Ch(x, y, z) & !x == z & !x
  {
  }

  /** Where `x` and `y` agree `Maj` is what they agree on. */
  lemma MajWhereTwoAgree(x: Word, y: Word, z: Word)
    ensures Maj(x, y, z) & !(x ^ y) == x & !(x ^ y)
  {
  }

  /** Where they differ `z` decides. */
  lemma MajWhereTheyDiffer(x: Word, y: Word, z: Word)
    ensures Maj(x, y, z) & (x ^ y) == z & (x ^ y)
  {
  }

  lemma SigmasByShifts(x: Word)
    ensures BigSigma0(x) == ((x >> 2) | (x << 30)) ^ ((x >> 13) | (x << 19)) ^ ((x >> 22) | (x << 10))
    ensures BigSigma1(x) == ((x >> 6) | (x << 26)) ^ ((x >> 11) | (x << 21)) ^ ((x >> 25) | (x << 7))
    ensures SmallSigma0(x) == ((x >> 7) | (x << 25)) ^ ((x >> 18) | (x << 14)) ^ (x >> 3)
    ensures SmallSigma1(x) == ((x >> 17) | (x << 15)) ^ ((x >> 19) | (x << 13)) ^ (x >> 10)
  {
  }

  // ---- Words as bytes, most significant first ----

  lemma WordFromBytes(b: seq<Octet>, i: nat)
    requires i + 4 <= |b|
    ensures WordBytes(WordAt(b, i)) == b[i..i + 4]
    ensures WordAt(b, i)
         == (((b[i] as Word) * 256 + (b[i + 1] as Word)) * 256 + (b[i + 2] as Word)) * 256 + (b[i + 3] as Word)
  {
  }

  lemma BytesFromWord(w: Word)
    ensures WordAt(WordBytes(w), 0) == w
  {
  }

  // ---- The constants of sections 4.2.2 and 5.3.3 ----

  const PRIMES: seq<nat> :=
    [2, 3, 5, 7, 11, 13, 17, 19, 23, 29, 31, 37, 41, 43, 47, 53] +
    [59, 61, 67, 71, 73, 79, 83, 89, 97, 101, 103, 107, 109, 113, 127, 131] +
    [137, 139, 149, 151, 157, 163, 167, 173, 179, 181, 191, 193, 197, 199, 211, 223] +
    [227, 229, 233, 239, 241, 251, 257, 263, 269, 271, 277, 281, 283, 293, 307, 311]

  const P32: nat := 0x1_0000_0000

  /** `n` is the cube root of `p`, cut off after 32 binary digits behind the point. */
  predicate CubeRoot(p: nat, n: nat) { n * n * n <= p * P32 * P32 * P32 < (n + 1) * (n + 1) * (n + 1) }

  predicate SquareRoot(p: nat, n: nat) { n * n <= p * P32 * P32 < (n + 1) * (n + 1) }

  /** `k` is the fractional part of the cube root of `p`. */
  ghost predicate CubeFraction(p: nat, k: Word) { exists whole: nat :: CubeRoot(p, whole * P32 + k as nat) }

  ghost predicate SquareFraction(p: nat, k: Word) { exists whole: nat :: SquareRoot(p, whole * P32 + k as nat) }

  lemma FractionIs(p: nat, k: Word, whole: nat, n: nat)
    requires k as nat == n && CubeRoot(p, whole * P32 + n)
    ensures CubeFraction(p, k)
  {
  }

  lemma CubeFractions1()
    ensures forall i :: 0 <= i < 4 ==> CubeFraction(PRIMES[i], K[i])
  {
    FractionIs(2, 0x428a2f98, 1, 0x428a2f98);
    FractionIs(3, 0x71374491, 1, 0x71374491);
    FractionIs(5, 0xb5c0fbcf, 1, 0xb5c0fbcf);
    FractionIs(7, 0xe9b5dba5, 1, 0xe9b5dba5);
    hide CubeFraction;
  }

  lemma CubeFractions2()
    ensures forall i :: 4 <= i < 8 ==> CubeFraction(PRIMES[i], K[i])
  {
    FractionIs(11, 0x3956c25b, 2, 0x3956c25b);
    FractionIs(13, 0x59f111f1, 2, 0x59f111f1);
    FractionIs(17, 0x923f82a4, 2, 0x923f82a4);
    FractionIs(19, 0xab1c5ed5, 2, 0xab1c5ed5);
    hide CubeFraction;
  }

  lemma CubeFractions3()
    ensures forall i :: 8 <= i < 12 ==> CubeFraction(PRIMES[i], K[i])
  {
    FractionIs(23, 0xd807aa98, 2, 0xd807aa98);
    FractionIs(29, 0x12835b01, 3, 0x12835b01);
    FractionIs(31, 0x243185be, 3, 0x243185be);
    FractionIs(37, 0x550c7dc3, 3, 0x550c7dc3);
    hide CubeFraction;
  }

  lemma CubeFractions4()
    ensures forall i :: 12 <= i < 16 ==> CubeFraction(PRIMES[i], K[i])
  {
    FractionIs(41, 0x72be5d74, 3, 0x72be5d74);
    FractionIs(43, 0x80deb1fe, 3, 0x80deb1fe);
    FractionIs(47, 0x9bdc06a7, 3, 0x9bdc06a7);
    FractionIs(53, 0xc19bf174, 3, 0xc19bf174);
    hide CubeFraction;
  }

  lemma CubeFractions5()
    ensures forall i :: 16 <= i < 20 ==> CubeFraction(PRIMES[i], K[i])
  {
    FractionIs(59, 0xe49b69c1, 3, 0xe49b69c1);
    FractionIs(61, 0xefbe4786, 3, 0xefbe4786);
    FractionIs(67, 0x0fc19dc6, 4, 0x0fc19dc6);
    FractionIs(71, 0x240ca1cc, 4, 0x240ca1cc);
    hide CubeFraction;
  }

  lemma CubeFractions6()
    ensures forall i :: 20 <= i < 24 ==> CubeFraction(PRIMES[i], K[i])
  {
    FractionIs(73, 0x2de92c6f, 4, 0x2de92c6f);
    FractionIs(79, 0x4a7484aa, 4, 0x4a7484aa);
    FractionIs(83, 0x5cb0a9dc, 4, 0x5cb0a9dc);
    FractionIs(89, 0x76f988da, 4, 0x76f988da);
    hide CubeFraction;
  }

  lemma CubeFractions7()
    ensures forall i :: 24 <= i < 28 ==> CubeFraction(PRIMES[i], K[i])
  {
    FractionIs(97, 0x983e5152, 4, 0x983e5152);
    FractionIs(101, 0xa831c66d, 4, 0xa831c66d);
    FractionIs(103, 0xb00327c8, 4, 0xb00327c8);
    FractionIs(107, 0xbf597fc7, 4, 0xbf597fc7);
    hide CubeFraction;
  }

  lemma CubeFractions8()
    ensures forall i :: 28 <= i < 32 ==> CubeFraction(PRIMES[i], K[i])
  {
    FractionIs(109, 0xc6e00bf3, 4, 0xc6e00bf3);
    FractionIs(113, 0xd5a79147, 4, 0xd5a79147);
    FractionIs(127, 0x06ca6351, 5, 0x06ca6351);
    FractionIs(131, 0x14292967, 5, 0x14292967);
    hide CubeFraction;
  }

  lemma CubeFractions9()
    ensures forall i :: 32 <= i < 36 ==> CubeFraction(PRIMES[i], K[i])
  {
    FractionIs(137, 0x27b70a85, 5, 0x27b70a85);
    FractionIs(139, 0x2e1b2138, 5, 0x2e1b2138);
    FractionIs(149, 0x4d2c6dfc, 5, 0x4d2c6dfc);
    FractionIs(151, 0x53380d13, 5, 0x53380d13);
    hide CubeFraction;
  }

  lemma CubeFractions10()
    ensures forall i :: 36 <= i < 40 ==> CubeFraction(PRIMES[i], K[i])
  {
    FractionIs(157, 0x650a7354, 5, 0x650a7354);
    FractionIs(163, 0x766a0abb, 5, 0x766a0abb);
    FractionIs(167, 0x81c2c92e, 5, 0x81c2c92e);
    FractionIs(173, 0x92722c85, 5, 0x92722c85);
    hide CubeFraction;
  }

  lemma CubeFractions11()
    ensures forall i :: 40 <= i < 44 ==> CubeFraction(PRIMES[i], K[i])
  {
    FractionIs(179, 0xa2bfe8a1, 5, 0xa2bfe8a1);
    FractionIs(181, 0xa81a664b, 5, 0xa81a664b);
    FractionIs(191, 0xc24b8b70, 5, 0xc24b8b70);
    FractionIs(193, 0xc76c51a3, 5, 0xc76c51a3);
    hide CubeFraction;
  }

  lemma CubeFractions12()
    ensures forall i :: 44 <= i < 48 ==> CubeFraction(PRIMES[i], K[i])
  {
    FractionIs(197, 0xd192e819, 5, 0xd192e819);
    FractionIs(199, 0xd6990624, 5, 0xd6990624);
    FractionIs(211, 0xf40e3585, 5, 0xf40e3585);
    FractionIs(223, 0x106aa070, 6, 0x106aa070);
    hide CubeFraction;
  }

  lemma CubeFractions13()
    ensures forall i :: 48 <= i < 52 ==> CubeFraction(PRIMES[i], K[i])
  {
    FractionIs(227, 0x19a4c116, 6, 0x19a4c116);
    FractionIs(229, 0x1e376c08, 6, 0x1e376c08);
    FractionIs(233, 0x2748774c, 6, 0x2748774c);
    FractionIs(239, 0x34b0bcb5, 6, 0x34b0bcb5);
    hide CubeFraction;
  }

  lemma CubeFractions14()
    ensures forall i :: 52 <= i < 56 ==> CubeFraction(PRIMES[i], K[i])
  {
    FractionIs(241, 0x391c0cb3, 6, 0x391c0cb3);
    FractionIs(251, 0x4ed8aa4a, 6, 0x4ed8aa4a);
    FractionIs(257, 0x5b9cca4f, 6, 0x5b9cca4f);
    FractionIs(263, 0x682e6ff3, 6, 0x682e6ff3);
    hide CubeFraction;
  }

  lemma CubeFractions15()
    ensures forall i :: 56 <= i < 60 ==> CubeFraction(PRIMES[i], K[i])
  {
    FractionIs(269, 0x748f82ee, 6, 0x748f82ee);
    FractionIs(271, 0x78a5636f, 6, 0x78a5636f);
    FractionIs(277, 0x84c87814, 6, 0x84c87814);
    FractionIs(281, 0x8cc70208, 6, 0x8cc70208);
    hide CubeFraction;
  }

  lemma CubeFractions16()
    ensures forall i :: 60 <= i < 64 ==> CubeFraction(PRIMES[i], K[i])
  {
    FractionIs(283, 0x90befffa, 6, 0x90befffa);
    FractionIs(293, 0xa4506ceb, 6, 0xa4506ceb);
    FractionIs(307, 0xbef9a3f7, 6, 0xbef9a3f7);
    FractionIs(311, 0xc67178f2, 6, 0xc67178f2);
    hide CubeFraction;
  }

  lemma SquareFractions()
    ensures forall i :: 0 <= i < 8 ==> SquareFraction(PRIMES[i], H0[i])
  {
    assert SquareRoot(2, 1 * P32 + 0x6a09e667);
    assert SquareRoot(3, 1 * P32 + 0xbb67ae85);
    assert SquareRoot(5, 2 * P32 + 0x3c6ef372);
    assert SquareRoot(7, 2 * P32 + 0xa54ff53a);
    assert SquareRoot(11, 3 * P32 + 0x510e527f);
    assert SquareRoot(13, 3 * P32 + 0x9b05688c);
    assert SquareRoot(17, 4 * P32 + 0x1f83d9ab);
    assert SquareRoot(19, 4 * P32 + 0x5be0cd19);
  }

  /** The round constants are the fractional parts of the cube roots of the first 64 primes. */
  lemma CubeFractions()
    ensures |PRIMES| == |K| == 64 && forall i :: 0 <= i < 64 ==> CubeFraction(PRIMES[i], K[i])
  {
    hide CubeFraction;
    CubeFractions1();
    CubeFractions2();
    CubeFractions3();
    CubeFractions4();
    CubeFractions5();
    CubeFractions6();
    CubeFractions7();
    CubeFractions8();
    CubeFractions9();
    CubeFractions10();
    CubeFractions11();
    CubeFractions12();
    CubeFractions13();
    CubeFractions14();
    CubeFractions15();
    CubeFractions16();
  }

  // ---- The hash of "abc" ----

  /** Its one block. */
  const ABC: seq<Octet> := [0x61, 0x62, 0x63, 0x80, 0, 0, 0, 0] + Zeros(48) + [0, 0, 0, 0, 0, 0, 0, 0x18]

  /** Word `t` of its schedule. */
  predicate Scheduled(t: nat, w: Word)
    requires t < 64
  {
    |ABC| == 64 && Schedule(ABC, t) == w
  }

  lemma ZeroWord(t: nat)
    requires 0 < t < 15
    ensures |ABC| == 64 && WordAt(ABC, 4 * t) == 0
  {
    assert forall i :: 4 <= i < 60 ==> ABC[i] == 0;
  }

  lemma FirstWords()
    ensures Scheduled(0, 0x61626380) && Scheduled(15, 0x00000018)
    ensures forall t :: 0 < t < 15 ==> Scheduled(t, 0)
  {
    forall t | 0 < t < 15 ensures Scheduled(t, 0) { ZeroWord(t); }
  }

  /** A word of the schedule on explicit values. */
  predicate SumFits(a: Word, b: Word, c: Word, d: Word, w: Word) {
    w == Sum(a, SmallSigma0(b), c, SmallSigma1(d))
  }

  lemma NextWord(t: nat, a: Word, b: Word, c: Word, d: Word, w: Word)
    requires 16 <= t < 64 && Scheduled(t - 16, a) && Scheduled(t - 15, b) && Scheduled(t - 7, c) && Scheduled(t - 2, d)
    requires SumFits(a, b, c, d, w)
    ensures Scheduled(t, w)
  {
    hide Schedule;
    ScheduleStep(ABC, t);
  }

  lemma Words1()
    ensures Scheduled(16, 0x61626380) && Scheduled(17, 0x000f0000)
    ensures Scheduled(18, 0x7da86405) && Scheduled(19, 0x600003c6)
    ensures Scheduled(20, 0x3e9d7b78) && Scheduled(21, 0x0183fc00)
    ensures Scheduled(22, 0x12dcbfdb) && Scheduled(23, 0xe2e2c38e)
  {
    hide Scheduled;
    FirstWords();
    NextWord(16, 0x61626380, 0x00000000, 0x00000000, 0x00000000, 0x61626380);
    NextWord(17, 0x00000000, 0x00000000, 0x00000000, 0x00000018, 0x000f0000);
    NextWord(18, 0x00000000, 0x00000000, 0x00000000, 0x61626380, 0x7da86405);
    NextWord(19, 0x00000000, 0x00000000, 0x00000000, 0x000f0000, 0x600003c6);
    NextWord(20, 0x00000000, 0x00000000, 0x00000000, 0x7da86405, 0x3e9d7b78);
    NextWord(21, 0x00000000, 0x00000000, 0x00000000, 0x600003c6, 0x0183fc00);
    NextWord(22, 0x00000000, 0x00000000, 0x00000018, 0x3e9d7b78, 0x12dcbfdb);
    NextWord(23, 0x00000000, 0x00000000, 0x61626380, 0x0183fc00, 0xe2e2c38e);
  }

  lemma Words2()
    ensures Scheduled(24, 0xc8215c1a) && Scheduled(25, 0xb73679a2)
    ensures Scheduled(26, 0xe5bc3909) && Scheduled(27, 0x32663c5b)
    ensures Scheduled(28, 0x9d209d67) && Scheduled(29, 0xec8726cb)
    ensures Scheduled(30, 0x702138a4) && Scheduled(31, 0xd3b7973b)
  {
    hide Scheduled;
    FirstWords();
    Words1();
    NextWord(24, 0x00000000, 0x00000000, 0x000f0000, 0x12dcbfdb, 0xc8215c1a);
    NextWord(25, 0x00000000, 0x00000000, 0x7da86405, 0xe2e2c38e, 0xb73679a2);
    NextWord(26, 0x00000000, 0x00000000, 0x600003c6, 0xc8215c1a, 0xe5bc3909);
    NextWord(27, 0x00000000, 0x00000000, 0x3e9d7b78, 0xb73679a2, 0x32663c5b);
    NextWord(28, 0x00000000, 0x00000000, 0x0183fc00, 0xe5bc3909, 0x9d209d67);
    NextWord(29, 0x00000000, 0x00000000, 0x12dcbfdb, 0x32663c5b, 0xec8726cb);
    NextWord(30, 0x00000000, 0x00000018, 0xe2e2c38e, 0x9d209d67, 0x702138a4);
    NextWord(31, 0x00000018, 0x61626380, 0xc8215c1a, 0xec8726cb, 0xd3b7973b);
  }

  lemma Words3()
    ensures Scheduled(32, 0x93f5997f) && Scheduled(33, 0x3b68ba73)
    ensures Scheduled(34, 0xaff4ffc1) && Scheduled(35, 0xf10a5c62)
    ensures Scheduled(36, 0x0a8b3996) && Scheduled(37, 0x72af830a)
    ensures Scheduled(38, 0x9409e33e) && Scheduled(39, 0x24641522)
  {
    hide Scheduled;
    Words1();
    Words2();
    NextWord(32, 0x61626380, 0x000f0000, 0xb73679a2, 0x702138a4, 0x93f5997f);
    NextWord(33, 0x000f0000, 0x7da86405, 0xe5bc3909, 0xd3b7973b, 0x3b68ba73);
    NextWord(34, 0x7da86405, 0x600003c6, 0x32663c5b, 0x93f5997f, 0xaff4ffc1);
    NextWord(35, 0x600003c6, 0x3e9d7b78, 0x9d209d67, 0x3b68ba73, 0xf10a5c62);
    NextWord(36, 0x3e9d7b78, 0x0183fc00, 0xec8726cb, 0xaff4ffc1, 0x0a8b3996);
    NextWord(37, 0x0183fc00, 0x12dcbfdb, 0x702138a4, 0xf10a5c62, 0x72af830a);
    NextWord(38, 0x12dcbfdb, 0xe2e2c38e, 0xd3b7973b, 0x0a8b3996, 0x9409e33e);
    NextWord(39, 0xe2e2c38e, 0xc8215c1a, 0x93f5997f, 0x72af830a, 0x24641522);
  }

  lemma Words4()
    ensures Scheduled(40, 0x9f47bf94) && Scheduled(41, 0xf0a64f5a)
    ensures Scheduled(42, 0x3e246a79) && Scheduled(43, 0x27333ba3)
    ensures Scheduled(44, 0x0c4763f2) && Scheduled(45, 0x840abf27)
    ensures Scheduled(46, 0x7a290d5d) && Scheduled(47, 0x065c43da)
  {
    hide Scheduled;
    Words2();
    Words3();
    NextWord(40, 0xc8215c1a, 0xb73679a2, 0x3b68ba73, 0x9409e33e, 0x9f47bf94);
    NextWord(41, 0xb73679a2, 0xe5bc3909, 0xaff4ffc1, 0x24641522, 0xf0a64f5a);
    NextWord(42, 0xe5bc3909, 0x32663c5b, 0xf10a5c62, 0x9f47bf94, 0x3e246a79);
    NextWord(43, 0x32663c5b, 0x9d209d67, 0x0a8b3996, 0xf0a64f5a, 0x27333ba3);
    NextWord(44, 0x9d209d67, 0xec8726cb, 0x72af830a, 0x3e246a79, 0x0c4763f2);
    NextWord(45, 0xec8726cb, 0x702138a4, 0x9409e33e, 0x27333ba3, 0x840abf27);
    NextWord(46, 0x702138a4, 0xd3b7973b, 0x24641522, 0x0c4763f2, 0x7a290d5d);
    NextWord(47, 0xd3b7973b, 0x93f5997f, 0x9f47bf94, 0x840abf27, 0x065c43da);
  }

  lemma Words5()
    ensures Scheduled(48, 0xfb3e89cb) && Scheduled(49, 0xcc7617db)
    ensures Scheduled(50, 0xb9e66c34) && Scheduled(51, 0xa9993667)
    ensures Scheduled(52, 0x84badedd) && Scheduled(53, 0xc21462bc)
    ensures Scheduled(54, 0x1487472c) && Scheduled(55, 0xb20f7a99)
  {
    hide Scheduled;
    Words3();
    Words4();
    NextWord(48, 0x93f5997f, 0x3b68ba73, 0xf0a64f5a, 0x7a290d5d, 0xfb3e89cb);
    NextWord(49, 0x3b68ba73, 0xaff4ffc1, 0x3e246a79, 0x065c43da, 0xcc7617db);
    NextWord(50, 0xaff4ffc1, 0xf10a5c62, 0x27333ba3, 0xfb3e89cb, 0xb9e66c34);
    NextWord(51, 0xf10a5c62, 0x0a8b3996, 0x0c4763f2, 0xcc7617db, 0xa9993667);
    NextWord(52, 0x0a8b3996, 0x72af830a, 0x840abf27, 0xb9e66c34, 0x84badedd);
    NextWord(53, 0x72af830a, 0x9409e33e, 0x7a290d5d, 0xa9993667, 0xc21462bc);
    NextWord(54, 0x9409e33e, 0x24641522, 0x065c43da, 0x84badedd, 0x1487472c);
    NextWord(55, 0x24641522, 0x9f47bf94, 0xfb3e89cb, 0xc21462bc, 0xb20f7a99);
  }

  lemma Words6()
    ensures Scheduled(56, 0xef57b9cd) && Scheduled(57, 0xebe6b238)
    ensures Scheduled(58, 0x9fe3095e) && Scheduled(59, 0x78bc8d4b)
    ensures Scheduled(60, 0xa43fcf15) && Scheduled(61, 0x668b2ff8)
    ensures Scheduled(62, 0xeeaba2cc) && Scheduled(63, 0x12b1edeb)
  {
    hide Scheduled;
    Words4();
    Words5();
    NextWord(56, 0x9f47bf94, 0xf0a64f5a, 0xcc7617db, 0x1487472c, 0xef57b9cd);
    NextWord(57, 0xf0a64f5a, 0x3e246a79, 0xb9e66c34, 0xb20f7a99, 0xebe6b238);
    NextWord(58, 0x3e246a79, 0x27333ba3, 0xa9993667, 0xef57b9cd, 0x9fe3095e);
    NextWord(59, 0x27333ba3, 0x0c4763f2, 0x84badedd, 0xebe6b238, 0x78bc8d4b);
    NextWord(60, 0x0c4763f2, 0x840abf27, 0xc21462bc, 0x9fe3095e, 0xa43fcf15);
    NextWord(61, 0x840abf27, 0x7a290d5d, 0x1487472c, 0x78bc8d4b, 0x668b2ff8);
    NextWord(62, 0x7a290d5d, 0x065c43da, 0xb20f7a99, 0xa43fcf15, 0xeeaba2cc);
    NextWord(63, 0x065c43da, 0xfb3e89cb, 0xef57b9cd, 0x668b2ff8, 0x12b1edeb);
  }

  /** The eight variables after `t` rounds. */
  predicate Reached(t: nat, a: Word, b: Word, c: Word, d: Word, e: Word, f: Word, g: Word, h: Word)
    requires t <= 64
  {
    |ABC| == 64 && Rounds(VarsOf(H0), ABC, t) == Vars(a, b, c, d, e, f, g, h)
  }

  /** The constant of a round. */
  predicate Constant(t: nat, k: Word)
    requires t < 64
  {
    K[t] == k
  }

  /** One round on explicit values: only the first and the fifth variable are new. */
  predicate Fits(v: Vars, k: Word, w: Word, a: Word, e: Word) {
    Round(v, k, w) == Vars(a, v.a, v.b, v.c, e, v.e, v.f, v.g)
  }

  lemma Reach(t: nat, k: Word, w: Word, newA: Word, newE: Word,
              a: Word, b: Word, c: Word, d: Word, e: Word, f: Word, g: Word, h: Word)
    requires t < 64 && Reached(t, a, b, c, d, e, f, g, h) && Constant(t, k) && Scheduled(t, w)
    requires Fits(Vars(a, b, c, d, e, f, g, h), k, w, newA, newE)
    ensures Reached(t + 1, newA, a, b, c, newE, e, f, g)
  {
    hide Round;
    hide Schedule;
  }

  lemma Constants1()
    ensures Constant(0, 0x428a2f98) && Constant(1, 0x71374491) && Constant(2, 0xb5c0fbcf) && Constant(3, 0xe9b5dba5)
    ensures Constant(4, 0x3956c25b) && Constant(5, 0x59f111f1) && Constant(6, 0x923f82a4) && Constant(7, 0xab1c5ed5)
  {
  }

  lemma Constants2()
    ensures Constant(8, 0xd807aa98) && Constant(9, 0x12835b01) && Constant(10, 0x243185be) && Constant(11, 0x550c7dc3)
    ensures Constant(12, 0x72be5d74) && Constant(13, 0x80deb1fe) && Constant(14, 0x9bdc06a7) && Constant(15, 0xc19bf174)
  {
  }

  lemma Constants3()
    ensures Constant(16, 0xe49b69c1) && Constant(17, 0xefbe4786) && Constant(18, 0x0fc19dc6) && Constant(19, 0x240ca1cc)
    ensures Constant(20, 0x2de92c6f) && Constant(21, 0x4a7484aa) && Constant(22, 0x5cb0a9dc) && Constant(23, 0x76f988da)
  {
  }

  lemma Constants4()
    ensures Constant(24, 0x983e5152) && Constant(25, 0xa831c66d) && Constant(26, 0xb00327c8) && Constant(27, 0xbf597fc7)
    ensures Constant(28, 0xc6e00bf3) && Constant(29, 0xd5a79147) && Constant(30, 0x06ca6351) && Constant(31, 0x14292967)
  {
  }

  lemma Constants5()
    ensures Constant(32, 0x27b70a85) && Constant(33, 0x2e1b2138) && Constant(34, 0x4d2c6dfc) && Constant(35, 0x53380d13)
    ensures Constant(36, 0x650a7354) && Constant(37, 0x766a0abb) && Constant(38, 0x81c2c92e) && Constant(39, 0x92722c85)
  {
  }

  lemma Constants6()
    ensures Constant(40, 0xa2bfe8a1) && Constant(41, 0xa81a664b) && Constant(42, 0xc24b8b70) && Constant(43, 0xc76c51a3)
    ensures Constant(44, 0xd192e819) && Constant(45, 0xd6990624) && Constant(46, 0xf40e3585) && Constant(47, 0x106aa070)
  {
  }

  lemma Constants7()
    ensures Constant(48, 0x19a4c116) && Constant(49, 0x1e376c08) && Constant(50, 0x2748774c) && Constant(51, 0x34b0bcb5)
    ensures Constant(52, 0x391c0cb3) && Constant(53, 0x4ed8aa4a) && Constant(54, 0x5b9cca4f) && Constant(55, 0x682e6ff3)
  {
  }

  lemma Constants8()
    ensures Constant(56, 0x748f82ee) && Constant(57, 0x78a5636f) && Constant(58, 0x84c87814) && Constant(59, 0x8cc70208)
    ensures Constant(60, 0x90befffa) && Constant(61, 0xa4506ceb) && Constant(62, 0xbef9a3f7) && Constant(63, 0xc67178f2)
  {
  }

  lemma StartOfRounds()
    ensures Reached(0, 0x6a09e667, 0xbb67ae85, 0x3c6ef372, 0xa54ff53a, 0x510e527f, 0x9b05688c, 0x1f83d9ab, 0x5be0cd19)
  {
    assert |ABC| == 64;
  }

  lemma Rounds1()
    ensures Reached(8, 0x85a07b5f, 0xe5030380, 0x2b4209f5, 0x04409a6a, 0x0c657a79, 0x9b27a401, 0x714260ad, 0x43ada245)
  {
    hide Reached;
    hide Constant;
    hide Scheduled;
    Constants1();
    FirstWords();
    StartOfRounds();
    Reach(0, 0x428a2f98, 0x61626380, 0x5d6aebcd, 0xfa2a4622,
          0x6a09e667, 0xbb67ae85, 0x3c6ef372, 0xa54ff53a, 0x510e527f, 0x9b05688c, 0x1f83d9ab, 0x5be0cd19);
    Reach(1, 0x71374491, 0x00000000, 0x5a6ad9ad, 0x78ce7989,
          0x5d6aebcd, 0x6a09e667, 0xbb67ae85, 0x3c6ef372, 0xfa2a4622, 0x510e527f, 0x9b05688c, 0x1f83d9ab);
    Reach(2, 0xb5c0fbcf, 0x00000000, 0xc8c347a7, 0xf92939eb,
          0x5a6ad9ad, 0x5d6aebcd, 0x6a09e667, 0xbb67ae85, 0x78ce7989, 0xfa2a4622, 0x510e527f, 0x9b05688c);
    Reach(3, 0xe9b5dba5, 0x00000000, 0xd550f666, 0x24e00850,
          0xc8c347a7, 0x5a6ad9ad, 0x5d6aebcd, 0x6a09e667, 0xf92939eb, 0x78ce7989, 0xfa2a4622, 0x510e527f);
    Reach(4, 0x3956c25b, 0x00000000, 0x04409a6a, 0x43ada245,
          0xd550f666, 0xc8c347a7, 0x5a6ad9ad, 0x5d6aebcd, 0x24e00850, 0xf92939eb, 0x78ce7989, 0xfa2a4622);
    Reach(5, 0x59f111f1, 0x00000000, 0x2b4209f5, 0x714260ad,
          0x04409a6a, 0xd550f666, 0xc8c347a7, 0x5a6ad9ad, 0x43ada245, 0x24e00850, 0xf92939eb, 0x78ce7989);
    Reach(6, 0x923f82a4, 0x00000000, 0xe5030380, 0x9b27a401,
          0x2b4209f5, 0x04409a6a, 0xd550f666, 0xc8c347a7, 0x714260ad, 0x43ada245, 0x24e00850, 0xf92939eb);
    Reach(7, 0xab1c5ed5, 0x00000000, 0x85a07b5f, 0x0c657a79,
          0xe5030380, 0x2b4209f5, 0x04409a6a, 0xd550f666, 0x9b27a401, 0x714260ad, 0x43ada245, 0x24e00850);
  }

  lemma Rounds2()
    ensures Reached(16, 0xb0fa238e, 0xc0645fde, 0xd932eb16, 0x87912990, 0x07590dcd, 0x0b92f20c, 0x745a48de, 0x1e578218)
  {
    hide Reached;
    hide Constant;
    hide Scheduled;
    Constants2();
    FirstWords();
    Rounds1();
    Reach(8, 0xd807aa98, 0x00000000, 0x8e04ecb9, 0x32ca2d8c,
          0x85a07b5f, 0xe5030380, 0x2b4209f5, 0x04409a6a, 0x0c657a79, 0x9b27a401, 0x714260ad, 0x43ada245);
    Reach(9, 0x12835b01, 0x00000000, 0x8c87346b, 0x1cc92596,
          0x8e04ecb9, 0x85a07b5f, 0xe5030380, 0x2b4209f5, 0x32ca2d8c, 0x0c657a79, 0x9b27a401, 0x714260ad);
    Reach(10, 0x243185be, 0x00000000, 0x4798a3f4, 0x436b23e8,
          0x8c87346b, 0x8e04ecb9, 0x85a07b5f, 0xe5030380, 0x1cc92596, 0x32ca2d8c, 0x0c657a79, 0x9b27a401);
    Reach(11, 0x550c7dc3, 0x00000000, 0xf71fc5a9, 0x816fd6e9,
          0x4798a3f4, 0x8c87346b, 0x8e04ecb9, 0x85a07b5f, 0x436b23e8, 0x1cc92596, 0x32ca2d8c, 0x0c657a79);
    Reach(12, 0x72be5d74, 0x00000000, 0x87912990, 0x1e578218,
          0xf71fc5a9, 0x4798a3f4, 0x8c87346b, 0x8e04ecb9, 0x816fd6e9, 0x436b23e8, 0x1cc92596, 0x32ca2d8c);
    Reach(13, 0x80deb1fe, 0x00000000, 0xd932eb16, 0x745a48de,
          0x87912990, 0xf71fc5a9, 0x4798a3f4, 0x8c87346b, 0x1e578218, 0x816fd6e9, 0x436b23e8, 0x1cc92596);
    Reach(14, 0x9bdc06a7, 0x00000000, 0xc0645fde, 0x0b92f20c,
          0xd932eb16, 0x87912990, 0xf71fc5a9, 0x4798a3f4, 0x745a48de, 0x1e578218, 0x816fd6e9, 0x436b23e8);
    Reach(15, 0xc19bf174, 0x00000018, 0xb0fa238e, 0x07590dcd,
          0xc0645fde, 0xd932eb16, 0x87912990, 0xf71fc5a9, 0x0b92f20c, 0x745a48de, 0x1e578218, 0x816fd6e9);
  }

  lemma Rounds3()
    ensures Reached(24, 0xc5d53d8d, 0xa7a3623f, 0xc2606d6d, 0x9dc68b63, 0xaa47c347, 0x49f5114a, 0xe1257970, 0x8ada8930)
  {
    hide Reached;
    hide Constant;
    hide Scheduled;
    Constants3();
    Words1();
    Rounds2();
    Reach(16, 0xe49b69c1, 0x61626380, 0x21da9a9b, 0x8034229c,
          0xb0fa238e, 0xc0645fde, 0xd932eb16, 0x87912990, 0x07590dcd, 0x0b92f20c, 0x745a48de, 0x1e578218);
    Reach(17, 0xefbe4786, 0x000f0000, 0xc2fbd9d1, 0x846ee454,
          0x21da9a9b, 0xb0fa238e, 0xc0645fde, 0xd932eb16, 0x8034229c, 0x07590dcd, 0x0b92f20c, 0x745a48de);
    Reach(18, 0x0fc19dc6, 0x7da86405, 0xfe777bbf, 0xcc899961,
          0xc2fbd9d1, 0x21da9a9b, 0xb0fa238e, 0xc0645fde, 0x846ee454, 0x8034229c, 0x07590dcd, 0x0b92f20c);
    Reach(19, 0x240ca1cc, 0x600003c6, 0xe1f20c33, 0xb0638179,
          0xfe777bbf, 0xc2fbd9d1, 0x21da9a9b, 0xb0fa238e, 0xcc899961, 0x846ee454, 0x8034229c, 0x07590dcd);
    Reach(20, 0x2de92c6f, 0x3e9d7b78, 0x9dc68b63, 0x8ada8930,
          0xe1f20c33, 0xfe777bbf, 0xc2fbd9d1, 0x21da9a9b, 0xb0638179, 0xcc899961, 0x846ee454, 0x8034229c);
    Reach(21, 0x4a7484aa, 0x0183fc00, 0xc2606d6d, 0xe1257970,
          0x9dc68b63, 0xe1f20c33, 0xfe777bbf, 0xc2fbd9d1, 0x8ada8930, 0xb0638179, 0xcc899961, 0x846ee454);
    Reach(22, 0x5cb0a9dc, 0x12dcbfdb, 0xa7a3623f, 0x49f5114a,
          0xc2606d6d, 0x9dc68b63, 0xe1f20c33, 0xfe777bbf, 0xe1257970, 0x8ada8930, 0xb0638179, 0xcc899961);
    Reach(23, 0x76f988da, 0xe2e2c38e, 0xc5d53d8d, 0xaa47c347,
          0xa7a3623f, 0xc2606d6d, 0x9dc68b63, 0xe1f20c33, 0x49f5114a, 0xe1257970, 0x8ada8930, 0xb0638179);
  }

  lemma Rounds4()
    ensures Reached(32, 0x73b33bf5, 0xea992a22, 0xa0060b30, 0x363482c9, 0xba591112, 0x0109ab3a, 0xade79437, 0x6112a3b7)
  {
    hide Reached;
    hide Constant;
    hide Scheduled;
    Constants4();
    Words2();
    Rounds3();
    Reach(24, 0x983e5152, 0xc8215c1a, 0x1c2c2838, 0x2823ef91,
          0xc5d53d8d, 0xa7a3623f, 0xc2606d6d, 0x9dc68b63, 0xaa47c347, 0x49f5114a, 0xe1257970, 0x8ada8930);
    Reach(25, 0xa831c66d, 0xb73679a2, 0xcde8037d, 0x14383d8e,
          0x1c2c2838, 0xc5d53d8d, 0xa7a3623f, 0xc2606d6d, 0x2823ef91, 0xaa47c347, 0x49f5114a, 0xe1257970);
    Reach(26, 0xb00327c8, 0xe5bc3909, 0xb62ec4bc, 0xc74c6516,
          0xcde8037d, 0x1c2c2838, 0xc5d53d8d, 0xa7a3623f, 0x14383d8e, 0x2823ef91, 0xaa47c347, 0x49f5114a);
    Reach(27, 0xbf597fc7, 0x32663c5b, 0x77d37528, 0xedffbff8,
          0xb62ec4bc, 0xcde8037d, 0x1c2c2838, 0xc5d53d8d, 0xc74c6516, 0x14383d8e, 0x2823ef91, 0xaa47c347);
    Reach(28, 0xc6e00bf3, 0x9d209d67, 0x363482c9, 0x6112a3b7,
          0x77d37528, 0xb62ec4bc, 0xcde8037d, 0x1c2c2838, 0xedffbff8, 0xc74c6516, 0x14383d8e, 0x2823ef91);
    Reach(29, 0xd5a79147, 0xec8726cb, 0xa0060b30, 0xade79437,
          0x363482c9, 0x77d37528, 0xb62ec4bc, 0xcde8037d, 0x6112a3b7, 0xedffbff8, 0xc74c6516, 0x14383d8e);
    Reach(30, 0x06ca6351, 0x702138a4, 0xea992a22, 0x0109ab3a,
          0xa0060b30, 0x363482c9, 0x77d37528, 0xb62ec4bc, 0xade79437, 0x6112a3b7, 0xedffbff8, 0xc74c6516);
    Reach(31, 0x14292967, 0xd3b7973b, 0x73b33bf5, 0xba591112,
          0xea992a22, 0xa0060b30, 0x363482c9, 0x77d37528, 0x0109ab3a, 0xade79437, 0x6112a3b7, 0xedffbff8);
  }

  lemma Rounds5()
    ensures Reached(40, 0x79ea687a, 0x6dc57a8a, 0x34df1604, 0x41a65cb1, 0x1efbc0a0, 0xf0781bc8, 0xa507a53d, 0x0772a26b)
  {
    hide Reached;
    hide Constant;
    hide Scheduled;
    Constants5();
    Words3();
    Rounds4();
    Reach(32, 0x27b70a85, 0x93f5997f, 0x98e12507, 0x9cd9f5f6,
          0x73b33bf5, 0xea992a22, 0xa0060b30, 0x363482c9, 0xba591112, 0x0109ab3a, 0xade79437, 0x6112a3b7);
    Reach(33, 0x2e1b2138, 0x3b68ba73, 0xfe604df5, 0x59249dd3,
          0x98e12507, 0x73b33bf5, 0xea992a22, 0xa0060b30, 0x9cd9f5f6, 0xba591112, 0x0109ab3a, 0xade79437);
    Reach(34, 0x4d2c6dfc, 0xaff4ffc1, 0xa9a7738c, 0x085f3833,
          0xfe604df5, 0x98e12507, 0x73b33bf5, 0xea992a22, 0x59249dd3, 0x9cd9f5f6, 0xba591112, 0x0109ab3a);
    Reach(35, 0x53380d13, 0xf10a5c62, 0x65a0cfe4, 0xf4b002d6,
          0xa9a7738c, 0xfe604df5, 0x98e12507, 0x73b33bf5, 0x085f3833, 0x59249dd3, 0x9cd9f5f6, 0xba591112);
    Reach(36, 0x650a7354, 0x0a8b3996, 0x41a65cb1, 0x0772a26b,
          0x65a0cfe4, 0xa9a7738c, 0xfe604df5, 0x98e12507, 0xf4b002d6, 0x085f3833, 0x59249dd3, 0x9cd9f5f6);
    Reach(37, 0x766a0abb, 0x72af830a, 0x34df1604, 0xa507a53d,
          0x41a65cb1, 0x65a0cfe4, 0xa9a7738c, 0xfe604df5, 0x0772a26b, 0xf4b002d6, 0x085f3833, 0x59249dd3);
    Reach(38, 0x81c2c92e, 0x9409e33e, 0x6dc57a8a, 0xf0781bc8,
          0x34df1604, 0x41a65cb1, 0x65a0cfe4, 0xa9a7738c, 0xa507a53d, 0x0772a26b, 0xf4b002d6, 0x085f3833);
    Reach(39, 0x92722c85, 0x24641522, 0x79ea687a, 0x1efbc0a0,
          0x6dc57a8a, 0x34df1604, 0x41a65cb1, 0x65a0cfe4, 0xf0781bc8, 0xa507a53d, 0x0772a26b, 0xf4b002d6);
  }

  lemma Rounds6()
    ensures Reached(48, 0x4172328d, 0xa14c14b0, 0x72ab4b91, 0x26628815, 0xfecf0bc6, 0xd57b94a9, 0xb7755da1, 0xa80f11f0)
  {
    hide Reached;
    hide Constant;
    hide Scheduled;
    Constants6();
    Words4();
    Rounds5();
    Reach(40, 0xa2bfe8a1, 0x9f47bf94, 0xd6670766, 0x26352d63,
          0x79ea687a, 0x6dc57a8a, 0x34df1604, 0x41a65cb1, 0x1efbc0a0, 0xf0781bc8, 0xa507a53d, 0x0772a26b);
    Reach(41, 0xa81a664b, 0xf0a64f5a, 0xdf46652f, 0x838b2711,
          0xd6670766, 0x79ea687a, 0x6dc57a8a, 0x34df1604, 0x26352d63, 0x1efbc0a0, 0xf0781bc8, 0xa507a53d);
    Reach(42, 0xc24b8b70, 0x3e246a79, 0x17aa0dfe, 0xdecd4715,
          0xdf46652f, 0xd6670766, 0x79ea687a, 0x6dc57a8a, 0x838b2711, 0x26352d63, 0x1efbc0a0, 0xf0781bc8);
    Reach(43, 0xc76c51a3, 0x27333ba3, 0x9d4baf93, 0xfda24c2e,
          0x17aa0dfe, 0xdf46652f, 0xd6670766, 0x79ea687a, 0xdecd4715, 0x838b2711, 0x26352d63, 0x1efbc0a0);
    Reach(44, 0xd192e819, 0x0c4763f2, 0x26628815, 0xa80f11f0,
          0x9d4baf93, 0x17aa0dfe, 0xdf46652f, 0xd6670766, 0xfda24c2e, 0xdecd4715, 0x838b2711, 0x26352d63);
    Reach(45, 0xd6990624, 0x840abf27, 0x72ab4b91, 0xb7755da1,
          0x26628815, 0x9d4baf93, 0x17aa0dfe, 0xdf46652f, 0xa80f11f0, 0xfda24c2e, 0xdecd4715, 0x838b2711);
    Reach(46, 0xf40e3585, 0x7a290d5d, 0xa14c14b0, 0xd57b94a9,
          0x72ab4b91, 0x26628815, 0x9d4baf93, 0x17aa0dfe, 0xb7755da1, 0xa80f11f0, 0xfda24c2e, 0xdecd4715);
    Reach(47, 0x106aa070, 0x065c43da, 0x4172328d, 0xfecf0bc6,
          0xa14c14b0, 0x72ab4b91, 0x26628815, 0x9d4baf93, 0xd57b94a9, 0xb7755da1, 0xa80f11f0, 0xfda24c2e);
  }

  lemma Rounds7()
    ensures Reached(56, 0x38cc9913, 0x3ec45cdb, 0xf5702fdb, 0x101fd28f, 0x54cb266b, 0xe50e1b4f, 0x9f4787c3, 0x529e7d00)
  {
    hide Reached;
    hide Constant;
    hide Scheduled;
    Constants7();
    Words5();
    Rounds6();
    Reach(48, 0x19a4c116, 0xfb3e89cb, 0x05757ceb, 0xbd714038,
          0x4172328d, 0xa14c14b0, 0x72ab4b91, 0x26628815, 0xfecf0bc6, 0xd57b94a9, 0xb7755da1, 0xa80f11f0);
    Reach(49, 0x1e376c08, 0xcc7617db, 0xf11bfaa8, 0x6e5c390c,
          0x05757ceb, 0x4172328d, 0xa14c14b0, 0x72ab4b91, 0xbd714038, 0xfecf0bc6, 0xd57b94a9, 0xb7755da1);
    Reach(50, 0x2748774c, 0xb9e66c34, 0x7a0508a1, 0x52f1ccf7,
          0xf11bfaa8, 0x05757ceb, 0x4172328d, 0xa14c14b0, 0x6e5c390c, 0xbd714038, 0xfecf0bc6, 0xd57b94a9);
    Reach(51, 0x34b0bcb5, 0xa9993667, 0x886e7a22, 0x49231c1e,
          0x7a0508a1, 0xf11bfaa8, 0x05757ceb, 0x4172328d, 0x52f1ccf7, 0x6e5c390c, 0xbd714038, 0xfecf0bc6);
    Reach(52, 0x391c0cb3, 0x84badedd, 0x101fd28f, 0x529e7d00,
          0x886e7a22, 0x7a0508a1, 0xf11bfaa8, 0x05757ceb, 0x49231c1e, 0x52f1ccf7, 0x6e5c390c, 0xbd714038);
    Reach(53, 0x4ed8aa4a, 0xc21462bc, 0xf5702fdb, 0x9f4787c3,
          0x101fd28f, 0x886e7a22, 0x7a0508a1, 0xf11bfaa8, 0x529e7d00, 0x49231c1e, 0x52f1ccf7, 0x6e5c390c);
    Reach(54, 0x5b9cca4f, 0x1487472c, 0x3ec45cdb, 0xe50e1b4f,
          0xf5702fdb, 0x101fd28f, 0x886e7a22, 0x7a0508a1, 0x9f4787c3, 0x529e7d00, 0x49231c1e, 0x52f1ccf7);
    Reach(55, 0x682e6ff3, 0xb20f7a99, 0x38cc9913, 0x54cb266b,
          0x3ec45cdb, 0xf5702fdb, 0x101fd28f, 0x886e7a22, 0xe50e1b4f, 0x9f4787c3, 0x529e7d00, 0x49231c1e);
  }

  lemma Rounds8()
    ensures Reached(64, 0x506e3058, 0xd39a2165, 0x04d24d6c, 0xb85e2ce9, 0x5ef50f24, 0xfb121210, 0x948d25b6, 0x961f4894)
  {
    hide Reached;
    hide Constant;
    hide Scheduled;
    Constants8();
    Words6();
    Rounds7();
    Reach(56, 0x748f82ee, 0xef57b9cd, 0xfcd1887b, 0x9b5e906c,
          0x38cc9913, 0x3ec45cdb, 0xf5702fdb, 0x101fd28f, 0x54cb266b, 0xe50e1b4f, 0x9f4787c3, 0x529e7d00);
    Reach(57, 0x78a5636f, 0xebe6b238, 0xc062d46f, 0x7e44008e,
          0xfcd1887b, 0x38cc9913, 0x3ec45cdb, 0xf5702fdb, 0x9b5e906c, 0x54cb266b, 0xe50e1b4f, 0x9f4787c3);
    Reach(58, 0x84c87814, 0x9fe3095e, 0xffb70472, 0x6d83bfc6,
          0xc062d46f, 0xfcd1887b, 0x38cc9913, 0x3ec45cdb, 0x7e44008e, 0x9b5e906c, 0x54cb266b, 0xe50e1b4f);
    Reach(59, 0x8cc70208, 0x78bc8d4b, 0xb6ae8fff, 0xb21bad3d,
          0xffb70472, 0xc062d46f, 0xfcd1887b, 0x38cc9913, 0x6d83bfc6, 0x7e44008e, 0x9b5e906c, 0x54cb266b);
    Reach(60, 0x90befffa, 0xa43fcf15, 0xb85e2ce9, 0x961f4894,
          0xb6ae8fff, 0xffb70472, 0xc062d46f, 0xfcd1887b, 0xb21bad3d, 0x6d83bfc6, 0x7e44008e, 0x9b5e906c);
    Reach(61, 0xa4506ceb, 0x668b2ff8, 0x04d24d6c, 0x948d25b6,
          0xb85e2ce9, 0xb6ae8fff, 0xffb70472, 0xc062d46f, 0x961f4894, 0xb21bad3d, 0x6d83bfc6, 0x7e44008e);
    Reach(62, 0xbef9a3f7, 0xeeaba2cc, 0xd39a2165, 0xfb121210,
          0x04d24d6c, 0xb85e2ce9, 0xb6ae8fff, 0xffb70472, 0x948d25b6, 0x961f4894, 0xb21bad3d, 0x6d83bfc6);
    Reach(63, 0xc67178f2, 0x12b1edeb, 0x506e3058, 0x5ef50f24,
          0xd39a2165, 0x04d24d6c, 0xb85e2ce9, 0xb6ae8fff, 0xfb121210, 0x948d25b6, 0x961f4894, 0xb21bad3d);
  }

  lemma {:induction false} ZeroKey(width: nat)
    ensures forall i :: 0 <= i < width ==> BigEndian(0, width)[i] == 0
    decreases width
  {
    if width > 0 { ZeroKey(width - 1); }
  }

  lemma LengthOfAbc()
    ensures LengthField(24) == [0, 0, 0, 0, 0, 0, 0, 0x18]
  {
    ZeroKey(7);
    assert BigEndian(24, 8) == BigEndian(0, 7) + [24];
    hide BigEndian;
  }

  lemma PadOfAbc()
    ensures Pad([0x61, 0x62, 0x63]) == ABC
  {
    LengthOfAbc();
    hide LengthField;
    assert ZeroCount(3) == 52;
    assert [0x61, 0x62, 0x63] + [0x80] + Zeros(52) + [0, 0, 0, 0, 0, 0, 0, 0x18] == ABC;
  }

  lemma LastSums()
    ensures Add(0x6a09e667, 0x506e3058) == 0xba7816bf
    ensures Add(0xbb67ae85, 0xd39a2165) == 0x8f01cfea
    ensures Add(0x3c6ef372, 0x04d24d6c) == 0x414140de
    ensures Add(0xa54ff53a, 0xb85e2ce9) == 0x5dae2223
    ensures Add(0x510e527f, 0x5ef50f24) == 0xb00361a3
    ensures Add(0x9b05688c, 0xfb121210) == 0x96177a9c
    ensures Add(0x1f83d9ab, 0x948d25b6) == 0xb410ff61
    ensures Add(0x5be0cd19, 0x961f4894) == 0xf20015ad
  {
  }

  const ABC_WORDS: seq<Word> := [
    0xba7816bf, 0x8f01cfea, 0x414140de, 0x5dae2223, 0xb00361a3, 0x96177a9c, 0xb410ff61, 0xf20015ad]

  lemma CompressOfAbc()
    ensures |ABC| == 64 && Compress(H0, ABC) == ABC_WORDS
  {
    Rounds8();
    LastSums();
    hide Rounds;
    hide Add;
    assert WordsOf(Rounds(VarsOf(H0), ABC, 64)) ==
      [0x506e3058, 0xd39a2165, 0x04d24d6c, 0xb85e2ce9, 0x5ef50f24, 0xfb121210, 0x948d25b6, 0x961f4894];
    var c := Compress(H0, ABC);
    assert c[0] == ABC_WORDS[0] && c[1] == ABC_WORDS[1] && c[2] == ABC_WORDS[2] && c[3] == ABC_WORDS[3];
    assert c[4] == ABC_WORDS[4] && c[5] == ABC_WORDS[5] && c[6] == ABC_WORDS[6] && c[7] == ABC_WORDS[7];
  }

  lemma BytesOfAbc()
    ensures WordBytes(0xba7816bf) == [0xba, 0x78, 0x16, 0xbf]
    ensures WordBytes(0x8f01cfea) == [0x8f, 0x01, 0xcf, 0xea]
    ensures WordBytes(0x414140de) == [0x41, 0x41, 0x40, 0xde]
    ensures WordBytes(0x5dae2223) == [0x5d, 0xae, 0x22, 0x23]
    ensures WordBytes(0xb00361a3) == [0xb0, 0x03, 0x61, 0xa3]
    ensures WordBytes(0x96177a9c) == [0x96, 0x17, 0x7a, 0x9c]
    ensures WordBytes(0xb410ff61) == [0xb4, 0x10, 0xff, 0x61]
    ensures WordBytes(0xf20015ad) == [0xf2, 0x00, 0x15, 0xad]
  {
  }

  const ABC_DIGEST: seq<Octet> := [
    0xba, 0x78, 0x16, 0xbf, 0x8f, 0x01, 0xcf, 0xea, 0x41, 0x41, 0x40, 0xde, 0x5d, 0xae, 0x22, 0x23,
    0xb0, 0x03, 0x61, 0xa3, 0x96, 0x17, 0x7a, 0x9c, 0xb4, 0x10, 0xff, 0x61, 0xf2, 0x00, 0x15, 0xad]

  lemma DigestOfWords()
    ensures DigestBytes(ABC_WORDS) == ABC_DIGEST
  {
    hide WordBytes;
    BytesOfAbc();
  }

  lemma OneBlock(block: seq<Octet>)
    requires |block| == 64
    ensures HashBlocks(block) == Compress(H0, block)
  {
    hide Compress;
    HashMore([], block);
    assert [] + block == block;
  }

  /** The known answer of FIPS 180-4: all functions, constants, rounds, padding and byte orders together. */
  lemma HashOfAbc()
    ensures Digest([0x61, 0x62, 0x63]) == ABC_DIGEST
  {
    hide Compress;
    hide DigestBytes;
    hide Pad;
    hide HashBlocks;
    PadOfAbc();
    OneBlock(ABC);
    CompressOfAbc();
    DigestOfWords();
  }
}
