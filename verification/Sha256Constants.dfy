/** The constants of SHA-256 against the definitions of FIPS 180-4, and its choice and majority functions bit by bit. */
module Sha256Constants {
  // Sections 4.2.2 and 5.3.3 take the first 32 bits of the fractional parts of roots of the first primes.

  import opened Sha256

  const TWO_32 := 0x1_0000_0000

  function Primes(): (ps: seq<nat>)
    ensures |ps| == 64
  {
    ([2, 3, 5, 7, 11, 13, 17, 19]
     + [23, 29, 31, 37, 41, 43, 47, 53]
     + [59, 61, 67, 71, 73, 79, 83, 89]
     + [97, 101, 103, 107, 109, 113, 127, 131])
    + ([137, 139, 149, 151, 157, 163, 167, 173]
       + [179, 181, 191, 193, 197, 199, 211, 223]
       + [227, 229, 233, 239, 241, 251, 257, 263]
       + [269, 271, 277, 281, 283, 293, 307, 311])
  }

  function ToNat(w: Word): nat { w as nat }

  /** w is the square root of p in units of 2^-32, rounded down. */
  predicate IsSquareRoot(w: nat, p: nat) { w * w <= p * (TWO_32 * TWO_32) < (w + 1) * (w + 1) }

  predicate IsCubeRoot(w: nat, p: nat) {
    w * w * w <= p * (TWO_32 * TWO_32 * TWO_32) < (w + 1) * (w + 1) * (w + 1)
  }

  /** w is the root of the i-th prime, and word i has its low 32 bits: those of the fraction. */
  predicate SquareRootAt(i: nat, w: nat) {
    i < 8 && IsSquareRoot(w, Primes()[i]) && ToNat(H0()[i]) == w % TWO_32
  }

  predicate CubeRootAt(i: nat, w: nat) {
    i < 64 && IsCubeRoot(w, Primes()[i]) && ToNat(K()[i]) == w % TWO_32
  }

  // ---- The roots ----

  lemma SquareRoots()
    ensures SquareRootAt(0, 0x1_6a09e667) && SquareRootAt(1, 0x1_bb67ae85) && SquareRootAt(2, 0x2_3c6ef372) && SquareRootAt(3, 0x2_a54ff53a)
    ensures SquareRootAt(4, 0x3_510e527f) && SquareRootAt(5, 0x3_9b05688c) && SquareRootAt(6, 0x4_1f83d9ab) && SquareRootAt(7, 0x4_5be0cd19)
  {}

  lemma CubeRoots0()
    ensures CubeRootAt(0, 0x1_428a2f98) && CubeRootAt(1, 0x1_71374491) && CubeRootAt(2, 0x1_b5c0fbcf) && CubeRootAt(3, 0x1_e9b5dba5)
    ensures CubeRootAt(4, 0x2_3956c25b) && CubeRootAt(5, 0x2_59f111f1) && CubeRootAt(6, 0x2_923f82a4) && CubeRootAt(7, 0x2_ab1c5ed5)
  {}

  lemma CubeRoots1()
    ensures CubeRootAt(8, 0x2_d807aa98) && CubeRootAt(9, 0x3_12835b01) && CubeRootAt(10, 0x3_243185be) && CubeRootAt(11, 0x3_550c7dc3)
    ensures CubeRootAt(12, 0x3_72be5d74) && CubeRootAt(13, 0x3_80deb1fe) && CubeRootAt(14, 0x3_9bdc06a7) && CubeRootAt(15, 0x3_c19bf174)
  {}

  lemma CubeRoots2()
    ensures CubeRootAt(16, 0x3_e49b69c1) && CubeRootAt(17, 0x3_efbe4786) && CubeRootAt(18, 0x4_0fc19dc6) && CubeRootAt(19, 0x4_240ca1cc)
    ensures CubeRootAt(20, 0x4_2de92c6f) && CubeRootAt(21, 0x4_4a7484aa) && CubeRootAt(22, 0x4_5cb0a9dc) && CubeRootAt(23, 0x4_76f988da)
  {}

  lemma CubeRoots3()
    ensures CubeRootAt(24, 0x4_983e5152) && CubeRootAt(25, 0x4_a831c66d) && CubeRootAt(26, 0x4_b00327c8) && CubeRootAt(27, 0x4_bf597fc7)
    ensures CubeRootAt(28, 0x4_c6e00bf3) && CubeRootAt(29, 0x4_d5a79147) && CubeRootAt(30, 0x5_06ca6351) && CubeRootAt(31, 0x5_14292967)
  {}

  lemma CubeRoots4()
    ensures CubeRootAt(32, 0x5_27b70a85) && CubeRootAt(33, 0x5_2e1b2138) && CubeRootAt(34, 0x5_4d2c6dfc) && CubeRootAt(35, 0x5_53380d13)
    ensures CubeRootAt(36, 0x5_650a7354) && CubeRootAt(37, 0x5_766a0abb) && CubeRootAt(38, 0x5_81c2c92e) && CubeRootAt(39, 0x5_92722c85)
  {}

  lemma CubeRoots5()
    ensures CubeRootAt(40, 0x5_a2bfe8a1) && CubeRootAt(41, 0x5_a81a664b) && CubeRootAt(42, 0x5_c24b8b70) && CubeRootAt(43, 0x5_c76c51a3)
    ensures CubeRootAt(44, 0x5_d192e819) && CubeRootAt(45, 0x5_d6990624) && CubeRootAt(46, 0x5_f40e3585) && CubeRootAt(47, 0x6_106aa070)
  {}

  lemma CubeRoots6()
    ensures CubeRootAt(48, 0x6_19a4c116) && CubeRootAt(49, 0x6_1e376c08) && CubeRootAt(50, 0x6_2748774c) && CubeRootAt(51, 0x6_34b0bcb5)
    ensures CubeRootAt(52, 0x6_391c0cb3) && CubeRootAt(53, 0x6_4ed8aa4a) && CubeRootAt(54, 0x6_5b9cca4f) && CubeRootAt(55, 0x6_682e6ff3)
  {}

  lemma CubeRoots7()
    ensures CubeRootAt(56, 0x6_748f82ee) && CubeRootAt(57, 0x6_78a5636f) && CubeRootAt(58, 0x6_84c87814) && CubeRootAt(59, 0x6_8cc70208)
    ensures CubeRootAt(60, 0x6_90befffa) && CubeRootAt(61, 0x6_a4506ceb) && CubeRootAt(62, 0x6_bef9a3f7) && CubeRootAt(63, 0x6_c67178f2)
  {}

  lemma OneOfEight(i: nat, a: nat)
    requires a <= i < a + 8
    ensures i == a || i == a + 1 || i == a + 2 || i == a + 3 || i == a + 4 || i == a + 5 || i == a + 6 || i == a + 7
  {}

  /** Section 5.3.3: the initial hash value, from the square roots of the first 8 primes. */
  lemma InitialHash(i: nat)
    requires i < 8
    ensures exists w :: SquareRootAt(i, w)
  {
    hide SquareRootAt;
    SquareRoots();
    OneOfEight(i, 0);
  }

  /** Section 4.2.2: the round constants, from the cube roots of the first 64 primes. */
  lemma RoundConstants(i: nat)
    requires i < 64
    ensures exists w :: CubeRootAt(i, w)
  {
    hide CubeRootAt;
    if i < 8 {
      CubeRoots0();
      OneOfEight(i, 0);
    } else if i < 16 {
      CubeRoots1();
      OneOfEight(i, 8);
    } else if i < 24 {
      CubeRoots2();
      OneOfEight(i, 16);
    } else if i < 32 {
      CubeRoots3();
      OneOfEight(i, 24);
    } else if i < 40 {
      CubeRoots4();
      OneOfEight(i, 32);
    } else if i < 48 {
      CubeRoots5();
      OneOfEight(i, 40);
    } else if i < 56 {
      CubeRoots6();
      OneOfEight(i, 48);
    } else {
      CubeRoots7();
      OneOfEight(i, 56);
    }
  }

  // ---- Ch and Maj, bit by bit ----

  /** Section 4.1.2: where x has ones, Ch takes the bits of y, and where it has zeros those of z. */
  lemma ChBits(x: Word, y: Word, z: Word)
    ensures Ch(x, y, z) & x == y & x
    ensures Ch(x, y, z) & !x == z & !x
  {}

  /** Where x and y agree, Maj takes their bit, and where they differ that of z: the bit two of the three agree on. */
  lemma MajBits(x: Word, y: Word, z: Word)
    ensures Maj(x, y, z) & !(x ^ y) == x & !(x ^ y)
    ensures Maj(x, y, z) & (x ^ y) == z & (x ^ y)
  {
    hide Maj;
    MajAgree(x, y, z);
    MajDiffer(x, y, z);
  }

  lemma MajAgree(x: Word, y: Word, z: Word)
    ensures Maj(x, y, z) & !(x ^ y) == x & !(x ^ y)
  {}

  lemma MajDiffer(x: Word, y: Word, z: Word)
    ensures Maj(x, y, z) & (x ^ y) == z & (x ^ y)
  {}
}
