/** The published one-block example of SHA-256, the message abc, worked through round by round. */
module Sha256Example {
  import opened Sha256

  const ABC: seq<Byte> := [0x61, 0x62, 0x63]

  /** The message, the 1 bit, zeros, and 24, its length in bits. */
  function Block(): (b: seq<Byte>)
    ensures |b| == 64
  {
    [0x61, 0x62, 0x63, 0x80] + seq(59, _ => 0) + [0x18]
  }

  // ---- The message schedule ----

  ghost predicate W(t: nat, w: Word) { t < 64 && Schedule(Block(), t) == w }

  lemma FirstWords()
    ensures W(0, 0x61626380) && W(15, 0x00000018)
    ensures forall t :: 1 <= t < 15 ==> W(t, 0x00000000)
  {}

  lemma NextWord(t: nat, w16: Word, w15: Word, w7: Word, w2: Word, w: Word)
    requires 16 <= t && W(t - 16, w16) && W(t - 15, w15) && W(t - 7, w7) && W(t - 2, w2)
    requires t < 64 && w == Sum4(Sigma1(w2), w7, Sigma0(w15), w16)
    ensures W(t, w)
  {
    hide Block, Sum4, Sigma0, Sigma1;
  }

  lemma Words16()
    ensures W(16, 0x61626380) && W(17, 0x000f0000) && W(18, 0x7da86405) && W(19, 0x600003c6)
    ensures W(20, 0x3e9d7b78) && W(21, 0x0183fc00) && W(22, 0x12dcbfdb) && W(23, 0xe2e2c38e)
    ensures W(24, 0xc8215c1a) && W(25, 0xb73679a2) && W(26, 0xe5bc3909) && W(27, 0x32663c5b)
    ensures W(28, 0x9d209d67) && W(29, 0xec8726cb) && W(30, 0x702138a4) && W(31, 0xd3b7973b)
  {
    hide W;
    FirstWords();
    NextWord(16, 0x61626380, 0x00000000, 0x00000000, 0x00000000, 0x61626380);
    NextWord(17, 0x00000000, 0x00000000, 0x00000000, 0x00000018, 0x000f0000);
    NextWord(18, 0x00000000, 0x00000000, 0x00000000, 0x61626380, 0x7da86405);
    NextWord(19, 0x00000000, 0x00000000, 0x00000000, 0x000f0000, 0x600003c6);
    NextWord(20, 0x00000000, 0x00000000, 0x00000000, 0x7da86405, 0x3e9d7b78);
    NextWord(21, 0x00000000, 0x00000000, 0x00000000, 0x600003c6, 0x0183fc00);
    NextWord(22, 0x00000000, 0x00000000, 0x00000018, 0x3e9d7b78, 0x12dcbfdb);
    NextWord(23, 0x00000000, 0x00000000, 0x61626380, 0x0183fc00, 0xe2e2c38e);
    NextWord(24, 0x00000000, 0x00000000, 0x000f0000, 0x12dcbfdb, 0xc8215c1a);
    NextWord(25, 0x00000000, 0x00000000, 0x7da86405, 0xe2e2c38e, 0xb73679a2);
    NextWord(26, 0x00000000, 0x00000000, 0x600003c6, 0xc8215c1a, 0xe5bc3909);
    NextWord(27, 0x00000000, 0x00000000, 0x3e9d7b78, 0xb73679a2, 0x32663c5b);
    NextWord(28, 0x00000000, 0x00000000, 0x0183fc00, 0xe5bc3909, 0x9d209d67);
    NextWord(29, 0x00000000, 0x00000000, 0x12dcbfdb, 0x32663c5b, 0xec8726cb);
    NextWord(30, 0x00000000, 0x00000018, 0xe2e2c38e, 0x9d209d67, 0x702138a4);
    NextWord(31, 0x00000018, 0x61626380, 0xc8215c1a, 0xec8726cb, 0xd3b7973b);
  }

  lemma Words32()
    ensures W(32, 0x93f5997f) && W(33, 0x3b68ba73) && W(34, 0xaff4ffc1) && W(35, 0xf10a5c62)
    ensures W(36, 0x0a8b3996) && W(37, 0x72af830a) && W(38, 0x9409e33e) && W(39, 0x24641522)
    ensures W(40, 0x9f47bf94) && W(41, 0xf0a64f5a) && W(42, 0x3e246a79) && W(43, 0x27333ba3)
    ensures W(44, 0x0c4763f2) && W(45, 0x840abf27) && W(46, 0x7a290d5d) && W(47, 0x065c43da)
  {
    hide W;
    Words16();
    NextWord(32, 0x61626380, 0x000f0000, 0xb73679a2, 0x702138a4, 0x93f5997f);
    NextWord(33, 0x000f0000, 0x7da86405, 0xe5bc3909, 0xd3b7973b, 0x3b68ba73);
    NextWord(34, 0x7da86405, 0x600003c6, 0x32663c5b, 0x93f5997f, 0xaff4ffc1);
    NextWord(35, 0x600003c6, 0x3e9d7b78, 0x9d209d67, 0x3b68ba73, 0xf10a5c62);
    NextWord(36, 0x3e9d7b78, 0x0183fc00, 0xec8726cb, 0xaff4ffc1, 0x0a8b3996);
    NextWord(37, 0x0183fc00, 0x12dcbfdb, 0x702138a4, 0xf10a5c62, 0x72af830a);
    NextWord(38, 0x12dcbfdb, 0xe2e2c38e, 0xd3b7973b, 0x0a8b3996, 0x9409e33e);
    NextWord(39, 0xe2e2c38e, 0xc8215c1a, 0x93f5997f, 0x72af830a, 0x24641522);
    NextWord(40, 0xc8215c1a, 0xb73679a2, 0x3b68ba73, 0x9409e33e, 0x9f47bf94);
    NextWord(41, 0xb73679a2, 0xe5bc3909, 0xaff4ffc1, 0x24641522, 0xf0a64f5a);
    NextWord(42, 0xe5bc3909, 0x32663c5b, 0xf10a5c62, 0x9f47bf94, 0x3e246a79);
    NextWord(43, 0x32663c5b, 0x9d209d67, 0x0a8b3996, 0xf0a64f5a, 0x27333ba3);
    NextWord(44, 0x9d209d67, 0xec8726cb, 0x72af830a, 0x3e246a79, 0x0c4763f2);
    NextWord(45, 0xec8726cb, 0x702138a4, 0x9409e33e, 0x27333ba3, 0x840abf27);
    NextWord(46, 0x702138a4, 0xd3b7973b, 0x24641522, 0x0c4763f2, 0x7a290d5d);
    NextWord(47, 0xd3b7973b, 0x93f5997f, 0x9f47bf94, 0x840abf27, 0x065c43da);
  }

  lemma Words48()
    ensures W(48, 0xfb3e89cb) && W(49, 0xcc7617db) && W(50, 0xb9e66c34) && W(51, 0xa9993667)
    ensures W(52, 0x84badedd) && W(53, 0xc21462bc) && W(54, 0x1487472c) && W(55, 0xb20f7a99)
    ensures W(56, 0xef57b9cd) && W(57, 0xebe6b238) && W(58, 0x9fe3095e) && W(59, 0x78bc8d4b)
    ensures W(60, 0xa43fcf15) && W(61, 0x668b2ff8) && W(62, 0xeeaba2cc) && W(63, 0x12b1edeb)
  {
    hide W;
    Words32();
    NextWord(48, 0x93f5997f, 0x3b68ba73, 0xf0a64f5a, 0x7a290d5d, 0xfb3e89cb);
    NextWord(49, 0x3b68ba73, 0xaff4ffc1, 0x3e246a79, 0x065c43da, 0xcc7617db);
    NextWord(50, 0xaff4ffc1, 0xf10a5c62, 0x27333ba3, 0xfb3e89cb, 0xb9e66c34);
    NextWord(51, 0xf10a5c62, 0x0a8b3996, 0x0c4763f2, 0xcc7617db, 0xa9993667);
    NextWord(52, 0x0a8b3996, 0x72af830a, 0x840abf27, 0xb9e66c34, 0x84badedd);
    NextWord(53, 0x72af830a, 0x9409e33e, 0x7a290d5d, 0xa9993667, 0xc21462bc);
    NextWord(54, 0x9409e33e, 0x24641522, 0x065c43da, 0x84badedd, 0x1487472c);
    NextWord(55, 0x24641522, 0x9f47bf94, 0xfb3e89cb, 0xc21462bc, 0xb20f7a99);
    NextWord(56, 0x9f47bf94, 0xf0a64f5a, 0xcc7617db, 0x1487472c, 0xef57b9cd);
    NextWord(57, 0xf0a64f5a, 0x3e246a79, 0xb9e66c34, 0xb20f7a99, 0xebe6b238);
    NextWord(58, 0x3e246a79, 0x27333ba3, 0xa9993667, 0xef57b9cd, 0x9fe3095e);
    NextWord(59, 0x27333ba3, 0x0c4763f2, 0x84badedd, 0xebe6b238, 0x78bc8d4b);
    NextWord(60, 0x0c4763f2, 0x840abf27, 0xc21462bc, 0x9fe3095e, 0xa43fcf15);
    NextWord(61, 0x840abf27, 0x7a290d5d, 0x1487472c, 0x78bc8d4b, 0x668b2ff8);
    NextWord(62, 0x7a290d5d, 0x065c43da, 0xb20f7a99, 0xa43fcf15, 0xeeaba2cc);
    NextWord(63, 0x065c43da, 0xfb3e89cb, 0xef57b9cd, 0x668b2ff8, 0x12b1edeb);
  }

  // ---- The rounds ----

  ghost predicate Reached(t: nat, a: Word, b: Word, c: Word, d: Word, e: Word, f: Word, g: Word, h: Word) {
    t <= 64 && Rounds(FromWords(H0()), Block(), t) == State(a, b, c, d, e, f, g, h)
  }

  /** One round, which gives a new first and a new fifth word. */
  lemma Go(t: nat, k: Word, w: Word, a: Word, b: Word, c: Word, d: Word, e: Word, f: Word, g: Word, h: Word, a': Word, e': Word)
    requires t < 64 && K()[t] == k && W(t, w) && Reached(t, a, b, c, d, e, f, g, h)
    requires Round(State(a, b, c, d, e, f, g, h), k, w) == State(a', a, b, c, e', e, f, g)
    ensures Reached(t + 1, a', a, b, c, e', e, f, g)
  {
    hide Round, Block, Schedule, K;
  }

  lemma NoRound()
    ensures Reached(0, 0x6a09e667, 0xbb67ae85, 0x3c6ef372, 0xa54ff53a, 0x510e527f, 0x9b05688c, 0x1f83d9ab, 0x5be0cd19)
  {
    hide Block;
  }

  lemma Rounds8()
    ensures Reached(8, 0x85a07b5f, 0xe5030380, 0x2b4209f5, 0x04409a6a, 0x0c657a79, 0x9b27a401, 0x714260ad, 0x43ada245)
  {
    hide W, Reached;
    NoRound(); FirstWords();
    Go(0, 0x428a2f98, 0x61626380, 0x6a09e667, 0xbb67ae85, 0x3c6ef372, 0xa54ff53a, 0x510e527f, 0x9b05688c, 0x1f83d9ab, 0x5be0cd19, 0x5d6aebcd, 0xfa2a4622);
    Go(1, 0x71374491, 0x00000000, 0x5d6aebcd, 0x6a09e667, 0xbb67ae85, 0x3c6ef372, 0xfa2a4622, 0x510e527f, 0x9b05688c, 0x1f83d9ab, 0x5a6ad9ad, 0x78ce7989);
    Go(2, 0xb5c0fbcf, 0x00000000, 0x5a6ad9ad, 0x5d6aebcd, 0x6a09e667, 0xbb67ae85, 0x78ce7989, 0xfa2a4622, 0x510e527f, 0x9b05688c, 0xc8c347a7, 0xf92939eb);
    Go(3, 0xe9b5dba5, 0x00000000, 0xc8c347a7, 0x5a6ad9ad, 0x5d6aebcd, 0x6a09e667, 0xf92939eb, 0x78ce7989, 0xfa2a4622, 0x510e527f, 0xd550f666, 0x24e00850);
    Go(4, 0x3956c25b, 0x00000000, 0xd550f666, 0xc8c347a7, 0x5a6ad9ad, 0x5d6aebcd, 0x24e00850, 0xf92939eb, 0x78ce7989, 0xfa2a4622, 0x04409a6a, 0x43ada245);
    Go(5, 0x59f111f1, 0x00000000, 0x04409a6a, 0xd550f666, 0xc8c347a7, 0x5a6ad9ad, 0x43ada245, 0x24e00850, 0xf92939eb, 0x78ce7989, 0x2b4209f5, 0x714260ad);
    Go(6, 0x923f82a4, 0x00000000, 0x2b4209f5, 0x04409a6a, 0xd550f666, 0xc8c347a7, 0x714260ad, 0x43ada245, 0x24e00850, 0xf92939eb, 0xe5030380, 0x9b27a401);
    Go(7, 0xab1c5ed5, 0x00000000, 0xe5030380, 0x2b4209f5, 0x04409a6a, 0xd550f666, 0x9b27a401, 0x714260ad, 0x43ada245, 0x24e00850, 0x85a07b5f, 0x0c657a79);
  }

  lemma Rounds16()
    ensures Reached(16, 0xb0fa238e, 0xc0645fde, 0xd932eb16, 0x87912990, 0x07590dcd, 0x0b92f20c, 0x745a48de, 0x1e578218)
  {
    hide W, Reached;
    Rounds8(); FirstWords();
    Go(8, 0xd807aa98, 0x00000000, 0x85a07b5f, 0xe5030380, 0x2b4209f5, 0x04409a6a, 0x0c657a79, 0x9b27a401, 0x714260ad, 0x43ada245, 0x8e04ecb9, 0x32ca2d8c);
    Go(9, 0x12835b01, 0x00000000, 0x8e04ecb9, 0x85a07b5f, 0xe5030380, 0x2b4209f5, 0x32ca2d8c, 0x0c657a79, 0x9b27a401, 0x714260ad, 0x8c87346b, 0x1cc92596);
    Go(10, 0x243185be, 0x00000000, 0x8c87346b, 0x8e04ecb9, 0x85a07b5f, 0xe5030380, 0x1cc92596, 0x32ca2d8c, 0x0c657a79, 0x9b27a401, 0x4798a3f4, 0x436b23e8);
    Go(11, 0x550c7dc3, 0x00000000, 0x4798a3f4, 0x8c87346b, 0x8e04ecb9, 0x85a07b5f, 0x436b23e8, 0x1cc92596, 0x32ca2d8c, 0x0c657a79, 0xf71fc5a9, 0x816fd6e9);
    Go(12, 0x72be5d74, 0x00000000, 0xf71fc5a9, 0x4798a3f4, 0x8c87346b, 0x8e04ecb9, 0x816fd6e9, 0x436b23e8, 0x1cc92596, 0x32ca2d8c, 0x87912990, 0x1e578218);
    Go(13, 0x80deb1fe, 0x00000000, 0x87912990, 0xf71fc5a9, 0x4798a3f4, 0x8c87346b, 0x1e578218, 0x816fd6e9, 0x436b23e8, 0x1cc92596, 0xd932eb16, 0x745a48de);
    Go(14, 0x9bdc06a7, 0x00000000, 0xd932eb16, 0x87912990, 0xf71fc5a9, 0x4798a3f4, 0x745a48de, 0x1e578218, 0x816fd6e9, 0x436b23e8, 0xc0645fde, 0x0b92f20c);
    Go(15, 0xc19bf174, 0x00000018, 0xc0645fde, 0xd932eb16, 0x87912990, 0xf71fc5a9, 0x0b92f20c, 0x745a48de, 0x1e578218, 0x816fd6e9, 0xb0fa238e, 0x07590dcd);
  }

  lemma Rounds24()
    ensures Reached(24, 0xc5d53d8d, 0xa7a3623f, 0xc2606d6d, 0x9dc68b63, 0xaa47c347, 0x49f5114a, 0xe1257970, 0x8ada8930)
  {
    hide W, Reached;
    Rounds16(); Words16();
    Go(16, 0xe49b69c1, 0x61626380, 0xb0fa238e, 0xc0645fde, 0xd932eb16, 0x87912990, 0x07590dcd, 0x0b92f20c, 0x745a48de, 0x1e578218, 0x21da9a9b, 0x8034229c);
    Go(17, 0xefbe4786, 0x000f0000, 0x21da9a9b, 0xb0fa238e, 0xc0645fde, 0xd932eb16, 0x8034229c, 0x07590dcd, 0x0b92f20c, 0x745a48de, 0xc2fbd9d1, 0x846ee454);
    Go(18, 0x0fc19dc6, 0x7da86405, 0xc2fbd9d1, 0x21da9a9b, 0xb0fa238e, 0xc0645fde, 0x846ee454, 0x8034229c, 0x07590dcd, 0x0b92f20c, 0xfe777bbf, 0xcc899961);
    Go(19, 0x240ca1cc, 0x600003c6, 0xfe777bbf, 0xc2fbd9d1, 0x21da9a9b, 0xb0fa238e, 0xcc899961, 0x846ee454, 0x8034229c, 0x07590dcd, 0xe1f20c33, 0xb0638179);
    Go(20, 0x2de92c6f, 0x3e9d7b78, 0xe1f20c33, 0xfe777bbf, 0xc2fbd9d1, 0x21da9a9b, 0xb0638179, 0xcc899961, 0x846ee454, 0x8034229c, 0x9dc68b63, 0x8ada8930);
    Go(21, 0x4a7484aa, 0x0183fc00, 0x9dc68b63, 0xe1f20c33, 0xfe777bbf, 0xc2fbd9d1, 0x8ada8930, 0xb0638179, 0xcc899961, 0x846ee454, 0xc2606d6d, 0xe1257970);
    Go(22, 0x5cb0a9dc, 0x12dcbfdb, 0xc2606d6d, 0x9dc68b63, 0xe1f20c33, 0xfe777bbf, 0xe1257970, 0x8ada8930, 0xb0638179, 0xcc899961, 0xa7a3623f, 0x49f5114a);
    Go(23, 0x76f988da, 0xe2e2c38e, 0xa7a3623f, 0xc2606d6d, 0x9dc68b63, 0xe1f20c33, 0x49f5114a, 0xe1257970, 0x8ada8930, 0xb0638179, 0xc5d53d8d, 0xaa47c347);
  }

  lemma Rounds32()
    ensures Reached(32, 0x73b33bf5, 0xea992a22, 0xa0060b30, 0x363482c9, 0xba591112, 0x0109ab3a, 0xade79437, 0x6112a3b7)
  {
    hide W, Reached;
    Rounds24(); Words16();
    Go(24, 0x983e5152, 0xc8215c1a, 0xc5d53d8d, 0xa7a3623f, 0xc2606d6d, 0x9dc68b63, 0xaa47c347, 0x49f5114a, 0xe1257970, 0x8ada8930, 0x1c2c2838, 0x2823ef91);
    Go(25, 0xa831c66d, 0xb73679a2, 0x1c2c2838, 0xc5d53d8d, 0xa7a3623f, 0xc2606d6d, 0x2823ef91, 0xaa47c347, 0x49f5114a, 0xe1257970, 0xcde8037d, 0x14383d8e);
    Go(26, 0xb00327c8, 0xe5bc3909, 0xcde8037d, 0x1c2c2838, 0xc5d53d8d, 0xa7a3623f, 0x14383d8e, 0x2823ef91, 0xaa47c347, 0x49f5114a, 0xb62ec4bc, 0xc74c6516);
    Go(27, 0xbf597fc7, 0x32663c5b, 0xb62ec4bc, 0xcde8037d, 0x1c2c2838, 0xc5d53d8d, 0xc74c6516, 0x14383d8e, 0x2823ef91, 0xaa47c347, 0x77d37528, 0xedffbff8);
    Go(28, 0xc6e00bf3, 0x9d209d67, 0x77d37528, 0xb62ec4bc, 0xcde8037d, 0x1c2c2838, 0xedffbff8, 0xc74c6516, 0x14383d8e, 0x2823ef91, 0x363482c9, 0x6112a3b7);
    Go(29, 0xd5a79147, 0xec8726cb, 0x363482c9, 0x77d37528, 0xb62ec4bc, 0xcde8037d, 0x6112a3b7, 0xedffbff8, 0xc74c6516, 0x14383d8e, 0xa0060b30, 0xade79437);
    Go(30, 0x06ca6351, 0x702138a4, 0xa0060b30, 0x363482c9, 0x77d37528, 0xb62ec4bc, 0xade79437, 0x6112a3b7, 0xedffbff8, 0xc74c6516, 0xea992a22, 0x0109ab3a);
    Go(31, 0x14292967, 0xd3b7973b, 0xea992a22, 0xa0060b30, 0x363482c9, 0x77d37528, 0x0109ab3a, 0xade79437, 0x6112a3b7, 0xedffbff8, 0x73b33bf5, 0xba591112);
  }

  lemma Rounds40()
    ensures Reached(40, 0x79ea687a, 0x6dc57a8a, 0x34df1604, 0x41a65cb1, 0x1efbc0a0, 0xf0781bc8, 0xa507a53d, 0x0772a26b)
  {
    hide W, Reached;
    Rounds32(); Words32();
    Go(32, 0x27b70a85, 0x93f5997f, 0x73b33bf5, 0xea992a22, 0xa0060b30, 0x363482c9, 0xba591112, 0x0109ab3a, 0xade79437, 0x6112a3b7, 0x98e12507, 0x9cd9f5f6);
    Go(33, 0x2e1b2138, 0x3b68ba73, 0x98e12507, 0x73b33bf5, 0xea992a22, 0xa0060b30, 0x9cd9f5f6, 0xba591112, 0x0109ab3a, 0xade79437, 0xfe604df5, 0x59249dd3);
    Go(34, 0x4d2c6dfc, 0xaff4ffc1, 0xfe604df5, 0x98e12507, 0x73b33bf5, 0xea992a22, 0x59249dd3, 0x9cd9f5f6, 0xba591112, 0x0109ab3a, 0xa9a7738c, 0x085f3833);
    Go(35, 0x53380d13, 0xf10a5c62, 0xa9a7738c, 0xfe604df5, 0x98e12507, 0x73b33bf5, 0x085f3833, 0x59249dd3, 0x9cd9f5f6, 0xba591112, 0x65a0cfe4, 0xf4b002d6);
    Go(36, 0x650a7354, 0x0a8b3996, 0x65a0cfe4, 0xa9a7738c, 0xfe604df5, 0x98e12507, 0xf4b002d6, 0x085f3833, 0x59249dd3, 0x9cd9f5f6, 0x41a65cb1, 0x0772a26b);
    Go(37, 0x766a0abb, 0x72af830a, 0x41a65cb1, 0x65a0cfe4, 0xa9a7738c, 0xfe604df5, 0x0772a26b, 0xf4b002d6, 0x085f3833, 0x59249dd3, 0x34df1604, 0xa507a53d);
    Go(38, 0x81c2c92e, 0x9409e33e, 0x34df1604, 0x41a65cb1, 0x65a0cfe4, 0xa9a7738c, 0xa507a53d, 0x0772a26b, 0xf4b002d6, 0x085f3833, 0x6dc57a8a, 0xf0781bc8);
    Go(39, 0x92722c85, 0x24641522, 0x6dc57a8a, 0x34df1604, 0x41a65cb1, 0x65a0cfe4, 0xf0781bc8, 0xa507a53d, 0x0772a26b, 0xf4b002d6, 0x79ea687a, 0x1efbc0a0);
  }

  lemma Rounds48()
    ensures Reached(48, 0x4172328d, 0xa14c14b0, 0x72ab4b91, 0x26628815, 0xfecf0bc6, 0xd57b94a9, 0xb7755da1, 0xa80f11f0)
  {
    hide W, Reached;
    Rounds40(); Words32();
    Go(40, 0xa2bfe8a1, 0x9f47bf94, 0x79ea687a, 0x6dc57a8a, 0x34df1604, 0x41a65cb1, 0x1efbc0a0, 0xf0781bc8, 0xa507a53d, 0x0772a26b, 0xd6670766, 0x26352d63);
    Go(41, 0xa81a664b, 0xf0a64f5a, 0xd6670766, 0x79ea687a, 0x6dc57a8a, 0x34df1604, 0x26352d63, 0x1efbc0a0, 0xf0781bc8, 0xa507a53d, 0xdf46652f, 0x838b2711);
    Go(42, 0xc24b8b70, 0x3e246a79, 0xdf46652f, 0xd6670766, 0x79ea687a, 0x6dc57a8a, 0x838b2711, 0x26352d63, 0x1efbc0a0, 0xf0781bc8, 0x17aa0dfe, 0xdecd4715);
    Go(43, 0xc76c51a3, 0x27333ba3, 0x17aa0dfe, 0xdf46652f, 0xd6670766, 0x79ea687a, 0xdecd4715, 0x838b2711, 0x26352d63, 0x1efbc0a0, 0x9d4baf93, 0xfda24c2e);
    Go(44, 0xd192e819, 0x0c4763f2, 0x9d4baf93, 0x17aa0dfe, 0xdf46652f, 0xd6670766, 0xfda24c2e, 0xdecd4715, 0x838b2711, 0x26352d63, 0x26628815, 0xa80f11f0);
    Go(45, 0xd6990624, 0x840abf27, 0x26628815, 0x9d4baf93, 0x17aa0dfe, 0xdf46652f, 0xa80f11f0, 0xfda24c2e, 0xdecd4715, 0x838b2711, 0x72ab4b91, 0xb7755da1);
    Go(46, 0xf40e3585, 0x7a290d5d, 0x72ab4b91, 0x26628815, 0x9d4baf93, 0x17aa0dfe, 0xb7755da1, 0xa80f11f0, 0xfda24c2e, 0xdecd4715, 0xa14c14b0, 0xd57b94a9);
    Go(47, 0x106aa070, 0x065c43da, 0xa14c14b0, 0x72ab4b91, 0x26628815, 0x9d4baf93, 0xd57b94a9, 0xb7755da1, 0xa80f11f0, 0xfda24c2e, 0x4172328d, 0xfecf0bc6);
  }

  lemma Rounds56()
    ensures Reached(56, 0x38cc9913, 0x3ec45cdb, 0xf5702fdb, 0x101fd28f, 0x54cb266b, 0xe50e1b4f, 0x9f4787c3, 0x529e7d00)
  {
    hide W, Reached;
    Rounds48(); Words48();
    Go(48, 0x19a4c116, 0xfb3e89cb, 0x4172328d, 0xa14c14b0, 0x72ab4b91, 0x26628815, 0xfecf0bc6, 0xd57b94a9, 0xb7755da1, 0xa80f11f0, 0x05757ceb, 0xbd714038);
    Go(49, 0x1e376c08, 0xcc7617db, 0x05757ceb, 0x4172328d, 0xa14c14b0, 0x72ab4b91, 0xbd714038, 0xfecf0bc6, 0xd57b94a9, 0xb7755da1, 0xf11bfaa8, 0x6e5c390c);
    Go(50, 0x2748774c, 0xb9e66c34, 0xf11bfaa8, 0x05757ceb, 0x4172328d, 0xa14c14b0, 0x6e5c390c, 0xbd714038, 0xfecf0bc6, 0xd57b94a9, 0x7a0508a1, 0x52f1ccf7);
    Go(51, 0x34b0bcb5, 0xa9993667, 0x7a0508a1, 0xf11bfaa8, 0x05757ceb, 0x4172328d, 0x52f1ccf7, 0x6e5c390c, 0xbd714038, 0xfecf0bc6, 0x886e7a22, 0x49231c1e);
    Go(52, 0x391c0cb3, 0x84badedd, 0x886e7a22, 0x7a0508a1, 0xf11bfaa8, 0x05757ceb, 0x49231c1e, 0x52f1ccf7, 0x6e5c390c, 0xbd714038, 0x101fd28f, 0x529e7d00);
    Go(53, 0x4ed8aa4a, 0xc21462bc, 0x101fd28f, 0x886e7a22, 0x7a0508a1, 0xf11bfaa8, 0x529e7d00, 0x49231c1e, 0x52f1ccf7, 0x6e5c390c, 0xf5702fdb, 0x9f4787c3);
    Go(54, 0x5b9cca4f, 0x1487472c, 0xf5702fdb, 0x101fd28f, 0x886e7a22, 0x7a0508a1, 0x9f4787c3, 0x529e7d00, 0x49231c1e, 0x52f1ccf7, 0x3ec45cdb, 0xe50e1b4f);
    Go(55, 0x682e6ff3, 0xb20f7a99, 0x3ec45cdb, 0xf5702fdb, 0x101fd28f, 0x886e7a22, 0xe50e1b4f, 0x9f4787c3, 0x529e7d00, 0x49231c1e, 0x38cc9913, 0x54cb266b);
  }

  lemma Rounds64()
    ensures Reached(64, 0x506e3058, 0xd39a2165, 0x04d24d6c, 0xb85e2ce9, 0x5ef50f24, 0xfb121210, 0x948d25b6, 0x961f4894)
  {
    hide W, Reached;
    Rounds56(); Words48();
    Go(56, 0x748f82ee, 0xef57b9cd, 0x38cc9913, 0x3ec45cdb, 0xf5702fdb, 0x101fd28f, 0x54cb266b, 0xe50e1b4f, 0x9f4787c3, 0x529e7d00, 0xfcd1887b, 0x9b5e906c);
    Go(57, 0x78a5636f, 0xebe6b238, 0xfcd1887b, 0x38cc9913, 0x3ec45cdb, 0xf5702fdb, 0x9b5e906c, 0x54cb266b, 0xe50e1b4f, 0x9f4787c3, 0xc062d46f, 0x7e44008e);
    Go(58, 0x84c87814, 0x9fe3095e, 0xc062d46f, 0xfcd1887b, 0x38cc9913, 0x3ec45cdb, 0x7e44008e, 0x9b5e906c, 0x54cb266b, 0xe50e1b4f, 0xffb70472, 0x6d83bfc6);
    Go(59, 0x8cc70208, 0x78bc8d4b, 0xffb70472, 0xc062d46f, 0xfcd1887b, 0x38cc9913, 0x6d83bfc6, 0x7e44008e, 0x9b5e906c, 0x54cb266b, 0xb6ae8fff, 0xb21bad3d);
    Go(60, 0x90befffa, 0xa43fcf15, 0xb6ae8fff, 0xffb70472, 0xc062d46f, 0xfcd1887b, 0xb21bad3d, 0x6d83bfc6, 0x7e44008e, 0x9b5e906c, 0xb85e2ce9, 0x961f4894);
    Go(61, 0xa4506ceb, 0x668b2ff8, 0xb85e2ce9, 0xb6ae8fff, 0xffb70472, 0xc062d46f, 0x961f4894, 0xb21bad3d, 0x6d83bfc6, 0x7e44008e, 0x04d24d6c, 0x948d25b6);
    Go(62, 0xbef9a3f7, 0xeeaba2cc, 0x04d24d6c, 0xb85e2ce9, 0xb6ae8fff, 0xffb70472, 0x948d25b6, 0x961f4894, 0xb21bad3d, 0x6d83bfc6, 0xd39a2165, 0xfb121210);
    Go(63, 0xc67178f2, 0x12b1edeb, 0xd39a2165, 0x04d24d6c, 0xb85e2ce9, 0xb6ae8fff, 0xfb121210, 0x948d25b6, 0x961f4894, 0xb21bad3d, 0x506e3058, 0x5ef50f24);
  }

  // ---- The digest ----

  lemma BlockIs()
    ensures ABC + Padding(3) == Block()
  {
    hide Length64;
    LengthIs();
    assert ZeroBytes(3) == 52;
  }

  lemma LengthIs()
    ensures Length64(24) == [0, 0, 0, 0, 0, 0, 0, 24]
  {
    hide Length64;
    Halves(24);
    assert FourOctets(0) == [0, 0, 0, 0] && FourOctets(24) == [0, 0, 0, 24];
  }

  lemma Sums()
    ensures Add(0x6a09e667, 0x506e3058) == 0xba7816bf
    ensures Add(0xbb67ae85, 0xd39a2165) == 0x8f01cfea
    ensures Add(0x3c6ef372, 0x04d24d6c) == 0x414140de
    ensures Add(0xa54ff53a, 0xb85e2ce9) == 0x5dae2223
    ensures Add(0x510e527f, 0x5ef50f24) == 0xb00361a3
    ensures Add(0x9b05688c, 0xfb121210) == 0x96177a9c
    ensures Add(0x1f83d9ab, 0x948d25b6) == 0xb410ff61
    ensures Add(0x5be0cd19, 0x961f4894) == 0xf20015ad
  {}

  lemma Compressed()
    ensures Compress(H0(), Block()) == [0xba7816bf, 0x8f01cfea, 0x414140de, 0x5dae2223, 0xb00361a3, 0x96177a9c, 0xb410ff61, 0xf20015ad]
  {
    hide Block, Rounds, Add;
    Rounds64();
    Sums();
  }

  /** SHA-256 of abc, as FIPS 180-4 publishes it. */
  lemma DigestOfAbc()
    ensures Digest(ABC) == [0xba7816bf, 0x8f01cfea, 0x414140de, 0x5dae2223, 0xb00361a3, 0x96177a9c, 0xb410ff61, 0xf20015ad]
  {
    hide Padding, Absorb, Compress, Block;
    BlockIs();
    AbsorbNothing();
    AbsorbBlock(H0(), [], Block());
    assert [] + Block() == Block();
    Compressed();
  }
}
