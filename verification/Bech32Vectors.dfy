/** The bech32 encoder on test vectors of BIP-173, and its table and register in literals. */
module Bech32Vectors {
  import opened Wrappers
  import opened Bech32
  import B = BitGroups
  import C = Checksum
  import FiveBits

  // ---- symbols ----

  /** The character of each value, as the table of BIP-173 has it. */
  lemma SymbolsExactly(v: B.Byte)
    requires v < 32
    ensures Char(v) == match v
      case 0 => 'q' case 1 => 'p' case 2 => 'z' case 3 => 'r' case 4 => 'y' case 5 => '9' case 6 => 'x' case 7 => '8'
      case 8 => 'g' case 9 => 'f' case 10 => '2' case 11 => 't' case 12 => 'v' case 13 => 'd' case 14 => 'w'
      case 15 => '0' case 16 => 's' case 17 => '3' case 18 => 'j' case 19 => 'n' case 20 => '5' case 21 => '4'
      case 22 => 'k' case 23 => 'h' case 24 => 'c' case 25 => 'e' case 26 => '6' case 27 => 'm' case 28 => 'u'
      case 29 => 'a' case 30 => '7' case _ => 'l'
  {
  }

  // ---- the register ----

  /** What one feedback word adds if its bit has been shifted out. */
  function Fed(chk: bv32, bit: bv32, word: bv32): bv32 {
    if chk & bit != 0 then word else 0
  }

  /** One step of the register of BIP-173. */
  function Fed5(chk: bv32, v: bv32): bv32 {
    var a, b := Fed(chk, 0x200_0000, 0x3b6a57b2), Fed(chk, 0x400_0000, 0x26508e6d);
    var c, d := Fed(chk, 0x800_0000, 0x1ea119fa), Fed(chk, 0x1000_0000, 0x3d4233dd);
    var e := Fed(chk, 0x2000_0000, 0x2a1462b3);
    C.Xor(C.Xor((chk & 0x1ffffff) << 5, v), C.Xor(C.Xor(C.Xor(C.Xor(a, b), c), d), e))
  }

  lemma TapsExactly(top: bv32)
    ensures C.Taps(top, 5)
         == C.Xor(C.Xor(C.Xor(C.Xor(C.Tap(top, 0), C.Tap(top, 1)), C.Tap(top, 2)), C.Tap(top, 3)), C.Tap(top, 4))
  {
    hide C.Tap, C.Xor;
    assert C.Taps(top, 0) == 0;
    C.XorUnit(C.Tap(top, 0));
    assert C.Taps(top, 1) == C.Xor(C.Taps(top, 0), C.Tap(top, 0));
    assert C.Taps(top, 2) == C.Xor(C.Taps(top, 1), C.Tap(top, 1));
    assert C.Taps(top, 3) == C.Xor(C.Taps(top, 2), C.Tap(top, 2));
    assert C.Taps(top, 4) == C.Xor(C.Taps(top, 3), C.Tap(top, 3));
  }

  lemma TapExactly(chk: bv32)
    ensures C.Tap(C.Top(chk), 0) == Fed(chk, 0x200_0000, 0x3b6a57b2)
    ensures C.Tap(C.Top(chk), 1) == Fed(chk, 0x400_0000, 0x26508e6d)
    ensures C.Tap(C.Top(chk), 2) == Fed(chk, 0x800_0000, 0x1ea119fa)
    ensures C.Tap(C.Top(chk), 3) == Fed(chk, 0x1000_0000, 0x3d4233dd)
    ensures C.Tap(C.Top(chk), 4) == Fed(chk, 0x2000_0000, 0x2a1462b3)
  {
  }

  /** The register step is that of BIP-173, its five words in literals. */
  lemma StepExactly(chk: bv32, v: bv32)
    ensures C.Step(chk, v) == Fed5(chk, v)
  {
    hide C.Taps, C.Tap, C.Xor, Fed;
    TapExactly(chk);
    TapsExactly(C.Top(chk));
  }

  /** From the register after k values to the one after the next. */
  lemma Feeds(chk: bv32, values: seq<bv8>, k: nat, v: bv8, a: bv32, b: bv32)
    requires k < |values| && values[k] == v && C.Absorb(chk, values[..k]) == a && Fed5(a, C.Sym(v)) == b
    ensures C.Absorb(chk, values[..k + 1]) == b
  {
    hide Fed5, C.Step;
    assert values[..k + 1] == values[..k] + [values[k]];
    C.AbsorbAppend(chk, values[..k], values[k]);
    StepExactly(a, C.Sym(v));
  }

  lemma {:induction false} AbsorbConcat(chk: bv32, u: seq<bv8>, w: seq<bv8>)
    ensures C.Absorb(chk, u + w) == C.Absorb(C.Absorb(chk, u), w)
    decreases |w|
  {
    hide C.Step, C.Sym;
    if w == [] {
      assert u + w == u;
    } else {
      AbsorbConcat(chk, u, w[..|w| - 1]);
      assert (u + w)[..|u + w| - 1] == u + w[..|w| - 1];
    }
  }

  lemma AbsorbNothing(chk: bv32, values: seq<bv8>)
    ensures C.Absorb(chk, values[..0]) == chk
  {
  }

  // ---- every symbol once ----

  lemma EveryPart1Words()
    ensures Fed5(0x1, C.Sym(3)) == 0x23
    ensures Fed5(0x23, C.Sym(3)) == 0x463
    ensures Fed5(0x463, C.Sym(3)) == 0x8c63
    ensures Fed5(0x8c63, C.Sym(3)) == 0x118c63
    ensures Fed5(0x118c63, C.Sym(3)) == 0x2318c63
    ensures Fed5(0x2318c63, C.Sym(3)) == 0x3d5bdbd1
    ensures Fed5(0x3d5bdbd1, C.Sym(0)) == 0x4dcbcd9
  {
  }

  lemma EveryPart1()
    ensures C.Absorb(0x1, [3, 3, 3, 3, 3, 3, 0]) == 0x4dcbcd9
  {
    hide C.Absorb, Fed5, C.Sym;
    EveryPart1Words();
    var v: seq<bv8> := [3, 3, 3, 3, 3, 3, 0];
    AbsorbNothing(0x1, v);
    Feeds(0x1, v, 0, 3, 0x1, 0x23);
    Feeds(0x1, v, 1, 3, 0x23, 0x463);
    Feeds(0x1, v, 2, 3, 0x463, 0x8c63);
    Feeds(0x1, v, 3, 3, 0x8c63, 0x118c63);
    Feeds(0x1, v, 4, 3, 0x118c63, 0x2318c63);
    Feeds(0x1, v, 5, 3, 0x2318c63, 0x3d5bdbd1);
    Feeds(0x1, v, 6, 0, 0x3d5bdbd1, 0x4dcbcd9);
    assert v[..7] == v;
  }

  lemma EveryPart2Words()
    ensures Fed5(0x4dcbcd9, C.Sym(1)) == 0x3dc7154c
    ensures Fed5(0x3dc7154c, C.Sym(2)) == 0x17456f7b
    ensures Fed5(0x17456f7b, C.Sym(3)) == 0x8d50561
    ensures Fed5(0x8d50561, C.Sym(4)) == 0x401b5de
    ensures Fed5(0x401b5de, C.Sym(5)) == 0x266635a8
    ensures Fed5(0x266635a8, C.Sym(6)) == 0x3be80e6a
  {
  }

  lemma EveryPart2()
    ensures C.Absorb(0x4dcbcd9, [1, 2, 3, 4, 5, 6]) == 0x3be80e6a
  {
    hide C.Absorb, Fed5, C.Sym;
    EveryPart2Words();
    var v: seq<bv8> := [1, 2, 3, 4, 5, 6];
    AbsorbNothing(0x4dcbcd9, v);
    Feeds(0x4dcbcd9, v, 0, 1, 0x4dcbcd9, 0x3dc7154c);
    Feeds(0x4dcbcd9, v, 1, 2, 0x3dc7154c, 0x17456f7b);
    Feeds(0x4dcbcd9, v, 2, 3, 0x17456f7b, 0x8d50561);
    Feeds(0x4dcbcd9, v, 3, 4, 0x8d50561, 0x401b5de);
    Feeds(0x4dcbcd9, v, 4, 5, 0x401b5de, 0x266635a8);
    Feeds(0x4dcbcd9, v, 5, 6, 0x266635a8, 0x3be80e6a);
    assert v[..6] == v;
  }

  lemma EveryData1Words()
    ensures Fed5(0x3be80e6a, C.Sym(0)) == 0xf9cd266
    ensures Fed5(0xf9cd266, C.Sym(1)) == 0x30018ce4
    ensures Fed5(0x30018ce4, C.Sym(2)) == 0x1767cdec
    ensures Fed5(0x1767cdec, C.Sym(3)) == 0xc815781
    ensures Fed5(0xc815781, C.Sym(4)) == 0x28db67b3
    ensures Fed5(0x28db67b3, C.Sym(5)) == 0x2fd98d2c
    ensures Fed5(0x2fd98d2c, C.Sym(6)) == 0x12be0710
    ensures Fed5(0x12be0710, C.Sym(7)) == 0x11e88668
  {
  }

  lemma EveryData1()
    ensures C.Absorb(0x3be80e6a, [0, 1, 2, 3, 4, 5, 6, 7]) == 0x11e88668
  {
    hide C.Absorb, Fed5, C.Sym;
    EveryData1Words();
    var v: seq<bv8> := [0, 1, 2, 3, 4, 5, 6, 7];
    AbsorbNothing(0x3be80e6a, v);
    Feeds(0x3be80e6a, v, 0, 0, 0x3be80e6a, 0xf9cd266);
    Feeds(0x3be80e6a, v, 1, 1, 0xf9cd266, 0x30018ce4);
    Feeds(0x3be80e6a, v, 2, 2, 0x30018ce4, 0x1767cdec);
    Feeds(0x3be80e6a, v, 3, 3, 0x1767cdec, 0xc815781);
    Feeds(0x3be80e6a, v, 4, 4, 0xc815781, 0x28db67b3);
    Feeds(0x3be80e6a, v, 5, 5, 0x28db67b3, 0x2fd98d2c);
    Feeds(0x3be80e6a, v, 6, 6, 0x2fd98d2c, 0x12be0710);
    Feeds(0x3be80e6a, v, 7, 7, 0x12be0710, 0x11e88668);
    assert v[..8] == v;
  }

  lemma EveryData2Words()
    ensures Fed5(0x11e88668, C.Sym(8)) == 0x52fed5
    ensures Fed5(0x52fed5, C.Sym(9)) == 0xa5fdaa9
    ensures Fed5(0xa5fdaa9, C.Sym(10)) == 0x2e301b62
    ensures Fed5(0x2e301b62, C.Sym(11)) == 0x2f8ccedd
    ensures Fed5(0x2f8ccedd, C.Sym(12)) == 0x1816793a
    ensures Fed5(0x1816793a, C.Sym(13)) == 0x212c0d6a
    ensures Fed5(0x212c0d6a, C.Sym(14)) == 0xf95cffd
    ensures Fed5(0xf95cffd, C.Sym(15)) == 0x31223f8a
  {
  }

  lemma EveryData2()
    ensures C.Absorb(0x11e88668, [8, 9, 10, 11, 12, 13, 14, 15]) == 0x31223f8a
  {
    hide C.Absorb, Fed5, C.Sym;
    EveryData2Words();
    var v: seq<bv8> := [8, 9, 10, 11, 12, 13, 14, 15];
    AbsorbNothing(0x11e88668, v);
    Feeds(0x11e88668, v, 0, 8, 0x11e88668, 0x52fed5);
    Feeds(0x11e88668, v, 1, 9, 0x52fed5, 0xa5fdaa9);
    Feeds(0x11e88668, v, 2, 10, 0xa5fdaa9, 0x2e301b62);
    Feeds(0x11e88668, v, 3, 11, 0x2e301b62, 0x2f8ccedd);
    Feeds(0x11e88668, v, 4, 12, 0x2f8ccedd, 0x1816793a);
    Feeds(0x11e88668, v, 5, 13, 0x1816793a, 0x212c0d6a);
    Feeds(0x11e88668, v, 6, 14, 0x212c0d6a, 0xf95cffd);
    Feeds(0x11e88668, v, 7, 15, 0xf95cffd, 0x31223f8a);
    assert v[..8] == v;
  }

  lemma EveryData3Words()
    ensures Fed5(0x31223f8a, C.Sym(16)) == 0x3311a03e
    ensures Fed5(0x3311a03e, C.Sym(17)) == 0xe08010d
    ensures Fed5(0xe08010d, C.Sym(18)) == 0x29be197
    ensures Fed5(0x29be197, C.Sym(19)) == 0x28166541
    ensures Fed5(0x28166541, C.Sym(20)) == 0x3679d37d
    ensures Fed5(0x3679d37d, C.Sym(21)) == 0x556e704
    ensures Fed5(0x556e704, C.Sym(22)) == 0xc8c6efb
    ensures Fed5(0xc8c6efb, C.Sym(23)) == 0x297c48e0
  {
  }

  lemma EveryData3()
    ensures C.Absorb(0x31223f8a, [16, 17, 18, 19, 20, 21, 22, 23]) == 0x297c48e0
  {
    hide C.Absorb, Fed5, C.Sym;
    EveryData3Words();
    var v: seq<bv8> := [16, 17, 18, 19, 20, 21, 22, 23];
    AbsorbNothing(0x31223f8a, v);
    Feeds(0x31223f8a, v, 0, 16, 0x31223f8a, 0x3311a03e);
    Feeds(0x31223f8a, v, 1, 17, 0x3311a03e, 0xe08010d);
    Feeds(0x31223f8a, v, 2, 18, 0xe08010d, 0x29be197);
    Feeds(0x31223f8a, v, 3, 19, 0x29be197, 0x28166541);
    Feeds(0x31223f8a, v, 4, 20, 0x28166541, 0x3679d37d);
    Feeds(0x31223f8a, v, 5, 21, 0x3679d37d, 0x556e704);
    Feeds(0x31223f8a, v, 6, 22, 0x556e704, 0xc8c6efb);
    Feeds(0x31223f8a, v, 7, 23, 0xc8c6efb, 0x297c48e0);
    assert v[..8] == v;
  }

  lemma EveryData4Words()
    ensures Fed5(0x297c48e0, C.Sym(24)) == 0x1b3c6751
    ensures Fed5(0x1b3c6751, C.Sym(25)) == 0x3f0597ac
    ensures Fed5(0x3f0597ac, C.Sym(26)) == 0x347f64d1
    ensures Fed5(0x347f64d1, C.Sym(27)) == 0x3eea4538
    ensures Fed5(0x3eea4538, C.Sym(28)) == 0x9853657
    ensures Fed5(0x9853657, C.Sym(29)) == 0x2e07d307
    ensures Fed5(0x2e07d307, C.Sym(30)) == 0x2975c268
    ensures Fed5(0x2975c268, C.Sym(31)) == 0x1a0d3656
  {
  }

  lemma EveryData4()
    ensures C.Absorb(0x297c48e0, [24, 25, 26, 27, 28, 29, 30, 31]) == 0x1a0d3656
  {
    hide C.Absorb, Fed5, C.Sym;
    EveryData4Words();
    var v: seq<bv8> := [24, 25, 26, 27, 28, 29, 30, 31];
    AbsorbNothing(0x297c48e0, v);
    Feeds(0x297c48e0, v, 0, 24, 0x297c48e0, 0x1b3c6751);
    Feeds(0x297c48e0, v, 1, 25, 0x1b3c6751, 0x3f0597ac);
    Feeds(0x297c48e0, v, 2, 26, 0x3f0597ac, 0x347f64d1);
    Feeds(0x297c48e0, v, 3, 27, 0x347f64d1, 0x3eea4538);
    Feeds(0x297c48e0, v, 4, 28, 0x3eea4538, 0x9853657);
    Feeds(0x297c48e0, v, 5, 29, 0x9853657, 0x2e07d307);
    Feeds(0x297c48e0, v, 6, 30, 0x2e07d307, 0x2975c268);
    Feeds(0x297c48e0, v, 7, 31, 0x2975c268, 0x1a0d3656);
    assert v[..8] == v;
  }

  lemma EveryEndWords()
    ensures Fed5(0x1a0d3656, C.Sym(0)) == 0x192fb755
    ensures Fed5(0x192fb755, C.Sym(0)) == 0x615c087
    ensures Fed5(0x615c087, C.Sym(0)) == 0x1f82c93f
    ensures Fed5(0x1f82c93f, C.Sym(0)) == 0xe80d418
    ensures Fed5(0xe80d418, C.Sym(0)) == 0x13814325
    ensures Fed5(0x13814325, C.Sym(0)) == 0x360000cf
  {
  }

  lemma EveryEnd()
    ensures C.Absorb(0x1a0d3656, [0, 0, 0, 0, 0, 0]) == 0x360000cf
  {
    hide C.Absorb, Fed5, C.Sym;
    EveryEndWords();
    var v: seq<bv8> := [0, 0, 0, 0, 0, 0];
    AbsorbNothing(0x1a0d3656, v);
    Feeds(0x1a0d3656, v, 0, 0, 0x1a0d3656, 0x192fb755);
    Feeds(0x1a0d3656, v, 1, 0, 0x192fb755, 0x615c087);
    Feeds(0x1a0d3656, v, 2, 0, 0x615c087, 0x1f82c93f);
    Feeds(0x1a0d3656, v, 3, 0, 0x1f82c93f, 0xe80d418);
    Feeds(0x1a0d3656, v, 4, 0, 0xe80d418, 0x13814325);
    Feeds(0x1a0d3656, v, 5, 0, 0x13814325, 0x360000cf);
    assert v[..6] == v;
  }

  lemma EveryExpanded()
    ensures C.Expanded(Octets("abcdef")) == [3, 3, 3, 3, 3, 3, 0] + [1, 2, 3, 4, 5, 6]
    ensures C.Absorb(1, C.Expanded(Octets("abcdef"))) == 0x3be80e6a
  {
    hide C.Absorb, Octets, C.HighBits, C.LowBits;
    EveryLetters();
    EveryHighLow();
    EveryPart1();
    EveryPart2();
    AbsorbConcat(1, [3, 3, 3, 3, 3, 3, 0], [1, 2, 3, 4, 5, 6]);
  }

  lemma EveryLetters()
    ensures Octets("abcdef") == [97, 98, 99, 100, 101, 102]
  {
    EightOctets([97, 98, 99, 100, 101, 102], [97, 98, 99, 100, 101, 102]);
    assert Octets("abcdef") == DataOctets([97, 98, 99, 100, 101, 102]);
  }

  lemma EveryHighLow()
    ensures C.HighBits(97) == 3 && C.HighBits(98) == 3 && C.HighBits(99) == 3 && C.HighBits(100) == 3
    ensures C.HighBits(101) == 3 && C.HighBits(102) == 3
    ensures C.LowBits(97) == 1 && C.LowBits(98) == 2 && C.LowBits(99) == 3 && C.LowBits(100) == 4
    ensures C.LowBits(101) == 5 && C.LowBits(102) == 6
  {
  }

  lemma AllFour(
      a: bv32, b: bv32, c: bv32, d: bv32, e: bv32, p: seq<bv8>, q: seq<bv8>, r: seq<bv8>, s: seq<bv8>)
    requires C.Absorb(a, p) == b && C.Absorb(b, q) == c && C.Absorb(c, r) == d && C.Absorb(d, s) == e
    ensures C.Absorb(a, p + q + r + s) == e
  {
    hide C.Absorb;
    AbsorbConcat(a, p + q + r, s);
    AbsorbConcat(a, p + q, r);
    AbsorbConcat(a, p, q);
  }

  lemma EightOctets(d: seq<B.Byte>, o: seq<bv8>)
    requires |d| == |o| && forall i | 0 <= i < |d| :: o[i] as int == d[i]
    ensures DataOctets(d) == o
  {
    forall i | 0 <= i < |d|
      ensures ByteOctet(d[i]) == o[i]
    {
      Same(d[i], o[i]);
    }
  }

  lemma Same(v: B.Byte, o: bv8)
    requires o as int == v
    ensures ByteOctet(v) == o
  {
  }

  /** All values, eight at a time. */
  function Every(): seq<B.Byte> {
    [0, 1, 2, 3, 4, 5, 6, 7] + [8, 9, 10, 11, 12, 13, 14, 15]
    + [16, 17, 18, 19, 20, 21, 22, 23] + [24, 25, 26, 27, 28, 29, 30, 31]
  }

  lemma EveryData()
    ensures C.Absorb(0x3be80e6a, DataOctets(Every())) == 0x1a0d3656
  {
    hide C.Absorb, DataOctets;
    EveryData1();
    EveryData2();
    EveryData3();
    EveryData4();
    EightOctets([0, 1, 2, 3, 4, 5, 6, 7], [0, 1, 2, 3, 4, 5, 6, 7]);
    EightOctets([8, 9, 10, 11, 12, 13, 14, 15], [8, 9, 10, 11, 12, 13, 14, 15]);
    EightOctets([16, 17, 18, 19, 20, 21, 22, 23], [16, 17, 18, 19, 20, 21, 22, 23]);
    EightOctets([24, 25, 26, 27, 28, 29, 30, 31], [24, 25, 26, 27, 28, 29, 30, 31]);
    DataOctetsConcat([0, 1, 2, 3, 4, 5, 6, 7], [8, 9, 10, 11, 12, 13, 14, 15]);
    DataOctetsConcat([0, 1, 2, 3, 4, 5, 6, 7] + [8, 9, 10, 11, 12, 13, 14, 15], [16, 17, 18, 19, 20, 21, 22, 23]);
    DataOctetsConcat(
      [0, 1, 2, 3, 4, 5, 6, 7] + [8, 9, 10, 11, 12, 13, 14, 15] + [16, 17, 18, 19, 20, 21, 22, 23],
      [24, 25, 26, 27, 28, 29, 30, 31]);
    AllFour(0x3be80e6a, 0x11e88668, 0x31223f8a, 0x297c48e0, 0x1a0d3656,
            [0, 1, 2, 3, 4, 5, 6, 7], [8, 9, 10, 11, 12, 13, 14, 15], [16, 17, 18, 19, 20, 21, 22, 23],
            [24, 25, 26, 27, 28, 29, 30, 31]);
  }

  lemma EveryCheck()
    ensures C.ChecksumOf(Octets("abcdef"), DataOctets(Every())) == [27, 0, 0, 0, 6, 14]
  {
    hide C.Absorb, C.Expanded, Octets, DataOctets, C.Group, Every;
    EveryExpanded();
    EveryData();
    EveryEnd();
    var e, s := C.Expanded(Octets("abcdef")), DataOctets(Every());
    AbsorbConcat(1, e, s);
    AbsorbConcat(1, e + s, [0, 0, 0, 0, 0, 0]);
    EveryGroups();
  }

  lemma EveryGroups()
    ensures C.Group(C.Xor(0x360000cf, 1), 0) == 27 && C.Group(C.Xor(0x360000cf, 1), 1) == 0
      && C.Group(C.Xor(0x360000cf, 1), 2) == 0
    ensures C.Group(C.Xor(0x360000cf, 1), 3) == 0 && C.Group(C.Xor(0x360000cf, 1), 4) == 6
            && C.Group(C.Xor(0x360000cf, 1), 5) == 14
  {
  }

  function EveryBytes(): seq<B.Byte> {
    [0, 68, 50, 20, 199] + ([66, 84, 182, 53, 207] + ([132, 101, 58, 86, 215] + ([198, 117, 190, 119, 223] + [])))
  }

  lemma EveryRegrouped()
    ensures B.Regrouped(EveryBytes(), 8, 5, true) == Ok(Every())
  {
    hide B.Regrouped, FiveBits.Eight;
    FiveBits.RegroupsNothing();
    EveryEight();
    FiveBits.RegroupsFive(198, 117, 190, 119, 223, []);
    FiveBits.RegroupsFive(132, 101, 58, 86, 215, [198, 117, 190, 119, 223] + []);
    FiveBits.RegroupsFive(66, 84, 182, 53, 207, [132, 101, 58, 86, 215] + ([198, 117, 190, 119, 223] + []));
    FiveBits.RegroupsFive(0, 68, 50, 20, 199,
      [66, 84, 182, 53, 207] + ([132, 101, 58, 86, 215] + ([198, 117, 190, 119, 223] + [])));
    assert Every() == [0, 1, 2, 3, 4, 5, 6, 7] + ([8, 9, 10, 11, 12, 13, 14, 15]
                      + ([16, 17, 18, 19, 20, 21, 22, 23] + ([24, 25, 26, 27, 28, 29, 30, 31] + [])));
  }

  lemma EveryEight()
    ensures FiveBits.Eight(0, 68, 50, 20, 199) == [0, 1, 2, 3, 4, 5, 6, 7]
    ensures FiveBits.Eight(66, 84, 182, 53, 207) == [8, 9, 10, 11, 12, 13, 14, 15]
    ensures FiveBits.Eight(132, 101, 58, 86, 215) == [16, 17, 18, 19, 20, 21, 22, 23]
    ensures FiveBits.Eight(198, 117, 190, 119, 223) == [24, 25, 26, 27, 28, 29, 30, 31]
  {
  }

  lemma EveryChars()
    ensures Symbols(Every()) && Chars(Every()) == "qpzry9x8gf2tvdw0s3jn54khce6mua7l"
  {
    hide Char;
    forall v | 0 <= v < 32
      ensures Char(v) == "qpzry9x8gf2tvdw0s3jn54khce6mua7l"[v]
    {
      SymbolsExactly(v);
    }
    assert |Every()| == 32 && forall v | 0 <= v < 32 :: Every()[v] == v;
  }

  lemma EveryCheckChars()
    ensures Symbols([27, 0, 0, 0, 6, 14]) && Chars([27, 0, 0, 0, 6, 14]) == "mqqqxw"
  {
    hide Char;
    SymbolsExactly(27);
    SymbolsExactly(0);
    SymbolsExactly(6);
    SymbolsExactly(14);
  }

  /** BIP-173: the text with every symbol once. */
  lemma EverySymbolVector()
    ensures EveryBytes() == [0x0, 0x44, 0x32, 0x14, 0xc7, 0x42, 0x54, 0xb6, 0x35, 0xcf,
                             0x84, 0x65, 0x3a, 0x56, 0xd7, 0xc6, 0x75, 0xbe, 0x77, 0xdf]
    ensures Encoded("abcdef", EveryBytes()) == Ok("abcdef1qpzry9x8gf2tvdw0s3jn54khce6mua7lmqqqxw")
  {
    hide B.Regrouped, Chars, Every, Symbols, Lower, Printable, Body;
    EveryRegrouped();
    EveryChars();
    LowerHrp();
    EveryBody();
  }

  lemma EveryBody()
    requires Symbols(Every())
    ensures Body("abcdef", Every()) == "abcdef1qpzry9x8gf2tvdw0s3jn54khce6mua7lmqqqxw"
  {
    hide C.ChecksumOf, Chars, Octets, DataOctets, Every, Symbols, Lower;
    EveryCheck();
    EveryChars();
    EveryCheckChars();
    LowerHrp();
    OctetBytes();
    EveryParts();
  }

  lemma EveryParts()
    ensures "abcdef" + "1" + "qpzry9x8gf2tvdw0s3jn54khce6mua7l" + "mqqqxw"
      == "abcdef1qpzry9x8gf2tvdw0s3jn54khce6mua7lmqqqxw"
  {
  }

  lemma LowerHrp()
    ensures Lower("abcdef") == "abcdef" && Printable("abcdef")
  {
  }

  lemma OctetBytes()
    ensures OctetData([27, 0, 0, 0, 6, 14]) == [27, 0, 0, 0, 6, 14]
  {
  }

  // ---- no data ----

  lemma ShortPartWords()
    ensures Fed5(0x1, C.Sym(3)) == 0x23
    ensures Fed5(0x23, C.Sym(0)) == 0x460
    ensures Fed5(0x460, C.Sym(1)) == 0x8c01
  {
  }

  lemma ShortPart()
    ensures C.Absorb(0x1, [3, 0, 1]) == 0x8c01
  {
    hide C.Absorb, Fed5, C.Sym;
    ShortPartWords();
    var v: seq<bv8> := [3, 0, 1];
    AbsorbNothing(0x1, v);
    Feeds(0x1, v, 0, 3, 0x1, 0x23);
    Feeds(0x1, v, 1, 0, 0x23, 0x460);
    Feeds(0x1, v, 2, 1, 0x460, 0x8c01);
    assert v[..3] == v;
  }

  lemma ShortEndWords()
    ensures Fed5(0x8c01, C.Sym(0)) == 0x118020
    ensures Fed5(0x118020, C.Sym(0)) == 0x2300400
    ensures Fed5(0x2300400, C.Sym(0)) == 0x3d6ad7b2
    ensures Fed5(0x3d6ad7b2, C.Sym(0)) == 0x2fd30b9
    ensures Fed5(0x2fd30b9, C.Sym(0)) == 0x24cc4092
    ensures Fed5(0x24cc4092, C.Sym(0)) == 0x15ccfe9e
  {
  }

  lemma ShortEnd()
    ensures C.Absorb(0x8c01, [0, 0, 0, 0, 0, 0]) == 0x15ccfe9e
  {
    hide C.Absorb, Fed5, C.Sym;
    ShortEndWords();
    var v: seq<bv8> := [0, 0, 0, 0, 0, 0];
    AbsorbNothing(0x8c01, v);
    Feeds(0x8c01, v, 0, 0, 0x8c01, 0x118020);
    Feeds(0x8c01, v, 1, 0, 0x118020, 0x2300400);
    Feeds(0x8c01, v, 2, 0, 0x2300400, 0x3d6ad7b2);
    Feeds(0x8c01, v, 3, 0, 0x3d6ad7b2, 0x2fd30b9);
    Feeds(0x8c01, v, 4, 0, 0x2fd30b9, 0x24cc4092);
    Feeds(0x8c01, v, 5, 0, 0x24cc4092, 0x15ccfe9e);
    assert v[..6] == v;
  }

  lemma ShortCheck()
    ensures C.ChecksumOf(Octets("a"), DataOctets([])) == [10, 28, 25, 31, 20, 31]
  {
    hide C.Absorb, C.Group;
    EightOctets([97], [97]);
    assert Octets("a") == DataOctets([97]) == [97];
    EveryHighLow();
    assert C.Expanded([97]) == [3, 0, 1];
    ShortPart();
    ShortEnd();
    AbsorbConcat(1, [3, 0, 1], [0, 0, 0, 0, 0, 0]);
    assert C.Expanded([97]) + DataOctets([]) + [0, 0, 0, 0, 0, 0] == [3, 0, 1] + [0, 0, 0, 0, 0, 0];
    ShortGroups();
  }

  lemma ShortGroups()
    ensures C.Group(C.Xor(0x15ccfe9e, 1), 0) == 10 && C.Group(C.Xor(0x15ccfe9e, 1), 1) == 28
      && C.Group(C.Xor(0x15ccfe9e, 1), 2) == 25
    ensures C.Group(C.Xor(0x15ccfe9e, 1), 3) == 31 && C.Group(C.Xor(0x15ccfe9e, 1), 4) == 20
      && C.Group(C.Xor(0x15ccfe9e, 1), 5) == 31
  {
  }

  /** BIP-173: no data, in either case. */
  lemma ShortVector()
    ensures Encoded("a", []) == Ok("a12uel5l")
    ensures Encoded("A", []) == Ok("A12UEL5L")
  {
    hide B.Regrouped, C.ChecksumOf, Octets, DataOctets, OctetData, Char;
    FiveBits.RegroupsNothing();
    ShortBody();
    assert Lower("A") == "a" && Lower("a") == "a" && Upper("A") == "A";
    assert Body("A", []) == Body("a", []);
    assert Upper("a12uel5l") == "A12UEL5L";
  }

  lemma ShortBody()
    ensures Body("a", []) == "a12uel5l"
  {
    hide C.ChecksumOf, Octets, DataOctets, OctetData, Char;
    ShortCheck();
    ShortBytes();
    ShortChars();
    assert Lower("a") == "a" && Chars([]) == "";
    assert "a" + "1" + "" + "2uel5l" == "a12uel5l";
  }

  lemma ShortBytes()
    ensures OctetData([10, 28, 25, 31, 20, 31]) == [10, 28, 25, 31, 20, 31]
  {
  }

  lemma ShortChars()
    ensures Symbols([10, 28, 25, 31, 20, 31]) && Chars([10, 28, 25, 31, 20, 31]) == "2uel5l"
  {
    hide Char;
    SymbolsExactly(10);
    SymbolsExactly(20);
    SymbolsExactly(25);
    SymbolsExactly(28);
    SymbolsExactly(31);
  }
}
