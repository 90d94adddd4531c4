/** Two published addresses, symbol by symbol: they fix the alphabet, the generator, the order of the bits
    and the version byte together. */
module CashAddrVectors {
  import opened Arithmetic
  import opened Checksum
  import opened BitGroups
  import opened CashAddr
  import opened CashAddrInverse
  import opened CashAddrBurst

  // ----- The register, several symbols at a time -----

  function Four(c: bv64, a: bv8, b: bv8, d: bv8, e: bv8): bv64 { Step(Step(Step(Step(c, a), b), d), e) }

  lemma FourMore(done: Data, v: Data)
    requires |v| == 4
    ensures Fold(done + v) == Four(Fold(done), v[0], v[1], v[2], v[3])
  {
    hide Step, Fold;
    FoldMore(done, v[0]);
    FoldMore(done + [v[0]], v[1]);
    FoldMore(done + [v[0]] + [v[1]], v[2]);
    FoldMore(done + [v[0]] + [v[1]] + [v[2]], v[3]);
    assert done + [v[0]] + [v[1]] + [v[2]] + [v[3]] == done + v;
  }

  lemma EightMore(done: Data, v: Data)
    requires |v| == 8
    ensures Fold(done + v) == Four(Four(Fold(done), v[0], v[1], v[2], v[3]), v[4], v[5], v[6], v[7])
  {
    hide Four, Fold;
    FourMore(done, v[..4]);
    FourMore(done + v[..4], v[4..]);
    assert done + v[..4] + v[4..] == done + v;
  }

  lemma NothingFolds()
    ensures Fold([]) == 1
  {}

  /** What "bitcoincash" expands to. */
  const PREFIX: Data := [2, 9, 20, 3, 15, 9, 14, 3] + [1, 19, 8, 0]

  lemma PrefixSteps()
    ensures Four(0x1, 2, 9, 20, 3) == 0x112683
    ensures Four(0x112683, 15, 9, 14, 3) == 0x8a9a8b2ba2
    ensures Four(0x8a9a8b2ba2, 1, 19, 8, 0) == 0xf669cd6d15
  {}

  lemma PrefixFolds()
    ensures Fold(PREFIX) == 0xf669cd6d15
  {
    hide Four, Fold;
    NothingFolds();
    PrefixSteps();
    var none: Data, first: Data := [], [2, 9, 20, 3, 15, 9, 14, 3];
    EightMore(none, first);
    assert none + first == first;
    FourMore(first, [1, 19, 8, 0]);
  }

  // ----- The address whose payload is every symbol once -----

  const ALPHABET_1: Data := [0, 1, 2, 3, 4, 5, 6, 7]

  const ALPHABET_2: Data := [8, 9, 10, 11, 12, 13, 14, 15]

  const ALPHABET_3: Data := [16, 17, 18, 19, 20, 21, 22, 23]

  const ALPHABET_4: Data := [24, 25, 26, 27, 28, 29, 30, 31]

  const ALPHABET_5: Data := [24, 14, 10, 15, 29, 4, 4, 19]

  lemma AlphabetFirstSteps()
    ensures Four(0xf669cd6d15, 0, 1, 2, 3) == 0x61113cfe96
    ensures Four(0x61113cfe96, 4, 5, 6, 7) == 0xed7e401a24
    ensures Four(0xed7e401a24, 8, 9, 10, 11) == 0x8e8b5a6f65
    ensures Four(0x8e8b5a6f65, 12, 13, 14, 15) == 0xf7a73c2fb7
  {}

  lemma AlphabetMiddleSteps()
    ensures Four(0xf7a73c2fb7, 16, 17, 18, 19) == 0xadf698e10d
    ensures Four(0xadf698e10d, 20, 21, 22, 23) == 0x74e108c548
    ensures Four(0x74e108c548, 24, 25, 26, 27) == 0x76acc0dd4
    ensures Four(0x76acc0dd4, 28, 29, 30, 31) == 0x6a8ba8b839
  {}

  lemma AlphabetLastSteps()
    ensures Four(0x6a8ba8b839, 24, 14, 10, 15) == 0xed443b9d7c
    ensures Four(0xed443b9d7c, 29, 4, 4, 19) == 0x1
  {}

  lemma AlphabetHalfFolds()
    ensures Fold(PREFIX + ALPHABET_1 + ALPHABET_2) == 0xf7a73c2fb7
  {
    hide Four, Step, Fold, PREFIX;
    PrefixFolds();
    AlphabetFirstSteps();
    EightMore(PREFIX, ALPHABET_1);
    EightMore(PREFIX + ALPHABET_1, ALPHABET_2);
  }

  lemma AlphabetFolds()
    ensures Fold(PREFIX + ALPHABET_1 + ALPHABET_2 + ALPHABET_3 + ALPHABET_4 + ALPHABET_5) == 0x1
  {
    hide Four, Step, Fold, PREFIX;
    AlphabetHalfFolds();
    AlphabetMiddleSteps();
    AlphabetLastSteps();
    EightMore(PREFIX + ALPHABET_1 + ALPHABET_2, ALPHABET_3);
    EightMore(PREFIX + ALPHABET_1 + ALPHABET_2 + ALPHABET_3, ALPHABET_4);
    EightMore(PREFIX + ALPHABET_1 + ALPHABET_2 + ALPHABET_3 + ALPHABET_4, ALPHABET_5);
  }

  // ----- The address of a public key hash -----

  const ADDRESS_1: Data := [0, 3, 5, 20, 16, 4, 17, 18]

  const ADDRESS_2: Data := [5, 6, 14, 13, 10, 29, 1, 17]

  const ADDRESS_3: Data := [10, 6, 22, 4, 22, 11, 11, 3]

  const ADDRESS_4: Data := [21, 24, 12, 24, 28, 30, 29, 16]

  const ADDRESS_5: Data := [21, 4]

  const ADDRESS_6: Data := [15, 0, 12, 25, 3, 9, 28, 4]

  lemma AddressFirstSteps()
    ensures Four(0xf669cd6d15, 0, 3, 5, 20) == 0x61113cf661
    ensures Four(0x61113cf661, 16, 4, 17, 18) == 0xedf13a1cd1
    ensures Four(0xedf13a1cd1, 5, 6, 14, 13) == 0xc5b948bd27
    ensures Four(0xc5b948bd27, 10, 29, 1, 17) == 0xa86a18b90e
  {}

  lemma AddressMiddleSteps()
    ensures Four(0xa86a18b90e, 10, 6, 22, 4) == 0xfc5a6a8128
    ensures Four(0xfc5a6a8128, 22, 11, 11, 3) == 0xeba7b10672
    ensures Four(0xeba7b10672, 21, 24, 12, 24) == 0x8915f2f83c
    ensures Four(0x8915f2f83c, 28, 30, 29, 16) == 0xf51e779b7c
  {}

  lemma AddressLastSteps()
    ensures Four(0xdbcfba9e97, 15, 0, 12, 25) == 0x6ba9781dbb
    ensures Four(0x6ba9781dbb, 3, 9, 28, 4) == 0x1
    ensures Step(0xf51e779b7c, 21) == 0x992629436b
    ensures Step(0x992629436b, 4) == 0xdbcfba9e97
  {}

  lemma AddressHalfFolds()
    ensures Fold(PREFIX + ADDRESS_1 + ADDRESS_2 + ADDRESS_3) == 0xeba7b10672
  {
    hide Four, Step, Fold, PREFIX;
    PrefixFolds();
    AddressFirstSteps();
    AddressMiddleSteps();
    EightMore(PREFIX, ADDRESS_1);
    EightMore(PREFIX + ADDRESS_1, ADDRESS_2);
    EightMore(PREFIX + ADDRESS_1 + ADDRESS_2, ADDRESS_3);
  }

  lemma AddressFolds()
    ensures Fold(PREFIX + ADDRESS_1 + ADDRESS_2 + ADDRESS_3 + ADDRESS_4 + ADDRESS_5 + ADDRESS_6) == 0x1
  {
    hide Four, Step, Fold, PREFIX;
    AddressHalfFolds();
    AddressMiddleSteps();
    AddressLastSteps();
    EightMore(PREFIX + ADDRESS_1 + ADDRESS_2 + ADDRESS_3, ADDRESS_4);
    FoldMore(PREFIX + ADDRESS_1 + ADDRESS_2 + ADDRESS_3 + ADDRESS_4, 21);
    FoldMore(PREFIX + ADDRESS_1 + ADDRESS_2 + ADDRESS_3 + ADDRESS_4 + [21], 4);
    var done := PREFIX + ADDRESS_1 + ADDRESS_2 + ADDRESS_3 + ADDRESS_4;
    assert done + [21] + [4] == done + ADDRESS_5;
    EightMore(PREFIX + ADDRESS_1 + ADDRESS_2 + ADDRESS_3 + ADDRESS_4 + ADDRESS_5, ADDRESS_6);
  }

  // ----- Characters -----

  lemma CharsConcat(v: Data, w: Data)
    requires AllSymbols(v) && AllSymbols(w)
    ensures AllSymbols(v + w) && Chars(v + w) == Chars(v) + Chars(w)
  {
    hide Chars;
  }

  lemma Charset1()
    ensures CHARSET[0] == 'q' && CHARSET[1] == 'p' && CHARSET[2] == 'z' && CHARSET[3] == 'r'
  {}

  lemma Charset2()
    ensures CHARSET[4] == 'y' && CHARSET[5] == '9' && CHARSET[6] == 'x' && CHARSET[7] == '8'
  {}

  lemma Charset3()
    ensures CHARSET[8] == 'g' && CHARSET[9] == 'f' && CHARSET[10] == '2' && CHARSET[11] == 't'
  {}

  lemma Charset4()
    ensures CHARSET[12] == 'v' && CHARSET[13] == 'd' && CHARSET[14] == 'w' && CHARSET[15] == '0'
  {}

  lemma Charset5()
    ensures CHARSET[16] == 's' && CHARSET[17] == '3' && CHARSET[18] == 'j' && CHARSET[19] == 'n'
  {}

  lemma Charset6()
    ensures CHARSET[20] == '5' && CHARSET[21] == '4' && CHARSET[22] == 'k' && CHARSET[23] == 'h'
  {}

  lemma Charset7()
    ensures CHARSET[24] == 'c' && CHARSET[25] == 'e' && CHARSET[26] == '6' && CHARSET[27] == 'm'
  {}

  lemma Charset8()
    ensures CHARSET[28] == 'u' && CHARSET[29] == 'a' && CHARSET[30] == '7' && CHARSET[31] == 'l'
  {}

  lemma CharsetIs()
    ensures CHARSET[0] == 'q' && CHARSET[1] == 'p' && CHARSET[2] == 'z' && CHARSET[3] == 'r'
    ensures CHARSET[4] == 'y' && CHARSET[5] == '9' && CHARSET[6] == 'x' && CHARSET[7] == '8'
    ensures CHARSET[8] == 'g' && CHARSET[9] == 'f' && CHARSET[10] == '2' && CHARSET[11] == 't'
    ensures CHARSET[12] == 'v' && CHARSET[13] == 'd' && CHARSET[14] == 'w' && CHARSET[15] == '0'
    ensures CHARSET[16] == 's' && CHARSET[17] == '3' && CHARSET[18] == 'j' && CHARSET[19] == 'n'
    ensures CHARSET[20] == '5' && CHARSET[21] == '4' && CHARSET[22] == 'k' && CHARSET[23] == 'h'
    ensures CHARSET[24] == 'c' && CHARSET[25] == 'e' && CHARSET[26] == '6' && CHARSET[27] == 'm'
    ensures CHARSET[28] == 'u' && CHARSET[29] == 'a' && CHARSET[30] == '7' && CHARSET[31] == 'l'
  {
    hide CHARSET;
    Charset1();
    Charset2();
    Charset3();
    Charset4();
    Charset5();
    Charset6();
    Charset7();
    Charset8();
  }

  lemma AlphabetChars1()
    ensures AllSymbols(ALPHABET_1) && Chars(ALPHABET_1) == "qpzry9x8"
  {
    hide Chars, CHARSET;
    CharsetIs();
    assert forall i :: 0 <= i < 8 ==> Chars(ALPHABET_1)[i] == "qpzry9x8"[i];
  }

  lemma AlphabetChars2()
    ensures AllSymbols(ALPHABET_2) && Chars(ALPHABET_2) == "gf2tvdw0"
  {
    hide Chars, CHARSET;
    CharsetIs();
    assert forall i :: 0 <= i < 8 ==> Chars(ALPHABET_2)[i] == "gf2tvdw0"[i];
  }

  lemma AlphabetChars3()
    ensures AllSymbols(ALPHABET_3) && Chars(ALPHABET_3) == "s3jn54kh"
  {
    hide Chars, CHARSET;
    CharsetIs();
    assert forall i :: 0 <= i < 8 ==> Chars(ALPHABET_3)[i] == "s3jn54kh"[i];
  }

  lemma AlphabetChars4()
    ensures AllSymbols(ALPHABET_4) && Chars(ALPHABET_4) == "ce6mua7l"
  {
    hide Chars, CHARSET;
    CharsetIs();
    assert forall i :: 0 <= i < 8 ==> Chars(ALPHABET_4)[i] == "ce6mua7l"[i];
  }

  lemma AlphabetChars5()
    ensures AllSymbols(ALPHABET_5) && Chars(ALPHABET_5) == "cw20ayyn"
  {
    hide Chars, CHARSET;
    CharsetIs();
    assert forall i :: 0 <= i < 8 ==> Chars(ALPHABET_5)[i] == "cw20ayyn"[i];
  }

  lemma AlphabetText()
    ensures AllSymbols(ALPHABET_1 + ALPHABET_2 + ALPHABET_3 + ALPHABET_4 + ALPHABET_5)
    ensures Chars(ALPHABET_1 + ALPHABET_2 + ALPHABET_3 + ALPHABET_4 + ALPHABET_5)
         == "qpzry9x8" + "gf2tvdw0" + "s3jn54kh" + "ce6mua7l" + "cw20ayyn"
  {
    hide Chars, ALPHABET_1, ALPHABET_2, ALPHABET_3, ALPHABET_4, ALPHABET_5;
    AlphabetChars1();
    AlphabetChars2();
    AlphabetChars3();
    AlphabetChars4();
    AlphabetChars5();
    CharsConcat(ALPHABET_1, ALPHABET_2);
    CharsConcat(ALPHABET_1 + ALPHABET_2, ALPHABET_3);
    CharsConcat(ALPHABET_1 + ALPHABET_2 + ALPHABET_3, ALPHABET_4);
    CharsConcat(ALPHABET_1 + ALPHABET_2 + ALPHABET_3 + ALPHABET_4, ALPHABET_5);
  }

  lemma AddressChars1()
    ensures AllSymbols(ADDRESS_1) && Chars(ADDRESS_1) == "qr95sy3j"
  {
    hide Chars, CHARSET;
    CharsetIs();
    assert forall i :: 0 <= i < 8 ==> Chars(ADDRESS_1)[i] == "qr95sy3j"[i];
  }

  lemma AddressChars2()
    ensures AllSymbols(ADDRESS_2) && Chars(ADDRESS_2) == "9xwd2ap3"
  {
    hide Chars, CHARSET;
    CharsetIs();
    assert forall i :: 0 <= i < 8 ==> Chars(ADDRESS_2)[i] == "9xwd2ap3"[i];
  }

  lemma AddressChars3()
    ensures AllSymbols(ADDRESS_3) && Chars(ADDRESS_3) == "2xkykttr"
  {
    hide Chars, CHARSET;
    CharsetIs();
    assert forall i :: 0 <= i < 8 ==> Chars(ADDRESS_3)[i] == "2xkykttr"[i];
  }

  lemma AddressChars4()
    ensures AllSymbols(ADDRESS_4) && Chars(ADDRESS_4) == "4cvcu7as"
  {
    hide Chars, CHARSET;
    CharsetIs();
    assert forall i :: 0 <= i < 8 ==> Chars(ADDRESS_4)[i] == "4cvcu7as"[i];
  }

  lemma AddressChars5()
    ensures AllSymbols(ADDRESS_5) && Chars(ADDRESS_5) == "4y"
  {
    hide Chars, CHARSET;
    CharsetIs();
    assert forall i :: 0 <= i < 2 ==> Chars(ADDRESS_5)[i] == "4y"[i];
  }

  lemma AddressChars6()
    ensures AllSymbols(ADDRESS_6) && Chars(ADDRESS_6) == "0qverfuy"
  {
    hide Chars, CHARSET;
    CharsetIs();
    assert forall i :: 0 <= i < 8 ==> Chars(ADDRESS_6)[i] == "0qverfuy"[i];
  }

  lemma AddressText()
    ensures AllSymbols(ADDRESS_1 + ADDRESS_2 + ADDRESS_3 + ADDRESS_4 + ADDRESS_5) && AllSymbols(ADDRESS_6)
    ensures AllSymbols(ADDRESS_1 + ADDRESS_2 + ADDRESS_3 + ADDRESS_4 + ADDRESS_5 + ADDRESS_6)
    ensures Chars(ADDRESS_1 + ADDRESS_2 + ADDRESS_3 + ADDRESS_4 + ADDRESS_5 + ADDRESS_6)
         == "qr95sy3j" + "9xwd2ap3" + "2xkykttr" + "4cvcu7as" + "4y" + "0qverfuy"
  {
    hide Chars, ADDRESS_1, ADDRESS_2, ADDRESS_3, ADDRESS_4, ADDRESS_5, ADDRESS_6;
    AddressChars1();
    AddressChars2();
    AddressChars3();
    AddressChars4();
    AddressChars5();
    AddressChars6();
    CharsConcat(ADDRESS_1, ADDRESS_2);
    CharsConcat(ADDRESS_1 + ADDRESS_2, ADDRESS_3);
    CharsConcat(ADDRESS_1 + ADDRESS_2 + ADDRESS_3, ADDRESS_4);
    CharsConcat(ADDRESS_1 + ADDRESS_2 + ADDRESS_3 + ADDRESS_4, ADDRESS_5);
    CharsConcat(ADDRESS_1 + ADDRESS_2 + ADDRESS_3 + ADDRESS_4 + ADDRESS_5, ADDRESS_6);
  }

  // ----- What they decode to -----

  lemma LettersExpand()
    ensures ByteOf('b') & 0x1f == 2 && ByteOf('i') & 0x1f == 9 && ByteOf('t') & 0x1f == 20 && ByteOf('c') & 0x1f == 3
    ensures ByteOf('o') & 0x1f == 15 && ByteOf('n') & 0x1f == 14 && ByteOf('a') & 0x1f == 1
    ensures ByteOf('s') & 0x1f == 19 && ByteOf('h') & 0x1f == 8
  {}

  lemma PrefixExpands()
    ensures IsPrefix("bitcoincash") && IsText("bitcoincash") && Expanded(BytesOf("bitcoincash")) == PREFIX
  {
    hide BytesOf, Expanded;
    var p := "bitcoincash";
    BytesAt(p);
    LettersExpand();
    hide ByteOf;
  }

  lemma FoldedVerifies(v: Data)
    requires Fold(PREFIX + v) == 1
    ensures IsText("bitcoincash") && Verifies(BytesOf("bitcoincash"), v)
  {
    hide Fold, BytesOf, Expanded, PREFIX;
    PrefixExpands();
    assert 1 as bv64 ^ 1 == 0;
  }

  lemma AlphabetVerifies()
    ensures IsText("bitcoincash")
    ensures Verifies(BytesOf("bitcoincash"), ALPHABET_1 + ALPHABET_2 + ALPHABET_3 + ALPHABET_4 + ALPHABET_5)
  {
    hide Fold, Verifies, PREFIX, ALPHABET_1, ALPHABET_2, ALPHABET_3, ALPHABET_4, ALPHABET_5, BytesOf;
    AlphabetFolds();
    var v := ALPHABET_1 + ALPHABET_2 + ALPHABET_3 + ALPHABET_4 + ALPHABET_5;
    assert PREFIX + ALPHABET_1 + ALPHABET_2 + ALPHABET_3 + ALPHABET_4 + ALPHABET_5 == PREFIX + v;
    FoldedVerifies(v);
  }

  lemma PayloadOf(payload: Data, sum: Data)
    requires |sum| == 8
    ensures (payload + sum)[..|payload + sum| - 8] == payload
  {}

  /** The address whose payload is every symbol once, in order. */
  lemma AlphabetDecodes()
    ensures Decoded("bitcoincash" + ":" + ("qpzry9x8" + "gf2tvdw0" + "s3jn54kh" + "ce6mua7l" + "cw20ayyn"))
         == Done(("bitcoincash", [0, 1, 2, 3, 4, 5, 6, 7] + [8, 9, 10, 11, 12, 13, 14, 15]
                                 + [16, 17, 18, 19, 20, 21, 22, 23] + [24, 25, 26, 27, 28, 29, 30, 31]))
  {
    hide Decoded, Chars, Fold, Verifies, BytesOf, Expanded, PREFIX;
    AlphabetText();
    PayloadOf(ALPHABET_1 + ALPHABET_2 + ALPHABET_3 + ALPHABET_4, ALPHABET_5);
    AlphabetVerifies();
    PrefixExpands();
    LowerDecodes("bitcoincash", ALPHABET_1 + ALPHABET_2 + ALPHABET_3 + ALPHABET_4 + ALPHABET_5);
  }

  // ----- The hash as symbols -----

  lemma HashBits1()
    ensures BitsOf([0, 203, 72, 18, 50], 8) == BitsOf([0, 3, 5, 20, 16, 4, 17, 18], 5)
  {
    hide BitsOf;
    FiveBytes(0, 203, 72, 18, 50);
  }

  lemma HashBits2()
    ensures BitsOf([41, 156, 213, 116, 49], 8) == BitsOf([5, 6, 14, 13, 10, 29, 1, 17], 5)
  {
    hide BitsOf;
    FiveBytes(41, 156, 213, 116, 49);
  }

  lemma HashBits3()
    ensures BitsOf([81, 172, 75, 45, 99], 8) == BitsOf([10, 6, 22, 4, 22, 11, 11, 3], 5)
  {
    hide BitsOf;
    FiveBytes(81, 172, 75, 45, 99);
  }

  lemma HashBits4()
    ensures BitsOf([174, 25, 142, 123, 176], 8) == BitsOf([21, 24, 12, 24, 28, 30, 29, 16], 5)
  {
    hide BitsOf;
    FiveBytes(174, 25, 142, 123, 176);
  }

  /** The last byte and the padding. */
  lemma LastBits()
    ensures BitsOf([169], 8) + Off(2) == BitsOf([21, 4], 5)
  {
    hide ToBits, BitsOf;
    OneGroup(169, 8);
    FirstByte(169);
    Powers();
    Cut(4, 3, 2, 1, 0, 4);
    ToBitsZero(2);
    assert Off(2) == ToBits(0, 2);
    BitsConcat([21], [4], 5);
    assert [21] + [4] == [21, 4];
    OneGroup(21, 5);
    OneGroup(4, 5);
  }

  const HASH: seq<bv8> := [203, 72, 18, 50] + [41, 156, 213, 116, 49] + [81, 172, 75, 45, 99] + [174, 25, 142, 123, 176]
                          + [169]

  lemma NumbersConcat(a: seq<bv8>, b: seq<bv8>)
    ensures Numbers(a + b) == Numbers(a) + Numbers(b)
  {
    hide Numbers, Number;
  }

  lemma FiveNumbers()
    ensures Numbers([0, 203, 72, 18, 50]) == [0, 203, 72, 18, 50]
    ensures Numbers([41, 156, 213, 116, 49]) == [41, 156, 213, 116, 49]
    ensures Numbers([81, 172, 75, 45, 99]) == [81, 172, 75, 45, 99]
    ensures Numbers([174, 25, 142, 123, 176]) == [174, 25, 142, 123, 176]
    ensures Numbers([169]) == [169]
  {
    hide Numbers;
  }

  lemma HashNumbers()
    ensures Numbers([0] + HASH) == [0, 203, 72, 18, 50] + [41, 156, 213, 116, 49] + [81, 172, 75, 45, 99]
                                   + [174, 25, 142, 123, 176] + [169]
  {
    hide Numbers, Number;
    FiveNumbers();
    var a: seq<bv8>, b: seq<bv8>, c: seq<bv8>, d: seq<bv8>, e: seq<bv8> :=
      [0, 203, 72, 18, 50], [41, 156, 213, 116, 49], [81, 172, 75, 45, 99], [174, 25, 142, 123, 176], [169];
    assert [0] + HASH == a + b + c + d + e;
    NumbersConcat(a, b);
    NumbersConcat(a + b, c);
    NumbersConcat(a + b + c, d);
    NumbersConcat(a + b + c + d, e);
  }

  lemma FirstNumbers()
    ensures Numbers(ADDRESS_1) == [0, 3, 5, 20, 16, 4, 17, 18] && Numbers(ADDRESS_2) == [5, 6, 14, 13, 10, 29, 1, 17]
  {
    hide Numbers;
  }

  lemma LastNumbers()
    ensures Numbers(ADDRESS_3) == [10, 6, 22, 4, 22, 11, 11, 3]
    ensures Numbers(ADDRESS_4) == [21, 24, 12, 24, 28, 30, 29, 16]
    ensures Numbers(ADDRESS_5) == [21, 4]
  {
    hide Numbers;
  }

  lemma PayloadNumbers()
    ensures Numbers(ADDRESS_1 + ADDRESS_2 + ADDRESS_3 + ADDRESS_4 + ADDRESS_5)
         == [0, 3, 5, 20, 16, 4, 17, 18] + [5, 6, 14, 13, 10, 29, 1, 17] + [10, 6, 22, 4, 22, 11, 11, 3]
            + [21, 24, 12, 24, 28, 30, 29, 16] + [21, 4]
  {
    hide Numbers, Number, ADDRESS_1, ADDRESS_2, ADDRESS_3, ADDRESS_4, ADDRESS_5;
    FirstNumbers();
    LastNumbers();
    NumbersConcat(ADDRESS_1, ADDRESS_2);
    NumbersConcat(ADDRESS_1 + ADDRESS_2, ADDRESS_3);
    NumbersConcat(ADDRESS_1 + ADDRESS_2 + ADDRESS_3, ADDRESS_4);
    NumbersConcat(ADDRESS_1 + ADDRESS_2 + ADDRESS_3 + ADDRESS_4, ADDRESS_5);
  }

  lemma Join(a: seq<nat>, b: seq<nat>, c: seq<nat>, d: seq<nat>, e: seq<nat>, w: nat)
    ensures BitsOf(a + b + c + d + e, w)
         == BitsOf(a, w) + BitsOf(b, w) + BitsOf(c, w) + BitsOf(d, w) + BitsOf(e, w)
  {
    hide BitsOf;
    BitsConcat(a, b, w);
    BitsConcat(a + b, c, w);
    BitsConcat(a + b + c, d, w);
    BitsConcat(a + b + c + d, e, w);
  }

  /** The bits of the version byte and the hash, filled up, are those of the payload. */
  lemma PayloadBits()
    ensures BitsOf(Numbers([0] + HASH), 8) + Off(2)
         == BitsOf(Numbers(ADDRESS_1 + ADDRESS_2 + ADDRESS_3 + ADDRESS_4 + ADDRESS_5), 5)
  {
    hide BitsOf, Numbers, HASH, Off;
    HashNumbers();
    PayloadNumbers();
    Join([0, 203, 72, 18, 50], [41, 156, 213, 116, 49], [81, 172, 75, 45, 99], [174, 25, 142, 123, 176], [169], 8);
    Join([0, 3, 5, 20, 16, 4, 17, 18], [5, 6, 14, 13, 10, 29, 1, 17], [10, 6, 22, 4, 22, 11, 11, 3],
         [21, 24, 12, 24, 28, 30, 29, 16], [21, 4], 5);
    HashBits1();
    HashBits2();
    HashBits3();
    HashBits4();
    LastBits();
  }

  lemma AddressLengths()
    ensures |HASH| == 20 && |ADDRESS_6| == 8
  {}

  lemma SymbolsBelow(v: Data)
    requires AllSymbols(v)
    ensures Below(Numbers(v), 5)
  {
    hide Numbers;
    assert Pow2(5) == 32 by { Powers(); }
    forall i | 0 <= i < |v| ensures Numbers(v)[i] < 32 { SymbolNumber(v[i]); }
  }

  lemma HashPacks()
    ensures Converted([0] + HASH, 8, 5, true) == Ok(ADDRESS_1 + ADDRESS_2 + ADDRESS_3 + ADDRESS_4 + ADDRESS_5)
  {
    hide BitsOf, Numbers, Off, Groups, Bytes, ADDRESS_1, ADDRESS_2, ADDRESS_3, ADDRESS_4, ADDRESS_5, HASH;
    var v := ADDRESS_1 + ADDRESS_2 + ADDRESS_3 + ADDRESS_4 + ADDRESS_5;
    AddressLengths();
    AddressText();
    PayloadBits();
    SymbolsBelow(v);
    GroupsOfBits(Numbers(v), 5);
    BytesNumbers(v);
    assert |BitsOf(Numbers([0] + HASH), 8)| == 168;
  }

  lemma AddressVerifies()
    ensures IsText("bitcoincash")
    ensures Verifies(BytesOf("bitcoincash"),
                     ADDRESS_1 + ADDRESS_2 + ADDRESS_3 + ADDRESS_4 + ADDRESS_5 + ADDRESS_6)
  {
    hide Fold, Verifies, PREFIX, ADDRESS_1, ADDRESS_2, ADDRESS_3, ADDRESS_4, ADDRESS_5, ADDRESS_6, BytesOf;
    AddressFolds();
    var v := ADDRESS_1 + ADDRESS_2 + ADDRESS_3 + ADDRESS_4 + ADDRESS_5 + ADDRESS_6;
    assert PREFIX + ADDRESS_1 + ADDRESS_2 + ADDRESS_3 + ADDRESS_4 + ADDRESS_5 + ADDRESS_6 == PREFIX + v;
    FoldedVerifies(v);
  }

  /** The second example of the CashAddr specification: the hash is written as this address, which is read
      back as the hash. */
  lemma AddressKnown()
    ensures IsText("bitcoincash")
    ensures var s := "qr95sy3j" + "9xwd2ap3" + "2xkykttr" + "4cvcu7as" + "4y" + "0qverfuy";
            && CheckEncoded(HASH, "bitcoincash", P2PKH) == s
            && CheckDecoded("bitcoincash" + ":" + s) == Done((HASH, "bitcoincash", P2PKH))
  {
    hide Verifies, Chars, Converted, Packed, CheckEncoded, CheckDecoded, PREFIX, HASH, BytesOf, ChecksumOf,
         ADDRESS_1, ADDRESS_2, ADDRESS_3, ADDRESS_4, ADDRESS_5, ADDRESS_6, Expanded;
    var payload := ADDRESS_1 + ADDRESS_2 + ADDRESS_3 + ADDRESS_4 + ADDRESS_5;
    AddressLengths();
    PrefixExpands();
    HashPacks();
    PackedTwenty(HASH, P2PKH);
    AddressText();
    AddressVerifies();
    ChecksumUnique(BytesOf("bitcoincash"), payload, ADDRESS_6);
    TextOf(HASH, "bitcoincash", P2PKH, payload);
    AddressRoundTrip(HASH, "bitcoincash", P2PKH);
  }
}
