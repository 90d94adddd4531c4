/** What the decoder accepts: in lower case exactly what the encoder writes, and on which strings it
    panics. */
module CashAddrInverse {
  import opened Register
  import opened Checksum
  import opened BitGroups
  import opened CashAddr

  // ----- Codewords -----

  /** Before eight symbols have been read the leading 1 is still in the register. */
  lemma {:induction false} LeadingOne(v: seq<bv5>)
    requires |v| < 8
    ensures Run(ONE, v)[|v|] == 1 && forall k :: |v| < k < 8 ==> Run(ONE, v)[k] == 0
  {
    if v != [] {
      hide Advance, GENERATOR;
      var p := Run(ONE, v[..|v| - 1]);
      LeadingOne(v[..|v| - 1]);
      AdvanceByShift(p, v[|v| - 1]);
      assert Run(ONE, v) == [v[|v| - 1]] + p[..7];
    }
  }

  lemma ShortIsNoCodeword(v: Data)
    requires AllSymbols(v) && 0 < |v| < 8
    ensures !IsCodeword(v)
  {
    hide IsCodeword, Run, Symbols;
    LeadingOne(Symbols(v));
    VerifiesRuns(v);
  }

  /** A list of symbols is a codeword exactly when its last eight complete the others. */
  lemma CodewordIff(v: Data)
    requires AllSymbols(v) && v != []
    ensures IsCodeword(v) <==> |v| >= 8 && v[|v| - 8..] == Completion(v[..|v| - 8])
  {
    hide IsCodeword, Completion;
    if |v| < 8 {
      ShortIsNoCodeword(v);
    } else {
      var head, tail := v[..|v| - 8], v[|v| - 8..];
      assert v == head + tail;
      assert AllSymbols(head) && AllSymbols(tail);
      CompletionUnique(head, tail);
    }
  }

  // ----- Where the decoder panics -----

  /** The symbols that the checksum of an address is taken over. */
  ghost function Covered(s: string): Data
    requires WellFormed(s) && AllInCharset(s[Separator(s) + 1..])
  {
    SmallText(s[..Separator(s)]);
    Expanded(BytesOf(Lowered(s[..Separator(s)]))) + Values(s[Separator(s) + 1..])
  }

  lemma CoveredSymbols(s: string)
    requires WellFormed(s) && AllInCharset(s[Separator(s) + 1..])
    ensures AllSymbols(Covered(s)) && Covered(s) != []
  {
    hide Separator, Lowered, Values, Expanded, WellFormed, BytesOf;
    LettersFirst(s);
    ValuesSymbols(s[Separator(s) + 1..]);
    SmallText(s[..Separator(s)]);
    ExpandedSymbols(BytesOf(Lowered(s[..Separator(s)])), Values(s[Separator(s) + 1..]));
  }

  lemma LettersFirst(s: string)
    requires WellFormed(s)
    ensures Separator(s) < |s| && forall i :: 0 <= i < Separator(s) ==> IsLetter(s[i])
  {}

  /** The decoder panics exactly on well-formed strings with fewer than eight symbols after the
      separator whose prefix and symbols together end in their own checksum. */
  lemma PanicsIff(s: string)
    ensures Decoded(s) == Panicked <==>
            && WellFormed(s) && AllInCharset(s[Separator(s) + 1..]) && |s| - Separator(s) - 1 < 8
            && var v := Covered(s); |v| >= 8 && v[|v| - 8..] == Completion(v[..|v| - 8])
  {
    hide Separator, WellFormed, InCharset, Completion, FlawOf, IsCodeword, Lowered, Values, BytesOf, Expanded;
    if WellFormed(s) {
      LettersFirst(s);
      if AllInCharset(s[Separator(s) + 1..]) {
        CoveredSymbols(s);
        CodewordIff(Covered(s));
      }
    }
  }

  /** Eight or more symbols after the separator are safe. */
  lemma LongNeverPanics(s: string)
    requires |s| - Separator(s) - 1 >= 8
    ensures Decoded(s) != Panicked
  {
    hide Separator, Completion, Covered, Decoded, InCharset;
    PanicsIff(s);
  }

  /** The low five bits of every byte of the prefix. */
  ghost function Low(prefix: string): Data
    requires IsText(prefix)
  { Expanded(BytesOf(prefix))[..|prefix|] }

  lemma LowSymbols(prefix: string)
    requires IsText(prefix)
    ensures AllSymbols(Low(prefix)) && Expanded(BytesOf(prefix)) == Low(prefix) + [0]
  {
    var e := Expanded(BytesOf(prefix));
    ExpandedSymbols(BytesOf(prefix), []);
    assert e + [] == e;
    assert e == e[..|prefix|] + [e[|prefix|]];
  }

  lemma CheckedShort(prefix: string, s: Data)
    requires IsText(prefix) && |s| < 8
    ensures Checked(prefix, s) == Panicked <==> IsCodeword(Expanded(BytesOf(prefix)) + s)
  {
    hide IsCodeword;
  }

  lemma Regroup(e: Data, low: Data, s: Data)
    requires e == low + [0]
    ensures e + s == low + ([0] + s)
  {}

  lemma ZeroFirst(s: Data)
    requires AllSymbols(s)
    ensures AllSymbols([0] + s)
  {}

  /** Seven symbols under a prefix panic exactly when a zero and they are the completion of the
      prefix. */
  lemma SevenPanicIff(prefix: string, s: Data)
    requires IsPrefix(prefix) && IsText(prefix) && AllSymbols(s) && |s| == 7
    ensures Decoded(prefix + ":" + Chars(s)) == Panicked <==> [0] + s == Completion(Low(prefix))
  {
    hide *;
    LowerDecodes(prefix, s);
    CheckedShort(prefix, s);
    LowSymbols(prefix);
    Regroup(Expanded(BytesOf(prefix)), Low(prefix), s);
    ZeroFirst(s);
    assert |[0] + s| == 8;
    assert WINDOW == 8 by { WindowIs(); }
    CompletionUnique(Low(prefix), [0] + s);
  }

  lemma WindowIs()
    ensures WINDOW == 8
  {}

  /** Some address with seven symbols panics under a prefix exactly when the prefix's completion
      starts with zero. */
  lemma PanickingAddressIff(prefix: string)
    requires IsPrefix(prefix) && IsText(prefix)
    ensures (exists s: Data :: |s| == 7 && AllSymbols(s) && Decoded(prefix + ":" + Chars(s)) == Panicked)
            <==> Completion(Low(prefix))[0] == 0
  {
    hide Decoded, Completion, Chars, IsPrefix, Low;
    var done := Completion(Low(prefix));
    if s: Data :| |s| == 7 && AllSymbols(s) && Decoded(prefix + ":" + Chars(s)) == Panicked {
      SevenPanicIff(prefix, s);
      assert ([0] + s)[0] == 0;
    }
    if done[0] == 0 {
      CompletionSymbols(Low(prefix));
      var s := done[1..];
      assert done == [0] + s;
      SevenPanicIff(prefix, s);
    }
  }

  lemma CompletionSymbols(v: Data)
    ensures AllSymbols(Completion(v))
  {
    SuffixSymbols(Fold(v + EIGHT_ZEROS) ^ 1);
  }

  lemma {:induction false} FoldMore(v: Data, d: bv8)
    ensures Fold(v + [d]) == Step(Fold(v), d)
  {
    hide Step;
    assert (v + [d])[..|v|] == v;
  }

  lemma FirstSteps()
    ensures Step(1, 3) == 0x23 && Step(0x23, 0) == 0x460 && Step(0x460, 0) == 0x8c00
  {}

  lemma MiddleSteps()
    ensures Step(0x8c00, 12) == 0x11800c && Step(0x11800c, 13) == 0x230018d && Step(0x230018d, 4) == 0x460031a4
  {}

  lemma LastSteps()
    ensures Step(0x460031a4, 10) == 0x8c006348a && Step(0x8c006348a, 2) == 0x80f27a1f23 && Step(0x80f27a1f23, 17) == 1
  {}

  const WITNESS: Data := [0, 12, 13, 4, 10, 2, 17]

  /** The register over the prefix "c" and the seven symbols. */
  lemma WitnessFolds()
    ensures Fold([3, 0, 0, 12, 13, 4, 10, 2, 17]) == 1
  {
    hide Step;
    FirstSteps();
    MiddleSteps();
    LastSteps();
    var a: Data := [];
    assert Fold(a) == 1;
    FoldMore(a, 3);
    FoldMore(a + [3], 0);
    FoldMore(a + [3] + [0], 0);
    var b: Data := [3, 0, 0];
    assert a + [3] + [0] + [0] == b;
    FoldMore(b, 12);
    FoldMore(b + [12], 13);
    FoldMore(b + [12] + [13], 4);
    var c: Data := [3, 0, 0, 12, 13, 4];
    assert b + [12] + [13] + [4] == c;
    FoldMore(c, 10);
    FoldMore(c + [10], 2);
    FoldMore(c + [10] + [2], 17);
    assert c + [10] + [2] + [17] == [3, 0, 0, 12, 13, 4, 10, 2, 17];
  }

  /** "c:qvdy2z3" */
  lemma PanicExample()
    ensures AllSymbols(WITNESS) && Chars(WITNESS) == "qvdy2z3" && Decoded("c:" + "qvdy2z3") == Panicked
  {
    hide Decoded, Fold, Chars;
    WitnessChars();
    WitnessFolds();
    assert IsPrefix("c") && IsText("c");
    assert BytesOf("c") == [0x63] by { assert "c"[1..] == "" && ByteOf('c') == 0x63; }
    assert Expanded([0x63]) == [3, 0] by { assert 0x63 as bv8 & 0x1f == 3; }
    assert [3, 0] + WITNESS == [3, 0, 0, 12, 13, 4, 10, 2, 17];
    LowerDecodes("c", WITNESS);
    assert "c" + ":" + "qvdy2z3" == "c:" + "qvdy2z3";
  }

  lemma WitnessChars()
    ensures AllSymbols(WITNESS) && Chars(WITNESS) == "qvdy2z3"
  {
    hide Chars;
    assert CHARSET[0] == 'q' && CHARSET[12] == 'v' && CHARSET[13] == 'd' && CHARSET[4] == 'y';
    assert CHARSET[10] == '2' && CHARSET[2] == 'z' && CHARSET[17] == '3';
  }

  // ----- Accepted strings are encodings -----

  function ToLower(c: char): char { if IsUpper(c) then (c as int + 32) as char else c }

  function ToLowerAll(s: string): (r: string)
    ensures |r| == |s| && forall i :: 0 <= i < |s| ==> r[i] == ToLower(s[i])
  { if s == [] then [] else ToLowerAll(s[..|s| - 1]) + [ToLower(s[|s| - 1])] }

  lemma DigitOf(c: char)
    requires IsDigit(c) && InCharset(c)
    ensures Rev(c) >= 0 && Rev(c) < 32 && CHARSET[Rev(c)] == c
  {
    if c == '0' { assert CHARSET[15] == c; } else if c == '2' { assert CHARSET[10] == c; } else
    if c == '3' { assert CHARSET[17] == c; } else if c == '4' { assert CHARSET[21] == c; } else
    if c == '5' { assert CHARSET[20] == c; } else if c == '6' { assert CHARSET[26] == c; } else
    if c == '7' { assert CHARSET[30] == c; } else if c == '8' { assert CHARSET[7] == c; } else
    if c == '9' { assert CHARSET[5] == c; }
  }

  lemma LetterOf(c: char)
    requires IsLower(c) && InCharset(c)
    ensures Rev(c) >= 0 && Rev(c) < 32 && CHARSET[Rev(c)] == c
  {
    hide Rev;
    if c < 'm' { EarlyLetterOf(c); } else if c < 't' { MiddleLetterOf(c); } else { LateLetterOf(c); }
  }

  lemma EarlyLetterOf(c: char)
    requires 'a' <= c < 'm' && InCharset(c)
    ensures Rev(c) >= 0 && Rev(c) < 32 && CHARSET[Rev(c)] == c
  {
    if c == 'a' { assert CHARSET[29] == c; } else if c == 'c' { assert CHARSET[24] == c; } else
    if c == 'd' { assert CHARSET[13] == c; } else if c == 'e' { assert CHARSET[25] == c; } else
    if c == 'f' { assert CHARSET[9] == c; } else if c == 'g' { assert CHARSET[8] == c; } else
    if c == 'h' { assert CHARSET[23] == c; } else if c == 'j' { assert CHARSET[18] == c; } else
    if c == 'k' { assert CHARSET[22] == c; } else if c == 'l' { assert CHARSET[31] == c; }
  }

  lemma MiddleLetterOf(c: char)
    requires 'm' <= c < 't' && InCharset(c)
    ensures Rev(c) >= 0 && Rev(c) < 32 && CHARSET[Rev(c)] == c
  {
    if c == 'm' { assert CHARSET[27] == c; } else if c == 'n' { assert CHARSET[19] == c; } else
    if c == 'p' { assert CHARSET[1] == c; } else if c == 'q' { assert CHARSET[0] == c; } else
    if c == 'r' { assert CHARSET[3] == c; } else if c == 's' { assert CHARSET[16] == c; }
  }

  lemma LateLetterOf(c: char)
    requires 't' <= c <= 'z' && InCharset(c)
    ensures Rev(c) >= 0 && Rev(c) < 32 && CHARSET[Rev(c)] == c
  {
    if c == 't' { assert CHARSET[11] == c; } else if c == 'u' { assert CHARSET[28] == c; } else
    if c == 'v' { assert CHARSET[12] == c; } else if c == 'w' { assert CHARSET[14] == c; } else
    if c == 'x' { assert CHARSET[6] == c; } else if c == 'y' { assert CHARSET[4] == c; } else
    if c == 'z' { assert CHARSET[2] == c; }
  }

  /** The character set inverts the decoding table, up to case. */
  lemma CharOfValue(c: char)
    requires InCharset(c) && (IsLetter(c) || IsDigit(c))
    ensures Value(c) < 32 && CHARSET[Value(c) as int] == ToLower(c)
  {
    RevRange(c);
    hide Rev;
    SmallByte(Rev(c));
    if IsDigit(c) {
      DigitOf(c);
    } else if IsLower(c) {
      LetterOf(c);
    } else {
      var l := ToLower(c);
      assert IsLower(l) && ToUpper(l) == c;
      UpperRev(l);
      LetterOf(l);
    }
  }

  lemma CharsOfValues(s: string)
    requires AllInCharset(s) && forall i :: 0 <= i < |s| ==> IsLetter(s[i]) || IsDigit(s[i])
    ensures AllSymbols(Values(s)) && Chars(Values(s)) == ToLowerAll(s)
  {
    hide InCharset, Value, Values, Chars, ToLower, IsLetter, IsDigit;
    ValuesSymbols(s);
    forall i | 0 <= i < |s| ensures Chars(Values(s))[i] == ToLower(s[i]) {
      ValuesAt(s, i);
      CharOfValue(s[i]);
    }
  }

  lemma LoweredIs(head: string)
    requires forall i :: 0 <= i < |head| ==> IsLetter(head[i]) && head[i] as int < 128
    ensures Lowered(head) == ToLowerAll(head) && IsText(Lowered(head))
  {
    hide Lowered, ToLowerAll;
    forall i | 0 <= i < |head| ensures LowerCase(head[i]) == ToLower(head[i]) && LowerCase(head[i]) as int < 256 {}
  }

  /** A well-formed string in lower case: its prefix, the separator and its symbols. */
  lemma LoweredText(s: string)
    requires WellFormed(s) && AllInCharset(s[Separator(s) + 1..])
    ensures var head, rest := s[..Separator(s)], s[Separator(s) + 1..];
            && (forall i :: 0 <= i < |head| ==> IsLetter(head[i]) && head[i] as int < 128)
            && IsText(Lowered(head)) && AllSymbols(Values(rest))
            && ToLowerAll(s) == Lowered(head) + ":" + Chars(Values(rest))
  {
    hide Separator, HasLower, HasUpper, Lowered, Values, InCharset, Chars, ToLowerAll;
    var p := Separator(s);
    var head, rest := s[..p], s[p + 1..];
    SmallText(head);
    LoweredIs(head);
    CharsOfValues(rest);
    assert s[p] == ':' by { SeparatorIs(s); }
    var l, r := ToLowerAll(s), Lowered(head) + ":" + Chars(Values(rest));
    forall i | 0 <= i < |s| ensures l[i] == r[i] {
      if i < p { assert s[i] == head[i]; } else if i > p { assert s[i] == rest[i - p - 1]; }
    }
  }

  lemma SeparatorIs(s: string)
    requires Separator(s) < |s|
    ensures s[Separator(s)] == ':'
  {}

  /** Every string that decodes is, in lower case, what the encoder writes for its prefix and payload. */
  lemma DecodedIsEncoded(s: string)
    requires Decoded(s).Done?
    ensures var (prefix, payload) := Decoded(s).value;
            IsText(prefix) && AllSymbols(payload) && ToLowerAll(s) == prefix + ":" + Encoded(prefix, payload)
  {
    hide Separator, HasLower, HasUpper, Lowered, Values, Verifies, InCharset, Chars, ToLowerAll, BytesOf;
    LoweredText(s);
    var values := Values(s[Separator(s) + 1..]);
    var prefix := Lowered(s[..Separator(s)]);
    var n := |values| - 8;
    var payload, sum := values[..n], values[n..];
    assert values == payload + sum;
    assert AllSymbols(payload) && AllSymbols(sum) by { Parts(values, n); }
    assert WINDOW == 8 by { WindowIs(); }
    ChecksumUnique(BytesOf(prefix), payload, sum);
  }

  lemma Parts(v: Data, n: nat)
    requires AllSymbols(v) && n <= |v|
    ensures AllSymbols(v[..n]) && AllSymbols(v[n..])
  {}

  /** The version byte of an address that decodes. */
  ghost function Version(s: string): bv8
    requires CheckDecoded(s).Done?
  { Converted(Decoded(s).value.1, 5, 8, false).value[0] }

  lemma CharsInjective(v: Data, w: Data)
    requires AllSymbols(v) && AllSymbols(w) && Chars(v) == Chars(w)
    ensures v == w
  {
    hide Chars, Values;
    CharsValues(v);
    CharsValues(w);
  }

  /** The payload of an address that decodes is the encoding of its version byte and hash. */
  lemma PayloadIs(s: string)
    requires CheckDecoded(s).Done?
    ensures Converted([Version(s)] + CheckDecoded(s).value.0, 8, 5, true) == Ok(Decoded(s).value.1)
  {
    hide Decoded, Converted;
    var payload := Decoded(s).value.1;
    var data := Converted(payload, 5, 8, false).value;
    DecodedSymbols(s);
    SymbolsRoundTrip(payload, data);
    assert data == [data[0]] + data[1..21];
  }

  lemma PackedTwenty(hash: seq<bv8>, t: int)
    requires |hash| == 20 && (t == P2PKH || t == P2SH)
    ensures Packed(t, hash) == Converted([if t == P2SH then 8 else 0] + hash, 8, 5, true)
  {
    hide Converted, VersionByte;
    VersionOf(t);
  }

  /** An address that decodes is, in lower case, the one the encoder makes of the result exactly when
      its version byte is one of the two the encoder writes. */
  lemma AddressCanonicalIff(s: string)
    requires CheckDecoded(s).Done?
    ensures var (hash, prefix, t) := CheckDecoded(s).value;
            && IsText(prefix)
            && (ToLowerAll(s) == prefix + ":" + CheckEncoded(hash, prefix, t) <==> Version(s) == 0 || Version(s) == 8)
  {
    hide Decoded, Converted, Encoded, ToLowerAll, Packed, VersionByte;
    var (hash, prefix, t) := CheckDecoded(s).value;
    var payload := Decoded(s).value.1;
    DecodedIsEncoded(s);
    PayloadIs(s);
    PackedTwenty(hash, t);
    PackedSymbols([if t == P2SH then 8 else 0] + hash);
    var k := Packed(t, hash).value;
    TextOf(hash, prefix, t, k);
    if ToLowerAll(s) == prefix + ":" + CheckEncoded(hash, prefix, t) {
      SameTail(prefix + ":", Encoded(prefix, payload), Encoded(prefix, k));
      EncodedInjective(prefix, payload, k);
      BytesRoundTrip([Version(s)] + hash);
      BytesRoundTrip([if t == P2SH then 8 else 0] + hash);
      assert ([Version(s)] + hash)[0] == ([if t == P2SH then 8 else 0] + hash)[0];
    }
  }

  lemma TextOf(hash: seq<bv8>, prefix: string, t: int, k: Data)
    requires IsText(prefix) && Packed(t, hash) == Ok(k)
    ensures AllSymbols(k) && CheckEncoded(hash, prefix, t) == Encoded(prefix, k)
  {
    hide Encoded, VersionByte, Converted;
    PackedSymbols([VersionByte(t, (|hash| - 20) / 4)] + hash);
  }

  lemma SameTail(a: string, b: string, c: string)
    requires a + b == a + c
    ensures b == c
  {
    assert (a + b)[|a|..] == b && (a + c)[|a|..] == c;
  }

  lemma EncodedInjective(prefix: string, v: Data, w: Data)
    requires IsText(prefix) && AllSymbols(v) && AllSymbols(w) && Encoded(prefix, v) == Encoded(prefix, w)
    ensures v == w
  {
    hide Chars, BytesOf, ChecksumOf;
    var a, b := ChecksumOf(BytesOf(prefix), v), ChecksumOf(BytesOf(prefix), w);
    ChecksumSymbols(BytesOf(prefix), v);
    ChecksumSymbols(BytesOf(prefix), w);
    CharsInjective(v + a, w + b);
    assert (v + a)[..|v|] == v && (w + b)[..|w|] == w;
  }

  // ----- Every outcome -----

  /** The symbols end in the checksum of the others. */
  ghost predicate EndsInChecksum(v: Data) { |v| >= 8 && v[|v| - 8..] == Completion(v[..|v| - 8]) }

  /** A well-formed string with a character outside the set is refused for that, one that does not end in its
      checksum for that, and of the others just those with eight symbols or more are decoded. */
  lemma DecodeOutcomes(s: string)
    requires WellFormed(s)
    ensures !AllInCharset(s[Separator(s) + 1..]) ==> Decoded(s) == Failed(InvalidCharacter)
    ensures AllInCharset(s[Separator(s) + 1..]) ==>
              && (Decoded(s) == Failed(ChecksumMismatch) <==> !EndsInChecksum(Covered(s)))
              && (Decoded(s).Done? <==> EndsInChecksum(Covered(s)) && |s| - Separator(s) - 1 >= 8)
  {
    hide Separator, WellFormed, InCharset, Completion, FlawOf, IsCodeword, Lowered, Values, BytesOf, Expanded;
    LettersFirst(s);
    if AllInCharset(s[Separator(s) + 1..]) {
      CoveredSymbols(s);
      CodewordIff(Covered(s));
    }
  }

  /** The error of a string that does not decode is the error of the address. */
  lemma ErrorsPass(s: string)
    requires !Decoded(s).Done?
    ensures CheckDecoded(s) == if Decoded(s).Panicked? then Panicked else Failed(Decoded(s).error)
  {
    hide Decoded;
  }

  /** A payload that is the encoding of some bytes gives an address exactly if these are 21, a version byte
      and a hash; the type is P2SH for version byte 8 and else P2PKH. */
  lemma AddressOutcome(s: string, d: seq<bv8>)
    requires Decoded(s).Done? && Converted(d, 8, 5, true) == Ok(Decoded(s).value.1)
    ensures CheckDecoded(s) == if |d| == 21 then Done((d[1..], Decoded(s).value.0, if d[0] == 8 then P2SH else P2PKH))
                               else Failed(BadLength)
  {
    hide Decoded, Converted;
    BytesRoundTrip(d);
    if |d| == 21 { assert d[1..21] == d[1..]; }
  }

  /** A payload that is the encoding of no bytes is refused for its padding. */
  lemma PaddingRefusedIff(s: string)
    requires Decoded(s).Done?
    ensures CheckDecoded(s) == Failed(BadPadding)
            <==> forall d: seq<bv8> :: Converted(d, 8, 5, true) != Ok(Decoded(s).value.1)
  {
    hide Decoded, Converted;
    var payload := Decoded(s).value.1;
    if d: seq<bv8> :| Converted(d, 8, 5, true) == Ok(payload) { AddressOutcome(s, d); }
    if Converted(payload, 5, 8, false).Ok? {
      var d := Converted(payload, 5, 8, false).value;
      DecodedSymbols(s);
      SymbolsRoundTrip(payload, d);
    }
  }
}
