/** What the checksum guards against, as a matter of whole address strings: the prefix, the separator
    and the letter case included. */
module CashAddrBurst {
  import opened Checksum
  import opened CashAddr
  import opened CashAddrInverse

  /** The strings whose checksum is looked at. */
  ghost predicate Readable(s: string) { WellFormed(s) && AllInCharset(s[Separator(s) + 1..]) }

  /** The symbols the checksum is taken over, place by place. */
  lemma CoveredAt(s: string, i: nat)
    requires Readable(s) && i < |s|
    ensures |Covered(s)| == |s|
    ensures i < Separator(s) ==>
              IsLetter(s[i]) && LowerCase(s[i]) as int < 256 && Covered(s)[i] == ByteOf(LowerCase(s[i])) & 0x1f
    ensures i == Separator(s) ==> Covered(s)[i] == 0
    ensures i > Separator(s) ==> InCharset(s[i]) && Covered(s)[i] == Value(s[i])
  {
    hide Separator, HasLower, HasUpper, Lowered, Values, InCharset, Value, Expanded, BytesOf, ByteOf, LowerCase;
    var p := Separator(s);
    var head, rest := s[..p], s[p + 1..];
    SmallText(head);
    BytesAt(Lowered(head));
    if i < p {
      assert s[i] == head[i];
    } else if i > p {
      assert s[i] == rest[i - p - 1];
      ValuesAt(rest, i - p - 1);
    }
  }

  lemma {:induction false} BytesAt(s: string)
    requires IsText(s)
    ensures forall i :: 0 <= i < |s| ==> BytesOf(s)[i] == ByteOf(s[i])
  {
    hide ByteOf;
    if s != [] {
      BytesAt(s[1..]);
      forall i | 0 <= i < |s| ensures BytesOf(s)[i] == ByteOf(s[i]) {
        if i > 0 { assert BytesOf(s)[i] == BytesOf(s[1..])[i - 1] && s[1..][i - 1] == s[i]; }
      }
    }
  }

  // ----- Letters by their low five bits -----

  lemma LowFive(b: bv8)
    requires 0x61 <= b <= 0x7a
    ensures b & 0x1f == b - 0x60
  {}

  lemma ByteOfLetter(c: char)
    requires IsLower(c)
    ensures 0x61 <= ByteOf(c) <= 0x7a && ByteOf(c) as int == c as int
  {
    SmallAsByte(c as int);
  }

  lemma SmallAsByte(n: int)
    requires 0x61 <= n <= 0x7a
    ensures 0x61 <= n as bv8 <= 0x7a && (n as bv8) as int == n
  {}

  lemma LowerLetter(c: char)
    requires IsLetter(c)
    ensures c as int < 128 && IsLower(LowerCase(c)) && LowerCase(c) == ToLower(c)
  {}

  /** The low five bits tell letters apart, and none of them is the separator's 0. */
  lemma LettersApart(c: char, d: char)
    requires IsLower(c) && IsLower(d)
    ensures ByteOf(c) & 0x1f != 0
    ensures ByteOf(c) & 0x1f == ByteOf(d) & 0x1f ==> c == d
  {
    hide ByteOf;
    ByteOfLetter(c);
    ByteOfLetter(d);
    LowFive(ByteOf(c));
    LowFive(ByteOf(d));
    if ByteOf(c) & 0x1f == ByteOf(d) & 0x1f { SameMinus(ByteOf(c), ByteOf(d)); }
    NotZero(ByteOf(c));
  }

  lemma SameMinus(a: bv8, b: bv8)
    requires a - 0x60 == b - 0x60 && a >= 0x61 && b >= 0x61
    ensures a == b
  {}

  lemma NotZero(a: bv8)
    requires 0x61 <= a <= 0x7a
    ensures a - 0x60 != 0
  {}

  // ----- Where the separators are -----

  /** Two well-formed strings that differ only from lo to hi have their separators at the same place,
      or both in between. */
  lemma Separators(s: string, t: string, lo: nat, hi: nat)
    requires WellFormed(s) && WellFormed(t) && |s| == |t|
    requires forall i :: 0 <= i < |s| && !(lo <= i < hi) ==> s[i] == t[i]
    ensures Separator(s) == Separator(t) || (lo <= Separator(s) < hi && lo <= Separator(t) < hi)
  {
    hide Separator, HasLower, HasUpper;
    var p, q := Separator(s), Separator(t);
    assert s[p] == ':' && t[q] == ':' by { SeparatorIs(s); SeparatorIs(t); }
    OnlySeparator(s, q);
    OnlySeparator(t, p);
  }

  lemma OnlySeparator(s: string, i: nat)
    requires WellFormed(s) && i < |s|
    ensures s[i] == ':' <==> i == Separator(s)
  {
    hide Separator, HasLower, HasUpper;
    SeparatorIs(s);
  }

  lemma SameOutside(s: string, t: string, lo: nat, hi: nat, i: nat)
    requires Readable(s) && Readable(t)
    requires |s| == |t| && forall i :: 0 <= i < |s| && !(lo <= i < hi) ==> s[i] == t[i]
    requires i < |s| && !(lo <= i < hi)
    ensures |Covered(s)| == |Covered(t)| == |s| && Covered(s)[i] == Covered(t)[i]
  {
    hide Separator, WellFormed, InCharset, Value, ByteOf, LowerCase, Covered;
    Separators(s, t, lo, hi);
    CoveredAt(s, i);
    CoveredAt(t, i);
  }

  // ----- Equal symbols, equal addresses -----

  lemma SeparatorShows(s: string, t: string)
    requires Readable(s) && Readable(t)
    requires |s| == |t| && Covered(s) == Covered(t)
    ensures Separator(s) >= Separator(t)
  {
    hide Separator, WellFormed, InCharset, Value, ByteOf, LowerCase, Covered, IsLetter;
    var p := Separator(s);
    LettersFirst(s);
    CoveredAt(s, p);
    if p < Separator(t) {
      CoveredAt(t, p);
      LowerLetter(t[p]);
      LettersApart(LowerCase(t[p]), LowerCase(t[p]));
    }
  }

  lemma SameLetter(s: string, t: string, i: nat)
    requires Readable(s) && Readable(t) && |s| == |t| && i < Separator(s) && i < Separator(t)
    requires Covered(s) == Covered(t)
    ensures ToLower(s[i]) == ToLower(t[i])
  {
    hide Separator, ByteOf, LowerCase, Covered, IsLetter, ToLower, Readable;
    CoveredAt(s, i);
    CoveredAt(t, i);
    LowerLetter(s[i]);
    LowerLetter(t[i]);
    LettersApart(LowerCase(s[i]), LowerCase(t[i]));
  }

  lemma SameSymbol(s: string, t: string, i: nat)
    requires Readable(s) && Readable(t) && |s| == |t| && Separator(s) < i < |s| && Separator(t) < i
    requires Covered(s) == Covered(t)
    ensures ToLower(s[i]) == ToLower(t[i])
  {
    hide Separator, InCharset, Value, Covered, IsLetter, IsDigit, ToLower, WellFormed;
    CoveredAt(s, i);
    CoveredAt(t, i);
    LetterOrDigit(s, i);
    LetterOrDigit(t, i);
    CharOfValue(s[i]);
    CharOfValue(t[i]);
  }

  lemma LetterOrDigit(s: string, i: nat)
    requires WellFormed(s) && Separator(s) < i < |s|
    ensures IsLetter(s[i]) || IsDigit(s[i])
  {}

  /** The symbols determine the address, up to case. */
  lemma CoveredInjective(s: string, t: string)
    requires Readable(s) && Readable(t) && |s| == |t| && Covered(s) == Covered(t)
    ensures Separator(s) == Separator(t) && ToLowerAll(s) == ToLowerAll(t)
  {
    hide Separator, Covered, ToLowerAll, ToLower, Readable;
    SeparatorShows(s, t);
    SeparatorShows(t, s);
    forall i | 0 <= i < |s| ensures ToLower(s[i]) == ToLower(t[i]) {
      if i < Separator(s) {
        SameLetter(s, t, i);
      } else if i > Separator(s) {
        SameSymbol(s, t, i);
      } else {
        SeparatorIs(s);
        SeparatorIs(t);
      }
    }
  }

  // ----- Bursts -----

  lemma DecodedCovers(s: string)
    requires Decoded(s).Done?
    ensures Readable(s) && IsCodeword(Covered(s)) && AllSymbols(Covered(s))
  {
    hide Separator, WellFormed, FlawOf, InCharset, Lowered, Values, BytesOf, IsCodeword, Expanded;
    CoveredSymbols(s);
  }

  /** In one case, the case of the first letter decides that of the others. */
  lemma {:induction false} AllInCase(s: string, i: nat)
    requires i < |s|
    ensures IsLower(s[i]) ==> HasLower(s)
    ensures IsUpper(s[i]) ==> HasUpper(s)
  {
    if i < |s| - 1 { AllInCase(s[..|s| - 1], i); }
  }

  lemma SameCase(s: string, t: string)
    requires WellFormed(s) && WellFormed(t) && ToLowerAll(s) == ToLowerAll(t) && s[0] == t[0]
    ensures s == t
  {
    hide Separator, HasLower, HasUpper, ToLowerAll;
    AllInCase(s, 0);
    AllInCase(t, 0);
    assert |s| == |ToLowerAll(s)| == |t|;
    forall i | 0 <= i < |s| ensures s[i] == t[i] {
      AllInCase(s, i);
      AllInCase(t, i);
      assert ToLowerAll(s)[i] == ToLower(s[i]) && ToLowerAll(t)[i] == ToLower(t[i]);
    }
  }

  lemma CoveredLength(s: string)
    requires Readable(s)
    ensures |Covered(s)| == |s|
  {
    hide Separator, HasLower, HasUpper, Lowered, Values, InCharset, Expanded, BytesOf;
  }

  lemma BurstCovered(s: string, t: string, lo: nat, hi: nat)
    requires Readable(s) && Readable(t) && |s| == |t| && lo <= hi <= |s| && hi - lo <= 8
    requires forall i :: 0 <= i < |s| && !(lo <= i < hi) ==> s[i] == t[i]
    requires AllSymbols(Covered(s)) && AllSymbols(Covered(t)) && IsCodeword(Covered(s)) && IsCodeword(Covered(t))
    ensures Covered(s) == Covered(t)
  {
    hide Covered, WellFormed, AllInCharset, Separator, IsCodeword;
    CoveredLength(s);
    CoveredLength(t);
    var v, w := Covered(s), Covered(t);
    forall i | 0 <= i < |s| && !(lo <= i < hi) ensures v[i] == w[i] { SameOutside(s, t, lo, hi, i); }
    CodewordsApart(v, w, lo, hi);
  }

  /** Two accepted strings of equal length that differ only within eight consecutive characters, wherever
      those lie, are one address: they differ in case at most, decode to the same, and are identical
      unless the very first character is among the eight. */
  lemma StringBurstDetected(s: string, t: string, lo: nat, hi: nat)
    requires Decoded(s).Done? && Decoded(t).Done? && |s| == |t| && lo <= hi <= |s| && hi - lo <= 8
    requires forall i :: 0 <= i < |s| && !(lo <= i < hi) ==> s[i] == t[i]
    ensures ToLowerAll(s) == ToLowerAll(t) && Decoded(s) == Decoded(t) && (lo > 0 ==> s == t)
  {
    hide *;
    DecodedCovers(s);
    DecodedCovers(t);
    BurstCovered(s, t, lo, hi);
    CoveredInjective(s, t);
    DecodedByLower(s, t);
    if lo > 0 {
      NotEmpty(s);
      NotEmpty(t);
      SameCase(s, t);
    }
  }

  lemma NotEmpty(s: string)
    requires Readable(s)
    ensures WellFormed(s) && s != []
  {}

  /** Decoding looks at the lower-case string only. */
  lemma DecodedByLower(s: string, t: string)
    requires Decoded(s).Done? && Decoded(t).Done? && ToLowerAll(s) == ToLowerAll(t) && Separator(s) == Separator(t)
    ensures Decoded(s) == Decoded(t)
  {
    hide Separator, WellFormed, FlawOf, InCharset, Lowered, Values, BytesOf, IsCodeword, Expanded, Chars, ToLowerAll;
    LoweredText(s);
    LoweredText(t);
    var p := Separator(s);
    var a, b := Lowered(s[..p]), Lowered(t[..p]);
    var x, y := Values(s[p + 1..]), Values(t[p + 1..]);
    assert (a + ":" + Chars(x))[..p] == a && (b + ":" + Chars(y))[..p] == b;
    assert (a + ":" + Chars(x))[p + 1..] == Chars(x) && (b + ":" + Chars(y))[p + 1..] == Chars(y);
    CharsInjective(x, y);
  }
}
