/** Encoding and decoding of CashAddr addresses: packing the hash, the checksum, the character
    set, the sanity checks on the string, and the way back. Strings are sequences of characters
    standing for the bytes of a Go string. */
module CashAddr {
  import opened Arithmetic
  import opened Options
  import opened Checksum
  import opened BitGroups

  const P2PKH: int := 0
  const P2SH: int := 1

  const CHARSET: string := "qpzry9x8gf2tvdw0s3jn54khce6mua7l"

  /** The decoding table, sixteen entries to a row. */
  const CHARSET_REV: seq<seq<int>> := [
    [-1, -1, -1, -1, -1, -1, -1, -1, -1, -1, -1, -1, -1, -1, -1, -1],
    [-1, -1, -1, -1, -1, -1, -1, -1, -1, -1, -1, -1, -1, -1, -1, -1],
    [-1, -1, -1, -1, -1, -1, -1, -1, -1, -1, -1, -1, -1, -1, -1, -1],
    [15, -1, 10, 17, 21, 20, 26, 30, 7, 5, -1, -1, -1, -1, -1, -1],
    [-1, 29, -1, 24, 13, 25, 9, 8, 23, -1, 18, 22, 31, 27, 19, -1],
    [1, 0, 3, 16, 11, 28, 12, 14, 6, 4, 2, -1, -1, -1, -1, -1],
    [-1, 29, -1, 24, 13, 25, 9, 8, 23, -1, 18, 22, 31, 27, 19, -1],
    [1, 0, 3, 16, 11, 28, 12, 14, 6, 4, 2, -1, -1, -1, -1, -1]
  ]

  function Rev(c: char): int
    requires c as int < 128
  { CHARSET_REV[c as int / 16][c as int % 16] }

  datatype Error =
    | NumberInPrefix | MisplacedSeparator | UnexpectedCharacter | NoPrefix | MixedCase
    | InvalidCharacter | ChecksumMismatch | BadPadding | BadLength

  /** `Panicked` stands for a run-time panic of the original. */
  datatype Outcome<T> = Done(value: T) | Failed(error: Error) | Panicked

  predicate IsLower(c: char) { 'a' <= c <= 'z' }
  predicate IsUpper(c: char) { 'A' <= c <= 'Z' }
  predicate IsDigit(c: char) { '0' <= c <= '9' }
  predicate IsLetter(c: char) { IsLower(c) || IsUpper(c) }

  /** c | 0x20, for a byte below 128 */
  function LowerCase(c: char): char
    requires c as int < 128
  { if c as int / 32 % 2 == 1 then c else (c as int + 32) as char }

  function ToUpper(c: char): char { if IsLower(c) then (c as int - 32) as char else c }

  function ToUpperAll(s: string): (r: string)
    ensures |r| == |s| && forall i :: 0 <= i < |s| ==> r[i] == ToUpper(s[i])
  { if s == [] then [] else [ToUpper(s[0])] + ToUpperAll(s[1..]) }

  /** The position of the first ':', or the length when there is none. */
  function Separator(s: string): (p: nat)
    ensures p <= |s| && (p < |s| ==> s[p] == ':') && forall i :: 0 <= i < p ==> s[i] != ':'
  { if s == [] || s[0] == ':' then 0 else 1 + Separator(s[1..]) }

  predicate HasLower(s: string) { s != [] && (IsLower(s[|s| - 1]) || HasLower(s[..|s| - 1])) }
  predicate HasUpper(s: string) { s != [] && (IsUpper(s[|s| - 1]) || HasUpper(s[..|s| - 1])) }

  /** A nonempty prefix of letters, one separator, letters and digits, and no mixing of cases. */
  ghost predicate WellFormed(s: string) {
    var p := Separator(s);
    && 0 < p < |s|
    && (forall i :: 0 <= i < p ==> IsLetter(s[i]))
    && (forall i :: p < i < |s| ==> IsLetter(s[i]) || IsDigit(s[i]))
    && !(HasLower(s) && HasUpper(s))
  }

  predicate InCharset(c: char) { c as int < 128 && Rev(c) != -1 }

  ghost predicate AllInCharset(s: string) { forall i :: 0 <= i < |s| ==> InCharset(s[i]) }

  function Lowered(s: string): (r: string)
    requires forall i :: 0 <= i < |s| ==> s[i] as int < 128
    ensures |r| == |s| && forall i :: 0 <= i < |s| ==> r[i] == LowerCase(s[i])
  { if s == [] then [] else Lowered(s[..|s| - 1]) + [LowerCase(s[|s| - 1])] }

  lemma RevRange(c: char)
    requires c as int < 128
    ensures -1 <= Rev(c) < 32
  {
    var row := c as int / 16;
    if row == 0 {} else if row == 1 {} else if row == 2 {} else if row == 3 {} else if row == 4 {}
    else if row == 5 {} else if row == 6 {} else {}
  }

  lemma CharsetDecodes(n: nat)
    requires n < 32
    ensures var c := CHARSET[n]; InCharset(c) && Rev(c) == n && (IsLower(c) || IsDigit(c))
  {
    if n == 0 { assert CHARSET[0] == 'q'; } else if n == 1 { assert CHARSET[1] == 'p'; } else
    if n == 2 { assert CHARSET[2] == 'z'; } else if n == 3 { assert CHARSET[3] == 'r'; } else
    if n == 4 { assert CHARSET[4] == 'y'; } else if n == 5 { assert CHARSET[5] == '9'; } else
    if n == 6 { assert CHARSET[6] == 'x'; } else if n == 7 { assert CHARSET[7] == '8'; } else
    if n == 8 { assert CHARSET[8] == 'g'; } else if n == 9 { assert CHARSET[9] == 'f'; } else
    if n == 10 { assert CHARSET[10] == '2'; } else if n == 11 { assert CHARSET[11] == 't'; } else
    if n == 12 { assert CHARSET[12] == 'v'; } else if n == 13 { assert CHARSET[13] == 'd'; } else
    if n == 14 { assert CHARSET[14] == 'w'; } else if n == 15 { assert CHARSET[15] == '0'; } else
    if n == 16 { assert CHARSET[16] == 's'; } else if n == 17 { assert CHARSET[17] == '3'; } else
    if n == 18 { assert CHARSET[18] == 'j'; } else if n == 19 { assert CHARSET[19] == 'n'; } else
    if n == 20 { assert CHARSET[20] == '5'; } else if n == 21 { assert CHARSET[21] == '4'; } else
    if n == 22 { assert CHARSET[22] == 'k'; } else if n == 23 { assert CHARSET[23] == 'h'; } else
    if n == 24 { assert CHARSET[24] == 'c'; } else if n == 25 { assert CHARSET[25] == 'e'; } else
    if n == 26 { assert CHARSET[26] == '6'; } else if n == 27 { assert CHARSET[27] == 'm'; } else
    if n == 28 { assert CHARSET[28] == 'u'; } else if n == 29 { assert CHARSET[29] == 'a'; } else
    if n == 30 { assert CHARSET[30] == '7'; } else { assert CHARSET[31] == 'l'; }
  }

  /** The table treats a lower-case letter and its upper-case form alike. */
  lemma UpperRev(c: char)
    requires IsLower(c)
    ensures Rev(ToUpper(c)) == Rev(c)
  {
    assert CHARSET_REV[4] == CHARSET_REV[6] && CHARSET_REV[5] == CHARSET_REV[7];
    var n := c as int;
    assert (n - 32) / 16 == n / 16 - 2 && (n - 32) % 16 == n % 16;
    assert n / 16 == 6 || n / 16 == 7;
  }

  lemma CharsetDecodesUpper(n: nat)
    requires n < 32
    ensures var c := ToUpper(CHARSET[n]); InCharset(c) && Rev(c) == n && (IsUpper(c) || IsDigit(c))
  {
    hide Rev;
    CharsetDecodes(n);
    if IsLower(CHARSET[n]) { UpperRev(CHARSET[n]); }
  }

  // ----- Encoding -----

  ghost predicate IsText(s: string) { forall i :: 0 <= i < |s| ==> s[i] as int < 256 }

  function ByteOf(c: char): bv8
    requires c as int < 256
  { c as int as bv8 }

  function BytesOf(s: string): (b: seq<bv8>)
    requires IsText(s)
    ensures |b| == |s|
  { if s == [] then [] else [ByteOf(s[0])] + BytesOf(s[1..]) }

  function Chars(v: Data): (s: string)
    requires AllSymbols(v)
    ensures |s| == |v| && forall i :: 0 <= i < |v| ==> s[i] == CHARSET[v[i] as int]
  { if v == [] then [] else Chars(v[..|v| - 1]) + [CHARSET[v[|v| - 1] as int]] }

  /** The symbols, their checksum under the prefix, both written in the character set. */
  ghost function Encoded(prefix: string, payload: Data): (s: string)
    requires IsText(prefix) && AllSymbols(payload)
    ensures |s| == |payload| + 8
  {
    var sum := ChecksumOf(BytesOf(prefix), payload);
    ChecksumSymbols(BytesOf(prefix), payload);
    Chars(payload + sum)
  }

  /** A value of 32 or more is outside the character set, and looking it up panics. */
  method Encode(prefix: string, payload: Data) returns (r: Outcome<string>)
    requires IsText(prefix)
    ensures r == if AllSymbols(payload) then Done(Encoded(prefix, payload)) else Panicked
  {
    hide Chars, BytesOf, ChecksumOf, AllSymbols;
    var checksum := CreateChecksum(BytesOf(prefix), payload);
    ChecksumSymbols(BytesOf(prefix), payload);
    var combined := payload + checksum;
    var ret := "";
    NoChars();
    for i := 0 to |combined|
      invariant AllSymbols(combined[..i]) && ret == Chars(combined[..i])
    {
      if combined[i] >= 32 {
        TooLarge(payload, checksum, i);
        return Panicked;
      }
      OneMoreChar(combined, i);
      ret := ret + [CHARSET[combined[i] as int]];
    }
    assert combined[..|combined|] == combined;
    PayloadSymbols(payload, checksum);
    return Done(ret);
  }

  lemma NoChars()
    ensures AllSymbols([]) && Chars([]) == ""
  {}

  lemma OneMoreChar(v: Data, i: nat)
    requires i < |v| && AllSymbols(v[..i]) && v[i] < 32
    ensures AllSymbols(v[..i + 1]) && Chars(v[..i + 1]) == Chars(v[..i]) + [CHARSET[v[i] as int]]
  {
    assert v[..i + 1][..i] == v[..i];
  }

  lemma TooLarge(payload: Data, checksum: Data, i: nat)
    requires i < |payload + checksum| && (payload + checksum)[i] >= 32 && AllSymbols(checksum)
    ensures !AllSymbols(payload)
  {
    assert forall k :: 0 <= k < |checksum| ==> (payload + checksum)[|payload| + k] == checksum[k];
  }

  lemma PayloadSymbols(payload: Data, checksum: Data)
    requires AllSymbols(payload + checksum)
    ensures AllSymbols(payload)
  {
    assert forall i :: 0 <= i < |payload| ==> payload[i] == (payload + checksum)[i];
  }

  // ----- Decoding -----

  function Value(c: char): bv8
    requires InCharset(c)
  {
    RevRange(c);
    Rev(c) as bv8
  }

  /** The symbols the characters stand for. */
  function Values(s: string): (v: Data)
    requires AllInCharset(s)
    ensures |v| == |s|
  { if s == [] then [] else Values(s[..|s| - 1]) + [Value(s[|s| - 1])] }

  lemma {:induction false} ValuesAt(s: string, i: nat)
    requires AllInCharset(s) && i < |s|
    ensures Values(s)[i] == Value(s[i]) && Value(s[i]) < 32
  {
    if i < |s| - 1 {
      ValuesAt(s[..|s| - 1], i);
    } else {
      RevRange(s[i]);
      SmallByte(Rev(s[i]));
    }
  }

  lemma ValuesSymbols(s: string)
    requires AllInCharset(s)
    ensures AllSymbols(Values(s))
  {
    forall i | 0 <= i < |s| ensures Values(s)[i] < 32 { ValuesAt(s, i); }
  }

  lemma SmallByte(n: int)
    requires 0 <= n < 32
    ensures n as bv8 < 32 && (n as bv8) as int == n
  {}

  lemma SmallText(s: string)
    requires forall i :: 0 <= i < |s| ==> IsLetter(s[i])
    ensures (forall i :: 0 <= i < |s| ==> s[i] as int < 128) && IsText(Lowered(s))
  {}

  /** What is wrong with character c after the characters `before`. */
  function CharFlaw(before: string, c: char): Option<Error> {
    if IsLetter(c) then None
    else if IsDigit(c) then (if ':' in before then None else Some(NumberInPrefix))
    else if c == ':' then (if before == [] || ':' in before then Some(MisplacedSeparator) else None)
    else Some(UnexpectedCharacter)
  }

  /** The first flaw in reading order. */
  function ScanFlaw(s: string): Option<Error> {
    if s == [] then None
    else
      var first := ScanFlaw(s[..|s| - 1]);
      if first.Some? then first else CharFlaw(s[..|s| - 1], s[|s| - 1])
  }

  /** The error reported for a string that is not well formed. */
  function FlawOf(s: string): Error {
    if ScanFlaw(s).Some? then ScanFlaw(s).value else if ':' !in s then NoPrefix else MixedCase
  }

  lemma {:induction false} ScanFlawStays(s: string, i: nat)
    requires i <= |s| && ScanFlaw(s[..i]).Some?
    ensures ScanFlaw(s) == ScanFlaw(s[..i])
    decreases |s|
  {
    if i < |s| {
      assert s[..|s| - 1][..i] == s[..i];
      ScanFlawStays(s[..|s| - 1], i);
    } else {
      assert s[..i] == s;
    }
  }

  /** What decoding a string means: which strings are accepted, and with which prefix and payload. */
  ghost function Decoded(s: string): Outcome<(string, Data)> {
    if !WellFormed(s) then Failed(FlawOf(s))
    else if !AllInCharset(s[Separator(s) + 1..]) then Failed(InvalidCharacter)
    else
      SmallText(s[..Separator(s)]);
      Checked(Lowered(s[..Separator(s)]), Values(s[Separator(s) + 1..]))
  }

  ghost function Checked(prefix: string, values: Data): Outcome<(string, Data)>
    requires IsText(prefix)
  {
    if !Verifies(BytesOf(prefix), values) then Failed(ChecksumMismatch)
    else if |values| < 8 then Panicked
    else Done((prefix, values[..|values| - 8]))
  }

  method DecodeCashAddress(str: string) returns (r: Outcome<(string, Data)>)
    ensures r == Decoded(str)
  {
    hide WellFormed, FlawOf;
    var flaw, prefixSize := Scan(str);
    if flaw.Some? {
      return Failed(flaw.value);
    }
    r := DecodeValues(str, prefixSize);
  }

  lemma SeparatorFound(s: string)
    ensures Separator(s) < |s| <==> ':' in s
  {}

  lemma {:induction false} SeparatorAppend(s: string, c: char)
    ensures Separator(s + [c]) == if Separator(s) < |s| || c == ':' then Separator(s) else |s| + 1
  {
    if s == [] {
      assert (s + [c])[1..] == [];
    } else if s[0] != ':' {
      assert (s + [c])[1..] == s[1..] + [c];
      SeparatorAppend(s[1..], c);
    }
  }

  /** Letters up to the separator, which is not first; letters and digits after it. */
  ghost predicate Clean(s: string) {
    var p := Separator(s);
    && (forall i :: 0 <= i < p ==> IsLetter(s[i]))
    && (p < |s| ==> p > 0 && forall i :: p < i < |s| ==> IsLetter(s[i]) || IsDigit(s[i]))
  }

  /** The scan finds no flaw exactly in strings that are clean. */
  lemma {:induction false} FlawlessIsClean(s: string)
    ensures ScanFlaw(s).None? <==> Clean(s)
  {
    hide Separator;
    if s != [] {
      var n := |s| - 1;
      var head, c := s[..n], s[n];
      assert s == head + [c];
      FlawlessIsClean(head);
      SeparatorAppend(head, c);
      SeparatorFound(head);
      assert forall i :: 0 <= i < n ==> head[i] == s[i];
    }
  }

  /** Either clean, with a separator and in one case, or the reported error applies. */
  lemma FlawedIff(s: string)
    ensures WellFormed(s) <==> ScanFlaw(s).None? && ':' in s && !(HasLower(s) && HasUpper(s))
  {
    hide Separator, HasLower, HasUpper, ScanFlaw;
    FlawlessIsClean(s);
    SeparatorFound(s);
  }

  lemma NothingScanned()
    ensures ScanFlaw([]) == None && !HasLower([]) && !HasUpper([])
  {}

  /** What one more character changes. */
  lemma OneScanned(s: string, i: nat)
    requires i < |s| && ScanFlaw(s[..i]) == None
    ensures ScanFlaw(s[..i + 1]) == CharFlaw(s[..i], s[i])
    ensures HasLower(s[..i + 1]) == (IsLower(s[i]) || HasLower(s[..i]))
    ensures HasUpper(s[..i + 1]) == (IsUpper(s[i]) || HasUpper(s[..i]))
    ensures ':' in s[..i + 1] <==> s[i] == ':' || ':' in s[..i]
    ensures ':' in s[..i] ==> Separator(s[..i + 1]) == Separator(s[..i])
    ensures s[i] == ':' && ':' !in s[..i] ==> Separator(s[..i + 1]) == i
  {
    hide Separator;
    var head := s[..i];
    assert s[..i + 1] == head + [s[i]] && s[..i + 1][..i] == head;
    SeparatorAppend(head, s[i]);
    SeparatorFound(head);
  }

  /** The sanity checks, character by character. */
  method Scan(str: string) returns (flaw: Option<Error>, prefixSize: nat)
    ensures flaw == if WellFormed(str) then None else Some(FlawOf(str))
    ensures flaw.None? ==> prefixSize == Separator(str)
  {
    hide Separator, WellFormed, ScanFlaw, HasLower, HasUpper;
    FlawedIff(str);
    NothingScanned();
    var lower, upper := false, false;
    prefixSize := 0;
    for i := 0 to |str|
      invariant ScanFlaw(str[..i]) == None && (prefixSize == 0 <==> ':' !in str[..i])
      invariant prefixSize != 0 ==> prefixSize == Separator(str[..i]) < i
      invariant lower == HasLower(str[..i]) && upper == HasUpper(str[..i])
    {
      OneScanned(str, i);
      var c := str[i];
      if 'a' <= c <= 'z' {
        lower := true;
      } else if 'A' <= c <= 'Z' {
        upper := true;
      } else if '0' <= c <= '9' {
        if prefixSize == 0 {
          ScanFlawStays(str, i + 1);
          return Some(NumberInPrefix), 0;
        }
      } else if c == ':' {
        if i == 0 || prefixSize != 0 {
          ScanFlawStays(str, i + 1);
          return Some(MisplacedSeparator), 0;
        }
        prefixSize := i;
      } else {
        ScanFlawStays(str, i + 1);
        return Some(UnexpectedCharacter), 0;
      }
    }
    assert str[..|str|] == str;
    if prefixSize == 0 {
      return Some(NoPrefix), 0;
    }
    flaw := if upper && lower then Some(MixedCase) else None;
  }

  method DecodeValues(str: string, prefixSize: nat) returns (r: Outcome<(string, Data)>)
    requires WellFormed(str) && prefixSize == Separator(str)
    ensures r == Decoded(str)
  {
    hide Checked, Separator, Lowered, Values, Rev, InCharset;
    SmallText(str[..prefixSize]);
    var prefix := LowerPrefix(str[..prefixSize]);
    var values := RestValues(str[prefixSize + 1..]);
    if values.Err? {
      return Failed(InvalidCharacter);
    }
    r := Check(prefix, values.value);
  }

  method LowerPrefix(s: string) returns (prefix: string)
    requires forall i :: 0 <= i < |s| ==> s[i] as int < 128
    ensures prefix == Lowered(s)
  {
    prefix := "";
    for i := 0 to |s|
      invariant prefix == Lowered(s[..i])
    {
      assert s[..i + 1][..i] == s[..i];
      prefix := prefix + [LowerCase(s[i])];
    }
    assert s[..|s|] == s;
  }

  method RestValues(rest: string) returns (r: Result<Data>)
    ensures r.Ok? <==> AllInCharset(rest)
    ensures r.Ok? ==> r.value == Values(rest)
  {
    hide InCharset, Value;
    var values: Data := [];
    for i := 0 to |rest|
      invariant AllInCharset(rest[..i]) && values == Values(rest[..i])
    {
      var c := rest[i];
      if !InCharset(c) {
        return Err;
      }
      assert rest[..i + 1][..i] == rest[..i];
      values := values + [Value(c)];
    }
    assert rest[..|rest|] == rest;
    r := Ok(values);
  }

  method Check(prefix: string, values: Data) returns (r: Outcome<(string, Data)>)
    requires IsText(prefix)
    ensures r == Checked(prefix, values)
  {
    hide Verifies;
    var ok := VerifyChecksum(BytesOf(prefix), values);
    if !ok {
      return Failed(ChecksumMismatch);
    }
    if |values| < 8 {
      return Panicked;
    }
    return Done((prefix, values[..|values| - 8]));
  }

  // ----- What is encoded decodes -----

  ghost predicate IsPrefix(s: string) { s != [] && forall i :: 0 <= i < |s| ==> IsLower(s[i]) }

  lemma PrefixText(prefix: string)
    requires IsPrefix(prefix)
    ensures IsText(prefix) && Lowered(prefix) == prefix
  {}

  lemma UpperPrefix(prefix: string)
    requires IsPrefix(prefix)
    ensures (forall i :: 0 <= i < |prefix| ==> IsUpper(ToUpperAll(prefix)[i]))
    ensures forall i :: 0 <= i < |prefix| ==> ToUpperAll(prefix)[i] as int < 128
    ensures Lowered(ToUpperAll(prefix)) == prefix
  {
    hide ToUpper, LowerCase, ToUpperAll, Lowered;
    forall i | 0 <= i < |prefix|
      ensures var c := ToUpper(prefix[i]); IsUpper(c) && c as int < 128 && LowerCase(c) == prefix[i]
    {
      LowerOfUpper(prefix[i]);
    }
  }

  lemma LowerOfUpper(c: char)
    requires IsLower(c)
    ensures IsUpper(ToUpper(c)) && ToUpper(c) as int < 128 && LowerCase(ToUpper(c)) == c
  {}

  lemma {:induction false} NoUpper(s: string)
    requires forall i :: 0 <= i < |s| ==> !IsUpper(s[i])
    ensures !HasUpper(s)
  {
    if s != [] { NoUpper(s[..|s| - 1]); }
  }

  lemma {:induction false} NoLower(s: string)
    requires forall i :: 0 <= i < |s| ==> !IsLower(s[i])
    ensures !HasLower(s)
  {
    if s != [] { NoLower(s[..|s| - 1]); }
  }

  lemma SplitAt(s: string, prefix: string, rest: string)
    requires s == prefix + ":" + rest && (forall i :: 0 <= i < |prefix| ==> prefix[i] != ':')
    ensures Separator(s) == |prefix| && s[..|prefix|] == prefix && s[|prefix| + 1..] == rest
  {
    assert s[|prefix|] == ':';
    assert forall i :: 0 <= i < |prefix| ==> s[i] == prefix[i];
  }

  lemma SymbolChar(b: bv8)
    requires b < 32
    ensures var c := CHARSET[b as int]; InCharset(c) && Value(c) == b && (IsLower(c) || IsDigit(c))
    ensures var c := ToUpper(CHARSET[b as int]); InCharset(c) && Value(c) == b && (IsUpper(c) || IsDigit(c))
  {
    hide Rev, ToUpper, IsLower, IsUpper, IsDigit;
    CharsetDecodes(b as int);
    CharsetDecodesUpper(b as int);
    SameByte(b);
  }

  lemma CharsValues(v: Data)
    requires AllSymbols(v)
    ensures AllInCharset(Chars(v)) && Values(Chars(v)) == v
    ensures forall i :: 0 <= i < |v| ==> IsLower(Chars(v)[i]) || IsDigit(Chars(v)[i])
  {
    hide InCharset, Value, Values, Chars, IsLower, IsDigit;
    var s := Chars(v);
    forall i | 0 <= i < |v| ensures InCharset(s[i]) && (IsLower(s[i]) || IsDigit(s[i])) {
      SymbolChar(v[i]);
    }
    forall i | 0 <= i < |v| ensures Values(s)[i] == v[i] {
      SymbolChar(v[i]);
      ValuesAt(s, i);
    }
  }

  lemma CharsValuesUpper(v: Data)
    requires AllSymbols(v)
    ensures AllInCharset(ToUpperAll(Chars(v))) && Values(ToUpperAll(Chars(v))) == v
    ensures forall i :: 0 <= i < |v| ==> IsUpper(ToUpperAll(Chars(v))[i]) || IsDigit(ToUpperAll(Chars(v))[i])
  {
    hide InCharset, Value, Values, Chars, ToUpperAll, ToUpper, IsUpper, IsDigit;
    var s := ToUpperAll(Chars(v));
    forall i | 0 <= i < |v| ensures InCharset(s[i]) && (IsUpper(s[i]) || IsDigit(s[i])) {
      SymbolChar(v[i]);
    }
    forall i | 0 <= i < |v| ensures Values(s)[i] == v[i] {
      SymbolChar(v[i]);
      ValuesAt(s, i);
    }
  }

  lemma DecodedParts(s: string, head: string, rest: string, prefix: string, v: Data)
    requires s == head + ":" + rest && head != [] && IsText(prefix)
    requires forall i :: 0 <= i < |head| ==> IsLetter(head[i]) && head[i] as int < 128
    requires forall i :: 0 <= i < |rest| ==> IsLetter(rest[i]) || IsDigit(rest[i])
    requires !(HasLower(s) && HasUpper(s))
    requires Lowered(head) == prefix && AllInCharset(rest) && Values(rest) == v
    ensures Decoded(s) == Checked(prefix, v)
  {
    hide Separator, HasLower, HasUpper, Lowered, Values, Checked, InCharset;
    SplitAt(s, head, rest);
    forall i | 0 <= i < |head| ensures s[i] == head[i] {}
    forall i | |head| < i < |s| ensures s[i] == rest[i - |head| - 1] {}
  }

  /** An encoded payload verifies, and both the string and its upper-case form decode to it. */
  lemma EncodedDecodes(prefix: string, payload: Data)
    requires IsPrefix(prefix) && IsText(prefix) && AllSymbols(payload)
    ensures Decoded(prefix + ":" + Encoded(prefix, payload)) == Done((prefix, payload))
    ensures Decoded(ToUpperAll(prefix + ":" + Encoded(prefix, payload))) == Done((prefix, payload))
  {
    var p := BytesOf(prefix);
    var sum := ChecksumOf(p, payload);
    ChecksumSymbols(p, payload);
    ChecksumUnique(p, payload, sum);
    var v := payload + sum;
    assert v[..|v| - 8] == payload;
    LowerDecodes(prefix, v);
    UpperDecodes(prefix, v);
  }

  lemma JoinLower(a: string, b: string)
    requires forall i :: 0 <= i < |a| ==> IsLower(a[i])
    requires forall i :: 0 <= i < |b| ==> IsLower(b[i]) || IsDigit(b[i])
    ensures !HasUpper(a + ":" + b)
  {
    hide HasUpper;
    NoUpper(a + ":" + b);
  }

  lemma JoinUpper(a: string, b: string)
    requires forall i :: 0 <= i < |a| ==> IsUpper(a[i])
    requires forall i :: 0 <= i < |b| ==> IsUpper(b[i]) || IsDigit(b[i])
    ensures !HasLower(a + ":" + b)
  {
    hide HasLower;
    NoLower(a + ":" + b);
  }

  lemma LowerDecodes(prefix: string, v: Data)
    requires IsPrefix(prefix) && IsText(prefix) && AllSymbols(v)
    ensures Decoded(prefix + ":" + Chars(v)) == Checked(prefix, v)
  {
    hide Decoded, HasLower, HasUpper, Lowered, Values, Checked, InCharset, Chars;
    PrefixText(prefix);
    CharsValues(v);
    var s := prefix + ":" + Chars(v);
    JoinLower(prefix, Chars(v));
    DecodedParts(s, prefix, Chars(v), prefix, v);
  }

  lemma UpperDecodes(prefix: string, v: Data)
    requires IsPrefix(prefix) && IsText(prefix) && AllSymbols(v)
    ensures Decoded(ToUpperAll(prefix + ":" + Chars(v))) == Checked(prefix, v)
  {
    hide Decoded, HasLower, HasUpper, Lowered, Values, Checked, InCharset, Chars, ToUpperAll;
    UpperPrefix(prefix);
    CharsValuesUpper(v);
    var head, rest := ToUpperAll(prefix), ToUpperAll(Chars(v));
    var s := ToUpperAll(prefix + ":" + Chars(v));
    assert s == head + ":" + rest;
    JoinUpper(head, rest);
    DecodedParts(s, head, rest, prefix, v);
  }

  // ----- Addresses -----

  /** The version byte and the hash, as 5-bit groups. */
  function Packed(t: int, hash: seq<bv8>): Result<Data> {
    if t != P2PKH && t != P2SH then Err
    else if |hash| < 20 || (|hash| - 20) % 4 != 0 || (|hash| - 20) / 4 > 8 then Err
    else Converted([VersionByte(t, (|hash| - 20) / 4)] + hash, 8, 5, true)
  }

  function VersionByte(t: int, size: nat): bv8
    requires (t == P2PKH || t == P2SH) && size <= 8
  { (if t == P2SH then 8 else 0) | (size as bv8) }

  method PackAddressData(addrType: int, addrHash: seq<bv8>) returns (r: Result<Data>)
    ensures r == Packed(addrType, addrHash)
    ensures r.Ok? ==> AllSymbols(r.value)
  {
    if addrType != P2PKH && addrType != P2SH {
      return Err;
    }
    // On unsigned integers a length below 20 gives an encoded size far above 8.
    if |addrHash| < 20 || (|addrHash| - 20) % 4 != 0 {
      return Err;
    }
    var encodedSize := (|addrHash| - 20) / 4;
    if encodedSize > 8 {
      return Err;
    }
    var data := [VersionByte(addrType, encodedSize)] + addrHash;
    BytesNumbers(data);
    r := ConvertBits(data, 8, 5, true);
    PackedSymbols(data);
  }

  lemma PackedSymbols(data: seq<bv8>)
    ensures Converted(data, 8, 5, true).Ok? && AllSymbols(Converted(data, 8, 5, true).value)
  {
    hide Converted;
    BytesRoundTrip(data);
    var v := Converted(data, 8, 5, true).value;
    assert Pow2(5) == 32;
    forall i | 0 <= i < |v| ensures v[i] < 32 {
      assert Numbers(v)[i] < 32;
      SmallNumber(v[i]);
    }
  }

  lemma SmallNumber(b: bv8)
    requires Number(b) < 32
    ensures b < 32
  {}

  ghost function CheckEncoded(hash: seq<bv8>, prefix: string, t: int): string
    requires IsText(prefix)
  {
    match Packed(t, hash)
    case Err => ""
    case Ok(k) =>
      PackedSymbols([VersionByte(t, (|hash| - 20) / 4)] + hash);
      Encoded(prefix, k)
  }

  method CheckEncodeCashAddress(input: seq<bv8>, prefix: string, t: int) returns (s: string)
    requires IsText(prefix)
    ensures s == CheckEncoded(input, prefix, t)
  {
    var k := PackAddressData(t, input);
    if k.Err? {
      return "";
    }
    var r := Encode(prefix, k.value);
    return r.value;
  }

  ghost function CheckDecoded(s: string): Outcome<(seq<bv8>, string, int)> {
    match Decoded(s)
    case Failed(e) => Failed(e)
    case Panicked => Panicked
    case Done(d) => Unpacked(d.0, d.1)
  }

  function Unpacked(prefix: string, payload: Data): Outcome<(seq<bv8>, string, int)> {
    match Converted(payload, 5, 8, false)
    case Err => Failed(BadPadding)
    case Ok(data) =>
      if |data| != 21 then Failed(BadLength)
      else Done((data[1..21], prefix, if data[0] == 0x08 then P2SH else P2PKH))
  }

  method CheckDecodeCashAddress(input: string) returns (r: Outcome<(seq<bv8>, string, int)>)
    ensures r == CheckDecoded(input)
  {
    hide Decoded, Converted;
    var d := DecodeCashAddress(input);
    if d.Failed? {
      return Failed(d.error);
    }
    if d.Panicked? {
      return Panicked;
    }
    DecodedSymbols(input);
    var data := ConvertBits(d.value.1, 5, 8, false);
    if data.Err? {
      return Failed(BadPadding);
    }
    if |data.value| != 21 {
      return Failed(BadLength);
    }
    var t := P2PKH;
    if data.value[0] == 0x08 {
      t := P2SH;
    }
    return Done((data.value[1..21], d.value.0, t));
  }

  lemma DecodedSymbols(s: string)
    requires Decoded(s).Done?
    ensures Below(Numbers(Decoded(s).value.1), 5)
  {
    hide Separator, HasLower, HasUpper, Lowered, Values, Verifies, InCharset, Numbers, Number;
    var rest := s[Separator(s) + 1..];
    ValuesSymbols(rest);
    var v := Decoded(s).value.1;
    assert Pow2(5) == 32;
    forall i | 0 <= i < |v| ensures Number(v[i]) < 32 { SymbolNumber(v[i]); }
  }

  lemma SymbolNumber(b: bv8)
    requires b < 32
    ensures Number(b) < 32
  {}

  /** Every hash of an accepted size, under every nonempty lower-case prefix: when it has 20 bytes
      the address, and its upper-case form, decode to exactly the hash, the prefix and the type;
      with any other size the decoder refuses its own encoder's output. */
  lemma AddressRoundTrip(hash: seq<bv8>, prefix: string, t: int)
    requires IsPrefix(prefix) && IsText(prefix) && Packed(t, hash).Ok?
    ensures var want := if |hash| == 20 then Done((hash, prefix, t)) else Failed(BadLength);
            var s := prefix + ":" + CheckEncoded(hash, prefix, t);
            CheckDecoded(s) == want && CheckDecoded(ToUpperAll(s)) == want
  {
    hide Decoded, Encoded, ToUpperAll, Converted, IsPrefix, VersionByte;
    var data := [VersionByte(t, (|hash| - 20) / 4)] + hash;
    var k := Converted(data, 8, 5, true).value;
    BytesRoundTrip(data);
    PackedSymbols(data);
    EncodedDecodes(prefix, k);
    assert Unpacked(prefix, k) == if |hash| == 20 then Done((hash, prefix, t)) else Failed(BadLength) by {
      if |hash| == 20 {
        VersionOf(t);
        assert data[1..21] == hash;
      }
    }
  }

  lemma VersionOf(t: int)
    requires t == P2PKH || t == P2SH
    ensures VersionByte(t, 0) == if t == P2SH then 8 else 0
  {
    assert 0 as bv8 == (0 as int) as bv8;
  }

  // ----- Version bytes and sizes -----

  /** Hashes of 20, 24, ..., 52 bytes are packed, for the two types, and no others. */
  lemma PackedAcceptsIff(t: int, hash: seq<bv8>)
    ensures Packed(t, hash).Ok? <==> (t == 0 || t == 1) && exists k :: 0 <= k <= 8 && |hash| == 20 + 4 * k
  {
    hide Converted, VersionByte;
    if (t == 0 || t == 1) && exists k :: 0 <= k <= 8 && |hash| == 20 + 4 * k {
      PackedSymbols([VersionByte(t, (|hash| - 20) / 4)] + hash);
    }
    if Packed(t, hash).Ok? {
      var k := (|hash| - 20) / 4;
      assert |hash| == 20 + 4 * k;
    }
  }

  lemma VersionByteIs(t: int, size: nat)
    requires (t == 0 || t == 1) && size <= 8
    ensures VersionByte(t, size) as int == if size == 8 then 8 else 8 * t + size
  {
    if size == 0 {} else if size == 1 {} else if size == 2 {} else if size == 3 {} else if size == 4 {}
    else if size == 5 {} else if size == 6 {} else if size == 7 {} else {}
  }

  /** A packed address regroups to its version byte and hash. The byte holds the type and, in its low bits, the
      size; a hash of 52 bytes has a size that runs into the type, and gets the same byte for both. */
  lemma PackedHolds(t: int, hash: seq<bv8>)
    requires Packed(t, hash).Ok?
    ensures var data := Converted(Packed(t, hash).value, 5, 8, false);
            && data.Ok? && |data.value| == |hash| + 1 && data.value[1..] == hash
            && data.value[0] as int == if |hash| == 52 then 8 else 8 * t + (|hash| - 20) / 4
  {
    hide Converted, VersionByte;
    var size := (|hash| - 20) / 4;
    VersionByteIs(t, size);
    BytesRoundTrip([VersionByte(t, size)] + hash);
  }

  // ----- Which error -----

  lemma Reported(s: string)
    ensures !WellFormed(s) ==> Decoded(s) == Failed(FlawOf(s))
  {}

  /** The first character that does not belong decides: a digit before the separator, a separator that is
      first or second, or anything else. A string without such a character lacks a separator or mixes
      cases. */
  lemma FirstFlawDecides(s: string, i: nat)
    requires i <= |s| && Clean(s[..i])
    ensures i < |s| && IsDigit(s[i]) && ':' !in s[..i] ==> Decoded(s) == Failed(NumberInPrefix)
    ensures i < |s| && s[i] == ':' && (i == 0 || ':' in s[..i]) ==> Decoded(s) == Failed(MisplacedSeparator)
    ensures i < |s| && !IsLetter(s[i]) && !IsDigit(s[i]) && s[i] != ':' ==> Decoded(s) == Failed(UnexpectedCharacter)
    ensures i == |s| && ':' !in s ==> Decoded(s) == Failed(NoPrefix)
    ensures i == |s| && ':' in s && HasLower(s) && HasUpper(s) ==> Decoded(s) == Failed(MixedCase)
  {
    hide Separator, HasLower, HasUpper, Decoded, Clean, WellFormed, ScanFlaw;
    FlawlessIsClean(s[..i]);
    FlawedIff(s);
    Reported(s);
    if i < |s| {
      OneScanned(s, i);
      if ScanFlaw(s[..i + 1]).Some? { ScanFlawStays(s, i + 1); }
    } else {
      assert s[..i] == s;
    }
  }
}
