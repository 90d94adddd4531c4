/** Amounts of the insight API: decimal strings, satoshis and float64 values. */
module Amounts {
  import opened Arithmetic
  import opened DecimalOrder

  datatype Result = Ok(sats: int) | Err | Panic

  const UTXO_PRECISION: nat := 8
  const MAX_INT64: int := 0x7fff_ffff_ffff_ffff

  // ----- Parsing -----

  predicate IsDigit(c: char) { '0' <= c <= '9' }

  predicate AllDigits(s: string) { forall i :: 0 <= i < |s| ==> IsDigit(s[i]) }

  function DigitValue(c: char): nat
    requires IsDigit(c)
  { (c as int) - 48 }

  /** The number a string of digits denotes. */
  function Num(s: string): nat
    requires AllDigits(s)
  { if s == [] then 0 else 10 * Num(s[..|s| - 1]) + DigitValue(s[|s| - 1]) }

  function Signed(negative: bool, n: nat): (r: Result)
    ensures !r.Panic?
  {
    if negative then (if n <= MAX_INT64 + 1 then Ok(-(n as int)) else Err) else if n <= MAX_INT64 then Ok(n) else Err
  }

  /** The signed value, if it is an int64. */
  lemma SignedIs(negative: bool, n: nat)
    ensures var v: int := if negative then -(n as int) else n;
            Signed(negative, n) == if -0x8000_0000_0000_0000 <= v <= 0x7fff_ffff_ffff_ffff then Ok(v) else Err
  {}

  /** strconv.ParseInt(s, 10, 64) */
  function ParseInt(s: string): (r: Result)
    ensures !r.Panic?
  {
    if s == [] then Err
    else
      var digits := if s[0] == '+' || s[0] == '-' then s[1..] else s;
      if digits == [] || !AllDigits(digits) then Err else Signed(s[0] == '-', Num(digits))
  }

  /** Where the first dot is, or the length if there is none. */
  function Dot(s: string): (i: nat)
    ensures i <= |s| && (forall k :: 0 <= k < i ==> s[k] != '.') && (i < |s| ==> s[i] == '.')
  { if s == [] || s[0] == '.' then 0 else assert forall k :: 1 <= k < |s| ==> s[k] == s[1..][k - 1]; 1 + Dot(s[1..]) }

  function Zeros(n: nat): (s: string)
    ensures |s| == n && AllDigits(s)
  { if n == 0 then [] else Zeros(n - 1) + ['0'] }

  /** strings.Repeat panics on a negative count. */
  function ToSatoshi(btc: string): Result {
    var i := Dot(btc);
    if i == |btc| then ParseInt(btc + Zeros(UTXO_PRECISION))
    else
      var rest := btc[i + 1..];
      var decimals := Dot(rest);
      if decimals > UTXO_PRECISION then Panic else ParseInt(btc[..i] + rest + Zeros(UTXO_PRECISION - decimals))
  }

  lemma {:induction false} NumConcat(a: string, b: string)
    requires AllDigits(a) && AllDigits(b)
    ensures AllDigits(a + b) && Num(a + b) == Num(a) * Pow10(|b|) + Num(b)
  {
    if b == [] {
      assert a + b == a;
    } else {
      var n := |b| - 1;
      NumConcat(a, b[..n]);
      assert (a + b)[..|a| + n] == a + b[..n];
      Regroup(Num(a), Pow10(n));
    }
  }

  lemma Regroup(a: nat, p: nat)
    ensures 10 * (a * p) == a * (10 * p)
  {}

  lemma {:induction false} NumZeros(n: nat)
    ensures Num(Zeros(n)) == 0
  {
    if n > 0 { NumZeros(n - 1); assert Zeros(n)[..n - 1] == Zeros(n - 1); }
  }

  /** Appending zeros multiplies by a power of ten. */
  lemma NumShift(s: string, n: nat)
    requires AllDigits(s)
    ensures AllDigits(s + Zeros(n)) && Num(s + Zeros(n)) == Num(s) * Pow10(n)
  {
    NumConcat(s, Zeros(n));
    NumZeros(n);
  }

  lemma ParseDigits(negative: bool, digits: string)
    requires AllDigits(digits) && digits != []
    ensures ParseInt((if negative then "-" else "") + digits) == Signed(negative, Num(digits))
  {
    hide Num, Signed;
    var s := (if negative then "-" else "") + digits;
    if negative { assert s[1..] == digits; } else { assert s == digits && IsDigit(s[0]); }
  }

  lemma DotAt(a: string, b: string)
    requires forall k :: 0 <= k < |a| ==> a[k] != '.'
    ensures Dot(a + "." + b) == |a|
  {
    var s := a + "." + b;
    assert s[|a|] == '.' && forall k :: 0 <= k < |a| ==> s[k] == a[k];
  }

  lemma NoDot(a: string)
    requires forall k :: 0 <= k < |a| ==> a[k] != '.'
    ensures Dot(a) == |a|
  {}

  /** A decimal numeral with at most eight decimals is read exactly, or refused if it does not fit
      an int64. */
  lemma ToSatoshiExact(negative: bool, whole: string, decimals: string)
    requires AllDigits(whole) && AllDigits(decimals) && |decimals| <= 8
    ensures ToSatoshi((if negative then "-" else "") + whole + "." + decimals)
         == Signed(negative, Num(whole) * Pow10(8) + Num(decimals) * Pow10(8 - |decimals|))
  {
    hide ParseInt, Signed, Num, Zeros, ToSatoshi, Pow10;
    var sign := if negative then "-" else "";
    ToSatoshiCut(sign + whole, decimals);
    var digits := whole + decimals + Zeros(8 - |decimals|);
    assert (sign + whole) + decimals + Zeros(8 - |decimals|) == sign + digits;
    NumConcat(whole, decimals);
    NumShift(whole + decimals, 8 - |decimals|);
    PowerSplit(Num(whole), Num(decimals), |decimals|);
    ParseDigits(negative, digits);
  }

  lemma ToSatoshiCut(head: string, decimals: string)
    requires (forall k :: 0 <= k < |head| ==> head[k] != '.') && AllDigits(decimals) && |decimals| <= 8
    ensures ToSatoshi(head + "." + decimals) == ParseInt(head + decimals + Zeros(8 - |decimals|))
  {
    hide ParseInt, Zeros, Dot;
    var btc := head + "." + decimals;
    DotAt(head, decimals);
    NoDot(decimals);
    assert btc[..|head|] == head && btc[|head| + 1..] == decimals;
  }

  lemma PowerSplit(a: nat, b: nat, k: nat)
    requires k <= 8
    ensures (a * Pow10(k) + b) * Pow10(8 - k) == a * Pow10(8) + b * Pow10(8 - k)
  {
    PowerSum(k, 8 - k);
    var p, q := Pow10(k), Pow10(8 - k);
    assert (a * p + b) * q == a * p * q + b * q;
    assert a * p * q == a * (p * q);
  }

  lemma {:induction false} PowerSum(a: nat, b: nat)
    ensures Pow10(a) * Pow10(b) == Pow10(a + b)
  {
    if a > 0 {
      PowerSum(a - 1, b);
      Regroup(Pow10(a - 1), Pow10(b));
      assert 10 * Pow10(a - 1) * Pow10(b) == 10 * (Pow10(a - 1) * Pow10(b));
    }
  }

  /** A numeral without a dot counts whole coins. */
  lemma ToSatoshiWhole(negative: bool, whole: string)
    requires AllDigits(whole)
    ensures ToSatoshi((if negative then "-" else "") + whole) == Signed(negative, Num(whole) * Pow10(8))
  {
    hide ParseInt, Signed, Num, Zeros;
    var btc := (if negative then "-" else "") + whole;
    NoDot(btc);
    assert btc + Zeros(8) == (if negative then "-" else "") + (whole + Zeros(8));
    NumShift(whole, 8);
    ParseDigits(negative, whole + Zeros(8));
  }

  // ----- Which strings are read -----

  function Unsigned(text: string): string {
    if text != [] && (text[0] == '+' || text[0] == '-') then text[1..] else text
  }

  /** An optional sign and any number of digits, none included. */
  predicate IsSigned(text: string) { AllDigits(Unsigned(text)) }

  /** A signed numeral, with or without a dot, k of its characters after the dot. */
  predicate Denotes(btc: string, text: string, k: nat) {
    && IsSigned(text) && k <= 8
    && ((k == 0 && btc == text) || (k <= |text| && btc == text[..|text| - k] + "." + text[|text| - k..]))
  }

  /** What the numeral is worth in satoshis. */
  function Worth(text: string, k: nat): Result
    requires IsSigned(text) && k <= 8
  {
    var n := Num(Unsigned(text)) * Pow10(8 - k);
    var sats := if text != [] && text[0] == '-' then -n else n;
    if -0x8000_0000_0000_0000 <= sats <= 0x7fff_ffff_ffff_ffff then Ok(sats) else Err
  }

  lemma ParsePadded(text: string, k: nat)
    requires IsSigned(text) && k <= 8 && k <= |text|
    ensures ParseInt(text + Zeros(8 - k)) == Worth(text, k)
  {
    hide Num, Signed, Zeros;
    var s, d := text + Zeros(8 - k), Unsigned(text);
    NumShift(d, 8 - k);
    SignedIs(text != [] && text[0] == '-', Num(d) * Pow10(8 - k));
    if text == [] {
      assert s == Zeros(8);
      assert d + Zeros(8) == s;
      assert IsDigit(s[0]);
    } else if text[0] == '+' || text[0] == '-' {
      assert s[1..] == d + Zeros(8 - k);
      assert |d + Zeros(8 - k)| == |text| - 1 + 8 - k;
      if |text| == 1 { assert 8 - k >= 7; }
    } else {
      assert d == text && IsDigit(s[0]);
    }
  }

  lemma SignedHasNoDot(text: string)
    requires IsSigned(text)
    ensures forall i :: 0 <= i < |text| ==> text[i] != '.'
  {
    var d := Unsigned(text);
    forall i | 0 <= i < |text| ensures text[i] != '.' {
      if d == text { assert IsDigit(d[i]); } else if i > 0 { assert IsDigit(d[i - 1]); }
    }
  }

  /** A signed numeral is read as what it is worth. */
  lemma DenotedIsRead(btc: string, text: string, k: nat)
    requires Denotes(btc, text, k)
    ensures ToSatoshi(btc) == Worth(text, k)
  {
    hide ParseInt, Worth, Zeros, Dot;
    SignedHasNoDot(text);
    ParsePadded(text, k);
    if k == 0 && btc == text {
      NoDot(btc);
    } else {
      var head, rest := text[..|text| - k], text[|text| - k..];
      DotAt(head, rest);
      NoDot(rest);
      assert btc[..|head|] == head && btc[|head| + 1..] == rest && head + rest == text;
    }
  }

  lemma {:induction false} ParsedIsSigned(text: string, n: nat)
    requires ParseInt(text + Zeros(n)).Ok?
    ensures IsSigned(text)
  {
    var s := text + Zeros(n);
    if text != [] {
      var signed := s[0] == '+' || s[0] == '-';
      assert s[0] == text[0];
      var digits := if signed then s[1..] else s;
      forall i | 0 <= i < |Unsigned(text)| ensures IsDigit(Unsigned(text)[i]) { assert Unsigned(text)[i] == digits[i]; }
    }
  }

  /** Nothing else is read. */
  lemma ReadIsDenoted(btc: string) returns (text: string, k: nat)
    requires ToSatoshi(btc).Ok?
    ensures Denotes(btc, text, k)
  {
    hide ParseInt, Zeros, Dot;
    var i := Dot(btc);
    if i == |btc| {
      text, k := btc, 0;
      ParsedIsSigned(btc, 8);
    } else {
      var rest := btc[i + 1..];
      text, k := btc[..i] + rest, |rest|;
      ParsedIsSigned(text, 8 - Dot(rest));
      SignedHasNoDot(text);
      assert forall j :: 0 <= j < |rest| ==> rest[j] == text[i + j];
      NoDot(rest);
      assert text[..|text| - k] == btc[..i] && text[|text| - k..] == rest;
      assert btc == btc[..i] + "." + rest;
    }
  }

  /** A string is read exactly if it is a signed numeral with at most eight characters after its one
      dot, or none, that fits an int64. */
  lemma ToSatoshiAcceptsIff(btc: string, sats: int)
    ensures ToSatoshi(btc) == Ok(sats) <==>
            exists text: string, k: nat :: Denotes(btc, text, k) && Worth(text, k) == Ok(sats)
  {
    hide ToSatoshi, Worth;
    if ToSatoshi(btc) == Ok(sats) {
      var text, k := ReadIsDenoted(btc);
      DenotedIsRead(btc, text, k);
    }
    if text: string, k: nat :| Denotes(btc, text, k) && Worth(text, k) == Ok(sats) { DenotedIsRead(btc, text, k); }
  }

  lemma BlankIsZero(btc: string, text: string)
    requires Denotes(btc, text, 0) && Unsigned(text) == []
    ensures ToSatoshi(btc) == Ok(0)
  {
    hide ToSatoshi, Denotes;
    DenotedIsRead(btc, text, 0);
  }

  lemma LateSign(btc: string, text: string)
    requires text == "-5" && btc == "." + text
    ensures ToSatoshi(btc) == Ok(-5000000)
  {
    hide ToSatoshi;
    var d := Unsigned(text);
    assert d == "5" && d[..0] == [];
    assert Num(d) == 5;
    assert Pow10(3) == 1000;
    PowerSum(3, 3);
    assert text[..0] == [] && text[0..] == text && [] + "." + text == btc;
    DenotedIsRead(btc, text, 2);
  }

  /** Besides ordinary numerals, the empty string, a lone dot or sign, and a sign after the dot pass. */
  lemma OddNumeralsAccepted()
    ensures ToSatoshi("") == Ok(0) && ToSatoshi(".") == Ok(0) && ToSatoshi("-") == Ok(0)
            && ToSatoshi(".-5") == Ok(-5000000)
  {
    hide ToSatoshi;
    BlankIsZero("", "");
    assert "." == "" + "." + "";
    BlankIsZero(".", "");
    assert "-"[1..] == "";
    BlankIsZero("-", "-");
    assert ".-5" == "." + "-5";
    LateSign(".-5", "-5");
  }

  predicate NoDots(s: string) { forall i :: 0 <= i < |s| ==> s[i] != '.' }

  /** The conversion panics exactly on strings whose first dot is followed by nine characters without
      another dot. */
  lemma ToSatoshiPanicsIff(btc: string)
    ensures ToSatoshi(btc).Panic?
            <==> exists a: string, b: string, c: string :: NoDots(a) && NoDots(b) && |b| == 9 && btc == a + "." + b + c
  {
    hide ParseInt, Zeros, Dot;
    if ToSatoshi(btc).Panic? {
      var i := Dot(btc);
      var a, rest := btc[..i], btc[i + 1..];
      var b, c := rest[..9], rest[9..];
      assert btc == a + "." + rest && rest == b + c;
      assert NoDots(a) && NoDots(b) && btc == a + "." + b + c;
    }
    if a: string, b: string, c: string :| NoDots(a) && NoDots(b) && |b| == 9 && btc == a + "." + b + c {
      assert btc == a + "." + (b + c);
      DotAt(a, b + c);
      assert btc[|a| + 1..] == b + c;
      assert Dot(b + c) >= 9 by { LateDot(b, c); }
    }
  }

  lemma LateDot(b: string, c: string)
    requires NoDots(b)
    ensures Dot(b + c) >= |b|
  {
    assert forall k :: 0 <= k < |b| ==> (b + c)[k] != '.';
  }

  // ----- Printing -----

  /** `n` written with k digits. */
  function Padded(n: nat, k: nat): (s: string)
    ensures |s| == k && AllDigits(s)
  { if k == 0 then [] else Padded(n / 10, k - 1) + [DigitChar(n % 10)] }

  /** The text "%.8f" gives for the value n / 10^8. */
  function Fixed(n: nat): (s: string)
    ensures |s| >= 10 && s[|s| - 9] == '.' && AllDigits(s[|s| - 8..])
  { Dec(n / 100000000) + "." + Padded(n % 100000000, 8) }

  lemma {:induction false} NumDec(n: nat)
    ensures AllDigits(Dec(n)) && Num(Dec(n)) == n
  {
    if n < 10 {
      assert Dec(n)[..0] == [];
    } else {
      NumDec(n / 10);
      assert Dec(n)[..|Dec(n)| - 1] == Dec(n / 10);
    }
  }

  lemma {:induction false} NumPadded(n: nat, k: nat)
    requires n < Pow10(k)
    ensures Num(Padded(n, k)) == n
  {
    if k > 0 {
      NumPadded(n / 10, k - 1);
      assert Padded(n, k)[..k - 1] == Padded(n / 10, k - 1);
    }
  }

  lemma Pow10Of8()
    ensures Pow10(8) == 100000000
  {
    assert Pow10(4) == 10000;
    PowerSum(4, 4);
  }

  /** Reading back what was printed. */
  lemma FixedRoundTrip(n: nat)
    requires n <= MAX_INT64
    ensures ToSatoshi(Fixed(n)) == Ok(n)
  {
    hide ToSatoshi, Num, Dec, Padded;
    var whole, decimals := Dec(n / 100000000), Padded(n % 100000000, 8);
    Pow10Of8();
    NumDec(n / 100000000);
    NumPadded(n % 100000000, 8);
    assert "" + whole == whole;
    ToSatoshiExact(false, whole, decimals);
  }

  // ----- float64 -----

  const TWO_53: int := 9007199254740992

  /** x is m / 2^d or m * 2^d with a significand m of 53 bits (IEEE 754-2008 section 3.4, binary64). */
  ghost predicate Scaled(x: real, m: nat, d: nat, up: bool) {
    m < TWO_53 && if up then d <= 971 && x == (m * Pow2(d)) as real else d <= 1074 && x * Pow2(d) as real == m as real
  }

  ghost predicate IsFloat(x: real) { exists m: nat, d: nat, up: bool :: Scaled(x, m, d, up) }

  function Distance(x: real, y: real): real { if x < y then y - x else x - y }

  /** f is a float64 nearest to x (IEEE 754-2008 section 4.3.1); ties may go either way. */
  ghost predicate RoundsTo(x: real, f: real) {
    IsFloat(f) && forall g: real :: IsFloat(g) ==> Distance(x, f) <= Distance(x, g)
  }

  /** float64(sats) */
  ghost predicate IsConverted(sats: nat, f: real) { RoundsTo(sats as real, f) }

  /** float64(sats) / 1e8 */
  ghost predicate IsBTC(sats: nat, f: real) {
    exists whole: real :: IsConverted(sats, whole) && RoundsTo(whole / 100000000.0, f)
  }

  /** "%.8f" of f is the text of a multiple n of 10^-8 nearest to f. */
  ghost predicate PrintsAs(f: real, n: nat) { Distance(f * 100000000.0, n as real) <= 0.5 }

  lemma RoundsClose(x: real, f: real, g: real)
    requires RoundsTo(x, f) && IsFloat(g)
    ensures Distance(x, f) <= Distance(x, g)
  {}

  lemma SmallIntegersAreFloats(n: nat)
    requires n < TWO_53
    ensures IsFloat(n as real)
  {
    assert Pow2(0) == 1;
    assert Scaled(n as real, n, 0, false);
  }

  lemma {:induction false} Pow2Grows(a: nat, b: nat)
    requires a <= b
    ensures Pow2(a) <= Pow2(b) && Pow2(a) * Pow2(b - a) == Pow2(b)
  {
    if a < b { Pow2Grows(a, b - 1); assert Pow2(a) * (2 * Pow2(b - 1 - a)) == 2 * (Pow2(a) * Pow2(b - 1 - a)); }
  }

  lemma Powers()
    ensures Pow2(26) == 67108864 && Pow2(27) == 134217728
  {
    assert Pow2(9) == 512;
    Pow2Grows(9, 18);
    Pow2Grows(9, 27);
  }

  /** Below 2^26 there is a float64 within 2^-28 of any value. */
  lemma FloatNear(x: real) returns (g: real)
    requires 0.0 <= x <= 67108864.0
    ensures IsFloat(g) && Distance(x, g) * 268435456.0 <= 1.0
  {
    Powers();
    var m := (x * 134217728.0 + 0.5).Floor;
    g := m as real / 134217728.0;
    if m < TWO_53 {
      assert Scaled(g, m, 27, false);
    } else {
      assert m == TWO_53;
      g := 67108864.0;
      SmallIntegersAreFloats(67108864);
    }
  }

  const LAST_EXACT: nat := 6710886400000001

  lemma BTCIsRounded(sats: nat, f: real)
    requires sats < TWO_53 && IsBTC(sats, f)
    ensures RoundsTo(sats as real / 100000000.0, f)
  {
    var whole: real :| IsConverted(sats, whole) && RoundsTo(whole / 100000000.0, f);
    SmallIntegersAreFloats(sats);
    RoundsClose(sats as real, whole, sats as real);
  }

  /** 2^26 + 2^-26, the float64 next above 2^26. */
  lemma NextAbove() returns (g: real)
    ensures IsFloat(g) && g * 67108864.0 == 4503599627370497.0
  {
    Powers();
    g := 4503599627370497.0 / 67108864.0;
    assert Scaled(g, 4503599627370497, 26, false);
  }

  lemma BTCClose(sats: nat, f: real)
    requires sats <= LAST_EXACT && RoundsTo(sats as real / 100000000.0, f)
    ensures Distance(f * 100000000.0, sats as real) < 0.5
  {
    hide IsFloat;
    var x := sats as real / 100000000.0;
    var g;
    if sats <= 6710886400000000 {
      g := FloatNear(x);
    } else {
      g := NextAbove();
    }
    RoundsClose(x, f, g);
  }

  /** Amounts up to LAST_EXACT, so in particular all below 2^52, survive the way through float64,
      "%.8f" and back. */
  lemma PrintedRoundTrip(sats: nat, f: real, n: nat)
    requires sats <= LAST_EXACT && IsBTC(sats, f) && PrintsAs(f, n)
    ensures n == sats && ToSatoshi(Fixed(n)) == Ok(sats)
  {
    hide ToSatoshi, IsBTC, RoundsTo;
    BTCIsRounded(sats, f);
    BTCClose(sats, f);
    FixedRoundTrip(sats);
  }

  lemma CoarseDown(f: real, m: nat, d: nat) returns (k: nat)
    requires f > 67108864.0 && m < TWO_53 && f * Pow2(d) as real == m as real
    ensures f * 67108864.0 == k as real
  {
    hide Pow2;
    Powers();
    assert d <= 26 by { if d >= 27 { Pow2Grows(27, d); TooFine(f, m, Pow2(d)); } }
    Pow2Grows(d, 26);
    k := Product(m, Pow2(26 - d));
    ScaleUp(f, m, Pow2(d), Pow2(26 - d), 67108864);
  }

  lemma CoarseUp(f: real, n: nat) returns (k: nat)
    requires f == n as real
    ensures f * 67108864.0 == k as real
  {
    k := n * 67108864;
  }

  /** A float64 above 2^26 is a multiple of 2^-26. */
  lemma CoarseAbove(f: real) returns (k: nat)
    requires IsFloat(f) && f > 67108864.0
    ensures f * 67108864.0 == k as real
  {
    hide Pow2;
    var m: nat, d: nat, up: bool :| Scaled(f, m, d, up);
    if up { k := CoarseUp(f, m * Pow2(d)); } else { k := CoarseDown(f, m, d); }
  }

  function Product(m: nat, n: nat): nat { m * n }

  lemma ScaleUp(f: real, m: nat, p: nat, q: nat, r: nat)
    requires f * p as real == m as real && p * q == r
    ensures f * r as real == Product(m, q) as real
  {
    assert (p * q) as real == p as real * q as real;
    assert f * (p as real * q as real) == f * p as real * q as real;
  }

  lemma TooFine(f: real, m: nat, p: nat)
    requires f > 67108864.0 && p >= 134217728 && m < TWO_53
    ensures f * p as real != m as real
  {
    assert f * p as real >= 67108864.0 * p as real;
  }

  /** The bound is sharp: the next amount up comes back one satoshi short. */
  lemma FirstInexact(f: real, n: nat)
    requires IsBTC(LAST_EXACT + 1, f) && PrintsAs(f, n)
    ensures n == LAST_EXACT && ToSatoshi(Fixed(n)) == Ok(LAST_EXACT)
  {
    hide ToSatoshi, IsBTC, RoundsTo, IsFloat, Fixed;
    BTCIsRounded(LAST_EXACT + 1, f);
    var g := NextAbove();
    var x := (LAST_EXACT + 1) as real / 100000000.0;
    RoundsClose(x, f, g);
    assert f > 67108864.0;
    RoundedIsFloat(x, f);
    var k := CoarseAbove(f);
    assert k == 4503599627370497;
    FixedRoundTrip(LAST_EXACT);
  }

  lemma RoundedIsFloat(x: real, f: real)
    requires RoundsTo(x, f)
    ensures IsFloat(f)
  {}

  lemma NearestAbove(g: real)
    requires IsFloat(g) && g * 67108864.0 == 4503599627370497.0
    ensures RoundsTo((LAST_EXACT + 1) as real / 100000000.0, g)
  {
    hide IsFloat;
    var x := (LAST_EXACT + 1) as real / 100000000.0;
    forall h: real | IsFloat(h) ensures Distance(x, g) <= Distance(x, h) {
      if h > 67108864.0 {
        var k := CoarseAbove(h);
        assert k <= 4503599627370497 || k >= 4503599627370498;
      }
    }
  }

  lemma InexactExists() returns (f: real)
    ensures IsBTC(LAST_EXACT + 1, f) && PrintsAs(f, LAST_EXACT)
  {
    hide IsFloat;
    f := NextAbove();
    NearestAbove(f);
    SmallIntegersAreFloats(LAST_EXACT + 1);
    assert IsConverted(LAST_EXACT + 1, (LAST_EXACT + 1) as real);
  }

  /** Every amount up to `most` comes back from every way of rounding and printing it. */
  ghost predicate ExactUpTo(most: nat) {
    forall sats: nat, f: real, n: nat :: sats <= most && IsBTC(sats, f) && PrintsAs(f, n) ==>
      ToSatoshi(Fixed(n)) == Ok(sats)
  }

  lemma ExactUpToIff(most: nat)
    ensures ExactUpTo(most) <==> most <= LAST_EXACT
  {
    hide ToSatoshi, Fixed, IsBTC, PrintsAs;
    if most <= LAST_EXACT {
      forall sats: nat, f: real, n: nat | sats <= most && IsBTC(sats, f) && PrintsAs(f, n)
        ensures ToSatoshi(Fixed(n)) == Ok(sats)
      {
        PrintedRoundTrip(sats, f, n);
      }
    } else {
      var f := InexactExists();
      FirstInexact(f, LAST_EXACT);
      assert ToSatoshi(Fixed(LAST_EXACT)) != Ok(LAST_EXACT + 1);
    }
  }
}
