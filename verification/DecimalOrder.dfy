/** The order JavaScript's default `sort()` puts numbers in: by their decimal strings. */
module DecimalOrder {
  import opened Arithmetic

  function DigitChar(d: nat): char
    requires d < 10
  { (d + 48) as char }

  /** The decimal string of `n`. */
  function Dec(n: nat): (s: string)
    ensures s != []
  { if n < 10 then [DigitChar(n)] else Dec(n / 10) + [DigitChar(n % 10)] }

  function Digits(n: nat): nat { |Dec(n)| }

  function Pow10(k: nat): (p: nat)
    ensures p >= 1
  { if k == 0 then 1 else 10 * Pow10(k - 1) }

  function Quotient(n: nat, m: nat): nat
    requires m > 0
  { n / m }

  /** `n` without its last `k` digits. */
  function Lead(n: nat, k: nat): nat { Quotient(n, Pow10(k)) }

  /** Strict lexicographic order of strings. */
  predicate Lex(a: string, b: string) {
    if b == [] then false
    else if a == [] then true
    else if a[0] != b[0] then a[0] < b[0]
    else Lex(a[1..], b[1..])
  }

  /** `a` sorts before `b`. */
  predicate Before(a: nat, b: nat) { Lex(Dec(a), Dec(b)) }

  lemma {:induction false} LexAppend(a: string, b: string, c: char, d: char)
    requires |a| == |b|
    ensures Lex(a + [c], b + [d]) <==> Lex(a, b) || (a == b && c < d)
  {
    if a == [] {
      assert a + [c] == [c] && b + [d] == [d];
      assert [c][1..] == [] && [d][1..] == [];
    } else {
      assert (a + [c])[1..] == a[1..] + [c] && (b + [d])[1..] == b[1..] + [d];
      LexAppend(a[1..], b[1..], c, d);
      assert a == b <==> a[0] == b[0] && a[1..] == b[1..] by { Uncons(a, b); }
    }
  }

  lemma Uncons(a: string, b: string)
    requires a != [] && b != []
    ensures a == b <==> a[0] == b[0] && a[1..] == b[1..]
  {
    if a[0] == b[0] && a[1..] == b[1..] {
      assert a == [a[0]] + a[1..] && b == [b[0]] + b[1..];
    }
  }

  lemma {:induction false} LexLonger(a: string, b: string, rest: string)
    requires |a| == |b| && rest != []
    ensures Lex(a, b + rest) <==> Lex(a, b) || a == b
    ensures Lex(b + rest, a) <==> Lex(b, a)
  {
    if a == [] {
      assert b + rest == rest;
    } else {
      assert (b + rest)[1..] == b[1..] + rest;
      LexLonger(a[1..], b[1..], rest);
      Uncons(a, b);
    }
  }

  /** On equal digit counts the string order is the numeric order, and strings determine numbers. */
  lemma {:induction false} SameDigits(a: nat, b: nat)
    requires Digits(a) == Digits(b)
    ensures Before(a, b) <==> a < b
    ensures Dec(a) == Dec(b) <==> a == b
  {
    if a < 10 {
      assert b < 10;
      LexAppend([], [], DigitChar(a), DigitChar(b));
      assert [] + [DigitChar(a)] == Dec(a) && [] + [DigitChar(b)] == Dec(b);
      assert Dec(a)[0] == DigitChar(a) && Dec(b)[0] == DigitChar(b);
    } else {
      assert |Dec(a / 10)| >= 1;
      assert b >= 10;
      SameDigits(a / 10, b / 10);
      LexAppend(Dec(a / 10), Dec(b / 10), DigitChar(a % 10), DigitChar(b % 10));
      if Dec(a) == Dec(b) {
        assert Dec(a)[..|Dec(a)| - 1] == Dec(a / 10) && Dec(b)[..|Dec(b)| - 1] == Dec(b / 10);
        assert Dec(a)[|Dec(a)| - 1] == Dec(b)[|Dec(b)| - 1];
      }
    }
  }

  /** Dec(n) is the string of its leading digits followed by k digits. */
  lemma {:induction false} Leading(n: nat, k: nat) returns (rest: string)
    requires k < Digits(n)
    ensures Dec(n) == Dec(Lead(n, k)) + rest && |rest| == k
    decreases k
  {
    if k == 0 {
      rest := [];
    } else {
      assert n >= 10;
      var r := Leading(n / 10, k - 1);
      DivDiv(n, Pow10(k - 1));
      rest := r + [DigitChar(n % 10)];
    }
  }

  lemma DivDiv(n: nat, m: nat)
    requires m > 0
    ensures (n / 10) / m == n / (10 * m)
  {
    var q, r := n / (10 * m), n % (10 * m);
    assert n == 10 * (q * m) + r;
    assert n / 10 == q * m + r / 10 && 0 <= r / 10 < m;
    var d := (n / 10) / m;
    assert (d - q) * m == r / 10 - (n / 10) % m;
    MulSmall(d - q, m);
  }

  lemma {:induction false} DigitsMonotone(a: nat, b: nat)
    requires a <= b
    ensures Digits(a) <= Digits(b)
  {
    if a >= 10 { DigitsMonotone(a / 10, b / 10); }
  }

  /** The string order of any two numbers, as arithmetic. */
  lemma BeforeIs(a: nat, b: nat)
    ensures Digits(a) == Digits(b) ==> (Before(a, b) <==> a < b)
    ensures Digits(a) < Digits(b) ==> (Before(a, b) <==> a <= Lead(b, Digits(b) - Digits(a)))
    ensures Digits(a) > Digits(b) ==> (Before(a, b) <==> Lead(a, Digits(a) - Digits(b)) < b)
  {
    hide Dec, Lead, Lex;
    if Digits(a) == Digits(b) {
      SameDigits(a, b);
    } else if Digits(a) < Digits(b) {
      var rest := Leading(b, Digits(b) - Digits(a));
      SameDigits(a, Lead(b, Digits(b) - Digits(a)));
      LexLonger(Dec(a), Dec(Lead(b, Digits(b) - Digits(a))), rest);
    } else {
      var rest := Leading(a, Digits(a) - Digits(b));
      SameDigits(Lead(a, Digits(a) - Digits(b)), b);
      LexLonger(Dec(b), Dec(Lead(a, Digits(a) - Digits(b))), rest);
    }
  }

  lemma {:induction false} LexTransitive(a: string, b: string, c: string)
    requires Lex(a, b) && Lex(b, c)
    ensures Lex(a, c)
  {
    if a != [] && a[0] == b[0] == c[0] { LexTransitive(a[1..], b[1..], c[1..]); }
  }

  /** The first element of `s.sort()`. */
  function LexMin(s: seq<nat>): (m: nat)
    requires s != []
    ensures m in s
  {
    var last := s[|s| - 1];
    if |s| == 1 then last
    else
      var m := LexMin(s[..|s| - 1]);
      if Before(last, m) then last else m
  }

  lemma {:induction false} LexMinLeast(s: seq<nat>, x: nat)
    requires x in s
    ensures !Before(x, LexMin(s))
  {
    hide Before;
    var n := |s| - 1;
    var last := s[n];
    Irreflexive(last);
    if n > 0 {
      var m := LexMin(s[..n]);
      if x in s[..n] { LexMinLeast(s[..n], x); }
      if Before(last, m) && Before(x, last) { BeforeTransitive(x, last, m); }
    }
  }

  lemma BeforeTransitive(a: nat, b: nat, c: nat)
    requires Before(a, b) && Before(b, c)
    ensures Before(a, c)
  {
    LexTransitive(Dec(a), Dec(b), Dec(c));
  }

  lemma Irreflexive(a: nat)
    ensures !Before(a, a)
  {
    SameDigits(a, a);
  }
}
