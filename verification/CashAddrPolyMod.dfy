/** The CashAddr checksum: the bit-packed shift-and-xor loop of `PolyMod`, the polynomial
    arithmetic over GF(32) it stands for, and what follows for error detection. */

/** Polynomials over GF(32). A field element is a 5-bit value; a polynomial is the sequence of
    its coefficients, lowest degree first. */
module GF32 {

  type Poly = seq<bv5>

  /** Multiplication by `a` modulo a^5 + a^3 + 1. */
  function Twice(b: bv5): bv5 { (b << 1) ^ Keep(b >> 4, 9) }

  /** `b` when the lowest bit of `x` is set, 0 otherwise. */
  function Keep(x: bv5, b: bv5): bv5 { (0 - (x & 1)) & b }

  /** The sum of those `ys[k]` whose bit k is set in `x`. */
  function Combine(x: bv5, ys: seq<bv5>): bv5
    decreases |ys|
  {
    if ys == [] then 0 else Keep(x, ys[0]) ^ Combine(x >> 1, ys[1..])
  }

  /** The product of two field elements: each set bit k of `x` contributes y * a^k, reduced
      modulo a^5 + a^3 + 1. */
  function Times(x: bv5, y: bv5): bv5 {
    var y2 := Twice(y);
    var y4 := Twice(y2);
    var y8 := Twice(y4);
    Combine(x, [y, y2, y4, y8, Twice(y8)])
  }

  function Zeros(n: nat): (z: Poly)
    ensures |z| == n
  { seq(n, _ => 0) }

  function Add(p: Poly, q: Poly): (r: Poly)
    requires |p| == |q|
    ensures |r| == |p|
  { seq(|p|, i requires 0 <= i < |p| => p[i] ^ q[i]) }

  function Scale(x: bv5, p: Poly): (r: Poly)
    ensures |r| == |p|
  { seq(|p|, i requires 0 <= i < |p| => Times(x, p[i])) }

  /** The product p * g, as p[0] * g + x * (the rest of p) * g. */
  function Mul(p: Poly, g: Poly): (r: Poly)
    requires |g| > 0
    ensures |r| == |p| + |g| - 1
  {
    if p == [] then Zeros(|g| - 1)
    else Add(Scale(p[0], g) + Zeros(|p| - 1), [0] + Mul(p[1..], g))
  }

  /** `r`, of degree below 8, is what is left of `p` after subtracting a multiple of `g`. */
  ghost predicate IsRemainder(p: Poly, g: Poly, r: Poly)
    requires |g| == 9
  {
    |r| == 8 && exists q: Poly :: |q| + 8 == |p| && p == Add(Mul(q, g), r + Zeros(|q|))
  }

  lemma {:induction false} CombineDistributes(x: bv5, y: bv5, ys: seq<bv5>)
    ensures Combine(x ^ y, ys) == Combine(x, ys) ^ Combine(y, ys)
    decreases |ys|
  {
    if ys != [] {
      CombineDistributes(x >> 1, y >> 1, ys[1..]);
      assert (x ^ y) >> 1 == (x >> 1) ^ (y >> 1);
      KeepDistributes(x, y, ys[0]);
      Exchange(Keep(x, ys[0]), Keep(y, ys[0]), Combine(x >> 1, ys[1..]), Combine(y >> 1, ys[1..]));
    }
  }

  lemma TimesDistributes(x: bv5, y: bv5, b: bv5)
    ensures Times(x ^ y, b) == Times(x, b) ^ Times(y, b)
  {
    var b2 := Twice(b);
    var b4 := Twice(b2);
    var b8 := Twice(b4);
    CombineDistributes(x, y, [b, b2, b4, b8, Twice(b8)]);
  }

  lemma KeepDistributes(x: bv5, y: bv5, b: bv5)
    ensures Keep(x ^ y, b) == Keep(x, b) ^ Keep(y, b)
  {}

  lemma Exchange(a: bv5, b: bv5, c: bv5, d: bv5)
    ensures (a ^ b) ^ (c ^ d) == (a ^ c) ^ (b ^ d)
  {}

  lemma AddExchange(a: Poly, b: Poly, c: Poly, d: Poly)
    requires |a| == |b| == |c| == |d|
    ensures Add(Add(a, b), Add(c, d)) == Add(Add(a, c), Add(b, d))
  {
    forall i | 0 <= i < |a| ensures (a[i] ^ b[i]) ^ (c[i] ^ d[i]) == (a[i] ^ c[i]) ^ (b[i] ^ d[i]) {
      Exchange(a[i], b[i], c[i], d[i]);
    }
  }

  lemma ScaleDistributes(x: bv5, y: bv5, g: Poly, n: nat)
    ensures Scale(x ^ y, g) + Zeros(n) == Add(Scale(x, g) + Zeros(n), Scale(y, g) + Zeros(n))
  {
    forall i | 0 <= i < |g| ensures Times(x ^ y, g[i]) == Times(x, g[i]) ^ Times(y, g[i]) {
      TimesDistributes(x, y, g[i]);
    }
  }

  lemma ShiftDistributes(a: Poly, b: Poly)
    requires |a| == |b|
    ensures [0] + Add(a, b) == Add([0] + a, [0] + b)
  {}

  lemma {:induction false} MulDistributes(p: Poly, q: Poly, g: Poly)
    requires |p| == |q| && |g| > 0
    ensures Mul(Add(p, q), g) == Add(Mul(p, g), Mul(q, g))
  {
    if p == [] {
      assert Add(p, q) == [];
    } else {
      assert Add(p, q)[1..] == Add(p[1..], q[1..]);
      MulDistributes(p[1..], q[1..], g);
      ScaleDistributes(p[0], q[0], g, |p| - 1);
      var mp, mq := Mul(p[1..], g), Mul(q[1..], g);
      ShiftDistributes(mp, mq);
      AddExchange(Scale(p[0], g) + Zeros(|p| - 1), Scale(q[0], g) + Zeros(|p| - 1), [0] + mp, [0] + mq);
    }
  }

  /** A multiple of a monic degree-8 polynomial that has degree below 8 is zero. */
  lemma {:induction false} LowDegreeMultiple(e: Poly, g: Poly)
    requires |g| == 9 && g[8] == 1
    requires forall k :: 8 <= k < |e| + 8 ==> Mul(e, g)[k] == 0
    ensures Mul(e, g) == Zeros(|e| + 8)
  {
    hide Times;
    if e != [] {
      var rest := Mul(e[1..], g);
      assert forall k :: 8 <= k < |e| + 7 ==> rest[k] == Mul(e, g)[k + 1];
      LowDegreeMultiple(e[1..], g);
      assert Mul(e, g)[8] == Times(e[0], 1) ^ rest[7];
      TimesOne(e[0]);
      assert e[0] == 0;
      ScaleZero(g);
    }
  }

  lemma TimesOne(x: bv5)
    ensures Times(x, 1) == x
  {
    assert Combine(x >> 4, [16]) == Keep(x >> 4, 16);
    assert Combine(x >> 3, [8, 16]) == Keep(x >> 3, 8) ^ Keep(x >> 4, 16) by { assert [8, 16][1..] == [16]; }
    assert Combine(x >> 2, [4, 8, 16]) == Keep(x >> 2, 4) ^ Combine(x >> 3, [8, 16]) by {
      assert [4, 8, 16][1..] == [8, 16];
    }
    assert Combine(x >> 1, [2, 4, 8, 16]) == Keep(x >> 1, 2) ^ Combine(x >> 2, [4, 8, 16]) by {
      assert [2, 4, 8, 16][1..] == [4, 8, 16];
    }
    assert [1, 2, 4, 8, 16][1..] == [2, 4, 8, 16];
  }

  lemma {:induction false} CombineZero(ys: seq<bv5>)
    ensures Combine(0, ys) == 0
    decreases |ys|
  {
    if ys != [] { CombineZero(ys[1..]); }
  }

  lemma ScaleZero(g: Poly)
    ensures Scale(0, g) == Zeros(|g|)
  {
    forall i | 0 <= i < |g| ensures Times(0, g[i]) == 0 {
      var y2 := Twice(g[i]);
      var y4 := Twice(y2);
      var y8 := Twice(y4);
      CombineZero([g[i], y2, y4, y8, Twice(y8)]);
    }
  }

  lemma AddCancel(a: Poly, b: Poly, c: Poly, d: Poly)
    requires |a| == |b| == |c| == |d| && Add(a, b) == Add(c, d)
    ensures Add(a, c) == Add(b, d)
  {
    forall i | 0 <= i < |a| ensures a[i] ^ c[i] == b[i] ^ d[i] {
      assert Add(a, b)[i] == Add(c, d)[i];
    }
  }

  /** The remainder is unique, so `IsRemainder` determines `r`. */
  lemma RemainderUnique(p: Poly, g: Poly, r: Poly, s: Poly)
    requires |g| == 9 && g[8] == 1
    requires IsRemainder(p, g, r) && IsRemainder(p, g, s)
    ensures r == s
  {
    var q: Poly :| |q| + 8 == |p| && p == Add(Mul(q, g), r + Zeros(|q|));
    var t: Poly :| |t| + 8 == |p| && p == Add(Mul(t, g), s + Zeros(|t|));
    hide Mul, Times;
    AddCancel(Mul(q, g), r + Zeros(|q|), Mul(t, g), s + Zeros(|q|));
    MulDistributes(q, t, g);
    var e := Add(q, t);
    assert Mul(e, g) == Add(r + Zeros(|q|), s + Zeros(|q|));
    LowDegreeMultiple(e, g);
    forall k | 0 <= k < 8 ensures r[k] == s[k] {
      assert Mul(e, g)[k] == r[k] ^ s[k];
    }
  }

  function Row(x: bv5, y: bv5, y2: bv5, y4: bv5, y8: bv5, y16: bv5): bv5 {
    Keep(x, y) ^ (Keep(x >> 1, y2) ^ (Keep(x >> 2, y4) ^ (Keep(x >> 3, y8) ^ Keep(x >> 4, y16))))
  }

  lemma CombineTwo(x: bv5, y: bv5, ys: seq<bv5>)
    ensures Combine(x, [y] + ys) == Keep(x, y) ^ Combine(x >> 1, ys)
  {
    assert ([y] + ys)[1..] == ys;
  }

  lemma CombineThree(x: bv5, y4: bv5, y8: bv5, y16: bv5)
    ensures Combine(x, [y4, y8, y16]) == Keep(x, y4) ^ (Keep(x >> 1, y8) ^ Keep(x >> 2, y16))
  {
    CombineTwo(x >> 2, y16, []);
    CombineTwo(x >> 1, y8, [y16]);
    CombineTwo(x, y4, [y8, y16]);
    assert [y16] == [y16] + [] && [y8, y16] == [y8] + [y16] && [y4, y8, y16] == [y4] + [y8, y16];
    assert (x >> 1) >> 1 == x >> 2;
  }

  lemma CombineFive(x: bv5, y: bv5, y2: bv5, y4: bv5, y8: bv5, y16: bv5)
    ensures Combine(x, [y, y2, y4, y8, y16]) == Row(x, y, y2, y4, y8, y16)
  {
    CombineThree(x >> 2, y4, y8, y16);
    CombineTwo(x >> 1, y2, [y4, y8, y16]);
    CombineTwo(x, y, [y2, y4, y8, y16]);
    assert [y2, y4, y8, y16] == [y2] + [y4, y8, y16] && [y, y2, y4, y8, y16] == [y] + [y2, y4, y8, y16];
    assert (x >> 1) >> 1 == x >> 2 && (x >> 2) >> 1 == x >> 3 && (x >> 2) >> 2 == x >> 4;
  }
}

/** Feeding symbols, one at a time, into a register of eight coefficients: the polynomial
    counterpart of the packed loop. */
module Register {
  import opened GF32

  const WINDOW: nat := 8

  /** x^8 + 19 x^7 + 3 x^6 + 25 x^5 + 11 x^4 + 25 x^3 + 3 x^2 + 19 x + 1 */
  const GENERATOR: Poly := [1, 19, 3, 25, 11, 25, 3, 19, 1]

  /** The polynomial 1, the register's initial value. */
  const ONE: Poly := [1, 0, 0, 0, 0, 0, 0, 0]

  /** p * x + d, less the top coefficient of p times the generator. */
  function Advance(p: Poly, d: bv5): (r: Poly)
    requires |p| == WINDOW
    ensures |r| == WINDOW
  { Add([d] + p[..7], Scale(p[7], GENERATOR[..8])) }

  function Run(p: Poly, v: seq<bv5>): (r: Poly)
    requires |p| == WINDOW
    ensures |r| == WINDOW
  { if v == [] then p else Advance(Run(p, v[..|v| - 1]), v[|v| - 1]) }

  /** x^n + v[0] x^(n-1) + ... + v[n-1], as n + 8 coefficients. */
  function Message(v: seq<bv5>): (p: Poly)
    ensures |p| == |v| + WINDOW
  { if v == [] then ONE else [v[|v| - 1]] + Message(v[..|v| - 1]) }

  function Reversed(v: seq<bv5>): (r: seq<bv5>)
    ensures |r| == |v|
  { if v == [] then [] else [v[|v| - 1]] + Reversed(v[..|v| - 1]) }

  lemma {:induction false} RunConcat(p: Poly, v: seq<bv5>, w: seq<bv5>)
    requires |p| == WINDOW
    ensures Run(p, v + w) == Run(Run(p, v), w)
  {
    if w == [] {
      assert v + w == v;
    } else {
      assert (v + w)[..|v + w| - 1] == v + w[..|w| - 1];
      RunConcat(p, v, w[..|w| - 1]);
    }
  }

  // ----- The register holds the remainder -----

  lemma AddBack(s: Poly, d: Poly, u: Poly)
    requires |s| == |d|
    ensures Add(s + u, Add(d, s) + Zeros(|u|)) == d + u
  {
    forall k | 0 <= k < |s| ensures s[k] ^ (d[k] ^ s[k]) == d[k] {}
  }

  lemma AddRotate(a: Poly, b: Poly, c: Poly)
    requires |a| == |b| == |c|
    ensures Add(Add(a, b), c) == Add(b, Add(a, c))
  {
    forall k | 0 <= k < |a| ensures (a[k] ^ b[k]) ^ c[k] == b[k] ^ (a[k] ^ c[k]) {}
  }

  lemma PrependAdd(d: bv5, a: Poly, b: Poly)
    requires |a| == |b|
    ensures [d] + Add(a, b) == Add([0] + a, [d] + b)
  {}

  lemma ScaleTop(t: bv5, n: nat)
    ensures Scale(t, GENERATOR) + Zeros(n) == Scale(t, GENERATOR[..8]) + ([t] + Zeros(n))
  {
    TimesOne(t);
    assert Scale(t, GENERATOR) == Scale(t, GENERATOR[..8]) + [t];
  }

  lemma MulPrepend(t: bv5, q: Poly, s: Poly)
    requires s == [t] + q
    ensures Mul(s, GENERATOR) == Add(Scale(t, GENERATOR) + Zeros(|q|), [0] + Mul(q, GENERATOR))
  {
    assert s[1..] == q;
  }

  lemma MulSplit(t: bv5, q: Poly)
    ensures Mul([t] + q, GENERATOR) == Add(Scale(t, GENERATOR[..8]) + ([t] + Zeros(|q|)), [0] + Mul(q, GENERATOR))
  {
    MulPrepend(t, q, [t] + q);
    ScaleTop(t, |q|);
  }

  lemma AdvanceRestores(r: Poly, d: bv5, n: nat)
    requires |r| == WINDOW
    ensures Add(Scale(r[7], GENERATOR[..8]) + ([r[7]] + Zeros(n)), Advance(r, d) + Zeros(n + 1)) == [d] + (r + Zeros(n))
  {
    var u := [r[7]] + Zeros(n);
    AddBack(Scale(r[7], GENERATOR[..8]), [d] + r[..7], u);
    assert [d] + (r + Zeros(n)) == ([d] + r[..7]) + u;
  }

  /** One round keeps "the polynomial read so far equals q * generator + register". */
  lemma AdvanceDivides(m: Poly, r: Poly, d: bv5, q: Poly)
    requires |r| == WINDOW && |m| == |q| + WINDOW && m == Add(Mul(q, GENERATOR), r + Zeros(|q|))
    ensures [d] + m == Add(Mul([r[7]] + q, GENERATOR), Advance(r, d) + Zeros(|q| + 1))
  {
    hide Mul, Add, Scale, Advance, Zeros;
    var low := Scale(r[7], GENERATOR[..8]) + ([r[7]] + Zeros(|q|));
    PrependAdd(d, Mul(q, GENERATOR), r + Zeros(|q|));
    MulSplit(r[7], q);
    AddRotate(low, [0] + Mul(q, GENERATOR), Advance(r, d) + Zeros(|q| + 1));
    AdvanceRestores(r, d, |q|);
  }

  lemma {:induction false} Quotient(v: seq<bv5>) returns (q: Poly)
    ensures |q| == |v|
    ensures Message(v) == Add(Mul(q, GENERATOR), Run(ONE, v) + Zeros(|q|))
  {
    if v == [] {
      q := [];
      assert Add(Zeros(8), ONE) == ONE;
      assert ONE + Zeros(0) == ONE;
    } else {
      var p := Quotient(v[..|v| - 1]);
      AdvanceDivides(Message(v[..|v| - 1]), Run(ONE, v[..|v| - 1]), v[|v| - 1], p);
      q := [Run(ONE, v[..|v| - 1])[7]] + p;
    }
  }

  // ----- The register is linear, and a step on it can be undone -----

  lemma ScaleAdd(x: bv5, y: bv5, g: Poly)
    ensures Scale(x ^ y, g) == Add(Scale(x, g), Scale(y, g))
  {
    ScaleDistributes(x, y, g, 0);
    assert Scale(x ^ y, g) + Zeros(0) == Scale(x ^ y, g);
    assert Scale(x, g) + Zeros(0) == Scale(x, g) && Scale(y, g) + Zeros(0) == Scale(y, g);
  }

  lemma ShiftAdd(p: Poly, q: Poly, d: bv5, e: bv5)
    requires |p| == |q| == WINDOW
    ensures [d ^ e] + Add(p, q)[..7] == Add([d] + p[..7], [e] + q[..7])
  {}

  lemma AdvanceLinear(p: Poly, q: Poly, d: bv5, e: bv5)
    requires |p| == |q| == WINDOW
    ensures Advance(Add(p, q), d ^ e) == Add(Advance(p, d), Advance(q, e))
  {
    var g := GENERATOR[..8];
    ShiftAdd(p, q, d, e);
    ScaleAdd(p[7], q[7], g);
    AddExchange([d] + p[..7], [e] + q[..7], Scale(p[7], g), Scale(q[7], g));
  }

  lemma {:induction false} RunLinear(p: Poly, q: Poly, v: seq<bv5>, w: seq<bv5>)
    requires |p| == |q| == WINDOW && |v| == |w|
    ensures Run(Add(p, q), Add(v, w)) == Add(Run(p, v), Run(q, w))
  {
    if v != [] {
      var v', w' := v[..|v| - 1], w[..|w| - 1];
      assert Add(v, w)[..|v| - 1] == Add(v', w');
      RunLinear(p, q, v', w');
      AdvanceLinear(Run(p, v'), Run(q, w'), v[|v| - 1], w[|w| - 1]);
    }
  }

  lemma AdvanceByShift(p: Poly, d: bv5)
    requires |p| == WINDOW && p[7] == 0
    ensures Advance(p, d) == [d] + p[..7]
  {
    ScaleZero(GENERATOR[..8]);
  }

  lemma AdvanceNonzero(p: Poly)
    requires |p| == WINDOW && Advance(p, 0) == Zeros(8)
    ensures p == Zeros(8)
  {
    assert Advance(p, 0)[0] == 0 ^ Times(p[7], 1);
    TimesOne(p[7]);
    AdvanceByShift(p, 0);
    assert forall k :: 0 <= k < 7 ==> p[k] == Advance(p, 0)[k + 1];
  }

  /** Feeding zeros never turns a nonzero register into zero, nor a zero one into nonzero. */
  lemma {:induction false} RunZeros(p: Poly, n: nat)
    requires |p| == WINDOW
    ensures Run(p, Zeros(n)) == Zeros(8) <==> p == Zeros(8)
  {
    if n != 0 {
      assert Zeros(n)[..n - 1] == Zeros(n - 1);
      RunZeros(p, n - 1);
      var r := Run(p, Zeros(n - 1));
      if Advance(r, 0) == Zeros(8) { AdvanceNonzero(r); }
      if r == Zeros(8) { AdvanceByShift(r, 0); }
    }
  }

  /** Up to eight symbols fed into an empty register are simply stored. */
  lemma {:induction false} RunLoads(v: seq<bv5>, n: nat)
    requires |v| + n == WINDOW
    ensures Run(Zeros(8), v) == Reversed(v) + Zeros(n)
  {
    if v == [] {
      assert Reversed(v) + Zeros(8) == Zeros(8);
    } else {
      RunLoads(v[..|v| - 1], n + 1);
      ShiftIn(Reversed(v[..|v| - 1]), n, v[|v| - 1]);
    }
  }

  lemma ShiftIn(r: Poly, n: nat, d: bv5)
    requires |r| + n + 1 == WINDOW
    ensures Advance(r + Zeros(n + 1), d) == ([d] + r) + Zeros(n)
  {
    AdvanceByShift(r + Zeros(n + 1), d);
  }

  lemma {:induction false} ReversedInjective(v: seq<bv5>, w: seq<bv5>)
    requires |v| == |w| && Reversed(v) == Reversed(w)
    ensures v == w
  {
    if v != [] {
      assert Reversed(v)[0] == Reversed(w)[0] && Reversed(v)[1..] == Reversed(w)[1..];
      ReversedInjective(v[..|v| - 1], w[..|w| - 1]);
      assert v == v[..|v| - 1] + [v[|v| - 1]] && w == w[..|w| - 1] + [w[|w| - 1]];
    }
  }

  /** Eight symbols fed into any register are added to what eight zeros would leave there. */
  lemma RunSuffix(p: Poly, s: seq<bv5>)
    requires |p| == WINDOW && |s| == WINDOW
    ensures Run(p, s) == Add(Run(p, Zeros(8)), Reversed(s))
  {
    assert Add(p, Zeros(8)) == p && Add(Zeros(8), s) == s;
    RunLinear(p, Zeros(8), Zeros(8), s);
    RunLoads(s, 0);
    assert Reversed(s) + Zeros(0) == Reversed(s);
  }

  lemma AddSelf(p: Poly)
    ensures Add(p, p) == Zeros(|p|)
  {}

  lemma ZerosThen(a: nat, burst: seq<bv5>)
    ensures Run(Zeros(8), Zeros(a) + burst) == Run(Zeros(8), burst)
  {
    RunConcat(Zeros(8), Zeros(a), burst);
    RunZeros(Zeros(8), a);
  }

  lemma ThenZeros(v: seq<bv5>, b: nat)
    requires Run(Zeros(8), v + Zeros(b)) == Zeros(8)
    ensures Run(Zeros(8), v) == Zeros(8)
  {
    RunConcat(Zeros(8), v, Zeros(b));
    RunZeros(Run(Zeros(8), v), b);
  }

  lemma LoadsNonzero(burst: seq<bv5>, n: nat)
    requires |burst| + n == WINDOW && Run(Zeros(8), burst) == Zeros(8)
    ensures forall i :: 0 <= i < |burst| ==> burst[i] == 0
  {
    RunLoads(burst, n);
    ReversedZero(burst, n, 8);
  }

  lemma Framed(e: seq<bv5>, lo: nat, hi: nat)
    requires lo <= hi <= |e|
    requires forall i :: 0 <= i < |e| && !(lo <= i < hi) ==> e[i] == 0
    ensures e == (Zeros(lo) + e[lo..hi]) + Zeros(|e| - hi)
  {}

  /** A message that is zero outside a window of eight symbols leaves an empty register empty
      only when it is zero throughout. */
  lemma BurstRemains(e: seq<bv5>, lo: nat, hi: nat)
    requires lo <= hi <= |e| && hi - lo <= WINDOW
    requires forall i :: 0 <= i < |e| && !(lo <= i < hi) ==> e[i] == 0
    requires Run(Zeros(8), e) == Zeros(8)
    ensures forall i :: 0 <= i < |e| ==> e[i] == 0
  {
    Framed(e, lo, hi);
    ThenZeros(Zeros(lo) + e[lo..hi], |e| - hi);
    ZerosThen(lo, e[lo..hi]);
    LoadsNonzero(e[lo..hi], 8 - (hi - lo));
    forall i | lo <= i < hi ensures e[i] == 0 {
      assert e[i] == e[lo..hi][i - lo];
    }
  }

  /** Two messages that differ, but only inside a window of eight symbols, leave different registers. */
  lemma BurstSeparates(p: Poly, v: seq<bv5>, w: seq<bv5>, lo: nat, hi: nat)
    requires |p| == WINDOW && |v| == |w| && lo <= hi <= |v| && hi - lo <= WINDOW
    requires forall i :: 0 <= i < |v| && !(lo <= i < hi) ==> v[i] == w[i]
    requires Run(p, v) == Run(p, w)
    ensures v == w
  {
    RunLinear(p, p, v, w);
    AddSelf(p);
    AddSelf(Run(p, v));
    BurstRemains(Add(v, w), lo, hi);
    forall i | 0 <= i < |v| ensures v[i] == w[i] {
      assert Add(v, w)[i] == v[i] ^ w[i];
      SameByXor(v[i], w[i]);
    }
  }

  lemma SameByXor(a: bv5, b: bv5)
    requires a ^ b == 0
    ensures a == b
  {}

  lemma {:induction false} ReversedZero(v: seq<bv5>, n: nat, m: nat)
    requires Reversed(v) + Zeros(n) == Zeros(m)
    ensures forall k :: 0 <= k < |v| ==> v[k] == 0
  {
    if v != [] {
      assert (Reversed(v) + Zeros(n))[0] == v[|v| - 1];
      assert Reversed(v[..|v| - 1]) + Zeros(n) == (Reversed(v) + Zeros(n))[1..];
      ReversedZero(v[..|v| - 1], n, m - 1);
    }
  }
}

/** `PolyMod` and the checksum functions built on it. Data is a sequence of bytes, as in the
    source; a byte below 32 is a 5-bit symbol. */
module Checksum {
  import opened GF32
  import opened Register

  type Data = seq<bv8>

  const LIMIT: bv64 := 0x100_0000_0000  // 2^40

  // What the five tests on the symbol shifted out add to the register.
  const K1: bv64 := 0x98f2bc8e61
  const K2: bv64 := 0x79b76d99e2
  const K4: bv64 := 0xf33e5fb3c4
  const K8: bv64 := 0xae2eabe2a8
  const K16: bv64 := 0x1e4f43e470

  ghost predicate AllSymbols(v: Data) { forall i :: 0 <= i < |v| ==> v[i] < 32 }

  /** All ones when the lowest bit of `b` is set, all zeros otherwise. */
  function Fill(b: bv8): bv64 { 0 - ((b & 1) as bv64) }

  /** `c ^ k` when the lowest bit of `b` is set, `c` otherwise. */
  function XorMask(c: bv64, b: bv8, k: bv64): bv64 { c ^ (Fill(b) & k) }

  function Shift(c: bv64, d: bv8): bv64 { ((c & 0x07ffffffff) << 5) ^ (d as bv64) }

  function Top(c: bv64): bv8 { ((c >> 35) & 0xff) as bv8 }

  /** One round of the loop. */
  function Step(c: bv64, d: bv8): bv64 {
    var c0 := Top(c);
    var low := XorMask(XorMask(XorMask(Shift(c, d), c0, K1), c0 >> 1, K2), c0 >> 2, K4);
    XorMask(XorMask(low, c0 >> 3, K8), c0 >> 4, K16)
  }

  /** The packed register after reading `v`. */
  function Fold(v: Data): bv64 {
    if v == [] then 1 else Step(Fold(v[..|v| - 1]), v[|v| - 1])
  }

  /** The 5-bit groups of the register, lowest first. */
  function Unpack(c: bv64): (p: Poly)
    ensures |p| == WINDOW
  {
    [(c & 31) as bv5, ((c >> 5) & 31) as bv5, ((c >> 10) & 31) as bv5, ((c >> 15) & 31) as bv5,
     ((c >> 20) & 31) as bv5, ((c >> 25) & 31) as bv5, ((c >> 30) & 31) as bv5, ((c >> 35) & 31) as bv5]
  }

  function Symbols(v: Data): (s: seq<bv5>)
    ensures |s| == |v|
  { if v == [] then [] else Symbols(v[..|v| - 1]) + [(v[|v| - 1] & 31) as bv5] }

  method XorIf(c: bv64, b: bv8, k: bv64) returns (r: bv64)
    ensures r == XorMask(c, b, k)
  {
    if b & 1 > 0 {
      FillOnes(b, k);
      return c ^ k;
    }
    FillZeros(b, c, k);
    return c;
  }

  method Round(was: bv64, d: bv8) returns (c: bv64)
    ensures c == Step(was, d)
  {
    var c0 := Top(was);
    c := ((was & 0x07ffffffff) << 5) ^ (d as bv64);
    c := XorIf(c, c0, K1);
    c := XorIf(c, c0 >> 1, K2);
    c := XorIf(c, c0 >> 2, K4);
    c := XorIf(c, c0 >> 3, K8);
    c := XorIf(c, c0 >> 4, K16);
  }

  method PolyMod(v: Data) returns (r: bv64)
    ensures r == Fold(v) ^ 1
  {
    var c: bv64 := 1;
    for i := 0 to |v|
      invariant c == Fold(v[..i])
    {
      assert v[..i + 1][..i] == v[..i];
      c := Round(c, v[i]);
    }
    assert v[..|v|] == v;
    r := c ^ 1;
  }

  lemma FillOnes(b: bv8, k: bv64)
    requires b & 1 > 0
    ensures Fill(b) & k == k
  {}

  lemma FillZeros(b: bv8, c: bv64, k: bv64)
    requires !(b & 1 > 0)
    ensures c ^ (Fill(b) & k) == c
  {}

  // ----- The packed loop is polynomial division -----

  lemma Step0(c: bv64, d: bv8)
    requires c < LIMIT && d < 32
    ensures (Step(c, d) & 31) as bv5 == ((d & 31) as bv5) ^ Row(((c >> 35) & 31) as bv5, 1, 2, 4, 8, 16)
  {}

  lemma Step1(c: bv64, d: bv8)
    requires c < LIMIT && d < 32
    ensures ((Step(c, d) >> 5) & 31) as bv5 == ((c & 31) as bv5) ^ Row(((c >> 35) & 31) as bv5, 19, 15, 30, 21, 3)
  {}

  lemma Step2(c: bv64, d: bv8)
    requires c < LIMIT && d < 32
    ensures ((Step(c, d) >> 10) & 31) as bv5
            == (((c >> 5) & 31) as bv5) ^ Row(((c >> 35) & 31) as bv5, 3, 6, 12, 24, 25)
  {}

  lemma Step3(c: bv64, d: bv8)
    requires c < LIMIT && d < 32
    ensures ((Step(c, d) >> 15) & 31) as bv5
            == (((c >> 10) & 31) as bv5) ^ Row(((c >> 35) & 31) as bv5, 25, 27, 31, 23, 7)
  {}

  lemma Step4(c: bv64, d: bv8)
    requires c < LIMIT && d < 32
    ensures ((Step(c, d) >> 20) & 31) as bv5
            == (((c >> 15) & 31) as bv5) ^ Row(((c >> 35) & 31) as bv5, 11, 22, 5, 10, 20)
  {}

  lemma Step5(c: bv64, d: bv8)
    requires c < LIMIT && d < 32
    ensures ((Step(c, d) >> 25) & 31) as bv5
            == (((c >> 20) & 31) as bv5) ^ Row(((c >> 35) & 31) as bv5, 25, 27, 31, 23, 7)
  {}

  lemma Step6(c: bv64, d: bv8)
    requires c < LIMIT && d < 32
    ensures ((Step(c, d) >> 30) & 31) as bv5
            == (((c >> 25) & 31) as bv5) ^ Row(((c >> 35) & 31) as bv5, 3, 6, 12, 24, 25)
  {}

  lemma Step7(c: bv64, d: bv8)
    requires c < LIMIT && d < 32
    ensures ((Step(c, d) >> 35) & 31) as bv5
            == (((c >> 30) & 31) as bv5) ^ Row(((c >> 35) & 31) as bv5, 19, 15, 30, 21, 3)
  {}

  lemma StepBounded(c: bv64, d: bv8)
    ensures Step(c, d) < LIMIT
  {}

  lemma FoldBounded(v: Data)
    ensures Fold(v) < LIMIT
  {
    if v != [] { StepBounded(Fold(v[..|v| - 1]), v[|v| - 1]); }
  }

  lemma Group0(c: bv64, d: bv8)
    requires c < LIMIT && d < 32
    ensures Unpack(Step(c, d))[0] == ((d & 31) as bv5) ^ Times(Unpack(c)[7], GENERATOR[0])
  {
    hide Step;
    Step0(c, d);
    CombineFive(Unpack(c)[7], 1, 2, 4, 8, 16);
  }

  lemma Group1(c: bv64, d: bv8)
    requires c < LIMIT && d < 32
    ensures Unpack(Step(c, d))[1] == (Unpack(c)[0]) ^ Times(Unpack(c)[7], GENERATOR[1])
  {
    hide Step;
    Step1(c, d);
    CombineFive(Unpack(c)[7], 19, 15, 30, 21, 3);
  }

  lemma Group2(c: bv64, d: bv8)
    requires c < LIMIT && d < 32
    ensures Unpack(Step(c, d))[2] == (Unpack(c)[1]) ^ Times(Unpack(c)[7], GENERATOR[2])
  {
    hide Step;
    Step2(c, d);
    CombineFive(Unpack(c)[7], 3, 6, 12, 24, 25);
  }

  lemma Group3(c: bv64, d: bv8)
    requires c < LIMIT && d < 32
    ensures Unpack(Step(c, d))[3] == (Unpack(c)[2]) ^ Times(Unpack(c)[7], GENERATOR[3])
  {
    hide Step;
    Step3(c, d);
    CombineFive(Unpack(c)[7], 25, 27, 31, 23, 7);
  }

  lemma Group4(c: bv64, d: bv8)
    requires c < LIMIT && d < 32
    ensures Unpack(Step(c, d))[4] == (Unpack(c)[3]) ^ Times(Unpack(c)[7], GENERATOR[4])
  {
    hide Step;
    Step4(c, d);
    CombineFive(Unpack(c)[7], 11, 22, 5, 10, 20);
  }

  lemma Group5(c: bv64, d: bv8)
    requires c < LIMIT && d < 32
    ensures Unpack(Step(c, d))[5] == (Unpack(c)[4]) ^ Times(Unpack(c)[7], GENERATOR[5])
  {
    hide Step;
    Step5(c, d);
    CombineFive(Unpack(c)[7], 25, 27, 31, 23, 7);
  }

  lemma Group6(c: bv64, d: bv8)
    requires c < LIMIT && d < 32
    ensures Unpack(Step(c, d))[6] == (Unpack(c)[5]) ^ Times(Unpack(c)[7], GENERATOR[6])
  {
    hide Step;
    Step6(c, d);
    CombineFive(Unpack(c)[7], 3, 6, 12, 24, 25);
  }

  lemma Group7(c: bv64, d: bv8)
    requires c < LIMIT && d < 32
    ensures Unpack(Step(c, d))[7] == (Unpack(c)[6]) ^ Times(Unpack(c)[7], GENERATOR[7])
  {
    hide Step;
    Step7(c, d);
    CombineFive(Unpack(c)[7], 19, 15, 30, 21, 3);
  }

  lemma AdvanceAt(p: Poly, d: bv5, k: nat)
    requires |p| == WINDOW && k < WINDOW
    ensures Advance(p, d)[k] == (if k == 0 then d else p[k - 1]) ^ Times(p[7], GENERATOR[k])
  {}

  lemma GroupAt(c: bv64, d: bv8, k: nat)
    requires c < LIMIT && d < 32 && k < 8
    ensures Unpack(Step(c, d))[k]
         == (if k == 0 then (d & 31) as bv5 else Unpack(c)[k - 1]) ^ Times(Unpack(c)[7], GENERATOR[k])
  {
    hide Step, Unpack, Times;
    if k == 0 { Group0(c, d); } else if k == 1 { Group1(c, d); } else if k == 2 { Group2(c, d); }
    else if k == 3 { Group3(c, d); } else if k == 4 { Group4(c, d); } else if k == 5 { Group5(c, d); }
    else if k == 6 { Group6(c, d); }
    else { assert k == 7; Group7(c, d); }
  }

  /** A round of the packed loop is a round on coefficients. */
  lemma StepAdvances(c: bv64, d: bv8)
    requires c < LIMIT && d < 32
    ensures Unpack(Step(c, d)) == Advance(Unpack(c), (d & 31) as bv5)
  {
    var p, e := Unpack(c), (d & 31) as bv5;
    forall k | 0 <= k < WINDOW ensures Unpack(Step(c, d))[k] == Advance(p, e)[k] {
      GroupAt(c, d, k);
      AdvanceAt(p, e, k);
    }
  }

  lemma {:induction false} FoldRuns(v: Data)
    requires AllSymbols(v)
    ensures Unpack(Fold(v)) == Run(ONE, Symbols(v))
  {
    if v == [] {
      assert Unpack(1) == ONE;
    } else {
      FoldRuns(v[..|v| - 1]);
      FoldBounded(v[..|v| - 1]);
      StepAdvances(Fold(v[..|v| - 1]), v[|v| - 1]);
    }
  }

  /** The packed register holds the remainder of x^n + v[0] x^(n-1) + ... modulo the generator. */
  lemma FoldIsRemainder(v: Data)
    requires AllSymbols(v)
    ensures IsRemainder(Message(Symbols(v)), GENERATOR, Unpack(Fold(v)))
  {
    FoldRuns(v);
    var q := Quotient(Symbols(v));
  }

  // ----- Checksums under a prefix -----

  /** The low five bits of every byte of the prefix, then a zero. */
  function Expanded(prefix: seq<bv8>): (v: Data)
    ensures |v| == |prefix| + 1 && v[|prefix|] == 0
    ensures forall i :: 0 <= i < |prefix| ==> v[i] == prefix[i] & 0x1f
  {
    if prefix == [] then [0] else [prefix[0] & 0x1f] + Expanded(prefix[1..])
  }

  ghost predicate IsCodeword(v: Data) { Fold(v) ^ 1 == 0 }

  ghost predicate Verifies(prefix: seq<bv8>, payload: Data) { IsCodeword(Expanded(prefix) + payload) }

  /** The groups of `mod` as bytes, highest first. */
  function Suffix(mod: bv64): (s: Data)
    ensures |s| == WINDOW
  {
    var p := Unpack(mod);
    [p[7] as bv8, p[6] as bv8, p[5] as bv8, p[4] as bv8, p[3] as bv8, p[2] as bv8, p[1] as bv8, p[0] as bv8]
  }

  const EIGHT_ZEROS: Data := [0, 0, 0, 0, 0, 0, 0, 0]

  function ChecksumOf(prefix: seq<bv8>, payload: Data): (s: Data)
    ensures |s| == WINDOW
  { Completion(Expanded(prefix) + payload) }

  /** What `PolyMod` finds must be written over eight appended zeros. */
  function Completion(v: Data): (s: Data)
    ensures |s| == WINDOW
  { Suffix(Fold(v + EIGHT_ZEROS) ^ 1) }

  method ExpandPrefix(prefix: seq<bv8>) returns (ret: Data)
    ensures ret == Expanded(prefix)
  {
    var a := new bv8[|prefix| + 1];
    for i := 0 to |prefix|
      invariant forall k :: 0 <= k < i ==> a[k] == prefix[k] & 0x1f
    {
      a[i] := prefix[i] & 0x1f;
    }
    a[|prefix|] := 0;
    ret := a[..];
  }

  method VerifyChecksum(prefix: seq<bv8>, payload: Data) returns (ok: bool)
    ensures ok <==> Verifies(prefix, payload)
  {
    var enc := ExpandPrefix(prefix);
    var mod := PolyMod(enc + payload);
    ok := mod == 0;
  }

  method CreateChecksum(prefix: seq<bv8>, payload: Data) returns (ret: Data)
    ensures ret == ChecksumOf(prefix, payload)
  {
    hide Suffix, GroupByte;
    var enc := ExpandPrefix(prefix);
    var mod := PolyMod(enc + payload + EIGHT_ZEROS);
    ret := [];
    for i := 0 to 8
      invariant |ret| == i && ret == Suffix(mod)[..i]
    {
      ret := ret + [GroupByte(mod, i)];
      SuffixAt(mod, i);
    }
  }

  /** byte((mod >> (5 * (7 - i))) & 0x1f), with the eight shifts written out */
  function GroupByte(mod: bv64, i: nat): bv8
    requires i < 8
  {
    if i == 0 then ((mod >> 35) & 0x1f) as bv8 else if i == 1 then ((mod >> 30) & 0x1f) as bv8
    else if i == 2 then ((mod >> 25) & 0x1f) as bv8 else if i == 3 then ((mod >> 20) & 0x1f) as bv8
    else if i == 4 then ((mod >> 15) & 0x1f) as bv8 else if i == 5 then ((mod >> 10) & 0x1f) as bv8
    else if i == 6 then ((mod >> 5) & 0x1f) as bv8 else (mod & 0x1f) as bv8
  }

  lemma SuffixAt(mod: bv64, i: nat)
    requires i < 8
    ensures Suffix(mod)[i] == GroupByte(mod, i)
  {
    hide Suffix, GroupByte;
    if i < 4 { SuffixHigh(mod, i); } else { SuffixLow(mod, i); }
  }

  lemma SuffixHigh(mod: bv64, i: nat)
    requires i < 4
    ensures Suffix(mod)[i] == GroupByte(mod, i)
  {}

  lemma SuffixLow(mod: bv64, i: nat)
    requires 4 <= i < 8
    ensures Suffix(mod)[i] == GroupByte(mod, i)
  {}

  lemma {:induction false} SymbolsConcat(v: Data, w: Data)
    ensures Symbols(v + w) == Symbols(v) + Symbols(w)
  {
    if w == [] {
      assert v + w == v;
    } else {
      assert (v + w)[..|v + w| - 1] == v + w[..|w| - 1];
      SymbolsConcat(v, w[..|w| - 1]);
    }
  }

  lemma {:induction false} SymbolsInjective(v: Data, w: Data)
    requires AllSymbols(v) && AllSymbols(w) && Symbols(v) == Symbols(w)
    ensures v == w
  {
    if v != [] {
      var n := |v| - 1;
      assert Symbols(v)[n] == Symbols(w)[n] && Symbols(v)[..n] == Symbols(w)[..n];
      SymbolsInjective(v[..n], w[..n]);
      SameSymbol(v[n], w[n]);
      assert v == v[..n] + [v[n]] && w == w[..n] + [w[n]];
    }
  }

  lemma SameSymbol(a: bv8, b: bv8)
    requires a < 32 && b < 32 && (a & 31) as bv5 == (b & 31) as bv5
    ensures a == b
  {}

  lemma {:induction false} SymbolsAt(v: Data, i: nat)
    requires i < |v|
    ensures Symbols(v)[i] == (v[i] & 31) as bv5
  {
    if i < |v| - 1 { SymbolsAt(v[..|v| - 1], i); }
  }

  lemma {:induction false} ReversedAt(v: seq<bv5>, i: nat)
    requires i < |v|
    ensures Reversed(v)[i] == v[|v| - 1 - i]
  {
    if i > 0 { ReversedAt(v[..|v| - 1], i - 1); }
  }

  lemma Widen(x: bv5)
    ensures x as bv8 < 32 && ((x as bv8) & 31) as bv5 == x
  {}

  lemma SuffixGroup(mod: bv64, i: nat)
    requires i < WINDOW
    ensures Suffix(mod)[7 - i] == Unpack(mod)[i] as bv8
  {
    hide Unpack;
  }

  lemma SuffixSymbols(mod: bv64)
    ensures AllSymbols(Suffix(mod)) && Reversed(Symbols(Suffix(mod))) == Unpack(mod)
  {
    hide Suffix, Unpack, Symbols, Reversed;
    var s := Symbols(Suffix(mod));
    forall i | 0 <= i < WINDOW ensures Suffix(mod)[7 - i] < 32 && Reversed(s)[i] == Unpack(mod)[i] {
      ReversedAt(s, i);
      SymbolsAt(Suffix(mod), 7 - i);
      SuffixGroup(mod, i);
      Widen(Unpack(mod)[i]);
    }
    forall i | 0 <= i < WINDOW ensures Suffix(mod)[i] < 32 {
      SuffixGroup(mod, 7 - i);
      Widen(Unpack(mod)[7 - i]);
    }
  }

  lemma XorOneGroups(c: bv64)
    ensures Unpack(c ^ 1)[0] == Unpack(c)[0] ^ 1
    ensures forall i :: 1 <= i < WINDOW ==> Unpack(c ^ 1)[i] == Unpack(c)[i] ^ 0
  {}

  lemma UnpackXorOne(c: bv64)
    ensures Unpack(c ^ 1) == Add(Unpack(c), ONE)
  {
    XorOneGroups(c);
    hide Unpack;
  }

  lemma UnpackOne(c: bv64)
    requires c < LIMIT
    ensures Unpack(c) == ONE <==> c ^ 1 == 0
  {}

  lemma ExpandedSymbols(prefix: seq<bv8>, payload: Data)
    requires AllSymbols(payload)
    ensures AllSymbols(Expanded(prefix) + payload)
  {
    forall i | 0 <= i < |prefix| ensures Expanded(prefix)[i] < 32 {
      LowBits(prefix[i]);
    }
  }

  lemma LowBits(b: bv8)
    ensures b & 0x1f < 32
  {}

  lemma VerifiesRuns(v: Data)
    requires AllSymbols(v)
    ensures IsCodeword(v) <==> Run(ONE, Symbols(v)) == ONE
  {
    hide Fold, Run, Symbols, Unpack;
    FoldRuns(v);
    FoldBounded(v);
    UnpackOne(Fold(v));
  }

  lemma {:induction false} ZerosSymbols(n: nat, v: Data)
    requires |v| == n && forall i :: 0 <= i < n ==> v[i] == 0
    ensures Symbols(v) == Zeros(n)
  {
    forall i | 0 <= i < n ensures Symbols(v)[i] == 0 { SymbolsAt(v, i); }
  }

  lemma AddSame(a: Poly, b: Poly, c: Poly)
    requires |a| == |b| == |c|
    ensures Add(a, b) == c <==> b == Add(a, c)
  {
    if Add(a, b) == c {
      forall i | 0 <= i < |a| ensures b[i] == a[i] ^ c[i] { assert c[i] == a[i] ^ b[i]; }
    }
    if b == Add(a, c) {
      forall i | 0 <= i < |a| ensures c[i] == a[i] ^ b[i] { assert b[i] == a[i] ^ c[i]; }
    }
  }

  lemma SuffixIs(s: Data, mod: bv64)
    requires AllSymbols(s) && |s| == WINDOW
    ensures Reversed(Symbols(s)) == Unpack(mod) <==> s == Suffix(mod)
  {
    hide Unpack, Suffix, Symbols, Reversed;
    SuffixSymbols(mod);
    if Reversed(Symbols(s)) == Unpack(mod) {
      ReversedInjective(Symbols(s), Symbols(Suffix(mod)));
      SymbolsInjective(s, Suffix(mod));
    }
  }

  lemma CompletionUnique(v: Data, s: Data)
    requires AllSymbols(v) && AllSymbols(s) && |s| == WINDOW
    ensures IsCodeword(v + s) <==> s == Completion(v)
  {
    hide Fold, Unpack, Suffix, Symbols, Reversed;
    SuffixVerifies(v, s);
    SuffixIs(s, Fold(v + EIGHT_ZEROS) ^ 1);
  }

  /** Of all 8-symbol suffixes, `ChecksumOf` is the one, and the only one, that verifies. */
  lemma ChecksumUnique(prefix: seq<bv8>, payload: Data, s: Data)
    requires AllSymbols(payload) && AllSymbols(s) && |s| == WINDOW
    ensures Verifies(prefix, payload + s) <==> s == ChecksumOf(prefix, payload)
  {
    hide IsCodeword, Completion, Expanded;
    var v := Expanded(prefix) + payload;
    ExpandedSymbols(prefix, payload);
    assert Expanded(prefix) + (payload + s) == v + s;
    CompletionUnique(v, s);
  }

  lemma ChecksumSymbols(prefix: seq<bv8>, payload: Data)
    ensures AllSymbols(ChecksumOf(prefix, payload))
  {
    SuffixSymbols(Fold(Expanded(prefix) + payload + EIGHT_ZEROS) ^ 1);
  }

  lemma RunOn(v: Data, s: Data)
    ensures Run(ONE, Symbols(v + s)) == Run(Run(ONE, Symbols(v)), Symbols(s))
  {
    hide Symbols, Run;
    SymbolsConcat(v, s);
    RunConcat(ONE, Symbols(v), Symbols(s));
  }

  /** The register over v and eight zeros. */
  lemma RunOnZeros(v: Data)
    requires AllSymbols(v)
    ensures Unpack(Fold(v + EIGHT_ZEROS)) == Run(Run(ONE, Symbols(v)), Zeros(8))
  {
    hide Fold, Unpack, Symbols, Run, Zeros;
    FoldRuns(v + EIGHT_ZEROS);
    RunOn(v, EIGHT_ZEROS);
    ZerosSymbols(8, EIGHT_ZEROS);
  }

  /** Eight more symbols complete v exactly when they cancel what eight zeros leave in the register. */
  lemma SuffixRuns(v: Data, s: Data)
    requires AllSymbols(v) && AllSymbols(s) && |s| == WINDOW
    ensures IsCodeword(v + s) <==> Reversed(Symbols(s)) == Add(Run(Run(ONE, Symbols(v)), Zeros(8)), ONE)
  {
    hide Symbols, Reversed, Run, Add, Zeros, IsCodeword;
    VerifiesRuns(v + s);
    RunOn(v, s);
    var p := Run(ONE, Symbols(v));
    RunSuffix(p, Symbols(s));
    AddSame(Run(p, Zeros(8)), Reversed(Symbols(s)), ONE);
  }

  lemma SuffixVerifies(v: Data, s: Data)
    requires AllSymbols(v) && AllSymbols(s) && |s| == WINDOW
    ensures IsCodeword(v + s) <==> Reversed(Symbols(s)) == Unpack(Fold(v + EIGHT_ZEROS) ^ 1)
  {
    hide Fold, Unpack, Symbols, Reversed, Run, Add, Zeros, IsCodeword, EIGHT_ZEROS;
    SuffixRuns(v, s);
    RunOnZeros(v);
    UnpackXorOne(Fold(v + EIGHT_ZEROS));
  }

  /** Two codewords of equal length that differ only inside a window of eight symbols are the same. */
  lemma CodewordsApart(v: Data, w: Data, lo: nat, hi: nat)
    requires AllSymbols(v) && AllSymbols(w) && |v| == |w| && lo <= hi <= |v| && hi - lo <= WINDOW
    requires forall i :: 0 <= i < |v| && !(lo <= i < hi) ==> v[i] == w[i]
    requires IsCodeword(v) && IsCodeword(w)
    ensures v == w
  {
    hide IsCodeword, Run, Symbols;
    VerifiesRuns(v);
    VerifiesRuns(w);
    forall i | 0 <= i < |v| && !(lo <= i < hi) ensures Symbols(v)[i] == Symbols(w)[i] {
      SymbolsAt(v, i);
      SymbolsAt(w, i);
    }
    BurstSeparates(ONE, Symbols(v), Symbols(w), lo, hi);
    SymbolsInjective(v, w);
  }

  /** Two payloads of equal length that both verify under the same prefix and differ only inside
      a window of eight symbols are the same payload. */
  lemma BurstDetected(prefix: seq<bv8>, v: Data, w: Data, lo: nat, hi: nat)
    requires AllSymbols(v) && AllSymbols(w) && |v| == |w| && lo <= hi <= |v| && hi - lo <= WINDOW
    requires forall i :: 0 <= i < |v| && !(lo <= i < hi) ==> v[i] == w[i]
    requires Verifies(prefix, v) && Verifies(prefix, w)
    ensures v == w
  {
    hide IsCodeword;
    var x := Expanded(prefix);
    ExpandedSymbols(prefix, v);
    ExpandedSymbols(prefix, w);
    CodewordsApart(x + v, x + w, |x| + lo, |x| + hi);
    assert (x + v)[|x|..] == v && (x + w)[|x|..] == w;
  }
}
