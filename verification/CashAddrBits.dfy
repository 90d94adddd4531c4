/** `convertBits`: regrouping a big-endian bit string, read from groups of `from` bits, into
    groups of `to` bits, with an accumulator that is masked after every group. */
module BitGroups {
  import opened Arithmetic

  datatype Result<T> = Ok(value: T) | Err

  ghost predicate Below(v: seq<nat>, w: nat) { forall i :: 0 <= i < |v| ==> v[i] < Pow2(w) }

  /** The low `w` bits of `n`, highest first. */
  function ToBits(n: nat, w: nat): (b: seq<bool>)
    ensures |b| == w
    decreases w
  { if w == 0 then [] else ToBits(n / 2, w - 1) + [n % 2 == 1] }

  function FromBits(b: seq<bool>): nat {
    if b == [] then 0 else 2 * FromBits(b[..|b| - 1]) + (if b[|b| - 1] then 1 else 0)
  }

  /** The bit string spelled by groups of `w` bits. */
  function BitsOf(v: seq<nat>, w: nat): (b: seq<bool>)
    ensures |b| == |v| * w
  { if v == [] then [] else BitsOf(v[..|v| - 1], w) + ToBits(v[|v| - 1], w) }

  /** The complete groups of `w` bits of a bit string. */
  function Groups(b: seq<bool>, w: nat): seq<nat>
    requires w > 0
  { if |b| < w then [] else [FromBits(b[..w])] + Groups(b[w..], w) }

  function Off(n: nat): (b: seq<bool>)
    ensures |b| == n && forall i :: 0 <= i < n ==> !b[i]
  { if n == 0 then [] else Off(n - 1) + [false] }

  predicate AllOff(b: seq<bool>) { forall i :: 0 <= i < |b| ==> !b[i] }

  /** How many bits fill `n` bits up to a multiple of `w`. */
  function Padding(n: nat, w: nat): (p: nat)
    requires w > 0
    ensures p < w
  { if n % w == 0 then 0 else w - n % w }

  /** Regrouping by its meaning: cut the bit string into groups of `to`; a last, incomplete group
      is filled up with zeros when padding, and must be short and zero when not. */
  function Regrouped(v: seq<nat>, from: nat, to: nat, pad: bool): Result<seq<nat>>
    requires to > 0
  {
    var b := BitsOf(v, from);
    var r := |b| % to;
    if pad then Ok(Groups(b + Off(Padding(|b|, to)), to))
    else if r >= from || !AllOff(b[|b| - r..]) then Err
    else Ok(Groups(b[..|b| - r], to))
  }

  // ----- Bits and numbers -----

  lemma {:induction false} FromTo(n: nat, w: nat)
    requires n < Pow2(w)
    ensures FromBits(ToBits(n, w)) == n
    decreases w
  {
    if w != 0 {
      FromTo(n / 2, w - 1);
      assert ToBits(n, w)[..w - 1] == ToBits(n / 2, w - 1);
    }
  }

  lemma {:induction false} ToFrom(b: seq<bool>)
    ensures FromBits(b) < Pow2(|b|) && ToBits(FromBits(b), |b|) == b
  {
    if b != [] {
      ToFrom(b[..|b| - 1]);
      assert b == b[..|b| - 1] + [b[|b| - 1]];
    }
  }

  lemma DivTwice(n: nat, m: nat)
    requires m > 0
    ensures (n / 2) / m == n / (2 * m)
  {
    var q := n / (2 * m);
    var r := n % (2 * m);
    assert n == 2 * (q * m) + r;
    assert n / 2 == q * m + r / 2 && 0 <= r / 2 < m;
    DivUnique(n / 2, m, q, r / 2);
  }

  function Rest(n: nat, m: nat): nat
    requires m > 0
  { n % m }

  function Product(a: nat, b: nat): nat { a * b }

  function Quotient(n: nat, m: nat): nat
    requires m > 0
  { n / m }

  /** n >> b */
  function ShiftRight(n: nat, b: nat): nat { Quotient(n, Pow2(b)) }

  function Halve(n: nat, b: nat): nat { if b == 0 then n else Halve(n / 2, b - 1) }

  lemma {:induction false} HalveIsDiv(n: nat, b: nat)
    ensures Halve(n, b) == ShiftRight(n, b)
    decreases b
  {
    if b != 0 {
      HalveIsDiv(n / 2, b - 1);
      DivTwice(n, Pow2(b - 1));
    }
  }

  lemma {:induction false} ToBitsHalves(n: nat, a: nat, b: nat)
    ensures ToBits(n, a + b) == ToBits(Halve(n, b), a) + ToBits(n, b)
    decreases b
  {
    if b == 0 {
      assert ToBits(n, a + b) == ToBits(n, a) + [];
    } else {
      ToBitsHalves(n / 2, a, b - 1);
    }
  }

  /** The low a + b bits are the low a bits of the quotient by 2^b, then the low b bits. */
  lemma ToBitsSplit(n: nat, a: nat, b: nat)
    ensures ToBits(n, a + b) == ToBits(ShiftRight(n, b), a) + ToBits(n, b)
  {
    hide Pow2, ToBits, Halve;
    ToBitsHalves(n, a, b);
    HalveIsDiv(n, b);
  }

  /** Masking with 2^m - 1 keeps the low m bits. */
  lemma {:induction false} ToBitsMasked(n: nat, w: nat, m: nat)
    requires w <= m
    ensures ToBits(Rest(n, Pow2(m)), w) == ToBits(n, w)
    decreases w
  {
    if w != 0 {
      var p := Pow2(m - 1);
      var q, r := n / (2 * p), n % (2 * p);
      assert n == 2 * (q * p) + r;
      assert n / 2 == q * p + r / 2 && r / 2 < p && n % 2 == r % 2;
      DivUnique(n / 2, p, q, r / 2);
      ToBitsMasked(n / 2, w - 1, m - 1);
    }
  }

  /** Shifting `value` in below `acc` appends its bits. */
  lemma ToBitsShifted(acc: nat, value: nat, a: nat, b: nat)
    requires value < Pow2(b)
    ensures ToBits(Product(acc, Pow2(b)) + value, a + b) == ToBits(acc, a) + ToBits(value, b)
  {
    var n := Product(acc, Pow2(b)) + value;
    DivUnique(n, Pow2(b), acc, value);
    ToBitsSplit(n, a, b);
    ToBitsMasked(n, b, b);
  }

  // ----- Groups -----

  lemma {:induction false} GroupsAppend(b: seq<bool>, g: seq<bool>, w: nat)
    requires w > 0 && |b| % w == 0 && |g| == w
    ensures Groups(b + g, w) == Groups(b, w) + [FromBits(g)]
  {
    if b == [] {
      assert b + g == g && g[..w] == g && g[w..] == [];
    } else {
      assert |b| >= w;
      assert (b + g)[..w] == b[..w] && (b + g)[w..] == b[w..] + g;
      ModSub(|b|, w);
      GroupsAppend(b[w..], g, w);
    }
  }

  lemma ModSub(n: nat, w: nat)
    requires w > 0 && n >= w
    ensures (n - w) % w == n % w
  {
    DivUnique(n - w, w, n / w - 1, n % w);
  }

  lemma {:induction false} BitsOfGroups(b: seq<bool>, w: nat)
    requires w > 0 && |b| % w == 0
    ensures BitsOf(Groups(b, w), w) == b && Below(Groups(b, w), w)
    decreases |b|
  {
    if b != [] {
      var n := |b| - w;
      ModSub(|b|, w);
      var init, last := b[..n], b[n..];
      assert b == init + last;
      BitsOfGroups(init, w);
      GroupsAppend(init, last, w);
      ToFrom(last);
      var g := Groups(b, w);
      assert g[..|g| - 1] == Groups(init, w);
    }
  }

  lemma {:induction false} GroupsOfBits(v: seq<nat>, w: nat)
    requires w > 0 && Below(v, w)
    ensures Groups(BitsOf(v, w), w) == v
  {
    hide ToBits, FromBits;
    if v == [] {
    } else {
      var n := |v| - 1;
      GroupsOfBits(v[..n], w);
      MulMod(n, w);
      GroupsAppend(BitsOf(v[..n], w), ToBits(v[n], w), w);
      FromTo(v[n], w);
      assert v == v[..n] + [v[n]];
    }
  }

  lemma MulMod(n: nat, w: nat)
    requires w > 0
    ensures (n * w) % w == 0
  {
    DivUnique(n * w, w, n, 0);
  }

  // ----- The two directions are inverse to each other -----

  lemma PaddingOfBytes(n: nat)
    ensures (8 * n + Padding(8 * n, 5)) % 5 == 0 && (8 * n + Padding(8 * n, 5)) % 8 == Padding(8 * n, 5)
  {
    var q, r := (8 * n) / 5, (8 * n) % 5;
    var p := Padding(8 * n, 5);
    DivUnique(8 * n + p, 5, if r == 0 then q else q + 1, 0);
    DivUnique(8 * n + p, 8, n, p);
  }

  lemma PaddingOfSymbols(n: nat)
    requires (5 * n) % 8 < 5
    ensures (5 * n - (5 * n) % 8) % 8 == 0 && Padding(5 * n - (5 * n) % 8, 5) == (5 * n) % 8
  {
    var q, r := (5 * n) / 8, (5 * n) % 8;
    DivUnique(5 * n - r, 8, q, 0);
    if r == 0 { DivUnique(5 * n, 5, n, 0); } else { DivUnique(5 * n - r, 5, n - 1, 5 - r); }
  }

  /** Every byte string survives 8-to-5 with padding, then 5-to-8 without. */
  lemma BytesSurvive(v: seq<nat>)
    requires Below(v, 8)
    ensures Regrouped(v, 8, 5, true).Ok? && Below(Regrouped(v, 8, 5, true).value, 5)
    ensures Regrouped(Regrouped(v, 8, 5, true).value, 5, 8, false) == Ok(v)
  {
    hide Groups, BitsOf, Below, Off;
    var b := BitsOf(v, 8);
    var p := Padding(|b|, 5);
    var padded := b + Off(p);
    PaddingOfBytes(|v|);
    BitsOfGroups(padded, 5);
    assert padded[|padded| - p..] == Off(p) && padded[..|padded| - p] == b;
    GroupsOfBits(v, 8);
  }

  /** Every 5-bit string that 5-to-8 without padding accepts is the encoding of what it returns. */
  lemma SymbolsCanonical(s: seq<nat>)
    requires Below(s, 5) && Regrouped(s, 5, 8, false).Ok?
    ensures Below(Regrouped(s, 5, 8, false).value, 8)
    ensures Regrouped(Regrouped(s, 5, 8, false).value, 8, 5, true) == Ok(s)
  {
    hide Groups, BitsOf, Below, Off;
    var b := BitsOf(s, 5);
    var r := |b| % 8;
    var kept := b[..|b| - r];
    PaddingOfSymbols(|s|);
    BitsOfGroups(kept, 8);
    assert b == kept + Off(r) by {
      var tail := b[|b| - r..];
      assert forall i :: 0 <= i < r ==> !tail[i];
      assert tail == Off(r);
    }
    GroupsOfBits(s, 5);
  }

  // ----- The accumulator loop -----

  /** Bitwise or. */
  function Or(a: nat, b: nat): nat {
    if a == 0 then b else if b == 0 then a else 2 * Or(a / 2, b / 2) + (if a % 2 == 1 || b % 2 == 1 then 1 else 0)
  }

  /** ((acc << from) | value) & maxAcc */
  function Push(acc: nat, value: nat, from: nat, to: nat): nat
    requires to > 0
  { Rest(Or(Product(acc, Pow2(from)), value), Pow2(from + to - 1)) }

  /** A value of w bits does not overlap what was shifted left by w. */
  lemma {:induction false} OrDisjoint(acc: nat, w: nat, value: nat)
    requires value < Pow2(w)
    ensures Or(Product(acc, Pow2(w)), value) == Product(acc, Pow2(w)) + value
  {
    var a := Product(acc, Pow2(w));
    if w > 0 && a > 0 && value > 0 {
      OrDisjoint(acc, w - 1, value / 2);
      assert a == 2 * Product(acc, Pow2(w - 1)) by { DoubleProduct(acc, Pow2(w - 1)); }
    }
  }

  lemma DoubleProduct(a: nat, p: nat)
    ensures Product(a, 2 * p) == 2 * Product(a, p)
  {}

  /** (acc << (to - bits)) & maxv */
  function Last(acc: nat, bits: nat, to: nat): nat
    requires bits <= to
  { Rest(Product(acc, Pow2(to - bits)), Pow2(to)) }

  lemma PushBits(b: seq<bool>, acc: nat, value: nat, bits: nat, from: nat, to: nat)
    requires bits < to && bits <= |b| && value < Pow2(from) && ToBits(acc, bits) == b[|b| - bits..]
    ensures ToBits(Push(acc, value, from, to), bits + from) == (b + ToBits(value, from))[|b| - bits..]
  {
    hide Or;
    OrDisjoint(acc, from, value);
    ToBitsMasked(Product(acc, Pow2(from)) + value, bits + from, from + to - 1);
    ToBitsShifted(acc, value, bits, from);
  }

  lemma EmitBits(b: seq<bool>, acc: nat, bits: nat, to: nat)
    requires 0 < to <= bits <= |b| && (|b| - bits) % to == 0 && ToBits(acc, bits) == b[|b| - bits..]
    ensures var k := bits - to;
            (|b| - k) % to == 0 && ToBits(acc, k) == b[|b| - k..]
            && Groups(b[..|b| - k], to) == Groups(b[..|b| - bits], to) + [Rest(ShiftRight(acc, k), Pow2(to))]
  {
    hide ShiftRight, Pow2;
    var k := bits - to;
    ModSub(|b| - k, to);
    ToBitsSplit(acc, to, k);
    var g := ToBits(ShiftRight(acc, k), to);
    assert b[..|b| - k] == b[..|b| - bits] + g;
    assert ToBits(acc, k) == b[|b| - k..];
    GroupsAppend(b[..|b| - bits], g, to);
    FromBitsMasked(ShiftRight(acc, k), to);
  }

  lemma FromBitsMasked(n: nat, w: nat)
    ensures FromBits(ToBits(n, w)) == Rest(n, Pow2(w))
  {
    ToBitsMasked(n, w, w);
    FromTo(Rest(n, Pow2(w)), w);
  }

  lemma {:induction false} ToBitsZero(w: nat)
    ensures ToBits(0, w) == Off(w)
  {
    if w != 0 { ToBitsZero(w - 1); }
  }

  lemma {:induction false} FromBitsZero(b: seq<bool>)
    ensures FromBits(b) == 0 <==> AllOff(b)
  {
    if b != [] {
      FromBitsZero(b[..|b| - 1]);
      assert b == b[..|b| - 1] + [b[|b| - 1]];
    }
  }

  /** (acc << (to - bits)) & maxv spells the last `bits` bits, then zeros. */
  lemma LastGroup(acc: nat, bits: nat, to: nat)
    requires bits <= to
    ensures Last(acc, bits, to) == FromBits(ToBits(acc, bits) + Off(to - bits))
  {
    hide ToBits, FromBits, Off, Pow2, Rest;
    ToBitsShifted(acc, 0, bits, to - bits);
    ToBitsZero(to - bits);
    FromBitsMasked(Product(acc, Pow2(to - bits)), to);
  }

  /** The bit positions consumed so far are grouped in `ret`; the last `bits` are still in `acc`. */
  ghost predicate Pending(b: seq<bool>, ret: seq<nat>, acc: nat, bits: nat, to: nat)
    requires to > 0
  {
    bits <= |b| && (|b| - bits) % to == 0 && ret == Groups(b[..|b| - bits], to) && ToBits(acc, bits) == b[|b| - bits..]
  }

  lemma PushPending(v: seq<nat>, i: nat, ret: seq<nat>, acc: nat, bits: nat, from: nat, to: nat)
    requires i < |v| && Below(v, from) && bits < to && Pending(BitsOf(v[..i], from), ret, acc, bits, to)
    ensures Pending(BitsOf(v[..i + 1], from), ret, Push(acc, v[i], from, to), bits + from, to)
  {
    hide Push, Groups, ToBits, Pow2;
    var b, c := BitsOf(v[..i], from), BitsOf(v[..i + 1], from);
    assert v[..i + 1][..i] == v[..i];
    PushBits(b, acc, v[i], bits, from, to);
    assert c[..|c| - (bits + from)] == b[..|b| - bits];
  }

  lemma EmitPending(b: seq<bool>, ret: seq<nat>, acc: nat, bits: nat, to: nat)
    requires 0 < to <= bits && Pending(b, ret, acc, bits, to)
    ensures Pending(b, ret + [Rest(ShiftRight(acc, bits - to), Pow2(to))], acc, bits - to, to)
  {
    EmitBits(b, acc, bits, to);
  }

  /** The variables of the loop: groups put out, accumulator, and how many bits of it are pending. */
  datatype Loop = Loop(ret: seq<nat>, acc: nat, bits: nat)

  /** The inner loop puts out complete groups. */
  function Drained(a: Loop, to: nat): (d: Loop)
    requires to > 0
    ensures d.bits < to
    decreases a.bits
  {
    if a.bits < to then a
    else Drained(Loop(a.ret + [Rest(ShiftRight(a.acc, a.bits - to), Pow2(to))], a.acc, a.bits - to), to)
  }

  /** The loop after the values v, which may be wider than `from` bits. */
  function Fed(v: seq<nat>, from: nat, to: nat): (a: Loop)
    requires to > 0
    ensures a.bits < to
  {
    if v == [] then Loop([], 0, 0)
    else
      var a := Fed(v[..|v| - 1], from, to);
      Drained(Loop(a.ret, Push(a.acc, v[|v| - 1], from, to), a.bits + from), to)
  }

  function Closed(a: Loop, from: nat, to: nat, pad: bool): Result<seq<nat>>
    requires a.bits < to
  {
    if pad then Ok(if a.bits > 0 then a.ret + [Last(a.acc, a.bits, to)] else a.ret)
    else if a.bits >= from || Last(a.acc, a.bits, to) != 0 then Err
    else Ok(a.ret)
  }

  /** What the loop returns is the regrouped bit string whenever the values fit their groups. */
  method Convert(v: seq<nat>, from: nat, to: nat, pad: bool) returns (r: Result<seq<nat>>)
    requires to > 0
    ensures r == Closed(Fed(v, from, to), from, to, pad)
    ensures Below(v, from) ==> r == Regrouped(v, from, to, pad)
  {
    hide Push, ShiftRight, Rest, Pow2, Regrouped, Below, Last;
    var acc: nat, bits: nat, ret: seq<nat> := 0, 0, [];
    for i := 0 to |v|
      invariant Loop(ret, acc, bits) == Fed(v[..i], from, to)
    {
      assert v[..i + 1][..i] == v[..i];
      acc := Push(acc, v[i], from, to);
      bits := bits + from;
      while bits >= to
        invariant Drained(Loop(ret, acc, bits), to) == Fed(v[..i + 1], from, to)
      {
        bits := bits - to;
        ret := ret + [Rest(ShiftRight(acc, bits), Pow2(to))];
      }
    }
    assert v[..|v|] == v;
    if Below(v, from) {
      LoopRegroups(v, from, to, pad);
    }
    var last := Last(acc, bits, to);
    if pad {
      if bits > 0 {
        ret := ret + [last];
      }
    } else if bits >= from || last != 0 {
      return Err;
    }
    return Ok(ret);
  }

  lemma {:induction false} DrainedPending(b: seq<bool>, a: Loop, to: nat)
    requires to > 0 && Pending(b, a.ret, a.acc, a.bits, to)
    ensures var d := Drained(a, to); Pending(b, d.ret, d.acc, d.bits, to)
    decreases a.bits
  {
    hide Pending, Rest, ShiftRight, Pow2;
    if a.bits >= to {
      EmitPending(b, a.ret, a.acc, a.bits, to);
      DrainedPending(b, Loop(a.ret + [Rest(ShiftRight(a.acc, a.bits - to), Pow2(to))], a.acc, a.bits - to), to);
    }
  }

  lemma {:induction false} FedPending(v: seq<nat>, from: nat, to: nat)
    requires to > 0 && Below(v, from)
    ensures var a := Fed(v, from, to); Pending(BitsOf(v, from), a.ret, a.acc, a.bits, to)
  {
    if v == [] {
      NothingPending(from, to);
    } else {
      var n := |v| - 1;
      hide Pending, Push, Below, BitsOf, Drained, Fed;
      BelowPrefix(v, n, from);
      FedPending(v[..n], from, to);
      var a := Fed(v[..n], from, to);
      PushPending(v, n, a.ret, a.acc, a.bits, from, to);
      assert v[..n + 1] == v;
      DrainedPending(BitsOf(v, from), Loop(a.ret, Push(a.acc, v[n], from, to), a.bits + from), to);
      FedOne(v, from, to);
    }
  }

  lemma FedOne(v: seq<nat>, from: nat, to: nat)
    requires to > 0 && v != []
    ensures var a := Fed(v[..|v| - 1], from, to);
            Fed(v, from, to) == Drained(Loop(a.ret, Push(a.acc, v[|v| - 1], from, to), a.bits + from), to)
  {
    hide Push, Drained;
  }

  lemma BelowPrefix(v: seq<nat>, n: nat, from: nat)
    requires Below(v, from) && n <= |v|
    ensures Below(v[..n], from)
  {}

  /** On values that fit their groups the accumulator loop regroups the bit string. */
  lemma LoopRegroups(v: seq<nat>, from: nat, to: nat, pad: bool)
    requires to > 0 && Below(v, from)
    ensures Closed(Fed(v, from, to), from, to, pad) == Regrouped(v, from, to, pad)
  {
    hide Pending, Fed, Below, Last, BitsOf, Groups;
    FedPending(v, from, to);
    ClosedIs(BitsOf(v, from), Fed(v, from, to), from, to);
  }

  lemma ClosedIs(b: seq<bool>, a: Loop, from: nat, to: nat)
    requires a.bits < to && Pending(b, a.ret, a.acc, a.bits, to)
    ensures Closed(a, from, to, true) == Ok(Groups(b + Off(Padding(|b|, to)), to))
    ensures Closed(a, from, to, false)
         == if |b| % to >= from || !AllOff(b[|b| - |b| % to..]) then Err else Ok(Groups(b[..|b| - |b| % to], to))
  {
    hide Last, Groups, ToBits, FromBits;
    var bits := a.bits;
    Remainder(|b|, bits, to);
    LastGroup(a.acc, bits, to);
    var tail := ToBits(a.acc, bits) + Off(to - bits);
    if bits > 0 {
      GroupsAppend(b[..|b| - bits], tail, to);
      assert b + Off(to - bits) == b[..|b| - bits] + tail;
    } else {
      assert b + Off(0) == b && b[..|b| - bits] == b;
    }
    FromBitsZero(tail);
    AllOffAppend(ToBits(a.acc, bits), to - bits);
  }

  lemma AllOffAppend(b: seq<bool>, n: nat)
    ensures AllOff(b + Off(n)) <==> AllOff(b)
  {
    if AllOff(b + Off(n)) {
      forall i | 0 <= i < |b| ensures !b[i] { assert !(b + Off(n))[i]; }
    }
  }

  lemma NothingPending(from: nat, to: nat)
    requires to > 0
    ensures Pending(BitsOf([], from), [], 0, 0, to)
  {}

  lemma Remainder(n: nat, bits: nat, to: nat)
    requires bits < to && bits <= n && (n - bits) % to == 0
    ensures n % to == bits && Padding(n, to) == if bits == 0 then 0 else to - bits
  {
    DivUnique(n, to, (n - bits) / to, bits);
  }

  // ----- Bytes in, bytes out -----

  function Number(b: bv8): nat { b as int }

  /** byte(n) */
  function Byte(n: nat): bv8 { (n % 256) as bv8 }

  function Numbers(d: seq<bv8>): (v: seq<nat>)
    ensures |v| == |d| && forall i :: 0 <= i < |d| ==> v[i] == Number(d[i])
  { if d == [] then [] else Numbers(d[..|d| - 1]) + [Number(d[|d| - 1])] }

  function Bytes(v: seq<nat>): (d: seq<bv8>)
    ensures |d| == |v| && forall i :: 0 <= i < |v| ==> d[i] == Byte(v[i])
  { if v == [] then [] else Bytes(v[..|v| - 1]) + [Byte(v[|v| - 1])] }

  function Converted(data: seq<bv8>, from: nat, to: nat, pad: bool): Result<seq<bv8>>
    requires to > 0
  {
    match Regrouped(Numbers(data), from, to, pad)
    case Err => Err
    case Ok(v) => Ok(Bytes(v))
  }

  /** Each number as a byte, as the last loop does it. */
  function AsBytes(r: Result<seq<nat>>): Result<seq<bv8>> { if r.Ok? then Ok(Bytes(r.value)) else Err }

  method ConvertBits(data: seq<bv8>, from: nat, to: nat, pad: bool) returns (r: Result<seq<bv8>>)
    requires to > 0
    ensures r == AsBytes(Closed(Fed(Numbers(data), from, to), from, to, pad))
    ensures Below(Numbers(data), from) ==> r == Converted(data, from, to, pad)
  {
    hide Number, Byte, Below, Regrouped, Fed, Closed;
    var uintArr: seq<nat> := [];
    for i := 0 to |data|
      invariant uintArr == Numbers(data[..i])
    {
      assert data[..i + 1][..i] == data[..i];
      uintArr := uintArr + [Number(data[i])];
    }
    assert data[..|data|] == data;
    var ret := Convert(uintArr, from, to, pad);
    if ret.Err? {
      return Err;
    }
    var dataArr: seq<bv8> := [];
    for i := 0 to |ret.value|
      invariant dataArr == Bytes(ret.value[..i])
    {
      assert ret.value[..i + 1][..i] == ret.value[..i];
      dataArr := dataArr + [Byte(ret.value[i])];
    }
    assert ret.value[..|ret.value|] == ret.value;
    return Ok(dataArr);
  }

  lemma NumberBelow(b: bv8)
    ensures Number(b) < 256 && Byte(Number(b)) == b
  {
    hide Byte;
    ByteOfSmall(Number(b));
    SameByte(b);
  }

  lemma ByteOfSmall(n: nat)
    requires n < 256
    ensures Byte(n) == n as bv8
  {}

  lemma SameByte(b: bv8)
    ensures (b as int) as bv8 == b
  {}

  lemma ByteBelow(n: nat)
    requires n < 256
    ensures Number(Byte(n)) == n
  {}

  lemma BytesNumbers(d: seq<bv8>)
    ensures Bytes(Numbers(d)) == d && Below(Numbers(d), 8)
  {
    hide Number, Byte;
    assert Pow2(8) == 256;
    forall i | 0 <= i < |d| ensures Number(d[i]) < 256 && Byte(Number(d[i])) == d[i] { NumberBelow(d[i]); }
  }

  lemma NumbersBytes(v: seq<nat>)
    requires forall i :: 0 <= i < |v| ==> v[i] < 256
    ensures Numbers(Bytes(v)) == v
  {
    hide Number, Byte;
    forall i | 0 <= i < |v| ensures Number(Byte(v[i])) == v[i] { ByteBelow(v[i]); }
  }

  /** For bytes: encoding to 5-bit groups always succeeds, and decoding undoes it. */
  lemma BytesRoundTrip(d: seq<bv8>)
    ensures Converted(d, 8, 5, true).Ok? && Below(Numbers(Converted(d, 8, 5, true).value), 5)
    ensures Converted(Converted(d, 8, 5, true).value, 5, 8, false) == Ok(d)
  {
    hide Regrouped, Numbers, Bytes, Number, Byte;
    BytesNumbers(d);
    BytesSurvive(Numbers(d));
    var v := Regrouped(Numbers(d), 8, 5, true).value;
    assert Pow2(5) == 32;
    NumbersBytes(v);
  }

  /** For 5-bit symbols: whatever decodes to bytes is the encoding of those bytes. */
  lemma SymbolsRoundTrip(s: seq<bv8>, d: seq<bv8>)
    requires Below(Numbers(s), 5) && Converted(s, 5, 8, false) == Ok(d)
    ensures Converted(d, 8, 5, true) == Ok(s)
  {
    hide Regrouped, Numbers, Bytes, Number, Byte;
    SymbolsCanonical(Numbers(s));
    var v := Regrouped(Numbers(s), 5, 8, false).value;
    assert Pow2(8) == 256;
    NumbersBytes(v);
    BytesNumbers(s);
  }

  // ----- Five bytes as eight symbols -----

  lemma Powers()
    ensures Pow2(1) == 2 && Pow2(2) == 4 && Pow2(3) == 8 && Pow2(4) == 16 && Pow2(5) == 32 && Pow2(6) == 64
    ensures Pow2(7) == 128 && Pow2(8) == 256
  {
    assert Pow2(0) == 1;
    assert Pow2(1) == 2 && Pow2(2) == 4 && Pow2(3) == 8 && Pow2(4) == 16;
    assert Pow2(5) == 32 && Pow2(6) == 64 && Pow2(7) == 128;
  }

  /** The high x bits and the low y bits of a number. */
  lemma Cut(n: nat, x: nat, y: nat, hi: nat, lo: nat, p: nat)
    requires p == Pow2(y) && n == hi * p + lo && lo < p
    ensures ToBits(n, x + y) == ToBits(hi, x) + ToBits(lo, y)
  {
    hide ToBits, Pow2;
    ToBitsShifted(hi, lo, x, y);
  }

  lemma {:induction false} BitsConcat(v: seq<nat>, u: seq<nat>, w: nat)
    ensures BitsOf(v + u, w) == BitsOf(v, w) + BitsOf(u, w)
  {
    hide ToBits;
    if u == [] {
      assert v + u == v;
    } else {
      var n := |u| - 1;
      assert (v + u)[..|v| + n] == v + u[..n];
      BitsConcat(v, u[..n], w);
    }
  }

  lemma OneGroup(n: nat, w: nat)
    ensures BitsOf([n], w) == ToBits(n, w)
  {
    assert [n][..0] == [];
    assert BitsOf([], w) == [];
  }

  lemma FiveGroups(a: nat, b: nat, c: nat, d: nat, e: nat, w: nat)
    ensures BitsOf([a, b, c, d, e], w) == ToBits(a, w) + ToBits(b, w) + ToBits(c, w) + ToBits(d, w) + ToBits(e, w)
  {
    hide ToBits, BitsOf;
    BitsConcat([a], [b], w);
    BitsConcat([a] + [b], [c], w);
    BitsConcat([a] + [b] + [c], [d], w);
    BitsConcat([a] + [b] + [c] + [d], [e], w);
    assert [a] + [b] + [c] + [d] + [e] == [a, b, c, d, e];
    OneGroup(a, w);
    OneGroup(b, w);
    OneGroup(c, w);
    OneGroup(d, w);
    OneGroup(e, w);
  }

  lemma EightGroups(v: seq<nat>, w: nat)
    requires |v| == 8
    ensures BitsOf(v, w) == (ToBits(v[0], w) + ToBits(v[1], w) + ToBits(v[2], w) + ToBits(v[3], w) + ToBits(v[4], w))
                            + (ToBits(v[5], w) + ToBits(v[6], w) + ToBits(v[7], w))
  {
    hide ToBits, BitsOf;
    var head, tail := [v[0], v[1], v[2], v[3], v[4]], [v[5], v[6], v[7]];
    assert v == head + tail && tail == [v[5]] + [v[6]] + [v[7]];
    BitsConcat(head, tail, w);
    FiveGroups(v[0], v[1], v[2], v[3], v[4], w);
    BitsConcat([v[5]], [v[6]], w);
    BitsConcat([v[5]] + [v[6]], [v[7]], w);
    OneGroup(v[5], w);
    OneGroup(v[6], w);
    OneGroup(v[7], w);
  }

  /** What eight symbols the five bytes make: three bits of one byte and two of the next, and so on. */
  function EightOf(a: nat, b: nat, c: nat, d: nat, e: nat): (v: seq<nat>)
    ensures |v| == 8
  {
    [a / 8, a % 8 * 4 + b / 64, b / 2 % 32, b % 2 * 16 + c / 16, c % 16 * 2 + d / 128, d / 4 % 32, d % 4 * 8 + e / 32,
     e % 32]
  }

  lemma FirstByte(a: nat)
    ensures ToBits(a, 8) == ToBits(a / 8, 5) + ToBits(a % 8, 3)
  {
    hide ToBits, Pow2;
    Powers();
    Cut(a, 5, 3, a / 8, a % 8, 8);
  }

  lemma SecondByte(b: nat)
    ensures ToBits(b, 8) == ToBits(b / 64, 2) + (ToBits(b / 2 % 32, 5) + ToBits(b % 2, 1))
  {
    hide ToBits, Pow2;
    Powers();
    var low := b % 64;
    Cut(b, 2, 6, b / 64, low, 64);
    Cut(low, 5, 1, b / 2 % 32, b % 2, 2);
  }

  lemma ThirdByte(c: nat)
    ensures ToBits(c, 8) == ToBits(c / 16, 4) + ToBits(c % 16, 4)
  {
    hide ToBits, Pow2;
    Powers();
    Cut(c, 4, 4, c / 16, c % 16, 16);
  }

  lemma FourthByte(d: nat)
    ensures ToBits(d, 8) == ToBits(d / 128, 1) + (ToBits(d / 4 % 32, 5) + ToBits(d % 4, 2))
  {
    hide ToBits, Pow2;
    Powers();
    var low := d % 128;
    Cut(d, 1, 7, d / 128, low, 128);
    Cut(low, 5, 2, d / 4 % 32, d % 4, 4);
  }

  lemma FifthByte(e: nat)
    ensures ToBits(e, 8) == ToBits(e / 32, 3) + ToBits(e % 32, 5)
  {
    hide ToBits, Pow2;
    Powers();
    Cut(e, 3, 5, e / 32, e % 32, 32);
  }

  lemma SymbolCuts(a: nat, b: nat, c: nat, d: nat, e: nat)
    requires a < 256 && b < 256 && c < 256 && d < 256 && e < 256
    ensures ToBits(a % 8 * 4 + b / 64, 5) == ToBits(a % 8, 3) + ToBits(b / 64, 2)
    ensures ToBits(b % 2 * 16 + c / 16, 5) == ToBits(b % 2, 1) + ToBits(c / 16, 4)
    ensures ToBits(c % 16 * 2 + d / 128, 5) == ToBits(c % 16, 4) + ToBits(d / 128, 1)
    ensures ToBits(d % 4 * 8 + e / 32, 5) == ToBits(d % 4, 2) + ToBits(e / 32, 3)
  {
    hide ToBits, Pow2;
    Powers();
    Cut(a % 8 * 4 + b / 64, 3, 2, a % 8, b / 64, 4);
    Cut(b % 2 * 16 + c / 16, 1, 4, b % 2, c / 16, 16);
    Cut(c % 16 * 2 + d / 128, 4, 1, c % 16, d / 128, 2);
    Cut(d % 4 * 8 + e / 32, 2, 3, d % 4, e / 32, 8);
  }

  lemma Recut(a1: seq<bool>, a2: seq<bool>, b1: seq<bool>, b2: seq<bool>, b3: seq<bool>, c1: seq<bool>, c2: seq<bool>,
              d1: seq<bool>, d2: seq<bool>, d3: seq<bool>, e1: seq<bool>, e2: seq<bool>)
    ensures (a1 + a2) + (b1 + (b2 + b3)) + (c1 + c2) + (d1 + (d2 + d3)) + (e1 + e2)
         == (a1 + (a2 + b1) + b2 + (b3 + c1) + (c2 + d1)) + (d2 + (d3 + e1) + e2)
  {
    assert (a1 + a2) + (b1 + (b2 + b3)) == a1 + (a2 + b1) + b2 + b3;
    assert (c1 + c2) + (d1 + (d2 + d3)) == c1 + (c2 + d1) + (d2 + d3);
  }

  lemma FiveBytes(a: nat, b: nat, c: nat, d: nat, e: nat)
    requires a < 256 && b < 256 && c < 256 && d < 256 && e < 256
    ensures BitsOf([a, b, c, d, e], 8) == BitsOf(EightOf(a, b, c, d, e), 5)
  {
    hide ToBits, BitsOf;
    FiveGroups(a, b, c, d, e, 8);
    EightGroups(EightOf(a, b, c, d, e), 5);
    FirstByte(a);
    SecondByte(b);
    ThirdByte(c);
    FourthByte(d);
    FifthByte(e);
    SymbolCuts(a, b, c, d, e);
    Recut(ToBits(a / 8, 5), ToBits(a % 8, 3), ToBits(b / 64, 2), ToBits(b / 2 % 32, 5), ToBits(b % 2, 1),
          ToBits(c / 16, 4), ToBits(c % 16, 4), ToBits(d / 128, 1), ToBits(d / 4 % 32, 5), ToBits(d % 4, 2),
          ToBits(e / 32, 3), ToBits(e % 32, 5));
  }
}
