/** Lists of block indices: runs of consecutive ones, and how often an index occurs. */
module Indexes {

  /** `n` consecutive indices from `a` on. */
  function Range(a: nat, n: nat): (s: seq<nat>)
    ensures |s| == n && forall i :: 0 <= i < n ==> s[i] == a + i
  { if n == 0 then [] else Range(a, n - 1) + [a + n - 1] }

  /** How often x occurs. */
  function Count(s: seq<nat>, x: nat): nat {
    if s == [] then 0 else Count(s[..|s| - 1], x) + (if s[|s| - 1] == x then 1 else 0)
  }

  /** Each index occurs in one list as often as in the other. */
  ghost predicate Permutes(a: seq<nat>, b: seq<nat>) { forall x: nat :: Count(a, x) == Count(b, x) }

  lemma {:induction false} CountConcat(a: seq<nat>, b: seq<nat>, x: nat)
    ensures Count(a + b, x) == Count(a, x) + Count(b, x)
  {
    if b == [] {
      assert a + b == a;
    } else {
      assert (a + b)[..|a + b| - 1] == a + b[..|b| - 1];
      CountConcat(a, b[..|b| - 1], x);
    }
  }

  lemma {:induction false} CountPositive(s: seq<nat>, x: nat)
    ensures x in s <==> Count(s, x) > 0
  {
    if s != [] {
      CountPositive(s[..|s| - 1], x);
      assert s == s[..|s| - 1] + [s[|s| - 1]];
    }
  }

  lemma {:induction false} RangeCount(a: nat, n: nat, x: nat)
    ensures Count(Range(a, n), x) == if a <= x < a + n then 1 else 0
  {
    if n != 0 { RangeCount(a, n - 1, x); }
  }

  lemma RangeJoin(a: nat, m: nat, n: nat)
    ensures Range(a, m) + Range(a + m, n) == Range(a, m + n)
  {}

  lemma {:induction false} CountHead(s: seq<nat>, k: nat, x: nat)
    requires k < |s|
    ensures Count(s[k..], x) == Count(s[k + 1..], x) + (if s[k] == x then 1 else 0)
  {
    assert s[k..] == [s[k]] + s[k + 1..];
    CountConcat([s[k]], s[k + 1..], x);
    assert [s[k]][..0] == [];
  }

  // ----- Sorting -----

  predicate Ascends(s: seq<nat>) { forall i, j :: 0 <= i < j < |s| ==> s[i] <= s[j] }

  function Inserted(s: seq<nat>, x: nat): seq<nat> {
    if s == [] || s[|s| - 1] <= x then s + [x] else Inserted(s[..|s| - 1], x) + [s[|s| - 1]]
  }

  /** The indices in ascending order. */
  function InOrder(s: seq<nat>): seq<nat> { if s == [] then [] else Inserted(InOrder(s[..|s| - 1]), s[|s| - 1]) }

  predicate Below(s: seq<nat>, b: nat) { forall i :: 0 <= i < |s| ==> s[i] <= b }

  lemma {:induction false} InsertedBelow(s: seq<nat>, x: nat, b: nat)
    requires Below(s, b) && x <= b
    ensures Below(Inserted(s, x), b)
  {
    if s != [] && s[|s| - 1] > x { InsertedBelow(s[..|s| - 1], x, b); }
  }

  lemma {:induction false} InsertedIs(s: seq<nat>, x: nat)
    requires Ascends(s)
    ensures Ascends(Inserted(s, x)) && |Inserted(s, x)| == |s| + 1
  {
    if s != [] && s[|s| - 1] > x {
      InsertedIs(s[..|s| - 1], x);
      InsertedBelow(s[..|s| - 1], x, s[|s| - 1]);
    }
  }

  lemma {:induction false} InsertedCount(s: seq<nat>, x: nat, y: nat)
    ensures Count(Inserted(s, x), y) == Count(s, y) + (if x == y then 1 else 0)
  {
    CountConcat(s, [x], y);
    if s != [] && s[|s| - 1] > x {
      InsertedCount(s[..|s| - 1], x, y);
      CountConcat(Inserted(s[..|s| - 1], x), [s[|s| - 1]], y);
    }
  }

  /** Sorting puts the indices in ascending order and keeps every one of them. */
  lemma {:induction false} InOrderIs(s: seq<nat>, x: nat)
    ensures Ascends(InOrder(s)) && |InOrder(s)| == |s| && Count(InOrder(s), x) == Count(s, x)
  {
    if s != [] {
      InOrderIs(s[..|s| - 1], x);
      InsertedIs(InOrder(s[..|s| - 1]), s[|s| - 1]);
      InsertedCount(InOrder(s[..|s| - 1]), s[|s| - 1], x);
    }
  }
}
