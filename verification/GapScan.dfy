/** Discovery of the used addresses of an extended public key, twenty at a time. */
module GapScan {
  import opened Indexes

  const NUM_WORKERS: nat := 20

  /** Some index of batch b has been used. */
  ghost predicate BatchActive(active: nat -> bool, b: nat) {
    exists j: nat :: b * NUM_WORKERS <= j < (b + 1) * NUM_WORKERS && active(j)
  }

  /** What the batched scan is meant to find: used indices with no unused batch before them. */
  ghost predicate Found(active: nat -> bool, i: nat) {
    active(i) && forall b: nat :: b * NUM_WORKERS <= i ==> BatchActive(active, b)
  }

  /** What a scan that looks at one address at a time and stops after twenty unused ones in a row
      finds (BIP-44, "Address gap limit"). */
  ghost predicate FoundByGapLimit(active: nat -> bool, i: nat) {
    active(i) && forall j: nat :: j + 20 <= i ==> AnyActive(active, j)
  }

  /** Some of the twenty indices from j on has been used. */
  ghost predicate AnyActive(active: nat -> bool, j: nat) {
    exists k: nat :: j <= k < j + 20 && active(k)
  }

  function Used(active: nat -> bool, s: seq<nat>): seq<nat> {
    if s == [] then [] else Used(active, s[..|s| - 1]) + (if active(s[|s| - 1]) then [s[|s| - 1]] else [])
  }

  lemma {:induction false} UsedCount(active: nat -> bool, s: seq<nat>, x: nat)
    ensures Count(Used(active, s), x) == if active(x) then Count(s, x) else 0
  {
    if s != [] {
      UsedCount(active, s[..|s| - 1], x);
      CountConcat(Used(active, s[..|s| - 1]), [s[|s| - 1]], x);
      assert Used(active, s[..|s| - 1]) + [] == Used(active, s[..|s| - 1]);
    }
  }

  /** Everything used below i has been collected, once, and nothing else. */
  ghost predicate Collected(active: nat -> bool, results: seq<nat>, i: nat) {
    forall x: nat :: Count(results, x) == if x < i && active(x) then 1 else 0
  }

  lemma CollectBatch(active: nat -> bool, results: seq<nat>, arrived: seq<nat>, i: nat)
    requires Collected(active, results, i) && Permutes(arrived, Range(i, NUM_WORKERS))
    ensures Collected(active, results + Used(active, arrived), i + NUM_WORKERS)
  {
    forall x: nat
      ensures Count(results + Used(active, arrived), x) == if x < i + NUM_WORKERS && active(x) then 1 else 0
    {
      CountConcat(results, Used(active, arrived), x);
      UsedCount(active, arrived, x);
      assert Count(arrived, x) == Count(Range(i, NUM_WORKERS), x);
      RangeCount(i, NUM_WORKERS, x);
      assert Count(results, x) == if x < i && active(x) then 1 else 0;
    }
  }

  /** A batch reports a used index exactly when it has one. */
  lemma UsedSome(active: nat -> bool, arrived: seq<nat>, b: nat)
    requires Permutes(arrived, Range(b * NUM_WORKERS, NUM_WORKERS))
    ensures Used(active, arrived) != [] <==> BatchActive(active, b)
  {
    var used, i := Used(active, arrived), b * NUM_WORKERS;
    forall x: nat ensures Count(used, x) > 0 <==> i <= x < i + NUM_WORKERS && active(x) {
      UsedCount(active, arrived, x);
      assert Count(arrived, x) == Count(Range(i, NUM_WORKERS), x);
      RangeCount(i, NUM_WORKERS, x);
    }
    if used != [] {
      CountPositive(used, used[0]);
      assert active(used[0]);
    }
    if BatchActive(active, b) {
      var j: nat :| i <= j < (b + 1) * NUM_WORKERS && active(j);
      CountPositive(used, j);
    }
  }

  /** One batch: the workers report in the order `arrived`. */
  method CollectOutput(active: nat -> bool, arrived: seq<nat>, before: seq<nat>)
    returns (results: seq<nat>, hasActive: bool)
    ensures results == before + Used(active, arrived) && (hasActive <==> Used(active, arrived) != [])
  {
    results, hasActive := before, false;
    for k := 0 to |arrived|
      invariant results == before + Used(active, arrived[..k]) && (hasActive <==> Used(active, arrived[..k]) != [])
    {
      assert arrived[..k + 1][..k] == arrived[..k];
      if active(arrived[k]) {
        results := results + [arrived[k]];
        hasActive := true;
      }
    }
    assert arrived[..|arrived|] == arrived;
  }

  /** `orders(b)` is the order in which the workers of batch b report; from `limit` on no index has
      been used. The result lists the addresses of the found indices in ascending order of index,
      whatever the orders. */
  method DeriveAddresses(active: nat -> bool, addr: nat -> string, orders: nat -> seq<nat>, ghost limit: nat)
    returns (found: seq<nat>, addrs: seq<string>)
    requires forall b: nat :: Permutes(orders(b), Range(b * NUM_WORKERS, NUM_WORKERS))
    requires forall i: nat :: i >= limit ==> !active(i)
    ensures forall j, k :: 0 <= j < k < |found| ==> found[j] < found[k]
    ensures forall i: nat :: i in found <==> Found(active, i)
    ensures |addrs| == |found| && forall k :: 0 <= k < |found| ==> addrs[k] == addr(found[k])
  {
    hide Used, Count, Range, Permutes, BatchActive, InOrder;
    var results: seq<nat> := [];
    var b := 0;
    NothingCollected(active);
    while true
      invariant Collected(active, results, b * NUM_WORKERS)
      invariant forall c: nat :: c < b ==> BatchActive(active, c)
      decreases limit + NUM_WORKERS - b * NUM_WORKERS
    {
      var hasActive;
      var arrived := orders(b);
      UsedSome(active, arrived, b);
      CollectBatch(active, results, arrived, b * NUM_WORKERS);
      results, hasActive := CollectOutput(active, arrived, results);
      if !hasActive {
        break;
      }
      assert b * NUM_WORKERS < limit by { ActiveBelow(active, b, limit); }
      b := b + 1;
    }
    found := InOrder(results);
    ScanResult(active, results, b, found);
    addrs := [];
    for k := 0 to |found|
      invariant |addrs| == k && forall j :: 0 <= j < k ==> addrs[j] == addr(found[j])
    {
      addrs := addrs + [addr(found[k])];
    }
  }

  lemma NothingCollected(active: nat -> bool)
    ensures Collected(active, [], 0)
  {}

  lemma ActiveBelow(active: nat -> bool, b: nat, limit: nat)
    requires BatchActive(active, b) && forall i: nat :: i >= limit ==> !active(i)
    ensures b * NUM_WORKERS < limit
  {}

  lemma ScanResult(active: nat -> bool, results: seq<nat>, b: nat, addrs: seq<nat>)
    requires Collected(active, results, (b + 1) * NUM_WORKERS) && addrs == InOrder(results)
    requires (forall c: nat :: c < b ==> BatchActive(active, c)) && !BatchActive(active, b)
    ensures forall j, k :: 0 <= j < k < |addrs| ==> addrs[j] < addrs[k]
    ensures forall i: nat :: i in addrs <==> Found(active, i)
  {
    hide InOrder;
    forall i: nat
      ensures Count(addrs, i) == if i < (b + 1) * NUM_WORKERS && active(i) then 1 else 0
      ensures i in addrs <==> Count(addrs, i) > 0
    {
      InOrderIs(results, i);
      CountPositive(addrs, i);
      assert Count(results, i) == if i < (b + 1) * NUM_WORKERS && active(i) then 1 else 0;
    }
    InOrderIs(results, 0);
    forall j, k | 0 <= j < k < |addrs| ensures addrs[j] < addrs[k] { OnceEach(addrs, j, k); }
    forall i: nat ensures i in addrs <==> Found(active, i) {
      if i in addrs { assert active(i) && !(b * NUM_WORKERS <= i); }
    }
  }

  lemma OnceEach(s: seq<nat>, j: nat, k: nat)
    requires j < k < |s| && Ascends(s) && Count(s, s[j]) <= 1
    ensures s[j] < s[k]
  {
    if s[j] == s[k] { TwiceCounted(s, j, k); }
  }

  lemma TwiceCounted(s: seq<nat>, j: nat, k: nat)
    requires j < k < |s| && s[j] == s[k]
    ensures Count(s, s[j]) >= 2
  {
    CountConcat(s[..k], s[k..], s[j]);
    assert s == s[..k] + s[k..];
    CountPositive(s[..k], s[j]);
    CountPositive(s[k..], s[j]);
    assert s[..k][j] == s[j] && s[k..][0] == s[k];
  }

  // ----- Against the gap limit -----

  /** Every stretch of twenty that ends by i has a used index, except that the last may be unused. */
  ghost predicate Unbroken(active: nat -> bool, i: nat, gap: nat) {
    forall j: nat :: j + NUM_WORKERS <= i && (gap < NUM_WORKERS || j + NUM_WORKERS < i) ==> AnyActive(active, j)
  }

  /** The last `gap` indices before i are unused, and the one before them is not. */
  ghost predicate Trailing(active: nat -> bool, i: nat, gap: nat) {
    gap <= i && (forall k: nat :: i - gap <= k < i ==> !active(k)) && (gap < i ==> active(i - gap - 1))
  }

  lemma OneFurther(active: nat -> bool, i: nat, gap: nat)
    requires Unbroken(active, i, gap) && Trailing(active, i, gap) && gap < NUM_WORKERS
    ensures var more := if active(i) then 0 else gap + 1; Unbroken(active, i + 1, more) && Trailing(active, i + 1, more)
  {
    var more := if active(i) then 0 else gap + 1;
    forall j: nat | j + NUM_WORKERS <= i + 1 && (more < NUM_WORKERS || j + NUM_WORKERS < i + 1)
      ensures AnyActive(active, j)
    {
      if j + NUM_WORKERS == i + 1 {
        assert active(if active(i) then i else i - gap - 1);
      }
    }
  }

  /** The reference: one address at a time, until twenty in a row are unused. */
  method ScanOneByOne(active: nat -> bool, ghost limit: nat) returns (found: seq<nat>)
    requires forall i: nat :: i >= limit ==> !active(i)
    ensures forall j, k :: 0 <= j < k < |found| ==> found[j] < found[k]
    ensures forall i: nat :: i in found <==> FoundByGapLimit(active, i)
  {
    found := [];
    var i: nat, gap: nat := 0, 0;
    while gap < NUM_WORKERS
      invariant gap <= NUM_WORKERS && i <= limit + gap
      invariant Unbroken(active, i, gap) && Trailing(active, i, gap)
      invariant forall j, k :: 0 <= j < k < |found| ==> found[j] < found[k]
      invariant forall j :: 0 <= j < |found| ==> found[j] < i
      invariant forall x: nat :: x in found <==> x < i && active(x)
      decreases limit + NUM_WORKERS - i
    {
      hide AnyActive;
      OneFurther(active, i, gap);
      if active(i) {
        found := found + [i];
        gap := 0;
      } else {
        gap := gap + 1;
      }
      i := i + 1;
    }
    forall x: nat ensures x in found <==> FoundByGapLimit(active, x) { StoppedAt(active, i, x); }
  }

  lemma StoppedAt(active: nat -> bool, i: nat, x: nat)
    requires Unbroken(active, i, NUM_WORKERS) && Trailing(active, i, NUM_WORKERS)
    ensures FoundByGapLimit(active, x) <==> x < i && active(x)
  {
    assert !AnyActive(active, i - NUM_WORKERS);
    if x < i && active(x) {
      forall j: nat | j + NUM_WORKERS <= x ensures AnyActive(active, j) {}
    }
  }

  /** The first twenty unused indices in a row begin at j. */
  ghost predicate FirstGap(active: nat -> bool, j: nat) {
    !AnyActive(active, j) && forall k: nat :: k < j ==> AnyActive(active, k)
  }

  /** One past the first batch that begins at or after j. */
  function NextBatchEnd(j: nat): nat { ((j + 19) / 20 + 1) * 20 }

  lemma PastGap(active: nat -> bool, j: nat, i: nat)
    requires !AnyActive(active, j) && active(i) && i >= j
    ensures i >= j + NUM_WORKERS
  {}

  lemma GapLimitStops(active: nat -> bool, j: nat, i: nat)
    requires FirstGap(active, j)
    ensures FoundByGapLimit(active, i) <==> active(i) && i < j
  {
    if active(i) && i < j {
      forall k: nat | k + NUM_WORKERS <= i ensures AnyActive(active, k) {}
    }
    if active(i) && i >= j { PastGap(active, j, i); }
  }

  /** Batches that begin before the gap all have a used index. */
  lemma EarlierBatches(active: nat -> bool, j: nat, b: nat)
    requires FirstGap(active, j) && b * NUM_WORKERS < j
    ensures BatchActive(active, b)
  {
    assert AnyActive(active, b * NUM_WORKERS);
    var k: nat :| b * NUM_WORKERS <= k < b * NUM_WORKERS + NUM_WORKERS && active(k);
  }

  lemma UnalignedGap(active: nat -> bool, j: nat, b: nat)
    requires !AnyActive(active, j) && BatchActive(active, b)
    ensures b * NUM_WORKERS != j
  {}

  /** Past the gap, only the rest of the batch in which it ends can still be found. */
  lemma FoundPastGap(active: nat -> bool, j: nat, i: nat)
    requires FirstGap(active, j) && i >= j
    ensures Found(active, i) ==> j % 20 != 0 && j + 20 <= i
    ensures active(i) && j % 20 != 0 && j + 20 <= i < NextBatchEnd(j) ==> Found(active, i)
  {
    var b := (j + 19) / 20;
    if Found(active, i) {
      PastGap(active, j, i);
      UnalignedGap(active, j, b);
    }
    if active(i) && j % 20 != 0 && j + 20 <= i < NextBatchEnd(j) {
      forall c: nat | c * NUM_WORKERS <= i ensures BatchActive(active, c) {
        if c < b { EarlierBatches(active, j, c); } else { assert c == b; }
      }
    }
  }

  /** The two scans find different addresses exactly when the first gap does not begin a batch and an
      index after it, in the batch in which it ends, has been used. */
  lemma ScansDifferIff(active: nat -> bool, j: nat)
    requires FirstGap(active, j)
    ensures (exists i: nat :: Found(active, i) != FoundByGapLimit(active, i))
            <==> j % 20 != 0 && exists i: nat :: j + 20 <= i < NextBatchEnd(j) && active(i)
  {
    hide Found, FoundByGapLimit, FirstGap;
    if i: nat :| Found(active, i) != FoundByGapLimit(active, i) {
      if FoundByGapLimit(active, i) { FindsAllOfGapLimit(active, i); }
      GapLimitStops(active, j, i);
      assert Found(active, i);
      FoundIsUsed(active, i);
      FoundPastGap(active, j, i);
      NearestFound(active, j, i);
    }
    if j % 20 != 0 {
      if i: nat :| j + 20 <= i < NextBatchEnd(j) && active(i) {
        FoundPastGap(active, j, i);
        GapLimitStops(active, j, i);
      }
    }
  }

  lemma FoundIsUsed(active: nat -> bool, i: nat)
    requires Found(active, i)
    ensures active(i)
  {}

  /** If anything past the gap is found, something in the batch in which it ends has been used. */
  lemma NearestFound(active: nat -> bool, j: nat, i: nat)
    requires FirstGap(active, j) && Found(active, i) && j + 20 <= i
    ensures exists k: nat :: j + 20 <= k < NextBatchEnd(j) && active(k)
  {
    var b := (j + 19) / 20;
    assert b * NUM_WORKERS <= i;
    assert BatchActive(active, b);
    var k: nat :| b * NUM_WORKERS <= k < (b + 1) * NUM_WORKERS && active(k);
    PastGap(active, j, k);
  }

  /** Without any gap both scans find every used address. */
  lemma NoGapNoDifference(active: nat -> bool, i: nat)
    requires forall k: nat :: AnyActive(active, k)
    ensures Found(active, i) == FoundByGapLimit(active, i) == active(i)
  {
    if active(i) { FindsAllOfGapLimit(active, i); }
  }

  /** Nothing that the one-at-a-time scan finds is missed. */
  lemma FindsAllOfGapLimit(active: nat -> bool, i: nat)
    requires FoundByGapLimit(active, i)
    ensures Found(active, i)
  {
    forall b: nat | b * NUM_WORKERS <= i ensures BatchActive(active, b) {
      if (b + 1) * NUM_WORKERS <= i {
        assert AnyActive(active, b * NUM_WORKERS);
        var k: nat :| b * NUM_WORKERS <= k < b * NUM_WORKERS + NUM_WORKERS && active(k);
      } else {
        assert active(i);
      }
    }
  }

  /** All used indices are found exactly when no batch without a used index precedes a used one. */
  lemma FindsAllIff(active: nat -> bool)
    ensures (forall i: nat :: active(i) ==> Found(active, i))
            <==> forall b: nat :: BatchActive(active, b) || forall i: nat :: active(i) ==> i < b * NUM_WORKERS
  {
    if forall i: nat :: active(i) ==> Found(active, i) {
      forall b: nat | !BatchActive(active, b) ensures forall i: nat :: active(i) ==> i < b * NUM_WORKERS {
        forall i: nat | active(i) ensures i < b * NUM_WORKERS { assert Found(active, i); }
      }
    }
  }

  /** It can find more: with only indices 0 and 39 used, 39 lies beyond a gap of 38. */
  lemma FindsMore()
    ensures var active := (i: nat) => i == 0 || i == 39; Found(active, 39) && !FoundByGapLimit(active, 39)
  {
    var active := (i: nat) => i == 0 || i == 39;
    forall b: nat | b * NUM_WORKERS <= 39 ensures BatchActive(active, b) {
      if b == 0 { assert active(0); } else { assert b == 1 && active(39); }
    }
    assert !AnyActive(active, 1);
  }
}
