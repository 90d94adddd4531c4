/** The pieces of the block validator that compute: the reordering stage, the comparison of a node
    block with the stored one, what a repair inserts, and the shared counter. */
module BlockValidator {
  import opened Indexes
  import opened Options

  // ----- Which blocks -----

  /** The heights to validate are put into a channel with room for all of them before anyone reads it.
      A channel of negative size is a panic, here None. */
  method GenerateBlockHeights(startBlock: nat, endBlock: nat) returns (totalBlocks: int, heights: Option<seq<nat>>)
    ensures totalBlocks == endBlock - startBlock + 1
    ensures heights.None? <==> endBlock + 1 < startBlock
    ensures heights.Some? ==> heights.value == Range(startBlock, totalBlocks)
  {
    totalBlocks := endBlock - startBlock + 1;
    if totalBlocks < 0 {
      return totalBlocks, None;
    }
    var queue: seq<nat> := [];
    var i := startBlock;
    while i <= endBlock
      invariant startBlock <= i <= startBlock + totalBlocks && queue == Range(startBlock, i - startBlock)
      invariant |queue| <= totalBlocks
    {
      queue := queue + [i];
      i := i + 1;
    }
    heights := Some(queue);
  }

  // ----- Reordering -----

  datatype Arrival<R> = Arrival(height: nat, result: R)

  function HeightsOf<R>(arrivals: seq<Arrival<R>>): (s: seq<nat>)
    ensures |s| == |arrivals| && forall i :: 0 <= i < |s| ==> s[i] == arrivals[i].height
  { if arrivals == [] then [] else HeightsOf(arrivals[..|arrivals| - 1]) + [arrivals[|arrivals| - 1].height] }

  /** What was seen so far and is not yet due is in the map, under its own height. */
  ghost predicate Buffered<R>(startBlock: nat, seen: seq<Arrival<R>>, next: nat, results: map<nat, R>) {
    && (forall k :: 0 <= k < |seen| ==> seen[k].height in results || startBlock <= seen[k].height < next)
    && (forall h :: h in results ==> Arrival(h, results[h]) in seen)
  }

  /** Everything sent on was seen, and the heights sent on count up from the start. */
  ghost predicate SentInOrder<R>(startBlock: nat, seen: seq<Arrival<R>>, next: nat, sent: seq<Arrival<R>>) {
    && next == startBlock + |sent|
    && (forall k :: 0 <= k < |sent| ==> sent[k].height == startBlock + k && sent[k] in seen)
  }

  lemma ArrivalBuffered<R>(startBlock: nat, seen: seq<Arrival<R>>, next: nat, results: map<nat, R>,
                           sent: seq<Arrival<R>>, x: Arrival<R>)
    requires Buffered(startBlock, seen, next, results) && SentInOrder(startBlock, seen, next, sent)
    ensures Buffered(startBlock, seen + [x], next, results[x.height := x.result])
    ensures SentInOrder(startBlock, seen + [x], next, sent)
  {
    var more, all := results[x.height := x.result], seen + [x];
    forall h | h in more ensures Arrival(h, more[h]) in all { assert all[|seen|] == x; }
  }

  /** Sends on as many results as are available in order. */
  method Drain<R>(startBlock: nat, ghost seen: seq<Arrival<R>>, next: nat, buffered: map<nat, R>,
                  before: seq<Arrival<R>>)
    returns (nextBlock: nat, results: map<nat, R>, sent: seq<Arrival<R>>)
    requires Buffered(startBlock, seen, next, buffered) && SentInOrder(startBlock, seen, next, before)
    ensures Buffered(startBlock, seen, nextBlock, results) && SentInOrder(startBlock, seen, nextBlock, sent)
    ensures nextBlock !in results
  {
    nextBlock, results, sent := next, buffered, before;
    while nextBlock in results
      invariant Buffered(startBlock, seen, nextBlock, results) && SentInOrder(startBlock, seen, nextBlock, sent)
      decreases |results|
    {
      sent := sent + [Arrival(nextBlock, results[nextBlock])];
      results := results - {nextBlock};
      nextBlock := nextBlock + 1;
    }
  }

  /** Results that arrive for n consecutive heights, each once and in whatever order, are sent on in
      ascending order; whatever arrives, what is sent on counts up from the start without a gap. */
  method OrderResults<R>(startBlock: nat, arrivals: seq<Arrival<R>>) returns (sent: seq<Arrival<R>>)
    ensures SentInOrder(startBlock, arrivals, startBlock + |sent|, sent)
    ensures forall n: nat :: Permutes(HeightsOf(arrivals), Range(startBlock, n)) ==> |sent| == n
  {
    hide Range, Permutes, HeightsOf;
    var nextBlock: nat := startBlock;
    var results: map<nat, R> := map[];
    sent := [];
    for a := 0 to |arrivals|
      invariant Buffered(startBlock, arrivals[..a], nextBlock, results) && nextBlock !in results
      invariant SentInOrder(startBlock, arrivals[..a], nextBlock, sent)
    {
      ArrivalBuffered(startBlock, arrivals[..a], nextBlock, results, sent, arrivals[a]);
      assert arrivals[..a + 1] == arrivals[..a] + [arrivals[a]];
      results := results[arrivals[a].height := arrivals[a].result];
      nextBlock, results, sent := Drain(startBlock, arrivals[..a + 1], nextBlock, results, sent);
    }
    assert arrivals[..|arrivals|] == arrivals;
    forall n: nat | Permutes(HeightsOf(arrivals), Range(startBlock, n)) ensures |sent| == n {
      AllSent(startBlock, arrivals, results, sent, n);
    }
  }

  lemma AllSent<R>(startBlock: nat, arrivals: seq<Arrival<R>>, results: map<nat, R>, sent: seq<Arrival<R>>, n: nat)
    requires Permutes(HeightsOf(arrivals), Range(startBlock, n))
    requires Buffered(startBlock, arrivals, startBlock + |sent|, results) && startBlock + |sent| !in results
    requires SentInOrder(startBlock, arrivals, startBlock + |sent|, sent)
    ensures |sent| == n
  {
    var m := |sent|;
    RangeCount(startBlock, n, startBlock + m);
    CountPositive(HeightsOf(arrivals), startBlock + m);
    if m > n {
      RangeCount(startBlock, n, startBlock + n);
      SeenCounts(arrivals, sent[n]);
    }
  }

  lemma SeenCounts<R>(arrivals: seq<Arrival<R>>, x: Arrival<R>)
    requires x in arrivals
    ensures Count(HeightsOf(arrivals), x.height) > 0
  {
    var k :| 0 <= k < |arrivals| && arrivals[k] == x;
    assert HeightsOf(arrivals)[k] == x.height;
    CountPositive(HeightsOf(arrivals), x.height);
  }

  // ----- Checking -----

  /** Repair carries the transactions to insert, as positions in the node's block. */
  datatype Verdict = Valid | Repair(positions: seq<nat>)

  /** The positions of the node's transactions that are not stored. */
  function Missing(nodeTxs: seq<string>, stored: set<string>): (ps: seq<nat>)
    ensures forall k :: 0 <= k < |ps| ==> ps[k] < |nodeTxs| && nodeTxs[ps[k]] !in stored
    ensures |ps| <= |nodeTxs|
  {
    if nodeTxs == [] then []
    else
      var n := |nodeTxs| - 1;
      Missing(nodeTxs[..n], stored) + (if nodeTxs[n] in stored then [] else [n])
  }

  predicate OwnIndexes(positions: seq<nat>) { forall k :: 0 <= k < |positions| ==> positions[k] == k }

  /** The positions, in ascending order, of just those transactions that are not stored. */
  ghost predicate Picks(positions: seq<nat>, nodeTxs: seq<string>, dbTxs: seq<string>) {
    && (forall j, k :: 0 <= j < k < |positions| ==> positions[j] < positions[k])
    && (forall i: nat :: i in positions <==> i < |nodeTxs| && nodeTxs[i] !in dbTxs)
  }

  lemma MissingPicks(nodeTxs: seq<string>, dbTxs: seq<string>)
    ensures Picks(Missing(nodeTxs, SetOf(dbTxs)), nodeTxs, dbTxs)
  {
    hide Missing;
    var ps := Missing(nodeTxs, SetOf(dbTxs));
    MissingAscends(nodeTxs, SetOf(dbTxs));
    forall i: nat | i < |nodeTxs| && nodeTxs[i] !in dbTxs ensures i in ps {
      var k := MissingHas(nodeTxs, SetOf(dbTxs), i);
    }
  }

  lemma {:induction false} MissingAscends(nodeTxs: seq<string>, stored: set<string>)
    ensures forall j, k :: 0 <= j < k < |Missing(nodeTxs, stored)| ==>
              Missing(nodeTxs, stored)[j] < Missing(nodeTxs, stored)[k]
  {
    if nodeTxs != [] { MissingAscends(nodeTxs[..|nodeTxs| - 1], stored); }
  }

  function SetOf(ids: seq<string>): set<string> { set id | id in ids }

  function Verdicts(nodeHash: string, dbHash: string, nodeTxs: seq<string>, dbTxs: seq<string>): Verdict {
    if nodeHash != dbHash then Repair(Range(0, |nodeTxs|))
    else if |nodeTxs| != |dbTxs| then Repair(Missing(nodeTxs, SetOf(dbTxs)))
    else Valid
  }

  method CheckResult(nodeHash: string, dbHash: string, nodeTxs: seq<string>, dbTxs: seq<string>) returns (v: Verdict)
    ensures v == Verdicts(nodeHash, dbHash, nodeTxs, dbTxs)
    ensures v.Valid? <==> nodeHash == dbHash && |nodeTxs| == |dbTxs|
    ensures nodeHash != dbHash ==> |v.positions| == |nodeTxs| && OwnIndexes(v.positions)
    ensures nodeHash == dbHash && |nodeTxs| != |dbTxs| ==> Picks(v.positions, nodeTxs, dbTxs)
  {
    MissingPicks(nodeTxs, dbTxs);
    if nodeHash != dbHash {
      return Repair(Range(0, |nodeTxs|));
    }
    if |nodeTxs| != |dbTxs| {
      var txs: set<string> := {};
      for i := 0 to |dbTxs|
        invariant txs == SetOf(dbTxs[..i])
      {
        txs := txs + {dbTxs[i]};
      }
      assert dbTxs[..|dbTxs|] == dbTxs;
      var missingTxs: seq<nat> := [];
      for i := 0 to |nodeTxs|
        invariant missingTxs == Missing(nodeTxs[..i], txs)
      {
        assert nodeTxs[..i + 1][..i] == nodeTxs[..i];
        if nodeTxs[i] !in txs {
          missingTxs := missingTxs + [i];
        }
      }
      assert nodeTxs[..|nodeTxs|] == nodeTxs;
      return Repair(missingTxs);
    }
    return Valid;
  }

  // ----- What a valid block holds -----

  ghost predicate Distinct(ids: seq<string>) { forall i, j :: 0 <= i < j < |ids| ==> ids[i] != ids[j] }

  lemma {:induction false} SetSize(ids: seq<string>)
    requires Distinct(ids)
    ensures |SetOf(ids)| == |ids|
  {
    if ids == [] {
      assert SetOf(ids) == {};
    } else {
      var n := |ids| - 1;
      SetSize(ids[..n]);
      assert ids == ids[..n] + [ids[n]];
      assert SetOf(ids) == SetOf(ids[..n]) + {ids[n]};
    }
  }

  lemma SameSize(a: set<string>, b: set<string>)
    requires a <= b && |a| == |b|
    ensures a == b
  {
    assert b == a + (b - a);
  }

  /** A block found valid holds exactly the node's transactions if and only if it holds none besides
      the node's: the check compares counts, not transactions. */
  lemma ValidHoldsIff(hash: string, dbHash: string, nodeTxs: seq<string>, dbTxs: seq<string>)
    requires Distinct(nodeTxs) && Distinct(dbTxs) && Verdicts(hash, dbHash, nodeTxs, dbTxs).Valid?
    ensures SetOf(dbTxs) == SetOf(nodeTxs) <==> SetOf(dbTxs) <= SetOf(nodeTxs)
  {
    SetSize(nodeTxs);
    SetSize(dbTxs);
    if SetOf(dbTxs) <= SetOf(nodeTxs) { SameSize(SetOf(dbTxs), SetOf(nodeTxs)); }
  }

  /** Equal hashes and counts pass even if the stored transaction is not the node's. */
  lemma ValidCanDiffer()
    ensures Verdicts("h", "h", ["a"], ["b"]).Valid? && SetOf(["a"]) != SetOf(["b"])
  {
    var a, b := ["a"], ["b"];
    assert a[0] in SetOf(a) && "a"[0] != "b"[0];
    assert "a" !in b;
  }

  // ----- What a repair stores -----

  /** No stored transaction of the block comes before a missing one. */
  predicate MissingFirst(nodeTxs: seq<string>, stored: set<string>) {
    forall i, j :: 0 <= i < j < |nodeTxs| && nodeTxs[j] !in stored ==> nodeTxs[i] !in stored
  }

  lemma {:induction false} MissingHas(nodeTxs: seq<string>, stored: set<string>, i: nat) returns (k: nat)
    requires i < |nodeTxs| && nodeTxs[i] !in stored
    ensures k < |Missing(nodeTxs, stored)| && Missing(nodeTxs, stored)[k] == i
  {
    var n := |nodeTxs| - 1;
    if i < n { k := MissingHas(nodeTxs[..n], stored, i); } else { k := |Missing(nodeTxs[..n], stored)|; }
  }

  lemma {:induction false} MissingPrefix(nodeTxs: seq<string>, stored: set<string>)
    requires MissingFirst(nodeTxs, stored)
    ensures OwnIndexes(Missing(nodeTxs, stored))
    ensures nodeTxs != [] && nodeTxs[|nodeTxs| - 1] !in stored ==> |Missing(nodeTxs, stored)| == |nodeTxs|
  {
    if nodeTxs != [] {
      var n := |nodeTxs| - 1;
      var head := nodeTxs[..n];
      MissingPrefix(head, stored);
      if nodeTxs[n] !in stored && n > 0 { assert head[n - 1] !in stored; }
    }
  }

  lemma MissingOwnIff(nodeTxs: seq<string>, stored: set<string>)
    ensures OwnIndexes(Missing(nodeTxs, stored)) <==> MissingFirst(nodeTxs, stored)
  {
    if MissingFirst(nodeTxs, stored) { MissingPrefix(nodeTxs, stored); }
    if OwnIndexes(Missing(nodeTxs, stored)) {
      forall i, j | 0 <= i < j < |nodeTxs| && nodeTxs[j] !in stored ensures nodeTxs[i] !in stored {
        var k := MissingHas(nodeTxs, stored, j);
        assert Missing(nodeTxs, stored)[i] == i;
      }
    }
  }

  /** A repair inserts each transaction under its place in the list of those repaired. That is the
      transaction's own index in the block for all of them exactly when the hashes differ, so that all
      are repaired, or no stored transaction comes before a missing one. */
  lemma RepairIndexesRightIff(nodeHash: string, dbHash: string, nodeTxs: seq<string>, dbTxs: seq<string>)
    requires Verdicts(nodeHash, dbHash, nodeTxs, dbTxs).Repair?
    ensures OwnIndexes(Verdicts(nodeHash, dbHash, nodeTxs, dbTxs).positions)
            <==> nodeHash != dbHash || MissingFirst(nodeTxs, SetOf(dbTxs))
  {
    hide Missing;
    MissingOwnIff(nodeTxs, SetOf(dbTxs));
  }

  /** The second of two transactions, missing alone, is put back under the first one's index. */
  lemma RepairMisplaces()
    ensures Verdicts("h", "h", ["a", "b"], ["a"]) == Repair([1])
    ensures !OwnIndexes([1])
  {
    var node, db := ["a", "b"], ["a"];
    var stored := SetOf(db);
    assert "a" in stored && "b" !in stored by { assert db[0] == "a" && "a"[0] != "b"[0]; }
    assert node[..1] == ["a"] && node[..1][..0] == [];
    assert Missing(node[..1], stored) == [];
    assert Missing(node, stored) == [1];
    var wrong: seq<nat> := [1];
    assert wrong[0] == 1;
  }

  /** The transactions that a repair inserts. */
  function Repaired(nodeTxs: seq<string>, positions: seq<nat>): set<string>
    requires forall k :: 0 <= k < |positions| ==> positions[k] < |nodeTxs|
  { set k | 0 <= k < |positions| :: nodeTxs[positions[k]] }

  lemma VerdictInRange(nodeHash: string, dbHash: string, nodeTxs: seq<string>, dbTxs: seq<string>)
    requires Verdicts(nodeHash, dbHash, nodeTxs, dbTxs).Repair?
    ensures var ps := Verdicts(nodeHash, dbHash, nodeTxs, dbTxs).positions;
            forall k :: 0 <= k < |ps| ==> ps[k] < |nodeTxs|
  {
    hide Missing;
  }

  /** After a repair every transaction of the node's block is stored, and nothing else exactly when nothing
      else was. If the hashes differ the repair alone inserts all of them; otherwise it inserts none that
      is there. */
  lemma RepairCovers(nodeHash: string, dbHash: string, nodeTxs: seq<string>, dbTxs: seq<string>)
    requires Verdicts(nodeHash, dbHash, nodeTxs, dbTxs).Repair?
    ensures var ps := Verdicts(nodeHash, dbHash, nodeTxs, dbTxs).positions;
            && (forall k :: 0 <= k < |ps| ==> ps[k] < |nodeTxs|)
            && var node, stored, repaired := SetOf(nodeTxs), SetOf(dbTxs), Repaired(nodeTxs, ps);
               && node <= stored + repaired && (stored + repaired == node <==> stored <= node)
               && (nodeHash != dbHash ==> repaired == node)
               && (nodeHash == dbHash ==> repaired !! stored)
  {
    hide Missing, Range;
    VerdictInRange(nodeHash, dbHash, nodeTxs, dbTxs);
    MissingPicks(nodeTxs, dbTxs);
    var ps := Verdicts(nodeHash, dbHash, nodeTxs, dbTxs).positions;
    forall id | id in nodeTxs && (nodeHash != dbHash || id !in dbTxs) ensures id in Repaired(nodeTxs, ps) {
      var i: nat :| i < |nodeTxs| && nodeTxs[i] == id;
      assert nodeHash != dbHash ==> ps[i] == i;
      assert i in ps;
      var k :| 0 <= k < |ps| && ps[k] == i;
    }
  }

  // ----- The counter -----

  /** The shared state of blockValidated: `mark` is the stored validatedBlock, `closes` counts how
      often doneChan was closed. */
  datatype Tally = Tally(validated: nat, mark: nat, closes: nat)

  /** The watermark after n blocks. */
  function Watermark(start: nat, total: nat, offset: nat, n: nat): nat {
    if n == 0 || offset > total then start
    else if n - 1 <= total - offset then start + n - 1
    else start + total - offset
  }

  function TallyAfter(start: nat, total: nat, offset: nat, n: nat): Tally {
    Tally(n, Watermark(start, total, offset, n), if n >= total then 1 else 0)
  }

  function Counted(start: nat, total: int, offset: nat, t: Tally): Tally {
    Tally(t.validated + 1, if t.validated + offset <= total then start + t.validated else t.mark,
          if t.validated + 1 == total then t.closes + 1 else t.closes)
  }

  /** The n-th of the expected calls leaves the tally after n blocks. */
  lemma CountedIs(start: nat, total: nat, offset: nat, n: nat)
    requires n < total
    ensures Counted(start, total, offset, TallyAfter(start, total, offset, n))
            == TallyAfter(start, total, offset, n + 1)
  {}

  class Counter {
    const startBlock: nat
    const totalBlocks: int
    const offset: nat
    var blocksValidated: nat
    var validatedBlock: nat
    var closes: nat

    constructor (startBlock: nat, endBlock: nat, offset: nat)
      ensures this.startBlock == startBlock && totalBlocks == endBlock - startBlock + 1 && this.offset == offset
      ensures Now() == Tally(0, startBlock, 0)
    {
      this.startBlock, totalBlocks, this.offset := startBlock, endBlock - startBlock + 1, offset;
      blocksValidated, validatedBlock, closes := 0, startBlock, 0;
    }

    function Now(): Tally
      reads this
    { Tally(blocksValidated, validatedBlock, closes) }

    /** Runs under the mutex, so calls from different goroutines do not overlap. */
    method BlockValidated()
      modifies this
      ensures Now() == Counted(startBlock, totalBlocks, offset, old(Now()))
    {
      if blocksValidated + offset <= totalBlocks {
        validatedBlock := startBlock + blocksValidated;
      }
      blocksValidated := blocksValidated + 1;
      if blocksValidated == totalBlocks {
        closes := closes + 1;
      }
    }
  }
}
