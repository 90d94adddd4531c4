/** The stages of the UTXO indexer that loop on their own: the producer of block heights and the
    stage that puts fetched blocks back in order. */
module IndexerStages {
  import opened Options
  import opened Indexes

  // ----- Heights -----

  function Joined(batches: seq<seq<nat>>): seq<nat> {
    if batches == [] then [] else Joined(batches[..|batches| - 1]) + batches[|batches| - 1]
  }

  lemma JoinedAppend(batches: seq<seq<nat>>, b: seq<nat>)
    ensures Joined(batches + [b]) == Joined(batches) + b
  {
    assert (batches + [b])[..|batches|] == batches;
  }

  /** How many heights the batch starting at i takes. */
  function BatchLength(i: nat, endBlock: int, batchSize: nat): nat {
    if endBlock < i then 0 else if endBlock + 1 - i < batchSize then endBlock + 1 - i else batchSize
  }

  /** None of the first `used` readings of the node's height is below the one before. */
  ghost predicate NeverDrops(first: int, readings: nat -> int, used: nat) {
    forall k: nat :: k < used ==> readings(k) >= if k == 0 then first else readings(k - 1)
  }

  lemma NothingJoined(start: nat)
    ensures Joined([]) == Range(start, 0) == []
  {}

  method NextBatch(i: nat, endBlock: int, batchSize: nat) returns (heights: seq<nat>)
    ensures heights == Range(i, BatchLength(i, endBlock, batchSize))
  {
    heights := [];
    for x := 0 to batchSize
      invariant heights == Range(i, x) && (x > 0 ==> i + x - 1 <= endBlock)
    {
      var block := i + x;
      if block > endBlock {
        break;
      }
      heights := heights + [block];
    }
  }

  /** Where a sync begins: at the last block of the database if it goes to the tip, else where it was told. */
  function SetStartBlock(syncTip: bool, startBlock: nat, lastBlock: Option<nat>): (start: nat)
    ensures !syncTip ==> start == startBlock
    ensures syncTip && lastBlock.Some? ==> start == lastBlock.value
    ensures syncTip && lastBlock.None? ==> start == 0
  { if syncTip then (if lastBlock.Some? then lastBlock.value else 0) else startBlock }

  /** Where it ends: at the node's height if it goes to the tip, else where it was told, but not before
      its start. */
  function SetEndBlock(syncTip: bool, startBlock: nat, endBlock: int, reading: int): (end: int)
    ensures syncTip ==> end == reading
    ensures !syncTip ==> end >= startBlock && end >= endBlock && (end == startBlock || end == endBlock)
  { if syncTip then reading else if endBlock < startBlock then startBlock else endBlock }

  /** endBlock after n readings of the node's height. */
  function EndAfter(firstEnd: int, readings: nat -> int, n: nat): int { if n == 0 then firstEnd else readings(n - 1) }

  /** The height at which batch b begins. */
  function BatchStart(startBlock: nat, batchSize: nat, b: nat): nat { startBlock + b * batchSize }

  /** What batch b is made of, after `before` readings and one more if `after` says so: the node's height is
      read again exactly if no more than batchSize heights are left after the batch's first. */
  ghost predicate Built(startBlock: nat, firstEnd: int, batchSize: nat, syncTip: bool, readings: nat -> int, b: nat,
                        before: nat, after: nat, heights: seq<nat>) {
    var i, end := BatchStart(startBlock, batchSize, b), EndAfter(firstEnd, readings, before);
    && i <= end
    && after == (if syncTip && end - i <= batchSize then before + 1 else before)
    && heights == Range(i, BatchLength(i, EndAfter(firstEnd, readings, after), batchSize))
  }

  /** The batches one after the other; seen[b] is how often the node's height was read before batch b. */
  ghost predicate Schedule(startBlock: nat, firstEnd: int, batchSize: nat, syncTip: bool, readings: nat -> int,
                           batches: seq<seq<nat>>, seen: seq<nat>) {
    && |seen| == |batches| + 1 && seen[0] == 0
    && forall b :: 0 <= b < |batches| ==>
         Built(startBlock, firstEnd, batchSize, syncTip, readings, b, seen[b], seen[b + 1], batches[b])
  }

  lemma ScheduleOn(startBlock: nat, firstEnd: int, batchSize: nat, syncTip: bool, readings: nat -> int,
                   batches: seq<seq<nat>>, seen: seq<nat>, heights: seq<nat>, used: nat)
    requires Schedule(startBlock, firstEnd, batchSize, syncTip, readings, batches, seen)
    requires Built(startBlock, firstEnd, batchSize, syncTip, readings, |batches|, seen[|batches|], used, heights)
    ensures Schedule(startBlock, firstEnd, batchSize, syncTip, readings, batches + [heights], seen + [used])
  {
    hide Built;
    var all, more := batches + [heights], seen + [used];
    forall b | 0 <= b < |all|
      ensures Built(startBlock, firstEnd, batchSize, syncTip, readings, b, more[b], more[b + 1], all[b])
    {
      if b < |batches| {
        assert Built(startBlock, firstEnd, batchSize, syncTip, readings, b, seen[b], seen[b + 1], batches[b]);
      }
    }
  }

  lemma BatchStarts(startBlock: nat, batchSize: nat, b: nat)
    ensures BatchStart(startBlock, batchSize, 0) == startBlock
    ensures BatchStart(startBlock, batchSize, b + 1) == BatchStart(startBlock, batchSize, b) + batchSize
  {}

  /** A sync to the tip of a nonempty range always reads the node's height again, and once more just before
      its last batch: when it stops, nothing up to that last reading is left. */
  lemma TipReadLast(startBlock: nat, firstEnd: int, batchSize: nat, readings: nat -> int, batches: seq<seq<nat>>,
                    seen: seq<nat>)
    requires Schedule(startBlock, firstEnd, batchSize, true, readings, batches, seen) && startBlock <= firstEnd
    requires EndAfter(firstEnd, readings, seen[|batches|]) < BatchStart(startBlock, batchSize, |batches|)
    ensures batches != [] && seen[|batches|] >= 1
    ensures var n, used := |batches| - 1, seen[|batches|];
            var i, end := BatchStart(startBlock, batchSize, n), EndAfter(firstEnd, readings, used - 1);
            && seen[n] == used - 1 && i <= end <= i + batchSize
            && batches[n] == Range(i, BatchLength(i, readings(used - 1), batchSize))
            && readings(used - 1) < i + batchSize
  {
    hide Range, BatchLength;
    BatchStarts(startBlock, batchSize, 0);
    assert batches != [];
    var n := |batches| - 1;
    assert Built(startBlock, firstEnd, batchSize, true, readings, n, seen[n], seen[n + 1], batches[n]);
    BatchStarts(startBlock, batchSize, n);
  }

  /** `readings` are the node heights that setEndBlock sees; `used` says how many it saw, and `seen` how many
      before each batch. */
  method ProcessBlockHeights(startBlock: nat, firstEnd: int, batchSize: nat, syncTip: bool, readings: nat -> int,
                             limit: int)
    returns (batches: seq<seq<nat>>, endBlock: int, used: nat, ghost seen: seq<nat>)
    requires batchSize >= 1 && forall k :: readings(k) <= limit
    ensures Joined(batches) == Range(startBlock, |Joined(batches)|)
    ensures forall b :: 0 <= b < |batches| ==> |batches[b]| <= batchSize
    ensures NeverDrops(firstEnd, readings, used) ==>
              startBlock + |Joined(batches)| == if startBlock <= endBlock then endBlock + 1 else startBlock
    ensures endBlock == EndAfter(firstEnd, readings, used)
    ensures !syncTip ==> used == 0
    ensures syncTip && startBlock <= firstEnd ==> used >= 1
    ensures Schedule(startBlock, firstEnd, batchSize, syncTip, readings, batches, seen) && used == seen[|batches|]
    ensures endBlock < BatchStart(startBlock, batchSize, |batches|)
  {
    hide Joined, Range, Schedule, BatchStart;
    batches, endBlock, used, seen := [], firstEnd, 0, [0];
    assert Joined(batches) == Range(startBlock, 0) by { NothingJoined(startBlock); }
    assert Schedule(startBlock, firstEnd, batchSize, syncTip, readings, batches, seen) by {
      NothingScheduled(startBlock, firstEnd, batchSize, syncTip, readings);
    }
    var i := startBlock;
    BatchStarts(startBlock, batchSize, 0);
    while i <= endBlock
      invariant endBlock == EndAfter(firstEnd, readings, used)
      invariant !syncTip ==> used == 0
      invariant i == BatchStart(startBlock, batchSize, |batches|)
      invariant |seen| == |batches| + 1 && seen[|batches|] == used
      invariant Schedule(startBlock, firstEnd, batchSize, syncTip, readings, batches, seen)
      invariant Joined(batches) == Range(startBlock, |Joined(batches)|) && startBlock <= i
      invariant forall b :: 0 <= b < |batches| ==> |batches[b]| <= batchSize
      invariant i <= endBlock ==> startBlock + |Joined(batches)| == i
      invariant NeverDrops(firstEnd, readings, used) && i > endBlock ==>
                  startBlock + |Joined(batches)| == if startBlock <= endBlock then endBlock + 1 else startBlock
      decreases (if limit > firstEnd then limit else firstEnd) - i
    {
      ghost var before := used;
      if i >= endBlock - batchSize && i <= endBlock {
        endBlock := SetEndBlock(syncTip, startBlock, endBlock, readings(used));
        if syncTip {
          used := used + 1;
          assert NeverDrops(firstEnd, readings, used) ==> NeverDrops(firstEnd, readings, used - 1);
        }
      }
      var heights := NextBatch(i, endBlock, batchSize);
      RangeJoin(startBlock, |Joined(batches)|, |heights|);
      JoinedAppend(batches, heights);
      ScheduleOn(startBlock, firstEnd, batchSize, syncTip, readings, batches, seen, heights, used);
      BatchStarts(startBlock, batchSize, |batches|);
      batches, seen := batches + [heights], seen + [used];
      i := i + batchSize;
    }
    if syncTip && startBlock <= firstEnd { TipReadLast(startBlock, firstEnd, batchSize, readings, batches, seen); }
  }

  lemma NothingScheduled(startBlock: nat, firstEnd: int, batchSize: nat, syncTip: bool, readings: nat -> int)
    ensures Schedule(startBlock, firstEnd, batchSize, syncTip, readings, [], [0])
  {}

  // ----- Reordering -----

  /** The longest stretch of `s` from position k on that counts up from `next`. */
  function Following(s: seq<nat>, k: nat, next: nat): nat
    requires k <= |s|
    decreases |s| - k
  { if k < |s| && s[k] == next then 1 + Following(s, k + 1, next + 1) else 0 }

  lemma {:induction false} FollowingIs(s: seq<nat>, k: nat, next: nat)
    requires k <= |s|
    ensures var n := Following(s, k, next);
            k + n <= |s| && s[k..k + n] == Range(next, n) && (k + n < |s| ==> s[k + n] != next + n)
    decreases |s| - k
  {
    hide Range;
    var n := Following(s, k, next);
    if k < |s| && s[k] == next {
      FollowingIs(s, k + 1, next + 1);
      var tail := s[k + 1..k + n];
      assert forall i :: 0 <= i < |tail| ==> tail[i] == next + 1 + i;
      assert s[k..k + n] == [next] + tail;
    }
  }

  function Heights(slots: seq<Option<nat>>): (s: seq<nat>)
    requires NoNil(slots)
    ensures |s| == |slots| && forall i :: 0 <= i < |s| ==> s[i] == slots[i].value
  { if slots == [] then [] else Heights(slots[..|slots| - 1]) + [slots[|slots| - 1].value] }

  predicate NoNil(slots: seq<Option<nat>>) { forall i :: 0 <= i < |slots| ==> slots[i].Some? }

  function Slots(s: seq<nat>): (slots: seq<Option<nat>>)
    ensures |slots| == |s| && forall i :: 0 <= i < |s| ==> slots[i] == Some(s[i])
  { if s == [] then [] else Slots(s[..|s| - 1]) + [Some(s[|s| - 1])] }

  lemma SlotsHold(slots: seq<Option<nat>>, s: seq<nat>)
    requires |slots| == |s| && forall i :: 0 <= i < |s| ==> slots[i] == Some(s[i])
    ensures NoNil(slots) && Heights(slots) == s
  {}

  /** The state of orderBlock. A block is represented by its height, a nil slot by None. */
  class Orderer {
    var nextBlock: nat
    var blockStore: seq<Option<nat>>

    constructor (startBlock: nat)
      ensures nextBlock == startBlock && blockStore == []
    {
      nextBlock, blockStore := startBlock, [];
    }

    /** The comparison reads the height of every slot, so no slot may be nil. */
    method SortStore()
      requires NoNil(blockStore)
      modifies this
      ensures nextBlock == old(nextBlock)
      ensures NoNil(blockStore) && Heights(blockStore) == InOrder(old(Heights(blockStore)))
    {
      blockStore := Slots(InOrder(Heights(blockStore)));
    }

    /** Sends on the blocks that are due, which stand at the front of the sorted store. */
    method EmitDue() returns (emitted: seq<nat>)
      requires NoNil(blockStore)
      modifies this
      ensures var sorted := old(Heights(blockStore));
              var n := Following(sorted, 0, old(nextBlock));
              && n <= |sorted|
              && emitted == Range(old(nextBlock), n) && nextBlock == old(nextBlock) + n
              && NoNil(blockStore) && Heights(blockStore) == sorted[n..]
    {
      hide Heights;
      ghost var sorted, first := Heights(blockStore), nextBlock;
      FollowingIs(sorted, 0, first);
      emitted := [];
      var blockSentCount := 0;
      for i := 0 to |blockStore|
        invariant blockSentCount == i && emitted == Range(first, i) && nextBlock == first + i
        invariant |blockStore| == |sorted| && forall k :: i <= k < |sorted| ==> blockStore[k] == Some(sorted[k])
        invariant i + Following(sorted, i, nextBlock) == Following(sorted, 0, first)
      {
        var block := blockStore[i].value;
        if block == nextBlock {
          emitted := emitted + [block];
          blockStore := blockStore[i := None];
          nextBlock := block + 1;
          blockSentCount := blockSentCount + 1;
          continue;
        }
        break;
      }
      blockStore := blockStore[blockSentCount..];
      SlotsHold(blockStore, sorted[blockSentCount..]);
    }

    /** One batch comes in; the blocks that are due go out. */
    method Absorb(blks: seq<nat>) returns (emitted: seq<nat>)
      requires NoNil(blockStore)
      modifies this
      ensures var sorted := InOrder(old(Heights(blockStore)) + blks);
              var n := Following(sorted, 0, old(nextBlock));
              && n <= |sorted|
              && emitted == Range(old(nextBlock), n) && nextBlock == old(nextBlock) + n
              && NoNil(blockStore) && Heights(blockStore) == sorted[n..]
    {
      hide Following, InOrder, Range;
      ghost var before := Heights(blockStore);
      blockStore := blockStore + Slots(blks);
      assert Heights(blockStore) == before + blks;
      SortStore();
      emitted := EmitDue();
    }
  }

  /** Everything that came in has gone out in order or waits in the store, and nothing due waits. */
  ghost predicate Underway(start: nat, emitted: seq<nat>, store: seq<nat>, all: seq<nat>) {
    && emitted == Range(start, |emitted|) && Permutes(emitted + store, all) && Ascends(store)
    && (store != [] ==> store[0] != start + |emitted|)
  }

  lemma AbsorbKeeps(start: nat, out: seq<nat>, store: seq<nat>, all: seq<nat>, batch: seq<nat>)
    requires Underway(start, out, store, all)
    ensures var sorted := InOrder(store + batch);
            var n := Following(sorted, 0, start + |out|);
            n <= |sorted| && Underway(start, out + Range(start + |out|, n), sorted[n..], all + batch)
  {
    hide InOrder, Following, Permutes;
    var sorted := InOrder(store + batch);
    InOrderIs(store + batch, 0);
    FollowingIs(sorted, 0, start + |out|);
    var n := Following(sorted, 0, start + |out|);
    RangeJoin(start, |out|, n);
    assert sorted[0..n] == sorted[..n];
    KeepsAll(out, store, batch, all, Range(start + |out|, n), sorted);
  }

  /** Batches that hold, in whatever order, each of n consecutive heights once come out in
      ascending order; whatever comes in, what comes out is a gap-free run from the start. */
  method OrderBlock(startBlock: nat, batches: seq<seq<nat>>) returns (emitted: seq<nat>)
    ensures emitted == Range(startBlock, |emitted|)
    ensures forall n: nat :: Permutes(Joined(batches), Range(startBlock, n)) ==> emitted == Range(startBlock, n)
  {
    hide Range, Joined, Permutes, Following, InOrder;
    var orderer := new Orderer(startBlock);
    emitted := [];
    NothingUnderway(startBlock);
    for b := 0 to |batches|
      invariant NoNil(orderer.blockStore) && orderer.nextBlock == startBlock + |emitted|
      invariant Underway(startBlock, emitted, Heights(orderer.blockStore), Joined(batches[..b]))
    {
      AbsorbKeeps(startBlock, emitted, Heights(orderer.blockStore), Joined(batches[..b]), batches[b]);
      JoinedAppend(batches[..b], batches[b]);
      assert batches[..b + 1] == batches[..b] + [batches[b]];
      var more := orderer.Absorb(batches[b]);
      emitted := emitted + more;
    }
    assert batches[..|batches|] == batches;
    forall n: nat | Permutes(Joined(batches), Range(startBlock, n)) ensures emitted == Range(startBlock, n) {
      AllOut(startBlock, emitted, Heights(orderer.blockStore), Joined(batches), n);
    }
  }

  lemma NothingUnderway(start: nat)
    ensures Underway(start, [], [], Joined([]))
  {
    assert Joined([]) == [];
    var none: seq<nat> := [];
    assert none + none == none;
  }

  lemma KeepsAll(out: seq<nat>, store: seq<nat>, batch: seq<nat>, all: seq<nat>, more: seq<nat>, sorted: seq<nat>)
    requires Permutes(out + store, all) && sorted == InOrder(store + batch) && more <= sorted
    ensures Permutes((out + more) + sorted[|more|..], all + batch)
  {
    forall x: nat ensures Count((out + more) + sorted[|more|..], x) == Count(all + batch, x) {
      CountConcat(out + more, sorted[|more|..], x);
      CountConcat(out, more, x);
      CountConcat(more, sorted[|more|..], x);
      assert more + sorted[|more|..] == sorted;
      InOrderIs(store + batch, x);
      CountConcat(store, batch, x);
      CountConcat(all, batch, x);
      CountConcat(out, store, x);
      assert Count(out + store, x) == Count(all, x);
    }
  }

  /** Once everything is in, nothing can be left in the store. */
  lemma AllOut(start: nat, emitted: seq<nat>, store: seq<nat>, all: seq<nat>, n: nat)
    requires Underway(start, emitted, store, all) && Permutes(all, Range(start, n))
    ensures |emitted| == n && store == []
  {
    var m := |emitted|;
    forall x: nat
      ensures Count(store, x) + (if start <= x < start + m then 1 else 0) == if start <= x < start + n then 1 else 0
    {
      CountConcat(emitted, store, x);
      RangeCount(start, m, x);
      RangeCount(start, n, x);
      assert Count(emitted + store, x) == Count(all, x) == Count(Range(start, n), x);
    }
    assert Count(store, start + n) + (if n < m then 1 else 0) == 0;
    DueFirst(store, start + m);
    assert Count(store, start + m) == if m < n then 1 else 0;
    if store != [] { CountPositive(store, store[0]); }
  }

  /** If a sorted store holds nothing below `due`, then `due` itself can only stand in front. */
  lemma DueFirst(store: seq<nat>, due: nat)
    requires Ascends(store) && (store != [] ==> store[0] != due)
    requires forall x: nat :: x < due ==> Count(store, x) == 0
    ensures Count(store, due) == 0
  {
    CountPositive(store, due);
    if store != [] {
      CountPositive(store, store[0]);
    }
  }
}
