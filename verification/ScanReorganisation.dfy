/** A transaction lost in a reorganisation of the chain. */
module ScanReorganisation {
  import opened Options
  import opened Indexes
  import opened BlockQueues
  import opened BlockQueueRuns
  import opened BlockQueueOrder
  import opened BlockQueueExact
  import opened BlockTables
  import opened ScanPass
  import opened ScanContents

  const MOVED: Tx := Tx("x", 10, 0, {})

  /** The chain before: block 10 is empty, block 11 contains x. After: x is in block 10. */
  function TxsBefore(h: Hash): seq<Tx> {
    if h == "b" then [Tx("x", 11, 0, {})] else if h == "c" then [MOVED] else []
  }

  const REORGANISED: seq<Bundle> := [Bundle(10, "c", [MOVED]), Bundle(11, "d", [])]

  const BEFORE: Tables := Tables(map[10 := "a", 11 := "b"], map["x" := 11], {}, map[], {}, {})

  lemma BeforeIsWhole()
    ensures Whole(BEFORE, TxsBefore)
  {
    assert "a" != "b" && "a" != "c" && "b" != "c" by {
      assert "a"[0] != "b"[0] && "a"[0] != "c"[0] && "b"[0] != "c"[0];
    }
    var txs := TxsBefore("b");
    assert txs[0].id == "x";
    assert Lists(txs, "x");
    assert Stored(BEFORE, TxsBefore("a"), 10) && Stored(BEFORE, txs, 11);
  }

  lemma OnePicked(blocks: map<nat, Hash>, b: Bundle, status: Status)
    ensures Picked(blocks, [b], 1, status) == if StatusOf(blocks, b.index, b.hash) == status then [b] else []
  {
    assert Picked(blocks, [b], 0, status) == [];
  }

  lemma OneBundle(b: Bundle)
    ensures AllTxs([b]) == b.txs && IndexSet([b]) == {b.index}
  {
    assert [b][..0] == [];
    assert [b][0] == b;
  }

  /** The status of a single replaced block, and what scanning it amounts to. */
  lemma ScanReplaced(t: Tables, b: Bundle)
    requires StatusOf(t.blocks, b.index, b.hash) == Replaced
    ensures Scanned(t, [b]) == Saved(Deleted(t, {b.index}), [b])
  {
    hide Saved, Deleted, Picked;
    OnePicked(t.blocks, b, New);
    OnePicked(t.blocks, b, Replaced);
    OneBundle(b);
    assert [] + [b] == [b];
  }

  /** Saving a single block whose index is free and whose transactions log nothing. */
  lemma SavedOne(t: Tables, b: Bundle)
    requires b.index !in t.blocks && Logged(b.txs) == {} && Parties(b.txs) == {}
    ensures var s := t.(blocks := t.blocks[b.index := b.hash]);
            Saved(t, [b]) == if Conflicts(t.transactions, b.txs) then (s, false)
                             else (s.(transactions := WithTxs(t.transactions, b.txs)), true)
  {
    hide Conflicts, WithTxs, Logged, Parties;
    OneBundle(b);
    assert [b][..0] == [];
    assert WithBlocks(t.blocks, []) == t.blocks;
    assert WithBlocks(t.blocks, [b]) == t.blocks[b.index := b.hash];
    assert t.logs + {} == t.logs && t.addresses + {} == t.addresses;
  }

  lemma DeletedTen()
    ensures Deleted(BEFORE, {10}) == BEFORE.(blocks := map[11 := "b"])
  {
    assert TxsOf(BEFORE, {10}) == {};
    assert BEFORE.blocks - {10} == map[11 := "b"] && BEFORE.transactions - {} == BEFORE.transactions;
    assert NotCreatedBy(map[], {}) == map[];
  }

  lemma DeletedEleven(t: Tables)
    requires t == BEFORE.(blocks := map[10 := "c", 11 := "b"])
    ensures Deleted(t, {11}) == t.(blocks := map[10 := "c"], transactions := map[])
  {
    assert TxsOf(t, {11}) == {"x"};
    assert t.blocks - {11} == map[10 := "c"] && t.transactions - {"x"} == map[];
    assert NotCreatedBy(map[], {"x"}) == map[];
  }

  /** The first batch after the reorganisation, if it ends before block 11: x is still stored under 11,
      so the insert fails, and block 10 keeps its new hash without its transaction. */
  lemma FirstBatchFails()
    ensures Scanned(BEFORE, [REORGANISED[0]]) == (BEFORE.(blocks := map[10 := "c", 11 := "b"]), false)
  {
    hide Scanned, Saved, Deleted;
    var b := REORGANISED[0];
    assert "a"[0] != "c"[0];
    ScanReplaced(BEFORE, b);
    DeletedTen();
    var txs := [MOVED];
    assert txs[0].id in BEFORE.transactions;
    assert Logged(txs) == {} && Parties(txs) == {};
    SavedOne(BEFORE.(blocks := map[11 := "b"]), b);
    assert map[11 := "b"][10 := "c"] == map[10 := "c", 11 := "b"];
  }

  /** Replacing block 11 then deletes x for good. */
  lemma SecondBatchDeletes()
    ensures var t := BEFORE.(blocks := map[10 := "c", 11 := "b"]);
            Scanned(t, [REORGANISED[1]]) == (t.(blocks := map[10 := "c", 11 := "d"], transactions := map[]), true)
  {
    hide Scanned, Saved, Deleted;
    var b := REORGANISED[1];
    var t := BEFORE.(blocks := map[10 := "c", 11 := "b"]);
    assert "b"[0] != "d"[0];
    ScanReplaced(t, b);
    DeletedEleven(t);
    assert Logged([]) == {} && Parties([]) == {};
    SavedOne(t.(blocks := map[10 := "c"], transactions := map[]), b);
    assert map[10 := "c"][11 := "d"] == map[10 := "c", 11 := "d"];
  }

  ghost predicate AsReorganised(node: nat -> Bundle) { node(10) == REORGANISED[0] && node(11) == REORGANISED[1] }

  // ----- A run of the queue that hands out the two blocks one by one -----

  /** Blocks 10 and 11, read with the queue's default configuration. */
  function TwoBlocks(node: nat -> Bundle): Setup<Bundle> { Setup(10, 12, Config(10, 5, 1), node) }

  const ONE_BY_ONE: seq<Event> := [Call, Respond(10), Call, Respond(11), Call]

  function Batches(node: nat -> Bundle): seq<seq<Wrapper<Bundle>>> {
    [[Wrapper(10, node(10))], [Wrapper(11, node(11))], []]
  }

  /** The queue with block i in flight, and with both blocks handed out. */
  const BOTH: State<Bundle> := State([], 12, [10, 11], 1)
  const SECOND: State<Bundle> := State([], 12, [11], 0)
  const DRY: State<Bundle> := State([], 12, [], 0)

  lemma FirstCalled(node: nat -> Bundle)
    ensures Called(Init(TwoBlocks(node)).q, 12, Config(10, 5, 1)) == (BOTH, None)
  {
    NoneReady(Init(TwoBlocks(node)).q, Config(10, 5, 1));
    assert Range(10, 0) == [] && Range(10, 1) == [10] && Range(10, 2) == [10, 11];
    assert [] + Range(10, 2) == [10, 11];
  }

  lemma TenAnswered(node: nat -> Bundle)
    ensures Responded(BOTH, 10, node(10), 12, Config(10, 5, 1)) == (SECOND, Some([Wrapper(10, node(10))]))
  {
    hide Ready, Dropping, Without, Range;
    var w := Wrapper(10, node(10));
    var t := Arrived(BOTH, 10, node(10));
    assert [10, 11] == [10] + [11];
    WithoutConcat([10], [11], 10);
    WithoutOne(10, 10);
    WithoutOne(11, 10);
    assert [] + [11] == [11] && [] + [w] == [w];
    assert t == State([w], 12, [11], 1);
    OneReady(node, 10, t);
    OneDropped(w);
    assert Range(12, 0) == [] && [11] + [] == [11];
  }

  lemma OneReady(node: nat -> Bundle, i: nat, t: State<Bundle>)
    requires t.blocks == [Wrapper(i, node(i))] && !Blocked(t.requests, i)
    ensures Ready(t, Config(10, 5, 1)) == [Wrapper(i, node(i))]
  {
    hide Blocked;
    var u := TwoBlocks(node);
    assert Chunk(u, i, 1) == [Wrapper(i, node(i))];
    SortedChunk(u, i, 1);
    ReadyOf(u, t, i, 1);
  }

  lemma OneDropped(w: Wrapper<Bundle>)
    ensures Dropping([w], Indices([w])) == []
  {
    assert Indices([w])[0] == w.index;
    DroppingAll([w], Indices([w]));
  }

  lemma SecondCalled(node: nat -> Bundle)
    ensures Called(SECOND, 12, Config(10, 5, 1)) == (SECOND.(listeners := 1), None)
  {
    NoneReady(SECOND, Config(10, 5, 1));
    assert Range(12, 0) == [] && [11] + [] == [11];
  }

  lemma ElevenAnswered(node: nat -> Bundle)
    ensures Responded(SECOND.(listeners := 1), 11, node(11), 12, Config(10, 5, 1))
         == (DRY, Some([Wrapper(11, node(11))]))
  {
    hide Ready, Dropping, Without, Range;
    var w := Wrapper(11, node(11));
    var t := Arrived(SECOND.(listeners := 1), 11, node(11));
    WithoutOne(11, 11);
    assert [] + [w] == [w];
    assert t == State([w], 12, [], 1);
    OneReady(node, 11, t);
    OneDropped(w);
    assert Range(12, 0) == [];
    var none: seq<nat> := [];
    assert none + [] == [];
  }

  lemma DryCalled(node: nat -> Bundle)
    ensures Called(DRY, 12, Config(10, 5, 1)) == (DRY, Some([]))
  {
    NoneReady(DRY, Config(10, 5, 1));
    assert Range(12, 0) == [];
    var none: seq<nat> := [];
    assert none + [] == [];
  }

  /** The run is legal, hands out block 10, then block 11, and runs dry. */
  lemma OneByOne(node: nat -> Bundle)
    ensures RanDry(TwoBlocks(node), ONE_BY_ONE) && After(TwoBlocks(node), ONE_BY_ONE).batches == Batches(node)
  {
    hide Called, Responded;
    var u := TwoBlocks(node);
    FirstCalled(node);
    TenAnswered(node);
    SecondCalled(node);
    ElevenAnswered(node);
    DryCalled(node);
    var none: seq<Event> := [];
    assert After(u, none) == Init(u) && Legal(u, none);
    Extend(u, none, Call);
    var e1 := none + [Call];
    Extend(u, e1, Respond(10));
    var e2 := e1 + [Respond(10)];
    Extend(u, e2, Call);
    var e3 := e2 + [Call];
    Extend(u, e3, Respond(11));
    var e4 := e3 + [Respond(11)];
    Extend(u, e4, Call);
    assert e4 + [Call] == ONE_BY_ONE;
    assert ONE_BY_ONE[..4] == e4;
  }

  /** From consistent tables, a pass over a chain in which x moved from block 11 to block 10 fails, the
      next pass completes, and then the block table agrees with the chain while x is nowhere; no
      later pass writes anything. All three passes are on batches that a run of the queue hands out. */
  lemma ReorganisationLosesTransaction(node: nat -> Bundle)
    requires AsReorganised(node)
    ensures RanDry(TwoBlocks(node), ONE_BY_ONE) && Sane(TwoBlocks(node).config)
    ensures var batches := After(TwoBlocks(node), ONE_BY_ONE).batches;
            var failed := BEFORE.(blocks := map[10 := "c", 11 := "b"]);
            var settled := BEFORE.(blocks := map[10 := "c", 11 := "d"], transactions := map[]);
            && Whole(BEFORE, TxsBefore) && Pass(BEFORE, batches) == (failed, false)
            && Pass(failed, batches) == (settled, true) && Pass(settled, batches) == (settled, true)
            && Lists(node(10).txs, "x") && "x" !in settled.transactions
  {
    hide Scanned, After, RanDry;
    OneByOne(node);
    BeforeIsWhole();
    FirstBatchFails();
    SecondBatchDeletes();
    var b10, b11 := REORGANISED[0], REORGANISED[1];
    var failed := BEFORE.(blocks := map[10 := "c", 11 := "b"]);
    var settled := BEFORE.(blocks := map[10 := "c", 11 := "d"], transactions := map[]);
    AgreeingBatch(node, failed, b10);
    AgreeingBatch(node, settled, b10);
    AgreeingBatch(node, settled, b11);
    ThreeBatches(BEFORE, node);
    ThreeBatches(failed, node);
    ThreeBatches(settled, node);
    assert b10.txs[0].id == "x";
  }

  lemma AgreeingBatch(node: nat -> Bundle, t: Tables, b: Bundle)
    requires b == node(b.index) && b.index in t.blocks && t.blocks[b.index] == b.hash
    ensures Scanned(t, [b]) == (t, true)
  {
    hide Scanned, Fresh, Stale;
    QuietIff(node, t, [b]);
  }

  /** A pass over the two blocks, one by one, and then the empty batch. */
  lemma ThreeBatches(t: Tables, node: nat -> Bundle)
    ensures var (s, ok) := Scanned(t, [node(10)]);
            Pass(t, Batches(node)) == if ok then Scanned(s, [node(11)]) else (s, false)
  {
    hide Scanned;
    var w10, w11 := Wrapper(10, node(10)), Wrapper(11, node(11));
    var one, two, all := [[w10]], [[w10], [w11]], Batches(node);
    assert one[..0] == [] && two[..1] == one && all[..2] == two;
    assert Contents([w10]) == [node(10)] && Contents([w11]) == [node(11)] && Contents([]) == [];
    assert Pass(t, []) == (t, true);
    assert Pass(t, one) == Scanned(t, [node(10)]);
    var last := Pass(t, two);
    NothingToDo(last.0);
  }
}
