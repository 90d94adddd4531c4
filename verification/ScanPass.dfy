/** Whole passes of the scanner: what the tables hold once the queue runs dry. */
module ScanPass {
  import opened Indexes
  import opened BlockQueues
  import opened BlockQueueRuns
  import opened BlockQueueOrder
  import opened BlockTables

  // ----- One batch -----

  /** Every bundle is the one the node has at its index. */
  ghost predicate FromNode(node: nat -> Bundle, bundles: seq<Bundle>) {
    forall k :: 0 <= k < |bundles| ==> bundles[k] == node(bundles[k].index)
  }

  predicate Covers(bundles: seq<Bundle>, i: nat) { i in IndexSet(bundles) }

  predicate SameAt(a: map<nat, Hash>, b: map<nat, Hash>, i: nat) { (i in a <==> i in b) && (i in a ==> a[i] == b[i]) }

  predicate HoldsAt(blocks: map<nat, Hash>, node: nat -> Bundle, i: nat) { i in blocks && blocks[i] == node(i).hash }

  lemma CoversAt(bundles: seq<Bundle>, k: nat)
    requires k < |bundles|
    ensures Covers(bundles, bundles[k].index)
  {}

  lemma CoversWitness(bundles: seq<Bundle>, i: nat) returns (k: nat)
    requires Covers(bundles, i)
    ensures k < |bundles| && bundles[k].index == i
  {
    k :| 0 <= k < |bundles| && bundles[k].index == i;
  }

  lemma {:induction false} MappedFromNode(node: nat -> Bundle, bundles: seq<Bundle>, k: nat)
    requires FromNode(node, bundles) && k < |bundles|
    ensures Mapped(bundles, bundles[k].index) == bundles[k]
  {
    if bundles[0].index != bundles[k].index {
      assert bundles[1..][k - 1] == bundles[k];
      MappedFromNode(node, bundles[1..], k - 1);
    }
  }

  /** The rows picked for a status are the batch's blocks that have it. */
  lemma {:induction false} PickedIs(node: nat -> Bundle, blocks: map<nat, Hash>, bundles: seq<Bundle>, n: nat,
                                    status: Status)
    requires FromNode(node, bundles) && n <= |bundles|
    ensures FromNode(node, Picked(blocks, bundles, n, status))
    ensures forall i: nat :: Covers(Picked(blocks, bundles, n, status), i)
                             <==> Covers(bundles[..n], i) && StatusOf(blocks, i, node(i).hash) == status
  {
    if n > 0 {
      var b := bundles[n - 1];
      var rest, all := Picked(blocks, bundles, n - 1, status), Picked(blocks, bundles, n, status);
      PickedIs(node, blocks, bundles, n - 1, status);
      MappedFromNode(node, bundles, n - 1);
      assert bundles[..n] == bundles[..n - 1] + [b];
      forall i: nat ensures Covers(all, i) <==> Covers(bundles[..n], i) && StatusOf(blocks, i, node(i).hash) == status {
        CoversAppend(bundles[..n - 1], b, i);
        CoversAppend(rest, b, i);
        assert rest + [] == rest;
      }
    }
  }

  lemma CoversAppend(bundles: seq<Bundle>, b: Bundle, i: nat)
    ensures Covers(bundles + [b], i) <==> Covers(bundles, i) || i == b.index
  {
    var all := bundles + [b];
    if i == b.index { CoversAt(all, |bundles|); }
    if Covers(bundles, i) { var k := CoversWitness(bundles, i); CoversAt(all, k); assert all[k] == bundles[k]; }
    if Covers(all, i) && i != b.index { var k := CoversWitness(all, i); CoversAt(bundles, k); }
  }

  lemma CoversConcat(a: seq<Bundle>, b: seq<Bundle>, i: nat)
    ensures Covers(a + b, i) <==> Covers(a, i) || Covers(b, i)
  {
    if Covers(a, i) { var k := CoversWitness(a, i); CoversAt(a + b, k); assert (a + b)[k] == a[k]; }
    if Covers(b, i) { var k := CoversWitness(b, i); CoversAt(a + b, |a| + k); assert (a + b)[|a| + k] == b[k]; }
    if Covers(a + b, i) {
      var k := CoversWitness(a + b, i);
      if k < |a| { CoversAt(a, k); } else { CoversAt(b, k - |a|); }
    }
  }

  lemma {:induction false} WithBlocksAt(node: nat -> Bundle, blocks: map<nat, Hash>, bundles: seq<Bundle>, i: nat)
    requires FromNode(node, bundles)
    ensures var m := WithBlocks(blocks, bundles);
            if i !in blocks && Covers(bundles, i) then HoldsAt(m, node, i) else SameAt(blocks, m, i)
  {
    if bundles != [] {
      var n := |bundles| - 1;
      WithBlocksAt(node, blocks, bundles[..n], i);
      assert bundles == bundles[..n] + [bundles[n]];
      CoversAppend(bundles[..n], bundles[n], i);
    }
  }

  lemma Split(node: nat -> Bundle, t: Tables, bundles: seq<Bundle>)
    requires FromNode(node, bundles)
    ensures FromNode(node, Fresh(t, bundles) + Stale(t, bundles))
    ensures forall i: nat ::
              Covers(Stale(t, bundles), i) <==> Covers(bundles, i) && StatusOf(t.blocks, i, node(i).hash) == Replaced
    ensures forall i: nat ::
              Covers(Fresh(t, bundles), i) <==> Covers(bundles, i) && StatusOf(t.blocks, i, node(i).hash) == New
  {
    assert bundles[..|bundles|] == bundles;
    PickedIs(node, t.blocks, bundles, |bundles|, New);
    PickedIs(node, t.blocks, bundles, |bundles|, Replaced);
  }

  /** A scanned batch brings its own indices in line with the node and leaves the others alone. */
  lemma ScannedBlocks(node: nat -> Bundle, t: Tables, bundles: seq<Bundle>, i: nat)
    requires FromNode(node, bundles)
    ensures var m := Scanned(t, bundles).0.blocks;
            if Covers(bundles, i) then HoldsAt(m, node, i) else SameAt(t.blocks, m, i)
  {
    hide Fresh, Stale, WithBlocks, WithTxs, AllTxs, Logged, Conflicts;
    Split(node, t, bundles);
    var added, stale := Fresh(t, bundles), Stale(t, bundles);
    WithBlocksAt(node, t.blocks - IndexSet(stale), added + stale, i);
    CoversConcat(added, stale, i);
  }

  /** A batch causes no delete and no insert exactly when the table already agrees with it. */
  lemma QuietIff(node: nat -> Bundle, t: Tables, bundles: seq<Bundle>)
    requires FromNode(node, bundles)
    ensures Fresh(t, bundles) == [] && Stale(t, bundles) == []
            <==> forall k :: 0 <= k < |bundles| ==> HoldsAt(t.blocks, node, bundles[k].index)
    ensures Fresh(t, bundles) == [] && Stale(t, bundles) == [] ==> Scanned(t, bundles) == (t, true)
  {
    hide Fresh, Stale, Saved, Deleted, FromNode;
    Split(node, t, bundles);
    var added, stale := Fresh(t, bundles), Stale(t, bundles);
    if added == [] && stale == [] {
      forall k | 0 <= k < |bundles| ensures HoldsAt(t.blocks, node, bundles[k].index) {
        CoversAt(bundles, k);
        assert !Covers(stale, bundles[k].index) && !Covers(added, bundles[k].index);
      }
      NothingSaved(t);
      DeletedNothing(t);
      assert added + stale == [] && IndexSet(stale) == {};
    } else if forall k :: 0 <= k < |bundles| ==> HoldsAt(t.blocks, node, bundles[k].index) {
      var some := if added != [] then added else stale;
      CoversAt(some, 0);
      var k := CoversWitness(bundles, some[0].index);
    }
  }

  // ----- What the queue hands over -----

  function Contents(ws: seq<Wrapper<Bundle>>): (bs: seq<Bundle>)
    ensures |bs| == |ws| && forall k :: 0 <= k < |ws| ==> bs[k] == ws[k].block
  { if ws == [] then [] else Contents(ws[..|ws| - 1]) + [ws[|ws| - 1].block] }

  ghost predicate Genuine(u: Setup<Bundle>, ws: seq<Wrapper<Bundle>>) {
    forall k :: 0 <= k < |ws| ==> ws[k].block == u.src(ws[k].index)
  }

  ghost predicate AllGenuine(u: Setup<Bundle>, s: Session<Bundle>) {
    Genuine(u, s.q.blocks) && forall b :: 0 <= b < |s.batches| ==> Genuine(u, s.batches[b])
  }

  lemma {:induction false} DroppingGenuine(u: Setup<Bundle>, ws: seq<Wrapper<Bundle>>, gone: seq<nat>)
    requires Genuine(u, ws)
    ensures Genuine(u, Dropping(ws, gone))
  {
    if ws != [] { DroppingGenuine(u, ws[..|ws| - 1], gone); }
  }

  lemma ReadyGenuine(u: Setup<Bundle>, q: State<Bundle>)
    requires Genuine(u, q.blocks)
    ensures Genuine(u, Ready(q, u.config))
  {
    hide Ready, Sorted;
    ReadyIsPrefix(q, u.config);
    SortedAscends(q.blocks);
    var batch, sorted := Ready(q, u.config), Sorted(q.blocks);
    forall k | 0 <= k < |batch| ensures batch[k].block == u.src(batch[k].index) {
      assert batch[k] == sorted[k] && sorted[k] in q.blocks;
    }
  }

  /** The queue just after the event's own block, if any, came in. */
  function Seen(u: Setup<Bundle>, q: State<Bundle>, e: Event): State<Bundle> {
    if e.Respond? then Arrived(q, e.i, u.src(e.i)) else q
  }

  /** An event either hands out the ready stretch or leaves blocks and batches as they are. */
  lemma NextShape(u: Setup<Bundle>, s: Session<Bundle>, e: Event)
    ensures var q, next := Seen(u, s.q, e), Next(u, s, e);
            || (next.q.blocks == q.blocks && next.batches == s.batches)
            || (next.q.blocks == Released(q, Ready(q, u.config)).blocks
                && next.batches == s.batches + [Ready(q, u.config)])
  {
    hide Ready, Dropping, Without, Range, NextRequestCount;
  }

  /** Whatever the order of events, ready and delivered blocks are the source's own. */
  lemma {:induction false} ReachableGenuine(u: Setup<Bundle>, es: seq<Event>)
    ensures AllGenuine(u, After(u, es))
  {
    if es != [] {
      hide Next, Ready, Dropping, Without;
      ReachableGenuine(u, es[..|es| - 1]);
      var s, e := After(u, es[..|es| - 1]), es[|es| - 1];
      var q := Seen(u, s.q, e);
      ReadyGenuine(u, q);
      DroppingGenuine(u, q.blocks, Indices(Ready(q, u.config)));
      NextShape(u, s, e);
    }
  }

  // ----- A pass -----

  /** The tables after scanning the batches in turn; a failed save ends the pass. */
  function Pass(t: Tables, batches: seq<seq<Wrapper<Bundle>>>): (Tables, bool) {
    if batches == [] then (t, true)
    else
      var (s, ok) := Pass(t, batches[..|batches| - 1]);
      if ok then Scanned(s, Contents(batches[|batches| - 1])) else (s, false)
  }

  /** The node answers a request for index i with the block at index i. */
  ghost predicate Indexed(node: nat -> Bundle) { forall i: nat :: node(i).index == i }

  lemma GenuineFromNode(u: Setup<Bundle>, ws: seq<Wrapper<Bundle>>, i: nat)
    requires Genuine(u, ws) && Indexed(u.src)
    ensures FromNode(u.src, Contents(ws))
    ensures Covers(Contents(ws), i) <==> CountOf(ws, i) > 0
  {
    var bs := Contents(ws);
    forall k | 0 <= k < |bs| ensures bs[k].index == ws[k].index { assert u.src(ws[k].index).index == ws[k].index; }
    CountOfPositive(ws, i);
    var idx := Indices(ws);
    if Covers(bs, i) { var k := CoversWitness(bs, i); assert idx[k] == i; }
    if i in idx { var k :| 0 <= k < |idx| && idx[k] == i; CoversAt(bs, k); }
  }

  lemma {:induction false} PassBlocks(u: Setup<Bundle>, t: Tables, batches: seq<seq<Wrapper<Bundle>>>, i: nat)
    requires Indexed(u.src) && Pass(t, batches).1
    requires forall b :: 0 <= b < |batches| ==> Genuine(u, batches[b])
    ensures var m := Pass(t, batches).0.blocks;
            if CountOf(Flat(batches), i) > 0 then HoldsAt(m, u.src, i) else SameAt(t.blocks, m, i)
  {
    hide Scanned, Genuine, Contents, CountOf;
    if batches == [] {
      assert CountOf(Flat(batches), i) == 0 by { NoneCounted(i); }
    } else {
      var n := |batches| - 1;
      PassBlocks(u, t, batches[..n], i);
      CountOfConcat(Flat(batches[..n]), batches[n], i);
      GenuineFromNode(u, batches[n], i);
      ScannedBlocks(u.src, Pass(t, batches[..n]).0, Contents(batches[n]), i);
    }
  }

  lemma NoneCounted(i: nat)
    ensures CountOf<Bundle>([], i) == 0
  {}

  /** The queue a pass works on: from minConfirmations below the stored index up to the node's tip. */
  function QueueFor(blockIndex: nat, minConfirmations: int, highest: int, config: Config,
                    node: nat -> Bundle): Setup<Bundle> {
    Setup(if blockIndex - minConfirmations > 0 then blockIndex - minConfirmations else 0, highest, config, node)
  }

  /** A pass that runs to the empty batch leaves the block table equal to the node on the whole
      range and as it was everywhere else, whatever the order of the responses. */
  lemma PassReconciles(u: Setup<Bundle>, es: seq<Event>, t: Tables)
    requires RanDry(u, es) && Sane(u.config) && Indexed(u.src)
    requires Pass(t, After(u, es).batches).1
    ensures forall i: nat :: var m := Pass(t, After(u, es).batches).0.blocks;
                             if u.start <= i < u.highest then HoldsAt(m, u.src, i) else SameAt(t.blocks, m, i)
  {
    hide Pass, Flat, Legal, After, LastBatch;
    EmptyBatchMeansDone(u, es);
    ReachableGenuine(u, es);
    forall i: nat ensures var m := Pass(t, After(u, es).batches).0.blocks;
                          if u.start <= i < u.highest then HoldsAt(m, u.src, i) else SameAt(t.blocks, m, i) {
      PassBlocks(u, t, After(u, es).batches, i);
    }
  }

  /** In the terms of the monitor's state: a pass from the stored index brings everything from
      minConfirmations below it up to the node's tip in line with the node, and nothing else changes. */
  lemma MonitorReconciles(blockIndex: nat, minConfirmations: int, highest: int, config: Config, node: nat -> Bundle,
                          es: seq<Event>, t: Tables, i: nat)
    requires RanDry(QueueFor(blockIndex, minConfirmations, highest, config, node), es) && Sane(config) && Indexed(node)
    requires Pass(t, After(QueueFor(blockIndex, minConfirmations, highest, config, node), es).batches).1
    ensures var m := Pass(t, After(QueueFor(blockIndex, minConfirmations, highest, config, node), es).batches).0.blocks;
            if blockIndex - minConfirmations <= i < highest then HoldsAt(m, node, i) else SameAt(t.blocks, m, i)
  {
    hide Pass, After, RanDry, Indexed;
    PassReconciles(QueueFor(blockIndex, minConfirmations, highest, config, node), es, t);
  }

  /** A batch no part of which needs writing. */
  predicate Quiet(t: Tables, ws: seq<Wrapper<Bundle>>) {
    Fresh(t, Contents(ws)) == [] && Stale(t, Contents(ws)) == []
  }

  lemma {:induction false} PassQuiet(u: Setup<Bundle>, t: Tables, batches: seq<seq<Wrapper<Bundle>>>)
    requires Indexed(u.src)
    requires forall b :: 0 <= b < |batches| ==> Genuine(u, batches[b])
    requires forall i: nat :: CountOf(Flat(batches), i) > 0 ==> HoldsAt(t.blocks, u.src, i)
    ensures Pass(t, batches) == (t, true) && forall b :: 0 <= b < |batches| ==> Quiet(t, batches[b])
  {
    hide Scanned, Genuine, Contents, CountOf, Fresh, Stale, HoldsAt;
    if batches != [] {
      var n := |batches| - 1;
      forall i: nat ensures CountOf(Flat(batches), i) == CountOf(Flat(batches[..n]), i) + CountOf(batches[n], i) {
        CountOfConcat(Flat(batches[..n]), batches[n], i);
      }
      PassQuiet(u, t, batches[..n]);
      GenuineFromNode(u, batches[n], 0);
      var bs := Contents(batches[n]);
      forall k | 0 <= k < |bs| ensures HoldsAt(t.blocks, u.src, bs[k].index) {
        CoversAt(bs, k);
        GenuineFromNode(u, batches[n], bs[k].index);
      }
      QuietIff(u.src, t, bs);
    }
  }

  lemma DeliveredInRange<B>(u: Setup<B>, es: seq<Event>, i: nat)
    requires Legal(u, es) && CountOf(Flat(After(u, es).batches), i) > 0
    ensures u.start <= i < u.highest
  {
    ReachableInv(u, es);
    var s := After(u, es);
    assert AccountedFor(u, s.q, Flat(s.batches), i);
  }

  /** Any later run over the same chain that stays inside the range of a completed pass, finished or
      not, deletes nothing and inserts nothing. */
  lemma SecondPassQuiet(u: Setup<Bundle>, es: seq<Event>, t: Tables, u2: Setup<Bundle>, es2: seq<Event>)
    requires RanDry(u, es) && Sane(u.config) && Indexed(u.src) && Pass(t, After(u, es).batches).1
    requires Legal(u2, es2) && u2.src == u.src && u.start <= u2.start && u2.highest <= u.highest
    ensures var done, again := Pass(t, After(u, es).batches).0, After(u2, es2).batches;
            Pass(done, again) == (done, true) && forall b :: 0 <= b < |again| ==> Quiet(done, again[b])
  {
    hide Pass, Flat, Legal, After, LastBatch, HoldsAt, Quiet, Genuine;
    PassReconciles(u, es, t);
    ReachableGenuine(u2, es2);
    var done, again := Pass(t, After(u, es).batches).0, After(u2, es2).batches;
    forall i: nat | CountOf(Flat(again), i) > 0 ensures HoldsAt(done.blocks, u2.src, i) {
      DeliveredInRange(u2, es2, i);
    }
    PassQuiet(u2, done, again);
  }
}
