/** Whole passes of the scanner over ranges in which delivery is ordered: when they complete, and where
    they leave the scanner. */
module ScanOutcome {
  import opened BlockQueues
  import opened BlockQueueRuns
  import opened BlockQueueOrder
  import opened BlockQueueExact
  import opened BlockQueueEager
  import opened BlockTables
  import opened ScanPass

  // ----- Where the scanner stands -----

  /** The stored index after the batches: one past the highest of the last nonempty one. */
  function PassIndex(blockIndex: nat, batches: seq<seq<Wrapper<Bundle>>>): nat {
    if batches == [] then blockIndex
    else
      var last := batches[|batches| - 1];
      if last == [] then PassIndex(blockIndex, batches[..|batches| - 1]) else Highest(Contents(last)) + 1
  }

  lemma {:induction false} PassIndexCounts(u: Setup<Bundle>, blockIndex: nat, batches: seq<seq<Wrapper<Bundle>>>)
    requires Indexed(u.src) && forall b :: 0 <= b < |batches| ==> Genuine(u, batches[b])
    requires Counting(Flat(batches), u.start) && Flat(batches) != []
    ensures PassIndex(blockIndex, batches) == u.start + |Flat(batches)|
  {
    var n := |batches| - 1;
    var head, last := Flat(batches[..n]), batches[n];
    assert Flat(batches) == head + last;
    if last == [] {
      assert head + last == head;
      PassIndexCounts(u, blockIndex, batches[..n]);
    } else {
      assert Genuine(u, last);
      var bs, h := Contents(last), Highest(Contents(last));
      forall k | 0 <= k < |bs| ensures bs[k].index == u.start + |head| + k {
        assert (head + last)[|head| + k] == last[k];
        assert u.src(last[k].index).index == last[k].index;
      }
      assert bs[|bs| - 1].index <= h;
    }
  }

  lemma {:induction false} CountZero<B>(ws: seq<Wrapper<B>>, i: nat)
    requires forall k :: 0 <= k < |ws| ==> ws[k].index != i
    ensures CountOf(ws, i) == 0
  {
    if ws != [] { CountZero(ws[..|ws| - 1], i); }
  }

  lemma CountSome<B>(ws: seq<Wrapper<B>>, k: nat)
    requires k < |ws|
    ensures CountOf(ws, ws[k].index) > 0
  {
    CountOfPositive(ws, ws[k].index);
    assert Indices(ws)[k] == ws[k].index;
  }

  lemma DeliveredLength<B>(u: Setup<B>, out: seq<Wrapper<B>>)
    requires Counting(out, u.start) && u.start < u.highest
    requires forall x: nat :: CountOf(out, x) == if u.start <= x < u.highest then 1 else 0
    ensures |out| == u.highest - u.start
  {
    if |out| < u.highest - u.start { CountZero(out, u.start + |out|); }
    if |out| > u.highest - u.start { CountSome(out, u.highest - u.start); }
  }

  lemma OrderedRun<B>(u: Setup<B>, es: seq<Event>)
    requires !Risky(u) && Legal(u, es)
    ensures Counting(Flat(After(u, es).batches), u.start)
  {
    hide Risky, Legal, After, Counting;
    OrderedIffNotRisky(u);
  }

  /** A pass over a range in which delivery is ordered ends with the stored index at the tip. */
  lemma PassEndsAtTip(u: Setup<Bundle>, es: seq<Event>, blockIndex: nat)
    requires RanDry(u, es) && Sane(u.config) && Indexed(u.src) && !Risky(u) && u.start < u.highest
    ensures PassIndex(blockIndex, After(u, es).batches) == u.highest
  {
    hide Flat, LastBatch, Legal, After, Risky, PassIndex, Counting;
    EmptyBatchMeansDone(u, es);
    OrderedRun(u, es);
    ReachableGenuine(u, es);
    DeliveredLength(u, Flat(After(u, es).batches));
    PassIndexCounts(u, blockIndex, After(u, es).batches);
  }

  // ----- The next pass -----

  lemma {:induction false} InSomeBatch<B>(batches: seq<seq<Wrapper<B>>>, i: nat) returns (b: nat)
    requires CountOf(Flat(batches), i) > 0
    ensures b < |batches| && CountOf(batches[b], i) > 0
  {
    var n := |batches| - 1;
    CountOfConcat(Flat(batches[..n]), batches[n], i);
    if CountOf(batches[n], i) > 0 { b := n; } else { b := InSomeBatch(batches[..n], i); }
  }

  /** What a quiet batch holds, the table has. */
  lemma QuietHolds(u: Setup<Bundle>, t: Tables, ws: seq<Wrapper<Bundle>>, i: nat)
    requires Indexed(u.src) && Genuine(u, ws) && Quiet(t, ws) && CountOf(ws, i) > 0
    ensures HoldsAt(t.blocks, u.src, i)
  {
    hide Fresh, Stale, HoldsAt, Contents, CountOf, Genuine;
    GenuineFromNode(u, ws, i);
    QuietIff(u.src, t, Contents(ws));
    var k := CoversWitness(Contents(ws), i);
  }

  /** A run to the end writes nothing exactly when the table already agrees with the node on all of
      its range. */
  lemma RunQuietIff(u: Setup<Bundle>, es: seq<Event>, t: Tables)
    requires RanDry(u, es) && Sane(u.config) && Indexed(u.src)
    ensures (forall b :: 0 <= b < |After(u, es).batches| ==> Quiet(t, After(u, es).batches[b]))
            <==> forall i: nat :: u.start <= i < u.highest ==> HoldsAt(t.blocks, u.src, i)
    ensures (forall i: nat :: u.start <= i < u.highest ==> HoldsAt(t.blocks, u.src, i)) ==>
              Pass(t, After(u, es).batches) == (t, true)
  {
    hide Pass, Flat, Legal, After, LastBatch, HoldsAt, Quiet, Genuine, CountOf;
    EmptyBatchMeansDone(u, es);
    ReachableGenuine(u, es);
    var batches := After(u, es).batches;
    if forall b :: 0 <= b < |batches| ==> Quiet(t, batches[b]) {
      forall i: nat | u.start <= i < u.highest ensures HoldsAt(t.blocks, u.src, i) {
        var b := InSomeBatch(batches, i);
        QuietHolds(u, t, batches[b], i);
      }
    }
    if forall i: nat :: u.start <= i < u.highest ==> HoldsAt(t.blocks, u.src, i) { PassQuiet(u, t, batches); }
  }

  lemma SameHolds(a: map<nat, Hash>, b: map<nat, Hash>, node: nat -> Bundle, i: nat)
    requires SameAt(a, b, i)
    ensures HoldsAt(a, node, i) <==> HoldsAt(b, node, i)
  {}

  /** The pass that starts from the index the first one stored, with the tip unmoved, writes nothing
      exactly when the table agreed with the node on whatever it goes back below the first start:
      nothing, unless the tip had fallen below the index the first pass started from. */
  lemma NextPassQuietIff(blockIndex: nat, minConfirmations: nat, highest: int, config: Config, node: nat -> Bundle,
                         es: seq<Event>, t: Tables, es2: seq<Event>)
    requires var u := QueueFor(blockIndex, minConfirmations, highest, config, node);
             && RanDry(u, es) && Sane(config) && Indexed(node) && Pass(t, After(u, es).batches).1
             && !Risky(u) && u.start < highest
             && RanDry(QueueFor(PassIndex(blockIndex, After(u, es).batches), minConfirmations, highest, config, node),
                       es2)
    ensures var u := QueueFor(blockIndex, minConfirmations, highest, config, node);
            var u2 := QueueFor(PassIndex(blockIndex, After(u, es).batches), minConfirmations, highest, config, node);
            var done, again := Pass(t, After(u, es).batches).0, After(u2, es2).batches;
            && ((forall b :: 0 <= b < |again| ==> Quiet(done, again[b])) <==>
                forall i: nat :: u2.start <= i < u.start ==> HoldsAt(t.blocks, node, i))
            && (blockIndex <= highest ==> u.start <= u2.start)
  {
    hide Pass, PassIndex, LastBatch, Legal, After, Risky, Indexed, Quiet, RanDry, HoldsAt, SameAt;
    var u := QueueFor(blockIndex, minConfirmations, highest, config, node);
    PassEndsAtTip(u, es, blockIndex);
    var u2 := QueueFor(PassIndex(blockIndex, After(u, es).batches), minConfirmations, highest, config, node);
    PassReconciles(u, es, t);
    var done := Pass(t, After(u, es).batches).0;
    RunQuietIff(u2, es2, done);
    forall i: nat | u2.start <= i < u.start ensures HoldsAt(t.blocks, node, i) <==> HoldsAt(done.blocks, node, i) {
      SameHolds(t.blocks, done.blocks, node, i);
    }
  }

  /** The next pass, started from the index the first one stored and with the tip unmoved, writes
      nothing, finished or not, provided the tip had not fallen below the index the first pass
      started from. */
  lemma NextPassQuiet(blockIndex: nat, minConfirmations: nat, highest: int, config: Config, node: nat -> Bundle,
                      es: seq<Event>, t: Tables, es2: seq<Event>)
    requires var u := QueueFor(blockIndex, minConfirmations, highest, config, node);
             && RanDry(u, es) && Sane(config) && Indexed(node) && Pass(t, After(u, es).batches).1
             && !Risky(u) && u.start < highest && blockIndex <= highest
             && Legal(QueueFor(PassIndex(blockIndex, After(u, es).batches), minConfirmations, highest, config, node),
                      es2)
    ensures var u := QueueFor(blockIndex, minConfirmations, highest, config, node);
            var u2 := QueueFor(PassIndex(blockIndex, After(u, es).batches), minConfirmations, highest, config, node);
            var done, again := Pass(t, After(u, es).batches).0, After(u2, es2).batches;
            Pass(done, again) == (done, true) && forall b :: 0 <= b < |again| ==> Quiet(done, again[b])
  {
    hide Pass, PassIndex, LastBatch, Legal, After, Risky, Indexed, Quiet, RanDry;
    var u := QueueFor(blockIndex, minConfirmations, highest, config, node);
    PassEndsAtTip(u, es, blockIndex);
    var index := PassIndex(blockIndex, After(u, es).batches);
    SecondPassQuiet(u, es, t, QueueFor(index, minConfirmations, highest, config, node), es2);
  }
}
