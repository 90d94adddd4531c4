/** Every run of the initial sync: what all its states have in common, that none of them is stuck
    before completion, that each step brings the end nearer, and what completion means. */
module IndexerRuns {
  import opened Indexes
  import opened IndexerStages
  import opened Indexer

  // ----- Every event keeps the invariant -----

  lemma LifecycleKept(c: Config, s: Pipeline, e: Event)
    requires Lifecycle(s) && Enabled(c, s, e)
    ensures Lifecycle(Next(c, s, e))
  {
    hide InOrder, Range, BatchLength;
  }

  lemma ProducingKept(c: Config, s: Pipeline, e: Event)
    requires Producing(c, s) && Enabled(c, s, e) && c.batchSize >= 1
    ensures Producing(c, Next(c, s, e))
  {
    hide InOrder, Range;
    if e.Hand? {
      assert |s.producer.heights| == BatchLength(s.producer.i, s.endBlock, c.batchSize);
    }
  }

  lemma HandPlaced(c: Config, s: Pipeline, f: nat, got: seq<nat>, h: nat)
    requires Producing(c, s) && Placed(c, s, h) && Enabled(c, s, Hand(f, got))
    ensures Placed(c, Next(c, s, Hand(f, got)), h)
  {
    hide InOrder, Range, Total;
    TotalUpdate(s.fetchers, f, Fetched(got), Held(h));
    InOrderIs(got, h);
    RangeCount(s.producer.i, BatchLength(s.producer.i, s.endBlock, c.batchSize), h);
  }

  lemma DeliverPlaced(c: Config, s: Pipeline, f: nat, h: nat)
    requires Placed(c, s, h) && Enabled(c, s, Deliver(f))
    ensures Placed(c, Next(c, s, Deliver(f)), h)
  {
    hide InOrder, Total;
    var store := s.order.store + s.fetchers[f].heights;
    TotalUpdate(s.fetchers, f, Listening, Held(h));
    InOrderIs(store, h);
    CountConcat(s.order.store, s.fetchers[f].heights, h);
  }

  lemma EmitPlaced(c: Config, s: Pipeline, id: int, h: nat)
    requires Placed(c, s, h) && c.startBlock <= s.order.next && Enabled(c, s, Emit(id))
    ensures Placed(c, Next(c, s, Emit(id)), h)
  {
    hide Total;
    assert s.order.store[0..] == s.order.store;
    CountHead(s.order.store, 0, h);
  }

  lemma FinishPlaced(c: Config, s: Pipeline, f: nat, h: nat)
    requires Placed(c, s, h) && Enabled(c, s, Finish(f))
    ensures Placed(c, Next(c, s, Finish(f)), h)
  {
    hide Total;
    TotalUpdate(s.fetchers, f, Finished, Held(h));
  }

  lemma PlacedKept(c: Config, s: Pipeline, e: Event, h: nat)
    requires Producing(c, s) && Placed(c, s, h) && c.startBlock <= s.order.next && Enabled(c, s, e)
    ensures Placed(c, Next(c, s, e), h)
  {
    hide Total, InOrder, Range, Producing;
    match e {
      case Hand(f, got) => HandPlaced(c, s, f, got, h);
      case Deliver(f) => DeliverPlaced(c, s, f, h);
      case Emit(id) => EmitPlaced(c, s, id, h);
      case Finish(f) => FinishPlaced(c, s, f, h);
      case _ =>
    }
  }

  /** Nothing below the height due is in the store. */
  lemma StoreAhead(c: Config, s: Pipeline, h: nat)
    requires Ordering(c, s) && h < s.order.next
    ensures Count(s.order.store, h) == 0
  {
    assert Placed(c, s, h);
  }

  /** A stage that finds no block due holds none: the block due would be the first. */
  lemma SettledEmpty(c: Config, s: Pipeline)
    requires Ordering(c, s) && s.order.Emitting? && !Due(s.order)
    ensures Count(s.order.store, s.order.next) == 0
  {
    forall h: nat | h < s.order.next ensures Count(s.order.store, h) == 0 { StoreAhead(c, s, h); }
    DueFirst(s.order.store, s.order.next);
  }

  lemma OrderingKept(c: Config, s: Pipeline, e: Event)
    requires Producing(c, s) && Ordering(c, s) && Enabled(c, s, e)
    ensures Ordering(c, Next(c, s, e))
  {
    hide Placed, Producing, InOrder, Range, Count;
    forall h: nat ensures Placed(c, Next(c, s, e), h) {
      assert Placed(c, s, h);
      PlacedKept(c, s, e, h);
    }
    match e {
      case Deliver(f) => InOrderIs(s.order.store + s.fetchers[f].heights, 0);
      case Settle => SettledEmpty(c, s);
      case _ =>
    }
  }

  lemma BlocksRightKept(c: Config, s: Pipeline, e: Event)
    requires BlocksRight(c, s) && Enabled(c, s, e)
    ensures BlocksRight(c, Next(c, s, e))
  {
    hide InOrder, Range, BatchLength;
  }

  lemma RowsRightKept(c: Config, s: Pipeline, e: Event)
    requires BlocksRight(c, s) && RowsRight(c, s) && Enabled(c, s, e)
    ensures RowsRight(c, Next(c, s, e))
  {
    hide InOrder, Range, BatchLength;
  }

  lemma SendTxWritten(c: Config, s: Pipeline, w: nat, h: nat, j: nat)
    requires BlocksRight(c, s) && Written(c, s, h, j) && Enabled(c, s, SendTx(w))
    ensures Written(c, Next(c, s, SendTx(w)), h, j)
  {
    hide Total;
    TotalUpdate(s.txWriters, w, Next(c, s, SendTx(w)).txWriters[w], Carried(h, j));
  }

  lemma InsertedAppend(rows: seq<TxRow>, row: TxRow, h: nat, j: nat)
    ensures InsertedRows(rows + [row], h, j) == InsertedRows(rows, h, j) + Is(row, h, j)
  {
    assert (rows + [row])[..|rows|] == rows;
  }

  lemma InsertTxWritten(c: Config, s: Pipeline, w: nat, h: nat, j: nat)
    requires Written(c, s, h, j) && Enabled(c, s, InsertTx(w))
    ensures Written(c, Next(c, s, InsertTx(w)), h, j)
  {
    hide Total, InsertedRows, InOrder, Range, Is;
    TotalUpdate(s.txWriters, w, Open, Carried(h, j));
    InsertedAppend(s.rows, s.txWriters[w].row, h, j);
  }

  lemma EndWritten(c: Config, s: Pipeline, w: nat, h: nat, j: nat)
    requires Written(c, s, h, j) && Enabled(c, s, End(w))
    ensures Written(c, Next(c, s, End(w)), h, j)
  {
    hide Total;
    TotalUpdate(s.txWriters, w, Ended, Carried(h, j));
  }

  lemma WrittenKept(c: Config, s: Pipeline, e: Event, h: nat, j: nat)
    requires BlocksRight(c, s) && Written(c, s, h, j) && Enabled(c, s, e)
    ensures Written(c, Next(c, s, e), h, j)
  {
    hide Total, InOrder, Range;
    match e {
      case SendTx(w) => SendTxWritten(c, s, w, h, j);
      case InsertTx(w) => InsertTxWritten(c, s, w, h, j);
      case End(w) => EndWritten(c, s, w, h, j);
      case _ =>
    }
  }

  lemma InvKept(c: Config, s: Pipeline, e: Event)
    requires Inv(c, s) && Enabled(c, s, e) && c.batchSize >= 1
    ensures Inv(c, Next(c, s, e))
  {
    hide Lifecycle, Producing, Ordering, BlocksRight, RowsRight, Written, Enabled, Next;
    LifecycleKept(c, s, e);
    ProducingKept(c, s, e);
    OrderingKept(c, s, e);
    BlocksRightKept(c, s, e);
    RowsRightKept(c, s, e);
    forall h: nat, j: nat ensures Written(c, Next(c, s, e), h, j) {
      assert Written(c, s, h, j);
      WrittenKept(c, s, e, h, j);
    }
  }

  lemma InitInv(c: Config, endBlock: int, fetchers: nat, writers: nat)
    ensures Inv(c, Init(c, endBlock, fetchers, writers))
  {
    var s := Init(c, endBlock, fetchers, writers);
    forall h: nat ensures Placed(c, s, h) { TotalZero(s.fetchers, Held(h)); }
    forall h: nat, j: nat ensures Written(c, s, h, j) { TotalZero(s.txWriters, Carried(h, j)); }
  }

  /** The invariant holds throughout every run. */
  lemma {:induction false} RunInv(c: Config, states: seq<Pipeline>, events: seq<Event>, k: nat)
    requires Run(c, states, events) && Inv(c, states[0]) && c.batchSize >= 1 && k < |states|
    ensures Inv(c, states[k])
  {
    hide Inv, Enabled, Next;
    if k > 0 {
      RunInv(c, states, events, k - 1);
      InvKept(c, states[k - 1], events[k - 1]);
    }
  }

  // ----- No state is stuck -----

  lemma WriterProgress(c: Config, s: Pipeline) returns (e: Event)
    requires Lifecycle(s) && BlocksRight(c, s) && !Completed(s)
    requires s.writer.Sending? || s.writer.Over? || exists w :: 0 <= w < |s.txWriters| && s.txWriters[w].Writing?
    ensures Enabled(c, s, e)
  {
    if w :| 0 <= w < |s.txWriters| && s.txWriters[w].Writing? {
      e := InsertTx(w);
    } else {
      var w :| 0 <= w < |s.txWriters| && !s.txWriters[w].Ended?;
      e := if s.writer.Over? then End(w)
           else if s.writer.tx < c.txCount(s.writer.row.height) then SendTx(w) else NextBlock;
    }
  }

  lemma FetcherProgress(c: Config, s: Pipeline) returns (e: Event)
    requires Lifecycle(s) && Producing(c, s) && |s.fetchers| >= 1 && s.order.Receiving?
    requires s.endBlock <= c.limit
    ensures Enabled(c, s, e)
  {
    if f :| 0 <= f < |s.fetchers| && s.fetchers[f].Fetched? {
      e := Deliver(f);
    } else if AllFinished(s) {
      e := if s.blocksClosed then ShutOrder else CloseBlocks;
    } else {
      var f :| 0 <= f < |s.fetchers| && !s.fetchers[f].Finished?;
      match s.producer {
        case AtLoop(_) => e := Prepare(s.endBlock);
        case Offering(_, heights) =>
          RangeInOrder(s.producer.i, |heights|);
          e := Hand(f, heights);
        case Closed => e := Finish(f);
      }
    }
  }

  lemma {:induction false} RangeInOrder(a: nat, n: nat)
    ensures InOrder(Range(a, n)) == Range(a, n)
  {
    if n > 0 {
      RangeInOrder(a, n - 1);
      assert Range(a, n)[..n - 1] == Range(a, n - 1);
    }
  }

  /** With a fetcher and a writer, every state short of completion has a step to take. */
  lemma NeverStuck(c: Config, s: Pipeline) returns (e: Event)
    requires Inv(c, s) && |s.fetchers| >= 1 && |s.txWriters| >= 1 && s.endBlock <= c.limit && !Completed(s)
    ensures Enabled(c, s, e)
  {
    hide Ordering, RowsRight, AllWritten, Producing, BlocksRight;
    if s.writer.Sending? || s.writer.Over? || exists w :: 0 <= w < |s.txWriters| && s.txWriters[w].Writing? {
      e := WriterProgress(c, s);
    } else {
      match s.order {
        case Emitting(_, _) => e := if Due(s.order) then Emit(0) else Settle;
        case Shut(_, _) => e := ShutWriter;
        case Receiving(_, _) => e := FetcherProgress(c, s);
      }
    }
  }

  // ----- Each step brings the end nearer -----

  function ProducerRank(c: Config, p: Producer): nat {
    match p
    case AtLoop(i) => if i <= c.limit then 2 * (c.limit + 1 - i) + 1 else 1
    case Offering(i, _) => if i <= c.limit then 2 * (c.limit + 1 - i) else 2
    case Closed => 0
  }

  function FetcherRank(f: Fetcher): nat { match f case Fetched(_) => 2 case Listening => 1 case Finished => 0 }

  function OrderRank(o: OrderStage): nat {
    match o case Emitting(store, _) => 2 + |store| case Receiving(_, _) => 1 case Shut(_, _) => 0
  }

  function WriterRank(c: Config, w: BlockWriter): nat {
    match w
    case Sending(row, tx) => if tx <= c.txCount(row.height) then 2 + c.txCount(row.height) - tx else 2
    case Free => 1
    case Over => 0
  }

  function TxWriterRank(w: TxWriter): nat { match w case Writing(_) => 2 case Open => 1 case Ended => 0 }

  datatype Rank = Rank(producer: nat, fetchers: nat, order: nat, writer: nat, txWriters: nat)

  function RankOf(c: Config, s: Pipeline): Rank {
    Rank(ProducerRank(c, s.producer), Total(s.fetchers, FetcherRank) + (if s.blocksClosed then 0 else 1),
         OrderRank(s.order), WriterRank(c, s.writer), Total(s.txWriters, TxWriterRank))
  }

  /** Lexicographic order. */
  predicate Smaller(a: Rank, b: Rank) {
    || a.producer < b.producer
    || (a.producer == b.producer &&
        (|| a.fetchers < b.fetchers
         || (a.fetchers == b.fetchers &&
             (|| a.order < b.order
              || (a.order == b.order &&
                  (|| a.writer < b.writer
                   || (a.writer == b.writer && a.txWriters < b.txWriters)))))))
  }

  /** The bound on the node's height bounds endBlock, and the producer is never past it mid-batch. */
  ghost predicate Capped(c: Config, s: Pipeline) {
    s.endBlock <= c.limit && (s.producer.Offering? ==> s.producer.i <= c.limit)
  }

  lemma CappedKept(c: Config, s: Pipeline, e: Event)
    requires Capped(c, s) && Enabled(c, s, e)
    ensures Capped(c, Next(c, s, e))
  {
    hide InOrder, Range, BatchLength;
  }

  /** Every step decreases the rank, so every run is finite. */
  lemma RankDecreases(c: Config, s: Pipeline, e: Event)
    requires Capped(c, s) && c.batchSize >= 1 && BlocksRight(c, s) && Enabled(c, s, e)
    ensures Smaller(RankOf(c, Next(c, s, e)), RankOf(c, s))
  {
    hide Total, InOrder, Range, BatchLength;
    match e {
      case Finish(f) => TotalUpdate(s.fetchers, f, Finished, FetcherRank);
      case Deliver(f) => TotalUpdate(s.fetchers, f, Listening, FetcherRank);
      case InsertTx(w) => TotalUpdate(s.txWriters, w, Open, TxWriterRank);
      case End(w) => TotalUpdate(s.txWriters, w, Ended, TxWriterRank);
      case _ =>
    }
  }

  // ----- What completion means -----

  /** Every block from startBlock up to `sent` was inserted, in ascending order and once, and every
      transaction of these blocks was inserted once, with its own index and its own block's id. */
  ghost predicate Synced(c: Config, s: Pipeline, end: nat) {
    && |s.blocks| == end - c.startBlock
    && (forall k :: 0 <= k < |s.blocks| ==> s.blocks[k].height == c.startBlock + k)
    && (forall h: nat, j: nat ::
          InsertedRows(s.rows, h, j) == if c.startBlock <= h < end && j < c.txCount(h) then 1 else 0)
    && (forall k :: 0 <= k < |s.rows| ==> RowRight(c, s, s.rows[k]))
  }

  /** Completion of the transaction writers means that every stage has finished. */
  lemma CompletedMeansClosed(s: Pipeline)
    requires Lifecycle(s) && Completed(s) && |s.fetchers| >= 1 && |s.txWriters| >= 1
    ensures s.producer.Closed? && s.order.Shut? && s.writer.Over? && AllFinished(s)
  {
    assert s.txWriters[0].Ended?;
    assert s.fetchers[0].Finished?;
  }

  /** With all fetchers done, the reordering stage has sent everything. */
  lemma NothingKeptBack(c: Config, s: Pipeline)
    requires Ordering(c, s) && AllFinished(s) && s.order.Shut? && c.startBlock <= s.sent
    ensures s.order.next == s.sent
  {
    var next := s.order.next;
    assert Placed(c, s, next);
    TotalZero(s.fetchers, Held(next));
    assert Placed(c, s, s.sent);
  }

  lemma CompletedSynced(c: Config, s: Pipeline)
    requires Inv(c, s) && Completed(s) && |s.fetchers| >= 1 && |s.txWriters| >= 1
    ensures Synced(c, s, s.sent)
    ensures c.steady ==> s.sent == if c.startBlock <= s.endBlock then s.endBlock + 1 else c.startBlock
  {
    hide Ordering, Written;
    CompletedMeansClosed(s);
    NothingKeptBack(c, s);
    forall h: nat, j: nat
      ensures InsertedRows(s.rows, h, j) == if c.startBlock <= h < s.sent && j < c.txCount(h) then 1 else 0
    {
      assert Written(c, s, h, j);
      AllInserted(c, s, h, j);
    }
  }

  lemma AllInserted(c: Config, s: Pipeline, h: nat, j: nat)
    requires Written(c, s, h, j) && Completed(s) && s.writer.Over?
    ensures InsertedRows(s.rows, h, j) == if c.startBlock <= h < s.order.next && j < c.txCount(h) then 1 else 0
  {
    TotalZero(s.txWriters, Carried(h, j));
  }

  lemma {:induction false} RunCapped(c: Config, states: seq<Pipeline>, events: seq<Event>, k: nat)
    requires Run(c, states, events) && Capped(c, states[0]) && k < |states|
    ensures Capped(c, states[k])
  {
    hide Capped, Enabled, Next;
    if k > 0 {
      RunCapped(c, states, events, k - 1);
      CappedKept(c, states[k - 1], events[k - 1]);
    }
  }

  lemma {:induction false} RunWorkers(c: Config, states: seq<Pipeline>, events: seq<Event>, k: nat)
    requires Run(c, states, events) && k < |states|
    ensures |states[k].fetchers| == |states[0].fetchers| && |states[k].txWriters| == |states[0].txWriters|
  {
    hide InOrder, Range, BatchLength;
    if k > 0 { RunWorkers(c, states, events, k - 1); }
  }

  ghost predicate InitialSync(c: Config, endBlock: int, fetchers: nat, writers: nat, states: seq<Pipeline>,
                              events: seq<Event>) {
    Run(c, states, events) && states[0] == Init(c, endBlock, fetchers, writers)
  }

  /** At every point of every run with a fetcher and a writer: unless the sync has completed there
      is a step to take, the step taken decreased the rank, and on completion everything from
      startBlock on that was handed out is in the database, which is all of [startBlock, endBlock]
      when the node's height never drops. */
  lemma InitialSyncWorks(c: Config, endBlock: int, fetchers: nat, writers: nat, states: seq<Pipeline>,
                         events: seq<Event>, k: nat)
    requires InitialSync(c, endBlock, fetchers, writers, states, events) && k < |states|
    requires fetchers >= 1 && writers >= 1 && c.batchSize >= 1 && endBlock <= c.limit
    ensures !Completed(states[k]) ==> exists e :: Enabled(c, states[k], e)
    ensures k > 0 ==> Smaller(RankOf(c, states[k]), RankOf(c, states[k - 1]))
    ensures Completed(states[k]) ==>
              && Synced(c, states[k], states[k].sent)
              && (c.steady ==>
                    states[k].sent
                    == if c.startBlock <= states[k].endBlock then states[k].endBlock + 1 else c.startBlock)
  {
    hide Inv, Enabled, Next, Completed, RankOf, Synced;
    InitInv(c, endBlock, fetchers, writers);
    RunInv(c, states, events, k);
    RunCapped(c, states, events, k);
    RunWorkers(c, states, events, k);
    if Completed(states[k]) {
      CompletedSynced(c, states[k]);
    } else {
      var e := NeverStuck(c, states[k]);
    }
    if k > 0 {
      RunInv(c, states, events, k - 1);
      RunCapped(c, states, events, k - 1);
      BlocksOf(c, states[k - 1]);
      RankDecreases(c, states[k - 1], events[k - 1]);
    }
  }

  lemma BlocksOf(c: Config, s: Pipeline)
    requires Inv(c, s)
    ensures BlocksRight(c, s)
  {}

  // ----- Both kinds of worker are needed -----

  lemma {:induction false} WritersEnd(c: Config, s: Pipeline, w: nat)
    returns (states: seq<Pipeline>, events: seq<Event>)
    requires s.writer.Over? && w <= |s.txWriters|
    requires forall k :: 0 <= k < |s.txWriters| ==> s.txWriters[k] == if k < w then Ended else Open
    ensures Run(c, states, events) && states[0] == s
    ensures Completed(states[|states| - 1]) && states[|states| - 1].blocks == s.blocks
    ensures states[|states| - 1].endBlock == s.endBlock
    decreases |s.txWriters| - w
  {
    if w == |s.txWriters| {
      states, events := [s], [];
    } else {
      var next := Next(c, s, End(w));
      var rest, more := WritersEnd(c, next, w + 1);
      states, events := [s] + rest, [End(w)] + more;
    }
  }

  /** Without a fetcher, or without a writer, the sync can return with nothing inserted. */
  lemma NoWorkersNoSync(c: Config, endBlock: int, fetchers: nat, writers: nat)
    returns (states: seq<Pipeline>, events: seq<Event>)
    requires fetchers == 0 || writers == 0
    ensures InitialSync(c, endBlock, fetchers, writers, states, events)
    ensures Completed(states[|states| - 1]) && states[|states| - 1].blocks == []
    ensures states[|states| - 1].endBlock == endBlock
  {
    var s0 := Init(c, endBlock, fetchers, writers);
    if writers == 0 {
      states, events := [s0], [];
    } else {
      var s1 := Next(c, s0, CloseBlocks);
      var s2 := Next(c, s1, ShutOrder);
      var s3 := Next(c, s2, ShutWriter);
      var rest, more := WritersEnd(c, s3, 0);
      states, events := [s0, s1, s2] + rest, [CloseBlocks, ShutOrder, ShutWriter] + more;
    }
  }

  lemma SyncedLength(c: Config, s: Pipeline)
    ensures Synced(c, s, s.sent) ==> |s.blocks| == s.sent - c.startBlock
  {}

  ghost predicate AlwaysSyncs(c: Config, endBlock: int, fetchers: nat, writers: nat) {
    forall states: seq<Pipeline>, events: seq<Event> ::
      InitialSync(c, endBlock, fetchers, writers, states, events) && Completed(states[|states| - 1]) ==>
      Synced(c, states[|states| - 1], states[|states| - 1].sent)
          && states[|states| - 1].endBlock < states[|states| - 1].sent
  }

  /** Every completed sync of a nonempty range reaches its endBlock exactly when there is at least
      one fetcher and one writer. */
  lemma AlwaysSyncsIff(c: Config, endBlock: int, fetchers: nat, writers: nat)
    requires c.batchSize >= 1 && c.steady && c.startBlock <= endBlock <= c.limit
    ensures AlwaysSyncs(c, endBlock, fetchers, writers) <==> fetchers >= 1 && writers >= 1
  {
    hide Completed, Synced, Enabled, Next;
    if fetchers >= 1 && writers >= 1 {
      forall states: seq<Pipeline>, events: seq<Event>
        | InitialSync(c, endBlock, fetchers, writers, states, events) && Completed(states[|states| - 1])
        ensures Synced(c, states[|states| - 1], states[|states| - 1].sent)
                && states[|states| - 1].endBlock < states[|states| - 1].sent
      {
        InitialSyncWorks(c, endBlock, fetchers, writers, states, events, |states| - 1);
      }
    } else {
      var states, events := NoWorkersNoSync(c, endBlock, fetchers, writers);
      var last := states[|states| - 1];
      assert Synced(c, last, last.sent) ==> last.sent == c.startBlock by { SyncedLength(c, last); }
      assert !(Synced(c, states[|states| - 1], states[|states| - 1].sent)
              && states[|states| - 1].endBlock < states[|states| - 1].sent);
    }
  }
}
