/** The initial sync of the UTXO indexer: a height producer, N fetchers, the reordering stage, the
    block writer and M transaction writers, joined by unbuffered channels. Every step of a
    goroutine, and every rendezvous of two, is an event. */
module Indexer {
  import opened Indexes
  import opened IndexerStages

  /** `txCount(h)` is the number of transactions of the node's block at height h. `steady` says
      that the node's height never drops; `limit` bounds it. */
  datatype Config = Config(startBlock: nat, batchSize: nat, syncTip: bool, limit: int, steady: bool,
                           txCount: nat -> nat)

  datatype Producer = AtLoop(i: nat) | Offering(i: nat, heights: seq<nat>) | Closed

  datatype Fetcher = Listening | Fetched(heights: seq<nat>) | Finished

  /** `store` holds the blocks still to be sent, sorted while emitting; `next` is the height due. */
  datatype OrderStage =
    | Receiving(store: seq<nat>, next: nat)
    | Emitting(store: seq<nat>, next: nat)
    | Shut(store: seq<nat>, next: nat)

  datatype BlockRow = BlockRow(height: nat, id: int)

  datatype BlockWriter = Free | Sending(row: BlockRow, tx: nat) | Over

  /** The transaction at position `tx` of the block at `height`, written with an index and a block id. */
  datatype TxRow = TxRow(height: nat, tx: nat, index: nat, blockId: int)

  datatype TxWriter = Open | Writing(row: TxRow) | Ended

  /** `sent` is the first height not yet handed to a fetcher; `blocks` and `rows` are the database. */
  datatype Pipeline = Pipeline(
    endBlock: int, producer: Producer, sent: nat, fetchers: seq<Fetcher>, blocksClosed: bool,
    order: OrderStage, writer: BlockWriter, txWriters: seq<TxWriter>, blocks: seq<BlockRow>, rows: seq<TxRow>)

  datatype Event =
    | Prepare(reading: int)         // the producer tests its loop, reads the node's height if due, builds a batch
    | Hand(f: nat, got: seq<nat>)   // a batch goes to a fetcher, which gets its blocks in any order
    | Finish(f: nat)                // a fetcher sees its channel closed
    | CloseBlocks                   // all fetchers are done
    | Deliver(f: nat)               // a fetcher's blocks go to the reordering stage, which sorts
    | Emit(id: int)                 // the next block goes to the block writer, which inserts it
    | Settle                        // the reordering stage finds no further block due
    | ShutOrder
    | SendTx(w: nat)                // a transaction goes to a transaction writer
    | NextBlock                     // the block writer has sent all transactions of its block
    | ShutWriter
    | InsertTx(w: nat)
    | End(w: nat)

  function Init(c: Config, endBlock: int, fetchers: nat, writers: nat): Pipeline {
    Pipeline(endBlock, AtLoop(c.startBlock), c.startBlock, seq(fetchers, _ => Listening), false,
             Receiving([], c.startBlock), Free, seq(writers, _ => Open), [], [])
  }

  predicate Reads(c: Config, s: Pipeline) {
    s.producer.AtLoop? && c.syncTip && s.endBlock - c.batchSize <= s.producer.i <= s.endBlock
  }

  predicate Enabled(c: Config, s: Pipeline, e: Event) {
    match e
    case Prepare(r) => s.producer.AtLoop? && (Reads(c, s) ==> r <= c.limit && (c.steady ==> r >= s.endBlock))
    case Hand(f, got) => s.producer.Offering? && f < |s.fetchers| && s.fetchers[f].Listening?
        && InOrder(got) == s.producer.heights
    case Finish(f) => s.producer.Closed? && f < |s.fetchers| && s.fetchers[f].Listening?
    case CloseBlocks => !s.blocksClosed && AllFinished(s)
    case Deliver(f) => f < |s.fetchers| && s.fetchers[f].Fetched? && s.order.Receiving?
    case Emit(_) => s.order.Emitting? && Due(s.order) && s.writer.Free?
    case Settle => s.order.Emitting? && !Due(s.order)
    case ShutOrder => s.order.Receiving? && s.blocksClosed
    case SendTx(w) => s.writer.Sending? && s.writer.tx < c.txCount(s.writer.row.height) && w < |s.txWriters|
        && s.txWriters[w].Open?
    case NextBlock => s.writer.Sending? && s.writer.tx == c.txCount(s.writer.row.height)
    case ShutWriter => s.writer.Free? && s.order.Shut?
    case InsertTx(w) => w < |s.txWriters| && s.txWriters[w].Writing?
    case End(w) => w < |s.txWriters| && s.txWriters[w].Open? && s.writer.Over?
  }

  predicate AllFinished(s: Pipeline) { forall f :: 0 <= f < |s.fetchers| ==> s.fetchers[f].Finished? }

  predicate Due(o: OrderStage) { o.store != [] && o.store[0] == o.next }

  function Prepared(c: Config, s: Pipeline, r: int): Pipeline
    requires s.producer.AtLoop?
  {
    if s.producer.i > s.endBlock then s.(producer := Closed)
    else
      var end := if Reads(c, s) then r else s.endBlock;
      var heights := Range(s.producer.i, BatchLength(s.producer.i, end, c.batchSize));
      s.(endBlock := end, producer := Offering(s.producer.i, heights))
  }

  function Next(c: Config, s: Pipeline, e: Event): Pipeline
    requires Enabled(c, s, e)
  {
    match e
    case Prepare(r) => Prepared(c, s, r)
    case Hand(f, got) => s.(producer := AtLoop(s.producer.i + c.batchSize), sent := s.sent + |s.producer.heights|,
                            fetchers := s.fetchers[f := Fetched(got)])
    case Finish(f) => s.(fetchers := s.fetchers[f := Finished])
    case CloseBlocks => s.(blocksClosed := true)
    case Deliver(f) => s.(fetchers := s.fetchers[f := Listening],
                          order := Emitting(InOrder(s.order.store + s.fetchers[f].heights), s.order.next))
    case Emit(id) => var row := BlockRow(s.order.next, id);
                     s.(order := Emitting(s.order.store[1..], s.order.next + 1), writer := Sending(row, 0),
                        blocks := s.blocks + [row])
    case Settle => s.(order := Receiving(s.order.store, s.order.next))
    case ShutOrder => s.(order := Shut(s.order.store, s.order.next))
    case SendTx(w) => var row := TxRow(s.writer.row.height, s.writer.tx, s.writer.tx, s.writer.row.id);
                      s.(writer := Sending(s.writer.row, s.writer.tx + 1), txWriters := s.txWriters[w := Writing(row)])
    case NextBlock => s.(writer := Free)
    case ShutWriter => s.(writer := Over)
    case InsertTx(w) => s.(rows := s.rows + [s.txWriters[w].row], txWriters := s.txWriters[w := Open])
    case End(w) => s.(txWriters := s.txWriters[w := Ended])
  }

  /** initialSync waits for the transaction writers only. */
  predicate Completed(s: Pipeline) { forall w :: 0 <= w < |s.txWriters| ==> s.txWriters[w].Ended? }

  // ----- Runs -----

  ghost predicate Run(c: Config, states: seq<Pipeline>, events: seq<Event>) {
    && |states| == |events| + 1
    && forall k :: 0 <= k < |events| ==>
         Enabled(c, states[k], events[k]) && states[k + 1] == Next(c, states[k], events[k])
  }

  // ----- Sums over workers -----

  function Total<T>(s: seq<T>, weight: T -> nat): nat {
    if s == [] then 0 else Total(s[..|s| - 1], weight) + weight(s[|s| - 1])
  }

  lemma {:induction false} TotalUpdate<T>(s: seq<T>, k: nat, x: T, weight: T -> nat)
    requires k < |s|
    ensures Total(s[k := x], weight) + weight(s[k]) == Total(s, weight) + weight(x)
  {
    var n := |s| - 1;
    if k < n {
      assert s[k := x][..n] == s[..n][k := x];
      TotalUpdate(s[..n], k, x, weight);
    } else {
      assert s[k := x][..n] == s[..n];
    }
  }

  lemma {:induction false} TotalZero<T>(s: seq<T>, weight: T -> nat)
    requires forall k :: 0 <= k < |s| ==> weight(s[k]) == 0
    ensures Total(s, weight) == 0
  {
    if s != [] { TotalZero(s[..|s| - 1], weight); }
  }

  // ----- Invariants -----

  /** Stages close in order. */
  ghost predicate Lifecycle(s: Pipeline) {
    && (forall f :: 0 <= f < |s.fetchers| && s.fetchers[f].Finished? ==> s.producer.Closed?)
    && (s.blocksClosed ==> AllFinished(s))
    && (s.order.Shut? ==> s.blocksClosed)
    && (s.writer.Over? ==> s.order.Shut?)
    && (forall w :: 0 <= w < |s.txWriters| && s.txWriters[w].Ended? ==> s.writer.Over?)
  }

  /** Heights up to `sent` were handed out; with a steady node, `sent` ends up just past endBlock. */
  ghost predicate Producing(c: Config, s: Pipeline) {
    && (s.producer.AtLoop? && s.producer.i <= s.endBlock ==> s.sent == s.producer.i)
    && (s.producer.Offering? ==>
          && s.sent == s.producer.i
          && s.producer.heights == Range(s.producer.i, BatchLength(s.producer.i, s.endBlock, c.batchSize))
          && (c.steady ==> s.producer.i <= s.endBlock))
    && (c.steady && (s.producer.Closed? || (s.producer.AtLoop? && s.producer.i > s.endBlock)) ==>
          s.sent == if c.startBlock <= s.endBlock then s.endBlock + 1 else c.startBlock)
    && c.startBlock <= s.sent
  }

  function HeldBy(f: Fetcher, h: nat): nat { if f.Fetched? then Count(f.heights, h) else 0 }

  function Held(h: nat): Fetcher -> nat { f => HeldBy(f, h) }

  /** Height h is with a fetcher, in the store or emitted, once in all, if it was handed out. */
  ghost predicate Placed(c: Config, s: Pipeline, h: nat) {
    Total(s.fetchers, Held(h)) + Count(s.order.store, h) + (if c.startBlock <= h < s.order.next then 1 else 0)
    == if c.startBlock <= h < s.sent then 1 else 0
  }

  ghost predicate Ordering(c: Config, s: Pipeline) {
    && c.startBlock <= s.order.next
    && (s.order.Emitting? ==> Ascends(s.order.store))
    && (!s.order.Emitting? ==> Count(s.order.store, s.order.next) == 0)
    && forall h: nat :: Placed(c, s, h)
  }

  predicate Sent(c: Config, s: Pipeline, h: nat, j: nat) {
    && c.startBlock <= h < s.order.next && j < c.txCount(h)
    && (s.writer.Sending? && s.writer.row.height == h ==> j < s.writer.tx)
  }

  function Is(row: TxRow, h: nat, j: nat): nat { if row.height == h && row.tx == j then 1 else 0 }

  function CarriedBy(w: TxWriter, h: nat, j: nat): nat { if w.Writing? then Is(w.row, h, j) else 0 }

  function Carried(h: nat, j: nat): TxWriter -> nat { w => CarriedBy(w, h, j) }

  /** How many rows were inserted for the transaction at position j of block h. */
  function InsertedRows(rows: seq<TxRow>, h: nat, j: nat): nat {
    if rows == [] then 0 else InsertedRows(rows[..|rows| - 1], h, j) + Is(rows[|rows| - 1], h, j)
  }

  /** A transaction is with a writer or inserted, once in all, if it was sent. */
  ghost predicate Written(c: Config, s: Pipeline, h: nat, j: nat) {
    Total(s.txWriters, Carried(h, j)) + InsertedRows(s.rows, h, j) == if Sent(c, s, h, j) then 1 else 0
  }

  /** The row carries the transaction's own index and the id its own block was inserted under. */
  predicate RowRight(c: Config, s: Pipeline, row: TxRow) {
    && row.index == row.tx
    && c.startBlock <= row.height < c.startBlock + |s.blocks|
    && s.blocks[row.height - c.startBlock].id == row.blockId
  }

  ghost predicate RowsRight(c: Config, s: Pipeline) {
    && (forall k :: 0 <= k < |s.rows| ==> RowRight(c, s, s.rows[k]))
    && (forall w :: 0 <= w < |s.txWriters| && s.txWriters[w].Writing? ==> RowRight(c, s, s.txWriters[w].row))
  }

  ghost predicate BlocksRight(c: Config, s: Pipeline) {
    && c.startBlock + |s.blocks| == s.order.next
    && (forall k :: 0 <= k < |s.blocks| ==> s.blocks[k].height == c.startBlock + k)
    && (s.writer.Sending? ==> s.blocks != [] && s.writer.row == s.blocks[|s.blocks| - 1]
                              && s.writer.tx <= c.txCount(s.writer.row.height))
  }

  ghost predicate AllWritten(c: Config, s: Pipeline) { forall h: nat, j: nat :: Written(c, s, h, j) }

  ghost predicate Inv(c: Config, s: Pipeline) {
    Lifecycle(s) && Producing(c, s) && Ordering(c, s) && BlocksRight(c, s) && RowsRight(c, s) && AllWritten(c, s)
  }
}
