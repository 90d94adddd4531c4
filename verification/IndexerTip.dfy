/** How far an initial sync goes: to the node's height as read just before its last batch. */
module IndexerTip {
  import opened Indexes
  import opened Indexer
  import opened IndexerRuns

  /** The event has the producer build a batch. */
  predicate Builds(s: Pipeline, e: Event) { e.Prepare? && s.producer.AtLoop? && s.producer.i <= s.endBlock }

  /** The producer is still before its first batch. */
  predicate Unstarted(c: Config, endBlock: int, s: Pipeline) {
    s.producer == AtLoop(c.startBlock) && s.endBlock == endBlock
  }

  /** The producer stands where the batch built from state s has taken it. */
  predicate Past(c: Config, s: Pipeline, now: Pipeline)
    requires s.producer.AtLoop?
  {
    match now.producer
    case Offering(i, _) => i == s.producer.i
    case AtLoop(i) => i == s.producer.i + c.batchSize
    case Closed => s.producer.i + c.batchSize > now.endBlock
  }

  /** The last batch before state k was built at event m. */
  ghost predicate LastBuilt(c: Config, states: seq<Pipeline>, events: seq<Event>, k: nat, m: nat)
    requires |states| == |events| + 1 && k < |states|
  {
    && m < k && Builds(states[m], events[m]) && (forall n :: m < n < k ==> !Builds(states[n], events[n]))
    && states[k].endBlock == states[m + 1].endBlock && Past(c, states[m], states[k])
  }

  /** Only the producer's own events move it or endBlock. */
  lemma Unmoved(c: Config, s: Pipeline, e: Event)
    requires Enabled(c, s, e) && !e.Prepare? && !e.Hand?
    ensures Next(c, s, e).producer == s.producer && Next(c, s, e).endBlock == s.endBlock
  {
    hide InOrder;
  }

  lemma StepFrom(c: Config, endBlock: int, s: Pipeline, e: Event)
    requires Enabled(c, s, e) && c.startBlock <= endBlock && Unstarted(c, endBlock, s)
    ensures Builds(s, e) || Unstarted(c, endBlock, Next(c, s, e))
  {
    hide InOrder;
  }

  lemma StepPast(c: Config, s: Pipeline, now: Pipeline, e: Event)
    requires s.producer.AtLoop? && Past(c, s, now) && Enabled(c, now, e) && !Builds(now, e)
    ensures Past(c, s, Next(c, now, e)) && Next(c, now, e).endBlock == now.endBlock
  {
    if !e.Prepare? && !e.Hand? { Unmoved(c, now, e); }
  }

  lemma StepBuilds(c: Config, s: Pipeline, e: Event)
    requires Enabled(c, s, e) && Builds(s, e)
    ensures Past(c, s, Next(c, s, e))
  {}

  /** At every point of a run the producer has not started, or is just past some last batch. */
  lemma {:induction false} Progressed(c: Config, endBlock: int, fetchers: nat, writers: nat, states: seq<Pipeline>,
                                      events: seq<Event>, k: nat) returns (m: nat)
    requires InitialSync(c, endBlock, fetchers, writers, states, events) && k < |states| && c.startBlock <= endBlock
    ensures Unstarted(c, endBlock, states[k]) || LastBuilt(c, states, events, k, m)
  {
    hide Enabled, Next, Past, Builds, Unstarted;
    m := 0;
    if k == 0 {
      assert Unstarted(c, endBlock, states[0]) by { Starts(c, endBlock, fetchers, writers); }
    } else {
      var s, e := states[k - 1], events[k - 1];
      m := Progressed(c, endBlock, fetchers, writers, states, events, k - 1);
      if Builds(s, e) {
        StepBuilds(c, s, e);
        m := k - 1;
      } else if Unstarted(c, endBlock, s) {
        StepFrom(c, endBlock, s, e);
      } else {
        BuiltAtLoop(states[m], events[m]);
        StepPast(c, states[m], s, e);
      }
    }
  }

  lemma Starts(c: Config, endBlock: int, fetchers: nat, writers: nat)
    ensures Unstarted(c, endBlock, Init(c, endBlock, fetchers, writers))
  {}

  lemma BuiltAtLoop(s: Pipeline, e: Event)
    requires Builds(s, e)
    ensures s.producer.AtLoop? && s.producer.i <= s.endBlock
  {}

  /** If a batch was the last, the node's height was read for it. */
  lemma ReadForLast(c: Config, s: Pipeline, e: Event, now: Pipeline)
    requires c.syncTip && Enabled(c, s, e) && Builds(s, e) && Past(c, s, now) && now.producer.Closed?
    requires now.endBlock == Next(c, s, e).endBlock
    ensures now.endBlock == e.reading && s.endBlock <= s.producer.i + c.batchSize
  {}

  /** Every completed sync to the tip of a nonempty range read the node's height for its last batch, when no
      more than batchSize heights were left after the batch's first. That reading is the final endBlock,
      and if the node's height never drops, everything up to it has been inserted. */
  lemma SyncEndsAtTip(c: Config, endBlock: int, fetchers: nat, writers: nat, states: seq<Pipeline>,
                      events: seq<Event>) returns (m: nat)
    requires InitialSync(c, endBlock, fetchers, writers, states, events) && Completed(states[|events|])
    requires c.syncTip && c.batchSize >= 1 && c.startBlock <= endBlock <= c.limit && fetchers >= 1 && writers >= 1
    ensures m < |events| && events[m].Prepare? && states[m].producer.AtLoop?
    ensures states[m].producer.i <= states[m].endBlock <= states[m].producer.i + c.batchSize
    ensures forall n :: m < n < |events| && events[n].Prepare? ==>
              states[n].producer.AtLoop? && states[n].producer.i > states[n].endBlock
    ensures states[|events|].endBlock == events[m].reading
    ensures c.steady ==> events[m].reading >= endBlock && Synced(c, states[|events|], events[m].reading + 1)
  {
    hide Enabled, Next, Past, Completed, Synced, Inv, RankOf;
    var k := |events|;
    var last := states[k];
    InitInv(c, endBlock, fetchers, writers);
    RunInv(c, states, events, k);
    RunWorkers(c, states, events, k);
    AllClosed(c, last);
    m := Progressed(c, endBlock, fetchers, writers, states, events, k);
    ReadForLast(c, states[m], events[m], last);
    forall n | m < n < k && events[n].Prepare?
      ensures states[n].producer.AtLoop? && states[n].producer.i > states[n].endBlock
    {
      PrepareAtLoop(c, states[n], events[n]);
    }
    InitialSyncWorks(c, endBlock, fetchers, writers, states, events, k);
    if c.steady { NeverLower(c, endBlock, fetchers, writers, states, events, k); }
  }

  lemma PrepareAtLoop(c: Config, s: Pipeline, e: Event)
    requires Enabled(c, s, e) && e.Prepare?
    ensures s.producer.AtLoop?
  {}

  lemma AllClosed(c: Config, s: Pipeline)
    requires Inv(c, s) && Completed(s) && |s.fetchers| >= 1 && |s.txWriters| >= 1
    ensures s.producer.Closed?
  {
    CompletedMeansClosed(s);
  }

  /** With a steady node endBlock never drops. */
  lemma {:induction false} NeverLower(c: Config, endBlock: int, fetchers: nat, writers: nat, states: seq<Pipeline>,
                                      events: seq<Event>, k: nat)
    requires InitialSync(c, endBlock, fetchers, writers, states, events) && c.steady && k < |states|
    ensures states[k].endBlock >= endBlock
  {
    hide Enabled, Next;
    if k > 0 {
      NeverLower(c, endBlock, fetchers, writers, states, events, k - 1);
      StepNotLower(c, states[k - 1], events[k - 1]);
    }
  }

  lemma StepNotLower(c: Config, s: Pipeline, e: Event)
    requires Enabled(c, s, e) && c.steady
    ensures Next(c, s, e).endBlock >= s.endBlock
  {
    hide InOrder;
  }

  /** A sync that was told where to end ends there. */
  lemma {:induction false} EndsAsTold(c: Config, endBlock: int, fetchers: nat, writers: nat, states: seq<Pipeline>,
                                      events: seq<Event>, k: nat)
    requires InitialSync(c, endBlock, fetchers, writers, states, events) && !c.syncTip && k < |states|
    ensures states[k].endBlock == endBlock
  {
    hide Enabled, Next;
    if k > 0 {
      EndsAsTold(c, endBlock, fetchers, writers, states, events, k - 1);
      StepAsTold(c, states[k - 1], events[k - 1]);
    }
  }

  lemma StepAsTold(c: Config, s: Pipeline, e: Event)
    requires Enabled(c, s, e) && !c.syncTip
    ensures Next(c, s, e).endBlock == s.endBlock
  {
    hide InOrder;
  }
}
