/** Exactly when every pass of the scanner over a range completes, read off the tables it starts from and
    the node's blocks. */
module ScanEveryPass {
  import opened Options
  import opened Indexes
  import opened BlockQueues
  import opened BlockQueueRuns
  import opened BlockQueueOrder
  import opened BlockQueueExact
  import opened BlockQueueProgress
  import opened BlockTables
  import opened ScanPass
  import opened ScanContents
  import opened ScanOutcome
  import opened ScanCompletion

  // ----- Passes over ranges in which delivery is ordered -----

  /** Every transaction to be saved is in one block of the range, at one place, and if it is stored, then
      under that block's index or an earlier one of the range. */
  ghost predicate Replaceable(u: Setup<Bundle>, t: Tables) {
    forall i: nat, k: nat, id: TxId :: u.start <= i < u.highest && Differs(t, u.src, i) && Names(u.src, i, k, id)
      ==> OnlyThere(u, id, i, k) && (id in t.transactions ==> u.start <= t.transactions[id] <= i)
  }

  ghost predicate OnlyThere(u: Setup<Bundle>, id: TxId, i: nat, k: nat) {
    forall j: nat, l: nat :: u.start <= j < u.highest && Names(u.src, j, l, id) ==> j == i && l == k
  }

  lemma {:induction false} FlatPrefix<B>(batches: seq<seq<Wrapper<B>>>, c: nat)
    requires c <= |batches|
    ensures Flat(batches[..c]) <= Flat(batches)
  {
    var n := |batches| - 1;
    if c <= n {
      assert batches[..n][..c] == batches[..c];
      FlatPrefix(batches[..n], c);
    } else {
      assert batches[..c] == batches;
    }
  }

  /** In ascending delivery the batches up to the one with i hold what lies between start and i. */
  lemma HandedOutBefore<B>(batches: seq<seq<Wrapper<B>>>, start: nat, b: nat, i: nat, j: nat)
    requires Counting(Flat(batches), start) && b < |batches| && CountOf(batches[b], i) > 0 && start <= j <= i
    ensures Has(batches[..b + 1], j)
  {
    hide Flat, CountOf;
    var some := batches[..b + 1];
    FlatPrefix(batches, b + 1);
    assert some[b] == batches[b];
    HasAt(some, b, i);
    var out := Flat(some);
    CountOfPositive(out, i);
    var p :| 0 <= p < |Indices(out)| && Indices(out)[p] == i;
    assert out[p] == Flat(batches)[p] && out[p].index == start + p;
    assert out[j - start] == Flat(batches)[j - start];
    CountSome(out, j - start);
  }

  /** If delivery is ordered, then every pass over a replaceable range completes. */
  lemma OrderedPassCompletes(u: Setup<Bundle>, txsOf: Hash -> seq<Tx>, es: seq<Event>, t: Tables)
    requires RanDry(u, es) && Sane(u.config) && !Risky(u) && Determined(u.src, txsOf) && Whole(t, txsOf)
    requires Replaceable(u, t)
    ensures Pass(t, After(u, es).batches).1
  {
    hide Pass, Flat, Legal, After, LastBatch, Risky, Determined, Whole, Genuine, Counting, CountOf, Names, Differs;
    EmptyBatchMeansDone(u, es);
    OrderedRun(u, es);
    ReachableGenuine(u, es);
    var batches := After(u, es).batches;
    forall b, i: nat, k: nat, id: TxId
      | 0 <= b < |batches| && CountOf(batches[b], i) > 0 && Differs(t, u.src, i) && Names(u.src, i, k, id)
      ensures Sole(u.src, batches, id, i, k) && Cleared(t, batches[..b + 1], id)
    {
      HasAt(batches, b, i);
      assert OnlyThere(u, id, i, k);
      if id in t.transactions { HandedOutBefore(batches, u.start, b, i, t.transactions[id]); }
    }
    PassCompletesIff(u, txsOf, t, batches);
  }

  // ----- Every pass -----

  lemma {:induction false} BatchesGrow<B>(u: Setup<B>, es: seq<Event>, fs: seq<Event>)
    requires es <= fs
    ensures After(u, es).batches <= After(u, fs).batches
  {
    hide Effect;
    if |es| == |fs| {
      assert es == fs;
    } else {
      BatchesGrow(u, es, fs[..|fs| - 1]);
    }
  }

  /** The first c batches were all there was at some point of the run. */
  lemma {:induction false} BatchesSoFar<B>(u: Setup<B>, es: seq<Event>, c: nat) returns (d: nat)
    requires Legal(u, es) && c <= |After(u, es).batches|
    ensures d <= |es| && Legal(u, es[..d]) && After(u, es[..d]).batches == After(u, es).batches[..c]
  {
    hide Effect, Enabled;
    if c == |After(u, es).batches| {
      d := |es|;
      assert es[..d] == es;
    } else {
      var before := es[..|es| - 1];
      d := BatchesSoFar(u, before, c);
      assert before[..d] == es[..d];
    }
  }

  /** A batch can end just before q. */
  ghost predicate MayEnd<B>(u: Setup<B>, q: nat) {
    u.start <= q < u.highest && (u.config.maxBlockRequests < 2 || Paced(u.config, q - u.start))
  }

  /** Wherever a batch ends, it may end. */
  lemma EndsWhereItMay<B>(u: Setup<B>, es: seq<Event>, c: nat)
    requires Legal(u, es) && Sane(u.config) && u.config.minSize <= u.config.maxSize && !Risky(u)
    requires c <= |After(u, es).batches|
    ensures var q := u.start + |Flat(After(u, es).batches[..c])|; q >= u.highest || MayEnd(u, q)
  {
    hide Legal, After, Risky, Flat, Counting, Paced;
    var d := BatchesSoFar(u, es, c);
    KeepsPace(u, es[..d]);
  }

  /** With one request in flight at a time, blocks can come one by one. */
  lemma {:induction false} OneAtATime<B>(u: Setup<B>, q: nat) returns (es: seq<Event>)
    requires u.start <= q < u.highest && Sane(u.config) && u.config.maxBlockRequests == 1
    ensures Legal(u, es) && |Flat(After(u, es).batches)| == q - u.start
    ensures After(u, es).q == State([], q + 1, [q], 1)
  {
    hide Called, Responded;
    if q == u.start {
      es := [Call];
      assert es[..0] == [];
      assert After(u, es[..0]) == Init(u);
      NextAsked(u, State([], q, [], 0), q);
    } else {
      var before := OneAtATime(u, q - 1);
      var s := After(u, before);
      es := before + [Respond(q - 1)];
      assert es[..|before|] == before;
      OneAnswered(u, q - 1);
      FlatAppend(s.batches, [Wrapper(q - 1, u.src(q - 1))]);
      var answered := es;
      es := answered + [Call];
      assert es[..|answered|] == answered;
      NextAsked(u, After(u, answered).q, q);
    }
  }

  lemma NextAsked<B>(u: Setup<B>, s: State<B>, q: nat)
    requires s == State([], q, [], 0) || s == State([], q + 1, [q], 0)
    requires q < u.highest && Sane(u.config) && u.config.maxBlockRequests == 1
    ensures Called(s, u.highest, u.config) == (State([], q + 1, [q], 1), None)
  {
    NoneReady(s, u.config);
    assert Range(q, 1) == [q] && Range(q + 1, 0) == [];
    var none: seq<nat> := [];
    assert none + [q] == [q] && [q] + none == [q];
  }

  lemma OneAnswered<B>(u: Setup<B>, q: nat)
    requires q + 1 < u.highest && Sane(u.config) && u.config.maxBlockRequests == 1
    ensures Responded(State([], q + 1, [q], 1), q, u.src(q), u.highest, u.config)
         == (State([], q + 2, [q + 1], 0), Some([Wrapper(q, u.src(q))]))
  {
    hide Ready, Dropping, Without, Range;
    var w := Wrapper(q, u.src(q));
    WithoutOne(q, q);
    var t := Arrived(State([], q + 1, [q], 1), q, u.src(q));
    assert t == State([w], q + 1, [], 1) by { assert [] + [w] == [w]; }
    assert Chunk(u, q, 1) == [w];
    SortedChunk(u, q, 1);
    ReadyOf(u, t, q, 1);
    assert Indices([w])[0] == q;
    DroppingAll([w], Indices([w]));
    assert Range(q + 1, 1) == [q + 1] by { RangeOne(q + 1); }
    var none: seq<nat> := [];
    assert none + [q + 1] == [q + 1];
  }

  lemma RangeOne(q: nat)
    ensures Range(q, 1) == [q]
  {
    assert Range(q, 0) == [];
  }

  /** Where a batch may end, one does in some run. */
  lemma EndsThere<B>(u: Setup<B>, q: nat) returns (es: seq<Event>)
    requires MayEnd(u, q) && Sane(u.config) && u.config.minSize <= u.config.maxSize && !Risky(u)
    ensures Legal(u, es) && |Flat(After(u, es).batches)| == q - u.start
  {
    hide Legal, After, Risky, Flat, Makes;
    if u.config.maxBlockRequests < 2 {
      es := OneAtATime(u, q);
    } else {
      var t: nat :| Makes(u.config, q - u.start, t);
      es := ReachWaiting(u, q, t);
      OrderedRun(u, es);
    }
  }

  /** Blocks i and j > i are always handed out in one batch. */
  ghost predicate Together<B>(u: Setup<B>, i: nat, j: nat) {
    j < u.highest && forall q: nat :: i < q <= j ==> !MayEnd(u, q)
  }

  /** Every transaction to be saved is in one block of the range, at one place, and if it is stored, then
      under an index of the range that is never handed out after that block. */
  ghost predicate AlwaysReplaceable(u: Setup<Bundle>, t: Tables) {
    forall i: nat, k: nat, id: TxId :: u.start <= i < u.highest && Differs(t, u.src, i) && Names(u.src, i, k, id)
      ==> OnlyThere(u, id, i, k) && (id in t.transactions ==> InTime(u, i, t.transactions[id]))
  }

  ghost predicate InTime<B>(u: Setup<B>, i: nat, j: nat) { u.start <= j && (j <= i || Together(u, i, j)) }

  lemma InTimeCleared<B>(u: Setup<B>, es: seq<Event>, b: nat, i: nat, j: nat)
    requires Legal(u, es) && Sane(u.config) && u.config.minSize <= u.config.maxSize && !Risky(u)
    requires b < |After(u, es).batches| && CountOf(After(u, es).batches[b], i) > 0 && InTime(u, i, j)
    ensures Has(After(u, es).batches[..b + 1], j)
  {
    hide Legal, After, Risky, Flat, CountOf, MayEnd;
    var batches := After(u, es).batches;
    OrderedRun(u, es);
    if j <= i {
      HandedOutBefore(batches, u.start, b, i, j);
    } else {
      var out := Flat(batches[..b + 1]);
      FlatPrefix(batches, b + 1);
      assert batches[..b + 1][b] == batches[b];
      HasAt(batches[..b + 1], b, i);
      CountingCount(out, u.start, i);
      EndsWhereItMay(u, es, b + 1);
      CountingCount(out, u.start, j);
    }
  }

  /** If the pass goes through in every run, i's transaction cannot be stored under a block that some run
      hands out later. */
  lemma NotTogether(u: Setup<Bundle>, txsOf: Hash -> seq<Tx>, t: Tables, i: nat, k: nat, id: TxId, q: nat)
    requires Sane(u.config) && u.config.minSize <= u.config.maxSize && !Risky(u)
    requires Determined(u.src, txsOf) && Whole(t, txsOf)
    requires u.start <= i < q && Differs(t, u.src, i) && Names(u.src, i, k, id) && MayEnd(u, q)
    requires id in t.transactions && q <= t.transactions[id]
    ensures exists es: seq<Event> :: RanDry(u, es) && !Pass(t, After(u, es).batches).1
  {
    hide Legal, After, Risky, Flat, CountOf, MayEnd, Pass, Determined, Whole, Differs, Names, RanDry;
    var es := EndsThere(u, q);
    var fs := CanRunDry(u, es);
    BatchesGrow(u, es, fs);
    DryParts(u, fs);
    var some, batches := After(u, es).batches, After(u, fs).batches;
    assert some == batches[..|some|];
    OrderedRun(u, es);
    CountingCount(Flat(some), u.start, i);
    var b := InSomeBatch(some, i);
    assert batches[b] == some[b] && batches[..b + 1] == some[..b + 1];
    if Pass(t, batches).1 {
      PassCompletesIff(u, txsOf, t, batches);
      assert Cleared(t, batches[..b + 1], id);
      HasWithin(some, b + 1, t.transactions[id]);
      CountingCount(Flat(some), u.start, t.transactions[id]);
    }
  }

  lemma DryParts(u: Setup<Bundle>, es: seq<Event>)
    requires RanDry(u, es) && Sane(u.config)
    ensures Legal(u, es) && OnceEach(After(u, es).batches) && AllGenuine(u, After(u, es))
    ensures forall i: nat :: Has(After(u, es).batches, i) <==> u.start <= i < u.highest
  {
    hide After, Legal, LastBatch, AllGenuine;
    EmptyBatchMeansDone(u, es);
    ReachableGenuine(u, es);
  }

  /** What a pass that completes in every run says of one transaction that it saves. */
  lemma NeededAlways(u: Setup<Bundle>, txsOf: Hash -> seq<Tx>, t: Tables, i: nat, k: nat, id: TxId)
    requires Sane(u.config) && u.config.minSize <= u.config.maxSize && !Risky(u)
    requires Determined(u.src, txsOf) && Whole(t, txsOf)
    requires forall es: seq<Event> :: RanDry(u, es) ==> Pass(t, After(u, es).batches).1
    requires u.start <= i < u.highest && Differs(t, u.src, i) && Names(u.src, i, k, id)
    ensures OnlyThere(u, id, i, k) && (id in t.transactions ==> InTime(u, i, t.transactions[id]))
  {
    hide Legal, After, Risky, Flat, CountOf, Pass, Determined, Whole, Differs, Names, RanDry, MayEnd;
    var none: seq<Event> := [];
    assert Legal(u, none) by { NoEvents(u); }
    var es := CanRunDry(u, none);
    var batches := After(u, es).batches;
    DryParts(u, es);
    PassCompletesIff(u, txsOf, t, batches);
    assert Has(batches, i);
    var b := InSomeBatch(batches, i);
    assert Sole(u.src, batches, id, i, k) && Cleared(t, batches[..b + 1], id);
    if id in t.transactions {
      var j := t.transactions[id];
      HasWithin(batches, b + 1, j);
      forall q: nat | i < q <= j ensures !MayEnd(u, q) {
        if MayEnd(u, q) { NotTogether(u, txsOf, t, i, k, id, q); }
      }
    }
  }

  lemma NoEvents<B>(u: Setup<B>)
    ensures Legal(u, [])
  {}

  /** Where delivery is ordered and batches may be as small as asked for, every pass to the end of the
      range completes exactly when the range is replaceable in every run. */
  lemma EveryPassCompletesIff(u: Setup<Bundle>, txsOf: Hash -> seq<Tx>, t: Tables)
    requires Sane(u.config) && u.config.minSize <= u.config.maxSize && !Risky(u)
    requires Determined(u.src, txsOf) && Whole(t, txsOf)
    ensures (forall es: seq<Event> :: RanDry(u, es) ==> Pass(t, After(u, es).batches).1) <==> AlwaysReplaceable(u, t)
  {
    hide Legal, After, Risky, Flat, CountOf, Pass, Determined, Whole, Differs, Names, RanDry, InTime, OnlyThere;
    if forall es: seq<Event> :: RanDry(u, es) ==> Pass(t, After(u, es).batches).1 {
      forall i: nat, k: nat, id: TxId | u.start <= i < u.highest && Differs(t, u.src, i) && Names(u.src, i, k, id)
        ensures OnlyThere(u, id, i, k) && (id in t.transactions ==> InTime(u, i, t.transactions[id]))
      {
        NeededAlways(u, txsOf, t, i, k, id);
      }
    }
    if AlwaysReplaceable(u, t) {
      forall es: seq<Event> | RanDry(u, es) ensures Pass(t, After(u, es).batches).1 {
        ReplaceableFits(u, es, t);
        DryParts(u, es);
        PassCompletesIff(u, txsOf, t, After(u, es).batches);
      }
    }
  }

  lemma ReplaceableFits(u: Setup<Bundle>, es: seq<Event>, t: Tables)
    requires Sane(u.config) && u.config.minSize <= u.config.maxSize && !Risky(u) && RanDry(u, es)
    requires AlwaysReplaceable(u, t)
    ensures Fits(u.src, t, After(u, es).batches)
  {
    hide Legal, After, Risky, Flat, CountOf, Differs, Names, RanDry, InTime;
    var batches := After(u, es).batches;
    DryParts(u, es);
    forall b, i: nat, k: nat, id: TxId
      | 0 <= b < |batches| && CountOf(batches[b], i) > 0 && Differs(t, u.src, i) && Names(u.src, i, k, id)
      ensures Sole(u.src, batches, id, i, k) && Cleared(t, batches[..b + 1], id)
    {
      HasAt(batches, b, i);
      assert OnlyThere(u, id, i, k);
      if id in t.transactions { InTimeCleared(u, es, b, i, t.transactions[id]); }
    }
  }
}
