/** The block queue without a minimum batch size, where no caller ever waits, and with it the exact
    condition for ordered delivery under every configuration. */
module BlockQueueEager {
  import opened DecimalOrder
  import opened Indexes
  import opened Options
  import opened BlockQueues
  import opened BlockQueueRuns
  import opened BlockQueueOrder
  import opened BlockQueueExact

  // ----- A risky setup has a run out of order -----

  /** With no caller waiting, the block at x arrives while q is in flight. */
  lemma PushQuietly<B>(u: Setup<B>, s: Session<B>, q: nat, x: nat)
    requires At(u, s, q, x, 0) && x < u.highest && x < q + MAX_READY && u.config.maxBlockRequests >= 2
    ensures Enabled(s, Respond(x)) && At(u, Next(u, s, Respond(x)), q, x + 1, 0)
  {
    hide Flat, Counting, Ready, Chunk, Range, Filled, Arrived, Beyond;
    InFlightAhead(u, q, x, 0);
    ArrivesAhead(u, q, x, 0);
    FilledSpread(u, q, x, 0);
  }

  lemma {:induction false} PushAll<B>(u: Setup<B>, es: seq<Event>, q: nat, x: nat, y: nat) returns (fs: seq<Event>)
    requires Legal(u, es) && At(u, After(u, es), q, x, 0) && x <= y <= u.highest && y <= q + MAX_READY
    requires u.config.maxBlockRequests >= 2
    ensures Legal(u, fs) && At(u, After(u, fs), q, y, 0)
    decreases y - x
  {
    hide Enabled, Next, After, Legal, Spread, Counting, Flat;
    fs := es;
    if x < y {
      PushQuietly(u, After(u, es), q, x);
      Extend(u, es, Respond(x));
      fs := PushAll(u, es + [Respond(x)], q, x + 1, y);
    }
  }

  /** The first call starts the requests and returns with nothing. */
  lemma FirstEagerCall<B>(u: Setup<B>)
    requires u.start < u.highest && u.config.minSize < 1 && u.config.maxBlockRequests >= 2
    ensures Legal(u, [Call]) && At(u, After(u, [Call]), u.start, u.start + 1, 0)
  {
    var es := [Call];
    assert es[..0] == [];
    assert After(u, es[..0]) == Init(u);
    NoneReady(Init(u).q, u.config);
    FirstFill(u);
    NoneDropped<B>();
    FlatAppend(Init(u).batches, []);
  }

  lemma NoneDropped<B>()
    ensures Dropping<B>([], Indices<B>([])) == []
  {}

  lemma FirstFill<B>(u: Setup<B>)
    requires u.start < u.highest && u.config.maxBlockRequests >= 2
    ensures var q := Init(u).q;
            && NextRequestCount(q, u.highest, u.config) > 0
            && Filled(q, u.highest, u.config) == Spread(u, u.start, u.start + 1, 0)
            && Filled(Filled(q, u.highest, u.config), u.highest, u.config) == Filled(q, u.highest, u.config)
  {
    var n := NextRequestCount(Init(u).q, u.highest, u.config);
    RangeHead(u.start, n);
    assert [] + Range(u.start, n) == Range(u.start, n);
    var f := Filled(Init(u).q, u.highest, u.config);
    assert f.requests + Range(f.blockIndex, 0) == f.requests;
  }

  /** The block due arrives with no caller waiting. */
  lemma HeadStays<B>(u: Setup<B>, q: nat)
    requires q + 1 < u.highest && u.config.maxBlockRequests >= 2
    ensures var s := Spread(u, q, q + 1, 0);
            var w := Wrapper(q, u.src(q));
            Responded(s, q, u.src(q), u.highest, u.config) == (Held(u, q), None)
  {
    hide Without, Chunk, Range, Filled, Ready, Beyond, Spread;
    var n := Beyond(u, q, q + 1);
    SpreadIs(u, q, q + 1, 0);
    SpreadRequests(q, q + 1, n);
    var w := Wrapper(q, u.src(q));
    assert Chunk(u, q + 1, 0) == [] && [] + [w] == [w];
    FilledHeld(u, q);
  }

  /** How many requests are in flight behind a single ready block. */
  function Behind<B>(u: Setup<B>, q: nat): nat
    requires q + 1 < u.highest && u.config.maxBlockRequests >= 2
  { Min(u.highest - q - 1, Min(u.config.maxBlockRequests, MAX_READY - 1)) }

  /** Block q is ready, nobody waits, and requests go on from q + 1. */
  function Held<B>(u: Setup<B>, q: nat): State<B>
    requires q + 1 < u.highest && u.config.maxBlockRequests >= 2
  { State([Wrapper(q, u.src(q))], q + 1 + Behind(u, q), Range(q + 1, Behind(u, q)), 0) }

  lemma FilledHeld<B>(u: Setup<B>, q: nat)
    requires q + 1 < u.highest && u.config.maxBlockRequests >= 2
    ensures var n := Beyond(u, q, q + 1);
            Filled(State([Wrapper(q, u.src(q))], q + 1 + n, Range(q + 1, n), 0), u.highest, u.config) == Held(u, q)
  {
    hide Range;
    var n := Beyond(u, q, q + 1);
    var s: State<B> := State([Wrapper(q, u.src(q))], q + 1 + n, Range(q + 1, n), 0);
    RangeJoin(q + 1, n, NextRequestCount(s, u.highest, u.config));
  }

  /** A caller takes the single ready block. */
  lemma TakeHeld<B>(u: Setup<B>, q: nat)
    requires q + 1 < u.highest && u.config.maxBlockRequests >= 2 && u.config.minSize < 1 && u.config.maxSize >= 1
    ensures Called(Held(u, q), u.highest, u.config) == (Spread(u, q + 1, q + 2, 0), Some([Wrapper(q, u.src(q))]))
  {
    hide Range, Ready, Chunk, Dropping, Sorted, Spread, Blocked;
    var h, w := Held(u, q), Wrapper(q, u.src(q));
    assert Sorted([w]) == Chunk(u, q, 1) == [w] by { SortedOne(u, q); }
    HeadIsFirst(q + 1, Behind(u, q), q);
    ReadyOf(u, h, q, 1);
    assert h.requests[0] == q + 1;
    FilledStays(u, q);
    TakenOne(w);
    FilledNext(u, q);
  }

  lemma SortedOne<B>(u: Setup<B>, q: nat)
    ensures Sorted([Wrapper(q, u.src(q))]) == Chunk(u, q, 1) == [Wrapper(q, u.src(q))]
  {
    SortedChunk(u, q, 1);
    assert Chunk(u, q, 1) == [Wrapper(q, u.src(q))];
  }

  lemma TakenOne<B>(w: Wrapper<B>)
    ensures Dropping([w], Indices([w])) == []
  {
    assert Indices([w])[0] == w.index;
    DroppingAll([w], Indices([w]));
  }

  lemma FilledStays<B>(u: Setup<B>, q: nat)
    requires q + 1 < u.highest && u.config.maxBlockRequests >= 2
    ensures Filled(Held(u, q), u.highest, u.config) == Held(u, q)
  {
    hide Range;
    var h := Held(u, q);
    assert NextRequestCount(h, u.highest, u.config) == 0;
    assert Range(h.blockIndex, 0) == [] && h.requests + [] == h.requests;
  }

  lemma FilledNext<B>(u: Setup<B>, q: nat)
    requires q + 1 < u.highest && u.config.maxBlockRequests >= 2
    ensures Filled(State([], q + 1 + Behind(u, q), Range(q + 1, Behind(u, q)), 0), u.highest, u.config)
         == Spread(u, q + 1, q + 2, 0)
  {
    hide Range;
    var n := Behind(u, q);
    var s: State<B> := State([], q + 1 + n, Range(q + 1, n), 0);
    var m := NextRequestCount(s, u.highest, u.config);
    RangeJoin(q + 1, n, m);
    RangeHead(q + 1, n + m);
  }

  /** Block q is received and taken. */
  lemma OneOn<B>(u: Setup<B>, es: seq<Event>, q: nat) returns (fs: seq<Event>)
    requires Legal(u, es) && At(u, After(u, es), q, q + 1, 0) && q + 1 < u.highest
    requires u.config.maxBlockRequests >= 2 && u.config.minSize < 1 && u.config.maxSize >= 1
    ensures Legal(u, fs) && At(u, After(u, fs), q + 1, q + 2, 0)
  {
    hide After, Legal, Flat, Responded, Called, Spread, Held;
    var s := After(u, es);
    assert s.q.requests[0] == q by { SpreadIs(u, q, q + 1, 0); }
    HeadStays(u, q);
    Extend(u, es, Respond(q));
    var mid := es + [Respond(q)];
    assert Held(u, q).listeners == 0 by { NobodyWaits(u, q); }
    TakeHeld(u, q);
    Extend(u, mid, Call);
    fs := mid + [Call];
    FlatAppend(s.batches, [Wrapper(q, u.src(q))]);
  }

  lemma NobodyWaits<B>(u: Setup<B>, q: nat)
    requires q + 1 < u.highest && u.config.maxBlockRequests >= 2
    ensures Held(u, q).listeners == 0
  {}

  lemma {:induction false} ReachEager<B>(u: Setup<B>, q: nat) returns (es: seq<Event>)
    requires u.start <= q < u.highest
    requires u.config.maxBlockRequests >= 2 && u.config.minSize < 1 && u.config.maxSize >= 1
    ensures Legal(u, es) && At(u, After(u, es), q, q + 1, 0)
    decreases q
  {
    hide After, Legal, At;
    if q == u.start {
      FirstEagerCall(u);
      es := [Call];
    } else {
      var prev := ReachEager(u, q - 1);
      es := OneOn(u, prev, q - 1);
    }
  }

  /** A caller finds q in flight, unblocked blocks after it, and takes them. */
  lemma EagerCall<B>(u: Setup<B>, s: Session<B>, q: nat, x: nat)
    requires At(u, s, q, x, 0) && q + 1 < x && u.config.minSize < 1 && u.config.maxSize >= 1
    requires !Blocked(s.q.requests, q + 1)
    ensures Enabled(s, Call) && Misordered(u, Next(u, s, Call))
  {
    hide Flat, Counting, Ready, Chunk, Range, Filled, Blocked, Sorted, Beyond;
    SortedChunk(u, q + 1, x - q - 1);
    ReadyOf(u, s.q, q + 1, x - q - 1);
    WrongStart(u, s.batches, Ready(s.q, u.config));
  }

  lemma EagerMisorders<B>(u: Setup<B>) returns (es: seq<Event>)
    requires Risky(u) && u.config.minSize < 1
    ensures Legal(u, es) && Misordered(u, After(u, es))
  {
    var q: nat, t: nat :| Reached(u, q, t) && Overtaken(u, q);
    hide Enabled, Next, After, Legal, Misordered, Makes, Before, Blocked, Spread, Flat, Counting;
    es := ReachEager(u, q);
    if q == 0 && u.config.maxBlockRequests >= 2 && Need(u.config) < u.highest {
      es := PushAll(u, es, 0, 1, 2);
      SpreadIs(u, 0, 2, 0);
      UnblockedZero(2, Beyond(u, 0, 2));
      EagerCall(u, After(u, es), 0, 2);
    } else {
      var r: nat :| Overtakes(u, q, r);
      es := PushAll(u, es, q, q + 1, r);
      SpreadIs(u, q, r, 0);
      BeyondSome(u, q, r);
      Unblocked(q, r, Beyond(u, q, r), r);
      EagerCall(u, After(u, es), q, r);
    }
    Extend(u, es, Call);
    es := es + [Call];
  }

  // ----- A run out of order makes the setup risky -----

  /** Nobody waits; a single request slot only ever holds the newest index. */
  ghost predicate Eager<B>(u: Setup<B>, q: State<B>) {
    q.listeners == 0 && (u.config.maxBlockRequests <= 1 ==> q.requests == [] || q.requests == [q.blockIndex - 1])
  }

  lemma EagerFilled<B>(u: Setup<B>, q: State<B>)
    requires Eager(u, q)
    ensures Eager(u, Filled(q, u.highest, u.config))
  {
    var n := NextRequestCount(q, u.highest, u.config);
    if u.config.maxBlockRequests <= 1 && n > 0 {
      assert n == 1 && q.requests == [];
      assert Range(q.blockIndex, 0) == [];
    } else if n == 0 {
      assert q.requests + Range(q.blockIndex, 0) == q.requests;
    }
  }

  lemma EagerArrived<B>(u: Setup<B>, q: State<B>, i: nat)
    requires Eager(u, q) && i in q.requests
    ensures Eager(u, Arrived(q, i, u.src(i)))
  {
    if u.config.maxBlockRequests <= 1 { WithoutOne(i, i); }
  }

  lemma AnyPace(c: Config, d: nat)
    requires c.minSize < 1 && c.maxSize >= 1
    ensures Makes(c, d, d)
  {
    TimesOrder(d, Least(c), 0);
    TimesOrder(d, 1, Most(c));
    assert Times(d, 1) == d;
  }

  lemma EagerWrongStart<B>(u: Setup<B>, q: State<B>, out: seq<Wrapper<B>>)
    requires u.config.minSize < 1 && Balanced(u, q, out) && Bounded(u, q) && Counting(out, u.start) && Eager(u, q)
    requires Ready(q, u.config) != [] && Ready(q, u.config)[0].index != u.start + |out|
    ensures Risky(u)
  {
    hide Ready, Balanced, Bounded, Before, LexMin, Makes, Counting;
    var d := u.start + |out|;
    ReadyShape(u, q);
    BoundedSum(u, q);
    WrongStartMeans(u, q, out);
    AnyPace(u.config, |out|);
    OnlyNewest(u, q, out);
    var l := LexMin(q.requests);
    if l != 0 { assert Overtakes(u, d, l); }
    assert Reached(u, d, |out|) && Overtaken(u, d);
  }

  lemma EagerStart<B>(u: Setup<B>, q: State<B>, out: seq<Wrapper<B>>)
    requires !Risky(u) && u.config.minSize < 1 && Balanced(u, q, out) && Bounded(u, q) && Counting(out, u.start)
    requires Eager(u, q) && Ready(q, u.config) != []
    ensures Ready(q, u.config)[0].index == u.start + |out|
  {
    hide Ready, Risky, Balanced, Bounded, Counting, Eager;
    if Ready(q, u.config)[0].index != u.start + |out| { EagerWrongStart(u, q, out); }
  }

  /** With one request slot nothing later than the request in flight is ready. */
  lemma OnlyNewest<B>(u: Setup<B>, q: State<B>, out: seq<Wrapper<B>>)
    requires Balanced(u, q, out) && Bounded(u, q) && Counting(out, u.start) && Eager(u, q) && Ready(q, u.config) != []
    requires u.start + |out| in q.requests && Ready(q, u.config)[0].index != u.start + |out|
    ensures u.config.maxBlockRequests >= 2
  {
    hide Ready, Balanced, Bounded, Counting;
    ReadyShape(u, q);
    Outstanding(u, q, out, Ready(q, u.config)[0].index);
  }

  lemma EagerBatch<B>(u: Setup<B>, s: Session<B>)
    requires !Risky(u) && u.config.minSize < 1 && Inv(u, s) && Eager(u, s.q) && Counting(Flat(s.batches), u.start)
    ensures Counting(Flat(s.batches + [Ready(s.q, u.config)]), u.start)
  {
    hide Risky, Inv, Ready, Flat, Eager, Balanced, Bounded;
    InvParts(u, s);
    var out, batch := Flat(s.batches), Ready(s.q, u.config);
    FlatAppend(s.batches, batch);
    if batch != [] {
      EagerStart(u, s.q, out);
      ReadyShape(u, s.q);
    }
  }

  lemma EagerCalled<B>(u: Setup<B>, s: Session<B>)
    requires u.config.minSize < 1 && Eager(u, s.q)
    ensures Eager(u, Next(u, s, Call).q) && Next(u, s, Call).batches == s.batches + [Ready(s.q, u.config)]
  {
    hide Ready, Dropping, Filled, Range;
    var batch, filled := Ready(s.q, u.config), Filled(s.q, u.highest, u.config);
    EagerFilled(u, s.q);
    EagerFilled(u, Released(s.q, batch));
    EagerFilled(u, Released(filled, batch));
  }

  lemma {:induction false} EagerRuns<B>(u: Setup<B>, es: seq<Event>)
    requires !Risky(u) && u.config.minSize < 1 && Legal(u, es)
    ensures var s := After(u, es); Eager(u, s.q) && Counting(Flat(s.batches), u.start)
  {
    hide Risky, Inv, Flat, Called, Filled, Counting, Ready, Without, Dropping, Eager;
    if es == [] {
      NothingDelivered(u);
      StartsEager(u);
    } else {
      var s := After(u, es[..|es| - 1]);
      EagerRuns(u, es[..|es| - 1]);
      ReachableInv(u, es[..|es| - 1]);
      match es[|es| - 1] {
        case Call =>
          EagerCalled(u, s);
          EagerBatch(u, s);
        case Respond(i) =>
          assert s.q.listeners == 0 by { EagerAlone(u, s.q); }
          EagerArrived(u, s.q, i);
          EagerFilled(u, Arrived(s.q, i, u.src(i)));
        case Fail(_) =>
      }
    }
  }

  lemma StartsEager<B>(u: Setup<B>)
    ensures Eager(u, Init(u).q)
  {}

  lemma EagerAlone<B>(u: Setup<B>, q: State<B>)
    requires Eager(u, q)
    ensures q.listeners == 0
  {}

  // ----- Every configuration -----

  /** For every range, batch sizes and number of requests in flight: all runs deliver in ascending order
      exactly when the setup is not risky. */
  lemma OrderedIffNotRisky<B>(u: Setup<B>)
    ensures (forall es: seq<Event> :: Legal(u, es) ==> Counting(Flat(After(u, es).batches), u.start)) <==> !Risky(u)
  {
    hide Risky, Legal, After;
    if Risky(u) {
      if u.config.minSize < 1 {
        var es := EagerMisorders(u);
      } else {
        var es := RiskyMisorders(u);
      }
    } else {
      forall es: seq<Event> | Legal(u, es) ensures Counting(Flat(After(u, es).batches), u.start) {
        if u.config.maxSize == 0 {
          NothingEver(u, es);
        } else if u.config.minSize < 1 {
          EagerRuns(u, es);
        } else {
          KeepsPace(u, es);
        }
      }
    }
  }
}
