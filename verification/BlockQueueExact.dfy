/** Exactly when every run of the block queue hands out its blocks in ascending order. */
module BlockQueueExact {
  import opened Options
  import opened DecimalOrder
  import opened Indexes
  import opened BlockQueues
  import opened BlockQueueRuns
  import opened BlockQueueOrder

  /** The sizes a batch can have while blocks are still to come. */
  function Least(c: Config): int { Min(c.minSize, MAX_READY) }

  function Most(c: Config): int { Min(c.maxSize, MAX_READY) }

  /** The smallest batch that is not empty. */
  function Need(c: Config): int { if c.minSize < 1 then 1 else c.minSize }

  /** d blocks make up t batches of such sizes. */
  predicate Makes(c: Config, d: nat, t: nat) { Times(t, Least(c)) <= d <= Times(t, Most(c)) }

  function Times(t: nat, n: int): int { t * n }

  /** While q is in flight the request r passes for the oldest, and a full batch fits in between. */
  predicate Overtakes<B>(u: Setup<B>, q: nat, r: nat) {
    && q + Need(u.config) < r < u.highest && r < q + MAX_READY && Before(r, q)
    && (|| u.config.maxBlockRequests >= 3
        || (u.config.maxBlockRequests == 2 && (q > u.start || u.config.minSize < 1)))
  }

  /** A batch that starts after q can be handed out before q. */
  ghost predicate Overtaken<B>(u: Setup<B>, q: nat) {
    || (q == 0 && u.config.maxBlockRequests >= 2 && Need(u.config) < MAX_READY && Need(u.config) < u.highest)
    || exists r: nat :: Overtakes(u, q, r)
  }

  predicate Reached<B>(u: Setup<B>, q: nat, t: nat) { u.start <= q < u.highest && Makes(u.config, q - u.start, t) }

  /** Some index at which a batch can begin can be overtaken. */
  ghost predicate Risky<B>(u: Setup<B>) {
    Need(u.config) <= u.config.maxSize && exists q: nat, t: nat :: Reached(u, q, t) && Overtaken(u, q)
  }

  // ----- A risky setup has a run out of order -----

  function Chunk<B>(u: Setup<B>, a: nat, n: nat): (ws: seq<Wrapper<B>>)
    ensures |ws| == n && forall i :: 0 <= i < n ==> ws[i] == Wrapper(a + i, u.src(a + i))
  { if n == 0 then [] else Chunk(u, a, n - 1) + [Wrapper(a + n - 1, u.src(a + n - 1))] }

  /** How many requests beyond x - 1 are in flight while q is. */
  function Beyond<B>(u: Setup<B>, q: nat, x: nat): nat {
    var n := Min(u.config.maxBlockRequests - 1, Min(MAX_READY - (x - q), u.highest - x));
    if n < 0 then 0 else n
  }

  /** q is in flight, everything from q + 1 to x - 1 is ready, and requests go on from x. */
  function Spread<B>(u: Setup<B>, q: nat, x: nat, listeners: nat): State<B>
    requires q < x
  { State(Chunk(u, q + 1, x - q - 1), x + Beyond(u, q, x), [q] + Range(x, Beyond(u, q, x)), listeners) }

  ghost predicate At<B>(u: Setup<B>, s: Session<B>, q: nat, x: nat, listeners: nat) {
    && u.start <= q < x <= u.highest && x <= q + MAX_READY && s.q == Spread(u, q, x, listeners)
    && Counting(Flat(s.batches), u.start) && |Flat(s.batches)| == q - u.start
  }

  ghost predicate Misordered<B>(u: Setup<B>, s: Session<B>) { !Counting(Flat(s.batches), u.start) }

  lemma {:induction false} WithoutConcat(a: seq<nat>, b: seq<nat>, x: nat)
    ensures Without(a + b, x) == Without(a, x) + Without(b, x)
  {
    if b == [] {
      assert a + b == a;
    } else {
      var n := |b| - 1;
      assert (a + b)[..|a| + n] == a + b[..n];
      WithoutConcat(a, b[..n], x);
    }
  }

  lemma {:induction false} WithoutAbsent(s: seq<nat>, x: nat)
    requires x !in s
    ensures Without(s, x) == s
  {
    if s != [] {
      assert s == s[..|s| - 1] + [s[|s| - 1]];
      WithoutAbsent(s[..|s| - 1], x);
    }
  }

  lemma WithoutOne(q: nat, x: nat)
    ensures Without([q], x) == if q == x then [] else [q]
  {
    assert [q][..0] == [];
  }

  lemma RangeHead(x: nat, n: nat)
    requires n > 0
    ensures Range(x, n) == [x] + Range(x + 1, n - 1)
  {}

  lemma SpreadRequests(q: nat, x: nat, n: nat)
    requires q < x
    ensures Without([q] + Range(x, n), q) == Range(x, n)
    ensures n > 0 ==> Without([q] + Range(x, n), x) == [q] + Range(x + 1, n - 1)
  {
    hide Without;
    WithoutConcat([q], Range(x, n), q);
    WithoutOne(q, q);
    WithoutAbsent(Range(x, n), q);
    if n > 0 {
      RangeHead(x, n);
      WithoutConcat([q], Range(x, n), x);
      WithoutConcat([x], Range(x + 1, n - 1), x);
      WithoutOne(q, x);
      WithoutOne(x, x);
      WithoutAbsent(Range(x + 1, n - 1), x);
    }
  }

  lemma {:induction false} SortedChunk<B>(u: Setup<B>, a: nat, n: nat)
    ensures Sorted(Chunk(u, a, n)) == Chunk(u, a, n)
  {
    if n > 0 {
      SortedChunk(u, a, n - 1);
      assert Chunk(u, a, n)[..n - 1] == Chunk(u, a, n - 1);
    }
  }

  lemma {:induction false} InsertFront<B>(ws: seq<Wrapper<B>>, w: Wrapper<B>)
    requires forall i :: 0 <= i < |ws| ==> ws[i].index > w.index
    ensures Insert(ws, w) == [w] + ws
  {
    if ws != [] {
      InsertFront(ws[..|ws| - 1], w);
      assert ws == ws[..|ws| - 1] + [ws[|ws| - 1]];
    }
  }

  lemma SortedAppend<B>(ws: seq<Wrapper<B>>, w: Wrapper<B>)
    ensures Sorted(ws + [w]) == Insert(Sorted(ws), w)
  {
    hide Insert;
    assert (ws + [w])[..|ws|] == ws;
  }

  lemma ChunkHead<B>(u: Setup<B>, p: nat, n: nat)
    ensures [Wrapper(p, u.src(p))] + Chunk(u, p + 1, n) == Chunk(u, p, n + 1)
  {
    hide Chunk;
  }

  /** The oldest block comes last and is sorted to the front. */
  lemma SortedLate<B>(u: Setup<B>, p: nat, n: nat)
    ensures Sorted(Chunk(u, p + 1, n) + [Wrapper(p, u.src(p))]) == Chunk(u, p, n + 1)
  {
    hide Sorted, Insert, Chunk;
    SortedAppend(Chunk(u, p + 1, n), Wrapper(p, u.src(p)));
    SortedChunk(u, p + 1, n);
    InsertFront(Chunk(u, p + 1, n), Wrapper(p, u.src(p)));
    ChunkHead(u, p, n);
  }

  lemma {:induction false} StretchAll<B>(ws: seq<Wrapper<B>>, a: nat)
    requires forall i :: 0 <= i < |ws| ==> ws[i].index == a + i
    ensures Stretch(ws, a) == ws
  {
    if ws != [] {
      StretchAll(ws[1..], a + 1);
      assert ws == [ws[0]] + ws[1..];
    }
  }

  lemma ReadyOf<B>(u: Setup<B>, q: State<B>, a: nat, n: nat)
    requires Sorted(q.blocks) == Chunk(u, a, n)
    ensures Ready(q, u.config)
         == if n == 0 || Blocked(q.requests, a) then [] else Take(Chunk(u, a, n), u.config.maxSize)
  {
    hide Sorted, Chunk, Blocked;
    StretchAll(Chunk(u, a, n), a);
  }

  /** A batch that does not begin with the next index due is out of order. */
  lemma WrongStart<B>(u: Setup<B>, batches: seq<seq<Wrapper<B>>>, batch: seq<Wrapper<B>>)
    requires batch != [] && batch[0].index != u.start + |Flat(batches)|
    ensures !Counting(Flat(batches + [batch]), u.start)
  {
    FlatAppend(batches, batch);
    assert (Flat(batches) + batch)[|Flat(batches)|] == batch[0];
  }

  lemma NextCount<B>(u: Setup<B>, s: State<B>, q: nat, x: nat)
    requires q < x < u.highest && x < q + MAX_READY && u.config.maxBlockRequests >= 2
    requires |s.blocks| == x - q && |s.requests| == Beyond(u, q, x) && s.blockIndex == x + Beyond(u, q, x)
    ensures Beyond(u, q, x) >= 1
    ensures NextRequestCount(s, u.highest, u.config) == Beyond(u, q, x + 1) - Beyond(u, q, x) + 1
  {}

  lemma FilledSpread<B>(u: Setup<B>, q: nat, x: nat, n: nat)
    requires q < x < u.highest && x < q + MAX_READY && u.config.maxBlockRequests >= 2
    ensures Beyond(u, q, x) >= 1
    ensures var k := Beyond(u, q, x);
            Filled(State(Chunk(u, q + 1, x - q), x + k, [q] + Range(x + 1, k - 1), n), u.highest, u.config)
            == Spread(u, q, x + 1, n)
  {
    hide Chunk, NextRequestCount, Range, Beyond;
    var k := Beyond(u, q, x);
    assert k >= 1 by { BeyondSome(u, q, x); }
    var s: State<B> := State(Chunk(u, q + 1, x - q), x + k, [q] + Range(x + 1, k - 1), n);
    NextCount(u, s, q, x);
    var m := NextRequestCount(s, u.highest, u.config);
    RangeJoin(x + 1, k - 1, m);
    assert [q] + Range(x + 1, k - 1) + Range(x + k, m) == [q] + (Range(x + 1, k - 1) + Range(x + k, m));
  }

  lemma BeyondSome<B>(u: Setup<B>, q: nat, x: nat)
    requires q < x < u.highest && x < q + MAX_READY && u.config.maxBlockRequests >= 2
    ensures Beyond(u, q, x) >= 1
  {}

  /** The block at x arrives while q is still in flight. */
  lemma ArrivesAhead<B>(u: Setup<B>, q: nat, x: nat, n: nat)
    requires q < x < u.highest && x < q + MAX_READY && u.config.maxBlockRequests >= 2
    ensures Beyond(u, q, x) >= 1
    ensures Arrived(Spread(u, q, x, n), x, u.src(x))
         == State(Chunk(u, q + 1, x - q), x + Beyond(u, q, x), [q] + Range(x + 1, Beyond(u, q, x) - 1), n)
  {
    hide Without;
    SpreadRequests(q, x, Beyond(u, q, x));
    assert Chunk(u, q + 1, x - q) == Chunk(u, q + 1, x - q - 1) + [Wrapper(x, u.src(x))];
  }

  /** Whether the arrival of x completes a batch that may go before q. */
  predicate Completes<B>(u: Setup<B>, t: State<B>, q: nat, x: nat) {
    !Blocked(t.requests, q + 1) && u.config.minSize <= Min(x - q, u.config.maxSize)
  }

  /** Either nothing is handed out, or a batch that starts at q + 1 is. */
  lemma RespondAhead<B>(u: Setup<B>, q: nat, x: nat, n: nat)
    requires q < x < u.highest && x < q + MAX_READY && u.config.minSize >= 1 && u.config.maxBlockRequests >= 2
    ensures var s := Spread(u, q, x, n);
            var (next, batch) := Responded(s, x, u.src(x), u.highest, u.config);
            if n > 0 && Completes(u, Arrived(s, x, u.src(x)), q, x)
            then batch.Some? && batch.value != [] && batch.value[0].index == q + 1
            else next == Spread(u, q, x + 1, n) && batch == None
  {
    hide Ready, Without, Chunk, Range, Filled, Blocked, Arrived, Sorted, Beyond;
    ArrivesAhead(u, q, x, n);
    FilledSpread(u, q, x, n);
    var t := Arrived(Spread(u, q, x, n), x, u.src(x));
    assert t.requests != [];
    SortedChunk(u, q + 1, x - q);
    ReadyOf(u, t, q + 1, x - q);
  }

  lemma InFlightAhead<B>(u: Setup<B>, q: nat, x: nat, n: nat)
    requires q < x < u.highest && x < q + MAX_READY && u.config.maxBlockRequests >= 2
    ensures x in Spread(u, q, x, n).requests && q in Spread(u, q, x, n).requests
  {
    hide Chunk, Range, Beyond;
    BeyondSome(u, q, x);
    var s := Spread(u, q, x, n).requests;
    assert s[1] == x && s[0] == q;
  }

  lemma PushOne<B>(u: Setup<B>, s: Session<B>, q: nat, x: nat, n: nat)
    requires At(u, s, q, x, n) && x < u.highest && x < q + MAX_READY
    requires u.config.minSize >= 1 && u.config.maxBlockRequests >= 2
    ensures Enabled(s, Respond(x))
    ensures var next := Next(u, s, Respond(x));
            if n > 0 && Completes(u, Arrived(s.q, x, u.src(x)), q, x) then Misordered(u, next)
            else At(u, next, q, x + 1, n)
  {
    hide Flat, Responded, Spread, Arrived, Completes, Counting;
    InFlightAhead(u, q, x, n);
    RespondAhead(u, q, x, n);
    var batch := Responded(s.q, x, u.src(x), u.highest, u.config).1;
    if batch.Some? { WrongStart(u, s.batches, batch.value); }
  }

  lemma Extend<B>(u: Setup<B>, es: seq<Event>, e: Event)
    requires Legal(u, es) && Enabled(After(u, es), e)
    ensures Legal(u, es + [e]) && After(u, es + [e]) == Next(u, After(u, es), e)
  {
    hide Enabled, Next, Init;
    assert (es + [e])[..|es|] == es;
  }

  /** Blocks x to y - 1 arrive in turn. */
  lemma {:induction false} Push<B>(u: Setup<B>, es: seq<Event>, q: nat, x: nat, y: nat, n: nat) returns (fs: seq<Event>)
    requires Legal(u, es) && At(u, After(u, es), q, x, n) && x <= y <= u.highest && y <= q + MAX_READY
    requires u.config.minSize >= 1 && u.config.maxBlockRequests >= 2
    ensures Legal(u, fs) && (Misordered(u, After(u, fs)) || At(u, After(u, fs), q, y, n))
    ensures n == 0 ==> At(u, After(u, fs), q, y, n)
    decreases y - x
  {
    hide Enabled, Next, After, Legal, Spread, Counting, Flat, Completes, Arrived;
    if x == y {
      fs := es;
    } else {
      PushOne(u, After(u, es), q, x, n);
      Extend(u, es, Respond(x));
      fs := es + [Respond(x)];
      if n == 0 || !Misordered(u, After(u, fs)) { fs := Push(u, fs, q, x + 1, y, n); }
    }
  }

  lemma NextCountAfter<B>(u: Setup<B>, s: State<B>, p: nat, q: nat)
    requires p < q < u.highest && q <= p + MAX_READY && u.config.maxBlockRequests >= 2
    requires s.blocks == [] && |s.requests| == Beyond(u, p, q) && s.blockIndex == q + Beyond(u, p, q)
    ensures NextRequestCount(s, u.highest, u.config) == 1 + Beyond(u, q, q + 1) - Beyond(u, p, q)
  {}

  lemma FilledAfter<B>(u: Setup<B>, p: nat, q: nat)
    requires p < q < u.highest && q <= p + MAX_READY && u.config.maxBlockRequests >= 2
    ensures Filled(State([], q + Beyond(u, p, q), Range(q, Beyond(u, p, q)), 0), u.highest, u.config)
            == Spread(u, q, q + 1, 0)
  {
    hide Beyond, NextRequestCount, Range;
    var k := Beyond(u, p, q);
    var s: State<B> := State([], q + k, Range(q, k), 0);
    NextCountAfter(u, s, p, q);
    var m := NextRequestCount(s, u.highest, u.config);
    RangeJoin(q, k, m);
    RangeHead(q, k + m);
  }

  lemma {:induction false} DroppingAll<B>(ws: seq<Wrapper<B>>, gone: seq<nat>)
    requires forall i :: 0 <= i < |ws| ==> ws[i].index in gone
    ensures Dropping(ws, gone) == []
  {
    if ws != [] { DroppingAll(ws[..|ws| - 1], gone); }
  }

  lemma AllGone<B>(u: Setup<B>, p: nat, k: nat)
    requires k >= 1
    ensures Dropping(Chunk(u, p + 1, k - 1) + [Wrapper(p, u.src(p))], Indices(Chunk(u, p, k))) == []
  {
    var ws, gone := Chunk(u, p + 1, k - 1) + [Wrapper(p, u.src(p))], Indices(Chunk(u, p, k));
    forall i | 0 <= i < |ws| ensures ws[i].index in gone {
      assert gone[if i < k - 1 then i + 1 else 0] == ws[i].index;
    }
    DroppingAll(ws, gone);
  }

  lemma HeadIsFirst(q: nat, n: nat, p: nat)
    requires p < q
    ensures !Blocked(Range(q, n), p)
  {
    hide LexMin, Range;
    if n > 0 { assert LexMin(Range(q, n)) in Range(q, n); }
  }

  /** The oldest block arrives last: exactly the k blocks from it on are handed out. */
  lemma RespondHead<B>(u: Setup<B>, p: nat, k: nat)
    requires 1 <= k <= MAX_READY && p + k < u.highest && u.config.maxBlockRequests >= 2
    requires k <= u.config.maxSize && (k >= u.config.minSize || k == MAX_READY)
    ensures Responded(Spread(u, p, p + k, 1), p, u.src(p), u.highest, u.config)
         == (Spread(u, p + k, p + k + 1, 0), Some(Chunk(u, p, k)))
  {
    hide Ready, Without, Chunk, Range, Filled, Dropping, Blocked, Sorted, Spread, Beyond;
    var q, n := p + k, Beyond(u, p, p + k);
    SpreadIs(u, p, q, 1);
    SpreadRequests(p, q, n);
    var t := Arrived(Spread(u, p, q, 1), p, u.src(p));
    assert t == State(Chunk(u, p + 1, k - 1) + [Wrapper(p, u.src(p))], q + n, Range(q, n), 1);
    SortedLate(u, p, k - 1);
    ReadyOf(u, t, p, k);
    HeadIsFirst(q, n, p);
    assert Ready(t, u.config) == Chunk(u, p, k);
    if k == MAX_READY { BeyondNone(u, p, q); }
    AllGone(u, p, k);
    FilledAfter(u, p, q);
  }

  lemma BeyondNone<B>(u: Setup<B>, p: nat, q: nat)
    requires q == p + MAX_READY
    ensures Beyond(u, p, q) == 0
  {}

  lemma HeadArrives<B>(u: Setup<B>, s: Session<B>, p: nat, k: nat)
    requires k >= 1 && At(u, s, p, p + k, 1) && p + k < u.highest && u.config.maxBlockRequests >= 2
    requires k <= u.config.maxSize && (k >= u.config.minSize || k == MAX_READY)
    ensures Enabled(s, Respond(p)) && At(u, Next(u, s, Respond(p)), p + k, p + k + 1, 0)
  {
    hide Flat, Responded, Spread, Chunk;
    assert s.q.requests[0] == p by { SpreadIs(u, p, p + k, 1); }
    RespondHead(u, p, k);
    FlatAppend(s.batches, Chunk(u, p, k));
  }

  lemma SpreadIs<B>(u: Setup<B>, q: nat, x: nat, n: nat)
    requires q < x
    ensures Spread(u, q, x, n)
         == State(Chunk(u, q + 1, x - q - 1), x + Beyond(u, q, x), [q] + Range(x, Beyond(u, q, x)), n)
  {}

  lemma NoneReady<B>(q: State<B>, c: Config)
    requires q.blocks == []
    ensures Ready(q, c) == []
  {}

  lemma CallWaits<B>(u: Setup<B>, s: Session<B>, q: nat)
    requires At(u, s, q, q + 1, 0) && u.config.minSize >= 1 && u.config.maxBlockRequests >= 2
    ensures Enabled(s, Call) && At(u, Next(u, s, Call), q, q + 1, 1)
  {
    hide Ready, Range, Flat;
    NoneReady(s.q, u.config);
    assert NextRequestCount(s.q, u.highest, u.config) == 0;
    assert Range(s.q.blockIndex, 0) == [];
    assert s.q.requests + [] == s.q.requests;
  }

  lemma FirstCall<B>(u: Setup<B>)
    requires u.start < u.highest && u.config.minSize >= 1 && u.config.maxBlockRequests >= 2
    ensures Legal(u, [Call]) && At(u, After(u, [Call]), u.start, u.start + 1, 1)
  {
    var es := [Call];
    assert es[..0] == [];
    assert After(u, es[..0]) == Init(u);
    NoneReady(Init(u).q, u.config);
    var n := NextRequestCount(Init(u).q, u.highest, u.config);
    RangeHead(u.start, n);
    assert [] + Range(u.start, n) == Range(u.start, n);
  }

  /** The batch that leads to q. */
  lemma LastSize(c: Config, d: nat, t: nat) returns (k: nat)
    requires t > 0 && Makes(c, d, t) && 1 <= c.minSize <= c.maxSize
    ensures Least(c) <= k <= Most(c) && k <= d && Makes(c, d - k, t - 1)
  {
    var lo, hi := Least(c), Most(c);
    assert Times(t, lo) == Times(t - 1, lo) + lo && Times(t, hi) == Times(t - 1, hi) + hi;
    assert Times(t - 1, lo) <= Times(t - 1, hi) by { TimesOrder(t - 1, lo, hi); }
    assert Times(t - 1, lo) >= 0 by { TimesOrder(t - 1, 0, lo); }
    k := if d - Times(t - 1, lo) <= hi then d - Times(t - 1, lo) else hi;
  }

  lemma TimesOrder(t: nat, a: int, b: int)
    requires a <= b
    ensures Times(t, a) <= Times(t, b) && Times(t, 0) == 0
  {}

  lemma OneMoreBatch<B>(u: Setup<B>, es: seq<Event>, p: nat, k: nat) returns (fs: seq<Event>)
    requires Legal(u, es) && At(u, After(u, es), p, p + 1, 1) && p + k < u.highest
    requires 1 <= u.config.minSize <= u.config.maxSize && u.config.maxBlockRequests >= 2
    requires Least(u.config) <= k <= Most(u.config)
    ensures Legal(u, fs) && (Misordered(u, After(u, fs)) || At(u, After(u, fs), p + k, p + k + 1, 0))
  {
    hide Enabled, Next, After, Legal, At, Misordered;
    fs := Push(u, es, p, p + 1, p + k, 1);
    if !Misordered(u, After(u, fs)) {
      HeadArrives(u, After(u, fs), p, k);
      Extend(u, fs, Respond(p));
      fs := fs + [Respond(p)];
    }
  }

  /** Every index that batches can lead to is waited for in some run, or a run is out of order. */
  lemma {:induction false} ReachWaiting<B>(u: Setup<B>, q: nat, t: nat) returns (es: seq<Event>)
    requires Reached(u, q, t) && 1 <= u.config.minSize <= u.config.maxSize && u.config.maxBlockRequests >= 2
    ensures Legal(u, es) && (Misordered(u, After(u, es)) || At(u, After(u, es), q, q + 1, 1))
    decreases t
  {
    hide Enabled, Next, After, Legal, At, Misordered, Makes;
    if t == 0 {
      NoBatches(u.config, q - u.start);
      FirstCall(u);
      es := [Call];
    } else {
      var k := LastSize(u.config, q - u.start, t);
      es := ReachWaiting(u, q - k, t - 1);
      if !Misordered(u, After(u, es)) {
        es := OneMoreBatch(u, es, q - k, k);
        if !Misordered(u, After(u, es)) {
          CallWaits(u, After(u, es), q);
          Extend(u, es, Call);
          es := es + [Call];
        }
      }
    }
  }

  lemma NoBatches(c: Config, d: nat)
    requires Makes(c, d, 0)
    ensures d == 0
  {}

  /** With q in flight but not oldest in string order, nothing holds back what comes after it. */
  lemma Unblocked(q: nat, x: nat, n: nat, r: nat)
    requires q < x && x <= r < x + n && Before(r, q)
    ensures !Blocked([q] + Range(x, n), q + 1)
  {
    hide Before, LexMin;
    var s := [q] + Range(x, n);
    assert s[1 + (r - x)] == r;
    LexMinLeast(s, r);
    var l := LexMin(s);
    assert l in s && l != q;
  }

  lemma UnblockedZero(x: nat, n: nat)
    requires 0 < x
    ensures !Blocked([0] + Range(x, n), 1)
  {
    hide Before, LexMin;
    var s := [0] + Range(x, n);
    assert s[0] == 0;
    var l := LexMin(s);
    LexMinLeast(s, 0);
    if l != 0 { ZeroComesFirst(l); }
  }

  lemma ZeroComesFirst(x: nat)
    requires x > 0
    ensures Before(0, x)
  {
    BeforeIs(0, x);
    DigitsMonotone(0, x);
  }

  /** The arrival of r - 1 completes a batch that r lets go before q. */
  lemma CompletesThere<B>(u: Setup<B>, q: nat, r: nat)
    requires Overtakes(u, q, r) && 1 <= u.config.minSize <= u.config.maxSize && u.config.maxBlockRequests >= 3
    ensures q + 1 < r && Completes(u, Arrived(Spread(u, q, r - 1, 1), r - 1, u.src(r - 1)), q, r - 1)
  {
    hide Before, Blocked, Spread, Arrived, Chunk, Range;
    ArrivesAhead(u, q, r - 1, 1);
    Unblocked(q, r, Beyond(u, q, r - 1) - 1, r);
  }

  /** With three requests in flight, q and r stay while a full batch from q + 1 on completes. */
  lemma OvertakeWaiting<B>(u: Setup<B>, es: seq<Event>, q: nat, r: nat) returns (fs: seq<Event>)
    requires Legal(u, es) && At(u, After(u, es), q, q + 1, 1) && Overtakes(u, q, r)
    requires 1 <= u.config.minSize <= u.config.maxSize && u.config.maxBlockRequests >= 3
    ensures Legal(u, fs) && Misordered(u, After(u, fs))
  {
    hide Enabled, Next, After, Legal, Misordered, Before, Counting, Spread, Flat, Completes, Arrived;
    CompletesThere(u, q, r);
    fs := Push(u, es, q, q + 1, r - 1, 1);
    if !Misordered(u, After(u, fs)) {
      PushOne(u, After(u, fs), q, r - 1, 1);
      Extend(u, fs, Respond(r - 1));
      fs := fs + [Respond(r - 1)];
    }
  }

  /** With two, a caller that comes late finds q and r in flight and everything between them ready. */
  lemma OvertakeLate<B>(u: Setup<B>, es: seq<Event>, q: nat, r: nat) returns (fs: seq<Event>)
    requires Legal(u, es) && At(u, After(u, es), q, q + 1, 0) && Overtakes(u, q, r)
    requires 1 <= u.config.minSize <= u.config.maxSize
    ensures Legal(u, fs) && Misordered(u, After(u, fs))
  {
    hide Enabled, Next, After, Legal, Misordered, Before, Blocked;
    fs := Push(u, es, q, q + 1, r, 0);
    LateCall(u, After(u, fs), q, r);
    Extend(u, fs, Call);
    fs := fs + [Call];
  }

  lemma CalledAhead<B>(u: Setup<B>, q: nat, r: nat)
    requires q < r && Overtakes(u, q, r) && 1 <= u.config.minSize <= u.config.maxSize
    ensures var batch := Called(Spread(u, q, r, 0), u.highest, u.config).1;
            batch.Some? && batch.value != [] && batch.value[0].index == q + 1
  {
    hide Ready, Chunk, Range, Filled, Blocked, Before, Sorted, Beyond;
    BeyondSome(u, q, r);
    Unblocked(q, r, Beyond(u, q, r), r);
    SortedChunk(u, q + 1, r - q - 1);
    ReadyOf(u, Spread(u, q, r, 0), q + 1, r - q - 1);
  }

  lemma LateCall<B>(u: Setup<B>, s: Session<B>, q: nat, r: nat)
    requires At(u, s, q, r, 0) && Overtakes(u, q, r) && 1 <= u.config.minSize <= u.config.maxSize
    ensures Enabled(s, Call) && Misordered(u, Next(u, s, Call))
  {
    hide Flat, Called, Counting, Before;
    CalledAhead(u, q, r);
    WrongStart(u, s.batches, Called(s.q, u.highest, u.config).1.value);
  }

  /** A request for block 0 never holds anything back. */
  lemma OvertakeZero<B>(u: Setup<B>, es: seq<Event>) returns (fs: seq<Event>)
    requires Legal(u, es) && At(u, After(u, es), 0, 1, 1) && u.config.maxBlockRequests >= 2
    requires 1 <= u.config.minSize <= u.config.maxSize && u.config.minSize < MAX_READY && u.config.minSize < u.highest
    ensures Legal(u, fs) && Misordered(u, After(u, fs))
  {
    hide Enabled, Next, After, Legal, Misordered, Before, Blocked, Counting;
    var m := u.config.minSize;
    fs := Push(u, es, 0, 1, m, 1);
    if !Misordered(u, After(u, fs)) {
      var s := After(u, fs);
      ArrivesAhead(u, 0, m, 1);
      UnblockedZero(m + 1, Beyond(u, 0, m) - 1);
      PushOne(u, s, 0, m, 1);
      Extend(u, fs, Respond(m));
      fs := fs + [Respond(m)];
    }
  }

  /** A risky setup has a run that delivers out of order. */
  lemma RiskyMisorders<B>(u: Setup<B>) returns (es: seq<Event>)
    requires Risky(u) && u.config.minSize >= 1
    ensures Legal(u, es) && Misordered(u, After(u, es))
  {
    var q: nat, t: nat :| Reached(u, q, t) && Overtaken(u, q);
    hide Enabled, Next, After, Legal, At, Misordered, Makes;
    if q == 0 && u.config.minSize < MAX_READY && u.config.minSize < u.highest && u.config.maxBlockRequests >= 2 {
      es := ReachWaiting(u, 0, t);
      if !Misordered(u, After(u, es)) { es := OvertakeZero(u, es); }
    } else {
      var r: nat :| Overtakes(u, q, r);
      if u.config.maxBlockRequests >= 3 {
        es := ReachWaiting(u, q, t);
        if !Misordered(u, After(u, es)) { es := OvertakeWaiting(u, es, q, r); }
      } else {
        es := ReachLate(u, q, t);
        if !Misordered(u, After(u, es)) { es := OvertakeLate(u, es, q, r); }
      }
    }
  }

  lemma ReachLate<B>(u: Setup<B>, q: nat, t: nat) returns (es: seq<Event>)
    requires Reached(u, q, t) && q > u.start && 1 <= u.config.minSize <= u.config.maxSize
            && u.config.maxBlockRequests >= 2
    ensures Legal(u, es) && (Misordered(u, After(u, es)) || At(u, After(u, es), q, q + 1, 0))
  {
    hide Enabled, Next, After, Legal, At, Misordered, Makes;
    if t == 0 { NoBatches(u.config, q - u.start); }
    var k := LastSize(u.config, q - u.start, t);
    es := ReachWaiting(u, q - k, t - 1);
    if !Misordered(u, After(u, es)) { es := OneMoreBatch(u, es, q - k, k); }
  }

  // ----- A run out of order makes the setup risky -----

  ghost predicate Paced(c: Config, d: nat) { exists t: nat :: Makes(c, d, t) }

  /** No further request can be made, or none was made yet. */
  ghost predicate Full<B>(u: Setup<B>, q: State<B>) {
    || |q.requests| >= u.config.maxBlockRequests
    || |q.requests| + |q.blocks| >= MAX_READY
    || q.blockIndex >= u.highest
    || (q.blocks == [] && q.requests == [])
  }

  /** How an ordered run stands: what was delivered makes up batches of the usual sizes or is all. */
  ghost predicate Pace<B>(u: Setup<B>, q: State<B>, out: seq<Wrapper<B>>) {
    && Counting(out, u.start) && Full(u, q)
    && (u.config.minSize <= u.config.maxSize && u.config.maxBlockRequests >= 2 ==>
          u.start + |out| >= u.highest || Paced(u.config, |out|))
    && (out == [] && q.listeners == 0 ==> q.blocks == [] && q.requests == [])
  }

  lemma FilledFull<B>(u: Setup<B>, q: State<B>)
    ensures Full(u, Filled(q, u.highest, u.config))
  {}

  lemma MoreBatches(c: Config, d: nat, k: nat)
    requires Paced(c, d) && Least(c) <= k <= Most(c)
    ensures Paced(c, d + k)
  {
    var t: nat :| Makes(c, d, t);
    assert Times(t + 1, Least(c)) == Times(t, Least(c)) + Least(c)
            && Times(t + 1, Most(c)) == Times(t, Most(c)) + Most(c);
    assert Makes(c, d + k, t + 1);
  }

  /** Everything from the next index due up to blockIndex is in flight or ready. */
  lemma Outstanding<B>(u: Setup<B>, q: State<B>, out: seq<Wrapper<B>>, x: nat)
    requires Balanced(u, q, out) && Counting(out, u.start)
    ensures x in q.requests || x in Indices(q.blocks) <==> u.start + |out| <= x < q.blockIndex
    ensures !(x in q.requests && x in Indices(q.blocks))
  {
    assert AccountedFor(u, q, out, x);
    CountingCount(out, u.start, x);
    CountPositive(q.requests, x);
    CountOfPositive(q.blocks, x);
  }

  lemma {:induction false} Enough(s: seq<nat>, a: nat, n: nat)
    requires forall x: nat :: a <= x < a + n ==> x in s
    ensures |s| >= n
    decreases n
  {
    if n > 0 {
      var last: nat := a + n - 1;
      assert last in s;
      var k :| 0 <= k < |s| && s[k] == last;
      var rest := s[..k] + s[k + 1..];
      forall x: nat | a <= x < a + n - 1 ensures x in rest {
        assert x in s;
        var i :| 0 <= i < |s| && s[i] == x;
        assert rest[if i < k then i else i - 1] == x;
      }
      Enough(rest, a, n - 1);
    }
  }

  /** At most a hundred indices are outstanding. */
  lemma Window<B>(u: Setup<B>, q: State<B>, out: seq<Wrapper<B>>)
    requires Balanced(u, q, out) && Counting(out, u.start) && Bounded(u, q) && u.start + |out| <= q.blockIndex
    ensures q.blockIndex - (u.start + |out|) <= |q.requests| + |q.blocks| <= MAX_READY
  {
    hide Balanced, Bounded, Counting;
    var a := u.start + |out|;
    var all := q.requests + Indices(q.blocks);
    forall x: nat | a <= x < a + (q.blockIndex - a) ensures x in all { Outstanding(u, q, out, x); }
    Enough(all, a, q.blockIndex - a);
    assert |q.requests| + |q.blocks| <= MAX_READY by { BoundedSum(u, q); }
  }

  lemma BoundedSum<B>(u: Setup<B>, q: State<B>)
    requires Bounded(u, q)
    ensures |q.requests| + |q.blocks| <= MAX_READY && (|q.requests| <= u.config.maxBlockRequests || q.requests == [])
    ensures q.blockIndex <= u.highest || q.blockIndex == u.start
  {}

  /** The shape of a batch: consecutive, ready, and at its front the oldest ready block. */
  lemma ReadyShape<B>(u: Setup<B>, q: State<B>)
    requires Ready(q, u.config) != []
    ensures var batch := Ready(q, u.config);
            && |batch| <= u.config.maxSize && |batch| <= |q.blocks| && !Blocked(q.requests, batch[0].index)
            && Counting(batch, batch[0].index)
            && (forall k :: 0 <= k < |batch| ==> batch[k].index in Indices(q.blocks))
            && (forall x: nat :: x in Indices(q.blocks) ==> batch[0].index <= x)
  {
    var sorted, batch := Sorted(q.blocks), Ready(q, u.config);
    SortedAscends(q.blocks);
    SortedLength(q.blocks);
    StretchIsPrefix(sorted, sorted[0].index);
    hide Sorted, Ready, Stretch, Blocked;
    assert batch <= sorted by { ReadyIsPrefix(q, u.config); }
    forall k | 0 <= k < |batch| ensures batch[k].index in Indices(q.blocks) {
      assert batch[k] == sorted[k] && sorted[k] in q.blocks;
      InBlocks(q.blocks, batch[k]);
    }
    forall x: nat | x in Indices(q.blocks) ensures batch[0].index <= x { FirstIsLeast(sorted, q.blocks, x); }
  }

  lemma TwoRequests(s: seq<nat>, a: nat, b: nat)
    requires a in s && b in s && a != b
    ensures |s| >= 2
  {}

  lemma BeforeTotal(a: nat, b: nat)
    requires a != b && !Before(a, b)
    ensures Before(b, a)
  {
    BeforeIs(a, b);
    BeforeIs(b, a);
  }

  /** How many requests there are when a batch is handed out: fewer than the most in a response, and
      otherwise something was handed out before. */
  predicate Attended<B>(u: Setup<B>, q: State<B>, out: seq<Wrapper<B>>) {
    || q.requests == [] || |q.requests| < u.config.maxBlockRequests
    || (|q.requests| <= u.config.maxBlockRequests && out != [])
  }

  /** What a batch that does not begin with the index due says about the requests in flight. */
  lemma WrongStartMeans<B>(u: Setup<B>, q: State<B>, out: seq<Wrapper<B>>)
    requires Balanced(u, q, out) && Bounded(u, q) && Counting(out, u.start)
    requires Ready(q, u.config) != [] && Ready(q, u.config)[0].index != u.start + |out|
    ensures var d := u.start + |out|; d in q.requests && d < u.highest
    ensures var d, k, l := u.start + |out|, |Ready(q, u.config)|, LexMin(q.requests);
            if l == 0 then d == 0 && k < MAX_READY && k < u.highest
            else d + k < l < u.highest && l < d + MAX_READY && Before(l, d) && |q.requests| >= 2
  {
    hide Balanced, Bounded, Ready, Before, LexMin;
    var d, batch := u.start + |out|, Ready(q, u.config);
    ReadyShape(u, q);
    BoundedSum(u, q);
    var o := batch[0].index;
    Outstanding(u, q, out, o);
    Outstanding(u, q, out, d);
    assert d in q.requests;
    Window(u, q, out);
    var last := batch[|batch| - 1].index;
    assert last == o + |batch| - 1;
    Outstanding(u, q, out, last);
    var l := LexMin(q.requests);
    if l == 0 {
      Outstanding(u, q, out, 0);
    } else {
      Outstanding(u, q, out, l);
      assert o < l by { NotReady(u, q, out, o, l); }
      LexMinLeast(q.requests, d);
      BeforeTotal(d, l);
      TwoRequests(q.requests, d, l);
      assert last < l by { NotInside(u, q, out, l); }
    }
  }

  /** A full batch that does not begin with the index due needs a risky setup. */
  lemma WrongStartIsRisky<B>(u: Setup<B>, q: State<B>, out: seq<Wrapper<B>>)
    requires Balanced(u, q, out) && Bounded(u, q) && Counting(out, u.start) && Attended(u, q, out)
    requires u.config.minSize <= u.config.maxSize && u.config.maxBlockRequests >= 2 ==>
               u.start + |out| >= u.highest || Paced(u.config, |out|)
    requires var batch := Ready(q, u.config);
             batch != [] && |batch| >= u.config.minSize && batch[0].index != u.start + |out|
    ensures Risky(u)
  {
    hide Balanced, Bounded, Ready, Before, LexMin, Makes, Counting;
    var d := u.start + |out|;
    ReadyShape(u, q);
    WrongStartMeans(u, q, out);
    var l := LexMin(q.requests);
    if l != 0 { assert Overtakes(u, d, l); }
    assert Overtaken(u, d);
    var t: nat :| Makes(u.config, |out|, t);
    assert Reached(u, d, t);
  }

  lemma NotReady<B>(u: Setup<B>, q: State<B>, out: seq<Wrapper<B>>, o: nat, l: nat)
    requires Balanced(u, q, out) && Counting(out, u.start) && o in Indices(q.blocks) && q.requests != []
            && l == LexMin(q.requests)
    requires !Blocked(q.requests, o) && l != 0
    ensures o < l
  {
    Outstanding(u, q, out, o);
  }

  /** A request in flight is not inside a batch. */
  lemma NotInside<B>(u: Setup<B>, q: State<B>, out: seq<Wrapper<B>>, l: nat)
    requires Balanced(u, q, out) && Counting(out, u.start) && Ready(q, u.config) != []
    requires l in q.requests && l > Ready(q, u.config)[0].index
    ensures l > Ready(q, u.config)[|Ready(q, u.config)| - 1].index
  {
    hide Balanced, Ready;
    var batch := Ready(q, u.config);
    ReadyShape(u, q);
    Outstanding(u, q, out, l);
    if l <= batch[|batch| - 1].index { var k := Inside(batch, l); }
  }

  lemma Inside<B>(batch: seq<Wrapper<B>>, l: nat) returns (k: nat)
    requires batch != [] && Counting(batch, batch[0].index) && batch[0].index <= l <= batch[|batch| - 1].index
    ensures k < |batch| && batch[k].index == l
  {
    k := l - batch[0].index;
  }

  /** A batch is handed out because it is large enough, or because nothing more will come for now. */
  ghost predicate HandedOut<B>(u: Setup<B>, q: State<B>) {
    || |Ready(q, u.config)| >= u.config.minSize
    || (q.requests == [] && (u.config.maxBlockRequests < 2 || q.blockIndex >= u.highest || |q.blocks| >= MAX_READY))
  }

  /** With nothing in flight the batch takes all that is ready, or as much as a batch may hold. */
  lemma IdleTakesAll<B>(u: Setup<B>, q: State<B>, out: seq<Wrapper<B>>)
    requires Balanced(u, q, out) && Counting(out, u.start) && q.requests == [] && q.blocks != []
    ensures |Ready(q, u.config)| == Min(u.config.maxSize, |q.blocks|) && u.start + |out| + |q.blocks| >= q.blockIndex
  {
    var d := u.start + |out|;
    var sorted := Sorted(q.blocks);
    SortedAscends(q.blocks);
    SortedLength(q.blocks);
    hide Sorted, Balanced, Counting;
    var idx := Indices(q.blocks);
    forall x: nat | d <= x < d + (if q.blockIndex >= d then q.blockIndex - d else 0)
      ensures x in idx
    {
      Outstanding(u, q, out, x);
    }
    Enough(idx, d, if q.blockIndex >= d then q.blockIndex - d else 0);
    Consecutively(u, q, out, sorted, d);
    StretchAll(sorted, d);
  }

  lemma Consecutively<B>(u: Setup<B>, q: State<B>, out: seq<Wrapper<B>>, sorted: seq<Wrapper<B>>, d: nat)
    requires Balanced(u, q, out) && Counting(out, u.start) && q.requests == [] && d == u.start + |out|
    requires sorted == Sorted(q.blocks) && Ascending(sorted) && SameBlocks(sorted, q.blocks)
    ensures forall i :: 0 <= i < |sorted| ==> sorted[i].index == d + i
  {
    hide Sorted;
    forall i: nat | i < |sorted| ensures sorted[i].index == d + i { CountsUp(u, q, out, sorted, d, i); }
  }

  lemma {:induction false} CountsUp<B>(u: Setup<B>, q: State<B>, out: seq<Wrapper<B>>, sorted: seq<Wrapper<B>>,
                                       d: nat, i: nat)
    requires Balanced(u, q, out) && Counting(out, u.start) && q.requests == [] && d == u.start + |out| && i < |sorted|
    requires sorted == Sorted(q.blocks) && Ascending(sorted) && SameBlocks(sorted, q.blocks)
    ensures sorted[i].index == d + i
  {
    hide Sorted, Balanced, Counting, Ascending, SameBlocks;
    var x := sorted[i].index;
    IsReady(sorted, q.blocks, i);
    Outstanding(u, q, out, x);
    if i > 0 {
      CountsUp(u, q, out, sorted, d, i - 1);
      OncePerIndex(u, q, out, sorted, i - 1, i);
      InSequence(sorted, i - 1, i);
    }
    Outstanding(u, q, out, d + i);
    if x > d + i {
      assert d + i in Indices(q.blocks);
      AtItsPlace(sorted, q.blocks, d + i, i);
    }
  }

  lemma IsReady<B>(sorted: seq<Wrapper<B>>, ws: seq<Wrapper<B>>, i: nat)
    requires SameBlocks(sorted, ws) && i < |sorted|
    ensures sorted[i].index in Indices(ws)
  {
    InBlocks(ws, sorted[i]);
  }

  lemma InSequence<B>(sorted: seq<Wrapper<B>>, i: nat, j: nat)
    requires Ascending(sorted) && i < j < |sorted|
    ensures sorted[i].index <= sorted[j].index
  {}

  /** An index below that of entry i stands before it. */
  lemma AtItsPlace<B>(sorted: seq<Wrapper<B>>, ws: seq<Wrapper<B>>, x: nat, i: nat)
    requires Ascending(sorted) && SameBlocks(sorted, ws) && i < |sorted| && x in Indices(ws) && x < sorted[i].index
    ensures i > 0 && sorted[i - 1].index >= x
  {
    var k :| 0 <= k < |ws| && ws[k].index == x;
    assert ws[k] in sorted;
    var j :| 0 <= j < |sorted| && sorted[j] == ws[k];
  }

  lemma OncePerIndex<B>(u: Setup<B>, q: State<B>, out: seq<Wrapper<B>>, sorted: seq<Wrapper<B>>, i: nat, j: nat)
    requires Balanced(u, q, out) && sorted == Sorted(q.blocks) && i < j < |sorted|
    ensures sorted[i].index != sorted[j].index
  {
    var x := sorted[i].index;
    assert AccountedFor(u, q, out, x);
    SortedCount(q.blocks, x);
    hide Sorted;
    if sorted[j].index == x { TwiceCounted(sorted, i, j); }
  }

  lemma TwiceCounted<B>(ws: seq<Wrapper<B>>, i: nat, j: nat)
    requires i < j < |ws| && ws[i].index == ws[j].index
    ensures CountOf(ws, ws[i].index) >= 2
  {
    var x := ws[i].index;
    CountOfConcat(ws[..j], ws[j..], x);
    assert ws == ws[..j] + ws[j..];
    CountOfPositive(ws[..j], x);
    CountOfPositive(ws[j..], x);
    assert Indices(ws[..j])[i] == x && Indices(ws[j..])[0] == x;
  }

  /** In a setup that is not risky a batch carries on in order and at the usual pace. */
  lemma BatchKeepsPace<B>(u: Setup<B>, q: State<B>, out: seq<Wrapper<B>>)
    requires !Risky(u) && u.config.minSize >= 1 && Balanced(u, q, out) && Bounded(u, q) && Counting(out, u.start)
    requires Attended(u, q, out) && HandedOut(u, q)
    requires u.config.minSize <= u.config.maxSize && u.config.maxBlockRequests >= 2 ==>
               u.start + |out| >= u.highest || Paced(u.config, |out|)
    ensures Counting(out + Ready(q, u.config), u.start)
    ensures u.config.minSize <= u.config.maxSize && u.config.maxBlockRequests >= 2 ==>
              u.start + |out + Ready(q, u.config)| >= u.highest || Paced(u.config, |out + Ready(q, u.config)|)
  {
    hide Ready, Risky, Balanced, Bounded, Paced, Attended;
    var batch := Ready(q, u.config);
    if batch == [] {
      assert out + batch == out;
    } else {
      ReadyShape(u, q);
      BoundedSum(u, q);
      assert batch[0].index == u.start + |out| by { RightStart(u, q, out); }
      if |batch| >= u.config.minSize {
        if u.config.minSize <= u.config.maxSize && u.config.maxBlockRequests >= 2 && u.start + |out| < u.highest {
          MoreBatches(u.config, |out|, |batch|);
        }
      } else {
        IdleTakesAll(u, q, out);
        if u.config.minSize <= u.config.maxSize && u.config.maxBlockRequests >= 2
           && u.start + |out + batch| < u.highest {
          MoreBatches(u.config, |out|, |batch|);
        }
      }
    }
  }

  lemma RightStart<B>(u: Setup<B>, q: State<B>, out: seq<Wrapper<B>>)
    requires !Risky(u) && u.config.minSize >= 1 && Balanced(u, q, out) && Bounded(u, q) && Counting(out, u.start)
    requires Attended(u, q, out) && HandedOut(u, q) && Ready(q, u.config) != []
    requires u.config.minSize <= u.config.maxSize && u.config.maxBlockRequests >= 2 ==>
               u.start + |out| >= u.highest || Paced(u.config, |out|)
    ensures Ready(q, u.config)[0].index == u.start + |out|
  {
    hide Ready, Risky, Balanced, Bounded, Paced, Attended;
    var batch := Ready(q, u.config);
    if batch[0].index != u.start + |out| {
      if q.requests == [] {
        ReadyShape(u, q);
        Outstanding(u, q, out, batch[0].index);
        Outstanding(u, q, out, u.start + |out|);
      } else {
        WrongStartIsRisky(u, q, out);
      }
    }
  }

  lemma PaceStarts<B>(u: Setup<B>)
    ensures Pace(u, Init(u).q, Flat(Init(u).batches))
  {
    assert Makes(u.config, 0, 0);
  }

  /** The refill after a batch, or after none, keeps the pace. */
  lemma PaceAfter<B>(u: Setup<B>, q: State<B>, out: seq<Wrapper<B>>)
    requires Counting(out, u.start)
    requires u.config.minSize <= u.config.maxSize && u.config.maxBlockRequests >= 2 ==>
               u.start + |out| >= u.highest || Paced(u.config, |out|)
    requires out != [] || q.listeners > 0
    ensures Pace(u, Filled(q, u.highest, u.config), out)
  {
    hide Paced, Counting;
    FilledFull(u, q);
  }

  /** A response in a setup that is not risky. */
  lemma RespondPaced<B>(u: Setup<B>, s: Session<B>, i: nat)
    requires !Risky(u) && u.config.minSize >= 1 && u.config.maxSize >= 1 && Inv(u, s) && Pace(u, s.q, Flat(s.batches))
    requires i in s.q.requests
    ensures var next := Next(u, s, Respond(i)); Pace(u, next.q, Flat(next.batches))
  {
    hide Risky, Inv, Flat, Ready, Without, Dropping, Filled, Paced, Counting, Balanced, Bounded;
    InvParts(u, s);
    var out, t := Flat(s.batches), Arrived(s.q, i, u.src(i));
    ArrivedKeeps(u, s.q, out, i, u.src(i));
    BoundedSum(u, s.q);
    var batch := Ready(t, u.config);
    if s.q.listeners > 0 && (|batch| >= u.config.minSize || t.requests == []) {
      BatchKeepsPace(u, t, out);
      if t.requests == [] { IdleIsReady(t, u.config); }
      FlatAppend(s.batches, batch);
      PaceAfter(u, Released(t.(listeners := 0), batch), out + batch);
    } else {
      PaceAfter(u, t, out);
    }
  }

  /** A call in a setup that is not risky. */
  lemma CallPaced<B>(u: Setup<B>, s: Session<B>)
    requires !Risky(u) && u.config.minSize >= 1 && u.config.maxSize >= 1 && Inv(u, s) && Pace(u, s.q, Flat(s.batches))
    requires s.q.listeners == 0
    ensures var next := Next(u, s, Call); Pace(u, next.q, Flat(next.batches))
  {
    hide Risky, Inv, Flat, Ready, Without, Dropping, Paced, Counting, Balanced, Bounded;
    InvParts(u, s);
    BoundedSum(u, s.q);
    var out, batch := Flat(s.batches), Ready(s.q, u.config);
    var filled := Filled(s.q, u.highest, u.config);
    FilledFull(u, s.q);
    if out == [] {
      NoneReady(s.q, u.config);
      DroppingNothing(s.q.blocks);
      FlatAppend(s.batches, batch);
      assert out + batch == out;
    } else if NextRequestCount(s.q, u.highest, u.config) == 0 && s.q.requests == [] {
      BatchKeepsPace(u, s.q, out);
      FlatAppend(s.batches, batch);
      PaceAfter(u, Released(s.q, batch), out + batch);
    } else if |batch| >= u.config.minSize {
      BatchKeepsPace(u, s.q, out);
      FlatAppend(s.batches, batch);
      PaceAfter(u, Released(filled, batch), out + batch);
    }
  }

  lemma DroppingNothing<B>(ws: seq<Wrapper<B>>)
    requires ws == []
    ensures Dropping(ws, []) == []
  {}

  lemma {:induction false} KeepsPace<B>(u: Setup<B>, es: seq<Event>)
    requires !Risky(u) && u.config.minSize >= 1 && u.config.maxSize >= 1 && Legal(u, es)
    ensures var s := After(u, es); Pace(u, s.q, Flat(s.batches))
  {
    hide Risky, Inv, Flat, Pace, Called, Responded;
    if es == [] {
      PaceStarts(u);
    } else {
      var before := After(u, es[..|es| - 1]);
      KeepsPace(u, es[..|es| - 1]);
      ReachableInv(u, es[..|es| - 1]);
      match es[|es| - 1] {
        case Call => CallPaced(u, before);
        case Respond(i) => RespondPaced(u, before, i);
        case Fail(_) =>
      }
    }
  }

  /** Batches of no blocks at all are trivially in order. */
  lemma {:induction false} NothingEver<B>(u: Setup<B>, es: seq<Event>)
    requires u.config.maxSize == 0
    ensures Flat(After(u, es).batches) == []
  {
    if es != [] {
      NothingEver(u, es[..|es| - 1]);
      var s, e := After(u, es[..|es| - 1]), es[|es| - 1];
      var batch := Effect(u, s.q, e).1;
      if batch.Some? { FlatAppend(s.batches, batch.value); EmptyHanded(u, s.q, e); }
    }
  }

  lemma EmptyHanded<B>(u: Setup<B>, q: State<B>, e: Event)
    requires u.config.maxSize == 0 && Effect(u, q, e).1.Some?
    ensures Effect(u, q, e).1.value == []
  {
    hide Consecutive, Filled, Without, Dropping;
  }

  /** The sample configuration (batches of 5 to 10, 10 requests in flight) can deliver 4 to 8 before 3
      when blocks 3 to 10 are to be read. */
  lemma SampleConfigIsRisky<B>(src: nat -> B)
    ensures Risky(Setup(3, 11, Config(10, 10, 5), src))
  {
    var u := Setup(3, 11, Config(10, 10, 5), src);
    assert Makes(u.config, 0, 0) && Reached(u, 3, 0);
    assert Before(10, 3) by {
      assert Dec(3) == [DigitChar(3)] && Dec(1) == [DigitChar(1)];
      assert Dec(10) == [DigitChar(1)] + [DigitChar(0)];
      assert Dec(10)[0] < Dec(3)[0];
    }
    assert Overtakes(u, 3, 10);
  }
}
