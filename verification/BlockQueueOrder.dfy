/** Exhaustion and ordering of the block queue's batches: when an empty batch may be handed out,
    and exactly when every run delivers the blocks in ascending order. */
module BlockQueueOrder {
  import opened Options
  import opened DecimalOrder
  import opened Indexes
  import opened BlockQueues
  import opened BlockQueueRuns

  // ----- Honest exhaustion -----

  lemma {:induction false} InsertLength<B>(ws: seq<Wrapper<B>>, w: Wrapper<B>)
    ensures |Insert(ws, w)| == |ws| + 1
  {
    if ws != [] && ws[|ws| - 1].index > w.index { InsertLength(ws[..|ws| - 1], w); }
  }

  lemma {:induction false} SortedLength<B>(ws: seq<Wrapper<B>>)
    ensures |Sorted(ws)| == |ws|
  {
    if ws != [] {
      SortedLength(ws[..|ws| - 1]);
      InsertLength(Sorted(ws[..|ws| - 1]), ws[|ws| - 1]);
    }
  }

  /** With no request in flight, ready blocks always make a nonempty batch. */
  lemma IdleIsReady<B>(q: State<B>, c: Config)
    requires q.blocks != [] && q.requests == [] && c.maxSize >= 1
    ensures Ready(q, c) != []
  {
    SortedLength(q.blocks);
  }

  /** The batch, if any, that the last of the events handed out. */
  ghost function LastBatch<B>(u: Setup<B>, es: seq<Event>): Option<seq<Wrapper<B>>>
    requires es != []
  { Effect(u, After(u, es[..|es| - 1]).q, es[|es| - 1]).1 }

  /** The last of the events handed out an empty batch. */
  ghost predicate RanDry<B>(u: Setup<B>, es: seq<Event>) {
    Legal(u, es) && es != [] && LastBatch(u, es) == Some([])
  }

  ghost predicate Sane(c: Config) { c.minSize >= 1 && c.maxSize >= 1 && c.maxBlockRequests >= 1 }

  /** An empty batch is handed out only to a caller, never to a listener, and only when every index
      from start up to the highest has been delivered exactly once and nothing else has. */
  lemma EmptyBatchMeansDone<B>(u: Setup<B>, es: seq<Event>)
    requires RanDry(u, es) && Sane(u.config)
    ensures es[|es| - 1] == Call
    ensures var s := After(u, es); s.q.requests == [] && s.q.blocks == []
    ensures forall x: nat :: CountOf(Flat(After(u, es).batches), x) == if u.start <= x < u.highest then 1 else 0
  {
    var before := After(u, es[..|es| - 1]);
    ReachableInv(u, es[..|es| - 1]);
    ReachableInv(u, es);
    match es[|es| - 1] {
      case Respond(i) =>
        var t := Arrived(before.q, i, u.src(i));
        IdleIsReady(t, u.config);
      case Call =>
        if before.q.blocks != [] { IdleIsReady(before.q, u.config); }
        var s := After(u, es);
        assert s.q.requests == [] && s.q.blocks == [] && s.q.blockIndex == before.q.blockIndex;
        forall x: nat ensures CountOf(Flat(s.batches), x) == if u.start <= x < u.highest then 1 else 0 {
          assert AccountedFor(u, s.q, Flat(s.batches), x);
        }
    }
  }

  // ----- Ascending delivery -----

  ghost predicate Counting<B>(out: seq<Wrapper<B>>, a: nat) {
    forall k :: 0 <= k < |out| ==> out[k].index == a + k
  }

  /** When, for the given range, string order among requests in flight cannot hide an older one. */
  predicate Safe<B>(u: Setup<B>) {
    || u.highest - u.start <= 1
    || (u.start >= 1 && (u.highest - u.start == 2 || Digits(u.start) == Digits(u.highest - 1)))
  }

  ghost predicate Ascending<B>(ws: seq<Wrapper<B>>) {
    forall i, j :: 0 <= i < j < |ws| ==> ws[i].index <= ws[j].index
  }

  /** The same blocks, in whatever order. */
  ghost predicate SameBlocks<B>(a: seq<Wrapper<B>>, b: seq<Wrapper<B>>) {
    (forall i :: 0 <= i < |a| ==> a[i] in b) && (forall i :: 0 <= i < |b| ==> b[i] in a)
  }

  ghost predicate AtMost<B>(ws: seq<Wrapper<B>>, b: nat) { forall i :: 0 <= i < |ws| ==> ws[i].index <= b }

  lemma {:induction false} InsertAtMost<B>(ws: seq<Wrapper<B>>, w: Wrapper<B>, b: nat)
    requires AtMost(ws, b) && w.index <= b
    ensures AtMost(Insert(ws, w), b)
  {
    if ws != [] && ws[|ws| - 1].index > w.index { InsertAtMost(ws[..|ws| - 1], w, b); }
  }

  lemma {:induction false} InsertOrders<B>(ws: seq<Wrapper<B>>, w: Wrapper<B>)
    requires Ascending(ws)
    ensures Ascending(Insert(ws, w))
  {
    if ws != [] && ws[|ws| - 1].index > w.index {
      InsertOrders(ws[..|ws| - 1], w);
      InsertAtMost(ws[..|ws| - 1], w, ws[|ws| - 1].index);
    }
  }

  lemma {:induction false} InsertHas<B>(ws: seq<Wrapper<B>>, w: Wrapper<B>, x: Wrapper<B>)
    ensures x in Insert(ws, w) <==> x in ws || x == w
  {
    if ws != [] && ws[|ws| - 1].index > w.index {
      var n := |ws| - 1;
      InsertHas(ws[..n], w, x);
      assert ws == ws[..n] + [ws[n]];
    }
  }

  lemma InsertAscends<B>(ws: seq<Wrapper<B>>, w: Wrapper<B>)
    requires Ascending(ws)
    ensures Ascending(Insert(ws, w)) && SameBlocks(Insert(ws, w), ws + [w])
  {
    InsertOrders(ws, w);
    hide Insert, Ascending;
    var r := Insert(ws, w);
    forall i | 0 <= i < |r| ensures r[i] in ws + [w] { InsertHas(ws, w, r[i]); }
    forall i | 0 <= i < |ws + [w]| ensures (ws + [w])[i] in r { InsertHas(ws, w, (ws + [w])[i]); }
  }

  lemma {:induction false} SortedAscends<B>(ws: seq<Wrapper<B>>)
    ensures Ascending(Sorted(ws)) && SameBlocks(Sorted(ws), ws)
  {
    if ws != [] {
      var n := |ws| - 1;
      SortedAscends(ws[..n]);
      var s := Sorted(ws[..n]);
      InsertAscends(s, ws[n]);
      var r := Insert(s, ws[n]);
      forall i | 0 <= i < |r| ensures r[i] in ws {
        assert r[i] in s + [ws[n]];
        if r[i] != ws[n] { assert r[i] in s; assert r[i] in ws[..n]; }
      }
      forall i | 0 <= i < |ws| ensures ws[i] in r {
        if i < n {
          assert ws[..n][i] in s;
          var k :| 0 <= k < |s| && s[k] == ws[i];
          assert (s + [ws[n]])[k] in r;
        } else {
          assert (s + [ws[n]])[|s|] in r;
        }
      }
    }
  }

  /** Among numbers of one length the first in string order is the least. */
  lemma LexMinIsMin(s: seq<nat>, x: nat)
    requires x in s && Digits(LexMin(s)) == Digits(x)
    ensures LexMin(s) <= x
  {
    LexMinLeast(s, x);
    SameDigits(x, LexMin(s));
  }

  /** In a safe setup an index still in flight holds back every later block. */
  lemma OlderBlocks<B>(u: Setup<B>, q: State<B>, out: seq<Wrapper<B>>, d: nat, m: nat)
    requires Safe(u) && Balanced(u, q, out) && Bounded(u, q)
    requires d in q.requests && d < m && m in Indices(q.blocks)
    ensures Blocked(q.requests, m)
  {
    var l := LexMin(q.requests);
    CountPositive(q.requests, d);
    CountPositive(q.requests, l);
    CountOfPositive(q.blocks, m);
    assert AccountedFor(u, q, out, d) && AccountedFor(u, q, out, m) && AccountedFor(u, q, out, l);
    assert l != m;
    if u.highest - u.start == 2 {
      assert l == d;
    } else {
      DigitsMonotone(u.start, d);
      DigitsMonotone(d, u.highest - 1);
      DigitsMonotone(u.start, l);
      DigitsMonotone(l, u.highest - 1);
      LexMinIsMin(q.requests, d);
    }
  }

  lemma {:induction false} CountingCount<B>(out: seq<Wrapper<B>>, a: nat, x: nat)
    requires Counting(out, a)
    ensures CountOf(out, x) == if a <= x < a + |out| then 1 else 0
  {
    if out != [] { CountingCount(out[..|out| - 1], a, x); }
  }

  /** The next batch carries on where the last one ended. */
  lemma BatchCarriesOn<B>(u: Setup<B>, q: State<B>, out: seq<Wrapper<B>>)
    requires Safe(u) && Balanced(u, q, out) && Bounded(u, q) && Counting(out, u.start)
    ensures Counting(Ready(q, u.config), u.start + |out|)
  {
    var sorted := Sorted(q.blocks);
    if Ready(q, u.config) != [] {
      var d, m := u.start + |out|, sorted[0].index;
      SortedAscends(q.blocks);
      StretchIsPrefix(sorted, m);
      FirstIsNext(u, q, out, sorted, d, m);
    }
  }

  lemma FirstIsNext<B>(u: Setup<B>, q: State<B>, out: seq<Wrapper<B>>, sorted: seq<Wrapper<B>>, d: nat, m: nat)
    requires Safe(u) && Balanced(u, q, out) && Bounded(u, q) && Counting(out, u.start) && d == u.start + |out|
    requires sorted != [] && m == sorted[0].index && Ascending(sorted) && SameBlocks(sorted, q.blocks)
    requires !Blocked(q.requests, m)
    ensures m == d
  {
    hide Safe, Blocked, Bounded;
    CountingCount(out, u.start, m);
    CountingCount(out, u.start, d);
    InBlocks(q.blocks, sorted[0]);
    CountOfPositive(q.blocks, m);
    assert AccountedFor(u, q, out, m) && AccountedFor(u, q, out, d);
    CountPositive(q.requests, d);
    CountOfPositive(q.blocks, d);
    if d in Indices(q.blocks) {
      FirstIsLeast(sorted, q.blocks, d);
    } else if d in q.requests && m > d {
      OlderBlocks(u, q, out, d, m);
    }
  }

  lemma FirstIsLeast<B>(sorted: seq<Wrapper<B>>, ws: seq<Wrapper<B>>, d: nat)
    requires sorted != [] && Ascending(sorted) && SameBlocks(sorted, ws) && d in Indices(ws)
    ensures sorted[0].index <= d
  {
    var k :| 0 <= k < |ws| && ws[k].index == d;
    assert ws[k] in sorted;
    var j :| 0 <= j < |sorted| && sorted[j] == ws[k];
  }

  lemma InBlocks<B>(ws: seq<Wrapper<B>>, w: Wrapper<B>)
    requires w in ws
    ensures w.index in Indices(ws)
  {
    var k :| 0 <= k < |ws| && ws[k] == w;
    assert Indices(ws)[k] == w.index;
  }

  lemma CountingAppend<B>(out: seq<Wrapper<B>>, batch: seq<Wrapper<B>>, a: nat)
    requires Counting(out, a) && Counting(batch, a + |out|)
    ensures Counting(out + batch, a)
  {}

  lemma InvParts<B>(u: Setup<B>, s: Session<B>)
    requires Inv(u, s)
    ensures Balanced(u, s.q, Flat(s.batches)) && Bounded(u, s.q)
  {}

  lemma NothingDelivered<B>(u: Setup<B>)
    ensures Counting(Flat(Init(u).batches), u.start)
  {}

  lemma BatchFollows<B>(u: Setup<B>, q: State<B>, batches: seq<seq<Wrapper<B>>>)
    requires Safe(u) && Balanced(u, q, Flat(batches)) && Bounded(u, q) && Counting(Flat(batches), u.start)
    ensures Counting(Flat(batches + [Ready(q, u.config)]), u.start)
  {
    hide Safe, Balanced, Bounded, Ready, Flat, Counting;
    BatchCarriesOn(u, q, Flat(batches));
    CountingAppend(Flat(batches), Ready(q, u.config), u.start);
    FlatAppend(batches, Ready(q, u.config));
  }

  /** Every run of a safe setup delivers start, start + 1, start + 2, ... */
  lemma {:induction false} SafeDelivers<B>(u: Setup<B>, es: seq<Event>)
    requires Safe(u) && Legal(u, es)
    ensures Counting(Flat(After(u, es).batches), u.start)
  {
    hide Safe, Inv, Balanced, Bounded, Ready, Flat, Without, Dropping, Counting, Filled, Enabled;
    if es == [] {
      NothingDelivered(u);
    } else {
      var before, e := After(u, es[..|es| - 1]), es[|es| - 1];
      SafeDelivers(u, es[..|es| - 1]);
      ReachableInv(u, es[..|es| - 1]);
      InvParts(u, before);
      match e {
        case Call =>
          BatchFollows(u, before.q, before.batches);
        case Respond(i) =>
          assert i in before.q.requests by { Asked(u, es, i); }
          ArrivedKeeps(u, before.q, Flat(before.batches), i, u.src(i));
          BatchFollows(u, Arrived(before.q, i, u.src(i)), before.batches);
        case Fail(_) =>
      }
    }
  }

  lemma Asked<B>(u: Setup<B>, es: seq<Event>, i: nat)
    requires Legal(u, es) && es != [] && es[|es| - 1] == Respond(i)
    ensures i in After(u, es[..|es| - 1]).q.requests
  {}
}
