/** Whole runs of the block queue: responses in any order, failures retried for as long as they
    last, and at most one caller waiting at a time. */
module BlockQueueRuns {
  import opened Options
  import opened Indexes
  import opened BlockQueues

  /** A caller asks for blocks, the source answers a request, or a request fails and is sent again.
      Each index is answered at most once, so `src` gives the answer to every request. */
  datatype Event = Call | Respond(i: nat) | Fail(i: nat)

  /** A queue and the batches it has handed out, oldest first. */
  datatype Session<B> = Session(q: State<B>, batches: seq<seq<Wrapper<B>>>)

  datatype Setup<!B> = Setup(start: nat, highest: int, config: Config, src: nat -> B)

  function Flat<B>(bs: seq<seq<Wrapper<B>>>): seq<Wrapper<B>> {
    if bs == [] then [] else Flat(bs[..|bs| - 1]) + bs[|bs| - 1]
  }

  function Init<B>(u: Setup<B>): Session<B> { Session(State([], u.start, [], 0), []) }

  predicate Enabled<B>(s: Session<B>, e: Event) {
    match e
    case Call => s.q.listeners == 0
    case Respond(i) => i in s.q.requests
    case Fail(i) => i in s.q.requests
  }

  function Effect<B>(u: Setup<B>, q: State<B>, e: Event): (State<B>, Option<seq<Wrapper<B>>>) {
    match e
    case Call => Called(q, u.highest, u.config)
    case Respond(i) => Responded(q, i, u.src(i), u.highest, u.config)
    case Fail(_) => (q, None)
  }

  function Next<B>(u: Setup<B>, s: Session<B>, e: Event): Session<B> {
    var (q, batch) := Effect(u, s.q, e);
    Session(q, if batch.Some? then s.batches + [batch.value] else s.batches)
  }

  /** The session after a list of events. */
  function After<B>(u: Setup<B>, es: seq<Event>): Session<B> {
    if es == [] then Init(u) else Next(u, After(u, es[..|es| - 1]), es[|es| - 1])
  }

  ghost predicate Legal<B>(u: Setup<B>, es: seq<Event>) {
    es == [] || (Legal(u, es[..|es| - 1]) && Enabled(After(u, es[..|es| - 1]), es[|es| - 1]))
  }

  // ----- Conservation -----

  /** How many of the blocks have index x. */
  function CountOf<B>(ws: seq<Wrapper<B>>, x: nat): nat {
    if ws == [] then 0 else CountOf(ws[..|ws| - 1], x) + (if ws[|ws| - 1].index == x then 1 else 0)
  }

  /** Index x is in flight, ready or delivered, once in all, if it has been requested; else nowhere. */
  ghost predicate AccountedFor<B>(u: Setup<B>, q: State<B>, out: seq<Wrapper<B>>, x: nat) {
    Count(q.requests, x) + CountOf(q.blocks, x) + CountOf(out, x) == if u.start <= x < q.blockIndex then 1 else 0
  }

  ghost predicate Balanced<B>(u: Setup<B>, q: State<B>, out: seq<Wrapper<B>>) {
    q.blockIndex >= u.start && forall x: nat :: AccountedFor(u, q, out, x)
  }

  ghost predicate Bounded<B>(u: Setup<B>, q: State<B>) {
    && (q.blockIndex <= u.highest || q.blockIndex == u.start)
    && (|q.requests| <= u.config.maxBlockRequests || q.requests == [])
    && |q.requests| + |q.blocks| <= 100
  }

  /** At most one listener, and only while a request is in flight to wake it. */
  ghost predicate Wakeable<B>(q: State<B>) { q.listeners <= 1 && (q.listeners == 1 ==> q.requests != []) }

  ghost predicate Inv<B>(u: Setup<B>, s: Session<B>) {
    Balanced(u, s.q, Flat(s.batches)) && Bounded(u, s.q) && Wakeable(s.q)
  }

  lemma {:induction false} CountOfConcat<B>(a: seq<Wrapper<B>>, b: seq<Wrapper<B>>, x: nat)
    ensures CountOf(a + b, x) == CountOf(a, x) + CountOf(b, x)
  {
    if b == [] {
      assert a + b == a;
    } else {
      assert (a + b)[..|a + b| - 1] == a + b[..|b| - 1];
      CountOfConcat(a, b[..|b| - 1], x);
    }
  }

  lemma {:induction false} CountOfPositive<B>(ws: seq<Wrapper<B>>, x: nat)
    ensures x in Indices(ws) <==> CountOf(ws, x) > 0
  {
    if ws != [] { CountOfPositive(ws[..|ws| - 1], x); }
  }

  lemma {:induction false} WithoutCount(s: seq<nat>, i: nat, x: nat)
    ensures Count(Without(s, i), x) == (if x == i then 0 else Count(s, x)) && |Without(s, i)| == |s| - Count(s, i)
  {
    if s != [] {
      WithoutCount(s[..|s| - 1], i, x);
      CountConcat(Without(s[..|s| - 1], i), [s[|s| - 1]], x);
    }
  }

  lemma {:induction false} DroppingCount<B>(ws: seq<Wrapper<B>>, gone: seq<nat>, x: nat)
    ensures CountOf(Dropping(ws, gone), x) == (if x in gone then 0 else CountOf(ws, x)) && |Dropping(ws, gone)| <= |ws|
  {
    if ws != [] {
      DroppingCount(ws[..|ws| - 1], gone, x);
      CountOfConcat(Dropping(ws[..|ws| - 1], gone), [ws[|ws| - 1]], x);
    }
  }

  lemma {:induction false} InsertCount<B>(ws: seq<Wrapper<B>>, w: Wrapper<B>, x: nat)
    ensures CountOf(Insert(ws, w), x) == CountOf(ws, x) + (if w.index == x then 1 else 0)
  {
    CountOfConcat(ws, [w], x);
    if ws != [] && ws[|ws| - 1].index > w.index {
      InsertCount(ws[..|ws| - 1], w, x);
      CountOfConcat(Insert(ws[..|ws| - 1], w), [ws[|ws| - 1]], x);
    }
  }

  lemma {:induction false} SortedCount<B>(ws: seq<Wrapper<B>>, x: nat)
    ensures CountOf(Sorted(ws), x) == CountOf(ws, x)
  {
    if ws != [] {
      SortedCount(ws[..|ws| - 1], x);
      InsertCount(Sorted(ws[..|ws| - 1]), ws[|ws| - 1], x);
    }
  }

  lemma {:induction false} StretchIsPrefix<B>(ws: seq<Wrapper<B>>, i: nat)
    ensures Stretch(ws, i) <= ws
    ensures forall k :: 0 <= k < |Stretch(ws, i)| ==> Stretch(ws, i)[k].index == i + k
  {
    if ws != [] && ws[0].index == i {
      StretchIsPrefix(ws[1..], i + 1);
      assert ws == [ws[0]] + ws[1..];
    }
  }

  lemma ReadyIsPrefix<B>(q: State<B>, c: Config)
    ensures Ready(q, c) <= Sorted(q.blocks)
  {
    var sorted := Sorted(q.blocks);
    if sorted != [] { StretchIsPrefix(sorted, sorted[0].index); }
  }

  /** A batch is taken from the ready blocks. */
  lemma ReadyCount<B>(q: State<B>, c: Config, x: nat)
    ensures CountOf(Ready(q, c), x) <= CountOf(q.blocks, x)
  {
    hide Ready, Sorted;
    var sorted, batch := Sorted(q.blocks), Ready(q, c);
    ReadyIsPrefix(q, c);
    SortedCount(q.blocks, x);
    CountOfConcat(batch, sorted[|batch|..], x);
    assert sorted == batch + sorted[|batch|..];
  }

  lemma FlatAppend<B>(bs: seq<seq<Wrapper<B>>>, b: seq<Wrapper<B>>)
    ensures Flat(bs + [b]) == Flat(bs) + b
  {
    assert (bs + [b])[..|bs|] == bs;
  }

  // ----- Every operation keeps the balance -----

  lemma FilledKeeps<B>(u: Setup<B>, q: State<B>, out: seq<Wrapper<B>>)
    requires Balanced(u, q, out) && Bounded(u, q)
    ensures Balanced(u, Filled(q, u.highest, u.config), out) && Bounded(u, Filled(q, u.highest, u.config))
  {
    var n := NextRequestCount(q, u.highest, u.config);
    var t := Filled(q, u.highest, u.config);
    forall x: nat ensures AccountedFor(u, t, out, x) {
      assert AccountedFor(u, q, out, x);
      CountConcat(q.requests, Range(q.blockIndex, n), x);
      RangeCount(q.blockIndex, n, x);
    }
  }

  lemma ArrivedKeeps<B>(u: Setup<B>, q: State<B>, out: seq<Wrapper<B>>, i: nat, block: B)
    requires Balanced(u, q, out) && Bounded(u, q) && i in q.requests
    ensures Balanced(u, Arrived(q, i, block), out) && Bounded(u, Arrived(q, i, block))
    ensures |Arrived(q, i, block).requests| == |q.requests| - 1
  {
    var t := Arrived(q, i, block);
    CountPositive(q.requests, i);
    assert AccountedFor(u, q, out, i);
    forall x: nat ensures AccountedFor(u, t, out, x) {
      assert AccountedFor(u, q, out, x);
      WithoutCount(q.requests, i, x);
      CountOfConcat(q.blocks, [Wrapper(i, block)], x);
    }
    WithoutCount(q.requests, i, i);
  }

  lemma ReleasedKeeps<B>(u: Setup<B>, q: State<B>, out: seq<Wrapper<B>>, batch: seq<Wrapper<B>>)
    requires Balanced(u, q, out) && Bounded(u, q)
    requires forall x: nat :: CountOf(batch, x) <= CountOf(q.blocks, x)
    ensures Balanced(u, Released(q, batch), out + batch) && Bounded(u, Released(q, batch))
  {
    var t := Released(q, batch);
    forall x: nat ensures AccountedFor(u, t, out + batch, x) {
      assert AccountedFor(u, q, out, x);
      DroppingCount(q.blocks, Indices(batch), x);
      CountOfPositive(batch, x);
      CountOfConcat(out, batch, x);
    }
    DroppingCount(q.blocks, Indices(batch), 0);
  }

  lemma ListenersDoNotCount<B>(u: Setup<B>, q: State<B>, out: seq<Wrapper<B>>, n: nat)
    requires Balanced(u, q, out) && Bounded(u, q)
    ensures Balanced(u, q.(listeners := n), out) && Bounded(u, q.(listeners := n))
  {
    forall x: nat ensures AccountedFor(u, q.(listeners := n), out, x) { assert AccountedFor(u, q, out, x); }
  }

  lemma CalledKeeps<B>(u: Setup<B>, s: Session<B>)
    requires Inv(u, s) && s.q.listeners == 0
    ensures Inv(u, Next(u, s, Call))
  {
    hide Flat, Ready, Balanced, Bounded, Dropping;
    var q, out, batch := s.q, Flat(s.batches), Ready(s.q, u.config);
    forall x: nat ensures CountOf(batch, x) <= CountOf(q.blocks, x) { ReadyCount(q, u.config, x); }
    FlatAppend(s.batches, batch);
    if NextRequestCount(q, u.highest, u.config) == 0 && q.requests == [] {
      ReleasedKeeps(u, q, out, batch);
      FilledKeeps(u, Released(q, batch), out + batch);
    } else {
      FilledKeeps(u, q, out);
      var t := Filled(q, u.highest, u.config);
      assert t.requests != [];
      if |batch| >= u.config.minSize {
        ReleasedKeeps(u, t, out, batch);
        FilledKeeps(u, Released(t, batch), out + batch);
      } else {
        ListenersDoNotCount(u, t, out, 1);
      }
    }
  }

  lemma RespondedKeeps<B>(u: Setup<B>, s: Session<B>, i: nat)
    requires Inv(u, s) && i in s.q.requests
    ensures Inv(u, Next(u, s, Respond(i)))
  {
    hide Flat, Ready, Balanced, Bounded, Dropping, Without;
    var q, out := s.q, Flat(s.batches);
    var t := Arrived(q, i, u.src(i));
    ArrivedKeeps(u, q, out, i, u.src(i));
    var batch := Ready(t, u.config);
    forall x: nat ensures CountOf(batch, x) <= CountOf(t.blocks, x) { ReadyCount(t, u.config, x); }
    FlatAppend(s.batches, batch);
    if q.listeners > 0 && (|batch| >= u.config.minSize || t.requests == []) {
      ListenersDoNotCount(u, t, out, 0);
      ReleasedKeeps(u, t.(listeners := 0), out, batch);
      FilledKeeps(u, Released(t.(listeners := 0), batch), out + batch);
    } else {
      FilledKeeps(u, t, out);
    }
  }

  /** In every reachable state: conservation, the bounds, and no lost wakeup. */
  lemma {:induction false} ReachableInv<B>(u: Setup<B>, es: seq<Event>)
    requires Legal(u, es)
    ensures Inv(u, After(u, es))
  {
    if es == [] {
      forall x: nat ensures AccountedFor(u, Init(u).q, [], x) {}
    } else {
      ReachableInv(u, es[..|es| - 1]);
      match es[|es| - 1] {
        case Call => CalledKeeps(u, After(u, es[..|es| - 1]));
        case Respond(i) => RespondedKeeps(u, After(u, es[..|es| - 1]), i);
        case Fail(_) =>
      }
    }
  }

  // ----- A source that answers with no block -----

  /** Such an answer, which is not among the events above, takes the index out of the account: it
      counts as requested, but is not in flight, ready or delivered. */
  lemma LostDropsIndex<B>(u: Setup<B>, s: Session<B>, i: nat)
    requires Inv(u, s) && i in s.q.requests
    ensures var q := Lost(s.q, i, u.highest, u.config).0;
            && u.start <= i < q.blockIndex
            && Count(q.requests, i) + CountOf(q.blocks, i) + CountOf(Flat(s.batches), i) == 0
  {
    hide Flat, Without, Range;
    var q, n := s.q, NextRequestCount(s.q.(requests := Without(s.q.requests, i), listeners := 0), u.highest, u.config);
    assert AccountedFor(u, q, Flat(s.batches), i);
    CountPositive(q.requests, i);
    WithoutCount(q.requests, i, i);
    CountConcat(Without(q.requests, i), Range(q.blockIndex, n), i);
    RangeCount(q.blockIndex, n, i);
  }
}
