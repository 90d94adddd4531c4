/** Runs of the block queue in which callers do not wait for each other: what a response completes goes
    to every caller that waits. */
module BlockQueueCallers {
  import opened Indexes
  import opened BlockQueues
  import opened BlockQueueRuns
  import opened BlockQueueOrder

  /** The events can happen in turn, whoever is waiting when a caller calls. */
  ghost predicate Open<B>(u: Setup<B>, es: seq<Event>) {
    es == [] || (Open(u, es[..|es| - 1])
                 && (es[|es| - 1].Call? || Enabled(After(u, es[..|es| - 1]), es[|es| - 1])))
  }

  /** How many callers get the batch that the event hands out. */
  function Copies<B>(s: Session<B>, e: Event): nat { if e.Call? then 1 else s.q.listeners }

  /** How often the callers together receive a block of index x. */
  function Received<B>(u: Setup<B>, es: seq<Event>, x: nat): nat {
    if es == [] then 0
    else
      var s, e := After(u, es[..|es| - 1]), es[|es| - 1];
      var batch := Effect(u, s.q, e).1;
      Received(u, es[..|es| - 1], x) + (if batch.Some? then Product(Copies(s, e), CountOf(batch.value, x)) else 0)
  }

  function Product(a: nat, b: nat): (p: nat)
    ensures a == 1 ==> p == b
    ensures a >= 2 && b >= 1 ==> p >= 2
  { a * b }

  /** At no point did two callers wait. */
  ghost predicate NeverTwo<B>(u: Setup<B>, es: seq<Event>) {
    After(u, es).q.listeners <= 1 && (es == [] || NeverTwo(u, es[..|es| - 1]))
  }

  predicate NoCalls(es: seq<Event>) { forall k :: 0 <= k < |es| ==> !es[k].Call? }

  // ----- Conservation, however many wait -----

  ghost predicate OpenInv<B>(u: Setup<B>, s: Session<B>) {
    && Balanced(u, s.q, Flat(s.batches)) && Bounded(u, s.q)
    && (s.q.listeners > 0 ==> s.q.requests != [])
  }

  lemma OpenCalled<B>(u: Setup<B>, s: Session<B>)
    requires OpenInv(u, s)
    ensures OpenInv(u, Next(u, s, Call)) && Next(u, s, Call).q.listeners >= s.q.listeners
  {
    hide Flat, Ready, Balanced, Bounded, Dropping;
    var q, out, batch := s.q, Flat(s.batches), Ready(s.q, u.config);
    forall x: nat ensures CountOf(batch, x) <= CountOf(q.blocks, x) { ReadyCount(q, u.config, x); }
    FlatAppend(s.batches, batch);
    if NextRequestCount(q, u.highest, u.config) == 0 && q.requests == [] {
      ReleasedKeeps(u, q, out, batch);
      FilledKeeps(u, Released(q, batch), out + batch);
    } else {
      FilledKeeps(u, q, out);
      var t := Filled(q, u.highest, u.config);
      assert t.requests != [];
      if |batch| >= u.config.minSize {
        ReleasedKeeps(u, t, out, batch);
        FilledKeeps(u, Released(t, batch), out + batch);
      } else {
        ListenersDoNotCount(u, t, out, t.listeners + 1);
      }
    }
  }

  lemma OpenResponded<B>(u: Setup<B>, s: Session<B>, i: nat)
    requires OpenInv(u, s) && i in s.q.requests
    ensures OpenInv(u, Next(u, s, Respond(i)))
  {
    hide Flat, Ready, Balanced, Bounded, Dropping, Without;
    var q, out := s.q, Flat(s.batches);
    var t := Arrived(q, i, u.src(i));
    ArrivedKeeps(u, q, out, i, u.src(i));
    var batch := Ready(t, u.config);
    forall x: nat ensures CountOf(batch, x) <= CountOf(t.blocks, x) { ReadyCount(t, u.config, x); }
    FlatAppend(s.batches, batch);
    if q.listeners > 0 && (|batch| >= u.config.minSize || t.requests == []) {
      ListenersDoNotCount(u, t, out, 0);
      ReleasedKeeps(u, t.(listeners := 0), out, batch);
      FilledKeeps(u, Released(t.(listeners := 0), batch), out + batch);
    } else {
      FilledKeeps(u, t, out);
      assert q.listeners > 0 ==> t.requests != [];
    }
  }

  lemma {:induction false} OpenHolds<B>(u: Setup<B>, es: seq<Event>)
    requires Open(u, es)
    ensures OpenInv(u, After(u, es))
  {
    hide OpenInv, Called, Responded;
    if es == [] {
      OpenStarts(u);
    } else {
      OpenHolds(u, es[..|es| - 1]);
      match es[|es| - 1] {
        case Call => OpenCalled(u, After(u, es[..|es| - 1]));
        case Respond(i) => OpenResponded(u, After(u, es[..|es| - 1]), i);
        case Fail(_) =>
      }
    }
  }

  lemma OpenStarts<B>(u: Setup<B>)
    ensures OpenInv(u, Init(u))
  {
    forall x: nat ensures AccountedFor(u, Init(u).q, Flat(Init(u).batches), x) {}
  }

  // ----- One at a time -----

  /** Only a waiting caller is handed something by a response. */
  lemma HandedToWaiting<B>(u: Setup<B>, s: Session<B>, e: Event)
    requires Effect(u, s.q, e).1.Some? && s.q.listeners <= 1
    ensures Copies(s, e) == 1
  {
    hide Ready, Filled, Without, Dropping;
  }

  lemma {:induction false} ReceivedAsHandedOut<B>(u: Setup<B>, es: seq<Event>, x: nat)
    requires NeverTwo(u, es)
    ensures Received(u, es, x) == CountOf(Flat(After(u, es).batches), x)
  {
    hide Effect, Product, CountOf, Flat;
    if es == [] {
      assert CountOf(Flat(Init(u).batches), x) == 0 by { NothingReceived(u, x); }
    } else {
      var before, e := es[..|es| - 1], es[|es| - 1];
      var s := After(u, before);
      ReceivedAsHandedOut(u, before, x);
      var batch := Effect(u, s.q, e).1;
      if batch.Some? {
        HandedToWaiting(u, s, e);
        FlatAppend(s.batches, batch.value);
        CountOfConcat(Flat(s.batches), batch.value, x);
      }
    }
  }

  lemma NothingReceived<B>(u: Setup<B>, x: nat)
    ensures CountOf(Flat(Init(u).batches), x) == 0
  {}

  /** While no two wait, no block is received twice. */
  lemma ReceivedOnce<B>(u: Setup<B>, es: seq<Event>, x: nat)
    requires Open(u, es) && NeverTwo(u, es)
    ensures Received(u, es, x) <= 1
  {
    hide After, Open, NeverTwo, Flat, Received;
    OpenHolds(u, es);
    ReceivedAsHandedOut(u, es, x);
    var s := After(u, es);
    assert AccountedFor(u, s.q, Flat(s.batches), x);
  }

  /** Callers that take turns never have company. */
  lemma {:induction false} TakingTurns<B>(u: Setup<B>, es: seq<Event>)
    requires Legal(u, es)
    ensures Open(u, es) && NeverTwo(u, es)
  {
    hide Next, Balanced, Bounded, Flat;
    if es != [] { TakingTurns(u, es[..|es| - 1]); }
    ReachableInv(u, es);
  }

  // ----- Two at a time -----

  /** What a response hands out is not empty. */
  lemma SomethingHandedOut<B>(u: Setup<B>, s: Session<B>, i: nat)
    requires Sane(u.config) && Effect(u, s.q, Respond(i)).1.Some?
    ensures Effect(u, s.q, Respond(i)).1.value != []
  {
    hide Ready, Filled, Without, Dropping;
    var t := Arrived(s.q, i, u.src(i));
    if t.requests == [] { IdleIsReady(t, u.config); }
  }

  /** If two wait, a response either leaves them waiting or has both receive the same block. */
  lemma BothWait<B>(u: Setup<B>, es: seq<Event>, e: Event) returns (x: nat)
    requires Sane(u.config) && After(u, es).q.listeners >= 2
    ensures After(u, es + [e]).q.listeners >= 2 || Received(u, es + [e], x) >= 2
  {
    hide Product, Ready, Range, NextRequestCount, Without, Dropping, Received;
    var s, fs := After(u, es), es + [e];
    assert fs[..|es|] == es;
    x := 0;
    if e.Respond? && Effect(u, s.q, e).1.Some? {
      SomethingHandedOut(u, s, e.i);
      var batch := Effect(u, s.q, e).1.value;
      x := batch[0].index;
      assert Indices(batch)[0] == x;
      CountOfPositive(batch, x);
      ReceivedStep(u, fs, x);
    }
  }

  lemma ReceivedStep<B>(u: Setup<B>, es: seq<Event>, x: nat)
    requires es != []
    ensures var s, e := After(u, es[..|es| - 1]), es[|es| - 1];
            var batch := Effect(u, s.q, e).1;
            Received(u, es, x) == Received(u, es[..|es| - 1], x)
                                  + if batch.Some? then Product(Copies(s, e), CountOf(batch.value, x)) else 0
  {}

  /** Once two have waited, they still do, or some block has been received twice. */
  lemma {:induction false} TwoWaited<B>(u: Setup<B>, es: seq<Event>) returns (x: nat)
    requires Sane(u.config) && !NeverTwo(u, es)
    ensures After(u, es).q.listeners >= 2 || Received(u, es, x) >= 2
  {
    hide Next, Received;
    x := 0;
    if es != [] && !NeverTwo(u, es[..|es| - 1]) {
      var before, e := es[..|es| - 1], es[|es| - 1];
      x := TwoWaited(u, before);
      if Received(u, before, x) >= 2 {
        ReceivedStep(u, es, x);
      } else {
        assert es == before + [e];
        x := BothWait(u, before, e);
      }
    }
  }

  /** What is still to be asked for and answered. */
  function Due<B>(u: Setup<B>, q: State<B>): nat {
    (if q.blockIndex < u.highest then 2 * (u.highest - q.blockIndex) else 0) + |q.requests|
  }

  lemma AnswerLowersDue<B>(u: Setup<B>, s: Session<B>, i: nat)
    requires OpenInv(u, s) && i in s.q.requests
    ensures Due(u, Next(u, s, Respond(i)).q) < Due(u, s.q)
  {
    hide Ready, Without, Dropping, Range, Balanced, Bounded, Flat;
    ArrivedKeeps(u, s.q, Flat(s.batches), i, u.src(i));
  }

  /** Two that wait can always go on to receive the same block. */
  lemma {:induction false} BothReceive<B>(u: Setup<B>, es: seq<Event>) returns (fs: seq<Event>, x: nat)
    requires Open(u, es) && Sane(u.config) && After(u, es).q.listeners >= 2
    ensures NoCalls(fs) && Open(u, es + fs) && Received(u, es + fs, x) >= 2
    decreases Due(u, After(u, es).q)
  {
    hide Next, Received, Due;
    OpenHolds(u, es);
    var s := After(u, es);
    var i := s.q.requests[0];
    var more := es + [Respond(i)];
    assert more[..|es|] == es;
    x := BothWait(u, es, Respond(i));
    fs := [Respond(i)];
    if Received(u, more, x) < 2 {
      AnswerLowersDue(u, s, i);
      fs, x := BothReceive(u, more);
      assert es + ([Respond(i)] + fs) == more + fs;
      fs := [Respond(i)] + fs;
    }
  }

  lemma {:induction false} NobodyJoins<B>(u: Setup<B>, es: seq<Event>, fs: seq<Event>)
    requires NeverTwo(u, es) && NoCalls(fs)
    ensures NeverTwo(u, es + fs)
  {
    if fs == [] {
      assert es + fs == es;
    } else {
      var n := |fs| - 1;
      NobodyJoins(u, es, fs[..n]);
      assert (es + fs)[..|es| + n] == es + fs[..n];
      StillAlone(u, After(u, es + fs[..n]), fs[n]);
    }
  }

  lemma StillAlone<B>(u: Setup<B>, s: Session<B>, e: Event)
    requires s.q.listeners <= 1 && !e.Call?
    ensures Next(u, s, e).q.listeners <= 1
  {
    hide Ready, Range, NextRequestCount, Without, Dropping;
  }

  /** No block is received twice, now or whatever the answers still due bring, exactly when no two callers
      have waited at the same time. */
  lemma ReceivedOnceIff<B>(u: Setup<B>, es: seq<Event>)
    requires Open(u, es) && Sane(u.config)
    ensures (forall fs: seq<Event>, x: nat :: NoCalls(fs) && Open(u, es + fs) ==> Received(u, es + fs, x) <= 1)
            <==> NeverTwo(u, es)
  {
    hide Open, NeverTwo, Received, After;
    if NeverTwo(u, es) {
      forall fs: seq<Event>, x: nat | NoCalls(fs) && Open(u, es + fs) ensures Received(u, es + fs, x) <= 1 {
        NobodyJoins(u, es, fs);
        ReceivedOnce(u, es + fs, x);
      }
    } else {
      var none: seq<Event> := [];
      assert es + none == es;
      var x := TwoWaited(u, es);
      if Received(u, es + none, x) <= 1 {
        var fs, y := BothReceive(u, es);
        assert NoCalls(fs) && Open(u, es + fs) && !(Received(u, es + fs, y) <= 1);
      } else {
        assert NoCalls(none) && Open(u, es + none) && !(Received(u, es + none, x) <= 1);
      }
    }
  }

  /** Two callers at the start of a range share its first batch. */
  lemma TwoCallersShare<B>(u: Setup<B>) returns (fs: seq<Event>, x: nat)
    requires Sane(u.config) && u.start < u.highest
    ensures NoCalls(fs) && Open(u, [Call, Call] + fs) && Received(u, [Call, Call] + fs, x) >= 2
  {
    hide Received, Ready, Range;
    var one, two := [Call], [Call, Call];
    assert one[..0] == [] && two[..1] == one;
    assert After(u, one[..0]) == Init(u);
    NoneReadyYet(Init(u).q, u.config);
    var s := After(u, one).q;
    assert s.blocks == [] && s.listeners == 1 && |s.requests| > 0;
    NoneReadyYet(s, u.config);
    assert After(u, two).q.listeners == 2;
    assert Open(u, one) && Open(u, two);
    fs, x := BothReceive(u, two);
  }

  lemma NoneReadyYet<B>(q: State<B>, c: Config)
    requires q.blocks == []
    ensures Ready(q, c) == []
  {}
}
