/** Runs of the block queue in which the source may also answer a request with no block. */
module BlockQueueLosses {
  import opened Options
  import opened Indexes
  import opened BlockQueues
  import opened BlockQueueRuns
  import opened BlockQueueOrder

  /** One of the usual events, or an answer that brings no block. */
  datatype Happening = Usual(e: Event) | Missing(i: nat)

  function Following<B>(u: Setup<B>, s: Session<B>, h: Happening): Session<B> {
    match h
    case Usual(e) => Next(u, s, e)
    case Missing(i) => s.(q := Lost(s.q, i, u.highest, u.config).0)
  }

  predicate Possible<B>(s: Session<B>, h: Happening) {
    match h
    case Usual(e) => Enabled(s, e)
    case Missing(i) => i in s.q.requests
  }

  function Since<B>(u: Setup<B>, hs: seq<Happening>): Session<B> {
    if hs == [] then Init(u) else Following(u, Since(u, hs[..|hs| - 1]), hs[|hs| - 1])
  }

  ghost predicate Allowed<B>(u: Setup<B>, hs: seq<Happening>) {
    hs == [] || (Allowed(u, hs[..|hs| - 1]) && Possible(Since(u, hs[..|hs| - 1]), hs[|hs| - 1]))
  }

  /** The indices answered with no block, oldest first. */
  function Losses(hs: seq<Happening>): seq<nat> {
    if hs == [] then []
    else Losses(hs[..|hs| - 1]) + (if hs[|hs| - 1].Missing? then [hs[|hs| - 1].i] else [])
  }

  // ----- What such an answer does at once -----

  lemma NothingMoreToAsk<B>(u: Setup<B>, q: State<B>)
    ensures NextRequestCount(Filled(q, u.highest, u.config), u.highest, u.config) == 0
  {
    hide Range;
  }

  /** Whoever waits is turned away, nobody else is, and the queue asks for as much as it may. */
  lemma MissingTurnsAway<B>(u: Setup<B>, q: State<B>, i: nat)
    ensures var (after, rejected) := Lost(q, i, u.highest, u.config);
            && (rejected <==> q.listeners > 0) && after.listeners == 0
            && after.blocks == q.blocks && i !in after.requests[..|Without(q.requests, i)|]
            && NextRequestCount(after, u.highest, u.config) == 0
  {
    hide Range, NextRequestCount;
    var t := q.(requests := Without(q.requests, i), listeners := 0);
    NothingMoreToAsk(u, t);
    WithoutCount(q.requests, i, i);
    CountPositive(t.requests, i);
    assert Filled(t, u.highest, u.config).requests[..|t.requests|] == t.requests;
  }

  // ----- Conservation with losses -----

  /** Blocks that stand for the lost indices, as if they had been handed out in a batch of their own. */
  function Marks<B>(u: Setup<B>, lost: seq<nat>): seq<Wrapper<B>> {
    if lost == [] then []
    else Marks(u, lost[..|lost| - 1]) + [Wrapper(lost[|lost| - 1], u.src(lost[|lost| - 1]))]
  }

  lemma {:induction false} MarksCount<B>(u: Setup<B>, lost: seq<nat>, x: nat)
    ensures CountOf(Marks(u, lost), x) == Count(lost, x)
  {
    if lost != [] {
      var n := |lost| - 1;
      MarksCount(u, lost[..n], x);
      CountOfConcat(Marks(u, lost[..n]), [Wrapper(lost[n], u.src(lost[n]))], x);
      assert lost == lost[..n] + [lost[n]];
      CountConcat(lost[..n], [lost[n]], x);
    }
  }

  /** The session with the marks put first. */
  function Ledger<B>(u: Setup<B>, s: Session<B>, lost: seq<nat>): Session<B> {
    s.(batches := [Marks(u, lost)] + s.batches)
  }

  lemma {:induction false} FlatFirst<B>(first: seq<Wrapper<B>>, bs: seq<seq<Wrapper<B>>>)
    ensures Flat([first] + bs) == first + Flat(bs)
  {
    var all := [first] + bs;
    if bs == [] {
      assert all == [first] && all[..0] == [] && all[0] == first;
      assert [] + first == first && first + [] == first;
    } else {
      var n := |bs| - 1;
      FlatFirst(first, bs[..n]);
      assert all[..n + 1] == [first] + bs[..n] && all[n + 1] == bs[n];
    }
  }

  /** What the ledger counts: handed out or lost. */
  lemma LedgerCount<B>(u: Setup<B>, s: Session<B>, lost: seq<nat>, x: nat)
    ensures CountOf(Flat(Ledger(u, s, lost).batches), x) == CountOf(Flat(s.batches), x) + Count(lost, x)
  {
    FlatFirst(Marks(u, lost), s.batches);
    CountOfConcat(Marks(u, lost), Flat(s.batches), x);
    MarksCount(u, lost, x);
  }

  lemma UsualOnLedger<B>(u: Setup<B>, s: Session<B>, lost: seq<nat>, e: Event)
    ensures Next(u, Ledger(u, s, lost), e) == Ledger(u, Next(u, s, e), lost)
  {
    hide Effect, Marks;
    var batch := Effect(u, s.q, e).1;
    if batch.Some? {
      assert [Marks(u, lost)] + s.batches + [batch.value] == [Marks(u, lost)] + (s.batches + [batch.value]);
    }
  }

  /** An answer with no block moves its index from the requests to the losses. */
  lemma MissingBalanced<B>(u: Setup<B>, s: Session<B>, lost: seq<nat>, i: nat)
    requires Balanced(u, s.q, Flat(Ledger(u, s, lost).batches)) && Bounded(u, s.q) && i in s.q.requests
    ensures var q := s.q.(requests := Without(s.q.requests, i), listeners := 0);
            Balanced(u, q, Flat(Ledger(u, s, lost + [i]).batches)) && Bounded(u, q)
  {
    hide Flat, Ledger, Without;
    var q := s.q.(requests := Without(s.q.requests, i), listeners := 0);
    var before, after := Flat(Ledger(u, s, lost).batches), Flat(Ledger(u, s, lost + [i]).batches);
    CountPositive(s.q.requests, i);
    assert AccountedFor(u, s.q, before, i);
    forall x: nat ensures AccountedFor(u, q, after, x) {
      assert AccountedFor(u, s.q, before, x);
      WithoutCount(s.q.requests, i, x);
      LedgerCount(u, s, lost, x);
      LedgerCount(u, s, lost + [i], x);
      CountConcat(lost, [i], x);
      CountOne(i, x);
    }
    WithoutCount(s.q.requests, i, i);
  }

  lemma CountOne(i: nat, x: nat)
    ensures Count([i], x) == if x == i then 1 else 0
  {
    assert [i][..0] == [];
  }

  lemma MissingKeeps<B>(u: Setup<B>, s: Session<B>, lost: seq<nat>, i: nat)
    requires Inv(u, Ledger(u, s, lost)) && i in s.q.requests
    ensures Inv(u, Ledger(u, Following(u, s, Missing(i)), lost + [i]))
  {
    hide Flat, Without, Balanced, Bounded, Marks;
    var q := s.q.(requests := Without(s.q.requests, i), listeners := 0);
    MissingBalanced(u, s, lost, i);
    FilledKeeps(u, q, Flat(Ledger(u, s, lost + [i]).batches));
  }

  lemma {:induction false} LedgerHolds<B>(u: Setup<B>, hs: seq<Happening>)
    requires Allowed(u, hs)
    ensures Inv(u, Ledger(u, Since(u, hs), Losses(hs)))
  {
    hide Inv, Next, Lost;
    if hs == [] {
      NothingYet(u);
    } else {
      var before, h := hs[..|hs| - 1], hs[|hs| - 1];
      var s, lost := Since(u, before), Losses(before);
      LedgerHolds(u, before);
      match h {
        case Usual(e) =>
          assert lost + [] == lost;
          UsualKeeps(u, s, lost, e);
        case Missing(i) => MissingKeeps(u, s, lost, i);
      }
    }
  }

  lemma NothingYet<B>(u: Setup<B>)
    ensures Inv(u, Ledger(u, Init(u), []))
  {
    var s := Ledger(u, Init(u), []);
    forall x: nat ensures AccountedFor(u, s.q, Flat(s.batches), x) { LedgerCount(u, Init(u), [], x); }
  }

  lemma UsualKeeps<B>(u: Setup<B>, s: Session<B>, lost: seq<nat>, e: Event)
    requires Inv(u, Ledger(u, s, lost)) && Enabled(s, e)
    ensures Inv(u, Ledger(u, Next(u, s, e), lost))
  {
    hide Inv, Called, Responded;
    UsualOnLedger(u, s, lost, e);
    match e {
      case Call => CalledKeeps(u, Ledger(u, s, lost));
      case Respond(i) => RespondedKeeps(u, Ledger(u, s, lost), i);
      case Fail(_) =>
    }
  }

  /** However the answers come, each requested index is in flight, ready, delivered or lost, once in
      all, and a waiting caller still has a request to wake it. */
  lemma EachOnceOrLost<B>(u: Setup<B>, hs: seq<Happening>, x: nat)
    requires Allowed(u, hs)
    ensures var s := Since(u, hs);
            && Count(s.q.requests, x) + CountOf(s.q.blocks, x) + CountOf(Flat(s.batches), x) + Count(Losses(hs), x)
               == (if u.start <= x < s.q.blockIndex then 1 else 0)
            && Bounded(u, s.q) && Wakeable(s.q)
  {
    hide Flat, Since, Losses, Allowed;
    LedgerHolds(u, hs);
    var s := Since(u, hs);
    LedgerCount(u, s, Losses(hs), x);
    assert AccountedFor(u, s.q, Flat(Ledger(u, s, Losses(hs)).batches), x);
  }

  ghost predicate Present<B>(s: Session<B>, x: nat) {
    Count(s.q.requests, x) + CountOf(s.q.blocks, x) + CountOf(Flat(s.batches), x) == 1
  }

  /** A lost index stays lost: at no later point is it in flight, ready or delivered. */
  lemma LostForGood<B>(u: Setup<B>, hs: seq<Happening>, later: seq<Happening>, x: nat)
    requires Allowed(u, later) && hs <= later && x in Losses(hs)
    ensures var s := Since(u, later);
            && u.start <= x < s.q.blockIndex
            && Count(s.q.requests, x) + CountOf(s.q.blocks, x) + CountOf(Flat(s.batches), x) == 0
  {
    hide Flat, Since, Losses, Allowed, Bounded;
    EachOnceOrLost(u, later, x);
    LossesGrow(hs, later);
    CountPositive(Losses(later), x);
  }

  lemma {:induction false} LossesGrow(hs: seq<Happening>, later: seq<Happening>)
    requires hs <= later
    ensures Losses(hs) <= Losses(later)
  {
    if |hs| == |later| {
      assert hs == later;
    } else {
      LossesGrow(hs, later[..|later| - 1]);
    }
  }

  /** Every requested index is accounted for exactly when no answer was without its block. */
  lemma PresentIffNoLoss<B>(u: Setup<B>, hs: seq<Happening>)
    requires Allowed(u, hs)
    ensures (forall x: nat :: u.start <= x < Since(u, hs).q.blockIndex ==> Present(Since(u, hs), x))
            <==> Losses(hs) == []
  {
    hide Flat, Since, Losses, Allowed, Bounded, Count, CountOf;
    forall x: nat | u.start <= x < Since(u, hs).q.blockIndex
      ensures Present(Since(u, hs), x) <==> x !in Losses(hs)
    {
      EachOnceOrLost(u, hs, x);
      CountPositive(Losses(hs), x);
    }
    if Losses(hs) != [] {
      EachOnceOrLost(u, hs, Losses(hs)[0]);
      CountPositive(Losses(hs), Losses(hs)[0]);
    }
  }

  /** The last happening handed an empty batch to a caller. */
  ghost predicate WentDry<B>(u: Setup<B>, hs: seq<Happening>) {
    && Allowed(u, hs) && hs != [] && hs[|hs| - 1].Usual?
    && Effect(u, Since(u, hs[..|hs| - 1]).q, hs[|hs| - 1].e).1 == Some([])
  }

  /** An empty batch then says that everything up to the highest was delivered once or lost: it means
      that all was delivered exactly when nothing was lost. */
  lemma EmptyBatchMeansDoneOrLost<B>(u: Setup<B>, hs: seq<Happening>)
    requires WentDry(u, hs) && Sane(u.config)
    ensures forall x: nat :: CountOf(Flat(Since(u, hs).batches), x)
                             == if u.start <= x < u.highest && x !in Losses(hs) then 1 else 0
    ensures (forall x: nat :: u.start <= x < u.highest ==> CountOf(Flat(Since(u, hs).batches), x) == 1)
            <==> Losses(hs) == []
  {
    hide Flat, Losses, Allowed, CountOf;
    var s := Since(u, hs);
    DryState(u, hs);
    forall x: nat
      ensures CountOf(Flat(s.batches), x) == if u.start <= x < u.highest && x !in Losses(hs) then 1 else 0
    {
      EachOnceOrLost(u, hs, x);
      CountPositive(Losses(hs), x);
      NoneThere<B>(x);
    }
    if Losses(hs) != [] {
      EachOnceOrLost(u, hs, Losses(hs)[0]);
      CountPositive(Losses(hs), Losses(hs)[0]);
    }
  }

  lemma NoneThere<B>(x: nat)
    ensures CountOf<B>([], x) == 0 && Count([], x) == 0
  {}

  lemma DryState<B>(u: Setup<B>, hs: seq<Happening>)
    requires WentDry(u, hs) && Sane(u.config)
    ensures var q := Since(u, hs).q;
            q.requests == [] && q.blocks == [] && (q.blockIndex == u.highest || u.highest <= u.start == q.blockIndex)
  {
    hide Flat, Ready, Balanced;
    var before := Since(u, hs[..|hs| - 1]);
    LedgerHolds(u, hs[..|hs| - 1]);
    match hs[|hs| - 1].e {
      case Respond(i) =>
        var t := Arrived(before.q, i, u.src(i));
        IdleIsReady(t, u.config);
      case Call =>
        if before.q.blocks != [] { IdleIsReady(before.q, u.config); }
    }
  }
}
