/** The block queue always gets on: there is an event to wait for, and only finitely many of them
    before it runs dry. */
module BlockQueueProgress {
  import opened Options
  import opened Indexes
  import opened BlockQueues
  import opened BlockQueueRuns
  import opened BlockQueueOrder

  /** What is left to do: blocks to request, to receive and to hand out, and a call to wait for. */
  function Rank<B>(u: Setup<B>, q: State<B>): nat {
    (if q.blockIndex < u.highest then 4 * (u.highest - q.blockIndex) else 0)
    + 3 * |q.requests| + 2 * |q.blocks| + (if q.listeners == 0 then 1 else 0)
  }

  lemma FilledRank<B>(u: Setup<B>, q: State<B>)
    ensures Rank(u, Filled(q, u.highest, u.config)) <= Rank(u, q)
  {
    hide Range;
  }

  lemma {:induction false} DroppingShrinks<B>(ws: seq<Wrapper<B>>, gone: seq<nat>)
    ensures |Dropping(ws, gone)| <= |ws|
    ensures (exists k :: 0 <= k < |ws| && ws[k].index in gone) ==> |Dropping(ws, gone)| < |ws|
  {
    if ws != [] {
      var n := |ws| - 1;
      DroppingShrinks(ws[..n], gone);
      if k :| 0 <= k < |ws| && ws[k].index in gone && k < n { assert ws[..n][k].index in gone; }
    }
  }

  /** Handing out a batch leaves fewer blocks. */
  lemma ReleasedRank<B>(u: Setup<B>, q: State<B>, t: State<B>)
    requires q.blocks == t.blocks && Ready(q, u.config) != []
    ensures Rank(u, Released(t, Ready(q, u.config))) <= Rank(u, t) - 2
  {
    hide Dropping, Ready;
    var batch := Ready(q, u.config);
    ReadyIsPrefix(q, u.config);
    SortedAscends(q.blocks);
    hide Sorted;
    assert batch[0] == Sorted(q.blocks)[0] && batch[0] in q.blocks;
    var k :| 0 <= k < |q.blocks| && q.blocks[k] == batch[0];
    assert Indices(batch)[0] == q.blocks[k].index;
    DroppingShrinks(t.blocks, Indices(batch));
  }

  lemma ArrivedRank<B>(u: Setup<B>, q: State<B>, i: nat, out: seq<Wrapper<B>>)
    requires Balanced(u, q, out) && Bounded(u, q) && i in q.requests
    ensures Rank(u, Arrived(q, i, u.src(i))) == Rank(u, q) - 1
  {
    ArrivedKeeps(u, q, out, i, u.src(i));
  }

  lemma RespondRank<B>(u: Setup<B>, s: Session<B>, i: nat)
    requires Inv(u, s) && Sane(u.config) && i in s.q.requests
    ensures Rank(u, Next(u, s, Respond(i)).q) < Rank(u, s.q)
  {
    hide Ready, Without, Dropping, Filled, Balanced, Bounded, Flat, Rank;
    var t := Arrived(s.q, i, u.src(i));
    ArrivedRank(u, s.q, i, Flat(s.batches));
    var batch := Ready(t, u.config);
    if s.q.listeners > 0 && (|batch| >= u.config.minSize || t.requests == []) {
      if t.requests == [] { IdleIsReady(t, u.config); }
      var free := t.(listeners := 0);
      assert Rank(u, free) == Rank(u, t) + 1 by { FreeRank(u, t); }
      ReleasedRank(u, t, free);
      FilledRank(u, Released(free, batch));
    } else {
      FilledRank(u, t);
    }
  }

  lemma FreeRank<B>(u: Setup<B>, q: State<B>)
    requires q.listeners > 0
    ensures Rank(u, q.(listeners := 0)) == Rank(u, q) + 1
  {}

  lemma WaitRank<B>(u: Setup<B>, q: State<B>)
    requires q.listeners == 0
    ensures Rank(u, q.(listeners := 1)) == Rank(u, q) - 1
  {}

  lemma CallRank<B>(u: Setup<B>, s: Session<B>)
    requires Sane(u.config) && s.q.listeners == 0 && Effect(u, s.q, Call).1 != Some([])
    ensures Rank(u, Next(u, s, Call).q) < Rank(u, s.q)
  {
    hide Ready, Dropping, Rank;
    var batch, filled := Ready(s.q, u.config), Filled(s.q, u.highest, u.config);
    FilledRank(u, s.q);
    if NextRequestCount(s.q, u.highest, u.config) == 0 && s.q.requests == [] {
      ReleasedRank(u, s.q, s.q);
      FilledRank(u, Released(s.q, batch));
    } else if |batch| >= u.config.minSize {
      ReleasedRank(u, s.q, filled);
      FilledRank(u, Released(filled, batch));
    } else {
      WaitRank(u, filled);
    }
  }

  /** Until the queue runs dry, every event but a failed request brings the end nearer. */
  lemma EventRank<B>(u: Setup<B>, s: Session<B>, e: Event)
    requires Inv(u, s) && Sane(u.config) && Enabled(s, e) && !e.Fail? && Effect(u, s.q, e).1 != Some([])
    ensures Rank(u, Next(u, s, e).q) < Rank(u, s.q)
  {
    hide Inv, Rank, Called, Responded;
    match e {
      case Call => CallRank(u, s);
      case Respond(i) => RespondRank(u, s, i);
    }
  }

  /** A caller can call, or a request in flight can be answered. */
  lemma AlwaysEnabled<B>(u: Setup<B>, s: Session<B>) returns (e: Event)
    requires Inv(u, s)
    ensures Enabled(s, e) && !e.Fail?
  {
    e := if s.q.listeners == 0 then Call else Respond(s.q.requests[0]);
  }

  function Successes(es: seq<Event>): nat {
    if es == [] then 0 else Successes(es[..|es| - 1]) + (if es[|es| - 1].Fail? then 0 else 1)
  }

  ghost predicate NeverDry<B>(u: Setup<B>, es: seq<Event>) {
    es == [] || (NeverDry(u, es[..|es| - 1]) && LastBatch(u, es) != Some([]))
  }

  /** However often requests fail, calls and answers are bounded until the queue runs dry. */
  lemma {:induction false} BoundedRun<B>(u: Setup<B>, es: seq<Event>)
    requires Legal(u, es) && Sane(u.config) && NeverDry(u, es)
    ensures Successes(es) + Rank(u, After(u, es).q) <= Rank(u, Init(u).q)
  {
    hide Inv, Rank, Called, Responded;
    if es != [] {
      var n := |es| - 1;
      BoundedRun(u, es[..n]);
      ReachableInv(u, es[..n]);
      if !es[n].Fail? { EventRank(u, After(u, es[..n]), es[n]); }
    }
  }

  /** From every reachable state the queue can go on to run dry. */
  lemma {:induction false} CanRunDry<B>(u: Setup<B>, es: seq<Event>) returns (fs: seq<Event>)
    requires Legal(u, es) && Sane(u.config)
    ensures RanDry(u, fs) && es <= fs
    decreases Rank(u, After(u, es).q)
  {
    hide Inv, Rank, Enabled, Called, Responded;
    ReachableInv(u, es);
    var s := After(u, es);
    var e := AlwaysEnabled(u, s);
    fs := es + [e];
    assert fs[..|es|] == es;
    if Effect(u, s.q, e).1 != Some([]) {
      EventRank(u, s, e);
      fs := CanRunDry(u, fs);
    }
  }
}
