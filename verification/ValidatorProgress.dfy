/** The block validator always gets on: until doneChan is closed there is something to wait for, and
    only failed repairs put the end off. */
module ValidatorProgress {
  import opened Indexes
  import opened ValidatorRuns

  /** What is left to do for the blocks at each stage. */
  function Rank(s: Validator): nat { 4 * |s.reading| + 3 * |s.buffered| + 2 * |s.queued| + |s.repairing| }

  /** A failed repair costs one step; every other event brings the end nearer. */
  lemma EventRank(j: Job, s: Validator, e: Event)
    requires Enabled(s, e)
    ensures e.Retry? ==> Rank(Next(j, s, e)) == Rank(s) + 1
    ensures !e.Retry? ==> Rank(Next(j, s, e)) < Rank(s)
  {
    hide CountValid;
    match e {
      case Arrive(k) => WithoutCount(s.reading, k, 0);
      case Check(k, _) => WithoutCount(s.buffered, k, 0); CountingMovesNothing(j);
      case Take(k) => WithoutCount(s.queued, k, 0);
      case Retry(k) => WithoutCount(s.repairing, k, 0);
      case Repaired(k) => WithoutCount(s.repairing, k, 0); CountingMovesNothing(j);
    }
  }

  lemma CountingMovesNothing(j: Job)
    ensures forall t: Validator, h: nat :: Rank(CountValid(j, t, h)) == Rank(t)
  {}

  /** Until everything is counted, some event other than a failed repair can happen. */
  lemma AlwaysEnabled(j: Job, s: Validator) returns (e: Event)
    requires Inv(j, s) && s.tally.closes == 0
    ensures Enabled(s, e) && !e.Retry?
  {
    if s.reading != [] {
      e := Arrive(0);
    } else if s.queued != [] {
      e := Take(0);
    } else if s.repairing != [] {
      e := Repaired(0);
    } else {
      assert Once(j, s, s.next);
      CountPositive(s.buffered, s.next);
      var k :| 0 <= k < |s.buffered| && s.buffered[k] == s.next;
      e := Check(k, true);
    }
  }

  function Failures(events: seq<Event>): nat {
    if events == [] then 0 else Failures(events[..|events| - 1]) + (if events[|events| - 1].Retry? then 1 else 0)
  }

  /** A run has at most four events per block, and two more for each failed repair. */
  lemma {:induction false} BoundedRun(j: Job, states: seq<Validator>, events: seq<Event>)
    requires Run(j, states, events)
    ensures |events| + Rank(states[|events|]) <= 4 * j.Total() + 2 * Failures(events)
  {
    hide Enabled, Next, Range, Rank;
    var n := |events| - 1;
    if n < 0 {
      assert Rank(Init(j)) == 4 * j.Total() by { StartRank(j); }
    } else {
      assert Run(j, states[..n + 1], events[..n]);
      BoundedRun(j, states[..n + 1], events[..n]);
      EventRank(j, states[n], events[n]);
    }
  }

  lemma StartRank(j: Job)
    requires j.start <= j.end
    ensures Rank(Init(j)) == 4 * j.Total()
  {}

  /** Every run can be carried on until doneChan is closed. */
  lemma {:induction false} CanFinish(j: Job, states: seq<Validator>, events: seq<Event>)
    returns (all: seq<Validator>, more: seq<Event>)
    requires Run(j, states, events)
    ensures Run(j, all, more) && states <= all && events <= more && all[|all| - 1].tally.closes == 1
    decreases Rank(states[|events|])
  {
    hide Enabled, Next, Rank, Inv;
    all, more := states, events;
    var s := states[|events|];
    RunConserves(j, states, events, |events|);
    if s.tally.closes == 0 {
      RunInv(j, states, events, |events|);
      var e := AlwaysEnabled(j, s);
      EventRank(j, s, e);
      all, more := states + [Next(j, s, e)], events + [e];
      RunExtended(j, states, events, e);
      all, more := CanFinish(j, all, more);
    }
  }

  lemma RunExtended(j: Job, states: seq<Validator>, events: seq<Event>, e: Event)
    requires Run(j, states, events) && Enabled(states[|events|], e)
    ensures Run(j, states + [Next(j, states[|events|], e)], events + [e])
  {
    hide Enabled, Next;
    var all, more := states + [Next(j, states[|events|], e)], events + [e];
    forall k | 0 <= k < |more| ensures Enabled(all[k], more[k]) && all[k + 1] == Next(j, all[k], more[k]) {
      if k < |events| { assert Enabled(states[k], events[k]) && states[k + 1] == Next(j, states[k], events[k]); }
    }
  }
}
