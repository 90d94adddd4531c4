/** Every run of the block validator, with results arriving in any order and repairs failing and
    being retried any number of times, and chains of such runs. */
module ValidatorRuns {
  import opened Indexes
  import opened BlockValidator

  /** Validate the blocks from `start` to `end`; `offset` is the coin's revalidation offset. */
  datatype Job = Job(start: nat, end: nat, offset: nat) {
    function Total(): int { end - start + 1 }
  }

  /** A height is being read (in a channel, or with a fetcher or reader), buffered by the reordering
      stage, queued for repair, under repair, or counted as valid. */
  datatype Validator = Validator(
    reading: seq<nat>, buffered: seq<nat>, next: nat,
    queued: seq<nat>, repairing: seq<nat>, counted: seq<nat>, tally: Tally)

  datatype Event =
    | Arrive(k: nat)               // a result reaches the reordering stage
    | Check(k: nat, valid: bool)   // the result that is due is checked
    | Take(k: nat)                 // a queued block goes under repair
    | Retry(k: nat)                // a repair fails and is queued again
    | Repaired(k: nat)

  function Without(s: seq<nat>, k: nat): seq<nat>
    requires k < |s|
  { s[..k] + s[k + 1..] }

  function Init(j: Job): Validator
    requires j.Total() >= 0
  { Validator(Range(j.start, j.Total()), [], j.start, [], [], [], Tally(0, j.start, 0)) }

  predicate Enabled(s: Validator, e: Event) {
    match e
    case Arrive(k) => k < |s.reading|
    case Check(k, _) => k < |s.buffered| && s.buffered[k] == s.next
    case Take(k) => k < |s.queued|
    case Retry(k) => k < |s.repairing|
    case Repaired(k) => k < |s.repairing|
  }

  function CountValid(j: Job, s: Validator, h: nat): Validator {
    s.(counted := s.counted + [h], tally := Counted(j.start, j.Total(), j.offset, s.tally))
  }

  function Next(j: Job, s: Validator, e: Event): Validator
    requires Enabled(s, e)
  {
    match e
    case Arrive(k) => s.(reading := Without(s.reading, k), buffered := s.buffered + [s.reading[k]])
    case Check(k, valid) =>
      var t := s.(buffered := Without(s.buffered, k), next := s.next + 1);
      if valid then CountValid(j, t, s.next) else t.(queued := s.queued + [s.next])
    case Take(k) => s.(queued := Without(s.queued, k), repairing := s.repairing + [s.queued[k]])
    case Retry(k) => s.(repairing := Without(s.repairing, k), queued := s.queued + [s.repairing[k]])
    case Repaired(k) => CountValid(j, s.(repairing := Without(s.repairing, k)), s.repairing[k])
  }

  ghost predicate Run(j: Job, states: seq<Validator>, events: seq<Event>) {
    && j.start <= j.end && |states| == |events| + 1 && states[0] == Init(j)
    && forall k :: 0 <= k < |events| ==> Enabled(states[k], events[k]) && states[k + 1] == Next(j, states[k], events[k])
  }

  /** With nothing to validate, nothing ever happens: doneChan stays open and the program waits for ever. */
  lemma EmptyRangeWaits(j: Job, e: Event)
    requires j.Total() == 0
    ensures !Enabled(Init(j), e) && Init(j).tally.closes == 0
  {
    assert Range(j.start, 0) == [];
  }

  // ----- Conservation -----

  function Unchecked(s: Validator): nat { |s.reading| + |s.buffered| }

  function Awaiting(s: Validator): nat { |s.queued| + |s.repairing| }

  /** Height h is unchecked, awaiting repair or counted: once in all, and unchecked if not yet due. */
  ghost predicate Once(j: Job, s: Validator, h: nat) {
    && Count(s.reading, h) + Count(s.buffered, h) == (if s.next <= h <= j.end then 1 else 0)
    && Count(s.queued, h) + Count(s.repairing, h) + Count(s.counted, h) == (if j.start <= h < s.next then 1 else 0)
  }

  ghost predicate Tallied(j: Job, s: Validator) {
    && j.start <= s.next <= j.end + 1
    && Unchecked(s) == j.end + 1 - s.next
    && Awaiting(s) + |s.counted| == s.next - j.start
    && s.tally == TallyAfter(j.start, j.Total(), j.offset, |s.counted|)
  }

  ghost predicate Inv(j: Job, s: Validator) { j.start <= j.end && Tallied(j, s) && forall h: nat :: Once(j, s, h) }

  lemma WithoutCount(s: seq<nat>, k: nat, h: nat)
    requires k < |s|
    ensures |Without(s, k)| == |s| - 1 && Count(Without(s, k), h) == Count(s, h) - (if s[k] == h then 1 else 0)
  {
    CountConcat(s[..k], s[k + 1..], h);
    CountConcat(s[..k], s[k..], h);
    assert s == s[..k] + s[k..];
    CountHead(s, k, h);
  }

  lemma AppendCount(s: seq<nat>, x: nat, h: nat)
    ensures Count(s + [x], h) == Count(s, h) + (if x == h then 1 else 0)
  {
    assert (s + [x])[..|s|] == s;
  }

  lemma OnceKept(j: Job, s: Validator, e: Event, h: nat)
    requires Once(j, s, h) && j.start <= s.next && Enabled(s, e) && (e.Check? ==> s.next <= j.end)
    ensures Once(j, Next(j, s, e), h)
  {
    hide Without, Count;
    match e {
      case Arrive(k) => WithoutCount(s.reading, k, h); AppendCount(s.buffered, s.reading[k], h);
      case Check(k, valid) =>
        WithoutCount(s.buffered, k, h);
        AppendCount(s.queued, s.next, h);
        AppendCount(s.counted, s.next, h);
      case Take(k) => WithoutCount(s.queued, k, h); AppendCount(s.repairing, s.queued[k], h);
      case Retry(k) => WithoutCount(s.repairing, k, h); AppendCount(s.queued, s.repairing[k], h);
      case Repaired(k) => WithoutCount(s.repairing, k, h); AppendCount(s.counted, s.repairing[k], h);
    }
  }

  /** A result that is due lies in the range. */
  lemma DueInRange(j: Job, s: Validator, k: nat)
    requires Inv(j, s) && k < |s.buffered| && s.buffered[k] == s.next
    ensures s.next <= j.end
  {
    assert Once(j, s, s.next);
    CountPositive(s.buffered, s.next);
  }

  lemma InvKept(j: Job, s: Validator, e: Event)
    requires Inv(j, s) && Enabled(s, e)
    ensures Inv(j, Next(j, s, e))
  {
    hide Once, Counted, TallyAfter;
    if e.Check? { DueInRange(j, s, e.k); }
    if |s.counted| < j.Total() { CountedIs(j.start, j.Total(), j.offset, |s.counted|); }
    forall h: nat ensures Once(j, Next(j, s, e), h) {
      assert Once(j, s, h);
      OnceKept(j, s, e, h);
    }
  }

  lemma InitInv(j: Job)
    requires j.start <= j.end
    ensures Inv(j, Init(j))
  {
    forall h: nat ensures Once(j, Init(j), h) { RangeCount(j.start, j.Total(), h); }
  }

  lemma {:induction false} RunInv(j: Job, states: seq<Validator>, events: seq<Event>, k: nat)
    requires Run(j, states, events) && k < |states|
    ensures Inv(j, states[k])
  {
    hide Inv, Enabled, Next;
    if k == 0 { InitInv(j); } else {
      RunInv(j, states, events, k - 1);
      InvKept(j, states[k - 1], events[k - 1]);
    }
  }

  /** In every state of every run: validated, awaiting repair and not yet checked add up to the
      total; each height is counted at most once, and no height outside the range ever is; doneChan
      has been closed at most once, and exactly when every height of the range has been counted
      and nothing is left anywhere else. */
  lemma RunConserves(j: Job, states: seq<Validator>, events: seq<Event>, k: nat)
    requires Run(j, states, events) && k < |states|
    ensures var s := states[k];
            && s.tally.validated + Awaiting(s) + Unchecked(s) == j.Total() && s.tally.validated == |s.counted|
            && (forall h: nat :: Count(s.counted, h) <= if j.start <= h <= j.end then 1 else 0)
            && s.tally.closes <= 1 && (s.tally.closes == 1 <==> Awaiting(s) + Unchecked(s) == 0)
            && (s.tally.closes == 1 ==> forall h: nat :: Count(s.counted, h) == if j.start <= h <= j.end then 1 else 0)
  {
    hide Next, Enabled;
    RunInv(j, states, events, k);
    var s := states[k];
    forall h: nat ensures Count(s.counted, h) <= (if j.start <= h <= j.end then 1 else 0)
                          && (s.tally.closes == 1 ==> Count(s.counted, h) == if j.start <= h <= j.end then 1 else 0) {
      assert Once(j, s, h);
    }
  }

  // ----- The watermark -----

  /** The watermark never moves back, and once a block has been counted every height up to it has
      been checked. */
  lemma WatermarkBehaves(j: Job, states: seq<Validator>, events: seq<Event>, k: nat)
    requires Run(j, states, events) && k < |states|
    ensures k > 0 ==> states[k - 1].tally.mark <= states[k].tally.mark
    ensures states[k].tally.validated > 0 ==> states[k].tally.mark < states[k].next
    ensures states[k].tally.closes == 1 ==> states[k].tally.mark == FinalMark(j)
  {
    hide Once;
    RunInv(j, states, events, k);
    if k > 0 { RunInv(j, states, events, k - 1); }
  }

  /** max(startBlock, endBlock + 1 - max(offset, 1)) */
  function FinalMark(j: Job): nat {
    var back := if j.offset > 1 then j.offset else 1;
    if j.end + 1 - back > j.start then j.end + 1 - back else j.start
  }

  // ----- Chains of runs -----

  datatype JobRun = JobRun(job: Job, states: seq<Validator>, events: seq<Event>)

  ghost predicate RanToEnd(r: JobRun) {
    Run(r.job, r.states, r.events) && r.states[|r.states| - 1].tally.closes == 1
  }

  /** Completed runs, each starting from the watermark its predecessor left, with tips that do not drop. */
  ghost predicate Chain(runs: seq<JobRun>) {
    && (forall r :: 0 <= r < |runs| ==> RanToEnd(runs[r]))
    && (forall r :: 0 < r < |runs| ==>
          && runs[r].job.start == runs[r - 1].states[|runs[r - 1].states| - 1].tally.mark
          && runs[r - 1].job.end <= runs[r].job.end)
  }

  /** A chain of completed runs validates every height from its first start to its last tip. */
  lemma {:induction false} ChainValidates(runs: seq<JobRun>, h: nat) returns (r: nat)
    requires Chain(runs) && runs != [] && runs[0].job.start <= h <= runs[|runs| - 1].job.end
    ensures r < |runs| && RanToEnd(runs[r]) && Count(runs[r].states[|runs[r].states| - 1].counted, h) == 1
  {
    hide Run;
    var n := |runs| - 1;
    assert RanToEnd(runs[n]);
    if runs[n].job.start <= h {
      r := n;
      EndsComplete(runs[n], h);
    } else {
      assert n > 0 && RanToEnd(runs[n - 1]);
      EndsComplete(runs[n - 1], h);
      r := ChainValidates(runs[..n], h);
    }
  }

  lemma EndsComplete(r: JobRun, h: nat)
    requires RanToEnd(r)
    ensures |r.states| > 0
    ensures Count(r.states[|r.states| - 1].counted, h) == if r.job.start <= h <= r.job.end then 1 else 0
    ensures r.states[|r.states| - 1].tally.mark <= r.job.end
  {
    RunConserves(r.job, r.states, r.events, |r.states| - 1);
    WatermarkBehaves(r.job, r.states, r.events, |r.states| - 1);
  }

  // ----- The watermark and blocks awaiting repair -----

  /** A block that arrives when it is due is checked at once. */
  lemma ArriveAndCheck(j: Job, s: Validator, valid: bool)
    requires s.buffered == [] && s.reading != [] && s.reading[0] == s.next
    ensures Enabled(s, Arrive(0)) && Enabled(Next(j, s, Arrive(0)), Check(0, valid))
    ensures var t := s.(reading := s.reading[1..], next := s.next + 1);
            Next(j, Next(j, s, Arrive(0)), Check(0, valid))
            == if valid then CountValid(j, t, s.next) else t.(queued := s.queued + [s.next])
  {
    hide CountValid;
    var t := Next(j, s, Arrive(0));
    assert t.buffered == [s.next] && Without(t.buffered, 0) == [];
    assert t.reading == s.reading[1..];
  }

  /** While the first block awaits repair, two later ones can push the watermark past it, so that a
      run restarted from the watermark would not look at it again. */
  lemma WatermarkPassesRepair(j: Job) returns (states: seq<Validator>, events: seq<Event>)
    requires j.start + 2 <= j.end && j.offset < j.Total()
    ensures Run(j, states, events)
    ensures var s := states[|states| - 1]; s.tally.mark > j.start && j.start in s.queued && s.tally.closes == 0
  {
    hide Enabled, Next, Range;
    var s0 := Init(j);
    ArriveAndCheck(j, s0, false);
    var s1 := Next(j, s0, Arrive(0));
    var s2 := Next(j, s1, Check(0, false));
    ArriveAndCheck(j, s2, true);
    var s3 := Next(j, s2, Arrive(0));
    var s4 := Next(j, s3, Check(0, true));
    ArriveAndCheck(j, s4, true);
    var s5 := Next(j, s4, Arrive(0));
    var s6 := Next(j, s5, Check(0, true));
    states := [s0, s1, s2, s3, s4, s5, s6];
    events := [Arrive(0), Check(0, false), Arrive(0), Check(0, true), Arrive(0), Check(0, true)];
  }

  /** No block that awaits repair lies below the watermark. */
  ghost predicate Safe(s: Validator) {
    forall h: nat :: h in s.queued || h in s.repairing ==> s.tally.mark <= h
  }

  /** Ranges of at most two blocks, and ranges no longer than the offset, are safe in every run. */
  lemma WatermarkSafe(j: Job, states: seq<Validator>, events: seq<Event>, k: nat)
    requires Run(j, states, events) && k < |states| && !(j.start + 2 <= j.end && j.offset < j.Total())
    ensures Safe(states[k])
  {
    hide Next, Enabled;
    RunInv(j, states, events, k);
    var s := states[k];
    forall h: nat | h in s.queued || h in s.repairing ensures s.tally.mark <= h {
      assert Once(j, s, h);
      CountPositive(s.queued, h);
      CountPositive(s.repairing, h);
      SomeAwaiting(s, h);
    }
  }

  lemma SomeAwaiting(s: Validator, h: nat)
    requires h in s.queued || h in s.repairing
    ensures Awaiting(s) > 0
  {}

  /** The watermark stays at or below every block awaiting repair, in all runs of a job, exactly when
      the job has at most two blocks or no more blocks than the offset. */
  lemma WatermarkSafeIff(j: Job)
    requires j.start <= j.end
    ensures (forall states: seq<Validator>, events: seq<Event> ::
               Run(j, states, events) ==> Safe(states[|states| - 1]))
            <==> !(j.start + 2 <= j.end && j.offset < j.Total())
  {
    hide Safe;
    if j.start + 2 <= j.end && j.offset < j.Total() {
      var states, events := WatermarkPassesRepair(j);
      var s := states[|states| - 1];
      assert !Safe(s) by { Unsafe(s, j.start); }
    } else {
      forall states: seq<Validator>, events: seq<Event> | Run(j, states, events) ensures Safe(states[|states| - 1]) {
        WatermarkSafe(j, states, events, |states| - 1);
      }
    }
  }

  lemma Unsafe(s: Validator, h: nat)
    requires h in s.queued && h < s.tally.mark
    ensures !Safe(s)
  {}
}
