/** The service loop that walks the block table upwards or downwards in batches. */
module BlockServices {
  import opened Options
  import opened DecimalOrder

  datatype BlockState = BlockState(blockIndex: int, step: int, batchSize: int, floor: Option<int>)

  datatype IndexRange = IndexRange(start: int, end: int)

  /** The part of one iteration that others decide: the stored state as read at its start, apart from
      the block index, whoever wrote it last, and how the action ends. */
  datatype Turn = Turn(enabled: bool, step: int, batchSize: int, floor: Option<int>, action: ActionResult)

  /** The action returns a state of its own making, or throws. */
  datatype ActionResult = GoOn(state: BlockState) | Halt(state: BlockState) | Throw

  datatype Reason = Disabled | Exhausted | Halted | Thrown | BadStep | Running

  function Read(index: int, turn: Turn): BlockState { BlockState(index, turn.step, turn.batchSize, turn.floor) }

  function Floor(s: BlockState): int { if s.floor.Some? then s.floor.value else 0 }

  function GetTruncatedBatchSize(s: BlockState, endBlock: int): (size: nat)
    ensures s.step > 0 && s.blockIndex <= endBlock ==> s.blockIndex + size <= endBlock
    ensures s.step <= 0 && Floor(s) <= s.blockIndex ==> Floor(s) <= s.blockIndex - size
    ensures size == 0 <==> s.batchSize <= 0 || AtBound(s, endBlock)
    ensures 0 < size < s.batchSize ==>
              if s.step > 0 then s.blockIndex + size == endBlock else s.blockIndex - size == Floor(s)
    ensures size > 0 ==> size <= s.batchSize
  {
    var boundedSize := if s.step > 0 then endBlock - s.blockIndex else s.blockIndex - Floor(s);
    var size := if boundedSize < s.batchSize then boundedSize else s.batchSize;
    if size < 0 then 0 else size
  }

  /** The decimal string of an integer. */
  function Text(n: int): string { if n < 0 then "-" + Dec(-n) else Dec(n) }

  /** [a, b].sort() as a range. */
  function SortedRange(a: int, b: int): IndexRange {
    if Lex(Text(b), Text(a)) then IndexRange(b, a) else IndexRange(a, b)
  }

  lemma {:induction false} DecStartsHigh(n: nat)
    ensures Dec(n)[0] >= '0'
  {
    if n >= 10 { DecStartsHigh(n / 10); }
  }

  /** Of two negative numbers the strings compare as their absolute values do; a negative number comes
      before any other. */
  lemma TextOrder(a: int, b: int)
    ensures a >= 0 && b >= 0 ==> (Lex(Text(a), Text(b)) <==> Before(a, b))
    ensures a < 0 && b < 0 ==> (Lex(Text(a), Text(b)) <==> Before(-a, -b))
    ensures a < 0 <= b ==> Lex(Text(a), Text(b)) && !Lex(Text(b), Text(a))
  {
    hide Dec;
    if a < 0 && b < 0 {
      assert Text(a)[1..] == Dec(-a) && Text(b)[1..] == Dec(-b);
    } else if a < 0 <= b {
      DecStartsHigh(b);
    }
  }

  /** String order agrees with numeric order on lo and hi. */
  predicate KeepsOrder(lo: int, hi: int) {
    if lo == hi || lo < 0 <= hi then true
    else if lo >= 0 then hi >= 0 && (Digits(lo) >= Digits(hi) || lo <= Lead(hi, Digits(hi) - Digits(lo)))
    else Digits(-lo) > Digits(-hi) && Lead(-lo, Digits(-lo) - Digits(-hi)) < -hi
  }

  /** The string sort leaves a range the right way round exactly when its ends have equally many
      digits or the lower end does not exceed the leading digits of the upper one; below zero it is
      the other way about. */
  lemma SortedRangeAscendsIff(a: int, b: int)
    ensures var lo, hi := if a < b then a else b, if a < b then b else a;
            && (SortedRange(a, b) == IndexRange(lo, hi) <==> KeepsOrder(lo, hi))
            && (SortedRange(a, b) == IndexRange(lo, hi) || SortedRange(a, b) == IndexRange(hi, lo))
  {
    hide Dec, Lead, Lex, Text, Digits;
    var lo, hi := if a < b then a else b, if a < b then b else a;
    TextOrder(lo, hi);
    TextOrder(hi, lo);
    if lo >= 0 {
      DigitsMonotone(lo, hi);
      BeforeIs(lo, hi);
      BeforeIs(hi, lo);
    } else if hi < 0 {
      DigitsMonotone(-hi, -lo);
      BeforeIs(-lo, -hi);
      BeforeIs(-hi, -lo);
    }
  }

  /** A two-block batch across a power of ten is handed over upside down. */
  lemma NineTenIsReversed()
    ensures SortedRange(9, 10) == IndexRange(10, 9)
  {
    assert Dec(9) == [DigitChar(9)] && Dec(1) == [DigitChar(1)];
    assert Dec(10) == [DigitChar(1)] + [DigitChar(0)];
    assert Dec(10)[0] < Dec(9)[0];
  }

  // ----- Tiling -----

  function Ahead(a: int, n: int, step: int): (r: int)
    ensures step == 1 ==> r == a + n
    ensures step == -1 ==> r == a - n
  { a + n * step }

  /** How many steps lead from a to b. */
  function Gap(a: int, b: int, step: int): int { if step > 0 then b - a else a - b }

  /** A batch: its first index in walking order, and its size. */
  datatype Tile = Tile(first: int, size: nat)

  /** The tiles lead from a, without gap or overlap, to b. */
  predicate Tiles(tiles: seq<Tile>, a: int, b: int, step: int) {
    if tiles == [] then a == b
    else
      var last := tiles[|tiles| - 1];
      last.size >= 1 && b == Ahead(last.first, last.size, step) && Tiles(tiles[..|tiles| - 1], a, last.first, step)
  }

  /** `n` indices from `a` on in walking order. */
  function Walk(a: int, n: nat, step: int): (s: seq<int>)
    ensures |s| == n
    ensures step == 1 ==> forall k :: 0 <= k < n ==> s[k] == a + k
    ensures step == -1 ==> forall k :: 0 <= k < n ==> s[k] == a - k
  { if n == 0 then [] else Walk(a, n - 1, step) + [Ahead(a, n - 1, step)] }

  function Walked(tiles: seq<Tile>, step: int): seq<int> {
    if tiles == [] then []
    else Walked(tiles[..|tiles| - 1], step) + Walk(tiles[|tiles| - 1].first, tiles[|tiles| - 1].size, step)
  }

  /** Tiles leading from a to b visit each index on the way once, in order, and no other. */
  lemma {:induction false} TilesWalk(tiles: seq<Tile>, a: int, b: int, step: int)
    requires Tiles(tiles, a, b, step) && (step == 1 || step == -1)
    ensures Gap(a, b, step) >= 0 && Walked(tiles, step) == Walk(a, Gap(a, b, step), step) && (a == b ==> tiles == [])
  {
    hide Ahead;
    if tiles != [] {
      var last := tiles[|tiles| - 1];
      TilesWalk(tiles[..|tiles| - 1], a, last.first, step);
      WalkOn(a, Gap(a, last.first, step), last.size, step);
    }
  }

  lemma {:induction false} WalkOn(a: int, m: nat, n: nat, step: int)
    requires step == 1 || step == -1
    ensures Walk(a, m, step) + Walk(Ahead(a, m, step), n, step) == Walk(a, m + n, step)
  {
    hide Ahead;
  }

  // ----- The loop -----

  /** The two ends of a tile, as handed to the action. */
  predicate HandedFor(tile: Tile, range: IndexRange, step: int) {
    tile.size >= 1 && range == SortedRange(tile.first, Ahead(tile.first, tile.size - 1, step))
  }

  /** The action's range spans exactly the tile when string order keeps its two ends in order, and is
      otherwise upside down. */
  lemma HandedSpansTileIff(tile: Tile, range: IndexRange, step: int)
    requires HandedFor(tile, range, step) && (step == 1 || step == -1)
    ensures var last := Ahead(tile.first, tile.size - 1, step);
            var lo, hi := if step == 1 then tile.first else last, if step == 1 then last else tile.first;
            && (range.start <= range.end <==> KeepsOrder(lo, hi))
            && (range.start <= range.end ==>
                forall i: int :: range.start <= i <= range.end <==> i in Walk(tile.first, tile.size, step))
  {
    hide SortedRange, KeepsOrder, Ahead;
    var last := Ahead(tile.first, tile.size - 1, step);
    SortedRangeAscendsIff(tile.first, last);
    var walk := Walk(tile.first, tile.size, step);
    if range.start <= range.end {
      forall i: int | range.start <= i <= range.end ensures i in walk {
        assert walk[if step == 1 then i - tile.first else tile.first - i] == i;
      }
    }
  }

  predicate AtBound(s: BlockState, endBlock: int) {
    if s.step > 0 then endBlock <= s.blockIndex else s.blockIndex <= Floor(s)
  }

  datatype StepResult =
    | Refused | NoMore | Threw
    | Batch(tile: Tile, range: IndexRange, next: BlockState, shouldContinue: bool)

  /** The action that blockService wraps around a block action: one batch. Of the state the block
      action returns only the block index is replaced. */
  method BlockServiceAction(state: BlockState, endBlock: int, action: ActionResult) returns (r: StepResult)
    ensures r.Refused? <==> state.step != 1 && state.step != -1
    ensures r.NoMore? <==> !r.Refused? && GetTruncatedBatchSize(state, endBlock) == 0
    ensures r.Threw? <==> !r.Refused? && !r.NoMore? && action == Throw
    ensures r.Batch? ==>
      && r.tile == Tile(state.blockIndex, GetTruncatedBatchSize(state, endBlock))
      && HandedFor(r.tile, r.range, state.step)
      && r.next == action.state.(blockIndex := r.next.blockIndex)
      && r.next.blockIndex == Ahead(r.tile.first, r.tile.size, state.step)
      && r.shouldContinue == action.GoOn?
  {
    hide Ahead, SortedRange, GetTruncatedBatchSize;
    if state.step != -1 && state.step != 1 {
      return Refused;
    }
    var batchSize := GetTruncatedBatchSize(state, endBlock);
    if batchSize == 0 {
      return NoMore;
    }
    var range := SortedRange(state.blockIndex, Ahead(state.blockIndex, batchSize - 1, state.step));
    if action == Throw {
      return Threw;
    }
    var next := action.state.(blockIndex := Ahead(state.blockIndex, batchSize, state.step));
    return Batch(Tile(state.blockIndex, batchSize), range, next, action.GoOn?);
  }

  /** Turn, batch and range belong together: the batch is as long as the state read allows. */
  predicate Taken(turn: Turn, endBlock: int, tile: Tile, range: IndexRange) {
    && turn.enabled && (turn.step == 1 || turn.step == -1) && !turn.action.Throw?
    && tile.size == GetTruncatedBatchSize(Read(tile.first, turn), endBlock) && HandedFor(tile, range, turn.step)
  }

  /** The tiles lead from a to b, each going the way its turn says. */
  predicate Leads(tiles: seq<Tile>, turns: seq<Turn>, a: int, b: int)
    requires |tiles| <= |turns|
  {
    if tiles == [] then a == b
    else
      var n := |tiles| - 1;
      b == Ahead(tiles[n].first, tiles[n].size, turns[n].step) && Leads(tiles[..n], turns, a, tiles[n].first)
  }

  /** Why the loop was left after n batches at the given index. */
  predicate LeftBecause(reason: Reason, turns: seq<Turn>, n: nat, index: int, endBlock: int)
    requires n <= |turns|
  {
    && (reason.Halted? <==> n > 0 && turns[n - 1].action.Halt?)
    && (reason.Running? ==> n == |turns|)
    && (!reason.Halted? && !reason.Running? ==>
          && n < |turns| && (reason.Disabled? <==> !turns[n].enabled)
          && (reason.BadStep? <==> turns[n].enabled && turns[n].step != 1 && turns[n].step != -1)
          && (reason.Exhausted? ==> GetTruncatedBatchSize(Read(index, turns[n]), endBlock) == 0)
          && (reason.Thrown? ==> GetTruncatedBatchSize(Read(index, turns[n]), endBlock) > 0 && turns[n].action.Throw?))
  }

  lemma LeadsOn(tiles: seq<Tile>, turns: seq<Turn>, a: int, tile: Tile)
    requires |tiles| < |turns| && Leads(tiles, turns, a, tile.first)
    ensures Leads(tiles + [tile], turns, a, Ahead(tile.first, tile.size, turns[|tiles|].step))
  {
    hide Ahead;
    assert (tiles + [tile])[..|tiles|] == tiles;
  }

  /** `turns` is how far the run is followed. `final` is the stored state when the loop is left,
      `tiles` and `handed` are the batches whose action returned and the ranges they were given. */
  method InnerServiceLoop(initial: BlockState, endBlock: int, turns: seq<Turn>)
    returns (final: BlockState, tiles: seq<Tile>, handed: seq<IndexRange>, reason: Reason)
    ensures |handed| == |tiles| <= |turns| && Leads(tiles, turns, initial.blockIndex, final.blockIndex)
    ensures forall k :: 0 <= k < |tiles| ==> Taken(turns[k], endBlock, tiles[k], handed[k])
    ensures forall k :: 0 <= k < |tiles| - 1 ==> turns[k].action.GoOn?
    ensures LeftBecause(reason, turns, |tiles|, final.blockIndex, endBlock)
    ensures tiles == [] ==> final == initial
    ensures tiles != [] ==>
              (!turns[|tiles| - 1].action.Throw?
               && final == turns[|tiles| - 1].action.state.(blockIndex := final.blockIndex))
  {
    hide Ahead, HandedFor, GetTruncatedBatchSize, Leads;
    final, tiles, handed := initial, [], [];
    assert Leads([], turns, initial.blockIndex, initial.blockIndex) by { LeadsNowhere(turns, initial.blockIndex); }
    while |tiles| < |turns|
      invariant |handed| == |tiles| <= |turns| && Leads(tiles, turns, initial.blockIndex, final.blockIndex)
      invariant forall k :: 0 <= k < |tiles| ==> Taken(turns[k], endBlock, tiles[k], handed[k])
      invariant forall k :: 0 <= k < |tiles| ==> turns[k].action.GoOn?
      invariant tiles == [] ==> final == initial
      invariant tiles != [] ==> final == turns[|tiles| - 1].action.state.(blockIndex := final.blockIndex)
      decreases |turns| - |tiles|
    {
      var turn := turns[|tiles|];
      var state := Read(final.blockIndex, turn);
      if !turn.enabled {
        return final, tiles, handed, Disabled;
      }
      var r := BlockServiceAction(state, endBlock, turn.action);
      if !r.Batch? {
        return final, tiles, handed, if r.Refused? then BadStep else if r.NoMore? then Exhausted else Thrown;
      }
      LeadsOn(tiles, turns, initial.blockIndex, r.tile);
      tiles, handed, final := tiles + [r.tile], handed + [r.range], r.next;
      if !r.shouldContinue {
        return final, tiles, handed, Halted;
      }
    }
    reason := Running;
  }

  lemma LeadsNowhere(turns: seq<Turn>, a: int)
    ensures Leads([], turns, a, a)
  {}

  /** Turns that all go one way. */
  predicate OneWay(turns: seq<Turn>, step: int) { forall k :: 0 <= k < |turns| ==> turns[k].step == step }

  lemma {:induction false} OneWayTiles(tiles: seq<Tile>, turns: seq<Turn>, a: int, b: int, step: int)
    requires |tiles| <= |turns| && Leads(tiles, turns, a, b) && OneWay(turns, step)
    requires forall k :: 0 <= k < |tiles| ==> tiles[k].size >= 1
    ensures Tiles(tiles, a, b, step)
  {
    hide Ahead;
    if tiles != [] {
      var n := |tiles| - 1;
      OneWayTiles(tiles[..n], turns, a, tiles[n].first, step);
    }
  }

  /** Each tile takes at least one step. */
  lemma {:induction false} TilesCount(tiles: seq<Tile>, a: int, b: int, step: int)
    requires Tiles(tiles, a, b, step) && (step == 1 || step == -1)
    ensures |tiles| <= Gap(a, b, step)
  {
    hide Ahead;
    if tiles != [] {
      var n := |tiles| - 1;
      TilesCount(tiles[..n], a, tiles[n].first, step);
    }
  }

  /** No batch goes past the bound. */
  lemma WithinBound(tiles: seq<Tile>, turns: seq<Turn>, handed: seq<IndexRange>, a: int, b: int, endBlock: int)
    requires 0 < |tiles| == |handed| <= |turns| && Leads(tiles, turns, a, b)
    requires forall k :: 0 <= k < |tiles| ==> Taken(turns[k], endBlock, tiles[k], handed[k])
    ensures var last := turns[|tiles| - 1];
            if last.step == 1 then b <= endBlock else Floor(Read(b, last)) <= b
  {
    hide Ahead;
    var n := |tiles| - 1;
    assert Taken(turns[n], endBlock, tiles[n], handed[n]);
  }

  /** Undisturbed turns: enabled, one way, a positive batch size, one floor, and actions that go on. */
  predicate Undisturbed(turns: seq<Turn>, initial: BlockState) {
    && OneWay(turns, initial.step)
    && forall k :: 0 <= k < |turns| ==>
         turns[k].enabled && turns[k].batchSize >= 1 && turns[k].floor == initial.floor && turns[k].action.GoOn?
  }

  function Distance(initial: BlockState, endBlock: int): int {
    if initial.step > 0 then endBlock - initial.blockIndex else initial.blockIndex - Floor(initial)
  }

  /** A run left undisturbed for long enough hands out every index of [b0, endBlock) going up, or of
      (floor, b0] going down, each once and in order, and stops there. */
  method RunToBound(initial: BlockState, endBlock: int, turns: seq<Turn>)
    returns (final: BlockState, tiles: seq<Tile>, handed: seq<IndexRange>, reason: Reason)
    requires (initial.step == 1 || initial.step == -1) && Undisturbed(turns, initial)
    requires |turns| > Distance(initial, endBlock) && turns != []
    ensures reason.Exhausted?
    ensures initial.step == 1 && initial.blockIndex <= endBlock ==>
      final.blockIndex == endBlock && Walked(tiles, 1) == Walk(initial.blockIndex, endBlock - initial.blockIndex, 1)
    ensures initial.step == -1 && initial.floor.None? && 0 <= initial.blockIndex ==>
      final.blockIndex == 0 && Walked(tiles, -1) == Walk(initial.blockIndex, initial.blockIndex, -1)
    ensures initial.step == -1 && initial.floor.Some? && initial.floor.value <= initial.blockIndex ==>
      && final.blockIndex == initial.floor.value
      && Walked(tiles, -1) == Walk(initial.blockIndex, initial.blockIndex - initial.floor.value, -1)
    ensures AtBound(initial, endBlock) ==> tiles == [] && final.blockIndex == initial.blockIndex
    ensures |handed| == |tiles| && forall k :: 0 <= k < |tiles| ==> HandedFor(tiles[k], handed[k], initial.step)
  {
    hide Ahead, Walked, Walk, Tiles, HandedFor, Leads, GetTruncatedBatchSize;
    final, tiles, handed, reason := InnerServiceLoop(initial, endBlock, turns);
    forall k | 0 <= k < |tiles| ensures tiles[k].size >= 1 { TakenSize(turns[k], endBlock, tiles[k], handed[k]); }
    OneWayTiles(tiles, turns, initial.blockIndex, final.blockIndex, initial.step);
    TilesWalk(tiles, initial.blockIndex, final.blockIndex, initial.step);
    TilesCount(tiles, initial.blockIndex, final.blockIndex, initial.step);
    if tiles != [] { WithinBound(tiles, turns, handed, initial.blockIndex, final.blockIndex, endBlock); }
  }

  lemma TakenSize(turn: Turn, endBlock: int, tile: Tile, range: IndexRange)
    requires Taken(turn, endBlock, tile, range)
    ensures tile.size >= 1
  {}
}
