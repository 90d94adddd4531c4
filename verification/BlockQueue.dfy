/** The block queue of the Ethereum monitor: it keeps a bounded number of block requests in
    flight, collects the responses in whatever order they arrive, and hands out batches. */
module BlockQueues {
  import opened Options
  import opened DecimalOrder
  import opened Indexes

  datatype Wrapper<B> = Wrapper(index: nat, block: B)

  datatype Config = Config(maxSize: nat, maxBlockRequests: int, minSize: int)

  const MAX_READY: int := 100

  /** The mutable part of a queue. `listeners` counts the callers waiting for a batch. */
  datatype State<B> = State(blocks: seq<Wrapper<B>>, blockIndex: nat, requests: seq<nat>, listeners: nat)

  // ----- What each operation does, as functions of the state -----

  function Indices<B>(ws: seq<Wrapper<B>>): (s: seq<nat>)
    ensures |s| == |ws| && forall i :: 0 <= i < |ws| ==> s[i] == ws[i].index
  { if ws == [] then [] else Indices(ws[..|ws| - 1]) + [ws[|ws| - 1].index] }

  /** The requests other than the one for x. */
  function Without(s: seq<nat>, x: nat): seq<nat> {
    if s == [] then []
    else if s[|s| - 1] == x then Without(s[..|s| - 1], x)
    else Without(s[..|s| - 1], x) + [s[|s| - 1]]
  }

  /** The blocks whose index is not among `gone`. */
  function Dropping<B>(ws: seq<Wrapper<B>>, gone: seq<nat>): seq<Wrapper<B>> {
    if ws == [] then []
    else if ws[|ws| - 1].index in gone then Dropping(ws[..|ws| - 1], gone)
    else Dropping(ws[..|ws| - 1], gone) + [ws[|ws| - 1]]
  }

  function Insert<B>(ws: seq<Wrapper<B>>, w: Wrapper<B>): seq<Wrapper<B>> {
    if ws == [] || ws[|ws| - 1].index <= w.index then ws + [w]
    else Insert(ws[..|ws| - 1], w) + [ws[|ws| - 1]]
  }

  /** The blocks in ascending order of index. */
  function Sorted<B>(ws: seq<Wrapper<B>>): seq<Wrapper<B>> {
    if ws == [] then [] else Insert(Sorted(ws[..|ws| - 1]), ws[|ws| - 1])
  }

  /** The longest stretch at the front of `ws` whose indices count up from `i`. */
  function Stretch<B>(ws: seq<Wrapper<B>>, i: nat): seq<Wrapper<B>> {
    if ws == [] || ws[0].index != i then [] else [ws[0]] + Stretch(ws[1..], i + 1)
  }

  /** An older request holds the blocks back; the request taken for the oldest is the first in string
      order, and 0 counts as absent. */
  predicate Blocked(requests: seq<nat>, oldest: nat) {
    requests != [] && LexMin(requests) != 0 && oldest > LexMin(requests)
  }

  function Consecutive<B>(blocks: seq<Wrapper<B>>, requests: seq<nat>): seq<Wrapper<B>> {
    var results := Sorted(blocks);
    if results == [] || Blocked(requests, results[0].index) then []
    else Stretch(results, results[0].index)
  }

  function Take<T>(s: seq<T>, n: nat): (r: seq<T>)
    ensures r <= s && |r| <= n
  { if |s| <= n then s else s[..n] }

  function Min(a: int, b: int): int { if a < b then a else b }

  function NextRequestCount<B>(s: State<B>, highest: int, c: Config): nat {
    var count := Min(highest - s.blockIndex,
                     Min(c.maxBlockRequests - |s.requests|, MAX_READY - |s.requests| - |s.blocks|));
    if count < 0 then 0 else count
  }

  function Filled<B>(s: State<B>, highest: int, c: Config): State<B> {
    var n := NextRequestCount(s, highest, c);
    s.(requests := s.requests + Range(s.blockIndex, n), blockIndex := s.blockIndex + n)
  }

  function Ready<B>(s: State<B>, c: Config): seq<Wrapper<B>> { Take(Consecutive(s.blocks, s.requests), c.maxSize) }

  function Released<B>(s: State<B>, batch: seq<Wrapper<B>>): State<B> {
    s.(blocks := Dropping(s.blocks, Indices(batch)))
  }

  function Arrived<B>(s: State<B>, i: nat, block: B): State<B> {
    s.(requests := Without(s.requests, i), blocks := s.blocks + [Wrapper(i, block)])
  }

  /** The response to request `i` arrives; the batch, if any, goes to every waiting listener. */
  function Responded<B>(s: State<B>, i: nat, block: B, highest: int, c: Config): (State<B>, Option<seq<Wrapper<B>>>) {
    var t := Arrived(s, i, block);
    var batch := Ready(t, c);
    if s.listeners > 0 && (|batch| >= c.minSize || t.requests == [])
    then (Filled(Released(t.(listeners := 0), batch), highest, c), Some(batch))
    else (Filled(t, highest, c), None)
  }

  /** The answer to request `i` is no block: every waiting listener is rejected. */
  function Lost<B>(s: State<B>, i: nat, highest: int, c: Config): (State<B>, bool) {
    (Filled(s.(requests := Without(s.requests, i), listeners := 0), highest, c), s.listeners > 0)
  }

  /** A caller asks for blocks: it gets a batch at once, or waits. */
  function Called<B>(s: State<B>, highest: int, c: Config): (State<B>, Option<seq<Wrapper<B>>>) {
    var batch := Ready(s, c);
    if NextRequestCount(s, highest, c) == 0 && s.requests == []
    then (Filled(Released(s, batch), highest, c), Some(batch))
    else
      var t := Filled(s, highest, c);
      if |batch| >= c.minSize then (Filled(Released(t, batch), highest, c), Some(batch))
      else (t.(listeners := t.listeners + 1), None)
  }

  // ----- The class -----

  class BlockQueue<B> {
    var blocks: seq<Wrapper<B>>
    var blockIndex: nat
    var requests: seq<nat>
    var listeners: nat
    const highest: int
    const config: Config

    function Now(): State<B>
      reads this
    { State(blocks, blockIndex, requests, listeners) }

    constructor (start: nat, highest: int, config: Config)
      ensures Now() == State([], start, [], 0) && this.highest == highest && this.config == config
    {
      blocks, blockIndex, requests, listeners := [], start, [], 0;
      this.highest, this.config := highest, config;
    }

    method RemoveRequest(i: nat)
      modifies this
      ensures Now() == old(Now()).(requests := Without(old(requests), i))
    {
      var kept: seq<nat> := [];
      for k := 0 to |requests|
        invariant kept == Without(requests[..k], i) && Now() == old(Now())
      {
        assert requests[..k + 1][..k] == requests[..k];
        if requests[k] != i {
          kept := kept + [requests[k]];
        }
      }
      assert requests[..|requests|] == requests;
      requests := kept;
    }

    method RemoveBlocks(batch: seq<Wrapper<B>>)
      modifies this
      ensures Now() == Released(old(Now()), batch)
    {
      var kept: seq<Wrapper<B>> := [];
      for k := 0 to |blocks|
        invariant kept == Dropping(blocks[..k], Indices(batch)) && Now() == old(Now())
      {
        assert blocks[..k + 1][..k] == blocks[..k];
        if blocks[k].index !in Indices(batch) {
          kept := kept + [blocks[k]];
        }
      }
      assert blocks[..|blocks|] == blocks;
      blocks := kept;
    }

    method AddRequest(i: nat)
      modifies this
      ensures Now() == old(Now()).(requests := old(requests) + [i])
    {
      requests := requests + [i];
    }

    method FillWithNewRequests()
      modifies this
      ensures Now() == Filled(old(Now()), highest, config)
    {
      var requestCount := NextRequestCount(Now(), highest, config);
      if requestCount < 1 {
        assert requests + Range(blockIndex, 0) == requests;
        return;
      }
      for i := 0 to requestCount
        invariant Now() == old(Now()).(requests := old(requests) + Range(old(blockIndex), i),
                                       blockIndex := old(blockIndex) + i)
      {
        AddRequest(blockIndex);
        blockIndex := blockIndex + 1;
      }
    }

    method GetConsecutiveBlocks() returns (batch: seq<Wrapper<B>>)
      ensures batch == Consecutive(blocks, requests)
    {
      var results := Sorted(blocks);
      if results == [] || Blocked(requests, results[0].index) {
        return [];
      }
      var i := results[0].index;
      batch := [];
      var k := 0;
      while k < |results| && results[k].index == i
        invariant k <= |results| && batch + Stretch(results[k..], i) == Stretch(results, results[0].index)
      {
        assert results[k..][1..] == results[k + 1..];
        batch := batch + [results[k]];
        i, k := i + 1, k + 1;
      }
      assert batch + [] == batch;
    }

    /** The source answers request i with a block, or with none. */
    method OnResponse(i: nat, block: Option<B>) returns (batch: Option<seq<Wrapper<B>>>, rejected: bool)
      modifies this
      ensures block.Some? ==> !rejected && (Now(), batch) == Responded(old(Now()), i, block.value, highest, config)
      ensures block.None? ==> batch == None && (Now(), rejected) == Lost(old(Now()), i, highest, config)
    {
      RemoveRequest(i);
      batch, rejected := None, false;
      if block.None? {
        if listeners > 0 {
          listeners := 0;
          rejected := true;
        }
      } else {
        blocks := blocks + [Wrapper(i, block.value)];
        if listeners > 0 {
          var consecutive := GetConsecutiveBlocks();
          var readyBlocks := Take(consecutive, config.maxSize);
          if |readyBlocks| >= config.minSize || |requests| == 0 {
            listeners := 0;
            RemoveBlocks(readyBlocks);
            batch := Some(readyBlocks);
          }
        }
      }
      FillWithNewRequests();
    }

    method ReleaseBlocks(batch: seq<Wrapper<B>>)
      modifies this
      ensures Now() == Filled(Released(old(Now()), batch), highest, config)
    {
      RemoveBlocks(batch);
      FillWithNewRequests();
    }

    method GetBlocks() returns (batch: Option<seq<Wrapper<B>>>)
      modifies this
      ensures (Now(), batch) == Called(old(Now()), highest, config)
    {
      var consecutive := GetConsecutiveBlocks();
      var readyBlocks := Take(consecutive, config.maxSize);
      var nextRequestCount := NextRequestCount(Now(), highest, config);
      if nextRequestCount == 0 && |requests| == 0 {
        ReleaseBlocks(readyBlocks);
        return Some(readyBlocks);
      }
      FillWithNewRequests();
      if |readyBlocks| >= config.minSize {
        ReleaseBlocks(readyBlocks);
        return Some(readyBlocks);
      }
      listeners := listeners + 1;
      return None;
    }
  }
}
