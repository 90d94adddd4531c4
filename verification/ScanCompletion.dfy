/** Exactly when a whole pass of the scanner completes, read off the tables it starts from, the node's
    blocks and the batches the queue hands out. */
module ScanCompletion {
  import opened BlockQueues
  import opened BlockQueueRuns
  import opened BlockQueueOrder
  import opened BlockQueueExact
  import opened BlockTables
  import opened ScanPass
  import opened ScanContents
  import opened ScanRecords

  ghost predicate Has<B>(batches: seq<seq<Wrapper<B>>>, i: nat) { CountOf(Flat(batches), i) > 0 }

  /** The block at index i is one that the scanner has to save. */
  predicate Differs(t: Tables, node: nat -> Bundle, i: nat) { StatusOf(t.blocks, i, node(i).hash) != Same }

  predicate Names(node: nat -> Bundle, i: nat, k: nat, id: TxId) { k < |node(i).txs| && node(i).txs[k].id == id }

  /** Among the blocks handed out, the transaction is only in block i at place k. */
  ghost predicate Sole(node: nat -> Bundle, batches: seq<seq<Wrapper<Bundle>>>, id: TxId, i: nat, k: nat) {
    forall j: nat, l: nat :: Has(batches, j) && Names(node, j, l, id) ==> j == i && l == k
  }

  /** If the transaction is stored, then under an index that has been handed out. */
  ghost predicate Cleared(t: Tables, batches: seq<seq<Wrapper<Bundle>>>, id: TxId) {
    id in t.transactions ==> Has(batches, t.transactions[id])
  }

  /** Nothing stands in the way of the transactions of the last batch. */
  ghost predicate LastFits(node: nat -> Bundle, t: Tables, batches: seq<seq<Wrapper<Bundle>>>)
    requires batches != []
  {
    forall i: nat, k: nat, id: TxId ::
      CountOf(batches[|batches| - 1], i) > 0 && Differs(t, node, i) && Names(node, i, k, id)
      ==> Sole(node, batches, id, i, k) && Cleared(t, batches, id)
  }

  /** Every transaction to be saved is in one of the blocks handed out, at one place, and if it is stored,
      then under an index handed out in the same batch as its block or before. */
  ghost predicate Fits(node: nat -> Bundle, t: Tables, batches: seq<seq<Wrapper<Bundle>>>) {
    forall b, i: nat, k: nat, id: TxId ::
      0 <= b < |batches| && CountOf(batches[b], i) > 0 && Differs(t, node, i) && Names(node, i, k, id)
      ==> Sole(node, batches, id, i, k) && Cleared(t, batches[..b + 1], id)
  }

  ghost predicate OnceEach<B>(batches: seq<seq<Wrapper<B>>>) { forall i: nat :: CountOf(Flat(batches), i) <= 1 }

  // ----- The transactions of a list of blocks -----

  ghost predicate Apart(bundles: seq<Bundle>) {
    forall a, b :: 0 <= a < b < |bundles| ==> bundles[a].index != bundles[b].index
  }

  /** Each transaction of the bundles is in one of them, at one place. */
  ghost predicate Unshared(node: nat -> Bundle, bundles: seq<Bundle>) {
    forall a, b, k: nat, l: nat, id: TxId ::
      && 0 <= a < |bundles| && 0 <= b < |bundles|
      && Names(node, bundles[a].index, k, id) && Names(node, bundles[b].index, l, id)
      ==> bundles[a].index == bundles[b].index && k == l
  }

  lemma {:induction false} UnsharedDistinct(node: nat -> Bundle, bundles: seq<Bundle>)
    requires FromNode(node, bundles) && Apart(bundles) && Unshared(node, bundles)
    ensures Distinct(AllTxs(bundles))
  {
    if bundles != [] {
      var n := |bundles| - 1;
      var head, last := bundles[..n], bundles[n];
      assert forall a :: 0 <= a < n ==> head[a] == bundles[a];
      UnsharedDistinct(node, head);
      var txs := AllTxs(bundles);
      var m := |AllTxs(head)|;
      forall p, q | 0 <= p < q < |txs| ensures txs[p].id != txs[q].id {
        if q < m {
          assert txs[p] == AllTxs(head)[p] && txs[q] == AllTxs(head)[q];
        } else {
          assert txs[q] == last.txs[q - m] && Names(node, last.index, q - m, txs[q].id);
          if p < m {
            var b := AllTxsMember(head, p);
            var k :| 0 <= k < |head[b].txs| && head[b].txs[k] == txs[p];
            assert Names(node, bundles[b].index, k, txs[p].id);
          } else {
            assert Names(node, last.index, p - m, txs[p].id);
          }
        }
      }
    }
  }

  lemma {:induction false} DistinctUnshared(node: nat -> Bundle, bundles: seq<Bundle>, a: nat, k: nat, b: nat, l: nat)
    requires FromNode(node, bundles) && Distinct(AllTxs(bundles)) && a < |bundles| && b < |bundles|
    requires k < |bundles[a].txs| && l < |bundles[b].txs| && bundles[a].txs[k].id == bundles[b].txs[l].id
    ensures a == b && k == l
  {
    var n := |bundles| - 1;
    var head, txs := bundles[..n], AllTxs(bundles);
    var m := |AllTxs(head)|;
    assert Distinct(AllTxs(head)) by {
      forall p, q | 0 <= p < q < m ensures AllTxs(head)[p].id != AllTxs(head)[q].id {
        assert txs[p] == AllTxs(head)[p] && txs[q] == AllTxs(head)[q];
      }
    }
    if a < n && b < n {
      DistinctUnshared(node, head, a, k, b, l);
    } else if a < n {
      LastIsNew(bundles, a, k, l);
    } else if b < n {
      LastIsNew(bundles, b, l, k);
    } else {
      assert txs[m + k] == bundles[n].txs[k] && txs[m + l] == bundles[n].txs[l];
    }
  }

  lemma LastIsNew(bundles: seq<Bundle>, a: nat, k: nat, l: nat)
    requires Distinct(AllTxs(bundles)) && a < |bundles| - 1
    requires k < |bundles[a].txs| && l < |bundles[|bundles| - 1].txs|
    ensures bundles[a].txs[k].id != bundles[|bundles| - 1].txs[l].id
  {
    var n := |bundles| - 1;
    var head, txs := bundles[..n], AllTxs(bundles);
    AllTxsHas(head, a, bundles[a].txs[k]);
    var p :| 0 <= p < |AllTxs(head)| && AllTxs(head)[p] == bundles[a].txs[k];
    assert txs[p] == AllTxs(head)[p] && txs[|AllTxs(head)| + l] == bundles[n].txs[l];
  }

  // ----- The blocks to save -----

  lemma {:induction false} PickedApart(node: nat -> Bundle, blocks: map<nat, Hash>, bundles: seq<Bundle>, n: nat,
                                       status: Status)
    requires FromNode(node, bundles) && Apart(bundles) && n <= |bundles|
    ensures Apart(Picked(blocks, bundles, n, status))
  {
    if n > 0 {
      var b, rest := bundles[n - 1], Picked(blocks, bundles, n - 1, status);
      PickedApart(node, blocks, bundles, n - 1, status);
      PickedIs(node, blocks, bundles, n - 1, status);
      MappedFromNode(node, bundles, n - 1);
      forall a | 0 <= a < |rest| ensures rest[a].index != b.index {
        CoversAt(rest, a);
        var c := CoversWitness(bundles[..n - 1], rest[a].index);
      }
    }
  }

  lemma SavedApart(node: nat -> Bundle, t: Tables, bundles: seq<Bundle>)
    requires FromNode(node, bundles) && Apart(bundles)
    ensures Apart(Fresh(t, bundles) + Stale(t, bundles))
  {
    hide Picked, StatusOf;
    Split(node, t, bundles);
    PickedApart(node, t.blocks, bundles, |bundles|, New);
    PickedApart(node, t.blocks, bundles, |bundles|, Replaced);
    var added, stale := Fresh(t, bundles), Stale(t, bundles);
    forall a, b | 0 <= a < |added| && 0 <= b < |stale| ensures added[a].index != stale[b].index {
      CoversAt(added, a);
      CoversAt(stale, b);
    }
  }

  /** What is saved is what the batch covers and the table does not agree with. */
  lemma SavedCovers(node: nat -> Bundle, t: Tables, bundles: seq<Bundle>, i: nat)
    requires FromNode(node, bundles)
    ensures Covers(Fresh(t, bundles) + Stale(t, bundles), i) <==> Covers(bundles, i) && Differs(t, node, i)
    ensures i in IndexSet(Stale(t, bundles)) <==> Covers(bundles, i) && i in t.blocks && t.blocks[i] != node(i).hash
  {
    hide Fresh, Stale, FromNode;
    Split(node, t, bundles);
    CoversConcat(Fresh(t, bundles), Stale(t, bundles), i);
  }

  // ----- The tables between two batches -----

  /** In consistent tables a transaction is stored under just those stored blocks that list it. */
  lemma StoredWhere(t: Tables, txsOf: Hash -> seq<Tx>, id: TxId, j: nat)
    requires Whole(t, txsOf)
    ensures id in t.transactions && t.transactions[id] == j <==> j in t.blocks && Lists(txsOf(t.blocks[j]), id)
  {
    hide NoOrphans;
    if j in t.blocks && Lists(txsOf(t.blocks[j]), id) {
      assert Stored(t, txsOf(t.blocks[j]), j);
      var k :| 0 <= k < |txsOf(t.blocks[j])| && txsOf(t.blocks[j])[k].id == id;
    }
  }

  lemma ListsNames(node: nat -> Bundle, txsOf: Hash -> seq<Tx>, j: nat, id: TxId)
    requires Determined(node, txsOf)
    ensures Lists(txsOf(node(j).hash), id) <==> exists l: nat :: Names(node, j, l, id)
  {
    assert node(j).txs == txsOf(node(j).hash);
    if Lists(node(j).txs, id) {
      var l :| 0 <= l < |node(j).txs| && node(j).txs[l].id == id;
      assert Names(node, j, l, id);
    }
  }

  /** Part of a pass has been made: the batches so far and the tables they left. */
  ghost predicate Midway(u: Setup<Bundle>, txsOf: Hash -> seq<Tx>, t: Tables, batches: seq<seq<Wrapper<Bundle>>>) {
    && Determined(u.src, txsOf) && Whole(t, txsOf) && Pass(t, batches).1
    && forall b :: 0 <= b < |batches| ==> Genuine(u, batches[b])
  }

  lemma DeterminedIndexed(node: nat -> Bundle, txsOf: Hash -> seq<Tx>)
    requires Determined(node, txsOf)
    ensures Indexed(node)
  {}

  /** A transaction is then stored under the blocks handed out that list it, and elsewhere as before. */
  lemma MidwayStored(u: Setup<Bundle>, txsOf: Hash -> seq<Tx>, t: Tables, batches: seq<seq<Wrapper<Bundle>>>, id: TxId,
                     j: nat)
    requires Midway(u, txsOf, t, batches)
    ensures var m := Pass(t, batches).0.transactions;
            id in m && m[id] == j <==>
            if Has(batches, j) then exists l: nat :: Names(u.src, j, l, id)
            else id in t.transactions && t.transactions[id] == j
    ensures Has(batches, j) || SameAt(t.blocks, Pass(t, batches).0.blocks, j)
  {
    hide Pass, Whole, Determined, Genuine;
    DeterminedIndexed(u.src, txsOf);
    PassWholeIff(u, txsOf, t, batches);
    PassBlocks(u, t, batches, j);
    StoredWhere(t, txsOf, id, j);
    StoredWhere(Pass(t, batches).0, txsOf, id, j);
    ListsNames(u.src, txsOf, j, id);
  }

  /** The tables a further batch is scanned into, and what of the batch is saved. */
  lemma LastSplit(u: Setup<Bundle>, txsOf: Hash -> seq<Tx>, t: Tables, batches: seq<seq<Wrapper<Bundle>>>,
                  ws: seq<Wrapper<Bundle>>, i: nat)
    requires Midway(u, txsOf, t, batches) && Genuine(u, ws) && OnceEach(batches + [ws])
    ensures FromNode(u.src, Contents(ws)) && (CountOf(ws, i) > 0 ==> !Has(batches, i))
    ensures Has(batches + [ws], i) <==> Has(batches, i) || CountOf(ws, i) > 0
    ensures var s, bundles := Pass(t, batches).0, Contents(ws);
            && (Covers(Fresh(s, bundles) + Stale(s, bundles), i) <==> CountOf(ws, i) > 0 && Differs(t, u.src, i))
            && (i in IndexSet(Stale(s, bundles)) <==>
                CountOf(ws, i) > 0 && i in t.blocks && t.blocks[i] != u.src(i).hash)
  {
    hide Pass, Whole, Determined, Genuine, FromNode, Fresh, Stale, IndexSet, Covers, CountOf, Flat;
    DeterminedIndexed(u.src, txsOf);
    FlatAppend(batches, ws);
    CountOfConcat(Flat(batches), ws, i);
    GenuineFromNode(u, ws, i);
    SavedCovers(u.src, Pass(t, batches).0, Contents(ws), i);
    MidwayStored(u, txsOf, t, batches, "", i);
  }

  lemma LastApart(u: Setup<Bundle>, batches: seq<seq<Wrapper<Bundle>>>, ws: seq<Wrapper<Bundle>>)
    requires Genuine(u, ws) && Indexed(u.src) && OnceEach(batches + [ws])
    ensures Apart(Contents(ws))
  {
    hide Flat, CountOf;
    var bundles := Contents(ws);
    FlatAppend(batches, ws);
    forall a, b | 0 <= a < b < |bundles| ensures bundles[a].index != bundles[b].index {
      assert u.src(ws[a].index).index == ws[a].index && u.src(ws[b].index).index == ws[b].index;
      CountOfConcat(Flat(batches), ws, ws[a].index);
      if ws[a].index == ws[b].index { TwiceCounted(ws, a, b); }
    }
  }

  // ----- One more batch -----

  /** Nothing that the batch saves is stored under a block that it keeps. */
  lemma NothingInTheWay(u: Setup<Bundle>, txsOf: Hash -> seq<Tx>, t: Tables, batches: seq<seq<Wrapper<Bundle>>>,
                        ws: seq<Wrapper<Bundle>>, i: nat, k: nat, id: TxId)
    requires Midway(u, txsOf, t, batches) && Genuine(u, ws) && OnceEach(batches + [ws])
    requires CountOf(ws, i) > 0 && Differs(t, u.src, i) && Names(u.src, i, k, id)
    requires Sole(u.src, batches + [ws], id, i, k) && Cleared(t, batches + [ws], id)
    ensures var s := Pass(t, batches).0;
            id in s.transactions ==> s.transactions[id] in IndexSet(Stale(s, Contents(ws)))
  {
    hide Pass, Determined, Genuine, FromNode, Fresh, Stale, IndexSet, Covers, CountOf, Flat, Names;
    var s := Pass(t, batches).0;
    if id in s.transactions {
      var j := s.transactions[id];
      MidwayStored(u, txsOf, t, batches, id, j);
      LastSplit(u, txsOf, t, batches, ws, j);
      LastSplit(u, txsOf, t, batches, ws, i);
      if !Has(batches, j) {
        StoredWhere(t, txsOf, id, j);
        ListsNames(u.src, txsOf, j, id);
      }
    }
  }

  lemma LastSaves(u: Setup<Bundle>, txsOf: Hash -> seq<Tx>, t: Tables, batches: seq<seq<Wrapper<Bundle>>>,
                  ws: seq<Wrapper<Bundle>>)
    requires Midway(u, txsOf, t, batches) && Genuine(u, ws) && OnceEach(batches + [ws])
    requires LastFits(u.src, t, batches + [ws])
    ensures Scanned(Pass(t, batches).0, Contents(ws)).1
  {
    hide Pass, Whole, Determined, Genuine, FromNode, Fresh, Stale, IndexSet, Covers, CountOf, Flat, AllTxs, Differs,
         Distinct, Scanned, Sole, Cleared, OnceEach;
    var s, bundles := Pass(t, batches).0, Contents(ws);
    var save := Fresh(s, bundles) + Stale(s, bundles);
    DeterminedIndexed(u.src, txsOf);
    LastSplit(u, txsOf, t, batches, ws, 0);
    LastApart(u, batches, ws);
    SavedApart(u.src, s, bundles);
    SavedFrom(u.src, s, bundles);
    forall a | 0 <= a < |save| ensures CountOf(ws, save[a].index) > 0 && Differs(t, u.src, save[a].index) {
      CoversAt(save, a);
      LastSplit(u, txsOf, t, batches, ws, save[a].index);
    }
    LastUnshared(u, txsOf, t, batches, ws, save);
    UnsharedDistinct(u.src, save);
    var txs := AllTxs(save);
    forall p | 0 <= p < |txs| && txs[p].id in s.transactions
      ensures s.transactions[txs[p].id] in IndexSet(Stale(s, bundles))
    {
      var b := AllTxsMember(save, p);
      NodeAt(u.src, save, b);
      var k :| 0 <= k < |save[b].txs| && save[b].txs[k] == txs[p];
      var i := save[b].index;
      assert Names(u.src, i, k, txs[p].id);
      assert (batches + [ws])[|batches|] == ws;
      NothingInTheWay(u, txsOf, t, batches, ws, i, k, txs[p].id);
    }
    SaveFailsIff(s, bundles);
  }

  lemma SavedFrom(node: nat -> Bundle, t: Tables, bundles: seq<Bundle>)
    requires FromNode(node, bundles)
    ensures FromNode(node, Fresh(t, bundles) + Stale(t, bundles))
  {
    Split(node, t, bundles);
  }

  lemma LastUnshared(u: Setup<Bundle>, txsOf: Hash -> seq<Tx>, t: Tables, batches: seq<seq<Wrapper<Bundle>>>,
                     ws: seq<Wrapper<Bundle>>, save: seq<Bundle>)
    requires Midway(u, txsOf, t, batches) && Genuine(u, ws) && OnceEach(batches + [ws])
    requires LastFits(u.src, t, batches + [ws])
    requires forall a :: 0 <= a < |save| ==> CountOf(ws, save[a].index) > 0 && Differs(t, u.src, save[a].index)
    ensures Unshared(u.src, save)
  {
    hide Midway, Genuine, CountOf, Flat, Differs, OnceEach, Names, Has, Cleared;
    assert (batches + [ws])[|batches|] == ws;
    forall a, b, k: nat, l: nat, id: TxId
      | 0 <= a < |save| && 0 <= b < |save| && Names(u.src, save[a].index, k, id) && Names(u.src, save[b].index, l, id)
      ensures save[a].index == save[b].index && k == l
    {
      LastSplit(u, txsOf, t, batches, ws, save[b].index);
      assert Sole(u.src, batches + [ws], id, save[a].index, k);
    }
  }

  /** The other way round: a batch whose save succeeds fitted. */
  lemma LastCleared(u: Setup<Bundle>, txsOf: Hash -> seq<Tx>, t: Tables, batches: seq<seq<Wrapper<Bundle>>>,
                    ws: seq<Wrapper<Bundle>>, i: nat, k: nat, id: TxId)
    requires Midway(u, txsOf, t, batches) && Genuine(u, ws) && OnceEach(batches + [ws])
    requires Scanned(Pass(t, batches).0, Contents(ws)).1
    requires CountOf(ws, i) > 0 && Differs(t, u.src, i) && Names(u.src, i, k, id)
    ensures var s := Pass(t, batches).0;
            id in s.transactions ==> s.transactions[id] in IndexSet(Stale(s, Contents(ws)))
  {
    hide Pass, Whole, Determined, Genuine, FromNode, Fresh, Stale, IndexSet, CountOf, Flat, AllTxs, Differs,
         Distinct, Scanned, OnceEach;
    var s, bundles := Pass(t, batches).0, Contents(ws);
    var save := Fresh(s, bundles) + Stale(s, bundles);
    LastSplit(u, txsOf, t, batches, ws, i);
    SavedFrom(u.src, s, bundles);
    var b := CoversWitness(save, i);
    NodeAt(u.src, save, b);
    AllTxsHas(save, b, u.src(i).txs[k]);
    SaveFailsIff(s, bundles);
  }

  lemma LastSole(u: Setup<Bundle>, txsOf: Hash -> seq<Tx>, t: Tables, batches: seq<seq<Wrapper<Bundle>>>,
                 ws: seq<Wrapper<Bundle>>, i: nat, k: nat, id: TxId, j: nat, l: nat)
    requires Midway(u, txsOf, t, batches) && Genuine(u, ws) && OnceEach(batches + [ws])
    requires Scanned(Pass(t, batches).0, Contents(ws)).1
    requires CountOf(ws, i) > 0 && Differs(t, u.src, i) && Names(u.src, i, k, id)
    requires Has(batches + [ws], j) && Names(u.src, j, l, id)
    ensures j == i && l == k
  {
    hide Pass, Determined, Genuine, FromNode, Fresh, Stale, IndexSet, CountOf, Flat, AllTxs,
         Distinct, Scanned, OnceEach, Covers, Has;
    var s, bundles := Pass(t, batches).0, Contents(ws);
    LastCleared(u, txsOf, t, batches, ws, i, k, id);
    LastSplit(u, txsOf, t, batches, ws, i);
    LastSplit(u, txsOf, t, batches, ws, j);
    MidwayStored(u, txsOf, t, batches, id, j);
    if !Has(batches, j) {
      StoredWhere(t, txsOf, id, j);
      ListsNames(u.src, txsOf, j, id);
      var save := Fresh(s, bundles) + Stale(s, bundles);
      SavedFrom(u.src, s, bundles);
      var a := CoversWitness(save, i);
      var b := CoversWitness(save, j);
      NodeAt(u.src, save, a);
      NodeAt(u.src, save, b);
      SaveFailsIff(s, bundles);
      DistinctUnshared(u.src, save, a, k, b, l);
    }
  }

  /** One more batch goes through exactly when it fits. */
  lemma LastFitsIff(u: Setup<Bundle>, txsOf: Hash -> seq<Tx>, t: Tables, batches: seq<seq<Wrapper<Bundle>>>,
                    ws: seq<Wrapper<Bundle>>)
    requires Midway(u, txsOf, t, batches) && Genuine(u, ws) && OnceEach(batches + [ws])
    ensures Scanned(Pass(t, batches).0, Contents(ws)).1 <==> LastFits(u.src, t, batches + [ws])
  {
    hide Midway, Genuine, OnceEach, Scanned, Pass, Differs, Names, CountOf, Has, Contents;
    assert (batches + [ws])[|batches|] == ws;
    if Scanned(Pass(t, batches).0, Contents(ws)).1 {
      forall i: nat, k: nat, id: TxId | CountOf(ws, i) > 0 && Differs(t, u.src, i) && Names(u.src, i, k, id)
        ensures Sole(u.src, batches + [ws], id, i, k) && Cleared(t, batches + [ws], id)
      {
        forall j: nat, l: nat | Has(batches + [ws], j) && Names(u.src, j, l, id) ensures j == i && l == k {
          LastSole(u, txsOf, t, batches, ws, i, k, id, j, l);
        }
        if id in t.transactions { LastHas(u, txsOf, t, batches, ws, i, k, id); }
      }
    } else if LastFits(u.src, t, batches + [ws]) {
      LastSaves(u, txsOf, t, batches, ws);
    }
  }

  lemma LastHas(u: Setup<Bundle>, txsOf: Hash -> seq<Tx>, t: Tables, batches: seq<seq<Wrapper<Bundle>>>,
                ws: seq<Wrapper<Bundle>>, i: nat, k: nat, id: TxId)
    requires Midway(u, txsOf, t, batches) && Genuine(u, ws) && OnceEach(batches + [ws])
    requires Scanned(Pass(t, batches).0, Contents(ws)).1
    requires CountOf(ws, i) > 0 && Differs(t, u.src, i) && Names(u.src, i, k, id)
    requires id in t.transactions
    ensures Has(batches + [ws], t.transactions[id])
  {
    hide Midway, Genuine, OnceEach, Scanned, Pass, Differs, Names, CountOf, Has, Contents, IndexSet, Stale;
    var j := t.transactions[id];
    LastCleared(u, txsOf, t, batches, ws, i, k, id);
    LastSplit(u, txsOf, t, batches, ws, j);
    MidwayStored(u, txsOf, t, batches, id, j);
  }

  // ----- A whole pass -----

  lemma {:induction false} HasWithin<B>(batches: seq<seq<Wrapper<B>>>, c: nat, j: nat)
    requires c <= |batches| && Has(batches[..c], j)
    ensures Has(batches, j)
  {
    var n := |batches| - 1;
    if c <= n {
      assert batches[..n][..c] == batches[..c];
      HasWithin(batches[..n], c, j);
      CountOfConcat(Flat(batches[..n]), batches[n], j);
    } else {
      assert batches[..c] == batches;
    }
  }

  lemma HasAt<B>(batches: seq<seq<Wrapper<B>>>, b: nat, i: nat)
    requires b < |batches| && CountOf(batches[b], i) > 0
    ensures Has(batches, i)
  {
    assert batches[..b + 1][..b] == batches[..b];
    CountOfConcat(Flat(batches[..b]), batches[b], i);
    HasWithin(batches, b + 1, i);
  }

  /** What is handed out later does not get in the way of a batch that fitted. */
  lemma StillSole(u: Setup<Bundle>, txsOf: Hash -> seq<Tx>, t: Tables, batches: seq<seq<Wrapper<Bundle>>>,
                  ws: seq<Wrapper<Bundle>>, b: nat, i: nat, k: nat, id: TxId, j: nat, l: nat)
    requires Determined(u.src, txsOf) && Whole(t, txsOf)
    requires Fits(u.src, t, batches) && LastFits(u.src, t, batches + [ws])
    requires b < |batches| && CountOf(batches[b], i) > 0 && Differs(t, u.src, i) && Names(u.src, i, k, id)
    requires Has(batches + [ws], j) && Names(u.src, j, l, id)
    ensures j == i && l == k
  {
    hide Determined, Whole, CountOf, Flat, Names;
    assert Sole(u.src, batches, id, i, k) && Cleared(t, batches[..b + 1], id);
    var all := batches + [ws];
    assert all[|batches|] == ws && all[..|batches|] == batches;
    FlatAppend(batches, ws);
    CountOfConcat(Flat(batches), ws, j);
    if !Has(batches, j) {
      if Differs(t, u.src, j) {
        assert Sole(u.src, all, id, j, l);
        HasAt(batches, b, i);
        HasWithin(all, |batches|, i);
      } else {
        StoredWhere(t, txsOf, id, j);
        ListsNames(u.src, txsOf, j, id);
        HasWithin(batches, b + 1, j);
      }
    }
  }

  lemma FitsOneMore(u: Setup<Bundle>, txsOf: Hash -> seq<Tx>, t: Tables, batches: seq<seq<Wrapper<Bundle>>>,
                    ws: seq<Wrapper<Bundle>>)
    requires Determined(u.src, txsOf) && Whole(t, txsOf)
    ensures Fits(u.src, t, batches + [ws]) <==> Fits(u.src, t, batches) && LastFits(u.src, t, batches + [ws])
  {
    hide Determined, Whole, CountOf, Names, Has, Differs, Cleared;
    var all, n := batches + [ws], |batches|;
    assert all[n] == ws && all[..n + 1] == all && all[..n] == batches;
    forall b | 0 <= b < n ensures all[b] == batches[b] && all[..b + 1] == batches[..b + 1] {}
    if Fits(u.src, t, all) {
      forall b, i: nat, k: nat, id: TxId
        | 0 <= b < n && CountOf(batches[b], i) > 0 && Differs(t, u.src, i) && Names(u.src, i, k, id)
        ensures Sole(u.src, batches, id, i, k) && Cleared(t, batches[..b + 1], id)
      {
        assert Sole(u.src, all, id, i, k) && Cleared(t, all[..b + 1], id) by { assert all[b] == batches[b]; }
        forall j: nat, l: nat | Has(batches, j) && Names(u.src, j, l, id) ensures j == i && l == k {
          HasWithin(all, n, j);
        }
      }
      assert LastFits(u.src, t, all);
    } else if Fits(u.src, t, batches) && LastFits(u.src, t, all) {
      AllFit(u, txsOf, t, batches, ws);
    }
  }

  lemma AllFit(u: Setup<Bundle>, txsOf: Hash -> seq<Tx>, t: Tables, batches: seq<seq<Wrapper<Bundle>>>,
               ws: seq<Wrapper<Bundle>>)
    requires Determined(u.src, txsOf) && Whole(t, txsOf)
    requires Fits(u.src, t, batches) && LastFits(u.src, t, batches + [ws])
    ensures Fits(u.src, t, batches + [ws])
  {
    hide Determined, Whole, CountOf, Names, Has, Differs, Cleared;
    var all, n := batches + [ws], |batches|;
    assert all[n] == ws && all[..n + 1] == all;
    forall b, i: nat, k: nat, id: TxId
      | 0 <= b < |all| && CountOf(all[b], i) > 0 && Differs(t, u.src, i) && Names(u.src, i, k, id)
      ensures Sole(u.src, all, id, i, k) && Cleared(t, all[..b + 1], id)
    {
      if b < n {
        assert all[b] == batches[b] && all[..b + 1] == batches[..b + 1];
        forall j: nat, l: nat | Has(all, j) && Names(u.src, j, l, id) ensures j == i && l == k {
          StillSole(u, txsOf, t, batches, ws, b, i, k, id, j, l);
        }
      }
    }
  }

  lemma OnceBefore<B>(batches: seq<seq<Wrapper<B>>>, ws: seq<Wrapper<B>>)
    requires OnceEach(batches + [ws])
    ensures OnceEach(batches)
  {
    hide CountOf, Flat;
    FlatAppend(batches, ws);
    forall i: nat ensures CountOf(Flat(batches), i) <= 1 { CountOfConcat(Flat(batches), ws, i); }
  }

  /** A pass over consistent tables completes exactly when its batches fit, a matter of the tables it
      starts from, the node's blocks and the batches alone. */
  lemma {:induction false} PassCompletesIff(u: Setup<Bundle>, txsOf: Hash -> seq<Tx>, t: Tables,
                                            batches: seq<seq<Wrapper<Bundle>>>)
    requires Determined(u.src, txsOf) && Whole(t, txsOf) && OnceEach(batches)
    requires forall b :: 0 <= b < |batches| ==> Genuine(u, batches[b])
    ensures Pass(t, batches).1 <==> Fits(u.src, t, batches)
  {
    hide Determined, Whole, Genuine, OnceEach, Scanned, Fits, LastFits, Contents;
    if batches == [] {
      assert Fits(u.src, t, batches) by { NoneFit(u.src, t); }
    } else {
      var n := |batches| - 1;
      var head, ws := batches[..n], batches[n];
      assert batches == head + [ws];
      OnceBefore(head, ws);
      PassCompletesIff(u, txsOf, t, head);
      FitsOneMore(u, txsOf, t, head, ws);
      if Pass(t, head).1 { LastFitsIff(u, txsOf, t, head, ws); }
    }
  }

  lemma NoneFit(node: nat -> Bundle, t: Tables)
    ensures Fits(node, t, [])
  {}

  /** A pass that runs to the empty batch leaves the tables consistent exactly when its batches fit. Then
      each block of the range has exactly the node's transactions and, if the logs and addresses of the
      stored blocks were there to begin with, those of the whole range are. */
  lemma PassMirrorsIff(u: Setup<Bundle>, txsOf: Hash -> seq<Tx>, es: seq<Event>, t: Tables)
    requires RanDry(u, es) && Sane(u.config) && Determined(u.src, txsOf) && Whole(t, txsOf)
    ensures var batches := After(u, es).batches;
            var s := Pass(t, batches).0;
            && (Whole(s, txsOf) <==> Fits(u.src, t, batches))
            && (Fits(u.src, t, batches) ==>
                forall i: nat, id: TxId :: u.start <= i < u.highest ==>
                  (id in s.transactions && s.transactions[id] == i <==> Lists(u.src(i).txs, id)))
            && (Fits(u.src, t, batches) && Recorded(t, txsOf) ==>
                Recorded(s, txsOf) && forall i: nat :: u.start <= i < u.highest ==> AllRecorded(s, u.src(i).txs))
  {
    hide Pass, After, LastBatch, Legal, Fits, Whole, Determined, Genuine, Recorded, AllRecorded;
    EmptyBatchMeansDone(u, es);
    ReachableGenuine(u, es);
    var batches := After(u, es).batches;
    PassCompletesIff(u, txsOf, t, batches);
    PassWholeIff(u, txsOf, t, batches);
    if Fits(u.src, t, batches) {
      forall i: nat, id: TxId | u.start <= i < u.highest
        ensures var s := Pass(t, batches).0;
                id in s.transactions && s.transactions[id] == i <==> Lists(u.src(i).txs, id)
      {
        PassMirrorsTransactions(u, txsOf, es, t, i, id);
      }
      if Recorded(t, txsOf) {
        PassRecorded(u, txsOf, t, batches);
        RangeRecorded(u, txsOf, es, t);
      }
    }
  }

  lemma RangeRecorded(u: Setup<Bundle>, txsOf: Hash -> seq<Tx>, es: seq<Event>, t: Tables)
    requires RanDry(u, es) && Sane(u.config) && Determined(u.src, txsOf) && Pass(t, After(u, es).batches).1
    requires Recorded(Pass(t, After(u, es).batches).0, txsOf)
    ensures forall i: nat :: u.start <= i < u.highest ==> AllRecorded(Pass(t, After(u, es).batches).0, u.src(i).txs)
  {
    hide Pass, After, LastBatch, Legal, AllRecorded;
    DeterminedIndexed(u.src, txsOf);
    PassReconciles(u, es, t);
    var s := Pass(t, After(u, es).batches).0;
    forall i: nat | u.start <= i < u.highest ensures AllRecorded(s, u.src(i).txs) {
      assert HoldsAt(s.blocks, u.src, i);
      assert u.src(i).txs == txsOf(u.src(i).hash);
    }
  }
}
