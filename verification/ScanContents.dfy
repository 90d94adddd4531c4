/** The rows that hang off the block table, and where a completed pass leaves the scanner. */
module ScanContents {
  import opened BlockQueues
  import opened BlockQueueRuns
  import opened BlockQueueOrder
  import opened BlockTables
  import opened ScanPass

  // ----- Transactions, receipts and logs follow their blocks -----

  predicate Lists(txs: seq<Tx>, id: TxId) { exists k :: 0 <= k < |txs| && txs[k].id == id }

  /** A block hash determines the block's transactions. */
  ghost predicate Determined(node: nat -> Bundle, txsOf: Hash -> seq<Tx>) {
    forall i: nat :: node(i).index == i && node(i).txs == txsOf(node(i).hash)
                     && forall k :: 0 <= k < |node(i).txs| ==> node(i).txs[k].blockIndex == i
  }

  /** A stored transaction hangs off the stored block that contains it. */
  ghost predicate Rooted(t: Tables, txsOf: Hash -> seq<Tx>) {
    forall id :: id in t.transactions ==>
      t.transactions[id] in t.blocks && Lists(txsOf(t.blocks[t.transactions[id]]), id)
  }

  predicate Stored(t: Tables, txs: seq<Tx>, i: nat) {
    forall k :: 0 <= k < |txs| ==> txs[k].id in t.transactions && t.transactions[txs[k].id] == i
  }

  /** Every transaction of a stored block is stored, under that block. */
  ghost predicate Complete(t: Tables, txsOf: Hash -> seq<Tx>) {
    forall i :: i in t.blocks ==> Stored(t, txsOf(t.blocks[i]), i)
  }

  /** No receipt, log or created contract without its transaction. */
  predicate NoOrphans(t: Tables) {
    && t.receipts <= t.transactions.Keys && t.logs <= t.transactions.Keys
    && forall a :: a in t.contracts && t.contracts[a].Some? ==> t.contracts[a].value in t.transactions
  }

  ghost predicate Whole(t: Tables, txsOf: Hash -> seq<Tx>) { Rooted(t, txsOf) && Complete(t, txsOf) && NoOrphans(t) }

  /** deleteFullBlocks takes everything that hangs off the deleted blocks and nothing else. */
  lemma DeletedWhole(t: Tables, txsOf: Hash -> seq<Tx>, gone: set<nat>)
    requires Whole(t, txsOf)
    ensures Whole(Deleted(t, gone), txsOf)
  {
    var d := Deleted(t, gone);
    forall i | i in d.blocks ensures Stored(d, txsOf(d.blocks[i]), i) {
      assert Stored(t, txsOf(t.blocks[i]), i);
    }
  }

  lemma {:induction false} AllTxsMember(bundles: seq<Bundle>, k: nat) returns (b: nat)
    requires k < |AllTxs(bundles)|
    ensures b < |bundles| && AllTxs(bundles)[k] in bundles[b].txs
  {
    var n := |bundles| - 1;
    if k < |AllTxs(bundles[..n])| {
      b := AllTxsMember(bundles[..n], k);
    } else {
      b := n;
    }
  }

  lemma {:induction false} AllTxsHas(bundles: seq<Bundle>, b: nat, x: Tx)
    requires b < |bundles| && x in bundles[b].txs
    ensures x in AllTxs(bundles)
  {
    var n := |bundles| - 1;
    if b < n { AllTxsHas(bundles[..n], b, x); }
  }

  lemma {:induction false} WithTxsAt(m: map<TxId, nat>, txs: seq<Tx>, id: TxId)
    requires Distinct(txs)
    ensures forall k :: 0 <= k < |txs| ==>
            txs[k].id in WithTxs(m, txs) && WithTxs(m, txs)[txs[k].id] == txs[k].blockIndex
    ensures !Lists(txs, id) ==> (id in WithTxs(m, txs) <==> id in m) && (id in m ==> WithTxs(m, txs)[id] == m[id])
  {
    if txs != [] {
      var n := |txs| - 1;
      WithTxsAt(m, txs[..n], id);
      assert forall k :: 0 <= k < n ==> txs[..n][k] == txs[k];
    }
  }

  /** What a successful save adds, block by block and transaction by transaction. */
  lemma SavedRooted(node: nat -> Bundle, txsOf: Hash -> seq<Tx>, t: Tables, bundles: seq<Bundle>)
    requires Determined(node, txsOf) && FromNode(node, bundles) && Rooted(t, txsOf) && Saved(t, bundles).1
    requires forall k :: 0 <= k < |bundles| ==> bundles[k].index !in t.blocks
    ensures Rooted(Saved(t, bundles).0, txsOf)
  {
    hide AllTxs, WithTxs, WithBlocks, HoldsAt, Covers;
    var txs, s := AllTxs(bundles), Saved(t, bundles).0;
    forall id | id in s.transactions
      ensures s.transactions[id] in s.blocks && Lists(txsOf(s.blocks[s.transactions[id]]), id)
    {
      WithTxsAt(t.transactions, txs, id);
      if Lists(txs, id) {
        var k :| 0 <= k < |txs| && txs[k].id == id;
        var b := AllTxsMember(bundles, k);
        var i := bundles[b].index;
        Member(node, txsOf, i, txs[k]);
        CoversAt(bundles, b);
        WithBlocksAt(node, t.blocks, bundles, i);
        Holding(s.blocks, node, i);
      } else {
        WithBlocksAt(node, t.blocks, bundles, t.transactions[id]);
      }
    }
  }

  lemma Holding(blocks: map<nat, Hash>, node: nat -> Bundle, i: nat)
    ensures HoldsAt(blocks, node, i) <==> i in blocks && blocks[i] == node(i).hash
  {}

  lemma Member(node: nat -> Bundle, txsOf: Hash -> seq<Tx>, i: nat, x: Tx)
    requires Determined(node, txsOf) && x in node(i).txs
    ensures x.blockIndex == i && Lists(txsOf(node(i).hash), x.id)
  {
    assert node(i).txs == txsOf(node(i).hash);
    var k :| 0 <= k < |node(i).txs| && node(i).txs[k] == x;
  }

  lemma SavedComplete(node: nat -> Bundle, txsOf: Hash -> seq<Tx>, t: Tables, bundles: seq<Bundle>)
    requires Determined(node, txsOf) && FromNode(node, bundles) && Complete(t, txsOf) && Saved(t, bundles).1
    ensures Complete(Saved(t, bundles).0, txsOf)
  {
    hide AllTxs, WithTxs, WithBlocks, HoldsAt, Covers;
    var txs, s := AllTxs(bundles), Saved(t, bundles).0;
    forall i | i in s.blocks ensures Stored(s, txsOf(s.blocks[i]), i) {
      WithBlocksAt(node, t.blocks, bundles, i);
      if i in t.blocks {
        assert Stored(t, txsOf(t.blocks[i]), i);
        forall k | 0 <= k < |txsOf(s.blocks[i])|
          ensures var id := txsOf(s.blocks[i])[k].id; id in s.transactions && s.transactions[id] == i
        {
          var id := txsOf(s.blocks[i])[k].id;
          WithTxsAt(t.transactions, txs, id);
        }
      } else {
        Holding(s.blocks, node, i);
        Holding(t.blocks, node, i);
        assert Covers(bundles, i);
        var b := CoversWitness(bundles, i);
        SavedBlockStored(node, txsOf, t, bundles, b);
      }
    }
  }

  lemma SavedBlockStored(node: nat -> Bundle, txsOf: Hash -> seq<Tx>, t: Tables, bundles: seq<Bundle>, b: nat)
    requires Determined(node, txsOf) && FromNode(node, bundles) && Saved(t, bundles).1 && b < |bundles|
    ensures Stored(Saved(t, bundles).0, txsOf(bundles[b].hash), bundles[b].index)
  {
    hide AllTxs, WithTxs, WithBlocks;
    var txs, i := AllTxs(bundles), bundles[b].index;
    assert node(i).txs == txsOf(node(i).hash);
    WithTxsAt(t.transactions, txs, "");
    forall k | 0 <= k < |node(i).txs|
      ensures var id := node(i).txs[k].id; id in WithTxs(t.transactions, txs) && WithTxs(t.transactions, txs)[id] == i
    {
      AllTxsHas(bundles, b, node(i).txs[k]);
      var j :| 0 <= j < |txs| && txs[j] == node(i).txs[k];
    }
  }

  lemma SavedNoOrphans(t: Tables, bundles: seq<Bundle>)
    requires NoOrphans(t) && Saved(t, bundles).1
    ensures NoOrphans(Saved(t, bundles).0)
  {
    hide AllTxs;
    var txs, s := AllTxs(bundles), Saved(t, bundles).0;
    forall id: TxId | id in t.transactions || Lists(txs, id) ensures id in s.transactions {
      WithTxsKeys(t.transactions, txs, id);
    }
  }

  /** A batch whose save succeeds keeps the tables consistent. */
  lemma ScannedWhole(node: nat -> Bundle, txsOf: Hash -> seq<Tx>, t: Tables, bundles: seq<Bundle>)
    requires Determined(node, txsOf) && FromNode(node, bundles) && Whole(t, txsOf) && Scanned(t, bundles).1
    ensures Whole(Scanned(t, bundles).0, txsOf)
  {
    hide Determined, FromNode, Saved, Deleted, Fresh, Stale, Covers, Rooted, Complete, NoOrphans;
    var stale := Stale(t, bundles);
    var save := Fresh(t, bundles) + stale;
    var d := Deleted(t, IndexSet(stale));
    Split(node, t, bundles);
    DeletedWhole(t, txsOf, IndexSet(stale));
    assert FromNode(node, save);
    forall k | 0 <= k < |save| ensures save[k].index !in d.blocks {
      GoneAt(t, IndexSet(stale), save[k].index);
      if k < |Fresh(t, bundles)| { CoversAt(Fresh(t, bundles), k); } else { InSet(stale, k - |Fresh(t, bundles)|); }
    }
    SavedRooted(node, txsOf, d, save);
    SavedComplete(node, txsOf, d, save);
    SavedNoOrphans(d, save);
  }

  lemma GoneAt(t: Tables, gone: set<nat>, i: nat)
    ensures i in Deleted(t, gone).blocks <==> i in t.blocks && i !in gone
  {}

  lemma InSet(bundles: seq<Bundle>, k: nat)
    requires k < |bundles|
    ensures bundles[k].index in IndexSet(bundles)
  {}

  /** A failed save leaves a stored block without its first new transaction. */
  lemma FailedSaveBreaks(node: nat -> Bundle, txsOf: Hash -> seq<Tx>, t: Tables, bundles: seq<Bundle>)
    requires Determined(node, txsOf) && FromNode(node, bundles) && Whole(t, txsOf) && !Scanned(t, bundles).1
    ensures !Complete(Scanned(t, bundles).0, txsOf)
  {
    hide FromNode, Fresh, Stale, Covers, Deleted, WithBlocks, WithTxs, AllTxs, NoOrphans, Logged, Parties, Conflicts;
    Split(node, t, bundles);
    var added, stale := Fresh(t, bundles), Stale(t, bundles);
    var save, gone := added + stale, IndexSet(stale);
    var s := Scanned(t, bundles).0;
    assert AllTxs(save) != [] by { SomeConflict(Deleted(t, gone).transactions, AllTxs(save)); }
    var x := AllTxs(save)[0];
    var b := AllTxsMember(save, 0);
    var i := save[b].index;
    assert save[b] == node(i) by { NodeAt(node, save, b); }
    Member(node, txsOf, i, x);
    assert i !in t.blocks || i in gone by { NotKept(node, t, bundles, b); }
    assert Covers(bundles, i) by { SavedCovered(node, t, bundles, b); }
    ScannedBlocks(node, t, bundles, i);
    if Complete(s, txsOf) {
      assert Stored(s, txsOf(s.blocks[i]), i);
      TxKept(t, gone, x.id, i, txsOf);
    }
  }

  lemma SomeConflict(m: map<TxId, nat>, txs: seq<Tx>)
    requires Conflicts(m, txs)
    ensures txs != []
  {}

  lemma NodeAt(node: nat -> Bundle, bundles: seq<Bundle>, k: nat)
    requires FromNode(node, bundles) && k < |bundles|
    ensures bundles[k] == node(bundles[k].index)
  {}

  /** A block to be saved is not in the table, or is deleted first. */
  lemma NotKept(node: nat -> Bundle, t: Tables, bundles: seq<Bundle>, k: nat)
    requires FromNode(node, bundles) && k < |Fresh(t, bundles) + Stale(t, bundles)|
    ensures var i := (Fresh(t, bundles) + Stale(t, bundles))[k].index;
            i !in t.blocks || i in IndexSet(Stale(t, bundles))
  {
    hide FromNode, Fresh, Stale, Covers;
    Split(node, t, bundles);
    var added, stale := Fresh(t, bundles), Stale(t, bundles);
    if k < |added| { CoversAt(added, k); } else { InSet(stale, k - |added|); }
  }

  lemma SavedCovered(node: nat -> Bundle, t: Tables, bundles: seq<Bundle>, k: nat)
    requires FromNode(node, bundles) && k < |Fresh(t, bundles) + Stale(t, bundles)|
    ensures Covers(bundles, (Fresh(t, bundles) + Stale(t, bundles))[k].index)
  {
    hide FromNode, Fresh, Stale, Covers;
    Split(node, t, bundles);
    var added, stale := Fresh(t, bundles), Stale(t, bundles);
    if k < |added| { CoversAt(added, k); } else { CoversAt(stale, k - |added|); }
  }

  /** A transaction still stored after the deletes hangs off a block that was kept. */
  lemma TxKept(t: Tables, gone: set<nat>, id: TxId, i: nat, txsOf: Hash -> seq<Tx>)
    requires Rooted(t, txsOf) && id in Deleted(t, gone).transactions && Deleted(t, gone).transactions[id] == i
    ensures i in t.blocks && i !in gone
  {}

  /** Scanning a batch into consistent tables leaves them consistent exactly when no transaction to be
      inserted occurs twice in it or is stored under a block that it does not replace. */
  lemma ScannedWholeIff(node: nat -> Bundle, txsOf: Hash -> seq<Tx>, t: Tables, bundles: seq<Bundle>)
    requires Determined(node, txsOf) && FromNode(node, bundles) && Whole(t, txsOf)
    ensures Whole(Scanned(t, bundles).0, txsOf) <==> Scanned(t, bundles).1
    ensures Whole(Scanned(t, bundles).0, txsOf) <==>
            var txs := AllTxs(Fresh(t, bundles) + Stale(t, bundles));
            && Distinct(txs)
            && forall k :: 0 <= k < |txs| && txs[k].id in t.transactions ==>
                 t.transactions[txs[k].id] in IndexSet(Stale(t, bundles))
  {
    hide Scanned, Determined, FromNode, Fresh, Stale, AllTxs, Distinct, IndexSet;
    SaveFailsIff(t, bundles);
    if Scanned(t, bundles).1 {
      ScannedWhole(node, txsOf, t, bundles);
    } else {
      FailedSaveBreaks(node, txsOf, t, bundles);
    }
  }

  /** A pass over consistent tables leaves them consistent exactly when it completes. */
  lemma {:induction false} PassWholeIff(u: Setup<Bundle>, txsOf: Hash -> seq<Tx>, t: Tables,
                                        batches: seq<seq<Wrapper<Bundle>>>)
    requires Determined(u.src, txsOf) && Whole(t, txsOf)
    requires forall b :: 0 <= b < |batches| ==> Genuine(u, batches[b])
    ensures Whole(Pass(t, batches).0, txsOf) <==> Pass(t, batches).1
  {
    hide Scanned, Whole, Genuine, Contents;
    if batches != [] {
      var n := |batches| - 1;
      PassWholeIff(u, txsOf, t, batches[..n]);
      if Pass(t, batches[..n]).1 {
        GenuineFromNode(u, batches[n], 0);
        ScannedWholeIff(u.src, txsOf, Pass(t, batches[..n]).0, Contents(batches[n]));
      }
    }
  }

  /** After a pass that completes, the transactions stored for each block of the range are exactly the
      node's, and no receipt, log or created contract is left without its transaction. */
  lemma PassMirrorsTransactions(u: Setup<Bundle>, txsOf: Hash -> seq<Tx>, es: seq<Event>, t: Tables, i: nat, id: TxId)
    requires RanDry(u, es) && Sane(u.config) && Determined(u.src, txsOf) && Whole(t, txsOf)
    requires Pass(t, After(u, es).batches).1 && u.start <= i < u.highest
    ensures var s := Pass(t, After(u, es).batches).0;
            (id in s.transactions && s.transactions[id] == i <==> Lists(u.src(i).txs, id)) && NoOrphans(s)
  {
    hide Pass, After, LastBatch, Legal;
    PassReconciles(u, es, t);
    ReachableGenuine(u, es);
    PassWholeIff(u, txsOf, t, After(u, es).batches);
    var s := Pass(t, After(u, es).batches).0;
    assert HoldsAt(s.blocks, u.src, i);
    assert u.src(i).txs == txsOf(u.src(i).hash);
    assert Stored(s, txsOf(s.blocks[i]), i);
  }

  /** A failed save is not made good: its block hashes are stored, so scanning the batch again
      writes nothing, while the transaction table is the one from before the save. */
  lemma FailedSaveSticks(node: nat -> Bundle, t: Tables, bundles: seq<Bundle>)
    requires FromNode(node, bundles) && !Scanned(t, bundles).1
    ensures var s := Scanned(t, bundles).0;
            && Scanned(s, bundles) == (s, true)
            && s.transactions == Deleted(t, IndexSet(Stale(t, bundles))).transactions
  {
    hide Fresh, Stale, Deleted, WithBlocks, AllTxs, FromNode, Conflicts;
    var s := Scanned(t, bundles).0;
    forall k | 0 <= k < |bundles| ensures HoldsAt(s.blocks, node, bundles[k].index) {
      CoversAt(bundles, k);
      ScannedBlocks(node, t, bundles, bundles[k].index);
    }
    QuietIff(node, s, bundles);
  }

  /** A save fails exactly when a transaction to be inserted occurs twice in the batch or is already
      stored under a block that the batch does not replace. */
  lemma SaveFailsIff(t: Tables, bundles: seq<Bundle>)
    ensures !Scanned(t, bundles).1 <==>
            var txs := AllTxs(Fresh(t, bundles) + Stale(t, bundles));
            || !Distinct(txs)
            || exists k :: 0 <= k < |txs| && txs[k].id in t.transactions
                           && t.transactions[txs[k].id] !in IndexSet(Stale(t, bundles))
  {
    hide Fresh, Stale, WithBlocks, WithTxs, AllTxs, Distinct, IndexSet;
    var txs, gone := AllTxs(Fresh(t, bundles) + Stale(t, bundles)), IndexSet(Stale(t, bundles));
    forall k | 0 <= k < |txs|
      ensures txs[k].id in Deleted(t, gone).transactions
              <==> txs[k].id in t.transactions && t.transactions[txs[k].id] !in gone
    {
    }
  }
}
