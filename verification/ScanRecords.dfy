/** The rows beside the block and transaction tables that a scan writes: logs and addresses. */
module ScanRecords {
  import opened BlockQueueRuns
  import opened BlockQueues
  import opened BlockTables
  import opened ScanPass
  import opened ScanContents

  /** A transaction of the node's block at i that has this id and logs. */
  predicate Logs(node: nat -> Bundle, i: nat, k: nat, id: TxId) {
    k < |node(i).txs| && node(i).txs[k].id == id && node(i).txs[k].logs > 0
  }

  predicate Involves(node: nat -> Bundle, i: nat, k: nat, a: Address) {
    k < |node(i).txs| && a in node(i).txs[k].parties
  }

  /** The batch brings a block for index i that the table does not have. */
  predicate Brings(t: Tables, node: nat -> Bundle, bundles: seq<Bundle>, i: nat) {
    Covers(bundles, i) && !HoldsAt(t.blocks, node, i)
  }

  lemma BringsSaved(node: nat -> Bundle, t: Tables, bundles: seq<Bundle>, i: nat)
    requires FromNode(node, bundles)
    ensures Brings(t, node, bundles, i) <==> Covers(Fresh(t, bundles) + Stale(t, bundles), i)
  {
    hide Fresh, Stale, FromNode;
    Split(node, t, bundles);
    CoversConcat(Fresh(t, bundles), Stale(t, bundles), i);
  }

  /** The transactions to be saved are those of the blocks that the batch brings. */
  lemma SavedTx(node: nat -> Bundle, t: Tables, bundles: seq<Bundle>, p: nat) returns (i: nat, k: nat)
    requires FromNode(node, bundles) && p < |AllTxs(Fresh(t, bundles) + Stale(t, bundles))|
    ensures Brings(t, node, bundles, i) && k < |node(i).txs|
    ensures node(i).txs[k] == AllTxs(Fresh(t, bundles) + Stale(t, bundles))[p]
  {
    hide Fresh, Stale, AllTxs, Covers, Brings;
    var save := Fresh(t, bundles) + Stale(t, bundles);
    Split(node, t, bundles);
    var b := AllTxsMember(save, p);
    i := save[b].index;
    CoversAt(save, b);
    BringsSaved(node, t, bundles, i);
    k :| 0 <= k < |node(i).txs| && node(i).txs[k] == AllTxs(save)[p];
  }

  lemma TxSaved(node: nat -> Bundle, t: Tables, bundles: seq<Bundle>, i: nat, k: nat)
    requires FromNode(node, bundles) && Brings(t, node, bundles, i) && k < |node(i).txs|
    ensures node(i).txs[k] in AllTxs(Fresh(t, bundles) + Stale(t, bundles))
  {
    hide Fresh, Stale, AllTxs, Covers, Brings;
    var save := Fresh(t, bundles) + Stale(t, bundles);
    Split(node, t, bundles);
    BringsSaved(node, t, bundles, i);
    var b := CoversWitness(save, i);
    AllTxsHas(save, b, node(i).txs[k]);
  }

  /** After a batch, whether or not its save goes through, the log table has the logs of the blocks that
      the batch brings and, of those it had, all but the ones of replaced blocks. */
  lemma ScannedLogs(node: nat -> Bundle, t: Tables, bundles: seq<Bundle>, id: TxId)
    requires FromNode(node, bundles)
    ensures id in Scanned(t, bundles).0.logs <==>
            || (id in t.logs && !Goes(t, IndexSet(Stale(t, bundles)), id))
            || exists i: nat, k: nat :: Brings(t, node, bundles, i) && Logs(node, i, k, id)
  {
    hide Fresh, Stale, AllTxs, Brings, WithBlocks, WithTxs, Conflicts, Parties;
    var gone, txs := IndexSet(Stale(t, bundles)), AllTxs(Fresh(t, bundles) + Stale(t, bundles));
    DeletedIs(t, gone);
    hide Deleted;
    assert Scanned(t, bundles).0.logs == Deleted(t, gone).logs + Logged(txs);
    if id in Logged(txs) {
      var p :| 0 <= p < |txs| && txs[p].logs > 0 && txs[p].id == id;
      var i, k := SavedTx(node, t, bundles, p);
      assert Logs(node, i, k, id);
    }
    if i: nat, k: nat :| Brings(t, node, bundles, i) && Logs(node, i, k, id) { TxSaved(node, t, bundles, i, k); }
  }

  /** The address table keeps what it had and gets the senders and receivers of the blocks brought. */
  lemma ScannedAddresses(node: nat -> Bundle, t: Tables, bundles: seq<Bundle>, a: Address)
    requires FromNode(node, bundles)
    ensures a in Scanned(t, bundles).0.addresses <==>
            a in t.addresses || exists i: nat, k: nat :: Brings(t, node, bundles, i) && Involves(node, i, k, a)
  {
    hide Fresh, Stale, AllTxs, Brings, WithBlocks, WithTxs, Conflicts, Logged;
    var txs := AllTxs(Fresh(t, bundles) + Stale(t, bundles));
    assert Scanned(t, bundles).0.addresses == t.addresses + Parties(txs);
    if a in Parties(txs) {
      var p :| 0 <= p < |txs| && a in txs[p].parties;
      var i, k := SavedTx(node, t, bundles, p);
      assert Involves(node, i, k, a);
    }
    if i: nat, k: nat :| Brings(t, node, bundles, i) && Involves(node, i, k, a) { TxSaved(node, t, bundles, i, k); }
  }

  // ----- Whole passes -----

  /** The log and address rows of a transaction are there as it has them. */
  predicate TxRecorded(t: Tables, x: Tx) { (x.logs > 0 <==> x.id in t.logs) && x.parties <= t.addresses }

  predicate AllRecorded(t: Tables, txs: seq<Tx>) { forall k :: 0 <= k < |txs| ==> TxRecorded(t, txs[k]) }

  /** Those of every stored block are. */
  ghost predicate Recorded(t: Tables, txsOf: Hash -> seq<Tx>) {
    forall i :: i in t.blocks ==> AllRecorded(t, txsOf(t.blocks[i]))
  }

  /** The setting: a batch of the node's blocks that goes through. */
  ghost predicate GoesThrough(node: nat -> Bundle, txsOf: Hash -> seq<Tx>, t: Tables, bundles: seq<Bundle>) {
    Determined(node, txsOf) && FromNode(node, bundles) && Whole(t, txsOf) && Scanned(t, bundles).1
  }

  /** A transaction that such a batch saves was not stored, or under a block that is replaced. */
  lemma SavedWasFree(node: nat -> Bundle, txsOf: Hash -> seq<Tx>, t: Tables, bundles: seq<Bundle>, i: nat, k: nat)
    requires GoesThrough(node, txsOf, t, bundles) && Brings(t, node, bundles, i) && k < |node(i).txs|
    ensures var id := node(i).txs[k].id; id in t.transactions ==> Goes(t, IndexSet(Stale(t, bundles)), id)
  {
    hide Fresh, Stale, AllTxs, Brings, Scanned, FromNode, Whole, Determined, IndexSet;
    TxSaved(node, t, bundles, i, k);
    SaveFailsIff(t, bundles);
  }

  /** It is saved once. */
  lemma SavedOnce(node: nat -> Bundle, txsOf: Hash -> seq<Tx>, t: Tables, bundles: seq<Bundle>, i: nat, k: nat,
                  j: nat, l: nat)
    requires GoesThrough(node, txsOf, t, bundles) && Brings(t, node, bundles, i) && Brings(t, node, bundles, j)
    requires k < |node(i).txs| && l < |node(j).txs| && node(i).txs[k].id == node(j).txs[l].id
    ensures node(i).txs[k] == node(j).txs[l]
  {
    hide Fresh, Stale, AllTxs, Brings, Scanned, FromNode, Whole, Determined, IndexSet;
    TxSaved(node, t, bundles, i, k);
    TxSaved(node, t, bundles, j, l);
    SaveFailsIff(t, bundles);
    var txs := AllTxs(Fresh(t, bundles) + Stale(t, bundles));
    var p :| 0 <= p < |txs| && txs[p] == node(i).txs[k];
    var q :| 0 <= q < |txs| && txs[q] == node(j).txs[l];
  }

  lemma NoOrphanLog(t: Tables, txsOf: Hash -> seq<Tx>, id: TxId)
    requires Whole(t, txsOf) && id in t.logs
    ensures id in t.transactions
  {}

  lemma BroughtRecorded(node: nat -> Bundle, txsOf: Hash -> seq<Tx>, t: Tables, bundles: seq<Bundle>, i: nat, k: nat)
    requires GoesThrough(node, txsOf, t, bundles) && Brings(t, node, bundles, i) && k < |node(i).txs|
    ensures TxRecorded(Scanned(t, bundles).0, node(i).txs[k])
  {
    hide Fresh, Stale, Brings, Scanned, FromNode, Whole, Determined, IndexSet;
    var x, s := node(i).txs[k], Scanned(t, bundles).0;
    ScannedLogs(node, t, bundles, x.id);
    if x.logs > 0 {
      assert Logs(node, i, k, x.id);
    } else if x.id in s.logs {
      SavedWasFree(node, txsOf, t, bundles, i, k);
      if x.id in t.logs { NoOrphanLog(t, txsOf, x.id); }
      var j: nat, l: nat :| Brings(t, node, bundles, j) && Logs(node, j, l, x.id);
      SavedOnce(node, txsOf, t, bundles, i, k, j, l);
    }
    forall a | a in x.parties ensures a in s.addresses {
      ScannedAddresses(node, t, bundles, a);
      assert Involves(node, i, k, a);
    }
  }

  lemma StoredAt(t: Tables, txsOf: Hash -> seq<Tx>, i: nat, k: nat)
    requires Whole(t, txsOf) && i in t.blocks && k < |txsOf(t.blocks[i])|
    ensures var id := txsOf(t.blocks[i])[k].id; id in t.transactions && t.transactions[id] == i
  {
    assert Stored(t, txsOf(t.blocks[i]), i);
  }

  lemma NotReplaced(node: nat -> Bundle, t: Tables, bundles: seq<Bundle>, i: nat)
    requires FromNode(node, bundles) && i in IndexSet(Stale(t, bundles))
    ensures Brings(t, node, bundles, i)
  {
    hide Fresh, Stale, FromNode;
    Split(node, t, bundles);
    assert Covers(Stale(t, bundles), i);
  }

  lemma KeptRecorded(node: nat -> Bundle, txsOf: Hash -> seq<Tx>, t: Tables, bundles: seq<Bundle>, i: nat, k: nat)
    requires GoesThrough(node, txsOf, t, bundles) && i in t.blocks && !Brings(t, node, bundles, i)
    requires k < |txsOf(t.blocks[i])| && TxRecorded(t, txsOf(t.blocks[i])[k])
    ensures TxRecorded(Scanned(t, bundles).0, txsOf(t.blocks[i])[k])
  {
    hide Fresh, Stale, Brings, Scanned, FromNode, Whole, Determined, IndexSet;
    var x, s, gone := txsOf(t.blocks[i])[k], Scanned(t, bundles).0, IndexSet(Stale(t, bundles));
    StoredAt(t, txsOf, i, k);
    assert !Goes(t, gone, x.id) by { if i in gone { NotReplaced(node, t, bundles, i); } }
    ScannedLogs(node, t, bundles, x.id);
    if j: nat, l: nat :| Brings(t, node, bundles, j) && Logs(node, j, l, x.id) {
      SavedWasFree(node, txsOf, t, bundles, j, l);
    }
    forall a | a in x.parties ensures a in s.addresses { ScannedAddresses(node, t, bundles, a); }
  }

  /** A batch that goes through leaves the logs and addresses of every stored block as they should be. */
  lemma ScannedRecorded(node: nat -> Bundle, txsOf: Hash -> seq<Tx>, t: Tables, bundles: seq<Bundle>)
    requires GoesThrough(node, txsOf, t, bundles) && Recorded(t, txsOf)
    ensures Recorded(Scanned(t, bundles).0, txsOf)
  {
    hide Scanned, FromNode, Whole, TxRecorded;
    var s := Scanned(t, bundles).0;
    forall i, k | i in s.blocks && 0 <= k < |txsOf(s.blocks[i])| ensures TxRecorded(s, txsOf(s.blocks[i])[k]) {
      ScannedBlocks(node, t, bundles, i);
      if Brings(t, node, bundles, i) {
        assert node(i).txs == txsOf(node(i).hash);
        BroughtRecorded(node, txsOf, t, bundles, i, k);
      } else {
        assert AllRecorded(t, txsOf(t.blocks[i]));
        KeptRecorded(node, txsOf, t, bundles, i, k);
      }
    }
  }

  /** So does a pass that completes. */
  lemma {:induction false} PassRecorded(u: Setup<Bundle>, txsOf: Hash -> seq<Tx>, t: Tables,
                                        batches: seq<seq<Wrapper<Bundle>>>)
    requires Determined(u.src, txsOf) && Whole(t, txsOf) && Recorded(t, txsOf) && Pass(t, batches).1
    requires forall b :: 0 <= b < |batches| ==> Genuine(u, batches[b])
    ensures Recorded(Pass(t, batches).0, txsOf)
  {
    hide Scanned, Whole, Genuine, Contents, Recorded;
    if batches != [] {
      var n := |batches| - 1;
      PassRecorded(u, txsOf, t, batches[..n]);
      PassWholeIff(u, txsOf, t, batches[..n]);
      GenuineFromNode(u, batches[n], 0);
      ScannedRecorded(u.src, txsOf, Pass(t, batches[..n]).0, Contents(batches[n]));
    }
  }
}
