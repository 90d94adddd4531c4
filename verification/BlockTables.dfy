/** The block, transaction, receipt and log tables of the Ethereum monitor, and what one scanned
    batch does to them. */
module BlockTables {
  import opened Options

  type Hash = string
  type TxId = string
  type Address = string

  /** A transaction as the node reports it. `logs` counts its log entries, `parties` are its sender and
      receiver as far as it has them. */
  datatype Tx = Tx(id: TxId, blockIndex: nat, logs: nat, parties: set<Address>)

  datatype Bundle = Bundle(index: nat, hash: Hash, txs: seq<Tx>)

  /** Blocks are keyed by index; transactions, receipts and logs by transaction hash; contracts and
      addresses by address. A contract row may name the transaction that created it. */
  datatype Tables = Tables(
    blocks: map<nat, Hash>, transactions: map<TxId, nat>, receipts: set<TxId>,
    contracts: map<Address, Option<TxId>>, logs: set<TxId>, addresses: set<Address>)

  datatype Status = New | Same | Replaced

  datatype Comparison = Comparison(index: nat, hash: Hash, status: Status)

  datatype Outcome = Stop | Continue | Failed

  // ----- What each operation does, as functions of the tables -----

  function StatusOf(blocks: map<nat, Hash>, index: nat, hash: Hash): Status {
    if index !in blocks then New else if blocks[index] == hash then Same else Replaced
  }

  function Compared(blocks: map<nat, Hash>, bundles: seq<Bundle>): (rows: seq<Comparison>)
    ensures |rows| == |bundles|
  {
    if bundles == [] then []
    else
      var b := bundles[|bundles| - 1];
      Compared(blocks, bundles[..|bundles| - 1]) + [Comparison(b.index, b.hash, StatusOf(blocks, b.index, b.hash))]
  }

  /** The first bundle with the given index. */
  function Mapped(bundles: seq<Bundle>, index: nat): Bundle
    requires exists k :: 0 <= k < |bundles| && bundles[k].index == index
  {
    if bundles[0].index == index then bundles[0]
    else
      assert forall k :: 1 <= k < |bundles| ==> bundles[k] == bundles[1..][k - 1];
      Mapped(bundles[1..], index)
  }

  /** The bundles found for those of the first n rows that have the given status, in order. */
  function Picked(blocks: map<nat, Hash>, bundles: seq<Bundle>, n: nat, status: Status): seq<Bundle>
    requires n <= |bundles|
  {
    if n == 0 then []
    else
      var b := bundles[n - 1];
      Picked(blocks, bundles, n - 1, status)
      + (if StatusOf(blocks, b.index, b.hash) == status then [Mapped(bundles, b.index)] else [])
  }

  function Fresh(t: Tables, bundles: seq<Bundle>): seq<Bundle> { Picked(t.blocks, bundles, |bundles|, New) }

  function Stale(t: Tables, bundles: seq<Bundle>): seq<Bundle> { Picked(t.blocks, bundles, |bundles|, Replaced) }

  function IndexSet(bundles: seq<Bundle>): set<nat> { set k | 0 <= k < |bundles| :: bundles[k].index }

  /** The transactions stored for the given blocks. */
  function TxsOf(t: Tables, gone: set<nat>): set<TxId> { set id | id in t.transactions && t.transactions[id] in gone }

  function Deleted(t: Tables, gone: set<nat>): Tables {
    var txs := TxsOf(t, gone);
    t.(blocks := t.blocks - gone, transactions := t.transactions - txs, receipts := t.receipts - txs,
       contracts := NotCreatedBy(t.contracts, txs), logs := t.logs - txs)
  }

  /** The contract rows that name none of the transactions. */
  function NotCreatedBy(contracts: map<Address, Option<TxId>>, txs: set<TxId>): map<Address, Option<TxId>> {
    map a | a in contracts && (contracts[a].None? || contracts[a].value !in txs) :: contracts[a]
  }

  /** INSERT ... ON CONFLICT DO NOTHING into the block table. */
  function WithBlocks(blocks: map<nat, Hash>, bundles: seq<Bundle>): map<nat, Hash> {
    if bundles == [] then blocks
    else
      var m, b := WithBlocks(blocks, bundles[..|bundles| - 1]), bundles[|bundles| - 1];
      if b.index in m then m else m[b.index := b.hash]
  }

  function AllTxs(bundles: seq<Bundle>): seq<Tx> {
    if bundles == [] then [] else AllTxs(bundles[..|bundles| - 1]) + bundles[|bundles| - 1].txs
  }

  predicate Distinct(txs: seq<Tx>) { forall i, j :: 0 <= i < j < |txs| ==> txs[i].id != txs[j].id }

  /** Whether one INSERT of all the transactions breaks the primary key. */
  predicate Conflicts(transactions: map<TxId, nat>, txs: seq<Tx>) {
    !Distinct(txs) || exists k :: 0 <= k < |txs| && txs[k].id in transactions
  }

  function WithTxs(transactions: map<TxId, nat>, txs: seq<Tx>): map<TxId, nat> {
    if txs == [] then transactions
    else WithTxs(transactions, txs[..|txs| - 1])[txs[|txs| - 1].id := txs[|txs| - 1].blockIndex]
  }

  function Logged(txs: seq<Tx>): set<TxId> { set k | 0 <= k < |txs| && txs[k].logs > 0 :: txs[k].id }

  function Parties(txs: seq<Tx>): set<Address> { set k, a | 0 <= k < |txs| && a in txs[k].parties :: a }

  /** The four inserts run side by side; only the one into the transaction table can fail. */
  function Saved(t: Tables, bundles: seq<Bundle>): (Tables, bool) {
    var txs := AllTxs(bundles);
    var u := t.(blocks := WithBlocks(t.blocks, bundles), logs := t.logs + Logged(txs),
                addresses := t.addresses + Parties(txs));
    if Conflicts(t.transactions, txs) then (u, false)
    else (u.(transactions := WithTxs(t.transactions, txs)), true)
  }

  function Scanned(t: Tables, bundles: seq<Bundle>): (Tables, bool) {
    Saved(Deleted(t, IndexSet(Stale(t, bundles))), Fresh(t, bundles) + Stale(t, bundles))
  }

  function Highest(bundles: seq<Bundle>): (h: nat)
    requires bundles != []
    ensures exists k :: 0 <= k < |bundles| && bundles[k].index == h
    ensures forall k :: 0 <= k < |bundles| ==> bundles[k].index <= h
  {
    var n := |bundles| - 1;
    if n == 0 then bundles[0].index
    else
      var h := Highest(bundles[..n]);
      assert forall k :: 0 <= k < n ==> bundles[..n][k] == bundles[k];
      if bundles[n].index > h then bundles[n].index else h
  }

  // ----- The code -----

  class Monitor {
    var blocks: map<nat, Hash>
    var transactions: map<TxId, nat>
    var receipts: set<TxId>
    var contracts: map<Address, Option<TxId>>
    var logs: set<TxId>
    var addresses: set<Address>
    var blockIndex: nat

    function Now(): Tables
      reads this
    { Tables(blocks, transactions, receipts, contracts, logs, addresses) }

    method CompareBlockHashes(bundles: seq<Bundle>) returns (rows: seq<Comparison>)
      ensures rows == Compared(blocks, bundles)
    {
      rows := [];
      for k := 0 to |bundles|
        invariant rows == Compared(blocks, bundles[..k])
      {
        assert bundles[..k + 1][..k] == bundles[..k];
        var b := bundles[k];
        rows := rows + [Comparison(b.index, b.hash, StatusOf(blocks, b.index, b.hash))];
      }
      assert bundles[..|bundles|] == bundles;
    }

    /** Rows that refer to transactions go while the transactions are still there to be joined with. */
    method DeleteFullBlocks(indexes: set<nat>)
      modifies this
      ensures Now() == Deleted(old(Now()), indexes) && blockIndex == old(blockIndex)
    {
      if indexes == {} {
        DeletedNothing(Now());
        return;
      }
      blocks := blocks - indexes;
      receipts := receipts - TxsOf(Now(), indexes);
      contracts := NotCreatedBy(contracts, TxsOf(Now(), indexes));
      logs := logs - TxsOf(Now(), indexes);
      transactions := transactions - TxsOf(Now(), indexes);
    }

    method SaveBlocks(bundles: seq<Bundle>)
      modifies this
      ensures Now() == old(Now()).(blocks := WithBlocks(old(blocks), bundles)) && blockIndex == old(blockIndex)
    {
      for k := 0 to |bundles|
        invariant Now() == old(Now()).(blocks := WithBlocks(old(blocks), bundles[..k])) && blockIndex == old(blockIndex)
      {
        assert bundles[..k + 1][..k] == bundles[..k];
        if bundles[k].index !in blocks {
          blocks := blocks[bundles[k].index := bundles[k].hash];
        }
      }
      assert bundles[..|bundles|] == bundles;
    }

    method SaveTransactions(txs: seq<Tx>) returns (ok: bool)
      modifies this
      ensures ok == !Conflicts(old(transactions), txs) && blockIndex == old(blockIndex)
      ensures Now() == if ok then old(Now()).(transactions := WithTxs(old(transactions), txs)) else old(Now())
    {
      var table := transactions;
      for k := 0 to |txs|
        invariant Now() == old(Now()) && blockIndex == old(blockIndex)
        invariant !Conflicts(transactions, txs[..k]) && table == WithTxs(transactions, txs[..k])
      {
        WithTxsKeys(transactions, txs[..k], txs[k].id);
        assert txs[..k + 1][..k] == txs[..k];
        if txs[k].id in table {
          return false;
        }
        table := table[txs[k].id := txs[k].blockIndex];
      }
      assert txs[..|txs|] == txs;
      transactions := table;
      return true;
    }

    method SaveFullBlocks(bundles: seq<Bundle>) returns (ok: bool)
      modifies this
      ensures (Now(), ok) == Saved(old(Now()), bundles) && blockIndex == old(blockIndex)
    {
      var txs := AllTxs(bundles);
      SaveBlocks(bundles);
      addresses := addresses + Parties(txs);
      ok := SaveTransactions(txs);
      logs := logs + Logged(txs);
    }

    method Classify(bundles: seq<Bundle>) returns (newBlocks: seq<Bundle>, replacedBlocks: seq<Bundle>)
      ensures newBlocks == Fresh(Now(), bundles) && replacedBlocks == Stale(Now(), bundles)
    {
      var rows := CompareBlockHashes(bundles);
      newBlocks, replacedBlocks := [], [];
      for k := 0 to |rows|
        invariant newBlocks == Picked(blocks, bundles, k, New)
        invariant replacedBlocks == Picked(blocks, bundles, k, Replaced)
      {
        ComparedAt(blocks, bundles, k);
        if rows[k].status == New {
          newBlocks := newBlocks + [Mapped(bundles, rows[k].index)];
        }
        if rows[k].status == Replaced {
          replacedBlocks := replacedBlocks + [Mapped(bundles, rows[k].index)];
        }
      }
    }

    /** One call of the scanner on the batch that the queue handed out. */
    method ScanBlocks(bundles: seq<Bundle>) returns (outcome: Outcome)
      modifies this
      ensures outcome.Stop? <==> bundles == []
      ensures outcome.Failed? <==> !Scanned(old(Now()), bundles).1
      ensures Now() == Scanned(old(Now()), bundles).0
      ensures blockIndex == if outcome.Continue? then Highest(bundles) + 1 else old(blockIndex)
    {
      hide Deleted, Saved, Fresh, Stale, IndexSet;
      if bundles == [] {
        NothingToDo(Now());
        return Stop;
      }
      var newBlocks, replacedBlocks := Classify(bundles);
      DeleteFullBlocks(IndexSet(replacedBlocks));
      var blocksToSave := newBlocks + replacedBlocks;
      var ok := true;
      if |blocksToSave| > 0 {
        ok := SaveFullBlocks(blocksToSave);
      } else {
        NothingSaved(Now());
      }
      if !ok {
        return Failed;
      }
      blockIndex := Highest(bundles) + 1;
      return Continue;
    }
  }

  lemma {:induction false} WithTxsKeys(transactions: map<TxId, nat>, txs: seq<Tx>, id: TxId)
    ensures id in WithTxs(transactions, txs) <==> id in transactions || exists k :: 0 <= k < |txs| && txs[k].id == id
  {
    if txs != [] {
      var n := |txs| - 1;
      WithTxsKeys(transactions, txs[..n], id);
      if k :| 0 <= k < |txs| && txs[k].id == id && k < n { assert txs[..n][k].id == id; }
    }
  }

  lemma {:induction false} ComparedAt(blocks: map<nat, Hash>, bundles: seq<Bundle>, k: nat)
    requires k < |bundles|
    ensures Compared(blocks, bundles)[k]
         == Comparison(bundles[k].index, bundles[k].hash, StatusOf(blocks, bundles[k].index, bundles[k].hash))
  {
    if k < |bundles| - 1 { ComparedAt(blocks, bundles[..|bundles| - 1], k); }
  }

  /** The mapper undoes the projection to (index, hash) when indices are distinct. */
  lemma {:induction false} MappedBack(bundles: seq<Bundle>, k: nat)
    requires k < |bundles|
    requires forall i, j :: 0 <= i < j < |bundles| ==> bundles[i].index != bundles[j].index
    ensures Mapped(bundles, bundles[k].index) == bundles[k]
  {
    if k > 0 {
      assert bundles[1..][k - 1] == bundles[k];
      assert bundles[0].index != bundles[k].index;
      MappedBack(bundles[1..], k - 1);
    }
  }

  lemma NothingSaved(t: Tables)
    ensures Saved(t, []) == (t, true)
  {
    assert AllTxs([]) == [];
    assert t.logs + Logged([]) == t.logs && t.addresses + Parties([]) == t.addresses;
  }

  lemma NothingToDo(t: Tables)
    ensures Scanned(t, []) == (t, true)
  {
    var none: seq<Bundle> := [];
    assert none + none == none && IndexSet(none) == {};
    DeletedNothing(t);
    NothingSaved(t);
  }

  lemma DeletedNothing(t: Tables)
    ensures Deleted(t, {}) == t
  {
    assert TxsOf(t, {}) == {};
    assert NotCreatedBy(t.contracts, {}) == t.contracts;
  }

  /** The row, if any, goes if it belongs to a transaction stored for one of the deleted blocks. */
  predicate Goes(t: Tables, gone: set<nat>, id: TxId) { id in t.transactions && t.transactions[id] in gone }

  /** Deleting takes the blocks and what hangs off them, and leaves every other row as it is. */
  lemma DeletedIs(t: Tables, gone: set<nat>)
    ensures var d := Deleted(t, gone);
            && (forall i :: i in d.blocks <==> i in t.blocks && i !in gone)
            && (forall i :: i in d.blocks ==> d.blocks[i] == t.blocks[i])
            && (forall id :: id in d.transactions <==> id in t.transactions && !Goes(t, gone, id))
            && (forall id :: id in d.transactions ==> d.transactions[id] == t.transactions[id])
            && (forall id :: id in d.receipts <==> id in t.receipts && !Goes(t, gone, id))
            && (forall id :: id in d.logs <==> id in t.logs && !Goes(t, gone, id))
            && (forall a :: a in d.contracts <==>
                  a in t.contracts && (t.contracts[a].Some? ==> !Goes(t, gone, t.contracts[a].value)))
            && (forall a :: a in d.contracts ==> d.contracts[a] == t.contracts[a])
            && d.addresses == t.addresses
  {
    forall id ensures id in TxsOf(t, gone) <==> Goes(t, gone, id) {}
  }
}
