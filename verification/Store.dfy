/**
 store.py: the tables, changed in place, and the all-or-nothing transaction around a change.
 SQLite's primary keys are the `requires` of the inserting methods.
 */
module StoreModel {
  import opened Types
  import opened ActiveChain
  import opened ChainState
  import Ledger
  import Snapshot

  lemma NewToIndex(index: map<Digest, TxLocation>, b: Block, i: nat)
    requires i < |b.txs| && TxHash(b.txs[i]) !in index
    requires forall j :: 0 <= j < i ==> TxHash(b.txs[j]) != TxHash(b.txs[i])
    ensures TxHash(b.txs[i]) !in IndexTxs(index, b, i)
  {
    IndexTxsFacts(index, b, i);
  }

  lemma MergeAssociates(x: map<AddressKey, Digest>, y: map<AddressKey, Digest>, z: map<AddressKey, Digest>)
    ensures (x + y) + z == x + (y + z)
  {
  }

  class Store {
    var tables: Tables
    var saved: Option<Tables>  // what a rollback goes back to, while a transaction is open

    constructor (tables: Tables)
      ensures this.tables == tables && saved == None
    {
      this.tables := tables;
      saved := None;
    }

    /** BEGIN: transactions don't nest. */
    method Begin()
      requires saved.None?
      modifies this
      ensures saved == Some(tables) && tables == old(tables)
    {
      saved := Some(tables);
    }

    method Commit()
      requires saved.Some?
      modifies this
      ensures saved == None && tables == old(tables)
    {
      saved := None;
    }

    /** ROLLBACK: every change since Begin is undone. */
    method Rollback()
      requires saved.Some?
      modifies this
      ensures saved == None && tables == old(saved).value
    {
      tables := saved.value;
      saved := None;
    }

    method AddBlock(b: Block, chainWork: nat, status: Status)
      requires b.Id() !in tables.headers
      modifies this`tables
      ensures tables == old(tables).(headers := old(tables).headers[b.Id() := StoredBlock(b, chainWork, status)])
    {
      tables := tables.(headers := tables.headers[b.Id() := StoredBlock(b, chainWork, status)]);
    }

    /** UPDATE: no row, no change. */
    method SetStatus(id: Digest, status: Status)
      modifies this`tables
      ensures id in old(tables).headers ==>
        tables == old(tables).(headers := old(tables).headers[id := old(tables).headers[id].(status := status)])
      ensures id !in old(tables).headers ==> tables == old(tables)
    {
      if id in tables.headers {
        tables := tables.(headers := tables.headers[id := tables.headers[id].(status := status)]);
      }
    }

    function Children(id: Digest): set<Digest>
      reads this
    {
      set x | x in tables.headers && x.HeaderHash? && x.header.prevId == id
    }

    function TipHeight(): nat
      reads this
      requires |tables.active.main| > 0
    {
      |tables.active.main| - 1
    }

    /** main_chain is appended to at its end and cut at its end. */
    method SetMain(height: nat, id: Digest)
      requires height == |tables.active.main| && id !in tables.active.main
      modifies this`tables
      ensures tables == old(tables).(active := old(tables).active.(main := old(tables).active.main + [id]))
    {
      tables := tables.(active := tables.active.(main := tables.active.main + [id]));
    }

    method DeleteMain(height: nat)
      requires height + 1 == |tables.active.main|
      modifies this`tables
      ensures tables == old(tables).(active := old(tables).active.(main := old(tables).active.main[..height]))
    {
      tables := tables.(active := tables.active.(main := tables.active.main[..height]));
    }

    /** Account by account: an empty one is deleted, any other replaced. */
    method WriteAccounts(changes: map<Address, Account>)
      requires Ledger.Normal(tables.active.accounts)
      modifies this`tables
      ensures tables == old(tables).(active := old(tables).active.(
                accounts := Ledger.Write(old(tables).active.accounts, changes)))
    {
      hide Ledger.Write, Ledger.Put;
      var table := tables.active.accounts;
      ghost var done: map<Address, Account> := map[];
      var todo := changes.Keys;
      Ledger.SameReadsSameTable(Ledger.Write(table, done), table);
      while todo != {}
        invariant tables == old(tables)
        invariant table == Ledger.Write(tables.active.accounts, done)
        invariant todo <= changes.Keys
        invariant done == map a | a in changes && a !in todo :: changes[a]
        decreases todo
      {
        var a :| a in todo;
        Ledger.WritePut(tables.active.accounts, done, a, changes[a]);
        table := Ledger.Put(table, a, changes[a]);
        done := done[a := changes[a]];
        todo := todo - {a};
      }
      assert done == changes;
      tables := tables.(active := tables.active.(accounts := table));
    }

    /** The rows of the accounts table, in some order. */
    method AllAccounts() returns (items: seq<Snapshot.Item>)
      requires Ledger.Normal(tables.active.accounts)
      ensures Snapshot.Lists(items, tables.active.accounts)
    {
      var accounts := tables.active.accounts;
      items := [];
      var todo := accounts.Keys;
      while todo != {}
        invariant todo <= accounts.Keys
        invariant Snapshot.Distinct(items)
        invariant forall x :: x in items ==> x.0 in accounts && x.0 !in todo && accounts[x.0] == x.1
        invariant forall a :: a in accounts && a !in todo ==> (a, accounts[a]) in items
        decreases todo
      {
        var a :| a in todo;
        forall i | 0 <= i < |items|
          ensures items[i].0 != a
        {
          assert items[i] in items;
        }
        items := items + [(a, accounts[a])];
        todo := todo - {a};
      }
      Snapshot.DistinctNeverRepeats(items);
    }

    method PutUndo(id: Digest, previous: map<Address, Account>)
      requires id !in tables.active.undo
      modifies this`tables
      ensures tables == old(tables).(active := old(tables).active.(undo := old(tables).active.undo[id := previous]))
    {
      tables := tables.(active := tables.active.(undo := tables.active.undo[id := previous]));
    }

    method TakeUndo(id: Digest) returns (previous: map<Address, Account>)
      requires id in tables.active.undo
      modifies this`tables
      ensures previous == old(tables).active.undo[id]
      ensures tables == old(tables).(active := old(tables).active.(undo := old(tables).active.undo - {id}))
    {
      previous := tables.active.undo[id];
      tables := tables.(active := tables.active.(undo := tables.active.undo - {id}));
    }

    method PutSnapshot(height: nat, root: Digest)
      requires height !in tables.active.snapshots
      modifies this`tables
      ensures tables == old(tables).(active := old(tables).active.(
                snapshots := old(tables).active.snapshots[height := root]))
    {
      tables := tables.(active := tables.active.(snapshots := tables.active.snapshots[height := root]));
    }

    method DeleteSnapshot(height: nat)
      modifies this`tables
      ensures tables == old(tables).(active := old(tables).active.(
                snapshots := old(tables).active.snapshots - {height}))
    {
      tables := tables.(active := tables.active.(snapshots := tables.active.snapshots - {height}));
    }

    /** One insert per transaction and per address it touches; no key may be there already. */
    method IndexBlock(b: Block, p: Params)
      requires forall i :: 0 <= i < |b.txs| ==> TxHash(b.txs[i]) !in tables.active.txIndex
      requires forall i, j :: 0 <= i < j < |b.txs| ==> TxHash(b.txs[i]) != TxHash(b.txs[j])
      requires forall k :: k in AddressRows(b, |b.txs|, p) ==> k !in tables.active.addressIndex
      modifies this`tables
      ensures tables == old(tables).(active := old(tables).active.(
                txIndex := IndexTxs(old(tables).active.txIndex, b, |b.txs|),
                addressIndex := old(tables).active.addressIndex + AddressRows(b, |b.txs|, p)))
    {
      hide Ledger.AddressesOf, RowsOf;
      var txIndex, rows := tables.active.txIndex, tables.active.addressIndex;
      for i := 0 to |b.txs|
        invariant tables == old(tables)
        invariant txIndex == IndexTxs(tables.active.txIndex, b, i)
        invariant rows == tables.active.addressIndex + AddressRows(b, i, p)
      {
        NewToIndex(tables.active.txIndex, b, i);
        assert TxHash(b.txs[i]) !in txIndex;
        MergeAssociates(tables.active.addressIndex, AddressRows(b, i, p),
                        RowsOf(Ledger.AddressesOf(b.txs[i], p), b.header.height, i, TxHash(b.txs[i])));
        txIndex := txIndex[TxHash(b.txs[i]) := TxLocation(b.Id(), b.header.height, i)];
        rows := rows + RowsOf(Ledger.AddressesOf(b.txs[i], p), b.header.height, i, TxHash(b.txs[i]));
      }
      tables := tables.(active := tables.active.(txIndex := txIndex, addressIndex := rows));
    }

    method UnindexBlock(b: Block)
      modifies this`tables
      ensures tables == old(tables).(active := old(tables).active.(
                txIndex := WithoutHeight(old(tables).active.txIndex, b.header.height),
                addressIndex := RowsWithoutHeight(old(tables).active.addressIndex, b.header.height)))
    {
      tables := tables.(active := tables.active.(
        txIndex := WithoutHeight(tables.active.txIndex, b.header.height),
        addressIndex := RowsWithoutHeight(tables.active.addressIndex, b.header.height)));
    }

    /** set_meta("sealed_chunks", ...) inside a transaction. */
    method CountSealed()
      modifies this`tables
      ensures tables == old(tables).(sealedChunks := old(tables).sealedChunks + 1)
    {
      tables := tables.(sealedChunks := tables.sealedChunks + 1);
    }

    /** Seal one chunk: side-branch rows at its heights are deleted (chunk file contents: ChunkFile). */
    method SealChunk(first: nat, last: nat)
      requires saved.None?
      modifies this
      ensures saved == None
      ensures tables == old(tables).(headers := tables.headers, sealedChunks := old(tables).sealedChunks + 1)
      ensures forall id :: id in tables.headers <==>
        (id in old(tables).headers
         && !(id.HeaderHash? && first <= id.header.height <= last && id !in old(tables).active.main))
      ensures forall id :: id in tables.headers ==> tables.headers[id] == old(tables).headers[id]
    {
      Begin();
      var losers := set id | id in tables.headers && id.HeaderHash? && first <= id.header.height <= last
                           && id !in tables.active.main;
      tables := tables.(headers := tables.headers - losers, sealedChunks := tables.sealedChunks + 1);
      Commit();
    }
  }
}
