/**
 Why the mempool can be kept valid across changes of the active chain: new blocks only lower the
 accounts of their own senders, and undone transfers are never waiting already.
 */
module Upkeep {
  import opened Types
  import opened Ledger
  import opened Pool
  import opened Requeue
  import opened ActiveChain
  import opened ChainState
  import opened Receiving
  import MedianTime
  import Merkle
  import Snapshot

  // --- blocks that extend the chain ----------------------------------------------------------------------

  /** No account of these but those excepted lost anything. */
  ghost predicate RaisedBut(s: Accounts, t: Accounts, except: set<Address>) {
    forall a :: a !in except ==> Get(t, a).nonce == Get(s, a).nonce && Get(t, a).balance >= Get(s, a).balance
  }

  lemma ConnectRaises(p: Params, chain: seq<Block>, b: Block)
    requires ValidChain(p, chain) && ValidChain(p, chain + [b])
    ensures |b.txs| > 0 && AllTransfers(b.txs[1..])
    ensures RaisedBut(Replay(p, chain).value.accounts, Replay(p, chain + [b]).value.accounts, Senders(b.txs[1..], p))
  {
    hide Replay, Connect, ContextFor, ApplyBody, IndexTxs, AddressRows, Touched,
      Previous, Merkle.TxRoot, BlockSize, CheckTransactions, Snapshot.StateRoot;
    ReplayExtends(p, chain, b);
    ChainBounds(p, chain);
    ConnectParts(p, chain, Replay(p, chain).value, b);
    BodyFacts(b, ContextFor(p, chain, Replay(p, chain).value).value.matured, Replay(p, chain).value.accounts, p);
  }

  /** Blocks added at the tip only raise balances, except of the senders whose transfers they hold. */
  lemma {:induction false} ExtensionRaises(p: Params, chain: seq<Block>, added: seq<Block>)
    requires ValidChain(p, chain) && ValidChain(p, chain + added) && HasTransfersOnly(added)
    ensures RaisedBut(Replay(p, chain).value.accounts, Replay(p, chain + added).value.accounts, SendersOf(p, added))
  {
    hide Replay;
    if added == [] {
      assert chain + added == chain;
    } else {
      var n := |added| - 1;
      var init, b := added[..n], added[n];
      assert added == init + [b] && chain + added == chain + init + [b];
      PrefixIsValid(p, chain + added, |chain| + n);
      assert (chain + added)[..|chain| + n] == chain + init;
      assert forall x :: x in init ==> x in added;
      ExtensionRaises(p, chain, init);
      ConnectRaises(p, chain + init, b);
      assert b in added;
      assert SendersOf(p, init) <= SendersOf(p, added);
      assert Senders(b.txs[1..], p) <= SendersOf(p, added);
    }
  }

  lemma RaisedCovers(bySender: SenderIndex, s: Accounts, t: Accounts, except: set<Address>, limit: nat)
    requires AllCovered(bySender, s, limit) && RaisedBut(s, t, except)
    ensures AllCovered(bySender - except, t, limit)
  {
    hide Run, Spent;
  }

  /** Whatever a change of the active chain did, mempool.update may be called. */
  lemma UpdateIsReady(p: Params, start: seq<Block>, r: SubmitResult, chain: seq<Block>, bySender: SenderIndex,
                      limit: nat)
    requires ValidChain(p, start) && ValidChain(p, chain) && Accumulates(p, start, r, chain)
    requires AllCovered(bySender, Replay(p, start).value.accounts, limit)
    ensures HasTransfersOnly(r.connected) && HasTransfersOnly(r.disconnected) && BodiesChecked(p, r.disconnected)
    ensures AllCovered(bySender - Rechecked(p, bySender, r.connected, r.disconnected),
                       Replay(p, chain).value.accounts, limit)
  {
    hide Replay, CheckTransaction, Covered, Undone;
    WellFormedBodies(p, r.connected);
    WellFormedBodies(p, r.disconnected);
    if r.disconnected == [] {
      ExtensionRaises(p, start, r.connected);
      RaisedCovers(bySender, Replay(p, start).value.accounts, Replay(p, chain).value.accounts,
                   SendersOf(p, r.connected), limit);
    }
  }

  lemma {:induction false} CheckedEach(txs: seq<Transaction>, p: Params)
    requires CheckTransactions(txs, p).None?
    ensures forall tx :: tx in txs ==> CheckTransaction(tx, p).None?
  {
    hide CheckTransaction;
    if txs != [] {
      CheckedEach(txs[..|txs| - 1], p);
      assert txs == txs[..|txs| - 1] + [txs[|txs| - 1]];
    }
  }

  lemma NoneRepeats(p: Params, blocks: seq<Block>)
    requires forall b :: b in blocks ==> WellFormed(b, p)
    ensures forall b :: b in blocks ==> NoRepeats(b.txs)
  {
    hide Merkle.TxRoot, BlockSize, CheckTransactions;
  }

  lemma WellFormedBodies(p: Params, blocks: seq<Block>)
    requires forall b :: b in blocks ==> WellFormed(b, p)
    ensures HasTransfersOnly(blocks) && BodiesChecked(p, blocks)
  {
    hide CheckTransaction, Merkle.TxRoot, BlockSize, NoRepeats;
    forall b, tx | b in blocks && tx in b.txs
      ensures CheckTransaction(tx, p).None?
    {
      CheckedEach(b.txs, p);
    }
  }

  // --- undone transfers --------------------------------------------------------------------------------------

  /** Every transaction of the chain is in the index, at its own height. */
  lemma {:induction false} TxsAreIndexed(p: Params, chain: seq<Block>, i: nat, tx: Transaction)
    requires ValidChain(p, chain) && i < |chain| && tx in chain[i].txs
    ensures var a := Replay(p, chain).value;
      TxHash(tx) in a.txIndex && a.txIndex[TxHash(tx)].height == i
    decreases |chain|
  {
    hide Connect, ContextFor, CheckBlock, IndexTxs, AddressRows;
    var n := |chain| - 1;
    ChainShape(p, chain);
    var k :| 0 <= k < |chain[i].txs| && chain[i].txs[k] == tx;
    if n == 0 {
      IndexTxsFacts(map[], p.genesis, |p.genesis.txs|);
      assert Names(p.genesis, |p.genesis.txs|, TxHash(tx));
    } else {
      assert chain == chain[..n] + [chain[n]];
      PrefixIsValid(p, chain, n);
      ConnectNeverCollides(p, chain[..n], chain[n]);
      IndexedNext(p, chain[..n], chain[n]);
      if i < n {
        TxsAreIndexed(p, chain[..n], i, tx);
      } else {
        assert Names(chain[n], |chain[n].txs|, TxHash(tx));
      }
    }
  }

  lemma IndexedNext(p: Params, chain: seq<Block>, b: Block)
    requires ValidChain(p, chain) && ValidChain(p, chain + [b])
    requires forall i :: 0 <= i < |b.txs| ==> TxHash(b.txs[i]) !in Replay(p, chain).value.txIndex
    ensures var a, r := Replay(p, chain).value, Replay(p, chain + [b]).value;
      && (forall k :: Names(b, |b.txs|, k) ==> k in r.txIndex && r.txIndex[k].height == b.header.height)
      && (forall k :: k in a.txIndex ==> k in r.txIndex && r.txIndex[k] == a.txIndex[k])
  {
    hide Replay, Connect, ContextFor, CheckBlock, AddressRows, IndexTxs, ApplyBody, Touched, Previous,
      Snapshot.StateRoot;
    ReplayExtends(p, chain, b);
    ConnectParts(p, chain, Replay(p, chain).value, b);
    IndexTxsFacts(Replay(p, chain).value.txIndex, b, |b.txs|);
  }

  /** A transfer on the chain is used up, so it cannot be waiting. */
  lemma OnChainIsNotWaiting(p: Params, chain: seq<Block>, x: Block, tx: Transaction, m: Entries,
                            bySender: SenderIndex, limit: nat)
    requires ValidChain(p, chain) && x in chain && tx in x.txs && tx.Transfer?
    requires Indexed(p, m, bySender) && AllCovered(bySender, Replay(p, chain).value.accounts, limit)
    ensures tx !in m
  {
    hide Replay, Indexed, Spent;
    var i :| 0 <= i < |chain| && chain[i] == x;
    TxsAreIndexed(p, chain, i, tx);
    ChainBounds(p, chain);
    assert Replay(p, chain).value.txIndex[TxHash(tx)].height == i;
    if tx in m {
      EntryIsFiled(p, m, bySender, tx);
    }
  }

  /** A transaction stands in one block of the chain only. */
  lemma OneBlockEach(p: Params, chain: seq<Block>, x: Block, y: Block, tx: Transaction)
    requires ValidChain(p, chain) && x in chain && y in chain && tx in x.txs && tx in y.txs
    ensures x == y
  {
    hide Replay;
    var i :| 0 <= i < |chain| && chain[i] == x;
    var j :| 0 <= j < |chain| && chain[j] == y;
    TxsAreIndexed(p, chain, i, tx);
    TxsAreIndexed(p, chain, j, tx);
  }

  lemma {:induction false} ReturningFromOnce(txs: seq<Transaction>, confirmed: set<Transaction>)
    requires forall i, j :: 0 <= i < j < |txs| ==> txs[i] != txs[j]
    ensures NoneTwice(ReturningFrom(txs, confirmed))
  {
    if txs != [] {
      var n := |txs| - 1;
      ReturningFromOnce(txs[..n], confirmed);
      var rest := ReturningFrom(txs[..n], confirmed);
      forall i | 0 <= i < |rest|
        ensures rest[i] != txs[n]
      {
        assert rest[i] in rest;
      }
    }
  }

  /** Blocks of the chain, each undone once unless also confirmed again: no transfer returns twice. */
  lemma {:induction false} ReturningOnce(p: Params, chain: seq<Block>, undone: seq<Block>, connected: seq<Block>)
    requires ValidChain(p, chain)
    requires HasTransfersOnly(undone)
    requires forall x :: x in undone ==> NoRepeats(x.txs) && (x in chain || x in connected)
    requires forall i, j :: 0 <= i < j < |undone| && undone[i] == undone[j] ==> undone[i] in connected
    ensures NoneTwice(Returning(undone, Confirmed(connected)))
  {
    hide Replay, ReturningFrom;
    if undone != [] {
      var n := |undone| - 1;
      var confirmed := Confirmed(connected);
      ReturningOnce(p, chain, undone[..n], connected);
      var b := undone[n];
      assert b in undone;
      var rest, last := Returning(undone[..n], confirmed), ReturningFrom(b.txs[1..], confirmed);
      assert forall i, j :: 0 <= i < j < |b.txs| ==> TxHash(b.txs[i]) != TxHash(b.txs[j]);
      ReturningFromOnce(b.txs[1..], confirmed);
      forall tx | tx in rest
        ensures tx !in last
      {
        if tx in last {
          NotBackTwice(p, chain, undone, connected, n, tx);
          assert false;
        }
      }
      forall i, j | 0 <= i < |rest| && 0 <= j < |last|
        ensures rest[i] != last[j]
      {
        assert rest[i] in rest && last[j] in last;
      }
    }
  }

  lemma NotBackTwice(p: Params, chain: seq<Block>, undone: seq<Block>, connected: seq<Block>, n: nat, tx: Transaction)
    requires ValidChain(p, chain) && n < |undone|
    requires forall x :: x in undone ==> |x.txs| > 0 && (x in chain || x in connected)
    requires forall i, j :: 0 <= i < j < |undone| && undone[i] == undone[j] ==> undone[i] in connected
    requires tx !in Confirmed(connected) && tx in undone[n].txs[1..]
    ensures tx !in Returning(undone[..n], Confirmed(connected))
  {
    hide Replay;
    if tx in Returning(undone[..n], Confirmed(connected)) {
      var x :| x in undone[..n] && tx in x.txs[1..];
      var k :| 0 <= k < n && undone[k] == x;
      var y := undone[n];
      assert tx in x.txs && tx in y.txs;
      assert x in undone && y in undone;
      assert x !in connected && y !in connected;
      OneBlockEach(p, chain, x, y, tx);
      assert false;
    }
  }

  /** The transfers that come back after a change of the active chain come back once, and none of them
      was waiting. */
  lemma ReturningFacts(p: Params, start: seq<Block>, r: SubmitResult, chain: seq<Block>,
                       m: Entries, bySender: SenderIndex, limit: nat)
    requires ValidChain(p, start) && Accumulates(p, start, r, chain)
    requires Indexed(p, m, bySender) && AllCovered(bySender, Replay(p, start).value.accounts, limit)
    ensures HasTransfersOnly(r.connected) && HasTransfersOnly(r.disconnected)
    ensures NoneTwice(Returning(r.disconnected, Confirmed(r.connected)))
    ensures forall tx :: tx in Returning(r.disconnected, Confirmed(r.connected)) ==> tx !in m
  {
    hide Replay, Indexed, WellFormed, AllCovered;
    WellFormedBodies(p, r.connected);
    WellFormedBodies(p, r.disconnected);
    NoneRepeats(p, r.disconnected);
    ReturningOnce(p, start, r.disconnected, r.connected);
    forall tx | tx in Returning(r.disconnected, Confirmed(r.connected))
      ensures tx !in m
    {
      var x :| x in r.disconnected && tx in x.txs[1..];
      assert tx in x.txs && x !in r.connected;
      OnChainIsNotWaiting(p, start, x, tx, m, bySender, limit);
    }
  }
}
