/**
 chain.ChainManager: receiving blocks on any branch, switching to the branch with more work,
 rolling a failed switch back, sealing, and importing whole chunks.
 */
module Chain {
  import opened Types
  import opened ActiveChain
  import opened ChainState
  import opened Receiving
  import opened Adoption
  import opened StoreModel
  import opened Switching
  import opened Importing
  import Ledger
  import MedianTime
  import Overlay
  import Snapshot

  datatype Finality = Open | Final | Broken

  /** Having met these timestamps on the way back from `id`, `current` is where the walk goes on. */
  ghost predicate Walked(t: Tables, id: Digest, span: nat, times: seq<nat>, current: Option<Digest>) {
    StoredBack(t, id, span) && |times| <= span ==>
      match current
      case Some(c) => StoredBack(t, c, span - |times|)
        && times + MedianTime.RecentTimes(c, span - |times|) == MedianTime.RecentTimes(id, span)
      case None => times == MedianTime.RecentTimes(id, span)
  }

  lemma WalkStarts(t: Tables, id: Digest, span: nat)
    requires span >= 1
    ensures Walked(t, id, span, [], if id in t.headers && id.HeaderHash? then Some(id) else None)
  {
  }

  lemma WalkStep(t: Tables, id: Digest, span: nat, times: seq<nat>, c: Digest)
    requires c in t.headers && c.HeaderHash? && |times| < span && Walked(t, id, span, times, Some(c))
    ensures var h := t.headers[c].block.header;
      Walked(t, id, span, times + [h.timestamp],
             if h.height > 0 && h.prevId in t.headers && h.prevId.HeaderHash? then Some(h.prevId) else None)
      || |times| + 1 == span
    ensures var h := t.headers[c].block.header;
      StoredBack(t, id, span) && |times| + 1 == span ==> times + [h.timestamp] == MedianTime.RecentTimes(id, span)
  {
    var h := t.headers[c].block.header;
    if StoredBack(t, id, span) {
      assert h == c.header;
      var later := if h.height > 0 then MedianTime.RecentTimes(h.prevId, span - |times| - 1) else [];
      assert MedianTime.RecentTimes(c, span - |times|) == [h.timestamp] + later;
      assert times + ([h.timestamp] + later) == (times + [h.timestamp]) + later;
      assert later == [] ==> (times + [h.timestamp]) + later == times + [h.timestamp];
      assert h.height > 0 ==> StoredBack(t, h.prevId, span - |times| - 1);
    }
  }

  lemma WalkEnds(t: Tables, id: Digest, span: nat, times: seq<nat>)
    requires Walked(t, id, span, times, None) && |times| <= span
    ensures StoredBack(t, id, span) ==> times == MedianTime.RecentTimes(id, span)
  {
  }

  class ChainManager {
    const p: Params
    const store: Store
    var orphans: seq<Block>      // oldest first
    var orphanBytes: nat
    var powChecked: seq<Digest>  // headers whose proof of work was checked while syncing, oldest first
    ghost var chain: seq<Block>  // the blocks main_chain names

    static const POW_CHECKED_LIMIT: nat := 100_000

    /** A new orphan of this size pushes no other out. */
    predicate HasRoomFor(b: Block)
      reads this
    {
      orphans == [] || (|orphans| < MAX_ORPHANS && orphanBytes + BlockSize(b) <= MAX_ORPHAN_BYTES)
    }

    /** The orphan pool counts its bytes right, holds each id once and only checked blocks; and only
        headers that meet their target are exempt from the proof-of-work check. */
    ghost predicate PoolOk()
      reads this
    {
      && DistinctIds(orphans) && orphanBytes == SumBlockSizes(orphans)
      && |orphans| <= MAX_ORPHANS && (orphanBytes <= MAX_ORPHAN_BYTES || |orphans| <= 1)
      && (forall o :: o in orphans ==> Ledger.WellFormed(o, p))
      && (forall id :: id in powChecked ==> id.HeaderHash? && p.meetsTarget(id.header))
    }

    lemma HeldAreChecked()
      requires PoolOk()
      ensures forall o :: o in orphans ==> Ledger.WellFormed(o, p)
    {
      hide Ledger.WellFormed, BlockSize;
    }

    /** Between operations: no open transaction, and the node invariant. */
    ghost predicate Good()
      reads this, store
    {
      store.saved.None? && Inv(p, store.tables, chain)
    }

    /** _init_genesis on an empty store. */
    constructor (p: Params)
      requires ValidParams(p)
      ensures Good() && PoolOk() && orphans == [] && powChecked == []
      ensures this.p == p && chain == [p.genesis] && fresh(store)
      ensures store.tables.sealedChunks == 0 && store.tables.headers.Keys == {p.genesis.Id()}
    {
      hide Ledger.WellFormed, IndexTxs, AddressRows;
      var g := p.genesis;
      var t := Tables(map[g.Id() := StoredBlock(g, BlockWork(g.header.target), Valid)], AtGenesis(p), 0);
      this.p := p;
      store := new Store(t);
      chain := [g];
      orphans, orphanBytes, powChecked := [], 0, [];
      new;
      GenesisInv(p, t);
    }

    /** The node started again on a database it left: the orphans are gone, and what a crash left undone of sealing is
        finished. */
    constructor Reopen(p: Params, store: Store, ghost chain: seq<Block>)
      requires store.saved.None? && Inv(p, store.tables, chain)
      modifies store
      ensures Good() && PoolOk() && orphans == [] && powChecked == []
      ensures this.p == p && this.store == store && this.chain == chain
      ensures store.tables.active == old(store.tables).active && SealedUp(p, old(store.tables), store.tables, chain)
      ensures forall id :: id in store.tables.headers ==>
        id in old(store.tables).headers && store.tables.headers[id] == old(store.tables).headers[id]
    {
      hide Inv, SealedUp, SealedEnd, Ledger.WellFormed, BlockSize;
      this.p := p;
      this.store := store;
      this.chain := chain;
      orphans, orphanBytes, powChecked := [], 0, [];
      new;
      SealReadyChunks();
    }

    // --- reading ------------------------------------------------------------------------

    predicate IsOnMain(id: Digest)
      reads this, store
    {
      && id in store.tables.headers && id.HeaderHash?
      && id.header.height < |store.tables.active.main|
      && store.tables.active.main[id.header.height] == id
    }

    /** chain.median_time_past and chain.header_tip: timestamps met while following stored parents. */
    method WalkTimes(id: Digest) returns (times: seq<nat>)
      requires p.medianTimeSpan >= 1
      ensures |times| <= p.medianTimeSpan
      ensures id in store.tables.headers && id.HeaderHash? ==> |times| > 0
      ensures StoredBack(store.tables, id, p.medianTimeSpan) ==> times == MedianTime.RecentTimes(id, p.medianTimeSpan)
    {
      hide Walked, MedianTime.RecentTimes, StoredBack;
      var t := store.tables;
      times := [];
      var current := if id in t.headers && id.HeaderHash? then Some(id) else None;
      WalkStarts(t, id, p.medianTimeSpan);
      while current.Some? && |times| < p.medianTimeSpan
        invariant t == store.tables && |times| <= p.medianTimeSpan
        invariant current.Some? ==> current.value in t.headers && current.value.HeaderHash?
        invariant |times| == 0 ==> current == if id in t.headers && id.HeaderHash? then Some(id) else None
        invariant |times| < p.medianTimeSpan ==> Walked(t, id, p.medianTimeSpan, times, current)
        invariant StoredBack(t, id, p.medianTimeSpan) && |times| == p.medianTimeSpan ==>
          times == MedianTime.RecentTimes(id, p.medianTimeSpan)
        decreases p.medianTimeSpan - |times|
      {
        WalkStep(t, id, p.medianTimeSpan, times, current.value);
        var h := t.headers[current.value].block.header;
        times := times + [h.timestamp];
        current := if h.height > 0 && h.prevId in t.headers && h.prevId.HeaderHash? then Some(h.prevId) else None;
      }
      if |times| < p.medianTimeSpan { WalkEnds(t, id, p.medianTimeSpan, times); }
    }

    /** chain._context for a child of the tip. */
    method ContextOf(ghost c: seq<Block>) returns (r: Result<Ledger.Context>)
      requires ValidChain(p, c) && Replay(p, c) == Ok(store.tables.active) && Backed(store.tables, c)
      ensures r == ContextFor(p, c, store.tables.active)
    {
      hide Replay, Snapshot.SnapshotHeight, Ledger.WellFormed, MedianTime.Median, MedianTime.RecentTimes;
      ChainShape(p, c);
      ContextIsDefined(p, c);
      var t := store.tables;
      var tip := t.active.main[|t.active.main| - 1];
      BackedAncestors(p, t, c, |c| - 1);
      assert tip == c[|c| - 1].Id();
      var parent := t.headers[tip].block.header;
      AncestorsReachBack(t, tip, p.medianTimeSpan);
      var times := WalkTimes(tip);
      var height := parent.height + 1;
      var matured := None;
      if height >= p.coinbaseMaturity {
        var due := height - p.coinbaseMaturity;
        assert t.active.main[due] == c[due].Id();
        matured := Some(t.headers[t.active.main[due]].block.txs[0]);
      }
      var snap := Snapshot.SnapshotHeight(height, p);
      var root := NO_SNAPSHOT;
      if snap.Some? {
        root := t.active.snapshots[snap.value];
      }
      r := Ok(Ledger.Context(parent, MedianTime.Median(times), p.nextTarget(parent), matured, root));
    }

    // --- one block on or off the tip ------------------------------------------------------

    /** chain._connect, inside a transaction: the tables after ActiveChain.Connect, or nothing written. */
    method Connect(b: Block, ghost c: seq<Block>) returns (error: Option<Error>)
      requires ValidChain(p, c) && Replay(p, c) == Ok(store.tables.active) && Backed(store.tables, c)
      requires b.Id() in store.tables.headers
      modifies store`tables
      ensures match ActiveChain.Connect(p, c, old(store.tables).active, b)
              case Err(e) => error == Some(e) && store.tables == old(store.tables)
              case Ok(after) => error == None && store.tables == old(store.tables).(
                active := after,
                headers := old(store.tables).headers[b.Id() := old(store.tables).headers[b.Id()].(status := Valid)])
    {
      hide Replay, ContextFor, Ledger.ApplyBlock, Ledger.Touched, Ledger.Previous, Ledger.Write, IndexTxs, AddressRows;
      hide Snapshot.IsSnapshotPoint, Snapshot.StateRoot, Snapshot.Lists;
      ghost var a := store.tables.active;
      ghost var t := store.tables;
      var ctx := ContextOf(c);
      ChainBounds(p, c);
      ContextIsDefined(p, c);
      var changes := Overlay.ApplyBlock(b, ctx.value, store.tables.active.accounts, p, false);
      if changes.Err? {
        return Some(changes.error);
      }
      ConnectIsFresh(p, c, b);
      store.WriteAccounts(changes.value.accounts);
      store.PutUndo(b.Id(), changes.value.previous);
      store.SetMain(b.header.height, b.Id());
      store.IndexBlock(b, p);
      store.SetStatus(b.Id(), Valid);
      if Snapshot.IsSnapshotPoint(b.header.height, p) {
        var rows := store.AllAccounts();
        var root := Snapshot.ComputeStateRoot(rows, store.tables.active.accounts);
        store.PutSnapshot(b.header.height, root.value);
      }
      error := None;
    }

    /** chain._disconnect_tip, inside a transaction. */
    method DisconnectTip(ghost c: seq<Block>) returns (b: Block)
      requires |c| > 1 && ValidChain(p, c) && Replay(p, c) == Ok(store.tables.active) && Backed(store.tables, c)
      modifies store`tables
      ensures b == c[|c| - 1]
      ensures ValidChain(p, c[..|c| - 1])
      ensures Replay(p, c[..|c| - 1]) == Ok(store.tables.active) && |store.tables.active.main| == |c| - 1
      ensures store.tables == old(store.tables).(active := store.tables.active)
    {
      hide Replay, ActiveChain.Connect, Ledger.WellFormed, Ledger.Write, WithoutHeight, RowsWithoutHeight;
      ChainShape(p, c);
      ChainBounds(p, c);
      var height := store.TipHeight();
      b := store.tables.headers[store.tables.active.main[height]].block;
      assert store.tables.active.main[height] == c[height].Id();
      PrefixIsValid(p, c, |c| - 1);
      assert c[..|c| - 1] + [b] == c;
      DisconnectUndoesConnect(p, c[..|c| - 1], b);
      var previous := store.TakeUndo(b.Id());
      store.WriteAccounts(previous);
      store.UnindexBlock(b);
      store.DeleteMain(height);
      store.DeleteSnapshot(height);
    }

    // --- marking, finality, sealing --------------------------------------------------------

    /** chain._mark_invalid: the block and every stored descendant, in whatever order they are popped. */
    method MarkInvalid(f: Digest)
      requires f in store.tables.headers && f.HeaderHash?
      modifies store`tables
      ensures Marked(old(store.tables), f, store.tables)
    {
      ghost var t := store.tables;
      ghost var done: set<Digest> := {};
      var pending := {f};
      hide Reaches, Frontier, MarkedSoFar, Marked;
      MarkedStarts(t);
      FrontierStarts(t, f);
      while pending != {}
        invariant MarkedSoFar(t, store.tables, done) && Frontier(t, f, done, pending)
        decreases t.headers.Keys - done
      {
        var current :| current in pending;
        StillStored(t, store.tables, done);
        var children := store.Children(current);
        FrontierStep(t, f, done, pending, current, children);
        ghost var before := store.tables;
        store.SetStatus(current, Invalid);
        MarkedStep(t, before, done, current, store.tables);
        pending := pending - {current} + children;
        done := done + {current};
      }
      FrontierEmptied(t, f, done);
      MarkedEnds(t, f, store.tables, done);
    }

    /** chain._check_finality, from the stored parent of a new block. */
    method CheckFinality(parent: Digest) returns (r: Finality)
      requires Good() && parent in store.tables.headers
      ensures var t := store.tables;
        && |t.active.main| > 0
        && (r == Open <==> MeetsFinal(p, t, chain, parent))
        && (r == Broken <==> PrunedAbove(t, chain, FinalizedHeight(p, t), parent))
    {
      hide Replay, Ledger.WellFormed, FinalizedHeight, Sound, Work;
      ChainShape(p, chain);
      var t := store.tables;
      var finalized := FinalizedHeight(p, t);
      var current := parent;
      assert StoredOk(p, t, current);
      while !IsOnMain(current)
        invariant t == store.tables && current in t.headers && current.HeaderHash?
        invariant Rooted(t, chain, parent) <==> Rooted(t, chain, current)
        invariant Rooted(t, chain, current) ==> ForkHeight(t, chain, parent) == ForkHeight(t, chain, current)
        invariant PrunedAbove(t, chain, finalized, parent) <==> PrunedAbove(t, chain, finalized, current)
        decreases Depth(current)
      {
        assert StoredOk(p, t, current);
        assert !OnChain(chain, current);
        if current.header.height <= finalized {
          if Rooted(t, chain, current) { ForkIsNotAbove(p, t, chain, current); }
          return Final;
        }
        if current.header.prevId !in t.headers {
          return Broken;
        }
        current := current.header.prevId;
        assert StoredOk(p, t, current);
      }
      assert OnChain(chain, current);
      r := if current.header.height < finalized then Final else Open;
    }

    /** chain._seal_ready_chunks: seal every chunk whose last block is now final. */
    method SealReadyChunks()
      requires Good()
      modifies store
      ensures Good() && store.tables.active == old(store.tables).active
      ensures store.tables.sealedChunks >= old(store.tables).sealedChunks
      ensures store.tables.headers.Keys <= old(store.tables).headers.Keys
      ensures forall id :: id in store.tables.headers ==> store.tables.headers[id] == old(store.tables).headers[id]
      ensures SealedUp(p, old(store.tables), store.tables, chain)
      ensures |chain| <= p.finalityDepth ==> store.tables == old(store.tables)
    {
      hide Inv, SealedEnd;
      InvShape(p, store.tables, chain);
      while true
        invariant Good() && store.tables.active == old(store.tables).active
        invariant store.tables.sealedChunks >= old(store.tables).sealedChunks
        invariant store.tables.headers.Keys <= old(store.tables).headers.Keys
        invariant forall id :: id in store.tables.headers ==> store.tables.headers[id] == old(store.tables).headers[id]
        invariant SealedSoFar(p, old(store.tables), store.tables, chain)
        invariant |chain| <= p.finalityDepth ==> store.tables == old(store.tables)
        decreases |chain| - SealedEnd(p, store.tables)
      {
        ghost var t := store.tables;
        var first := SealedEnd(p, store.tables);
        var last := first + p.chunkSize - 1;
        if last > store.TipHeight() - p.finalityDepth {
          return;
        }
        store.SealChunk(first, last);
        SealStep(p, t, chain, first, last, store.tables);
        SealedSoFarStep(p, old(store.tables), t, store.tables, chain);
      }
    }

    // --- switching chains ------------------------------------------------------------------

    /** The first loop of chain._switch_to: the branch above the fork point, oldest block first. */
    method BranchOf(newTip: Digest) returns (branch: seq<Digest>, forkHeight: nat)
      requires Consistent(p, store.tables, chain) && Rooted(store.tables, chain, newTip) && !OnChain(chain, newTip)
      ensures IsBranch(store.tables, chain, newTip, branch, forkHeight)
      ensures ChainTo(store.tables, chain, newTip) == chain[..forkHeight + 1] + BlocksOf(store.tables, branch)
      ensures forkHeight == ForkHeight(store.tables, chain, newTip)
    {
      hide Replay, Ledger.WellFormed, Sound, Work, SealedEnd;
      var t := store.tables;
      ChainShape(p, chain);
      branch := [];
      var current := newTip;
      assert ChainTo(t, chain, newTip) == ChainTo(t, chain, newTip) + BlocksOf(t, branch);
      while !IsOnMain(current)
        invariant t == store.tables && BranchSoFar(t, chain, newTip, branch, current)
        decreases Depth(current)
      {
        assert StoredOk(p, t, current);
        BranchStep(t, chain, newTip, branch, current);
        branch := [current] + branch;
        current := current.header.prevId;
      }
      forkHeight := current.header.height;
    }

    /** Undo active blocks back to the fork point; newest first. */
    method Rewind(forkHeight: nat) returns (disconnected: seq<Block>)
      requires ValidChain(p, chain) && Replay(p, chain) == Ok(store.tables.active) && Backed(store.tables, chain)
      requires forkHeight < |chain|
      modifies store`tables
      ensures ValidChain(p, chain[..forkHeight + 1]) && Replay(p, chain[..forkHeight + 1]) == Ok(store.tables.active)
      ensures store.tables == old(store.tables).(active := store.tables.active)
      ensures |disconnected| == |chain| - 1 - forkHeight
      ensures forall i :: 0 <= i < |disconnected| ==> disconnected[i] == chain[|chain| - 1 - i]
    {
      hide Replay;
      disconnected := [];
      ghost var n := |chain|;
      assert chain[..n] == chain;
      assert |store.tables.active.main| == n by { ChainShape(p, chain); }
      while store.TipHeight() > forkHeight
        invariant forkHeight < n <= |chain| && n == |chain| - |disconnected|
        invariant ValidChain(p, chain[..n]) && Replay(p, chain[..n]) == Ok(store.tables.active)
        invariant |store.tables.active.main| == n
        invariant store.tables == old(store.tables).(active := store.tables.active)
        invariant forall i :: 0 <= i < |disconnected| ==> disconnected[i] == chain[|chain| - 1 - i]
        decreases n
      {
        assert Backed(store.tables, chain[..n]);
        var b := DisconnectTip(chain[..n]);
        assert chain[..n][..n - 1] == chain[..n - 1];
        n := n - 1;
        disconnected := disconnected + [b];
      }
    }

    /** Apply the branch's blocks one by one, up to the first that breaks a rule. */
    method ConnectBranch(branch: seq<Digest>, ghost c: seq<Block>)
      returns (failed: Option<Error>, connected: seq<Block>)
      requires ValidChain(p, c) && Replay(p, c) == Ok(store.tables.active) && Backed(store.tables, c)
      requires KeyedById(store.tables, branch)
      modifies store`tables
      ensures |connected| <= |branch| && connected == BlocksOf(old(store.tables), branch)[..|connected|]
      ensures ValidChain(p, c + connected)
      ensures failed.None? ==> |connected| == |branch| && Replay(p, c + connected) == Ok(store.tables.active)
      ensures failed.None? ==> ValidatedIds(old(store.tables), branch, store.tables)
      ensures failed.Some? ==> |connected| < |branch|
      ensures failed.Some? ==>
        FailsOn(p, c + connected, old(store.tables).headers[branch[|connected|]].block, failed.value)
    {
      hide Replay, ActiveChain.Connect;
      ghost var t := store.tables;
      ghost var all := BlocksOf(t, branch);
      connected := [];
      assert c + [] == c;
      for i := 0 to |branch|
        invariant connected == all[..i]
        invariant ValidChain(p, c + connected) && Replay(p, c + connected) == Ok(store.tables.active)
        invariant ValidatedIds(t, branch[..i], store.tables)
      {
        var b := store.tables.headers[branch[i]].block;
        assert Backed(store.tables, c + connected) by {
          StillBacked(t, c, branch, i, store.tables);
        }
        ReplayExtends(p, c + connected, b);
        failed := Connect(b, c + connected);
        if failed.Some? {
          return;
        }
        assert c + connected + [b] == c + (connected + [b]);
        connected := connected + [b];
        assert branch[..i + 1] == branch[..i] + [branch[i]];
      }
      assert branch[..|branch|] == branch;
      failed := None;
    }

    /** The transaction of chain._switch_to: off the old branch and onto the new one, or no change. */
    method TryBranch(branch: seq<Digest>, forkHeight: nat)
      returns (failed: Option<Error>, connected: seq<Block>, disconnected: seq<Block>)
      requires store.saved.None?
      requires ValidChain(p, chain) && Replay(p, chain) == Ok(store.tables.active) && Backed(store.tables, chain)
      requires forkHeight < |chain| && KeyedById(store.tables, branch)
      modifies store
      ensures store.saved.None?
      ensures |connected| <= |branch| && connected == BlocksOf(old(store.tables), branch)[..|connected|]
      ensures failed.None? ==> |connected| == |branch|
      ensures failed.None? ==> ValidChain(p, chain[..forkHeight + 1] + connected)
      ensures failed.None? ==> Replay(p, chain[..forkHeight + 1] + connected) == Ok(store.tables.active)
      ensures failed.None? ==> ValidatedIds(old(store.tables), branch, store.tables)
      ensures failed.None? ==> IsReversed(disconnected, chain[forkHeight + 1..])
      ensures failed.Some? ==> |connected| < |branch| && store.tables == old(store.tables)
      ensures failed.Some? ==>
        FailsOn(p, chain[..forkHeight + 1] + connected, old(store.tables).headers[branch[|connected|]].block,
                failed.value)
    {
      hide Replay, ActiveChain.Connect;
      store.Begin();
      disconnected := Rewind(forkHeight);
      assert Backed(store.tables, chain[..forkHeight + 1]);
      failed, connected := ConnectBranch(branch, chain[..forkHeight + 1]);
      if failed.Some? {
        store.Rollback();
      } else {
        store.Commit();
      }
    }

    /** chain._switch_to: make a stored block with more work than the tip the new tip, if its chain
        replays; otherwise roll back and mark the block that broke a rule, and what descends from it. */
    method SwitchTo(newTip: Digest) returns (r: SubmitResult)
      requires store.saved.None? && Consistent(p, store.tables, chain)
      requires Rooted(store.tables, chain, newTip) && !OnChain(chain, newTip)
      requires ForkHeight(store.tables, chain, newTip) + 1 >= SealedEnd(p, store.tables)
      requires OnlyNewTipAbove(store.tables, newTip, Work(chain[|chain| - 1].Id()))
      requires Work(newTip) >= Work(chain[|chain| - 1].Id())
      modifies this`chain, store
      ensures Good()
      ensures r.blockId == newTip && (r.outcome == NewTip || r.outcome == Rejected)
      ensures Switched(p, old(store.tables), old(chain), newTip, store.tables, chain, r)
    {
      hide Replay, ActiveChain.Connect, Ledger.WellFormed, StoredOk, Sound, Work, SealedEnd, Reaches, Validated,
           OnlyNewTipAbove, FailedSwitch, Marked, FailsOn, Rooted, ChainTo, Switched, ForkHeight, IsBranch, OnChain;
      ghost var t := store.tables;
      ghost var was := chain;
      ghost var c := ChainTo(t, chain, newTip);
      ChainToFacts(p, t, chain, newTip);
      var branch, forkHeight := BranchOf(newTip);
      BranchFacts(p, t, chain, newTip, branch, forkHeight);
      var failed, connected, disconnected := TryBranch(branch, forkHeight);
      if failed.Some? {
        store.Begin();
        MarkInvalid(branch[|connected|]);
        store.Commit();
        FailedSwitchKeepsInv(p, t, chain, newTip, branch, forkHeight, |connected|, failed.value, store.tables);
        FailureIsNotTemporary(p, was[..forkHeight + 1] + connected, t.headers[branch[|connected|]].block, failed.value);
        return SubmitResult(Rejected, newTip, failed, [], []);
      }
      assert connected == BlocksOf(t, branch);
      chain := c;
      SwitchKeepsInv(p, t, was, newTip, branch, forkHeight, store.tables);
      ghost var keys := store.tables.headers.Keys;
      assert keys == t.headers.Keys && store.tables.sealedChunks == t.sealedChunks;
      ghost var t2 := store.tables;
      SealReadyChunks();
      TipIsStored(p, store.tables, chain);
      SealedUpFrom(p, t, t2, store.tables, chain);
      r := SubmitResult(NewTip, newTip, None, connected, disconnected);
      SucceededIsSwitched(p, t, was, newTip, store.tables, r);
    }

    // --- receiving blocks -------------------------------------------------------------------

    /** chain.note_pow_checked, called with headers that passed all_meet_target. */
    method NotePowChecked(ids: seq<Digest>)
      requires PoolOk() && forall id :: id in ids ==> id.HeaderHash? && p.meetsTarget(id.header)
      modifies this`powChecked
      ensures PoolOk() && |powChecked| <= Max(|old(powChecked)|, POW_CHECKED_LIMIT)
      ensures forall id :: id in powChecked ==> id in old(powChecked) || id in ids
      ensures |old(powChecked)| + |ids| <= POW_CHECKED_LIMIT ==> forall id :: id in ids ==> id in powChecked
    {
      for i := 0 to |ids|
        invariant forall id :: id in powChecked ==> id in old(powChecked) || id in ids
        invariant forall j :: 0 <= j < i ==> ids[j] in powChecked
        invariant |powChecked| <= |old(powChecked)| + i
      {
        if ids[i] !in powChecked {
          powChecked := powChecked + [ids[i]];
        }
      }
      if |powChecked| > POW_CHECKED_LIMIT {
        powChecked := powChecked[|powChecked| - POW_CHECKED_LIMIT..];
      }
    }

    /** chain._hold_orphan: the oldest orphans make room. */
    method HoldOrphan(b: Block)
      requires PoolOk() && Ledger.WellFormed(b, p) && !HasOrphan(orphans, b.Id())
      modifies this`orphans, this`orphanBytes
      ensures PoolOk() && orphans == Hold(old(orphans), b)
      ensures |orphans| <= |old(orphans)| + 1 && orphanBytes <= old(orphanBytes) + BlockSize(b)
      ensures old(HasRoomFor(b)) ==> orphans == old(orphans) + [b]
    {
      hide Ledger.WellFormed, BlockSize, SumBlockSizes;
      while orphans != [] && (|orphans| >= MAX_ORPHANS || orphanBytes + BlockSize(b) > MAX_ORPHAN_BYTES)
        invariant PoolOk() && !HasOrphan(orphans, b.Id())
        invariant |orphans| <= |old(orphans)| && orphanBytes <= old(orphanBytes)
        invariant Hold(orphans, b) == Hold(old(orphans), b)
        invariant old(HasRoomFor(b)) ==> orphans == old(orphans)
        decreases |orphans|
      {
        ForgetOrphan(orphans[0]);
      }
      AppendSize(orphans, b);
      forall i | 0 <= i < |orphans|
        ensures orphans[i].Id() != b.Id()
      {
        assert orphans[i] in orphans;
      }
      orphans := orphans + [b];
      orphanBytes := orphanBytes + BlockSize(b);
    }

    /** chain._forget_orphan */
    method ForgetOrphan(b: Block)
      requires PoolOk() && b in orphans
      modifies this`orphans, this`orphanBytes
      ensures PoolOk() && orphans == Without(old(orphans), b.Id())
      ensures !HasOrphan(orphans, b.Id()) && |orphans| == |old(orphans)| - 1
      ensures orphanBytes == old(orphanBytes) - BlockSize(b)
      ensures HasRoomFor(b)
    {
      WithoutFacts(orphans, b);
      orphans := Without(orphans, b.Id());
      orphanBytes := orphanBytes - BlockSize(b);
    }

    method Reject(b: Block, error: Error) returns (r: SubmitResult)
      ensures r == SubmitResult(Rejected, b.Id(), Some(error), [], [])
    {
      r := SubmitResult(Rejected, b.Id(), Some(error), [], []);
    }

    /** The part of chain._submit_one for a block whose parent is unknown. */
    method SubmitUnconnected(b: Block, now: nat) returns (r: SubmitResult)
      requires Good() && PoolOk() && |store.tables.active.main| > 0
      requires b.Id() !in store.tables.headers && !HasOrphan(orphans, b.Id())
      requires b.header.prevId !in store.tables.headers
      modifies this`orphans, this`orphanBytes
      ensures Good() && PoolOk()
      ensures Step(p, store.tables, chain, old(orphans), b, now, store.tables, chain, r)
      ensures r.outcome != Raised
      ensures r.outcome != Orphan ==> orphans == old(orphans) && orphanBytes == old(orphanBytes)
      ensures r.outcome == Orphan ==> orphans == Hold(old(orphans), b)
      ensures |orphans| <= |old(orphans)| + 1 && orphanBytes <= old(orphanBytes) + BlockSize(b)
      ensures old(HasRoomFor(b)) && r.outcome == Orphan ==> orphans == old(orphans) + [b]
    {
      hide Inv, Work, SealedEnd, BlockSize, Hopeless, FinalizedHeight, Ledger.CheckBlock, Step, HasOrphan;
      UnchangedIsStep(p, store.tables, chain, orphans, b, now) by { InvShape(p, store.tables, chain); }
      NotGenesis(p, store.tables, chain, b.Id());
      if b.header.target > p.powLimit || !p.meetsTarget(b.header) {
        if TargetsBounded(p) { LowOrHardToReachIsHopeless(p, b); }
        r := Reject(b, BadPow);
        return;
      }
      if !Ledger.NotInFuture(b.header, now, p) {
        r := Reject(b, TimeTooNew);
        return;
      }
      var error := Ledger.CheckBlock(b, p);
      if error.Some? {
        NotTemporary(b, p);
        r := Reject(b, error.value);
        return;
      }
      HoldOrphan(b);
      r := SubmitResult(Outcome.Orphan, b.Id(), None, [], []);
    }

    /** The part of chain._submit_one for a block whose parent is stored and not invalid. */
    method SubmitConnected(b: Block, now: nat) returns (r: SubmitResult)
      requires Good() && PoolOk() && |store.tables.active.main| > 0
      requires b.Id() !in store.tables.headers && !HasOrphan(orphans, b.Id()) && b.header.height > 0
      requires b.header.prevId in store.tables.headers && store.tables.headers[b.header.prevId].status != Invalid
      modifies this`chain, store
      ensures Good() && PoolOk()
      ensures Step(p, old(store.tables), old(chain), orphans, b, now, store.tables, chain, r)
      ensures r.outcome != Orphan
      ensures r.outcome == Raised <==>
        (Ledger.NotInFuture(b.header, now, p)
         && PrunedAbove(old(store.tables), old(chain), FinalizedHeight(p, old(store.tables)), b.header.prevId))
    {
      hide Replay, Ledger.CheckBlock, Work, SealedEnd, Sound, StoredOk, BlockSize, PrunedAbove, Hopeless,
        FinalizedHeight, ForkHeight, Rooted, MedianTime.RecentTimes, MedianTime.Median, GoodChain, AncestorsStored,
        StoredBack, Switched, ChainTo, Step, HasOrphan;
      ghost var t := store.tables;
      UnchangedIsStep(p, t, chain, orphans, b, now) by { InvShape(p, store.tables, chain); }
      NotGenesis(p, t, chain, b.Id());
      var prev := b.header.prevId;
      var parent := store.tables.headers[prev];
      KeyIsId(p, t, chain, prev);
      if !Ledger.NotInFuture(b.header, now, p) {
        r := Reject(b, TimeTooNew);
        return;
      }
      var finality := CheckFinality(prev);
      if finality == Broken {
        return SubmitResult(Raised, b.Id(), None, [], []);
      }
      if finality == Final {
        r := Reject(b, ForkBelowFinality);
        return;
      }
      RootedAncestors(p, t, chain, prev) by { assert Rooted(t, chain, prev); }
      AncestorsReachBack(t, prev, p.medianTimeSpan);
      var times := WalkTimes(prev);
      var error := Ledger.CheckHeaderAgainstParent(b.header, parent.block.header, MedianTime.Median(times),
                                                   p.nextTarget(parent.block.header), p, b.Id() !in powChecked);
      if error.Some? {
        assert !HeaderFits(p, b.header);
        UnfitIsHopeless(p, b);
        r := Reject(b, error.value);
        return;
      }
      error := Ledger.CheckBlock(b, p);
      if error.Some? {
        NotTemporary(b, p);
        r := Reject(b, error.value);
        return;
      }
      r := StoreChecked(b, now);
    }

    /** The end of chain._submit_one: record the block, and switch if its chain has more work. */
    method StoreChecked(b: Block, ghost now: nat) returns (r: SubmitResult)
      requires Good() && |store.tables.active.main| > 0
      requires New(store.tables, b) && !HasOrphan(orphans, b.Id())
      requires store.tables.headers[b.header.prevId].status != Invalid
      requires b.header.prevId == store.tables.headers[b.header.prevId].block.Id()
      requires Ledger.WellFormed(b, p) && b.header.height == b.header.prevId.header.height + 1 &&
        p.meetsTarget(b.header)
      requires MeetsFinal(p, store.tables, chain, b.header.prevId)
      modifies this`chain, store
      ensures Good()
      ensures Step(p, old(store.tables), old(chain), orphans, b, now, store.tables, chain, r)
      ensures r.outcome == NewTip || r.outcome == SideBranch || r.outcome == Rejected
    {
      hide Replay, Ledger.WellFormed, Work, SealedEnd, Sound, StoredOk, Hopeless, FinalizedHeight, ForkHeight, Rooted,
           GoodChain, ChainTo, Switched, MeetsFinal, OnlyNewTipAbove;
      ghost var t, was := store.tables, chain;
      InvShape(p, t, chain);
      NoChange(p, t, chain);
      var chainWork := store.tables.headers[b.header.prevId].chainWork + BlockWork(b.header.target);
      ReadWork(p, t, chain, b.header.prevId);
      WorkOfChild(b);
      store.Begin();
      store.AddBlock(b, chainWork, Stored);
      store.Commit();
      ghost var t1 := store.tables;
      AddedFacts(p, t, chain, b, t1);
      var tip := store.tables.active.main[|store.tables.active.main| - 1];
      TipIsStored(p, t, chain);
      ReadWork(p, t1, chain, tip);
      if chainWork > store.tables.headers[tip].chainWork {
        SwitchKeepsFinal(p, t, chain, b, t1);
        r := SwitchTo(b.Id());
        SwitchIsStep(p, t, was, orphans, b, now, t1, store.tables, chain, r);
      } else {
        SideBranchKeepsInv(p, t1, chain, b);
        r := SubmitResult(SideBranch, b.Id(), None, [], []);
      }
    }

    /** chain._submit_one */
    method SubmitOne(b: Block, now: nat) returns (r: SubmitResult)
      requires Good() && PoolOk()
      modifies this, store
      ensures Good() && PoolOk() && powChecked == old(powChecked)
      ensures |old(store.tables).active.main| > 0
      ensures Step(p, old(store.tables), old(chain), old(orphans), b, now, store.tables, chain, r)
      ensures r.outcome == Raised <==> Raises(p, old(store.tables), old(chain), old(orphans), b, now)
      ensures r.outcome != Orphan ==> orphans == old(orphans) && orphanBytes == old(orphanBytes)
      ensures r.outcome == Orphan ==> orphans == Hold(old(orphans), b)
      ensures |orphans| <= |old(orphans)| + 1 && orphanBytes <= old(orphanBytes) + BlockSize(b)
      ensures old(HasRoomFor(b)) && r.outcome == Orphan ==> orphans == old(orphans) + [b]
    {
      hide Replay, ActiveChain.Connect, Ledger.WellFormed, Work, SealedEnd, Sound, StoredOk, BlockSize, PrunedAbove,
        HeaderFits, Hopeless, FinalizedHeight, ForkHeight, Rooted, MedianTime.MedianTimePast, GoodChain, Step;
      InvShape(p, store.tables, chain);
      var t := store.tables;
      var id := b.Id();
      UnchangedIsStep(p, t, chain, orphans, b, now);
      if id in t.headers {
        if t.headers[id].status == Invalid {
          InvalidIsHopeless(p, t, chain, id);
          r := Reject(b, KnownInvalid);
          return;
        }
        return SubmitResult(Duplicate, id, None, [], []);
      }
      if HasOrphan(orphans, id) {
        return SubmitResult(Duplicate, id, None, [], []);
      }
      NotGenesis(p, t, chain, id);
      if b.header.height == 0 {
        if TargetsBounded(p) { LowOrHardToReachIsHopeless(p, b); }
        r := Reject(b, BadGenesis);
        return;
      }
      if b.header.prevId !in t.headers {
        r := SubmitUnconnected(b, now);
        return;
      }
      var parent := t.headers[b.header.prevId];
      assert b.header.prevId == parent.block.Id() by { KeyIsId(p, t, chain, b.header.prevId); }
      if parent.status == Invalid {
        InvalidIsHopeless(p, t, chain, b.header.prevId);
        UnfitIsHopeless(p, b);
        r := Reject(b, InvalidParent);
        return;
      }
      r := SubmitConnected(b, now);
    }

    /** Forget the orphans waiting for this parent. */
    method DropChildren(parent: Digest) returns (dropped: seq<Digest>)
      requires PoolOk()
      modifies this`orphans, this`orphanBytes
      ensures PoolOk() && |orphans| + |dropped| == |old(orphans)| && orphanBytes <= old(orphanBytes)
      ensures orphans == Minus(old(orphans), SetOf(dropped))
      ensures forall d :: d in dropped <==> exists o :: o in old(orphans) && o.header.prevId == parent && o.Id() == d
    {
      hide Ledger.WellFormed, BlockSize, SumBlockSizes, Minus, Without, HasOrphan, ChildrenOf;
      dropped := [];
      var children := ChildrenOf(orphans, parent);
      MinusNothing(orphans, SetOf<Digest>([]));
      for i := 0 to |children|
        invariant PoolOk() && |orphans| + |dropped| == |old(orphans)| && orphanBytes <= old(orphanBytes)
        invariant orphans == Minus(old(orphans), SetOf(dropped))
        invariant |dropped| == i && forall j :: 0 <= j < i ==> dropped[j] == children[j].Id()
      {
        var child := children[i];
        assert child in children;
        WithoutIsMinus(orphans, child.Id());
        MinusMore(old(orphans), SetOf(dropped), {child.Id()});
        assert SetOf(dropped + [child.Id()]) == SetOf(dropped) + {child.Id()};
        ForgetOrphan(child);
        dropped := dropped + [child.Id()];
      }
      assert forall j :: 0 <= j < |children| ==> dropped[j] == children[j].Id() && children[j] in children;
    }

    /** chain._drop_orphans_of: exactly the orphans that hang below this block. */
    method DropOrphansOf(id: Digest)
      requires PoolOk()
      modifies this`orphans, this`orphanBytes
      ensures PoolOk() && |orphans| <= |old(orphans)| && orphanBytes <= old(orphanBytes)
      ensures orphans == Minus(old(orphans), Below(old(orphans), id))
    {
      hide PoolOk, Ledger.WellFormed, BlockSize, Minus, Below, HangsBelow, Dropping;
      var doomed := [id];
      ghost var gone: set<Digest> := {};
      MinusNothing(orphans, gone);
      DroppingStarts(orphans, id);
      while doomed != []
        invariant PoolOk() && |orphans| <= |old(orphans)| && orphanBytes <= old(orphanBytes)
        invariant orphans == Minus(old(orphans), gone) && Dropping(old(orphans), id, gone, doomed)
        decreases |orphans| + |doomed|
      {
        var parent := doomed[|doomed| - 1];
        var rest := doomed[..|doomed| - 1];
        assert doomed == rest + [parent];
        var dropped := DropChildren(parent);
        MinusMore(old(orphans), gone, SetOf(dropped));
        DroppingStep(old(orphans), id, gone, rest, parent, dropped);
        gone := gone + SetOf(dropped);
        doomed := rest + dropped;
      }
      DroppingEnds(old(orphans), id, gone);
    }

    /** One child of chain._adopt_orphans: out of the pool, submitted, and on failure its own orphans dropped. */
    method AdoptChild(child: Block, now: nat, ghost ids: set<Digest>, ghost g: Race, ghost waiting: set<Digest>)
      returns (r: SubmitResult)
      requires Good() && PoolOk() && child in orphans
      requires AllSafe(store.tables, chain, ids, child.header.prevId) && child.header.prevId in ids
      modifies this, store
      ensures Good() && PoolOk() && powChecked == old(powChecked)
      ensures old(Inv(p, store.tables, chain)) && Inv(p, store.tables, chain)
      ensures forall o :: o in orphans ==> o in old(orphans)
      ensures |orphans| + (if Adds(r.outcome) then 1 else 0) <= |old(orphans)| && orphanBytes <= old(orphanBytes)
      ensures |old(store.tables).active.main| > 0
      ensures Step(p, old(store.tables), old(chain), Without(old(orphans), child.Id()), child, now,
                   store.tables, chain, r)
      ensures orphans == PoolAfter(Without(old(orphans), child.Id()), child, r.outcome)
      ensures r.outcome != Orphan ==> child !in orphans
      ensures r.outcome == Orphan ==> child.header.prevId !in store.tables.headers
      ensures store.tables.headers.Keys <= old(store.tables).headers.Keys + {child.Id()}
      ensures forall o :: o in old(orphans) && o.header.prevId == child.header.prevId && o != child ==> o in orphans
      ensures ChangedBy(old(chain), r, chain)
      ensures KeepsSealed(p, old(store.tables), old(chain), store.tables, chain) && NoLessWork(old(chain), chain)
      ensures r.outcome != Raised && AllSafe(store.tables, chain, ids, child.header.prevId)
      ensures Adds(r.outcome) ==> AllSafe(store.tables, chain, ids + {child.Id()}, child.header.prevId)
      ensures old(Guarded(p, store.tables, chain, orphans, g, waiting) && OnTime(p, orphans, g.best, now)) ==>
        Guarded(p, store.tables, chain, orphans, g, if Adds(r.outcome) then waiting + {child.Id()} else waiting)
    {
      hide Inv, Step, Ledger.WellFormed, BlockSize, Safe, Beside, Guarded, OnTime, ChangedBy, KeepsSealed, NoLessWork,
        Minus, HangsBelow, Hold, SumBlockSizes, Without, PoolAfter, Below, HasOrphan, DistinctIds;
      ghost var t, was, pool := store.tables, chain, orphans;
      InvShape(p, t, chain);
      WithoutOnly(orphans, child);
      ForgetOrphan(child);
      ghost var others := orphans;
      SafeDoesNotRaise(p, t, was, others, child, now);
      r := SubmitOne(child, now);
      StepParts(p, t, was, others, child, now, store.tables, chain, r);
      StepKeepsAllSafe(p, t, was, others, child, now, store.tables, chain, r, ids);
      if Adds(r.outcome) { StoredIsSafe(p, t, was, others, child, now, store.tables, chain, r); }
      ghost var after := orphans;
      PoolAfterIs(others, child, r.outcome);
      if r.outcome == Rejected {
        DropOrphansOf(child.Id());
        forall o | o in others && o.header.prevId == child.header.prevId
          ensures o in orphans
        {
          SiblingsHangApart(others, child, o);
        }
      }
      if Guarded(p, t, was, pool, g, waiting) && OnTime(p, pool, g.best, now) {
        AdoptedKeeps(p, t, was, pool, others, child, now, store.tables, chain, after, r, g, waiting);
        if r.outcome == Rejected { DroppingKeeps(p, store.tables, chain, after, orphans, g, waiting); }
      }
    }

    method WaitingFor(parent: Digest) returns (children: seq<Block>)
      requires PoolOk()
      ensures children == ChildrenOf(orphans, parent) && DistinctIds(children)
      ensures forall o :: o in children <==> o in orphans && o.header.prevId == parent
    {
      children := ChildrenOf(orphans, parent);
    }

    /** The children of one parent, in the order they arrived. */
    method AdoptChildren(current: Digest, soFar: SubmitResult, now: nat, ghost start: seq<Block>,
                         ghost first: SubmitResult, ghost rest: seq<Digest>, ghost g: Race, ghost w: Walk,
                         ghost before: seq<Turn>)
      returns (r: SubmitResult, more: seq<Digest>, ghost turns: seq<Turn>)
      requires Good() && PoolOk() && Progress(p, w.t, w.chain, start, first, store.tables, chain, soFar)
      requires AllSafe(store.tables, chain, SetOf(rest) + {current}, current)
      requires Reached(p, now, w, before, Walk(store.tables, chain, orphans, rest, ChildrenOf(orphans, current)))
      requires soFar == Summed(first, before)
      modifies this, store
      ensures Good() && PoolOk() && powChecked == old(powChecked)
      ensures |orphans| + |more| <= |old(orphans)| && orphanBytes <= old(orphanBytes)
      ensures forall o :: o in orphans ==> o in old(orphans)
      ensures Progress(p, w.t, w.chain, start, first, store.tables, chain, r)
      ensures AllSafe(store.tables, chain, SetOf(rest) + SetOf(more), current)
      ensures forall x :: x in more ==> x.HeaderHash? && x.header.prevId == current
      ensures r == Summed(first, turns)
      ensures old(Guarded(p, store.tables, chain, orphans, g, SetOf(rest) + {current}) &&
                  OnTime(p, orphans, g.best, now)) ==>
        Guarded(p, store.tables, chain, orphans, g, SetOf(rest) + SetOf(more))
      ensures Reached(p, now, w, turns, Walk(store.tables, chain, orphans, rest + more, []))
    {
      hide *;
      ghost var below := SetOf(rest);
      ghost var guarded := Guarded(p, store.tables, chain, orphans, g, below + {current}) &&
        OnTime(p, orphans, g.best, now);
      r, more, turns := soFar, [], before;
      var children := WaitingFor(current);
      AllToAdopt(store.tables, orphans, current, children);
      NoneMore(below, rest, current);
      assert children[0..] == children;
      for i := 0 to |children|
        invariant Good() && PoolOk() && powChecked == old(powChecked)
        invariant |orphans| + |more| <= |old(orphans)| && orphanBytes <= old(orphanBytes)
        invariant forall o :: o in orphans ==> o in old(orphans)
        invariant Progress(p, w.t, w.chain, start, first, store.tables, chain, r)
        invariant AllSafe(store.tables, chain, below + SetOf(more) + {current}, current)
        invariant forall x :: x in more ==> x.HeaderHash? && x.header.prevId == current
        invariant LeftToAdopt(store.tables, orphans, current, children[i..])
        invariant Reached(p, now, w, turns, Walk(store.tables, chain, orphans, rest + more, children[i..]))
        invariant r == Summed(first, turns)
        invariant guarded ==> Guarded(p, store.tables, chain, orphans, g, below + SetOf(more) + {current})
        invariant guarded ==> OnTime(p, orphans, g.best, now)
      {
        var child := children[i];
        RestOf(children, i);
        NextToAdopt(store.tables, orphans, current, children, i);
        ghost var t1, c1, r1, pool, waiting := store.tables, chain, r, orphans, below + SetOf(more) + {current};
        ghost var here := Walk(t1, c1, pool, rest + more, children[i..]);
        var result := AdoptChild(child, now, waiting, g, waiting);
        r := r.(connected := r.connected + result.connected, disconnected := r.disconnected + result.disconnected);
        ProgressStep(p, w.t, w.chain, start, first, t1, c1, r1, result, store.tables, chain, r);
        if guarded { FewerOnTime(p, pool, orphans, g.best, now); }
        OneLessToAdopt(t1, pool, current, children, i, store.tables, orphans);
        if Adds(result.outcome) {
          OneMore(below, rest, more, child.Id(), current);
          more := more + [child.Id()];
        }
        ghost var after := Walk(store.tables, chain, orphans, rest + more, children[i + 1..]);
        ghost var turn := TakeTurn(p, now, w, turns, here, first, r1, result, after);
        turns := turns + [turn];
      }
      assert children[|children|..] == [];
      NoneToAdopt(store.tables, orphans, current);
      FewerAreSafe(store.tables, chain, below + SetOf(more) + {current}, below + SetOf(more), current);
      if guarded { AllAdopted(p, store.tables, chain, orphans, g, below + SetOf(more), current); }
    }

    /** chain._adopt_orphans: orphans whose parent just arrived, then their children, and so on. `turns` tells which
        were submitted, in what order and with what result. */
    method AdoptOrphans(parent: Digest, first: SubmitResult, now: nat, ghost start: seq<Block>, ghost g: Race)
      returns (r: SubmitResult, ghost turns: seq<Turn>)
      requires Good() && PoolOk() && Accumulates(p, start, first, chain)
      requires Safe(store.tables, chain, parent) && Beside(parent, parent)
      modifies this, store
      ensures Good() && PoolOk() && powChecked == old(powChecked)
      ensures |orphans| <= |old(orphans)| && orphanBytes <= old(orphanBytes)
      ensures forall o :: o in orphans ==> o in old(orphans)
      ensures Progress(p, old(store.tables), old(chain), start, first, store.tables, chain, r)
      ensures r == Summed(first, turns)
      ensures old(Guarded(p, store.tables, chain, orphans, g, {parent}) && OnTime(p, orphans, g.best, now)) ==>
        Guarded(p, store.tables, chain, orphans, g, {})
      ensures Reached(p, now, Walk(old(store.tables), old(chain), old(orphans), [parent], []), turns,
                      Walk(store.tables, chain, orphans, [], []))
    {
      hide Inv, PoolOk, Ledger.WellFormed, BlockSize, Guarded, SafeStack, AllSafe, KeepsSealed, NoLessWork,
        Accumulates, Ledger.NotInFuture, Reached, Summed, Step, OnTime, Progress;
      ghost var guarded := Guarded(p, store.tables, chain, orphans, g, {parent}) && OnTime(p, orphans, g.best, now);
      ghost var w := Walk(store.tables, chain, orphans, [parent], []);
      NoProgress(p, store.tables, chain, start, first);
      r, turns := first, [];
      NothingSummed(first);
      ReachedAtOnce(p, now, w);
      var waiting := [parent];
      assert SetOf(waiting) == {parent};
      SafeStart(store.tables, chain, parent);
      while waiting != []
        invariant Good() && PoolOk() && powChecked == old(powChecked)
        invariant |orphans| <= |old(orphans)| && orphanBytes <= old(orphanBytes)
        invariant forall o :: o in orphans ==> o in old(orphans)
        invariant Progress(p, w.t, w.chain, start, first, store.tables, chain, r)
        invariant SafeStack(store.tables, chain, waiting)
        invariant Reached(p, now, w, turns, Walk(store.tables, chain, orphans, waiting, []))
        invariant r == Summed(first, turns)
        invariant guarded ==> Guarded(p, store.tables, chain, orphans, g, SetOf(waiting))
        invariant guarded ==> OnTime(p, orphans, g.best, now)
        decreases |orphans| + |waiting|
      {
        var current := waiting[|waiting| - 1];
        var rest := waiting[..|waiting| - 1];
        assert waiting == rest + [current];
        assert SetOf(waiting) == SetOf(rest) + {current};
        ghost var t1, c1, pool := store.tables, chain, orphans;
        SafeTop(t1, c1, rest, current);
        NextParent(p, now, w, turns, Walk(t1, c1, pool, waiting, []), rest, current);
        var more;
        r, more, turns := AdoptChildren(current, r, now, start, first, rest, g, w, turns);
        SafePush(store.tables, chain, t1, c1, rest, current, more);
        assert SetOf(rest + more) == SetOf(rest) + SetOf(more);
        if guarded { FewerOnTime(p, pool, orphans, g.best, now); }
        waiting := rest + more;
      }
      assert SetOf<Digest>([]) == {};
    }

    /** chain.submit_block: process a block from a peer or a miner. It raises in exactly one case, decided by the
        state before the call, and then changes nothing: adopting orphans never raises. */
    method SubmitBlock(b: Block, now: nat, ghost g: Race) returns (r: SubmitResult)
      requires Good() && PoolOk()
      modifies this, store
      ensures Good() && PoolOk() && powChecked == old(powChecked)
      ensures r.blockId == b.Id()
      ensures |orphans| <= |old(orphans)| + 1 && orphanBytes <= old(orphanBytes) + BlockSize(b)
      ensures forall o :: o in orphans ==> (o == b && r.outcome == Orphan) || o in old(orphans)
      ensures KeepsSealed(p, old(store.tables), old(chain), store.tables, chain) && NoLessWork(old(chain), chain)
      ensures Accumulates(p, old(chain), r, chain)
      ensures |old(store.tables).active.main| > 0
      ensures Ran(p, old(store.tables), old(chain), old(orphans), b, now, store.tables, chain, orphans, r)
      ensures !Adds(r.outcome) || Childless(old(orphans), b.Id()) ==>
        && Step(p, old(store.tables), old(chain), old(orphans), b, now, store.tables, chain, r)
        && orphans == PoolAfter(old(orphans), b, r.outcome)
      ensures !Adds(r.outcome) ==> chain == old(chain) && r.connected == [] && r.disconnected == []
      ensures r.outcome == Raised <==> Raises(p, old(store.tables), old(chain), old(orphans), b, now)
      ensures r.outcome == Raised || r.outcome == Duplicate ==>
        && store.tables == old(store.tables) && chain == old(chain)
        && orphans == old(orphans) && orphanBytes == old(orphanBytes)
      ensures old(Guarded(p, store.tables, chain, orphans, g, {}) && OnTime(p, orphans, g.best, now) &&
                  Fair(p, store.tables, orphans, g, b, now))
              && (old(HasRoomFor(b)) || r.outcome != Orphan) ==>
        Guarded(p, store.tables, chain, orphans, With(g, b), {})
    {
      hide Inv, Ledger.WellFormed, BlockSize, Guarded, OnTime, Fair, Step, Safe, Beside, KeepsSealed, NoLessWork,
        Accumulates, ChangedBy, Raises, Ran, Reached, Minus, HangsBelow, Hold, Summed;
      ghost var t, was, pool := store.tables, chain, orphans;
      r := SubmitOne(b, now);
      ghost var t1, c1, pool1, first := store.tables, chain, orphans, r;
      StepParts(p, t, was, pool, b, now, t1, c1, r);
      FirstChange(p, t, was, r, t1, c1);
      ghost var guarded := Guarded(p, t, was, pool, g, {}) && OnTime(p, pool, g.best, now)
        && Fair(p, t, pool, g, b, now) && (old(HasRoomFor(b)) || r.outcome != Orphan);
      if guarded {
        GuardedStep(p, t, was, pool, b, now, t1, c1, pool1, r, g, {});
        assert {} + {b.Id()} == {b.Id()};
      }
      ghost var turns := [];
      if Adds(r.outcome) {
        StoredIsSafe(p, t, was, pool, b, now, t1, c1, r);
        r, turns := AdoptOrphans(b.Id(), r, now, was, With(g, b));
        ProgressParts(p, t1, c1, was, first, store.tables, chain, r);
        KeepsSealedTransitive(p, t, was, t1, c1, store.tables, chain);
        WorkTransitive(was, c1, chain);
      } else {
        if r.outcome == Rejected {
          DropOrphansOf(b.Id());
          if guarded { DroppingKeeps(p, t1, c1, pool1, orphans, With(g, b), {}); }
        }
        NothingSummed(first);
        ReachedAtOnce(p, now, Walk(t1, c1, orphans, [], []));
      }
      ThatIsRun(p, t, was, pool, b, now, Run(first, t1, c1, turns), store.tables, chain, orphans, r);
      if !Adds(r.outcome) || Childless(pool, b.Id()) {
        RanAlone(p, t, was, pool, b, now, store.tables, chain, orphans, r);
      }
    }

    // --- chunk files --------------------------------------------------------------------------

    /** One block of a chunk, inside the transaction: recorded if new, then connected. */
    method AppendFromChunk(b: Block, ghost c: seq<Block>) returns (error: Option<Error>)
      requires Inv(p, store.tables, c) && !OnChain(c, b.Id())
      requires b.header.prevId == c[|c| - 1].Id() && p.meetsTarget(b.header)
      modifies store`tables
      ensures error == None <==> ValidChain(p, c + [b])
      ensures error == None ==>
        Inv(p, store.tables, c + [b]) && store.tables.sealedChunks == old(store.tables).sealedChunks
      ensures error == None ==> Recorded(old(store.tables).headers, [b], store.tables.headers)
    {
      hide Replay, ActiveChain.Connect, Inv, Ledger.WellFormed;
      ghost var t := store.tables;
      InvReplay(p, t, c);
      InvShape(p, t, c);
      TipIsStored(p, t, c);
      var tip := store.tables.active.main[|store.tables.active.main| - 1];
      assert tip == c[|c| - 1].Id();
      if b.Id() !in store.tables.headers {
        store.AddBlock(b, store.tables.headers[tip].chainWork + BlockWork(b.header.target), Stored);
      }
      assert Backed(store.tables, c);
      error := Connect(b, c);
      ReplayExtends(p, c, b);
      if error == None {
        TipWork(p, t, c, b);
        ExtendKeepsInv(p, t, c, b, store.tables);
      }
    }

    /** chain.apply_chunk: a checked chunk that continues the active chain, all of it or nothing. The orphans are not
        looked at. */
    method ApplyChunk(chunk: CheckedChunk) returns (r: Result<seq<Block>>)
      requires Good() && IsChunk(p, chunk)
      modifies this`chain, store
      ensures Good()
      ensures match r
              case Ok(added) =>
                && chunk.index == old(store.tables).sealedChunks
                && Continues(p, old(chain), chunk, added)
                && chain == old(chain) + added
                && store.tables.sealedChunks == chunk.index + 1
                && Recorded(old(store.tables).headers, added, store.tables.headers)
              case Err(e) =>
                && chain == old(chain) && store.tables == old(store.tables)
                && (chunk.index == old(store.tables).sealedChunks ==>
                    forall rest :: !Continues(p, old(chain), chunk, rest))
    {
      hide Inv, Ledger.WellFormed, OnChain, ValidChain, Replay, SoFar, Continues, Recorded;
      if chunk.index != store.tables.sealedChunks {
        return Err(ChunkNotNext);
      }
      ghost var t, was := store.tables, chain;
      InvReplay(p, t, was);
      store.Begin();
      var added: seq<Block> := [];
      assert was + added == was;
      NothingImported(was, chunk);
      NothingRecorded(t.headers);
      InvShape(p, t, was);
      for i := 0 to |chunk.blocks|
        invariant Inv(p, store.tables, was + added) && store.saved == Some(t) && chain == was && |was| > 0
        invariant store.tables.sealedChunks == chunk.index
        invariant SoFar(was, chunk, i, added)
        invariant Recorded(t.headers, added, store.tables.headers)
      {
        var b := chunk.blocks[i];
        ghost var c := was + added;
        InvShape(p, store.tables, c);
        InvReplay(p, store.tables, c);
        MainIsChain(p, store.tables, c, b.Id());
        if IsOnMain(b.Id()) {
          KnownIsPrefix(p, was, chunk, i, added);
        } else {
          var tip := store.tables.active.main[|store.tables.active.main| - 1];
          if b.header.prevId != tip {
            UnlinkedIsInvalid(p, c, b);
            NothingContinues(p, was, chunk, i, added);
            store.Rollback();
            return Err(ChunkNotNext);
          }
          ghost var before := store.tables;
          var error := AppendFromChunk(b, c);
          if error.Some? {
            NothingContinues(p, was, chunk, i, added);
            store.Rollback();
            return Err(error.value);
          }
          AddedIsSuffix(p, was, chunk, i, added);
          OneMoreRecorded(t.headers, added, before.headers, b, store.tables.headers);
          added := added + [b];
          assert was + added == c + [b];
        }
      }
      AllImported(p, was, chunk, added) by { InvReplay(p, store.tables, was + added); }
      ghost var before := store.tables;
      store.CountSealed();
      ImportKeepsInv(p, before, was + added, chunk, store.tables);
      store.Commit();
      chain := was + added;
      r := Ok(added);
    }
  }
}
