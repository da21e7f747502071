/**
 Lemmas behind Chain.ChainManager: branches, switches and what one submission does.
 */
module Switching {
  import opened Types
  import opened ActiveChain
  import opened ChainState
  import opened Receiving
  import Ledger
  import MedianTime

  /** Turning a block away, or knowing it already, is a step that changes nothing. */
  lemma UnchangedIsStep(p: Params, t: Tables, chain: seq<Block>, orphans: seq<Block>, b: Block, now: nat)
    requires |t.active.main| > 0 && |chain| > 0
    ensures forall e :: Justified(p, t, chain, b, now, e) && Discarded(t, b, t) && !IsKnown(t, orphans, b.Id()) ==>
      Step(p, t, chain, orphans, b, now, t, chain, SubmitResult(Rejected, b.Id(), Some(e), [], []))
    ensures (New(t, b) && !HasOrphan(orphans, b.Id())
             && PrunedAbove(t, chain, FinalizedHeight(p, t), b.header.prevId)) ==>
      Step(p, t, chain, orphans, b, now, t, chain, SubmitResult(Raised, b.Id(), None, [], []))
    ensures (b.header.prevId !in t.headers && b.Id() !in t.headers && !HasOrphan(orphans, b.Id())
             && Ledger.WellFormed(b, p)) ==>
      Step(p, t, chain, orphans, b, now, t, chain, SubmitResult(Orphan, b.Id(), None, [], []))
    ensures IsKnown(t, orphans, b.Id()) ==>
      Step(p, t, chain, orphans, b, now, t, chain, SubmitResult(Duplicate, b.Id(), None, [], []))
  {
    hide FinalizedHeight, Justified, HasOrphan, Ledger.WellFormed;
    NoChange(p, t, chain);
  }

  lemma NotTemporary(b: Block, p: Params)
    ensures var e := Ledger.CheckBlock(b, p); e.Some? ==> !TemporaryError(e.value)
  {
    ChecksAreNotTemporary(b.txs, p);
  }

  lemma {:induction false} ChecksAreNotTemporary(txs: seq<Transaction>, p: Params)
    ensures var e := Ledger.CheckTransactions(txs, p); e.Some? ==> !TemporaryError(e.value)
  {
    if txs != [] {
      ChecksAreNotTemporary(txs[..|txs| - 1], p);
      var last := txs[|txs| - 1];
      if last.Transfer? { OutputChecksAreNotTemporary(last.outputs); }
    }
  }

  lemma {:induction false} OutputChecksAreNotTemporary(outputs: seq<Output>)
    ensures var e := Ledger.CheckOutputs(outputs); e.Some? ==> !TemporaryError(e.value)
  {
    if outputs != [] { OutputChecksAreNotTemporary(outputs[..|outputs| - 1]); }
  }

  lemma WorkOfChild(b: Block)
    requires b.header.height > 0
    ensures Work(b.Id()) == Work(b.header.prevId) + BlockWork(b.header.target)
  {
    hide BlockWork;
  }

  lemma SideBranchKeepsInv(p: Params, t: Tables, chain: seq<Block>, b: Block)
    requires Consistent(p, t, chain)
    requires OnlyNewTipAbove(t, b.Id(), Work(chain[|chain| - 1].Id()))
    requires b.Id() in t.headers && t.headers[b.Id()].chainWork <= Work(chain[|chain| - 1].Id())
    ensures Inv(p, t, chain)
  {
    hide Replay, Ledger.WellFormed, Work, SealedEnd, Sound, StoredOk;
  }

  /** A switch, either way, is a step from the state before the block was recorded. */
  lemma SwitchIsStep(p: Params, t: Tables, chain: seq<Block>, orphans: seq<Block>, b: Block, now: nat,
                     t1: Tables, t': Tables, chain': seq<Block>, r: SubmitResult)
    requires Inv(p, t, chain) && |t.active.main| > 0 && New(t, b) && !HasOrphan(orphans, b.Id()) && Added(t, b, t1)
    requires Consistent(p, t1, chain) && Rooted(t1, chain, b.Id())
    requires KeepsFinal(p, t, chain, ChainTo(t1, chain, b.Id()))
    requires Work(b.Id()) > Work(chain[|chain| - 1].Id())
    requires Switched(p, t1, chain, b.Id(), t', chain', r) && Inv(p, t', chain') && r.blockId == b.Id()
    ensures Step(p, t, chain, orphans, b, now, t', chain', r)
  {
    hide Inv, Work, FinalizedHeight, Rooted, ChainTo, ForkHeight, FailedSwitch, Justified, ChangedBy, Consistent,
         KeepsFinal, Step, Grown, ValidChain;
    InvShape(p, t, chain);
    NoChange(p, t, chain);
    ChainToFacts(p, t1, chain, b.Id());
    if r.outcome == NewTip {
      ForkSeparates(p, t1, chain, b.Id());
      ForkedChange(chain, ForkHeight(t1, chain, b.Id()), r, chain');
      GrownBySwitch(p, t, b, t1, t', chain');
    } else {
      FailedIsStep(p, t, chain, b, now, t1, t', r.error.value);
    }
    PartsMakeStep(p, t, chain, orphans, b, now, t', chain', r);
  }

  lemma GrownBySwitch(p: Params, t: Tables, b: Block, t1: Tables, t': Tables, chain': seq<Block>)
    requires Added(t, b, t1) && OnlySealed(t1, t') && SealedUp(p, t1, t', chain')
    ensures Grown(t, b.Id(), t') && SealedUp(p, t, t', chain')
  {
    hide Work, OnChain;
    SameSealedEnd(p, t, t1);
  }

  lemma PartsMakeStep(p: Params, t: Tables, chain: seq<Block>, orphans: seq<Block>, b: Block, now: nat,
                      t': Tables, chain': seq<Block>, r: SubmitResult)
    requires |t.active.main| > 0 && r.blockId == b.Id() && !IsKnown(t, orphans, b.Id())
    requires NoLessWork(chain, chain') && KeepsFinal(p, t, chain, chain') && ChangedBy(chain, r, chain')
    requires Grown(t, b.Id(), t') && (r.outcome != NewTip ==> r.connected == [] && r.disconnected == [])
    requires if r.outcome == NewTip then New(t, b) && b.Id() in t'.headers && |chain'| > 0 && chain'[|chain'| - 1] == b
               && SealedUp(p, t, t', chain') && Work(b.Id()) > Work(chain[|chain| - 1].Id())
             else r.outcome == Rejected && chain' == chain && Refused(p, t, chain, b, now, t', r.error)
    ensures Step(p, t, chain, orphans, b, now, t', chain', r)
  {
    hide KeepsFinal, ChangedBy, Grown, OnlyStatuses, Justified, SealedUp, Discarded, IsKnown;
  }

  lemma {:induction false} OffAboveFork(p: Params, t: Tables, chain: seq<Block>, id: Digest, j: nat)
    requires Consistent(p, t, chain) && Rooted(t, chain, id) && ForkHeight(t, chain, id) < j <= id.header.height
    ensures |ChainTo(t, chain, id)| == id.header.height + 1 && !OnChain(chain, ChainTo(t, chain, id)[j].Id())
  {
    hide Consistent;
    ChainToFacts(p, t, chain, id);
    if OnChain(chain, id) {
      assert false;
    } else {
      var prev := id.header.prevId;
      ChainToFacts(p, t, chain, prev);
      if j <= prev.header.height { OffAboveFork(p, t, chain, prev, j); }
    }
  }

  /** Above the fork, no block of the active chain is on the new one. */
  lemma ForkSeparates(p: Params, t: Tables, chain: seq<Block>, id: Digest)
    requires Consistent(p, t, chain) && Rooted(t, chain, id) && ValidChain(p, ChainTo(t, chain, id))
    ensures forall i :: ForkHeight(t, chain, id) < i < |chain| ==> chain[i] !in ChainTo(t, chain, id)
  {
    hide Replay, Ledger.WellFormed, SealedEnd, Sound, StoredOk, Rooted, Work;
    var c, fork := ChainTo(t, chain, id), ForkHeight(t, chain, id);
    ChainToFacts(p, t, chain, id);
    ChainShape(p, chain);
    ChainShape(p, c);
    forall i | fork < i < |chain|
      ensures chain[i] !in c
    {
      if i < |c| { OffAboveFork(p, t, chain, id, i); }
    }
  }

  lemma ForkedChange(chain: seq<Block>, fork: nat, r: SubmitResult, chain': seq<Block>)
    requires fork < |chain| && chain' == chain[..fork + 1] + r.connected &&
      IsReversed(r.disconnected, chain[fork + 1..])
    requires forall i :: fork < i < |chain| ==> chain[i] !in chain'
    ensures ChangedBy(chain, r, chain')
  {
    assert fork + 1 == |chain| - |r.disconnected|;
    forall x | x in r.disconnected
      ensures x !in chain'
    {
      var i :| 0 <= i < |r.disconnected| && r.disconnected[i] == x;
      assert x == chain[fork + 1..][|r.disconnected| - 1 - i];
    }
  }

  lemma FailedIsStep(p: Params, t: Tables, chain: seq<Block>, b: Block, now: nat, t1: Tables, t': Tables, e: Error)
    requires b.Id() !in t.headers && Added(t, b, t1) && Rooted(t1, chain, b.Id()) && |t.active.main| > 0
    requires FailedSwitch(p, t1, chain, b.Id(), t') && Inv(p, t', chain) && !TemporaryError(e)
    ensures OnlyStatuses(t, t') && Justified(p, t, chain, b, now, e) && Grown(t, b.Id(), t') && Discarded(t, b, t')
  {
    hide Inv, Rooted, Hopeless, FinalizedHeight;
    assert t'.headers[b.Id()].status == Invalid;
    InvalidIsHopeless(p, t', chain, b.Id());
  }

  lemma NoChange(p: Params, t: Tables, chain: seq<Block>)
    requires |t.active.main| > 0 && |chain| > 0
    ensures KeepsFinal(p, t, chain, chain)
    ensures forall r: SubmitResult :: r.connected == [] && r.disconnected == [] ==> ChangedBy(chain, r, chain)
    ensures forall id :: Grown(t, id, t)
  {
    hide FinalizedHeight;
    assert chain[..|chain|] == chain;
  }

  lemma NotGenesis(p: Params, t: Tables, chain: seq<Block>, id: Digest)
    requires Inv(p, t, chain) && id !in t.headers
    ensures id != p.genesis.Id() && ValidParams(p)
  {
    hide Replay, Ledger.WellFormed, Work, SealedEnd, Sound, StoredOk;
    ChainShape(p, chain);
  }

  lemma KeyIsId(p: Params, t: Tables, chain: seq<Block>, id: Digest)
    requires Inv(p, t, chain) && id in t.headers
    ensures t.headers[id].block.Id() == id
  {
    hide Replay, Ledger.WellFormed, Work, SealedEnd, Sound;
    assert StoredOk(p, t, id);
  }

  /** Each id is stored off the active chain and is the parent of the next. */
  ghost predicate LinkedIds(t: Tables, chain: seq<Block>, branch: seq<Digest>) {
    && (forall i :: 0 <= i < |branch| ==> branch[i] in t.headers && branch[i].HeaderHash? && !OnChain(chain, branch[i]))
    && (forall i :: 0 < i < |branch| ==> branch[i].header.prevId == branch[i - 1])
  }

  /** What the loop knows: the branch found so far hangs off `current`. */
  ghost predicate BranchSoFar(t: Tables, chain: seq<Block>, newTip: Digest, branch: seq<Digest>, current: Digest) {
    && Rooted(t, chain, newTip) && Rooted(t, chain, current)
    && LinkedIds(t, chain, branch)
    && (branch == [] ==> current == newTip)
    && (branch != [] ==> branch[|branch| - 1] == newTip && branch[0].header.prevId == current)
    && ChainTo(t, chain, newTip) == ChainTo(t, chain, current) + BlocksOf(t, branch)
    && ForkHeight(t, chain, newTip) == ForkHeight(t, chain, current)
  }

  lemma BranchStep(t: Tables, chain: seq<Block>, newTip: Digest, branch: seq<Digest>, current: Digest)
    requires BranchSoFar(t, chain, newTip, branch, current) && !OnChain(chain, current)
    ensures BranchSoFar(t, chain, newTip, [current] + branch, current.header.prevId)
  {
    var longer, prev := [current] + branch, current.header.prevId;
    LinkStep(t, chain, branch, current);
    assert BlocksOf(t, longer) == [t.headers[current].block] + BlocksOf(t, branch);
    assert ChainTo(t, chain, current) == ChainTo(t, chain, prev) + [t.headers[current].block];
  }

  lemma LinkStep(t: Tables, chain: seq<Block>, branch: seq<Digest>, current: Digest)
    requires LinkedIds(t, chain, branch) && (branch != [] ==> branch[0].header.prevId == current)
    requires current in t.headers && current.HeaderHash? && !OnChain(chain, current)
    ensures LinkedIds(t, chain, [current] + branch)
  {
    hide OnChain;
    var longer := [current] + branch;
    forall i | 0 < i < |longer|
      ensures longer[i].header.prevId == longer[i - 1]
    {
      if i > 1 { assert longer[i] == branch[i - 1] && longer[i - 1] == branch[i - 2]; }
    }
  }

  ghost predicate IsBranch(t: Tables, chain: seq<Block>, newTip: Digest, branch: seq<Digest>, forkHeight: nat) {
    && LinkedIds(t, chain, branch)
    && forkHeight < |chain|
    && |branch| > 0 && branch[|branch| - 1] == newTip && branch[0].header.prevId == chain[forkHeight].Id()
  }

  ghost predicate KeyedById(t: Tables, ids: seq<Digest>) {
    forall i :: 0 <= i < |ids| ==> ids[i] in t.headers && t.headers[ids[i]].block.Id() == ids[i]
  }

  /** The block breaks this rule on top of the chain. */
  ghost predicate FailsOn(p: Params, c: seq<Block>, b: Block, error: Error) {
    ValidChain(p, c) && ActiveChain.Connect(p, c, Replay(p, c).value, b) == Err(error)
  }

  /** The only difference in the headers: these ids are now valid. */
  ghost predicate ValidatedIds(t: Tables, ids: seq<Digest>, t': Tables) {
    && t'.sealedChunks == t.sealedChunks
    && t'.headers.Keys == t.headers.Keys
    && forall id :: id in t.headers ==>
         t'.headers[id] == if id in ids then t.headers[id].(status := Valid) else t.headers[id]
  }

  lemma StillBacked(t: Tables, c: seq<Block>, branch: seq<Digest>, n: nat, t': Tables)
    requires Backed(t, c) && n <= |branch|
    requires KeyedById(t, branch)
    requires ValidatedIds(t, branch[..n], t')
    ensures Backed(t', c + BlocksOf(t, branch)[..n])
  {
    var d := c + BlocksOf(t, branch)[..n];
    forall i | 0 <= i < |d|
      ensures d[i].Id() in t'.headers && t'.headers[d[i].Id()].block == d[i]
    {
      if i >= |c| { assert d[i] == t.headers[branch[i - |c|]].block; }
    }
  }

  lemma SucceededIsSwitched(p: Params, t: Tables, chain: seq<Block>, newTip: Digest, t': Tables, r: SubmitResult)
    requires Rooted(t, chain, newTip) && ValidChain(p, ChainTo(t, chain, newTip))
    requires r.outcome == NewTip && newTip in t'.headers
    requires ChainTo(t, chain, newTip) == chain[..ForkHeight(t, chain, newTip) + 1] + r.connected
    requires IsReversed(r.disconnected, chain[ForkHeight(t, chain, newTip) + 1..])
    requires OnlySealed(t, t') && SealedUp(p, t, t', ChainTo(t, chain, newTip))
    ensures Switched(p, t, chain, newTip, t', ChainTo(t, chain, newTip), r)
  {
    hide Replay, ChainTo, ForkHeight, SealedUp;
  }

  /** What the sealing loop has done so far. */
  ghost predicate SealedSoFar(p: Params, t: Tables, t': Tables, chain: seq<Block>) {
    && (t'.sealedChunks == t.sealedChunks || SealedEnd(p, t') <= |chain| - p.finalityDepth)
    && SealedEnd(p, t) <= SealedEnd(p, t')
    && t'.headers.Keys <= t.headers.Keys
    && (forall id :: id in t.headers && LostBetween(chain, id, SealedEnd(p, t), SealedEnd(p, t')) ==> id !in t'.headers)
    && (forall id :: id in t.headers && id !in t'.headers ==> LostBetween(chain, id, 0, SealedEnd(p, t')))
  }

  lemma SealedSoFarStep(p: Params, t0: Tables, t: Tables, t': Tables, chain: seq<Block>)
    requires SealedSoFar(p, t0, t, chain)
    requires SealedEnd(p, t') == SealedEnd(p, t) + p.chunkSize && SealedEnd(p, t') <= |chain| - p.finalityDepth
    requires forall id :: id in t'.headers <==>
      (id in t.headers && !LostBetween(chain, id, SealedEnd(p, t), SealedEnd(p, t')))
    ensures SealedSoFar(p, t0, t', chain)
  {
    hide SealedEnd, OnChain;
  }

  lemma SealedUpFrom(p: Params, t: Tables, t1: Tables, t': Tables, chain: seq<Block>)
    requires SealedUp(p, t1, t', chain) && t1.headers.Keys == t.headers.Keys && t1.sealedChunks == t.sealedChunks
    ensures SealedUp(p, t, t', chain)
  {
    hide OnChain;
    SameSealedEnd(p, t, t1);
  }

  /** No rule checked while connecting depends on the clock or on finality. */
  lemma FailureIsNotTemporary(p: Params, c: seq<Block>, b: Block, error: Error)
    requires FailsOn(p, c, b, error)
    ensures !TemporaryError(error)
  {
    hide Replay, ContextFor, Ledger.CheckBlock, Ledger.ApplyTransfers, IndexTxs, AddressRows;
    ContextIsDefined(p, c);
    NotTemporary(b, p);
    if Ledger.WellFormed(b, p) {
      var ctx := ContextFor(p, c, Replay(p, c).value).value;
      var s := Replay(p, c).value.accounts;
      assert Ledger.AllTransfers(b.txs[1..]);
      var credited := Ledger.CreditMatured(s, b.header.height, ctx.matured, p);
      if credited.Ok? { TransfersAreNotTemporary(credited.value, b.txs[1..], p); }
    }
  }

  lemma {:induction false} TransfersAreNotTemporary(s: Accounts, txs: seq<Transaction>, p: Params)
    requires Ledger.AllTransfers(txs)
    ensures var r := Ledger.ApplyTransfers(s, txs, p); r.Err? ==> !TemporaryError(r.error)
  {
    if txs != [] {
      var n := |txs| - 1;
      TransfersAreNotTemporary(s, txs[..n], p);
      var t := Ledger.ApplyTransfers(s, txs[..n], p);
      if t.Ok? && TotalSpent(txs[n]) <= Ledger.Get(t.value, Sender(p, txs[n])).balance {
        CreditsAreNotTemporary(Ledger.Debit(t.value, Sender(p, txs[n]), TotalSpent(txs[n])), txs[n].outputs);
      }
    }
  }

  lemma {:induction false} CreditsAreNotTemporary(s: Accounts, outputs: seq<Output>)
    ensures var r := Ledger.CreditOutputs(s, outputs); r.Err? ==> !TemporaryError(r.error)
  {
    if outputs != [] { CreditsAreNotTemporary(s, outputs[..|outputs| - 1]); }
  }

  lemma BranchFacts(p: Params, t: Tables, chain: seq<Block>, newTip: Digest, branch: seq<Digest>, forkHeight: nat)
    requires Consistent(p, t, chain) && Rooted(t, chain, newTip) && IsBranch(t, chain, newTip, branch, forkHeight)
    ensures Backed(t, chain) && KeyedById(t, branch)
  {
    hide Replay, Ledger.WellFormed, Sound, Work, SealedEnd;
    assert forall id :: id in t.headers ==> StoredOk(p, t, id);
  }

  lemma {:induction false} BranchReaches(t: Tables, chain: seq<Block>, branch: seq<Digest>, k: nat, n: nat)
    requires LinkedIds(t, chain, branch) && k <= n < |branch|
    ensures Reaches(t, branch[k], branch[n])
  {
    if k < n { BranchReaches(t, chain, branch, k, n - 1); }
  }

  /** Where a branch block stands: on the branch below it. */
  lemma BranchBlockFacts(p: Params, t: Tables, chain: seq<Block>, newTip: Digest, branch: seq<Digest>,
                         forkHeight: nat, k: nat)
    requires Consistent(p, t, chain) && Rooted(t, chain, newTip) && IsBranch(t, chain, newTip, branch, forkHeight)
    requires k < |branch|
    ensures var c, b := chain[..forkHeight + 1] + BlocksOf(t, branch)[..k], t.headers[branch[k]].block;
      && b.Id() == branch[k] && Ledger.WellFormed(b, p)
      && b.header.prevId == c[|c| - 1].Id()
      && (ValidChain(p, c) ==> b.header.height == |c|)
  {
    hide Replay, Ledger.CheckBlock, Sound, Work, SealedEnd;
    var c, b := chain[..forkHeight + 1] + BlocksOf(t, branch)[..k], t.headers[branch[k]].block;
    assert StoredOk(p, t, branch[k]);
    if b == p.genesis {
      ChainShape(p, chain);
      assert false;
    }
    if k > 0 {
      assert StoredOk(p, t, branch[k - 1]);
      assert c[|c| - 1] == t.headers[branch[k - 1]].block;
    }
    if ValidChain(p, c) { ChainShape(p, c); }
  }

  lemma FailedSwitchKeepsInv(p: Params, t: Tables, chain: seq<Block>, newTip: Digest, branch: seq<Digest>,
                             forkHeight: nat, k: nat, error: Error, t': Tables)
    requires Consistent(p, t, chain) && Rooted(t, chain, newTip) && IsBranch(t, chain, newTip, branch, forkHeight)
    requires ChainTo(t, chain, newTip) == chain[..forkHeight + 1] + BlocksOf(t, branch)
    requires OnlyNewTipAbove(t, newTip, Work(chain[|chain| - 1].Id()))
    requires k < |branch|
    requires FailsOn(p, chain[..forkHeight + 1] + BlocksOf(t, branch)[..k], t.headers[branch[k]].block, error)
    requires Marked(t, branch[k], t')
    ensures Inv(p, t', chain)
    ensures !TemporaryError(error) ==>
      Switched(p, t, chain, newTip, t', chain, SubmitResult(Rejected, newTip, Some(error), [], []))
  {
    hide Replay, ActiveChain.Connect, Ledger.WellFormed, Consistent, Work, Reaches, ChainTo;
    var c := chain[..forkHeight + 1] + BlocksOf(t, branch)[..k];
    var b := t.headers[branch[k]].block;
    var full := ChainTo(t, chain, newTip);
    BranchBlockFacts(p, t, chain, newTip, branch, forkHeight, k);
    if ValidChain(p, full) {
      PrefixIsValid(p, full, |c| + 1);
      assert full[..|c| + 1] == c + [b];
      ReplayExtends(p, c, b);
      assert false;
    }
    MarkingKeepsConsistent(p, t, chain, c, b, t');
    BranchReaches(t, chain, branch, k, |branch| - 1);
  }

  /** The blocks of the new chain are stored, and none of them is marked invalid. */
  lemma NewChainStored(p: Params, t: Tables, chain: seq<Block>, newTip: Digest, branch: seq<Digest>, forkHeight: nat,
                       i: nat)
    requires Consistent(p, t, chain) && Rooted(t, chain, newTip) && IsBranch(t, chain, newTip, branch, forkHeight)
    requires ChainTo(t, chain, newTip) == chain[..forkHeight + 1] + BlocksOf(t, branch)
    requires GoodChain(p, ChainTo(t, chain, newTip)) && i < |ChainTo(t, chain, newTip)|
    ensures var b := ChainTo(t, chain, newTip)[i];
      && b.Id() in t.headers && t.headers[b.Id()].block == b && t.headers[b.Id()].status != Invalid
      && (b.Id() in branch || t.headers[b.Id()].status == Valid)
  {
    hide Replay, Ledger.WellFormed, Work, SealedEnd, StoredOk, ChainTo;
    var c := ChainTo(t, chain, newTip);
    BranchFacts(p, t, chain, newTip, branch, forkHeight);
    if i > forkHeight {
      assert c[i] == t.headers[branch[i - forkHeight - 1]].block;
    } else {
      assert c[i] == chain[i];
    }
    GoodPrefix(p, c, i + 1);
  }

  lemma BranchIsValidated(p: Params, t: Tables, chain: seq<Block>, newTip: Digest, branch: seq<Digest>,
                          forkHeight: nat, t': Tables)
    requires Consistent(p, t, chain) && Rooted(t, chain, newTip) && IsBranch(t, chain, newTip, branch, forkHeight)
    requires ChainTo(t, chain, newTip) == chain[..forkHeight + 1] + BlocksOf(t, branch)
    requires GoodChain(p, ChainTo(t, chain, newTip))
    requires ValidatedIds(t, branch, t')
    ensures Validated(t, ChainTo(t, chain, newTip), t')
    ensures Backed(t, ChainTo(t, chain, newTip))
    ensures forall id :: OnChain(ChainTo(t, chain, newTip), id) ==> id in t.headers && t.headers[id].status != Invalid
  {
    hide Replay, Ledger.WellFormed, Consistent, ChainTo;
    var c := ChainTo(t, chain, newTip);
    BranchFacts(p, t, chain, newTip, branch, forkHeight);
    ChainShape(p, c);
    forall i | 0 <= i < |c|
      ensures c[i].Id() in t.headers && t.headers[c[i].Id()].block == c[i] && t.headers[c[i].Id()].status != Invalid
      ensures c[i].Id() in branch || t.headers[c[i].Id()].status == Valid
    {
      NewChainStored(p, t, chain, newTip, branch, forkHeight, i);
    }
    forall id | id in branch
      ensures OnChain(c, id)
    {
      var k :| 0 <= k < |branch| && branch[k] == id;
      assert c[forkHeight + 1 + k] == t.headers[id].block;
      assert c[forkHeight + 1 + k].header.height == forkHeight + 1 + k;
    }
  }

  lemma SwitchKeepsInv(p: Params, t: Tables, chain: seq<Block>, newTip: Digest, branch: seq<Digest>,
                       forkHeight: nat, t': Tables)
    requires Consistent(p, t, chain) && Rooted(t, chain, newTip) && IsBranch(t, chain, newTip, branch, forkHeight)
    requires ForkHeight(t, chain, newTip) == forkHeight && forkHeight + 1 >= SealedEnd(p, t)
    requires ChainTo(t, chain, newTip) == chain[..forkHeight + 1] + BlocksOf(t, branch)
    requires OnlyNewTipAbove(t, newTip, Work(chain[|chain| - 1].Id()))
    requires Work(newTip) >= Work(chain[|chain| - 1].Id())
    requires ValidChain(p, ChainTo(t, chain, newTip)) && Replay(p, ChainTo(t, chain, newTip)) == Ok(t'.active)
    requires ValidatedIds(t, branch, t')
    ensures Inv(p, t', ChainTo(t, chain, newTip))
  {
    hide Replay, Consistent, Work, ChainTo, Validated;
    var c := ChainTo(t, chain, newTip);
    ChainToFacts(p, t, chain, newTip);
    BranchIsValidated(p, t, chain, newTip, branch, forkHeight, t');
    SwitchingKeepsConsistent(p, t, chain, c, t');
    ReadWork(p, t, chain, newTip);
    assert NothingAbove(t', Work(newTip)) by {
      assert forall id :: id in t'.headers && t'.headers[id].status != Invalid ==> t.headers[id].status != Invalid by {
        hide ForkHeight;
        BranchStatuses(t, c, branch, t');
      }
    }
  }

  lemma BranchStatuses(t: Tables, c: seq<Block>, branch: seq<Digest>, t': Tables)
    requires ValidatedIds(t, branch, t') && Validated(t, c, t')
    requires forall id :: OnChain(c, id) ==> id in t.headers && t.headers[id].status != Invalid
    ensures forall id :: id in t'.headers && t'.headers[id].status != Invalid ==> t.headers[id].status != Invalid
  {
  }

  lemma ReadWork(p: Params, t: Tables, chain: seq<Block>, id: Digest)
    requires Consistent(p, t, chain) && id in t.headers
    ensures t.headers[id].chainWork == Work(id)
  {
    hide Replay, Ledger.WellFormed, Work, SealedEnd, Sound;
    assert StoredOk(p, t, id);
  }

  lemma GoodPrefix(p: Params, c: seq<Block>, n: nat)
    requires GoodChain(p, c) && 0 < n <= |c|
    ensures GoodChain(p, c[..n]) && c[..n][n - 1] == c[n - 1]
  {
    hide Replay;
    PrefixIsValid(p, c, n);
  }

  lemma TipIsStored(p: Params, t: Tables, chain: seq<Block>)
    requires Inv(p, t, chain)
    ensures |chain| > 0 && chain[|chain| - 1].Id() in t.headers
  {
    hide Replay, Ledger.WellFormed, Work, SealedEnd, Sound, StoredOk;
  }

  /** Some marked so far. */
  ghost predicate MarkedSoFar(t: Tables, now: Tables, done: set<Digest>) {
    && now == t.(headers := now.headers)
    && now.headers.Keys == t.headers.Keys
    && forall id :: id in t.headers ==>
         now.headers[id] == if id in done then t.headers[id].(status := Invalid) else t.headers[id]
  }

  /** The active chain named by the tables. */
  lemma InvShape(p: Params, t: Tables, chain: seq<Block>)
    requires Inv(p, t, chain)
    ensures |chain| > 0 && t.active.main == Ids(chain) && p.chunkSize >= 2
    ensures SealedEnd(p, t) <= |chain|
    ensures forall i :: 0 <= i < |chain| ==> chain[i].header.height == i
  {
    hide Replay, Ledger.WellFormed, Work, SealedEnd, Sound, StoredOk;
    ChainShape(p, chain);
  }

  lemma SealStep(p: Params, t: Tables, chain: seq<Block>, first: nat, last: nat, t': Tables)
    requires Inv(p, t, chain)
    requires first == SealedEnd(p, t) && last == first + p.chunkSize - 1 && last < |chain|
    requires t' == t.(headers := t'.headers, sealedChunks := t.sealedChunks + 1)
    requires forall id :: id in t'.headers <==>
      (id in t.headers && !(id.HeaderHash? && first <= id.header.height <= last && id !in t.active.main))
    requires forall id :: id in t'.headers ==> t'.headers[id] == t.headers[id]
    ensures Inv(p, t', chain)
    ensures SealedEnd(p, t') == last + 1
    ensures forall id :: id in t'.headers <==>
      (id in t.headers && !LostBetween(chain, id, SealedEnd(p, t), SealedEnd(p, t')))
  {
    hide Inv, SealedEnd;
    InvShape(p, t, chain);
    SealedEndStep(p, t, t');
    forall id: Digest | id.HeaderHash? && id.header.height < |chain|
      ensures OnChain(chain, id) <==> id in t.active.main
    {
      if id in t.active.main {
        var i :| 0 <= i < |t.active.main| && t.active.main[i] == id;
        assert chain[i].Id() == id;
      }
    }
    SealingKeepsInv(p, t, chain, t');
  }

  lemma MarkedStarts(t: Tables)
    ensures MarkedSoFar(t, t, {})
  {
  }

  lemma StillStored(t: Tables, now: Tables, done: set<Digest>)
    requires MarkedSoFar(t, now, done)
    ensures now.headers.Keys == t.headers.Keys
  {
  }

  lemma MarkedStep(t: Tables, now: Tables, done: set<Digest>, id: Digest, after: Tables)
    requires MarkedSoFar(t, now, done) && id in t.headers && id in now.headers && id !in done
    requires after == now.(headers := now.headers[id := now.headers[id].(status := Invalid)])
    ensures MarkedSoFar(t, after, done + {id})
  {
  }

  lemma MarkedEnds(t: Tables, f: Digest, now: Tables, done: set<Digest>)
    requires MarkedSoFar(t, now, done)
    requires forall id :: id in t.headers ==> (id in done <==> Reaches(t, f, id))
    ensures Marked(t, f, now)
  {
    hide Reaches;
  }

  lemma {:induction false} ForkIsNotAbove(p: Params, t: Tables, chain: seq<Block>, id: Digest)
    requires Consistent(p, t, chain) && Rooted(t, chain, id)
    ensures ForkHeight(t, chain, id) <= id.header.height
    ensures !OnChain(chain, id) ==> ForkHeight(t, chain, id) < id.header.height
  {
    hide Replay, Ledger.WellFormed, Sound, Work, SealedEnd;
    if !OnChain(chain, id) {
      assert StoredOk(p, t, id);
      ChainShape(p, chain);
      ForkIsNotAbove(p, t, chain, id.header.prevId);
    }
  }

  /** What the inserts of `_connect` rely on. */
  lemma ConnectIsFresh(p: Params, c: seq<Block>, b: Block)
    requires ValidChain(p, c) && ActiveChain.Connect(p, c, Replay(p, c).value, b).Ok?
    ensures var a := Replay(p, c).value;
      && Ledger.Normal(a.accounts) && Ledger.Normal(ActiveChain.Connect(p, c, a, b).value.accounts)
      && |a.main| == b.header.height && b.Id() !in a.main && b.Id() !in a.undo
      && b.header.height !in a.snapshots
      && (forall i :: 0 <= i < |b.txs| ==> TxHash(b.txs[i]) !in a.txIndex)
      && (forall i, j :: 0 <= i < j < |b.txs| ==> TxHash(b.txs[i]) != TxHash(b.txs[j]))
      && (forall k :: k in AddressRows(b, |b.txs|, p) ==> k !in a.addressIndex)
  {
    hide Replay, ActiveChain.Connect, AddressRows, ContextFor, IndexTxs, Ledger.CheckBlock, Ledger.ApplyBody;
    ReplayExtends(p, c, b);
    ConnectNeverCollides(p, c, b);
    ChainShape(p, c);
    ChainBounds(p, c);
    ChainBounds(p, c + [b]);
    ConnectParts(p, c, Replay(p, c).value, b);
    NoneTwiceInBlock(p, b);
  }

  lemma NoneTwiceInBlock(p: Params, b: Block)
    requires Ledger.WellFormed(b, p)
    ensures forall i, j :: 0 <= i < j < |b.txs| ==> TxHash(b.txs[i]) != TxHash(b.txs[j])
  {
    hide Ledger.CheckTransactions;
  }

  lemma GenesisInv(p: Params, t: Tables)
    requires ValidParams(p)
    requires t.headers == map[p.genesis.Id() := StoredBlock(p.genesis, BlockWork(p.genesis.header.target), Valid)]
    requires t == Tables(t.headers, AtGenesis(p), 0)
    ensures Inv(p, t, [p.genesis])
  {
    hide Ledger.WellFormed, IndexTxs, AddressRows;
  }
}
