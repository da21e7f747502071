/**
 Whole chunks: what one must look like, what it adds to the active chain, and why importing it is
 the same as submitting its blocks one by one.
 */
module Importing {
  import opened Types
  import opened ActiveChain
  import opened ChainState
  import opened Receiving
  import opened Switching
  import Ledger

  /** A chunk file that passed chain.check_chunk_file. */
  datatype CheckedChunk = CheckedChunk(index: nat, blocks: seq<Block>)

  /** One full day of linked blocks at the chunk's heights, every proof of work checked. */
  ghost predicate IsChunk(p: Params, chunk: CheckedChunk) {
    && |chunk.blocks| == p.chunkSize
    && (forall i :: 0 <= i < |chunk.blocks| ==> chunk.blocks[i].header.height == chunk.index * p.chunkSize + i)
    && (forall i :: 0 < i < |chunk.blocks| ==> chunk.blocks[i].header.prevId == chunk.blocks[i - 1].Id())
    && (forall i :: 0 <= i < |chunk.blocks| ==> p.meetsTarget(chunk.blocks[i].header))
  }

  /** The first blocks of the chunk are on the chain already; the rest, `added`, extend it validly. */
  ghost predicate Continues(p: Params, chain: seq<Block>, chunk: CheckedChunk, added: seq<Block>) {
    && |added| <= |chunk.blocks|
    && added == chunk.blocks[|chunk.blocks| - |added|..]
    && (forall i :: 0 <= i < |chunk.blocks| - |added| ==> OnChain(chain, chunk.blocks[i].Id()))
    && (added != [] ==> !OnChain(chain, added[0].Id()))
    && ValidChain(p, chain + added)
  }

  /** The ids of these blocks. */
  ghost function IdsOf(blocks: seq<Block>): set<Digest> { set b | b in blocks :: b.Id() }

  /** The header table has these blocks too now, and is as it was otherwise. */
  ghost predicate Recorded(h: map<Digest, StoredBlock>, added: seq<Block>, h': map<Digest, StoredBlock>) {
    && h'.Keys == h.Keys + IdsOf(added)
    && forall id :: id in h && id !in IdsOf(added) ==> h'[id] == h[id]
  }

  lemma OneMoreRecorded(h: map<Digest, StoredBlock>, added: seq<Block>, h1: map<Digest, StoredBlock>, b: Block,
                        h2: map<Digest, StoredBlock>)
    requires Recorded(h, added, h1) && Recorded(h1, [b], h2)
    ensures Recorded(h, added + [b], h2)
  {
    assert IdsOf(added + [b]) == IdsOf(added) + {b.Id()} && IdsOf([b]) == {b.Id()};
  }

  lemma NothingRecorded(h: map<Digest, StoredBlock>)
    ensures Recorded(h, [], h)
  {
  }

  lemma InvReplay(p: Params, t: Tables, chain: seq<Block>)
    requires Inv(p, t, chain)
    ensures ValidChain(p, chain) && Replay(p, chain) == Ok(t.active) && Backed(t, chain)
  {
    hide Replay, Ledger.WellFormed, Work, SealedEnd, Sound, StoredOk;
  }

  lemma MainIsChain(p: Params, t: Tables, chain: seq<Block>, id: Digest)
    requires Inv(p, t, chain)
    ensures (id in t.headers && id.HeaderHash? && id.header.height < |t.active.main|
             && t.active.main[id.header.height] == id)
            <==> OnChain(chain, id)
  {
    hide Inv;
    InvShape(p, t, chain);
    InvReplay(p, t, chain);
  }

  /** Extending the tip by a valid block that was unknown, or known on a side branch. */
  lemma ExtendKeepsInv(p: Params, t: Tables, chain: seq<Block>, b: Block, t': Tables)
    requires Inv(p, t, chain) && !OnChain(chain, b.Id())
    requires b.header.prevId == chain[|chain| - 1].Id() && p.meetsTarget(b.header)
    requires ValidChain(p, chain + [b]) && Replay(p, chain + [b]) == Ok(t'.active)
    requires t'.sealedChunks == t.sealedChunks
    requires var known := if b.Id() in t.headers then t.headers[b.Id()] else StoredBlock(b, Work(b.Id()), Stored);
      t'.headers == t.headers[b.Id() := known.(status := Valid)]
    ensures Inv(p, t', chain + [b])
  {
    hide Replay, Ledger.WellFormed, Work, SealedEnd, Sound, StoredOk;
    var c := chain + [b];
    ChainShape(p, c);
    ChainShape(p, chain);
    assert c[|chain|] == b;
    var more := t.headers[b.Id() := StoredBlock(b, Work(b.Id()), Stored)];
    var t1 := if b.Id() in t.headers then t else t.(headers := more);
    if b.Id() !in t.headers {
      AddingKeepsConsistent(p, t, chain, b, t1);
    } else {
      StoredIsSame(p, t, chain, b);
    }
    forall i | 0 <= i < |c|
      ensures c[i].Id() in t1.headers && t1.headers[c[i].Id()].block == c[i]
    {
      if i < |chain| { assert c[i] == chain[i]; }
    }
    assert Validated(t1, c, t') by {
      forall id | id in t1.headers
        ensures t'.headers[id] == if OnChain(c, id) then t1.headers[id].(status := Valid) else t1.headers[id]
      {
        if OnChain(c, id) && id != b.Id() { assert chain[id.header.height].Id() == id; }
      }
    }
    assert SealedEnd(p, t1) <= |c|;
    SameSealedEnd(p, t, t1);
    SwitchingKeepsConsistent(p, t1, chain, c, t');
    TipWorkGrows(p, t, chain, b);
    assert t'.headers[b.Id()].chainWork == Work(b.Id()) by { ReadWork(p, t', c, b.Id()); }
  }

  lemma StoredIsSame(p: Params, t: Tables, chain: seq<Block>, b: Block)
    requires Consistent(p, t, chain) && b.Id() in t.headers && Ledger.WellFormed(b, p) && b.header.height > 0
    ensures t.headers[b.Id()].block == b
  {
    hide Replay, Ledger.CheckBlock, Work, SealedEnd, Sound;
    assert StoredOk(p, t, b.Id());
    if t.headers[b.Id()].block != p.genesis {
      Ledger.SameIdSameBlock(t.headers[b.Id()].block, b, p);
    }
  }

  /** The work recorded for a child of the tip. */
  lemma TipWork(p: Params, t: Tables, chain: seq<Block>, b: Block)
    requires Inv(p, t, chain) && ValidChain(p, chain + [b])
    ensures chain[|chain| - 1].Id() in t.headers
    ensures t.headers[chain[|chain| - 1].Id()].chainWork + BlockWork(b.header.target) == Work(b.Id())
  {
    hide Replay, Ledger.WellFormed, BlockWork, Inv, Work;
    TipIsStored(p, t, chain);
    ReadWork(p, t, chain, chain[|chain| - 1].Id()) by {
      assert Consistent(p, t, chain) by { InvIsConsistent(p, t, chain); }
    }
    var c := chain + [b];
    assert c[|chain|] == b && c[|chain| - 1] == chain[|chain| - 1];
    ChainShape(p, c);
    TipWorkGrows(p, t, chain, b);
  }

  lemma InvIsConsistent(p: Params, t: Tables, chain: seq<Block>)
    requires Inv(p, t, chain)
    ensures Consistent(p, t, chain)
  {
  }

  lemma TipWorkGrows(p: Params, t: Tables, chain: seq<Block>, b: Block)
    requires |chain| > 0 && b.header.height > 0 && b.header.prevId == chain[|chain| - 1].Id()
    ensures Work(b.Id()) == Work(chain[|chain| - 1].Id()) + BlockWork(b.header.target)
  {
    hide BlockWork;
  }

  /** After the first i blocks: a run on the chain already, then `added`. */
  ghost predicate SoFar(chain: seq<Block>, chunk: CheckedChunk, i: nat, added: seq<Block>) {
    && |added| <= i <= |chunk.blocks|
    && added == chunk.blocks[i - |added|..i]
    && (forall j :: 0 <= j < i - |added| ==> OnChain(chain, chunk.blocks[j].Id()))
    && (forall j :: 0 <= j < i ==> OnChain(chain + added, chunk.blocks[j].Id()))
    && (added != [] ==> !OnChain(chain, added[0].Id()))
  }

  /** Once a block was added, no later block of the chunk can be on the chain already. */
  lemma KnownIsPrefix(p: Params, chain: seq<Block>, chunk: CheckedChunk, i: nat, added: seq<Block>)
    requires IsChunk(p, chunk) && SoFar(chain, chunk, i, added) && i < |chunk.blocks|
    requires ValidChain(p, chain + added) && OnChain(chain + added, chunk.blocks[i].Id())
    ensures SoFar(chain, chunk, i + 1, added)
  {
    hide Replay, ValidChain, IsChunk;
    if added != [] {
      NextHeight(p, chain, chunk, i, added);
      assert false;
    }
    assert chain + added == chain;
  }

  /** With blocks added, the next block of the chunk stands right above the chain so far. */
  lemma NextHeight(p: Params, chain: seq<Block>, chunk: CheckedChunk, i: nat, added: seq<Block>)
    requires IsChunk(p, chunk) && added != [] && |added| <= i < |chunk.blocks| && added == chunk.blocks[i - |added|..i]
    requires ValidChain(p, chain + added)
    ensures chunk.blocks[i].header.height == |chain + added|
  {
    hide Replay, Ledger.WellFormed;
    var c := chain + added;
    assert c[|c| - 1] == chunk.blocks[i - 1];
    ChainShape(p, c);
  }

  lemma AddedIsSuffix(p: Params, chain: seq<Block>, chunk: CheckedChunk, i: nat, added: seq<Block>)
    requires SoFar(chain, chunk, i, added) && i < |chunk.blocks|
    requires !OnChain(chain + added, chunk.blocks[i].Id())
    requires ValidChain(p, chain + added + [chunk.blocks[i]]) && |chain| > 0
    ensures SoFar(chain, chunk, i + 1, added + [chunk.blocks[i]])
  {
    hide Replay, OnChain;
    var b := chunk.blocks[i];
    AppendedIsOnChain(p, chain + added, b);
    assert chain + added + [b] == chain + (added + [b]);
    assert added == [] ==> chain + added == chain;
  }

  /** The first block that does not fit decides: no split of this chunk continues the chain. */
  lemma NothingContinues(p: Params, chain: seq<Block>, chunk: CheckedChunk, i: nat, added: seq<Block>)
    requires SoFar(chain, chunk, i, added) && i < |chunk.blocks| && |chain| > 0
    requires !OnChain(chain + added, chunk.blocks[i].Id())
    requires !ValidChain(p, chain + added + [chunk.blocks[i]])
    ensures forall rest :: !Continues(p, chain, chunk, rest)
  {
    hide Replay, OnChain;
    assert added == [] ==> chain + added == chain;
    forall rest | Continues(p, chain, chunk, rest)
      ensures false
    {
      var k := |chunk.blocks| - |rest|;
      assert rest != [] ==> rest[0] == chunk.blocks[k];
      assert k == i - |added|;
      var n := |chain| + |added| + 1;
      assert (chain + rest)[..n] == chain + added + [chunk.blocks[i]];
      PrefixIsValid(p, chain + rest, n);
    }
  }

  lemma NothingImported(chain: seq<Block>, chunk: CheckedChunk)
    ensures SoFar(chain, chunk, 0, [])
  {
  }

  lemma AllImported(p: Params, chain: seq<Block>, chunk: CheckedChunk, added: seq<Block>)
    requires SoFar(chain, chunk, |chunk.blocks|, added) && ValidChain(p, chain + added)
    ensures Continues(p, chain, chunk, added)
    ensures forall j :: 0 <= j < |chunk.blocks| ==> OnChain(chain + added, chunk.blocks[j].Id())
  {
  }

  lemma UnlinkedIsInvalid(p: Params, chain: seq<Block>, b: Block)
    requires |chain| > 0 && b.header.prevId != chain[|chain| - 1].Id()
    ensures !ValidChain(p, chain + [b])
  {
    hide Replay, Ledger.WellFormed;
    var c := chain + [b];
    assert c[|chain|] == b && c[|chain| - 1] == chain[|chain| - 1];
    if ValidChain(p, c) {
      ChainShape(p, c);
      assert false;
    }
  }

  lemma AppendedIsOnChain(p: Params, chain: seq<Block>, b: Block)
    requires ValidChain(p, chain + [b]) && |chain| > 0
    ensures OnChain(chain + [b], b.Id())
    ensures forall id :: OnChain(chain, id) ==> OnChain(chain + [b], id)
  {
    hide Replay, Ledger.WellFormed;
    ChainShape(p, chain + [b]);
    assert (chain + [b])[|chain|] == b;
  }

  /** With its last block on the chain, the chunk's heights may count as sealed. */
  lemma ImportKeepsInv(p: Params, t: Tables, chain: seq<Block>, chunk: CheckedChunk, t': Tables)
    requires Inv(p, t, chain) && IsChunk(p, chunk) && chunk.index == t.sealedChunks
    requires forall j :: 0 <= j < |chunk.blocks| ==> OnChain(chain, chunk.blocks[j].Id())
    requires t' == t.(sealedChunks := t.sealedChunks + 1)
    ensures Inv(p, t', chain)
  {
    hide Replay, Ledger.WellFormed, Work, Sound, StoredOk;
    SealedEndStep(p, t, t');
    assert OnChain(chain, chunk.blocks[p.chunkSize - 1].Id());
    SealingKeepsInv(p, t, chain, t');
  }

  // --- the same, one block at a time -----------------------------------------------------------

  /** The tip of a good chain, its parent stored on a branch that is not final: with more work than the active
      chain it becomes the tip when submitted, otherwise it is stored. */
  lemma GoodArrives(p: Params, t: Tables, chain: seq<Block>, orphans: seq<Block>, b: Block, c: seq<Block>, now: nat,
                    t': Tables, chain': seq<Block>, r: SubmitResult)
    requires Inv(p, t, chain) && Inv(p, t', chain') && |t.active.main| > 0
    requires Step(p, t, chain, orphans, b, now, t', chain', r) && !HasOrphan(orphans, b.Id())
    requires GoodChain(p, c) && |c| > 1 && c[|c| - 1] == b && TargetsBounded(p) && Ledger.NotInFuture(b.header, now, p)
    requires b.header.prevId in t.headers && MeetsFinal(p, t, chain, b.header.prevId)
    ensures |chain| > 0
    ensures Work(b.Id()) > Work(chain[|chain| - 1].Id()) ==> r.outcome == NewTip && chain' == c
    ensures Work(b.Id()) <= Work(chain[|chain| - 1].Id()) ==> chain' == chain && StoredAside(t, b, t', r)
  {
    hide Replay, Ledger.WellFormed, SealedEnd, StoredOk, FinalizedHeight, PrunedAbove, KeepsFinal, ChangedBy,
      NoLessWork, OnlyStatuses, Work, SealedUp, Rooted, ForkHeight, TargetsBounded, Ledger.NotInFuture;
    GoodTipIsChecked(p, c);
    RootedIsNotPruned(t, chain, FinalizedHeight(p, t), b.header.prevId);
    assert !Hopeless(p, b.Id());
    if b.Id() in t.headers { ReadWork(p, t, chain, b.Id()); }
    if b.Id() in t'.headers { ReadWork(p, t', chain', b.Id()); }
    if r.outcome == NewTip { SameTipSameChain(p, c, chain'); }
  }

  /** Stored now, or before: no other header came or went, and nothing was sealed. */
  ghost predicate StoredAside(t: Tables, b: Block, t': Tables, r: SubmitResult) {
    && (r.outcome == SideBranch || r.outcome == Duplicate)
    && b.Id() in t'.headers && t.headers.Keys <= t'.headers.Keys <= t.headers.Keys + {b.Id()}
    && t'.sealedChunks == t.sealedChunks && t'.active == t.active
  }

  lemma GoodTipIsChecked(p: Params, c: seq<Block>)
    requires GoodChain(p, c) && |c| > 1
    ensures Ledger.WellFormed(c[|c| - 1], p)
  {
    hide Replay, Ledger.WellFormed;
    ChainShape(p, c);
  }

  /** A block extending the tip of the active chain validly becomes the new tip when submitted. */
  lemma ExtensionIsNewTip(p: Params, t: Tables, chain: seq<Block>, orphans: seq<Block>, b: Block, now: nat,
                          t': Tables, chain': seq<Block>, r: SubmitResult)
    requires Inv(p, t, chain) && Inv(p, t', chain') && |t.active.main| > 0
    requires Step(p, t, chain, orphans, b, now, t', chain', r) && !HasOrphan(orphans, b.Id())
    requires ValidChain(p, chain + [b]) && p.meetsTarget(b.header) && b.header.target < TWO_256
    requires TargetsBounded(p) && Ledger.NotInFuture(b.header, now, p)
    ensures r.outcome == NewTip && chain' == chain + [b]
  {
    hide Step, TargetsBounded, Ledger.NotInFuture, MeetsFinal;
    GoodExtension(p, t, chain, b);
    TipMeetsFinal(p, t, chain);
    GoodArrives(p, t, chain, orphans, b, chain + [b], now, t', chain', r);
  }

  lemma GoodExtension(p: Params, t: Tables, chain: seq<Block>, b: Block)
    requires Inv(p, t, chain)
    requires ValidChain(p, chain + [b]) && p.meetsTarget(b.header) && b.header.target < TWO_256
    ensures |chain| > 0 && GoodChain(p, chain + [b]) && (chain + [b])[|chain|] == b
    ensures b.header.prevId == chain[|chain| - 1].Id()
    ensures Work(b.Id()) > Work(chain[|chain| - 1].Id())
  {
    hide Replay, Ledger.WellFormed, SealedEnd, Sound, StoredOk, Work;
    var c := chain + [b];
    ChainShape(p, c);
    ChainShape(p, chain);
    assert c[|chain|] == b && c[|chain| - 1] == chain[|chain| - 1];
    forall i | 0 < i < |c|
      ensures p.meetsTarget(c[i].header)
    {
      if i < |chain| { assert c[i] == chain[i]; }
    }
    TipWorkGrows(p, t, chain, b);
    assert BlockWork(b.header.target) >= 1;
  }

  lemma TipMeetsFinal(p: Params, t: Tables, chain: seq<Block>)
    requires Inv(p, t, chain) && |t.active.main| > 0
    ensures chain[|chain| - 1].Id() in t.headers && MeetsFinal(p, t, chain, chain[|chain| - 1].Id())
    ensures !PrunedAbove(t, chain, FinalizedHeight(p, t), chain[|chain| - 1].Id())
  {
    hide Replay, Ledger.WellFormed, Sound, StoredOk, Work;
    ChainShape(p, chain);
    assert OnChain(chain, chain[|chain| - 1].Id());
  }
}
