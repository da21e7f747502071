/**
 The node's stored state as a value: the headers table with every branch, the tables of the
 active chain and the number of sealed chunks; and the invariant every operation keeps.
 */
module ChainState {
  import opened Types
  import opened Ledger
  import opened ActiveChain
  import MedianTime
  import Snapshot

  datatype Status = Stored | Valid | Invalid

  datatype StoredBlock = StoredBlock(block: Block, chainWork: nat, status: Status)

  datatype Tables = Tables(headers: map<Digest, StoredBlock>, active: Active, sealedChunks: nat)

  // --- what an id commits to -----------------------------------------------------------

  /** Total work of the chain of headers behind an id. */
  function Work(id: Digest): nat {
    if !id.HeaderHash? then 0
    else BlockWork(id.header.target) + if id.header.height == 0 then 0 else Work(id.header.prevId)
  }

  /** How many headers an id hashes through. */
  function Depth(id: Digest): nat {
    if !id.HeaderHash? then 0 else 1 + Depth(id.header.prevId)
  }

  predicate OnChain(chain: seq<Block>, id: Digest) {
    id.HeaderHash? && id.header.height < |chain| && chain[id.header.height].Id() == id
  }

  // --- the invariant -------------------------------------------------------------------

  /** First height above the sealed chunks. */
  function SealedEnd(p: Params, t: Tables): nat { t.sealedChunks * p.chunkSize }

  /** A stored block is one above its parent and inherits its invalidity; only sealing can have
      deleted the parent. */
  ghost predicate ParentOk(p: Params, t: Tables, id: Digest)
    requires id in t.headers && id.HeaderHash?
  {
    var prev := id.header.prevId;
    && prev.HeaderHash? && prev.header.height + 1 == id.header.height
    && (prev in t.headers && t.headers[prev].status == Invalid ==> t.headers[id].status == Invalid)
    && (prev !in t.headers ==> id.header.height <= SealedEnd(p, t))
  }

  ghost predicate StoredOk(p: Params, t: Tables, id: Digest)
    requires id in t.headers
  {
    var s := t.headers[id];
    && s.block.Id() == id
    && s.chainWork == Work(id)
    && (s.block == p.genesis ||
        (WellFormed(s.block, p) && id.header.height > 0 && p.meetsTarget(id.header) && ParentOk(p, t, id)))
  }

  /** The blocks of a chain are stored, under their ids. */
  ghost predicate Holds(t: Tables, chain: seq<Block>) {
    forall i :: 0 <= i < |chain| ==>
      chain[i].Id() in t.headers && t.headers[chain[i].Id()].block == chain[i] &&
        t.headers[chain[i].Id()].status == Valid
  }

  /** A chain that passes every rule, proof of work included. */
  ghost predicate GoodChain(p: Params, c: seq<Block>) {
    ValidChain(p, c) && forall i :: 0 < i < |c| ==> p.meetsTarget(c[i].header)
  }

  /** No block at the end of a good chain is ever marked invalid. */
  ghost predicate Sound(p: Params, t: Tables) {
    forall c: seq<Block> :: GoodChain(p, c) && c[|c| - 1].Id() in t.headers ==>
      t.headers[c[|c| - 1].Id()].status != Invalid
  }

  /** Everything but "the tip is the best": the tables are the replay of the active chain. */
  ghost predicate Consistent(p: Params, t: Tables, chain: seq<Block>) {
    && GoodChain(p, chain)
    && Replay(p, chain) == Ok(t.active)
    && Holds(t, chain)
    && (forall id :: id in t.headers ==> StoredOk(p, t, id))
    && SealedEnd(p, t) <= |chain|
    && Sound(p, t)
  }

  /** Nothing stored and not invalid has more work than this. */
  ghost predicate NothingAbove(t: Tables, work: nat) {
    forall id :: id in t.headers && t.headers[id].status != Invalid ==> t.headers[id].chainWork <= work
  }

  /** The node invariant. `chain` is the active chain. */
  ghost predicate Inv(p: Params, t: Tables, chain: seq<Block>) {
    Consistent(p, t, chain) && NothingAbove(t, Work(chain[|chain| - 1].Id()))
  }

  // --- branches --------------------------------------------------------------------------

  /** Following parents from this block reaches the active chain without a missing block. */
  ghost predicate Rooted(t: Tables, chain: seq<Block>, id: Digest) {
    && id in t.headers && id.HeaderHash?
    && (OnChain(chain, id) || (id.header.height > 0 && Rooted(t, chain, id.header.prevId)))
  }

  /** The chain from genesis to a stored block. */
  ghost function ChainTo(t: Tables, chain: seq<Block>, id: Digest): seq<Block>
    requires Rooted(t, chain, id)
  {
    if OnChain(chain, id) then chain[..id.header.height + 1]
    else ChainTo(t, chain, id.header.prevId) + [t.headers[id].block]
  }

  /** Where the branch of this block leaves the active chain. */
  ghost function ForkHeight(t: Tables, chain: seq<Block>, id: Digest): (h: nat)
    requires Rooted(t, chain, id)
    ensures h < |chain|
  {
    if OnChain(chain, id) then id.header.height else ForkHeight(t, chain, id.header.prevId)
  }

  ghost function BlocksOf(t: Tables, ids: seq<Digest>): (r: seq<Block>)
    requires forall i :: 0 <= i < |ids| ==> ids[i] in t.headers
    ensures |r| == |ids|
    ensures forall i :: 0 <= i < |ids| ==> r[i] == t.headers[ids[i]].block
  {
    seq(|ids|, i requires 0 <= i < |ids| => t.headers[ids[i]].block)
  }

  lemma {:induction false} ChainToFacts(p: Params, t: Tables, chain: seq<Block>, id: Digest)
    requires Consistent(p, t, chain) && Rooted(t, chain, id)
    ensures var c := ChainTo(t, chain, id);
      && |c| == id.header.height + 1 && c[|c| - 1].Id() == id && c[|c| - 1] == t.headers[id].block
      && ForkHeight(t, chain, id) < |c| && ForkHeight(t, chain, id) < |chain|
      && (forall i :: 0 <= i <= ForkHeight(t, chain, id) ==> c[i] == chain[i])
      && (forall i :: 0 < i < |c| ==> p.meetsTarget(c[i].header))
  {
    hide Replay, CheckBlock, SealedEnd, Sound, Work;
    ChainShape(p, chain);
    if !OnChain(chain, id) {
      var prev := id.header.prevId;
      ChainToFacts(p, t, chain, prev);
      assert StoredOk(p, t, id);
    } else {
      assert t.headers[chain[id.header.height].Id()].block == chain[id.header.height];
    }
  }

  // --- walking back through stored headers ---------------------------------------------------

  /** The blocks of a chain are stored, whatever their status. */
  ghost predicate Backed(t: Tables, c: seq<Block>) {
    forall i :: 0 <= i < |c| ==> c[i].Id() in t.headers && t.headers[c[i].Id()].block == c[i]
  }

  /** Every block behind this one is stored, down to height 0. */
  ghost predicate AncestorsStored(t: Tables, id: Digest) {
    && id in t.headers && id.HeaderHash? && t.headers[id].block.Id() == id
    && (id.header.height > 0 ==> AncestorsStored(t, id.header.prevId))
  }

  /** So many blocks from this one back are stored, or all of them down to height 0. */
  ghost predicate StoredBack(t: Tables, id: Digest, n: nat)
    decreases n
  {
    n == 0 || (id in t.headers && id.HeaderHash? && t.headers[id].block.Id() == id
               && (id.header.height > 0 ==> StoredBack(t, id.header.prevId, n - 1)))
  }

  lemma {:induction false} AncestorsReachBack(t: Tables, id: Digest, n: nat)
    requires AncestorsStored(t, id)
    ensures StoredBack(t, id, n)
    decreases n
  {
    if n > 0 && id.header.height > 0 { AncestorsReachBack(t, id.header.prevId, n - 1); }
  }

  lemma {:induction false} BackedAncestors(p: Params, t: Tables, c: seq<Block>, i: nat)
    requires ValidChain(p, c) && Backed(t, c) && i < |c|
    ensures AncestorsStored(t, c[i].Id())
  {
    hide Replay, WellFormed;
    ChainShape(p, c);
    if i > 0 {
      BackedAncestors(p, t, c, i - 1);
    }
  }

  lemma {:induction false} RootedAncestors(p: Params, t: Tables, chain: seq<Block>, id: Digest)
    requires Consistent(p, t, chain) && Rooted(t, chain, id)
    ensures AncestorsStored(t, id)
  {
    hide Replay, WellFormed, Sound, SealedEnd, Work;
    if OnChain(chain, id) {
      BackedAncestors(p, t, chain, id.header.height);
    } else {
      assert StoredOk(p, t, id);
      RootedAncestors(p, t, chain, id.header.prevId);
    }
  }

  // --- finality ------------------------------------------------------------------------------

  function Max(a: int, b: int): int { if a >= b then a else b }

  /** chain.finalized_height: blocks at or below it can't be undone. */
  function FinalizedHeight(p: Params, t: Tables): int
    requires |t.active.main| > 0
  {
    Max(Max(0, |t.active.main| - 1 - p.finalityDepth), SealedEnd(p, t) - 1)
  }

  /** The branch of this block meets the active chain at or above the finalized height. */
  ghost predicate MeetsFinal(p: Params, t: Tables, chain: seq<Block>, id: Digest)
    requires |t.active.main| > 0
  {
    Rooted(t, chain, id) && ForkHeight(t, chain, id) >= FinalizedHeight(p, t)
  }

  /** Walking back from here, above the finalized height, meets a block whose parent sealing has
      deleted before it meets the active chain. */
  ghost predicate PrunedAbove(t: Tables, chain: seq<Block>, finalized: int, id: Digest) {
    && id.HeaderHash? && !OnChain(chain, id) && id.header.height > finalized
    && (id.header.prevId !in t.headers || PrunedAbove(t, chain, finalized, id.header.prevId))
  }

  /** That can only be the first height above the sealed chunks, while no later height is final. */
  lemma {:induction false} PrunedOnlyAtTheSeal(p: Params, t: Tables, chain: seq<Block>, id: Digest)
    requires Consistent(p, t, chain) && id in t.headers
    requires PrunedAbove(t, chain, FinalizedHeight(p, t), id)
    ensures FinalizedHeight(p, t) == SealedEnd(p, t) - 1
    ensures t.sealedChunks > 0
  {
    hide Replay, WellFormed, Sound, Work;
    assert StoredOk(p, t, id);
    assert t.headers[id].block != p.genesis by { ChainShape(p, chain); }
    if id.header.prevId in t.headers {
      PrunedOnlyAtTheSeal(p, t, chain, id.header.prevId);
    }
  }

  // --- marking a branch invalid ------------------------------------------------------------

  /** `id` is `f` or a stored descendant of it. */
  ghost predicate Reaches(t: Tables, f: Digest, id: Digest) {
    id in t.headers && (id == f || (id.HeaderHash? && Reaches(t, f, id.header.prevId)))
  }

  /** The only difference: `f` and its stored descendants are now invalid. */
  ghost predicate Marked(t: Tables, f: Digest, t': Tables) {
    && t' == t.(headers := t'.headers)
    && t'.headers.Keys == t.headers.Keys
    && forall id :: id in t.headers ==>
         t'.headers[id] == if Reaches(t, f, id) then t.headers[id].(status := Invalid) else t.headers[id]
  }

  /** What the marking loop knows: `done` and `pending` are reached from `f`, each through a done
      parent, and no child of a done block is missing. */
  ghost predicate Frontier(t: Tables, f: Digest, done: set<Digest>, pending: set<Digest>) {
    && f.HeaderHash? && f in done + pending && done !! pending
    && done <= t.headers.Keys && pending <= t.headers.Keys
    && (forall x :: x in done + pending ==> x.HeaderHash? && Reaches(t, f, x))
    && (forall x :: x in done + pending ==> x == f || x.header.prevId in done)
    && (forall x :: x in t.headers && x.HeaderHash? && x.header.prevId in done ==> x in done + pending)
  }

  /** Popping a block and pushing its children: they are new, since every block has one parent. */
  lemma FrontierStep(t: Tables, f: Digest, done: set<Digest>, pending: set<Digest>, current: Digest,
                     children: set<Digest>)
    requires Frontier(t, f, done, pending) && current in pending
    requires forall x :: x in children <==> x in t.headers && x.HeaderHash? && x.header.prevId == current
    ensures Frontier(t, f, done + {current}, pending - {current} + children)
    ensures current in t.headers && current !in done
  {
    forall x | x in children
      ensures x !in done && x !in pending && x != current && Reaches(t, f, x)
    {
      if x in done + pending {
        assert x == f;
        ReachesIsDeeper(t, f, current);
        assert false;
      }
    }
  }

  lemma FrontierStarts(t: Tables, f: Digest)
    requires f in t.headers && f.HeaderHash?
    ensures Frontier(t, f, {}, {f})
  {
  }

  lemma FrontierEmptied(t: Tables, f: Digest, done: set<Digest>)
    requires Frontier(t, f, done, {})
    ensures forall id :: id in t.headers ==> (id in done <==> Reaches(t, f, id))
  {
    forall id | id in t.headers && Reaches(t, f, id)
      ensures id in done
    {
      ClosedHoldsAllReached(t, f, done, id);
    }
  }

  lemma {:induction false} ReachesIsDeeper(t: Tables, f: Digest, id: Digest)
    requires Reaches(t, f, id)
    ensures id == f || Depth(id) > Depth(f)
  {
    if id != f { ReachesIsDeeper(t, f, id.header.prevId); }
  }

  /** A set holding `f` and the children of its members holds everything that reaches `f`. */
  lemma {:induction false} ClosedHoldsAllReached(t: Tables, f: Digest, done: set<Digest>, id: Digest)
    requires f in done
    requires forall x :: x in t.headers && x.HeaderHash? && x.header.prevId in done ==> x in done
    requires Reaches(t, f, id)
    ensures id in done
  {
    if id != f { ClosedHoldsAllReached(t, f, done, id.header.prevId); }
  }

  lemma {:induction false} ReachedFromChain(p: Params, t: Tables, chain: seq<Block>, f: Digest, id: Digest)
    requires Consistent(p, t, chain) && OnChain(chain, id) && Reaches(t, f, id)
    ensures OnChain(chain, f)
  {
    hide Replay, CheckBlock, SealedEnd, Sound, Work;
    ChainShape(p, chain);
    if id != f {
      if id.header.height > 0 {
        ReachedFromChain(p, t, chain, f, id.header.prevId);
      }
    }
  }

  /** A valid chain to a descendant of `f` passes through `f`. */
  lemma {:induction false} DescendantPassesThrough(p: Params, t: Tables, f: Digest, c: seq<Block>) returns (k: nat)
    requires GoodChain(p, c) && Reaches(t, f, c[|c| - 1].Id()) && Raw(0) !in t.headers
    ensures k < |c| && c[k].Id() == f
  {
    hide Replay, CheckBlock;
    ChainShape(p, c);
    var n := |c| - 1;
    if c[n].Id() == f {
      k := n;
    } else {
      PrefixIsValid(p, c, n);
      assert c[..n][n - 1].Id() == c[n].header.prevId;
      k := DescendantPassesThrough(p, t, f, c[..n]);
    }
  }

  /** If `b` breaks a rule on top of `c`, nothing that descends from `b` can end a good chain. */
  lemma FailedBlockIsHopeless(p: Params, t: Tables, c: seq<Block>, b: Block, d: seq<Block>)
    requires ValidChain(p, c) && Connect(p, c, Replay(p, c).value, b).Err?
    requires WellFormed(b, p) && b.header.height == |c| && b.header.prevId == c[|c| - 1].Id()
    requires Raw(0) !in t.headers
    requires GoodChain(p, d)
    ensures !Reaches(t, b.Id(), d[|d| - 1].Id())
  {
    hide Replay, Connect, CheckBlock, Reaches;
    if Reaches(t, b.Id(), d[|d| - 1].Id()) {
      var k := DescendantPassesThrough(p, t, b.Id(), d);
      ChainShape(p, d);
      assert k == |c|;
      PrefixIsValid(p, d, k + 1);
      PrefixIsValid(p, d, k);
      SameIdSameBlock(d[k], b, p);
      assert d[..k][k - 1].Id() == c[|c| - 1].Id();
      SameTipSameChain(p, d[..k], c);
      assert d[..k + 1] == c + [b];
      ReplayExtends(p, c, b);
      assert false;
    }
  }

  lemma NoRawStored(p: Params, t: Tables, chain: seq<Block>)
    requires Consistent(p, t, chain)
    ensures Raw(0) !in t.headers
  {
    hide Replay, CheckBlock, SealedEnd, Work, Sound;
    assert forall id :: id in t.headers ==> id.HeaderHash?;
  }

  lemma MarkingKeepsStored(p: Params, t: Tables, f: Digest, t': Tables, id: Digest)
    requires Marked(t, f, t')
    requires id in t.headers && StoredOk(p, t, id)
    ensures StoredOk(p, t', id)
  {
    hide CheckBlock, SealedEnd, Work;
    SameSealedEnd(p, t, t');
  }

  lemma MarkingKeepsConsistent(p: Params, t: Tables, chain: seq<Block>, c: seq<Block>, b: Block, t': Tables)
    requires Consistent(p, t, chain)
    requires ValidChain(p, c) && Connect(p, c, Replay(p, c).value, b).Err?
    requires WellFormed(b, p) && b.header.height == |c| && b.header.prevId == c[|c| - 1].Id()
    requires !OnChain(chain, b.Id())
    requires Marked(t, b.Id(), t')
    ensures Consistent(p, t', chain)
  {
    hide Replay, Connect, WellFormed, SealedEnd, Work, StoredOk, Reaches;
    NoRawStored(p, t, chain);
    SameSealedEnd(p, t, t');
    forall id | id in t'.headers
      ensures StoredOk(p, t', id)
    {
      MarkingKeepsStored(p, t, b.Id(), t', id);
    }
    assert Holds(t', chain) by {
      ChainShape(p, chain);
      forall i | 0 <= i < |chain|
        ensures !Reaches(t, b.Id(), chain[i].Id())
      {
        if Reaches(t, b.Id(), chain[i].Id()) { ReachedFromChain(p, t, chain, b.Id(), chain[i].Id()); }
      }
    }
    forall d: seq<Block> | GoodChain(p, d) && d[|d| - 1].Id() in t'.headers
      ensures t'.headers[d[|d| - 1].Id()].status != Invalid
    {
      FailedBlockIsHopeless(p, t, c, b, d);
    }
  }

  lemma SameSealedEnd(p: Params, t: Tables, t': Tables)
    requires t.sealedChunks == t'.sealedChunks
    ensures SealedEnd(p, t) == SealedEnd(p, t')
  {
  }

  // --- the other ways the tables change -----------------------------------------------------

  /** Recording a block whose parent is stored and not invalid. */
  lemma AddingKeepsConsistent(p: Params, t: Tables, chain: seq<Block>, b: Block, t': Tables)
    requires Consistent(p, t, chain)
    requires b.Id() !in t.headers && b.header.prevId in t.headers
    requires t.headers[b.header.prevId].status != Invalid
    requires WellFormed(b, p) && b.header.height == b.header.prevId.header.height + 1 && p.meetsTarget(b.header)
    requires t' == t.(headers := t.headers[b.Id() := StoredBlock(b, Work(b.Id()), Stored)])
    ensures Consistent(p, t', chain)
  {
    hide Replay, WellFormed, SealedEnd, Work;
    SameSealedEnd(p, t, t');
    assert Holds(t', chain);
    forall id | id in t'.headers
      ensures StoredOk(p, t', id)
    {
      if id != b.Id() {
        assert StoredOk(p, t, id);
      }
    }
  }

  /** The only difference in the headers: the blocks of `c` are now valid. */
  ghost predicate Validated(t: Tables, c: seq<Block>, t': Tables) {
    && t'.sealedChunks == t.sealedChunks
    && t'.headers.Keys == t.headers.Keys
    && forall id :: id in t.headers ==>
         t'.headers[id] == if OnChain(c, id) then t.headers[id].(status := Valid) else t.headers[id]
  }

  ghost predicate Linked(c: seq<Block>) {
    && (forall i :: 0 <= i < |c| ==> c[i].header.height == i)
    && (forall i :: 0 < i < |c| ==> c[i].header.prevId == c[i - 1].Id())
  }

  lemma ValidatingKeepsStored(p: Params, t: Tables, c: seq<Block>, t': Tables, id: Digest)
    requires Linked(c) && Validated(t, c, t')
    requires id in t.headers && StoredOk(p, t, id)
    ensures StoredOk(p, t', id)
  {
    hide WellFormed, SealedEnd, Work;
    SameSealedEnd(p, t, t');
    if t.headers[id].block != p.genesis && OnChain(c, id) {
      assert OnChain(c, id.header.prevId);
    }
  }

  /** The active tables now replay another stored chain, whose blocks are marked valid. */
  lemma SwitchingKeepsConsistent(p: Params, t: Tables, chain: seq<Block>, c: seq<Block>, t': Tables)
    requires Consistent(p, t, chain)
    requires GoodChain(p, c) && Replay(p, c) == Ok(t'.active)
    requires SealedEnd(p, t) <= |c|
    requires forall i :: 0 <= i < |c| ==> c[i].Id() in t.headers && t.headers[c[i].Id()].block == c[i]
    requires Validated(t, c, t')
    ensures Consistent(p, t', c)
  {
    hide Replay, WellFormed, SealedEnd, Work, StoredOk;
    SameSealedEnd(p, t, t');
    ChainShape(p, c);
    forall id | id in t'.headers
      ensures StoredOk(p, t', id)
    {
      ValidatingKeepsStored(p, t, c, t', id);
    }
    assert Holds(t', c) by {
      assert forall i :: 0 <= i < |c| ==> OnChain(c, c[i].Id());
    }
  }

  /** Sealing one more chunk: side-branch blocks at sealed heights may go. */
  lemma SealingKeepsInv(p: Params, t: Tables, chain: seq<Block>, t': Tables)
    requires Inv(p, t, chain)
    requires t'.active == t.active && t'.sealedChunks == t.sealedChunks + 1 && SealedEnd(p, t') <= |chain|
    requires t'.headers.Keys <= t.headers.Keys
    requires forall id :: id in t'.headers ==> t'.headers[id] == t.headers[id]
    requires forall id :: id in t.headers && id !in t'.headers ==>
      id.HeaderHash? && id.header.height < SealedEnd(p, t') && !OnChain(chain, id)
    ensures Inv(p, t', chain)
  {
    hide Replay, WellFormed, Work;
    assert SealedEnd(p, t) <= SealedEnd(p, t') by { SealedEndStep(p, t, t'); }
    assert Holds(t', chain) by {
      ChainShape(p, chain);
      forall i | 0 <= i < |chain|
        ensures chain[i].Id() in t'.headers
      {
        assert OnChain(chain, chain[i].Id());
      }
    }
    forall id | id in t'.headers
      ensures StoredOk(p, t', id)
    {
      assert StoredOk(p, t, id);
    }
  }

  lemma SealedEndStep(p: Params, t: Tables, t': Tables)
    requires t'.sealedChunks == t.sealedChunks + 1
    ensures SealedEnd(p, t') == SealedEnd(p, t) + p.chunkSize
  {
  }

  // --- blocks that can never be part of a good chain --------------------------------------------

  ghost predicate Hopeless(p: Params, id: Digest) {
    forall c: seq<Block> :: GoodChain(p, c) ==> c[|c| - 1].Id() != id
  }

  /** `id` is `f` or hashes through it. */
  ghost predicate Descends(f: Digest, id: Digest) {
    id == f || (id.HeaderHash? && Descends(f, id.header.prevId))
  }

  /** The rules a block must meet against its parent's header, as the header itself fixes them. */
  ghost predicate HeaderFits(p: Params, h: BlockHeader)
    requires ValidParams(p)
  {
    && h.prevId.HeaderHash?
    && var parent := h.prevId.header;
       CheckHeaderAgainstParent(h, parent, MedianTime.MedianTimePast(parent, p), p.nextTarget(parent), p, true).None?
  }

  /** The last block of a good chain fits its parent, which ends a good chain too. */
  lemma GoodTip(p: Params, c: seq<Block>)
    requires GoodChain(p, c) && |c| > 1
    ensures GoodChain(p, c[..|c| - 1]) && c[..|c| - 1][|c| - 2].Id() == c[|c| - 1].header.prevId
    ensures HeaderFits(p, c[|c| - 1].header) && WellFormed(c[|c| - 1], p) && c[|c| - 1].header.height == |c| - 1
  {
    hide Replay, CheckBlock, ApplyBody, MedianTime.MedianTimePast, Snapshot.SnapshotHeight;
    var n := |c| - 1;
    PrefixIsValid(p, c, n);
    ChainShape(p, c);
    assert c == c[..n] + [c[n]];
    ReplayExtends(p, c[..n], c[n]);
  }
}
