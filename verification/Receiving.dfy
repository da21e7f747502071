/**
 What receiving one block does to the stored state: stated over values, for Chain.ChainManager.
 */
module Receiving {
  import opened Types
  import opened ActiveChain
  import opened ChainState
  import Ledger
  import MedianTime

  datatype Outcome =
    | NewTip      // the block is now the tip of the active chain
    | SideBranch  // stored; its branch has no more work than the active chain
    | Duplicate   // already known
    | Orphan      // parent unknown; held until the parent arrives
    | Rejected    // breaks a rule; not stored, or marked invalid
    | Raised      // the finality walk ran into a missing header (an AttributeError)

  datatype SubmitResult = SubmitResult(outcome: Outcome, blockId: Digest, error: Option<Error>,
                                       connected: seq<Block>, disconnected: seq<Block>)

  /** The block is now stored and may have orphans waiting for it. */
  predicate Adds(outcome: Outcome) { outcome == NewTip || outcome == SideBranch }

  // --- the orphan pool: oldest first, one per id -----------------------------------------------

  predicate HasOrphan(orphans: seq<Block>, id: Digest) {
    exists o :: o in orphans && o.Id() == id
  }

  predicate DistinctIds(orphans: seq<Block>) {
    forall i, j :: 0 <= i < j < |orphans| ==> orphans[i].Id() != orphans[j].Id()
  }

  /** Stored and not marked invalid, or held. */
  predicate IsKnown(t: Tables, orphans: seq<Block>, id: Digest) {
    if id in t.headers then t.headers[id].status != Invalid else HasOrphan(orphans, id)
  }

  function SumBlockSizes(blocks: seq<Block>): nat {
    if blocks == [] then 0 else BlockSize(blocks[0]) + SumBlockSizes(blocks[1..])
  }

  /** The pool without the orphan of this id. */
  function Without(orphans: seq<Block>, id: Digest): (r: seq<Block>)
    ensures forall o :: o in r ==> o in orphans
    ensures forall o :: o in orphans && o.Id() != id ==> o in r
    ensures |r| <= |orphans|
  {
    if orphans == [] then []
    else if orphans[0].Id() == id then orphans[1..]
    else [orphans[0]] + Without(orphans[1..], id)
  }

  lemma {:induction false} WithoutFacts(orphans: seq<Block>, b: Block)
    requires DistinctIds(orphans) && b in orphans
    ensures var r := Without(orphans, b.Id());
      && DistinctIds(r) && !HasOrphan(r, b.Id()) && |r| == |orphans| - 1
      && SumBlockSizes(r) == SumBlockSizes(orphans) - BlockSize(b)
  {
    if orphans[0].Id() == b.Id() {
      assert b == orphans[0];
      assert !HasOrphan(orphans[1..], b.Id());
    } else {
      assert b in orphans[1..];
      WithoutFacts(orphans[1..], b);
      var r := Without(orphans[1..], b.Id());
      assert ([orphans[0]] + r)[1..] == r;
      forall j | 0 <= j < |r|
        ensures r[j].Id() != orphans[0].Id()
      {
        assert r[j] in orphans[1..];
      }
    }
  }

  lemma WithoutOnly(orphans: seq<Block>, b: Block)
    requires DistinctIds(orphans) && b in orphans
    ensures forall o :: o in Without(orphans, b.Id()) <==> o in orphans && o != b
  {
    WithoutFacts(orphans, b);
    forall o | o in orphans && o != b
      ensures o.Id() != b.Id()
    {
      var i :| 0 <= i < |orphans| && orphans[i] == o;
      var j :| 0 <= j < |orphans| && orphans[j] == b;
    }
  }

  lemma {:induction false} AppendSize(blocks: seq<Block>, b: Block)
    ensures SumBlockSizes(blocks + [b]) == SumBlockSizes(blocks) + BlockSize(b)
  {
    if blocks != [] {
      AppendSize(blocks[1..], b);
      assert (blocks + [b])[1..] == blocks[1..] + [b];
    }
  }

  /** The orphans waiting for this parent. */
  function ChildrenOf(orphans: seq<Block>, parent: Digest): (r: seq<Block>)
    ensures forall o :: o in r <==> o in orphans && o.header.prevId == parent
    ensures |r| <= |orphans|
    ensures DistinctIds(orphans) ==> DistinctIds(r)
  {
    hide DistinctIds;
    if orphans == [] then NoneIsDistinct(); []
    else
      var rest := ChildrenOf(orphans[1..], parent);
      OneMoreIsDistinct(orphans, rest);
      if orphans[0].header.prevId == parent then [orphans[0]] + rest else rest
  }

  lemma NoneIsDistinct()
    ensures DistinctIds([])
  {
  }

  lemma OneMoreIsDistinct(orphans: seq<Block>, some: seq<Block>)
    requires orphans != [] && forall o :: o in some ==> o in orphans[1..]
    ensures DistinctIds(orphans) ==>
      DistinctIds(orphans[1..]) && (DistinctIds(some) ==> DistinctIds([orphans[0]] + some))
  {
    assert DistinctIds(orphans) ==> forall j :: 0 <= j < |some| ==>
      some[j] in orphans[1..] && some[j].Id() != orphans[0].Id();
  }

  const MAX_ORPHANS: nat := 256
  const MAX_ORPHAN_BYTES: nat := 16_000_000

  /** A new orphan of this size pushes no other out. */
  predicate Fits(orphans: seq<Block>, b: Block) {
    orphans == [] || (|orphans| < MAX_ORPHANS && SumBlockSizes(orphans) + BlockSize(b) <= MAX_ORPHAN_BYTES)
  }

  /** The pool with one orphan more: the oldest make room. */
  function Hold(orphans: seq<Block>, b: Block): (r: seq<Block>)
    ensures b in r && forall o :: o in r ==> o == b || o in orphans
  {
    if Fits(orphans, b) then orphans + [b] else Hold(orphans[1..], b)
  }

  /** Exactly as many of the oldest leave as must for the number and the bytes to stay within the limits. */
  lemma {:induction false} OldestMakeRoom(orphans: seq<Block>, b: Block) returns (k: nat)
    ensures k <= |orphans| && Hold(orphans, b) == orphans[k..] + [b]
    ensures k < |orphans| ==>
      |Hold(orphans, b)| <= MAX_ORPHANS && SumBlockSizes(Hold(orphans, b)) <= MAX_ORPHAN_BYTES
    ensures forall j :: 0 <= j < k ==>
      |orphans[j..]| >= MAX_ORPHANS || SumBlockSizes(orphans[j..]) + BlockSize(b) > MAX_ORPHAN_BYTES
  {
    hide BlockSize;
    if Fits(orphans, b) {
      k := 0;
      assert orphans[0..] == orphans;
      AppendSize(orphans, b);
    } else {
      var n := OldestMakeRoom(orphans[1..], b);
      k := n + 1;
      assert forall j :: 1 <= j <= |orphans| ==> orphans[j..] == orphans[1..][j - 1..];
      assert orphans[0..] == orphans;
    }
  }

  lemma ChildrenSplit(orphans: seq<Block>, parent: Digest)
    requires orphans != []
    ensures ChildrenOf(orphans, parent) ==
      (if orphans[0].header.prevId == parent then [orphans[0]] else []) + ChildrenOf(orphans[1..], parent)
    ensures forall o :: o in orphans[1..] && o.header.prevId == parent ==> o in ChildrenOf(orphans[1..], parent)
  {
    hide DistinctIds;
  }

  /** Of two waiting for the same parent, the one held longer comes first. */
  lemma {:induction false} OlderComesFirst(orphans: seq<Block>, parent: Digest, i: nat, j: nat) returns (m: nat, n: nat)
    requires i < j < |orphans| && orphans[i].header.prevId == parent == orphans[j].header.prevId
    ensures m < n < |ChildrenOf(orphans, parent)|
    ensures ChildrenOf(orphans, parent)[m] == orphans[i] && ChildrenOf(orphans, parent)[n] == orphans[j]
  {
    hide *;
    var rest := orphans[1..];
    ChildrenSplit(orphans, parent);
    if i > 0 {
      m, n := OlderComesFirst(rest, parent, i - 1, j - 1);
      if orphans[0].header.prevId == parent { m, n := m + 1, n + 1; }
    } else {
      assert rest[j - 1] in rest;
      var k :| 0 <= k < |ChildrenOf(rest, parent)| && ChildrenOf(rest, parent)[k] == orphans[j];
      m, n := 0, k + 1;
    }
  }

  /** The pool without the orphans of these ids. */
  ghost function Minus(orphans: seq<Block>, ids: set<Digest>): (r: seq<Block>)
    ensures forall o :: o in r <==> o in orphans && o.Id() !in ids
  {
    if orphans == [] then []
    else if orphans[0].Id() in ids then Minus(orphans[1..], ids)
    else [orphans[0]] + Minus(orphans[1..], ids)
  }

  lemma {:induction false} MinusNothing(orphans: seq<Block>, ids: set<Digest>)
    requires forall o :: o in orphans ==> o.Id() !in ids
    ensures Minus(orphans, ids) == orphans
  {
    if orphans != [] {
      assert forall o :: o in orphans[1..] ==> o in orphans;
      MinusNothing(orphans[1..], ids);
    }
  }

  lemma {:induction false} MinusMore(orphans: seq<Block>, ids: set<Digest>, more: set<Digest>)
    ensures Minus(Minus(orphans, ids), more) == Minus(orphans, ids + more)
  {
    if orphans != [] {
      MinusMore(orphans[1..], ids, more);
      var rest := Minus(orphans[1..], ids);
      assert ([orphans[0]] + rest)[1..] == rest;
    }
  }

  lemma {:induction false} WithoutIsMinus(orphans: seq<Block>, id: Digest)
    requires DistinctIds(orphans)
    ensures Without(orphans, id) == Minus(orphans, {id})
  {
    if orphans != [] {
      var rest := orphans[1..];
      if orphans[0].Id() == id {
        MinusNothing(rest, {id});
      } else {
        WithoutIsMinus(rest, id);
      }
    }
  }

  /** From this id down to `f`, every block between is held. */
  predicate HangsBelow(orphans: seq<Block>, f: Digest, id: Digest) {
    && id.HeaderHash?
    && var prev := id.header.prevId;
       prev == f || (HasOrphan(orphans, prev) && HangsBelow(orphans, f, prev))
  }

  /** The ids of the orphans that hang from this block, directly or through other orphans. */
  ghost function Below(orphans: seq<Block>, f: Digest): set<Digest> {
    set o | o in orphans && HangsBelow(orphans, f, o.Id()) :: o.Id()
  }

  /** What became of the pool: a new orphan is held, and a rejected block's orphans are dropped. */
  ghost function PoolAfter(orphans: seq<Block>, b: Block, outcome: Outcome): seq<Block> {
    match outcome
    case Orphan => Hold(orphans, b)
    case Rejected => Minus(orphans, Below(orphans, b.Id()))
    case _ => orphans
  }

  lemma PoolAfterIs(orphans: seq<Block>, b: Block, outcome: Outcome)
    ensures outcome == Orphan ==> PoolAfter(orphans, b, outcome) == Hold(orphans, b)
    ensures outcome == Rejected ==> PoolAfter(orphans, b, outcome) == Minus(orphans, Below(orphans, b.Id()))
    ensures outcome != Orphan && outcome != Rejected ==> PoolAfter(orphans, b, outcome) == orphans
    ensures outcome == Rejected ==> forall o :: o in PoolAfter(orphans, b, outcome) <==>
      o in orphans && !HangsBelow(orphans, b.Id(), o.Id())
  {
    hide HangsBelow, Minus, Hold;
    forall o | o in orphans && o.Id() in Below(orphans, b.Id())
      ensures HangsBelow(orphans, b.Id(), o.Id())
    {
    }
  }

  /** No orphan hangs from this block. */
  predicate Childless(orphans: seq<Block>, id: Digest) {
    forall o :: o in orphans ==> o.header.prevId != id
  }

  /** What the dropping loop knows: the dropped hang below `f`, and of the rest only children of doomed blocks hang
      from a dropped block or from `f`. */
  ghost predicate Dropping(all: seq<Block>, f: Digest, gone: set<Digest>, doomed: seq<Digest>) {
    && (forall d :: d in gone ==> HasOrphan(all, d) && HangsBelow(all, f, d))
    && (forall d :: d in doomed ==> d == f || d in gone)
    && (forall o :: o in all && (o.header.prevId == f || o.header.prevId in gone) ==>
          o.Id() in gone || o.header.prevId in doomed)
  }

  lemma DroppingStarts(all: seq<Block>, f: Digest)
    ensures Dropping(all, f, {}, [f])
  {
  }

  lemma DroppingStep(all: seq<Block>, f: Digest, gone: set<Digest>, doomed: seq<Digest>, parent: Digest,
                     dropped: seq<Digest>)
    requires Dropping(all, f, gone, doomed + [parent])
    requires forall d :: d in dropped <==> exists o :: o in Minus(all, gone) && o.header.prevId == parent && o.Id() == d
    ensures Dropping(all, f, gone + SetOf(dropped), doomed + dropped)
  {
    var more := gone + SetOf(dropped);
    assert parent == f || parent in gone by { assert parent in doomed + [parent]; }
    forall d | d in more
      ensures HasOrphan(all, d) && HangsBelow(all, f, d)
    {
      if d !in gone {
        var o :| o in Minus(all, gone) && o.header.prevId == parent && o.Id() == d;
      }
    }
    forall d | d in doomed
      ensures d == f || d in gone
    {
      assert d in doomed + [parent];
    }
    forall o | o in all && (o.header.prevId == f || o.header.prevId in more)
      ensures o.Id() in more || o.header.prevId in doomed + dropped
    {
      if o.header.prevId == f || o.header.prevId in gone {
        if o.Id() !in gone && o.header.prevId !in doomed {
          assert o.header.prevId in doomed + [parent];
          assert o in Minus(all, gone);
        }
      }
    }
  }

  lemma DroppingEnds(all: seq<Block>, f: Digest, gone: set<Digest>)
    requires Dropping(all, f, gone, [])
    ensures gone == Below(all, f)
  {
    forall o | o in all && HangsBelow(all, f, o.Id())
      ensures o.Id() in gone
    {
      AllDropped(all, f, gone, o.Id());
    }
    forall d | d in gone
      ensures d in Below(all, f)
    {
      var o :| o in all && o.Id() == d;
    }
  }

  lemma {:induction false} AllDropped(all: seq<Block>, f: Digest, gone: set<Digest>, id: Digest)
    requires Dropping(all, f, gone, []) && HasOrphan(all, id) && HangsBelow(all, f, id)
    ensures id in gone
  {
    var o :| o in all && o.Id() == id;
    if id.header.prevId != f { AllDropped(all, f, gone, id.header.prevId); }
  }

  // --- switching ---------------------------------------------------------------------------------

  /** What chain._switch_to does, whichever way it goes. */
  ghost predicate Switched(p: Params, t: Tables, chain: seq<Block>, newTip: Digest,
                           t': Tables, chain': seq<Block>, r: SubmitResult)
    requires Rooted(t, chain, newTip)
  {
    var c, fork := ChainTo(t, chain, newTip), ForkHeight(t, chain, newTip);
    if ValidChain(p, c) then
      && r.outcome == NewTip && chain' == c
      && c == chain[..fork + 1] + r.connected && IsReversed(r.disconnected, chain[fork + 1..])
      && OnlySealed(t, t') && SealedUp(p, t, t', chain') && newTip in t'.headers
    else
      && r.outcome == Rejected && r.error.Some? && !TemporaryError(r.error.value) && chain' == chain
      && r.connected == [] && r.disconnected == []
      && FailedSwitch(p, t, chain, newTip, t')
  }

  /** No header was added, and no chunk unsealed. */
  ghost predicate OnlySealed(t: Tables, t': Tables) {
    t'.headers.Keys <= t.headers.Keys && t'.sealedChunks >= t.sealedChunks
  }

  /** A side-branch block at a height between these two. */
  ghost predicate LostBetween(chain: seq<Block>, id: Digest, from: nat, end: nat) {
    id.HeaderHash? && from <= id.header.height < end && !OnChain(chain, id)
  }

  /** Every chunk that is final is sealed, no other; and sealing deletes the side branches at its heights. */
  ghost predicate SealedUp(p: Params, t: Tables, t': Tables, chain': seq<Block>) {
    && (t'.sealedChunks == t.sealedChunks || SealedEnd(p, t') <= |chain'| - p.finalityDepth)
    && SealedEnd(p, t') + p.chunkSize > |chain'| - p.finalityDepth
    && (forall id :: id in t.headers && LostBetween(chain', id, SealedEnd(p, t), SealedEnd(p, t')) ==>
        id !in t'.headers)
    && (forall id :: id in t.headers && id !in t'.headers ==> LostBetween(chain', id, 0, SealedEnd(p, t')))
  }

  predicate IsReversed(a: seq<Block>, b: seq<Block>) {
    |a| == |b| && forall i :: 0 <= i < |a| ==> a[i] == b[|b| - 1 - i]
  }

  /** Only the new tip may have more work than this. */
  ghost predicate OnlyNewTipAbove(t: Tables, newTip: Digest, work: nat) {
    forall id :: id in t.headers && t.headers[id].status != Invalid && id != newTip ==> t.headers[id].chainWork <= work
  }

  /** A failed switch changes statuses only: of one branch block that breaks a rule where it stands,
      and of the stored blocks that descend from it, the new tip among them. */
  ghost predicate FailedSwitch(p: Params, t: Tables, chain: seq<Block>, newTip: Digest, t': Tables)
    requires Rooted(t, chain, newTip)
  {
    exists bad :: bad in t.headers && !OnChain(chain, bad) && Reaches(t, bad, newTip) && Marked(t, bad, t')
  }

  // --- one block ---------------------------------------------------------------------------------

  ghost predicate Added(t: Tables, b: Block, t': Tables) {
    t' == t.(headers := t.headers[b.Id() := StoredBlock(b, Work(b.Id()), Stored)])
  }

  /** The active chain keeps its blocks up to and including the finalized height. */
  ghost predicate KeepsFinal(p: Params, t: Tables, chain: seq<Block>, chain': seq<Block>)
    requires |t.active.main| > 0
  {
    forall h: nat :: h < |chain| && h <= FinalizedHeight(p, t) ==> h < |chain'| && chain'[h] == chain[h]
  }

  /** At most this header was added, and no chunk unsealed. */
  ghost predicate Grown(t: Tables, id: Digest, t': Tables) {
    t'.headers.Keys <= t.headers.Keys + {id} && t'.sealedChunks >= t.sealedChunks
  }

  /** Not stored, but its parent is. */
  ghost predicate New(t: Tables, b: Block) {
    b.Id() !in t.headers && b.header.prevId in t.headers
  }

  /** Of a block turned away, nothing is stored that is not marked invalid. */
  ghost predicate Discarded(t: Tables, b: Block, t': Tables) {
    && (b.Id() in t.headers ==> t.headers[b.Id()].status == Invalid)
    && (b.Id() in t'.headers ==> t'.headers[b.Id()].status == Invalid)
    && (b.Id() in t'.headers && b.Id() !in t.headers ==> t'.headers[b.Id()].block == b)
  }

  predicate TemporaryError(e: Error) { e == TimeTooNew || e == ForkBelowFinality }

  ghost predicate TargetsBounded(p: Params) { forall h :: p.nextTarget(h) <= p.powLimit }

  /** Why a block was turned away: the clock, finality, an altered body, or for good. */
  ghost predicate Justified(p: Params, t: Tables, chain: seq<Block>, b: Block, now: nat, e: Error)
    requires |t.active.main| > 0
  {
    && (e == TimeTooNew ==> !Ledger.NotInFuture(b.header, now, p))
    && (e == ForkBelowFinality ==> b.header.prevId in t.headers && !MeetsFinal(p, t, chain, b.header.prevId))
    && (!TemporaryError(e) && TargetsBounded(p) && Ledger.WellFormed(b, p) ==> Hopeless(p, b.Id()))
  }

  /** How the active chain changed: what was undone, newest first, and what was applied on top; nothing more than
      necessary was undone. */
  ghost predicate ChangedBy(chain: seq<Block>, r: SubmitResult, chain': seq<Block>) {
    && |r.disconnected| < |chain|
    && chain' == chain[..|chain| - |r.disconnected|] + r.connected
    && IsReversed(r.disconnected, chain[|chain| - |r.disconnected|..])
    && forall x :: x in r.disconnected ==> x !in chain'
  }

  /** The active tables are untouched and no header is lost. */
  ghost predicate OnlyStatuses(t: Tables, t': Tables) {
    && t'.active == t.active && t'.sealedChunks == t.sealedChunks
    && t.headers.Keys <= t'.headers.Keys
    && (forall id :: id in t.headers ==> t'.headers[id].block == t.headers[id].block)
    && (forall id :: id in t.headers ==> t'.headers[id].chainWork == t.headers[id].chainWork)
    && (forall id :: id in t.headers ==> t'.headers[id].status in {t.headers[id].status, Invalid})
  }

  ghost predicate NoLessWork(chain: seq<Block>, chain': seq<Block>) {
    |chain| > 0 && |chain'| > 0 && Work(chain'[|chain'| - 1].Id()) >= Work(chain[|chain| - 1].Id())
  }

  ghost predicate Refused(p: Params, t: Tables, chain: seq<Block>, b: Block, now: nat, t': Tables, error: Option<Error>)
    requires |t.active.main| > 0
  {
    OnlyStatuses(t, t') && Discarded(t, b, t') && error.Some? && Justified(p, t, chain, b, now, error.value)
  }

  /** What chain._submit_one does to the stored state. */
  ghost predicate Step(p: Params, t: Tables, chain: seq<Block>, orphans: seq<Block>, b: Block, now: nat,
                       t': Tables, chain': seq<Block>, r: SubmitResult)
    requires |t.active.main| > 0
  {
    && r.blockId == b.Id()
    && NoLessWork(chain, chain')
    && KeepsFinal(p, t, chain, chain')
    && ChangedBy(chain, r, chain')
    && Grown(t, b.Id(), t')
    && (r.outcome == Duplicate <==> IsKnown(t, orphans, b.Id()))
    && (r.outcome != NewTip ==> r.connected == [] && r.disconnected == [])
    && match r.outcome
       case Duplicate => t' == t && chain' == chain
       case Orphan => t' == t && chain' == chain && b.header.prevId !in t.headers && b.Id() !in t.headers
       && Ledger.WellFormed(b, p)
       case Raised => t' == t && chain' == chain && New(t, b)
       && PrunedAbove(t, chain, FinalizedHeight(p, t), b.header.prevId)
       case SideBranch => chain' == chain && New(t, b) && Added(t, b, t') && Rooted(t', chain, b.Id())
       case NewTip => New(t, b) && b.Id() in t'.headers && chain'[|chain'| - 1] == b && SealedUp(p, t, t', chain')
       && Work(b.Id()) > Work(chain[|chain| - 1].Id())
       case Rejected => chain' == chain && Refused(p, t, chain, b, now, t', r.error)
  }

  /** When submitting raises: the branch of a known, acceptable parent was cut by sealing right above
      the finalized height. */
  ghost predicate Raises(p: Params, t: Tables, chain: seq<Block>, orphans: seq<Block>, b: Block, now: nat)
    requires |t.active.main| > 0
  {
    && b.Id() !in t.headers && !HasOrphan(orphans, b.Id()) && b.header.height > 0
    && b.header.prevId in t.headers && t.headers[b.header.prevId].status != Invalid
    && Ledger.NotInFuture(b.header, now, p)
    && PrunedAbove(t, chain, FinalizedHeight(p, t), b.header.prevId)
  }

  // --- why a rejection is for good -----------------------------------------------------------------

  /** Marked invalid: no good chain contains it. */
  lemma InvalidIsHopeless(p: Params, t: Tables, chain: seq<Block>, id: Digest)
    requires Inv(p, t, chain) && id in t.headers && t.headers[id].status == Invalid
    ensures Hopeless(p, id)
  {
    hide ActiveChain.Replay, Ledger.WellFormed, Work, SealedEnd, StoredOk;
  }

  /** A block whose parent is hopeless, or that does not fit its parent's header, is hopeless. */
  lemma UnfitIsHopeless(p: Params, b: Block)
    requires ValidParams(p) && b.Id() != p.genesis.Id()
    requires Hopeless(p, b.header.prevId) || !HeaderFits(p, b.header)
    ensures Hopeless(p, b.Id())
  {
    hide ActiveChain.Replay, Ledger.WellFormed, HeaderFits;
    forall c: seq<Block> | GoodChain(p, c)
      ensures c[|c| - 1].Id() != b.Id()
    {
      if c[|c| - 1].Id() == b.Id() {
        ChainShape(p, c);
        if |c| > 1 { GoodTip(p, c); }
      }
    }
  }

  lemma LowOrHardToReachIsHopeless(p: Params, b: Block)
    requires ValidParams(p) && TargetsBounded(p) && b.Id() != p.genesis.Id()
    requires b.header.height == 0 || b.header.target > p.powLimit || !p.meetsTarget(b.header)
    ensures Hopeless(p, b.Id())
  {
    hide ActiveChain.Replay, Ledger.WellFormed, MedianTime.MedianTimePast;
    forall c: seq<Block> | GoodChain(p, c)
      ensures c[|c| - 1].Id() != b.Id()
    {
      if c[|c| - 1].Id() == b.Id() {
        ChainShape(p, c);
        if |c| > 1 { GoodTip(p, c); }
      }
    }
  }

  // --- recording a block ---------------------------------------------------------------------------

  lemma {:induction false} RootedGrows(t: Tables, chain: seq<Block>, id: Digest, b: Block, t': Tables)
    requires Rooted(t, chain, id) && b.Id() !in t.headers && Added(t, b, t')
    ensures Rooted(t', chain, id)
    ensures ChainTo(t', chain, id) == ChainTo(t, chain, id)
    ensures ForkHeight(t', chain, id) == ForkHeight(t, chain, id)
  {
    if !OnChain(chain, id) {
      RootedGrows(t, chain, id.header.prevId, b, t');
    }
  }

  /** A block that passed every check of chain._submit_one, recorded: ready to switch to. */
  lemma AddedFacts(p: Params, t: Tables, chain: seq<Block>, b: Block, t': Tables)
    requires Inv(p, t, chain) && |t.active.main| > 0
    requires b.Id() !in t.headers && b.header.prevId in t.headers
    requires t.headers[b.header.prevId].status != Invalid
    requires Ledger.WellFormed(b, p) && b.header.height == b.header.prevId.header.height + 1 && p.meetsTarget(b.header)
    requires MeetsFinal(p, t, chain, b.header.prevId)
    requires Added(t, b, t')
    ensures Consistent(p, t', chain)
    ensures Rooted(t', chain, b.Id()) && !OnChain(chain, b.Id())
    ensures ForkHeight(t', chain, b.Id()) == ForkHeight(t, chain, b.header.prevId)
    ensures ForkHeight(t', chain, b.Id()) >= FinalizedHeight(p, t)
    ensures ForkHeight(t', chain, b.Id()) + 1 >= SealedEnd(p, t')
    ensures ChainTo(t', chain, b.Id()) == ChainTo(t, chain, b.header.prevId) + [b]
    ensures OnlyNewTipAbove(t', b.Id(), Work(chain[|chain| - 1].Id()))
  {
    hide ActiveChain.Replay, Ledger.WellFormed, Work, SealedEnd, StoredOk, Sound;
    AddingKeepsConsistent(p, t, chain, b, t');
    RootedGrows(t, chain, b.header.prevId, b, t');
    SameSealedEnd(p, t, t');
  }

  /** The chain to a stored block shares the active chain up to its fork. */
  lemma SwitchKeepsFinal(p: Params, t: Tables, chain: seq<Block>, b: Block, t': Tables)
    requires Consistent(p, t', chain) && |t.active.main| > 0
    requires Rooted(t', chain, b.Id()) && ForkHeight(t', chain, b.Id()) >= FinalizedHeight(p, t)
    ensures KeepsFinal(p, t, chain, ChainTo(t', chain, b.Id()))
  {
    hide ActiveChain.Replay, Consistent, FinalizedHeight;
    ChainToFacts(p, t', chain, b.Id());
  }

  // --- the orphan pool over one submission ---------------------------------------------------------

  lemma {:induction false} DescendsIsDeeper(f: Digest, id: Digest)
    requires Descends(f, id)
    ensures Depth(id) >= Depth(f)
  {
    if id != f { DescendsIsDeeper(f, id.header.prevId); }
  }

  /** Siblings do not hang below one another. */
  lemma SiblingsHangApart(orphans: seq<Block>, a: Block, b: Block)
    requires a.header.prevId == b.header.prevId
    ensures !HangsBelow(orphans, a.Id(), b.Id())
  {
    if HangsBelow(orphans, a.Id(), b.Id()) {
      HangingDescends(orphans, a.Id(), b.Id());
      DescendsIsDeeper(a.Id(), b.header.prevId);
      assert false;
    }
  }

  // --- why adopting orphans never raises ------------------------------------------------------------

  lemma {:induction false} RootedIsNotPruned(t: Tables, chain: seq<Block>, finalized: int, id: Digest)
    requires Rooted(t, chain, id)
    ensures !PrunedAbove(t, chain, finalized, id)
  {
    if !OnChain(chain, id) {
      RootedIsNotPruned(t, chain, finalized, id.header.prevId);
    }
  }

  /** No gap lies behind this block, unless it is gone or invalid. */
  ghost predicate Safe(t: Tables, chain: seq<Block>, id: Digest) {
    id in t.headers && t.headers[id].status != Invalid ==> Rooted(t, chain, id)
  }

  /** `later` descends from the parent of `id`. */
  ghost predicate Beside(id: Digest, later: Digest) {
    id.HeaderHash? && id.header.prevId.HeaderHash? && Descends(id.header.prevId, later)
  }

  /** These blocks wait for their orphans to be adopted, after those of `current`, which descends from their parents. */
  ghost predicate AllSafe(t: Tables, chain: seq<Block>, ids: set<Digest>, current: Digest) {
    forall id :: id in ids ==> Safe(t, chain, id) && Beside(id, current)
  }

  /** From the top of the stack down, each block descends from the parents of those below it. */
  ghost predicate SafeStack(t: Tables, chain: seq<Block>, waiting: seq<Digest>) {
    && (forall i :: 0 <= i < |waiting| ==> Safe(t, chain, waiting[i]))
    && (forall i, j :: 0 <= i <= j < |waiting| ==> Beside(waiting[i], waiting[j]))
  }

  lemma SafeTop(t: Tables, chain: seq<Block>, rest: seq<Digest>, current: Digest)
    requires SafeStack(t, chain, rest + [current])
    ensures AllSafe(t, chain, SetOf(rest) + {current}, current)
  {
    hide Safe, Beside;
    var all := rest + [current];
    assert all[|rest|] == current;
    forall id | id in SetOf(rest)
      ensures Safe(t, chain, id) && Beside(id, current)
    {
      var i :| 0 <= i < |rest| && rest[i] == id;
      assert all[i] == id;
    }
  }

  lemma SafeStart(t: Tables, chain: seq<Block>, id: Digest)
    requires Safe(t, chain, id) && Beside(id, id)
    ensures SafeStack(t, chain, [id])
  {
    hide Safe, Beside;
  }

  lemma FewerAreSafe(t: Tables, chain: seq<Block>, more: set<Digest>, ids: set<Digest>, current: Digest)
    requires AllSafe(t, chain, more, current) && ids <= more
    ensures AllSafe(t, chain, ids, current)
  {
    hide Safe, Beside;
  }

  /** The orphans of `current` adopted, its children take its place. */
  lemma SafePush(t: Tables, chain: seq<Block>, was: Tables, before: seq<Block>, rest: seq<Digest>, current: Digest,
                 more: seq<Digest>)
    requires SafeStack(was, before, rest + [current])
    requires AllSafe(t, chain, SetOf(rest) + SetOf(more), current)
    requires forall w :: w in more ==> w.HeaderHash? && w.header.prevId == current
    ensures SafeStack(t, chain, rest + more)
  {
    hide Safe;
    var all, n := rest + more, |rest|;
    assert (rest + [current])[n] == current;
    forall i | 0 <= i < |all|
      ensures Safe(t, chain, all[i]) && Beside(all[i], current)
    {
      assert all[i] in SetOf(rest) + SetOf(more);
    }
    forall i, j | 0 <= i <= j < |all|
      ensures Beside(all[i], all[j])
    {
      if j < n {
        assert (rest + [current])[i] == all[i] && (rest + [current])[j] == all[j];
      } else {
        assert all[j] in more;
        assert Descends(all[i].header.prevId, all[j].header.prevId);
      }
    }
  }

  /** A valid chain to a descendant of `f` passes through `f`. */
  lemma {:induction false} PassesThrough(p: Params, c: seq<Block>, f: Digest, k: nat)
    requires ValidChain(p, c) && k < |c| && f.HeaderHash? && Descends(f, c[k].Id())
    ensures OnChain(c, f)
  {
    hide ActiveChain.Replay, Ledger.WellFormed;
    ChainShape(p, c);
    if c[k].Id() != f {
      if k > 0 { PassesThrough(p, c, f, k - 1); }
    }
  }

  lemma {:induction false} RootedStays(t: Tables, chain: seq<Block>, id: Digest, t': Tables)
    requires Rooted(t, chain, id) && t.headers.Keys <= t'.headers.Keys
    ensures Rooted(t', chain, id)
  {
    if !OnChain(chain, id) { RootedStays(t, chain, id.header.prevId, t'); }
  }

  /** A child of an active block is rooted. */
  lemma ChildIsRooted(p: Params, t: Tables, chain: seq<Block>, id: Digest)
    requires Inv(p, t, chain) && id in t.headers && id.HeaderHash? && OnChain(chain, id.header.prevId)
    ensures Rooted(t, chain, id)
  {
    hide ActiveChain.Replay, Ledger.WellFormed, Work, SealedEnd, Sound;
    ChainShape(p, chain);
    assert StoredOk(p, t, id);
    assert chain[id.header.prevId.header.height].Id() in t.headers;
  }

  /** Submitting a descendant of its parent leaves a safe block safe: a switch can only put that parent on
      the active chain. */
  lemma StepKeepsSafe(p: Params, t: Tables, chain: seq<Block>, orphans: seq<Block>, b: Block, now: nat,
                      t': Tables, chain': seq<Block>, r: SubmitResult, id: Digest)
    requires Inv(p, t, chain) && Inv(p, t', chain') && |t.active.main| > 0
    requires Step(p, t, chain, orphans, b, now, t', chain', r)
    requires Safe(t, chain, id) && Beside(id, b.header.prevId)
    ensures Safe(t', chain', id)
  {
    hide Inv, NoLessWork, KeepsFinal, ChangedBy, Justified, FinalizedHeight, PrunedAbove, SealedUp, Ledger.WellFormed,
      Work, Rooted, OnChain;
    if r.outcome == NewTip {
      OnItsChain(p, t', chain', id.header.prevId, b);
      if id in t'.headers { ChildIsRooted(p, t', chain', id); }
    } else if r.outcome == SideBranch || r.outcome == Rejected {
      if id in t.headers && Rooted(t, chain, id) { RootedStays(t, chain, id, t'); }
    }
  }

  lemma OnItsChain(p: Params, t: Tables, chain: seq<Block>, f: Digest, b: Block)
    requires Inv(p, t, chain) && chain[|chain| - 1] == b && f.HeaderHash? && Descends(f, b.header.prevId)
    ensures OnChain(chain, f)
  {
    hide ActiveChain.Replay, Ledger.WellFormed, Work, SealedEnd, Sound, StoredOk;
    PassesThrough(p, chain, f, |chain| - 1);
  }

  lemma StepKeepsAllSafe(p: Params, t: Tables, chain: seq<Block>, orphans: seq<Block>, b: Block, now: nat,
                         t': Tables, chain': seq<Block>, r: SubmitResult, ids: set<Digest>)
    requires Inv(p, t, chain) && Inv(p, t', chain') && |t.active.main| > 0
    requires Step(p, t, chain, orphans, b, now, t', chain', r)
    requires AllSafe(t, chain, ids, b.header.prevId)
    ensures AllSafe(t', chain', ids, b.header.prevId)
  {
    hide Inv, Step, Safe, Beside;
    forall id | id in ids
      ensures Safe(t', chain', id)
    {
      StepKeepsSafe(p, t, chain, orphans, b, now, t', chain', r, id);
    }
  }

  /** A block just stored is safe, and its parent was a stored header. */
  lemma StoredIsSafe(p: Params, t: Tables, chain: seq<Block>, orphans: seq<Block>, b: Block, now: nat,
                     t': Tables, chain': seq<Block>, r: SubmitResult)
    requires Inv(p, t, chain) && Inv(p, t', chain') && |t.active.main| > 0
    requires Step(p, t, chain, orphans, b, now, t', chain', r) && (r.outcome == NewTip || r.outcome == SideBranch)
    ensures Safe(t', chain', b.Id()) && Beside(b.Id(), b.header.prevId) && Beside(b.Id(), b.Id())
  {
    hide ActiveChain.Replay, Ledger.WellFormed, Work, Sound, SealedEnd, NoLessWork, KeepsFinal, ChangedBy, Justified,
      FinalizedHeight, PrunedAbove, SealedUp;
    assert StoredOk(p, t, b.header.prevId);
    assert b.header.prevId.HeaderHash?;
    assert Descends(b.header.prevId, b.header.prevId);
    if r.outcome == NewTip {
      ChainShape(p, chain');
      assert OnChain(chain', b.Id());
    }
  }

  /** Below a safe block nothing raises. */
  lemma SafeDoesNotRaise(p: Params, t: Tables, chain: seq<Block>, orphans: seq<Block>, b: Block, now: nat)
    requires |t.active.main| > 0 && Safe(t, chain, b.header.prevId)
    ensures !Raises(p, t, chain, orphans, b, now)
  {
    hide FinalizedHeight, Rooted, PrunedAbove;
    if b.header.prevId in t.headers && Rooted(t, chain, b.header.prevId) {
      RootedIsNotPruned(t, chain, FinalizedHeight(p, t), b.header.prevId);
    }
  }

  // --- the chain that wins, whatever the order -----------------------------------------------------------

  /** The chain meant to win, the blocks that can turn up at all, and the winner's blocks that have. */
  datatype Race = Race(best: seq<Block>, world: set<Block>, got: set<Block>)

  ghost predicate FromWorld(world: set<Block>, c: seq<Block>) {
    forall i :: 0 < i < |c| ==> c[i] in world
  }

  /** The same blocks at all heights below `n`. */
  ghost predicate Agree(c: seq<Block>, d: seq<Block>, n: int) {
    n <= |c| && n <= |d| && forall h: nat :: h < n ==> c[h] == d[h]
  }

  /** No other chain in the world is more than `finalityDepth` blocks long after it leaves this one. */
  ghost predicate CloseTo(p: Params, world: set<Block>, best: seq<Block>) {
    forall c: seq<Block> :: GoodChain(p, c) && FromWorld(world, c) ==> Agree(best, c, |c| - p.finalityDepth)
  }

  ghost predicate Known(p: Params, world: set<Block>, id: Digest) {
    exists x :: x in world && Ledger.WellFormed(x, p) && x.Id() == id
  }

  /** Nothing is stored or held that is not of this world. */
  ghost predicate OnlyKnown(p: Params, t: Tables, orphans: seq<Block>, world: set<Block>) {
    && (forall o :: o in orphans ==> o in world)
    && (forall id :: id in t.headers ==> id == p.genesis.Id() || Known(p, world, id))
  }

  /** The winner's blocks that have turned up are stored or held. */
  ghost predicate AllGot(t: Tables, orphans: seq<Block>, g: Race) {
    forall x :: x in g.got ==> x in g.best && (x.Id() in t.headers || x in orphans)
  }

  /** No held block of the winner has its parent stored, except these. */
  ghost predicate QuietExcept(t: Tables, orphans: seq<Block>, best: seq<Block>, waiting: set<Digest>) {
    forall o :: o in orphans && o in best && o.header.prevId in t.headers ==> o.header.prevId in waiting
  }

  ghost predicate OnTime(p: Params, orphans: seq<Block>, best: seq<Block>, now: nat) {
    forall o :: o in orphans && o in best ==> Ledger.NotInFuture(o.header, now, p)
  }

  lemma FewerOnTime(p: Params, orphans: seq<Block>, orphans': seq<Block>, best: seq<Block>, now: nat)
    requires OnTime(p, orphans, best, now) && forall o :: o in orphans' ==> o in orphans
    ensures OnTime(p, orphans', best, now)
  {
  }

  /** The block is not a header of the winner's over another body; or its id is known already, or none of the
      winner's blocks is held that hangs from it. */
  ghost predicate Harmless(t: Tables, orphans: seq<Block>, best: seq<Block>, b: Block) {
    forall i :: 0 < i < |best| && best[i].Id() == b.Id() && best[i] != b ==>
      IsKnown(t, orphans, b.Id()) || i + 1 == |best| || best[i + 1] !in orphans
  }

  ghost predicate Leads(p: Params, g: Race) {
    TargetsBounded(p) && GoodChain(p, g.best) && CloseTo(p, g.world, g.best)
  }

  /** What every submission keeps while the winner's blocks come in. */
  ghost predicate Guarded(p: Params, t: Tables, chain: seq<Block>, orphans: seq<Block>, g: Race, waiting: set<Digest>) {
    && Leads(p, g) && Agree(g.best, chain, SealedEnd(p, t))
    && OnlyKnown(p, t, orphans, g.world) && AllGot(t, orphans, g) && QuietExcept(t, orphans, g.best, waiting)
  }

  /** A block that may be submitted now: of this world, harmless, and not ahead of the clock if the winner's. */
  ghost predicate Fair(p: Params, t: Tables, orphans: seq<Block>, g: Race, b: Block, now: nat) {
    b in g.world && Harmless(t, orphans, g.best, b) && (b in g.best ==> Ledger.NotInFuture(b.header, now, p))
  }

  ghost function With(g: Race, b: Block): Race {
    if b in g.best then g.(got := g.got + {b}) else g
  }

  lemma ChainIsKnown(p: Params, t: Tables, chain: seq<Block>, orphans: seq<Block>, world: set<Block>)
    requires Inv(p, t, chain) && OnlyKnown(p, t, orphans, world)
    ensures GoodChain(p, chain) && FromWorld(world, chain)
  {
    hide ActiveChain.Replay, Ledger.WellFormed, Work, SealedEnd, StoredOk, Sound;
    ChainShape(p, chain);
    forall i | 0 < i < |chain|
      ensures chain[i] in world
    {
      var id := chain[i].Id();
      assert id in t.headers && id != p.genesis.Id();
      var x :| x in world && Ledger.WellFormed(x, p) && x.Id() == id;
      Ledger.SameIdSameBlock(x, chain[i], p);
    }
  }

  /** The winner goes through every final block. */
  lemma BestIsFinal(p: Params, t: Tables, chain: seq<Block>, orphans: seq<Block>, g: Race)
    requires Inv(p, t, chain) && |t.active.main| > 0
    requires Leads(p, g) && OnlyKnown(p, t, orphans, g.world) && Agree(g.best, chain, SealedEnd(p, t))
    ensures Agree(g.best, chain, FinalizedHeight(p, t) + 1)
  {
    hide ActiveChain.Replay, Ledger.WellFormed, Work, SealedEnd, StoredOk, Sound;
    ChainIsKnown(p, t, chain, orphans, g.world);
    ChainShape(p, chain);
    ChainShape(p, g.best);
    assert Agree(g.best, chain, |chain| - p.finalityDepth);
  }

  /** A stored block of the winner at or above the finalized height may be built on. */
  lemma {:induction false} BestMeetsFinal(p: Params, t: Tables, chain: seq<Block>, best: seq<Block>, k: nat)
    requires Inv(p, t, chain) && |t.active.main| > 0 && GoodChain(p, best)
    requires Agree(best, chain, FinalizedHeight(p, t) + 1)
    requires FinalizedHeight(p, t) <= k < |best| && best[k].Id() in t.headers
    ensures MeetsFinal(p, t, chain, best[k].Id())
  {
    hide ActiveChain.Replay, Ledger.WellFormed, Work, Sound;
    ChainShape(p, chain);
    ChainShape(p, best);
    var id := best[k].Id();
    if OnChain(chain, id) {
      assert ForkHeight(t, chain, id) == k;
    } else {
      assert k > FinalizedHeight(p, t);
      assert best[k - 1] == best[k - 1];
      assert StoredOk(p, t, id);
      var prev := best[k - 1].Id();
      assert prev in t.headers by {
        if k - 1 == FinalizedHeight(p, t) { assert chain[k - 1] == best[k - 1]; }
      }
      BestMeetsFinal(p, t, chain, best, k - 1);
    }
  }

  lemma BestIsNotInvalid(p: Params, t: Tables, chain: seq<Block>, best: seq<Block>, k: nat)
    requires Inv(p, t, chain) && GoodChain(p, best) && k < |best|
    ensures best[k].Id() in t.headers ==> t.headers[best[k].Id()].status != Invalid
    ensures k == 0 ==> best[k].Id() in t.headers
    ensures !Hopeless(p, best[k].Id())
    ensures k > 0 ==> best[k].header.prevId == best[k - 1].Id() && Ledger.WellFormed(best[k], p)
    ensures best[k].header.height == k
  {
    hide ActiveChain.Replay, Ledger.WellFormed, Work, SealedEnd, StoredOk;
    ChainShape(p, chain);
    ChainShape(p, best);
    PrefixIsValid(p, best, k + 1);
    assert GoodChain(p, best[..k + 1]) && best[..k + 1][k] == best[k];
    assert chain[0].Id() in t.headers;
  }

  /** What stands at heights already final is on the active chain. */
  lemma FinalIsStored(p: Params, t: Tables, chain: seq<Block>, best: seq<Block>, k: nat)
    requires Inv(p, t, chain) && |t.active.main| > 0 && Agree(best, chain, FinalizedHeight(p, t) + 1) && k < |best|
    ensures best[k].Id() !in t.headers ==> k > FinalizedHeight(p, t)
  {
    hide ActiveChain.Replay, Ledger.WellFormed, Work, SealedEnd, StoredOk, Sound, FinalizedHeight;
    if k <= FinalizedHeight(p, t) { assert best[k] == chain[k]; }
  }

  /** No block of the winner is ever turned away. */
  lemma BestIsTaken(p: Params, t: Tables, chain: seq<Block>, orphans: seq<Block>, b: Block, now: nat,
                    t': Tables, chain': seq<Block>, r: SubmitResult, g: Race, waiting: set<Digest>, k: nat)
    requires Inv(p, t, chain) && |t.active.main| > 0 && Step(p, t, chain, orphans, b, now, t', chain', r)
    requires Guarded(p, t, chain, orphans, g, waiting)
    requires k < |g.best| && g.best[k] == b && Ledger.NotInFuture(b.header, now, p)
    ensures r.outcome != Rejected && r.outcome != Raised
  {
    hide Inv, NoLessWork, KeepsFinal, ChangedBy, FinalizedHeight, PrunedAbove, SealedUp, Ledger.WellFormed,
      Ledger.NotInFuture, Hopeless, OnlyKnown, AllGot, QuietExcept, Agree, CloseTo, Rooted, ForkHeight, GoodChain,
      SealedEnd, OnlyStatuses, TargetsBounded;
    BestIsNotInvalid(p, t, chain, g.best, k);
    if (r.outcome == Rejected || r.outcome == Raised) && b.Id() !in t.headers {
      BestIsFinal(p, t, chain, orphans, g);
      FinalIsStored(p, t, chain, g.best, k);
      if b.header.prevId in t.headers {
        BestMeetsFinal(p, t, chain, g.best, k - 1);
        RootedIsNotPruned(t, chain, FinalizedHeight(p, t), b.header.prevId);
      }
    }
  }

  lemma NewBlockIsChecked(p: Params, t: Tables, chain: seq<Block>, orphans: seq<Block>, b: Block, now: nat,
                          t': Tables, chain': seq<Block>, r: SubmitResult)
    requires Inv(p, t, chain) && Inv(p, t', chain') && |t.active.main| > 0
    requires Step(p, t, chain, orphans, b, now, t', chain', r)
    ensures b.Id() in t'.headers && b.Id() !in t.headers ==> b == p.genesis || Ledger.WellFormed(b, p)
  {
    hide ActiveChain.Replay, Ledger.WellFormed, Work, Sound, SealedEnd, NoLessWork, KeepsFinal, ChangedBy, Justified,
         FinalizedHeight, PrunedAbove, SealedUp, Rooted, IsKnown, ParentOk;
    if b.Id() in t'.headers && b.Id() !in t.headers {
      ChainShape(p, chain');
      assert StoredOk(p, t', b.Id());
    }
  }

  /** Every stored block is genesis or in the world still. */
  lemma StepKeepsKnown(p: Params, t: Tables, chain: seq<Block>, orphans: seq<Block>, b: Block, now: nat,
                       t': Tables, chain': seq<Block>, orphans': seq<Block>, r: SubmitResult, world: set<Block>)
    requires Inv(p, t, chain) && Inv(p, t', chain') && |t.active.main| > 0
    requires Step(p, t, chain, orphans, b, now, t', chain', r)
    requires OnlyKnown(p, t, orphans, world) && b in world && forall o :: o in orphans' ==> o == b || o in orphans
    ensures OnlyKnown(p, t', orphans', world)
  {
    hide Inv, Step, Ledger.WellFormed;
    NewBlockIsChecked(p, t, chain, orphans, b, now, t', chain', r);
    StepParts(p, t, chain, orphans, b, now, t', chain', r);
  }

  /** Sealing never takes a block from the winner. */
  lemma StepKeepsBest(p: Params, t: Tables, chain: seq<Block>, orphans: seq<Block>, b: Block, now: nat,
                      t': Tables, chain': seq<Block>, orphans': seq<Block>, r: SubmitResult, g: Race)
    requires Inv(p, t, chain) && Inv(p, t', chain') && |t.active.main| > 0
    requires Step(p, t, chain, orphans, b, now, t', chain', r)
    requires Leads(p, g) && Agree(g.best, chain, SealedEnd(p, t)) && OnlyKnown(p, t', orphans', g.world)
    ensures Agree(g.best, chain', SealedEnd(p, t'))
    ensures forall k :: 0 <= k < |g.best| && g.best[k].Id() in t.headers ==> g.best[k].Id() in t'.headers
  {
    hide Inv, NoLessWork, KeepsFinal, ChangedBy, Justified, FinalizedHeight, PrunedAbove, Ledger.WellFormed, Work,
      Rooted, SealedEnd, GoodChain, TargetsBounded;
    if r.outcome == NewTip {
      ChainIsKnown(p, t', chain', orphans', g.world);
      StepKeepsSealed(p, t, chain, orphans, b, now, t', chain', r);
      SealedAgree(p, t, chain, t', chain', g);
      forall k | 0 <= k < |g.best| && g.best[k].Id() in t.headers
        ensures g.best[k].Id() in t'.headers
      {
        BestIsNotInvalid(p, t', chain', g.best, k);
        NotLost(chain', g.best, k, SealedEnd(p, t'));
      }
    } else {
      SameSealedEnd(p, t, t');
    }
  }

  lemma SealedAgree(p: Params, t: Tables, chain: seq<Block>, t': Tables, chain': seq<Block>, g: Race)
    requires SealedUp(p, t, t', chain') && KeepsSealed(p, t, chain, t', chain') && Agree(g.best, chain, SealedEnd(p, t))
    requires GoodChain(p, chain') && FromWorld(g.world, chain') && CloseTo(p, g.world, g.best)
    ensures Agree(g.best, chain', SealedEnd(p, t'))
  {
    hide SealedEnd, GoodChain, FromWorld;
    if t'.sealedChunks == t.sealedChunks { SameSealedEnd(p, t, t'); }
  }

  lemma NotLost(chain: seq<Block>, best: seq<Block>, k: nat, end: nat)
    requires Agree(best, chain, end) && k < |best| && best[k].header.height == k
    ensures !LostBetween(chain, best[k].Id(), 0, end)
  {
    if k < end { assert best[k] == chain[k]; }
  }

  lemma StepKeepsGot(p: Params, t: Tables, chain: seq<Block>, orphans: seq<Block>, b: Block, now: nat, t': Tables,
                     chain': seq<Block>, orphans': seq<Block>, r: SubmitResult, g: Race, waiting: set<Digest>)
    requires Inv(p, t, chain) && Inv(p, t', chain') && |t.active.main| > 0
    requires Step(p, t, chain, orphans, b, now, t', chain', r)
    requires forall o :: o in orphans ==> Ledger.WellFormed(o, p)
    requires r.outcome == Orphan ==> b in orphans'
    requires forall o :: o in orphans ==> o in orphans'
    requires Guarded(p, t, chain, orphans, g, waiting) && Fair(p, t, orphans, g, b, now)
    requires forall k :: 0 <= k < |g.best| && g.best[k].Id() in t.headers ==> g.best[k].Id() in t'.headers
    ensures AllGot(t', orphans', With(g, b))
  {
    hide Inv, NoLessWork, KeepsFinal, ChangedBy, Justified, FinalizedHeight, PrunedAbove, SealedUp, Ledger.WellFormed,
      OnlyKnown, QuietExcept, Agree, CloseTo, Rooted, GoodChain, SealedEnd, OnlyStatuses, TargetsBounded;
    forall x | x in g.got
      ensures x.Id() in t'.headers || x in orphans'
    {
      var k :| 0 <= k < |g.best| && g.best[k] == x;
    }
    if b in g.best {
      var k :| 0 <= k < |g.best| && g.best[k] == b;
      BestIsTaken(p, t, chain, orphans, b, now, t', chain', r, g, waiting, k);
      if r.outcome == Duplicate && b.Id() !in t.headers {
        BestIsNotInvalid(p, t, chain, g.best, k);
        var o :| o in orphans && o.Id() == b.Id();
        Ledger.SameIdSameBlock(o, b, p);
      }
    }
  }

  /** One submission keeps the winner's blocks, and takes the new one if it is the winner's. */
  lemma GuardedStep(p: Params, t: Tables, chain: seq<Block>, orphans: seq<Block>, b: Block, now: nat, t': Tables,
                    chain': seq<Block>, orphans': seq<Block>, r: SubmitResult, g: Race, waiting: set<Digest>)
    requires Inv(p, t, chain) && Inv(p, t', chain') && |t.active.main| > 0
    requires Step(p, t, chain, orphans, b, now, t', chain', r)
    requires forall o :: o in orphans ==> Ledger.WellFormed(o, p)
    requires r.outcome == Orphan ==> b in orphans'
    requires forall o :: o in orphans ==> o in orphans'
    requires forall o :: o in orphans' ==> o == b || o in orphans
    requires b in orphans' ==> b in orphans || r.outcome == Orphan
    requires Guarded(p, t, chain, orphans, g, waiting) && Fair(p, t, orphans, g, b, now)
    ensures Guarded(p, t', chain', orphans', With(g, b), waiting + {b.Id()})
    ensures !Adds(r.outcome) ==> Guarded(p, t', chain', orphans', With(g, b), waiting)
    ensures r.outcome == Rejected ==> forall x :: x in g.best && x in orphans ==> !HangsBelow(orphans, b.Id(), x.Id())
  {
    hide Inv, NoLessWork, KeepsFinal, ChangedBy, Justified, FinalizedHeight, PrunedAbove, SealedUp, Ledger.WellFormed,
      OnlyKnown, Agree, CloseTo, Rooted, GoodChain, SealedEnd, OnlyStatuses, TargetsBounded, AllGot,
      Ledger.NotInFuture;
    StepKeepsKnown(p, t, chain, orphans, b, now, t', chain', orphans', r, g.world);
    StepKeepsBest(p, t, chain, orphans, b, now, t', chain', orphans', r, g);
    StepKeepsGot(p, t, chain, orphans, b, now, t', chain', orphans', r, g, waiting);
    if r.outcome == Rejected {
      forall x | x in g.best && x in orphans
        ensures !HangsBelow(orphans, b.Id(), x.Id())
      {
        var k :| 0 <= k < |g.best| && g.best[k] == x;
        RejectedHasNoneBelow(p, t, chain, orphans, b, now, t', chain', r, g, waiting, k);
      }
    }
    StepKeepsQuiet(p, t, chain, orphans, b, now, t', chain', orphans', r, g.best, waiting);
  }

  /** None of the winner's held blocks hangs below a rejected one. */
  lemma RejectedHasNoneBelow(p: Params, t: Tables, chain: seq<Block>, orphans: seq<Block>, b: Block, now: nat,
                             t': Tables, chain': seq<Block>, r: SubmitResult, g: Race, waiting: set<Digest>, j: nat)
    requires Inv(p, t, chain) && Inv(p, t', chain') && |t.active.main| > 0
    requires Step(p, t, chain, orphans, b, now, t', chain', r) && r.outcome == Rejected
    requires forall o :: o in orphans ==> Ledger.WellFormed(o, p)
    requires Guarded(p, t, chain, orphans, g, waiting) && Fair(p, t, orphans, g, b, now)
    requires j < |g.best| && g.best[j] in orphans
    ensures !HangsBelow(orphans, b.Id(), g.best[j].Id())
  {
    hide Inv, NoLessWork, KeepsFinal, ChangedBy, Justified, FinalizedHeight, PrunedAbove, SealedUp, Ledger.WellFormed,
      OnlyKnown, QuietExcept, Agree, CloseTo, Rooted, SealedEnd, OnlyStatuses, TargetsBounded, AllGot,
      Ledger.NotInFuture, HangsBelow, ValidChain, Hold, Minus;
    if HangsBelow(orphans, b.Id(), g.best[j].Id()) {
      HangingDescends(orphans, b.Id(), g.best[j].Id());
      PassesThrough(p, g.best, b.Id(), j);
      var i := b.header.height;
      BestIsNotInvalid(p, t, chain, g.best, i);
      BestIsNotInvalid(p, t, chain, g.best, j);
      if g.best[i] == b {
        BestIsTaken(p, t, chain, orphans, b, now, t', chain', r, g, waiting, i);
        assert false;
      }
      HeldDownTo(p, t, chain, g.best, orphans, i, j);
    }
  }

  lemma {:induction false} HangingDescends(orphans: seq<Block>, f: Digest, id: Digest)
    requires HangsBelow(orphans, f, id)
    ensures Descends(f, id) && id != f
  {
    if id.header.prevId != f { HangingDescends(orphans, f, id.header.prevId); }
    DescendsIsDeeper(f, id.header.prevId);
    assert Depth(id) == 1 + Depth(id.header.prevId);
  }

  /** If a block of a good chain hangs below an earlier one, the block after that one is held. */
  lemma {:induction false} HeldDownTo(p: Params, t: Tables, chain: seq<Block>, best: seq<Block>, orphans: seq<Block>,
                                      i: nat, j: nat)
    requires Inv(p, t, chain) && GoodChain(p, best) && i < |best| && j < |best|
    requires forall o :: o in orphans ==> Ledger.WellFormed(o, p)
    requires HasOrphan(orphans, best[j].Id()) && HangsBelow(orphans, best[i].Id(), best[j].Id())
    ensures i < j && best[i + 1] in orphans
  {
    hide Inv, ActiveChain.Replay, Ledger.WellFormed;
    ChainShape(p, best);
    if j > 0 {
      if j - 1 == i {
        var o :| o in orphans && o.Id() == best[j].Id();
        Ledger.SameIdSameBlock(o, best[j], p);
      } else {
        HeldDownTo(p, t, chain, best, orphans, i, j - 1);
      }
    }
  }

  lemma StepKeepsQuiet(p: Params, t: Tables, chain: seq<Block>, orphans: seq<Block>, b: Block, now: nat, t': Tables,
                       chain': seq<Block>, orphans': seq<Block>, r: SubmitResult, best: seq<Block>,
                       waiting: set<Digest>)
    requires Inv(p, t, chain) && Inv(p, t', chain') && |t.active.main| > 0 && GoodChain(p, best)
    requires Step(p, t, chain, orphans, b, now, t', chain', r)
    requires forall o :: o in orphans' ==> o == b || o in orphans
    requires b in orphans' ==> b in orphans || r.outcome == Orphan
    requires QuietExcept(t, orphans, best, waiting)
    ensures QuietExcept(t', orphans', best, waiting + {b.Id()})
    ensures !Adds(r.outcome) ==> QuietExcept(t', orphans', best, waiting)
  {
    hide NoLessWork, KeepsFinal, ChangedBy, Justified, FinalizedHeight, PrunedAbove, SealedUp, Ledger.WellFormed,
         Rooted, GoodChain, SealedEnd, OnlyStatuses, Work, Consistent, NothingAbove;
    forall o | o in orphans' && o in best && o.header.prevId in t'.headers
      ensures o.header.prevId in waiting + {b.Id()}
      ensures !Adds(r.outcome) ==> o.header.prevId in waiting
    {
      var k :| 0 <= k < |best| && best[k] == o;
      BestIsNotInvalid(p, t, chain, best, k);
      NotRawParent(p, t, chain, best, b);
      if k > 0 {
        assert best[k - 1].Id() == o.header.prevId;
        BestIsNotInvalid(p, t, chain, best, k - 1);
        BestIsNotInvalid(p, t', chain', best, k - 1);
      }
    }
  }

  lemma NotRawParent(p: Params, t: Tables, chain: seq<Block>, best: seq<Block>, b: Block)
    requires Inv(p, t, chain) && GoodChain(p, best)
    ensures best[0].header.prevId != b.Id()
  {
    hide ActiveChain.Replay, Ledger.WellFormed, Work, SealedEnd, StoredOk, Sound, Inv;
    ChainShape(p, best);
  }

  /** Dropping orphans that are none of the winner's. */
  lemma DroppingKeeps(p: Params, t: Tables, chain: seq<Block>, orphans: seq<Block>, orphans': seq<Block>, g: Race,
                      waiting: set<Digest>)
    requires forall o :: o in orphans' ==> o in orphans
    requires forall x :: x in g.best && x in orphans ==> x in orphans'
    requires Guarded(p, t, chain, orphans, g, waiting)
    ensures Guarded(p, t, chain, orphans', g, waiting)
  {
    hide Leads, Agree, SealedEnd, Ledger.WellFormed;
  }

  /** An orphan taken out of the pool is not held until it has been submitted. */
  lemma TakingKeeps(p: Params, t: Tables, chain: seq<Block>, pool: seq<Block>, others: seq<Block>, child: Block,
                    g: Race, waiting: set<Digest>)
    requires Guarded(p, t, chain, pool, g, waiting)
    requires (forall o :: o in others ==> o in pool) && (forall o :: o in pool && o != child ==> o in others)
    ensures Guarded(p, t, chain, others, g.(got := g.got - {child}), waiting)
  {
    hide CloseTo, Agree, SealedEnd, GoodChain, Ledger.WellFormed, TargetsBounded;
  }

  lemma SubmittedAgain(p: Params, t: Tables, chain: seq<Block>, orphans: seq<Block>, child: Block, g: Race,
                       waiting: set<Digest>)
    requires Guarded(p, t, chain, orphans, With(g.(got := g.got - {child}), child), waiting)
    requires forall x :: x in g.got ==> x in g.best
    ensures Guarded(p, t, chain, orphans, g, waiting)
  {
    hide CloseTo, Agree, SealedEnd, GoodChain, Ledger.WellFormed, TargetsBounded, OnlyKnown, QuietExcept;
  }

  /** A held block is fair. */
  lemma HeldIsFair(p: Params, t: Tables, chain: seq<Block>, orphans: seq<Block>, o: Block, now: nat, g: Race,
                   waiting: set<Digest>)
    requires Guarded(p, t, chain, orphans, g, waiting) && OnTime(p, orphans, g.best, now) && o in orphans &&
      Ledger.WellFormed(o, p)
    ensures Fair(p, t, orphans, g, o, now)
    ensures forall i :: 0 < i < |g.best| && g.best[i].Id() == o.Id() ==> g.best[i] == o
  {
    hide CloseTo, Agree, SealedEnd, ActiveChain.Replay, Ledger.WellFormed, TargetsBounded, Ledger.NotInFuture;
    ChainShape(p, g.best);
    forall i | 0 < i < |g.best| && g.best[i].Id() == o.Id()
      ensures g.best[i] == o
    {
      Ledger.SameIdSameBlock(g.best[i], o, p);
    }
  }

  /** A child taken out of the pool and submitted: the winner's blocks are all there again. */
  lemma AdoptedKeeps(p: Params, t: Tables, chain: seq<Block>, pool: seq<Block>, others: seq<Block>, child: Block,
                     now: nat, t': Tables, chain': seq<Block>, after: seq<Block>, r: SubmitResult, g: Race,
                     waiting: set<Digest>)
    requires Inv(p, t, chain) && Inv(p, t', chain') && |t.active.main| > 0
    requires forall o :: o in pool ==> Ledger.WellFormed(o, p)
    requires child in pool && child !in others
    requires (forall o :: o in others ==> o in pool) && (forall o :: o in pool && o != child ==> o in others)
    requires Step(p, t, chain, others, child, now, t', chain', r)
    requires (forall o :: o in others ==> o in after) && (forall o :: o in after ==> o in pool)
    requires r.outcome == Orphan <==> child in after
    requires Guarded(p, t, chain, pool, g, waiting) && OnTime(p, pool, g.best, now)
    ensures Guarded(p, t', chain', after, g, waiting + {child.Id()})
    ensures !Adds(r.outcome) ==> Guarded(p, t', chain', after, g, waiting)
    ensures r.outcome == Rejected ==> forall x :: x in g.best && x in others ==> !HangsBelow(others, child.Id(), x.Id())
  {
    hide Inv, Step, Guarded, Ledger.WellFormed, OnTime;
    var without := g.(got := g.got - {child});
    TakingKeeps(p, t, chain, pool, others, child, g, waiting);
    HeldIsFair(p, t, chain, pool, child, now, g, waiting);
    assert Fair(p, t, others, without, child, now);
    GuardedStep(p, t, chain, others, child, now, t', chain', after, r, without, waiting);
    GotIsBest(p, t, chain, pool, g, waiting);
    SubmittedAgain(p, t', chain', after, child, g, waiting + {child.Id()});
    if !Adds(r.outcome) { SubmittedAgain(p, t', chain', after, child, g, waiting); }
  }

  lemma GotIsBest(p: Params, t: Tables, chain: seq<Block>, orphans: seq<Block>, g: Race, waiting: set<Digest>)
    requires Guarded(p, t, chain, orphans, g, waiting)
    ensures forall x :: x in g.got ==> x in g.best
  {
    hide Leads, Agree, OnlyKnown, QuietExcept;
  }

  /** Once no orphan hangs from `current`, or it is gone, it needs no more waiting. */
  lemma AllAdopted(p: Params, t: Tables, chain: seq<Block>, orphans: seq<Block>, g: Race, rest: set<Digest>,
                   current: Digest)
    requires Guarded(p, t, chain, orphans, g, rest + {current})
    requires current in t.headers ==> forall o :: o in orphans ==> o.header.prevId != current
    ensures Guarded(p, t, chain, orphans, g, rest)
  {
    hide Leads, Agree, SealedEnd, OnlyKnown, AllGot;
  }

  /** These orphans of `current` have still to be submitted; while it is stored, no other orphan hangs from it. */
  ghost predicate LeftToAdopt(t: Tables, orphans: seq<Block>, current: Digest, left: seq<Block>) {
    && DistinctIds(left)
    && (forall o :: o in left ==> o in orphans && o.header.prevId == current)
    && (current in t.headers ==> forall o :: o in orphans && o.header.prevId == current ==> o in left)
  }

  lemma AllToAdopt(t: Tables, orphans: seq<Block>, current: Digest, children: seq<Block>)
    requires DistinctIds(children) && forall o :: o in children <==> o in orphans && o.header.prevId == current
    ensures LeftToAdopt(t, orphans, current, children[0..])
  {
    assert children[0..] == children;
  }

  lemma NextToAdopt(t: Tables, orphans: seq<Block>, current: Digest, children: seq<Block>, i: nat)
    requires i < |children| && LeftToAdopt(t, orphans, current, children[i..])
    ensures children[i] in orphans && children[i].header.prevId == current
    ensures children[i].Id().HeaderHash? && children[i].Id().header.prevId == current
  {
    assert children[i] in children[i..];
  }

  lemma OneLessToAdopt(t: Tables, orphans: seq<Block>, current: Digest, children: seq<Block>, i: nat, t': Tables,
                       orphans': seq<Block>)
    requires i < |children| && LeftToAdopt(t, orphans, current, children[i..])
    requires forall o :: o in orphans' ==> o in orphans
    requires forall o :: o in orphans && o.header.prevId == current && o != children[i] ==> o in orphans'
    requires children[i] in orphans' ==> current !in t'.headers
    requires t'.headers.Keys <= t.headers.Keys + {children[i].Id()}
    ensures LeftToAdopt(t', orphans', current, children[i + 1..])
  {
    var left := children[i..];
    assert left[0] == children[i] && left[1..] == children[i + 1..];
    RestIsDistinct(left);
    assert Depth(left[0].Id()) == 1 + Depth(left[0].header.prevId);
    hide DistinctIds, Depth;
    assert left == [left[0]] + left[1..];
  }

  lemma RestIsDistinct(blocks: seq<Block>)
    requires DistinctIds(blocks) && blocks != []
    ensures DistinctIds(blocks[1..]) && blocks[0] !in blocks[1..]
  {
  }

  lemma NoneToAdopt(t: Tables, orphans: seq<Block>, current: Digest)
    requires LeftToAdopt(t, orphans, current, [])
    ensures current in t.headers ==> forall o :: o in orphans ==> o.header.prevId != current
  {
  }

  /** Blocks at sealed heights stay, and chunks stay sealed. */
  ghost predicate KeepsSealed(p: Params, t: Tables, chain: seq<Block>, t': Tables, chain': seq<Block>) {
    && t'.sealedChunks >= t.sealedChunks
    && SealedEnd(p, t) <= |chain| && SealedEnd(p, t) <= |chain'|
    && forall h :: 0 <= h < SealedEnd(p, t) ==> chain'[h] == chain[h]
  }

  lemma KeepsSealedTransitive(p: Params, t: Tables, c: seq<Block>, t1: Tables, c1: seq<Block>, t2: Tables,
                              c2: seq<Block>)
    requires KeepsSealed(p, t, c, t1, c1) && KeepsSealed(p, t1, c1, t2, c2)
    ensures KeepsSealed(p, t, c, t2, c2)
  {
    hide SealedEnd;
    MoreSealed(p, t, t1);
  }

  lemma MoreSealed(p: Params, t: Tables, t': Tables)
    requires t.sealedChunks <= t'.sealedChunks
    ensures SealedEnd(p, t) <= SealedEnd(p, t')
  {
  }

  lemma StepKeepsSealed(p: Params, t: Tables, chain: seq<Block>, orphans: seq<Block>, b: Block, now: nat,
                        t': Tables, chain': seq<Block>, r: SubmitResult)
    requires Inv(p, t, chain) && |t.active.main| > 0
    requires Step(p, t, chain, orphans, b, now, t', chain', r)
    ensures KeepsSealed(p, t, chain, t', chain')
  {
    hide ActiveChain.Replay, Ledger.WellFormed, Work, Sound, StoredOk, SealedEnd;
    var end := SealedEnd(p, t);
    forall h: nat | h < end
      ensures h < |chain'| && chain'[h] == chain[h]
    {
      assert h < |chain| && h <= FinalizedHeight(p, t);
      assert chain[h] == chain[h];
    }
    if end > 0 { assert chain[end - 1] == chain[end - 1]; assert end - 1 < |chain'|; }
  }

  lemma AsLongAsMain(p: Params, t: Tables, chain: seq<Block>)
    requires Inv(p, t, chain)
    ensures |t.active.main| == |chain|
  {
    hide ActiveChain.Replay, Ledger.WellFormed, Work, Sound, StoredOk, SealedEnd, NothingAbove;
    ChainShape(p, chain);
  }

  /** A parent may be built on if and only if its branch leaves the active chain within the last `finalityDepth`
      blocks and no earlier than at the last sealed one. */
  lemma FinalityRule(p: Params, t: Tables, chain: seq<Block>, id: Digest)
    requires Inv(p, t, chain) && |t.active.main| > 0
    ensures MeetsFinal(p, t, chain, id) <==>
      && Rooted(t, chain, id) && ForkHeight(t, chain, id) + p.finalityDepth + 1 >= |chain|
      && ForkHeight(t, chain, id) + 1 >= t.sealedChunks * p.chunkSize
  {
    hide Inv, Rooted, ForkHeight;
    AsLongAsMain(p, t, chain);
  }

  /** No submission undoes a block with `finalityDepth` or more on top of it. */
  lemma StepKeepsDeep(p: Params, t: Tables, chain: seq<Block>, orphans: seq<Block>, b: Block, now: nat,
                      t': Tables, chain': seq<Block>, r: SubmitResult, h: nat)
    requires Inv(p, t, chain) && |t.active.main| > 0
    requires Step(p, t, chain, orphans, b, now, t', chain', r)
    requires h + p.finalityDepth < |chain|
    ensures h < |chain'| && chain'[h] == chain[h]
  {
    hide Inv, NoLessWork, ChangedBy, Grown, Added, New, SealedUp, Refused, Switched, FailedSwitch, PrunedAbove, Rooted,
      IsKnown, Ledger.WellFormed, SealedEnd, Raises, Hopeless;
    AsLongAsMain(p, t, chain);
    assert h <= FinalizedHeight(p, t) && chain[h] == chain[h];
  }

  /** Blocks of a valid chain, genesis aside, are well formed. */
  lemma ChangesAreWellFormed(p: Params, t: Tables, chain: seq<Block>, r: SubmitResult, t': Tables, chain': seq<Block>)
    requires Inv(p, t, chain) && Inv(p, t', chain') && ChangedBy(chain, r, chain')
    ensures forall x :: x in r.disconnected ==> Ledger.WellFormed(x, p)
    ensures forall x :: x in r.connected ==> Ledger.WellFormed(x, p)
    ensures r.disconnected == [] ==> chain' == chain + r.connected
  {
    hide ActiveChain.Replay, Ledger.WellFormed, Work, Sound, StoredOk, SealedEnd;
    ChainShape(p, chain);
    ChainShape(p, chain');
    var k := |chain| - |r.disconnected|;
    forall i | 0 <= i < |r.disconnected|
      ensures Ledger.WellFormed(r.disconnected[i], p)
    {
      assert r.disconnected[i] == chain[k..][|chain[k..]| - 1 - i];
    }
    forall i | 0 <= i < |r.connected|
      ensures Ledger.WellFormed(r.connected[i], p)
    {
      assert r.connected[i] == chain'[k + i];
    }
  }

  lemma StepParts(p: Params, t: Tables, chain: seq<Block>, orphans: seq<Block>, b: Block, now: nat,
                  t': Tables, chain': seq<Block>, r: SubmitResult)
    requires Inv(p, t, chain) && |t.active.main| > 0
    requires Step(p, t, chain, orphans, b, now, t', chain', r)
    ensures ChangedBy(chain, r, chain') && NoLessWork(chain, chain') && KeepsSealed(p, t, chain, t', chain')
    ensures t'.headers.Keys <= t.headers.Keys + {b.Id()} && r.blockId == b.Id()
    ensures r.outcome == Duplicate || r.outcome == Orphan || r.outcome == Raised ==> t' == t
    ensures r.outcome != NewTip ==> chain' == chain && r.connected == [] && r.disconnected == []
    ensures r.outcome == Orphan ==> b.header.prevId !in t.headers
    ensures r.outcome == NewTip || r.outcome == SideBranch ==> b.Id() in t'.headers
  {
    hide Inv, NoLessWork, KeepsFinal, ChangedBy, KeepsSealed, Justified, FinalizedHeight, PrunedAbove;
    StepKeepsSealed(p, t, chain, orphans, b, now, t', chain', r);
  }

  /** The lists of a result tell how the active chain came from `start`: with nothing undone it grew by
      what was connected; and every block listed is well formed. */
  ghost predicate Accumulates(p: Params, start: seq<Block>, r: SubmitResult, chain: seq<Block>) {
    && (r.disconnected == [] ==> chain == start + r.connected)
    && (forall x :: x in r.disconnected ==> Ledger.WellFormed(x, p))
    && (forall x :: x in r.connected ==> Ledger.WellFormed(x, p))
    && Undone(start, r, chain)
  }

  /** A block undone and not applied as well was on the chain at the start, is no longer, and was undone once. */
  ghost predicate Undone(start: seq<Block>, r: SubmitResult, chain: seq<Block>) {
    && (forall x :: x in chain ==> x in start || x in r.connected)
    && (forall x :: x in r.disconnected && x !in r.connected ==> x in start && x !in chain)
    && (forall i, j :: 0 <= i < j < |r.disconnected| && r.disconnected[i] == r.disconnected[j] ==>
        r.disconnected[i] in r.connected)
  }

  lemma UndoneStep(start: seq<Block>, c1: seq<Block>, r1: SubmitResult, one: SubmitResult, c2: seq<Block>,
                   r2: SubmitResult)
    requires Undone(start, r1, c1) && ChangedBy(c1, one, c2)
    requires forall i, j :: 0 <= i < j < |c1| ==> c1[i] != c1[j]
    requires r2.connected == r1.connected + one.connected && r2.disconnected == r1.disconnected + one.disconnected
    ensures Undone(start, r2, c2)
  {
    var k := |c1| - |one.disconnected|;
    forall x | x in one.disconnected
      ensures x in c1 && x !in c1[..k]
    {
      var i :| 0 <= i < |one.disconnected| && one.disconnected[i] == x;
      assert x == c1[k..][|one.disconnected| - 1 - i];
    }
    forall i, j | 0 <= i < j < |one.disconnected|
      ensures one.disconnected[i] != one.disconnected[j]
    {
      assert one.disconnected[i] == c1[|c1| - 1 - i] && one.disconnected[j] == c1[|c1| - 1 - j];
    }
    var n := |r1.disconnected|;
    assert forall i :: 0 <= i < n ==> r2.disconnected[i] == r1.disconnected[i] && r2.disconnected[i] in r1.disconnected;
    assert forall i :: n <= i < |r2.disconnected| ==>
      r2.disconnected[i] == one.disconnected[i - n] && r2.disconnected[i] in one.disconnected;
  }

  lemma NothingUndone(chain: seq<Block>, r: SubmitResult)
    requires r.connected == [] && r.disconnected == []
    ensures Undone(chain, r, chain)
  {
  }

  lemma DistinctBlocks(p: Params, t: Tables, chain: seq<Block>)
    requires Inv(p, t, chain)
    ensures forall i, j :: 0 <= i < j < |chain| ==> chain[i] != chain[j]
  {
    hide ActiveChain.Replay, Ledger.WellFormed, Work, Sound, StoredOk, SealedEnd;
    ChainShape(p, chain);
  }

  /** How far chain._adopt_orphans has come: from (t0, c0) to (t, c), with `r` as the result so far. */
  ghost predicate Progress(p: Params, t0: Tables, c0: seq<Block>, start: seq<Block>, first: SubmitResult,
                           t: Tables, c: seq<Block>, r: SubmitResult) {
    && KeepsSealed(p, t0, c0, t, c) && NoLessWork(c0, c)
    && r.blockId == first.blockId && r.outcome == first.outcome && Accumulates(p, start, r, c)
  }

  lemma NoProgress(p: Params, t: Tables, chain: seq<Block>, start: seq<Block>, first: SubmitResult)
    requires Inv(p, t, chain) && Accumulates(p, start, first, chain)
    ensures Progress(p, t, chain, start, first, t, chain, first)
  {
    hide Inv, Accumulates, KeepsSealed, NoLessWork;
    NothingChangesSealed(p, t, chain);
  }

  lemma ProgressParts(p: Params, t0: Tables, c0: seq<Block>, start: seq<Block>, first: SubmitResult,
                      t: Tables, c: seq<Block>, r: SubmitResult)
    requires Progress(p, t0, c0, start, first, t, c, r)
    ensures KeepsSealed(p, t0, c0, t, c) && NoLessWork(c0, c) && r.blockId == first.blockId &&
      r.outcome == first.outcome
    ensures Accumulates(p, start, r, c)
  {
    hide KeepsSealed, NoLessWork, Accumulates;
  }

  lemma ProgressStep(p: Params, t0: Tables, c0: seq<Block>, start: seq<Block>, first: SubmitResult,
                     t1: Tables, c1: seq<Block>, r1: SubmitResult, one: SubmitResult,
                     t2: Tables, c2: seq<Block>, r2: SubmitResult)
    requires Progress(p, t0, c0, start, first, t1, c1, r1)
    requires ChangedBy(c1, one, c2) && KeepsSealed(p, t1, c1, t2, c2) && NoLessWork(c1, c2)
    requires Inv(p, t1, c1) && Inv(p, t2, c2)
    requires r2 == r1.(connected := r1.connected + one.connected, disconnected := r1.disconnected + one.disconnected)
    ensures Progress(p, t0, c0, start, first, t2, c2, r2)
    ensures KeepsSealed(p, t0, c0, t2, c2) && NoLessWork(c0, c2)
  {
    hide Inv, Ledger.WellFormed, ChangedBy, KeepsSealed, NoLessWork, Undone;
    DistinctBlocks(p, t1, c1);
    UndoneStep(start, c1, r1, one, c2, r2);
    KeepsSealedTransitive(p, t0, c0, t1, c1, t2, c2);
    WorkTransitive(c0, c1, c2);
    ChangesAreWellFormed(p, t1, c1, one, t2, c2);
    if r2.disconnected == [] {
      assert r1.disconnected == [] && one.disconnected == [];
      assert start + r1.connected + one.connected == start + r2.connected;
    }
  }

  lemma FirstChange(p: Params, t: Tables, chain: seq<Block>, r: SubmitResult, t': Tables, chain': seq<Block>)
    requires Inv(p, t, chain) && Inv(p, t', chain') && ChangedBy(chain, r, chain')
    ensures Accumulates(p, chain, r, chain')
  {
    hide Inv, Ledger.WellFormed, ChangedBy, Undone;
    ChangesAreWellFormed(p, t, chain, r, t', chain');
    DistinctBlocks(p, t, chain);
    UndoneStep(chain, chain, SubmitResult(r.outcome, r.blockId, None, [], []), r, chain', r)
      by { NothingUndone(chain, SubmitResult(r.outcome, r.blockId, None, [], [])); }
  }

  lemma WorkTransitive(a: seq<Block>, b: seq<Block>, c: seq<Block>)
    requires NoLessWork(a, b) && NoLessWork(b, c)
    ensures NoLessWork(a, c)
  {
    hide Work;
  }

  lemma NothingChangesSealed(p: Params, t: Tables, chain: seq<Block>)
    requires Inv(p, t, chain)
    ensures KeepsSealed(p, t, chain, t, chain) && NoLessWork(chain, chain)
  {
    hide ActiveChain.Replay, Ledger.WellFormed, Work, Sound, StoredOk, SealedEnd;
  }
}
