/**
 Where the node does less than its documentation promises, each shown on blocks that exist: submitting raises
 on a fork that sealing has cut, an altered body drops the orphans of the block it imitates, and an orphan
 whose parent arrives in a chunk is never adopted.
 */
module Gaps {
  import opened Types
  import opened ActiveChain
  import opened ChainState
  import opened Receiving
  import opened Switching
  import opened Importing
  import opened Adoption
  import opened Chain
  import opened Delivery
  import Ledger
  import Merkle
  import Snapshot
  import Template

  // --- where submitting raises --------------------------------------------------------------------------

  /** A main chain of three blocks and a fork of two with no more work, all valid, and a block after the fork. */
  ghost predicate LateFork(p: Params, a: seq<Block>, s: seq<Block>, late: Block, now: nat) {
    && ValidParams(p) && p.chunkSize == 2 && p.finalityDepth == 2
    && |a| == 3 && |s| == 2
    && GoodChain(p, [p.genesis] + a) && GoodChain(p, [p.genesis] + s)
    && a[0].Id() != s[0].Id() && Work(s[1].Id()) <= Work(a[1].Id())
    && Submittable(p, a + s, now)
    && late.header.prevId == s[1].Id() && late.header.height == 3 && Ledger.NotInFuture(late.header, now, p)
  }

  /** submit_block is documented never to raise. Sealing the first chunk deletes the fork's first block but
      not its second, and the block after that makes the finality walk run into the gap. */
  method LateForkRaises(p: Params, a: seq<Block>, s: seq<Block>, late: Block, now: nat) returns (r: SubmitResult)
    requires LateFork(p, a, s, late, now)
    ensures r.outcome == Raised
  {
    hide Inv, Replay, Ledger.WellFormed, Step, TargetsBounded, KeepsSealed, NoLessWork, Accumulates, GoodChain,
      SealedEnd, Work, SealedUp, Raises, MeetsFinal, FinalizedHeight, Submittable, ChainManager.PoolOk, ValidChain,
      ValidParams, Ran, Guarded;
    var cm := GrowFork(p, a, s, late, now);
    ghost var t := cm.store.tables;
    Extend(cm, a[2], now);
    ForkIsCut(p, t, cm.store.tables, cm.chain, a, s, late, now);
    r := cm.SubmitBlock(late, now, NoRace());
  }

  /** Up to the second block of the main chain, and both of the fork. */
  method GrowFork(p: Params, a: seq<Block>, s: seq<Block>, ghost late: Block, now: nat) returns (cm: ChainManager)
    requires LateFork(p, a, s, late, now)
    ensures fresh(cm) && fresh(cm.store) && cm.p == p && cm.Good() && cm.PoolOk() && cm.orphans == []
    ensures cm.chain + [a[2]] == [p.genesis] + a && cm.store.tables.sealedChunks == 0
    ensures ValidChain(p, cm.chain + [a[2]]) && Submittable(p, [a[2]], now)
    ensures s[0].Id() in cm.store.tables.headers && s[1].Id() in cm.store.tables.headers
    ensures late.Id() !in cm.store.tables.headers && late.Id() != a[2].Id()
  {
    hide Inv, Replay, Ledger.WellFormed, Step, TargetsBounded, KeepsSealed, NoLessWork, Accumulates, GoodChain,
      SealedEnd, Work, SealedUp, Raises, MeetsFinal, FinalizedHeight, Submittable, ChainManager.PoolOk, ValidChain,
      ValidParams, Ran, Guarded, Apart;
    NothingHeldIsApart();
    ForkFacts(p, a, s, late);
    EachIsSubmittable(p, a, s, now);
    cm := new ChainManager(p);
    ghost var g, t := p.genesis, cm.store.tables;
    assert [g] + [a[0]] == [g, a[0]] && [g, a[0]] + [a[1]] == [g, a[0], a[1]] && [g, a[0], a[1]] + [a[2]] == [g] + a;
    GoodIsValid(p, [g, a[0]]);
    GoodIsValid(p, [g, a[0], a[1]]);
    GoodIsValid(p, [g] + a);
    Extend(cm, a[0], now);
    SealsNothingYet(p, t, cm.store.tables, cm.chain);
    t := cm.store.tables;
    Extend(cm, a[1], now);
    SealsNothingYet(p, t, cm.store.tables, cm.chain);
    GenesisIsStored(p, cm.store.tables, cm.chain);
    GenesisForkMeetsFinal(p, cm.store.tables, cm.chain, g.Id());
    AddSide(cm, s[0], [g, s[0]], now);
    GenesisForkMeetsFinal(p, cm.store.tables, cm.chain, s[0].Id());
    AddSide(cm, s[1], [g, s[0], s[1]], now);
  }

  lemma EachIsSubmittable(p: Params, a: seq<Block>, s: seq<Block>, now: nat)
    requires |a| == 3 && |s| == 2 && Submittable(p, a + s, now)
    ensures forall x :: x in a || x in s ==> Submittable(p, [x], now)
  {
    hide Submittable;
    forall x | x in a + s
      ensures Submittable(p, [x], now)
    {
      OneIsSubmittable(p, a + s, x, now);
    }
    assert forall x :: x in a || x in s ==> x in a + s;
  }

  /** Submit a block that extends the tip. */
  method Extend(cm: ChainManager, b: Block, now: nat)
    requires cm.Good() && cm.PoolOk() && Apart(cm.orphans, [b])
    requires ValidChain(cm.p, cm.chain + [b]) && Submittable(cm.p, [b], now)
    modifies cm, cm.store
    ensures cm.Good() && cm.PoolOk() && cm.orphans == old(cm.orphans) && cm.chain == old(cm.chain) + [b]
    ensures SealedUp(cm.p, old(cm.store.tables), cm.store.tables, cm.chain)
    ensures cm.store.tables.headers.Keys <= old(cm.store.tables).headers.Keys + {b.Id()}
    ensures cm.store.tables.sealedChunks >= old(cm.store.tables).sealedChunks
  {
    hide Inv, Replay, Ledger.WellFormed, TargetsBounded, KeepsFinal, ChangedBy, NoLessWork, KeepsSealed, Accumulates,
      SealedUp, Ran, HasOrphan, Childless;
    ghost var t, c := cm.store.tables, cm.chain;
    assert [b][0] == b;
    var r := cm.SubmitBlock(b, now, NoRace());
    ExtensionIsNewTip(cm.p, t, c, old(cm.orphans), b, now, cm.store.tables, cm.chain, r);
  }

  /** Submit a valid block that has no more work than the tip: it is stored aside. */
  method AddSide(cm: ChainManager, b: Block, ghost c: seq<Block>, now: nat)
    requires cm.Good() && cm.PoolOk() && Apart(cm.orphans, [b])
    requires GoodChain(cm.p, c) && c[|c| - 1] == b && |c| > 1 && Submittable(cm.p, [b], now)
    requires FitsAside(cm.p, cm.store.tables, cm.chain, b)
    modifies cm, cm.store
    ensures cm.Good() && cm.PoolOk() && cm.orphans == old(cm.orphans) && cm.chain == old(cm.chain)
    ensures b.Id() in cm.store.tables.headers && old(cm.store.tables).headers.Keys <= cm.store.tables.headers.Keys
    ensures cm.store.tables.headers.Keys <= old(cm.store.tables).headers.Keys + {b.Id()}
    ensures cm.store.tables.sealedChunks == old(cm.store.tables).sealedChunks
  {
    hide Inv, Replay, Ledger.WellFormed, TargetsBounded, Step, KeepsSealed, NoLessWork, Accumulates, GoodChain,
      MeetsFinal, Ran, HasOrphan, Childless, Work;
    ghost var t := cm.store.tables;
    assert [b][0] == b;
    var r := cm.SubmitBlock(b, now, NoRace());
    GoodArrives(cm.p, t, old(cm.chain), old(cm.orphans), b, c, now, cm.store.tables, cm.chain, r);
  }

  /** The parent is stored on a branch that meets the chain high enough, and there is no more work than the tip's. */
  ghost predicate FitsAside(p: Params, t: Tables, chain: seq<Block>, b: Block) {
    && |t.active.main| > 0 && |chain| > 0
    && b.header.prevId in t.headers && MeetsFinal(p, t, chain, b.header.prevId)
    && Work(b.Id()) <= Work(chain[|chain| - 1].Id())
  }

  /** Up to height 2, with finality 2 and chunks of 2, nothing is sealed. */
  lemma SealsNothingYet(p: Params, t: Tables, t': Tables, chain: seq<Block>)
    requires SealedUp(p, t, t', chain) && |chain| <= 3 && p.finalityDepth == 2 && p.chunkSize == 2
    requires t.sealedChunks == 0
    ensures t'.sealedChunks == 0
  {
    hide LostBetween;
  }

  lemma ForkHeights(p: Params, t: Tables, chain: seq<Block>)
    requires Inv(p, t, chain) && p.finalityDepth == 2 && t.sealedChunks == 0 && |chain| == 3
    ensures |t.active.main| == 3 && FinalizedHeight(p, t) == 0
  {
    hide Inv, Replay;
    InvShape(p, t, chain);
  }

  /** Off the active chain but hanging from its genesis: high enough while nothing above genesis is final. */
  lemma GenesisForkMeetsFinal(p: Params, t: Tables, chain: seq<Block>, id: Digest)
    requires Inv(p, t, chain) && p.finalityDepth == 2 && t.sealedChunks == 0 && |chain| == 3
    requires id in t.headers && id.HeaderHash?
    requires id == p.genesis.Id() || (id.header.height > 0 && id.header.prevId == p.genesis.Id())
    ensures |t.active.main| == 3 && MeetsFinal(p, t, chain, id)
  {
    hide Replay, Ledger.WellFormed, Work, SealedEnd, Sound, StoredOk;
    ForkHeights(p, t, chain);
    ChainShape(p, chain);
    assert OnChain(chain, p.genesis.Id());
    assert chain[0].Id() in t.headers;
    assert Rooted(t, chain, p.genesis.Id());
  }

  /** After sealing the first chunk: the fork's first block is gone, its second is not, and the late block
      meets the condition under which submitting raises. */
  lemma ForkIsCut(p: Params, t: Tables, t': Tables, chain: seq<Block>, a: seq<Block>, s: seq<Block>, late: Block,
                  now: nat)
    requires LateFork(p, a, s, late, now) && Inv(p, t', chain) && chain == [p.genesis] + a
    requires t.sealedChunks == 0 && SealedUp(p, t, t', chain)
    requires s[1].Id() in t.headers && s[0].Id() in t.headers && late.Id() !in t'.headers
    ensures |t'.active.main| > 0 && Raises(p, t', chain, [], late, now)
  {
    hide Inv, Replay, GoodChain, Work, Submittable;
    InvShape(p, t', chain);
    ForkFacts(p, a, s, late);
    assert chain[1] == a[0] && chain[2] == a[1] && chain[3] == a[2];
    assert SealedEnd(p, t') == 2;
    assert LostBetween(chain, s[0].Id(), 0, 2);
    assert !LostBetween(chain, s[1].Id(), 0, 2);
    var c := [p.genesis] + s;
    assert c[|c| - 1] == s[1];
    GoodIsNotInvalid(p, t', chain, c);
  }

  lemma GoodIsNotInvalid(p: Params, t: Tables, chain: seq<Block>, c: seq<Block>)
    requires Inv(p, t, chain) && GoodChain(p, c) && c[|c| - 1].Id() in t.headers
    ensures t.headers[c[|c| - 1].Id()].status != Invalid
  {
    hide Replay, Ledger.WellFormed, Work, SealedEnd, StoredOk, GoodChain;
  }

  lemma ForkFacts(p: Params, a: seq<Block>, s: seq<Block>, late: Block)
    requires |a| == 3 && |s| == 2 && GoodChain(p, [p.genesis] + a) && GoodChain(p, [p.genesis] + s)
    requires a[0].Id() != s[0].Id() && late.header.prevId == s[1].Id() && late.header.height == 3
    ensures s[0].header.height == 1 && s[1].header.height == 2 && s[1].header.prevId == s[0].Id()
    ensures s[0].header.prevId == p.genesis.Id()
    ensures a[0].header.height == 1 && a[1].header.height == 2 && a[2].header.height == 3
    ensures s[1].Id() != a[1].Id() && late.Id() != a[2].Id()
    ensures forall x :: x in {p.genesis, a[0], a[1], s[0], s[1]} ==> late.Id() != x.Id()
    ensures [p.genesis] + a == [p.genesis, a[0], a[1], a[2]] && [p.genesis] + s == [p.genesis, s[0], s[1]]
    ensures GoodChain(p, [p.genesis, a[0]]) && GoodChain(p, [p.genesis, a[0], a[1]]) && GoodChain(p, [p.genesis, s[0]])
    ensures Work(s[0].Id()) <= Work(s[1].Id())
  {
    hide Replay, Ledger.WellFormed, BlockWork;
    var ca, cs := [p.genesis] + a, [p.genesis] + s;
    ChainShape(p, ca);
    ChainShape(p, cs);
    assert ca[1] == a[0] && ca[2] == a[1] && ca[3] == a[2] && cs[1] == s[0] && cs[2] == s[1];
    GoodPrefix(p, ca, 2);
    GoodPrefix(p, ca, 3);
    GoodPrefix(p, cs, 2);
    assert ca[..2] == [p.genesis, a[0]] && ca[..3] == [p.genesis, a[0], a[1]] && cs[..2] == [p.genesis, s[0]];
    WorkOfChild(s[1]);
  }

  lemma OneIsSubmittable(p: Params, blocks: seq<Block>, x: Block, now: nat)
    requires Submittable(p, blocks, now) && x in blocks
    ensures Submittable(p, [x], now)
  {
    hide TargetsBounded;
  }

  lemma GoodIsValid(p: Params, c: seq<Block>)
    requires GoodChain(p, c)
    ensures ValidChain(p, c)
  {
  }

  lemma GenesisIsStored(p: Params, t: Tables, chain: seq<Block>)
    requires Inv(p, t, chain)
    ensures p.genesis.Id() in t.headers && |t.active.main| == |chain|
  {
    hide Replay, Ledger.WellFormed, Work, SealedEnd, Sound, StoredOk;
    ChainShape(p, chain);
    assert chain[0].Id() in t.headers;
  }

  // --- a network to show them on ------------------------------------------------------------------------

  /** The coinbase of an empty block. */
  function Reward(height: nat, miner: Address): Transaction { Coinbase(1, height, miner, 1, []) }

  /** A network where every header meets its target, and targets never change. */
  function Easy(): (p: Params)
    ensures IsEasy(p) && p.chunkSize == 2 && p.finalityDepth == 2
  {
    var txs := [Reward(0, 0)];
    var genesis := Block(Header(BLOCK_VERSION, 0, Raw(0), Merkle.TxRoot(txs), NO_SNAPSHOT, 0, 1, 0), txs);
    Params(1, 1, 1, 100, 2, 2, 1, 1000, 11, 0, genesis, h => 1, h => true, t => true, k => 0)
  }

  ghost predicate IsEasy(p: Params) {
    && ValidParams(p) && p.networkId == 1 && p.powLimit == 1 && p.blockReward == 1 && p.maxBlockSize == 1000
    && (forall h :: p.nextTarget(h) == 1) && (forall h :: p.meetsTarget(h)) && (forall t :: p.validSignature(t))
  }

  /** These transfers make a block's body on top of these accounts, whatever matures meanwhile. */
  ghost predicate Payable(p: Params, state: Accounts, transfers: seq<Transaction>) {
    && Ledger.AllTransfers(transfers) && Ledger.NoRepeats(transfers)
    && (forall t :: t in transfers ==> Ledger.CheckTransaction(t, p).None?)
    && Ledger.SumFees(transfers) == 0 && SumSizes(transfers) <= 500
    && forall s :: Ledger.Normal(s) && Ledger.OnlyRaised(state, s) && Ledger.Total(s) <= MAX_AMOUNT ==>
         Ledger.ApplyTransfers(s, transfers, p).Ok?
  }

  lemma NoneIsPayable(p: Params, state: Accounts)
    ensures Payable(p, state, [])
  {
  }

  /** Any miner can put such a block on top of a good chain. */
  lemma NextExtends(p: Params, c: seq<Block>, miner: Address, transfers: seq<Transaction>) returns (b: Block)
    requires IsEasy(p) && GoodChain(p, c) && |c| < 100 && miner < 2
    requires Payable(p, Replay(p, c).value.accounts, transfers)
    ensures GoodChain(p, c + [b]) && b.header.prevId == c[|c| - 1].Id() && b.header.height == |c|
    ensures b.txs == [Reward(|c|, miner)] + transfers && b.header.target == 1
  {
    hide Replay, Merkle.TxRoot, ContextFor, Template.Unmined, Ledger.CheckBlock, Minted, Ledger.Total,
      Ledger.CheckTransaction, Ledger.ApplyTransfers, Ledger.CreditMatured, Ledger.OnlyRaised;
    ContextIsDefined(p, c);
    ChainShape(p, c);
    var ctx := ContextFor(p, c, Replay(p, c).value).value;
    b := Template.Unmined(p, ctx, miner, 0, [], transfers);
    Template.UnminedIsWellFormed(p, ctx, miner, 0, [], transfers) by { SmallReward(p, miner); }
    SmallMint(p, |c|);
    Template.MaturedFits(p, c, ctx);
    Template.UnminedApplies(p, ctx, Replay(p, c).value.accounts, miner, 0, [], transfers);
    Template.ConnectsIfApplies(p, c, b);
    UnminedFields(p, c, ctx, miner, transfers);
  }

  lemma EmptyExtends(p: Params, c: seq<Block>, miner: Address) returns (b: Block)
    requires IsEasy(p) && GoodChain(p, c) && |c| < 100 && miner < 2
    ensures GoodChain(p, c + [b]) && b.header.prevId == c[|c| - 1].Id() && b.header.height == |c|
    ensures b.txs == [Reward(|c|, miner)] && b.header.target == 1
  {
    hide IsEasy, GoodChain, Payable, Replay;
    ChainIsValid(p, c);
    NoneIsPayable(p, Replay(p, c).value.accounts);
    b := NextExtends(p, c, miner, []);
  }

  lemma ChainIsValid(p: Params, c: seq<Block>)
    requires GoodChain(p, c)
    ensures ValidParams(p) && |c| > 0 && Replay(p, c).Ok?
  {
  }

  lemma SmallReward(p: Params, miner: Address)
    requires miner < 2
    ensures Ledger.KnownPayload(miner) && 1 <= MAX_AMOUNT && HEADER_SIZE + 4 + 41 + 500 <= 1000
  {
  }

  lemma SmallMint(p: Params, n: nat)
    requires p.blockReward == 1 && n < 100
    ensures Minted(p, n) <= MAX_AMOUNT
  {
  }

  lemma UnminedFields(p: Params, c: seq<Block>, ctx: Ledger.Context, miner: Address, transfers: seq<Transaction>)
    requires IsEasy(p) && GoodChain(p, c) && ContextFor(p, c, Replay(p, c).value) == Ok(ctx)
    requires ctx.parent == c[|c| - 1].header && ctx.parent.height + 1 == |c|
    requires Ledger.AllTransfers(transfers) && Ledger.SumFees(transfers) == 0
    requires ValidChain(p, c + [Template.Unmined(p, ctx, miner, 0, [], transfers)])
    ensures var b := Template.Unmined(p, ctx, miner, 0, [], transfers);
      && GoodChain(p, c + [b]) && b.header.prevId == c[|c| - 1].Id() && b.header.height == |c|
      && b.txs == [Reward(|c|, miner)] + transfers && b.header.target == 1
  {
    hide Replay, Merkle.TxRoot;
  }

  lemma GenesisIsGood(p: Params)
    requires ValidParams(p)
    ensures GoodChain(p, [p.genesis])
  {
  }

  lemma RewardsDiffer(b: Block, c: Block)
    requires Ledger.WellFormed(b, Easy()) && Ledger.WellFormed(c, Easy())
    requires b.txs == [Reward(1, 0)] && c.txs == [Reward(1, 1)]
    ensures b.Id() != c.Id()
  {
    hide Ledger.WellFormed, Easy;
    if b.Id() == c.Id() { Ledger.SameIdSameBlock(b, c, Easy()); }
  }

  /** Two empty blocks on genesis by different miners, and another on each. */
  lemma TwoBranches() returns (a: seq<Block>, s: seq<Block>)
    ensures |a| == 2 && |s| == 2 && GoodChain(Easy(), [Easy().genesis] + a) && GoodChain(Easy(), [Easy().genesis] + s)
    ensures a[0].Id() != s[0].Id() && Work(s[1].Id()) == Work(a[1].Id())
    ensures forall x :: x in a + s ==> x.header.target == 1
  {
    hide Easy, GoodChain, Work;
    var p := Easy();
    var g := [p.genesis];
    GenesisIsGood(p);
    var a1 := EmptyExtends(p, g, 0);
    var s1 := EmptyExtends(p, g, 1);
    var a2 := EmptyExtends(p, g + [a1], 0);
    var s2 := EmptyExtends(p, g + [s1], 1);
    a, s := [a1, a2], [s1, s2];
    assert g + [a1] + [a2] == g + a && g + [s1] + [s2] == g + s;
    GoodTipIsChecked(p, g + [a1]);
    GoodTipIsChecked(p, g + [s1]);
    RewardsDiffer(a1, s1);
    WorkOfChild(a1);
    WorkOfChild(a2);
    WorkOfChild(s1);
    WorkOfChild(s2);
  }

  function Latest(blocks: seq<Block>): (r: nat)
    ensures forall x :: x in blocks ==> x.header.timestamp <= r
  {
    if blocks == [] then 0 else Max(blocks[0].header.timestamp, Latest(blocks[1..]))
  }

  lemma AllSubmittable(p: Params, blocks: seq<Block>, now: nat)
    requires IsEasy(p) && now >= Latest(blocks) && forall x :: x in blocks ==> x.header.target == 1
    ensures Submittable(p, blocks, now)
  {
  }

  /** There is such a fork. */
  lemma LateForkExists() returns (a: seq<Block>, s: seq<Block>, late: Block, now: nat)
    ensures LateFork(Easy(), a, s, late, now)
  {
    hide Easy, GoodChain, Work, Submittable;
    var p := Easy();
    var b;
    b, s := TwoBranches();
    var b3 := EmptyExtends(p, [p.genesis] + b, 0);
    a := b + [b3];
    assert [p.genesis] + b + [b3] == [p.genesis] + a;
    late := Block(Header(BLOCK_VERSION, 3, s[1].Id(), Raw(0), Raw(0), 0, 1, 0), []);
    now := Latest(a + s);
    AllSubmittable(p, a + s, now);
  }

  // --- an altered body -------------------------------------------------------------------------------------

  /** Two good blocks, and the first one's header over a body that breaks a rule. */
  ghost predicate Imitated(p: Params, a: seq<Block>, altered: Block, now: nat) {
    && |a| == 2 && GoodChain(p, [p.genesis] + a) && Submittable(p, a, now)
    && altered.header == a[0].header && !Ledger.WellFormed(altered, p)
  }

  lemma ImitationExists() returns (a: seq<Block>, altered: Block, now: nat)
    ensures Imitated(Easy(), a, altered, now) && Easy().meetsTarget(Easy().genesis.header)
  {
    assert Easy().meetsTarget(Easy().genesis.header);
    hide Easy, GoodChain, Work, Submittable;
    var s;
    a, s := TwoBranches();
    altered := Block(a[0].header, []);
    now := Latest(a);
    AllSubmittable(Easy(), a, now);
  }

  /** Whatever the node's state: submitting a block that breaks a stateless rule loses a held block exactly if that
      hangs from its id, directly or through other held blocks, unless the id is known already or the call raises. */
  method MalformedTakesAlong(cm: ChainManager, b: Block, now: nat) returns (r: SubmitResult)
    requires cm.Good() && cm.PoolOk() && !Ledger.WellFormed(b, cm.p)
    modifies cm, cm.store
    ensures cm.Good() && cm.PoolOk() && cm.chain == old(cm.chain) && |old(cm.store.tables).active.main| > 0
    ensures forall o :: o in cm.orphans ==> o in old(cm.orphans)
    ensures forall held :: held in old(cm.orphans) ==>
      (held in cm.orphans
       <==> (|| !HangsBelow(old(cm.orphans), b.Id(), held.Id())
             || IsKnown(old(cm.store.tables), old(cm.orphans), b.Id())
             || Raises(cm.p, old(cm.store.tables), old(cm.chain), old(cm.orphans), b, now)))
  {
    hide Inv, Ledger.WellFormed, KeepsSealed, NoLessWork, Accumulates, Ran, Raises, IsKnown, HangsBelow, Step, Guarded,
      ChainManager.PoolOk, PoolAfter, OnTime, Fair;
    ghost var t, was, pool := cm.store.tables, cm.chain, cm.orphans;
    r := cm.SubmitBlock(b, now, NoRace());
    MalformedIsNotAdded(cm.p, t, was, pool, b, now, cm.store.tables, cm.chain, cm.orphans, r);
    PoolAfterIs(pool, b, r.outcome);
    OutcomeOfMalformed(cm.p, t, was, pool, b, now, cm.store.tables, cm.chain, r);
  }

  lemma MalformedIsNotAdded(p: Params, t: Tables, chain: seq<Block>, orphans: seq<Block>, b: Block, now: nat,
                            t': Tables, chain': seq<Block>, orphans': seq<Block>, r: SubmitResult)
    requires Inv(p, t, chain) && Ran(p, t, chain, orphans, b, now, t', chain', orphans', r)
    requires !Ledger.WellFormed(b, p)
    ensures !Adds(r.outcome)
  {
    hide Inv, Reached, Ledger.WellFormed, NoLessWork, KeepsFinal, ChangedBy, SealedUp, Refused, PrunedAbove,
      FinalizedHeight, Rooted;
    var run :| IsRun(p, t, chain, orphans, b, now, run, t', chain', orphans', r);
    NewBlockIsChecked(p, t, chain, orphans, b, now, run.t, run.chain, run.first);
    GenesisIsStored(p, t, chain);
  }

  lemma OutcomeOfMalformed(p: Params, t: Tables, chain: seq<Block>, orphans: seq<Block>, b: Block, now: nat,
                           t': Tables, chain': seq<Block>, r: SubmitResult)
    requires |t.active.main| > 0 && Step(p, t, chain, orphans, b, now, t', chain', r)
    requires !Ledger.WellFormed(b, p) && !Adds(r.outcome)
    ensures r.outcome == Rejected || r.outcome == Duplicate || r.outcome == Raised
    ensures r.outcome == Duplicate <==> IsKnown(t, orphans, b.Id())
  {
    hide Ledger.WellFormed, NoLessWork, KeepsFinal, ChangedBy, SealedUp, Refused, PrunedAbove, FinalizedHeight,
      Rooted, IsKnown;
  }

  /** Its second block held, a node is sent the altered first block and then the right one. The altered block is
      turned away and takes the held block with it: the node ends up without a block of the best chain that it
      was sent, which Delivery.Deserves therefore has to exclude. */
  method AlteredBodyDrops(p: Params, a: seq<Block>, altered: Block, now: nat) returns (cm: ChainManager)
    requires Imitated(p, a, altered, now)
    ensures fresh(cm) && cm.Good() && cm.PoolOk() && cm.chain == [p.genesis, a[0]] && cm.orphans == []
  {
    hide Inv, Replay, Ledger.WellFormed, Step, TargetsBounded, KeepsSealed, NoLessWork, Accumulates, GoodChain, Work,
      Ran, Raises, ChainManager.PoolOk, Guarded, Submittable, IsKnown, HangsBelow, Apart;
    TwoFacts(p, a, now);
    cm := Holding(p, a, now);
    ghost var t, held := cm.store.tables, cm.orphans;
    var r := MalformedTakesAlong(cm, altered, now);
    AlteredIsUnknown(p, t, [p.genesis], held, a, altered, now);
    SomethingIn(cm.orphans);
    NothingHeldIsApart();
    Extend(cm, a[0], now);
  }

  lemma NothingHeldIsApart()
    ensures forall blocks :: Apart([], blocks)
  {
  }

  /** A new node that is sent the second block first. */
  method Holding(p: Params, a: seq<Block>, now: nat) returns (cm: ChainManager)
    requires |a| == 2 && GoodChain(p, [p.genesis] + a) && Submittable(p, a, now)
    ensures fresh(cm) && fresh(cm.store) && cm.p == p && cm.Good() && cm.PoolOk()
    ensures cm.chain == [p.genesis] && cm.store.tables.sealedChunks == 0
    ensures cm.store.tables.headers.Keys == {p.genesis.Id()}
    ensures a[1] in cm.orphans && forall o :: o in cm.orphans ==> o == a[1]
  {
    hide Inv, Replay, Ledger.WellFormed, Step, TargetsBounded, KeepsSealed, NoLessWork, Accumulates, GoodChain, Work,
      Ran, Raises, ChainManager.PoolOk, Guarded, Submittable;
    TwoFacts(p, a, now);
    cm := new ChainManager(p);
    ghost var t := cm.store.tables;
    var r := cm.SubmitBlock(a[1], now, NoRace());
    EarlyIsHeld(p, t, [p.genesis], a, now, cm.store.tables, cm.chain, r);
  }

  lemma TwoFacts(p: Params, a: seq<Block>, now: nat)
    requires |a| == 2 && GoodChain(p, [p.genesis] + a) && Submittable(p, a, now)
    ensures ValidParams(p) && GoodChain(p, [p.genesis, a[0]]) && ValidChain(p, [p.genesis] + [a[0]])
    ensures a[0].header.height == 1 && a[0].header.prevId == p.genesis.Id()
    ensures a[1].header.height == 2 && a[1].header.prevId == a[0].Id()
    ensures a[0].Id() != p.genesis.Id() && a[1].Id() != p.genesis.Id() && a[1].Id() != a[0].Id()
    ensures Submittable(p, [a[0]], now) && Submittable(p, [a[1]], now)
  {
    hide Replay, Ledger.WellFormed, TargetsBounded;
    var c := [p.genesis] + a;
    ChainShape(p, c);
    assert c[1] == a[0] && c[2] == a[1];
    GoodPrefix(p, c, 2);
    assert c[..2] == [p.genesis, a[0]] == [p.genesis] + [a[0]];
  }

  lemma EarlyIsHeld(p: Params, t: Tables, chain: seq<Block>, a: seq<Block>, now: nat, t': Tables, chain': seq<Block>,
                    r: SubmitResult)
    requires |a| == 2 && GoodChain(p, [p.genesis] + a) && Submittable(p, a, now)
    requires t.headers.Keys == {p.genesis.Id()} && |t.active.main| > 0
    requires Step(p, t, chain, [], a[1], now, t', chain', r)
    ensures r.outcome == Orphan && t' == t && chain' == chain
  {
    hide Replay, Ledger.CheckBlock, NoLessWork, KeepsFinal, ChangedBy, FinalizedHeight, PrunedAbove, SealedUp, Work,
      TargetsBounded;
    TwoFacts(p, a, now);
    var c := [p.genesis] + a;
    assert c[|c| - 1] == a[1];
    GoodTipIsChecked(p, c);
  }

  lemma AlteredIsUnknown(p: Params, t: Tables, chain: seq<Block>, orphans: seq<Block>, a: seq<Block>, altered: Block,
                         now: nat)
    requires Imitated(p, a, altered, now) && |t.active.main| > 0 && chain == [p.genesis]
    requires t.headers.Keys == {p.genesis.Id()} && forall o :: o in orphans ==> o == a[1]
    ensures HangsBelow(orphans, altered.Id(), a[1].Id())
    ensures !IsKnown(t, orphans, altered.Id()) && !Raises(p, t, chain, orphans, altered, now)
  {
    hide Ledger.WellFormed, GoodChain, Submittable, FinalizedHeight;
    TwoFacts(p, a, now);
    assert altered.Id() == a[0].Id();
    assert p.genesis.header.height == 0;
    assert OnChain(chain, p.genesis.Id());
  }

  // --- an orphan whose parent arrives in a chunk ---------------------------------------------------------------

  lemma FirstChunk(p: Params, a: seq<Block>, chunk: CheckedChunk, now: nat)
    requires |a| == 2 && GoodChain(p, [p.genesis] + a) && Submittable(p, a, now)
    requires p.chunkSize == 2 && p.meetsTarget(p.genesis.header) && chunk == CheckedChunk(0, [p.genesis, a[0]])
    ensures IsChunk(p, chunk) && Continues(p, [p.genesis], chunk, [a[0]])
  {
    hide Replay;
    TwoFacts(p, a, now);
    GoodIsValid(p, [p.genesis, a[0]]);
    assert p.genesis.header.height == 0 by { ChainShape(p, [p.genesis, a[0]]); }
    assert chunk.blocks[1..] == [a[0]];
  }

  lemma OneContinuation(p: Params, a: seq<Block>, chunk: CheckedChunk, now: nat, added: seq<Block>)
    requires |a| == 2 && GoodChain(p, [p.genesis] + a) && Submittable(p, a, now)
    requires chunk == CheckedChunk(0, [p.genesis, a[0]]) && Continues(p, [p.genesis], chunk, added)
    ensures added == [a[0]] && [p.genesis] + added == [p.genesis, a[0]]
  {
    hide Replay, ValidChain, GoodChain, Submittable, OnChain;
    TwoFacts(p, a, now);
    assert p.genesis.header.height == 0 by { GoodIsValid(p, [p.genesis, a[0]]); ChainShape(p, [p.genesis, a[0]]); }
    assert OnChain([p.genesis], p.genesis.Id()) && !OnChain([p.genesis], a[0].Id()) by { OnGenesis(p, a[0]); }
    assert chunk.blocks[1..] == [a[0]] && chunk.blocks[0..] == chunk.blocks;
    assert chunk.blocks[1] == a[0];
  }

  lemma OnGenesis(p: Params, b: Block)
    requires p.genesis.header.height == 0 && b.header.height == 1
    ensures OnChain([p.genesis], p.genesis.Id()) && !OnChain([p.genesis], b.Id())
  {
  }

  /** Held, not stored, though its parent is. */
  ghost predicate Stranded(t: Tables, orphans: seq<Block>, o: Block) {
    o in orphans && o.Id() !in t.headers && o.header.prevId in t.headers
  }

  /** Which held blocks an import leaves stranded: exactly those neither stored nor imported whose parent was stored
      before or came with the chunk. All of them stay held. */
  method ImportStrands(cm: ChainManager, chunk: CheckedChunk) returns (imported: Result<seq<Block>>)
    requires cm.Good() && cm.PoolOk() && IsChunk(cm.p, chunk)
    modifies cm, cm.store
    ensures cm.Good() && cm.PoolOk() && cm.orphans == old(cm.orphans)
    ensures imported.Err? ==> cm.store.tables == old(cm.store.tables)
    ensures imported.Ok? ==>
      && Continues(cm.p, old(cm.chain), chunk, imported.value)
      && forall o :: o in cm.orphans ==>
        (Stranded(cm.store.tables, cm.orphans, o) <==> LeftBehind(old(cm.store.tables), imported.value, o))
  {
    hide Inv, IsChunk, Continues;
    imported := cm.ApplyChunk(chunk);
  }

  /** A block that is neither stored nor imported, its parent stored or imported. */
  ghost predicate LeftBehind(t: Tables, added: seq<Block>, o: Block) {
    && o.Id() !in t.headers && o.Id() !in IdsOf(added)
    && (o.header.prevId in t.headers || o.header.prevId in IdsOf(added))
  }

  /** Neither sending a stranded block again nor sending its parent again changes anything. */
  lemma StrandedStays(p: Params, t: Tables, chain: seq<Block>, orphans: seq<Block>, o: Block, b: Block, now: nat,
                      t': Tables, chain': seq<Block>, orphans': seq<Block>, r: SubmitResult)
    requires Stranded(t, orphans, o) && t.headers[o.header.prevId].status != Invalid
    requires b.Id() == o.Id() || b.Id() == o.header.prevId
    requires Ran(p, t, chain, orphans, b, now, t', chain', orphans', r)
    ensures r.outcome == Duplicate && t' == t && chain' == chain && orphans' == orphans
  {
    hide Inv, NoLessWork, KeepsFinal, ChangedBy, Grown, FinalizedHeight, Refused, SealedUp, Rooted, PrunedAbove,
      Reached, HangsBelow;
    assert HasOrphan(orphans, o.Id());
    var run :| IsRun(p, t, chain, orphans, b, now, run, t', chain', orphans', r);
    RanAlone(p, t, chain, orphans, b, now, t', chain', orphans', r);
  }

  /** The tip of a good chain with more work than the active chain is not stored. */
  lemma HeavierIsNew(p: Params, t: Tables, chain: seq<Block>, c: seq<Block>)
    requires Inv(p, t, chain) && |chain| > 0 && GoodChain(p, c)
    requires Work(c[|c| - 1].Id()) > Work(chain[|chain| - 1].Id())
    ensures c[|c| - 1].Id() !in t.headers
  {
    hide Replay, Ledger.WellFormed, SealedEnd, Work;
    assert c[|c| - 1].Id() in t.headers ==> StoredOk(p, t, c[|c| - 1].Id());
  }

  lemma HeavierIsNotStored(p: Params, t: Tables, chain: seq<Block>, a: seq<Block>, now: nat)
    requires |a| == 2 && GoodChain(p, [p.genesis] + a) && Submittable(p, a, now)
    requires Inv(p, t, chain) && chain == [p.genesis, a[0]]
    ensures a[1].Id() !in t.headers
  {
    hide Inv, Work, TargetsBounded, GoodChain;
    TwoFacts(p, a, now);
    WorkOfChild(a[1]);
    assert BlockWork(a[1].header.target) >= 1;
    var c := [p.genesis] + a;
    assert c[|c| - 1] == a[1];
    HeavierIsNew(p, t, chain, c);
  }

  /** A node holds the block after the first chunk, imports that chunk, and is sent the block again: it knows the
      block already, and neither adopts it nor takes it anew. */
  method ImportStrandsOrphan(p: Params, a: seq<Block>, now: nat) returns (cm: ChainManager, r: SubmitResult)
    requires |a| == 2 && GoodChain(p, [p.genesis] + a) && Submittable(p, a, now)
    requires p.chunkSize == 2 && p.meetsTarget(p.genesis.header)
    ensures fresh(cm) && cm.Good() && cm.PoolOk() && cm.p == p
    ensures r.outcome == Duplicate && cm.chain == [p.genesis, a[0]]
    ensures a[1] in cm.orphans && a[1].header.prevId == a[0].Id() && a[1].Id() !in cm.store.tables.headers
  {
    hide Inv, Replay, Ledger.WellFormed, Step, TargetsBounded, KeepsSealed, NoLessWork, Accumulates, GoodChain, Work,
      Ran, Raises, Guarded, Submittable, Continues, DistinctIds, BlockSize, IsChunk;
    TwoFacts(p, a, now);
    cm := Holding(p, a, now);
    var chunk := CheckedChunk(0, [p.genesis, a[0]]);
    FirstChunk(p, a, chunk, now);
    assert Continues(p, cm.chain, chunk, [a[0]]);
    var imported := cm.ApplyChunk(chunk);
    OneContinuation(p, a, chunk, now, imported.value);
    HeavierIsNotStored(p, cm.store.tables, cm.chain, a, now);
    FirstIsValid(p, cm.store.tables, cm.chain, a);
    ghost var u, was, held := cm.store.tables, cm.chain, cm.orphans;
    r := cm.SubmitBlock(a[1], now, NoRace());
    StrandedStays(p, u, was, held, a[1], a[1], now, cm.store.tables, cm.chain, cm.orphans, r);
  }

  lemma FirstIsValid(p: Params, t: Tables, chain: seq<Block>, a: seq<Block>)
    requires |a| == 2 && Inv(p, t, chain) && chain == [p.genesis, a[0]]
    ensures a[0].Id() in t.headers && t.headers[a[0].Id()].status == Valid
  {
    hide Replay, Ledger.WellFormed, Work, SealedEnd, Sound, StoredOk;
    assert chain[1] == a[0];
  }
}
