/**
 Runs of submissions: whatever the order blocks arrive in, the same chain ends up active; and a
 chunk imported whole leaves what its blocks leave when submitted one by one.
 */
module Delivery {
  import opened Types
  import opened ActiveChain
  import opened ChainState
  import opened Receiving
  import opened Switching
  import opened Importing
  import opened Chain
  import opened Adoption
  import Ledger

  // --- delivery order ---------------------------------------------------------------------------

  /** Every block that can be part of the active chain: stored, held or delivered. */
  ghost function World(t: Tables, orphans: seq<Block>, order: seq<Block>): set<Block> {
    (set id | id in t.headers :: t.headers[id].block) + SetOf(orphans) + SetOf(order)
  }

  /** A chain that passes every rule and whose blocks are all there, with strictly more work than any other. */
  ghost predicate Heaviest(p: Params, world: set<Block>, best: seq<Block>) {
    && GoodChain(p, best) && FromWorld(world, best)
    && forall c: seq<Block> :: GoodChain(p, c) && FromWorld(world, c) && c != best ==>
         Work(c[|c| - 1].Id()) < Work(best[|best| - 1].Id())
  }

  /** The winner's blocks are not ahead of the clock from their arrival on. */
  ghost predicate Timely(p: Params, orphans: seq<Block>, order: seq<Block>, clock: seq<nat>, best: seq<Block>) {
    && |clock| == |order|
    && (forall k, i :: 0 <= k <= i < |order| && order[k] in best ==> Ledger.NotInFuture(order[k].header, clock[i], p))
    && (forall o, i :: 0 <= i < |order| && o in orphans && o in best ==> Ledger.NotInFuture(o.header, clock[i], p))
  }

  /** Finality does not get in the way: the winner goes through what is sealed, and no other chain runs on for
      more than `finalityDepth` blocks after it leaves the winner. */
  ghost predicate NoCutoff(p: Params, t: Tables, chain: seq<Block>, world: set<Block>, best: seq<Block>) {
    Agree(best, chain, SealedEnd(p, t)) && CloseTo(p, world, best)
  }

  /** If a header of the winner's arrives over another body, the right block is there already, or the winner's next
      block is not waiting for it. */
  ghost predicate Untainted(t: Tables, held: seq<Block>, order: seq<Block>, best: seq<Block>) {
    forall k, i :: 0 <= k < |order| && 0 < i < |best| && best[i].Id() == order[k].Id() && best[i] != order[k] ==>
      || best[i].Id() in t.headers || best[i] in held || best[i] in order[..k]
      || i + 1 == |best| || (best[i + 1] !in held && best[i + 1] !in order[..k])
  }

  /** `best` deserves to win on this node once these blocks have arrived. No held block of its has its parent
      stored already, and no altered body arrives in place of one of its blocks while the next one is waiting. */
  ghost predicate Deserves(p: Params, t: Tables, chain: seq<Block>, orphans: seq<Block>, order: seq<Block>,
                           clock: seq<nat>, best: seq<Block>) {
    var world := World(t, orphans, order);
    && TargetsBounded(p)
    && Heaviest(p, world, best) && NoCutoff(p, t, chain, world, best) && Timely(p, orphans, order, clock, best)
    && QuietExcept(t, orphans, best, {}) && Untainted(t, orphans, order, best)
  }

  /** Deliver blocks in some order, to a node in any state: unless an orphan was pushed out for want of room, the
      chain that deserves to win is active in the end. */
  method Deliver(cm: ChainManager, order: seq<Block>, clock: seq<nat>, ghost best: seq<Block>) returns (crowded: bool)
    requires cm.Good() && cm.PoolOk()
    requires Deserves(cm.p, cm.store.tables, cm.chain, cm.orphans, order, clock, best)
    modifies cm, cm.store
    ensures cm.Good() && cm.PoolOk()
    ensures !crowded ==> cm.chain == best
    ensures old(Roomy(|cm.orphans| + |order|, cm.orphanBytes + SumBlockSizes(order))) ==> !crowded
  {
    hide Inv, ValidParams, Ledger.WellFormed, Ledger.NotInFuture, BlockSize, Guarded, KeepsSealed, NoLessWork,
      Accumulates, Step, TargetsBounded, Deserves, Raises, Roomy, ChainManager.PoolOk, ChainManager.HasRoomFor,
      Starting, Arrived, SumBlockSizes, Ran, Childless, OnTime, Fair, PoolAfter, HasOrphan, Heaviest, Timely, NoCutoff;
    ghost var t, was, held := cm.store.tables, cm.chain, cm.orphans;
    ghost var bytes := cm.orphanBytes;
    ghost var g := Starting(cm.p, t, held, order, best);
    cm.HeldAreChecked();
    StartsGuarded(cm.p, t, was, held, order, clock, best);
    NoneArrived(cm.p, t, held, order, best);
    crowded := false;
    for i := 0 to |order|
      invariant cm.Good() && cm.PoolOk()
      invariant g.best == best && Arrived(cm.p, t, held, order, g, i, cm.orphans)
      invariant !crowded ==> Guarded(cm.p, cm.store.tables, cm.chain, cm.orphans, g, {})
      invariant |cm.orphans| <= |held| + i && cm.orphanBytes <= bytes + SumBlockSizes(order[..i])
      invariant Roomy(|held| + |order|, bytes + SumBlockSizes(order)) ==> !crowded
    {
      var b := order[i];
      SizeOfOneMore(order, i);
      ArrivalIsOnTime(cm.p, t, was, held, order, clock, best, cm.orphans, i, g);
      if !crowded {
        ArrivalIsFair(cm.p, t, was, held, order, clock, best, cm.store.tables, cm.chain, cm.orphans, i, g);
      }
      var room := cm.HasRoomFor(b);
      ghost var pool := cm.orphans;
      RoomForNext(cm, order, i, |held|, bytes);
      var r := cm.SubmitBlock(b, clock[i], g);
      crowded := crowded || (!room && r.outcome == Orphan);
      OneMoreArrived(cm.p, t, held, order, g, i, pool, cm.orphans);
      g := With(g, b);
    }
    if !crowded {
      AllHaveArrived(cm.p, t, was, held, order, clock, g, cm.orphans);
      WinnerIsActive(cm.p, cm.store.tables, cm.chain, cm.orphans, g);
    }
  }

  /** Two nodes, whatever each had before and in whatever order each hears of the rest: where the same chain
      deserves to win on both, they end up with the same accounts, undo data, snapshots and indexes. */
  method DeliverToBoth(a: ChainManager, b: ChainManager, orderA: seq<Block>, clockA: seq<nat>, orderB: seq<Block>,
                       clockB: seq<nat>, ghost best: seq<Block>) returns (crowded: bool)
    requires a.Good() && a.PoolOk() && b.Good() && b.PoolOk() && a.p == b.p && {a, a.store} !! {b, b.store}
    requires Deserves(a.p, a.store.tables, a.chain, a.orphans, orderA, clockA, best)
    requires Deserves(b.p, b.store.tables, b.chain, b.orphans, orderB, clockB, best)
    modifies a, a.store, b, b.store
    ensures a.Good() && b.Good()
    ensures !crowded ==> a.chain == b.chain == best && a.store.tables.active == b.store.tables.active
  {
    hide Inv, Deserves, ChainManager.PoolOk;
    var crowdedA := Deliver(a, orderA, clockA, best);
    var crowdedB := Deliver(b, orderB, clockB, best);
    crowded := crowdedA || crowdedB;
    if !crowded { SameChainSameTables(a.p, a.store.tables, b.store.tables, best); }
  }

  /** So many orphans of so many bytes fit. */
  ghost predicate Roomy(held: nat, bytes: nat) {
    held <= MAX_ORPHANS && bytes <= MAX_ORPHAN_BYTES
  }

  /** What is there of the winner before anything is delivered. */
  ghost function Starting(p: Params, t: Tables, orphans: seq<Block>, order: seq<Block>, best: seq<Block>): Race {
    Race(best, World(t, orphans, order), set x | x in best && (x.Id() in t.headers || x in orphans))
  }

  lemma StartsGuarded(p: Params, t: Tables, chain: seq<Block>, orphans: seq<Block>, order: seq<Block>,
                      clock: seq<nat>, best: seq<Block>)
    requires Inv(p, t, chain) && Deserves(p, t, chain, orphans, order, clock, best)
    requires forall o :: o in orphans ==> Ledger.WellFormed(o, p)
    ensures Guarded(p, t, chain, orphans, Starting(p, t, orphans, order, best), {})
  {
    hide Replay, Ledger.WellFormed, Ledger.NotInFuture, Work, SealedEnd, Sound, TargetsBounded, GoodChain, CloseTo,
      Agree, QuietExcept, Untainted;
    var world := World(t, orphans, order);
    forall id | id in t.headers
      ensures id == p.genesis.Id() || Known(p, world, id)
    {
      assert StoredOk(p, t, id);
      assert t.headers[id].block in world;
    }
  }

  lemma ArrivalIsOnTime(p: Params, t: Tables, chain: seq<Block>, held: seq<Block>, order: seq<Block>, clock: seq<nat>,
                        best: seq<Block>, orphans: seq<Block>, i: nat, g: Race)
    requires Deserves(p, t, chain, held, order, clock, best) && i < |order|
    requires g.best == best && Arrived(p, t, held, order, g, i, orphans)
    ensures |clock| == |order| && order[i] in g.world && OnTime(p, orphans, g.best, clock[i])
    ensures order[i] in g.best ==> Ledger.NotInFuture(order[i].header, clock[i], p)
  {
    hide Heaviest, NoCutoff, QuietExcept, Untainted, TargetsBounded, Ledger.NotInFuture;
    forall o | o in orphans && o in best
      ensures Ledger.NotInFuture(o.header, clock[i], p)
    {
      if o !in held {
        var k :| 0 <= k < |order[..i]| && order[..i][k] == o;
        assert order[k] == o;
      }
    }
  }

  /** While no orphan was pushed out, every block that arrives is fair. */
  lemma ArrivalIsFair(p: Params, t: Tables, chain: seq<Block>, held: seq<Block>, order: seq<Block>, clock: seq<nat>,
                      best: seq<Block>, t': Tables, chain': seq<Block>, orphans: seq<Block>, i: nat, g: Race)
    requires Deserves(p, t, chain, held, order, clock, best) && i < |order|
    requires g.best == best && Arrived(p, t, held, order, g, i, orphans)
    requires Inv(p, t', chain') && Guarded(p, t', chain', orphans, g, {})
    ensures |clock| == |order| && Fair(p, t', orphans, g, order[i], clock[i])
  {
    hide Heaviest, NoCutoff, QuietExcept, TargetsBounded, Ledger.NotInFuture, Inv, GoodChain, CloseTo, Agree, SealedEnd,
      OnlyKnown, Timely, World;
    ArrivalIsOnTime(p, t, chain, held, order, clock, best, orphans, i, g);
    var b := order[i];
    forall j | 0 < j < |best| && best[j].Id() == b.Id() && best[j] != b
      ensures IsKnown(t', orphans, b.Id()) || j + 1 == |best| || best[j + 1] !in orphans
    {
      BestIsNotInvalid(p, t', chain', best, j);
      if best[j].Id() in t.headers || best[j] in held || best[j] in order[..i] {
        assert best[j] in g.got;
      }
    }
  }

  lemma {:induction false} PrefixSize(order: seq<Block>, n: nat)
    requires n <= |order|
    ensures SumBlockSizes(order[..n]) <= SumBlockSizes(order)
    decreases |order| - n
  {
    hide BlockSize;
    if n < |order| {
      PrefixSize(order, n + 1);
      AppendSize(order[..n], order[n]);
      assert order[..n + 1] == order[..n] + [order[n]];
    } else {
      assert order[..n] == order;
    }
  }

  lemma RoomForNext(cm: ChainManager, order: seq<Block>, i: nat, held: nat, bytes: nat)
    requires i < |order| && |cm.orphans| <= held + i && cm.orphanBytes <= bytes + SumBlockSizes(order[..i])
    ensures Roomy(held + |order|, bytes + SumBlockSizes(order)) ==> cm.HasRoomFor(order[i])
  {
    hide BlockSize;
    SizeOfOneMore(order, i);
    PrefixSize(order, i + 1);
  }

  /** The first `i` blocks have arrived. */
  ghost predicate Arrived(p: Params, t: Tables, held: seq<Block>, order: seq<Block>, g: Race, i: nat,
                          orphans: seq<Block>) {
    && i <= |order| && g.world == World(t, held, order)
    && (forall o :: o in orphans ==> o in held || o in order[..i])
    && (forall k :: 0 <= k < i && order[k] in g.best ==> order[k] in g.got)
    && (forall x :: x in Starting(p, t, held, order, g.best).got ==> x in g.got)
  }

  lemma NoneArrived(p: Params, t: Tables, held: seq<Block>, order: seq<Block>, best: seq<Block>)
    ensures Arrived(p, t, held, order, Starting(p, t, held, order, best), 0, held)
    ensures Starting(p, t, held, order, best).best == best
  {
  }

  lemma OneMoreArrived(p: Params, t: Tables, held: seq<Block>, order: seq<Block>, g: Race, i: nat,
                       orphans: seq<Block>, orphans': seq<Block>)
    requires Arrived(p, t, held, order, g, i, orphans) && i < |order|
    requires forall o :: o in orphans' ==> o == order[i] || o in orphans
    ensures Arrived(p, t, held, order, With(g, order[i]), i + 1, orphans')
  {
    hide World;
    assert order[..i + 1] == order[..i] + [order[i]];
  }

  lemma SizeOfOneMore(order: seq<Block>, i: nat)
    requires i < |order|
    ensures SumBlockSizes(order[..i + 1]) == SumBlockSizes(order[..i]) + BlockSize(order[i])
  {
    hide BlockSize;
    assert order[..i + 1] == order[..i] + [order[i]];
    AppendSize(order[..i], order[i]);
  }

  lemma AllHaveArrived(p: Params, t: Tables, chain: seq<Block>, held: seq<Block>, order: seq<Block>, clock: seq<nat>,
                       g: Race, orphans: seq<Block>)
    requires Inv(p, t, chain) && Deserves(p, t, chain, held, order, clock, g.best)
    requires Arrived(p, t, held, order, g, |order|, orphans)
    ensures forall i :: 0 < i < |g.best| ==> g.best[i] in g.got
    ensures Heaviest(p, g.world, g.best)
  {
    hide NoCutoff, Timely, QuietExcept, Untainted, TargetsBounded, Work, GoodChain, Consistent, NothingAbove;
    forall i | 0 < i < |g.best|
      ensures g.best[i] in g.got
    {
      assert g.best[i] in g.world;
      if g.best[i] !in order && g.best[i] !in held {
        var id :| id in t.headers && t.headers[id].block == g.best[i];
        KeyIsId(p, t, chain, id);
      }
    }
  }

  /** All its blocks there and none of them left waiting, the winner is stored to its tip. */
  lemma {:induction false} WinnerIsStored(p: Params, t: Tables, chain: seq<Block>, orphans: seq<Block>, g: Race, n: nat)
    requires Inv(p, t, chain) && Guarded(p, t, chain, orphans, g, {}) && n < |g.best|
    requires forall i :: 0 < i < |g.best| ==> g.best[i] in g.got
    ensures g.best[n].Id() in t.headers
  {
    hide Inv, Ledger.WellFormed, GoodChain, CloseTo, Agree, SealedEnd, OnlyKnown, TargetsBounded;
    BestIsNotInvalid(p, t, chain, g.best, n);
    if n > 0 {
      WinnerIsStored(p, t, chain, orphans, g, n - 1);
      assert g.best[n] in g.got;
    }
  }

  lemma WinnerIsActive(p: Params, t: Tables, chain: seq<Block>, orphans: seq<Block>, g: Race)
    requires Inv(p, t, chain) && Guarded(p, t, chain, orphans, g, {}) && Heaviest(p, g.world, g.best)
    requires forall i :: 0 < i < |g.best| ==> g.best[i] in g.got
    ensures chain == g.best
  {
    hide Replay, Ledger.WellFormed, Work, SealedEnd, StoredOk, Holds, CloseTo, Agree, FromWorld, AllGot, QuietExcept,
      TargetsBounded, OnlyKnown;
    var tip := g.best[|g.best| - 1].Id();
    WinnerIsStored(p, t, chain, orphans, g, |g.best| - 1);
    ChainIsKnown(p, t, chain, orphans, g.world);
    ReadWork(p, t, chain, tip);
  }

  /** Where no race is being watched. */
  ghost function NoRace(): Race { Race([], {}, {}) }

  // --- importing against submitting -----------------------------------------------------------------

  /** What submitting needs beyond validity: proof of work, the clock, and bounded targets. */
  ghost predicate Submittable(p: Params, blocks: seq<Block>, now: nat) {
    && TargetsBounded(p)
    && forall i :: 0 <= i < |blocks| ==>
         p.meetsTarget(blocks[i].header) && blocks[i].header.target < TWO_256 &&
           Ledger.NotInFuture(blocks[i].header, now, p)
  }

  /** None of these blocks is held, and no held block hangs from one. */
  ghost predicate Apart(orphans: seq<Block>, blocks: seq<Block>) {
    forall x :: x in blocks ==> !HasOrphan(orphans, x.Id()) && Childless(orphans, x.Id())
  }

  /** Those of these blocks that are not on the chain. */
  ghost function NewIn(chain: seq<Block>, blocks: seq<Block>): (r: seq<Block>)
    ensures forall x :: x in r <==> x in blocks && !OnChain(chain, x.Id())
  {
    if blocks == [] then []
    else if OnChain(chain, blocks[0].Id()) then NewIn(chain, blocks[1..])
    else [blocks[0]] + NewIn(chain, blocks[1..])
  }

  lemma AddedAreNew(p: Params, chain: seq<Block>, chunk: CheckedChunk, added: seq<Block>, orphans: seq<Block>, now: nat)
    requires Continues(p, chain, chunk, added) && |chain| > 0
    requires Apart(orphans, NewIn(chain, chunk.blocks)) && Submittable(p, chunk.blocks, now)
    ensures ValidChain(p, chain + added) && Apart(orphans, added) && Submittable(p, added, now)
  {
    hide Replay, Ledger.WellFormed, TargetsBounded, HasOrphan, Childless, Ledger.NotInFuture;
    ChainShape(p, chain + added);
    forall x | x in added
      ensures x in NewIn(chain, chunk.blocks)
    {
      var i :| 0 <= i < |added| && added[i] == x;
      assert (chain + added)[|chain| + i] == x;
    }
  }

  /** Blocks that extend the active chain validly, submitted one by one, are all applied. */
  method SubmitOneByOne(cm: ChainManager, blocks: seq<Block>, now: nat)
    requires cm.Good() && cm.PoolOk() && Apart(cm.orphans, blocks)
    requires ValidChain(cm.p, cm.chain + blocks) && Submittable(cm.p, blocks, now)
    modifies cm, cm.store
    ensures cm.Good() && cm.PoolOk() && cm.chain == old(cm.chain) + blocks && cm.orphans == old(cm.orphans)
  {
    hide Inv, Replay, Ledger.WellFormed, Step, TargetsBounded, KeepsSealed, NoLessWork, Accumulates, Ran, HasOrphan,
      Childless;
    ghost var start := cm.chain;
    assert start + blocks[..0] == start;
    for i := 0 to |blocks|
      invariant cm.Good() && cm.PoolOk() && cm.orphans == old(cm.orphans) && cm.chain == start + blocks[..i]
    {
      ghost var t, c := cm.store.tables, cm.chain;
      var b := blocks[i];
      assert (start + blocks)[..|c| + 1] == c + [b];
      assert |c| > 0 by { InvShape(cm.p, t, c); }
      PrefixIsValid(cm.p, start + blocks, |c| + 1);
      var r := cm.SubmitBlock(b, now, NoRace());
      ExtensionIsNewTip(cm.p, t, c, old(cm.orphans), b, now, cm.store.tables, cm.chain, r);
      assert start + blocks[..i + 1] == c + [b];
    }
    assert blocks[..|blocks|] == blocks;
  }

  /** The chunk is the next one to seal, and its new blocks extend the active chain validly. */
  ghost predicate Importable(p: Params, t: Tables, chain: seq<Block>, chunk: CheckedChunk) {
    chunk.index == t.sealedChunks && exists added :: Continues(p, chain, chunk, added)
  }

  /** Two nodes on the same active chain: one imports a chunk, the other is given its new blocks one by
      one. Accounts, undo data, snapshots and indexes end up the same; a failing chunk changes nothing. */
  method ImportAgainstSubmission(a: ChainManager, b: ChainManager, chunk: CheckedChunk, now: nat)
    returns (r: Result<seq<Block>>)
    requires a.Good() && b.Good() && b.PoolOk() && a.p == b.p && a.chain == b.chain
    requires Apart(b.orphans, NewIn(b.chain, chunk.blocks))
    requires {a, a.store} !! {b, b.store}
    requires IsChunk(a.p, chunk) && Submittable(a.p, chunk.blocks, now)
    modifies a, a.store, b, b.store
    ensures r.Ok? <==> Importable(a.p, old(a.store.tables), old(a.chain), chunk)
    ensures r.Ok? ==> Continues(a.p, old(a.chain), chunk, r.value) && a.chain == old(a.chain) + r.value
    ensures r.Err? ==> a.store.tables == old(a.store.tables) && unchanged(b) && unchanged(b.store)
    ensures a.chain == b.chain && a.store.tables.active == b.store.tables.active
    ensures a.orphans == old(a.orphans) && b.orphans == old(b.orphans)
  {
    hide Inv, Replay, TargetsBounded, IsChunk, OnChain, Apart, Continues, ValidChain, Recorded, NewIn;
    ghost var start := a.chain;
    assert |start| > 0 by { InvShape(a.p, a.store.tables, start); }
    r := a.ApplyChunk(chunk);
    if r.Ok? {
      AddedAreNew(a.p, start, chunk, r.value, b.orphans, now);
      SubmitOneByOne(b, r.value, now);
    }
    SameChainSameTables(a.p, a.store.tables, b.store.tables, a.chain);
  }

  /** The tables of the active chain are a function of the active chain. */
  lemma SameChainSameTables(p: Params, t: Tables, u: Tables, chain: seq<Block>)
    requires Inv(p, t, chain) && Inv(p, u, chain)
    ensures t.active == u.active
  {
    hide Inv, Replay;
    InvReplay(p, t, chain);
    InvReplay(p, u, chain);
  }
}
