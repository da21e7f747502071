/**
 A run in which adopting orphans undoes a block that the same call applied: the mempool takes the transfers of
 that block for confirmed, and loses one that stands nowhere on the chain. Shown on a node that exists.
 */
module LostTransfer {
  import opened Types
  import opened ActiveChain
  import opened ChainState
  import opened Receiving
  import opened Switching
  import opened Importing
  import opened Adoption
  import opened Delivery
  import opened Gaps
  import opened Pool
  import opened Requeue
  import opened Service
  import Chain
  import Ledger
  import MempoolModel
  import Merkle
  import Template
  import Upkeep

  /** `b` extends the active chain, `c1` and `c2` follow it, the first with at least as much work, and `d2` follows
      `c2` and has the most. */
  ghost predicate Overtaken(p: Params, chain: seq<Block>, b: Block, c1: Block, c2: Block, d2: Block, now: nat) {
    && p.finalityDepth >= 1 && Submittable(p, [b, c1, c2, d2], now)
    && GoodChain(p, chain + [b] + [c1]) && GoodChain(p, chain + [b] + [c2]) && GoodChain(p, chain + [b] + [c2] + [d2])
    && c1.Id() != c2.Id() && Work(c2.Id()) <= Work(c1.Id()) < Work(d2.Id())
  }

  /** What hangs together in these four blocks. */
  ghost predicate Linked(chain: seq<Block>, b: Block, c1: Block, c2: Block, d2: Block) {
    && c1.header.prevId == b.Id() == c2.header.prevId && d2.header.prevId == c2.Id()
    && b.header.height == |chain| && c1.header.height == c2.header.height == |chain| + 1
    && d2.header.height == |chain| + 2 && c1.Id() != c2.Id()
  }

  lemma OvertakenFacts(p: Params, chain: seq<Block>, b: Block, c1: Block, c2: Block, d2: Block, now: nat)
    requires |chain| > 0 && Overtaken(p, chain, b, c1, c2, d2, now)
    ensures Linked(chain, b, c1, c2, d2)
    ensures ValidChain(p, chain + [b]) && ValidChain(p, chain + [b] + [c1])
    ensures TargetsBounded(p) && forall x :: x in [b, c1, c2, d2] ==>
      p.meetsTarget(x.header) && x.header.target < TWO_256 && Ledger.NotInFuture(x.header, now, p)
  {
    hide Replay, Ledger.WellFormed, TargetsBounded, Ledger.NotInFuture, Work;
    var c := chain + [b] + [c1];
    var d := chain + [b] + [c2] + [d2];
    ChainShape(p, c);
    ChainShape(p, d);
    assert c[|chain|] == b && c[|chain| + 1] == c1;
    assert d[|chain|] == b && d[|chain| + 1] == c2 && d[|chain| + 2] == d2;
    PrefixIsValid(p, c, |chain| + 1);
    assert c[..|chain| + 1] == chain + [b];
  }

  // --- one turn after the other -----------------------------------------------------------------------

  lemma AtRest(w: Walk, turns: seq<Turn>, i: nat)
    requires i < |turns|
    ensures At(w, turns, 0) == w && At(w, turns, i + 1) == At(turns[0].after, turns[1..], i)
  {
  }

  lemma TurnsSplit(p: Params, clock: nat, w: Walk, turns: seq<Turn>)
    requires Turns(p, clock, w, turns) && turns != []
    ensures Turned(p, clock, Settled(w), turns[0]) && Turns(p, clock, turns[0].after, turns[1..])
  {
    hide Turned, Settled, At;
    var rest := turns[1..];
    AtRest(w, turns, 0);
    forall i | 0 <= i < |rest|
      ensures Turned(p, clock, Settled(At(turns[0].after, rest, i)), rest[i])
    {
      AtRest(w, turns, i);
    }
  }

  /** As long as an orphan can be submitted, one was. */
  lemma NextTurn(p: Params, clock: nat, w: Walk, turns: seq<Turn>, end: Walk)
    requires Reached(p, clock, w, turns, end) && end.waiting == [] && end.children == []
    requires Settled(w).children != []
    ensures turns != [] && Turned(p, clock, Settled(w), turns[0])
    ensures Reached(p, clock, turns[0].after, turns[1..], end)
  {
    hide Turned, Settled, Turns, At;
    NothingLeft(end);
    assert At(w, turns, 0) == w by { StartsThere(w, turns); }
    TurnsSplit(p, clock, w, turns);
    AtRest(w, turns, |turns| - 1);
  }

  lemma StartsThere(w: Walk, turns: seq<Turn>)
    ensures At(w, turns, 0) == w
  {
  }

  lemma NothingLeft(w: Walk)
    requires w.waiting == [] && w.children == []
    ensures Settled(w) == w
  {
  }

  lemma {:induction false} ConnectedInTurn(turns: seq<Turn>, i: nat, x: Block)
    requires i < |turns| && x in turns[i].result.connected
    ensures x in ConnectedBy(turns)
  {
    if i < |turns| - 1 { ConnectedInTurn(turns[..|turns| - 1], i, x); }
  }

  lemma {:induction false} DisconnectedInTurn(turns: seq<Turn>, i: nat, x: Block)
    requires i < |turns| && x in turns[i].result.disconnected
    ensures x in DisconnectedBy(turns)
  {
    if i < |turns| - 1 { DisconnectedInTurn(turns[..|turns| - 1], i, x); }
  }

  /** With nothing left to submit, the walk goes on with the orphans of the last parent, if it has any. */
  lemma NextParentIs(w: Walk, parent: Digest)
    requires w.children == [] && w.waiting != [] && w.waiting[|w.waiting| - 1] == parent
    requires ChildrenOf(w.orphans, parent) != []
    ensures Settled(w) == w.(waiting := w.waiting[..|w.waiting| - 1], children := ChildrenOf(w.orphans, parent))
  {
  }

  /** The state after one turn. */
  lemma AfterTurn(p: Params, clock: nat, w: Walk, turn: Turn)
    requires Turned(p, clock, w, turn)
    ensures w.children != [] && turn.child == w.children[0] && |w.t.active.main| > 0
    ensures Inv(p, turn.after.t, turn.after.chain)
    ensures Step(p, w.t, w.chain, Without(w.orphans, turn.child.Id()), turn.child, clock,
                 turn.after.t, turn.after.chain, turn.result)
    ensures turn.after.children == w.children[1..]
    ensures turn.after.waiting == if Adds(turn.result.outcome) then w.waiting + [turn.child.Id()] else w.waiting
    ensures Adds(turn.result.outcome) ==> turn.after.orphans == Without(w.orphans, turn.child.Id())
  {
    hide Step, Inv, Without, Receiving.Minus, Below, Hold;
  }

  // --- the four blocks --------------------------------------------------------------------------------

  /** Who waits for whom. */
  lemma HeldInOrder(chain: seq<Block>, b: Block, c1: Block, c2: Block, d2: Block)
    requires Linked(chain, b, c1, c2, d2)
    ensures ChildrenOf([c1, c2, d2], b.Id()) == [c1, c2] && ChildrenOf([d2], c2.Id()) == [d2]
    ensures Without([c1, c2, d2], c1.Id()) == [c2, d2] && Without([c2, d2], c2.Id()) == [d2]
    ensures Without([d2], d2.Id()) == []
    ensures !HasOrphan([c1, c2, d2], b.Id()) && !HasOrphan([c2, d2], c1.Id()) && !HasOrphan([d2], c2.Id()) &&
      !HasOrphan([], d2.Id())
  {
    assert [c1, c2, d2][1..] == [c2, d2] && [c2, d2][1..] == [d2] && [d2][1..] == [];
    assert ChildrenOf([], b.Id()) == [];
    assert ChildrenOf([d2], b.Id()) == [];
    assert ChildrenOf([c2, d2], b.Id()) == [c2];
  }

  /** An extension of the chain by one block lists it as applied, and the heights it seals end below it. */
  lemma Extended(p: Params, t: Tables, chain: seq<Block>, orphans: seq<Block>, b: Block, now: nat, t': Tables,
                 chain': seq<Block>, r: SubmitResult)
    requires Inv(p, t, chain) && Inv(p, t', chain') && |t.active.main| > 0 && p.finalityDepth >= 1
    requires Step(p, t, chain, orphans, b, now, t', chain', r) && !HasOrphan(orphans, b.Id())
    requires ValidChain(p, chain + [b]) && p.meetsTarget(b.header) && b.header.target < TWO_256
    requires TargetsBounded(p) && Ledger.NotInFuture(b.header, now, p)
    ensures r.outcome == NewTip && chain' == chain + [b] && b in r.connected
    ensures b.Id() !in t.headers && t'.headers.Keys <= t.headers.Keys + {b.Id()} && SealedEnd(p, t') <= |chain|
  {
    hide Replay, Inv, TargetsBounded, Ledger.NotInFuture, KeepsFinal, NoLessWork, Rooted, Refused, PrunedAbove,
      FinalizedHeight, LostBetween, Ledger.WellFormed, Work, HasOrphan;
    ExtensionIsNewTip(p, t, chain, orphans, b, now, t', chain', r);
    InvShape(p, t, chain);
    SameSealed(p, t, t');
    var k := |chain| - |r.disconnected|;
    assert |r.connected| > 0 && chain'[|chain|] == r.connected[|r.connected| - 1];
    assert SealedEnd(p, t) <= |chain| by { SealedIsLow(p, t, chain); }
  }

  lemma SealedIsLow(p: Params, t: Tables, chain: seq<Block>)
    requires Inv(p, t, chain)
    ensures SealedEnd(p, t) <= |chain|
  {
    hide Replay, Ledger.WellFormed, Work, Sound, StoredOk;
  }

  lemma SameSealed(p: Params, t: Tables, t': Tables)
    ensures t'.sealedChunks == t.sealedChunks ==> SealedEnd(p, t') == SealedEnd(p, t)
  {
  }

  /** Above the sealed heights a block is not stored before its parent. */
  lemma ChildIsNew(p: Params, t: Tables, chain: seq<Block>, b: Block)
    requires Inv(p, t, chain) && b.header.prevId !in t.headers && b.header.height > |chain|
    ensures b.Id() !in t.headers
  {
    hide Replay, Ledger.WellFormed, Work, Sound;
    ChainShape(p, chain);
    assert b.Id() in t.headers ==> StoredOk(p, t, b.Id());
  }

  /** The block below the tip may still be built on. */
  lemma BelowTheTip(p: Params, t: Tables, chain: seq<Block>, b: Block)
    requires Inv(p, t, chain) && p.finalityDepth >= 1 && |chain| >= 2 && chain[|chain| - 2] == b
    requires SealedEnd(p, t) <= |chain| - 1
    ensures |t.active.main| > 0 && b.Id() in t.headers && MeetsFinal(p, t, chain, b.Id())
  {
    hide Replay, Ledger.WellFormed, Work, Sound, StoredOk, SealedEnd;
    InvShape(p, t, chain);
    ChainShape(p, chain);
    assert chain[|chain| - 2].Id() in t.headers;
    assert OnChain(chain, b.Id());
  }

  /** So may a block beside the tip. */
  lemma BesideTheTip(p: Params, t: Tables, chain: seq<Block>, b: Block, c: Block)
    requires |t.active.main| > 0 && MeetsFinal(p, t, chain, b.Id()) && OnChain(chain, b.Id())
    requires c.Id() in t.headers && c.header.prevId == b.Id() && c.header.height > 0
    requires |chain| > 0 && chain[|chain| - 1].Id() != c.Id() && c.header.height == |chain| - 1
    ensures MeetsFinal(p, t, chain, c.Id())
  {
    hide FinalizedHeight;
  }

  /** A block of the chain that the new chain has another block for was undone. */
  lemma Replaced(chain: seq<Block>, r: SubmitResult, chain': seq<Block>, i: nat)
    requires ChangedBy(chain, r, chain') && i < |chain| && i < |chain'| && chain[i] != chain'[i]
    ensures chain[i] in r.disconnected
  {
    var k := |chain| - |r.disconnected|;
    assert i >= k;
    assert chain[i] == chain[k..][i - k] == r.disconnected[|r.disconnected| - 1 - (i - k)];
  }

  lemma {:induction false} SettlesEmpty(w: Walk)
    requires w.orphans == [] && w.children == []
    ensures Settled(w).children == []
    decreases |w.waiting|
  {
    if w.waiting != [] {
      var n := |w.waiting| - 1;
      SettlesEmpty(w.(waiting := w.waiting[..n], children := ChildrenOf(w.orphans, w.waiting[n])));
    }
  }

  lemma NotAmong(p: Params, chain: seq<Block>, b: Block, c1: Block, c2: Block, d2: Block)
    requires ValidChain(p, chain + [b] + [c1]) && Linked(chain, b, c1, c2, d2)
    ensures c1 !in chain + [b] + [c2] + [d2]
  {
    hide Replay, Ledger.WellFormed;
    var c := chain + [b] + [c1];
    ChainShape(p, c);
    forall i | 0 <= i < |chain|
      ensures chain[i].header.height == i
    {
      assert c[i] == chain[i];
    }
  }

  // --- the run ----------------------------------------------------------------------------------------

  /** The first held block becomes the tip. */
  lemma FirstTurn(p: Params, chain: seq<Block>, b: Block, c1: Block, c2: Block, d2: Block, now: nat, w: Walk,
                  turn: Turn)
    requires |chain| > 0 && Overtaken(p, chain, b, c1, c2, d2, now) && Turned(p, now, w, turn)
    requires Inv(p, w.t, w.chain) && w.chain == chain + [b] && c2.Id() !in w.t.headers
    requires w.orphans == [c1, c2, d2] && w.children == [c1, c2] && w.waiting == []
    ensures turn.after == Walk(turn.after.t, chain + [b] + [c1], [c2, d2], [c1.Id()], [c2])
    ensures Inv(p, turn.after.t, turn.after.chain) && SealedEnd(p, turn.after.t) <= |chain| + 1
    ensures c2.Id() !in turn.after.t.headers && c1 in turn.result.connected
  {
    hide Turned, Step, Inv, SealedEnd, Overtaken, TargetsBounded, Ledger.NotInFuture, HasOrphan, ValidChain, Without;
    OvertakenFacts(p, chain, b, c1, c2, d2, now);
    assert p.finalityDepth >= 1 by { DepthIsPositive(p, chain, b, c1, c2, d2, now); }
    AfterTurn(p, now, w, turn);
    HeldInOrder(chain, b, c1, c2, d2);
    Extended(p, w.t, w.chain, [c2, d2], c1, now, turn.after.t, turn.after.chain, turn.result);
  }

  lemma DepthIsPositive(p: Params, chain: seq<Block>, b: Block, c1: Block, c2: Block, d2: Block, now: nat)
    requires Overtaken(p, chain, b, c1, c2, d2, now)
    ensures p.finalityDepth >= 1
  {
  }

  /** The second is stored beside it. */
  lemma SecondTurn(p: Params, chain: seq<Block>, b: Block, c1: Block, c2: Block, d2: Block, now: nat, w: Walk,
                   turn: Turn)
    requires |chain| > 0 && Overtaken(p, chain, b, c1, c2, d2, now) && Turned(p, now, w, turn)
    requires w == Walk(w.t, chain + [b] + [c1], [c2, d2], [c1.Id()], [c2])
    requires Inv(p, w.t, w.chain) && SealedEnd(p, w.t) <= |chain| + 1 && c2.Id() !in w.t.headers
    ensures turn.after == Walk(turn.after.t, chain + [b] + [c1], [d2], [c1.Id(), c2.Id()], [])
    ensures Inv(p, turn.after.t, turn.after.chain) && SealedEnd(p, turn.after.t) <= |chain| + 1
    ensures c2.Id() in turn.after.t.headers
  {
    hide Turned, Inv, SealedEnd, TargetsBounded, Ledger.NotInFuture, HasOrphan, ValidChain, Without, Work,
      Submittable, MeetsFinal, KeepsFinal, NoLessWork, Rooted, Refused, PrunedAbove, FinalizedHeight, ChangedBy,
      SealedUp, GoodChain;
    OvertakenFacts(p, chain, b, c1, c2, d2, now);
    AfterTurn(p, now, w, turn);
    HeldInOrder(chain, b, c1, c2, d2);
    BelowTheTip(p, w.t, w.chain, b);
    GoodArrives(p, w.t, w.chain, [d2], c2, chain + [b] + [c2], now, turn.after.t, turn.after.chain, turn.result);
    SameSealed(p, w.t, turn.after.t);
  }

  /** The third overtakes, and the first is undone. */
  lemma ThirdTurn(p: Params, chain: seq<Block>, b: Block, c1: Block, c2: Block, d2: Block, now: nat, w: Walk,
                  turn: Turn)
    requires |chain| > 0 && Overtaken(p, chain, b, c1, c2, d2, now) && Turned(p, now, w, turn)
    requires w == Walk(w.t, chain + [b] + [c1], [d2], [c1.Id()], [d2])
    requires Inv(p, w.t, w.chain) && SealedEnd(p, w.t) <= |chain| + 1 && c2.Id() in w.t.headers
    ensures turn.after.chain == chain + [b] + [c2] + [d2] && turn.after.orphans == [] && turn.after.children == []
    ensures c1 in turn.result.disconnected
  {
    hide Turned, Inv, SealedEnd, TargetsBounded, Ledger.NotInFuture, HasOrphan, ValidChain, Without, Work,
      Submittable, MeetsFinal, KeepsFinal, NoLessWork, Rooted, Refused, PrunedAbove, FinalizedHeight, ChangedBy,
      SealedUp, GoodChain;
    OvertakenFacts(p, chain, b, c1, c2, d2, now);
    AfterTurn(p, now, w, turn);
    HeldInOrder(chain, b, c1, c2, d2);
    BelowTheTip(p, w.t, w.chain, b);
    assert w.chain[|chain|] == b;
    BesideTheTip(p, w.t, w.chain, b, c2);
    GoodArrives(p, w.t, w.chain, [], d2, chain + [b] + [c2] + [d2], now, turn.after.t, turn.after.chain, turn.result);
    Replaced(w.chain, turn.result, turn.after.chain, |chain| + 1);
  }

  /** The three turns, from the state the new block left. */
  lemma ThreeTurns(p: Params, chain: seq<Block>, b: Block, c1: Block, c2: Block, d2: Block, now: nat, w: Walk,
                   turns: seq<Turn>, end: Walk)
    requires |chain| > 0 && Overtaken(p, chain, b, c1, c2, d2, now) && Reached(p, now, w, turns, end)
    requires Inv(p, w.t, w.chain) && w == Walk(w.t, chain + [b], [c1, c2, d2], [b.Id()], []) && c2.Id() !in w.t.headers
    requires end.waiting == [] && end.children == []
    ensures end.chain == chain + [b] + [c2] + [d2] && end.orphans == []
    ensures c1 in ConnectedBy(turns) && c1 in DisconnectedBy(turns)
  {
    hide Inv, Reached, Turned, Overtaken, Settled, SealedEnd, Without, HasOrphan, ConnectedBy, DisconnectedBy,
      ChildrenOf;
    OvertakenFacts(p, chain, b, c1, c2, d2, now);
    HeldInOrder(chain, b, c1, c2, d2);
    NextParentIs(w, b.Id());
    assert [b.Id()][..0] == [];
    NextTurn(p, now, w, turns, end);
    FirstTurn(p, chain, b, c1, c2, d2, now, Settled(w), turns[0]);
    ConnectedInTurn(turns, 0, c1);
    TwoTurns(p, chain, b, c1, c2, d2, now, turns[0].after, turns[1..], end);
    DisconnectedInTurn(turns, 2, c1);
  }

  lemma TwoTurns(p: Params, chain: seq<Block>, b: Block, c1: Block, c2: Block, d2: Block, now: nat, w: Walk,
                 turns: seq<Turn>, end: Walk)
    requires |chain| > 0 && Overtaken(p, chain, b, c1, c2, d2, now) && Reached(p, now, w, turns, end)
    requires w == Walk(w.t, chain + [b] + [c1], [c2, d2], [c1.Id()], [c2])
    requires Inv(p, w.t, w.chain) && SealedEnd(p, w.t) <= |chain| + 1 && c2.Id() !in w.t.headers
    requires end.waiting == [] && end.children == []
    ensures end.chain == chain + [b] + [c2] + [d2] && end.orphans == []
    ensures |turns| > 1 && c1 in turns[1].result.disconnected
  {
    hide Inv, Reached, Turned, Overtaken, Settled, SealedEnd, Without, HasOrphan, ChildrenOf, Linked;
    OvertakenFacts(p, chain, b, c1, c2, d2, now);
    HeldInOrder(chain, b, c1, c2, d2);
    SettledAlready(w);
    NextTurn(p, now, w, turns, end);
    SecondTurn(p, chain, b, c1, c2, d2, now, w, turns[0]);
    var w2, rest := turns[0].after, turns[1..];
    assert [c1.Id(), c2.Id()][..1] == [c1.Id()];
    NextParentIs(w2, c2.Id());
    NextTurn(p, now, w2, rest, end);
    ThirdTurn(p, chain, b, c1, c2, d2, now, Settled(w2), rest[0]);
    SettlesEmpty(rest[0].after);
    NoTurns(p, now, rest[0].after, rest[1..], end);
  }

  /** All of it: after one call the first held block is listed both as applied and as undone, and is on no chain. */
  lemma OvertakenRun(p: Params, t: Tables, chain: seq<Block>, b: Block, c1: Block, c2: Block, d2: Block, now: nat,
                     t': Tables, chain': seq<Block>, orphans': seq<Block>, r: SubmitResult)
    requires Inv(p, t, chain) && |chain| > 0 && Overtaken(p, chain, b, c1, c2, d2, now)
    requires Ran(p, t, chain, [c1, c2, d2], b, now, t', chain', orphans', r)
    ensures chain' == chain + [b] + [c2] + [d2] && orphans' == [] && r.outcome == NewTip
    ensures c1 in r.connected && c1 in r.disconnected && c1 !in chain'
  {
    hide Inv, Step, Reached, Overtaken, SealedEnd, TargetsBounded, Ledger.NotInFuture, ValidChain, HasOrphan,
      ConnectedBy, DisconnectedBy, PoolAfter;
    var orphans := [c1, c2, d2];
    var run :| IsRun(p, t, chain, orphans, b, now, run, t', chain', orphans', r);
    OvertakenFacts(p, chain, b, c1, c2, d2, now);
    DepthIsPositive(p, chain, b, c1, c2, d2, now);
    HeldInOrder(chain, b, c1, c2, d2);
    Extended(p, t, chain, orphans, b, now, run.t, run.chain, run.first);
    ChildIsNew(p, t, chain, c2);
    PoolAfterIs(orphans, b, NewTip);
    ThreeTurns(p, chain, b, c1, c2, d2, now, Start(orphans, b, run), run.turns, Walk(t', chain', orphans', [], []));
    NotAmong(p, chain, b, c1, c2, d2);
  }

  // --- and the transfer -------------------------------------------------------------------------------

  /** None of these blocks holds a transfer of this sender. */
  ghost predicate NoneFrom(p: Params, blocks: seq<Block>, a: Address) {
    forall x, tx :: x in blocks && tx in x.txs && tx.Transfer? ==> Sender(p, tx) != a
  }

  /** With these blocks on top of the chain, a waiting transfer of a sender they hold nothing of is confirmed no more
      than before, and its sender's waiting transfers are as covered as before. */
  lemma CouldStillWait(p: Params, chain: seq<Block>, added: seq<Block>, m: Entries, bySender: SenderIndex, limit: nat,
                       tx: Transaction)
    requires ValidChain(p, chain) && ValidChain(p, chain + added) && |chain| > 0
    requires Indexed(p, m, bySender) && AllCovered(bySender, Replay(p, chain).value.accounts, limit)
    requires tx in m && tx.Transfer? && NoneFrom(p, added, Sender(p, tx))
    ensures forall x :: x in chain + added ==> tx !in x.txs
    ensures Covered(PendingIn(bySender, Sender(p, tx)),
                    Ledger.Get(Replay(p, chain + added).value.accounts, Sender(p, tx)))
  {
    hide Replay, Ledger.WellFormed, Indexed, Pool.Run, Spent;
    forall x | x in chain + added
      ensures tx !in x.txs
    {
      if x in chain && tx in x.txs { Upkeep.OnChainIsNotWaiting(p, chain, x, tx, m, bySender, limit); }
    }
    AddedAreWellFormed(p, chain, added);
    Upkeep.WellFormedBodies(p, added);
    Upkeep.ExtensionRaises(p, chain, added);
    assert Sender(p, tx) in bySender by { IsFiled(p, m, bySender, tx); }
  }

  lemma IsFiled(p: Params, m: Entries, bySender: SenderIndex, tx: Transaction)
    requires Indexed(p, m, bySender) && tx in m && tx.Transfer?
    ensures Sender(p, tx) in bySender
  {
    assert Findable(p, bySender, tx, m[tx]);
  }

  lemma AddedAreWellFormed(p: Params, chain: seq<Block>, added: seq<Block>)
    requires ValidChain(p, chain + added) && |chain| > 0
    ensures forall x :: x in added ==> Ledger.WellFormed(x, p)
  {
    hide Replay, Ledger.WellFormed;
    ChainShape(p, chain + added);
    forall x | x in added
      ensures Ledger.WellFormed(x, p)
    {
      var i :| 0 <= i < |added| && added[i] == x;
      assert (chain + added)[|chain| + i] == x;
    }
  }

  /** A waiting transfer of the first held block is lost: in the end no block of the active chain holds it and it
      waits no more, though it and its sender's other waiting transfers could all be included still. */
  method AdoptionLosesTransfer(node: NodeService, b: Block, ghost c1: Block, ghost c2: Block, ghost d2: Block,
                               ghost tx: Transaction, now: nat, clock: real) returns (r: SubmitResult)
    requires node.Valid() && node.ClockAt(clock) && node.chain.orphans == [c1, c2, d2]
    requires Overtaken(node.chain.p, node.chain.chain, b, c1, c2, d2, now)
    requires tx in node.mempool.byId && tx.Transfer? && tx in c1.txs
    requires NoneFrom(node.chain.p, [b] + [c2] + [d2], Sender(node.chain.p, tx))
    modifies node, node.chain, node.chain.store, node.mempool
    ensures node.Valid() && node.chain.chain == old(node.chain.chain) + [b] + [c2] + [d2]
    ensures c1 in r.connected && c1 in r.disconnected && c1 !in node.chain.chain
    ensures tx !in node.mempool.byId && forall x :: x in node.chain.chain ==> tx !in x.txs
    ensures Covered(old(PendingIn(node.mempool.bySender, Sender(node.chain.p, tx))),
                    Ledger.Get(node.chain.store.tables.active.accounts, Sender(node.chain.p, tx)))
  {
    hide Inv, Replay, Indexed, AllCovered, Accumulates, Followed, WentBack, StayUnlessConfirmed, Raises, Ran, InOrder,
      Overtaken, NoneFrom, Covered, MempoolModel.Mempool.Valid, Chain.ChainManager.PoolOk, ValidChain;
    ghost var p, t, was, m, idx := node.chain.p, node.chain.store.tables, node.chain.chain, node.mempool.byId,
      node.mempool.bySender;
    InvShape(p, t, was);
    InvReplay(p, t, was);
    node.mempool.ValidIndexed();
    ghost var back;
    r, back := node.SubmitBlock(b, now, clock, NoRace());
    OvertakenRun(p, t, was, b, c1, c2, d2, now, node.chain.store.tables, node.chain.chain, node.chain.orphans, r);
    ghost var added := [b] + [c2] + [d2];
    assert was + added == node.chain.chain;
    InvReplay(p, node.chain.store.tables, node.chain.chain);
    CouldStillWait(p, was, added, m, idx, node.mempool.policy.maxPerSender, tx);
  }

  // --- a network and five blocks to show it on --------------------------------------------------------

  /** As Gaps.Easy, but a reward can be spent in the next block, and nothing becomes final soon. */
  function Quick(): (p: Params)
    ensures IsQuick(p)
  {
    Easy().(coinbaseMaturity := 1, finalityDepth := 100)
  }

  ghost predicate IsQuick(p: Params) {
    && IsEasy(p) && p.coinbaseMaturity == 1 && p.finalityDepth == 100 && p.genesis.txs == [Reward(0, 0)]
    && forall k :: p.addressOf(k) == 0
  }

  /** Address 0 pays the reward of genesis to address 1. */
  function Payment(): Transaction { Transfer(1, [], 0, 0, [Output(1, 1)], [], []) }

  /** The payer has its coin, and has paid nothing yet. */
  predicate CanPay(state: Accounts) {
    Ledger.Get(state, 0).nonce == 0 && Ledger.Get(state, 0).balance >= 1
  }

  lemma PaymentFacts(p: Params)
    requires IsQuick(p)
    ensures Payment().Transfer? && Sender(p, Payment()) == 0 && TotalSpent(Payment()) == 1
    ensures Ledger.CheckTransaction(Payment(), p) == None && TxSize(Payment()) == 146
  {
    var outputs := [Output(1, 1)];
    assert outputs[..0] == [] && Ledger.CheckOutputs(outputs[..0]) == None && SumAmounts(outputs[..0]) == 0;
    assert SumAmounts(outputs) == 1;
    assert Ledger.CheckOutputs(outputs) == None;
  }

  lemma PaymentIsPayable(p: Params, state: Accounts)
    requires IsQuick(p) && CanPay(state)
    ensures Payable(p, state, [Payment()])
  {
    hide Ledger.CheckTransaction, Ledger.ApplyTransfer, TotalSpent, TxSize, Ledger.Total;
    PaymentFacts(p);
    var txs := [Payment()];
    assert txs[..0] == [];
    forall s | Ledger.Normal(s) && Ledger.OnlyRaised(state, s) && Ledger.Total(s) <= MAX_AMOUNT
      ensures Ledger.ApplyTransfers(s, txs, p).Ok?
    {
      Template.TransferFits(s, Payment(), p);
      assert Ledger.ApplyTransfers(s, txs[..0], p) == Ok(s);
    }
  }

  /** The block after genesis makes its reward spendable. */
  lemma FirstPays(p: Params, b0: Block)
    requires IsQuick(p) && ValidChain(p, [p.genesis] + [b0]) && b0.txs == [Reward(1, 1)]
    ensures CanPay(Replay(p, [p.genesis] + [b0]).value.accounts)
  {
    hide Replay, Connect, ContextFor, Ledger.CheckBlock;
    var g := [p.genesis];
    AtTheStart(p);
    ReplayExtends(p, g, b0);
    ContextIsDefined(p, g);
    ConnectParts(p, g, Replay(p, g).value, b0);
    var ctx := ContextFor(p, g, Replay(p, g).value).value;
    assert MaturesAt(ctx.matured, g, 0);
    assert b0.txs[1..] == [];
    FirstBody(p, b0);
  }

  lemma FirstBody(p: Params, b: Block)
    requires p.coinbaseMaturity == 1 && b.header.height == 1 && Ledger.WellFormed(b, p) && b.txs[1..] == []
    requires Ledger.ApplyBody(b, Some(Reward(0, 0)), map[], p).Ok?
    ensures CanPay(Ledger.ApplyBody(b, Some(Reward(0, 0)), map[], p).value)
  {
    hide Ledger.CheckBlock;
  }

  lemma AtTheStart(p: Params)
    requires ValidParams(p)
    ensures ValidChain(p, [p.genesis]) && Replay(p, [p.genesis]).value.accounts == map[]
  {
  }

  lemma StillPays(p: Params, c: seq<Block>, b: Block)
    requires ValidChain(p, c) && ValidChain(p, c + [b]) && b.txs[1..] == [] && |b.txs| > 0
    requires CanPay(Replay(p, c).value.accounts)
    ensures CanPay(Replay(p, c + [b]).value.accounts)
  {
    hide Replay;
    Upkeep.ConnectRaises(p, c, b);
  }

  /** Five blocks after genesis: all but one are empty, and that one holds the payment. */
  ghost predicate Staged(p: Params, b0: Block, b: Block, c1: Block, c2: Block, d2: Block, now: nat) {
    var c := [p.genesis] + [b0];
    && GoodChain(p, c) && Submittable(p, [b0], now) && b0.txs == [Reward(1, 1)]
    && CanPay(Replay(p, c).value.accounts)
    && Overtaken(p, c, b, c1, c2, d2, now) && Payment() in c1.txs && NoneFrom(p, [b] + [c2] + [d2], 0)
  }

  /** The first two of them. */
  lemma TwoBlocks(p: Params) returns (b0: Block, b: Block)
    requires IsQuick(p)
    ensures var c := [p.genesis] + [b0];
      && GoodChain(p, c) && GoodChain(p, c + [b]) && b0.txs == [Reward(1, 1)] && b.txs == [Reward(2, 1)]
      && CanPay(Replay(p, c).value.accounts) && CanPay(Replay(p, c + [b]).value.accounts)
      && b0.header.target == 1 && b.header.target == 1
  {
    hide IsEasy, GoodChain, Replay, CanPay, ValidChain;
    var g := [p.genesis];
    EasyIsValid(p);
    GenesisIsGood(p);
    b0 := EmptyExtends(p, g, 1);
    var c := g + [b0];
    GoodIsValid(p, c);
    FirstPays(p, b0);
    b := EmptyExtends(p, c, 1);
    GoodIsValid(p, c + [b]);
    StillPays(p, c, b);
  }

  /** And the two branches on them. */
  lemma TwoBranches(p: Params, c: seq<Block>) returns (c1: Block, c2: Block, d2: Block)
    requires IsQuick(p) && GoodChain(p, c) && |c| < 50 && CanPay(Replay(p, c).value.accounts)
    ensures GoodChain(p, c + [c1]) && GoodChain(p, c + [c2]) && GoodChain(p, c + [c2] + [d2])
    ensures c1.txs == [Reward(|c|, 1)] + [Payment()] && c2.txs == [Reward(|c|, 0)] && d2.txs == [Reward(|c| + 1, 0)]
    ensures c1.header.target == 1 && c2.header.target == 1 && d2.header.target == 1
    ensures c1.Id() != c2.Id() && Work(c2.Id()) <= Work(c1.Id()) < Work(d2.Id())
  {
    hide IsEasy, GoodChain, Payable, Replay, Work, CanPay, ValidChain, Ledger.WellFormed;
    EasyIsValid(p);
    PaymentIsPayable(p, Replay(p, c).value.accounts) by { GoodIsValid(p, c); }
    c1 := NextExtends(p, c, 1, [Payment()]);
    c2 := EmptyExtends(p, c, 0);
    d2 := EmptyExtends(p, c + [c2], 0);
    GoodTipIsChecked(p, c + [c1]);
    GoodTipIsChecked(p, c + [c2]);
    BodiesDiffer(p, c1, c2);
    WorkOfChild(c1);
    WorkOfChild(c2);
    WorkOfChild(d2);
  }

  lemma FiveBlocks(p: Params) returns (b0: Block, b: Block, c1: Block, c2: Block, d2: Block, now: nat)
    requires IsQuick(p)
    ensures Staged(p, b0, b, c1, c2, d2, now)
  {
    hide IsEasy, GoodChain, Replay, Work, CanPay, Overtaken, NoneFrom, Submittable, Payment;
    b0, b := TwoBlocks(p);
    var c := [p.genesis] + [b0];
    c1, c2, d2 := TwoBranches(p, c + [b]);
    now := InTime(p, b0, b, c1, c2, d2);
    MakeOvertaken(p, c, b, c1, c2, d2, now);
    EmptyHasNoneFrom(p, b, c2, d2);
    assert Payment() in c1.txs;
  }

  /** There are such a network and such blocks. */
  lemma LostTransferExists() returns (p: Params, b0: Block, b: Block, c1: Block, c2: Block, d2: Block, now: nat)
    ensures IsQuick(p) && Staged(p, b0, b, c1, c2, d2, now)
  {
    hide IsQuick, Staged;
    p := Quick();
    b0, b, c1, c2, d2, now := FiveBlocks(p);
  }

  lemma InTime(p: Params, b0: Block, b: Block, c1: Block, c2: Block, d2: Block) returns (now: nat)
    requires IsEasy(p) && b0.header.target == b.header.target == 1
    requires c1.header.target == c2.header.target == d2.header.target == 1
    ensures Submittable(p, [b0], now) && Submittable(p, [b, c1, c2, d2], now)
  {
    hide IsEasy, Submittable;
    now := Latest([b0]) + Latest([b, c1, c2, d2]);
    AllSubmittable(p, [b0], now);
    AllSubmittable(p, [b, c1, c2, d2], now);
  }

  lemma EasyIsValid(p: Params)
    requires IsEasy(p)
    ensures ValidParams(p) && BlockWork(1) >= 1
  {
  }

  lemma BodiesDiffer(p: Params, x: Block, y: Block)
    requires Ledger.WellFormed(x, p) && Ledger.WellFormed(y, p) && |x.txs| != |y.txs|
    ensures x.Id() != y.Id()
  {
    hide Ledger.WellFormed;
    if x.Id() == y.Id() { Ledger.SameIdSameBlock(x, y, p); }
  }

  lemma MakeOvertaken(p: Params, c: seq<Block>, b: Block, c1: Block, c2: Block, d2: Block, now: nat)
    requires p.finalityDepth >= 1 && Submittable(p, [b, c1, c2, d2], now)
    requires GoodChain(p, c + [b] + [c1]) && GoodChain(p, c + [b] + [c2]) && GoodChain(p, c + [b] + [c2] + [d2])
    requires c1.Id() != c2.Id() && Work(c2.Id()) <= Work(c1.Id()) < Work(d2.Id())
    ensures Overtaken(p, c, b, c1, c2, d2, now)
  {
  }

  lemma EmptyHasNoneFrom(p: Params, x: Block, y: Block, z: Block)
    requires |x.txs| == |y.txs| == |z.txs| == 1 && x.txs[0].Coinbase? && y.txs[0].Coinbase? && z.txs[0].Coinbase?
    ensures NoneFrom(p, [x] + [y] + [z], 0)
  {
  }

  // --- a node brought there ---------------------------------------------------------------------------

  /** Where no block undone and none applied holds a transfer, the mempool is as before. */
  lemma NothingMoves(p: Params, policy: Policy, rank: Transaction -> nat, m: Entries, bySender: SenderIndex,
                     connected: seq<Block>, state: Accounts, now: real, n: Entries)
    requires Followed(p, policy, rank, m, bySender, connected, [], state, now, n)
    requires forall x :: x in connected ==> |x.txs| > 0 && x.txs[1..] == []
    ensures n == m
  {
    hide InsertedAmong;
    var senders, confirmed := Rechecked(p, bySender, connected, []), Confirmed(connected);
    assert senders == {};
    assert OfSenders(p, m, senders) == map[] && WithoutSenders(p, m, senders) == m;
    var waiting :| Lists(waiting, OfSenders(p, m, senders)) && Transfers(Candidates([], now, waiting))
      && Reinserts(p, policy, rank, state, confirmed, m, StableSort(p, Candidates([], now, waiting)), n);
    assert waiting == [] by { SomethingIn(waiting); }
    assert Candidates([], now, waiting) == [];
  }

  lemma UndoneStood(chain: seq<Block>, r: SubmitResult, chain': seq<Block>)
    requires ChangedBy(chain, r, chain')
    ensures forall x :: x in r.disconnected ==> x in chain
  {
    forall x | x in r.disconnected
      ensures x in chain
    {
      var i :| 0 <= i < |r.disconnected| && r.disconnected[i] == x;
      assert x == chain[|chain| - |r.disconnected|..][|r.disconnected| - 1 - i];
    }
  }

  /** An extension undoes nothing. */
  lemma OnlyApplied(chain: seq<Block>, r: SubmitResult, b: Block)
    requires ChangedBy(chain, r, chain + [b])
    ensures r.disconnected == [] && r.connected == [b]
  {
    UndoneStood(chain, r, chain + [b]);
    SomethingIn(r.disconnected);
    assert forall x :: x in chain ==> x in chain + [b];
    assert chain[..|chain|] == chain;
    assert r.connected == (chain + r.connected)[|chain|..] && [b] == (chain + [b])[|chain|..];
  }

  lemma GrownByRun(p: Params, t: Tables, chain: seq<Block>, b: Block, now: nat, t': Tables, chain': seq<Block>,
                   orphans': seq<Block>, r: SubmitResult)
    requires Inv(p, t, chain) && Ran(p, t, chain, [], b, now, t', chain', orphans', r)
    requires ValidChain(p, chain + [b]) && Submittable(p, [b], now)
    ensures chain' == chain + [b] && orphans' == [] && r.outcome == NewTip
    ensures r.connected == [b] && r.disconnected == []
  {
    hide Inv, ValidChain, TargetsBounded, Ledger.NotInFuture, KeepsFinal, NoLessWork, Rooted, Refused, PrunedAbove,
      FinalizedHeight, ChangedBy, SealedUp, Ran, Receiving.Minus, HangsBelow, Hold;
    assert [b][0] == b;
    RanAlone(p, t, chain, [], b, now, t', chain', orphans', r);
    ExtensionIsNewTip(p, t, chain, [], b, now, t', chain', r);
    OnlyApplied(chain, r, b);
  }

  /** An empty block on top. */
  method Grow(node: NodeService, b: Block, now: nat, clock: real)
    requires node.Valid() && node.ClockAt(clock) && node.chain.orphans == []
    requires ValidChain(node.chain.p, node.chain.chain + [b]) && Submittable(node.chain.p, [b], now)
    requires |b.txs| > 0 && b.txs[1..] == []
    modifies node, node.chain, node.chain.store, node.mempool
    ensures node.Valid() && node.ClockAt(clock) && node.chain.orphans == []
    ensures node.chain.chain == old(node.chain.chain) + [b] && node.mempool.byId == old(node.mempool.byId)
  {
    hide Inv, Replay, Indexed, AllCovered, Accumulates, Followed, WentBack, StayUnlessConfirmed, Raises, Ran, InOrder,
      MempoolModel.Mempool.Valid, Chain.ChainManager.PoolOk, ValidChain, Submittable, Confirmed;
    ghost var p, t, was, m, idx := node.chain.p, node.chain.store.tables, node.chain.chain, node.mempool.byId,
      node.mempool.bySender;
    ghost var r, back := node.SubmitBlock(b, now, clock, NoRace());
    GrownByRun(p, t, was, b, now, node.chain.store.tables, node.chain.chain, node.chain.orphans, r);
    NothingMoves(p, node.mempool.policy, node.mempool.rank, m, idx, [b], node.chain.store.tables.active.accounts, clock,
                 node.mempool.byId);
  }

  /** The payment waits. */
  method Pay(node: NodeService, clock: real)
    requires node.Valid() && node.ClockAt(clock) && IsQuick(node.chain.p) && node.mempool.byId == map[]
    requires node.mempool.policy == Policy(0, 1000, 1, 1) && CanPay(node.chain.store.tables.active.accounts)
    modifies node.mempool
    ensures node.Valid() && node.ClockAt(clock) && Payment() in node.mempool.byId
  {
    hide Inv, Replay, Indexed, AllCovered, InOrder, MempoolModel.Mempool.Valid, Chain.ChainManager.PoolOk,
      Ledger.CheckTransaction, TxSize, TotalSpent, IsEasy;
    PaymentFacts(node.chain.p);
    node.mempool.ValidIndexed();
    NothingPending(node.chain.p, node.mempool.bySender);
    InOrderNow(node.mempool.byId, node.mempool.evictable, Payment(), clock);
    OneTotal(Entry(Payment(), 146, clock));
    ghost var r := node.SubmitTransaction(Payment(), clock);
  }

  lemma NothingPending(p: Params, bySender: SenderIndex)
    requires Indexed(p, map[], bySender)
    ensures PendingIn(bySender, 0) == map[] && Spent(map[]) == 0
  {
    assert forall n :: n in PendingIn(bySender, 0) ==> Filed(p, map[], PendingIn(bySender, 0)[n], 0, n);
  }

  lemma OneTotal(e: Entry)
    ensures TotalBytes(map[e.tx := e]) == e.size
  {
    SumWithout(map[e.tx := e], Size, e.tx);
    assert map[e.tx := e] - {e.tx} == map[];
  }

  lemma HeldByRun(p: Params, t: Tables, chain: seq<Block>, orphans: seq<Block>, b: Block, c: seq<Block>, now: nat,
                  t': Tables, chain': seq<Block>, orphans': seq<Block>, r: SubmitResult)
    requires Inv(p, t, chain) && Ran(p, t, chain, orphans, b, now, t', chain', orphans', r)
    requires GoodChain(p, c) && |c| > 1 && c[|c| - 1] == b && Submittable(p, [b], now)
    requires b.Id() !in t.headers && b.header.prevId !in t.headers
    requires !HasOrphan(orphans, b.Id()) && Childless(orphans, b.Id()) && Fits(orphans, b)
    ensures chain' == chain && t' == t && orphans' == orphans + [b] && r.outcome == Orphan
    ensures r.connected == [] && r.disconnected == []
  {
    hide Inv, ValidChain, TargetsBounded, Ledger.NotInFuture, KeepsFinal, NoLessWork, Rooted, PrunedAbove,
      FinalizedHeight, ChangedBy, SealedUp, Ran, Receiving.Minus, HangsBelow, Fits, HasOrphan, Ledger.WellFormed;
    assert [b][0] == b;
    RanAlone(p, t, chain, orphans, b, now, t', chain', orphans', r);
    GoodTipIsChecked(p, c);
    assert !Hopeless(p, b.Id());
    HoldFits(orphans, b);
  }

  lemma HoldFits(orphans: seq<Block>, b: Block)
    requires Fits(orphans, b)
    ensures Hold(orphans, b) == orphans + [b]
  {
    hide BlockSize;
  }

  lemma {:induction false} SmallPool(p: Params, orphans: seq<Block>)
    requires p.maxBlockSize == 1000 && forall o :: o in orphans ==> Ledger.WellFormed(o, p)
    ensures SumBlockSizes(orphans) <= 1000 * |orphans|
  {
    hide Merkle.TxRoot, Ledger.CheckTransactions, Ledger.NoRepeats;
    if orphans != [] {
      assert Ledger.WellFormed(orphans[0], p);
      SmallPool(p, orphans[1..]);
    }
  }

  /** A block sent before its parent. */
  method HoldBack(node: NodeService, b: Block, ghost c: seq<Block>, now: nat, clock: real)
    requires node.Valid() && node.ClockAt(clock) && IsEasy(node.chain.p) && |node.chain.orphans| < 3
    requires GoodChain(node.chain.p, c) && GoodChain(node.chain.p, c + [b]) && Submittable(node.chain.p, [b], now)
    requires |node.chain.chain| > 0
    requires Work(node.chain.chain[|node.chain.chain| - 1].Id()) < Work(c[|c| - 1].Id()) < Work(b.Id())
    requires !HasOrphan(node.chain.orphans, b.Id()) && Childless(node.chain.orphans, b.Id())
    modifies node, node.chain, node.chain.store, node.mempool
    ensures node.Valid() && node.ClockAt(clock) && node.chain.orphans == old(node.chain.orphans) + [b]
    ensures node.chain.chain == old(node.chain.chain) && node.mempool.byId == old(node.mempool.byId)
  {
    hide Inv, Replay, Indexed, AllCovered, Accumulates, Followed, WentBack, StayUnlessConfirmed, Raises, Ran, InOrder,
      MempoolModel.Mempool.Valid, ValidChain, Submittable, Confirmed, GoodChain, Ledger.WellFormed, HasOrphan,
      Childless, Work;
    ghost var p, t, was, pool, m, idx := node.chain.p, node.chain.store.tables, node.chain.chain, node.chain.orphans,
      node.mempool.byId, node.mempool.bySender;
    LinkedTip(p, c, b);
    ghost var d := c + [b];
    assert d[|d| - 1] == b;
    HeavierIsNew(p, t, was, c);
    HeavierIsNew(p, t, was, d);
    HeldIsSmall(p, pool, b, d);
    ghost var r, back := node.SubmitBlock(b, now, clock, NoRace());
    HeldByRun(p, t, was, pool, b, d, now, node.chain.store.tables, node.chain.chain, node.chain.orphans, r);
    NothingMoves(p, node.mempool.policy, node.mempool.rank, m, idx, [], node.chain.store.tables.active.accounts, clock,
                 node.mempool.byId);
  }

  lemma LinkedTip(p: Params, c: seq<Block>, b: Block)
    requires GoodChain(p, c) && GoodChain(p, c + [b])
    ensures |c| > 0 && b.header.prevId == c[|c| - 1].Id() && b.header.height == |c|
  {
    hide Replay, Ledger.WellFormed;
    var d := c + [b];
    ChainShape(p, d);
    assert d[|c|] == b && d[|c| - 1] == c[|c| - 1];
  }

  lemma HeldIsSmall(p: Params, orphans: seq<Block>, b: Block, c: seq<Block>)
    requires p.maxBlockSize == 1000 && |orphans| < 3 && forall o :: o in orphans ==> Ledger.WellFormed(o, p)
    requires GoodChain(p, c) && |c| > 1 && c[|c| - 1] == b
    ensures Fits(orphans, b)
  {
    hide Ledger.WellFormed;
    GoodTipIsChecked(p, c);
    SmallPool(p, orphans);
    SmallPool(p, [b]);
    assert [b][1..] == [] && SumBlockSizes([b]) == BlockSize(b) + SumBlockSizes([b][1..]);
  }

  /** Five such blocks, once more, as the calls below need them. */
  lemma StagedFacts(p: Params, b0: Block, b: Block, c1: Block, c2: Block, d2: Block, now: nat)
    requires IsQuick(p) && Staged(p, b0, b, c1, c2, d2, now)
    ensures var c := [p.genesis] + [b0];
      && |c| == 2 && c[1] == b0 && ValidParams(p) && ValidChain(p, c) && GoodChain(p, c + [b])
      && GoodChain(p, c + [b] + [c1]) && GoodChain(p, c + [b] + [c2]) && GoodChain(p, c + [b] + [c2] + [d2])
      && Work(b0.Id()) < Work(b.Id()) && Linked(c, b, c1, c2, d2)
      && CanPay(Replay(p, c).value.accounts)
    ensures Work(b.Id()) < Work(c1.Id()) && Work(b.Id()) < Work(c2.Id()) < Work(d2.Id())
    ensures Submittable(p, [b0], now) && Submittable(p, [c1], now) && Submittable(p, [c2], now)
    ensures Submittable(p, [d2], now) && b0.txs == [Reward(1, 1)]
    ensures Overtaken(p, [p.genesis] + [b0], b, c1, c2, d2, now)
  {
    hide IsEasy, Replay, Work, NoneFrom, CanPay, Ledger.NotInFuture, TargetsBounded;
    var c := [p.genesis] + [b0];
    EasyIsValid(p);
    OvertakenFacts(p, c, b, c1, c2, d2, now);
    GoodStep(p, c, b, c1);
    WorkOfChild(b);
    WorkOfChild(c1);
    WorkOfChild(c2);
    assert BlockWork(b.header.target) >= 1 && BlockWork(c1.header.target) >= 1 && BlockWork(c2.header.target) >= 1;
    assert b in [b, c1, c2, d2] && c1 in [b, c1, c2, d2] && c2 in [b, c1, c2, d2] && d2 in [b, c1, c2, d2];
  }

  lemma GoodStep(p: Params, c: seq<Block>, b: Block, x: Block)
    requires GoodChain(p, c + [b] + [x]) && |c| > 0
    ensures GoodChain(p, c + [b]) && b.header.prevId == c[|c| - 1].Id()
  {
    hide Replay;
    GoodPrefix(p, c + [b] + [x], |c| + 1);
    assert (c + [b] + [x])[..|c| + 1] == c + [b];
    GoodPrefix(p, c + [b] + [x], |c|);
    assert (c + [b] + [x])[..|c|] == c;
    LinkedTip(p, c, b);
  }

  lemma HeldApart(chain: seq<Block>, b: Block, c1: Block, c2: Block, d2: Block)
    requires Linked(chain, b, c1, c2, d2)
    ensures !HasOrphan([], c1.Id()) && Childless([], c1.Id())
    ensures !HasOrphan([c1], c2.Id()) && Childless([c1], c2.Id())
    ensures !HasOrphan([c1, c2], d2.Id()) && Childless([c1, c2], d2.Id())
  {
  }

  /** What the node has before the last block comes: two blocks, the payment waiting, three blocks held. */
  ghost predicate Prepared(node: NodeService, c: seq<Block>, held: seq<Block>, clock: real)
    reads node, node.chain, node.chain.store, node.mempool
  {
    && node.Valid() && node.ClockAt(clock) && node.chain.chain == c && node.chain.orphans == held
    && Payment() in node.mempool.byId
  }

  /** A new node with one block more than genesis, and the payment waiting. */
  method PayFirst(p: Params, rank: Transaction -> nat, b0: Block, now: nat) returns (node: NodeService)
    requires IsQuick(p) && ValidChain(p, [p.genesis] + [b0]) && Submittable(p, [b0], now) && b0.txs == [Reward(1, 1)]
    requires CanPay(Replay(p, [p.genesis] + [b0]).value.accounts)
    ensures fresh(node) && fresh(node.chain) && fresh(node.chain.store) && fresh(node.mempool)
    ensures node.chain.p == p && Prepared(node, [p.genesis] + [b0], [], 0.0)
  {
    hide Inv, Replay, Submittable, InOrder, CanPay, ValidChain, Payment, IsEasy, Chain.ChainManager.PoolOk,
      MempoolModel.Mempool.Valid, AllCovered;
    ghost var c := [p.genesis] + [b0];
    EasyIsValid(p);
    node := new NodeService(p, Policy(0, 1000, 1, 1), rank);
    Grow(node, b0, now, 0.0);
    InvReplay(p, node.chain.store.tables, c);
    Pay(node, 0.0);
  }

  method Prepare(p: Params, rank: Transaction -> nat, b0: Block, b: Block, c1: Block, c2: Block, d2: Block, now: nat)
    returns (node: NodeService)
    requires IsQuick(p) && Staged(p, b0, b, c1, c2, d2, now)
    ensures fresh(node) && fresh(node.chain) && fresh(node.chain.store) && fresh(node.mempool)
    ensures node.chain.p == p && Prepared(node, [p.genesis] + [b0], [c1, c2, d2], 0.0)
  {
    hide Inv, Replay, GoodChain, Submittable, InOrder, Work, CanPay, NoneFrom, ValidChain, HasOrphan, Childless,
      Payment, Overtaken, Linked, IsEasy, Staged, NodeService.Valid, NodeService.ClockAt;
    ghost var c := [p.genesis] + [b0];
    StagedFacts(p, b0, b, c1, c2, d2, now);
    HeldApart(c, b, c1, c2, d2);
    node := PayFirst(p, rank, b0, now);
    assert IsEasy(p) && node.chain.chain[|node.chain.chain| - 1] == b0;
    HoldBack(node, c1, c + [b], now, 0.0);
    assert node.chain.orphans == [c1];
    HoldBack(node, c2, c + [b], now, 0.0);
    assert node.chain.orphans == [c1, c2];
    HoldBack(node, d2, c + [b] + [c2], now, 0.0);
  }

  /** From a new node, six calls later: the payment was accepted and never confirmed, it waits no more, and it could
      still be included. */
  method LoseTransfer(p: Params, rank: Transaction -> nat, b0: Block, b: Block, c1: Block, c2: Block, d2: Block,
                      now: nat) returns (node: NodeService)
    requires IsQuick(p) && Staged(p, b0, b, c1, c2, d2, now)
    ensures fresh(node) && node.Valid() && node.chain.p == p
    ensures Payment() !in node.mempool.byId && forall x :: x in node.chain.chain ==> Payment() !in x.txs
    ensures CanPay(node.chain.store.tables.active.accounts)
  {
    hide Inv, Replay, GoodChain, Submittable, InOrder, Work, NoneFrom, ValidChain, HasOrphan, Childless, Linked, IsEasy,
      NodeService.Valid, NodeService.ClockAt, Overtaken, Covered;
    StagedFacts(p, b0, b, c1, c2, d2, now);
    PaymentFacts(p);
    node := Prepare(p, rank, b0, b, c1, c2, d2, now);
    ghost var pending := PendingIn(node.mempool.bySender, 0);
    PaymentIsPending(node);
    ghost var r := AdoptionLosesTransfer(node, b, c1, c2, d2, Payment(), now, 0.0);
    CoveredCanPay(pending, Ledger.Get(node.chain.store.tables.active.accounts, 0));
  }

  lemma PaymentIsPending(node: NodeService)
    requires node.Valid() && IsQuick(node.chain.p) && Payment() in node.mempool.byId
    ensures var pending := PendingIn(node.mempool.bySender, 0);
      0 in pending && pending[0].tx == Payment()
  {
    hide Inv, Replay, AllCovered, Chain.ChainManager.PoolOk, IsEasy;
    assert Findable(node.chain.p, node.mempool.bySender, Payment(), node.mempool.byId[Payment()]);
  }

  lemma CoveredCanPay(pending: Pending, account: Account)
    requires Covered(pending, account) && 0 in pending && pending[0].tx == Payment()
    ensures account.nonce == 0 && account.balance >= 1
  {
    SumWithout(pending, Spends, 0);
    assert [Output(1, 1)][..0] == [];
  }
}
