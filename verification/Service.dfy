/**
 service.NodeService: chain and mempool kept in step. Whatever blocks, chunks and transfers arrive,
 every waiting transfer stays valid on top of the active chain's accounts.
 */
module Service {
  import opened Types
  import opened Pool
  import opened Requeue
  import opened ActiveChain
  import opened ChainState
  import opened Receiving
  import opened Importing
  import opened Adoption
  import opened Selection
  import opened Upkeep
  import Keeping
  import Ledger
  import Switching
  import Chain
  import ChainLaws
  import MempoolModel
  import Template

  /** What the account query reports. */
  datatype AccountInfo = AccountInfo(balance: nat, nonce: nat, nextNonce: nat, pendingOut: nat, pendingIn: nat,
                                     immature: nat)
  {
    function Available(): int { balance - pendingOut }
  }

  // --- rewards not spendable yet ------------------------------------------------------------------------

  /** Coinbase amounts of the blocks at these heights. */
  ghost function Rewards(chain: seq<Block>, heights: set<nat>): nat
    requires forall h :: h in heights ==> h < |chain|
    decreases |heights|
  {
    if heights == {} then 0
    else
      var h :| h in heights;
      CoinbaseAmount(chain[h]) + Rewards(chain, heights - {h})
  }

  lemma {:induction false} RewardsWithout(chain: seq<Block>, heights: set<nat>, h: nat)
    requires forall x :: x in heights ==> x < |chain|
    requires h in heights
    ensures Rewards(chain, heights) == CoinbaseAmount(chain[h]) + Rewards(chain, heights - {h})
    decreases |heights|
  {
    var x :| x in heights && Rewards(chain, heights) == CoinbaseAmount(chain[x]) + Rewards(chain, heights - {x});
    if x != h {
      RewardsWithout(chain, heights - {x}, h);
      RewardsWithout(chain, heights - {h}, x);
      assert heights - {x} - {h} == heights - {h} - {x};
    }
  }

  /** The heights whose coinbase pays this address and has not matured. */
  ghost function ImmatureHeights(p: Params, chain: seq<Block>, a: Address): (r: set<nat>)
    ensures forall h :: h in r ==> h < |chain|
  {
    set h: nat | h < |chain| && h + p.coinbaseMaturity >= |chain|
                 && |chain[h].txs| > 0 && chain[h].txs[0].Coinbase? && chain[h].txs[0].address == a
  }

  function HeightsFrom(from: nat, end: nat): (r: set<nat>)
    ensures forall h :: h in r <==> from <= h < end
    decreases end - from
  {
    if from >= end then {} else {from} + HeightsFrom(from + 1, end)
  }

  /** Counted height by height, the immature rewards are those conservation counts. */
  lemma {:induction false} AllImmature(chain: seq<Block>, from: nat)
    requires from <= |chain|
    ensures Rewards(chain, HeightsFrom(from, |chain|)) == CoinbasesFrom(chain, from)
    decreases |chain| - from
  {
    if from < |chain| {
      CoinbasesFromSplit(chain, from);
      AllImmature(chain, from + 1);
      RewardsWithout(chain, HeightsFrom(from, |chain|), from);
      assert HeightsFrom(from, |chain|) - {from} == HeightsFrom(from + 1, |chain|);
    }
  }

  /** Rewards of disjoint sets of heights add up. */
  lemma {:induction false} RewardsAdd(chain: seq<Block>, x: set<nat>, y: set<nat>)
    requires x !! y && (forall h :: h in x ==> h < |chain|) && (forall h :: h in y ==> h < |chain|)
    ensures Rewards(chain, x + y) == Rewards(chain, x) + Rewards(chain, y)
    decreases |x|
  {
    if x == {} {
      assert x + y == y;
    } else {
      var h :| h in x;
      RewardsWithout(chain, x, h);
      RewardsWithout(chain, x + y, h);
      RewardsAdd(chain, x - {h}, y);
      assert x + y - {h} == (x - {h}) + y;
    }
  }

  /** What the account query reports as immature, over some addresses. */
  ghost function ImmatureOver(p: Params, chain: seq<Block>, addresses: set<Address>): nat
    decreases |addresses|
  {
    if addresses == {} then 0
    else
      var a :| a in addresses;
      Rewards(chain, ImmatureHeights(p, chain, a)) + ImmatureOver(p, chain, addresses - {a})
  }

  ghost function HeightsPaying(p: Params, chain: seq<Block>, addresses: set<Address>): (r: set<nat>)
    ensures forall h :: h in r ==> h < |chain|
  {
    set h: nat | h < |chain| && h + p.coinbaseMaturity >= |chain|
                 && |chain[h].txs| > 0 && chain[h].txs[0].Coinbase? && chain[h].txs[0].address in addresses
  }

  lemma {:induction false} OverIsPaying(p: Params, chain: seq<Block>, addresses: set<Address>)
    ensures ImmatureOver(p, chain, addresses) == Rewards(chain, HeightsPaying(p, chain, addresses))
    decreases |addresses|
  {
    if addresses == {} {
      assert HeightsPaying(p, chain, addresses) == {};
    } else {
      var a :| a in addresses
        && ImmatureOver(p, chain, addresses) ==
           Rewards(chain, ImmatureHeights(p, chain, a)) + ImmatureOver(p, chain, addresses - {a});
      var mine, others := ImmatureHeights(p, chain, a), HeightsPaying(p, chain, addresses - {a});
      OverIsPaying(p, chain, addresses - {a});
      RewardsAdd(chain, mine, others);
      assert mine + others == HeightsPaying(p, chain, addresses);
    }
  }

  /** These addresses include every miner whose reward has not matured. */
  ghost predicate PaidLately(p: Params, chain: seq<Block>, addresses: set<Address>) {
    forall h: nat :: h < |chain| && h + p.coinbaseMaturity >= |chain| ==>
      |chain[h].txs| > 0 && chain[h].txs[0].Coinbase? ==> chain[h].txs[0].address in addresses
  }

  /** Over all addresses paid lately, the immature rewards reported are exactly those conservation counts. */
  lemma ImmatureIsReported(p: Params, chain: seq<Block>, addresses: set<Address>)
    requires ValidChain(p, chain)
    requires PaidLately(p, chain, addresses)
    ensures ImmatureOver(p, chain, addresses) == Immature(p, chain)
  {
    hide ValidChain, CoinbasesFrom, Rewards;
    var from := if |chain| >= p.coinbaseMaturity then |chain| - p.coinbaseMaturity else 0;
    EachHasCoinbase(p, chain);
    OverIsPaying(p, chain, addresses);
    AllImmature(chain, from);
    assert HeightsPaying(p, chain, addresses) == HeightsFrom(from, |chain|);
  }

  lemma EachHasCoinbase(p: Params, chain: seq<Block>)
    requires ValidChain(p, chain)
    ensures forall h :: 0 <= h < |chain| ==> |chain[h].txs| > 0 && chain[h].txs[0].Coinbase?
  {
    hide Replay, Ledger.CheckBlock;
    ChainShape(p, chain);
    forall h | 0 <= h < |chain|
      ensures |chain[h].txs| > 0 && chain[h].txs[0].Coinbase?
    {
      if h > 0 { assert Ledger.WellFormed(chain[h], p); }
    }
  }

  /** What the account query reports as balances, over some addresses. */
  ghost function BalancesOver(s: Accounts, addresses: set<Address>): nat
    decreases |addresses|
  {
    if addresses == {} then 0
    else
      var a :| a in addresses;
      Ledger.Get(s, a).balance + BalancesOver(s, addresses - {a})
  }

  ghost function Only(s: Accounts, addresses: set<Address>): Accounts {
    map a | a in s && a in addresses :: s[a]
  }

  lemma {:induction false} BalancesAreTotal(s: Accounts, addresses: set<Address>)
    ensures BalancesOver(s, addresses) == Ledger.Total(Only(s, addresses))
    decreases |addresses|
  {
    hide Ledger.Total;
    if addresses == {} {
      assert Only(s, addresses) == map[];
      assert Ledger.Total(map[]) == 0 by { NothingIsTotal(); }
    } else {
      var a :| a in addresses &&
        BalancesOver(s, addresses) == Ledger.Get(s, a).balance + BalancesOver(s, addresses - {a});
      BalancesAreTotal(s, addresses - {a});
      if a in s {
        var mine, less := Only(s, addresses), Only(s, addresses - {a});
        Ledger.TotalWithout(mine, a);
        assert mine[a] == s[a] == Ledger.Get(s, a);
        assert mine - {a} == less;
      } else {
        assert Only(s, addresses) == Only(s, addresses - {a});
        assert Ledger.Get(s, a) == EMPTY_ACCOUNT;
        assert EMPTY_ACCOUNT.balance == 0;
      }
    }
  }

  lemma NothingIsTotal()
    ensures Ledger.Total(map[]) == 0
  {
  }

  /** Asked for every address, the node accounts for every coin minted: balances and immature rewards together are
      one block reward per block. */
  lemma ReportsAddUp(p: Params, chain: seq<Block>, addresses: set<Address>)
    requires ValidChain(p, chain) && Replay(p, chain).value.accounts.Keys <= addresses
    requires PaidLately(p, chain, addresses)
    ensures BalancesOver(Replay(p, chain).value.accounts, addresses) + ImmatureOver(p, chain, addresses)
            == Minted(p, |chain|)
  {
    hide Replay, Immature, Minted, Ledger.Total;
    var s := Replay(p, chain).value.accounts;
    CoinsAreConserved(p, chain);
    ImmatureIsReported(p, chain, addresses);
    BalancesAreTotal(s, addresses);
    assert Only(s, addresses) == s;
  }

  /** The address index lists, at position 0, exactly the coinbases that pay an address. */
  lemma CoinbaseRows(p: Params, chain: seq<Block>, a: Address, h: nat)
    requires ValidChain(p, chain)
    ensures (a, h, 0) in Replay(p, chain).value.addressIndex <==>
      h < |chain| && |chain[h].txs| > 0 && chain[h].txs[0].Coinbase? && chain[h].txs[0].address == a
  {
    hide Replay, ValidChain;
    ChainLaws.AddressIndexIsExact(p, chain, a, h, 0);
    EachHasCoinbase(p, chain);
  }

  // --- importing ---------------------------------------------------------------------------------------------

  /** What became of the waiting transfers when the chain changed by these blocks. */
  ghost predicate Followed(p: Params, policy: Policy, rank: Transaction -> nat, m: Entries, bySender: SenderIndex,
                           connected: seq<Block>, disconnected: seq<Block>, state: Accounts, now: real, n: Entries)
  {
    && HasTransfersOnly(connected) && HasTransfersOnly(disconnected)
    && UpdateOutcome(p, policy, rank, m, Rechecked(p, bySender, connected, disconnected),
                     Returning(disconnected, Confirmed(connected)), Confirmed(connected), state, now, n)
  }

  /** The transfers of undone blocks that wait again. */
  ghost predicate WentBack(connected: seq<Block>, disconnected: seq<Block>, m: Entries, back: seq<Transaction>) {
    HasTransfersOnly(disconnected) && back == StillWaiting(Returning(disconnected, Confirmed(connected)), m)
  }

  /** With room for everybody, the waiting transfers of a sender that none returns for, and that could all be accepted
      still, all stay if and only if no connected block holds one: not even a connected block that was undone again. */
  ghost predicate StayUnlessConfirmed(p: Params, policy: Policy, m: Entries, bySender: SenderIndex,
                                      connected: seq<Block>, disconnected: seq<Block>, state: Accounts, n: Entries)
  {
    && HasTransfersOnly(disconnected)
    && var confirmed, returning := Confirmed(connected), Returning(disconnected, Confirmed(connected));
       TotalBytes(m) + SumSizes(returning) <= policy.maxBytes ==>
         forall a :: a in bySender && Keeping.Acceptable(p, policy, bySender[a], a, Ledger.Get(state, a))
                     && (forall tx :: tx in returning ==> Sender(p, tx) != a) ==>
           ((forall k :: k in bySender[a] ==> bySender[a][k].tx in n)
            <==> (forall k :: k in bySender[a] ==> bySender[a][k].tx !in confirmed))
  }

  lemma FollowedKeeps(p: Params, policy: Policy, rank: Transaction -> nat, m: Entries, bySender: SenderIndex,
                      connected: seq<Block>, disconnected: seq<Block>, state: Accounts, now: real, n: Entries)
    requires Followed(p, policy, rank, m, bySender, connected, disconnected, state, now, n) && Indexed(p, m, bySender)
    requires NoneTwice(Returning(disconnected, Confirmed(connected)))
    requires forall tx :: tx in Returning(disconnected, Confirmed(connected)) ==> tx !in m
    requires StartWithCoinbase(connected)
    ensures StayUnlessConfirmed(p, policy, m, bySender, connected, disconnected, state, n)
    ensures forall t :: t in Confirmed(connected) ==> t !in n
  {
    hide Indexed, UpdateOutcome, NoneTwice, Keeping.Acceptable, TotalBytes, Returning, SumSizes, Confirmed, Rechecked;
    var confirmed, returning := Confirmed(connected), Returning(disconnected, Confirmed(connected));
    var senders := Rechecked(p, bySender, connected, disconnected);
    ConfirmedAreRechecked(p, m, bySender, connected, disconnected);
    Keeping.NoneConfirmedWaits(p, policy, rank, m, bySender, senders, returning, confirmed, state, now, n);
    forall a | a in bySender && Keeping.Acceptable(p, policy, bySender[a], a, Ledger.Get(state, a))
               && (forall tx :: tx in returning ==> Sender(p, tx) != a)
               && TotalBytes(m) + SumSizes(returning) <= policy.maxBytes
      ensures (forall k :: k in bySender[a] ==> bySender[a][k].tx in n)
              <==> (forall k :: k in bySender[a] ==> bySender[a][k].tx !in confirmed)
    {
      Keeping.StaysUnlessConfirmed(p, policy, rank, m, bySender, senders, returning, confirmed, state, now, n, a);
    }
  }

  lemma ConfirmedAreRechecked(p: Params, m: Entries, bySender: SenderIndex, connected: seq<Block>,
                              disconnected: seq<Block>)
    requires Indexed(p, m, bySender) && HasTransfersOnly(connected) && HasTransfersOnly(disconnected)
    requires StartWithCoinbase(connected)
    ensures forall t :: t in Confirmed(connected) && t in m && t.Transfer? ==>
      Sender(p, t) in Rechecked(p, bySender, connected, disconnected)
  {
    forall t | t in Confirmed(connected) && t in m && t.Transfer?
      ensures Sender(p, t) in Rechecked(p, bySender, connected, disconnected)
    {
      assert Findable(p, bySender, t, m[t]);
      var b :| b in connected && t in b.txs;
      assert t in b.txs[1..];
    }
  }

  ghost predicate StartWithCoinbase(blocks: seq<Block>) {
    forall b :: b in blocks ==> |b.txs| > 0 && b.txs[0].Coinbase?
  }

  lemma ConnectedStartWithCoinbase(p: Params, start: seq<Block>, r: SubmitResult, chain: seq<Block>)
    requires Accumulates(p, start, r, chain)
    ensures StartWithCoinbase(r.connected)
  {
    hide Undone;
    assert forall x :: x in r.connected ==> Ledger.WellFormed(x, p);
  }

  lemma ImportAccumulates(p: Params, start: seq<Block>, added: seq<Block>, r: SubmitResult)
    requires |start| > 0 && ValidChain(p, start + added) && r.connected == added && r.disconnected == []
    ensures Accumulates(p, start, r, start + added)
  {
    hide Replay, Ledger.WellFormed;
    ChainShape(p, start + added);
    forall x | x in added
      ensures Ledger.WellFormed(x, p)
    {
      var i :| 0 <= i < |added| && added[i] == x;
      assert (start + added)[|start| + i] == x;
    }
  }

  // --- the service -------------------------------------------------------------------------------------------

  class NodeService {
    const chain: Chain.ChainManager
    const mempool: MempoolModel.Mempool
    var tipVersion: nat  // bumps whenever the active chain changes

    /** Every waiting transfer is valid on top of the active chain's accounts. */
    ghost predicate Valid()
      reads this, chain, chain.store, mempool
    {
      && chain.p == mempool.p
      && chain.Good() && chain.PoolOk()
      && mempool.Valid() && mempool.bytes <= mempool.policy.maxBytes
      && mempool.Consistent(chain.store.tables.active.accounts)
    }

    /** The clock, as far as the mempool recorded it, was never ahead of `now`. */
    ghost predicate ClockAt(now: real)
      reads mempool
    {
      InOrder(mempool.byId, mempool.evictable, now)
    }

    constructor (p: Params, policy: Policy, rank: Transaction -> nat)
      requires ValidParams(p)
      ensures Valid() && ClockAt(0.0) && tipVersion == 0 && fresh(chain) && fresh(chain.store) && fresh(mempool)
      ensures chain.p == p && chain.chain == [p.genesis] && chain.orphans == [] && mempool.byId == map[]
      ensures mempool.policy == policy
    {
      chain := new Chain.ChainManager(p);
      mempool := new MempoolModel.Mempool(p, policy, rank);
      tipVersion := 0;
    }

    /** The mempool follows a change of the chain, from `start`. */
    method Follow(connected: seq<Block>, disconnected: seq<Block>, clock: real, ghost start: seq<Block>,
                  ghost r: SubmitResult) returns (back: seq<Transaction>)
      requires chain.p == mempool.p && chain.Good() && mempool.Valid() && mempool.bytes <= mempool.policy.maxBytes
      requires ValidChain(chain.p, start) && mempool.Consistent(Replay(chain.p, start).value.accounts)
      requires Accumulates(chain.p, start, r, chain.chain) && r.connected == connected && r.disconnected == disconnected
      modifies mempool
      ensures mempool.Valid() && mempool.bytes <= mempool.policy.maxBytes
      ensures mempool.Consistent(chain.store.tables.active.accounts)
      ensures WentBack(connected, disconnected, mempool.byId, back)
      ensures old(ClockAt(clock)) ==>
        && ClockAt(clock)
        && Followed(chain.p, mempool.policy, mempool.rank, old(mempool.byId), old(mempool.bySender), connected,
                    disconnected, chain.store.tables.active.accounts, clock, mempool.byId)
        && StayUnlessConfirmed(chain.p, mempool.policy, old(mempool.byId), old(mempool.bySender), connected,
                               disconnected, chain.store.tables.active.accounts, mempool.byId)
        && forall t :: t in Confirmed(connected) ==> t !in mempool.byId
    {
      hide Inv, Indexed, Received, Tracked, Genuine, AllCovered, TotalBytes, Replay, Accumulates, InOrder, Returning,
        Confirmed, Rechecked, StillWaiting, UpdateOutcome, BodiesChecked, HasTransfersOnly, NoneTwice, ValidChain,
        StayUnlessConfirmed,
        MempoolModel.Mempool.Valid;
      InvReplay(chain.p, chain.store.tables, chain.chain);
      mempool.ValidIndexed();
      UpdateIsReady(chain.p, start, r, chain.chain, mempool.bySender, mempool.policy.maxPerSender);
      ReturningFacts(chain.p, start, r, chain.chain, mempool.byId, mempool.bySender, mempool.policy.maxPerSender);
      ghost var ordered, m, was := ClockAt(clock), mempool.byId, mempool.bySender;
      back := mempool.Update(chain.store.tables.active.accounts, connected, disconnected, clock);
      if ordered {
        ConnectedStartWithCoinbase(chain.p, start, r, chain.chain);
        FollowedKeeps(chain.p, mempool.policy, mempool.rank, m, was, connected, disconnected,
                      chain.store.tables.active.accounts, clock, mempool.byId);
      }
    }

    /** service.submit_block: the mempool follows the chain. Where the chain raises, nothing changes. */
    method SubmitBlock(b: Block, now: nat, clock: real, ghost g: Race) returns (r: SubmitResult, back: seq<Transaction>)
      requires Valid()
      modifies this, chain, chain.store, mempool
      ensures Valid() && (old(ClockAt(clock)) ==> ClockAt(clock))
      ensures Accumulates(chain.p, old(chain.chain), r, chain.chain)
      ensures Ran(chain.p, old(chain.store.tables), old(chain.chain), old(chain.orphans), b, now,
                  chain.store.tables, chain.chain, chain.orphans, r)
      ensures tipVersion != old(tipVersion) <==> r.connected != [] || r.disconnected != []
      ensures |old(chain.store.tables).active.main| > 0
      ensures r.outcome == Raised <==>
        Raises(chain.p, old(chain.store.tables), old(chain.chain), old(chain.orphans), b, now)
      ensures r.outcome == Raised ==>
        unchanged(mempool) && tipVersion == old(tipVersion) && chain.chain == old(chain.chain)
      ensures r.outcome != Raised ==> WentBack(r.connected, r.disconnected, mempool.byId, back)
      ensures r.outcome != Raised && old(ClockAt(clock)) ==>
        Followed(chain.p, mempool.policy, mempool.rank, old(mempool.byId), old(mempool.bySender), r.connected,
                 r.disconnected, chain.store.tables.active.accounts, clock, mempool.byId)
      ensures r.outcome != Raised && old(ClockAt(clock)) ==>
        && StayUnlessConfirmed(chain.p, mempool.policy, old(mempool.byId), old(mempool.bySender), r.connected,
                               r.disconnected, chain.store.tables.active.accounts, mempool.byId)
        && forall t :: t in Confirmed(r.connected) ==> t !in mempool.byId
    {
      hide Inv, AllCovered, Replay, Accumulates, InOrder, Returning, Confirmed, StillWaiting, KeepsSealed, Guarded, Ran,
        Step, Raises, Fair, NoLessWork, Followed, WentBack, StayUnlessConfirmed, Childless, OnTime, PoolAfter,
        HasOrphan, MempoolModel.Mempool.Valid, Chain.ChainManager.PoolOk, Chain.ChainManager.HasRoomFor, ValidChain;
      ghost var start := chain.chain;
      InvReplay(chain.p, chain.store.tables, start);
      r := chain.SubmitBlock(b, now, g);
      back := [];
      if r.outcome == Raised { return; }
      back := Follow(r.connected, r.disconnected, clock, start, r);
      if r.connected != [] || r.disconnected != [] {
        tipVersion := tipVersion + 1;
      }
    }

    /** service.import_chunk: how many blocks were new, or why the chunk was turned down. */
    method ImportChunk(chunk: CheckedChunk, clock: real) returns (r: Result<nat>)
      requires Valid() && IsChunk(chain.p, chunk)
      modifies this, chain, chain.store, mempool
      ensures Valid() && (old(ClockAt(clock)) ==> ClockAt(clock)) && chain.orphans == old(chain.orphans)
      ensures r.Err? ==> unchanged(mempool) && tipVersion == old(tipVersion) && chain.chain == old(chain.chain)
      ensures r.Ok? ==> |chain.chain| == |old(chain.chain)| + r.value
      ensures r.Ok? ==> Continues(chain.p, old(chain.chain), chunk, chain.chain[|old(chain.chain)|..])
      ensures r.Ok? && r.value == 0 ==> unchanged(mempool) && tipVersion == old(tipVersion)
      ensures r.Ok? && r.value > 0 ==> tipVersion != old(tipVersion)
      ensures r.Ok? && r.value > 0 && old(ClockAt(clock)) ==>
        Followed(chain.p, mempool.policy, mempool.rank, old(mempool.byId), old(mempool.bySender),
                 chain.chain[|old(chain.chain)|..], [], chain.store.tables.active.accounts, clock, mempool.byId)
      ensures r.Ok? && r.value > 0 && old(ClockAt(clock)) ==>
        && StayUnlessConfirmed(chain.p, mempool.policy, old(mempool.byId), old(mempool.bySender),
                               chain.chain[|old(chain.chain)|..], [], chain.store.tables.active.accounts,
                               mempool.byId)
        && forall t :: t in Confirmed(chain.chain[|old(chain.chain)|..]) ==> t !in mempool.byId
    {
      hide Inv, AllCovered, Replay, Accumulates, InOrder, IsChunk, OnChain, Continues, Recorded, Followed, WentBack,
        Confirmed, StayUnlessConfirmed, MempoolModel.Mempool.Valid, Ledger.WellFormed, SumBlockSizes, DistinctIds,
        ValidChain;
      ghost var start := chain.chain;
      InvReplay(chain.p, chain.store.tables, start);
      Switching.InvShape(chain.p, chain.store.tables, start);
      var result := chain.ApplyChunk(chunk);
      if result.Err? { return Err(result.error); }
      var added := result.value;
      InvReplay(chain.p, chain.store.tables, chain.chain);
      assert chain.chain[|start|..] == added;
      if added != [] {
        ghost var change := SubmitResult(NewTip, added[0].Id(), None, added, []);
        ImportAccumulates(chain.p, start, added, change);
        var back := Follow(added, [], clock, start, change);
        tipVersion := tipVersion + 1;
      } else {
        NothingAdded(start);
        assert chain.chain == start;
      }
      r := Ok(|added|);
    }

    /** service.submit_transaction */
    method SubmitTransaction(tx: Transaction, clock: real) returns (r: Result<Entry>)
      requires Valid()
      modifies mempool
      ensures Valid() && (old(ClockAt(clock)) ==> ClockAt(clock))
      ensures r.Ok? ==> tx in mempool.byId && mempool.byId[tx] == r.value
      ensures !tx.Transfer? ==> r == Err(NotATransfer)
      ensures tx.Transfer? && tx in old(mempool.byId) ==> r == Err(AlreadyKnown)
      ensures tx.Transfer? && tx !in old(mempool.byId) && Ledger.CheckTransaction(tx, chain.p).Some? ==>
        r == Err(Ledger.CheckTransaction(tx, chain.p).value)
      ensures !tx.Transfer? || tx in old(mempool.byId) || Ledger.CheckTransaction(tx, chain.p).Some? ==>
        mempool.byId == old(mempool.byId) && mempool.bySender == old(mempool.bySender)
      ensures tx.Transfer? && tx !in old(mempool.byId) && Ledger.CheckTransaction(tx, chain.p).None? ==>
        mempool.InsertionOutcome(old(mempool.byId), old(mempool.bySender), old(mempool.evictable),
                                 mempool.byId, mempool.bySender, mempool.evictable,
                                 chain.store.tables.active.accounts, tx, clock, r)
    {
      hide Inv, Indexed, Received, Tracked, Genuine, AllCovered, TotalBytes, InOrder, Ledger.CheckTransaction, TxSize;
      r := mempool.Add(chain.store.tables.active.accounts, tx, clock);
    }

    /** service.template: in every state of the node, mining on the template extends the active chain validly. */
    method MakeTemplate(miner: Address, now: nat, memo: Bytes) returns (b: Block)
      requires Valid() && Ledger.KnownPayload(miner) && |memo| <= MAX_MEMO_SIZE
      requires HEADER_SIZE + 4 + 41 + |memo| <= chain.p.maxBlockSize
      requires Minted(chain.p, |chain.chain| + 1) <= MAX_AMOUNT
      ensures b.txs != [] && b.txs[0].Coinbase? && b.txs[0].address == miner && b.txs[0].memo == memo
      ensures ValidChain(chain.p, chain.chain) && ValidChain(chain.p, chain.chain + [b])
      ensures GreedyChoice(chain.p, mempool.bySender, b.txs[1..],
                           chain.p.maxBlockSize - HEADER_SIZE - 4 - 41 - |memo|)
      ensures Template.Timed(chain.p, chain.chain, now, b.header.timestamp)
    {
      hide Inv, Indexed, Received, Tracked, Genuine, TotalBytes, Replay, Ledger.CheckTransaction;
      b := Template.BuildTemplate(chain, mempool, miner, now, memo);
    }

    /** service.account */
    method Account(a: Address) returns (info: AccountInfo)
      requires Valid()
      ensures info.balance == Ledger.Get(chain.store.tables.active.accounts, a).balance
      ensures info.nonce == Ledger.Get(chain.store.tables.active.accounts, a).nonce
      ensures info.nextNonce == info.nonce + |PendingIn(mempool.bySender, a)|
      ensures info.pendingOut == Spent(PendingIn(mempool.bySender, a)) && info.Available() >= 0
      ensures info.pendingIn == Sum(mempool.byId, PaysTo(a))
      ensures info.immature == Rewards(chain.chain, ImmatureHeights(chain.p, chain.chain, a))
    {
      hide Inv, Indexed, Received, Tracked, Genuine, TotalBytes, Replay, Ledger.CheckTransaction, PaysTo;
      var confirmed := Ledger.Get(chain.store.tables.active.accounts, a);
      var pending := PendingIn(mempool.bySender, a);
      var q := InNonceOrder(pending);
      var pendingOut := SumSpent(q, pending);
      PendingIsCovered(mempool.bySender, chain.store.tables.active.accounts, mempool.policy.maxPerSender, a);
      var pendingIn := SumPaid(IncomingIn(mempool.byReceiver, a), a);
      IncomingIsAll(mempool.byId, mempool.byReceiver, a) by { mempool.ValidReceived(); }
      var immature := SumImmature(a);
      info := AccountInfo(confirmed.balance, confirmed.nonce, confirmed.nonce + |q|, pendingOut, pendingIn, immature);
    }

    /** sum(e.tx.total_spent for e in pending) */
    method SumSpent(q: seq<Entry>, ghost pending: Pending) returns (total: nat)
      requires q == InNonceOrder(pending)
      ensures total == Spent(pending)
    {
      total := 0;
      ghost var left := pending;
      var i := |q|;
      while i > 0
        invariant 0 <= i <= |q| && q[..i] == InNonceOrder(left)
        invariant total + Spent(left) == Spent(pending)
      {
        NonceOrderEnds(left);
        SumWithout(left, Spends, MaxNonce(left));
        assert q[..i][..i - 1] == q[..i - 1];
        i := i - 1;
        total := total + Spends(q[i]);
        left := left - {MaxNonce(left)};
      }
      assert left == map[];
    }

    /** The loop over store.coinbase_heights in service.account. */
    method SumImmature(a: Address) returns (total: nat)
      requires chain.Good()
      ensures total == Rewards(chain.chain, ImmatureHeights(chain.p, chain.chain, a))
    {
      hide Inv, Replay, Ledger.WellFormed;
      InvReplay(chain.p, chain.store.tables, chain.chain);
      var t := chain.store.tables;
      var rows := t.active.addressIndex;
      var above := |t.active.main| - 1 - chain.p.coinbaseMaturity;
      var left := CoinbaseHeights(rows, a, above);
      Switching.InvShape(chain.p, t, chain.chain);
      RowsAreHeights(chain.p, chain.chain, a, left);
      total := 0;
      while left != {}
        invariant left <= ImmatureHeights(chain.p, chain.chain, a)
        invariant total + Rewards(chain.chain, left) == Rewards(chain.chain, ImmatureHeights(chain.p, chain.chain, a))
        decreases left
      {
        var height :| height in left;
        RewardsWithout(chain.chain, left, height);
        MainBlockIs(chain.p, t, chain.chain, height);
        total := total + t.headers[t.active.main[height]].block.txs[0].amount;
        left := left - {height};
      }
    }
  }

  /** What the outputs of these transfers pay the address. */
  method SumPaid(incoming: Entries, a: Address) returns (total: nat)
    ensures total == Sum(incoming, PaysTo(a))
  {
    total := 0;
    var left := incoming;
    while left != map[]
      invariant total + Sum(left, PaysTo(a)) == Sum(incoming, PaysTo(a))
      decreases |left|
    {
      var t :| t in left;
      SumWithout(left, PaysTo(a), t);
      var paid := SumOutputs(left[t].tx, a);
      total := total + paid;
      left := left - {t};
    }
  }

  method SumOutputs(tx: Transaction, a: Address) returns (paid: nat)
    ensures paid == PaidTo(tx, a)
  {
    paid := 0;
    if tx.Transfer? {
      for i := 0 to |tx.outputs|
        invariant paid == AmountTo(tx.outputs[..i], a)
      {
        assert tx.outputs[..i + 1][..i] == tx.outputs[..i];
        if tx.outputs[i].address == a { paid := paid + tx.outputs[i].amount; }
      }
      assert tx.outputs[..|tx.outputs|] == tx.outputs;
    }
  }

  function PaysTo(a: Address): Entry -> nat { (e: Entry) => PaidTo(e.tx, a) }

  lemma {:induction false} NothingPaid(outputs: seq<Output>, a: Address)
    requires a !in Ledger.OutputAddresses(outputs)
    ensures AmountTo(outputs, a) == 0
  {
    if outputs != [] {
      var init, last := outputs[..|outputs| - 1], outputs[|outputs| - 1];
      assert last in outputs && forall o :: o in init ==> o in outputs;
      NothingPaid(init, a);
    }
  }

  /** Leaving out what weighs nothing changes no sum. */
  lemma {:induction false} SumOfPart(m: Entries, part: Entries, w: Entry -> nat)
    requires part.Keys <= m.Keys && forall t :: t in part ==> part[t] == m[t]
    requires forall t :: t in m && t !in part ==> w(m[t]) == 0
    ensures Sum(m, w) == Sum(part, w)
    decreases |m|
  {
    if m == map[] {
      assert part == map[];
    } else {
      var t :| t in m;
      SumWithout(m, w, t);
      var less := m - {t};
      if t in part {
        SumWithout(part, w, t);
        SumOfPart(less, part - {t}, w);
      } else {
        SumOfPart(less, part, w);
      }
    }
  }

  lemma IncomingIsAll(m: Entries, byReceiver: ReceiverIndex, a: Address)
    requires Received(m, byReceiver) && forall t :: t in m ==> m[t].tx == t
    ensures Sum(IncomingIn(byReceiver, a), PaysTo(a)) == Sum(m, PaysTo(a))
  {
    var part := IncomingIn(byReceiver, a);
    forall t | t in m && t !in part
      ensures PaysTo(a)(m[t]) == 0
    {
      if t.Transfer? { NothingPaid(t.outputs, a); }
    }
    SumOfPart(m, part, PaysTo(a));
  }

  lemma NothingAdded(chain: seq<Block>)
    ensures chain + [] == chain
  {
  }

  /** What a sender has available is never negative. */
  lemma PendingIsCovered(bySender: SenderIndex, state: Accounts, limit: nat, a: Address)
    requires AllCovered(bySender, state, limit)
    ensures Spent(PendingIn(bySender, a)) <= Ledger.Get(state, a).balance
  {
    if a !in bySender { assert PendingIn(bySender, a) == map[]; }
  }

  lemma NonceOrderEnds(pending: Pending)
    requires InNonceOrder(pending) != []
    ensures pending != map[]
    ensures var r := InNonceOrder(pending);
      r[|r| - 1] == pending[MaxNonce(pending)] && r[..|r| - 1] == InNonceOrder(pending - {MaxNonce(pending)})
  {
  }

  /** store.coinbase_heights */
  function CoinbaseHeights(rows: map<AddressKey, Digest>, a: Address, above: int): (r: set<nat>)
    ensures forall h: nat :: h in r <==> (a, h, 0) in rows && h > above
  {
    var keys := set k | k in rows && k.0 == a && k.2 == 0 && k.1 > above;
    assert forall h: nat :: (a, h, 0) in keys <==> (a, h, 0) in rows && h > above;
    assert forall k :: k in keys ==> k == (a, k.1, 0);
    set k | k in keys :: k.1
  }

  lemma RowsAreHeights(p: Params, chain: seq<Block>, a: Address, heights: set<nat>)
    requires ValidChain(p, chain)
    requires heights == CoinbaseHeights(Replay(p, chain).value.addressIndex, a, |chain| - 1 - p.coinbaseMaturity)
    ensures heights == ImmatureHeights(p, chain, a)
  {
    hide Replay;
    forall h: nat
      ensures (a, h, 0) in Replay(p, chain).value.addressIndex <==>
        h < |chain| && |chain[h].txs| > 0 && chain[h].txs[0].Coinbase? && chain[h].txs[0].address == a
    {
      CoinbaseRows(p, chain, a, h);
    }
  }

  lemma MainBlockIs(p: Params, t: Tables, chain: seq<Block>, h: nat)
    requires Inv(p, t, chain) && h < |chain|
    ensures |t.active.main| == |chain| && t.active.main[h] in t.headers
    ensures t.headers[t.active.main[h]].block == chain[h]
  {
    hide Replay, Ledger.WellFormed, Work, SealedEnd, Sound, StoredOk;
    ChainShape(p, chain);
  }
}
