/**
 The tables of the active chain as a function of its blocks: replaying a chain from genesis,
 one `_connect` after another, and what holds of every chain that replays.
 */
module ActiveChain {
  import opened Types
  import opened Ledger
  import opened Snapshot
  import Merkle
  import MedianTime

  datatype TxLocation = TxLocation(blockId: Digest, height: nat, position: nat)

  /** Where an address appears: address, height, position in the block. */
  type AddressKey = (Address, nat, nat)

  /** main_chain, accounts, undo, snapshots, tx_index and address_index of the store. */
  datatype Active = Active(
    main: seq<Digest>,
    accounts: Accounts,
    undo: map<Digest, map<Address, Account>>,
    snapshots: map<nat, Digest>,
    txIndex: map<Digest, TxLocation>,
    addressIndex: map<AddressKey, Digest>)

  // --- indexes ------------------------------------------------------------------------

  /** tx_index after inserting the first n transactions of the block. */
  function IndexTxs(index: map<Digest, TxLocation>, b: Block, n: nat): map<Digest, TxLocation>
    requires n <= |b.txs|
  {
    if n == 0 then index
    else IndexTxs(index, b, n - 1)[TxHash(b.txs[n - 1]) := TxLocation(b.Id(), b.header.height, n - 1)]
  }

  function RowsOf(addresses: set<Address>, height: nat, position: nat, id: Digest): (r: map<AddressKey, Digest>)
    ensures forall k :: k in r <==> k.0 in addresses && k.1 == height && k.2 == position
    ensures forall k :: k in r ==> r[k] == id
  {
    var keys := set a | a in addresses :: (a, height, position);
    map k | k in keys :: id
  }

  function AddressRows(b: Block, n: nat, p: Params): (r: map<AddressKey, Digest>)
    requires n <= |b.txs|
    ensures forall k :: k in r ==> k.1 == b.header.height && k.2 < n
  {
    if n == 0 then map[]
    else AddressRows(b, n - 1, p) +
         RowsOf(AddressesOf(b.txs[n - 1], p), b.header.height, n - 1, TxHash(b.txs[n - 1]))
  }

  /** DELETE ... WHERE height = ? on both indexes. */
  function WithoutHeight(index: map<Digest, TxLocation>, height: nat): map<Digest, TxLocation> {
    map k | k in index && index[k].height != height :: index[k]
  }

  function RowsWithoutHeight(rows: map<AddressKey, Digest>, height: nat): map<AddressKey, Digest> {
    map k | k in rows && k.1 != height :: rows[k]
  }

  /** One of the first n transactions has this id. */
  predicate Names(b: Block, n: nat, k: Digest)
    requires n <= |b.txs|
  {
    exists i :: 0 <= i < n && k == TxHash(b.txs[i])
  }

  lemma {:induction false} IndexTxsFacts(index: map<Digest, TxLocation>, b: Block, n: nat)
    requires n <= |b.txs|
    ensures var r := IndexTxs(index, b, n);
      && (forall k :: k in r <==> k in index || Names(b, n, k))
      && (forall k :: k in r && !Names(b, n, k) ==> r[k] == index[k])
      && (forall k :: k in r && Names(b, n, k) ==> r[k].height == b.header.height)
  {
    if n > 0 {
      IndexTxsFacts(index, b, n - 1);
      forall k
        ensures Names(b, n, k) <==> Names(b, n - 1, k) || k == TxHash(b.txs[n - 1])
      {
      }
    }
  }

  // --- connecting and disconnecting one block ------------------------------------------

  /** chain._context for a child of the last block. */
  function ContextFor(p: Params, chain: seq<Block>, a: Active): Result<Context>
    requires ValidParams(p) && |chain| > 0
  {
    var parent := chain[|chain| - 1].header;
    var height := parent.height + 1;
    var due := height - p.coinbaseMaturity;
    if due >= |chain| || (due >= 0 && |chain[due].txs| == 0) then Err(MissingContext)
    else
      var matured := if due >= 0 then Some(chain[due].txs[0]) else None;
      var snap := SnapshotHeight(height, p);
      if snap.Some? && snap.value !in a.snapshots then Err(MissingContext)
      else Ok(Context(parent, MedianTime.MedianTimePast(parent, p), p.nextTarget(parent), matured,
                      if snap.Some? then a.snapshots[snap.value] else NO_SNAPSHOT))
  }

  /** chain._connect: the tables after appending a block, or the rule it breaks. */
  ghost function Connect(p: Params, chain: seq<Block>, a: Active, b: Block): Result<Active>
    requires ValidParams(p) && |chain| > 0
  {
    var ctx :- ContextFor(p, chain, a);
    var accounts :- ApplyBlock(b, ctx, a.accounts, p, false);
    Ok(Active(
         a.main + [b.Id()],
         accounts,
         a.undo[b.Id() := Previous(a.accounts, Touched(b, ctx.matured, p))],
         if IsSnapshotPoint(b.header.height, p)
         then a.snapshots[b.header.height := StateRoot(accounts)] else a.snapshots,
         IndexTxs(a.txIndex, b, |b.txs|),
         a.addressIndex + AddressRows(b, |b.txs|, p)))
  }

  /** chain._disconnect_tip */
  function Disconnect(a: Active, b: Block): Active
    requires |a.main| > 0 && b.Id() in a.undo
  {
    Active(a.main[..|a.main| - 1],
           Write(a.accounts, a.undo[b.Id()]),
           a.undo - {b.Id()},
           a.snapshots - {b.header.height},
           WithoutHeight(a.txIndex, b.header.height),
           RowsWithoutHeight(a.addressIndex, b.header.height))
  }

  /** chain._init_genesis: block 0 is indexed but changes no account. */
  function AtGenesis(p: Params): Active
    requires ValidParams(p)
  {
    var g := p.genesis;
    Active([g.Id()], map[], map[], map[], IndexTxs(map[], g, |g.txs|), AddressRows(g, |g.txs|, p))
  }

  /** Replaying a chain from genesis, every rule checked at every block. */
  ghost function Replay(p: Params, chain: seq<Block>): Result<Active>
    requires ValidParams(p) && |chain| > 0
  {
    if |chain| == 1 then
      if chain[0] == p.genesis then Ok(AtGenesis(p)) else Err(BadGenesis)
    else
      var a :- Replay(p, chain[..|chain| - 1]);
      Connect(p, chain[..|chain| - 1], a, chain[|chain| - 1])
  }

  ghost predicate ValidChain(p: Params, chain: seq<Block>) {
    ValidParams(p) && |chain| > 0 && Replay(p, chain).Ok?
  }

  function Ids(chain: seq<Block>): (r: seq<Digest>)
    ensures |r| == |chain|
    ensures forall i :: 0 <= i < |chain| ==> r[i] == chain[i].Id()
  {
    seq(|chain|, i requires 0 <= i < |chain| => chain[i].Id())
  }

  /** Connect, field by field. */
  lemma ConnectParts(p: Params, chain: seq<Block>, a: Active, b: Block)
    requires ValidParams(p) && |chain| > 0
    requires Connect(p, chain, a, b).Ok?
    ensures ContextFor(p, chain, a).Ok? && ContextFor(p, chain, a).value.parent == chain[|chain| - 1].header
    ensures WellFormed(b, p)
    ensures b.header.height == chain[|chain| - 1].header.height + 1
    ensures b.header.prevId == chain[|chain| - 1].Id()
    ensures var ctx, r := ContextFor(p, chain, a).value, Connect(p, chain, a, b).value;
      && ApplyBody(b, ctx.matured, a.accounts, p) == Ok(r.accounts)
      && r.main == a.main + [b.Id()]
      && r.undo == a.undo[b.Id() := Previous(a.accounts, Touched(b, ctx.matured, p))]
      && r.snapshots == (if IsSnapshotPoint(b.header.height, p)
                         then a.snapshots[b.header.height := StateRoot(r.accounts)] else a.snapshots)
      && r.txIndex == IndexTxs(a.txIndex, b, |b.txs|)
      && r.addressIndex == a.addressIndex + AddressRows(b, |b.txs|, p)
  {
    hide CheckBlock, ApplyBody, SnapshotHeight, IsSnapshotPoint, MedianTime.MedianTimePast, IndexTxs, AddressRows;
    hide StateRoot, Touched, Previous;
  }

  // --- facts about every valid chain ----------------------------------------------------

  lemma ReplayExtends(p: Params, chain: seq<Block>, b: Block)
    requires ValidParams(p) && |chain| > 0
    ensures Replay(p, chain + [b]) ==
      if Replay(p, chain).Ok? then Connect(p, chain, Replay(p, chain).value, b) else Replay(p, chain)
  {
    assert (chain + [b])[..|chain|] == chain;
  }

  lemma {:induction false} PrefixIsValid(p: Params, chain: seq<Block>, n: nat)
    requires ValidChain(p, chain) && 0 < n <= |chain|
    ensures ValidChain(p, chain[..n])
  {
    if n < |chain| {
      PrefixIsValid(p, chain[..|chain| - 1], n);
      assert chain[..|chain| - 1][..n] == chain[..n];
    } else {
      assert chain[..n] == chain;
    }
  }

  /** Heights count the blocks, every block links to the one before, and main_chain lists their ids. */
  ghost predicate Shaped(p: Params, chain: seq<Block>, a: Active) {
    && |chain| > 0 && chain[0] == p.genesis
    && a.main == Ids(chain)
    && (forall i :: 0 <= i < |chain| ==> chain[i].header.height == i)
    && (forall i :: 0 < i < |chain| ==> chain[i].header.prevId == chain[i - 1].Id() && WellFormed(chain[i], p))
  }

  lemma ConnectKeepsShape(p: Params, chain: seq<Block>, a: Active, b: Block)
    requires ValidParams(p) && |chain| > 0
    requires Shaped(p, chain, a)
    requires Connect(p, chain, a, b).Ok?
    ensures Shaped(p, chain + [b], Connect(p, chain, a, b).value)
  {
    hide Connect, ContextFor, CheckBlock, ApplyBody, SnapshotHeight, IsSnapshotPoint;
    ConnectParts(p, chain, a, b);
    var longer := chain + [b];
    assert Ids(longer) == Ids(chain) + [b.Id()];
    forall i | 0 < i < |longer|
      ensures longer[i].header.prevId == longer[i - 1].Id() && WellFormed(longer[i], p)
    {
      if i < |chain| {
        assert longer[i] == chain[i] && longer[i - 1] == chain[i - 1];
      }
    }
  }

  lemma {:induction false} ChainShape(p: Params, chain: seq<Block>)
    requires ValidChain(p, chain)
    ensures Shaped(p, chain, Replay(p, chain).value)
  {
    hide Connect, ContextFor, CheckBlock, ApplyBody, SnapshotHeight, IsSnapshotPoint;
    var n := |chain| - 1;
    if n > 0 {
      ChainShape(p, chain[..n]);
      ConnectKeepsShape(p, chain[..n], Replay(p, chain[..n]).value, chain[n]);
      assert chain == chain[..n] + [chain[n]];
    }
  }

  /** No account record is empty, confirmed nonces are above every nonce used on the chain, and
      the tx index holds only transactions of lower blocks. */
  ghost predicate Bounded(p: Params, chain: seq<Block>, a: Active) {
    && Normal(a.accounts)
    && (forall k :: k in a.txIndex ==> k.TxHash? && a.txIndex[k].height < |chain|)
    && (forall k :: k in a.txIndex && k.TxHash? && k.tx.Transfer? ==>
        k.tx.nonce < Get(a.accounts, Sender(p, k.tx)).nonce)
    && (forall k :: k in a.txIndex && k.TxHash? && k.tx.Coinbase? ==> k.tx.height < |chain|)
    && (forall k :: k in a.addressIndex ==> k.1 < |chain|)
    && (forall h :: h in a.snapshots ==> h < |chain|)
    && (forall id :: id in a.undo ==> id.HeaderHash? && 0 < id.header.height < |chain|)
  }

  /** Every transaction of the block is new to the index, and used up afterwards. */
  lemma BlockTxsAreNew(p: Params, chain: seq<Block>, a: Active, b: Block, matured: Option<Transaction>, i: nat)
    requires WellFormed(b, p) && b.header.height == |chain| && Bounded(p, chain, a)
    requires ApplyBody(b, matured, a.accounts, p).Ok?
    requires i < |b.txs|
    ensures TxHash(b.txs[i]) !in a.txIndex
    ensures b.txs[i].Transfer? ==>
      b.txs[i].nonce < Get(ApplyBody(b, matured, a.accounts, p).value, Sender(p, b.txs[i])).nonce
    ensures b.txs[i].Coinbase? ==> b.txs[i].height == |chain|
  {
    hide ApplyBody, Merkle.TxRoot, BlockSize, CheckTransactions, Touched;
    BodyFacts(b, matured, a.accounts, p);
    if i > 0 {
      assert b.txs[i] == b.txs[1..][i - 1];
      assert b.txs[i] in b.txs[1..];
    }
  }

  lemma ConnectKeepsBounds(p: Params, chain: seq<Block>, a: Active, b: Block)
    requires ValidParams(p) && |chain| > 0
    requires Shaped(p, chain, a) && Bounded(p, chain, a)
    requires Connect(p, chain, a, b).Ok?
    ensures Bounded(p, chain + [b], Connect(p, chain, a, b).value)
    ensures forall i :: 0 <= i < |b.txs| ==> TxHash(b.txs[i]) !in a.txIndex
    ensures b.Id() !in a.undo && b.header.height == |chain| && b.header.height !in a.snapshots
  {
    hide Connect, ContextFor, CheckBlock, ApplyBody, SnapshotHeight, IsSnapshotPoint, Touched, AddressesOf, IndexTxs;
    hide AddressRows, Previous, StateRoot;
    ConnectParts(p, chain, a, b);
    var ctx := ContextFor(p, chain, a).value;
    var r := Connect(p, chain, a, b).value;
    BodyFacts(b, ctx.matured, a.accounts, p);
    IndexTxsFacts(a.txIndex, b, |b.txs|);
    forall i | 0 <= i < |b.txs|
      ensures TxHash(b.txs[i]) !in a.txIndex
      ensures b.txs[i].Transfer? ==> b.txs[i].nonce < Get(r.accounts, Sender(p, b.txs[i])).nonce
      ensures b.txs[i].Coinbase? ==> b.txs[i].height == |chain|
    {
      BlockTxsAreNew(p, chain, a, b, ctx.matured, i);
    }
  }

  lemma {:induction false} ChainBounds(p: Params, chain: seq<Block>)
    requires ValidChain(p, chain)
    ensures Bounded(p, chain, Replay(p, chain).value)
  {
    hide Connect, ContextFor, CheckBlock, ApplyBody, SnapshotHeight, IsSnapshotPoint;
    var n := |chain| - 1;
    if n > 0 {
      ChainBounds(p, chain[..n]);
      ChainShape(p, chain[..n]);
      ConnectKeepsBounds(p, chain[..n], Replay(p, chain[..n]).value, chain[n]);
      assert chain == chain[..n] + [chain[n]];
    } else {
      IndexTxsFacts(map[], p.genesis, 1);
    }
  }

  /** No transaction id occurs twice on a valid chain: indexing a connected block never collides. */
  lemma ConnectNeverCollides(p: Params, chain: seq<Block>, b: Block)
    requires ValidChain(p, chain) && ValidChain(p, chain + [b])
    ensures var a := Replay(p, chain).value;
      && (forall i :: 0 <= i < |b.txs| ==> TxHash(b.txs[i]) !in a.txIndex)
      && (forall k :: k in AddressRows(b, |b.txs|, p) ==> k !in a.addressIndex)
      && b.Id() !in a.undo && b.Id() !in a.main && b.header.height !in a.snapshots
  {
    hide Connect, ContextFor, CheckBlock, ApplyBody, SnapshotHeight, IsSnapshotPoint;
    ReplayExtends(p, chain, b);
    ChainShape(p, chain);
    ChainBounds(p, chain);
    ConnectKeepsBounds(p, chain, Replay(p, chain).value, b);
  }

  lemma UnindexUndoesIndex(index: map<Digest, TxLocation>, b: Block, n: nat)
    requires n <= |b.txs|
    requires forall i :: 0 <= i < n ==> TxHash(b.txs[i]) !in index
    requires forall k :: k in index ==> index[k].height != b.header.height
    ensures WithoutHeight(IndexTxs(index, b, n), b.header.height) == index
  {
    IndexTxsFacts(index, b, n);
  }

  /** Undoing the tip gives back exactly the tables before it. */
  lemma DisconnectUndoesConnect(p: Params, chain: seq<Block>, b: Block)
    requires ValidChain(p, chain) && ValidChain(p, chain + [b])
    ensures var r := Replay(p, chain + [b]).value;
      b.Id() in r.undo && |r.main| > 0 && Disconnect(r, b) == Replay(p, chain).value
  {
    hide Connect, ContextFor, CheckBlock, ApplyBody, SnapshotHeight, IsSnapshotPoint, Touched, IndexTxs, Write;
    hide WithoutHeight, Previous, Replay, AddressRows, StateRoot;
    ReplayExtends(p, chain, b);
    var a, r := Replay(p, chain).value, Replay(p, chain + [b]).value;
    ConnectParts(p, chain, a, b);
    ChainShape(p, chain);
    ChainBounds(p, chain);
    ConnectKeepsBounds(p, chain, a, b);
    UndoRestores(b, ContextFor(p, chain, a).value.matured, a.accounts, p);
    UnindexUndoesIndex(a.txIndex, b, |b.txs|);
    var d := Disconnect(r, b);
    assert d.main == a.main;
    assert d.undo == a.undo by { assert r.undo - {b.Id()} == a.undo; }
    assert d.snapshots == a.snapshots;
    assert d.addressIndex == a.addressIndex;
  }

  /** The snapshot table holds one root per finished chunk: the root of the replayed state there. */
  ghost predicate SnapshotsExact(p: Params, chain: seq<Block>, a: Active)
    requires ValidChain(p, chain)
  {
    && (forall h :: h in a.snapshots <==> 0 <= h < |chain| && IsSnapshotPoint(h, p))
    && (forall h :: h in a.snapshots && h < |chain| ==>
        ValidChain(p, chain[..h + 1]) && a.snapshots[h] == StateRoot(Replay(p, chain[..h + 1]).value.accounts))
  }

  lemma SnapshotsStep(p: Params, chain: seq<Block>, b: Block)
    requires ValidChain(p, chain) && ValidChain(p, chain + [b])
    requires SnapshotsExact(p, chain, Replay(p, chain).value)
    ensures SnapshotsExact(p, chain + [b], Replay(p, chain + [b]).value)
  {
    hide Replay, Connect, ContextFor, CheckBlock, ApplyBody, SnapshotHeight, IsSnapshotPoint, IndexTxs, AddressRows;
    hide StateRoot, Touched, Previous;
    ReplayExtends(p, chain, b);
    ChainShape(p, chain);
    var longer := chain + [b];
    var a, r := Replay(p, chain).value, Replay(p, longer).value;
    ConnectParts(p, chain, a, b);
    forall h | h in r.snapshots && h < |longer|
      ensures ValidChain(p, longer[..h + 1]) && r.snapshots[h] == StateRoot(Replay(p, longer[..h + 1]).value.accounts)
    {
      if h == |chain| {
        assert longer[..h + 1] == longer;
      } else {
        assert longer[..h + 1] == chain[..h + 1];
      }
    }
  }

  lemma {:induction false} ChainSnapshots(p: Params, chain: seq<Block>)
    requires ValidChain(p, chain)
    ensures SnapshotsExact(p, chain, Replay(p, chain).value)
  {
    hide Connect, IsSnapshotPoint;
    var n := |chain| - 1;
    if n > 0 {
      ChainSnapshots(p, chain[..n]);
      assert chain == chain[..n] + [chain[n]];
      SnapshotsStep(p, chain[..n], chain[n]);
    } else {
      GenesisIsNoSnapshotPoint(p);
    }
  }

  lemma GenesisIsNoSnapshotPoint(p: Params)
    requires ValidParams(p)
    ensures !IsSnapshotPoint(0, p)
  {
  }

  /** The coinbase of the block at height `due`. */
  ghost predicate MaturesAt(matured: Option<Transaction>, chain: seq<Block>, due: nat) {
    && due < |chain| && |chain[due].txs| > 0
    && matured == Some(chain[due].txs[0])
    && chain[due].txs[0].Coinbase? && chain[due].txs[0].height == due
  }

  /** Connecting never runs into a missing matured coinbase or a missing snapshot. */
  lemma ContextIsDefined(p: Params, chain: seq<Block>)
    requires ValidChain(p, chain)
    ensures ContextFor(p, chain, Replay(p, chain).value).Ok?
    ensures var ctx := ContextFor(p, chain, Replay(p, chain).value).value;
      && ctx.parent == chain[|chain| - 1].header
      && ctx.parent.height + 1 == |chain|
      && (|chain| < p.coinbaseMaturity ==> ctx.matured == None)
    ensures |chain| >= p.coinbaseMaturity ==>
      MaturesAt(ContextFor(p, chain, Replay(p, chain).value).value.matured, chain, |chain| - p.coinbaseMaturity)
  {
    hide MedianTime.MedianTimePast, Connect, Merkle.TxRoot, BlockSize, CheckTransactions;
    ChainShape(p, chain);
    ChainSnapshots(p, chain);
    var snap := SnapshotHeight(|chain|, p);
    var due := |chain| - p.coinbaseMaturity;
    if due > 0 { assert WellFormed(chain[due], p); }
  }

  // --- conservation ---------------------------------------------------------------------

  function CoinbaseAmount(b: Block): nat {
    if |b.txs| > 0 && b.txs[0].Coinbase? then b.txs[0].amount else 0
  }

  /** Coinbase amounts of the blocks at height `from` and above. */
  function CoinbasesFrom(chain: seq<Block>, from: nat): nat {
    if |chain| <= from then 0
    else CoinbasesFrom(chain[..|chain| - 1], from) + CoinbaseAmount(chain[|chain| - 1])
  }

  lemma {:induction false} CoinbasesFromSplit(chain: seq<Block>, from: nat)
    requires from < |chain|
    ensures CoinbasesFrom(chain, from) == CoinbaseAmount(chain[from]) + CoinbasesFrom(chain, from + 1)
  {
    if from < |chain| - 1 {
      CoinbasesFromSplit(chain[..|chain| - 1], from);
    }
  }

  /** Rewards not spendable yet: those of the last `coinbase_maturity` blocks. */
  function Immature(p: Params, chain: seq<Block>): nat {
    CoinbasesFrom(chain, if |chain| >= p.coinbaseMaturity then |chain| - p.coinbaseMaturity else 0)
  }

  /** One block reward per block. */
  function Minted(p: Params, blocks: nat): nat { blocks * p.blockReward }

  /** All balances plus the rewards not matured yet are exactly one block reward per block. */
  lemma {:induction false} CoinsAreConserved(p: Params, chain: seq<Block>)
    requires ValidChain(p, chain)
    ensures Total(Replay(p, chain).value.accounts) + Immature(p, chain) == Minted(p, |chain|)
  {
    hide Connect, Immature, Minted;
    var n := |chain| - 1;
    if n == 0 {
      GenesisIsConserved(p, chain);
    } else {
      CoinsAreConserved(p, chain[..n]);
      assert chain == chain[..n] + [chain[n]];
      CoinsStep(p, chain[..n], chain[n]);
    }
  }

  lemma GenesisIsConserved(p: Params, chain: seq<Block>)
    requires ValidChain(p, chain) && |chain| == 1
    ensures Total(Replay(p, chain).value.accounts) + Immature(p, chain) == Minted(p, 1)
  {
    assert CoinbasesFrom(chain[..0], 0) == 0;
    assert CoinbasesFrom(chain, 0) == p.blockReward;
    assert Total(map[]) == 0;
  }

  lemma CoinsStep(p: Params, chain: seq<Block>, b: Block)
    requires ValidChain(p, chain) && ValidChain(p, chain + [b])
    requires Total(Replay(p, chain).value.accounts) + Immature(p, chain) == Minted(p, |chain|)
    ensures Total(Replay(p, chain + [b]).value.accounts) + Immature(p, chain + [b]) == Minted(p, |chain| + 1)
  {
    hide Replay, Connect, ContextFor, CheckBlock, ApplyBody, SnapshotHeight, IsSnapshotPoint, Minted;
    var a := Replay(p, chain).value;
    ReplayExtends(p, chain, b);
    ContextIsDefined(p, chain);
    ChainBounds(p, chain);
    ConnectParts(p, chain, a, b);
    BodyTotal(b, ContextFor(p, chain, a).value.matured, a.accounts, p);
    if |chain| >= p.coinbaseMaturity {
      CoinbasesFromSplit(chain, |chain| - p.coinbaseMaturity);
    }
    assert (chain + [b])[..|chain|] == chain;
    MintedStep(p, |chain|);
  }

  lemma MintedStep(p: Params, n: nat)
    ensures Minted(p, n + 1) == Minted(p, n) + p.blockReward
  {
  }

  // --- an id fixes its whole chain --------------------------------------------------------

  /** Two valid chains ending in the same block id are the same chain. */
  lemma {:induction false} SameTipSameChain(p: Params, c: seq<Block>, d: seq<Block>)
    requires ValidChain(p, c) && ValidChain(p, d)
    requires c[|c| - 1].Id() == d[|d| - 1].Id()
    ensures c == d
  {
    hide Connect, ContextFor, ApplyBody, CheckBlock;
    ChainShape(p, c);
    ChainShape(p, d);
    assert |c| == |d|;
    var n := |c| - 1;
    if n > 0 {
      SameIdSameBlock(c[n], d[n], p);
      assert c[..n][n - 1].Id() == d[..n][n - 1].Id();
      SameTipSameChain(p, c[..n], d[..n]);
      assert c == c[..n] + [c[n]] && d == d[..n] + [d[n]];
    }
  }
}
