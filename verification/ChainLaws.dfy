/**
 The rules of a valid chain in plain quantities: when a block may follow a chain, told by timestamps, targets, roots,
 signatures and the sums of what was paid and spent, and by nothing else.
 */
module ChainLaws {
  import opened Types
  import opened Ledger
  import opened ActiveChain
  import opened Balances
  import MedianTime
  import Merkle
  import Snapshot

  // --- without a chain: transactions and blocks -----------------------------------------------

  predicate OutputsAllowed(outputs: seq<Output>) {
    forall o :: o in outputs ==> o.address < TWO_160 && 1 <= o.amount <= MAX_AMOUNT
  }

  lemma {:induction false} OutputRules(outputs: seq<Output>)
    ensures CheckOutputs(outputs).None? <==> OutputsAllowed(outputs)
  {
    if outputs != [] {
      var n := |outputs| - 1;
      OutputRules(outputs[..n]);
      assert outputs == outputs[..n] + [outputs[n]];
    }
  }

  /** A transaction that may stand in a block of this network. */
  predicate Allowed(tx: Transaction, p: Params) {
    && tx.networkId == p.networkId && |tx.memo| <= 255
    && match tx
       case Coinbase(_, _, address, amount, _) => address < TWO_160 && amount <= MAX_AMOUNT
       case Transfer(_, _, _, fee, outputs, _, _) =>
         && 1 <= |outputs| <= 255 && OutputsAllowed(outputs)
         && SumAmounts(outputs) + fee <= MAX_AMOUNT && p.validSignature(tx)
  }

  lemma TransactionRules(tx: Transaction, p: Params)
    ensures CheckTransaction(tx, p).None? <==> Allowed(tx, p)
  {
    if tx.Transfer? { OutputRules(tx.outputs); }
  }

  lemma {:induction false} EachIsChecked(txs: seq<Transaction>, p: Params)
    ensures CheckTransactions(txs, p).None? <==> forall tx :: tx in txs ==> CheckTransaction(tx, p).None?
  {
    hide CheckTransaction;
    if txs != [] {
      var n := |txs| - 1;
      EachIsChecked(txs[..n], p);
      assert txs == txs[..n] + [txs[n]];
    }
  }

  /** What a block must be whatever chain it is for. */
  ghost predicate Sane(b: Block, p: Params) {
    && b.header.version == 1 && BlockSize(b) <= p.maxBlockSize
    && |b.txs| > 0 && b.txs[0].Coinbase? && b.txs[0].height == b.header.height
    && (forall i :: 0 < i < |b.txs| ==> b.txs[i].Transfer?)
    && (forall i, j :: 0 <= i < j < |b.txs| ==> b.txs[i] != b.txs[j])
    && b.header.merkleRoot == Merkle.TxRoot(b.txs)
    && forall tx :: tx in b.txs ==> Allowed(tx, p)
  }

  lemma BlockRules(b: Block, p: Params)
    ensures WellFormed(b, p) <==> Sane(b, p)
  {
    hide Merkle.TxRoot, CheckTransaction, Allowed, BlockSize;
    EachIsChecked(b.txs, p);
    forall tx | tx in b.txs
      ensures CheckTransaction(tx, p).None? <==> Allowed(tx, p)
    {
      TransactionRules(tx, p);
    }
    assert |b.txs| > 0 ==>
      (AllTransfers(b.txs[1..]) <==> forall i :: 0 < i < |b.txs| ==> b.txs[i].Transfer?) by {
      if |b.txs| > 0 { assert forall i :: 0 < i < |b.txs| ==> b.txs[i] == b.txs[1..][i - 1]; }
    }
  }

  // --- time ---------------------------------------------------------------------------------------

  function Stamps(blocks: seq<Block>): seq<nat> {
    seq(|blocks|, i requires 0 <= i < |blocks| => blocks[i].header.timestamp)
  }

  /** The last so many blocks, or all. */
  function LastOf(chain: seq<Block>, n: nat): seq<Block> {
    if |chain| <= n then chain else chain[|chain| - n..]
  }

  lemma {:induction false} EarlierAppend(times: seq<nat>, x: nat, t: nat)
    ensures MedianTime.Earlier(times + [x], t) == MedianTime.Earlier(times, t) + if x < t then 1 else 0
  {
    if times == [] {
      assert [x][1..] == [];
    } else {
      EarlierAppend(times[1..], x, t);
      assert (times + [x])[1..] == times[1..] + [x];
    }
  }

  lemma StampsAppend(blocks: seq<Block>, b: Block, t: nat)
    ensures |Stamps(blocks + [b])| == |Stamps(blocks)| + 1
    ensures MedianTime.Earlier(Stamps(blocks + [b]), t) ==
      MedianTime.Earlier(Stamps(blocks), t) + if b.header.timestamp < t then 1 else 0
  {
    EarlierAppend(Stamps(blocks), b.header.timestamp, t);
    assert Stamps(blocks + [b]) == Stamps(blocks) + [b.header.timestamp];
  }

  lemma LastSplits(chain: seq<Block>, n: nat)
    requires |chain| > 1 && n > 0
    ensures LastOf(chain, n) == LastOf(chain[..|chain| - 1], n - 1) + [chain[|chain| - 1]]
  {
  }

  lemma LastOfOne(chain: seq<Block>, n: nat)
    requires |chain| == 1 && n > 0
    ensures LastOf(chain, n) == [] + [chain[0]]
  {
  }

  /** The timestamps behind the tip are those of the last blocks. */
  lemma {:induction false} RecentAreLast(p: Params, chain: seq<Block>, n: nat, t: nat)
    requires ValidChain(p, chain)
    ensures var times := MedianTime.RecentTimes(chain[|chain| - 1].Id(), n);
      && |times| == |LastOf(chain, n)|
      && MedianTime.Earlier(times, t) == MedianTime.Earlier(Stamps(LastOf(chain, n)), t)
    decreases n
  {
    hide Replay, WellFormed, LastOf, Stamps, Snapshot.StateRoot;
    var k := |chain| - 1;
    var b := chain[k];
    assert |chain| > 0 && b.header.height == k && (k > 0 ==> b.header.prevId == chain[k - 1].Id()) by {
      ChainShape(p, chain);
    }
    if n == 0 {
      assert LastOf(chain, 0) == [] && Stamps([]) == [] by { NoStamps(chain); }
    } else if k == 0 {
      LastOfOne(chain, n);
      StampsAppend([], b, t);
      NoStamps(chain);
    } else {
      PrefixIsValid(p, chain, k);
      RecentAreLast(p, chain[..k], n - 1, t);
      LastSplits(chain, n);
      StampsAppend(LastOf(chain[..k], n - 1), b, t);
      assert chain[..k][k - 1] == chain[k - 1];
      var rest := MedianTime.RecentTimes(chain[k - 1].Id(), n - 1);
      assert MedianTime.RecentTimes(b.Id(), n) == [b.header.timestamp] + rest;
      assert ([b.header.timestamp] + rest)[1..] == rest;
    }
  }

  lemma NoStamps(chain: seq<Block>)
    ensures LastOf(chain, 0) == [] && Stamps([]) == [] && MedianTime.Earlier([], 0) == 0
  {
  }

  /** Later than more than half of the last blocks. */
  predicate InTime(p: Params, chain: seq<Block>, t: nat) {
    2 * MedianTime.Earlier(Stamps(LastOf(chain, p.medianTimeSpan)), t) > |LastOf(chain, p.medianTimeSpan)|
  }

  lemma TimeRule(p: Params, chain: seq<Block>, t: nat)
    requires ValidChain(p, chain)
    ensures t > MedianTime.MedianTimePast(chain[|chain| - 1].header, p) <==> InTime(p, chain, t)
  {
    hide Replay, MedianTime.Median;
    RecentAreLast(p, chain, p.medianTimeSpan, t);
    MedianTime.AfterMedian(MedianTime.RecentTimes(chain[|chain| - 1].Id(), p.medianTimeSpan), t);
  }

  // --- the snapshot a block carries -----------------------------------------------------------------

  /** The last block of a chunk, far enough below this height. */
  predicate IsDue(p: Params, s: nat, height: nat) {
    p.chunkSize > 0 && (s + 1) % p.chunkSize == 0 && s + 1 + p.snapshotDelay <= height
  }

  /** The root a block at this height must carry: that of the accounts after the last such block, if there is one. */
  ghost predicate CarriesRoot(p: Params, chain: seq<Block>, root: Digest)
    requires ValidChain(p, chain)
  {
    && ((forall s: nat :: !IsDue(p, s, |chain|)) ==> root == NO_SNAPSHOT)
    && (forall s: nat :: IsDue(p, s, |chain|) && (forall later: nat :: IsDue(p, later, |chain|) ==> later <= s) ==>
          s < |chain| && ValidChain(p, chain[..s + 1]) && root == StateRootAt(p, chain, s))
  }

  ghost function StateRootAt(p: Params, chain: seq<Block>, h: nat): Digest
    requires h < |chain| && ValidChain(p, chain[..h + 1])
  {
    Snapshot.StateRoot(Replay(p, chain[..h + 1]).value.accounts)
  }

  lemma LastDue(p: Params, height: nat)
    requires ValidParams(p)
    ensures var snap := Snapshot.SnapshotHeight(height, p);
      && (snap.None? <==> forall s: nat :: !IsDue(p, s, height))
      && (snap.Some? ==> snap.value < height && Snapshot.IsSnapshotPoint(snap.value, p) && IsDue(p, snap.value, height)
                         && forall s: nat :: IsDue(p, s, height) ==> s <= snap.value)
  {
    var snap := Snapshot.SnapshotHeight(height, p);
    forall s: nat
      ensures IsDue(p, s, height) <==> Snapshot.IsSnapshotPoint(s, p) && s + 1 + p.snapshotDelay <= height
    {
    }
    assert snap.Some? ==> IsDue(p, snap.value, height);
  }

  /** The root connecting demands is that one. */
  lemma SnapshotRule(p: Params, chain: seq<Block>, root: Digest)
    requires ValidChain(p, chain) && ContextFor(p, chain, Replay(p, chain).value).Ok?
    ensures root == ContextFor(p, chain, Replay(p, chain).value).value.snapshotRoot <==> CarriesRoot(p, chain, root)
  {
    hide Replay, MedianTime.MedianTimePast, Snapshot.StateRoot, WellFormed, IsDue, Snapshot.IsSnapshotPoint,
      Snapshot.SnapshotHeight, IsGenesis;
    ChainShape(p, chain);
    ChainSnapshots(p, chain);
    LastDue(p, |chain|);
  }

  // --- funds and nonces -----------------------------------------------------------------------------

  /** The blocks whose reward the next block can spend. */
  function Ripe(p: Params, chain: seq<Block>): seq<Block>
    requires p.coinbaseMaturity >= 1
  {
    if |chain| < p.coinbaseMaturity then [] else chain[..|chain| + 1 - p.coinbaseMaturity]
  }

  /** What an address can spend in the next block: all it was ever paid, less all it spent. */
  function Spendable(p: Params, chain: seq<Block>, a: Address): int
    requires p.coinbaseMaturity >= 1
  {
    RewardsOn(Ripe(p, chain), a) + PaidOn(chain, a) - SpentOn(p, chain, a)
  }

  /** One transfer of the next block: it carries the number of transfers its sender sent before, the sender can pay for
      it, and it brings no one above the largest amount. */
  ghost predicate Payable(p: Params, chain: seq<Block>, txs: seq<Transaction>, i: nat)
    requires AllTransfers(txs) && i < |txs| && p.coinbaseMaturity >= 1
  {
    var tx, a, before := txs[i], Sender(p, txs[i]), txs[..i];
    && tx.nonce == SentOn(p, chain, a) + Sent(p, before, a)
    && TotalSpent(tx) + Spent(p, before, a) <= Spendable(p, chain, a) + Paid(before, a)
    && forall o :: o in tx.outputs ==>
         Spendable(p, chain, o.address) + Paid(txs[..i + 1], o.address)
           <= MAX_AMOUNT + Spent(p, txs[..i + 1], o.address)
  }

  /** The body of the next block: every transfer can be paid, and the coinbase claims the reward and the fees. */
  ghost predicate Funded(p: Params, chain: seq<Block>, b: Block)
    requires p.coinbaseMaturity >= 1 && |b.txs| > 0 && b.txs[0].Coinbase? && AllTransfers(b.txs[1..])
  {
    && b.txs[0].amount == p.blockReward + SumFees(b.txs[1..])
    && (forall i :: 0 <= i < |b.txs| - 1 ==> Payable(p, chain, b.txs[1..], i))
  }

  /** The reward that matures next brings its miner not above the largest amount. */
  ghost predicate RewardFits(p: Params, chain: seq<Block>)
    requires p.coinbaseMaturity >= 1
  {
    |chain| >= p.coinbaseMaturity ==>
      var due := chain[|chain| - p.coinbaseMaturity];
      |due.txs| > 0 && due.txs[0].Coinbase? ==> Spendable(p, chain, due.txs[0].address) <= MAX_AMOUNT
  }

  /** The reward due at the next block. */
  ghost predicate IsMatured(p: Params, chain: seq<Block>, matured: Option<Transaction>)
    requires ValidChain(p, chain)
  {
    && (|chain| < p.coinbaseMaturity ==> matured == None)
    && (|chain| >= p.coinbaseMaturity ==> MaturesAt(matured, chain, |chain| - p.coinbaseMaturity))
  }

  lemma RipeRewards(p: Params, chain: seq<Block>, matured: Option<Transaction>, a: Address)
    requires ValidChain(p, chain) && IsMatured(p, chain, matured)
    ensures RewardsOn(Ripe(p, chain), a) == RewardsOn(Matured(p, chain), a) + MaturedTo(matured, a)
  {
    hide Replay;
    if |chain| >= p.coinbaseMaturity {
      var due := |chain| - p.coinbaseMaturity;
      var ripe := Ripe(p, chain);
      assert ripe == chain[..due + 1] && ripe[..due] == chain[..due] && ripe[due] == chain[due];
      assert Matured(p, chain) == chain[..due];
    }
  }

  /** What the accounts are once the due reward is credited. */
  lemma CreditedIsSpendable(p: Params, chain: seq<Block>, matured: Option<Transaction>, a: Address)
    requires ValidChain(p, chain) && IsMatured(p, chain, matured)
    ensures var s := Replay(p, chain).value.accounts;
      && Get(s, a).balance + MaturedTo(matured, a) == Spendable(p, chain, a)
      && (CreditMatured(s, |chain|, matured, p).Ok? ==>
          var t := CreditMatured(s, |chain|, matured, p).value;
          Get(t, a).balance == Spendable(p, chain, a) && Get(t, a).nonce == SentOn(p, chain, a))
  {
    hide Replay, IsMatured, Get, MaturedTo, CreditMatured, Ripe, Matured, RewardsOn;
    BalanceIsHistory(p, chain, a);
    RipeRewards(p, chain, matured, a);
    var s := Replay(p, chain).value.accounts;
    if CreditMatured(s, |chain|, matured, p).Ok? { RewardPays(s, |chain|, matured, p, a); }
  }

  /** The reward is credited exactly if it fits. */
  lemma RewardRule(p: Params, chain: seq<Block>, matured: Option<Transaction>)
    requires ValidChain(p, chain) && IsMatured(p, chain, matured)
    ensures CreditMatured(Replay(p, chain).value.accounts, |chain|, matured, p).Ok? <==> RewardFits(p, chain)
  {
    hide Replay, Spendable;
    if matured.Some? { CreditedIsSpendable(p, chain, matured, matured.value.address); }
  }

  /** With the same accounts the two ways of saying what a transfer needs agree. */
  lemma PayableIsAcceptable(p: Params, chain: seq<Block>, t: Accounts, txs: seq<Transaction>, i: nat)
    requires AllTransfers(txs) && i < |txs| && p.coinbaseMaturity >= 1
    requires forall a :: Get(t, a).balance == Spendable(p, chain, a) && Get(t, a).nonce == SentOn(p, chain, a)
    ensures Acceptable(t, txs, p, i) <==> Payable(p, chain, txs, i)
  {
    hide Get, Spendable, SentOn, Paid, Spent, Sent;
  }

  /** Applying the body on top of a valid chain succeeds exactly if it is funded. */
  lemma BodyRule(p: Params, chain: seq<Block>, b: Block, matured: Option<Transaction>)
    requires ValidChain(p, chain) && IsMatured(p, chain, matured) && WellFormed(b, p) && b.header.height == |chain|
    ensures ApplyBody(b, matured, Replay(p, chain).value.accounts, p).Ok? <==>
      RewardFits(p, chain) && Funded(p, chain, b)
  {
    hide Replay, IsMatured, CheckBlock, CreditMatured, Get, Spendable, SentOn, Payable, Acceptable, RewardFits,
      ApplyTransfers;
    var s, txs := Replay(p, chain).value.accounts, b.txs[1..];
    RewardRule(p, chain, matured);
    if RewardFits(p, chain) {
      var t := CreditMatured(s, |chain|, matured, p).value;
      forall a
        ensures Get(t, a).balance == Spendable(p, chain, a) && Get(t, a).nonce == SentOn(p, chain, a)
      {
        CreditedIsSpendable(p, chain, matured, a);
      }
      AppliesIfAcceptable(t, txs, p);
      forall i | 0 <= i < |txs|
        ensures Acceptable(t, txs, p, i) <==> Payable(p, chain, txs, i)
      {
        PayableIsAcceptable(p, chain, t, txs, i);
      }
    }
  }

  // --- all rules ----------------------------------------------------------------------------------------

  /** When a block may follow a valid chain. */
  ghost predicate MayFollow(p: Params, chain: seq<Block>, b: Block)
    requires ValidChain(p, chain)
  {
    var tip := chain[|chain| - 1];
    && Sane(b, p) && b.header.height == |chain| && b.header.prevId == tip.Id()
    && b.header.target == p.nextTarget(tip.header) && InTime(p, chain, b.header.timestamp)
    && CarriesRoot(p, chain, b.header.snapshotRoot) && RewardFits(p, chain)
    && AllTransfers(b.txs[1..]) && Funded(p, chain, b)
  }

  lemma HeaderRule(p: Params, chain: seq<Block>, b: Block, ctx: Context)
    requires ValidChain(p, chain) && ContextFor(p, chain, Replay(p, chain).value) == Ok(ctx)
    ensures var tip := chain[|chain| - 1];
      CheckHeader(b.header, ctx, p, false).None? <==>
        && b.header.height == |chain| && b.header.prevId == tip.Id() && b.header.target == p.nextTarget(tip.header)
        && InTime(p, chain, b.header.timestamp) && CarriesRoot(p, chain, b.header.snapshotRoot)
  {
    hide Replay, InTime, CarriesRoot, MedianTime.MedianTimePast, Snapshot.SnapshotHeight, WellFormed;
    ContextIsDefined(p, chain);
    TimeRule(p, chain, b.header.timestamp);
    SnapshotRule(p, chain, b.header.snapshotRoot);
  }

  /** A block extends a valid chain exactly if it may follow it. */
  lemma ExtensionRules(p: Params, chain: seq<Block>, b: Block)
    requires ValidChain(p, chain)
    ensures ValidChain(p, chain + [b]) <==> MayFollow(p, chain, b)
  {
    hide Replay, ContextFor, CheckHeader, CheckBlock, ApplyBody, Sane, InTime, CarriesRoot, RewardFits, Funded,
      IndexTxs, AddressRows, Touched, Previous, Snapshot.StateRoot;
    ReplayExtends(p, chain, b);
    ContextIsDefined(p, chain);
    var ctx := ContextFor(p, chain, Replay(p, chain).value).value;
    HeaderRule(p, chain, b, ctx);
    BlockRules(b, p);
    if WellFormed(b, p) && b.header.height == |chain| { BodyRule(p, chain, b, ctx.matured); }
  }

  /** A chain is valid exactly if it starts with genesis and each block may follow those before it. */
  lemma {:induction false} ChainRules(p: Params, chain: seq<Block>)
    requires |chain| > 0
    ensures ValidChain(p, chain) <==>
      && ValidParams(p) && chain[0] == p.genesis
      && forall h :: 0 < h < |chain| ==> ValidChain(p, chain[..h]) && MayFollow(p, chain[..h], chain[h])
  {
    hide Connect, MayFollow;
    var n := |chain| - 1;
    assert chain == chain[..n] + [chain[n]];
    if n > 0 {
      ChainRules(p, chain[..n]);
      forall h | 0 < h < n
        ensures chain[..n][..h] == chain[..h] && chain[..n][h] == chain[h]
      {
      }
      if ValidChain(p, chain[..n]) { ExtensionRules(p, chain[..n], chain[n]); }
      PrefixesAreValid(p, chain);
    }
  }

  lemma PrefixesAreValid(p: Params, chain: seq<Block>)
    requires |chain| > 0
    ensures ValidChain(p, chain) ==> forall h :: 0 < h <= |chain| ==> ValidChain(p, chain[..h])
  {
    hide ValidChain;
    if ValidChain(p, chain) {
      forall h | 0 < h <= |chain|
        ensures ValidChain(p, chain[..h])
      {
        PrefixIsValid(p, chain, h);
      }
    }
  }

  lemma RootIsHashed(accounts: Accounts)
    ensures Snapshot.StateRoot(accounts) != NO_SNAPSHOT
  {
  }

  /** On a valid chain every block carries the state root after the last finished chunk that ended far enough below it,
      and no snapshot exactly where there is none. */
  lemma SnapshotLaw(p: Params, chain: seq<Block>, h: nat, s: nat)
    requires ValidChain(p, chain) && 0 < h < |chain|
    ensures chain[h].header.snapshotRoot == NO_SNAPSHOT <==> forall x: nat :: !IsDue(p, x, h)
    ensures IsDue(p, s, h) && (forall x: nat :: IsDue(p, x, h) ==> x <= s) ==>
      s < h && ValidChain(p, chain[..s + 1]) && chain[h].header.snapshotRoot == StateRootAt(p, chain, s)
  {
    hide Replay, IsDue, Snapshot.StateRoot, Sane, InTime, RewardFits, Funded, Snapshot.SnapshotHeight;
    ChainRules(p, chain);
    assert MayFollow(p, chain[..h], chain[h]) && CarriesRoot(p, chain[..h], chain[h].header.snapshotRoot);
    LastDue(p, h);
    PrefixesAreValid(p, chain);
    var snap := Snapshot.SnapshotHeight(h, p);
    if snap.Some? {
      assert chain[..h][..snap.value + 1] == chain[..snap.value + 1];
      RootIsHashed(Replay(p, chain[..snap.value + 1]).value.accounts);
    }
  }

  /** An account loses coins or moves its nonce only in a block that holds a transfer of its own, validly signed for
      this network, with a nonce it moves past. */
  lemma OnlySigned(p: Params, chain: seq<Block>, b: Block, a: Address)
    requires ValidChain(p, chain) && ValidChain(p, chain + [b])
    requires var x, y := Get(Replay(p, chain).value.accounts, a), Get(Replay(p, chain + [b]).value.accounts, a);
      y.balance < x.balance || y.nonce != x.nonce
    ensures var x, y := Get(Replay(p, chain).value.accounts, a), Get(Replay(p, chain + [b]).value.accounts, a);
      exists tx :: tx in b.txs && tx.Transfer? && p.addressOf(tx.publicKey) == a && p.validSignature(tx)
                   && tx.networkId == p.networkId && x.nonce <= tx.nonce < y.nonce
  {
    hide Replay, Connect, ContextFor, CheckBlock, ApplyBody, IndexTxs, AddressRows, Touched, Previous, Get,
      Snapshot.StateRoot;
    ReplayExtends(p, chain, b);
    ChainBounds(p, chain);
    ConnectParts(p, chain, Replay(p, chain).value, b);
    BodyFacts(b, ContextFor(p, chain, Replay(p, chain).value).value.matured, Replay(p, chain).value.accounts, p);
    assert a in Senders(b.txs[1..], p);
    var tx :| tx in b.txs[1..] && Sender(p, tx) == a;
    SignedIfInBlock(b, p, tx);
  }

  lemma SignedIfInBlock(b: Block, p: Params, tx: Transaction)
    requires WellFormed(b, p) && |b.txs| > 0 && tx in b.txs[1..]
    ensures tx in b.txs && tx.Transfer? && p.validSignature(tx) && tx.networkId == p.networkId
  {
    hide CheckBlock, Merkle.TxRoot, OutputsAllowed, BlockSize;
    BlockRules(b, p);
    var i :| 0 <= i < |b.txs[1..]| && b.txs[1..][i] == tx;
    assert b.txs[i + 1] == tx;
  }

  // --- the indexes --------------------------------------------------------------------------------------

  /** The transaction pays, or is sent by, this address. */
  predicate Concerns(p: Params, tx: Transaction, a: Address) {
    match tx
    case Coinbase(_, _, address, _, _) => address == a
    case Transfer(_, _, _, _, outputs, _, _) => Sender(p, tx) == a || exists o :: o in outputs && o.address == a
  }

  lemma ConcernsIf(p: Params, tx: Transaction, a: Address)
    ensures a in AddressesOf(tx, p) <==> Concerns(p, tx, a)
  {
  }

  lemma {:induction false} RowsOfBlock(p: Params, b: Block, n: nat, a: Address, i: nat)
    requires n <= |b.txs|
    ensures (a, b.header.height, i) in AddressRows(b, n, p) <==> i < n && Concerns(p, b.txs[i], a)
    ensures i < n && Concerns(p, b.txs[i], a) ==> AddressRows(b, n, p)[(a, b.header.height, i)] == TxHash(b.txs[i])
  {
    hide Concerns, AddressesOf;
    if n > 0 {
      RowsOfBlock(p, b, n - 1, a, i);
      ConcernsIf(p, b.txs[n - 1], a);
    }
  }

  /** The address index lists exactly the transactions on the chain that concern an address, by height and position. */
  lemma {:induction false} AddressIndexIsExact(p: Params, chain: seq<Block>, a: Address, h: nat, i: nat)
    requires ValidChain(p, chain)
    ensures var rows := Replay(p, chain).value.addressIndex;
      && ((a, h, i) in rows <==> h < |chain| && i < |chain[h].txs| && Concerns(p, chain[h].txs[i], a))
      && ((a, h, i) in rows ==> rows[(a, h, i)] == TxHash(chain[h].txs[i]))
  {
    hide Connect, ContextFor, AddressRows, IndexTxs, Concerns, ValidParams, Replay;
    var n := |chain| - 1;
    Rows(p, chain);
    if n == 0 {
      if h == 0 { RowsOfBlock(p, p.genesis, |p.genesis.txs|, a, i); }
    } else {
      PrefixIsValid(p, chain, n);
      AddressIndexIsExact(p, chain[..n], a, h, i);
      if h == n { RowsOfBlock(p, chain[n], |chain[n].txs|, a, i); }
    }
  }

  /** What the last block adds to the indexes. */
  lemma Rows(p: Params, chain: seq<Block>)
    requires ValidChain(p, chain)
    ensures var n, r := |chain| - 1, Replay(p, chain).value;
      && chain[n].header.height == n
      && (n == 0 ==> chain[0] == p.genesis && r.addressIndex == AddressRows(p.genesis, |p.genesis.txs|, p)
                     && r.txIndex == IndexTxs(map[], p.genesis, |p.genesis.txs|))
      && (n > 0 ==> ValidChain(p, chain[..n])
                    && r.addressIndex ==
                       Replay(p, chain[..n]).value.addressIndex + AddressRows(chain[n], |chain[n].txs|, p)
                    && r.txIndex == IndexTxs(Replay(p, chain[..n]).value.txIndex, chain[n], |chain[n].txs|))
  {
    hide Connect, ContextFor, AddressRows, IndexTxs, CheckBlock;
    var n := |chain| - 1;
    ChainShape(p, chain);
    if n > 0 {
      RowsAdded(p, chain[..n], chain[n]) by { assert chain == chain[..n] + [chain[n]]; }
    }
  }

  lemma RowsAdded(p: Params, before: seq<Block>, b: Block)
    requires ValidChain(p, before) && ValidChain(p, before + [b])
    ensures var was, r := Replay(p, before).value, Replay(p, before + [b]).value;
      && r.addressIndex == was.addressIndex + AddressRows(b, |b.txs|, p)
      && r.txIndex == IndexTxs(was.txIndex, b, |b.txs|)
  {
    hide Connect, ContextFor, AddressRows, IndexTxs, CheckBlock;
    assert (before + [b])[..|before|] == before;
    ConnectParts(p, before, Replay(p, before).value, b);
  }

  lemma {:induction false} IndexOfBlock(index: map<Digest, TxLocation>, b: Block, n: nat, i: nat)
    requires i < n <= |b.txs| && forall j, k :: 0 <= j < k < |b.txs| ==> b.txs[j] != b.txs[k]
    ensures TxHash(b.txs[i]) in IndexTxs(index, b, n)
    ensures IndexTxs(index, b, n)[TxHash(b.txs[i])] == TxLocation(b.Id(), b.header.height, i)
  {
    if i < n - 1 { IndexOfBlock(index, b, n - 1, i); }
  }

  /** The transaction index leads to every transaction on the chain, and holds nothing else. */
  lemma {:induction false} TxIndexIsExact(p: Params, chain: seq<Block>, h: nat, i: nat)
    requires ValidChain(p, chain) && h < |chain| && i < |chain[h].txs|
    ensures var index := Replay(p, chain).value.txIndex;
      && TxHash(chain[h].txs[i]) in index
      && index[TxHash(chain[h].txs[i])] == TxLocation(chain[h].Id(), h, i)
    decreases |chain|
  {
    hide Connect, ContextFor, AddressRows, IndexTxs, ValidParams, Replay, CheckBlock;
    var n := |chain| - 1;
    Rows(p, chain);
    if n == 0 {
      OneTransaction(p, chain);
      IndexOfBlock(map[], p.genesis, |p.genesis.txs|, i);
    } else {
      DistinctTxs(p, chain);
      if h == n {
        IndexOfBlock(Replay(p, chain[..n]).value.txIndex, chain[n], |chain[n].txs|, i);
      } else {
        TxIndexIsExact(p, chain[..n], h, i);
        assert chain[..n][h] == chain[h] && chain == chain[..n] + [chain[n]];
        IndexTxsFacts(Replay(p, chain[..n]).value.txIndex, chain[n], |chain[n].txs|);
        ConnectNeverCollides(p, chain[..n], chain[n]);
      }
    }
  }

  lemma OneTransaction(p: Params, chain: seq<Block>)
    requires ValidChain(p, chain)
    ensures |p.genesis.txs| == 1
  {
    hide Replay;
  }

  lemma DistinctTxs(p: Params, chain: seq<Block>)
    requires ValidChain(p, chain) && |chain| > 1
    ensures var b := chain[|chain| - 1]; forall j, k :: 0 <= j < k < |b.txs| ==> b.txs[j] != b.txs[k]
  {
    hide Replay, CheckBlock, Allowed;
    ChainShape(p, chain);
    BlockRules(chain[|chain| - 1], p);
  }

  lemma {:induction false} NothingElseIndexed(p: Params, chain: seq<Block>, k: Digest)
    requires ValidChain(p, chain) && k in Replay(p, chain).value.txIndex
    ensures exists h, i :: 0 <= h < |chain| && 0 <= i < |chain[h].txs| && k == TxHash(chain[h].txs[i])
  {
    hide Connect, ContextFor, AddressRows, IndexTxs, ValidParams, Replay;
    var n := |chain| - 1;
    Rows(p, chain);
    if n == 0 {
      IndexTxsFacts(map[], p.genesis, |p.genesis.txs|);
    } else {
      IndexTxsFacts(Replay(p, chain[..n]).value.txIndex, chain[n], |chain[n].txs|);
      if k in Replay(p, chain[..n]).value.txIndex {
        NothingElseIndexed(p, chain[..n], k);
        var h, i :| 0 <= h < n && 0 <= i < |chain[..n][h].txs| && k == TxHash(chain[..n][h].txs[i]);
        assert chain[..n][h] == chain[h];
      }
    }
  }
}
