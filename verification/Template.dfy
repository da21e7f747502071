/**
 template.build_template, and why a mined template is always a valid block: the mempool's choice,
 in the order it was made, passes every rule of state.apply_block on top of the confirmed accounts.
 */
module Template {
  import opened Types
  import opened Ledger
  import opened Pool
  import opened Selection
  import opened ActiveChain
  import opened ChainState
  import opened Receiving
  import Requeue
  import Keeping
  import Merkle
  import MedianTime
  import Importing
  import Snapshot
  import Chain
  import ChainLaws
  import MempoolModel

  // --- credits that cannot overflow ---------------------------------------------------------------------

  lemma {:induction false} CreditOutputsFits(s: Accounts, outputs: seq<Output>)
    requires Normal(s) && Total(s) + SumAmounts(outputs) <= MAX_AMOUNT
    ensures CreditOutputs(s, outputs).Ok?
  {
    hide Credit;
    if outputs != [] {
      var n := |outputs| - 1;
      CreditOutputsFits(s, outputs[..n]);
      CreditOutputsFacts(s, outputs[..n]);
      CreditOutputsTotal(s, outputs[..n]);
      CreditFits(CreditOutputs(s, outputs[..n]).value, outputs[n].address, outputs[n].amount);
    }
  }

  lemma CreditFits(s: Accounts, a: Address, amount: nat)
    requires Total(s) + amount <= MAX_AMOUNT
    ensures Credit(s, a, amount).Ok?
  {
    BalanceWithinTotal(s, a);
  }

  /** A transfer with the next nonce and enough funds goes through. */
  lemma TransferFits(s: Accounts, tx: Transaction, p: Params)
    requires tx.Transfer? && Normal(s) && Total(s) <= MAX_AMOUNT
    requires tx.nonce == Get(s, Sender(p, tx)).nonce && TotalSpent(tx) <= Get(s, Sender(p, tx)).balance
    ensures ApplyTransfer(s, tx, p).Ok?
  {
    var a := Sender(p, tx);
    var debited := Debit(s, a, TotalSpent(tx));
    TotalPut(s, a, Account(Get(s, a).balance - TotalSpent(tx), Get(s, a).nonce + 1));
    CreditOutputsFits(debited, tx.outputs);
  }

  // --- the mempool's choice, applied in order ---------------------------------------------------------------

  /** What these transfers spend from an account. */
  ghost function SpentFrom(p: Params, txs: seq<Transaction>, a: Address): nat
    requires AllTransfers(txs)
  {
    if txs == [] then 0
    else SpentFrom(p, txs[..|txs| - 1], a) + if Sender(p, txs[|txs| - 1]) == a then TotalSpent(txs[|txs| - 1]) else 0
  }

  lemma MinIsNonce(pending: Pending, account: Account)
    requires Covered(pending, account) && pending != map[]
    ensures MinNonce(pending) == account.nonce
  {
    assert |pending| > 0;
    assert account.nonce in pending;
  }

  /** The last transfer of a greedy choice is its sender's next one. */
  lemma LastIsNext(p: Params, bySender: SenderIndex, state: Accounts, limit: nat, txs: seq<Transaction>, maxBytes: int)
    requires AllCovered(bySender, state, limit) && AllTransfers(txs) && Greedy(p, bySender, txs, maxBytes) && txs != []
    ensures Greedy(p, bySender, txs[..|txs| - 1], maxBytes)
    ensures var t := txs[|txs| - 1];
      var a := Sender(p, t);
      && a in bySender && Covered(bySender[a], Get(state, a))
      && t.nonce == Get(state, a).nonce + Count(p, txs[..|txs| - 1], a)
      && t.nonce in bySender[a] && bySender[a][t.nonce].tx == t
  {
    hide Spent, FitsAfter, TotalSpent, TxSize, FeeRate, Run;
    var t := txs[|txs| - 1];
    assert Ready(p, bySender, txs[..|txs| - 1], t);
    MinIsNonce(bySender[Sender(p, t)], Get(state, Sender(p, t)));
  }

  /** What was taken from a sender so far is what its lower pending nonces spend. */
  lemma {:induction false} TakenIsBelow(p: Params, bySender: SenderIndex, state: Accounts, limit: nat,
                                        txs: seq<Transaction>, maxBytes: int, a: Address)
    requires AllCovered(bySender, state, limit)
    requires AllTransfers(txs) && Greedy(p, bySender, txs, maxBytes)
    ensures SpentFrom(p, txs, a) == Spent(Keeping.Below(PendingIn(bySender, a), Get(state, a).nonce + Count(p, txs, a)))
    decreases |txs|
  {
    hide Spent, TotalSpent, Greedy, Keeping.Below, Covered;
    var pending, account := PendingIn(bySender, a), Get(state, a);
    if txs == [] {
      NothingWaiting(account);
      NothingBelow(pending, account);
    } else {
      var n := |txs| - 1;
      var t := txs[n];
      LastIsNext(p, bySender, state, limit, txs, maxBytes);
      TakenIsBelow(p, bySender, state, limit, txs[..n], maxBytes, a);
      if Sender(p, t) == a {
        BelowGrows(pending, t.nonce);
      }
    }
  }

  lemma NothingBelow(pending: Pending, account: Account)
    requires Covered(pending, account)
    ensures Spent(Keeping.Below(pending, account.nonce)) == 0
  {
    assert Keeping.Below(pending, account.nonce) == map[];
  }

  lemma BelowGrows(pending: Pending, n: nat)
    requires n in pending
    ensures Spent(Keeping.Below(pending, n + 1)) == Spent(Keeping.Below(pending, n)) + Spends(pending[n])
  {
    SumWith(Keeping.Below(pending, n), Spends, n, pending[n]);
    assert Keeping.Below(pending, n + 1) == Keeping.Below(pending, n)[n := pending[n]];
  }

  /** After these transfers every account has the nonce and at least the funds the pending ones leave it. */
  ghost predicate Follows(p: Params, s: Accounts, txs: seq<Transaction>, t: Accounts)
    requires AllTransfers(txs)
  {
    && Normal(t) && Total(t) <= Total(s)
    && forall a :: Get(t, a).nonce == Get(s, a).nonce + Count(p, txs, a)
        && Get(t, a).balance + SpentFrom(p, txs, a) >= Get(s, a).balance
  }

  /** The mempool's choice applies in its order, to accounts that only have more than the confirmed ones. */
  lemma {:induction false} ChoiceApplies(p: Params, bySender: SenderIndex, state: Accounts, limit: nat,
                                         s: Accounts, txs: seq<Transaction>, maxBytes: int)
    requires AllCovered(bySender, state, limit)
    requires AllTransfers(txs) && Greedy(p, bySender, txs, maxBytes)
    requires Normal(s) && OnlyRaised(state, s) && Total(s) <= MAX_AMOUNT
    ensures ApplyTransfers(s, txs, p).Ok? && Follows(p, s, txs, ApplyTransfers(s, txs, p).value)
    decreases |txs|
  {
    hide Greedy, TotalSpent, Spent, Covered, Total, AllCovered;
    if txs != [] {
      var n := |txs| - 1;
      var init, last := txs[..n], txs[n];
      LastIsNext(p, bySender, state, limit, txs, maxBytes);
      ChoiceApplies(p, bySender, state, limit, s, init, maxBytes);
      var t := ApplyTransfers(s, init, p).value;
      NextIsPaid(p, bySender, state, limit, s, init, last, t, maxBytes);
      TransferFits(t, last, p);
      FollowsNext(p, s, init, last, t);
      assert txs == init + [last];
    }
  }

  lemma NextIsPaid(p: Params, bySender: SenderIndex, state: Accounts, limit: nat, s: Accounts,
                   init: seq<Transaction>, last: Transaction, t: Accounts, maxBytes: int)
    requires AllCovered(bySender, state, limit) && OnlyRaised(state, s)
    requires AllTransfers(init) && Greedy(p, bySender, init, maxBytes) && Follows(p, s, init, t)
    requires last.Transfer? && Sender(p, last) in bySender
    requires var a := Sender(p, last);
      && Covered(bySender[a], Get(state, a)) && last.nonce == Get(state, a).nonce + Count(p, init, a)
      && last.nonce in bySender[a] && bySender[a][last.nonce].tx == last
    ensures last.nonce == Get(t, Sender(p, last)).nonce && TotalSpent(last) <= Get(t, Sender(p, last)).balance
  {
    hide Greedy, TotalSpent, Spent, Covered, Total, AllCovered;
    var a := Sender(p, last);
    TakenIsBelow(p, bySender, state, limit, init, maxBytes, a);
    Keeping.BelowIsPaid(bySender[a], Get(state, a), last.nonce);
  }

  lemma FollowsNext(p: Params, s: Accounts, init: seq<Transaction>, last: Transaction, t: Accounts)
    requires AllTransfers(init) && last.Transfer? && Follows(p, s, init, t) && ApplyTransfer(t, last, p).Ok?
    ensures AllTransfers(init + [last]) && Follows(p, s, init + [last], ApplyTransfer(t, last, p).value)
  {
    hide ApplyTransfer, Total, TotalSpent;
    TransferFacts(t, last, p);
    TransferTotal(t, last, p);
    assert (init + [last])[..|init|] == init;
  }

  // --- the block around it ------------------------------------------------------------------------------------

  lemma {:induction false} SumSizesPrepend(t: Transaction, txs: seq<Transaction>)
    ensures SumSizes([t] + txs) == TxSize(t) + SumSizes(txs)
  {
    if txs == [] {
      assert ([t] + txs)[..0] == [];
    } else {
      var n := |txs| - 1;
      SumSizesPrepend(t, txs[..n]);
      assert ([t] + txs)[..|txs|] == [t] + txs[..n];
    }
  }

  lemma {:induction false} AllPass(txs: seq<Transaction>, p: Params)
    requires forall t :: t in txs ==> CheckTransaction(t, p).None?
    ensures CheckTransactions(txs, p).None?
  {
    hide CheckTransaction;
    if txs != [] {
      var n := |txs| - 1;
      assert txs[n] in txs && forall t :: t in txs[..n] ==> t in txs;
      AllPass(txs[..n], p);
    }
  }

  /** The unmined block the template makes of a context and a choice of transfers. */
  function Unmined(p: Params, ctx: Context, miner: Address, now: nat, memo: Bytes, transfers: seq<Transaction>): Block
    requires AllTransfers(transfers)
  {
    var height := ctx.parent.height + 1;
    var txs := [Coinbase(p.networkId, height, miner, p.blockReward + SumFees(transfers), memo)] + transfers;
    var timestamp := if now >= ctx.medianTimePast + 1 then now else ctx.medianTimePast + 1;
    Block(Header(BLOCK_VERSION, height, HeaderHash(ctx.parent), Merkle.TxRoot(txs), ctx.snapshotRoot,
                 timestamp, ctx.expectedTarget, 0), txs)
  }

  lemma UnminedBody(p: Params, ctx: Context, miner: Address, now: nat, memo: Bytes, transfers: seq<Transaction>)
    requires AllTransfers(transfers)
    ensures var b := Unmined(p, ctx, miner, now, memo, transfers);
      && |b.txs| > 0 && b.txs[0].Coinbase? && b.txs[0].address == miner && b.txs[0].memo == memo
      && b.txs[1..] == transfers && b.header.nonce == 0
  {
  }

  lemma UnminedIsWellFormed(p: Params, ctx: Context, miner: Address, now: nat, memo: Bytes, transfers: seq<Transaction>)
    requires AllTransfers(transfers) && NoRepeats(transfers)
    requires forall t :: t in transfers ==> CheckTransaction(t, p).None?
    requires KnownPayload(miner) && |memo| <= MAX_MEMO_SIZE && p.blockReward + SumFees(transfers) <= MAX_AMOUNT
    requires HEADER_SIZE + 4 + 41 + |memo| + SumSizes(transfers) <= p.maxBlockSize
    ensures WellFormed(Unmined(p, ctx, miner, now, memo, transfers), p)
  {
    hide Merkle.TxRoot;
    var b := Unmined(p, ctx, miner, now, memo, transfers);
    assert b.txs[1..] == transfers;
    SumSizesPrepend(b.txs[0], transfers);
    forall t | t in b.txs
      ensures CheckTransaction(t, p).None?
    {
      assert t == b.txs[0] || t in transfers;
    }
    AllPass(b.txs, p);
    forall i, j | 0 <= i < j < |b.txs|
      ensures TxHash(b.txs[i]) != TxHash(b.txs[j])
    {
      assert b.txs[j] == transfers[j - 1];
      if i > 0 { assert b.txs[i] == transfers[i - 1]; }
    }
  }

  /** With the header right, a block with a fitting body passes state.apply_block, proof of work aside. */
  lemma UnminedApplies(p: Params, ctx: Context, state: Accounts, miner: Address, now: nat, memo: Bytes,
                       transfers: seq<Transaction>)
    requires AllTransfers(transfers) && WellFormed(Unmined(p, ctx, miner, now, memo, transfers), p)
    requires CreditMatured(state, ctx.parent.height + 1, ctx.matured, p).Ok?
    requires ApplyTransfers(CreditMatured(state, ctx.parent.height + 1, ctx.matured, p).value, transfers, p).Ok?
    ensures ApplyBlock(Unmined(p, ctx, miner, now, memo, transfers), ctx, state, p, false).Ok?
  {
    hide CreditMatured, ApplyTransfers, CheckBlock, Merkle.TxRoot;
    assert Unmined(p, ctx, miner, now, memo, transfers).txs[1..] == transfers;
  }

  /** The coinbase that matures next can be credited, and then all spendable coins are at most what was minted. */
  lemma MaturedFits(p: Params, c: seq<Block>, ctx: Context)
    requires ValidChain(p, c) && ContextFor(p, c, Replay(p, c).value) == Ok(ctx)
    requires Minted(p, |c|) <= MAX_AMOUNT
    ensures var state := Replay(p, c).value.accounts;
      && Normal(state)
      && CreditMatured(state, ctx.parent.height + 1, ctx.matured, p).Ok?
      && var s := CreditMatured(state, ctx.parent.height + 1, ctx.matured, p).value;
        Normal(s) && OnlyRaised(state, s) && Total(s) <= Minted(p, |c|)
  {
    hide Replay, ContextFor, Minted, Total, Credit;
    var state := Replay(p, c).value.accounts;
    ContextIsDefined(p, c);
    CoinsAreConserved(p, c);
    ChainBounds(p, c);
    if |c| >= p.coinbaseMaturity {
      var due := |c| - p.coinbaseMaturity;
      CoinbasesFromSplit(c, due);
      var m := ctx.matured.value;
      CreditFits(state, m.address, m.amount);
      CreditFacts(state, m.address, m.amount);
    }
    MaturedTotal(state, |c|, ctx.matured, p);
  }

  lemma MintedGrows(p: Params, n: nat)
    ensures Minted(p, n) <= Minted(p, n + 1) == Minted(p, n) + p.blockReward
  {
  }

  /** The greedy choice of a consistent mempool makes a block that extends the active chain validly. */
  lemma TemplateExtends(p: Params, c: seq<Block>, bySender: SenderIndex, m: Entries, limit: nat,
                        transfers: seq<Transaction>, room: int, miner: Address, now: nat, memo: Bytes)
    requires ValidChain(p, c) && AllCovered(bySender, Replay(p, c).value.accounts, limit)
    requires Indexed(p, m, bySender) && Requeue.EntriesChecked(p, m)
    requires GreedyChoice(p, bySender, transfers, room)
    requires room == p.maxBlockSize - HEADER_SIZE - 4 - 41 - |memo| && room >= 0
    requires KnownPayload(miner) && |memo| <= MAX_MEMO_SIZE && Minted(p, |c| + 1) <= MAX_AMOUNT
    ensures ContextFor(p, c, Replay(p, c).value).Ok?
    ensures var b := Unmined(p, ContextFor(p, c, Replay(p, c).value).value, miner, now, memo, transfers);
      ValidChain(p, c + [b])
  {
    hide Replay, ContextFor, Minted, Total, CreditMatured, Greedy, Indexed, CheckBlock, CheckTransaction, Unmined,
      ApplyTransfers, AllCovered, TxSize, Follows, SumFees, ApplyBlock, Count, FitsAfter, Ready;
    ContextIsDefined(p, c);
    var ctx := ContextFor(p, c, Replay(p, c).value).value;
    var state := Replay(p, c).value.accounts;
    MintedGrows(p, |c|);
    MaturedFits(p, c, ctx);
    var s := CreditMatured(state, ctx.parent.height + 1, ctx.matured, p).value;
    ChoiceApplies(p, bySender, state, limit, s, transfers, room);
    TransfersTotal(s, transfers, p);
    GreedyNonces(p, bySender, transfers, room);
    TakenAreChecked(p, m, bySender, transfers, room);
    UnminedIsWellFormed(p, ctx, miner, now, memo, transfers);
    UnminedApplies(p, ctx, state, miner, now, memo, transfers);
    var b := Unmined(p, ctx, miner, now, memo, transfers);
    ConnectsIfApplies(p, c, b);
  }

  lemma TakenAreChecked(p: Params, m: Entries, bySender: SenderIndex, txs: seq<Transaction>, maxBytes: int)
    requires Indexed(p, m, bySender) && Requeue.EntriesChecked(p, m)
    requires AllTransfers(txs) && Greedy(p, bySender, txs, maxBytes)
    ensures forall t :: t in txs ==> CheckTransaction(t, p).None?
  {
    hide Indexed, Greedy, CheckTransaction, TxSize;
    GreedyNonces(p, bySender, txs, maxBytes);
    forall t | t in txs
      ensures CheckTransaction(t, p).None?
    {
      PendingIsEntry(p, m, bySender, Sender(p, t), t.nonce);
    }
  }

  lemma ConnectsIfApplies(p: Params, c: seq<Block>, b: Block)
    requires ValidChain(p, c) && ContextFor(p, c, Replay(p, c).value).Ok?
    requires ApplyBlock(b, ContextFor(p, c, Replay(p, c).value).value, Replay(p, c).value.accounts, p, false).Ok?
    ensures ValidChain(p, c + [b])
  {
    hide Replay, ContextFor, ApplyBlock, IndexTxs, AddressRows, Touched, Previous, Snapshot.StateRoot;
    ReplayExtends(p, c, b);
  }

  /** A timestamp of now if the rules allow it, and otherwise the earliest they do. */
  predicate Timed(p: Params, chain: seq<Block>, now: nat, t: nat) {
    if ChainLaws.InTime(p, chain, now) then t == now
    else ChainLaws.InTime(p, chain, t) && t > now && !ChainLaws.InTime(p, chain, t - 1)
  }

  lemma TemplateIsTimed(p: Params, chain: seq<Block>, ctx: Context, miner: Address, now: nat, memo: Bytes,
                        transfers: seq<Transaction>)
    requires ValidChain(p, chain) && AllTransfers(transfers)
    requires ContextFor(p, chain, Replay(p, chain).value) == Ok(ctx)
    ensures Timed(p, chain, now, Unmined(p, ctx, miner, now, memo, transfers).header.timestamp)
  {
    hide Replay, Merkle.TxRoot, ChainLaws.InTime, MedianTime.MedianTimePast, Snapshot.SnapshotHeight;
    var t := Unmined(p, ctx, miner, now, memo, transfers).header.timestamp;
    ChainLaws.TimeRule(p, chain, now);
    ChainLaws.TimeRule(p, chain, t);
    if t > 0 { ChainLaws.TimeRule(p, chain, t - 1); }
  }

  /** template.build_template */
  method BuildTemplate(chain: Chain.ChainManager, mempool: MempoolModel.Mempool, miner: Address, now: nat, memo: Bytes)
    returns (b: Block)
    requires chain.Good() && mempool.Valid() && chain.p == mempool.p
    requires mempool.Consistent(chain.store.tables.active.accounts)
    requires KnownPayload(miner) && |memo| <= MAX_MEMO_SIZE && HEADER_SIZE + 4 + 41 + |memo| <= chain.p.maxBlockSize
    requires Minted(chain.p, |chain.chain| + 1) <= MAX_AMOUNT
    ensures b.txs != [] && b.txs[0].Coinbase? && b.txs[0].address == miner && b.txs[0].memo == memo
    ensures ValidChain(chain.p, chain.chain) && ValidChain(chain.p, chain.chain + [b])
    ensures Timed(chain.p, chain.chain, now, b.header.timestamp)
    ensures GreedyChoice(chain.p, mempool.bySender, b.txs[1..], chain.p.maxBlockSize - HEADER_SIZE - 4 - 41 - |memo|)
  {
    hide Replay, ContextFor, Inv, CheckBlock, Greedy, Indexed, AllCovered, Unmined;
    hide Ready, FitsAfter;
    var p := chain.p;
    Importing.InvReplay(p, chain.store.tables, chain.chain);
    var ctx := chain.ContextOf(chain.chain);
    ContextIsDefined(p, chain.chain);
    var height := ctx.value.parent.height + 1;
    var placeholder := Coinbase(p.networkId, height, miner, 0, memo);
    var room := p.maxBlockSize - HEADER_SIZE - 4 - TxSize(placeholder);
    var transfers := mempool.Select(room);
    b := Unmined(p, ctx.value, miner, now, memo, transfers);
    UnminedBody(p, ctx.value, miner, now, memo, transfers);
    TemplateIsTimed(p, chain.chain, ctx.value, miner, now, memo, transfers);
    mempool.ValidChecked();
    TemplateExtends(p, chain.chain, mempool.bySender, mempool.byId, mempool.policy.maxPerSender, transfers, room,
                    miner, now, memo);
  }

  // --- mining it ----------------------------------------------------------------------------------------------

  function Mined(b: Block, nonce: nat): Block {
    b.(header := b.header.(nonce := nonce))
  }

  /** No rule but proof of work looks at the nonce. */
  lemma NonceIsFree(p: Params, c: seq<Block>, b: Block, nonce: nat)
    requires |c| > 0 && ValidChain(p, c) && ValidChain(p, c + [b])
    ensures ValidChain(p, c + [Mined(b, nonce)])
  {
    hide Replay, ContextFor, IndexTxs, AddressRows, Touched, Previous, Snapshot.StateRoot, ApplyBlock;
    ReplayExtends(p, c, b);
    NonceDoesNotApply(b, nonce, ContextFor(p, c, Replay(p, c).value).value, Replay(p, c).value.accounts, p);
    ReplayExtends(p, c, Mined(b, nonce));
  }

  lemma NonceDoesNotApply(b: Block, nonce: nat, ctx: Context, s: Accounts, p: Params)
    requires ApplyBlock(b, ctx, s, p, false).Ok?
    ensures ApplyBlock(Mined(b, nonce), ctx, s, p, false).Ok?
  {
    hide Merkle.TxRoot, CheckTransactions, NoRepeats, ApplyTransfers, CreditMatured, SumSizes;
  }

  /** A template, once mined, becomes the new tip when it is submitted. */
  lemma MinedIsNewTip(p: Params, t: Tables, chain: seq<Block>, orphans: seq<Block>, b: Block, nonce: nat, now: nat,
                      t': Tables, chain': seq<Block>, r: SubmitResult)
    requires Inv(p, t, chain) && Inv(p, t', chain') && |t.active.main| > 0
    requires ValidChain(p, chain + [b]) && p.meetsTarget(Mined(b, nonce).header) && b.header.target < TWO_256
    requires TargetsBounded(p) && NotInFuture(b.header, now, p)
    requires Step(p, t, chain, orphans, Mined(b, nonce), now, t', chain', r)
    requires !HasOrphan(orphans, Mined(b, nonce).Id())
    ensures r.outcome == NewTip && chain' == chain + [Mined(b, nonce)]
  {
    hide Replay, Inv, Step, NotInFuture;
    Importing.InvReplay(p, t, chain);
    NonceIsFree(p, chain, b, nonce);
    NonceIsNoTime(b, nonce, now, p);
    Importing.ExtensionIsNewTip(p, t, chain, orphans, Mined(b, nonce), now, t', chain', r);
  }

  lemma NonceIsNoTime(b: Block, nonce: nat, now: nat, p: Params)
    ensures NotInFuture(Mined(b, nonce).header, now, p) == NotInFuture(b.header, now, p)
  {
  }
}
