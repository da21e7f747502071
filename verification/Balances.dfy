/**
 Who receives what: every balance and every nonce as sums over the transactions of a transfer, a block or a whole
 chain, without reference to how accounts are credited.
 */
module Balances {
  import opened Types
  import opened Ledger
  import opened ActiveChain

  // --- one transfer ---------------------------------------------------------------------

  /** What the account of this address loses by sending this. */
  function SpentBy(p: Params, tx: Transaction, a: Address): nat {
    if tx.Transfer? && Sender(p, tx) == a then TotalSpent(tx) else 0
  }

  function SentBy(p: Params, tx: Transaction, a: Address): nat {
    if tx.Transfer? && Sender(p, tx) == a then 1 else 0
  }

  lemma {:induction false} OutputsPay(s: Accounts, outputs: seq<Output>, a: Address)
    requires CreditOutputs(s, outputs).Ok?
    ensures var t := CreditOutputs(s, outputs).value;
      Get(t, a).balance == Get(s, a).balance + AmountTo(outputs, a) && Get(t, a).nonce == Get(s, a).nonce
  {
    if outputs != [] { OutputsPay(s, outputs[..|outputs| - 1], a); }
  }

  /** An accepted transfer: the sender loses exactly what it spends and moves on by one nonce, every address gains
      exactly the outputs to it, and nothing else happens. */
  lemma TransferPays(s: Accounts, tx: Transaction, p: Params, a: Address)
    requires tx.Transfer? && ApplyTransfer(s, tx, p).Ok?
    ensures var t := ApplyTransfer(s, tx, p).value;
      && Get(t, a).balance + SpentBy(p, tx, a) == Get(s, a).balance + PaidTo(tx, a)
      && Get(t, a).nonce == Get(s, a).nonce + SentBy(p, tx, a)
    ensures tx.nonce == Get(s, Sender(p, tx)).nonce && TotalSpent(tx) <= Get(s, Sender(p, tx)).balance
  {
    hide TotalSpent, AmountTo, CreditOutputs;
    OutputsPay(Debit(s, Sender(p, tx), TotalSpent(tx)), tx.outputs, a);
  }

  // --- a list of transactions -------------------------------------------------------------

  function Paid(txs: seq<Transaction>, a: Address): nat {
    if txs == [] then 0 else Paid(txs[..|txs| - 1], a) + PaidTo(txs[|txs| - 1], a)
  }

  function Spent(p: Params, txs: seq<Transaction>, a: Address): nat {
    if txs == [] then 0 else Spent(p, txs[..|txs| - 1], a) + SpentBy(p, txs[|txs| - 1], a)
  }

  /** How many of these transfers the address sent. */
  function Sent(p: Params, txs: seq<Transaction>, a: Address): nat {
    if txs == [] then 0 else Sent(p, txs[..|txs| - 1], a) + SentBy(p, txs[|txs| - 1], a)
  }

  lemma {:induction false} TransfersPay(s: Accounts, txs: seq<Transaction>, p: Params, a: Address)
    requires AllTransfers(txs) && ApplyTransfers(s, txs, p).Ok?
    ensures var t := ApplyTransfers(s, txs, p).value;
      && Get(t, a).balance + Spent(p, txs, a) == Get(s, a).balance + Paid(txs, a)
      && Get(t, a).nonce == Get(s, a).nonce + Sent(p, txs, a)
  {
    hide ApplyTransfer, SpentBy, PaidTo, SentBy;
    if txs != [] {
      var n := |txs| - 1;
      TransfersPay(s, txs[..n], p, a);
      TransferPays(ApplyTransfers(s, txs[..n], p).value, txs[n], p, a);
    }
  }

  // --- when transfers are accepted ------------------------------------------------------------

  lemma {:induction false} AmountGrows(outputs: seq<Output>, n: nat, a: Address)
    requires n <= |outputs|
    ensures AmountTo(outputs[..n], a) <= AmountTo(outputs, a)
  {
    if n < |outputs| {
      assert outputs[..|outputs| - 1][..n] == outputs[..n];
      AmountGrows(outputs[..|outputs| - 1], n, a);
    } else {
      assert outputs[..n] == outputs;
    }
  }

  /** No output brings its receiver above the largest amount. */
  predicate OutputsFit(s: Accounts, outputs: seq<Output>) {
    forall o :: o in outputs ==> Get(s, o.address).balance + AmountTo(outputs, o.address) <= MAX_AMOUNT
  }

  lemma {:induction false} CreditsIfFits(s: Accounts, outputs: seq<Output>)
    ensures CreditOutputs(s, outputs).Ok? <==> OutputsFit(s, outputs)
  {
    if outputs != [] {
      var n := |outputs| - 1;
      var init, last := outputs[..n], outputs[n];
      assert outputs == init + [last];
      CreditsIfFits(s, init);
      assert OutputsFit(s, outputs) ==> OutputsFit(s, init) by {
        forall o | o in init
          ensures AmountTo(init, o.address) <= AmountTo(outputs, o.address) && o in outputs
        {
          AmountGrows(outputs, n, o.address);
        }
      }
      if CreditOutputs(s, init).Ok? {
        OutputsPay(s, init, last.address);
        assert AmountTo(outputs, last.address) == AmountTo(init, last.address) + last.amount;
        if CreditOutputs(s, outputs).Ok? {
          forall o | o in outputs
            ensures Get(s, o.address).balance + AmountTo(outputs, o.address) <= MAX_AMOUNT
          {
            if o.address != last.address { assert o in init; }
          }
        }
      }
    }
  }

  /** What one transfer of a list needs, told by the sums before it. */
  ghost predicate Acceptable(s: Accounts, txs: seq<Transaction>, p: Params, i: nat)
    requires AllTransfers(txs) && i < |txs|
  {
    var tx, a, before := txs[i], Sender(p, txs[i]), txs[..i];
    && tx.nonce == Get(s, a).nonce + Sent(p, before, a)
    && TotalSpent(tx) + Spent(p, before, a) <= Get(s, a).balance + Paid(before, a)
    && forall o :: o in tx.outputs ==>
         Get(s, o.address).balance + Paid(txs[..i + 1], o.address)
           <= MAX_AMOUNT + Spent(p, txs[..i + 1], o.address)
  }

  lemma TransferApplies(s: Accounts, tx: Transaction, p: Params)
    requires tx.Transfer?
    ensures ApplyTransfer(s, tx, p).Ok? <==>
      && tx.nonce == Get(s, Sender(p, tx)).nonce && TotalSpent(tx) <= Get(s, Sender(p, tx)).balance
      && forall o :: o in tx.outputs ==>
           Get(s, o.address).balance + PaidTo(tx, o.address) <= MAX_AMOUNT + SpentBy(p, tx, o.address)
  {
    hide TotalSpent, AmountTo, CreditOutputs;
    var a := Sender(p, tx);
    if TotalSpent(tx) <= Get(s, a).balance {
      var d := Debit(s, a, TotalSpent(tx));
      CreditsIfFits(d, tx.outputs);
      assert forall x :: Get(d, x).balance + SpentBy(p, tx, x) == Get(s, x).balance;
    }
  }

  /** A list of transfers is accepted exactly if each comes with the next nonce of its sender, who can pay for it, and
      brings no one above the largest amount. */
  lemma {:induction false} AppliesIfAcceptable(s: Accounts, txs: seq<Transaction>, p: Params)
    requires AllTransfers(txs)
    ensures ApplyTransfers(s, txs, p).Ok? <==> forall i :: 0 <= i < |txs| ==> Acceptable(s, txs, p, i)
  {
    hide Acceptable, ApplyTransfer;
    if txs != [] {
      var n := |txs| - 1;
      AppliesIfAcceptable(s, txs[..n], p);
      forall i | 0 <= i < n
        ensures Acceptable(s, txs[..n], p, i) == Acceptable(s, txs, p, i)
      {
        SameBefore(s, txs, p, i);
      }
      if ApplyTransfers(s, txs[..n], p).Ok? { LastApplies(s, txs, p); }
    }
  }

  lemma SameBefore(s: Accounts, txs: seq<Transaction>, p: Params, i: nat)
    requires AllTransfers(txs) && i < |txs| - 1
    ensures Acceptable(s, txs[..|txs| - 1], p, i) == Acceptable(s, txs, p, i)
  {
    var init := txs[..|txs| - 1];
    assert init[i] == txs[i] && init[..i] == txs[..i] && init[..i + 1] == txs[..i + 1];
  }

  lemma LastApplies(s: Accounts, txs: seq<Transaction>, p: Params)
    requires AllTransfers(txs) && txs != [] && ApplyTransfers(s, txs[..|txs| - 1], p).Ok?
    ensures ApplyTransfers(s, txs, p).Ok? <==> Acceptable(s, txs, p, |txs| - 1)
  {
    hide ApplyTransfer, SpentBy, PaidTo, SentBy, TotalSpent;
    var n := |txs| - 1;
    var tx, t := txs[n], ApplyTransfers(s, txs[..n], p).value;
    TransferApplies(t, tx, p);
    forall a
      ensures Get(t, a).balance + Spent(p, txs[..n], a) == Get(s, a).balance + Paid(txs[..n], a)
      ensures Get(t, a).nonce == Get(s, a).nonce + Sent(p, txs[..n], a)
      ensures Paid(txs, a) == Paid(txs[..n], a) + PaidTo(tx, a)
      ensures Spent(p, txs, a) == Spent(p, txs[..n], a) + SpentBy(p, tx, a)
    {
      TransfersPay(s, txs[..n], p, a);
    }
    assert txs[..n + 1] == txs;
  }

  // --- one block ----------------------------------------------------------------------------

  /** A coinbase reward, as far as it goes to this address. */
  function RewardTo(tx: Transaction, a: Address): nat {
    if tx.Coinbase? && tx.address == a then tx.amount else 0
  }

  function MaturedTo(matured: Option<Transaction>, a: Address): nat {
    if matured.Some? then RewardTo(matured.value, a) else 0
  }

  lemma RewardPays(s: Accounts, height: nat, matured: Option<Transaction>, p: Params, a: Address)
    requires CreditMatured(s, height, matured, p).Ok?
    ensures var t := CreditMatured(s, height, matured, p).value;
      Get(t, a).balance == Get(s, a).balance + MaturedTo(matured, a) && Get(t, a).nonce == Get(s, a).nonce
  {
  }

  /** After a block every account has what it had, what matured to it and what was paid to it, less what it spent. */
  lemma BlockPays(b: Block, matured: Option<Transaction>, s: Accounts, p: Params, a: Address)
    requires WellFormed(b, p) && ApplyBody(b, matured, s, p).Ok?
    ensures var t := ApplyBody(b, matured, s, p).value;
      && Get(t, a).balance + Spent(p, b.txs[1..], a)
         == Get(s, a).balance + MaturedTo(matured, a) + Paid(b.txs[1..], a)
      && Get(t, a).nonce == Get(s, a).nonce + Sent(p, b.txs[1..], a)
  {
    hide CheckBlock, ApplyTransfers;
    TransfersPay(CreditMatured(s, b.header.height, matured, p).value, b.txs[1..], p, a);
  }

  // --- a whole chain --------------------------------------------------------------------------

  function Transfers(b: Block): seq<Transaction> { if b.txs == [] then [] else b.txs[1..] }

  function PaidOn(chain: seq<Block>, a: Address): nat {
    if chain == [] then 0 else PaidOn(chain[..|chain| - 1], a) + Paid(Transfers(chain[|chain| - 1]), a)
  }

  function SpentOn(p: Params, chain: seq<Block>, a: Address): nat {
    if chain == [] then 0 else SpentOn(p, chain[..|chain| - 1], a) + Spent(p, Transfers(chain[|chain| - 1]), a)
  }

  function SentOn(p: Params, chain: seq<Block>, a: Address): nat {
    if chain == [] then 0 else SentOn(p, chain[..|chain| - 1], a) + Sent(p, Transfers(chain[|chain| - 1]), a)
  }

  /** What the coinbases of these blocks give the address. */
  function RewardsOn(chain: seq<Block>, a: Address): nat {
    if chain == [] then 0
    else
      var b := chain[|chain| - 1];
      RewardsOn(chain[..|chain| - 1], a) + if b.txs == [] then 0 else RewardTo(b.txs[0], a)
  }

  /** The blocks whose reward can be spent: all but the last `coinbaseMaturity`. */
  function Matured(p: Params, chain: seq<Block>): seq<Block> {
    if |chain| <= p.coinbaseMaturity then [] else chain[..|chain| - p.coinbaseMaturity]
  }

  /** On every valid chain: a balance is every matured reward and every payment to the address, less everything it
      spent; and a nonce counts the transfers sent. */
  lemma {:induction false} BalanceIsHistory(p: Params, chain: seq<Block>, a: Address)
    requires ValidChain(p, chain)
    ensures var x := Get(Replay(p, chain).value.accounts, a);
      && x.balance + SpentOn(p, chain, a) == RewardsOn(Matured(p, chain), a) + PaidOn(chain, a)
      && x.nonce == SentOn(p, chain, a)
  {
    hide Connect;
    var n := |chain| - 1;
    if n == 0 {
      AtGenesisNothing(p, chain, a);
    } else {
      BalanceIsHistory(p, chain[..n], a);
      assert chain == chain[..n] + [chain[n]];
      HistoryStep(p, chain[..n], chain[n], a);
    }
  }

  lemma AtGenesisNothing(p: Params, chain: seq<Block>, a: Address)
    requires ValidChain(p, chain) && |chain| == 1
    ensures Get(Replay(p, chain).value.accounts, a) == EMPTY_ACCOUNT
    ensures SpentOn(p, chain, a) == PaidOn(chain, a) == SentOn(p, chain, a) == RewardsOn(Matured(p, chain), a) == 0
    ensures EMPTY_ACCOUNT.balance == EMPTY_ACCOUNT.nonce == 0
  {
    assert Transfers(chain[0]) == [];
    assert chain[..0] == [];
  }

  lemma HistoryStep(p: Params, chain: seq<Block>, b: Block, a: Address)
    requires ValidChain(p, chain) && ValidChain(p, chain + [b])
    requires var x := Get(Replay(p, chain).value.accounts, a);
      && x.balance + SpentOn(p, chain, a) == RewardsOn(Matured(p, chain), a) + PaidOn(chain, a)
      && x.nonce == SentOn(p, chain, a)
    ensures var x := Get(Replay(p, chain + [b]).value.accounts, a);
      && x.balance + SpentOn(p, chain + [b], a) == RewardsOn(Matured(p, chain + [b]), a) + PaidOn(chain + [b], a)
      && x.nonce == SentOn(p, chain + [b], a)
  {
    hide Replay, Connect, ContextFor, CheckBlock, ApplyBody, IndexTxs, AddressRows, Get, SpentBy, PaidTo, SentBy,
      RewardTo;
    ReplayExtends(p, chain, b);
    ContextIsDefined(p, chain);
    var before := Replay(p, chain).value;
    ConnectParts(p, chain, before, b);
    var matured := ContextFor(p, chain, before).value.matured;
    BlockPays(b, matured, before.accounts, p, a);
    MoreMatured(p, chain, b, matured, a);
    assert (chain + [b])[..|chain|] == chain;
  }

  lemma MoreMatured(p: Params, chain: seq<Block>, b: Block, matured: Option<Transaction>, a: Address)
    requires p.coinbaseMaturity >= 1
    requires |chain| < p.coinbaseMaturity ==> matured == None
    requires |chain| >= p.coinbaseMaturity ==> MaturesAt(matured, chain, |chain| - p.coinbaseMaturity)
    ensures RewardsOn(Matured(p, chain + [b]), a) == RewardsOn(Matured(p, chain), a) + MaturedTo(matured, a)
  {
    if |chain| >= p.coinbaseMaturity {
      var due := |chain| - p.coinbaseMaturity;
      var now := Matured(p, chain + [b]);
      assert now == chain[..due + 1] && now[..due] == chain[..due] && now[due] == chain[due];
      assert Matured(p, chain) == chain[..due];
    }
  }
}
