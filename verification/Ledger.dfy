/**
 state.py, tx.check_transaction and block.check_block: the rules, and how a block changes
 balances, stated on plain account tables. The Overlay module holds the loop as written.
 */
module Ledger {
  import opened Types
  import Merkle

  // --- stateless rules ----------------------------------------------------------------

  predicate KnownPayload(a: Address) { a < TWO_160 }

  function CheckOutputs(outputs: seq<Output>): Option<Error> {
    if outputs == [] then None
    else if CheckOutputs(outputs[..|outputs| - 1]).Some? then CheckOutputs(outputs[..|outputs| - 1])
    else
      var o := outputs[|outputs| - 1];
      if !KnownPayload(o.address) then Some(BadAddress)
      else if !(1 <= o.amount <= MAX_AMOUNT) then Some(BadAmount)
      else None
  }

  /** tx.check_transaction */
  function CheckTransaction(tx: Transaction, p: Params): Option<Error> {
    if tx.networkId != p.networkId then Some(WrongNetwork)
    else if |tx.memo| > MAX_MEMO_SIZE then Some(MemoTooLarge)
    else
      match tx
      case Coinbase(_, _, address, amount, _) =>
        if !KnownPayload(address) then Some(BadAddress)
        else if amount > MAX_AMOUNT then Some(BadAmount)
        else None
      case Transfer(_, _, _, fee, outputs, _, _) =>
        if !(1 <= |outputs| <= MAX_OUTPUTS) then Some(BadOutputCount)
        else if CheckOutputs(outputs).Some? then CheckOutputs(outputs)
        else if fee > MAX_AMOUNT then Some(BadFee)
        else if TotalSpent(tx) > MAX_AMOUNT then Some(AmountOverflow)
        else if !p.validSignature(tx) then Some(BadSignature)
        else None
  }

  function CheckTransactions(txs: seq<Transaction>, p: Params): Option<Error> {
    if txs == [] then None
    else if CheckTransactions(txs[..|txs| - 1], p).Some? then CheckTransactions(txs[..|txs| - 1], p)
    else CheckTransaction(txs[|txs| - 1], p)
  }

  predicate AllTransfers(txs: seq<Transaction>) {
    forall i :: 0 <= i < |txs| ==> txs[i].Transfer?
  }

  predicate NoRepeats(txs: seq<Transaction>) {
    forall i, j :: 0 <= i < j < |txs| ==> TxHash(txs[i]) != TxHash(txs[j])
  }

  /** block.check_block: every rule that needs no chain state. */
  function CheckBlock(b: Block, p: Params): (r: Option<Error>)
    ensures r.None? ==> |b.txs| > 0 && b.txs[0].Coinbase? && AllTransfers(b.txs[1..])
  {
    if b.header.version != BLOCK_VERSION then Some(BadVersion)
    else if BlockSize(b) > p.maxBlockSize then Some(BlockTooLarge)
    else if |b.txs| == 0 || !b.txs[0].Coinbase? then Some(MissingCoinbase)
    else if !AllTransfers(b.txs[1..]) then Some(ExtraCoinbase)
    else if b.txs[0].height != b.header.height then Some(BadCoinbaseHeight)
    else if !NoRepeats(b.txs) then Some(DuplicateTransaction)
    else if Merkle.TxRoot(b.txs) != b.header.merkleRoot then Some(BadMerkleRoot)
    else CheckTransactions(b.txs, p)
  }

  predicate WellFormed(b: Block, p: Params) { CheckBlock(b, p).None? }

  /** The id of a well-formed block fixes its body too. */
  lemma SameIdSameBlock(a: Block, b: Block, p: Params)
    requires WellFormed(a, p) && WellFormed(b, p)
    requires a.Id() == b.Id()
    ensures a == b
  {
    Merkle.TxRootInjective(a.txs, b.txs);
  }

  // --- header rules -------------------------------------------------------------------

  datatype Context = Context(parent: BlockHeader, medianTimePast: nat, expectedTarget: nat,
                             matured: Option<Transaction>, snapshotRoot: Digest)

  /** state.check_header_against_parent */
  function CheckHeaderAgainstParent(h: BlockHeader, parent: BlockHeader, medianTimePast: nat,
                                    expectedTarget: nat, p: Params, checkPow: bool): Option<Error>
  {
    if h.height != parent.height + 1 then Some(BadHeight)
    else if h.prevId != HeaderHash(parent) then Some(BadPrevId)
    else if h.timestamp <= medianTimePast then Some(TimeTooOld)
    else if h.target != expectedTarget then Some(BadTarget)
    else if checkPow && !p.meetsTarget(h) then Some(BadPow)
    else None
  }

  /** state.check_header */
  function CheckHeader(h: BlockHeader, ctx: Context, p: Params, checkPow: bool): Option<Error> {
    var r := CheckHeaderAgainstParent(h, ctx.parent, ctx.medianTimePast, ctx.expectedTarget, p, checkPow);
    if r.Some? then r
    else if h.snapshotRoot != ctx.snapshotRoot then Some(BadSnapshotRoot)
    else None
  }

  predicate NotInFuture(h: BlockHeader, now: nat, p: Params) {
    h.timestamp <= now + p.maxFutureDrift
  }

  // --- accounts -----------------------------------------------------------------------

  function Get(s: Accounts, a: Address): Account {
    if a in s then s[a] else EMPTY_ACCOUNT
  }

  /** Writing an empty account deletes the record. */
  function Put(s: Accounts, a: Address, x: Account): Accounts {
    if x == EMPTY_ACCOUNT then s - {a} else s[a := x]
  }

  /** No record is empty. */
  predicate Normal(s: Accounts) { forall a :: a in s ==> s[a] != EMPTY_ACCOUNT }

  lemma SameReadsSameTable(s: Accounts, t: Accounts)
    requires Normal(s) && Normal(t)
    requires forall a :: Get(s, a) == Get(t, a)
    ensures s == t
  {
    forall a
      ensures a in s <==> a in t
      ensures a in s ==> s[a] == t[a]
    {
      assert Get(s, a) == Get(t, a);
    }
  }

  /** store.write_accounts: every change written, empty accounts deleted. */
  function Write(s: Accounts, changes: map<Address, Account>): (r: Accounts)
    ensures forall a :: Get(r, a) == if a in changes then changes[a] else Get(s, a)
    ensures Normal(s) ==> Normal(r)
  {
    map a | a in s.Keys + changes.Keys && (a in changes ==> changes[a] != EMPTY_ACCOUNT) ::
      if a in changes then changes[a] else s[a]
  }

  /** Writing one more change is putting it into the written table. */
  lemma WritePut(base: Accounts, changes: map<Address, Account>, a: Address, x: Account)
    requires Normal(base)
    ensures Write(base, changes[a := x]) == Put(Write(base, changes), a, x)
  {
    SameReadsSameTable(Write(base, changes[a := x]), Put(Write(base, changes), a, x));
  }

  function Credit(s: Accounts, a: Address, amount: nat): Result<Accounts> {
    var was := Get(s, a);
    if was.balance + amount > MAX_AMOUNT then Err(BalanceOverflow)
    else Ok(Put(s, a, Account(was.balance + amount, was.nonce)))
  }

  function CreditOutputs(s: Accounts, outputs: seq<Output>): Result<Accounts> {
    if outputs == [] then Ok(s)
    else
      var t :- CreditOutputs(s, outputs[..|outputs| - 1]);
      Credit(t, outputs[|outputs| - 1].address, outputs[|outputs| - 1].amount)
  }

  function Debit(s: Accounts, a: Address, amount: nat): Accounts
    requires amount <= Get(s, a).balance
  {
    Put(s, a, Account(Get(s, a).balance - amount, Get(s, a).nonce + 1))
  }

  function ApplyTransfer(s: Accounts, tx: Transaction, p: Params): Result<Accounts>
    requires tx.Transfer?
  {
    var sender := Get(s, Sender(p, tx));
    if tx.nonce != sender.nonce then Err(BadNonce)
    else if TotalSpent(tx) > sender.balance then Err(InsufficientFunds)
    else CreditOutputs(Debit(s, Sender(p, tx), TotalSpent(tx)), tx.outputs)
  }

  function ApplyTransfers(s: Accounts, txs: seq<Transaction>, p: Params): Result<Accounts>
    requires AllTransfers(txs)
  {
    if txs == [] then Ok(s)
    else
      var t :- ApplyTransfers(s, txs[..|txs| - 1], p);
      ApplyTransfer(t, txs[|txs| - 1], p)
  }

  function SumFees(txs: seq<Transaction>): nat
    requires AllTransfers(txs)
  {
    if txs == [] then 0 else SumFees(txs[..|txs| - 1]) + txs[|txs| - 1].fee
  }

  /** The reward that becomes spendable at this block, credited first. */
  function CreditMatured(s: Accounts, height: nat, matured: Option<Transaction>, p: Params): Result<Accounts> {
    if height >= p.coinbaseMaturity then
      if matured.None? || !matured.value.Coinbase? || matured.value.height != height - p.coinbaseMaturity
      then Err(MissingContext)
      else Credit(s, matured.value.address, matured.value.amount)
    else if matured.Some? then Err(MissingContext)
    else Ok(s)
  }

  /** Steps 1 to 3 of state.apply_block. */
  function ApplyBody(b: Block, matured: Option<Transaction>, s: Accounts, p: Params): Result<Accounts>
    requires WellFormed(b, p)
  {
    var credited :- CreditMatured(s, b.header.height, matured, p);
    var paid :- ApplyTransfers(credited, b.txs[1..], p);
    if b.txs[0].amount != p.blockReward + SumFees(b.txs[1..]) then Err(BadCoinbaseAmount)
    else Ok(paid)
  }

  /** state.apply_block: the account table after the block, or the rule it breaks. */
  function ApplyBlock(b: Block, ctx: Context, s: Accounts, p: Params, checkPow: bool): Result<Accounts> {
    var headerError := CheckHeader(b.header, ctx, p, checkPow);
    if headerError.Some? then Err(headerError.value)
    else
      var blockError := CheckBlock(b, p);
      if blockError.Some? then Err(blockError.value)
      else ApplyBody(b, ctx.matured, s, p)
  }

  // --- what a block touches -----------------------------------------------------------

  function OutputAddresses(outputs: seq<Output>): set<Address> {
    set o | o in outputs :: o.address
  }

  /** store._addresses_of */
  function AddressesOf(tx: Transaction, p: Params): set<Address> {
    match tx
    case Coinbase(_, _, address, _, _) => {address}
    case Transfer(_, _, _, _, outputs, _, _) => {Sender(p, tx)} + OutputAddresses(outputs)
  }

  function TransferAddresses(txs: seq<Transaction>, p: Params): set<Address> {
    if txs == [] then {} else TransferAddresses(txs[..|txs| - 1], p) + AddressesOf(txs[|txs| - 1], p)
  }

  function MaturedAddresses(matured: Option<Transaction>): set<Address> {
    if matured.Some? && matured.value.Coinbase? then {matured.value.address} else {}
  }

  function Senders(txs: seq<Transaction>, p: Params): set<Address>
    requires AllTransfers(txs)
  {
    set tx | tx in txs :: Sender(p, tx)
  }

  /** Every account the block reads or writes. */
  function Touched(b: Block, matured: Option<Transaction>, p: Params): set<Address>
    requires |b.txs| > 0
  {
    MaturedAddresses(matured) + TransferAddresses(b.txs[1..], p)
  }

  /** The undo record: what those accounts were before. */
  function Previous(s: Accounts, touched: set<Address>): map<Address, Account> {
    map a | a in touched :: Get(s, a)
  }

  // --- facts about one block ----------------------------------------------------------

  /** Credits never lower a balance nor move a nonce. */
  ghost predicate OnlyRaised(s: Accounts, t: Accounts) {
    forall a :: Get(t, a).balance >= Get(s, a).balance && Get(t, a).nonce == Get(s, a).nonce
  }

  lemma CreditFacts(s: Accounts, a: Address, amount: nat)
    requires Normal(s) && Credit(s, a, amount).Ok?
    ensures Normal(Credit(s, a, amount).value)
    ensures OnlyRaised(s, Credit(s, a, amount).value)
    ensures forall x :: x != a ==> Get(Credit(s, a, amount).value, x) == Get(s, x)
  {
  }

  lemma {:induction false} CreditOutputsFacts(s: Accounts, outputs: seq<Output>)
    requires Normal(s) && CreditOutputs(s, outputs).Ok?
    ensures var t := CreditOutputs(s, outputs).value;
      && Normal(t) && OnlyRaised(s, t)
      && forall x :: x !in OutputAddresses(outputs) ==> Get(t, x) == Get(s, x)
  {
    if outputs != [] {
      var n := |outputs| - 1;
      CreditOutputsFacts(s, outputs[..n]);
      var t := CreditOutputs(s, outputs[..n]).value;
      CreditFacts(t, outputs[n].address, outputs[n].amount);
      forall x | x !in OutputAddresses(outputs)
        ensures x !in OutputAddresses(outputs[..n]) && x != outputs[n].address
      {
        assert outputs[n] in outputs;
        assert forall o :: o in outputs[..n] ==> o in outputs;
      }
    }
  }

  lemma TransferFacts(s: Accounts, tx: Transaction, p: Params)
    requires tx.Transfer? && Normal(s) && ApplyTransfer(s, tx, p).Ok?
    ensures var t := ApplyTransfer(s, tx, p).value;
      && Normal(t)
      && (forall x :: x != Sender(p, tx) ==>
          Get(t, x).balance >= Get(s, x).balance && Get(t, x).nonce == Get(s, x).nonce)
      && Get(t, Sender(p, tx)).nonce == Get(s, Sender(p, tx)).nonce + 1 == tx.nonce + 1
      && Get(t, Sender(p, tx)).balance >= Get(s, Sender(p, tx)).balance - TotalSpent(tx)
      && (forall x :: x !in AddressesOf(tx, p) ==> Get(t, x) == Get(s, x))
  {
    var sender := Sender(p, tx);
    var d := Debit(s, sender, TotalSpent(tx));
    assert forall x :: x != sender ==> Get(d, x) == Get(s, x);
    CreditOutputsFacts(d, tx.outputs);
    assert forall x :: x !in AddressesOf(tx, p) ==> x != sender && x !in OutputAddresses(tx.outputs);
  }

  /** Along a list of transfers: nonces never go down, each transfer uses a nonce the account had
      and no longer has, only senders are debited, and other accounts are left alone. */
  lemma {:induction false} TransfersFacts(s: Accounts, txs: seq<Transaction>, p: Params)
    requires AllTransfers(txs) && Normal(s) && ApplyTransfers(s, txs, p).Ok?
    ensures var t := ApplyTransfers(s, txs, p).value;
      && Normal(t)
      && (forall x :: Get(t, x).nonce >= Get(s, x).nonce)
      && (forall x :: x !in Senders(txs, p) ==>
          Get(t, x).balance >= Get(s, x).balance && Get(t, x).nonce == Get(s, x).nonce)
      && (forall tx :: tx in txs ==> Get(s, Sender(p, tx)).nonce <= tx.nonce < Get(t, Sender(p, tx)).nonce)
      && (forall x :: x !in TransferAddresses(txs, p) ==> Get(t, x) == Get(s, x))
  {
    if txs != [] {
      var n := |txs| - 1;
      var init, last := txs[..n], txs[n];
      TransfersFacts(s, init, p);
      var m := ApplyTransfers(s, init, p).value;
      TransferFacts(m, last, p);
      var t := ApplyTransfers(s, txs, p).value;
      assert txs == init + [last];
      forall x | x !in Senders(txs, p)
        ensures Get(t, x).balance >= Get(s, x).balance && Get(t, x).nonce == Get(s, x).nonce
      {
        assert last in txs && forall tx :: tx in init ==> tx in txs;
        assert x !in Senders(init, p) && x != Sender(p, last);
      }
      forall tx | tx in txs
        ensures Get(s, Sender(p, tx)).nonce <= tx.nonce < Get(t, Sender(p, tx)).nonce
      {
        if tx in init {
          assert Get(t, Sender(p, tx)).nonce >= Get(m, Sender(p, tx)).nonce;
        }
      }
    }
  }

  /** What a valid block leaves alone, and what it can only raise. */
  lemma BodyFacts(b: Block, matured: Option<Transaction>, s: Accounts, p: Params)
    requires Normal(s) && WellFormed(b, p) && ApplyBody(b, matured, s, p).Ok?
    ensures var t := ApplyBody(b, matured, s, p).value;
      && Normal(t)
      && (forall x :: x !in Touched(b, matured, p) ==> Get(t, x) == Get(s, x))
      && (forall x :: Get(t, x).nonce >= Get(s, x).nonce)
      && (forall x :: x !in Senders(b.txs[1..], p) ==>
          Get(t, x).balance >= Get(s, x).balance && Get(t, x).nonce == Get(s, x).nonce)
      && (forall tx :: tx in b.txs[1..] ==> Get(s, Sender(p, tx)).nonce <= tx.nonce < Get(t, Sender(p, tx)).nonce)
  {
    var credited := CreditMatured(s, b.header.height, matured, p).value;
    if matured.Some? {
      CreditFacts(s, matured.value.address, matured.value.amount);
    }
    TransfersFacts(credited, b.txs[1..], p);
  }

  /** Writing the undo record back restores the table exactly. */
  lemma UndoRestores(b: Block, matured: Option<Transaction>, s: Accounts, p: Params)
    requires Normal(s) && WellFormed(b, p) && ApplyBody(b, matured, s, p).Ok?
    ensures Write(ApplyBody(b, matured, s, p).value, Previous(s, Touched(b, matured, p))) == s
  {
    BodyFacts(b, matured, s, p);
    var t := ApplyBody(b, matured, s, p).value;
    SameReadsSameTable(Write(t, Previous(s, Touched(b, matured, p))), s);
  }

  // --- conservation -------------------------------------------------------------------

  /** All coins in a table. */
  ghost function Total(s: Accounts): nat
    decreases |s|
  {
    if s == map[] then 0
    else
      var a :| a in s;
      s[a].balance + Total(s - {a})
  }

  lemma {:induction false} TotalWithout(s: Accounts, a: Address)
    requires a in s
    ensures Total(s) == s[a].balance + Total(s - {a})
    decreases |s|
  {
    var b :| b in s && Total(s) == s[b].balance + Total(s - {b});
    if a != b {
      TotalWithout(s - {b}, a);
      TotalWithout(s - {a}, b);
      assert s - {b} - {a} == s - {a} - {b};
    }
  }

  lemma TotalPut(s: Accounts, a: Address, x: Account)
    requires Normal(s)
    ensures Total(Put(s, a, x)) == Total(s) - Get(s, a).balance + x.balance
  {
    var t := Put(s, a, x);
    if a in s { TotalWithout(s, a); }
    if a in t { TotalWithout(t, a); }
    assert s - {a} == t - {a};
    if a !in s { assert s - {a} == s; }
    if a !in t { assert t - {a} == t; }
  }

  /** One account never holds more than there is. */
  lemma BalanceWithinTotal(s: Accounts, a: Address)
    ensures Get(s, a).balance <= Total(s)
  {
    if a in s { TotalWithout(s, a); }
  }

  lemma {:induction false} CreditOutputsTotal(s: Accounts, outputs: seq<Output>)
    requires Normal(s) && CreditOutputs(s, outputs).Ok?
    ensures Total(CreditOutputs(s, outputs).value) == Total(s) + SumAmounts(outputs)
  {
    if outputs != [] {
      var n := |outputs| - 1;
      CreditOutputsTotal(s, outputs[..n]);
      CreditOutputsFacts(s, outputs[..n]);
      var t := CreditOutputs(s, outputs[..n]).value;
      var o := outputs[n];
      TotalPut(t, o.address, Account(Get(t, o.address).balance + o.amount, Get(t, o.address).nonce));
    }
  }

  lemma TransferTotal(s: Accounts, tx: Transaction, p: Params)
    requires tx.Transfer? && Normal(s) && ApplyTransfer(s, tx, p).Ok?
    ensures Total(ApplyTransfer(s, tx, p).value) + tx.fee == Total(s)
  {
    var a := Sender(p, tx);
    TotalPut(s, a, Account(Get(s, a).balance - TotalSpent(tx), Get(s, a).nonce + 1));
    CreditOutputsTotal(Debit(s, a, TotalSpent(tx)), tx.outputs);
  }

  lemma {:induction false} TransfersTotal(s: Accounts, txs: seq<Transaction>, p: Params)
    requires AllTransfers(txs) && Normal(s) && ApplyTransfers(s, txs, p).Ok?
    ensures Total(ApplyTransfers(s, txs, p).value) + SumFees(txs) == Total(s)
  {
    if txs != [] {
      var n := |txs| - 1;
      TransfersTotal(s, txs[..n], p);
      TransfersFacts(s, txs[..n], p);
      TransferTotal(ApplyTransfers(s, txs[..n], p).value, txs[n], p);
    }
  }

  function MaturedAmount(matured: Option<Transaction>): nat {
    if matured.Some? && matured.value.Coinbase? then matured.value.amount else 0
  }

  lemma MaturedTotal(s: Accounts, height: nat, matured: Option<Transaction>, p: Params)
    requires Normal(s) && CreditMatured(s, height, matured, p).Ok?
    ensures var t := CreditMatured(s, height, matured, p).value;
      Normal(t) && Total(t) == Total(s) + MaturedAmount(matured)
  {
    if matured.Some? {
      var m := matured.value;
      CreditFacts(s, m.address, m.amount);
      TotalPut(s, m.address, Account(Get(s, m.address).balance + m.amount, Get(s, m.address).nonce));
    }
  }

  /** A block moves coins: what matures comes in, the fees go out to its own coinbase. */
  lemma BodyTotal(b: Block, matured: Option<Transaction>, s: Accounts, p: Params)
    requires Normal(s) && WellFormed(b, p) && ApplyBody(b, matured, s, p).Ok?
    ensures Total(ApplyBody(b, matured, s, p).value) + b.txs[0].amount
         == Total(s) + MaturedAmount(matured) + p.blockReward
  {
    hide CheckBlock;
    MaturedTotal(s, b.header.height, matured, p);
    TransfersTotal(CreditMatured(s, b.header.height, matured, p).value, b.txs[1..], p);
  }
}
