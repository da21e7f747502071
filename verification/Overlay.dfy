/**
 state.apply_block as written: an overlay over the stored accounts, updated in place while
 the transfers are walked in block order. It is proved to compute Ledger.ApplyBlock, and to
 leave behind exactly the new and the previous value of every account the block touched.
 */
module Overlay {
  import opened Types
  import Ledger

  datatype StateChanges = StateChanges(accounts: map<Address, Account>, previous: map<Address, Account>, fees: nat)

  class Overlay {
    const base: Accounts
    var accounts: map<Address, Account>
    var previous: map<Address, Account>

    ghost predicate Valid()
      reads this
    {
      Ledger.Normal(base) && previous == Ledger.Previous(base, accounts.Keys)
    }

    /** The account table as it would be if the recorded writes were stored. */
    ghost function Now(): Accounts
      reads this
    {
      Ledger.Write(base, accounts)
    }

    constructor (base: Accounts)
      requires Ledger.Normal(base)
      ensures Valid() && this.base == base && Now() == base && accounts == map[]
    {
      this.base := base;
      accounts := map[];
      previous := map[];
      new;
      Ledger.SameReadsSameTable(Ledger.Write(base, map[]), base);
    }

    function Read(a: Address): (r: Account)
      reads this
      ensures r == Ledger.Get(Now(), a)
    {
      if a in accounts then accounts[a] else Ledger.Get(base, a)
    }

    method Set(a: Address, x: Account)
      requires Valid()
      modifies this
      ensures Valid() && accounts.Keys == old(accounts.Keys) + {a}
      ensures Now() == Ledger.Put(old(Now()), a, x)
    {
      hide Ledger.Write, Ledger.Put;
      Ledger.WritePut(base, accounts, a, x);
      if a !in previous {
        previous := previous[a := Ledger.Get(base, a)];
      }
      accounts := accounts[a := x];
    }

    method Credit(a: Address, amount: nat) returns (error: Option<Error>)
      requires Valid()
      modifies this
      ensures Valid()
      ensures match Ledger.Credit(old(Now()), a, amount)
              case Ok(t) => error == None && Now() == t && accounts.Keys == old(accounts.Keys) + {a}
              case Err(e) => error == Some(e) && unchanged(this)
    {
      var account := Read(a);
      var balance := account.balance + amount;
      if balance > MAX_AMOUNT {
        return Some(BalanceOverflow);
      }
      Set(a, Account(balance, account.nonce));
      return None;
    }

    method CreditOutputs(outputs: seq<Output>) returns (error: Option<Error>)
      requires Valid()
      modifies this
      ensures Valid()
      ensures match Ledger.CreditOutputs(old(Now()), outputs)
              case Ok(t) => error == None && Now() == t
                && accounts.Keys == old(accounts.Keys) + Ledger.OutputAddresses(outputs)
              case Err(e) => error == Some(e)
    {
      hide Ledger.Write, Ledger.Credit;
      for i := 0 to |outputs|
        invariant Valid()
        invariant Ledger.CreditOutputs(old(Now()), outputs[..i]) == Ok(Now())
        invariant accounts.Keys == old(accounts.Keys) + Ledger.OutputAddresses(outputs[..i])
      {
        assert outputs[..i + 1][..i] == outputs[..i];
        assert outputs[..i + 1] == outputs[..i] + [outputs[i]];
        error := Credit(outputs[i].address, outputs[i].amount);
        if error.Some? {
          CreditFailureStays(old(Now()), outputs, i + 1);
          return;
        }
      }
      assert outputs[..|outputs|] == outputs;
      error := None;
    }

    /** One transfer: nonce, funds, debit, credits. */
    method Apply(tx: Transaction, p: Params) returns (error: Option<Error>)
      requires Valid() && tx.Transfer?
      modifies this
      ensures Valid()
      ensures match Ledger.ApplyTransfer(old(Now()), tx, p)
              case Ok(t) => error == None && Now() == t
                && accounts.Keys == old(accounts.Keys) + Ledger.AddressesOf(tx, p)
              case Err(e) => error == Some(e)
    {
      hide Ledger.Write, Ledger.CreditOutputs, Ledger.Previous, SumAmounts;
      var from := p.addressOf(tx.publicKey);
      var sender := Read(from);
      if tx.nonce != sender.nonce {
        return Some(BadNonce);
      }
      if TotalSpent(tx) > sender.balance {
        return Some(InsufficientFunds);
      }
      Set(from, Account(sender.balance - TotalSpent(tx), sender.nonce + 1));
      error := CreditOutputs(tx.outputs);
    }

    /** The transfers of a block, in block order, and their fees. */
    method ApplyAll(txs: seq<Transaction>, p: Params) returns (r: Result<nat>)
      requires Valid() && Ledger.AllTransfers(txs)
      modifies this
      ensures Valid()
      ensures match Ledger.ApplyTransfers(old(Now()), txs, p)
              case Ok(t) => r == Ok(Ledger.SumFees(txs)) && Now() == t
                && accounts.Keys == old(accounts.Keys) + Ledger.TransferAddresses(txs, p)
              case Err(e) => r == Err(e)
    {
      hide Ledger.Write, Ledger.ApplyTransfer, Ledger.AddressesOf, Ledger.Previous;
      var fees := 0;
      for i := 0 to |txs|
        invariant Valid()
        invariant Ledger.ApplyTransfers(old(Now()), txs[..i], p) == Ok(Now())
        invariant accounts.Keys == old(accounts.Keys) + Ledger.TransferAddresses(txs[..i], p)
        invariant fees == Ledger.SumFees(txs[..i])
      {
        assert txs[..i + 1][..i] == txs[..i];
        var failed := Apply(txs[i], p);
        if failed.Some? {
          TransferFailureStays(old(Now()), txs, p, i + 1);
          return Err(failed.value);
        }
        fees := fees + txs[i].fee;
      }
      assert txs[..|txs|] == txs;
      r := Ok(fees);
    }

    /** The reward that matures at this height. */
    method CreditMatured(height: nat, matured: Option<Transaction>, p: Params) returns (error: Option<Error>)
      requires Valid()
      modifies this
      ensures Valid()
      ensures match Ledger.CreditMatured(old(Now()), height, matured, p)
              case Ok(t) => error == None && Now() == t
                && accounts.Keys == old(accounts.Keys) + Ledger.MaturedAddresses(matured)
              case Err(e) => error == Some(e)
    {
      hide Ledger.Write, Ledger.Credit;
      if height >= p.coinbaseMaturity {
        if matured.None? || !matured.value.Coinbase? || matured.value.height != height - p.coinbaseMaturity {
          return Some(MissingContext);
        }
        error := Credit(matured.value.address, matured.value.amount);
      } else if matured.Some? {
        error := Some(MissingContext);
      } else {
        error := None;
      }
    }
  }

  lemma {:induction false} CreditFailureStays(s: Accounts, outputs: seq<Output>, n: nat)
    requires n <= |outputs| && Ledger.CreditOutputs(s, outputs[..n]).Err?
    ensures Ledger.CreditOutputs(s, outputs) == Ledger.CreditOutputs(s, outputs[..n])
  {
    if n < |outputs| {
      assert outputs[..|outputs| - 1][..n] == outputs[..n];
      CreditFailureStays(s, outputs[..|outputs| - 1], n);
    } else {
      assert outputs[..n] == outputs;
    }
  }

  lemma {:induction false} TransferFailureStays(s: Accounts, txs: seq<Transaction>, p: Params, n: nat)
    requires Ledger.AllTransfers(txs) && n <= |txs| && Ledger.ApplyTransfers(s, txs[..n], p).Err?
    ensures Ledger.ApplyTransfers(s, txs, p) == Ledger.ApplyTransfers(s, txs[..n], p)
  {
    if n < |txs| {
      assert txs[..|txs| - 1][..n] == txs[..n];
      TransferFailureStays(s, txs[..|txs| - 1], p, n);
    } else {
      assert txs[..n] == txs;
    }
  }

  /** Steps 1 to 3 of apply_block on a block that passed the stateless checks. */
  method ApplyBody(b: Block, matured: Option<Transaction>, base: Accounts, p: Params)
    returns (r: Result<StateChanges>)
    requires Ledger.Normal(base) && Ledger.WellFormed(b, p)
    ensures match Ledger.ApplyBody(b, matured, base, p)
            case Err(e) => r == Err(e)
            case Ok(t) =>
              && r.Ok?
              && r.value.accounts == Ledger.Previous(t, Ledger.Touched(b, matured, p))
              && r.value.previous == Ledger.Previous(base, Ledger.Touched(b, matured, p))
              && Ledger.Write(base, r.value.accounts) == t
              && r.value.fees == Ledger.SumFees(b.txs[1..]) && b.txs[0].amount == p.blockReward + r.value.fees
  {
    hide Ledger.CheckBlock, Ledger.Write, Ledger.ApplyTransfers, Ledger.CreditMatured, Ledger.TransferAddresses;
    var overlay := new Overlay(base);
    var failed := overlay.CreditMatured(b.header.height, matured, p);
    if failed.Some? {
      return Err(failed.value);
    }
    var fees := overlay.ApplyAll(b.txs[1..], p);
    if fees.Err? {
      return Err(fees.error);
    }
    if b.txs[0].amount != p.blockReward + fees.value {
      return Err(BadCoinbaseAmount);
    }
    assert overlay.accounts.Keys == Ledger.Touched(b, matured, p);
    r := Ok(StateChanges(overlay.accounts, overlay.previous, fees.value));
  }

  /** state.apply_block */
  method ApplyBlock(b: Block, ctx: Ledger.Context, base: Accounts, p: Params, checkPow: bool)
    returns (r: Result<StateChanges>)
    requires Ledger.Normal(base)
    ensures match Ledger.ApplyBlock(b, ctx, base, p, checkPow)
            case Err(e) => r == Err(e)
            case Ok(t) =>
              && r.Ok? && |b.txs| > 0
              && r.value.accounts == Ledger.Previous(t, Ledger.Touched(b, ctx.matured, p))
              && r.value.previous == Ledger.Previous(base, Ledger.Touched(b, ctx.matured, p))
              && Ledger.Write(base, r.value.accounts) == t
              && Ledger.AllTransfers(b.txs[1..]) && r.value.fees == Ledger.SumFees(b.txs[1..])
              && b.txs[0].Coinbase? && b.txs[0].amount == p.blockReward + r.value.fees
  {
    hide Ledger.CheckHeader, Ledger.ApplyBody, Ledger.Write, Ledger.Touched;
    var headerError := Ledger.CheckHeader(b.header, ctx, p, checkPow);
    if headerError.Some? {
      return Err(headerError.value);
    }
    var blockError := Ledger.CheckBlock(b, p);
    if blockError.Some? {
      return Err(blockError.value);
    }
    r := ApplyBody(b, ctx.matured, base, p);
  }

  /** MemoryState.apply then revert: writing the changes and then the previous values is no change. */
  lemma RevertUndoesApply(b: Block, matured: Option<Transaction>, base: Accounts, p: Params)
    requires Ledger.Normal(base) && Ledger.WellFormed(b, p) && Ledger.ApplyBody(b, matured, base, p).Ok?
    ensures var touched := Ledger.Touched(b, matured, p);
      var t := Ledger.ApplyBody(b, matured, base, p).value;
      Ledger.Write(Ledger.Write(base, Ledger.Previous(t, touched)), Ledger.Previous(base, touched)) == base
  {
    hide Ledger.CheckBlock, Ledger.ApplyBody, Ledger.Touched;
    var touched := Ledger.Touched(b, matured, p);
    var t := Ledger.ApplyBody(b, matured, base, p).value;
    Ledger.SameReadsSameTable(
      Ledger.Write(Ledger.Write(base, Ledger.Previous(t, touched)), Ledger.Previous(base, touched)), base);
  }
}
