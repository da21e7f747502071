/**
 Which of two branches becomes active, told by their targets: lower targets and more blocks count for more.
 */
module ForkChoice {
  import opened Types
  import opened ActiveChain
  import opened ChainState
  import opened Receiving
  import opened Importing
  import opened Adoption
  import opened Chain
  import opened Delivery
  import Ledger

  // --- one block --------------------------------------------------------------------------

  /** The work of a target is how often the hashes at or below it fit into all. */
  lemma WorkIsQuotient(target: nat)
    ensures BlockWork(target) * (target + 1) <= TWO_256 < (BlockWork(target) + 1) * (target + 1)
    ensures target < TWO_256 ==> BlockWork(target) >= 1
  {
    Quotient(TWO_256, target + 1);
  }

  lemma Larger(a: nat, b: nat, d: nat)
    requires a <= b
    ensures a * d <= b * d
  {
  }

  lemma Smaller(a: nat, b: nat, d: nat)
    requires a * d < b * d
    ensures a < b
  {
    if b <= a { Larger(b, a, d); }
  }

  lemma Quotients(n: nat, l: nat, h: nat, low: nat, high: nat)
    requires n < (l + 1) * low && h * high <= n && low <= high
    ensures h <= l
  {
    Larger(low, high, h);
    assert h * low <= h * high;
    Smaller(h, l + 1, low);
  }

  lemma TwiceTheQuotient(n: nat, l: nat, h: nat, low: nat, high: nat)
    requires n < (l + 1) * low && h * high <= n && 2 * low <= high
    ensures 2 * h <= l
  {
    Larger(2 * low, high, h);
    assert (2 * h) * low == (2 * low) * h;
    Smaller(2 * h, l + 1, low);
  }

  /** A lower target takes at least as much work; one half as high, twice as much. */
  lemma HarderTakesMore(low: nat, high: nat)
    requires low <= high
    ensures BlockWork(low) >= BlockWork(high)
    ensures 2 * (low + 1) <= high + 1 ==> BlockWork(low) >= 2 * BlockWork(high)
  {
    hide BlockWork;
    var l, h := BlockWork(low), BlockWork(high);
    WorkIsQuotient(low);
    WorkIsQuotient(high);
    Quotients(TWO_256, l, h, low + 1, high + 1);
    if 2 * (low + 1) <= high + 1 { TwiceTheQuotient(TWO_256, l, h, low + 1, high + 1); }
  }

  // --- whole chains -------------------------------------------------------------------------

  /** Block by block at least as hard, and at least as long. */
  predicate NoEasier(c: seq<Block>, d: seq<Block>) {
    |c| >= |d| && forall i :: 0 <= i < |d| ==> c[i].header.target <= d[i].header.target
  }

  /** And longer, or somewhere at least twice as hard. */
  predicate Harder(c: seq<Block>, d: seq<Block>) {
    NoEasier(c, d) && (|c| > |d| ||
      exists i :: 0 <= i < |d| && 2 * (c[i].header.target + 1) <= d[i].header.target + 1)
  }

  predicate TargetsInRange(c: seq<Block>) {
    forall i :: 0 <= i < |c| ==> c[i].header.target < TWO_256
  }

  lemma {:induction false} ChainWork(p: Params, c: seq<Block>, d: seq<Block>)
    requires ValidChain(p, c) && ValidChain(p, d) && NoEasier(c, d) && TargetsInRange(c) && TargetsInRange(d)
    ensures Work(c[|c| - 1].Id()) >= Work(d[|d| - 1].Id())
    ensures Harder(c, d) ==> Work(c[|c| - 1].Id()) > Work(d[|d| - 1].Id())
    decreases |c|
  {
    hide Replay, Ledger.WellFormed, BlockWork, Work;
    var n := |c| - 1;
    var x := c[n];
    TipOf(p, c);
    TipOf(p, d);
    WorkIsQuotient(x.header.target);
    if |c| > |d| {
      PrefixIsValid(p, c, n);
      ChainWork(p, c[..n], d);
      assert c[..n][n - 1] == c[n - 1];
    } else {
      HarderTakesMore(x.header.target, d[n].header.target);
      WorkIsQuotient(d[n].header.target);
      if n > 0 {
        PrefixIsValid(p, c, n);
        PrefixIsValid(p, d, n);
        ChainWork(p, c[..n], d[..n]);
        assert c[..n][n - 1] == c[n - 1] && d[..n][n - 1] == d[n - 1];
        if Harder(c, d) { HarderBefore(c, d); }
      }
    }
  }

  lemma HarderBefore(c: seq<Block>, d: seq<Block>)
    requires |c| == |d| > 1 && Harder(c, d)
    ensures var n := |c| - 1;
      Harder(c[..n], d[..n]) || 2 * (c[n].header.target + 1) <= d[n].header.target + 1
  {
    var n := |c| - 1;
    var i :| 0 <= i < |d| && 2 * (c[i].header.target + 1) <= d[i].header.target + 1;
    if i < n { assert c[..n][i] == c[i] && d[..n][i] == d[i]; }
  }

  /** The work behind the last block. */
  lemma TipOf(p: Params, c: seq<Block>)
    requires ValidChain(p, c)
    ensures var n := |c| - 1;
      Work(c[n].Id()) == BlockWork(c[n].header.target) + if n == 0 then 0 else Work(c[n - 1].Id())
  {
    hide Replay, Ledger.WellFormed, BlockWork;
    ChainShape(p, c);
  }

  // --- what the node does -----------------------------------------------------------------------

  /** A block that ends a good chain is submitted, its parent stored on a branch that is not final. If its chain is
      block by block no easier than the active one, and longer or somewhere twice as hard, it becomes the active
      chain; if the active chain is no easier than it, the block is stored and the active chain stays. */
  method SubmitRival(cm: ChainManager, b: Block, ghost c: seq<Block>, now: nat) returns (r: SubmitResult)
    requires cm.Good() && cm.PoolOk() && Submittable(cm.p, [b], now)
    requires GoodChain(cm.p, c) && |c| > 1 && c[|c| - 1] == b && TargetsInRange(c) && TargetsInRange(cm.chain)
    requires |cm.store.tables.active.main| > 0 && b.header.prevId in cm.store.tables.headers
    requires MeetsFinal(cm.p, cm.store.tables, cm.chain, b.header.prevId)
    requires !HasOrphan(cm.orphans, b.Id()) && Childless(cm.orphans, b.Id())
    modifies cm, cm.store
    ensures cm.Good() && cm.PoolOk() && cm.orphans == old(cm.orphans)
    ensures Harder(c, old(cm.chain)) ==> r.outcome == NewTip && cm.chain == c
    ensures NoEasier(old(cm.chain), c) ==> b.Id() in cm.store.tables.headers && cm.chain == old(cm.chain)
  {
    hide Inv, Replay, Ledger.WellFormed, Step, TargetsBounded, KeepsSealed, NoLessWork, Accumulates, Ran, HasOrphan,
      Childless, MeetsFinal, Work, TargetsInRange, Harder, NoEasier, Raises, Guarded;
    ghost var t, was := cm.store.tables, cm.chain;
    assert [b][0] == b;
    ActiveIsValid(cm.p, t, was);
    r := cm.SubmitBlock(b, now, NoRace());
    GoodArrives(cm.p, t, was, old(cm.orphans), b, c, now, cm.store.tables, cm.chain, r);
    HarderIsNoEasier(c, was);
    if Harder(c, was) { ChainWork(cm.p, c, was); }
    if NoEasier(was, c) { ChainWork(cm.p, was, c); }
  }

  lemma HarderIsNoEasier(c: seq<Block>, d: seq<Block>)
    ensures Harder(c, d) ==> NoEasier(c, d)
  {
  }

  lemma ActiveIsValid(p: Params, t: Tables, chain: seq<Block>)
    requires Inv(p, t, chain)
    ensures ValidChain(p, chain)
  {
    hide Replay, Ledger.WellFormed, Work, SealedEnd, Sound, StoredOk;
  }
}
