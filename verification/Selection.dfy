/**
 The choice mempool.select is meant to make, defined without a heap: look at every sender's next
 transfer each time and take the best-paying one that still fits.
 */
module Selection {
  import opened Types
  import opened Pool
  import Ledger

  // --- a heap element: (-fee rate, sender, nonce), least first ------------------------------------------

  datatype Head = Head(rate: real, sender: Address, nonce: nat)

  predicate HeadLe(a: Head, b: Head) {
    a.rate > b.rate || (a.rate == b.rate && (a.sender < b.sender || (a.sender == b.sender && a.nonce <= b.nonce)))
  }

  function HeadOf(p: Params, t: Transaction): Head
    requires t.Transfer?
  {
    Head(FeeRate(t), Sender(p, t), t.nonce)
  }

  predicate IsBest(heap: set<Head>, h: Head) {
    h in heap && forall x :: x in heap ==> HeadLe(h, x)
  }

  lemma {:induction false} HasBestHead(heap: set<Head>)
    requires heap != {}
    ensures exists h :: IsBest(heap, h)
    decreases |heap|
  {
    var x :| x in heap;
    var rest := heap - {x};
    if rest == {} {
      assert heap == {x} && IsBest(heap, x);
    } else {
      assert |rest| < |heap|;
      HasBestHead(rest);
      var h :| IsBest(rest, h);
      BestOfMore(rest, h, x);
      assert heap == rest + {x};
    }
  }

  lemma BestOfMore(rest: set<Head>, h: Head, x: Head)
    requires IsBest(rest, h)
    ensures IsBest(rest + {x}, if HeadLe(x, h) then x else h)
  {
  }

  // --- which transfers can come next -------------------------------------------------------------------------

  function MinNonce(pending: Pending): (n: nat)
    requires pending != map[]
    ensures n in pending && forall m :: m in pending ==> n <= m
  {
    HasMin(pending.Keys);
    var n :| IsMin(pending.Keys, n);
    n
  }

  predicate IsMin(s: set<nat>, n: nat) {
    n in s && forall m :: m in s ==> n <= m
  }

  lemma {:induction false} HasMin(s: set<nat>)
    requires s != {}
    ensures exists n :: IsMin(s, n)
    decreases |s|
  {
    var x :| x in s;
    var rest := s - {x};
    if rest == {} {
      assert s == {x} && IsMin(s, x);
    } else {
      assert |rest| < |s|;
      HasMin(rest);
      var n :| IsMin(rest, n);
      MinOfMore(rest, n, x);
      assert s == rest + {x};
    }
  }

  lemma MinOfMore(rest: set<nat>, n: nat, x: nat)
    requires IsMin(rest, n)
    ensures IsMin(rest + {x}, if x < n then x else n)
  {
  }

  /** How many of these transfers a sender sent. */
  function Count(p: Params, txs: seq<Transaction>, a: Address): nat
    requires Ledger.AllTransfers(txs)
  {
    if txs == [] then 0
    else Count(p, txs[..|txs| - 1], a) + if Sender(p, txs[|txs| - 1]) == a then 1 else 0
  }

  /** A waiting transfer whose sender's earlier ones have all been taken, and it has not. */
  ghost predicate Ready(p: Params, bySender: SenderIndex, taken: seq<Transaction>, t: Transaction)
    requires Ledger.AllTransfers(taken)
  {
    && t.Transfer? && Sender(p, t) in bySender
    && var pending := bySender[Sender(p, t)];
      && pending != map[]
      && t.nonce == MinNonce(pending) + Count(p, taken, Sender(p, t))
      && t.nonce in pending && pending[t.nonce].tx == t
  }

  predicate FitsAfter(taken: seq<Transaction>, t: Transaction, maxBytes: int) {
    SumSizes(taken) + TxSize(t) <= maxBytes
  }

  /** The first in heap order among the ready transfers that fit. */
  ghost predicate BestFit(p: Params, bySender: SenderIndex, taken: seq<Transaction>, t: Transaction, maxBytes: int)
    requires Ledger.AllTransfers(taken)
  {
    && Ready(p, bySender, taken, t) && FitsAfter(taken, t, maxBytes)
    && forall x :: Ready(p, bySender, taken, x) && FitsAfter(taken, x, maxBytes) ==> HeadLe(HeadOf(p, t), HeadOf(p, x))
  }

  /** Each transfer was the best fit after those before it. */
  ghost predicate Greedy(p: Params, bySender: SenderIndex, txs: seq<Transaction>, maxBytes: int)
    requires Ledger.AllTransfers(txs)
    decreases |txs|
  {
    txs != [] ==>
      && Greedy(p, bySender, txs[..|txs| - 1], maxBytes)
      && BestFit(p, bySender, txs[..|txs| - 1], txs[|txs| - 1], maxBytes)
  }

  /** The greedy choice, until nothing more fits. */
  ghost predicate GreedyChoice(p: Params, bySender: SenderIndex, txs: seq<Transaction>, maxBytes: int) {
    && Ledger.AllTransfers(txs) && Greedy(p, bySender, txs, maxBytes)
    && forall x :: Ready(p, bySender, txs, x) ==> !FitsAfter(txs, x, maxBytes)
  }

  /** There is only one greedy choice. */
  lemma {:induction false} OneGreedyChoice(p: Params, bySender: SenderIndex, a: seq<Transaction>, b: seq<Transaction>,
                                           maxBytes: int)
    requires GreedyChoice(p, bySender, a, maxBytes) && GreedyChoice(p, bySender, b, maxBytes)
    ensures a == b
  {
    hide BestFit, Ready, Greedy;
    CommonStart(p, bySender, a, b, if |a| <= |b| then |a| else |b|, maxBytes);
    if |a| < |b| { MoreFits(p, bySender, a, b, maxBytes); }
    if |b| < |a| { MoreFits(p, bySender, b, a, maxBytes); }
  }

  lemma MoreFits(p: Params, bySender: SenderIndex, a: seq<Transaction>, b: seq<Transaction>, maxBytes: int)
    requires Ledger.AllTransfers(a) && Ledger.AllTransfers(b) && Greedy(p, bySender, b, maxBytes)
    requires |a| < |b| && a == b[..|a|]
    ensures !GreedyChoice(p, bySender, a, maxBytes)
  {
    GreedyPrefix(p, bySender, b, |a|, maxBytes);
  }

  lemma BestFitIsUnique(p: Params, bySender: SenderIndex, taken: seq<Transaction>, a: Transaction, b: Transaction,
                        maxBytes: int)
    requires Ledger.AllTransfers(taken)
    requires BestFit(p, bySender, taken, a, maxBytes) && BestFit(p, bySender, taken, b, maxBytes)
    ensures a == b
  {
    assert HeadLe(HeadOf(p, a), HeadOf(p, b)) && HeadLe(HeadOf(p, b), HeadOf(p, a));
  }

  lemma {:induction false} GreedyPrefix(p: Params, bySender: SenderIndex, txs: seq<Transaction>, k: nat, maxBytes: int)
    requires Ledger.AllTransfers(txs) && Greedy(p, bySender, txs, maxBytes)
    ensures k <= |txs| ==> Greedy(p, bySender, txs[..k], maxBytes)
    ensures k < |txs| ==> BestFit(p, bySender, txs[..k], txs[k], maxBytes)
    decreases |txs|
  {
    if k < |txs| {
      var n := |txs| - 1;
      GreedyPrefix(p, bySender, txs[..n], k, maxBytes);
      assert txs[..n][..k] == txs[..k];
    } else if k == |txs| {
      assert txs[..k] == txs;
    }
  }

  lemma {:induction false} CommonStart(p: Params, bySender: SenderIndex, a: seq<Transaction>, b: seq<Transaction>,
                                       k: nat, maxBytes: int)
    requires Ledger.AllTransfers(a) && Greedy(p, bySender, a, maxBytes)
    requires Ledger.AllTransfers(b) && Greedy(p, bySender, b, maxBytes)
    requires k <= |a| && k <= |b|
    ensures a[..k] == b[..k]
  {
    hide BestFit, Ready, Greedy;
    if k > 0 {
      CommonStart(p, bySender, a, b, k - 1, maxBytes);
      GreedyPrefix(p, bySender, a, k - 1, maxBytes);
      GreedyPrefix(p, bySender, b, k - 1, maxBytes);
      BestFitIsUnique(p, bySender, a[..k - 1], a[k - 1], b[k - 1], maxBytes);
      assert a[..k] == a[..k - 1] + [a[k - 1]] && b[..k] == b[..k - 1] + [b[k - 1]];
    }
  }

  // --- what a greedy choice is made of ----------------------------------------------------------------------

  lemma CountMore(p: Params, txs: seq<Transaction>, t: Transaction, a: Address)
    requires Ledger.AllTransfers(txs) && t.Transfer?
    ensures Ledger.AllTransfers(txs + [t])
    ensures Count(p, txs + [t], a) == Count(p, txs, a) + if Sender(p, t) == a then 1 else 0
    ensures SumSizes(txs + [t]) == SumSizes(txs) + TxSize(t)
  {
    assert (txs + [t])[..|txs|] == txs;
  }

  /** Each sender's transfers are taken in nonce order from its first, none twice. */
  lemma {:induction false} GreedyNonces(p: Params, bySender: SenderIndex, txs: seq<Transaction>, maxBytes: int)
    requires Ledger.AllTransfers(txs) && Greedy(p, bySender, txs, maxBytes)
    ensures forall t :: t in txs ==>
      var a := Sender(p, t);
      a in bySender && bySender[a] != map[] && t.nonce in bySender[a] && bySender[a][t.nonce].tx == t
    ensures forall t :: t in txs && Sender(p, t) in bySender && bySender[Sender(p, t)] != map[] ==>
      MinNonce(bySender[Sender(p, t)]) <= t.nonce < MinNonce(bySender[Sender(p, t)]) + Count(p, txs, Sender(p, t))
    ensures Ledger.NoRepeats(txs)
    ensures txs == [] || SumSizes(txs) <= maxBytes
    decreases |txs|
  {
    hide FeeRate, TxSize;
    if txs != [] {
      var n := |txs| - 1;
      GreedyNonces(p, bySender, txs[..n], maxBytes);
      CountMore(p, txs[..n], txs[n], Sender(p, txs[n]));
      forall a
        ensures Count(p, txs, a) >= Count(p, txs[..n], a)
      {
      }
      assert txs == txs[..n] + [txs[n]];
      forall i | 0 <= i < n
        ensures txs[i] != txs[n]
      {
        assert txs[..n][i] in txs[..n];
      }
    }
  }

  // --- told by fees and sizes ------------------------------------------------------------------------------

  /** The waiting transfers of a sender, each under its nonce, follow one another without a gap. */
  ghost predicate FollowOn(p: Params, a: Address, pending: Pending) {
    && (forall n :: n in pending ==>
         pending[n].tx.Transfer? && Sender(p, pending[n].tx) == a && pending[n].tx.nonce == n)
    && (forall m, k, n :: m in pending && k in pending && m <= n <= k ==> n in pending)
  }

  /** Waiting, not among these, and all of its sender's earlier ones are. */
  ghost predicate ComesNext(p: Params, bySender: SenderIndex, taken: seq<Transaction>, x: Transaction) {
    && x.Transfer? && x !in taken && Sender(p, x) in bySender
    && var pending := bySender[Sender(p, x)];
      && x.nonce in pending && pending[x.nonce].tx == x
      && forall n :: n in pending && n < x.nonce ==> pending[n].tx in taken
  }

  /** The first so many of a sender's transfers are those taken. */
  lemma {:induction false} FirstAreTaken(p: Params, bySender: SenderIndex, txs: seq<Transaction>, maxBytes: int,
                                         a: Address, k: nat)
    requires Ledger.AllTransfers(txs) && Greedy(p, bySender, txs, maxBytes) && k < Count(p, txs, a)
    ensures a in bySender && bySender[a] != map[]
    ensures MinNonce(bySender[a]) + k in bySender[a] && bySender[a][MinNonce(bySender[a]) + k].tx in txs
    decreases |txs|
  {
    hide FeeRate, TxSize, HeadLe;
    var n := |txs| - 1;
    assert txs == txs[..n] + [txs[n]];
    if k < Count(p, txs[..n], a) { FirstAreTaken(p, bySender, txs[..n], maxBytes, a, k); }
  }

  lemma NextIsReady(p: Params, bySender: SenderIndex, txs: seq<Transaction>, maxBytes: int, x: Transaction)
    requires Ledger.AllTransfers(txs) && Greedy(p, bySender, txs, maxBytes) && ComesNext(p, bySender, txs, x)
    requires FollowOn(p, Sender(p, x), bySender[Sender(p, x)])
    ensures Ready(p, bySender, txs, x)
  {
    hide Greedy, TxSize;
    var a := Sender(p, x);
    var pending := bySender[a];
    var min, count := MinNonce(pending), Count(p, txs, a);
    GreedyNonces(p, bySender, txs, maxBytes);
    forall n: nat | min <= n < min + count
      ensures n in pending && pending[n].tx in txs
    {
      FirstAreTaken(p, bySender, txs, maxBytes, a, n - min);
    }
    NextIsNotTaken(p, bySender, txs, maxBytes, a);
    assert min + count in pending ==> pending[min + count].tx !in txs;
  }

  /** No taken transfer of a sender has the nonce after those taken. */
  lemma NextIsNotTaken(p: Params, bySender: SenderIndex, txs: seq<Transaction>, maxBytes: int, a: Address)
    requires Ledger.AllTransfers(txs) && Greedy(p, bySender, txs, maxBytes) && a in bySender && bySender[a] != map[]
    ensures forall t :: t in txs && Sender(p, t) == a ==> t.nonce < MinNonce(bySender[a]) + Count(p, txs, a)
  {
    hide Greedy, TxSize;
    GreedyNonces(p, bySender, txs, maxBytes);
  }

  /** In a valid mempool they always do. */
  lemma CoveredFollowOn(p: Params, m: Entries, bySender: SenderIndex, state: Accounts, limit: nat, a: Address)
    requires Indexed(p, m, bySender) && AllCovered(bySender, state, limit) && a in bySender
    ensures FollowOn(p, a, bySender[a])
  {
    hide Spent;
    assert Covered(bySender[a], Ledger.Get(state, a));
    forall n | n in bySender[a]
      ensures bySender[a][n].tx.Transfer? && Sender(p, bySender[a][n].tx) == a && bySender[a][n].tx.nonce == n
    {
      assert Filed(p, m, bySender[a][n], a, n);
    }
  }

  /** No transfer that could have come next and still fits pays more per byte than the one taken; of two that pay the
      same, the smaller sender's comes first. */
  lemma BestPaying(p: Params, bySender: SenderIndex, txs: seq<Transaction>, maxBytes: int, i: nat, x: Transaction)
    requires GreedyChoice(p, bySender, txs, maxBytes) && i < |txs|
    requires ComesNext(p, bySender, txs[..i], x) && FollowOn(p, Sender(p, x), bySender[Sender(p, x)])
    requires SumSizes(txs[..i]) + TxSize(x) <= maxBytes
    ensures txs[i].fee * TxSize(x) >= x.fee * TxSize(txs[i])
    ensures txs[i].fee * TxSize(x) == x.fee * TxSize(txs[i]) ==> Sender(p, txs[i]) <= Sender(p, x)
  {
    hide Greedy, TxSize, SumSizes, FeeRate;
    GreedyPrefix(p, bySender, txs, i, maxBytes);
    NextIsReady(p, bySender, txs[..i], maxBytes, x);
    assert HeadLe(HeadOf(p, txs[i]), HeadOf(p, x));
    RatesCompare(txs[i], x);
  }

  /** And nothing that could come next after all of them still fits. */
  lemma NothingMoreFits(p: Params, bySender: SenderIndex, txs: seq<Transaction>, maxBytes: int, x: Transaction)
    requires GreedyChoice(p, bySender, txs, maxBytes)
    requires ComesNext(p, bySender, txs, x) && FollowOn(p, Sender(p, x), bySender[Sender(p, x)])
    ensures SumSizes(txs) + TxSize(x) > maxBytes
  {
    hide Greedy, TxSize, SumSizes;
    NextIsReady(p, bySender, txs, maxBytes, x);
  }

  /** Each transfer taken could come next. */
  lemma TakenCameNext(p: Params, bySender: SenderIndex, txs: seq<Transaction>, maxBytes: int, i: nat)
    requires GreedyChoice(p, bySender, txs, maxBytes) && i < |txs|
    ensures ComesNext(p, bySender, txs[..i], txs[i])
    ensures SumSizes(txs[..i]) + TxSize(txs[i]) <= maxBytes
  {
    hide Greedy, TxSize, SumSizes;
    GreedyPrefix(p, bySender, txs, i, maxBytes);
    GreedyNonces(p, bySender, txs[..i], maxBytes);
    var t, a := txs[i], Sender(p, txs[i]);
    var pending := bySender[a];
    forall n | n in pending && n < t.nonce
      ensures pending[n].tx in txs[..i]
    {
      FirstAreTaken(p, bySender, txs[..i], maxBytes, a, n - MinNonce(pending));
    }
  }

  // --- the heap of next transfers -----------------------------------------------------------------------------

  /** This head names a ready transfer. */
  ghost predicate Names(p: Params, bySender: SenderIndex, taken: seq<Transaction>, h: Head)
    requires Ledger.AllTransfers(taken)
  {
    && h.sender in bySender && h.nonce in bySender[h.sender]
    && Ready(p, bySender, taken, bySender[h.sender][h.nonce].tx)
    && h == HeadOf(p, bySender[h.sender][h.nonce].tx)
  }

  /** The heap holds the heads of ready transfers, and of all that still fit. */
  ghost predicate HeapFor(p: Params, bySender: SenderIndex, taken: seq<Transaction>, heap: set<Head>, maxBytes: int)
    requires Ledger.AllTransfers(taken)
  {
    && (forall h :: h in heap ==> Names(p, bySender, taken, h))
    && (forall x :: Ready(p, bySender, taken, x) && FitsAfter(taken, x, maxBytes) ==> HeadOf(p, x) in heap)
  }

  lemma FirstIsReady(p: Params, bySender: SenderIndex, a: Address)
    requires a in bySender && bySender[a] != map[]
    requires forall n :: n in bySender[a] ==>
      var t := bySender[a][n].tx;
      t.Transfer? && Sender(p, t) == a && t.nonce == n
    ensures var t := bySender[a][MinNonce(bySender[a])].tx;
      && t.Transfer? && Names(p, bySender, [], HeadOf(p, t))
      && forall x :: Ready(p, bySender, [], x) && Sender(p, x) == a ==> x == t
  {
  }

  /** The heads of first transfers are in the heap, except for senders yet to be visited. */
  ghost predicate AllHeld(p: Params, bySender: SenderIndex, heap: set<Head>, left: set<Address>) {
    forall x :: Ready(p, bySender, [], x) ==> Sender(p, x) in left || HeadOf(p, x) in heap
  }

  lemma NoneHeldYet(p: Params, bySender: SenderIndex)
    ensures AllHeld(p, bySender, {}, bySender.Keys)
  {
  }

  lemma FirstHeld(p: Params, bySender: SenderIndex, heap: set<Head>, left: set<Address>, a: Address)
    requires AllHeld(p, bySender, heap, left) && a in bySender && bySender[a] != map[]
    requires bySender[a][MinNonce(bySender[a])].tx.Transfer?
    ensures AllHeld(p, bySender, heap + {HeadOf(p, bySender[a][MinNonce(bySender[a])].tx)}, left - {a})
  {
  }

  lemma AllHeldMeans(p: Params, bySender: SenderIndex, heap: set<Head>, maxBytes: int)
    requires AllHeld(p, bySender, heap, {}) && forall h :: h in heap ==> Names(p, bySender, [], h)
    ensures HeapFor(p, bySender, [], heap, maxBytes)
  {
  }

  lemma NothingChosen(p: Params, bySender: SenderIndex, maxBytes: int)
    ensures Greedy(p, bySender, [], maxBytes)
  {
  }

  lemma EmptyHeap(p: Params, bySender: SenderIndex, taken: seq<Transaction>, maxBytes: int)
    requires Ledger.AllTransfers(taken) && HeapFor(p, bySender, taken, {}, maxBytes)
    ensures forall x :: Ready(p, bySender, taken, x) ==> !FitsAfter(taken, x, maxBytes)
  {
  }

  /** A head that does not fit is dropped for good. */
  lemma DropHead(p: Params, bySender: SenderIndex, taken: seq<Transaction>, heap: set<Head>, h: Head, maxBytes: int)
    requires Ledger.AllTransfers(taken) && HeapFor(p, bySender, taken, heap, maxBytes)
    requires h in heap && Names(p, bySender, taken, h)
    requires !FitsAfter(taken, bySender[h.sender][h.nonce].tx, maxBytes)
    ensures HeapFor(p, bySender, taken, heap - {h}, maxBytes)
  {
    hide FeeRate, TxSize, Count;
  }

  lemma BestHeadFits(p: Params, bySender: SenderIndex, taken: seq<Transaction>, heap: set<Head>, h: Head, maxBytes: int)
    requires Ledger.AllTransfers(taken) && HeapFor(p, bySender, taken, heap, maxBytes) && IsBest(heap, h)
    ensures Names(p, bySender, taken, h)
    ensures FitsAfter(taken, bySender[h.sender][h.nonce].tx, maxBytes) ==>
      BestFit(p, bySender, taken, bySender[h.sender][h.nonce].tx, maxBytes)
  {
    hide FeeRate, TxSize, Count;
  }

  /** The heads after taking a transfer: its sender's next one, if any, in its place. */
  lemma TakeHead(p: Params, bySender: SenderIndex, taken: seq<Transaction>, heap: set<Head>, h: Head, maxBytes: int)
    requires Ledger.AllTransfers(taken) && HeapFor(p, bySender, taken, heap, maxBytes)
    requires h in heap && Names(p, bySender, taken, h)
    requires forall n :: n in bySender[h.sender] ==>
      var t := bySender[h.sender][n].tx;
      t.Transfer? && Sender(p, t) == h.sender && t.nonce == n
    ensures var t := bySender[h.sender][h.nonce].tx;
      var rest := heap - {h};
      && Ledger.AllTransfers(taken + [t])
      && (h.nonce + 1 !in bySender[h.sender] ==> HeapFor(p, bySender, taken + [t], rest, maxBytes))
      && (h.nonce + 1 in bySender[h.sender] ==>
          HeapFor(p, bySender, taken + [t], rest + {HeadOf(p, bySender[h.sender][h.nonce + 1].tx)}, maxBytes))
  {
    hide FeeRate, TxSize;
    var t := bySender[h.sender][h.nonce].tx;
    var more := taken + [t];
    forall a
      ensures Count(p, more, a) == Count(p, taken, a) + if a == h.sender then 1 else 0
    {
      CountMore(p, taken, t, a);
    }
    CountMore(p, taken, t, h.sender);
    forall x | Ready(p, bySender, more, x)
      ensures Sender(p, x) != h.sender ==> Ready(p, bySender, taken, x)
      ensures Sender(p, x) == h.sender ==> x.nonce == h.nonce + 1 && x == bySender[h.sender][h.nonce + 1].tx
      ensures FitsAfter(more, x, maxBytes) ==> FitsAfter(taken, x, maxBytes)
    {
    }
  }

  /** One turn of the selection loop. */
  lemma Popped(p: Params, m: Entries, bySender: SenderIndex, taken: seq<Transaction>, heap: set<Head>, h: Head,
               maxBytes: int)
    requires Indexed(p, m, bySender) && IsBest(heap, h)
    requires Ledger.AllTransfers(taken) && Greedy(p, bySender, taken, maxBytes)
    requires HeapFor(p, bySender, taken, heap, maxBytes)
    ensures h in heap && h.sender in bySender && h.nonce in bySender[h.sender]
    ensures h.nonce + 1 in bySender[h.sender] ==> bySender[h.sender][h.nonce + 1].tx.Transfer?
    ensures var t, rest := bySender[h.sender][h.nonce].tx, heap - {h};
      && t in m && m[t] == bySender[h.sender][h.nonce]
      && (!FitsAfter(taken, t, maxBytes) ==> HeapFor(p, bySender, taken, rest, maxBytes))
      && (FitsAfter(taken, t, maxBytes) ==>
          && t !in taken
          && Ledger.AllTransfers(taken + [t]) && Greedy(p, bySender, taken + [t], maxBytes)
          && SumSizes(taken + [t]) == SumSizes(taken) + TxSize(t)
          && (h.nonce + 1 !in bySender[h.sender] ==> HeapFor(p, bySender, taken + [t], rest, maxBytes))
          && (h.nonce + 1 in bySender[h.sender] ==>
              HeapFor(p, bySender, taken + [t], rest + {HeadOf(p, bySender[h.sender][h.nonce + 1].tx)}, maxBytes)))
  {
    hide Indexed, HeapFor, BestFit, FeeRate, TxSize, IsBest, FitsAfter;
    BestHeadFits(p, bySender, taken, heap, h, maxBytes);
    PendingOf(p, m, bySender, h.sender);
    IsBestMeans(heap, h);
    var t := bySender[h.sender][h.nonce].tx;
    if FitsAfter(taken, t, maxBytes) {
      TakeHead(p, bySender, taken, heap, h, maxBytes);
      CountMore(p, taken, t, h.sender);
      GreedyNonces(p, bySender, taken, maxBytes);
      assert (taken + [t])[..|taken|] == taken;
    } else {
      DropHead(p, bySender, taken, heap, h, maxBytes);
    }
  }

  lemma OneMoreChosen(all: set<Transaction>, taken: seq<Transaction>, t: Transaction)
    requires t in all && t !in taken
    ensures all - SetOf(taken + [t]) < all - SetOf(taken)
  {
    assert t in all - SetOf(taken) && t in taken + [t];
  }

  lemma IsBestMeans(heap: set<Head>, h: Head)
    requires IsBest(heap, h)
    ensures h in heap
  {
  }

  lemma PendingOf(p: Params, m: Entries, bySender: SenderIndex, a: Address)
    requires Indexed(p, m, bySender) && a in bySender
    ensures forall n :: n in bySender[a] ==>
      var e := bySender[a][n];
      e.tx.Transfer? && Sender(p, e.tx) == a && e.tx.nonce == n && e.tx in m && m[e.tx] == e
  {
    forall n | n in bySender[a]
      ensures var e := bySender[a][n];
        e.tx.Transfer? && Sender(p, e.tx) == a && e.tx.nonce == n && e.tx in m && m[e.tx] == e
    {
      PendingIsEntry(p, m, bySender, a, n);
    }
  }
}
