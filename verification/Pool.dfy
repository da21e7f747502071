/**
 The mempool's contents as values: its entries, indexes and eviction keys, what it means for the
 waiting transfers to be valid on top of the confirmed accounts, and the obvious way to trim.
 */
module Pool {
  import opened Types
  import Ledger

  /** A transaction stands for its own id. */
  datatype Entry = Entry(tx: Transaction, size: nat, added: real)

  type Entries = map<Transaction, Entry>
  type Pending = map<nat, Entry>             // one sender's waiting transfers, by nonce
  type SenderIndex = map<Address, Pending>
  type ReceiverIndex = map<Address, Entries>

  /** The node's own limits. */
  datatype Policy = Policy(minFeePerByte: nat, maxBytes: nat, maxPerSender: nat, expiry: nat)

  function FeeRate(tx: Transaction): real {
    if tx.Transfer? then tx.fee as real / TxSize(tx) as real else 0.0
  }

  lemma RateTimesSize(fee: real, size: real)
    requires size > 0.0
    ensures (fee / size) * size == fee
  {
  }

  lemma ScaleUp(a: real, b: real, k: real)
    requires k > 0.0
    ensures a <= b <==> a * k <= b * k
    ensures a < b <==> a * k < b * k
  {
  }

  /** Which of two transfers pays more per byte, in whole numbers. */
  lemma RatesCompare(a: Transaction, b: Transaction)
    requires a.Transfer? && b.Transfer?
    ensures FeeRate(a) <= FeeRate(b) <==> a.fee * TxSize(b) <= b.fee * TxSize(a)
    ensures FeeRate(a) < FeeRate(b) <==> a.fee * TxSize(b) < b.fee * TxSize(a)
  {
    hide TxSize;
    assert TxSize(a) > 0 && TxSize(b) > 0 by { SizesArePositive(a); SizesArePositive(b); }
    var x, y := TxSize(a) as real, TxSize(b) as real;
    var ra, rb := FeeRate(a), FeeRate(b);
    RateTimesSize(a.fee as real, x);
    RateTimesSize(b.fee as real, y);
    ScaleUp(ra, rb, x);
    ScaleUp(ra * x, rb * x, y);
    assert ra * x * y == a.fee as real * y && rb * x * y == b.fee as real * x;
    assert (a.fee * TxSize(b)) as real == a.fee as real * y;
    assert (b.fee * TxSize(a)) as real == b.fee as real * x;
  }

  lemma SizesArePositive(t: Transaction)
    ensures TxSize(t) > 0
  {
  }

  // --- eviction keys: (fee rate, -added, txid), compared in this order --------------------------------

  datatype Key = Key(rate: real, negAdded: real, tx: Transaction)

  function KeyOf(e: Entry): Key { Key(FeeRate(e.tx), -e.added, e.tx) }

  /** `rank` is the txid read as a number. */
  predicate KeyLe(rank: Transaction -> nat, a: Key, b: Key) {
    a.rate < b.rate || (a.rate == b.rate &&
      (a.negAdded < b.negAdded || (a.negAdded == b.negAdded && rank(a.tx) <= rank(b.tx))))
  }

  predicate IsLeast(rank: Transaction -> nat, heap: multiset<Key>, k: Key) {
    k in heap && forall x :: x in heap ==> KeyLe(rank, k, x)
  }

  lemma {:induction false} HasLeast(rank: Transaction -> nat, heap: multiset<Key>)
    requires heap != multiset{}
    ensures exists k :: IsLeast(rank, heap, k)
    decreases |heap|
  {
    var x :| x in heap;
    var rest := heap - multiset{x};
    assert heap == rest + multiset{x};
    if rest == multiset{} {
      assert IsLeast(rank, heap, x);
    } else {
      HasLeast(rank, rest);
      var k :| IsLeast(rank, rest, k);
      LeastOfAll(rank, heap, rest, x, k);
    }
  }

  lemma LeastOfAll(rank: Transaction -> nat, heap: multiset<Key>, rest: multiset<Key>, x: Key, k: Key)
    requires IsLeast(rank, rest, k) && heap == rest + multiset{x}
    ensures IsLeast(rank, heap, if KeyLe(rank, x, k) then x else k)
  {
    hide KeyLe;
    KeyLeTotal(rank, x, k);
    KeyLeTotal(rank, x, x);
    forall y | y in heap
      ensures KeyLe(rank, if KeyLe(rank, x, k) then x else k, y)
    {
      assert y == x || y in rest;
      KeyLeTransitive(rank, x, k, y);
    }
  }

  lemma KeyLeTotal(rank: Transaction -> nat, a: Key, b: Key)
    ensures KeyLe(rank, a, b) || KeyLe(rank, b, a)
  {
  }

  lemma KeyLeTransitive(rank: Transaction -> nat, a: Key, b: Key, c: Key)
    ensures KeyLe(rank, a, b) && KeyLe(rank, b, c) ==> KeyLe(rank, a, c)
  {
  }

  // --- sums over maps of entries -----------------------------------------------------------------------

  ghost function Sum<K(!new)>(m: map<K, Entry>, w: Entry -> nat): nat
    decreases |m|
  {
    if m == map[] then 0
    else
      var k :| k in m;
      w(m[k]) + Sum(m - {k}, w)
  }

  lemma {:induction false} SumWithout<K(!new)>(m: map<K, Entry>, w: Entry -> nat, k: K)
    requires k in m
    ensures Sum(m, w) == w(m[k]) + Sum(m - {k}, w)
    decreases |m|
  {
    var x :| x in m && Sum(m, w) == w(m[x]) + Sum(m - {x}, w);
    if x != k {
      SumWithout(m - {x}, w, k);
      SumWithout(m - {k}, w, x);
      assert m - {x} - {k} == m - {k} - {x};
    }
  }

  lemma SumWith<K(!new)>(m: map<K, Entry>, w: Entry -> nat, k: K, e: Entry)
    requires k !in m
    ensures Sum(m[k := e], w) == Sum(m, w) + w(e)
  {
    SumWithout(m[k := e], w, k);
    assert m[k := e] - {k} == m;
  }

  function Size(e: Entry): nat { e.size }

  function Spends(e: Entry): nat {
    if e.tx.Transfer? then TotalSpent(e.tx) else 0
  }

  ghost function TotalBytes(m: Entries): nat { Sum(m, Size) }

  ghost function Spent(pending: Pending): nat { Sum(pending, Spends) }

  // --- one sender's waiting transfers ------------------------------------------------------------------

  function MaxNonce(pending: Pending): (n: nat)
    requires pending != map[]
    ensures n in pending && forall m :: m in pending ==> m <= n
  {
    HasMax(pending.Keys);
    var n :| n in pending.Keys && forall m :: m in pending.Keys ==> m <= n;
    n
  }

  lemma {:induction false} HasMax(s: set<nat>)
    requires s != {}
    ensures exists n :: n in s && forall m :: m in s ==> m <= n
    decreases |s|
  {
    var x :| x in s;
    if s != {x} {
      assert |s - {x}| < |s|;
      HasMax(s - {x});
      var n :| n in s - {x} && forall m :: m in s - {x} ==> m <= n;
      var best := if x > n then x else n;
      assert best in s;
      assert forall m :: m in s ==> m == x || m in s - {x};
    }
  }

  /** Nonces run without gap from this one. */
  ghost predicate Run(pending: Pending, first: nat) {
    forall n: nat :: n in pending <==> first <= n < first + |pending|
  }

  /** A sender's waiting transfers follow on its confirmed nonce, and its confirmed balance covers them. */
  ghost predicate Covered(pending: Pending, account: Account) {
    Run(pending, account.nonce) && Spent(pending) <= account.balance
  }

  lemma DropLast(pending: Pending, account: Account, n: nat)
    requires Covered(pending, account) && n in pending && forall m :: m in pending ==> m <= n
    ensures Covered(pending - {n}, account)
  {
    SumWithout(pending, Spends, n);
    var rest := pending - {n};
    assert pending.Keys - {n} == rest.Keys;
    assert |rest| == |pending| - 1;
    assert account.nonce + |pending| - 1 in pending;
    assert n == account.nonce + |pending| - 1;
  }

  lemma AppendNext(pending: Pending, account: Account, n: nat, e: Entry)
    requires Run(pending, account.nonce) && n == account.nonce + |pending|
    requires Spent(pending) + Spends(e) <= account.balance
    ensures Covered(pending[n := e], account)
    ensures |pending[n := e]| == |pending| + 1
  {
    SumWith(pending, Spends, n, e);
    assert pending[n := e].Keys == pending.Keys + {n};
  }

  lemma ReplaceAt(pending: Pending, account: Account, n: nat, e: Entry)
    requires Run(pending, account.nonce) && n in pending
    requires Spent(pending - {n}) + Spends(e) <= account.balance
    ensures Covered(pending[n := e], account)
    ensures |pending[n := e]| == |pending|
  {
    SumWith(pending - {n}, Spends, n, e);
    assert (pending - {n})[n := e] == pending[n := e];
    assert pending[n := e].Keys == pending.Keys;
  }

  /** A run cut off at some nonce is still covered. */
  lemma {:induction false} CutAt(pending: Pending, account: Account, from: nat)
    requires Covered(pending, account)
    ensures Covered(map n | n in pending && n < from :: pending[n], account)
    ensures |map n | n in pending && n < from :: pending[n]| <= |pending|
    decreases |pending|
  {
    var cut := map n | n in pending && n < from :: pending[n];
    if forall n :: n in pending ==> n < from {
      assert cut == pending;
    } else {
      var n := MaxNonce(pending);
      DropLast(pending, account, n);
      var rest := pending - {n};
      assert rest.Keys == pending.Keys - {n};
      CutAt(rest, account, from);
      assert cut == map k | k in rest && k < from :: rest[k];
    }
  }

  // --- the indexes -------------------------------------------------------------------------------------

  function PendingIn(bySender: SenderIndex, a: Address): Pending {
    if a in bySender then bySender[a] else map[]
  }

  function WithPending(bySender: SenderIndex, a: Address, n: nat, e: Entry): SenderIndex {
    bySender[a := PendingIn(bySender, a)[n := e]]
  }

  function WithoutPending(bySender: SenderIndex, a: Address, n: nat): SenderIndex {
    var rest := PendingIn(bySender, a) - {n};
    if rest == map[] then bySender - {a} else bySender[a := rest]
  }

  /** The entry filed under this sender and nonce is a waiting transfer with that sender and nonce. */
  ghost predicate Filed(p: Params, m: Entries, e: Entry, a: Address, n: nat) {
    e.tx.Transfer? && Sender(p, e.tx) == a && e.tx.nonce == n && e.tx in m && m[e.tx] == e
  }

  /** This waiting transfer is filed under its sender and nonce. */
  ghost predicate Findable(p: Params, bySender: SenderIndex, t: Transaction, e: Entry) {
    && t.Transfer? && e.tx == t
    && Sender(p, t) in bySender
    && t.nonce in bySender[Sender(p, t)] && bySender[Sender(p, t)][t.nonce] == e
  }

  /** `bySender` groups exactly the entries by sender and nonce, one per pair. */
  ghost predicate Indexed(p: Params, m: Entries, bySender: SenderIndex) {
    && (forall a :: a in bySender ==> bySender[a] != map[])
    && (forall a, n :: a in bySender && n in bySender[a] ==> Filed(p, m, bySender[a][n], a, n))
    && (forall t :: t in m ==> Findable(p, bySender, t, m[t]))
  }

  lemma IndexedWith(p: Params, m: Entries, bySender: SenderIndex, e: Entry)
    requires Indexed(p, m, bySender) && e.tx.Transfer? && e.tx !in m
    requires e.tx.nonce !in PendingIn(bySender, Sender(p, e.tx))
    ensures Indexed(p, m[e.tx := e], WithPending(bySender, Sender(p, e.tx), e.tx.nonce, e))
  {
    var a0 := Sender(p, e.tx);
    var next := WithPending(bySender, a0, e.tx.nonce, e);
    var more := m[e.tx := e];
    forall a | a in next
      ensures next[a] != map[]
    {
      if a == a0 { assert e.tx.nonce in next[a]; }
    }
    forall a, n | a in next && n in next[a]
      ensures Filed(p, more, next[a][n], a, n)
    {
      if a != a0 || n != e.tx.nonce {
        assert a in bySender && n in bySender[a];
        assert Filed(p, m, bySender[a][n], a, n);
      }
    }
    forall t | t in more
      ensures Findable(p, next, t, more[t])
    {
      if t != e.tx { assert Findable(p, bySender, t, m[t]); }
    }
  }

  lemma IndexedWithout(p: Params, m: Entries, bySender: SenderIndex, t: Transaction)
    requires Indexed(p, m, bySender) && t in m && t.Transfer?
    ensures Indexed(p, m - {t}, WithoutPending(bySender, Sender(p, t), t.nonce))
  {
    var a0 := Sender(p, t);
    var next := WithoutPending(bySender, a0, t.nonce);
    assert Findable(p, bySender, t, m[t]);
    forall a | a in next
      ensures next[a] != map[]
    {
      if a != a0 { assert a in bySender; }
    }
    FiledWithout(p, m, bySender, t);
    forall x | x in m - {t}
      ensures Findable(p, next, x, m[x])
    {
      FindableWithout(p, m, bySender, t, x);
    }
  }

  lemma FiledWithout(p: Params, m: Entries, bySender: SenderIndex, t: Transaction)
    requires Indexed(p, m, bySender) && t in m && t.Transfer?
    ensures var next := WithoutPending(bySender, Sender(p, t), t.nonce);
      forall a, n :: a in next && n in next[a] ==> Filed(p, m - {t}, next[a][n], a, n)
  {
    var next := WithoutPending(bySender, Sender(p, t), t.nonce);
    forall a, n | a in next && n in next[a]
      ensures Filed(p, m - {t}, next[a][n], a, n)
    {
      assert a in bySender && n in bySender[a];
      assert Filed(p, m, bySender[a][n], a, n);
    }
  }

  lemma FindableWithout(p: Params, m: Entries, bySender: SenderIndex, t: Transaction, x: Transaction)
    requires Indexed(p, m, bySender) && t in m && t.Transfer? && x in m && x != t
    ensures Findable(p, WithoutPending(bySender, Sender(p, t), t.nonce), x, m[x])
  {
    assert Findable(p, bySender, x, m[x]) && Findable(p, bySender, t, m[t]);
    if Sender(p, x) == Sender(p, t) {
      assert x.nonce != t.nonce;
      assert x.nonce in bySender[Sender(p, t)] - {t.nonce};
    }
  }

  lemma EntryIsFiled(p: Params, m: Entries, bySender: SenderIndex, t: Transaction)
    requires Indexed(p, m, bySender) && t in m
    ensures t.Transfer? && m[t].tx == t
    ensures Sender(p, t) in bySender && t.nonce in bySender[Sender(p, t)]
    ensures bySender[Sender(p, t)][t.nonce] == m[t]
  {
    assert Findable(p, bySender, t, m[t]);
  }

  ghost predicate Pays(t: Transaction, a: Address) {
    t.Transfer? && a in Ledger.OutputAddresses(t.outputs)
  }

  /** `byReceiver` lists exactly the entries that pay each address. */
  ghost predicate Received(m: Entries, byReceiver: ReceiverIndex) {
    && (forall a :: a in byReceiver ==> byReceiver[a] != map[])
    && (forall a, t :: a in byReceiver && t in byReceiver[a] ==> t in m && Pays(t, a) && byReceiver[a][t] == m[t])
    && (forall a, t :: t in m && Pays(t, a) ==> a in byReceiver && t in byReceiver[a])
  }

  lemma ReceiversKnown(m: Entries, byReceiver: ReceiverIndex, t: Transaction)
    requires Received(m, byReceiver) && t in m && t.Transfer?
    ensures forall a :: a in Ledger.OutputAddresses(t.outputs) ==> a in byReceiver
    ensures forall a :: a in byReceiver ==> byReceiver[a] != map[]
  {
    forall a | a in Ledger.OutputAddresses(t.outputs)
      ensures a in byReceiver
    {
      assert Pays(t, a);
    }
  }

  function IncomingIn(byReceiver: ReceiverIndex, a: Address): Entries {
    if a in byReceiver then byReceiver[a] else map[]
  }

  /** The receiver index with this entry filed under these addresses. */
  ghost predicate FiledUnder(was: ReceiverIndex, now: ReceiverIndex, e: Entry, addresses: set<Address>) {
    && (forall a :: a in addresses ==> a in now && now[a] == IncomingIn(was, a)[e.tx := e])
    && (forall a :: a !in addresses ==> (a in now <==> a in was) && (a in was ==> now[a] == was[a]))
  }

  /** The receiver index with this transaction taken out from under these addresses. */
  ghost predicate TakenFrom(was: ReceiverIndex, now: ReceiverIndex, t: Transaction, addresses: set<Address>) {
    && (forall a :: a in addresses ==> IncomingIn(now, a) == IncomingIn(was, a) - {t})
    && (forall a :: a in addresses && a in now ==> now[a] != map[])
    && (forall a :: a !in addresses ==> (a in now <==> a in was) && (a in was ==> now[a] == was[a]))
  }

  lemma ReceivedWith(m: Entries, was: ReceiverIndex, now: ReceiverIndex, e: Entry)
    requires Received(m, was) && e.tx.Transfer? && e.tx !in m
    requires FiledUnder(was, now, e, Ledger.OutputAddresses(e.tx.outputs))
    ensures Received(m[e.tx := e], now)
  {
    var to := Ledger.OutputAddresses(e.tx.outputs);
    forall a | a in now
      ensures now[a] != map[]
    {
      if a in to { assert e.tx in now[a]; }
    }
    forall a, t | a in now && t in now[a]
      ensures t in m[e.tx := e] && Pays(t, a) && now[a][t] == m[e.tx := e][t]
    {
      if a in to && t != e.tx {
        assert t in IncomingIn(was, a);
      }
    }
    forall a, t | t in m[e.tx := e] && Pays(t, a)
      ensures a in now && t in now[a]
    {
      if t != e.tx { assert a in was && t in was[a]; }
    }
  }

  lemma ReceivedWithout(m: Entries, was: ReceiverIndex, now: ReceiverIndex, t: Transaction)
    requires Received(m, was) && t in m && t.Transfer?
    requires TakenFrom(was, now, t, Ledger.OutputAddresses(t.outputs))
    ensures Received(m - {t}, now)
  {
    var to := Ledger.OutputAddresses(t.outputs);
    forall a, x | a in now && x in now[a]
      ensures x in m - {t} && Pays(x, a) && now[a][x] == (m - {t})[x]
    {
      if a in to {
        assert x in IncomingIn(now, a);
      }
    }
    forall a, x | x in m - {t} && Pays(x, a)
      ensures a in now && x in now[a]
    {
      assert a in was && x in was[a];
      if a in to { assert x in IncomingIn(now, a); }
    }
  }

  // --- the eviction heap -------------------------------------------------------------------------------

  function LastKey(pending: Pending): Key
    requires pending != map[]
  {
    KeyOf(pending[MaxNonce(pending)])
  }

  /** The last transfer of each of these senders has its key in the heap. */
  ghost predicate Tracked(bySender: SenderIndex, senders: set<Address>, heap: multiset<Key>) {
    forall a :: a in senders && a in bySender && bySender[a] != map[] ==> LastKey(bySender[a]) in heap
  }

  ghost predicate Genuine(heap: multiset<Key>) {
    forall k :: k in heap ==> k.tx.Transfer? && k.rate == FeeRate(k.tx)
  }

  /** No stale key of a waiting transfer sorts before its true key: it was not made later. */
  ghost predicate NoneNewer(m: Entries, heap: multiset<Key>) {
    forall k :: k in heap && k.tx in m ==> k.negAdded >= -m[k.tx].added
  }

  /** Nothing was added to the heap but true keys of these entries. */
  ghost predicate KeysFrom(was: multiset<Key>, m: Entries, now: multiset<Key>) {
    forall k :: k in now ==> k in was || (k.tx in m && k == KeyOf(m[k.tx]))
  }

  lemma NothingTracked(bySender: SenderIndex, m: Entries)
    ensures Tracked(bySender, bySender.Keys - bySender.Keys, multiset{})
    ensures Genuine(multiset{}) && KeysFrom(multiset{}, m, multiset{})
  {
  }

  lemma LastOf(p: Params, m: Entries, bySender: SenderIndex, a: Address)
    requires Indexed(p, m, bySender) && a in bySender
    ensures bySender[a] != map[]
    ensures Filed(p, m, bySender[a][MaxNonce(bySender[a])], a, MaxNonce(bySender[a]))
  {
  }

  /** With its last transfer pushed, one more sender is tracked. */
  lemma PushTracks(p: Params, m: Entries, bySender: SenderIndex, done: set<Address>, heap: multiset<Key>, a: Address)
    requires Tracked(bySender, done, heap) && Genuine(heap) && a in bySender && bySender[a] != map[]
    requires Filed(p, m, bySender[a][MaxNonce(bySender[a])], a, MaxNonce(bySender[a]))
    ensures var now := heap + multiset{LastKey(bySender[a])};
      Tracked(bySender, done + {a}, now) && Genuine(now) && KeysFrom(heap, m, now)
  {
    var last := LastKey(bySender[a]);
    var now := heap + multiset{last};
    assert forall k :: k in now <==> k in heap || k == last;
  }

  lemma PushingLastTracks(p: Params, m: Entries, bySender: SenderIndex, heap: multiset<Key>, e: Entry)
    requires Indexed(p, m, bySender) && e.tx in m && m[e.tx] == e && IsLast(p, m, e.tx)
    requires Tracked(bySender, bySender.Keys - {Sender(p, e.tx)}, heap) && Genuine(heap)
    ensures var now := heap + multiset{KeyOf(e)};
      Tracked(bySender, bySender.Keys, now) && Genuine(now) && KeysFrom(heap, m, now)
  {
    hide Tracked, Genuine, KeysFrom, Indexed;
    var a := Sender(p, e.tx);
    LastIsMaxNonce(p, m, bySender, e.tx);
    LastOf(p, m, bySender, a);
    PushTracks(p, m, bySender, bySender.Keys - {a}, heap, a);
    assert bySender.Keys - {a} + {a} == bySender.Keys;
  }

  /** What is left of a sender after a removal has its own last transfer. */
  lemma LastAfterRemoval(p: Params, m: Entries, bySender: SenderIndex, t: Transaction)
    requires Indexed(p, m, bySender) && t in m && t.Transfer?
    requires Sender(p, t) in WithoutPending(bySender, Sender(p, t), t.nonce)
    ensures var pending := WithoutPending(bySender, Sender(p, t), t.nonce)[Sender(p, t)];
      && pending != map[] && t.nonce !in pending
      && Filed(p, m - {t}, pending[MaxNonce(pending)], Sender(p, t), MaxNonce(pending))
      && IsLast(p, m - {t}, pending[MaxNonce(pending)].tx)
  {
    hide Indexed, IsLast, Findable;
    var a := Sender(p, t);
    var next := WithoutPending(bySender, a, t.nonce);
    IndexedWithout(p, m, bySender, t);
    LastOf(p, m - {t}, next, a);
    LastIsMaxNonce(p, m - {t}, next, next[a][MaxNonce(next[a])].tx);
  }

  /** After a removal, the heap still tracks everybody, unless the removed transfer was its sender's
      last: then that sender alone needs a push. */
  lemma TrackedWithout(bySender: SenderIndex, heap: multiset<Key>, a: Address, n: nat)
    requires Tracked(bySender, bySender.Keys - {a}, heap) && a in bySender && n in bySender[a]
    ensures var next := WithoutPending(bySender, a, n);
      && Tracked(next, next.Keys - {a}, heap)
      && (a !in next || next[a] == map[] ==> Tracked(next, next.Keys, heap))
      && (Tracked(bySender, bySender.Keys, heap) && a in next && next[a] != map[] && n < MaxNonce(next[a]) ==>
          Tracked(next, next.Keys, heap))
  {
    var next := WithoutPending(bySender, a, n);
    if a in next && next[a] != map[] && n < MaxNonce(next[a]) {
      assert forall k :: k in bySender[a] ==> k == n || k in next[a];
      assert MaxNonce(bySender[a]) == MaxNonce(next[a]);
      assert LastKey(next[a]) == LastKey(bySender[a]);
    }
  }

  lemma KeysFromSelf(heap: multiset<Key>, m: Entries)
    ensures KeysFrom(heap, m, heap)
  {
  }

  lemma KeysFromNothing(was: multiset<Key>, m: Entries, now: multiset<Key>)
    requires KeysFrom(multiset{}, m, now)
    ensures KeysFrom(was, m, now)
  {
  }

  lemma KeysFromTransitive(a: multiset<Key>, b: multiset<Key>, c: multiset<Key>, m: Entries, n: Entries)
    requires KeysFrom(a, m, b) && KeysFrom(b, n, c)
    requires Within(n, m)
    ensures KeysFrom(a, m, c)
  {
  }

  /** No key of this transaction was made after this time. */
  ghost predicate NoneAfter(heap: multiset<Key>, t: Transaction, added: real) {
    forall k :: k in heap && k.tx == t ==> k.negAdded >= -added
  }

  /** The clock has not gone back: every key and entry was made at or before `now`, and a stale key
      was made no later than the entry it names. */
  ghost predicate InOrder(m: Entries, heap: multiset<Key>, now: real) {
    && NoneNewer(m, heap)
    && (forall k :: k in heap ==> -k.negAdded <= now)
    && (forall t :: t in m ==> m[t].added <= now)
  }

  // --- what an insertion does ---------------------------------------------------------------------------

  /** The policy check a transfer fails, given its sender's waiting transfers and confirmed account. */
  ghost function Refusal(policy: Policy, pending: Pending, account: Account, tx: Transaction): Option<Error>
    requires tx.Transfer? && forall n :: n in pending ==> pending[n].tx.Transfer?
  {
    if tx.fee < policy.minFeePerByte * TxSize(tx) then Some(FeeTooLow)
    else if tx.nonce < account.nonce then Some(NonceTooLow)
    else if tx.nonce !in pending && tx.nonce != account.nonce + |pending| then Some(NonceGap)
    else if tx.nonce !in pending && |pending| >= policy.maxPerSender then Some(TooManyPending)
    else if tx.nonce in pending && (tx.fee <= pending[tx.nonce].tx.fee
                                    || FeeRate(tx) < FeeRate(pending[tx.nonce].tx) * 1.25)
    then Some(ReplacementFeeTooLow)
    else if TotalSpent(tx) + Spent(pending - {tx.nonce}) > account.balance then Some(InsufficientFunds)
    else None
  }

  /** The entries with this transfer in its nonce's place. */
  function Placed(m: Entries, pending: Pending, e: Entry): Entries
    requires e.tx.Transfer?
  {
    (if e.tx.nonce in pending then m - {pending[e.tx.nonce].tx} else m)[e.tx := e]
  }

  /** One insertion, as a relation between the entries before and after. */
  ghost predicate Inserted(p: Params, policy: Policy, rank: Transaction -> nat, account: Account, pending: Pending,
                           m: Entries, e: Entry, end: Entries)
    requires e.tx.Transfer? && forall n :: n in pending ==> pending[n].tx.Transfer?
  {
    if Refusal(policy, pending, account, e.tx).Some? then end == m
    else ScanTrims(p, rank, policy.maxBytes, Placed(m, pending, e), end)
  }

  // --- the obvious way to trim: scan for the cheapest last transfer ------------------------------------

  /** No waiting transfer of the same sender comes after this one. */
  ghost predicate IsLast(p: Params, m: Entries, t: Transaction) {
    && t in m && t.Transfer?
    && forall x :: x in m && x.Transfer? && Sender(p, x) == Sender(p, t) ==> x.nonce <= t.nonce
  }

  /** The least key among the senders' last transfers. */
  ghost predicate IsCheapest(p: Params, rank: Transaction -> nat, m: Entries, t: Transaction) {
    IsLast(p, m, t) && forall x :: IsLast(p, m, x) ==> KeyLe(rank, KeyOf(m[t]), KeyOf(m[x]))
  }

  /** Scanning everything each time: while over the limit, remove a cheapest last transfer. */
  ghost predicate ScanTrims(p: Params, rank: Transaction -> nat, limit: nat, m: Entries, end: Entries)
    decreases |m|
  {
    if TotalBytes(m) <= limit then end == m
    else exists t :: IsCheapest(p, rank, m, t) && ScanTrims(p, rank, limit, m - {t}, end)
  }

  /** What is evicted pays no more per byte than the last transfer of any other sender; of two that pay the same, it
      is the one that came later. */
  lemma EvictedPaysLeast(p: Params, rank: Transaction -> nat, m: Entries, t: Transaction, x: Transaction)
    requires IsCheapest(p, rank, m, t) && IsLast(p, m, x) && m[t].tx == t && m[x].tx == x
    ensures t.fee * TxSize(x) <= x.fee * TxSize(t)
    ensures t.fee * TxSize(x) == x.fee * TxSize(t) ==> m[t].added >= m[x].added
  {
    hide FeeRate, TxSize;
    assert KeyLe(rank, KeyOf(m[t]), KeyOf(m[x]));
    RatesCompare(t, x);
    RatesCompare(x, t);
  }

  /** When a transfer is accepted: it pays enough, comes with the next nonce or replaces one that waits, and is covered;
      to replace one it must pay more, and a quarter more per byte. */
  lemma AcceptedIf(policy: Policy, pending: Pending, account: Account, tx: Transaction)
    requires tx.Transfer? && forall n :: n in pending ==> pending[n].tx.Transfer?
    ensures Refusal(policy, pending, account, tx) == None <==>
      && tx.fee >= policy.minFeePerByte * TxSize(tx) && tx.nonce >= account.nonce
      && TotalSpent(tx) + Spent(pending - {tx.nonce}) <= account.balance
      && if tx.nonce in pending then
           var was := pending[tx.nonce].tx;
           tx.fee > was.fee && 4 * tx.fee * TxSize(was) >= 5 * was.fee * TxSize(tx)
         else tx.nonce == account.nonce + |pending| && |pending| < policy.maxPerSender
  {
    hide FeeRate, TxSize, TotalSpent, Spent;
    if tx.nonce in pending { QuarterMore(tx, pending[tx.nonce].tx); }
  }

  lemma QuarterMore(a: Transaction, b: Transaction)
    requires a.Transfer? && b.Transfer?
    ensures FeeRate(a) >= FeeRate(b) * 1.25 <==> 4 * a.fee * TxSize(b) >= 5 * b.fee * TxSize(a)
  {
    hide TxSize;
    SizesArePositive(a);
    SizesArePositive(b);
    var x, y := TxSize(a) as real, TxSize(b) as real;
    var ra, rb := FeeRate(a), FeeRate(b) * 1.25;
    RateTimesSize(a.fee as real, x);
    RateTimesSize(b.fee as real, y);
    ScaleUp(rb, ra, x);
    ScaleUp(rb * x, ra * x, y);
    assert ra * x * y == a.fee as real * y;
    assert rb * x * y == (FeeRate(b) * y) * x * 1.25 == b.fee as real * x * 1.25;
    assert (a.fee * TxSize(b)) as real == a.fee as real * y;
    assert (b.fee * TxSize(a)) as real == b.fee as real * x;
    assert 4 * a.fee * TxSize(b) == 4 * (a.fee * TxSize(b)) && 5 * b.fee * TxSize(a) == 5 * (b.fee * TxSize(a));
  }

  lemma LastIsMaxNonce(p: Params, m: Entries, bySender: SenderIndex, t: Transaction)
    requires Indexed(p, m, bySender) && t in m && t.Transfer?
    ensures Findable(p, bySender, t, m[t])
    ensures IsLast(p, m, t) <==> t.nonce == MaxNonce(bySender[Sender(p, t)])
  {
    assert Findable(p, bySender, t, m[t]);
    var pending := bySender[Sender(p, t)];
    var n := MaxNonce(pending);
    assert Filed(p, m, pending[n], Sender(p, t), n);
    forall x | x in m && x.Transfer? && Sender(p, x) == Sender(p, t)
      ensures x.nonce <= n
    {
      assert Findable(p, bySender, x, m[x]);
    }
  }

  /** What the least key of the heap shows, when its transfer is still its sender's last: no scan
      would have found a cheaper one. */
  lemma LeastIsCheapest(p: Params, rank: Transaction -> nat, m: Entries, bySender: SenderIndex,
                        heap: multiset<Key>, k: Key)
    requires Indexed(p, m, bySender) && Tracked(bySender, bySender.Keys, heap) && Genuine(heap) && NoneNewer(m, heap)
    requires IsLeast(rank, heap, k) && k.tx in m && IsLast(p, m, k.tx)
    ensures IsCheapest(p, rank, m, k.tx)
  {
    forall x | IsLast(p, m, x)
      ensures KeyLe(rank, KeyOf(m[k.tx]), KeyOf(m[x]))
    {
      LastIsMaxNonce(p, m, bySender, x);
      LastIsMaxNonce(p, m, bySender, k.tx);
      assert KeyOf(m[x]) in heap && KeyOf(m[k.tx]) in heap;
    }
  }

  // --- one removal, all indexes together ---------------------------------------------------------------

  lemma RemovalFacts(p: Params, m: Entries, bySender: SenderIndex, byReceiver: ReceiverIndex,
                     heap: multiset<Key>, t: Transaction)
    requires Indexed(p, m, bySender) && Received(m, byReceiver) && t in m && t.Transfer?
    requires Tracked(bySender, bySender.Keys - {Sender(p, t)}, heap)
    requires Tracked(bySender, bySender.Keys, heap) || IsLast(p, m, t)
    ensures t.Transfer? && m[t].tx == t && Sender(p, t) in bySender && t.nonce in bySender[Sender(p, t)]
    ensures bySender[Sender(p, t)][t.nonce] == m[t]
    ensures TotalBytes(m) == m[t].size + TotalBytes(m - {t})
    ensures forall a :: a in Ledger.OutputAddresses(t.outputs) ==> a in byReceiver
    ensures forall a :: a in byReceiver ==> byReceiver[a] != map[]
    ensures KeysFrom(heap, m - {t}, heap)
    ensures var a := Sender(p, t);
      var next := WithoutPending(bySender, a, t.nonce);
      && Indexed(p, m - {t}, next)
      && Tracked(next, next.Keys - {a}, heap)
      && (a in next ==> next[a] != map[])
      && (a in next && t.nonce > MaxNonce(next[a]) ==>
          && Filed(p, m - {t}, next[a][MaxNonce(next[a])], a, MaxNonce(next[a]))
          && IsLast(p, m - {t}, next[a][MaxNonce(next[a])].tx))
      && (a !in next || t.nonce <= MaxNonce(next[a]) ==> Tracked(next, next.Keys, heap))
  {
    hide Indexed, Received, Tracked, KeysFrom, IsLast, Findable, Filed;
    EntryIsFiled(p, m, bySender, t);
    var a := Sender(p, t);
    IndexedWithout(p, m, bySender, t);
    TrackedWithout(bySender, heap, a, t.nonce);
    SumWithout(m, Size, t);
    ReceiversKnown(m, byReceiver, t);
    KeysFromSelf(heap, m - {t});
    var next := WithoutPending(bySender, a, t.nonce);
    if a in next {
      LastAfterRemoval(p, m, bySender, t);
      if IsLast(p, m, t) {
        LastIsMaxNonce(p, m, bySender, t);
        assert MaxNonce(next[a]) in bySender[a];
      }
    }
  }

  // --- one insertion -------------------------------------------------------------------------------------

  lemma InsertionFacts(p: Params, m: Entries, bySender: SenderIndex, heap: multiset<Key>, e: Entry)
    requires Indexed(p, m, bySender) && Tracked(bySender, bySender.Keys, heap)
    requires e.tx.Transfer? && e.tx !in m && e.tx.nonce !in PendingIn(bySender, Sender(p, e.tx))
    ensures TotalBytes(m[e.tx := e]) == TotalBytes(m) + e.size
    ensures var a := Sender(p, e.tx);
      var next := WithPending(bySender, a, e.tx.nonce, e);
      && Indexed(p, m[e.tx := e], next)
      && next[a] != map[]
      && Tracked(next, next.Keys - {a}, heap)
      && (e.tx.nonce == MaxNonce(next[a]) ==> IsLast(p, m[e.tx := e], e.tx))
      && (e.tx.nonce != MaxNonce(next[a]) ==> Tracked(next, next.Keys, heap))
  {
    hide Indexed, IsLast, Findable, Filed;
    var a := Sender(p, e.tx);
    var next := WithPending(bySender, a, e.tx.nonce, e);
    IndexedWith(p, m, bySender, e);
    SumWith(m, Size, e.tx, e);
    assert e.tx.nonce in next[a];
    LastIsMaxNonce(p, m[e.tx := e], next, e.tx);
    if e.tx.nonce != MaxNonce(next[a]) {
      assert forall k :: k in next[a] <==> k == e.tx.nonce || k in PendingIn(bySender, a);
      assert MaxNonce(next[a]) in bySender[a];
      assert MaxNonce(bySender[a]) == MaxNonce(next[a]);
      assert LastKey(next[a]) == LastKey(bySender[a]);
    }
  }

  // --- validity on top of the confirmed accounts ------------------------------------------------------------

  ghost predicate AllCovered(bySender: SenderIndex, state: Accounts, maxPerSender: nat) {
    forall a :: a in bySender ==> Covered(bySender[a], Ledger.Get(state, a)) && |bySender[a]| <= maxPerSender
  }

  lemma CoveredWithoutLast(bySender: SenderIndex, state: Accounts, limit: nat, a: Address, n: nat)
    requires AllCovered(bySender, state, limit) && a in bySender && bySender[a] != map[] && n == MaxNonce(bySender[a])
    ensures AllCovered(WithoutPending(bySender, a, n), state, limit)
  {
    DropLast(bySender[a], Ledger.Get(state, a), n);
    var rest := bySender[a] - {n};
    assert rest.Keys == bySender[a].Keys - {n};
  }

  /** A transfer that passes the policy checks keeps its sender's waiting transfers valid. */
  lemma CoveredPlaced(policy: Policy, pending: Pending, account: Account, e: Entry)
    requires Covered(pending, account) && |pending| <= policy.maxPerSender && e.tx.Transfer?
    requires forall n :: n in pending ==> pending[n].tx.Transfer?
    requires Refusal(policy, pending, account, e.tx).None?
    ensures Covered(pending[e.tx.nonce := e], account)
    ensures |pending[e.tx.nonce := e]| <= policy.maxPerSender
  {
    hide FeeRate, TxSize, TotalSpent;
    var n := e.tx.nonce;
    if n in pending {
      ReplaceAt(pending, account, n, e);
    } else {
      assert pending - {n} == pending;
      AppendNext(pending, account, n, e);
    }
  }

  lemma CoveredAfterPlacing(p: Params, policy: Policy, bySender: SenderIndex, state: Accounts, e: Entry)
    requires AllCovered(bySender, state, policy.maxPerSender) && e.tx.Transfer?
    requires forall n :: n in PendingIn(bySender, Sender(p, e.tx)) ==>
      PendingIn(bySender, Sender(p, e.tx))[n].tx.Transfer?
    requires Refusal(policy, PendingIn(bySender, Sender(p, e.tx)), Ledger.Get(state, Sender(p, e.tx)), e.tx).None?
    ensures AllCovered(WithPending(bySender, Sender(p, e.tx), e.tx.nonce, e), state, policy.maxPerSender)
  {
    hide Refusal, Covered;
    var a := Sender(p, e.tx);
    NothingWaiting(Ledger.Get(state, a));
    CoveredPlaced(policy, PendingIn(bySender, a), Ledger.Get(state, a), e);
  }

  lemma NothingWaiting(account: Account)
    ensures Covered(map[], account)
  {
  }

  lemma ReplaceInIndex(bySender: SenderIndex, a: Address, n: nat, e: Entry)
    ensures WithPending(WithoutPending(bySender, a, n), a, n, e) == WithPending(bySender, a, n, e)
  {
    var pending := PendingIn(bySender, a);
    assert (pending - {n})[n := e] == pending[n := e];
    assert PendingIn(WithoutPending(bySender, a, n), a) == pending - {n};
  }

  // --- popping the least key -----------------------------------------------------------------------------------

  lemma HeapNotEmpty(p: Params, m: Entries, bySender: SenderIndex, heap: multiset<Key>)
    requires Indexed(p, m, bySender) && Tracked(bySender, bySender.Keys, heap) && TotalBytes(m) > 0
    ensures heap != multiset{}
  {
    var t :| t in m;
    EntryIsFiled(p, m, bySender, t);
    assert LastKey(bySender[Sender(p, t)]) in heap;
  }

  /** A popped key that is nobody's last transfer was not needed; otherwise only its sender lost track. */
  lemma PopTracks(p: Params, m: Entries, bySender: SenderIndex, heap: multiset<Key>, k: Key)
    requires Indexed(p, m, bySender) && Tracked(bySender, bySender.Keys, heap) && Genuine(heap) && k in heap
    ensures Genuine(heap - multiset{k}) && KeysFrom(heap, m, heap - multiset{k})
    ensures k.tx.Transfer? && Tracked(bySender, bySender.Keys - {Sender(p, k.tx)}, heap - multiset{k})
    ensures k.tx !in m || !IsLast(p, m, k.tx) ==> Tracked(bySender, bySender.Keys, heap - multiset{k})
  {
    var rest := heap - multiset{k};
    assert forall x :: x in heap && x != k ==> x in rest;
    forall a | a in bySender && bySender[a] != map[] && (a != Sender(p, k.tx) || k.tx !in m || !IsLast(p, m, k.tx))
      ensures LastKey(bySender[a]) in rest
    {
      LastOf(p, m, bySender, a);
      var last := bySender[a][MaxNonce(bySender[a])];
      LastIsMaxNonce(p, m, bySender, last.tx);
    }
  }

  ghost predicate Within(n: Entries, m: Entries) {
    forall t :: t in n ==> t in m && n[t] == m[t]
  }

  lemma NoneNewerKept(m: Entries, heap: multiset<Key>, n: Entries, now: multiset<Key>)
    requires NoneNewer(m, heap) && KeysFrom(heap, m, now) && Within(n, m)
    ensures NoneNewer(n, now)
  {
  }

  /** Nothing, or the removal of the cheapest last transfer. */
  ghost predicate TrimStep(p: Params, rank: Transaction -> nat, m: Entries, n: Entries) {
    n == m || exists t :: IsCheapest(p, rank, m, t) && n == m - {t}
  }

  /** Whatever the scan makes of `m` it makes of `start`. */
  ghost predicate OnTheWay(p: Params, rank: Transaction -> nat, limit: nat, start: Entries, m: Entries) {
    forall end :: ScanTrims(p, rank, limit, m, end) ==> ScanTrims(p, rank, limit, start, end)
  }

  lemma AtTheStart(p: Params, rank: Transaction -> nat, limit: nat, m: Entries, heap: multiset<Key>)
    ensures Within(m, m) && KeysFrom(heap, m, heap) && OnTheWay(p, rank, limit, m, m)
  {
  }

  lemma OneTrim(p: Params, rank: Transaction -> nat, limit: nat, start: Entries, m: Entries, n: Entries)
    requires OnTheWay(p, rank, limit, start, m) && TotalBytes(m) > limit && TrimStep(p, rank, m, n)
    ensures OnTheWay(p, rank, limit, start, n)
  {
    if n != m {
      var t :| IsCheapest(p, rank, m, t) && n == m - {t};
      forall end | ScanTrims(p, rank, limit, m - {t}, end)
        ensures ScanTrims(p, rank, limit, start, end)
      {
        assert ScanTrims(p, rank, limit, m, end);
      }
    }
  }

  lemma Arrived(p: Params, rank: Transaction -> nat, limit: nat, start: Entries, m: Entries)
    requires OnTheWay(p, rank, limit, start, m) && TotalBytes(m) <= limit
    ensures ScanTrims(p, rank, limit, start, m)
  {
    assert ScanTrims(p, rank, limit, m, m);
  }

  lemma StepKeeps(start: Entries, heap: multiset<Key>, m: Entries, h: multiset<Key>, n: Entries, now: multiset<Key>)
    requires Within(m, start) && KeysFrom(heap, start, h)
    requires Within(n, m) && KeysFrom(h, m, now)
    ensures Within(n, start) && KeysFrom(heap, start, now)
  {
  }

  lemma OneFewer(m: Entries, t: Transaction)
    requires t in m
    ensures |m - {t}| < |m| && Within(m - {t}, m)
  {
    assert (m - {t}).Keys == m.Keys - {t};
  }

  lemma OneKeyFewer(heap: multiset<Key>, k: Key)
    requires k in heap
    ensures |heap - multiset{k}| < |heap|
  {
  }

  lemma TrackedButOne(bySender: SenderIndex, heap: multiset<Key>, a: Address)
    ensures Tracked(bySender, bySender.Keys, heap) ==> Tracked(bySender, bySender.Keys - {a}, heap)
  {
  }

  lemma PendingAreTransfers(p: Params, m: Entries, bySender: SenderIndex, a: Address)
    requires Indexed(p, m, bySender)
    ensures forall n :: n in PendingIn(bySender, a) ==> PendingIn(bySender, a)[n].tx.Transfer?
  {
    forall n | n in PendingIn(bySender, a)
      ensures PendingIn(bySender, a)[n].tx.Transfer?
    {
      PendingIsEntry(p, m, bySender, a, n);
    }
  }

  lemma PendingIsEntry(p: Params, m: Entries, bySender: SenderIndex, a: Address, n: nat)
    requires Indexed(p, m, bySender) && a in bySender && n in bySender[a]
    ensures var e := bySender[a][n];
      e.tx.Transfer? && Sender(p, e.tx) == a && e.tx.nonce == n && e.tx in m && m[e.tx] == e
  {
    assert Filed(p, m, bySender[a][n], a, n);
  }

  lemma NoneNewerPlaced(m: Entries, heap: multiset<Key>, pending: Pending, e: Entry, now: multiset<Key>)
    requires e.tx.Transfer? && NoneNewer(m, heap) && NoneAfter(heap, e.tx, e.added)
    requires KeysFrom(heap, Placed(m, pending, e), now)
    ensures NoneNewer(Placed(m, pending, e), now)
  {
  }

  lemma Extends(m: Entries, e: Entry)
    requires e.tx !in m
    ensures Within(m, m[e.tx := e]) && Within(m[e.tx := e], m[e.tx := e])
  {
  }

  lemma AcceptedPays(policy: Policy, pending: Pending, account: Account, tx: Transaction)
    requires tx.Transfer? && forall n :: n in pending ==> pending[n].tx.Transfer?
    requires Refusal(policy, pending, account, tx).None?
    ensures tx.fee >= policy.minFeePerByte * TxSize(tx)
  {
  }

  lemma InOrderNow(m: Entries, heap: multiset<Key>, t: Transaction, now: real)
    requires InOrder(m, heap, now)
    ensures NoneNewer(m, heap) && NoneAfter(heap, t, now)
  {
  }

  lemma InOrderAfter(m: Entries, heap: multiset<Key>, pending: Pending, e: Entry, n: Entries, left: multiset<Key>,
                     now: real)
    requires e.tx.Transfer? && InOrder(m, heap, now) && e.added <= now
    requires Within(n, Placed(m, pending, e)) && KeysFrom(heap, Placed(m, pending, e), left) && NoneNewer(n, left)
    ensures InOrder(n, left, now)
  {
  }

  lemma LeastIsIn(rank: Transaction -> nat, heap: multiset<Key>, k: Key)
    requires IsLeast(rank, heap, k)
    ensures k in heap
  {
  }

  lemma KeysFromShrunk(was: multiset<Key>, m: Entries, n: Entries, now: multiset<Key>)
    requires KeysFrom(was, n, now) && Within(n, m)
    ensures KeysFrom(was, m, now)
  {
  }

  lemma TrimmedOne(p: Params, rank: Transaction -> nat, m: Entries, t: Transaction)
    requires IsCheapest(p, rank, m, t)
    ensures TrimStep(p, rank, m, m - {t})
  {
  }

  lemma NoTrim(p: Params, rank: Transaction -> nat, m: Entries)
    ensures TrimStep(p, rank, m, m)
  {
  }
}
