/**
 The value side of mempool.update: which transfers are checked again after a change of the active
 chain, in which order, and what becomes of them.
 */
module Requeue {
  import opened Types
  import opened Pool
  import Ledger

  // --- one sender's transfers in nonce order -----------------------------------------------------------

  /** mempool.pending_for */
  function InNonceOrder(pending: Pending): (r: seq<Entry>)
    ensures |r| == |pending|
    decreases |pending|
  {
    if pending == map[] then []
    else
      var n := MaxNonce(pending);
      FewerWaiting(pending, n);
      InNonceOrder(pending - {n}) + [pending[n]]
  }

  lemma FewerWaiting(pending: Pending, n: nat)
    requires n in pending
    ensures |pending - {n}| == |pending| - 1
  {
    assert (pending - {n}).Keys == pending.Keys - {n};
  }

  /** Every entry is filed under its own nonce. */
  ghost predicate OwnNonces(pending: Pending) {
    forall n :: n in pending ==> pending[n].tx.Transfer? && pending[n].tx.nonce == n
  }

  /** These are the entries, by rising nonce. */
  ghost predicate ListsByNonce(r: seq<Entry>, pending: Pending) {
    && (forall i :: 0 <= i < |r| ==> r[i].tx.Transfer? && r[i].tx.nonce in pending && pending[r[i].tx.nonce] == r[i])
    && (forall i, j :: 0 <= i < j < |r| ==> r[i].tx.nonce < r[j].tx.nonce)
    && (forall n :: n in pending ==> pending[n] in r)
  }

  lemma {:induction false} NonceOrderIsSorted(pending: Pending)
    requires OwnNonces(pending)
    ensures ListsByNonce(InNonceOrder(pending), pending)
    decreases |pending|
  {
    if pending != map[] {
      var n := MaxNonce(pending);
      FewerWaiting(pending, n);
      NonceOrderIsSorted(pending - {n});
      ListedOneMore(InNonceOrder(pending - {n}), pending, n);
    }
  }

  lemma ListedOneMore(r: seq<Entry>, pending: Pending, n: nat)
    requires OwnNonces(pending) && n in pending && forall m :: m in pending ==> m <= n
    requires ListsByNonce(r, pending - {n})
    ensures ListsByNonce(r + [pending[n]], pending)
  {
    var s := r + [pending[n]];
    assert s[|r|] == pending[n];
    forall m | m in pending
      ensures pending[m] in s
    {
      if m != n { assert m in pending - {n}; }
    }
  }

  // --- taking a sender's later transfers out --------------------------------------------------------------

  /** Without this sender's transfers from this nonce on. */
  function Cut(p: Params, m: Entries, a: Address, from: nat): Entries {
    map t | t in m && !(t.Transfer? && Sender(p, t) == a && t.nonce >= from) :: m[t]
  }

  /** Without these senders' transfers. */
  function WithoutSenders(p: Params, m: Entries, senders: set<Address>): Entries {
    map t | t in m && !(t.Transfer? && Sender(p, t) in senders) :: m[t]
  }

  /** These senders' transfers. */
  function OfSenders(p: Params, m: Entries, senders: set<Address>): Entries {
    map t | t in m && t.Transfer? && Sender(p, t) in senders :: m[t]
  }

  /** The list holds each entry once. */
  ghost predicate Lists(q: seq<Entry>, m: Entries) {
    && (forall i :: 0 <= i < |q| ==> q[i].tx in m && m[q[i].tx] == q[i])
    && (forall i, j :: 0 <= i < j < |q| ==> q[i].tx != q[j].tx)
    && (forall t :: t in m ==> m[t] in q)
  }

  /** Each of the sender's pending entries waits under its own nonce. */
  lemma PendingEntries(p: Params, m: Entries, bySender: SenderIndex, a: Address)
    requires Indexed(p, m, bySender)
    ensures var pending := PendingIn(bySender, a);
      && OwnNonces(pending)
      && (forall n :: n in pending ==>
          var e := pending[n];
          e.tx in m && m[e.tx] == e && Sender(p, e.tx) == a)
      && (forall t :: t in m && t.Transfer? && Sender(p, t) == a ==> t.nonce in pending && pending[t.nonce] == m[t])
  {
    hide Indexed, Filed, Findable;
    var pending := PendingIn(bySender, a);
    forall n | n in pending
      ensures pending[n].tx.Transfer? && pending[n].tx.nonce == n
      ensures pending[n].tx in m && m[pending[n].tx] == pending[n] && Sender(p, pending[n].tx) == a
    {
      PendingIsEntry(p, m, bySender, a, n);
    }
    forall t | t in m && t.Transfer? && Sender(p, t) == a
      ensures t.nonce in pending && pending[t.nonce] == m[t]
    {
      EntryIsFiled(p, m, bySender, t);
    }
  }

  /** The sender's entries, listed by nonce, are its transfers. */
  lemma PendingLists(p: Params, m: Entries, bySender: SenderIndex, a: Address)
    requires Indexed(p, m, bySender)
    ensures OwnNonces(PendingIn(bySender, a)) &&
      ListsByNonce(InNonceOrder(PendingIn(bySender, a)), PendingIn(bySender, a))
    ensures Lists(InNonceOrder(PendingIn(bySender, a)), OfSenders(p, m, {a}))
  {
    hide Indexed, Filed, Findable, InNonceOrder;
    var pending := PendingIn(bySender, a);
    var q, of := InNonceOrder(pending), OfSenders(p, m, {a});
    PendingEntries(p, m, bySender, a);
    NonceOrderIsSorted(pending);
    forall i | 0 <= i < |q|
      ensures q[i].tx in of && of[q[i].tx] == q[i]
    {
      assert pending[q[i].tx.nonce] == q[i];
    }
    forall t | t in of
      ensures of[t] in q
    {
      assert pending[t.nonce] == of[t];
    }
  }

  function Minus(m: Entries, q: seq<Entry>, first: nat, i: nat): Entries
    requires first <= i <= |q|
  {
    m - (set j | first <= j < i :: q[j].tx)
  }

  lemma MinusOne(m: Entries, q: seq<Entry>, first: nat, i: nat)
    requires first <= i < |q|
    ensures Minus(m, q, first, i + 1) == Minus(m, q, first, i) - {q[i].tx}
    ensures Within(Minus(m, q, first, i), m)
  {
    assert (set j | first <= j < i + 1 :: q[j].tx) == (set j | first <= j < i :: q[j].tx) + {q[i].tx};
  }

  lemma StillThere(m: Entries, of: Entries, q: seq<Entry>, first: nat, i: nat)
    requires Lists(q, of) && Within(of, m) && first <= i < |q|
    ensures q[i].tx in Minus(m, q, first, i) && Minus(m, q, first, i)[q[i].tx] == q[i]
  {
  }

  lemma NothingRemoved(m: Entries, q: seq<Entry>, first: nat, heap: multiset<Key>)
    requires first <= |q|
    ensures m == Minus(m, q, first, first) && KeysFrom(heap, m, heap)
  {
  }

  lemma OfWithin(p: Params, m: Entries, senders: set<Address>)
    ensures Within(OfSenders(p, m, senders), m)
  {
  }

  lemma RemovalStep(start: Entries, heap: multiset<Key>, m: Entries, h: multiset<Key>, t: Transaction,
                    now: multiset<Key>)
    requires Within(m, start) && KeysFrom(heap, start, h) && KeysFrom(h, m - {t}, now)
    ensures KeysFrom(heap, start, now)
  {
  }

  /** The tail of the list from `first` on holds the nonces from there on. */
  lemma TailHas(q: seq<Entry>, pending: Pending, first: nat, n: nat) returns (j: nat)
    requires ListsByNonce(q, pending) && n in pending && first < |q| && n >= q[first].tx.nonce
    requires pending[n].tx.nonce == n
    ensures first <= j < |q| && q[j] == pending[n]
  {
    assert pending[n] in q;
    j :| 0 <= j < |q| && q[j] == pending[n];
  }

  /** Cutting from a sender's first waiting nonce leaves nothing of it. */
  lemma CutAll(p: Params, m: Entries, bySender: SenderIndex, a: Address, list: seq<Entry>)
    requires Indexed(p, m, bySender) && list == InNonceOrder(PendingIn(bySender, a))
    ensures list == [] ==> WithoutSenders(p, m, {a}) == m
    ensures list != [] ==> list[0].tx.Transfer?
    ensures list != [] ==> WithoutSenders(p, m, {a}) == Cut(p, m, a, list[0].tx.nonce)
  {
    hide Indexed, InNonceOrder, Lists;
    PendingLists(p, m, bySender, a);
    PendingEntries(p, m, bySender, a);
    var pending := PendingIn(bySender, a);
    forall t | t in m && t.Transfer? && Sender(p, t) == a
      ensures list != [] && t.nonce >= list[0].tx.nonce
    {
      assert pending[t.nonce] in list;
    }
  }

  lemma WithoutBoth(p: Params, m: Entries, senders: set<Address>, a: Address)
    requires a !in senders
    ensures WithoutSenders(p, WithoutSenders(p, m, senders), {a}) == WithoutSenders(p, m, senders + {a})
    ensures OfSenders(p, WithoutSenders(p, m, senders), {a}) == OfSenders(p, m, {a})
  {
  }

  lemma ListsBoth(p: Params, m: Entries, senders: set<Address>, a: Address, q: seq<Entry>, list: seq<Entry>)
    requires a !in senders && Lists(q, OfSenders(p, m, senders)) && Lists(list, OfSenders(p, m, {a}))
    ensures Lists(q + list, OfSenders(p, m, senders + {a}))
  {
    var all, of := q + list, OfSenders(p, m, senders + {a});
    forall t | t in of
      ensures of[t] in all
    {
      assert if t in OfSenders(p, m, senders) then m[t] in q else t in OfSenders(p, m, {a}) && m[t] in list;
    }
    forall i, j | 0 <= i < j < |all|
      ensures all[i].tx != all[j].tx
    {
      if i < |q| <= j { assert all[i] == q[i] && all[j] == list[j - |q|]; }
    }
  }

  lemma WithoutIsWithin(p: Params, m: Entries, senders: set<Address>)
    ensures Within(WithoutSenders(p, m, senders), m)
  {
  }

  lemma NothingWithdrawn(p: Params, m: Entries)
    ensures WithoutSenders(p, m, {}) == m && Lists([], OfSenders(p, m, {}))
  {
  }

  /** With these senders withdrawn, the others' transfers are as valid as before. */
  lemma WithdrawnCovered(p: Params, m: Entries, was: SenderIndex, senders: set<Address>, now: SenderIndex,
                         state: Accounts, limit: nat)
    requires Indexed(p, m, was) && Indexed(p, WithoutSenders(p, m, senders), now)
    requires AllCovered(was - senders, state, limit)
    ensures AllCovered(now, state, limit)
  {
    hide Indexed, Covered;
    var rest := WithoutSenders(p, m, senders);
    forall a | a in now
      ensures a in was - senders && now[a] == was[a]
    {
      PendingEntries(p, rest, now, a);
      PendingEntries(p, m, was, a);
      LastOf(p, rest, now, a);
      var n := MaxNonce(now[a]);
      assert PendingIn(now, a)[n].tx in rest;
      assert forall k :: k in PendingIn(now, a) ==>
        k in PendingIn(was, a) && PendingIn(was, a)[k] == PendingIn(now, a)[k];
      assert forall k :: k in PendingIn(was, a) ==> PendingIn(was, a)[k].tx in rest;
      assert PendingIn(now, a) == PendingIn(was, a);
    }
  }

  lemma MinusIsCut(p: Params, m: Entries, bySender: SenderIndex, a: Address, q: seq<Entry>, first: nat)
    requires Indexed(p, m, bySender) && q == InNonceOrder(PendingIn(bySender, a)) && first < |q| &&
      q[first].tx.Transfer?
    ensures Minus(m, q, first, |q|) == Cut(p, m, a, q[first].tx.nonce)
  {
    hide Indexed, InNonceOrder, Lists, ListsByNonce, Findable;
    PendingLists(p, m, bySender, a);
    PendingEntries(p, m, bySender, a);
    var pending := PendingIn(bySender, a);
    var out := set j | first <= j < |q| :: q[j].tx;
    forall t | t in m
      ensures t in out <==> t.Transfer? && Sender(p, t) == a && t.nonce >= q[first].tx.nonce
    {
      if t in out {
        var j :| first <= j < |q| && q[j].tx == t;
        InTail(q, pending, first, j);
      }
      if t.Transfer? && Sender(p, t) == a && t.nonce >= q[first].tx.nonce {
        EntryIsFiled(p, m, bySender, t);
        var j := TailHas(q, pending, first, t.nonce);
        assert q[j].tx == t;
      }
    }
    assert m - out == Cut(p, m, a, q[first].tx.nonce);
  }

  lemma InTail(q: seq<Entry>, pending: Pending, first: nat, j: nat)
    requires ListsByNonce(q, pending) && first <= j < |q|
    ensures q[j].tx.Transfer? && q[j].tx.nonce in pending && pending[q[j].tx.nonce] == q[j]
    ensures q[first].tx.Transfer? && q[j].tx.nonce >= q[first].tx.nonce
  {
  }

  /** What the indexes hold after the cut. */
  lemma IndexAfterCut(p: Params, m: Entries, bySender: SenderIndex, a: Address, from: nat, next: SenderIndex)
    requires Indexed(p, m, bySender) && Indexed(p, Cut(p, m, a, from), next)
    ensures PendingIn(next, a) == map n | n in PendingIn(bySender, a) && n < from :: PendingIn(bySender, a)[n]
    ensures forall x :: x != a ==> PendingIn(next, x) == PendingIn(bySender, x)
  {
    hide Indexed, Filed, Findable;
    var cut := Cut(p, m, a, from);
    forall x, n | n in PendingIn(next, x)
      ensures n in PendingIn(bySender, x) && PendingIn(bySender, x)[n] == PendingIn(next, x)[n]
      ensures x == a ==> n < from
    {
      PendingIsEntry(p, cut, next, x, n);
      EntryIsFiled(p, m, bySender, PendingIn(next, x)[n].tx);
    }
    forall x, n | n in PendingIn(bySender, x) && (x != a || n < from)
      ensures n in PendingIn(next, x)
    {
      PendingIsEntry(p, m, bySender, x, n);
      EntryIsFiled(p, cut, next, PendingIn(bySender, x)[n].tx);
    }
  }

  // --- expiry ------------------------------------------------------------------------------------------------

  /** Old itself, or after an old one of the same sender. */
  ghost predicate Outdated(p: Params, m: Entries, t: Transaction, cutoff: real) {
    && t in m && t.Transfer?
    && exists x :: x in m && x.Transfer? && Sender(p, x) == Sender(p, t) && x.nonce <= t.nonce && m[x].added < cutoff
  }

  /** Of these senders, only what is not outdated. */
  ghost function Recent(p: Params, m: Entries, senders: set<Address>, cutoff: real): Entries {
    map t | t in m && !(t.Transfer? && Sender(p, t) in senders && Outdated(p, m, t, cutoff)) :: m[t]
  }

  /** Position of the first entry added before the cutoff, or the length. */
  ghost predicate FirstOld(q: seq<Entry>, cutoff: real, i: nat) {
    && i <= |q|
    && (forall j :: 0 <= j < i ==> q[j].added >= cutoff)
    && (i < |q| ==> q[i].added < cutoff)
  }

  lemma NothingExpired(p: Params, m: Entries, cutoff: real)
    ensures Recent(p, m, {}, cutoff) == m
  {
  }

  lemma RecentIsWithin(p: Params, m: Entries, senders: set<Address>, cutoff: real)
    ensures Within(Recent(p, m, senders, cutoff), m)
  {
  }

  lemma AllRecent(p: Params, m: Entries, bySender: SenderIndex, cutoff: real)
    requires Indexed(p, m, bySender)
    ensures Recent(p, m, bySender.Keys, cutoff) == map t | t in m && !Outdated(p, m, t, cutoff) :: m[t]
  {
    hide Outdated;
    forall t | t in m
      ensures t.Transfer? && Sender(p, t) in bySender
    {
      EntryIsFiled(p, m, bySender, t);
    }
  }

  /** Expiring a sender removes what is outdated, by cutting its list at the first old entry. */
  lemma ExpireOne(p: Params, start: Entries, done: set<Address>, a: Address, bySender: SenderIndex,
                  q: seq<Entry>, cutoff: real, i: nat)
    requires a !in done && Indexed(p, Recent(p, start, done, cutoff), bySender)
    requires q == InNonceOrder(PendingIn(bySender, a)) && FirstOld(q, cutoff, i)
    ensures i == |q| ==> Recent(p, start, done + {a}, cutoff) == Recent(p, start, done, cutoff)
    ensures i < |q| ==> q[i].tx.Transfer?
    ensures i < |q| ==>
      Recent(p, start, done + {a}, cutoff) == Cut(p, Recent(p, start, done, cutoff), a, q[i].tx.nonce)
  {
    hide Indexed, InNonceOrder, Lists, ListsByNonce, FirstOld, Outdated;
    var m := Recent(p, start, done, cutoff);
    PendingLists(p, m, bySender, a);
    PendingEntries(p, m, bySender, a);
    var pending := PendingIn(bySender, a);
    FirstOldPlace(q, pending, cutoff, i);
    forall t | t in m && t.Transfer? && Sender(p, t) == a
      ensures Outdated(p, start, t, cutoff) <==> i < |q| && t.nonce >= q[i].tx.nonce
    {
      OutdatedNonce(p, start, m, a, pending, t, cutoff);
      OldNonce(q, pending, cutoff, i, t.nonce);
    }
  }

  lemma FirstOldPlace(q: seq<Entry>, pending: Pending, cutoff: real, i: nat)
    requires ListsByNonce(q, pending) && FirstOld(q, cutoff, i)
    ensures i <= |q| && (i < |q| ==> q[i].tx.Transfer?)
  {
  }

  lemma OldNonce(q: seq<Entry>, pending: Pending, cutoff: real, i: nat, n: nat)
    requires ListsByNonce(q, pending) && OwnNonces(pending) && FirstOld(q, cutoff, i) && n in pending
    ensures i < |q| ==> q[i].tx.Transfer?
    ensures (exists k :: k in pending && k <= n && pending[k].added < cutoff) <==> i < |q| && n >= q[i].tx.nonce
  {
    if k :| k in pending && k <= n && pending[k].added < cutoff {
      var j := TailHas(q, pending, 0, k);
      InTail(q, pending, i, j);
    }
    if i < |q| && n >= q[i].tx.nonce {
      assert pending[q[i].tx.nonce].added < cutoff;
    }
  }

  lemma OutdatedNonce(p: Params, start: Entries, m: Entries, a: Address, pending: Pending, t: Transaction, cutoff: real)
    requires Within(m, start) && t in m && t.Transfer? && Sender(p, t) == a && t.nonce in pending
    requires forall x :: x in start && x.Transfer? && Sender(p, x) == a ==>
      x.nonce in pending && pending[x.nonce] == start[x]
    requires OwnNonces(pending)
    requires forall n :: n in pending ==> pending[n].tx in start && start[pending[n].tx] == pending[n]
    requires forall n :: n in pending ==> Sender(p, pending[n].tx) == a
    ensures Outdated(p, start, t, cutoff) <==> exists k :: k in pending && k <= t.nonce && pending[k].added < cutoff
  {
    if Outdated(p, start, t, cutoff) {
      var x :| x in start && x.Transfer? && Sender(p, x) == a && x.nonce <= t.nonce && start[x].added < cutoff;
      assert pending[x.nonce].added < cutoff;
    }
    if k :| k in pending && k <= t.nonce && pending[k].added < cutoff {
      assert pending[k].tx in start;
    }
  }

  /** What is left after a cut is still covered. */
  lemma CoveredAfterCut(p: Params, m: Entries, was: SenderIndex, a: Address, from: nat, now: SenderIndex,
                        state: Accounts, limit: nat)
    requires Indexed(p, m, was) && Indexed(p, Cut(p, m, a, from), now) && AllCovered(was, state, limit)
    ensures AllCovered(now, state, limit)
  {
    hide Covered, Filed, Findable;
    IndexAfterCut(p, m, was, a, from, now);
    forall x | x in now
      ensures Covered(now[x], Ledger.Get(state, x)) && |now[x]| <= limit
    {
      assert PendingIn(now, x) != map[];
      if x == a {
        CutAt(was[x], Ledger.Get(state, x), from);
      } else {
        assert PendingIn(was, x) != map[];
      }
    }
  }

  // --- which transfers come back ------------------------------------------------------------------------

  function Confirmed(connected: seq<Block>): set<Transaction> {
    set b, tx | b in connected && tx in b.txs :: tx
  }

  /** The transfers of one undone block that the new blocks do not hold. */
  function ReturningFrom(txs: seq<Transaction>, confirmed: set<Transaction>): (r: seq<Transaction>)
    ensures forall tx :: tx in r <==> tx in txs && tx !in confirmed && tx.Transfer?
  {
    if txs == [] then []
    else
      var rest := ReturningFrom(txs[..|txs| - 1], confirmed);
      var last := txs[|txs| - 1];
      if last in confirmed || !last.Transfer? then rest else rest + [last]
  }

  function Returning(disconnected: seq<Block>, confirmed: set<Transaction>): (r: seq<Transaction>)
    requires forall b :: b in disconnected ==> |b.txs| > 0
    ensures forall tx :: tx in r <==>
      tx !in confirmed && tx.Transfer? && exists b :: b in disconnected && tx in b.txs[1..]
  {
    if disconnected == [] then []
    else
      var n := |disconnected| - 1;
      Returning(disconnected[..n], confirmed) + ReturningFrom(disconnected[n].txs[1..], confirmed)
  }

  ghost predicate HasTransfersOnly(blocks: seq<Block>) {
    forall b :: b in blocks ==> |b.txs| > 0 && Ledger.AllTransfers(b.txs[1..])
  }

  function SendersOf(p: Params, blocks: seq<Block>): set<Address>
    requires HasTransfersOnly(blocks)
  {
    set b, tx | b in blocks && tx in b.txs[1..] :: Sender(p, tx)
  }

  /** The senders whose waiting transfers are checked again. */
  function Rechecked(p: Params, bySender: SenderIndex, connected: seq<Block>, disconnected: seq<Block>): set<Address>
    requires HasTransfersOnly(connected) && HasTransfersOnly(disconnected)
  {
    if disconnected != [] then
      // Undoing blocks can lower anyone's balance.
      bySender.Keys + (set tx | tx in Returning(disconnected, Confirmed(connected)) :: Sender(p, tx))
    else SendersOf(p, connected)
  }

  // --- the order of rechecking: a stable sort by (sender, nonce) ------------------------------------------

  predicate Before(p: Params, a: Entry, b: Entry)
    requires a.tx.Transfer? && b.tx.Transfer?
  {
    Sender(p, a.tx) < Sender(p, b.tx) || (Sender(p, a.tx) == Sender(p, b.tx) && a.tx.nonce <= b.tx.nonce)
  }

  predicate Transfers(q: seq<Entry>) {
    forall i :: 0 <= i < |q| ==> q[i].tx.Transfer?
  }

  predicate Sorted(p: Params, q: seq<Entry>)
    requires Transfers(q)
  {
    forall i, j :: 0 <= i < j < |q| ==> Before(p, q[i], q[j])
  }

  lemma SortedSnoc(p: Params, q: seq<Entry>, e: Entry)
    requires Transfers(q) && Sorted(p, q) && e.tx.Transfer?
    requires forall x :: x in q ==> x.tx.Transfer? && Before(p, x, e)
    ensures Transfers(q + [e]) && Sorted(p, q + [e])
  {
    assert forall i :: 0 <= i < |q| ==> q[i] in q;
  }

  lemma SortedInit(p: Params, q: seq<Entry>)
    requires q != [] && Transfers(q) && Sorted(p, q)
    ensures Transfers(q[..|q| - 1]) && Sorted(p, q[..|q| - 1])
    ensures forall x :: x in q[..|q| - 1] ==> x.tx.Transfer? && Before(p, x, q[|q| - 1])
  {
  }

  lemma SortedLast(p: Params, q: seq<Entry>, e: Entry)
    requires q != [] && Transfers(q) && Sorted(p, q) && e.tx.Transfer? && Before(p, q[|q| - 1], e)
    ensures forall x :: x in q ==> x.tx.Transfer? && Before(p, x, e)
  {
  }

  /** After its equals. */
  function InsertInto(p: Params, q: seq<Entry>, e: Entry): (r: seq<Entry>)
    requires Transfers(q) && e.tx.Transfer? && Sorted(p, q)
    ensures Transfers(r) && Sorted(p, r) && multiset(r) == multiset(q) + multiset{e}
    ensures forall x :: x in r <==> x in q || x == e
  {
    if q == [] then [e]
    else
      var n := |q| - 1;
      assert q == q[..n] + [q[n]];
      if Before(p, q[n], e) then
        SortedLast(p, q, e);
        SortedSnoc(p, q, e);
        q + [e]
      else
        SortedInit(p, q);
        var r := InsertInto(p, q[..n], e);
        SortedSnoc(p, r, q[n]);
        r + [q[n]]
  }

  function StableSort(p: Params, q: seq<Entry>): (r: seq<Entry>)
    requires Transfers(q)
    ensures Transfers(r) && Sorted(p, r) && multiset(r) == multiset(q)
  {
    if q == [] then []
    else
      var n := |q| - 1;
      assert q == q[..n] + [q[n]];
      InsertInto(p, StableSort(p, q[..n]), q[n])
  }

  // --- checking them again, one after the other -----------------------------------------------------------

  ghost predicate InsertedAmong(p: Params, policy: Policy, rank: Transaction -> nat, state: Accounts,
                                m: Entries, e: Entry, n: Entries)
    requires e.tx.Transfer?
  {
    exists bySender :: Indexed(p, m, bySender)
      && (forall k :: k in PendingIn(bySender, Sender(p, e.tx)) ==>
          PendingIn(bySender, Sender(p, e.tx))[k].tx.Transfer?)
      && Inserted(p, policy, rank, Ledger.Get(state, Sender(p, e.tx)), PendingIn(bySender, Sender(p, e.tx)), m, e, n)
  }

  /** Each in turn is inserted, unless it was confirmed or waits already. */
  ghost predicate Reinserts(p: Params, policy: Policy, rank: Transaction -> nat, state: Accounts,
                            confirmed: set<Transaction>, m: Entries, q: seq<Entry>, end: Entries)
    requires Transfers(q)
    decreases |q|
  {
    if q == [] then end == m
    else if q[0].tx in confirmed || q[0].tx in m then
      Reinserts(p, policy, rank, state, confirmed, m, q[1..], end)
    else
      exists n :: InsertedAmong(p, policy, rank, state, m, q[0], n)
        && Reinserts(p, policy, rank, state, confirmed, n, q[1..], end)
  }

  lemma NothingDone(p: Params, policy: Policy, rank: Transaction -> nat, state: Accounts,
                    confirmed: set<Transaction>, m: Entries, q: seq<Entry>)
    requires Transfers(q)
    ensures Leads(p, policy, rank, state, confirmed, m, q, m, q)
  {
  }

  /** What becomes of `m` with `q` left to check becomes of `start` with `all` to check. */
  ghost predicate Leads(p: Params, policy: Policy, rank: Transaction -> nat, state: Accounts,
                        confirmed: set<Transaction>, start: Entries, all: seq<Entry>, m: Entries, q: seq<Entry>)
    requires Transfers(q) && Transfers(all)
  {
    forall end :: Reinserts(p, policy, rank, state, confirmed, m, q, end) ==>
      Reinserts(p, policy, rank, state, confirmed, start, all, end)
  }

  lemma SkipLeads(p: Params, policy: Policy, rank: Transaction -> nat, state: Accounts,
                  confirmed: set<Transaction>, start: Entries, all: seq<Entry>, m: Entries, q: seq<Entry>)
    requires Transfers(q) && Transfers(all) && q != [] && (q[0].tx in confirmed || q[0].tx in m)
    requires Leads(p, policy, rank, state, confirmed, start, all, m, q)
    ensures Leads(p, policy, rank, state, confirmed, start, all, m, q[1..])
  {
    forall end | Reinserts(p, policy, rank, state, confirmed, m, q[1..], end)
      ensures Reinserts(p, policy, rank, state, confirmed, start, all, end)
    {
      assert Reinserts(p, policy, rank, state, confirmed, m, q, end);
    }
  }

  lemma InsertLeads(p: Params, policy: Policy, rank: Transaction -> nat, state: Accounts,
                    confirmed: set<Transaction>, start: Entries, all: seq<Entry>, m: Entries, q: seq<Entry>, n: Entries)
    requires Transfers(q) && Transfers(all) && q != [] && q[0].tx !in confirmed && q[0].tx !in m
    requires Leads(p, policy, rank, state, confirmed, start, all, m, q)
    requires InsertedAmong(p, policy, rank, state, m, q[0], n)
    ensures Leads(p, policy, rank, state, confirmed, start, all, n, q[1..])
  {
    hide InsertedAmong;
    forall end | Reinserts(p, policy, rank, state, confirmed, n, q[1..], end)
      ensures Reinserts(p, policy, rank, state, confirmed, start, all, end)
    {
      assert Reinserts(p, policy, rank, state, confirmed, m, q, end);
    }
  }

  lemma AllDone(p: Params, policy: Policy, rank: Transaction -> nat, state: Accounts,
                confirmed: set<Transaction>, start: Entries, all: seq<Entry>, m: Entries)
    requires Transfers(all) && Leads(p, policy, rank, state, confirmed, start, all, m, [])
    ensures Reinserts(p, policy, rank, state, confirmed, start, all, m)
  {
    assert Reinserts(p, policy, rank, state, confirmed, m, [], m);
  }

  // --- the queue of candidates ------------------------------------------------------------------------------

  ghost predicate Distinct(q: seq<Entry>) {
    forall i, j :: 0 <= i < j < |q| ==> q[i].tx != q[j].tx
  }

  lemma {:induction false} InsertKeepsDistinct(p: Params, q: seq<Entry>, e: Entry)
    requires Transfers(q) && e.tx.Transfer? && Sorted(p, q)
    requires Distinct(q) && forall x :: x in q ==> x.tx != e.tx
    ensures Distinct(InsertInto(p, q, e))
  {
    if q != [] {
      var n := |q| - 1;
      if !Before(p, q[n], e) {
        InsertKeepsDistinct(p, q[..n], e);
        var r := InsertInto(p, q[..n], e);
        forall i | 0 <= i < |r|
          ensures r[i].tx != q[n].tx
        {
          assert r[i] in r;
        }
      }
    }
  }

  lemma {:induction false} SortKeepsMembers(p: Params, q: seq<Entry>)
    requires Transfers(q)
    ensures forall x :: x in StableSort(p, q) <==> x in q
  {
    if q != [] {
      var n := |q| - 1;
      SortKeepsMembers(p, q[..n]);
      assert q == q[..n] + [q[n]];
    }
  }

  lemma {:induction false} SortKeepsDistinct(p: Params, q: seq<Entry>)
    requires Transfers(q) && Distinct(q)
    ensures Distinct(StableSort(p, q))
  {
    if q != [] {
      var n := |q| - 1;
      SortKeepsDistinct(p, q[..n]);
      SortKeepsMembers(p, q[..n]);
      InsertKeepsDistinct(p, StableSort(p, q[..n]), q[n]);
    }
  }

  /** Nothing in the queue waits already, and no key in the heap is newer than the entry to come. */
  ghost predicate Queued(m: Entries, heap: multiset<Key>, q: seq<Entry>, now: real) {
    Distinct(q) && forall e :: e in q ==> e.tx !in m && NoneAfter(heap, e.tx, e.added) && e.added <= now
  }

  lemma QueuedSkip(m: Entries, heap: multiset<Key>, q: seq<Entry>, now: real)
    requires Queued(m, heap, q, now) && q != []
    ensures Queued(m, heap, q[1..], now)
    ensures q[0].added <= now && NoneAfter(heap, q[0].tx, q[0].added)
  {
    assert q[0] in q && forall e :: e in q[1..] ==> e in q;
  }

  lemma QueuedNext(m: Entries, heap: multiset<Key>, q: seq<Entry>, now: real, pending: Pending,
                   n: Entries, left: multiset<Key>)
    requires Queued(m, heap, q, now) && q != [] && q[0].tx.Transfer?
    requires Within(n, Placed(m, pending, q[0])) && KeysFrom(heap, Placed(m, pending, q[0]), left)
    ensures Queued(n, left, q[1..], now)
  {
    forall e | e in q[1..]
      ensures e.tx !in n && NoneAfter(left, e.tx, e.added) && e.added <= now
    {
      assert e in q;
      var i :| 0 <= i < |q[1..]| && q[1..][i] == e;
      assert q[i + 1] == e && q[0].tx != e.tx;
    }
  }

  /** An undone transfer as a candidate. */
  function Back(tx: Transaction, now: real): Entry { Entry(tx, TxSize(tx), now) }

  function Candidates(returning: seq<Transaction>, now: real, waiting: seq<Entry>): seq<Entry> {
    seq(|returning|, i requires 0 <= i < |returning| => Back(returning[i], now)) + waiting
  }

  ghost predicate NoneTwice(txs: seq<Transaction>) {
    forall i, j :: 0 <= i < j < |txs| ==> txs[i] != txs[j]
  }

  lemma CandidatesQueued(p: Params, m: Entries, heap: multiset<Key>, senders: set<Address>,
                         returning: seq<Transaction>, waiting: seq<Entry>, left: multiset<Key>, now: real)
    requires InOrder(m, heap, now) && KeysFrom(heap, m, left)
    requires Lists(waiting, OfSenders(p, m, senders))
    requires NoneTwice(returning) && forall tx :: tx in returning ==> tx !in m
    ensures Queued(WithoutSenders(p, m, senders), left, Candidates(returning, now, waiting), now)
  {
    var q := Candidates(returning, now, waiting);
    forall e | e in q
      ensures e.tx !in WithoutSenders(p, m, senders) && NoneAfter(left, e.tx, e.added) && e.added <= now
    {
      if e in waiting {
        assert m[e.tx] == e;
      } else {
        assert e.tx in returning && e.added == now;
      }
    }
    forall i, j | 0 <= i < j < |q|
      ensures q[i].tx != q[j].tx
    {
      if i < |returning| { assert q[i].tx in returning; }
      if j < |returning| { assert q[j].tx in returning; }
    }
  }

  /** The stateless part of what an insertion asks. */
  ghost predicate AllChecked(p: Params, q: seq<Entry>) {
    forall e :: e in q ==> e.tx.Transfer? && e.size == TxSize(e.tx) && Ledger.CheckTransaction(e.tx, p).None?
  }

  function StillWaiting(returning: seq<Transaction>, m: Entries): (r: seq<Transaction>)
    ensures forall tx :: tx in r <==> tx in returning && tx in m
  {
    if returning == [] then []
    else
      var rest := StillWaiting(returning[..|returning| - 1], m);
      var last := returning[|returning| - 1];
      if last in m then rest + [last] else rest
  }

  ghost predicate EntriesChecked(p: Params, m: Entries) {
    forall t :: t in m ==> t.Transfer? && m[t].size == TxSize(t) && Ledger.CheckTransaction(t, p).None?
  }

  /** Blocks that were valid hold transactions that pass the stateless checks. */
  ghost predicate BodiesChecked(p: Params, blocks: seq<Block>) {
    forall b, tx :: b in blocks && tx in b.txs ==> Ledger.CheckTransaction(tx, p).None?
  }

  lemma ReturningChecked(p: Params, disconnected: seq<Block>, confirmed: set<Transaction>)
    requires HasTransfersOnly(disconnected) && BodiesChecked(p, disconnected)
    ensures forall tx :: tx in Returning(disconnected, confirmed) ==>
      tx.Transfer? && Ledger.CheckTransaction(tx, p).None?
  {
    hide Ledger.CheckTransaction;
    forall tx | tx in Returning(disconnected, confirmed)
      ensures Ledger.CheckTransaction(tx, p).None?
    {
      var b :| b in disconnected && tx in b.txs[1..];
      assert tx in b.txs;
    }
  }

  lemma SortKeepsQueued(p: Params, m: Entries, heap: multiset<Key>, q: seq<Entry>, now: real)
    requires Transfers(q) && Queued(m, heap, q, now)
    ensures Queued(m, heap, StableSort(p, q), now)
  {
    SortKeepsDistinct(p, q);
    SortKeepsMembers(p, q);
  }

  lemma InOrderShrunk(m: Entries, heap: multiset<Key>, n: Entries, left: multiset<Key>, now: real)
    requires InOrder(m, heap, now) && Within(n, m) && KeysFrom(heap, m, left)
    ensures InOrder(n, left, now)
  {
  }

  /** The undone transfers that come back, and the waiting ones that must be checked again, make a
      queue of checked transfers. */
  lemma CandidatesChecked(p: Params, m: Entries, senders: set<Address>, returning: seq<Transaction>,
                          waiting: seq<Entry>, now: real)
    requires forall tx :: tx in returning ==> tx.Transfer? && Ledger.CheckTransaction(tx, p).None?
    requires EntriesChecked(p, m)
    requires Lists(waiting, OfSenders(p, m, senders))
    ensures var q := Candidates(returning, now, waiting);
      AllChecked(p, q) && Transfers(q) && AllChecked(p, StableSort(p, q))
  {
    hide Ledger.CheckTransaction, TxSize;
    var q := Candidates(returning, now, waiting);
    forall i | 0 <= i < |q|
      ensures q[i].tx.Transfer? && q[i].size == TxSize(q[i].tx) && Ledger.CheckTransaction(q[i].tx, p).None?
    {
      if i < |returning| {
        assert returning[i] in returning;
      } else {
        assert q[i] == waiting[i - |returning|] && m[q[i].tx] == q[i];
      }
    }
    SortKeepsMembers(p, q);
  }

  lemma CheckedNext(p: Params, q: seq<Entry>)
    requires AllChecked(p, q) && q != []
    ensures Transfers(q) && AllChecked(p, q[1..]) && Transfers(q[1..]) && q[0].tx.Transfer?
    ensures q[0].size == TxSize(q[0].tx) && Ledger.CheckTransaction(q[0].tx, p).None?
  {
    assert forall e :: e in q[1..] ==> e in q;
    assert q[0] in q;
  }

  /** What mempool.update makes of the entries: the transfers of the senders concerned, together with
      those of undone blocks, are inserted again one after the other, by sender and nonce. */
  ghost predicate UpdateOutcome(p: Params, policy: Policy, rank: Transaction -> nat, m: Entries, senders: set<Address>,
                                returning: seq<Transaction>, confirmed: set<Transaction>, state: Accounts, now: real,
                                n: Entries)
  {
    exists waiting :: Lists(waiting, OfSenders(p, m, senders))
      && Transfers(Candidates(returning, now, waiting))
      && Reinserts(p, policy, rank, state, confirmed, WithoutSenders(p, m, senders),
                   StableSort(p, Candidates(returning, now, waiting)), n)
  }

  lemma OutcomeIs(p: Params, policy: Policy, rank: Transaction -> nat, m: Entries, senders: set<Address>,
                  returning: seq<Transaction>, confirmed: set<Transaction>, state: Accounts, now: real, n: Entries,
                  waiting: seq<Entry>)
    requires Lists(waiting, OfSenders(p, m, senders)) && Transfers(Candidates(returning, now, waiting))
    requires Reinserts(p, policy, rank, state, confirmed, WithoutSenders(p, m, senders),
                       StableSort(p, Candidates(returning, now, waiting)), n)
    ensures UpdateOutcome(p, policy, rank, m, senders, returning, confirmed, state, now, n)
  {
  }
}
