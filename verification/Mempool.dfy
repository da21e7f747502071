/**
 mempool.py: the transfers this node has accepted that are not in a block yet, as the class that
 keeps several indexes and a lazy eviction heap in step. `state` is the confirmed account table.
 */
module MempoolModel {
  import opened Types
  import opened Pool
  import opened Requeue
  import opened Selection
  import Ledger

  class Mempool {
    const p: Params
    const policy: Policy
    const rank: Transaction -> nat
    var byId: Entries
    var bySender: SenderIndex
    var byReceiver: ReceiverIndex
    var evictable: multiset<Key>
    var bytes: nat

    /** Every waiting transfer passes the stateless checks and pays the minimum fee. */
    ghost predicate Admitted()
      reads this
    {
      forall t :: t in byId ==>
        && t.Transfer? && byId[t].size == TxSize(t)
        && Ledger.CheckTransaction(t, p).None? && t.fee >= policy.minFeePerByte * TxSize(t)
    }

    /** The indexes, the byte count and the heap all agree with the entries, the heap being required
        to track only these senders. */
    ghost predicate ValidBut(tracked: set<Address>)
      reads this
    {
      && Indexed(p, byId, bySender)
      && Received(byId, byReceiver)
      && Admitted()
      && bytes == TotalBytes(byId)
      && Tracked(bySender, tracked, evictable)
      && Genuine(evictable)
    }

    ghost predicate Valid()
      reads this
    {
      ValidBut(bySender.Keys)
    }

    /** Each sender's waiting transfers are valid on top of its confirmed account. */
    ghost predicate Consistent(state: Accounts)
      reads this
    {
      AllCovered(bySender, state, policy.maxPerSender)
    }

    constructor (p: Params, policy: Policy, rank: Transaction -> nat)
      ensures this.p == p && this.policy == policy && this.rank == rank
      ensures Valid() && byId == map[] && evictable == multiset{}
      ensures forall state: Accounts :: Consistent(state)
    {
      this.p, this.policy, this.rank := p, policy, rank;
      byId, bySender, byReceiver := map[], map[], map[];
      evictable := multiset{};
      bytes := 0;
    }

    /** The key of every sender's last transfer, and nothing else. */
    method RebuildHeap() returns (heap: multiset<Key>)
      requires Indexed(p, byId, bySender)
      ensures Tracked(bySender, bySender.Keys, heap) && Genuine(heap) && KeysFrom(multiset{}, byId, heap)
    {
      hide Tracked, Genuine, KeysFrom, Indexed, LastKey;
      heap := multiset{};
      var left := bySender.Keys;
      NothingTracked(bySender, byId);
      while left != {}
        invariant left <= bySender.Keys
        invariant Tracked(bySender, bySender.Keys - left, heap) && Genuine(heap) && KeysFrom(multiset{}, byId, heap)
        decreases left
      {
        var a :| a in left;
        LastOf(p, byId, bySender, a);
        PushTracks(p, byId, bySender, bySender.Keys - left, heap, a);
        KeysFromTransitive(multiset{}, heap, heap + multiset{LastKey(bySender[a])}, byId, byId);
        heap := heap + multiset{LastKey(bySender[a])};
        assert bySender.Keys - left + {a} == bySender.Keys - (left - {a});
        left := left - {a};
      }
      assert bySender.Keys - left == bySender.Keys;
    }

    /** mempool._push_evictable: remember the sender's last transfer, and rebuild a mostly stale heap. */
    method PushEvictable(e: Entry)
      requires Indexed(p, byId, bySender) && Genuine(evictable)
      requires e.tx in byId && byId[e.tx] == e && IsLast(p, byId, e.tx)
      requires Tracked(bySender, bySender.Keys - {Sender(p, e.tx)}, evictable)
      modifies this`evictable
      ensures Tracked(bySender, bySender.Keys, evictable) && Genuine(evictable)
      ensures KeysFrom(old(evictable), byId, evictable)
    {
      hide Tracked, Genuine, KeysFrom, Indexed, LastKey, IsLast;
      PushingLastTracks(p, byId, bySender, evictable, e);
      evictable := evictable + multiset{KeyOf(e)};
      if |evictable| > 2 * |bySender| + 1000 {
        evictable := RebuildHeap();
        KeysFromNothing(old(evictable), byId, evictable);
      }
    }

    /** The receiver part of mempool._remove. */
    method TakeOut(t: Transaction)
      requires t.Transfer?
      requires forall a :: a in Ledger.OutputAddresses(t.outputs) ==> a in byReceiver
      requires forall a :: a in byReceiver ==> byReceiver[a] != map[]
      modifies this`byReceiver
      ensures TakenFrom(old(byReceiver), byReceiver, t, Ledger.OutputAddresses(t.outputs))
    {
      var left := Ledger.OutputAddresses(t.outputs);
      while left != {}
        invariant left <= Ledger.OutputAddresses(t.outputs)
        invariant TakenFrom(old(byReceiver), byReceiver, t, Ledger.OutputAddresses(t.outputs) - left)
        decreases left
      {
        var a :| a in left;
        var incoming := byReceiver[a] - {t};
        byReceiver := if incoming == map[] then byReceiver - {a} else byReceiver[a := incoming];
        left := left - {a};
      }
      assert Ledger.OutputAddresses(t.outputs) - left == Ledger.OutputAddresses(t.outputs);
    }

    /** The receiver part of mempool._insert. */
    method FileUnder(e: Entry)
      requires e.tx.Transfer?
      modifies this`byReceiver
      ensures FiledUnder(old(byReceiver), byReceiver, e, Ledger.OutputAddresses(e.tx.outputs))
    {
      var left := Ledger.OutputAddresses(e.tx.outputs);
      while left != {}
        invariant left <= Ledger.OutputAddresses(e.tx.outputs)
        invariant FiledUnder(old(byReceiver), byReceiver, e, Ledger.OutputAddresses(e.tx.outputs) - left)
        decreases left
      {
        var a :| a in left;
        byReceiver := byReceiver[a := IncomingIn(byReceiver, a)[e.tx := e]];
        left := left - {a};
      }
      assert Ledger.OutputAddresses(e.tx.outputs) - left == Ledger.OutputAddresses(e.tx.outputs);
    }

    /** mempool._remove */
    method Remove(e: Entry)
      requires e.tx in byId && byId[e.tx] == e && e.tx.Transfer?
      requires Valid() || (ValidBut(bySender.Keys - {Sender(p, e.tx)}) && IsLast(p, byId, e.tx))
      modifies this
      ensures Valid() && byId == old(byId) - {e.tx} && bytes <= old(bytes)
      ensures bySender == WithoutPending(old(bySender), Sender(p, e.tx), e.tx.nonce)
      ensures KeysFrom(old(evictable), byId, evictable)
    {
      hide Indexed, Received, Tracked, Genuine, KeysFrom, TakenFrom, Ledger.CheckTransaction, IsLast, Findable;
      var tx := e.tx;
      var a := Sender(p, tx);
      TrackedButOne(bySender, evictable, a);
      RemovalFacts(p, byId, bySender, byReceiver, evictable, tx);
      ghost var was := byReceiver;
      byId := byId - {tx};
      var pending: Pending := bySender[a] - {tx.nonce};
      bySender := if pending == map[] then bySender - {a} else bySender[a := pending];
      if pending != map[] && tx.nonce > MaxNonce(pending) {
        PushEvictable(pending[MaxNonce(pending)]);
      }
      TakeOut(tx);
      ReceivedWithout(old(byId), was, byReceiver, tx);
      bytes := bytes - e.size;
    }

    /** One turn of the eviction loop: pop the least key, and act on it unless it is stale. */
    method EvictOnce(ghost state: Accounts)
      requires Valid() && Consistent(state) && bytes > policy.maxBytes
      modifies this
      ensures Valid() && Consistent(state)
      ensures Within(byId, old(byId)) && KeysFrom(old(evictable), old(byId), evictable)
      ensures |byId| < |old(byId)| || (byId == old(byId) && |evictable| < |old(evictable)|)
      ensures old(NoneNewer(byId, evictable)) ==>
        NoneNewer(byId, evictable) && TrimStep(p, rank, old(byId), byId)
    {
      hide Indexed, Received, Tracked, Genuine, KeysFrom, NoneNewer, Within, IsLeast, IsLast, KeyLe, TotalBytes,
        Filed, Findable, TrimStep, IsCheapest, AllCovered, Ledger.CheckTransaction, TxSize;
      ghost var was, heap := byId, evictable;
      HeapNotEmpty(p, byId, bySender, evictable);
      HasLeast(rank, evictable);
      var k :| IsLeast(rank, evictable, k);
      LeastIsIn(rank, evictable, k);
      PopTracks(p, byId, bySender, evictable, k);
      OneKeyFewer(evictable, k);
      AtTheStart(p, rank, policy.maxBytes, byId, evictable);
      evictable := evictable - multiset{k};
      if k.tx in byId {
        EntryIsFiled(p, byId, bySender, k.tx);
        LastIsMaxNonce(p, byId, bySender, k.tx);
        if k.tx.nonce == MaxNonce(bySender[Sender(p, k.tx)]) {
          ghost var popped := evictable;
          CoveredWithoutLast(bySender, state, policy.maxPerSender, Sender(p, k.tx), k.tx.nonce);
          OneFewer(byId, k.tx);
          Remove(byId[k.tx]);
          KeysFromShrunk(popped, was, byId, evictable);
          KeysFromTransitive(heap, popped, evictable, was, was);
          if NoneNewer(was, heap) {
            LeastIsCheapest(p, rank, was, old(bySender), heap, k);
            TrimmedOne(p, rank, was, k.tx);
          }
        }
      }
      if NoneNewer(was, heap) {
        NoneNewerKept(was, heap, byId, evictable);
        if byId == was { NoTrim(p, rank, was); }
      }
    }

    /** mempool._trim_to_size: only a sender's last transfer can go without leaving a nonce gap; the
        cheapest goes first. If no stale key is newer than the entry it names, this removes exactly
        what scanning for the cheapest last transfer each time would remove. */
    method TrimToSize(ghost state: Accounts)
      requires Valid() && Consistent(state)
      modifies this
      ensures Valid() && Consistent(state) && bytes <= policy.maxBytes
      ensures Within(byId, old(byId)) && KeysFrom(old(evictable), old(byId), evictable)
      ensures old(NoneNewer(byId, evictable)) ==>
        NoneNewer(byId, evictable) && ScanTrims(p, rank, policy.maxBytes, old(byId), byId)
    {
      ghost var start, heap := byId, evictable;
      ghost var ordered := NoneNewer(byId, evictable);
      hide Indexed, Received, Tracked, Genuine, KeysFrom, NoneNewer, Within, OnTheWay, ScanTrims, AllCovered,
        TrimStep, Admitted;
      AtTheStart(p, rank, policy.maxBytes, byId, evictable);
      while bytes > policy.maxBytes
        invariant Valid() && Consistent(state)
        invariant Within(byId, start) && KeysFrom(heap, start, evictable)
        invariant ordered ==> NoneNewer(byId, evictable) && OnTheWay(p, rank, policy.maxBytes, start, byId)
        decreases |byId|, |evictable|
      {
        ghost var m, h := byId, evictable;
        EvictOnce(state);
        StepKeeps(start, heap, m, h, byId, evictable);
        if ordered { OneTrim(p, rank, policy.maxBytes, start, m, byId); }
      }
      if ordered { Arrived(p, rank, policy.maxBytes, start, byId); }
    }

    /** What the other waiting transfers of a sender spend. */
    static method SumSpent(pending: Pending, except: nat) returns (total: nat)
      ensures total == Spent(pending - {except})
    {
      total := 0;
      var left: Pending := pending - {except};
      while left != map[]
        invariant total + Spent(left) == Spent(pending - {except})
        decreases |left|
      {
        var n :| n in left;
        SumWithout(left, Spends, n);
        assert (left - {n}).Keys == left.Keys - {n};
        total := total + Spends(left[n]);
        left := left - {n};
      }
    }

    /** The policy checks of mempool._insert, in its order. */
    method CheckPolicy(state: Accounts, tx: Transaction) returns (r: Option<Error>)
      requires Valid() && tx.Transfer?
      ensures forall n :: n in PendingIn(bySender, Sender(p, tx)) ==> PendingIn(bySender, Sender(p, tx))[n].tx.Transfer?
      ensures r == Refusal(policy, PendingIn(bySender, Sender(p, tx)), Ledger.Get(state, Sender(p, tx)), tx)
    {
      hide Indexed, Received, Tracked, Genuine, TotalBytes, Spent, FeeRate;
      var size := TxSize(tx);
      var account := Ledger.Get(state, Sender(p, tx));
      var pending := PendingIn(bySender, Sender(p, tx));
      PendingAreTransfers(p, byId, bySender, Sender(p, tx));
      if tx.fee < policy.minFeePerByte * size { return Some(FeeTooLow); }
      if tx.nonce < account.nonce { return Some(NonceTooLow); }
      if tx.nonce !in pending {
        if tx.nonce != account.nonce + |pending| { return Some(NonceGap); }
        if |pending| >= policy.maxPerSender { return Some(TooManyPending); }
      } else if tx.fee <= pending[tx.nonce].tx.fee || FeeRate(tx) < FeeRate(pending[tx.nonce].tx) * 1.25 {
        return Some(ReplacementFeeTooLow);
      }
      var others := SumSpent(pending, tx.nonce);
      if TotalSpent(tx) + others > account.balance { return Some(InsufficientFunds); }
      return None;
    }

    /** The part of mempool._insert that enters a transfer into every index. */
    method Enter(entry: Entry)
      requires Valid() && Entrant(entry) && entry.tx.nonce !in PendingIn(bySender, Sender(p, entry.tx))
      modifies this
      ensures Valid() && byId == old(byId)[entry.tx := entry]
      ensures bySender == WithPending(old(bySender), Sender(p, entry.tx), entry.tx.nonce, entry)
      ensures KeysFrom(old(evictable), byId, evictable)
    {
      hide Indexed, Received, Tracked, Genuine, TotalBytes, KeysFrom, Within, Refusal,
        IsLast, Filed, Findable, FiledUnder, Ledger.CheckTransaction, TxSize;
      var tx := entry.tx;
      var a := Sender(p, tx);
      ghost var left, was := byId, byReceiver;
      InsertionFacts(p, byId, bySender, evictable, entry);
      byId := byId[tx := entry];
      bySender := WithPending(bySender, a, tx.nonce, entry);
      FileUnder(entry);
      ReceivedWith(left, was, byReceiver, entry);
      KeysFromSelf(evictable, byId);
      if tx.nonce == MaxNonce(bySender[a]) {
        PushEvictable(entry);
      }
      bytes := bytes + entry.size;
    }

    /** The same in place of the sender's transfer with this nonce, if there is one. */
    method Place(entry: Entry)
      requires Valid() && Entrant(entry)
      modifies this
      ensures Valid() && byId == Placed(old(byId), old(PendingIn(bySender, Sender(p, entry.tx))), entry)
      ensures bySender == WithPending(old(bySender), Sender(p, entry.tx), entry.tx.nonce, entry)
      ensures KeysFrom(old(evictable), byId, evictable)
    {
      hide Indexed, Received, Tracked, Genuine, TotalBytes, KeysFrom, Within, Refusal,
        IsLast, Filed, Findable, FiledUnder, Ledger.CheckTransaction, TxSize;
      var tx := entry.tx;
      var a := Sender(p, tx);
      ReplaceInIndex(bySender, a, tx.nonce, entry);
      KeysFromSelf(evictable, byId);
      if tx.nonce in PendingIn(bySender, a) {
        PendingIsEntry(p, byId, bySender, a, tx.nonce);
        Remove(bySender[a][tx.nonce]);
      }
      ghost var left, h := byId, evictable;
      Enter(entry);
      Extends(left, entry);
      KeysFromShrunk(old(evictable), byId, left, h);
      KeysFromTransitive(old(evictable), h, evictable, byId, byId);
    }

    ghost predicate Entrant(e: Entry)
      reads this
    {
      && e.tx.Transfer? && e.tx !in byId && e.size == TxSize(e.tx)
      && Ledger.CheckTransaction(e.tx, p).None? && e.tx.fee >= policy.minFeePerByte * TxSize(e.tx)
    }

    /** What mempool._insert does: refuse and change nothing, or enter the transfer, in place of the
        one it replaces, and trim; it is refused after all if it was trimmed itself. Provided no key in
        the heap is newer than the entry it names, the trimming is that of a full scan. */
    ghost predicate InsertionOutcome(m: Entries, was: SenderIndex, heap: multiset<Key>,
                                     n: Entries, now: SenderIndex, left: multiset<Key>,
                                     state: Accounts, tx: Transaction, added: real, r: Result<Entry>)
      requires tx.Transfer?
    {
      var pending, account := PendingIn(was, Sender(p, tx)), Ledger.Get(state, Sender(p, tx));
      var entry := Entry(tx, TxSize(tx), added);
      (forall k :: k in pending ==> pending[k].tx.Transfer?) &&
      match Refusal(policy, pending, account, tx)
      case Some(e) => r == Err(e) && n == m && now == was && left == heap
      case None =>
        && r == (if tx in n then Ok(entry) else Err(MempoolFull))
        && Within(n, Placed(m, pending, entry)) && KeysFrom(heap, Placed(m, pending, entry), left)
        && (NoneNewer(m, heap) && NoneAfter(heap, tx, added) ==>
            NoneNewer(n, left) && ScanTrims(p, rank, policy.maxBytes, Placed(m, pending, entry), n))
    }

    /** mempool._insert: policy checks and insertion; the stateless checks have passed. */
    method Insert(state: Accounts, tx: Transaction, added: real) returns (r: Result<Entry>)
      requires Valid() && Consistent(state) && bytes <= policy.maxBytes
      requires tx.Transfer? && tx !in byId && Ledger.CheckTransaction(tx, p).None?
      modifies this
      ensures Valid() && Consistent(state) && bytes <= policy.maxBytes
      ensures InsertionOutcome(old(byId), old(bySender), old(evictable), byId, bySender, evictable, state, tx, added, r)
    {
      hide Indexed, Received, Tracked, Genuine, TotalBytes, Spent, FeeRate, KeysFrom, NoneNewer, NoneAfter, Within,
        Refusal, AllCovered, ScanTrims, IsLast, Filed, Findable, FiledUnder, Ledger.CheckTransaction, TxSize;
      var refused := CheckPolicy(state, tx);
      if refused.Some? { return Err(refused.value); }
      var a := Sender(p, tx);
      var pending := PendingIn(bySender, a);
      var entry := Entry(tx, TxSize(tx), added);
      CoveredAfterPlacing(p, policy, bySender, state, entry);
      AcceptedPays(policy, pending, Ledger.Get(state, a), tx);
      ghost var ordered := NoneNewer(byId, evictable) && NoneAfter(evictable, tx, added);
      Place(entry);
      if ordered { NoneNewerPlaced(old(byId), old(evictable), pending, entry, evictable); }
      ghost var h := evictable;
      TrimToSize(state);
      KeysFromTransitive(old(evictable), h, evictable, Placed(old(byId), pending, entry),
                         Placed(old(byId), pending, entry));
      return if tx in byId then Ok(entry) else Err(MempoolFull);
    }

    lemma ValidReceived()
      requires Valid()
      ensures Received(byId, byReceiver) && forall t :: t in byId ==> byId[t].tx == t
    {
      hide Received, Tracked, Ledger.CheckTransaction;
    }

    lemma ValidIndexed()
      requires Valid()
      ensures Indexed(p, byId, bySender)
    {
    }

    lemma ValidChecked()
      requires Valid()
      ensures EntriesChecked(p, byId)
    {
    }

    /** mempool._remove between operations, when the heap tracks every sender. */
    method RemoveValid(e: Entry)
      requires Valid() && e.tx in byId && byId[e.tx] == e
      modifies this
      ensures Valid() && byId == old(byId) - {e.tx} && bytes <= old(bytes)
      ensures KeysFrom(old(evictable), byId, evictable)
    {
      EntryIsFiled(p, byId, bySender, e.tx);
      Remove(e);
    }

    /** Removes a sender's transfers from position `first` of its nonce order on. */
    method RemoveFrom(a: Address, q: seq<Entry>, first: nat)
      requires Valid() && q == InNonceOrder(PendingIn(bySender, a)) && first < |q| && q[first].tx.Transfer?
      modifies this
      ensures Valid() && byId == Cut(p, old(byId), a, q[first].tx.nonce) && bytes <= old(bytes)
      ensures |old(byId)| - |byId| == |q| - first
      ensures KeysFrom(old(evictable), old(byId), evictable)
    {
      hide *;
      ghost var start, heap, size := byId, evictable, bytes;
      ValidIndexed();
      PendingLists(p, byId, bySender, a);
      MinusIsCut(p, byId, bySender, a, q, first);
      OfWithin(p, byId, {a});
      NothingRemoved(byId, q, first, evictable);
      var i := first;
      while i < |q|
        invariant first <= i <= |q|
        invariant Valid() && byId == Minus(start, q, first, i) && KeysFrom(heap, start, evictable)
        invariant bytes <= size && |start| - |byId| == i - first
      {
        ghost var m, h := byId, evictable;
        MinusOne(start, q, first, i);
        StillThere(start, OfSenders(p, start, {a}), q, first, i);
        OneFewer(byId, q[i].tx);
        RemoveValid(q[i]);
        RemovalStep(start, heap, m, h, q[i].tx, evictable);
        i := i + 1;
      }
    }

    // --- adding ------------------------------------------------------------------------------------------

    /** mempool.next_nonce: the first nonce from the confirmed one on that is not waiting. */
    function NextNonce(state: Accounts, a: Address): (n: nat)
      reads this
      requires Consistent(state)
      ensures n !in PendingIn(bySender, a)
      ensures forall k :: Ledger.Get(state, a).nonce <= k < n ==> k in PendingIn(bySender, a)
    {
      Ledger.Get(state, a).nonce + |PendingIn(bySender, a)|
    }

    /** mempool.add: accept a transfer, or say why not. With a clock that has not gone back, whatever
        leaves to make room is what a full scan would choose. */
    method Add(state: Accounts, tx: Transaction, now: real) returns (r: Result<Entry>)
      requires Valid() && Consistent(state) && bytes <= policy.maxBytes
      modifies this
      ensures Valid() && Consistent(state) && bytes <= policy.maxBytes
      ensures !tx.Transfer? ==> r == Err(NotATransfer)
      ensures tx.Transfer? && old(tx in byId) ==> r == Err(AlreadyKnown)
      ensures tx.Transfer? && old(tx !in byId) && Ledger.CheckTransaction(tx, p).Some? ==>
        r == Err(Ledger.CheckTransaction(tx, p).value)
      ensures !tx.Transfer? || old(tx in byId) || Ledger.CheckTransaction(tx, p).Some? ==>
        byId == old(byId) && bySender == old(bySender) && evictable == old(evictable)
      ensures tx.Transfer? && old(tx !in byId) && Ledger.CheckTransaction(tx, p).None? ==>
        InsertionOutcome(old(byId), old(bySender), old(evictable), byId, bySender, evictable, state, tx, now, r)
      ensures old(InOrder(byId, evictable, now)) ==> InOrder(byId, evictable, now)
    {
      hide *;
      if !tx.Transfer? { return Err(NotATransfer); }
      if tx in byId { return Err(AlreadyKnown); }
      var error := Ledger.CheckTransaction(tx, p);
      if error.Some? { return Err(error.value); }
      r := Insert(state, tx, now);
      if old(InOrder(byId, evictable, now)) {
        InOrderNow(old(byId), old(evictable), tx, now);
        InOrderKept(old(byId), old(bySender), old(evictable), byId, bySender, evictable, state, tx, now, r, now);
      }
    }

    /** Adding keeps the keys and entries in the order of the clock. */
    lemma InOrderKept(m: Entries, was: SenderIndex, heap: multiset<Key>,
                      n: Entries, next: SenderIndex, left: multiset<Key>,
                      state: Accounts, tx: Transaction, added: real, r: Result<Entry>, now: real)
      requires tx.Transfer? && InsertionOutcome(m, was, heap, n, next, left, state, tx, added, r)
      requires InOrder(m, heap, now) && added <= now && NoneAfter(heap, tx, added)
      ensures InOrder(n, left, now)
    {
      hide Refusal, ScanTrims, Placed, FeeRate, TxSize, InOrder, Within, KeysFrom, NoneNewer, NoneAfter;
      var pending, entry := PendingIn(was, Sender(p, tx)), Entry(tx, TxSize(tx), added);
      InOrderNow(m, heap, tx, now);
      if Refusal(policy, pending, Ledger.Get(state, Sender(p, tx)), tx).None? {
        InOrderAfter(m, heap, pending, entry, n, left, now);
      }
    }

    // --- keeping up with the chain -------------------------------------------------------------------------

    /** The first part of mempool.update: the transfers of these senders leave, to be checked again. */
    method Withdraw(senders: set<Address>) returns (q: seq<Entry>)
      requires Valid()
      modifies this
      ensures Valid() && byId == WithoutSenders(p, old(byId), senders) && bytes <= old(bytes)
      ensures Lists(q, OfSenders(p, old(byId), senders))
      ensures KeysFrom(old(evictable), old(byId), evictable)
    {
      hide *;
      ghost var start, heap, size := byId, evictable, bytes;
      q := [];
      var left := senders;
      NothingWithdrawn(p, byId);
      KeysFromSelf(evictable, byId);
      assert senders - left == {};
      while left != {}
        invariant left <= senders
        invariant Valid() && byId == WithoutSenders(p, start, senders - left) && bytes <= size
        invariant Lists(q, OfSenders(p, start, senders - left))
        invariant KeysFrom(heap, start, evictable)
        decreases left
      {
        var a :| a in left;
        ghost var m, h := byId, evictable;
        var list := InNonceOrder(PendingIn(bySender, a));
        ValidIndexed();
        CutAll(p, byId, bySender, a, list);
        PendingLists(p, byId, bySender, a);
        WithoutBoth(p, start, senders - left, a);
        ListsBoth(p, start, senders - left, a, q, list);
        WithoutIsWithin(p, start, senders - left);
        q := q + list;
        if list != [] { RemoveFrom(a, list, 0); } else { KeysFromSelf(evictable, byId); }
        KeysFromTransitive(heap, h, evictable, start, m);
        assert senders - left + {a} == senders - (left - {a});
        left := left - {a};
      }
      assert senders - left == senders;
    }

    /** The last part of mempool.update: candidates no longer valid on the new chain are dropped. */
    method Readmit(state: Accounts, confirmed: set<Transaction>, q: seq<Entry>, ghost now: real)
      requires Valid() && Consistent(state) && bytes <= policy.maxBytes
      requires AllChecked(p, q) && Transfers(q)
      modifies this
      ensures Valid() && Consistent(state) && bytes <= policy.maxBytes
      ensures old(InOrder(byId, evictable, now)) && old(Queued(byId, evictable, q, now)) ==>
        InOrder(byId, evictable, now) && Reinserts(p, policy, rank, state, confirmed, old(byId), q, byId)
    {
      hide *;
      ghost var start := byId;
      ghost var ordered := InOrder(byId, evictable, now) && Queued(byId, evictable, q, now);
      var rest := q;
      NothingDone(p, policy, rank, state, confirmed, byId, q);
      while rest != []
        invariant Valid() && Consistent(state) && bytes <= policy.maxBytes
        invariant AllChecked(p, rest) && Transfers(rest)
        invariant ordered ==> InOrder(byId, evictable, now) && Queued(byId, evictable, rest, now)
        invariant ordered ==> Leads(p, policy, rank, state, confirmed, start, q, byId, rest)
        decreases |rest|
      {
        CheckedNext(p, rest);
        ReadmitOne(state, confirmed, rest, ordered, start, q, now);
        rest := rest[1..];
      }
      if ordered { AllDone(p, policy, rank, state, confirmed, start, q, byId); }
    }

    method ReadmitOne(state: Accounts, confirmed: set<Transaction>, rest: seq<Entry>,
                      ghost ordered: bool, ghost start: Entries, ghost all: seq<Entry>, ghost now: real)
      requires Valid() && Consistent(state) && bytes <= policy.maxBytes
      requires AllChecked(p, rest) && Transfers(rest) && Transfers(all) && rest != [] && Transfers(rest[1..])
      requires ordered ==> InOrder(byId, evictable, now) && Queued(byId, evictable, rest, now)
      requires ordered ==> Leads(p, policy, rank, state, confirmed, start, all, byId, rest)
      modifies this
      ensures Valid() && Consistent(state) && bytes <= policy.maxBytes
      ensures ordered ==> InOrder(byId, evictable, now) && Queued(byId, evictable, rest[1..], now)
      ensures ordered ==> Leads(p, policy, rank, state, confirmed, start, all, byId, rest[1..])
    {
      hide *;
      CheckedNext(p, rest);
      ValidIndexed();
      var e := rest[0];
      if e.tx in confirmed || e.tx in byId {
        if ordered {
          SkipLeads(p, policy, rank, state, confirmed, start, all, byId, rest);
          QueuedSkip(byId, evictable, rest, now);
        }
      } else {
        ghost var m, was, heap := byId, bySender, evictable;
        var r := Insert(state, e.tx, e.added);
        if ordered {
          OutcomeLeads(m, was, heap, byId, bySender, evictable, state, confirmed, start, all, rest, r, now);
        }
      }
    }

    lemma OutcomeLeads(m: Entries, was: SenderIndex, heap: multiset<Key>,
                       n: Entries, next: SenderIndex, left: multiset<Key>, state: Accounts,
                       confirmed: set<Transaction>, start: Entries, all: seq<Entry>, rest: seq<Entry>, r: Result<Entry>,
                       now: real)
      requires Transfers(rest) && Transfers(all) && rest != []
      requires rest[0].tx !in confirmed && rest[0].tx !in m && rest[0].size == TxSize(rest[0].tx)
      requires Indexed(p, m, was)
      requires InsertionOutcome(m, was, heap, n, next, left, state, rest[0].tx, rest[0].added, r)
      requires InOrder(m, heap, now) && Queued(m, heap, rest, now)
      requires Leads(p, policy, rank, state, confirmed, start, all, m, rest)
      ensures InOrder(n, left, now) && Queued(n, left, rest[1..], now)
      ensures Leads(p, policy, rank, state, confirmed, start, all, n, rest[1..])
    {
      hide Refusal, ScanTrims, Placed, FeeRate, TxSize, InOrder, Within, KeysFrom, NoneNewer, NoneAfter, Queued,
        Indexed, Leads;
      var e := rest[0];
      var pending := PendingIn(was, Sender(p, e.tx));
      QueuedSkip(m, heap, rest, now);
      InOrderKept(m, was, heap, n, next, left, state, e.tx, e.added, r, now);
      InOrderNow(m, heap, e.tx, now);
      assert Inserted(p, policy, rank, Ledger.Get(state, Sender(p, e.tx)), pending, m, e, n);
      if Refusal(policy, pending, Ledger.Get(state, Sender(p, e.tx)), e.tx).None? {
        QueuedNext(m, heap, rest, now, pending, n, left);
      }
      InsertLeads(p, policy, rank, state, confirmed, start, all, m, rest, n);
    }

    /** mempool.update: to be called after the active chain changed. */
    method Update(state: Accounts, connected: seq<Block>, disconnected: seq<Block>, now: real)
      returns (back: seq<Transaction>)
      requires Valid() && bytes <= policy.maxBytes
      requires HasTransfersOnly(connected) && HasTransfersOnly(disconnected)
      requires BodiesChecked(p, disconnected)
      requires AllCovered(bySender - Rechecked(p, bySender, connected, disconnected), state, policy.maxPerSender)
      modifies this
      ensures Valid() && Consistent(state) && bytes <= policy.maxBytes
      ensures back == StillWaiting(Returning(disconnected, Confirmed(connected)), byId)
      ensures var returning := Returning(disconnected, Confirmed(connected));
        old(InOrder(byId, evictable, now)) && NoneTwice(returning) &&
          (forall tx :: tx in returning ==> tx !in old(byId)) ==>
        && InOrder(byId, evictable, now)
        && UpdateOutcome(p, policy, rank, old(byId), old(Rechecked(p, bySender, connected, disconnected)), returning,
                         Confirmed(connected), state, now, byId)
    {
      hide Indexed, Received, Tracked, Genuine, KeysFrom, NoneNewer, Within, Filed, Findable, AllCovered,
        Ledger.CheckTransaction, TxSize, InOrder, Queued, AllChecked, Reinserts, StableSort, InNonceOrder, Lists,
        Returning, Confirmed, StillWaiting, TotalBytes, Admitted, Rechecked, WithoutSenders, OfSenders,
        EntriesChecked, BodiesChecked, Candidates, Transfers, NoneTwice, UpdateOutcome;
      var confirmed := Confirmed(connected);
      var returning := Returning(disconnected, confirmed);
      var senders := Rechecked(p, bySender, connected, disconnected);
      ghost var m, was, heap := byId, bySender, evictable;
      ValidIndexed();
      ValidChecked();
      var waiting := Withdraw(senders);
      ValidIndexed();
      WithdrawnCovered(p, m, was, senders, bySender, state, policy.maxPerSender);
      ReturningChecked(p, disconnected, confirmed);
      CandidatesChecked(p, m, senders, returning, waiting, now);
      ghost var ordered := InOrder(m, heap, now) && NoneTwice(returning) && forall tx :: tx in returning ==> tx !in m;
      if ordered {
        CandidatesQueued(p, m, heap, senders, returning, waiting, evictable, now);
        WithoutIsWithin(p, m, senders);
        InOrderShrunk(m, heap, byId, evictable, now);
        SortKeepsQueued(p, byId, evictable, Candidates(returning, now, waiting), now);
      }
      var q := StableSort(p, Candidates(returning, now, waiting));
      Readmit(state, confirmed, q, now);
      if ordered { OutcomeIs(p, policy, rank, m, senders, returning, confirmed, state, now, byId, waiting); }
      back := StillWaiting(returning, byId);
    }

    /** mempool.expire: drop transfers older than `expiry` and their sender's later ones. */
    method Expire(ghost state: Accounts, now: real) returns (removed: nat)
      requires Valid() && Consistent(state) && bytes <= policy.maxBytes
      modifies this
      ensures Valid() && Consistent(state) && bytes <= policy.maxBytes
      ensures byId == map t | t in old(byId) && !Outdated(p, old(byId), t, now - policy.expiry as real) :: old(byId)[t]
      ensures removed == |old(byId)| - |byId|
      ensures old(InOrder(byId, evictable, now)) ==> InOrder(byId, evictable, now)
    {
      hide Indexed, Received, Tracked, Genuine, KeysFrom, Filed, Findable, AllCovered, Admitted, TotalBytes,
        InNonceOrder, Outdated, InOrder, Within, FirstOld;
      ghost var start, was, heap := byId, bySender, evictable;
      var cutoff := now - policy.expiry as real;
      removed := 0;
      var left := bySender.Keys;
      ghost var all := left;
      NothingExpired(p, byId, cutoff);
      KeysFromSelf(evictable, byId);
      assert all - left == {};
      while left != {}
        invariant left <= all
        invariant Valid() && Consistent(state) && bytes <= policy.maxBytes
        invariant byId == Recent(p, start, all - left, cutoff) && removed == |start| - |byId|
        invariant KeysFrom(heap, start, evictable)
        decreases left
      {
        var a :| a in left;
        ghost var m, h := byId, evictable;
        var gone := ExpireSender(state, a, cutoff, start, all - left);
        RecentIsWithin(p, start, all - left, cutoff);
        KeysFromTransitive(heap, h, evictable, start, m);
        removed := removed + gone;
        assert all - left + {a} == all - (left - {a});
        left := left - {a};
      }
      assert all - left == all;
      AllRecent(p, start, was, cutoff);
      RecentIsWithin(p, start, all, cutoff);
      if InOrder(start, heap, now) { InOrderShrunk(start, heap, byId, evictable, now); }
    }

    /** One turn of the loop of mempool.expire. */
    method ExpireSender(ghost state: Accounts, a: Address, cutoff: real, ghost start: Entries, ghost done: set<Address>)
      returns (removed: nat)
      requires Valid() && Consistent(state) && bytes <= policy.maxBytes
      requires byId == Recent(p, start, done, cutoff) && a !in done
      modifies this
      ensures Valid() && Consistent(state) && bytes <= policy.maxBytes
      ensures byId == Recent(p, start, done + {a}, cutoff) && removed == |old(byId)| - |byId|
      ensures KeysFrom(old(evictable), old(byId), evictable)
    {
      hide Indexed, Received, Tracked, Genuine, KeysFrom, Filed, Findable, AllCovered, Admitted, TotalBytes,
        InNonceOrder, Outdated, Recent, Cut;
      var q := InNonceOrder(PendingIn(bySender, a));
      var i := 0;
      while i < |q| && q[i].added >= cutoff
        invariant 0 <= i <= |q| && forall j :: 0 <= j < i ==> q[j].added >= cutoff
      {
        i := i + 1;
      }
      ghost var m, was := byId, bySender;
      ExpireOne(p, start, done, a, bySender, q, cutoff, i);
      KeysFromSelf(evictable, byId);
      removed := 0;
      if i < |q| {
        removed := |q| - i;
        RemoveFrom(a, q, i);
        CoveredAfterCut(p, m, was, a, q[i].tx.nonce, bySender, state, policy.maxPerSender);
      }
    }

    // --- mining ---------------------------------------------------------------------------------------------

    /** The heap mempool.select starts from: each sender's first transfer. */
    method FirstHeads(ghost maxBytes: int) returns (heap: set<Head>)
      requires Valid()
      ensures HeapFor(p, bySender, [], heap, maxBytes)
    {
      hide Indexed, Received, Tracked, Genuine, Admitted, TotalBytes, FeeRate, Names, AllHeld;
      heap := {};
      var left := bySender.Keys;
      NoneHeldYet(p, bySender);
      while left != {}
        invariant left <= bySender.Keys
        invariant forall h :: h in heap ==> Names(p, bySender, [], h)
        invariant AllHeld(p, bySender, heap, left)
        decreases left
      {
        var a :| a in left;
        LastOf(p, byId, bySender, a);
        PendingEntries(p, byId, bySender, a);
        var first := bySender[a][MinNonce(bySender[a])];
        FirstIsReady(p, bySender, a);
        FirstHeld(p, bySender, heap, left, a);
        heap := heap + {HeadOf(p, first.tx)};
        left := left - {a};
      }
      assert HeapFor(p, bySender, [], heap, maxBytes) by { AllHeldMeans(p, bySender, heap, maxBytes); }
    }

    /** One turn of the loop of mempool.select. */
    method TakeOrDrop(heap: set<Head>, chosen: seq<Transaction>, used: nat, maxBytes: int)
      returns (rest: set<Head>, more: seq<Transaction>, size: nat)
      requires Valid() && heap != {}
      requires Ledger.AllTransfers(chosen) && Greedy(p, bySender, chosen, maxBytes)
      requires HeapFor(p, bySender, chosen, heap, maxBytes) && used == SumSizes(chosen)
      ensures Ledger.AllTransfers(more) && Greedy(p, bySender, more, maxBytes)
      ensures HeapFor(p, bySender, more, rest, maxBytes) && size == SumSizes(more)
      ensures byId.Keys - SetOf(more) < byId.Keys - SetOf(chosen) || (more == chosen && |rest| < |heap|)
    {
      hide Indexed, Received, Tracked, Genuine, Admitted, TotalBytes, FeeRate, TxSize, Greedy, HeapFor, Names,
        BestFit, Ready, IsBest, Ledger.NoRepeats, Ledger.CheckTransaction;
      HasBestHead(heap);
      var h :| IsBest(heap, h);
      Popped(p, byId, bySender, chosen, heap, h, maxBytes);
      ValidChecked();
      var entry := bySender[h.sender][h.nonce];
      rest := heap - {h};
      if used + entry.size <= maxBytes {
        more := chosen + [entry.tx];
        size := used + entry.size;
        if h.nonce + 1 in bySender[h.sender] {
          rest := rest + {HeadOf(p, bySender[h.sender][h.nonce + 1].tx)};
        }
        OneMoreChosen(byId.Keys, chosen, entry.tx);
      } else {
        more, size := chosen, used;
      }
    }

    /** mempool.select: the best-paying transfers that fit, in a valid block order. */
    method Select(maxBytes: int) returns (chosen: seq<Transaction>)
      requires Valid()
      ensures GreedyChoice(p, bySender, chosen, maxBytes)
    {
      hide Indexed, Received, Tracked, Genuine, Admitted, TotalBytes, FeeRate, TxSize, Greedy, HeapFor, Names,
        BestFit, Ready, FitsAfter, IsBest, Ledger.NoRepeats;
      var heap := FirstHeads(maxBytes);
      chosen := [];
      var used := 0;
      NothingChosen(p, bySender, maxBytes);
      while heap != {}
        invariant Ledger.AllTransfers(chosen) && Greedy(p, bySender, chosen, maxBytes)
        invariant HeapFor(p, bySender, chosen, heap, maxBytes) && used == SumSizes(chosen)
        decreases byId.Keys - SetOf(chosen), |heap|
      {
        heap, chosen, used := TakeOrDrop(heap, chosen, used, maxBytes);
      }
      EmptyHeap(p, bySender, chosen, maxBytes);
    }
  }
}
