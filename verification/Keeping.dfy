/**
 mempool.update drops nothing without need: while there is room, a sender whose confirmed account
 still covers its waiting transfers keeps all of them.
 */
module Keeping {
  import opened Types
  import opened Pool
  import opened Requeue
  import Ledger

  function QueueBytes(q: seq<Entry>): nat {
    if q == [] then 0 else q[0].size + QueueBytes(q[1..])
  }

  /** Of these transfers of one sender, those below nonce `next` wait, and the others are queued. */
  ghost predicate Spread(p: Params, pend: Pending, a: Address, m: Entries, q: seq<Entry>, next: nat) {
    && (forall n :: n in pend && n < next ==> pend[n].tx in m && m[pend[n].tx] == pend[n])
    && (forall n :: n in pend && n >= next ==> pend[n] in q)
    && (forall t :: t in m && t.Transfer? && Sender(p, t) == a ==>
        t.nonce < next && t.nonce in pend && pend[t.nonce] == m[t])
    && (forall e :: e in q && e.tx.Transfer? && Sender(p, e.tx) == a ==>
        e.tx.nonce >= next && e.tx.nonce in pend && pend[e.tx.nonce] == e)
  }

  /** These are a sender's transfers, all of which pay the minimum fee and are covered by its account. */
  ghost predicate Acceptable(p: Params, policy: Policy, pend: Pending, a: Address, account: Account) {
    && OwnNonces(pend) && Covered(pend, account) && |pend| <= policy.maxPerSender
    && forall n :: n in pend ==>
        Sender(p, pend[n].tx) == a && pend[n].tx.fee >= policy.minFeePerByte * TxSize(pend[n].tx)
  }

  function Below(pend: Pending, n: nat): Pending {
    map k | k in pend && k < n :: pend[k]
  }

  lemma BelowIsRun(pend: Pending, account: Account, n: nat)
    requires Covered(pend, account) && n in pend
    ensures n >= account.nonce && n !in Below(pend, n) && Below(pend, n) - {n} == Below(pend, n)
    ensures |Below(pend, n)| == n - account.nonce < |pend|
  {
    hide Spent;
    CutAt(pend, account, n);
    var cut := Below(pend, n);
    assert Run(cut, account.nonce);
    assert n < account.nonce + |pend|;
    if n > account.nonce {
      assert n - 1 in cut;
    }
    assert n !in cut;
  }

  lemma BelowIsPaid(pend: Pending, account: Account, n: nat)
    requires Covered(pend, account) && n in pend
    ensures Spent(Below(pend, n)) + Spends(pend[n]) <= account.balance
  {
    hide Run, Sum;
    var cut, more := Below(pend, n), Below(pend, n + 1);
    CutAt(pend, account, n + 1);
    assert more == cut[n := pend[n]];
    SumWith(cut, Spends, n, pend[n]);
  }

  /** With all its earlier transfers waiting, the next one passes the policy checks. */
  lemma NextIsAccepted(p: Params, policy: Policy, pend: Pending, a: Address, account: Account, n: nat)
    requires Acceptable(p, policy, pend, a, account) && n in pend
    ensures forall k :: k in Below(pend, n) ==> Below(pend, n)[k].tx.Transfer?
    ensures Refusal(policy, Below(pend, n), account, pend[n].tx).None?
  {
    hide Covered, Spent, TxSize, TotalSpent, FeeRate;
    BelowIsRun(pend, account, n);
    BelowIsPaid(pend, account, n);
  }

  lemma PlacedBytes(m: Entries, pending: Pending, e: Entry)
    requires e.tx.Transfer? && e.tx !in m
    requires e.tx.nonce in pending ==> pending[e.tx.nonce].tx in m
    ensures TotalBytes(Placed(m, pending, e)) <= TotalBytes(m) + e.size
  {
    if e.tx.nonce in pending {
      var t := pending[e.tx.nonce].tx;
      SumWithout(m, Size, t);
      SumWith(m - {t}, Size, e.tx, e);
    } else {
      SumWith(m, Size, e.tx, e);
    }
  }

  /** With room, an insertion either changes nothing or puts the transfer in its nonce's place. */
  lemma RoomyInsertion(p: Params, policy: Policy, rank: Transaction -> nat, state: Accounts,
                       m: Entries, e: Entry, n: Entries) returns (bySender: SenderIndex)
    requires e.tx.Transfer? && e.tx !in m && InsertedAmong(p, policy, rank, state, m, e, n)
    requires TotalBytes(m) + e.size <= policy.maxBytes
    ensures Indexed(p, m, bySender) && TotalBytes(n) <= TotalBytes(m) + e.size
    ensures var pending := PendingIn(bySender, Sender(p, e.tx));
      && (forall k :: k in pending ==>
          pending[k].tx.Transfer? && pending[k].tx in m && Sender(p, pending[k].tx) == Sender(p, e.tx))
      && var refused := Refusal(policy, pending, Ledger.Get(state, Sender(p, e.tx)), e.tx);
         n == if refused.Some? then m else Placed(m, pending, e)
  {
    hide Refusal, Indexed, TotalBytes, Placed;
    var idx :| Indexed(p, m, idx)
      && (forall k :: k in PendingIn(idx, Sender(p, e.tx)) ==> PendingIn(idx, Sender(p, e.tx))[k].tx.Transfer?)
      && Inserted(p, policy, rank, Ledger.Get(state, Sender(p, e.tx)), PendingIn(idx, Sender(p, e.tx)), m, e, n);
    bySender := idx;
    PendingEntries(p, m, idx, Sender(p, e.tx));
    PlacedBytes(m, PendingIn(idx, Sender(p, e.tx)), e);
  }

  lemma TailOf(q: seq<Entry>)
    requires q != [] && Distinct(q)
    ensures forall e :: e in q[1..] <==> e in q && e.tx != q[0].tx
  {
    assert q == [q[0]] + q[1..];
    forall e | e in q[1..]
      ensures e.tx != q[0].tx
    {
      var i :| 0 <= i < |q[1..]| && q[1..][i] == e;
      assert q[i + 1] == e;
    }
    forall e | e in q && e.tx != q[0].tx
      ensures e in q[1..]
    {
      var i :| 0 <= i < |q| && q[i] == e;
      assert q[1..][i - 1] == e;
    }
  }

  lemma SpreadPlaced(p: Params, pend: Pending, a: Address, m: Entries, q: seq<Entry>, next: nat)
    requires Transfers(q) && Sorted(p, q) && Distinct(q) && q != [] && Spread(p, pend, a, m, q, next)
    requires Sender(p, q[0].tx) == a && q[0].tx !in m
    requires forall n :: n in pend ==> pend[n].tx.Transfer? && pend[n].tx.nonce == n && Sender(p, pend[n].tx) == a
    ensures Spread(p, pend, a, m[q[0].tx := q[0]], q[1..], q[0].tx.nonce + 1)
  {
    TailOf(q);
    assert q[0] in q;
    forall n | n in pend && n >= next
      ensures n >= q[0].tx.nonce
      ensures n > q[0].tx.nonce ==> pend[n] in q[1..]
    {
      assert pend[n] in q;
      var i :| 0 <= i < |q| && q[i] == pend[n];
      assert i > 0 ==> Before(p, q[0], q[i]);
    }
    forall e | e in q[1..] && e.tx.Transfer? && Sender(p, e.tx) == a
      ensures e.tx.nonce > q[0].tx.nonce
    {
      assert pend[e.tx.nonce] == e && pend[q[0].tx.nonce] == q[0];
    }
  }

  /** The next transfer of the sender is inserted: it is the lowest one missing. */
  lemma SpreadTakes(p: Params, policy: Policy, pend: Pending, a: Address, account: Account,
                    m: Entries, bySender: SenderIndex, q: seq<Entry>, next: nat)
    requires Transfers(q) && Sorted(p, q) && Distinct(q) && q != [] && Spread(p, pend, a, m, q, next)
    requires Acceptable(p, policy, pend, a, account) && Indexed(p, m, bySender) && q[0].tx !in m
    requires Sender(p, q[0].tx) == a
    ensures var pending := PendingIn(bySender, a);
      && (forall k :: k in pending ==> pending[k].tx.Transfer?)
      && Refusal(policy, pending, account, q[0].tx).None?
      && Spread(p, pend, a, Placed(m, pending, q[0]), q[1..], q[0].tx.nonce + 1)
  {
    hide *;
    var e := q[0];
    assert e.tx.Transfer? by { FirstIsTransfer(q); }
    var pending := PendingIn(bySender, a);
    PendingEntries(p, m, bySender, a);
    PendingIsBelow(p, policy, pend, a, account, m, pending, q, next);
    NextIsAccepted(p, policy, pend, a, account, e.tx.nonce);
    AcceptableMeans(p, policy, pend, a, account);
    BelowIsRun(pend, account, e.tx.nonce);
    PlacedAnew(m, pending, e);
    SpreadPlaced(p, pend, a, m, q, next);
  }

  lemma FirstIsTransfer(q: seq<Entry>)
    requires Transfers(q) && q != []
    ensures q[0].tx.Transfer?
  {
  }

  lemma PlacedAnew(m: Entries, pending: Pending, e: Entry)
    requires e.tx.Transfer? && e.tx.nonce !in pending
    ensures Placed(m, pending, e) == m[e.tx := e]
  {
  }

  lemma AcceptableMeans(p: Params, policy: Policy, pend: Pending, a: Address, account: Account)
    requires Acceptable(p, policy, pend, a, account)
    ensures OwnNonces(pend) && Covered(pend, account)
    ensures forall n :: n in pend ==> pend[n].tx.Transfer? && pend[n].tx.nonce == n && Sender(p, pend[n].tx) == a
  {
  }

  lemma PendingIsBelow(p: Params, policy: Policy, pend: Pending, a: Address, account: Account,
                       m: Entries, pending: Pending, q: seq<Entry>, next: nat)
    requires Transfers(q) && Sorted(p, q) && q != [] && Spread(p, pend, a, m, q, next)
    requires Acceptable(p, policy, pend, a, account) && Sender(p, q[0].tx) == a
    requires OwnNonces(pending)
    requires forall n :: n in pending ==>
      pending[n].tx in m && m[pending[n].tx] == pending[n] && Sender(p, pending[n].tx) == a
    requires forall t :: t in m && t.Transfer? && Sender(p, t) == a ==> t.nonce in pending && pending[t.nonce] == m[t]
    ensures q[0].tx.nonce in pend && pend[q[0].tx.nonce] == q[0]
    ensures pending == Below(pend, q[0].tx.nonce)
  {
    hide Covered, TxSize;
    assert q[0] in q;
    forall n | n in pend && n >= next
      ensures n >= q[0].tx.nonce
    {
      assert pend[n] in q;
      var i :| 0 <= i < |q| && q[i] == pend[n];
      assert i > 0 ==> Before(p, q[0], q[i]);
    }
  }

  /** Another sender's candidate does not matter. */
  lemma SpreadSkips(p: Params, pend: Pending, a: Address, m: Entries, q: seq<Entry>, next: nat, pending: Pending,
                    n: Entries)
    requires Transfers(q) && Distinct(q) && q != [] && Spread(p, pend, a, m, q, next)
    requires q[0].tx !in m && Sender(p, q[0].tx) != a
    requires forall k :: k in pend ==> pend[k].tx.Transfer? && Sender(p, pend[k].tx) == a
    requires forall k :: k in pending ==>
      pending[k].tx.Transfer? && pending[k].tx in m && Sender(p, pending[k].tx) == Sender(p, q[0].tx)
    requires n == m || n == Placed(m, pending, q[0])
    ensures Spread(p, pend, a, n, q[1..], next)
  {
    TailOf(q);
  }

  /** Rechecking with room for everybody keeps the sender's transfers. */
  lemma {:induction false} ReinsertionKeeps(p: Params, policy: Policy, rank: Transaction -> nat, state: Accounts,
      confirmed: set<Transaction>, m: Entries, q: seq<Entry>, end: Entries, pend: Pending, a: Address, next: nat)
    requires Transfers(q) && Sorted(p, q) && Distinct(q) && Spread(p, pend, a, m, q, next)
    requires Acceptable(p, policy, pend, a, Ledger.Get(state, a))
    requires forall n :: n in pend ==> pend[n].tx !in confirmed
    requires Reinserts(p, policy, rank, state, confirmed, m, q, end)
    requires forall e :: e in q ==> e.tx !in m
    requires TotalBytes(m) + QueueBytes(q) <= policy.maxBytes
    ensures forall n :: n in pend ==> pend[n].tx in end && end[pend[n].tx] == pend[n]
    decreases |q|
  {
    hide *;
    AcceptableMeans(p, policy, pend, a, Ledger.Get(state, a));
    if q == [] {
      NothingLeft(p, policy, rank, state, confirmed, m, end, pend, a, next);
    } else {
      FirstIsTransfer(q);
      TailFacts(p, q);
      var n := ReinsertsStep(p, policy, rank, state, confirmed, m, q, end);
      var after := next;
      if q[0].tx in confirmed {
        NotOurs(p, pend, a, m, q, next, confirmed);
        SpreadSkips(p, pend, a, m, q, next, map[], m);
      } else {
        var bySender := RoomyInsertion(p, policy, rank, state, m, q[0], n);
        var pending := PendingIn(bySender, Sender(p, q[0].tx));
        PlacedWithin(m, pending, q[0]);
        if Sender(p, q[0].tx) == a {
          SpreadTakes(p, policy, pend, a, Ledger.Get(state, a), m, bySender, q, next);
          after := q[0].tx.nonce + 1;
        } else {
          SpreadSkips(p, pend, a, m, q, next, pending, n);
        }
      }
      ReinsertionKeeps(p, policy, rank, state, confirmed, n, q[1..], end, pend, a, after);
    }
  }

  lemma PlacedWithin(m: Entries, pending: Pending, e: Entry)
    requires e.tx.Transfer?
    ensures forall t :: t in Placed(m, pending, e) ==> t in m || t == e.tx
  {
  }

  lemma NotOurs(p: Params, pend: Pending, a: Address, m: Entries, q: seq<Entry>, next: nat, confirmed: set<Transaction>)
    requires Spread(p, pend, a, m, q, next) && q != [] && q[0].tx.Transfer? && q[0].tx in confirmed
    requires forall n :: n in pend ==> pend[n].tx !in confirmed
    ensures Sender(p, q[0].tx) != a
  {
    assert q[0] in q;
  }

  lemma ReinsertsStep(p: Params, policy: Policy, rank: Transaction -> nat, state: Accounts,
      confirmed: set<Transaction>, m: Entries, q: seq<Entry>, end: Entries) returns (n: Entries)
    requires Transfers(q) && q != [] && q[0].tx !in m
    requires Reinserts(p, policy, rank, state, confirmed, m, q, end)
    ensures q[0].tx in confirmed ==> n == m
    ensures q[0].tx !in confirmed ==> InsertedAmong(p, policy, rank, state, m, q[0], n)
    ensures Transfers(q[1..]) && Reinserts(p, policy, rank, state, confirmed, n, q[1..], end)
  {
    hide InsertedAmong;
    if q[0].tx in confirmed {
      n := m;
    } else {
      n :| InsertedAmong(p, policy, rank, state, m, q[0], n) &&
        Reinserts(p, policy, rank, state, confirmed, n, q[1..], end);
    }
  }

  lemma NothingLeft(p: Params, policy: Policy, rank: Transaction -> nat, state: Accounts,
      confirmed: set<Transaction>, m: Entries, end: Entries, pend: Pending, a: Address, next: nat)
    requires Spread(p, pend, a, m, [], next) && Reinserts(p, policy, rank, state, confirmed, m, [], end)
    ensures forall n :: n in pend ==> pend[n].tx in end && end[pend[n].tx] == pend[n]
  {
  }

  lemma TailFacts(p: Params, q: seq<Entry>)
    requires Transfers(q) && Sorted(p, q) && Distinct(q) && q != []
    ensures Transfers(q[1..]) && Sorted(p, q[1..]) && Distinct(q[1..])
    ensures QueueBytes(q) == q[0].size + QueueBytes(q[1..])
    ensures forall e :: e in q[1..] <==> e in q && e.tx != q[0].tx
  {
    TailOf(q);
  }

  // --- the bytes of a queue -----------------------------------------------------------------------------

  lemma {:induction false} QueueBytesAppend(q: seq<Entry>, r: seq<Entry>)
    ensures QueueBytes(q + r) == QueueBytes(q) + QueueBytes(r)
  {
    if q == [] {
      assert q + r == r;
    } else {
      assert (q + r)[1..] == q[1..] + r;
      QueueBytesAppend(q[1..], r);
    }
  }

  lemma {:induction false} InsertBytes(p: Params, q: seq<Entry>, e: Entry)
    requires Transfers(q) && e.tx.Transfer? && Sorted(p, q)
    ensures QueueBytes(InsertInto(p, q, e)) == QueueBytes(q) + e.size
  {
    if q != [] {
      var n := |q| - 1;
      QueueBytesAppend(q, [e]);
      QueueBytesAppend(q[..n], [q[n]]);
      assert q == q[..n] + [q[n]];
      if !Before(p, q[n], e) {
        InsertBytes(p, q[..n], e);
        QueueBytesAppend(InsertInto(p, q[..n], e), [q[n]]);
      }
    }
  }

  lemma {:induction false} SortBytes(p: Params, q: seq<Entry>)
    requires Transfers(q)
    ensures QueueBytes(StableSort(p, q)) == QueueBytes(q)
  {
    if q != [] {
      var n := |q| - 1;
      SortBytes(p, q[..n]);
      InsertBytes(p, StableSort(p, q[..n]), q[n]);
      QueueBytesAppend(q[..n], [q[n]]);
      assert q == q[..n] + [q[n]];
    }
  }

  lemma {:induction false} ListBytes(q: seq<Entry>, m: Entries)
    requires Lists(q, m) && forall t :: t in m ==> m[t].tx == t
    ensures QueueBytes(q) == TotalBytes(m)
    decreases |q|
  {
    if q == [] {
      assert m == map[];
    } else {
      var t := q[0].tx;
      var rest := m - {t};
      forall x | x in rest
        ensures rest[x] in q[1..]
      {
        assert m[x] in q;
        var i :| 0 <= i < |q| && q[i] == m[x];
        assert m[q[i].tx] == q[i];
      }
      ListBytes(q[1..], rest);
      SumWithout(m, Size, t);
    }
  }

  lemma {:induction false} SplitBytes(p: Params, m: Entries, senders: set<Address>)
    ensures TotalBytes(WithoutSenders(p, m, senders)) + TotalBytes(OfSenders(p, m, senders)) == TotalBytes(m)
    decreases |m|
  {
    var left, taken := WithoutSenders(p, m, senders), OfSenders(p, m, senders);
    if m == map[] {
      assert left == map[] && taken == map[];
    } else {
      var t :| t in m;
      OneFewer(m, t);
      SplitBytes(p, m - {t}, senders);
      SumWithout(m, Size, t);
      if t in left {
        SumWithout(left, Size, t);
        assert left - {t} == WithoutSenders(p, m - {t}, senders);
        assert taken == OfSenders(p, m - {t}, senders);
      } else {
        SumWithout(taken, Size, t);
        assert taken - {t} == OfSenders(p, m - {t}, senders);
        assert left == WithoutSenders(p, m - {t}, senders);
      }
    }
  }

  lemma {:induction false} ReturningBytes(returning: seq<Transaction>, now: real)
    ensures QueueBytes(Candidates(returning, now, [])) == SumSizes(returning)
  {
    if returning == [] {
    } else {
      var n := |returning| - 1;
      ReturningBytes(returning[..n], now);
      QueueBytesAppend(Candidates(returning[..n], now, []), [Back(returning[n], now)]);
      assert Candidates(returning, now, []) == Candidates(returning[..n], now, []) + [Back(returning[n], now)];
    }
  }

  // --- the theorem -----------------------------------------------------------------------------------------

  /** After an update with room for the waiting and the returning transfers alike, a sender whose
      confirmed account still covers its waiting transfers, none of them confirmed, has them all. */
  lemma UpdateKeepsCovered(p: Params, policy: Policy, rank: Transaction -> nat, m: Entries, bySender: SenderIndex,
                           senders: set<Address>, returning: seq<Transaction>, confirmed: set<Transaction>,
                           state: Accounts, now: real, end: Entries, a: Address)
    requires Indexed(p, m, bySender) && a in bySender
    requires UpdateOutcome(p, policy, rank, m, senders, returning, confirmed, state, now, end)
    requires NoneTwice(returning)
    requires forall tx :: tx in returning ==> tx.Transfer? && tx !in m && Sender(p, tx) != a
    requires Acceptable(p, policy, bySender[a], a, Ledger.Get(state, a))
    requires forall n :: n in bySender[a] ==> bySender[a][n].tx !in confirmed
    requires TotalBytes(m) + SumSizes(returning) <= policy.maxBytes
    ensures forall n :: n in bySender[a] ==> bySender[a][n].tx in end && end[bySender[a][n].tx] == bySender[a][n]
  {
    hide *;
    var waiting := OutcomeQueue(p, policy, rank, m, senders, returning, confirmed, state, now, end);
    var rest, q := WithoutSenders(p, m, senders), Candidates(returning, now, waiting);
    EntriesOwn(p, m, bySender);
    QueueFacts(p, m, senders, returning, waiting, now);
    SortKeepsMembers(p, q);
    SortKeepsDistinct(p, q);
    CandidatesBytes(p, m, senders, returning, waiting, now);
    SortBytes(p, q);
    PendingEntries(p, m, bySender, a);
    var next := StartSpread(p, m, bySender, senders, returning, waiting, now, a);
    ReinsertionKeeps(p, policy, rank, state, confirmed, rest, StableSort(p, q), end, bySender[a], a, next);
  }

  lemma OutcomeQueue(p: Params, policy: Policy, rank: Transaction -> nat, m: Entries,
                     senders: set<Address>, returning: seq<Transaction>, confirmed: set<Transaction>,
                     state: Accounts, now: real, end: Entries) returns (waiting: seq<Entry>)
    requires UpdateOutcome(p, policy, rank, m, senders, returning, confirmed, state, now, end)
    ensures Lists(waiting, OfSenders(p, m, senders)) && Transfers(Candidates(returning, now, waiting))
    ensures Reinserts(p, policy, rank, state, confirmed, WithoutSenders(p, m, senders),
                      StableSort(p, Candidates(returning, now, waiting)), end)
  {
    hide Reinserts, Lists;
    waiting :| Lists(waiting, OfSenders(p, m, senders))
      && Transfers(Candidates(returning, now, waiting))
      && Reinserts(p, policy, rank, state, confirmed, WithoutSenders(p, m, senders),
                   StableSort(p, Candidates(returning, now, waiting)), end);
  }

  lemma EntriesOwn(p: Params, m: Entries, bySender: SenderIndex)
    requires Indexed(p, m, bySender)
    ensures forall t :: t in m ==> t.Transfer? && m[t].tx == t
  {
    forall t | t in m
      ensures t.Transfer? && m[t].tx == t
    {
      EntryIsFiled(p, m, bySender, t);
    }
  }

  lemma QueueFacts(p: Params, m: Entries, senders: set<Address>, returning: seq<Transaction>, waiting: seq<Entry>,
                   now: real)
    requires NoneTwice(returning) && forall tx :: tx in returning ==> tx !in m
    requires Lists(waiting, OfSenders(p, m, senders))
    ensures var q := Candidates(returning, now, waiting);
      Distinct(q) && forall e :: e in q ==> e.tx !in WithoutSenders(p, m, senders)
  {
    var q := Candidates(returning, now, waiting);
    forall i | 0 <= i < |q|
      ensures q[i].tx !in WithoutSenders(p, m, senders)
      ensures i < |returning| ==> q[i].tx !in m
      ensures i >= |returning| ==> q[i].tx in m
    {
      if i < |returning| { assert q[i].tx in returning; } else { assert q[i] == waiting[i - |returning|]; }
    }
  }

  lemma CandidatesBytes(p: Params, m: Entries, senders: set<Address>, returning: seq<Transaction>,
                        waiting: seq<Entry>, now: real)
    requires Lists(waiting, OfSenders(p, m, senders)) && forall t :: t in m ==> m[t].tx == t
    ensures TotalBytes(WithoutSenders(p, m, senders)) + QueueBytes(Candidates(returning, now, waiting))
         == TotalBytes(m) + SumSizes(returning)
  {
    hide TotalBytes, Lists, QueueBytes;
    assert Candidates(returning, now, waiting) == Candidates(returning, now, []) + waiting;
    QueueBytesAppend(Candidates(returning, now, []), waiting);
    ReturningBytes(returning, now);
    ListBytes(waiting, OfSenders(p, m, senders));
    SplitBytes(p, m, senders);
  }

  /** Where the sender's transfers are when rechecking starts: all queued, or all waiting. */
  lemma StartSpread(p: Params, m: Entries, bySender: SenderIndex, senders: set<Address>, returning: seq<Transaction>,
                    waiting: seq<Entry>, now: real, a: Address) returns (next: nat)
    requires Indexed(p, m, bySender) && a in bySender && Lists(waiting, OfSenders(p, m, senders))
    requires Transfers(Candidates(returning, now, waiting))
    requires forall tx :: tx in returning ==> tx.Transfer? && Sender(p, tx) != a
    ensures Spread(p, bySender[a], a, WithoutSenders(p, m, senders),
                   StableSort(p, Candidates(returning, now, waiting)), next)
  {
    hide Indexed, StableSort;
    var rest, q, pend := WithoutSenders(p, m, senders), Candidates(returning, now, waiting), bySender[a];
    PendingEntries(p, m, bySender, a);
    LastOf(p, m, bySender, a);
    SortKeepsMembers(p, q);
    next := if a in senders then 0 else MaxNonce(pend) + 1;
    forall n | n in pend && a in senders
      ensures pend[n] in q
    {
      assert pend[n].tx in OfSenders(p, m, senders);
      assert pend[n] in waiting;
    }
    forall e | e in q && e.tx.Transfer? && Sender(p, e.tx) == a
      ensures a in senders && e.tx.nonce in pend && pend[e.tx.nonce] == e
    {
      assert e in waiting || e.tx in returning;
    }
  }

  // --- and what is confirmed leaves -----------------------------------------------------------------------

  lemma {:induction false} TrimmingOnlyRemoves(p: Params, rank: Transaction -> nat, limit: nat, m: Entries,
                                               end: Entries)
    requires ScanTrims(p, rank, limit, m, end)
    ensures Within(end, m)
    decreases |m|
  {
    hide IsCheapest, TotalBytes;
    if TotalBytes(m) > limit {
      var t :| IsCheapest(p, rank, m, t) && ScanTrims(p, rank, limit, m - {t}, end);
      CheapestIsIn(p, rank, m, t);
      OneFewer(m, t);
      TrimmingOnlyRemoves(p, rank, limit, m - {t}, end);
    }
  }

  lemma CheapestIsIn(p: Params, rank: Transaction -> nat, m: Entries, t: Transaction)
    requires IsCheapest(p, rank, m, t)
    ensures t in m
  {
  }

  lemma InsertionOnlyAdds(p: Params, policy: Policy, rank: Transaction -> nat, state: Accounts, m: Entries, e: Entry,
                          n: Entries)
    requires e.tx.Transfer? && InsertedAmong(p, policy, rank, state, m, e, n)
    ensures forall t :: t in n ==> t in m || t == e.tx
  {
    hide Refusal, Indexed, ScanTrims, Placed;
    var idx :| Indexed(p, m, idx)
      && (forall k :: k in PendingIn(idx, Sender(p, e.tx)) ==> PendingIn(idx, Sender(p, e.tx))[k].tx.Transfer?)
      && Inserted(p, policy, rank, Ledger.Get(state, Sender(p, e.tx)), PendingIn(idx, Sender(p, e.tx)), m, e, n);
    var pending := PendingIn(idx, Sender(p, e.tx));
    if Refusal(policy, pending, Ledger.Get(state, Sender(p, e.tx)), e.tx).None? {
      TrimmingOnlyRemoves(p, rank, policy.maxBytes, Placed(m, pending, e), n);
      PlacedWithin(m, pending, e);
    }
  }

  /** No transaction of the connected blocks waits after the update, if its sender is checked again. */
  lemma {:induction false} ConfirmedLeave(p: Params, policy: Policy, rank: Transaction -> nat, state: Accounts,
      confirmed: set<Transaction>, m: Entries, q: seq<Entry>, end: Entries)
    requires Transfers(q) && Reinserts(p, policy, rank, state, confirmed, m, q, end)
    requires forall t :: t in confirmed ==> t !in m
    ensures forall t :: t in confirmed ==> t !in end
    decreases |q|
  {
    hide InsertedAmong;
    if q != [] {
      if q[0].tx in confirmed || q[0].tx in m {
        ConfirmedLeave(p, policy, rank, state, confirmed, m, q[1..], end);
      } else {
        var n :| InsertedAmong(p, policy, rank, state, m, q[0], n) &&
          Reinserts(p, policy, rank, state, confirmed, n, q[1..], end);
        InsertionOnlyAdds(p, policy, rank, state, m, q[0], n);
        ConfirmedLeave(p, policy, rank, state, confirmed, n, q[1..], end);
      }
    }
  }

  /** What the connected blocks hold does not wait after an update. */
  lemma NoneConfirmedWaits(p: Params, policy: Policy, rank: Transaction -> nat, m: Entries, bySender: SenderIndex,
                           senders: set<Address>, returning: seq<Transaction>, confirmed: set<Transaction>,
                           state: Accounts, now: real, end: Entries)
    requires Indexed(p, m, bySender)
    requires UpdateOutcome(p, policy, rank, m, senders, returning, confirmed, state, now, end)
    requires forall t :: t in confirmed && t in m && t.Transfer? ==> Sender(p, t) in senders
    ensures forall t :: t in confirmed ==> t !in end
  {
    hide *;
    var waiting := OutcomeQueue(p, policy, rank, m, senders, returning, confirmed, state, now, end);
    EntriesOwn(p, m, bySender);
    ConfirmedAreOut(p, m, senders, confirmed);
    SortIsTransfers(p, Candidates(returning, now, waiting));
    ConfirmedLeave(p, policy, rank, state, confirmed, WithoutSenders(p, m, senders),
                   StableSort(p, Candidates(returning, now, waiting)), end);
  }

  /** With room for everybody, a transfer of a sender that is checked again and still covered stays if
      and only if no connected block holds it. */
  lemma StaysUnlessConfirmed(p: Params, policy: Policy, rank: Transaction -> nat, m: Entries, bySender: SenderIndex,
                             senders: set<Address>, returning: seq<Transaction>, confirmed: set<Transaction>,
                             state: Accounts, now: real, end: Entries, a: Address)
    requires Indexed(p, m, bySender) && a in bySender
    requires UpdateOutcome(p, policy, rank, m, senders, returning, confirmed, state, now, end)
    requires NoneTwice(returning)
    requires forall tx :: tx in returning ==> tx.Transfer? && tx !in m && Sender(p, tx) != a
    requires Acceptable(p, policy, bySender[a], a, Ledger.Get(state, a))
    requires forall t :: t in confirmed && t in m && t.Transfer? ==> Sender(p, t) in senders
    requires TotalBytes(m) + SumSizes(returning) <= policy.maxBytes
    ensures (forall n :: n in bySender[a] ==> bySender[a][n].tx in end)
       <==> (forall n :: n in bySender[a] ==> bySender[a][n].tx !in confirmed)
  {
    hide *;
    if forall n :: n in bySender[a] ==> bySender[a][n].tx !in confirmed {
      UpdateKeepsCovered(p, policy, rank, m, bySender, senders, returning, confirmed, state, now, end, a);
    } else {
      NoneConfirmedWaits(p, policy, rank, m, bySender, senders, returning, confirmed, state, now, end);
    }
  }

  lemma SortIsTransfers(p: Params, q: seq<Entry>)
    requires Transfers(q)
    ensures Transfers(StableSort(p, q))
  {
  }

  lemma ConfirmedAreOut(p: Params, m: Entries, senders: set<Address>, confirmed: set<Transaction>)
    requires forall t :: t in m ==> t.Transfer?
    requires forall t :: t in confirmed && t in m && t.Transfer? ==> Sender(p, t) in senders
    ensures forall t :: t in confirmed ==> t !in WithoutSenders(p, m, senders)
  {
  }
}
