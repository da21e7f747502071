/**
 snapshot.py: the fingerprint of every balance, and which block must carry which one.
 */
module Snapshot {
  import opened Types
  import Merkle

  type Item = (Address, Account)

  ghost function Min(s: set<nat>): (m: nat)
    requires s != {}
    ensures m in s && forall x :: x in s ==> m <= x
  {
    var x :| x in s;
    if s == {x} then x
    else
      var rest := Min(s - {x});
      assert forall y :: y in s ==> y == x || y in s - {x};
      if x <= rest then x else rest
  }

  /** The elements of a finite set, smallest first. */
  ghost function SortedKeys(s: set<nat>): (r: seq<nat>)
    ensures Ascending(r)
    ensures forall x :: x in r <==> x in s
  {
    if s == {} then [] else [Min(s)] + SortedKeys(s - {Min(s)})
  }

  ghost predicate Ascending(keys: seq<nat>) {
    forall i, j :: 0 <= i < j < |keys| ==> keys[i] < keys[j]
  }

  lemma TailMembers(a: seq<nat>)
    requires Ascending(a) && a != []
    ensures forall x :: x in a[1..] <==> x in a && x != a[0]
    ensures Ascending(a[1..])
  {
    assert a == [a[0]] + a[1..];
  }

  lemma SameHead(a: seq<nat>, b: seq<nat>)
    requires Ascending(a) && Ascending(b) && a != [] && b != []
    requires forall x :: x in a <==> x in b
    ensures a[0] == b[0]
  {
    assert a[0] in b && b[0] in a;
  }

  lemma {:induction false} AscendingUnique(a: seq<nat>, b: seq<nat>)
    requires Ascending(a) && Ascending(b)
    requires forall x :: x in a <==> x in b
    ensures a == b
  {
    hide Ascending;
    SomethingIn(a);
    SomethingIn(b);
    if a != [] && b != [] {
      SameHead(a, b);
      TailMembers(a);
      TailMembers(b);
      AscendingUnique(a[1..], b[1..]);
      assert a == [a[0]] + a[1..] && b == [b[0]] + b[1..];
    }
  }

  ghost function AccountLeaves(keys: seq<nat>, accounts: Accounts): (r: seq<Leaf>)
    requires forall k :: k in keys ==> k in accounts
    ensures |r| == |keys|
    ensures forall i :: 0 <= i < |keys| ==> r[i] == AccountLeaf(keys[i], accounts[keys[i]])
  {
    seq(|keys|, i requires 0 <= i < |keys| => AccountLeaf(keys[i], accounts[keys[i]]))
  }

  /** The fingerprint of an account table: the tree over its records in address order. */
  ghost function StateRoot(accounts: Accounts): Digest {
    var keys := SortedKeys(accounts.Keys);
    if keys == [] then EmptyHash else Merkle.Root(AccountLeaves(keys, accounts))
  }

  /** Equal fingerprints mean equal account tables. */
  lemma StateRootInjective(a: Accounts, b: Accounts)
    requires StateRoot(a) == StateRoot(b)
    ensures a == b
  {
    hide Merkle.Root, SortedKeys;
    var ka, kb := SortedKeys(a.Keys), SortedKeys(b.Keys);
    var la, lb := AccountLeaves(ka, a), AccountLeaves(kb, b);
    if ka == [] || kb == [] {
      RootIsNotEmptyHash(if ka == [] then lb else la);
      assert a.Keys == {} by { assert forall x :: x in a ==> x in ka; }
      assert b.Keys == {} by { assert forall x :: x in b ==> x in kb; }
    } else {
      Merkle.TreeHashInjective(la, lb);
      assert forall i :: 0 <= i < |ka| ==> la[i] == lb[i];
      assert ka == kb;
      assert a.Keys == b.Keys by {
        assert forall x :: x in a.Keys <==> x in ka;
        assert forall x :: x in b.Keys <==> x in kb;
      }
      forall x | x in a
        ensures a[x] == b[x]
      {
        assert x in ka;
        var i :| 0 <= i < |ka| && ka[i] == x;
        assert la[i] == lb[i];
      }
    }
  }

  lemma RootIsNotEmptyHash(leaves: seq<Leaf>)
    ensures |leaves| > 0 ==> Merkle.Root(leaves) != EmptyHash
  {
  }

  // --- the function as written: any listing, filtered, sorted, checked for repeats -------

  predicate ByAddress(items: seq<Item>) {
    forall i, j :: 0 <= i < j < |items| ==> items[i].0 <= items[j].0
  }

  /** The non-empty accounts of a listing. */
  function NonEmptyOf(items: seq<Item>): (r: seq<Item>)
    ensures forall x :: x in r <==> x in items && x.1 != EMPTY_ACCOUNT
  {
    if items == [] then []
    else
      var n := |items| - 1;
      assert items == items[..n] + [items[n]];
      if items[n].1 == EMPTY_ACCOUNT then NonEmptyOf(items[..n]) else NonEmptyOf(items[..n]) + [items[n]]
  }

  method NonEmpty(items: seq<Item>) returns (r: seq<Item>)
    ensures r == NonEmptyOf(items)
  {
    r := [];
    for i := 0 to |items|
      invariant r == NonEmptyOf(items[..i])
    {
      assert items[..i + 1][..i] == items[..i];
      if items[i].1 != EMPTY_ACCOUNT { r := r + [items[i]]; }
    }
    assert items[..|items|] == items;
  }

  /** Python's sorted(key=address): an insertion that keeps equal keys in order. */
  function InsertItem(items: seq<Item>, x: Item): (r: seq<Item>)
    requires ByAddress(items)
    ensures ByAddress(r)
    ensures forall y :: y in r <==> y in items || y == x
    ensures |r| == |items| + 1
  {
    if items == [] || x.0 < items[0].0 then [x] + items
    else
      var r := InsertItem(items[1..], x);
      assert forall j :: 0 <= j < |r| ==> r[j] in r;
      assert items == [items[0]] + items[1..];
      [items[0]] + r
  }

  function SortItems(items: seq<Item>): (r: seq<Item>)
    ensures ByAddress(r)
    ensures forall y :: y in r <==> y in items
  {
    if items == [] then []
    else
      assert items == items[..|items| - 1] + [items[|items| - 1]];
      InsertItem(SortItems(items[..|items| - 1]), items[|items| - 1])
  }

  predicate Distinct(items: seq<Item>) {
    forall i, j :: 0 <= i < j < |items| ==> items[i].0 != items[j].0
  }

  /** Two non-empty accounts are listed under one address. */
  predicate Repeats(items: seq<Item>) { !Distinct(NonEmptyOf(items)) }

  /** The listing gives every record of the table once, and empty records besides. */
  predicate Lists(items: seq<Item>, accounts: Accounts) {
    && !Repeats(items)
    && (forall x :: x in items && x.1 != EMPTY_ACCOUNT ==> x.0 in accounts && accounts[x.0] == x.1)
    && (forall a :: a in accounts ==> accounts[a] != EMPTY_ACCOUNT && (a, accounts[a]) in items)
  }

  lemma DistinctSnoc(items: seq<Item>, x: Item)
    ensures Distinct(items + [x]) <==> Distinct(items) && forall y :: y in items ==> y.0 != x.0
  {
    var all := items + [x];
    assert forall k :: 0 <= k < |items| ==> all[k] == items[k];
    assert Distinct(all) ==> forall k :: 0 <= k < |items| ==> all[k].0 != all[|items|].0;
    if Distinct(all) {
      forall i, j | 0 <= i < j < |items|
        ensures items[i].0 != items[j].0
      {
        assert all[i].0 != all[j].0;
      }
    }
  }

  lemma {:induction false} InsertDistinct(items: seq<Item>, x: Item)
    requires ByAddress(items)
    ensures Distinct(InsertItem(items, x)) <==> Distinct(items) && forall y :: y in items ==> y.0 != x.0
  {
    var all := InsertItem(items, x);
    if items != [] && items[0].0 <= x.0 {
      InsertDistinct(items[1..], x);
      var r := InsertItem(items[1..], x);
      DistinctCons(items[0], items[1..]);
      DistinctCons(items[0], r);
      assert items == [items[0]] + items[1..];
    } else {
      DistinctCons(x, items);
    }
  }

  lemma DistinctCons(x: Item, items: seq<Item>)
    ensures Distinct([x] + items) <==> Distinct(items) && forall y :: y in items ==> y.0 != x.0
  {
    var all := [x] + items;
    assert forall k :: 0 <= k < |items| ==> all[k + 1] == items[k];
    assert Distinct(all) ==> forall k :: 0 <= k < |items| ==> items[k].0 != all[0].0;
    if Distinct(all) {
      forall i, j | 0 <= i < j < |items|
        ensures items[i].0 != items[j].0
      {
        assert all[i + 1].0 != all[j + 1].0;
      }
    }
  }

  lemma {:induction false} SortDistinct(items: seq<Item>)
    ensures Distinct(SortItems(items)) <==> Distinct(items)
  {
    hide Distinct, InsertItem;
    if items != [] {
      var n := |items| - 1;
      var init := items[..n];
      SortDistinct(init);
      InsertDistinct(SortItems(init), items[n]);
      DistinctSnoc(init, items[n]);
      assert items == init + [items[n]];
    }
  }

  lemma {:induction false} DistinctNeverRepeats(items: seq<Item>)
    requires Distinct(items)
    ensures !Repeats(items)
  {
    if items != [] {
      var n := |items| - 1;
      assert items == items[..n] + [items[n]];
      DistinctSnoc(items[..n], items[n]);
      DistinctNeverRepeats(items[..n]);
      DistinctSnoc(NonEmptyOf(items[..n]), items[n]);
    }
  }

  predicate NeighboursDiffer(items: seq<Item>, end: nat) {
    forall k :: 1 <= k < end && k < |items| ==> items[k - 1].0 != items[k].0
  }

  lemma EqualNeighbours(items: seq<Item>, k: nat)
    requires 1 <= k < |items| && items[k - 1].0 == items[k].0
    ensures !Distinct(items)
  {
  }

  lemma NoEqualNeighbours(items: seq<Item>)
    requires ByAddress(items)
    ensures NeighboursDiffer(items, |items|) ==> Distinct(items)
  {
    if NeighboursDiffer(items, |items|) {
      forall i, j | 0 <= i < j < |items|
        ensures items[i].0 != items[j].0
      {
        assert items[i].0 <= items[j - 1].0;
        assert items[j - 1].0 != items[j].0;
      }
    }
  }

  lemma SortedNonEmpty(items: seq<Item>)
    ensures ByAddress(SortItems(NonEmptyOf(items)))
    ensures forall x :: x in SortItems(NonEmptyOf(items)) <==> x in items && x.1 != EMPTY_ACCOUNT
  {
    hide ByAddress;
  }

  lemma RepeatsMeans(items: seq<Item>, accounts: Accounts)
    ensures Repeats(items) <==> !Distinct(NonEmptyOf(items))
    ensures Lists(items, accounts) ==> !Repeats(items)
  {
  }

  /** snapshot.state_root: whatever the listing order, the fingerprint of the table it lists. None stands for the
      ValueError raised exactly if two non-empty accounts are listed under one address. */
  method ComputeStateRoot(items: seq<Item>, ghost accounts: Accounts) returns (root: Option<Digest>)
    ensures root == None <==> Repeats(items)
    ensures Lists(items, accounts) ==> root == Some(StateRoot(accounts))
  {
    hide Distinct, Repeats, Lists, ByAddress, Merkle.Root, SortItems, NonEmptyOf;
    var filtered := NonEmpty(items);
    var ordered := SortItems(filtered);
    SortedNonEmpty(items);
    RepeatsMeans(items, accounts);
    SortDistinct(filtered);
    var i := 1;
    while i < |ordered|
      invariant i >= 1 && NeighboursDiffer(ordered, i)
    {
      if ordered[i - 1].0 == ordered[i].0 {
        EqualNeighbours(ordered, i);
        return None;
      }
      i := i + 1;
    }
    NoEqualNeighbours(ordered);
    ghost var listed := Lists(items, accounts);
    if listed {
      SortedListingIsCanonical(ordered, items, accounts);
    }
    if ordered == [] {
      return Some(EmptyHash);
    }
    var leaves := seq(|ordered|, i requires 0 <= i < |ordered| => AccountLeaf(ordered[i].0, ordered[i].1));
    var r := Merkle.MerkleRoot(leaves);
    if listed {
      assert leaves == AccountLeaves(SortedKeys(accounts.Keys), accounts);
    }
    root := Some(r);
  }

  /** What a listing without repeats holds, besides empty records. */
  lemma ListedRecords(items: seq<Item>, accounts: Accounts)
    requires Lists(items, accounts)
    ensures forall x :: x in items && x.1 != EMPTY_ACCOUNT ==> x.0 in accounts && accounts[x.0] == x.1
    ensures forall a :: a in accounts ==> accounts[a] != EMPTY_ACCOUNT && (a, accounts[a]) in items
  {
    hide Repeats;
  }

  lemma AddressesAscend(ordered: seq<Item>, keys: seq<nat>)
    requires ByAddress(ordered) && Distinct(ordered)
    requires |keys| == |ordered| && forall i :: 0 <= i < |keys| ==> keys[i] == ordered[i].0
    ensures Ascending(keys)
  {
  }

  lemma SortedListingIsCanonical(ordered: seq<Item>, items: seq<Item>, accounts: Accounts)
    requires Lists(items, accounts) && ByAddress(ordered) && Distinct(ordered)
    requires forall x :: x in ordered <==> x in items && x.1 != EMPTY_ACCOUNT
    ensures |SortedKeys(accounts.Keys)| == |ordered|
    ensures forall i :: 0 <= i < |ordered| ==>
      ordered[i].0 == SortedKeys(accounts.Keys)[i] && ordered[i].0 in accounts && ordered[i].1 == accounts[ordered[i].0]
  {
    hide NonEmptyOf, Repeats, Lists, ByAddress, Distinct, Ascending;
    ListedRecords(items, accounts);
    var keys := seq(|ordered|, i requires 0 <= i < |ordered| => ordered[i].0);
    AddressesAscend(ordered, keys);
    forall a
      ensures a in keys <==> a in SortedKeys(accounts.Keys)
    {
      if a in accounts {
        assert (a, accounts[a]) in ordered;
        var i :| 0 <= i < |ordered| && ordered[i] == (a, accounts[a]);
        assert keys[i] == a;
      }
      if a in keys {
        var i :| 0 <= i < |keys| && keys[i] == a;
        assert ordered[i] in ordered;
      }
    }
    AscendingUnique(keys, SortedKeys(accounts.Keys));
    forall i | 0 <= i < |ordered|
      ensures ordered[i].0 == keys[i] && ordered[i].0 in accounts && ordered[i].1 == accounts[ordered[i].0]
    {
      assert ordered[i] in ordered;
    }
  }

  // --- which block carries which snapshot ----------------------------------------------

  /** The state after this block is a snapshot: it is the last block of a chunk. */
  predicate IsSnapshotPoint(height: nat, p: Params)
    requires p.chunkSize > 0
  {
    (height + 1) % p.chunkSize == 0
  }

  /** The snapshot the block at `height` must commit to: the last one at least `snapshotDelay` blocks back, if any. */
  function SnapshotHeight(height: nat, p: Params): (r: Option<nat>)
    requires ValidParams(p)
    ensures r.Some? ==> r.value < height && IsSnapshotPoint(r.value, p) && r.value + 1 + p.snapshotDelay <= height
    ensures forall s: nat :: IsSnapshotPoint(s, p) && s + 1 + p.snapshotDelay <= height ==> r.Some? && s <= r.value
  {
    if height < p.snapshotDelay then None
    else
      var finished := (height - p.snapshotDelay) / p.chunkSize;
      NoLaterPoint(finished, p, height - p.snapshotDelay);
      if finished < 1 then None
      else
        SnapshotPointOfChunk(finished, p.chunkSize, height - p.snapshotDelay);
        Some(finished * p.chunkSize - 1)
  }

  /** Every snapshot point is the end of one of the finished chunks. */
  lemma NoLaterPoint(finished: nat, p: Params, offset: nat)
    requires p.chunkSize >= 2 && finished == offset / p.chunkSize
    ensures forall s: nat :: IsSnapshotPoint(s, p) && s + 1 <= offset ==> s + 1 <= finished * p.chunkSize
  {
    forall s: nat | IsSnapshotPoint(s, p) && s + 1 <= offset
      ensures s + 1 <= finished * p.chunkSize
    {
      var q := (s + 1) / p.chunkSize;
      assert s + 1 == q * p.chunkSize;
      QuotientGrows(s + 1, offset, p.chunkSize);
      ProductGrows(q, finished, p.chunkSize);
    }
  }

  lemma QuotientGrows(a: nat, b: nat, d: nat)
    requires a <= b && d > 0
    ensures a / d <= b / d
  {
    Quotient(a, d);
    Quotient(b, d);
    if a / d > b / d { ProductGrows(b / d + 1, a / d, d); }
  }

  lemma ProductGrows(a: nat, b: nat, d: nat)
    requires a <= b
    ensures a * d <= b * d
  {
  }

  lemma SnapshotPointOfChunk(finished: nat, size: nat, offset: nat)
    requires size >= 2 && finished == offset / size && finished >= 1
    ensures 1 <= finished * size <= offset
    ensures (finished * size) % size == 0
  {
    assert offset == finished * size + offset % size;
    assert finished * size == (finished - 1) * size + size;
    assert (finished - 1) * size >= 0;
    MultipleHasNoRemainder(finished, size);
  }

  lemma MultipleHasNoRemainder(n: nat, size: nat)
    requires size > 0
    ensures (n * size) % size == 0
  {
    var q, r := (n * size) / size, (n * size) % size;
    assert (n - q) * size == r by { assert n * size == q * size + r; }
    if n > q {
      AtLeastOneSize(n - q, size);
      assert false;
    }
  }

  lemma AtLeastOneSize(k: nat, size: nat)
    requires k >= 1
    ensures k * size >= size
  {
  }
}
