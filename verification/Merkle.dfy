/**
 hashing.merkle_root: the bottom-up pairing loop, proved to compute the recursive tree hash
 of section 2.1 of RFC 6962, and proved to commit to its leaves.
 */
module Merkle {
  import opened Types

  lemma DoubleIsEven(k: nat)
    ensures (k + k) % 2 == 0
  {
  }

  /** The largest power of two strictly below n. */
  function SplitPoint(n: nat): (k: nat)
    requires n >= 2
    ensures 1 <= k < n <= 2 * k
    ensures n > 2 ==> k % 2 == 0 && n - k >= 1
  {
    if n == 2 then 1
    else
      var half := SplitPoint((n + 1) / 2);
      DoubleIsEven(half);
      half + half
  }

  /** MTH of RFC 6962, over leaf hashes already computed. */
  function TreeHash(level: seq<Digest>): Digest
    requires |level| > 0
    decreases |level|
  {
    if |level| == 1 then level[0]
    else
      var k := SplitPoint(|level|);
      NodeHash(TreeHash(level[..k]), TreeHash(level[k..]))
  }

  function LeafHashes(leaves: seq<Leaf>): (r: seq<Digest>)
    ensures |r| == |leaves|
    ensures forall i :: 0 <= i < |leaves| ==> r[i] == LeafHash(leaves[i])
  {
    seq(|leaves|, i requires 0 <= i < |leaves| => LeafHash(leaves[i]))
  }

  /** The Merkle root as RFC 6962 defines it. */
  function Root(leaves: seq<Leaf>): Digest
    requires |leaves| > 0
  {
    TreeHash(LeafHashes(leaves))
  }

  /** One round of the loop: neighbours hashed in pairs, an odd last node carried up. */
  function PairUp(level: seq<Digest>): (r: seq<Digest>)
    ensures |r| == (|level| + 1) / 2
    ensures forall i :: 0 <= i < |level| / 2 ==> r[i] == NodeHash(level[2 * i], level[2 * i + 1])
    ensures |level| % 2 == 1 ==> r[|level| / 2] == level[|level| - 1]
  {
    seq((|level| + 1) / 2, i requires 0 <= i < (|level| + 1) / 2 =>
      if 2 * i + 1 < |level| then NodeHash(level[2 * i], level[2 * i + 1]) else level[2 * i])
  }

  lemma PairUpSplits(level: seq<Digest>, k: nat)
    requires k % 2 == 0 && k <= |level|
    ensures PairUp(level)[..k / 2] == PairUp(level[..k])
    ensures PairUp(level)[k / 2..] == PairUp(level[k..])
  {
    assert (|level| + 1) / 2 - k / 2 == (|level| - k + 1) / 2;
    forall i | 0 <= i < (|level| - k + 1) / 2
      ensures PairUp(level)[k / 2..][i] == PairUp(level[k..])[i]
    {
      assert 2 * (k / 2 + i) == k + 2 * i;
    }
  }

  /** Pairing up neighbours does not change the RFC 6962 hash. */
  lemma {:induction false} PairUpKeepsTreeHash(level: seq<Digest>)
    requires |level| >= 2
    ensures TreeHash(PairUp(level)) == TreeHash(level)
    decreases |level|
  {
    var n := |level|;
    var k := SplitPoint(n);
    if n == 2 {
      assert PairUp(level) == [NodeHash(level[0], level[1])];
      assert level[..1] == [level[0]] && level[1..] == [level[1]];
    } else {
      var left, right := level[..k], level[k..];
      PairUpSplits(level, k);
      var paired := PairUp(level);
      assert SplitPoint(|paired|) == k / 2;
      assert TreeHash(paired) == NodeHash(TreeHash(paired[..k / 2]), TreeHash(paired[k / 2..]));
      PairUpKeepsTreeHash(left);
      if |right| >= 2 {
        PairUpKeepsTreeHash(right);
      } else {
        assert PairUp(right) == right;
      }
    }
  }

  /** The body of the loop: the next level, pair by pair. */
  method PairLevel(level: seq<Digest>) returns (paired: seq<Digest>)
    ensures paired == PairUp(level)
  {
    paired := [];
    ghost var full := PairUp(level);
    for i := 0 to |level| / 2
      invariant paired == full[..i]
    {
      paired := paired + [NodeHash(level[2 * i], level[2 * i + 1])];
    }
    if |level| % 2 == 1 {
      paired := paired + [level[|level| - 1]];
    }
  }

  /** hashing.merkle_root: the loop over levels computes exactly the RFC 6962 root. */
  method MerkleRoot(leaves: seq<Leaf>) returns (root: Digest)
    requires |leaves| > 0
    ensures root == Root(leaves)
  {
    var level := LeafHashes(leaves);
    while |level| > 1
      invariant |level| > 0
      invariant TreeHash(level) == Root(leaves)
      decreases |level|
    {
      PairUpKeepsTreeHash(level);
      level := PairLevel(level);
    }
    root := level[0];
  }

  /** Whatever the shapes, equal tree hashes of leaf hashes come from equal leaf lists. */
  lemma {:induction false} TreeHashInjective(a: seq<Leaf>, b: seq<Leaf>)
    requires |a| > 0 && |b| > 0
    requires Root(a) == Root(b)
    ensures a == b
    decreases |a|
  {
    if |a| == 1 || |b| == 1 {
      assert |a| == 1 && |b| == 1;
      assert LeafHashes(a)[0] == LeafHashes(b)[0];
    } else {
      var j, k := SplitPoint(|a|), SplitPoint(|b|);
      assert LeafHashes(a)[..j] == LeafHashes(a[..j]) && LeafHashes(a)[j..] == LeafHashes(a[j..]);
      assert LeafHashes(b)[..k] == LeafHashes(b[..k]) && LeafHashes(b)[k..] == LeafHashes(b[k..]);
      TreeHashInjective(a[..j], b[..k]);
      TreeHashInjective(a[j..], b[k..]);
      assert a == a[..j] + a[j..];
      assert b == b[..k] + b[k..];
    }
  }

  /** block.compute_merkle_root: the tree over the transaction ids. */
  function TxLeaves(txs: seq<Transaction>): (r: seq<Leaf>)
    ensures |r| == |txs|
    ensures forall i :: 0 <= i < |txs| ==> r[i] == IdLeaf(TxHash(txs[i]))
  {
    seq(|txs|, i requires 0 <= i < |txs| => IdLeaf(TxHash(txs[i])))
  }

  function TxRoot(txs: seq<Transaction>): Digest
    requires |txs| > 0
  {
    Root(TxLeaves(txs))
  }

  /** A header's merkle root fixes the whole list of transactions. */
  lemma TxRootInjective(a: seq<Transaction>, b: seq<Transaction>)
    requires |a| > 0 && |b| > 0
    requires TxRoot(a) == TxRoot(b)
    ensures a == b
  {
    TreeHashInjective(TxLeaves(a), TxLeaves(b));
    forall i | 0 <= i < |a|
      ensures a[i] == b[i]
    {
      assert TxLeaves(a)[i] == TxLeaves(b)[i];
    }
  }
}
