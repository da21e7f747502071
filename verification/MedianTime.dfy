/**
 difficulty.median_time_past, and the timestamps a block's id commits to.
 */
module MedianTime {
  import opened Types

  function InsertTime(times: seq<nat>, t: nat): (r: seq<nat>)
    ensures |r| == |times| + 1
  {
    if times == [] || t < times[0] then [t] + times
    else [times[0]] + InsertTime(times[1..], t)
  }

  /** Python's sorted() on timestamps. */
  function SortTimes(times: seq<nat>): (r: seq<nat>)
    ensures |r| == |times|
  {
    if times == [] then [] else InsertTime(SortTimes(times[1..]), times[0])
  }

  function Median(times: seq<nat>): nat
    requires |times| > 0
  {
    SortTimes(times)[|times| / 2]
  }

  // --- what the median means ------------------------------------------------------------

  /** How many of these times are earlier than this one. */
  function Earlier(times: seq<nat>, t: nat): nat {
    if times == [] then 0 else (if times[0] < t then 1 else 0) + Earlier(times[1..], t)
  }

  predicate Sorted(times: seq<nat>) {
    forall i, j :: 0 <= i < j < |times| ==> times[i] <= times[j]
  }

  lemma {:induction false} InsertKeeps(times: seq<nat>, x: nat, t: nat)
    ensures Earlier(InsertTime(times, x), t) == Earlier(times, t) + if x < t then 1 else 0
    ensures multiset(InsertTime(times, x)) == multiset(times) + multiset{x}
  {
    if times == [] || x < times[0] {
      assert ([x] + times)[1..] == times;
    } else {
      InsertKeeps(times[1..], x, t);
      assert times == [times[0]] + times[1..];
      assert ([times[0]] + InsertTime(times[1..], x))[1..] == InsertTime(times[1..], x);
    }
  }

  lemma {:induction false} InsertSorts(times: seq<nat>, x: nat)
    requires Sorted(times)
    ensures Sorted(InsertTime(times, x))
  {
    if times != [] && times[0] <= x {
      InsertSorts(times[1..], x);
      var r := InsertTime(times[1..], x);
      InsertKeeps(times[1..], x, 0);
      forall j | 0 <= j < |r|
        ensures times[0] <= r[j]
      {
        assert r[j] in multiset(r);
        assert r[j] == x || r[j] in times[1..];
      }
    }
  }

  lemma {:induction false} SortFacts(times: seq<nat>, t: nat)
    ensures Sorted(SortTimes(times)) && multiset(SortTimes(times)) == multiset(times)
    ensures Earlier(SortTimes(times), t) == Earlier(times, t)
  {
    if times != [] {
      SortFacts(times[1..], t);
      InsertSorts(SortTimes(times[1..]), times[0]);
      InsertKeeps(SortTimes(times[1..]), times[0], t);
      assert times == [times[0]] + times[1..];
    }
  }

  /** In a sorted list, entry k is earlier than t exactly if more than k are. */
  lemma {:induction false} EarlierInSorted(times: seq<nat>, t: nat, k: nat)
    requires Sorted(times) && k < |times|
    ensures times[k] < t <==> Earlier(times, t) > k
    ensures Earlier(times, t) <= |times|
    decreases |times|
  {
    if k > 0 {
      EarlierInSorted(times[1..], t, k - 1);
    } else if |times| > 1 {
      EarlierInSorted(times[1..], t, 0);
    } else {
      assert Earlier(times[1..], t) == 0;
    }
  }

  /** A time is after the median exactly if more than half of the times are earlier, whatever their order. */
  lemma AfterMedian(times: seq<nat>, t: nat)
    requires times != []
    ensures Median(times) < t <==> 2 * Earlier(times, t) > |times|
  {
    SortFacts(times, t);
    EarlierInSorted(SortTimes(times), t, |times| / 2);
  }

  /** The median is one of the times. */
  lemma MedianIsOne(times: seq<nat>)
    requires times != []
    ensures Median(times) in times
  {
    SortFacts(times, 0);
    assert SortTimes(times)[|times| / 2] in multiset(SortTimes(times));
  }

  /** Timestamps of the block with this id and its ancestors, newest first, at most `span` of them. */
  function RecentTimes(id: Digest, span: nat): (r: seq<nat>)
    ensures span > 0 && id.HeaderHash? ==> |r| > 0
    decreases span
  {
    if span == 0 || !id.HeaderHash? then []
    else
      [id.header.timestamp] +
      if id.header.height > 0 then RecentTimes(id.header.prevId, span - 1) else []
  }

  function MedianTimePast(header: BlockHeader, p: Params): nat
    requires p.medianTimeSpan >= 1
  {
    Median(RecentTimes(HeaderHash(header), p.medianTimeSpan))
  }
}
