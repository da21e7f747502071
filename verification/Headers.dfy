/**
 chain.check_headers: checking headers before their blocks, on a rolling tip, is the same as walking
 the stored chain each time.
 */
module Headers {
  import opened Types
  import opened Ledger
  import opened ChainState
  import opened MedianTime
  import Chain
  import Importing
  import Switching
  import Receiving

  /** Where checking headers has come to: the last header, its chain work and the recent times, newest first. */
  datatype HeaderTip = HeaderTip(header: BlockHeader, chainWork: nat, recentTimes: seq<nat>)

  /** What walking back from this header gives. */
  ghost function TipAt(p: Params, header: BlockHeader): HeaderTip {
    HeaderTip(header, Work(HeaderHash(header)), RecentTimes(HeaderHash(header), p.medianTimeSpan))
  }

  lemma {:induction false} FewerTimes(id: Digest, span: nat)
    ensures |RecentTimes(id, span)| <= span
    ensures span >= 1 ==>
      RecentTimes(id, span - 1) ==
        (if |RecentTimes(id, span)| > span - 1 then RecentTimes(id, span)[..span - 1] else RecentTimes(id, span))
    decreases span
  {
    if span >= 1 && id.HeaderHash? && id.header.height > 0 {
      FewerTimes(id.header.prevId, span - 1);
    }
  }

  /** Python's times[:n] */
  function FirstTimes(times: seq<nat>, n: nat): seq<nat> {
    if n <= |times| then times[..n] else times
  }

  function NextTip(p: Params, tip: HeaderTip, h: BlockHeader): HeaderTip
    requires p.medianTimeSpan >= 1
  {
    HeaderTip(h, tip.chainWork + BlockWork(h.target),
              [h.timestamp] + FirstTimes(tip.recentTimes, p.medianTimeSpan - 1))
  }

  /** Rolling one header on is walking back from it. */
  lemma RollingIsWalking(p: Params, parent: BlockHeader, h: BlockHeader)
    requires p.medianTimeSpan >= 1 && h.height > 0 && h.prevId == HeaderHash(parent)
    ensures NextTip(p, TipAt(p, parent), h) == TipAt(p, h)
  {
    hide BlockWork;
    FewerTimes(HeaderHash(parent), p.medianTimeSpan);
  }

  /** Every rule a header must meet against its parent, proof of work aside. */
  ghost predicate FitsUnmined(p: Params, h: BlockHeader)
    requires ValidParams(p)
  {
    && h.version == BLOCK_VERSION && h.prevId.HeaderHash?
    && var parent := h.prevId.header;
      CheckHeaderAgainstParent(h, parent, MedianTimePast(parent, p), p.nextTarget(parent), p, false).None?
  }

  function Preceding(from: BlockHeader, headers: seq<BlockHeader>, i: nat): BlockHeader
    requires i <= |headers|
  {
    if i == 0 then from else headers[i - 1]
  }

  /** Each of these headers follows the one before, the first one `from`, and meets the rules there. */
  ghost predicate Follow(p: Params, from: BlockHeader, headers: seq<BlockHeader>)
    requires ValidParams(p)
  {
    && (forall i :: 0 <= i < |headers| ==> FitsUnmined(p, headers[i]))
    && (forall i :: 0 <= i < |headers| ==>
        headers[i].prevId == HeaderHash(Preceding(from, headers, i)))
  }

  lemma FollowMore(p: Params, from: BlockHeader, headers: seq<BlockHeader>, h: BlockHeader)
    requires ValidParams(p) && Follow(p, from, headers) && FitsUnmined(p, h)
    requires h.prevId == HeaderHash(Preceding(from, headers, |headers|))
    ensures Follow(p, from, headers + [h])
  {
    hide FitsUnmined;
    var more := headers + [h];
    forall i | 0 <= i < |more|
      ensures FitsUnmined(p, more[i]) && more[i].prevId == HeaderHash(Preceding(from, more, i))
    {
      if i < |headers| {
        assert more[i] == headers[i] && Preceding(from, more, i) == Preceding(from, headers, i);
      }
    }
  }

  lemma FollowFewer(p: Params, from: BlockHeader, headers: seq<BlockHeader>)
    requires ValidParams(p) && Follow(p, from, headers) && headers != []
    ensures Follow(p, from, headers[..|headers| - 1])
  {
    hide FitsUnmined;
    var fewer := headers[..|headers| - 1];
    forall i | 0 <= i < |fewer|
      ensures FitsUnmined(p, fewer[i]) && fewer[i].prevId == HeaderHash(Preceding(from, fewer, i))
    {
      assert fewer[i] == headers[i] && Preceding(from, fewer, i) == Preceding(from, headers, i);
    }
  }

  lemma FitsIsChild(p: Params, h: BlockHeader)
    requires ValidParams(p) && FitsUnmined(p, h)
    ensures h.prevId.HeaderHash? && h.height == h.prevId.header.height + 1
  {
    hide MedianTimePast;
  }

  /** chain.check_headers: the new tip and the headers that passed, or the rule one of them breaks.
      Starting where walking back gives `tip`, the rolling tip stays what walking back gives. */
  method CheckHeaders(p: Params, tip: HeaderTip, headers: seq<BlockHeader>, now: nat)
    returns (r: Result<(HeaderTip, seq<BlockHeader>)>)
    requires ValidParams(p) && |tip.recentTimes| > 0
    ensures r.Ok? ==>
      && r.value.1 <= headers && |r.value.0.recentTimes| > 0
      && r.value.0.header == Preceding(tip.header, r.value.1, |r.value.1|)
      && (forall h :: h in r.value.1 ==> NotInFuture(h, now, p))
      && (|r.value.1| < |headers| ==> !NotInFuture(headers[|r.value.1|], now, p))
    ensures r.Ok? && tip == TipAt(p, tip.header) ==>
      Follow(p, tip.header, r.value.1) && r.value.0 == TipAt(p, r.value.0.header)
    ensures r.Err? && tip == TipAt(p, tip.header) ==> exists k :: FirstToBreak(p, tip.header, headers, k, now)
  {
    hide CheckHeaderAgainstParent, NotInFuture, BlockWork, MedianTimePast, RecentTimes, Work, FitsUnmined;
    var current, checked := tip, [];
    ghost var exact := tip == TipAt(p, tip.header);
    for i := 0 to |headers|
      invariant checked == headers[..i] && |current.recentTimes| > 0
      invariant current.header == Preceding(tip.header, headers, i) == Preceding(tip.header, checked, i)
      invariant exact ==> Follow(p, tip.header, checked) && current == TipAt(p, current.header)
      invariant forall h :: h in checked ==> NotInFuture(h, now, p)
    {
      var h := headers[i];
      if !NotInFuture(h, now, p) {
        return Ok((current, checked));
      }
      TimesNotEmpty(p, current.header);
      Rules(p, current.header, h);
      if h.version != BLOCK_VERSION {
        assert exact ==> FirstToBreak(p, tip.header, headers, i, now);
        return Err(BadVersion);
      }
      var error := CheckHeaderAgainstParent(h, current.header, Median(current.recentTimes),
                                            p.nextTarget(current.header), p, false);
      if error.Some? {
        assert exact ==> FirstToBreak(p, tip.header, headers, i, now);
        return Err(error.value);
      }
      if exact {
        RollingIsWalking(p, current.header, h);
        FollowMore(p, tip.header, checked, h);
      }
      current := NextTip(p, current, h);
      checked := checked + [h];
    }
    assert headers[..|headers|] == headers;
    return Ok((current, checked));
  }

  /** The headers before this one pass, and it breaks a rule against the one before it. */
  ghost predicate FirstToBreak(p: Params, from: BlockHeader, headers: seq<BlockHeader>, k: nat, now: nat)
    requires ValidParams(p)
  {
    && k < |headers| && Follow(p, from, headers[..k]) && NotInFuture(headers[k], now, p)
    && !(FitsUnmined(p, headers[k]) && headers[k].prevId == HeaderHash(Preceding(from, headers, k)))
  }

  lemma TimesNotEmpty(p: Params, h: BlockHeader)
    requires ValidParams(p)
    ensures |RecentTimes(HeaderHash(h), p.medianTimeSpan)| > 0
    ensures MedianTimePast(h, p) == Median(RecentTimes(HeaderHash(h), p.medianTimeSpan))
  {
  }

  /** What the check against a parent comes to. */
  lemma Rules(p: Params, parent: BlockHeader, h: BlockHeader)
    requires ValidParams(p)
    ensures h.version == BLOCK_VERSION
         && CheckHeaderAgainstParent(h, parent, MedianTimePast(parent, p), p.nextTarget(parent), p, false).None?
      <==> FitsUnmined(p, h) && h.prevId == HeaderHash(parent)
    ensures CheckHeaderAgainstParent(h, parent, MedianTimePast(parent, p), p.nextTarget(parent), p, false).None? ==>
      h.height > 0 && h.prevId == HeaderHash(parent)
  {
    hide MedianTimePast;
  }

  /** A checked header that meets its target passes every rule submitting its block has for it. */
  lemma CheckedHeaderFits(p: Params, from: BlockHeader, headers: seq<BlockHeader>, i: nat)
    requires ValidParams(p) && Follow(p, from, headers) && i < |headers| && p.meetsTarget(headers[i])
    ensures HeaderFits(p, headers[i])
  {
    hide MedianTimePast;
  }

  /** Checked headers are their own chain: heights count on, and each one adds its work. */
  lemma {:induction false} WorkOfHeaders(p: Params, from: BlockHeader, headers: seq<BlockHeader>)
    requires ValidParams(p) && Follow(p, from, headers)
    ensures forall i :: 0 <= i < |headers| ==> headers[i].height == from.height + 1 + i
    ensures headers != [] ==>
      Work(HeaderHash(headers[|headers| - 1])) == Work(HeaderHash(from)) + SumWork(headers)
  {
    hide MedianTimePast, BlockWork, FitsUnmined;
    if headers != [] {
      var n := |headers| - 1;
      FollowFewer(p, from, headers);
      FitsIsChild(p, headers[n]);
      var fewer := headers[..n];
      WorkOfHeaders(p, from, fewer);
      assert headers[n].prevId == HeaderHash(Preceding(from, headers, n));
      assert forall i :: 0 <= i < n ==> fewer[i] == headers[i];
    }
  }

  function SumWork(headers: seq<BlockHeader>): nat {
    if headers == [] then 0 else SumWork(headers[..|headers| - 1]) + BlockWork(headers[|headers| - 1].target)
  }

  // --- starting points --------------------------------------------------------------------------------------

  /** chain.header_tip */
  method HeaderTipOf(chain: Chain.ChainManager, id: Digest) returns (tip: Option<HeaderTip>)
    requires chain.Good()
    ensures tip.Some? <==> id in chain.store.tables.headers
    ensures tip.Some? ==> |tip.value.recentTimes| > 0 && HeaderHash(tip.value.header) == id
    ensures tip.Some? ==> tip.value.chainWork == Work(id)
    ensures tip.Some? && StoredBack(chain.store.tables, id, chain.p.medianTimeSpan) ==>
      id.HeaderHash? && tip == Some(TipAt(chain.p, id.header))
  {
    hide Work, GoodChain, RecentTimes, StoredBack, Inv;
    if id !in chain.store.tables.headers { return None; }
    Stored(chain.p, chain.store.tables, chain.chain, id);
    var times := chain.WalkTimes(id);
    var stored := chain.store.tables.headers[id];
    tip := Some(HeaderTip(stored.block.header, stored.chainWork, times));
  }

  lemma Stored(p: Params, t: Tables, chain: seq<Block>, id: Digest)
    requires Inv(p, t, chain) && id in t.headers
    ensures id.HeaderHash? && t.headers[id].block.header == id.header && t.headers[id].chainWork == Work(id)
    ensures ValidParams(p)
  {
    hide Work, GoodChain;
    Importing.InvReplay(p, t, chain);
    assert StoredOk(p, t, id);
  }

  /** chain.check_branch_point: may a branch continue from this block? `Raised` stands for the walk
      that runs into a missing header. */
  method CheckBranchPoint(chain: Chain.ChainManager, id: Digest) returns (error: Option<Error>, raised: bool)
    requires chain.Good()
    ensures |chain.store.tables.active.main| > 0
    ensures var t := chain.store.tables;
      (!raised && error.None?) <==>
        (id in t.headers && t.headers[id].status != Invalid && MeetsFinal(chain.p, t, chain.chain, id))
    ensures error == Some(UnknownParent) <==> id !in chain.store.tables.headers
    ensures error == Some(InvalidParent) <==>
      id in chain.store.tables.headers && chain.store.tables.headers[id].status == Invalid
    ensures error.None? || error.value in {UnknownParent, InvalidParent, ForkBelowFinality}
    ensures var t := chain.store.tables;
      raised <==> (id in t.headers && t.headers[id].status != Invalid
                   && PrunedAbove(t, chain.chain, FinalizedHeight(chain.p, t), id))
  {
    hide Inv, MeetsFinal, PrunedAbove;
    Switching.InvShape(chain.p, chain.store.tables, chain.chain);
    if id !in chain.store.tables.headers { return Some(UnknownParent), false; }
    if chain.store.tables.headers[id].status == Invalid { return Some(InvalidParent), false; }
    var finality := chain.CheckFinality(id);
    match finality
    case Open => return None, false;
    case Final => return Some(ForkBelowFinality), false;
    case Broken => return None, true;
  }
}
