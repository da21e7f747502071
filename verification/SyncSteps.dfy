/**
 What the events of p2p.py's catching up do, as relations between the state before and after: which peer is
 chosen, what it is asked for, and how its round goes on or ends.
 */
module SyncSteps {
  import opened Types
  import opened ChainState
  import opened Headers
  import opened SyncState
  import Importing
  import Ledger
  import Receiving

  const MAX_HEADERS: nat := 2000
  const BLOCKS_PER_REQUEST: nat := 64
  const MAX_PENDING_HEADERS: nat := 50_000

  /** The peers, the one we are catching up with, and the chunk download for it. */
  datatype Sync = Sync(peers: Peers, peer: Option<nat>, task: Option<nat>)

  /** An open, ready peer that claims more work than ours. */
  ghost predicate Candidate(peers: Peers, ours: nat, q: nat) {
    q in peers && peers[q].ready && !peers[q].closed && peers[q].work > ours
  }

  /** A new round with this peer: nothing known, everything earlier forgotten; sealed chunks that we lack are downloaded
      first, if it serves any, and otherwise it is asked for headers at once. */
  ghost predicate Starts(was: Sync, now: Sync, q: nat, sealed: nat) {
    && q in was.peers && now.peer == Some(q)
    && (now.task.Some? <==> was.peers[q].hasUrl && was.peers[q].chunks > sealed)
    && now.peers == was.peers[q := was.peers[q].(syncRound := was.peers[q].syncRound + 1, headerTip := None,
                                                 moreHeaders := false, awaiting := now.task.None?, checking := false,
                                                 waiting := [], inFlight := {})]
  }

  /** Unless a round is on, one starts with a candidate that claims the most work, if there is any candidate. */
  ghost predicate Resumes(was: Sync, now: Sync, ours: nat, sealed: nat) {
    if was.peer.Some? then now == was
    else match now.peer
      case None => now == was && forall q :: !Candidate(was.peers, ours, q)
      case Some(q) =>
        && Candidate(was.peers, ours, q) && Starts(was, now, q, sealed)
        && forall r :: Candidate(was.peers, ours, r) ==> was.peers[r].work <= was.peers[q].work
  }

  /** The round with this peer is over. It keeps no claim to more work than we have by now, so the next round, if any,
      is with another one. */
  ghost predicate Ends(was: Sync, now: Sync, q: nat, useless: bool, ours: nat, sealed: nat) {
    && q in was.peers
    && var x := was.peers[q];
      var work := if useless then 0 else if x.work <= ours then x.work else ours;
      Resumes(Sync(was.peers[q := x.(work := work, headerTip := None, moreHeaders := false, waiting := [],
                                     inFlight := {})], None, None), now, ours, sealed)
  }

  /** No round and no download with this peer any more. */
  function Without(s: Sync, q: nat): Sync {
    if s.peer == Some(q) then Sync(s.peers, None, None) else s
  }

  /** The peer is closed, and whoever is left may be caught up with. */
  ghost predicate Drops(was: Sync, now: Sync, q: nat, ban: bool, ours: nat, sealed: nat) {
    && q in was.peers
    && var x := was.peers[q].(closed := true, banned := was.peers[q].banned || ban, work := 0);
      Resumes(Without(was.(peers := was.peers[q := x]), q), now, ours, sealed)
  }

  /** What is left of a queue once the blocks at its head that have arrived meanwhile are gone. */
  function StillWanted(waiting: seq<Digest>, stored: set<Digest>): (r: seq<Digest>)
    ensures |r| <= |waiting| && r == waiting[|waiting| - |r|..]
    ensures forall i :: 0 <= i < |waiting| - |r| ==> waiting[i] in stored
    ensures r != [] ==> r[0] !in stored
  {
    if waiting != [] && waiting[0] in stored then StillWanted(waiting[1..], stored) else waiting
  }

  /** The next move of a round in which nothing is outstanding: blocks, if the checked headers promise more work than
      ours; else more headers, if there may be any and not too many blocks are waiting; else the end. */
  ghost predicate Continues(was: Sync, now: Sync, q: nat, stored: set<Digest>, before: seq<Request>,
                            after: seq<Request>, ours: nat, sealed: nat)
  {
    && q in was.peers
    && var x := was.peers[q];
      var wanted := StillWanted(x.waiting, stored);
      if was.peer != Some(q) || x.inFlight != {} || x.awaiting || x.checking then now == was && after == before
      else if wanted != [] && x.headerTip.Some? && x.headerTip.value.chainWork > ours then
        var n := if |wanted| <= BLOCKS_PER_REQUEST then |wanted| else BLOCKS_PER_REQUEST;
        && now == was.(peers := was.peers[q := x.(waiting := wanted[n..], inFlight := SetOf(wanted[..n]))])
        && after == before + [Request(q, x.syncRound, SetOf(wanted[..n]), x.headerTip.value, ours)]
      else if x.moreHeaders && |wanted| < MAX_PENDING_HEADERS then
        now == was.(peers := was.peers[q := x.(waiting := wanted, awaiting := true)]) && after == before
      else Ends(was, now, q, false, ours, sealed) && after == before
  }

  /** The connection is closed, for good reason or not; it is still to be taken off the list. */
  function Closed(x: Peer, ban: bool): Peer {
    x.(closed := true, banned := x.banned || ban, work := if ban then 0 else x.work)
  }

  /** Tasks are only added, and a download is the one kept or a new one. */
  predicate TasksGrow(was: Tasks, now: Tasks, kept: Option<nat>, task: Option<nat>) {
    was.Keys <= now.Keys && (task.Some? && task != kept ==> task.value !in was)
  }

  // --- headers ------------------------------------------------------------------------------------------------

  ghost predicate InLine(headers: seq<BlockHeader>) {
    forall i :: 0 < i < |headers| ==> headers[i].prevId == HeaderHash(headers[i - 1])
  }

  /** What a header check comes to: the peer is dropped, with or without a ban; its branch leaves ours below our final
      history; its headers connect to nothing; or they are good as far as `ids` go, of this many new ones. */
  datatype Verdict =
    | Failed(ban: bool)
    | Foreign
    | Unconnected
    | Good(tip: Option<HeaderTip>, ids: seq<Digest>, newCount: nat)

  /** What follows from the verdict; that of a round long abandoned changes nothing but, if it failed, closes. */
  ghost predicate AfterCheck(was: Sync, now: Sync, job: Job, verdict: Verdict, stored: set<Digest>,
                             before: seq<Request>, after: seq<Request>, ours: nat, sealed: nat)
  {
    && job.peer in was.peers
    && var q, done := job.peer, was.(peers := AfterJob(was.peers, job));
      var x := done.peers[q];
      match verdict
      case Failed(ban) => Drops(done, now, q, ban, ours, sealed) && after == before
      case Foreign => (if was.peer == Some(q) then Ends(done, now, q, true, ours, sealed) else now == done)
        && after == before
      case Unconnected =>
        && after == before
        && now == if was.peer == Some(q) && x.syncRound == job.round
          then done.(peers := done.peers[q := x.(headerTip := None, waiting := [], awaiting := true)]) else done
      case Good(tip, ids, newCount) =>
        if was.peer == Some(q) && x.syncRound == job.round && !x.closed then
          var more := |job.headers| == MAX_HEADERS && |ids| == newCount;
          var y := x.(headerTip := tip, waiting := x.waiting + ids, moreHeaders := more,
                      work := if |ids| < newCount then 0 else x.work);
          Continues(done.(peers := done.peers[q := y]), now, q, stored, before, after, ours, sealed)
        else now == done && after == before
  }

  /** The first `n` headers are stored and not invalid, and the next one is not. */
  ghost predicate Leading(t: Tables, headers: seq<BlockHeader>, n: nat) {
    && n <= |headers|
    && (forall i :: 0 <= i < n ==>
        HeaderHash(headers[i]) in t.headers && t.headers[HeaderHash(headers[i])].status != Invalid)
    && (n < |headers| ==>
        HeaderHash(headers[n]) !in t.headers || t.headers[HeaderHash(headers[n])].status == Invalid)
  }

  /** The verdict on new headers that continue from here, as far as it can be given without proofs of work. */
  ghost predicate Tested(p: Params, from: BlockHeader, headers: seq<BlockHeader>, clock: nat,
                         verdict: Option<Verdict>, stage: Stage)
    requires ValidParams(p) && headers != []
  {
    match verdict
    case Some(Failed(ban)) => ban && exists k :: FirstToBreak(p, from, headers, k, clock)
    case Some(Good(tip, ids, newCount)) =>
      && tip.Some? && tip.value.header == from && ids == [] && newCount == |headers|
      && !Ledger.NotInFuture(headers[0], clock, p)
    case None =>
      && stage.Proving? && stage.newCount == |headers| && stage.checked != [] && stage.checked <= headers
      && Follow(p, from, stage.checked) && stage.tip.header == stage.checked[|stage.checked| - 1]
      && (forall h :: h in stage.checked ==> Ledger.NotInFuture(h, clock, p))
      && (|stage.checked| < |headers| ==> !Ledger.NotInFuture(headers[|stage.checked|], clock, p))
    case _ => false
  }

  /** What the check of a batch must say before any proof of work, given what the peer's headers led to so far. For a
      round long abandoned the rules may have been checked from a tip that is no longer there. */
  ghost predicate Judged(p: Params, t: Tables, chain: seq<Block>, current: bool, known: Option<HeaderTip>,
                         headers: seq<BlockHeader>, n: nat, clock: nat, verdict: Option<Verdict>, stage: Stage)
    requires ValidParams(p) && |t.active.main| > 0
  {
    && Leading(t, headers, n)
    && if n == |headers| then
      && verdict.Some? && verdict.value.Good? && verdict.value.ids == [] && verdict.value.newCount == 0
      && (n == 0 ==> verdict.value.tip == known)
      && (n > 0 ==> verdict.value.tip.Some? && verdict.value.tip.value.header == headers[n - 1])
    else if HeaderHash(headers[n]) in t.headers then verdict == Some(Failed(true))
    else
      var parent := headers[n].prevId;
      var own := n == 0 && known.Some? && parent == HeaderHash(known.value.header);
      if own then current ==> Tested(p, known.value.header, headers[n..], clock, verdict, stage)
      else if parent !in t.headers then verdict == Some(Unconnected)
      else if t.headers[parent].status == Invalid then verdict == Some(Failed(true))
      else if PrunedAbove(t, chain, FinalizedHeight(p, t), parent) then verdict == Some(Failed(false))
      else if !MeetsFinal(p, t, chain, parent) then verdict == Some(Foreign)
      else parent.HeaderHash? && Tested(p, parent.header, headers[n..], clock, verdict, stage)
  }

  // --- blocks and chunks --------------------------------------------------------------------------------------

  /** A block whose parent we lack: its sender is ahead of us. */
  ghost predicate Ahead(was: Sync, now: Sync, q: nat, ours: nat, sealed: nat) {
    && q in was.peers
    && var x := was.peers[q];
      var claims := was.(peers := was.peers[q := x.(work := if x.work > ours then x.work else ours + 1)]);
      if was.peer.Some? then now == claims else Starts(claims, now, q, sealed)
  }

  lemma ThenAhead(was: Sync, claims: Sync, now: Sync, q: nat, ours: nat, sealed: nat)
    requires q in was.peers && claims.peer == was.peer && claims.task == was.task
    requires claims.peers == was.peers[q := was.peers[q].(work := if was.peers[q].work > ours then was.peers[q].work
                                                                  else ours + 1)]
    requires if was.peer.Some? then now == claims else Starts(claims, now, q, sealed)
    ensures Ahead(was, now, q, ours, sealed)
  {
  }

  /** Rejected for a reason that will not pass. */
  predicate ForGood(r: Receiving.SubmitResult) {
    r.outcome == Receiving.Rejected && !(r.error.Some? && Receiving.TemporaryError(r.error.value))
  }

  /** A peer whose block was rejected for now is not one to catch up with. */
  function WorkAfter(s: Sync, q: nat, r: Receiving.SubmitResult): Sync
    requires q in s.peers
  {
    if r.outcome == Receiving.Rejected then s.(peers := s.peers[q := s.peers[q].(work := 0)]) else s
  }

  /** What the submission of a peer's block means for the peer. */
  ghost predicate Received(was: Sync, now: Sync, q: nat, id: Digest, r: Receiving.SubmitResult, stored: set<Digest>,
                           before: seq<Request>, after: seq<Request>, ours: nat, sealed: nat)
  {
    && q in was.peers
    && if r.outcome == Receiving.Raised || ForGood(r) then
      now == was.(peers := was.peers[q := Closed(was.peers[q], ForGood(r))]) && after == before
    else
      var kept := WorkAfter(was, q, r);
      var x := kept.peers[q];
      if id in x.inFlight then
        Continues(kept.(peers := kept.peers[q := x.(inFlight := x.inFlight - {id})]), now, q, stored, before, after,
                  ours, sealed)
      else now == kept && after == before
  }

  /** A download for the round with its peer that is still on. */
  predicate Live(s: Sync, task: ChunkTask) {
    && !task.cancelled && s.peer == Some(task.peer) && task.peer in s.peers && !s.peers[task.peer].closed
    && s.peers[task.peer].syncRound == task.round
  }

  /** This download is over, and the peer is asked for headers if it is still the one. */
  ghost predicate GoesByBlocks(was: Sync, now: Sync, t: nat, task: ChunkTask) {
    && now.task == (if was.task == Some(t) then None else was.task) && now.peer == was.peer
    && now.peers == if Live(was, task) then was.peers[task.peer := was.peers[task.peer].(awaiting := true)]
      else was.peers
  }

  lemma NothingToDo(was: Sync, q: nat, stored: set<Digest>, requests: seq<Request>, ours: nat, sealed: nat)
    requires q in was.peers
    requires was.peer != Some(q) || was.peers[q].inFlight != {} || was.peers[q].awaiting || was.peers[q].checking
    ensures Continues(was, was, q, stored, requests, requests, ours, sealed)
  {
  }

  /** Nothing is outstanding in the round with this peer. */
  predicate Waits(s: Sync, q: nat) {
    && s.peer == Some(q) && q in s.peers
    && s.peers[q].inFlight == {} && !s.peers[q].awaiting && !s.peers[q].checking
  }

  predicate Better(x: Peer, ours: nat) { x.headerTip.Some? && x.headerTip.value.chainWork > ours }

  lemma AsksForBlocks(was: Sync, now: Sync, q: nat, stored: set<Digest>, before: seq<Request>, after: seq<Request>,
                      ours: nat, sealed: nat)
    requires Waits(was, q) && Better(was.peers[q], ours) && now.peer == was.peer && now.task == was.task
    requires var x, wanted := was.peers[q], StillWanted(was.peers[q].waiting, stored);
      var n := if |wanted| <= BLOCKS_PER_REQUEST then |wanted| else BLOCKS_PER_REQUEST;
      && wanted != [] && now.peers == was.peers[q := x.(waiting := wanted[n..], inFlight := SetOf(wanted[..n]))]
      && after == before + [Request(q, x.syncRound, SetOf(wanted[..n]), x.headerTip.value, ours)]
    ensures Continues(was, now, q, stored, before, after, ours, sealed)
  {
  }

  lemma AsksForHeaders(was: Sync, now: Sync, q: nat, stored: set<Digest>, requests: seq<Request>, ours: nat,
                       sealed: nat)
    requires Waits(was, q) && now.peer == was.peer && now.task == was.task
    requires var x, wanted := was.peers[q], StillWanted(was.peers[q].waiting, stored);
      && !(wanted != [] && Better(x, ours)) && x.moreHeaders && |wanted| < MAX_PENDING_HEADERS
      && now.peers == was.peers[q := x.(waiting := wanted, awaiting := true)]
    ensures Continues(was, now, q, stored, requests, requests, ours, sealed)
  {
  }

  lemma RoundIsOver(was: Sync, now: Sync, q: nat, stored: set<Digest>, requests: seq<Request>, ours: nat, sealed: nat)
    requires Waits(was, q) && Ends(was, now, q, false, ours, sealed)
    requires var x, wanted := was.peers[q], StillWanted(was.peers[q].waiting, stored);
      !(wanted != [] && Better(x, ours)) && !(x.moreHeaders && |wanted| < MAX_PENDING_HEADERS)
    ensures Continues(was, now, q, stored, requests, requests, ours, sealed)
  {
    hide Ends;
  }

  /** How a round goes on opens and closes no connection. */
  lemma ContinuesKeepsOpen(was: Sync, now: Sync, q: nat, stored: set<Digest>, before: seq<Request>,
                           after: seq<Request>, ours: nat, sealed: nat)
    requires Continues(was, now, q, stored, before, after, ours, sealed)
    ensures q in now.peers && now.peers[q].closed == was.peers[q].closed && now.peers[q].banned == was.peers[q].banned
  {
    hide Ends, StillWanted;
    if Ends(was, now, q, false, ours, sealed) { EndsKeepsOpen(was, now, q, false, ours, sealed); }
  }

  lemma EndsKeepsOpen(was: Sync, now: Sync, q: nat, useless: bool, ours: nat, sealed: nat)
    requires Ends(was, now, q, useless, ours, sealed)
    ensures q in now.peers && now.peers[q].closed == was.peers[q].closed && now.peers[q].banned == was.peers[q].banned
  {
    hide Candidate;
  }

  /** A peer is closed over a block only for a lasting rejection, with a ban, or if the submission raises. */
  lemma WhoIsClosed(was: Sync, now: Sync, q: nat, id: Digest, r: Receiving.SubmitResult, stored: set<Digest>,
                    before: seq<Request>, after: seq<Request>, ours: nat, sealed: nat)
    requires Received(was, now, q, id, r, stored, before, after, ours, sealed) && !was.peers[q].closed
    ensures q in now.peers && (now.peers[q].closed <==> r.outcome == Receiving.Raised || ForGood(r))
    ensures now.peers[q].banned <==> was.peers[q].banned || ForGood(r)
  {
    hide Continues;
    if r.outcome != Receiving.Raised && !ForGood(r) {
      var kept := WorkAfter(was, q, r);
      var x := kept.peers[q];
      if id in x.inFlight {
        ContinuesKeepsOpen(kept.(peers := kept.peers[q := x.(inFlight := x.inFlight - {id})]), now, q, stored, before,
                           after, ours, sealed);
      }
    }
  }

  lemma ClosesNobody(was: Sync, now: Sync, t: nat, task: ChunkTask)
    requires GoesByBlocks(was, now, t, task)
    ensures forall q :: q in now.peers ==> q in was.peers && now.peers[q].closed == was.peers[q].closed
  {
  }

  lemma EndsWithAnother(was: Sync, now: Sync, q: nat, useless: bool, ours: nat, sealed: nat)
    requires Ends(was, now, q, useless, ours, sealed)
    ensures now.peer != Some(q)
  {
  }

  lemma DropsForAnother(was: Sync, now: Sync, q: nat, ban: bool, ours: nat, sealed: nat)
    requires Drops(was, now, q, ban, ours, sealed)
    ensures now.peer != Some(q) && q in now.peers && now.peers[q].closed && now.peers[q].work == 0
    ensures now.peers[q].banned <==> was.peers[q].banned || ban
  {
  }
}
