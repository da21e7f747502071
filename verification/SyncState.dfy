/**
 The catch-up state of p2p.py as values: what a peer, a header check and a chunk download know, and
 the invariants that hold between any two events.
 */
module SyncState {
  import opened Types
  import opened ChainState
  import opened Headers

  datatype Peer = Peer(ready: bool, closed: bool, banned: bool, work: nat, chunks: nat, hasUrl: bool, syncRound: nat,
                       headerTip: Option<HeaderTip>, waiting: seq<Digest>, inFlight: set<Digest>,
                       moreHeaders: bool, awaiting: bool, checking: bool)

  /** A header check: about to start, or with its proofs of work being checked on another thread. */
  datatype Stage =
    | Queued
    | Proving(tip: HeaderTip, from: BlockHeader, checked: seq<BlockHeader>, known: nat, newCount: nat)

  datatype Job = Job(peer: nat, round: nat, headers: seq<BlockHeader>, stage: Stage)

  /** A running chunk download (an asyncio task). */
  datatype ChunkTask = ChunkTask(peer: nat, round: nat, cancelled: bool)

  /** One get_data message for blocks, with the work it was decided on. */
  datatype Request = Request(peer: nat, round: nat, ids: set<Digest>, tip: HeaderTip, ours: nat)

  type Peers = map<nat, Peer>
  type Jobs = map<nat, Job>
  type Tasks = map<nat, ChunkTask>

  /** Ids of the headers that passed the whole check, by peer and round. */
  type Passed = map<(nat, nat), set<Digest>>

  function PassedIn(passed: Passed, q: nat, round: nat): set<Digest> {
    if (q, round) in passed then passed[(q, round)] else {}
  }

  /** The id of a header that meets every rule against its parent, proof of work included. */
  ghost predicate FullyChecked(p: Params, id: Digest)
    requires ValidParams(p)
  {
    id.HeaderHash? && id.header.version == BLOCK_VERSION && HeaderFits(p, id.header)
  }

  /** A tip that walking back from its header gives. */
  ghost predicate Exact(p: Params, tip: HeaderTip) { tip == TipAt(p, tip.header) }

  /** A tip with the work its header's chain really has. */
  ghost predicate RealWork(tip: HeaderTip) { |tip.recentTimes| > 0 && tip.chainWork == Work(HeaderHash(tip.header)) }

  lemma WorkIsReal(tip: HeaderTip)
    requires RealWork(tip)
    ensures tip.chainWork == Work(HeaderHash(tip.header))
  {
  }

  /** A tip whose header was fully checked this round, or with no more work than we have reached. */
  ghost predicate CheckedOrLow(tip: HeaderTip, checked: set<Digest>, floor: nat) {
    HeaderHash(tip.header) in checked || tip.chainWork <= floor
  }

  /** What holds of a peer between events. Timestamps can be missing from a tip only where sealing has deleted them,
      and then nothing will be checked against it. */
  ghost predicate PeerOk(p: Params, q: nat, peer: Peer, passed: Passed, floor: nat) {
    && (forall id :: id in peer.waiting ==> id in PassedIn(passed, q, peer.syncRound))
    && peer.inFlight <= PassedIn(passed, q, peer.syncRound)
    && !(peer.awaiting && peer.checking)
    && (peer.awaiting || peer.checking ==> peer.inFlight == {})
    && (peer.headerTip.Some? ==> RealWork(peer.headerTip.value))
    && (peer.headerTip.Some? ==> CheckedOrLow(peer.headerTip.value, PassedIn(passed, q, peer.syncRound), floor))
    && (peer.headerTip.Some? && (peer.moreHeaders || peer.awaiting || peer.checking) ==> Exact(p, peer.headerTip.value))
  }

  ghost predicate PeersOk(p: Params, peers: Peers, passed: Passed, floor: nat) {
    forall q :: q in peers ==> PeerOk(p, q, peers[q], passed, floor)
  }

  /** Everything that passed was fully checked. */
  ghost predicate PassedOk(p: Params, passed: Passed)
    requires ValidParams(p)
  {
    forall k, id :: k in passed && id in passed[k] ==> FullyChecked(p, id)
  }

  ghost predicate StageOk(p: Params, stage: Stage)
    requires ValidParams(p)
  {
    stage.Proving? ==>
      && Follow(p, stage.from, stage.checked) && Exact(p, stage.tip) && RealWork(stage.tip)
      && stage.checked != [] && stage.tip.header == stage.checked[|stage.checked| - 1]
  }

  ghost predicate Current(peers: Peers, job: Job) {
    job.peer in peers && job.round == peers[job.peer].syncRound
  }

  /** The checks of current rounds are sound; a late one no longer matters. */
  ghost predicate StagesOk(p: Params, peers: Peers, jobs: Jobs)
    requires ValidParams(p)
  {
    && (forall j :: j in jobs && Current(peers, jobs[j]) ==> StageOk(p, jobs[j].stage))
    && (forall j :: j in jobs ==> Batch(jobs[j]))
  }

  /** What p2p._on_headers lets through: a chain of headers, of which no more are being checked. */
  ghost predicate Batch(job: Job) {
    && (forall i :: 0 < i < |job.headers| ==> job.headers[i].prevId == HeaderHash(job.headers[i - 1]))
    && (job.stage.Proving? ==> |job.stage.checked| <= job.stage.newCount && |job.stage.tip.recentTimes| > 0)
  }

  /** The one header check of each peer's current round, while there is one. */
  type Running = map<nat, nat>

  ghost predicate JobOk(peers: Peers, running: Running, j: nat, job: Job) {
    && job.peer in peers && job.round <= peers[job.peer].syncRound
    && (Current(peers, job) ==> job.peer in running && running[job.peer] == j)
  }

  ghost predicate RunningOk(peers: Peers, jobs: Jobs, running: Running, q: nat)
    requires q in running
  {
    && q in peers && peers[q].checking
    && running[q] in jobs && jobs[running[q]].peer == q && jobs[running[q]].round == peers[q].syncRound
  }

  /** A header check of a peer's current round is under way exactly while the peer says so, and only one. */
  ghost predicate JobsOk(peers: Peers, jobs: Jobs, running: Running) {
    && (forall j :: j in jobs ==> JobOk(peers, running, j, jobs[j]))
    && (forall q :: q in running ==> RunningOk(peers, jobs, running, q))
    && (forall q :: q in peers && peers[q].checking ==> q in running)
  }

  /** Nothing asked of the peer, nothing being checked, nothing known of its chain. */
  predicate Idle(peer: Peer) { !peer.awaiting && !peer.checking && peer.inFlight == {} && peer.headerTip.None? }

  /** The chunk download, if any, is for the peer and round we are catching up with, and nothing else goes
      on there; no other task is left alive. */
  ghost predicate TaskOk(peers: Peers, syncPeer: Option<nat>, chunkTask: Option<nat>, tasks: Tasks) {
    && (syncPeer.Some? ==> syncPeer.value in peers)
    && (forall t :: t in tasks && !tasks[t].cancelled ==> chunkTask == Some(t))
    && (chunkTask.Some? ==>
        && chunkTask.value in tasks && !tasks[chunkTask.value].cancelled
        && syncPeer == Some(tasks[chunkTask.value].peer)
        && tasks[chunkTask.value].round == peers[syncPeer.value].syncRound
        && Idle(peers[syncPeer.value]))
  }

  /** The peer we are catching up with, if still open, owes us something, or we are working on it. */
  ghost predicate Busy(peers: Peers, syncPeer: Option<nat>, chunkTask: Option<nat>, running: Running) {
    syncPeer.Some? && syncPeer.value in peers && !peers[syncPeer.value].closed ==>
      || chunkTask.Some?
      || peers[syncPeer.value].awaiting
      || syncPeer.value in running
      || peers[syncPeer.value].inFlight != {}
  }

  /** Every request ever sent asked for blocks whose headers were fully checked in that round, when the tip those
      headers led to, fully checked too, really had more work than ours. */
  ghost predicate RequestOk(p: Params, r: Request, passed: Passed)
    requires ValidParams(p)
  {
    && r.ids != {} && r.ids <= PassedIn(passed, r.peer, r.round)
    && r.tip.chainWork == Work(HeaderHash(r.tip.header)) > r.ours
    && HeaderHash(r.tip.header) in PassedIn(passed, r.peer, r.round) && FullyChecked(p, HeaderHash(r.tip.header))
    && (forall id :: id in r.ids ==> FullyChecked(p, id))
  }

  ghost function WorkOf(chain: seq<Block>): nat { if chain == [] then 0 else Work(chain[|chain| - 1].Id()) }

  /** Requests are only added, and each new one was decided on against the work of this chain. */
  ghost predicate Asked(was: seq<Request>, now: seq<Request>, chain: seq<Block>) {
    was <= now && forall i :: |was| <= i < |now| ==> now[i].ours == WorkOf(chain)
  }

  lemma NothingAsked(requests: seq<Request>, chain: seq<Block>)
    ensures Asked(requests, requests, chain)
  {
  }

  ghost predicate RequestsOk(p: Params, requests: seq<Request>, passed: Passed)
    requires ValidParams(p)
  {
    forall i :: 0 <= i < |requests| ==> RequestOk(p, requests[i], passed)
  }

  // --- one change at a time ---------------------------------------------------------------------------------

  /** A change that leaves the peer's round and its header check alone. */
  lemma SetPeer(p: Params, peers: Peers, jobs: Jobs, running: Running, syncPeer: Option<nat>, chunkTask: Option<nat>,
                tasks: Tasks, passed: Passed, floor: nat, q: nat, x: Peer)
    requires q in peers && PeersOk(p, peers, passed, floor) && JobsOk(peers, jobs, running)
    requires ValidParams(p) && StagesOk(p, peers, jobs)
    requires TaskOk(peers, syncPeer, chunkTask, tasks)
    requires PeerOk(p, q, x, passed, floor) && x.syncRound == peers[q].syncRound && x.checking == peers[q].checking
    requires chunkTask.None? || Idle(x) || !Idle(peers[q])
    ensures PeersOk(p, peers[q := x], passed, floor) && JobsOk(peers[q := x], jobs, running)
    ensures StagesOk(p, peers[q := x], jobs)
    ensures TaskOk(peers[q := x], syncPeer, chunkTask, tasks)
  {
    hide PeerOk, JobsOk, StagesOk, StageOk, Batch;
    SameJobs(peers, jobs, running, q, x);
    NoneAdded(p, peers, jobs, peers[q := x]);
  }

  lemma SameJobs(peers: Peers, jobs: Jobs, running: Running, q: nat, x: Peer)
    requires q in peers && JobsOk(peers, jobs, running)
    requires x.syncRound == peers[q].syncRound && x.checking == peers[q].checking
    ensures JobsOk(peers[q := x], jobs, running)
  {
    var now := peers[q := x];
    forall j | j in jobs
      ensures JobOk(now, running, j, jobs[j])
    {
      assert JobOk(peers, running, j, jobs[j]);
    }
    forall r | r in running
      ensures RunningOk(now, jobs, running, r)
    {
      assert RunningOk(peers, jobs, running, r);
    }
  }

  /** No check becomes one of a current round. */
  lemma NoneAdded(p: Params, peers: Peers, jobs: Jobs, now: Peers)
    requires ValidParams(p) && StagesOk(p, peers, jobs)
    requires forall j :: j in jobs && Current(now, jobs[j]) ==> Current(peers, jobs[j])
    ensures StagesOk(p, now, jobs)
  {
    hide StageOk, Batch;
  }

  /** A new round: whatever ran for the old one is late from now on. */
  lemma NewRound(p: Params, peers: Peers, jobs: Jobs, running: Running, passed: Passed, floor: nat, q: nat, x: Peer)
    requires q in peers && PeersOk(p, peers, passed, floor) && JobsOk(peers, jobs, running)
    requires ValidParams(p) && StagesOk(p, peers, jobs)
    requires PeerOk(p, q, x, passed, floor) && x.syncRound == peers[q].syncRound + 1 && !x.checking
    ensures PeersOk(p, peers[q := x], passed, floor) && JobsOk(peers[q := x], jobs, running - {q})
    ensures StagesOk(p, peers[q := x], jobs)
  {
    hide PeerOk;
    var now := peers[q := x];
    forall j | j in jobs
      ensures JobOk(now, running - {q}, j, jobs[j])
    {
      assert JobOk(peers, running, j, jobs[j]);
    }
    forall r | r in running - {q}
      ensures RunningOk(now, jobs, running - {q}, r)
    {
      assert RunningOk(peers, jobs, running, r);
    }
  }

  lemma PeerIs(p: Params, peers: Peers, passed: Passed, floor: nat, q: nat)
    requires PeersOk(p, peers, passed, floor) && q in peers
    ensures PeerOk(p, q, peers[q], passed, floor)
  {
  }

  /** A peer we have not met before. */
  lemma NewPeer(p: Params, peers: Peers, jobs: Jobs, running: Running, syncPeer: Option<nat>, chunkTask: Option<nat>,
                tasks: Tasks, passed: Passed, floor: nat, q: nat, x: Peer)
    requires q !in peers && PeersOk(p, peers, passed, floor) && JobsOk(peers, jobs, running)
    requires ValidParams(p) && StagesOk(p, peers, jobs)
    requires TaskOk(peers, syncPeer, chunkTask, tasks)
    requires PeerOk(p, q, x, passed, floor) && !x.checking
    ensures PeersOk(p, peers[q := x], passed, floor) && JobsOk(peers[q := x], jobs, running)
    ensures StagesOk(p, peers[q := x], jobs)
    ensures TaskOk(peers[q := x], syncPeer, chunkTask, tasks)
  {
    hide PeerOk, StagesOk;
    var now := peers[q := x];
    NoneAdded(p, peers, jobs, now) by { assert forall j :: j in jobs ==> JobOk(peers, running, j, jobs[j]); }
    forall j | j in jobs
      ensures JobOk(now, running, j, jobs[j])
    {
      assert JobOk(peers, running, j, jobs[j]);
    }
    forall r | r in running
      ensures RunningOk(now, jobs, running, r)
    {
      assert RunningOk(peers, jobs, running, r);
    }
  }

  /** The peers after a header check is over. */
  function AfterJob(peers: Peers, job: Job): Peers
    requires job.peer in peers
  {
    if job.round == peers[job.peer].syncRound then peers[job.peer := peers[job.peer].(checking := false)] else peers
  }

  ghost function RunningAfter(peers: Peers, running: Running, job: Job): Running
    requires job.peer in peers
  {
    if job.round == peers[job.peer].syncRound then running - {job.peer} else running
  }

  lemma LateJobDone(peers: Peers, jobs: Jobs, running: Running, j: nat)
    requires j in jobs && JobsOk(peers, jobs, running) && !Current(peers, jobs[j])
    ensures JobsOk(peers, jobs - {j}, running)
  {
    assert JobOk(peers, running, j, jobs[j]);
    forall k | k in jobs - {j}
      ensures JobOk(peers, running, k, jobs[k])
    {
      assert JobOk(peers, running, k, jobs[k]);
    }
    forall r | r in running
      ensures RunningOk(peers, jobs - {j}, running, r)
    {
      assert RunningOk(peers, jobs, running, r);
    }
  }

  lemma CurrentJobDone(peers: Peers, jobs: Jobs, running: Running, j: nat, now: Peers)
    requires j in jobs && JobsOk(peers, jobs, running) && Current(peers, jobs[j])
    requires now == peers[jobs[j].peer := peers[jobs[j].peer].(checking := false)]
    ensures JobsOk(now, jobs - {j}, running - {jobs[j].peer})
  {
    var q := jobs[j].peer;
    assert JobOk(peers, running, j, jobs[j]);
    forall k | k in jobs - {j}
      ensures JobOk(now, running - {q}, k, jobs[k])
    {
      assert JobOk(peers, running, k, jobs[k]);
    }
    forall r | r in running - {q}
      ensures RunningOk(now, jobs - {j}, running - {q}, r)
    {
      assert RunningOk(peers, jobs, running, r);
    }
  }

  lemma JobDone(p: Params, peers: Peers, jobs: Jobs, running: Running, syncPeer: Option<nat>, chunkTask: Option<nat>,
                tasks: Tasks, passed: Passed, floor: nat, j: nat)
    requires j in jobs && PeersOk(p, peers, passed, floor) && JobsOk(peers, jobs, running)
    requires ValidParams(p) && StagesOk(p, peers, jobs)
    requires TaskOk(peers, syncPeer, chunkTask, tasks)
    ensures jobs[j].peer in peers
    ensures StagesOk(p, AfterJob(peers, jobs[j]), jobs - {j})
    ensures var now, left := AfterJob(peers, jobs[j]), RunningAfter(peers, running, jobs[j]);
      && PeersOk(p, now, passed, floor) && JobsOk(now, jobs - {j}, left) && TaskOk(now, syncPeer, chunkTask, tasks)
      && (Current(peers, jobs[j]) ==>
          peers[jobs[j].peer].checking && !peers[jobs[j].peer].awaiting && peers[jobs[j].peer].inFlight == {})
  {
    hide Exact, JobsOk;
    JobIs(peers, jobs, running, j);
    PeerIs(p, peers, passed, floor, jobs[j].peer);
    if Current(peers, jobs[j]) {
      CurrentJobDone(peers, jobs, running, j, AfterJob(peers, jobs[j]));
    } else {
      LateJobDone(peers, jobs, running, j);
    }
  }

  lemma JobIs(peers: Peers, jobs: Jobs, running: Running, j: nat)
    requires j in jobs && JobsOk(peers, jobs, running)
    ensures jobs[j].peer in peers && jobs[j].round <= peers[jobs[j].peer].syncRound
    ensures Current(peers, jobs[j]) ==> peers[jobs[j].peer].checking
  {
    assert JobOk(peers, running, j, jobs[j]);
    if Current(peers, jobs[j]) { assert RunningOk(peers, jobs, running, jobs[j].peer); }
  }

  lemma OneMoreJob(peers: Peers, jobs: Jobs, running: Running, q: nat, j: nat, headers: seq<BlockHeader>, now: Peers)
    requires q in peers && j !in jobs && JobsOk(peers, jobs, running) && !peers[q].checking
    requires now == peers[q := peers[q].(awaiting := false, checking := true)]
    ensures JobsOk(now, jobs[j := Job(q, peers[q].syncRound, headers, Queued)], running[q := j])
  {
    var more, runs := jobs[j := Job(q, peers[q].syncRound, headers, Queued)], running[q := j];
    assert forall r :: r in running ==> RunningOk(peers, jobs, running, r);
    assert q !in running;
    forall k | k in more
      ensures JobOk(now, runs, k, more[k])
    {
      if k != j { assert JobOk(peers, running, k, jobs[k]); }
    }
    forall r | r in runs
      ensures RunningOk(now, more, runs, r)
    {
      if r != q { assert RunningOk(peers, jobs, running, r); }
    }
  }

  /** A header check begins. */
  lemma JobStarts(p: Params, peers: Peers, jobs: Jobs, running: Running, syncPeer: Option<nat>, chunkTask: Option<nat>,
                  tasks: Tasks, passed: Passed, floor: nat, q: nat, j: nat, headers: seq<BlockHeader>)
    requires ValidParams(p) && q in peers && j !in jobs && PeersOk(p, peers, passed, floor) &&
      JobsOk(peers, jobs, running)
    requires TaskOk(peers, syncPeer, chunkTask, tasks) && peers[q].awaiting && StagesOk(p, peers, jobs)
    requires forall i :: 0 < i < |headers| ==> headers[i].prevId == HeaderHash(headers[i - 1])
    ensures var now := peers[q := peers[q].(awaiting := false, checking := true)];
      var more := jobs[j := Job(q, peers[q].syncRound, headers, Queued)];
      && PeersOk(p, now, passed, floor) && JobsOk(now, more, running[q := j]) && TaskOk(now, syncPeer, chunkTask, tasks)
      && StagesOk(p, now, more)
  {
    hide Exact, JobsOk;
    PeerIs(p, peers, passed, floor, q);
    OneMoreJob(peers, jobs, running, q, j, headers, peers[q := peers[q].(awaiting := false, checking := true)]);
  }

  /** The same header check goes on in another stage. */
  lemma JobGoesOn(p: Params, peers: Peers, jobs: Jobs, running: Running, j: nat, stage: Stage)
    requires ValidParams(p) && j in jobs && JobsOk(peers, jobs, running)
    requires StagesOk(p, peers, jobs) && (Current(peers, jobs[j]) ==> StageOk(p, stage)) &&
      Batch(jobs[j].(stage := stage))
    ensures JobsOk(peers, jobs[j := jobs[j].(stage := stage)], running)
    ensures StagesOk(p, peers, jobs[j := jobs[j].(stage := stage)])
  {
    hide StageOk, Batch;
    var more := jobs[j := jobs[j].(stage := stage)];
    forall k | k in more
      ensures JobOk(peers, running, k, more[k])
    {
      assert JobOk(peers, running, k, jobs[k]);
    }
    forall r | r in running
      ensures RunningOk(peers, more, running, r)
    {
      assert RunningOk(peers, jobs, running, r);
    }
  }

  // --- what passed, and what was requested --------------------------------------------------------------------

  lemma FloorRises(p: Params, peers: Peers, passed: Passed, floor: nat, higher: nat)
    requires PeersOk(p, peers, passed, floor) && floor <= higher
    ensures PeersOk(p, peers, passed, higher)
  {
  }

  function IdsOf(headers: seq<BlockHeader>): (r: seq<Digest>)
    ensures |r| == |headers| && forall i :: 0 <= i < |r| ==> r[i] == HeaderHash(headers[i])
  {
    seq(|headers|, i requires 0 <= i < |headers| => HeaderHash(headers[i]))
  }

  function Recorded(passed: Passed, q: nat, round: nat, ids: seq<Digest>): Passed {
    passed[(q, round) := PassedIn(passed, q, round) + SetOf(ids)]
  }

  /** More headers passed: nothing recorded before is lost. */
  lemma RecordKeeps(p: Params, peers: Peers, passed: Passed, floor: nat, requests: seq<Request>, q: nat, round: nat,
                    ids: seq<Digest>)
    requires ValidParams(p) && PeersOk(p, peers, passed, floor) && PassedOk(p, passed) &&
      RequestsOk(p, requests, passed)
    requires forall id :: id in ids ==> FullyChecked(p, id)
    ensures var more := Recorded(passed, q, round, ids);
      PeersOk(p, peers, more, floor) && PassedOk(p, more) && RequestsOk(p, requests, more)
  {
    hide FullyChecked, Exact;
    var more := Recorded(passed, q, round, ids);
    assert forall r, n :: PassedIn(passed, r, n) <= PassedIn(more, r, n);
  }

  /** Headers checked in order, with their proofs of work, are fully checked. */
  lemma CheckedAndProved(p: Params, from: BlockHeader, headers: seq<BlockHeader>)
    requires ValidParams(p) && Follow(p, from, headers) && forall h :: h in headers ==> p.meetsTarget(h)
    ensures forall id :: id in IdsOf(headers) ==> FullyChecked(p, id)
  {
    hide FitsUnmined;
    forall i | 0 <= i < |headers|
      ensures FullyChecked(p, HeaderHash(headers[i]))
    {
      assert headers[i] in headers;
      CheckedHeaderFits(p, from, headers, i);
      HasVersion(p, from, headers, i);
    }
  }

  lemma HasVersion(p: Params, from: BlockHeader, headers: seq<BlockHeader>, i: nat)
    requires ValidParams(p) && Follow(p, from, headers) && i < |headers|
    ensures headers[i].version == BLOCK_VERSION
  {
  }

  /** One more request, for blocks the peer's checked tip made worth having. */
  lemma RequestIsOk(p: Params, q: nat, peer: Peer, passed: Passed, floor: nat, requests: seq<Request>,
                    ids: set<Digest>, ours: nat)
    requires ValidParams(p) && PeerOk(p, q, peer, passed, floor) && PassedOk(p, passed) &&
      RequestsOk(p, requests, passed)
    requires ids != {} && (forall id :: id in ids ==> id in peer.waiting)
    requires peer.headerTip.Some? && peer.headerTip.value.chainWork > ours >= floor
    ensures RequestsOk(p, requests + [Request(q, peer.syncRound, ids, peer.headerTip.value, ours)], passed)
  {
    hide FullyChecked, Exact;
  }
}
