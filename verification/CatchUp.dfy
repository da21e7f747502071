/**
 p2p.py, catching up: the events of the step machine, each run to completion as asyncio does. Peers
 send what they like; background checks and downloads finish late, or for rounds long abandoned.
 */
module CatchUp {
  import opened Types
  import opened ChainState
  import opened Headers
  import opened SyncState
  import opened SyncSteps
  import Ledger
  import Chain
  import Receiving
  import Adoption
  import Delivery
  import Importing
  import Switching

  class Node {
    const chain: Chain.ChainManager
    var peers: Peers
    var syncPeer: Option<nat>
    var chunkTask: Option<nat>
    var tasks: Tasks
    var jobs: Jobs
    var nextId: nat
    ghost var running: Running
    ghost var passed: Passed
    ghost var requests: seq<Request>
    ghost var floor: nat  // work the active chain has reached

    /** All but the last point: an open sync peer is busy. */
    ghost predicate Core()
      reads this, chain, chain.store
    {
      && chain.Good() && chain.PoolOk() && ValidParams(chain.p)
      && PeersOk(chain.p, peers, passed, floor)
      && PassedOk(chain.p, passed)
      && JobsOk(peers, jobs, running) && StagesOk(chain.p, peers, jobs)
      && chain.p.medianTimeSpan <= MAX_HEADERS && floor <= WorkOf(chain.chain)
      && TaskOk(peers, syncPeer, chunkTask, tasks)
      && RequestsOk(chain.p, requests, passed)
      && (forall j :: j in jobs ==> j < nextId)
      && (forall t :: t in tasks ==> t < nextId)
    }

    /** What holds between any two events. */
    ghost predicate Valid()
      reads this, chain, chain.store
    {
      Core() && Busy(peers, syncPeer, chunkTask, running)
    }

    ghost function Now(): Sync
      reads this
    {
      Sync(peers, syncPeer, chunkTask)
    }

    ghost function Ours(): nat
      reads this, chain
    {
      WorkOf(chain.chain)
    }

    ghost function Sealed(): nat
      reads this, chain, chain.store
    {
      chain.store.tables.sealedChunks
    }

    constructor (chain: Chain.ChainManager)
      requires chain.Good() && chain.PoolOk() && ValidParams(chain.p) && chain.p.medianTimeSpan <= MAX_HEADERS
      ensures Valid() && this.chain == chain && peers == map[] && requests == []
    {
      this.chain := chain;
      peers, syncPeer, chunkTask, tasks, jobs, nextId := map[], None, None, map[], map[], 0;
      running, passed, requests, floor := map[], map[], [], 0;
    }

    method TipWork() returns (work: nat)
      requires chain.Good()
      ensures work == WorkOf(chain.chain)
    {
      hide Inv, Work;
      var t := chain.store.tables;
      Switching.InvShape(chain.p, t, chain.chain);
      Switching.TipIsStored(chain.p, t, chain.chain);
      var tip := t.active.main[|t.active.main| - 1];
      Headers.Stored(chain.p, t, chain.chain, tip);
      work := t.headers[tip].chainWork;
    }

    // --- starting and ending a round ----------------------------------------------------------------------

    /** p2p._cancel_chunk_sync */
    method CancelChunkSync()
      requires Core()
      modifies this`chunkTask, this`tasks
      ensures Core() && chunkTask == None && tasks.Keys == old(tasks).Keys
    {
      hide PeersOk, PassedOk, JobsOk, RequestsOk, Inv;
      var task := chunkTask;
      chunkTask := None;
      if task.Some? {
        tasks := tasks[task.value := tasks[task.value].(cancelled := true)];
      }
    }

    /** p2p._request_headers */
    method RequestHeaders(q: nat)
      requires Core() && q in peers && !peers[q].checking && chunkTask.None? && peers[q].inFlight == {}
      requires peers[q].headerTip.Some? ==> Exact(chain.p, peers[q].headerTip.value)
      modifies this`peers
      ensures Core() && peers == old(peers)[q := old(peers)[q].(awaiting := true)]
    {
      hide PassedOk, RequestsOk, Inv, Exact, PeersOk, JobsOk, StagesOk, TaskOk;
      PeerIs(chain.p, peers, passed, floor, q);
      var x := peers[q].(awaiting := true);
      SetPeer(chain.p, peers, jobs, running, syncPeer, chunkTask, tasks, passed, floor, q, x);
      peers := peers[q := x];
    }

    /** The peer starts its next round, with nothing known yet. */
    method BeginRound(q: nat)
      requires Core() && q in peers
      modifies this`peers, this`running, this`syncPeer, this`chunkTask, this`tasks
      ensures Core() && syncPeer == Some(q) && chunkTask == None && tasks.Keys == old(tasks).Keys
      ensures peers == old(peers)[q := old(peers)[q].(syncRound := old(peers)[q].syncRound + 1, headerTip := None,
                                                      moreHeaders := false, awaiting := false, checking := false,
                                                      waiting := [], inFlight := {})]
    {
      hide PassedOk, RequestsOk, Inv, Exact, PeersOk, JobsOk, StagesOk;
      CancelChunkSync();
      var x := peers[q].(syncRound := peers[q].syncRound + 1, headerTip := None, moreHeaders := false,
                         awaiting := false, checking := false, waiting := [], inFlight := {});
      NewRound(chain.p, peers, jobs, running, passed, floor, q, x);
      peers := peers[q := x];
      running := running - {q};
      syncPeer := Some(q);
    }

    /** p2p._start_sync */
    method StartSync(q: nat)
      requires Core() && q in peers
      modifies this`peers, this`running, this`syncPeer, this`chunkTask, this`tasks, this`nextId
      ensures Valid() && Starts(old(Now()), Now(), q, Sealed())
      ensures TasksGrow(old(tasks), tasks, None, chunkTask) && nextId >= old(nextId)
    {
      hide PassedOk, RequestsOk, Inv, Exact, PeersOk, JobsOk, StagesOk,
        Chain.ChainManager.Good, Chain.ChainManager.PoolOk;
      BeginRound(q);
      if peers[q].hasUrl && peers[q].chunks > chain.store.tables.sealedChunks {
        tasks := tasks[nextId := ChunkTask(q, peers[q].syncRound, false)];
        chunkTask := Some(nextId);
        nextId := nextId + 1;
      } else {
        RequestHeaders(q);
      }
    }

    /** p2p._maybe_sync: catch up with the peer that claims the most work, if it claims more than ours. */
    method MaybeSync()
      requires Core() && (syncPeer.Some? ==> Busy(peers, syncPeer, chunkTask, running))
      modifies this`peers, this`running, this`syncPeer, this`chunkTask, this`tasks, this`nextId
      ensures Valid() && Resumes(old(Now()), Now(), Ours(), Sealed())
      ensures TasksGrow(old(tasks), tasks, old(chunkTask), chunkTask) && nextId >= old(nextId)
      ensures old(syncPeer).Some? ==> tasks == old(tasks) && running == old(running) && nextId == old(nextId)
    {
      hide PassedOk, RequestsOk, Inv, PeersOk, JobsOk, StagesOk, TaskOk, WorkOf;
      if syncPeer.Some? { return; }
      var ours := TipWork();
      var candidates := set q | q in peers && peers[q].ready && !peers[q].closed && peers[q].work > ours;
      assert forall q :: Candidate(peers, ours, q) <==> q in candidates;
      if candidates != {} {
        MostWork(peers, candidates);
        var q :| q in candidates && forall r :: r in candidates ==> peers[r].work <= peers[q].work;
        StartSync(q);
      }
    }

    /** p2p._end_sync */
    method EndSync(q: nat, useless: bool)
      requires Core() && q in peers && syncPeer == Some(q)
      modifies this`peers, this`running, this`syncPeer, this`chunkTask, this`tasks, this`nextId
      ensures Valid() && Ends(old(Now()), Now(), q, useless, Ours(), Sealed()) && syncPeer != Some(q)
      ensures TasksGrow(old(tasks), tasks, None, chunkTask) && nextId >= old(nextId)
    {
      hide PassedOk, RequestsOk, Inv, Exact, PeersOk, JobsOk, StagesOk, TaskOk, WorkOf, Resumes,
        Chain.ChainManager.Good, Chain.ChainManager.PoolOk;
      var ours := TipWork();
      PeerIs(chain.p, peers, passed, floor, q);
      var x := peers[q].(work := if useless then 0 else if peers[q].work <= ours then peers[q].work else ours,
                         headerTip := None, moreHeaders := false, waiting := [], inFlight := {});
      SetPeer(chain.p, peers, jobs, running, syncPeer, chunkTask, tasks, passed, floor, q, x);
      peers := peers[q := x];
      StopSync();
      MaybeSync();
      EndsWithAnother(old(Now()), Now(), q, useless, Ours(), Sealed());
    }

    /** Nobody to catch up with, and no download for it. */
    method StopSync()
      requires Core()
      modifies this`syncPeer, this`chunkTask, this`tasks
      ensures Core() && syncPeer == None && chunkTask == None && tasks.Keys == old(tasks).Keys
    {
      hide PassedOk, RequestsOk, Inv, PeersOk, JobsOk, StagesOk;
      CancelChunkSync();
      syncPeer := None;
    }

    /** p2p._drop: from outside its reader; nothing more is taken from the peer. */
    method Drop(q: nat, ban: bool)
      requires Core() && q in peers
      requires syncPeer != Some(q) ==> Busy(peers, syncPeer, chunkTask, running)
      modifies this`peers, this`running, this`syncPeer, this`chunkTask, this`tasks, this`nextId
      ensures Valid() && Drops(old(Now()), Now(), q, ban, Ours(), Sealed()) && syncPeer != Some(q)
      ensures TasksGrow(old(tasks), tasks, old(Without(Now(), q)).task, chunkTask) && nextId >= old(nextId)
    {
      hide PassedOk, RequestsOk, Inv, Exact, PeersOk, JobsOk, StagesOk, TaskOk, WorkOf, Resumes,
        Chain.ChainManager.Good, Chain.ChainManager.PoolOk;
      PeerIs(chain.p, peers, passed, floor, q);
      var x := peers[q].(closed := true, banned := peers[q].banned || ban, work := 0);
      SetPeer(chain.p, peers, jobs, running, syncPeer, chunkTask, tasks, passed, floor, q, x);
      peers := peers[q := x];
      if syncPeer == Some(q) { StopSync(); }
      MaybeSync();
      DropsForAnother(old(Now()), Now(), q, ban, Ours(), Sealed());
    }

    // --- asking for blocks ----------------------------------------------------------------------------------

    /** The checked headers whose blocks have not arrived meanwhile. */
    method SkipArrived(q: nat) returns (waiting: seq<Digest>)
      requires q in peers
      ensures waiting == StillWanted(peers[q].waiting, chain.store.tables.headers.Keys)
      ensures forall id :: id in waiting ==> id in peers[q].waiting
    {
      waiting := peers[q].waiting;
      while waiting != [] && waiting[0] in chain.store.tables.headers
        invariant StillWanted(waiting, chain.store.tables.headers.Keys)
               == StillWanted(peers[q].waiting, chain.store.tables.headers.Keys)
        invariant forall id :: id in waiting ==> id in peers[q].waiting
      {
        waiting := waiting[1..];
      }
    }

    /** p2p._continue_sync */
    method ContinueSync(q: nat)
      requires Core() && q in peers && (syncPeer != Some(q) ==> Busy(peers, syncPeer, chunkTask, running))
      requires syncPeer == Some(q) ==> chunkTask.None?
      modifies this`peers, this`running, this`syncPeer, this`chunkTask, this`tasks, this`nextId, this`requests
      ensures Valid() && Asked(old(requests), requests, chain.chain) && nextId >= old(nextId)
      ensures Continues(old(Now()), Now(), q, chain.store.tables.headers.Keys, old(requests), requests, Ours(),
                        Sealed())
    {
      hide PassedOk, RequestsOk, Inv, Exact, PeersOk, JobsOk, StagesOk, TaskOk, WorkOf, Continues, Ends, StillWanted,
        RealWork, CheckedOrLow, PassedIn, Chain.ChainManager.Good, Chain.ChainManager.PoolOk;
      RunningIs(chain.p, peers, jobs, running, q);
      ghost var was, stored := Now(), chain.store.tables.headers.Keys;
      if syncPeer != Some(q) || peers[q].inFlight != {} || peers[q].awaiting || peers[q].checking {
        NothingToDo(was, q, stored, requests, Ours(), Sealed());
        return;
      }
      var waiting := SkipArrived(q);
      var ours := TipWork();
      var better := peers[q].headerTip.Some? && peers[q].headerTip.value.chainWork > ours;
      if waiting != [] && better {
        RequestBlocks(q, waiting, ours);
        AsksForBlocks(was, Now(), q, stored, old(requests), requests, ours, Sealed());
      } else if peers[q].moreHeaders && |waiting| < MAX_PENDING_HEADERS {
        RequestMore(q, waiting);
        AsksForHeaders(was, Now(), q, stored, requests, ours, Sealed());
      } else {
        EndSync(q, false);
        RoundIsOver(was, Now(), q, stored, requests, ours, Sealed());
      }
    }

    /** The next headers, after those checked so far. */
    method RequestMore(q: nat, waiting: seq<Digest>)
      requires Core() && q in peers && syncPeer == Some(q) && chunkTask.None? && peers[q].moreHeaders
      requires peers[q].inFlight == {} && !peers[q].checking && forall id :: id in waiting ==> id in peers[q].waiting
      modifies this`peers
      ensures Valid() && peers == old(peers)[q := old(peers)[q].(waiting := waiting, awaiting := true)]
    {
      hide PassedOk, RequestsOk, Inv, Exact, PeersOk, JobsOk, StagesOk, TaskOk, Chain.ChainManager.Good,
        Chain.ChainManager.PoolOk;
      PeerIs(chain.p, peers, passed, floor, q);
      UpdatePeer(q, peers[q].(waiting := waiting));
      RequestHeaders(q);
    }

    /** The next blocks, at most 64. */
    method RequestBlocks(q: nat, waiting: seq<Digest>, ours: nat)
      requires Core() && q in peers && syncPeer == Some(q) && chunkTask.None? && waiting != []
      requires forall id :: id in waiting ==> id in peers[q].waiting
      requires peers[q].headerTip.Some? && peers[q].headerTip.value.chainWork > ours
      requires !peers[q].awaiting && !peers[q].checking && ours == WorkOf(chain.chain)
      modifies this`peers, this`requests
      ensures Valid() && Asked(old(requests), requests, chain.chain)
      ensures var x, n := old(peers)[q], if |waiting| <= BLOCKS_PER_REQUEST then |waiting| else BLOCKS_PER_REQUEST;
        && peers == old(peers)[q := x.(waiting := waiting[n..], inFlight := SetOf(waiting[..n]))]
        && requests == old(requests) + [Request(q, x.syncRound, SetOf(waiting[..n]), x.headerTip.value, ours)]
    {
      hide PassedOk, RequestsOk, Inv, Exact, PeersOk, JobsOk, StagesOk, TaskOk,
        Chain.ChainManager.Good, Chain.ChainManager.PoolOk;
      PeerIs(chain.p, peers, passed, floor, q);
      var n := if |waiting| <= BLOCKS_PER_REQUEST then |waiting| else BLOCKS_PER_REQUEST;
      var batch, rest := waiting[..n], waiting[n..];
      assert batch[0] in SetOf(batch);
      assert forall id :: id in batch ==> id in waiting;
      assert forall id :: id in rest ==> id in waiting;
      RequestIsOk(chain.p, q, peers[q], passed, floor, requests, SetOf(batch), ours);
      requests := requests + [Request(q, peers[q].syncRound, SetOf(batch), peers[q].headerTip.value, ours)];
      UpdatePeer(q, peers[q].(waiting := rest, inFlight := SetOf(batch)));
      assert batch[0] in peers[q].inFlight;
    }

    /** A change of one peer's fields within its round. */
    method UpdatePeer(q: nat, x: Peer)
      requires Core() && q in peers && PeerOk(chain.p, q, x, passed, floor)
      requires x.syncRound == peers[q].syncRound && x.checking == peers[q].checking
      requires chunkTask.None? || Idle(x) || !Idle(peers[q])
      modifies this`peers
      ensures Core() && peers == old(peers)[q := x]
    {
      hide PassedOk, RequestsOk, Inv, PeerOk, PeersOk, JobsOk, StagesOk, TaskOk;
      SetPeer(chain.p, peers, jobs, running, syncPeer, chunkTask, tasks, passed, floor, q, x);
      peers := peers[q := x];
    }

    // --- events: peers come and go --------------------------------------------------------------------------

    /** p2p._handle_hello, once its checks passed. */
    method OnHello(q: nat, work: nat, chunks: nat, hasUrl: bool)
      requires Valid() && q !in peers
      modifies this`peers, this`running, this`syncPeer, this`chunkTask, this`tasks, this`nextId
      ensures Valid()
      ensures var x := Peer(true, false, false, work, chunks, hasUrl, 0, None, [], {}, false, false, false);
        Resumes(old(Now()).(peers := old(peers)[q := x]), Now(), Ours(), Sealed())
    {
      hide PassedOk, RequestsOk, Inv, Exact, PeersOk, JobsOk, StagesOk, WorkOf, Resumes;
      var x := Peer(true, false, false, work, chunks, hasUrl, 0, None, [], {}, false, false, false);
      NewPeer(chain.p, peers, jobs, running, syncPeer, chunkTask, tasks, passed, floor, q, x);
      peers := peers[q := x];
      MaybeSync();
    }

    /** The connection goes away, the peer is too slow to keep up, or it broke the protocol: from here on
        it is closed. */
    method OnClosed(q: nat, ban: bool)
      requires Core() && q in peers
      requires syncPeer != Some(q) ==> Busy(peers, syncPeer, chunkTask, running)
      modifies this`peers
      ensures Valid() && peers == old(peers)[q := Closed(old(peers)[q], ban)]
    {
      hide PassedOk, RequestsOk, Inv, Exact, PeersOk, JobsOk, StagesOk, TaskOk,
        Chain.ChainManager.Good, Chain.ChainManager.PoolOk;
      PeerIs(chain.p, peers, passed, floor, q);
      UpdatePeer(q, peers[q].(closed := true, banned := peers[q].banned || ban,
                              work := if ban then 0 else peers[q].work));
    }

    /** The end of p2p._serve for a closed peer. */
    method OnGone(q: nat)
      requires Valid() && q in peers && peers[q].closed
      modifies this`peers, this`running, this`syncPeer, this`chunkTask, this`tasks, this`nextId
      ensures Valid()
      ensures if old(syncPeer) == Some(q) then Resumes(Without(old(Now()), q), Now(), Ours(), Sealed())
              else Now() == old(Now())
    {
      hide PassedOk, RequestsOk, Inv, Exact, PeersOk, JobsOk, StagesOk, TaskOk, WorkOf, Resumes;
      if syncPeer == Some(q) {
        StopSync();
        MaybeSync();
      }
    }

    /** p2p._check_stall, when the peer has taken too long. */
    method OnStall()
      requires Valid()
      modifies this`peers, this`running, this`syncPeer, this`chunkTask, this`tasks, this`nextId
      ensures Valid()
      ensures if old(syncPeer).Some? then Drops(old(Now()), Now(), old(syncPeer).value, false, Ours(), Sealed())
              else Now() == old(Now())
    {
      hide PassedOk, RequestsOk, Inv, Exact, PeersOk, JobsOk, StagesOk, WorkOf, Resumes;
      if syncPeer.Some? { Drop(syncPeer.value, false); }
    }

    // --- events: headers ---------------------------------------------------------------------------------------

    /** p2p._on_headers: one answer per question, and it must be a chain. */
    method OnHeaders(q: nat, headers: seq<BlockHeader>, readable: bool)
      requires Valid() && q in peers && !peers[q].closed
      modifies this`peers, this`jobs, this`running, this`nextId
      ensures Valid()
      ensures var x, was := old(peers)[q], old(peers);
        if |headers| > MAX_HEADERS then peers == was[q := Closed(x, true)] && jobs == old(jobs)
        else if syncPeer != Some(q) || !x.awaiting then peers == was && jobs == old(jobs)
        else if !readable || !InLine(headers) then
          peers == was[q := Closed(x.(awaiting := false), true)] && jobs == old(jobs)
        else
          && peers == was[q := x.(awaiting := false, checking := true)] && old(nextId) !in old(jobs)
          && jobs == old(jobs)[old(nextId) := Job(q, x.syncRound, headers, Queued)]
    {
      hide PassedOk, RequestsOk, Inv, Exact, PeersOk, JobsOk, StagesOk, TaskOk,
        Chain.ChainManager.Good, Chain.ChainManager.PoolOk;
      if |headers| > MAX_HEADERS {
        OnClosed(q, true);
        return;
      }
      if syncPeer != Some(q) || !peers[q].awaiting { return; }
      PeerIs(chain.p, peers, passed, floor, q);
      if !readable || exists i :: 0 < i < |headers| && headers[i].prevId != HeaderHash(headers[i - 1]) {
        UpdatePeer(q, peers[q].(awaiting := false));
        OnClosed(q, true);
        return;
      }
      assert nextId !in jobs;
      JobStarts(chain.p, peers, jobs, running, syncPeer, chunkTask, tasks, passed, floor, q, nextId, headers);
      jobs := jobs[nextId := Job(q, peers[q].syncRound, headers, Queued)];
      running := running[q := nextId];
      peers := peers[q := peers[q].(awaiting := false, checking := true)];
      nextId := nextId + 1;
    }

    // --- events: a header check, in two steps -------------------------------------------------------------------

    /** The `finally` of p2p._check_headers: the check is over, for its round at least. */
    method FinishJob(j: nat)
      requires Valid() && j in jobs
      modifies this`peers, this`jobs, this`running
      ensures Core() && jobs == old(jobs) - {j}
      ensures var job := old(jobs[j]);
        && job.peer in old(peers) && peers == AfterJob(old(peers), job) && Now() == old(Now()).(peers := peers)
        && (syncPeer != Some(job.peer) || job.round != peers[job.peer].syncRound ==>
            Busy(peers, syncPeer, chunkTask, running))
        && (job.round == peers[job.peer].syncRound ==>
            !peers[job.peer].checking && !peers[job.peer].awaiting && peers[job.peer].inFlight == {})
        && (job.round == peers[job.peer].syncRound && syncPeer == Some(job.peer) ==> chunkTask.None?)
    {
      hide PassedOk, RequestsOk, Inv, Exact, PeersOk, JobsOk, StageOk, TaskOk;
      JobDone(chain.p, peers, jobs, running, syncPeer, chunkTask, tasks, passed, floor, j);
      CheckingHasNoTask(peers, syncPeer, chunkTask, tasks);
      var job := jobs[j];
      var now := AfterJob(peers, job);
      running := RunningAfter(peers, running, job);
      peers := now;
      jobs := jobs - {j};
    }

    /** The check failed: drop the peer. */
    method FailJob(j: nat, ban: bool)
      requires Valid() && j in jobs
      modifies this`peers, this`jobs, this`running, this`syncPeer, this`chunkTask, this`tasks, this`nextId
      ensures Valid() && jobs == old(jobs) - {j}
      ensures AfterCheck(old(Now()), Now(), old(jobs[j]), Failed(ban), chain.store.tables.headers.Keys, requests,
                         requests, Ours(), Sealed())
    {
      hide PassedOk, RequestsOk, Inv, PeersOk, JobsOk, StagesOk, TaskOk, WorkOf, Resumes;
      var q := jobs[j].peer;
      FinishJob(j);
      Drop(q, ban);
    }

    /** The peer's branch split off below our final history: not following it. */
    method LeaveJob(j: nat)
      requires Valid() && j in jobs
      modifies this`peers, this`jobs, this`running, this`syncPeer, this`chunkTask, this`tasks, this`nextId
      ensures Valid() && jobs == old(jobs) - {j}
      ensures AfterCheck(old(Now()), Now(), old(jobs[j]), Foreign, chain.store.tables.headers.Keys, requests, requests,
                         Ours(), Sealed())
    {
      hide PassedOk, RequestsOk, Inv, PeersOk, JobsOk, StagesOk, TaskOk, WorkOf, Resumes;
      var q := jobs[j].peer;
      FinishJob(j);
      if syncPeer == Some(q) { EndSync(q, true); }
    }

    /** The headers don't connect to anything we know: start over from our own chain. */
    method RestartJob(j: nat)
      requires Valid() && j in jobs
      modifies this`peers, this`jobs, this`running
      ensures Valid() && jobs == old(jobs) - {j}
      ensures AfterCheck(old(Now()), Now(), old(jobs[j]), Unconnected, chain.store.tables.headers.Keys, requests,
                         requests, Ours(), Sealed())
    {
      hide PassedOk, RequestsOk, Inv, Exact, PeersOk, JobsOk, StagesOk, TaskOk,
        Chain.ChainManager.Good, Chain.ChainManager.PoolOk;
      var job := jobs[j];
      FinishJob(j);
      if peers[job.peer].syncRound == job.round && syncPeer == Some(job.peer) {
        PeerIs(chain.p, peers, passed, floor, job.peer);
        UpdatePeer(job.peer, peers[job.peer].(headerTip := None, waiting := []));
        RequestHeaders(job.peer);
      }
    }

    /** The end of p2p._check_headers: results of an abandoned round are ignored. A tip that lacks timestamps ends
        the catching up, since only a full batch asks for more. */
    method Conclude(j: nat, tip: Option<HeaderTip>, ids: seq<Digest>, newCount: nat)
      requires Valid() && j in jobs && |ids| <= newCount
      requires Current(peers, jobs[j]) && tip.Some? ==>
        RealWork(tip.value) && (Exact(chain.p, tip.value) || |jobs[j].headers| != MAX_HEADERS)
      requires Current(peers, jobs[j]) && tip.Some? ==>
        CheckedOrLow(tip.value, PassedIn(passed, jobs[j].peer, jobs[j].round), WorkOf(chain.chain))
      requires Current(peers, jobs[j]) ==> forall id :: id in ids ==>
        id in PassedIn(passed, jobs[j].peer, jobs[j].round)
      modifies this`peers, this`jobs, this`running, this`syncPeer, this`chunkTask, this`tasks, this`nextId,
        this`requests, this`floor
      ensures Valid() && Asked(old(requests), requests, chain.chain) && jobs == old(jobs) - {j}
      ensures AfterCheck(old(Now()), Now(), old(jobs[j]), Good(tip, ids, newCount), chain.store.tables.headers.Keys,
                         old(requests), requests, Ours(), Sealed())
    {
      hide PassedOk, RequestsOk, Inv, Exact, PeersOk, JobsOk, StagesOk, TaskOk, RealWork, CheckedOrLow, WorkOf,
        Continues,
        Chain.ChainManager.Good, Chain.ChainManager.PoolOk;
      var job := jobs[j];
      var q := job.peer;
      ghost var current := Current(peers, job);
      FinishJob(j);
      if syncPeer != Some(q) || peers[q].closed || peers[q].syncRound != job.round { return; }
      FloorRises(chain.p, peers, passed, floor, WorkOf(chain.chain));
      floor := WorkOf(chain.chain);
      PeerIs(chain.p, peers, passed, floor, q);
      UpdatePeer(q, peers[q].(headerTip := tip, waiting := peers[q].waiting + ids,
                              moreHeaders := |job.headers| == MAX_HEADERS && |ids| == newCount,
                              work := if |ids| < newCount then 0 else peers[q].work));
      ContinueSync(q);
    }

    /** How many of these headers we have already, from the first one on; none if one is marked invalid. */
    method KnownPrefix(headers: seq<BlockHeader>) returns (n: nat, invalid: bool)
      ensures Leading(chain.store.tables, headers, n)
      ensures invalid <==> n < |headers| && HeaderHash(headers[n]) in chain.store.tables.headers
    {
      n := 0;
      while n < |headers| && HeaderHash(headers[n]) in chain.store.tables.headers
        invariant n <= |headers|
        invariant forall i :: 0 <= i < n ==>
          HeaderHash(headers[i]) in chain.store.tables.headers
          && chain.store.tables.headers[HeaderHash(headers[i])].status != Invalid
      {
        if chain.store.tables.headers[HeaderHash(headers[n])].status == Invalid { return n, true; }
        n := n + 1;
      }
      invalid := false;
    }

    /** Where checking the new headers starts: a stored block, or the end of what was checked before. */
    method Anchor(q: nat, headers: seq<BlockHeader>, known: nat) returns (tip: Option<HeaderTip>, own: bool)
      requires Core() && q in peers && known <= |headers|
      ensures tip.Some? ==> RealWork(tip.value)
      ensures own || headers == [] ==> tip == peers[q].headerTip
      ensures own <==> (known == 0 && headers != [] && peers[q].headerTip.Some?
                        && headers[0].prevId == HeaderHash(peers[q].headerTip.value.header))
      ensures !own && headers != [] ==>
        var id := if known > 0 then HeaderHash(headers[known - 1]) else headers[0].prevId;
        && (tip.Some? <==> id in chain.store.tables.headers)
        && (tip.Some? ==> HeaderHash(tip.value.header) == id)
      ensures !own && headers != [] && tip.Some? ==>
        StoredBack(chain.store.tables, HeaderHash(tip.value.header), chain.p.medianTimeSpan) ==>
          Exact(chain.p, tip.value)
    {
      hide PassedOk, RequestsOk, Inv, PeersOk, JobsOk, StagesOk, TaskOk, TipAt, StoredBack, Work;
      PeerIs(chain.p, peers, passed, floor, q);
      own := false;
      if known > 0 {
        tip := HeaderTipOf(chain, HeaderHash(headers[known - 1]));
      } else if headers == [] {
        tip := peers[q].headerTip;
      } else if peers[q].headerTip.Some? && headers[0].prevId == HeaderHash(peers[q].headerTip.value.header) {
        tip, own := peers[q].headerTip, true;
      } else {
        tip := HeaderTipOf(chain, headers[0].prevId);
      }
    }

    /** p2p._check_headers up to where it waits for the proofs of work, if it comes that far: then there is no verdict
        yet. `n` is the number of headers known already. */
    method OnCheck(j: nat, now: nat) returns (ghost verdict: Option<Verdict>, ghost n: nat)
      requires Valid() && j in jobs && jobs[j].stage == Queued
      modifies this`peers, this`jobs, this`running, this`syncPeer, this`chunkTask, this`tasks, this`nextId,
        this`requests, this`floor
      ensures Valid() && Asked(old(requests), requests, chain.chain)
      ensures |chain.store.tables.active.main| > 0 && old(jobs[j]).peer in old(peers)
      ensures verdict.None? ==> j in jobs && jobs == old(jobs)[j := old(jobs[j]).(stage := jobs[j].stage)]
      ensures Judged(chain.p, chain.store.tables, chain.chain, Current(old(peers), old(jobs[j])),
                     old(peers)[old(jobs[j]).peer].headerTip, old(jobs[j]).headers, n, now, verdict,
                     if verdict.None? then jobs[j].stage else Queued)
      ensures match verdict
              case None => Now() == old(Now()) && requests == old(requests)
              case Some(v) =>
                && jobs == old(jobs) - {j}
                && AfterCheck(old(Now()), Now(), old(jobs[j]), v, chain.store.tables.headers.Keys, old(requests),
                              requests, Ours(), Sealed())
    {
      hide PassedOk, RequestsOk, Inv, Exact, PeersOk, JobsOk, StagesOk, TaskOk, StoredBack, RealWork, Batch, WorkOf,
        Work, AfterCheck, Tested, PrunedAbove, FinalizedHeight, MeetsFinal;
      PeerIsOf(j);
      Switching.InvShape(chain.p, chain.store.tables, chain.chain);
      var headers, q := jobs[j].headers, jobs[j].peer;
      JobIs(peers, jobs, running, j);
      var known, invalid := KnownPrefix(headers);
      n := known;
      if invalid {
        FailJob(j, true);
        return Some(Failed(true)), n;
      }
      var tip, own := Anchor(q, headers, known);
      if headers != [] && tip.None? {
        RestartJob(j);
        return Some(Unconnected), n;
      }
      var newOnes := headers[known..];
      if newOnes == [] {
        if known > 0 {
          StoredIsNoBetter(chain.p, chain.store.tables, chain.chain, HeaderHash(headers[known - 1]));
          WorkIsReal(tip.value);
        }
        if |headers| == MAX_HEADERS {
          FullBatchIsExact(chain.p, chain.store.tables, chain.chain, jobs[j]);
        }
        Conclude(j, tip, [], 0);
        return Some(Good(tip, [], 0)), n;
      } else {
        LinkedTo(jobs[j], known);
        verdict := CheckNew(j, tip.value, own, newOnes, known, now);
      }
    }

    lemma PeerIsOf(j: nat)
      requires Valid() && j in jobs
      ensures jobs[j].peer in peers && Batch(jobs[j])
      ensures Current(peers, jobs[j]) && peers[jobs[j].peer].headerTip.Some? ==>
        Exact(chain.p, peers[jobs[j].peer].headerTip.value)
      ensures Current(peers, jobs[j]) && peers[jobs[j].peer].headerTip.Some? ==>
        CheckedOrLow(peers[jobs[j].peer].headerTip.value, PassedIn(passed, jobs[j].peer, jobs[j].round),
                     WorkOf(chain.chain))
    {
      hide Exact, Inv;
      JobIs(peers, jobs, running, j);
      assert PeerOk(chain.p, jobs[j].peer, peers[jobs[j].peer], passed, floor);
    }

    /** The new headers against the anchor: every rule but proof of work. */
    method CheckNew(j: nat, tip: HeaderTip, own: bool, newOnes: seq<BlockHeader>, known: nat, now: nat)
      returns (ghost verdict: Option<Verdict>)
      requires Valid() && j in jobs && jobs[j].stage == Queued && newOnes != []
      requires jobs[j].peer in peers && RealWork(tip)
      requires own && Current(peers, jobs[j]) ==> Exact(chain.p, tip)
      requires own && Current(peers, jobs[j]) ==>
        CheckedOrLow(tip, PassedIn(passed, jobs[j].peer, jobs[j].round), WorkOf(chain.chain))
      requires !own ==> StoredBack(chain.store.tables, HeaderHash(tip.header), chain.p.medianTimeSpan) ==>
        Exact(chain.p, tip)
      modifies this`peers, this`jobs, this`running, this`syncPeer, this`chunkTask, this`tasks, this`nextId,
        this`requests, this`floor
      ensures Valid() && Asked(old(requests), requests, chain.chain) && |chain.store.tables.active.main| > 0
      ensures verdict.None? ==> j in jobs && jobs == old(jobs)[j := old(jobs[j]).(stage := jobs[j].stage)]
      ensures var t, parent := chain.store.tables, HeaderHash(tip.header);
        if !own && parent !in t.headers then true
        else if !own && t.headers[parent].status == Invalid then verdict == Some(Failed(true))
        else if !own && PrunedAbove(t, chain.chain, FinalizedHeight(chain.p, t), parent) then
          verdict == Some(Failed(false))
        else if !own && !MeetsFinal(chain.p, t, chain.chain, parent) then verdict == Some(Foreign)
        else old(Current(peers, jobs[j])) || !own ==>
          Tested(chain.p, tip.header, newOnes, now, verdict, if verdict.None? then jobs[j].stage else Queued)
      ensures match verdict
              case None => Now() == old(Now()) && requests == old(requests)
              case Some(v) =>
                && jobs == old(jobs) - {j}
                && AfterCheck(old(Now()), Now(), old(jobs[j]), v, chain.store.tables.headers.Keys, old(requests),
                              requests, Ours(), Sealed())
    {
      hide PassedOk, RequestsOk, Inv, PeersOk, JobsOk, StagesOk, TaskOk, StoredBack, AncestorsStored, MeetsFinal,
        PrunedAbove, Follow, FirstToBreak, Ledger.NotInFuture, AfterCheck, FinalizedHeight, Tested, WorkOf, PeerOk,
        Chain.ChainManager.PoolOk;
      Switching.InvShape(chain.p, chain.store.tables, chain.chain);
      if !own {
        var error, raised := CheckBranchPoint(chain, HeaderHash(tip.header));
        if raised {
          FailJob(j, false);
          return Some(Failed(false));
        }
        if error == Some(ForkBelowFinality) {
          LeaveJob(j);
          return Some(Foreign);
        }
        if error.Some? {
          FailJob(j, true);
          return Some(Failed(true));
        }
        FinalHasAncestors(chain.p, chain.store.tables, chain.chain, HeaderHash(tip.header));
        AncestorsReachBack(chain.store.tables, HeaderHash(tip.header), chain.p.medianTimeSpan);
        StoredIsNoBetter(chain.p, chain.store.tables, chain.chain, HeaderHash(tip.header));
      }
      verdict := TestNew(j, tip, Current(peers, jobs[j]) || !own, newOnes, known, now);
    }

    /** The new headers one by one, from a tip that walking gives, for a current round at least. */
    method TestNew(j: nat, tip: HeaderTip, ghost exact: bool, newOnes: seq<BlockHeader>, known: nat, now: nat)
      returns (ghost verdict: Option<Verdict>)
      requires Valid() && j in jobs && jobs[j].stage == Queued && newOnes != []
      requires jobs[j].peer in peers && RealWork(tip)
      requires (exact ==> Exact(chain.p, tip)) && (Current(peers, jobs[j]) ==> exact)
      requires Current(peers, jobs[j]) ==>
        CheckedOrLow(tip, PassedIn(passed, jobs[j].peer, jobs[j].round), WorkOf(chain.chain))
      modifies this`peers, this`jobs, this`running, this`syncPeer, this`chunkTask, this`tasks, this`nextId,
        this`requests, this`floor
      ensures Valid() && Asked(old(requests), requests, chain.chain)
      ensures verdict.None? ==> j in jobs && jobs == old(jobs)[j := old(jobs[j]).(stage := jobs[j].stage)]
      ensures exact ==>
        Tested(chain.p, tip.header, newOnes, now, verdict, if verdict.None? then jobs[j].stage else Queued)
      ensures match verdict
              case None => Now() == old(Now()) && requests == old(requests)
              case Some(v) =>
                && jobs == old(jobs) - {j}
                && AfterCheck(old(Now()), Now(), old(jobs[j]), v, chain.store.tables.headers.Keys, old(requests),
                              requests, Ours(), Sealed())
    {
      hide PassedOk, RequestsOk, Inv, PeersOk, JobsOk, StagesOk, TaskOk, Follow, FirstToBreak, Ledger.NotInFuture,
        AfterCheck, WorkOf, PeerOk, Chain.ChainManager.Good, Chain.ChainManager.PoolOk;
      var r := CheckHeaders(chain.p, tip, newOnes, now);
      if r.Err? {
        FailJob(j, true);
        return Some(Failed(true));
      }
      var next, checked := r.value.0, r.value.1;
      if checked == [] {
        assert next.header == tip.header;
        Conclude(j, Some(next), [], |newOnes|);
        return Some(Good(Some(next), [], |newOnes|));
      } else {
        var stage := Proving(next, tip.header, checked, known, |newOnes|);
        PeerIsOf(j);
        JobGoesOn(chain.p, peers, jobs, running, j, stage);
        jobs := jobs[j := jobs[j].(stage := stage)];
        verdict := None;
      }
    }

    /** The rest of p2p._check_headers, once every core is done with the proofs of work. */
    method OnProof(j: nat)
      requires Valid() && j in jobs && jobs[j].stage.Proving?
      modifies this, chain
      ensures Valid() && Asked(old(requests), requests, chain.chain) && jobs == old(jobs) - {j}
      ensures chain.chain == old(chain.chain)
      ensures var stage := old(jobs[j].stage);
        var proved := forall h :: h in stage.checked ==> chain.p.meetsTarget(h);
        AfterCheck(old(Now()), Now(), old(jobs[j]),
                   if proved then Good(Some(stage.tip), IdsOf(stage.checked), stage.newCount) else Failed(true),
                   chain.store.tables.headers.Keys, old(requests), requests, Ours(), Sealed())
    {
      hide PassedOk, RequestsOk, Inv, Exact, PeersOk, JobsOk, TaskOk, Follow, AfterCheck;
      var stage := jobs[j].stage;
      var q, round := jobs[j].peer, jobs[j].round;
      PeerIsOf(j);
      if exists h :: h in stage.checked && !chain.p.meetsTarget(h) {
        FailJob(j, true);
        return;
      }
      var ids := IdsOf(stage.checked);
      AllMeet(chain.p, stage.checked);
      chain.NotePowChecked(ids);
      if Current(peers, jobs[j]) {
        assert StageOk(chain.p, stage);
        CheckedAndProved(chain.p, stage.from, stage.checked);
        RecordKeeps(chain.p, peers, passed, floor, requests, q, round, ids);
        passed := Recorded(passed, q, round, ids);
      }
      Conclude(j, Some(stage.tip), ids, stage.newCount);
    }

    // --- events: blocks ---------------------------------------------------------------------------------------

    /** p2p._on_block: the result is that of submitting the block, if it comes to that. */
    method OnBlock(q: nat, b: Block, now: nat) returns (r: Option<Receiving.SubmitResult>)
      requires Valid() && q in peers && !peers[q].closed
      modifies this, chain, chain.store
      ensures Valid() && Asked(old(requests), requests, chain.chain) && jobs == old(jobs)
      ensures r.Some? <==> b.Id() in old(peers)[q].inFlight || b.header.prevId in old(chain.store.tables).headers
      ensures match r
              case None =>
                && unchanged(chain) && unchanged(chain.store) && requests == old(requests)
                && Ahead(old(Now()), Now(), q, Ours(), Sealed())
              case Some(result) =>
                && Adoption.Ran(chain.p, old(chain.store.tables), old(chain.chain), old(chain.orphans), b, now,
                                chain.store.tables, chain.chain, chain.orphans, result)
                && Received(old(Now()), Now(), q, b.Id(), result, chain.store.tables.headers.Keys, old(requests),
                            requests, Ours(), Sealed())
                && q in peers && (peers[q].closed <==> result.outcome == Receiving.Raised || ForGood(result))
                && (peers[q].banned <==> old(peers)[q].banned || ForGood(result))
    {
      hide *;
      SameCore();
      NowIs();
      var syncing := b.Id() in peers[q].inFlight;
      if !syncing && b.header.prevId !in chain.store.tables.headers {
        OnUnconnected(q);
        NothingAsked(requests, chain.chain);
        r := None;
      } else {
        var result := SubmitFrom(b, now);
        OnSubmitted(q, b.Id(), syncing, result);
        r := Some(result);
        NowIs();
        WhoIsClosed(old(Now()), Now(), q, b.Id(), result, chain.store.tables.headers.Keys, old(requests), requests,
                    Ours(), Sealed());
      }
    }

    lemma NowIs()
      ensures Now() == Sync(peers, syncPeer, chunkTask)
    {
    }

    lemma SameCore()
      requires Valid()
      ensures Core() && chain.Good() && Ours() == WorkOf(chain.chain)
    {
    }

    method SetWork(q: nat, work: nat)
      requires Valid() && q in peers
      modifies this`peers
      ensures Valid() && Now() == old(Now()).(peers := old(peers)[q := old(peers)[q].(work := work)])
    {
      hide PassedOk, RequestsOk, Inv, Exact, PeersOk, JobsOk, StagesOk, TaskOk;
      PeerIs(chain.p, peers, passed, floor, q);
      UpdatePeer(q, peers[q].(work := work));
    }

    /** We lack its parent: the peer is ahead of us. */
    method OnUnconnected(q: nat)
      requires Valid() && q in peers
      modifies this`peers, this`running, this`syncPeer, this`chunkTask, this`tasks, this`nextId
      ensures Valid() && Ahead(old(Now()), Now(), q, Ours(), Sealed())
    {
      hide *;
      SameCore();
      NowIs();
      var ours := TipWork();
      SetWork(q, if peers[q].work > ours then peers[q].work else ours + 1);
      SameCore();
      NowIs();
      ghost var claims := Now();
      if syncPeer == None { StartSync(q); }
      SameCore();
      ThenAhead(old(Now()), claims, Now(), q, Ours(), Sealed());
    }

    /** Submitting a block leaves catching up alone. */
    method SubmitFrom(b: Block, now: nat) returns (r: Receiving.SubmitResult)
      requires Valid()
      modifies chain, chain.store
      ensures Valid()
      ensures Adoption.Ran(chain.p, old(chain.store.tables), old(chain.chain), old(chain.orphans), b, now,
                           chain.store.tables, chain.chain, chain.orphans, r)
    {
      hide PassedOk, RequestsOk, Inv, Exact, PeersOk, JobsOk, StagesOk, TaskOk, Adoption.Ran, Receiving.Step,
        Receiving.Guarded, Receiving.Fair, Receiving.OnTime, Receiving.Raises, Receiving.Accumulates,
        Receiving.KeepsSealed, Receiving.Childless, Receiving.PoolAfter,
        Chain.ChainManager.HasRoomFor;
      r := chain.SubmitBlock(b, now, Delivery.NoRace());
    }

    /** A block we asked for has arrived. */
    method OnArrived(q: nat, id: Digest)
      requires Valid() && q in peers && id in peers[q].inFlight
      modifies this`peers, this`running, this`syncPeer, this`chunkTask, this`tasks, this`nextId, this`requests
      ensures Valid() && Asked(old(requests), requests, chain.chain)
      ensures var x := old(peers)[q];
        Continues(old(Now()).(peers := old(peers)[q := x.(inFlight := x.inFlight - {id})]), Now(), q,
                  chain.store.tables.headers.Keys, old(requests), requests, Ours(), Sealed())
    {
      hide PassedOk, RequestsOk, Inv, Exact, PeersOk, JobsOk, StagesOk, TaskOk, WorkOf, Continues;
      PeerIs(chain.p, peers, passed, floor, q);
      CheckingHasNoTask(peers, syncPeer, chunkTask, tasks);
      UpdatePeer(q, peers[q].(inFlight := peers[q].inFlight - {id}));
      ContinueSync(q);
    }

    method OnSubmitted(q: nat, id: Digest, syncing: bool, r: Receiving.SubmitResult)
      requires Valid() && q in peers && !peers[q].closed && (syncing <==> id in peers[q].inFlight)
      modifies this`peers, this`running, this`syncPeer, this`chunkTask, this`tasks, this`nextId, this`requests
      ensures Valid() && Asked(old(requests), requests, chain.chain)
      ensures Received(old(Now()), Now(), q, id, r, chain.store.tables.headers.Keys, old(requests), requests, Ours(),
                       Sealed())
    {
      hide PassedOk, RequestsOk, Inv, Exact, PeersOk, JobsOk, StagesOk, TaskOk, WorkOf, Continues;
      if r.outcome == Receiving.Raised {
        OnClosed(q, false);
      } else if r.outcome == Receiving.Rejected && !(r.error.Some? && Receiving.TemporaryError(r.error.value)) {
        OnClosed(q, true);
      } else {
        if r.outcome == Receiving.Rejected {
          SetWork(q, 0);
        }
        ghost var kept := Now();
        assert kept == WorkAfter(old(Now()), q, r);
        if syncing { OnArrived(q, id); }
      }
    }

    /** p2p._on_not_found: it does not have a block it announced. */
    method OnNotFound(q: nat, ids: seq<Digest>)
      requires Valid() && q in peers && !peers[q].closed
      modifies this`peers
      ensures Valid()
      ensures peers == if exists id :: id in ids && id in old(peers)[q].inFlight
                then old(peers)[q := Closed(old(peers)[q], false)] else old(peers)
    {
      if exists id :: id in ids && id in peers[q].inFlight { OnClosed(q, false); }
    }

    /** A block from anywhere else: another connection, the API, the built-in miner. */
    method OnOtherBlock(b: Block, now: nat) returns (r: Receiving.SubmitResult)
      requires Valid()
      modifies chain, chain.store
      ensures Valid()
      ensures Adoption.Ran(chain.p, old(chain.store.tables), old(chain.chain), old(chain.orphans), b, now,
                           chain.store.tables, chain.chain, chain.orphans, r)
    {
      r := SubmitFrom(b, now);
    }

    // --- events: chunk downloads ---------------------------------------------------------------------------------

    /** The `finally` of p2p._sync_chunks: unless it was cancelled or abandoned, go on block by block. */
    method EndTask(t: nat)
      requires Valid() && t in tasks
      modifies this`peers, this`chunkTask, this`tasks
      ensures Valid() && tasks == old(tasks) - {t} && GoesByBlocks(old(Now()), Now(), t, old(tasks[t]))
    {
      hide PassedOk, RequestsOk, Inv, Exact, PeersOk, JobsOk, StagesOk;
      var task := tasks[t];
      if chunkTask == Some(t) { chunkTask := None; }
      tasks := tasks - {t};
      if !task.cancelled && syncPeer == Some(task.peer) && !peers[task.peer].closed &&
        peers[task.peer].syncRound == task.round {
        RequestHeaders(task.peer);
      }
    }

    /** p2p._sync_chunks goes on after a download was checked: import the chunk and, unless that fails, fetch the next.
        A cancelled task, or one of an abandoned round, does nothing more. The result is that of importing. */
    method OnChunk(t: nat, chunk: Importing.CheckedChunk) returns (r: Option<Result<seq<Block>>>)
      requires Valid() && t in tasks && Importing.IsChunk(chain.p, chunk)
      modifies this, chain, chain.store
      ensures Valid() && requests == old(requests) && jobs == old(jobs)
      ensures r.Some? <==> Live(old(Now()), old(tasks[t]))
      ensures match r
              case None =>
                && unchanged(chain) && unchanged(chain.store) && t !in tasks && peers == old(peers)
              case Some(Ok(added)) =>
                && chunk.index == old(chain.store.tables).sealedChunks
                && Importing.Continues(chain.p, old(chain.chain), chunk, added)
                && chain.chain == old(chain.chain) + added && Sealed() == chunk.index + 1
                && Importing.Recorded(old(chain.store.tables).headers, added, chain.store.tables.headers)
                && (if Sealed() >= old(peers[tasks[t].peer]).chunks
                    then t !in tasks && GoesByBlocks(old(Now()), Now(), t, old(tasks[t]))
                    else tasks == old(tasks) && Now() == old(Now()))
              case Some(Err(e)) =>
                && chain.chain == old(chain.chain) && chain.store.tables == old(chain.store.tables) && t !in tasks
                && (chunk.index == Sealed() ==>
                    forall rest :: !Importing.Continues(chain.p, chain.chain, chunk, rest))
                && (if e == ChunkNotNext then GoesByBlocks(old(Now()), Now(), t, old(tasks[t]))
                    else Drops(old(Now()), Now(), old(tasks[t]).peer, true, Ours(), Sealed()))
    {
      hide PassedOk, RequestsOk, Inv, Exact, PeersOk, JobsOk, StagesOk, TaskOk, Importing.IsChunk,
        Importing.Continues, Importing.Recorded, WorkOf, Resumes;
      var task := tasks[t];
      if task.cancelled || syncPeer != Some(task.peer) || task.peer !in peers || peers[task.peer].closed
         || peers[task.peer].syncRound != task.round {
        EndTask(t);
        return None;
      }
      ghost var t0, was := chain.store.tables, chain.chain;
      var result := chain.ApplyChunk(chunk);
      if result.Ok? {
        ImportAddsWork(chain.p, chain.store.tables, was, result.value) by { Switching.InvShape(chain.p, t0, was); }
        if chain.store.tables.sealedChunks >= peers[task.peer].chunks { EndTask(t); }
      } else if result.error == ChunkNotNext {
        EndTask(t);
      } else {
        OnBadChunk(t);
      }
      return Some(result);
    }

    /** A damaged or invalid chunk: the peer is dropped, unless the download was cancelled meanwhile. */
    method OnBadChunk(t: nat)
      requires Valid() && t in tasks
      modifies this`peers, this`running, this`syncPeer, this`chunkTask, this`tasks, this`nextId
      ensures Valid() && t !in tasks
      ensures if old(tasks[t]).cancelled then GoesByBlocks(old(Now()), Now(), t, old(tasks[t]))
              else Drops(old(Now()), Now(), old(tasks[t]).peer, true, Ours(), Sealed())
    {
      hide PassedOk, RequestsOk, Inv, Exact, PeersOk, JobsOk, StagesOk, TaskOk, WorkOf, Resumes;
      TaskIs(peers, syncPeer, chunkTask, tasks, t);
      var task := tasks[t];
      if !task.cancelled {
        Drop(task.peer, true);
        TaskIs(peers, syncPeer, chunkTask, tasks, t);
      }
      EndTask(t);
    }

    /** A download that failed, or a chunk that is missing: go on block by block. */
    method OnNoChunk(t: nat)
      requires Valid() && t in tasks
      modifies this`peers, this`chunkTask, this`tasks
      ensures Valid() && tasks == old(tasks) - {t} && GoesByBlocks(old(Now()), Now(), t, old(tasks[t]))
    {
      EndTask(t);
    }

    /** A downloaded file that does not decode: one that only exceeds the budget of bytes is no reason to drop the
        peer, any other is. */
    method OnUnreadChunk(t: nat, error: Error)
      requires Valid() && t in tasks
      modifies this`peers, this`running, this`syncPeer, this`chunkTask, this`tasks, this`nextId
      ensures Valid() && t !in tasks
      ensures if error == TooLarge || old(tasks[t]).cancelled then GoesByBlocks(old(Now()), Now(), t, old(tasks[t]))
              else Drops(old(Now()), Now(), old(tasks[t]).peer, true, Ours(), Sealed())
      ensures error == TooLarge ==>
        forall q :: q in peers ==> q in old(peers) && peers[q].closed == old(peers)[q].closed
    {
      hide *;
      NowIs();
      if error == TooLarge {
        OnNoChunk(t);
        NowIs();
        ClosesNobody(old(Now()), Now(), t, old(tasks[t]));
      } else {
        OnBadChunk(t);
      }
    }
  }

  /** What a batch's new headers hang from. */
  lemma LinkedTo(job: Job, n: nat)
    requires Batch(job) && n < |job.headers|
    ensures n > 0 ==> job.headers[n].prevId == HeaderHash(job.headers[n - 1])
  {
  }

  lemma CheckingHasNoTask(peers: Peers, syncPeer: Option<nat>, chunkTask: Option<nat>, tasks: Tasks)
    requires TaskOk(peers, syncPeer, chunkTask, tasks)
    ensures syncPeer.Some? && syncPeer.value in peers && !Idle(peers[syncPeer.value]) ==> chunkTask.None?
  {
  }

  lemma TaskIs(peers: Peers, syncPeer: Option<nat>, chunkTask: Option<nat>, tasks: Tasks, t: nat)
    requires TaskOk(peers, syncPeer, chunkTask, tasks) && t in tasks
    ensures !tasks[t].cancelled ==>
      chunkTask == Some(t) && syncPeer == Some(tasks[t].peer) && tasks[t].peer in peers && Idle(peers[tasks[t].peer])
    ensures chunkTask.Some? ==> syncPeer.Some? && syncPeer.value in peers && Idle(peers[syncPeer.value])
  {
  }

  lemma AllMeet(p: Params, headers: seq<BlockHeader>)
    requires forall h :: h in headers ==> p.meetsTarget(h)
    ensures forall id :: id in IdsOf(headers) ==> id.HeaderHash? && p.meetsTarget(id.header)
  {
    forall i | 0 <= i < |headers|
      ensures p.meetsTarget(headers[i])
    {
      assert headers[i] in headers;
    }
  }

  /** A stored block that is not invalid has no more work than the active chain. */
  lemma StoredIsNoBetter(p: Params, t: Tables, chain: seq<Block>, id: Digest)
    requires Inv(p, t, chain) && id in t.headers && t.headers[id].status != Invalid
    ensures Work(id) <= WorkOf(chain)
  {
    hide Ledger.WellFormed, Sound, Work, GoodChain, Holds;
    Switching.TipIsStored(p, t, chain);
    Headers.Stored(p, t, chain, id);
  }

  /** Imported blocks only add work. */
  lemma ImportAddsWork(p: Params, t: Tables, was: seq<Block>, added: seq<Block>)
    requires Inv(p, t, was + added) && was != []
    ensures WorkOf(was) <= WorkOf(was + added)
  {
    hide Ledger.WellFormed, Sound, Work, GoodChain, StoredOk;
    var chain, tip := was + added, was[|was| - 1].Id();
    assert chain[|was| - 1].Id() == tip;
    assert tip in t.headers && t.headers[tip].status == Valid;
    StoredIsNoBetter(p, t, chain, tip);
  }

  /** All headers of a full batch known already: the last one's recent ancestors are in the batch, hence stored,
      whatever sealing has deleted further back. */
  lemma FullBatchIsExact(p: Params, t: Tables, chain: seq<Block>, job: Job)
    requires Inv(p, t, chain) && Batch(job) && job.headers != [] && p.medianTimeSpan <= |job.headers|
    requires forall h :: h in job.headers ==> HeaderHash(h) in t.headers
    ensures StoredBack(t, HeaderHash(job.headers[|job.headers| - 1]), p.medianTimeSpan)
  {
    hide Inv;
    BatchReachesBack(p, t, chain, job, |job.headers| - 1, p.medianTimeSpan);
  }

  lemma {:induction false} BatchReachesBack(p: Params, t: Tables, chain: seq<Block>, job: Job, i: nat, n: nat)
    requires Inv(p, t, chain) && Batch(job) && i < |job.headers| && n <= i + 1
    requires forall h :: h in job.headers ==> HeaderHash(h) in t.headers
    ensures StoredBack(t, HeaderHash(job.headers[i]), n)
    decreases i
  {
    hide Inv;
    assert job.headers[i] in job.headers;
    Headers.Stored(p, t, chain, HeaderHash(job.headers[i]));
    Switching.KeyIsId(p, t, chain, HeaderHash(job.headers[i]));
    if i > 0 && n > 0 { BatchReachesBack(p, t, chain, job, i - 1, n - 1); }
  }

  lemma FinalHasAncestors(p: Params, t: Tables, chain: seq<Block>, id: Digest)
    requires Inv(p, t, chain) && |t.active.main| > 0 && MeetsFinal(p, t, chain, id)
    ensures AncestorsStored(t, id)
  {
    hide Inv, Rooted, AncestorsStored, ForkHeight, FinalizedHeight;
    Importing.InvIsConsistent(p, t, chain);
    RootedAncestors(p, t, chain, id);
  }

  lemma RunningIs(p: Params, peers: Peers, jobs: Jobs, running: Running, q: nat)
    requires JobsOk(peers, jobs, running) && q in peers
    ensures q in running <==> peers[q].checking
  {
    if q in running { assert RunningOk(peers, jobs, running, q); }
  }

  lemma {:induction false} MostWork(peers: Peers, candidates: set<nat>)
    requires candidates != {} && candidates <= peers.Keys
    ensures exists q :: q in candidates && forall r :: r in candidates ==> peers[r].work <= peers[q].work
    decreases |candidates|
  {
    var x :| x in candidates;
    var rest := candidates - {x};
    if rest == {} {
      assert candidates == {x};
      assert forall r :: r in candidates ==> peers[r].work <= peers[x].work;
    } else {
      assert |rest| < |candidates|;
      MostWork(peers, rest);
      var y :| y in rest && forall r :: r in rest ==> peers[r].work <= peers[y].work;
      var best := if peers[x].work >= peers[y].work then x else y;
      assert best in candidates;
      assert forall r :: r in candidates ==> r == x || r in rest;
    }
  }
}
