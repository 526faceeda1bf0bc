/** The repair scheduler object: side tables and a bounded queue beside the metadata state machine. */
module RepairSchedulers {
  import opened Records
  import opened Seqs
  import opened Metadata
  import opened Structure
  import opened MetadataFsm
  import opened Placement
  import opened Scheduling
  import SchedulerRuns
  import opened RepairChoice
  import opened Withdrawal
  import opened Evacuation
  import opened Recovery

  const DEFAULT_REPLICATION_FACTOR := 3
  const MAX_REPLICATION_FACTOR := 10

  /** What a report asks of the metadata can be done: the chunk is known, and a source to be evicted is a replica. */
  ghost predicate CanEnd(s: State, job: RepairJob, success: bool) {
    && job.chunkID in s.chunks
    && (success && job.deleteSource ==> job.sourceNodeID in s.chunks[job.chunkID].replicas)
  }

  class RepairScheduler {
    const fsm: MetadataFSM
    const replicationFactor: nat
    const uuid: Uuids
    var pendingJobs: map<string, seq<string>>
    var pendingJobsSet: map<string, string>
    var jobs: seq<string>
    var issued: nat

    ghost function View(): Sched
      reads this, fsm
    {
      Sched(fsm.View(), pendingJobs, pendingJobsSet, jobs, issued)
    }

    ghost predicate Valid()
      reads this, fsm
    {
      fsm.Valid() && |jobs| <= QUEUE_CAPACITY
    }

    constructor (fsm: MetadataFSM, rf: int, uuid: Uuids)
      requires fsm.Valid()
      ensures Valid() && View() == Sched(fsm.View(), map[], map[], [], 0)
      ensures this.fsm == fsm && this.uuid == uuid
      ensures replicationFactor == if rf <= 0 then 3 else if rf > 10 then 10 else rf
    {
      this.fsm, this.uuid := fsm, uuid;
      pendingJobs, pendingJobsSet, jobs, issued := map[], map[], [], 0;
      var wanted := if rf <= 0 then DEFAULT_REPLICATION_FACTOR else rf;
      replicationFactor := if wanted <= MAX_REPLICATION_FACTOR then wanted else MAX_REPLICATION_FACTOR;
    }

    // ----- Proposals -----

    method ProposeEvictChunk(chunkID: string, node: string) returns (ok: bool)
      requires Valid()
      modifies fsm
      ensures Valid() && fsm.View() == Evict(old(fsm.View()), chunkID, node).state
      ensures ok == IsReplica(old(fsm.View()), chunkID, node)
    {
      var outcome := fsm.Propose(EvictChunkFromNode(chunkID, node));
      ok := outcome.Accepted?;
    }

    method ProposeAddReplica(chunkID: string, node: string) returns (ok: bool)
      requires Valid()
      modifies fsm
      ensures Valid() && fsm.View() == AddReplica(old(fsm.View()), chunkID, node).state
      ensures ok == (chunkID in old(fsm.chunks))
    {
      var outcome := fsm.Propose(AddChunkReplica(chunkID, node));
      ok := outcome.Accepted?;
    }

    method ProposeUpdateJob(c: Command)
      requires Valid() && c.UpdateRepairJob?
      modifies fsm
      ensures Valid() && fsm.View() == UpdateJob(old(fsm.View()), c).state
    {
      var outcome := fsm.Propose(c);
    }

    // ----- Creating jobs -----

    /** One order, unless the pair is held; it is dropped when the queue is full. */
    method CreateJobFor(chunkID: string, source: string, target: string, now: Time)
      requires Valid()
      modifies this`jobs, this`issued, fsm
      ensures Valid() && View() == CreateOne(old(View()), uuid, chunkID, source, target, now)
    {
      if PairKey(chunkID, target) in pendingJobsSet { return; }
      var jid := uuid(issued);
      issued := issued + 1;
      var outcome := fsm.Propose(CreateRepairJob(jid, chunkID, false, source, target, now));
      if outcome.Rejected? { return; }
      if |jobs| < QUEUE_CAPACITY { jobs := jobs + [jid]; }
    }

    /** Repairs an under-replicated chunk from the given live replicas. */
    method ScheduleRepairJobs(chunkID: string, live: seq<NodeEntry>, deficit: nat, now: Time)
      returns (ghost source: string, ghost targets: seq<string>)
      requires Valid() && deficit > 0
      requires forall n :: n in live ==> n.nodeID in fsm.nodes && n == fsm.nodes[n.nodeID]
      modifies this`jobs, this`issued, fsm
      ensures Valid() && Pass(old(View()), View(), uuid, chunkID, Ids(live), deficit, source, targets, now)
    {
      source, targets := "", [];
      if |live| == 0 { return; }
      var alive := fsm.GetLiveNodes();
      if chunkID !in fsm.chunks { return; }
      assert ChunkOk(fsm.files, chunkID, fsm.chunks[chunkID]);
      var candidates := NewArray(alive);
      var chosen, ok := SelectNodes(MostFree, candidates, fsm.chunks[chunkID].size, deficit, live);
      EligibleAreCandidates(fsm.View(), alive, live);
      if !ok { return; }
      TopIsGoodTargets(fsm.View(), alive, live, chosen, deficit);
      var best := LeastLoadedPrimary(live);
      LeastLoadedIsGoodSource(fsm.View(), live, best.value);
      source, targets := best.value.nodeID, Ids(chosen);
      CreateJobsFor(chunkID, best.value.nodeID, chosen, now);
    }

    method CreateJobsFor(chunkID: string, source: string, chosen: seq<NodeEntry>, now: Time)
      requires Valid()
      modifies this`jobs, this`issued, fsm
      ensures Valid() && View() == CreateJobs(old(View()), uuid, chunkID, source, Ids(chosen), now)
    {
      for i := 0 to |chosen|
        invariant Valid() && View() == CreateJobs(old(View()), uuid, chunkID, source, Ids(chosen)[..i], now)
      {
        CreateJobFor(chunkID, source, chosen[i].nodeID, now);
        assert Ids(chosen)[..i + 1][..i] == Ids(chosen)[..i];
      }
      assert Ids(chosen)[..|chosen|] == Ids(chosen);
    }

    /** Repairs a chunk if it has fewer live replicas than it should. */
    method ScheduleRepairForChunk(chunkID: string, now: Time) returns (ghost source: string, ghost targets: seq<string>)
      requires Valid()
      modifies this`jobs, this`issued, fsm
      ensures Valid() && PassFor(old(View()), View(), uuid, replicationFactor, chunkID, source, targets, now)
    {
      source, targets := "", [];
      var found, live := fsm.GetChunkLocations(chunkID);
      if !found || replicationFactor <= |live| { return; }
      source, targets := ScheduleRepairJobs(chunkID, live, replicationFactor - |live|, now);
    }

    static method ExcludeNode(nodes: seq<NodeEntry>, nodeID: string) returns (out: seq<NodeEntry>)
      ensures out == Filter(nodes, (n: NodeEntry) => n.nodeID != nodeID)
    {
      out := KeepIf(nodes, (n: NodeEntry) => n.nodeID != nodeID);
    }

    static method KeepIf(nodes: seq<NodeEntry>, p: NodeEntry -> bool) returns (out: seq<NodeEntry>)
      ensures out == Filter(nodes, p)
    {
      out := [];
      for i := 0 to |nodes|
        invariant out == Filter(nodes[..i], p)
      {
        FilterNext(nodes, i, p);
        if p(nodes[i]) { out := out + [nodes[i]]; }
      }
      TakeAll(nodes);
    }

    // ----- A node died -----

    /** Takes the dead node out of one replica list and repairs that chunk from the others. */
    method EvacuateChunk(chunkID: string, dead: string, now: Time) returns (ghost ch: Choice)
      requires Valid() && IsReplica(fsm.View(), chunkID, dead)
      modifies this`jobs, this`issued, fsm
      ensures Valid() && ch.chunkID == chunkID && LegalStep(old(View()), View(), uuid, replicationFactor, dead, ch, now)
    {
      ghost var source, targets := "", [];
      EvictedIsOut(fsm.View(), chunkID, dead);
      var evicted := ProposeEvictChunk(chunkID, dead);
      var found, live := fsm.GetChunkLocations(chunkID);
      if found {
        var others := ExcludeNode(live, dead);
        NotListedNotExcluded(fsm.View(), chunkID, live, dead);
        if |others| < replicationFactor {
          source, targets := ScheduleRepairJobs(chunkID, others, replicationFactor - |others|, now);
        }
      }
      ch := Choice(chunkID, source, targets);
      PassIsLegalStep(old(View()), View(), uuid, replicationFactor, dead, ch, now);
    }

    method EvacuateEach(chunkIDs: seq<string>, dead: string, now: Time)
      returns (ghost states: seq<Sched>, ghost trail: seq<Choice>)
      requires Valid() && NoDup(chunkIDs) && forall c :: c in chunkIDs ==> IsReplica(fsm.View(), c, dead)
      modifies this`jobs, this`issued, fsm
      ensures Valid() && LegalTrail(states, uuid, replicationFactor, dead, trail, now)
      ensures states[0] == old(View()) && states[|trail|] == View() && ChunksOf(trail) == ToSet(chunkIDs)
    {
      states, trail := [View()], [];
      for i := 0 to |chunkIDs|
        invariant Valid() && LegalTrail(states, uuid, replicationFactor, dead, trail, now)
        invariant states[0] == old(View()) && states[|trail|] == View() && |trail| == i && Follows(trail, chunkIDs)
      {
        StillListed(states, uuid, replicationFactor, dead, trail, now, chunkIDs);
        ghost var ch := EvacuateChunk(chunkIDs[i], dead, now);
        TrailSnoc(states, uuid, replicationFactor, dead, trail, now, ch, View());
        FollowsNext(trail, chunkIDs, ch);
        states, trail := states + [View()], trail + [ch];
      }
      FollowedAll(trail, chunkIDs);
    }

    /** Evacuates a dead node: it leaves every replica list that named it, and nothing else is withdrawn; every
        chunk it leaves gets a scheduling pass, whose orders copy from a live replica to an alive node
        outside the replica list. */
    method TriggerRepair(dead: string, now: Time) returns (ghost states: seq<Sched>, ghost trail: seq<Choice>)
      requires Valid()
      modifies this`jobs, this`issued, fsm
      ensures Valid() && LegalTrail(states, uuid, replicationFactor, dead, trail, now)
      ensures states[0] == old(View()) && states[|trail|] == View()
      ensures forall c :: c in ChunksOf(trail) <==> IsReplica(old(fsm.View()), c, dead)
      ensures Evacuated(old(View()), View(), dead, old(fsm.View()).chunks.Keys)
    {
      var chunkIDs := fsm.GetChunksByNode(dead);
      states, trail := EvacuateEach(chunkIDs, dead, now);
      EvacuationExact(states, uuid, replicationFactor, dead, trail, now, |trail|);
      assert trail[..|trail|] == trail;
      EvacuatedEverywhere(old(View()), View(), dead, ChunksOf(trail));
    }

    // ----- Executing and completing -----

    /** Hands a job to its source node, to be delivered on its next heartbeat. */
    method ExecuteJob(jobID: string, now: Time)
      requires Valid()
      modifies this`pendingJobs, this`pendingJobsSet, fsm
      ensures Valid() && View() == Execute(old(View()), jobID, now)
    {
      if jobID !in fsm.jobs { return; }
      var job := fsm.jobs[jobID];
      var waiting := if job.sourceNodeID in pendingJobs then pendingJobs[job.sourceNodeID] else [];
      pendingJobs := pendingJobs[job.sourceNodeID := AppendUnique(waiting, jobID)];
      pendingJobsSet := pendingJobsSet[PairKey(job.chunkID, job.targetNodeID) := jobID];
      ProposeUpdateJob(UpdateRepairJob(jobID, JobInProgress, "", 0, "", now));
    }

    /** A worker takes the next job. */
    method Work(now: Time)
      requires Valid() && jobs != []
      modifies this`pendingJobs, this`pendingJobsSet, this`jobs, fsm
      ensures Valid() && View() == ExecuteNext(old(View()), now)
    {
      var jobID := jobs[0];
      jobs := jobs[1..];
      ExecuteJob(jobID, now);
    }

    method ClearPending(node: string, jobID: string)
      modifies this`pendingJobs, this`pendingJobsSet
      ensures View() == Clear(old(View()), node, jobID)
    {
      if node !in pendingJobs { return; }
      var left := RemoveJob(pendingJobs[node], jobID);
      var rest := pendingJobsSet.Keys;
      ghost var all := pendingJobsSet;
      while rest != {}
        invariant forall k :: k in pendingJobsSet <==> k in all && (k in rest || all[k] != jobID)
        invariant forall k :: k in pendingJobsSet ==> pendingJobsSet[k] == all[k]
        invariant pendingJobs == old(pendingJobs) && rest <= all.Keys
      {
        var k :| k in rest;
        rest := rest - {k};
        if k in pendingJobsSet && pendingJobsSet[k] == jobID { pendingJobsSet := pendingJobsSet - {k}; }
      }
      assert pendingJobsSet == map k | k in all && all[k] != jobID :: all[k];
      if left == [] { pendingJobs := pendingJobs - {node}; } else { pendingJobs := pendingJobs[node := left]; }
    }

    /** A node reports on a repair. `retry` tells whether a delayed scheduling pass was armed. */
    method OnJobComplete(node: string, jobID: string, success: bool) returns (ok: bool, retry: bool)
      requires Valid()
      modifies this`pendingJobs, this`pendingJobsSet, fsm
      ensures Valid() && View() == Complete(old(View()), node, jobID, success)
      ensures ok <==> jobID in old(fsm.jobs) && CanEnd(old(fsm.View()), old(fsm.jobs)[jobID], success)
      ensures retry <==> ok && !success && |LiveOf(old(fsm.View()), old(fsm.jobs)[jobID].chunkID)| < replicationFactor
    {
      ClearPending(node, jobID);
      if jobID !in fsm.jobs { return false, false; }
      var job := fsm.jobs[jobID];
      if success {
        if job.deleteSource {
          ok := ProposeEvictChunk(job.chunkID, job.sourceNodeID);
        } else {
          ok := ProposeAddReplica(job.chunkID, job.targetNodeID);
        }
        return ok, false;
      }
      var found, live := fsm.GetChunkLocations(job.chunkID);
      if !found { return false, false; }
      return true, |live| < replicationFactor;
    }

    /** The request handler around it: the outcome is recorded first, and an unknown job is refused. */
    method ReportRepairResult(node: string, jobID: string, success: bool, now: Time) returns (ok: bool)
      requires Valid()
      modifies this`pendingJobs, this`pendingJobsSet, fsm
      ensures Valid() && View() == SchedulerRuns.Handled(old(View()), node, jobID, success, now)
      ensures ok <==> jobID in old(fsm.jobs) && CanEnd(old(fsm.View()), old(fsm.jobs)[jobID], success)
      ensures jobID !in old(fsm.jobs) ==> View() == old(View())
      ensures jobID in old(fsm.jobs) ==>
                && fsm.jobs.Keys == old(fsm.jobs).Keys
                && SchedulerRuns.OutcomeRecorded(old(fsm.jobs)[jobID], fsm.jobs[jobID], success)
                && forall j :: j in old(fsm.jobs) && j != jobID ==> fsm.jobs[j] == old(fsm.jobs)[j]
    {
      ok := jobID in fsm.jobs;
      if ok { SchedulerRuns.HandledJobs(View(), node, jobID, success, now); }
      ProposeUpdateJob(SchedulerRuns.OutcomeUpdate(jobID, success, now));
      if !ok { return; }
      var retry;
      ok, retry := OnJobComplete(node, jobID, success);
    }

    // ----- Recovery at start -----

    /** A worker's turn while recovery is under way. */
    method RecoveryTurn(now: Time, ghost start: Sched, ghost touched: set<string>, ghost done: set<string>)
      requires Valid() && jobs != [] && Recovering(start, View(), touched, done)
      modifies this`pendingJobs, this`pendingJobsSet, this`jobs, fsm
      ensures Valid() && View() == ExecuteNext(old(View()), now) && Recovering(start, View(), touched, done)
    {
      WorkKeepsRecovering(start, View(), touched, done, now);
      Work(now);
    }

    /** Workers run at arbitrary moments; a full queue blocks until one of them has taken a job. */
    method AwaitRoom(now: Time, ghost start: Sched, ghost touched: set<string>, ghost done: set<string>,
                     ghost j: string)
      requires Valid() && Recovering(start, View(), touched, done) && j in fsm.jobs
      modifies this`pendingJobs, this`pendingJobsSet, this`jobs, fsm
      ensures Valid() && Recovering(start, View(), touched, done) && |jobs| < QUEUE_CAPACITY
      ensures j in fsm.jobs && fsm.jobs[j].sourceNodeID == old(fsm.jobs)[j].sourceNodeID
    {
      var turns: nat := *;
      while jobs != [] && (|jobs| == QUEUE_CAPACITY || turns > 0)
        invariant Valid() && Recovering(start, View(), touched, done)
        invariant j in fsm.jobs && fsm.jobs[j].sourceNodeID == old(fsm.jobs)[j].sourceNodeID
        decreases |jobs|
      {
        WorkKeepsSource(View(), j, now);
        RecoveryTurn(now, start, touched, done);
        turns := if turns > 0 then turns - 1 else 0;
      }
    }

    method EnqueueJob(jobID: string, now: Time, ghost start: Sched, ghost done: set<string>)
      requires Valid() && Recovering(start, View(), done + {jobID}, done) && HasChosenSource(start.meta, View(), jobID)
      modifies this`pendingJobs, this`pendingJobsSet, this`jobs, fsm
      ensures Valid() && Recovering(start, View(), done + {jobID}, done + {jobID})
    {
      AwaitRoom(now, start, done + {jobID}, done, jobID);
      EnqueueRecovers(start, View(), done, jobID);
      jobs := jobs + [jobID];
    }

    /** Moves a job to the least loaded live replica of its chunk unless its source is a live replica. */
    method EnsureSource(job: RepairJob, live: seq<NodeEntry>, now: Time, ghost start: Sched, ghost done: set<string>)
      requires Valid() && Recovering(start, View(), done, done) && job.jobID !in done
      requires IsStuck(start.meta, job) && job.chunkID in start.meta.chunks
      requires Ids(live) == LiveOf(start.meta, job.chunkID) && live != []
      requires forall n :: n in live ==> n.nodeID in start.meta.nodes && n == start.meta.nodes[n.nodeID]
      modifies fsm
      ensures Valid() && Recovering(start, View(), done + {job.jobID}, done)
      ensures HasChosenSource(start.meta, View(), job.jobID)
    {
      SameNames(live);
      if exists n :: n in live && n.nodeID == job.sourceNodeID {
        TouchKeepsRecovering(start, View(), done, job.jobID);
      } else {
        var source := ChoosePrimary(live, start.meta);
        MoveJob(job, source, now, start, done);
      }
    }

    static method ChoosePrimary(live: seq<NodeEntry>, ghost s: State) returns (source: string)
      requires live != [] && forall n :: n in live ==> n.nodeID in s.nodes && n == s.nodes[n.nodeID]
      ensures source == PrimaryOf(s, Ids(live))
    {
      var best := LeastLoadedPrimary(live);
      ghost var i :| 0 <= i < |live| && live[i] == best.value
                     && (forall k :: 0 <= k < |live| ==> !Before(LeastLoaded, live[k], best.value))
                     && (forall k :: 0 <= k < i ==> Before(LeastLoaded, best.value, live[k]));
      PrimaryIsFirstLeast(s, live, i);
      source := best.value.nodeID;
    }

    method MoveJob(job: RepairJob, source: string, now: Time, ghost start: Sched, ghost done: set<string>)
      requires Valid() && Recovering(start, View(), done, done) && job.jobID !in done
      requires IsStuck(start.meta, job) && job.chunkID in start.meta.chunks
      requires LiveOf(start.meta, job.chunkID) != [] && job.sourceNodeID !in LiveOf(start.meta, job.chunkID)
      requires source == PrimaryOf(start.meta, LiveOf(start.meta, job.chunkID))
      modifies fsm
      ensures Valid() && Recovering(start, View(), done + {job.jobID}, done)
      ensures HasChosenSource(start.meta, View(), job.jobID)
    {
      var c := UpdateRepairJob(job.jobID, JobPending, source, 0, "", now);
      MoveKeepsRecovering(start, View(), done, job.jobID, c);
      ProposeUpdateJob(c);
    }

    /** Re-enqueues one job, from a new source when its own is no longer a live replica. */
    method RecoverJob(job: RepairJob, now: Time, ghost start: Sched, ghost done: set<string>)
      requires Valid() && Recovering(start, View(), done, done) && job.jobID !in done
      requires IsStuck(start.meta, job)
      modifies this`pendingJobs, this`pendingJobsSet, this`jobs, fsm
      ensures Valid()
      ensures var done' := if Recoverable(start.meta, replicationFactor, job.jobID) then done + {job.jobID} else done;
              Recovering(start, View(), done', done')
    {
      var found, live := fsm.GetChunkLocations(job.chunkID);
      SameLocations(start, View(), done, job.chunkID);
      if !found || |live| == 0 || replicationFactor <= |live| { return; }
      EnsureSource(job, live, now, start, done);
      EnqueueJob(job.jobID, now, start, done);
    }

    /** Recovers every job that was in progress when the scheduler last stopped. */
    method RecoverStuckJobs(now: Time)
      requires Valid()
      modifies this`pendingJobs, this`pendingJobsSet, this`jobs, fsm
      ensures Valid()
      ensures var all := AllRecoverable(old(fsm.View()), replicationFactor);
              Recovering(old(View()), View(), all, all)
    {
      var stuck := fsm.GetJobsByStatus(JobInProgress);
      AllStuck(fsm.View(), replicationFactor, stuck);
      NothingRecovered(View());
      RecoverEach(stuck, now, View());
    }

    method RecoverEach(stuck: seq<RepairJob>, now: Time, ghost start: Sched)
      requires Valid() && start == View() && Recovering(start, start, {}, {})
      requires AreStuck(start.meta, stuck)
      modifies this`pendingJobs, this`pendingJobsSet, this`jobs, fsm
      ensures Valid()
      ensures var done := RecoverableAmong(start.meta, replicationFactor, stuck);
              Recovering(start, View(), done, done)
    {
      ghost var done: set<string> := {};
      for i := 0 to |stuck|
        invariant done == RecoverableAmong(start.meta, replicationFactor, stuck[..i])
        invariant Valid() && Recovering(start, View(), done, done)
      {
        OneMoreStuck(start.meta, replicationFactor, stuck, i);
        RecoverJob(stuck[i], now, start, done);
        done := RecoverableAmong(start.meta, replicationFactor, stuck[..i + 1]);
      }
      assert stuck[..|stuck|] == stuck;
    }

    /** Workers empty the queue. */
    method Drain(now: Time, ghost start: Sched, ghost done: set<string>)
      requires Valid() && Recovering(start, View(), done, done)
      modifies this`pendingJobs, this`pendingJobsSet, this`jobs, fsm
      ensures Valid() && jobs == [] && Recovering(start, View(), done, done)
    {
      while jobs != []
        invariant Valid() && Recovering(start, View(), done, done)
        decreases |jobs|
      {
        RecoveryTurn(now, start, done, done);
      }
    }

    /** Recovery, then workers running until the queue is empty: every recoverable job is in progress at its chosen
        source, which lists it as pending; jobs neither recoverable nor queued are untouched. */
    method RecoverAndDrain(now: Time)
      requires Valid()
      modifies this`pendingJobs, this`pendingJobsSet, this`jobs, fsm
      ensures Valid() && jobs == []
      ensures forall j :: j in old(fsm.jobs) ==> RecoveredOrUntouched(old(View()), View(), replicationFactor, j)
    {
      ghost var start, all := View(), AllRecoverable(fsm.View(), replicationFactor);
      RecoverStuckJobs(now);
      Drain(now, start, all);
      forall j | j in start.meta.jobs ensures RecoveredOrUntouched(start, View(), replicationFactor, j) {
        DrainedIsRecovered(start, View(), replicationFactor, j);
      }
    }
  }
}
