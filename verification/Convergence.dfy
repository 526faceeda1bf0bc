/** Successful repairs bring a chunk back to its replication factor, and not beyond. */
module Convergence {
  import opened Records
  import opened Seqs
  import opened Metadata
  import opened Structure
  import opened Scheduling
  import opened SchedulerRuns
  import opened RepairChoice

  /** A recorded order to copy `c` to a live node. */
  ghost predicate RepairsChunk(s: State, jobID: string, c: string) {
    && jobID in s.jobs
    && s.jobs[jobID].chunkID == c
    && !s.jobs[jobID].deleteSource
    && IsLive(s.nodes)(s.jobs[jobID].targetNodeID)
  }

  ghost predicate AllRepair(s: State, ids: set<string>, c: string) {
    forall j :: j in ids ==> RepairsChunk(s, j, c)
  }

  lemma AddReplicaLive(s: State, c: string, t: string)
    requires Inv(s) && c in s.chunks && IsLive(s.nodes)(t)
    ensures var s' := AddReplica(s, c, t).state;
            && Inv(s') && c in s'.chunks && s'.nodes == s.nodes && s'.jobs == s.jobs
            && LiveOf(s', c) == if t in s.chunks[c].replicas then LiveOf(s, c) else LiveOf(s, c) + [t]
  {
    AddKeepsInv(s, c, t);
    FilterSnoc(s.chunks[c].replicas, t, IsLive(s.nodes));
  }

  /** The first success of a repair lowers the deficit by exactly one. */
  lemma FirstSuccess(x: Sched, node: string, jobID: string, c: string)
    requires Inv(x.meta) && c in x.meta.chunks && RepairsChunk(x.meta, jobID, c)
    requires x.meta.jobs[jobID].targetNodeID !in x.meta.chunks[c].replicas
    ensures var y := Complete(x, node, jobID, true);
            c in y.meta.chunks && |LiveOf(y.meta, c)| == |LiveOf(x.meta, c)| + 1
  {
    AddReplicaLive(x.meta, c, x.meta.jobs[jobID].targetNodeID);
  }

  /** Reporting the same success again, even by another node, changes no replica list. */
  lemma RepeatedSuccess(x: Sched, node: string, other: string, jobID: string, c: string)
    requires RepairsChunk(x.meta, jobID, c) && c in x.meta.chunks
    ensures Complete(Complete(x, node, jobID, true), other, jobID, true).meta == Complete(x, node, jobID, true).meta
  {
    var t := x.meta.jobs[jobID].targetNodeID;
    SuccessAddsReplica(x, node, jobID);
    SuccessAddsReplica(Complete(x, node, jobID, true), other, jobID);
    assert AddReplica(AddReplica(x.meta, c, t).state, c, t).state == AddReplica(x.meta, c, t).state;
  }

  /** A successful copy order records its target as a replica, whatever the side tables do. */
  lemma SuccessAddsReplica(x: Sched, node: string, jobID: string)
    requires jobID in x.meta.jobs && !x.meta.jobs[jobID].deleteSource
    ensures var job := x.meta.jobs[jobID];
            Complete(x, node, jobID, true).meta == AddReplica(x.meta, job.chunkID, job.targetNodeID).state
  {}

  lemma AddedIsLive(s: State, c: string, target: string)
    requires Inv(s) && c in s.chunks && IsLive(s.nodes)(target)
    ensures var t := AddReplica(s, c, target).state;
            && Preserved(s, t) && t.nodes == s.nodes && c in t.chunks
            && ToSet(LiveOf(t, c)) == ToSet(LiveOf(s, c)) + {target}
  {
    AddKeepsInv(s, c, target);
    AddReplicaLive(s, c, target);
    ToSetSnoc(LiveOf(s, c), target);
  }

  // ----- What a run does to the copies of one chunk -----

  ghost predicate SameLiveNodes(s: State, t: State) {
    forall n :: IsLive(s.nodes)(n) <==> IsLive(t.nodes)(n)
  }

  /** Neither which nodes are live nor the replicas of `c` differ. */
  ghost predicate SameCopies(s: State, t: State, c: string) {
    && SameLiveNodes(s, t)
    && (c in s.chunks ==> c in t.chunks && t.chunks[c].replicas == s.chunks[c].replicas)
  }

  /** The command is not one that rewrites the replicas of `c`. */
  predicate LeavesReplicas(cmd: Command, c: string) {
    match cmd
    case CommitChunk(k, _, _) => k != c
    case EvictChunkFromNode(k, _) => k != c
    case AddChunkReplica(k, _) => k != c
    case _ => true
  }

  /** Everything may happen during a run except that a live node ceases to be live or another becomes live, and that
      the replicas of `c` change other than by success reports on the jobs `ids`. */
  ghost predicate Calm(x: Sched, e: Event, c: string, ids: set<string>)
    requires LegalEvent(x, e)
  {
    && (e.Report? && e.success && e.jobID in x.meta.jobs && x.meta.jobs[e.jobID].chunkID == c ==> e.jobID in ids)
    && (e.Other? ==>
          LeavesReplicas(e.command, c) && SameLiveNodes(x.meta, Apply(x.meta, e.command, e.picks).state))
  }

  ghost predicate CalmRun(x: Sched, uuid: Uuids, run: seq<Event>, c: string, ids: set<string>)
    requires LegalRun(x, uuid, run)
    decreases |run|
  {
    run == [] || (Calm(x, run[0], c, ids) && CalmRun(Next(x, uuid, run[0]), uuid, run[1..], c, ids))
  }

  /** The jobs of `ids` that the event reports successful. */
  function Confirms(e: Event, ids: set<string>): set<string> {
    if e.Report? && e.success && e.jobID in ids then {e.jobID} else {}
  }

  function Confirmed(run: seq<Event>, ids: set<string>): set<string>
    decreases |run|
  {
    if run == [] then {} else Confirms(run[0], ids) + Confirmed(run[1..], ids)
  }

  function TargetsOf(s: State, ids: set<string>): set<string> {
    set j | j in ids && j in s.jobs :: s.jobs[j].targetNodeID
  }

  /** `t` is a possible future of `s` in which the same nodes are live, and the live replicas of `c` are the
      old ones and `more`. */
  ghost predicate LiveGrewBy(s: State, t: State, c: string, more: set<string>) {
    && Preserved(s, t) && SameLiveNodes(s, t)
    && c in s.chunks && c in t.chunks
    && ToSet(LiveOf(t, c)) == ToSet(LiveOf(s, c)) + more
  }

  ghost predicate Quiet(s: State, t: State, c: string) {
    Preserved(s, t) && SameCopies(s, t, c)
  }

  lemma SameCopiesSameLive(s: State, t: State, c: string)
    requires SameCopies(s, t, c) && c in s.chunks
    ensures ToSet(LiveOf(t, c)) == ToSet(LiveOf(s, c))
  {}

  lemma PreservedTransitive(s: State, t: State, u: State)
    requires Preserved(s, t) && Preserved(t, u)
    ensures Preserved(s, u)
  {
    EvolvesTransitive(s, t, u);
  }

  lemma QuietStep(s: State, t: State, u: State, c: string, more: set<string>)
    requires LiveGrewBy(s, t, c, more) && Quiet(t, u, c)
    ensures LiveGrewBy(s, u, c, more)
  {
    PreservedTransitive(s, t, u);
    SameCopiesSameLive(t, u, c);
  }

  /** The effect of a success report on one of the jobs. */
  lemma SuccessStep(s: State, t: State, c: string, more: set<string>, job: string)
    requires LiveGrewBy(s, t, c, more) && RepairsChunk(s, job, c)
    ensures LiveGrewBy(s, AddReplica(t, c, s.jobs[job].targetNodeID).state, c, more + {s.jobs[job].targetNodeID})
  {
    var target := s.jobs[job].targetNodeID;
    AddedIsLive(t, c, target);
    PreservedTransitive(s, t, AddReplica(t, c, target).state);
  }

  lemma NothingIsQuiet(s: State, c: string)
    requires Inv(s)
    ensures Quiet(s, s, c)
  {
    PreservedReflexive(s);
  }

  lemma ScheduleIsQuiet(x: Sched, uuid: Uuids, k: string, source: string, targets: seq<string>, at: Time, c: string)
    requires Inv(x.meta)
    ensures Quiet(x.meta, CreateJobs(x, uuid, k, source, targets, at).meta, c)
  {
    NewJobsKeepInv(x, uuid, k, source, targets, at);
    CreateJobsOnlyAdds(x, uuid, k, source, targets, at);
  }

  lemma UpdateIsQuiet(s: State, cmd: Command, c: string)
    requires Inv(s) && cmd.UpdateRepairJob?
    ensures Quiet(s, UpdateJob(s, cmd).state, c)
  {
    if cmd.jobID in s.jobs {
      ReplaceJob(s, cmd.jobID, UpdateJob(s, cmd).state.jobs[cmd.jobID]);
    } else {
      PreservedReflexive(s);
    }
  }

  lemma CommandReplicas(s: State, cmd: Command, picks: seq<string>, c: string)
    requires LeavesReplicas(cmd, c) && LegalFor(s, cmd, picks) && c in s.chunks
    ensures var t := Apply(s, cmd, picks).state;
            c in t.chunks && t.chunks[c].replicas == s.chunks[c].replicas
  {
    if cmd.CreateFile? && Create(s, cmd).outcome.Accepted? {
      CreateKeepsRecords(s, cmd);
    }
  }

  lemma CommandIsQuiet(s: State, cmd: Command, picks: seq<string>, c: string)
    requires Inv(s) && LeavesReplicas(cmd, c) && LegalFor(s, cmd, picks)
    requires SameLiveNodes(s, Apply(s, cmd, picks).state)
    ensures Quiet(s, Apply(s, cmd, picks).state, c)
  {
    StepKeepsInv(s, cmd, picks);
    if c in s.chunks { CommandReplicas(s, cmd, picks, c); }
  }

  lemma WorkIsQuiet(x: Sched, at: Time, c: string)
    requires Inv(x.meta)
    ensures Quiet(x.meta, (if x.queue == [] then x else ExecuteNext(x, at)).meta, c)
  {
    if x.queue == [] {
      NothingIsQuiet(x.meta, c);
    } else {
      UpdateIsQuiet(x.meta, UpdateRepairJob(x.queue[0], JobInProgress, "", 0, "", at), c);
    }
  }

  /** What a report does to the metadata. */
  lemma ReportEffect(x: Sched, n: string, j: string, ok: bool)
    ensures var t := Complete(x, n, j, ok).meta;
            if !ok || j !in x.meta.jobs then t == x.meta
            else if x.meta.jobs[j].deleteSource then
              t == Evict(x.meta, x.meta.jobs[j].chunkID, x.meta.jobs[j].sourceNodeID).state
            else t == AddReplica(x.meta, x.meta.jobs[j].chunkID, x.meta.jobs[j].targetNodeID).state
  {}

  /** A failure report, or one on a job for another chunk. */
  lemma ForeignReportIsQuiet(x: Sched, n: string, j: string, ok: bool, c: string)
    requires Inv(x.meta) && (ok && j in x.meta.jobs ==> x.meta.jobs[j].chunkID != c)
    ensures Quiet(x.meta, Complete(x, n, j, ok).meta, c)
  {
    ReportEffect(x, n, j, ok);
    if !ok || j !in x.meta.jobs {
      NothingIsQuiet(x.meta, c);
    } else if x.meta.jobs[j].deleteSource {
      CommandIsQuiet(x.meta, EvictChunkFromNode(x.meta.jobs[j].chunkID, x.meta.jobs[j].sourceNodeID), [], c);
    } else {
      CommandIsQuiet(x.meta, AddChunkReplica(x.meta.jobs[j].chunkID, x.meta.jobs[j].targetNodeID), [], c);
    }
  }

  lemma SuccessReport(s: State, x: Sched, n: string, j: string, c: string, more: set<string>)
    requires LiveGrewBy(s, x.meta, c, more) && RepairsChunk(s, j, c)
    ensures LiveGrewBy(s, Complete(x, n, j, true).meta, c, more + {s.jobs[j].targetNodeID})
  {
    assert JobEvolves(s.jobs[j], x.meta.jobs[j]);
    SuccessAddsReplica(x, n, j);
    SuccessStep(s, x.meta, c, more, j);
  }

  lemma QuietEvent(x: Sched, uuid: Uuids, e: Event, c: string, ids: set<string>)
    requires Inv(x.meta) && LegalEvent(x, e) && Calm(x, e, c, ids) && Confirms(e, ids) == {}
    ensures Quiet(x.meta, Next(x, uuid, e).meta, c)
  {
    match e
    case Schedule(k, source, targets, at) => ScheduleIsQuiet(x, uuid, k, source, targets, at, c);
    case Work(at) => WorkIsQuiet(x, at, c);
    case Report(n, j, ok) => ForeignReportIsQuiet(x, n, j, ok, c);
    case Move(j, source, at) => UpdateIsQuiet(x.meta, UpdateRepairJob(j, JobPending, source, 0, "", at), c);
    case Requeue(j) => NothingIsQuiet(x.meta, c);
    case Other(cmd, picks) => CommandIsQuiet(x.meta, cmd, picks, c);
  }

  lemma ConfirmingStep(s: State, x: Sched, uuid: Uuids, e: Event, c: string, ids: set<string>, more: set<string>)
    requires LiveGrewBy(s, x.meta, c, more) && AllRepair(s, ids, c)
    requires e.Report? && e.success && e.jobID in ids
    ensures LiveGrewBy(s, Next(x, uuid, e).meta, c, more + TargetsOf(s, Confirms(e, ids)))
  {
    TargetsOfOne(s, e.jobID);
    SuccessReport(s, x, e.node, e.jobID, c, more);
  }

  lemma QuietCalmStep(s: State, x: Sched, uuid: Uuids, e: Event, c: string, ids: set<string>, more: set<string>)
    requires LiveGrewBy(s, x.meta, c, more) && LegalEvent(x, e) && Calm(x, e, c, ids) && Confirms(e, ids) == {}
    ensures LiveGrewBy(s, Next(x, uuid, e).meta, c, more + TargetsOf(s, {}))
  {
    QuietEvent(x, uuid, e, c, ids);
    QuietStep(s, x.meta, Next(x, uuid, e).meta, c, more);
    TargetsJoin(s, {}, {}, more);
  }

  lemma CalmStep(s: State, x: Sched, uuid: Uuids, e: Event, c: string, ids: set<string>, more: set<string>)
    requires LiveGrewBy(s, x.meta, c, more) && LegalEvent(x, e) && Calm(x, e, c, ids)
    requires AllRepair(s, ids, c)
    ensures LiveGrewBy(s, Next(x, uuid, e).meta, c, more + TargetsOf(s, Confirms(e, ids)))
  {
    if Confirms(e, ids) != {} {
      ConfirmingStep(s, x, uuid, e, c, ids, more);
    } else {
      QuietCalmStep(s, x, uuid, e, c, ids, more);
    }
  }

  lemma TargetsOfOne(s: State, j: string)
    requires j in s.jobs
    ensures TargetsOf(s, {j}) == {s.jobs[j].targetNodeID}
  {}

  lemma TargetsJoin(s: State, a: set<string>, b: set<string>, more: set<string>)
    ensures more + TargetsOf(s, a + b) == (more + TargetsOf(s, a)) + TargetsOf(s, b)
    ensures more + TargetsOf(s, {}) == more
  {
    assert TargetsOf(s, a + b) == TargetsOf(s, a) + TargetsOf(s, b);
  }

  /** Over every calm run, with workers, status updates, retries, passes and reports in any order and any number,
      the live replicas of the chunk are exactly the old ones and the targets of the jobs reported successful. */
  lemma {:induction false} RunGrowsLive(s: State, x: Sched, uuid: Uuids, run: seq<Event>, c: string, ids: set<string>,
                                        more: set<string>)
    requires LiveGrewBy(s, x.meta, c, more) && LegalRun(x, uuid, run) && CalmRun(x, uuid, run, c, ids)
    requires AllRepair(s, ids, c)
    ensures LiveGrewBy(s, Play(x, uuid, run).meta, c, more + TargetsOf(s, Confirmed(run, ids)))
    decreases |run|
  {
    if run == [] {
      TargetsJoin(s, {}, {}, more);
    } else {
      var e, rest := run[0], run[1..];
      CalmStep(s, x, uuid, e, c, ids, more);
      RunGrowsLive(s, Next(x, uuid, e), uuid, rest, c, ids, more + TargetsOf(s, Confirms(e, ids)));
      TargetsJoin(s, Confirms(e, ids), Confirmed(rest, ids), more);
    }
  }

  /** The targets a scheduling pass may pick for a chunk: distinct live nodes that hold no live replica,
      none of them already held by a job of the pair. */
  ghost predicate FitTargets(x: Sched, c: string, targets: seq<string>)
    requires c in x.meta.chunks
  {
    && NoDup(targets)
    && forall t :: t in targets ==>
         IsLive(x.meta.nodes)(t) && t !in LiveOf(x.meta, c) && PairKey(c, t) !in x.byPair
  }

  lemma ScheduledJobsRepair(x: Sched, uuid: Uuids, c: string, source: string, targets: seq<string>, now: Time)
    requires Inv(x.meta) && c in x.meta.chunks && FitTargets(x, c, targets)
    requires FreshIds(x, uuid, |targets|) && |x.queue| + |targets| <= QUEUE_CAPACITY
    ensures var y, ids := CreateJobs(x, uuid, c, source, targets, now), NextIds(uuid, x.issued, |targets|);
            && Inv(y.meta) && y.meta == x.meta.(jobs := y.meta.jobs) && OneJobPerTarget(x, y, ids, targets)
            && |y.meta.jobs| == |x.meta.jobs| + |targets|
            && forall j :: j in ids ==> RepairsChunk(y.meta, j, c)
  {
    var y, ids := CreateJobs(x, uuid, c, source, targets, now), NextIds(uuid, x.issued, |targets|);
    CreateJobsExactly(x, uuid, c, source, targets, now);
    CreateJobsOnlyAdds(x, uuid, c, source, targets, now);
    NewJobsKeepInv(x, uuid, c, source, targets, now);
    JobCount(x, y, ids);
    forall j | j in ids ensures RepairsChunk(y.meta, j, c) {
      assert j in ToSet(ids) && IsOrder(y.meta.jobs[j], c, source);
    }
  }

  /** The situation in which one pass can make a chunk whole: something live to copy from, enough candidates
      none of whose pairs is held, new job ids and queue space. */
  ghost predicate Repairable(x: Sched, uuid: Uuids, rf: nat, c: string) {
    && Inv(x.meta) && c in x.meta.chunks
    && var live := LiveOf(x.meta, c);
       && 0 < |live| < rf <= |live| + |Candidates(x.meta, live)|
       && (forall t :: t in Candidates(x.meta, live) ==> PairKey(c, t) !in x.byPair)
       && FreshIds(x, uuid, rf - |live|) && |x.queue| + rf - |live| <= QUEUE_CAPACITY
  }

  /** The chunk has exactly `rf` live replicas, and no pass over it changes anything. */
  ghost predicate Whole(x: Sched, uuid: Uuids, rf: nat, c: string) {
    && c in x.meta.chunks && |LiveOf(x.meta, c)| == rf
    && forall y, source, targets, now :: PassFor(x, y, uuid, rf, c, source, targets, now) ==> y == x
  }

  /** `y` is `x` with one order for `c` per target, under new ids; the targets are distinct, live and hold no
      live replica, and they are as many as are missing. */
  ghost predicate Ordered(x: Sched, y: Sched, rf: nat, c: string, ids: seq<string>, targets: seq<string>) {
    && Inv(y.meta) && c in y.meta.chunks && |LiveOf(y.meta, c)| + |targets| == rf
    && y.meta == x.meta.(jobs := y.meta.jobs) && |y.meta.jobs| == |x.meta.jobs| + |targets|
    && NoDup(targets) && (forall t :: t in targets ==> t !in LiveOf(y.meta, c))
    && OneJobPerTarget(x, y, ids, targets)
    && (forall i :: 0 <= i < |ids| ==> RepairsChunk(y.meta, ids[i], c))
  }

  /** One pass creates exactly as many jobs as replicas are missing, with distinct targets. */
  lemma PassOrders(x: Sched, y: Sched, uuid: Uuids, rf: nat, c: string, source: string, targets: seq<string>, now: Time)
    requires Repairable(x, uuid, rf, c) && PassFor(x, y, uuid, rf, c, source, targets, now)
    ensures Ordered(x, y, rf, c, NextIds(uuid, x.issued, |targets|), targets)
  {
    PassIsFit(x, y, uuid, rf, c, source, targets, now);
    FitIsOrdered(x, uuid, rf, c, source, targets, now);
  }

  lemma FitIsOrdered(x: Sched, uuid: Uuids, rf: nat, c: string, source: string, targets: seq<string>, now: Time)
    requires Inv(x.meta) && c in x.meta.chunks && FitTargets(x, c, targets) && |LiveOf(x.meta, c)| + |targets| == rf
    requires FreshIds(x, uuid, |targets|) && |x.queue| + |targets| <= QUEUE_CAPACITY
    ensures Ordered(x, CreateJobs(x, uuid, c, source, targets, now), rf, c, NextIds(uuid, x.issued, |targets|), targets)
  {
    ScheduledJobsRepair(x, uuid, c, source, targets, now);
    SameLive(x.meta, CreateJobs(x, uuid, c, source, targets, now).meta, c);
  }

  /** Convergence: after a pass over a repairable chunk, whatever else happens short of nodes coming or going and
      other changes to the chunk's replicas, once every job the pass created has been reported successful at least
      once, the chunk is whole. */
  lemma RepairConverges(x: Sched, y: Sched, uuid: Uuids, rf: nat, c: string, source: string, targets: seq<string>,
                        now: Time, run: seq<Event>)
    requires Repairable(x, uuid, rf, c) && PassFor(x, y, uuid, rf, c, source, targets, now)
    requires LegalRun(y, uuid, run)
    requires var ids := ToSet(NextIds(uuid, x.issued, |targets|));
             CalmRun(y, uuid, run, c, ids) && Confirmed(run, ids) == ids
    ensures Ordered(x, y, rf, c, NextIds(uuid, x.issued, |targets|), targets)
    ensures Whole(Play(y, uuid, run), uuid, rf, c)
  {
    PassOrders(x, y, uuid, rf, c, source, targets, now);
    ReportsMakeWhole(x, y, uuid, rf, c, NextIds(uuid, x.issued, |targets|), targets, run);
  }

  /** Success reports that cover the jobs for the missing replicas make the chunk whole. */
  lemma ReportsMakeWhole(x: Sched, y: Sched, uuid: Uuids, rf: nat, c: string, ids: seq<string>,
                         targets: seq<string>, run: seq<Event>)
    requires Ordered(x, y, rf, c, ids, targets) && LegalRun(y, uuid, run)
    requires CalmRun(y, uuid, run, c, ToSet(ids)) && Confirmed(run, ToSet(ids)) == ToSet(ids)
    ensures Whole(Play(y, uuid, run), uuid, rf, c)
  {
    OrderedRepair(x, y, rf, c, ids, targets);
    NothingGrew(y.meta, c);
    RunGrowsLive(y.meta, y, uuid, run, c, ToSet(ids), {});
    DisjointLiveCount(y.meta, Play(y, uuid, run).meta, c, targets);
    EnoughIsWhole(Play(y, uuid, run), uuid, rf, c);
  }

  lemma OrderedRepair(x: Sched, y: Sched, rf: nat, c: string, ids: seq<string>, targets: seq<string>)
    requires Ordered(x, y, rf, c, ids, targets)
    ensures AllRepair(y.meta, ToSet(ids), c) && {} + TargetsOf(y.meta, ToSet(ids)) == ToSet(targets)
  {
    forall j | j in ToSet(ids) ensures RepairsChunk(y.meta, j, c) {
      var i :| 0 <= i < |ids| && ids[i] == j;
    }
    ConfirmedTargets(y.meta, ids, targets);
  }

  lemma NothingGrew(s: State, c: string)
    requires Inv(s) && c in s.chunks
    ensures LiveGrewBy(s, s, c, {})
  {
    PreservedReflexive(s);
  }

  lemma EnoughIsWhole(x: Sched, uuid: Uuids, rf: nat, c: string)
    requires c in x.meta.chunks && |LiveOf(x.meta, c)| == rf
    ensures Whole(x, uuid, rf, c)
  {}

  lemma PassIsFit(x: Sched, y: Sched, uuid: Uuids, rf: nat, c: string, source: string, targets: seq<string>, now: Time)
    requires Repairable(x, uuid, rf, c) && PassFor(x, y, uuid, rf, c, source, targets, now)
    ensures FitTargets(x, c, targets) && |LiveOf(x.meta, c)| + |targets| == rf
    ensures FreshIds(x, uuid, |targets|) && |x.queue| + |targets| <= QUEUE_CAPACITY
    ensures y == CreateJobs(x, uuid, c, source, targets, now)
  {}

  lemma SameLive(s: State, t: State, c: string)
    requires c in s.chunks && t == s.(jobs := t.jobs)
    ensures c in t.chunks && LiveOf(t, c) == LiveOf(s, c)
  {}

  lemma DisjointLiveCount(s: State, t: State, c: string, targets: seq<string>)
    requires Inv(s) && LiveGrewBy(s, t, c, ToSet(targets)) && NoDup(targets)
    requires forall n :: n in targets ==> n !in LiveOf(s, c)
    ensures |LiveOf(t, c)| == |LiveOf(s, c)| + |targets|
  {
    LiveCount(s, c);
    LiveCount(t, c);
    ToSetSize(targets);
    assert ToSet(LiveOf(s, c)) !! ToSet(targets);
  }

  lemma LiveCount(s: State, c: string)
    requires Inv(s) && c in s.chunks
    ensures |ToSet(LiveOf(s, c))| == |LiveOf(s, c)|
  {
    assert ChunkOk(s.files, c, s.chunks[c]);
    FilterNoDup(s.chunks[c].replicas, IsLive(s.nodes));
    ToSetSize(LiveOf(s, c));
  }

  lemma JobCount(x: Sched, y: Sched, ids: seq<string>)
    requires y.meta.jobs.Keys == x.meta.jobs.Keys + ToSet(ids)
    requires NoDup(ids) && forall j :: j in ids ==> j !in x.meta.jobs
    ensures |y.meta.jobs| == |x.meta.jobs| + |ids|
  {
    ToSetSize(ids);
    assert x.meta.jobs.Keys !! ToSet(ids);
    assert |y.meta.jobs| == |y.meta.jobs.Keys| && |x.meta.jobs| == |x.meta.jobs.Keys|;
  }

  lemma ConfirmedTargets(s: State, ids: seq<string>, targets: seq<string>)
    requires |ids| == |targets|
    requires forall i :: 0 <= i < |ids| ==> ids[i] in s.jobs && s.jobs[ids[i]].targetNodeID == targets[i]
    ensures TargetsOf(s, ToSet(ids)) == ToSet(targets)
  {
    forall t | t in targets ensures t in TargetsOf(s, ToSet(ids)) {
      var i :| 0 <= i < |targets| && targets[i] == t;
      assert ids[i] in ToSet(ids);
    }
    forall t | t in TargetsOf(s, ToSet(ids)) ensures t in targets {
      var j :| j in ToSet(ids) && j in s.jobs && s.jobs[j].targetNodeID == t;
      var i :| 0 <= i < |ids| && ids[i] == j;
    }
  }
}
