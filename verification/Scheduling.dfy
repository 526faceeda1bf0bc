/** The repair scheduler as steps over the metadata state and its side tables. */
module Scheduling {
  import opened Records
  import opened Seqs
  import opened Metadata
  import opened Structure

  const QUEUE_CAPACITY := 1024

  /** Metadata, job ids pending per source node, the job last executed per chunk-and-target pair, the
      queue of job ids, and how many job ids have been generated. */
  datatype Sched = Sched(
    meta: State,
    pending: map<string, seq<string>>,
    byPair: map<string, string>,
    queue: seq<string>,
    issued: nat)

  /** The k-th generated job id. */
  type Uuids = nat -> string

  function PairKey(chunkID: string, target: string): string {
    chunkID + ":" + target
  }

  function KeyOf(job: RepairJob): string {
    PairKey(job.chunkID, job.targetNodeID)
  }

  function AppendUnique(s: seq<string>, v: string): seq<string> {
    if v in s then s else s + [v]
  }

  function RemoveJob(s: seq<string>, v: string): seq<string> {
    var i := IndexOf(s, v);
    if i < |s| then RemoveAt(s, i) else s
  }

  function PendingFor(x: Sched, node: string): seq<string> {
    if node in x.pending then x.pending[node] else []
  }

  // ----- Creating jobs -----

  function CreateOne(x: Sched, uuid: Uuids, chunkID: string, source: string, target: string, now: Time): Sched {
    if PairKey(chunkID, target) in x.byPair then x
    else
      var jid := uuid(x.issued);
      var r := CreateJob(x.meta, CreateRepairJob(jid, chunkID, false, source, target, now));
      var y := x.(issued := x.issued + 1);
      if r.outcome.Rejected? then y
      else y.(meta := r.state, queue := if |x.queue| < QUEUE_CAPACITY then x.queue + [jid] else x.queue)
  }

  function CreateJobs(x: Sched, uuid: Uuids, chunkID: string, source: string, targets: seq<string>, now: Time): Sched {
    if |targets| == 0 then x
    else CreateOne(CreateJobs(x, uuid, chunkID, source, targets[..|targets| - 1], now),
                   uuid, chunkID, source, targets[|targets| - 1], now)
  }

  // ----- Executing and completing -----

  function MarkExecuted(s: State, jobID: string, now: Time): State {
    UpdateJob(s, UpdateRepairJob(jobID, JobInProgress, "", 0, "", now)).state
  }

  function Execute(x: Sched, jobID: string, now: Time): Sched {
    if jobID !in x.meta.jobs then x
    else
      var job := x.meta.jobs[jobID];
      x.(pending := x.pending[job.sourceNodeID := AppendUnique(PendingFor(x, job.sourceNodeID), jobID)],
         byPair := x.byPair[KeyOf(job) := jobID],
         meta := MarkExecuted(x.meta, jobID, now))
  }

  /** A worker takes the job at the head of the queue. */
  function ExecuteNext(x: Sched, now: Time): Sched
    requires x.queue != []
  {
    Execute(x.(queue := x.queue[1..]), x.queue[0], now)
  }

  /** Forgetting a job that a node reported on: only when that node has pending jobs at all. */
  function Clear(x: Sched, node: string, jobID: string): Sched {
    if node !in x.pending then x
    else
      var left := RemoveJob(x.pending[node], jobID);
      x.(byPair := map k | k in x.byPair && x.byPair[k] != jobID :: x.byPair[k],
         pending := if left == [] then x.pending - {node} else x.pending[node := left])
  }

  /** A repair report. A failed repair is only rescheduled later. */
  function Complete(x: Sched, node: string, jobID: string, success: bool): Sched {
    var y := Clear(x, node, jobID);
    if jobID !in y.meta.jobs || !success then y
    else
      var job := y.meta.jobs[jobID];
      y.(meta := if job.deleteSource then Evict(y.meta, job.chunkID, job.sourceNodeID).state
                 else AddReplica(y.meta, job.chunkID, job.targetNodeID).state)
  }

  // ----- What creating jobs does -----

  /** `job` is a fresh order to copy `chunkID` from `source`. */
  ghost predicate IsOrder(job: RepairJob, chunkID: string, source: string) {
    job.chunkID == chunkID && job.sourceNodeID == source && job.status == JobPending && !job.deleteSource
  }

  /** Jobs are only added, each for a listed target whose pair was not in the pair table. */
  ghost predicate AddsOrders(x: Sched, y: Sched, chunkID: string, source: string, targets: seq<string>) {
    && (forall j :: j in x.meta.jobs ==> j in y.meta.jobs && y.meta.jobs[j] == x.meta.jobs[j])
    && (forall j :: j in y.meta.jobs && j !in x.meta.jobs ==>
          && IsOrder(y.meta.jobs[j], chunkID, source) && y.meta.jobs[j].targetNodeID in targets
          && KeyOf(y.meta.jobs[j]) !in x.byPair)
  }

  /** The queue only grows, by ids of new jobs, within its capacity. */
  ghost predicate GrowsQueue(x: Sched, y: Sched) {
    && x.queue <= y.queue
    && (forall i :: |x.queue| <= i < |y.queue| ==> y.queue[i] in y.meta.jobs && y.queue[i] !in x.meta.jobs)
    && (|x.queue| <= QUEUE_CAPACITY ==> |y.queue| <= QUEUE_CAPACITY)
  }

  /** Nothing but jobs, queue and id counter changes. */
  ghost predicate OnlyAddsJobs(x: Sched, y: Sched, chunkID: string, source: string, targets: seq<string>) {
    && y.meta == x.meta.(jobs := y.meta.jobs) && y.pending == x.pending && y.byPair == x.byPair && x.issued <= y.issued
    && AddsOrders(x, y, chunkID, source, targets)
    && GrowsQueue(x, y)
  }

  lemma {:induction false} CreateJobsOnlyAdds(x: Sched, uuid: Uuids, chunkID: string, source: string,
                                              targets: seq<string>, now: Time)
    ensures OnlyAddsJobs(x, CreateJobs(x, uuid, chunkID, source, targets, now), chunkID, source, targets)
  {
    if |targets| > 0 {
      var init := targets[..|targets| - 1];
      CreateJobsOnlyAdds(x, uuid, chunkID, source, init, now);
      var y := CreateJobs(x, uuid, chunkID, source, init, now);
      CreateOneAddsOrder(x, y, uuid, chunkID, source, targets, now);
      CreateOneGrowsQueue(x, y, uuid, chunkID, source, targets[|targets| - 1], now);
    }
  }

  lemma CreateOneAddsOrder(x: Sched, y: Sched, uuid: Uuids, chunkID: string, source: string, targets: seq<string>,
                           now: Time)
    requires |targets| > 0 && y.byPair == x.byPair && AddsOrders(x, y, chunkID, source, targets[..|targets| - 1])
    ensures AddsOrders(x, CreateOne(y, uuid, chunkID, source, targets[|targets| - 1], now), chunkID, source, targets)
  {
    assert forall t :: t in targets[..|targets| - 1] ==> t in targets;
  }

  lemma CreateOneGrowsQueue(x: Sched, y: Sched, uuid: Uuids, chunkID: string, source: string, target: string, now: Time)
    requires GrowsQueue(x, y) && forall j :: j in x.meta.jobs ==> j in y.meta.jobs
    ensures GrowsQueue(x, CreateOne(y, uuid, chunkID, source, target, now))
  {}

  lemma {:induction false} NewJobsKeepInv(x: Sched, uuid: Uuids, c: string, source: string, targets: seq<string>,
                                          now: Time)
    requires Inv(x.meta)
    ensures Inv(CreateJobs(x, uuid, c, source, targets, now).meta)
  {
    if |targets| > 0 {
      NewJobsKeepInv(x, uuid, c, source, targets[..|targets| - 1], now);
      var y := CreateJobs(x, uuid, c, source, targets[..|targets| - 1], now);
      var cmd := CreateRepairJob(uuid(y.issued), c, false, source, targets[|targets| - 1], now);
      StepKeepsInv(y.meta, cmd, []);
    }
  }

  /** The next `n` generated ids. */
  function NextIds(uuid: Uuids, start: nat, n: nat): (r: seq<string>)
    ensures |r| == n && forall i :: 0 <= i < n ==> r[i] == uuid(start + i)
  {
    if n == 0 then [] else NextIds(uuid, start, n - 1) + [uuid(start + n - 1)]
  }

  /** The next `n` generated ids are new: they collide neither with each other nor with recorded jobs. */
  ghost predicate FreshIds(x: Sched, uuid: Uuids, n: nat) {
    NoDup(NextIds(uuid, x.issued, n)) && forall j :: j in NextIds(uuid, x.issued, n) ==> j !in x.meta.jobs
  }

  lemma FreshPrefix(x: Sched, uuid: Uuids, n: nat)
    requires FreshIds(x, uuid, n + 1)
    ensures FreshIds(x, uuid, n)
    ensures NextIds(uuid, x.issued, n + 1) == NextIds(uuid, x.issued, n) + [uuid(x.issued + n)]
    ensures uuid(x.issued + n) !in NextIds(uuid, x.issued, n) && uuid(x.issued + n) !in x.meta.jobs
  {
    var ids, ids0 := NextIds(uuid, x.issued, n + 1), NextIds(uuid, x.issued, n);
    assert ids[n] in ids && ids[..n] == ids0;
    forall i, j | 0 <= i < j < n ensures ids0[i] != ids0[j] {
      assert ids[i] != ids[j];
    }
  }

  /** `y` is `x` with one queued order per target, under the given ids. */
  ghost predicate OneJobPerTarget(x: Sched, y: Sched, ids: seq<string>, targets: seq<string>) {
    && |ids| == |targets|
    && y.issued == x.issued + |targets|
    && y.queue == x.queue + ids
    && y.byPair == x.byPair
    && y.meta.jobs.Keys == x.meta.jobs.Keys + ToSet(ids)
    && forall i :: 0 <= i < |ids| ==> ids[i] in y.meta.jobs && y.meta.jobs[ids[i]].targetNodeID == targets[i]
  }

  lemma CreateOneExactly(x: Sched, y: Sched, uuid: Uuids, ids: seq<string>, chunkID: string, source: string,
                         targets: seq<string>, target: string, now: Time)
    requires OneJobPerTarget(x, y, ids, targets) && |x.queue| + |targets| < QUEUE_CAPACITY
    requires PairKey(chunkID, target) !in x.byPair
    requires uuid(y.issued) !in ids && uuid(y.issued) !in x.meta.jobs
    ensures OneJobPerTarget(x, CreateOne(y, uuid, chunkID, source, target, now), ids + [uuid(y.issued)],
                            targets + [target])
  {
    var z := CreateOne(y, uuid, chunkID, source, target, now);
    var ids' := ids + [uuid(y.issued)];
    assert z.meta.jobs.Keys == y.meta.jobs.Keys + {uuid(y.issued)};
    assert ToSet(ids') == ToSet(ids) + {uuid(y.issued)};
  }

  /** With fresh ids, queue space and no pair of the targets in the table, exactly one job per target is
      created, in order, and every one of them is queued. */
  lemma {:induction false} CreateJobsExactly(x: Sched, uuid: Uuids, chunkID: string, source: string,
                                             targets: seq<string>, now: Time)
    requires FreshIds(x, uuid, |targets|) && |x.queue| + |targets| <= QUEUE_CAPACITY
    requires forall t :: t in targets ==> PairKey(chunkID, t) !in x.byPair
    ensures OneJobPerTarget(x, CreateJobs(x, uuid, chunkID, source, targets, now),
                            NextIds(uuid, x.issued, |targets|), targets)
  {
    if |targets| > 0 {
      var n := |targets| - 1;
      FreshPrefix(x, uuid, n);
      assert targets == targets[..n] + [targets[n]];
      CreateJobsExactly(x, uuid, chunkID, source, targets[..n], now);
      var y := CreateJobs(x, uuid, chunkID, source, targets[..n], now);
      CreateOneExactly(x, y, uuid, NextIds(uuid, x.issued, n), chunkID, source, targets[..n], targets[n], now);
    } else {
      assert x.queue + [] == x.queue;
    }
  }
}
