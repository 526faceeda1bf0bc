/** Every interleaving of scheduling passes, workers, repair reports, recovery and other commands. */
module SchedulerRuns {
  import opened Records
  import opened Seqs
  import opened Metadata
  import opened Scheduling

  datatype Event =
    | Schedule(chunkID: string, source: string, targets: seq<string>, at: Time)
    | Work(at: Time)
    | Report(node: string, jobID: string, success: bool)
    | Move(jobID: string, source: string, at: Time) // recovery proposes a new source; an empty one keeps the old
    | Requeue(jobID: string) // recovery queues a job from the list it read at the start
    | Other(command: Command, picks: seq<string>)

  /** Commands that reach the log from outside the scheduler: no job is created there, and job updates
      only record outcomes. */
  ghost predicate LegalEvent(x: Sched, e: Event) {
    e.Other? ==>
      && LegalFor(x.meta, e.command, e.picks)
      && !e.command.CreateRepairJob?
      && (e.command.UpdateRepairJob? ==> e.command.status == JobDone || e.command.status == JobFailed)
  }

  ghost function Next(x: Sched, uuid: Uuids, e: Event): Sched
    requires LegalEvent(x, e)
  {
    match e
    case Schedule(c, source, targets, at) => CreateJobs(x, uuid, c, source, targets, at)
    case Work(at) => if x.queue == [] then x else ExecuteNext(x, at)
    case Report(n, j, ok) => Complete(x, n, j, ok)
    case Move(j, source, at) => Moved(x, j, source, at)
    case Requeue(j) => x.(queue := x.queue + [j])
    case Other(c, picks) => x.(meta := Apply(x.meta, c, picks).state)
  }

  function Moved(x: Sched, j: string, source: string, at: Time): Sched {
    x.(meta := UpdateJob(x.meta, UpdateRepairJob(j, JobPending, source, 0, "", at)).state)
  }

  ghost predicate LegalRun(x: Sched, uuid: Uuids, run: seq<Event>)
    decreases |run|
  {
    run == [] || (LegalEvent(x, run[0]) && LegalRun(Next(x, uuid, run[0]), uuid, run[1..]))
  }

  ghost function Play(x: Sched, uuid: Uuids, run: seq<Event>): Sched
    requires LegalRun(x, uuid, run)
    decreases |run|
  {
    if run == [] then x else Play(Next(x, uuid, run[0]), uuid, run[1..])
  }

  /** The handler of a repair report: it records the outcome, then completes the job; an unknown job is refused. */
  function Handled(x: Sched, node: string, jobID: string, success: bool, at: Time): Sched {
    if jobID !in x.meta.jobs then x
    else Complete(Updated(x, OutcomeUpdate(jobID, success, at)), node, jobID, success)
  }

  function Updated(x: Sched, c: Command): Sched
    requires c.UpdateRepairJob?
  {
    x.(meta := UpdateJob(x.meta, c).state)
  }

  function OutcomeUpdate(jobID: string, success: bool, at: Time): Command {
    UpdateRepairJob(jobID, if success then JobDone else JobFailed, "", 0, "", at)
  }

  /** Handling a report records its outcome in the job and touches no other job. */
  lemma HandledJobs(x: Sched, node: string, jobID: string, success: bool, at: Time)
    requires jobID in x.meta.jobs
    ensures var jobs, later := x.meta.jobs, Handled(x, node, jobID, success, at).meta.jobs;
            && later.Keys == jobs.Keys && OutcomeRecorded(jobs[jobID], later[jobID], success)
            && forall j :: j in jobs && j != jobID ==> later[j] == jobs[j]
  {
    CompleteKeepsJobs(Updated(x, OutcomeUpdate(jobID, success, at)), node, jobID, success);
  }

  lemma CompleteKeepsJobs(x: Sched, node: string, jobID: string, success: bool)
    ensures Complete(x, node, jobID, success).meta.jobs == x.meta.jobs
  {}

  ghost predicate OutcomeRecorded(job: RepairJob, later: RepairJob, success: bool) {
    && later.status == (if success then JobDone else JobFailed)
    && later.chunkID == job.chunkID && later.deleteSource == job.deleteSource
    && later.sourceNodeID == job.sourceNodeID && later.targetNodeID == job.targetNodeID
  }

  lemma PlayCons(x: Sched, uuid: Uuids, e: Event, rest: seq<Event>)
    requires LegalEvent(x, e) && LegalRun(Next(x, uuid, e), uuid, rest)
    ensures LegalRun(x, uuid, [e] + rest) && Play(x, uuid, [e] + rest) == Play(Next(x, uuid, e), uuid, rest)
  {
    assert ([e] + rest)[1..] == rest;
  }

  lemma PlayTwo(x: Sched, uuid: Uuids, a: Event, b: Event)
    requires LegalEvent(x, a) && LegalEvent(Next(x, uuid, a), b)
    ensures LegalRun(x, uuid, [a, b]) && Play(x, uuid, [a, b]) == Next(Next(x, uuid, a), uuid, b)
  {
    assert [b] + [] == [b] && [a] + [b] == [a, b];
    PlayCons(Next(x, uuid, a), uuid, b, []);
    PlayCons(x, uuid, a, [b]);
  }

  /** Handling a report on a known job is two events: the status update and the report. */
  lemma HandlingIsRun(x: Sched, uuid: Uuids, node: string, jobID: string, success: bool, at: Time)
    requires jobID in x.meta.jobs
    ensures var status := if success then JobDone else JobFailed;
            var run := [Other(UpdateRepairJob(jobID, status, "", 0, "", at), []), Report(node, jobID, success)];
            LegalRun(x, uuid, run) && Play(x, uuid, run) == Handled(x, node, jobID, success, at)
  {
    var c := OutcomeUpdate(jobID, success, at);
    UpdateIsEvent(x, uuid, c);
    ReportIsEvent(Updated(x, c), uuid, node, jobID, success);
    PlayTwo(x, uuid, Other(c, []), Report(node, jobID, success));
  }

  lemma UpdateIsEvent(x: Sched, uuid: Uuids, c: Command)
    requires c.UpdateRepairJob? && (c.status == JobDone || c.status == JobFailed)
    ensures LegalEvent(x, Other(c, [])) && Next(x, uuid, Other(c, [])) == Updated(x, c)
  {}

  lemma ReportIsEvent(x: Sched, uuid: Uuids, node: string, jobID: string, success: bool)
    ensures LegalEvent(x, Report(node, jobID, success))
    ensures Next(x, uuid, Report(node, jobID, success)) == Complete(x, node, jobID, success)
  {}

  // ----- The side tables -----

  ghost predicate ListsOk(x: Sched) {
    forall n :: n in x.pending ==> x.pending[n] != [] && NoDup(x.pending[n])
  }

  ghost predicate IsPending(x: Sched, jobID: string) {
    exists n :: n in x.pending && jobID in x.pending[n]
  }

  /** Pending lists are non-empty sets, and every job in the pair table is pending at some node. */
  ghost predicate TablesOk(x: Sched) {
    ListsOk(x) && forall k :: k in x.byPair ==> IsPending(x, x.byPair[k])
  }

  lemma ExecuteKeepsTables(x: Sched, jobID: string, now: Time)
    requires TablesOk(x)
    ensures TablesOk(Execute(x, jobID, now))
  {
    if jobID in x.meta.jobs {
      var y := Execute(x, jobID, now);
      var src := x.meta.jobs[jobID].sourceNodeID;
      assert jobID in y.pending[src];
      forall k | k in y.byPair ensures IsPending(y, y.byPair[k]) {
        if k in x.byPair && y.byPair[k] == x.byPair[k] {
          var n :| n in x.pending && x.byPair[k] in x.pending[n];
          assert n in y.pending && x.byPair[k] in y.pending[n];
        }
      }
    }
  }

  lemma RemoveJobExact(s: seq<string>, v: string)
    requires NoDup(s)
    ensures NoDup(RemoveJob(s, v))
    ensures forall w :: w in RemoveJob(s, v) <==> w in s && w != v
  {
    var i := IndexOf(s, v);
    if i < |s| { RemoveAtExact(s, i); }
  }

  lemma ClearKeepsTables(x: Sched, node: string, jobID: string)
    requires TablesOk(x)
    ensures TablesOk(Clear(x, node, jobID))
  {
    if node in x.pending {
      var y := Clear(x, node, jobID);
      RemoveJobExact(x.pending[node], jobID);
      forall k | k in y.byPair ensures IsPending(y, y.byPair[k]) {
        var n :| n in x.pending && x.byPair[k] in x.pending[n];
        assert n in y.pending && x.byPair[k] in y.pending[n];
      }
    }
  }

  /** A report by a node that has pending jobs takes exactly the reported job out of that node's list and out of the
      pair table; every other list and every other pair stays. */
  lemma ReportClearsExactly(x: Sched, node: string, jobID: string, success: bool)
    requires TablesOk(x) && node in x.pending
    ensures var y := Complete(x, node, jobID, success);
            && (forall j :: j in PendingFor(y, node) <==> j in x.pending[node] && j != jobID)
            && (forall n :: n != node ==> (n in y.pending <==> n in x.pending) && PendingFor(y, n) == PendingFor(x, n))
            && (forall k :: k in y.byPair <==> k in x.byPair && x.byPair[k] != jobID)
            && (forall k :: k in y.byPair ==> y.byPair[k] == x.byPair[k])
            && y.queue == x.queue && y.issued == x.issued
  {
    RemoveJobExact(x.pending[node], jobID);
  }

  lemma StepKeepsTables(x: Sched, uuid: Uuids, e: Event)
    requires TablesOk(x) && LegalEvent(x, e)
    ensures TablesOk(Next(x, uuid, e))
  {
    var y := Next(x, uuid, e);
    match e
    case Schedule(c, source, targets, at) =>
      CreateJobsOnlyAdds(x, uuid, c, source, targets, at);
      SameTables(x, y);
    case Work(at) =>
      if x.queue != [] {
        SameTables(x, x.(queue := x.queue[1..]));
        ExecuteKeepsTables(x.(queue := x.queue[1..]), x.queue[0], at);
      }
    case Report(n, j, ok) =>
      ClearKeepsTables(x, n, j);
      SameTables(Clear(x, n, j), y);
    case Move(j, source, at) => SameTables(x, y);
    case Requeue(j) => SameTables(x, y);
    case Other(c, picks) => SameTables(x, y);
  }

  lemma SameTables(x: Sched, y: Sched)
    requires TablesOk(x) && y.pending == x.pending && y.byPair == x.byPair
    ensures TablesOk(y)
  {
    forall k | k in y.byPair ensures IsPending(y, y.byPair[k]) {
      assert IsPending(x, x.byPair[k]);
    }
  }

  /** Over every run: pending lists stay non-empty and duplicate-free, and no pair is remembered for a
      job that is pending nowhere. */
  lemma {:induction false} RunKeepsTables(x: Sched, uuid: Uuids, run: seq<Event>)
    requires TablesOk(x) && LegalRun(x, uuid, run)
    ensures TablesOk(Play(x, uuid, run))
    decreases |run|
  {
    if run != [] {
      StepKeepsTables(x, uuid, run[0]);
      RunKeepsTables(Next(x, uuid, run[0]), uuid, run[1..]);
    }
  }

  // ----- One job per pair at a time -----

  /** Job `job` holds `key`: the pair table says so and no other job of the pair is queued. */
  ghost predicate Holds(x: Sched, key: string, job: string) {
    && key in x.byPair && x.byPair[key] == job
    && forall j :: j in x.queue && j in x.meta.jobs && KeyOf(x.meta.jobs[j]) == key ==> j == job
  }

  /** The event does not report the job from a node with pending jobs, which would clear it. */
  ghost predicate Spares(x: Sched, e: Event, job: string) {
    e.Report? && e.jobID == job ==> e.node !in x.pending
  }

  /** The event neither clears the holder nor requeues a different job of the same pair. */
  ghost predicate LeavesHeld(x: Sched, e: Event, key: string, job: string) {
    && Spares(x, e, job)
    && (e.Requeue? && e.jobID in x.meta.jobs && KeyOf(x.meta.jobs[e.jobID]) == key ==> e.jobID == job)
  }

  ghost predicate NoNewJobFor(x: Sched, y: Sched, key: string) {
    forall j :: j in y.meta.jobs && KeyOf(y.meta.jobs[j]) == key ==> j in x.meta.jobs
  }

  ghost predicate JobKeysStay(x: Sched, y: Sched) {
    forall j :: j in x.meta.jobs ==> j in y.meta.jobs && KeyOf(y.meta.jobs[j]) == KeyOf(x.meta.jobs[j])
  }

  /** Executing a job makes it the holder of its pair when no other job of the pair is queued. */
  lemma ExecutingHolds(x: Sched, jobID: string, now: Time)
    requires jobID in x.meta.jobs
    requires forall j :: j in x.queue && j in x.meta.jobs && KeyOf(x.meta.jobs[j]) == KeyOf(x.meta.jobs[jobID]) ==>
               j == jobID
    ensures Holds(Execute(x, jobID, now), KeyOf(x.meta.jobs[jobID]), jobID)
  {}

  lemma ScheduleLeavesHeld(x: Sched, uuid: Uuids, c: string, source: string, targets: seq<string>, at: Time,
                           key: string, job: string)
    requires Holds(x, key, job)
    ensures var y := CreateJobs(x, uuid, c, source, targets, at);
            Holds(y, key, job) && NoNewJobFor(x, y, key) && JobKeysStay(x, y)
  {
    CreateJobsOnlyAdds(x, uuid, c, source, targets, at);
    var y := CreateJobs(x, uuid, c, source, targets, at);
    forall j | j in y.queue && j in y.meta.jobs && KeyOf(y.meta.jobs[j]) == key ensures j == job {
      var i :| 0 <= i < |y.queue| && y.queue[i] == j;
      if i < |x.queue| { assert x.queue[i] == j; }
    }
  }

  lemma WorkLeavesHeld(x: Sched, at: Time, key: string, job: string)
    requires Holds(x, key, job) && x.queue != []
    ensures var y := ExecuteNext(x, at);
            Holds(y, key, job) && NoNewJobFor(x, y, key) && JobKeysStay(x, y)
  {
    assert x.queue[0] in x.queue && forall j :: j in x.queue[1..] ==> j in x.queue;
    var y := ExecuteNext(x, at);
    assert y.queue == x.queue[1..];
    assert JobKeysStay(x, y);
  }

  lemma ReportLeavesHeld(x: Sched, n: string, j: string, ok: bool, key: string, job: string)
    requires Holds(x, key, job) && LeavesHeld(x, Report(n, j, ok), key, job)
    ensures var y := Complete(x, n, j, ok);
            Holds(y, key, job) && NoNewJobFor(x, y, key) && JobKeysStay(x, y)
  {
    var y := Complete(x, n, j, ok);
    assert y.meta.jobs == x.meta.jobs && y.queue == x.queue;
  }

  lemma MoveLeavesHeld(x: Sched, j: string, source: string, at: Time, key: string, job: string)
    requires Holds(x, key, job)
    ensures var y := Moved(x, j, source, at);
            Holds(y, key, job) && NoNewJobFor(x, y, key) && JobKeysStay(x, y)
  {
    assert JobKeysStay(x, Moved(x, j, source, at));
  }

  lemma RequeueLeavesHeld(x: Sched, j: string, key: string, job: string)
    requires Holds(x, key, job) && LeavesHeld(x, Requeue(j), key, job)
    ensures var y := x.(queue := x.queue + [j]);
            Holds(y, key, job) && NoNewJobFor(x, y, key) && JobKeysStay(x, y)
  {}

  lemma OtherLeavesHeld(x: Sched, c: Command, picks: seq<string>, key: string, job: string)
    requires Holds(x, key, job) && LegalEvent(x, Other(c, picks))
    ensures var y := x.(meta := Apply(x.meta, c, picks).state);
            Holds(y, key, job) && NoNewJobFor(x, y, key) && JobKeysStay(x, y)
  {
    var y := x.(meta := Apply(x.meta, c, picks).state);
    assert y.meta.jobs.Keys == x.meta.jobs.Keys && JobKeysStay(x, y);
  }

  lemma StepLeavesHeld(x: Sched, uuid: Uuids, e: Event, key: string, job: string)
    requires Holds(x, key, job) && LegalEvent(x, e) && LeavesHeld(x, e, key, job)
    ensures var y := Next(x, uuid, e);
            Holds(y, key, job) && NoNewJobFor(x, y, key) && JobKeysStay(x, y)
  {
    match e
    case Schedule(c, source, targets, at) => ScheduleLeavesHeld(x, uuid, c, source, targets, at, key, job);
    case Work(at) => if x.queue != [] { WorkLeavesHeld(x, at, key, job); }
    case Report(n, j, ok) => ReportLeavesHeld(x, n, j, ok, key, job);
    case Move(j, source, at) => MoveLeavesHeld(x, j, source, at, key, job);
    case Requeue(j) => RequeueLeavesHeld(x, j, key, job);
    case Other(c, picks) => OtherLeavesHeld(x, c, picks, key, job);
  }

  ghost predicate RunLeavesHeld(x: Sched, uuid: Uuids, run: seq<Event>, key: string, job: string)
    requires LegalRun(x, uuid, run)
    decreases |run|
  {
    run == [] || (LeavesHeld(x, run[0], key, job) && RunLeavesHeld(Next(x, uuid, run[0]), uuid, run[1..], key, job))
  }

  /** Over every run in which the holder's completion is not reported and cleared, no further job is created
      for its chunk-and-target pair, by whatever scheduling passes. */
  lemma {:induction false} NoSecondJobWhileHeld(x: Sched, uuid: Uuids, run: seq<Event>, key: string, job: string)
    requires Holds(x, key, job) && LegalRun(x, uuid, run) && RunLeavesHeld(x, uuid, run, key, job)
    ensures NoNewJobFor(x, Play(x, uuid, run), key) && Holds(Play(x, uuid, run), key, job)
    ensures JobKeysStay(x, Play(x, uuid, run))
    decreases |run|
  {
    if run != [] {
      var y := Next(x, uuid, run[0]);
      StepLeavesHeld(x, uuid, run[0], key, job);
      NoSecondJobWhileHeld(y, uuid, run[1..], key, job);
      var z := Play(x, uuid, run);
      forall j | j in x.meta.jobs ensures j in z.meta.jobs && KeyOf(z.meta.jobs[j]) == KeyOf(x.meta.jobs[j]) {
        assert KeyOf(y.meta.jobs[j]) == KeyOf(x.meta.jobs[j]);
      }
    }
  }
}
