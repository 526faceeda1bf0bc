/** Whatever the scheduler and the storage nodes do to the metadata, they do by a log of commands; and what the
    scheduler does to its own tables, field by field. */
module Logs {
  import opened Records
  import opened Seqs
  import opened Metadata
  import opened Scheduling
  import Runs = SchedulerRuns
  import Safety = ReplicaSafety

  lemma {:induction false} LogsJoin(s: State, a: seq<Entry>, b: seq<Entry>)
    requires LegalLog(s, a) && LegalLog(Run(s, a), b)
    ensures LegalLog(s, a + b) && Run(s, a + b) == Run(Run(s, a), b)
    decreases |a|
  {
    if a == [] {
      assert a + b == b;
    } else {
      LogsJoin(Apply(s, a[0].command, a[0].picks).state, a[1..], b);
      assert (a + b)[1..] == a[1..] + b;
    }
  }

  lemma OneEntry(s: State, c: Command, picks: seq<string>)
    requires LegalFor(s, c, picks)
    ensures LegalLog(s, [Entry(c, picks)]) && Run(s, [Entry(c, picks)]) == Apply(s, c, picks).state
  {
    assert [Entry(c, picks)][1..] == [];
  }

  // ----- The scheduler -----

  /** The orders of a pass: one for each target whose pair is not held, under the next ids. */
  ghost function OrderLog(x: Sched, uuid: Uuids, c: string, source: string, targets: seq<string>, at: Time): seq<Entry>
  {
    if |targets| == 0 then []
    else
      var log, target := OrderLog(x, uuid, c, source, targets[..|targets| - 1], at), targets[|targets| - 1];
      if c + ":" + target in x.byPair then log
      else log + [Entry(CreateRepairJob(uuid(x.issued + |log|), c, false, source, target, at), [])]
  }

  lemma OrderIsCommand(x: Sched, uuid: Uuids, c: string, source: string, target: string, at: Time)
    ensures var y := CreateOne(x, uuid, c, source, target, at);
            && y.byPair == x.byPair
            && if c + ":" + target in x.byPair then y == x
               else && y.issued == x.issued + 1
                    && y.meta == Apply(x.meta, CreateRepairJob(uuid(x.issued), c, false, source, target, at), []).state
  {}

  lemma {:induction false} PassFollowsLog(x: Sched, uuid: Uuids, c: string, source: string, targets: seq<string>,
                                          at: Time)
    ensures var log, y := OrderLog(x, uuid, c, source, targets, at), CreateJobs(x, uuid, c, source, targets, at);
            && LegalLog(x.meta, log) && y.meta == Run(x.meta, log)
            && y.issued == x.issued + |log| && y.byPair == x.byPair
  {
    if |targets| > 0 {
      var init, target := targets[..|targets| - 1], targets[|targets| - 1];
      PassFollowsLog(x, uuid, c, source, init, at);
      var log, y := OrderLog(x, uuid, c, source, init, at), CreateJobs(x, uuid, c, source, init, at);
      OrderIsCommand(y, uuid, c, source, target, at);
      if c + ":" + target !in x.byPair {
        var order := CreateRepairJob(uuid(y.issued), c, false, source, target, at);
        OneEntry(y.meta, order, []);
        LogsJoin(x.meta, log, [Entry(order, [])]);
      }
    }
  }

  /** The commands an event proposes. */
  ghost function EventLog(x: Sched, uuid: Uuids, e: Runs.Event): seq<Entry> {
    match e
    case Schedule(c, source, targets, at) => OrderLog(x, uuid, c, source, targets, at)
    case Work(at) =>
      if x.queue == [] || x.queue[0] !in x.meta.jobs then []
      else [Entry(UpdateRepairJob(x.queue[0], JobInProgress, "", 0, "", at), [])]
    case Report(_, j, success) =>
      if j !in x.meta.jobs || !success then []
      else
        var job := x.meta.jobs[j];
        [Entry(if job.deleteSource then EvictChunkFromNode(job.chunkID, job.sourceNodeID)
               else AddChunkReplica(job.chunkID, job.targetNodeID), [])]
    case Move(j, source, at) => [Entry(UpdateRepairJob(j, JobPending, source, 0, "", at), [])]
    case Requeue(_) => []
    case Other(c, picks) => [Entry(c, picks)]
  }

  lemma EventFollowsLog(x: Sched, uuid: Uuids, e: Runs.Event)
    requires Runs.LegalEvent(x, e)
    ensures var log := EventLog(x, uuid, e);
            LegalLog(x.meta, log) && Runs.Next(x, uuid, e).meta == Run(x.meta, log)
  {
    if e.Schedule? {
      PassFollowsLog(x, uuid, e.chunkID, e.source, e.targets, e.at);
    } else if EventLog(x, uuid, e) != [] {
      var entry := EventLog(x, uuid, e)[0];
      OneEntry(x.meta, entry.command, entry.picks);
    }
  }

  ghost function SchedulerLog(x: Sched, uuid: Uuids, run: seq<Runs.Event>): seq<Entry>
    requires Runs.LegalRun(x, uuid, run)
    decreases |run|
  {
    if run == [] then [] else EventLog(x, uuid, run[0]) + SchedulerLog(Runs.Next(x, uuid, run[0]), uuid, run[1..])
  }

  /** Over every run of the scheduler the metadata is what the commands it proposed make of it. */
  lemma {:induction false} SchedulerFollowsLog(x: Sched, uuid: Uuids, run: seq<Runs.Event>)
    requires Runs.LegalRun(x, uuid, run)
    ensures var log := SchedulerLog(x, uuid, run);
            LegalLog(x.meta, log) && Runs.Play(x, uuid, run).meta == Run(x.meta, log)
    decreases |run|
  {
    if run != [] {
      EventFollowsLog(x, uuid, run[0]);
      SchedulerFollowsLog(Runs.Next(x, uuid, run[0]), uuid, run[1..]);
      LogsJoin(x.meta, EventLog(x, uuid, run[0]), SchedulerLog(Runs.Next(x, uuid, run[0]), uuid, run[1..]));
    }
  }

  // ----- Its queue -----

  /** The job a worker takes, and the jobs an event queues. */
  ghost function Taken(x: Sched, e: Runs.Event): seq<string> {
    if e.Work? && x.queue != [] then [x.queue[0]] else []
  }

  ghost function Queued(x: Sched, uuid: Uuids, e: Runs.Event): seq<string>
    requires Runs.LegalEvent(x, e)
  {
    var y := Runs.Next(x, uuid, e);
    if e.Requeue? then [e.jobID]
    else if e.Schedule? && |x.queue| <= |y.queue| then y.queue[|x.queue|..]
    else []
  }

  ghost function AllTaken(x: Sched, uuid: Uuids, run: seq<Runs.Event>): seq<string>
    requires Runs.LegalRun(x, uuid, run)
    decreases |run|
  {
    if run == [] then [] else Taken(x, run[0]) + AllTaken(Runs.Next(x, uuid, run[0]), uuid, run[1..])
  }

  ghost function AllQueued(x: Sched, uuid: Uuids, run: seq<Runs.Event>): seq<string>
    requires Runs.LegalRun(x, uuid, run)
    decreases |run|
  {
    if run == [] then [] else Queued(x, uuid, run[0]) + AllQueued(Runs.Next(x, uuid, run[0]), uuid, run[1..])
  }

  lemma Continued(a: seq<string>, b: seq<string>)
    requires a <= b
    ensures b == a + b[|a|..]
  {}

  lemma EventKeepsOrder(x: Sched, uuid: Uuids, e: Runs.Event)
    requires Runs.LegalEvent(x, e)
    ensures Taken(x, e) + Runs.Next(x, uuid, e).queue == x.queue + Queued(x, uuid, e)
  {
    if e.Schedule? {
      CreateJobsOnlyAdds(x, uuid, e.chunkID, e.source, e.targets, e.at);
      Continued(x.queue, Runs.Next(x, uuid, e).queue);
    } else if e.Work? && x.queue != [] {
      assert x.queue == [x.queue[0]] + x.queue[1..];
    }
  }

  /** Workers take jobs in the order in which they were queued. */
  lemma {:induction false} WorkedInOrder(x: Sched, uuid: Uuids, run: seq<Runs.Event>)
    requires Runs.LegalRun(x, uuid, run)
    ensures AllTaken(x, uuid, run) + Runs.Play(x, uuid, run).queue == x.queue + AllQueued(x, uuid, run)
    decreases |run|
  {
    if run != [] {
      var e := run[0];
      var y := Runs.Next(x, uuid, e);
      WorkedInOrder(y, uuid, run[1..]);
      EventKeepsOrder(x, uuid, e);
      ConcatAssociates(Taken(x, e), AllTaken(y, uuid, run[1..]), Runs.Play(x, uuid, run).queue);
      ConcatAssociates(Taken(x, e), y.queue, AllQueued(y, uuid, run[1..]));
      ConcatAssociates(x.queue, Queued(x, uuid, e), AllQueued(y, uuid, run[1..]));
    }
  }

  // ----- Its tables -----

  /** Executing a known job hands it to its source, behind what that node is already to do, unless it is there; the
      job takes its pair; nothing else in the tables changes. */
  lemma ExecuteDoes(x: Sched, j: string, at: Time)
    requires j in x.meta.jobs
    ensures var job, y := x.meta.jobs[j], Execute(x, j, at);
            && y.queue == x.queue && y.issued == x.issued
            && y.pending.Keys == x.pending.Keys + {job.sourceNodeID}
            && (forall n :: n in x.pending && n != job.sourceNodeID ==> y.pending[n] == x.pending[n])
    ensures var job, y := x.meta.jobs[j], Execute(x, j, at);
            var before := if job.sourceNodeID in x.pending then x.pending[job.sourceNodeID] else [];
            job.sourceNodeID in y.pending && y.pending[job.sourceNodeID] == before + if j in before then [] else [j]
    ensures var job, y := x.meta.jobs[j], Execute(x, j, at);
            var key := job.chunkID + ":" + job.targetNodeID;
            && y.byPair.Keys == x.byPair.Keys + {key} && y.byPair[key] == j
            && forall k :: k in x.byPair && k != key ==> y.byPair[k] == x.byPair[k]
  {
    var source := x.meta.jobs[j].sourceNodeID;
    if source in x.pending { assert x.pending[source] + [] == x.pending[source]; }
  }

  /** An unknown job is taken from the queue and forgotten. */
  lemma UnknownIsSkipped(x: Sched, uuid: Uuids, at: Time)
    requires x.queue != [] && x.queue[0] !in x.meta.jobs
    ensures Runs.Next(x, uuid, Runs.Work(at)) == x.(queue := x.queue[1..])
  {}

  // ----- The storage nodes -----

  /** The command a step of the system puts into the log, if any. */
  ghost function StepLog(w: Safety.World, x: Safety.System, e: Safety.Step): seq<Entry>
    requires Safety.Legal(w, x, e)
  {
    match e
    case Commit(i, picks) =>
      var u := x.uploads[i];
      [Entry(CommitChunk(u.chunkID, u.confirmed, u.checksum), picks)]
    case Report(j) =>
      var job := x.meta.jobs[j];
      [Entry(if job.deleteSource then EvictChunkFromNode(job.chunkID, job.sourceNodeID)
             else AddChunkReplica(job.chunkID, job.targetNodeID), [])]
    case Propose(c, picks) => [Entry(c, picks)]
    case _ => []
  }

  lemma StepFollowsLog(w: Safety.World, x: Safety.System, e: Safety.Step)
    requires Safety.Legal(w, x, e)
    ensures var log := StepLog(w, x, e);
            LegalLog(x.meta, log) && Safety.Next(w, x, e).meta == Run(x.meta, log)
  {
    if StepLog(w, x, e) != [] {
      var entry := StepLog(w, x, e)[0];
      OneEntry(x.meta, entry.command, entry.picks);
    }
  }

  ghost function SystemLog(w: Safety.World, x: Safety.System, run: seq<Safety.Step>): seq<Entry>
    requires Safety.LegalRun(w, x, run)
    decreases |run|
  {
    if run == [] then [] else StepLog(w, x, run[0]) + SystemLog(w, Safety.Next(w, x, run[0]), run[1..])
  }

  /** Over every run of the storage nodes the metadata is what the commits, repair reports and proposals make of it. */
  lemma {:induction false} SystemFollowsLog(w: Safety.World, x: Safety.System, run: seq<Safety.Step>)
    requires Safety.LegalRun(w, x, run)
    ensures var log := SystemLog(w, x, run);
            LegalLog(x.meta, log) && Safety.Play(w, x, run).meta == Run(x.meta, log)
    decreases |run|
  {
    if run != [] {
      StepFollowsLog(w, x, run[0]);
      SystemFollowsLog(w, Safety.Next(w, x, run[0]), run[1..]);
      LogsJoin(x.meta, StepLog(w, x, run[0]), SystemLog(w, Safety.Next(w, x, run[0]), run[1..]));
    }
  }

  /** A repair that succeeded can be reported, and then its target holds the chunk and, if the chunk is known and
      copied rather than moved, is among its replicas. */
  lemma RepairIsRecorded(w: Safety.World, x: Safety.System, j: string, source: string, t: string)
    requires Safety.Sane(w) && Safety.Safe(w, x) && Safety.Legal(w, x, Safety.Repair(j, source, t, true))
    ensures var y := Safety.Next(w, x, Safety.Repair(j, source, t, true));
            && Safety.Legal(w, y, Safety.Report(j))
            && var z, job := Safety.Next(w, y, Safety.Report(j)), x.meta.jobs[j];
               && t == job.targetNodeID && Safety.Holds(z, t, job.chunkID)
               && (job.chunkID in x.meta.chunks && !job.deleteSource ==> IsReplica(z.meta, job.chunkID, t))
  {
    Safety.RepairKeeps(w, x, Safety.Repair(j, source, t, true));
  }
}
