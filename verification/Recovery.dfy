/** Recovery of jobs that were in progress when a scheduler stopped. */
module Recovery {
  import opened Records
  import opened Seqs
  import opened Metadata
  import opened Structure
  import opened Placement
  import opened Scheduling

  /** In progress, for a chunk that still has something live to copy from and still misses replicas. */
  ghost predicate Recoverable(s: State, rf: nat, j: string) {
    && j in s.jobs && s.jobs[j].status == JobInProgress && s.jobs[j].chunkID in s.chunks
    && 0 < |LiveOf(s, s.jobs[j].chunkID)| < rf
  }

  ghost function AllRecoverable(s: State, rf: nat): set<string> {
    set j | j in s.jobs && Recoverable(s, rf, j)
  }

  // ----- The source a recovered job gets -----

  function Load(s: State, n: string): nat {
    if n in s.nodes then s.nodes[n].chunkCount else 0
  }

  /** Position of the first least loaded node. */
  function LeastAt(s: State, live: seq<string>): (i: nat)
    requires live != []
    ensures i < |live|
    ensures forall k :: 0 <= k < |live| ==> Load(s, live[i]) <= Load(s, live[k])
    ensures forall k :: 0 <= k < i ==> Load(s, live[i]) < Load(s, live[k])
  {
    var n := |live| - 1;
    if n == 0 then 0
    else
      var i := LeastAt(s, live[..n]);
      if Load(s, live[n]) < Load(s, live[i]) then n else i
  }

  function PrimaryOf(s: State, live: seq<string>): string
    requires live != []
  {
    live[LeastAt(s, live)]
  }

  /** The job keeps a source that is a live replica; otherwise it moves to the chosen primary, except that an
      update cannot name a node whose id is empty. */
  function ChosenSource(s: State, j: string): string
    requires j in s.jobs && s.jobs[j].chunkID in s.chunks && LiveOf(s, s.jobs[j].chunkID) != []
  {
    var live, own := LiveOf(s, s.jobs[j].chunkID), s.jobs[j].sourceNodeID;
    if own in live || PrimaryOf(s, live) == "" then own else PrimaryOf(s, live)
  }

  lemma PrimaryIsFirstLeast(s: State, live: seq<NodeEntry>, i: nat)
    requires forall n :: n in live ==> n.nodeID in s.nodes && n == s.nodes[n.nodeID]
    requires i < |live|
    requires forall k :: 0 <= k < |live| ==> !Before(LeastLoaded, live[k], live[i])
    requires forall k :: 0 <= k < i ==> Before(LeastLoaded, live[i], live[k])
    ensures PrimaryOf(s, Ids(live)) == live[i].nodeID
  {
    var r := LeastAt(s, Ids(live));
    forall k | 0 <= k < |live| ensures Load(s, Ids(live)[k]) == live[k].chunkCount {
      assert live[k] in live;
    }
    assert Load(s, Ids(live)[r]) <= Load(s, Ids(live)[i]);
  }

  /** One node whose id is empty holds the only live copy of a chunk; a job for it stopped while its source died. */
  function UnnamedOnly(dead: string, chunk: string, file: string, job: string): State {
    State(map[file := FileRecord(file, "", 0, 0, [], [chunk], FileCreating, 0, ZERO_TIME)],
          map[chunk := ChunkRecord(chunk, file, 0, 0, [], ["", dead], ChunkComplete, 0)],
          map["" := NodeEntry("", "", NodeAlive, 0, 0, 0, 0, 0),
              dead := NodeEntry(dead, dead, NodeDead, 0, 0, 0, 0, 0)],
          map[job := RepairJob(job, chunk, "", false, dead, "target", JobInProgress, 0, 0, 0)],
          map[])
  }

  lemma UnnamedOnlyLive(dead: string, chunk: string, file: string, job: string)
    requires dead != ""
    ensures LiveOf(UnnamedOnly(dead, chunk, file, job), chunk) == [""]
  {
    var s := UnnamedOnly(dead, chunk, file, job);
    assert s.chunks[chunk].replicas == [""] + [dead];
    FilterSnoc([""], dead, IsLive(s.nodes));
    FilterAll([""], IsLive(s.nodes));
  }

  /** There the recovered job stays with the dead node. */
  lemma UnnamedPrimaryStrandsJob(dead: string, chunk: string, file: string, job: string, rf: nat)
    requires dead != "" && rf >= 2
    ensures var s := UnnamedOnly(dead, chunk, file, job);
            Inv(s) && Recoverable(s, rf, job) && ChosenSource(s, job) == dead && dead !in LiveOf(s, chunk)
  {
    UnnamedOnlyLive(dead, chunk, file, job);
  }

  // ----- The recovery list -----

  ghost predicate IsStuck(s: State, job: RepairJob) {
    job.jobID in s.jobs && job == s.jobs[job.jobID] && job.status == JobInProgress
  }

  ghost predicate AreStuck(s: State, stuck: seq<RepairJob>) {
    && (forall i :: 0 <= i < |stuck| ==> IsStuck(s, stuck[i]))
    && (forall i, j :: 0 <= i < j < |stuck| ==> stuck[i].jobID != stuck[j].jobID)
  }

  ghost function RecoverableAmong(s: State, rf: nat, stuck: seq<RepairJob>): set<string> {
    set i | 0 <= i < |stuck| && Recoverable(s, rf, stuck[i].jobID) :: stuck[i].jobID
  }

  lemma OneMoreStuck(s: State, rf: nat, stuck: seq<RepairJob>, i: nat)
    requires AreStuck(s, stuck) && i < |stuck|
    ensures var done := RecoverableAmong(s, rf, stuck[..i]);
            && stuck[i].jobID !in done
            && RecoverableAmong(s, rf, stuck[..i + 1]) ==
               if Recoverable(s, rf, stuck[i].jobID) then done + {stuck[i].jobID} else done
  {
    assert stuck[..i + 1] == stuck[..i] + [stuck[i]];
  }

  lemma AllStuck(s: State, rf: nat, stuck: seq<RepairJob>)
    requires Inv(s)
    requires forall j :: j in stuck <==> j.jobID in s.jobs && j == s.jobs[j.jobID] && j.status == JobInProgress
    ensures RecoverableAmong(s, rf, stuck) == AllRecoverable(s, rf)
  {
    forall j | j in AllRecoverable(s, rf) ensures j in RecoverableAmong(s, rf, stuck) {
      assert s.jobs[j] in stuck;
    }
  }

  /** The job has its chosen source and is either queued or already handed to that source. */
  ghost predicate Recovered(s: State, x: Sched, j: string) {
    HasChosenSource(s, x, j) && (j in x.queue || HandedOver(x, j))
  }

  ghost predicate HasChosenSource(s: State, x: Sched, j: string) {
    && j in s.jobs && j in x.meta.jobs && s.jobs[j].chunkID in s.chunks && LiveOf(s, s.jobs[j].chunkID) != []
    && x.meta.jobs[j].sourceNodeID == ChosenSource(s, j)
  }

  ghost predicate HandedOver(x: Sched, j: string) {
    && j in x.meta.jobs && x.meta.jobs[j].status == JobInProgress
    && j in PendingFor(x, x.meta.jobs[j].sourceNodeID)
  }

  /** Only jobs change, and of those only the touched ones and the ones queued at the start; every other
      job is as it was. An untouched job keeps its source. */
  ghost predicate OthersUntouched(start: Sched, x: Sched, touched: set<string>) {
    && x.meta == start.meta.(jobs := x.meta.jobs)
    && x.meta.jobs.Keys == start.meta.jobs.Keys
    && forall j :: j in start.meta.jobs && j !in touched ==>
         && x.meta.jobs[j].sourceNodeID == start.meta.jobs[j].sourceNodeID
         && (j !in start.queue ==> x.meta.jobs[j] == start.meta.jobs[j])
  }

  /** A state reached during recovery, with the jobs in `done` recovered. */
  ghost predicate Recovering(start: Sched, x: Sched, touched: set<string>, done: set<string>) {
    && done <= touched && OthersUntouched(start, x, touched)
    && (forall j :: j in x.queue ==> j in start.queue || j in done)
    && (forall j :: j in done ==> Recovered(start.meta, x, j))
  }

  lemma NothingRecovered(x: Sched)
    ensures Recovering(x, x, {}, {})
  {}

  lemma WorkKeepsRecovered(start: Sched, x: Sched, j: string, now: Time)
    requires x.queue != [] && Recovered(start.meta, x, j)
    ensures Recovered(start.meta, ExecuteNext(x, now), j)
  {
    var y, h := ExecuteNext(x, now), x.queue[0];
    assert forall k :: k in x.queue ==> k == h || k in x.queue[1..];
    if j == h {
      assert HandedOver(y, j);
    }
  }

  lemma WorkTouchesHead(start: Sched, x: Sched, touched: set<string>, now: Time)
    requires x.queue != [] && OthersUntouched(start, x, touched) && (x.queue[0] in start.queue || x.queue[0] in touched)
    ensures OthersUntouched(start, ExecuteNext(x, now), touched)
  {
    var y := ExecuteNext(x, now);
    assert y.meta == x.meta.(jobs := y.meta.jobs) && y.meta.jobs.Keys == x.meta.jobs.Keys;
  }

  lemma WorkKeepsSource(x: Sched, j: string, now: Time)
    requires x.queue != [] && j in x.meta.jobs
    ensures var y := ExecuteNext(x, now);
            j in y.meta.jobs && y.meta.jobs[j].sourceNodeID == x.meta.jobs[j].sourceNodeID
  {}

  lemma WorkKeepsRecovering(start: Sched, x: Sched, touched: set<string>, done: set<string>, now: Time)
    requires x.queue != [] && Recovering(start, x, touched, done)
    ensures Recovering(start, ExecuteNext(x, now), touched, done)
  {
    assert x.queue[0] in x.queue && forall k :: k in x.queue[1..] ==> k in x.queue;
    assert ExecuteNext(x, now).queue == x.queue[1..];
    WorkTouchesHead(start, x, touched, now);
    forall j | j in done ensures Recovered(start.meta, ExecuteNext(x, now), j) {
      WorkKeepsRecovered(start, x, j, now);
    }
  }

  /** Queueing a touched job that has its chosen source recovers it. */
  lemma EnqueueRecovers(start: Sched, x: Sched, done: set<string>, j: string)
    requires Recovering(start, x, done + {j}, done) && HasChosenSource(start.meta, x, j)
    ensures Recovering(start, x.(queue := x.queue + [j]), done + {j}, done + {j})
  {
    var y := x.(queue := x.queue + [j]);
    forall k | k in done + {j} ensures Recovered(start.meta, y, k) {
      if k in done { assert Recovered(start.meta, x, k); }
    }
  }

  lemma MoveKeepsRecovering(start: Sched, x: Sched, done: set<string>, j: string, c: Command)
    requires Recovering(start, x, done, done) && j !in done && c.UpdateRepairJob? && c.jobID == j
    ensures Recovering(start, x.(meta := UpdateJob(x.meta, c).state), done + {j}, done)
  {
    var y := x.(meta := UpdateJob(x.meta, c).state);
    forall k | k in done ensures Recovered(start.meta, y, k) {
      assert Recovered(start.meta, x, k);
    }
  }

  lemma TouchKeepsRecovering(start: Sched, x: Sched, done: set<string>, j: string)
    requires Recovering(start, x, done, done)
    ensures Recovering(start, x, done + {j}, done)
  {}

  lemma SameLocations(start: Sched, x: Sched, touched: set<string>, c: string)
    requires OthersUntouched(start, x, touched)
    ensures x.meta.chunks == start.meta.chunks && x.meta.jobs.Keys == start.meta.jobs.Keys
    ensures c in start.meta.chunks ==> LiveOf(x.meta, c) == LiveOf(start.meta, c)
  {}

  /** A recoverable job is in progress and its chosen source lists it among its pending jobs; that source is a live
      replica of the chunk exactly when the old one was or the chosen primary has a name. A job that was
      neither recoverable nor queued is untouched. */
  ghost predicate RecoveredOrUntouched(start: Sched, x: Sched, rf: nat, j: string)
    requires j in start.meta.jobs
  {
    && j in x.meta.jobs && x.meta.chunks == start.meta.chunks && x.meta.nodes == start.meta.nodes
    && (Recoverable(start.meta, rf, j) ==> BackInProgress(start, x, j))
    && (!Recoverable(start.meta, rf, j) && j !in start.queue ==> x.meta.jobs[j] == start.meta.jobs[j])
  }

  ghost predicate BackInProgress(start: Sched, x: Sched, j: string)
    requires j in start.meta.jobs && j in x.meta.jobs
    requires start.meta.jobs[j].chunkID in start.meta.chunks && LiveOf(start.meta, start.meta.jobs[j].chunkID) != []
  {
    var live, source := LiveOf(start.meta, start.meta.jobs[j].chunkID), x.meta.jobs[j].sourceNodeID;
    && x.meta.jobs[j].status == JobInProgress && source in x.pending && j in x.pending[source]
    && source == ChosenSource(start.meta, j)
    && (source in live <==> start.meta.jobs[j].sourceNodeID in live || PrimaryOf(start.meta, live) != "")
    && (source == start.meta.jobs[j].sourceNodeID || IsLeastLoaded(start.meta, live, source))
    && (start.meta.jobs[j].sourceNodeID in live ==> source == start.meta.jobs[j].sourceNodeID)
  }

  /** A live replica that holds no more chunks than any other. */
  ghost predicate IsLeastLoaded(s: State, live: seq<string>, n: string) {
    && n in live && n in s.nodes
    && forall m :: m in live && m in s.nodes ==> s.nodes[n].chunkCount <= s.nodes[m].chunkCount
  }

  lemma ChosenIsLeastLoaded(s: State, j: string)
    requires j in s.jobs && s.jobs[j].chunkID in s.chunks && LiveOf(s, s.jobs[j].chunkID) != []
    ensures var own, live := s.jobs[j].sourceNodeID, LiveOf(s, s.jobs[j].chunkID);
            ChosenSource(s, j) != own ==> own !in live && IsLeastLoaded(s, live, ChosenSource(s, j))
  {
    var live := LiveOf(s, s.jobs[j].chunkID);
    var i := LeastAt(s, live);
    assert live[i] in live;
  }

  /** Stuck-job recovery, once recovery has run to completion and the queue is drained. */
  lemma DrainedIsRecovered(start: Sched, x: Sched, rf: nat, j: string)
    requires Recovering(start, x, AllRecoverable(start.meta, rf), AllRecoverable(start.meta, rf)) && x.queue == []
    requires j in start.meta.jobs
    ensures RecoveredOrUntouched(start, x, rf, j)
  {
    if Recoverable(start.meta, rf, j) {
      assert Recovered(start.meta, x, j);
      SameLocations(start, x, AllRecoverable(start.meta, rf), start.meta.jobs[j].chunkID);
      ChosenIsLeastLoaded(start.meta, j);
    }
  }
}
