/** Exactly when a chunk-and-target pair has one job at a time. */
module PairRivals {
  import opened Records
  import opened Seqs
  import opened Names
  import opened Metadata
  import opened Structure
  import opened Scheduling
  import opened SchedulerRuns
  import opened RepairChoice

  ghost predicate RunSpares(x: Sched, uuid: Uuids, run: seq<Event>, job: string)
    requires LegalRun(x, uuid, run)
    decreases |run|
  {
    run == [] || (Spares(x, run[0], job) && RunSpares(Next(x, uuid, run[0]), uuid, run[1..], job))
  }

  /** Recovery queues jobs only from the list it read. */
  ghost predicate RequeuesOnly(run: seq<Event>, stuck: set<string>) {
    forall i :: 0 <= i < |run| && run[i].Requeue? ==> run[i].jobID in stuck
  }

  /** A scheduling event is a pass over a chunk as it stands. */
  ghost predicate IsPass(x: Sched, uuid: Uuids, rf: nat, e: Event)
    requires LegalEvent(x, e)
  {
    e.Schedule? ==> PassFor(x, Next(x, uuid, e), uuid, rf, e.chunkID, e.source, e.targets, e.at)
  }

  ghost predicate PassRun(x: Sched, uuid: Uuids, rf: nat, run: seq<Event>)
    requires LegalRun(x, uuid, run)
    decreases |run|
  {
    run == [] || (IsPass(x, uuid, rf, run[0]) && PassRun(Next(x, uuid, run[0]), uuid, rf, run[1..]))
  }

  /** A recoverable job other than the holder is for the held pair. */
  ghost predicate HasRival(x: Sched, key: string, job: string, stuck: set<string>) {
    exists j :: j in stuck && j in x.meta.jobs && KeyOf(x.meta.jobs[j]) == key && j != job
  }

  // ----- Without a rival, or without copies wanted -----

  lemma {:induction false} NoRivalLeavesHeld(x: Sched, uuid: Uuids, run: seq<Event>, key: string, job: string,
                                             stuck: set<string>)
    requires Holds(x, key, job) && LegalRun(x, uuid, run) && stuck <= x.meta.jobs.Keys
    requires RunSpares(x, uuid, run, job) && RequeuesOnly(run, stuck) && !HasRival(x, key, job, stuck)
    ensures RunLeavesHeld(x, uuid, run, key, job)
    decreases |run|
  {
    if run != [] {
      var y := Next(x, uuid, run[0]);
      StepLeavesHeld(x, uuid, run[0], key, job);
      assert !HasRival(y, key, job, stuck);
      NoRivalLeavesHeld(y, uuid, run[1..], key, job, stuck);
    }
  }

  lemma CommandKeepsJobs(s: State, c: Command, picks: seq<string>)
    requires LegalFor(s, c, picks) && !c.CreateRepairJob?
    ensures Apply(s, c, picks).state.jobs.Keys == s.jobs.Keys
  {}

  lemma PassAddsNoJob(x: Sched, y: Sched, uuid: Uuids, rf: nat, c: string, source: string, targets: seq<string>,
                      at: Time)
    requires rf <= 1 && PassFor(x, y, uuid, rf, c, source, targets, at)
    ensures y == x
  {
    assert targets == [];
    assert CreateJobs(x, uuid, c, source, [], at) == x;
  }

  lemma WorkKeepsJobs(x: Sched, at: Time, j: string)
    requires x.queue != []
    ensures var y := ExecuteNext(x, at);
            && y.meta.jobs.Keys == x.meta.jobs.Keys && y.issued == x.issued && y.queue == x.queue[1..]
            && (j in x.meta.jobs ==> KeyOf(y.meta.jobs[j]) == KeyOf(x.meta.jobs[j]))
  {}

  lemma StepAddsNoJob(x: Sched, uuid: Uuids, rf: nat, e: Event)
    requires rf <= 1 && LegalEvent(x, e) && IsPass(x, uuid, rf, e)
    ensures Next(x, uuid, e).meta.jobs.Keys == x.meta.jobs.Keys
  {
    match e
    case Schedule(c, source, targets, at) => PassAddsNoJob(x, Next(x, uuid, e), uuid, rf, c, source, targets, at);
    case Work(at) => if x.queue != [] { WorkKeepsJobs(x, at, x.queue[0]); }
    case Report(n, j, ok) => CompleteKeepsJobs(x, n, j, ok);
    case Move(j, source, at) => CommandKeepsJobs(x.meta, UpdateRepairJob(j, JobPending, source, 0, "", at), []);
    case Requeue(j) =>
    case Other(c, picks) => CommandKeepsJobs(x.meta, c, picks);
  }

  /** With a replication factor of one, or none, passes create no jobs at all. */
  lemma {:induction false} RunAddsNoJob(x: Sched, uuid: Uuids, rf: nat, run: seq<Event>)
    requires rf <= 1 && LegalRun(x, uuid, run) && PassRun(x, uuid, rf, run)
    ensures Play(x, uuid, run).meta.jobs.Keys == x.meta.jobs.Keys
    decreases |run|
  {
    if run != [] {
      StepAddsNoJob(x, uuid, rf, run[0]);
      RunAddsNoJob(Next(x, uuid, run[0]), uuid, rf, run[1..]);
    }
  }

  // ----- Building a run from its end -----

  /** A run of passes and other events that does not clear `job` and requeues only `rival`. */
  ghost predicate IsRivalRun(x: Sched, uuid: Uuids, rf: nat, run: seq<Event>, job: string, rival: string) {
    && LegalRun(x, uuid, run) && PassRun(x, uuid, rf, run)
    && RunSpares(x, uuid, run, job) && RequeuesOnly(run, {rival})
  }

  /** The run ends with a new job for the pair. */
  ghost predicate EndsWithJob(x: Sched, uuid: Uuids, run: seq<Event>, id: string, key: string)
    requires LegalRun(x, uuid, run)
  {
    var y := Play(x, uuid, run);
    id in y.meta.jobs && KeyOf(y.meta.jobs[id]) == key
  }

  ghost predicate Breaks(x: Sched, uuid: Uuids, rf: nat, run: seq<Event>, key: string, job: string, rival: string) {
    IsRivalRun(x, uuid, rf, run, job, rival) && EndsWithJob(x, uuid, run, uuid(x.issued), key)
  }

  lemma Prepend(x: Sched, y: Sched, uuid: Uuids, rf: nat, e: Event, rest: seq<Event>, key: string, job: string,
                rival: string)
    requires LegalEvent(x, e) && Spares(x, e, job) && !e.Schedule? && (e.Requeue? ==> e.jobID == rival)
    requires y == Next(x, uuid, e) && y.issued == x.issued && Breaks(y, uuid, rf, rest, key, job, rival)
    ensures Breaks(x, uuid, rf, [e] + rest, key, job, rival)
  {
    var run := [e] + rest;
    assert run[1..] == rest;
    forall i | 0 <= i < |run| && run[i].Requeue? ensures run[i].jobID in {rival} {
      if i > 0 { assert run[i] == rest[i - 1]; }
    }
  }

  lemma PrependCommand(x: Sched, y: Sched, uuid: Uuids, rf: nat, c: Command, rest: seq<Event>, key: string,
                       job: string, rival: string)
    requires !c.CommitChunk? && !c.CreateRepairJob? && !c.UpdateRepairJob?
    requires y == x.(meta := Apply(x.meta, c, []).state) && Breaks(y, uuid, rf, rest, key, job, rival)
    ensures Breaks(x, uuid, rf, [Other(c, [])] + rest, key, job, rival)
  {
    Prepend(x, y, uuid, rf, Other(c, []), rest, key, job, rival);
  }

  // ----- A free pair gets a job -----

  /** No job is remembered for the pair, and the next job id is unused. */
  ghost predicate IsFree(x: Sched, uuid: Uuids, c: string, t: string) {
    PairKey(c, t) !in x.byPair && uuid(x.issued) !in x.meta.jobs
  }

  lemma FreePairGetsJob(x: Sched, uuid: Uuids, c: string, source: string, target: string, at: Time)
    requires IsFree(x, uuid, c, target)
    ensures var y := CreateJobs(x, uuid, c, source, [target], at);
            uuid(x.issued) in y.meta.jobs && KeyOf(y.meta.jobs[uuid(x.issued)]) == PairKey(c, target)
  {
    assert [target][..0] == [];
    assert CreateJobs(x, uuid, c, source, [], at) == x;
  }

  lemma PassBreaks(x: Sched, uuid: Uuids, rf: nat, c: string, source: string, t: string, at: Time, job: string,
                   rival: string)
    requires IsFree(x, uuid, c, t)
    requires PassFor(x, CreateJobs(x, uuid, c, source, [t], at), uuid, rf, c, source, [t], at)
    ensures Breaks(x, uuid, rf, [Schedule(c, source, [t], at)], PairKey(c, t), job, rival)
  {
    var e := Schedule(c, source, [t], at);
    assert [e] + [] == [e];
    PlayCons(x, uuid, e, []);
    assert [e][1..] == [];
    FreePairGetsJob(x, uuid, c, source, t, at);
  }

  // ----- Bringing about a pass that picks the target -----

  lemma {:induction false} FreeBound(nodes: map<string, NodeEntry>, names: set<string>) returns (b: nat)
    requires names <= nodes.Keys
    ensures forall n :: n in names ==> nodes[n].freeSpace < b
    decreases names
  {
    b := 0;
    if names != {} {
      var n :| n in names;
      var rest := FreeBound(nodes, names - {n});
      b := if rest <= nodes[n].freeSpace then nodes[n].freeSpace + 1 else rest;
    }
  }

  /** The chunk is on the first `i` of the named nodes, which are alive and empty. */
  ghost predicate IsOn(s: State, c: string, names: seq<string>, i: nat) {
    && i <= |names| && c in s.chunks && s.chunks[c].replicas == names[..i]
    && forall k :: 0 <= k < i ==>
         names[k] in s.nodes && s.nodes[names[k]].status == NodeAlive && s.nodes[names[k]].chunkCount == 0
  }

  lemma TargetIsBest(s: State, c: string, t: string, names: seq<string>)
    requires IsOn(s, c, names, |names|) && names != [] && t !in names
    requires t in s.nodes && s.nodes[t].status == NodeAlive
    requires forall n :: n in s.nodes && n != t ==> s.nodes[n].freeSpace < s.nodes[t].freeSpace
    ensures LiveOf(s, c) == names && t in Candidates(s, names)
    ensures GoodSource(s, names, names[0]) && GoodTargets(s, names, [t])
  {
    TakeAll(names);
    forall n | n in names ensures IsLive(s.nodes)(n) && s.nodes[n].chunkCount == 0 {
      var k :| 0 <= k < |names| && names[k] == n;
    }
    FilterAll(names, IsLive(s.nodes));
  }

  lemma TargetIsPassed(x: Sched, uuid: Uuids, c: string, t: string, names: seq<string>, at: Time)
    requires IsOn(x.meta, c, names, |names|) && names != [] && t !in names
    requires t in x.meta.nodes && x.meta.nodes[t].status == NodeAlive
    requires forall n :: n in x.meta.nodes && n != t ==> x.meta.nodes[n].freeSpace < x.meta.nodes[t].freeSpace
    ensures PassFor(x, CreateJobs(x, uuid, c, names[0], [t], at), uuid, |names| + 1, c, names[0], [t], at)
  {
    TargetIsBest(x.meta, c, t, names);
    assert |Candidates(x.meta, names)| >= 1;
  }

  lemma BreakFromAllKept(x: Sched, uuid: Uuids, c: string, t: string, names: seq<string>, at: Time, job: string,
                         rival: string) returns (run: seq<Event>)
    requires IsFree(x, uuid, c, t) && IsOn(x.meta, c, names, |names|) && names != [] && t !in names
    ensures Breaks(x, uuid, |names| + 1, run, PairKey(c, t), job, rival)
  {
    var b := FreeBound(x.meta.nodes, x.meta.nodes.Keys);
    var y := x.(meta := Register(x.meta, RegisterNode(t, t, b, 0, at)).state);
    TargetIsPassed(y, uuid, c, t, names, at);
    PassBreaks(y, uuid, |names| + 1, c, names[0], t, at, job, rival);
    run := [Schedule(c, names[0], [t], at)];
    PrependCommand(x, y, uuid, |names| + 1, RegisterNode(t, t, b, 0, at), run, PairKey(c, t), job, rival);
    run := [Other(RegisterNode(t, t, b, 0, at), [])] + run;
  }

  lemma {:induction false} BreakFromKept(x: Sched, uuid: Uuids, c: string, t: string, names: seq<string>, i: nat,
                                         at: Time, job: string, rival: string) returns (run: seq<Event>)
    requires IsFree(x, uuid, c, t) && IsOn(x.meta, c, names, i) && names != [] && NoDup(names) && t !in names
    ensures Breaks(x, uuid, |names| + 1, run, PairKey(c, t), job, rival)
    decreases |names| - i
  {
    if i == |names| {
      run := BreakFromAllKept(x, uuid, c, t, names, at, job, rival);
    } else {
      var n := names[i];
      var y := x.(meta := Register(x.meta, RegisterNode(n, n, 0, 0, at)).state);
      var z := y.(meta := AddReplica(y.meta, c, n).state);
      OneMoreOn(x.meta, y.meta, z.meta, c, names, i, at);
      var rest := BreakFromKept(z, uuid, c, t, names, i + 1, at, job, rival);
      run := PrependBoth(x, y, z, uuid, |names| + 1, RegisterNode(n, n, 0, 0, at), AddChunkReplica(c, n), rest,
                         PairKey(c, t), job, rival);
    }
  }

  lemma PrependBoth(x: Sched, y: Sched, z: Sched, uuid: Uuids, rf: nat, c: Command, d: Command, rest: seq<Event>,
                    key: string, job: string, rival: string) returns (run: seq<Event>)
    requires c.RegisterNode? && d.AddChunkReplica?
    requires y == x.(meta := Apply(x.meta, c, []).state) && z == y.(meta := Apply(y.meta, d, []).state)
    requires Breaks(z, uuid, rf, rest, key, job, rival)
    ensures Breaks(x, uuid, rf, run, key, job, rival)
  {
    PrependCommand(y, z, uuid, rf, d, rest, key, job, rival);
    PrependCommand(x, y, uuid, rf, c, [Other(d, [])] + rest, key, job, rival);
    run := [Other(c, [])] + ([Other(d, [])] + rest);
  }

  lemma OneMoreOn(s: State, t: State, u: State, c: string, names: seq<string>, i: nat, at: Time)
    requires i < |names| && NoDup(names) && IsOn(s, c, names, i)
    requires t == Register(s, RegisterNode(names[i], names[i], 0, 0, at)).state && u == AddReplica(t, c, names[i]).state
    ensures IsOn(u, c, names, i + 1)
  {
    TakeNext(names, i);
    assert names[i] !in names[..i];
  }

  /** Replicas are evicted until none is left. */
  lemma {:induction false} BreakFromListed(x: Sched, uuid: Uuids, c: string, t: string, names: seq<string>, at: Time,
                                           job: string, rival: string) returns (run: seq<Event>)
    requires IsFree(x, uuid, c, t) && c in x.meta.chunks && names != [] && NoDup(names) && t !in names
    ensures Breaks(x, uuid, |names| + 1, run, PairKey(c, t), job, rival)
    decreases |x.meta.chunks[c].replicas|
  {
    var replicas := x.meta.chunks[c].replicas;
    if replicas == [] {
      run := BreakFromKept(x, uuid, c, t, names, 0, at, job, rival);
    } else {
      var y := x.(meta := Evict(x.meta, c, replicas[0]).state);
      EvictShortens(x.meta, c);
      run := BreakFromListed(y, uuid, c, t, names, at, job, rival);
      PrependCommand(x, y, uuid, |names| + 1, EvictChunkFromNode(c, replicas[0]), run, PairKey(c, t), job, rival);
      run := [Other(EvictChunkFromNode(c, replicas[0]), [])] + run;
    }
  }

  lemma EvictShortens(s: State, c: string)
    requires c in s.chunks && s.chunks[c].replicas != []
    ensures var t := Evict(s, c, s.chunks[c].replicas[0]).state;
            && t == s.(chunks := t.chunks) && c in t.chunks
            && |t.chunks[c].replicas| == |s.chunks[c].replicas| - 1
  {
    assert s.chunks[c].replicas[0] in s.chunks[c].replicas;
  }

  /** From every state in which the pair is free, commands can lead to a pass that picks the target. */
  lemma BreakFromFree(x: Sched, uuid: Uuids, rf: nat, c: string, t: string, at: Time, job: string, rival: string)
    returns (run: seq<Event>)
    requires IsFree(x, uuid, c, t) && rf >= 2
    ensures Breaks(x, uuid, rf, run, PairKey(c, t), job, rival)
  {
    var names := FreshNames({t}, rf - 1);
    if c in x.meta.chunks {
      run := BreakFromListed(x, uuid, c, t, names, at, job, rival);
    } else {
      var f := FreshName(x.meta.files.Keys);
      var create := CreateFile(f, f, [c], 0, 1, at);
      var y := x.(meta := Create(x.meta, create).state);
      CreateAddsChunk(x.meta, create, c);
      run := BreakFromListed(y, uuid, c, t, names, at, job, rival);
      PrependCommand(x, y, uuid, rf, create, run, PairKey(c, t), job, rival);
      run := [Other(create, [])] + run;
    }
  }

  lemma CreateAddsChunk(s: State, create: Command, c: string)
    requires create.CreateFile? && create.chunkIDs == [c] && create.fileID !in s.files && c !in s.chunks
    ensures var t := Create(s, create).state;
            c in t.chunks && t.jobs == s.jobs
  {
    StubsExact(s.chunks, create.fileID, [c]);
    assert c in [c];
  }

  // ----- A rival frees the pair -----

  /** The scheduler after the rival was queued, executed and reported as failed. */
  function Freed(x: Sched, rival: string, at: Time): Sched
    requires rival in x.meta.jobs
  {
    Complete(ExecuteNext(x.(queue := x.queue + [rival]), at), x.meta.jobs[rival].sourceNodeID, rival, false)
  }

  lemma RivalFreesPair(x: Sched, key: string, rival: string, at: Time)
    requires rival in x.meta.jobs && KeyOf(x.meta.jobs[rival]) == key && x.queue == []
    ensures var y := Freed(x, rival, at);
            && key !in y.byPair && y.meta.jobs.Keys == x.meta.jobs.Keys && y.issued == x.issued
            && y.meta == x.meta.(jobs := y.meta.jobs)
  {
    var queued := x.(queue := x.queue + [rival]);
    assert queued.queue[0] == rival;
  }

  /** Queueing, executing and reporting the rival leaves its pair free. */
  lemma BreakAfterRival(x: Sched, y: Sched, uuid: Uuids, rf: nat, rest: seq<Event>, key: string, job: string,
                        rival: string, at: Time)
    requires rival in x.meta.jobs && rival != job && x.queue == [] && KeyOf(x.meta.jobs[rival]) == key
    requires y == Freed(x, rival, at)
    requires Breaks(y, uuid, rf, rest, key, job, rival)
    ensures Breaks(x, uuid, rf, RivalEvents(x, rival, at) + rest, key, job, rival)
  {
    var a := x.(queue := x.queue + [rival]);
    var b := ExecuteNext(a, at);
    var report := Report(x.meta.jobs[rival].sourceNodeID, rival, false);
    Prepend(b, y, uuid, rf, report, rest, key, job, rival);
    Prepend(a, b, uuid, rf, Work(at), [report] + rest, key, job, rival);
    Prepend(x, a, uuid, rf, Requeue(rival), [Work(at)] + ([report] + rest), key, job, rival);
    assert RivalEvents(x, rival, at) + rest == [Requeue(rival)] + ([Work(at)] + ([report] + rest));
  }

  function RivalEvents(x: Sched, rival: string, at: Time): seq<Event>
    requires rival in x.meta.jobs
  {
    [Requeue(rival), Work(at), Report(x.meta.jobs[rival].sourceNodeID, rival, false)]
  }

  /** Whenever a rival of the holder can be requeued, some run of passes and other events creates a second job for the
      pair although the holder is never cleared. */
  lemma {:induction false} RivalBreaksHold(x: Sched, uuid: Uuids, rf: nat, key: string, job: string, rival: string,
                                           at: Time) returns (run: seq<Event>)
    requires rf >= 2 && uuid(x.issued) !in x.meta.jobs
    requires rival in x.meta.jobs && KeyOf(x.meta.jobs[rival]) == key && rival != job
    ensures Breaks(x, uuid, rf, run, key, job, rival)
    decreases |x.queue|
  {
    if x.queue == [] {
      var r := x.meta.jobs[rival];
      var y := Freed(x, rival, at);
      RivalFreesPair(x, key, rival, at);
      var rest := BreakFromFree(y, uuid, rf, r.chunkID, r.targetNodeID, at, job, rival);
      BreakAfterRival(x, y, uuid, rf, rest, key, job, rival, at);
      run := RivalEvents(x, rival, at) + rest;
    } else {
      var y := ExecuteNext(x, at);
      WorkKeepsJobs(x, at, rival);
      var rest := RivalBreaksHold(y, uuid, rf, key, job, rival, at);
      Prepend(x, y, uuid, rf, Work(at), rest, key, job, rival);
      run := [Work(at)] + rest;
    }
  }

  // ----- The exact condition -----

  /** No run of passes and other events in which the holder is not cleared and recovery queues only jobs of its list
      creates a second job for the pair. */
  ghost predicate NeverSecond(x: Sched, uuid: Uuids, rf: nat, key: string, job: string, stuck: set<string>) {
    forall run :: (LegalRun(x, uuid, run) && PassRun(x, uuid, rf, run) && RunSpares(x, uuid, run, job)
                   && RequeuesOnly(run, stuck)) ==> NoNewJobFor(x, Play(x, uuid, run), key)
  }

  /** While a job holds its pair and is not cleared by a report, passes create no second job for the pair if and only
      if recovery's list holds no other job of the pair, or no copies are wanted. */
  lemma OneJobPerPairIff(x: Sched, uuid: Uuids, rf: nat, key: string, job: string, stuck: set<string>)
    requires Holds(x, key, job) && uuid(x.issued) !in x.meta.jobs && stuck <= x.meta.jobs.Keys
    ensures NeverSecond(x, uuid, rf, key, job, stuck) <==> rf <= 1 || !HasRival(x, key, job, stuck)
  {
    if rf > 1 && HasRival(x, key, job, stuck) {
      var rival :| rival in stuck && rival in x.meta.jobs && KeyOf(x.meta.jobs[rival]) == key && rival != job;
      var run := RivalBreaksHold(x, uuid, rf, key, job, rival, ZERO_TIME);
      assert RequeuesOnly(run, stuck);
    } else {
      forall run | LegalRun(x, uuid, run) && PassRun(x, uuid, rf, run) && RunSpares(x, uuid, run, job)
                   && RequeuesOnly(run, stuck)
        ensures NoNewJobFor(x, Play(x, uuid, run), key)
      {
        if rf <= 1 {
          RunAddsNoJob(x, uuid, rf, run);
        } else {
          NoRivalLeavesHeld(x, uuid, run, key, job, stuck);
          NoSecondJobWhileHeld(x, uuid, run, key, job);
        }
      }
    }
  }

  // ----- A state in which the scheduler's own events suffice -----

  /** A chunk on one of two alive nodes, and two jobs in progress to copy it to the other, one of them the holder. */
  datatype Scene = Scene(source: string, target: string, chunk: string, file: string, holder: string, rival: string)

  function TwoJobs(p: Scene): Sched {
    var f := FileRecord(p.file, p.file, 0, 1, [], [p.chunk], FileComplete, 0, 0);
    var c := ChunkRecord(p.chunk, p.file, 0, 0, [], [p.source], ChunkComplete, 0);
    var s := NodeEntry(p.source, p.source, NodeAlive, 0, 0, 0, 0, 0);
    var t := NodeEntry(p.target, p.target, NodeAlive, 0, 0, 0, 0, 0);
    Sched(State(map[p.file := f], map[p.chunk := c], map[p.source := s, p.target := t],
                map[p.holder := CopyJob(p, p.holder), p.rival := CopyJob(p, p.rival)], map[]),
          map[p.source := [p.holder]], map[PairKey(p.chunk, p.target) := p.holder], [], 0)
  }

  function CopyJob(p: Scene, id: string): RepairJob {
    RepairJob(id, p.chunk, "", false, p.source, p.target, JobInProgress, 0, 0, 0)
  }

  ghost predicate IsScene(p: Scene, uuid: Uuids) {
    p.source != p.target && p.holder != p.rival && uuid(0) != p.holder && uuid(0) != p.rival
  }

  lemma SceneIsWellFormed(p: Scene, uuid: Uuids)
    requires IsScene(p, uuid)
    ensures var x := TwoJobs(p);
            Inv(x.meta) && TablesOk(x) && Holds(x, PairKey(p.chunk, p.target), p.holder)
  {
    var s := TwoJobs(p).meta;
    assert FileOk(s.chunks, p.file, s.files[p.file]) && ChunkOk(s.files, p.chunk, s.chunks[p.chunk]);
    assert IsPending(TwoJobs(p), p.holder) by { assert p.holder in TwoJobs(p).pending[p.source]; }
  }

  /** What the pass depends on. */
  ghost predicate SceneNodes(s: State, p: Scene) {
    && p.chunk in s.chunks && s.chunks[p.chunk].replicas == [p.source] && s.nodes.Keys == {p.source, p.target}
    && forall n :: n in s.nodes ==>
         s.nodes[n].status == NodeAlive && s.nodes[n].chunkCount == 0 && s.nodes[n].freeSpace == 0
  }

  lemma SceneLive(s: State, p: Scene)
    requires SceneNodes(s, p)
    ensures LiveOf(s, p.chunk) == [p.source]
  {
    FilterAll([p.source], IsLive(s.nodes));
  }

  lemma SceneChoice(s: State, p: Scene, uuid: Uuids)
    requires IsScene(p, uuid) && SceneNodes(s, p)
    ensures Candidates(s, [p.source]) == {p.target} && GoodSource(s, [p.source], p.source)
  {
    forall n ensures n in Candidates(s, [p.source]) <==> n == p.target {
      assert n in [p.source] <==> n == p.source;
    }
  }

  lemma OnlyCandidate(s: State, live: seq<string>, target: string)
    requires Candidates(s, live) == {target}
    ensures |Candidates(s, live)| == 1 && GoodTargets(s, live, [target])
  {}

  lemma ScenePass(x: Sched, p: Scene, uuid: Uuids, at: Time)
    requires IsScene(p, uuid) && SceneNodes(x.meta, p)
    ensures PassFor(x, CreateJobs(x, uuid, p.chunk, p.source, [p.target], at), uuid, 2, p.chunk, p.source, [p.target],
                    at)
  {
    SceneLive(x.meta, p);
    SceneChoice(x.meta, p, uuid);
    OnlyCandidate(x.meta, [p.source], p.target);
  }

  /** Where a pass picks the rival's target, the rival's own events and that pass create a second job. */
  lemma RivalThenPass(x: Sched, y: Sched, uuid: Uuids, rf: nat, source: string, at: Time, job: string, rival: string)
    requires x.queue == [] && rival in x.meta.jobs && rival != job && uuid(x.issued) !in x.meta.jobs
    requires y == Freed(x, rival, at)
    requires var r := x.meta.jobs[rival];
             PassFor(y, CreateJobs(y, uuid, r.chunkID, source, [r.targetNodeID], at), uuid, rf, r.chunkID, source,
                     [r.targetNodeID], at)
    ensures var r := x.meta.jobs[rival];
            Breaks(x, uuid, rf, RivalEvents(x, rival, at) + [Schedule(r.chunkID, source, [r.targetNodeID], at)],
                   KeyOf(r), job, rival)
  {
    var r := x.meta.jobs[rival];
    RivalFreesPair(x, KeyOf(r), rival, at);
    PassBreaks(y, uuid, rf, r.chunkID, source, r.targetNodeID, at, job, rival);
    BreakAfterRival(x, y, uuid, rf, [Schedule(r.chunkID, source, [r.targetNodeID], at)], KeyOf(r), job, rival, at);
  }

  /** The rival is queued, executed and reported, and the next pass over the chunk creates a second job: at a
      replication factor of two, without any command from outside. */
  lemma SecondJobInScene(p: Scene, uuid: Uuids, at: Time)
    requires IsScene(p, uuid)
    ensures var x, key := TwoJobs(p), PairKey(p.chunk, p.target);
            var run := RivalEvents(x, p.rival, at) + [Schedule(p.chunk, p.source, [p.target], at)];
            Inv(x.meta) && Holds(x, key, p.holder) && Breaks(x, uuid, 2, run, key, p.holder, p.rival)
  {
    SceneIsWellFormed(p, uuid);
    SceneBreaks(TwoJobs(p), p, uuid, at);
  }

  /** The idle scheduler knows the two jobs of the scene. */
  ghost predicate InScene(x: Sched, p: Scene) {
    && SceneNodes(x.meta, p) && x.queue == [] && x.issued == 0
    && x.meta.jobs.Keys == {p.holder, p.rival} && x.meta.jobs[p.rival] == CopyJob(p, p.rival)
  }

  lemma SceneBreaks(x: Sched, p: Scene, uuid: Uuids, at: Time)
    requires IsScene(p, uuid) && InScene(x, p)
    ensures Breaks(x, uuid, 2, RivalEvents(x, p.rival, at) + [Schedule(p.chunk, p.source, [p.target], at)],
                   PairKey(p.chunk, p.target), p.holder, p.rival)
  {
    var y := Freed(x, p.rival, at);
    RivalFreesPair(x, PairKey(p.chunk, p.target), p.rival, at);
    ScenePass(y, p, uuid, at);
    RivalThenPass(x, y, uuid, 2, p.source, at, p.holder, p.rival);
  }
}
