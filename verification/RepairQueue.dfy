/** The repair queue of a storage node under every interleaving of enqueuers and workers. */
module RepairQueue {
  import opened Seqs

  const QUEUE_CAP := 256
  const WORKERS := 4

  datatype Job = Job(jobID: string, chunkID: string, target: string)

  function Key(job: Job): string {
    job.chunkID + ":" + job.target
  }

  /** The shared table and queue, and the jobs threads hold between their atomic steps: enqueuers that have inserted
      the key and not sent yet, enqueuers whose send was refused, and workers busy with a job. */
  datatype State = State(
    inflight: set<string>, sending: seq<Job>, dropping: seq<Job>, queue: seq<Job>, working: seq<Job>)

  const Idle := State({}, [], [], [], [])

  datatype Step =
    | Arrive(job: Job)   // an enqueuer checks the table and inserts the key
    | Send(thread: nat)  // and tries to send
    | Drop(thread: nat)  // and, refused, deletes the key again
    | Pick               // a worker receives from the queue
    | Finish(worker: nat) // and, done with the copy and its report, deletes the key

  predicate Enabled(s: State, e: Step) {
    match e
    case Arrive(_) => true
    case Send(i) => i < |s.sending|
    case Drop(i) => i < |s.dropping|
    case Pick => s.queue != [] && |s.working| < WORKERS
    case Finish(i) => i < |s.working|
  }

  function Next(s: State, e: Step): State
    requires Enabled(s, e)
  {
    match e
    case Arrive(job) =>
      if Key(job) in s.inflight then s else s.(inflight := s.inflight + {Key(job)}, sending := s.sending + [job])
    case Send(i) =>
      var rest := RemoveAt(s.sending, i);
      if |s.queue| < QUEUE_CAP then s.(sending := rest, queue := s.queue + [s.sending[i]])
      else s.(sending := rest, dropping := s.dropping + [s.sending[i]])
    case Drop(i) => s.(inflight := s.inflight - {Key(s.dropping[i])}, dropping := RemoveAt(s.dropping, i))
    case Pick => s.(queue := s.queue[1..], working := s.working + [s.queue[0]])
    case Finish(i) => s.(inflight := s.inflight - {Key(s.working[i])}, working := RemoveAt(s.working, i))
  }

  // ----- Who holds which key -----

  function KeysOf(jobs: seq<Job>): multiset<string> {
    if |jobs| == 0 then multiset{} else KeysOf(jobs[..|jobs| - 1]) + multiset{Key(jobs[|jobs| - 1])}
  }

  lemma KeysSnoc(jobs: seq<Job>, job: Job)
    ensures KeysOf(jobs + [job]) == KeysOf(jobs) + multiset{Key(job)}
  {
    assert (jobs + [job])[..|jobs|] == jobs;
  }

  lemma {:induction false} KeysConcat(a: seq<Job>, b: seq<Job>)
    ensures KeysOf(a + b) == KeysOf(a) + KeysOf(b)
  {
    if |b| == 0 {
      assert a + b == a;
    } else {
      var init, last := b[..|b| - 1], b[|b| - 1];
      assert a + b == (a + init) + [last] && b == init + [last];
      KeysSnoc(a + init, last);
      KeysSnoc(init, last);
      KeysConcat(a, init);
    }
  }

  lemma KeysRemoved(jobs: seq<Job>, i: nat)
    requires i < |jobs|
    ensures KeysOf(jobs) == KeysOf(RemoveAt(jobs, i)) + multiset{Key(jobs[i])}
  {
    var front, back := jobs[..i], jobs[i + 1..];
    SplitAt(jobs, i);
    KeysConcat(front + [jobs[i]], back);
    KeysSnoc(front, jobs[i]);
    KeysConcat(front, back);
    Swap(KeysOf(front), multiset{Key(jobs[i])}, KeysOf(back));
  }

  lemma SplitAt(jobs: seq<Job>, i: nat)
    requires i < |jobs|
    ensures jobs == (jobs[..i] + [jobs[i]]) + jobs[i + 1..]
  {}

  lemma Swap(a: multiset<string>, b: multiset<string>, c: multiset<string>)
    ensures (a + b) + c == (a + c) + b
  {}

  ghost function HeldKeys(s: State): multiset<string> {
    KeysOf(s.sending) + KeysOf(s.dropping) + KeysOf(s.queue) + KeysOf(s.working)
  }

  /** The table is exactly the disjoint union of the keys held by threads and queue. */
  ghost predicate Exact(s: State) {
    multiset(s.inflight) == HeldKeys(s) && |s.queue| <= QUEUE_CAP && |s.working| <= WORKERS
  }

  lemma ArriveKeepsExact(s: State, job: Job)
    requires Exact(s)
    ensures Exact(Next(s, Arrive(job)))
  {
    if Key(job) !in s.inflight {
      KeysSnoc(s.sending, job);
      assert multiset(s.inflight + {Key(job)}) == multiset(s.inflight) + multiset{Key(job)};
      Regroup(KeysOf(s.sending), KeysOf(s.dropping), KeysOf(s.queue), KeysOf(s.working), multiset{Key(job)});
    }
  }

  lemma SendKeepsExact(s: State, i: nat)
    requires Exact(s) && i < |s.sending|
    ensures Exact(Next(s, Send(i)))
  {
    KeysRemoved(s.sending, i);
    KeysSnoc(s.queue, s.sending[i]);
    KeysSnoc(s.dropping, s.sending[i]);
    Regroup(KeysOf(RemoveAt(s.sending, i)), KeysOf(s.dropping), KeysOf(s.queue), KeysOf(s.working),
            multiset{Key(s.sending[i])});
  }

  lemma DropKeepsExact(s: State, i: nat)
    requires Exact(s) && i < |s.dropping|
    ensures Exact(Next(s, Drop(i)))
  {
    KeysRemoved(s.dropping, i);
    Regroup(KeysOf(s.sending), KeysOf(RemoveAt(s.dropping, i)), KeysOf(s.queue), KeysOf(s.working),
            multiset{Key(s.dropping[i])});
    ReleasedOnce(s.inflight, HeldKeys(Next(s, Drop(i))), Key(s.dropping[i]));
  }

  lemma PickKeepsExact(s: State)
    requires Exact(s) && s.queue != [] && |s.working| < WORKERS
    ensures Exact(Next(s, Pick))
  {
    KeysRemoved(s.queue, 0);
    assert RemoveAt(s.queue, 0) == s.queue[1..];
    KeysSnoc(s.working, s.queue[0]);
    Regroup(KeysOf(s.sending), KeysOf(s.dropping), KeysOf(s.queue[1..]), KeysOf(s.working), multiset{Key(s.queue[0])});
  }

  lemma FinishKeepsExact(s: State, i: nat)
    requires Exact(s) && i < |s.working|
    ensures Exact(Next(s, Finish(i)))
  {
    KeysRemoved(s.working, i);
    Regroup(KeysOf(s.sending), KeysOf(s.dropping), KeysOf(s.queue), KeysOf(RemoveAt(s.working, i)),
            multiset{Key(s.working[i])});
    ReleasedOnce(s.inflight, HeldKeys(Next(s, Finish(i))), Key(s.working[i]));
  }

  lemma StepKeepsExact(s: State, e: Step)
    requires Exact(s) && Enabled(s, e)
    ensures Exact(Next(s, e))
  {
    match e
    case Arrive(job) => ArriveKeepsExact(s, job);
    case Send(i) => SendKeepsExact(s, i);
    case Drop(i) => DropKeepsExact(s, i);
    case Pick => PickKeepsExact(s);
    case Finish(i) => FinishKeepsExact(s, i);
  }

  /** Wherever one more is held, the total is the same. */
  lemma Regroup<T>(a: multiset<T>, b: multiset<T>, c: multiset<T>, d: multiset<T>, k: multiset<T>)
    ensures (a + k) + b + c + d == a + b + c + d + k
    ensures a + (b + k) + c + d == a + b + c + d + k
    ensures a + b + (c + k) + d == a + b + c + d + k
    ensures a + b + c + (d + k) == a + b + c + d + k
  {}

  lemma ReleasedOnce(inflight: set<string>, held: multiset<string>, key: string)
    requires multiset(inflight) == held + multiset{key}
    ensures multiset(inflight - {key}) == held
  {
    forall k ensures multiset(inflight - {key})[k] == held[k] {
      assert multiset(inflight)[k] == (held + multiset{key})[k];
    }
  }

  ghost predicate LegalRun(s: State, run: seq<Step>)
    decreases |run|
  {
    run == [] || (Enabled(s, run[0]) && LegalRun(Next(s, run[0]), run[1..]))
  }

  ghost function Play(s: State, run: seq<Step>): State
    requires LegalRun(s, run)
    decreases |run|
  {
    if run == [] then s else Play(Next(s, run[0]), run[1..])
  }

  /** Under every interleaving the table is exactly the disjoint union of the keys held. */
  lemma {:induction false} RunKeepsExact(s: State, run: seq<Step>)
    requires Exact(s) && LegalRun(s, run)
    ensures Exact(Play(s, run))
    decreases |run|
  {
    if run != [] {
      StepKeepsExact(s, run[0]);
      RunKeepsExact(Next(s, run[0]), run[1..]);
    }
  }

  // ----- Pairs and keys -----

  /** Two jobs for different pairs share a key exactly if one chunk id continues the other's with a colon. */
  lemma KeyCollision(a: Job, b: Job)
    requires (a.chunkID, a.target) != (b.chunkID, b.target)
    ensures Key(a) == Key(b) <==> Straddles(a, b) || Straddles(b, a)
  {
    if Key(a) == Key(b) {
      if |a.chunkID| < |b.chunkID| {
        CutAtColon(a, b);
      } else if |b.chunkID| < |a.chunkID| {
        CutAtColon(b, a);
      } else {
        SameLengthSamePair(a, b);
      }
    }
    if Straddles(a, b) { StraddlersCollide(a, b); }
    if Straddles(b, a) { StraddlersCollide(b, a); }
  }

  lemma SameLengthSamePair(a: Job, b: Job)
    requires Key(a) == Key(b) && |a.chunkID| == |b.chunkID|
    ensures a.chunkID == b.chunkID && a.target == b.target
  {
    var n := |a.chunkID|;
    assert a.chunkID == Key(a)[..n] && b.chunkID == Key(b)[..n];
    assert a.target == Key(a)[n + 1..] && b.target == Key(b)[n + 1..];
  }

  /** The longer chunk id starts with the shorter one and a colon; the shorter one's target makes up for the rest. */
  predicate Straddles(a: Job, b: Job) {
    && |a.chunkID| < |b.chunkID| && b.chunkID[..|a.chunkID| + 1] == a.chunkID + ":"
    && a.target == b.chunkID[|a.chunkID| + 1..] + ":" + b.target
  }

  lemma CutAtColon(a: Job, b: Job)
    requires Key(a) == Key(b) && |a.chunkID| < |b.chunkID|
    ensures Straddles(a, b)
  {
    var n := |a.chunkID|;
    assert Key(a)[..n + 1] == a.chunkID + ":" && Key(b)[..n + 1] == b.chunkID[..n + 1];
    assert Key(a)[n + 1..] == a.target;
    assert Key(b)[n + 1..] == b.chunkID[n + 1..] + ":" + b.target;
  }

  lemma StraddlersCollide(a: Job, b: Job)
    requires Straddles(a, b)
    ensures Key(a) == Key(b)
  {
    assert b.chunkID == b.chunkID[..|a.chunkID| + 1] + b.chunkID[|a.chunkID| + 1..];
  }

  lemma ColonFreeKeys(a: Job, b: Job)
    requires ':' !in a.chunkID && ':' !in b.chunkID && Key(a) == Key(b)
    ensures a.chunkID == b.chunkID && a.target == b.target
  {
    if (a.chunkID, a.target) != (b.chunkID, b.target) {
      KeyCollision(a, b);
      ColonInside(a, b);
    }
  }

  lemma ColonInside(a: Job, b: Job)
    requires Straddles(a, b) || Straddles(b, a)
    ensures ':' in a.chunkID || ':' in b.chunkID
  {
    if Straddles(a, b) {
      assert b.chunkID[|a.chunkID|] == b.chunkID[..|a.chunkID| + 1][|a.chunkID|] == ':';
    } else {
      assert a.chunkID[|b.chunkID|] == a.chunkID[..|b.chunkID| + 1][|b.chunkID|] == ':';
    }
  }

  /** A colon in a chunk id lets the table take two different repairs for one. */
  lemma ColonConfuses()
    ensures Key(Job("1", "a:b", "c")) == Key(Job("2", "a", "b:c"))
  {}

  // ----- No pair twice -----

  ghost function HeldJobs(s: State): seq<Job> {
    s.sending + s.dropping + s.queue + s.working
  }

  lemma {:induction false} KeyAppears(jobs: seq<Job>, i: nat)
    requires i < |jobs|
    ensures Key(jobs[i]) in KeysOf(jobs)
  {
    KeysRemoved(jobs, i);
  }

  lemma RepeatedKey(jobs: seq<Job>, i: nat, j: nat)
    requires i < j < |jobs| && Key(jobs[i]) == Key(jobs[j])
    ensures KeysOf(jobs)[Key(jobs[i])] >= 2
  {
    KeysRemoved(jobs, j);
    KeyAppears(RemoveAt(jobs, j), i);
  }

  lemma HeldJobsKeys(s: State)
    ensures KeysOf(HeldJobs(s)) == HeldKeys(s)
  {
    KeysConcat(s.sending + s.dropping + s.queue, s.working);
    KeysConcat(s.sending + s.dropping, s.queue);
    KeysConcat(s.sending, s.dropping);
  }

  /** In every reachable state no chunk-and-target pair is held twice: it is not queued twice, not queued while a
      worker copies it, and never copied by two workers at once. */
  lemma NoPairTwice(run: seq<Step>, i: nat, j: nat)
    requires LegalRun(Idle, run) && i < j < |HeldJobs(Play(Idle, run))|
    ensures var held := HeldJobs(Play(Idle, run));
            held[i].chunkID != held[j].chunkID || held[i].target != held[j].target
  {
    RunKeepsExact(Idle, run);
    var s := Play(Idle, run);
    var held := HeldJobs(s);
    HeldJobsKeys(s);
    assert KeysOf(held)[Key(held[i])] <= 1;
    if Key(held[i]) == Key(held[j]) { RepeatedKey(held, i, j); }
  }

  lemma {:induction false} KeyHasHolder(jobs: seq<Job>, key: string) returns (i: nat)
    requires key in KeysOf(jobs)
    ensures i < |jobs| && Key(jobs[i]) == key
  {
    i := |jobs| - 1;
    if Key(jobs[i]) != key { i := KeyHasHolder(jobs[..i], key); }
  }

  /** For chunk ids without colons, an arrival is dropped as a duplicate only if its very pair is held. */
  lemma OnlyDuplicatesDropped(run: seq<Step>, job: Job) returns (i: nat)
    requires LegalRun(Idle, run) && Key(job) in Play(Idle, run).inflight
    requires ':' !in job.chunkID && forall k :: k in HeldJobs(Play(Idle, run)) ==> ':' !in k.chunkID
    ensures i < |HeldJobs(Play(Idle, run))|
    ensures HeldJobs(Play(Idle, run))[i].chunkID == job.chunkID && HeldJobs(Play(Idle, run))[i].target == job.target
  {
    RunKeepsExact(Idle, run);
    var s := Play(Idle, run);
    HeldJobsKeys(s);
    i := KeyHasHolder(HeldJobs(s), Key(job));
    ColonFreeKeys(HeldJobs(s)[i], job);
  }

  // ----- Nothing lost, nothing overtaken -----

  /** The jobs a step takes on, puts into the queue, gives to a worker, gives up, and completes: a job is taken on
      unless its key is in the table, and gets into the queue if there is room. */
  function TakenOn(s: State, e: Step): seq<Job> {
    if e.Arrive? && Key(e.job) !in s.inflight then [e.job] else []
  }

  function Entering(s: State, e: Step): seq<Job>
    requires Enabled(s, e)
  {
    if e.Send? && |s.queue| < 256 then [s.sending[e.thread]] else []
  }

  function Leaving(s: State, e: Step): seq<Job>
    requires Enabled(s, e)
  {
    if e.Pick? then [s.queue[0]] else []
  }

  function GivenUp(s: State, e: Step): seq<Job>
    requires Enabled(s, e)
  {
    if e.Drop? then [s.dropping[e.thread]] else []
  }

  function Completed(s: State, e: Step): seq<Job>
    requires Enabled(s, e)
  {
    if e.Finish? then [s.working[e.worker]] else []
  }

  /** What happened to jobs over a run, in the order it happened. */
  datatype Trace = Trace(taken: seq<Job>, entered: seq<Job>, picked: seq<Job>, dropped: seq<Job>, finished: seq<Job>)

  ghost function TraceOf(s: State, run: seq<Step>): Trace
    requires LegalRun(s, run)
    decreases |run|
  {
    if run == [] then Trace([], [], [], [], [])
    else
      var e, rest := run[0], TraceOf(Next(s, run[0]), run[1..]);
      Trace(TakenOn(s, e) + rest.taken, Entering(s, e) + rest.entered, Leaving(s, e) + rest.picked,
            GivenUp(s, e) + rest.dropped, Completed(s, e) + rest.finished)
  }

  /** First in, first out: over every run, what was picked and then what is queued is what was queued and then what
      entered. */
  lemma {:induction false} FirstInFirstOut(s: State, run: seq<Step>)
    requires LegalRun(s, run)
    ensures TraceOf(s, run).picked + Play(s, run).queue == s.queue + TraceOf(s, run).entered
    decreases |run|
  {
    if run != [] {
      var e := run[0];
      var t, rest := Next(s, e), TraceOf(Next(s, e), run[1..]);
      FirstInFirstOut(t, run[1..]);
      StepOrder(s, e);
      calc {
        (Leaving(s, e) + rest.picked) + Play(t, run[1..]).queue;
        { ConcatAssociates(Leaving(s, e), rest.picked, Play(t, run[1..]).queue); }
        Leaving(s, e) + (t.queue + rest.entered);
        { ConcatAssociates(Leaving(s, e), t.queue, rest.entered); }
        (s.queue + Entering(s, e)) + rest.entered;
        { ConcatAssociates(s.queue, Entering(s, e), rest.entered); }
        s.queue + (Entering(s, e) + rest.entered);
      }
    } else {
      assert [] + s.queue == s.queue + [];
    }
  }

  lemma StepOrder(s: State, e: Step)
    requires Enabled(s, e)
    ensures Leaving(s, e) + Next(s, e).queue == s.queue + Entering(s, e)
  {
    if e.Pick? {
      assert [s.queue[0]] + s.queue[1..] == s.queue;
    }
  }

  /** A queued job goes to a worker on exactly the pick that its position says, and until then a worker can pick
      whenever one is free. */
  lemma PickedInTurn(s: State, run: seq<Step>, p: nat)
    requires LegalRun(s, run) && p < |s.queue| && |TraceOf(s, run).picked| <= p
    ensures var t := Play(s, run);
            && s.queue[p] in t.queue && (Enabled(t, Pick) <==> |t.working| < 4)
            && (|TraceOf(s, run).picked| == p && |t.working| < 4 ==> Next(t, Pick).working == t.working + [s.queue[p]])
  {
    FirstInFirstOut(s, run);
    var t, n := Play(s, run), |TraceOf(s, run).picked|;
    assert (TraceOf(s, run).picked + t.queue)[p] == t.queue[p - n];
    assert (s.queue + TraceOf(s, run).entered)[p] == s.queue[p];
  }

  ghost function HeldBag(s: State): multiset<Job> {
    multiset(s.sending) + multiset(s.dropping) + multiset(s.queue) + multiset(s.working)
  }

  /** Over every run, every job taken on is waiting to be sent, waiting to be given up, queued, with a worker, given up
      or finished, exactly once. */
  lemma {:induction false} NothingLost(s: State, run: seq<Step>)
    requires LegalRun(s, run)
    ensures var r, t := TraceOf(s, run), Play(s, run);
            HeldBag(s) + multiset(r.taken) == HeldBag(t) + multiset(r.dropped) + multiset(r.finished)
    decreases |run|
  {
    if run != [] {
      var e := run[0];
      var t, r := Next(s, e), TraceOf(Next(s, e), run[1..]);
      NothingLost(t, run[1..]);
      StepLosesNothing(s, e);
      Chained(HeldBag(s), HeldBag(t), HeldBag(Play(s, run)), multiset(TakenOn(s, e)), multiset(GivenUp(s, e)),
              multiset(Completed(s, e)), multiset(r.taken), multiset(r.dropped), multiset(r.finished));
    }
  }

  lemma Chained(a: multiset<Job>, b: multiset<Job>, c: multiset<Job>, taken: multiset<Job>, dropped: multiset<Job>,
                finished: multiset<Job>, taken': multiset<Job>, dropped': multiset<Job>, finished': multiset<Job>)
    requires a + taken == b + dropped + finished && b + taken' == c + dropped' + finished'
    ensures a + (taken + taken') == c + (dropped + dropped') + (finished + finished')
  {
    forall j ensures (a + (taken + taken'))[j] == (c + (dropped + dropped') + (finished + finished'))[j] {
      assert (a + taken)[j] == (b + dropped + finished)[j] && (b + taken')[j] == (c + dropped' + finished')[j];
    }
  }

  ghost predicate LosesNothing(s: State, e: Step)
    requires Enabled(s, e)
  {
    HeldBag(s) + multiset(TakenOn(s, e)) == HeldBag(Next(s, e)) + multiset(GivenUp(s, e)) + multiset(Completed(s, e))
  }

  lemma StepLosesNothing(s: State, e: Step)
    requires Enabled(s, e)
    ensures LosesNothing(s, e)
  {
    match e
    case Arrive(job) =>
      Regroup(multiset(s.sending), multiset(s.dropping), multiset(s.queue), multiset(s.working), multiset{job});
    case Send(i) => SendLosesNothing(s, i);
    case Drop(i) => DropLosesNothing(s, i);
    case Pick => PickLosesNothing(s);
    case Finish(i) => FinishLosesNothing(s, i);
  }

  lemma SendLosesNothing(s: State, i: nat)
    requires i < |s.sending|
    ensures LosesNothing(s, Send(i))
  {
    RemovedJob(s.sending, i);
    Regroup(multiset(RemoveAt(s.sending, i)), multiset(s.dropping), multiset(s.queue), multiset(s.working),
            multiset{s.sending[i]});
  }

  lemma DropLosesNothing(s: State, i: nat)
    requires i < |s.dropping|
    ensures LosesNothing(s, Drop(i))
  {
    RemovedJob(s.dropping, i);
    Regroup(multiset(s.sending), multiset(RemoveAt(s.dropping, i)), multiset(s.queue), multiset(s.working),
            multiset{s.dropping[i]});
  }

  lemma PickLosesNothing(s: State)
    requires Enabled(s, Pick)
    ensures LosesNothing(s, Pick)
  {
    RemovedJob(s.queue, 0);
    assert RemoveAt(s.queue, 0) == s.queue[1..];
    Regroup(multiset(s.sending), multiset(s.dropping), multiset(s.queue[1..]), multiset(s.working),
            multiset{s.queue[0]});
  }

  lemma FinishLosesNothing(s: State, i: nat)
    requires i < |s.working|
    ensures LosesNothing(s, Finish(i))
  {
    RemovedJob(s.working, i);
    Regroup(multiset(s.sending), multiset(s.dropping), multiset(s.queue), multiset(RemoveAt(s.working, i)),
            multiset{s.working[i]});
  }

  lemma RemovedJob(jobs: seq<Job>, i: nat)
    requires i < |jobs|
    ensures multiset(jobs) == multiset(RemoveAt(jobs, i)) + multiset{jobs[i]}
  {
    SplitAt(jobs, i);
  }

  /** A job is given up only after a send that found the queue full. */
  lemma {:induction false} RefusedWhenFull(s: State, run: seq<Step>, job: Job) returns (k: nat)
    requires LegalRun(s, run) && job in Play(s, run).dropping && job !in s.dropping
    ensures k < |run| && LegalRun(s, run[..k]) && run[k].Send?
    ensures var t := Play(s, run[..k]);
            run[k].thread < |t.sending| && t.sending[run[k].thread] == job && |t.queue| >= 256
    decreases |run|
  {
    var e := run[0];
    if job in Next(s, e).dropping {
      k := 0;
      OnlyFullRefuses(s, e, job);
    } else {
      k := RefusedWhenFull(Next(s, e), run[1..], job);
      assert run[1..][..k] == run[..k + 1][1..];
      k := k + 1;
    }
  }

  lemma OnlyFullRefuses(s: State, e: Step, job: Job)
    requires Enabled(s, e) && job in Next(s, e).dropping && job !in s.dropping
    ensures e.Send? && s.sending[e.thread] == job && |s.queue| >= 256
  {}

  /** In every reachable state an arriving job is taken on exactly if no job held has its key. */
  lemma TakenUnlessHeld(run: seq<Step>, job: Job)
    requires LegalRun(Idle, run)
    ensures var s := Play(Idle, run);
            Next(s, Arrive(job)).sending ==
            s.sending + if exists k :: k in HeldJobs(s) && Key(k) == Key(job) then [] else [job]
  {
    RunKeepsExact(Idle, run);
    var s := Play(Idle, run);
    HeldJobsKeys(s);
    if Key(job) in s.inflight {
      assert Key(job) in KeysOf(HeldJobs(s));
      var i := KeyHasHolder(HeldJobs(s), Key(job));
      assert HeldJobs(s)[i] in HeldJobs(s);
      assert s.sending + [] == s.sending;
    } else if k :| k in HeldJobs(s) && Key(k) == Key(job) {
      var i :| 0 <= i < |HeldJobs(s)| && HeldJobs(s)[i] == k;
      KeyAppears(HeldJobs(s), i);
    }
  }

  /** Once a job is finished or given up, no job held has its key, and its pair can arrive again. */
  lemma CanReturn(run: seq<Step>, e: Step, job: Job)
    requires LegalRun(Idle, run) && Enabled(Play(Idle, run), e) && (e.Finish? || e.Drop?)
    requires Key(job) == Key((Completed(Play(Idle, run), e) + GivenUp(Play(Idle, run), e))[0])
    ensures var t := Next(Play(Idle, run), e);
            && (forall k :: k in HeldJobs(t) ==> Key(k) != Key(job))
            && Next(t, Arrive(job)).sending == t.sending + [job]
  {
    RunKeepsExact(Idle, run);
    StepKeepsExact(Play(Idle, run), e);
    var t := Next(Play(Idle, run), e);
    HeldJobsKeys(t);
    forall k | k in HeldJobs(t) ensures Key(k) != Key(job) {
      var i :| 0 <= i < |HeldJobs(t)| && HeldJobs(t)[i] == k;
      KeyAppears(HeldJobs(t), i);
    }
  }

  /** In every reachable state a job that is sent gets into the queue if fewer than 256 jobs are queued, and is
      refused if exactly that many are. */
  lemma SentIff(run: seq<Step>, i: nat)
    requires LegalRun(Idle, run) && i < |Play(Idle, run).sending|
    ensures var s := Play(Idle, run);
            var t := Next(s, Send(i));
            && (t.queue == s.queue + [s.sending[i]] && t.dropping == s.dropping <==> |s.queue| < 256)
            && (t.queue == s.queue && t.dropping == s.dropping + [s.sending[i]] <==> |s.queue| == 256)
  {
    RunKeepsExact(Idle, run);
  }
}
