/** All storage nodes together: every upload and every copy between nodes is a step of `ReplicaSafety`, or changes
    nothing that it speaks of. */
module Clusters {
  import opened Records
  import opened Seqs
  import opened Metadata
  import opened DiskStores
  import opened StorageServers
  import opened StorageClients
  import opened Replication
  import Safety = ReplicaSafety

  // ----- One node -----

  /** Every chunk served is the one content of its id; every chunk recorded is served and has its checksum. */
  ghost predicate Agrees(w: Safety.World, chunks: map<string, Bytes>, recorded: map<string, Bytes>) {
    && (forall c :: c in chunks ==> chunks[c] == w.content(c))
    && (forall c :: c in recorded ==> c in chunks && recorded[c] == w.hash(chunks[c]))
  }

  ghost predicate Faithful(w: Safety.World, store: DiskStore)
    reads store
  {
    store.hash == w.hash && store.Valid() && Agrees(w, store.Chunks(), store.index)
  }

  lemma CommittedFaithful(w: Safety.World, store: DiskStore, chunks: map<string, Bytes>, recorded: map<string, Bytes>,
                          id: string)
    requires store.hash == w.hash && Agrees(w, chunks, recorded)
    requires store.Committed(chunks, recorded, id, w.content(id))
    ensures Faithful(w, store)
  {}

  /** With one content per id, a commit whose checksum could not be recorded changes nothing that is served. */
  lemma HalfCommittedFaithful(w: Safety.World, store: DiskStore, chunks: map<string, Bytes>,
                              recorded: map<string, Bytes>, id: string)
    requires store.hash == w.hash && Agrees(w, chunks, recorded)
    requires store.HalfCommitted(chunks, recorded, id, w.content(id))
    ensures Faithful(w, store) && store.Chunks() == chunks
  {
    if id in recorded { assert chunks[id := w.content(id)] == chunks; }
  }

  /** An upload; a whole one carries the one content of its chunk. */
  method PutOn(ghost w: Safety.World, server: StorageServer, frames: seq<PutFrame>, ending: Ending,
               writeFails: nat -> bool, putFails: bool) returns (r: PutResult)
    requires Faithful(w, server.store) && |PutData(frames)| < MAX_LENGTH
    requires WholeUpload(server.store.layout, frames, ending, w.hash) ==>
               PutData(frames) == w.content(frames[0].chunkID)
    modifies server.store
    ensures Faithful(w, server.store)
    ensures r.Kept? <==> server.Arrived(frames, ending, writeFails, old(server.store.Chunks())) && !putFails
    ensures server.store.Chunks() ==
            if r.Kept? then old(server.store.Chunks())[frames[0].chunkID := PutData(frames)]
            else old(server.store.Chunks())
  {
    ghost var chunks, recorded := server.store.Chunks(), server.store.index;
    r := server.PutChunk(frames, ending, writeFails, putFails);
    if r.Kept? {
      CommittedFaithful(w, server.store, chunks, recorded, frames[0].chunkID);
    } else if !server.store.Unchanged(chunks, recorded) {
      HalfCommittedFaithful(w, server.store, chunks, recorded, frames[0].chunkID);
    }
  }

  /** A copy of a chunk from node to node. A reported failure may still have stored it. */
  method CopyTo(ghost w: Safety.World, source: StorageServer, target: StorageServer, c: string, carried: nat,
                answerLost: bool, writeFails: nat -> bool, ackFails: nat -> bool, putFails: bool) returns (ok: bool)
    requires Faithful(w, source.store) && Faithful(w, target.store)
    requires |w.content(c)| < MAX_LENGTH
    modifies target.store
    ensures Faithful(w, target.store)
    ensures var stored := !putFails && Carried(target.store, old(target.store.Chunks()), old(source.store.Chunks()),
                                               w.hash, c, carried, writeFails, ackFails);
            && (ok <==> stored && !answerLost)
            && target.store.Chunks() == if stored then old(target.store.Chunks())[c := old(source.store.Chunks())[c]]
                                        else old(target.store.Chunks())
  {
    ghost var chunks, recorded, held := target.store.Chunks(), target.store.index, source.store.Chunks();
    ok := ReplicateToSingleNode(source, target, c, carried, answerLost, writeFails, ackFails, putFails);
    if Carried(target.store, chunks, held, w.hash, c, carried, writeFails, ackFails) {
      if putFails {
        HalfCommittedFaithful(w, target.store, chunks, recorded, c);
      } else {
        CommittedFaithful(w, target.store, chunks, recorded, c);
      }
    }
  }

  // ----- All of them -----

  /** The storage nodes are the world's nodes, on separate disks. */
  ghost predicate IsWired(w: Safety.World, servers: map<string, StorageServer>, stores: set<DiskStore>) {
    && (forall n :: w.isNode(n) <==> n in servers) && (forall c :: |w.content(c)| < MAX_LENGTH)
    && (forall n :: n in servers ==> servers[n].store in stores)
    && (forall m, n :: m in servers && n in servers && m != n ==> servers[m].store != servers[n].store)
  }

  /** A copy as such; on behalf of an upload; on behalf of a repair job. The disks end up the same. */
  lemma LateCopy(w: Safety.World, x: Safety.System, source: string, t: string, c: string) returns (z: Safety.System)
    requires w.isNode(t) && Safety.Holds(x, source, c)
    ensures Safety.Took(w, x, z, Safety.Late(source, t, c)) && z == Safety.Stored(x, t, c, x.disks[source][c])
  {
    z := Safety.Stored(x, t, c, x.disks[source][c]);
  }

  lemma ForUpload(w: Safety.World, x: Safety.System, z: Safety.System, i: nat, t: string, ok: bool)
    returns (y: Safety.System)
    requires i < |x.uploads| && Safety.Took(w, x, z, Safety.Late(x.uploads[i].node, t, x.uploads[i].chunkID))
    ensures Safety.Took(w, x, y, Safety.FanOut(i, t, ok)) && y.disks == z.disks
  {
    y := Safety.Next(w, x, Safety.FanOut(i, t, ok));
  }

  lemma ForJob(w: Safety.World, x: Safety.System, z: Safety.System, j: string, source: string, t: string, ok: bool)
    returns (y: Safety.System)
    requires j in x.meta.jobs && x.meta.jobs[j].targetNodeID in x.meta.nodes
    requires w.address(t) == x.meta.nodes[x.meta.jobs[j].targetNodeID].address
    requires Safety.Took(w, x, z, Safety.Late(source, t, x.meta.jobs[j].chunkID))
    ensures Safety.Took(w, x, y, Safety.Repair(j, source, t, ok)) && y.disks == z.disks
  {
    y := Safety.Next(w, x, Safety.Repair(j, source, t, ok));
  }

  ghost function PutStep(w: Safety.World, n: string, frames: seq<PutFrame>): Safety.Step
    requires frames != []
  {
    Safety.Put(n, frames[0].chunkID, PutData(frames), w.hash(PutData(frames)))
  }

  /** What happens to one copy on its way: how many frames the stream carries, which writes and acknowledgements
      fail, whether recording the checksum fails, and whether the final answer is lost. */
  datatype Conditions = Conditions(
    carried: nat, writeFails: nat -> bool, ackFails: nat -> bool, putFails: bool, answerLost: bool)

  /** One copy of a fan-out: to the node at an address. */
  datatype Trial = Trial(target: string, address: string, how: Conditions)

  /** Only chunk `c` was added, with the bytes node `n` has, on the nodes in `reached`. */
  ghost predicate Spread(x: Safety.System, y: Safety.System, n: string, c: string, reached: set<string>) {
    && y.disks.Keys == x.disks.Keys && (reached != {} ==> Safety.Holds(x, n, c))
    && forall m :: m in x.disks ==>
         y.disks[m] == if m in reached && Safety.Holds(x, n, c) then x.disks[m][c := x.disks[n][c]] else x.disks[m]
  }

  lemma SpreadFurther(x: Safety.System, y: Safety.System, z: Safety.System, n: string, c: string,
                      reached: set<string>, t: string)
    requires Spread(x, y, n, c, reached) && t in x.disks && Safety.Holds(y, n, c)
    requires z.disks == y.disks[t := y.disks[t][c := y.disks[n][c]]]
    ensures Spread(x, z, n, c, reached + {t})
  {
    assert z.disks.Keys == x.disks.Keys;
    forall m | m in x.disks
      ensures z.disks[m] == if m in reached + {t} then x.disks[m][c := x.disks[n][c]] else x.disks[m]
    {
      if m == t { assert x.disks[m][c := x.disks[n][c]][c := x.disks[n][c]] == x.disks[m][c := x.disks[n][c]]; }
    }
  }

  /** What one copy of a chunk needs does not depend on where else the chunk was copied before. */
  lemma StillCarried(store: DiskStore, x: Safety.System, y: Safety.System, n: string, t: string, c: string,
                     reached: set<string>, hash: Bytes -> Bytes, how: Conditions)
    requires Spread(x, y, n, c, reached) && n in x.disks && t in x.disks
    ensures Carried(store, y.disks[t], y.disks[n], hash, c, how.carried, how.writeFails, how.ackFails) <==>
              Carried(store, x.disks[t], x.disks[n], hash, c, how.carried, how.writeFails, how.ackFails)
  {
    if c in x.disks[n] && t in reached { TotalWith(x.disks[t], c, x.disks[n][c]); }
  }

  /** An upload with more names confirmed. */
  ghost function Noted(uploads: seq<Safety.Upload>, i: nat, heard: seq<string>): seq<Safety.Upload>
    requires i < |uploads|
  {
    uploads[i := uploads[i].(confirmed := uploads[i].confirmed + heard)]
  }

  lemma NotedNothing(uploads: seq<Safety.Upload>, i: nat)
    requires i < |uploads|
    ensures Noted(uploads, i, []) == uploads
  {
    assert uploads[i].confirmed + [] == uploads[i].confirmed;
  }

  lemma NotedMore(uploads: seq<Safety.Upload>, i: nat, heard: seq<string>, more: seq<string>)
    requires i < |uploads|
    ensures Noted(Noted(uploads, i, heard), i, more) == Noted(uploads, i, heard + more)
  {
    ConcatAssociates(uploads[i].confirmed, heard, more);
  }

  class Cluster {
    ghost const w: Safety.World
    const servers: map<string, StorageServer>
    ghost const stores: set<DiskStore>

    ghost predicate Valid()
      reads stores
    {
      IsWired(w, servers, stores) && forall n :: n in servers ==> Faithful(w, servers[n].store)
    }

    /** What the system knows about the disks is what the nodes serve. */
    ghost predicate Mirrors(x: Safety.System)
      requires IsWired(w, servers, stores)
      reads stores
    {
      x.disks.Keys == servers.Keys && forall n :: n in servers ==> x.disks[n] == servers[n].store.Chunks()
    }

    constructor (ghost w: Safety.World, servers: map<string, StorageServer>, ghost stores: set<DiskStore>)
      requires IsWired(w, servers, stores) && forall n :: n in servers ==> Faithful(w, servers[n].store)
      ensures Valid() && this.w == w && this.servers == servers && this.stores == stores
    {
      this.w, this.servers, this.stores := w, servers, stores;
    }

    /** Before anything is stored, the nodes mirror the system in which every disk is empty. */
    lemma EmptyMirrorsFresh()
      requires IsWired(w, servers, stores) && forall n :: n in servers ==> servers[n].store.Chunks() == map[]
      ensures Mirrors(Safety.Fresh(servers.Keys)) && Safety.Safe(w, Safety.Fresh(servers.Keys))
    {
      Safety.FreshIsSafe(w, servers.Keys);
    }

    /** The nodes other than `n` are as `x` has them. */
    ghost predicate MirrorsBut(x: Safety.System, n: string)
      requires IsWired(w, servers, stores)
      reads stores
    {
      && x.disks.Keys == servers.Keys && n in servers
      && forall m :: m in servers && m != n ==> x.disks[m] == servers[m].store.Chunks() && Faithful(w, servers[m].store)
    }

    lemma OneDiskValid(x: Safety.System, n: string)
      requires IsWired(w, servers, stores) && MirrorsBut(x, n) && Faithful(w, servers[n].store)
      ensures Valid()
    {
      forall m | m in servers ensures Faithful(w, servers[m].store) {
        if m != n { assert Faithful(w, servers[m].store); }
      }
    }

    lemma OneDiskMirrors(x: Safety.System, n: string, y: Safety.System)
      requires IsWired(w, servers, stores) && MirrorsBut(x, n)
      requires y.disks == x.disks[n := servers[n].store.Chunks()]
      ensures Mirrors(y)
    {
      assert y.disks.Keys == servers.Keys;
      forall m | m in servers ensures y.disks[m] == servers[m].store.Chunks() {
        if m != n { assert y.disks[m] == x.disks[m]; }
      }
    }

    lemma StoredDisks(x: Safety.System, n: string, c: string, data: Bytes)
      requires n in x.disks
      ensures Safety.Stored(x, n, c, data).disks == x.disks[n := x.disks[n][c := data]]
      ensures x.disks[n := x.disks[n]] == x.disks
    {}

    lemma SameDisks(x: Safety.System, y: Safety.System)
      requires IsWired(w, servers, stores) && Mirrors(x) && y.disks == x.disks
      ensures Mirrors(y)
    {}

    /** An upload to one node. */
    method Upload(ghost x: Safety.System, n: string, frames: seq<PutFrame>, ending: Ending, writeFails: nat -> bool,
                  putFails: bool) returns (r: PutResult, ghost z: Safety.System)
      requires Valid() && Mirrors(x) && n in servers && |PutData(frames)| < MAX_LENGTH
      requires WholeUpload(servers[n].store.layout, frames, ending, w.hash) ==>
                 PutData(frames) == w.content(frames[0].chunkID)
      modifies servers[n].store
      ensures Valid() && Mirrors(z)
      ensures r.Kept? <==> servers[n].Arrived(frames, ending, writeFails, x.disks[n]) && !putFails
      ensures if r.Kept?
              then && frames != [] && PutData(frames) == w.content(frames[0].chunkID)
                   && z == Safety.Stored(x, n, frames[0].chunkID, PutData(frames))
              else z == x
    {
      r := PutOn(w, servers[n], frames, ending, writeFails, putFails);
      assert MirrorsBut(x, n);
      if r.Kept? {
        z := Safety.Stored(x, n, frames[0].chunkID, PutData(frames));
        StoredDisks(x, n, frames[0].chunkID, PutData(frames));
      } else {
        z := x;
        StoredDisks(x, n, "", []);
      }
      OneDiskValid(x, n);
      OneDiskMirrors(x, n, z);
    }

    /** The copy arrives: all of it gets through to a target that takes it and has room. */
    ghost predicate Arrives(x: Safety.System, source: string, t: string, c: string, how: Conditions)
    {
      && source in x.disks && t in x.disks && t in servers && !how.putFails
      && Carried(servers[t].store, x.disks[t], x.disks[source], w.hash, c, how.carried, how.writeFails, how.ackFails)
    }

    /** A copy from one node to another. */
    method Copy(ghost x: Safety.System, source: string, t: string, c: string, how: Conditions)
      returns (ok: bool, ghost z: Safety.System)
      requires Valid() && Mirrors(x) && source in servers && t in servers
      modifies servers[t].store
      ensures Valid() && Mirrors(z) && (ok <==> Arrives(x, source, t, c, how) && !how.answerLost)
      ensures if Arrives(x, source, t, c, how) then Safety.Took(w, x, z, Safety.Late(source, t, c)) else z == x
    {
      ok := CopyTo(w, servers[source], servers[t], c, how.carried, how.answerLost, how.writeFails, how.ackFails,
                   how.putFails);
      assert MirrorsBut(x, t);
      if Arrives(x, source, t, c, how) {
        z := LateCopy(w, x, source, t, c);
        StoredDisks(x, t, c, x.disks[source][c]);
      } else {
        z := x;
        StoredDisks(x, t, "", []);
      }
      OneDiskValid(x, t);
      OneDiskMirrors(x, t, z);
    }

    /** A client uploads a chunk to a node: a kept upload is a `Put` step, any other changes nothing. */
    method Put(ghost x: Safety.System, n: string, frames: seq<PutFrame>, ending: Ending, writeFails: nat -> bool,
               putFails: bool) returns (r: PutResult, ghost y: Safety.System)
      requires Valid() && Mirrors(x) && n in servers && |PutData(frames)| < MAX_LENGTH
      requires WholeUpload(servers[n].store.layout, frames, ending, w.hash) ==>
                 PutData(frames) == w.content(frames[0].chunkID)
      modifies servers[n].store
      ensures Valid() && Mirrors(y)
      ensures r.Kept? <==> servers[n].Arrived(frames, ending, writeFails, x.disks[n]) && !putFails
      ensures if r.Kept? then frames != [] && Safety.Took(w, x, y, PutStep(w, n, frames)) else y == x
    {
      ghost var z;
      r, z := Upload(x, n, frames, ending, writeFails, putFails);
      y := if r.Kept? then Safety.Next(w, x, PutStep(w, n, frames)) else x;
      SameDisks(z, y);
    }

    /** The node that keeps an upload copies it to another one: a `FanOut` step, or nothing. */
    method FanOut(ghost x: Safety.System, ghost i: nat, n: string, c: string, t: string, how: Conditions)
      returns (ok: bool, ghost y: Safety.System)
      requires Valid() && Mirrors(x) && n in servers && t in servers
      requires i < |x.uploads| && x.uploads[i].node == n && x.uploads[i].chunkID == c
      modifies servers[t].store
      ensures Valid() && Mirrors(y) && (ok <==> Arrives(x, n, t, c, how) && !how.answerLost)
      ensures if Arrives(x, n, t, c, how) then Safety.Took(w, x, y, Safety.FanOut(i, t, ok)) else y == x
    {
      ghost var z;
      ok, z := Copy(x, n, t, c, how);
      y := x;
      if Arrives(x, n, t, c, how) { y := ForUpload(w, x, z, i, t, ok); }
      SameDisks(z, y);
    }

    /** The copy arrives and its answer too. */
    ghost predicate Reached(x: Safety.System, n: string, c: string, trial: Trial) {
      Arrives(x, n, trial.target, c, trial.how) && !trial.how.answerLost
    }

    /** What a fan-out has done to the system: copies, and the successes heard noted on the upload. */
    ghost predicate FannedOut(x: Safety.System, y: Safety.System, run: seq<Safety.Step>, i: nat, heard: seq<string>)
    {
      && Safety.LegalRun(w, x, run) && y == Safety.Play(w, x, run) && i < |x.uploads| && y.meta == x.meta
      && y.uploads == Noted(x.uploads, i, heard)
    }

    ghost predicate FansOut(x: Safety.System, y: Safety.System, trail: Safety.Trail, i: nat, heard: seq<string>)
    {
      && Safety.Leads(w, trail, x, y) && i < |x.uploads| && y.meta == x.meta && y.uploads == Noted(x.uploads, i, heard)
    }

    /** A success heard is noted on the upload; any other copy only stores. */
    lemma TrialEnds(x: Safety.System, y: Safety.System, z: Safety.System, trail: Safety.Trail, i: nat,
                    heard: seq<string>, e: Safety.Step, more: seq<string>) returns (longer: Safety.Trail)
      requires FansOut(x, y, trail, i, heard) && Safety.Took(w, y, z, e)
      requires || (e.Late? && more == [])
               || (e.FanOut? && e.upload == i && more == if e.answered then [w.address(e.target)] else [])
      ensures FansOut(x, z, longer, i, heard + more)
    {
      longer := Safety.Trail(trail.systems + [z], trail.steps + [e]);
      Safety.OneStepMore(w, trail, x, y, z, e);
      NotedMore(x.uploads, i, heard, more);
      NotedNothing(y.uploads, i);
    }

    lemma StillArrives(x: Safety.System, y: Safety.System, n: string, c: string, trial: Trial, reached: set<string>)
      requires Spread(x, y, n, c, reached) && n in x.disks && trial.target in x.disks && trial.target in servers
      ensures Arrives(y, n, trial.target, c, trial.how) <==> Arrives(x, n, trial.target, c, trial.how)
    {
      StillCarried(servers[trial.target].store, x, y, n, trial.target, c, reached, w.hash, trial.how);
    }

    /** The step that a copy of a fan-out is. */
    ghost function TrialStep(i: nat, n: string, c: string, trial: Trial, inTime: bool, ok: bool): Safety.Step {
      if inTime then Safety.FanOut(i, trial.target, ok) else Safety.Late(n, trial.target, c)
    }

    lemma CopySpreads(x: Safety.System, y: Safety.System, z: Safety.System, i: nat, n: string, c: string, trial: Trial,
                      inTime: bool, ok: bool, reached: set<string>)
      requires Spread(x, y, n, c, reached) && trial.target in x.disks
      requires Safety.Took(w, y, z, TrialStep(i, n, c, trial, inTime, ok))
      requires i < |y.uploads| && y.uploads[i].node == n && y.uploads[i].chunkID == c
      ensures Spread(x, z, n, c, reached + {trial.target})
    {
      StoredDisks(y, trial.target, c, y.disks[n][c]);
      SpreadFurther(x, y, z, n, c, reached, trial.target);
    }

    /** One copy of a fan-out, whose answer is waited for or not. */
    method Try(ghost y: Safety.System, ghost i: nat, n: string, c: string, trial: Trial, inTime: bool)
      returns (ok: bool, ghost z: Safety.System)
      requires Valid() && Mirrors(y) && n in servers && trial.target in servers
      requires i < |y.uploads| && y.uploads[i].node == n && y.uploads[i].chunkID == c
      modifies servers[trial.target].store
      ensures Valid() && Mirrors(z) && (ok <==> Reached(y, n, c, trial))
      ensures if Arrives(y, n, trial.target, c, trial.how)
              then Safety.Took(w, y, z, TrialStep(i, n, c, trial, inTime, ok))
              else z == y
    {
      if inTime {
        ok, z := FanOut(y, i, n, c, trial.target, trial.how);
      } else {
        ok, z := Copy(y, n, trial.target, c, trial.how);
      }
    }

    /** Which trials reach their target. */
    ghost function HitsOf(x: Safety.System, n: string, c: string, trials: seq<Trial>): seq<bool> {
      seq(|trials|, k requires 0 <= k < |trials| => Reached(x, n, c, trials[k]))
    }

    /** The answers are those of the first trials. */
    ghost predicate Heard(hits: seq<bool>, trials: seq<Trial>, answers: seq<Attempt>) {
      && |answers| <= |trials| == |hits|
      && forall j :: 0 <= j < |answers| ==> answers[j] == Attempt(trials[j].address, hits[j])
    }

    /** Where a fan-out has got to. */
    ghost predicate UnderWay(x: Safety.System, y: Safety.System, trail: Safety.Trail, i: nat, n: string, c: string,
                             trials: seq<Trial>, hits: seq<bool>, answers: seq<Attempt>, reached: set<string>) {
      && FansOut(x, y, trail, i, Confirmed(answers)) && x.uploads[i].node == n && x.uploads[i].chunkID == c
      && Spread(x, y, n, c, reached) && Heard(hits, trials, answers)
    }

    ghost function HeardFrom(answers: seq<Attempt>, trial: Trial, ok: bool, inTime: bool): seq<Attempt> {
      answers + if inTime then [Attempt(trial.address, ok)] else []
    }

    lemma ConfirmedFrom(answers: seq<Attempt>, trial: Trial, ok: bool, inTime: bool)
      ensures Confirmed(HeardFrom(answers, trial, ok, inTime)) ==
              Confirmed(answers) + if ok && inTime then [trial.address] else []
    {
      var more := HeardFrom(answers, trial, ok, inTime);
      if inTime {
        assert more[..|more| - 1] == answers;
      } else {
        assert more == answers;
      }
    }

    lemma HeardMore(hits: seq<bool>, trials: seq<Trial>, answers: seq<Attempt>, k: nat, inTime: bool)
      requires Heard(hits, trials, answers) && k < |trials| && (inTime ==> k == |answers|)
      ensures Heard(hits, trials, HeardFrom(answers, trials[k], hits[k], inTime))
    {}

    lemma TrialKeeps(x: Safety.System, y: Safety.System, z: Safety.System, trail: Safety.Trail, i: nat, n: string,
                     c: string, trials: seq<Trial>, hits: seq<bool>, answers: seq<Attempt>, reached: set<string>,
                     k: nat, inTime: bool, ok: bool, arrived: bool)
      returns (longer: Safety.Trail, reached': set<string>)
      requires UnderWay(x, y, trail, i, n, c, trials, hits, answers, reached)
      requires k < |trials| && trials[k].target in x.disks && trials[k].address == w.address(trials[k].target)
      requires (inTime ==> k == |answers|) && ok == hits[k] && (ok ==> arrived)
      requires if arrived then Safety.Took(w, y, z, TrialStep(i, n, c, trials[k], inTime, ok)) else z == y
      ensures UnderWay(x, z, longer, i, n, c, trials, hits, HeardFrom(answers, trials[k], ok, inTime), reached')
    {
      HeardMore(hits, trials, answers, k, inTime);
      ConfirmedFrom(answers, trials[k], ok, inTime);
      longer, reached' := trail, reached;
      var heard := Confirmed(answers);
      if arrived {
        var e := TrialStep(i, n, c, trials[k], inTime, ok);
        longer := TrialEnds(x, y, z, trail, i, heard, e, if ok && inTime then [trials[k].address] else []);
        CopySpreads(x, y, z, i, n, c, trials[k], inTime, ok, reached);
        reached' := reached + {trials[k].target};
      } else {
        assert heard + [] == heard;
      }
    }

    lemma NothingTried(x: Safety.System, i: nat, n: string, c: string, trials: seq<Trial>, hits: seq<bool>)
      requires i < |x.uploads| && x.uploads[i].node == n && x.uploads[i].chunkID == c && |hits| == |trials|
      ensures UnderWay(x, x, Safety.Trail([x], []), i, n, c, trials, hits, [], {})
    {
      NotedNothing(x.uploads, i);
    }

    /** Exactly the addresses reached in time. */
    ghost predicate ReachedInTime(confirmed: seq<string>, x: Safety.System, n: string, c: string, trials: seq<Trial>,
                                  inTime: nat) {
      && inTime <= |trials|
      && forall a :: a in confirmed <==>
           exists k :: 0 <= k < inTime && trials[k].address == a && Reached(x, n, c, trials[k])
    }

    /** Exactly the node itself and the addresses reached in time. */
    ghost predicate NamesReached(names: seq<string>, x: Safety.System, n: string, c: string, trials: seq<Trial>,
                                 inTime: nat) {
      && inTime <= |trials|
      && forall a :: a in names <==>
           a == n || exists k :: 0 <= k < inTime && trials[k].address == a && Reached(x, n, c, trials[k])
    }

    lemma AllTried(x: Safety.System, n: string, c: string, trials: seq<Trial>, answers: seq<Attempt>,
                   confirmed: seq<string>)
      requires Heard(HitsOf(x, n, c, trials), trials, answers)
      requires forall a :: a in confirmed <==>
                 exists k :: 0 <= k < |answers| && answers[k].ok && answers[k].address == a
      ensures ReachedInTime(confirmed, x, n, c, trials, |answers|)
      ensures Successes(answers) == set k: nat | k < |answers| && Reached(x, n, c, trials[k])
    {
      forall a | a in confirmed
        ensures exists k :: 0 <= k < |answers| && trials[k].address == a && Reached(x, n, c, trials[k])
      {
        var k :| 0 <= k < |answers| && answers[k].ok && answers[k].address == a;
        assert trials[k].address == a;
      }
    }

    /** Every trial leads to its target, which is one of the nodes. */
    ghost predicate Addressed(trials: seq<Trial>) {
      forall k :: 0 <= k < |trials| ==>
        trials[k].target in servers && trials[k].address == w.address(trials[k].target)
    }

    /** The next trial of a fan-out. */
    method TryNext(ghost x: Safety.System, ghost y: Safety.System, ghost trail: Safety.Trail, ghost i: nat, n: string,
                   c: string, trials: seq<Trial>, ghost hits: seq<bool>, answers: seq<Attempt>,
                   ghost reached: set<string>, k: nat, inTime: bool)
      returns (more: seq<Attempt>, ghost z: Safety.System, ghost longer: Safety.Trail, ghost reached': set<string>)
      requires Valid() && Mirrors(y) && n in servers && k < |trials| && Addressed(trials)
      requires (inTime ==> k == |answers|) && UnderWay(x, y, trail, i, n, c, trials, hits, answers, reached)
      requires hits[k] <==> Reached(x, n, c, trials[k])
      modifies stores
      ensures Valid() && Mirrors(z) && |more| == |answers| + if inTime then 1 else 0
      ensures UnderWay(x, z, longer, i, n, c, trials, hits, more, reached')
    {
      var ok;
      StillArrives(x, y, n, c, trials[k], reached);
      ok, z := Try(y, i, n, c, trials[k], inTime);
      longer, reached' := TrialKeeps(x, y, z, trail, i, n, c, trials, hits, answers, reached, k, inTime, ok,
                                     Arrives(y, n, trials[k].target, c, trials[k].how));
      more := if inTime then answers + [Attempt(trials[k].address, ok)] else answers;
      assert more == HeardFrom(answers, trials[k], ok, inTime);
    }

    /** All trials of a fan-out. */
    method TryAll(ghost x: Safety.System, ghost i: nat, n: string, c: string, trials: seq<Trial>,
                  ghost hits: seq<bool>, inTime: nat)
      returns (answers: seq<Attempt>, ghost trail: Safety.Trail, ghost y: Safety.System, ghost reached: set<string>)
      requires Valid() && Mirrors(x) && n in servers && inTime <= |trials| && Addressed(trials)
      requires i < |x.uploads| && x.uploads[i].node == n && x.uploads[i].chunkID == c
      requires hits == HitsOf(x, n, c, trials)
      modifies stores
      ensures Valid() && Mirrors(y) && |answers| == inTime
      ensures UnderWay(x, y, trail, i, n, c, trials, hits, answers, reached)
    {
      answers, y, trail, reached := [], x, Safety.Trail([x], []), {};
      NothingTried(x, i, n, c, trials, hits);
      for k := 0 to |trials|
        invariant Valid() && Mirrors(y) && |answers| == if k < inTime then k else inTime
        invariant UnderWay(x, y, trail, i, n, c, trials, hits, answers, reached)
      {
        answers, y, trail, reached := TryNext(x, y, trail, i, n, c, trials, hits, answers, reached, k, k < inTime);
      }
    }

    /** The node that keeps an upload copies it to all targets. The trials are listed as they end, and the first
        `inTime` end before the deadline. Exactly the targets reached by then are confirmed. */
    method FanOutAll(ghost x: Safety.System, ghost i: nat, n: string, c: string, trials: seq<Trial>, inTime: nat)
      returns (confirmed: seq<string>, ok: bool, ghost run: seq<Safety.Step>, ghost y: Safety.System)
      requires Valid() && Mirrors(x) && n in servers && inTime <= |trials| && Addressed(trials)
      requires i < |x.uploads| && x.uploads[i].node == n && x.uploads[i].chunkID == c
      modifies stores
      ensures Valid() && Mirrors(y) && FannedOut(x, y, run, i, confirmed)
      ensures ReachedInTime(confirmed, x, n, c, trials, inTime)
      ensures var hits := set k: nat | k < inTime && Reached(x, n, c, trials[k]);
              |confirmed| == |hits| && (ok <==> trials == [] || (inTime == |trials| && |hits| > |trials| / 2))
    {
      var answers;
      ghost var reached, at, trail;
      answers, trail, y, reached := TryAll(x, i, n, c, trials, HitsOf(x, n, c, trials), inTime);
      run := trail.steps;
      Safety.TrailIsRun(w, trail, x, y);
      confirmed, ok, at := CollectAnswers(|trials|, answers);
      AllTried(x, n, c, trials, answers, confirmed);
    }

    /** `run` leads to a system in which the last upload is to be committed with `command`, by a `Commit` step that
        does to the metadata what the command does. */
    ghost predicate ReadyToCommit(x: Safety.System, y: Safety.System, run: seq<Safety.Step>, command: Command) {
      && Safety.LegalRun(w, x, run) && y == Safety.Play(w, x, run) && y.meta == x.meta && command.CommitChunk?
      && |y.uploads| == |x.uploads| + 1 && Safety.CommitOf(y.uploads[|x.uploads|]) == command
      && forall picks :: LegalPicks(x.meta.nodes, command.nodeIDs, picks) ==>
           && Safety.Legal(w, y, Safety.Commit(|x.uploads|, picks))
           && Safety.Next(w, y, Safety.Commit(|x.uploads|, picks)).meta == FinaliseChunk(x.meta, command, picks).state
    }

    lemma {:induction false} PutThenFanOut(x: Safety.System, kept: Safety.System, y: Safety.System, n: string,
                                           frames: seq<PutFrame>, run: seq<Safety.Step>, confirmed: seq<string>)
      requires frames != [] && Safety.Took(w, x, kept, PutStep(w, n, frames))
      requires FannedOut(kept, y, run, |x.uploads|, confirmed)
      ensures ReadyToCommit(x, y, [PutStep(w, n, frames)] + run,
                            CommitChunk(frames[0].chunkID, [n] + confirmed, w.hash(PutData(frames))))
    {
      var all := [PutStep(w, n, frames)] + run;
      assert all[0] == PutStep(w, n, frames) && all[1..] == run;
    }

    lemma OwnIdFirst(confirmed: seq<string>, x: Safety.System, n: string, c: string, trials: seq<Trial>, inTime: nat)
      requires ReachedInTime(confirmed, x, n, c, trials, inTime)
      ensures NamesReached([n] + confirmed, x, n, c, trials, inTime)
    {}

    /** The node that has kept an upload copies it to the other nodes named in it and commits the chunk with its own id
        and the addresses confirmed, whether or not they are a majority. */
    method CopyAround(ghost x: Safety.System, ghost kept: Safety.System, n: string, frames: seq<PutFrame>,
                  trials: seq<Trial>, inTime: nat)
      returns (command: Command, ghost run: seq<Safety.Step>, ghost y: Safety.System)
      requires Valid() && Mirrors(kept) && n in servers && inTime <= |trials| && Addressed(trials)
      requires frames != [] && Safety.Took(w, x, kept, PutStep(w, n, frames)) && SameChunk(frames)
      requires frames[|frames| - 1].checksum == w.hash(PutData(frames))
      modifies stores
      ensures Valid() && Mirrors(y) && ReadyToCommit(x, y, run, command)
      ensures command.chunkID == frames[0].chunkID && command.checksum == w.hash(PutData(frames))
      ensures NamesReached(command.nodeIDs, kept, n, frames[0].chunkID, trials, inTime)
    {
      var last := frames[|frames| - 1];
      var confirmed, ok := [], true;
      confirmed, ok, run, y := FanOutAll(kept, |x.uploads|, n, last.chunkID, trials, inTime);
      command := CommitChunk(last.chunkID, [n] + confirmed, last.checksum);
      PutThenFanOut(x, kept, y, n, frames, run, confirmed);
      OwnIdFirst(confirmed, kept, n, last.chunkID, trials, inTime);
      run := [PutStep(w, n, frames)] + run;
    }

    /** A node receives an upload and, if it keeps it, copies and commits it. An upload not kept changes nothing. */
    method StoreChunk(ghost x: Safety.System, n: string, frames: seq<PutFrame>, ending: Ending,
                      writeFails: nat -> bool, putFails: bool, trials: seq<Trial>, inTime: nat)
      returns (r: PutResult, command: Command, ghost run: seq<Safety.Step>, ghost kept: Safety.System,
               ghost y: Safety.System)
      requires Valid() && Mirrors(x) && n in servers && |PutData(frames)| < MAX_LENGTH
      requires WholeUpload(servers[n].store.layout, frames, ending, w.hash) ==>
                 PutData(frames) == w.content(frames[0].chunkID)
      requires inTime <= |trials| && Addressed(trials)
      modifies stores
      ensures Valid() && Mirrors(y)
      ensures r.Kept? <==> servers[n].Arrived(frames, ending, writeFails, x.disks[n]) && !putFails
      ensures !r.Kept? ==> y == x
      ensures r.Kept? ==>
                && frames != [] && Safety.Took(w, x, kept, PutStep(w, n, frames)) && ReadyToCommit(x, y, run, command)
                && command.chunkID == frames[0].chunkID && command.checksum == w.hash(PutData(frames))
                && NamesReached(command.nodeIDs, kept, n, frames[0].chunkID, trials, inTime)
    {
      run, command := [], DeleteFile("");
      r, kept := Put(x, n, frames, ending, writeFails, putFails);
      y := kept;
      if r.Refused? { return; }
      command, run, y := CopyAround(x, kept, n, frames, trials, inTime);
    }

    /** A source node carries out a repair job: a `Repair` step, or nothing. */
    method Repair(ghost x: Safety.System, j: string, c: string, source: string, t: string, how: Conditions)
      returns (ok: bool, ghost y: Safety.System)
      requires Valid() && Mirrors(x) && source in servers && t in servers
      requires j in x.meta.jobs && x.meta.jobs[j].chunkID == c && x.meta.jobs[j].targetNodeID in x.meta.nodes
      requires w.address(t) == x.meta.nodes[x.meta.jobs[j].targetNodeID].address
      modifies servers[t].store
      ensures Valid() && Mirrors(y) && (ok <==> Arrives(x, source, t, c, how) && !how.answerLost)
      ensures if Arrives(x, source, t, c, how) then Safety.Took(w, x, y, Safety.Repair(j, source, t, ok)) else y == x
    {
      ghost var z;
      ok, z := Copy(x, source, t, c, how);
      y := x;
      if Arrives(x, source, t, c, how) { y := ForJob(w, x, z, j, source, t, ok); }
      SameDisks(z, y);
    }

    /** In a safe system, reading a chunk from any registered node listed as its replica succeeds, and what is read
        has the committed checksum. */
    method Fetch(ghost x: Safety.System, c: string, n: string) returns (ok: bool, data: Bytes)
      requires Valid() && Mirrors(x) && n in servers
      requires Safety.Sane(w) && Safety.Safe(w, x) && IsReplica(x.meta, c, n) && n in x.meta.nodes
      ensures ok && data == w.content(c)
      ensures x.meta.chunks[c].checksum != [] ==> servers[n].store.hash(data) == x.meta.chunks[c].checksum
    {
      Safety.ListedIsHeld(w, x, c, n);
      ok, data := GetChunk(servers[n], c);
    }
  }
}
