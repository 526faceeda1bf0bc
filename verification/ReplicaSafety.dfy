/** Replica records against what storage nodes hold, over every run of uploads, fan-outs, commits, repairs, node
    deaths and evictions. */
module ReplicaSafety {
  import opened Records
  import opened Seqs
  import opened Metadata
  import opened Structure
  import opened Withdrawal

  /** What is fixed for a run: the one content of every chunk id, the hash, which names are node ids, and the
      address of every node. */
  datatype World = World(
    content: string -> Bytes, hash: Bytes -> Bytes, isNode: string -> bool, address: string -> string)

  /** Addresses are unique and are not node ids. */
  ghost predicate Sane(w: World) {
    && (forall m, n :: w.isNode(m) && w.isNode(n) && w.address(m) == w.address(n) ==> m == n)
    && (forall n :: w.isNode(n) ==> !w.isNode(w.address(n)))
    && (forall b :: w.hash(b) != [])
  }

  /** An upload a storage node has kept and not reported yet, with the names of the nodes confirmed so far: the node's
      own id, and the addresses of the replicas that answered. */
  datatype Upload = Upload(node: string, chunkID: string, checksum: Bytes, confirmed: seq<string>)

  /** The metadata, the chunks served by each node, the uploads under way, and the repairs known to have succeeded. */
  datatype System = System(
    meta: State, disks: map<string, map<string, Bytes>>, uploads: seq<Upload>, succeeded: set<string>)

  /** No metadata, and one empty disk for each node. */
  function Fresh(nodes: set<string>): System {
    System(Empty, map n | n in nodes :: map[], [], {})
  }

  datatype Step =
    | Put(node: string, chunkID: string, data: Bytes, checksum: Bytes)
    | FanOut(upload: nat, target: string, answered: bool)
    | Late(source: string, target: string, chunkID: string) // a copy that nobody waits for any more
    | Commit(upload: nat, picks: seq<string>)
    | Repair(jobID: string, source: string, target: string, answered: bool)
    | Report(jobID: string)
    | Propose(command: Command, picks: seq<string>)

  predicate Holds(x: System, n: string, c: string) {
    n in x.disks && c in x.disks[n]
  }

  function Stored(x: System, n: string, c: string, data: Bytes): System {
    x.(disks := x.disks[n := (if n in x.disks then x.disks[n] else map[])[c := data]])
  }

  /** Uploads carry the chunk's one content under its checksum, copies go to the node that has the address, and nodes
      register under their own address. Chunks are committed and replicas added only as modelled here. */
  ghost predicate Legal(w: World, x: System, e: Step) {
    match e
    case Put(n, c, data, sum) => w.isNode(n) && data == w.content(c) && sum == w.hash(data)
    case FanOut(u, t, _) => u < |x.uploads| && w.isNode(t) && Holds(x, x.uploads[u].node, x.uploads[u].chunkID)
    case Late(source, t, c) => w.isNode(t) && Holds(x, source, c)
    case Commit(u, picks) => u < |x.uploads| && LegalPicks(x.meta.nodes, x.uploads[u].confirmed, picks)
    case Repair(j, source, t, _) =>
      && j in x.meta.jobs && x.meta.jobs[j].targetNodeID in x.meta.nodes && Holds(x, source, x.meta.jobs[j].chunkID)
      && w.isNode(t) && w.address(t) == x.meta.nodes[x.meta.jobs[j].targetNodeID].address
    case Report(j) => j in x.succeeded && j in x.meta.jobs
    case Propose(c, picks) =>
      && LegalFor(x.meta, c, picks) && !c.CommitChunk? && !c.AddChunkReplica?
      && (c.RegisterNode? ==> w.isNode(c.nodeID) && c.address == w.address(c.nodeID))
  }

  function CommitOf(u: Upload): Command {
    CommitChunk(u.chunkID, u.confirmed, u.checksum)
  }

  /** What a successful repair report does to the metadata. */
  function Reported(s: State, job: RepairJob): State {
    if job.deleteSource then Evict(s, job.chunkID, job.sourceNodeID).state
    else AddReplica(s, job.chunkID, job.targetNodeID).state
  }

  ghost function Next(w: World, x: System, e: Step): System
    requires Legal(w, x, e)
  {
    match e
    case Put(n, c, data, sum) => Stored(x, n, c, data).(uploads := x.uploads + [Upload(n, c, sum, [n])])
    case FanOut(i, t, answered) =>
      var u := x.uploads[i];
      Stored(x, t, u.chunkID, x.disks[u.node][u.chunkID]).(
        uploads := if answered then x.uploads[i := u.(confirmed := u.confirmed + [w.address(t)])] else x.uploads)
    case Late(source, t, c) => Stored(x, t, c, x.disks[source][c])
    case Commit(i, picks) =>
      x.(meta := FinaliseChunk(x.meta, CommitOf(x.uploads[i]), picks).state, uploads := RemoveAt(x.uploads, i))
    case Repair(j, source, t, answered) =>
      var c := x.meta.jobs[j].chunkID;
      Stored(x, t, c, x.disks[source][c]).(succeeded := if answered then x.succeeded + {j} else x.succeeded)
    case Report(j) => x.(meta := Reported(x.meta, x.meta.jobs[j]))
    case Propose(c, picks) => x.(meta := Apply(x.meta, c, picks).state)
  }

  // ----- The invariant -----

  ghost predicate DisksOk(w: World, x: System) {
    forall n, c :: Holds(x, n, c) ==> x.disks[n][c] == w.content(c)
  }

  /** A name under which `c` may be recorded: a node that holds it, or the address of one. */
  ghost predicate Backed(w: World, x: System, c: string, name: string) {
    || (w.isNode(name) && Holds(x, name, c))
    || (exists n :: w.isNode(n) && name == w.address(n) && Holds(x, n, c))
  }

  ghost predicate AllBacked(w: World, x: System, c: string, names: seq<string>) {
    forall name :: name in names ==> Backed(w, x, c, name)
  }

  ghost predicate UploadOk(w: World, x: System, u: Upload) {
    Holds(x, u.node, u.chunkID) && u.checksum == w.hash(w.content(u.chunkID)) && AllBacked(w, x, u.chunkID, u.confirmed)
  }

  ghost predicate ChunkBacked(w: World, x: System, c: string, chunk: ChunkRecord) {
    && AllBacked(w, x, c, chunk.replicas)
    && (chunk.checksum != [] ==> chunk.checksum == w.hash(w.content(c)))
  }

  ghost predicate NodesOk(w: World, s: State) {
    forall n :: n in s.nodes ==> w.isNode(n) && s.nodes[n].address == w.address(n)
  }

  ghost predicate RepairsOk(w: World, x: System) {
    forall j :: j in x.succeeded ==>
      && j in x.meta.jobs && w.isNode(x.meta.jobs[j].targetNodeID)
      && Holds(x, x.meta.jobs[j].targetNodeID, x.meta.jobs[j].chunkID)
  }

  ghost predicate RecordsOk(w: World, x: System) {
    forall c :: c in x.meta.chunks ==> ChunkBacked(w, x, c, x.meta.chunks[c])
  }

  ghost predicate Safe(w: World, x: System) {
    && Inv(x.meta) && NodesOk(w, x.meta) && DisksOk(w, x) && RecordsOk(w, x) && RepairsOk(w, x)
    && forall i :: 0 <= i < |x.uploads| ==> UploadOk(w, x, x.uploads[i])
  }

  // ----- More on the disks -----

  ghost predicate MoreHeld(x: System, y: System) {
    forall n, c :: Holds(x, n, c) ==> Holds(y, n, c)
  }

  lemma BackedStays(w: World, x: System, y: System, c: string, names: seq<string>)
    requires MoreHeld(x, y) && AllBacked(w, x, c, names)
    ensures AllBacked(w, y, c, names)
  {
    forall name | name in names ensures Backed(w, y, c, name) {
      if !(w.isNode(name) && Holds(x, name, c)) {
        var n :| w.isNode(n) && name == w.address(n) && Holds(x, n, c);
        assert Holds(y, n, c);
      }
    }
  }

  /** Storing a chunk's content keeps everything. */
  lemma StoreKeeps(w: World, x: System, n: string, c: string)
    requires Safe(w, x)
    ensures Safe(w, Stored(x, n, c, w.content(c))) && MoreHeld(x, Stored(x, n, c, w.content(c)))
  {
    var y := Stored(x, n, c, w.content(c));
    assert MoreHeld(x, y);
    forall k | k in y.meta.chunks ensures ChunkBacked(w, y, k, y.meta.chunks[k]) {
      assert ChunkBacked(w, x, k, x.meta.chunks[k]);
      BackedStays(w, x, y, k, x.meta.chunks[k].replicas);
    }
    forall i | 0 <= i < |y.uploads| ensures UploadOk(w, y, y.uploads[i]) {
      assert UploadOk(w, x, x.uploads[i]);
      BackedStays(w, x, y, x.uploads[i].chunkID, x.uploads[i].confirmed);
    }
  }

  // ----- The steps that store -----

  lemma PutKeeps(w: World, x: System, e: Step)
    requires Safe(w, x) && e.Put? && Legal(w, x, e)
    ensures Safe(w, Next(w, x, e))
  {
    StoreKeeps(w, x, e.node, e.chunkID);
    var y := Stored(x, e.node, e.chunkID, e.data);
    UploadsKeep(w, y, x.uploads + [Upload(e.node, e.chunkID, e.checksum, [e.node])]);
  }

  /** Only the uploads change. */
  lemma UploadsKeep(w: World, x: System, uploads: seq<Upload>)
    requires Safe(w, x) && forall i :: 0 <= i < |uploads| ==> UploadOk(w, x, uploads[i])
    ensures Safe(w, x.(uploads := uploads))
  {
    var y := x.(uploads := uploads);
    assert MoreHeld(x, y) && MoreHeld(y, x);
    forall k | k in y.meta.chunks ensures ChunkBacked(w, y, k, y.meta.chunks[k]) {
      BackedStays(w, x, y, k, x.meta.chunks[k].replicas);
    }
    forall i | 0 <= i < |uploads| ensures UploadOk(w, y, uploads[i]) {
      BackedStays(w, x, y, uploads[i].chunkID, uploads[i].confirmed);
    }
  }

  lemma FanOutKeeps(w: World, x: System, e: Step)
    requires Safe(w, x) && e.FanOut? && Legal(w, x, e)
    ensures Safe(w, Next(w, x, e))
  {
    var u := x.uploads[e.upload];
    assert UploadOk(w, x, u);
    StoreKeeps(w, x, e.target, u.chunkID);
    var y := Stored(x, e.target, u.chunkID, w.content(u.chunkID));
    if e.answered {
      assert UploadOk(w, y, y.uploads[e.upload]);
      assert Holds(y, e.target, u.chunkID);
      UploadsKeep(w, y, x.uploads[e.upload := u.(confirmed := u.confirmed + [w.address(e.target)])]);
    }
  }

  lemma RepairKeeps(w: World, x: System, e: Step)
    requires Sane(w) && Safe(w, x) && e.Repair? && Legal(w, x, e)
    ensures Safe(w, Next(w, x, e))
  {
    var job := x.meta.jobs[e.jobID];
    StoreKeeps(w, x, e.target, job.chunkID);
    var y := Stored(x, e.target, job.chunkID, w.content(job.chunkID));
    assert e.target == job.targetNodeID;
    if e.answered { SucceededKeeps(w, y, e.jobID); }
  }

  lemma SucceededKeeps(w: World, x: System, j: string)
    requires Safe(w, x) && j in x.meta.jobs && w.isNode(x.meta.jobs[j].targetNodeID)
    requires Holds(x, x.meta.jobs[j].targetNodeID, x.meta.jobs[j].chunkID)
    ensures Safe(w, x.(succeeded := x.succeeded + {j}))
  {
    var y := x.(succeeded := x.succeeded + {j});
    assert MoreHeld(x, y);
    forall k | k in y.meta.chunks ensures ChunkBacked(w, y, k, y.meta.chunks[k]) {
      BackedStays(w, x, y, k, x.meta.chunks[k].replicas);
    }
    forall i | 0 <= i < |y.uploads| ensures UploadOk(w, y, y.uploads[i]) {
      BackedStays(w, x, y, x.uploads[i].chunkID, x.uploads[i].confirmed);
    }
  }

  // ----- The steps that change the metadata -----

  /** New metadata is fine if it evolves the old and each of its chunk records is backed. */
  lemma MetaKeeps(w: World, x: System, meta: State)
    requires Safe(w, x) && Preserved(x.meta, meta) && NodesOk(w, meta)
    requires forall c :: c in meta.chunks ==> ChunkBacked(w, x, c, meta.chunks[c])
    ensures Safe(w, x.(meta := meta))
  {
    var y := x.(meta := meta);
    assert MoreHeld(x, y);
    forall k | k in meta.chunks ensures ChunkBacked(w, y, k, meta.chunks[k]) {
      BackedStays(w, x, y, k, meta.chunks[k].replicas);
    }
    forall i | 0 <= i < |y.uploads| ensures UploadOk(w, y, y.uploads[i]) {
      BackedStays(w, x, y, x.uploads[i].chunkID, x.uploads[i].confirmed);
    }
    forall j | j in x.succeeded ensures j in meta.jobs && JobEvolves(x.meta.jobs[j], meta.jobs[j]) {}
  }

  /** An address resolves to the node that has it. */
  lemma ResolvedBacked(w: World, x: System, c: string, entry: string, pick: string)
    requires Sane(w) && OthersOk(x.meta) && NodesOk(w, x.meta) && Backed(w, x, c, entry)
    requires entry !in x.meta.nodes ==> LegalPick(x.meta.nodes, entry, pick)
    ensures Backed(w, x, c, Resolved(x.meta.nodes, entry, pick))
  {
    var nodes := x.meta.nodes;
    if entry !in nodes && pick != "" {
      var k :| k in nodes && nodes[k].address == entry && pick == nodes[k].nodeID;
      assert pick == k && entry == w.address(k);
      var n :| w.isNode(n) && entry == w.address(n) && Holds(x, n, c);
      assert n == k;
    }
  }

  lemma {:induction false} NormalizedBacked(w: World, x: System, c: string, raw: seq<string>, picks: seq<string>)
    requires Sane(w) && OthersOk(x.meta) && NodesOk(w, x.meta) && AllBacked(w, x, c, raw)
    requires LegalPicks(x.meta.nodes, raw, picks)
    ensures AllBacked(w, x, c, Normalize(x.meta.nodes, raw, picks))
  {
    if |raw| > 0 {
      var n := |raw| - 1;
      NormalizedBacked(w, x, c, raw[..n], picks[..n]);
      ResolvedBacked(w, x, c, raw[n], picks[n]);
    }
  }

  lemma CommitBacked(w: World, x: System, u: Upload, picks: seq<string>)
    requires Sane(w) && Safe(w, x) && UploadOk(w, x, u) && LegalPicks(x.meta.nodes, u.confirmed, picks)
    ensures var meta := FinaliseChunk(x.meta, CommitOf(u), picks).state;
            meta.nodes == x.meta.nodes && forall c :: c in meta.chunks ==> ChunkBacked(w, x, c, meta.chunks[c])
  {
    NormalizedBacked(w, x, u.chunkID, u.confirmed, picks);
    var meta := FinaliseChunk(x.meta, CommitOf(u), picks).state;
    forall c | c in meta.chunks ensures ChunkBacked(w, x, c, meta.chunks[c]) {
      assert ChunkBacked(w, x, c, x.meta.chunks[c]);
    }
  }

  lemma CommitPreserves(s: State, u: Upload, picks: seq<string>)
    requires Inv(s) && LegalPicks(s.nodes, u.confirmed, picks)
    ensures Preserved(s, FinaliseChunk(s, CommitOf(u), picks).state)
  {
    if FinaliseChunk(s, CommitOf(u), picks).outcome.Accepted? {
      FinaliseKeepsInv(s, CommitOf(u), picks);
    } else {
      PreservedReflexive(s);
    }
  }

  lemma ForgetUpload(w: World, x: System, i: nat)
    requires Safe(w, x) && i < |x.uploads|
    ensures Safe(w, x.(uploads := RemoveAt(x.uploads, i)))
  {
    var left := RemoveAt(x.uploads, i);
    forall k | 0 <= k < |left| ensures UploadOk(w, x, left[k]) {
      assert left[k] == x.uploads[if k < i then k else k + 1];
    }
    UploadsKeep(w, x, left);
  }

  lemma CommitKeeps(w: World, x: System, e: Step)
    requires Sane(w) && Safe(w, x) && e.Commit? && Legal(w, x, e)
    ensures Safe(w, Next(w, x, e))
  {
    var u := x.uploads[e.upload];
    assert UploadOk(w, x, u);
    var meta := FinaliseChunk(x.meta, CommitOf(u), e.picks).state;
    CommitPreserves(x.meta, u, e.picks);
    CommitBacked(w, x, u, e.picks);
    MetaKeeps(w, x, meta);
    ForgetUpload(w, x.(meta := meta), e.upload);
  }

  lemma AddReplicaBacked(w: World, x: System, c: string, n: string)
    requires RecordsOk(w, x) && w.isNode(n) && Holds(x, n, c)
    ensures var meta := AddReplica(x.meta, c, n).state;
            meta.nodes == x.meta.nodes && forall k :: k in meta.chunks ==> ChunkBacked(w, x, k, meta.chunks[k])
  {
    var meta := AddReplica(x.meta, c, n).state;
    forall k | k in meta.chunks ensures ChunkBacked(w, x, k, meta.chunks[k]) {
      assert ChunkBacked(w, x, k, x.meta.chunks[k]);
    }
  }

  lemma AddReplicaKeeps(w: World, x: System, c: string, n: string)
    requires Safe(w, x) && w.isNode(n) && Holds(x, n, c)
    ensures Safe(w, x.(meta := AddReplica(x.meta, c, n).state))
  {
    AddKeepsInv(x.meta, c, n);
    AddReplicaBacked(w, x, c, n);
    MetaKeeps(w, x, AddReplica(x.meta, c, n).state);
  }

  lemma EvictPreserves(s: State, c: string, n: string)
    requires Inv(s)
    ensures Preserved(s, Evict(s, c, n).state)
  {
    if Evict(s, c, n).outcome.Accepted? {
      EvictKeepsInv(s, c, n);
    } else {
      PreservedReflexive(s);
    }
  }

  lemma EvictionKeeps(w: World, x: System, c: string, n: string)
    requires Safe(w, x)
    ensures Safe(w, x.(meta := Evict(x.meta, c, n).state))
  {
    EvictPreserves(x.meta, c, n);
    EvictShrinks(x.meta, c, n);
    ShrinkKeeps(w, x, Evict(x.meta, c, n).state);
  }

  lemma ReportKeeps(w: World, x: System, j: string)
    requires Safe(w, x) && j in x.succeeded && j in x.meta.jobs
    ensures Safe(w, x.(meta := Reported(x.meta, x.meta.jobs[j])))
  {
    var job := x.meta.jobs[j];
    if job.deleteSource {
      EvictionKeeps(w, x, job.chunkID, job.sourceNodeID);
    } else {
      AddReplicaKeeps(w, x, job.chunkID, job.targetNodeID);
    }
  }

  /** Nothing is recorded that was not: replica lists only shrink, checksums stay, new records are blank. */
  ghost predicate Shrinks(s: State, t: State) {
    forall c :: c in t.chunks ==>
      if c in s.chunks then
        && t.chunks[c].checksum == s.chunks[c].checksum
        && forall r :: r in t.chunks[c].replicas ==> r in s.chunks[c].replicas
      else t.chunks[c].checksum == [] && t.chunks[c].replicas == []
  }

  lemma EvictShrinks(s: State, c: string, n: string)
    requires Inv(s)
    ensures Shrinks(s, Evict(s, c, n).state)
  {
    if IsReplica(s, c, n) { EvictExact(s, c, n); }
  }

  lemma CreateShrinks(s: State, c: Command)
    requires c.CreateFile?
    ensures Shrinks(s, Create(s, c).state)
  {
    if Create(s, c).outcome.Accepted? { CreateKeepsRecords(s, c); }
  }

  lemma SameChunksShrink(s: State, t: State)
    requires t.chunks == s.chunks
    ensures Shrinks(s, t)
  {}

  lemma LostShrinks(s: State, c: string)
    ensures Shrinks(s, MarkLost(s, c).state)
  {}

  lemma CommandShrinks(s: State, c: Command, picks: seq<string>)
    requires Inv(s) && !c.CommitChunk? && !c.AddChunkReplica?
    ensures Shrinks(s, Apply(s, c, picks).state)
  {
    if c.CreateFile? {
      CreateShrinks(s, c);
    } else if c.EvictChunkFromNode? {
      EvictShrinks(s, c.chunkID, c.nodeID);
    } else if c.MarkChunkLost? {
      LostShrinks(s, c.chunkID);
    } else {
      SameChunksShrink(s, Apply(s, c, picks).state);
    }
  }

  /** Metadata in which replica lists have only shrunk is fine. */
  lemma ShrinkKeeps(w: World, x: System, meta: State)
    requires Safe(w, x) && Preserved(x.meta, meta) && NodesOk(w, meta) && Shrinks(x.meta, meta)
    ensures Safe(w, x.(meta := meta))
  {
    forall c | c in meta.chunks ensures ChunkBacked(w, x, c, meta.chunks[c]) {
      if c in x.meta.chunks { assert ChunkBacked(w, x, c, x.meta.chunks[c]); }
    }
    MetaKeeps(w, x, meta);
  }

  lemma CommandKeepsNodes(w: World, s: State, c: Command, picks: seq<string>)
    requires NodesOk(w, s) && !c.CommitChunk?
    requires c.RegisterNode? ==> w.isNode(c.nodeID) && c.address == w.address(c.nodeID)
    ensures NodesOk(w, Apply(s, c, picks).state)
  {}

  lemma ProposeKeeps(w: World, x: System, e: Step)
    requires Safe(w, x) && e.Propose? && Legal(w, x, e)
    ensures Safe(w, Next(w, x, e))
  {
    StepKeepsInv(x.meta, e.command, e.picks);
    CommandShrinks(x.meta, e.command, e.picks);
    CommandKeepsNodes(w, x.meta, e.command, e.picks);
    ShrinkKeeps(w, x, Apply(x.meta, e.command, e.picks).state);
  }

  // ----- Every run -----

  lemma StepKeepsSafe(w: World, x: System, e: Step)
    requires Sane(w) && Safe(w, x) && Legal(w, x, e)
    ensures Safe(w, Next(w, x, e))
  {
    match e
    case Put(_, _, _, _) => PutKeeps(w, x, e);
    case FanOut(_, _, _) => FanOutKeeps(w, x, e);
    case Late(source, t, c) => StoreKeeps(w, x, t, c);
    case Commit(_, _) => CommitKeeps(w, x, e);
    case Repair(_, _, _, _) => RepairKeeps(w, x, e);
    case Report(j) => ReportKeeps(w, x, j);
    case Propose(_, _) => ProposeKeeps(w, x, e);
  }

  ghost predicate LegalRun(w: World, x: System, run: seq<Step>)
    decreases |run|
  {
    run == [] || (Legal(w, x, run[0]) && LegalRun(w, Next(w, x, run[0]), run[1..]))
  }

  ghost function Play(w: World, x: System, run: seq<Step>): System
    requires LegalRun(w, x, run)
    decreases |run|
  {
    if run == [] then x else Play(w, Next(w, x, run[0]), run[1..])
  }

  /** A run with the systems it passes through. */
  datatype Trail = Trail(systems: seq<System>, steps: seq<Step>)

  ghost predicate Leads(w: World, trail: Trail, x: System, y: System) {
    && |trail.systems| == |trail.steps| + 1 && trail.systems[0] == x && trail.systems[|trail.steps|] == y
    && forall i {:trigger trail.steps[i]} :: 0 <= i < |trail.steps| ==>
         Took(w, trail.systems[i], trail.systems[i + 1], trail.steps[i])
  }

  /** `e` is a step of the system, and it leads from `x` to `y`. */
  ghost predicate Took(w: World, x: System, y: System, e: Step) {
    Legal(w, x, e) && y == Next(w, x, e)
  }

  lemma OneStepMore(w: World, trail: Trail, x: System, y: System, z: System, e: Step)
    requires Leads(w, trail, x, y) && Took(w, y, z, e)
    ensures Leads(w, Trail(trail.systems + [z], trail.steps + [e]), x, z)
  {}

  lemma {:induction false} TrailIsRun(w: World, trail: Trail, x: System, y: System)
    requires Leads(w, trail, x, y)
    ensures LegalRun(w, x, trail.steps) && Play(w, x, trail.steps) == y
    decreases |trail.steps|
  {
    if trail.steps != [] {
      assert Took(w, trail.systems[0], trail.systems[0 + 1], trail.steps[0]);
      TrailRest(w, trail, x, y);
      TrailIsRun(w, Trail(trail.systems[1..], trail.steps[1..]), trail.systems[1], y);
    }
  }

  lemma TrailRest(w: World, trail: Trail, x: System, y: System)
    requires Leads(w, trail, x, y) && trail.steps != []
    ensures Leads(w, Trail(trail.systems[1..], trail.steps[1..]), trail.systems[1], y)
  {
    forall i | 0 <= i < |trail.steps| - 1
      ensures Took(w, trail.systems[1..][i], trail.systems[1..][i + 1], trail.steps[1..][i])
    {
      assert Took(w, trail.systems[i + 1], trail.systems[i + 1 + 1], trail.steps[i + 1]);
    }
  }

  lemma {:induction false} RunKeepsSafe(w: World, x: System, run: seq<Step>)
    requires Sane(w) && Safe(w, x) && LegalRun(w, x, run)
    ensures Safe(w, Play(w, x, run))
    decreases |run|
  {
    if run != [] {
      StepKeepsSafe(w, x, run[0]);
      RunKeepsSafe(w, Next(w, x, run[0]), run[1..]);
    }
  }

  /** A registered node listed as a replica serves the chunk, under the committed checksum if there is one. */
  lemma ListedIsHeld(w: World, x: System, c: string, n: string)
    requires Safe(w, x) && Sane(w) && IsReplica(x.meta, c, n) && n in x.meta.nodes
    ensures Holds(x, n, c) && x.disks[n][c] == w.content(c)
    ensures x.meta.chunks[c].checksum != [] ==> w.hash(x.disks[n][c]) == x.meta.chunks[c].checksum
  {
    assert ChunkBacked(w, x, c, x.meta.chunks[c]);
    assert Backed(w, x, c, n);
    assert w.isNode(n);
  }

  lemma FreshIsSafe(w: World, nodes: set<string>)
    ensures Safe(w, Fresh(nodes))
  {}

  /** Replica-record safety: in every state reached from empty disks, every registered node listed as a replica of a
      chunk serves that chunk, and when the chunk is committed the bytes it serves hash to the committed checksum. */
  lemma ReplicasAreReal(w: World, nodes: set<string>, run: seq<Step>, c: string, n: string)
    requires Sane(w) && LegalRun(w, Fresh(nodes), run)
    requires IsReplica(Play(w, Fresh(nodes), run).meta, c, n) && n in Play(w, Fresh(nodes), run).meta.nodes
    ensures var x := Play(w, Fresh(nodes), run);
            && Holds(x, n, c)
            && (x.meta.chunks[c].checksum != [] ==> w.hash(x.disks[n][c]) == x.meta.chunks[c].checksum)
  {
    FreshIsSafe(w, nodes);
    RunKeepsSafe(w, Fresh(nodes), run);
    ListedIsHeld(w, Play(w, Fresh(nodes), run), c, n);
  }
}
