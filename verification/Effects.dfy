/** What every command achieves and what it leaves alone, field by field, and when and how it is refused. */
module Effects {
  import opened Records
  import opened Seqs
  import opened Metadata
  import opened Structure

  // ----- Frames -----

  /** Nothing but the entry of `n` differs. */
  ghost predicate OnlyNode(s: State, t: State, n: string) {
    && t == s.(nodes := t.nodes) && t.nodes.Keys == s.nodes.Keys + {n}
    && forall m :: m in s.nodes && m != n ==> t.nodes[m] == s.nodes[m]
  }

  ghost predicate OnlyFile(s: State, t: State, f: string) {
    && t == s.(files := t.files) && f in s.files && t.files.Keys == s.files.Keys
    && forall g :: g in s.files && g != f ==> t.files[g] == s.files[g]
  }

  ghost predicate OnlyChunk(s: State, t: State, c: string) {
    && t == s.(chunks := t.chunks) && c in s.chunks && t.chunks.Keys == s.chunks.Keys
    && forall d :: d in s.chunks && d != c ==> t.chunks[d] == s.chunks[d]
  }

  ghost predicate OnlyJob(s: State, t: State, j: string) {
    && t == s.(jobs := t.jobs) && t.jobs.Keys == s.jobs.Keys + {j}
    && forall i :: i in s.jobs && i != j ==> t.jobs[i] == s.jobs[i]
  }

  // ----- Effects on one record -----

  /** Instants of updates never go back. */
  ghost predicate MovedForward(before: Time, after: Time, at: Time) {
    before <= after && at <= after && (after == before || after == at)
  }

  ghost predicate NodeMarked(n: NodeEntry, later: NodeEntry, status: NodeStatus, at: Time) {
    && later.status == status && MovedForward(n.updatedAt, later.updatedAt, at)
    && later.nodeID == n.nodeID && later.address == n.address
    && later.freeSpace == n.freeSpace && later.chunkCount == n.chunkCount
    && later.lastSeen == n.lastSeen && later.registeredAt == n.registeredAt
  }

  ghost predicate NodeRegistered(s: State, later: NodeEntry, c: Command)
    requires c.RegisterNode?
  {
    && later.address == c.address && later.status == NodeAlive && later.updatedAt == c.at
    && later.freeSpace == c.freeSpace && later.chunkCount == c.chunkCount
    && if c.nodeID in s.nodes
       then && later.nodeID == s.nodes[c.nodeID].nodeID
            && later.lastSeen == s.nodes[c.nodeID].lastSeen && later.registeredAt == s.nodes[c.nodeID].registeredAt
       else later.nodeID == c.nodeID && later.lastSeen == c.at && later.registeredAt == c.at
  }

  ghost predicate NodeMeasured(n: NodeEntry, later: NodeEntry, c: Command)
    requires c.UpdateNodeSpace?
  {
    && later.freeSpace == c.freeSpace && later.chunkCount == c.chunkCount
    && MovedForward(n.updatedAt, later.updatedAt, c.at)
    && later.nodeID == n.nodeID && later.address == n.address && later.status == n.status
    && later.lastSeen == n.lastSeen && later.registeredAt == n.registeredAt
  }

  /** The file is as it was, except for its status and checksum. */
  ghost predicate FileMarked(f: FileRecord, later: FileRecord, status: FileStatus, checksum: Bytes) {
    && later.status == status && later.checksum == checksum
    && later.fileID == f.fileID && later.filename == f.filename && later.chunkIDs == f.chunkIDs
    && later.fileSize == f.fileSize && later.chunkSize == f.chunkSize
    && later.createdAt == f.createdAt && later.updatedAt == f.updatedAt
  }

  /** The chunk is as it was, except for its status, checksum and replicas. */
  ghost predicate ChunkMarked(c: ChunkRecord, later: ChunkRecord, status: ChunkStatus, checksum: Bytes,
                              replicas: seq<string>)
  {
    && later.status == status && later.checksum == checksum && later.replicas == replicas
    && later.chunkID == c.chunkID && later.fileID == c.fileID && later.chunkIndex == c.chunkIndex
    && later.size == c.size && later.version == c.version
  }

  /** `n` left the list once, at its first position. */
  ghost predicate LeftFirst(replicas: seq<string>, later: seq<string>, n: string) {
    exists i :: 0 <= i < |replicas| && LeftAt(replicas, later, n, i)
  }

  ghost predicate LeftAt(replicas: seq<string>, later: seq<string>, n: string, i: nat)
    requires i < |replicas|
  {
    n == replicas[i] && n !in replicas[..i] && later == replicas[..i] + replicas[i + 1..]
  }

  ghost predicate FileCreated(s: State, t: State, c: Command)
    requires c.CreateFile?
  {
    && t == s.(files := t.files, chunks := t.chunks)
    && t.files.Keys == s.files.Keys + {c.fileID} && (forall g :: g in s.files ==> t.files[g] == s.files[g])
    && (var f := t.files[c.fileID];
        && f.fileID == c.fileID && f.filename == c.filename && f.chunkIDs == c.chunkIDs
        && f.fileSize == c.fileSize && f.chunkSize == c.chunkSize && f.checksum == []
        && f.status == FileCreating && f.createdAt == c.at && f.updatedAt == ZERO_TIME)
    && t.chunks.Keys == s.chunks.Keys + ToSet(c.chunkIDs) && (forall k :: k in s.chunks ==> t.chunks[k] == s.chunks[k])
    && forall k :: k in c.chunkIDs ==> ChunkAllocatedFor(t.chunks[k], c.fileID, k, c.chunkIDs)
  }

  ghost predicate ChunkAllocatedFor(r: ChunkRecord, f: string, k: string, ids: seq<string>) {
    && r.chunkID == k && r.fileID == f && r.status == ChunkAllocated
    && r.checksum == [] && r.replicas == [] && r.size == 0 && r.version == 0
    && r.chunkIndex < |ids| && ids[r.chunkIndex] == k && forall j :: r.chunkIndex < j < |ids| ==> ids[j] != k
  }

  ghost predicate JobCreated(job: RepairJob, c: Command)
    requires c.CreateRepairJob?
  {
    && job.jobID == c.jobID && job.chunkID == c.chunkID && job.deleteSource == c.deleteSource
    && job.sourceNodeID == c.source && job.targetNodeID == c.target && job.status == JobPending
    && job.attempts == 0 && job.error == "" && job.createdAt == c.at && job.updatedAt == c.at
  }

  ghost predicate JobUpdated(job: RepairJob, later: RepairJob, c: Command)
    requires c.UpdateRepairJob?
  {
    && later.status == c.status && later.attempts == c.attempts && later.error == c.error && later.updatedAt == c.at
    && (c.source != "" ==> later.sourceNodeID == c.source)
    && (c.source == "" ==> later.sourceNodeID == job.sourceNodeID)
    && later.jobID == job.jobID && later.chunkID == job.chunkID && later.targetNodeID == job.targetNodeID
    && later.deleteSource == job.deleteSource && later.createdAt == job.createdAt
  }

  // ----- Families of commands -----

  ghost predicate NodeEffect(s: State, c: Command, t: State)
    requires IsNodeCommand(c)
  {
    && OnlyNode(s, t, c.nodeID)
    && match c
       case RegisterNode(n, _, _, _, _) => NodeRegistered(s, t.nodes[n], c)
       case DeregisterNode(n, at) => n in s.nodes && NodeMarked(s.nodes[n], t.nodes[n], NodeDraining, at)
       case MarkNodeDead(n, at) => n in s.nodes && NodeMarked(s.nodes[n], t.nodes[n], NodeDead, at)
       case MarkNodeAlive(n, at) => n in s.nodes && NodeMarked(s.nodes[n], t.nodes[n], NodeAlive, at)
       case UpdateNodeSpace(n, _, _, _) => n in s.nodes && NodeMeasured(s.nodes[n], t.nodes[n], c)
  }

  predicate IsFileCommand(c: Command) {
    c.CreateFile? || c.CommitFile? || c.DeleteFile?
  }

  ghost predicate FileEffect(s: State, c: Command, t: State)
    requires IsFileCommand(c)
  {
    match c
    case CreateFile(_, _, _, _, _, _) => FileCreated(s, t, c)
    case CommitFile(f, _, sum) => OnlyFile(s, t, f) && FileMarked(s.files[f], t.files[f], FileComplete, sum)
    case DeleteFile(f) => OnlyFile(s, t, f) && FileMarked(s.files[f], t.files[f], FileDeleted, s.files[f].checksum)
  }

  predicate IsChunkCommand(c: Command) {
    c.CommitChunk? || c.EvictChunkFromNode? || c.MarkChunkLost? || c.AddChunkReplica?
  }

  ghost predicate ChunkEffect(s: State, c: Command, picks: seq<string>, t: State)
    requires IsChunkCommand(c) && (c.CommitChunk? ==> |picks| == |c.nodeIDs|)
  {
    && OnlyChunk(s, t, c.chunkID)
    && var r, later := s.chunks[c.chunkID], t.chunks[c.chunkID];
       match c
       case CommitChunk(_, names, sum) =>
         ChunkMarked(r, later, ChunkComplete, sum, Normalize(s.nodes, names, picks))
       case EvictChunkFromNode(_, n) =>
         ChunkMarked(r, later, r.status, r.checksum, later.replicas) && LeftFirst(r.replicas, later.replicas, n)
       case MarkChunkLost(_) => ChunkMarked(r, later, ChunkLost, r.checksum, r.replicas)
       case AddChunkReplica(_, n) =>
         ChunkMarked(r, later, r.status, r.checksum, if n in r.replicas then r.replicas else r.replicas + [n])
  }

  ghost predicate OtherEffect(s: State, c: Command, t: State) {
    match c
    case CreateRepairJob(j, _, _, _, _, _) => OnlyJob(s, t, j) && JobCreated(t.jobs[j], c)
    case UpdateRepairJob(j, _, _, _, _, _) =>
      j in s.jobs && OnlyJob(s, t, j) && JobUpdated(s.jobs[j], t.jobs[j], c)
    case RegisterPeer(n, raft, grpc) =>
      && t == s.(peers := t.peers) && t.peers.Keys == s.peers.Keys + {raft}
      && (forall p :: p in s.peers && p != raft ==> t.peers[p] == s.peers[p])
      && t.peers[raft].nodeID == n && t.peers[raft].raftAddr == raft && t.peers[raft].grpcAddr == grpc
    case DeregisterPeer(_, raft) =>
      && t == s.(peers := t.peers) && t.peers.Keys == s.peers.Keys - {raft}
      && forall p :: p in t.peers ==> t.peers[p] == s.peers[p]
    case _ => false
  }

  /** What an accepted command achieves. */
  ghost predicate Effect(s: State, c: Command, picks: seq<string>, t: State)
    requires c.CommitChunk? ==> |picks| == |c.nodeIDs|
  {
    if IsNodeCommand(c) then NodeEffect(s, c, t)
    else if IsFileCommand(c) then FileEffect(s, c, t)
    else if IsChunkCommand(c) then ChunkEffect(s, c, picks, t)
    else OtherEffect(s, c, t)
  }

  // ----- Refusals -----

  ghost predicate Holds(s: State, k: string) {
    k in s.chunks && s.chunks[k].status == ChunkComplete
  }

  /** The command is refused for this reason. */
  ghost predicate Refused(s: State, c: Command, e: Error) {
    match c
    case RegisterNode(_, _, _, _, _) => false
    case DeregisterNode(n, _) => n !in s.nodes && e == NodeNotFound
    case MarkNodeDead(n, _) => n !in s.nodes && e == NodeNotFound
    case MarkNodeAlive(n, _) => n !in s.nodes && e == NodeNotFound
    case UpdateNodeSpace(n, _, _, _) => n !in s.nodes && e == NodeNotFound
    case CreateFile(f, _, ids, _, _, _) =>
      || (f in s.files && e == FileExists)
      || (f !in s.files && e == ChunkExists && exists k :: k in ids && k in s.chunks)
    case CommitFile(f, size, _) =>
      || (f !in s.files && e == FileNotFound)
      || (f in s.files && s.files[f].fileSize != size && e == SizeMismatch)
      || (f in s.files && s.files[f].fileSize == size && FirstObstacle(s, s.files[f].chunkIDs, e))
    case DeleteFile(f) => f !in s.files && e == FileNotFound
    case CommitChunk(k, _, _) =>
      || (k !in s.chunks && e == ChunkNotFound)
      || (k in s.chunks && e == ChunkAlreadyCommitted
          && (s.chunks[k].checksum != [] || s.chunks[k].status == ChunkComplete))
    case EvictChunkFromNode(k, n) =>
      || (k !in s.chunks && e == ChunkNotFound)
      || (k in s.chunks && n !in s.chunks[k].replicas && e == NotAReplica)
    case MarkChunkLost(k) => k !in s.chunks && e == ChunkNotFound
    case CreateRepairJob(j, _, _, _, _, _) => j in s.jobs && e == JobExists
    case UpdateRepairJob(j, _, _, _, _, _) => j !in s.jobs && e == JobNotFound
    case AddChunkReplica(k, _) => k !in s.chunks && e == ChunkNotFound
    case RegisterPeer(_, _, _) => false
    case DeregisterPeer(_, _) => false
    case Undecodable => e == UnknownCommand
  }

  /** The first chunk that is not complete is missing, or is not. */
  ghost predicate FirstObstacle(s: State, ids: seq<string>, e: Error) {
    exists i :: 0 <= i < |ids| && ObstacleAt(s, ids, e, i)
  }

  ghost predicate ObstacleAt(s: State, ids: seq<string>, e: Error, i: nat)
    requires i < |ids|
  {
    && !Holds(s, ids[i]) && (forall k :: 0 <= k < i ==> Holds(s, ids[k]))
    && e == if ids[i] in s.chunks then ChunkNotCommitted else ChunkNotFound
  }

  /** Either the command is accepted and achieves its effect, or it is refused for a reason that holds and changes
      nothing. */
  ghost predicate Does(s: State, c: Command, picks: seq<string>, r: StepResult)
    requires c.CommitChunk? ==> |picks| == |c.nodeIDs|
  {
    match r.outcome
    case Accepted => Effect(s, c, picks, r.state) && forall e :: !Refused(s, c, e)
    case Rejected(e) => Refused(s, c, e) && r.state == s
  }

  // ----- The proofs, family by family -----

  lemma NodeDoes(s: State, c: Command, picks: seq<string>)
    requires IsNodeCommand(c)
    ensures Does(s, c, picks, Apply(s, c, picks))
  {}

  lemma CreateAchieves(s: State, c: Command)
    requires c.CreateFile? && Create(s, c).outcome.Accepted?
    ensures FileCreated(s, Create(s, c).state, c)
  {
    StubsExact(s.chunks, c.fileID, c.chunkIDs);
    assert WithStubs(s.chunks, c.fileID, c.chunkIDs).Keys == s.chunks.Keys + ToSet(c.chunkIDs);
  }

  lemma CreateDoes(s: State, c: Command, picks: seq<string>)
    requires c.CreateFile?
    ensures Does(s, c, picks, Apply(s, c, picks))
  {
    if Create(s, c).outcome.Accepted? { CreateAchieves(s, c); }
    if exists i :: 0 <= i < |c.chunkIDs| && c.chunkIDs[i] in s.chunks {
      var i :| 0 <= i < |c.chunkIDs| && c.chunkIDs[i] in s.chunks;
      assert c.chunkIDs[i] in c.chunkIDs;
    }
  }

  lemma CommitDoes(s: State, c: Command, picks: seq<string>)
    requires c.CommitFile?
    ensures Does(s, c, picks, Apply(s, c, picks))
  {
    if c.fileID in s.files && s.files[c.fileID].fileSize == c.fileSize {
      var ids := s.files[c.fileID].chunkIDs;
      var i := FirstUncommitted(s, ids);
      assert forall k :: 0 <= k < |ids| ==> (CommittedAt(s, ids[k]) <==> Holds(s, ids[k]));
      if i < |ids| {
        assert ObstacleAt(s, ids, if ids[i] in s.chunks then ChunkNotCommitted else ChunkNotFound, i);
      }
    }
  }

  lemma DeleteDoes(s: State, c: Command, picks: seq<string>)
    requires c.DeleteFile?
    ensures Does(s, c, picks, Apply(s, c, picks))
  {}

  lemma EvictDoes(s: State, c: Command, picks: seq<string>)
    requires c.EvictChunkFromNode?
    ensures Does(s, c, picks, Apply(s, c, picks))
  {
    if c.chunkID in s.chunks && c.nodeID in s.chunks[c.chunkID].replicas {
      var replicas := s.chunks[c.chunkID].replicas;
      var i := IndexOf(replicas, c.nodeID);
      assert LeftAt(replicas, RemoveAt(replicas, i), c.nodeID, i);
    }
  }

  lemma ChunkDoes(s: State, c: Command, picks: seq<string>)
    requires IsChunkCommand(c) && !c.EvictChunkFromNode? && (c.CommitChunk? ==> |picks| == |c.nodeIDs|)
    ensures Does(s, c, picks, Apply(s, c, picks))
  {}

  lemma JobDoes(s: State, c: Command, picks: seq<string>)
    requires c.CreateRepairJob? || c.UpdateRepairJob?
    ensures Does(s, c, picks, Apply(s, c, picks))
  {}

  lemma PeerDoes(s: State, c: Command, picks: seq<string>)
    requires c.RegisterPeer? || c.DeregisterPeer? || c.Undecodable?
    ensures Does(s, c, picks, Apply(s, c, picks))
  {}

  /** Every command, in every state. */
  lemma EveryCommandDoes(s: State, c: Command, picks: seq<string>)
    requires c.CommitChunk? ==> |picks| == |c.nodeIDs|
    ensures Does(s, c, picks, Apply(s, c, picks))
  {
    if IsNodeCommand(c) {
      NodeDoes(s, c, picks);
    } else if c.CreateFile? {
      CreateDoes(s, c, picks);
    } else if c.CommitFile? {
      CommitDoes(s, c, picks);
    } else if c.DeleteFile? {
      DeleteDoes(s, c, picks);
    } else if c.EvictChunkFromNode? {
      EvictDoes(s, c, picks);
    } else if IsChunkCommand(c) {
      ChunkDoes(s, c, picks);
    } else if c.CreateRepairJob? || c.UpdateRepairJob? {
      JobDoes(s, c, picks);
    } else {
      PeerDoes(s, c, picks);
    }
  }

  // ----- Replica lists of commits -----

  /** Names reported later are recorded later: what a report records begins with what any first part of it records. */
  lemma {:induction false} RecordedInOrder(nodes: map<string, NodeEntry>, raw: seq<string>, picks: seq<string>, n: nat)
    requires |picks| == |raw| && n <= |raw|
    ensures Normalize(nodes, raw[..n], picks[..n]) <= Normalize(nodes, raw, picks)
    decreases |raw|
  {
    if n < |raw| {
      var m := |raw| - 1;
      RecordedInOrder(nodes, raw[..m], picks[..m], n);
      assert raw[..m][..n] == raw[..n] && picks[..m][..n] == picks[..n];
    } else {
      assert raw[..n] == raw && picks[..n] == picks;
    }
  }
}
