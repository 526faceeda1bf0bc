/** The mutable metadata state machine. Registries are fields that the handlers update; every
    handler is proved against the step function of module `Metadata`. */
module MetadataFsm {
  import opened Records
  import opened Seqs
  import opened Metadata
  import opened Structure
  import Replay

  class MetadataFSM {
    var files: map<string, FileRecord>
    var chunks: map<string, ChunkRecord>
    var nodes: map<string, NodeEntry>
    var jobs: map<string, RepairJob>
    var peers: map<string, PeerEntry>

    ghost function View(): State
      reads this
    {
      State(files, chunks, nodes, jobs, peers)
    }

    ghost predicate Valid()
      reads this
    {
      Inv(View())
    }

    constructor ()
      ensures View() == Empty && Valid()
    {
      files, chunks, nodes, jobs, peers := map[], map[], map[], map[], map[];
    }

    /** One committed log entry. */
    method Apply(c: Command) returns (outcome: Outcome, ghost picks: seq<string>)
      requires Valid()
      modifies this
      ensures LegalFor(old(View()), c, picks)
      ensures StepResult(View(), outcome) == Metadata.Apply(old(View()), c, picks)
      ensures Valid() && Evolves(old(View()), View())
    {
      outcome, picks := Dispatch(c);
      StepKeepsInv(old(View()), c, picks);
    }

    method Dispatch(c: Command) returns (outcome: Outcome, ghost picks: seq<string>)
      modifies this
      ensures LegalFor(old(View()), c, picks)
      ensures StepResult(View(), outcome) == Metadata.Apply(old(View()), c, picks)
    {
      outcome, picks := Accepted, [];
      if IsNodeCommand(c) {
        outcome := DispatchNode(c);
        return;
      }
      match c {
        case CreateFile(_, _, _, _, _, _) => outcome := HandleCreateFile(c);
        case CommitFile(_, _, _) => outcome := HandleCommitFile(c);
        case DeleteFile(f) => outcome := HandleDeleteFile(f);
        case CommitChunk(_, _, _) => outcome, picks := HandleCommitChunk(c);
        case EvictChunkFromNode(chunk, n) => outcome := HandleEvict(chunk, n);
        case MarkChunkLost(chunk) => outcome := HandleMarkLost(chunk);
        case CreateRepairJob(_, _, _, _, _, _) => outcome := HandleCreateJob(c);
        case UpdateRepairJob(_, _, _, _, _, _) => outcome := HandleUpdateJob(c);
        case AddChunkReplica(chunk, n) => outcome := HandleAddReplica(chunk, n);
        case RegisterPeer(n, raft, grpc) => peers := peers[raft := PeerEntry(n, raft, grpc)];
        case DeregisterPeer(_, raft) => peers := peers - {raft};
        case Undecodable => outcome := Rejected(UnknownCommand);
      }
    }

    method DispatchNode(c: Command) returns (outcome: Outcome)
      requires IsNodeCommand(c)
      modifies this`nodes
      ensures StepResult(View(), outcome) == Metadata.Apply(old(View()), c, [])
    {
      outcome := Accepted;
      match c {
        case RegisterNode(_, _, _, _, _) => HandleRegisterNode(c);
        case DeregisterNode(n, at) => outcome := SetStatus(n, NodeDraining, at);
        case MarkNodeDead(n, at) => outcome := SetStatus(n, NodeDead, at);
        case MarkNodeAlive(n, at) => outcome := SetStatus(n, NodeAlive, at);
        case UpdateNodeSpace(_, _, _, _) => outcome := HandleUpdateNodeSpace(c);
      }
    }

    /** Proposing through consensus: the command is applied before the call returns. Commits of
        chunks go through `Apply`, because they also report how replica names were resolved. */
    method Propose(c: Command) returns (outcome: Outcome)
      requires Valid() && !c.CommitChunk?
      modifies this
      ensures StepResult(View(), outcome) == Metadata.Apply(old(View()), c, [])
      ensures Valid() && Evolves(old(View()), View())
    {
      ghost var picks;
      outcome, picks := Apply(c);
      BlindToPicks(old(View()), c, picks);
    }

    // ----- Node handlers -----

    method HandleRegisterNode(c: Command)
      requires c.RegisterNode?
      modifies this`nodes
      ensures View() == Register(old(View()), c).state
    {
      if c.nodeID in nodes {
        var known := nodes[c.nodeID];
        nodes := nodes[c.nodeID := known.(address := c.address, status := NodeAlive, freeSpace := c.freeSpace,
                                          chunkCount := c.chunkCount, updatedAt := c.at)];
      } else {
        var entry := NodeEntry(c.nodeID, c.address, NodeAlive, c.freeSpace, c.chunkCount, c.at, c.at, c.at);
        nodes := nodes[c.nodeID := entry];
      }
    }

    method SetStatus(n: string, status: NodeStatus, at: Time) returns (outcome: Outcome)
      modifies this`nodes
      ensures StepResult(View(), outcome) == SetNodeStatus(old(View()), n, status, at)
    {
      if n !in nodes { return Rejected(NodeNotFound); }
      var node := nodes[n].(status := status);
      if node.updatedAt < at { node := node.(updatedAt := at); }
      nodes := nodes[n := node];
      return Accepted;
    }

    method HandleUpdateNodeSpace(c: Command) returns (outcome: Outcome)
      requires c.UpdateNodeSpace?
      modifies this`nodes
      ensures StepResult(View(), outcome) == SetNodeSpace(old(View()), c)
    {
      if c.nodeID !in nodes { return Rejected(NodeNotFound); }
      var node := nodes[c.nodeID].(freeSpace := c.freeSpace, chunkCount := c.chunkCount);
      if node.updatedAt < c.at { node := node.(updatedAt := c.at); }
      nodes := nodes[c.nodeID := node];
      return Accepted;
    }

    /** Heartbeats bypass the log. */
    method UpdateLastSeen(n: string, at: Time) returns (known: bool)
      modifies this`nodes
      ensures known == (n in old(nodes)) && View() == Replay.Seen(old(View()), n, at)
      ensures nodes.Keys == old(nodes).Keys && (known ==> nodes[n] == old(nodes)[n].(lastSeen := at))
      ensures forall m :: m in nodes && m != n ==> nodes[m] == old(nodes)[m]
    {
      known := n in nodes;
      if known { nodes := nodes[n := nodes[n].(lastSeen := at)]; }
    }

    // ----- Snapshot and restore -----

    /** A point-in-time copy, as written to a snapshot. */
    method Persist() returns (p: Replay.Persisted)
      ensures p == Replay.Persist(View())
    {
      p := Replay.Persisted(files, chunks, map n | n in nodes :: Replay.EncodeNode(nodes[n]), jobs, peers);
    }

    /** Replaces every registry by what a snapshot holds. */
    method Restore(p: Replay.Persisted)
      modifies this
      ensures View() == Replay.Restore(p)
      ensures forall s :: Inv(s) && p == Replay.Persist(s) ==> Valid()
    {
      files, chunks, jobs, peers := p.files, p.chunks, p.jobs, p.peers;
      nodes := map n | n in p.nodes :: Replay.DecodeNode(p.nodes[n]);
      forall s | Inv(s) && p == Replay.Persist(s) ensures Valid() {
        Replay.RestoredIsWellFormed(s);
      }
    }

    // ----- File handlers -----

    /** Two passes over the chunk ids: look for collisions, then insert every stub. */
    method HandleCreateFile(c: Command) returns (outcome: Outcome)
      requires c.CreateFile?
      modifies this`files, this`chunks
      ensures StepResult(View(), outcome) == Create(old(View()), c)
    {
      if c.fileID in files { return Rejected(FileExists); }
      var i := 0;
      while i < |c.chunkIDs|
        invariant 0 <= i <= |c.chunkIDs|
        invariant forall k :: 0 <= k < i ==> c.chunkIDs[k] !in chunks
      {
        if c.chunkIDs[i] in chunks { return Rejected(ChunkExists); }
        i := i + 1;
      }
      i := 0;
      while i < |c.chunkIDs|
        invariant 0 <= i <= |c.chunkIDs|
        invariant files == old(files)
        invariant chunks == WithStubs(old(chunks), c.fileID, c.chunkIDs[..i])
      {
        chunks := chunks[c.chunkIDs[i] := Stub(c.fileID, c.chunkIDs[i], i)];
        i := i + 1;
        assert c.chunkIDs[..i][..i - 1] == c.chunkIDs[..i - 1];
      }
      assert c.chunkIDs[..i] == c.chunkIDs;
      files := files[c.fileID := FileRecord(c.fileID, c.filename, c.fileSize, c.chunkSize, [], c.chunkIDs,
                                            FileCreating, c.at, ZERO_TIME)];
      return Accepted;
    }

    /** Every chunk of the file must be complete before the file can be. */
    method HandleCommitFile(c: Command) returns (outcome: Outcome)
      requires c.CommitFile?
      modifies this`files
      ensures StepResult(View(), outcome) == Commit(old(View()), c)
    {
      if c.fileID !in files { return Rejected(FileNotFound); }
      var file := files[c.fileID];
      if file.fileSize != c.fileSize { return Rejected(SizeMismatch); }
      var i := 0;
      while i < |file.chunkIDs|
        invariant 0 <= i <= |file.chunkIDs|
        invariant forall k :: 0 <= k < i ==> CommittedAt(View(), file.chunkIDs[k])
      {
        if file.chunkIDs[i] !in chunks {
          assert !CommittedAt(View(), file.chunkIDs[i]);
          return Rejected(ChunkNotFound);
        }
        if chunks[file.chunkIDs[i]].status != ChunkComplete {
          assert !CommittedAt(View(), file.chunkIDs[i]);
          return Rejected(ChunkNotCommitted);
        }
        i := i + 1;
      }
      files := files[c.fileID := file.(checksum := c.checksum, status := FileComplete)];
      return Accepted;
    }

    method HandleDeleteFile(f: string) returns (outcome: Outcome)
      modifies this`files
      ensures StepResult(View(), outcome) == Delete(old(View()), f)
    {
      if f !in files { return Rejected(FileNotFound); }
      files := files[f := files[f].(status := FileDeleted)];
      return Accepted;
    }

    // ----- Chunk handlers -----

    method HandleCommitChunk(c: Command) returns (outcome: Outcome, ghost picks: seq<string>)
      requires c.CommitChunk?
      modifies this`chunks
      ensures LegalPicks(nodes, c.nodeIDs, picks)
      ensures StepResult(View(), outcome) == FinaliseChunk(old(View()), c, picks)
    {
      var replicas;
      replicas, picks := NormalizeReplicaNodeIDs(c.nodeIDs);
      if c.chunkID !in chunks { return Rejected(ChunkNotFound), picks; }
      var chunk := chunks[c.chunkID];
      if |chunk.checksum| == 0 && chunk.status != ChunkComplete {
        chunks := chunks[c.chunkID := chunk.(status := ChunkComplete, checksum := c.checksum, replicas := replicas)];
        return Accepted, picks;
      }
      return Rejected(ChunkAlreadyCommitted), picks;
    }

    /** Turns reported names into node ids; a name that is neither a node id nor an address is kept. */
    method NormalizeReplicaNodeIDs(raw: seq<string>) returns (normalized: seq<string>, ghost picks: seq<string>)
      ensures LegalPicks(nodes, raw, picks)
      ensures normalized == Normalize(nodes, raw, picks) && NoDup(normalized)
    {
      normalized, picks := [], [];
      var seen: set<string> := {};
      var i := 0;
      while i < |raw|
        invariant 0 <= i <= |raw|
        invariant LegalPicks(nodes, raw[..i], picks)
        invariant normalized == Normalize(nodes, raw[..i], picks)
        invariant seen == ToSet(normalized)
      {
        ghost var pick;
        normalized, seen, pick := KeepEntry(raw[i], normalized, seen);
        NormalizeSnoc(nodes, raw[..i], picks, raw[i], pick);
        assert raw[..i + 1] == raw[..i] + [raw[i]];
        picks := picks + [pick];
        i := i + 1;
      }
      assert raw[..i] == raw;
      NormalizeNoDup(nodes, raw, picks);
    }

    method KeepEntry(entry: string, normalized: seq<string>, seen: set<string>)
      returns (normalized': seq<string>, seen': set<string>, ghost pick: string)
      requires seen == ToSet(normalized)
      ensures LegalPick(nodes, entry, pick)
      ensures normalized' == normalized + Kept(nodes, entry, pick, normalized)
      ensures seen' == ToSet(normalized')
    {
      var resolved := FindByAddress(entry);
      pick := resolved;
      if entry in seen { return normalized, seen, pick; }
      if entry in nodes || resolved == "" { return normalized + [entry], seen + {entry}, pick; }
      if resolved in seen { return normalized, seen, pick; }
      return normalized + [resolved], seen + {resolved}, pick;
    }

    /** Scans the registry in an unspecified order; empty when no node has the address. */
    method FindByAddress(address: string) returns (id: string)
      ensures LegalPick(nodes, address, id)
    {
      var rest := nodes.Keys;
      while rest != {}
        invariant rest <= nodes.Keys
        invariant forall k :: k in nodes && k !in rest ==> nodes[k].address != address
      {
        var k :| k in rest;
        if nodes[k].address == address { return nodes[k].nodeID; }
        rest := rest - {k};
      }
      return "";
    }

    method HandleEvict(chunkID: string, n: string) returns (outcome: Outcome)
      modifies this`chunks
      ensures StepResult(View(), outcome) == Evict(old(View()), chunkID, n)
    {
      if chunkID !in chunks { return Rejected(ChunkNotFound); }
      var chunk := chunks[chunkID];
      var i := 0;
      while i < |chunk.replicas| && chunk.replicas[i] != n
        invariant 0 <= i <= |chunk.replicas|
        invariant forall k :: 0 <= k < i ==> chunk.replicas[k] != n
      {
        i := i + 1;
      }
      if i == |chunk.replicas| { return Rejected(NotAReplica); }
      chunks := chunks[chunkID := chunk.(replicas := chunk.replicas[..i] + chunk.replicas[i + 1..])];
      return Accepted;
    }

    method HandleMarkLost(chunkID: string) returns (outcome: Outcome)
      modifies this`chunks
      ensures StepResult(View(), outcome) == MarkLost(old(View()), chunkID)
    {
      if chunkID !in chunks { return Rejected(ChunkNotFound); }
      chunks := chunks[chunkID := chunks[chunkID].(status := ChunkLost)];
      return Accepted;
    }

    method HandleAddReplica(chunkID: string, n: string) returns (outcome: Outcome)
      modifies this`chunks
      ensures StepResult(View(), outcome) == AddReplica(old(View()), chunkID, n)
    {
      if chunkID !in chunks { return Rejected(ChunkNotFound); }
      var chunk := chunks[chunkID];
      var i := 0;
      while i < |chunk.replicas|
        invariant 0 <= i <= |chunk.replicas|
        invariant n !in chunk.replicas[..i]
      {
        if chunk.replicas[i] == n { return Accepted; }
        i := i + 1;
      }
      chunks := chunks[chunkID := chunk.(replicas := chunk.replicas + [n])];
      return Accepted;
    }

    // ----- Repair-job handlers -----

    method HandleCreateJob(c: Command) returns (outcome: Outcome)
      requires c.CreateRepairJob?
      modifies this`jobs
      ensures StepResult(View(), outcome) == CreateJob(old(View()), c)
    {
      if c.jobID in jobs { return Rejected(JobExists); }
      jobs := jobs[c.jobID := RepairJob(c.jobID, c.chunkID, "", c.deleteSource, c.source, c.target,
                                        JobPending, 0, c.at, c.at)];
      return Accepted;
    }

    method HandleUpdateJob(c: Command) returns (outcome: Outcome)
      requires c.UpdateRepairJob?
      modifies this`jobs
      ensures StepResult(View(), outcome) == UpdateJob(old(View()), c)
    {
      if c.jobID !in jobs { return Rejected(JobNotFound); }
      var job := jobs[c.jobID].(status := c.status, updatedAt := c.at, error := c.error, attempts := c.attempts);
      if c.source != "" { job := job.(sourceNodeID := c.source); }
      jobs := jobs[c.jobID := job];
      return Accepted;
    }

    // ----- Reads -----

    /** The entries of a chunk's live replicas, in replica order. */
    method GetChunkLocations(chunkID: string) returns (found: bool, live: seq<NodeEntry>)
      requires Valid()
      ensures found == (chunkID in chunks)
      ensures found ==> Ids(live) == LiveOf(View(), chunkID)
      ensures forall n :: n in live ==> n.nodeID in nodes && n == nodes[n.nodeID]
      ensures found ==> forall r :: r in Ids(live) <==>
                          r in chunks[chunkID].replicas && r in nodes && nodes[r].status != NodeDead
    {
      live := [];
      found := chunkID in chunks;
      if found { live := LiveEntries(nodes, chunks[chunkID].replicas); }
    }

    static method LiveEntries(nodes: map<string, NodeEntry>, replicas: seq<string>) returns (live: seq<NodeEntry>)
      requires forall n :: n in nodes ==> nodes[n].nodeID == n
      ensures Ids(live) == LiveReplicas(nodes, replicas)
      ensures forall n :: n in live ==> n.nodeID in nodes && n == nodes[n.nodeID]
    {
      live := [];
      for i := 0 to |replicas|
        invariant Ids(live) == LiveReplicas(nodes, replicas[..i])
        invariant forall n :: n in live ==> n.nodeID in nodes && n == nodes[n.nodeID]
      {
        FilterNext(replicas, i, IsLive(nodes));
        if replicas[i] in nodes && nodes[replicas[i]].status != NodeDead {
          IdsSnoc(live, nodes[replicas[i]]);
          live := live + [nodes[replicas[i]]];
        }
      }
      TakeAll(replicas);
    }

    /** The chunks that list a node, each once, in the registry's unspecified order. */
    method GetChunksByNode(n: string) returns (ids: seq<string>)
      requires Valid()
      ensures NoDup(ids)
      ensures forall c :: c in ids <==> IsReplica(View(), c, n)
    {
      ids := [];
      var rest := chunks.Keys;
      while rest != {}
        invariant rest <= chunks.Keys && NoDup(ids)
        invariant forall c :: c in ids <==> c !in rest && IsReplica(View(), c, n)
      {
        var c :| c in rest;
        assert ChunkOk(files, c, chunks[c]);
        if n in chunks[c].replicas { ids := ids + [chunks[c].chunkID]; }
        rest := rest - {c};
      }
    }

    /** The alive nodes, each once, in the registry's unspecified order. */
    method GetLiveNodes() returns (alive: seq<NodeEntry>)
      requires Valid()
      ensures NoDup(Ids(alive))
      ensures forall n :: n in alive <==> n.nodeID in nodes && n == nodes[n.nodeID] && n.status == NodeAlive
    {
      alive := [];
      var rest := nodes.Keys;
      while rest != {}
        invariant rest <= nodes.Keys && NoDup(Ids(alive))
        invariant forall n :: n in alive <==>
                    n.nodeID in nodes && n.nodeID !in rest && n == nodes[n.nodeID] && n.status == NodeAlive
      {
        var k :| k in rest;
        if nodes[k].status == NodeAlive { alive := alive + [nodes[k]]; }
        rest := rest - {k};
      }
    }

    /** Every node entry, each once, in the registry's unspecified order. */
    method GetAllNodes() returns (all: seq<NodeEntry>)
      requires Valid()
      ensures NoDup(Ids(all))
      ensures forall n :: n in all <==> n.nodeID in nodes && n == nodes[n.nodeID]
    {
      all := [];
      var rest := nodes.Keys;
      while rest != {}
        invariant rest <= nodes.Keys && NoDup(Ids(all))
        invariant forall n :: n in all <==> n.nodeID in nodes && n.nodeID !in rest && n == nodes[n.nodeID]
      {
        var k :| k in rest;
        all := all + [nodes[k]];
        rest := rest - {k};
      }
    }

    /** Copies of all jobs with a given status, each once. */
    method GetJobsByStatus(status: RepairStatus) returns (found: seq<RepairJob>)
      requires Valid()
      ensures forall i, j :: 0 <= i < j < |found| ==> found[i].jobID != found[j].jobID
      ensures forall j :: j in found <==> j.jobID in jobs && j == jobs[j.jobID] && j.status == status
    {
      found := [];
      var rest := jobs.Keys;
      while rest != {}
        invariant rest <= jobs.Keys
        invariant forall i, j :: 0 <= i < j < |found| ==> found[i].jobID != found[j].jobID
        invariant forall j :: j in found <==>
                    j.jobID in jobs && j.jobID !in rest && j == jobs[j.jobID] && j.status == status
      {
        var k :| k in rest;
        if jobs[k].status == status { found := found + [jobs[k]]; }
        rest := rest - {k};
      }
    }
  }

  lemma NormalizeSnoc(nodes: map<string, NodeEntry>, raw: seq<string>, picks: seq<string>, entry: string, pick: string)
    requires LegalPicks(nodes, raw, picks) && LegalPick(nodes, entry, pick)
    ensures LegalPicks(nodes, raw + [entry], picks + [pick])
    ensures Normalize(nodes, raw + [entry], picks + [pick]) ==
            Normalize(nodes, raw, picks) + Kept(nodes, entry, pick, Normalize(nodes, raw, picks))
  {
    assert (raw + [entry])[..|raw|] == raw && (picks + [pick])[..|raw|] == picks;
  }

  lemma BlindToPicks(s: State, c: Command, picks: seq<string>)
    requires !c.CommitChunk?
    ensures Metadata.Apply(s, c, picks) == Metadata.Apply(s, c, [])
  {}
}
