/** What every command keeps, and therefore what holds after every log. */
module Structure {
  import opened Records
  import opened Seqs
  import opened Metadata

  // ----- The inductive invariant -----

  ghost predicate IsLastPosition(ids: seq<string>, id: string, k: nat) {
    && k < |ids| && ids[k] == id
    && forall j :: k < j < |ids| ==> ids[j] != id
  }

  /** A file record sits under its own id, every id it lists has a chunk record owned by the file,
      and none of them is merely allocated once the file is complete. */
  ghost predicate FileOk(chunks: map<string, ChunkRecord>, f: string, file: FileRecord) {
    && file.fileID == f
    && forall i :: 0 <= i < |file.chunkIDs| ==>
         && file.chunkIDs[i] in chunks
         && chunks[file.chunkIDs[i]].fileID == f
         && (file.status == FileComplete ==> chunks[file.chunkIDs[i]].status != ChunkAllocated)
  }

  /** A chunk record sits under its own id, its owner lists it last at the recorded index, its
      replica list is a set, and no command ever records a size for it. */
  ghost predicate ChunkOk(files: map<string, FileRecord>, c: string, chunk: ChunkRecord) {
    && chunk.chunkID == c
    && chunk.size == 0
    && NoDup(chunk.replicas)
    && chunk.fileID in files
    && IsLastPosition(files[chunk.fileID].chunkIDs, c, chunk.chunkIndex)
  }

  ghost predicate OthersOk(s: State) {
    && (forall n :: n in s.nodes ==> s.nodes[n].nodeID == n)
    && (forall j :: j in s.jobs ==> s.jobs[j].jobID == j)
    && (forall p :: p in s.peers ==> s.peers[p].raftAddr == p)
  }

  ghost predicate Inv(s: State) {
    && (forall f :: f in s.files ==> FileOk(s.chunks, f, s.files[f]))
    && (forall c :: c in s.chunks ==> ChunkOk(s.files, c, s.chunks[c]))
    && OthersOk(s)
  }

  // ----- What a command may do to existing records -----

  /** `later` is a possible future of `s`: nothing is forgotten, identities, file geometry, job orders and
      registration instants are immutable, a recorded checksum is final and no chunk returns to allocated. */
  ghost predicate Evolves(s: State, later: State) {
    && (forall f :: f in s.files ==> f in later.files && FileEvolves(s.files[f], later.files[f]))
    && (forall c :: c in s.chunks ==> c in later.chunks && ChunkEvolves(s.chunks[c], later.chunks[c]))
    && (forall j :: j in s.jobs ==> j in later.jobs && JobEvolves(s.jobs[j], later.jobs[j]))
    && (forall n :: n in s.nodes ==> n in later.nodes && NodeEvolves(s.nodes[n], later.nodes[n]))
  }

  /** No command of the log moves a registration instant or a heartbeat. */
  ghost predicate NodeEvolves(n: NodeEntry, later: NodeEntry) {
    later.registeredAt == n.registeredAt && later.lastSeen == n.lastSeen
  }

  ghost predicate FileEvolves(f: FileRecord, later: FileRecord) {
    later.chunkIDs == f.chunkIDs && later.fileSize == f.fileSize && later.chunkSize == f.chunkSize
  }

  ghost predicate ChunkEvolves(c: ChunkRecord, later: ChunkRecord) {
    && later.fileID == c.fileID
    && later.chunkIndex == c.chunkIndex
    && (|c.checksum| > 0 ==> later.checksum == c.checksum)
    && (c.status != ChunkAllocated ==> later.status != ChunkAllocated)
  }

  ghost predicate JobEvolves(j: RepairJob, later: RepairJob) {
    && later.chunkID == j.chunkID && later.targetNodeID == j.targetNodeID && later.deleteSource == j.deleteSource
    && later.createdAt == j.createdAt
  }

  ghost predicate Preserved(s: State, t: State) {
    Inv(t) && Evolves(s, t)
  }

  lemma EvolvesTransitive(a: State, b: State, c: State)
    requires Evolves(a, b) && Evolves(b, c)
    ensures Evolves(a, c)
  {
    forall k | k in a.chunks ensures k in c.chunks && ChunkEvolves(a.chunks[k], c.chunks[k]) {
      assert ChunkEvolves(b.chunks[k], c.chunks[k]);
    }
    forall f | f in a.files ensures f in c.files && FileEvolves(a.files[f], c.files[f]) {
      assert FileEvolves(b.files[f], c.files[f]);
    }
    forall j | j in a.jobs ensures j in c.jobs && JobEvolves(a.jobs[j], c.jobs[j]) {
      assert JobEvolves(b.jobs[j], c.jobs[j]);
    }
    forall n | n in a.nodes ensures n in c.nodes && NodeEvolves(a.nodes[n], c.nodes[n]) {
      assert NodeEvolves(b.nodes[n], c.nodes[n]);
    }
  }

  // ----- Normalised replica lists -----

  lemma {:induction false} NormalizeNoDup(nodes: map<string, NodeEntry>, raw: seq<string>, picks: seq<string>)
    requires |picks| == |raw|
    ensures NoDup(Normalize(nodes, raw, picks))
  {
    if |raw| > 0 {
      NormalizeNoDup(nodes, raw[..|raw| - 1], picks[..|raw| - 1]);
    }
  }

  /** Every recorded name is the resolution of a reported entry, and every reported entry is recorded. */
  ghost predicate RecordsExactly(nodes: map<string, NodeEntry>, raw: seq<string>, picks: seq<string>)
    requires |picks| == |raw|
  {
    forall x :: x in Normalize(nodes, raw, picks) <==>
      exists i :: 0 <= i < |raw| && x == Resolved(nodes, raw[i], picks[i])
  }

  ghost predicate IdsMatch(nodes: map<string, NodeEntry>) {
    forall n :: n in nodes ==> nodes[n].nodeID == n
  }

  /** No node with an empty id, which reads like a failed lookup, shares an address that must be looked up. */
  ghost predicate NoUnnamedTwin(nodes: map<string, NodeEntry>) {
    "" in nodes && nodes[""].address !in nodes ==>
      forall k :: k in nodes && nodes[k].address == nodes[""].address ==> k == ""
  }

  lemma {:induction false} NormalizeExact(nodes: map<string, NodeEntry>, raw: seq<string>, picks: seq<string>)
    requires LegalPicks(nodes, raw, picks) && IdsMatch(nodes) && NoUnnamedTwin(nodes)
    ensures RecordsExactly(nodes, raw, picks)
  {
    if |raw| > 0 {
      var n := |raw| - 1;
      var raw0, picks0 := raw[..n], picks[..n];
      NormalizeExact(nodes, raw0, picks0);
      var acc, all := Normalize(nodes, raw0, picks0), Normalize(nodes, raw, picks);
      assert forall i :: 0 <= i < n ==> raw0[i] == raw[i] && picks0[i] == picks[i];
      forall i | 0 <= i < |raw| ensures Resolved(nodes, raw[i], picks[i]) in all {
        if i < n {
          assert Resolved(nodes, raw0[i], picks0[i]) in acc;
        } else if raw[n] in acc {
          // an accumulated name is a node id or is its own resolution
          var k :| 0 <= k < n && raw[n] == Resolved(nodes, raw0[k], picks0[k]);
          UnresolvedIsItself(nodes, raw, picks, k);
        }
      }
      forall x | x in all ensures exists i :: 0 <= i < |raw| && x == Resolved(nodes, raw[i], picks[i]) {
        if x in acc {
          var i :| 0 <= i < n && x == Resolved(nodes, raw0[i], picks0[i]);
          assert x == Resolved(nodes, raw[i], picks[i]);
        } else {
          assert x == Resolved(nodes, raw[n], picks[n]);
        }
      }
    }
  }

  lemma UnresolvedIsItself(nodes: map<string, NodeEntry>, raw: seq<string>, picks: seq<string>, k: nat)
    requires LegalPicks(nodes, raw, picks) && |raw| > 0 && k < |raw| - 1
    requires IdsMatch(nodes) && NoUnnamedTwin(nodes)
    requires raw[|raw| - 1] == Resolved(nodes, raw[k], picks[k])
    ensures Resolved(nodes, raw[|raw| - 1], picks[|raw| - 1]) == raw[|raw| - 1]
  {
    var e := raw[|raw| - 1];
    if e !in nodes {
      assert raw[k] !in nodes;
      assert LegalPick(nodes, raw[k], picks[k]);
      assert picks[k] == "" && e == raw[k];
      assert LegalPick(nodes, e, picks[|raw| - 1]);
    }
  }

  /** Normalisation records exactly the resolutions, whatever is reported and in whatever order registries are
      scanned, if and only if no unnamed node shares an address that must be looked up. */
  lemma NormalizeExactIff(nodes: map<string, NodeEntry>)
    requires IdsMatch(nodes)
    ensures (forall raw, picks :: LegalPicks(nodes, raw, picks) ==> RecordsExactly(nodes, raw, picks))
            <==> NoUnnamedTwin(nodes)
  {
    if NoUnnamedTwin(nodes) {
      forall raw, picks | LegalPicks(nodes, raw, picks) ensures RecordsExactly(nodes, raw, picks) {
        NormalizeExact(nodes, raw, picks);
      }
    } else {
      var k :| k in nodes && nodes[k].address == nodes[""].address && k != "";
      TwinIsLost(nodes, nodes[""].address, k);
    }
  }

  /** Reported twice, such an address is recorded as it is the first time and then counts as known. */
  lemma TwinIsLost(nodes: map<string, NodeEntry>, address: string, k: string)
    requires IdsMatch(nodes) && address !in nodes && "" in nodes && nodes[""].address == address
    requires k in nodes && nodes[k].address == address && k != ""
    ensures LegalPicks(nodes, [address, address], ["", k]) && !RecordsExactly(nodes, [address, address], ["", k])
  {
    var raw, picks := [address, address], ["", k];
    assert LegalPick(nodes, address, "") && LegalPick(nodes, address, k);
    assert raw[..1] == [address] && picks[..1] == [""] && [address][..0] == [] && [""][..0] == [];
    assert Normalize(nodes, [address], [""]) == [address];
    assert Normalize(nodes, raw, picks) == [address];
    assert k !in Normalize(nodes, raw, picks) && k == Resolved(nodes, raw[1], picks[1]);
  }

  // ----- One command -----

  lemma {:induction false} StubsExact(chunks: map<string, ChunkRecord>, fileID: string, ids: seq<string>)
    ensures forall c :: c in WithStubs(chunks, fileID, ids) <==> c in chunks || c in ids
    ensures forall c :: c in chunks && c !in ids ==> WithStubs(chunks, fileID, ids)[c] == chunks[c]
    ensures forall c :: c in ids ==>
              var r := WithStubs(chunks, fileID, ids)[c];
              r == Stub(fileID, c, r.chunkIndex) && IsLastPosition(ids, c, r.chunkIndex)
  {
    if |ids| > 0 {
      var n := |ids| - 1;
      assert ids == ids[..n] + [ids[n]];
      StubsExact(chunks, fileID, ids[..n]);
    }
  }

  /** Records that were well formed stay so when a file is added beside them. */
  lemma ChunksStayOk(s: State, f: string, file: FileRecord)
    requires Inv(s) && f !in s.files
    ensures forall k :: k in s.chunks ==> ChunkOk(s.files[f := file], k, s.chunks[k])
  {
    forall k | k in s.chunks ensures ChunkOk(s.files[f := file], k, s.chunks[k]) {
      assert ChunkOk(s.files, k, s.chunks[k]);
    }
  }

  lemma FilesStayOk(s: State, chunks: map<string, ChunkRecord>)
    requires Inv(s)
    requires forall k :: k in s.chunks ==> k in chunks && ChunkEvolves(s.chunks[k], chunks[k])
    ensures forall g :: g in s.files ==> FileOk(chunks, g, s.files[g])
  {
    forall g | g in s.files ensures FileOk(chunks, g, s.files[g]) {
      assert FileOk(s.chunks, g, s.files[g]);
    }
  }

  lemma FilesStayOkBeside(s: State, chunks: map<string, ChunkRecord>)
    requires Inv(s)
    requires forall k :: k in s.chunks ==> k in chunks && chunks[k] == s.chunks[k]
    ensures forall g :: g in s.files ==> FileOk(chunks, g, s.files[g])
  {
    FilesStayOk(s, chunks);
  }

  /** Adding a file together with records for chunks nobody owns keeps everything. */
  lemma AddFile(s: State, f: string, file: FileRecord, chunks: map<string, ChunkRecord>)
    requires Inv(s) && f !in s.files
    requires forall k :: k in s.chunks ==> k in chunks && chunks[k] == s.chunks[k]
    requires FileOk(chunks, f, file)
    requires forall k :: k in chunks && k !in s.chunks ==> ChunkOk(s.files[f := file], k, chunks[k])
    ensures Preserved(s, s.(chunks := chunks, files := s.files[f := file]))
  {
    ChunksStayOk(s, f, file);
    FilesStayOkBeside(s, chunks);
  }

  lemma CreateKeepsInv(s: State, c: Command)
    requires Inv(s) && c.CreateFile? && Create(s, c).outcome.Accepted?
    ensures Preserved(s, Create(s, c).state)
  {
    var t := Create(s, c).state;
    CreateKeepsRecords(s, c);
    AddFile(s, c.fileID, t.files[c.fileID], t.chunks);
  }

  lemma CreateKeepsRecords(s: State, c: Command)
    requires c.CreateFile? && Create(s, c).outcome.Accepted?
    ensures var t := Create(s, c).state;
            && (forall k :: k in s.chunks ==> k in t.chunks && t.chunks[k] == s.chunks[k])
            && (forall k :: k in t.chunks && k !in s.chunks ==>
                  k in c.chunkIDs
                  && t.chunks[k] == Stub(c.fileID, k, t.chunks[k].chunkIndex)
                  && IsLastPosition(c.chunkIDs, k, t.chunks[k].chunkIndex))
            && (forall i :: 0 <= i < |c.chunkIDs| ==> c.chunkIDs[i] in t.chunks && c.chunkIDs[i] !in s.chunks)
  {
    StubsExact(s.chunks, c.fileID, c.chunkIDs);
  }

  /** Replacing one chunk record by a well-formed evolution of itself keeps everything. */
  lemma ReplaceChunk(s: State, c: string, chunk: ChunkRecord)
    requires Inv(s) && c in s.chunks
    requires ChunkEvolves(s.chunks[c], chunk) && NoDup(chunk.replicas)
    requires chunk.chunkID == s.chunks[c].chunkID && chunk.size == s.chunks[c].size
    ensures Preserved(s, s.(chunks := s.chunks[c := chunk]))
  {
    assert ChunkOk(s.files, c, s.chunks[c]);
    FilesStayOk(s, s.chunks[c := chunk]);
  }

  /** Replacing one file record by a well-formed one of the same geometry keeps everything. */
  lemma ReplaceFile(s: State, f: string, file: FileRecord)
    requires Inv(s) && f in s.files
    requires FileEvolves(s.files[f], file) && FileOk(s.chunks, f, file)
    ensures Preserved(s, s.(files := s.files[f := file]))
  {
    var t := s.(files := s.files[f := file]);
    forall k | k in t.chunks ensures ChunkOk(t.files, k, t.chunks[k]) {
      assert ChunkOk(s.files, k, s.chunks[k]);
    }
  }

  lemma ReplaceNode(s: State, n: string, entry: NodeEntry)
    requires Inv(s) && entry.nodeID == n && (n in s.nodes ==> NodeEvolves(s.nodes[n], entry))
    ensures Preserved(s, s.(nodes := s.nodes[n := entry]))
  {}

  lemma ReplaceJob(s: State, j: string, job: RepairJob)
    requires Inv(s) && job.jobID == j && (j in s.jobs ==> JobEvolves(s.jobs[j], job))
    ensures Preserved(s, s.(jobs := s.jobs[j := job]))
  {}

  lemma ReplacePeers(s: State, peers: map<string, PeerEntry>)
    requires Inv(s) && forall p :: p in peers ==> peers[p].raftAddr == p
    ensures Preserved(s, s.(peers := peers))
  {}

  lemma PreservedReflexive(s: State)
    requires Inv(s)
    ensures Preserved(s, s)
  {}

  lemma FinaliseKeepsInv(s: State, c: Command, picks: seq<string>)
    requires Inv(s) && c.CommitChunk? && |picks| == |c.nodeIDs| && FinaliseChunk(s, c, picks).outcome.Accepted?
    ensures Preserved(s, FinaliseChunk(s, c, picks).state)
  {
    NormalizeNoDup(s.nodes, c.nodeIDs, picks);
    ReplaceChunk(s, c.chunkID, FinaliseChunk(s, c, picks).state.chunks[c.chunkID]);
  }

  lemma EvictKeepsInv(s: State, chunkID: string, nodeID: string)
    requires Inv(s) && Evict(s, chunkID, nodeID).outcome.Accepted?
    ensures Preserved(s, Evict(s, chunkID, nodeID).state)
  {
    var replicas := s.chunks[chunkID].replicas;
    assert ChunkOk(s.files, chunkID, s.chunks[chunkID]);
    RemoveAtExact(replicas, IndexOf(replicas, nodeID));
    ReplaceChunk(s, chunkID, s.chunks[chunkID].(replicas := RemoveAt(replicas, IndexOf(replicas, nodeID))));
  }

  lemma AddKeepsInv(s: State, chunkID: string, nodeID: string)
    requires Inv(s)
    ensures Preserved(s, AddReplica(s, chunkID, nodeID).state)
  {
    if chunkID in s.chunks && nodeID !in s.chunks[chunkID].replicas {
      assert ChunkOk(s.files, chunkID, s.chunks[chunkID]);
      ReplaceChunk(s, chunkID, s.chunks[chunkID].(replicas := s.chunks[chunkID].replicas + [nodeID]));
    }
  }

  lemma LostKeepsInv(s: State, chunkID: string)
    requires Inv(s)
    ensures Preserved(s, MarkLost(s, chunkID).state)
  {
    if chunkID in s.chunks {
      assert ChunkOk(s.files, chunkID, s.chunks[chunkID]);
      ReplaceChunk(s, chunkID, s.chunks[chunkID].(status := ChunkLost));
    }
  }

  lemma CommitKeepsInv(s: State, c: Command)
    requires Inv(s) && c.CommitFile? && Commit(s, c).outcome.Accepted?
    ensures Preserved(s, Commit(s, c).state)
  {
    var file := s.files[c.fileID].(checksum := c.checksum, status := FileComplete);
    assert FileOk(s.chunks, c.fileID, s.files[c.fileID]);
    assert forall i :: 0 <= i < |file.chunkIDs| ==> CommittedAt(s, file.chunkIDs[i]);
    ReplaceFile(s, c.fileID, file);
  }

  lemma DeleteKeepsInv(s: State, fileID: string)
    requires Inv(s)
    ensures Preserved(s, Delete(s, fileID).state)
  {
    if fileID in s.files {
      assert FileOk(s.chunks, fileID, s.files[fileID]);
      ReplaceFile(s, fileID, s.files[fileID].(status := FileDeleted));
    }
  }

  lemma NodeStatusKeepsInv(s: State, n: string, status: NodeStatus, at: Time)
    requires Inv(s) && n in s.nodes
    ensures Preserved(s, SetNodeStatus(s, n, status, at).state)
  {
    ReplaceNode(s, n, SetNodeStatus(s, n, status, at).state.nodes[n]);
  }

  lemma NodesKeepInv(s: State, c: Command)
    requires Inv(s) && (c.RegisterNode? || (c.UpdateNodeSpace? && c.nodeID in s.nodes))
    ensures Preserved(s, Apply(s, c, []).state)
  {
    ReplaceNode(s, c.nodeID, Apply(s, c, []).state.nodes[c.nodeID]);
  }

  lemma JobsKeepInv(s: State, c: Command)
    requires Inv(s) && (c.CreateRepairJob? || c.UpdateRepairJob?) && Apply(s, c, []).outcome.Accepted?
    ensures Preserved(s, Apply(s, c, []).state)
  {
    ReplaceJob(s, c.jobID, Apply(s, c, []).state.jobs[c.jobID]);
  }

  /** Every command, accepted or rejected, keeps the invariant and only evolves the records. */
  lemma StepKeepsInv(s: State, c: Command, picks: seq<string>)
    requires Inv(s) && LegalFor(s, c, picks)
    ensures Preserved(s, Apply(s, c, picks).state)
  {
    if Apply(s, c, picks).outcome.Rejected? {
      PreservedReflexive(s);
    } else {
      match c
      case RegisterNode(_, _, _, _, _) => NodesKeepInv(s, c);
      case UpdateNodeSpace(_, _, _, _) => NodesKeepInv(s, c);
      case DeregisterNode(n, at) => NodeStatusKeepsInv(s, n, NodeDraining, at);
      case MarkNodeDead(n, at) => NodeStatusKeepsInv(s, n, NodeDead, at);
      case MarkNodeAlive(n, at) => NodeStatusKeepsInv(s, n, NodeAlive, at);
      case CreateFile(_, _, _, _, _, _) => CreateKeepsInv(s, c);
      case CommitFile(_, _, _) => CommitKeepsInv(s, c);
      case DeleteFile(f) => DeleteKeepsInv(s, f);
      case CommitChunk(_, _, _) => FinaliseKeepsInv(s, c, picks);
      case EvictChunkFromNode(chunk, n) => EvictKeepsInv(s, chunk, n);
      case MarkChunkLost(chunk) => LostKeepsInv(s, chunk);
      case AddChunkReplica(chunk, n) => AddKeepsInv(s, chunk, n);
      case CreateRepairJob(_, _, _, _, _, _) => JobsKeepInv(s, c);
      case UpdateRepairJob(_, _, _, _, _, _) => JobsKeepInv(s, c);
      case RegisterPeer(n, raft, grpc) => ReplacePeers(s, s.peers[raft := PeerEntry(n, raft, grpc)]);
      case DeregisterPeer(_, raft) => ReplacePeers(s, s.peers - {raft});
    }
  }

  // ----- Every log -----

  /** From any well-formed state, every legal log keeps the invariant and only evolves the records. */
  lemma {:induction false} RunKeepsInv(s: State, log: seq<Entry>)
    requires Inv(s) && LegalLog(s, log)
    ensures Inv(Run(s, log)) && Evolves(s, Run(s, log))
    decreases |log|
  {
    if log != [] {
      var t := Apply(s, log[0].command, log[0].picks).state;
      StepKeepsInv(s, log[0].command, log[0].picks);
      RunKeepsInv(t, log[1..]);
      EvolvesTransitive(s, t, Run(s, log));
    }
  }

  /** After every log from the empty state, each chunk is listed by exactly one file, at its
      recorded index; where the file's ids are distinct that is its only position. */
  lemma EachChunkHasOneFile(log: seq<Entry>, c: string)
    requires LegalLog(Empty, log)
    requires c in Run(Empty, log).chunks
    ensures var s := Run(Empty, log);
            var k := s.chunks[c];
            && (forall f :: f in s.files && c in s.files[f].chunkIDs <==> f == k.fileID)
            && k.fileID in s.files
            && IsLastPosition(s.files[k.fileID].chunkIDs, c, k.chunkIndex)
            && (NoDup(s.files[k.fileID].chunkIDs) ==>
                  forall i :: 0 <= i < |s.files[k.fileID].chunkIDs| ==>
                    (s.files[k.fileID].chunkIDs[i] == c <==> i == k.chunkIndex))
  {
    RunKeepsInv(Empty, log);
  }

  /** No file of any reachable state misses one of its chunks, so reading a file's chunk
      records cannot fail; two files never share a chunk; a complete file has only complete
      or lost chunks. */
  lemma FilesAreWhole(log: seq<Entry>, f: string, i: nat)
    requires LegalLog(Empty, log)
    requires f in Run(Empty, log).files && i < |Run(Empty, log).files[f].chunkIDs|
    ensures var s := Run(Empty, log);
            var c := s.files[f].chunkIDs[i];
            && c in s.chunks
            && (forall g :: g in s.files && c in s.files[g].chunkIDs ==> g == f)
            && (s.files[f].status == FileComplete ==> s.chunks[c].status in {ChunkComplete, ChunkLost})
  {
    RunKeepsInv(Empty, log);
    var s := Run(Empty, log);
    assert FileOk(s.chunks, f, s.files[f]);
    forall g | g in s.files && s.files[f].chunkIDs[i] in s.files[g].chunkIDs ensures g == f {
      assert FileOk(s.chunks, g, s.files[g]);
    }
  }

  /** Lifecycle over every log: split it anywhere; whatever checksum a chunk has at the split is its
      checksum at the end unless it was empty, and a chunk that left `allocated` never returns to it. */
  lemma LifecycleOverLogs(log: seq<Entry>, more: seq<Entry>, c: string)
    requires LegalLog(Empty, log) && LegalLog(Run(Empty, log), more)
    requires c in Run(Empty, log).chunks
    ensures var s, t := Run(Empty, log), Run(Run(Empty, log), more);
            && c in t.chunks
            && (|s.chunks[c].checksum| > 0 ==> t.chunks[c].checksum == s.chunks[c].checksum)
            && (s.chunks[c].status != ChunkAllocated ==> t.chunks[c].status != ChunkAllocated)
  {
    SplitEvolves(log, more);
    assert ChunkEvolves(Run(Empty, log).chunks[c], Run(Run(Empty, log), more).chunks[c]);
  }

  /** Wherever a log is split, the end is a possible future of the split. */
  lemma SplitEvolves(log: seq<Entry>, more: seq<Entry>)
    requires LegalLog(Empty, log) && LegalLog(Run(Empty, log), more)
    ensures Evolves(Run(Empty, log), Run(Run(Empty, log), more))
  {
    RunKeepsInv(Empty, log);
    RunKeepsInv(Run(Empty, log), more);
  }

  /** Instants over every log: split it anywhere; the log never moves the registration instant or the heartbeat of a
      known node, and never redirects a known repair job. */
  lemma InstantsOverLogs(log: seq<Entry>, more: seq<Entry>)
    requires LegalLog(Empty, log) && LegalLog(Run(Empty, log), more)
    ensures var s, t := Run(Empty, log), Run(Run(Empty, log), more);
            && (forall n :: n in s.nodes ==> n in t.nodes && NodeEvolves(s.nodes[n], t.nodes[n]))
            && (forall j :: j in s.jobs ==> j in t.jobs && JobEvolves(s.jobs[j], t.jobs[j]))
  {
    SplitEvolves(log, more);
  }
}
