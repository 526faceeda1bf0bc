/** The metadata state machine as a pure step function over five registries.
    `MetadataFsm.MetadataFSM` is the mutable object that refines it. */
module Metadata {
  import opened Records
  import opened Seqs

  datatype State = State(
    files: map<string, FileRecord>,
    chunks: map<string, ChunkRecord>,
    nodes: map<string, NodeEntry>,
    jobs: map<string, RepairJob>,
    peers: map<string, PeerEntry>)

  const Empty := State(map[], map[], map[], map[], map[])

  datatype StepResult = StepResult(state: State, outcome: Outcome)

  function Accept(s: State): StepResult { StepResult(s, Accepted) }

  function Reject(s: State, e: Error): StepResult { StepResult(s, Rejected(e)) }

  // ----- Resolving replica names -----

  /** What a scan of the node registry for `address` may yield. Map iteration order is
      unspecified, so when several nodes share an address any of their ids is legal. */
  ghost predicate LegalPick(nodes: map<string, NodeEntry>, address: string, pick: string) {
    if exists k :: k in nodes && nodes[k].address == address
    then exists k :: k in nodes && nodes[k].address == address && pick == nodes[k].nodeID
    else pick == ""
  }

  ghost predicate LegalPicks(nodes: map<string, NodeEntry>, raw: seq<string>, picks: seq<string>) {
    && |picks| == |raw|
    && forall i :: 0 <= i < |raw| && raw[i] !in nodes ==> LegalPick(nodes, raw[i], picks[i])
  }

  /** The name under which one reported entry is recorded. */
  function Resolved(nodes: map<string, NodeEntry>, entry: string, pick: string): string {
    if entry in nodes || pick == "" then entry else pick
  }

  function Kept(nodes: map<string, NodeEntry>, entry: string, pick: string, acc: seq<string>): seq<string> {
    if entry in acc then []
    else
      var name := Resolved(nodes, entry, pick);
      if name in acc then [] else [name]
  }

  function Normalize(nodes: map<string, NodeEntry>, raw: seq<string>, picks: seq<string>): seq<string>
    requires |picks| == |raw|
  {
    if |raw| == 0 then []
    else
      var acc := Normalize(nodes, raw[..|raw| - 1], picks[..|raw| - 1]);
      acc + Kept(nodes, raw[|raw| - 1], picks[|raw| - 1], acc)
  }

  // ----- Node commands -----

  function LaterOf(a: Time, b: Time): Time {
    if a < b then b else a
  }

  function Register(s: State, c: Command): StepResult
    requires c.RegisterNode?
  {
    var entry :=
      if c.nodeID in s.nodes then
        s.nodes[c.nodeID].(address := c.address, status := NodeAlive, freeSpace := c.freeSpace,
                           chunkCount := c.chunkCount, updatedAt := c.at)
      else
        NodeEntry(c.nodeID, c.address, NodeAlive, c.freeSpace, c.chunkCount, c.at, c.at, c.at);
    Accept(s.(nodes := s.nodes[c.nodeID := entry]))
  }

  function SetNodeStatus(s: State, nodeID: string, status: NodeStatus, at: Time): StepResult {
    if nodeID !in s.nodes then Reject(s, NodeNotFound)
    else
      var n := s.nodes[nodeID];
      Accept(s.(nodes := s.nodes[nodeID := n.(status := status, updatedAt := LaterOf(n.updatedAt, at))]))
  }

  function SetNodeSpace(s: State, c: Command): StepResult
    requires c.UpdateNodeSpace?
  {
    if c.nodeID !in s.nodes then Reject(s, NodeNotFound)
    else
      var n := s.nodes[c.nodeID];
      Accept(s.(nodes := s.nodes[c.nodeID := n.(freeSpace := c.freeSpace, chunkCount := c.chunkCount,
                                                updatedAt := LaterOf(n.updatedAt, c.at))]))
  }

  // ----- File commands -----

  function Stub(fileID: string, chunkID: string, index: nat): ChunkRecord {
    ChunkRecord(chunkID, fileID, index, 0, [], [], ChunkAllocated, 0)
  }

  /** Inserting the stubs one after the other: a repeated id keeps its last position. */
  function WithStubs(chunks: map<string, ChunkRecord>, fileID: string, ids: seq<string>): map<string, ChunkRecord> {
    if |ids| == 0 then chunks
    else
      var n := |ids| - 1;
      WithStubs(chunks, fileID, ids[..n])[ids[n] := Stub(fileID, ids[n], n)]
  }

  function Create(s: State, c: Command): StepResult
    requires c.CreateFile?
  {
    if c.fileID in s.files then Reject(s, FileExists)
    else if exists i :: 0 <= i < |c.chunkIDs| && c.chunkIDs[i] in s.chunks then Reject(s, ChunkExists)
    else
      var file := FileRecord(c.fileID, c.filename, c.fileSize, c.chunkSize, [], c.chunkIDs,
                             FileCreating, c.at, ZERO_TIME);
      Accept(s.(chunks := WithStubs(s.chunks, c.fileID, c.chunkIDs), files := s.files[c.fileID := file]))
  }

  predicate CommittedAt(s: State, chunkID: string) {
    chunkID in s.chunks && s.chunks[chunkID].status == ChunkComplete
  }

  /** Position of the first chunk that blocks a file commit; `|ids|` when there is none. */
  function FirstUncommitted(s: State, ids: seq<string>): (i: nat)
    ensures i <= |ids|
    ensures forall k :: 0 <= k < i ==> CommittedAt(s, ids[k])
    ensures i < |ids| ==> !CommittedAt(s, ids[i])
  {
    if |ids| == 0 then 0
    else
      var n := |ids| - 1;
      var i := FirstUncommitted(s, ids[..n]);
      if i < n then i else if CommittedAt(s, ids[n]) then n + 1 else n
  }

  function Commit(s: State, c: Command): StepResult
    requires c.CommitFile?
  {
    if c.fileID !in s.files then Reject(s, FileNotFound)
    else
      var file := s.files[c.fileID];
      if file.fileSize != c.fileSize then Reject(s, SizeMismatch)
      else
        var i := FirstUncommitted(s, file.chunkIDs);
        if i < |file.chunkIDs| then
          Reject(s, if file.chunkIDs[i] in s.chunks then ChunkNotCommitted else ChunkNotFound)
        else
          Accept(s.(files := s.files[c.fileID := file.(checksum := c.checksum, status := FileComplete)]))
  }

  function Delete(s: State, fileID: string): StepResult {
    if fileID !in s.files then Reject(s, FileNotFound)
    else Accept(s.(files := s.files[fileID := s.files[fileID].(status := FileDeleted)]))
  }

  // ----- Chunk commands -----

  predicate Committable(chunk: ChunkRecord) {
    |chunk.checksum| == 0 && chunk.status != ChunkComplete
  }

  function FinaliseChunk(s: State, c: Command, picks: seq<string>): StepResult
    requires c.CommitChunk? && |picks| == |c.nodeIDs|
  {
    if c.chunkID !in s.chunks then Reject(s, ChunkNotFound)
    else
      var chunk := s.chunks[c.chunkID];
      if !Committable(chunk) then Reject(s, ChunkAlreadyCommitted)
      else
        Accept(s.(chunks := s.chunks[c.chunkID := chunk.(status := ChunkComplete, checksum := c.checksum,
                                                         replicas := Normalize(s.nodes, c.nodeIDs, picks))]))
  }

  function IndexOf(s: seq<string>, x: string): (i: nat)
    ensures i <= |s|
    ensures forall k :: 0 <= k < i ==> s[k] != x
    ensures i < |s| ==> s[i] == x
    ensures i < |s| <==> x in s
  {
    if |s| == 0 then 0
    else
      var n := |s| - 1;
      var i := IndexOf(s[..n], x);
      assert s == s[..n] + [s[n]];
      if i < n then i else if s[n] == x then n else n + 1
  }

  function SetReplicas(s: State, chunkID: string, replicas: seq<string>): State
    requires chunkID in s.chunks
  {
    s.(chunks := s.chunks[chunkID := s.chunks[chunkID].(replicas := replicas)])
  }

  function Evict(s: State, chunkID: string, nodeID: string): StepResult {
    if chunkID !in s.chunks then Reject(s, ChunkNotFound)
    else
      var replicas := s.chunks[chunkID].replicas;
      var i := IndexOf(replicas, nodeID);
      if i == |replicas| then Reject(s, NotAReplica)
      else Accept(SetReplicas(s, chunkID, RemoveAt(replicas, i)))
  }

  function AddReplica(s: State, chunkID: string, nodeID: string): StepResult {
    if chunkID !in s.chunks then Reject(s, ChunkNotFound)
    else
      var replicas := s.chunks[chunkID].replicas;
      if nodeID in replicas then Accept(s) else Accept(SetReplicas(s, chunkID, replicas + [nodeID]))
  }

  function MarkLost(s: State, chunkID: string): StepResult {
    if chunkID !in s.chunks then Reject(s, ChunkNotFound)
    else Accept(s.(chunks := s.chunks[chunkID := s.chunks[chunkID].(status := ChunkLost)]))
  }

  // ----- Repair-job commands -----

  function CreateJob(s: State, c: Command): StepResult
    requires c.CreateRepairJob?
  {
    if c.jobID in s.jobs then Reject(s, JobExists)
    else
      Accept(s.(jobs := s.jobs[c.jobID := RepairJob(c.jobID, c.chunkID, "", c.deleteSource, c.source, c.target,
                                                    JobPending, 0, c.at, c.at)]))
  }

  function UpdateJob(s: State, c: Command): StepResult
    requires c.UpdateRepairJob?
  {
    if c.jobID !in s.jobs then Reject(s, JobNotFound)
    else
      var j := s.jobs[c.jobID];
      Accept(s.(jobs := s.jobs[c.jobID :=
        j.(status := c.status, updatedAt := c.at, error := c.error, attempts := c.attempts,
           sourceNodeID := if c.source != "" then c.source else j.sourceNodeID)]))
  }

  // ----- The step function -----

  ghost predicate LegalFor(s: State, c: Command, picks: seq<string>) {
    c.CommitChunk? ==> LegalPicks(s.nodes, c.nodeIDs, picks)
  }

  function Apply(s: State, c: Command, picks: seq<string>): (r: StepResult)
    requires c.CommitChunk? ==> |picks| == |c.nodeIDs|
    ensures r.outcome.Rejected? ==> r.state == s
  {
    match c
    case RegisterNode(_, _, _, _, _) => Register(s, c)
    case DeregisterNode(n, at) => SetNodeStatus(s, n, NodeDraining, at)
    case MarkNodeDead(n, at) => SetNodeStatus(s, n, NodeDead, at)
    case MarkNodeAlive(n, at) => SetNodeStatus(s, n, NodeAlive, at)
    case UpdateNodeSpace(_, _, _, _) => SetNodeSpace(s, c)
    case CreateFile(_, _, _, _, _, _) => Create(s, c)
    case CommitFile(_, _, _) => Commit(s, c)
    case DeleteFile(f) => Delete(s, f)
    case CommitChunk(_, _, _) => FinaliseChunk(s, c, picks)
    case EvictChunkFromNode(chunk, n) => Evict(s, chunk, n)
    case MarkChunkLost(chunk) => MarkLost(s, chunk)
    case CreateRepairJob(_, _, _, _, _, _) => CreateJob(s, c)
    case UpdateRepairJob(_, _, _, _, _, _) => UpdateJob(s, c)
    case AddChunkReplica(chunk, n) => AddReplica(s, chunk, n)
    case RegisterPeer(n, raft, grpc) => Accept(s.(peers := s.peers[raft := PeerEntry(n, raft, grpc)]))
    case DeregisterPeer(_, raft) => Accept(s.(peers := s.peers - {raft}))
    case Undecodable => Reject(s, UnknownCommand)
  }

  predicate IsNodeCommand(c: Command) {
    c.RegisterNode? || c.UpdateNodeSpace? || c.DeregisterNode? || c.MarkNodeDead? || c.MarkNodeAlive?
  }

  // ----- Logs -----

  /** A committed command together with the outcome of its registry scans on one server. */
  datatype Entry = Entry(command: Command, picks: seq<string>)

  ghost predicate LegalLog(s: State, log: seq<Entry>)
    decreases |log|
  {
    log == [] || (LegalFor(s, log[0].command, log[0].picks)
                  && LegalLog(Apply(s, log[0].command, log[0].picks).state, log[1..]))
  }

  ghost function Run(s: State, log: seq<Entry>): State
    requires LegalLog(s, log)
    decreases |log|
  {
    if log == [] then s else Run(Apply(s, log[0].command, log[0].picks).state, log[1..])
  }

  // ----- Reads -----

  /** A replica is live when its node is registered and not dead. */
  function IsLive(nodes: map<string, NodeEntry>): string -> bool {
    id => id in nodes && nodes[id].status != NodeDead
  }

  function LiveReplicas(nodes: map<string, NodeEntry>, replicas: seq<string>): seq<string> {
    Filter(replicas, IsLive(nodes))
  }

  function LiveOf(s: State, chunkID: string): seq<string>
    requires chunkID in s.chunks
  {
    LiveReplicas(s.nodes, s.chunks[chunkID].replicas)
  }

  /** The live replicas are the registered ones whose node is not dead, alive or not, in the order of the list. */
  lemma LiveInOrder(s: State, c: string) returns (at: seq<nat>)
    requires c in s.chunks
    ensures Increasing(at, |s.chunks[c].replicas|) && |at| == |LiveOf(s, c)|
    ensures forall k :: 0 <= k < |at| ==> LiveOf(s, c)[k] == s.chunks[c].replicas[at[k]]
    ensures forall i :: 0 <= i < |s.chunks[c].replicas| ==>
              (i in at <==> var n := s.chunks[c].replicas[i]; n in s.nodes && s.nodes[n].status != NodeDead)
  {
    at := FilterAt(s.chunks[c].replicas, IsLive(s.nodes));
  }

  predicate IsReplica(s: State, chunkID: string, nodeID: string) {
    chunkID in s.chunks && nodeID in s.chunks[chunkID].replicas
  }
}
