/** The records held by the metadata service and the commands of its log. */
module Records {

  newtype byte = x: int | 0 <= x < 256
  type Bytes = seq<byte>

  /** Instants, as carried inside commands and heartbeats. */
  type Time = int
  const ZERO_TIME: Time := 0

  datatype FileStatus = FileCreating | FileComplete | FileDeleted
  datatype ChunkStatus = ChunkAllocated | ChunkComplete | ChunkLost
  datatype NodeStatus = NodeAlive | NodeSuspect | NodeDead | NodeDraining
  datatype RepairStatus = JobPending | JobInProgress | JobDone | JobFailed

  datatype FileRecord = FileRecord(
    fileID: string, filename: string, fileSize: nat, chunkSize: nat, checksum: Bytes,
    chunkIDs: seq<string>, status: FileStatus, createdAt: Time, updatedAt: Time)

  datatype ChunkRecord = ChunkRecord(
    chunkID: string, fileID: string, chunkIndex: nat, size: nat, checksum: Bytes,
    replicas: seq<string>, status: ChunkStatus, version: int)

  datatype NodeEntry = NodeEntry(
    nodeID: string, address: string, status: NodeStatus, freeSpace: nat, chunkCount: nat,
    lastSeen: Time, registeredAt: Time, updatedAt: Time)

  datatype RepairJob = RepairJob(
    jobID: string, chunkID: string, error: string, deleteSource: bool, sourceNodeID: string,
    targetNodeID: string, status: RepairStatus, attempts: nat, createdAt: Time, updatedAt: Time)

  datatype PeerEntry = PeerEntry(nodeID: string, raftAddr: string, grpcAddr: string)

  datatype Command =
    | RegisterNode(nodeID: string, address: string, freeSpace: nat, chunkCount: nat, at: Time)
    | DeregisterNode(nodeID: string, at: Time)
    | MarkNodeDead(nodeID: string, at: Time)
    | MarkNodeAlive(nodeID: string, at: Time)
    | UpdateNodeSpace(nodeID: string, freeSpace: nat, chunkCount: nat, at: Time)
    | CreateFile(fileID: string, filename: string, chunkIDs: seq<string>, fileSize: nat, chunkSize: nat, at: Time)
    | CommitFile(fileID: string, fileSize: nat, checksum: Bytes)
    | DeleteFile(fileID: string)
    | CommitChunk(chunkID: string, nodeIDs: seq<string>, checksum: Bytes)
    | EvictChunkFromNode(chunkID: string, nodeID: string)
    | MarkChunkLost(chunkID: string)
    | CreateRepairJob(jobID: string, chunkID: string, deleteSource: bool, source: string, target: string, at: Time)
    | UpdateRepairJob(jobID: string, status: RepairStatus, source: string, attempts: nat, error: string, at: Time)
    | AddChunkReplica(chunkID: string, nodeID: string)
    | RegisterPeer(nodeID: string, raftAddr: string, grpcAddr: string)
    | DeregisterPeer(nodeID: string, raftAddr: string)
    | Undecodable // an entry whose envelope, payload or type is not recognised

  datatype Error =
    | NodeNotFound | FileNotFound | ChunkNotFound | JobNotFound
    | FileExists | ChunkExists | JobExists
    | SizeMismatch | ChunkNotCommitted | ChunkAlreadyCommitted | NotAReplica | UnknownCommand

  datatype Outcome = Accepted | Rejected(error: Error)

  function Ids(entries: seq<NodeEntry>): (r: seq<string>)
    ensures |r| == |entries|
    ensures forall i :: 0 <= i < |r| ==> r[i] == entries[i].nodeID
  {
    seq(|entries|, i requires 0 <= i < |entries| => entries[i].nodeID)
  }

  lemma IdsSnoc(entries: seq<NodeEntry>, last: NodeEntry)
    ensures Ids(entries + [last]) == Ids(entries) + [last.nodeID]
  {}
}
