/** Taking one node out of the replica lists of some chunks while repair orders are added: what the evacuation
    of a dead node and a reconciliation have in common. */
module Withdrawal {
  import opened Records
  import opened Seqs
  import opened Metadata
  import opened Structure
  import opened Scheduling
  import opened RepairChoice

  ghost predicate ChunkWithout(chunk: ChunkRecord, later: ChunkRecord, n: string, withdrawn: bool) {
    && later == chunk.(replicas := later.replicas)
    && forall m :: m in later.replicas <==> m in chunk.replicas && !(withdrawn && m == n)
  }

  /** From `s` to `t`, node `n` left exactly the replica lists of the chunks in `gone`; every other
      membership, every node and every file is as before. */
  ghost predicate Withdrawn(s: State, t: State, n: string, gone: set<string>) {
    && t.nodes == s.nodes && t.files == s.files && t.peers == s.peers
    && t.chunks.Keys == s.chunks.Keys
    && forall c :: c in s.chunks ==> ChunkWithout(s.chunks[c], t.chunks[c], n, c in gone)
  }

  /** A fresh order to copy from a live replica of the chunk to an alive node outside its replica list. */
  ghost predicate RightOrder(s: State, job: RepairJob) {
    && job.chunkID in s.chunks
    && job.sourceNodeID in LiveOf(s, job.chunkID)
    && job.targetNodeID in s.nodes && s.nodes[job.targetNodeID].status == NodeAlive
    && !IsReplica(s, job.chunkID, job.targetNodeID)
    && job.status == JobPending && !job.deleteSource
  }

  /** Known jobs are untouched; new jobs are right orders for the given chunks. */
  ghost predicate RightOrdersAdded(s: State, t: State, chunks: set<string>) {
    && (forall j :: j in s.jobs ==> j in t.jobs && t.jobs[j] == s.jobs[j])
    && (forall j :: j in t.jobs && j !in s.jobs ==> t.jobs[j].chunkID in chunks && RightOrder(t, t.jobs[j]))
  }

  lemma NothingWithdrawn(s: State, n: string)
    ensures Withdrawn(s, s, n, {}) && RightOrdersAdded(s, s, {})
  {}

  lemma EvictExact(s: State, c: string, n: string)
    requires Inv(s) && IsReplica(s, c, n)
    ensures var t := Evict(s, c, n).state;
            && t == s.(chunks := s.chunks[c := t.chunks[c]])
            && ChunkWithout(s.chunks[c], t.chunks[c], n, true)
  {
    assert ChunkOk(s.files, c, s.chunks[c]);
    RemoveAtExact(s.chunks[c].replicas, IndexOf(s.chunks[c].replicas, n));
  }

  lemma EvictWithdraws(s: State, t: State, n: string, gone: set<string>, c: string)
    requires Inv(t) && Withdrawn(s, t, n, gone) && c !in gone && IsReplica(t, c, n)
    ensures Withdrawn(s, Evict(t, c, n).state, n, gone + {c})
  {
    EvictExact(t, c, n);
  }

  /** Changing the replica list of another chunk leaves an order right. */
  lemma OtherChunkKeepsOrder(s: State, c: string, chunk: ChunkRecord, job: RepairJob)
    requires RightOrder(s, job) && job.chunkID != c
    ensures RightOrder(s.(chunks := s.chunks[c := chunk]), job)
  {
    var t := s.(chunks := s.chunks[c := chunk]);
    assert LiveOf(t, job.chunkID) == LiveOf(s, job.chunkID);
  }

  lemma EvictKeepsOrders(s: State, t: State, n: string, gone: set<string>, c: string)
    requires Inv(t) && RightOrdersAdded(s, t, gone) && c !in gone && IsReplica(t, c, n)
    ensures RightOrdersAdded(s, Evict(t, c, n).state, gone + {c})
  {
    EvictExact(t, c, n);
    var t' := Evict(t, c, n).state;
    forall j | j in t'.jobs && j !in s.jobs ensures t'.jobs[j].chunkID in gone && RightOrder(t', t'.jobs[j]) {
      OtherChunkKeepsOrder(t, c, t'.chunks[c], t.jobs[j]);
    }
  }

  /** Orders are judged by chunks and nodes only. */
  lemma OrderIgnoresJobs(s: State, jobs: map<string, RepairJob>, job: RepairJob)
    requires RightOrder(s, job)
    ensures RightOrder(s.(jobs := jobs), job)
  {
    assert LiveOf(s.(jobs := jobs), job.chunkID) == LiveOf(s, job.chunkID);
  }

  /** A candidate target is in no replica list position at all: a registered node that is not dead would be live. */
  lemma NewOrderIsRight(s: State, c: string, source: string, target: string, job: RepairJob)
    requires c in s.chunks && GoodSource(s, LiveOf(s, c), source) && target in Candidates(s, LiveOf(s, c))
    requires IsOrder(job, c, source) && job.targetNodeID == target
    ensures RightOrder(s, job)
  {
    assert IsLive(s.nodes)(target);
  }

  lemma PassAddsRightOrders(s: State, x: Sched, y: Sched, uuid: Uuids, c: string, deficit: nat,
                            source: string, targets: seq<string>, now: Time, chunks: set<string>)
    requires c in x.meta.chunks && Pass(x, y, uuid, c, LiveOf(x.meta, c), deficit, source, targets, now)
    requires RightOrdersAdded(s, x.meta, chunks) && c in chunks
    ensures RightOrdersAdded(s, y.meta, chunks)
    ensures y.meta == x.meta.(jobs := y.meta.jobs) && y.pending == x.pending && y.byPair == x.byPair
  {
    CreateJobsOnlyAdds(x, uuid, c, source, targets, now);
    forall j | j in y.meta.jobs && j !in s.jobs
      ensures y.meta.jobs[j].chunkID in chunks && RightOrder(y.meta, y.meta.jobs[j])
    {
      if j !in x.meta.jobs {
        NewOrderIsRight(x.meta, c, source, y.meta.jobs[j].targetNodeID, y.meta.jobs[j]);
      }
      OrderIgnoresJobs(x.meta, y.meta.jobs, y.meta.jobs[j]);
    }
  }

  lemma PassForAddsRightOrders(s: State, x: Sched, y: Sched, uuid: Uuids, rf: nat, c: string,
                               source: string, targets: seq<string>, now: Time, chunks: set<string>)
    requires PassFor(x, y, uuid, rf, c, source, targets, now)
    requires RightOrdersAdded(s, x.meta, chunks) && c in chunks
    ensures RightOrdersAdded(s, y.meta, chunks)
    ensures y.meta == x.meta.(jobs := y.meta.jobs) && y.pending == x.pending && y.byPair == x.byPair
  {
    if c in x.meta.chunks && |LiveOf(x.meta, c)| < rf {
      PassAddsRightOrders(s, x, y, uuid, c, rf - |LiveOf(x.meta, c)|, source, targets, now, chunks);
    }
  }

  lemma JobsDoNotWithdraw(s: State, t: State, n: string, gone: set<string>, jobs: map<string, RepairJob>)
    requires Withdrawn(s, t, n, gone)
    ensures Withdrawn(s, t.(jobs := jobs), n, gone)
  {}

  /** A chunk that lists the node and was not treated yet still lists it. */
  lemma StillReplica(s: State, t: State, n: string, gone: set<string>, c: string)
    requires Withdrawn(s, t, n, gone) && IsReplica(s, c, n) && c !in gone
    ensures IsReplica(t, c, n)
  {
    assert ChunkWithout(s.chunks[c], t.chunks[c], n, false);
  }

  /** Treating every chunk that lists the node is treating every chunk. */
  lemma WithdrawnEverywhere(s: State, t: State, n: string, gone: set<string>)
    requires Withdrawn(s, t, n, gone) && forall c :: c in gone <==> IsReplica(s, c, n)
    ensures Withdrawn(s, t, n, s.chunks.Keys)
  {
    forall c | c in s.chunks ensures ChunkWithout(s.chunks[c], t.chunks[c], n, true) {
      assert ChunkWithout(s.chunks[c], t.chunks[c], n, c in gone);
      assert c in gone <==> IsReplica(s, c, n);
    }
  }

  /** A node outside the replica list is not among the live entries either. */
  lemma NotListedNotExcluded(s: State, c: string, live: seq<NodeEntry>, n: string)
    requires c in s.chunks && !IsReplica(s, c, n) && Ids(live) == LiveOf(s, c)
    ensures Filter(live, (e: NodeEntry) => e.nodeID != n) == live
  {
    forall e | e in live ensures e.nodeID != n {
      InIds(live, e);
    }
    FilterAll(live, (e: NodeEntry) => e.nodeID != n);
  }

  lemma EvictedIsOut(s: State, c: string, n: string)
    requires Inv(s) && IsReplica(s, c, n)
    ensures c in Evict(s, c, n).state.chunks && !IsReplica(Evict(s, c, n).state, c, n)
  {
    EvictExact(s, c, n);
  }
}
