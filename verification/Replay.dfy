/** Replicas of the metadata service: each applies the same committed commands, but has its own
    heartbeats, its own map iteration orders and its own snapshot-and-restore points. */
module Replay {
  import opened Records
  import opened Metadata
  import opened Structure

  // ----- Snapshot, persist, restore -----

  /** A node entry as serialised: the `lastSeen` instant is not part of the encoding. */
  datatype PersistedNode = PersistedNode(
    nodeID: string, address: string, status: NodeStatus, freeSpace: nat, chunkCount: nat,
    registeredAt: Time, updatedAt: Time)

  datatype Persisted = Persisted(
    files: map<string, FileRecord>, chunks: map<string, ChunkRecord>, nodes: map<string, PersistedNode>,
    jobs: map<string, RepairJob>, peers: map<string, PeerEntry>)

  function EncodeNode(n: NodeEntry): PersistedNode {
    PersistedNode(n.nodeID, n.address, n.status, n.freeSpace, n.chunkCount, n.registeredAt, n.updatedAt)
  }

  function DecodeNode(n: PersistedNode): NodeEntry {
    NodeEntry(n.nodeID, n.address, n.status, n.freeSpace, n.chunkCount, ZERO_TIME, n.registeredAt, n.updatedAt)
  }

  function Persist(s: State): Persisted {
    Persisted(s.files, s.chunks, map n | n in s.nodes :: EncodeNode(s.nodes[n]), s.jobs, s.peers)
  }

  function Restore(p: Persisted): State {
    State(p.files, p.chunks, map n | n in p.nodes :: DecodeNode(p.nodes[n]), p.jobs, p.peers)
  }

  // ----- Agreement up to heartbeats -----

  ghost predicate AgreeNode(a: NodeEntry, b: NodeEntry) {
    a.(lastSeen := ZERO_TIME) == b.(lastSeen := ZERO_TIME)
  }

  ghost predicate AgreeNodes(a: map<string, NodeEntry>, b: map<string, NodeEntry>) {
    a.Keys == b.Keys && forall n :: n in a ==> AgreeNode(a[n], b[n])
  }

  /** Equal in every field of every record except `lastSeen`. */
  ghost predicate Agree(s: State, t: State) {
    s.files == t.files && s.chunks == t.chunks && s.jobs == t.jobs && s.peers == t.peers && AgreeNodes(s.nodes, t.nodes)
  }

  /** Restoring what was persisted zeroes the heartbeat instants and changes nothing else. */
  lemma RestoreOfPersistAgrees(s: State)
    ensures var t := Restore(Persist(s));
            && t.files == s.files && t.chunks == s.chunks && t.jobs == s.jobs && t.peers == s.peers
            && t.nodes.Keys == s.nodes.Keys
            && forall n :: n in s.nodes ==> t.nodes[n] == s.nodes[n].(lastSeen := ZERO_TIME)
    ensures Agree(Restore(Persist(s)), s)
    ensures Persist(Restore(Persist(s))) == Persist(s)
  {
    var t := Restore(Persist(s));
    forall n | n in s.nodes ensures n in t.nodes && AgreeNode(t.nodes[n], s.nodes[n]) {}
    assert t.nodes.Keys == s.nodes.Keys;
    assert Persist(t).nodes == Persist(s).nodes;
  }

  lemma RestoredIsWellFormed(s: State)
    requires Inv(s)
    ensures Inv(Restore(Persist(s)))
  {
    var t := Restore(Persist(s));
    assert t.files == s.files && t.chunks == s.chunks;
  }

  function Seen(s: State, nodeID: string, at: Time): State {
    if nodeID !in s.nodes then s else s.(nodes := s.nodes[nodeID := s.nodes[nodeID].(lastSeen := at)])
  }

  // ----- One command on two agreeing replicas -----

  /** No reported name that must be looked up by address is the address of two nodes. */
  ghost predicate Unambiguous(nodes: map<string, NodeEntry>, raw: seq<string>) {
    forall i, k, l :: 0 <= i < |raw| && raw[i] !in nodes && k in nodes && l in nodes
                      && nodes[k].address == raw[i] && nodes[l].address == raw[i] ==>
      nodes[k].nodeID == nodes[l].nodeID
  }

  lemma PicksAgree(a: map<string, NodeEntry>, b: map<string, NodeEntry>, raw: seq<string>, p: seq<string>,
                   q: seq<string>, i: nat)
    requires AgreeNodes(a, b) && Unambiguous(a, raw) && i < |raw| && raw[i] !in a
    requires LegalPicks(a, raw, p) && LegalPicks(b, raw, q)
    ensures p[i] == q[i]
  {
    assert LegalPick(a, raw[i], p[i]) && LegalPick(b, raw[i], q[i]);
    forall k | k in a ensures a[k].address == b[k].address && a[k].nodeID == b[k].nodeID {
      assert AgreeNode(a[k], b[k]);
    }
  }

  lemma {:induction false} NormalizeAgrees(a: map<string, NodeEntry>, b: map<string, NodeEntry>, raw: seq<string>,
                                           p: seq<string>, q: seq<string>)
    requires AgreeNodes(a, b) && Unambiguous(a, raw)
    requires LegalPicks(a, raw, p) && LegalPicks(b, raw, q)
    ensures Normalize(a, raw, p) == Normalize(b, raw, q)
  {
    if |raw| > 0 {
      var n := |raw| - 1;
      forall i | 0 <= i < n && raw[..n][i] !in a
        ensures LegalPick(a, raw[..n][i], p[..n][i]) && LegalPick(b, raw[..n][i], q[..n][i])
      {
        assert LegalPick(a, raw[i], p[i]) && LegalPick(b, raw[i], q[i]);
      }
      assert Unambiguous(a, raw[..n]);
      NormalizeAgrees(a, b, raw[..n], p[..n], q[..n]);
      if raw[n] !in a { PicksAgree(a, b, raw, p, q, n); }
    }
  }

  ghost predicate UnambiguousFor(s: State, c: Command) {
    c.CommitChunk? ==> Unambiguous(s.nodes, c.nodeIDs)
  }

  lemma NodeStatusAgrees(s: State, t: State, n: string, status: NodeStatus, at: Time)
    requires Agree(s, t)
    ensures Agree(SetNodeStatus(s, n, status, at).state, SetNodeStatus(t, n, status, at).state)
    ensures SetNodeStatus(s, n, status, at).outcome == SetNodeStatus(t, n, status, at).outcome
  {
    if n in s.nodes { assert AgreeNode(s.nodes[n], t.nodes[n]); }
  }

  lemma NodeStepAgrees(s: State, t: State, c: Command)
    requires Agree(s, t) && (c.RegisterNode? || c.UpdateNodeSpace?)
    ensures Agree(Apply(s, c, []).state, Apply(t, c, []).state)
    ensures Apply(s, c, []).outcome == Apply(t, c, []).outcome
  {
    if c.nodeID in s.nodes { assert AgreeNode(s.nodes[c.nodeID], t.nodes[c.nodeID]); }
  }

  /** A command that does not consult the node registry cannot tell agreeing replicas apart. */
  lemma BlindStepAgrees(s: State, t: State, s': State, t': State)
    requires Agree(s, t) && s'.nodes == s.nodes && t' == s'.(nodes := t.nodes)
    ensures Agree(s', t')
  {}

  lemma CreateAgrees(s: State, t: State, c: Command)
    requires Agree(s, t) && c.CreateFile?
    ensures Agree(Create(s, c).state, Create(t, c).state) && Create(s, c).outcome == Create(t, c).outcome
  {
    BlindStepAgrees(s, t, Create(s, c).state, Create(t, c).state);
  }

  lemma CommitAgrees(s: State, t: State, c: Command)
    requires Agree(s, t) && c.CommitFile?
    ensures Agree(Commit(s, c).state, Commit(t, c).state) && Commit(s, c).outcome == Commit(t, c).outcome
  {
    if c.fileID in s.files {
      FirstUncommittedAgrees(s, t, s.files[c.fileID].chunkIDs);
    }
    BlindStepAgrees(s, t, Commit(s, c).state, Commit(t, c).state);
  }

  lemma DeleteAgrees(s: State, t: State, f: string)
    requires Agree(s, t)
    ensures Agree(Delete(s, f).state, Delete(t, f).state) && Delete(s, f).outcome == Delete(t, f).outcome
  {
    BlindStepAgrees(s, t, Delete(s, f).state, Delete(t, f).state);
  }

  lemma CommitChunkAgrees(s: State, t: State, c: Command, p: seq<string>, q: seq<string>)
    requires Agree(s, t) && c.CommitChunk? && UnambiguousFor(s, c)
    requires LegalFor(s, c, p) && LegalFor(t, c, q)
    ensures Agree(FinaliseChunk(s, c, p).state, FinaliseChunk(t, c, q).state)
    ensures FinaliseChunk(s, c, p).outcome == FinaliseChunk(t, c, q).outcome
  {
    NormalizeAgrees(s.nodes, t.nodes, c.nodeIDs, p, q);
    BlindStepAgrees(s, t, FinaliseChunk(s, c, p).state, FinaliseChunk(t, c, q).state);
  }

  lemma ChunkStepAgrees(s: State, t: State, c: Command)
    requires Agree(s, t) && (c.EvictChunkFromNode? || c.MarkChunkLost? || c.AddChunkReplica?)
    ensures Agree(Apply(s, c, []).state, Apply(t, c, []).state)
    ensures Apply(s, c, []).outcome == Apply(t, c, []).outcome
  {
    BlindStepAgrees(s, t, Apply(s, c, []).state, Apply(t, c, []).state);
  }

  lemma JobStepAgrees(s: State, t: State, c: Command)
    requires Agree(s, t)
    requires c.CreateRepairJob? || c.UpdateRepairJob? || c.RegisterPeer? || c.DeregisterPeer? || c.Undecodable?
    ensures Agree(Apply(s, c, []).state, Apply(t, c, []).state)
    ensures Apply(s, c, []).outcome == Apply(t, c, []).outcome
  {
    BlindStepAgrees(s, t, Apply(s, c, []).state, Apply(t, c, []).state);
  }

  lemma NodeCommandAgrees(s: State, t: State, c: Command, p: seq<string>, q: seq<string>)
    requires Agree(s, t) && IsNodeCommand(c)
    ensures Agree(Apply(s, c, p).state, Apply(t, c, q).state)
    ensures Apply(s, c, p).outcome == Apply(t, c, q).outcome
  {
    match c
    case DeregisterNode(n, at) => NodeStatusAgrees(s, t, n, NodeDraining, at);
    case MarkNodeDead(n, at) => NodeStatusAgrees(s, t, n, NodeDead, at);
    case MarkNodeAlive(n, at) => NodeStatusAgrees(s, t, n, NodeAlive, at);
    case _ => NodeStepAgrees(s, t, c);
  }

  lemma RecordCommandAgrees(s: State, t: State, c: Command, p: seq<string>, q: seq<string>)
    requires Agree(s, t) && !IsNodeCommand(c) && !c.CommitChunk?
    ensures Agree(Apply(s, c, p).state, Apply(t, c, q).state)
    ensures Apply(s, c, p).outcome == Apply(t, c, q).outcome
  {
    match c
    case CreateFile(_, _, _, _, _, _) => CreateAgrees(s, t, c);
    case CommitFile(_, _, _) => CommitAgrees(s, t, c);
    case DeleteFile(f) => DeleteAgrees(s, t, f);
    case EvictChunkFromNode(_, _) => ChunkStepAgrees(s, t, c);
    case MarkChunkLost(_) => ChunkStepAgrees(s, t, c);
    case AddChunkReplica(_, _) => ChunkStepAgrees(s, t, c);
    case _ => JobStepAgrees(s, t, c);
  }

  /** The same command on agreeing replicas has the same outcome and leaves them agreeing. */
  lemma StepAgrees(s: State, t: State, c: Command, p: seq<string>, q: seq<string>)
    requires Agree(s, t) && LegalFor(s, c, p) && LegalFor(t, c, q) && UnambiguousFor(s, c)
    ensures Agree(Apply(s, c, p).state, Apply(t, c, q).state)
    ensures Apply(s, c, p).outcome == Apply(t, c, q).outcome
  {
    if c.CommitChunk? {
      CommitChunkAgrees(s, t, c, p, q);
    } else if IsNodeCommand(c) {
      NodeCommandAgrees(s, t, c, p, q);
    } else {
      RecordCommandAgrees(s, t, c, p, q);
    }
  }

  lemma {:induction false} FirstUncommittedAgrees(s: State, t: State, ids: seq<string>)
    requires s.chunks == t.chunks
    ensures FirstUncommitted(s, ids) == FirstUncommitted(t, ids)
  {
    if |ids| > 0 { FirstUncommittedAgrees(s, t, ids[..|ids| - 1]); }
  }

  // ----- Histories -----

  datatype Event =
    | Applied(entry: Entry)
    | Heartbeat(nodeID: string, at: Time)
    | Restarted // the state is snapshotted, persisted and restored

  ghost predicate LegalEvent(s: State, e: Event) {
    e.Applied? ==> LegalFor(s, e.entry.command, e.entry.picks)
  }

  ghost function Next(s: State, e: Event): State
    requires LegalEvent(s, e)
  {
    match e
    case Applied(entry) => Apply(s, entry.command, entry.picks).state
    case Heartbeat(n, at) => Seen(s, n, at)
    case Restarted => Restore(Persist(s))
  }

  ghost predicate LegalHistory(s: State, h: seq<Event>)
    decreases |h|
  {
    h == [] || (LegalEvent(s, h[0]) && LegalHistory(Next(s, h[0]), h[1..]))
  }

  ghost function Play(s: State, h: seq<Event>): State
    requires LegalHistory(s, h)
    decreases |h|
  {
    if h == [] then s else Play(Next(s, h[0]), h[1..])
  }

  /** At every chunk commit of the history the reported names resolve to at most one node each. */
  ghost predicate UnambiguousHistory(s: State, h: seq<Event>)
    requires LegalHistory(s, h)
    decreases |h|
  {
    h == [] || ((h[0].Applied? ==> UnambiguousFor(s, h[0].entry.command)) && UnambiguousHistory(Next(s, h[0]), h[1..]))
  }

  function Commands(h: seq<Event>): seq<Command> {
    if h == [] then []
    else (if h[0].Applied? then [h[0].entry.command] else []) + Commands(h[1..])
  }

  lemma QuietStepAgrees(s: State, t: State, e: Event)
    requires Agree(s, t) && !e.Applied?
    ensures Agree(Next(s, e), t) && Agree(t, Next(s, e))
  {
    if e.Heartbeat? {
      if e.nodeID in s.nodes { assert AgreeNode(s.nodes[e.nodeID], t.nodes[e.nodeID]); }
    } else {
      RestoreOfPersistAgrees(s);
      forall n | n in s.nodes ensures AgreeNode(Next(s, e).nodes[n], t.nodes[n]) {
        assert AgreeNode(Next(s, e).nodes[n], s.nodes[n]) && AgreeNode(s.nodes[n], t.nodes[n]);
      }
    }
  }

  /** Determinism: two servers that committed the same commands agree, whatever their map iteration
      orders, heartbeats and snapshot restores, from any agreeing starting states. */
  lemma {:induction false} HistoriesAgree(s: State, t: State, g: seq<Event>, h: seq<Event>)
    requires Agree(s, t) && LegalHistory(s, g) && LegalHistory(t, h)
    requires Commands(g) == Commands(h) && UnambiguousHistory(s, g)
    ensures Agree(Play(s, g), Play(t, h))
    decreases |g| + |h|
  {
    if g != [] && !g[0].Applied? {
      QuietStepAgrees(s, t, g[0]);
      HistoriesAgree(Next(s, g[0]), t, g[1..], h);
    } else if h != [] && !h[0].Applied? {
      AgreeSymmetric(s, t);
      QuietStepAgrees(t, s, h[0]);
      HistoriesAgree(s, Next(t, h[0]), g, h[1..]);
    } else if g != [] && h != [] {
      assert Commands(g)[0] == g[0].entry.command && Commands(h)[0] == h[0].entry.command;
      assert Commands(g[1..]) == Commands(g)[1..] && Commands(h[1..]) == Commands(h)[1..];
      StepAgrees(s, t, g[0].entry.command, g[0].entry.picks, h[0].entry.picks);
      HistoriesAgree(Next(s, g[0]), Next(t, h[0]), g[1..], h[1..]);
    } else {
      assert g == [] && h == [];
    }
  }

  lemma AgreeSymmetric(s: State, t: State)
    requires Agree(s, t)
    ensures Agree(t, s)
  {
    forall n | n in t.nodes ensures AgreeNode(t.nodes[n], s.nodes[n]) {
      assert AgreeNode(s.nodes[n], t.nodes[n]);
    }
  }

  // ----- Log and snapshot -----

  function Logged(log: seq<Entry>): seq<Event> {
    seq(|log|, i requires 0 <= i < |log| => Applied(log[i]))
  }

  ghost predicate UnambiguousLog(s: State, log: seq<Entry>)
    requires LegalLog(s, log)
    decreases |log|
  {
    log == [] || (UnambiguousFor(s, log[0].command)
                  && UnambiguousLog(Apply(s, log[0].command, log[0].picks).state, log[1..]))
  }

  lemma {:induction false} LoggedRuns(s: State, log: seq<Entry>)
    requires LegalLog(s, log)
    ensures LegalHistory(s, Logged(log)) && Play(s, Logged(log)) == Run(s, log)
    ensures UnambiguousLog(s, log) ==> UnambiguousHistory(s, Logged(log))
    decreases |log|
  {
    if log != [] {
      assert Logged(log)[1..] == Logged(log[1..]);
      LoggedRuns(Next(s, Applied(log[0])), log[1..]);
    }
  }

  lemma {:induction false} RunSplits(s: State, log: seq<Entry>, k: nat)
    requires k <= |log| && LegalLog(s, log)
    ensures LegalLog(s, log[..k]) && LegalLog(Run(s, log[..k]), log[k..])
    ensures Run(Run(s, log[..k]), log[k..]) == Run(s, log)
    ensures UnambiguousLog(s, log) ==> UnambiguousLog(Run(s, log[..k]), log[k..])
    decreases k
  {
    if k == 0 {
      assert log[k..] == log && log[..k] == [];
    } else {
      assert log[..k][1..] == log[1..][..k - 1] && log[k..] == log[1..][k - 1..];
      RunSplits(Apply(s, log[0].command, log[0].picks).state, log[1..], k - 1);
    }
  }

  /** Splitting a log anywhere, persisting the state of the prefix and applying the rest to what is
      restored gives the state of the whole log, up to heartbeat instants. The restoring server scans
      its registries in its own order, so its entries may carry other picks for the same commands. */
  lemma SnapshotEquivalence(log: seq<Entry>, k: nat, rest: seq<Entry>)
    requires k <= |log| && LegalLog(Empty, log) && UnambiguousLog(Empty, log)
    requires LegalLog(Empty, log[..k]) && LegalLog(Restore(Persist(Run(Empty, log[..k]))), rest)
    requires Commands(Logged(rest)) == Commands(Logged(log[k..]))
    ensures Agree(Run(Empty, log), Run(Restore(Persist(Run(Empty, log[..k]))), rest))
  {
    RunSplits(Empty, log, k);
    var s := Run(Empty, log[..k]);
    var t := Restore(Persist(s));
    RestoreOfPersistAgrees(s);
    AgreeSymmetric(t, s);
    LoggedRuns(s, log[k..]);
    LoggedRuns(t, rest);
    HistoriesAgree(s, t, Logged(log[k..]), Logged(rest));
  }

  // ----- Exactly when one command cannot tell servers apart -----

  /** Two nodes share an address only if that address is itself a node id, which is never looked up. */
  ghost predicate OneNodePerAddress(nodes: map<string, NodeEntry>) {
    forall k, l :: k in nodes && l in nodes && k != l && nodes[k].address == nodes[l].address ==>
      nodes[k].address in nodes
  }

  /** Whatever command comes next, servers that agree with `s` still agree after it, in whatever order they scan. */
  ghost predicate Deterministic(s: State) {
    forall t, c, p, q :: Agree(s, t) && LegalFor(s, c, p) && LegalFor(t, c, q) ==>
      Agree(Apply(s, c, p).state, Apply(t, c, q).state)
  }

  ghost predicate HasCommittable(s: State) {
    exists c :: c in s.chunks && Committable(s.chunks[c])
  }

  /** The next command leaves agreeing servers in agreement if and only if no address that must be looked up belongs
      to two nodes, or no chunk can be committed. */
  lemma DeterministicIff(s: State)
    requires OthersOk(s)
    ensures Deterministic(s) <==> OneNodePerAddress(s.nodes) || !HasCommittable(s)
  {
    if OneNodePerAddress(s.nodes) || !HasCommittable(s) {
      forall t, c, p, q | Agree(s, t) && LegalFor(s, c, p) && LegalFor(t, c, q)
        ensures Agree(Apply(s, c, p).state, Apply(t, c, q).state)
      {
        if c.CommitChunk? && !OneNodePerAddress(s.nodes) {
          RejectedAlike(s, t, c, p, q);
        } else {
          StepAgrees(s, t, c, p, q);
        }
      }
    } else {
      var chunkID :| chunkID in s.chunks && Committable(s.chunks[chunkID]);
      var k, l :| k in s.nodes && l in s.nodes && k != l && s.nodes[k].address == s.nodes[l].address
                  && s.nodes[k].address !in s.nodes;
      SharedAddressDiverges(s, chunkID, s.nodes[k].address, k, l, []);
      AgreeReflexive(s);
    }
  }

  lemma AgreeReflexive(s: State)
    ensures Agree(s, s)
  {}

  lemma RejectedAlike(s: State, t: State, c: Command, p: seq<string>, q: seq<string>)
    requires Agree(s, t) && c.CommitChunk? && LegalFor(s, c, p) && LegalFor(t, c, q) && !HasCommittable(s)
    ensures Agree(Apply(s, c, p).state, Apply(t, c, q).state)
  {
    assert Apply(s, c, p).state == s && Apply(t, c, q).state == t;
  }

  /** Whenever two nodes share an address that must be looked up, two scan orders make servers in the very same
      state record different replicas for the same committed command. */
  lemma SharedAddressDiverges(s: State, chunkID: string, address: string, k: string, l: string, checksum: Bytes)
    requires OthersOk(s) && chunkID in s.chunks && Committable(s.chunks[chunkID])
    requires k in s.nodes && l in s.nodes && k != l && address !in s.nodes
    requires s.nodes[k].address == address && s.nodes[l].address == address
    ensures var c := CommitChunk(chunkID, [address], checksum);
            && LegalFor(s, c, [k]) && LegalFor(s, c, [l])
            && FinaliseChunk(s, c, [k]).outcome == FinaliseChunk(s, c, [l]).outcome == Accepted
            && FinaliseChunk(s, c, [k]).state.chunks != FinaliseChunk(s, c, [l]).state.chunks
  {
    assert LegalPick(s.nodes, address, k) && LegalPick(s.nodes, address, l);
    SingleName(s.nodes, address, k);
    SingleName(s.nodes, address, l);
    var c := CommitChunk(chunkID, [address], checksum);
    assert FinaliseChunk(s, c, [k]).state.chunks[chunkID].replicas == [Resolved(s.nodes, address, k)];
    assert FinaliseChunk(s, c, [l]).state.chunks[chunkID].replicas == [Resolved(s.nodes, address, l)];
  }

  lemma SingleName(nodes: map<string, NodeEntry>, entry: string, pick: string)
    ensures Normalize(nodes, [entry], [pick]) == [Resolved(nodes, entry, pick)]
  {
    assert [entry][..0] == [] && [pick][..0] == [];
  }
}
