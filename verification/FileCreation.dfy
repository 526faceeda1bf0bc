/** The metadata server's answer to a create request: a placement for every chunk, then the file's records. */
module FileCreation {
  import opened Records
  import opened Seqs
  import opened Metadata
  import opened Structure
  import opened MetadataFsm
  import opened Placement
  import opened RepairChoice
  import opened Chunker
  import opened Uploads

  /** The nodes proposed for a chunk, the primary first. */
  datatype Assignment = Assignment(chunkID: string, nodes: seq<NodeEntry>)

  /** Alive nodes that have room for a chunk. */
  ghost function Roomy(s: State, size: nat): set<string> {
    set n | n in s.nodes && s.nodes[n].status == NodeAlive && s.nodes[n].freeSpace >= size
  }

  /** `rf` different alive nodes with room, and no other such node ranks ahead of one of them. */
  ghost predicate GoodPlacement(s: State, size: nat, rf: nat, nodes: seq<NodeEntry>) {
    && |nodes| == rf && NoDup(Ids(nodes))
    && (forall n :: n in nodes ==> n.nodeID in Roomy(s, size) && n == s.nodes[n.nodeID])
    && (forall m, n :: m in Roomy(s, size) && m !in Ids(nodes) && n in nodes ==> !Before(MostFree, s.nodes[m], n))
  }

  /** The eligible nodes are the roomy ones, each once. */
  lemma EligibleAreRoomy(s: State, alive: seq<NodeEntry>, size: nat)
    requires OthersOk(s) && ListsAlive(s, alive)
    ensures var pool := Eligible(alive, size, []);
            && NoDup(Ids(pool)) && |pool| == |Roomy(s, size)|
            && (forall n :: n in pool <==> n.nodeID in Roomy(s, size) && n == s.nodes[n.nodeID])
  {
    var pool := Eligible(alive, size, []);
    FilterKeepsIdsDistinct(alive, IsEligible(size, IdSet([])));
    assert ToSet(Ids(pool)) == Roomy(s, size) by {
      forall n | n in Roomy(s, size) ensures n in Ids(pool) {
        assert s.nodes[n] in pool;
        InIds(pool, s.nodes[n]);
      }
      forall n | n in Ids(pool) ensures n in Roomy(s, size) {
        var i :| 0 <= i < |pool| && Ids(pool)[i] == n;
        assert pool[i] in pool;
      }
    }
    ToSetSize(Ids(pool));
  }

  lemma TopIsGoodPlacement(s: State, alive: seq<NodeEntry>, size: nat, rf: nat, chosen: seq<NodeEntry>)
    requires OthersOk(s) && ListsAlive(s, alive) && TopOf(MostFree, chosen, Eligible(alive, size, []), rf)
    ensures GoodPlacement(s, size, rf, chosen)
  {
    var pool := Eligible(alive, size, []);
    EligibleAreRoomy(s, alive, size);
    DrawnAreDistinct(chosen, pool);
    forall n | n in chosen ensures n in pool {
      assert n in multiset(pool);
    }
    forall m, n | m in Roomy(s, size) && m !in Ids(chosen) && n in chosen ensures !Before(MostFree, s.nodes[m], n) {
      assert s.nodes[m] in pool;
      if s.nodes[m] in chosen { InIds(chosen, s.nodes[m]); }
      assert s.nodes[m] in multiset(pool) - multiset(chosen);
    }
  }

  ghost predicate Placed(s: State, size: nat, rf: nat, ids: seq<string>, plan: seq<Assignment>) {
    && |plan| == |ids|
    && forall i :: 0 <= i < |ids| ==> plan[i].chunkID == ids[i] && GoodPlacement(s, size, rf, plan[i].nodes)
  }

  method PlaceOne(candidates: array<NodeEntry>, size: nat, rf: nat, ghost s: State)
    returns (ok: bool, nodes: seq<NodeEntry>)
    requires OthersOk(s) && ListsAlive(s, candidates[..])
    ensures ok <==> 0 < rf <= |Roomy(s, size)|
    ensures ok ==> GoodPlacement(s, size, rf, nodes)
  {
    EligibleAreRoomy(s, candidates[..], size);
    nodes, ok := SelectNodes(MostFree, candidates, size, rf, []);
    if ok { TopIsGoodPlacement(s, candidates[..], size, rf, nodes); }
    ok := ok && |nodes| > 0;
  }

  lemma PlacedNext(s: State, size: nat, rf: nat, ids: seq<string>, plan: seq<Assignment>, i: nat, nodes: seq<NodeEntry>)
    requires i < |ids| && Placed(s, size, rf, ids[..i], plan) && GoodPlacement(s, size, rf, nodes)
    ensures Placed(s, size, rf, ids[..i + 1], plan + [Assignment(ids[i], nodes)])
  {}

  method PlaceEach(candidates: array<NodeEntry>, ids: seq<string>, size: nat, rf: nat, ghost s: State)
    returns (ok: bool, plan: seq<Assignment>)
    requires OthersOk(s) && ListsAlive(s, candidates[..])
    ensures ok <==> ids == [] || 0 < rf <= |Roomy(s, size)|
    ensures ok ==> Placed(s, size, rf, ids, plan)
  {
    plan := [];
    for i := 0 to |ids|
      invariant i > 0 ==> 0 < rf <= |Roomy(s, size)|
      invariant Placed(s, size, rf, ids[..i], plan)
    {
      var enough, nodes := PlaceOne(candidates, size, rf, s);
      if !enough { return false, []; }
      PlacedNext(s, size, rf, ids, plan, i, nodes);
      plan := plan + [Assignment(ids[i], nodes)];
    }
    TakeAll(ids);
    ok := true;
  }

  /** Placement succeeds exactly when there is nothing to place or there are enough roomy nodes, and then every chunk
      gets a good placement. */
  method PlaceChunks(fsm: MetadataFSM, ids: seq<string>, size: nat, rf: nat) returns (ok: bool, plan: seq<Assignment>)
    requires fsm.Valid()
    ensures ok <==> ids == [] || 0 < rf <= |Roomy(fsm.View(), size)|
    ensures ok ==> Placed(fsm.View(), size, rf, ids, plan)
  {
    var alive := fsm.GetLiveNodes();
    var candidates := NewArray(alive);
    ok, plan := PlaceEach(candidates, ids, size, rf, fsm.View());
  }

  /** The request can be met: the file is new, its chunk size is allowed, its chunks can be placed and none of them is
      known. */
  ghost predicate Creatable(s: State, f: Source, rf: nat)
    requires f.chunkSize >= 1
  {
    && f.fileID !in s.files && MIN_CHUNK_SIZE <= f.chunkSize <= MAX_CHUNK_SIZE
    && (Count(f) == 0 || 0 < rf <= |Roomy(s, f.chunkSize)|)
    && forall i :: 0 <= i < Count(f) ==> IdOf(f, i) !in s.chunks
  }

  method ProposeCreate(fsm: MetadataFSM, c: Command) returns (ok: bool)
    requires fsm.Valid() && c.CreateFile?
    modifies fsm
    ensures fsm.Valid() && fsm.View() == Create(old(fsm.View()), c).state
    ensures ok == Create(old(fsm.View()), c).outcome.Accepted?
  {
    var outcome := fsm.Propose(c);
    ok := outcome.Accepted?;
  }

  /** A file is created exactly if the request can be met; a refusal changes nothing. */
  method CreateFile(fsm: MetadataFSM, f: Source, name: string, rf: nat, now: Time)
    returns (ok: bool, plan: seq<Assignment>)
    requires fsm.Valid() && f.chunkSize >= 1 && Injective(f.digest)
    modifies fsm
    ensures fsm.Valid() && (ok <==> Creatable(old(fsm.View()), f, rf))
    ensures ok ==> Created(fsm.View(), f) && Placed(old(fsm.View()), f.chunkSize, rf, AllIds(f), plan)
    ensures !ok ==> fsm.View() == old(fsm.View())
  {
    if f.fileID in fsm.files || f.chunkSize < MIN_CHUNK_SIZE || f.chunkSize > MAX_CHUNK_SIZE { return false, []; }
    ok, plan := PlaceChunks(fsm, AllIds(f), f.chunkSize, rf);
    if !ok { return false, []; }
    ghost var before := fsm.View();
    ok := ProposeCreate(fsm, Command.CreateFile(f.fileID, name, AllIds(f), |f.data|, f.chunkSize, now));
    if ok { CreateMakesCreated(before, f, name, now); }
  }
}
