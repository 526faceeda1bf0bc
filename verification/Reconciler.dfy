/** Reconciling a node's reported inventory with the replica lists. */
module Reconcilers {
  import opened Records
  import opened Seqs
  import opened Metadata
  import opened Structure
  import opened MetadataFsm
  import opened Scheduling
  import opened RepairChoice
  import opened Withdrawal
  import opened Evacuation
  import opened RepairSchedulers

  /** A DeleteChunk call to a storage node. */
  datatype Deletion = Deletion(address: string, chunkID: string)

  function Deletions(address: string, ids: seq<string>): seq<Deletion> {
    seq(|ids|, i requires 0 <= i < |ids| => Deletion(address, ids[i]))
  }

  lemma DeletionsSnoc(made: seq<Deletion>, address: string, ids: seq<string>, id: string)
    ensures made + Deletions(address, ids + [id]) == made + Deletions(address, ids) + [Deletion(address, id)]
  {}

  /** The calls go to the node's address, for exactly the reported chunks that do not list the node. */
  lemma DeletionsExact(s: State, n: string, address: string, reported: seq<string>)
    ensures forall d :: d in Deletions(address, Stale(s, n, reported)) <==>
              && d.address == address && d.chunkID in reported
              && !(d.chunkID in s.chunks && n in s.chunks[d.chunkID].replicas)
  {
    var stale := Stale(s, n, reported);
    forall d: Deletion | d.address == address && d.chunkID in stale ensures d in Deletions(address, stale) {
      var i :| 0 <= i < |stale| && stale[i] == d.chunkID;
      assert Deletions(address, stale)[i] == d;
    }
  }

  /** Reported by the node but not expected on it. */
  ghost function IsStale(s: State, n: string): string -> bool {
    c => !IsReplica(s, c, n)
  }

  ghost function Stale(s: State, n: string, reported: seq<string>): seq<string> {
    Filter(reported, IsStale(s, n))
  }

  /** Expected on the node but not reported by it. */
  ghost function Missing(s: State, n: string, reported: seq<string>): set<string> {
    set c | c in s.chunks && IsReplica(s, c, n) && c !in reported
  }

  // ----- Counting the other live replicas -----

  /** The number of live replicas once `n` is gone, read off a list that may or may not still name `n`. */
  function ExpectedLive(live: seq<string>, n: string): int {
    if n in live then |live| - 1 else |live|
  }

  lemma {:induction false} FilterRemoved(s: seq<string>, i: nat, p: string -> bool)
    requires i < |s|
    ensures |Filter(RemoveAt(s, i), p)| == |Filter(s, p)| - (if p(s[i]) then 1 else 0)
  {
    assert s == s[..i] + ([s[i]] + s[i + 1..]);
    FilterConcat(s[..i], [s[i]] + s[i + 1..], p);
    FilterConcat([s[i]], s[i + 1..], p);
    FilterConcat(s[..i], s[i + 1..], p);
    assert [s[i]][..0] == [];
    assert |Filter([s[i]], p)| == if p(s[i]) then 1 else 0;
  }

  /** The answer is the same whether or not the eviction has been applied yet: it is the number of live
      replicas after the eviction. */
  lemma SameAnswer(s: State, c: string, n: string)
    requires Inv(s) && IsReplica(s, c, n)
    ensures var t := Evict(s, c, n).state;
            && c in t.chunks
            && ExpectedLive(LiveOf(s, c), n) == |LiveOf(t, c)|
            && ExpectedLive(LiveOf(t, c), n) == |LiveOf(t, c)|
  {
    var replicas := s.chunks[c].replicas;
    var i := IndexOf(replicas, n);
    FilterRemoved(replicas, i, IsLive(s.nodes));
    EvictedIsOut(s, c, n);
  }

  // ----- The steps of a reconciliation -----

  /** One missing replica: it is evicted, and a pass over the chunk follows exactly when fewer than `wanted`
      other live replicas remain. */
  ghost predicate MissingStep(x: Sched, y: Sched, uuid: Uuids, rf: nat, wanted: nat, n: string, ch: Choice, now: Time) {
    && IsReplica(x.meta, ch.chunkID, n)
    && y == EvacuateOne(x, uuid, n, ch, now)
    && if ExpectedLive(LiveOf(x.meta, ch.chunkID), n) < wanted
       then PassFor(Evicted(x, ch.chunkID, n), y, uuid, rf, ch.chunkID, ch.source, ch.targets, now)
       else ch.targets == []
  }

  lemma HandledIsStep(x: Sched, y: Sched, uuid: Uuids, rf: nat, wanted: nat, n: string, ch: Choice, now: Time)
    requires IsReplica(x.meta, ch.chunkID, n)
    requires if ExpectedLive(LiveOf(x.meta, ch.chunkID), n) < wanted
             then PassFor(Evicted(x, ch.chunkID, n), y, uuid, rf, ch.chunkID, ch.source, ch.targets, now)
             else y == Evicted(x, ch.chunkID, n) && ch.targets == []
    ensures MissingStep(x, y, uuid, rf, wanted, n, ch, now)
  {}

  ghost predicate MissingTrail(states: seq<Sched>, uuid: Uuids, rf: nat, wanted: nat, n: string,
                               trail: seq<Choice>, now: Time) {
    && |states| == |trail| + 1
    && forall i :: 0 <= i < |trail| ==> MissingStep(states[i], states[i + 1], uuid, rf, wanted, n, trail[i], now)
  }

  lemma MissingSnoc(states: seq<Sched>, uuid: Uuids, rf: nat, wanted: nat, n: string, trail: seq<Choice>,
                    now: Time, ch: Choice, y: Sched)
    requires MissingTrail(states, uuid, rf, wanted, n, trail, now)
    requires MissingStep(states[|trail|], y, uuid, rf, wanted, n, ch, now)
    ensures MissingTrail(states + [y], uuid, rf, wanted, n, trail + [ch], now)
    ensures (states + [y])[0] == states[0] && (states + [y])[|trail + [ch]|] == y
  {}

  lemma MissingAt(states: seq<Sched>, uuid: Uuids, rf: nat, wanted: nat, n: string, trail: seq<Choice>, now: Time,
                  k: nat)
    requires MissingTrail(states, uuid, rf, wanted, n, trail, now) && k < |trail|
    ensures MissingStep(states[k], states[k + 1], uuid, rf, wanted, n, trail[k], now)
  {}

  lemma MissingEvacuates(x: Sched, y: Sched, z: Sched, uuid: Uuids, rf: nat, wanted: nat, n: string,
                         gone: set<string>, ch: Choice, now: Time)
    requires Evacuated(x, y, n, gone) && MissingStep(y, z, uuid, rf, wanted, n, ch, now)
    ensures Evacuated(x, z, n, gone + {ch.chunkID})
  {
    EvictionEvacuates(x, y, n, gone, ch.chunkID);
    if ch.targets != [] {
      PassEvacuates(x, Evicted(y, ch.chunkID, n), z, uuid, rf, n, gone + {ch.chunkID}, ch, now);
    }
  }

  /** Every run of such steps withdraws the node from exactly the chunks treated, and nothing else. */
  lemma {:induction false} ReconciliationExact(states: seq<Sched>, uuid: Uuids, rf: nat, wanted: nat, n: string,
                                               trail: seq<Choice>, now: Time, k: nat)
    requires MissingTrail(states, uuid, rf, wanted, n, trail, now) && k <= |trail| && Inv(states[0].meta)
    ensures Evacuated(states[0], states[k], n, ChunksOf(trail[..k]))
  {
    TakeAll(trail);
    if k == 0 {
      NothingEvacuated(states[0], n);
    } else {
      ReconciliationExact(states, uuid, rf, wanted, n, trail, now, k - 1);
      MissingAt(states, uuid, rf, wanted, n, trail, now, k - 1);
      MissingEvacuates(states[0], states[k - 1], states[k], uuid, rf, wanted, n, ChunksOf(trail[..k - 1]),
                       trail[k - 1], now);
      TakeNext(trail, k - 1);
      ChunksSnoc(trail[..k - 1], trail[k - 1]);
    }
  }

  /** A chunk not treated yet has the live replicas it had at the start. */
  lemma UntreatedAsBefore(states: seq<Sched>, uuid: Uuids, rf: nat, wanted: nat, n: string, trail: seq<Choice>,
                          now: Time, c: string)
    requires MissingTrail(states, uuid, rf, wanted, n, trail, now) && Inv(states[0].meta)
    requires IsReplica(states[0].meta, c, n) && c !in ChunksOf(trail)
    ensures var s, t := states[0].meta, states[|trail|].meta;
            IsReplica(t, c, n) && ExpectedLive(LiveOf(t, c), n) == ExpectedLive(LiveOf(s, c), n)
  {
    ReconciliationExact(states, uuid, rf, wanted, n, trail, now, |trail|);
    TakeAll(trail);
    var s, t := states[0].meta, states[|trail|].meta;
    StillReplica(s, t, n, ChunksOf(trail), c);
    SameMembersSameCount(s, t, c, n, ChunksOf(trail));
  }

  lemma SameMembersSameCount(s: State, t: State, c: string, n: string, gone: set<string>)
    requires Inv(s) && Inv(t) && Withdrawn(s, t, n, gone) && c in s.chunks && c !in gone
    ensures |LiveOf(t, c)| == |LiveOf(s, c)| && (n in LiveOf(t, c) <==> n in LiveOf(s, c))
  {
    assert ChunkWithout(s.chunks[c], t.chunks[c], n, false);
    assert ChunkOk(s.files, c, s.chunks[c]) && ChunkOk(t.files, c, t.chunks[c]);
    FilterNoDup(s.chunks[c].replicas, IsLive(s.nodes));
    FilterNoDup(t.chunks[c].replicas, IsLive(t.nodes));
    ToSetSize(LiveOf(s, c));
    ToSetSize(LiveOf(t, c));
    assert ToSet(LiveOf(s, c)) == ToSet(LiveOf(t, c));
  }

  // ----- Repetition -----

  /** What the node still holds after the deletions is exactly what is now expected of it, so reconciling that
      inventory finds neither stale nor missing replicas. */
  lemma SurvivingInventoryIsExpected(s: State, t: State, n: string, reported: seq<string>, surviving: seq<string>)
    requires Withdrawn(s, t, n, Missing(s, n, reported))
    requires forall c :: c in surviving <==> c in reported && c !in Stale(s, n, reported)
    ensures Stale(t, n, surviving) == [] && Missing(t, n, surviving) == {}
    ensures forall c :: IsReplica(t, c, n) <==> IsReplica(s, c, n) && c in reported
  {
    forall c ensures IsReplica(t, c, n) <==> IsReplica(s, c, n) && c in reported {
      if c in s.chunks {
        assert ChunkWithout(s.chunks[c], t.chunks[c], n, c in Missing(s, n, reported));
      }
    }
    assert forall c :: c in surviving ==> !IsStale(t, n)(c);
    FilterNone(surviving, IsStale(t, n));
  }

  // ----- The reconciler -----

  class Reconciler {
    const fsm: MetadataFSM
    const repairer: RepairScheduler
    const replicationFactor: nat
    var deletions: seq<Deletion>     // DeleteChunk calls made so far
    var repairRequests: seq<string>  // chunks handed to the repairer so far

    constructor (repairer: RepairScheduler, replicationFactor: nat)
      requires replicationFactor > 0
      ensures fsm == repairer.fsm && this.repairer == repairer && this.replicationFactor == replicationFactor
      ensures deletions == [] && repairRequests == []
    {
      this.fsm, this.repairer, this.replicationFactor := repairer.fsm, repairer, replicationFactor;
      deletions, repairRequests := [], [];
    }

    ghost predicate Valid()
      reads this, repairer, fsm
    {
      fsm == repairer.fsm && repairer.Valid()
    }

    /** The eviction is refused, for the chunk is not expected there; the storage node is told to delete it. */
    method EvictStaleReplica(nodeID: string, address: string, chunkID: string)
      requires Valid() && !IsReplica(fsm.View(), chunkID, nodeID)
      modifies this`deletions, fsm
      ensures Valid() && fsm.View() == old(fsm.View()) && deletions == old(deletions) + [Deletion(address, chunkID)]
    {
      var evicted := repairer.ProposeEvictChunk(chunkID, nodeID);
      deletions := deletions + [Deletion(address, chunkID)];
    }

    method EvictStaleReplicas(nodeID: string, address: string, reported: seq<string>, expected: set<string>)
      requires Valid() && forall c :: c in expected <==> IsReplica(fsm.View(), c, nodeID)
      modifies this`deletions, fsm
      ensures Valid() && fsm.View() == old(fsm.View())
      ensures deletions == old(deletions) + Deletions(address, Stale(old(fsm.View()), nodeID, reported))
    {
      ghost var stale := IsStale(fsm.View(), nodeID);
      for i := 0 to |reported|
        invariant Valid() && fsm.View() == old(fsm.View())
        invariant deletions == old(deletions) + Deletions(address, Filter(reported[..i], stale))
      {
        FilterNext(reported, i, stale);
        if stale(reported[i]) {
          DeletionsSnoc(old(deletions), address, Filter(reported[..i], stale), reported[i]);
        }
        if reported[i] !in expected {
          EvictStaleReplica(nodeID, address, reported[i]);
        }
      }
      TakeAll(reported);
    }

    /** Counts the live replicas other than the node, which may still be listed. */
    static method CountOthers(live: seq<NodeEntry>, nodeID: string) returns (count: int)
      ensures count == ExpectedLive(Ids(live), nodeID)
    {
      var stillListed := false;
      for i := 0 to |live|
        invariant stillListed <==> nodeID in Ids(live)[..i]
      {
        if live[i].nodeID == nodeID { stillListed := true; }
      }
      count := if stillListed then |live| - 1 else |live|;
      TakeAll(Ids(live));
    }

    /** Evicts a missing replica and asks for repair when too few others are live. */
    method HandleMissingReplica(nodeID: string, chunkID: string, now: Time) returns (ghost ch: Choice)
      requires Valid() && IsReplica(fsm.View(), chunkID, nodeID)
      modifies this`repairRequests, repairer`jobs, repairer`issued, fsm
      ensures Valid() && ch.chunkID == chunkID
      ensures MissingStep(old(repairer.View()), repairer.View(), repairer.uuid, repairer.replicationFactor,
                          replicationFactor, nodeID, ch, now)
      ensures repairRequests == old(repairRequests) +
                (if ExpectedLive(LiveOf(old(fsm.View()), chunkID), nodeID) < replicationFactor then [chunkID] else [])
    {
      SameAnswer(fsm.View(), chunkID, nodeID);
      var evicted := repairer.ProposeEvictChunk(chunkID, nodeID);
      ghost var source, targets := RepairIfShort(nodeID, chunkID, now);
      ch := Choice(chunkID, source, targets);
      HandledIsStep(old(repairer.View()), repairer.View(), repairer.uuid, repairer.replicationFactor,
                    replicationFactor, nodeID, ch, now);
    }

    method RepairIfShort(nodeID: string, chunkID: string, now: Time)
      returns (ghost source: string, ghost targets: seq<string>)
      requires Valid() && chunkID in fsm.chunks
      modifies this`repairRequests, repairer`jobs, repairer`issued, fsm
      ensures Valid()
      ensures if ExpectedLive(LiveOf(old(fsm.View()), chunkID), nodeID) < replicationFactor
              then && repairRequests == old(repairRequests) + [chunkID]
                   && PassFor(old(repairer.View()), repairer.View(), repairer.uuid, repairer.replicationFactor,
                              chunkID, source, targets, now)
              else repairRequests == old(repairRequests) && repairer.View() == old(repairer.View()) && targets == []
    {
      source, targets := "", [];
      var found, live := fsm.GetChunkLocations(chunkID);
      var expectedLiveCount := CountOthers(live, nodeID);
      if expectedLiveCount < replicationFactor {
        repairRequests := repairRequests + [chunkID];
        source, targets := repairer.ScheduleRepairForChunk(chunkID, now);
      }
    }

    ghost predicate Progress(states: seq<Sched>, trail: seq<Choice>, nodeID: string, missing: seq<string>, now: Time)
      reads this, repairer, fsm
    {
      && Valid()
      && MissingTrail(states, repairer.uuid, repairer.replicationFactor, replicationFactor, nodeID, trail, now)
      && states[|trail|] == repairer.View() && Inv(states[0].meta) && Follows(trail, missing)
    }

    method HandleNextMissing(nodeID: string, missing: seq<string>, i: nat, now: Time, ghost states: seq<Sched>,
                             ghost trail: seq<Choice>)
      returns (ghost states': seq<Sched>, ghost trail': seq<Choice>)
      requires Progress(states, trail, nodeID, missing, now) && |trail| == i < |missing|
      requires NoDup(missing) && IsReplica(states[0].meta, missing[i], nodeID)
      modifies this`repairRequests, repairer`jobs, repairer`issued, fsm
      ensures Progress(states', trail', nodeID, missing, now) && |trail'| == i + 1 && states'[0] == states[0]
      ensures var short := IsShort(states[0].meta, nodeID, replicationFactor);
              repairRequests == old(repairRequests) + if short(missing[i]) then [missing[i]] else []
    {
      NextMissing(states, repairer.uuid, repairer.replicationFactor, replicationFactor, nodeID, trail, now, missing);
      ghost var ch := HandleMissingReplica(nodeID, missing[i], now);
      MissingSnoc(states, repairer.uuid, repairer.replicationFactor, replicationFactor, nodeID, trail, now, ch,
                  repairer.View());
      FollowsNext(trail, missing, ch);
      states', trail' := states + [repairer.View()], trail + [ch];
    }

    method HandleMissingReplicas(nodeID: string, missing: seq<string>,
                                 now: Time) returns (ghost states: seq<Sched>, ghost trail: seq<Choice>)
      requires Valid() && NoDup(missing) && forall c :: c in missing ==> IsReplica(fsm.View(), c, nodeID)
      modifies this`repairRequests, repairer`jobs, repairer`issued, fsm
      ensures Progress(states, trail, nodeID, missing, now)
      ensures states[0] == old(repairer.View()) && ChunksOf(trail) == ToSet(missing)
      ensures repairRequests ==
              old(repairRequests) + Filter(missing, IsShort(old(fsm.View()), nodeID, replicationFactor))
    {
      states, trail := [repairer.View()], [];
      ghost var short := IsShort(fsm.View(), nodeID, replicationFactor);
      for i := 0 to |missing|
        invariant Progress(states, trail, nodeID, missing, now) && |trail| == i && states[0] == old(repairer.View())
        invariant repairRequests == old(repairRequests) + Filter(missing[..i], short)
      {
        states, trail := HandleNextMissing(nodeID, missing, i, now, states, trail);
        FilterNext(missing, i, short);
        ConcatAssociates(old(repairRequests), Filter(missing[..i], short),
                         if short(missing[i]) then [missing[i]] else []);
      }
      TakeAll(missing);
      FollowedAll(trail, missing);
    }

    static method Unreported(expected: seq<string>, reported: seq<string>) returns (missing: seq<string>)
      requires NoDup(expected)
      ensures NoDup(missing) && forall c :: c in missing <==> c in expected && c !in reported
    {
      missing := [];
      for i := 0 to |expected|
        invariant NoDup(missing) && forall c :: c in missing <==> c in expected[..i] && c !in reported
      {
        TakeNext(expected, i);
        if expected[i] !in reported { missing := missing + [expected[i]]; }
      }
      TakeAll(expected);
    }

    /** Reconciles one node. Afterwards it is a replica of exactly the chunks it was a replica of and reported; no
        other membership changed; DeleteChunk went to exactly the reported entries that were not expected;
        repair was requested for exactly the missing chunks with too few other live replicas. */
    method ReconcileNode(nodeID: string, reported: seq<string>, now: Time)
      returns (ghost states: seq<Sched>, ghost trail: seq<Choice>, ghost asked: seq<string>)
      requires Valid()
      modifies this`deletions, this`repairRequests, repairer`jobs, repairer`issued, fsm
      ensures Valid()
      ensures nodeID !in old(fsm.nodes) ==>
                && repairer.View() == old(repairer.View()) && deletions == old(deletions)
                && repairRequests == old(repairRequests)
      ensures nodeID in old(fsm.nodes) ==>
                && MissingTrail(states, repairer.uuid, repairer.replicationFactor, replicationFactor, nodeID, trail,
                                now)
                && states[0] == old(repairer.View()) && states[|trail|] == repairer.View()
                && ChunksOf(trail) == Missing(old(fsm.View()), nodeID, reported)
                && Evacuated(old(repairer.View()), repairer.View(), nodeID, Missing(old(fsm.View()), nodeID, reported))
      ensures nodeID in old(fsm.nodes) ==>
                deletions == old(deletions)
                             + Deletions(old(fsm.nodes)[nodeID].address, Stale(old(fsm.View()), nodeID, reported))
      ensures nodeID in old(fsm.nodes) ==>
                && old(deletions) <= deletions
                && forall d :: d in deletions[|old(deletions)|..] <==>
                     && d.address == old(fsm.nodes)[nodeID].address && d.chunkID in reported
                     && !(d.chunkID in old(fsm.chunks) && nodeID in old(fsm.chunks)[d.chunkID].replicas)
      ensures nodeID in old(fsm.nodes) ==>
                && repairRequests == old(repairRequests) + asked && NoDup(asked)
                && forall c :: c in asked <==> c in Missing(old(fsm.View()), nodeID, reported)
                                               && IsShort(old(fsm.View()), nodeID, replicationFactor)(c)
    {
      states, trail, asked := [], [], [];
      if nodeID !in fsm.nodes { return; }
      var address := fsm.nodes[nodeID].address;
      DeletionsExact(fsm.View(), nodeID, address, reported);
      var expected := fsm.GetChunksByNode(nodeID);
      EvictStaleReplicas(nodeID, address, reported, set c | c in expected);
      states, trail, asked := EvictMissingReplicas(nodeID, expected, reported, now);
    }

    method EvictMissingReplicas(nodeID: string, expected: seq<string>, reported: seq<string>, now: Time)
      returns (ghost states: seq<Sched>, ghost trail: seq<Choice>, ghost asked: seq<string>)
      requires Valid() && NoDup(expected) && forall c :: c in expected <==> IsReplica(fsm.View(), c, nodeID)
      modifies this`repairRequests, repairer`jobs, repairer`issued, fsm
      ensures Valid()
      ensures MissingTrail(states, repairer.uuid, repairer.replicationFactor, replicationFactor, nodeID, trail, now)
      ensures states[0] == old(repairer.View()) && states[|trail|] == repairer.View()
      ensures ChunksOf(trail) == Missing(old(fsm.View()), nodeID, reported)
      ensures Evacuated(old(repairer.View()), repairer.View(), nodeID, Missing(old(fsm.View()), nodeID, reported))
      ensures repairRequests == old(repairRequests) + asked && NoDup(asked)
      ensures forall c :: c in asked <==> c in Missing(old(fsm.View()), nodeID, reported)
                                          && IsShort(old(fsm.View()), nodeID, replicationFactor)(c)
    {
      var missing := Unreported(expected, reported);
      assert ToSet(missing) == Missing(fsm.View(), nodeID, reported);
      FilterNoDup(missing, IsShort(fsm.View(), nodeID, replicationFactor));
      asked := Filter(missing, IsShort(fsm.View(), nodeID, replicationFactor));
      states, trail := HandleMissingReplicas(nodeID, missing, now);
      ReconciliationExact(states, repairer.uuid, repairer.replicationFactor, replicationFactor, nodeID, trail, now,
                          |trail|);
      TakeAll(trail);
    }
  }

  /** Fewer than `wanted` live replicas other than `n`. */
  ghost function IsShort(s: State, n: string, wanted: nat): string -> bool {
    c => c in s.chunks && ExpectedLive(LiveOf(s, c), n) < wanted
  }

  /** The next missing chunk still lists the node and is short of replicas exactly if it was at the start. */
  lemma NextMissing(states: seq<Sched>, uuid: Uuids, rf: nat, wanted: nat, n: string, trail: seq<Choice>,
                    now: Time, ids: seq<string>)
    requires MissingTrail(states, uuid, rf, wanted, n, trail, now) && Inv(states[0].meta)
    requires Follows(trail, ids) && |trail| < |ids| && NoDup(ids) && IsReplica(states[0].meta, ids[|trail|], n)
    ensures var c, t, short := ids[|trail|], states[|trail|].meta, IsShort(states[0].meta, n, wanted);
            IsReplica(t, c, n) && (short(c) <==> ExpectedLive(LiveOf(t, c), n) < wanted)
  {
    UntreatedAsBefore(states, uuid, rf, wanted, n, trail, now, ids[|trail|]);
  }
}
