/** What one scheduling pass decides for a chunk: whether to repair it, from where and to where. */
module RepairChoice {
  import opened Records
  import opened Seqs
  import opened Metadata
  import opened Structure
  import opened Placement
  import opened Scheduling

  /** Nodes that may receive a copy: alive and not already a live replica. */
  ghost function Candidates(s: State, live: seq<string>): set<string> {
    set n | n in s.nodes && s.nodes[n].status == NodeAlive && n !in live
  }

  /** The source is a live replica no busier than any other. */
  ghost predicate GoodSource(s: State, live: seq<string>, source: string) {
    && source in live && source in s.nodes
    && forall n :: n in live && n in s.nodes ==> s.nodes[source].chunkCount <= s.nodes[n].chunkCount
  }

  /** The targets are distinct candidates, and no candidate left out ranks ahead of one of them. */
  ghost predicate GoodTargets(s: State, live: seq<string>, targets: seq<string>) {
    && NoDup(targets)
    && (forall t :: t in targets ==> t in Candidates(s, live))
    && (forall n, t :: n in Candidates(s, live) && n !in targets && t in targets ==>
          !Before(MostFree, s.nodes[n], s.nodes[t]))
  }

  /** A pass over a chunk with the given live replicas and deficit: it either does nothing, exactly when the
      chunk is unknown, nothing live is left to copy from or candidates are too few, or creates orders from
      a good source to as many good targets as there are replicas missing. */
  ghost predicate Pass(x: Sched, y: Sched, uuid: Uuids, c: string, live: seq<string>, deficit: nat,
                       source: string, targets: seq<string>, now: Time)
  {
    && y == CreateJobs(x, uuid, c, source, targets, now)
    && if c !in x.meta.chunks || live == [] || |Candidates(x.meta, live)| < deficit then targets == []
       else |targets| == deficit && GoodSource(x.meta, live, source) && GoodTargets(x.meta, live, targets)
  }

  /** A pass over a chunk as it stands: nothing to do when it is replicated enough. */
  ghost predicate PassFor(x: Sched, y: Sched, uuid: Uuids, rf: nat, c: string, source: string,
                          targets: seq<string>, now: Time) {
    if c !in x.meta.chunks || rf <= |LiveOf(x.meta, c)| then y == x && targets == []
    else Pass(x, y, uuid, c, LiveOf(x.meta, c), rf - |LiveOf(x.meta, c)|, source, targets, now)
  }

  /** Nodes on their way out still serve: a chunk held only by draining nodes is copied from one of them. */
  lemma DrainingIsRepaired(x: Sched, y: Sched, uuid: Uuids, rf: nat, c: string, source: string, targets: seq<string>,
                           now: Time)
    requires PassFor(x, y, uuid, rf, c, source, targets, now) && c in x.meta.chunks
    requires var replicas := x.meta.chunks[c].replicas;
             && 0 < |replicas| < rf
             && (forall r :: r in replicas ==> r in x.meta.nodes && x.meta.nodes[r].status == NodeDraining)
             && rf - |replicas| <= |set n | n in x.meta.nodes && x.meta.nodes[n].status == NodeAlive|
    ensures |targets| == rf - |x.meta.chunks[c].replicas|
    ensures source in x.meta.chunks[c].replicas
    ensures forall t :: t in targets ==> x.meta.nodes[t].status == NodeAlive
  {
    FilterAll(x.meta.chunks[c].replicas, IsLive(x.meta.nodes));
    assert Candidates(x.meta, x.meta.chunks[c].replicas) ==
           set n | n in x.meta.nodes && x.meta.nodes[n].status == NodeAlive;
  }

  // ----- A selection among the alive nodes is a good choice -----

  ghost predicate ListsAlive(s: State, alive: seq<NodeEntry>) {
    && NoDup(Ids(alive))
    && forall n :: n in alive <==> n.nodeID in s.nodes && n == s.nodes[n.nodeID] && n.status == NodeAlive
  }

  lemma {:induction false} FilterKeepsIdsDistinct(entries: seq<NodeEntry>, p: NodeEntry -> bool)
    requires NoDup(Ids(entries))
    ensures NoDup(Ids(Filter(entries, p)))
  {
    if |entries| > 0 {
      var init, last := entries[..|entries| - 1], entries[|entries| - 1];
      assert Ids(init) == Ids(entries)[..|init|];
      FilterKeepsIdsDistinct(init, p);
      var kept := Filter(init, p);
      forall i | 0 <= i < |kept| ensures kept[i].nodeID != last.nodeID {
        assert kept[i] in init;
        var k :| 0 <= k < |init| && init[k] == kept[i];
        assert Ids(entries)[k] != Ids(entries)[|init|];
      }
    }
  }

  lemma InIds(entries: seq<NodeEntry>, n: NodeEntry)
    requires n in entries
    ensures n.nodeID in Ids(entries)
  {
    var i :| 0 <= i < |entries| && entries[i] == n;
    assert Ids(entries)[i] == n.nodeID;
  }

  /** The eligible nodes are the candidates, each once. */
  lemma EligibleAreCandidates(s: State, alive: seq<NodeEntry>, live: seq<NodeEntry>)
    requires OthersOk(s) && ListsAlive(s, alive)
    ensures var pool := Eligible(alive, 0, live);
            && NoDup(Ids(pool)) && |pool| == |Candidates(s, Ids(live))|
            && (forall n :: n in pool <==> n.nodeID in Candidates(s, Ids(live)) && n == s.nodes[n.nodeID])
  {
    var pool := Eligible(alive, 0, live);
    FilterKeepsIdsDistinct(alive, IsEligible(0, IdSet(live)));
    SameNames(live);
    assert ToSet(Ids(pool)) == Candidates(s, Ids(live)) by {
      forall n | n in Candidates(s, Ids(live)) ensures n in Ids(pool) {
        assert s.nodes[n] in pool;
        InIds(pool, s.nodes[n]);
      }
      forall n | n in Ids(pool) ensures n in Candidates(s, Ids(live)) {
        var i :| 0 <= i < |pool| && Ids(pool)[i] == n;
        assert pool[i] in pool;
      }
    }
    ToSetSize(Ids(pool));
  }

  lemma SameNames(entries: seq<NodeEntry>)
    ensures forall x :: x in IdSet(entries) <==> x in Ids(entries)
  {
    forall x | x in IdSet(entries) ensures x in Ids(entries) {
      var n :| n in entries && n.nodeID == x;
      InIds(entries, n);
    }
    forall x | x in Ids(entries) ensures x in IdSet(entries) {
      var i :| 0 <= i < |entries| && Ids(entries)[i] == x;
      assert entries[i] in entries;
    }
  }

  lemma {:induction false} DistinctOnce(pool: seq<NodeEntry>, n: NodeEntry)
    requires NoDup(Ids(pool))
    ensures multiset(pool)[n] <= 1
  {
    if |pool| > 0 {
      var init, last := pool[..|pool| - 1], pool[|pool| - 1];
      assert pool == init + [last];
      assert Ids(init) == Ids(pool)[..|init|];
      DistinctOnce(init, n);
      if n in init {
        var k :| 0 <= k < |init| && init[k] == n;
        assert Ids(pool)[k] != Ids(pool)[|init|];
      }
    }
  }

  lemma RepeatedCounts(s: seq<NodeEntry>, i: nat, j: nat)
    requires i < j < |s| && s[i] == s[j]
    ensures multiset(s)[s[i]] >= 2
  {
    assert s == s[..i] + [s[i]] + s[i + 1..j] + [s[j]] + s[j + 1..];
  }

  /** Entries drawn from a pool with distinct ids have distinct ids. */
  lemma DrawnAreDistinct(chosen: seq<NodeEntry>, pool: seq<NodeEntry>)
    requires NoDup(Ids(pool)) && multiset(chosen) <= multiset(pool)
    ensures NoDup(Ids(chosen))
  {
    forall i, j | 0 <= i < j < |chosen| ensures chosen[i].nodeID != chosen[j].nodeID {
      assert chosen[i] in multiset(pool) && chosen[j] in multiset(pool);
      if chosen[i] == chosen[j] {
        RepeatedCounts(chosen, i, j);
        DistinctOnce(pool, chosen[i]);
      } else {
        var a :| 0 <= a < |pool| && pool[a] == chosen[i];
        var b :| 0 <= b < |pool| && pool[b] == chosen[j];
        assert Ids(pool)[a] != Ids(pool)[b];
      }
    }
  }

  lemma TopIsGoodTargets(s: State, alive: seq<NodeEntry>, live: seq<NodeEntry>, chosen: seq<NodeEntry>, count: nat)
    requires OthersOk(s) && ListsAlive(s, alive)
    requires TopOf(MostFree, chosen, Eligible(alive, 0, live), count)
    ensures GoodTargets(s, Ids(live), Ids(chosen))
  {
    var pool := Eligible(alive, 0, live);
    EligibleAreCandidates(s, alive, live);
    DrawnAreDistinct(chosen, pool);
    forall t | t in Ids(chosen) ensures t in Candidates(s, Ids(live)) && s.nodes[t] in chosen {
      var i :| 0 <= i < |chosen| && Ids(chosen)[i] == t;
      assert chosen[i] in multiset(pool);
    }
    forall n, t | n in Candidates(s, Ids(live)) && n !in Ids(chosen) && t in Ids(chosen)
      ensures !Before(MostFree, s.nodes[n], s.nodes[t])
    {
      assert s.nodes[n] in pool;
      if s.nodes[n] in chosen { InIds(chosen, s.nodes[n]); }
      assert s.nodes[n] in multiset(pool) - multiset(chosen);
    }
  }

  /** The first least-loaded live replica is a good source. */
  lemma LeastLoadedIsGoodSource(s: State, live: seq<NodeEntry>, best: NodeEntry)
    requires forall n :: n in live ==> n.nodeID in s.nodes && n == s.nodes[n.nodeID]
    requires best in live && forall k :: 0 <= k < |live| ==> !Before(LeastLoaded, live[k], best)
    ensures GoodSource(s, Ids(live), best.nodeID)
  {
    InIds(live, best);
    forall n | n in Ids(live) && n in s.nodes ensures best.chunkCount <= s.nodes[n].chunkCount {
      var k :| 0 <= k < |live| && Ids(live)[k] == n;
      assert live[k] in live;
    }
  }
}
