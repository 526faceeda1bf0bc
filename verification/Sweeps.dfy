/** What a sweep does that declares silent nodes dead and evacuates them, one after the other. */
module Sweeps {
  import opened Records
  import opened Seqs
  import opened Metadata
  import Replay
  import opened Structure
  import opened Scheduling
  import opened Withdrawal
  import opened Evacuation

  /** An alive node not heard from for longer than the timeout. */
  predicate IsSilent(n: NodeEntry, now: Time, timeout: int) {
    n.status == NodeAlive && now - n.lastSeen > timeout
  }

  ghost function Silent(s: State, now: Time, timeout: int): set<string> {
    set n | n in s.nodes && IsSilent(s.nodes[n], now, timeout)
  }

  /** A heartbeat keeps its node, and only its node, from being silent for as long as the timeout. */
  lemma HeartbeatCounts(s: State, n: string, at: Time, now: Time, timeout: int)
    requires n in s.nodes
    ensures var t := Replay.Seen(s, n, at);
            && t.nodes.Keys == s.nodes.Keys
            && (n in Silent(t, now, timeout) <==> s.nodes[n].status == NodeAlive && now - at > timeout)
            && forall m :: m != n ==> (m in Silent(t, now, timeout) <==> m in Silent(s, now, timeout))
  {}

  ghost predicate NodeSwept(n: NodeEntry, later: NodeEntry, dead: bool) {
    later == if dead then n.(status := NodeDead, updatedAt := later.updatedAt) else n
  }

  ghost predicate ChunkSwept(chunk: ChunkRecord, later: ChunkRecord, dead: set<string>) {
    && later == chunk.(replicas := later.replicas)
    && forall m :: m in later.replicas <==> m in chunk.replicas && m !in dead
  }

  /** From `s` to `t`, exactly the nodes in `dead` were declared dead, and exactly they left all replica lists. */
  ghost predicate Swept(s: State, t: State, dead: set<string>) {
    && t.files == s.files && t.peers == s.peers
    && t.nodes.Keys == s.nodes.Keys && t.chunks.Keys == s.chunks.Keys
    && (forall n :: n in s.nodes ==> NodeSwept(s.nodes[n], t.nodes[n], n in dead))
    && (forall c :: c in s.chunks ==> ChunkSwept(s.chunks[c], t.chunks[c], dead))
  }

  /** A right order, except that its source or target may have died since it was created. */
  ghost predicate RightUnlessDied(s: State, job: RepairJob, dead: set<string>) {
    && job.chunkID in s.chunks && job.status == JobPending && !job.deleteSource
    && !IsReplica(s, job.chunkID, job.targetNodeID)
    && job.targetNodeID in s.nodes
    && (job.targetNodeID !in dead ==> s.nodes[job.targetNodeID].status == NodeAlive)
    && (job.sourceNodeID !in dead ==> job.sourceNodeID in LiveOf(s, job.chunkID))
  }

  ghost predicate OrdersSwept(s: State, t: State, dead: set<string>) {
    && (forall j :: j in s.jobs ==> j in t.jobs && t.jobs[j] == s.jobs[j])
    && (forall j :: j in t.jobs && j !in s.jobs ==> RightUnlessDied(t, t.jobs[j], dead))
  }

  // ----- One node -----

  function Marked(x: Sched, n: string, now: Time): Sched {
    x.(meta := SetNodeStatus(x.meta, n, NodeDead, now).state)
  }

  /** One node declared dead and evacuated; `states` and `trail` are the steps of the evacuation. */
  datatype Death = Death(node: string, states: seq<Sched>, trail: seq<Choice>)

  ghost predicate LegalDeath(x: Sched, y: Sched, uuid: Uuids, rf: nat, d: Death, now: Time) {
    && d.node in x.meta.nodes
    && LegalTrail(d.states, uuid, rf, d.node, d.trail, now)
    && d.states[0] == Marked(x, d.node, now) && d.states[|d.trail|] == y
    && forall c :: c in ChunksOf(d.trail) <==> IsReplica(x.meta, c, d.node)
  }

  lemma MarkedKeepsInv(x: Sched, n: string, now: Time)
    requires Inv(x.meta) && n in x.meta.nodes
    ensures Inv(Marked(x, n, now).meta)
    ensures forall c :: IsReplica(Marked(x, n, now).meta, c, n) == IsReplica(x.meta, c, n)
  {
    NodeStatusKeepsInv(x.meta, n, NodeDead, now);
  }

  lemma DeathEvacuates(x: Sched, y: Sched, uuid: Uuids, rf: nat, d: Death, now: Time)
    requires Inv(x.meta) && LegalDeath(x, y, uuid, rf, d, now)
    ensures Evacuated(Marked(x, d.node, now), y, d.node, x.meta.chunks.Keys)
  {
    MarkedKeepsInv(x, d.node, now);
    EvacuationExact(d.states, uuid, rf, d.node, d.trail, now, |d.trail|);
    TakeAll(d.trail);
    EvacuatedEverywhere(Marked(x, d.node, now), y, d.node, ChunksOf(d.trail));
  }

  lemma DeathSweepsNodes(s: State, t: State, dead: set<string>, n: string, now: Time, u: State)
    requires Swept(s, t, dead) && n in t.nodes
    requires Withdrawn(SetNodeStatus(t, n, NodeDead, now).state, u, n, t.chunks.Keys)
    ensures Swept(s, u, dead + {n})
  {
    forall m | m in s.nodes ensures NodeSwept(s.nodes[m], u.nodes[m], m in dead + {n}) {
      assert NodeSwept(s.nodes[m], t.nodes[m], m in dead);
    }
    forall c | c in s.chunks ensures ChunkSwept(s.chunks[c], u.chunks[c], dead + {n}) {
      assert ChunkSwept(s.chunks[c], t.chunks[c], dead);
      assert ChunkWithout(t.chunks[c], u.chunks[c], n, true);
    }
  }

  lemma DeathKeepsOrder(t: State, u: State, dead: set<string>, n: string, now: Time, job: RepairJob)
    requires n in t.nodes && RightUnlessDied(t, job, dead)
    requires Withdrawn(SetNodeStatus(t, n, NodeDead, now).state, u, n, t.chunks.Keys)
    ensures RightUnlessDied(u, job, dead + {n})
  {
    assert ChunkWithout(t.chunks[job.chunkID], u.chunks[job.chunkID], n, true);
  }

  lemma DeathKeepsOrders(s: State, t: State, dead: set<string>, n: string, now: Time, u: State)
    requires OrdersSwept(s, t, dead) && n in t.nodes
    requires Withdrawn(SetNodeStatus(t, n, NodeDead, now).state, u, n, t.chunks.Keys)
    requires RightOrdersAdded(SetNodeStatus(t, n, NodeDead, now).state, u, t.chunks.Keys)
    ensures OrdersSwept(s, u, dead + {n})
  {
    forall j | j in u.jobs && j !in s.jobs ensures RightUnlessDied(u, u.jobs[j], dead + {n}) {
      if j in t.jobs {
        DeathKeepsOrder(t, u, dead, n, now, t.jobs[j]);
      } else {
        assert RightOrder(u, u.jobs[j]);
      }
    }
  }

  // ----- A whole sweep -----

  /** A sweep: one death after the other; `points` are the states between them. */
  ghost predicate LegalSweep(points: seq<Sched>, uuid: Uuids, rf: nat, deaths: seq<Death>, now: Time) {
    && |points| == |deaths| + 1
    && forall i :: 0 <= i < |deaths| ==> LegalDeath(points[i], points[i + 1], uuid, rf, deaths[i], now)
  }

  lemma SweepSnoc(points: seq<Sched>, uuid: Uuids, rf: nat, deaths: seq<Death>, now: Time, d: Death, y: Sched)
    requires LegalSweep(points, uuid, rf, deaths, now) && LegalDeath(points[|deaths|], y, uuid, rf, d, now)
    ensures LegalSweep(points + [y], uuid, rf, deaths + [d], now)
  {}

  function DeadOf(deaths: seq<Death>): set<string> {
    set d | d in deaths :: d.node
  }

  lemma DeadSnoc(deaths: seq<Death>, d: Death)
    ensures DeadOf(deaths + [d]) == DeadOf(deaths) + {d.node}
  {}

  ghost predicate SweptTo(x: Sched, y: Sched, dead: set<string>) {
    Inv(y.meta) && Swept(x.meta, y.meta, dead) && OrdersSwept(x.meta, y.meta, dead)
  }

  lemma DeathStep(x: Sched, y: Sched, z: Sched, uuid: Uuids, rf: nat, dead: set<string>, d: Death, now: Time)
    requires SweptTo(x, y, dead) && LegalDeath(y, z, uuid, rf, d, now)
    ensures SweptTo(x, z, dead + {d.node})
  {
    DeathEvacuates(y, z, uuid, rf, d, now);
    DeathSweepsNodes(x.meta, y.meta, dead, d.node, now, z.meta);
    DeathKeepsOrders(x.meta, y.meta, dead, d.node, now, z.meta);
  }

  lemma SweepStep(points: seq<Sched>, uuid: Uuids, rf: nat, deaths: seq<Death>, now: Time, k: nat)
    requires LegalSweep(points, uuid, rf, deaths, now) && k < |deaths|
    ensures LegalDeath(points[k], points[k + 1], uuid, rf, deaths[k], now)
  {}

  /** After every legal sweep exactly the nodes it treated are newly dead, exactly they left all replica lists,
      and every order created is right unless one of its ends was swept too. */
  lemma {:induction false} SweepExact(points: seq<Sched>, uuid: Uuids, rf: nat, deaths: seq<Death>, now: Time, k: nat)
    requires LegalSweep(points, uuid, rf, deaths, now) && k <= |deaths| && Inv(points[0].meta)
    ensures SweptTo(points[0], points[k], DeadOf(deaths[..k]))
  {
    TakeAll(deaths);
    if k == 0 {
      NothingSwept(points[0].meta);
    } else {
      SweepExact(points, uuid, rf, deaths, now, k - 1);
      SweepStep(points, uuid, rf, deaths, now, k - 1);
      DeathStep(points[0], points[k - 1], points[k], uuid, rf, DeadOf(deaths[..k - 1]), deaths[k - 1], now);
      TakeNext(deaths, k - 1);
      DeadSnoc(deaths[..k - 1], deaths[k - 1]);
    }
  }

  /** After a sweep, an order it created is right if and only if neither of its ends was swept as well. */
  lemma OrderRightIff(s: State, t: State, dead: set<string>, j: string)
    requires Swept(s, t, dead) && dead <= s.nodes.Keys && OrdersSwept(s, t, dead) && j in t.jobs && j !in s.jobs
    ensures RightOrder(t, t.jobs[j]) <==> t.jobs[j].sourceNodeID !in dead && t.jobs[j].targetNodeID !in dead
  {
    var job := t.jobs[j];
    assert RightUnlessDied(t, job, dead);
    assert ChunkSwept(s.chunks[job.chunkID], t.chunks[job.chunkID], dead);
    if job.targetNodeID in dead {
      assert NodeSwept(s.nodes[job.targetNodeID], t.nodes[job.targetNodeID], true);
    }
  }

  // ----- When all orders of a sweep are right -----

  ghost predicate NewOrdersRight(s: State, t: State) {
    forall j :: j in t.jobs && j !in s.jobs ==> RightOrder(t, t.jobs[j])
  }

  /** A sweep of a well-formed state that treats each of its silent nodes once. */
  ghost predicate SweepsSilent(points: seq<Sched>, uuid: Uuids, rf: nat, deaths: seq<Death>, now: Time, timeout: int) {
    && LegalSweep(points, uuid, rf, deaths, now) && Inv(points[0].meta)
    && DeadOf(deaths) == Silent(points[0].meta, now, timeout) && |deaths| == |DeadOf(deaths)|
  }

  lemma OneDeathOrdersRight(points: seq<Sched>, uuid: Uuids, rf: nat, deaths: seq<Death>, now: Time)
    requires LegalSweep(points, uuid, rf, deaths, now) && |deaths| <= 1 && Inv(points[0].meta)
    ensures NewOrdersRight(points[0].meta, points[|deaths|].meta)
  {
    if |deaths| == 1 {
      SweepStep(points, uuid, rf, deaths, now, 0);
      DeathEvacuates(points[0], points[1], uuid, rf, deaths[0], now);
    }
  }

  /** With a replication factor of one, or none, an evacuation orders nothing. */
  lemma StepOrdersNothing(x: Sched, y: Sched, uuid: Uuids, rf: nat, dead: string, ch: Choice, now: Time)
    requires LegalStep(x, y, uuid, rf, dead, ch, now) && rf <= 1
    ensures y.meta.jobs == x.meta.jobs
  {
    assert ch.targets == [];
    var e := Evicted(x, ch.chunkID, dead);
    assert CreateJobs(e, uuid, ch.chunkID, ch.source, [], now) == e;
  }

  lemma {:induction false} TrailOrdersNothing(states: seq<Sched>, uuid: Uuids, rf: nat, dead: string,
                                              trail: seq<Choice>, now: Time, k: nat)
    requires LegalTrail(states, uuid, rf, dead, trail, now) && rf <= 1 && k <= |trail|
    ensures states[k].meta.jobs == states[0].meta.jobs
  {
    if k > 0 {
      TrailOrdersNothing(states, uuid, rf, dead, trail, now, k - 1);
      TrailStep(states, uuid, rf, dead, trail, now, k - 1);
      StepOrdersNothing(states[k - 1], states[k], uuid, rf, dead, trail[k - 1], now);
    }
  }

  lemma {:induction false} SweepOrdersNothing(points: seq<Sched>, uuid: Uuids, rf: nat, deaths: seq<Death>, now: Time,
                                              k: nat)
    requires LegalSweep(points, uuid, rf, deaths, now) && rf <= 1 && k <= |deaths|
    ensures points[k].meta.jobs == points[0].meta.jobs
  {
    if k > 0 {
      SweepOrdersNothing(points, uuid, rf, deaths, now, k - 1);
      SweepStep(points, uuid, rf, deaths, now, k - 1);
      var d := deaths[k - 1];
      TrailOrdersNothing(d.states, uuid, rf, d.node, d.trail, now, |d.trail|);
    }
  }

  /** If at most one node is silent, or no copies are wanted, every order of the sweep is right. */
  lemma FewSilentOrdersRight(points: seq<Sched>, uuid: Uuids, rf: nat, deaths: seq<Death>, now: Time, timeout: int)
    requires SweepsSilent(points, uuid, rf, deaths, now, timeout)
    requires |Silent(points[0].meta, now, timeout)| <= 1 || rf <= 1
    ensures NewOrdersRight(points[0].meta, points[|deaths|].meta)
  {
    if rf <= 1 {
      SweepOrdersNothing(points, uuid, rf, deaths, now, |deaths|);
    } else {
      OneDeathOrdersRight(points, uuid, rf, deaths, now);
    }
  }

  /** Sweeping forgets no node. */
  lemma StillRegistered(points: seq<Sched>, uuid: Uuids, rf: nat, deaths: seq<Death>, now: Time, n: string)
    requires LegalSweep(points, uuid, rf, deaths, now) && Inv(points[0].meta) && n in points[0].meta.nodes
    ensures n in points[|deaths|].meta.nodes
  {
    SweepExact(points, uuid, rf, deaths, now, |deaths|);
  }

  ghost function SilentAmong(all: seq<NodeEntry>, now: Time, timeout: int): set<string> {
    set n | n in all && IsSilent(n, now, timeout) :: n.nodeID
  }

  lemma NothingSwept(s: State)
    ensures Swept(s, s, {}) && OrdersSwept(s, s, {})
  {}

  lemma OneMoreNode(all: seq<NodeEntry>, i: nat, now: Time, timeout: int)
    requires i < |all|
    ensures SilentAmong(all[..i + 1], now, timeout) ==
            SilentAmong(all[..i], now, timeout) + if IsSilent(all[i], now, timeout) then {all[i].nodeID} else {}
    ensures NoDup(Ids(all)) ==> all[i].nodeID !in SilentAmong(all[..i], now, timeout)
  {
    TakeNext(all, i);
    assert forall k :: 0 <= k < |all| ==> Ids(all)[k] == all[k].nodeID;
  }

  lemma SilentAmongAll(s: State, all: seq<NodeEntry>, now: Time, timeout: int)
    requires OthersOk(s) && forall n :: n in all <==> n.nodeID in s.nodes && n == s.nodes[n.nodeID]
    ensures SilentAmong(all, now, timeout) == Silent(s, now, timeout)
  {
    forall n | n in Silent(s, now, timeout) ensures n in SilentAmong(all, now, timeout) {
      assert s.nodes[n] in all;
    }
  }
}
