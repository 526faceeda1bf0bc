/** The watcher that sweeps silent nodes. */
module NodeWatchers {
  import opened Records
  import opened Seqs
  import opened Metadata
  import opened Structure
  import opened MetadataFsm
  import opened Scheduling
  import opened RepairSchedulers
  import opened Sweeps

  class NodeWatcher {
    const fsm: MetadataFSM
    const repair: RepairScheduler
    const suspectTimeout: int

    constructor (repair: RepairScheduler, suspectTimeout: int)
      ensures this.repair == repair && fsm == repair.fsm && this.suspectTimeout == suspectTimeout
    {
      this.fsm, this.repair, this.suspectTimeout := repair.fsm, repair, suspectTimeout;
    }

    method DeclareDead(n: string, now: Time) returns (ghost d: Death)
      requires fsm == repair.fsm && repair.Valid() && n in fsm.nodes
      modifies repair`jobs, repair`issued, fsm
      ensures repair.Valid() && d.node == n
      ensures LegalDeath(old(repair.View()), repair.View(), repair.uuid, repair.replicationFactor, d, now)
    {
      MarkedKeepsInv(repair.View(), n, now);
      var marked := fsm.Propose(MarkNodeDead(n, now));
      assert repair.View() == Marked(old(repair.View()), n, now);
      ghost var states, trail := repair.TriggerRepair(n, now);
      d := Death(n, states, trail);
    }

    /** A follower does nothing. On the leader every silent node is declared dead and evacuated, one after the
        other, and nothing else happens. If at most one node is silent, every copy ordered is from a live
        replica to an alive node. */
    method Sweep(isLeader: bool, now: Time) returns (ghost points: seq<Sched>, ghost deaths: seq<Death>)
      requires fsm == repair.fsm && repair.Valid()
      modifies repair`jobs, repair`issued, fsm
      ensures repair.Valid()
      ensures if isLeader
              then SweepsSilent(points, repair.uuid, repair.replicationFactor, deaths, now, suspectTimeout)
              else deaths == [] && |points| == 1
      ensures isLeader ==> forall n :: n in DeadOf(deaths) <==>
                && n in old(fsm.nodes) && old(fsm.nodes)[n].status == NodeAlive
                && now - old(fsm.nodes)[n].lastSeen > suspectTimeout
      ensures points[0] == old(repair.View()) && points[|deaths|] == repair.View()
      ensures SweptTo(old(repair.View()), repair.View(), DeadOf(deaths))
      ensures |Silent(old(fsm.View()), now, suspectTimeout)| <= 1 || repair.replicationFactor <= 1 ==>
                NewOrdersRight(old(fsm.View()), fsm.View())
    {
      if !isLeader {
        points, deaths := [repair.View()], [];
        NothingSwept(repair.View().meta);
        return;
      }
      var all := fsm.GetAllNodes();
      SilentAmongAll(fsm.View(), all, now, suspectTimeout);
      points, deaths := SweepEach(all, now);
      TakeAll(all);
      SweepExact(points, repair.uuid, repair.replicationFactor, deaths, now, |deaths|);
      TakeAll(deaths);
      if |Silent(points[0].meta, now, suspectTimeout)| <= 1 || repair.replicationFactor <= 1 {
        FewSilentOrdersRight(points, repair.uuid, repair.replicationFactor, deaths, now, suspectTimeout);
      }
    }

    /** The sweep has dealt with the first `i` nodes. */
    ghost predicate Sweeping(points: seq<Sched>, deaths: seq<Death>, all: seq<NodeEntry>, i: nat, now: Time)
      requires i <= |all|
    {
      && LegalSweep(points, repair.uuid, repair.replicationFactor, deaths, now)
      && DeadOf(deaths) == SilentAmong(all[..i], now, suspectTimeout) && |deaths| == |DeadOf(deaths)|
    }

    lemma DeathKeepsSweeping(points: seq<Sched>, deaths: seq<Death>, all: seq<NodeEntry>, i: nat, now: Time, d: Death,
                             y: Sched)
      requires i < |all| && NoDup(Ids(all)) && Sweeping(points, deaths, all, i, now)
      requires IsSilent(all[i], now, suspectTimeout) && d.node == all[i].nodeID
      requires LegalDeath(points[|deaths|], y, repair.uuid, repair.replicationFactor, d, now)
      ensures Sweeping(points + [y], deaths + [d], all, i + 1, now)
      ensures (points + [y])[0] == points[0] && (points + [y])[|deaths + [d]|] == y
    {
      OneMoreNode(all, i, now, suspectTimeout);
      SweepSnoc(points, repair.uuid, repair.replicationFactor, deaths, now, d, y);
      DeadSnoc(deaths, d);
    }

    lemma SpareKeepsSweeping(points: seq<Sched>, deaths: seq<Death>, all: seq<NodeEntry>, i: nat, now: Time)
      requires i < |all| && NoDup(Ids(all)) && Sweeping(points, deaths, all, i, now)
      requires !IsSilent(all[i], now, suspectTimeout)
      ensures Sweeping(points, deaths, all, i + 1, now)
    {
      OneMoreNode(all, i, now, suspectTimeout);
    }

    /** Looks at the next node. */
    method SweepNext(all: seq<NodeEntry>, i: nat, now: Time, ghost points: seq<Sched>, ghost deaths: seq<Death>)
      returns (ghost points': seq<Sched>, ghost deaths': seq<Death>)
      requires fsm == repair.fsm && repair.Valid() && i < |all| && NoDup(Ids(all))
      requires Sweeping(points, deaths, all, i, now) && points[|deaths|] == repair.View()
      requires Inv(points[0].meta) && all[i].nodeID in points[0].meta.nodes
      modifies repair`jobs, repair`issued, fsm
      ensures repair.Valid() && Sweeping(points', deaths', all, i + 1, now)
      ensures points'[0] == points[0] && points'[|deaths'|] == repair.View()
    {
      points', deaths' := points, deaths;
      if all[i].status == NodeAlive && now - all[i].lastSeen > suspectTimeout {
        StillRegistered(points, repair.uuid, repair.replicationFactor, deaths, now, all[i].nodeID);
        ghost var d := DeclareDead(all[i].nodeID, now);
        DeathKeepsSweeping(points, deaths, all, i, now, d, repair.View());
        points', deaths' := points + [repair.View()], deaths + [d];
      } else {
        SpareKeepsSweeping(points, deaths, all, i, now);
      }
    }

    method SweepEach(all: seq<NodeEntry>, now: Time) returns (ghost points: seq<Sched>, ghost deaths: seq<Death>)
      requires fsm == repair.fsm && repair.Valid() && NoDup(Ids(all)) && forall n :: n in all ==> n.nodeID in fsm.nodes
      modifies repair`jobs, repair`issued, fsm
      ensures repair.Valid() && Sweeping(points, deaths, all, |all|, now)
      ensures points[0] == old(repair.View()) && points[|deaths|] == repair.View()
    {
      points, deaths := [repair.View()], [];
      for i := 0 to |all|
        invariant repair.Valid() && Sweeping(points, deaths, all, i, now)
        invariant points[0] == old(repair.View()) && points[|deaths|] == repair.View()
      {
        points, deaths := SweepNext(all, i, now, points, deaths);
      }
    }
  }
}
