/** Evacuating a dead node, chunk by chunk, as a function of the choices made for each chunk. */
module Evacuation {
  import opened Records
  import opened Seqs
  import opened Metadata
  import opened Structure
  import opened Scheduling
  import opened RepairChoice
  import opened Withdrawal

  /** What was decided for one chunk; no targets when nothing could or need be done. */
  datatype Choice = Choice(chunkID: string, source: string, targets: seq<string>)

  function Evicted(x: Sched, chunkID: string, node: string): Sched {
    x.(meta := Evict(x.meta, chunkID, node).state)
  }

  function EvacuateOne(x: Sched, uuid: Uuids, dead: string, ch: Choice, now: Time): Sched {
    CreateJobs(Evicted(x, ch.chunkID, dead), uuid, ch.chunkID, ch.source, ch.targets, now)
  }

  /** The chunk lists the node, and the choice is what a pass over the chunk without that node decides. */
  ghost predicate LegalChoice(x: Sched, uuid: Uuids, rf: nat, dead: string, ch: Choice, now: Time) {
    && IsReplica(x.meta, ch.chunkID, dead)
    && PassFor(Evicted(x, ch.chunkID, dead), EvacuateOne(x, uuid, dead, ch, now), uuid, rf, ch.chunkID, ch.source,
               ch.targets, now)
  }

  /** A run of evacuation steps: `states` are the states between the choices. */
  ghost predicate LegalTrail(states: seq<Sched>, uuid: Uuids, rf: nat, dead: string, trail: seq<Choice>, now: Time) {
    && |states| == |trail| + 1
    && forall i :: 0 <= i < |trail| ==> LegalStep(states[i], states[i + 1], uuid, rf, dead, trail[i], now)
  }

  ghost predicate LegalStep(x: Sched, y: Sched, uuid: Uuids, rf: nat, dead: string, ch: Choice, now: Time) {
    LegalChoice(x, uuid, rf, dead, ch, now) && y == EvacuateOne(x, uuid, dead, ch, now)
  }

  lemma PassIsLegalStep(x: Sched, y: Sched, uuid: Uuids, rf: nat, dead: string, ch: Choice, now: Time)
    requires IsReplica(x.meta, ch.chunkID, dead)
    requires PassFor(Evicted(x, ch.chunkID, dead), y, uuid, rf, ch.chunkID, ch.source, ch.targets, now)
    ensures LegalStep(x, y, uuid, rf, dead, ch, now)
  {}

  function ChunksOf(trail: seq<Choice>): set<string> {
    set ch | ch in trail :: ch.chunkID
  }

  lemma ChunksSnoc(trail: seq<Choice>, ch: Choice)
    ensures ChunksOf(trail + [ch]) == ChunksOf(trail) + {ch.chunkID}
  {}

  lemma TrailSnoc(states: seq<Sched>, uuid: Uuids, rf: nat, dead: string, trail: seq<Choice>, now: Time,
                  ch: Choice, y: Sched)
    requires LegalTrail(states, uuid, rf, dead, trail, now) && LegalStep(states[|trail|], y, uuid, rf, dead, ch, now)
    ensures LegalTrail(states + [y], uuid, rf, dead, trail + [ch], now)
    ensures (states + [y])[0] == states[0] && (states + [y])[|trail + [ch]|] == y
  {}

  lemma TrailStep(states: seq<Sched>, uuid: Uuids, rf: nat, dead: string, trail: seq<Choice>, now: Time, k: nat)
    requires LegalTrail(states, uuid, rf, dead, trail, now) && k < |trail|
    ensures LegalStep(states[k], states[k + 1], uuid, rf, dead, trail[k], now)
  {}

  /** From `x` to `y`, the node left exactly the replica lists of the chunks in `gone`, no other membership
      changed, and every order added copies from a live replica to an alive node outside the list. */
  ghost predicate Evacuated(x: Sched, y: Sched, dead: string, gone: set<string>) {
    && Inv(y.meta) && y.pending == x.pending && y.byPair == x.byPair
    && Withdrawn(x.meta, y.meta, dead, gone) && RightOrdersAdded(x.meta, y.meta, gone)
  }

  lemma EvictionEvacuates(x: Sched, y: Sched, dead: string, gone: set<string>, c: string)
    requires Evacuated(x, y, dead, gone) && IsReplica(y.meta, c, dead)
    ensures Evacuated(x, Evicted(y, c, dead), dead, gone + {c})
  {
    GoneIsNoReplica(x.meta, y.meta, dead, gone, c);
    EvictWithdraws(x.meta, y.meta, dead, gone, c);
    EvictKeepsOrders(x.meta, y.meta, dead, gone, c);
    EvictKeepsInv(y.meta, c, dead);
  }

  lemma PassEvacuates(x: Sched, y: Sched, z: Sched, uuid: Uuids, rf: nat, dead: string, gone: set<string>,
                      ch: Choice, now: Time)
    requires Evacuated(x, y, dead, gone) && ch.chunkID in gone
    requires z == CreateJobs(y, uuid, ch.chunkID, ch.source, ch.targets, now)
    requires PassFor(y, z, uuid, rf, ch.chunkID, ch.source, ch.targets, now)
    ensures Evacuated(x, z, dead, gone)
  {
    NewJobsKeepInv(y, uuid, ch.chunkID, ch.source, ch.targets, now);
    PassForAddsRightOrders(x.meta, y, z, uuid, rf, ch.chunkID, ch.source, ch.targets, now, gone);
    JobsDoNotWithdraw(x.meta, y.meta, dead, gone, z.meta.jobs);
  }

  lemma StepEvacuates(x: Sched, y: Sched, z: Sched, uuid: Uuids, rf: nat, dead: string, gone: set<string>,
                      ch: Choice, now: Time)
    requires Evacuated(x, y, dead, gone) && LegalStep(y, z, uuid, rf, dead, ch, now)
    ensures Evacuated(x, z, dead, gone + {ch.chunkID})
  {
    EvictionEvacuates(x, y, dead, gone, ch.chunkID);
    PassEvacuates(x, Evicted(y, ch.chunkID, dead), z, uuid, rf, dead, gone + {ch.chunkID}, ch, now);
  }

  lemma NothingEvacuated(x: Sched, dead: string)
    requires Inv(x.meta)
    ensures Evacuated(x, x, dead, ChunksOf([]))
  {
    NothingWithdrawn(x.meta, dead);
  }

  lemma GoneIsNoReplica(s: State, t: State, n: string, gone: set<string>, c: string)
    requires Withdrawn(s, t, n, gone) && IsReplica(t, c, n)
    ensures c !in gone
  {
    assert ChunkWithout(s.chunks[c], t.chunks[c], n, c in gone);
  }

  /** Every legal trail evacuates exactly the chunks it treats. */
  lemma {:induction false} EvacuationExact(states: seq<Sched>, uuid: Uuids, rf: nat, dead: string,
                                           trail: seq<Choice>, now: Time, k: nat)
    requires LegalTrail(states, uuid, rf, dead, trail, now) && k <= |trail| && Inv(states[0].meta)
    ensures Evacuated(states[0], states[k], dead, ChunksOf(trail[..k]))
  {
    if k == 0 {
      NothingEvacuated(states[0], dead);
      TakeAll(trail);
    } else {
      EvacuationExact(states, uuid, rf, dead, trail, now, k - 1);
      TrailStep(states, uuid, rf, dead, trail, now, k - 1);
      StepEvacuates(states[0], states[k - 1], states[k], uuid, rf, dead, ChunksOf(trail[..k - 1]), trail[k - 1], now);
      TakeNext(trail, k - 1);
      ChunksSnoc(trail[..k - 1], trail[k - 1]);
    }
  }

  /** The chunks of the trail are the first ones of `ids`, in order. */
  ghost predicate Follows(trail: seq<Choice>, ids: seq<string>) {
    |trail| <= |ids| && forall k :: 0 <= k < |trail| ==> trail[k].chunkID == ids[k]
  }

  lemma FollowsNext(trail: seq<Choice>, ids: seq<string>, ch: Choice)
    requires Follows(trail, ids) && |trail| < |ids| && ch.chunkID == ids[|trail|]
    ensures Follows(trail + [ch], ids)
  {}

  lemma FollowedAll(trail: seq<Choice>, ids: seq<string>)
    requires Follows(trail, ids) && |trail| == |ids|
    ensures ChunksOf(trail) == ToSet(ids)
  {
    forall c | c in ids ensures c in ChunksOf(trail) {
      var k :| 0 <= k < |ids| && ids[k] == c;
      assert trail[k] in trail;
    }
  }

  /** The next chunk that listed the node at the start lists it still. */
  lemma StillListed(states: seq<Sched>, uuid: Uuids, rf: nat, dead: string, trail: seq<Choice>, now: Time,
                    ids: seq<string>)
    requires LegalTrail(states, uuid, rf, dead, trail, now) && Inv(states[0].meta)
    requires Follows(trail, ids) && |trail| < |ids| && NoDup(ids) && IsReplica(states[0].meta, ids[|trail|], dead)
    ensures IsReplica(states[|trail|].meta, ids[|trail|], dead)
  {
    EvacuationExact(states, uuid, rf, dead, trail, now, |trail|);
    assert trail[..|trail|] == trail;
    StillReplica(states[0].meta, states[|trail|].meta, dead, ChunksOf(trail), ids[|trail|]);
  }

  /** Treating every chunk that lists the node is treating every chunk. */
  lemma EvacuatedEverywhere(x: Sched, y: Sched, dead: string, gone: set<string>)
    requires Evacuated(x, y, dead, gone) && forall c :: c in gone <==> IsReplica(x.meta, c, dead)
    ensures Evacuated(x, y, dead, x.meta.chunks.Keys)
  {
    WithdrawnEverywhere(x.meta, y.meta, dead, gone);
  }
}
