/** Exactly which sets of silent nodes a sweep can treat without spoiling its own orders. */
module SweepLimits {
  import opened Records
  import opened Seqs
  import opened Names
  import opened Metadata
  import opened Structure
  import opened Scheduling
  import opened RepairChoice
  import opened Evacuation
  import opened Sweeps

  /** Two or more silent nodes, and a chunk on the first of them and on every fresh node. */
  datatype Plight = Plight(silent: set<string>, first: string, second: string, kept: seq<string>, chunk: string,
                           file: string, now: Time, timeout: int)

  ghost predicate IsPlight(p: Plight) {
    && p.first in p.silent && p.second in p.silent && p.first != p.second
    && p.kept != [] && NoDup(p.kept) && forall n :: n in p.kept ==> n !in p.silent
  }

  /** The replication factor the chunk has. */
  function Factor(p: Plight): nat {
    |p.kept| + 1
  }

  function Entry(p: Plight, n: string): NodeEntry {
    NodeEntry(n, n, NodeAlive, 0, 0, p.now - p.timeout - (if n in p.silent then 1 else 0), 0, 0)
  }

  function Start(p: Plight): Sched {
    var f := FileRecord(p.file, p.file, 0, 1, [], [p.chunk], FileComplete, 0, 0);
    var c := ChunkRecord(p.chunk, p.file, 0, 0, [], [p.first] + p.kept, ChunkComplete, 0);
    var nodes := map n | n in p.silent + ToSet(p.kept) :: Entry(p, n);
    Sched(State(map[p.file := f], map[p.chunk := c], nodes, map[], map[]), map[], map[], [], 0)
  }

  lemma StartInv(p: Plight)
    requires IsPlight(p)
    ensures Inv(Start(p).meta) && Silent(Start(p).meta, p.now, p.timeout) == p.silent
  {
    var s := Start(p).meta;
    assert NoDup([p.first] + p.kept);
    assert FileOk(s.chunks, p.file, s.files[p.file]) && ChunkOk(s.files, p.chunk, s.chunks[p.chunk]);
  }

  // ----- The first death -----

  function WithoutFirst(p: Plight): Sched {
    Evicted(Marked(Start(p), p.first, p.now), p.chunk, p.first)
  }

  /** The pass orders a copy from a fresh node to the second silent one. */
  function AfterFirst(p: Plight, uuid: Uuids): Sched
    requires p.kept != []
  {
    CreateJobs(WithoutFirst(p), uuid, p.chunk, p.kept[0], [p.second], p.now)
  }

  function FirstDeath(p: Plight, uuid: Uuids): Death
    requires p.kept != []
  {
    Death(p.first, [Marked(Start(p), p.first, p.now), AfterFirst(p, uuid)], [Choice(p.chunk, p.kept[0], [p.second])])
  }

  lemma HeadRemoved(a: string, rest: seq<string>)
    ensures IndexOf([a] + rest, a) == 0 && RemoveAt([a] + rest, 0) == rest
  {
    assert a in [a] + rest && ([a] + rest)[0] == a;
  }

  lemma FirstMarked(p: Plight)
    requires IsPlight(p)
    ensures var s, t := Start(p).meta, Marked(Start(p), p.first, p.now).meta;
            t == s.(nodes := t.nodes) && FirstIsDead(t, p)
  {}

  /** All nodes are alike, except that the first silent one is dead and the others are alive. */
  ghost predicate FirstIsDead(s: State, p: Plight) {
    && s.nodes.Keys == p.silent + ToSet(p.kept)
    && forall n :: n in s.nodes ==>
         && s.nodes[n].status == (if n == p.first then NodeDead else NodeAlive)
         && s.nodes[n].freeSpace == 0 && s.nodes[n].chunkCount == 0
  }

  ghost predicate FirstIsOut(s: State, p: Plight) {
    FirstIsDead(s, p) && s.chunks.Keys == {p.chunk} && s.chunks[p.chunk].replicas == p.kept
  }

  lemma FirstEvicted(p: Plight)
    requires IsPlight(p)
    ensures FirstIsOut(WithoutFirst(p).meta, p) && WithoutFirst(p).meta.jobs == map[]
  {
    FirstMarked(p);
    HeadRemoved(p.first, p.kept);
  }

  lemma CopiesLeft(s: State, p: Plight)
    requires IsPlight(p) && FirstIsOut(s, p)
    ensures LiveOf(s, p.chunk) == p.kept && Candidates(s, p.kept) == p.silent - {p.first}
  {
    FilterAll(p.kept, IsLive(s.nodes));
  }

  lemma FirstChoice(s: State, p: Plight)
    requires IsPlight(p) && FirstIsOut(s, p)
    ensures GoodSource(s, p.kept, p.kept[0]) && GoodTargets(s, p.kept, [p.second])
  {
    CopiesLeft(s, p);
  }

  lemma FirstPass(x: Sched, p: Plight, uuid: Uuids)
    requires IsPlight(p) && FirstIsOut(x.meta, p)
    ensures PassFor(x, CreateJobs(x, uuid, p.chunk, p.kept[0], [p.second], p.now), uuid, Factor(p), p.chunk, p.kept[0],
                    [p.second], p.now)
  {
    CopiesLeft(x.meta, p);
    FirstChoice(x.meta, p);
    assert p.second in Candidates(x.meta, p.kept);
  }

  lemma FirstHeld(p: Plight)
    requires IsPlight(p)
    ensures forall c :: IsReplica(Start(p).meta, c, p.first) <==> c == p.chunk
    ensures IsReplica(Marked(Start(p), p.first, p.now).meta, p.chunk, p.first)
  {
    FirstMarked(p);
    assert p.first in [p.first] + p.kept;
  }

  /** The death of a node that one chunk lists. */
  lemma OneChunkDeath(x: Sched, y: Sched, uuid: Uuids, rf: nat, n: string, ch: Choice, now: Time)
    requires n in x.meta.nodes && LegalStep(Marked(x, n, now), y, uuid, rf, n, ch, now)
    requires forall c :: IsReplica(x.meta, c, n) <==> c == ch.chunkID
    ensures LegalDeath(x, y, uuid, rf, Death(n, [Marked(x, n, now), y], [ch]), now)
  {
    assert ChunksOf([ch]) == {ch.chunkID};
  }

  lemma FirstStep(p: Plight, uuid: Uuids)
    requires IsPlight(p)
    ensures LegalStep(Marked(Start(p), p.first, p.now), AfterFirst(p, uuid), uuid, Factor(p), p.first,
                      Choice(p.chunk, p.kept[0], [p.second]), p.now)
  {
    FirstEvicted(p);
    FirstPass(WithoutFirst(p), p, uuid);
    FirstHeld(p);
    PassIsLegalStep(Marked(Start(p), p.first, p.now), AfterFirst(p, uuid), uuid, Factor(p), p.first,
                    Choice(p.chunk, p.kept[0], [p.second]), p.now);
  }

  lemma FirstDeathIsLegal(p: Plight, uuid: Uuids)
    requires IsPlight(p)
    ensures LegalDeath(Start(p), AfterFirst(p, uuid), uuid, Factor(p), FirstDeath(p, uuid), p.now)
  {
    FirstStep(p, uuid);
    FirstHeld(p);
    OneChunkDeath(Start(p), AfterFirst(p, uuid), uuid, Factor(p), p.first, Choice(p.chunk, p.kept[0], [p.second]),
                  p.now);
  }

  lemma CreateJobsOfOne(x: Sched, uuid: Uuids, c: string, source: string, target: string, now: Time)
    ensures CreateJobs(x, uuid, c, source, [target], now) == CreateOne(x, uuid, c, source, target, now)
  {
    assert [target][..0] == [];
    assert CreateJobs(x, uuid, c, source, [], now) == x;
  }

  lemma FirstOrder(p: Plight, uuid: Uuids)
    requires IsPlight(p)
    ensures var t := AfterFirst(p, uuid).meta;
            && t == WithoutFirst(p).meta.(jobs := t.jobs)
            && uuid(0) in t.jobs && t.jobs[uuid(0)].targetNodeID == p.second
  {
    FirstEvicted(p);
    CreateJobsOfOne(WithoutFirst(p), uuid, p.chunk, p.kept[0], p.second, p.now);
  }

  // ----- The other deaths -----

  /** The death of a node that no chunk lists. */
  lemma NoChunkDeath(x: Sched, uuid: Uuids, rf: nat, n: string, now: Time)
    requires n in x.meta.nodes && forall c :: !IsReplica(x.meta, c, n)
    ensures LegalDeath(x, Marked(x, n, now), uuid, rf, Death(n, [Marked(x, n, now)], []), now)
  {
    assert ChunksOf([]) == {};
  }

  lemma MarkedKeeps(x: Sched, n: string, now: Time)
    ensures var y := Marked(x, n, now);
            y.meta.chunks == x.meta.chunks && y.meta.jobs == x.meta.jobs && y.meta.nodes.Keys == x.meta.nodes.Keys
  {}

  ghost predicate Unlisted(s: State, nodes: seq<string>) {
    forall i :: 0 <= i < |nodes| ==> nodes[i] in s.nodes && forall c :: !IsReplica(s, c, nodes[i])
  }

  /** Nodes that no chunk lists die without further effect. */
  lemma {:induction false} QuietSweep(x: Sched, uuid: Uuids, rf: nat, rest: seq<string>, now: Time)
    returns (points: seq<Sched>, deaths: seq<Death>)
    requires Unlisted(x.meta, rest)
    ensures LegalSweep(points, uuid, rf, deaths, now) && points[0] == x
    ensures DeadOf(deaths) == ToSet(rest) && |deaths| == |rest|
    ensures var y := points[|deaths|];
            y.meta.chunks == x.meta.chunks && y.meta.jobs == x.meta.jobs && y.meta.nodes.Keys == x.meta.nodes.Keys
  {
    points, deaths := [x], [];
    if |rest| > 0 {
      var init, n := rest[..|rest| - 1], rest[|rest| - 1];
      points, deaths := QuietSweep(x, uuid, rf, init, now);
      var y := points[|deaths|];
      var d := Death(n, [Marked(y, n, now)], []);
      forall c ensures !IsReplica(y.meta, c, n) {
        assert !IsReplica(x.meta, c, n);
      }
      NoChunkDeath(y, uuid, rf, n, now);
      MarkedKeeps(y, n, now);
      SweepSnoc(points, uuid, rf, deaths, now, d, Marked(y, n, now));
      DeadSnoc(deaths, d);
      ToSetSnoc(init, n);
      assert rest == init + [n];
      points, deaths := points + [Marked(y, n, now)], deaths + [d];
    }
  }

  lemma SweepCons(x: Sched, points: seq<Sched>, uuid: Uuids, rf: nat, d: Death, deaths: seq<Death>, now: Time)
    requires LegalSweep(points, uuid, rf, deaths, now) && LegalDeath(x, points[0], uuid, rf, d, now)
    ensures LegalSweep([x] + points, uuid, rf, [d] + deaths, now) && DeadOf([d] + deaths) == {d.node} + DeadOf(deaths)
  {
    var all, ps := [d] + deaths, [x] + points;
    forall i | 0 <= i < |all| ensures LegalDeath(ps[i], ps[i + 1], uuid, rf, all[i], now) {
      if i > 0 { SweepStep(points, uuid, rf, deaths, now, i - 1); }
    }
  }

  // ----- The whole sweep -----

  ghost predicate NoneListed(s: State, nodes: set<string>) {
    forall n :: n in nodes ==> n in s.nodes && forall c :: !IsReplica(s, c, n)
  }

  /** One death, then those of the other silent nodes, which no chunk lists. */
  lemma SweepFrom(x: Sched, y: Sched, uuid: Uuids, rf: nat, d: Death, now: Time, timeout: int)
    returns (points: seq<Sched>, deaths: seq<Death>)
    requires LegalDeath(x, y, uuid, rf, d, now) && Inv(x.meta) && d.node in Silent(x.meta, now, timeout)
    requires NoneListed(y.meta, Silent(x.meta, now, timeout) - {d.node})
    ensures SweepsSilent(points, uuid, rf, deaths, now, timeout) && points[0] == x
    ensures points[|deaths|].meta.jobs == y.meta.jobs
  {
    var silent := Silent(x.meta, now, timeout);
    var rest := Listed(silent - {d.node});
    ListedUnlisted(y.meta, silent - {d.node}, rest);
    var ps, ds := QuietSweep(y, uuid, rf, rest, now);
    SweepCons(x, ps, uuid, rf, d, ds, now);
    points, deaths := [x] + ps, [d] + ds;
    OneAndTheRest(silent, d.node);
  }

  lemma ListedUnlisted(s: State, nodes: set<string>, list: seq<string>)
    requires NoneListed(s, nodes) && ToSet(list) == nodes
    ensures Unlisted(s, list)
  {
    forall i | 0 <= i < |list| ensures list[i] in nodes {
      assert list[i] in ToSet(list);
    }
  }

  lemma OneAndTheRest(nodes: set<string>, n: string)
    requires n in nodes
    ensures {n} + (nodes - {n}) == nodes && |nodes| == 1 + |nodes - {n}|
  {}

  lemma OthersUnlisted(s: State, p: Plight)
    requires IsPlight(p) && FirstIsOut(s, p)
    ensures NoneListed(s, p.silent - {p.first})
  {}

  /** The sweep of the silent nodes, the first one first. */
  lemma SpoilingSweep(p: Plight, uuid: Uuids) returns (points: seq<Sched>, deaths: seq<Death>)
    requires IsPlight(p)
    ensures SweepsSilent(points, uuid, Factor(p), deaths, p.now, p.timeout) && points[0] == Start(p)
    ensures points[|deaths|].meta.jobs == AfterFirst(p, uuid).meta.jobs
  {
    StartInv(p);
    FirstDeathIsLegal(p, uuid);
    AfterFirstFacts(p, uuid);
    OthersUnlisted(AfterFirst(p, uuid).meta, p);
    points, deaths := SweepFrom(Start(p), AfterFirst(p, uuid), uuid, Factor(p), FirstDeath(p, uuid), p.now, p.timeout);
  }

  lemma AfterFirstFacts(p: Plight, uuid: Uuids)
    requires IsPlight(p)
    ensures var t := AfterFirst(p, uuid).meta;
            FirstIsOut(t, p) && uuid(0) in t.jobs && t.jobs[uuid(0)].targetNodeID == p.second
  {
    FirstEvicted(p);
    FirstOrder(p, uuid);
  }

  /** An order can go wrong within the sweep that created it: the first death leaves a chunk one replica short, the
      pass chooses a silent node as target, and the sweep then declares that node dead. */
  lemma SecondDeathSpoilsOrder(p: Plight, uuid: Uuids) returns (points: seq<Sched>, deaths: seq<Death>)
    requires IsPlight(p)
    ensures SweepsSilent(points, uuid, Factor(p), deaths, p.now, p.timeout)
    ensures Silent(points[0].meta, p.now, p.timeout) == p.silent
    ensures !NewOrdersRight(points[0].meta, points[|deaths|].meta)
  {
    points, deaths := SpoilingSweep(p, uuid);
    StartInv(p);
    AfterFirstFacts(p, uuid);
    SweepExact(points, uuid, Factor(p), deaths, p.now, |deaths|);
    TakeAll(deaths);
    OrderRightIff(points[0].meta, points[|deaths|].meta, p.silent, uuid(0));
  }

  /** Whatever a sweep meets, if exactly the nodes of `silent` are silent then it leaves only right orders. */
  ghost predicate AlwaysRight(uuid: Uuids, rf: nat, silent: set<string>, now: Time, timeout: int) {
    forall points: seq<Sched>, deaths ::
      (SweepsSilent(points, uuid, rf, deaths, now, timeout) && Silent(points[0].meta, now, timeout) == silent) ==>
        NewOrdersRight(points[0].meta, points[|deaths|].meta)
  }

  /** Every sweep of every state with these silent nodes leaves only right orders if and only if there is at most one
      of them, or no copies are wanted. */
  lemma SweepRightIff(uuid: Uuids, rf: nat, silent: set<string>, now: Time, timeout: int)
    ensures AlwaysRight(uuid, rf, silent, now, timeout) <==> |silent| <= 1 || rf <= 1
  {
    if |silent| <= 1 || rf <= 1 {
      forall points: seq<Sched>, deaths | SweepsSilent(points, uuid, rf, deaths, now, timeout)
                              && Silent(points[0].meta, now, timeout) == silent
        ensures NewOrdersRight(points[0].meta, points[|deaths|].meta)
      {
        FewSilentOrdersRight(points, uuid, rf, deaths, now, timeout);
      }
    } else {
      var first :| first in silent;
      assert |silent - {first}| == |silent| - 1;
      var second :| second in silent - {first};
      var kept := FreshNames(silent, rf - 1);
      var points, deaths := SecondDeathSpoilsOrder(Plight(silent, first, second, kept, "c", "f", now, timeout), uuid);
    }
  }
}
