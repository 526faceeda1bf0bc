/** A chunk record whose replica slice may share its backing array with a snapshot: what each command means for the
    record, and what the snapshot's copy then reads. */
module Slices {
  import opened Records
  import opened Seqs
  import opened Names
  import Metadata
  import Structure

  /** A chunk record as far as a snapshot of it is concerned. */
  datatype ChunkValue = ChunkValue(status: ChunkStatus, checksum: Bytes, replicas: seq<string>)

  /** Commands that touch a chunk record, with what the runtime chooses: the capacity of new arrays. */
  datatype Op =
    | Create(chunkID: string)
    | Commit(chunkID: string, nodeIDs: seq<string>, checksum: Bytes, capacity: nat)
    | Lost(chunkID: string)
    | Add(chunkID: string, nodeID: string, capacity: nat)
    | Evict(chunkID: string, nodeID: string)

  predicate CanCommit(v: ChunkValue) {
    |v.checksum| == 0 && v.status != ChunkComplete
  }

  /** What a command other than a creation means for the record it names, with no arrays in sight. */
  function Meaning(v: ChunkValue, op: Op): ChunkValue {
    match op
    case Create(_) => v
    case Commit(_, nodeIDs, checksum, _) => if CanCommit(v) then ChunkValue(ChunkComplete, checksum, nodeIDs) else v
    case Lost(_) => v.(status := ChunkLost)
    case Add(_, n, _) => if n in v.replicas then v else v.(replicas := v.replicas + [n])
    case Evict(_, n) =>
      var i := Metadata.IndexOf(v.replicas, n);
      if i == |v.replicas| then v else v.(replicas := RemoveAt(v.replicas, i))
  }

  // ----- The commands of the log -----

  function ValueOf(c: ChunkRecord): ChunkValue {
    ChunkValue(c.status, c.checksum, c.replicas)
  }

  predicate NamesChunk(c: Command) {
    c.CommitChunk? || c.EvictChunkFromNode? || c.MarkChunkLost? || c.AddChunkReplica?
  }

  function OpOf(s: Metadata.State, c: Command, picks: seq<string>, capacity: nat): Op
    requires NamesChunk(c) && (c.CommitChunk? ==> |picks| == |c.nodeIDs|)
  {
    match c
    case CommitChunk(k, nodeIDs, sum) => Commit(k, Metadata.Normalize(s.nodes, nodeIDs, picks), sum, capacity)
    case EvictChunkFromNode(k, n) => Evict(k, n)
    case MarkChunkLost(k) => Lost(k)
    case AddChunkReplica(k, n) => Add(k, n, capacity)
  }

  lemma CreationKeepsValues(s: Metadata.State, c: Command, k: string)
    requires c.CreateFile? && k in s.chunks
    ensures var t := Metadata.Create(s, c).state;
            k in t.chunks && t.chunks[k] == s.chunks[k]
  {
    if Metadata.Create(s, c).outcome.Accepted? { Structure.CreateKeepsRecords(s, c); }
  }

  lemma NamedIsApply(s: Metadata.State, c: Command, picks: seq<string>, capacity: nat, k: string)
    requires Metadata.LegalFor(s, c, picks) && k in s.chunks && NamesChunk(c)
    ensures var t := Metadata.Apply(s, c, picks).state;
            && k in t.chunks
            && ValueOf(t.chunks[k]) ==
               if c.chunkID == k then Meaning(ValueOf(s.chunks[k]), OpOf(s, c, picks, capacity))
               else ValueOf(s.chunks[k])
  {}

  /** `Meaning` is what the metadata step does to the record a command names; no command changes another record. */
  lemma MeaningIsApply(s: Metadata.State, c: Command, picks: seq<string>, capacity: nat, k: string)
    requires Metadata.LegalFor(s, c, picks) && k in s.chunks
    ensures var t := Metadata.Apply(s, c, picks).state;
            && k in t.chunks
            && ValueOf(t.chunks[k]) ==
               if NamesChunk(c) && c.chunkID == k then Meaning(ValueOf(s.chunks[k]), OpOf(s, c, picks, capacity))
               else ValueOf(s.chunks[k])
  {
    if NamesChunk(c) {
      NamedIsApply(s, c, picks, capacity, k);
    } else if c.CreateFile? {
      CreationKeepsValues(s, c, k);
    }
  }

  // ----- A record and the array under a snapshot's copy -----

  /** Array contents after position `i` of the first `n` was spliced out: the old last element stays behind. */
  function Spliced(a: seq<string>, n: nat, i: nat): (r: seq<string>)
    requires i < n <= |a|
    ensures |r| == |a|
  {
    a[..i] + a[i + 1..n] + a[n - 1..]
  }

  /** The live record, the array the snapshot's copy reads, and whether the live slice still uses that array. */
  datatype View = View(value: ChunkValue, backing: seq<string>, isShared: bool)

  ghost predicate Coherent(v: View) {
    v.isShared ==> |v.value.replicas| <= |v.backing| && v.value.replicas == v.backing[..|v.value.replicas|]
  }

  /** Position `i` leaves the live slice, and a shared array is shifted. */
  function SplicedView(v: View, i: nat): View
    requires Coherent(v) && i < |v.value.replicas|
  {
    View(v.value.(replicas := RemoveAt(v.value.replicas, i)),
         if v.isShared then Spliced(v.backing, |v.value.replicas|, i) else v.backing, v.isShared)
  }

  /** A commit installs a new array; an addition writes into spare capacity or moves to a larger array; an eviction
      shifts the array in place. */
  function After(v: View, k: string, op: Op): (r: View)
    requires Coherent(v)
    ensures Coherent(r) && |r.backing| == |v.backing|
  {
    if op.chunkID != k then v
    else
      var value, n := Meaning(v.value, op), |v.value.replicas|;
      match op
      case Create(_) => v
      case Commit(_, _, _, _) => View(value, v.backing, v.isShared && !CanCommit(v.value))
      case Lost(_) => v.(value := value)
      case Add(_, x, _) =>
        if x in v.value.replicas then v
        else if v.isShared && n < |v.backing| then View(value, v.backing[n := x], true)
        else View(value, v.backing, false)
      case Evict(_, x) =>
        var i := Metadata.IndexOf(v.value.replicas, x);
        if i == n then v else SplicedView(v, i)
  }

  function Run(v: View, k: string, ops: seq<Op>): (r: View)
    requires Coherent(v)
    ensures Coherent(r) && |r.backing| == |v.backing|
  {
    if |ops| == 0 then v else After(Run(v, k, ops[..|ops| - 1]), k, ops[|ops| - 1])
  }

  lemma RunNext(v: View, k: string, ops: seq<Op>, i: nat)
    requires Coherent(v) && i < |ops|
    ensures Run(v, k, ops[..i + 1]) == After(Run(v, k, ops[..i]), k, ops[i])
  {
    assert ops[..i + 1][..i] == ops[..i];
  }

  lemma RunSnoc(v: View, k: string, ops: seq<Op>, op: Op)
    requires Coherent(v)
    ensures Run(v, k, ops + [op]) == After(Run(v, k, ops), k, op)
  {
    assert (ops + [op])[..|ops|] == ops;
  }

  ghost predicate AllCoherent(views: map<string, View>) {
    forall k :: k in views ==> Coherent(views[k])
  }

  function AfterAll(views: map<string, View>, op: Op): map<string, View>
    requires AllCoherent(views)
  {
    map k | k in views :: After(views[k], k, op)
  }

  lemma UnaffectedViews(views: map<string, View>, op: Op)
    requires AllCoherent(views) && (op.Create? || op.chunkID !in views)
    ensures AfterAll(views, op) == views
  {}

  function RunAll(views: map<string, View>, ops: seq<Op>): (r: map<string, View>)
    requires AllCoherent(views)
    ensures AllCoherent(r)
  {
    map k | k in views :: Run(views[k], k, ops)
  }

  lemma RunAllNext(views: map<string, View>, ops: seq<Op>, i: nat)
    requires AllCoherent(views) && i < |ops|
    ensures RunAll(views, ops[..i + 1]) == AfterAll(RunAll(views, ops[..i]), ops[i])
  {
    forall k | k in views ensures RunAll(views, ops[..i + 1])[k] == AfterAll(RunAll(views, ops[..i]), ops[i])[k] {
      RunNext(views[k], k, ops, i);
    }
  }

  lemma RunAllNone(views: map<string, View>, ops: seq<Op>)
    requires AllCoherent(views)
    ensures RunAll(views, ops[..0]) == views && RunAll(views, ops[..|ops|]) == RunAll(views, ops)
  {
    TakeAll(ops);
  }

  // ----- What the copy reads -----

  /** The copy reads `seen`, and while the array is shared the live slice begins with it. */
  ghost predicate Reads(v: View, seen: seq<string>) {
    && Coherent(v) && |seen| <= |v.backing| && v.backing[..|seen|] == seen
    && (v.isShared ==> |seen| <= |v.value.replicas| && NoDup(v.value.replicas))
  }

  /** The command evicts a replica the copy shows while the array is shared. */
  ghost predicate Hits(v: View, k: string, op: Op, seen: seq<string>) {
    v.isShared && op.Evict? && op.chunkID == k && op.nodeID in seen
  }

  /** No command of the run does. */
  ghost predicate Spares(v: View, k: string, ops: seq<Op>, seen: seq<string>)
    requires Coherent(v)
  {
    forall i :: 0 <= i < |ops| ==> !Hits(Run(v, k, ops[..i]), k, ops[i], seen)
  }

  lemma AdditionReads(v: View, k: string, op: Op, seen: seq<string>)
    requires Reads(v, seen) && op.Add?
    ensures Reads(After(v, k, op), seen)
  {}

  lemma EvictionReads(v: View, k: string, op: Op, seen: seq<string>)
    requires Reads(v, seen) && op.Evict? && !Hits(v, k, op, seen)
    ensures Reads(After(v, k, op), seen)
  {
    var n := |v.value.replicas|;
    var i := Metadata.IndexOf(v.value.replicas, op.nodeID);
    if v.isShared && op.chunkID == k && i < n {
      assert forall p :: 0 <= p < |seen| ==> seen[p] == v.value.replicas[p];
      assert |seen| <= i;
      RemoveAtExact(v.value.replicas, i);
      assert Spliced(v.backing, n, i)[..|seen|] == v.backing[..|seen|];
    }
  }

  lemma StepReads(v: View, k: string, op: Op, seen: seq<string>)
    requires Reads(v, seen) && !Hits(v, k, op, seen)
    ensures Reads(After(v, k, op), seen)
  {
    if op.Add? {
      AdditionReads(v, k, op, seen);
    } else if op.Evict? {
      EvictionReads(v, k, op, seen);
    }
  }

  lemma SparesPrefix(v: View, k: string, ops: seq<Op>, seen: seq<string>, n: nat)
    requires Coherent(v) && Spares(v, k, ops, seen) && n <= |ops|
    ensures Spares(v, k, ops[..n], seen)
  {
    forall i | 0 <= i < n ensures !Hits(Run(v, k, ops[..n][..i]), k, ops[..n][i], seen) {
      assert ops[..n][..i] == ops[..i];
    }
  }

  /** A run that spares the copy leaves it reading what it did. */
  lemma {:induction false} SparedReads(v: View, k: string, ops: seq<Op>, seen: seq<string>)
    requires Reads(v, seen) && Spares(v, k, ops, seen)
    ensures Reads(Run(v, k, ops), seen)
    decreases |ops|
  {
    if |ops| > 0 {
      var n := |ops| - 1;
      SparesPrefix(v, k, ops, seen, n);
      SparedReads(v, k, ops[..n], seen);
      StepReads(Run(v, k, ops[..n]), k, ops[n], seen);
    }
  }

  /** A hit, followed by the addition of a new replica, shows in the copy. */
  lemma HitThenAdd(v: View, k: string, op: Op, seen: seq<string>, x: string)
    requires Reads(v, seen) && Hits(v, k, op, seen) && x !in v.backing
    ensures After(After(v, k, op), k, Add(k, x, 0)).backing[..|seen|] != seen
  {
    var a, n := v.backing, |v.value.replicas|;
    var i := Metadata.IndexOf(v.value.replicas, op.nodeID);
    var p :| 0 <= p < |seen| && seen[p] == op.nodeID;
    assert v.value.replicas[p] == seen[p];
    assert i == p;
    var w := After(v, k, op);
    assert x !in w.value.replicas;
    var r := After(w, k, Add(k, x, 0));
    assert r.backing == Spliced(a, n, i)[n - 1 := x];
    assert a[i] == v.value.replicas[i];
    if i == n - 1 {
      assert r.backing[i] == x;
    } else {
      assert r.backing[i] == a[i + 1] == v.value.replicas[i + 1];
    }
    assert r.backing[..|seen|][i] != seen[i];
  }

  ghost predicate OnlyAdds(ops: seq<Op>) {
    forall i :: 0 <= i < |ops| ==> ops[i].Add?
  }

  /** Whenever the snapshot is persisted during the run, and whatever replicas are added before it is, the copy reads
      what it did. */
  ghost predicate AlwaysReads(v: View, k: string, ops: seq<Op>, seen: seq<string>)
    requires Coherent(v) && |seen| <= |v.backing|
  {
    forall n, more :: 0 <= n <= |ops| && OnlyAdds(more) ==> Run(v, k, ops[..n] + more).backing[..|seen|] == seen
  }

  lemma SparesThenAdds(v: View, k: string, ops: seq<Op>, seen: seq<string>, more: seq<Op>)
    requires Coherent(v) && Spares(v, k, ops, seen) && OnlyAdds(more)
    ensures Spares(v, k, ops + more, seen)
  {
    var all := ops + more;
    forall i | 0 <= i < |all| ensures !Hits(Run(v, k, all[..i]), k, all[i], seen) {
      if i < |ops| { assert all[..i] == ops[..i]; }
    }
  }

  /** Snapshot isolation over whole runs: the copy can be relied on if and only if the run never evicts a replica the
      copy shows while the array is shared. */
  lemma IsolationIff(v: View, k: string, ops: seq<Op>, seen: seq<string>)
    requires Reads(v, seen)
    ensures AlwaysReads(v, k, ops, seen) <==> Spares(v, k, ops, seen)
  {
    if Spares(v, k, ops, seen) {
      forall n, more | 0 <= n <= |ops| && OnlyAdds(more)
        ensures Run(v, k, ops[..n] + more).backing[..|seen|] == seen
      {
        SparesPrefix(v, k, ops, seen, n);
        SparesThenAdds(v, k, ops[..n], seen, more);
        SparedReads(v, k, ops[..n] + more, seen);
      }
    } else {
      var n, x := FirstHit(v, k, ops, seen);
      assert OnlyAdds([Add(k, x, 0)]);
    }
  }

  /** A run that does not spare the copy has a moment at which adding a replica spoils it. */
  lemma {:induction false} FirstHit(v: View, k: string, ops: seq<Op>, seen: seq<string>) returns (n: nat, x: string)
    requires Reads(v, seen) && !Spares(v, k, ops, seen)
    ensures n <= |ops| && Run(v, k, ops[..n] + [Add(k, x, 0)]).backing[..|seen|] != seen
    decreases |ops|
  {
    var m := |ops| - 1;
    var init := ops[..m];
    if Spares(v, k, init, seen) {
      var u := Run(v, k, init);
      SparedReads(v, k, init, seen);
      OnlyLastHits(v, k, ops, seen);
      n := |ops|;
      x := FreshName(ToSet(u.backing));
      HitThenAdd(u, k, ops[m], seen, x);
      TakeAll(ops);
      RunSnoc(v, k, ops, Add(k, x, 0));
    } else {
      n, x := FirstHit(v, k, init, seen);
      assert init[..n] == ops[..n];
    }
  }

  lemma OnlyLastHits(v: View, k: string, ops: seq<Op>, seen: seq<string>)
    requires Coherent(v) && |ops| > 0 && !Spares(v, k, ops, seen) && Spares(v, k, ops[..|ops| - 1], seen)
    ensures Hits(Run(v, k, ops[..|ops| - 1]), k, ops[|ops| - 1], seen)
  {
    var m := |ops| - 1;
    forall i | 0 <= i < m ensures !Hits(Run(v, k, ops[..i]), k, ops[i], seen) {
      assert ops[..m][..i] == ops[..i] && ops[..m][i] == ops[i];
    }
  }

  // ----- One eviction -----

  /** Exactly when one eviction leaks: a snapshot that saw `m` replicas still reads the same iff the evicted
      one was beyond them or was the very last live one. */
  lemma EvictionLeaksExactly(a: seq<string>, n: nat, i: nat, m: nat)
    requires i < n <= |a| && m <= n && NoDup(a[..n])
    ensures Spliced(a, n, i)[..m] == a[..m] <==> m <= i || i == n - 1
  {
    var r := Spliced(a, n, i);
    if i < m && i < n - 1 {
      assert r[i] == a[i + 1] && a[..n][i] != a[..n][i + 1];
      assert r[..m][i] != a[..m][i];
    } else if i == n - 1 {
      assert r == a;
    } else {
      assert r[..m] == a[..m];
    }
  }

  /** Evicting and then re-adding: a new replica overwrites the slot the eviction freed, so the snapshot
      survives the pair iff the evicted replica is one it never saw. */
  lemma EvictThenAddLeaksExactly(a: seq<string>, n: nat, i: nat, m: nat, x: string)
    requires i < n <= |a| && m <= n && NoDup(a[..n]) && x !in a[..n]
    ensures Spliced(a, n, i)[n - 1 := x][..m] == a[..m] <==> m <= i
  {
    var r := Spliced(a, n, i)[n - 1 := x];
    if m <= i {
      assert r[..m] == a[..m];
    } else {
      assert a[..n][i] == a[i] && a[..m][i] == a[i] && r[..m][i] == r[i];
      if i == n - 1 {
        assert r[i] == x;
      } else {
        assert r[i] == a[i + 1] && a[..n][i + 1] == a[i + 1];
      }
    }
  }
}
