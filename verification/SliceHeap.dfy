/** Snapshots copy chunk records by value, but a record holds a slice, and a copied slice shares its backing array
    with the live record. Here the arrays are on the heap; `Slices` says what a snapshot reads after every run. */
module SliceHeap {
  import opened Records
  import opened Seqs
  import opened Slices
  import Metadata

  /** A slice that starts at the beginning of its backing array; the array length is its capacity. */
  datatype Slice = Slice(backing: array<string>, len: nat)

  class ChunkCell {
    var status: ChunkStatus
    var checksum: Bytes
    var replicas: Slice

    constructor (replicas: Slice)
      ensures this.status == ChunkAllocated && this.checksum == [] && this.replicas == replicas
    {
      this.status, this.checksum, this.replicas := ChunkAllocated, [], replicas;
    }
  }

  /** A chunk record as copied into a snapshot: plain fields and a slice header. */
  datatype ChunkCopy = ChunkCopy(status: ChunkStatus, checksum: Bytes, replicas: Slice)

  type Snapshot = map<string, ChunkCopy>

  ghost predicate InBounds(s: Slice) {
    s.len <= s.backing.Length
  }

  /** What reading the slice yields; a copied slice is read only when the snapshot is serialised. */
  ghost function Contents(s: Slice): seq<string>
    requires InBounds(s)
    reads s.backing
  {
    s.backing[..s.len]
  }

  ghost function CellValue(c: ChunkCell): ChunkValue
    requires InBounds(c.replicas)
    reads c, c.replicas.backing
  {
    ChunkValue(c.status, c.checksum, Contents(c.replicas))
  }

  /** A live record beside the array of a copy. */
  ghost function ViewOf(c: ChunkCell, copy: Slice): (v: View)
    requires InBounds(c.replicas)
    reads c, c.replicas.backing, copy.backing
    ensures Coherent(v)
  {
    View(CellValue(c), copy.backing[..], c.replicas.backing == copy.backing)
  }

  class ChunkRegistry {
    var registry: map<string, ChunkCell>

    ghost function Cells(): set<ChunkCell>
      reads this
    {
      set k | k in registry :: registry[k]
    }

    /** The record of one chunk and its array: all a command on that chunk may write. */
    ghost function Touched(k: string): set<object>
      reads this, Cells()
    {
      if k in registry then {registry[k], registry[k].replicas.backing} else {}
    }

    ghost function Repr(): set<object>
      reads this, Cells()
    {
      {this} + (set k | k in registry :: registry[k] as object)
      + (set k | k in registry :: registry[k].replicas.backing as object)
    }

    /** Distinct chunks have distinct records and distinct backing arrays. */
    ghost predicate Valid()
      reads this, Cells()
    {
      && (forall k :: k in registry ==> InBounds(registry[k].replicas))
      && (forall k, l :: k in registry && l in registry && k != l ==>
            registry[k] != registry[l] && registry[k].replicas.backing != registry[l].replicas.backing)
    }

    /** Every chunk of the snapshot is still known, and the snapshot shares an array only with its own chunk. */
    ghost predicate Apart(snap: Snapshot)
      reads this, Cells()
    {
      && (forall k :: k in snap ==> k in registry && InBounds(snap[k].replicas))
      && (forall k, c :: k in snap && c in registry && registry[c].replicas.backing == snap[k].replicas.backing ==>
            c == k)
    }

    /** `views` are the live records beside the arrays the snapshot reads. */
    ghost predicate Shows(snap: Snapshot, views: map<string, View>)
      requires Valid() && Apart(snap)
      reads this, Cells(), set k | k in registry :: registry[k].replicas.backing
      reads set k | k in snap :: snap[k].replicas.backing
    {
      views.Keys == snap.Keys && forall k :: k in snap ==> views[k] == ViewOf(registry[k], snap[k].replicas)
    }

    constructor ()
      ensures Valid() && registry == map[]
    {
      registry := map[];
    }

    /** A snapshot copies every record field by field: array contents are not copied. */
    method DeepCopy() returns (snap: Snapshot)
      requires Valid()
      ensures snap.Keys == registry.Keys
      ensures forall k :: k in registry ==>
                snap[k] == ChunkCopy(registry[k].status, registry[k].checksum, registry[k].replicas)
      ensures Apart(snap)
      ensures forall k :: k in snap && NoDup(Contents(registry[k].replicas)) ==>
                Reads(ViewOf(registry[k], snap[k].replicas), Contents(snap[k].replicas))
    {
      snap := map[];
      var rest := registry.Keys;
      while rest != {}
        invariant rest <= registry.Keys && snap.Keys == registry.Keys - rest
        invariant forall k :: k in snap ==>
                    snap[k] == ChunkCopy(registry[k].status, registry[k].checksum, registry[k].replicas)
      {
        var k :| k in rest;
        snap := snap[k := ChunkCopy(registry[k].status, registry[k].checksum, registry[k].replicas)];
        rest := rest - {k};
      }
    }

    /** A stub record for a new chunk; the id is known not to be in use. */
    method CreateStub(k: string, ghost snap: Snapshot)
      requires Valid() && Apart(snap) && k !in registry
      modifies this
      ensures Valid() && Apart(snap)
      ensures registry.Keys == old(registry.Keys) + {k} && fresh(registry[k]) && fresh(registry[k].replicas.backing)
      ensures forall l :: l in old(registry) ==> registry[l] == old(registry)[l]
      ensures CellValue(registry[k]) == ChunkValue(ChunkAllocated, [], [])
    {
      var empty := new string[0];
      var cell := new ChunkCell(Slice(empty, 0));
      registry := registry[k := cell];
    }

    /** A commit installs a freshly made replica slice. */
    method CommitCell(k: string, nodeIDs: seq<string>, checksum: Bytes, capacity: nat, ghost snap: Snapshot)
      requires Valid() && Apart(snap) && k in registry && |nodeIDs| <= capacity
      modifies registry[k]
      ensures Valid() && Apart(snap)
      ensures fresh(registry[k].replicas.backing)
      ensures CellValue(registry[k]) == ChunkValue(ChunkComplete, checksum, nodeIDs)
    {
      var made := new string[capacity](i => if 0 <= i < |nodeIDs| then nodeIDs[i] else "");
      var cell := registry[k];
      cell.status, cell.checksum, cell.replicas := ChunkComplete, checksum, Slice(made, |nodeIDs|);
      assert made[..|nodeIDs|] == nodeIDs;
    }

    /** Appends in place while there is spare capacity, otherwise into a larger copy. */
    method AppendReplica(k: string, nodeID: string, capacity: nat, ghost snap: Snapshot)
      requires Valid() && Apart(snap) && k in registry
      requires registry[k].replicas.len < capacity
      modifies registry[k], registry[k].replicas.backing
      ensures Valid() && Apart(snap)
      ensures CellValue(registry[k]) ==
              old(CellValue(registry[k])).(replicas := old(Contents(registry[k].replicas)) + [nodeID])
      ensures if old(registry[k].replicas.len < registry[k].replicas.backing.Length)
              then && registry[k].replicas.backing == old(registry[k].replicas.backing)
                   && registry[k].replicas.backing[..] ==
                      old(registry[k].replicas.backing[..])[old(registry[k].replicas.len) := nodeID]
              else && fresh(registry[k].replicas.backing)
                   && old(registry[k].replicas.backing)[..] == old(registry[k].replicas.backing[..])
    {
      var cell := registry[k];
      var s := cell.replicas;
      if s.len < s.backing.Length {
        s.backing[s.len] := nodeID;
        cell.replicas := Slice(s.backing, s.len + 1);
      } else {
        var larger := new string[capacity](i requires 0 <= i reads s.backing =>
          if i < s.len && i < s.backing.Length then s.backing[i] else nodeID);
        cell.replicas := Slice(larger, s.len + 1);
        assert larger[..s.len] == s.backing[..s.len];
      }
    }

    /** Splices one position out of the live slice, shifting the array in place under a snapshot that shares it. */
    method SpliceReplica(k: string, i: nat, ghost snap: Snapshot)
      requires Valid() && Apart(snap) && k in registry && i < registry[k].replicas.len
      modifies registry[k], registry[k].replicas.backing
      ensures Valid() && Apart(snap) && registry[k].replicas.backing == old(registry[k].replicas.backing)
      ensures CellValue(registry[k]) ==
              old(CellValue(registry[k])).(replicas := RemoveAt(old(Contents(registry[k].replicas)), i))
      ensures k in snap ==> ViewOf(registry[k], snap[k].replicas) ==
                            SplicedView(old(ViewOf(registry[k], snap[k].replicas)), i)
    {
      var cell := registry[k];
      var s := cell.replicas;
      ghost var before := s.backing[..];
      ShiftLeft(s.backing, s.len, i);
      cell.replicas := Slice(s.backing, s.len - 1);
      assert s.backing[..s.len - 1] == RemoveAt(before[..s.len], i);
      assert s.backing[..] == Spliced(before, s.len, i);
    }

    /** `append(a[:i], a[i+1:]...)` on the array itself. */
    method ShiftLeft(a: array<string>, n: nat, i: nat)
      requires i < n <= a.Length
      modifies a
      ensures a[..] == Spliced(old(a[..]), n, i)
    {
      var j := i;
      while j < n - 1
        invariant i <= j <= n - 1
        invariant forall p :: 0 <= p < a.Length && !(i <= p < j) ==> a[p] == old(a[p])
        invariant forall p :: i <= p < j ==> a[p] == old(a[p + 1])
      {
        a[j] := a[j + 1];
        j := j + 1;
      }
    }

    method Find(s: Slice, nodeID: string) returns (i: nat)
      requires InBounds(s)
      ensures i == Metadata.IndexOf(Contents(s), nodeID)
    {
      i := 0;
      while i < s.len && s.backing[i] != nodeID
        invariant i <= s.len
        invariant forall p :: 0 <= p < i ==> s.backing[p] != nodeID
      {
        i := i + 1;
      }
      assert i < s.len ==> Contents(s)[i] == nodeID;
      assert forall p :: 0 <= p < i ==> Contents(s)[p] != nodeID;
    }

    method LoseCell(k: string, ghost snap: Snapshot)
      requires Valid() && Apart(snap) && k in registry
      modifies registry[k]
      ensures Valid() && Apart(snap) && registry[k].replicas == old(registry[k].replicas)
      ensures CellValue(registry[k]) == old(CellValue(registry[k])).(status := ChunkLost)
    {
      registry[k].status := ChunkLost;
    }

    method AddReplica(k: string, nodeID: string, capacity: nat, ghost snap: Snapshot)
      requires Valid() && Apart(snap) && k in registry
      modifies registry[k], registry[k].replicas.backing
      ensures Valid() && Apart(snap)
      ensures registry[k].replicas.backing == old(registry[k].replicas.backing) || fresh(registry[k].replicas.backing)
      ensures CellValue(registry[k]) == Meaning(old(CellValue(registry[k])), Add(k, nodeID, capacity))
      ensures k in snap ==> ViewOf(registry[k], snap[k].replicas) ==
                            After(old(ViewOf(registry[k], snap[k].replicas)), k, Add(k, nodeID, capacity))
    {
      var s := registry[k].replicas;
      var i := Find(s, nodeID);
      if i == s.len { AppendReplica(k, nodeID, if capacity <= i then i + 1 else capacity, snap); }
    }

    method EvictReplica(k: string, nodeID: string, ghost snap: Snapshot)
      requires Valid() && Apart(snap) && k in registry
      modifies registry[k], registry[k].replicas.backing
      ensures Valid() && Apart(snap) && registry[k].replicas.backing == old(registry[k].replicas.backing)
      ensures CellValue(registry[k]) == Meaning(old(CellValue(registry[k])), Evict(k, nodeID))
      ensures k in snap ==> ViewOf(registry[k], snap[k].replicas) ==
                            After(old(ViewOf(registry[k], snap[k].replicas)), k, Evict(k, nodeID))
    {
      var s := registry[k].replicas;
      var i := Find(s, nodeID);
      if i < s.len { SpliceReplica(k, i, snap); }
    }

    /** A command on a known chunk. */
    method StepKnown(op: Op, ghost snap: Snapshot)
      requires Valid() && Apart(snap) && op.chunkID in registry && !op.Create?
      modifies registry[op.chunkID], registry[op.chunkID].replicas.backing
      ensures Valid() && Apart(snap)
      ensures registry[op.chunkID].replicas.backing == old(registry[op.chunkID].replicas.backing)
              || fresh(registry[op.chunkID].replicas.backing)
      ensures CellValue(registry[op.chunkID]) == Meaning(old(CellValue(registry[op.chunkID])), op)
      ensures op.chunkID in snap ==>
                ViewOf(registry[op.chunkID], snap[op.chunkID].replicas) ==
                After(old(ViewOf(registry[op.chunkID], snap[op.chunkID].replicas)), op.chunkID, op)
    {
      match op {
        case Commit(k, nodeIDs, checksum, capacity) =>
          if |registry[k].checksum| == 0 && registry[k].status != ChunkComplete {
            CommitCell(k, nodeIDs, checksum, if capacity < |nodeIDs| then |nodeIDs| else capacity, snap);
          }
        case Lost(k) => LoseCell(k, snap);
        case Add(k, nodeID, capacity) => AddReplica(k, nodeID, capacity, snap);
        case Evict(k, nodeID) => EvictReplica(k, nodeID, snap);
      }
    }

    method StepViews(op: Op, ghost snap: Snapshot, ghost views: map<string, View>)
      requires Valid() && Apart(snap) && Shows(snap, views) && AllCoherent(views)
      requires op.chunkID in registry && !op.Create?
      modifies registry[op.chunkID], registry[op.chunkID].replicas.backing
      ensures Valid() && Apart(snap)
      ensures registry[op.chunkID].replicas.backing == old(registry[op.chunkID].replicas.backing)
              || fresh(registry[op.chunkID].replicas.backing)
      ensures CellValue(registry[op.chunkID]) == Meaning(old(CellValue(registry[op.chunkID])), op)
      ensures Shows(snap, AfterAll(views, op))
    {
      StepKnown(op, snap);
      assert ShowsOthers(snap, views, op.chunkID);
      ShowsAfter(snap, views, op);
    }

    ghost predicate ShowsOthers(snap: Snapshot, views: map<string, View>, c: string)
      requires Valid() && Apart(snap)
      reads this, Cells(), set k | k in registry :: registry[k].replicas.backing
      reads set k | k in snap :: snap[k].replicas.backing
    {
      views.Keys == snap.Keys
      && forall k :: k in snap && k != c ==> views[k] == ViewOf(registry[k], snap[k].replicas)
    }

    lemma ShowsAfter(snap: Snapshot, views: map<string, View>, op: Op)
      requires Valid() && Apart(snap) && AllCoherent(views) && ShowsOthers(snap, views, op.chunkID)
      requires op.chunkID in snap ==>
                 ViewOf(registry[op.chunkID], snap[op.chunkID].replicas) == After(views[op.chunkID], op.chunkID, op)
      ensures Shows(snap, AfterAll(views, op))
    {}

    /** A new record shows in no copy. */
    method CreateViews(k: string, ghost snap: Snapshot, ghost views: map<string, View>)
      requires Valid() && Apart(snap) && Shows(snap, views) && k !in registry
      modifies this
      ensures Valid() && Apart(snap) && Shows(snap, views)
      ensures registry.Keys == old(registry.Keys) + {k} && fresh(registry[k]) && fresh(registry[k].replicas.backing)
      ensures forall l :: l in old(registry) ==> registry[l] == old(registry)[l]
      ensures CellValue(registry[k]) == ChunkValue(ChunkAllocated, [], [])
    {
      CreateStub(k, snap);
      forall l | l in snap ensures views[l] == ViewOf(registry[l], snap[l].replicas) {
        assert registry[l] == old(registry)[l];
      }
    }

    /** One command against the live registry: it does what the command means to the record it names and touches no
        other, and every copy in the snapshot reads what `After` says. */
    method Step(op: Op, ghost snap: Snapshot, ghost views: map<string, View>)
      requires Valid() && Apart(snap) && Shows(snap, views) && AllCoherent(views)
      modifies this, Touched(op.chunkID)
      ensures Valid() && Apart(snap) && Shows(snap, AfterAll(views, op))
      ensures registry.Keys == old(registry.Keys) + (if op.Create? then {op.chunkID} else {})
      ensures forall k :: k in old(registry) ==> registry[k] == old(registry[k])
      ensures op.chunkID in old(registry) ==>
                CellValue(registry[op.chunkID]) == Meaning(old(CellValue(registry[op.chunkID])), op)
      ensures op.chunkID !in old(registry) && op.Create? ==>
                CellValue(registry[op.chunkID]) == ChunkValue(ChunkAllocated, [], [])
      ensures fresh(Repr() - old(Repr()))
    {
      if op.Create? || op.chunkID !in registry { UnaffectedViews(views, op); }
      if op.Create? {
        if op.chunkID !in registry { CreateViews(op.chunkID, snap, views); }
      } else if op.chunkID in registry {
        StepViews(op, snap, views);
      }
    }

    method StepInRepr(op: Op, ghost snap: Snapshot, ghost views: map<string, View>)
      requires Valid() && Apart(snap) && Shows(snap, views) && AllCoherent(views)
      modifies Repr()
      ensures Valid() && Apart(snap) && Shows(snap, AfterAll(views, op)) && fresh(Repr() - old(Repr()))
    {
      assert Touched(op.chunkID) <= Repr();
      Step(op, snap, views);
    }

    /** Applies the operations, one after the other. */
    method RunEach(ops: seq<Op>, ghost snap: Snapshot, ghost views: map<string, View>)
      requires Valid() && Apart(snap) && Shows(snap, views) && AllCoherent(views)
      modifies Repr()
      ensures Valid() && Apart(snap) && Shows(snap, RunAll(views, ops))
    {
      var i := 0;
      RunAllNone(views, ops);
      while i < |ops|
        invariant 0 <= i <= |ops|
        invariant Valid() && Apart(snap) && fresh(Repr() - old(Repr()))
        invariant Shows(snap, RunAll(views, ops[..i]))
      {
        RunAllNext(views, ops, i);
        StepInRepr(ops[i], snap, RunAll(views, ops[..i]));
        i := i + 1;
      }
      TakeAll(ops);
    }

    /** Whatever commands run between taking a snapshot and persisting it, every copy reads what `Run` says; so a copy
        whose replicas are not evicted while its array is shared is persisted as it was taken. */
    method RunBeforePersist(ops: seq<Op>, ghost snap: Snapshot, ghost views: map<string, View>)
      requires Valid() && Apart(snap) && Shows(snap, views) && AllCoherent(views)
      modifies Repr()
      ensures Valid() && Apart(snap) && Shows(snap, RunAll(views, ops))
      ensures forall k :: k in snap && Spared(views[k], k, ops, old(Contents(snap[k].replicas))) ==>
                Contents(snap[k].replicas) == old(Contents(snap[k].replicas))
    {
      RunEach(ops, snap, views);
      forall k | k in snap && Spared(views[k], k, ops, old(Contents(snap[k].replicas)))
        ensures Contents(snap[k].replicas) == old(Contents(snap[k].replicas))
      {
        SparedReads(views[k], k, ops, old(Contents(snap[k].replicas)));
        assert Contents(snap[k].replicas) == RunAll(views, ops)[k].backing[..snap[k].replicas.len];
      }
    }
  }

  ghost predicate Spared(v: View, k: string, ops: seq<Op>, seen: seq<string>) {
    Reads(v, seen) && Spares(v, k, ops, seen)
  }
}
