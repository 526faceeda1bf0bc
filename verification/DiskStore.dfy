/** The chunk store of one storage node: chunk files, a checksum index and space accounting. */
module DiskStores {
  import opened Records
  import opened DiskPaths

  newtype uint64 = x: int | 0 <= x < 0x1_0000_0000_0000_0000

  /** Lengths of byte slices are signed 64-bit numbers. */
  const MAX_LENGTH := 0x8000_0000_0000_0000

  datatype Status = Done | Failed(error: StoreError)
  datatype Fetched = Data(data: Bytes) | NoData(error: StoreError)

  // ----- Sizes of stored chunks -----

  ghost function Total(m: map<string, Bytes>): nat {
    if m == map[] then 0 else var k :| k in m; |m[k]| + Total(m - {k})
  }

  ghost function SizeIn(m: map<string, Bytes>, k: string): nat {
    if k in m then |m[k]| else 0
  }

  lemma {:induction false} TotalWithout(m: map<string, Bytes>, k: string)
    requires k in m
    ensures Total(m) == |m[k]| + Total(m - {k})
    decreases |m|
  {
    var x :| x in m && Total(m) == |m[x]| + Total(m - {x});
    if x != k {
      TotalWithout(m - {x}, k);
      TotalWithout(m - {k}, x);
      assert m - {x} - {k} == m - {k} - {x};
    }
  }

  lemma TotalWith(m: map<string, Bytes>, k: string, v: Bytes)
    ensures Total(m[k := v]) == Total(m) - SizeIn(m, k) + |v|
  {
    TotalWithout(m[k := v], k);
    if k in m {
      TotalWithout(m, k);
      assert m[k := v] - {k} == m - {k};
    } else {
      assert m[k := v] - {k} == m;
    }
  }

  lemma SizeBelowTotal(m: map<string, Bytes>, k: string)
    ensures SizeIn(m, k) <= Total(m)
  {
    if k in m { TotalWithout(m, k); }
  }

  // ----- Disks -----

  datatype Layout = Layout(root: string, tempDir: string, splitLevel: nat)

  /** What survives a crash: the files and the checksum index. */
  datatype Disk = Disk(files: map<string, Bytes>, index: map<string, Bytes>)

  predicate Legal(layout: Layout, id: string) {
    ValidId(layout.splitLevel, id)
  }

  function PathOf(layout: Layout, id: string): string
    requires Legal(layout, id)
  {
    ChunkPath(layout.root, layout.splitLevel, id)
  }

  /** The chunks a node can serve: indexed and with a file. */
  ghost function Stored(layout: Layout, d: Disk): map<string, Bytes> {
    map id | id in d.index && Legal(layout, id) && PathOf(layout, id) in d.files :: d.files[PathOf(layout, id)]
  }

  ghost predicate IsNoChunkPath(layout: Layout, path: string) {
    forall id :: Legal(layout, id) ==> path != PathOf(layout, id)
  }

  /** Every chunk served has the checksum recorded for it. */
  ghost predicate Sound(layout: Layout, d: Disk, hash: Bytes -> Bytes) {
    forall id :: id in Stored(layout, d) ==> hash(Stored(layout, d)[id]) == d.index[id]
  }

  /** Moreover every indexed chunk has a file. */
  ghost predicate Intact(layout: Layout, d: Disk, hash: Bytes -> Bytes) {
    Sound(layout, d, hash) && forall id :: id in d.index ==> id in Stored(layout, d)
  }

  /** A chunk file with new contents: only that chunk, if it is indexed, serves them. */
  lemma StoredAfterFile(layout: Layout, d: Disk, id: string, data: Bytes)
    requires Legal(layout, id)
    ensures Stored(layout, Overwritten(layout, d, id, data)) ==
            if id in d.index then Stored(layout, d)[id := data] else Stored(layout, d)
  {
    forall k | k in d.index && Legal(layout, k) && k != id ensures PathOf(layout, k) != PathOf(layout, id) {
      if PathOf(layout, k) == PathOf(layout, id) { PathsDistinct(layout.root, layout.splitLevel, k, id); }
    }
  }

  lemma StoredAfterIndex(layout: Layout, d: Disk, id: string, sum: Bytes)
    requires Legal(layout, id) && PathOf(layout, id) in d.files
    ensures Stored(layout, d.(index := d.index[id := sum])) == Stored(layout, d)[id := d.files[PathOf(layout, id)]]
  {}

  lemma StoredWithoutOther(layout: Layout, d: Disk, path: string)
    requires IsNoChunkPath(layout, path)
    ensures Stored(layout, d.(files := d.files - {path})) == Stored(layout, d)
  {}

  /** Removing a file that is no chunk file changes nothing the store promises. */
  lemma SoundWithoutOther(layout: Layout, d: Disk, path: string, hash: Bytes -> Bytes)
    requires IsNoChunkPath(layout, path)
    ensures Stored(layout, d.(files := d.files - {path})) == Stored(layout, d)
    ensures Sound(layout, d.(files := d.files - {path}), hash) <==> Sound(layout, d, hash)
  {
    StoredWithoutOther(layout, d, path);
  }

  lemma SoundWithOther(layout: Layout, d: Disk, path: string, data: Bytes, hash: Bytes -> Bytes)
    requires IsNoChunkPath(layout, path)
    ensures Stored(layout, d.(files := d.files[path := data])) == Stored(layout, d)
    ensures Sound(layout, d.(files := d.files[path := data]), hash) <==> Sound(layout, d, hash)
  {
    assert Stored(layout, d.(files := d.files[path := data])) == Stored(layout, d);
  }

  lemma TempIsOther(layout: Layout, id: string)
    ensures IsNoChunkPath(layout, TempPath(layout.tempDir, id))
  {
    forall k | Legal(layout, k) ensures TempPath(layout.tempDir, id) != PathOf(layout, k) {
      TempIsNoChunkPath(layout.root, layout.splitLevel, layout.tempDir, id, k);
    }
  }

  function Overwritten(layout: Layout, d: Disk, id: string, data: Bytes): Disk
    requires Legal(layout, id)
  {
    d.(files := d.files[PathOf(layout, id) := data])
  }

  function Written(layout: Layout, d: Disk, id: string, data: Bytes, hash: Bytes -> Bytes): Disk
    requires Legal(layout, id)
  {
    Overwritten(layout, d, id, data).(index := d.index[id := hash(data)])
  }

  // ----- Committing a file as a chunk, step by step -----

  function Moved(layout: Layout, d: Disk, source: string, id: string): Disk
    requires Legal(layout, id) && source in d.files
  {
    d.(files := (d.files - {source})[PathOf(layout, id) := d.files[source]])
  }

  function Recorded(layout: Layout, d: Disk, source: string, id: string, hash: Bytes -> Bytes): Disk
    requires Legal(layout, id) && source in d.files
  {
    Moved(layout, d, source, id).(index := d.index[id := hash(d.files[source])])
  }

  /** The disk before the commit, after the file was moved, and after its checksum was recorded: whatever
      step a crash follows, one of these is what is found. */
  function RenamePoints(layout: Layout, d: Disk, source: string, id: string, hash: Bytes -> Bytes): seq<Disk>
    requires Legal(layout, id) && source in d.files
  {
    [d, Moved(layout, d, source, id), Recorded(layout, d, source, id, hash)]
  }

  lemma StoredAfterMove(layout: Layout, d: Disk, source: string, id: string)
    requires Legal(layout, id) && source in d.files && IsNoChunkPath(layout, source)
    ensures Stored(layout, Moved(layout, d, source, id)) ==
            if id in d.index then Stored(layout, d)[id := d.files[source]] else Stored(layout, d)
  {
    StoredWithoutOther(layout, d, source);
    StoredAfterFile(layout, d.(files := d.files - {source}), id, d.files[source]);
  }

  lemma StoredAfterCommit(layout: Layout, d: Disk, source: string, id: string, hash: Bytes -> Bytes)
    requires Legal(layout, id) && source in d.files && IsNoChunkPath(layout, source)
    ensures Stored(layout, Recorded(layout, d, source, id, hash)) == Stored(layout, d)[id := d.files[source]]
  {
    StoredAfterMove(layout, d, source, id);
    StoredAfterIndex(layout, Moved(layout, d, source, id), id, hash(d.files[source]));
  }

  lemma MovedIntact(layout: Layout, d: Disk, source: string, id: string, hash: Bytes -> Bytes)
    requires Legal(layout, id) && source in d.files && IsNoChunkPath(layout, source) && Intact(layout, d, hash)
    ensures Intact(layout, Moved(layout, d, source, id), hash) <==>
              (id in d.index ==> d.index[id] == hash(d.files[source]))
  {
    var moved := Moved(layout, d, source, id);
    StoredAfterMove(layout, d, source, id);
    if id in d.index {
      assert id in Stored(layout, moved) && Stored(layout, moved)[id] == d.files[source];
    }
  }

  lemma RecordedIntact(layout: Layout, d: Disk, source: string, id: string, hash: Bytes -> Bytes)
    requires Legal(layout, id) && source in d.files && IsNoChunkPath(layout, source) && Intact(layout, d, hash)
    ensures Intact(layout, Recorded(layout, d, source, id, hash), hash)
  {
    StoredAfterCommit(layout, d, source, id, hash);
  }

  /** Crash-point safety: from an intact disk, stopping the commit after any step leaves the disk intact if and
      only if the chunk was not indexed yet or its recorded checksum is that of the new contents. */
  lemma CrashPointsIntact(layout: Layout, d: Disk, source: string, id: string, hash: Bytes -> Bytes)
    requires Legal(layout, id) && source in d.files && IsNoChunkPath(layout, source) && Intact(layout, d, hash)
    ensures (forall i :: 0 <= i < 3 ==> Intact(layout, RenamePoints(layout, d, source, id, hash)[i], hash))
            <==> (id in d.index ==> d.index[id] == hash(d.files[source]))
    ensures Intact(layout, Recorded(layout, d, source, id, hash), hash)
  {
    MovedIntact(layout, d, source, id, hash);
    RecordedIntact(layout, d, source, id, hash);
    assert RenamePoints(layout, d, source, id, hash)[1] == Moved(layout, d, source, id);
  }

  /** The disk after a chunk's file, and unless that fails its index entry, is removed. */
  function Removed(layout: Layout, d: Disk, id: string, keepsEntry: bool): Disk
    requires Legal(layout, id)
  {
    Disk(d.files - {PathOf(layout, id)}, if keepsEntry then d.index else d.index - {id})
  }

  lemma StoredAfterRemoval(layout: Layout, d: Disk, id: string, keepsEntry: bool)
    requires Legal(layout, id)
    ensures Stored(layout, Removed(layout, d, id, keepsEntry)) == Stored(layout, d) - {id}
  {
    forall k | k in d.index && Legal(layout, k) && k != id ensures PathOf(layout, k) != PathOf(layout, id) {
      if PathOf(layout, k) == PathOf(layout, id) { PathsDistinct(layout.root, layout.splitLevel, k, id); }
    }
  }

  /** Removing a chunk serves the others unchanged and soundly, also when the index entry stays behind. */
  lemma AfterRemoval(layout: Layout, d: Disk, id: string, keepsEntry: bool, hash: Bytes -> Bytes)
    requires Legal(layout, id) && Sound(layout, d, hash) && id in d.index && PathOf(layout, id) in d.files
    ensures var r := Removed(layout, d, id, keepsEntry);
            && Sound(layout, r, hash) && Stored(layout, r) == Stored(layout, d) - {id}
            && Total(Stored(layout, r)) + |d.files[PathOf(layout, id)]| == Total(Stored(layout, d))
  {
    StoredAfterRemoval(layout, d, id, keepsEntry);
    TotalWithout(Stored(layout, d), id);
  }

  // ----- The store -----

  /** The total once `id` has `n` bytes. */
  ghost function TotalIf(stored: map<string, Bytes>, id: string, n: nat): int {
    Total(stored) - SizeIn(stored, id) + n
  }

  class DiskStore {
    const layout: Layout
    const totalSpace: uint64
    const hash: Bytes -> Bytes
    var files: map<string, Bytes>
    var index: map<string, Bytes>
    var usedSpace: uint64

    ghost function OnDisk(): Disk
      reads this`files, this`index
    {
      Disk(files, index)
    }

    ghost function Chunks(): map<string, Bytes>
      reads this`files, this`index
    {
      Stored(layout, OnDisk())
    }

    /** Used space is the size of the chunks served and stays within the total. */
    ghost predicate Accounted()
      reads this
    {
      usedSpace as int == Total(Chunks()) && usedSpace <= totalSpace
    }

    ghost predicate Valid()
      reads this
    {
      Accounted() && Sound(layout, OnDisk(), hash)
    }

    ghost predicate RoomFor(chunks: map<string, Bytes>, id: string, n: nat) {
      TotalIf(chunks, id, n) <= totalSpace as int
    }

    /** The store is valid, and serves and records what it did. */
    ghost predicate Unchanged(chunks: map<string, Bytes>, recorded: map<string, Bytes>)
      reads this
    {
      Valid() && Chunks() == chunks && index == recorded
    }

    /** The store is valid, and serves and records exactly `id` anew. */
    ghost predicate Committed(chunks: map<string, Bytes>, recorded: map<string, Bytes>, id: string, data: Bytes)
      reads this
    {
      Valid() && Chunks() == chunks[id := data] && index == recorded[id := hash(data)]
    }

    /** The contents of `id` were replaced and their checksum was not recorded. An indexed chunk serves the new
        contents; the accounting and the checksums are right if and only if size and checksum stayed. */
    ghost predicate HalfCommitted(chunks: map<string, Bytes>, recorded: map<string, Bytes>, id: string, data: Bytes)
      reads this
    {
      && index == recorded && Chunks() == (if id in recorded then chunks[id := data] else chunks)
      && (Accounted() <==> id !in recorded || SizeIn(chunks, id) == |data|)
      && (Sound(layout, OnDisk(), hash) <==> id !in recorded || recorded[id] == hash(data))
    }

    constructor (layout: Layout, totalSpace: uint64, hash: Bytes -> Bytes)
      requires layout.splitLevel < 0x8000
      ensures Valid() && files == map[] && index == map[]
      ensures this.layout == layout && this.totalSpace == totalSpace && this.hash == hash
    {
      this.layout, this.totalSpace, this.hash := layout, totalSpace, hash;
      files, index, usedSpace := map[], map[], 0;
      new;
      assert Chunks() == map[];
    }

    method ValidateChunkId(id: string) returns (ok: bool)
      ensures ok == Legal(layout, id)
    {
      if id == "" || |id| < 2 * layout.splitLevel { return false; }
      var dots := ContainsDotDot(id);
      return '/' !in id && '\\' !in id && !dots;
    }

    method PathForChunk(id: string) returns (ok: bool, path: string)
      ensures ok == Legal(layout, id)
      ensures ok ==> path == PathOf(layout, id)
    {
      ok := ValidateChunkId(id);
      if !ok { return false, ""; }
      var built, dir := GetDirForChunkId(id, layout.splitLevel);
      path := layout.root + "/" + dir + id + ".chunk";
    }

    method Exists(id: string) returns (found: bool)
      ensures found <==> Legal(layout, id) && id in index
    {
      var ok := ValidateChunkId(id);
      return ok && id in index;
    }

    /** The size of the file a commit of `id` would replace; zero for a chunk that is not indexed. */
    method ExistingSize(id: string, path: string) returns (size: uint64)
      requires Accounted() && Legal(layout, id) && path == PathOf(layout, id)
      ensures size as int == SizeIn(Chunks(), id)
    {
      SizeBelowTotal(Chunks(), id);
      var known := Exists(id);
      if known && path in files { return |files[path]| as uint64; }
      return 0;
    }

    /** The space check: passes exactly when the new total stays within the limit. */
    method HasRoom(newSize: uint64, existingSize: uint64) returns (ok: bool)
      requires usedSpace <= totalSpace
      ensures ok <==> || newSize <= existingSize
                      || usedSpace as int - existingSize as int + newSize as int <= totalSpace as int
    {
      var netDelta: uint64 := if newSize > existingSize then newSize - existingSize else 0;
      var freeSpace := totalSpace - usedSpace;
      return netDelta <= freeSpace;
    }

    method Charge(newSize: uint64, existingSize: uint64)
      requires existingSize <= usedSpace
      requires usedSpace as int - existingSize as int + newSize as int <= totalSpace as int
      modifies this`usedSpace
      ensures usedSpace as int == old(usedSpace) as int - existingSize as int + newSize as int
    {
      if newSize >= existingSize {
        usedSpace := usedSpace + (newSize - existingSize);
      } else {
        usedSpace := usedSpace - (existingSize - newSize);
      }
    }

    /** Commits the file `source` as chunk `id`. `putFails` tells whether recording the checksum fails. On success
        exactly that chunk is replaced; a refused commit changes nothing; a failed recording leaves the
        moved file behind. */
    method Rename(source: string, id: string, putFails: bool) returns (r: Status, ghost points: seq<Disk>)
      requires Valid() && IsNoChunkPath(layout, source) && (source in files ==> |files[source]| < MAX_LENGTH)
      modifies this`files, this`index, this`usedSpace
      ensures points != [] && points[0] == old(OnDisk()) && points[|points| - 1] == OnDisk()
      ensures Legal(layout, id) && source in old(files) ==>
                points <= RenamePoints(layout, old(OnDisk()), source, id, hash)
      ensures r.Done? <==> !putFails && Legal(layout, id) && source in old(files)
                           && RoomFor(old(Chunks()), id, |old(files)[source]|)
      ensures !Legal(layout, id) ==> r == Failed(InvalidChunkId)
      ensures Legal(layout, id) && source in old(files) && !RoomFor(old(Chunks()), id, |old(files)[source]|) ==>
                r == Failed(InsufficientSpace)
      ensures r.Done? ==> Valid() && OnDisk() == Recorded(layout, old(OnDisk()), source, id, hash)
                          && Chunks() == old(Chunks())[id := old(files)[source]]
      ensures !r.Done? ==> |points| <= 2 && (putFails || |points| == 1)
      ensures !r.Done? ==>
                if Legal(layout, id) && source in old(files) && RoomFor(old(Chunks()), id, |old(files)[source]|)
                then OnDisk() == Moved(layout, old(OnDisk()), source, id)
                     && HalfCommitted(old(Chunks()), old(index), id, old(files)[source])
                else OnDisk() == old(OnDisk()) && Unchanged(old(Chunks()), old(index))
    {
      points := [OnDisk()];
      var ok := ValidateChunkId(id);
      if !ok { return Failed(InvalidChunkId), points; }
      if source !in files { return Failed(IoError), points; }
      var pathOk, dest := PathForChunk(id);
      var existingSize := ExistingSize(id, dest);
      var srcSize := |files[source]| as uint64;
      SizeBelowTotal(Chunks(), id);
      var room := HasRoom(srcSize, existingSize);
      if !room { return Failed(InsufficientSpace), points; }
      r, points := Place(source, id, dest, srcSize, existingSize, putFails);
    }

    /** Moves a file that fits into place, records its checksum and charges its size. */
    method Place(source: string, id: string, dest: string, srcSize: uint64, existingSize: uint64, putFails: bool)
      returns (r: Status, ghost points: seq<Disk>)
      requires Valid() && IsNoChunkPath(layout, source) && source in files && |files[source]| == srcSize as int
      requires Legal(layout, id) && dest == PathOf(layout, id) && existingSize as int == SizeIn(Chunks(), id)
      requires RoomFor(Chunks(), id, |files[source]|)
      modifies this`files, this`index, this`usedSpace
      ensures r.Done? <==> !putFails
      ensures r.Done? ==> && Valid() && OnDisk() == Recorded(layout, old(OnDisk()), source, id, hash)
                          && Chunks() == old(Chunks())[id := old(files)[source]]
                          && points == RenamePoints(layout, old(OnDisk()), source, id, hash)
      ensures !r.Done? ==> && OnDisk() == Moved(layout, old(OnDisk()), source, id)
                           && points == [old(OnDisk()), OnDisk()]
                           && HalfCommitted(old(Chunks()), old(index), id, old(files)[source])
    {
      SizeBelowTotal(Chunks(), id);
      points := [OnDisk()];
      var data := files[source];
      files := (files - {source})[dest := data];
      points := points + [OnDisk()];
      if putFails {
        AfterMove(layout, old(OnDisk()), source, id, hash);
        StoredAfterMove(layout, old(OnDisk()), source, id);
        return Failed(IoError), points;
      }
      index := index[id := hash(files[dest])];
      points := points + [OnDisk()];
      AfterCommit(layout, old(OnDisk()), source, id, hash);
      Charge(srcSize, existingSize);
      return Done, points;
    }

    /** Stores a whole value. When the file system fails, the file is as it was or holds a part of the value; when
        only the recording fails it holds the value. */
    method Write(id: string, value: Bytes, writeFails: bool, putFails: bool) returns (r: Status, ghost left: Bytes)
      requires Valid() && |value| < MAX_LENGTH
      modifies this`files, this`index, this`usedSpace
      ensures r.Done? <==> !writeFails && !putFails && Legal(layout, id) && RoomFor(old(Chunks()), id, |value|)
      ensures !Legal(layout, id) ==> r == Failed(InvalidChunkId)
      ensures Legal(layout, id) && !RoomFor(old(Chunks()), id, |value|) ==> r == Failed(InsufficientSpace)
      ensures r.Done? ==> Valid() && OnDisk() == Written(layout, old(OnDisk()), id, value, hash)
      ensures r in {Failed(InvalidChunkId), Failed(InsufficientSpace)} ==> OnDisk() == old(OnDisk()) && Valid()
      ensures r == Failed(IoError) ==>
                || (writeFails && OnDisk() == old(OnDisk()) && Unchanged(old(Chunks()), old(index)))
                || (Legal(layout, id) && LeavesPart(old(OnDisk()), old(Chunks()), id, value, left, writeFails))
    {
      left := value;
      var ok := ValidateChunkId(id);
      if !ok { return Failed(InvalidChunkId), left; }
      var pathOk, path := PathForChunk(id);
      var existingSize := ExistingSize(id, path);
      var newSize := |value| as uint64;
      SizeBelowTotal(Chunks(), id);
      var room := HasRoom(newSize, existingSize);
      if !room { return Failed(InsufficientSpace), left; }
      var n, made := |value|, true;
      if writeFails {
        made := *;
        n :| 0 <= n <= |value|;
      }
      if !made { return Failed(IoError), left; }
      left := value[..n];
      r := Store(id, path, value[..n], existingSize, writeFails || putFails);
      assert value[..|value|] == value;
    }

    /** Writes a file that fits and, unless something has failed or fails now, records its checksum and charges its
        size. */
    method Store(id: string, path: string, data: Bytes, existingSize: uint64, fails: bool) returns (r: Status)
      requires Valid() && Legal(layout, id) && path == PathOf(layout, id) && |data| < MAX_LENGTH
      requires existingSize as int == SizeIn(Chunks(), id) && (fails || RoomFor(Chunks(), id, |data|))
      modifies this`files, this`index, this`usedSpace
      ensures r == if fails then Failed(IoError) else Done
      ensures !fails ==> Valid() && OnDisk() == Written(layout, old(OnDisk()), id, data, hash)
      ensures fails ==> OnDisk() == Overwritten(layout, old(OnDisk()), id, data)
                        && HalfCommitted(old(Chunks()), old(index), id, data)
    {
      SizeBelowTotal(Chunks(), id);
      files := files[path := data];
      if fails {
        AfterOverwrite(layout, old(OnDisk()), id, data, hash);
        StoredAfterFile(layout, old(OnDisk()), id, data);
        return Failed(IoError);
      }
      index := index[id := hash(data)];
      AfterWrite(layout, old(OnDisk()), id, data, hash);
      Charge(|data| as uint64, existingSize);
      return Done;
    }

    /** The chunk's file holds `left`: the value, or, after a failed write, a first part of it. */
    ghost predicate LeavesPart(before: Disk, chunks: map<string, Bytes>, id: string, value: Bytes, left: Bytes,
                               writeFails: bool)
      requires Legal(layout, id)
      reads this
    {
      && left <= value && (left == value || writeFails)
      && OnDisk() == Overwritten(layout, before, id, left) && HalfCommitted(chunks, before.index, id, left)
    }

    /** Gives space back, down to zero at most. */
    method Release(size: uint64)
      modifies this`usedSpace
      ensures usedSpace as int == if old(usedSpace) >= size then old(usedSpace) as int - size as int else 0
    {
      if usedSpace >= size {
        usedSpace := usedSpace - size;
      } else {
        usedSpace := 0;
      }
    }

    /** Removes a chunk. The accounting stays exact even when the index entry cannot be removed, and the used
        space never runs below the size of the file removed. */
    method Delete(id: string, removeFails: bool, indexRemovalFails: bool) returns (r: Status)
      requires Valid()
      modifies this`files, this`index, this`usedSpace
      ensures Valid()
      ensures r.Done? <==> id in old(Chunks()) && !removeFails
      ensures !Legal(layout, id) ==> r == Failed(InvalidChunkId)
      ensures Legal(layout, id) && id !in old(Chunks()) ==> r == Failed(MissingChunk)
      ensures !r.Done? ==> OnDisk() == old(OnDisk())
      ensures r.Done? ==>
                OnDisk() == Removed(layout, old(OnDisk()), id, indexRemovalFails) && Chunks() == old(Chunks()) - {id}
    {
      var ok := ValidateChunkId(id);
      if !ok { return Failed(InvalidChunkId); }
      var known := Exists(id);
      if !known { return Failed(MissingChunk); }
      var pathOk, path := PathForChunk(id);
      if path !in files { return Failed(MissingChunk); }
      if removeFails { return Failed(IoError); }
      Remove(id, path, indexRemovalFails);
      return Done;
    }

    /** Removes the file of a chunk and, unless that fails, its index entry. */
    method Remove(id: string, path: string, indexRemovalFails: bool)
      requires Valid() && Legal(layout, id) && id in index && path == PathOf(layout, id) && path in files
      modifies this`files, this`index, this`usedSpace
      ensures Valid() && OnDisk() == Removed(layout, old(OnDisk()), id, indexRemovalFails)
      ensures Chunks() == old(Chunks()) - {id}
    {
      ghost var d := OnDisk();
      AfterRemoval(layout, d, id, indexRemovalFails, hash);
      var fileSize := |files[path]| as uint64;
      assert fileSize <= usedSpace; // so the clamp in `Release` is never taken
      files, index := files - {path}, if indexRemovalFails then index else index - {id};
      assert OnDisk() == Removed(layout, d, id, indexRemovalFails);
      Release(fileSize);
    }

    method Read(id: string) returns (r: Fetched)
      ensures r == if id in Chunks() then Data(Chunks()[id])
                   else NoData(if id in index && Legal(layout, id) then IoError else MissingChunk)
    {
      var known := Exists(id);
      if !known { return NoData(MissingChunk); }
      var pathOk, path := PathForChunk(id);
      if path !in files { return NoData(IoError); }
      return Data(files[path]);
    }

    /** Recomputes a chunk's checksum: it finds a mismatch exactly where the store is unsound. */
    method Verify(id: string) returns (r: Fetched)
      ensures r.Data? <==> id in Chunks() && hash(Chunks()[id]) == index[id]
      ensures r.Data? ==> r.data == index[id]
      ensures r == NoData(VerifyFailed) <==> id in Chunks() && hash(Chunks()[id]) != index[id]
      ensures r == NoData(InvalidChunkId) <==> !Legal(layout, id)
      ensures r == NoData(MissingChunk) <==> Legal(layout, id) && id !in index
      ensures Sound(layout, OnDisk(), hash) ==> r != NoData(VerifyFailed)
    {
      var ok := ValidateChunkId(id);
      if !ok { return NoData(InvalidChunkId); }
      if id !in index { return NoData(MissingChunk); }
      var data := Read(id);
      if data.NoData? { return data; }
      if hash(data.data) != index[id] { return NoData(VerifyFailed); }
      return Data(index[id]);
    }

    method FreeSpace() returns (free: uint64)
      ensures Accounted() ==> free as int == totalSpace as int - Total(Chunks())
      ensures usedSpace > totalSpace ==> free == 0
    {
      if usedSpace > totalSpace { return 0; }
      return totalSpace - usedSpace;
    }

    method TempDir(id: string) returns (ok: bool, path: string)
      ensures ok == Legal(layout, id)
      ensures ok ==> path == TempPath(layout.tempDir, id)
    {
      ok := ValidateChunkId(id);
      path := if ok then layout.tempDir + "/" + id + "." + ".tmp" else "";
    }
  }

  lemma AfterOverwrite(layout: Layout, d: Disk, id: string, data: Bytes, hash: Bytes -> Bytes)
    requires Legal(layout, id) && Sound(layout, d, hash)
    ensures var m := Overwritten(layout, d, id, data);
            && (Total(Stored(layout, m)) == Total(Stored(layout, d)) <==>
                  id !in d.index || SizeIn(Stored(layout, d), id) == |data|)
            && (Sound(layout, m, hash) <==> id !in d.index || d.index[id] == hash(data))
  {
    var m := Overwritten(layout, d, id, data);
    StoredAfterFile(layout, d, id, data);
    TotalWith(Stored(layout, d), id, data);
    if id in d.index {
      assert id in Stored(layout, m) && Stored(layout, m)[id] == data;
    }
  }

  lemma StoredAfterWrite(layout: Layout, d: Disk, id: string, data: Bytes, hash: Bytes -> Bytes)
    requires Legal(layout, id)
    ensures Stored(layout, Written(layout, d, id, data, hash)) == Stored(layout, d)[id := data]
  {
    StoredAfterFile(layout, d, id, data);
    StoredAfterIndex(layout, Overwritten(layout, d, id, data), id, hash(data));
  }

  lemma AfterWrite(layout: Layout, d: Disk, id: string, data: Bytes, hash: Bytes -> Bytes)
    requires Legal(layout, id) && Sound(layout, d, hash)
    ensures var w := Written(layout, d, id, data, hash);
            && Sound(layout, w, hash) && Stored(layout, w) == Stored(layout, d)[id := data]
            && Total(Stored(layout, w)) == TotalIf(Stored(layout, d), id, |data|)
  {
    StoredAfterWrite(layout, d, id, data, hash);
    TotalWith(Stored(layout, d), id, data);
  }

  /** After the move alone the total and the checksums are right exactly when nothing indexed changed them. */
  lemma AfterMove(layout: Layout, d: Disk, source: string, id: string, hash: Bytes -> Bytes)
    requires Legal(layout, id) && source in d.files && IsNoChunkPath(layout, source) && Sound(layout, d, hash)
    ensures var m := Moved(layout, d, source, id);
            && (Total(Stored(layout, m)) == Total(Stored(layout, d)) <==>
                  id !in d.index || SizeIn(Stored(layout, d), id) == |d.files[source]|)
            && (Sound(layout, m, hash) <==> id !in d.index || d.index[id] == hash(d.files[source]))
  {
    var m := Moved(layout, d, source, id);
    StoredAfterMove(layout, d, source, id);
    TotalWith(Stored(layout, d), id, d.files[source]);
    if id in d.index {
      assert id in Stored(layout, m) && Stored(layout, m)[id] == d.files[source];
    }
  }

  lemma AfterCommit(layout: Layout, d: Disk, source: string, id: string, hash: Bytes -> Bytes)
    requires Legal(layout, id) && source in d.files && IsNoChunkPath(layout, source) && Sound(layout, d, hash)
    ensures var r := Recorded(layout, d, source, id, hash);
            && Stored(layout, r) == Stored(layout, d)[id := d.files[source]] && Sound(layout, r, hash)
            && Total(Stored(layout, r)) == TotalIf(Stored(layout, d), id, |d.files[source]|)
  {
    StoredAfterCommit(layout, d, source, id, hash);
    TotalWith(Stored(layout, d), id, d.files[source]);
  }
}
