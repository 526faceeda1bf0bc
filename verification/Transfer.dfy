/** Uploading a file and downloading it again, against a metadata service that keeps serving others. */
module Transfer {
  import opened Records
  import opened Seqs
  import opened Metadata
  import opened Structure
  import opened Effects
  import opened MetadataFsm
  import opened Doubles
  import opened Chunker
  import opened Uploads
  import FileCreation

  /** What else the metadata service is asked to do meanwhile. */
  method Meanwhile(fsm: MetadataFSM, commands: seq<Command>)
    requires fsm.Valid()
    modifies fsm
    ensures fsm.Valid() && Evolves(old(fsm.View()), fsm.View())
  {
    EvolvesReflexive(fsm.View());
    for i := 0 to |commands|
      invariant fsm.Valid() && Evolves(old(fsm.View()), fsm.View())
    {
      ghost var before := fsm.View();
      var outcome;
      ghost var picks;
      outcome, picks := fsm.Apply(commands[i]);
      EvolvesTransitive(old(fsm.View()), before, fsm.View());
    }
  }

  lemma EvolvesReflexive(s: State)
    ensures Evolves(s, s)
  {}

  // ----- Uploading -----

  /** The outside world during an upload: other commands, and which chunk uploads fail at the storage nodes. */
  datatype World = World(others: nat -> seq<Command>, putFails: nat -> bool, confirmed: nat -> seq<string>)

  /** One chunk: the storage node keeps it and reports it to the metadata service with the checksum of the slice. */
  method UploadChunk(fsm: MetadataFSM, f: Source, d: Descriptor, w: World, ghost rest: set<nat>) returns (ok: bool)
    requires fsm.Valid() && Proper(f) && Created(fsm.View(), f) && d.chunkIndex in rest && d.chunkIndex < Count(f)
    requires Offset(d.chunkIndex, f.chunkSize) < |f.data|
    requires d == DescriptorAt(f.digest, f.fileID, |f.data|, f.chunkSize, d.chunkIndex)
    requires CommittedExcept(fsm.View(), f, rest)
    modifies fsm
    ensures fsm.Valid() && Created(fsm.View(), f)
    ensures CommittedExcept(fsm.View(), f, if ok then rest - {d.chunkIndex} else rest)
  {
    ghost var start := fsm.View();
    Meanwhile(fsm, w.others(d.chunkIndex));
    ProgressStays(start, fsm.View(), f, rest);
    if w.putFails(d.chunkIndex) { return false; }
    var buffer := ReadSlice(f, d);
    ok := CommitSlice(fsm, f, d, f.hash(buffer), w.confirmed(d.chunkIndex), rest);
  }

  method ReadSlice(f: Source, d: Descriptor) returns (buffer: Bytes)
    requires Offset(d.chunkIndex, f.chunkSize) < |f.data|
    requires d == DescriptorAt(f.digest, f.fileID, |f.data|, f.chunkSize, d.chunkIndex)
    ensures buffer == Slice(f, d.chunkIndex) && d.chunkID == IdOf(f, d.chunkIndex)
  {
    buffer := f.data[d.offset..d.offset + d.size];
  }

  lemma ProgressStays(s: State, t: State, f: Source, rest: set<nat>)
    requires f.chunkSize >= 1 && Created(s, f) && CommittedExcept(s, f, rest) && Evolves(s, t)
    ensures Created(t, f) && CommittedExcept(t, f, rest)
  {
    CreatedStays(s, t, f);
    CommittedStays(s, t, f, rest);
  }

  method CommitSlice(fsm: MetadataFSM, f: Source, d: Descriptor, sum: Bytes, nodeIDs: seq<string>,
                     ghost rest: set<nat>) returns (ok: bool)
    requires fsm.Valid() && Proper(f) && Created(fsm.View(), f) && d.chunkIndex in rest && d.chunkIndex < Count(f)
    requires Offset(d.chunkIndex, f.chunkSize) < |f.data| && d.chunkID == IdOf(f, d.chunkIndex)
    requires sum == f.hash(Slice(f, d.chunkIndex))
    requires CommittedExcept(fsm.View(), f, rest)
    modifies fsm
    ensures fsm.Valid() && Created(fsm.View(), f)
    ensures CommittedExcept(fsm.View(), f, if ok then rest - {d.chunkIndex} else rest)
  {
    ghost var before := fsm.View();
    var outcome;
    ghost var picks;
    outcome, picks := fsm.Apply(CommitChunk(d.chunkID, nodeIDs, sum));
    ProgressStays(before, fsm.View(), f, rest);
    ok := outcome.Accepted?;
    if ok {
      CommitRecords(before, d.chunkID, nodeIDs, sum, picks);
      OneMoreCommitted(fsm.View(), f, rest, d.chunkIndex);
    }
  }

  function Below(n: nat): (s: set<nat>)
    ensures forall i: nat :: i in s <==> i < n
  {
    if n == 0 then {} else Below(n - 1) + {n - 1}
  }

  /** The chunks go out in any order. */
  method UploadChunks(fsm: MetadataFSM, f: Source, ds: seq<Descriptor>, w: World) returns (failed: nat)
    requires fsm.Valid() && Proper(f) && Created(fsm.View(), f) && Tiles(ds, f.digest, f.fileID, |f.data|, f.chunkSize)
    modifies fsm
    ensures fsm.Valid() && Created(fsm.View(), f)
    ensures failed == 0 ==> CommittedExcept(fsm.View(), f, {})
  {
    var rest := Below(|ds|);
    ghost var left := rest;
    failed := 0;
    while rest != {}
      invariant rest <= left && (forall i :: i in left ==> 0 <= i < |ds|)
      invariant fsm.Valid() && Created(fsm.View(), f) && CommittedExcept(fsm.View(), f, left)
      invariant failed == 0 ==> left == rest
    {
      var i :| i in rest;
      assert ds[i] == DescriptorAt(f.digest, f.fileID, |f.data|, f.chunkSize, i);
      var ok := UploadChunk(fsm, f, ds[i], w, left);
      if ok { left := left - {i}; } else { failed := failed + 1; }
      rest := rest - {i};
    }
  }

  /** A whole upload. When it succeeds, the metadata records the file and the hash of every chunk of it. */
  method Upload(fsm: MetadataFSM, f: Source, name: string, rf: nat, w: World, now: Time,
                quotient: real, ghost x: real, ghost y: real) returns (ok: bool)
    requires fsm.Valid() && 1 <= f.chunkSize < PRECISION && |f.data| < PRECISION
    requires IsQuotient(quotient, x, y, |f.data|, f.chunkSize)
    requires Injective(f.digest) && forall b :: |f.hash(b)| > 0
    modifies fsm
    ensures fsm.Valid()
    ensures ok ==> f.data != [] && Proper(f) && Uploaded(fsm.View(), f) && fsm.files[f.fileID].status == FileComplete
  {
    var ds := GenerateDescriptors(|f.data|, f.chunkSize, f.fileID, f.digest, quotient, x, y);
    ok := UploadDescribed(fsm, f, name, ds, rf, w, now);
  }

  method UploadDescribed(fsm: MetadataFSM, f: Source, name: string, ds: seq<Descriptor>, rf: nat, w: World,
                         now: Time) returns (ok: bool)
    requires fsm.Valid() && f.chunkSize >= 1 && |f.data| < PRECISION
    requires Tiles(ds, f.digest, f.fileID, |f.data|, f.chunkSize)
    requires Injective(f.digest) && forall b :: |f.hash(b)| > 0
    modifies fsm
    ensures fsm.Valid()
    ensures ok ==> f.data != [] && Proper(f) && Uploaded(fsm.View(), f) && fsm.files[f.fileID].status == FileComplete
  {
    if |ds| == 0 { return false; }
    assert Offset(0, f.chunkSize) < |f.data|;
    var plan;
    ok, plan := FileCreation.CreateFile(fsm, f, name, rf, now);
    if !ok { return false; }
    var failed := UploadChunks(fsm, f, ds, w);
    if failed > 0 { return false; }
    ok := FinishUpload(fsm, f, w.others(|ds|));
  }

  method FinishUpload(fsm: MetadataFSM, f: Source, others: seq<Command>) returns (ok: bool)
    requires fsm.Valid() && Uploaded(fsm.View(), f)
    modifies fsm
    ensures fsm.Valid() && Uploaded(fsm.View(), f) && (ok ==> fsm.files[f.fileID].status == FileComplete)
  {
    ghost var before := fsm.View();
    Meanwhile(fsm, others);
    UploadedStays(before, fsm.View(), f);
    before := fsm.View();
    var outcome := fsm.Propose(CommitFile(f.fileID, |f.data|, []));
    UploadedStays(before, fsm.View(), f);
    ok := outcome.Accepted?;
  }

  // ----- Downloading -----

  /** A chunk as the metadata server describes it; the index travels as a signed 32-bit number. */
  datatype ChunkInfo = ChunkInfo(chunkID: string, chunkIndex: int, checksum: Bytes, replicas: seq<string>)

  /** Truncation to 32 bits, read as a signed number. */
  function Int32(n: int): (r: int)
    ensures -0x8000_0000 <= r < 0x8000_0000 && (n - r) % 0x1_0000_0000 == 0
  {
    (n + 0x8000_0000) % 0x1_0000_0000 - 0x8000_0000
  }

  predicate IsServing(nodes: map<string, NodeEntry>, r: string) {
    r in nodes && nodes[r].status !in {NodeDead, NodeDraining} && nodes[r].address != ""
  }

  /** The addresses of the replicas that are neither dead nor draining. */
  function AddressesOf(nodes: map<string, NodeEntry>, replicas: seq<string>): seq<string> {
    if |replicas| == 0 then []
    else
      var last := replicas[|replicas| - 1];
      AddressesOf(nodes, replicas[..|replicas| - 1]) + if IsServing(nodes, last) then [nodes[last].address] else []
  }

  /** A registered node that is neither dead nor draining and has an address. */
  ghost predicate Offers(nodes: map<string, NodeEntry>, r: string) {
    && r in nodes && nodes[r].address != ""
    && nodes[r].status != NodeDead && nodes[r].status != NodeDraining
  }

  /** `addrs` are the addresses of the nodes at the positions `at` of the list: of exactly those that offer. */
  ghost predicate ServedAt(nodes: map<string, NodeEntry>, replicas: seq<string>, addrs: seq<string>, at: seq<nat>) {
    && Increasing(at, |replicas|) && |at| == |addrs|
    && (forall k :: 0 <= k < |at| ==> replicas[at[k]] in nodes && addrs[k] == nodes[replicas[at[k]]].address)
    && forall i :: 0 <= i < |replicas| ==> (i in at <==> Offers(nodes, replicas[i]))
  }

  /** Exactly the addresses of such replicas, one for each, in the order of the list. */
  ghost predicate ListsServing(nodes: map<string, NodeEntry>, replicas: seq<string>, addrs: seq<string>) {
    && (exists at :: ServedAt(nodes, replicas, addrs, at))
    && forall a :: a in addrs <==> exists r :: r in replicas && Offers(nodes, r) && nodes[r].address == a
  }

  lemma ServedNext(nodes: map<string, NodeEntry>, replicas: seq<string>, addrs: seq<string>, at: seq<nat>, x: string)
    requires ServedAt(nodes, replicas, addrs, at)
    ensures if Offers(nodes, x)
            then ServedAt(nodes, replicas + [x], addrs + [nodes[x].address], at + [|replicas|])
            else ServedAt(nodes, replicas + [x], addrs, at)
  {
    if !Offers(nodes, x) { assert |replicas| !in at; }
  }

  lemma {:induction false} AddressesAt(nodes: map<string, NodeEntry>, replicas: seq<string>) returns (at: seq<nat>)
    ensures ServedAt(nodes, replicas, AddressesOf(nodes, replicas), at)
  {
    at := [];
    if |replicas| > 0 {
      var n := |replicas| - 1;
      at := AddressesAt(nodes, replicas[..n]);
      ServedNext(nodes, replicas[..n], AddressesOf(nodes, replicas[..n]), at, replicas[n]);
      assert replicas == replicas[..n] + [replicas[n]];
      assert AddressesOf(nodes, replicas[..n]) + [] == AddressesOf(nodes, replicas[..n]);
      if Offers(nodes, replicas[n]) { at := at + [n]; }
    }
  }

  lemma AddressesExact(nodes: map<string, NodeEntry>, replicas: seq<string>)
    ensures ListsServing(nodes, replicas, AddressesOf(nodes, replicas))
  {
    var at := AddressesAt(nodes, replicas);
    var addrs := AddressesOf(nodes, replicas);
    forall a | a in addrs ensures exists r :: r in replicas && Offers(nodes, r) && nodes[r].address == a {
      var k :| 0 <= k < |addrs| && addrs[k] == a;
      assert at[k] in at && replicas[at[k]] in replicas;
    }
    forall r | r in replicas && Offers(nodes, r) ensures nodes[r].address in addrs {
      var i :| 0 <= i < |replicas| && replicas[i] == r;
      var k :| 0 <= k < |at| && at[k] == i;
      assert addrs[k] == nodes[r].address;
    }
  }

  function InfoOf(s: State, id: string): ChunkInfo
    requires id in s.chunks
  {
    var c := s.chunks[id];
    ChunkInfo(c.chunkID, Int32(c.chunkIndex), c.checksum, AddressesOf(s.nodes, c.replicas))
  }

  ghost predicate Describes(s: State, info: ChunkInfo, id: string) {
    id in s.chunks && info.chunkID == id && info == InfoOf(s, id)
  }

  method Addresses(fsm: MetadataFSM, replicas: seq<string>) returns (addrs: seq<string>)
    ensures addrs == AddressesOf(fsm.nodes, replicas)
  {
    addrs := [];
    for i := 0 to |replicas|
      invariant addrs == AddressesOf(fsm.nodes, replicas[..i])
    {
      assert replicas[..i + 1][..i] == replicas[..i];
      var r := replicas[i];
      if r in fsm.nodes && fsm.nodes[r].status !in {NodeDead, NodeDraining} && fsm.nodes[r].address != "" {
        addrs := addrs + [fsm.nodes[r].address];
      }
    }
    TakeAll(replicas);
  }

  /** The metadata server's answer to a get request: only complete files are available. */
  method GetFile(fsm: MetadataFSM, fileID: string) returns (ok: bool, infos: seq<ChunkInfo>)
    requires fsm.Valid()
    ensures ok <==> fileID in fsm.files && fsm.files[fileID].status == FileComplete
    ensures ok ==> && |infos| == |fsm.files[fileID].chunkIDs|
                   && forall i :: 0 <= i < |infos| ==> Describes(fsm.View(), infos[i], fsm.files[fileID].chunkIDs[i])
    ensures ok ==> forall i :: 0 <= i < |infos| ==>
              var c := fsm.chunks[fsm.files[fileID].chunkIDs[i]];
              && infos[i].chunkIndex == Int32(c.chunkIndex) && infos[i].checksum == c.checksum
              && ListsServing(fsm.nodes, c.replicas, infos[i].replicas)
  {
    infos := [];
    if fileID !in fsm.files || fsm.files[fileID].status != FileComplete { return false, []; }
    var ids := fsm.files[fileID].chunkIDs;
    assert FileOk(fsm.chunks, fileID, fsm.files[fileID]);
    for i := 0 to |ids|
      invariant |infos| == i && forall k :: 0 <= k < i ==> Describes(fsm.View(), infos[k], ids[k])
      invariant forall k :: 0 <= k < i ==> ListsServing(fsm.nodes, fsm.chunks[ids[k]].replicas, infos[k].replicas)
    {
      var chunk := fsm.chunks[ids[i]];
      assert ChunkOk(fsm.files, ids[i], chunk);
      var addrs := Addresses(fsm, chunk.replicas);
      AddressesExact(fsm.nodes, chunk.replicas);
      infos := infos + [ChunkInfo(chunk.chunkID, Int32(chunk.chunkIndex), chunk.checksum, addrs)];
    }
    ok := true;
  }

  datatype Reply = Failure | Contents(data: Bytes)

  function Zeros(n: nat): (z: Bytes)
    ensures |z| == n
  {
    if n == 0 then [] else Zeros(n - 1) + [0]
  }

  /** Writing into a file at an offset; a gap is filled with zeros. */
  function WriteAt(file: Bytes, data: Bytes, offset: nat): Bytes {
    if |file| < offset then file + Zeros(offset - |file|) + data
    else if |file| < offset + |data| then file[..offset] + data
    else file[..offset] + data + file[offset + |data|..]
  }

  /** Contents that have the recorded checksum, if one is recorded. */
  ghost predicate IsGood(reply: Reply, checksum: Bytes, hash: Bytes -> Bytes) {
    reply.Contents? && (checksum == [] || hash(reply.data) == checksum)
  }

  /** Some replica answers with the right checksum, and the index survived as a position in the file. */
  ghost predicate Fetchable(info: ChunkInfo, chunkSize: nat, answer: (string, string) -> Reply, hash: Bytes -> Bytes) {
    && info.chunkIndex * chunkSize >= 0
    && exists k :: 0 <= k < |info.replicas| && IsGood(answer(info.replicas[k], info.chunkID), info.checksum, hash)
  }

  /** A fetched chunk: contents with the recorded checksum, written where its index says. */
  ghost predicate Fetched(info: ChunkInfo, chunkSize: nat, hash: Bytes -> Bytes, out: Bytes, out': Bytes, got: Bytes) {
    && info.chunkIndex * chunkSize >= 0 && out' == WriteAt(out, got, info.chunkIndex * chunkSize)
    && (info.checksum != [] ==> hash(got) == info.checksum)
  }

  /** Tries the replicas in order. On success the output changed by contents with the right checksum, written
      where the index says; otherwise it did not change. */
  method DownloadChunkWithFailover(out: Bytes, info: ChunkInfo, chunkSize: nat, answer: (string, string) -> Reply,
                                   hash: Bytes -> Bytes)
    returns (ok: bool, out': Bytes, ghost got: Bytes)
    ensures ok <==> Fetchable(info, chunkSize, answer, hash)
    ensures !ok ==> out' == out
    ensures ok ==> Fetched(info, chunkSize, hash, out, out', got)
  {
    got := [];
    for i := 0 to |info.replicas|
      invariant forall k :: 0 <= k < i ==> !IsGood(answer(info.replicas[k], info.chunkID), info.checksum, hash)
    {
      var reply := answer(info.replicas[i], info.chunkID);
      if reply.Failure? { continue; }
      if |info.checksum| > 0 && hash(reply.data) != info.checksum { continue; }
      var offset := info.chunkIndex * chunkSize;
      if offset < 0 { return false, out, []; }
      return true, WriteAt(out, reply.data, offset), reply.data;
    }
    return false, out, [];
  }

  // ----- Reassembly -----

  /** Of the first `n` chunks, those outside `rest` are in place. */
  ghost predicate Assembled(out: Bytes, f: Source, n: nat, rest: set<nat>) {
    && |out| == |f.data|
    && forall i, p :: 0 <= i < n && i !in rest && InChunk(f, i, p) ==> out[p] == f.data[p]
  }

  ghost predicate InChunk(f: Source, i: nat, p: int) {
    && Offset(i, f.chunkSize) < |f.data|
    && Offset(i, f.chunkSize) <= p < Offset(i, f.chunkSize) + Least(f.chunkSize, |f.data| - Offset(i, f.chunkSize))
  }

  /** The data is where it was written, what was there before stays elsewhere, and a gap holds zeros. */
  lemma WriteAtExact(out: Bytes, data: Bytes, offset: nat)
    ensures |WriteAt(out, data, offset)| == if |out| < offset + |data| then offset + |data| else |out|
    ensures forall p :: 0 <= p < |WriteAt(out, data, offset)| ==>
              WriteAt(out, data, offset)[p] ==
              if offset <= p < offset + |data| then data[p - offset] else if p < |out| then out[p] else 0
  {
    if |out| < offset { ZerosAreZero(offset - |out|); }
  }

  lemma WriteInside(out: Bytes, data: Bytes, offset: nat)
    requires offset + |data| <= |out|
    ensures |WriteAt(out, data, offset)| == |out|
    ensures forall p :: 0 <= p < |out| ==>
              WriteAt(out, data, offset)[p] == if offset <= p < offset + |data| then data[p - offset] else out[p]
  {}

  lemma {:induction false} ZerosAreZero(n: nat)
    ensures forall p :: 0 <= p < n ==> Zeros(n)[p] == 0
  {
    if n > 0 { ZerosAreZero(n - 1); }
  }

  /** Writing a slice at its offset puts its chunk in place and spoils none. */
  lemma SliceInPlace(out: Bytes, f: Source, n: nat, rest: set<nat>, i: nat)
    requires Assembled(out, f, n, rest) && Offset(i, f.chunkSize) < |f.data|
    ensures Assembled(WriteAt(out, Slice(f, i), Offset(i, f.chunkSize)), f, n, rest - {i})
  {
    var start, slice := Offset(i, f.chunkSize), Slice(f, i);
    var out' := WriteAt(out, slice, start);
    WriteInside(out, slice, start);
    forall k, p | 0 <= k < n && k !in rest - {i} && InChunk(f, k, p) ensures out'[p] == f.data[p] {
      PositionRight(out, out', f, n, rest, i, k, p);
    }
  }

  lemma PositionRight(out: Bytes, out': Bytes, f: Source, n: nat, rest: set<nat>, i: nat, k: nat, p: nat)
    requires Assembled(out, f, n, rest) && |out'| == |out| && k < n && k !in rest - {i} && InChunk(f, k, p)
    requires Offset(i, f.chunkSize) < |f.data|
    requires out'[p] == if InChunk(f, i, p) then Slice(f, i)[p - Offset(i, f.chunkSize)] else out[p]
    ensures out'[p] == f.data[p]
  {}

  /** Once every chunk is in place the output is the file. */
  lemma AllInPlace(out: Bytes, f: Source)
    requires f.chunkSize >= 1 && Assembled(out, f, Count(f), {})
    ensures out == f.data
  {
    forall p | 0 <= p < |out| ensures out[p] == f.data[p] {
      BlockOf(|f.data|, f.chunkSize, p, p / f.chunkSize);
      assert InChunk(f, p / f.chunkSize, p);
    }
  }

  ghost predicate CollisionFree(hash: Bytes -> Bytes) {
    forall x, y :: hash(x) == hash(y) ==> x == y
  }

  lemma SmallIndexExact(i: nat)
    ensures i < 0x8000_0000 ==> Int32(i) == i
    ensures Int32(0x8000_0000) < 0
  {}

  /** A fetched chunk is in place when its index survived the transit. */
  lemma ChunkInPlace(s: State, f: Source, info: ChunkInfo, i: nat, out: Bytes, out': Bytes, got: Bytes, rest: set<nat>)
    requires Uploaded(s, f) && CollisionFree(f.hash) && i < Count(f) && i < 0x8000_0000
    requires Describes(s, info, IdOf(f, i))
    requires Fetched(info, f.chunkSize, f.hash, out, out', got) && Assembled(out, f, Count(f), rest)
    ensures Assembled(out', f, Count(f), rest - {i})
  {
    SmallIndexExact(i);
    OffsetIsProduct(i, f.chunkSize);
    assert HasChecksum(s, IdOf(f, i), f.hash(Slice(f, i)));
    assert got == Slice(f, i);
    SliceInPlace(out, f, Count(f), rest, i);
  }

  // ----- The download -----

  /** Chunks so far fetched all had a non-negative index in transit, and if all indices fit they are in place. */
  ghost predicate Progress(s: State, f: Source, out: Bytes, rest: set<nat>) {
    && f.chunkSize >= 1
    && (forall i :: 0 <= i < Count(f) && i !in rest ==> Int32(i) >= 0)
    && (Count(f) <= 0x8000_0000 ==> Assembled(out, f, Count(f), rest))
  }

  lemma ProgressStep(s: State, f: Source, info: ChunkInfo, i: nat, out: Bytes, out': Bytes, got: Bytes, rest: set<nat>)
    requires Uploaded(s, f) && CollisionFree(f.hash) && i < Count(f) && Describes(s, info, IdOf(f, i))
    requires Fetched(info, f.chunkSize, f.hash, out, out', got) && Progress(s, f, out, rest)
    ensures Progress(s, f, out', rest - {i})
  {
    NonNegativeFactor(info.chunkIndex, f.chunkSize);
    if Count(f) <= 0x8000_0000 { ChunkInPlace(s, f, info, i, out, out', got, rest); }
  }

  lemma NonNegativeFactor(x: int, y: nat)
    requires x * y >= 0 && y >= 1
    ensures x >= 0
  {}

  /** A file with so many chunks that an index turns negative cannot be downloaded at all. */
  lemma AllFetched(s: State, f: Source, out: Bytes)
    requires Progress(s, f, out, {})
    ensures out == f.data
  {
    SmallIndexExact(0);
    assert Count(f) > 0x8000_0000 ==> Int32(0x8000_0000) >= 0;
    AllInPlace(out, f);
  }

  /** Fetches the chunks in any order; `f` is any upload that the metadata still holds. */
  method FetchChunks(infos: seq<ChunkInfo>, chunkSize: nat, fileSize: nat, answer: (string, string) -> Reply,
                     hash: Bytes -> Bytes,
                     ghost s: State, ghost f: Source) returns (ok: bool, out: Bytes)
    requires Matches(s, f, infos, chunkSize, fileSize, hash)
    ensures ok <==> forall i :: 0 <= i < |infos| ==> Fetchable(infos[i], chunkSize, answer, hash)
    ensures ok && Uploaded(s, f) && CollisionFree(hash) ==> out == f.data
  {
    out := Zeros(fileSize);
    ok := true;
    var rest := Below(|infos|);
    ghost var n := |infos|;
    NothingFetched(s, f, infos, chunkSize, fileSize, hash, out, rest);
    while rest != {}
      invariant forall i :: i in rest ==> 0 <= i < n
      invariant ok <==> forall i :: 0 <= i < n && i !in rest ==> Fetchable(infos[i], chunkSize, answer, hash)
      invariant ok && Uploaded(s, f) && CollisionFree(hash) ==> Progress(s, f, out, rest)
    {
      var i :| i in rest;
      var fetched, next;
      ghost var got;
      fetched, next, got := DownloadChunkWithFailover(out, infos[i], chunkSize, answer, hash);
      if fetched && Uploaded(s, f) && CollisionFree(hash) && ok {
        ProgressStep(s, f, infos[i], i, out, next, got, rest);
      }
      ok := ok && fetched;
      out := next;
      rest := rest - {i};
    }
    if ok && Uploaded(s, f) && CollisionFree(hash) { AllFetched(s, f, out); }
  }

  /** The descriptions belong to the file if it was uploaded. */
  ghost predicate Matches(s: State, f: Source, infos: seq<ChunkInfo>, chunkSize: nat, fileSize: nat,
                          hash: Bytes -> Bytes) {
    Uploaded(s, f) ==>
      && f.hash == hash && chunkSize == f.chunkSize && fileSize == |f.data| && |infos| == Count(f)
      && forall i :: 0 <= i < |infos| ==> Describes(s, infos[i], IdOf(f, i))
  }

  lemma NothingFetched(s: State, f: Source, infos: seq<ChunkInfo>, chunkSize: nat, fileSize: nat,
                       hash: Bytes -> Bytes, out: Bytes, rest: set<nat>)
    requires Matches(s, f, infos, chunkSize, fileSize, hash) && |out| == fileSize && rest == Below(|infos|)
    ensures Uploaded(s, f) ==> Progress(s, f, out, rest)
  {}

  /** The file is complete and non-empty, and each of its chunks can be fetched. */
  ghost predicate Downloadable(s: State, fileID: string, answer: (string, string) -> Reply, hash: Bytes -> Bytes) {
    && fileID in s.files && s.files[fileID].status == FileComplete
    && var file := s.files[fileID];
       && file.chunkIDs != []
       && forall i :: 0 <= i < |file.chunkIDs| ==>
            && file.chunkIDs[i] in s.chunks
            && Int32(s.chunks[file.chunkIDs[i]].chunkIndex) * file.chunkSize >= 0
            && Answered(s.nodes, s.chunks[file.chunkIDs[i]], answer, hash)
  }

  /** Some replica that offers gives a good answer. */
  ghost predicate Answered(nodes: map<string, NodeEntry>, c: ChunkRecord, answer: (string, string) -> Reply,
                           hash: Bytes -> Bytes)
  {
    exists r :: r in c.replicas && Offers(nodes, r) && IsGood(answer(nodes[r].address, c.chunkID), c.checksum, hash)
  }

  lemma GoodIff(nodes: map<string, NodeEntry>, c: ChunkRecord, addrs: seq<string>, answer: (string, string) -> Reply,
                hash: Bytes -> Bytes)
    requires ListsServing(nodes, c.replicas, addrs)
    ensures (exists k :: 0 <= k < |addrs| && IsGood(answer(addrs[k], c.chunkID), c.checksum, hash)) <==>
              Answered(nodes, c, answer, hash)
  {
    if k :| 0 <= k < |addrs| && IsGood(answer(addrs[k], c.chunkID), c.checksum, hash) {
      assert addrs[k] in addrs;
    }
    if r :| r in c.replicas && Offers(nodes, r) && IsGood(answer(nodes[r].address, c.chunkID), c.checksum, hash) {
      assert nodes[r].address in addrs;
    }
  }

  lemma FetchableIff(s: State, id: string, chunkSize: nat, answer: (string, string) -> Reply, hash: Bytes -> Bytes)
    requires id in s.chunks
    ensures Fetchable(InfoOf(s, id), chunkSize, answer, hash) <==>
              Int32(s.chunks[id].chunkIndex) * chunkSize >= 0 && Answered(s.nodes, s.chunks[id], answer, hash)
  {
    var c, info := s.chunks[id], InfoOf(s, id);
    AddressesExact(s.nodes, c.replicas);
    GoodIff(s.nodes, c, info.replicas, answer, hash);
  }

  lemma AllFetchableIff(s: State, infos: seq<ChunkInfo>, ids: seq<string>, chunkSize: nat,
                        answer: (string, string) -> Reply, hash: Bytes -> Bytes)
    requires |infos| == |ids| && forall i :: 0 <= i < |ids| ==> Describes(s, infos[i], ids[i])
    ensures (forall i :: 0 <= i < |infos| ==> Fetchable(infos[i], chunkSize, answer, hash)) <==>
            forall i :: 0 <= i < |ids| ==>
              && ids[i] in s.chunks && Int32(s.chunks[ids[i]].chunkIndex) * chunkSize >= 0
              && Answered(s.nodes, s.chunks[ids[i]], answer, hash)
  {
    forall i | 0 <= i < |ids|
      ensures Fetchable(infos[i], chunkSize, answer, hash) <==>
                && ids[i] in s.chunks && Int32(s.chunks[ids[i]].chunkIndex) * chunkSize >= 0
                && Answered(s.nodes, s.chunks[ids[i]], answer, hash)
    {
      FetchableIff(s, ids[i], chunkSize, answer, hash);
    }
  }

  lemma DownloadableIff(s: State, fileID: string, infos: seq<ChunkInfo>, answer: (string, string) -> Reply,
                        hash: Bytes -> Bytes)
    requires fileID in s.files && s.files[fileID].status == FileComplete && |infos| == |s.files[fileID].chunkIDs| > 0
    requires forall i :: 0 <= i < |infos| ==> Describes(s, infos[i], s.files[fileID].chunkIDs[i])
    ensures Downloadable(s, fileID, answer, hash) <==>
              forall i :: 0 <= i < |infos| ==> Fetchable(infos[i], s.files[fileID].chunkSize, answer, hash)
  {
    AllFetchableIff(s, infos, s.files[fileID].chunkIDs, s.files[fileID].chunkSize, answer, hash);
  }

  /** A whole download. Whatever the replicas answer and in whatever order chunks arrive, a download that reports
      no error yields the uploaded data. */
  method Download(fsm: MetadataFSM, fileID: string, answer: (string, string) -> Reply, hash: Bytes -> Bytes,
                  ghost f: Source)
    returns (ok: bool, out: Bytes)
    requires fsm.Valid() && f.fileID == fileID && f.hash == hash
    ensures ok <==> Downloadable(fsm.View(), fileID, answer, hash)
    ensures ok && Uploaded(fsm.View(), f) && CollisionFree(hash) ==> out == f.data
  {
    var infos;
    ok, infos := GetFile(fsm, fileID);
    if !ok || |infos| == 0 { return false, []; }
    var file := fsm.files[fileID];
    DownloadableIff(fsm.View(), fileID, infos, answer, hash);
    ok, out := FetchChunks(infos, file.chunkSize, file.fileSize, answer, hash, fsm.View(), f);
    if !ok { out := []; }
  }

  /** A deleted file keeps its record, with nothing changed but the status, and is no longer served. */
  method DeleteThenGet(fsm: MetadataFSM, fileID: string) returns (deleted: bool, found: bool)
    requires fsm.Valid()
    modifies fsm
    ensures fsm.Valid() && !found && (deleted <==> fileID in old(fsm.files))
    ensures deleted ==>
              && OnlyFile(old(fsm.View()), fsm.View(), fileID)
              && FileMarked(old(fsm.files)[fileID], fsm.files[fileID], FileDeleted, old(fsm.files)[fileID].checksum)
    ensures !deleted ==> fsm.View() == old(fsm.View())
  {
    DeleteDoes(fsm.View(), DeleteFile(fileID), []);
    var outcome := fsm.Propose(DeleteFile(fileID));
    deleted := outcome.Accepted?;
    var infos;
    found, infos := GetFile(fsm, fileID);
  }

  /** End-to-end integrity: if an upload succeeds and, after anything else the service was asked to do, a download
      of the file reports no error, then its output is the input. */
  method UploadThenDownload(fsm: MetadataFSM, f: Source, name: string, rf: nat, w: World, now: Time,
                            quotient: real, ghost x: real, ghost y: real, later: seq<Command>,
                            answer: (string, string) -> Reply)
    returns (uploaded: bool, downloaded: bool, out: Bytes)
    requires fsm.Valid() && 1 <= f.chunkSize < PRECISION && |f.data| < PRECISION
    requires IsQuotient(quotient, x, y, |f.data|, f.chunkSize)
    requires Injective(f.digest) && CollisionFree(f.hash) && forall b :: |f.hash(b)| > 0
    modifies fsm
    ensures uploaded && downloaded ==> out == f.data
  {
    uploaded := Upload(fsm, f, name, rf, w, now, quotient, x, y);
    ghost var before := fsm.View();
    Meanwhile(fsm, later);
    if uploaded { UploadedStays(before, fsm.View(), f); }
    downloaded, out := Download(fsm, f.fileID, answer, f.hash, f);
  }
}
