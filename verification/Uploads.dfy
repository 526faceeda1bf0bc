/** What an upload leaves in the metadata, for good. */
module Uploads {
  import opened Records
  import opened Seqs
  import opened Metadata
  import opened Structure
  import opened Doubles
  import opened Chunker

  const MIN_CHUNK_SIZE := 64 * 1024
  const MAX_CHUNK_SIZE := 64 * 1024 * 1024

  /** A file as the client knows it, with the digest that names its chunks and the hash of their contents. */
  datatype Source = Source(fileID: string, data: Bytes, chunkSize: nat, digest: string -> string, hash: Bytes -> Bytes)

  ghost predicate Proper(f: Source) {
    && MIN_CHUNK_SIZE <= f.chunkSize <= MAX_CHUNK_SIZE && |f.data| < PRECISION
    && Injective(f.digest) && forall b :: |f.hash(b)| > 0
  }

  function Count(f: Source): nat
    requires f.chunkSize >= 1
  {
    CeilDiv(|f.data|, f.chunkSize)
  }

  function IdOf(f: Source, i: nat): string {
    ChunkID(f.digest, f.fileID, i)
  }

  /** The bytes of chunk `i`. */
  function Slice(f: Source, i: nat): Bytes
    requires Offset(i, f.chunkSize) <= |f.data|
  {
    var start := Offset(i, f.chunkSize);
    f.data[start..start + Least(f.chunkSize, |f.data| - start)]
  }

  function AllIds(f: Source): (ids: seq<string>)
    requires f.chunkSize >= 1
    ensures |ids| == Count(f) && forall i :: 0 <= i < |ids| ==> ids[i] == IdOf(f, i)
  {
    seq(Count(f), i requires 0 <= i < Count(f) => IdOf(f, i))
  }

  lemma IdsDistinct(f: Source)
    requires f.chunkSize >= 1 && Injective(f.digest)
    ensures NoDup(AllIds(f))
  {
    forall i, j | 0 <= i < j < Count(f) ensures AllIds(f)[i] != AllIds(f)[j] {
      if IdOf(f, i) == IdOf(f, j) { ChunkIDsDistinct(f.digest, f.fileID, i, j); }
    }
  }

  // ----- A created file -----

  /** The file is registered with its geometry, and each of its chunks at its own index. */
  ghost predicate Created(s: State, f: Source)
    requires f.chunkSize >= 1
  {
    && f.fileID in s.files
    && s.files[f.fileID].chunkIDs == AllIds(f)
    && s.files[f.fileID].fileSize == |f.data| && s.files[f.fileID].chunkSize == f.chunkSize
    && forall i :: 0 <= i < Count(f) ==> IdOf(f, i) in s.chunks && s.chunks[IdOf(f, i)].chunkIndex == i
  }

  lemma CreateMakesCreated(s: State, f: Source, name: string, at: Time)
    requires f.chunkSize >= 1 && Injective(f.digest)
    requires Create(s, CreateFile(f.fileID, name, AllIds(f), |f.data|, f.chunkSize, at)).outcome.Accepted?
    ensures Created(Create(s, CreateFile(f.fileID, name, AllIds(f), |f.data|, f.chunkSize, at)).state, f)
  {
    IdsDistinct(f);
    StubsExact(s.chunks, f.fileID, AllIds(f));
    forall i | 0 <= i < Count(f)
      ensures var chunks := WithStubs(s.chunks, f.fileID, AllIds(f));
              IdOf(f, i) in chunks && chunks[IdOf(f, i)].chunkIndex == i
    {
      assert AllIds(f)[i] in AllIds(f);
    }
  }

  lemma CreatedStays(s: State, t: State, f: Source)
    requires f.chunkSize >= 1 && Created(s, f) && Evolves(s, t)
    ensures Created(t, f)
  {
    assert FileEvolves(s.files[f.fileID], t.files[f.fileID]);
    forall i | 0 <= i < Count(f) ensures IdOf(f, i) in t.chunks && t.chunks[IdOf(f, i)].chunkIndex == i {
      assert ChunkEvolves(s.chunks[IdOf(f, i)], t.chunks[IdOf(f, i)]);
    }
  }

  // ----- A committed chunk -----

  ghost predicate HasChecksum(s: State, id: string, sum: Bytes) {
    id in s.chunks && s.chunks[id].checksum == sum && |sum| > 0
  }

  lemma ChecksumStays(s: State, t: State, id: string, sum: Bytes)
    requires HasChecksum(s, id, sum) && Evolves(s, t)
    ensures HasChecksum(t, id, sum)
  {
    assert ChunkEvolves(s.chunks[id], t.chunks[id]);
  }

  lemma CommitRecords(s: State, id: string, nodeIDs: seq<string>, sum: Bytes, picks: seq<string>)
    requires |picks| == |nodeIDs| && |sum| > 0
    requires FinaliseChunk(s, CommitChunk(id, nodeIDs, sum), picks).outcome.Accepted?
    ensures HasChecksum(FinaliseChunk(s, CommitChunk(id, nodeIDs, sum), picks).state, id, sum)
  {}

  /** The chunks of the file outside `rest` are committed with the hash of their contents. */
  ghost predicate CommittedExcept(s: State, f: Source, rest: set<nat>)
    requires f.chunkSize >= 1
  {
    forall i :: 0 <= i < Count(f) && i !in rest ==>
      Offset(i, f.chunkSize) < |f.data| && HasChecksum(s, IdOf(f, i), f.hash(Slice(f, i)))
  }

  lemma CommittedStays(s: State, t: State, f: Source, rest: set<nat>)
    requires f.chunkSize >= 1 && CommittedExcept(s, f, rest) && Evolves(s, t)
    ensures CommittedExcept(t, f, rest)
  {
    forall i | 0 <= i < Count(f) && i !in rest
      ensures Offset(i, f.chunkSize) < |f.data| && HasChecksum(t, IdOf(f, i), f.hash(Slice(f, i)))
    {
      ChecksumStays(s, t, IdOf(f, i), f.hash(Slice(f, i)));
    }
  }

  lemma OneMoreCommitted(s: State, f: Source, rest: set<nat>, i: nat)
    requires f.chunkSize >= 1 && CommittedExcept(s, f, rest) && i in rest && i < Count(f)
    requires Offset(i, f.chunkSize) < |f.data| && HasChecksum(s, IdOf(f, i), f.hash(Slice(f, i)))
    ensures CommittedExcept(s, f, rest - {i})
  {}

  // ----- An uploaded file -----

  /** The file is registered and all of its chunks are committed with the hash of their contents. */
  ghost predicate Uploaded(s: State, f: Source) {
    f.chunkSize >= 1 && Created(s, f) && CommittedExcept(s, f, {})
  }

  /** Nothing that happens later takes an upload back. */
  lemma UploadedStays(s: State, t: State, f: Source)
    requires Uploaded(s, f) && Evolves(s, t)
    ensures Uploaded(t, f)
  {
    CreatedStays(s, t, f);
    CommittedStays(s, t, f, {});
  }
}
