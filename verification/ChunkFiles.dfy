/** Writing a chunk through a temporary file, and reading one back in frames. */
module ChunkFiles {
  import opened Records
  import opened DiskPaths
  import opened DiskStores
  import opened TempFiles

  const DEFAULT_FRAME_SIZE := 32 * 1024

  datatype Frame = Frame(data: Bytes, checksum: Bytes, isLast: bool)

  // ----- Frames -----

  /** The contents cut into frames of at most `size` bytes. */
  function Frames(data: Bytes, size: nat, hash: Bytes -> Bytes): seq<Frame>
    requires size > 0
    decreases |data|
  {
    if |data| == 0 then []
    else if |data| <= size then [Frame(data, hash(data), true)]
    else [Frame(data[..size], hash(data[..size]), false)] + Frames(data[size..], size, hash)
  }

  function Payload(frames: seq<Frame>): Bytes {
    if |frames| == 0 then [] else frames[0].data + Payload(frames[1..])
  }

  /** Cutting loses nothing; every frame is non-empty, within the size and carries its own checksum; exactly one
      frame is marked last, and it is the final one. */
  lemma {:induction false} FramesExact(data: Bytes, size: nat, hash: Bytes -> Bytes)
    requires size > 0
    ensures Payload(Frames(data, size, hash)) == data
    ensures forall i :: 0 <= i < |Frames(data, size, hash)| ==>
              var f := Frames(data, size, hash)[i];
              0 < |f.data| <= size && f.checksum == hash(f.data) && (f.isLast <==> i == |Frames(data, size, hash)| - 1)
    ensures Frames(data, size, hash) == [] <==> data == []
    decreases |data|
  {
    if |data| > size {
      var rest := Frames(data[size..], size, hash);
      FramesExact(data[size..], size, hash);
      assert Frames(data, size, hash)[1..] == rest;
      assert data[..size] + data[size..] == data;
    } else if |data| > 0 {
      assert Frames(data, size, hash)[1..] == [];
    }
  }

  lemma {:induction false} PayloadSnoc(frames: seq<Frame>, f: Frame)
    ensures Payload(frames + [f]) == Payload(frames) + f.data
  {
    if |frames| == 0 {
      assert (frames + [f])[1..] == [];
    } else {
      PayloadSnoc(frames[1..], f);
      assert (frames + [f])[1..] == frames[1..] + [f];
    }
  }

  /** A frame cut after `pos` whole bytes continues the frames cut before. */
  lemma {:induction false} FramesStep(data: Bytes, pos: nat, size: nat, hash: Bytes -> Bytes)
    requires size > 0 && pos < |data|
    ensures var end := if |data| < pos + size then |data| else pos + size;
            Frames(data[pos..], size, hash) ==
            [Frame(data[pos..end], hash(data[pos..end]), end == |data|)] + Frames(data[end..], size, hash)
  {
    var end := if |data| < pos + size then |data| else pos + size;
    assert data[pos..][..end - pos] == data[pos..end];
    assert data[pos..][end - pos..] == data[end..];
    if end == |data| {
      assert Frames(data[end..], size, hash) == [];
      assert data[pos..] == data[pos..end];
    }
  }

  // ----- Reading -----

  /** An open chunk file. Reads go through one descriptor, so they see the contents found on opening. */
  class ChunkReader {
    const contents: Bytes
    const frameSize: nat
    const hash: Bytes -> Bytes
    var pos: nat

    constructor (contents: Bytes, frameSize: nat, hash: Bytes -> Bytes)
      requires frameSize > 0
      ensures this.contents == contents && this.frameSize == frameSize && this.hash == hash && pos == 0
    {
      this.contents, this.frameSize, this.hash, pos := contents, frameSize, hash, 0;
    }

    ghost predicate Valid()
      reads this
    {
      frameSize > 0 && pos <= |contents|
    }

    /** The frames still to come. */
    ghost function Rest(): seq<Frame>
      requires Valid()
      reads this
    {
      Frames(contents[pos..], frameSize, hash)
    }

    /** The next frame. One byte more than a frame is read to learn whether it is the last; that byte is given
        back by seeking. */
    method Next() returns (eof: bool, frame: Frame)
      requires Valid()
      modifies this`pos
      ensures Valid() && (eof <==> old(Rest()) == [])
      ensures eof ==> Rest() == []
      ensures !eof ==> old(Rest()) == [frame] + Rest() && pos > old(pos) && (frame.isLast <==> Rest() == [])
    {
      var left := |contents| - pos;
      var n := if left < frameSize + 1 then left else frameSize + 1;
      if n == 0 {
        return true, Frame([], [], false);
      }
      FramesStep(contents, pos, frameSize, hash);
      var buf := contents[pos..pos + n];
      pos := pos + n;
      var isLast := n <= frameSize;
      var data := buf[..if n < frameSize then n else frameSize];
      if !isLast { pos := pos - 1; }
      assert data == contents[old(pos)..pos];
      return false, Frame(data, hash(data), isLast);
    }
  }

  // ----- Writing -----

  /** A chunk being received into its temporary file. */
  class ChunkWriter {
    const store: DiskStore
    const chunkID: string
    const path: string
    var hashed: Bytes // what the running checksum has seen
    var isDone: bool

    /** The temporary file holds exactly what was hashed. */
    ghost predicate Open()
      reads this, store
    {
      && Legal(store.layout, chunkID) && path == TempPath(store.layout.tempDir, chunkID)
      && !isDone && path in store.files && store.files[path] == hashed
    }

    /** Creates, or empties, the temporary file at the path the store names. */
    constructor (chunkID: string, path: string, store: DiskStore)
      requires Legal(store.layout, chunkID) && path == TempPath(store.layout.tempDir, chunkID)
      modifies store`files
      ensures Open() && hashed == [] && this.chunkID == chunkID && this.store == store
      ensures store.Chunks() == old(store.Chunks()) && (store.Valid() <==> old(store.Valid()))
      ensures TempsBecame(store.layout, old(store.files.Keys), store.files.Keys, {chunkID}, {})
    {
      this.chunkID, this.store, this.path := chunkID, store, path;
      hashed, isDone := [], false;
      new;
      TempIsOther(store.layout, chunkID);
      SoundWithOther(store.layout, store.OnDisk(), path, [], store.hash);
      TempOpened(store.layout, store.files.Keys, chunkID);
      store.files := store.files[path := []];
    }

    /** Replaces the contents of the temporary file, which no chunk sees. */
    method Spill(data: Bytes)
      requires path == TempPath(store.layout.tempDir, chunkID)
      modifies store`files
      ensures store.files == old(store.files)[path := data]
      ensures store.Chunks() == old(store.Chunks()) && (store.Valid() <==> old(store.Valid()))
    {
      TempIsOther(store.layout, chunkID);
      SoundWithOther(store.layout, store.OnDisk(), path, data, store.hash);
      store.files := store.files[path := data];
    }

    /** Appends a frame. When the file system fails, part of the frame may have been written. */
    method Write(data: Bytes, fails: bool) returns (ok: bool)
      requires isDone || Open()
      modifies this`hashed, store`files
      ensures ok <==> !isDone && !fails
      ensures ok ==> Open() && hashed == old(hashed) + data
      ensures store.files - {path} == old(store.files) - {path} && store.files.Keys == old(store.files.Keys)
      ensures store.Chunks() == old(store.Chunks()) && (store.Valid() <==> old(store.Valid()))
    {
      if isDone { return false; }
      if fails {
        var k :| 0 <= k <= |data|;
        Spill(hashed + data[..k]);
        return false;
      }
      Spill(store.files[path] + data);
      hashed := hashed + data;
      return true;
    }

    method Abort()
      requires path == TempPath(store.layout.tempDir, chunkID)
      modifies this`isDone, store`files
      ensures isDone && store.files == old(store.files) - {path}
      ensures store.Chunks() == old(store.Chunks()) && (store.Valid() <==> old(store.Valid()))
      ensures TempsBecame(store.layout, old(store.files.Keys), store.files.Keys, {}, {chunkID})
    {
      TempIsOther(store.layout, chunkID);
      SoundWithoutOther(store.layout, store.OnDisk(), path, store.hash);
      TempRemoved(store.layout, store.files.Keys, chunkID);
      store.files := store.files - {path};
      isDone := true;
    }

    /** Hands the temporary file to the store, and removes it when the store refuses. */
    method Commit(putFails: bool) returns (ok: bool)
      requires store.Valid() && Open() && |hashed| < MAX_LENGTH
      modifies this`isDone, store`files, store`index, store`usedSpace
      ensures isDone && TempsBecame(store.layout, old(store.files.Keys), store.files.Keys, {}, {chunkID})
      ensures ok <==> !putFails && store.RoomFor(old(store.Chunks()), chunkID, |hashed|)
      ensures ok ==> store.Committed(old(store.Chunks()), old(store.index), chunkID, hashed)
                     && store.OnDisk() == Recorded(store.layout, old(store.OnDisk()), path, chunkID, store.hash)
      ensures !ok ==> if store.RoomFor(old(store.Chunks()), chunkID, |hashed|)
                      then store.HalfCommitted(old(store.Chunks()), old(store.index), chunkID, hashed)
                      else store.Unchanged(old(store.Chunks()), old(store.index))
    {
      TempIsOther(store.layout, chunkID);
      TempMoved(store.layout, store.files.Keys, chunkID);
      TempIsNoChunkPath(store.layout.root, store.layout.splitLevel, store.layout.tempDir, chunkID, chunkID);
      isDone := true;
      ghost var points;
      var r;
      r, points := store.Rename(path, chunkID, putFails);
      if r.Done? { return true; }
      if store.RoomFor(old(store.Chunks()), chunkID, |hashed|) { assert store.files - {path} == store.files; }
      Abort();
      return false;
    }

    /** Commits the chunk when the expected checksum is that of what was written; otherwise, and whenever the
        commit fails, the temporary file is removed. A writer that is done refuses. Only a commit whose
        checksum could not be recorded changes anything without succeeding. */
    method Finalize(expected: Bytes, putFails: bool) returns (ok: bool)
      requires store.Valid() && (isDone || Open()) && |hashed| < MAX_LENGTH
      modifies this`isDone, store`files, store`index, store`usedSpace
      ensures isDone && TempsBecame(store.layout, old(store.files.Keys), store.files.Keys, {},
                                    if old(isDone) then {} else {chunkID})
      ensures ok <==> !old(isDone) && expected == store.hash(hashed) && !putFails
                      && store.RoomFor(old(store.Chunks()), chunkID, |hashed|)
      ensures ok ==> store.Committed(old(store.Chunks()), old(store.index), chunkID, hashed)
                     && store.OnDisk() == Recorded(store.layout, old(store.OnDisk()), path, chunkID, store.hash)
      ensures !ok ==> if !old(isDone) && expected == store.hash(hashed)
                         && store.RoomFor(old(store.Chunks()), chunkID, |hashed|)
                      then store.HalfCommitted(old(store.Chunks()), old(store.index), chunkID, hashed)
                      else store.Unchanged(old(store.Chunks()), old(store.index))
      ensures old(isDone) ==> store.OnDisk() == old(store.OnDisk())
    {
      if isDone { return false; }
      if store.hash(hashed) != expected {
        Abort();
        return false;
      }
      ok := Commit(putFails);
    }
  }
}
