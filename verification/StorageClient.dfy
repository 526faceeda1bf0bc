/** The client side of chunk transfer: uploads and downloads. */
module StorageClients {
  import opened Records
  import opened Seqs
  import opened DiskStores
  import opened TempFiles
  import opened ChunkFiles
  import opened StorageServers

  // ----- Uploading -----

  /** The frames an upload sends: the data cut up, or one empty frame marked last. */
  function UploadFrames(chunkID: string, data: Bytes, checksum: Bytes, size: nat): seq<PutFrame>
    requires size > 0
    decreases |data|
  {
    if |data| <= size then [PutFrame(chunkID, data, checksum, true)]
    else [PutFrame(chunkID, data[..size], checksum, false)] + UploadFrames(chunkID, data[size..], checksum, size)
  }

  lemma {:induction false} PutDataCons(f: PutFrame, frames: seq<PutFrame>)
    ensures PutData([f] + frames) == f.data + PutData(frames)
  {
    if |frames| == 0 {
      assert [f] + frames == [f] && [f][..0] == [];
      assert PutData([f]) == PutData([]) + f.data;
    } else {
      var n := |frames| - 1;
      PutDataCons(f, frames[..n]);
      assert ([f] + frames)[..n + 1] == [f] + frames[..n];
    }
  }

  lemma {:induction false} UploadFramesCarry(chunkID: string, data: Bytes, checksum: Bytes, size: nat)
    requires size > 0
    ensures PutData(UploadFrames(chunkID, data, checksum, size)) == data
    decreases |data|
  {
    if |data| <= size {
      PutDataCons(PutFrame(chunkID, data, checksum, true), []);
      assert [PutFrame(chunkID, data, checksum, true)] + [] == [PutFrame(chunkID, data, checksum, true)];
    } else {
      UploadFramesCarry(chunkID, data[size..], checksum, size);
      PutDataCons(PutFrame(chunkID, data[..size], checksum, false),
                  UploadFrames(chunkID, data[size..], checksum, size));
      assert data[..size] + data[size..] == data;
    }
  }

  lemma {:induction false} UploadFramesMarked(chunkID: string, data: Bytes, checksum: Bytes, size: nat)
    requires size > 0
    ensures var frames := UploadFrames(chunkID, data, checksum, size);
            && |frames| > 0
            && forall i :: 0 <= i < |frames| ==>
                 && frames[i].chunkID == chunkID && frames[i].checksum == checksum
                 && (frames[i].isLast <==> i == |frames| - 1) && |frames[i].data| <= size
                 && (i < |frames| - 1 ==> |frames[i].data| == size)
    decreases |data|
  {
    if |data| > size {
      UploadFramesMarked(chunkID, data[size..], checksum, size);
      var frames := UploadFrames(chunkID, data, checksum, size);
      var rest := UploadFrames(chunkID, data[size..], checksum, size);
      assert forall i :: 0 < i < |frames| ==> frames[i] == rest[i - 1];
    }
  }

  /** The frames carry the data and nothing else, all for the same chunk; exactly the final one is marked last, and
      all others are full. */
  lemma UploadFramesExact(chunkID: string, data: Bytes, checksum: Bytes, size: nat)
    requires size > 0
    ensures var frames := UploadFrames(chunkID, data, checksum, size);
            && |frames| > 0 && PutData(frames) == data
            && forall i :: 0 <= i < |frames| ==>
                 && frames[i].chunkID == chunkID && frames[i].checksum == checksum
                 && (frames[i].isLast <==> i == |frames| - 1) && |frames[i].data| <= size
                 && (i < |frames| - 1 ==> |frames[i].data| == size)
  {
    UploadFramesCarry(chunkID, data, checksum, size);
    UploadFramesMarked(chunkID, data, checksum, size);
  }

  /** The frames still to send once the first `i` bytes are sent. */
  ghost function Remaining(chunkID: string, data: Bytes, checksum: Bytes, size: nat, i: nat): seq<PutFrame>
    requires size > 0
  {
    if i < |data| then UploadFrames(chunkID, data[i..], checksum, size) else []
  }

  lemma NextRemaining(chunkID: string, data: Bytes, checksum: Bytes, size: nat, i: nat)
    requires size > 0 && i < |data|
    ensures var end := if |data| < i + size then |data| else i + size;
            Remaining(chunkID, data, checksum, size, i) ==
            [PutFrame(chunkID, data[i..end], checksum, end == |data|)]
            + Remaining(chunkID, data, checksum, size, i + size)
  {
    if |data| <= i + size {
      assert data[i..|data|] == data[i..];
    } else {
      assert data[i..][..size] == data[i..i + size] && data[i..][size..] == data[i + size..];
    }
  }

  /** The framing loop of an upload. */
  method FrameChunk(chunkID: string, data: Bytes, checksum: Bytes, frameSize: nat) returns (sent: seq<PutFrame>)
    requires frameSize > 0
    ensures sent == UploadFrames(chunkID, data, checksum, frameSize)
  {
    sent := [];
    var i := 0;
    ghost var all := Remaining(chunkID, data, checksum, frameSize, 0);
    while i < |data|
      invariant all == sent + Remaining(chunkID, data, checksum, frameSize, i)
      decreases |data| - i
    {
      NextRemaining(chunkID, data, checksum, frameSize, i);
      var end := i + frameSize;
      if end > |data| { end := |data|; }
      ConcatAssociates(sent, [PutFrame(chunkID, data[i..end], checksum, end == |data|)],
                       Remaining(chunkID, data, checksum, frameSize, i + frameSize));
      sent := sent + [PutFrame(chunkID, data[i..end], checksum, end == |data|)];
      i := i + frameSize;
    }
    assert all == sent;
    if |data| == 0 {
      sent := sent + [PutFrame(chunkID, [], checksum, true)];
    } else {
      assert data[0..] == data;
    }
  }

  /** An upload by a client that closes the stream properly is kept whenever the node has room, and then the node
      serves exactly the data. */
  method PutChunk(server: StorageServer, chunkID: string, data: Bytes, checksum: Bytes,
                  frameSize: nat) returns (r: PutResult)
    requires server.store.Valid() && frameSize > 0 && |data| < MAX_LENGTH
    modifies server.store
    ensures server.store.Valid()
    ensures r.Kept? <==> && Legal(server.store.layout, chunkID) && checksum == server.store.hash(data)
                         && server.store.RoomFor(old(server.store.Chunks()), chunkID, |data|)
    ensures server.store.Chunks() ==
            if r.Kept? then old(server.store.Chunks())[chunkID := data] else old(server.store.Chunks())
    ensures TempsBecame(server.store.layout, old(server.store.files.Keys), server.store.files.Keys, {},
                        if Legal(server.store.layout, chunkID) then {chunkID} else {})
  {
    var frames := FrameChunk(chunkID, data, checksum, frameSize);
    UploadFramesExact(chunkID, data, checksum, frameSize);
    r := server.PutChunk(frames, Eof, i => false, false);
  }

  // ----- Downloading -----

  /** The reassembly loop of a download. */
  method Reassemble(frames: seq<Frame>) returns (data: Bytes)
    ensures data == Payload(frames)
  {
    data := [];
    for i := 0 to |frames|
      invariant data == Payload(frames[..i])
    {
      TakeNext(frames, i);
      PayloadSnoc(frames[..i], frames[i]);
      data := data + frames[i].data;
    }
    TakeAll(frames);
  }

  /** A download of a chunk the node serves yields its contents. */
  method GetChunk(server: StorageServer, chunkID: string) returns (ok: bool, data: Bytes)
    ensures ok <==> chunkID in server.store.Chunks()
    ensures ok ==> data == server.store.Chunks()[chunkID]
  {
    var frames;
    ok, frames := server.GetChunk(chunkID);
    data := Reassemble(frames);
    if ok { FramesExact(server.store.Chunks()[chunkID], DEFAULT_FRAME_SIZE, server.store.hash); }
  }

  /** The round trip: whatever the data and the frame size, what was put is what is got. */
  method PutThenGet(server: StorageServer, chunkID: string, data: Bytes, checksum: Bytes,
                    frameSize: nat) returns (kept: bool, got: Bytes)
    requires server.store.Valid() && frameSize > 0 && |data| < MAX_LENGTH
    modifies server.store
    ensures kept ==> got == data
    ensures kept <==> && Legal(server.store.layout, chunkID) && checksum == server.store.hash(data)
                      && server.store.RoomFor(old(server.store.Chunks()), chunkID, |data|)
  {
    var r := PutChunk(server, chunkID, data, checksum, frameSize);
    var ok;
    ok, got := GetChunk(server, chunkID);
    kept := r.Kept?;
  }
}
