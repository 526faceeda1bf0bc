/** The streaming handlers of a storage node. */
module StorageServers {
  import opened Records
  import opened Seqs
  import opened DiskStores
  import opened TempFiles
  import opened ChunkFiles

  /** How a client stream ends: closed by the sender, or by a transport error. */
  datatype Ending = Eof | Broken

  datatype Reason = InvalidArgument | Internal

  datatype PutFrame = PutFrame(chunkID: string, data: Bytes, checksum: Bytes, isLast: bool)
  datatype PutResult = Kept | Refused(reason: Reason)

  function PutData(frames: seq<PutFrame>): Bytes {
    if |frames| == 0 then [] else PutData(frames[..|frames| - 1]) + frames[|frames| - 1].data
  }

  ghost predicate SameChunk(frames: seq<PutFrame>) {
    forall i :: 0 <= i < |frames| ==> frames[i].chunkID == frames[0].chunkID
  }

  /** A whole upload: closed after a frame marked last, all for one legal chunk id, under the right checksum. */
  ghost predicate WholeUpload(layout: Layout, frames: seq<PutFrame>, ending: Ending, hash: Bytes -> Bytes) {
    && ending.Eof? && |frames| > 0 && Legal(layout, frames[0].chunkID) && SameChunk(frames)
    && frames[|frames| - 1].isLast && frames[|frames| - 1].checksum == hash(PutData(frames))
  }

  /** An upload's receiver: the first frame names the chunk and the others must agree. */
  function TakePut(layout: Layout, r: Receiver, f: PutFrame): Receiver {
    match r
    case Waiting => if Legal(layout, f.chunkID) then Collecting(f.chunkID, f.data) else GaveUp
    case Collecting(id, got) => if f.chunkID == id then Collecting(id, got + f.data) else GaveUp
    case GaveUp => GaveUp
  }

  function TakePuts(layout: Layout, frames: seq<PutFrame>): Receiver {
    if |frames| == 0 then Waiting
    else TakePut(layout, TakePuts(layout, frames[..|frames| - 1]), frames[|frames| - 1])
  }

  /** The receiver collects exactly the payload of streams for one legal chunk id. */
  lemma {:induction false} TakePutsExact(layout: Layout, frames: seq<PutFrame>)
    ensures TakePuts(layout, frames) ==
            if frames == [] then Waiting
            else if Legal(layout, frames[0].chunkID) && SameChunk(frames)
            then Collecting(frames[0].chunkID, PutData(frames))
            else GaveUp
  {
    if |frames| > 0 {
      var init := frames[..|frames| - 1];
      TakePutsExact(layout, init);
      assert SameChunk(frames) ==> SameChunk(init);
      if |init| > 0 && SameChunk(init) && frames[|init|].chunkID == init[0].chunkID {
        forall i | 0 <= i < |frames| ensures frames[i].chunkID == frames[0].chunkID {
          assert i < |init| ==> frames[i] == init[i];
        }
      }
    }
  }

  /** What the first `i` frames leave behind, one more frame continues; a failure so far is final. */
  lemma NextPut(layout: Layout, frames: seq<PutFrame>, i: nat)
    requires i < |frames|
    ensures TakePuts(layout, frames[..i + 1]) == TakePut(layout, TakePuts(layout, frames[..i]), frames[i])
    ensures TakePuts(layout, frames[..i + 1]).GaveUp? ==> TakePuts(layout, frames).GaveUp?
    ensures i > 0 && TakePuts(layout, frames[..i]).Collecting? ==>
              TakePuts(layout, frames[..i]).id == frames[0].chunkID && Legal(layout, frames[0].chunkID)
  {
    assert frames[..i + 1][..i] == frames[..i];
    TakePutsExact(layout, frames[..i]);
    TakePutsExact(layout, frames[..i + 1]);
    TakePutsExact(layout, frames);
    if SameChunk(frames) { assert SameChunk(frames[..i + 1]); }
  }

  /** The id an upload's temporary file is for, once there is one. */
  function UploadedIds(layout: Layout, frames: seq<PutFrame>): set<string> {
    if frames != [] && Legal(layout, frames[0].chunkID) then {frames[0].chunkID} else {}
  }

  function UploadIds(layout: Layout, r: Receiver, f: PutFrame): set<string> {
    match r
    case Waiting => if Legal(layout, f.chunkID) then {f.chunkID} else {}
    case Collecting(id, _) => {id}
    case GaveUp => {}
  }

  lemma NextUploadedId(layout: Layout, frames: seq<PutFrame>, i: nat)
    requires i < |frames| && !TakePuts(layout, frames[..i]).GaveUp?
    ensures UploadedIds(layout, frames[..i + 1]) == UploadIds(layout, TakePuts(layout, frames[..i]), frames[i])
    ensures UploadedIds(layout, frames[..i]) + UploadedIds(layout, frames[..i + 1]) ==
            UploadedIds(layout, frames[..i + 1])
    ensures UploadedIds(layout, frames[..i + 1]) == UploadedIds(layout, frames)
  {
    TakePutsExact(layout, frames[..i]);
  }

  ghost predicate NoneFails(fails: nat -> bool, n: nat) {
    forall i: nat :: i < n ==> !fails(i)
  }

  // ----- What is wrong with an upload -----

  /** The first `n` frames were accepted: all for one legal chunk, and no write failed. */
  ghost predicate AcceptedPuts(layout: Layout, frames: seq<PutFrame>, writeFails: nat -> bool, n: nat)
    requires n <= |frames|
  {
    && NoneFails(writeFails, n)
    && forall i :: 0 <= i < n ==> Legal(layout, frames[0].chunkID) && frames[i].chunkID == frames[0].chunkID
  }

  lemma AcceptedIff(layout: Layout, frames: seq<PutFrame>, writeFails: nat -> bool, n: nat)
    requires n <= |frames|
    ensures AcceptedPuts(layout, frames, writeFails, n) <==>
              NoneFails(writeFails, n) && !TakePuts(layout, frames[..n]).GaveUp?
  {
    TakePutsExact(layout, frames[..n]);
    if n > 0 && SameChunk(frames[..n]) {
      forall i | 0 <= i < n ensures frames[i].chunkID == frames[0].chunkID {
        assert frames[..n][i].chunkID == frames[..n][0].chunkID;
      }
    }
  }

  /** The client is to blame: a frame after accepted ones is for another chunk, or a stream of accepted frames was
      closed before one marked last. */
  ghost predicate BadUpload(layout: Layout, frames: seq<PutFrame>, ending: Ending, writeFails: nat -> bool) {
    || (exists i :: 0 < i < |frames| && AcceptedPuts(layout, frames, writeFails, i)
                    && frames[i].chunkID != frames[0].chunkID)
    || (&& ending.Eof? && AcceptedPuts(layout, frames, writeFails, |frames|)
        && (frames == [] || !frames[|frames| - 1].isLast))
  }

  /** Frame `at` is the first one not accepted, for this reason. */
  ghost predicate RefusedFor(layout: Layout, frames: seq<PutFrame>, writeFails: nat -> bool, at: nat, reason: Reason) {
    && at < |frames| && AcceptedPuts(layout, frames, writeFails, at)
    && !AcceptedPuts(layout, frames, writeFails, at + 1)
    && reason == if frames[at].chunkID != frames[0].chunkID then InvalidArgument else Internal
  }

  lemma StopsAt(layout: Layout, frames: seq<PutFrame>, writeFails: nat -> bool, i: nat, reason: Reason)
    requires i < |frames| && NoneFails(writeFails, i) && !TakePuts(layout, frames[..i]).GaveUp?
    requires writeFails(i) || !TakePuts(layout, frames[..i + 1]).Collecting?
    requires reason == if i > 0 && frames[i].chunkID != frames[0].chunkID then InvalidArgument else Internal
    ensures RefusedFor(layout, frames, writeFails, i, reason)
  {
    AcceptedIff(layout, frames, writeFails, i);
    AcceptedIff(layout, frames, writeFails, i + 1);
    NextPut(layout, frames, i);
  }

  lemma RefusedAt(layout: Layout, frames: seq<PutFrame>, ending: Ending, writeFails: nat -> bool, at: nat)
    requires at < |frames| && AcceptedPuts(layout, frames, writeFails, at)
    requires !AcceptedPuts(layout, frames, writeFails, at + 1)
    ensures BadUpload(layout, frames, ending, writeFails) <==> frames[at].chunkID != frames[0].chunkID
  {
    if i :| 0 < i < |frames| && AcceptedPuts(layout, frames, writeFails, i) && frames[i].chunkID != frames[0].chunkID {
      assert i <= at;
    }
  }

  // ----- Replication streams -----

  datatype RepFrame = RepFrame(chunkID: string, data: Bytes, isFirst: bool, isLast: bool)

  /** What a replication receiver is doing: waiting for a first frame, collecting a chunk, or it has given up. */
  datatype Receiver = Waiting | Collecting(id: string, got: Bytes) | GaveUp

  datatype RepResult = Replicated(checksum: Bytes) | ClosedEarly | RepRefused(reason: Reason)

  function Begun(layout: Layout, r: Receiver, f: RepFrame): Receiver {
    if r.GaveUp? || !f.isFirst then r else if Legal(layout, f.chunkID) then Collecting(f.chunkID, []) else GaveUp
  }

  /** A first frame starts a collection, also in mid-stream; other frames continue it, and an id they name must
      be that of the collection. */
  function Take(layout: Layout, r: Receiver, f: RepFrame): Receiver {
    match Begun(layout, r, f)
    case Collecting(id, got) => if f.chunkID != "" && f.chunkID != id then GaveUp else Collecting(id, got + f.data)
    case _ => GaveUp
  }

  function TakeAllFrames(layout: Layout, frames: seq<RepFrame>): Receiver {
    if |frames| == 0 then Waiting
    else Take(layout, TakeAllFrames(layout, frames[..|frames| - 1]), frames[|frames| - 1])
  }

  /** The receiver commits at the first frame marked last, if it is collecting there. */
  function FirstLast(frames: seq<RepFrame>): (n: nat)
    ensures n <= |frames| && (n < |frames| ==> frames[n].isLast)
    ensures forall i :: 0 <= i < n ==> !frames[i].isLast
  {
    if |frames| == 0 then 0
    else
      var n := FirstLast(frames[..|frames| - 1]);
      if n < |frames| - 1 || frames[|frames| - 1].isLast then n else |frames|
  }

  /** A frame that a receiver may blame on the sender: it opens no chunk where one must be opened, opens one without a
      name, or names another chunk than the one being collected. */
  ghost predicate WrongFrame(r: Receiver, f: RepFrame) {
    || (f.isFirst && f.chunkID == "")
    || (!f.isFirst && r.Waiting?)
    || (!f.isFirst && r.Collecting? && f.chunkID != "" && f.chunkID != r.id)
  }

  class StorageServer {
    const store: DiskStore

    constructor (store: DiskStore)
      ensures this.store == store
    {
      this.store := store;
    }

    method BeginUpload(writer: ChunkWriter?, chunkID: string) returns (w: ChunkWriter?)
      requires store.Valid() && (writer != null ==> writer.store == store && writer.Open())
      modifies store`files
      ensures store.Valid() && store.Chunks() == old(store.Chunks())
      ensures w == null <==> writer == null && !Legal(store.layout, chunkID)
      ensures w != null ==> w.store == store && w.Open()
      ensures if writer != null then w == writer && Held(w) == old(Held(w))
              else w != null ==> fresh(w) && Held(w) == Collecting(chunkID, [])
      ensures TempsBecame(store.layout, old(store.files.Keys), store.files.Keys,
                          if writer == null && w != null then {chunkID} else {}, {})
    {
      SameTemps(store.layout, store.files.Keys);
      if writer != null { return writer; }
      var legal, path := store.TempDir(chunkID);
      if !legal { return null; }
      w := new ChunkWriter(chunkID, path, store);
    }

    /** Writes a frame, unless it is refused; a frame refused, not written or not acknowledged aborts the writer. */
    method Accept(w: ChunkWriter, data: Bytes, refused: bool, write: bool, writeFails: bool, ackFails: bool)
      returns (ok: bool)
      requires store.Valid() && w.store == store && w.Open() && (data != [] ==> write)
      modifies w`hashed, w`isDone, store`files
      ensures store.Valid() && store.Chunks() == old(store.Chunks())
      ensures ok <==> !refused && !(write && writeFails) && !ackFails
      ensures ok ==> w.Open() && w.hashed == old(w.hashed) + data
      ensures TempsBecame(store.layout, old(store.files.Keys), store.files.Keys, {}, if ok then {} else {w.chunkID})
    {
      SameTemps(store.layout, store.files.Keys);
      ok := !refused;
      if ok && write { ok := w.Write(data, writeFails); }
      if !ok || ackFails {
        w.Abort();
        return false;
      }
    }

    /** One frame of an upload: the first one opens the writer, and later ones must be for the same chunk. */
    method ReceiveFrame(writer: ChunkWriter?, f: PutFrame, fails: bool)
      returns (ok: bool, reason: Reason, w: ChunkWriter?)
      requires store.Valid() && (writer != null ==> writer.store == store && writer.Open())
      modifies store`files, writer
      ensures store.Valid() && store.Chunks() == old(store.Chunks())
      ensures ok <==> !fails && TakePut(store.layout, old(Held(writer)), f).Collecting?
      ensures ok ==> && w != null && (w == writer || fresh(w)) && w.store == store && w.Open()
                     && Held(w) == TakePut(store.layout, old(Held(writer)), f)
      ensures !ok ==> reason == if writer != null && f.chunkID != writer.chunkID then InvalidArgument else Internal
      ensures var ids := UploadIds(store.layout, old(Held(writer)), f);
              TempsBecame(store.layout, old(store.files.Keys), store.files.Keys, ids, if ok then {} else ids)
    {
      w := BeginUpload(writer, f.chunkID);
      if w == null { return false, Internal, null; }
      ghost var begun := store.files.Keys;
      ghost var ids := UploadIds(store.layout, old(Held(writer)), f);
      if writer != null { StillOpen(store.layout, begun, w.chunkID); }
      var mismatch := f.chunkID != w.chunkID;
      ok := Accept(w, f.data, mismatch, true, fails, false);
      TempsThen(store.layout, old(store.files.Keys), begun, store.files.Keys, ids, if ok then {} else ids);
      reason := if mismatch then InvalidArgument else Internal;
      if !ok { w := null; }
    }

    /** Receives the frames of an upload into a temporary file. */
    method ReceiveFrames(frames: seq<PutFrame>, writeFails: nat -> bool)
      returns (ok: bool, reason: Reason, writer: ChunkWriter?)
      requires store.Valid()
      modifies store`files
      ensures store.Valid() && store.Chunks() == old(store.Chunks())
      ensures ok <==> NoneFails(writeFails, |frames|) && !TakePuts(store.layout, frames).GaveUp?
      ensures !ok ==> exists at :: RefusedFor(store.layout, frames, writeFails, at, reason)
      ensures ok ==> Held(writer) == TakePuts(store.layout, frames)
      ensures ok && writer != null ==> fresh(writer) && writer.store == store && writer.Open()
      ensures var ids := UploadedIds(store.layout, frames);
              TempsBecame(store.layout, old(store.files.Keys), store.files.Keys, ids, if ok then {} else ids)
    {
      writer, reason := null, Internal;
      SameTemps(store.layout, store.files.Keys);
      for i := 0 to |frames|
        invariant store.Valid() && store.Chunks() == old(store.Chunks())
        invariant writer != null ==> fresh(writer) && writer.store == store && writer.Open()
        invariant Held(writer) == TakePuts(store.layout, frames[..i])
        invariant NoneFails(writeFails, i)
        invariant TempsBecame(store.layout, old(store.files.Keys), store.files.Keys,
                              UploadedIds(store.layout, frames[..i]), {})
      {
        NextPut(store.layout, frames, i);
        NextUploadedId(store.layout, frames, i);
        ghost var before := store.files.Keys;
        ok, reason, writer := ReceiveFrame(writer, frames[i], writeFails(i));
        ghost var ids := UploadedIds(store.layout, frames[..i + 1]);
        TempsJoin(store.layout, old(store.files.Keys), before, store.files.Keys,
                  UploadedIds(store.layout, frames[..i]), ids, if ok then {} else ids);
        if !ok {
          StopsAt(store.layout, frames, writeFails, i, reason);
          return;
        }
      }
      TakeAll(frames);
      ok := true;
    }

    /** An upload is all or nothing: it is kept exactly if it is whole, the file system does not fail and there is
        room. Any other upload changes nothing, except a whole one whose checksum could not be recorded.
        No temporary file is left behind. */
    method PutChunk(frames: seq<PutFrame>, ending: Ending, writeFails: nat -> bool,
                    putFails: bool) returns (r: PutResult)
      requires store.Valid() && |PutData(frames)| < MAX_LENGTH
      modifies store`files, store`index, store`usedSpace
      ensures r.Kept? <==> Arrived(frames, ending, writeFails, old(store.Chunks())) && !putFails
      ensures r.Kept? ==> store.Committed(old(store.Chunks()), old(store.index), frames[0].chunkID, PutData(frames))
      ensures r.Refused? ==>
                if Arrived(frames, ending, writeFails, old(store.Chunks()))
                then store.HalfCommitted(old(store.Chunks()), old(store.index), frames[0].chunkID, PutData(frames))
                else store.Unchanged(old(store.Chunks()), old(store.index))
      ensures TempsBecame(store.layout, old(store.files.Keys), store.files.Keys, {}, UploadedIds(store.layout, frames))
      ensures r == Refused(InvalidArgument) <==> BadUpload(store.layout, frames, ending, writeFails)
    {
      TakePutsExact(store.layout, frames);
      AcceptedIff(store.layout, frames, writeFails, |frames|);
      TakeAll(frames);
      var ok, reason, writer := ReceiveFrames(frames, writeFails);
      ghost var ids := UploadedIds(store.layout, frames);
      if !ok {
        ghost var at :| RefusedFor(store.layout, frames, writeFails, at, reason);
        RefusedAt(store.layout, frames, ending, writeFails, at);
        OpenedAndGone(store.layout, old(store.files.Keys), store.files.Keys, ids, ids);
        return Refused(reason);
      }
      ghost var received := store.files.Keys;
      r := EndUpload(frames, ending, writer, putFails);
      TempsThen(store.layout, old(store.files.Keys), received, store.files.Keys, ids, ids);
      OpenedAndGone(store.layout, old(store.files.Keys), store.files.Keys, ids, ids);
    }

    /** Everything but the recording of the checksum goes well: the upload is whole, is written and fits. */
    ghost predicate Arrived(frames: seq<PutFrame>, ending: Ending, writeFails: nat -> bool,
                            chunks: map<string, Bytes>)
    {
      && WholeUpload(store.layout, frames, ending, store.hash) && NoneFails(writeFails, |frames|)
      && store.RoomFor(chunks, frames[0].chunkID, |PutData(frames)|)
    }

    /** What happens to a received upload when its stream ends. */
    method EndUpload(frames: seq<PutFrame>, ending: Ending, writer: ChunkWriter?, putFails: bool) returns (r: PutResult)
      requires store.Valid() && |PutData(frames)| < MAX_LENGTH && !TakePuts(store.layout, frames).GaveUp?
      requires Held(writer) == TakePuts(store.layout, frames)
      requires writer != null ==> writer.store == store && writer.Open()
      modifies writer, store`files, store`index, store`usedSpace
      ensures r.Kept? <==> && WholeUpload(store.layout, frames, ending, store.hash) && !putFails
                           && store.RoomFor(old(store.Chunks()), frames[0].chunkID, |PutData(frames)|)
      ensures r.Kept? ==> store.Committed(old(store.Chunks()), old(store.index), frames[0].chunkID, PutData(frames))
      ensures r.Refused? ==>
                if WholeUpload(store.layout, frames, ending, store.hash)
                   && store.RoomFor(old(store.Chunks()), frames[0].chunkID, |PutData(frames)|)
                then store.HalfCommitted(old(store.Chunks()), old(store.index), frames[0].chunkID, PutData(frames))
                else store.Unchanged(old(store.Chunks()), old(store.index))
      ensures TempsBecame(store.layout, old(store.files.Keys), store.files.Keys, {}, UploadedIds(store.layout, frames))
      ensures r == Refused(InvalidArgument) <==> ending.Eof? && (frames == [] || !frames[|frames| - 1].isLast)
    {
      TakePutsExact(store.layout, frames);
      SameTemps(store.layout, store.files.Keys);
      if ending.Broken? {
        if writer != null { writer.Abort(); }
        return Refused(Internal);
      }
      if writer == null { return Refused(InvalidArgument); }
      var lastFrame := frames[|frames| - 1];
      if !lastFrame.isLast {
        writer.Abort();
        return Refused(InvalidArgument);
      }
      var done := writer.Finalize(lastFrame.checksum, putFails);
      return if done then Kept else Refused(Internal);
    }

    // ----- Reading -----

    /** Opens a chunk for reading; none when it is not indexed or its file is missing. */
    method OpenReader(chunkID: string) returns (reader: ChunkReader?)
      ensures reader == null <==> chunkID !in store.Chunks()
      ensures reader != null ==> && fresh(reader) && reader.Valid() && reader.pos == 0
                                 && reader.contents == store.Chunks()[chunkID]
                                 && reader.frameSize == DEFAULT_FRAME_SIZE && reader.hash == store.hash
    {
      var found := store.Exists(chunkID);
      if !found { return null; }
      var ok, path := store.PathForChunk(chunkID);
      if path !in store.files { return null; }
      reader := new ChunkReader(store.files[path], DEFAULT_FRAME_SIZE, store.hash);
    }

    /** Streams a chunk: exactly its frames, in order, the final one marked last. */
    method GetChunk(chunkID: string) returns (ok: bool, sent: seq<Frame>)
      ensures ok <==> chunkID in store.Chunks()
      ensures ok ==> sent == Frames(store.Chunks()[chunkID], DEFAULT_FRAME_SIZE, store.hash)
      ensures !ok ==> sent == []
    {
      sent := [];
      var reader := OpenReader(chunkID);
      if reader == null { return false, []; }
      assert reader.contents[0..] == reader.contents;
      ghost var all := reader.Rest();
      while true
        invariant reader.Valid() && fresh(reader) && all == sent + reader.Rest()
        decreases |reader.contents| - reader.pos
      {
        var eof, frame := reader.Next();
        if eof { break; }
        sent := sent + [frame];
        if frame.isLast { break; }
      }
      ok := true;
    }

    // ----- Replication -----

    /** A first frame opens a new writer, whatever was being received before; an earlier writer's temporary file is
        not removed. */
    method Begin(writer: ChunkWriter?, f: RepFrame) returns (w: ChunkWriter?, reason: Reason)
      requires store.Valid() && (writer != null ==> writer.store == store && writer.Open())
      modifies store`files
      ensures store.Valid() && store.Chunks() == old(store.Chunks())
      ensures Begun(store.layout, old(Held(writer)), f).Collecting? <==> w != null
      ensures w != null ==> && (w == writer || fresh(w)) && w.store == store && w.Open()
                            && Held(w) == Begun(store.layout, old(Held(writer)), f)
      ensures w == null ==> reason == if WrongFrame(old(Held(writer)), f) then InvalidArgument else Internal
      ensures TempsBecame(store.layout, old(store.files.Keys), store.files.Keys, Starts(store.layout, f), {})
    {
      SameTemps(store.layout, store.files.Keys);
      if !f.isFirst { return writer, InvalidArgument; }
      var legal, path := store.TempDir(f.chunkID);
      if !legal { return null, if f.chunkID == "" then InvalidArgument else Internal; }
      w := new ChunkWriter(f.chunkID, path, store);
      reason := Internal;
    }

    /** One frame of a replication stream; unless it is marked last it is acknowledged. */
    method TakeFrame(writer: ChunkWriter?, f: RepFrame, writeFails: bool, ackFails: bool)
      returns (ok: bool, reason: Reason, w: ChunkWriter?)
      requires store.Valid() && (writer != null ==> writer.store == store && writer.Open())
      modifies store`files, writer
      ensures store.Valid() && store.Chunks() == old(store.Chunks())
      ensures ok <==> Arrives(f, writeFails, ackFails) && Take(store.layout, old(Held(writer)), f).Collecting?
      ensures ok ==> && w != null && (w == writer || fresh(w)) && w.store == store && w.Open()
                     && Held(w) == Take(store.layout, old(Held(writer)), f)
      ensures !ok ==> reason == if WrongFrame(old(Held(writer)), f) then InvalidArgument else Internal
      ensures TempsBecame(store.layout, old(store.files.Keys), store.files.Keys, Starts(store.layout, f),
                          if ok then {} else NameOf(Begun(store.layout, old(Held(writer)), f)))
    {
      w, reason := Begin(writer, f);
      if w == null { return false, reason, null; }
      ghost var begun, start := store.files.Keys, Starts(store.layout, f);
      var mismatch := f.chunkID != "" && f.chunkID != w.chunkID;
      ok := Accept(w, f.data, mismatch, f.data != [], writeFails, !f.isLast && ackFails);
      TempsThen(store.layout, old(store.files.Keys), begun, store.files.Keys, start, if ok then {} else {w.chunkID});
      reason := if mismatch then InvalidArgument else Internal;
      if !ok { w := null; }
    }

    ghost function Held(w: ChunkWriter?): Receiver
      reads w
    {
      if w == null then Waiting else Collecting(w.chunkID, w.hashed)
    }

    /** The next frame of a replication stream, after `count` frames; `start` are the files at the beginning. */
    method CollectNext(frames: seq<RepFrame>, count: nat, writer: ChunkWriter?, writeFails: bool, ackFails: bool,
                       ghost start: set<string>)
      returns (ok: bool, reason: Reason, w: ChunkWriter?)
      requires store.Valid() && count < |frames| && (writer != null ==> writer.store == store && writer.Open())
      requires Held(writer) == TakeAllFrames(store.layout, frames[..count])
      requires TempsBecame(store.layout, start, store.files.Keys, Started(store.layout, frames[..count]), {})
      modifies store`files, writer
      ensures store.Valid() && store.Chunks() == old(store.Chunks())
      ensures ok <==> && Arrives(frames[count], writeFails, ackFails)
                      && TakeAllFrames(store.layout, frames[..count + 1]).Collecting?
      ensures ok ==> && w != null && (w == writer || fresh(w)) && w.store == store && w.Open()
                     && Held(w) == TakeAllFrames(store.layout, frames[..count + 1])
      ensures !ok ==> reason == if BadFrame(frames, count + 1) then InvalidArgument else Internal
      ensures TempsBecame(store.layout, start, store.files.Keys, Started(store.layout, frames[..count + 1]),
                          if ok then {} else FailedOn(store.layout, frames, count + 1))
    {
      TakeNextFrame(store.layout, frames, count);
      OneMoreTemp(store.layout, frames, count);
      BadFrameIff(store.layout, frames, count);
      ghost var before := store.files.Keys;
      ok, reason, w := TakeFrame(writer, frames[count], writeFails, ackFails);
      TempsJoin(store.layout, start, before, store.files.Keys, Started(store.layout, frames[..count]),
                Starts(store.layout, frames[count]), if ok then {} else FailedOn(store.layout, frames, count + 1));
    }

    /** Takes frames up to the first one marked last, acknowledging those before it. */
    method CollectFrames(frames: seq<RepFrame>, writeFails: nat -> bool, ackFails: nat -> bool)
      returns (ok: bool, reason: Reason, count: nat, writer: ChunkWriter?)
      requires store.Valid()
      modifies store`files
      ensures store.Valid() && store.Chunks() == old(store.Chunks())
      ensures count == Taken(store.layout, frames, writeFails, ackFails)
      ensures ok == Fine(store.layout, frames, writeFails, ackFails, count)
      ensures ok ==> && Held(writer) == TakeAllFrames(store.layout, frames[..count])
                     && (writer != null ==> fresh(writer) && writer.store == store && writer.Open())
      ensures !ok ==> count > 0 && reason == if BadFrame(frames, count) then InvalidArgument else Internal
      ensures TempsBecame(store.layout, old(store.files.Keys), store.files.Keys, Started(store.layout, frames[..count]),
                          if ok then {} else FailedOn(store.layout, frames, count))
    {
      writer, count := null, 0;
      SameTemps(store.layout, store.files.Keys);
      NothingTaken(store.layout, frames, writeFails, ackFails);
      while count < |frames| && (count == 0 || !frames[count - 1].isLast)
        invariant SoFar(store.layout, frames, writeFails, ackFails, count)
        invariant store.Valid() && store.Chunks() == old(store.Chunks())
        invariant writer != null ==> fresh(writer) && writer.store == store && writer.Open()
        invariant Held(writer) == TakeAllFrames(store.layout, frames[..count])
        invariant TempsBecame(store.layout, old(store.files.Keys), store.files.Keys,
                              Started(store.layout, frames[..count]), {})
        decreases |frames| - count
      {
        OneMoreFrame(store.layout, frames, writeFails, ackFails, count);
        ok, reason, writer := CollectNext(frames, count, writer, writeFails(count), ackFails(count),
                                          old(store.files.Keys));
        count := count + 1;
        if !ok { return; }
      }
      AllTaken(store.layout, frames, writeFails, ackFails, count);
      ok, reason := true, Internal;
    }

    /** The outcome of a stream that reaches its commit holding `h`, or, with nothing to commit, does not reach it:
        a commit that fits succeeds unless its checksum cannot be recorded, and nothing else changes. */
    ghost predicate Ends(r: RepResult, h: Receiver, putFails: bool, chunks: map<string, Bytes>,
                         recorded: map<string, Bytes>)
      reads store
    {
      if !h.Collecting? || !store.RoomFor(chunks, h.id, |h.got|) then
        !r.Replicated? && store.Unchanged(chunks, recorded)
      else if putFails then
        !r.Replicated? && store.HalfCommitted(chunks, recorded, h.id, h.got)
      else
        r.Replicated? && r.checksum == store.hash(h.got) && store.Committed(chunks, recorded, h.id, h.got)
    }

    /** Commits what a writer holds, under the checksum computed on the way. */
    method CommitHeld(writer: ChunkWriter, putFails: bool) returns (r: RepResult)
      requires store.Valid() && writer.store == store && writer.Open() && |writer.hashed| < MAX_LENGTH
      modifies writer`isDone, store`files, store`index, store`usedSpace
      ensures Ends(r, old(Held(writer)), putFails, old(store.Chunks()), old(store.index)) && !r.ClosedEarly?
      ensures r != RepRefused(InvalidArgument)
      ensures TempsBecame(store.layout, old(store.files.Keys), store.files.Keys, {}, {writer.chunkID})
    {
      var checksum := store.hash(writer.hashed);
      var done := writer.Finalize(checksum, putFails);
      return if done then Replicated(checksum) else RepRefused(Internal);
    }

    /** The stream ended without a frame marked last. After a clean close the temporary file stays. */
    method EndStream(writer: ChunkWriter?, ending: Ending) returns (r: RepResult)
      requires store.Valid() && (writer != null ==> writer.store == store && writer.Open())
      modifies writer, store`files
      ensures Ends(r, Waiting, false, old(store.Chunks()), old(store.index))
      ensures r.ClosedEarly? <==> ending.Eof? && writer != null
      ensures r == RepRefused(InvalidArgument) <==> ending.Eof? && writer == null
      ensures TempsBecame(store.layout, old(store.files.Keys), store.files.Keys, {},
                          if ending.Broken? then NameOf(old(Held(writer))) else {})
    {
      SameTemps(store.layout, store.files.Keys);
      if ending.Broken? {
        if writer != null { writer.Abort(); }
        return RepRefused(Internal);
      }
      return if writer == null then RepRefused(InvalidArgument) else ClosedEarly;
    }

    /** Commits at a frame marked last; otherwise the stream has ended. */
    method Conclude(writer: ChunkWriter?, isLast: bool, ending: Ending, putFails: bool) returns (r: RepResult)
      requires store.Valid() && (writer != null ==> writer.store == store && writer.Open())
      requires (isLast ==> writer != null) && |Got(Held(writer))| < MAX_LENGTH
      modifies writer, store`files, store`index, store`usedSpace
      ensures Ends(r, if isLast then old(Held(writer)) else Waiting, putFails, old(store.Chunks()), old(store.index))
      ensures r.ClosedEarly? <==> !isLast && ending.Eof? && writer != null
      ensures r == RepRefused(InvalidArgument) <==> !isLast && ending.Eof? && writer == null
      ensures TempsBecame(store.layout, old(store.files.Keys), store.files.Keys, {},
                          if isLast || ending.Broken? then NameOf(old(Held(writer))) else {})
    {
      if isLast {
        r := CommitHeld(writer, putFails);
      } else {
        r := EndStream(writer, ending);
      }
    }

    /** A replication stream commits exactly what it has collected at its first frame marked last, and nothing
        otherwise; a clean close before that is answered without error. Of the temporary files it started,
        exactly one is removed or none. */
    method ReplicateChunk(frames: seq<RepFrame>, ending: Ending, writeFails: nat -> bool, ackFails: nat -> bool,
                          putFails: bool)
      returns (r: RepResult)
      requires store.Valid() && TotalBytes(frames) < MAX_LENGTH
      modifies store`files, store`index, store`usedSpace
      ensures Ends(r, ToCommit(store.layout, frames, writeFails, ackFails), putFails, old(store.Chunks()),
                   old(store.index))
      ensures r.ClosedEarly? <==> ClosesEarly(store.layout, frames, ending, writeFails, ackFails)
      ensures r == RepRefused(InvalidArgument) <==> BadStream(store.layout, frames, ending, writeFails, ackFails)
      ensures TempsBecame(store.layout, old(store.files.Keys), store.files.Keys,
                          StartedBy(store.layout, frames, writeFails, ackFails),
                          Cleaned(store.layout, frames, ending, writeFails, ackFails))
    {
      var ok, reason, count, writer := CollectFrames(frames, writeFails, ackFails);
      StreamOutcome(store.layout, frames, ending, writeFails, ackFails);
      if !ok { return RepRefused(reason); }
      ghost var collected, held := store.files.Keys, Held(writer);
      var isLast := count > 0 && frames[count - 1].isLast;
      r := Conclude(writer, isLast, ending, putFails);
      TempsThen(store.layout, old(store.files.Keys), collected, store.files.Keys,
                Started(store.layout, frames[..count]), if isLast || ending.Broken? then NameOf(held) else {});
    }
  }

  // ----- How far a replication stream is taken -----

  /** The first `n` frames were written, acknowledged and accepted. */
  ghost predicate Fine(layout: Layout, frames: seq<RepFrame>, writeFails: nat -> bool, ackFails: nat -> bool, n: nat)
    requires n <= |frames|
  {
    AllArrive(frames, writeFails, ackFails, n) && !TakeAllFrames(layout, frames[..n]).GaveUp?
  }

  /** Frame `n - 1` is the last one looked at. */
  ghost predicate StopsAfter(layout: Layout, frames: seq<RepFrame>, writeFails: nat -> bool, ackFails: nat -> bool,
                             n: nat)
    requires n <= |frames|
  {
    n > 0 && (frames[n - 1].isLast || !Fine(layout, frames, writeFails, ackFails, n))
  }

  ghost predicate NoneStops(layout: Layout, frames: seq<RepFrame>, writeFails: nat -> bool, ackFails: nat -> bool,
                            n: nat)
    requires n <= |frames|
  {
    forall k :: 0 <= k < n ==> !StopsAfter(layout, frames, writeFails, ackFails, k)
  }

  ghost function TakenFrom(layout: Layout, frames: seq<RepFrame>, writeFails: nat -> bool, ackFails: nat -> bool,
                           n: nat): (r: nat)
    requires n <= |frames|
    ensures n <= r <= |frames| && (r == |frames| || StopsAfter(layout, frames, writeFails, ackFails, r))
    decreases |frames| - n
  {
    if n == |frames| || StopsAfter(layout, frames, writeFails, ackFails, n) then n
    else TakenFrom(layout, frames, writeFails, ackFails, n + 1)
  }

  /** How many frames are looked at: up to the first that fails or is marked last. */
  ghost function Taken(layout: Layout, frames: seq<RepFrame>, writeFails: nat -> bool, ackFails: nat -> bool): nat {
    TakenFrom(layout, frames, writeFails, ackFails, 0)
  }

  lemma {:induction false} TakenIs(layout: Layout, frames: seq<RepFrame>, writeFails: nat -> bool,
                                   ackFails: nat -> bool, k: nat, n: nat)
    requires k <= n <= |frames| && NoneStops(layout, frames, writeFails, ackFails, n)
    requires n == |frames| || StopsAfter(layout, frames, writeFails, ackFails, n)
    ensures TakenFrom(layout, frames, writeFails, ackFails, k) == n
    decreases n - k
  {
    if k < n { TakenIs(layout, frames, writeFails, ackFails, k + 1, n); }
  }

  lemma {:induction false} TakenNoneStops(layout: Layout, frames: seq<RepFrame>, writeFails: nat -> bool,
                                          ackFails: nat -> bool, k: nat)
    requires k <= |frames| && NoneStops(layout, frames, writeFails, ackFails, k)
    ensures NoneStops(layout, frames, writeFails, ackFails, TakenFrom(layout, frames, writeFails, ackFails, k))
    decreases |frames| - k
  {
    if k < |frames| && !StopsAfter(layout, frames, writeFails, ackFails, k) {
      TakenNoneStops(layout, frames, writeFails, ackFails, k + 1);
    }
  }

  /** The stream went well for `n` frames and no earlier frame was the end of it. */
  ghost predicate SoFar(layout: Layout, frames: seq<RepFrame>, writeFails: nat -> bool, ackFails: nat -> bool, n: nat) {
    && n <= |frames| && Fine(layout, frames, writeFails, ackFails, n)
    && NoneStops(layout, frames, writeFails, ackFails, n)
  }

  lemma NothingTaken(layout: Layout, frames: seq<RepFrame>, writeFails: nat -> bool, ackFails: nat -> bool)
    ensures frames[..0] == [] && SoFar(layout, frames, writeFails, ackFails, 0)
    ensures Started(layout, frames[..0]) == {}
  {}

  lemma AllTaken(layout: Layout, frames: seq<RepFrame>, writeFails: nat -> bool, ackFails: nat -> bool, n: nat)
    requires SoFar(layout, frames, writeFails, ackFails, n)
    requires n == |frames| || (n > 0 && frames[n - 1].isLast)
    ensures Taken(layout, frames, writeFails, ackFails) == n && Fine(layout, frames, writeFails, ackFails, n)
  {
    TakenIs(layout, frames, writeFails, ackFails, 0, n);
  }

  lemma OneMoreFine(layout: Layout, frames: seq<RepFrame>, writeFails: nat -> bool, ackFails: nat -> bool, n: nat)
    requires n < |frames| && Fine(layout, frames, writeFails, ackFails, n)
    ensures TakeAllFrames(layout, frames[..n + 1]) == Take(layout, TakeAllFrames(layout, frames[..n]), frames[n])
    ensures Fine(layout, frames, writeFails, ackFails, n + 1) <==>
              && Arrives(frames[n], writeFails(n), ackFails(n))
              && Take(layout, TakeAllFrames(layout, frames[..n]), frames[n]).Collecting?
  {
    TakeNextFrame(layout, frames, n);
  }

  /** One more frame either keeps the stream going or is where it ends. */
  lemma OneMoreFrame(layout: Layout, frames: seq<RepFrame>, writeFails: nat -> bool, ackFails: nat -> bool, n: nat)
    requires n < |frames| && SoFar(layout, frames, writeFails, ackFails, n) && (n > 0 ==> !frames[n - 1].isLast)
    ensures TakeAllFrames(layout, frames[..n + 1]) == Take(layout, TakeAllFrames(layout, frames[..n]), frames[n])
    ensures if && Arrives(frames[n], writeFails(n), ackFails(n))
               && Take(layout, TakeAllFrames(layout, frames[..n]), frames[n]).Collecting?
            then SoFar(layout, frames, writeFails, ackFails, n + 1)
            else && Taken(layout, frames, writeFails, ackFails) == n + 1
                 && !Fine(layout, frames, writeFails, ackFails, n + 1)
  {
    OneMoreFine(layout, frames, writeFails, ackFails, n);
    if !Fine(layout, frames, writeFails, ackFails, n + 1) {
      TakenIs(layout, frames, writeFails, ackFails, 0, n + 1);
    }
  }

  lemma OneMoreTemp(layout: Layout, frames: seq<RepFrame>, n: nat)
    requires n < |frames|
    ensures Started(layout, frames[..n + 1]) == Started(layout, frames[..n]) + Starts(layout, frames[n])
    ensures FailedOn(layout, frames, n + 1) == NameOf(Begun(layout, TakeAllFrames(layout, frames[..n]), frames[n]))
  {
    TakeNext(frames, n);
    StartedSnoc(layout, frames[..n], frames[n]);
  }

  // ----- The temporary files of a replication stream -----

  function NameOf(r: Receiver): set<string> {
    if r.Collecting? then {r.id} else {}
  }

  /** The temporary file a frame starts. */
  function Starts(layout: Layout, f: RepFrame): set<string> {
    if f.isFirst && Legal(layout, f.chunkID) then {f.chunkID} else {}
  }

  function Started(layout: Layout, frames: seq<RepFrame>): set<string> {
    set f | f in frames && f.isFirst && Legal(layout, f.chunkID) :: f.chunkID
  }

  lemma StartedSnoc(layout: Layout, frames: seq<RepFrame>, f: RepFrame)
    ensures Started(layout, frames + [f]) == Started(layout, frames) + Starts(layout, f)
  {}

  /** The chunk whose writer the failing frame `n - 1` aborts. */
  function FailedOn(layout: Layout, frames: seq<RepFrame>, n: nat): set<string>
    requires n <= |frames|
  {
    if n == 0 then {} else NameOf(Begun(layout, TakeAllFrames(layout, frames[..n - 1]), frames[n - 1]))
  }

  /** The stream is closed cleanly while a chunk is being collected. */
  ghost predicate ClosesEarly(layout: Layout, frames: seq<RepFrame>, ending: Ending, writeFails: nat -> bool,
                              ackFails: nat -> bool)
  {
    var n := Taken(layout, frames, writeFails, ackFails);
    n > 0 && ending.Eof? && Fine(layout, frames, writeFails, ackFails, n) && !frames[n - 1].isLast
  }

  /** The temporary files a stream creates: one for every legal first frame looked at. */
  ghost function StartedBy(layout: Layout, frames: seq<RepFrame>, writeFails: nat -> bool,
                           ackFails: nat -> bool): set<string>
  {
    Started(layout, frames[..Taken(layout, frames, writeFails, ackFails)])
  }

  /** The temporary files a stream removes: that of the current writer when a frame fails, on a commit, whatever
      its outcome, and when the stream breaks; none after a clean close. */
  ghost function Cleaned(layout: Layout, frames: seq<RepFrame>, ending: Ending, writeFails: nat -> bool,
                         ackFails: nat -> bool): set<string>
  {
    var n := Taken(layout, frames, writeFails, ackFails);
    if !Fine(layout, frames, writeFails, ackFails, n) then FailedOn(layout, frames, n)
    else if ending.Broken? || (n > 0 && frames[n - 1].isLast) then NameOf(TakeAllFrames(layout, frames[..n]))
    else {}
  }

  /** A chunk being collected was started. */
  lemma {:induction false} HeldWasStarted(layout: Layout, frames: seq<RepFrame>, n: nat)
    requires n <= |frames|
    ensures NameOf(TakeAllFrames(layout, frames[..n])) <= Started(layout, frames[..n])
  {
    if n > 0 {
      HeldWasStarted(layout, frames, n - 1);
      TakeNextFrame(layout, frames, n - 1);
      OneMoreTemp(layout, frames, n - 1);
    }
  }

  /** Before the frame at which a stream stops, all was well. */
  lemma FineBefore(layout: Layout, frames: seq<RepFrame>, writeFails: nat -> bool, ackFails: nat -> bool)
    ensures var n := Taken(layout, frames, writeFails, ackFails);
            n > 0 ==> Fine(layout, frames, writeFails, ackFails, n - 1)
  {
    var n := Taken(layout, frames, writeFails, ackFails);
    TakenNoneStops(layout, frames, writeFails, ackFails, 0);
    NothingTaken(layout, frames, writeFails, ackFails);
    if n > 0 { assert !StopsAfter(layout, frames, writeFails, ackFails, n - 1); }
  }

  /** The last frame looked at is a first frame under an illegal id. */
  ghost predicate EndsOnIllegalStart(layout: Layout, frames: seq<RepFrame>, n: nat)
    requires n <= |frames|
  {
    n > 0 && frames[n - 1].isFirst && !Legal(layout, frames[n - 1].chunkID)
  }

  lemma FailureCleans(layout: Layout, frames: seq<RepFrame>, n: nat)
    requires 0 < n <= |frames| && !TakeAllFrames(layout, frames[..n - 1]).GaveUp?
    ensures FailedOn(layout, frames, n) <= Started(layout, frames[..n])
    ensures FailedOn(layout, frames, n) == {} <==>
              Started(layout, frames[..n]) == {} || EndsOnIllegalStart(layout, frames, n)
  {
    HeldWasStarted(layout, frames, n - 1);
    OneMoreTemp(layout, frames, n - 1);
    if n == 1 {
      assert frames[..0] == [];
    } else {
      NeverWaiting(layout, frames, n - 1);
    }
  }

  /** A stream leaves no temporary file behind if and only if it started none, or all its first frames name the same
      chunk and it ends neither by a clean close without a frame marked last nor on an illegal first frame. */
  lemma LeavesNoTempIff(layout: Layout, frames: seq<RepFrame>, ending: Ending, writeFails: nat -> bool,
                        ackFails: nat -> bool)
    ensures var n := Taken(layout, frames, writeFails, ackFails);
            var started := StartedBy(layout, frames, writeFails, ackFails);
            started <= Cleaned(layout, frames, ending, writeFails, ackFails) <==>
              (started != {} ==>
                 && (forall a, b :: a in started && b in started ==> a == b)
                 && !ClosesEarly(layout, frames, ending, writeFails, ackFails)
                 && !EndsOnIllegalStart(layout, frames, n))
  {
    var n := Taken(layout, frames, writeFails, ackFails);
    StreamOutcome(layout, frames, ending, writeFails, ackFails);
    FineBefore(layout, frames, writeFails, ackFails);
    if n == 0 {
      NothingTaken(layout, frames, writeFails, ackFails);
    } else {
      HeldWasStarted(layout, frames, n);
      FailureCleans(layout, frames, n);
      NeverWaiting(layout, frames, n);
      TakeNextFrame(layout, frames, n - 1);
    }
  }

  /** One first frame and a clean close: the temporary file stays. */
  lemma CleanCloseLeavesTemp(layout: Layout, id: string, data: Bytes)
    requires Legal(layout, id)
    ensures var frames, never := [RepFrame(id, data, true, false)], (i: nat) => false;
            && StartedBy(layout, frames, never, never) == {id} && Cleaned(layout, frames, Eof, never, never) == {}
  {
    var frames, never := [RepFrame(id, data, true, false)], (i: nat) => false;
    OneFrame(layout, frames, never, never);
    AllTaken(layout, frames, never, never, 1);
    OneMoreTemp(layout, frames, 0);
  }

  lemma OneFrame(layout: Layout, frames: seq<RepFrame>, writeFails: nat -> bool, ackFails: nat -> bool)
    requires |frames| == 1 && frames[0].isFirst && Legal(layout, frames[0].chunkID)
    requires Arrives(frames[0], writeFails(0), ackFails(0))
    ensures frames[..0] == [] && SoFar(layout, frames, writeFails, ackFails, 1)
  {
    NothingTaken(layout, frames, writeFails, ackFails);
    OneMoreFrame(layout, frames, writeFails, ackFails, 0);
  }

  /** The stream reaches a frame marked last, having arrived in full and still collecting. */
  ghost predicate Commits(layout: Layout, frames: seq<RepFrame>, writeFails: nat -> bool, ackFails: nat -> bool) {
    && FirstLast(frames) < |frames| && AllArrive(frames, writeFails, ackFails, FirstLast(frames) + 1)
    && Collected(layout, frames).Collecting?
  }

  /** Whether a stream commits can be told from how far it is taken. */
  lemma CommitsIff(layout: Layout, frames: seq<RepFrame>, writeFails: nat -> bool, ackFails: nat -> bool)
    ensures var n := Taken(layout, frames, writeFails, ackFails);
            var commits := Fine(layout, frames, writeFails, ackFails, n) && n > 0 && frames[n - 1].isLast;
            && (Commits(layout, frames, writeFails, ackFails) <==> commits)
            && (commits ==> Collected(layout, frames) == TakeAllFrames(layout, frames[..n]))
            && |Got(TakeAllFrames(layout, frames[..n]))| <= TotalBytes(frames)
  {
    var n := Taken(layout, frames, writeFails, ackFails);
    TakenNoneStops(layout, frames, writeFails, ackFails, 0);
    NoneLastTaken(layout, frames, writeFails, ackFails, n);
    GotBounded(layout, frames, n);
    if Fine(layout, frames, writeFails, ackFails, n) {
      FoundFirstLast(layout, frames, n);
      if n > 0 { NeverWaiting(layout, frames, n); }
    } else {
      NoSecondChance(layout, frames, writeFails, ackFails, n);
    }
  }

  /** What a stream commits: what the receiver holds at the first frame marked last, if all went well until then. */
  ghost function ToCommit(layout: Layout, frames: seq<RepFrame>, writeFails: nat -> bool,
                          ackFails: nat -> bool): Receiver
  {
    if Commits(layout, frames, writeFails, ackFails) then Collected(layout, frames) else Waiting
  }

  /** What a stream comes to, told from how far it is taken and what the receiver then holds. */
  lemma StreamOutcome(layout: Layout, frames: seq<RepFrame>, ending: Ending, writeFails: nat -> bool,
                      ackFails: nat -> bool)
    ensures var n := Taken(layout, frames, writeFails, ackFails);
            var held, isLast := TakeAllFrames(layout, frames[..n]), n > 0 && frames[n - 1].isLast;
            var cleaned := Cleaned(layout, frames, ending, writeFails, ackFails);
            if Fine(layout, frames, writeFails, ackFails, n) then
              && ToCommit(layout, frames, writeFails, ackFails) == (if isLast then held else Waiting)
              && |Got(held)| <= TotalBytes(frames) && (held.Collecting? <==> n > 0)
              && cleaned == if isLast || ending.Broken? then NameOf(held) else {}
            else
              ToCommit(layout, frames, writeFails, ackFails).Waiting? && cleaned == FailedOn(layout, frames, n)
  {
    CommitsIff(layout, frames, writeFails, ackFails);
    var n := Taken(layout, frames, writeFails, ackFails);
    if n > 0 { NeverWaiting(layout, frames, n); }
  }

  lemma NoneLastTaken(layout: Layout, frames: seq<RepFrame>, writeFails: nat -> bool, ackFails: nat -> bool, n: nat)
    requires n <= |frames| && NoneStops(layout, frames, writeFails, ackFails, n)
    ensures NoneLastBefore(frames, n)
    ensures Fine(layout, frames, writeFails, ackFails, 0)
  {
    forall i | 0 <= i < n - 1 ensures !frames[i].isLast {
      assert !StopsAfter(layout, frames, writeFails, ackFails, i + 1);
    }
  }

  lemma NeverWaiting(layout: Layout, frames: seq<RepFrame>, count: nat)
    requires 0 < count <= |frames|
    ensures !TakeAllFrames(layout, frames[..count]).Waiting?
  {
    TakeNextFrame(layout, frames, count - 1);
  }

  function Got(r: Receiver): Bytes {
    if r.Collecting? then r.got else []
  }

  /** What the receiver holds when it reaches the first frame marked last. */
  function Collected(layout: Layout, frames: seq<RepFrame>): Receiver {
    if FirstLast(frames) < |frames| then TakeAllFrames(layout, frames[..FirstLast(frames) + 1]) else Waiting
  }

  /** The first `count` frames could be written and, except for one marked last, acknowledged. */
  ghost predicate AllArrive(frames: seq<RepFrame>, writeFails: nat -> bool, ackFails: nat -> bool, count: nat)
    requires count <= |frames|
  {
    forall i: nat :: i < count ==> Arrives(frames[i], writeFails(i), ackFails(i))
  }

  predicate Arrives(f: RepFrame, writeFails: bool, ackFails: bool) {
    (f.data != [] ==> !writeFails) && (!f.isLast ==> !ackFails)
  }

  ghost predicate NoneLastBefore(frames: seq<RepFrame>, count: nat)
    requires count <= |frames|
  {
    forall i :: 0 <= i < count - 1 ==> !frames[i].isLast
  }

  lemma FoundFirstLast(layout: Layout, frames: seq<RepFrame>, count: nat)
    requires count <= |frames| && NoneLastBefore(frames, count)
    requires count == |frames| || (count > 0 && frames[count - 1].isLast)
    ensures if count > 0 && frames[count - 1].isLast
            then FirstLast(frames) == count - 1 && Collected(layout, frames) == TakeAllFrames(layout, frames[..count])
            else FirstLast(frames) == |frames|
    ensures |Got(TakeAllFrames(layout, frames[..count]))| <= TotalBytes(frames)
  {
    GotBounded(layout, frames, count);
  }

  function TotalBytes(frames: seq<RepFrame>): nat {
    if |frames| == 0 then 0 else TotalBytes(frames[..|frames| - 1]) + |frames[|frames| - 1].data|
  }

  lemma {:induction false} GotBounded(layout: Layout, frames: seq<RepFrame>, n: nat)
    requires n <= |frames|
    ensures |Got(TakeAllFrames(layout, frames[..n]))| <= TotalBytes(frames)
    decreases |frames|
  {
    if n < |frames| {
      GotBounded(layout, frames[..|frames| - 1], n);
      assert frames[..|frames| - 1][..n] == frames[..n];
    } else if n > 0 {
      GotBounded(layout, frames[..n - 1], n - 1);
      assert frames[..n - 1][..n - 1] == frames[..n - 1];
      TakeNextFrame(layout, frames, n - 1);
    }
  }

  lemma TakeNextFrame(layout: Layout, frames: seq<RepFrame>, i: nat)
    requires i < |frames|
    ensures TakeAllFrames(layout, frames[..i + 1]) == Take(layout, TakeAllFrames(layout, frames[..i]), frames[i])
  {
    assert frames[..i + 1][..i] == frames[..i];
  }

  /** The first frame that frame `i` belongs to. */
  ghost function StartOf(frames: seq<RepFrame>, i: nat): (s: nat)
    requires i < |frames|
    ensures s <= i && (s == 0 || frames[s].isFirst) && forall k :: s < k <= i ==> !frames[k].isFirst
  {
    if frames[i].isFirst || i == 0 then i else StartOf(frames, i - 1)
  }

  ghost function Joined(frames: seq<RepFrame>, a: nat, b: nat): Bytes
    requires a <= b <= |frames|
    decreases b
  {
    if a == b then [] else Joined(frames, a, b - 1) + frames[b - 1].data
  }

  /** A first frame opens the stream, every first frame names a legal chunk, and the frames that follow name that chunk
      or none. */
  ghost predicate Consistent(layout: Layout, frames: seq<RepFrame>, n: nat)
    requires n <= |frames|
  {
    && n > 0 && frames[0].isFirst
    && forall i :: 0 <= i < n ==>
         var id := frames[StartOf(frames, i)].chunkID;
         Legal(layout, id) && (frames[i].chunkID == id || (frames[i].chunkID == "" && !frames[i].isFirst))
  }

  /** A receiver is collecting exactly if the stream so far is consistent, and then it holds what came since the last
      first frame, under the id named there. */
  lemma {:induction false} CollectsExactly(layout: Layout, frames: seq<RepFrame>, n: nat)
    requires n <= |frames|
    ensures var r := TakeAllFrames(layout, frames[..n]);
            && (r.Collecting? <==> Consistent(layout, frames, n))
            && (r.Waiting? <==> n == 0)
            && (r.Collecting? ==> r.id == frames[StartOf(frames, n - 1)].chunkID
                                  && r.got == Joined(frames, StartOf(frames, n - 1), n))
  {
    if n > 0 {
      CollectsExactly(layout, frames, n - 1);
      TakeNextFrame(layout, frames, n - 1);
      if frames[n - 1].isFirst { assert Joined(frames, n - 1, n) == [] + frames[n - 1].data; }
    }
  }

  /** Frame `n - 1` is wrong where it stands: a stream opens with a first frame, a first frame names a chunk, and other
      frames name that chunk or none. */
  ghost predicate BadFrame(frames: seq<RepFrame>, n: nat)
    requires 0 < n <= |frames|
  {
    var f := frames[n - 1];
    || (f.isFirst && f.chunkID == "")
    || (!f.isFirst && n == 1)
    || (!f.isFirst && f.chunkID != "" && f.chunkID != frames[StartOf(frames, n - 1)].chunkID)
  }

  lemma BadFrameIff(layout: Layout, frames: seq<RepFrame>, n: nat)
    requires n < |frames| && !TakeAllFrames(layout, frames[..n]).GaveUp?
    ensures WrongFrame(TakeAllFrames(layout, frames[..n]), frames[n]) <==> BadFrame(frames, n + 1)
  {
    CollectsExactly(layout, frames, n);
  }

  /** The sender is to blame: the frame at which the stream is given up is wrong, or no frame ever came. */
  ghost predicate BadStream(layout: Layout, frames: seq<RepFrame>, ending: Ending, writeFails: nat -> bool,
                            ackFails: nat -> bool)
  {
    var n := Taken(layout, frames, writeFails, ackFails);
    if Fine(layout, frames, writeFails, ackFails, n) then frames == [] && ending.Eof? else n > 0 && BadFrame(frames, n)
  }

  lemma {:induction false} StaysGivenUp(layout: Layout, frames: seq<RepFrame>, i: nat, j: nat)
    requires i <= j <= |frames| && TakeAllFrames(layout, frames[..i]).GaveUp?
    ensures TakeAllFrames(layout, frames[..j]).GaveUp?
    decreases j
  {
    if i < j {
      StaysGivenUp(layout, frames, i, j - 1);
      TakeNextFrame(layout, frames, j - 1);
    }
  }

  /** A stream that failed before its first frame marked last cannot be committed there. */
  lemma NoSecondChance(layout: Layout, frames: seq<RepFrame>, writeFails: nat -> bool, ackFails: nat -> bool,
                       count: nat)
    requires 0 < count <= |frames| && NoneLastBefore(frames, count)
    requires !AllArrive(frames, writeFails, ackFails, count) || TakeAllFrames(layout, frames[..count]).GaveUp?
    ensures FirstLast(frames) < |frames| ==>
              !AllArrive(frames, writeFails, ackFails, FirstLast(frames) + 1) || Collected(layout, frames).GaveUp?
  {
    if FirstLast(frames) < |frames| && TakeAllFrames(layout, frames[..count]).GaveUp? {
      StaysGivenUp(layout, frames, count, FirstLast(frames) + 1);
    }
  }
}
