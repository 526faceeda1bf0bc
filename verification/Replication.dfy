/** Copying a stored chunk from node to node. */
module Replication {
  import opened Records
  import opened Seqs
  import opened DiskStores
  import opened ChunkFiles
  import opened StorageServers

  /** The frames of a copy: those of the chunk file, the first one marked first. */
  function CopyFrames(chunkID: string, frames: seq<Frame>): seq<RepFrame> {
    seq(|frames|, i requires 0 <= i < |frames| => RepFrame(chunkID, frames[i].data, i == 0, frames[i].isLast))
  }

  lemma {:induction false} PayloadNext(frames: seq<Frame>, n: nat)
    requires n < |frames|
    ensures Payload(frames[..n + 1]) == Payload(frames[..n]) + frames[n].data
  {
    TakeNext(frames, n);
    PayloadSnoc(frames[..n], frames[n]);
  }

  /** After `n` frames the receiver holds their payload. */
  lemma {:induction false} CopyCollects(layout: Layout, chunkID: string, frames: seq<Frame>, n: nat)
    requires Legal(layout, chunkID) && 0 < n <= |frames|
    ensures TakeAllFrames(layout, CopyFrames(chunkID, frames)[..n]) == Collecting(chunkID, Payload(frames[..n]))
  {
    var copy := CopyFrames(chunkID, frames);
    TakeNextFrame(layout, copy, n - 1);
    PayloadNext(frames, n - 1);
    if n == 1 {
      assert copy[..0] == [] && frames[..0] == [];
    } else {
      CopyCollects(layout, chunkID, frames, n - 1);
    }
  }

  lemma {:induction false} CopyBytes(chunkID: string, frames: seq<Frame>, n: nat)
    requires n <= |frames|
    ensures TotalBytes(CopyFrames(chunkID, frames)[..n]) == |Payload(frames[..n])| <= |Payload(frames)|
  {
    var copy := CopyFrames(chunkID, frames);
    if n == 0 {
      assert copy[..0] == [] && frames[..0] == [];
    } else {
      CopyBytes(chunkID, frames, n - 1);
      PayloadNext(frames, n - 1);
      assert copy[..n][..n - 1] == copy[..n - 1];
    }
    PayloadPrefix(frames, n);
  }

  lemma {:induction false} PayloadPrefix(frames: seq<Frame>, n: nat)
    requires n <= |frames|
    ensures |Payload(frames[..n])| <= |Payload(frames)|
    decreases |frames| - n
  {
    if n == |frames| {
      TakeAll(frames);
    } else {
      PayloadPrefix(frames, n + 1);
      PayloadNext(frames, n);
    }
  }

  /** What a receiver makes of the first `n` frames of a copy: the whole chunk if they are all there and there are
      any, and nothing otherwise. */
  lemma CopyDelivers(layout: Layout, chunkID: string, data: Bytes, hash: Bytes -> Bytes, n: nat)
    requires n <= |Frames(data, DEFAULT_FRAME_SIZE, hash)|
    ensures var frames := Frames(data, DEFAULT_FRAME_SIZE, hash);
            var received := CopyFrames(chunkID, frames)[..n];
            && (FirstLast(received) < |received| <==> n == |frames| && data != [])
            && (FirstLast(received) < |received| && Legal(layout, chunkID) ==>
                  Collected(layout, received) == Collecting(chunkID, data))
            && TotalBytes(received) <= |data|
  {
    var frames := Frames(data, DEFAULT_FRAME_SIZE, hash);
    var received := CopyFrames(chunkID, frames)[..n];
    FramesExact(data, DEFAULT_FRAME_SIZE, hash);
    CopyBytes(chunkID, frames, n);
    assert forall i :: 0 <= i < n ==> (received[i].isLast <==> i == |frames| - 1);
    if FirstLast(received) < |received| && Legal(layout, chunkID) {
      CopyCollects(layout, chunkID, frames, n);
      TakeAll(received);
      TakeAll(frames);
    }
  }

  /** The first frames of a copy of a chunk. */
  ghost predicate IsCopyOf(sent: seq<RepFrame>, chunkID: string, data: Bytes, hash: Bytes -> Bytes) {
    var all := CopyFrames(chunkID, Frames(data, DEFAULT_FRAME_SIZE, hash));
    |sent| <= |all| && sent == all[..|sent|]
  }

  /** A copy commits exactly if all of its frames arrive, and then it commits the data. */
  lemma CopyCommits(layout: Layout, chunkID: string, data: Bytes, hash: Bytes -> Bytes, sent: seq<RepFrame>,
                    writeFails: nat -> bool, ackFails: nat -> bool)
    requires IsCopyOf(sent, chunkID, data, hash) && chunkID != ""
    ensures Commits(layout, sent, writeFails, ackFails) <==>
              && |sent| == |Frames(data, DEFAULT_FRAME_SIZE, hash)| && data != [] && Legal(layout, chunkID)
              && AllArrive(sent, writeFails, ackFails, |sent|)
    ensures Commits(layout, sent, writeFails, ackFails) ==> Collected(layout, sent) == Collecting(chunkID, data)
    ensures TotalBytes(sent) <= |data|
  {
    CopyDelivers(layout, chunkID, data, hash, |sent|);
    CollectsLegalOnly(layout, chunkID, sent);
    LastIsFinal(chunkID, data, hash, sent);
  }

  lemma LastIsFinal(chunkID: string, data: Bytes, hash: Bytes -> Bytes, sent: seq<RepFrame>)
    requires IsCopyOf(sent, chunkID, data, hash)
    ensures FirstLast(sent) < |sent| ==> FirstLast(sent) == |sent| - 1
  {
    FramesExact(data, DEFAULT_FRAME_SIZE, hash);
  }

  /** Reads a chunk for sending, as far as the stream carries it. */
  method SendFrames(source: StorageServer, chunkID: string, carried: nat)
    returns (found: bool, sent: seq<RepFrame>, ghost all: seq<Frame>)
    ensures found <==> chunkID in source.store.Chunks()
    ensures found ==> && all == Frames(source.store.Chunks()[chunkID], DEFAULT_FRAME_SIZE, source.store.hash)
                      && |sent| == (if |all| <= carried then |all| else carried)
                      && IsCopyOf(sent, chunkID, source.store.Chunks()[chunkID], source.store.hash)
  {
    sent, all := [], [];
    var reader := source.OpenReader(chunkID);
    found := reader != null;
    if !found { return; }
    assert reader.contents[0..] == reader.contents;
    all := reader.Rest();
    var isFirst := true;
    while |sent| < carried
      invariant reader.Valid() && fresh(reader) && isFirst == (|sent| == 0) && |sent| <= carried
      invariant |sent| + |reader.Rest()| == |all| && all[|sent|..] == reader.Rest()
      invariant sent == CopyFrames(chunkID, all)[..|sent|]
      decreases carried - |sent|
    {
      var eof, frame := reader.Next();
      if eof { break; }
      assert all[|sent|] == frame;
      sent := sent + [RepFrame(chunkID, frame.data, isFirst, frame.isLast)];
      isFirst := false;
      if frame.isLast { break; }
    }
  }

  /** Copies a chunk to another node. `carried` frames get through before the stream breaks, and the final answer
      may be lost. Success means the target serves the source's bytes; a reported failure leaves the
      target as it was, or, when only the answer was lost, with the same bytes, or, when the checksum could
      not be recorded, with a half commit. */
  method ReplicateToSingleNode(source: StorageServer, target: StorageServer, chunkID: string, carried: nat,
                               answerLost: bool,
                               writeFails: nat -> bool, ackFails: nat -> bool, putFails: bool) returns (ok: bool)
    requires target.store.Valid()
    requires chunkID in source.store.Chunks() ==> |source.store.Chunks()[chunkID]| < MAX_LENGTH
    modifies target.store
    ensures ok <==> && Carried(target.store, old(target.store.Chunks()), old(source.store.Chunks()), source.store.hash,
                               chunkID, carried, writeFails, ackFails)
                    && !putFails && !answerLost
    ensures if !Carried(target.store, old(target.store.Chunks()), old(source.store.Chunks()), source.store.hash,
                        chunkID, carried, writeFails, ackFails)
            then target.store.Unchanged(old(target.store.Chunks()), old(target.store.index))
            else && chunkID in old(source.store.Chunks())
                 && var data := old(source.store.Chunks())[chunkID];
                    if putFails
                    then target.store.HalfCommitted(old(target.store.Chunks()), old(target.store.index), chunkID, data)
                    else target.store.Committed(old(target.store.Chunks()), old(target.store.index), chunkID, data)
  {
    var found, sent;
    ghost var all;
    found, sent, all := SendFrames(source, chunkID, carried);
    if !found { return false; }
    var whole := |sent| < carried || (|sent| > 0 && sent[|sent| - 1].isLast);
    var replicated := Deliver(target, chunkID, sent, if whole then Eof else Broken, writeFails, ackFails, putFails,
                              source.store.Chunks()[chunkID], source.store.hash);
    CarriedIff(target.store, old(target.store.Chunks()), old(source.store.Chunks()), source.store.hash, chunkID,
               carried, writeFails, ackFails, sent);
    ok := replicated && !answerLost;
  }

  /** The source has the chunk and it is not empty, the stream carries all of its frames, no write fails and no
      acknowledgement except perhaps the last, and the target takes the id and has room. */
  ghost predicate Carried(store: DiskStore, chunks: map<string, Bytes>, held: map<string, Bytes>, hash: Bytes -> Bytes,
                          chunkID: string, carried: nat, writeFails: nat -> bool, ackFails: nat -> bool)
  {
    && chunkID in held && held[chunkID] != []
    && var frames := Frames(held[chunkID], DEFAULT_FRAME_SIZE, hash);
       && |frames| <= carried
       && (forall i: nat :: i < |frames| ==> !writeFails(i) && (i < |frames| - 1 ==> !ackFails(i)))
       && Legal(store.layout, chunkID) && store.RoomFor(chunks, chunkID, |held[chunkID]|)
  }

  /** All frames of the copy get through and the target has room. */
  ghost predicate GetsThrough(store: DiskStore, chunks: map<string, Bytes>, chunkID: string, data: Bytes,
                              hash: Bytes -> Bytes, sent: seq<RepFrame>, writeFails: nat -> bool, ackFails: nat -> bool)
  {
    && |sent| == |Frames(data, DEFAULT_FRAME_SIZE, hash)| && data != [] && Legal(store.layout, chunkID)
    && AllArrive(sent, writeFails, ackFails, |sent|) && store.RoomFor(chunks, chunkID, |data|)
  }

  lemma CarriedIff(store: DiskStore, chunks: map<string, Bytes>, held: map<string, Bytes>, hash: Bytes -> Bytes,
                   chunkID: string, carried: nat, writeFails: nat -> bool, ackFails: nat -> bool, sent: seq<RepFrame>)
    requires chunkID in held && IsCopyOf(sent, chunkID, held[chunkID], hash)
    requires var n := |Frames(held[chunkID], DEFAULT_FRAME_SIZE, hash)|; |sent| == if n <= carried then n else carried
    ensures GetsThrough(store, chunks, chunkID, held[chunkID], hash, sent, writeFails, ackFails) <==>
              Carried(store, chunks, held, hash, chunkID, carried, writeFails, ackFails)
  {
    FramesExact(held[chunkID], DEFAULT_FRAME_SIZE, hash);
    var frames := Frames(held[chunkID], DEFAULT_FRAME_SIZE, hash);
    if |sent| == |frames| {
      forall i: nat | i < |sent| ensures Arrives(sent[i], writeFails(i), ackFails(i)) <==>
                                           !writeFails(i) && (i < |frames| - 1 ==> !ackFails(i)) {
        assert sent[i] == CopyFrames(chunkID, frames)[i];
      }
    }
  }

  /** What a target does with the first frames of a copy. */
  method Deliver(target: StorageServer, chunkID: string, sent: seq<RepFrame>, ending: Ending,
                 writeFails: nat -> bool, ackFails: nat -> bool,
                 putFails: bool, ghost data: Bytes, ghost hash: Bytes -> Bytes) returns (replicated: bool)
    requires target.store.Valid() && |data| < MAX_LENGTH && chunkID != ""
    requires IsCopyOf(sent, chunkID, data, hash)
    modifies target.store
    ensures replicated <==> !putFails && GetsThrough(target.store, old(target.store.Chunks()), chunkID, data, hash,
                                                     sent, writeFails, ackFails)
    ensures replicated ==>
              target.store.Committed(old(target.store.Chunks()), old(target.store.index), chunkID, data)
    ensures !replicated ==>
              if GetsThrough(target.store, old(target.store.Chunks()), chunkID, data, hash, sent, writeFails, ackFails)
              then target.store.HalfCommitted(old(target.store.Chunks()), old(target.store.index), chunkID, data)
              else target.store.Unchanged(old(target.store.Chunks()), old(target.store.index))
  {
    CopyCommits(target.store.layout, chunkID, data, hash, sent, writeFails, ackFails);
    var r := target.ReplicateChunk(sent, ending, writeFails, ackFails, putFails);
    replicated := r.Replicated?;
  }

  /** Only legal ids are ever collected. */
  lemma {:induction false} NamesLegal(layout: Layout, frames: seq<RepFrame>)
    ensures TakeAllFrames(layout, frames).Collecting? ==> Legal(layout, TakeAllFrames(layout, frames).id)
  {
    if |frames| > 0 { NamesLegal(layout, frames[..|frames| - 1]); }
  }

  lemma CollectsLegalOnly(layout: Layout, chunkID: string, frames: seq<RepFrame>)
    requires chunkID != "" && forall i :: 0 <= i < |frames| ==> frames[i].chunkID == chunkID
    ensures Collected(layout, frames).Collecting? ==> Legal(layout, chunkID)
  {
    var n := FirstLast(frames);
    if n < |frames| {
      NamesLegal(layout, frames[..n + 1]);
      TakeNextFrame(layout, frames, n);
    }
  }

  datatype Attempt = Attempt(address: string, ok: bool)

  /** The addresses confirmed, in the order the answers came in. */
  function Confirmed(answers: seq<Attempt>): seq<string> {
    if |answers| == 0 then []
    else
      var last := answers[|answers| - 1];
      Confirmed(answers[..|answers| - 1]) + if last.ok then [last.address] else []
  }

  /** `confirmed` are the addresses at the positions `at` of the answers, which are those of the successes. */
  ghost predicate ConfirmedAt(answers: seq<Attempt>, confirmed: seq<string>, at: seq<nat>) {
    && Increasing(at, |answers|) && |at| == |confirmed|
    && (forall k :: 0 <= k < |at| ==> confirmed[k] == answers[at[k]].address)
    && forall i :: 0 <= i < |answers| ==> (i in at <==> answers[i].ok)
  }

  /** The positions of the successes. */
  ghost function Successes(answers: seq<Attempt>): set<nat> {
    set i: nat | i < |answers| && answers[i].ok
  }

  lemma ConfirmedNext(answers: seq<Attempt>, confirmed: seq<string>, at: seq<nat>, a: Attempt)
    requires ConfirmedAt(answers, confirmed, at)
    ensures if a.ok then ConfirmedAt(answers + [a], confirmed + [a.address], at + [|answers|])
            else ConfirmedAt(answers + [a], confirmed, at)
  {
    if !a.ok { assert |answers| !in at; }
  }

  lemma SuccessesNext(answers: seq<Attempt>, a: Attempt)
    ensures Successes(answers + [a]) == Successes(answers) + if a.ok then {|answers|} else {}
  {}

  lemma {:induction false} ConfirmedExact(answers: seq<Attempt>) returns (at: seq<nat>)
    ensures ConfirmedAt(answers, Confirmed(answers), at)
  {
    at := [];
    if |answers| > 0 {
      var n := |answers| - 1;
      at := ConfirmedExact(answers[..n]);
      ConfirmedNext(answers[..n], Confirmed(answers[..n]), at, answers[n]);
      assert answers == answers[..n] + [answers[n]];
      assert Confirmed(answers[..n]) + [] == Confirmed(answers[..n]);
      if answers[n].ok { at := at + [n]; }
    }
  }

  lemma {:induction false} ConfirmedCount(answers: seq<Attempt>)
    ensures |Confirmed(answers)| == |Successes(answers)|
  {
    if |answers| > 0 {
      var n := |answers| - 1;
      ConfirmedCount(answers[..n]);
      SuccessesNext(answers[..n], answers[n]);
      assert answers == answers[..n] + [answers[n]];
    }
  }

  lemma AddressesConfirmed(answers: seq<Attempt>, confirmed: seq<string>, at: seq<nat>)
    requires ConfirmedAt(answers, confirmed, at)
    ensures forall a :: a in confirmed <==> exists i :: 0 <= i < |answers| && answers[i].ok && answers[i].address == a
  {
    forall a | a in confirmed ensures exists i :: 0 <= i < |answers| && answers[i].ok && answers[i].address == a {
      var k :| 0 <= k < |confirmed| && confirmed[k] == a;
      assert at[k] in at;
    }
    forall i | 0 <= i < |answers| && answers[i].ok ensures answers[i].address in confirmed {
      var k :| 0 <= k < |at| && at[k] == i;
      assert confirmed[k] == answers[i].address;
    }
  }

  /** Collects the answers of a fan-out that came in before the deadline: exactly the successful addresses are
      returned, in the order they came in, and the fan-out succeeds if every target answered and a majority of them
      succeeded. */
  method CollectAnswers(targets: nat, answers: seq<Attempt>)
    returns (confirmed: seq<string>, ok: bool, ghost at: seq<nat>)
    requires |answers| <= targets
    ensures ConfirmedAt(answers, confirmed, at) && confirmed == Confirmed(answers)
    ensures forall a :: a in confirmed <==> exists i :: 0 <= i < |answers| && answers[i].ok && answers[i].address == a
    ensures |confirmed| == |Successes(answers)|
    ensures ok <==> targets == 0 || (|answers| == targets && |Successes(answers)| > targets / 2)
  {
    at := ConfirmedExact(answers);
    ConfirmedCount(answers);
    AddressesConfirmed(answers, Confirmed(answers), at);
    confirmed := [];
    if targets == 0 { return [], true, at; }
    for i := 0 to |answers|
      invariant confirmed == Confirmed(answers[..i])
    {
      assert answers[..i + 1][..i] == answers[..i];
      if answers[i].ok { confirmed := confirmed + [answers[i].address]; }
    }
    TakeAll(answers);
    if |answers| < targets { return confirmed, false, at; }
    var quorum := targets / 2 + 1;
    ok := |confirmed| >= quorum;
  }
}
