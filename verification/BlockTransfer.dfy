/** One chunk from a seeder's store to a downloader's buffer, block by block. */
module BlockTransfer {
  import opened Bytes
  import opened OrderedMaps
  import opened PeerConnections
  import opened Results
  import opened SchedulerModel
  import opened SendQueues
  import opened Slicing
  import Reassembling
  import Wire

  // ---------------------------------------------------------------- the seeder

  /** The message that carries block `k`. */
  function BlockMessage(id: Bytes, index: nat, chunk: Bytes, size: nat, k: nat): Wire.WireMessage
    requires size > 0 && k < |Slices(chunk, size)|
  {
    Wire.Piece(id, index, k * size, |chunk|, Slices(chunk, size)[k])
  }

  lemma EncodesUnlessTooLong(id: Bytes, index: nat, offset: nat, total: nat, data: Bytes)
    ensures Wire.Encode(Wire.Piece(id, index, offset, total, data)).Failure? <==> |id| > Wire.MAX_ID_LENGTH
  {
  }

  /** The frame of block `k`. */
  function BlockFrame(id: Bytes, index: nat, chunk: Bytes, size: nat, k: nat): (frame: Bytes)
    requires size > 0 && k < |Slices(chunk, size)| && |id| <= Wire.MAX_ID_LENGTH
    ensures Success(frame) == Wire.Encode(BlockMessage(id, index, chunk, size, k))
  {
    EncodesUnlessTooLong(id, index, k * size, |chunk|, Slices(chunk, size)[k]);
    Wire.Encode(BlockMessage(id, index, chunk, size, k)).value
  }

  /** The frames of the first `n` blocks. */
  function Frames(id: Bytes, index: nat, chunk: Bytes, size: nat, n: nat): (frames: seq<Bytes>)
    requires size > 0 && n <= |Slices(chunk, size)| && |id| <= Wire.MAX_ID_LENGTH
    ensures |frames| == n && forall k :: 0 <= k < n ==> frames[k] == BlockFrame(id, index, chunk, size, k)
  {
    if n == 0 then [] else Frames(id, index, chunk, size, n - 1) + [BlockFrame(id, index, chunk, size, n - 1)]
  }

  /** What a REQUEST is answered with. An id too long makes the first `encodePiece` throw. */
  function Answer(id: Bytes, index: nat, chunk: Bytes, size: nat): seq<Bytes>
    requires size > 0
  {
    if |id| > Wire.MAX_ID_LENGTH then [] else Frames(id, index, chunk, size, |Slices(chunk, size)|)
  }

  lemma NothingServed(s: Connection, id: Bytes, index: nat, chunk: Bytes, size: nat, throws: nat -> bool)
    requires size > 0
    ensures SendAll(s, [], throws) == s
    ensures |id| <= Wire.MAX_ID_LENGTH ==> Frames(id, index, chunk, size, 0) == []
    ensures chunk == [] ==> |Slices(chunk, size)| == 0
  {
  }

  /** The block that starts at `offset`. */
  lemma BlockAt(id: Bytes, index: nat, chunk: Bytes, size: nat, n: nat, offset: nat)
    requires size > 0 && offset == n * size && offset < |chunk|
    ensures n < |Slices(chunk, size)| && offset + size == (n + 1) * size
    ensures BlockMessage(id, index, chunk, size, n) ==
      Wire.Piece(id, index, offset, |chunk|, chunk[offset..Min(offset + size, |chunk|)])
    ensures Wire.Encode(BlockMessage(id, index, chunk, size, n)).Failure? <==> |id| > Wire.MAX_ID_LENGTH
  {
    hide Wire.Encode, Slices;
    SlicesCount(chunk, size);
    PiecesCover(|chunk|, size, n);
    SliceAt(chunk, size, n);
    EncodesUnlessTooLong(id, index, offset, |chunk|, chunk[offset..Min(offset + size, |chunk|)]);
  }

  lemma FramesMore(id: Bytes, index: nat, chunk: Bytes, size: nat, n: nat, frame: Bytes)
    requires size > 0 && n < |Slices(chunk, size)| && |id| <= Wire.MAX_ID_LENGTH
    requires Success(frame) == Wire.Encode(BlockMessage(id, index, chunk, size, n))
    ensures Frames(id, index, chunk, size, 0) == []
    ensures Frames(id, index, chunk, size, n + 1) == Frames(id, index, chunk, size, n) + [frame]
  {
    hide Wire.Encode, Slices;
  }

  /** The loop that answers a REQUEST, frame after frame; `throws(k)` says whether the channel throws at the `k`th. */
  method ServeRequest(id: Bytes, index: nat, chunk: Bytes, size: nat, connection: WebRtcPeerConnection,
                      throws: nat -> bool)
    returns (threw: bool)
    requires size > 0
    modifies connection
    ensures threw <==> chunk != [] && |id| > Wire.MAX_ID_LENGTH
    ensures connection.State() == SendAll(old(connection.State()), Answer(id, index, chunk, size), throws)
  {
    hide Wire.Encode, Send, SendAll, Slices, BlockMessage, BlockFrame, Frames;
    ghost var before := connection.State();
    var n: nat := 0;
    ghost var sent := [];
    var offset := 0;
    NothingServed(before, id, index, chunk, size, throws);
    while offset < |chunk|
      invariant offset == n * size && n <= |Slices(chunk, size)|
      invariant |id| > Wire.MAX_ID_LENGTH ==> n == 0 && sent == []
      invariant |id| <= Wire.MAX_ID_LENGTH ==> sent == Frames(id, index, chunk, size, n)
      invariant connection.State() == SendAll(before, sent, throws) && |sent| == n
      decreases |chunk| - offset
    {
      BlockAt(id, index, chunk, size, n, offset);
      var frame := Wire.EncodePiece(id, index, offset, |chunk|, chunk[offset..Min(offset + size, |chunk|)]);
      if frame.Failure? {
        return true;
      }
      var _ := connection.Send(frame.value, throws(n));
      FramesMore(id, index, chunk, size, n, frame.value);
      SendOne(before, sent, frame.value, throws);
      offset := offset + size;
      n := n + 1;
      sent := sent + [frame.value];
    }
    PiecesCover(|chunk|, size, n);
    SlicesCount(chunk, size);
    return false;
  }

  /** A served frame is decoded to the block it was made of. */
  lemma FrameArrives(id: Bytes, index: nat, chunk: Bytes, size: nat, k: nat)
    requires size > 0 && k < |Slices(chunk, size)|
    requires |id| <= Wire.MAX_ID_LENGTH && index < Wire.U32_LIMIT && |chunk| < Wire.U32_LIMIT
    ensures var m := BlockMessage(id, index, chunk, size, k);
      Wire.Encode(m).Success? && Wire.DecodeMessage(Wire.Encode(m).value) == Success(m)
  {
    SliceAt(chunk, size, k);
    Wire.RoundTripExactly(BlockMessage(id, index, chunk, size, k));
  }

  // ---------------------------------------------------------------- the downloader

  /** `ks` names blocks of the chunk. */
  predicate InRange(chunk: Bytes, size: nat, ks: seq<nat>)
    requires size > 0
  {
    forall i :: 0 <= i < |ks| ==> ks[i] < |Slices(chunk, size)|
  }

  /** What is collected after the blocks `ks` arrived, in this order, with any repeats. */
  function Feed(chunk: Bytes, size: nat, ks: seq<nat>): Reassembling.Reassembly
    requires size > 0 && InRange(chunk, size, ks)
  {
    if ks == [] then Reassembling.Fresh(|chunk|)
    else
      var n := |ks| - 1;
      Reassembling.AddBlock(Feed(chunk, size, ks[..n]), ks[n] * size, Slices(chunk, size)[ks[n]])
  }

  /** The length of the parts below `n` that are listed in `ks`. */
  function Got(parts: seq<Bytes>, ks: seq<nat>, n: nat): nat
    requires n <= |parts|
  {
    if n == 0 then 0 else Got(parts, ks, n - 1) + if n - 1 in ks then |parts[n - 1]| else 0
  }

  lemma {:induction false} GotMore(parts: seq<Bytes>, ks: seq<nat>, j: nat, n: nat)
    requires n <= |parts|
    ensures Got(parts, ks + [j], n) == Got(parts, ks, n) + if j < n && j !in ks then |parts[j]| else 0
  {
    if n == 0 {
    } else {
      GotMore(parts, ks, j, n - 1);
    }
  }

  lemma {:induction false} GotEnough(parts: seq<Bytes>, ks: seq<nat>, n: nat)
    requires n <= |parts| && forall i :: 0 <= i < n ==> |parts[i]| > 0
    ensures Got(parts, ks, n) <= SumLengths(parts[..n])
    ensures Got(parts, ks, n) == SumLengths(parts[..n]) <==> forall k :: 0 <= k < n ==> k in ks
  {
    if n == 0 {
    } else {
      GotEnough(parts, ks, n - 1);
      assert parts[..n][..n - 1] == parts[..n - 1];
    }
  }

  lemma OffsetsDiffer(j: nat, k: nat, size: nat)
    requires size > 0
    ensures j * size == k * size <==> j == k
  {
    QuotientBetween(j * size, size, j);
    QuotientBetween(k * size, size, k);
  }

  ghost predicate Collected(item: Reassembling.Reassembly, chunk: Bytes, size: nat, ks: seq<nat>)
    requires size > 0
  {
    var parts := Slices(chunk, size);
    && item.total == |chunk|
    && item.received == Got(parts, ks, |parts|)
    && (forall k :: 0 <= k < |parts| ==> (k * size in item.parts.vals <==> k in ks))
    && (forall k :: 0 <= k < |parts| && k in ks ==> item.parts.vals[k * size] == parts[k])
    && (forall offset: nat :: offset in item.parts.vals ==>
          exists k :: 0 <= k < |parts| && k in ks && offset == k * size)
  }

  lemma CollectOne(item: Reassembling.Reassembly, chunk: Bytes, size: nat, ks: seq<nat>, j: nat)
    requires size > 0 && j < |Slices(chunk, size)| && Collected(item, chunk, size, ks)
    ensures Collected(Reassembling.AddBlock(item, j * size, Slices(chunk, size)[j]), chunk, size, ks + [j])
  {
    var parts := Slices(chunk, size);
    GotMore(parts, ks, j, |parts|);
    var after := Reassembling.AddBlock(item, j * size, parts[j]);
    forall k | 0 <= k < |parts|
      ensures k * size in after.parts.vals <==> k in ks + [j]
      ensures k in ks + [j] ==> after.parts.vals[k * size] == parts[k]
    {
      OffsetsDiffer(j, k, size);
    }
    forall offset: nat | offset in after.parts.vals
      ensures exists k :: 0 <= k < |parts| && k in ks + [j] && offset == k * size
    {
      if offset in item.parts.vals {
        var k :| 0 <= k < |parts| && k in ks && offset == k * size;
        assert k in ks + [j];
      } else {
        assert j in ks + [j] && offset == j * size;
      }
    }
  }

  lemma {:induction false} NothingGot(parts: seq<Bytes>, n: nat)
    requires n <= |parts|
    ensures Got(parts, [], n) == 0
  {
    if n == 0 {
    } else {
      NothingGot(parts, n - 1);
    }
  }

  lemma NothingCollected(chunk: Bytes, size: nat)
    requires size > 0
    ensures Collected(Reassembling.Fresh(|chunk|), chunk, size, [])
  {
    NothingGot(Slices(chunk, size), |Slices(chunk, size)|);
  }

  lemma {:induction false} FeedCollects(chunk: Bytes, size: nat, ks: seq<nat>)
    requires size > 0 && InRange(chunk, size, ks)
    ensures Collected(Feed(chunk, size, ks), chunk, size, ks)
  {
    hide Collected, Slices, Reassembling.AddBlock;
    if ks == [] {
      NothingCollected(chunk, size);
    } else {
      var n := |ks| - 1;
      FeedCollects(chunk, size, ks[..n]);
      CollectOne(Feed(chunk, size, ks[..n]), chunk, size, ks[..n], ks[n]);
      assert ks == ks[..n] + [ks[n]];
    }
  }

  // ---------------------------------------------------------------- putting the blocks together

  /** Every collected block holds the bytes that `chunk` has at its place. */
  ghost predicate Agrees(item: Reassembling.Reassembly, chunk: Bytes) {
    && item.total == |chunk|
    && forall j :: 0 <= j < |item.parts.keys| ==>
         var offset, part := item.parts.keys[j], item.parts.vals[item.parts.keys[j]];
         offset + |part| <= |chunk| && part == chunk[offset..offset + |part|]
  }

  ghost predicate CoveredBy(item: Reassembling.Reassembly, i: nat, j: nat)
    requires j < |item.parts.keys|
  {
    item.parts.keys[j] <= i < item.parts.keys[j] + |item.parts.vals[item.parts.keys[j]]|
  }

  ghost predicate Covered(item: Reassembling.Reassembly, i: nat) {
    exists j :: 0 <= j < |item.parts.keys| && CoveredBy(item, i, j)
  }

  lemma {:induction false} CopiedAgrees(item: Reassembling.Reassembly, chunk: Bytes, k: nat, i: nat)
    requires Agrees(item, chunk) && !Reassembling.Overruns(item) && k <= |item.parts.keys| && i < |chunk|
    requires exists j :: 0 <= j < k && CoveredBy(item, i, j)
    ensures Reassembling.Copied(item, k)[i] == chunk[i]
  {
    if !CoveredBy(item, i, k - 1) {
      CopiedAgrees(item, chunk, k - 1, i);
    }
  }

  lemma AssembledAgrees(item: Reassembling.Reassembly, chunk: Bytes)
    requires Agrees(item, chunk)
    requires forall i: nat :: i < |chunk| ==> Covered(item, i)
    ensures !Reassembling.Overruns(item) && Reassembling.Assembled(item) == chunk
  {
    forall i: nat | i < |chunk| ensures Reassembling.Assembled(item)[i] == chunk[i] {
      assert Covered(item, i);
      CopiedAgrees(item, chunk, |item.parts.keys|, i);
    }
  }

  /** Block `k` holds the bytes at its place. */
  lemma BlockInPlace(chunk: Bytes, size: nat, k: nat)
    requires size > 0 && k < |Slices(chunk, size)|
    ensures var block := Slices(chunk, size)[k];
      k * size + |block| <= |chunk| && block == chunk[k * size..k * size + |block|]
    ensures forall i: nat :: i < |chunk| && i / size == k ==> k * size <= i < k * size + |Slices(chunk, size)[k]|
  {
    SliceAt(chunk, size, k);
    forall i: nat | i < |chunk| && i / size == k ensures k * size <= i < k * size + |Slices(chunk, size)[k]| {
      QuotientBetween(i, size, k);
    }
  }

  lemma QuotientNames(chunk: Bytes, size: nat, i: nat)
    requires size > 0 && i < |chunk|
    ensures i / size < |Slices(chunk, size)|
  {
    QuotientBetween(i, size, i / size);
    SlicesCount(chunk, size);
    PiecesCover(|chunk|, size, i / size);
  }

  lemma KeyPresent(parts: OrderedMap<nat, Bytes>, j: nat)
    requires j < |parts.keys|
    ensures parts.keys[j] in parts.vals
  {
    assert parts.keys[j] in parts.vals.Keys;
  }

  lemma PartIsBlock(item: Reassembling.Reassembly, chunk: Bytes, size: nat, ks: seq<nat>, j: nat)
    requires size > 0 && Collected(item, chunk, size, ks) && j < |item.parts.keys|
    ensures var offset, part := item.parts.keys[j], item.parts.vals[item.parts.keys[j]];
      offset + |part| <= |chunk| && part == chunk[offset..offset + |part|]
  {
    hide Slices;
    KeyPresent(item.parts, j);
    var offset: nat := item.parts.keys[j];
    var k :| 0 <= k < |Slices(chunk, size)| && k in ks && offset == k * size;
    BlockInPlace(chunk, size, k);
  }

  lemma CollectedTotal(item: Reassembling.Reassembly, chunk: Bytes, size: nat, ks: seq<nat>)
    requires size > 0 && Collected(item, chunk, size, ks)
    ensures item.total == |chunk|
  {
  }

  lemma CollectedAgrees(item: Reassembling.Reassembly, chunk: Bytes, size: nat, ks: seq<nat>)
    requires size > 0 && Collected(item, chunk, size, ks)
    ensures Agrees(item, chunk)
  {
    hide Slices, Collected;
    CollectedTotal(item, chunk, size, ks);
    forall j | 0 <= j < |item.parts.keys|
      ensures var offset, part := item.parts.keys[j], item.parts.vals[item.parts.keys[j]];
        offset + |part| <= |chunk| && part == chunk[offset..offset + |part|]
    {
      PartIsBlock(item, chunk, size, ks, j);
    }
  }

  lemma ValuePresent(parts: OrderedMap<nat, Bytes>, offset: nat) returns (j: nat)
    requires offset in parts.vals
    ensures j < |parts.keys| && parts.keys[j] == offset
  {
    assert offset in parts.vals.Keys;
    j :| j < |parts.keys| && parts.keys[j] == offset;
  }

  lemma BlockPresent(item: Reassembling.Reassembly, chunk: Bytes, size: nat, ks: seq<nat>, k: nat) returns (j: nat)
    requires size > 0 && Collected(item, chunk, size, ks) && k < |Slices(chunk, size)| && k in ks
    ensures j < |item.parts.keys| && item.parts.keys[j] == k * size
    ensures item.parts.vals[k * size] == Slices(chunk, size)[k]
  {
    hide Slices;
    j := ValuePresent(item.parts, k * size);
  }

  predicate HasAll(ks: seq<nat>, n: nat) {
    forall k :: 0 <= k < n ==> k in ks
  }

  lemma CollectedCovers(item: Reassembling.Reassembly, chunk: Bytes, size: nat, ks: seq<nat>, i: nat)
    requires size > 0 && Collected(item, chunk, size, ks) && i < |chunk|
    requires HasAll(ks, |Slices(chunk, size)|)
    ensures Covered(item, i)
  {
    hide Slices, Collected;
    QuotientNames(chunk, size, i);
    var k := i / size;
    BlockInPlace(chunk, size, k);
    var j := BlockPresent(item, chunk, size, ks, k);
    assert CoveredBy(item, i, j);
  }

  lemma CompleteExactly(item: Reassembling.Reassembly, chunk: Bytes, size: nat, ks: seq<nat>)
    requires size > 0 && Collected(item, chunk, size, ks)
    ensures Reassembling.Complete(item) <==> HasAll(ks, |Slices(chunk, size)|)
  {
    var parts := Slices(chunk, size);
    forall i | 0 <= i < |parts| ensures |parts[i]| > 0 {
      SlicesNonEmpty(chunk, size, i);
    }
    GotEnough(parts, ks, |parts|);
    assert parts[..|parts|] == parts;
    SlicesJoin(chunk, size);
  }

  /**
   * The block transfer round trip. However the blocks of a non-empty chunk are ordered and
   * repeated, the completion test succeeds exactly when each has arrived, and then the buffer
   * is the chunk.
   */
  lemma TransferRoundTrip(chunk: Bytes, size: nat, ks: seq<nat>)
    requires size > 0 && InRange(chunk, size, ks) && chunk != []
    ensures var item := Feed(chunk, size, ks);
      && (Reassembling.Complete(item) <==> HasAll(ks, |Slices(chunk, size)|))
      && (Reassembling.Complete(item) ==> !Reassembling.Overruns(item) && Reassembling.Assembled(item) == chunk)
  {
    hide Slices, Feed, Collected, Agrees, Covered, Reassembling.Overruns, Reassembling.Assembled;
    var item := Feed(chunk, size, ks);
    FeedCollects(chunk, size, ks);
    CompleteExactly(item, chunk, size, ks);
    if Reassembling.Complete(item) {
      CollectedAgrees(item, chunk, size, ks);
      forall i: nat | i < |chunk| ensures Covered(item, i) {
        CollectedCovers(item, chunk, size, ks, i);
      }
      AssembledAgrees(item, chunk);
    }
  }

  // ---------------------------------------------------------------- from frame to task

  /** The PIECE branch of `handleDataMessage`: a frame of another resource is ignored. */
  function ReceiveFrame(s: Scheduler, id: Bytes, frame: Bytes): Scheduler {
    var r := Wire.DecodeMessage(frame);
    if r.Success? && r.value.Piece? && r.value.id == id then
      HandlePiece(s, r.value.chunk, r.value.offset, r.value.total, r.value.data)
    else s
  }

  lemma PieceCollected(s: Scheduler, c: nat, offset: nat, total: nat, data: Bytes)
    requires c in s.inFlight.vals && !Reassembling.Complete(Received(s, c, offset, total, data))
    ensures HandlePiece(s, c, offset, total, data) ==
      s.(reassembly := s.reassembly[c := Received(s, c, offset, total, data)])
  {
  }

  /** The frame of block `k` makes the scheduler handle that block. */
  lemma FrameHandled(s: Scheduler, id: Bytes, c: nat, chunk: Bytes, size: nat, k: nat)
    requires size > 0 && k < |Slices(chunk, size)|
    requires |id| <= Wire.MAX_ID_LENGTH && c < Wire.U32_LIMIT && |chunk| < Wire.U32_LIMIT
    ensures var frame := Wire.Encode(BlockMessage(id, c, chunk, size, k));
      frame.Success? && ReceiveFrame(s, id, frame.value) == HandlePiece(s, c, k * size, |chunk|, Slices(chunk, size)[k])
  {
    hide Wire.Encode, Wire.DecodeMessage, HandlePiece, Slices;
    FrameArrives(id, c, chunk, size, k);
  }
}
