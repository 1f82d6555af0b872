/** A REQUEST at the seeder: which chunk it is answered with, and by which frames. */
module PeerRequests {
  import opened Bytes
  import opened BlockTransfer
  import opened Decimals
  import opened OrderedMaps
  import opened Results
  import opened SchedulerModel
  import opened Slicing
  import SendQueues
  import Wire

  const P2P_BLOCK_SIZE: nat := 65536

  /** A REQUEST whose chunk was looked up, and what was found. */
  datatype Lookup = Lookup(peer: PeerId, id: Bytes, index: nat, chunkData: Option<Bytes>)

  /** What a frame looks up in the store, if it is a REQUEST. */
  function LookedUp(contents: map<(string, nat), Bytes>, peer: PeerId, raw: Bytes, text: Bytes -> string)
    : Option<Lookup>
  {
    match Wire.DecodeMessage(raw)
    case Success(Request(id, index)) =>
      if index < 0 then None
      else
        var key := (text(id), index as nat);
        Some(Lookup(peer, id, index, if key in contents then Some(contents[key]) else None))
    case _ => None
  }

  /** The connection after the lookup was answered. */
  function Served(s: SendQueues.Connection, lookup: Lookup, throws: nat -> bool): SendQueues.Connection {
    if lookup.chunkData.Some? && s.channel == SendQueues.Open then
      var frames := Answer(lookup.id, lookup.index, lookup.chunkData.value, P2P_BLOCK_SIZE);
      SendQueues.SendAll(s, frames, throws)
    else s
  }

  // ---------------------------------------------------------------- what is looked up

  /** The lookup is of this peer's request, and its outcome is what is stored under these names. */
  ghost predicate Finds(lookup: Lookup, contents: map<(string, nat), Bytes>, peer: PeerId, id: Bytes, name: string,
                        index: nat)
  {
    && lookup.peer == peer && lookup.id == id && lookup.index == index
    && (lookup.chunkData.Some? <==> (name, index) in contents)
    && (lookup.chunkData.Some? ==> lookup.chunkData.value == contents[(name, index)])
  }

  /** A frame is looked up exactly if it is a REQUEST, and then the chunk that it names is. */
  lemma LooksUpExactly(contents: map<(string, nat), Bytes>, peer: PeerId, raw: Bytes, text: Bytes -> string)
    ensures var lookup, r := LookedUp(contents, peer, raw, text), Wire.DecodeMessage(raw);
      && (lookup.Some? <==> r.Success? && r.value.Request?)
      && (lookup.Some? ==>
            r.value.chunk >= 0 && Finds(lookup.value, contents, peer, r.value.id, text(r.value.id), r.value.chunk))
  {
  }

  lemma LongEnough(raw: Bytes, at: nat, v: int)
    requires Wire.Holds(raw, at, v)
    ensures at + 4 <= |raw|
  {
  }

  /** Of the bytes: a header of kind 3 with four more behind it. */
  lemma RequestLooksUp(contents: map<(string, nat), Bytes>, peer: PeerId, raw: Bytes, text: Bytes -> string, id: Bytes,
                       index: nat)
    requires Wire.Headed(raw, 3, id) && Wire.Holds(raw, 3 + |id|, index)
    ensures var lookup := LookedUp(contents, peer, raw, text);
      lookup.Some? && Finds(lookup.value, contents, peer, id, text(id), index)
  {
    hide Wire.DecodeMessage, Wire.Headed, Wire.Holds;
    Wire.LayoutRead(raw, 3, id, index);
    assert Wire.DecodeMessage(raw) == Success(Wire.Request(id, index)) by {
      assert |raw| >= 3 + |id| + 4 by {
        LongEnough(raw, 3 + |id|, index);
      }
    }
  }

  // ---------------------------------------------------------------- what it is answered with

  ghost predicate IsBlock(frame: Bytes, id: Bytes, index: nat, chunk: Bytes, k: nat) {
    && 65536 * k < |chunk|
    && Wire.IsPiece(frame, id, index, 65536 * k, |chunk|, chunk[65536 * k..Min(65536 * k + 65536, |chunk|)])
  }

  /** PIECE frames with the consecutive blocks of 65536 bytes of the chunk, the last one with the rest. */
  ghost predicate InBlocks(frames: seq<Bytes>, id: Bytes, index: nat, chunk: Bytes) {
    && 65536 * |frames| - 65536 < |chunk| <= 65536 * |frames|
    && forall k :: 0 <= k < |frames| ==> IsBlock(frames[k], id, index, chunk, k)
  }

  lemma BlockLaid(id: Bytes, index: nat, chunk: Bytes, k: nat)
    requires |id| <= Wire.MAX_ID_LENGTH && k < |Slices(chunk, 65536)|
    ensures IsBlock(BlockFrame(id, index, chunk, 65536, k), id, index, chunk, k)
  {
    hide Wire.Encode, Wire.IsPiece, Slices;
    SliceAt(chunk, 65536, k);
    assert Success(BlockFrame(id, index, chunk, 65536, k)) == Wire.Encode(BlockMessage(id, index, chunk, 65536, k));
    Wire.FrameLaid(BlockMessage(id, index, chunk, 65536, k));
  }

  lemma AnswerInBlocks(id: Bytes, index: nat, chunk: Bytes)
    requires |id| <= Wire.MAX_ID_LENGTH
    ensures InBlocks(Answer(id, index, chunk, P2P_BLOCK_SIZE), id, index, chunk)
  {
    hide Wire.Encode, IsBlock, Slices, Frames, BlockFrame;
    var frames := Frames(id, index, chunk, 65536, |Slices(chunk, 65536)|);
    SlicesCount(chunk, 65536);
    forall k | 0 <= k < |frames| ensures IsBlock(frames[k], id, index, chunk, k) {
      BlockLaid(id, index, chunk, k);
    }
  }

  /** The frames that a connection holds beyond those it held. */
  function Beyond(held: seq<Bytes>, earlier: seq<Bytes>): seq<Bytes> {
    if |earlier| <= |held| then held[|earlier|..] else []
  }

  /** An open connection is given the chunk that was found, block after block, and otherwise nothing. */
  lemma ServedInBlocks(s: SendQueues.Connection, lookup: Lookup, throws: nat -> bool)
    ensures var t := Served(s, lookup, throws);
      && s.held <= t.held
      && (SendQueues.Sendable(s) && lookup.chunkData.Some? && |lookup.id| <= Wire.MAX_ID_LENGTH ==>
            InBlocks(Beyond(t.held, s.held), lookup.id, lookup.index, lookup.chunkData.value))
      && (!SendQueues.Sendable(s) || lookup.chunkData.None? || |lookup.id| > Wire.MAX_ID_LENGTH ==> t == s)
  {
    hide InBlocks, Frames, Slices;
    if lookup.chunkData.Some? && s.channel == SendQueues.Open {
      var frames := Answer(lookup.id, lookup.index, lookup.chunkData.value, P2P_BLOCK_SIZE);
      SendQueues.SendAllHolds(s, frames, throws);
      if |lookup.id| <= Wire.MAX_ID_LENGTH {
        AnswerInBlocks(lookup.id, lookup.index, lookup.chunkData.value);
      }
    }
  }

  /** The blocks of a frame sequence, as they are decoded. */
  function Payloads(frames: seq<Bytes>): seq<Bytes> {
    if frames == [] then []
    else
      var r := Wire.DecodeMessage(frames[|frames| - 1]);
      Payloads(frames[..|frames| - 1]) + if r.Success? && r.value.Piece? then [r.value.data] else []
  }

  lemma BlockDecodes(frame: Bytes, id: Bytes, index: nat, chunk: Bytes, k: nat)
    requires IsBlock(frame, id, index, chunk, k) && index < 0x1_0000_0000 && |chunk| < 0x1_0000_0000
    ensures Wire.DecodeMessage(frame) ==
      Success(Wire.Piece(id, index, 65536 * k, |chunk|, chunk[65536 * k..Min(65536 * k + 65536, |chunk|)]))
  {
    hide Wire.DecodeMessage, Wire.Headed, Wire.Holds;
    var data := chunk[65536 * k..Min(65536 * k + 65536, |chunk|)];
    Wire.PieceRead(frame, id, index, 65536 * k, |chunk|, |data|);
    var from := 3 + |id| + 16;
    assert frame[from..from + |data|] == frame[from..];
  }

  lemma NothingConcat()
    ensures Concat([]) == []
  {
  }

  lemma BlockInside(frame: Bytes, id: Bytes, index: nat, chunk: Bytes, k: nat)
    requires IsBlock(frame, id, index, chunk, k)
    ensures 65536 * k < |chunk|
  {
  }

  lemma {:induction false} PayloadsJoin(frames: seq<Bytes>, id: Bytes, index: nat, chunk: Bytes, n: nat)
    requires index < 0x1_0000_0000 && |chunk| < 0x1_0000_0000 && InBlocks(frames, id, index, chunk) && n <= |frames|
    ensures Concat(Payloads(frames[..n])) == chunk[..Min(65536 * n, |chunk|)]
  {
    hide Wire.DecodeMessage, IsBlock, Concat;
    if n == 0 {
      assert frames[..n] == [];
      assert Concat([]) == [] by {
        NothingConcat();
      }
    } else {
      PayloadsJoin(frames, id, index, chunk, n - 1);
      assert IsBlock(frames[n - 1], id, index, chunk, n - 1);
      BlockDecodes(frames[n - 1], id, index, chunk, n - 1);
      BlockInside(frames[n - 1], id, index, chunk, n - 1);
      assert frames[..n][..n - 1] == frames[..n - 1];
      var data := chunk[65536 * (n - 1)..Min(65536 * n, |chunk|)];
      ConcatAppend(Payloads(frames[..n - 1]), data);
      assert chunk[..65536 * (n - 1)] + data == chunk[..Min(65536 * n, |chunk|)];
    }
  }

  lemma BlocksCount(frames: seq<Bytes>, id: Bytes, index: nat, chunk: Bytes)
    requires InBlocks(frames, id, index, chunk)
    ensures |chunk| <= 65536 * |frames|
  {
  }

  /**
   * From the frame of a REQUEST to the frames of its answer: what a seeder that stores the chunk is
   * made to hold on an open connection is decoded to blocks that join to that chunk.
   */
  lemma RequestAnswered(contents: map<(string, nat), Bytes>, peer: PeerId, raw: Bytes, text: Bytes -> string, id: Bytes,
                        index: nat, s: SendQueues.Connection, throws: nat -> bool)
    requires Wire.IsRequest(raw, id, index) && index < 0x1_0000_0000 && |id| <= 255
    requires SendQueues.Sendable(s)
    requires (text(id), index) in contents && |contents[(text(id), index)]| < 0x1_0000_0000
    ensures var lookup := LookedUp(contents, peer, raw, text);
      && lookup.Some? && lookup.value.peer == peer
      && var blocks := Beyond(Served(s, lookup.value, throws).held, s.held);
         && InBlocks(blocks, id, index, contents[(text(id), index)])
         && Concat(Payloads(blocks)) == contents[(text(id), index)]
  {
    hide Wire.Headed, Wire.Holds, LookedUp, InBlocks, Served, Payloads, Concat;
    RequestLooksUp(contents, peer, raw, text, id, index);
    var lookup, chunk := LookedUp(contents, peer, raw, text).value, contents[(text(id), index)];
    ServedInBlocks(s, lookup, throws);
    var blocks := Beyond(Served(s, lookup, throws).held, s.held);
    PayloadsJoin(blocks, id, index, chunk, |blocks|);
    BlocksCount(blocks, id, index, chunk);
    assert blocks[..|blocks|] == blocks && chunk[..|chunk|] == chunk;
  }
}
