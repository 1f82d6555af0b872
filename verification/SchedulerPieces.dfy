/** What a sequence of blocks for one chunk leads to, whoever cut them. */
module SchedulerPieces {
  import opened Bytes
  import opened OrderedMaps
  import opened SchedulerModel
  import Reassembling

  /** A block as it arrives: where it goes, how long the chunk is said to be, and its bytes. */
  datatype Block = Block(offset: nat, total: nat, data: Bytes)

  /** No block before index `i` has the same offset. */
  ghost predicate IsFirst(bs: seq<Block>, i: nat)
    requires i < |bs|
  {
    forall j :: 0 <= j < i ==> bs[j].offset != bs[i].offset
  }

  /** The lengths of the blocks that are the first at their offsets. */
  ghost function FirstBytes(bs: seq<Block>): nat {
    if bs == [] then 0
    else
      var n := |bs| - 1;
      FirstBytes(bs[..n]) + if IsFirst(bs, n) then |bs[n].data| else 0
  }

  /** The offsets in the order in which they first occur. */
  ghost function FirstOffsets(bs: seq<Block>): seq<nat> {
    if bs == [] then []
    else
      var n := |bs| - 1;
      FirstOffsets(bs[..n]) + if IsFirst(bs, n) then [bs[n].offset] else []
  }

  /** `item` holds of each offset the block that came first, and counts the bytes of these. */
  ghost predicate KeepsFirst(item: Reassembling.Reassembly, bs: seq<Block>) {
    && item.received == FirstBytes(bs) && item.parts.keys == FirstOffsets(bs)
    && (forall o :: o in item.parts.vals <==> exists i :: 0 <= i < |bs| && bs[i].offset == o)
    && (forall i :: 0 <= i < |bs| && IsFirst(bs, i) ==>
          bs[i].offset in item.parts.vals && item.parts.vals[bs[i].offset] == bs[i].data)
  }

  lemma FreshKeeps(total: nat)
    ensures KeepsFirst(Reassembling.Fresh(total), [])
  {
  }

  lemma FirstMore(bs: seq<Block>, b: Block)
    ensures var all := bs + [b];
      && (forall i :: 0 <= i < |bs| ==> all[i] == bs[i] && (IsFirst(all, i) <==> IsFirst(bs, i)))
      && (IsFirst(all, |bs|) <==> forall i :: 0 <= i < |bs| ==> bs[i].offset != b.offset)
      && FirstBytes(all) == FirstBytes(bs) + (if IsFirst(all, |bs|) then |b.data| else 0)
      && FirstOffsets(all) == FirstOffsets(bs) + if IsFirst(all, |bs|) then [b.offset] else []
  {
    var all := bs + [b];
    assert all[..|bs|] == bs && all[|bs|] == b;
    assert forall i :: 0 <= i < |bs| ==> all[i] == bs[i];
  }

  lemma AddKeeps(item: Reassembling.Reassembly, bs: seq<Block>, b: Block)
    requires KeepsFirst(item, bs)
    ensures KeepsFirst(Reassembling.AddBlock(item, b.offset, b.data), bs + [b])
    ensures Reassembling.AddBlock(item, b.offset, b.data).total == item.total
  {
    hide IsFirst, FirstBytes, FirstOffsets;
    var all, t := bs + [b], Reassembling.AddBlock(item, b.offset, b.data);
    FirstMore(bs, b);
    forall o ensures o in t.parts.vals <==> exists i :: 0 <= i < |all| && all[i].offset == o {
      if o == b.offset {
        assert all[|bs|].offset == o;
      } else if o in item.parts.vals {
        var i :| 0 <= i < |bs| && bs[i].offset == o;
        assert all[i].offset == o;
      }
    }
  }

  // ---------------------------------------------------------------- the assembled bytes

  /** The byte at `x`: of the last of the first blocks that have it, and zero if none does. */
  ghost function ByteOf(bs: seq<Block>, x: nat): bv8 {
    if bs == [] then 0
    else
      var n := |bs| - 1;
      var b := bs[n];
      if IsFirst(bs, n) && b.offset <= x < b.offset + |b.data| then b.data[x - b.offset] else ByteOf(bs[..n], x)
  }

  lemma CopiedMore(item: Reassembling.Reassembly, k: nat, x: nat)
    requires !Reassembling.Overruns(item) && k < |item.parts.keys| && x < item.total
    requires item.parts.keys[k] in item.parts.vals
    ensures var o := item.parts.keys[k];
      Reassembling.Copied(item, k + 1)[x] ==
        if o <= x < o + |item.parts.vals[o]| then item.parts.vals[o][x - o] else Reassembling.Copied(item, k)[x]
  {
    hide Reassembling.Overlay;
  }

  lemma OffsetsMore(bs: seq<Block>, n: nat, x: nat)
    requires n < |bs|
    ensures FirstOffsets(bs[..n + 1]) == FirstOffsets(bs[..n]) + if IsFirst(bs, n) then [bs[n].offset] else []
    ensures ByteOf(bs[..n + 1], x) ==
      if IsFirst(bs, n) && bs[n].offset <= x < bs[n].offset + |bs[n].data| then bs[n].data[x - bs[n].offset]
      else ByteOf(bs[..n], x)
  {
    var all := bs[..n + 1];
    assert all[..n] == bs[..n] && all[n] == bs[n];
    assert forall j :: 0 <= j < n ==> all[j] == bs[j];
    assert IsFirst(all, n) <==> IsFirst(bs, n);
  }

  lemma {:induction false} OffsetsPrefix(bs: seq<Block>, n: nat)
    requires n <= |bs|
    ensures FirstOffsets(bs[..n]) <= FirstOffsets(bs)
    decreases |bs| - n
  {
    hide FirstOffsets, IsFirst;
    if n == |bs| {
      assert bs[..n] == bs;
    } else {
      OffsetsPrefix(bs, n + 1);
      OffsetsMore(bs, n, 0);
    }
  }

  lemma NoBytes(item: Reassembling.Reassembly, x: nat)
    requires !Reassembling.Overruns(item) && x < item.total
    ensures FirstOffsets([]) == [] && Reassembling.Copied(item, 0)[x] == 0 && ByteOf([], x) == 0
  {
  }

  lemma {:induction false} CopiedAt(item: Reassembling.Reassembly, bs: seq<Block>, n: nat, x: nat)
    requires KeepsFirst(item, bs) && !Reassembling.Overruns(item) && n <= |bs| && x < item.total
    ensures |FirstOffsets(bs[..n])| <= |item.parts.keys|
    ensures Reassembling.Copied(item, |FirstOffsets(bs[..n])|)[x] == ByteOf(bs[..n], x)
  {
    hide Reassembling.Overruns, Reassembling.Copied, FirstOffsets, ByteOf, IsFirst, FirstBytes;
    OffsetsPrefix(bs, n);
    if n == 0 {
      NoBytes(item, x);
    } else {
      CopiedAt(item, bs, n - 1, x);
      OffsetsMore(bs, n - 1, x);
      var k := |FirstOffsets(bs[..n - 1])|;
      if IsFirst(bs, n - 1) {
        assert item.parts.keys[k] == bs[n - 1].offset;
        CopiedMore(item, k, x);
      }
    }
  }

  /** The assembled buffer, byte by byte. */
  lemma AssembledAt(item: Reassembling.Reassembly, bs: seq<Block>)
    requires KeepsFirst(item, bs) && !Reassembling.Overruns(item)
    ensures forall x :: 0 <= x < item.total ==> Reassembling.Assembled(item)[x] == ByteOf(bs, x)
  {
    hide Reassembling.Overruns, Reassembling.Copied, ByteOf, FirstBytes;
    forall x | 0 <= x < item.total ensures Reassembling.Assembled(item)[x] == ByteOf(bs, x) {
      CopiedAt(item, bs, |bs|, x);
      assert bs[..|bs|] == bs;
    }
  }

  // ---------------------------------------------------------------- the scheduler

  function Receive(s: Scheduler, c: nat, bs: seq<Block>): Scheduler {
    if bs == [] then s
    else
      var b := bs[|bs| - 1];
      HandlePiece(Receive(s, c, bs[..|bs| - 1]), c, b.offset, b.total, b.data)
  }

  /** Before its last block the chunk was not complete by the length that its first block declared. */
  ghost predicate StillOpen(bs: seq<Block>) {
    forall n :: 0 < n < |bs| ==> FirstBytes(bs[..n]) < bs[0].total
  }

  lemma NothingReceived(s: Scheduler, c: nat)
    ensures Receive(s, c, []) == s
  {
  }

  lemma ReceivedBytes(item: Reassembling.Reassembly, bs: seq<Block>)
    requires KeepsFirst(item, bs)
    ensures item.received == FirstBytes(bs)
    ensures Reassembling.Complete(item) <==> FirstBytes(bs) >= item.total
  {
  }

  lemma FirstCollects(s: Scheduler, c: nat, b: Block)
    requires c in s.inFlight.vals && c !in s.reassembly && FirstBytes([b]) < b.total
    ensures var item := Reassembling.AddBlock(Reassembling.Fresh(b.total), b.offset, b.data);
      && Receive(s, c, [b]) == s.(reassembly := s.reassembly[c := item])
      && item.total == b.total && KeepsFirst(item, [b])
  {
    hide KeepsFirst, FirstBytes, Reassembling.AddBlock, Reassembling.Overruns, Reassembling.Assembled,
      Reassembling.Complete;
    FreshKeeps(b.total);
    AddKeeps(Reassembling.Fresh(b.total), [], b);
    assert [] + [b] == [b] && [b][..0] == [];
    NothingReceived(s, c);
    ReceivedBytes(Reassembling.AddBlock(Reassembling.Fresh(b.total), b.offset, b.data), [b]);
  }

  lemma NextCollects(t: Scheduler, c: nat, front: seq<Block>, b: Block)
    requires c in t.inFlight.vals && c in t.reassembly && KeepsFirst(t.reassembly[c], front)
    requires FirstBytes(front + [b]) < t.reassembly[c].total
    ensures var item := Reassembling.AddBlock(t.reassembly[c], b.offset, b.data);
      && HandlePiece(t, c, b.offset, b.total, b.data) == t.(reassembly := t.reassembly[c := item])
      && item.total == t.reassembly[c].total && KeepsFirst(item, front + [b])
  {
    hide KeepsFirst, FirstBytes, Reassembling.AddBlock, Reassembling.Overruns, Reassembling.Assembled,
      Reassembling.Complete;
    AddKeeps(t.reassembly[c], front, b);
    ReceivedBytes(Reassembling.AddBlock(t.reassembly[c], b.offset, b.data), front + [b]);
  }

  lemma {:induction false} Collects(s: Scheduler, c: nat, bs: seq<Block>)
    requires c in s.inFlight.vals && c !in s.reassembly && bs != []
    requires StillOpen(bs) && FirstBytes(bs) < bs[0].total
    ensures var t := Receive(s, c, bs);
      && c in t.reassembly && t == s.(reassembly := s.reassembly[c := t.reassembly[c]])
      && t.reassembly[c].total == bs[0].total && KeepsFirst(t.reassembly[c], bs)
  {
    hide KeepsFirst, FirstBytes, HandlePiece, Reassembling.AddBlock;
    var n := |bs| - 1;
    var front, b := bs[..n], bs[n];
    assert bs == front + [b];
    if front == [] {
      assert bs == [b];
      FirstCollects(s, c, b);
    } else {
      assert forall k :: 0 < k < n ==> front[..k] == bs[..k];
      assert bs[..n] == front;
      Collects(s, c, front);
      NextCollects(Receive(s, c, front), c, front, b);
    }
  }

  /** Some kept block reaches past the declared length. */
  ghost predicate ReachesPast(bs: seq<Block>) {
    exists i :: 0 <= i < |bs| && IsFirst(bs, i) && bs[i].offset + |bs[i].data| > bs[0].total
  }

  lemma FirstAt(bs: seq<Block>, o: nat) returns (i: nat)
    requires exists j :: 0 <= j < |bs| && bs[j].offset == o
    ensures i < |bs| && bs[i].offset == o && IsFirst(bs, i)
  {
    i := 0;
    while bs[i].offset != o
      invariant i < |bs| && forall j :: 0 <= j < i ==> bs[j].offset != o
      decreases |bs| - i
    {
      i := i + 1;
    }
  }

  lemma OverrunsExactly(item: Reassembling.Reassembly, bs: seq<Block>)
    requires KeepsFirst(item, bs) && bs != [] && item.total == bs[0].total
    ensures Reassembling.Overruns(item) <==> ReachesPast(bs)
  {
    if ReachesPast(bs) {
      var i :| 0 <= i < |bs| && IsFirst(bs, i) && bs[i].offset + |bs[i].data| > bs[0].total;
      assert bs[i].offset in item.parts.vals.Keys;
      assert bs[i].offset in item.parts.keys;
    }
    if Reassembling.Overruns(item) {
      var k :| 0 <= k < |item.parts.keys| &&
        item.parts.keys[k] + |item.parts.vals[item.parts.keys[k]]| > item.total;
      assert item.parts.keys[k] in item.parts.vals.Keys;
      var i := FirstAt(bs, item.parts.keys[k]);
    }
  }

  /** As long as was declared, with the bytes of the blocks. */
  ghost predicate IsBuffer(buffer: Bytes, bs: seq<Block>)
    requires bs != []
  {
    |buffer| == bs[0].total && forall x :: 0 <= x < |buffer| ==> buffer[x] == ByteOf(bs, x)
  }

  /** The collection with the last block, and the state before it. */
  lemma LastBlock(s: Scheduler, c: nat, bs: seq<Block>) returns (item: Reassembling.Reassembly)
    requires c in s.inFlight.vals && c !in s.reassembly && bs != [] && StillOpen(bs)
    ensures KeepsFirst(item, bs) && item.total == bs[0].total
    ensures var n := |bs| - 1;
      var t := Receive(s, c, bs[..n]);
      && Received(t, c, bs[n].offset, bs[n].total, bs[n].data) == item
      && t.inFlight == s.inFlight && t.tasks == s.tasks && t.manifest == s.manifest
      && t.reassembly - {c} == s.reassembly
  {
    hide KeepsFirst, FirstBytes, Reassembling.AddBlock;
    var n := |bs| - 1;
    var front, b := bs[..n], bs[n];
    assert bs == front + [b];
    if front == [] {
      FreshKeeps(b.total);
      AddKeeps(Reassembling.Fresh(b.total), [], b);
      NothingReceived(s, c);
      item := Reassembling.AddBlock(Reassembling.Fresh(b.total), b.offset, b.data);
      assert s.reassembly - {c} == s.reassembly;
    } else {
      assert forall k :: 0 < k < n ==> front[..k] == bs[..k];
      Collects(s, c, front);
      var before := Receive(s, c, front).reassembly[c];
      AddKeeps(before, front, b);
      item := Reassembling.AddBlock(before, b.offset, b.data);
      assert s.reassembly[c := before] - {c} == s.reassembly;
    }
  }

  /**
   * Blocks are collected until those that are first at their offsets have as many bytes as the
   * first block declared. Then the request is over: nothing more happens if one of them reaches
   * past that length, and otherwise the bytes that they cover go to verification.
   */
  lemma CompletesExactly(s: Scheduler, c: nat, bs: seq<Block>)
    requires c in s.inFlight.vals && c !in s.reassembly && bs != [] && StillOpen(bs)
    ensures var t := Receive(s, c, bs);
      if FirstBytes(bs) < bs[0].total then c in t.inFlight.vals && c in t.reassembly
      else
        && t.inFlight.vals == s.inFlight.vals - {c} && t.reassembly == s.reassembly
        && (ReachesPast(bs) ==> t.tasks == s.tasks)
        && (!ReachesPast(bs) ==>
              exists buffer :: IsBuffer(buffer, bs)
                && t.tasks == s.tasks + [Task(c, true, PhaseFor(s.manifest, c, buffer))])
  {
    hide KeepsFirst, FirstBytes, ReachesPast, ByteOf, Reassembling.AddBlock, Reassembling.Overruns,
      Reassembling.Assembled, PhaseFor;
    if FirstBytes(bs) < bs[0].total {
      Collects(s, c, bs);
    } else {
      var item := LastBlock(s, c, bs);
      ReceivedBytes(item, bs);
      OverrunsExactly(item, bs);
      assert s.reassembly - {c} == s.reassembly;
      if !ReachesPast(bs) {
        AssembledAt(item, bs);
        assert IsBuffer(Reassembling.Assembled(item), bs);
      }
    }
  }
}
