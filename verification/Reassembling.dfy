/** How the blocks of one chunk are collected and put together. */
module Reassembling {
  import opened Bytes
  import opened OrderedMaps

  datatype Reassembly = Reassembly(total: nat, received: nat, parts: OrderedMap<nat, Bytes>)

  function Fresh(total: nat): Reassembly {
    Reassembly(total, 0, Empty())
  }

  /** The first block seen at an offset is kept; a later one at that offset is ignored. */
  function AddBlock(item: Reassembly, offset: nat, data: Bytes): Reassembly {
    if offset in item.parts.vals then item
    else item.(parts := item.parts.Set(offset, data), received := item.received + |data|)
  }

  /** The test that ends the collection. */
  predicate Complete(item: Reassembly) {
    item.received >= item.total
  }

  /** Some block reaches past the declared length, so that copying it would throw. */
  predicate Overruns(item: Reassembly) {
    exists k | 0 <= k < |item.parts.keys| ::
      item.parts.keys[k] + |item.parts.vals[item.parts.keys[k]]| > item.total
  }

  function Overlay(buffer: Bytes, offset: nat, slice: Bytes): (r: Bytes)
    requires offset + |slice| <= |buffer|
    ensures |r| == |buffer|
    ensures forall i :: 0 <= i < |r| ==>
      r[i] == if offset <= i < offset + |slice| then slice[i - offset] else buffer[i]
  {
    buffer[..offset] + slice + buffer[offset + |slice|..]
  }

  /** The buffer after the first `k` blocks, in the order of their arrival, were copied. */
  function Copied(item: Reassembly, k: nat): (r: Bytes)
    requires !Overruns(item) && k <= |item.parts.keys|
    ensures |r| == item.total
  {
    if k == 0 then Zeros(item.total)
    else
      var offset := item.parts.keys[k - 1];
      Overlay(Copied(item, k - 1), offset, item.parts.vals[offset])
  }

  function Assembled(item: Reassembly): (r: Bytes)
    requires !Overruns(item)
    ensures |r| == item.total
  {
    Copied(item, |item.parts.keys|)
  }
}
