/** The server's side: how a file is cut, hashed and served chunk by chunk. */
module Manifests {
  import opened Bytes
  import opened Slicing

  // ---------------------------------------------------------------- chunk arithmetic

  datatype ChunkBounds = ChunkBounds(index: nat, start: int, end: int, streamEnd: int, length: int)

  function Max(a: int, b: int): int {
    if a < b then b else a
  }

  function CalculateTotalChunks(fileSize: int, chunkSize: nat): nat
    requires chunkSize > 0
  {
    if fileSize <= 0 then 0 else Pieces(fileSize, chunkSize)
  }

  function CalculateChunkBounds(index: nat, fileSize: int, chunkSize: nat): ChunkBounds {
    var start := index * chunkSize;
    var end := Min(start + chunkSize, fileSize);
    ChunkBounds(index, start, end, Max(start, end - 1), Max(0, end - start))
  }

  /**
   * The ranges below the total are non-empty, follow one another, end with the file, and are
   * what the inclusive stream range reads; each byte lies in the one range of its quotient.
   */
  lemma BoundsTile(index: nat, fileSize: nat, chunkSize: nat)
    requires chunkSize > 0 && index < CalculateTotalChunks(fileSize, chunkSize)
    ensures var b := CalculateChunkBounds(index, fileSize, chunkSize);
      && 0 <= b.start < b.end <= fileSize
      && b.length == b.end - b.start == b.streamEnd - b.start + 1 <= chunkSize
      && (index == 0 ==> b.start == 0)
      && (if index + 1 < CalculateTotalChunks(fileSize, chunkSize)
          then b.end == CalculateChunkBounds(index + 1, fileSize, chunkSize).start && b.length == chunkSize
          else b.end == fileSize)
    ensures forall offset: nat :: offset < fileSize ==>
      (CalculateChunkBounds(index, fileSize, chunkSize).start <= offset
         < CalculateChunkBounds(index, fileSize, chunkSize).end
       <==> offset / chunkSize == index)
  {
    PiecesCover(fileSize, chunkSize, index);
    PiecesCover(fileSize, chunkSize, index + 1);
    assert (index + 1) * chunkSize == index * chunkSize + chunkSize;
    forall offset: nat | offset < fileSize
      ensures index * chunkSize <= offset < index * chunkSize + chunkSize <==> offset / chunkSize == index
    {
      QuotientBetween(offset, chunkSize, index);
    }
  }

  /** At and beyond the total there is nothing to read. */
  lemma BeyondTotal(index: nat, fileSize: int, chunkSize: nat)
    requires chunkSize > 0 && index >= CalculateTotalChunks(fileSize, chunkSize)
    ensures CalculateChunkBounds(index, fileSize, chunkSize).length == 0
  {
    if fileSize > 0 {
      PiecesCover(fileSize, chunkSize, index);
    } else {
      assert index * chunkSize >= 0;
    }
  }

  // ---------------------------------------------------------------- the manifest of a file

  datatype ManifestEntry = ManifestEntry(index: nat, size: nat, sha256: Digest)

  datatype GeneratedManifest = GeneratedManifest(
    fileSize: nat, totalChunks: nat, fileHash: Digest, chunks: seq<ManifestEntry>)

  function EntriesOf(parts: seq<Bytes>, hash: Bytes -> Digest): (es: seq<ManifestEntry>)
    ensures |es| == |parts|
    ensures forall i :: 0 <= i < |es| ==> es[i] == ManifestEntry(i, |parts[i]|, hash(parts[i]))
  {
    if parts == [] then []
    else
      var n := |parts| - 1;
      EntriesOf(parts[..n], hash) + [ManifestEntry(n, |parts[n]|, hash(parts[n]))]
  }

  function ManifestOf(file: Bytes, chunkSize: nat, hash: Bytes -> Digest): GeneratedManifest
    requires chunkSize > 0
  {
    var parts := Slices(file, chunkSize);
    GeneratedManifest(|file|, |parts|, hash(file), EntriesOf(parts, hash))
  }

  function SumSizes(es: seq<ManifestEntry>): nat {
    if es == [] then 0 else SumSizes(es[..|es| - 1]) + es[|es| - 1].size
  }

  lemma {:induction false} SizesAreLengths(parts: seq<Bytes>, hash: Bytes -> Digest)
    ensures SumSizes(EntriesOf(parts, hash)) == SumLengths(parts)
  {
    if parts == [] {
    } else {
      var n := |parts| - 1;
      SizesAreLengths(parts[..n], hash);
      assert EntriesOf(parts, hash)[..n] == EntriesOf(parts[..n], hash);
    }
  }

  /** The manifest counts, measures and hashes exactly the ranges that the server serves. */
  lemma ManifestMatchesBounds(file: Bytes, chunkSize: nat, hash: Bytes -> Digest)
    requires chunkSize > 0
    ensures var m := ManifestOf(file, chunkSize, hash);
      && m.totalChunks == |m.chunks| == CalculateTotalChunks(|file|, chunkSize)
      && SumSizes(m.chunks) == m.fileSize == |file|
      && forall i :: 0 <= i < m.totalChunks ==>
           var b := CalculateChunkBounds(i, |file|, chunkSize);
           && 0 <= b.start <= b.streamEnd < |file|
           && m.chunks[i] == ManifestEntry(i, b.length, hash(file[b.start..b.streamEnd + 1]))
  {
    var m := ManifestOf(file, chunkSize, hash);
    SlicesCount(file, chunkSize);
    SlicesJoin(file, chunkSize);
    SizesAreLengths(Slices(file, chunkSize), hash);
    assert |file| == 0 ==> Slices(file, chunkSize) == [];
    forall i | 0 <= i < m.totalChunks
      ensures var b := CalculateChunkBounds(i, |file|, chunkSize);
        && 0 <= b.start <= b.streamEnd < |file|
        && m.chunks[i] == ManifestEntry(i, b.length, hash(file[b.start..b.streamEnd + 1]))
    {
      SliceAt(file, chunkSize, i);
      BoundsTile(i, |file|, chunkSize);
    }
  }

  // ---------------------------------------------------------------- the streaming generator

  /** One more slice is cut off the accumulator. */
  lemma CutOne(cut: seq<Bytes>, accumulated: Bytes, size: nat)
    requires size <= |accumulated|
    ensures Concat(cut + [accumulated[..size]]) + accumulated[size..] == Concat(cut) + accumulated
  {
    hide Concat;
    var slice, rest := accumulated[..size], accumulated[size..];
    ConcatAppend(cut, slice);
    Associates(Concat(cut), slice, rest);
    assert slice + rest == accumulated;
  }

  lemma EntriesAppend(parts: seq<Bytes>, last: Bytes, hash: Bytes -> Digest)
    ensures EntriesOf(parts + [last], hash) == EntriesOf(parts, hash) + [ManifestEntry(|parts|, |last|, hash(last))]
  {
    assert (parts + [last])[..|parts|] == parts;
  }

  class ManifestGenerator {
    const chunkSize: nat
    var chunks: seq<ManifestEntry>
    var bufferAccumulator: Bytes
    var chunkIndex: nat
    var totalBytes: nat
    /** What `wholeFileHasher` has absorbed. */
    var absorbed: Bytes
    /** The slices that were cut off so far. */
    ghost var cut: seq<Bytes>

    ghost predicate Valid(hash: Bytes -> Digest)
      reads this
    {
      && chunkSize > 0
      && (forall i :: 0 <= i < |cut| ==> |cut[i]| == chunkSize)
      && Concat(cut) + bufferAccumulator == absorbed
      && chunks == EntriesOf(cut, hash)
      && chunkIndex == |cut|
      && totalBytes == |absorbed|
    }

    constructor (chunkSize: nat)
      requires chunkSize > 0
      ensures forall hash :: Valid(hash)
      ensures this.chunkSize == chunkSize && absorbed == [] && bufferAccumulator == []
    {
      this.chunkSize := chunkSize;
      chunks := [];
      bufferAccumulator := [];
      chunkIndex := 0;
      totalBytes := 0;
      absorbed := [];
      cut := [];
    }

    method OnData(incoming: Bytes, hash: Bytes -> Digest)
      requires Valid(hash)
      modifies this
      ensures Valid(hash) && absorbed == old(absorbed) + incoming && |bufferAccumulator| < chunkSize
    {
      hide Concat, EntriesOf;
      assert Concat(cut) + (bufferAccumulator + incoming) == absorbed + incoming;
      absorbed := absorbed + incoming;
      totalBytes := totalBytes + |incoming|;
      bufferAccumulator := bufferAccumulator + incoming;
      while |bufferAccumulator| >= chunkSize
        invariant Valid(hash) && absorbed == old(absorbed) + incoming
      {
        CutOne(cut, bufferAccumulator, chunkSize);
        EntriesAppend(cut, bufferAccumulator[..chunkSize], hash);
        var slice := bufferAccumulator[..chunkSize];
        bufferAccumulator := bufferAccumulator[chunkSize..];
        chunks := chunks + [ManifestEntry(chunkIndex, |slice|, hash(slice))];
        chunkIndex := chunkIndex + 1;
        cut := cut + [slice];
      }
    }

    method OnEnd(hash: Bytes -> Digest) returns (manifest: GeneratedManifest)
      requires Valid(hash) && |bufferAccumulator| < chunkSize
      modifies this
      ensures manifest == ManifestOf(old(absorbed), chunkSize, hash)
      ensures bufferAccumulator == []
    {
      FullThenRest(cut, bufferAccumulator, chunkSize);
      if |bufferAccumulator| > 0 {
        EntriesAppend(cut, bufferAccumulator, hash);
        chunks := chunks + [ManifestEntry(chunkIndex, |bufferAccumulator|, hash(bufferAccumulator))];
        chunkIndex := chunkIndex + 1;
        bufferAccumulator := [];
      } else {
        assert cut + [] == cut;
      }
      manifest := GeneratedManifest(totalBytes, |chunks|, hash(absorbed), chunks);
    }
  }

  /**
   * `ManifestGenerator.generate`: whatever data events the stream makes of the file, the
   * manifest is that of the bytes.
   */
  method Generate(events: seq<Bytes>, chunkSize: nat, hash: Bytes -> Digest) returns (manifest: GeneratedManifest)
    requires chunkSize > 0
    ensures manifest == ManifestOf(Concat(events), chunkSize, hash)
  {
    var generator := new ManifestGenerator(chunkSize);
    for i := 0 to |events|
      invariant generator.Valid(hash) && generator.chunkSize == chunkSize
      invariant generator.absorbed == Concat(events[..i]) && |generator.bufferAccumulator| < chunkSize
    {
      assert events[..i + 1][..i] == events[..i];
      generator.OnData(events[i], hash);
    }
    assert events[..|events|] == events;
    manifest := generator.OnEnd(hash);
  }
}
