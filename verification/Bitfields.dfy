/** Which chunks are possessed: a set of indices, packed into bytes with the first index in the top bit. */
module Bitfields {
  import opened Bytes
  import opened ByteValues

  // ---------------------------------------------------------------- sets of indices

  predicate Full(have: set<nat>, total: nat) {
    forall i :: 0 <= i < total ==> i in have
  }

  ghost predicate StrictlyAscending(xs: seq<nat>) {
    forall i, j :: 0 <= i < j < |xs| ==> xs[i] < xs[j]
  }

  /** The missing indices below `n`. */
  function MissingBelow(have: set<nat>, n: nat): (r: seq<nat>)
    ensures forall c: nat :: c in r <==> c < n && c !in have
  {
    if n == 0 then [] else MissingBelow(have, n - 1) + if n - 1 !in have then [n - 1] else []
  }

  /** The possessed indices below `n`. */
  function AvailableBelow(have: set<nat>, n: nat): (r: seq<nat>)
    ensures forall c: nat :: c in r <==> c < n && c in have
  {
    if n == 0 then [] else AvailableBelow(have, n - 1) + if n - 1 in have then [n - 1] else []
  }

  lemma GreatestLast(xs: seq<nat>, n: nat)
    requires StrictlyAscending(xs) && forall x :: x in xs ==> x < n
    ensures StrictlyAscending(xs + [n])
  {
    assert forall i :: 0 <= i < |xs| ==> xs[i] in xs;
  }

  lemma ListsStart(have: set<nat>)
    ensures AvailableBelow(have, 0) == [] && MissingBelow(have, 0) == []
  {
  }

  lemma ListsStep(have: set<nat>, n: nat)
    ensures AvailableBelow(have, n + 1) == if n in have then AvailableBelow(have, n) + [n] else AvailableBelow(have, n)
    ensures MissingBelow(have, n + 1) == if n in have then MissingBelow(have, n) else MissingBelow(have, n) + [n]
  {
  }

  lemma {:induction false} ListsAscend(have: set<nat>, n: nat)
    ensures StrictlyAscending(AvailableBelow(have, n)) && StrictlyAscending(MissingBelow(have, n))
  {
    hide AvailableBelow, MissingBelow;
    ListsStart(have);
    if n == 0 {
    } else {
      hide StrictlyAscending;
      ListsAscend(have, n - 1);
      ListsStep(have, n - 1);
      GreatestLast(AvailableBelow(have, n - 1), n - 1);
      GreatestLast(MissingBelow(have, n - 1), n - 1);
    }
  }

  /** The two lists share out the range. */
  lemma {:induction false} ListsShareOut(have: set<nat>, n: nat)
    ensures |AvailableBelow(have, n)| + |MissingBelow(have, n)| == n
    ensures |AvailableBelow(have, n)| == n <==> Full(have, n)
  {
    hide AvailableBelow, MissingBelow;
    if n == 0 {
      ListsStart(have);
    } else {
      ListsShareOut(have, n - 1);
      ListsStep(have, n - 1);
      if Full(have, n) {
        assert n - 1 in have;
      }
    }
  }

  function PartBelow(have: set<nat>, n: nat): set<nat> {
    set c | c in have && c < n
  }

  lemma PartStep(have: set<nat>, n: nat)
    ensures |PartBelow(have, n + 1)| == |PartBelow(have, n)| + if n in have then 1 else 0
  {
    var less := PartBelow(have, n);
    assert PartBelow(have, n + 1) == if n in have then less + {n} else less;
  }

  lemma {:induction false} AvailableCounts(have: set<nat>, n: nat)
    ensures |AvailableBelow(have, n)| == |PartBelow(have, n)|
  {
    hide AvailableBelow, MissingBelow;
    if n == 0 {
      ListsStart(have);
      assert PartBelow(have, 0) == {};
    } else {
      hide PartBelow;
      AvailableCounts(have, n - 1);
      ListsStep(have, n - 1);
      PartStep(have, n - 1);
    }
  }

  // ---------------------------------------------------------------- packed bytes

  /** Math.ceil(totalChunks / 8) */
  function RequiredBytes(total: nat): nat {
    (total + 7) / 8
  }

  function Mask(i: nat): bv8 {
    (1 as bv8) << (7 - i % 8)
  }

  predicate Bit(bytes: Bytes, i: nat)
    requires i / 8 < |bytes|
  {
    bytes[i / 8] & Mask(i) != 0
  }

  function WithBit(bytes: Bytes, i: nat): (r: Bytes)
    requires i / 8 < |bytes|
    ensures |r| == |bytes|
  {
    bytes[i / 8 := bytes[i / 8] | Mask(i)]
  }

  function WithoutBit(bytes: Bytes, i: nat): (r: Bytes)
    requires i / 8 < |bytes|
    ensures |r| == |bytes|
  {
    bytes[i / 8 := bytes[i / 8] & !Mask(i)]
  }

  function Members(bytes: Bytes, total: nat): (r: set<nat>)
    requires |bytes| == RequiredBytes(total)
    ensures forall c :: c in r ==> c < total
  {
    set i: nat | i < total && Bit(bytes, i)
  }

  /** The mask of an index as one of eight constants, which the solver compares at once. */
  function MaskOf(k: nat): bv8
    requires k < 8
  {
    match k
    case 0 => 128
    case 1 => 64
    case 2 => 32
    case 3 => 16
    case 4 => 8
    case 5 => 4
    case 6 => 2
    case 7 => 1
  }

  lemma MaskIsMaskOf(i: nat)
    ensures Mask(i) == MaskOf(i % 8)
  {
  }

  lemma MasksAreIndependent(b: bv8, j: nat, k: nat)
    requires j < 8 && k < 8
    ensures (b | MaskOf(j)) & MaskOf(k) != 0 <==> j == k || b & MaskOf(k) != 0
    ensures (b & !MaskOf(j)) & MaskOf(k) != 0 <==> j != k && b & MaskOf(k) != 0
  {
  }

  /** Setting or clearing a bit, spare or not, changes that bit alone. */
  lemma BitAfter(bytes: Bytes, i: nat, j: nat)
    requires i / 8 < |bytes| && j / 8 < |bytes|
    ensures Bit(WithBit(bytes, i), j) <==> j == i || Bit(bytes, j)
    ensures Bit(WithoutBit(bytes, i), j) <==> j != i && Bit(bytes, j)
  {
    MaskIsMaskOf(i);
    MaskIsMaskOf(j);
    if i / 8 == j / 8 {
      MasksAreIndependent(bytes[i / 8], i % 8, j % 8);
    }
  }

  lemma SetRefines(bytes: Bytes, total: nat, i: nat)
    requires |bytes| == RequiredBytes(total) && i < total
    ensures Members(WithBit(bytes, i), total) == Members(bytes, total) + {i}
    ensures Members(WithoutBit(bytes, i), total) == Members(bytes, total) - {i}
  {
    forall j: nat | j < total
      ensures Bit(WithBit(bytes, i), j) <==> j == i || Bit(bytes, j)
      ensures Bit(WithoutBit(bytes, i), j) <==> j != i && Bit(bytes, j)
    {
      BitAfter(bytes, i, j);
    }
  }

  // ---------------------------------------------------------------- the layout

  /** One byte for each eight indices, and one for those left over. */
  lemma RequiredExactly(total: nat, n: nat)
    ensures n == RequiredBytes(total) <==> 8 * n - 8 < total <= 8 * n
  {
  }

  lemma MaskPicksDigit(b: bv8, k: nat)
    requires k < 8
    ensures Digit(FromByte(b), 7 - k) <==> b & MaskOf(k) != 0
  {
    hide Digit, FromByte;
    DigitsOfByte(b);
  }

  lemma BitIsDigit(bytes: Bytes, i: nat)
    requires i / 8 < |bytes|
    ensures Bit(bytes, i) <==> Digit(FromByte(bytes[i / 8]), 7 - i % 8)
  {
    hide Digit, FromByte, Mask, MaskOf;
    MaskIsMaskOf(i);
    MaskPicksDigit(bytes[i / 8], i % 8);
  }

  /** The first index of a byte is its highest digit; the spare bits are the lowest digits of the last byte. */
  lemma MembersAreDigits(bytes: Bytes, total: nat, i: nat)
    requires |bytes| == RequiredBytes(total)
    ensures i in Members(bytes, total) <==> i < total && Digit(FromByte(bytes[i / 8]), 7 - i % 8)
  {
    hide Bit, Digit, FromByte;
    if i < total {
      BitIsDigit(bytes, i);
    }
  }

  /** What the bit `k` adds to the byte's number. */
  function Worth(b: bv8, k: nat): int
    requires k < 8
  {
    if b & MaskOf(k) != 0 then Power(7 - k) else 0
  }

  lemma NumberIsSum(b: bv8)
    ensures FromByte(b) ==
      Worth(b, 0) + Worth(b, 1) + Worth(b, 2) + Worth(b, 3) + Worth(b, 4) + Worth(b, 5) + Worth(b, 6) + Worth(b, 7)
  {
    hide Power;
    Powers();
  }

  lemma OtherWorth(b: bv8, k: nat, j: nat)
    requires k < 8 && j < 8
    ensures Worth(b | MaskOf(k), j) == if j == k then Power(7 - k) else Worth(b, j)
    ensures Worth(b & !MaskOf(k), j) == if j == k then 0 else Worth(b, j)
  {
    hide MaskOf, Power;
    MasksAreIndependent(b, k, j);
  }

  lemma MaskWeighs(b: bv8, k: nat)
    requires k < 8
    ensures FromByte(b | MaskOf(k)) == FromByte(b) - Worth(b, k) + Power(7 - k)
    ensures FromByte(b & !MaskOf(k)) == FromByte(b) - Worth(b, k)
  {
    hide MaskOf, Power, FromByte, Worth;
    NumberIsSum(b);
    NumberIsSum(b | MaskOf(k));
    NumberIsSum(b & !MaskOf(k));
    OtherWorth(b, k, 0);
    OtherWorth(b, k, 1);
    OtherWorth(b, k, 2);
    OtherWorth(b, k, 3);
    OtherWorth(b, k, 4);
    OtherWorth(b, k, 5);
    OtherWorth(b, k, 6);
    OtherWorth(b, k, 7);
  }

  /** The possessed digit of the index. */
  predicate On(bytes: Bytes, i: nat)
    requires i / 8 < |bytes|
  {
    Digit(FromByte(bytes[i / 8]), 7 - i % 8)
  }

  /** The byte of the index changes its number by `delta`, and no other byte changes. */
  ghost predicate Changes(before: Bytes, after: Bytes, i: nat, delta: int)
    requires i / 8 < |before|
  {
    && |after| == |before|
    && (forall j :: 0 <= j < |before| && j != i / 8 ==> after[j] == before[j])
    && FromByte(after[i / 8]) == FromByte(before[i / 8]) + delta
  }

  lemma ByteAfter(b: bv8, k: nat)
    requires k < 8
    ensures var on := Digit(FromByte(b), 7 - k);
      && FromByte(b | MaskOf(k)) == FromByte(b) + (if on then 0 else Power(7 - k))
      && FromByte(b & !MaskOf(k)) == FromByte(b) - (if on then Power(7 - k) else 0)
  {
    hide Digit, FromByte, Power, MaskOf;
    MaskPicksDigit(b, k);
    MaskWeighs(b, k);
  }

  lemma OneByteChanges(bytes: Bytes, i: nat, b: bv8)
    requires i / 8 < |bytes|
    ensures Changes(bytes, bytes[i / 8 := b], i, FromByte(b) - FromByte(bytes[i / 8]))
  {
    hide FromByte;
  }

  lemma BitsMasked(bytes: Bytes, i: nat)
    requires i / 8 < |bytes|
    ensures WithBit(bytes, i) == bytes[i / 8 := bytes[i / 8] | MaskOf(i % 8)]
    ensures WithoutBit(bytes, i) == bytes[i / 8 := bytes[i / 8] & !MaskOf(i % 8)]
  {
    hide Mask, MaskOf;
    MaskIsMaskOf(i);
  }

  /** Setting or clearing a bit adds or takes away the power of two that it stands for. */
  lemma WeightAfter(bytes: Bytes, i: nat)
    requires i / 8 < |bytes|
    ensures Changes(bytes, WithBit(bytes, i), i, if On(bytes, i) then 0 else Power(7 - i % 8))
    ensures Changes(bytes, WithoutBit(bytes, i), i, if On(bytes, i) then -Power(7 - i % 8) else 0)
  {
    hide Digit, FromByte, Power, WithBit, WithoutBit, MaskOf, Changes;
    var b, k := bytes[i / 8], i % 8;
    ByteAfter(b, k);
    BitsMasked(bytes, i);
    OneByteChanges(bytes, i, b | MaskOf(k));
    OneByteChanges(bytes, i, b & !MaskOf(k));
  }

  // ---------------------------------------------------------------- histories

  datatype Operation = Set(index: nat) | Clear(index: nat)

  /** An index out of bounds throws and leaves the bits. */
  function Apply(bytes: Bytes, total: nat, op: Operation): (r: Bytes)
    requires |bytes| == RequiredBytes(total)
    ensures |r| == |bytes|
  {
    if op.index >= total then bytes
    else if op.Set? then WithBit(bytes, op.index) else WithoutBit(bytes, op.index)
  }

  function ApplyAll(bytes: Bytes, total: nat, ops: seq<Operation>): (r: Bytes)
    requires |bytes| == RequiredBytes(total)
    ensures |r| == |bytes|
  {
    if ops == [] then bytes else Apply(ApplyAll(bytes, total, ops[..|ops| - 1]), total, ops[|ops| - 1])
  }

  /** The last operation on `i` that the history holds, if any, decides. */
  ghost predicate Possessed(initially: bool, ops: seq<Operation>, i: nat) {
    if ops == [] then initially
    else if ops[|ops| - 1].index == i then ops[|ops| - 1].Set?
    else Possessed(initially, ops[..|ops| - 1], i)
  }

  lemma {:induction false} HistoryRefines(bytes: Bytes, total: nat, ops: seq<Operation>, i: nat)
    requires |bytes| == RequiredBytes(total) && i < total
    ensures i in Members(ApplyAll(bytes, total, ops), total) <==> Possessed(i in Members(bytes, total), ops, i)
  {
    if ops == [] {
    } else {
      var front, last := ops[..|ops| - 1], ops[|ops| - 1];
      HistoryRefines(bytes, total, front, i);
      if last.index < total {
        BitAfter(ApplyAll(bytes, total, front), last.index, i);
      }
    }
  }

  /** Two byte strings that differ only in spare bits are the same bitfield, and stay so. */
  lemma {:induction false} SpareBitsIgnored(a: Bytes, b: Bytes, total: nat, ops: seq<Operation>)
    requires |a| == |b| == RequiredBytes(total)
    requires forall i: nat :: i < total ==> (Bit(a, i) <==> Bit(b, i))
    ensures Members(ApplyAll(a, total, ops), total) == Members(ApplyAll(b, total, ops), total)
  {
    forall i: nat | i < total
      ensures i in Members(ApplyAll(a, total, ops), total) <==> i in Members(ApplyAll(b, total, ops), total)
    {
      HistoryRefines(a, total, ops, i);
      HistoryRefines(b, total, ops, i);
    }
  }

  // ---------------------------------------------------------------- the object

  class Bitfield {
    const totalChunks: nat
    const bytes: array<bv8>

    ghost predicate Valid()
      reads this
    {
      bytes.Length == RequiredBytes(totalChunks)
    }

    /** The possessed chunks. */
    ghost function Contents(): set<nat>
      requires Valid()
      reads this, bytes
    {
      Members(bytes[..], totalChunks)
    }

    constructor (totalChunks: nat, initialBytes: Bytes)
      requires |initialBytes| == RequiredBytes(totalChunks)
      ensures Valid() && fresh(bytes) && this.totalChunks == totalChunks && bytes[..] == initialBytes
    {
      this.totalChunks := totalChunks;
      var copy := new bv8[|initialBytes|](i requires 0 <= i < |initialBytes| => initialBytes[i]);
      bytes := copy;
      new;
      assert bytes[..] == initialBytes;
    }

    /** `new Bitfield(totalChunks, initialBytes)`: null where that throws. */
    static method FromBytes(totalChunks: int, initialBytes: Bytes) returns (bf: Bitfield?)
      ensures bf == null <==> totalChunks < 0 || !(8 * |initialBytes| - 8 < totalChunks <= 8 * |initialBytes|)
      ensures bf != null ==> fresh(bf) && fresh(bf.bytes) && bf.Valid()
      ensures bf != null ==> bf.totalChunks == totalChunks && bf.bytes[..] == initialBytes
    {
      if totalChunks < 0 {
        return null;
      }
      RequiredExactly(totalChunks, |initialBytes|);
      if |initialBytes| != RequiredBytes(totalChunks) {
        return null;
      }
      bf := new Bitfield(totalChunks, initialBytes);
    }

    /** Reports whether the index was out of bounds, in which case nothing changes. */
    method Set(chunkIndex: int) returns (threw: bool)
      requires Valid()
      modifies bytes
      ensures threw <==> chunkIndex < 0 || chunkIndex >= totalChunks
      ensures threw ==> bytes[..] == old(bytes[..])
      ensures !threw ==> Changes(old(bytes[..]), bytes[..], chunkIndex,
                                 if On(old(bytes[..]), chunkIndex) then 0 else Power(7 - chunkIndex % 8))
      ensures Contents() == if threw then old(Contents()) else old(Contents()) + {chunkIndex}
    {
      if chunkIndex < 0 || chunkIndex >= totalChunks {
        return true;
      }
      hide Mask, Members, On, Changes, Power;
      SetRefines(bytes[..], totalChunks, chunkIndex);
      WeightAfter(bytes[..], chunkIndex);
      bytes[chunkIndex / 8] := bytes[chunkIndex / 8] | Mask(chunkIndex);
      assert bytes[..] == WithBit(old(bytes[..]), chunkIndex);
      return false;
    }

    method Clear(chunkIndex: int) returns (threw: bool)
      requires Valid()
      modifies bytes
      ensures threw <==> chunkIndex < 0 || chunkIndex >= totalChunks
      ensures threw ==> bytes[..] == old(bytes[..])
      ensures !threw ==> Changes(old(bytes[..]), bytes[..], chunkIndex,
                                 if On(old(bytes[..]), chunkIndex) then -Power(7 - chunkIndex % 8) else 0)
      ensures Contents() == if threw then old(Contents()) else old(Contents()) - {chunkIndex}
    {
      if chunkIndex < 0 || chunkIndex >= totalChunks {
        return true;
      }
      hide Mask, Members, On, Changes, Power;
      SetRefines(bytes[..], totalChunks, chunkIndex);
      WeightAfter(bytes[..], chunkIndex);
      bytes[chunkIndex / 8] := bytes[chunkIndex / 8] & !Mask(chunkIndex);
      assert bytes[..] == WithoutBit(old(bytes[..]), chunkIndex);
      return false;
    }

    method Has(chunkIndex: int) returns (possessed: bool)
      requires Valid()
      ensures possessed <==> 0 <= chunkIndex && chunkIndex in Contents()
      ensures possessed <==> 0 <= chunkIndex < totalChunks && On(bytes[..], chunkIndex)
    {
      hide Digit, FromByte;
      if chunkIndex < 0 || chunkIndex >= totalChunks {
        return false;
      }
      possessed := bytes[chunkIndex / 8] & Mask(chunkIndex) != 0;
      BitIsDigit(bytes[..], chunkIndex);
      assert possessed <==> Bit(bytes[..], chunkIndex);
    }

    method Count() returns (count: nat)
      requires Valid()
      ensures count == |Contents()|
    {
      count := 0;
      for i := 0 to totalChunks
        invariant count == |AvailableBelow(Contents(), i)|
      {
        var possessed := Has(i);
        if possessed {
          count := count + 1;
        }
      }
      AvailableCounts(Contents(), totalChunks);
      assert PartBelow(Contents(), totalChunks) == Contents();
    }

    method IsComplete() returns (complete: bool)
      requires Valid()
      ensures complete <==> Full(Contents(), totalChunks)
    {
      if totalChunks == 0 {
        return true;
      }
      var count := Count();
      AvailableCounts(Contents(), totalChunks);
      assert PartBelow(Contents(), totalChunks) == Contents();
      ListsShareOut(Contents(), totalChunks);
      complete := count == totalChunks;
    }

    method GetAvailableIndices() returns (indices: seq<nat>)
      requires Valid()
      ensures indices == AvailableBelow(Contents(), totalChunks)
    {
      hide Members;
      ghost var have := Contents();
      indices := [];
      assert AvailableBelow(have, 0) == [];
      for i := 0 to totalChunks
        invariant indices == AvailableBelow(have, i)
      {
        hide AvailableBelow;
        ListsStep(have, i);
        var possessed := Has(i);
        if possessed {
          indices := indices + [i];
        }
      }
    }

    method GetMissingIndices() returns (indices: seq<nat>)
      requires Valid()
      ensures indices == MissingBelow(Contents(), totalChunks)
    {
      hide Members;
      ghost var have := Contents();
      indices := [];
      assert MissingBelow(have, 0) == [];
      for i := 0 to totalChunks
        invariant indices == MissingBelow(have, i)
      {
        hide MissingBelow;
        ListsStep(have, i);
        var possessed := Has(i);
        if !possessed {
          indices := indices + [i];
        }
      }
    }

    method ToBytes() returns (copy: Bytes)
      ensures copy == bytes[..]
    {
      copy := bytes[..];
    }

    static method All(totalChunks: nat) returns (bf: Bitfield)
      ensures fresh(bf) && fresh(bf.bytes) && bf.Valid() && bf.totalChunks == totalChunks
      ensures Full(bf.Contents(), totalChunks)
    {
      bf := new Bitfield(totalChunks, Zeros(RequiredBytes(totalChunks)));
      for i := 0 to totalChunks
        invariant fresh(bf.bytes) && bf.Valid() && Full(bf.Contents(), i)
      {
        var _ := bf.Set(i);
      }
    }
  }

  /** A bitfield made from another's bytes answers every question alike, after any history. */
  method CopyThroughBytes(bf: Bitfield) returns (copy: Bitfield)
    requires bf.Valid()
    ensures fresh(copy) && copy.Valid() && copy.totalChunks == bf.totalChunks && copy.Contents() == bf.Contents()
  {
    var raw := bf.ToBytes();
    var made := Bitfield.FromBytes(bf.totalChunks, raw);
    copy := made;
  }
}
