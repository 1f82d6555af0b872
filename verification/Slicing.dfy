/** Cutting a byte string into consecutive pieces of one size, the last one possibly shorter. */
module Slicing {
  import opened Bytes

  function Min(a: int, b: int): int {
    if a < b then a else b
  }

  function Slices(file: Bytes, size: nat): seq<Bytes>
    requires size > 0
  {
    if |file| == 0 then []
    else if |file| <= size then [file]
    else [file[..size]] + Slices(file[size..], size)
  }

  lemma Associates(a: Bytes, b: Bytes, c: Bytes)
    ensures (a + b) + c == a + (b + c)
  {
  }

  lemma ConcatFirst(parts: seq<Bytes>)
    requires parts != []
    ensures Concat(parts) == parts[0] + Concat(parts[1..])
    ensures SumLengths(parts) == |parts[0]| + SumLengths(parts[1..])
  {
    var n := |parts| - 1;
    var front, last := parts[..n], parts[n];
    if n == 0 {
      assert parts[..0] == [] && parts[1..] == [];
    } else {
      hide Concat, SumLengths;
      ConcatFirst(front);
      assert parts == front + [last] && parts[1..] == front[1..] + [last];
      ConcatAppend(front, last);
      ConcatAppend(front[1..], last);
      Associates(front[0], Concat(front[1..]), last);
    }
  }

  /** The pieces give back the string. */
  lemma {:induction false} SlicesJoin(file: Bytes, size: nat)
    requires size > 0
    ensures Concat(Slices(file, size)) == file
    ensures SumLengths(Slices(file, size)) == |file|
  {
    if |file| > 0 {
      var parts := Slices(file, size);
      ConcatFirst(parts);
      if |file| <= size {
        assert parts[1..] == [];
      } else {
        hide Concat, SumLengths;
        SlicesJoin(file[size..], size);
        assert parts[1..] == Slices(file[size..], size);
        assert file[..size] + file[size..] == file;
      }
    }
  }

  lemma QuotientBetween(x: nat, d: nat, q: nat)
    requires d > 0
    ensures q * d <= x < q * d + d <==> q == x / d
  {
    var r := x % d;
    assert x == d * (x / d) + r;
    if q < x / d {
      assert (q + 1) * d <= (x / d) * d;
    } else if q > x / d {
      assert (x / d + 1) * d <= q * d;
    }
  }

  lemma QuotientStep(x: nat, d: nat)
    requires d > 0
    ensures (x + d) / d == x / d + 1
  {
    QuotientBetween(x, d, x / d);
    QuotientBetween(x + d, d, x / d + 1);
    assert (x / d + 1) * d == x / d * d + d;
  }

  /** Math.ceil(length / size) */
  function Pieces(length: nat, size: nat): (n: nat)
    requires size > 0
  {
    (length + size - 1) / size
  }

  lemma PiecesFewer(length: nat, size: nat)
    requires 0 < size < length
    ensures Pieces(length, size) == 1 + Pieces(length - size, size)
  {
    QuotientStep(length - 1, size);
  }

  lemma PiecesOne(length: nat, size: nat)
    requires 0 < length <= size
    ensures Pieces(length, size) == 1
  {
    QuotientStep(length - 1, size);
    QuotientBetween(length - 1, size, 0);
  }

  lemma {:induction false} SlicesCount(file: Bytes, size: nat)
    requires size > 0
    ensures |Slices(file, size)| == Pieces(|file|, size)
  {
    if |file| == 0 {
      assert (size - 1) / size == 0;
    } else if |file| <= size {
      PiecesOne(|file|, size);
    } else {
      SlicesCount(file[size..], size);
      PiecesFewer(|file|, size);
    }
  }

  lemma OneMore(k: nat, size: nat)
    ensures (k + 1) * size == k * size + size
  {
  }

  lemma ShiftedSlice(file: Bytes, size: nat, at: nat)
    requires size <= |file| && at <= |file| - size
    ensures var rest := file[size..];
      rest[at..Min(at + size, |rest|)] == file[at + size..Min(at + size + size, |file|)]
  {
  }

  /** Piece `i` starts at `i * size` and is full unless the string ends. */
  lemma {:induction false} SliceAt(file: Bytes, size: nat, i: nat)
    requires size > 0 && i < |Slices(file, size)|
    ensures 0 <= i * size < |file|
    ensures Slices(file, size)[i] == file[i * size..Min(i * size + size, |file|)]
  {
    if i == 0 {
    } else {
      assert |file| > size;
      SliceAt(file[size..], size, i - 1);
      OneMore(i - 1, size);
      ShiftedSlice(file, size, (i - 1) * size);
    }
  }

  lemma SlicesFirst(first: Bytes, others: Bytes, size: nat)
    requires 0 < size == |first|
    ensures Slices(first + others, size) == [first] + Slices(others, size)
  {
    assert (first + others)[..size] == first && (first + others)[size..] == others;
    assert others == [] ==> first + others == first;
  }

  /** Full pieces that were cut off one by one are the first pieces of the whole. */
  lemma {:induction false} FullThenRest(full: seq<Bytes>, rest: Bytes, size: nat)
    requires size > 0
    requires forall i :: 0 <= i < |full| ==> |full[i]| == size
    ensures Slices(Concat(full) + rest, size) == full + Slices(rest, size)
  {
    if full == [] {
      assert Concat(full) + rest == rest;
    } else {
      hide Concat, Slices;
      var tail := full[1..];
      ConcatFirst(full);
      FullThenRest(tail, rest, size);
      Associates(full[0], Concat(tail), rest);
      SlicesFirst(full[0], Concat(tail) + rest, size);
      assert full == [full[0]] + tail;
    }
  }

  lemma ProductsOrdered(a: nat, b: nat, d: nat)
    requires a <= b
    ensures a * d <= b * d
  {
  }

  lemma PiecesCover(length: nat, size: nat, k: nat)
    requires size > 0
    ensures k < Pieces(length, size) <==> k * size < length
  {
    var n := length + size - 1;
    QuotientBetween(n, size, n / size);
    if k < n / size {
      ProductsOrdered(k + 1, n / size, size);
    } else {
      ProductsOrdered(n / size, k, size);
    }
  }

  lemma {:induction false} SlicesNonEmpty(file: Bytes, size: nat, i: nat)
    requires size > 0 && i < |Slices(file, size)|
    ensures 0 < |Slices(file, size)[i]| <= size
  {
    SliceAt(file, size, i);
  }
}
