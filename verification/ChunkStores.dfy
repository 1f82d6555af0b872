/** The in-memory chunk store: a string-keyed map that stands for a map from resource and index. */
module ChunkStores {
  import opened Bytes
  import opened Decimals
  import opened OrderedMaps
  import Sorting

  // ---------------------------------------------------------------- keys

  function Prefix(id: string): string {
    id + "::"
  }

  function MakeKey(id: string, n: nat): string {
    Prefix(id) + Decimal(n)
  }

  /** The numeral holds no colon. */
  lemma NumeralPart(id: string, n: nat)
    ensures forall i :: |id| + 2 <= i < |MakeKey(id, n)| ==> MakeKey(id, n)[i] != ':'
  {
    forall i | |id| + 2 <= i < |MakeKey(id, n)| ensures MakeKey(id, n)[i] != ':' {
      assert MakeKey(id, n)[i] == Decimal(n)[i - |id| - 2];
    }
  }

  lemma IdPart(id: string, n: nat)
    ensures forall i :: 0 <= i < |id| ==> MakeKey(id, n)[i] in id
  {
    forall i | 0 <= i < |id| ensures MakeKey(id, n)[i] in id {
      assert MakeKey(id, n)[i] == id[i];
    }
  }

  /** Different chunks have different keys, whatever characters the ids hold. */
  lemma KeysInjective(id: string, n: nat, id': string, n': nat)
    requires MakeKey(id, n) == MakeKey(id', n')
    ensures id == id' && n == n'
  {
    var key := MakeKey(id, n);
    assert key[|id| + 1] == ':' && key[|id'| + 1] == ':';
    NumeralPart(id, n);
    NumeralPart(id', n');
    assert id == key[..|id|] == id';
    assert Decimal(n) == key[|id| + 2..] == Decimal(n');
    ParsesDecimal(n);
    ParsesDecimal(n');
  }

  /** The number that `getAvailableChunks(id)` reads from a key, if any. */
  function ReadIndex(key: string, id: string): Option<int> {
    if Prefix(id) <= key then ParseInt(key[|Prefix(id)|..]) else None
  }

  lemma ReadsOwnKey(id: string, n: nat)
    ensures ReadIndex(MakeKey(id, n), id) == Some(n)
  {
    assert MakeKey(id, n)[|Prefix(id)|..] == Decimal(n);
    ParsesDecimal(n);
  }

  predicate IsKeyOf(key: string, id: string) {
    var r := ReadIndex(key, id);
    r.Some? && r.value >= 0 && key == MakeKey(id, r.value)
  }

  /** Of two different ids, one without a colon never has keys under the other's prefix. */
  lemma PlainIdsApart(id: string, id': string, n: nat)
    requires ':' !in id' && Prefix(id) <= MakeKey(id', n)
    ensures id == id'
  {
    var key := MakeKey(id', n);
    assert key[|id|] == Prefix(id)[|id|] == ':' && key[|id| + 1] == Prefix(id)[|id| + 1] == ':';
    NumeralPart(id', n);
    IdPart(id', n);
    assert id == key[..|id|] == id';
  }

  // ---------------------------------------------------------------- listing

  /** What is read from the keys, in their order. */
  function ReadAll(keys: seq<string>, id: string): seq<int> {
    if keys == [] then []
    else
      var r := ReadIndex(keys[|keys| - 1], id);
      ReadAll(keys[..|keys| - 1], id) + if r.Some? then [r.value] else []
  }

  /** What is read from the resource's own keys. */
  function ReadOwn(keys: seq<string>, id: string): seq<int> {
    if keys == [] then []
    else
      var last := keys[|keys| - 1];
      ReadOwn(keys[..|keys| - 1], id) + if IsKeyOf(last, id) then [ReadIndex(last, id).value] else []
  }

  /** A key of another resource that is read as an index of this one. */
  predicate Shadows(key: string, id: string) {
    ReadIndex(key, id).Some? && !IsKeyOf(key, id)
  }

  ghost predicate Shadowed(keys: seq<string>, id: string) {
    exists i :: 0 <= i < |keys| && Shadows(keys[i], id)
  }

  lemma {:induction false} ListsExactly(keys: seq<string>, id: string)
    ensures |ReadAll(keys, id)| >= |ReadOwn(keys, id)|
    ensures |ReadAll(keys, id)| > |ReadOwn(keys, id)| <==> Shadowed(keys, id)
    ensures !Shadowed(keys, id) ==> ReadAll(keys, id) == ReadOwn(keys, id)
  {
    if keys == [] {
    } else {
      var n := |keys| - 1;
      ListsExactly(keys[..n], id);
      if Shadowed(keys[..n], id) {
        var i :| 0 <= i < n && Shadows(keys[..n][i], id);
        assert Shadows(keys[i], id);
      }
      if Shadowed(keys, id) && !Shadows(keys[n], id) {
        var i :| 0 <= i < |keys| && Shadows(keys[i], id);
        assert keys[..n][i] == keys[i];
      }
    }
  }

  lemma {:induction false} OwnIndices(keys: seq<string>, id: string)
    requires Distinct(keys)
    ensures Distinct(ReadOwn(keys, id))
    ensures forall x: int :: x in ReadOwn(keys, id) <==> x >= 0 && MakeKey(id, x) in keys
  {
    if keys == [] {
    } else {
      var front, last := keys[..|keys| - 1], keys[|keys| - 1];
      OwnIndices(front, id);
      assert forall k :: k in keys <==> k in front || k == last;
      assert last !in front;
      forall x: nat | MakeKey(id, x) == last ensures IsKeyOf(last, id) && ReadIndex(last, id).value == x {
        ReadsOwnKey(id, x);
      }
    }
  }

  /** Each of the resource's own indices is listed, whatever else is. */
  lemma {:induction false} OwnListed(keys: seq<string>, id: string, n: nat)
    requires MakeKey(id, n) in keys
    ensures n in ReadAll(keys, id)
  {
    hide MakeKey, ReadIndex;
    var front, last := keys[..|keys| - 1], keys[|keys| - 1];
    assert keys == front + [last];
    if last == MakeKey(id, n) {
      ReadsOwnKey(id, n);
    } else {
      OwnListed(front, id, n);
    }
  }

  function Identity(x: int): int {
    x
  }

  /** The resource's own indices, each once and ascending. */
  ghost predicate ListsOwn(r: seq<int>, keys: seq<string>, id: string) {
    && (forall i, j :: 0 <= i < j < |r| ==> r[i] < r[j])
    && (forall x: int :: x in r <==> x >= 0 && MakeKey(id, x) in keys)
  }

  lemma {:induction false} ElementsCount(xs: seq<int>)
    requires Distinct(xs)
    ensures |set x | x in xs| == |xs|
  {
    if xs == [] {
    } else {
      var front, last := xs[..|xs| - 1], xs[|xs| - 1];
      ElementsCount(front);
      assert (set x | x in xs) == (set x | x in front) + {last};
      assert last !in front;
    }
  }

  lemma {:induction false} SameElementsSameLength(xs: seq<int>, ys: seq<int>)
    requires Distinct(xs) && Distinct(ys) && forall x :: x in xs <==> x in ys
    ensures |xs| == |ys|
  {
    ElementsCount(xs);
    ElementsCount(ys);
    assert (set x | x in xs) == (set y | y in ys);
  }

  lemma OwnListLength(r: seq<int>, keys: seq<string>, id: string)
    requires Distinct(keys) && ListsOwn(r, keys, id)
    ensures |r| == |ReadOwn(keys, id)|
  {
    var own := ReadOwn(keys, id);
    OwnIndices(keys, id);
    assert Distinct(r);
    SameElementsSameLength(r, own);
  }

  /** The listing is exact if and only if no key of another resource is read as an index of this one. */
  lemma ListingExact(keys: seq<string>, id: string)
    requires Distinct(keys)
    ensures var r := Sorting.Sort(ReadAll(keys, id), Identity);
      && (forall i, j :: 0 <= i < j < |r| ==> r[i] <= r[j])
      && (ListsOwn(r, keys, id) <==> !Shadowed(keys, id))
  {
    hide Sorting.Sort, ReadAll, ReadOwn, Shadowed, MakeKey;
    var all, own := ReadAll(keys, id), ReadOwn(keys, id);
    var r := Sorting.Sort(all, Identity);
    ListsExactly(keys, id);
    OwnIndices(keys, id);
    Sorting.SortCorrect(all, Identity);
    Sorting.SortedElements(all, Identity);
    forall i, j | 0 <= i < j < |r| ensures r[i] <= r[j] {
      assert Identity(r[i]) <= Identity(r[j]);
    }
    if !Shadowed(keys, id) {
      Sorting.SortKeepsDistinct(all, Identity);
    } else if ListsOwn(r, keys, id) {
      OwnListLength(r, keys, id);
    }
  }

  /** No resource is shadowed while the stored ids hold no colon. */
  lemma PlainIdsUnshadowed(keys: seq<string>, id: string)
    requires forall i :: 0 <= i < |keys| ==> exists id', n: nat :: ':' !in id' && keys[i] == MakeKey(id', n)
    ensures !Shadowed(keys, id)
  {
    forall i | 0 <= i < |keys| ensures !Shadows(keys[i], id) {
      var id', n: nat :| ':' !in id' && keys[i] == MakeKey(id', n);
      if Prefix(id) <= keys[i] {
        PlainIdsApart(id, id', n);
        ReadsOwnKey(id, n);
      }
    }
  }

  /** Among ids without a colon, the prefix of a resource picks out exactly its chunks. */
  lemma PrefixPicksOwn(contents: map<(string, nat), Bytes>, id: string)
    requires forall p :: p in contents ==> ':' !in p.0
    ensures (map p | p in contents && !(Prefix(id) <= MakeKey(p.0, p.1)) :: contents[p])
      == (map p | p in contents && p.0 != id :: contents[p])
  {
    forall p | p in contents ensures Prefix(id) <= MakeKey(p.0, p.1) <==> p.0 == id {
      if Prefix(id) <= MakeKey(p.0, p.1) {
        PlainIdsApart(id, p.0, p.1);
      }
    }
  }

  /** The ids "a" and "a::1": chunk 5 of the second is listed as chunk 1 of the first. */
  lemma ShadowExample()
    ensures ReadAll([MakeKey("a::1", 5)], "a") == [1]
    ensures ReadOwn([MakeKey("a::1", 5)], "a") == []
    ensures MakeKey("a::1", 5) == "a::1::5" && MakeKey("a", 10) == "a::10"
  {
    assert Decimal(10) == Decimal(1) + "0";
    var key := MakeKey("a::1", 5);
    assert key == "a::1::5";
    assert key[3..] == "1::5";
    assert LeadingDigits("1::5") == ['1'] + LeadingDigits("1::5"[1..]);
    assert "1::5"[1..] == "::5";
    assert ValueOf("1") == ValueOf("1"[..0]) * 10 + 1;
    assert MakeKey("a", 1) == "a::1";
    var keys: seq<string> := [key];
    assert keys[..0] == [];
  }

  // ---------------------------------------------------------------- the object

  /** Each keyed string stands for one chunk, and each chunk has one. */
  ghost predicate StandsFor(vals: map<string, Bytes>, contents: map<(string, nat), Bytes>) {
    && (forall id, n: nat :: (id, n) in contents <==> MakeKey(id, n) in vals)
    && (forall id, n: nat :: (id, n) in contents ==> contents[(id, n)] == vals[MakeKey(id, n)])
    && (forall key :: key in vals ==> exists id, n: nat :: key == MakeKey(id, n))
  }

  /** What is left when those of `cleared` that begin with the prefix are gone. */
  ghost function Remaining(vals: map<string, Bytes>, cleared: seq<string>, prefix: string): map<string, Bytes> {
    map key | key in vals && !(key in cleared && prefix <= key) :: vals[key]
  }

  lemma NoneCleared(vals: map<string, Bytes>, prefix: string)
    ensures Remaining(vals, [], prefix) == vals
  {
  }

  lemma ClearMore(vals: map<string, Bytes>, cleared: seq<string>, key: string, prefix: string)
    ensures Remaining(vals, cleared + [key], prefix) ==
      if prefix <= key then Remaining(vals, cleared, prefix) - {key} else Remaining(vals, cleared, prefix)
  {
  }

  lemma ClearStands(contents: map<(string, nat), Bytes>, vals: map<string, Bytes>, keys: seq<string>, id: string)
    requires StandsFor(vals, contents) && forall key :: key in vals ==> key in keys
    ensures StandsFor(Remaining(vals, keys, Prefix(id)),
                      map p | p in contents && !(Prefix(id) <= MakeKey(p.0, p.1)) :: contents[p])
  {
    hide MakeKey, Prefix;
  }

  class MemoryChunkStore {
    var storage: OrderedMap<string, Bytes>
    /** The map that the keyed strings stand for. */
    ghost var contents: map<(string, nat), Bytes>

    ghost predicate Valid()
      reads this
    {
      StandsFor(storage.vals, contents)
    }

    constructor ()
      ensures Valid() && contents == map[]
    {
      storage := Empty();
      contents := map[];
    }

    method Put(id: string, n: nat, data: Bytes)
      requires Valid()
      modifies this
      ensures Valid() && contents == old(contents)[(id, n) := data]
    {
      storage := storage.Set(MakeKey(id, n), data);
      contents := contents[(id, n) := data];
      forall id', n': nat | MakeKey(id', n') == MakeKey(id, n) ensures id' == id && n' == n {
        KeysInjective(id', n', id, n);
      }
    }

    method Get(id: string, n: nat) returns (data: Option<Bytes>)
      requires Valid()
      ensures data == if (id, n) in contents then Some(contents[(id, n)]) else None
    {
      var key := MakeKey(id, n);
      data := if key in storage.vals then Some(storage.vals[key]) else None;
    }

    method Has(id: string, n: nat) returns (present: bool)
      requires Valid()
      ensures present <==> (id, n) in contents
    {
      present := MakeKey(id, n) in storage.vals;
    }

    method Delete(id: string, n: nat)
      requires Valid()
      modifies this
      ensures Valid() && contents == old(contents) - {(id, n)}
    {
      storage := storage.Delete(MakeKey(id, n));
      contents := contents - {(id, n)};
      forall id', n': nat | MakeKey(id', n') == MakeKey(id, n) ensures id' == id && n' == n {
        KeysInjective(id', n', id, n);
      }
    }

    /** Exact if and only if the resource is not shadowed. */
    method GetAvailableChunks(id: string) returns (indices: seq<int>)
      requires Valid()
      ensures forall i, j :: 0 <= i < j < |indices| ==> indices[i] <= indices[j]
      ensures forall x :: x in indices <==> x in ReadAll(storage.keys, id)
      ensures ListsOwn(indices, storage.keys, id) <==> !Shadowed(storage.keys, id)
      ensures forall n: nat :: MakeKey(id, n) in storage.keys <==> (id, n) in contents
    {
      var found := [];
      for k := 0 to |storage.keys|
        invariant found == ReadAll(storage.keys[..k], id)
      {
        var key := storage.keys[k];
        assert storage.keys[..k + 1][..k] == storage.keys[..k];
        if Prefix(id) <= key {
          var index := ParseInt(key[|Prefix(id)|..]);
          if index.Some? {
            found := found + [index.value];
          }
        }
      }
      assert storage.keys[..|storage.keys|] == storage.keys;
      indices := Sorting.Sort(found, Identity);
      Sorting.SortedElements(found, Identity);
      ListingExact(storage.keys, id);
      assert forall key :: key in storage.keys <==> key in storage.vals.Keys;
    }

    /** Removes what is stored under the prefix. */
    method Clear(id: string)
      requires Valid()
      modifies this
      ensures Valid()
      ensures contents == map p | p in old(contents) && !(Prefix(id) <= MakeKey(p.0, p.1)) :: old(contents)[p]
    {
      hide StandsFor, MakeKey, Prefix, Remaining;
      var keys := storage.keys;
      ghost var before := storage.vals;
      NoneCleared(before, Prefix(id));
      for k := 0 to |keys|
        invariant storage.vals == Remaining(before, keys[..k], Prefix(id))
        invariant contents == old(contents)
      {
        assert keys[..k + 1] == keys[..k] + [keys[k]];
        ClearMore(before, keys[..k], keys[k], Prefix(id));
        if Prefix(id) <= keys[k] {
          storage := storage.Delete(keys[k]);
        }
      }
      assert keys[..|keys|] == keys;
      assert forall key :: key in before ==> key in keys by {
        assert forall key :: key in before.Keys ==> key in keys;
      }
      ClearStands(contents, before, keys, id);
      contents := map p | p in contents && !(Prefix(id) <= MakeKey(p.0, p.1)) :: contents[p];
    }
  }
}
