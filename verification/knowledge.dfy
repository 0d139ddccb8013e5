/** An agent's `knowledge` dictionary: customer id to believed coordinate.
    Python dictionaries iterate in insertion order, and both the nearest-target
    tie-break and the consensus pass follow that order, so the model keeps the
    keys in insertion order beside the entries. */
module Knowledge {
  import opened Geometry

  datatype Dict = Dict(keys: seq<nat>, at: map<nat, Pos>)
  {
    /** Every key is listed exactly once, and exactly the keys of `at` are listed. */
    ghost predicate Valid()
    {
      && (forall i, j :: 0 <= i < j < |keys| ==> keys[i] != keys[j])
      && (forall k :: k in at ==> k in keys)
      && (forall i :: 0 <= i < |keys| ==> keys[i] in at)
    }
  }

  /** `{}` */
  const Empty: Dict := Dict([], map[])

  /** `d[k] = v`: a new key goes to the end of the iteration order, an existing
      key keeps its place. */
  function Put(d: Dict, k: nat, v: Pos): (r: Dict)
    requires d.Valid()
    ensures r.Valid()
    ensures k in r.at && r.at[k] == v
    ensures forall c :: c in r.at <==> c in d.at || c == k
    ensures forall c :: c in d.at && c != k ==> r.at[c] == d.at[c]
    ensures k in d.at ==> r.keys == d.keys
    ensures k !in d.at ==> r.keys == d.keys + [k]
  {
    if k in d.at then Dict(d.keys, d.at[k := v]) else Dict(d.keys + [k], d.at[k := v])
  }

  /** `d.update(src)`: the entries of `src`, in `src`'s order, are put into `d`
      one at a time. */
  function Update(d: Dict, src: Dict): (r: Dict)
    requires d.Valid() && src.Valid()
    ensures r.Valid()
  {
    PutAll(d, src.keys, src.at)
  }

  function PutAll(d: Dict, ks: seq<nat>, at: map<nat, Pos>): (r: Dict)
    requires d.Valid()
    requires forall k :: k in ks ==> k in at
    ensures r.Valid()
  {
    if ks == [] then d
    else Put(PutAll(d, ks[..|ks| - 1], at), ks[|ks| - 1], at[ks[|ks| - 1]])
  }

  /** The keys of `ks` that `d` does not hold, in the order of `ks`. */
  function NewKeys(d: Dict, ks: seq<nat>): (r: seq<nat>)
  {
    if ks == [] then []
    else NewKeys(d, ks[..|ks| - 1]) + (if ks[|ks| - 1] in d.at then [] else [ks[|ks| - 1]])
  }

  /** `NewKeys` lists exactly the keys of `ks` missing from `d`. */
  lemma {:induction false} NewKeysMembers(d: Dict, ks: seq<nat>)
    ensures forall c :: c in NewKeys(d, ks) <==> c in ks && c !in d.at
  {
    if ks != [] {
      var front := ks[..|ks| - 1];
      NewKeysMembers(d, front);
      assert forall c :: c in ks <==> c in front || c == ks[|ks| - 1];
    }
  }

  /** After `d.update(src)` the keys are those of both; `src`'s values win,
      the rest of `d` is kept, and the iteration order is `d`'s keys followed
      by `src`'s new keys in `src`'s order. */
  lemma UpdateEntries(d: Dict, src: Dict)
    requires d.Valid() && src.Valid()
    ensures var r := Update(d, src);
      && (forall c :: c in r.at <==> c in d.at || c in src.at)
      && (forall c :: c in src.at ==> r.at[c] == src.at[c])
      && (forall c :: c in d.at && c !in src.at ==> r.at[c] == d.at[c])
      && r.keys == d.keys + NewKeys(d, src.keys)
  {
    PutAllEntries(d, src.keys, src.at);
    PutAllOrder(d, src.keys, src.at);
  }

  /** Putting distinct keys appends the new ones in order. */
  lemma {:induction false} PutAllOrder(d: Dict, ks: seq<nat>, at: map<nat, Pos>)
    requires d.Valid()
    requires forall k :: k in ks ==> k in at
    requires forall i, j :: 0 <= i < j < |ks| ==> ks[i] != ks[j]
    ensures PutAll(d, ks, at).keys == d.keys + NewKeys(d, ks)
  {
    if ks != [] {
      var front, last := ks[..|ks| - 1], ks[|ks| - 1];
      assert forall i :: 0 <= i < |front| ==> front[i] == ks[i] != last;
      PutAllOrder(d, front, at);
      var prev, r := PutAll(d, front, at), PutAll(d, ks, at);
      var added := if last in d.at then [] else [last];
      assert r.keys == prev.keys + added by {
        PutAllEntries(d, front, at);
        assert r == Put(prev, last, at[last]);
      }
      assert NewKeys(d, ks) == NewKeys(d, front) + added;
      Associative(d.keys, NewKeys(d, front), added);
    }
  }

  lemma Associative(a: seq<nat>, b: seq<nat>, c: seq<nat>)
    ensures a + (b + c) == (a + b) + c
  {
  }

  /** `UpdateEntries` for one key. */
  lemma UpdateEntry(d: Dict, src: Dict, c: nat)
    requires d.Valid() && src.Valid()
    ensures var r := Update(d, src);
      && (c in r.at <==> c in d.at || c in src.at)
      && (c in src.at ==> r.at[c] == src.at[c])
      && (c in d.at && c !in src.at ==> r.at[c] == d.at[c])
  {
    UpdateEntries(d, src);
  }

  lemma {:induction false} PutAllEntries(d: Dict, ks: seq<nat>, at: map<nat, Pos>)
    requires d.Valid()
    requires forall k :: k in ks ==> k in at
    ensures var r := PutAll(d, ks, at);
      && (forall c :: c in r.at <==> c in d.at || c in ks)
      && (forall c :: c in ks ==> r.at[c] == at[c])
      && (forall c :: c in d.at && c !in ks ==> r.at[c] == d.at[c])
  {
    if ks != [] {
      var front, last := ks[..|ks| - 1], ks[|ks| - 1];
      assert forall c :: c in ks <==> c in front || c == last;
      PutAllEntries(d, front, at);
    }
  }

  /** Every coordinate the dictionary holds lies on the grid. */
  ghost predicate BeliefsOnGrid(d: Dict, size: int)
  {
    forall c :: c in d.at ==> InGrid(d.at[c], size)
  }

  ghost predicate AllValid(ds: seq<Dict>)
  {
    forall k :: 0 <= k < |ds| ==> ds[k].Valid()
  }

  /** `d.update({})` leaves `d` as it is. */
  lemma UpdateEmpty(d: Dict)
    requires d.Valid()
    ensures Update(d, Empty) == d
  {
  }
}
