/** The Hellman lookup: `find_preimage` and `find_preimage_parallel`
    (main.py:42-69). */
module Search {
  import opened HashChain
  import opened Options
  import opened Tables

  /** The least depth `j` with `from <= j < n` at which the chain from `y`
      under the table's mask reaches a key of the table. */
  function FirstHit(h: Hasher, t: Table, y: Bytes, from: nat, n: nat): (d: Option<nat>)
    ensures d.Some? ==> from <= d.value < n && Chain(h, t.mask, y, d.value) in t.entries &&
                        forall j :: from <= j < d.value ==> Chain(h, t.mask, y, j) !in t.entries
    ensures d.None? ==> forall j :: from <= j < n ==> Chain(h, t.mask, y, j) !in t.entries
    decreases n - from
  {
    if from >= n then None
    else if Chain(h, t.mask, y, from) in t.entries then Some(from)
    else FirstHit(h, t, y, from + 1, n)
  }

  /** `found` of `find_preimage` (`None` standing for -1). */
  function Depth(h: Hasher, t: Table, target: Bytes, L: int): (d: Option<nat>)
    ensures L <= 0 ==> d.None?
    ensures d.Some? ==> d.value < L && Chain(h, t.mask, target, d.value) in t.entries
  {
    FirstHit(h, t, target, 0, Count(L))
  }

  /** What `find_preimage(L, t, target, n_bytes)` returns: on a hit at depth
      `found`, the stored start replayed `L - found - 1` steps and combined
      with the mask once more, without a final hash. */
  function Lookup(h: Hasher, t: Table, target: Bytes, L: int): (c: Option<Bytes>)
    ensures c.None? ==> forall j :: 0 <= j < L ==> Chain(h, t.mask, target, j) !in t.entries
    ensures c.Some? ==> exists j :: 0 <= j < L && Chain(h, t.mask, target, j) in t.entries
  {
    match Depth(h, t, target, L)
    case None => None
    case Some(found) =>
      var e := Chain(h, t.mask, target, found);
      assert found < L && e in t.entries;
      var x0 := t.entries[e];
      Some(Reduce(Chain(h, t.mask, x0, Count(L) - found - 1), t.mask))
  }

  /** A hit is reported at the least depth whose chain value is a key; a hit
      on the last step replays nothing. */
  lemma LookupHit(h: Hasher, t: Table, target: Bytes, L: int, f: nat)
    requires f < L && Chain(h, t.mask, target, f) in t.entries
    requires forall j :: 0 <= j < f ==> Chain(h, t.mask, target, j) !in t.entries
    ensures Depth(h, t, target, L) == Some(f)
    ensures Lookup(h, t, target, L) ==
              Some(Reduce(Chain(h, t.mask, t.entries[Chain(h, t.mask, target, f)], L - f - 1), t.mask))
    ensures f == L - 1 ==>
              Lookup(h, t, target, L) == Some(Reduce(t.entries[Chain(h, t.mask, target, f)], t.mask))
  {
  }

  /** Soundness on a well-formed table: hashing the candidate and walking
      `found` more steps lands where the target's walk did, so a hit at depth
      0 gives an exact preimage of the truncated target. */
  lemma {:induction false} LookupSound(h: Hasher, t: Table, target: Bytes, L: int, f: nat)
    requires WellFormed(h, L, t)
    requires Depth(h, t, target, L) == Some(f)
    ensures Lookup(h, t, target, L).Some?
    ensures Chain(h, t.mask, h.Apply(Lookup(h, t, target, L).value), f) == Chain(h, t.mask, target, f)
    ensures f == 0 ==> h.Apply(Lookup(h, t, target, L).value) == target
  {
    var e := Chain(h, t.mask, target, f);
    var n := Count(L);
    assert f < n && e in t.entries;
    var x0 := t.entries[e];
    var x := Chain(h, t.mask, x0, n - f - 1);
    assert Lookup(h, t, target, L) == Some(Reduce(x, t.mask));
    assert h.Apply(Reduce(x, t.mask)) == Chain(h, t.mask, x0, n - f);
    ChainAdd(h, t.mask, x0, n - f, f);
    assert Chain(h, t.mask, x0, n) == e;
  }

  /** A target that is itself a stored endpoint is inverted exactly. */
  lemma EndpointInverted(h: Hasher, t: Table, target: Bytes, L: int)
    requires WellFormed(h, L, t) && L >= 1 && target in t.entries
    ensures Lookup(h, t, target, L).Some?
    ensures h.Apply(Lookup(h, t, target, L).value) == target
  {
    LookupHit(h, t, target, L, 0);
    LookupSound(h, t, target, L, 0);
  }

  /** `find_preimage(L, table, hash_val, n_bytes)`; the table is only read. */
  method FindPreimage(h: Hasher, L: int, t: Table, target: Bytes) returns (c: Option<Bytes>)
    ensures c == Lookup(h, t, target, L)
  {
    var y := target;
    var r := t.mask;
    var found := -1;
    for j := 0 to Count(L)
      invariant y == Chain(h, r, target, j)
      invariant found == -1 && FirstHit(h, t, target, j, Count(L)) == Depth(h, t, target, L)
    {
      if y in t.entries {
        found := j;
        break;
      }
      y := Step(h, r, y);
    }
    if found != -1 {
      var x := t.entries[y];
      for i := 0 to Count(L) - found - 1
        invariant x == Chain(h, r, t.entries[y], i)
      {
        x := Step(h, r, x);
      }
      return Some(Reduce(x, r));
    }
    return None;
  }

  /** `find_preimage_parallel(L, tables, hash_val, n_bytes)`: one lookup per
      table, results in table order. */
  method FindPreimageParallel(h: Hasher, L: int, tables: seq<Table>, target: Bytes)
    returns (cs: seq<Option<Bytes>>)
    ensures |cs| == |tables|
    ensures forall i :: 0 <= i < |tables| ==> cs[i] == Lookup(h, tables[i], target, L)
  {
    cs := [];
    for i := 0 to |tables|
      invariant |cs| == i
      invariant forall k :: 0 <= k < i ==> cs[k] == Lookup(h, tables[k], target, L)
    {
      var c := FindPreimage(h, L, tables[i], target);
      cs := cs + [c];
    }
  }
}
