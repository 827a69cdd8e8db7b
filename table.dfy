/** Precomputation of Hellman tables: `gen_pre_table` and
    `gen_pre_tables_parallel` (main.py:18-39). */
module Tables {
  import opened HashChain
  import opened Options
  import opened Dict

  /** `[X, r]`: the endpoint-to-start map and the mask its chains were built with. */
  datatype Table = Table(entries: map<Bytes, Bytes>, mask: Bytes)

  /** The endpoint of the chain started at `x0`: `L` steps, none when `L <= 0`. */
  function Endpoint(h: Hasher, mask: Bytes, x0: Bytes, L: int): (e: Bytes)
    ensures L <= 0 ==> e == x0
    ensures L > 0 && IsDigest(h.full) && 0 < h.nBytes <= DigestSize ==> |e| == h.nBytes
  {
    Chain(h, mask, x0, Count(L))
  }

  /** The writes `X[endpoint] = x0` of the chains started at `starts`, in order. */
  function Chains(h: Hasher, L: int, mask: Bytes, starts: seq<Bytes>): seq<(Bytes, Bytes)> {
    seq(|starts|, i requires 0 <= i < |starts| => (Endpoint(h, mask, starts[i], L), starts[i]))
  }

  /** The dictionary `X` after the chains of `starts` have been inserted in
      order, a later start overwriting an earlier one with the same endpoint. */
  function Built(h: Hasher, L: int, mask: Bytes, starts: seq<Bytes>): map<Bytes, Bytes> {
    Insert(Chains(h, L, mask, starts))
  }

  /** One more chain is one more write. */
  lemma BuiltSnoc(h: Hasher, L: int, mask: Bytes, starts: seq<Bytes>, x0: Bytes)
    ensures Built(h, L, mask, starts + [x0]) ==
            Built(h, L, mask, starts)[Endpoint(h, mask, x0, L) := x0]
  {
    assert Chains(h, L, mask, starts + [x0]) ==
           Chains(h, L, mask, starts) + [(Endpoint(h, mask, x0, L), x0)];
    InsertSnoc(Chains(h, L, mask, starts), (Endpoint(h, mask, x0, L), x0));
  }

  /** The dictionary built from `K` starts holds at most `K` entries. */
  lemma BuiltSize(h: Hasher, L: int, mask: Bytes, starts: seq<Bytes>)
    ensures |Built(h, L, mask, starts)| <= |starts|
  {
    InsertSize(Chains(h, L, mask, starts));
  }

  /** The table invariant: every key is reached from its start in exactly `L` steps. */
  ghost predicate WellFormed(h: Hasher, L: int, t: Table) {
    forall e :: e in t.entries ==> Endpoint(h, t.mask, t.entries[e], L) == e
  }

  /** The tables of the multi-table mode: one per sequence of starts, all with one mask. */
  function BuiltTables(h: Hasher, L: int, mask: Bytes, starts: seq<seq<Bytes>>): seq<Table> {
    seq(|starts|, i requires 0 <= i < |starts| => Table(Built(h, L, mask, starts[i]), mask))
  }

  /** Every table built from supplied starts satisfies the table invariant. */
  lemma BuiltWellFormed(h: Hasher, L: int, mask: Bytes, starts: seq<Bytes>)
    ensures WellFormed(h, L, Table(Built(h, L, mask, starts), mask))
  {
    var cs := Chains(h, L, mask, starts);
    forall e | e in Insert(cs)
      ensures Endpoint(h, mask, Insert(cs)[e], L) == e
    {
      InsertValue(cs, e);
    }
  }

  /** Every table of the multi-table mode satisfies the table invariant. */
  lemma BuiltTablesWellFormed(h: Hasher, L: int, mask: Bytes, starts: seq<seq<Bytes>>, i: nat)
    requires i < |starts|
    ensures BuiltTables(h, L, mask, starts)[i].mask == mask
    ensures WellFormed(h, L, BuiltTables(h, L, mask, starts)[i])
  {
    BuiltWellFormed(h, L, mask, starts[i]);
  }

  /** The keys are exactly the endpoints of the supplied starts. */
  lemma BuiltKeys(h: Hasher, L: int, mask: Bytes, starts: seq<Bytes>, e: Bytes)
    ensures e in Built(h, L, mask, starts) <==>
            exists i :: 0 <= i < |starts| && Endpoint(h, mask, starts[i], L) == e
  {
    var cs := Chains(h, L, mask, starts);
    InsertKeys(cs, e);
    assert forall i :: 0 <= i < |starts| ==> cs[i].0 == Endpoint(h, mask, starts[i], L);
  }

  /** Last write wins: a start whose endpoint no later start reaches is the
      value stored under that endpoint. */
  lemma BuiltLastWins(h: Hasher, L: int, mask: Bytes, starts: seq<Bytes>, i: nat)
    requires i < |starts|
    requires forall j :: i < j < |starts| ==>
               Endpoint(h, mask, starts[j], L) != Endpoint(h, mask, starts[i], L)
    ensures Endpoint(h, mask, starts[i], L) in Built(h, L, mask, starts)
    ensures Built(h, L, mask, starts)[Endpoint(h, mask, starts[i], L)] == starts[i]
  {
    InsertLastWins(Chains(h, L, mask, starts), i);
  }

  /** The value stored under an endpoint is the last start that reaches it. */
  lemma BuiltValue(h: Hasher, L: int, mask: Bytes, starts: seq<Bytes>, e: Bytes)
    requires e in Built(h, L, mask, starts)
    ensures exists i :: 0 <= i < |starts| && starts[i] == Built(h, L, mask, starts)[e] &&
                        Endpoint(h, mask, starts[i], L) == e &&
                        forall j :: i < j < |starts| ==> Endpoint(h, mask, starts[j], L) != e
  {
    var cs := Chains(h, L, mask, starts);
    InsertLastWriter(cs, e);
    var i :| 0 <= i < |cs| && cs[i] == (e, Insert(cs)[e]) &&
             forall j :: i < j < |cs| ==> cs[j].0 != e;
    assert forall j :: i < j < |starts| ==> Endpoint(h, mask, starts[j], L) == cs[j].0;
  }

  /** Two starts that reach one endpoint leave a single entry, holding the later start. */
  lemma CollisionKeepsLater(h: Hasher, L: int, mask: Bytes, a: Bytes, b: Bytes)
    requires Endpoint(h, mask, a, L) == Endpoint(h, mask, b, L)
    ensures Built(h, L, mask, [a, b]) == map[Endpoint(h, mask, b, L) := b]
  {
    var e := Endpoint(h, mask, b, L);
    assert Chains(h, L, mask, []) == [];
    assert Built(h, L, mask, []) == map[];
    BuiltSnoc(h, L, mask, [], a);
    assert [] + [a] == [a];
    assert Built(h, L, mask, [a]) == map[e := a];
    BuiltSnoc(h, L, mask, [a], b);
    assert [a] + [b] == [a, b];
  }

  /** `gen_pre_table(K, L, padding, n, n_bytes, r)`: `freshMask` stands for the
      mask drawn when no `r` is given and `starts` for the `K` drawn starts. */
  method GenPreTable(h: Hasher, K: int, L: int, r: Option<Bytes>, freshMask: Bytes, starts: seq<Bytes>)
    returns (t: Table)
    requires |starts| == Count(K)
    ensures r.Some? ==> t.mask == r.value
    ensures r.None? ==> t.mask == freshMask
    ensures t.entries == Built(h, L, t.mask, starts)
    ensures WellFormed(h, L, t) && |t.entries| <= Count(K)
  {
    var mask := if r.None? then freshMask else r.value;
    var X := map[];
    for k := 0 to Count(K)
      invariant X == Built(h, L, mask, starts[..k])
    {
      var x0 := starts[k];
      var key := x0;
      for j := 0 to Count(L)
        invariant key == Chain(h, mask, x0, j)
      {
        key := Step(h, mask, key);
      }
      assert key == Endpoint(h, mask, x0, L);
      assert starts[..k + 1] == starts[..k] + [x0];
      BuiltSnoc(h, L, mask, starts[..k], x0);
      X := X[key := x0];
    }
    assert starts[..|starts|] == starts;
    t := Table(X, mask);
    BuiltWellFormed(h, L, mask, starts);
    BuiltSize(h, L, mask, starts);
  }

  /** `gen_pre_tables_parallel(K, L, padding, n, n_bytes)`: `K` tables of `K`
      chains each, in order, all sharing the one drawn mask. */
  method GenPreTablesParallel(h: Hasher, K: int, L: int, mask: Bytes, starts: seq<seq<Bytes>>)
    returns (tables: seq<Table>)
    requires |starts| == Count(K)
    requires forall i :: 0 <= i < |starts| ==> |starts[i]| == Count(K)
    ensures tables == BuiltTables(h, L, mask, starts)
    ensures |tables| == Count(K)
    ensures forall i :: 0 <= i < |tables| ==> tables[i].mask == mask && |tables[i].entries| <= Count(K)
  {
    tables := [];
    for i := 0 to |starts|
      invariant tables == BuiltTables(h, L, mask, starts[..i])
      invariant forall k :: 0 <= k < i ==> |tables[k].entries| <= Count(K)
    {
      var t := GenPreTable(h, K, L, Some(mask), mask, starts[i]);
      tables := tables + [t];
    }
    assert starts[..|starts|] == starts;
  }
}
