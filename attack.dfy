/** The verdicts and tallies of the attack drivers (main.py:72-166): a trial
    hashes a plaintext, looks the truncated digest up and checks the
    candidate. Plaintexts, starts and masks are supplied instead of drawn. */
module Attacks {
  import opened HashChain
  import opened Options
  import opened Tables
  import opened Search
  import opened Grid
  import opened Dict

  /** Python truthiness of a lookup result: `None` and `b''` are both false. */
  predicate Truthy(c: Option<Bytes>) {
    c.Some? && |c.value| > 0
  }

  /** The check of a candidate: present, non-empty, and its truncated
      SHA-512 equals the truncated target. */
  predicate Verifies(h: Hasher, c: Option<Bytes>, target: Bytes) {
    Truthy(c) && h.Apply(c.value) == target
  }

  /** One trial of attack 1 on plaintext `p` against table `t`. */
  predicate Trial1(h: Hasher, L: int, t: Table, p: Bytes) {
    var target := h.Apply(p);
    Verifies(h, Lookup(h, t, target, L), target)
  }

  /** One trial of attack 2: some table's candidate verifies. */
  predicate Trial2(h: Hasher, L: int, tables: seq<Table>, p: Bytes) {
    var target := h.Apply(p);
    exists i :: 0 <= i < |tables| && Verifies(h, Lookup(h, tables[i], target, L), target)
  }

  /** The number of `true` verdicts: a counter bumped once per success. */
  function CountTrue(v: seq<bool>): (c: nat)
    ensures c <= |v|
    ensures c == |v| <==> forall k :: 0 <= k < |v| ==> v[k]
  {
    if v == [] then 0
    else
      var init := v[..|v| - 1];
      assert forall k :: 0 <= k < |init| ==> init[k] == v[k];
      CountTrue(init) + (if v[|v| - 1] then 1 else 0)
  }

  /** One more verdict adds one exactly when it is a success. */
  lemma CountTrueSnoc(v: seq<bool>, b: bool)
    ensures CountTrue(v + [b]) == CountTrue(v) + (if b then 1 else 0)
  {
    assert (v + [b])[..|v|] == v;
  }

  /** The verdicts of attack 1 on each plaintext, in order. */
  function Verdicts1(h: Hasher, L: int, t: Table, ps: seq<Bytes>): seq<bool> {
    seq(|ps|, k requires 0 <= k < |ps| => Trial1(h, L, t, ps[k]))
  }

  /** The verdicts of attack 2 on each plaintext, in order. */
  function Verdicts2(h: Hasher, L: int, tables: seq<Table>, ps: seq<Bytes>): seq<bool> {
    seq(|ps|, k requires 0 <= k < |ps| => Trial2(h, L, tables, ps[k]))
  }

  /** The number of plaintexts on which attack 1 succeeds. */
  function Successes1(h: Hasher, L: int, t: Table, ps: seq<Bytes>): (s: nat)
    ensures s <= |ps|
    ensures s == |ps| <==> forall k :: 0 <= k < |ps| ==> Trial1(h, L, t, ps[k])
  {
    var v := Verdicts1(h, L, t, ps);
    assert forall k :: 0 <= k < |ps| ==> v[k] == Trial1(h, L, t, ps[k]);
    CountTrue(v)
  }

  /** The number of plaintexts on which attack 2 succeeds. */
  function Successes2(h: Hasher, L: int, tables: seq<Table>, ps: seq<Bytes>): (s: nat)
    ensures s <= |ps|
    ensures s == |ps| <==> forall k :: 0 <= k < |ps| ==> Trial2(h, L, tables, ps[k])
  {
    var v := Verdicts2(h, L, tables, ps);
    assert forall k :: 0 <= k < |ps| ==> v[k] == Trial2(h, L, tables, ps[k]);
    CountTrue(v)
  }

  /** One more plaintext adds one success to attack 1 exactly when its trial succeeds. */
  lemma Successes1Snoc(h: Hasher, L: int, t: Table, ps: seq<Bytes>, n: nat)
    requires n < |ps|
    ensures Successes1(h, L, t, ps[..n + 1]) ==
            Successes1(h, L, t, ps[..n]) + (if Trial1(h, L, t, ps[n]) then 1 else 0)
  {
    assert Verdicts1(h, L, t, ps[..n + 1]) == Verdicts1(h, L, t, ps[..n]) + [Trial1(h, L, t, ps[n])];
    CountTrueSnoc(Verdicts1(h, L, t, ps[..n]), Trial1(h, L, t, ps[n]));
  }

  /** One more plaintext adds one success to attack 2 exactly when its trial succeeds. */
  lemma Successes2Snoc(h: Hasher, L: int, tables: seq<Table>, ps: seq<Bytes>, n: nat)
    requires n < |ps|
    ensures Successes2(h, L, tables, ps[..n + 1]) ==
            Successes2(h, L, tables, ps[..n]) + (if Trial2(h, L, tables, ps[n]) then 1 else 0)
  {
    assert Verdicts2(h, L, tables, ps[..n + 1]) ==
           Verdicts2(h, L, tables, ps[..n]) + [Trial2(h, L, tables, ps[n])];
    CountTrueSnoc(Verdicts2(h, L, tables, ps[..n]), Trial2(h, L, tables, ps[n]));
  }

  /** With a single table, attack 2 is attack 1. */
  lemma SingleTableSuccesses(h: Hasher, L: int, t: Table, ps: seq<Bytes>)
    ensures Successes2(h, L, [t], ps) == Successes1(h, L, t, ps)
  {
    forall k | 0 <= k < |ps|
      ensures Trial2(h, L, [t], ps[k]) == Trial1(h, L, t, ps[k])
    {
      var p := ps[k];
      if Trial2(h, L, [t], p) {
        var i :| 0 <= i < 1 && Verifies(h, Lookup(h, [t][i], h.Apply(p), L), h.Apply(p));
      } else {
        assert !Verifies(h, Lookup(h, [t][0], h.Apply(p), L), h.Apply(p));
      }
    }
    assert Verdicts2(h, L, [t], ps) == Verdicts1(h, L, t, ps);
  }

  /** A plaintext whose truncated digest is a stored endpoint is always
      recovered, provided the candidate is not the empty byte string. */
  lemma EndpointTrialSucceeds(h: Hasher, L: int, mask: Bytes, starts: seq<Bytes>, p: Bytes)
    requires L >= 1 && |mask| > 0
    requires h.Apply(p) in Built(h, L, mask, starts)
    ensures Trial1(h, L, Table(Built(h, L, mask, starts), mask), p)
  {
    var t := Table(Built(h, L, mask, starts), mask);
    BuiltWellFormed(h, L, mask, starts);
    EndpointInverted(h, t, h.Apply(p), L);
    LookupHit(h, t, h.Apply(p), L, 0);
  }

  /** The random values one configuration consumes. */
  datatype Draws1 = Draws1(mask: Bytes, starts: seq<Bytes>, plaintexts: seq<Bytes>)
  datatype Draws2 = Draws2(mask: Bytes, starts: seq<seq<Bytes>>, plaintexts: seq<Bytes>)

  /** `(success, not_found)` of one configuration of `attack_1_multy`. */
  function Tally1(h: Hasher, L: int, d: Draws1): (t: (nat, nat))
    ensures t.0 + t.1 == |d.plaintexts|
  {
    var s := Successes1(h, L, Table(Built(h, L, d.mask, d.starts), d.mask), d.plaintexts);
    (s, |d.plaintexts| - s)
  }

  /** `(success, not_found)` of one configuration of `attack_2_multy`. */
  function Tally2(h: Hasher, L: int, d: Draws2): (t: (nat, nat))
    ensures t.0 + t.1 == |d.plaintexts|
  {
    var s := Successes2(h, L, BuiltTables(h, L, d.mask, d.starts), d.plaintexts);
    (s, |d.plaintexts| - s)
  }

  /** The tallies of every configuration, row by row. */
  function Tallies1(h: Hasher, Ls: seq<int>, draws: seq<seq<Draws1>>): (T: seq<seq<(nat, nat)>>)
    requires forall i :: 0 <= i < |draws| ==> |draws[i]| == |Ls|
    ensures |T| == |draws| && forall i :: 0 <= i < |T| ==> |T[i]| == |Ls|
    ensures forall i, j :: 0 <= i < |T| && 0 <= j < |Ls| ==> T[i][j] == Tally1(h, Ls[j], draws[i][j])
  {
    seq(|draws|, i requires 0 <= i < |draws| =>
      seq(|Ls|, j requires 0 <= j < |Ls| => Tally1(h, Ls[j], draws[i][j])))
  }

  /** The tallies of every configuration, row by row. */
  function Tallies2(h: Hasher, Ls: seq<int>, draws: seq<seq<Draws2>>): (T: seq<seq<(nat, nat)>>)
    requires forall i :: 0 <= i < |draws| ==> |draws[i]| == |Ls|
    ensures |T| == |draws| && forall i :: 0 <= i < |T| ==> |T[i]| == |Ls|
    ensures forall i, j :: 0 <= i < |T| && 0 <= j < |Ls| ==> T[i][j] == Tally2(h, Ls[j], draws[i][j])
  {
    seq(|draws|, i requires 0 <= i < |draws| =>
      seq(|Ls|, j requires 0 <= j < |Ls| => Tally2(h, Ls[j], draws[i][j])))
  }

  /** The draws of attack 1: per `(k, l)` a mask, `k` starts and `N` plaintexts. */
  ghost predicate Supplied1(N: int, Ks: seq<int>, Ls: seq<int>, draws: seq<seq<Draws1>>) {
    |draws| == |Ks| &&
    (forall i :: 0 <= i < |Ks| ==> |draws[i]| == |Ls|) &&
    forall i, j :: 0 <= i < |Ks| && 0 <= j < |Ls| ==>
      |draws[i][j].starts| == Count(Ks[i]) && |draws[i][j].plaintexts| == Count(N)
  }

  /** The draws of attack 2: per `(k, l)` one shared mask, `k` tables of `k`
      starts and `N` plaintexts. */
  ghost predicate Supplied2(N: int, Ks: seq<int>, Ls: seq<int>, draws: seq<seq<Draws2>>) {
    |draws| == |Ks| &&
    (forall i :: 0 <= i < |Ks| ==> |draws[i]| == |Ls|) &&
    forall i, j :: 0 <= i < |Ks| && 0 <= j < |Ls| ==>
      |draws[i][j].starts| == Count(Ks[i]) && |draws[i][j].plaintexts| == Count(N) &&
      forall m :: 0 <= m < |draws[i][j].starts| ==> |draws[i][j].starts[m]| == Count(Ks[i])
  }

  /** The verdict `attack_1_once` prints: whether the candidate for `p` verifies. */
  method Attack1Once(h: Hasher, K: int, L: int, freshMask: Bytes, starts: seq<Bytes>, p: Bytes)
    returns (success: bool)
    requires |starts| == Count(K)
    ensures success == Trial1(h, L, Table(Built(h, L, freshMask, starts), freshMask), p)
  {
    var hashValue := h.full(p);
    var table := GenPreTable(h, K, L, None, freshMask, starts);
    var preimage := FindPreimage(h, L, table, Truncate(hashValue, h.nBytes));
    success := false;
    if preimage.Some? && |preimage.value| > 0 {
      success := Truncate(h.full(preimage.value), h.nBytes) == Truncate(hashValue, h.nBytes);
    }
  }

  /** The three results of `attack_2_once`: `True`, `False` when there are no
      tables at all, and `None` when no candidate verifies. */
  datatype Outcome = Found | NoTables | NotFound

  /** `attack_2_once(K, L, padding, n, n_bytes)` on plaintext `p`. */
  method Attack2Once(h: Hasher, K: int, L: int, mask: Bytes, starts: seq<seq<Bytes>>, p: Bytes)
    returns (v: Outcome)
    requires |starts| == Count(K)
    requires forall i :: 0 <= i < |starts| ==> |starts[i]| == Count(K)
    ensures v == NoTables <==> K <= 0
    ensures v == Found <==> Trial2(h, L, BuiltTables(h, L, mask, starts), p)
  {
    var target := h.Apply(p);
    var tables := GenPreTablesParallel(h, K, L, mask, starts);
    var preimages := FindPreimageParallel(h, L, tables, target);
    if |preimages| == 0 {
      return NoTables;
    }
    var verified := CheckCandidates(h, preimages, target);
    if verified {
      var k :| 0 <= k < |preimages| && Verifies(h, preimages[k], target);
      assert Verifies(h, Lookup(h, tables[k], target, L), target);
      return Found;
    }
    return NotFound;
  }

  /** The loop of `attack_2_once` over the candidates (main.py:131-139): it
      stops at the first one that is truthy and whose truncated hash is the target. */
  method CheckCandidates(h: Hasher, preimages: seq<Option<Bytes>>, target: Bytes) returns (verified: bool)
    ensures verified <==> exists k :: 0 <= k < |preimages| && Verifies(h, preimages[k], target)
  {
    for i := 0 to |preimages|
      invariant forall k :: 0 <= k < i ==> !Verifies(h, preimages[k], target)
    {
      var preimage := preimages[i];
      if preimage.Some? && |preimage.value| > 0 {
        if h.Apply(preimage.value) == target {
          return true;
        }
      }
    }
    return false;
  }

  /** The trial loop of `attack_1_multy` for one table (main.py:98-113). */
  method Trials1(h: Hasher, L: int, table: Table, ps: seq<Bytes>) returns (success: nat, notFound: nat)
    ensures success == Successes1(h, L, table, ps)
    ensures success + notFound == |ps|
  {
    success, notFound := 0, 0;
    for n := 0 to |ps|
      invariant success == Successes1(h, L, table, ps[..n])
      invariant success + notFound == n
    {
      var hashValue := h.full(ps[n]);
      var preimage := FindPreimage(h, L, table, Truncate(hashValue, h.nBytes));
      if preimage.Some? && |preimage.value| > 0 {
        var preimageHash := h.full(preimage.value);
        if Truncate(preimageHash, h.nBytes) == Truncate(hashValue, h.nBytes) {
          success := success + 1;
        } else {
          notFound := notFound + 1;
        }
      } else {
        notFound := notFound + 1;
      }
      Successes1Snoc(h, L, table, ps, n);
    }
    assert ps[..|ps|] == ps;
  }

  /** One trial of `attack_2_multy` (main.py:152-163): the trial first counts
      as a failure and is moved to the successes at the first verifying
      table, so it contributes at most one success. */
  method Trial2Counts(h: Hasher, L: int, tables: seq<Table>, p: Bytes, success: nat, notFound: int)
    returns (success': nat, notFound': int)
    ensures Trial2(h, L, tables, p) ==> success' == success + 1 && notFound' == notFound
    ensures !Trial2(h, L, tables, p) ==> success' == success && notFound' == notFound + 1
  {
    success', notFound' := success, notFound;
    var hashValue := h.full(p);
    var target := Truncate(hashValue, h.nBytes);
    var preimages := FindPreimageParallel(h, L, tables, target);
    notFound' := notFound' + 1;
    ghost var hit := false;
    ghost var at := 0;
    for m := 0 to |preimages|
      invariant !hit && success' == success && notFound' == notFound + 1
      invariant forall k :: 0 <= k < m ==> !Verifies(h, preimages[k], target)
    {
      var preimage := preimages[m];
      if preimage.Some? && |preimage.value| > 0 {
        var preimageHash := h.full(preimage.value);
        if Truncate(preimageHash, h.nBytes) == target {
          success' := success' + 1;
          notFound' := notFound' - 1;
          hit, at := true, m;
          break;
        }
      }
    }
    if hit {
      assert 0 <= at < |tables| && Verifies(h, Lookup(h, tables[at], target, L), target);
    } else {
      assert forall k :: 0 <= k < |tables| ==> !Verifies(h, Lookup(h, tables[k], target, L), target);
    }
  }

  /** The trial loop of `attack_2_multy` for one batch of tables (main.py:149-163). */
  method Trials2(h: Hasher, L: int, tables: seq<Table>, ps: seq<Bytes>) returns (success: nat, notFound: nat)
    ensures success == Successes2(h, L, tables, ps)
    ensures success + notFound == |ps|
  {
    success := 0;
    var failures: int := 0;
    for n := 0 to |ps|
      invariant success == Successes2(h, L, tables, ps[..n])
      invariant success + failures == n
    {
      success, failures := Trial2Counts(h, L, tables, ps[n], success, failures);
      Successes2Snoc(h, L, tables, ps, n);
    }
    assert ps[..|ps|] == ps;
    notFound := failures;
  }

  /** A grid of tallies that each sum to `total` fills a dictionary with one
      entry per `(k, l)`, each summing to `total`, and without repeated `k` or
      `l` each entry is the tally of its configuration. */
  lemma TallyGrid(Ks: seq<int>, Ls: seq<int>, T: seq<seq<(nat, nat)>>, total: nat)
    requires Shaped(Ks, Ls, T)
    requires forall a, b :: 0 <= a < |Ks| && 0 <= b < |Ls| ==> T[a][b].0 + T[a][b].1 == total
    ensures Fill(Ks, Ls, T).Keys == set a, b | 0 <= a < |Ks| && 0 <= b < |Ls| :: (Ks[a], Ls[b])
    ensures forall key :: key in Fill(Ks, Ls, T) ==> Fill(Ks, Ls, T)[key].0 + Fill(Ks, Ls, T)[key].1 == total
    ensures Distinct(Ks) && Distinct(Ls) ==>
              forall a, b :: 0 <= a < |Ks| && 0 <= b < |Ls| ==> Fill(Ks, Ls, T)[(Ks[a], Ls[b])] == T[a][b]
  {
    FillKeys(Ks, Ls, T);
    forall key | key in Fill(Ks, Ls, T)
      ensures Fill(Ks, Ls, T)[key].0 + Fill(Ks, Ls, T)[key].1 == total
    {
      FillValue(Ks, Ls, T, key);
    }
    if Distinct(Ks) && Distinct(Ls) {
      forall a, b | 0 <= a < |Ks| && 0 <= b < |Ls|
        ensures Fill(Ks, Ls, T)[(Ks[a], Ls[b])] == T[a][b]
      {
        FillExact(Ks, Ls, T, a, b);
      }
    }
  }

  /** Every configuration of attack 1 tallies its `N` trials. Dafny proves it
      by unfolding `Tallies1` and `Tally1`; stating it once keeps that
      unfolding out of `Attack1Multy`. */
  lemma TalliesTotal1(h: Hasher, N: int, Ks: seq<int>, Ls: seq<int>, draws: seq<seq<Draws1>>)
    requires Supplied1(N, Ks, Ls, draws)
    ensures Shaped(Ks, Ls, Tallies1(h, Ls, draws))
    ensures forall a, b :: 0 <= a < |Ks| && 0 <= b < |Ls| ==>
              Tallies1(h, Ls, draws)[a][b].0 + Tallies1(h, Ls, draws)[a][b].1 == Count(N)
  {
  }

  /** Every configuration of attack 2 tallies its `N` trials. Dafny proves it
      by unfolding `Tallies2` and `Tally2`; stating it once keeps that
      unfolding out of `Attack2Multy`. */
  lemma TalliesTotal2(h: Hasher, N: int, Ks: seq<int>, Ls: seq<int>, draws: seq<seq<Draws2>>)
    requires Supplied2(N, Ks, Ls, draws)
    ensures Shaped(Ks, Ls, Tallies2(h, Ls, draws))
    ensures forall a, b :: 0 <= a < |Ks| && 0 <= b < |Ls| ==>
              Tallies2(h, Ls, draws)[a][b].0 + Tallies2(h, Ls, draws)[a][b].1 == Count(N)
  {
  }

  /** One `(k, l)` configuration of `attack_1_multy` (main.py:97-113): build, then run the trials. */
  method Configuration1(h: Hasher, k: int, l: int, d: Draws1) returns (success: nat, notFound: nat)
    requires |d.starts| == Count(k)
    ensures (success, notFound) == Tally1(h, l, d)
    ensures success + notFound == |d.plaintexts|
  {
    var table := GenPreTable(h, k, l, None, d.mask, d.starts);
    assert table == Table(Built(h, l, d.mask, d.starts), d.mask);
    success, notFound := Trials1(h, l, table, d.plaintexts);
  }

  /** `attack_1_multy(N, K, L, padding, n, n_bytes)` with the draws supplied. */
  method Attack1Multy(h: Hasher, N: int, Ks: seq<int>, Ls: seq<int>, draws: seq<seq<Draws1>>)
    returns (result: map<(int, int), (nat, nat)>)
    requires Supplied1(N, Ks, Ls, draws)
    ensures result == Fill(Ks, Ls, Tallies1(h, Ls, draws))
    ensures result.Keys == set a, b | 0 <= a < |Ks| && 0 <= b < |Ls| :: (Ks[a], Ls[b])
    ensures forall key :: key in result ==> result[key].0 + result[key].1 == Count(N)
    ensures Distinct(Ks) && Distinct(Ls) ==>
              forall a, b :: 0 <= a < |Ks| && 0 <= b < |Ls| ==>
                result[(Ks[a], Ls[b])] == Tally1(h, Ls[b], draws[a][b])
  {
    ghost var T := Tallies1(h, Ls, draws);
    TalliesTotal1(h, N, Ks, Ls, draws);
    result := map[];
    for i := 0 to |Ks|
      invariant result == Insert(Rows(Ks, Ls, T, i))
    {
      RowBounds(Ks, Ls, T, i);
      for j := 0 to |Ls|
        invariant result == Insert(Rows(Ks, Ls, T, i) + RowCells(Ks, Ls, T, i)[..j])
      {
        var success, notFound := Configuration1(h, Ks[i], Ls[j], draws[i][j]);
        assert (success, notFound) == T[i][j];
        RowStep(Ks, Ls, T, i, j);
        result := result[(Ks[i], Ls[j]) := (success, notFound)];
      }
      RowBounds(Ks, Ls, T, i);
    }
    TallyGrid(Ks, Ls, T, Count(N));
  }

  /** One `(k, l)` configuration of `attack_2_multy` (main.py:148-163): build, then run the trials. */
  method Configuration2(h: Hasher, k: int, l: int, d: Draws2) returns (success: nat, notFound: nat)
    requires |d.starts| == Count(k)
    requires forall m :: 0 <= m < |d.starts| ==> |d.starts[m]| == Count(k)
    ensures (success, notFound) == Tally2(h, l, d)
    ensures success + notFound == |d.plaintexts|
  {
    var tables := GenPreTablesParallel(h, k, l, d.mask, d.starts);
    success, notFound := Trials2(h, l, tables, d.plaintexts);
  }

  /** `attack_2_multy(N, K, L, padding, n, n_bytes)` with the draws supplied. */
  method Attack2Multy(h: Hasher, N: int, Ks: seq<int>, Ls: seq<int>, draws: seq<seq<Draws2>>)
    returns (result: map<(int, int), (nat, nat)>)
    requires Supplied2(N, Ks, Ls, draws)
    ensures result == Fill(Ks, Ls, Tallies2(h, Ls, draws))
    ensures result.Keys == set a, b | 0 <= a < |Ks| && 0 <= b < |Ls| :: (Ks[a], Ls[b])
    ensures forall key :: key in result ==> result[key].0 + result[key].1 == Count(N)
    ensures Distinct(Ks) && Distinct(Ls) ==>
              forall a, b :: 0 <= a < |Ks| && 0 <= b < |Ls| ==>
                result[(Ks[a], Ls[b])] == Tally2(h, Ls[b], draws[a][b])
  {
    ghost var T := Tallies2(h, Ls, draws);
    TalliesTotal2(h, N, Ks, Ls, draws);
    result := map[];
    for i := 0 to |Ks|
      invariant result == Insert(Rows(Ks, Ls, T, i))
    {
      RowBounds(Ks, Ls, T, i);
      for j := 0 to |Ls|
        invariant result == Insert(Rows(Ks, Ls, T, i) + RowCells(Ks, Ls, T, i)[..j])
      {
        var success, notFound := Configuration2(h, Ks[i], Ls[j], draws[i][j]);
        assert (success, notFound) == T[i][j];
        RowStep(Ks, Ls, T, i, j);
        result := result[(Ks[i], Ls[j]) := (success, notFound)];
      }
      RowBounds(Ks, Ls, T, i);
    }
    TallyGrid(Ks, Ls, T, Count(N));
  }
}
