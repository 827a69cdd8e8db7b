/** The `result` dictionary of `attack_1_multy` and `attack_2_multy`
    (main.py:94-116, 145-166): for each `k` in `Ks` and then each `l` in `Ls`
    one entry `result[(k, l)]` is written, a later write to the same key
    replacing an earlier one. */
module Grid {
  import opened Dict

  /** `T` holds one row per `k` and, in each row, one cell per `l`. */
  ghost predicate Shaped<V>(Ks: seq<int>, Ls: seq<int>, T: seq<seq<V>>) {
    |T| == |Ks| && forall i :: 0 <= i < |T| ==> |T[i]| == |Ls|
  }

  /** No value occurs twice. */
  predicate Distinct(s: seq<int>) {
    forall i, j :: 0 <= i < j < |s| ==> s[i] != s[j]
  }

  /** The writes of row `i`, in loop order. */
  function RowCells<V>(Ks: seq<int>, Ls: seq<int>, T: seq<seq<V>>, i: nat): seq<((int, int), V)>
    requires Shaped(Ks, Ls, T) && i < |Ks|
  {
    seq(|Ls|, j requires 0 <= j < |Ls| => ((Ks[i], Ls[j]), T[i][j]))
  }

  /** The writes of the first `i` rows, in loop order. */
  function Rows<V>(Ks: seq<int>, Ls: seq<int>, T: seq<seq<V>>, i: nat): seq<((int, int), V)>
    requires Shaped(Ks, Ls, T) && i <= |Ks|
  {
    if i == 0 then [] else Rows(Ks, Ls, T, i - 1) + RowCells(Ks, Ls, T, i - 1)
  }

  /** The dictionary after the whole grid has been written. */
  function Fill<V>(Ks: seq<int>, Ls: seq<int>, T: seq<seq<V>>): map<(int, int), V>
    requires Shaped(Ks, Ls, T)
  {
    Insert(Rows(Ks, Ls, T, |Ks|))
  }

  /** Extending a prefix of `b` by one element, behind `a`. Dafny proves it
      by unfolding the slices; it exists to name the step for `RowStep`. */
  lemma AppendPrefix<T>(a: seq<T>, b: seq<T>, j: nat)
    requires j < |b|
    ensures a + b[..j + 1] == (a + b[..j]) + [b[j]]
  {
    assert b[..j + 1] == b[..j] + [b[j]];
  }

  /** Writing cell `j` of row `i` extends the writes so far by one. */
  lemma RowStep<V>(Ks: seq<int>, Ls: seq<int>, T: seq<seq<V>>, i: nat, j: nat)
    requires Shaped(Ks, Ls, T) && i < |Ks| && j < |Ls|
    ensures Insert(Rows(Ks, Ls, T, i) + RowCells(Ks, Ls, T, i)[..j + 1])
         == Insert(Rows(Ks, Ls, T, i) + RowCells(Ks, Ls, T, i)[..j])[(Ks[i], Ls[j]) := T[i][j]]
  {
    var rows, row := Rows(Ks, Ls, T, i), RowCells(Ks, Ls, T, i);
    assert row[j] == ((Ks[i], Ls[j]), T[i][j]);
    AppendPrefix(rows, row, j);
    InsertSnoc(rows + row[..j], row[j]);
  }

  /** A finished row is the next prefix of rows; an unstarted one adds nothing.
      Dafny proves it by unfolding `Rows`; it names the loop bounds of the drivers. */
  lemma RowBounds<V>(Ks: seq<int>, Ls: seq<int>, T: seq<seq<V>>, i: nat)
    requires Shaped(Ks, Ls, T) && i < |Ks|
    ensures Rows(Ks, Ls, T, i) + RowCells(Ks, Ls, T, i)[..0] == Rows(Ks, Ls, T, i)
    ensures Rows(Ks, Ls, T, i) + RowCells(Ks, Ls, T, i)[..|Ls|] == Rows(Ks, Ls, T, i + 1)
  {
    assert RowCells(Ks, Ls, T, i)[..|Ls|] == RowCells(Ks, Ls, T, i);
  }

  /** The writes of the first `i` rows are those of the cells `(a, b)` with `a < i`. */
  lemma {:induction false} RowsMembers<V>(Ks: seq<int>, Ls: seq<int>, T: seq<seq<V>>, i: nat, d: ((int, int), V))
    requires Shaped(Ks, Ls, T) && i <= |Ks|
    ensures d in Rows(Ks, Ls, T, i) <==>
            exists a, b :: 0 <= a < i && 0 <= b < |Ls| && d == ((Ks[a], Ls[b]), T[a][b])
  {
    if i > 0 {
      RowsMembers(Ks, Ls, T, i - 1, d);
      var row := RowCells(Ks, Ls, T, i - 1);
      if d in row {
        var b :| 0 <= b < |Ls| && row[b] == d;
        assert d == ((Ks[i - 1], Ls[b]), T[i - 1][b]);
      }
      if exists a, b :: 0 <= a < i && 0 <= b < |Ls| && d == ((Ks[a], Ls[b]), T[a][b]) {
        var a, b :| 0 <= a < i && 0 <= b < |Ls| && d == ((Ks[a], Ls[b]), T[a][b]);
        if a == i - 1 {
          assert row[b] == d;
        }
      }
    }
  }

  /** The keys of the result are exactly the pairs `(k, l)`. */
  lemma FillKeys<V>(Ks: seq<int>, Ls: seq<int>, T: seq<seq<V>>)
    requires Shaped(Ks, Ls, T)
    ensures Fill(Ks, Ls, T).Keys == set a, b | 0 <= a < |Ks| && 0 <= b < |Ls| :: (Ks[a], Ls[b])
  {
    var cells := Rows(Ks, Ls, T, |Ks|);
    forall key | key in Fill(Ks, Ls, T)
      ensures exists a, b :: 0 <= a < |Ks| && 0 <= b < |Ls| && key == (Ks[a], Ls[b])
    {
      InsertValue(cells, key);
      RowsMembers(Ks, Ls, T, |Ks|, (key, Fill(Ks, Ls, T)[key]));
    }
    forall a, b | 0 <= a < |Ks| && 0 <= b < |Ls|
      ensures (Ks[a], Ls[b]) in Fill(Ks, Ls, T)
    {
      var c := ((Ks[a], Ls[b]), T[a][b]);
      RowsMembers(Ks, Ls, T, |Ks|, c);
      var k :| 0 <= k < |cells| && cells[k] == c;
      InsertKeys(cells, c.0);
    }
  }

  /** Every entry of the result is the cell of some `(k, l)` with that key. */
  lemma FillValue<V>(Ks: seq<int>, Ls: seq<int>, T: seq<seq<V>>, key: (int, int))
    requires Shaped(Ks, Ls, T) && key in Fill(Ks, Ls, T)
    ensures exists a, b :: 0 <= a < |Ks| && 0 <= b < |Ls| &&
                           key == (Ks[a], Ls[b]) && Fill(Ks, Ls, T)[key] == T[a][b]
  {
    InsertValue(Rows(Ks, Ls, T, |Ks|), key);
    RowsMembers(Ks, Ls, T, |Ks|, (key, Fill(Ks, Ls, T)[key]));
  }

  /** Without repeated `k` or `l` no write is lost: every cell is in the result. */
  lemma FillExact<V>(Ks: seq<int>, Ls: seq<int>, T: seq<seq<V>>, a: nat, b: nat)
    requires Shaped(Ks, Ls, T) && a < |Ks| && b < |Ls|
    requires Distinct(Ks) && Distinct(Ls)
    ensures (Ks[a], Ls[b]) in Fill(Ks, Ls, T) && Fill(Ks, Ls, T)[(Ks[a], Ls[b])] == T[a][b]
  {
    var cells := Rows(Ks, Ls, T, |Ks|);
    var c := ((Ks[a], Ls[b]), T[a][b]);
    RowsMembers(Ks, Ls, T, |Ks|, c);
    forall d | d in cells && d.0 == c.0
      ensures d == c
    {
      RowsMembers(Ks, Ls, T, |Ks|, d);
      var a', b' :| 0 <= a' < |Ks| && 0 <= b' < |Ls| && d == ((Ks[a'], Ls[b']), T[a'][b']);
      assert Ks[a'] == Ks[a] && Ls[b'] == Ls[b];
      assert a' == a && b' == b;
    }
    InsertUnique(cells, c);
  }
}
