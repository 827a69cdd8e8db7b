/** A Python dictionary filled by a sequence of `d[key] = value` writes in
    order: a later write to a key replaces an earlier one. */
module Dict {

  /** A dictionary after the given writes, in order. */
  function Insert<K, V>(cells: seq<(K, V)>): map<K, V> {
    if cells == [] then map[]
    else Insert(cells[..|cells| - 1])[cells[|cells| - 1].0 := cells[|cells| - 1].1]
  }

  /** One more write. */
  lemma InsertSnoc<K, V>(cells: seq<(K, V)>, c: (K, V))
    ensures Insert(cells + [c]) == Insert(cells)[c.0 := c.1]
  {
    assert (cells + [c])[..|cells|] == cells;
  }

  /** A key is present exactly when some write used it. */
  lemma {:induction false} InsertKeys<K, V>(cells: seq<(K, V)>, key: K)
    ensures key in Insert(cells) <==> exists k :: 0 <= k < |cells| && cells[k].0 == key
  {
    if cells != [] {
      var init := cells[..|cells| - 1];
      InsertKeys(init, key);
      if exists k :: 0 <= k < |init| && init[k].0 == key {
        var k :| 0 <= k < |init| && init[k].0 == key;
        assert cells[k] == init[k];
      }
    }
  }

  /** Every stored value was written under its key. */
  lemma {:induction false} InsertValue<K, V>(cells: seq<(K, V)>, key: K)
    requires key in Insert(cells)
    ensures (key, Insert(cells)[key]) in cells
  {
    var last := cells[|cells| - 1];
    var init := cells[..|cells| - 1];
    assert cells == init + [last];
    if last.0 != key {
      InsertValue(init, key);
    }
  }

  /** A write whose key no other write uses is what the dictionary holds. */
  lemma {:induction false} InsertUnique<K, V>(cells: seq<(K, V)>, c: (K, V))
    requires c in cells
    requires forall d :: d in cells && d.0 == c.0 ==> d == c
    ensures c.0 in Insert(cells) && Insert(cells)[c.0] == c.1
  {
    var last := cells[|cells| - 1];
    var init := cells[..|cells| - 1];
    assert cells == init + [last];
    if last != c {
      assert c in init;
      InsertUnique(init, c);
    }
  }

  /** The last write to a key is what the dictionary holds. */
  lemma {:induction false} InsertLastWins<K, V>(cells: seq<(K, V)>, k: nat)
    requires k < |cells|
    requires forall j :: k < j < |cells| ==> cells[j].0 != cells[k].0
    ensures cells[k].0 in Insert(cells) && Insert(cells)[cells[k].0] == cells[k].1
  {
    var n := |cells| - 1;
    if k < n {
      var init := cells[..n];
      assert forall j :: k < j < n ==> init[j] == cells[j];
      InsertLastWins(init, k);
    }
  }

  /** Every entry comes from the last write to its key. */
  lemma {:induction false} InsertLastWriter<K, V>(cells: seq<(K, V)>, key: K)
    requires key in Insert(cells)
    ensures exists k :: 0 <= k < |cells| && cells[k] == (key, Insert(cells)[key]) &&
                        forall j :: k < j < |cells| ==> cells[j].0 != key
  {
    var n := |cells| - 1;
    var init := cells[..n];
    if cells[n].0 != key {
      InsertLastWriter(init, key);
      var k :| 0 <= k < |init| && init[k] == (key, Insert(init)[key]) &&
               forall j :: k < j < |init| ==> init[j].0 != key;
      assert cells[k] == init[k];
      assert forall j :: k < j < n ==> cells[j] == init[j];
    }
  }

  /** There are at most as many entries as writes. */
  lemma {:induction false} InsertSize<K, V>(cells: seq<(K, V)>)
    ensures |Insert(cells)| <= |cells|
  {
    if cells != [] {
      InsertSize(cells[..|cells| - 1]);
    }
  }
}
