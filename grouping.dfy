/** pandas `DataFrame.groupby(column)` followed by an aggregation.
    With the default `sort=True` and `dropna=True`, the groups come out in
    ascending key order, one per distinct key, rows whose key is missing
    belong to no group, and each group keeps its rows in their original
    order. `GroupBy` builds the groups one row at a time. */
module Grouping {
  import opened Wrappers
  import opened Orders
  import opened Seqs

  datatype Group<K, T> = Group(key: K, rows: seq<T>)

  /** One row of an aggregated table: a group key and its aggregate. */
  datatype Entry<K, V> = Entry(key: K, value: V)

  /** The rows of `s` whose key is `k`, in their original order. */
  function RowsWithKey<T, K(==)>(s: seq<T>, key: T -> Option<K>, k: K): seq<T>
  {
    Filter(s, t => key(t) == Some(k))
  }

  /** The distinct keys that occur in `s` (missing keys are not keys). */
  function PresentKeys<T, K>(s: seq<T>, key: T -> Option<K>): set<K>
  {
    set i | 0 <= i < |s| && key(s[i]).Some? :: key(s[i]).value
  }

  function KeysOf<K, T>(g: seq<Group<K, T>>): set<K>
  {
    set i | 0 <= i < |g| :: g[i].key
  }

  /** Keys strictly ascending; in particular no key occurs twice. */
  ghost predicate Ascending<K, T>(g: seq<Group<K, T>>, less: (K, K) -> bool)
  {
    forall i, j :: 0 <= i < j < |g| ==> less(g[i].key, g[j].key)
  }

  /** The keys of the groups, in their order. */
  function GroupKeys<K, T>(g: seq<Group<K, T>>): (ks: seq<K>)
    ensures |ks| == |g|
    ensures forall i :: 0 <= i < |g| ==> ks[i] == g[i].key
  {
    if g == [] then [] else [g[0].key] + GroupKeys(g[1..])
  }

  /** The rows of the group with key `k`, or none if there is no such group. */
  function Lookup<K(==), T>(g: seq<Group<K, T>>, k: K): seq<T>
  {
    if g == [] then []
    else if g[0].key == k then g[0].rows
    else Lookup(g[1..], k)
  }

  lemma {:induction false} LookupAbsent<K, T>(g: seq<Group<K, T>>, k: K)
    requires k !in KeysOf(g)
    ensures Lookup(g, k) == []
  {
    if g != [] {
      assert KeysOf(g[1..]) <= KeysOf(g) by {
        forall k' | k' in KeysOf(g[1..]) ensures k' in KeysOf(g) {
          var i :| 0 <= i < |g[1..]| && g[1..][i].key == k';
          assert g[i + 1].key == k';
        }
      }
      assert g[0].key in KeysOf(g);
      LookupAbsent(g[1..], k);
    }
  }

  lemma {:induction false} LookupAt<K(!new), T>(g: seq<Group<K, T>>, i: nat, less: (K, K) -> bool)
    requires StrictTotalOrder(less)
    requires Ascending(g, less)
    requires i < |g|
    ensures Lookup(g, g[i].key) == g[i].rows
  {
    if i > 0 {
      assert less(g[0].key, g[i].key);
      assert Ascending(g[1..], less) by {
        forall a, b | 0 <= a < b < |g[1..]| ensures less(g[1..][a].key, g[1..][b].key) {
          assert g[1..][a] == g[a + 1] && g[1..][b] == g[b + 1];
        }
      }
      LookupAt(g[1..], i - 1, less);
    }
  }

  lemma KeysCons<K, T>(h: Group<K, T>, g: seq<Group<K, T>>)
    ensures KeysOf([h] + g) == {h.key} + KeysOf(g)
  {
    var r := [h] + g;
    assert r[0] == h;
    forall k' | k' in KeysOf(r) ensures k' in {h.key} + KeysOf(g) {
      var i :| 0 <= i < |r| && r[i].key == k';
      if i > 0 { assert r[i] == g[i - 1]; }
    }
    forall k' | k' in KeysOf(g) ensures k' in KeysOf(r) {
      var i :| 0 <= i < |g| && g[i].key == k';
      assert r[i + 1] == g[i];
    }
  }

  /** An ascending table is its first key ahead of an ascending rest. */
  lemma AscendingCons<K, T>(h: Group<K, T>, g: seq<Group<K, T>>, less: (K, K) -> bool)
    ensures Ascending([h] + g, less) <==> Ascending(g, less) && forall k' :: k' in KeysOf(g) ==> less(h.key, k')
  {
    var r := [h] + g;
    assert forall i :: 1 <= i < |r| ==> r[i] == g[i - 1];
    if Ascending(g, less) && forall k' :: k' in KeysOf(g) ==> less(h.key, k') {
      forall i, j | 0 <= i < j < |r| ensures less(r[i].key, r[j].key) {
        if i == 0 { assert g[j - 1].key in KeysOf(g); }
      }
    }
    if Ascending(r, less) {
      forall k' | k' in KeysOf(g) ensures less(h.key, k') {
        var i :| 0 <= i < |g| && g[i].key == k';
        assert r[i + 1] == g[i] && r[0] == h;
        assert less(r[0].key, r[i + 1].key);
      }
      forall a, b | 0 <= a < b < |g| ensures less(g[a].key, g[b].key) {
        assert r[a + 1] == g[a] && r[b + 1] == g[b];
      }
    }
  }

  /** Adds row `x` to the front of the group with key `k`, creating the group
      in its ascending position if it does not exist yet. */
  function AddRow<K(==,!new), T>(g: seq<Group<K, T>>, k: K, x: T, less: (K, K) -> bool): (r: seq<Group<K, T>>)
    requires StrictTotalOrder(less)
    requires Ascending(g, less)
    ensures Ascending(r, less)
    ensures KeysOf(r) == KeysOf(g) + {k}
    ensures forall k' :: Lookup(r, k') == if k' == k then [x] + Lookup(g, k') else Lookup(g, k')
  {
    if g == [] then
      KeysCons(Group(k, [x]), g);
      AscendingCons(Group(k, [x]), g, less);
      [Group(k, [x])]
    else
      assert g == [g[0]] + g[1..];
      KeysCons(g[0], g[1..]);
      AscendingCons(g[0], g[1..], less);
      if g[0].key == k then
        KeysCons(Group(k, [x] + g[0].rows), g[1..]);
        AscendingCons(Group(k, [x] + g[0].rows), g[1..], less);
        [Group(k, [x] + g[0].rows)] + g[1..]
      else if less(k, g[0].key) then
        KeysCons(Group(k, [x]), g);
        AscendingCons(Group(k, [x]), g, less);
        LookupAbsent(g, k);
        [Group(k, [x])] + g
      else
        var rest := AddRow(g[1..], k, x, less);
        KeysCons(g[0], rest);
        AscendingCons(g[0], rest, less);
        [g[0]] + rest
  }

  /** `groupby(key)`: one group per distinct present key, keys ascending, and
      each group holding exactly the rows with its key, in their original order. */
  function GroupBy<T, K(==,!new)>(s: seq<T>, key: T -> Option<K>, less: (K, K) -> bool): (g: seq<Group<K, T>>)
    requires StrictTotalOrder(less)
    ensures Ascending(g, less)
    ensures KeysOf(g) == PresentKeys(s, key)
    ensures forall k :: Lookup(g, k) == RowsWithKey(s, key, k)
  {
    if s == [] then []
    else
      var rest := GroupBy(s[1..], key, less);
      assert PresentKeys(s, key) == PresentKeys(s[1..], key) + (if key(s[0]).Some? then {key(s[0]).value} else {}) by {
        assert forall i :: 1 <= i < |s| ==> s[i] == s[1..][i - 1];
        forall k | k in PresentKeys(s[1..], key) ensures k in PresentKeys(s, key) {
          var i :| 0 <= i < |s[1..]| && key(s[1..][i]).Some? && key(s[1..][i]).value == k;
          assert s[i + 1] == s[1..][i];
        }
      }
      match key(s[0])
      case None => rest
      case Some(k) => AddRow(rest, k, s[0], less)
  }

  /** Every group of `GroupBy` holds exactly the rows with its key, and none is empty. */
  lemma GroupRows<T, K(!new)>(s: seq<T>, key: T -> Option<K>, less: (K, K) -> bool, i: nat)
    requires StrictTotalOrder(less)
    requires i < |GroupBy(s, key, less)|
    ensures GroupBy(s, key, less)[i].rows == RowsWithKey(s, key, GroupBy(s, key, less)[i].key)
    ensures GroupBy(s, key, less)[i].rows != []
  {
    var g := GroupBy(s, key, less);
    LookupAt(g, i, less);
    assert g[i].key in KeysOf(g);
    var j :| 0 <= j < |s| && key(s[j]).Some? && key(s[j]).value == g[i].key;
    assert s[j] in RowsWithKey(s, key, g[i].key);
  }

  /** An aggregation applied to every group (`groupby(...)[col].sum()`). */
  function Aggregate<K, T, V>(g: seq<Group<K, T>>, agg: seq<T> -> V): (t: seq<Entry<K, V>>)
    ensures |t| == |g|
    ensures forall i :: 0 <= i < |g| ==> t[i] == Entry(g[i].key, agg(g[i].rows))
  {
    if g == [] then [] else [Entry(g[0].key, agg(g[0].rows))] + Aggregate(g[1..], agg)
  }
}
