/** Sums as a database computes them: nulls are skipped, the sum of nothing is
    null, and a grouped query keeps one running sum per key. */
module Tallies {
  import opened Wrappers

  datatype Item<K> = Item(key: K, amount: Option<int>)

  function Plus(a: Option<int>, b: Option<int>): Option<int> {
    if a.None? then b else if b.None? then a else Some(a.value + b.value)
  }

  function OrZero(x: Option<int>): int {
    if x.Some? then x.value else 0
  }

  function Total<K>(items: seq<Item<K>>): Option<int> {
    if items == [] then None else Plus(Total(items[..|items| - 1]), items[|items| - 1].amount)
  }

  /** The items under one key, in order. */
  function Only<K(==)>(items: seq<Item<K>>, key: K): seq<Item<K>> {
    if items == [] then []
    else Only(items[..|items| - 1], key) + (if items[|items| - 1].key == key then [items[|items| - 1]] else [])
  }

  function At<K(==)>(sums: map<K, Option<int>>, key: K): Option<int> {
    if key in sums then sums[key] else None
  }

  /** All groups at once, in a single pass. */
  function Grouped<K(==)>(items: seq<Item<K>>): map<K, Option<int>> {
    if items == [] then map[]
    else
      var sums, item := Grouped(items[..|items| - 1]), items[|items| - 1];
      sums[item.key := Plus(At(sums, item.key), item.amount)]
  }

  method ComputeGroups<K(==)>(items: seq<Item<K>>) returns (sums: map<K, Option<int>>)
    ensures sums == Grouped(items)
  {
    sums := map[];
    for i := 0 to |items|
      invariant sums == Grouped(items[..i])
    {
      assert items[..i + 1][..i] == items[..i];
      var item := items[i];
      var sum := if item.key in sums then sums[item.key] else None;
      sums := sums[item.key := Plus(sum, item.amount)];
    }
    assert items[..|items|] == items;
  }

  /** The single pass gives every key the sum a query for that key alone gives,
      and has exactly the keys that occur. */
  lemma {:induction false} GroupedAgrees<K>(items: seq<Item<K>>, key: K)
    ensures At(Grouped(items), key) == Total(Only(items, key))
    ensures key in Grouped(items) <==> Only(items, key) != []
  {
    if items != [] {
      var most, item := items[..|items| - 1], items[|items| - 1];
      GroupedAgrees(most, key);
      if item.key == key {
        assert Only(items, key)[..|Only(items, key)| - 1] == Only(most, key);
      } else {
        assert Only(items, key) == Only(most, key);
      }
    }
  }

  // ---- The groups add up ----

  ghost function SumValues<K>(m: map<K, Option<int>>): int
    decreases |m|
  {
    if m == map[] then 0
    else
      var k :| k in m;
      OrZero(m[k]) + SumValues(m - {k})
  }

  lemma {:induction false} SumValuesSplit<K>(m: map<K, Option<int>>, k: K)
    requires k in m
    ensures SumValues(m) == OrZero(m[k]) + SumValues(m - {k})
    decreases |m|
  {
    var c :| c in m && SumValues(m) == OrZero(m[c]) + SumValues(m - {c});
    if c != k {
      SumValuesSplit(m - {c}, k);
      SumValuesSplit(m - {k}, c);
      assert m - {c} - {k} == m - {k} - {c};
    }
  }

  lemma SumValuesUpdate<K>(m: map<K, Option<int>>, k: K, v: Option<int>)
    ensures SumValues(m[k := v]) == SumValues(m) - OrZero(At(m, k)) + OrZero(v)
  {
    SumValuesSplit(m[k := v], k);
    if k in m {
      SumValuesSplit(m, k);
      assert m[k := v] - {k} == m - {k};
    } else {
      assert m[k := v] - {k} == m;
    }
  }

  lemma {:induction false} GroupsAddUp<K>(items: seq<Item<K>>)
    ensures SumValues(Grouped(items)) == OrZero(Total(items))
  {
    if items != [] {
      var most, item := items[..|items| - 1], items[|items| - 1];
      GroupsAddUp(most);
      SumValuesUpdate(Grouped(most), item.key, Plus(At(Grouped(most), item.key), item.amount));
    }
  }
}
