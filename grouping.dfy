/**
 * LINQ `GroupBy(key).Select(g => (g.Key, g.Count()))` on a list of keys: one group per
 * distinct key, in the order of first occurrence, with the number of its occurrences.
 */
module Grouping {
  import opened Sequences

  /** The groups of `keys`, named in `order`. */
  function GroupWith<K(==)>(order: seq<K>, keys: seq<K>): (groups: seq<(K, nat)>)
    ensures |groups| == |order|
    ensures forall i :: 0 <= i < |order| ==> groups[i] == (order[i], Count(keys, order[i]))
  {
    if order == [] then [] else [(order[0], Count(keys, order[0]))] + GroupWith(order[1..], keys)
  }

  /** The total of the group sizes. */
  function Total<K>(groups: seq<(K, nat)>): nat {
    if groups == [] then 0 else groups[0].1 + Total(groups[1..])
  }

  /** `GroupBy` then `Count`: the distinct keys in order of first occurrence, with their counts. */
  function GroupCounts<K(==,!new)>(keys: seq<K>): (groups: seq<(K, nat)>)
    ensures |groups| == |Distinct(keys)|
    ensures forall i :: 0 <= i < |groups| ==> groups[i].0 == Distinct(keys)[i] && groups[i].1 == Count(keys, groups[i].0)
    ensures forall i :: 0 <= i < |groups| ==> groups[i].1 >= 1
  {
    GroupWith(Distinct(keys), keys)
  }

  lemma {:induction false} TotalAppend<K>(a: seq<(K, nat)>, b: seq<(K, nat)>)
    ensures Total(a + b) == Total(a) + Total(b)
  {
    if a == [] {
      assert a + b == b;
    } else {
      assert (a + b)[1..] == a[1..] + b;
      TotalAppend(a[1..], b);
    }
  }

  /** One more key adds one to the total of the groups that name it, and nothing otherwise. */
  lemma {:induction false} TotalGrowsByOne<K>(order: seq<K>, keys: seq<K>, y: K)
    requires NoDuplicates(order)
    ensures Total(GroupWith(order, keys + [y])) == Total(GroupWith(order, keys)) + (if y in order then 1 else 0)
  {
    if order != [] {
      assert NoDuplicates(order[1..]);
      TotalGrowsByOne(order[1..], keys, y);
      CountAppend(keys, y, order[0]);
      assert y in order <==> y == order[0] || y in order[1..];
      assert y == order[0] ==> y !in order[1..];
    }
  }

  /** Naming one more key adds its group at the end. */
  lemma GroupWithAppend<K>(order: seq<K>, k: K, keys: seq<K>)
    ensures GroupWith(order + [k], keys) == GroupWith(order, keys) + [(k, Count(keys, k))]
  {
  }

  /** The group sizes add up to the number of keys. */
  lemma {:induction false} GroupCountsTotal<K(!new)>(keys: seq<K>)
    ensures Total(GroupCounts(keys)) == |keys|
    decreases |keys|
  {
    if keys != [] {
      var front := keys[..|keys| - 1];
      var last := keys[|keys| - 1];
      assert keys == front + [last];
      GroupCountsTotal(front);
      var d := Distinct(front);
      TotalGrowsByOne(d, front, last);
      if last !in d {
        assert Distinct(keys) == d + [last];
        GroupWithAppend(d, last, keys);
        TotalAppend(GroupWith(d, keys), [(last, Count(keys, last))]);
        CountAppend(front, last, last);
        assert Total([(last, Count(keys, last))]) == Count(keys, last);
      }
    }
  }
}
