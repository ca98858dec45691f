/** Totals over lists, and over the groups of a list. */
module Sums {
  import opened Sorting

  function Total<T>(s: seq<T>, value: T -> real): real {
    if s == [] then 0.0 else Total(s[..|s| - 1], value) + value(s[|s| - 1])
  }

  /** The members of one group, in list order. */
  function Group<T, K(==)>(s: seq<T>, keyOf: T -> K, key: K): seq<T> {
    if s == [] then []
    else
      var rest, last := Group(s[..|s| - 1], keyOf, key), s[|s| - 1];
      if keyOf(last) == key then rest + [last] else rest
  }

  lemma TotalSnoc<T>(s: seq<T>, x: T, value: T -> real)
    ensures Total(s + [x], value) == Total(s, value) + value(x)
  {
    assert (s + [x])[..|s|] == s;
  }

  lemma {:induction false} TotalCons<T>(x: T, s: seq<T>, value: T -> real)
    ensures Total([x] + s, value) == value(x) + Total(s, value)
  {
    if s == [] {
      assert ([x] + s)[..0] == [];
    } else {
      var n := |s| - 1;
      TotalCons(x, s[..n], value);
      assert ([x] + s)[..n + 1] == [x] + s[..n];
    }
  }

  /** A total is a sum: of one value it is that value, of two lists the sum of their totals. */
  lemma {:induction false} TotalIsAdditive<T>(s: seq<T>, t: seq<T>, x: T, value: T -> real)
    ensures Total([x], value) == value(x)
    ensures Total(s + t, value) == Total(s, value) + Total(t, value)
    decreases |t|
  {
    assert [x] == [] + [x];
    TotalSnoc([], x, value);
    if t == [] {
      assert s + t == s;
    } else {
      var n := |t| - 1;
      TotalIsAdditive(s, t[..n], x, value);
      assert s + t == s + t[..n] + [t[n]];
      TotalSnoc(s + t[..n], t[n], value);
    }
  }

  lemma GroupSnoc<T, K>(s: seq<T>, x: T, keyOf: T -> K, key: K)
    ensures Group(s + [x], keyOf, key) == Group(s, keyOf, key) + if keyOf(x) == key then [x] else []
  {
    assert (s + [x])[..|s|] == s;
  }

  lemma {:induction false} GroupMembers<T, K>(s: seq<T>, keyOf: T -> K, key: K)
    ensures forall x :: x in Group(s, keyOf, key) <==> x in s && keyOf(x) == key
  {
    if s != [] {
      GroupMembers(s[..|s| - 1], keyOf, key);
      assert s == s[..|s| - 1] + [s[|s| - 1]];
    }
  }

  /** The sum over the listed groups of each group's own total. */
  function GroupsTotal<T, K(==)>(keys: seq<K>, s: seq<T>, keyOf: T -> K, value: T -> real): real {
    if keys == [] then 0.0
    else GroupsTotal(keys[..|keys| - 1], s, keyOf, value) + Total(Group(s, keyOf, keys[|keys| - 1]), value)
  }

  lemma {:induction false} EmptyGroups<T, K>(keys: seq<K>, keyOf: T -> K, value: T -> real)
    ensures GroupsTotal(keys, [], keyOf, value) == 0.0
  {
    if keys != [] {
      EmptyGroups(keys[..|keys| - 1], keyOf, value);
    }
  }

  /** A new member adds to exactly one of the listed groups. */
  lemma {:induction false} GroupsSnoc<T, K>(keys: seq<K>, s: seq<T>, x: T, keyOf: T -> K, value: T -> real)
    requires Distinct(keys)
    ensures GroupsTotal(keys, s + [x], keyOf, value)
      == GroupsTotal(keys, s, keyOf, value) + if keyOf(x) in keys then value(x) else 0.0
  {
    if keys != [] {
      var n := |keys| - 1;
      GroupsSnoc(keys[..n], s, x, keyOf, value);
      GroupSnoc(s, x, keyOf, keys[n]);
      TotalSnoc(Group(s, keyOf, keys[n]), x, value);
      assert keyOf(x) in keys <==> keyOf(x) in keys[..n] || keyOf(x) == keys[n];
    }
  }

  /** Totals of all groups add up to the total of the list. */
  lemma {:induction false} GroupsAddUp<T, K>(keys: seq<K>, s: seq<T>, keyOf: T -> K, value: T -> real)
    requires Distinct(keys) && forall x :: x in s ==> keyOf(x) in keys
    ensures GroupsTotal(keys, s, keyOf, value) == Total(s, value)
  {
    if s == [] {
      EmptyGroups(keys, keyOf, value);
    } else {
      var front, last := s[..|s| - 1], s[|s| - 1];
      assert s == front + [last];
      GroupsAddUp(keys, front, keyOf, value);
      GroupsSnoc(keys, front, last, keyOf, value);
    }
  }
}
