/** Dictionaries keyed by a function of the elements, filled in one pass in element order: the
    groups of elements with the same key, a per-key tally of a weight, and the insertion-ordered
    set of keys. The key function is a parameter, so these facts hold for any normalisation. */
module Grouping {
  import opened Sequences
  import StringSort

  /** The criterion "has key `key` under `keyOf`". */
  datatype KeySel<!T> = KeySel(keyOf: T -> string, key: string)

  predicate HasKey<T>(x: T, sel: KeySel<T>) {
    sel.keyOf(x) == sel.key
  }

  /** The elements among the first `n` with key `key`, in order. */
  function KeyedUpTo<T>(xs: seq<T>, keyOf: T -> string, key: string, n: nat): seq<T>
    requires n <= |xs|
  {
    FilterUpTo(xs, KeySel(keyOf, key), HasKey, n)
  }

  /** Some of the first `n` elements has key `key`. */
  predicate KeyOccurs<T>(xs: seq<T>, keyOf: T -> string, key: string, n: nat)
    requires n <= |xs|
  {
    exists i :: 0 <= i < n && keyOf(xs[i]) == key
  }

  lemma KeyedUpToNonEmpty<T>(xs: seq<T>, keyOf: T -> string, key: string, n: nat)
    requires n <= |xs|
    ensures KeyedUpTo(xs, keyOf, key, n) != [] <==> KeyOccurs(xs, keyOf, key, n)
  {
    FilterUpToMembers(xs, KeySel(keyOf, key), HasKey, n);
    if KeyOccurs(xs, keyOf, key, n) {
      var i :| 0 <= i < n && keyOf(xs[i]) == key;
      assert HasKey(xs[i], KeySel(keyOf, key));
      assert xs[i] in KeyedUpTo(xs, keyOf, key, n);
    }
    if KeyedUpTo(xs, keyOf, key, n) != [] {
      var x := KeyedUpTo(xs, keyOf, key, n)[0];
      FilterUpToMember(xs, KeySel(keyOf, key), HasKey, n, x);
      var i :| 0 <= i < n && xs[i] == x;
      assert HasKey(xs[i], KeySel(keyOf, key));
    }
  }

  // ---------------------------------------------------------------------------------------
  // Groups
  // ---------------------------------------------------------------------------------------

  /** The groups after the first `n` elements: each element is pushed onto the group of its key,
      which starts empty. */
  function GroupUpTo<T>(xs: seq<T>, keyOf: T -> string, n: nat): map<string, seq<T>>
    requires n <= |xs|
  {
    if n == 0 then map[]
    else
      var groups := GroupUpTo(xs, keyOf, n - 1);
      var key := keyOf(xs[n - 1]);
      groups[key := (if key in groups then groups[key] else []) + [xs[n - 1]]]
  }

  /** There is a group exactly for the keys that occur, and it holds exactly the elements with
      that key, in order. */
  lemma {:induction false} GroupUpToAt<T>(xs: seq<T>, keyOf: T -> string, n: nat, key: string)
    requires n <= |xs|
    ensures key in GroupUpTo(xs, keyOf, n) <==> KeyedUpTo(xs, keyOf, key, n) != []
    ensures key in GroupUpTo(xs, keyOf, n) ==> GroupUpTo(xs, keyOf, n)[key] == KeyedUpTo(xs, keyOf, key, n)
  {
    if n > 0 {
      GroupUpToAt(xs, keyOf, n - 1, key);
    }
  }

  // ---------------------------------------------------------------------------------------
  // Tallies
  // ---------------------------------------------------------------------------------------

  function One<T>(x: T): int { 1 }

  /** The sum of `weight` over `xs`. */
  function WeightSum<T>(xs: seq<T>, weight: T -> int): int {
    if |xs| == 0 then 0 else WeightSum(xs[..|xs| - 1], weight) + weight(xs[|xs| - 1])
  }

  lemma WeightSumSnoc<T>(xs: seq<T>, x: T, weight: T -> int)
    ensures WeightSum(xs + [x], weight) == WeightSum(xs, weight) + weight(x)
  {
    assert (xs + [x])[..|xs|] == xs;
  }

  lemma {:induction false} WeightSumOfOne<T>(xs: seq<T>)
    ensures WeightSum(xs, One) == |xs|
  {
    if |xs| > 0 {
      WeightSumOfOne(xs[..|xs| - 1]);
    }
  }

  /** The tally after the first `n` elements: each element adds its weight to the entry of its
      key, which starts at 0. */
  function TallyUpTo<T>(xs: seq<T>, keyOf: T -> string, weight: T -> int, n: nat): map<string, int>
    requires n <= |xs|
  {
    if n == 0 then map[]
    else
      var tally := TallyUpTo(xs, keyOf, weight, n - 1);
      var key := keyOf(xs[n - 1]);
      tally[key := (if key in tally then tally[key] else 0) + weight(xs[n - 1])]
  }

  /** There is an entry exactly when there is a group, and it is the weight of that group. */
  lemma {:induction false} TallyUpToAt<T>(xs: seq<T>, keyOf: T -> string, weight: T -> int, n: nat, key: string)
    requires n <= |xs|
    ensures key in TallyUpTo(xs, keyOf, weight, n) <==> key in GroupUpTo(xs, keyOf, n)
    ensures key in TallyUpTo(xs, keyOf, weight, n) ==>
              TallyUpTo(xs, keyOf, weight, n)[key] == WeightSum(KeyedUpTo(xs, keyOf, key, n), weight)
  {
    if n > 0 {
      TallyUpToAt(xs, keyOf, weight, n - 1, key);
      GroupUpToAt(xs, keyOf, n - 1, key);
      if keyOf(xs[n - 1]) == key {
        assert HasKey(xs[n - 1], KeySel(keyOf, key));
        WeightSumSnoc(KeyedUpTo(xs, keyOf, key, n - 1), xs[n - 1], weight);
      } else {
        assert !HasKey(xs[n - 1], KeySel(keyOf, key));
        assert KeyedUpTo(xs, keyOf, key, n) == KeyedUpTo(xs, keyOf, key, n - 1) + [];
        assert KeyedUpTo(xs, keyOf, key, n) == KeyedUpTo(xs, keyOf, key, n - 1);
      }
    }
  }

  // --- sums over a dictionary ---

  /** The sum of the values of `m` at `keys`. */
  ghost function SumOver(m: map<string, int>, keys: set<string>): int
    requires keys <= m.Keys
    decreases keys
  {
    if keys == {} then 0 else var k :| k in keys; m[k] + SumOver(m, keys - {k})
  }

  ghost function MapSum(m: map<string, int>): int {
    SumOver(m, m.Keys)
  }

  lemma {:induction false} SumOverRemove(m: map<string, int>, keys: set<string>, k: string)
    requires keys <= m.Keys && k in keys
    ensures SumOver(m, keys) == m[k] + SumOver(m, keys - {k})
    decreases keys
  {
    var j :| j in keys && SumOver(m, keys) == m[j] + SumOver(m, keys - {j});
    if j != k {
      SumOverRemove(m, keys - {j}, k);
      SumOverRemove(m, keys - {k}, j);
      assert keys - {j} - {k} == keys - {k} - {j};
    }
  }

  lemma {:induction false} SumOverSame(m1: map<string, int>, m2: map<string, int>, keys: set<string>)
    requires keys <= m1.Keys && keys <= m2.Keys
    requires forall k :: k in keys ==> m1[k] == m2[k]
    ensures SumOver(m1, keys) == SumOver(m2, keys)
    decreases keys
  {
    if keys != {} {
      var k :| k in keys;
      SumOverRemove(m1, keys, k);
      SumOverRemove(m2, keys, k);
      SumOverSame(m1, m2, keys - {k});
    }
  }

  /** Setting one entry changes the sum by the difference. */
  lemma MapSumUpdate(m: map<string, int>, k: string, v: int)
    ensures MapSum(m[k := v]) == MapSum(m) - (if k in m then m[k] else 0) + v
  {
    var m' := m[k := v];
    SumOverRemove(m', m'.Keys, k);
    assert m'.Keys - {k} == m.Keys - {k};
    SumOverSame(m', m, m.Keys - {k});
    if k in m {
      SumOverRemove(m, m.Keys, k);
    } else {
      assert m.Keys - {k} == m.Keys;
    }
  }

  /** The entries of a tally add up to the weight of all the elements. */
  lemma {:induction false} TallyUpToSum<T>(xs: seq<T>, keyOf: T -> string, weight: T -> int, n: nat)
    requires n <= |xs|
    ensures MapSum(TallyUpTo(xs, keyOf, weight, n)) == WeightSum(xs[..n], weight)
  {
    if n > 0 {
      TallyUpToSum(xs, keyOf, weight, n - 1);
      var tally := TallyUpTo(xs, keyOf, weight, n - 1);
      var key := keyOf(xs[n - 1]);
      MapSumUpdate(tally, key, (if key in tally then tally[key] else 0) + weight(xs[n - 1]));
      assert xs[..n] == xs[..n - 1] + [xs[n - 1]];
      WeightSumSnoc(xs[..n - 1], xs[n - 1], weight);
    } else {
      assert xs[..0] == [];
    }
  }

  // ---------------------------------------------------------------------------------------
  // The set of keys
  // ---------------------------------------------------------------------------------------

  /** The insertion-ordered set of the keys of the first `n` elements. */
  function KeysUpTo<T>(xs: seq<T>, keyOf: T -> string, n: nat): seq<string>
    requires n <= |xs|
  {
    if n == 0 then [] else StringSort.Add(KeysUpTo(xs, keyOf, n - 1), keyOf(xs[n - 1]))
  }

  lemma {:induction false} KeysUpToMembers<T>(xs: seq<T>, keyOf: T -> string, n: nat)
    requires n <= |xs|
    ensures StringSort.Distinct(KeysUpTo(xs, keyOf, n))
    ensures forall t :: t in KeysUpTo(xs, keyOf, n) <==> KeyOccurs(xs, keyOf, t, n)
  {
    if n > 0 {
      KeysUpToMembers(xs, keyOf, n - 1);
      forall t ensures KeyOccurs(xs, keyOf, t, n) <==> KeyOccurs(xs, keyOf, t, n - 1) || keyOf(xs[n - 1]) == t {
        if KeyOccurs(xs, keyOf, t, n) && keyOf(xs[n - 1]) != t {
          var i :| 0 <= i < n && keyOf(xs[i]) == t;
          assert i < n - 1;
        }
      }
    }
  }

  lemma {:induction false} KeysUpToPrefix<T>(xs: seq<T>, ys: seq<T>, keyOf: T -> string, n: nat)
    requires n <= |xs|
    ensures KeysUpTo(xs + ys, keyOf, n) == KeysUpTo(xs, keyOf, n)
  {
    if n > 0 {
      KeysUpToPrefix(xs, ys, keyOf, n - 1);
      assert (xs + ys)[n - 1] == xs[n - 1];
    }
  }

  /** One more element adds its key to the set, unless it is there already. */
  lemma KeysUpToSnoc<T>(xs: seq<T>, x: T, keyOf: T -> string)
    ensures KeysUpTo(xs + [x], keyOf, |xs| + 1) == StringSort.Add(KeysUpTo(xs, keyOf, |xs|), keyOf(x))
  {
    KeysUpToPrefix(xs, [x], keyOf, |xs|);
    assert (xs + [x])[|xs|] == x;
  }
}
