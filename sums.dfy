/** Finite sums of a non-negative weight over a set of keys.  Used to state
    that ledger movements conserve the issuance of a currency and that the
    open orders of an account are covered by its reserved balance. */
module Sums {

  /** The sum of `f(k)` over every `k` in `keys`. */
  ghost function Sum<K>(keys: set<K>, f: K -> nat): nat
    decreases keys
  {
    if keys == {} then 0
    else
      var k :| k in keys;
      f(k) + Sum(keys - {k}, f)
  }

  /** Any element may be split off first: the sum does not depend on the
      order in which the keys are visited. */
  lemma {:induction false} SumRemove<K>(keys: set<K>, f: K -> nat, k: K)
    requires k in keys
    ensures Sum(keys, f) == f(k) + Sum(keys - {k}, f)
    decreases keys
  {
    var j :| j in keys && Sum(keys, f) == f(j) + Sum(keys - {j}, f);
    if j != k {
      SumRemove(keys - {j}, f, k);
      SumRemove(keys - {k}, f, j);
      assert keys - {j} - {k} == keys - {k} - {j};
    }
  }

  /** Weights that agree on the keys give the same sum. */
  lemma {:induction false} SumCongruent<K>(keys: set<K>, f: K -> nat, g: K -> nat)
    requires forall k :: k in keys ==> f(k) == g(k)
    ensures Sum(keys, f) == Sum(keys, g)
    decreases keys
  {
    if keys != {} {
      var k :| k in keys;
      SumRemove(keys, f, k);
      SumRemove(keys, g, k);
      SumCongruent(keys - {k}, f, g);
    }
  }

  /** A key whose weight is zero does not change the sum. */
  lemma SumZeroKey<K>(keys: set<K>, f: K -> nat, k: K)
    requires f(k) == 0
    ensures Sum(keys + {k}, f) == Sum(keys, f)
  {
    if k !in keys {
      SumRemove(keys + {k}, f, k);
      assert keys + {k} - {k} == keys;
    } else {
      assert keys + {k} == keys;
    }
  }

  /** Changing the weight of one key `k` (and possibly adding `k` to the
      keys) changes the sum by exactly the change of that one weight. */
  lemma SumPointUpdate<K>(keys: set<K>, f: K -> nat, g: K -> nat, k: K)
    requires forall j :: j in keys && j != k ==> f(j) == g(j)
    ensures Sum(keys + {k}, g) + f(k) == Sum(keys + {k}, f) + g(k)
  {
    var rest := keys + {k} - {k};
    SumRemove(keys + {k}, f, k);
    SumRemove(keys + {k}, g, k);
    SumCongruent(rest, f, g);
  }
}
