/** Sums over finite key sets. */
module Sums {

  ghost function Sum<K>(keys: set<K>, share: K -> int): int {
    if keys == {} then 0 else var k :| k in keys; share(k) + Sum(keys - {k}, share)
  }

  /** Any key may be taken out first. */
  lemma {:induction false} SumTakeOut<K>(keys: set<K>, share: K -> int, k: K)
    requires k in keys
    ensures Sum(keys, share) == share(k) + Sum(keys - {k}, share)
    decreases keys
  {
    var first :| first in keys && Sum(keys, share) == share(first) + Sum(keys - {first}, share);
    if first != k {
      SumTakeOut(keys - {first}, share, k);
      SumTakeOut(keys - {k}, share, first);
      assert keys - {first} - {k} == keys - {k} - {first};
    }
  }

  lemma {:induction false} SumSame<K(!new)>(keys: set<K>, f: K -> int, g: K -> int)
    requires forall k :: k in keys ==> f(k) == g(k)
    ensures Sum(keys, f) == Sum(keys, g)
    decreases keys
  {
    if keys != {} {
      var k :| k in keys;
      SumTakeOut(keys, f, k);
      SumTakeOut(keys, g, k);
      SumSame(keys - {k}, f, g);
    }
  }

  /** Writing one key moves the sum by the change at that key. */
  lemma SumWrite<K(!new)>(keys: set<K>, f: K -> int, g: K -> int, k: K)
    requires forall x :: x in keys && x != k ==> f(x) == g(x)
    requires k !in keys ==> f(k) == 0
    ensures Sum(keys + {k}, g) == Sum(keys, f) - f(k) + g(k)
  {
    SumTakeOut(keys + {k}, g, k);
    assert keys + {k} - {k} == keys - {k};
    SumSame(keys - {k}, f, g);
    if k in keys {
      SumTakeOut(keys, f, k);
    } else {
      assert keys - {k} == keys;
    }
  }

  lemma {:induction false} SumAtLeast<K(!new)>(keys: set<K>, f: K -> int, k: K)
    requires forall x :: x in keys ==> f(x) >= 0
    requires k in keys
    ensures Sum(keys, f) >= f(k)
    decreases keys
  {
    SumTakeOut(keys, f, k);
    SumNonNegative(keys - {k}, f);
  }

  lemma {:induction false} SumNonNegative<K(!new)>(keys: set<K>, f: K -> int)
    requires forall x :: x in keys ==> f(x) >= 0
    ensures Sum(keys, f) >= 0
    decreases keys
  {
    if keys != {} {
      var k :| k in keys;
      SumTakeOut(keys, f, k);
      SumNonNegative(keys - {k}, f);
    }
  }
}
