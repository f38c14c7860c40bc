/** Sums over the values of finite maps. */
module Totals {
  ghost function Pick<K, V>(m: map<K, V>): (k: K)
    requires |m| > 0
    ensures k in m
  {
    assert m.Keys != {};
    var k: K :| k in m;
    k
  }

  /** The sum of the weights of all values. */
  ghost function Total<K, V>(m: map<K, V>, f: V -> nat): nat
    decreases |m|
  {
    if |m| == 0 then 0 else f(m[Pick(m)]) + Total(m - {Pick(m)}, f)
  }

  lemma {:induction false} TotalPick<K, V>(m: map<K, V>, f: V -> nat, k: K)
    requires k in m
    ensures Total(m, f) == f(m[k]) + Total(m - {k}, f)
    decreases |m|
  {
    hide Pick;
    var p := Pick(m);
    if p != k {
      TotalPick(m - {p}, f, k);
      TotalPick(m - {k}, f, p);
      assert m - {p} - {k} == m - {k} - {p};
    }
  }

  /** Setting one key changes the total by that key's weight alone. */
  lemma TotalSet<K, V>(m: map<K, V>, f: V -> nat, k: K, v: V)
    ensures Total(m[k := v], f) + (if k in m then f(m[k]) else 0) == Total(m, f) + f(v)
  {
    hide Total;
    TotalPick(m[k := v], f, k);
    assert m[k := v] - {k} == m - {k};
    if k in m {
      TotalPick(m, f, k);
    } else {
      assert m - {k} == m;
    }
  }

  /** A total is zero exactly when every weight is. */
  lemma {:induction false} TotalZero<K, V>(m: map<K, V>, f: V -> nat)
    ensures Total(m, f) == 0 <==> forall k :: k in m ==> f(m[k]) == 0
    decreases |m|
  {
    hide Pick;
    if |m| > 0 {
      var p := Pick(m);
      TotalZero(m - {p}, f);
      assert forall k :: k in m <==> k == p || k in m - {p};
    }
  }
}
