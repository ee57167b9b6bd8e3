/** Totals over a dictionary: the sum of the values of a map, and how one
    update or one removal changes it. */
module MapSum {

  ghost function Total<K>(m: map<K, nat>): nat
    decreases |m|
  {
    if m == map[] then 0
    else
      var k :| k in m;
      m[k] + Total(m - {k})
  }

  /** The choice made by Total is immaterial: any key can be split off. */
  lemma {:induction false} Split<K>(m: map<K, nat>, k: K)
    requires k in m
    ensures Total(m) == m[k] + Total(m - {k})
    decreases |m|
  {
    var c :| c in m && Total(m) == m[c] + Total(m - {c});
    if c != k {
      Split(m - {c}, k);
      Split(m - {k}, c);
      assert m - {c} - {k} == m - {k} - {c};
    }
  }

  /** Writing one entry moves the total by the difference. */
  lemma Update<K>(m: map<K, nat>, k: K, v: nat)
    ensures Total(m[k := v]) == Total(m) - (if k in m then m[k] else 0) + v
  {
    Split(m[k := v], k);
    if k in m {
      Split(m, k);
      assert m[k := v] - {k} == m - {k};
    } else {
      assert m[k := v] - {k} == m;
    }
  }

  lemma Remove<K>(m: map<K, nat>, k: K)
    requires k in m
    ensures Total(m - {k}) == Total(m) - m[k]
  {
    Split(m, k);
  }

  /** Two distinct entries together are at most the total. */
  lemma TwoAtMostTotal<K>(m: map<K, nat>, a: K, b: K)
    requires a in m && b in m && a != b
    ensures m[a] + m[b] <= Total(m)
  {
    Split(m, a);
    Split(m - {a}, b);
  }
}
