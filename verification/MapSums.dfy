/** Sums of a weight over the values of a finite map. */
module MapSums {

  ghost function Pick<K, V>(entries: map<K, V>): (k: K)
    requires |entries| != 0
    ensures k in entries
  {
    var k :| k in entries; k
  }

  ghost function Sum<K, V>(entries: map<K, V>, weight: V -> nat): nat
    decreases |entries|
  {
    if |entries| == 0 then 0
    else weight(entries[Pick(entries)]) + Sum(entries - {Pick(entries)}, weight)
  }

  /** The sum does not depend on the entry that is taken out first. */
  lemma {:induction false} SumDrop<K, V>(entries: map<K, V>, weight: V -> nat, k: K)
    requires k in entries
    ensures Sum(entries, weight) == weight(entries[k]) + Sum(entries - {k}, weight)
    decreases |entries|
  {
    var j := Pick(entries);
    if j != k {
      var without := entries - {j};
      var rest := entries - {k};
      assert |without| < |entries| && |rest| < |entries|;
      assert without - {k} == rest - {j};
      SumDrop(without, weight, k);
      SumDrop(rest, weight, j);
    }
  }

  lemma Smaller<K, V>(entries: map<K, V>, k: K)
    requires k in entries
    ensures |entries - {k}| < |entries|
  {
    assert (entries - {k}).Keys == entries.Keys - {k};
  }

  lemma SumStore<K, V>(entries: map<K, V>, weight: V -> nat, k: K, v: V)
    requires k !in entries
    ensures Sum(entries[k := v], weight) == weight(v) + Sum(entries, weight)
  {
    SumDrop(entries[k := v], weight, k);
    assert entries[k := v] - {k} == entries;
  }

  lemma UnionEmpty<K, V>(a: map<K, V>, b: map<K, V>)
    requires |b| == 0
    ensures a + b == a
  {
    assert b.Keys == {};
  }

  lemma UnionStep<K, V>(a: map<K, V>, b: map<K, V>, k: K)
    requires k in b
    ensures a + b == (a + (b - {k}))[k := b[k]]
    ensures |b - {k}| < |b|
  {
    var rest := b - {k};
    assert rest.Keys == b.Keys - {k};
    assert |rest.Keys| < |b.Keys|;
  }

  lemma {:induction false} SumUnion<K, V>(a: map<K, V>, b: map<K, V>, weight: V -> nat)
    requires a.Keys !! b.Keys
    ensures Sum(a + b, weight) == Sum(a, weight) + Sum(b, weight)
    decreases |b|
  {
    if |b| == 0 {
      UnionEmpty(a, b);
    } else {
      var k := Pick(b);
      var rest := b - {k};
      UnionStep(a, b, k);
      assert k !in a + rest;
      SumStore(a + rest, weight, k, b[k]);
      SumUnion(a, rest, weight);
      SumDrop(b, weight, k);
    }
  }
}
