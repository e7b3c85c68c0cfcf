/** Shared vocabulary: optional values and the one counting argument the project needs. */
module Prelude {

  datatype Option<+T> = None | Some(value: T)

  /** Python's `x or ""` for an optional string. */
  function OrEmpty(x: Option<string>): string {
    if x.Some? then x.value else ""
  }

  ghost predicate Injective<K, V>(m: map<K, V>) {
    forall a, b :: a in m && b in m && m[a] == m[b] ==> a == b
  }

  /** An injective map into a finite set has at most as many keys as the set has elements. */
  lemma {:induction false} InjectionBound<K, V>(m: map<K, V>, range: set<V>)
    requires Injective(m)
    requires forall k :: k in m ==> m[k] in range
    ensures |m.Keys| <= |range|
    decreases |m|
  {
    if m != map[] {
      var k :| k in m;
      var rest := m - {k};
      assert rest.Keys == m.Keys - {k};
      InjectionBound(rest, range - {m[k]});
    }
  }

  /** Keys may be missing from `m'`, but what it has, `m` has with the same value. */
  ghost predicate Submap<K, V>(m': map<K, V>, m: map<K, V>) {
    forall k :: k in m' ==> k in m && m'[k] == m[k]
  }

  lemma SubsetBound<T>(a: set<T>, b: set<T>)
    requires a <= b
    ensures |a| <= |b|
  {
    assert b == a + (b - a);
    assert |b| == |a| + |b - a|;
  }
}
