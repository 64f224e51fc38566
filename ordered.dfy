/** JavaScript's Map and Set remember insertion order: iteration, `Array.from(m.values())`,
    `forEach` and serialisation all follow it. `set` on a present key keeps its place, on a new
    key appends it; `delete` drops the key and keeps the order of the rest. */
module Ordered {
  import opened Types

  ghost predicate Distinct<K(!new)>(s: seq<K>) {
    forall i, j | 0 <= i < j < |s| :: s[i] != s[j]
  }

  /** `s` with every occurrence of `x` dropped, the rest in order. */
  function Without<K(==, !new)>(s: seq<K>, x: K): (r: seq<K>)
    ensures forall y :: y in r <==> y in s && y != x
    ensures |r| <= |s|
    ensures Distinct(s) ==> Distinct(r)
    ensures x !in s ==> r == s
  {
    if s == [] then []
    else if s[0] == x then Without(s[1..], x)
    else
      var rest := Without(s[1..], x);
      assert Distinct(s) ==> s[0] !in s[1..] by {
        if Distinct(s) {
          forall j | 0 <= j < |s| - 1 ensures s[1..][j] != s[0] {
            assert s[1..][j] == s[j + 1];
          }
        }
      }
      [s[0]] + rest
  }

  // ---------------------------------------------------------------- Set

  /** A JavaScript Set: its members in insertion order, each once. */
  type Set<K(==, !new)> = s: seq<K> | Distinct(s) witness []

  function Add<K(==, !new)>(s: Set<K>, x: K): (r: Set<K>)
    ensures forall y :: y in r <==> y in s || y == x
  {
    if x in s then s else s + [x]
  }

  function Delete<K(==, !new)>(s: Set<K>, x: K): (r: Set<K>)
    ensures forall y :: y in r <==> y in s && y != x
  {
    Without(s, x)
  }

  // ---------------------------------------------------------------- Map

  datatype Raw<K, V> = Raw(order: seq<K>, at: map<K, V>)

  ghost predicate Wf<K(!new), V>(m: Raw<K, V>) {
    Distinct(m.order) && (forall k :: k in m.at <==> k in m.order)
  }

  /** A JavaScript Map: `order` is the insertion order of the keys, `at` their values. */
  type Map<K(==, !new), V> = m: Raw<K, V> | Wf(m) witness Raw([], map[])

  function Empty<K(==, !new), V>(): (r: Map<K, V>)
    ensures r.at == map[] && r.order == []
  {
    Raw([], map[])
  }

  function Get<K(==, !new), V>(m: Map<K, V>, k: K): (r: Option<V>)
    ensures r.Some? <==> k in m.at
    ensures r.Some? ==> r.value == m.at[k]
  {
    if k in m.at then Some(m.at[k]) else None
  }

  /** `m.set(k, v)` on a copy. */
  function Put<K(==, !new), V>(m: Map<K, V>, k: K, v: V): (r: Map<K, V>)
    ensures r.at == m.at[k := v]
    ensures r.order == if k in m.at then m.order else m.order + [k]
  {
    if k in m.at then Raw(m.order, m.at[k := v]) else Raw(m.order + [k], m.at[k := v])
  }

  /** `m.delete(k)` on a copy. */
  function Remove<K(==, !new), V>(m: Map<K, V>, k: K): (r: Map<K, V>)
    ensures r.at == m.at - {k}
    ensures r.order == Without(m.order, k)
  {
    Raw(Without(m.order, k), m.at - {k})
  }

  /** `Array.from(m.values())`. */
  function Values<K(==, !new), V>(m: Map<K, V>): (r: seq<V>)
    ensures |r| == |m.order|
    ensures forall i | 0 <= i < |r| :: r[i] == m.at[m.order[i]]
  {
    seq(|m.order|, i requires 0 <= i < |m.order| => m.at[m.order[i]])
  }
}
