/** Go map semantics the core relies on: indexing a missing key yields the
    zero value, and `range` visits the keys in an unspecified order. */
module Maps {

  /** `m[k]` in Go: the zero value when `k` is absent. */
  function Lookup<K, V>(m: map<K, V>, k: K, zero: V): (v: V)
    ensures k in m ==> v == m[k]
    ensures k !in m ==> v == zero
  {
    if k in m then m[k] else zero
  }

  /** `ks` lists every element of `s` exactly once. */
  ghost predicate Enumerates<K>(ks: seq<K>, s: set<K>) {
    && (forall i :: 0 <= i < |ks| ==> ks[i] in s)
    && (forall k :: k in s ==> k in ks)
    && (forall i, j :: 0 <= i < j < |ks| ==> ks[i] != ks[j])
  }

  /** The order in which `for k := range m` visits the keys of `m`. Go leaves
      it unspecified, so each step picks any key not yet visited. */
  method RangeKeys<K, V>(m: map<K, V>) returns (ks: seq<K>)
    ensures Enumerates(ks, m.Keys)
    ensures |ks| == |m|
  {
    ks := [];
    var todo := m.Keys;
    while todo != {}
      invariant todo <= m.Keys
      invariant forall i :: 0 <= i < |ks| ==> ks[i] in m && ks[i] !in todo
      invariant forall k :: k in m && k !in todo ==> k in ks
      invariant forall i, j :: 0 <= i < j < |ks| ==> ks[i] != ks[j]
      invariant |ks| + |todo| == |m|
      decreases todo
    {
      var k :| k in todo;
      ks := ks + [k];
      todo := todo - {k};
    }
  }
}
