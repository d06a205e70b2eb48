/**
 * The two loops over a dictionary's keys that the servers run: rewrite the
 * value of every key that passes a test, or delete every such key. Each
 * key is visited once, in an order the dictionary chooses.
 */
module Maps {

  /** `for k in d: if p(k): d[k] = f(d[k])`. */
  method UpdateWhere<K, V>(m: map<K, V>, p: K -> bool, f: V -> V) returns (r: map<K, V>)
    ensures r == map k | k in m :: if p(k) then f(m[k]) else m[k]
  {
    r := m;
    var keys := m.Keys;
    while keys != {}
      invariant keys <= m.Keys && r.Keys == m.Keys
      invariant forall k :: k in m ==> r[k] == if k !in keys && p(k) then f(m[k]) else m[k]
      decreases keys
    {
      var k :| k in keys;
      if p(k) {
        r := r[k := f(r[k])];
      }
      keys := keys - {k};
    }
  }

  /** `for k in list(d.keys()): if p(k): del d[k]`. */
  method RemoveWhere<K, V>(m: map<K, V>, p: K -> bool) returns (r: map<K, V>)
    ensures r == map k | k in m && !p(k) :: m[k]
  {
    r := m;
    var keys := m.Keys;
    while keys != {}
      invariant keys <= m.Keys
      invariant forall k :: k in r <==> k in m && (k in keys || !p(k))
      invariant forall k :: k in r ==> r[k] == m[k]
      decreases keys
    {
      var k :| k in keys;
      if p(k) {
        r := r - {k};
      }
      keys := keys - {k};
    }
  }
}
