/** A dictionary that remembers insertion order: re-assigning a present key keeps its
    place, a new key goes last. */
module OrderedDict {
  import opened Types

  type Dict<K, V> = seq<(K, V)>

  ghost predicate Distinct<K, V>(d: Dict<K, V>) {
    forall i, j :: 0 <= i < j < |d| ==> d[i].0 != d[j].0
  }

  function Keys<K, V>(d: Dict<K, V>): set<K> {
    set i | 0 <= i < |d| :: d[i].0
  }

  /** Where the key sits, or the length of the dictionary when it is absent. */
  function Position<K(==), V>(d: Dict<K, V>, k: K): (r: nat)
    ensures r <= |d|
    ensures r < |d| ==> d[r].0 == k
    ensures forall j :: 0 <= j < r ==> d[j].0 != k
  {
    if d == [] then 0
    else if d[0].0 == k then 0
    else
      var r := Position(d[1..], k);
      assert forall j :: 1 <= j < |d| ==> d[j] == d[1..][j - 1];
      r + 1
  }

  function Find<K(==), V>(d: Dict<K, V>, k: K): Option<V> {
    var i := Position(d, k);
    if i < |d| then Some(d[i].1) else None
  }

  function Put<K(==), V>(d: Dict<K, V>, k: K, v: V): Dict<K, V> {
    var i := Position(d, k);
    if i < |d| then d[i := (k, v)] else d + [(k, v)]
  }

  function Remove<K(==), V>(d: Dict<K, V>, k: K): Dict<K, V> {
    var i := Position(d, k);
    if i < |d| then d[..i] + d[i + 1..] else d
  }

  /** What a lookup finds is in the dictionary; with distinct keys it finds all of it. */
  lemma FindIsMember<K, V>(d: Dict<K, V>, k: K)
    ensures match Find(d, k)
            case None => forall p :: p in d ==> p.0 != k
            case Some(v) => (k, v) in d
    ensures Distinct(d) ==> forall v :: (k, v) in d ==> Find(d, k) == Some(v)
  {}

  /** Dictionaries with the same pairs answer every lookup alike. */
  lemma SamePairsSameFind<K, V>(a: Dict<K, V>, b: Dict<K, V>, k: K)
    requires Distinct(a) && Distinct(b) && forall p :: p in a <==> p in b
    ensures Find(a, k) == Find(b, k)
  {
    hide Find, Distinct;
    FindIsMember(a, k);
    FindIsMember(b, k);
  }

  lemma FindAfterPut<K, V>(d: Dict<K, V>, k: K, v: V, x: K)
    requires Distinct(d)
    ensures Distinct(Put(d, k, v))
    ensures Find(Put(d, k, v), x) == if x == k then Some(v) else Find(d, x)
  {
    var i, p := Position(d, k), Put(d, k, v);
    assert forall m :: 0 <= m < |d| && m != i ==> p[m] == d[m];
    assert p[i] == (k, v);
    hide Position, Find, Put;
    FindIsMember(d, x);
    FindIsMember(p, x);
  }
}
