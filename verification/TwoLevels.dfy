/** Tables by observation domain and then by key, and the flat maps they stand for. */
module TwoLevels {

  datatype Place<K> = Place(domain: int, key: K)

  type Nested<K, V> = map<int, map<K, V>>

  ghost predicate Has<K, V>(table: Nested<K, V>, p: Place<K>) {
    p.domain in table && p.key in table[p.domain]
  }

  /** The table holds just what the flat map does. */
  ghost predicate Holds<K(!new), V>(table: Nested<K, V>, m: map<Place<K>, V>) {
    && (forall p :: p in m <==> Has(table, p))
    && (forall p :: p in m ==> m[p] == table[p.domain][p.key])
  }

  lemma HoldsAt<K(!new), V>(table: Nested<K, V>, m: map<Place<K>, V>, p: Place<K>)
    requires Holds(table, m)
    ensures p in m <==> p.domain in table && p.key in table[p.domain]
    ensures p in m ==> m[p] == table[p.domain][p.key]
  {
    assert Has(table, p) <==> p in m;
  }

  function Row<K(==), V>(table: Nested<K, V>, domain: int): map<K, V> {
    if domain in table then table[domain] else map[]
  }

  lemma HoldsStored<K(!new), V>(table: Nested<K, V>, m: map<Place<K>, V>, p: Place<K>, v: V)
    requires Holds(table, m)
    ensures Holds(table[p.domain := Row(table, p.domain)[p.key := v]], m[p := v])
  {
  }

  /** A row left empty may go. */
  lemma HoldsRemoved<K(!new), V>(table: Nested<K, V>, m: map<Place<K>, V>, p: Place<K>)
    requires Holds(table, m) && p in m
    ensures Holds(table[p.domain := table[p.domain] - {p.key}], m - {p})
    ensures table[p.domain] - {p.key} == map[] ==> Holds(table - {p.domain}, m - {p})
  {
    var row := table[p.domain] - {p.key};
    var table' := table[p.domain := row];
    assert forall q: Place<K> :: Has(table', q) <==> Has(table, q) && q != p;
    if row == map[] {
      assert forall q: Place<K> :: Has(table - {p.domain}, q) <==> Has(table', q);
    }
  }

  function WithoutDomain<K(==), V>(m: map<Place<K>, V>, domain: int): map<Place<K>, V> {
    map p | p in m && p.domain != domain :: m[p]
  }

  lemma HoldsWithout<K(!new), V>(table: Nested<K, V>, m: map<Place<K>, V>, domain: int)
    requires Holds(table, m)
    ensures Holds(table - {domain}, WithoutDomain(m, domain))
    ensures domain in table ==> Holds(map[domain := table[domain]], m - WithoutDomain(m, domain).Keys)
    ensures domain !in table ==> WithoutDomain(m, domain) == m
  {
    assert forall p: Place<K> :: Has(table - {domain}, p) <==> Has(table, p) && p.domain != domain;
    if domain in table {
      assert forall p: Place<K> :: Has(map[domain := table[domain]], p) <==> Has(table, p) && p.domain == domain;
    }
  }
}
