/** How many entries of a finite map satisfy a predicate, and how that number moves
    when one entry is written or removed. */
module Counting {

  ghost function Matching<K, V>(m: map<K, V>, p: V -> bool): set<K> {
    set k | k in m && p(m[k])
  }

  ghost function Count<K, V>(m: map<K, V>, p: V -> bool): nat {
    |Matching(m, p)|
  }

  ghost function One(b: bool): nat {
    if b then 1 else 0
  }

  lemma CountInsert<K, V>(m: map<K, V>, k: K, v: V, p: V -> bool)
    requires k !in m
    ensures Count(m[k := v], p) == Count(m, p) + One(p(v))
  {
    if p(v) {
      assert Matching(m[k := v], p) == Matching(m, p) + {k};
    } else {
      assert Matching(m[k := v], p) == Matching(m, p);
    }
  }

  lemma CountRemove<K, V>(m: map<K, V>, k: K, p: V -> bool)
    requires k in m
    ensures Count(m, p) == Count(m - {k}, p) + One(p(m[k]))
  {
    if p(m[k]) {
      assert Matching(m, p) == Matching(m - {k}, p) + {k};
    } else {
      assert Matching(m, p) == Matching(m - {k}, p);
    }
  }

  lemma CountUpdate<K, V>(m: map<K, V>, k: K, v: V, p: V -> bool)
    requires k in m
    ensures Count(m[k := v], p) + One(p(m[k])) == Count(m, p) + One(p(v))
  {
    CountRemove(m, k, p);
    CountRemove(m[k := v], k, p);
    assert m[k := v] - {k} == m - {k};
  }

  lemma SubsetSize<T>(a: set<T>, b: set<T>)
    requires a <= b
    ensures |a| <= |b|
    ensures |a| == |b| ==> a == b
  {
    assert b == a + (b - a);
  }

  lemma CountMono<K, V>(m: map<K, V>, p: V -> bool, q: V -> bool)
    requires forall k :: k in m && p(m[k]) ==> q(m[k])
    ensures Count(m, p) <= Count(m, q)
  {
    SubsetSize(Matching(m, p), Matching(m, q));
  }

  lemma CountPositive<K, V>(m: map<K, V>, k: K, p: V -> bool)
    requires k in m && p(m[k])
    ensures Count(m, p) > 0
  {
    assert k in Matching(m, p);
  }

  lemma CountZero<K, V>(m: map<K, V>, p: V -> bool)
    requires Count(m, p) == 0
    ensures forall k :: k in m ==> !p(m[k])
  {
    forall k | k in m ensures !p(m[k]) {
      if p(m[k]) { CountPositive(m, k, p); }
    }
  }

  lemma CountNone<K, V>(m: map<K, V>, p: V -> bool)
    requires forall k :: k in m ==> !p(m[k])
    ensures Count(m, p) == 0
  {
    assert Matching(m, p) == {};
  }

  /** Entries split by a second predicate. */
  lemma CountSplit<K, V>(m: map<K, V>, p: V -> bool, q: V -> bool, r: V -> bool)
    requires forall k :: k in m ==> (p(m[k]) <==> q(m[k]) || r(m[k])) && !(q(m[k]) && r(m[k]))
    ensures Count(m, p) == Count(m, q) + Count(m, r)
  {
    assert Matching(m, p) == Matching(m, q) + Matching(m, r);
    assert Matching(m, q) !! Matching(m, r);
  }

  /** The lengths of all lists of a map, added up. */
  ghost function SumLen<K, V>(m: map<K, seq<V>>): nat
    decreases |m|
  {
    if m == map[] then 0
    else
      var k :| k in m;
      |m[k]| + SumLen(m - {k})
  }

  lemma {:induction false} SumLenTake<K, V>(m: map<K, seq<V>>, k: K)
    requires k in m
    ensures SumLen(m) == |m[k]| + SumLen(m - {k})
    decreases |m|
  {
    var l :| l in m && SumLen(m) == |m[l]| + SumLen(m - {l});
    if l != k {
      SumLenTake(m - {l}, k);
      SumLenTake(m - {k}, l);
      assert m - {l} - {k} == m - {k} - {l};
    }
  }

  lemma SumLenUpdate<K, V>(m: map<K, seq<V>>, k: K, v: seq<V>)
    ensures SumLen(m[k := v]) == SumLen(m - {k}) + |v|
    ensures SumLen(m) == SumLen(m - {k}) + (if k in m then |m[k]| else 0)
  {
    SumLenTake(m[k := v], k);
    assert m[k := v] - {k} == m - {k};
    if k in m { SumLenTake(m, k); } else { assert m - {k} == m; }
  }

  lemma SumLenEmpty<K, V>()
    ensures SumLen<K, V>(map[]) == 0
  {
  }
}
