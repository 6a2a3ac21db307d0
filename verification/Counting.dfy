/** Counting the entries of a map that satisfy a predicate. */
module Counting {
  ghost function Owners<K, V>(m: map<K, V>, p: V -> bool): set<K> {
    set k | k in m && p(m[k])
  }

  ghost function Count<K, V>(m: map<K, V>, p: V -> bool): nat {
    |Owners(m, p)|
  }

  function One(c: bool): nat {
    if c then 1 else 0
  }

  lemma Put<K, V>(m: map<K, V>, k: K, v: V, p: V -> bool)
    ensures Count(m[k := v], p) == Count(m, p) - One(k in m && p(m[k])) + One(p(v))
  {
    var rest := Owners(m, p) - {k};
    if k in m && p(m[k]) {
      assert Owners(m, p) == rest + {k};
    } else {
      assert Owners(m, p) == rest;
    }
    if p(v) {
      assert Owners(m[k := v], p) == rest + {k};
    } else {
      assert Owners(m[k := v], p) == rest;
    }
  }

  lemma Take<K, V>(m: map<K, V>, k: K, p: V -> bool)
    requires k in m
    ensures Count(m - {k}, p) == Count(m, p) - One(p(m[k]))
  {
    assert Owners(m - {k}, p) == Owners(m, p) - {k};
  }

  lemma Member<K, V>(m: map<K, V>, k: K, p: V -> bool)
    requires k in m && p(m[k])
    ensures Count(m, p) > 0
  {
    assert k in Owners(m, p);
  }

  lemma NoneCounted<K, V>(m: map<K, V>, p: V -> bool)
    ensures Count(m, p) == 0 <==> forall k :: k in m ==> !p(m[k])
  {
    if Count(m, p) == 0 {
      forall k | k in m ensures !p(m[k]) {
        if p(m[k]) {
          Member(m, k, p);
        }
      }
    } else {
      var k := Witness(m, p);
    }
  }

  /** If two entries count, at least two are counted. */
  lemma TwoMembers<K, V>(m: map<K, V>, j: K, k: K, p: V -> bool)
    requires j in m && p(m[j]) && k in m && p(m[k]) && j != k
    ensures Count(m, p) >= 2
  {
    assert {j, k} <= Owners(m, p);
    Smaller({j, k}, Owners(m, p));
  }

  lemma Smaller<K>(a: set<K>, b: set<K>)
    requires a <= b
    ensures |a| <= |b|
  {
    assert b == a + (b - a);
  }

  lemma Witness<K, V>(m: map<K, V>, p: V -> bool) returns (k: K)
    requires Count(m, p) > 0
    ensures k in m && p(m[k])
  {
    k :| k in Owners(m, p);
  }
}
