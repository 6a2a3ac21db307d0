/** The order in which a std::map keyed by strings is walked. */
module KeyOrder {
  /** operator< of strings. */
  predicate Below(a: string, b: string) {
    if b == "" then false
    else if a == "" then true
    else a[0] < b[0] || (a[0] == b[0] && Below(a[1..], b[1..]))
  }

  lemma {:induction false} BelowIsTotal(a: string, b: string)
    ensures a == b || Below(a, b) || Below(b, a)
    ensures !(Below(a, b) && Below(b, a)) && !Below(a, a)
  {
    if a != "" {
      if b != "" {
        BelowIsTotal(a[1..], b[1..]);
        assert a[0] == b[0] && a[1..] == b[1..] ==> [a[0]] + a[1..] == [b[0]] + b[1..];
      }
      BelowIsTotal(a[1..], a[1..]);
    }
  }

  lemma {:induction false} BelowIsTransitive(a: string, b: string, c: string)
    requires Below(a, b) && Below(b, c)
    ensures Below(a, c)
  {
    if a != "" && a[0] == b[0] == c[0] {
      BelowIsTransitive(a[1..], b[1..], c[1..]);
    }
  }

  predicate IsLeast(k: string, names: set<string>) {
    k in names && forall t :: t in names ==> t == k || Below(k, t)
  }

  lemma {:induction false} LeastExists(names: set<string>)
    requires names != {}
    ensures exists k :: IsLeast(k, names)
    decreases |names|
  {
    var s :| s in names;
    var rest := names - {s};
    if rest == {} {
      assert names == {s};
      assert IsLeast(s, names);
    } else {
      LeastExists(rest);
      var k :| IsLeast(k, rest);
      BelowIsTotal(s, k);
      if Below(s, k) {
        forall t | t in names ensures t == s || Below(s, t) {
          if t in rest && t != k {
            BelowIsTransitive(s, k, t);
          }
        }
        assert IsLeast(s, names);
      } else {
        assert IsLeast(k, names);
      }
    }
  }

  lemma LeastIsUnique(k: string, l: string, names: set<string>)
    requires IsLeast(k, names) && IsLeast(l, names)
    ensures k == l
  {
    BelowIsTotal(k, l);
  }

  ghost function Least(names: set<string>): (k: string)
    requires names != {}
    ensures IsLeast(k, names)
  {
    LeastExists(names);
    var k :| IsLeast(k, names);
    k
  }

  ghost function SortedKeys(names: set<string>): (r: seq<string>)
    ensures |r| == |names| && forall s :: s in r <==> s in names
    decreases |names|
  {
    if names == {} then [] else
    var k := Least(names);
    var r := SortedKeys(names - {k});
    assert forall s :: s in [k] + r <==> s == k || s in r;
    [k] + r
  }

  lemma {:induction false} SortedKeysIncrease(names: set<string>, i: nat, j: nat)
    requires i < j < |SortedKeys(names)|
    ensures Below(SortedKeys(names)[i], SortedKeys(names)[j])
    decreases |names|
  {
    var k := Least(names);
    var rest := SortedKeys(names - {k});
    assert SortedKeys(names) == [k] + rest;
    if i == 0 {
      assert rest[j - 1] in rest;
    } else {
      SortedKeysIncrease(names - {k}, i - 1, j - 1);
    }
  }

  /** Keys already walked, the next one, and those to come. */
  lemma SortedKeysDiffer(names: set<string>, i: nat, j: nat)
    requires i < j < |SortedKeys(names)|
    ensures SortedKeys(names)[i] != SortedKeys(names)[j]
  {
    SortedKeysIncrease(names, i, j);
    BelowIsTotal(SortedKeys(names)[i], SortedKeys(names)[j]);
  }

  predicate Increasing(ks: seq<string>) {
    forall i, j :: 0 <= i < j < |ks| ==> Below(ks[i], ks[j])
  }

  ghost predicate SameMembers(ks: seq<string>, names: set<string>) {
    forall s :: s in ks <==> s in names
  }

  lemma FirstIsLeast(ks: seq<string>, names: set<string>)
    requires Increasing(ks) && SameMembers(ks, names) && ks != []
    ensures IsLeast(ks[0], names) && Increasing(ks[1..]) && SameMembers(ks[1..], names - {ks[0]})
  {
    forall t | t in names ensures t == ks[0] || Below(ks[0], t) {
      var j :| 0 <= j < |ks| && ks[j] == t;
    }
    forall j | 0 < j < |ks| ensures ks[j] != ks[0] {
      BelowIsTotal(ks[0], ks[j]);
    }
    assert ks[0] !in ks[1..];
    assert forall s :: s in ks <==> s == ks[0] || s in ks[1..];
  }

  lemma SortedStep(names: set<string>, k: string)
    requires IsLeast(k, names)
    ensures SortedKeys(names) == [k] + SortedKeys(names - {k})
  {
    LeastIsUnique(k, Least(names), names);
  }

  /** There is only one increasing listing. */
  lemma {:induction false} IncreasingIsSorted(ks: seq<string>, names: set<string>)
    requires Increasing(ks) && SameMembers(ks, names)
    ensures SortedKeys(names) == ks
    decreases |ks|
  {
    if ks == [] {
      NoMembers(names);
    } else {
      FirstIsLeast(ks, names);
      IncreasingIsSorted(ks[1..], names - {ks[0]});
      SortedStep(names, ks[0]);
      assert ks == [ks[0]] + ks[1..];
    }
  }

  lemma NoMembers(names: set<string>)
    requires SameMembers([], names)
    ensures SortedKeys(names) == []
  {
    assert names == {};
  }
}
