/** What survives the way into Lua and back. */
module LuaLaws {
  import opened Options
  import opened Script
  import opened Lua
  import Counting

  /** The values that come back: nothing nested is lost, numbers are exact, texts and keys are not numbers. */
  predicate Survives(env: Runtime, a: Arg)
    decreases a
  {
    match a
    case Null => true
    case Int(n) => Trunc(env.double(n)) == n
    case Float(_) => false
    case Str(s) => env.str2num(s).None?
    case List(l) => forall i :: 0 <= i < |l| ==> Kept(l[i]) && Survives(env, l[i])
    case Dict(d) =>
      && (forall k :: k in d ==> Kept(d[k]) && Survives(env, d[k]))
      && !IsList(env, env.order(Encode(env, a).t))
    case Func(_) => false
  }

  /** Not stored as nil. */
  predicate Kept(a: Arg) {
    !a.Null? && !a.Func?
  }

  lemma KeptIsStored(env: Runtime, a: Arg)
    ensures Encode(env, a) == Nil <==> !Kept(a)
  {
  }

  lemma Indexes(env: Runtime, n: nat)
    ensures IsList(env, IndexKeys(n))
  {
    forall i | 0 <= i < n ensures IsIndex(env, IndexKeys(n)[i], i + 1) {
      assert Trunc((i + 1) as real) == i + 1;
    }
  }

  // ------------------------------------------------------------------ lists

  lemma NumKeysStep(n: nat)
    ensures NumKeys(n + 1) == NumKeys(n) + {IndexKey(n + 1)}
  {
  }

  predicate AllKept(l: seq<Arg>) {
    forall i :: 0 <= i < |l| ==> Kept(l[i])
  }

  lemma {:induction false} ItemsOfKept(env: Runtime, a: Arg, n: nat)
    requires a.List? && n <= |a.l| && AllKept(a.l)
    ensures EncodeItems(env, a, n).Keys == NumKeys(n)
    ensures forall i :: 0 <= i < n ==> var k := IndexKey(i + 1); k in EncodeItems(env, a, n) && EncodeItems(env, a, n)[k] == Encode(env, a.l[i])
  {
    if n > 0 {
      ItemsOfKept(env, a, n - 1);
      KeptIsStored(env, a.l[n - 1]);
      NumKeysStep(n - 1);
    }
  }

  function KeptCount(l: seq<Arg>, n: nat): nat
    requires n <= |l|
  {
    if n == 0 then 0 else KeptCount(l, n - 1) + if Kept(l[n - 1]) then 1 else 0
  }

  lemma {:induction false} SomeNotKept(l: seq<Arg>, n: nat, i: nat)
    requires n <= |l| && i < |l| && !Kept(l[i])
    ensures KeptCount(l, n) <= if i < n then n - 1 else n
  {
    if n > 0 {
      SomeNotKept(l, n - 1, i);
    }
  }

  ghost predicate FewStored(env: Runtime, a: Arg, n: nat)
    requires a.List? && n <= |a.l|
  {
    |EncodeItems(env, a, n).Keys| <= KeptCount(a.l, n)
  }

  lemma OneMoreItem(env: Runtime, a: Arg, n: nat)
    requires a.List? && 0 < n <= |a.l| && FewStored(env, a, n - 1)
    ensures FewStored(env, a, n)
  {
    KeptIsStored(env, a.l[n - 1]);
    StoreSize(EncodeItems(env, a, n - 1), IndexKey(n), Encode(env, a.l[n - 1]));
  }

  lemma NoItems(env: Runtime, a: Arg)
    requires a.List?
    ensures FewStored(env, a, 0)
  {
    assert EncodeItems(env, a, 0).Keys == {};
  }

  /** No more entries are stored than items are kept. */
  lemma {:induction false} StoredItems(env: Runtime, a: Arg, n: nat)
    requires a.List? && n <= |a.l|
    ensures FewStored(env, a, n)
  {
    if n == 0 {
      NoItems(env, a);
    } else {
      StoredItems(env, a, n - 1);
      OneMoreItem(env, a, n);
    }
  }

  lemma StoreSize(t: map<LuaKey, LuaVal>, k: LuaKey, v: LuaVal)
    ensures |Store(t, k, v).Keys| <= |t.Keys| + (if v == Nil then 0 else 1)
  {
    if v == Nil {
      assert Store(t, k, v).Keys == t.Keys - {k};
      Counting.Smaller(t.Keys - {k}, t.Keys);
    } else {
      assert Store(t, k, v).Keys == t.Keys + {k};
    }
  }

  lemma {:induction false} DecodedItems(env: Runtime, v: LuaVal, n: nat)
    requires Valid(env) && v.Table? && n <= |env.order(v.t)|
    ensures forall i :: 0 <= i < n ==> env.order(v.t)[i] in v.t && DecodeItems(env, v, n)[i] == Decode(env, v.t[env.order(v.t)[i]])
  {
    if n > 0 {
      DecodedItems(env, v, n - 1);
      assert env.order(v.t)[n - 1] in v.t.Keys;
    }
  }

  /** A list of kept items comes back item by item. */
  lemma ListComesBack(env: Runtime, a: Arg)
    requires Valid(env) && a.List? && AllKept(a.l)
    ensures var r := Decode(env, Encode(env, a));
            r.List? && |r.l| == |a.l| && forall i :: 0 <= i < |a.l| ==> r.l[i] == Decode(env, Encode(env, a.l[i]))
  {
    var n := |a.l|;
    var v := Encode(env, a);
    ItemsOfKept(env, a, n);
    assert env.order(v.t) == IndexKeys(n);
    Indexes(env, n);
    DecodedItems(env, v, n);
  }

  /** A list that holds something not kept comes back shorter, or as a dict. */
  lemma ListGetsShorter(env: Runtime, a: Arg)
    requires Valid(env) && a.List? && !AllKept(a.l)
    ensures Decode(env, Encode(env, a)) != a
  {
    var i :| 0 <= i < |a.l| && !Kept(a.l[i]);
    var v := Encode(env, a);
    StoredItems(env, a, |a.l|);
    SomeNotKept(a.l, |a.l|, i);
    ListingLength(env.order(v.t), v.t.Keys);
  }

  // ------------------------------------------------------------------ dicts

  predicate AllText(keys: seq<LuaKey>) {
    forall i :: 0 <= i < |keys| ==> keys[i].KText?
  }

  /** After n keys, all of them texts: the names met so far, each with its value. */
  lemma {:induction false} DecodedEntry(env: Runtime, v: LuaVal, n: nat, s: string)
    requires Valid(env) && v.Table? && n <= |env.order(v.t)| && AllText(env.order(v.t))
    ensures var e := DecodeEntries(env, v, n);
            && (s in e <==> KText(s) in env.order(v.t)[..n])
            && (s in e ==> KText(s) in v.t && e[s] == Decode(env, v.t[KText(s)]))
  {
    if n > 0 {
      var keys := env.order(v.t);
      DecodedEntry(env, v, n - 1, s);
      assert keys[n - 1] in v.t.Keys;
      assert keys[..n] == keys[..n - 1] + [keys[n - 1]];
    }
  }

  lemma EncodedEntry(env: Runtime, a: Arg, s: string)
    requires a.Dict?
    ensures KText(s) in Encode(env, a).t <==> s in a.d && Kept(a.d[s])
    ensures KText(s) in Encode(env, a).t ==> Encode(env, a).t[KText(s)] == Encode(env, a.d[s])
  {
    if s in a.d {
      KeptIsStored(env, a.d[s]);
    }
  }

  lemma EncodedKeysAreTexts(env: Runtime, a: Arg)
    requires Valid(env) && a.Dict?
    ensures AllText(env.order(Encode(env, a).t))
  {
    var t := Encode(env, a).t;
    forall i | 0 <= i < |env.order(t)| ensures env.order(t)[i].KText? {
      assert env.order(t)[i] in t.Keys;
    }
  }

  function Entries(env: Runtime, a: Arg): map<string, Arg>
    requires Valid(env) && a.Dict?
  {
    var v := Encode(env, a);
    DecodeEntries(env, v, |env.order(v.t)|)
  }

  /** Every entry comes back, except those that are not stored. */
  lemma DictEntry(env: Runtime, a: Arg, s: string)
    requires Valid(env) && a.Dict?
    ensures s in Entries(env, a) <==> s in a.d && Kept(a.d[s])
    ensures s in Entries(env, a) ==> Entries(env, a)[s] == Decode(env, Encode(env, a.d[s]))
  {
    var v := Encode(env, a);
    var keys := env.order(v.t);
    EncodedKeysAreTexts(env, a);
    DecodedEntry(env, v, |keys|, s);
    EncodedEntry(env, a, s);
    assert keys[..|keys|] == keys;
    assert KText(s) in keys <==> KText(s) in v.t.Keys;
  }

  lemma DecodedDict(env: Runtime, a: Arg)
    requires Valid(env) && a.Dict?
    ensures var v := Encode(env, a);
            Decode(env, v) == if IsList(env, env.order(v.t)) then List(DecodeItems(env, v, |env.order(v.t)|)) else Dict(Entries(env, a))
  {
  }

  // ------------------------------------------------------------- round trip

  /** A value comes back from Lua unchanged exactly when it survives. */
  lemma {:induction false} LuaRoundTripIff(env: Runtime, a: Arg)
    requires Valid(env)
    ensures Decode(env, Encode(env, a)) == a <==> Survives(env, a)
    decreases a
  {
    if a.List? {
      ListRoundTripIff(env, a);
    } else if a.Dict? {
      DictRoundTripIff(env, a);
    }
  }

  lemma {:induction false} ListRoundTripIff(env: Runtime, a: Arg)
    requires Valid(env) && a.List?
    ensures Decode(env, Encode(env, a)) == a <==> Survives(env, a)
    decreases a, 0
  {
    if !AllKept(a.l) {
      ListGetsShorter(env, a);
    } else {
      ListComesBack(env, a);
      var r := Decode(env, Encode(env, a));
      forall i | 0 <= i < |a.l| ensures r.l[i] == a.l[i] <==> Survives(env, a.l[i]) {
        LuaRoundTripIff(env, a.l[i]);
      }
      assert r == a <==> r.l == a.l;
    }
  }

  lemma {:induction false} DictRoundTripIff(env: Runtime, a: Arg)
    requires Valid(env) && a.Dict?
    ensures Decode(env, Encode(env, a)) == a <==> Survives(env, a)
    decreases a, 0
  {
    DecodedDict(env, a);
    var e := Entries(env, a);
    forall s ensures s in e <==> s in a.d && Kept(a.d[s]) {
      DictEntry(env, a, s);
    }
    forall s | s in e ensures e[s] == a.d[s] <==> Survives(env, a.d[s]) {
      DictEntry(env, a, s);
      LuaRoundTripIff(env, a.d[s]);
    }
    SameMap(e, a.d);
  }

  lemma SameMap(e: map<string, Arg>, d: map<string, Arg>)
    ensures e == d <==> e.Keys == d.Keys && forall s :: s in e && s in d ==> e[s] == d[s]
  {
  }

  /** A key that reads as none of the indexes. */
  predicate NoIndex(env: Runtime, s: string, n: nat) {
    forall i :: 1 <= i <= n ==> !IsIndex(env, KText(s), i)
  }

  /** The same without the traversal order: every dict has a key that is no index. */
  ghost predicate Plain(env: Runtime, a: Arg)
    decreases a
  {
    match a
    case Null => true
    case Int(n) => Trunc(env.double(n)) == n
    case Float(_) => false
    case Str(s) => env.str2num(s).None?
    case List(l) => forall i :: 0 <= i < |l| ==> Kept(l[i]) && Plain(env, l[i])
    case Dict(d) => (forall k :: k in d ==> Kept(d[k]) && Plain(env, d[k])) && exists s :: s in d && NoIndex(env, s, |d|)
    case Func(_) => false
  }

  lemma DictIsNoList(env: Runtime, a: Arg, s: string)
    requires Valid(env) && a.Dict? && s in a.d && Kept(a.d[s]) && NoIndex(env, s, |a.d|)
    ensures !IsList(env, env.order(Encode(env, a).t))
  {
    var t := Encode(env, a).t;
    var keys := env.order(t);
    EncodedEntry(env, a, s);
    assert KText(s) in t.Keys;
    var i :| 0 <= i < |keys| && keys[i] == KText(s);
    ListingLength(keys, t.Keys);
    StoredEntries(env, a);
    assert !IsIndex(env, keys[i], i + 1);
  }

  lemma StoredEntries(env: Runtime, a: Arg)
    requires a.Dict?
    ensures |Encode(env, a).t.Keys| <= |a.d|
  {
    Counting.Smaller(Encode(env, a).t.Keys, TextKeys(a.d.Keys));
    TextKeysSize(a.d.Keys);
  }

  lemma {:induction false} TextKeysSize(names: set<string>)
    ensures |TextKeys(names)| == |names|
    decreases |names|
  {
    if names == {} {
      assert TextKeys(names) == {};
    } else {
      var s :| s in names;
      TextKeysSize(names - {s});
      assert TextKeys(names) == TextKeys(names - {s}) + {KText(s)};
    }
  }

  /** Plain values survive, whatever the order of traversal is. */
  lemma {:induction false} PlainSurvives(env: Runtime, a: Arg)
    requires Valid(env) && Plain(env, a)
    ensures Survives(env, a)
    decreases a
  {
    if a.List? {
      forall i | 0 <= i < |a.l| ensures Survives(env, a.l[i]) {
        PlainSurvives(env, a.l[i]);
      }
    } else if a.Dict? {
      forall k | k in a.d ensures Survives(env, a.d[k]) {
        PlainSurvives(env, a.d[k]);
      }
      var s :| s in a.d && NoIndex(env, s, |a.d|);
      DictIsNoList(env, a, s);
    }
  }

  lemma PlainRoundTrip(env: Runtime, a: Arg)
    requires Valid(env) && Plain(env, a)
    ensures Decode(env, Encode(env, a)) == a
  {
    PlainSurvives(env, a);
    LuaRoundTripIff(env, a);
  }

  /** No float at any depth. */
  predicate NoFloat(a: Arg)
    decreases a
  {
    match a
    case Float(_) => false
    case List(l) => forall i :: 0 <= i < |l| ==> NoFloat(l[i])
    case Dict(d) => forall k :: k in d ==> NoFloat(d[k])
    case _ => true
  }

  /** The float branch is never taken: every number is cut to an integer. */
  lemma {:induction false} FloatsAreCut(env: Runtime, v: LuaVal)
    requires Valid(env)
    ensures NoFloat(Decode(env, v))
    decreases v, 1, 0
  {
    if v.Table? {
      var n := |env.order(v.t)|;
      ItemsAreCut(env, v, n);
      EntriesAreCut(env, v, n);
    }
  }

  lemma {:induction false} ItemsAreCut(env: Runtime, v: LuaVal, n: nat)
    requires Valid(env) && v.Table? && n <= |env.order(v.t)|
    ensures forall i :: 0 <= i < n ==> NoFloat(DecodeItems(env, v, n)[i])
    decreases v, 0, n
  {
    if n > 0 {
      ItemsAreCut(env, v, n - 1);
      assert env.order(v.t)[n - 1] in v.t.Keys;
      FloatsAreCut(env, v.t[env.order(v.t)[n - 1]]);
    }
  }

  lemma {:induction false} EntriesAreCut(env: Runtime, v: LuaVal, n: nat)
    requires Valid(env) && v.Table? && n <= |env.order(v.t)|
    ensures forall k :: k in DecodeEntries(env, v, n) ==> NoFloat(DecodeEntries(env, v, n)[k])
    decreases v, 0, n
  {
    if n > 0 {
      EntriesAreCut(env, v, n - 1);
      assert env.order(v.t)[n - 1] in v.t.Keys;
      FloatsAreCut(env, v.t[env.order(v.t)[n - 1]]);
    }
  }

  // -------------------------------------------------------- values Lua makes itself

  /** Booleans are the numbers 1 and 0, a text that reads as a number is that number, and what is
      none of the known types is nil. */
  lemma SpellingsAgree(env: Runtime, b: bool, s: string)
    requires Valid(env)
    ensures Decode(env, Bool(b)) == Decode(env, Num(if b then 1.0 else 0.0)) == Int(if b then 1 else 0)
    ensures env.str2num(s).Some? ==> Decode(env, Text(s)) == Decode(env, Num(env.str2num(s).value))
    ensures env.str2num(s).None? ==> Decode(env, Text(s)) == Str(s)
    ensures Decode(env, Other) == Decode(env, Nil) == Null
  {
    assert Trunc(1.0) == 1 && Trunc(0.0) == 0;
  }

  /** A number is cut to the integer next to it on the side of zero. */
  lemma NumbersAreCut(env: Runtime, r: real)
    requires Valid(env)
    ensures var v := Decode(env, Num(r));
            && v.Int?
            && (r >= 0.0 ==> v.n as real <= r < v.n as real + 1.0)
            && (r < 0.0 ==> v.n as real - 1.0 < r <= v.n as real)
  {
  }

  /** So a float comes back as an integer, and a text that reads as a number does too. */
  lemma LostOnTheWay(env: Runtime, f: real, s: string)
    requires Valid(env)
    ensures Decode(env, Encode(env, Float(f))) == Int(Trunc(f))
    ensures env.str2num(s).Some? ==> Decode(env, Encode(env, Str(s))) == Int(Trunc(env.str2num(s).value))
  {
  }

  /** A table decodes as a list exactly when its keys in the order of traversal are, or read as,
      numbers that are cut to 1, 2, 3 and so on; then item by item. */
  lemma TableIsListIff(env: Runtime, t: map<LuaKey, LuaVal>)
    requires Valid(env)
    ensures var keys := env.order(t);
            var r := Decode(env, Table(t));
            && (r.List? <==> forall i :: 0 <= i < |keys| ==>
                  || (keys[i].KNum? && Trunc(keys[i].r) == i + 1)
                  || (keys[i].KText? && env.str2num(keys[i].s).Some? && Trunc(env.str2num(keys[i].s).value) == i + 1))
            && (r.List? ==> |r.l| == |keys| && forall i :: 0 <= i < |keys| ==> keys[i] in t && r.l[i] == Decode(env, t[keys[i]]))
  {
    var v := Table(t);
    var keys := env.order(t);
    DecodedItems(env, v, |keys|);
    forall i | 0 <= i < |keys|
      ensures IsIndex(env, keys[i], i + 1) <==>
              || (keys[i].KNum? && Trunc(keys[i].r) == i + 1)
              || (keys[i].KText? && env.str2num(keys[i].s).Some? && Trunc(env.str2num(keys[i].s).value) == i + 1)
    {
    }
  }

  /** The text of a number key is the number as Lua prints it; a boolean key has none. */
  lemma KeyTexts(env: Runtime, r: real, s: string, b: bool)
    ensures KeyText(env, KNum(r)) == env.num2str(r) && KeyText(env, KText(s)) == s && KeyText(env, KBool(b)) == ""
  {
  }

  /** The first n entries in the order of traversal: the text of each key and its decoded value. */
  ghost predicate EntriesOf(env: Runtime, v: LuaVal, es: seq<TextEntry>, n: nat)
    requires Valid(env) && v.Table?
  {
    && n <= |es| <= |env.order(v.t)|
    && forall i :: 0 <= i < n ==>
        && env.order(v.t)[i] in v.t
        && es[i] == TextEntry(KeyText(env, env.order(v.t)[i]), Decode(env, v.t[env.order(v.t)[i]]))
  }

  lemma EntriesStep(env: Runtime, v: LuaVal, n: nat)
    requires Valid(env) && v.Table? && 0 < n <= |env.order(v.t)|
    ensures var k := env.order(v.t)[n - 1];
            k in v.t && DecodeEntries(env, v, n) == DecodeEntries(env, v, n - 1)[KeyText(env, k) := Decode(env, v.t[k])]
  {
    assert env.order(v.t)[n - 1] in v.t.Keys;
  }

  lemma LastEntry(env: Runtime, v: LuaVal, es: seq<TextEntry>, n: nat)
    requires Valid(env) && v.Table? && n > 0 && EntriesOf(env, v, es, n)
    ensures env.order(v.t)[n - 1] in v.t && EntriesOf(env, v, es, n - 1)
    ensures es[n - 1] == TextEntry(KeyText(env, env.order(v.t)[n - 1]), Decode(env, v.t[env.order(v.t)[n - 1]]))
  {
  }

  lemma {:induction false} EntriesAreFilled(env: Runtime, v: LuaVal, es: seq<TextEntry>, n: nat)
    requires Valid(env) && v.Table? && EntriesOf(env, v, es, n)
    ensures DecodeEntries(env, v, n) == FilledBy(es[..n])
    decreases n
  {
    if n > 0 {
      LastEntry(env, v, es, n);
      EntriesAreFilled(env, v, es, n - 1);
      EntriesStep(env, v, n);
      FilledByMore(es, n);
    }
  }

  /** A table that is no list, with keys of any kind, is filled by its entries in the order of traversal. */
  lemma TableIsDecoded(env: Runtime, t: map<LuaKey, LuaVal>, es: seq<TextEntry>)
    requires Valid(env) && !Decode(env, Table(t)).List?
    requires |es| == |env.order(t)| && EntriesOf(env, Table(t), es, |es|)
    ensures Decode(env, Table(t)) == Dict(FilledBy(es))
  {
    EntriesAreFilled(env, Table(t), es, |es|);
    assert es[..|es|] == es;
  }
}
