/** The Python conversions (workerpy/ffworker_python.cpp:461-562). */
module Python {
  import opened Options
  import opened Script

  datatype PyKey = KStr(s: string) | KObj(id: int)

  datatype PyVal =
    | PyNone
    | PyBool(b: bool)
    | PyInt(n: int)
    | PyLong(n: int)
    | PyFloat(f: real)
    | PyStr(s: string)
    | PyList(l: seq<PyVal>)
    | PyTuple(l: seq<PyVal>)
    | PyDict(d: map<PyKey, PyVal>)
    | PyOther

  /** What is taken from Python: the order of PyDict_Next, and str() of keys that are no strings. */
  datatype Runtime = Runtime(order: map<PyKey, PyVal> -> seq<PyKey>, str: int -> string)

  ghost predicate Valid(env: Runtime) {
    forall d: map<PyKey, PyVal> :: Listing(env.order(d), d.Keys)
  }

  /** PyString_AsString of PyObject_Str of a key: the length is lost. */
  function KeyText(env: Runtime, k: PyKey): string {
    Cut(match k case KStr(s) => s case KObj(id) => env.str(id))
  }

  // --------------------------------------------------------------- decoding

  function Decode(env: Runtime, v: PyVal): Arg
    requires Valid(env)
    decreases v, 1, 0
  {
    match v
    case PyNone => Null
    case PyBool(b) => Int(if b then 1 else 0)
    case PyInt(n) => Int(n)
    case PyLong(n) => Int(n)
    case PyFloat(f) => Float(f)
    case PyStr(s) => Str(s)
    case PyList(l) => List(DecodeItems(env, l, |l|))
    case PyTuple(l) => List(DecodeItems(env, l, |l|))
    case PyDict(d) => Dict(DecodeEntries(env, v, |env.order(d)|))
    case PyOther => Null
  }

  function DecodeItems(env: Runtime, l: seq<PyVal>, n: nat): (r: seq<Arg>)
    requires Valid(env) && n <= |l|
    ensures |r| == n
    decreases l, 0, n
  {
    if n == 0 then [] else DecodeItems(env, l, n - 1) + [Decode(env, l[n - 1])]
  }

  /** The first n entries in traversal order; a later one replaces an earlier one with the same text. */
  function DecodeEntries(env: Runtime, v: PyVal, n: nat): map<string, Arg>
    requires Valid(env) && v.PyDict? && n <= |env.order(v.d)|
    decreases v, 0, n
  {
    if n == 0 then map[] else
    var k := env.order(v.d)[n - 1];
    assert k in v.d.Keys;
    DecodeEntries(env, v, n - 1)[KeyText(env, k) := Decode(env, v.d[k])]
  }

  /** PyList_GetItem and PyTuple_GetItem in turn. */
  method ToList(env: Runtime, l: seq<PyVal>) returns (listVal: seq<Arg>)
    requires Valid(env)
    ensures listVal == DecodeItems(env, l, |l|)
    decreases l, 0
  {
    listVal := [];
    var i := 0;
    while i < |l|
      invariant i <= |l| && listVal == DecodeItems(env, l, i)
    {
      var elem := ToScriptArg(env, l[i]);
      listVal := listVal + [elem];
      i := i + 1;
    }
  }

  /** The dict so far is what the first n entries say. */
  ghost predicate Filled(env: Runtime, v: PyVal, n: nat, m: map<string, Arg>)
    requires Valid(env) && v.PyDict?
  {
    n <= |env.order(v.d)| && m == DecodeEntries(env, v, n)
  }

  lemma FilledStep(env: Runtime, v: PyVal, n: nat, m: map<string, Arg>)
    requires Valid(env) && v.PyDict? && Filled(env, v, n, m) && n < |env.order(v.d)|
    ensures var k := env.order(v.d)[n]; k in v.d && Filled(env, v, n + 1, m[KeyText(env, k) := Decode(env, v.d[k])])
  {
    assert env.order(v.d)[n] in v.d.Keys;
  }

  method ToDict(env: Runtime, v: PyVal) returns (dictVal: map<string, Arg>)
    requires Valid(env) && v.PyDict?
    ensures Filled(env, v, |env.order(v.d)|, dictVal)
    decreases v, 0
  {
    dictVal := map[];
    var pos := 0;
    while pos < |env.order(v.d)|
      invariant Filled(env, v, pos, dictVal)
    {
      FilledStep(env, v, pos, dictVal);
      var key := env.order(v.d)[pos];
      var value := ToScriptArg(env, v.d[key]);
      dictVal := dictVal[KeyText(env, key) := value];
      pos := pos + 1;
    }
  }

  method ToScriptArg(env: Runtime, v: PyVal) returns (ret: Arg)
    requires Valid(env)
    ensures ret == Decode(env, v)
    decreases v, 1
  {
    match v {
      case PyLong(n) => ret := Int(n);
      case PyNone => ret := Null;
      case PyBool(b) => ret := Int(if b then 1 else 0);
      case PyInt(n) => ret := Int(n);
      case PyFloat(f) => ret := Float(f);
      case PyStr(s) => ret := Str(s);
      case PyList(l) =>
        var listVal := ToList(env, l);
        ret := List(listVal);
      case PyTuple(l) =>
        var listVal := ToList(env, l);
        ret := List(listVal);
      case PyDict(_) =>
        var dictVal := ToDict(env, v);
        ret := Dict(dictVal);
      case PyOther => ret := Null;
    }
  }

  // --------------------------------------------------------------- encoding

  function StrKeys(names: set<string>): (ks: set<PyKey>)
    ensures forall k :: k in ks <==> k.KStr? && k.s in names
  {
    set s | s in names :: KStr(s)
  }

  function Encode(a: Arg): PyVal
    decreases a, 1
  {
    match a
    case Null => PyNone
    case Int(n) => PyLong(n)
    case Float(f) => PyFloat(f)
    case Str(s) => PyStr(s)
    case List(l) => PyList(seq(|l|, i requires 0 <= i < |l| => Encode(l[i])))
    case Dict(d) => PyDict(EncodeEntries(a, d.Keys))
    case Func(_) => PyNone
  }

  function EncodeEntries(a: Arg, names: set<string>): (d: map<PyKey, PyVal>)
    requires a.Dict? && names <= a.d.Keys
    ensures d.Keys == StrKeys(names)
    decreases a, 0
  {
    map k | k in StrKeys(names) :: Encode(a.d[k.s])
  }

  method ToPy(a: Arg) returns (v: PyVal)
    ensures v == Encode(a)
    decreases a, 1
  {
    match a {
      case Null => v := PyNone;
      case Int(n) => v := PyLong(n);
      case Float(f) => v := PyFloat(f);
      case Str(s) => v := PyStr(s);
      case List(l) => v := ToPyList(a);
      case Dict(d) => v := ToPyDict(a);
      case Func(_) => v := PyNone;
    }
  }

  /** PyList_New of the length, then PyList_SetItem for each index. */
  method ToPyList(a: Arg) returns (v: PyVal)
    requires a.List?
    ensures v == Encode(a)
    decreases a, 0
  {
    var items := seq(|a.l|, _ => PyNone);
    var i := 0;
    while i < |a.l|
      invariant i <= |a.l| == |items|
      invariant forall j :: 0 <= j < i ==> items[j] == Encode(a.l[j])
    {
      var item := ToPy(a.l[i]);
      items := items[i := item];
      i := i + 1;
    }
    v := PyList(items);
  }

  /** The entries of a std::map, whatever their order. */
  method ToPyDict(a: Arg) returns (v: PyVal)
    requires a.Dict?
    ensures v == Encode(a)
    decreases a, 0
  {
    var entries: map<PyKey, PyVal> := map[];
    var rest := a.d.Keys;
    ghost var done: set<string> := {};
    while rest != {}
      invariant rest <= a.d.Keys && done == a.d.Keys - rest && entries == EncodeEntries(a, done)
      decreases |rest|
    {
      var s :| s in rest;
      var item := ToPy(a.d[s]);
      OneMoreEntry(a, done, s);
      done := done + {s};
      entries := entries[KStr(s) := item];
      rest := rest - {s};
    }
    assert done == a.d.Keys;
    v := PyDict(entries);
  }

  /** fromScriptArgToPy; a null pointer gives None. */
  method FromScriptArgToPy(pvalue: Option<Arg>) returns (v: PyVal)
    ensures v == if pvalue.Some? then Encode(pvalue.value) else PyNone
  {
    if pvalue.None? {
      return PyNone;
    }
    v := ToPy(pvalue.value);
  }

  lemma OneMoreEntry(a: Arg, done: set<string>, s: string)
    requires a.Dict? && done <= a.d.Keys && s in a.d
    ensures EncodeEntries(a, done + {s}) == EncodeEntries(a, done)[KStr(s) := Encode(a.d[s])]
  {
  }

  // ------------------------------------------------------------- round trip

  /** No function in the tree, and no NUL in a key. */
  predicate Survives(a: Arg)
    decreases a
  {
    match a
    case List(l) => forall i :: 0 <= i < |l| ==> Survives(l[i])
    case Dict(d) => forall k :: k in d ==> '\0' !in k && Survives(d[k])
    case Func(_) => false
    case _ => true
  }

  lemma {:induction false} DecodedItems(env: Runtime, l: seq<PyVal>, n: nat)
    requires Valid(env) && n <= |l|
    ensures forall i :: 0 <= i < n ==> DecodeItems(env, l, n)[i] == Decode(env, l[i])
  {
    if n > 0 {
      DecodedItems(env, l, n - 1);
    }
  }

  ghost predicate AllStrings(keys: seq<PyKey>) {
    forall i :: 0 <= i < |keys| ==> keys[i].KStr? && '\0' !in keys[i].s
  }

  lemma {:induction false} DecodedEntry(env: Runtime, v: PyVal, n: nat, s: string)
    requires Valid(env) && v.PyDict? && n <= |env.order(v.d)| && AllStrings(env.order(v.d))
    ensures var e := DecodeEntries(env, v, n);
            && (s in e <==> KStr(s) in env.order(v.d)[..n])
            && (s in e ==> KStr(s) in v.d && e[s] == Decode(env, v.d[KStr(s)]))
  {
    if n > 0 {
      var keys := env.order(v.d);
      DecodedEntry(env, v, n - 1, s);
      EntriesStep(env, v, n);
      assert keys[..n] == keys[..n - 1] + [keys[n - 1]];
    }
  }

  lemma {:induction false} TextsAreCut(env: Runtime, v: PyVal, n: nat)
    requires Valid(env) && v.PyDict? && n <= |env.order(v.d)|
    ensures forall s :: s in DecodeEntries(env, v, n) ==> '\0' !in s
  {
    if n > 0 {
      TextsAreCut(env, v, n - 1);
    }
  }

  function Entries(env: Runtime, a: Arg): map<string, Arg>
    requires Valid(env) && a.Dict?
  {
    DecodeEntries(env, Encode(a), |env.order(Encode(a).d)|)
  }

  lemma EncodedKeys(env: Runtime, a: Arg)
    requires Valid(env) && a.Dict? && NulFree(a.d)
    ensures AllStrings(env.order(Encode(a).d))
  {
    var d := Encode(a).d;
    forall i | 0 <= i < |env.order(d)| ensures env.order(d)[i].KStr? && '\0' !in env.order(d)[i].s {
      assert env.order(d)[i] in d.Keys;
    }
  }

  lemma DictEntry(env: Runtime, a: Arg, s: string)
    requires Valid(env) && a.Dict? && NulFree(a.d)
    ensures s in Entries(env, a) <==> s in a.d
    ensures s in Entries(env, a) ==> Entries(env, a)[s] == Decode(env, Encode(a.d[s]))
  {
    var d := Encode(a).d;
    var keys := env.order(d);
    EncodedKeys(env, a);
    DecodedEntry(env, Encode(a), |keys|, s);
    assert d == EncodeEntries(a, a.d.Keys);
    assert KStr(s) in d.Keys <==> KStr(s) in StrKeys(a.d.Keys);
    assert keys[..|keys|] == keys;
    assert KStr(s) in keys <==> KStr(s) in d.Keys;
  }

  /** A value comes back from Python unchanged exactly when no function and no NUL in a key is in it. */
  lemma {:induction false} PythonRoundTripIff(env: Runtime, a: Arg)
    requires Valid(env)
    ensures Decode(env, Encode(a)) == a <==> Survives(a)
    decreases a, 1
  {
    if a.List? {
      var v := Encode(a);
      DecodedItems(env, v.l, |v.l|);
      forall i | 0 <= i < |a.l| ensures Decode(env, Encode(a.l[i])) == a.l[i] <==> Survives(a.l[i]) {
        PythonRoundTripIff(env, a.l[i]);
      }
    } else if a.Dict? {
      DictRoundTripIff(env, a);
    }
  }

  lemma {:induction false} DictRoundTripIff(env: Runtime, a: Arg)
    requires Valid(env) && a.Dict?
    ensures Decode(env, Encode(a)) == a <==> Survives(a)
    decreases a, 0
  {
    var e := Entries(env, a);
    assert Decode(env, Encode(a)) == Dict(e);
    if !NulFree(a.d) {
      TextsAreCut(env, Encode(a), |env.order(Encode(a).d)|);
    } else {
      forall s ensures s in e <==> s in a.d {
        DictEntry(env, a, s);
      }
      forall s | s in e ensures e[s] == a.d[s] <==> Survives(a.d[s]) {
        DictEntry(env, a, s);
        PythonRoundTripIff(env, a.d[s]);
      }
      assert e.Keys == a.d.Keys;
    }
  }

  // ----------------------------------------------------- values Python makes itself

  /** The decoder does not tell Python's spellings of a value apart. */
  lemma SpellingsAgree(env: Runtime, n: int, b: bool, l: seq<PyVal>)
    requires Valid(env)
    ensures Decode(env, PyInt(n)) == Decode(env, PyLong(n)) == Int(n)
    ensures Decode(env, PyBool(b)) == Decode(env, PyLong(if b then 1 else 0))
    ensures Decode(env, PyTuple(l)) == Decode(env, PyList(l))
    ensures Decode(env, PyOther) == Decode(env, PyNone) == Null
  {
  }

  /** A list or a tuple of any values decodes item by item. */
  lemma ListIsDecoded(env: Runtime, v: PyVal)
    requires Valid(env) && (v.PyList? || v.PyTuple?)
    ensures var r := Decode(env, v);
            r.List? && |r.l| == |v.l| && forall i :: 0 <= i < |v.l| ==> r.l[i] == Decode(env, v.l[i])
  {
    DecodedItems(env, v.l, |v.l|);
  }

  /** str() of a key, cut at its first NUL. */
  lemma KeyTexts(env: Runtime, s: string, id: int)
    ensures KeyText(env, KStr(s)) == Cut(s) && KeyText(env, KObj(id)) == Cut(env.str(id))
    ensures '\0' !in s ==> KeyText(env, KStr(s)) == s
  {
  }

  /** The first n entries in the order of traversal: the text of each key and its decoded value. */
  ghost predicate EntriesOf(env: Runtime, v: PyVal, es: seq<TextEntry>, n: nat)
    requires Valid(env) && v.PyDict?
  {
    && n <= |es| <= |env.order(v.d)|
    && forall i :: 0 <= i < n ==>
        && env.order(v.d)[i] in v.d
        && es[i] == TextEntry(KeyText(env, env.order(v.d)[i]), Decode(env, v.d[env.order(v.d)[i]]))
  }

  lemma EntriesStep(env: Runtime, v: PyVal, n: nat)
    requires Valid(env) && v.PyDict? && 0 < n <= |env.order(v.d)|
    ensures var k := env.order(v.d)[n - 1];
            k in v.d && DecodeEntries(env, v, n) == DecodeEntries(env, v, n - 1)[KeyText(env, k) := Decode(env, v.d[k])]
  {
    assert env.order(v.d)[n - 1] in v.d.Keys;
  }

  lemma LastEntry(env: Runtime, v: PyVal, es: seq<TextEntry>, n: nat)
    requires Valid(env) && v.PyDict? && n > 0 && EntriesOf(env, v, es, n)
    ensures env.order(v.d)[n - 1] in v.d && EntriesOf(env, v, es, n - 1)
    ensures es[n - 1] == TextEntry(KeyText(env, env.order(v.d)[n - 1]), Decode(env, v.d[env.order(v.d)[n - 1]]))
  {
  }

  lemma {:induction false} EntriesAreFilled(env: Runtime, v: PyVal, es: seq<TextEntry>, n: nat)
    requires Valid(env) && v.PyDict? && EntriesOf(env, v, es, n)
    ensures DecodeEntries(env, v, n) == FilledBy(es[..n])
    decreases n
  {
    if n > 0 {
      LastEntry(env, v, es, n);
      EntriesAreFilled(env, v, es, n - 1);
      EntriesStep(env, v, n);
      FilledByMore(es, n);
    }
  }

  lemma DictDecodes(env: Runtime, d: map<PyKey, PyVal>)
    requires Valid(env)
    ensures Decode(env, PyDict(d)) == Dict(DecodeEntries(env, PyDict(d), |env.order(d)|))
  {
  }

  /** A dict with keys of any kind is filled by its entries in the order of traversal. */
  lemma DictIsDecoded(env: Runtime, d: map<PyKey, PyVal>, es: seq<TextEntry>)
    requires Valid(env) && |es| == |env.order(d)| && EntriesOf(env, PyDict(d), es, |es|)
    ensures Decode(env, PyDict(d)) == Dict(FilledBy(es))
  {
    EntriesAreFilled(env, PyDict(d), es, |es|);
    DictDecodes(env, d);
    assert es[..|es|] == es;
  }
}
