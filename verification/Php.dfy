/** The PHP conversions (workerphp/ffworker_php.cpp:964-1069, 24-43). */
module Php {
  import opened Options
  import opened Numerals
  import opened Script
  import opened KeyOrder

  datatype ZKey = KIdx(n: int) | KStr(s: string)

  datatype Entry = Entry(k: ZKey, v: ZVal)

  /** An array is its entries in the order of the hash cursor.  ZOther is a type not set, or none of these. */
  datatype ZVal =
    | ZNull
    | ZBool(b: bool)
    | ZLong(n: int)
    | ZDouble(f: real)
    | ZString(s: string)
    | ZArray(es: seq<Entry>)
    | ZOther

  // --------------------------------------------------------------- decoding

  /** The keys in traversal order are 0 to n - 1. */
  predicate IsList(es: seq<Entry>) {
    forall i :: 0 <= i < |es| ==> es[i].k == KIdx(i)
  }

  /** A string key is taken as a C string, a number is printed. */
  function KeyText(k: ZKey): string {
    match k
    case KIdx(n) => PrintInt(n)
    case KStr(s) => Cut(s)
  }

  function Decode(v: ZVal): Arg
    decreases v, 1, 0
  {
    match v
    case ZBool(b) => Int(if b then 1 else 0)
    case ZLong(n) => Int(n)
    case ZDouble(f) => Float(f)
    case ZString(s) => Str(s)
    case ZArray(es) => if IsList(es) then List(DecodeItems(es, |es|)) else Dict(DecodeEntries(es, |es|))
    case _ => Null
  }

  function DecodeItems(es: seq<Entry>, n: nat): (r: seq<Arg>)
    requires n <= |es|
    ensures |r| == n
    decreases es, 0, n
  {
    if n == 0 then [] else
    var e := es[n - 1];
    assert e.v < e;
    DecodeItems(es, n - 1) + [Decode(e.v)]
  }

  /** The first n entries; a later one replaces an earlier one with the same text. */
  function DecodeEntries(es: seq<Entry>, n: nat): map<string, Arg>
    requires n <= |es|
    decreases es, 0, n
  {
    if n == 0 then map[] else
    var e := es[n - 1];
    assert e.v < e;
    DecodeEntries(es, n - 1)[KeyText(e.k) := Decode(e.v)]
  }

  /** The first cursor loop: a list until a key says otherwise. */
  method Classify(es: seq<Entry>) returns (isDict: bool)
    ensures isDict <==> !IsList(es)
  {
    isDict := false;
    var nIndex := 0;
    while nIndex < |es|
      invariant nIndex <= |es| && !isDict
      invariant forall i :: 0 <= i < nIndex ==> es[i].k == KIdx(i)
    {
      match es[nIndex].k {
        case KStr(_) => return true;
        case KIdx(numKey) =>
          if nIndex != numKey {
            return true;
          }
      }
      nIndex := nIndex + 1;
    }
  }

  /** What is filled in after the first n entries. */
  predicate Filled(es: seq<Entry>, isDict: bool, n: nat, listVal: seq<Arg>, dictVal: map<string, Arg>) {
    n <= |es| && if isDict then dictVal == DecodeEntries(es, n) else listVal == DecodeItems(es, n)
  }

  lemma FilledStep(es: seq<Entry>, isDict: bool, n: nat, listVal: seq<Arg>, dictVal: map<string, Arg>)
    requires Filled(es, isDict, n, listVal, dictVal) && n < |es|
    ensures isDict ==> Filled(es, isDict, n + 1, listVal, dictVal[KeyText(es[n].k) := Decode(es[n].v)])
    ensures !isDict ==> Filled(es, isDict, n + 1, listVal + [Decode(es[n].v)], dictVal)
  {
  }

  /** The second cursor loop fills what the first one chose. */
  method Fill(es: seq<Entry>, isDict: bool) returns (listVal: seq<Arg>, dictVal: map<string, Arg>)
    ensures Filled(es, isDict, |es|, listVal, dictVal)
    decreases es, 0
  {
    listVal, dictVal := [], map[];
    var i := 0;
    while i < |es|
      invariant Filled(es, isDict, i, listVal, dictVal)
    {
      FilledStep(es, isDict, i, listVal, dictVal);
      var e := es[i];
      assert e.v < e;
      var strKey := KeyText(e.k);
      var value := ToScriptArg(e.v);
      if isDict {
        dictVal := dictVal[strKey := value];
      } else {
        listVal := listVal + [value];
      }
      i := i + 1;
    }
  }

  method ToScriptArg(v: ZVal) returns (ret: Arg)
    ensures ret == Decode(v)
    decreases v, 1
  {
    match v {
      case ZBool(b) => ret := Int(if b then 1 else 0);
      case ZLong(n) => ret := Int(n);
      case ZDouble(f) => ret := Float(f);
      case ZString(s) => ret := Str(s);
      case ZArray(es) =>
        var isDict := Classify(es);
        var listVal, dictVal := Fill(es, isDict);
        ret := if isDict then Dict(dictVal) else List(listVal);
      case _ => ret := Null;
    }
  }

  // --------------------------------------------------------------- encoding

  const LONG_MAX: int := 0x7FFF_FFFF_FFFF_FFFF

  /** add_assoc_zval stores a key that is a plain decimal integer as that integer. */
  function NumericKey(s: string): Option<int> {
    if AllDigits(s) && Decimal(Value(s)) == s && Value(s) <= LONG_MAX then Some(Value(s))
    else if s != "" && s[0] == '-' && AllDigits(s[1..]) && 0 < Value(s[1..]) <= LONG_MAX + 1 && Decimal(Value(s[1..])) == s[1..] then
      Some(0 - Value(s[1..]))
    else None
  }

  lemma NumericKeyPrints(s: string)
    ensures NumericKey(s).Some? ==> PrintInt(NumericKey(s).value) == s
  {
    if s != "" && s[0] == '-' {
      assert "-" + s[1..] == s;
    }
  }

  function KeyFor(s: string): ZKey {
    if NumericKey(s).Some? then KIdx(NumericKey(s).value) else KStr(s)
  }

  lemma KeyForInjective(s: string, t: string)
    requires KeyFor(s) == KeyFor(t)
    ensures s == t
  {
    NumericKeyPrints(s);
    NumericKeyPrints(t);
  }

  /** The hash update: an entry with the key is replaced where it stands, a new one goes last. */
  function Assoc(es: seq<Entry>, k: ZKey, v: ZVal): seq<Entry> {
    if es == [] then [Entry(k, v)]
    else if es[0].k == k then [Entry(k, v)] + es[1..]
    else [es[0]] + Assoc(es[1..], k, v)
  }

  lemma {:induction false} AssocNew(es: seq<Entry>, k: ZKey, v: ZVal)
    requires forall i :: 0 <= i < |es| ==> es[i].k != k
    ensures Assoc(es, k, v) == es + [Entry(k, v)]
  {
    if es != [] {
      AssocNew(es[1..], k, v);
    }
  }

  ghost function Encode(a: Arg): ZVal
    decreases a, 1, 0
  {
    match a
    case Null => ZNull
    case Int(n) => ZLong(n)
    case Float(f) => ZDouble(f)
    case Str(s) => ZString(s)
    case List(l) => ZArray(seq(|l|, i requires 0 <= i < |l| => Entry(KIdx(i), Encode(l[i]))))
    case Dict(d) => ZArray(EncodeEntries(a, |d.Keys|))
    case Func(_) => ZOther
  }

  /** The entries of the first n keys of the dict, in its own order. */
  ghost function EncodeEntries(a: Arg, n: nat): (r: seq<Entry>)
    requires a.Dict? && n <= |a.d.Keys|
    ensures |r| == n
    decreases a, 0, n
  {
    if n == 0 then [] else
    var s := SortedKeys(a.d.Keys)[n - 1];
    EncodeEntries(a, n - 1) + [Entry(KeyFor(s), Encode(a.d[s]))]
  }

  ghost function KeyAt(a: Arg, i: nat): (s: string)
    requires a.Dict? && i < |a.d.Keys|
    ensures s in a.d
  {
    assert SortedKeys(a.d.Keys)[i] in SortedKeys(a.d.Keys);
    SortedKeys(a.d.Keys)[i]
  }

  lemma {:induction false} EncodedKey(a: Arg, n: nat, i: nat)
    requires a.Dict? && i < n <= |a.d.Keys|
    ensures EncodeEntries(a, n)[i] == Entry(KeyFor(KeyAt(a, i)), Encode(a.d[KeyAt(a, i)]))
  {
    if i < n - 1 {
      EncodedKey(a, n - 1, i);
    }
  }

  /** The key of the next entry is a new one. */
  lemma NextKeyIsNew(a: Arg, n: nat)
    requires a.Dict? && n < |a.d.Keys|
    ensures forall i :: 0 <= i < n ==> EncodeEntries(a, n)[i].k != KeyFor(KeyAt(a, n))
  {
    forall i | 0 <= i < n ensures EncodeEntries(a, n)[i].k != KeyFor(KeyAt(a, n)) {
      EncodedKey(a, n, i);
      SortedKeysDiffer(a.d.Keys, i, n);
      if KeyFor(KeyAt(a, i)) == KeyFor(KeyAt(a, n)) {
        KeyForInjective(KeyAt(a, i), KeyAt(a, n));
      }
    }
  }

  method ToPhp(a: Arg) returns (v: ZVal)
    ensures v == Encode(a)
    decreases a, 1
  {
    match a {
      case Null => v := ZNull;
      case Int(n) => v := ZLong(n);
      case Float(f) => v := ZDouble(f);
      case Str(s) => v := ZString(s);
      case List(l) => v := ToPhpList(a);
      case Dict(d) => v := ToPhpDict(a);
      case Func(_) => v := ZOther;
    }
  }

  /** Each item is appended, at the next free index. */
  method ToPhpList(a: Arg) returns (v: ZVal)
    requires a.List?
    ensures v == Encode(a)
    decreases a, 0
  {
    var es: seq<Entry> := [];
    var i := 0;
    while i < |a.l|
      invariant i <= |a.l| && |es| == i
      invariant forall j :: 0 <= j < i ==> es[j] == Entry(KIdx(j), Encode(a.l[j]))
    {
      var item := ToPhp(a.l[i]);
      es := es + [Entry(KIdx(|es|), item)];
      i := i + 1;
    }
    v := ZArray(es);
  }

  /** The keys not walked yet are the sorted keys from n on. */
  ghost predicate StillToCome(names: set<string>, rest: set<string>, n: nat) {
    rest <= names && n <= |SortedKeys(names)| && SortedKeys(names)[n..] == SortedKeys(rest)
  }

  lemma NextIsLeast(names: set<string>, rest: set<string>, n: nat, s: string)
    requires StillToCome(names, rest, n) && IsLeast(s, rest)
    ensures n < |SortedKeys(names)| && SortedKeys(names)[n] == s
    ensures StillToCome(names, rest - {s}, n + 1)
  {
    LeastIsUnique(s, Least(rest), rest);
    var keys := SortedKeys(names);
    assert keys[n..] == [s] + SortedKeys(rest - {s});
    assert keys[n] == keys[n..][0];
    assert keys[n + 1..] == keys[n..][1..];
  }

  /** The entries of a std::map in key order. */
  method ToPhpDict(a: Arg) returns (v: ZVal)
    requires a.Dict?
    ensures v == Encode(a)
    decreases a, 0
  {
    var es: seq<Entry> := [];
    var rest := a.d.Keys;
    ghost var n := 0;
    while rest != {}
      invariant StillToCome(a.d.Keys, rest, n) && es == EncodeEntries(a, n)
      decreases |rest|
    {
      LeastExists(rest);
      var s :| s in rest && IsLeast(s, rest);
      NextIsLeast(a.d.Keys, rest, n, s);
      var item := ToPhp(a.d[s]);
      NextKeyIsNew(a, n);
      AssocNew(es, KeyFor(s), item);
      es := Assoc(es, KeyFor(s), item);
      rest := rest - {s};
      n := n + 1;
    }
    v := ZArray(es);
  }

  /** fromScriptArgToScript; a null pointer throws after the value was made. */
  method FromScriptArgToScript(pvalue: Option<Arg>) returns (v: Option<ZVal>)
    ensures v == if pvalue.Some? then Some(Encode(pvalue.value)) else None
  {
    if pvalue.None? {
      return None;
    }
    var item := ToPhp(pvalue.value);
    v := Some(item);
  }

  // --------------------------------------------------- what a dict keeps

  /** No two keys have the same text. */
  predicate TextsDiffer(es: seq<Entry>) {
    forall i, j :: 0 <= i < j < |es| ==> KeyText(es[i].k) != KeyText(es[j].k)
  }

  lemma EntriesStep(es: seq<Entry>, n: nat, s: string)
    requires 0 < n <= |es|
    ensures KeyText(es[n - 1].k) == s ==> s in DecodeEntries(es, n) && DecodeEntries(es, n)[s] == Decode(es[n - 1].v)
    ensures KeyText(es[n - 1].k) != s ==> (s in DecodeEntries(es, n) <==> s in DecodeEntries(es, n - 1))
    ensures KeyText(es[n - 1].k) != s && s in DecodeEntries(es, n) ==> DecodeEntries(es, n)[s] == DecodeEntries(es, n - 1)[s]
  {
  }

  lemma {:induction false} OnlyEntries(es: seq<Entry>, n: nat, s: string)
    requires n <= |es| && s in DecodeEntries(es, n)
    ensures exists i :: 0 <= i < n && KeyText(es[i].k) == s
  {
    EntriesStep(es, n, s);
    if KeyText(es[n - 1].k) != s {
      OnlyEntries(es, n - 1, s);
    }
  }

  /** The value is the one of the last entry with the text. */
  predicate LastWith(es: seq<Entry>, n: nat, i: nat) {
    i < n <= |es| && forall j :: i < j < n ==> KeyText(es[i].k) != KeyText(es[j].k)
  }

  /** The first n entries: the text of each key and its decoded value. */
  function TextEntries(es: seq<Entry>, n: nat): (r: seq<TextEntry>)
    requires n <= |es|
    ensures |r| == n
    ensures forall i :: 0 <= i < n ==> r[i].text == KeyText(es[i].k) && r[i].value == Decode(es[i].v)
  {
    seq(n, i requires 0 <= i < n => TextEntry(KeyText(es[i].k), Decode(es[i].v)))
  }

  lemma TextEntriesStart(es: seq<Entry>, n: nat)
    requires 0 < n <= |es|
    ensures TextEntries(es, n)[..n - 1] == TextEntries(es, n - 1)
  {
  }

  lemma OneMoreEntry(es: seq<Entry>, n: nat)
    requires 0 < n <= |es| && DecodeEntries(es, n - 1) == FilledBy(TextEntries(es, n - 1))
    ensures DecodeEntries(es, n) == FilledBy(TextEntries(es, n))
  {
    var tes := TextEntries(es, n);
    TextEntriesStart(es, n);
    assert FilledBy(tes) == FilledBy(tes[..n - 1])[tes[n - 1].text := tes[n - 1].value];
  }

  lemma {:induction false} EntriesAreFilled(es: seq<Entry>, n: nat)
    requires n <= |es|
    ensures DecodeEntries(es, n) == FilledBy(TextEntries(es, n))
  {
    if n > 0 {
      EntriesAreFilled(es, n - 1);
      OneMoreEntry(es, n);
    }
  }

  lemma EntryIsKept(es: seq<Entry>, n: nat, i: nat)
    requires LastWith(es, n, i)
    ensures KeyText(es[i].k) in DecodeEntries(es, n) && DecodeEntries(es, n)[KeyText(es[i].k)] == Decode(es[i].v)
  {
    EntriesAreFilled(es, n);
    LastIsKept(TextEntries(es, n), i);
  }

  /** An array with distinct key texts: each entry once, and as many as there are. */
  lemma {:induction false} EntriesAreCounted(es: seq<Entry>, n: nat)
    requires n <= |es| && TextsDiffer(es)
    ensures |DecodeEntries(es, n)| == n
  {
    if n > 0 {
      EntriesAreCounted(es, n - 1);
      if KeyText(es[n - 1].k) in DecodeEntries(es, n - 1) {
        OnlyEntries(es, n - 1, KeyText(es[n - 1].k));
      }
    }
  }

  // ------------------------------------------------------------- round trip

  function Indexes(n: nat): set<string> {
    set i | 0 <= i < n :: Decimal(i)
  }

  /** The keys are "0" to "n-1" and at most ten: the only dicts that come back as lists. */
  predicate CountsUp(names: set<string>) {
    |names| <= 10 && names == Indexes(|names|)
  }

  predicate Survives(a: Arg)
    decreases a
  {
    match a
    case List(l) => forall i :: 0 <= i < |l| ==> Survives(l[i])
    case Dict(d) => NulFree(d) && !CountsUp(d.Keys) && forall k :: k in d ==> Survives(d[k])
    case Func(_) => false
    case _ => true
  }

  // ---- lists

  lemma {:induction false} DecodedItems(es: seq<Entry>, n: nat, i: nat)
    requires i < n <= |es|
    ensures DecodeItems(es, n)[i] == Decode(es[i].v)
  {
    if i < n - 1 {
      DecodedItems(es, n - 1, i);
    }
  }

  lemma ListComesBack(a: Arg)
    requires a.List?
    ensures var r := Decode(Encode(a));
            r.List? && |r.l| == |a.l| && forall i :: 0 <= i < |a.l| ==> r.l[i] == Decode(Encode(a.l[i]))
  {
    var es := Encode(a).es;
    assert IsList(es);
    forall i | 0 <= i < |a.l| ensures DecodeItems(es, |es|)[i] == Decode(Encode(a.l[i])) {
      DecodedItems(es, |es|, i);
    }
  }

  // ---- which dicts become lists

  lemma OneDigit(i: nat)
    requires i < 10
    ensures Decimal(i) == [(i + '0' as int) as char] && KeyFor(Decimal(i)) == KIdx(i)
  {
    assert Value(Decimal(i)) == i;
  }

  lemma OneDigitsIncrease(i: nat, j: nat)
    requires i < j < 10
    ensures Below(Decimal(i), Decimal(j))
  {
    OneDigit(i);
    OneDigit(j);
  }

  function CountingTexts(n: nat): (r: seq<string>)
    ensures |r| == n && forall i :: 0 <= i < n ==> r[i] == Decimal(i)
  {
    seq(n, i requires 0 <= i < n => Decimal(i))
  }

  lemma SortedNumerals(n: nat)
    requires n <= 10
    ensures SortedKeys(Indexes(n)) == CountingTexts(n)
  {
    forall i, j | 0 <= i < j < n ensures Below(CountingTexts(n)[i], CountingTexts(n)[j]) {
      OneDigitsIncrease(i, j);
    }
    forall s ensures s in CountingTexts(n) <==> s in Indexes(n) {
      if s in CountingTexts(n) {
        var i :| 0 <= i < n && CountingTexts(n)[i] == s;
      }
      if s in Indexes(n) {
        var i :| 0 <= i < n && Decimal(i) == s;
        assert CountingTexts(n)[i] == s;
      }
    }
    IncreasingIsSorted(CountingTexts(n), Indexes(n));
  }

  ghost predicate BecomesList(a: Arg)
    requires a.Dict?
  {
    IsList(Encode(a).es)
  }

  lemma ListKeys(a: Arg, i: nat)
    requires a.Dict? && BecomesList(a) && i < |a.d.Keys|
    ensures KeyAt(a, i) == Decimal(i)
  {
    EncodedKey(a, |a.d.Keys|, i);
    assert Encode(a).es[i].k == KIdx(i);
    NumericKeyPrints(KeyAt(a, i));
  }

  /** "10" would come before "2": a dict of more than ten keys stays a dict. */
  lemma AtMostTen(a: Arg)
    requires a.Dict? && BecomesList(a)
    ensures |a.d.Keys| <= 10
  {
    if |a.d.Keys| > 10 {
      ListKeys(a, 9);
      ListKeys(a, 10);
      SortedKeysIncrease(a.d.Keys, 9, 10);
      NineAndTen();
    }
  }

  lemma NineAndTen()
    ensures !Below(Decimal(9), Decimal(10))
  {
    assert Decimal(9) == "9" && Decimal(1) == "1" && Decimal(10) == "10";
  }

  lemma ListNames(a: Arg)
    requires a.Dict? && BecomesList(a)
    ensures a.d.Keys == Indexes(|a.d.Keys|)
  {
    var n := |a.d.Keys|;
    forall s ensures s in a.d.Keys <==> s in Indexes(n) {
      if s in a.d.Keys {
        var i :| 0 <= i < n && SortedKeys(a.d.Keys)[i] == s;
        ListKeys(a, i);
      }
      if s in Indexes(n) {
        var i :| 0 <= i < n && Decimal(i) == s;
        ListKeys(a, i);
        assert KeyAt(a, i) in a.d;
      }
    }
  }

  lemma BecomesListIff(a: Arg)
    requires a.Dict?
    ensures BecomesList(a) <==> CountsUp(a.d.Keys)
  {
    var n := |a.d.Keys|;
    if BecomesList(a) {
      AtMostTen(a);
      ListNames(a);
    }
    if CountsUp(a.d.Keys) {
      SortedNumerals(n);
      forall i | 0 <= i < n ensures Encode(a).es[i].k == KIdx(i) {
        EncodedKey(a, n, i);
        OneDigit(i);
        assert KeyAt(a, i) == CountingTexts(n)[i];
      }
    }
  }

  // ---- dicts

  lemma KeyTextOf(s: string)
    requires '\0' !in s
    ensures KeyText(KeyFor(s)) == s
  {
    NumericKeyPrints(s);
  }

  ghost function Entries(a: Arg): map<string, Arg>
    requires a.Dict?
  {
    DecodeEntries(Encode(a).es, |a.d.Keys|)
  }

  lemma DictTexts(a: Arg, i: nat)
    requires a.Dict? && NulFree(a.d) && i < |a.d.Keys|
    ensures KeyText(Encode(a).es[i].k) == KeyAt(a, i) && Encode(a).es[i].v == Encode(a.d[KeyAt(a, i)])
  {
    EncodedKey(a, |a.d.Keys|, i);
    KeyTextOf(KeyAt(a, i));
  }

  lemma DictTextsDiffer(a: Arg)
    requires a.Dict? && NulFree(a.d)
    ensures TextsDiffer(Encode(a).es)
  {
    var es := Encode(a).es;
    forall i, j | 0 <= i < j < |es| ensures KeyText(es[i].k) != KeyText(es[j].k) {
      DictTexts(a, i);
      DictTexts(a, j);
      SortedKeysDiffer(a.d.Keys, i, j);
    }
  }

  /** Every entry of the dict comes back, and no other. */
  lemma DictEntry(a: Arg, s: string)
    requires a.Dict? && NulFree(a.d)
    ensures s in Entries(a) <==> s in a.d
    ensures s in Entries(a) ==> Entries(a)[s] == Decode(Encode(a.d[s]))
  {
    var es := Encode(a).es;
    var n := |a.d.Keys|;
    if s in Entries(a) {
      OnlyEntries(es, n, s);
      var i :| 0 <= i < n && KeyText(es[i].k) == s;
      DictTexts(a, i);
    }
    if s in a.d {
      assert s in SortedKeys(a.d.Keys);
      var i :| 0 <= i < n && SortedKeys(a.d.Keys)[i] == s;
      DictTexts(a, i);
      DictTextsDiffer(a);
      EntryIsKept(es, n, i);
    }
  }

  lemma {:induction false} TextsHaveNoNul(es: seq<Entry>, n: nat)
    requires n <= |es|
    ensures forall s :: s in DecodeEntries(es, n) ==> '\0' !in s
  {
    if n > 0 {
      TextsHaveNoNul(es, n - 1);
      PrintedHasNoNul(es[n - 1].k);
    }
  }

  lemma PrintedHasNoNul(k: ZKey)
    ensures '\0' !in KeyText(k)
  {
    if k.KIdx? {
      assert AllDigits(Decimal(if k.n < 0 then -k.n else k.n));
    }
  }

  /** A value comes back from PHP unchanged exactly when it survives. */
  lemma {:induction false} PhpRoundTripIff(a: Arg)
    ensures Decode(Encode(a)) == a <==> Survives(a)
    decreases a, 1
  {
    if a.List? {
      ListComesBack(a);
      var r := Decode(Encode(a));
      forall i | 0 <= i < |a.l| ensures r.l[i] == a.l[i] <==> Survives(a.l[i]) {
        PhpRoundTripIff(a.l[i]);
      }
    } else if a.Dict? {
      DictRoundTripIff(a);
    }
  }

  lemma {:induction false} DictRoundTripIff(a: Arg)
    requires a.Dict?
    ensures Decode(Encode(a)) == a <==> Survives(a)
    decreases a, 0
  {
    BecomesListIff(a);
    DecodedDict(a);
    if !BecomesList(a) {
      if NulFree(a.d) {
        EntriesRoundTripIff(a);
      } else {
        TextsHaveNoNul(Encode(a).es, |a.d.Keys|);
      }
    }
  }

  lemma DecodedDict(a: Arg)
    requires a.Dict?
    ensures BecomesList(a) ==> Decode(Encode(a)).List?
    ensures !BecomesList(a) ==> Decode(Encode(a)) == Dict(Entries(a))
  {
  }

  lemma {:induction false} EntriesRoundTripIff(a: Arg)
    requires a.Dict? && NulFree(a.d)
    ensures Entries(a) == a.d <==> forall k :: k in a.d ==> Survives(a.d[k])
    decreases a, 0, 0
  {
    var e := Entries(a);
    forall s ensures s in e <==> s in a.d {
      DictEntry(a, s);
    }
    forall s | s in a.d ensures e[s] == a.d[s] <==> Survives(a.d[s]) {
      DictEntry(a, s);
      PhpRoundTripIff(a.d[s]);
    }
    assert e.Keys == a.d.Keys;
  }

  // -------------------------------------------------------- values PHP makes itself

  /** Booleans are the numbers 1 and 0, and what is none of the known types is null. */
  lemma SpellingsAgree(b: bool)
    ensures Decode(ZBool(b)) == Decode(ZLong(if b then 1 else 0)) == Int(if b then 1 else 0)
    ensures Decode(ZOther) == Decode(ZNull) == Null
  {
  }

  /** Any array: a list exactly when its keys in traversal order count up from 0, then item by item;
      otherwise a dict in which each text has the value of the last key with it, and nothing else. */
  lemma ArrayIsDecoded(es: seq<Entry>)
    ensures var r := Decode(ZArray(es));
            && (r.List? <==> forall i :: 0 <= i < |es| ==> es[i].k == KIdx(i))
            && (r.List? ==> |r.l| == |es| && forall i :: 0 <= i < |es| ==> r.l[i] == Decode(es[i].v))
            && (!r.List? ==> r == Dict(DecodeEntries(es, |es|)))
            && (forall i :: 0 <= i < |es| && LastWith(es, |es|, i) ==> HasEntry(DecodeEntries(es, |es|), es[i]))
            && (forall s :: s in DecodeEntries(es, |es|) ==> exists i :: 0 <= i < |es| && KeyText(es[i].k) == s)
  {
    var n := |es|;
    forall i | 0 <= i < n ensures DecodeItems(es, n)[i] == Decode(es[i].v) {
      DecodedItems(es, n, i);
    }
    EntriesAreDecoded(es);
  }

  /** The dict has this entry. */
  predicate HasEntry(d: map<string, Arg>, e: Entry) {
    KeyText(e.k) in d && d[KeyText(e.k)] == Decode(e.v)
  }

  lemma EntriesAreDecoded(es: seq<Entry>)
    ensures forall i :: 0 <= i < |es| && LastWith(es, |es|, i) ==> HasEntry(DecodeEntries(es, |es|), es[i])
    ensures forall s :: s in DecodeEntries(es, |es|) ==> exists i :: 0 <= i < |es| && KeyText(es[i].k) == s
  {
    var n := |es|;
    forall i | 0 <= i < n && LastWith(es, n, i) ensures HasEntry(DecodeEntries(es, n), es[i]) {
      EntryIsKept(es, n, i);
    }
    forall s | s in DecodeEntries(es, n) ensures exists i :: 0 <= i < n && KeyText(es[i].k) == s {
      OnlyEntries(es, n, s);
    }
  }

  /** A number key is printed, a string key ends at its first NUL. */
  lemma KeyTexts(n: int, s: string)
    ensures KeyText(KIdx(n)) == PrintInt(n) && KeyText(KStr(s)) == Cut(s)
  {
  }
}
