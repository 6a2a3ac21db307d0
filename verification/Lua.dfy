/** Lua values, and the two conversions as functions (workerlua/ffworker_lua.cpp:55-184). */
module Lua {
  import opened Options
  import opened Script

  datatype LuaKey = KNum(r: real) | KText(s: string) | KBool(b: bool)

  datatype LuaVal =
    | Nil
    | Num(r: real)
    | Bool(b: bool)
    | Text(s: string)
    | Table(t: map<LuaKey, LuaVal>)
    | Other

  /** What is taken from Lua: traversal order, numbers in text and back, and the rounding of integers. */
  datatype Runtime = Runtime(
    order: map<LuaKey, LuaVal> -> seq<LuaKey>,
    str2num: string -> Option<real>,
    num2str: real -> string,
    double: int -> real)

  function IndexKey(i: int): LuaKey {
    KNum(i as real)
  }

  function NumKeys(n: nat): set<LuaKey> {
    set i | 1 <= i <= n :: IndexKey(i)
  }

  function IndexKeys(n: nat): (ks: seq<LuaKey>)
    ensures |ks| == n && forall i :: 0 <= i < n ==> ks[i] == IndexKey(i + 1)
  {
    seq(n, i requires 0 <= i < n => IndexKey(i + 1))
  }

  /** lua_next visits every key once, and the keys 1 to n of a sequence in that order. */
  ghost predicate Valid(env: Runtime) {
    && (forall t: map<LuaKey, LuaVal> :: Listing(env.order(t), t.Keys))
    && (forall t: map<LuaKey, LuaVal>, n: nat :: t.Keys == NumKeys(n) ==> env.order(t) == IndexKeys(n))
  }

  function Trunc(r: real): int {
    if r >= 0.0 then r.Floor else -((-r).Floor)
  }

  function ReadsAs(env: Runtime, v: LuaVal): Option<real> {
    match v
    case Num(r) => Some(r)
    case Text(s) => env.str2num(s)
    case _ => None
  }

  function KeyVal(k: LuaKey): LuaVal {
    match k
    case KNum(r) => Num(r)
    case KText(s) => Text(s)
    case KBool(b) => Bool(b)
  }

  /** The test of the first traversal: the key reads as a number that truncates to the index. */
  predicate IsIndex(env: Runtime, k: LuaKey, i: int) {
    var r := ReadsAs(env, KeyVal(k));
    r.Some? && Trunc(r.value) == i
  }

  predicate IsList(env: Runtime, keys: seq<LuaKey>) {
    forall i :: 0 <= i < |keys| ==> IsIndex(env, keys[i], i + 1)
  }

  /** lua_tolstring of a copy of the key; nothing for a boolean. */
  function KeyText(env: Runtime, k: LuaKey): string {
    match k
    case KNum(r) => env.num2str(r)
    case KText(s) => s
    case KBool(_) => ""
  }

  // --------------------------------------------------------------- decoding

  /** toScriptArg. */
  function Decode(env: Runtime, v: LuaVal): Arg
    requires Valid(env)
    decreases v, 1, 0
  {
    match v
    case Nil => Null
    case Num(r) => Int(Trunc(r))
    case Bool(b) => Int(if b then 1 else 0)
    case Text(s) => if env.str2num(s).Some? then Int(Trunc(env.str2num(s).value)) else Str(s)
    case Table(t) =>
      var keys := env.order(t);
      if IsList(env, keys) then List(DecodeItems(env, v, |keys|)) else Dict(DecodeEntries(env, v, |keys|))
    case Other => Null
  }

  /** The first n values in traversal order. */
  function DecodeItems(env: Runtime, v: LuaVal, n: nat): (r: seq<Arg>)
    requires Valid(env) && v.Table? && n <= |env.order(v.t)|
    ensures |r| == n
    decreases v, 0, n
  {
    if n == 0 then [] else
    var k := env.order(v.t)[n - 1];
    assert k in v.t.Keys;
    DecodeItems(env, v, n - 1) + [Decode(env, v.t[k])]
  }

  /** The first n entries in traversal order; a later entry with the same text replaces an earlier one. */
  function DecodeEntries(env: Runtime, v: LuaVal, n: nat): map<string, Arg>
    requires Valid(env) && v.Table? && n <= |env.order(v.t)|
    decreases v, 0, n
  {
    if n == 0 then map[] else
    var k := env.order(v.t)[n - 1];
    assert k in v.t.Keys;
    DecodeEntries(env, v, n - 1)[KeyText(env, k) := Decode(env, v.t[k])]
  }

  // --------------------------------------------------------------- encoding

  /** lua_settable: storing nil removes the key. */
  function Store(t: map<LuaKey, LuaVal>, k: LuaKey, v: LuaVal): map<LuaKey, LuaVal> {
    if v == Nil then t - {k} else t[k := v]
  }

  function TextKeys(names: set<string>): (ks: set<LuaKey>)
    ensures forall k :: k in ks <==> k.KText? && k.s in names
  {
    set s | s in names :: KText(s)
  }

  /** fromScriptArgToLua. */
  function Encode(env: Runtime, a: Arg): LuaVal
    decreases a, 1, 0
  {
    match a
    case Null => Nil
    case Int(n) => Num(env.double(n))
    case Float(f) => Num(f)
    case Str(s) => Text(s)
    case List(l) => Table(EncodeItems(env, a, |l|))
    case Dict(d) => Table(EncodeEntries(env, a, d.Keys))
    case Func(_) => Nil
  }

  function EncodeItems(env: Runtime, a: Arg, n: nat): map<LuaKey, LuaVal>
    requires a.List? && n <= |a.l|
    decreases a, 0, n
  {
    if n == 0 then map[] else Store(EncodeItems(env, a, n - 1), IndexKey(n), Encode(env, a.l[n - 1]))
  }

  /** The entries of some of the names; those that encode to nil are not there. */
  function EncodeEntries(env: Runtime, a: Arg, names: set<string>): (t: map<LuaKey, LuaVal>)
    requires a.Dict? && names <= a.d.Keys
    ensures forall k :: k in t ==> k.KText? && k.s in names
    decreases a, 0, 0
  {
    map k | k in TextKeys(names) && Encode(env, a.d[k.s]) != Nil :: Encode(env, a.d[k.s])
  }
}
