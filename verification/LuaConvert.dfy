/** toScriptArg, fromScriptArgToLua and pushLuaArgs (workerlua/ffworker_lua.cpp:55-211). */
module LuaConvert {
  import opened Options
  import opened Script
  import opened Lua
  import opened LuaStack

  // --------------------------------------------------------------- decoding

  /** While lua_next walks the table: the base of the stack, and the key and value it is at. */
  ghost predicate Walking(env: Runtime, stack: seq<LuaVal>, base: seq<LuaVal>, t: map<LuaKey, LuaVal>, i: nat)
    requires Valid(env)
  {
    i <= |env.order(t)| && stack == base + Visited(env, t, i)
  }

  /** The place of `pos` in the base once one more value is pushed. */
  function Shifted(pos: int): int {
    if pos < 0 then pos - 1 else pos
  }

  predicate HereIn(base: seq<LuaVal>, pos: int) {
    1 <= pos <= |base| || 1 <= -pos <= |base|
  }

  function AtIn(base: seq<LuaVal>, pos: int): LuaVal
    requires HereIn(base, pos)
  {
    base[if pos > 0 then pos - 1 else |base| + pos]
  }

  lemma ShiftedPlace(base: seq<LuaVal>, pos: int, v: LuaVal)
    requires HereIn(base, pos)
    ensures HereIn(base + [v], Shifted(pos)) && AtIn(base + [v], Shifted(pos)) == AtIn(base, pos)
  {
  }

  /** lua_pushnil and the first lua_next. */
  method FirstKey(ls: LuaState, pos: int) returns (more: bool)
    requires Valid(ls.env) && ls.Here(pos) && ls.At(pos).Table?
    modifies ls`stack
    ensures var t := old(ls.At(pos)).t;
            Walking(ls.env, ls.stack, old(ls.stack), t, 0) && (more <==> |ls.env.order(t)| > 0)
  {
    ghost var base := ls.stack;
    ShiftedPlace(base, pos, Nil);
    ls.Push(Nil);
    more := ls.Next(Shifted(pos));
    assert (base + [Nil])[..|base|] == base;
  }

  /** lua_pop of the value and the next lua_next. */
  method NextKey(ls: LuaState, pos: int, ghost base: seq<LuaVal>, ghost i: nat) returns (more: bool)
    requires Valid(ls.env) && HereIn(base, pos) && AtIn(base, pos).Table?
    requires var t := AtIn(base, pos).t; i < |ls.env.order(t)| && Walking(ls.env, ls.stack, base, t, i)
    modifies ls`stack
    ensures var t := AtIn(base, pos).t;
            Walking(ls.env, ls.stack, base, t, i + 1) && (more <==> i + 1 < |ls.env.order(t)|)
  {
    ghost var t := AtIn(base, pos).t;
    ghost var key := KeyVal(ls.env.order(t)[i]);
    FollowNext(ls.env, t, i);
    ShiftedPlace(base, pos, key);
    ls.Pop(1);
    assert ls.stack == base + [key];
    more := ls.Next(Shifted(pos));
    assert (base + [key])[..|base|] == base;
  }

  /** The first traversal: do the keys read as 1, 2, 3 and so on? */
  method TestKeys(ls: LuaState, pos: int) returns (isList: bool)
    requires Valid(ls.env) && ls.Here(pos) && ls.At(pos).Table?
    modifies ls`stack
    ensures ls.stack == old(ls.stack)
    ensures isList <==> IsList(ls.env, ls.env.order(ls.At(pos).t))
  {
    ghost var base := ls.stack;
    ghost var t := ls.At(pos).t;
    ghost var keys := ls.env.order(t);
    isList := true;
    var nIndex := 1;
    var more := FirstKey(ls, pos);
    ghost var i := 0;
    while more
      invariant i <= |keys| && Walking(ls.env, ls.stack, base, t, i) && (more <==> i < |keys|)
      invariant isList <==> IsList(ls.env, keys[..i])
      invariant isList ==> nIndex == i + 1
      decreases |keys| - i
    {
      IsListStep(ls.env, keys, i);
      assert ls.At(-2) == KeyVal(keys[i]);
      var key := ReadsAs(ls.env, ls.At(-2));
      if key.None? {
        isList := false;
      } else if nIndex != Trunc(key.value) {
        isList := false;
      } else {
        nIndex := nIndex + 1;
      }
      more := NextKey(ls, pos, base, i);
      i := i + 1;
    }
    assert keys[..i] == keys;
    assert base + [] == base;
  }

  lemma IsListStep(env: Runtime, keys: seq<LuaKey>, i: nat)
    requires i < |keys|
    ensures IsList(env, keys[..i + 1]) <==> IsList(env, keys[..i]) && IsIndex(env, keys[i], i + 1)
  {
    assert keys[..i + 1] == keys[..i] + [keys[i]];
  }

  /** lua_tolstring of a copy of the key below the value on top. */
  method KeyOnTop(ls: LuaState, ghost key: LuaKey) returns (strKey: string)
    requires |ls.stack| >= 2 && ls.At(-2) == KeyVal(key)
    modifies ls`stack
    ensures ls.stack == old(ls.stack) && strKey == KeyText(ls.env, key)
  {
    ghost var before := ls.stack;
    ls.PushValue(-2);
    match ls.At(-1) {
      case Num(r) => strKey := ls.env.num2str(r);
      case Text(s) => strKey := s;
      case _ => strKey := "";
    }
    ls.Pop(1);
    assert ls.stack == before;
  }

  /** The second traversal: the values, and for a dict the keys as text. */
  method Fill(ls: LuaState, pos: int, isList: bool) returns (listVal: seq<Arg>, dictVal: map<string, Arg>)
    requires Valid(ls.env) && ls.Here(pos) && ls.At(pos).Table?
    modifies ls`stack
    ensures ls.stack == old(ls.stack)
    ensures var v := ls.At(pos); var n := |ls.env.order(v.t)|;
            if isList then listVal == DecodeItems(ls.env, v, n) else dictVal == DecodeEntries(ls.env, v, n)
    decreases ls.At(pos), 0
  {
    ghost var base := ls.stack;
    ghost var v := ls.At(pos);
    ghost var keys := ls.env.order(v.t);
    listVal, dictVal := [], map[];
    var more := FirstKey(ls, pos);
    ghost var i := 0;
    while more
      invariant i <= |keys| && Walking(ls.env, ls.stack, base, v.t, i) && (more <==> i < |keys|)
      invariant if isList then listVal == DecodeItems(ls.env, v, i) else dictVal == DecodeEntries(ls.env, v, i)
      decreases |keys| - i
    {
      assert keys[i] in v.t.Keys;
      assert ls.At(-1) == v.t[keys[i]] && ls.At(-2) == KeyVal(keys[i]);
      var pval := ToScriptArg(ls, -1);
      if isList {
        listVal := listVal + [pval];
      } else {
        var strKey := KeyOnTop(ls, keys[i]);
        dictVal := dictVal[strKey := pval];
      }
      more := NextKey(ls, pos, base, i);
      i := i + 1;
    }
    assert base + [] == base;
  }

  /** toScriptArg: the decoding of the value at a position, and the stack as it was. */
  method ToScriptArg(ls: LuaState, pos: int) returns (ret: Arg)
    requires Valid(ls.env) && ls.Here(pos)
    modifies ls`stack
    ensures ls.stack == old(ls.stack) && ret == Decode(ls.env, ls.At(pos))
    decreases ls.At(pos), 1
  {
    var num := ReadsAs(ls.env, ls.At(pos));
    if num.Some? {
      var d := num.value;
      var n := Trunc(d);
      if Trunc(d) - n > 0 || n - Trunc(d) > 0 {
        ret := Float(d);
      } else {
        ret := Int(Trunc(d));
      }
    } else if ls.At(pos).Nil? {
      ret := Null;
    } else if ls.At(pos).Bool? {
      ret := Int(if ls.At(pos).b then 1 else 0);
    } else if ls.At(pos).Text? {
      ret := CopyText(ls, pos);
    } else if ls.At(pos).Table? {
      var isList := TestKeys(ls, pos);
      var listVal, dictVal := Fill(ls, pos, isList);
      ret := if isList then List(listVal) else Dict(dictVal);
    } else {
      ret := Null;
    }
  }

  method CopyText(ls: LuaState, pos: int) returns (ret: Arg)
    requires ls.Here(pos) && ls.At(pos).Text?
    modifies ls`stack
    ensures ls.stack == old(ls.stack) && ret == Str(ls.At(pos).s)
  {
    ghost var before := ls.stack;
    ls.PushValue(pos);
    ret := Str(ls.At(-1).s);
    ls.Pop(1);
    assert ls.stack == before;
  }

  // --------------------------------------------------------------- encoding

  /** fromScriptArgToLua of a pointer that is not null: one value more on the stack, the encoding. */
  method PushArg(ls: LuaState, a: Arg)
    modifies ls`stack
    ensures ls.stack == old(ls.stack) + [Encode(ls.env, a)]
    decreases a, 1
  {
    match a {
      case Null => ls.Push(Nil);
      case Int(n) => ls.Push(Num(ls.env.double(n)));
      case Float(f) => ls.Push(Num(f));
      case Str(s) => ls.Push(Text(s));
      case List(l) => PushList(ls, a);
      case Dict(d) => PushDict(ls, a);
      case Func(_) => ls.Push(Nil);
    }
  }

  method PushList(ls: LuaState, a: Arg)
    requires a.List?
    modifies ls`stack
    ensures ls.stack == old(ls.stack) + [Encode(ls.env, a)]
    decreases a, 0
  {
    ghost var base := ls.stack;
    ls.Push(Table(map[]));
    var i := 0;
    while i < |a.l|
      invariant i <= |a.l| && ls.stack == base + [Table(EncodeItems(ls.env, a, i))]
    {
      ls.Push(Num((i + 1) as real));
      PushArg(ls, a.l[i]);
      StoredOn(base, EncodeItems(ls.env, a, i), Num((i + 1) as real), Encode(ls.env, a.l[i]));
      assert ls.stack == base + [Table(EncodeItems(ls.env, a, i)), Num((i + 1) as real), Encode(ls.env, a.l[i])];
      ls.SetTable();
      i := i + 1;
    }
  }

  lemma StoredOn(base: seq<LuaVal>, t: map<LuaKey, LuaVal>, k: LuaVal, v: LuaVal)
    requires KeyOf(k).Some?
    ensures Stored(base + [Table(t), k, v]) == base + [Table(Store(t, KeyOf(k).value, v))]
  {
  }

  /** The entries of a std::map, whatever their order. */
  method PushDict(ls: LuaState, a: Arg)
    requires a.Dict?
    modifies ls`stack
    ensures ls.stack == old(ls.stack) + [Encode(ls.env, a)]
    decreases a, 0
  {
    ghost var base := ls.stack;
    ls.Push(Table(map[]));
    var rest := a.d.Keys;
    ghost var done: set<string> := {};
    while rest != {}
      invariant rest <= a.d.Keys && done == a.d.Keys - rest
      invariant ls.stack == base + [Table(EncodeEntries(ls.env, a, done))]
      decreases |rest|
    {
      var s :| s in rest;
      ls.Push(Text(s));
      PushArg(ls, a.d[s]);
      StoredOn(base, EncodeEntries(ls.env, a, done), Text(s), Encode(ls.env, a.d[s]));
      assert ls.stack == base + [Table(EncodeEntries(ls.env, a, done)), Text(s), Encode(ls.env, a.d[s])];
      ls.SetTable();
      OneMoreEntry(ls.env, a, done, s);
      done := done + {s};
      rest := rest - {s};
    }
    assert done == a.d.Keys;
  }

  lemma OneMoreEntry(env: Runtime, a: Arg, done: set<string>, s: string)
    requires a.Dict? && done <= a.d.Keys && s in a.d && s !in done
    ensures EncodeEntries(env, a, done + {s}) == Store(EncodeEntries(env, a, done), KText(s), Encode(env, a.d[s]))
  {
  }

  /** fromScriptArgToLua of a pointer: for a null one nil is pushed before the access throws. */
  method FromScriptArgToLua(ls: LuaState, pvalue: Option<Arg>) returns (thrown: bool)
    modifies ls`stack
    ensures thrown <==> pvalue.None?
    ensures ls.stack == old(ls.stack) + [if pvalue.Some? then Encode(ls.env, pvalue.value) else Nil]
  {
    if pvalue.None? {
      ls.Push(Nil);
      return true;
    }
    PushArg(ls, pvalue.value);
    thrown := false;
  }

  /** What pushLuaArgs leaves: all the arguments, or those up to the first null pointer and nil for it. */
  function Pushed(env: Runtime, args: seq<Option<Arg>>): seq<LuaVal> {
    if args == [] then []
    else if args[0].None? then [Nil]
    else [Encode(env, args[0].value)] + Pushed(env, args[1..])
  }

  predicate NoNullPointer(args: seq<Option<Arg>>) {
    forall i :: 0 <= i < |args| ==> args[i].Some?
  }

  /** pushLuaArgs. */
  method PushLuaArgs(ls: LuaState, args: seq<Option<Arg>>) returns (thrown: bool)
    modifies ls`stack
    ensures thrown <==> !NoNullPointer(args)
    ensures ls.stack == old(ls.stack) + Pushed(ls.env, args)
  {
    ghost var base := ls.stack;
    var i := 0;
    assert args[0..] == args;
    while i < |args|
      invariant i <= |args| && NoNullPointer(args[..i])
      invariant ls.stack + Pushed(ls.env, args[i..]) == base + Pushed(ls.env, args)
    {
      assert args[i..][1..] == args[i + 1..];
      assert args[..i + 1] == args[..i] + [args[i]];
      ghost var before := ls.stack;
      thrown := FromScriptArgToLua(ls, args[i]);
      if thrown {
        return;
      }
      assert before + ([ls.stack[|before|]] + Pushed(ls.env, args[i + 1..])) == ls.stack + Pushed(ls.env, args[i + 1..]);
      i := i + 1;
    }
    assert args[..i] == args && args[i..] == [];
    thrown := false;
  }

  lemma {:induction false} PushedAll(env: Runtime, args: seq<Option<Arg>>)
    ensures Pushed(env, args) != [] || args == []
    ensures |Pushed(env, args)| <= |args|
    ensures NoNullPointer(args) ==> |Pushed(env, args)| == |args| && forall i :: 0 <= i < |args| ==> Pushed(env, args)[i] == Encode(env, args[i].value)
  {
    if args != [] && args[0].Some? {
      PushedAll(env, args[1..]);
    }
  }
}
