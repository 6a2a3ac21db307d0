/** The conversions against the Lua stack, with indexes relative to its top (workerlua/ffworker_lua.cpp:55-211). */
module LuaStack {
  import opened Options
  import opened Script
  import opened Lua

  class LuaState {
    const env: Runtime
    var stack: seq<LuaVal>

    constructor (env: Runtime)
      ensures this.env == env && stack == []
    {
      this.env := env;
      stack := [];
    }

    /** A position from the bottom, from 1, or from the top, from -1. */
    predicate Here(pos: int)
      reads this`stack
    {
      1 <= pos <= |stack| || 1 <= -pos <= |stack|
    }

    function At(pos: int): LuaVal
      requires Here(pos)
      reads this`stack
    {
      stack[if pos > 0 then pos - 1 else |stack| + pos]
    }

    method Push(v: LuaVal)
      modifies this`stack
      ensures stack == old(stack) + [v]
    {
      stack := stack + [v];
    }

    method PushValue(pos: int)
      requires Here(pos)
      modifies this`stack
      ensures stack == old(stack) + [old(At(pos))]
    {
      stack := stack + [At(pos)];
    }

    method Pop(n: nat)
      requires n <= |stack|
      modifies this`stack
      ensures stack == old(stack)[..|old(stack)| - n]
    {
      stack := stack[..|stack| - n];
    }

    /** lua_settable(ls, -3): key and value are taken, the table below them changes in place. */
    method SetTable()
      requires |stack| >= 3 && stack[|stack| - 3].Table? && KeyOf(stack[|stack| - 2]).Some?
      modifies this`stack
      ensures stack == old(Stored(stack))
    {
      var n := |stack|;
      stack := stack[..n - 3] + [Table(Store(stack[n - 3].t, KeyOf(stack[n - 2]).value, stack[n - 1]))];
    }

    /** lua_next: the key on top gives way to the next key and its value, or goes if it was the last. */
    method Next(pos: int) returns (more: bool)
      requires Valid(env) && Here(pos) && At(pos).Table? && stack != []
      requires Follows(env.order(At(pos).t), stack[|stack| - 1])
      modifies this`stack
      ensures var t := old(At(pos)).t;
              var i := Follow(env.order(t), old(stack)[|old(stack)| - 1]);
              && (more <==> i < |env.order(t)|)
              && stack == old(stack)[..|old(stack)| - 1] + Visited(env, t, i)
    {
      var t := At(pos).t;
      var i := Follow(env.order(t), stack[|stack| - 1]);
      stack := stack[..|stack| - 1] + Visited(env, t, i);
      more := i < |env.order(t)|;
    }
  }

  function KeyOf(v: LuaVal): Option<LuaKey> {
    match v
    case Num(r) => Some(KNum(r))
    case Text(s) => Some(KText(s))
    case Bool(b) => Some(KBool(b))
    case _ => None
  }

  function Stored(stack: seq<LuaVal>): seq<LuaVal>
    requires |stack| >= 3 && stack[|stack| - 3].Table? && KeyOf(stack[|stack| - 2]).Some?
  {
    var n := |stack|;
    stack[..n - 3] + [Table(Store(stack[n - 3].t, KeyOf(stack[n - 2]).value, stack[n - 1]))]
  }

  /** The value on top is nil, to start, or a key of the table. */
  predicate Follows(keys: seq<LuaKey>, top: LuaVal) {
    top == Nil || exists i :: 0 <= i < |keys| && KeyVal(keys[i]) == top
  }

  /** How many keys are visited once `top` is. */
  function Follow(keys: seq<LuaKey>, top: LuaVal): (n: nat)
    requires Follows(keys, top)
    ensures n <= |keys| && (top == Nil <==> n == 0) && (n > 0 ==> KeyVal(keys[n - 1]) == top)
  {
    if top == Nil then 0
    else if KeyVal(keys[|keys| - 1]) == top then |keys|
    else
      var before := keys[..|keys| - 1];
      assert exists i :: 0 <= i < |before| && KeyVal(before[i]) == top;
      Follow(before, top)
  }

  /** What lua_next leaves for the key at i. */
  function Visited(env: Runtime, t: map<LuaKey, LuaVal>, i: nat): (r: seq<LuaVal>)
    requires Valid(env) && i <= |env.order(t)|
    ensures |r| == if i < |env.order(t)| then 2 else 0
  {
    if i == |env.order(t)| then [] else
    var k := env.order(t)[i];
    assert k in t.Keys;
    [KeyVal(k), t[k]]
  }

  /** Keys are distinct: the key at i leads on to i + 1. */
  lemma FollowNext(env: Runtime, t: map<LuaKey, LuaVal>, i: nat)
    requires Valid(env) && i < |env.order(t)|
    ensures Follows(env.order(t), KeyVal(env.order(t)[i])) && Follow(env.order(t), KeyVal(env.order(t)[i])) == i + 1
  {
    var keys := env.order(t);
    var n := Follow(keys, KeyVal(keys[i]));
    assert KeyOf(KeyVal(keys[n - 1])) == Some(keys[n - 1]) && KeyOf(KeyVal(keys[i])) == Some(keys[i]);
  }
}
