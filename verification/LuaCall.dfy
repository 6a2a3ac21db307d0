/** luaops_t::call and its stack on every exit (workerlua/luaops.h:727-785). */
module LuaCall {
  import opened Options
  import opened Script
  import opened Lua
  import opened LuaStack
  import opened LuaConvert
  import LuaLaws

  /** What the interpreter answers: look-ups, the chunk that requires a module, and the protected call. */
  datatype Answers = Answers(
    module1: LuaVal,
    requireRuns: bool,
    module2: LuaVal,
    member: LuaVal,
    global: LuaVal,
    failed: bool,
    result: LuaVal)

  /** The ways out of a call. */
  datatype Exit =
    | Result(ret: Arg)
    | RequireFailed
    | NoModule
    | NullArgument
    | CallFailed

  /** The function is looked up in a module, loaded if need be, or among the globals. */
  method FindFunction(ls: LuaState, qualified: bool, answers: Answers) returns (exit: Option<Exit>)
    modifies ls`stack
    ensures exit == FindExit(qualified, answers)
    ensures exit.Some? ==> ls.stack == old(ls.stack)
    ensures exit.None? ==> ls.stack == old(ls.stack) + [Callee(qualified, answers)]
  {
    ghost var before := ls.stack;
    if qualified {
      ls.Push(answers.module1);
      if ls.At(-1).Nil? {
        ls.Pop(1);
        if !answers.requireRuns {
          assert ls.stack == before;
          return Some(RequireFailed);
        }
        ls.Push(answers.module2);
      }
      if ls.At(-1).Table? {
        ls.Push(answers.member);
        Remove2(ls);
      } else {
        ls.Pop(1);
        assert ls.stack == before;
        return Some(NoModule);
      }
    } else {
      ls.Push(answers.global);
    }
    exit := None;
  }

  /** lua_remove(ls, -2). */
  method Remove2(ls: LuaState)
    requires |ls.stack| >= 2
    modifies ls`stack
    ensures ls.stack == old(ls.stack)[..|old(ls.stack)| - 2] + [old(ls.At(-1))]
  {
    ls.stack := ls.stack[..|ls.stack| - 2] + [ls.At(-1)];
  }

  function Module(answers: Answers): LuaVal {
    if answers.module1.Nil? then answers.module2 else answers.module1
  }

  function Callee(qualified: bool, answers: Answers): LuaVal {
    if qualified then answers.member else answers.global
  }

  function FindExit(qualified: bool, answers: Answers): Option<Exit> {
    if !qualified then None
    else if answers.module1.Nil? && !answers.requireRuns then Some(RequireFailed)
    else if Module(answers).Table? then None
    else Some(NoModule)
  }

  /** How the call ends. */
  function ExitOf(env: Runtime, qualified: bool, args: seq<Option<Arg>>, answers: Answers): Exit
    requires Valid(env)
  {
    if FindExit(qualified, answers).Some? then FindExit(qualified, answers).value
    else if !NoNullPointer(args) then NullArgument
    else if answers.failed then CallFailed
    else Result(Decode(env, answers.result))
  }

  /** lua_pcall: function and arguments give way to one value, the result or the error. */
  method ProtectedCall(ls: LuaState, nargs: nat, answers: Answers) returns (failed: bool)
    requires nargs + 1 <= |ls.stack|
    modifies ls`stack
    ensures ls.stack == old(ls.stack)[..|old(ls.stack)| - nargs - 1] + [answers.result]
    ensures failed == answers.failed
  {
    ls.stack := ls.stack[..|ls.stack| - nargs - 1] + [answers.result];
    failed := answers.failed;
  }

  /**
   * The call.  Every exit but one leaves the stack as it was; a null pointer among the arguments leaves
   * the function, the arguments before it and nil.
   */
  method Call(ls: LuaState, qualified: bool, args: seq<Option<Arg>>, answers: Answers) returns (exit: Exit)
    requires Valid(ls.env)
    modifies ls`stack
    ensures exit == ExitOf(ls.env, qualified, args, answers)
    ensures ls.stack == old(ls.stack) + Left(ls.env, qualified, args, answers, exit)
  {
    ghost var before := ls.stack;
    assert before + [] == before;
    var found := FindFunction(ls, qualified, answers);
    if found.Some? {
      return found.value;
    }
    var thrown := PushLuaArgs(ls, args);
    if thrown {
      return NullArgument;
    }
    PushedAll(ls.env, args);
    assert ls.stack[..|before|] == before;
    var failed := ProtectedCall(ls, |args|, answers);
    if failed {
      ls.Pop(1);
      assert ls.stack == before;
      return CallFailed;
    }
    var ret := ToScriptArg(ls, -1);
    ls.Pop(1);
    assert ls.stack == before;
    exit := Result(ret);
  }

  /** What is left on the stack by the exit. */
  function Left(env: Runtime, qualified: bool, args: seq<Option<Arg>>, answers: Answers, exit: Exit): seq<LuaVal> {
    if exit.NullArgument? then [Callee(qualified, answers)] + Pushed(env, args) else []
  }

  /** The stack is balanced exactly when no argument is a null pointer, or the function was not found. */
  lemma BalancedIff(env: Runtime, qualified: bool, args: seq<Option<Arg>>, answers: Answers, before: seq<LuaVal>)
    requires Valid(env)
    ensures before + Left(env, qualified, args, answers, ExitOf(env, qualified, args, answers)) == before <==>
            NoNullPointer(args) || FindExit(qualified, answers).Some?
  {
    var left := Left(env, qualified, args, answers, ExitOf(env, qualified, args, answers));
    assert |before + left| == |before| + |left|;
    assert left == [] ==> before + left == before;
  }

  /** The way out, by what the caller and the interpreter give: the module is missing and cannot be
      loaded, is no table, an argument is a null pointer, the function fails, or it returns. */
  lemma ExitsIff(env: Runtime, qualified: bool, args: seq<Option<Arg>>, answers: Answers)
    requires Valid(env)
    ensures var unloaded := qualified && answers.module1.Nil?;
            var noTable := qualified && !(if answers.module1.Nil? then answers.module2 else answers.module1).Table?;
            var nullArgument := exists i :: 0 <= i < |args| && args[i].None?;
            var exit := ExitOf(env, qualified, args, answers);
            && (exit.RequireFailed? <==> unloaded && !answers.requireRuns)
            && (exit.NoModule? <==> noTable && (unloaded ==> answers.requireRuns))
            && (exit.NullArgument? <==> !noTable && (unloaded ==> answers.requireRuns) && nullArgument)
            && (exit.CallFailed? <==> !noTable && (unloaded ==> answers.requireRuns) && !nullArgument && answers.failed)
  {
  }

  /** A Lua function that gives back its argument at index i: the caller gets the value it passed
      exactly when that value survives the conversions. */
  lemma EchoIff(env: Runtime, qualified: bool, args: seq<Option<Arg>>, answers: Answers, i: nat)
    requires Valid(env) && i < |args| && NoNullPointer(args) && FindExit(qualified, answers).None?
    requires !answers.failed && |Pushed(env, args)| > i && answers.result == Pushed(env, args)[i]
    ensures ExitOf(env, qualified, args, answers) == Result(args[i].value) <==> LuaLaws.Survives(env, args[i].value)
  {
    PushedAll(env, args);
    LuaLaws.LuaRoundTripIff(env, args[i].value);
  }
}
