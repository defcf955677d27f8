/**
 * `eval`, as a function of the expression and the environment it runs in.
 * A `define` writes into the local map that the whole evaluation shares, so
 * the environment is threaded through: each evaluation returns the
 * environment it leaves behind, and the arguments of a call are evaluated
 * left to right, each seeing what the previous ones defined.
 */
module Evaluator {
  import opened Wrappers
  import opened Values
  import opened Environment
  import opened Builtins
  import Reader

  type Ast = Reader.Ast

  const SymbolNotDefined := "symbol is not defined."
  const ProcNotDefined := "Symbol is not defined."
  const WrongDefine := "wrong syntax for define expression"
  const NotImplemented := "not implemented"

  /**
   * What one evaluation comes to: an answer and the environment after it, or
   * the panic of `unimplemented!()`, which ends the process.
   */
  datatype Outcome = Done(result: Answer, env: Env) | Panicked(msg: string)

  /** The collected argument values of a call and the environment after them. */
  datatype ArgsOutcome = Args(values: seq<Value>, env: Env) | ArgsPanicked(msg: string)

  /** The value a `define` stores: literals as numbers, a symbol as itself, unevaluated. */
  function Stored(a: Ast): (v: Value)
    requires !a.Children?
    ensures a.Symbol? ==> v == Symbol(a.s)
    ensures a.Integer? ==> v == Number(Integer(a.i))
    ensures a.Float? ==> v == Number(Float(a.f))
  {
    match a
    case Integer(i) => Number(Integer(i))
    case Float(f) => Number(Float(f))
    case Symbol(s) => Symbol(s)
  }

  /** The `define` special form; `list[0]` is the symbol `define`. */
  function EvalDefine(list: seq<Ast>, env: Env): (o: Outcome)
    ensures o.Done? ==> o.env.parent == env.parent && env.local.Keys <= o.env.local.Keys
    ensures o == Done(Err(WrongDefine), env) <==> |list| < 3 || !list[1].Symbol?
    ensures o.Panicked? <==> 3 <= |list| && list[1].Symbol? && list[2].Children?
    ensures o.Done? && o.result.Ok? ==>
      && o.result == Ok(None)
      && Get(o.env, list[1].s) == Some(Stored(list[2]))
      && forall k :: k != list[1].s ==> Get(o.env, k) == Get(env, k)
  {
    if |list| < 3 || !list[1].Symbol? then Done(Err(WrongDefine), env)
    else if list[2].Children? then Panicked(NotImplemented)
    else
      DefineEffect(env, list[1].s, Stored(list[2]));
      Done(Ok(None), Define(env, list[1].s, Stored(list[2])))
  }

  function EvalAst(a: Ast, env: Env): (o: Outcome)
    ensures o.Done? ==> o.env.parent == env.parent
    ensures o.Done? ==> env.local.Keys <= o.env.local.Keys
    decreases a, 0
  {
    match a
    case Integer(i) => Done(Ok(Some(Number(Integer(i)))), env)
    case Float(f) => Done(Ok(Some(Number(Float(f)))), env)
    case Symbol(s) =>
      Done(match Get(env, s) case Some(v) => Ok(Some(v)) case None => Err(SymbolNotDefined), env)
    case Children(list) =>
      if list == [] || !list[0].Symbol? then Done(Err(Reader.SyntaxError), env)
      else if list[0].s == "define" then EvalDefine(list, env)
      else
        match Get(env, list[0].s)
        case Some(Proc(b)) =>
          (match EvalArgs(list, 1, env, [])
           case Args(vs, e) => Done(Apply(b, vs), e)
           case ArgsPanicked(m) => Panicked(m))
        case _ => Done(Err(ProcNotDefined), env)
  }

  /**
   * The arguments `list[i..]` of a call, evaluated in order and appended to
   * `acc`. An argument that fails or yields no value is dropped; a panic
   * ends the whole call.
   */
  function EvalArgs(list: seq<Ast>, i: nat, env: Env, acc: seq<Value>): (o: ArgsOutcome)
    requires i <= |list|
    ensures o.Args? ==> o.env.parent == env.parent && env.local.Keys <= o.env.local.Keys
    ensures o.Args? ==> acc <= o.values && |o.values| <= |acc| + |list| - i
    decreases list, |list| - i
  {
    if i == |list| then Args(acc, env)
    else
      match EvalAst(list[i], env)
      case Panicked(m) => ArgsPanicked(m)
      case Done(Ok(Some(v)), e) => EvalArgs(list, i + 1, e, acc + [v])
      case Done(_, e) => EvalArgs(list, i + 1, e, acc)
  }

  /** `eval(ast_option, env)`: no expression evaluates to no value. */
  function Eval(ast: Option<Ast>, env: Env): (o: Outcome)
    ensures ast.None? ==> o == Done(Ok(None), env)
  {
    match ast
    case None => Done(Ok(None), env)
    case Some(a) => EvalAst(a, env)
  }

  /** Literals evaluate to the number of the same kind and leave the environment alone. */
  lemma EvalLiteral(a: Ast, env: Env)
    requires a.Integer? || a.Float?
    ensures EvalAst(a, env) == Done(Ok(Some(Stored(a))), env)
  {}

  /** A symbol evaluates to its binding, and is an error exactly when it is unbound. */
  lemma EvalSymbol(s: string, env: Env)
    ensures EvalAst(Reader.Symbol(s), env).env == env
    ensures EvalAst(Reader.Symbol(s), env).result.Err? <==> Get(env, s).None?
    ensures Get(env, s).None? ==> EvalAst(Reader.Symbol(s), env).result.msg == SymbolNotDefined
    ensures Get(env, s).Some? ==> EvalAst(Reader.Symbol(s), env).result == Ok(Some(Get(env, s).value))
  {}

  /**
   * `(define name v ...)` with a non-list `v` binds `name` to `v` unevaluated in
   * the local scope and yields no value; forms after the third are ignored.
   */
  lemma DefineBinds(name: string, v: Ast, extra: seq<Ast>, env: Env)
    requires !v.Children?
    ensures var o := EvalAst(Reader.Children([Reader.Symbol("define"), Reader.Symbol(name), v] + extra), env);
      o == Done(Ok(None), Define(env, name, Stored(v))) &&
      Get(o.env, name) == Some(Stored(v)) &&
      forall k :: k != name ==> Get(o.env, k) == Get(env, k)
  {
    DefineEffect(env, name, Stored(v));
  }

  /** A `define` without a value, or whose name is not a symbol, is rejected and changes nothing. */
  lemma DefineMalformed(list: seq<Ast>, env: Env)
    requires list != [] && list[0] == Reader.Symbol("define")
    requires |list| < 3 || !list[1].Symbol?
    ensures EvalAst(Reader.Children(list), env) == Done(Err(WrongDefine), env)
  {}

  /** A `define` whose value is a list is not implemented: the process panics. */
  lemma DefineOfList(list: seq<Ast>, env: Env)
    requires |list| >= 3 && list[0] == Reader.Symbol("define") && list[1].Symbol? && list[2].Children?
    ensures EvalAst(Reader.Children(list), env) == Panicked(NotImplemented)
  {}

  /** The syntax errors of a list form: empty, or headed by something other than a symbol. */
  lemma BadForm(list: seq<Ast>, env: Env)
    requires list == [] || !list[0].Symbol?
    ensures EvalAst(Reader.Children(list), env) == Done(Err(Reader.SyntaxError), env)
  {}

  /**
   * A head symbol that is unbound or bound to a non-procedure is an error, and
   * the arguments are not evaluated: even a `define` among them has no effect.
   */
  lemma HeadNotProcedure(list: seq<Ast>, env: Env)
    requires list != [] && list[0].Symbol? && list[0].s != "define"
    requires !(Get(env, list[0].s).Some? && Get(env, list[0].s).value.Proc?)
    ensures EvalAst(Reader.Children(list), env) == Done(Err(ProcNotDefined), env)
  {}

  /**
   * A call hands the surviving argument values to the procedure and returns
   * its answer unchanged, in the environment the arguments left behind.
   */
  lemma CallApplies(list: seq<Ast>, env: Env, b: Builtin)
    requires list != [] && list[0].Symbol? && list[0].s != "define"
    requires Get(env, list[0].s) == Some(Proc(b))
    ensures EvalArgs(list, 1, env, []).Args? ==>
      EvalAst(Reader.Children(list), env) ==
      Done(Apply(b, EvalArgs(list, 1, env, []).values), EvalArgs(list, 1, env, []).env)
    ensures EvalArgs(list, 1, env, []).ArgsPanicked? ==>
      EvalAst(Reader.Children(list), env) == Panicked(EvalArgs(list, 1, env, []).msg)
  {}

  /** A `define` among the arguments is seen by every argument after it. */
  lemma DefineSeenByLaterArguments(list: seq<Ast>, i: nat, env: Env, acc: seq<Value>, name: string, v: Ast)
    requires i < |list| && !v.Children?
    requires list[i] == Reader.Children([Reader.Symbol("define"), Reader.Symbol(name), v])
    ensures EvalArgs(list, i, env, acc) == EvalArgs(list, i + 1, Define(env, name, Stored(v)), acc)
  {
    assert EvalAst(list[i], env) == Done(Ok(None), Define(env, name, Stored(v))) by {
      DefineBinds(name, v, [], env);
      assert [Reader.Symbol("define"), Reader.Symbol(name), v] + [] == [Reader.Symbol("define"), Reader.Symbol(name), v];
    }
  }

  /** A panic in any argument is the outcome of the whole argument list. */
  lemma ArgumentPanics(list: seq<Ast>, i: nat, env: Env, acc: seq<Value>)
    requires i < |list| && EvalAst(list[i], env).Panicked?
    ensures EvalArgs(list, i, env, acc) == ArgsPanicked(EvalAst(list[i], env).msg)
  {}

  /** No `define` form anywhere in the expression. */
  predicate DefineFree(a: Ast)
    decreases a
  {
    match a
    case Children(list) =>
      (list == [] || list[0] != Reader.Symbol("define")) &&
      forall k :: 0 <= k < |list| ==> DefineFree(list[k])
    case _ => true
  }

  /** The value an outcome contributes to an argument vector: its value, if it has one. */
  function Kept(o: Outcome): (vs: seq<Value>)
    ensures |vs| <= 1
  {
    match o
    case Done(Ok(Some(v)), _) => [v]
    case _ => []
  }

  /**
   * A reference definition of argument collection: evaluate each argument on
   * its own in `env` and keep the values that come out.
   */
  function Survivors(xs: seq<Ast>, env: Env): (vs: seq<Value>)
    ensures |vs| <= |xs|
  {
    if xs == [] then [] else Kept(EvalAst(xs[0], env)) + Survivors(xs[1..], env)
  }

  /** An expression without `define` cannot panic and leaves the environment as it was. */
  lemma {:induction false} DefineFreeKeepsEnv(a: Ast, env: Env)
    requires DefineFree(a)
    ensures EvalAst(a, env).Done? && EvalAst(a, env).env == env
    decreases a, 0
  {
    match a
    case Children(list) =>
      if list != [] && list[0].Symbol? && list[0].s != "define" && Get(env, list[0].s).Some? &&
         Get(env, list[0].s).value.Proc? {
        DefineFreeArgs(list, 1, env, []);
      }
    case _ =>
  }

  /**
   * Arguments without `define` are collected exactly as the reference
   * definition says: every argument seeing the same environment, values in
   * order, failures dropped.
   */
  lemma {:induction false} DefineFreeArgs(list: seq<Ast>, i: nat, env: Env, acc: seq<Value>)
    requires i <= |list|
    requires forall k :: i <= k < |list| ==> DefineFree(list[k])
    ensures EvalArgs(list, i, env, acc) == Args(acc + Survivors(list[i..], env), env)
    decreases list, |list| - i
  {
    if i == |list| {
      assert list[i..] == [];
    } else {
      DefineFreeKeepsEnv(list[i], env);
      var kept := Kept(EvalAst(list[i], env));
      assert EvalArgs(list, i, env, acc) == EvalArgs(list, i + 1, env, acc + kept) by {
        if kept == [] {
          assert acc + kept == acc;
        }
      }
      DefineFreeArgs(list, i + 1, env, acc + kept);
      assert list[i..][0] == list[i] && list[i..][1..] == list[i + 1..];
      assert Survivors(list[i..], env) == kept + Survivors(list[i + 1..], env);
      assert acc + kept + Survivors(list[i + 1..], env) == acc + (kept + Survivors(list[i + 1..], env));
    }
  }

  /** A call whose arguments contain no `define`: the procedure gets the survivors. */
  lemma DefineFreeCall(f: string, args: seq<Ast>, env: Env, b: Builtin)
    requires f != "define" && Get(env, f) == Some(Proc(b))
    requires forall k :: 0 <= k < |args| ==> DefineFree(args[k])
    ensures EvalAst(Reader.Children([Reader.Symbol(f)] + args), env) == Done(Apply(b, Survivors(args, env)), env)
  {
    var list := [Reader.Symbol(f)] + args;
    assert list[1..] == args;
    assert forall k :: 1 <= k < |list| ==> list[k] == args[k - 1];
    DefineFreeArgs(list, 1, env, []);
    assert EvalArgs(list, 1, env, []) == Args(Survivors(args, env), env);
    CallApplies(list, env, b);
  }

  /** Integer literals, one per integer. */
  function IntLiterals(xs: seq<int>): (ls: seq<Ast>)
    ensures |ls| == |xs|
    ensures forall k :: 0 <= k < |xs| ==> ls[k] == Reader.Integer(xs[k])
  {
    if xs == [] then [] else [Reader.Integer(xs[0])] + IntLiterals(xs[1..])
  }

  /** Integer values, one per integer. */
  function IntValues(xs: seq<int>): (vs: seq<Value>)
    ensures |vs| == |xs|
    ensures forall k :: 0 <= k < |xs| ==> vs[k] == Number(Integer(xs[k]))
  {
    if xs == [] then [] else [Number(Integer(xs[0]))] + IntValues(xs[1..])
  }

  lemma {:induction false} LiteralsSurvive(xs: seq<int>, env: Env)
    ensures Survivors(IntLiterals(xs), env) == IntValues(xs)
    decreases |xs|
  {
    if xs != [] {
      LiteralsSurvive(xs[1..], env);
      assert IntLiterals(xs)[1..] == IntLiterals(xs[1..]);
    }
  }

  /**
   * `+`, `*` and `-` applied to integer literals: the sum, the product and the
   * negated sum of the integers, with the environment unchanged.
   */
  lemma {:induction false} IntegerArithmetic(b: Builtin, xs: seq<int>, env: Env)
    requires b in {Plus, Times, Minus}
    requires Get(env, NameOf(b)) == Some(Proc(b))
    ensures EvalAst(Reader.Children([Reader.Symbol(NameOf(b))] + IntLiterals(xs)), env) ==
      Done(Ok(Some(Number(Integer(IntegerResult(b, xs))))), env)
  {
    var args := IntLiterals(xs);
    assert forall k :: 0 <= k < |args| ==> DefineFree(args[k]);
    DefineFreeCall(NameOf(b), args, env, b);
    LiteralsSurvive(xs, env);
    var vs := IntValues(xs);
    assert AllIntegers(vs);
    assert Ints(vs) == xs;
    ApplyToIntegers(b, vs);
  }

  // ---------------------------------------------------------------------
  // The argument policy the source does not follow

  /** Argument collection that stops at the first failing argument. */
  datatype StrictOutcome = Collected(values: seq<Value>, env: Env) | Failed(msg: string, env: Env) | StrictPanicked(msg: string)

  /**
   * The alternative to dropping failed arguments: an argument that fails
   * aborts the call with its error. Arguments without a value are still
   * skipped, since there is nothing to pass.
   */
  function StrictArgs(list: seq<Ast>, i: nat, env: Env, acc: seq<Value>): (o: StrictOutcome)
    requires i <= |list|
    ensures o.Collected? ==> acc <= o.values
    decreases |list| - i
  {
    if i == |list| then Collected(acc, env)
    else
      match EvalAst(list[i], env)
      case Panicked(m) => StrictPanicked(m)
      case Done(Err(m), e) => Failed(m, e)
      case Done(Ok(Some(v)), e) => StrictArgs(list, i + 1, e, acc + [v])
      case Done(Ok(None), e) => StrictArgs(list, i + 1, e, acc)
  }

  /**
   * The two policies agree whenever no argument fails: dropping failures
   * then changes nothing, so the choice only matters for calls with a failing
   * argument.
   */
  lemma {:induction false} PoliciesAgreeWithoutFailures(list: seq<Ast>, i: nat, env: Env, acc: seq<Value>)
    requires i <= |list|
    ensures StrictArgs(list, i, env, acc).Collected? ==>
      EvalArgs(list, i, env, acc) == Args(StrictArgs(list, i, env, acc).values, StrictArgs(list, i, env, acc).env)
    ensures StrictArgs(list, i, env, acc).StrictPanicked? ==>
      EvalArgs(list, i, env, acc) == ArgsPanicked(StrictArgs(list, i, env, acc).msg)
    decreases |list| - i
  {
    if i < |list| {
      match EvalAst(list[i], env)
      case Panicked(m) =>
      case Done(Err(m), e) =>
      case Done(Ok(Some(v)), e) => PoliciesAgreeWithoutFailures(list, i + 1, e, acc + [v]);
      case Done(Ok(None), e) => PoliciesAgreeWithoutFailures(list, i + 1, e, acc);
    }
  }
}
