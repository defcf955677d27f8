/** Whole programs from reading to evaluation, in the root environment. */
module Scenarios {
  import opened Wrappers
  import opened Integers
  import opened Floats
  import opened Values
  import opened Environment
  import opened Builtins
  import opened Evaluator
  import opened Interpreter
  import Tokenizer
  import Reader

  function RootEnv(): (e: Env)
    ensures e.parent.None? && e.local == Root()
  {
    Env(Root(), None)
  }

  function Sym(s: string): Ast { Reader.Symbol(s) }

  function Int(i: int): Ast { Reader.Integer(i) }

  function Form(xs: seq<Ast>): Ast { Reader.Children(xs) }

  /** A parenthesis on its own is padded with a space on each side. */
  lemma PaddedParen(c: char)
    requires Tokenizer.IsParen(c)
    ensures Tokenizer.Padded([c]) == [' ', c, ' ']
  {
    assert [c][..0] == [];
  }

  /** A paren-free text between two parens is padded only at the parens. */
  lemma PaddedWrapped(open: char, body: string, close: char)
    requires Tokenizer.IsParen(open) && Tokenizer.IsParen(close) && !Tokenizer.HasParen(body)
    ensures Tokenizer.Padded([open] + body + [close]) == [' ', open, ' '] + body + [' ', close, ' ']
  {
    Tokenizer.PaddedAppend([open] + body, [close]);
    Tokenizer.PaddedAppend([open], body);
    PaddedParen(open);
    PaddedParen(close);
    Tokenizer.PaddedNoParen(body);
  }

  lemma PaddedCall(p: string)
    requires p == "(+ 1 2)"
    ensures Tokenizer.Padded(p) == " ( + 1 2 ) "
  {
    var body := "+ 1 2";
    assert p == ['('] + body + [')'];
    assert forall k :: 0 <= k < |body| ==> !Tokenizer.IsParen(body[k]);
    PaddedWrapped('(', body, ')');
  }

  lemma SplitCall(ts: seq<string>)
    requires ts == ["(", "+", "1", "2", ")"]
    ensures Tokenizer.SplitFrom(" " + Tokenizer.Spaced(ts), []) == ts
  {
    Tokenizer.SplitSpace(Tokenizer.Spaced(ts), []);
    forall k | 0 <= k < |ts|
      ensures ts[k] != [] && Tokenizer.NoWhitespace(ts[k])
    {
      assert |ts[k]| == 1 && !Tokenizer.IsWhitespace(ts[k][0]);
    }
    Tokenizer.SplitSpaced(ts);
  }

  lemma SpacedCall(ts: seq<string>)
    requires ts == ["(", "+", "1", "2", ")"]
    ensures Tokenizer.Spaced(ts) == "( + 1 2 ) "
  {
    var t4 := [")"];
    var t3 := ["2"] + t4;
    var t2 := ["1"] + t3;
    var t1 := ["+"] + t2;
    assert ts == ["("] + t1;
    assert t4[1..] == [] && t3[1..] == t4 && t2[1..] == t3 && t1[1..] == t2 && ts[1..] == t1;
    assert Tokenizer.Spaced(t4) == ") ";
    assert Tokenizer.Spaced(t3) == "2 ) ";
    assert Tokenizer.Spaced(t2) == "1 2 ) ";
    assert Tokenizer.Spaced(t1) == "+ 1 2 ) ";
  }

  /** Parentheses become tokens of their own even without spaces around them. */
  lemma TokenizeCall(p: string)
    requires p == "(+ 1 2)"
    ensures Tokenizer.Tokens(p) == ["(", "+", "1", "2", ")"]
  {
    var ts := ["(", "+", "1", "2", ")"];
    PaddedCall(p);
    SpacedCall(ts);
    SplitCall(ts);
  }

  lemma UnparseCall(a: Ast, isFloat: string -> bool)
    requires a == Form([Sym("+"), Int(1), Int(2)]) && !isFloat("+")
    ensures Reader.WellFormed(a, isFloat)
    ensures Reader.Unparse(a) == ["(", "+", "1", "2", ")"]
  {
    assert IntToStr(1) == "1" && IntToStr(2) == "2";
    var xs := a.xs;
    assert Reader.UnparseAll(xs[2..]) == ["2"] by {
      assert xs[2..][1..] == [];
    }
    assert Reader.UnparseAll(xs[1..]) == ["1", "2"] by {
      assert xs[1..][1..] == xs[2..];
    }
    assert Reader.UnparseAll(xs) == ["+", "1", "2"];
    assert Reader.IsAtomToken("+") by {
      assert !Tokenizer.IsWhitespace('+') && !Tokenizer.IsParen('+');
    }
    assert ParseI64("+").None?;
  }

  /** `(+ 1 2)` reads as a list of the symbol `+` and two integers, using every token. */
  lemma ParseCall(p: string, isFloat: string -> bool)
    requires p == "(+ 1 2)" && !isFloat("+")
    ensures Reader.Parse(p, isFloat) == Ok(Reader.ReadResult([], Form([Sym("+"), Int(1), Int(2)])))
  {
    var a := Form([Sym("+"), Int(1), Int(2)]);
    TokenizeCall(p);
    UnparseCall(a, isFloat);
    Reader.ReadUnparse(a, [], isFloat);
    assert Reader.Unparse(a) + [] == Reader.Unparse(a);
  }

  /** The empty program and a stray `)` are the reader's two other errors. */
  lemma ParseErrors(isFloat: string -> bool)
    ensures Reader.Read([], isFloat) == Err(Reader.UnexpectedEof)
    ensures Reader.Read([")"], isFloat) == Err(Reader.UnexpectedClose)
  {}

  /**
   * `(+ 1 2` is an unterminated list: the reader answers "syntax error",
   * not the end-of-input message.
   */
  lemma ParseUnterminated(ts: seq<string>, isFloat: string -> bool)
    requires ts == ["(", "+", "1", "2"]
    ensures Reader.Read(ts, isFloat) == Err("syntax error")
  {
    Reader.NoCloseNeverCloses(ts[1..]);
    Reader.UnterminatedForm(ts[1..], isFloat);
    assert ["("] + ts[1..] == ts;
  }

  /** Every builtin is found under its name in the root environment. */
  lemma RootBinds(b: Builtin)
    ensures Get(RootEnv(), NameOf(b)) == Some(Proc(b))
  {}

  lemma RootUnbound(s: string)
    requires s !in {"pi", "begin", "print", "*", "+", "-", "/", "list", "car", "cdr"}
    ensures Get(RootEnv(), s).None?
  {}

  lemma SumOfThree(xs: seq<int>)
    requires xs == [1, 2, 3]
    ensures IntSum(xs) == 6
  {
    assert xs[..2] == [1, 2] && xs[..2][..1] == [1] && xs[..1][..0] == [];
  }

  lemma ProductOfThree(xs: seq<int>)
    requires xs == [2, 3, 4]
    ensures IntProduct(xs) == 24
  {
    assert xs[..2] == [2, 3] && xs[..2][..1] == [2] && xs[..1][..0] == [];
  }

  /** A call of the builtin `b` on the literals of `xs` in the root environment. */
  lemma RootArithmetic(b: Builtin, xs: seq<int>, call: Ast)
    requires b in {Plus, Times, Minus}
    requires call == Form([Sym(NameOf(b))] + IntLiterals(xs))
    ensures EvalAst(call, RootEnv()) == Done(Ok(Some(Number(Integer(IntegerResult(b, xs))))), RootEnv())
  {
    RootBinds(b);
    IntegerArithmetic(b, xs, RootEnv());
  }

  /** `(+ 1 2 3)` is 6. */
  lemma EvalSum(call: Ast)
    requires call == Form([Sym("+"), Int(1), Int(2), Int(3)])
    ensures EvalAst(call, RootEnv()) == Done(Ok(Some(Number(Integer(6)))), RootEnv())
  {
    var xs := [1, 2, 3];
    assert call == Form([Sym(NameOf(Plus))] + IntLiterals(xs));
    RootArithmetic(Plus, xs, call);
    SumOfThree(xs);
  }

  /** `(* 2 3 4)` is 24. */
  lemma EvalProduct(call: Ast)
    requires call == Form([Sym("*"), Int(2), Int(3), Int(4)])
    ensures EvalAst(call, RootEnv()) == Done(Ok(Some(Number(Integer(24)))), RootEnv())
  {
    var xs := [2, 3, 4];
    assert call == Form([Sym(NameOf(Times))] + IntLiterals(xs));
    RootArithmetic(Times, xs, call);
    ProductOfThree(xs);
  }

  /** `(- 1 2 3)` is -6: the negated sum, where left-to-right subtraction would give -4. */
  lemma EvalDifference(call: Ast)
    requires call == Form([Sym("-"), Int(1), Int(2), Int(3)])
    ensures EvalAst(call, RootEnv()) == Done(Ok(Some(Number(Integer(-6)))), RootEnv())
  {
    var xs := [1, 2, 3];
    assert call == Form([Sym(NameOf(Minus))] + IntLiterals(xs));
    RootArithmetic(Minus, xs, call);
    SumOfThree(xs);
  }

  /** A float among the arguments makes the whole sum a float: `(+ 1 2.0)`. */
  lemma EvalMixedSum(call: Ast)
    requires call == Form([Sym("+"), Int(1), Reader.Float(Parsed("2.0"))])
    ensures EvalAst(call, RootEnv()) ==
      Done(Ok(Some(Number(Float(Sum([OfInt(1), Parsed("2.0")]))))), RootEnv())
  {
    RootBinds(Plus);
    MixedSumIn(call, RootEnv());
  }

  /** `(+ 1 2.0)` wherever `+` is the builtin sum. */
  lemma MixedSumIn(call: Ast, env: Env)
    requires call == Form([Sym("+"), Int(1), Reader.Float(Parsed("2.0"))])
    requires Get(env, "+") == Some(Proc(Plus))
    ensures EvalAst(call, env) == Done(Ok(Some(Number(Float(Sum([OfInt(1), Parsed("2.0")]))))), env)
  {
    var args := [Int(1), Reader.Float(Parsed("2.0"))];
    assert call == Form([Sym("+")] + args);
    assert Survivors(args, env) == [Number(Integer(1)), Number(Float(Parsed("2.0")))] by {
      EvalLiteral(args[0], env);
      EvalLiteral(args[1], env);
      assert args[1..][1..] == [];
    }
    IntegerPlusFloat("+", args, env, 1, Parsed("2.0"));
  }

  /** A sum whose surviving arguments are an integer and a float is a float sum. */
  lemma IntegerPlusFloat(f: string, args: seq<Ast>, env: Env, n: int, x: F64)
    requires f != "define" && Get(env, f) == Some(Proc(Plus))
    requires forall k :: 0 <= k < |args| ==> DefineFree(args[k])
    requires Survivors(args, env) == [Number(Integer(n)), Number(Float(x))]
    ensures EvalAst(Form([Sym(f)] + args), env) == Done(Ok(Some(Number(Float(Sum([OfInt(n), x]))))), env)
  {
    DefineFreeCall(f, args, env, Plus);
    var vs := [Number(Integer(n)), Number(Float(x))];
    assert !AllIntegers(vs) by {
      assert !vs[1].n.Integer?;
    }
    ApplyToMixed(Plus, vs);
    assert AsFloats(vs) == [OfInt(n), x];
  }

  /** An unbound argument is dropped, not reported: `(+ 1 y 2)` is 3. */
  lemma EvalDropsFailedArgument(call: Ast)
    requires call == Form([Sym("+"), Int(1), Sym("y"), Int(2)])
    ensures EvalAst(call, RootEnv()) == Done(Ok(Some(Number(Integer(3)))), RootEnv())
  {
    RootBinds(Plus);
    RootUnbound("y");
    DropsFailedIn(call, RootEnv());
  }

  /** `(+ 1 y 2)` is 3 wherever `+` is the builtin sum and `y` is unbound. */
  lemma DropsFailedIn(call: Ast, env: Env)
    requires call == Form([Sym("+"), Int(1), Sym("y"), Int(2)])
    requires Get(env, "+") == Some(Proc(Plus)) && Get(env, "y").None?
    ensures EvalAst(call, env) == Done(Ok(Some(Number(Integer(3)))), env)
  {
    var args := [Int(1), Sym("y"), Int(2)];
    assert call == Form([Sym("+")] + args);
    DefineFreeCall("+", args, env, Plus);
    var vs := [Number(Integer(1)), Number(Integer(2))];
    UnboundDropped(args, env);
    ApplyToIntegers(Plus, vs);
    assert Ints(vs) == [1, 2];
    assert IntSum([1, 2]) == 3 by {
      assert [1, 2][..1] == [1] && [1][..0] == [];
    }
  }

  /** Of the arguments `1 y 2` with `y` unbound, the two integers survive. */
  lemma UnboundDropped(args: seq<Ast>, env: Env)
    requires args == [Int(1), Sym("y"), Int(2)] && Get(env, "y").None?
    ensures Survivors(args, env) == [Number(Integer(1)), Number(Integer(2))]
  {
    EvalLiteral(Int(1), env);
    EvalLiteral(Int(2), env);
    EvalSymbol("y", env);
    assert args[1..] == [Sym("y"), Int(2)] && args[1..][1..] == [Int(2)] && args[1..][1..][1..] == [];
    assert Kept(EvalAst(Sym("y"), env)) == [];
    assert Survivors([Int(2)], env) == [Number(Integer(2))];
  }

  /** `(list 1 2 3)` evaluates to the list of the three integers. */
  lemma EvalList(inner: Ast, env: Env)
    requires inner == Form([Sym("list")] + IntLiterals([1, 2, 3]))
    requires Get(env, "list") == Some(Proc(MakeList))
    ensures DefineFree(inner)
    ensures EvalAst(inner, env) == Done(Ok(Some(List(IntValues([1, 2, 3])))), env)
  {
    var args := IntLiterals([1, 2, 3]);
    assert forall k :: 0 <= k < |args| ==> DefineFree(args[k]);
    assert inner.xs[0] == Sym("list") && inner.xs[1..] == args;
    assert forall k :: 0 <= k < |inner.xs| ==> DefineFree(inner.xs[k]);
    DefineFreeCall("list", args, env, MakeList);
    LiteralsSurvive([1, 2, 3], env);
  }

  /** `car` and `cdr` of `(list 1 2 3)` are 1 and the list of 2 and 3. */
  lemma EvalCarCdr(inner: Ast, first: Ast, rest: Ast)
    requires inner == Form([Sym("list")] + IntLiterals([1, 2, 3]))
    requires first == Form([Sym("car"), inner]) && rest == Form([Sym("cdr"), inner])
    ensures EvalAst(first, RootEnv()) == Done(Ok(Some(Number(Integer(1)))), RootEnv())
    ensures EvalAst(rest, RootEnv()) == Done(Ok(Some(List(IntValues([2, 3])))), RootEnv())
  {
    RootBinds(MakeList);
    RootBinds(Car);
    RootBinds(Cdr);
    CarCdrIn(inner, first, rest, RootEnv());
  }

  /** `car` and `cdr` of `(list 1 2 3)` wherever the three names are the builtins. */
  lemma CarCdrIn(inner: Ast, first: Ast, rest: Ast, env: Env)
    requires inner == Form([Sym("list")] + IntLiterals([1, 2, 3]))
    requires first == Form([Sym("car"), inner]) && rest == Form([Sym("cdr"), inner])
    requires Get(env, "list") == Some(Proc(MakeList))
    requires Get(env, "car") == Some(Proc(Car)) && Get(env, "cdr") == Some(Proc(Cdr))
    ensures EvalAst(first, env) == Done(Ok(Some(Number(Integer(1)))), env)
    ensures EvalAst(rest, env) == Done(Ok(Some(List(IntValues([2, 3])))), env)
  {
    EvalList(inner, env);
    var items := IntValues([1, 2, 3]);
    assert Survivors([inner], env) == [List(items)] by {
      assert [inner][1..] == [];
    }
    assert [Sym("car")] + [inner] == first.xs && [Sym("cdr")] + [inner] == rest.xs;
    DefineFreeCall("car", [inner], env, Car);
    DefineFreeCall("cdr", [inner], env, Cdr);
    CarCdrOfList(items);
    assert items[1..] == IntValues([2, 3]);
  }

  /** `(list)` evaluates to the empty list. */
  lemma EvalEmptyList(inner: Ast, env: Env)
    requires inner == Form([Sym("list")])
    requires Get(env, "list") == Some(Proc(MakeList))
    ensures DefineFree(inner)
    ensures EvalAst(inner, env) == Done(Ok(Some(List([]))), env)
  {
    assert [Sym("list")] + [] == inner.xs;
    DefineFreeCall("list", [], env, MakeList);
  }

  /** `(car (list))` is the non-empty-list error. */
  lemma EvalCarOfEmpty(inner: Ast, call: Ast)
    requires inner == Form([Sym("list")]) && call == Form([Sym("car"), inner])
    ensures EvalAst(call, RootEnv()) ==
      Done(Err(CarErrors.empty), RootEnv())
  {
    RootBinds(MakeList);
    RootBinds(Car);
    CarOfEmptyIn(inner, call, RootEnv());
  }

  /** `(car (list))` wherever `list` and `car` are the builtins. */
  lemma CarOfEmptyIn(inner: Ast, call: Ast, env: Env)
    requires inner == Form([Sym("list")]) && call == Form([Sym("car"), inner])
    requires Get(env, "list") == Some(Proc(MakeList)) && Get(env, "car") == Some(Proc(Car))
    ensures EvalAst(call, env) == Done(Err(CarErrors.empty), env)
  {
    EvalEmptyList(inner, env);
    assert Survivors([inner], env) == [List([])] by {
      assert [inner][1..] == [];
    }
    assert [Sym("car")] + [inner] == call.xs;
    DefineFreeCall("car", [inner], env, Car);
  }

  /** Calling something that is not a procedure: an unknown name, or the number `pi`. */
  lemma EvalNotProcedure(unknown: Ast, number: Ast)
    requires unknown == Form([Sym("foo"), Int(1)]) && number == Form([Sym("pi"), Int(1)])
    ensures EvalAst(unknown, RootEnv()) == Done(Err(ProcNotDefined), RootEnv())
    ensures EvalAst(number, RootEnv()) == Done(Err(ProcNotDefined), RootEnv())
  {
    RootUnbound("foo");
    HeadNotProcedure(unknown.xs, RootEnv());
    HeadNotProcedure(number.xs, RootEnv());
  }

  /** A list headed by a number is a syntax error: `(1 2)`. */
  lemma EvalNumberHead(call: Ast)
    requires call == Form([Int(1), Int(2)])
    ensures EvalAst(call, RootEnv()) == Done(Err(Reader.SyntaxError), RootEnv())
  {
    BadForm(call.xs, RootEnv());
  }

  /** `(* r r)` with `r` bound to 10 is 100. */
  lemma EvalSquare(square: Ast, env: Env)
    requires square == Form([Sym("*"), Sym("r"), Sym("r")])
    requires Get(env, "*") == Some(Proc(Times)) && Get(env, "r") == Some(Number(Integer(10)))
    ensures DefineFree(square)
    ensures EvalAst(square, env) == Done(Ok(Some(Number(Integer(100)))), env)
  {
    var args := [Sym("r"), Sym("r")];
    assert [Sym("*")] + args == square.xs;
    assert Survivors(args, env) == [Number(Integer(10)), Number(Integer(10))] by {
      EvalSymbol("r", env);
      assert args[1..][1..] == [];
    }
    IntegerTimesInteger("*", args, env, 10, 10);
  }

  /** A product whose surviving arguments are two integers is their integer product. */
  lemma IntegerTimesInteger(f: string, args: seq<Ast>, env: Env, m: int, n: int)
    requires f != "define" && Get(env, f) == Some(Proc(Times))
    requires forall k :: 0 <= k < |args| ==> DefineFree(args[k])
    requires Survivors(args, env) == [Number(Integer(m)), Number(Integer(n))]
    ensures EvalAst(Form([Sym(f)] + args), env) == Done(Ok(Some(Number(Integer(m * n)))), env)
  {
    DefineFreeCall(f, args, env, Times);
    var vs := [Number(Integer(m)), Number(Integer(n))];
    ApplyToIntegers(Times, vs);
    assert Ints(vs) == [m, n];
    assert IntProduct([m, n]) == m * n by {
      assert [m, n][..1] == [m] && [m][..0] == [];
    }
  }

  /** `(* pi (* r r))` with `r` bound to 10 is the float product of pi and 100. */
  lemma EvalArea(area: Ast, square: Ast, env: Env)
    requires square == Form([Sym("*"), Sym("r"), Sym("r")])
    requires area == Form([Sym("*"), Sym("pi"), square])
    requires Get(env, "*") == Some(Proc(Times)) && Get(env, "r") == Some(Number(Integer(10)))
    requires Get(env, "pi") == Some(Number(Float(Pi)))
    ensures DefineFree(area)
    ensures EvalAst(area, env) == Done(Ok(Some(Number(Float(Product([Pi, OfInt(100)]))))), env)
  {
    EvalSquare(square, env);
    var args := [Sym("pi"), square];
    assert [Sym("*")] + args == area.xs;
    assert forall k :: 0 <= k < |area.xs| ==> DefineFree(area.xs[k]);
    AreaArguments(args, square, env);
    FloatTimesInteger("*", args, env, Pi, 100);
  }

  /** The arguments `pi (* r r)` of the area survive as pi and 100. */
  lemma AreaArguments(args: seq<Ast>, square: Ast, env: Env)
    requires args == [Sym("pi"), square]
    requires Get(env, "pi") == Some(Number(Float(Pi)))
    requires EvalAst(square, env) == Done(Ok(Some(Number(Integer(100)))), env)
    ensures Survivors(args, env) == [Number(Float(Pi)), Number(Integer(100))]
  {
    EvalSymbol("pi", env);
    assert args[1..] == [square] && args[1..][1..] == [];
  }

  /** A product whose surviving arguments are a float and an integer is a float product. */
  lemma FloatTimesInteger(f: string, args: seq<Ast>, env: Env, x: F64, n: int)
    requires f != "define" && Get(env, f) == Some(Proc(Times))
    requires forall k :: 0 <= k < |args| ==> DefineFree(args[k])
    requires Survivors(args, env) == [Number(Float(x)), Number(Integer(n))]
    ensures EvalAst(Form([Sym(f)] + args), env) == Done(Ok(Some(Number(Float(Product([x, OfInt(n)]))))), env)
  {
    DefineFreeCall(f, args, env, Times);
    var vs := [Number(Float(x)), Number(Integer(n))];
    assert !AllIntegers(vs) by {
      assert !vs[0].n.Integer?;
    }
    ApplyToMixed(Times, vs);
    assert AsFloats(vs) == [x, OfInt(n)];
  }

  /**
   * `(begin (define r 10) (* pi (* r r)))`: the `define` in the first argument
   * is seen by the second, `begin` yields the last value, and `r` stays bound
   * afterwards.
   */
  lemma EvalDefineThenUse(program: Ast, def: Ast, area: Ast, square: Ast)
    requires def == Form([Sym("define"), Sym("r"), Int(10)])
    requires square == Form([Sym("*"), Sym("r"), Sym("r")])
    requires area == Form([Sym("*"), Sym("pi"), square])
    requires program == Form([Sym("begin"), def, area])
    ensures var after := Define(RootEnv(), "r", Number(Integer(10)));
      EvalAst(program, RootEnv()) == Done(Ok(Some(Number(Float(Product([Pi, OfInt(100)]))))), after) &&
      Get(after, "r") == Some(Number(Integer(10)))
  {
    RootBinds(Begin);
    RootBinds(Times);
    DefineThenUseIn(program, def, area, square, RootEnv());
  }

  /** The same program wherever `begin`, `*` and `pi` have their root meaning. */
  lemma DefineThenUseIn(program: Ast, def: Ast, area: Ast, square: Ast, env: Env)
    requires def == Form([Sym("define"), Sym("r"), Int(10)])
    requires square == Form([Sym("*"), Sym("r"), Sym("r")])
    requires area == Form([Sym("*"), Sym("pi"), square])
    requires program == Form([Sym("begin"), def, area])
    requires Get(env, "begin") == Some(Proc(Begin)) && Get(env, "*") == Some(Proc(Times))
    requires Get(env, "pi") == Some(Number(Float(Pi)))
    ensures var after := Define(env, "r", Number(Integer(10)));
      EvalAst(program, env) == Done(Ok(Some(Number(Float(Product([Pi, OfInt(100)]))))), after) &&
      Get(after, "r") == Some(Number(Integer(10)))
  {
    var after := Define(env, "r", Number(Integer(10)));
    var list := program.xs;
    DefineEffect(env, "r", Number(Integer(10)));
    DefineSeenByLaterArguments(list, 1, env, [], "r", Int(10));
    EvalArea(area, square, after);
    var v := Number(Float(Product([Pi, OfInt(100)])));
    assert EvalArgs(list, 2, after, []) == EvalArgs(list, 3, after, [v]);
    assert EvalArgs(list, 1, env, []) == Args([v], after);
    CallApplies(list, env, Begin);
  }

  /**
   * Two inputs in one session: `(define x y)` stores the symbol `y` itself,
   * although `y` is unbound, and then `x` evaluates to that symbol.
   */
  method DefineSymbolSession() returns (first: Completion, second: Completion)
    ensures first == Returned(Ok(None))
    ensures second == Returned(Ok(Some(Symbol("y"))))
  {
    var scope := new Scope.Init();
    var def := Form([Sym("define"), Sym("x"), Sym("y")]);
    DefineBinds("x", Sym("y"), [], scope.Snapshot());
    assert [Sym("define"), Sym("x"), Sym("y")] + [] == def.xs;
    first := scope.Evaluate(def);
    assert Get(scope.Snapshot(), "x") == Some(Symbol("y"));
    second := scope.Evaluate(Sym("x"));
  }

  /**
   * Under the policy the source does not follow, `(+ 1 y 2)` with `y`
   * unbound would fail with the unbound-symbol error instead of giving 3.
   */
  lemma StrictPolicyFails(call: Ast)
    requires call == Form([Sym("+"), Int(1), Sym("y"), Int(2)])
    ensures StrictArgs(call.xs, 1, RootEnv(), []) == Failed(SymbolNotDefined, RootEnv())
    ensures EvalArgs(call.xs, 1, RootEnv(), []) ==
      Args([Number(Integer(1)), Number(Integer(2))], RootEnv())
  {
    RootUnbound("y");
    StrictFailsIn(call, RootEnv());
  }

  /** The two policies on `(+ 1 y 2)` wherever `y` is unbound. */
  lemma StrictFailsIn(call: Ast, env: Env)
    requires call == Form([Sym("+"), Int(1), Sym("y"), Int(2)]) && Get(env, "y").None?
    ensures StrictArgs(call.xs, 1, env, []) == Failed(SymbolNotDefined, env)
    ensures EvalArgs(call.xs, 1, env, []) == Args([Number(Integer(1)), Number(Integer(2))], env)
  {
    var args := [Int(1), Sym("y"), Int(2)];
    assert call.xs[1..] == args;
    assert forall k :: 1 <= k < |call.xs| ==> DefineFree(call.xs[k]);
    DefineFreeArgs(call.xs, 1, env, []);
    UnboundDropped(args, env);
  }
}
