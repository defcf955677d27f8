/**
 * The native procedures of the root environment (`setup`) and what each one
 * does with its already evaluated argument vector.
 */
module Builtins {
  import opened Wrappers
  import opened Floats
  import opened Values

  /** What a native procedure returns: a value, no value, or an error text. */
  type Answer = Result<Option<Value>>

  const WrongArgumentDatatype := "wrong argument datatype"
  const PrintArity := "print function requires one argument only"

  /** The name `setup` registers each procedure under. */
  function NameOf(b: Builtin): string {
    match b
    case Begin => "begin"
    case Print => "print"
    case Times => "*"
    case Plus => "+"
    case Minus => "-"
    case Divide => "/"
    case MakeList => "list"
    case Car => "car"
    case Cdr => "cdr"
  }

  predicate AllNumbers(args: seq<Value>) {
    forall k :: 0 <= k < |args| ==> args[k].Number?
  }

  predicate AllIntegers(args: seq<Value>) {
    forall k :: 0 <= k < |args| ==> args[k].Number? && args[k].n.Integer?
  }

  /** The integers of an all-integer argument vector, in order. */
  function Ints(args: seq<Value>): (xs: seq<int>)
    requires AllIntegers(args)
    ensures |xs| == |args|
    ensures forall k :: 0 <= k < |args| ==> xs[k] == args[k].n.i
  {
    if args == [] then [] else [args[0].n.i] + Ints(args[1..])
  }

  /** `From<Number> for f64`: a float as is, an integer through `as f64`. */
  function ToF64(n: Number): F64 {
    match n
    case Float(f) => f
    case Integer(i) => OfInt(i)
  }

  /** The numbers of an all-number argument vector, as floats, in order. */
  function AsFloats(args: seq<Value>): (fs: seq<F64>)
    requires AllNumbers(args)
    ensures |fs| == |args|
    ensures forall k :: 0 <= k < |args| ==> fs[k] == ToF64(args[k].n)
  {
    if args == [] then [] else [ToF64(args[0].n)] + AsFloats(args[1..])
  }

  /** `Iterator::sum` over integers: a left fold from 0. */
  function IntSum(xs: seq<int>): int {
    if xs == [] then 0 else IntSum(xs[..|xs| - 1]) + xs[|xs| - 1]
  }

  /** `Iterator::product` over integers: a left fold from 1. */
  function IntProduct(xs: seq<int>): int {
    if xs == [] then 1 else IntProduct(xs[..|xs| - 1]) * xs[|xs| - 1]
  }

  /**
   * The shared shape of `*`, `+` and `-`: an error unless every argument is a
   * number; an integer result exactly when every argument is an integer, a
   * float result otherwise.
   */
  function Arithmetic(args: seq<Value>, ints: seq<int> -> int, floats: seq<F64> -> F64): (r: Answer)
    ensures r.Err? <==> !AllNumbers(args)
    ensures r.Err? ==> r.msg == WrongArgumentDatatype
    ensures r.Ok? ==> r.value.Some? && r.value.value.Number?
    ensures r.Ok? ==> (r.value.value.n.Integer? <==> AllIntegers(args))
    ensures r.Ok? && AllIntegers(args) ==> r.value.value.n.i == ints(Ints(args))
    ensures r.Ok? && !AllIntegers(args) ==> r.value.value.n.f == floats(AsFloats(args))
  {
    if !AllNumbers(args) then Err(WrongArgumentDatatype)
    else if AllIntegers(args) then Ok(Some(Number(Integer(ints(Ints(args))))))
    else Ok(Some(Number(Float(floats(AsFloats(args))))))
  }

  function NegatedSum(xs: seq<int>): int { -IntSum(xs) }

  function NegatedFloatSum(fs: seq<F64>): F64 { Negated(Sum(fs)) }

  /** `/`: every argument must be a number, and the result is always a float. */
  function Division(args: seq<Value>): (r: Answer)
    ensures r.Err? <==> !AllNumbers(args)
    ensures r.Err? ==> r.msg == WrongArgumentDatatype
    ensures r.Ok? ==> r == Ok(Some(Number(Float(Quotient(AsFloats(args))))))
  {
    if !AllNumbers(args) then Err(WrongArgumentDatatype)
    else Ok(Some(Number(Float(Quotient(AsFloats(args))))))
  }

  /** The three error texts of `car` or of `cdr`. */
  datatype SelectorErrors = SelectorErrors(arity: string, empty: string, notList: string)

  const CarErrors := SelectorErrors(
    "car function requires one argument only",
    "car function requires a non-empty list",
    "car function requires an argument of type 'list'")

  const CdrErrors := SelectorErrors(
    "cdr function requires one argument only",
    "cdr function requires a non-empty list",
    "cdr function requires an argument of type 'list'")

  /** `car`/`cdr` share their checks and differ in the part of the list they return. */
  function Selector(errors: SelectorErrors, args: seq<Value>, first: bool): (r: Answer)
    ensures |args| != 1 ==> r == Err(errors.arity)
    ensures |args| == 1 && !args[0].List? ==> r == Err(errors.notList)
    ensures |args| == 1 && args[0] == List([]) ==> r == Err(errors.empty)
    ensures r.Ok? <==> |args| == 1 && args[0].List? && args[0].xs != []
    ensures r.Ok? && first ==> r.value == Some(args[0].xs[0])
    ensures r.Ok? && !first ==> r.value == Some(List(args[0].xs[1..]))
  {
    if |args| != 1 then Err(errors.arity)
    else
      match args[0]
      case List(xs) =>
        if xs == [] then Err(errors.empty)
        else if first then Ok(Some(xs[0]))
        else Ok(Some(List(xs[1..])))
      case _ => Err(errors.notList)
  }

  /** Calling the native procedure `b` on the argument vector `args`. */
  function Apply(b: Builtin, args: seq<Value>): (r: Answer)
    ensures b == Begin ==> r == Ok(if args == [] then None else Some(args[|args| - 1]))
    ensures b == Print ==> r == (if |args| == 1 then Ok(None) else Err(PrintArity))
    ensures b == MakeList ==> r == Ok(Some(List(args)))
    ensures b in {Times, Plus, Minus, Divide} ==> (r.Err? <==> !AllNumbers(args))
    ensures b in {Times, Plus, Minus, Divide} && r.Ok? ==> r.value.Some? && r.value.value.Number?
    ensures b in {Times, Plus, Minus} && r.Ok? ==> (r.value.value.n.Integer? <==> AllIntegers(args))
    ensures b == Divide && r.Ok? ==> r.value.value.n.Float?
    ensures b in {Car, Cdr} ==> (r.Ok? <==> |args| == 1 && args[0].List? && args[0].xs != [])
  {
    match b
    case Begin => Ok(if args == [] then None else Some(args[|args| - 1]))
    case Print => if |args| != 1 then Err(PrintArity) else Ok(None)
    case Times => Arithmetic(args, IntProduct, fs => Product(fs))
    case Plus => Arithmetic(args, IntSum, fs => Sum(fs))
    case Minus => Arithmetic(args, NegatedSum, NegatedFloatSum)
    case Divide => Division(args)
    case MakeList => Ok(Some(List(args)))
    case Car => Selector(CarErrors, args, true)
    case Cdr => Selector(CdrErrors, args, false)
  }

  /**
   * `-` is not a left-to-right subtraction: it negates the sum of all its
   * arguments, so it is `+` followed by negation.
   */
  lemma MinusIsNegatedPlus(args: seq<Value>)
    ensures Apply(Minus, args).Err? <==> Apply(Plus, args).Err?
    ensures AllIntegers(args) ==>
      Apply(Minus, args) == Ok(Some(Number(Integer(-Apply(Plus, args).value.value.n.i))))
    ensures AllNumbers(args) && !AllIntegers(args) ==>
      Apply(Minus, args) == Ok(Some(Number(Float(Negated(Apply(Plus, args).value.value.n.f)))))
  {}

  /** What `*`, `+` and `-` compute on integers: product, sum and negated sum. */
  function IntegerResult(b: Builtin, xs: seq<int>): int
    requires b in {Times, Plus, Minus}
  {
    match b
    case Times => IntProduct(xs)
    case Plus => IntSum(xs)
    case Minus => -IntSum(xs)
  }

  /** On all-integer arguments, `*`, `+` and `-` yield the integer product, sum and negated sum. */
  lemma ApplyToIntegers(b: Builtin, args: seq<Value>)
    requires b in {Times, Plus, Minus} && AllIntegers(args)
    ensures Apply(b, args) == Ok(Some(Number(Integer(IntegerResult(b, Ints(args))))))
  {}

  /** What `*`, `+` and `-` compute once an argument is a float: product, sum and negated sum of floats. */
  function FloatResult(b: Builtin, fs: seq<F64>): F64
    requires b in {Times, Plus, Minus}
  {
    match b
    case Times => Product(fs)
    case Plus => Sum(fs)
    case Minus => NegatedFloatSum(fs)
  }

  lemma ApplyToMixed(b: Builtin, args: seq<Value>)
    requires b in {Times, Plus, Minus} && AllNumbers(args) && !AllIntegers(args)
    ensures Apply(b, args) == Ok(Some(Number(Float(FloatResult(b, AsFloats(args))))))
  {}

  /** `list` builds a list that `car` and `cdr` take apart again. */
  lemma {:induction false} CarCdrOfList(args: seq<Value>)
    requires args != []
    ensures Apply(Car, [List(args)]) == Ok(Some(args[0]))
    ensures Apply(Cdr, [List(args)]) == Ok(Some(List(args[1..])))
    ensures [Apply(Car, [List(args)]).value.value] + Apply(Cdr, [List(args)]).value.value.xs == args
  {}

  /** `begin` yields its last argument: vector `pop`. */
  lemma BeginLast(init: seq<Value>, last: Value)
    ensures Apply(Begin, init + [last]) == Ok(Some(last))
  {}

  /** The sum and product folds split at any point of their input. */
  lemma {:induction false} IntSumAppend(xs: seq<int>, ys: seq<int>)
    ensures IntSum(xs + ys) == IntSum(xs) + IntSum(ys)
    decreases |ys|
  {
    if ys == [] {
      assert xs + ys == xs;
    } else {
      var init := ys[..|ys| - 1];
      assert (xs + ys)[..|xs + ys| - 1] == xs + init;
      IntSumAppend(xs, init);
    }
  }

  lemma {:induction false} IntProductAppend(xs: seq<int>, ys: seq<int>)
    ensures IntProduct(xs + ys) == IntProduct(xs) * IntProduct(ys)
    decreases |ys|
  {
    if ys == [] {
      assert xs + ys == xs;
    } else {
      var init, last := ys[..|ys| - 1], ys[|ys| - 1];
      var a, b := IntProduct(xs), IntProduct(init);
      calc {
        IntProduct(xs + ys);
      == { assert (xs + ys)[..|xs + ys| - 1] == xs + init && (xs + ys)[|xs + ys| - 1] == last; }
        IntProduct(xs + init) * last;
      == { IntProductAppend(xs, init); }
        (a * b) * last;
      == { assert (a * b) * last == a * (b * last); }
        a * (b * last);
      }
    }
  }

  /** The bindings `setup` puts into the root scope. */
  function Root(): (m: map<string, Value>)
    ensures m.Keys == {"pi", "begin", "print", "*", "+", "-", "/", "list", "car", "cdr"}
    ensures m["pi"] == Number(Float(Pi))
    ensures forall b: Builtin :: NameOf(b) in m && m[NameOf(b)] == Proc(b)
  {
    map[
      "pi" := Number(Float(Pi)),
      "begin" := Proc(Begin),
      "print" := Proc(Print),
      "*" := Proc(Times),
      "+" := Proc(Plus),
      "-" := Proc(Minus),
      "/" := Proc(Divide),
      "list" := Proc(MakeList),
      "car" := Proc(Car),
      "cdr" := Proc(Cdr)
    ]
  }

  /** `setup`: build the root map by successive inserts into an empty map. */
  method Setup() returns (m: map<string, Value>)
    ensures m == Root()
    ensures "define" !in m
  {
    m := map[];
    m := m["pi" := Number(Float(Pi))];
    m := m["begin" := Proc(Begin)];
    m := m["print" := Proc(Print)];
    m := m["*" := Proc(Times)];
    m := m["+" := Proc(Plus)];
    m := m["-" := Proc(Minus)];
    m := m["/" := Proc(Divide)];
    m := m["list" := Proc(MakeList)];
    m := m["car" := Proc(Car)];
    m := m["cdr" := Proc(Cdr)];
  }
}
