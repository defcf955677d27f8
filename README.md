# scheme-rs interpreter core in Dafny

This project models the interpreter core of scheme-rs, a small Lisp written in Rust (`src/main.rs`).
The core has four layers:

- **Tokenizer.** `tokenize` pads every `(` and `)` with spaces, then splits the text on Unicode whitespace.
- **Reader.** `read_from_tokens` is a recursive-descent reader. It takes tokens off the front and returns one AST node with the tokens left over. `atom` turns a single token into an `i64`, an `f64` or a symbol, in that order of preference.
- **Environment.** `Env` is a local name-to-value map plus an optional parent. `Env::get` looks in the local map first and then walks up the parent chain.
- **Evaluator.**
  - `eval` handles literals and symbols, and the special form `define`.
  - Every other list form is a call: the head symbol must name a native procedure.
  - `setup` installs `pi` and the procedures `begin`, `print`, `*`, `+`, `-`, `/`, `list`, `car` and `cdr`.
  - `datatype2str` renders a value as text.

Modules, one per file:

| file | module | contents |
|---|---|---|
| `wrappers.dfy` | `Wrappers` | `Option`, `Result` |
| `floats.dfy` | `Floats` | `f64` values kept as symbolic terms |
| `integers.dfy` | `Integers` | `str::parse::<i64>` and `format!("{}", i)` |
| `tokenizer.dfy` | `Tokenizer` | `tokenize` |
| `reader.dfy` | `Reader` | `AST`, `atom`, `read_from_tokens`, `parse` |
| `values.dfy` | `Values` | `Number`, `DataType` (here `Value`), the builtin procedures |
| `environment.dfy` | `Environment` | `Env`, `Env::get`, the `define` write |
| `builtins.dfy` | `Builtins` | the closures of `setup` and the root map |
| `printer.dfy` | `Printer` | `datatype2str` |
| `evaluator.dfy` | `Evaluator` | `eval` as a function of the expression and the environment |
| `interpreter.dfy` | `Interpreter` | the shared, mutable local map as a class, with `eval` as a method on it |
| `scenarios.dfy` | `Scenarios` | whole programs, from text to value |

The source changes state in several places. Each of those becomes imperative Dafny, proved equal to a specification function. The lemmas are then proved about that function.

- `Tokenizer.Tokenize` folds the characters with a loop, like `tokenize`.
- `Reader.ReadFromTokens` has the front-removing `while` loop of `read_from_tokens`.
- `Builtins.Setup` builds the root map by successive inserts.
- `Interpreter.Scope` holds the local map that `define` updates in place.
  - Its `Evaluate` method evaluates the arguments of a call in a loop, always on that same scope.
  - This matches how the source shares one `RefCell` map among all the `env.clone()` copies.

Which inputs parse as an `f64` is given as a parameter `isFloat` (see Left out).

In these places the model follows the code, which behaves differently than one might expect:

- An unclosed list such as `(+ 1 2` gives `"syntax error"`, not an end-of-input error.
  - `read_from_tokens` only reports "unexpected EOF while reading" when the token vector it *starts* with is empty.
  - That cannot happen inside a list, because the loop stops as soon as it runs out of tokens (`Scenarios.ParseUnterminated`).
- `define` does not insist on exactly three forms. `tuplet!` reads only `list.get(0..=2)`, so any forms after the third are ignored (`Evaluator.DefineBinds`).
- A `define` whose value is a list is not a syntax error. It reaches `unimplemented!()`, which panics and ends the process. This is modelled as the outcome `Panicked("not implemented")`, and it is not a recoverable error.
- A failing or valueless argument of a call is dropped, as the source does. The call goes ahead with fewer arguments (`Scenarios.EvalDropsFailedArgument`).
  - The alternative policy, where the first failing argument aborts the call, is `Evaluator.StrictArgs`. It is specified only for comparison.
  - The two agree whenever no argument fails (`Evaluator.PoliciesAgreeWithoutFailures`), and `Scenarios.StrictPolicyFails` shows an input where they differ.

## Model

| member | source | states |
|---|---|---|
| Integers.ParseI64 | src/main.rs:248 | `str::parse::<i64>`: success exactly on an optional sign followed by one or more digits whose signed value is in the `i64` range, and the result is that signed value |
| Integers.ParseFormatted | src/main.rs:567 | an integer formatted with `{}` parses back to itself when it is in the `i64` range, and fails to parse otherwise |
| Integers.DigitsOfNat | src/main.rs:567 | the decimal digits of a natural number denote that number |
| Tokenizer.Tokenize | src/main.rs:184-199 | the character fold and the whitespace split give exactly `Tokens(program)`; every token is well formed, and the tokens concatenate to the program minus its whitespace |
| Tokenizer.TokensAreTokens | src/main.rs:184-199 | no token is empty or contains whitespace, and a token containing a paren is exactly `"("` or `")"` |
| Tokenizer.TokensConcat | src/main.rs:184-199 | concatenating the tokens gives the input with all whitespace removed |
| Tokenizer.ParenTokens | src/main.rs:188-192 | there are exactly as many `"("` (`")"`) tokens as `(` (`)`) characters in the input |
| Tokenizer.BlankHasNoTokens | src/main.rs:196-197 | empty or all-whitespace input gives no tokens |
| Tokenizer.SplitSpaced | src/main.rs:196 | splitting words that each end in a space gives the words back |
| Tokenizer.TokensOfSpaced | src/main.rs:184-199 | tokens written out with a space after each tokenize back into the same tokens |
| Reader.Atom | src/main.rs:247-258 | `Integer` exactly when the `i64` parse succeeds; otherwise `Float` exactly when the `f64` parse succeeds; otherwise `Symbol` holding the token verbatim |
| Reader.Read | src/main.rs:201-245 | a success consumes at least one token; on an empty vector the error is "unexpected EOF while reading", on a leading `)` it is "unexpected )", otherwise "syntax error" |
| Reader.ReadList | src/main.rs:212-239 | the list loop consumes at least its closing `)`; any failure in it, including a nested one, is "syntax error" |
| Reader.ReadFromTokens | src/main.rs:201-245 | the front-removing loop returns exactly `Read(tokens)` |
| Reader.Parse | src/main.rs:175-182 | `parse`: the end-of-input error comes exactly from a program without tokens, and a success leaves a suffix of the program's tokens |
| Reader.ReadConsumes | src/main.rs:201-241 | on success `remain` is a suffix of the input; after `(` the result is `Children` and the last token consumed is `)`; otherwise the result is `atom(token)` and `remain` is the tail |
| Reader.ReadListConsumes | src/main.rs:212-239 | a successful list read consumes a run ending in `)`, and it keeps every form read so far, in order |
| Reader.UnclosedList | src/main.rs:212-224 | a list whose tokens never close more lists than they open, at any prefix, is a syntax error: running out of tokens inside it, at any depth, is "syntax error" |
| Reader.UnterminatedForm | src/main.rs:205-224 | `(` followed by tokens that never close it reads as "syntax error" |
| Reader.ReadBalanced | src/main.rs:201-245 | the tokens a successful read consumes hold as many `)` tokens as `(` tokens |
| Reader.ReadListBalanced | src/main.rs:212-239 | the tokens a successful list read consumes hold one `)` token more than `(` tokens |
| Reader.NoCloseNeverCloses | src/main.rs:212-224 | a run without any `)` token never closes a list, so it meets the condition of `UnclosedList` |
| Reader.ReadAtomToken | src/main.rs:234-240 | a single non-paren token reads as its atom and leaves the rest of the vector |
| Reader.ReadUnparse | src/main.rs:201-245 | reading the token form of a well-formed AST gives that AST back and leaves the following tokens alone |
| Reader.ReadListUnparse | src/main.rs:212-239 | the list loop reads the token forms of well-formed children back into those children |
| Reader.ParseUnparse | src/main.rs:175-182 | `parse` of the printed program text of a well-formed AST gives back that AST, with no tokens left over |
| Environment.Get | src/main.rs:126-143 | the local binding wins; with no local binding and no parent the lookup fails |
| Environment.Define | src/main.rs:285-287 | the write inserts or overwrites one binding in the local map, keeps every other local binding and keeps the parent |
| Environment.GetNearest | src/main.rs:126-143 | lookup fails exactly when no scope of the chain binds the name; otherwise it gives the binding in the nearest scope that has one |
| Environment.DefineEffect | src/main.rs:285-287 | a define makes the name look up to the new value, leaves every other name's lookup as it was, and leaves all outer scopes untouched |
| Builtins.Arithmetic | src/main.rs:366-466 | any argument that is not a number gives "wrong argument datatype"; the result is an `Integer` exactly when every argument is an integer, and a `Float` otherwise |
| Builtins.Division | src/main.rs:468-495 | every argument must be a number, and the result is always a float |
| Builtins.Selector | src/main.rs:502-543 | `car`/`cdr`: the arity, type and empty-list errors with their texts; success exactly on one non-empty list, giving its first element or the list of the rest |
| Builtins.Apply | src/main.rs:346-543 | the dispatch to each native procedure, with its error conditions: `begin` gives the last argument or nothing, `print` needs exactly one argument, `list` wraps its arguments |
| Builtins.MinusIsNegatedPlus | src/main.rs:432-466 | `-` fails exactly when `+` fails; it gives the negated integer sum on integers and the negated float sum otherwise |
| Builtins.ApplyToIntegers | src/main.rs:366-466 | on all-integer arguments, `*`, `+` and `-` give the product, the sum and the negated sum |
| Builtins.ApplyToMixed | src/main.rs:366-466 | once an argument is a float and all are numbers, `*`, `+` and `-` give the float product, sum and negated sum of the arguments as floats |
| Builtins.CarCdrOfList | src/main.rs:497-543 | `car` and `cdr` of a non-empty `list` give its head and its tail, and these put back together give the list |
| Builtins.BeginLast | src/main.rs:346-349 | `begin` yields its last argument |
| Builtins.IntSumAppend | src/main.rs:417-421 | the integer sum splits over concatenation |
| Builtins.IntProductAppend | src/main.rs:384-388 | the integer product splits over concatenation |
| Builtins.Root | src/main.rs:341-563 | the root map binds exactly `pi` and the nine procedure names, each name to its own procedure |
| Builtins.Setup | src/main.rs:341-563 | the successive inserts build exactly the root map, which has no `define` entry |
| Printer.Render | src/main.rs:565-573 | `datatype2str`: a printed integer parses back to itself when it is in the `i64` range, a symbol prints as its name, and a list prints between `'(` and `)` |
| Printer.RenderList | src/main.rs:571-572 | a list prints as `'(`, then its elements' texts joined by single spaces, then `)` |
| Printer.JoinSpaced | src/main.rs:572 | `join(" ")`: no parts join to the empty text, and a single part joins to itself |
| Printer.JoinSpacedLength | src/main.rs:572 | a space-joined text is as long as its parts plus one separator between each pair of neighbours |
| Evaluator.Stored | src/main.rs:284-287 | a `define` stores literals as numbers and a symbol as itself, unevaluated |
| Evaluator.EvalDefine | src/main.rs:280-292 | "wrong syntax for define expression" exactly when there are fewer than three forms or the name is not a symbol; a panic exactly when the value is a list; otherwise no value, the name bound to the stored value and every other name unchanged |
| Evaluator.EvalAst | src/main.rs:260-339 | evaluation never changes the parent scope and never removes a local binding |
| Evaluator.EvalArgs | src/main.rs:302-308 | the collected argument values extend what was collected before, at most one per argument |
| Evaluator.Eval | src/main.rs:328-336 | no expression evaluates to no value |
| Evaluator.EvalLiteral | src/main.rs:328-336 | `Integer` and `Float` literals become the matching `Number`, and nothing else changes |
| Evaluator.EvalSymbol | src/main.rs:264-269 | a symbol evaluates to its binding, and to "symbol is not defined." exactly when it is unbound |
| Evaluator.DefineBinds | src/main.rs:280-291 | `(define name v ...)` with a non-list `v` binds `name` to `v`, unevaluated, in the local scope; it yields no value and ignores further forms |
| Evaluator.DefineMalformed | src/main.rs:283-292 | a `define` without a value, or with a non-symbol name, gives "wrong syntax for define expression" and changes nothing |
| Evaluator.DefineOfList | src/main.rs:288 | a `define` whose value is a list panics with "not implemented" |
| Evaluator.BadForm | src/main.rs:274-276 | an empty list, or a list headed by a non-symbol, gives "syntax error" |
| Evaluator.HeadNotProcedure | src/main.rs:297-320 | a head that is unbound or not bound to a procedure gives "Symbol is not defined.", and the arguments are not evaluated |
| Evaluator.CallApplies | src/main.rs:301-318 | a call returns the procedure's answer on the collected arguments unchanged, in the environment the arguments left behind; a panic in an argument ends the call |
| Evaluator.DefineSeenByLaterArguments | src/main.rs:302-304 | a `define` among the arguments is seen by every later argument |
| Evaluator.ArgumentPanics | src/main.rs:288 | a panic in an argument is the outcome of the whole argument list |
| Evaluator.DefineFreeKeepsEnv | src/main.rs:260-339 | an expression without `define` cannot panic and leaves the environment as it was |
| Evaluator.DefineFreeArgs | src/main.rs:302-308 | arguments without `define` are collected as the reference definition says: each is evaluated in the same environment, values are kept in order, and failures and empty results are dropped |
| Evaluator.DefineFreeCall | src/main.rs:294-318 | a call with `define`-free arguments applies the procedure to exactly the surviving values |
| Evaluator.PoliciesAgreeWithoutFailures | src/main.rs:302-308 | when no argument fails, dropping failures (the source) and aborting on the first failure (the alternative) collect the same values and leave the same environment |
| Evaluator.IntegerArithmetic | src/main.rs:366-466 | `+`, `*` and `-` on integer literals evaluate to the sum, the product and the negated sum |
| Interpreter.Scope.Init | src/main.rs:149-154 | the interpreter starts with the `setup` map and no parent |
| Interpreter.Scope.Insert | src/main.rs:285-287 | the `borrow_mut().insert` writes one binding of the shared local map |
| Interpreter.Scope.Evaluate | src/main.rs:260-339 | `eval` on the shared mutable scope ends as `EvalAst` says: the same answer and the same resulting environment, or the same panic |
| Scenarios.TokenizeCall | src/main.rs:184-199 | `(+ 1 2)` tokenizes to `(`, `+`, `1`, `2`, `)` |
| Scenarios.ParseCall | src/main.rs:175-182 | `(+ 1 2)` parses to the list of `+`, 1 and 2, with no tokens left |
| Scenarios.ParseErrors | src/main.rs:232-243 | the empty token vector and a lone `)` are the end-of-input and stray-`)` errors |
| Scenarios.ParseUnterminated | src/main.rs:222-224 | the tokens of `(+ 1 2` read as "syntax error" |
| Scenarios.RootBinds | src/main.rs:341-563 | each of the nine procedures is found under its own name in the root environment |
| Scenarios.RootUnbound | src/main.rs:341-563 | a name other than the ten that `setup` installs is unbound in the root environment |
| Scenarios.RootArithmetic | src/main.rs:366-466 | in the root environment `*`, `+` and `-` on integer literals give the product, the sum and the negated sum |
| Scenarios.EvalSum | src/main.rs:399-430 | `(+ 1 2 3)` is 6 |
| Scenarios.EvalProduct | src/main.rs:366-397 | `(* 2 3 4)` is 24 |
| Scenarios.EvalDifference | src/main.rs:432-466 | `(- 1 2 3)` is -6 |
| Scenarios.EvalMixedSum | src/main.rs:399-430 | `(+ 1 2.0)` is the float sum of 1 and 2.0 |
| Scenarios.MixedSumIn | src/main.rs:399-430 | `(+ 1 2.0)` is that float sum in any environment where `+` is the builtin |
| Scenarios.IntegerPlusFloat | src/main.rs:399-430 | a call of `+` whose arguments come out as an integer and a float yields the float sum of the two |
| Scenarios.EvalList | src/main.rs:497-500 | `(list 1 2 3)` is the list of the three integers, wherever `list` is the builtin |
| Scenarios.EvalEmptyList | src/main.rs:497-500 | `(list)` is the empty list, wherever `list` is the builtin |
| Scenarios.EvalSquare | src/main.rs:366-397 | `(* r r)` with `r` bound to 10 is 100 |
| Scenarios.EvalArea | src/main.rs:366-397 | `(* pi (* r r))` with `r` bound to 10 is the float product of pi and 100 |
| Scenarios.AreaArguments | src/main.rs:302-308 | the arguments `pi` and `(* r r)` are passed on as pi and 100 |
| Scenarios.FloatTimesInteger | src/main.rs:366-397 | a call of `*` whose arguments come out as a float and an integer yields the float product of the two |
| Scenarios.IntegerTimesInteger | src/main.rs:366-397 | a call of `*` whose arguments come out as two integers yields their integer product |
| Scenarios.EvalDropsFailedArgument | src/main.rs:302-308 | `(+ 1 y 2)` with `y` unbound is 3 |
| Scenarios.DropsFailedIn | src/main.rs:302-308 | `(+ 1 y 2)` is 3 in any environment where `+` is the builtin and `y` is unbound |
| Scenarios.UnboundDropped | src/main.rs:302-308 | of the arguments `1 y 2` with `y` unbound only the two integers are passed on |
| Scenarios.StrictPolicyFails | src/main.rs:302-308 | for `(+ 1 y 2)` the source passes 1 and 2, while aborting on the first failure would give "symbol is not defined." |
| Scenarios.StrictFailsIn | src/main.rs:302-308 | the same contrast between the two policies in any environment where `y` is unbound |
| Scenarios.EvalCarCdr | src/main.rs:497-543 | `(car (list 1 2 3))` is 1 and `(cdr (list 1 2 3))` is the list of 2 and 3 |
| Scenarios.CarCdrIn | src/main.rs:497-543 | the same results in any environment where `list`, `car` and `cdr` are the builtins |
| Scenarios.EvalCarOfEmpty | src/main.rs:502-522 | `(car (list))` gives "car function requires a non-empty list" |
| Scenarios.CarOfEmptyIn | src/main.rs:502-522 | the same error in any environment where `list` and `car` are the builtins |
| Scenarios.EvalNotProcedure | src/main.rs:298-320 | calling an unknown name, or `pi`, gives "Symbol is not defined." |
| Scenarios.EvalNumberHead | src/main.rs:324-326 | `(1 2)` gives "syntax error" |
| Scenarios.EvalDefineThenUse | src/main.rs:280-318 | `(begin (define r 10) (* pi (* r r)))` yields the float product of pi and 100, and `r` stays bound afterwards |
| Scenarios.DefineThenUseIn | src/main.rs:280-318 | the same program evaluates the same way in any environment where `begin`, `*` and `pi` have their root bindings |
| Scenarios.DefineSymbolSession | src/main.rs:287 | `(define x y)` stores the symbol `y`, and `x` then evaluates to it |

## Left out

- `main` and `repl` (src/main.rs:146-173): reading stdin, echoing results with `{:?}` and the endless loop are I/O. Only the initial environment that `main` builds is modelled.
- Logging (`env_logger`, every `debug!`), and the `desc` strings the arithmetic closures build only for logging.
- `print` writes `datatype2str` of its argument to stdout. The model keeps its arity check and its `Ok(None)` result, but not the output line. The line's text is `Printer.Render`.
- Floating point. An `f64` is a symbolic term (`Floats.F64`) that names the operation producing it, so no property depends on float arithmetic.
  - This covers the float branches of `+`, `*` and `-`, the whole `/` fold with its `acc == 0.0` seed, and the value of `pi`.
  - Whether a token parses as an `f64` is the parameter `isFloat`. The reader and `atom` are proved for every choice of it.
  - How `datatype2str` formats a float, or a procedure (a pointer), is a parameter of `Printer.Render`.
- Builtins.Arithmetic: does not model `i64` overflow. Sums and products are mathematical integers, because Rust's result depends on the build: a debug build panics and a release build wraps. Integer literals are still limited to the `i64` range by `Integers.ParseI64`.
- Builtins.Division: the result is stated only as the symbolic fold over the arguments (`Floats.Quotient`). The `acc == 0.0` test inside the fold is float arithmetic.
- `Rc`, `RefCell`, lifetimes, and `Function`'s `Debug` implementation (src/main.rs:51-70). Procedures are a closed enumeration of the nine builtins.
- The `tuplet!` macro (src/main.rs:12-35) is modelled only by its effect at src/main.rs:278: its three results are `list.get(0)`, `list.get(1)` and `list.get(2)`.
- The token vector's spare capacity and the buffer cloning done by `tokenize` and `read_from_tokens`. They do not affect results.
- Deep recursion exhausting the native stack. Dafny's recursion is unbounded.
