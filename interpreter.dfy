/**
 * The environment as the running interpreter holds it: one local map that
 * `define` updates in place, shared by every evaluation, and a fixed parent.
 * `Evaluate` does the work `eval` does on that state and matches the
 * evaluation function step for step.
 */
module Interpreter {
  import opened Wrappers
  import opened Values
  import opened Environment
  import opened Builtins
  import opened Evaluator
  import Reader

  /** How a call of `Evaluate` ends: with an answer, or with the panic's message. */
  datatype Completion = Returned(answer: Answer) | Aborted(msg: string)

  class Scope {
    var local: map<string, Value>
    const parent: Option<Env>

    /** The environment value this scope currently stands for. */
    function Snapshot(): Env
      reads this
    {
      Env(local, parent)
    }

    /** `main`'s environment: the map `setup` builds and no parent. */
    constructor Init()
      ensures Snapshot() == Env(Root(), None)
    {
      var m := Setup();
      local := m;
      parent := None;
    }

    /** The `borrow_mut().insert` of `define`: one binding of the local map is written. */
    method Insert(name: string, v: Value)
      modifies this
      ensures Snapshot() == Define(old(Snapshot()), name, v)
    {
      local := local[name := v];
    }

    /**
     * `eval` on the shared scope. It ends as the evaluation function says:
     * aborted with the same message when that panics, and otherwise with the
     * same answer and with this scope holding the environment it leaves.
     */
    method Evaluate(a: Ast) returns (c: Completion)
      modifies this
      ensures c.Aborted? <==> EvalAst(a, old(Snapshot())).Panicked?
      ensures c.Aborted? ==> c.msg == EvalAst(a, old(Snapshot())).msg
      ensures c.Returned? ==> c.answer == EvalAst(a, old(Snapshot())).result
      ensures c.Returned? ==> Snapshot() == EvalAst(a, old(Snapshot())).env
      decreases a
    {
      match a {
        case Integer(i) =>
          c := Returned(Ok(Some(Number(Integer(i)))));
        case Float(f) =>
          c := Returned(Ok(Some(Number(Float(f)))));
        case Symbol(s) =>
          var v := Get(Snapshot(), s);
          c := if v.Some? then Returned(Ok(v)) else Returned(Err(SymbolNotDefined));
        case Children(list) =>
          if list == [] || !list[0].Symbol? {
            return Returned(Err(Reader.SyntaxError));
          }
          if list[0].s == "define" {
            if |list| < 3 || !list[1].Symbol? {
              return Returned(Err(WrongDefine));
            }
            if list[2].Children? {
              return Aborted(NotImplemented);
            }
            Insert(list[1].s, Stored(list[2]));
            return Returned(Ok(None));
          }
          var head := Get(Snapshot(), list[0].s);
          if !(head.Some? && head.value.Proc?) {
            return Returned(Err(ProcNotDefined));
          }
          ghost var env0 := Snapshot();
          var args: seq<Value> := [];
          var i := 1;
          while i < |list|
            invariant 1 <= i <= |list|
            invariant EvalArgs(list, i, Snapshot(), args) == EvalArgs(list, 1, env0, [])
            decreases |list| - i
          {
            ghost var before := Snapshot();
            var r := Evaluate(list[i]);
            match r {
              case Aborted(m) =>
                ArgumentPanics(list, i, before, args);
                return Aborted(m);
              case Returned(Ok(Some(v))) =>
                args := args + [v];
              case Returned(_) =>
            }
            i := i + 1;
          }
          c := Returned(Apply(head.value.p, args));
      }
    }
  }
}
