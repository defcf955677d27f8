/** The evaluator's values: numbers, symbols, native procedures and lists. */
module Values {
  import opened Floats

  datatype Number = Integer(i: int) | Float(f: F64)

  /**
   * The native procedures `setup` installs. They capture nothing, so a
   * procedure value is fully described by which one it is.
   */
  datatype Builtin = Begin | Print | Times | Plus | Minus | Divide | MakeList | Car | Cdr

  datatype Value =
    | Number(n: Number)
    | Symbol(s: string)
    | Proc(p: Builtin)
    | List(xs: seq<Value>)
}
