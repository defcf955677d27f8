/**
 * `datatype2str`: the text a value prints as. How an `f64` and a procedure
 * are formatted (`{}` of a float, `{:?}` of a closure) is outside the model
 * and given as parameters.
 */
module Printer {
  import opened Wrappers
  import opened Floats
  import opened Integers
  import opened Values

  /** Strings joined with one space between neighbours (`join(" ")`). */
  function JoinSpaced(ss: seq<string>): (s: string)
    ensures ss == [] ==> s == []
    ensures |ss| == 1 ==> s == ss[0]
  {
    if ss == [] then [] else if |ss| == 1 then ss[0] else ss[0] + " " + JoinSpaced(ss[1..])
  }

  /**
   * `datatype2str`. A printed integer reads back as the same integer when it
   * is in the `i64` range, a symbol prints as its name, and a list is
   * quoted and parenthesised.
   */
  function Render(v: Value, floatText: F64 -> string, procText: Builtin -> string): (s: string)
    ensures v.Number? && v.n.Integer? ==> ParseI64(s) == if InI64(v.n.i) then Some(v.n.i) else None
    ensures v.Symbol? ==> s == v.s
    ensures v.List? ==> |s| >= 3 && s[..2] == "'(" && s[|s| - 1] == ')'
    decreases v, 1
  {
    match v
    case Number(Integer(i)) => ParseFormatted(i); IntToStr(i)
    case Number(Float(f)) => floatText(f)
    case Symbol(s) => s
    case Proc(p) => procText(p)
    case List(xs) => "'(" + JoinSpaced(RenderAll(xs, floatText, procText)) + ")"
  }

  function RenderAll(xs: seq<Value>, floatText: F64 -> string, procText: Builtin -> string): (ss: seq<string>)
    ensures |ss| == |xs|
    decreases xs, 0
  {
    if xs == [] then [] else [Render(xs[0], floatText, procText)] + RenderAll(xs[1..], floatText, procText)
  }

  lemma {:induction false} RenderAllElements(xs: seq<Value>, floatText: F64 -> string, procText: Builtin -> string)
    ensures forall k :: 0 <= k < |xs| ==>
      RenderAll(xs, floatText, procText)[k] == Render(xs[k], floatText, procText)
    decreases |xs|
  {
    if xs != [] {
      RenderAllElements(xs[1..], floatText, procText);
    }
  }

  /** The length of a space-joined text: every part plus one separator between neighbours. */
  function TotalLength(ss: seq<string>): nat {
    if ss == [] then 0 else |ss[0]| + TotalLength(ss[1..])
  }

  lemma {:induction false} JoinSpacedLength(ss: seq<string>)
    ensures |JoinSpaced(ss)| == TotalLength(ss) + (if ss == [] then 0 else |ss| - 1)
    decreases |ss|
  {
    if |ss| > 1 {
      JoinSpacedLength(ss[1..]);
    }
  }

  /**
   * A list prints as a quote, its elements' texts in order between
   * parentheses, separated by single spaces, whatever the elements are.
   */
  lemma {:induction false} RenderList(xs: seq<Value>, floatText: F64 -> string, procText: Builtin -> string)
    ensures var s := Render(List(xs), floatText, procText);
      |s| >= 3 && s[..2] == "'(" && s[|s| - 1] == ')' &&
      s[2..|s| - 1] == JoinSpaced(RenderAll(xs, floatText, procText))
  {
  }
}
