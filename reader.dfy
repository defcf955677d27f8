/**
 * The recursive-descent reader: `read_from_tokens` and `atom`, and `parse`,
 * which runs the tokenizer first.
 *
 * Whether a token is an `f64` literal is left open: every function here takes
 * the test as a parameter `isFloat`, standing for `token.parse::<f64>().is_ok()`.
 */
module Reader {
  import opened Wrappers
  import opened Floats
  import opened Integers
  import Tokenizer

  datatype Ast =
    | Integer(i: int)
    | Float(f: F64)
    | Symbol(s: string)
    | Children(xs: seq<Ast>)

  /** A parsed form and the tokens after it. */
  datatype ReadResult = ReadResult(remain: seq<string>, result: Ast)

  const UnexpectedEof := "unexpected EOF while reading"
  const UnexpectedClose := "unexpected )"
  const SyntaxError := "syntax error"

  /** `atom`: an `i64` if the token parses as one, else an `f64` if it parses as one, else a symbol. */
  function Atom(token: string, isFloat: string -> bool): (a: Ast)
    ensures a.Integer? <==> ParseI64(token).Some?
    ensures a.Integer? ==> Some(a.i) == ParseI64(token)
    ensures a.Float? <==> ParseI64(token).None? && isFloat(token)
    ensures a.Float? ==> a.f == Parsed(token)
    ensures a.Symbol? <==> ParseI64(token).None? && !isFloat(token)
    ensures a.Symbol? ==> a.s == token
  {
    match ParseI64(token)
    case Some(i) => Integer(i)
    case None => if isFloat(token) then Float(Parsed(token)) else Symbol(token)
  }

  /** `r` is what is left of `ts` after some tokens were taken off its front. */
  predicate IsSuffix(r: seq<string>, ts: seq<string>) {
    |r| <= |ts| && r == ts[|ts| - |r|..]
  }

  /**
   * `read_from_tokens`: one form from the front of `tokens`.
   * A success always consumes at least one token; the error depends only on
   * the first token.
   */
  function Read(tokens: seq<string>, isFloat: string -> bool): (r: Result<ReadResult>)
    ensures r.Ok? ==> |r.value.remain| < |tokens|
    ensures r.Err? && tokens == [] ==> r.msg == UnexpectedEof
    ensures r.Err? && tokens != [] && tokens[0] == ")" ==> r.msg == UnexpectedClose
    ensures r.Err? && tokens != [] && tokens[0] != ")" ==> r.msg == SyntaxError
    decreases |tokens|, 0
  {
    if tokens == [] then Err(UnexpectedEof)
    else if tokens[0] == "(" then ReadList(tokens[1..], [], isFloat)
    else if tokens[0] == ")" then Err(UnexpectedClose)
    else Ok(ReadResult(tokens[1..], Atom(tokens[0], isFloat)))
  }

  /**
   * The `while` loop of `read_from_tokens` after a `(`: `acc` holds the forms
   * read so far, `ts` the tokens not yet consumed. It reads forms until the
   * next token is `)` and consumes that `)`. Running out of tokens, here or in
   * any nested list, is a syntax error.
   */
  function ReadList(ts: seq<string>, acc: seq<Ast>, isFloat: string -> bool): (r: Result<ReadResult>)
    ensures r.Ok? ==> |r.value.remain| < |ts|
    ensures r.Err? ==> r.msg == SyntaxError
    decreases |ts|, 1
  {
    if ts == [] then Err(SyntaxError)
    else if ts[0] == ")" then Ok(ReadResult(ts[1..], Children(acc)))
    else
      match Read(ts, isFloat)
      case Err(e) => Err(e)
      case Ok(p) => ReadList(p.remain, acc + [p.result], isFloat)
  }

  /** `read_from_tokens`, taking tokens off the front of a vector in a loop. */
  method ReadFromTokens(tokens: seq<string>, isFloat: string -> bool) returns (r: Result<ReadResult>)
    ensures r == Read(tokens, isFloat)
    decreases |tokens|
  {
    if |tokens| > 0 {
      var token := tokens[0];
      var rest := tokens[1..];
      if token == "(" {
        var vec: seq<Ast> := [];
        var tmpTokens := rest;
        if tmpTokens == [] {
          return Err(SyntaxError);
        }
        while tmpTokens != [] && tmpTokens[0] != ")"
          invariant |tmpTokens| < |tokens|
          invariant ReadList(tmpTokens, vec, isFloat) == Read(tokens, isFloat)
          decreases |tmpTokens|
        {
          var data := ReadFromTokens(tmpTokens, isFloat);
          match data
          case Ok(p) =>
            vec := vec + [p.result];
            tmpTokens := p.remain;
          case Err(e) =>
            return Err(e);
        }
        if tmpTokens == [] {
          return Err(SyntaxError);
        }
        tmpTokens := tmpTokens[1..];
        return Ok(ReadResult(tmpTokens, Children(vec)));
      } else if token == ")" {
        return Err(UnexpectedClose);
      } else {
        return Ok(ReadResult(rest, Atom(token, isFloat)));
      }
    } else {
      return Err(UnexpectedEof);
    }
  }

  /**
   * `parse`: tokenize the program, then read one form. The end-of-input
   * error comes exactly from a program without tokens, and a success
   * leaves the tokens after the form.
   */
  function Parse(program: string, isFloat: string -> bool): (r: Result<ReadResult>)
    ensures r == Err(UnexpectedEof) <==> Tokenizer.Tokens(program) == []
    ensures r.Ok? ==> IsSuffix(r.value.remain, Tokenizer.Tokens(program))
  {
    var tokens := Tokenizer.Tokens(program);
    if Read(tokens, isFloat).Ok? then ReadConsumes(tokens, isFloat); Read(tokens, isFloat)
    else Read(tokens, isFloat)
  }

  // ---------------------------------------------------------------------
  // What a successful read consumes

  /**
   * A successful read leaves a strict suffix of its input; reading a list
   * yields a `Children` node, and the last token it consumed is `)`.
   */
  lemma {:induction false} ReadConsumes(tokens: seq<string>, isFloat: string -> bool)
    requires Read(tokens, isFloat).Ok?
    ensures var p := Read(tokens, isFloat).value;
      && IsSuffix(p.remain, tokens)
      && (tokens[0] == "(" ==> p.result.Children? && tokens[|tokens| - |p.remain| - 1] == ")")
      && (tokens[0] != "(" ==> p.remain == tokens[1..] && p.result == Atom(tokens[0], isFloat))
    decreases |tokens|, 0
  {
    if tokens[0] == "(" {
      ReadListConsumes(tokens[1..], [], isFloat);
    }
  }

  /** A successful list read extends the accumulator and consumes up to and including a `)`. */
  lemma {:induction false} ReadListConsumes(ts: seq<string>, acc: seq<Ast>, isFloat: string -> bool)
    requires ReadList(ts, acc, isFloat).Ok?
    ensures var p := ReadList(ts, acc, isFloat).value;
      && IsSuffix(p.remain, ts)
      && ts[|ts| - |p.remain| - 1] == ")"
      && p.result.Children? && acc <= p.result.xs
    decreases |ts|, 1
  {
    if ts[0] != ")" {
      var q := Read(ts, isFloat).value;
      ReadConsumes(ts, isFloat);
      ReadListConsumes(q.remain, acc + [q.result], isFloat);
      var p := ReadList(ts, acc, isFloat).value;
      assert q.remain[|q.remain| - |p.remain| - 1] == ts[|ts| - |p.remain| - 1];
    }
  }

  // ---------------------------------------------------------------------
  // Errors

  /** No prefix of `ts` holds more `)` tokens than `(` tokens. */
  predicate NeverCloses(ts: seq<string>) {
    forall n :: 0 <= n <= |ts| ==> Tokenizer.TokenCount(ts[..n], ")") <= Tokenizer.TokenCount(ts[..n], "(")
  }

  /** The run a successful read consumes holds as many `)` tokens as `(` tokens. */
  lemma {:induction false} ReadBalanced(ts: seq<string>, isFloat: string -> bool)
    requires Read(ts, isFloat).Ok?
    ensures var m := |ts| - |Read(ts, isFloat).value.remain|;
      Tokenizer.TokenCount(ts[..m], ")") == Tokenizer.TokenCount(ts[..m], "(")
    decreases |ts|, 0
  {
    var m := |ts| - |Read(ts, isFloat).value.remain|;
    ReadConsumes(ts, isFloat);
    if ts[0] == "(" {
      var inner := ts[1..];
      ReadListBalanced(inner, [], isFloat);
      assert ts[..m] == [ts[0]] + inner[..m - 1];
      CountsAfterToken(ts[0], inner[..m - 1]);
    } else {
      assert m == 1 && ts[..m] == [ts[0]];
      Tokenizer.TokenCountSingle(ts[0], ")");
      Tokenizer.TokenCountSingle(ts[0], "(");
    }
  }

  /** Putting one token in front of a run adds it to the count it matches. */
  lemma CountsAfterToken(t: string, r: seq<string>)
    ensures Tokenizer.TokenCount([t] + r, ")") == Tokenizer.TokenCount(r, ")") + (if t == ")" then 1 else 0)
    ensures Tokenizer.TokenCount([t] + r, "(") == Tokenizer.TokenCount(r, "(") + (if t == "(" then 1 else 0)
  {
    Tokenizer.TokenCountAppend([t], r, ")");
    Tokenizer.TokenCountAppend([t], r, "(");
    Tokenizer.TokenCountSingle(t, ")");
    Tokenizer.TokenCountSingle(t, "(");
  }

  /** A prefix of `ts` is a shorter prefix followed by a prefix of the rest. */
  lemma PrefixSplit(ts: seq<string>, m: nat, n: nat)
    requires m + n <= |ts|
    ensures ts[..m + n] == ts[..m] + ts[m..][..n]
  {
    var a, b := ts[..m], ts[m..][..n];
    assert |a + b| == m + n;
    forall k | 0 <= k < m + n
      ensures ts[..m + n][k] == (a + b)[k]
    {
      if k < m {
        assert (a + b)[k] == a[k];
      } else {
        assert (a + b)[k] == b[k - m];
      }
    }
  }

  /** A balanced run followed by a run with one `)` too many has one `)` too many. */
  lemma CountsAfterRun(ts: seq<string>, m1: nat, m2: nat, open: string, close: string)
    requires m1 + m2 <= |ts|
    requires Tokenizer.TokenCount(ts[..m1], close) == Tokenizer.TokenCount(ts[..m1], open)
    requires Tokenizer.TokenCount(ts[m1..][..m2], close) == Tokenizer.TokenCount(ts[m1..][..m2], open) + 1
    ensures Tokenizer.TokenCount(ts[..m1 + m2], close) == Tokenizer.TokenCount(ts[..m1 + m2], open) + 1
  {
    var a, b := ts[..m1], ts[m1..][..m2];
    PrefixSplit(ts, m1, m2);
    Tokenizer.TokenCountAppend(a, b, close);
    Tokenizer.TokenCountAppend(a, b, open);
  }

  /** The run a successful list read consumes holds one `)` token more than `(` tokens. */
  lemma {:induction false} ReadListBalanced(ts: seq<string>, acc: seq<Ast>, isFloat: string -> bool)
    requires ReadList(ts, acc, isFloat).Ok?
    ensures var m := |ts| - |ReadList(ts, acc, isFloat).value.remain|;
      Tokenizer.TokenCount(ts[..m], ")") == Tokenizer.TokenCount(ts[..m], "(") + 1
    decreases |ts|, 1
  {
    var m := |ts| - |ReadList(ts, acc, isFloat).value.remain|;
    if ts[0] == ")" {
      assert m == 1 && ts[..m] == [ts[0]];
      Tokenizer.TokenCountSingle(ts[0], ")");
      Tokenizer.TokenCountSingle(ts[0], "(");
    } else {
      assert Read(ts, isFloat).Ok?;
      var q := Read(ts, isFloat).value;
      ReadConsumes(ts, isFloat);
      ReadBalanced(ts, isFloat);
      var m1 := |ts| - |q.remain|;
      assert q.remain == ts[m1..];
      ReadListStep(ts, acc, q.remain, q.result, isFloat);
      ReadListBalanced(q.remain, acc + [q.result], isFloat);
      var m2 := |q.remain| - |ReadList(q.remain, acc + [q.result], isFloat).value.remain|;
      assert m == m1 + m2;
      CountsAfterRun(ts, m1, m2, "(", ")");
    }
  }

  /** Dropping a run that opens and closes equally many lists keeps `NeverCloses`. */
  lemma NeverClosesAfter(ts: seq<string>, m: nat)
    requires m <= |ts| && NeverCloses(ts)
    requires Tokenizer.TokenCount(ts[..m], ")") == Tokenizer.TokenCount(ts[..m], "(")
    ensures NeverCloses(ts[m..])
  {
    var r := ts[m..];
    forall n | 0 <= n <= |r|
      ensures Tokenizer.TokenCount(r[..n], ")") <= Tokenizer.TokenCount(r[..n], "(")
    {
      PrefixSplit(ts, m, n);
      Tokenizer.TokenCountAppend(ts[..m], r[..n], ")");
      Tokenizer.TokenCountAppend(ts[..m], r[..n], "(");
    }
  }

  /**
   * A list whose tokens never close more lists than they open cannot be
   * closed: running out of tokens, at any depth, is a syntax error.
   */
  lemma {:induction false} UnclosedList(ts: seq<string>, acc: seq<Ast>, isFloat: string -> bool)
    requires NeverCloses(ts)
    ensures ReadList(ts, acc, isFloat) == Err(SyntaxError)
    decreases |ts|
  {
    if ts != [] {
      assert ts[0] != ")" by {
        assert ts[..1] == [ts[0]];
        Tokenizer.TokenCountSingle(ts[0], ")");
        Tokenizer.TokenCountSingle(ts[0], "(");
        assert Tokenizer.TokenCount(ts[..1], ")") <= Tokenizer.TokenCount(ts[..1], "(");
      }
      if Read(ts, isFloat).Ok? {
        var q := Read(ts, isFloat).value;
        ReadConsumes(ts, isFloat);
        ReadBalanced(ts, isFloat);
        var m := |ts| - |q.remain|;
        NeverClosesAfter(ts, m);
        UnclosedList(q.remain, acc + [q.result], isFloat);
      }
    }
  }

  /** A run without any `)` token never closes a list. */
  lemma NoCloseNeverCloses(ts: seq<string>)
    requires forall k :: 0 <= k < |ts| ==> ts[k] != ")"
    ensures NeverCloses(ts)
  {
    forall n | 0 <= n <= |ts|
      ensures Tokenizer.TokenCount(ts[..n], ")") == 0
    {
      NoCloseCount(ts[..n]);
    }
  }

  lemma {:induction false} NoCloseCount(ts: seq<string>)
    requires forall k :: 0 <= k < |ts| ==> ts[k] != ")"
    ensures Tokenizer.TokenCount(ts, ")") == 0
  {
    if ts != [] {
      NoCloseCount(ts[1..]);
    }
  }

  /** An open paren followed by tokens that never close it reads as a syntax error. */
  lemma UnterminatedForm(ts: seq<string>, isFloat: string -> bool)
    requires NeverCloses(ts)
    ensures Read(["("] + ts, isFloat) == Err(SyntaxError)
  {
    assert (["("] + ts)[1..] == ts;
    UnclosedList(ts, [], isFloat);
  }

  // ---------------------------------------------------------------------
  // Reading back the printed form of an AST

  /** A token that `tokenize` produces whole and that is not a paren. */
  predicate IsAtomToken(t: string) {
    Tokenizer.IsToken(t) && !Tokenizer.HasParen(t)
  }

  /** An AST the reader can produce: atoms that read back as themselves. */
  predicate WellFormed(a: Ast, isFloat: string -> bool) {
    match a
    case Integer(i) => InI64(i)
    case Float(f) => f.Parsed? && IsAtomToken(f.text) && ParseI64(f.text).None? && isFloat(f.text)
    case Symbol(s) => IsAtomToken(s) && ParseI64(s).None? && !isFloat(s)
    case Children(xs) => forall k :: 0 <= k < |xs| ==> WellFormed(xs[k], isFloat)
  }

  /** The tokens of an AST in its printed form. */
  function Unparse(a: Ast): seq<string> {
    match a
    case Integer(i) => [IntToStr(i)]
    case Float(f) => (match f case Parsed(t) => [t] case _ => [])
    case Symbol(s) => [s]
    case Children(xs) => ["("] + UnparseAll(xs) + [")"]
  }

  function UnparseAll(xs: seq<Ast>): seq<string> {
    if xs == [] then [] else Unparse(xs[0]) + UnparseAll(xs[1..])
  }

  lemma ParensAreNotAtomTokens()
    ensures Tokenizer.HasParen("(") && Tokenizer.HasParen(")")
  {
    assert Tokenizer.IsParen("("[0]) && Tokenizer.IsParen(")"[0]);
  }

  lemma IntegerToken(i: int)
    ensures IsAtomToken(IntToStr(i))
  {
    var t := IntToStr(i);
    assert forall k :: 0 <= k < |t| ==> t[k] == '-' || IsDigit(t[k]);
  }

  /** A single atom token reads as its atom. */
  lemma ReadAtomToken(t: string, rest: seq<string>, isFloat: string -> bool)
    requires IsAtomToken(t)
    ensures Read([t] + rest, isFloat) == Ok(ReadResult(rest, Atom(t, isFloat)))
  {
    ParensAreNotAtomTokens();
    assert ([t] + rest)[0] == t && ([t] + rest)[1..] == rest;
  }

  /** One pass of the loop: a form read from the front of the list is appended to the accumulator. */
  lemma ReadListStep(ts: seq<string>, acc: seq<Ast>, tail: seq<string>, x: Ast, isFloat: string -> bool)
    requires ts != [] && ts[0] != ")"
    requires Read(ts, isFloat) == Ok(ReadResult(tail, x))
    ensures ReadList(ts, acc, isFloat) == ReadList(tail, acc + [x], isFloat)
  {
  }

  /** The printed form of a well-formed AST is non-empty and does not start with `)`. */
  lemma UnparseHead(a: Ast, isFloat: string -> bool)
    requires WellFormed(a, isFloat)
    ensures Unparse(a) != [] && Unparse(a)[0] != ")"
  {
    ParensAreNotAtomTokens();
    if a.Integer? {
      IntegerToken(a.i);
    }
  }

  /** Reading the printed form of a well-formed AST gives the AST back and leaves the rest. */
  lemma {:induction false} ReadUnparse(a: Ast, rest: seq<string>, isFloat: string -> bool)
    requires WellFormed(a, isFloat)
    ensures Read(Unparse(a) + rest, isFloat) == Ok(ReadResult(rest, a))
    decreases a, 0
  {
    match a
    case Integer(i) =>
      ParseFormatted(i);
      IntegerToken(i);
      ReadAtomToken(IntToStr(i), rest, isFloat);
    case Float(f) =>
      ReadAtomToken(f.text, rest, isFloat);
    case Symbol(s) =>
      ReadAtomToken(s, rest, isFloat);
    case Children(xs) =>
      var ts := Unparse(a) + rest;
      assert ts[0] == "(" && ts[1..] == UnparseAll(xs) + [")"] + rest;
      ReadListUnparse(xs, [], rest, isFloat);
      assert [] + xs == xs;
  }

  lemma {:induction false} ReadListUnparse(xs: seq<Ast>, acc: seq<Ast>, rest: seq<string>, isFloat: string -> bool)
    requires forall k :: 0 <= k < |xs| ==> WellFormed(xs[k], isFloat)
    ensures ReadList(UnparseAll(xs) + [")"] + rest, acc, isFloat) == Ok(ReadResult(rest, Children(acc + xs)))
    decreases xs, 1
  {
    if xs == [] {
      assert UnparseAll(xs) + [")"] + rest == [")"] + rest;
      assert acc + xs == acc;
    } else {
      var tail := UnparseAll(xs[1..]) + [")"] + rest;
      UnparseHead(xs[0], isFloat);
      ReadUnparse(xs[0], tail, isFloat);
      assert forall k :: 0 <= k < |xs[1..]| ==> xs[1..][k] == xs[k + 1];
      ReadListUnparse(xs[1..], acc + [xs[0]], rest, isFloat);
      var ts := UnparseAll(xs) + [")"] + rest;
      UnparseAllCons(xs, rest);
      assert ts[0] == Unparse(xs[0])[0];
      ReadListStep(ts, acc, tail, xs[0], isFloat);
      assert acc + [xs[0]] + xs[1..] == acc + xs;
    }
  }

  /** The printed run of a non-empty list of forms, followed by `)` and more, starts with its first form. */
  lemma UnparseAllCons(xs: seq<Ast>, rest: seq<string>)
    requires xs != []
    ensures UnparseAll(xs) + [")"] + rest == Unparse(xs[0]) + (UnparseAll(xs[1..]) + [")"] + rest)
  {
    var head, tail := Unparse(xs[0]), UnparseAll(xs[1..]);
    assert UnparseAll(xs) == head + tail;
    assert head + tail + [")"] + rest == head + (tail + [")"] + rest);
  }

  // ---------------------------------------------------------------------
  // From text: parsing the printed program text of an AST

  lemma {:induction false} UnparseTokens(a: Ast, isFloat: string -> bool)
    requires WellFormed(a, isFloat)
    ensures forall k :: 0 <= k < |Unparse(a)| ==> Tokenizer.IsToken(Unparse(a)[k])
    decreases a, 0
  {
    match a
    case Integer(i) => IntegerToken(i);
    case Float(f) =>
    case Symbol(s) =>
    case Children(xs) =>
      UnparseAllTokens(xs, isFloat);
      assert Tokenizer.IsToken("(") && Tokenizer.IsToken(")");
  }

  lemma {:induction false} UnparseAllTokens(xs: seq<Ast>, isFloat: string -> bool)
    requires forall k :: 0 <= k < |xs| ==> WellFormed(xs[k], isFloat)
    ensures forall k :: 0 <= k < |UnparseAll(xs)| ==> Tokenizer.IsToken(UnparseAll(xs)[k])
    decreases xs, 1
  {
    if xs != [] {
      UnparseTokens(xs[0], isFloat);
      UnparseAllTokens(xs[1..], isFloat);
    }
  }

  /**
   * `parse` inverts printing: the tokens of a well-formed AST, written out
   * with spaces, parse back to that AST with nothing left over.
   */
  lemma ParseUnparse(a: Ast, isFloat: string -> bool)
    requires WellFormed(a, isFloat)
    ensures Parse(Tokenizer.Spaced(Unparse(a)), isFloat) == Ok(ReadResult([], a))
  {
    UnparseTokens(a, isFloat);
    Tokenizer.TokensOfSpaced(Unparse(a));
    ReadUnparse(a, [], isFloat);
    assert Unparse(a) + [] == Unparse(a);
  }
}
