/**
 * `tokenize`: every `(` and `)` is padded with a space on each side, then the
 * text is split on whitespace.
 */
module Tokenizer {

  predicate IsParen(c: char) { c == '(' || c == ')' }

  /** `char::is_whitespace`: the characters with the Unicode White_Space property. */
  predicate IsWhitespace(c: char) {
    || ('\t' <= c <= '\r')
    || c == ' '
    || c == '\U{0085}'
    || c == '\U{00A0}'
    || c == '\U{1680}'
    || ('\U{2000}' <= c <= '\U{200A}')
    || c == '\U{2028}'
    || c == '\U{2029}'
    || c == '\U{202F}'
    || c == '\U{205F}'
    || c == '\U{3000}'
  }

  predicate NoWhitespace(t: string) { forall k :: 0 <= k < |t| ==> !IsWhitespace(t[k]) }

  predicate HasParen(t: string) { exists k :: 0 <= k < |t| && IsParen(t[k]) }

  /** What every token is: non-empty, free of whitespace, and a lone paren if it holds one. */
  predicate IsToken(t: string) {
    && t != []
    && NoWhitespace(t)
    && (HasParen(t) ==> t == "(" || t == ")")
  }

  /** What the fold in `tokenize` pushes for one character. */
  function PadChar(c: char): string {
    if IsParen(c) then [' ', c, ' '] else [c]
  }

  /** The character buffer the fold in `tokenize` has built after reading `s`. */
  function Padded(s: string): string {
    if s == [] then [] else Padded(s[..|s| - 1]) + PadChar(s[|s| - 1])
  }

  function Flush(word: string): seq<string> {
    if word == [] then [] else [word]
  }

  /**
   * `split_whitespace` on `word + s`, where `word` is the part of the current
   * word already scanned.
   */
  function SplitFrom(s: string, word: string): seq<string>
    decreases |s|
  {
    if s == [] then Flush(word)
    else if IsWhitespace(s[0]) then Flush(word) + SplitFrom(s[1..], [])
    else SplitFrom(s[1..], word + [s[0]])
  }

  function SplitWhitespace(s: string): seq<string> {
    SplitFrom(s, [])
  }

  /** The token sequence `tokenize` returns for `program`. */
  function Tokens(program: string): seq<string> {
    SplitWhitespace(Padded(program))
  }

  /** `tokenize`: the character fold, then the split. */
  method Tokenize(program: string) returns (tokens: seq<string>)
    ensures tokens == Tokens(program)
    ensures forall k :: 0 <= k < |tokens| ==> IsToken(tokens[k])
    ensures Concat(tokens) == Strip(program)
  {
    var acc: string := [];
    for i := 0 to |program|
      invariant acc == Padded(program[..i])
    {
      var x := program[i];
      assert program[..i + 1][..i] == program[..i];
      if x == '(' || x == ')' {
        acc := acc + [' ', x, ' '];
      } else {
        acc := acc + [x];
      }
    }
    assert program[..|program|] == program;
    tokens := SplitWhitespace(acc);
    TokensAreTokens(program);
    TokensConcat(program);
  }

  function Concat(ts: seq<string>): string {
    if ts == [] then [] else ts[0] + Concat(ts[1..])
  }

  /** The text with every whitespace character removed. */
  function Strip(s: string): string {
    if s == [] then [] else (if IsWhitespace(s[0]) then [] else [s[0]]) + Strip(s[1..])
  }

  function Occurrences(s: string, c: char): nat {
    if s == [] then 0 else (if s[0] == c then 1 else 0) + Occurrences(s[1..], c)
  }

  function TokenCount(ts: seq<string>, t: string): nat {
    if ts == [] then 0 else (if ts[0] == t then 1 else 0) + TokenCount(ts[1..], t)
  }

  lemma TokenCountSingle(t: string, u: string)
    ensures TokenCount([t], u) == if t == u then 1 else 0
  {
    assert [t][1..] == [];
  }

  lemma {:induction false} TokenCountAppend(a: seq<string>, b: seq<string>, t: string)
    ensures TokenCount(a + b, t) == TokenCount(a, t) + TokenCount(b, t)
  {
    if a != [] {
      assert (a + b)[1..] == a[1..] + b;
      TokenCountAppend(a[1..], b, t);
    } else {
      assert a + b == b;
    }
  }

  // ---------------------------------------------------------------------
  // Concatenating the tokens gives the program without its whitespace.

  lemma {:induction false} ConcatAppend(a: seq<string>, b: seq<string>)
    ensures Concat(a + b) == Concat(a) + Concat(b)
  {
    if a != [] {
      assert (a + b)[1..] == a[1..] + b;
      ConcatAppend(a[1..], b);
      assert a[0] + (Concat(a[1..]) + Concat(b)) == (a[0] + Concat(a[1..])) + Concat(b);
    } else {
      assert a + b == b;
    }
  }

  lemma {:induction false} StripAppend(a: string, b: string)
    ensures Strip(a + b) == Strip(a) + Strip(b)
  {
    if a != [] {
      assert (a + b)[1..] == a[1..] + b;
      StripAppend(a[1..], b);
      var h := if IsWhitespace(a[0]) then [] else [a[0]];
      assert h + (Strip(a[1..]) + Strip(b)) == (h + Strip(a[1..])) + Strip(b);
    } else {
      assert a + b == b;
    }
  }

  lemma {:induction false} StripPadded(s: string)
    ensures Strip(Padded(s)) == Strip(s)
  {
    if s != [] {
      var init, c := s[..|s| - 1], s[|s| - 1];
      assert s == init + [c];
      StripPadded(init);
      StripAppend(Padded(init), PadChar(c));
      StripAppend(init, [c]);
      if IsParen(c) {
        assert PadChar(c) == [' '] + [c] + [' '];
        StripAppend([' '] + [c], [' ']);
        StripAppend([' '], [c]);
      }
    }
  }

  lemma {:induction false} SplitConcat(s: string, word: string)
    requires NoWhitespace(word)
    ensures Concat(SplitFrom(s, word)) == word + Strip(s)
    decreases |s|
  {
    if s == [] {
    } else if IsWhitespace(s[0]) {
      SplitConcat(s[1..], []);
      ConcatAppend(Flush(word), SplitFrom(s[1..], []));
    } else {
      SplitConcat(s[1..], word + [s[0]]);
    }
  }

  /** The tokens, concatenated, are the program with its whitespace removed. */
  lemma TokensConcat(program: string)
    ensures Concat(Tokens(program)) == Strip(program)
  {
    SplitConcat(Padded(program), []);
    StripPadded(program);
  }

  // ---------------------------------------------------------------------
  // Every token is a token: no empty or whitespace-holding token, and a
  // paren only ever stands alone.

  /** Every paren has whitespace (or the end of the text) on both sides. */
  predicate Isolated(t: string) {
    forall i :: 0 <= i < |t| && IsParen(t[i]) ==>
      (0 < i ==> IsWhitespace(t[i - 1])) && (i + 1 < |t| ==> IsWhitespace(t[i + 1]))
  }

  lemma {:induction false} PaddedIsolated(s: string)
    ensures Isolated(Padded(s))
    ensures Padded(s) != [] ==> !IsParen(Padded(s)[|Padded(s)| - 1])
  {
    if s != [] {
      var init, c := s[..|s| - 1], s[|s| - 1];
      PaddedIsolated(init);
      var p := Padded(init);
      var q := Padded(s);
      assert q == p + PadChar(c);
      forall i | 0 <= i < |q| && IsParen(q[i])
        ensures (0 < i ==> IsWhitespace(q[i - 1])) && (i + 1 < |q| ==> IsWhitespace(q[i + 1]))
      {
        if i < |p| {
          assert q[i] == p[i];
          assert i + 1 < |p| ==> q[i + 1] == p[i + 1];
        }
      }
    }
  }

  lemma IsolatedSuffix(t: string, n: nat)
    requires n <= |t| && Isolated(t)
    ensures Isolated(t[n..])
  {
    var u := t[n..];
    forall i | 0 <= i < |u| && IsParen(u[i])
      ensures (0 < i ==> IsWhitespace(u[i - 1])) && (i + 1 < |u| ==> IsWhitespace(u[i + 1]))
    {
      assert u[i] == t[n + i];
      assert 0 < i ==> u[i - 1] == t[n + i - 1];
      assert i + 1 < |u| ==> u[i + 1] == t[n + i + 1];
    }
  }

  /** A word with no whitespace, inside an isolated text, is a token. */
  lemma WordIsToken(word: string, s: string)
    requires word != [] && NoWhitespace(word)
    requires Isolated(word + s)
    ensures IsToken(word)
  {
    var t := word + s;
    // a paren inside the word would need whitespace next to it, inside the word
    forall j | 0 < j < |word|
      ensures !IsParen(word[j])
    {
      assert t[j - 1] == word[j - 1] && t[j] == word[j];
    }
    forall j | 0 <= j < |word| - 1
      ensures !IsParen(word[j])
    {
      assert t[j + 1] == word[j + 1] && t[j] == word[j];
    }
    if HasParen(word) {
      var k :| 0 <= k < |word| && IsParen(word[k]);
      assert k == 0 && |word| == 1;
      assert word == [word[0]];
    }
  }

  predicate AllTokens(ts: seq<string>) { forall k :: 0 <= k < |ts| ==> IsToken(ts[k]) }

  lemma AllTokensAppend(a: seq<string>, b: seq<string>)
    requires AllTokens(a) && AllTokens(b)
    ensures AllTokens(a + b)
  {
    forall k | 0 <= k < |a + b|
      ensures IsToken((a + b)[k])
    {
      if k < |a| {
        assert (a + b)[k] == a[k];
      } else {
        assert (a + b)[k] == b[k - |a|];
      }
    }
  }

  lemma FlushTokens(word: string, s: string)
    requires NoWhitespace(word) && Isolated(word + s)
    ensures AllTokens(Flush(word))
  {
    if word != [] {
      WordIsToken(word, s);
    }
  }

  lemma {:induction false} SplitTokens(s: string, word: string)
    requires NoWhitespace(word)
    requires Isolated(word + s)
    ensures AllTokens(SplitFrom(s, word))
    decreases |s|
  {
    FlushTokens(word, s);
    if s == [] {
      assert SplitFrom(s, word) == Flush(word);
    } else if IsWhitespace(s[0]) {
      var t := word + s;
      IsolatedSuffix(t, |word| + 1);
      assert [] + s[1..] == t[|word| + 1..];
      SplitTokens(s[1..], []);
      assert SplitFrom(s, word) == Flush(word) + SplitFrom(s[1..], []);
      AllTokensAppend(Flush(word), SplitFrom(s[1..], []));
    } else {
      var w := word + [s[0]];
      assert w + s[1..] == word + s;
      assert NoWhitespace(w) by {
        forall k | 0 <= k < |w|
          ensures !IsWhitespace(w[k])
        {
          if k < |word| {
            assert w[k] == word[k];
          }
        }
      }
      SplitTokens(s[1..], w);
      assert SplitFrom(s, word) == SplitFrom(s[1..], w);
    }
  }

  /** Every token is non-empty, has no whitespace, and is `"("` or `")"` if it holds a paren. */
  lemma TokensAreTokens(program: string)
    ensures forall k :: 0 <= k < |Tokens(program)| ==> IsToken(Tokens(program)[k])
  {
    PaddedIsolated(program);
    assert [] + Padded(program) == Padded(program);
    SplitTokens(Padded(program), []);
  }

  // ---------------------------------------------------------------------
  // Every `(` and `)` of the program becomes a token of its own.

  lemma {:induction false} OccurrencesAppend(a: string, b: string, c: char)
    ensures Occurrences(a + b, c) == Occurrences(a, c) + Occurrences(b, c)
  {
    if a != [] {
      assert (a + b)[1..] == a[1..] + b;
      OccurrencesAppend(a[1..], b, c);
    } else {
      assert a + b == b;
    }
  }

  lemma {:induction false} OccurrencesStrip(s: string, c: char)
    requires !IsWhitespace(c)
    ensures Occurrences(Strip(s), c) == Occurrences(s, c)
  {
    if s != [] {
      OccurrencesStrip(s[1..], c);
      OccurrencesAppend(if IsWhitespace(s[0]) then [] else [s[0]], Strip(s[1..]), c);
    }
  }

  lemma {:induction false} OccurrencesAbsent(t: string, c: char)
    requires forall k :: 0 <= k < |t| ==> t[k] != c
    ensures Occurrences(t, c) == 0
  {
    if t != [] {
      OccurrencesAbsent(t[1..], c);
    }
  }

  lemma OccurrencesInToken(t: string, c: char)
    requires IsToken(t) && IsParen(c)
    ensures Occurrences(t, c) == if t == [c] then 1 else 0
  {
    if !HasParen(t) {
      OccurrencesAbsent(t, c);
    }
  }

  lemma {:induction false} OccurrencesConcat(ts: seq<string>, c: char)
    requires forall k :: 0 <= k < |ts| ==> IsToken(ts[k])
    requires IsParen(c)
    ensures Occurrences(Concat(ts), c) == TokenCount(ts, [c])
  {
    if ts != [] {
      OccurrencesInToken(ts[0], c);
      OccurrencesAppend(ts[0], Concat(ts[1..]), c);
      OccurrencesConcat(ts[1..], c);
    }
  }

  /** There are exactly as many `"("` (`")"`) tokens as `(` (`)`) characters in the program. */
  lemma ParenTokens(program: string, c: char)
    requires IsParen(c)
    ensures TokenCount(Tokens(program), [c]) == Occurrences(program, c)
  {
    TokensAreTokens(program);
    TokensConcat(program);
    OccurrencesConcat(Tokens(program), c);
    OccurrencesStrip(program, c);
  }

  /** Empty input, or input made only of whitespace, gives no tokens. */
  lemma {:induction false} BlankHasNoTokens(program: string)
    requires forall k :: 0 <= k < |program| ==> IsWhitespace(program[k])
    ensures Tokens(program) == []
  {
    TokensAreTokens(program);
    TokensConcat(program);
    BlankStrips(program);
  }

  lemma {:induction false} BlankStrips(s: string)
    requires forall k :: 0 <= k < |s| ==> IsWhitespace(s[k])
    ensures Strip(s) == []
  {
    if s != [] {
      BlankStrips(s[1..]);
    }
  }

  // ---------------------------------------------------------------------
  // Tokenizing tokens joined by spaces gives the tokens back.

  /** The tokens written out, each followed by one space. */
  function Spaced(ts: seq<string>): string {
    if ts == [] then [] else ts[0] + " " + Spaced(ts[1..])
  }

  lemma {:induction false} PaddedAppend(a: string, b: string)
    ensures Padded(a + b) == Padded(a) + Padded(b)
    decreases |b|
  {
    if b == [] {
      assert a + b == a;
    } else {
      var init, c := b[..|b| - 1], b[|b| - 1];
      assert (a + b)[..|a + b| - 1] == a + init;
      PaddedAppend(a, init);
    }
  }

  lemma {:induction false} PaddedNoParen(t: string)
    requires !HasParen(t)
    ensures Padded(t) == t
    decreases |t|
  {
    if t != [] {
      assert !IsParen(t[|t| - 1]);
      var init := t[..|t| - 1];
      assert !HasParen(init) by {
        forall k | 0 <= k < |init| ensures !IsParen(init[k]) {
          assert init[k] == t[k];
        }
      }
      PaddedNoParen(init);
    }
  }

  lemma {:induction false} SplitWord(t: string, u: string, word: string)
    requires NoWhitespace(t)
    ensures SplitFrom(t + u, word) == SplitFrom(u, word + t)
    decreases |t|
  {
    if t == [] {
      assert t + u == u && word + t == word;
    } else {
      assert (t + u)[0] == t[0] && (t + u)[1..] == t[1..] + u;
      SplitWord(t[1..], u, word + [t[0]]);
      assert word + [t[0]] + t[1..] == word + t;
    }
  }

  lemma SplitSpace(u: string, word: string)
    ensures SplitFrom(" " + u, word) == Flush(word) + SplitFrom(u, [])
  {
    assert (" " + u)[0] == ' ' && (" " + u)[1..] == u;
  }

  /** A padded paren followed by a space splits into the paren token. */
  lemma SplitPaddedParen(t: string, rest: string)
    requires |t| == 1 && IsParen(t[0])
    ensures SplitFrom(Padded(t) + " " + rest, []) == [t] + SplitFrom(rest, [])
  {
    var u2 := " " + rest;
    var u1 := " " + u2;
    var body := t + u1;
    assert Padded(t) + " " + rest == " " + body by {
      assert t[..0] == [];
    }
    calc {
      SplitFrom(" " + body, []);
    == { SplitSpace(body, []); }
      SplitFrom(body, []);
    == { SplitWord(t, u1, []); assert [] + t == t; }
      SplitFrom(u1, t);
    == { SplitSpace(u2, t); }
      [t] + SplitFrom(u2, []);
    == { SplitSpace(rest, []); }
      [t] + SplitFrom(rest, []);
    }
  }

  /** Splitting the padded form of a token followed by a space yields that token. */
  lemma SplitPaddedToken(t: string, rest: string)
    requires IsToken(t)
    ensures SplitFrom(Padded(t) + " " + rest, []) == [t] + SplitFrom(rest, [])
  {
    if t == "(" || t == ")" {
      assert |t| == 1 && IsParen(t[0]);
      SplitPaddedParen(t, rest);
    } else {
      PaddedNoParen(t);
      assert Padded(t) + " " + rest == t + (" " + rest);
      SplitWord(t, " " + rest, []);
      assert [] + t == t;
      SplitSpace(rest, t);
    }
  }

  /** Splitting words that each end in a space gives back the words. */
  lemma {:induction false} SplitSpaced(ts: seq<string>)
    requires forall k :: 0 <= k < |ts| ==> ts[k] != [] && NoWhitespace(ts[k])
    ensures SplitFrom(Spaced(ts), []) == ts
  {
    if ts != [] {
      var rest := Spaced(ts[1..]);
      assert Spaced(ts) == ts[0] + (" " + rest);
      SplitWord(ts[0], " " + rest, []);
      assert [] + ts[0] == ts[0];
      SplitSpace(rest, ts[0]);
      SplitSpaced(ts[1..]);
      assert [ts[0]] + ts[1..] == ts;
    }
  }

  /** Tokens written out with a space after each are tokenized back into themselves. */
  lemma {:induction false} TokensOfSpaced(ts: seq<string>)
    requires forall k :: 0 <= k < |ts| ==> IsToken(ts[k])
    ensures Tokens(Spaced(ts)) == ts
  {
    if ts != [] {
      var rest := Spaced(ts[1..]);
      PaddedAppend(ts[0] + " ", rest);
      PaddedAppend(ts[0], " ");
      assert Padded(" ") == Padded([]) + PadChar(' ');
      SplitPaddedToken(ts[0], Padded(rest));
      TokensOfSpaced(ts[1..]);
      assert [ts[0]] + ts[1..] == ts;
    }
  }
}
