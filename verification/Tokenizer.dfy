/** tokenize and normalizeText: the words of a text, and the text rebuilt from them. */
module Tokenizer {
  import opened Sequences

  /** The Unicode tables the tokenizer consults: case and accent folding of one
      rune, and the letter-or-digit and white-space classes. */
  datatype Alphabet = Alphabet(fold: char -> char, isWord: char -> bool, isSpace: char -> bool)

  /** What the tables are relied on for: a space is white space, and no white space
      is a letter or digit. */
  ghost predicate Sensible(u: Alphabet) {
    u.isSpace(' ') && forall c :: u.isSpace(c) ==> !u.isWord(c)
  }

  /** Folding a folded rune changes nothing, and a space folds to itself. */
  ghost predicate FoldStable(u: Alphabet) {
    u.fold(' ') == ' ' && forall c :: u.fold(u.fold(c)) == u.fold(c)
  }

  function TrimLeft(u: Alphabet, s: string): string {
    if s != [] && u.isSpace(s[0]) then TrimLeft(u, s[1..]) else s
  }

  function TrimRight(u: Alphabet, s: string): string {
    if s != [] && u.isSpace(Last(s)) then TrimRight(u, Front(s)) else s
  }

  function Folded(u: Alphabet, s: string): string { seq(|s|, i requires 0 <= i < |s| => u.fold(s[i])) }

  /** Length of the run of `p` at the start of `s`. */
  function Run(p: char -> bool, s: string): (n: nat)
    ensures n <= |s| && (forall i | 0 <= i < n :: p(s[i])) && (n < |s| ==> !p(s[n]))
  {
    if s == [] || !p(s[0]) then 0 else 1 + Run(p, s[1..])
  }

  /** The maximal runs of `p` in `s`, in order. */
  function Words(p: char -> bool, s: string): seq<string>
    decreases |s|
  {
    if s == [] then []
    else if !p(s[0]) then Words(p, s[1..])
    else [s[..Run(p, s)]] + Words(p, s[Run(p, s)..])
  }

  /** The builder of the tokenizer: word runes kept, each gap one space. */
  function Squeeze(u: Alphabet, s: string, lastSpace: bool): string {
    if s == [] then []
    else if u.isWord(s[0]) then [s[0]] + Squeeze(u, s[1..], false)
    else (if lastSpace then [] else [' ']) + Squeeze(u, s[1..], true)
  }

  function Tokens(u: Alphabet, text: string): seq<string> {
    Words(u.isWord, Folded(u, TrimRight(u, TrimLeft(u, text))))
  }

  /** strings.Fields. */
  function Fields(u: Alphabet, s: string): seq<string> { Words(c => !u.isSpace(c), s) }

  method Tokenize(u: Alphabet, text: string) returns (tokens: seq<string>)
    requires Sensible(u)
    ensures tokens == Tokens(u, text)
  {
    var s := Folded(u, TrimRight(u, TrimLeft(u, text)));
    if s == "" { return []; }
    var b, lastSpace := "", true;
    assert s[0..] == s && b + Squeeze(u, s, true) == Squeeze(u, s, true);
    for i := 0 to |s|
      invariant b + Squeeze(u, s[i..], lastSpace) == Squeeze(u, s, true)
    {
      ghost var rest := s[i..];
      assert rest[0] == s[i] && rest[1..] == s[i + 1..];
      if u.isWord(s[i]) {
        Regroup(b, [s[i]], Squeeze(u, rest[1..], false));
        b := b + [s[i]];
        lastSpace := false;
        continue;
      }
      if !lastSpace {
        Regroup(b, [' '], Squeeze(u, rest[1..], true));
        b := b + [' '];
        lastSpace := true;
      } else {
        assert [] + Squeeze(u, rest[1..], true) == Squeeze(u, rest[1..], true);
      }
    }
    assert b == Squeeze(u, s, true);
    FieldsOfSqueeze(u, s, true);
    tokens := Fields(u, b);
  }

  lemma {:induction false} RunOfConcat(p: char -> bool, a: string, rest: string)
    requires forall i | 0 <= i < |a| :: p(a[i])
    requires rest == [] || !p(rest[0])
    ensures Run(p, a + rest) == |a|
  {
    if a == [] {
      assert a + rest == rest;
    } else {
      assert (a + rest)[1..] == a[1..] + rest;
      RunOfConcat(p, a[1..], rest);
    }
  }

  lemma {:induction false} WordsOfConcat(p: char -> bool, a: string, rest: string)
    requires a != [] && forall i | 0 <= i < |a| :: p(a[i])
    requires rest == [] || !p(rest[0])
    ensures Words(p, a + rest) == [a] + Words(p, rest)
  {
    RunOfConcat(p, a, rest);
    assert (a + rest)[..|a|] == a && (a + rest)[|a|..] == rest;
  }

  lemma {:induction false} SqueezeRun(u: Alphabet, a: string, rest: string, lastSpace: bool)
    requires a != [] && forall i | 0 <= i < |a| :: u.isWord(a[i])
    ensures Squeeze(u, a + rest, lastSpace) == a + Squeeze(u, rest, false)
  {
    assert (a + rest)[1..] == a[1..] + rest;
    if |a| > 1 {
      SqueezeRun(u, a[1..], rest, false);
      assert a == [a[0]] + a[1..];
    } else {
      assert a[1..] + rest == rest;
    }
  }

  /** Splitting the builder at spaces gives the runs of the text. */
  lemma {:induction false} FieldsOfSqueeze(u: Alphabet, s: string, lastSpace: bool)
    requires Sensible(u)
    ensures Fields(u, Squeeze(u, s, lastSpace)) == Words(u.isWord, s)
    decreases |s|
  {
    var p := (c: char) => !u.isSpace(c);
    if s == [] {
    } else if !u.isWord(s[0]) {
      FieldsOfSqueeze(u, s[1..], true);
      if !lastSpace {
        assert Squeeze(u, s, lastSpace)[1..] == Squeeze(u, s[1..], true);
      } else {
        assert Squeeze(u, s, lastSpace) == Squeeze(u, s[1..], true);
      }
    } else {
      var n := Run(u.isWord, s);
      var a, rest := s[..n], s[n..];
      assert s == a + rest;
      SqueezeRun(u, a, rest, lastSpace);
      FieldsOfSqueeze(u, rest, false);
      WordsOfConcat(p, a, Squeeze(u, rest, false));
      SameFields(u, p, a + Squeeze(u, rest, false));
      SameFields(u, p, Squeeze(u, rest, false));
    }
  }

  lemma {:induction false} SameRun(p: char -> bool, q: char -> bool, s: string)
    requires forall c :: p(c) == q(c)
    ensures Run(p, s) == Run(q, s)
  {
    if s != [] { SameRun(p, q, s[1..]); }
  }

  lemma {:induction false} SameWords(p: char -> bool, q: char -> bool, s: string)
    requires forall c :: p(c) == q(c)
    ensures Words(p, s) == Words(q, s)
    decreases |s|
  {
    if s != [] {
      SameRun(p, q, s);
      if p(s[0]) { SameWords(p, q, s[Run(p, s)..]); } else { SameWords(p, q, s[1..]); }
    }
  }

  lemma SameFields(u: Alphabet, p: char -> bool, s: string)
    requires forall c :: p(c) == !u.isSpace(c)
    ensures Fields(u, s) == Words(p, s)
  {
    SameWords(c => !u.isSpace(c), p, s);
  }

  // ---- what the words are

  lemma {:induction false} RunBefore(p: char -> bool, a: string, rest: string)
    requires rest == [] || !p(rest[0])
    ensures Run(p, a + rest) == Run(p, a)
  {
    if a == [] {
      assert a + rest == rest;
    } else {
      assert (a + rest)[1..] == a[1..] + rest;
      RunBefore(p, a[1..], rest);
    }
  }

  /** A rune outside the class ends a word and belongs to none: with the words of a text
      that is all inside or all outside the class, this says what the words are. */
  lemma {:induction false} WordsSplitAt(p: char -> bool, a: string, c: char, b: string)
    requires !p(c)
    ensures Words(p, a + [c] + b) == Words(p, a) + Words(p, b)
    decreases |a|
  {
    var whole := a + [c] + b;
    if a == [] {
      assert whole == [c] + b && whole[1..] == b;
    } else if !p(a[0]) {
      assert whole[1..] == a[1..] + [c] + b;
      WordsSplitAt(p, a[1..], c, b);
    } else {
      var n := Run(p, a);
      assert whole == a + ([c] + b);
      RunBefore(p, a, [c] + b);
      assert whole[..n] == a[..n] && whole[n..] == a[n..] + [c] + b;
      WordsSplitAt(p, a[n..], c, b);
    }
  }

  lemma WordsOfWord(p: char -> bool, a: string)
    requires a != [] && forall i | 0 <= i < |a| :: p(a[i])
    ensures Words(p, a) == [a]
  {
    assert a + [] == a;
    WordsOfConcat(p, a, []);
  }

  /** The tokens of a text are decided by its word runes: none from white space alone, one
      from one folded word, and each rune that folds to no word rune separates. */
  lemma TokensSplitAt(u: Alphabet, a: string, c: char, b: string)
    requires Sensible(u) && !u.isWord(u.fold(c))
    requires a != [] && b != [] && !u.isSpace(a[0]) && !u.isSpace(Last(a)) && !u.isSpace(b[0]) && !u.isSpace(Last(b))
    ensures Tokens(u, a + [c] + b) == Tokens(u, a) + Tokens(u, b)
  {
    var whole := a + [c] + b;
    assert whole[0] == a[0] && Last(whole) == Last(b);
    assert Folded(u, whole) == Folded(u, a) + [u.fold(c)] + Folded(u, b);
    WordsSplitAt(u.isWord, Folded(u, a), u.fold(c), Folded(u, b));
  }

  // ---- normalized text

  /** strings.Join with one space. */
  function Join(tokens: seq<string>): string {
    if tokens == [] then ""
    else if |tokens| == 1 then tokens[0]
    else tokens[0] + [' '] + Join(tokens[1..])
  }

  function NormalizeText(u: Alphabet, text: string): string { Join(Tokens(u, text)) }

  ghost predicate IsToken(p: char -> bool, t: string) {
    t != [] && forall i | 0 <= i < |t| :: p(t[i])
  }

  lemma {:induction false} WordsAreTokens(p: char -> bool, s: string)
    ensures forall t | t in Words(p, s) :: IsToken(p, t)
    decreases |s|
  {
    if s != [] {
      if p(s[0]) { WordsAreTokens(p, s[Run(p, s)..]); } else { WordsAreTokens(p, s[1..]); }
    }
  }

  /** Joining words and splitting again gives the words back. */
  lemma {:induction false} WordsOfJoin(p: char -> bool, tokens: seq<string>)
    requires !p(' ') && forall t | t in tokens :: IsToken(p, t)
    ensures Words(p, Join(tokens)) == tokens
  {
    if tokens != [] {
      var t, rest := tokens[0], tokens[1..];
      assert IsToken(p, t);
      WordsOfJoin(p, rest);
      if |tokens| == 1 {
        assert t + [] == t && rest == [];
        WordsOfConcat(p, t, []);
      } else {
        Regroup(t, [' '], Join(rest));
        WordsOfConcat(p, t, [' '] + Join(rest));
        assert ([' '] + Join(rest))[1..] == Join(rest);
      }
    }
  }

  /** Texts normalize alike exactly when they have the same tokens. */
  lemma NormalizeDeterminesTokens(u: Alphabet, a: string, b: string)
    requires Sensible(u)
    ensures NormalizeText(u, a) == NormalizeText(u, b) <==> Tokens(u, a) == Tokens(u, b)
  {
    WordsAreTokens(u.isWord, Folded(u, TrimRight(u, TrimLeft(u, a))));
    WordsAreTokens(u.isWord, Folded(u, TrimRight(u, TrimLeft(u, b))));
    WordsOfJoin(u.isWord, Tokens(u, a));
    WordsOfJoin(u.isWord, Tokens(u, b));
  }

  lemma {:induction false} JoinEnds(p: char -> bool, tokens: seq<string>)
    requires tokens != [] && forall t | t in tokens :: IsToken(p, t)
    ensures Join(tokens) != [] && p(Join(tokens)[0]) && p(Last(Join(tokens)))
  {
    assert IsToken(p, tokens[0]);
    if |tokens| > 1 { JoinEnds(p, tokens[1..]); }
  }

  lemma {:induction false} JoinRunes(tokens: seq<string>, q: char -> bool)
    requires q(' ') && forall t | t in tokens :: forall i | 0 <= i < |t| :: q(t[i])
    ensures forall i | 0 <= i < |Join(tokens)| :: q(Join(tokens)[i])
  {
    if |tokens| > 1 { JoinRunes(tokens[1..], q); }
  }

  lemma {:induction false} WordRunes(p: char -> bool, s: string, q: char -> bool)
    requires forall i | 0 <= i < |s| :: q(s[i])
    ensures forall t | t in Words(p, s) :: forall i | 0 <= i < |t| :: q(t[i])
    decreases |s|
  {
    if s != [] {
      if p(s[0]) { WordRunes(p, s[Run(p, s)..], q); } else { WordRunes(p, s[1..], q); }
    }
  }

  /** Normalizing normalized text changes nothing. */
  lemma NormalizeIdempotent(u: Alphabet, text: string)
    requires Sensible(u) && FoldStable(u)
    ensures NormalizeText(u, NormalizeText(u, text)) == NormalizeText(u, text)
  {
    var folded := Folded(u, TrimRight(u, TrimLeft(u, text)));
    var tokens, joined := Tokens(u, text), NormalizeText(u, text);
    WordsAreTokens(u.isWord, folded);
    if tokens != [] {
      JoinEnds(u.isWord, tokens);
      assert TrimRight(u, TrimLeft(u, joined)) == joined;
    } else {
      assert joined == [];
    }
    var fixed := (c: char) => u.fold(c) == c;
    WordRunes(u.isWord, folded, fixed);
    JoinRunes(tokens, fixed);
    assert Folded(u, joined) == joined;
    WordsOfJoin(u.isWord, tokens);
  }
}
