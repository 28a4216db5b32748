/**
 * `text.split(/\s+/)` as JavaScript evaluates it: the text is cut at every
 * maximal run of whitespace characters, and the pieces between the runs are
 * the tokens. A leading or trailing run yields an empty first or last token
 * (" ping" gives ["", "ping"]), the empty text gives [""], and inner tokens
 * are never empty because a run is maximal.
 */
module Words {

  /** The characters matched by `\s`: WhiteSpace and LineTerminator of ECMAScript. */
  predicate IsWhitespace(c: char) {
    c == '\t' || c == '\n' || c == '\U{000B}' || c == '\U{000C}' || c == '\r' ||
    c == ' ' || c == '\U{00A0}' || c == '\U{1680}' ||
    ('\U{2000}' <= c <= '\U{200A}') ||
    c == '\U{2028}' || c == '\U{2029}' || c == '\U{202F}' || c == '\U{205F}' ||
    c == '\U{3000}' || c == '\U{FEFF}'
  }

  /** A token: no whitespace in it (it may be empty). */
  predicate WhitespaceFree(t: string) {
    forall k :: 0 <= k < |t| ==> !IsWhitespace(t[k])
  }

  /** A separator: a non-empty run of whitespace. */
  predicate IsSeparator(w: string) {
    |w| > 0 && forall k :: 0 <= k < |w| ==> IsWhitespace(w[k])
  }

  /** The index of the first whitespace character, or |s| if there is none. */
  function FirstSpace(s: string): (i: nat)
    ensures i <= |s| && WhitespaceFree(s[..i])
    ensures i < |s| ==> IsWhitespace(s[i])
  {
    if s == [] || IsWhitespace(s[0]) then 0
    else
      var i := 1 + FirstSpace(s[1..]);
      assert s[..i] == [s[0]] + s[1..][..i - 1];
      i
  }

  /** The end of the whitespace run that starts at index `i`. */
  function RunEnd(s: string, i: nat): (j: nat)
    requires i <= |s|
    ensures i <= j <= |s|
    ensures forall k :: i <= k < j ==> IsWhitespace(s[k])
    ensures j < |s| ==> !IsWhitespace(s[j])
    decreases |s| - i
  {
    if i < |s| && IsWhitespace(s[i]) then RunEnd(s, i + 1) else i
  }

  /** The tokens of `text.split(/\s+/)`. */
  function Split(s: string): (r: seq<string>)
    ensures |r| >= 1
    decreases |s|
  {
    var i := FirstSpace(s);
    if i == |s| then [s]
    else [s[..i]] + Split(s[RunEnd(s, i)..])
  }

  /** The whitespace runs that `Split` cuts at, in order. */
  function Separators(s: string): (r: seq<string>)
    decreases |s|
  {
    var i := FirstSpace(s);
    if i == |s| then []
    else
      var j := RunEnd(s, i);
      [s[i..j]] + Separators(s[j..])
  }

  /** Reassembles a text from its tokens and the separators between them. */
  function Weave(tokens: seq<string>, seps: seq<string>): string
    requires |tokens| == |seps| + 1
  {
    if seps == [] then tokens[0]
    else tokens[0] + seps[0] + Weave(tokens[1..], seps[1..])
  }

  /**
   * `tokens` and `seps` are a decomposition a whitespace split can produce:
   * whitespace-free tokens, non-empty whitespace runs between them, and no
   * empty token except possibly the first and the last.
   */
  predicate IsTokenization(tokens: seq<string>, seps: seq<string>) {
    && |tokens| == |seps| + 1
    && (forall k :: 0 <= k < |tokens| ==> WhitespaceFree(tokens[k]))
    && (forall k :: 0 <= k < |seps| ==> IsSeparator(seps[k]))
    && (forall k :: 0 < k < |tokens| - 1 ==> tokens[k] != [])
  }

  /** Splitting a text that does not start with whitespace gives a first token that
      is empty only when the text is. */
  lemma {:induction false} SplitHead(s: string)
    requires s != [] && !IsWhitespace(s[0])
    ensures Split(s)[0] != []
  {
    assert FirstSpace(s) > 0;
  }

  /** Putting one more token and run in front of a tokenization keeps it one. */
  lemma {:induction false} ConsTokenization(t: string, w: string, tokens: seq<string>, seps: seq<string>)
    requires IsTokenization(tokens, seps) && WhitespaceFree(t) && IsSeparator(w)
    requires |tokens| > 1 ==> tokens[0] != []
    ensures IsTokenization([t] + tokens, [w] + seps)
    ensures Weave([t] + tokens, [w] + seps) == t + w + Weave(tokens, seps)
  {
    var ts, ss := [t] + tokens, [w] + seps;
    assert ts[1..] == tokens && ss[1..] == seps;
    forall k | 0 < k < |ts| - 1 ensures ts[k] != [] {
      assert ts[k] == tokens[k - 1];
    }
  }

  /** One step of `Split`: the first token, the run after it, and the rest. */
  lemma SplitStep(s: string)
    requires FirstSpace(s) < |s|
    ensures var i := FirstSpace(s); var j := RunEnd(s, i); var rest := s[j..];
      && Split(s) == [s[..i]] + Split(rest)
      && Separators(s) == [s[i..j]] + Separators(rest)
      && WhitespaceFree(s[..i]) && IsSeparator(s[i..j])
      && s == s[..i] + s[i..j] + rest
      && (rest == [] || !IsWhitespace(rest[0]))
  {
    var i := FirstSpace(s);
    var j := RunEnd(s, i);
    RunIsSeparator(s, i);
    Reassemble(s, i, j);
  }

  /** The whitespace run starting at a whitespace character is a separator. */
  lemma RunIsSeparator(s: string, i: nat)
    requires i < |s| && IsWhitespace(s[i])
    ensures IsSeparator(s[i..RunEnd(s, i)])
  {
    var j := RunEnd(s, i);
    forall k | 0 <= k < j - i ensures IsWhitespace(s[i..j][k]) {
      assert s[i..j][k] == s[i + k];
    }
  }

  /** Cutting a sequence at two points and concatenating the pieces gives it back. */
  lemma Reassemble<T>(s: seq<T>, i: nat, j: nat)
    requires i <= j <= |s|
    ensures s == s[..i] + s[i..j] + s[j..]
  {
    assert s[..i] + s[i..j] == s[..j];
  }

  /** A split is a tokenization, and the tokens woven with the runs give back the text. */
  lemma {:induction false} SplitSound(s: string)
    ensures IsTokenization(Split(s), Separators(s))
    ensures Weave(Split(s), Separators(s)) == s
    decreases |s|
  {
    var i := FirstSpace(s);
    if i == |s| {
      assert s[..i] == s;
    } else {
      var j := RunEnd(s, i);
      var rest := s[j..];
      SplitStep(s);
      SplitSound(rest);
      if rest != [] {
        SplitHead(rest);
      } else {
        assert Split(rest) == [rest];
      }
      ConsTokenization(s[..i], s[i..j], Split(rest), Separators(rest));
    }
  }

  /** The first token and run of a woven text are where `Split` finds them. */
  lemma {:induction false} WeaveHead(tokens: seq<string>, seps: seq<string>)
    requires IsTokenization(tokens, seps) && seps != []
    ensures var s := Weave(tokens, seps);
      && FirstSpace(s) == |tokens[0]|
      && RunEnd(s, |tokens[0]|) == |tokens[0]| + |seps[0]|
      && s[..|tokens[0]|] == tokens[0]
      && s[|tokens[0]| + |seps[0]|..] == Weave(tokens[1..], seps[1..])
  {
    var s := Weave(tokens, seps);
    var t, w, rest := tokens[0], seps[0], Weave(tokens[1..], seps[1..]);
    assert s == t + (w + rest);
    assert IsTokenization(tokens[1..], seps[1..]);
    FirstSpaceOf(t, w + rest);
    ConcatParts(t, w, rest);
    assert rest != [] ==> !IsWhitespace(rest[0]) by {
      if rest != [] {
        if |seps| == 1 {
          assert rest == tokens[1];
        } else {
          assert tokens[1] != [];
          assert rest == tokens[1] + seps[1] + Weave(tokens[2..], seps[2..]);
        }
      }
    }
    RunEndOf(s, |t|, |t| + |w|);
  }

  /** Where the pieces of a three-part concatenation sit. */
  lemma ConcatParts<T>(a: seq<T>, b: seq<T>, c: seq<T>)
    ensures var s := a + (b + c);
      && s[..|a|] == a && s[|a| + |b|..] == c
      && forall k :: 0 <= k < |b| ==> s[|a| + k] == b[k]
  {
  }

  lemma TailOfConcat<T>(a: seq<T>, b: seq<T>)
    requires a != []
    ensures (a + b)[1..] == a[1..] + b && (a + b)[0] == a[0]
  {
  }

  lemma {:induction false} FirstSpaceOfToken(t: string)
    requires WhitespaceFree(t)
    ensures FirstSpace(t) == |t|
    decreases |t|
  {
    if t != [] {
      FirstSpaceOfToken(t[1..]);
    }
  }

  lemma {:induction false} FirstSpaceOf(t: string, u: string)
    requires WhitespaceFree(t) && u != [] && IsWhitespace(u[0])
    ensures FirstSpace(t + u) == |t|
    decreases |t|
  {
    if t != [] {
      TailOfConcat(t, u);
      FirstSpaceOf(t[1..], u);
    }
  }

  lemma {:induction false} RunEndOf(s: string, i: nat, j: nat)
    requires i <= j <= |s|
    requires forall k :: i <= k < j ==> IsWhitespace(s[k])
    requires j < |s| ==> !IsWhitespace(s[j])
    ensures RunEnd(s, i) == j
    decreases j - i
  {
    if i < j {
      RunEndOf(s, i + 1, j);
    }
  }

  /** Any tokenization of a text is the one `Split` returns. */
  lemma {:induction false} SplitUnique(tokens: seq<string>, seps: seq<string>)
    requires IsTokenization(tokens, seps)
    ensures Split(Weave(tokens, seps)) == tokens
    decreases |seps|
  {
    var s := Weave(tokens, seps);
    if seps == [] {
      FirstSpaceOfToken(s);
    } else {
      WeaveHead(tokens, seps);
      var i := |tokens[0]|;
      var rest := s[RunEnd(s, i)..];
      assert FirstSpace(s) == i < |s|;
      assert Split(s) == [s[..i]] + Split(rest);
      assert IsTokenization(tokens[1..], seps[1..]);
      SplitUnique(tokens[1..], seps[1..]);
      assert tokens == [tokens[0]] + tokens[1..];
    }
  }

  /** The trigger test of both features: exactly two tokens, one of them `word`. */
  predicate TwoWordsWith(text: string, word: string) {
    var tokens := Split(text);
    |tokens| == 2 && word in tokens
  }

  /** Two tokens and one run between them. */
  lemma WeaveTwo(a: string, sep: string, b: string)
    ensures Weave([a, b], [sep]) == a + sep + b
  {
    assert [a, b][1..] == [b];
  }

  /** Two tokens, one of them `word`: the text is `word` and another token around a run. */
  lemma {:induction false} TwoWordsWithOnlyIf(text: string, word: string)
    requires TwoWordsWith(text, word)
    ensures exists other, sep ::
      WhitespaceFree(other) && IsSeparator(sep) && (text == word + sep + other || text == other + sep + word)
  {
    var ts, ss := Split(text), Separators(text);
    SplitSound(text);
    assert |ss| == 1;
    assert ts == [ts[0], ts[1]] && ss == [ss[0]];
    WeaveTwo(ts[0], ss[0], ts[1]);
    assert WhitespaceFree(ts[0]) && WhitespaceFree(ts[1]) && IsSeparator(ss[0]);
    if ts[0] == word {
      assert text == word + ss[0] + ts[1];
    } else {
      assert text == ts[0] + ss[0] + word;
    }
  }

  /** Two tokens around one whitespace run split into exactly those two tokens. */
  lemma SplitTwo(a: string, sep: string, b: string)
    requires WhitespaceFree(a) && WhitespaceFree(b) && IsSeparator(sep)
    ensures Split(a + sep + b) == [a, b]
  {
    assert IsTokenization([a, b], [sep]);
    SplitUnique([a, b], [sep]);
    WeaveTwo(a, sep, b);
  }

  /** `word` and another token around a run split into exactly those two tokens. */
  lemma {:induction false} TwoWordsWithIf(word: string, other: string, sep: string, text: string)
    requires WhitespaceFree(word) && WhitespaceFree(other) && IsSeparator(sep)
    requires text == word + sep + other || text == other + sep + word
    ensures TwoWordsWith(text, word)
  {
    if text == word + sep + other {
      SplitTwo(word, sep, other);
    } else {
      SplitTwo(other, sep, word);
    }
  }

  /**
   * For a keyword without whitespace, the text is two tokens one of which is
   * the keyword exactly when it is the keyword and another token, in either
   * order, with one whitespace run between them.
   */
  lemma {:induction false} TwoWordsWithIff(text: string, word: string)
    requires WhitespaceFree(word)
    ensures TwoWordsWith(text, word) <==>
      exists other, sep :: WhitespaceFree(other) && IsSeparator(sep) &&
        (text == word + sep + other || text == other + sep + word)
  {
    if TwoWordsWith(text, word) {
      TwoWordsWithOnlyIf(text, word);
    }
    if exists other, sep :: WhitespaceFree(other) && IsSeparator(sep) &&
        (text == word + sep + other || text == other + sep + word) {
      var other, sep :| WhitespaceFree(other) && IsSeparator(sep) &&
        (text == word + sep + other || text == other + sep + word);
      TwoWordsWithIf(word, other, sep, text);
    }
  }
}
