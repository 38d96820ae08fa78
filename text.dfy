/** Python's whitespace handling as the bot uses it: `str.split()` with no
    argument, `' '.join(...)` and `str.lower()` on the command keyword. */
module Text {

  /** Python's `str.isspace()` for one character: the set `str.split()`
      treats as whitespace. */
  predicate IsSpace(c: char) {
    c == ' ' || ('\t' <= c <= '\r') || ('\U{1C}' <= c <= '\U{1F}')
    || c == '\U{85}' || c == '\U{A0}' || c == '\U{1680}'
    || ('\U{2000}' <= c <= '\U{200A}') || c == '\U{2028}' || c == '\U{2029}'
    || c == '\U{202F}' || c == '\U{205F}' || c == '\U{3000}'
  }

  predicate AllSpace(s: string) {
    forall i :: 0 <= i < |s| ==> IsSpace(s[i])
  }

  /** A token produced by `str.split()`: non-empty and free of whitespace. */
  predicate IsWord(w: string) {
    |w| > 0 && forall i :: 0 <= i < |w| ==> !IsSpace(w[i])
  }

  predicate AllWords(tokens: seq<string>) {
    forall i :: 0 <= i < |tokens| ==> IsWord(tokens[i])
  }

  /** The suffix of `s` left after its leading whitespace. */
  function SkipSpace(s: string): (r: string)
    ensures |r| <= |s|
    ensures r != [] ==> !IsSpace(r[0])
    ensures forall i :: 0 <= i < |s| - |r| ==> IsSpace(s[i])
  {
    if s != [] && IsSpace(s[0]) then SkipSpace(s[1..]) else s
  }

  /** The longest whitespace-free prefix of `s`. */
  function WordPrefix(s: string): (w: string)
    ensures |w| <= |s|
    ensures forall i :: 0 <= i < |w| ==> !IsSpace(w[i])
    ensures |w| < |s| ==> IsSpace(s[|w|])
  {
    if s != [] && !IsSpace(s[0]) then [s[0]] + WordPrefix(s[1..]) else []
  }

  lemma {:induction false} SkipSpaceIsSuffix(s: string)
    ensures SkipSpace(s) == s[|s| - |SkipSpace(s)|..]
  {
    if s != [] && IsSpace(s[0]) {
      SkipSpaceIsSuffix(s[1..]);
    }
  }

  lemma {:induction false} WordPrefixIsPrefix(s: string)
    ensures WordPrefix(s) == s[..|WordPrefix(s)|]
  {
    if s != [] && !IsSpace(s[0]) {
      WordPrefixIsPrefix(s[1..]);
    }
  }

  /** `s.split()`: the maximal runs of non-whitespace characters, in order. */
  function Split(s: string): (tokens: seq<string>)
    ensures AllWords(tokens)
    decreases |s|
  {
    var t := SkipSpace(s);
    if t == [] then []
    else
      var w := WordPrefix(t);
      assert IsWord(w);
      [w] + Split(t[|w|..])
  }

  /** `' '.join(tokens)`. */
  function Join(tokens: seq<string>): string {
    if tokens == [] then ""
    else if |tokens| == 1 then tokens[0]
    else tokens[0] + " " + Join(tokens[1..])
  }

  /** All non-whitespace characters of `s`, in order. */
  function NonSpace(s: string): string {
    if s == [] then ""
    else if IsSpace(s[0]) then NonSpace(s[1..])
    else [s[0]] + NonSpace(s[1..])
  }

  function Concat(tokens: seq<string>): string {
    if tokens == [] then "" else tokens[0] + Concat(tokens[1..])
  }

  /** A string in which every whitespace character is a single interior
      space between two non-whitespace characters. */
  predicate Collapsed(s: string) {
    forall i :: 0 <= i < |s| && IsSpace(s[i]) ==>
      s[i] == ' ' && 0 < i < |s| - 1 && !IsSpace(s[i - 1]) && !IsSpace(s[i + 1])
  }

  function LowerChar(c: char): char {
    if 'A' <= c <= 'Z' then (c as int - 'A' as int + 'a' as int) as char else c
  }

  function UpperChar(c: char): char {
    if 'a' <= c <= 'z' then (c as int - 'a' as int + 'A' as int) as char else c
  }

  /** `w.lower()` restricted to ASCII letters. */
  function Lower(w: string): (r: string)
    ensures |r| == |w|
    ensures forall i :: 0 <= i < |w| ==> r[i] == LowerChar(w[i])
  {
    if w == [] then [] else [LowerChar(w[0])] + Lower(w[1..])
  }

  predicate IsLowerAscii(k: string) {
    forall i :: 0 <= i < |k| ==> 'a' <= k[i] <= 'z'
  }

  /** `w` spells `k` with each letter in either case. */
  predicate CaseVariant(w: string, k: string) {
    |w| == |k| && forall i :: 0 <= i < |k| ==> w[i] == k[i] || w[i] == UpperChar(k[i])
  }

  // ---------------------------------------------------------------------
  // Lemmas

  /** Lower-casing matches a lower-case keyword exactly on the case
      variants of its spelling. */
  lemma LowerMatchesCaseVariants(w: string, k: string)
    requires IsLowerAscii(k)
    ensures Lower(w) == k <==> CaseVariant(w, k)
  {
    if Lower(w) == k {
      forall i | 0 <= i < |k| ensures w[i] == k[i] || w[i] == UpperChar(k[i]) {
        assert LowerChar(w[i]) == k[i];
      }
    }
    if CaseVariant(w, k) {
      forall i | 0 <= i < |k| ensures Lower(w)[i] == k[i] {
        assert w[i] == k[i] || w[i] == UpperChar(k[i]);
      }
    }
  }

  /** A case variant of a lower-case word is itself a word. */
  lemma CaseVariantIsWord(w: string, k: string)
    requires IsLowerAscii(k) && |k| > 0 && CaseVariant(w, k)
    ensures IsWord(w)
  {
    forall i | 0 <= i < |w| ensures !IsSpace(w[i]) {
      assert w[i] == k[i] || w[i] == UpperChar(k[i]);
    }
  }

  lemma {:induction false} WordPrefixOfWord(w: string, rest: string)
    requires forall i :: 0 <= i < |w| ==> !IsSpace(w[i])
    requires rest == [] || IsSpace(rest[0])
    ensures WordPrefix(w + rest) == w
  {
    if w != [] {
      assert (w + rest)[1..] == w[1..] + rest;
      WordPrefixOfWord(w[1..], rest);
    }
  }

  lemma {:induction false} SkipSpacePrefix(lead: string, s: string)
    requires AllSpace(lead)
    ensures SkipSpace(lead + s) == SkipSpace(s)
  {
    if lead != [] {
      assert (lead + s)[0] == lead[0];
      assert (lead + s)[1..] == lead[1..] + s;
      SkipSpacePrefix(lead[1..], s);
    } else {
      assert lead + s == s;
    }
  }

  /** Leading whitespace is dropped by `split()`. */
  lemma SplitSkipsLeadingSpace(lead: string, s: string)
    requires AllSpace(lead)
    ensures Split(lead + s) == Split(s)
  {
    SkipSpacePrefix(lead, s);
  }

  /** A word followed by whitespace (or nothing) is the next token, whatever
      comes after it. */
  lemma SplitWord(w: string, rest: string)
    requires IsWord(w)
    requires rest == [] || IsSpace(rest[0])
    ensures Split(w + rest) == [w] + Split(rest)
  {
    var s := w + rest;
    assert SkipSpace(s) == s;
    WordPrefixOfWord(w, rest);
    assert s[|w|..] == rest;
  }

  /** The first token of a body is its first word, whatever whitespace
      precedes it and whatever text follows it. */
  lemma FirstToken(lead: string, w: string, rest: string)
    requires AllSpace(lead) && IsWord(w)
    requires rest == [] || IsSpace(rest[0])
    ensures Split(lead + w + rest) == [w] + Split(rest)
  {
    assert lead + w + rest == lead + (w + rest);
    SplitSkipsLeadingSpace(lead, w + rest);
    SplitWord(w, rest);
  }

  lemma {:induction false} JoinHead(tokens: seq<string>)
    requires AllWords(tokens) && tokens != []
    ensures |Join(tokens)| >= |tokens[0]| && Join(tokens)[..|tokens[0]|] == tokens[0]
  {
  }

  /** A word, one space and more text split as the word, then the text. */
  lemma SplitWordSpace(w: string, rest: string)
    requires IsWord(w)
    ensures Split(w + " " + rest) == [w] + Split(rest)
  {
    assert w + " " + rest == w + (" " + rest);
    SplitWord(w, " " + rest);
    SplitSkipsLeadingSpace(" ", rest);
  }

  lemma AllWordsTail(tokens: seq<string>)
    requires AllWords(tokens) && tokens != []
    ensures IsWord(tokens[0]) && AllWords(tokens[1..])
  {
    forall i | 0 <= i < |tokens| - 1 ensures IsWord(tokens[1..][i]) {
      assert tokens[1..][i] == tokens[i + 1];
    }
  }

  lemma JoinCons(tokens: seq<string>)
    requires |tokens| > 1
    ensures Join(tokens) == tokens[0] + " " + Join(tokens[1..])
  {
  }

  /** Re-splitting joined tokens gives the tokens back. */
  lemma {:induction false} SplitJoin(tokens: seq<string>)
    requires AllWords(tokens)
    ensures Split(Join(tokens)) == tokens
  {
    if |tokens| == 1 {
      assert IsWord(tokens[0]);
      SplitWord(tokens[0], "");
      assert tokens[0] + "" == tokens[0];
    } else if |tokens| > 1 {
      var j := Join(tokens[1..]);
      AllWordsTail(tokens);
      JoinCons(tokens);
      SplitWordSpace(tokens[0], j);
      SplitJoin(tokens[1..]);
      assert [tokens[0]] + tokens[1..] == tokens;
    }
  }

  /** Joining words with single spaces yields a collapsed string. */
  lemma {:induction false} JoinCollapsed(tokens: seq<string>)
    requires AllWords(tokens)
    ensures Collapsed(Join(tokens))
  {
    if |tokens| > 1 {
      var w := tokens[0];
      var rest := Join(tokens[1..]);
      JoinCollapsed(tokens[1..]);
      JoinHead(tokens[1..]);
      var s := Join(tokens);
      assert s == w + " " + rest;
      forall i | 0 <= i < |s| && IsSpace(s[i])
        ensures s[i] == ' ' && 0 < i < |s| - 1 && !IsSpace(s[i - 1]) && !IsSpace(s[i + 1])
      {
        if i == |w| {
          assert s[i + 1] == rest[0] == tokens[1][0];
        } else if i > |w| + 1 {
          assert s[i] == rest[i - |w| - 1];
          assert s[i - 1] == rest[i - |w| - 2];
          assert s[i + 1] == rest[i - |w|];
        }
      }
    }
  }

  /** Splitting, then joining with single spaces, collapses every run of
      whitespace into one space and keeps the tokens. */
  lemma CollapseWhitespace(s: string)
    ensures Collapsed(Join(Split(s)))
    ensures Split(Join(Split(s))) == Split(s)
  {
    JoinCollapsed(Split(s));
    SplitJoin(Split(s));
  }

  lemma {:induction false} NonSpaceAppend(a: string, b: string)
    ensures NonSpace(a + b) == NonSpace(a) + NonSpace(b)
  {
    if a != [] {
      assert (a + b)[0] == a[0];
      assert (a + b)[1..] == a[1..] + b;
      NonSpaceAppend(a[1..], b);
    } else {
      assert a + b == b;
    }
  }

  lemma {:induction false} NonSpaceOfWord(w: string)
    requires forall i :: 0 <= i < |w| ==> !IsSpace(w[i])
    ensures NonSpace(w) == w
  {
    if w != [] {
      NonSpaceOfWord(w[1..]);
      assert w == [w[0]] + w[1..];
    }
  }

  lemma {:induction false} NonSpaceOfSpace(s: string)
    requires AllSpace(s)
    ensures NonSpace(s) == ""
  {
    if s != [] {
      NonSpaceOfSpace(s[1..]);
    }
  }

  /** `split()` yields no token exactly when the text is all whitespace. */
  lemma SplitEmpty(s: string)
    ensures Split(s) == [] <==> AllSpace(s)
  {
    var t := SkipSpace(s);
    if t != [] {
      SkipSpaceIsSuffix(s);
      assert !IsSpace(s[|s| - |t|]);
    }
  }

  /** One step of `split()`: skip the whitespace, take the word. */
  lemma SplitStep(s: string)
    requires SkipSpace(s) != []
    ensures Split(s) == [WordPrefix(SkipSpace(s))] +
      Split(SkipSpace(s)[|WordPrefix(SkipSpace(s))|..])
  {
  }

  lemma ConcatCons(w: string, tokens: seq<string>)
    ensures Concat([w] + tokens) == w + Concat(tokens)
  {
    assert ([w] + tokens)[1..] == tokens;
  }

  lemma NonSpaceSkipsLead(s: string)
    ensures NonSpace(s) == NonSpace(SkipSpace(s))
  {
    var t := SkipSpace(s);
    var lead := s[..|s| - |t|];
    SkipSpaceIsSuffix(s);
    assert s == lead + t;
    NonSpaceAppend(lead, t);
    NonSpaceOfSpace(lead);
  }

  lemma NonSpaceWordFirst(t: string)
    ensures NonSpace(t) == WordPrefix(t) + NonSpace(t[|WordPrefix(t)|..])
  {
    var w := WordPrefix(t);
    var rest := t[|w|..];
    WordPrefixIsPrefix(t);
    assert t == w + rest;
    NonSpaceAppend(w, rest);
    NonSpaceOfWord(w);
  }

  /** `split()` drops exactly the whitespace: the tokens, concatenated, are
      the body's non-whitespace characters in their original order. */
  lemma {:induction false} SplitKeepsText(s: string)
    ensures Concat(Split(s)) == NonSpace(s)
    decreases |s|
  {
    var t := SkipSpace(s);
    NonSpaceSkipsLead(s);
    if t != [] {
      var w := WordPrefix(t);
      var rest := t[|w|..];
      NonSpaceWordFirst(t);
      SplitStep(s);
      ConcatCons(w, Split(rest));
      SplitKeepsText(rest);
    }
  }
}
