/** Python's `int(text)` (base 10) and `str(n)` for integers: the bot parses
    the `exect` timeout and the saved process id with the first and writes
    its own process id with the second. */
module Numbers {
  import opened Wrappers
  import opened Text

  predicate IsDigit(c: char) {
    '0' <= c <= '9'
  }

  predicate AllDigits(s: string) {
    forall i :: 0 <= i < |s| ==> IsDigit(s[i])
  }

  function DigitValue(c: char): nat
    requires IsDigit(c)
  {
    c as int - '0' as int
  }

  function DigitChar(d: nat): (c: char)
    requires d < 10
    ensures IsDigit(c) && DigitValue(c) == d
  {
    ('0' as int + d) as char
  }

  /** The number a string of decimal digits denotes, most significant first. */
  function DigitsValue(ds: string): nat
    requires AllDigits(ds)
  {
    if ds == [] then 0 else DigitsValue(ds[..|ds| - 1]) * 10 + DigitValue(ds[|ds| - 1])
  }

  /** The digits with Python's grouping underscores removed. A text without
      underscores is returned unchanged; `RemoveUnderscoresExactly` states
      what is removed in general. */
  function RemoveUnderscores(s: string): (r: string)
    ensures |r| <= |s|
    ensures (forall i :: 0 <= i < |s| ==> s[i] != '_') ==> r == s
  {
    if s == [] then ""
    else if s[0] == '_' then RemoveUnderscores(s[1..])
    else [s[0]] + RemoveUnderscores(s[1..])
  }

  /** Exactly the underscores are removed: every other character is kept as
      often as it occurs. */
  lemma {:induction false} RemoveUnderscoresExactly(s: string)
    ensures multiset(RemoveUnderscores(s)) == multiset(s)['_' := 0]
  {
    if s != [] {
      var rest := RemoveUnderscores(s[1..]);
      RemoveUnderscoresExactly(s[1..]);
      assert multiset(s) == multiset([s[0]]) + multiset(s[1..]) by {
        assert s == [s[0]] + s[1..];
      }
      if s[0] != '_' {
        assert multiset(RemoveUnderscores(s)) == multiset([s[0]]) + multiset(rest);
      }
    }
  }

  /** No underscore is left. */
  lemma {:induction false} RemoveUnderscoresLeavesNone(s: string)
    ensures '_' !in RemoveUnderscores(s)
  {
    if s != [] {
      RemoveUnderscoresLeavesNone(s[1..]);
    }
  }

  /** A literal Python's `int()` accepts as an unsigned base-10 number:
      digits, with single underscores allowed between two digits. */
  predicate IsDigitGroup(s: string) {
    |s| > 0 && IsDigit(s[0]) && IsDigit(s[|s| - 1])
    && (forall i :: 0 <= i < |s| ==> IsDigit(s[i]) || s[i] == '_')
    && (forall i :: 0 <= i < |s| - 1 ==> IsDigit(s[i]) || IsDigit(s[i + 1]))
  }

  lemma {:induction false} RemoveUnderscoresDigits(s: string)
    requires forall i :: 0 <= i < |s| ==> IsDigit(s[i]) || s[i] == '_'
    ensures AllDigits(RemoveUnderscores(s))
  {
    if s != [] {
      RemoveUnderscoresDigits(s[1..]);
    }
  }

  function GroupValue(s: string): nat
    requires IsDigitGroup(s)
  {
    RemoveUnderscoresDigits(s);
    DigitsValue(RemoveUnderscores(s))
  }

  /** The default of `sys.get_int_max_str_digits()`: `int()` refuses a
      decimal text with more digits than this, underscores not counted,
      and `str()` refuses to print a number with more. */
  const MaxStrDigits: nat := 4300

  predicate WithinDigitLimit(group: string) {
    |RemoveUnderscores(group)| <= MaxStrDigits
  }

  /** `str(n)` prints `n` without exceeding the digit limit. */
  predicate Printable(n: int) {
    |NatToString(if n < 0 then -n else n)| <= MaxStrDigits
  }

  /** The whitespace `int()` strips around its argument: the `str.isspace()`
      characters except the four ASCII separators U+001C..U+001F. `int()`
      turns non-ASCII whitespace into spaces and then skips only the ASCII
      space, tab, newline, vertical tab, form feed and carriage return, so a
      separator character is left in place and the text is refused. */
  predicate IntSpace(c: char) {
    IsSpace(c) && !('\U{1C}' <= c <= '\U{1F}')
  }

  predicate AllIntSpace(s: string) {
    forall i :: 0 <= i < |s| ==> IntSpace(s[i])
  }

  /** The text without the `int()` whitespace at its start. */
  function SkipIntSpace(s: string): (r: string)
    ensures |r| <= |s|
    ensures r != [] ==> !IntSpace(r[0])
  {
    if s != [] && IntSpace(s[0]) then SkipIntSpace(s[1..]) else s
  }

  /** The text without the `int()` whitespace at its end. */
  function TrimEnd(s: string): (r: string)
    ensures |r| <= |s|
    ensures r != [] ==> !IntSpace(r[|r| - 1])
  {
    if s != [] && IntSpace(s[|s| - 1]) then TrimEnd(s[..|s| - 1]) else s
  }

  /** The text `int()` reads: its argument without surrounding whitespace. */
  function Strip(s: string): string {
    TrimEnd(SkipIntSpace(s))
  }

  /** `int(s)`: `None` where Python raises `ValueError`. */
  function ParseInt(s: string): Option<int> {
    var t := Strip(s);
    if |t| > 0 && (t[0] == '+' || t[0] == '-') then
      if IsDigitGroup(t[1..]) && WithinDigitLimit(t[1..]) then
        var v: int := GroupValue(t[1..]);
        Some(if t[0] == '-' then -v else v)
      else None
    else if IsDigitGroup(t) && WithinDigitLimit(t) then Some(GroupValue(t))
    else None
  }

  /** `str(n)` for a non-negative `n`: its decimal digits without leading zeros. */
  function NatToString(n: nat): (s: string)
    ensures |s| > 0 && AllDigits(s)
    ensures s[0] == '0' ==> n == 0
  {
    if n < 10 then [DigitChar(n)] else NatToString(n / 10) + [DigitChar(n % 10)]
  }

  /** `str(n)`: a minus sign exactly for a negative number, then digits. */
  function IntToString(n: int): (s: string)
    ensures |s| > 0 && (s[0] == '-' <==> n < 0)
    ensures AllDigits(if n < 0 then s[1..] else s)
  {
    if n < 0 then "-" + NatToString(-n) else NatToString(n)
  }

  // ---------------------------------------------------------------------
  // Lemmas

  lemma {:induction false} NatToStringValue(n: nat)
    ensures DigitsValue(NatToString(n)) == n
  {
    if n >= 10 {
      var s := NatToString(n);
      NatToStringValue(n / 10);
      assert s[..|s| - 1] == NatToString(n / 10);
    }
  }

  lemma StripUnpadded(s: string)
    requires |s| > 0 && !IntSpace(s[0]) && !IntSpace(s[|s| - 1])
    ensures Strip(s) == s
  {
  }

  lemma NatGroup(n: nat)
    ensures IsDigitGroup(NatToString(n)) && GroupValue(NatToString(n)) == n
  {
    var s := NatToString(n);
    assert RemoveUnderscores(s) == s;
    NatToStringValue(n);
  }

  /** `int()` of a stripped unsigned digit group within the limit. */
  lemma ParseIntUnsigned(t: string)
    requires Strip(t) == t && IsDigitGroup(t) && WithinDigitLimit(t)
    ensures ParseInt(t) == Some(GroupValue(t))
  {
  }

  /** `int()` of a stripped negative digit group within the limit. */
  lemma ParseIntNegative(t: string)
    requires Strip(t) == t && |t| > 1 && t[0] == '-'
    requires IsDigitGroup(t[1..]) && WithinDigitLimit(t[1..])
    ensures ParseInt(t) == Some(-(GroupValue(t[1..]) as int))
  {
  }

  /** `int()` refuses a stripped unsigned text over the digit limit. */
  lemma ParseIntOverLimit(t: string)
    requires Strip(t) == t && |t| > 0 && IsDigit(t[0]) && !WithinDigitLimit(t)
    ensures ParseInt(t).None?
  {
  }

  lemma ParseIntOfDigits(m: nat)
    requires Printable(m)
    ensures ParseInt(NatToString(m)) == Some(m)
  {
    var d := NatToString(m);
    NatGroup(m);
    StripUnpadded(d);
    ParseIntUnsigned(d);
  }

  /** `int()` of a minus sign followed by a digit group within the limit. */
  lemma ParseIntMinus(d: string)
    requires IsDigitGroup(d) && WithinDigitLimit(d) && !IntSpace(d[|d| - 1])
    ensures ParseInt("-" + d) == Some(-(GroupValue(d) as int))
  {
    var s := "-" + d;
    assert s[1..] == d;
    assert s[|s| - 1] == d[|d| - 1];
    StripUnpadded(s);
    ParseIntNegative(s);
  }

  lemma ParseIntOfNegative(m: nat)
    requires Printable(m)
    ensures ParseInt("-" + NatToString(m)) == Some(-(m as int))
  {
    var d := NatToString(m);
    NatGroup(m);
    ParseIntMinus(d);
  }

  /** `int(str(n)) == n`: the printed form of every integer `str()` can
      print parses back. */
  lemma ParseIntRoundTrip(n: int)
    requires Printable(n)
    ensures ParseInt(IntToString(n)) == Some(n)
  {
    if n < 0 {
      ParseIntOfNegative(-n);
    } else {
      ParseIntOfDigits(n);
    }
  }

  /** Surrounding whitespace that `int()` strips, such as a trailing newline
      in a file, does not change what `int()` reads. */
  lemma ParseIntIgnoresPadding(lead: string, s: string, trail: string)
    requires AllIntSpace(lead) && AllIntSpace(trail)
    requires |s| > 0 && !IntSpace(s[0]) && !IntSpace(s[|s| - 1])
    ensures ParseInt(lead + s + trail) == ParseInt(s)
  {
    StripPadded(lead, s, trail);
    StripUnpadded(s);
  }

  lemma StripPadded(lead: string, s: string, trail: string)
    requires AllIntSpace(lead) && AllIntSpace(trail)
    requires |s| > 0 && !IntSpace(s[0]) && !IntSpace(s[|s| - 1])
    ensures Strip(lead + s + trail) == s
  {
    assert lead + s + trail == lead + (s + trail);
    SkipIntSpacePrefix(lead, s + trail);
    SkipIntSpaceSuffix(s, trail);
    assert SkipIntSpace(s) == s;
    TrimEndSpace(s, trail);
  }

  lemma {:induction false} SkipIntSpacePrefix(lead: string, s: string)
    requires AllIntSpace(lead)
    ensures SkipIntSpace(lead + s) == SkipIntSpace(s)
  {
    if lead != [] {
      assert (lead + s)[0] == lead[0];
      assert (lead + s)[1..] == lead[1..] + s;
      SkipIntSpacePrefix(lead[1..], s);
    } else {
      assert lead + s == s;
    }
  }

  lemma {:induction false} SkipIntSpaceSuffix(s: string, trail: string)
    requires |s| > 0 && !IntSpace(s[|s| - 1])
    ensures SkipIntSpace(s + trail) == SkipIntSpace(s) + trail
  {
    assert (s + trail)[0] == s[0];
    if IntSpace(s[0]) {
      assert (s + trail)[1..] == s[1..] + trail;
      SkipIntSpaceSuffix(s[1..], trail);
    }
  }

  lemma {:induction false} TrimEndSpace(x: string, trail: string)
    requires AllIntSpace(trail)
    requires x == [] || !IntSpace(x[|x| - 1])
    ensures TrimEnd(x + trail) == x
    decreases |trail|
  {
    if trail == [] {
      assert x + trail == x;
    } else {
      var u := x + trail;
      assert u[|u| - 1] == trail[|trail| - 1];
      assert u[..|u| - 1] == x + trail[..|trail| - 1];
      TrimEndSpace(x, trail[..|trail| - 1]);
    }
  }

  /** Of a whitespace-free word, `int()` accepts only an optional sign
      followed by digits and single grouping underscores; anything else,
      such as a word with a letter in it, is refused. */
  lemma ParseIntAcceptsOnlyDigits(s: string)
    requires IsWord(s) && ParseInt(s).Some?
    ensures IsDigit(s[0]) || s[0] == '+' || s[0] == '-'
    ensures forall i :: 0 < i < |s| ==> IsDigit(s[i]) || s[i] == '_'
  {
    StripUnpadded(s);
    if s[0] == '+' || s[0] == '-' {
      forall i | 0 < i < |s| ensures IsDigit(s[i]) || s[i] == '_' {
        assert s[i] == s[1..][i - 1];
      }
    }
  }

  /** `TrimEnd` never removes a first character that is not `int()`
      whitespace. */
  lemma {:induction false} TrimEndKeepsFirst(s: string)
    requires s != [] && !IntSpace(s[0])
    ensures TrimEnd(s) != [] && TrimEnd(s)[0] == s[0]
    decreases |s|
  {
    if IntSpace(s[|s| - 1]) {
      TrimEndKeepsFirst(s[..|s| - 1]);
    }
  }

  /** A text starting with one of the ASCII separators U+001C..U+001F is
      refused, although `split()` treats those characters as whitespace. */
  lemma ParseIntRejectsSeparator(s: string)
    requires s != [] && '\U{1C}' <= s[0] <= '\U{1F}'
    ensures ParseInt(s).None?
  {
    assert SkipIntSpace(s) == s;
    TrimEndKeepsFirst(s);
  }

  /** A number with more digits than the limit does not parse back: `int()`
      refuses its digits. */
  lemma ParseIntRejectsLongNumbers(n: nat)
    requires !Printable(n)
    ensures ParseInt(NatToString(n)).None?
  {
    var s := NatToString(n);
    assert RemoveUnderscores(s) == s;
    StripUnpadded(s);
    ParseIntOverLimit(s);
  }
}
