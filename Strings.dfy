/** The string operations the server and client use: `split`/`join` on one
    separator character, `pop()` of the last segment, `toLowerCase`,
    `endsWith`, `replace` of the first occurrence, and number-to-decimal
    formatting. Strings are sequences of characters. */
module Strings {

  import opened Wrappers

  /** The last element of a non-empty sequence (`Array.prototype.pop` on a
      split result, which always has one element at least). */
  function Last<T>(xs: seq<T>): T
    requires |xs| > 0
  {
    xs[|xs| - 1]
  }

  /** `s.split(sep)` for a one-character separator: the maximal pieces of `s`
      between occurrences of `sep`, so there is always one piece more than
      there are separators. Defined from the right end, as `pop()` reads it. */
  function Split(s: string, sep: char): (parts: seq<string>)
    ensures |parts| >= 1
    ensures forall i :: 0 <= i < |parts| ==> sep !in parts[i]
    decreases |s|
  {
    if s == [] then [""]
    else
      var init := Split(s[..|s| - 1], sep);
      var c := s[|s| - 1];
      if c == sep then init + [""]
      else init[..|init| - 1] + [Last(init) + [c]]
  }

  /** `parts.join(sep)`. */
  function Join(parts: seq<string>, sep: char): string
    requires |parts| >= 1
    decreases |parts|
  {
    if |parts| == 1 then parts[0]
    else Join(parts[..|parts| - 1], sep) + [sep] + Last(parts)
  }

  /** Joining the pieces of a split with the same separator gives the string back. */
  lemma {:induction false} JoinSplit(s: string, sep: char)
    ensures Join(Split(s, sep), sep) == s
    decreases |s|
  {
    if s != [] {
      var s', c := s[..|s| - 1], s[|s| - 1];
      var init := Split(s', sep);
      JoinSplit(s', sep);
      assert s == s' + [c];
      if c == sep {
        var parts := init + [""];
        assert parts[..|parts| - 1] == init;
      } else {
        var parts := init[..|init| - 1] + [Last(init) + [c]];
        if |init| > 1 {
          assert parts[..|parts| - 1] == init[..|init| - 1];
          assert Join(init, sep) == Join(init[..|init| - 1], sep) + [sep] + Last(init);
        }
      }
    }
  }

  /** A string without the separator splits into itself alone. */
  lemma {:induction false} SplitWithoutSeparator(s: string, sep: char)
    requires sep !in s
    ensures Split(s, sep) == [s]
    decreases |s|
  {
    if s != [] {
      var s' := s[..|s| - 1];
      assert sep !in s' by {
        forall i | 0 <= i < |s'| ensures s'[i] != sep { assert s'[i] == s[i]; }
      }
      SplitWithoutSeparator(s', sep);
      assert s == s' + [s[|s| - 1]];
    }
  }

  /** Appending one character either opens a new, empty segment (the
      separator) or extends the last one. */
  lemma SplitSnoc(s: string, c: char, sep: char)
    ensures var p := Split(s, sep);
            Split(s + [c], sep) == if c == sep then p + [""] else p[..|p| - 1] + [Last(p) + [c]]
  {
    assert (s + [c])[..|s|] == s;
    assert (s + [c])[|s|] == c;
  }

  /** Splitting `x + y`: the complete pieces of `x` are kept, and the trailing
      piece of `x` is continued by `y`. This is what makes feeding text to a
      line splitter in chunks lossless. */
  lemma {:induction false} SplitConcat(x: string, y: string, sep: char)
    ensures var px := Split(x, sep);
            Split(x + y, sep) == px[..|px| - 1] + Split(Last(px) + y, sep)
    decreases |y|
  {
    var px := Split(x, sep);
    if y == [] {
      assert x + y == x;
      assert Last(px) + y == Last(px);
      SplitWithoutSeparator(Last(px), sep);
      assert px == px[..|px| - 1] + [Last(px)];
    } else {
      var y', c := y[..|y| - 1], y[|y| - 1];
      SplitConcat(x, y', sep);
      assert x + y == (x + y') + [c];
      assert Last(px) + y == (Last(px) + y') + [c];
      SplitConcatStep(x + y', Last(px) + y', c, sep, px[..|px| - 1]);
    }
  }

  /** One step of `SplitConcat`: a common prefix of complete pieces survives
      appending a character to both strings. */
  lemma SplitConcatStep(x: string, y: string, c: char, sep: char, done: seq<string>)
    requires Split(x, sep) == done + Split(y, sep)
    ensures Split(x + [c], sep) == done + Split(y + [c], sep)
  {
    SplitSnoc(x, c, sep);
    SplitSnoc(y, c, sep);
    var b := Split(y, sep);
    if c != sep {
      ExtendLast(done, b, c);
    }
  }

  /** Dropping or reading the last element of `a + b` touches only `b`. */
  lemma DropLastConcat<T>(a: seq<T>, b: seq<T>)
    requires |b| >= 1
    ensures (a + b)[..|a + b| - 1] == a + b[..|b| - 1]
    ensures Last(a + b) == Last(b)
  {
  }

  /** Extending the last piece of `a + b` extends the last piece of `b`. */
  lemma ExtendLast(a: seq<string>, b: seq<string>, c: char)
    requires |b| >= 1
    ensures var ab := a + b;
            ab[..|ab| - 1] + [Last(ab) + [c]] == a + (b[..|b| - 1] + [Last(b) + [c]])
  {
    DropLastConcat(a, b);
  }

  /** `s.split(sep).pop()`: the text after the last separator, or all of `s`
      when it holds no separator. */
  function LastSegment(s: string, sep: char): string
  {
    Last(Split(s, sep))
  }

  /** The last segment holds no separator and is a suffix of `s`, preceded in
      `s` by a separator unless it is all of `s`. */
  lemma {:induction false} LastSegmentIsSuffix(s: string, sep: char)
    ensures var t := LastSegment(s, sep);
            && sep !in t
            && |t| <= |s|
            && s[|s| - |t|..] == t
            && (|t| < |s| ==> s[|s| - |t| - 1] == sep)
    decreases |s|
  {
    if s != [] {
      var s', c := s[..|s| - 1], s[|s| - 1];
      LastSegmentIsSuffix(s', sep);
      assert s == s' + [c];
    }
  }

  /** Only the text after the last separator counts. */
  lemma LastSegmentAfterSeparator(p: string, q: string, sep: char)
    requires sep !in q
    ensures LastSegment(p + [sep] + q, sep) == q
  {
    var x := p + [sep];
    assert x[..|x| - 1] == p;
    SplitConcat(x, q, sep);
    SplitWithoutSeparator([] + q, sep);
    assert Last(Split(x, sep)) + q == q;
  }

  /** A string without a separator is its own last segment. */
  lemma LastSegmentWithoutSeparator(s: string, sep: char)
    requires sep !in s
    ensures LastSegment(s, sep) == s
  {
    SplitWithoutSeparator(s, sep);
  }

  /** `toLowerCase` on the ASCII letters; every other character is kept. */
  function LowerChar(c: char): char
  {
    if 'A' <= c <= 'Z' then (c as int + 32) as char else c
  }

  function AsciiLower(s: string): (r: string)
    ensures |r| == |s|
    ensures forall i :: 0 <= i < |s| ==> r[i] == LowerChar(s[i])
  {
    seq(|s|, i requires 0 <= i < |s| => LowerChar(s[i]))
  }

  /** `s.endsWith(suffix)`. */
  predicate EndsWith(s: string, suffix: string)
  {
    |suffix| <= |s| && s[|s| - |suffix|..] == suffix
  }

  /** `pat` occurs in `s` starting at index `i`. */
  predicate OccursAt(s: string, pat: string, i: nat)
  {
    i + |pat| <= |s| && s[i..i + |pat|] == pat
  }

  /** The first index at or after `from` where `pat` occurs in `s`, if any. */
  function FirstOccurrence(s: string, pat: string, from: nat): (r: Option<nat>)
    ensures r.Some? ==> from <= r.value && OccursAt(s, pat, r.value)
    ensures r.Some? ==> forall j :: from <= j < r.value ==> !OccursAt(s, pat, j)
    ensures r.None? ==> forall j :: from <= j ==> !OccursAt(s, pat, j)
    decreases |s| - from
  {
    if from + |pat| > |s| then None
    else if s[from..from + |pat|] == pat then Some(from)
    else FirstOccurrence(s, pat, from + 1)
  }

  /** `s.replace(pat, '')` with a string pattern: only the first occurrence of
      `pat` is removed; `s` is returned unchanged when `pat` does not occur. */
  function RemoveFirst(s: string, pat: string): string
  {
    match FirstOccurrence(s, pat, 0)
    case None => s
    case Some(i) => s[..i] + s[i + |pat|..]
  }

  /** Decimal digits of a natural number, as JavaScript's `${n}` prints it. */
  function NatToString(n: nat): (r: string)
    ensures |r| >= 1
    ensures forall i :: 0 <= i < |r| ==> '0' <= r[i] <= '9'
    decreases n
  {
    var d := ['0' + (n % 10) as char];
    if n < 10 then d else NatToString(n / 10) + d
  }

  /** The number a string of decimal digits denotes. */
  function DecimalValue(s: string): nat
    requires forall i :: 0 <= i < |s| ==> '0' <= s[i] <= '9'
    decreases |s|
  {
    if s == [] then 0
    else DecimalValue(s[..|s| - 1]) * 10 + (s[|s| - 1] as int - '0' as int)
  }

  /** Reading the printed digits back gives the number. */
  lemma {:induction false} NatToStringValue(n: nat)
    ensures DecimalValue(NatToString(n)) == n
    decreases n
  {
    var d := ['0' + (n % 10) as char];
    if n >= 10 {
      var s := NatToString(n / 10) + d;
      assert s[..|s| - 1] == NatToString(n / 10);
      NatToStringValue(n / 10);
    }
  }

  /** Different numbers are printed differently. */
  lemma NatToStringInjective(a: nat, b: nat)
    requires NatToString(a) == NatToString(b)
    ensures a == b
  {
    NatToStringValue(a);
    NatToStringValue(b);
  }

  /** `${n}` for an integer: a minus sign before the digits when negative. */
  function IntToString(n: int): (r: string)
    ensures |r| >= 1
    ensures n >= 0 ==> forall i :: 0 <= i < |r| ==> '0' <= r[i] <= '9'
    ensures n < 0 ==> r[0] == '-'
  {
    if n < 0 then "-" + NatToString(-n) else NatToString(n)
  }
}
