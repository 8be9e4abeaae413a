/** The Python string operations the backend relies on, written out so that
    their edge cases are visible: `strip()`, `split(sep)`, `sep.join(...)`,
    `startswith`, `endswith`, `lstrip(chars)` and `lower()`. */
module PyStr {

  /** The code points Python's `str.isspace()` accepts, as inclusive
      (low, high) ranges: tab to carriage return, the four information
      separators and space, NEL, NBSP, and the Unicode spaces and line and
      paragraph separators. */
  const SpaceRanges: seq<(int, int)> :=
    [(0x09, 0x0D), (0x1C, 0x20), (0x85, 0x85), (0xA0, 0xA0), (0x1680, 0x1680),
     (0x2000, 0x200A), (0x2028, 0x2029), (0x202F, 0x202F), (0x205F, 0x205F), (0x3000, 0x3000)]

  predicate InRanges(n: int, ranges: seq<(int, int)>)
  {
    ranges != [] && (ranges[0].0 <= n <= ranges[0].1 || InRanges(n, ranges[1..]))
  }

  /** `str.isspace()` for a single character: the characters Python's
      argument-less `strip()` removes. */
  predicate IsSpace(c: char)
  {
    InRanges(c as int, SpaceRanges)
  }

  predicate AllSpace(s: string)
  {
    forall i :: 0 <= i < |s| ==> IsSpace(s[i])
  }

  /** The number of whitespace characters `s` starts with. */
  function LeadingSpaces(s: string): (n: nat)
    ensures n <= |s|
    ensures forall i :: 0 <= i < n ==> IsSpace(s[i])
    ensures n < |s| ==> !IsSpace(s[n])
  {
    if s != [] && IsSpace(s[0]) then
      var m := LeadingSpaces(s[1..]);
      assert forall i :: 1 <= i < 1 + m ==> s[i] == s[1..][i - 1];
      1 + m
    else 0
  }

  /** The number of whitespace characters `s` ends with. */
  function TrailingSpaces(s: string): (n: nat)
    ensures n <= |s|
    ensures forall i :: |s| - n <= i < |s| ==> IsSpace(s[i])
    ensures n < |s| ==> !IsSpace(s[|s| - n - 1])
  {
    if s != [] && IsSpace(s[|s| - 1]) then
      var m := TrailingSpaces(s[..|s| - 1]);
      assert forall i :: |s| - 1 - m <= i < |s| - 1 ==> s[i] == s[..|s| - 1][i];
      1 + m
    else 0
  }

  /** `s.lstrip()`: leading whitespace removed. */
  function LStrip(s: string): string
  {
    s[LeadingSpaces(s)..]
  }

  /** The result of `lstrip()` is empty exactly when `s` is all
      whitespace, and otherwise starts with a non-whitespace character. */
  lemma LStripShape(s: string)
    ensures LStrip(s) == [] || !IsSpace(LStrip(s)[0])
    ensures LStrip(s) == [] <==> AllSpace(s)
  {
    var n := LeadingSpaces(s);
    if n < |s| {
      assert LStrip(s)[0] == s[n];
    }
  }

  /** `s.rstrip()`: trailing whitespace removed. */
  function RStrip(s: string): string
  {
    s[..|s| - TrailingSpaces(s)]
  }

  /** The result of `rstrip()` is empty exactly when `s` is all
      whitespace, and otherwise ends with a non-whitespace character. */
  lemma RStripShape(s: string)
    ensures RStrip(s) == [] || !IsSpace(RStrip(s)[|RStrip(s)| - 1])
    ensures RStrip(s) == [] <==> AllSpace(s)
  {
    var n := TrailingSpaces(s);
    if n < |s| {
      assert RStrip(s)[|s| - n - 1] == s[|s| - n - 1];
    }
  }

  /** `s.strip()`. */
  function Strip(s: string): (r: string)
    ensures |r| <= |s|
  {
    RStrip(LStrip(s))
  }

  /** `strip()` gives the empty string exactly for whitespace-only text;
      otherwise its result starts and ends with a non-whitespace
      character. */
  lemma StripShape(s: string)
    ensures Strip(s) == [] <==> AllSpace(s)
    ensures Strip(s) == [] || (!IsSpace(Strip(s)[0]) && !IsSpace(Strip(s)[|Strip(s)| - 1]))
  {
    var l := LStrip(s);
    var r := RStrip(l);
    LStripShape(s);
    RStripShape(l);
    assert r != [] ==> r[0] == l[0];
  }

  /** Every character of the stripped text comes from `s`. */
  lemma StripSubset(s: string)
    ensures forall c :: c in Strip(s) ==> c in s
  {
    var l := LStrip(s);
    var r := RStrip(l);
    assert Strip(s) == r;
    forall c | c in r ensures c in s {
      var i :| 0 <= i < |r| && r[i] == c;
      assert l[i] == c;
      assert s[|s| - |l| + i] == c;
    }
  }

  /** `strip()` is idempotent: a stripped string equals its own strip. */
  lemma StripIdempotent(s: string)
    ensures Strip(Strip(s)) == Strip(s)
  {
    var t := Strip(s);
    StripShape(s);
    if t != [] {
      assert LeadingSpaces(t) == 0;
      assert TrailingSpaces(t) == 0;
      assert LStrip(t) == t;
      assert RStrip(t) == t;
    }
  }

  predicate StartsWith(s: string, prefix: string)
  {
    |prefix| <= |s| && s[..|prefix|] == prefix
  }

  predicate EndsWith(s: string, suffix: string)
  {
    |suffix| <= |s| && s[|s| - |suffix|..] == suffix
  }

  /** `s.split(pat)` for a non-empty separator: scan from the left, cut at
      each non-overlapping occurrence of `pat`. */
  function SplitOn(s: string, pat: string): (parts: seq<string>)
    requires pat != []
    ensures |parts| >= 1
    decreases |s|
  {
    if |s| < |pat| then [s]
    else if s[..|pat|] == pat then [""] + SplitOn(s[|pat|..], pat)
    else
      var rest := SplitOn(s[1..], pat);
      [[s[0]] + rest[0]] + rest[1..]
  }

  /** `sep.join(parts)`. */
  function Join(parts: seq<string>, sep: string): string
  {
    if |parts| == 0 then ""
    else if |parts| == 1 then parts[0]
    else parts[0] + sep + Join(parts[1..], sep)
  }

  /** Joining the pieces of a split with the same separator gives the
      original text back. */
  lemma {:induction false} SplitJoin(s: string, pat: string)
    requires pat != []
    ensures Join(SplitOn(s, pat), pat) == s
    decreases |s|
  {
    if |s| < |pat| {
    } else if s[..|pat|] == pat {
      var tail := SplitOn(s[|pat|..], pat);
      SplitJoin(s[|pat|..], pat);
      assert SplitOn(s, pat) == [""] + tail;
      JoinCons("", tail, pat);
      assert s == pat + s[|pat|..];
    } else {
      var rest := SplitOn(s[1..], pat);
      SplitJoin(s[1..], pat);
      assert SplitOn(s, pat) == [[s[0]] + rest[0]] + rest[1..];
      JoinGrowHead(s[0], rest, pat);
      assert s == [s[0]] + s[1..];
    }
  }

  lemma JoinCons(x: string, rest: seq<string>, sep: string)
    requires |rest| >= 1
    ensures Join([x] + rest, sep) == x + sep + Join(rest, sep)
  {
    assert ([x] + rest)[1..] == rest;
  }

  /** Putting a character in front of the first part puts it in front of
      the join. */
  lemma JoinGrowHead(c: char, parts: seq<string>, sep: string)
    requires |parts| >= 1
    ensures Join([[c] + parts[0]] + parts[1..], sep) == [c] + Join(parts, sep)
  {
    if |parts| == 1 {
      assert [[c] + parts[0]] + parts[1..] == [[c] + parts[0]];
    } else {
      JoinCons([c] + parts[0], parts[1..], sep);
      JoinCons(parts[0], parts[1..], sep);
      assert parts == [parts[0]] + parts[1..];
    }
  }

  /** Number of occurrences of `c` in `s`. */
  function Count(s: string, c: char): nat
  {
    if s == [] then 0 else (if s[0] == c then 1 else 0) + Count(s[1..], c)
  }

  /** Splitting on one character gives one piece more than the number of
      times that character occurs, and no piece contains it. */
  lemma {:induction false} SplitOnCharShape(s: string, c: char)
    ensures |SplitOn(s, [c])| == Count(s, c) + 1
    ensures forall k :: 0 <= k < |SplitOn(s, [c])| ==> c !in SplitOn(s, [c])[k]
    decreases |s|
  {
    if |s| < 1 {
    } else if s[..1] == [c] {
      SplitOnCharShape(s[1..], c);
      assert s[0] == c;
      assert s[1..] == s[|[c]|..];
    } else {
      SplitOnCharShape(s[1..], c);
      assert s[0] != c;
      var rest := SplitOn(s[1..], [c]);
      var parts := [[s[0]] + rest[0]] + rest[1..];
      assert SplitOn(s, [c]) == parts;
      forall k | 0 <= k < |parts| ensures c !in parts[k] {
        if k > 0 { assert parts[k] == rest[k]; }
      }
    }
  }

  /** Splitting distributes over a separator placed between two texts. */
  lemma {:induction false} SplitOnCharAppend(a: string, c: char, b: string)
    ensures c !in a ==> SplitOn(a + [c] + b, [c]) == [a] + SplitOn(b, [c])
    decreases |a|
  {
    if c !in a {
      var s := a + [c] + b;
      if a == [] {
        assert s[..1] == [c];
        assert s[1..] == b;
      } else {
        assert s[..1] == [a[0]];
        assert s[1..] == a[1..] + [c] + b;
        SplitOnCharAppend(a[1..], c, b);
        assert [a[0]] + a[1..] == a;
      }
    }
  }

  /** The first piece of `s.split(pat)`: the text before the first
      occurrence of `pat`, or all of `s` when there is none. */
  lemma {:induction false} FirstPieceIsPrefix(s: string, pat: string)
    requires pat != []
    ensures var p := SplitOn(s, pat)[0];
      && |p| <= |s| && s[..|p|] == p
      && (forall i :: 0 <= i < |p| ==> !StartsWith(s[i..], pat))
      && (|p| == |s| || StartsWith(s[|p|..], pat))
    decreases |s|
  {
    var p := SplitOn(s, pat)[0];
    if |s| < |pat| {
      forall i | 0 <= i < |p| ensures !StartsWith(s[i..], pat) { }
    } else if s[..|pat|] == pat {
    } else {
      FirstPieceIsPrefix(s[1..], pat);
      var q := SplitOn(s[1..], pat)[0];
      assert p == [s[0]] + q;
      forall i | 0 <= i < |p| ensures !StartsWith(s[i..], pat) {
        if i > 0 {
          assert s[i..] == s[1..][i - 1..];
        }
      }
      if |p| < |s| {
        assert s[|p|..] == s[1..][|q|..];
      }
    }
  }

  /** A text as `[x.strip() for x in xs if x.strip()]` keeps it: non-empty
      and stripped. */
  predicate Clean(o: string)
  {
    o != "" && Strip(o) == o
  }

  /** `[x.strip() for x in xs if x.strip()]`: each non-blank text,
      stripped, in order. */
  function StrippedNonBlank(pieces: seq<string>): (r: seq<string>)
    ensures |r| <= |pieces|
  {
    if pieces == [] then []
    else
      var o := Strip(pieces[0]);
      if o != "" then [o] + StrippedNonBlank(pieces[1..]) else StrippedNonBlank(pieces[1..])
  }

  /** Every kept text is non-empty and already stripped. */
  lemma {:induction false} StrippedNonBlankClean(pieces: seq<string>)
    ensures forall k :: 0 <= k < |StrippedNonBlank(pieces)| ==> Clean(StrippedNonBlank(pieces)[k])
  {
    if pieces != [] {
      var rest := StrippedNonBlank(pieces[1..]);
      StrippedNonBlankClean(pieces[1..]);
      var o := Strip(pieces[0]);
      if o != "" {
        StripIdempotent(pieces[0]);
        assert Clean(o);
        var r := [o] + rest;
        assert StrippedNonBlank(pieces) == r;
        forall k | 0 <= k < |r| ensures Clean(r[k]) {
          if k > 0 { assert r[k] == rest[k - 1]; }
        }
      }
    }
  }

  /** A character absent from every piece is absent from every kept text. */
  lemma {:induction false} StrippedNonBlankAvoids(pieces: seq<string>, c: char)
    requires forall j :: 0 <= j < |pieces| ==> c !in pieces[j]
    ensures forall k :: 0 <= k < |StrippedNonBlank(pieces)| ==> c !in StrippedNonBlank(pieces)[k]
  {
    if pieces != [] {
      StrippedNonBlankAvoids(pieces[1..], c);
      StripSubset(pieces[0]);
    }
  }

  /** The comprehension distributes over concatenation. */
  lemma {:induction false} StrippedNonBlankAppend(a: seq<string>, b: seq<string>)
    ensures StrippedNonBlank(a + b) == StrippedNonBlank(a) + StrippedNonBlank(b)
  {
    if a == [] {
      assert a + b == b;
    } else {
      assert (a + b)[1..] == a[1..] + b;
      StrippedNonBlankAppend(a[1..], b);
    }
  }

  lemma {:induction false} CountAbsent(s: string, c: char)
    requires c !in s
    ensures Count(s, c) == 0
  {
    if s != [] {
      assert c !in s[1..];
      CountAbsent(s[1..], c);
    }
  }

  /** The comprehension keeps nothing exactly when every text is blank. */
  lemma {:induction false} StrippedNonBlankEmpty(pieces: seq<string>)
    ensures StrippedNonBlank(pieces) == [] <==> forall j :: 0 <= j < |pieces| ==> AllSpace(pieces[j])
  {
    if pieces != [] {
      var rest := pieces[1..];
      StrippedNonBlankEmpty(rest);
      StripShape(pieces[0]);
      assert StrippedNonBlank(pieces) ==
        if Strip(pieces[0]) != "" then [Strip(pieces[0])] + StrippedNonBlank(rest) else StrippedNonBlank(rest);
      assert (forall j :: 0 <= j < |pieces| ==> AllSpace(pieces[j])) <==>
        AllSpace(pieces[0]) && forall j :: 0 <= j < |rest| ==> AllSpace(rest[j]) by {
        assert forall j :: 1 <= j < |pieces| ==> pieces[j] == rest[j - 1];
      }
    }
  }

  /** Joining a concatenation: the two joins with one separator between
      them, unless one side is empty. */
  lemma {:induction false} JoinAppend(p: seq<string>, q: seq<string>, sep: string)
    ensures Join(p + q, sep) ==
      if p == [] then Join(q, sep)
      else if q == [] then Join(p, sep)
      else Join(p, sep) + sep + Join(q, sep)
  {
    if p == [] {
      assert p + q == q;
    } else if q == [] {
      assert p + q == p;
    } else if |p| == 1 {
      assert (p + q)[1..] == q;
    } else {
      assert (p + q)[1..] == p[1..] + q;
      JoinAppend(p[1..], q, sep);
    }
  }

  /** A join of non-empty texts starts with the first text's first
      character and ends with the last text's last character. */
  lemma {:induction false} JoinEnds(parts: seq<string>, sep: string)
    requires |parts| >= 1
    requires forall j :: 0 <= j < |parts| ==> parts[j] != []
    ensures |Join(parts, sep)| > 0
    ensures Join(parts, sep)[0] == parts[0][0]
    ensures Join(parts, sep)[|Join(parts, sep)| - 1] == parts[|parts| - 1][|parts[|parts| - 1]| - 1]
  {
    if |parts| > 1 {
      var rest := parts[1..];
      JoinEnds(rest, sep);
      assert Join(parts, sep) == parts[0] + sep + Join(rest, sep);
      assert rest[|rest| - 1] == parts[|parts| - 1];
    }
  }

  /** A join of clean texts neither starts nor ends with whitespace. */
  lemma JoinCleanEnds(parts: seq<string>, sep: string)
    requires |parts| >= 1
    requires forall j :: 0 <= j < |parts| ==> Clean(parts[j])
    ensures |Join(parts, sep)| > 0
    ensures !IsSpace(Join(parts, sep)[0]) && !IsSpace(Join(parts, sep)[|Join(parts, sep)| - 1])
  {
    var text := Join(parts, sep);
    var first := parts[0];
    var last := parts[|parts| - 1];
    assert forall j :: 0 <= j < |parts| ==> parts[j] != [];
    JoinEnds(parts, sep);
    assert text[0] == first[0] && text[|text| - 1] == last[|last| - 1];
    CleanEnds(first);
    CleanEnds(last);
  }

  /** A clean text starts and ends with a non-whitespace character. */
  lemma CleanEnds(o: string)
    requires Clean(o)
    ensures !IsSpace(o[0]) && !IsSpace(o[|o| - 1])
  {
    StripShape(o);
    assert Strip(o) == o;
  }

  /** Splitting text that lacks the separator character gives it back whole. */
  lemma SplitOnCharAbsent(s: string, c: char)
    requires c !in s
    ensures SplitOn(s, [c]) == [s]
  {
    SplitOnCharShape(s, c);
    CountAbsent(s, c);
    SplitJoin(s, [c]);
  }

  /** Splitting undoes joining when no piece contains the separator
      character. */
  lemma {:induction false} JoinThenSplit(parts: seq<string>, c: char)
    requires |parts| >= 1
    requires forall j :: 0 <= j < |parts| ==> c !in parts[j]
    ensures SplitOn(Join(parts, [c]), [c]) == parts
  {
    if |parts| == 1 {
      SplitOnCharAbsent(parts[0], c);
    } else {
      JoinThenSplit(parts[1..], c);
      SplitOnCharAppend(parts[0], c, Join(parts[1..], [c]));
      assert [parts[0]] + parts[1..] == parts;
    }
  }

  /** The characters of a string, as a set: what `lstrip(chars)` takes
      its argument to mean. */
  function CharsOf(s: string): (r: set<char>)
    ensures forall c :: c in r <==> c in s
  {
    if s == [] then {} else {s[0]} + CharsOf(s[1..])
  }

  /** `s.lstrip(chars)`: drops leading characters that belong to the set
      `chars`; it does not remove a prefix string. */
  function LStripChars(s: string, chars: set<char>): string
  {
    if s != [] && s[0] in chars then LStripChars(s[1..], chars) else s
  }

  /** A leading run made only of characters in the set is always removed,
      and then stripping goes on into what follows it. */
  lemma {:induction false} LStripCharsPrefix(p: string, rest: string, chars: set<char>)
    requires forall i :: 0 <= i < |p| ==> p[i] in chars
    ensures LStripChars(p + rest, chars) == LStripChars(rest, chars)
    decreases |p|
  {
    if p != [] {
      assert (p + rest)[0] == p[0];
      assert LStripChars(p + rest, chars) == LStripChars((p + rest)[1..], chars);
      assert (p + rest)[1..] == p[1..] + rest;
      LStripCharsPrefix(p[1..], rest, chars);
    } else {
      assert p + rest == rest;
    }
  }

  /** ASCII `lower()`. */
  function LowerChar(c: char): char
  {
    if 'A' <= c <= 'Z' then (c as int + 32) as char else c
  }

  function Lower(s: string): (r: string)
    ensures |r| == |s|
  {
    seq(|s|, i requires 0 <= i < |s| => LowerChar(s[i]))
  }
}
