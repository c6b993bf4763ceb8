/** Small value types shared by every module of the model. */
module Common {

  /** An absent or present value; stands for Python's `None` and for a missing dictionary key. */
  datatype Option<+T> = None | Some(value: T)

  /** A value, or the reason it could not be produced; stands for a raised exception. */
  datatype Result<+T, +E> = Ok(value: T) | Err(error: E)

  /** Python's `xs[:n]` for an integer `n` that may be negative or exceed the length. */
  function SlicePrefix<T>(xs: seq<T>, n: int): (r: seq<T>)
    ensures 0 <= n ==> |r| == if n < |xs| then n else |xs|
    ensures n < 0 ==> |r| == if |xs| + n < 0 then 0 else |xs| + n
    ensures r == xs[..|r|]
  {
    if n >= 0 then (if n < |xs| then xs[..n] else xs)
    else if |xs| + n < 0 then []
    else xs[..|xs| + n]
  }

  /** True when no element occurs twice. */
  predicate NoDuplicates<T(==)>(xs: seq<T>)
  {
    forall i, j :: 0 <= i < j < |xs| ==> xs[i] != xs[j]
  }

  /** No element occurs twice, stated the way a list grows: each element is new when appended. */
  predicate Distinct<T(==)>(xs: seq<T>)
  {
    xs == [] || (Distinct(xs[..|xs| - 1]) && xs[|xs| - 1] !in xs[..|xs| - 1])
  }

  /** Both ways of saying "no element occurs twice" agree. */
  lemma {:induction false} DistinctNoDuplicates<T>(xs: seq<T>)
    ensures Distinct(xs) <==> NoDuplicates(xs)
  {
    if xs != [] {
      var init := xs[..|xs| - 1];
      DistinctNoDuplicates(init);
      assert forall i :: 0 <= i < |init| ==> xs[i] == init[i];
      if NoDuplicates(xs) {
        assert forall i :: 0 <= i < |init| ==> init[i] != xs[|xs| - 1];
      }
    }
  }
}

/**
 * The parts of Python's `str` that the modelled code relies on, over
 * `string` (a sequence of Unicode code points).
 */
module Strings {

  /** `c.isspace()`: the code points Python treats as whitespace (used by `strip()` and `split()`). */
  predicate IsSpace(c: char)
  {
    ('\U{9}' <= c <= '\U{D}') || ('\U{1C}' <= c <= '\U{1F}') || c == ' '
    || c == '\U{85}' || c == '\U{A0}' || c == '\U{1680}'
    || ('\U{2000}' <= c <= '\U{200A}') || c == '\U{2028}' || c == '\U{2029}'
    || c == '\U{202F}' || c == '\U{205F}' || c == '\U{3000}'
  }

  /** The code points at which `str.splitlines()` ends a line. */
  predicate IsLineBreak(c: char)
  {
    c == '\n' || c == '\r' || c == '\U{B}' || c == '\U{C}'
    || c == '\U{1C}' || c == '\U{1D}' || c == '\U{1E}'
    || c == '\U{85}' || c == '\U{2028}' || c == '\U{2029}'
  }

  /** `s.lstrip()`: drops the leading whitespace, and only that. */
  function LStrip(s: string): (r: string)
    ensures |r| <= |s| && r == s[|s| - |r|..]
    ensures forall k :: 0 <= k < |s| - |r| ==> IsSpace(s[k])
    ensures r != [] ==> !IsSpace(r[0])
  {
    if s != [] && IsSpace(s[0]) then LStrip(s[1..]) else s
  }

  /** `s.rstrip()`: drops the trailing whitespace, and only that. */
  function RStrip(s: string): (r: string)
    ensures |r| <= |s| && r == s[..|r|]
    ensures forall k :: |r| <= k < |s| ==> IsSpace(s[k])
    ensures r != [] ==> !IsSpace(r[|r| - 1])
  {
    if s != [] && IsSpace(s[|s| - 1]) then RStrip(s[..|s| - 1]) else s
  }

  /** The number of leading whitespace code points of `s`. */
  function Lead(s: string): nat
  {
    |s| - |LStrip(s)|
  }

  /** `s.strip()`: the slice of `s` left after dropping whitespace at both ends. */
  function Strip(s: string): (r: string)
    ensures |r| <= |s|
    ensures r != [] ==> !IsSpace(r[0]) && !IsSpace(r[|r| - 1])
    ensures Lead(s) + |r| <= |s| && r == s[Lead(s)..Lead(s) + |r|]
  {
    var l := LStrip(s);
    var r := RStrip(l);
    SuffixPrefix(s, |s| - |l|, |r|);
    r
  }

  /** A prefix of a suffix is a slice. */
  lemma SuffixPrefix(s: string, i: nat, n: nat)
    requires i + n <= |s|
    ensures s[i..][..n] == s[i..i + n]
  {
  }

  /** A string with no whitespace at either end is its own `strip()`. */
  lemma StripUnpadded(s: string)
    requires s != [] ==> !IsSpace(s[0]) && !IsSpace(s[|s| - 1])
    ensures Strip(s) == s
  {
    if s != [] {
      assert LStrip(s) == s;
      assert RStrip(s) == s;
    }
  }

  /** `s.strip().strip() == s.strip()`. */
  lemma StripIdempotent(s: string)
    ensures Strip(Strip(s)) == Strip(s)
  {
    StripUnpadded(Strip(s));
  }

  /** `c.lower()` for ASCII letters; every other code point is left as it is. */
  function LowerChar(c: char): char
  {
    if 'A' <= c <= 'Z' then (c as int + 32) as char else c
  }

  /** `c.upper()` for ASCII letters; every other code point is left as it is. */
  function UpperChar(c: char): char
  {
    if 'a' <= c <= 'z' then (c as int - 32) as char else c
  }

  function Lower(s: string): (r: string)
    ensures |r| == |s| && forall k :: 0 <= k < |s| ==> r[k] == LowerChar(s[k])
  {
    seq(|s|, k requires 0 <= k < |s| => LowerChar(s[k]))
  }

  function Upper(s: string): (r: string)
    ensures |r| == |s| && forall k :: 0 <= k < |s| ==> r[k] == UpperChar(s[k])
  {
    seq(|s|, k requires 0 <= k < |s| => UpperChar(s[k]))
  }

  /** Lower-casing ignores an earlier upper-casing. */
  lemma LowerOfUpper(s: string)
    ensures Lower(Upper(s)) == Lower(s)
  {
    assert forall k :: 0 <= k < |s| ==> LowerChar(UpperChar(s[k])) == LowerChar(s[k]);
  }

  /** Lower-casing works code point by code point, so it distributes over concatenation. */
  lemma LowerConcat(a: string, b: string)
    ensures Lower(a + b) == Lower(a) + Lower(b)
  {
  }

  /** `lstrip()` removes any run of leading whitespace. */
  lemma {:induction false} LStripSpaces(pad: string, t: string)
    requires forall k :: 0 <= k < |pad| ==> IsSpace(pad[k])
    ensures LStrip(pad + t) == LStrip(t)
    decreases |pad|
  {
    if pad != [] {
      var s := pad + t;
      assert s[0] == pad[0] && IsSpace(s[0]);
      assert s[1..] == pad[1..] + t;
      assert LStrip(s) == LStrip(s[1..]);
      LStripSpaces(pad[1..], t);
    } else {
      assert pad + t == t;
    }
  }

  /** A letter is not whitespace. */
  lemma LetterNotSpace(c: char)
    requires 'A' <= UpperChar(c) <= 'Z'
    ensures !IsSpace(c)
  {
  }

  lemma StripAfterSpaces(pad: string, t: string)
    requires forall k :: 0 <= k < |pad| ==> IsSpace(pad[k])
    requires t != [] && !IsSpace(t[0])
    ensures Strip(pad + t) == RStrip(t)
  {
    LStripSpaces(pad, t);
    assert LStrip(t) == t;
  }

  lemma RStripKeeps(t: string, i: nat)
    requires i < |t| && !IsSpace(t[i])
    ensures |RStrip(t)| > i && RStrip(t) == t[..|RStrip(t)|]
  {
  }

  /**
   * Stripping a text made of whitespace, then `head` (whose first and last
   * code points are not whitespace), then anything, keeps `head` in front.
   */
  lemma StripKeepsHead(pad: string, head: string, rest: string)
    requires forall k :: 0 <= k < |pad| ==> IsSpace(pad[k])
    requires head != [] && !IsSpace(head[0]) && !IsSpace(head[|head| - 1])
    ensures |Strip(pad + head + rest)| >= |head| && Strip(pad + head + rest)[..|head|] == head
  {
    var t := head + rest;
    assert pad + head + rest == pad + t;
    StripAfterSpaces(pad, t);
    RStripKeeps(t, |head| - 1);
    var r := RStrip(t);
    assert r[..|head|] == t[..|head|];
    assert t[..|head|] == head;
  }

  /** No code point of `s` ends a line. */
  predicate NoLineBreak(s: string)
  {
    forall j :: 0 <= j < |s| ==> !IsLineBreak(s[j])
  }

  /** The longest prefix of `s` in which no code point satisfies `stop`. */
  function TakeUntil(s: string, stop: char -> bool): (r: string)
    ensures |r| <= |s| && r == s[..|r|]
    ensures forall j :: 0 <= j < |r| ==> !stop(s[j])
    ensures |r| < |s| ==> stop(s[|r|])
  {
    if s == [] || stop(s[0]) then [] else [s[0]] + TakeUntil(s[1..], stop)
  }

  /** A prefix free of `stop` code points, followed by one or by nothing, is what `TakeUntil` finds. */
  lemma {:induction false} TakeUntilConcat(a: string, b: string, stop: char -> bool)
    requires forall j :: 0 <= j < |a| ==> !stop(a[j])
    requires b == [] || stop(b[0])
    ensures TakeUntil(a + b, stop) == a
    decreases |a|
  {
    if a == [] {
      assert a + b == b;
    } else {
      assert (a + b)[0] == a[0];
      assert (a + b)[1..] == a[1..] + b;
      TakeUntilConcat(a[1..], b, stop);
    }
  }

  /** `s.startswith(p)`. */
  predicate StartsWith(s: string, p: string)
  {
    |p| <= |s| && s[..|p|] == p
  }

  /** `needle in hay`: some position of `hay` starts with `needle` (the empty needle is everywhere). */
  predicate Contains(hay: string, needle: string)
    decreases |hay|
  {
    StartsWith(hay, needle) || (hay != [] && Contains(hay[1..], needle))
  }

  lemma {:induction false} ContainsExtends(hay: string, more: string, needle: string)
    requires Contains(hay, needle)
    ensures Contains(hay + more, needle)
  {
    if StartsWith(hay, needle) {
      assert (hay + more)[..|needle|] == hay[..|needle|];
    } else {
      ContainsExtends(hay[1..], more, needle);
      assert (hay + more)[1..] == hay[1..] + more;
    }
  }

  /** `s.split(sep)` for a one-character separator: never empty, no piece holds `sep` or is longer than `s`. */
  function SplitOn(s: string, sep: char): (r: seq<string>)
    ensures |r| >= 1
    ensures forall k, j :: 0 <= k < |r| && 0 <= j < |r[k]| ==> r[k][j] != sep
    ensures forall k :: 0 <= k < |r| ==> |r[k]| <= |s|
  {
    if s == [] then [""]
    else
      var rest := SplitOn(s[1..], sep);
      if s[0] == sep then [""] + rest
      else
        var first := [s[0]] + rest[0];
        assert forall j :: 1 <= j < |first| ==> first[j] == rest[0][j - 1];
        [first] + rest[1..]
  }

  /** Joining the pieces with the separator gives the text back. */
  lemma {:induction false} SplitOnJoin(s: string, sep: char)
    ensures Join(SplitOn(s, sep), [sep]) == s
    decreases |s|
  {
    if s != [] {
      var rest := SplitOn(s[1..], sep);
      SplitOnJoin(s[1..], sep);
      var r := SplitOn(s, sep);
      if s[0] == sep {
        assert s == [sep] + s[1..];
        assert r[1..] == rest;
      } else {
        assert Join(r, [sep]) == [s[0]] + Join(rest, [sep]) by {
          if |rest| > 1 {
            assert r[1..] == rest[1..];
          }
        }
      }
    }
  }

  /**
   * Splitting a text that starts with a separator-free `head`, followed by
   * nothing or by a separator: `head` is the first piece and the rest are
   * the pieces of what follows the separator.
   */
  lemma {:induction false} SplitOnHead(head: string, tail: string, sep: char)
    requires forall k :: 0 <= k < |head| ==> head[k] != sep
    requires tail == [] || tail[0] == sep
    ensures SplitOn(head + tail, sep)[0] == head
    ensures tail != [] ==> SplitOn(head + tail, sep)[1..] == SplitOn(tail[1..], sep)
    decreases |head|
  {
    if head == [] {
      assert head + tail == tail;
    } else {
      assert (head + tail)[1..] == head[1..] + tail;
      SplitOnHead(head[1..], tail, sep);
    }
  }

  /** Text without the separator splits into itself alone. */
  lemma {:induction false} SplitOnNoSeparator(s: string, sep: char)
    requires forall k :: 0 <= k < |s| ==> s[k] != sep
    ensures SplitOn(s, sep) == [s]
    decreases |s|
  {
    if s != [] {
      SplitOnNoSeparator(s[1..], sep);
      assert [s[0]] + s[1..] == s;
    }
  }

  /** `s.split("  ")`: pieces between non-overlapping double spaces, found from the left. */
  function SplitOnDoubleSpace(s: string): (r: seq<string>)
    ensures |r| >= 1
    ensures forall k :: 0 <= k < |r| ==> NoDoubleSpace(r[k])
    ensures forall k, j :: 0 <= k < |r| && 0 <= j < |r[k]| ==> r[k][j] in s
    ensures StartsWith(s, r[0])
  {
    if |s| < 2 then [s]
    else if s[0] == ' ' && s[1] == ' ' then [""] + SplitOnDoubleSpace(s[2..])
    else
      var rest := SplitOnDoubleSpace(s[1..]);
      var first := [s[0]] + rest[0];
      assert |rest[0]| >= 1 ==> rest[0][0] == s[1];
      [first] + rest[1..]
  }

  /** A string without a double space is not split by `split("  ")`. */
  lemma {:induction false} NoDoubleSpaceUnsplit(s: string)
    requires NoDoubleSpace(s)
    ensures SplitOnDoubleSpace(s) == [s]
    decreases |s|
  {
    if |s| >= 2 {
      NoDoubleSpaceUnsplit(s[1..]);
      assert [s[0]] + s[1..] == s;
    }
  }

  /** Joining the pieces of `split("  ")` with "  " gives the text back. */
  lemma {:induction false} SplitOnDoubleSpaceJoin(s: string)
    ensures Join(SplitOnDoubleSpace(s), "  ") == s
    decreases |s|
  {
    if |s| >= 2 {
      if s[0] == ' ' && s[1] == ' ' {
        var rest := SplitOnDoubleSpace(s[2..]);
        SplitOnDoubleSpaceJoin(s[2..]);
        JoinEmptyHead(rest, "  ");
        assert s == "  " + s[2..];
      } else {
        var rest := SplitOnDoubleSpace(s[1..]);
        SplitOnDoubleSpaceJoin(s[1..]);
        JoinExtendHead([s[0]], rest, "  ");
        assert s == [s[0]] + s[1..];
      }
    }
  }

  /** An empty first piece contributes only a separator. */
  lemma JoinEmptyHead(pieces: seq<string>, sep: string)
    requires pieces != []
    ensures Join([""] + pieces, sep) == sep + Join(pieces, sep)
  {
    assert ([""] + pieces)[1..] == pieces;
  }

  /** Prefixing the first piece prefixes the joined text. */
  lemma JoinExtendHead(x: string, pieces: seq<string>, sep: string)
    requires pieces != []
    ensures Join([x + pieces[0]] + pieces[1..], sep) == x + Join(pieces, sep)
  {
    var r := [x + pieces[0]] + pieces[1..];
    if |pieces| > 1 {
      assert r[1..] == pieces[1..];
    }
  }

  /** No two consecutive ASCII spaces. */
  predicate NoDoubleSpace(s: string)
  {
    forall k :: 0 <= k < |s| - 1 ==> !(s[k] == ' ' && s[k + 1] == ' ')
  }

  /** `s.splitlines()`: lines without their terminators; "\r\n" ends one line; no trailing empty line. */
  function SplitLines(s: string): (r: seq<string>)
    ensures forall k, j :: 0 <= k < |r| && 0 <= j < |r[k]| ==> !IsLineBreak(r[k][j])
    ensures r == [] <==> s == []
    decreases |s|
  {
    if s == [] then []
    else
      var line := TakeLine(s);
      var rest := s[|line|..];
      if rest == [] then [line]
      else if rest[0] == '\r' && |rest| > 1 && rest[1] == '\n' then [line] + SplitLines(rest[2..])
      else [line] + SplitLines(rest[1..])
  }

  /** The longest prefix of `s` without a line break. */
  function TakeLine(s: string): (r: string)
    ensures |r| <= |s| && r == s[..|r|]
    ensures forall j :: 0 <= j < |r| ==> !IsLineBreak(r[j])
    ensures |r| < |s| ==> IsLineBreak(s[|r|])
  {
    if s == [] || IsLineBreak(s[0]) then [] else [s[0]] + TakeLine(s[1..])
  }

  /** A line without a break, followed by a break, is the first line. */
  lemma {:induction false} TakeLineBeforeBreak(line: string, rest: string)
    requires forall j :: 0 <= j < |line| ==> !IsLineBreak(line[j])
    ensures TakeLine(line + "\n" + rest) == line
    decreases |line|
  {
    if line != [] {
      assert (line + "\n" + rest)[1..] == line[1..] + "\n" + rest;
      TakeLineBeforeBreak(line[1..], rest);
      assert [line[0]] + line[1..] == line;
    }
  }

  /** `s.split()` with no argument: the maximal runs of non-whitespace, in order. */
  function Words(s: string): (r: seq<string>)
    ensures forall k :: 0 <= k < |r| ==> r[k] != [] && forall j :: 0 <= j < |r[k]| ==> !IsSpace(r[k][j])
    decreases |s|
  {
    if s == [] then []
    else if IsSpace(s[0]) then Words(s[1..])
    else
      var w := TakeWord(s);
      [w] + Words(s[|w|..])
  }

  /** The longest prefix of `s` without whitespace. */
  function TakeWord(s: string): (r: string)
    ensures |r| <= |s| && r == s[..|r|]
    ensures forall j :: 0 <= j < |r| ==> !IsSpace(s[j])
    ensures s != [] && !IsSpace(s[0]) ==> r != []
    ensures |r| < |s| ==> IsSpace(s[|r|])
  {
    if s == [] || IsSpace(s[0]) then [] else [s[0]] + TakeWord(s[1..])
  }

  /** No code point of `s` is anything but whitespace. */
  predicate AllSpace(s: string)
  {
    forall k :: 0 <= k < |s| ==> IsSpace(s[k])
  }

  /** Every code point that ends a line is also whitespace to `split()`. */
  lemma LineBreakIsSpace(c: char)
    requires IsLineBreak(c)
    ensures IsSpace(c)
  {
  }

  /** A text of whitespace only has no words. */
  lemma {:induction false} WordsOfSpaces(s: string)
    requires AllSpace(s)
    ensures Words(s) == []
    decreases |s|
  {
    if s != [] {
      WordsOfSpaces(s[1..]);
    }
  }

  /** Leading whitespace does not change the words. */
  lemma {:induction false} WordsAfterSpaces(pad: string, s: string)
    requires AllSpace(pad)
    ensures Words(pad + s) == Words(s)
    decreases |pad|
  {
    if pad == [] {
      assert pad + s == s;
    } else {
      assert (pad + s)[0] == pad[0];
      assert (pad + s)[1..] == pad[1..] + s;
      WordsAfterSpaces(pad[1..], s);
    }
  }

  /** A word ends at the first whitespace, so what follows one does not change it. */
  lemma {:induction false} TakeWordBeforeSpace(a: string, x: string)
    requires x == [] || IsSpace(x[0])
    ensures TakeWord(a + x) == TakeWord(a)
    decreases |a|
  {
    if a == [] {
      assert a + x == x;
    } else {
      assert (a + x)[0] == a[0];
      assert (a + x)[1..] == a[1..] + x;
      TakeWordBeforeSpace(a[1..], x);
    }
  }

  /** Splitting at a whitespace code point: the words of both sides, in order. */
  lemma {:induction false} WordsSplitAtSpace(a: string, c: char, b: string)
    requires IsSpace(c)
    ensures Words(a + [c] + b) == Words(a) + Words(b)
    decreases |a|
  {
    if a == [] {
      assert a + [c] + b == [c] + b;
      WordsAtSpace([c] + b);
      assert ([c] + b)[1..] == b;
    } else if IsSpace(a[0]) {
      WordsSplitAtSpace(a[1..], c, b);
      WordsSplitSpaceFirst(a, c, b);
    } else {
      var w := TakeWord(a);
      WordsSplitAtSpace(a[|w|..], c, b);
      WordsSplitWordFirst(a, c, b);
    }
  }

  /** `split()` skips a leading whitespace code point. */
  lemma WordsAtSpace(s: string)
    requires s != [] && IsSpace(s[0])
    ensures Words(s) == Words(s[1..])
  {
  }

  /** `split()` takes a leading word, then splits what follows it. */
  lemma WordsAtWord(s: string)
    requires s != [] && !IsSpace(s[0])
    ensures Words(s) == [TakeWord(s)] + Words(s[|TakeWord(s)|..])
  {
  }

  lemma WordsSplitSpaceFirst(a: string, c: char, b: string)
    requires a != [] && IsSpace(a[0])
    requires Words(a[1..] + [c] + b) == Words(a[1..]) + Words(b)
    ensures Words(a + [c] + b) == Words(a) + Words(b)
  {
    var s := a + [c] + b;
    assert s[1..] == a[1..] + [c] + b;
    WordsAtSpace(s);
    WordsAtSpace(a);
  }

  lemma WordsSplitWordFirst(a: string, c: char, b: string)
    requires IsSpace(c) && a != [] && !IsSpace(a[0])
    requires Words(a[|TakeWord(a)|..] + [c] + b) == Words(a[|TakeWord(a)|..]) + Words(b)
    ensures Words(a + [c] + b) == Words(a) + Words(b)
  {
    var w := TakeWord(a);
    var s := a + [c] + b;
    assert s == a + ([c] + b);
    TakeWordBeforeSpace(a, [c] + b);
    assert s[|w|..] == a[|w|..] + [c] + b;
    WordsAtWord(s);
    WordsAtWord(a);
  }

  /** `(a + " " + b).split() == a.split() + b.split()`. */
  lemma WordsJoinSpace(a: string, b: string)
    ensures Words(a + " " + b) == Words(a) + Words(b)
  {
    WordsSplitAtSpace(a, ' ', b);
  }

  /** A non-empty run of non-whitespace is one word. */
  lemma WordsOfWord(w: string)
    requires w != [] && forall k :: 0 <= k < |w| ==> !IsSpace(w[k])
    ensures Words(w) == [w]
  {
    assert TakeWord(w) == w;
    assert w[|w|..] == [];
  }

  /** Trailing whitespace does not change the words. */
  lemma WordsBeforeSpaces(s: string, pad: string)
    requires AllSpace(pad)
    ensures Words(s + pad) == Words(s)
  {
    if pad == [] {
      assert s + pad == s;
    } else {
      assert s + pad == s + [pad[0]] + pad[1..];
      WordsSplitAtSpace(s, pad[0], pad[1..]);
      WordsOfSpaces(pad[1..]);
    }
  }

  /** `s.lstrip().split() == s.split()`. */
  lemma WordsOfLStrip(s: string)
    ensures Words(LStrip(s)) == Words(s)
  {
    var l := LStrip(s);
    var lead := s[..|s| - |l|];
    assert s == lead + l;
    WordsAfterSpaces(lead, l);
  }

  /** `s.rstrip().split() == s.split()`. */
  lemma WordsOfRStrip(s: string)
    ensures Words(RStrip(s)) == Words(s)
  {
    var r := RStrip(s);
    var trail := s[|r|..];
    assert s == r + trail;
    assert forall k :: 0 <= k < |trail| ==> trail[k] == s[|r| + k];
    WordsBeforeSpaces(r, trail);
  }

  /** `s.strip().split() == s.split()`. */
  lemma WordsOfStrip(s: string)
    ensures Words(Strip(s)) == Words(s)
  {
    WordsOfLStrip(s);
    WordsOfRStrip(LStrip(s));
  }

  /** The words of each piece, one piece after the other. */
  function ConcatWords(pieces: seq<string>): seq<string>
  {
    if pieces == [] then [] else Words(pieces[0]) + ConcatWords(pieces[1..])
  }

  lemma {:induction false} ConcatWordsAppend(a: seq<string>, b: seq<string>)
    ensures ConcatWords(a + b) == ConcatWords(a) + ConcatWords(b)
    decreases |a|
  {
    if a == [] {
      assert a + b == b;
    } else {
      assert (a + b)[0] == a[0];
      assert (a + b)[1..] == a[1..] + b;
      ConcatWordsAppend(a[1..], b);
    }
  }

  /** Joining with a whitespace separator keeps the words of the pieces, in order. */
  lemma {:induction false} WordsOfJoin(pieces: seq<string>, sep: string)
    requires sep != [] && AllSpace(sep)
    ensures Words(Join(pieces, sep)) == ConcatWords(pieces)
    decreases |pieces|
  {
    if |pieces| == 1 {
      assert pieces[1..] == [];
    } else if |pieces| > 1 {
      var rest := Join(pieces[1..], sep);
      WordsOfJoin(pieces[1..], sep);
      assert pieces[0] + sep + rest == pieces[0] + [sep[0]] + (sep[1..] + rest);
      WordsSplitAtSpace(pieces[0], sep[0], sep[1..] + rest);
      WordsAfterSpaces(sep[1..], rest);
    }
  }

  /** `s.split("  ")` loses no word: its pieces hold the words of `s`, in order. */
  lemma SplitOnDoubleSpaceWords(s: string)
    ensures ConcatWords(SplitOnDoubleSpace(s)) == Words(s)
  {
    SplitOnDoubleSpaceJoin(s);
    WordsOfJoin(SplitOnDoubleSpace(s), "  ");
  }

  /** `s.splitlines()` loses no word, since every line break is whitespace. */
  lemma {:induction false} SplitLinesWords(s: string)
    ensures ConcatWords(SplitLines(s)) == Words(s)
    decreases |s|
  {
    if s != [] {
      var line := TakeLine(s);
      var rest := s[|line|..];
      assert s == line + rest;
      SplitLinesStep(s);
      if rest == [] {
        assert s == line;
        ConcatWordsCons(line, []);
        assert [line] + [] == [line];
        assert ConcatWords([]) == [];
        assert Words(line) + [] == Words(line);
      } else {
        var more := AfterBreak(rest);
        SplitLinesWords(more);
        ConcatWordsCons(line, SplitLines(more));
        WordsAcrossBreak(line, rest, more);
      }
    }
  }

  /** What follows the line break that starts `rest`: "\r\n" counts as one break. */
  function AfterBreak(rest: string): (r: string)
    requires rest != []
    ensures r == rest[1..] || (|rest| > 1 && rest[1] == '\n' && r == rest[2..])
  {
    if rest[0] == '\r' && |rest| > 1 && rest[1] == '\n' then rest[2..] else rest[1..]
  }

  /** One step of `splitlines()`: the first line, then the lines after its break. */
  lemma SplitLinesStep(s: string)
    requires s != []
    ensures var line := TakeLine(s);
      var rest := s[|line|..];
      && (rest == [] ==> SplitLines(s) == [line])
      && (rest != [] ==> SplitLines(s) == [line] + SplitLines(AfterBreak(rest)))
  {
  }

  lemma ConcatWordsCons(x: string, xs: seq<string>)
    ensures ConcatWords([x] + xs) == Words(x) + ConcatWords(xs)
  {
    assert ([x] + xs)[1..] == xs;
  }

  /** A line break, or "\r\n", between two texts separates their words. */
  lemma WordsAcrossBreak(line: string, rest: string, more: string)
    requires rest != [] && IsLineBreak(rest[0])
    requires more == rest[1..] || (|rest| > 1 && rest[1] == '\n' && more == rest[2..])
    ensures Words(line + rest) == Words(line) + Words(more)
  {
    LineBreakIsSpace(rest[0]);
    assert line + rest == line + [rest[0]] + rest[1..];
    WordsSplitAtSpace(line, rest[0], rest[1..]);
    if more != rest[1..] {
      assert rest[1..] == ['\n'] + more;
      WordsAfterSpaces(['\n'], more);
    }
  }

  /**
   * For text whose only line break is '\n' and that does not end with one,
   * joining the lines with '\n' gives the text back.
   */
  lemma {:induction false} SplitLinesJoin(s: string)
    requires forall k :: 0 <= k < |s| && IsLineBreak(s[k]) ==> s[k] == '\n'
    requires s == [] || s[|s| - 1] != '\n'
    ensures Join(SplitLines(s), "\n") == s
    decreases |s|
  {
    if s != [] {
      var line := TakeLine(s);
      var rest := s[|line|..];
      if rest == [] {
        assert s == line;
      } else {
        var more := rest[1..];
        NewlineSplit(s, line, more);
        SplitLinesStep(s);
        assert rest[0] == '\n' && AfterBreak(rest) == more;
        SplitLinesJoin(more);
        JoinCons(line, SplitLines(more), "\n");
      }
    }
  }

  /** In '\n'-only text not ending with '\n', a line is followed by '\n' and a non-empty remainder. */
  lemma NewlineSplit(s: string, line: string, more: string)
    requires forall k :: 0 <= k < |s| && IsLineBreak(s[k]) ==> s[k] == '\n'
    requires s != [] && s[|s| - 1] != '\n'
    requires |line| < |s| && line == s[..|line|] && IsLineBreak(s[|line|]) && more == s[|line| + 1..]
    ensures s == line + "\n" + more && more != [] && more[|more| - 1] != '\n'
    ensures forall k :: 0 <= k < |more| && IsLineBreak(more[k]) ==> more[k] == '\n'
  {
    var n := |line|;
    assert s[n] == '\n';
    assert s == s[..n] + [s[n]] + s[n + 1..];
    forall k | 0 <= k < |more| && IsLineBreak(more[k])
      ensures more[k] == '\n'
    {
      assert more[k] == s[n + 1 + k];
    }
  }

  /** Joining a first piece in front of at least one more. */
  lemma JoinCons(x: string, xs: seq<string>, sep: string)
    requires xs != []
    ensures Join([x] + xs, sep) == x + sep + Join(xs, sep)
  {
    assert ([x] + xs)[1..] == xs;
  }

  /** `sep.join(pieces)`. */
  function Join(pieces: seq<string>, sep: string): (r: string)
  {
    if pieces == [] then ""
    else if |pieces| == 1 then pieces[0]
    else pieces[0] + sep + Join(pieces[1..], sep)
  }

  /** `s.replace(pat, "")`: removes the non-overlapping occurrences of `pat`, found from the left. */
  function RemoveAll(s: string, pat: string): (r: string)
    requires pat != []
    ensures |r| <= |s|
    ensures forall k :: 0 <= k < |r| ==> r[k] in s
    ensures !Contains(s, pat) ==> r == s
    decreases |s|
  {
    if |s| < |pat| then s
    else if s[..|pat|] == pat then RemoveAll(s[|pat|..], pat)
    else [s[0]] + RemoveAll(s[1..], pat)
  }

  /** An occurrence of the pattern at the front is removed, and removal goes on after it. */
  lemma RemoveAllLeading(pat: string, h: string)
    requires pat != []
    ensures RemoveAll(pat + h, pat) == RemoveAll(h, pat)
  {
    assert (pat + h)[..|pat|] == pat;
    assert (pat + h)[|pat|..] == h;
  }

  /** A code point that does not start an occurrence of the pattern is kept. */
  lemma RemoveAllKeeps(c: char, h: string, pat: string)
    requires pat != [] && !StartsWith([c] + h, pat)
    ensures RemoveAll([c] + h, pat) == [c] + RemoveAll(h, pat)
  {
    assert ([c] + h)[1..] == h;
  }

  /** `("www." + h).replace("www.", "") == h` when `h` holds no "www.". */
  lemma RemoveWwwPrefix(h: string)
    requires !Contains(h, "www.")
    ensures RemoveAll("www." + h, "www.") == h
  {
    RemoveAllLeading("www.", h);
  }

  /** Decimal digits of a natural number, most significant first. */
  function NatToString(n: nat): (r: string)
    ensures r != [] && forall k :: 0 <= k < |r| ==> '0' <= r[k] <= '9'
    decreases n
  {
    var d := ['0' + (n % 10) as char];
    if n < 10 then d else NatToString(n / 10) + d
  }

  /** `str(n)` for an integer. */
  function IntToString(n: int): (r: string)
    ensures r != []
    ensures (n < 0) <==> r[0] == '-'
  {
    if n < 0 then "-" + NatToString(-n) else NatToString(n)
  }
}
