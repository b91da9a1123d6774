/** The Python string operations the chunker and the anchor finder are written in. */
module Text {

  /** `str.isspace` for one character, which is also what `\s` and `strip` use. */
  predicate IsSpace(c: char) {
    var n := c as int;
    || 9 <= n <= 13 || 0x1c <= n <= 0x20 || n == 0x85 || n == 0xa0 || n == 0x1680
    || 0x2000 <= n <= 0x200a || n == 0x2028 || n == 0x2029 || n == 0x202f || n == 0x205f || n == 0x3000
  }

  /** The characters at which `str.splitlines` ends a line. */
  predicate IsLineBreak(c: char) {
    var n := c as int;
    10 <= n <= 13 || 0x1c <= n <= 0x1e || n == 0x85 || n == 0x2028 || n == 0x2029
  }

  /** The first position from `i` on that holds no space. */
  function SkipSpaces(s: string, i: nat): (a: nat)
    requires i <= |s|
    ensures i <= a <= |s| && (forall j | i <= j < a :: IsSpace(s[j])) && (a < |s| ==> !IsSpace(s[a]))
    decreases |s| - i
  {
    if i < |s| && IsSpace(s[i]) then SkipSpaces(s, i + 1) else i
  }

  /** The end of what is left of `s[lo:i]` when the spaces at its end are dropped. */
  function SkipSpacesBack(s: string, lo: nat, i: nat): (b: nat)
    requires lo <= i <= |s|
    ensures lo <= b <= i && (forall j | b <= j < i :: IsSpace(s[j])) && (lo < b ==> !IsSpace(s[b - 1]))
    decreases i
  {
    if lo < i && IsSpace(s[i - 1]) then SkipSpacesBack(s, lo, i - 1) else i
  }

  /** `str.strip()` */
  function Strip(s: string): string {
    var a := SkipSpaces(s, 0);
    s[a..SkipSpacesBack(s, a, |s|)]
  }

  /** A string that neither starts nor ends in a space is stripped already. */
  lemma SolidEnds(s: string)
    requires s != "" && !IsSpace(s[0]) && !IsSpace(s[|s| - 1])
    ensures Strip(s) == s
  {
  }

  /** `sep.join(parts)` */
  function Join(sep: string, parts: seq<string>): string {
    if parts == [] then ""
    else if |parts| == 1 then parts[0]
    else parts[0] + sep + Join(sep, parts[1..])
  }

  function FirstBreak(s: string): (i: nat)
    ensures i <= |s|
    ensures forall j :: 0 <= j < i ==> !IsLineBreak(s[j])
    ensures i < |s| ==> IsLineBreak(s[i])
  {
    if s == "" || IsLineBreak(s[0]) then 0 else 1 + FirstBreak(s[1..])
  }

  /** `str.splitlines()`: `\r\n` counts as one break, and a final break opens no further line. */
  function SplitLines(s: string): seq<string>
    decreases |s|
  {
    if s == "" then []
    else
      var i := FirstBreak(s);
      if i == |s| then [s]
      else if s[i] == '\r' && i + 1 < |s| && s[i + 1] == '\n' then [s[..i]] + SplitLines(s[i + 2..])
      else [s[..i]] + SplitLines(s[i + 1..])
  }

  function FirstOf(s: string, c: char): (i: nat)
    ensures i <= |s|
    ensures forall j :: 0 <= j < i ==> s[j] != c
    ensures i < |s| ==> s[i] == c
  {
    if s == "" || s[0] == c then 0 else 1 + FirstOf(s[1..], c)
  }

  /** `s.split(c)` for a one-character separator. */
  function SplitOn(s: string, c: char): (parts: seq<string>)
    ensures parts != []
    decreases |s|
  {
    var i := FirstOf(s, c);
    if i == |s| then [s] else [s[..i]] + SplitOn(s[i + 1..], c)
  }

  predicate OccursAt(haystack: string, needle: string, i: nat) {
    i + |needle| <= |haystack| && haystack[i..i + |needle|] == needle
  }

  /** `needle in haystack` */
  predicate Contains(haystack: string, needle: string) {
    exists i | 0 <= i <= |haystack| :: OccursAt(haystack, needle, i)
  }

  lemma ContainsInContext(pre: string, haystack: string, post: string, needle: string)
    requires Contains(haystack, needle)
    ensures Contains(pre + haystack + post, needle)
  {
    var i :| 0 <= i <= |haystack| && OccursAt(haystack, needle, i);
    assert (pre + haystack + post)[|pre| + i..|pre| + i + |needle|] == haystack[i..i + |needle|];
    assert OccursAt(pre + haystack + post, needle, |pre| + i);
  }

  lemma ContainsSelf(s: string)
    ensures Contains(s, s)
  {
    assert OccursAt(s, s, 0);
  }

  lemma ContainsShorter(haystack: string, needle: string)
    requires Contains(haystack, needle)
    ensures |needle| <= |haystack|
  {
    var i :| 0 <= i <= |haystack| && OccursAt(haystack, needle, i);
  }

  lemma ContainsTrans(a: string, b: string, c: string)
    requires Contains(a, b) && Contains(b, c)
    ensures Contains(a, c)
  {
    var i :| 0 <= i <= |a| && OccursAt(a, b, i);
    ContainsInContext(a[..i], b, a[i + |b|..], c);
    assert a == a[..i] + b + a[i + |b|..];
  }

  // ---- strip ---------------------------------------------------------------

  lemma SliceOfSlice<T>(xs: seq<T>, a: nat, b: nat, c: nat, d: nat)
    requires a <= c <= d <= b <= |xs|
    ensures xs[a..b][c - a..d - a] == xs[c..d]
  {
    var ys := xs[a..b];
    var zs := ys[c - a..d - a];
    forall k | 0 <= k < d - c
      ensures zs[k] == xs[c..d][k]
    {
      assert zs[k] == ys[c - a + k];
      assert ys[c - a + k] == xs[a + (c - a + k)];
      assert a + (c - a + k) == c + k;
    }
  }

  lemma PrefixMore<T>(xs: seq<T>, n: nat)
    requires n < |xs|
    ensures xs[..n + 1] == xs[..n] + [xs[n]]
  {
  }

  /** Where a string's stripped form sits in it; its two ends are solid. */
  lemma StripSpan(s: string) returns (a: nat, b: nat)
    ensures a <= b <= |s| && Strip(s) == s[a..b]
    ensures a < b ==> !IsSpace(s[a]) && !IsSpace(s[b - 1])
  {
    a := SkipSpaces(s, 0);
    b := SkipSpacesBack(s, a, |s|);
  }

  /** Stripping keeps every stretch that begins and ends with a solid character. */
  lemma StripKeeps(s: string, a: nat, b: nat)
    requires a < b <= |s| && !IsSpace(s[a]) && !IsSpace(s[b - 1])
    ensures Contains(Strip(s), s[a..b])
    ensures Strip(s) != ""
  {
    var lo := SkipSpaces(s, 0);
    var hi := SkipSpacesBack(s, lo, |s|);
    assert lo <= a && b <= hi;
    SliceOfSlice(s, lo, hi, a, b);
    assert OccursAt(Strip(s), s[a..b], a - lo);
  }

  lemma StripInside(s: string)
    ensures Contains(s, Strip(s))
  {
    var a, b := StripSpan(s);
    assert OccursAt(s, Strip(s), a);
  }

  lemma StretchInside(pre: string, part: string, post: string, a: nat, b: nat)
    requires a < b <= |part|
    ensures var whole, at := pre + part + post, |pre|;
            whole[at + a..at + b] == part[a..b] && whole[at + a] == part[a] && whole[at + b - 1] == part[b - 1]
  {
  }

  /** A part's stripped form survives stripping anything the part sits in. */
  lemma StripMonotone(pre: string, part: string, post: string)
    requires Strip(part) != ""
    ensures Contains(Strip(pre + part + post), Strip(part))
  {
    var a, b := StripSpan(part);
    var whole := pre + part + post;
    var at := |pre|;
    StretchInside(pre, part, post, a, b);
    StripKeeps(whole, at + a, at + b);
  }

  // ---- join ----------------------------------------------------------------

  /** Joining two nonempty lists is joining their joins. */
  lemma {:induction false} JoinConcat(sep: string, a: seq<string>, b: seq<string>)
    requires a != [] && b != []
    ensures Join(sep, a + b) == Join(sep, a) + sep + Join(sep, b)
  {
    assert (a + b)[1..] == a[1..] + b;
    if |a| > 1 {
      JoinConcat(sep, a[1..], b);
    }
  }

  lemma JoinSplitAt(sep: string, parts: seq<string>, m: nat)
    requires 0 < m < |parts|
    ensures Join(sep, parts) == Join(sep, parts[..m]) + sep + Join(sep, parts[m..])
  {
    assert parts == parts[..m] + parts[m..];
    JoinConcat(sep, parts[..m], parts[m..]);
  }

  /** A contiguous run of parts appears, joined, inside the join of all of them. */
  lemma JoinAround(sep: string, parts: seq<string>, lo: nat, hi: nat) returns (pre: string, post: string)
    requires lo < hi <= |parts|
    ensures Join(sep, parts) == pre + Join(sep, parts[lo..hi]) + post
  {
    var head := parts[..hi];
    var whole, front, run := Join(sep, parts), Join(sep, head), Join(sep, parts[lo..hi]);
    assert head[lo..] == parts[lo..hi];
    if hi < |parts| {
      JoinSplitAt(sep, parts, hi);
      post := sep + Join(sep, parts[hi..]);
    } else {
      assert head == parts;
      post := "";
    }
    assert whole == front + post;
    if lo > 0 {
      JoinSplitAt(sep, head, lo);
      pre := Join(sep, head[..lo]) + sep;
    } else {
      pre := "";
    }
    assert front == pre + run;
  }

  // ---- splitting and rejoining ---------------------------------------------

  lemma {:induction false} JoinSplitOn(s: string, c: char)
    ensures Join([c], SplitOn(s, c)) == s
    decreases |s|
  {
    var i := FirstOf(s, c);
    if i < |s| {
      var head, rest := s[..i], s[i + 1..];
      JoinSplitOn(rest, c);
      var parts := SplitOn(rest, c);
      assert ([head] + parts)[1..] == parts;
      assert Join([c], [head] + parts) == head + [c] + rest;
    }
  }

  predicate BreakFree(s: string) {
    forall i | 0 <= i < |s| :: !IsLineBreak(s[i])
  }

  predicate AllBreakFree(lines: seq<string>) {
    forall k {:trigger BreakFree(lines[k])} | 0 <= k < |lines| :: BreakFree(lines[k])
  }

  lemma PrefixBreakFree(s: string, i: nat)
    requires i <= FirstBreak(s)
    ensures BreakFree(s[..i])
  {
  }

  /** `splitlines` returns lines that hold no break. */
  lemma {:induction false} SplitLinesBreakFree(s: string)
    ensures AllBreakFree(SplitLines(s))
    decreases |s|
  {
    if s != "" {
      var i := FirstBreak(s);
      PrefixBreakFree(s, i);
      if i == |s| {
        assert s[..i] == s;
      } else {
        var rest := s[i + if s[i] == '\r' && i + 1 < |s| && s[i + 1] == '\n' then 2 else 1..];
        SplitLinesBreakFree(rest);
        var lines, later := SplitLines(s), SplitLines(rest);
        assert lines == [s[..i]] + later;
        forall k | 0 <= k < |lines|
          ensures BreakFree(lines[k])
        {
          assert k > 0 ==> BreakFree(later[k - 1]);
        }
      }
    }
  }

  lemma FirstBreakIs(s: string, i: nat)
    requires i <= |s| && (forall j | 0 <= j < i :: !IsLineBreak(s[j])) && (i < |s| ==> IsLineBreak(s[i]))
    ensures FirstBreak(s) == i
  {
  }

  lemma SplitFirst(line: string, rest: string)
    requires BreakFree(line)
    ensures SplitLines(line + "\n" + rest) == [line] + SplitLines(rest)
  {
    var s := line + "\n" + rest;
    assert s[..|line|] == line && s[|line|] == '\n' && s[|line| + 1..] == rest;
    FirstBreakIs(s, |line|);
  }

  lemma SplitOnly(line: string)
    requires BreakFree(line)
    ensures SplitLines(line) == if line == "" then [] else [line]
  {
  }

  /** The lines that splitting their join gives back: all of them, except a final empty one. */
  function Resplit(lines: seq<string>): seq<string>
    requires lines != []
  {
    if lines[|lines| - 1] == "" then lines[..|lines| - 1] else lines
  }

  lemma ResplitCons(line: string, rest: seq<string>)
    requires rest != []
    ensures Resplit([line] + rest) == [line] + Resplit(rest)
  {
  }

  lemma RestBreakFree(lines: seq<string>)
    requires lines != [] && AllBreakFree(lines)
    ensures BreakFree(lines[0]) && AllBreakFree(lines[1..])
  {
  }

  /** Splitting what was joined from break-free lines gives the lines back, except a final empty one. */
  lemma {:induction false} SplitJoined(lines: seq<string>)
    requires lines != [] && AllBreakFree(lines)
    ensures SplitLines(Join("\n", lines)) == Resplit(lines)
  {
    if |lines| == 1 {
      assert BreakFree(lines[0]);
      SplitOnly(lines[0]);
    } else {
      var rest := lines[1..];
      RestBreakFree(lines);
      SplitFirst(lines[0], Join("\n", rest));
      SplitJoined(rest);
      ResplitCons(lines[0], rest);
      assert lines == [lines[0]] + rest;
    }
  }

  /** The line-level rejoin: it restores the text exactly when no final empty line was lost. */
  lemma RejoinLines(lines: seq<string>)
    requires lines != [] && AllBreakFree(lines)
    ensures Join("\n", SplitLines(Join("\n", lines))) == Join("\n", lines)
            <==> |lines| == 1 || lines[|lines| - 1] != ""
  {
    SplitJoined(lines);
    var last := |lines| - 1;
    if lines[last] == "" {
      if last > 0 {
        JoinSplitAt("\n", lines, last);
        assert lines[last..] == [""];
      } else {
        assert lines[..0] == [];
      }
    }
  }

  // ---- text that blank lines hold apart ---------------------------------------

  /** No empty line in it. */
  predicate NoGap(s: string) {
    forall i | 0 <= i < |s| - 1 :: s[i] == '\n' ==> s[i + 1] != '\n'
  }

  /** Text that begins and ends in a solid character and has no empty line in it. */
  predicate OneStretch(s: string) {
    s != "" && !IsSpace(s[0]) && !IsSpace(s[|s| - 1]) && NoGap(s)
  }

  lemma OccursInPart(text: string, pre: string, part: string, post: string, needle: string, i: nat)
    requires text == pre + part + post && OccursAt(text, needle, i)
    requires |pre| <= i && i + |needle| <= |pre| + |part|
    ensures Contains(part, needle)
  {
    assert part == text[|pre|..|pre| + |part|];
    SliceOfSlice(text, |pre|, |pre| + |part|, i, i + |needle|);
    assert OccursAt(part, needle, i - |pre|);
  }

  /** A stretch does not reach across an empty line. */
  lemma ApartFromGap(a: string, b: string, needle: string)
    requires OneStretch(needle)
    ensures Contains(a + "\n\n" + b, needle) <==> Contains(a, needle) || Contains(b, needle)
  {
    var text := a + "\n\n" + b;
    if Contains(text, needle) {
      var i :| 0 <= i <= |text| && OccursAt(text, needle, i);
      assert forall j | 0 <= j < |needle| :: text[i + j] == needle[j];
      assert text[|a|] == '\n' && text[|a| + 1] == '\n';
      if i + |needle| <= |a| {
        assert text == "" + a + ("\n\n" + b);
        OccursInPart(text, "", a, "\n\n" + b, needle, i);
      } else {
        StretchPastGap(text, needle, i, |a|);
        assert text == (a + "\n\n") + b + "";
        OccursInPart(text, a + "\n\n", b, "", needle, i);
      }
    }
    if Contains(a, needle) {
      ContainsInContext("", a, "\n\n" + b, needle);
      assert "" + a + ("\n\n" + b) == text;
    }
    if Contains(b, needle) {
      ContainsInContext(a + "\n\n", b, "", needle);
      assert (a + "\n\n") + b + "" == text;
    }
  }

  /** If it ends after an empty line begins, it begins after the empty line ends. */
  lemma StretchPastGap(text: string, needle: string, i: nat, gap: nat)
    requires OneStretch(needle) && OccursAt(text, needle, i) && gap + 1 < |text| && i + |needle| > gap
    requires text[gap] == '\n' && text[gap + 1] == '\n'
    ensures i >= gap + 2
  {
    assert forall j | 0 <= j < |needle| :: text[i + j] == needle[j];
    var last := |needle| - 1;
    assert i + last != gap && i != gap && i != gap + 1;
  }

  /** So it is in parts joined by empty lines exactly when it is in one of them. */
  lemma {:induction false} ApartInJoin(parts: seq<string>, needle: string)
    requires parts != [] && OneStretch(needle)
    ensures Contains(Join("\n\n", parts), needle) <==> exists k :: 0 <= k < |parts| && Contains(parts[k], needle)
  {
    if |parts| > 1 {
      var rest := parts[1..];
      ApartInJoin(rest, needle);
      ApartFromGap(parts[0], Join("\n\n", rest), needle);
      if k :| 0 <= k < |parts| && Contains(parts[k], needle) {
        assert k > 0 ==> rest[k - 1] == parts[k];
      }
      if k :| 0 <= k < |rest| && Contains(rest[k], needle) {
        assert parts[k + 1] == rest[k];
      }
    }
  }

  /** Lines with something in them, joined, have no empty line. */
  lemma {:induction false} JoinNoGap(lines: seq<string>)
    requires lines != [] && AllBreakFree(lines) && forall k | 0 <= k < |lines| :: lines[k] != ""
    ensures Join("\n", lines) != "" && Join("\n", lines)[0] != '\n' && NoGap(Join("\n", lines))
  {
    RestBreakFree(lines);
    var text := Join("\n", lines);
    assert !IsLineBreak(lines[0][0]);
    if |lines| > 1 {
      var first, rest := lines[0], Join("\n", lines[1..]);
      JoinNoGap(lines[1..]);
      assert text == first + "\n" + rest;
      forall i | 0 <= i < |text| - 1 && text[i] == '\n'
        ensures text[i + 1] != '\n'
      {
        assert i < |first| ==> text[i] == first[i] && !IsLineBreak(first[i]);
        assert i > |first| ==> text[i] == rest[i - |first| - 1] && text[i + 1] == rest[i - |first|];
      }
    }
  }

  lemma StripOneStretch(s: string)
    requires NoGap(s) && Strip(s) != ""
    ensures OneStretch(Strip(s))
  {
    var a, b := StripSpan(s);
    assert forall i | 0 <= i < b - a :: s[a..b][i] == s[a + i];
  }

  // ---- what the operations mean -----------------------------------------------------------

  ghost predicate AllSpace(s: string) {
    forall i | 0 <= i < |s| :: IsSpace(s[i])
  }

  /** Neither starts nor ends in a space. */
  ghost predicate IsSolid(s: string) {
    s != "" ==> !IsSpace(s[0]) && !IsSpace(s[|s| - 1])
  }

  lemma {:induction false} SliceIsSpace(s: string, lo: nat, hi: nat)
    requires lo <= hi <= |s| && forall j | lo <= j < hi :: IsSpace(s[j])
    ensures AllSpace(s[lo..hi])
  {
  }

  /** Stripping takes the spaces off both ends, and nothing else. */
  lemma {:induction false} StripMeans(s: string) returns (pre: string, post: string)
    ensures s == pre + Strip(s) + post && AllSpace(pre) && AllSpace(post) && IsSolid(Strip(s))
  {
    var a := SkipSpaces(s, 0);
    var b := SkipSpacesBack(s, a, |s|);
    SliceIsSpace(s, 0, a);
    SliceIsSpace(s, b, |s|);
    pre, post := s[0..a], s[b..|s|];
    ThreeSlices(s, a, b);
  }

  lemma ThreeSlices(s: string, a: nat, b: nat)
    requires a <= b <= |s|
    ensures s == s[0..a] + s[a..b] + s[b..|s|]
    ensures a < b ==> s[a..b][0] == s[a] && s[a..b][|s[a..b]| - 1] == s[b - 1]
  {
  }

  /** No other text is left. */
  lemma StripIs(pre: string, core: string, post: string)
    requires AllSpace(pre) && AllSpace(post) && IsSolid(core)
    ensures Strip(pre + core + post) == core
  {
    var s := pre + core + post;
    var a := SkipSpaces(s, 0);
    var b := SkipSpacesBack(s, a, |s|);
    assert forall i | 0 <= i < |pre| :: s[i] == pre[i];
    assert forall i | 0 <= i < |post| :: s[|pre| + |core| + i] == post[i];
    if core == "" {
      assert forall i | 0 <= i < |s| :: IsSpace(s[i]);
    } else {
      assert s[|pre|] == core[0] && s[|pre| + |core| - 1] == core[|core| - 1];
      assert a == |pre|;
      assert b == |pre| + |core|;
      assert s[a..b] == core;
    }
  }

  /** A line's end: one break character, or a carriage return with its line feed. */
  ghost predicate IsBreak(end: string) {
    end == "\r\n" || (|end| == 1 && IsLineBreak(end[0]))
  }

  /**
   * The text is these lines, each followed by its end: every line is free of breaks, a
   * carriage return is never parted from its line feed, and only a last line that is not
   * empty may have no end.
   */
  ghost predicate AreLines(s: string, lines: seq<string>, ends: seq<string>)
    decreases |lines|
  {
    && |lines| == |ends|
    && if lines == [] then s == ""
       else IsFirstLine(s, lines[0], ends[0]) && AreLines(s[|lines[0]| + |ends[0]|..], lines[1..], ends[1..])
  }

  /** A line with its end stands first in the text. */
  ghost predicate IsFirstLine(s: string, line: string, end: string) {
    && |line| + |end| <= |s| && s[..|line| + |end|] == line + end && BreakFree(line)
    && (IsBreak(end) || (end == "" && line == s != ""))
    && (end == "\r" ==> |line| + |end| == |s| || s[|line| + |end|] != '\n')
  }

  /** What `splitlines` takes first. */
  lemma {:induction false} FirstLine(s: string) returns (line: string, end: string)
    requires s != ""
    ensures IsFirstLine(s, line, end) && SplitLines(s) == [line] + SplitLines(s[|line| + |end|..])
  {
    var i := FirstBreak(s);
    line := s[..i];
    end := if i == |s| then "" else if s[i] == '\r' && i + 1 < |s| && s[i + 1] == '\n' then s[i..i + 2] else s[i..i + 1];
    assert end != "" ==> end[0] == s[i];
    assert i == |s| ==> s[..i] == s && s[i..] == "" && SplitLines("") == [];
  }

  lemma {:induction false} FirstChars(s: string, line: string, end: string)
    requires |line| + |end| <= |s| && s[..|line| + |end|] == line + end
    ensures s[..|line|] == line && s[|line|..|line| + |end|] == end
  {
    assert s[..|line| + |end|][..|line|] == line;
    assert s[..|line| + |end|][|line|..] == end;
  }

  /** The first line ends at the first break. */
  lemma {:induction false} FirstLineEnds(s: string, line: string, end: string)
    requires IsFirstLine(s, line, end)
    ensures line == s[..FirstBreak(s)]
    ensures end == if |line| == |s| then ""
                   else if s[|line|] == '\r' && |line| + 1 < |s| && s[|line| + 1] == '\n' then "\r\n"
                   else [s[|line|]]
  {
    FirstChars(s, line, end);
    assert forall j | 0 <= j < |line| :: s[j] == s[..|line|][j];
    assert end != "" ==> s[|line|] == s[|line|..|line| + |end|][0];
    assert |end| == 2 ==> s[|line| + 1] == s[|line|..|line| + |end|][1];
    FirstBreakIs(s, |line|);
  }

  lemma {:induction false} OneLineMore(s: string, line: string, end: string, lines: seq<string>, ends: seq<string>)
    requires IsFirstLine(s, line, end) && AreLines(s[|line| + |end|..], lines, ends)
    ensures AreLines(s, [line] + lines, [end] + ends)
  {
    assert ([line] + lines)[1..] == lines && ([end] + ends)[1..] == ends;
  }

  /** Splitting a text gives its lines. */
  lemma {:induction false} LinesMean(s: string) returns (lines: seq<string>, ends: seq<string>)
    ensures lines == SplitLines(s)
    ensures AreLines(s, lines, ends)
    decreases |s|
  {
    if s == "" {
      lines, ends := [], [];
    } else {
      var line, end := FirstLine(s);
      var later, rest := LinesMean(s[|line| + |end|..]);
      OneLineMore(s, line, end, later, rest);
      lines, ends := [line] + later, [end] + rest;
    }
  }

  lemma {:induction false} OneLineLess(s: string, lines: seq<string>, ends: seq<string>)
    requires AreLines(s, lines, ends) && lines != []
    ensures |ends| == |lines| && IsFirstLine(s, lines[0], ends[0])
    ensures AreLines(s[|lines[0]| + |ends[0]|..], lines[1..], ends[1..])
  {
  }

  lemma {:induction false} LinesUnique(s: string, a: seq<string>, ends: seq<string>, b: seq<string>, ends': seq<string>)
    requires AreLines(s, a, ends) && AreLines(s, b, ends')
    ensures a == b && ends == ends'
    decreases |a|
  {
    if a != [] && b != [] {
      OneLineLess(s, a, ends);
      OneLineLess(s, b, ends');
      FirstLineEnds(s, a[0], ends[0]);
      FirstLineEnds(s, b[0], ends'[0]);
      LinesUnique(s[|a[0]| + |ends[0]|..], a[1..], ends[1..], b[1..], ends'[1..]);
    }
  }

  /** And there are no other lines of it. */
  lemma {:induction false} LinesAre(s: string, lines: seq<string>, ends: seq<string>)
    requires AreLines(s, lines, ends)
    ensures SplitLines(s) == lines
  {
    var split, ends' := LinesMean(s);
    LinesUnique(s, split, ends', lines, ends);
  }

  /** Splitting at a character leaves it in no part. */
  lemma {:induction false} SplitOnMeans(s: string, c: char)
    ensures forall i | 0 <= i < |SplitOn(s, c)| :: c !in SplitOn(s, c)[i]
    decreases |s|
  {
    var i := FirstOf(s, c);
    if i < |s| {
      SplitOnMeans(s[i + 1..], c);
    }
  }

  /** Part `i` stands at its place, followed by the separator, or by nothing if it is the last one. */
  ghost predicate StandsAt(s: string, sep: string, parts: seq<string>, at: seq<nat>, i: nat)
    requires i < |parts| == |at|
  {
    && OccursAt(s, parts[i], at[i])
    && if i + 1 < |parts| then at[i + 1] == at[i] + |parts[i]| + |sep| && OccursAt(s, sep, at[i] + |parts[i]|)
       else at[i] + |parts[i]| == |s|
  }

  /** The parts stand one after the other at these places. */
  ghost predicate StandAt(s: string, sep: string, parts: seq<string>, at: seq<nat>) {
    |at| == |parts| && forall i | 0 <= i < |parts| :: StandsAt(s, sep, parts, at, i)
  }

  lemma OccursAfter(pre: string, s: string, part: string, i: nat)
    requires OccursAt(s, part, i)
    ensures OccursAt(pre + s, part, |pre| + i)
  {
    assert (pre + s)[|pre| + i..|pre| + i + |part|] == s[i..i + |part|];
  }

  lemma {:induction false} StandAfter(pre: string, s: string, sep: string, parts: seq<string>, at: seq<nat>)
    returns (at': seq<nat>)
    requires StandAt(s, sep, parts, at)
    ensures StandAt(pre + s, sep, parts, at') && |at'| == |at| && forall i | 0 <= i < |at| :: at'[i] == |pre| + at[i]
  {
    at' := seq(|at|, i requires 0 <= i < |at| => |pre| + at[i]);
    forall i | 0 <= i < |parts|
      ensures StandsAt(pre + s, sep, parts, at', i)
    {
      assert StandsAt(s, sep, parts, at, i);
      OccursAfter(pre, s, parts[i], at[i]);
      if i + 1 < |parts| {
        OccursAfter(pre, s, sep, at[i] + |parts[i]|);
      }
    }
  }

  lemma {:induction false} StandFirst(s: string, sep: string, parts: seq<string>, at: seq<nat>)
    requires |parts| > 1 && |at| == |parts| && StandAt(s, sep, parts[1..], at[1..]) && StandsAt(s, sep, parts, at, 0)
    ensures StandAt(s, sep, parts, at)
  {
    forall i | 0 <= i < |parts|
      ensures StandsAt(s, sep, parts, at, i)
    {
      if i > 0 {
        assert StandsAt(s, sep, parts[1..], at[1..], i - 1);
      }
    }
  }

  /** Joined parts stand one after the other, the first one at the start. */
  lemma {:induction false} JoinStands(sep: string, parts: seq<string>) returns (at: seq<nat>)
    requires parts != []
    ensures StandAt(Join(sep, parts), sep, parts, at) && at[0] == 0
  {
    if |parts| == 1 {
      at := [0];
      assert OccursAt(Join(sep, parts), parts[0], 0);
    } else {
      var rest, s := Join(sep, parts[1..]), Join(sep, parts);
      var later := JoinStands(sep, parts[1..]);
      var after := StandAfter(parts[0] + sep, rest, sep, parts[1..], later);
      at := [0] + after;
      assert at[1..] == after;
      assert s[0..|parts[0]|] == parts[0] && s[|parts[0]|..|parts[0]| + |sep|] == sep;
      StandFirst(s, sep, parts, at);
    }
  }

  /** The characters Python takes for space, and those of them that end a line, by their code points. */
  lemma CharacterTables(c: char)
    ensures IsSpace(c) <==> c as int in {9, 10, 11, 12, 13, 28, 29, 30, 31, 32, 133, 160, 5760, 8192, 8193, 8194, 8195, 8196, 8197,
                                         8198, 8199, 8200, 8201, 8202, 8232, 8233, 8239, 8287, 12288}
    ensures IsLineBreak(c) <==> c as int in {10, 11, 12, 13, 28, 29, 30, 133, 8232, 8233}
  {
  }
}
