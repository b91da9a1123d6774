/**
 * The evaluation harness's own parser, which maps each heading to the first paragraph under
 * it, and the claim it relies on: a chunk that covers the section contains that paragraph.
 */
module Sections {
  import opened Options
  import opened Text
  import opened Layout
  import opened Blocks

  /** Neither a heading nor blank. This parser knows nothing of fences. */
  predicate IsWords(kind: LineKind) {
    kind == FenceLine || kind == PlainLine
  }

  /** A maximal stretch of lines that hold words. */
  ghost predicate IsParagraph(ls: Lines, lo: nat, hi: nat) {
    && lo < hi <= |ls|
    && (forall i | lo <= i < hi :: IsWords(ls[i]))
    && (lo > 0 ==> !IsWords(ls[lo - 1]))
    && (hi < |ls| ==> !IsWords(ls[hi]))
  }

  ghost function ParagraphText(lines: seq<string>, lo: nat, hi: nat): string
    requires lo <= hi <= |lines|
  {
    Strip(RawText(lines, lo, hi))
  }

  /** The heading's words, without its marks. */
  function HeadingName(line: string): string {
    Strip(line[Hashes(line)..])
  }

  /** The last heading line before line `i`, inside a fence or not. */
  ghost function SectionLine(ls: Lines, i: nat): (h: Option<nat>)
    requires i <= |ls|
    ensures h.Some? ==> h.value < i
  {
    if i == 0 then None
    else if ls[i - 1] == HeadingLine then Some(i - 1)
    else SectionLine(ls, i - 1)
  }

  /** The name of the heading in force at line `i`. */
  ghost function SectionName(lines: seq<string>, ls: Lines, i: nat): Option<string>
    requires i <= |ls| == |lines|
  {
    match SectionLine(ls, i)
    case None => None
    case Some(h) => Some(HeadingName(lines[h]))
  }

  ghost predicate IsParagraphOf(lines: seq<string>, ls: Lines, h: string, lo: nat, hi: nat) {
    |ls| == |lines| && IsParagraph(ls, lo, hi) && SectionName(lines, ls, lo) == Some(h)
  }

  /** The first paragraph under any heading named `h`. */
  ghost predicate IsFirstOf(lines: seq<string>, ls: Lines, h: string, lo: nat, hi: nat) {
    && IsParagraphOf(lines, ls, h, lo, hi)
    && forall lo': nat, hi': nat | IsParagraphOf(lines, ls, h, lo', hi') :: lo <= lo'
  }

  ghost predicate IsEntry(lines: seq<string>, ls: Lines, h: string, text: string, lo: nat, hi: nat) {
    IsFirstOf(lines, ls, h, lo, hi) && text == ParagraphText(lines, lo, hi)
  }

  /** `text` is the first paragraph under a heading named `h`, and it starts before line `n`. */
  ghost predicate HasEntry(lines: seq<string>, ls: Lines, n: nat, h: string, text: string) {
    exists lo: nat, hi: nat :: lo < n && IsEntry(lines, ls, h, text, lo, hi)
  }

  /** The heading-to-paragraph map, for the paragraphs that start before line `n`. */
  ghost predicate MapsSections(lines: seq<string>, ls: Lines, n: nat, sections: map<string, string>) {
    && (forall h, lo: nat, hi: nat {:trigger IsParagraphOf(lines, ls, h, lo, hi)} |
          IsParagraphOf(lines, ls, h, lo, hi) && lo < n :: h in sections)
    && forall h {:trigger HasEntry(lines, ls, n, h, sections[h])} | h in sections :: HasEntry(lines, ls, n, h, sections[h])
  }

  lemma EntryLater(lines: seq<string>, ls: Lines, n: nat, m: nat, h: string, text: string)
    requires HasEntry(lines, ls, n, h, text) && n <= m
    ensures HasEntry(lines, ls, m, h, text)
  {
    var lo: nat, hi: nat :| lo < n && IsEntry(lines, ls, h, text, lo, hi);
    assert lo < m && IsEntry(lines, ls, h, text, lo, hi);
  }

  /** What is recorded before line `n` is still true at a later line. */
  lemma EntriesLater(lines: seq<string>, ls: Lines, n: nat, m: nat, sections: map<string, string>)
    requires MapsSections(lines, ls, n, sections) && n <= m
    ensures forall h | h in sections :: HasEntry(lines, ls, m, h, sections[h])
  {
    forall h | h in sections
      ensures HasEntry(lines, ls, m, h, sections[h])
    {
      assert HasEntry(lines, ls, n, h, sections[h]);
      EntryLater(lines, ls, n, m, h, sections[h]);
    }
  }

  lemma {:induction false} SectionThroughWords(ls: Lines, lo: nat, i: nat)
    requires lo <= i <= |ls| && forall j | lo <= j < i :: IsWords(ls[j])
    ensures SectionLine(ls, i) == SectionLine(ls, lo)
  {
    if lo < i {
      SectionThroughWords(ls, lo, i - 1);
    }
  }

  /** A paragraph that starts inside another is that one. */
  lemma ParagraphFrom(ls: Lines, lo: nat, hi: nat, lo': nat, hi': nat)
    requires IsParagraph(ls, lo, hi) && IsParagraph(ls, lo', hi') && lo <= lo' < hi
    ensures lo == lo' && hi == hi'
  {
  }

  /** The lines from `start` up to `i` hold words; the paragraphs before `start` are in the map. */
  ghost predicate Reading(lines: seq<string>, ls: Lines, start: nat, i: nat, buf: seq<string>, current: Option<string>,
                          sections: map<string, string>)
  {
    && AreKinds(lines, ls) && start <= i <= |ls| && buf == lines[start..i]
    && (forall j | start <= j < i :: IsWords(ls[j]))
    && (start > 0 ==> !IsWords(ls[start - 1]))
    && current == SectionName(lines, ls, i) && MapsSections(lines, ls, start, sections)
  }

  lemma WordsAreSolid(lines: seq<string>, ls: Lines, i: nat)
    requires AreKinds(lines, ls) && i < |ls| && IsWords(ls[i])
    ensures !IsBlank(lines[i])
  {
    assert IsKind(lines[i], ls[i]);
    TestsExclusive(lines[i]);
  }

  /** The paragraphs up to line `i` are those before line `start`, and the one collected since. */
  lemma OneMoreParagraph(lines: seq<string>, ls: Lines, start: nat, i: nat, buf: seq<string>, current: Option<string>,
                         sections: map<string, string>)
    requires Reading(lines, ls, start, i, buf, current, sections)
    requires start < i && (i < |ls| ==> !IsWords(ls[i]))
    ensures IsParagraph(ls, start, i) && SectionName(lines, ls, start) == current
    ensures forall h, lo: nat, hi: nat {:trigger IsParagraphOf(lines, ls, h, lo, hi)} |
      IsParagraphOf(lines, ls, h, lo, hi) && lo < i && h !in sections :: current == Some(h)
  {
    SectionThroughWords(ls, start, i);
    assert IsParagraph(ls, start, i);
    forall h, lo: nat, hi: nat | IsParagraphOf(lines, ls, h, lo, hi) && lo < i && h !in sections
      ensures current == Some(h)
    {
      ParagraphFrom(ls, start, i, lo, hi);
    }
  }

  /** No heading is in force, or it already has its paragraph: the map stays. */
  lemma NoNewSection(lines: seq<string>, ls: Lines, start: nat, i: nat, buf: seq<string>, current: Option<string>,
                     sections: map<string, string>)
    requires Reading(lines, ls, start, i, buf, current, sections)
    requires start < i && (i < |ls| ==> !IsWords(ls[i]))
    requires current.None? || current.value in sections
    ensures MapsSections(lines, ls, i, sections)
  {
    OneMoreParagraph(lines, ls, start, i, buf, current, sections);
    EntriesLater(lines, ls, start, i, sections);
  }

  /** A heading that has no paragraph before line `start` has its first one there. */
  lemma FirstEntry(lines: seq<string>, ls: Lines, start: nat, i: nat, sections: map<string, string>, h: string, text: string)
    requires MapsSections(lines, ls, start, sections) && h !in sections
    requires start < i && IsParagraphOf(lines, ls, h, start, i) && text == ParagraphText(lines, start, i)
    ensures HasEntry(lines, ls, i, h, text)
  {
    assert IsFirstOf(lines, ls, h, start, i);
    assert IsEntry(lines, ls, h, text, start, i);
  }

  lemma MapsOneMore(lines: seq<string>, ls: Lines, n: nat, sections: map<string, string>, h: string, text: string)
    requires forall g | g in sections :: HasEntry(lines, ls, n, g, sections[g])
    requires HasEntry(lines, ls, n, h, text)
    requires forall g, lo: nat, hi: nat {:trigger IsParagraphOf(lines, ls, g, lo, hi)} |
      IsParagraphOf(lines, ls, g, lo, hi) && lo < n :: g in sections || g == h
    ensures MapsSections(lines, ls, n, sections[h := text])
  {
  }

  /** The first paragraph under the heading in force is recorded. */
  lemma NewSection(lines: seq<string>, ls: Lines, start: nat, i: nat, buf: seq<string>, current: Option<string>,
                   sections: map<string, string>, text: string)
    requires Reading(lines, ls, start, i, buf, current, sections)
    requires start < i && (i < |ls| ==> !IsWords(ls[i]))
    requires current.Some? && current.value !in sections && text == Strip(Join("\n", buf))
    ensures MapsSections(lines, ls, i, sections[current.value := text])
  {
    OneMoreParagraph(lines, ls, start, i, buf, current, sections);
    EntriesLater(lines, ls, start, i, sections);
    FirstEntry(lines, ls, start, i, sections, current.value, text);
    MapsOneMore(lines, ls, i, sections, current.value, text);
  }

  /** Ends the paragraph in `buf`: it is recorded if a heading is in force and has none yet. */
  method FlushSection(lines: seq<string>, ghost ls: Lines, ghost start: nat, ghost i: nat, buf: seq<string>,
                      current: Option<string>, sections: map<string, string>) returns (flushed: map<string, string>)
    requires Reading(lines, ls, start, i, buf, current, sections) && (i < |ls| ==> !IsWords(ls[i]))
    ensures MapsSections(lines, ls, i, flushed)
  {
    flushed := sections;
    var text := Strip(Join("\n", buf));
    if start < i {
      assert buf[0] == lines[start];
      WordsAreSolid(lines, ls, start);
      ProseIsSolid(buf);
    } else {
      assert buf == [] && text == "";
    }
    if current.Some? && text != "" && current.value !in sections {
      NewSection(lines, ls, start, i, buf, current, sections, text);
      flushed := sections[current.value := text];
    } else if text != "" {
      NoNewSection(lines, ls, start, i, buf, current, sections);
    }
  }

  /** After a heading or a blank line nothing is being collected. */
  lemma ReadBreak(lines: seq<string>, ls: Lines, i: nat, sections: map<string, string>, name: Option<string>)
    requires AreKinds(lines, ls) && i < |ls| && !IsWords(ls[i]) && MapsSections(lines, ls, i, sections)
    requires name == SectionName(lines, ls, i + 1)
    ensures Reading(lines, ls, i + 1, i + 1, [], name, sections)
  {
    EntriesLater(lines, ls, i, i + 1, sections);
  }

  /** A line of words joins the paragraph. */
  lemma ReadWords(lines: seq<string>, ls: Lines, start: nat, i: nat, buf: seq<string>, current: Option<string>,
                  sections: map<string, string>)
    requires i < |lines| && Reading(lines, ls, start, i, buf, current, sections) && IsWords(ls[i])
    ensures Reading(lines, ls, start, i + 1, buf + [lines[i]], current, sections)
  {
  }

  /** One line: a heading or a blank line ends the paragraph, any other joins it. */
  method ReadLine(lines: seq<string>, ghost ls: Lines, ghost start: nat, i: nat, buf: seq<string>, current: Option<string>,
                  sections: map<string, string>)
    returns (buf': seq<string>, current': Option<string>, sections': map<string, string>, ghost start': nat)
    requires i < |lines| && Reading(lines, ls, start, i, buf, current, sections)
    ensures Reading(lines, ls, start', i + 1, buf', current', sections')
  {
    var line := lines[i];
    assert IsKind(line, ls[i]);
    TestsExclusive(line);
    if IsHeading(line) || IsBlank(line) {
      sections' := FlushSection(lines, ls, start, i, buf, current, sections);
      current' := if IsHeading(line) then Some(HeadingName(line)) else current;
      buf', start' := [], i + 1;
      ReadBreak(lines, ls, i, sections', current');
    } else {
      ReadWords(lines, ls, start, i, buf, current, sections);
      buf', current', sections', start' := buf + [line], current, sections, start;
    }
  }

  ghost predicate AreSectionsBy(lines: seq<string>, sections: map<string, string>, ls: Lines) {
    AreKinds(lines, ls) && MapsSections(lines, ls, |ls|, sections)
  }

  /** The document's headings, each with the first paragraph under one of that name. */
  ghost predicate AreSections(lines: seq<string>, sections: map<string, string>) {
    exists ls :: AreSectionsBy(lines, sections, ls)
  }

  method SectionFirstBlocks(lines: seq<string>) returns (sections: map<string, string>, ghost ls: Lines)
    ensures AreSections(lines, sections) && AreSectionsBy(lines, sections, ls)
  {
    ls := seq(|lines|, i requires 0 <= i < |lines| => Classify(lines[i]));
    sections := map[];
    var current := None;
    var buf := [];
    ghost var start := 0;
    for i := 0 to |lines|
      invariant Reading(lines, ls, start, i, buf, current, sections)
    {
      buf, current, sections, start := ReadLine(lines, ls, start, i, buf, current, sections);
    }
    sections := FlushSection(lines, ls, start, |lines|, buf, current, sections);
    assert AreSectionsBy(lines, sections, ls);
  }

  lemma FirstOfUnique(lines: seq<string>, ls: Lines, h: string, lo: nat, hi: nat, lo': nat, hi': nat)
    requires IsFirstOf(lines, ls, h, lo, hi) && IsFirstOf(lines, ls, h, lo', hi')
    ensures lo == lo' && hi == hi'
  {
  }

  lemma SectionShared(lines: seq<string>, ls: Lines, a: map<string, string>, b: map<string, string>, h: string)
    requires MapsSections(lines, ls, |ls|, a) && MapsSections(lines, ls, |ls|, b) && h in a
    ensures h in b && a[h] == b[h]
  {
    assert HasEntry(lines, ls, |ls|, h, a[h]);
    var lo: nat, hi: nat :| lo < |ls| && IsEntry(lines, ls, h, a[h], lo, hi);
    assert IsParagraphOf(lines, ls, h, lo, hi);
    assert HasEntry(lines, ls, |ls|, h, b[h]);
    var lo': nat, hi': nat :| lo' < |ls| && IsEntry(lines, ls, h, b[h], lo', hi');
    FirstOfUnique(lines, ls, h, lo, hi, lo', hi');
  }

  /** The map is determined by the lines. */
  lemma SectionsUnique(lines: seq<string>, ls: Lines, a: map<string, string>, b: map<string, string>)
    requires MapsSections(lines, ls, |ls|, a) && MapsSections(lines, ls, |ls|, b)
    ensures a == b
  {
    forall h | h in a
      ensures h in b && a[h] == b[h]
    {
      SectionShared(lines, ls, a, b, h);
    }
    forall h | h in b
      ensures h in a
    {
      SectionShared(lines, ls, b, a, h);
    }
  }

  // ---- the names of the sections -------------------------------------------------------------

  ghost predicate AreMarks(marks: string) {
    1 <= |marks| <= 6 && forall i | 0 <= i < |marks| :: marks[i] == '#'
  }

  /** Heading marks, a gap, the name, and nothing more but spaces. */
  ghost predicate IsNamed(line: string, marks: string, gap: string, name: string, rest: string) {
    && line == marks + gap + name + rest && AreMarks(marks)
    && gap != "" && AllSpace(gap) && AllSpace(rest) && IsSolid(name)
  }

  ghost predicate HasName(line: string, name: string) {
    exists marks, gap, rest :: IsNamed(line, marks, gap, name, rest)
  }

  /** What comes after the marks of a named heading, and what is left of it. */
  lemma {:induction false} NameAfterMarks(line: string, marks: string, gap: string, name: string, rest: string)
    requires IsNamed(line, marks, gap, name, rest)
    ensures Hashes(line) == |marks| && line[|marks|..] == gap + name + rest && HeadingName(line) == name
  {
    assert line[|marks|] == gap[0];
    assert forall i | 0 <= i < |marks| :: line[i] == marks[i];
    HashesAre(line, |marks|);
    assert line[|marks|..] == gap + name + rest;
    StripIs(gap, name, rest);
  }

  /** Every heading line consists of its marks, a gap, its name and spaces, and has that name only. */
  lemma {:induction false} NameOfHeading(line: string, name: string)
    requires IsHeading(line)
    ensures HeadingName(line) == name <==> HasName(line, name)
  {
    if marks, gap, rest :| IsNamed(line, marks, gap, name, rest) {
      NameAfterMarks(line, marks, gap, name, rest);
    }
    if HeadingName(line) == name {
      var marks, gap, rest := NameParts(line);
      assert IsNamed(line, marks, gap, name, rest);
    }
  }

  lemma {:induction false} GapParts(tail: string) returns (gap: string, rest: string)
    requires tail != "" && IsSpace(tail[0])
    ensures tail == gap + Strip(tail) + rest && gap != "" && AllSpace(gap) && AllSpace(rest) && IsSolid(Strip(tail))
  {
    gap, rest := StripMeans(tail);
    if gap == "" {
      assert tail == Strip(tail) + rest;
      gap, rest := rest, "";
    }
  }

  lemma {:induction false} NameParts(line: string) returns (marks: string, gap: string, rest: string)
    requires IsHeading(line)
    ensures IsNamed(line, marks, gap, HeadingName(line), rest)
  {
    HashesMean(line);
    marks := line[..Hashes(line)];
    var tail := line[Hashes(line)..];
    gap, rest := GapParts(tail);
    assert line == marks + tail;
    Regroup(marks, gap, Strip(tail), rest);
  }

  lemma Regroup(a: string, b: string, c: string, d: string)
    ensures a + (b + c + d) == a + b + c + d
  {
  }

  /** The paragraph from `lo` up to `hi` stands under heading line `i`, the last one before it, which has that name. */
  ghost predicate IsUnder(lines: seq<string>, ls: Lines, h: string, i: nat, lo: nat, hi: nat) {
    && |ls| == |lines| && IsParagraph(ls, lo, hi)
    && i < lo && ls[i] == HeadingLine && HasName(lines[i], h)
    && forall j | i < j < lo :: ls[j] != HeadingLine
  }

  lemma {:induction false} SectionLineIs(ls: Lines, i: nat)
    requires i <= |ls|
    ensures SectionLine(ls, i).None? ==> forall j | 0 <= j < i :: ls[j] != HeadingLine
    ensures SectionLine(ls, i).Some? ==>
      var h := SectionLine(ls, i).value; ls[h] == HeadingLine && forall j | h < j < i :: ls[j] != HeadingLine
  {
    if i > 0 {
      SectionLineIs(ls, i - 1);
    }
  }

  lemma {:induction false} UnderIff(lines: seq<string>, ls: Lines, h: string, lo: nat, hi: nat)
    requires AreKinds(lines, ls)
    ensures IsParagraphOf(lines, ls, h, lo, hi) <==> exists i: nat :: IsUnder(lines, ls, h, i, lo, hi)
  {
    if IsParagraph(ls, lo, hi) {
      SectionLineIs(ls, lo);
      if i: nat :| IsUnder(lines, ls, h, i, lo, hi) {
        assert SectionLine(ls, lo) == Some(i);
        assert IsKind(lines[i], ls[i]);
        NameOfHeading(lines[i], h);
      }
      if IsParagraphOf(lines, ls, h, lo, hi) {
        var i := SectionLine(ls, lo).value;
        assert IsKind(lines[i], ls[i]);
        NameOfHeading(lines[i], h);
        assert IsUnder(lines, ls, h, i, lo, hi);
      }
    }
  }

  /** The entry of a name is the text of the first paragraph under a heading of that name. */
  lemma {:induction false} EntryIsNamed(lines: seq<string>, ls: Lines, sections: map<string, string>, h: string,
                                        i: nat, lo: nat, hi: nat)
    requires AreKinds(lines, ls) && MapsSections(lines, ls, |ls|, sections) && IsUnder(lines, ls, h, i, lo, hi)
    requires forall i': nat, lo': nat, hi': nat | IsUnder(lines, ls, h, i', lo', hi') :: lo <= lo'
    ensures h in sections && sections[h] == ParagraphText(lines, lo, hi)
  {
    UnderIff(lines, ls, h, lo, hi);
    assert IsParagraphOf(lines, ls, h, lo, hi);
    assert HasEntry(lines, ls, |ls|, h, sections[h]);
    var lo': nat, hi': nat :| lo' < |ls| && IsEntry(lines, ls, h, sections[h], lo', hi');
    UnderIff(lines, ls, h, lo', hi');
    ParagraphFrom(ls, lo', hi', lo, hi);
  }

  /** The map's keys are exactly the names of the headings that have a paragraph under them. */
  lemma {:induction false} KeysAreNames(lines: seq<string>, ls: Lines, sections: map<string, string>, h: string)
    requires AreKinds(lines, ls) && MapsSections(lines, ls, |ls|, sections)
    ensures h in sections <==> exists i: nat, lo: nat, hi: nat :: IsUnder(lines, ls, h, i, lo, hi)
  {
    if i: nat, lo: nat, hi: nat :| IsUnder(lines, ls, h, i, lo, hi) {
      UnderIff(lines, ls, h, lo, hi);
      assert IsParagraphOf(lines, ls, h, lo, hi);
    }
    if h in sections {
      assert HasEntry(lines, ls, |ls|, h, sections[h]);
      var lo: nat, hi: nat :| lo < |ls| && IsEntry(lines, ls, h, sections[h], lo, hi);
      UnderIff(lines, ls, h, lo, hi);
    }
  }

  lemma {:induction false} NamedIsHeading(marks: string, gap: string, name: string)
    requires AreMarks(marks) && gap != "" && AllSpace(gap) && name != "" && IsSolid(name)
    ensures Classify(marks + gap + name) == HeadingLine
    ensures forall h :: HasName(marks + gap + name, h) <==> h == name
  {
    var line := marks + gap + name;
    assert line == marks + gap + name + "" && IsNamed(line, marks, gap, name, "");
    assert line[|marks|] == gap[0] && forall i | 0 <= i < |marks| :: line[i] == marks[i];
    assert HasMarks(line, |marks|);
    KindIff(line);
    forall h
      ensures HasName(line, h) <==> h == name
    {
      NameOfHeading(line, h);
      NameOfHeading(line, name);
    }
  }

  lemma {:induction false} OnlyUnder(lines: seq<string>, ls: Lines, name: string, h: string, i: nat, lo: nat, hi: nat)
    requires |lines| == 2 && ls == [HeadingLine, PlainLine] && forall h :: HasName(lines[0], h) <==> h == name
    ensures IsUnder(lines, ls, h, i, lo, hi) <==> h == name && i == 0 && lo == 1 && hi == 2
  {
    if i < lo < hi <= 2 {
      assert i == 0 && lo == 1 && hi == 2;
    }
  }

  lemma {:induction false} TwoLines(lines: seq<string>, ls: Lines, name: string, sections: map<string, string>)
    requires |lines| == 2 && ls == [HeadingLine, PlainLine] && AreKinds(lines, ls) && MapsSections(lines, ls, 2, sections)
    requires forall h :: HasName(lines[0], h) <==> h == name
    ensures sections == map[name := Strip(lines[1])]
  {
    forall h, i: nat, lo: nat, hi: nat
      ensures IsUnder(lines, ls, h, i, lo, hi) <==> h == name && i == 0 && lo == 1 && hi == 2
    {
      OnlyUnder(lines, ls, name, h, i, lo, hi);
    }
    assert IsUnder(lines, ls, name, 0, 1, 2);
    forall h
      ensures h in sections <==> h == name
    {
      KeysAreNames(lines, ls, sections, h);
    }
    EntryIsNamed(lines, ls, sections, name, 0, 1, 2);
    assert lines[1..2] == [lines[1]];
  }

  /** A heading and one line under it give one entry: the heading's name, with that line's words. */
  lemma {:induction false} OneSection(marks: string, gap: string, name: string, words: string, ls: Lines,
                                      sections: map<string, string>)
    requires AreMarks(marks) && gap != "" && AllSpace(gap) && name != "" && IsSolid(name) && Classify(words) == PlainLine
    requires AreKinds([marks + gap + name, words], ls) && MapsSections([marks + gap + name, words], ls, 2, sections)
    ensures sections == map[name := Strip(words)]
  {
    var lines := [marks + gap + name, words];
    assert IsKind(lines[0], ls[0]) && IsKind(lines[1], ls[1]);
    NamedIsHeading(marks, gap, name);
    TwoLines(lines, ls, name, sections);
  }
}
