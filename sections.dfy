/**
 * `MarkdownProcessor.extract_sections`: the matches of the heading pattern
 * `^(#{1,6})\s+(.+)$` (multi-line mode) cut the text into titled sections.
 */
module Sections {
  import opened Wrappers
  import opened Strings
  import opened Markdown

  /** One match of the heading pattern: the number of '#', group 2, where the match starts and where it ends. */
  datatype Heading = Heading(level: nat, title: string, start: nat, end: nat)

  /** `^` in multi-line mode: the start of the text or just after a newline. */
  predicate LineStart(s: string, p: nat) {
    p == 0 || (0 < p <= |s| && s[p - 1] == '\n')
  }

  /** The length of the run of '#' starting at `i`. */
  function HashRun(s: string, i: nat): (n: nat)
    requires i <= |s|
    ensures i + n <= |s|
    decreases |s| - i
  {
    if i < |s| && s[i] == '#' then 1 + HashRun(s, i + 1) else 0
  }

  /** Where the line holding index `i` ends: the next newline at or after `i`, or the end of the text. */
  function LineEnd(s: string, i: nat): (r: nat)
    requires i <= |s|
    ensures i <= r <= |s|
    decreases |s| - i
  {
    if i == |s| || s[i] == '\n' then i else LineEnd(s, i + 1)
  }

  /** No newline lies between `i` and the end of its line. */
  lemma {:induction false} LineEndNoNewline(s: string, i: nat)
    requires i <= |s|
    ensures forall j :: i <= j < LineEnd(s, i) ==> s[j] != '\n'
    ensures LineEnd(s, i) < |s| ==> s[LineEnd(s, i)] == '\n'
    decreases |s| - i
  {
    if i < |s| && s[i] != '\n' {
      LineEndNoNewline(s, i + 1);
    }
  }

  /** The end of the run of whitespace starting at `i`. */
  function SpacesEnd(s: string, i: nat): (r: nat)
    requires i <= |s|
    ensures i <= r <= |s|
    ensures r < |s| ==> !IsSpace(s[r])
    decreases |s| - i
  {
    if i < |s| && IsSpace(s[i]) then SpacesEnd(s, i + 1) else i
  }

  /** The last index at or after `lo` that does not hold a newline, or -1. */
  function LastNonNewline(s: string, lo: nat): (k: int)
    requires lo <= |s|
    ensures k == -1 || (lo <= k < |s| && s[k] != '\n')
    decreases |s| - lo
  {
    if lo == |s| then -1
    else
      var k := LastNonNewline(s, lo + 1);
      if k != -1 then k else if s[lo] != '\n' then lo else -1
  }

  /**
   * Where `(.+)$` starts and ends once `\s+` has started at `q`: the greedy `\s+` runs
   * over every whitespace character, newlines included, and `.+` takes the rest of the
   * line it stops on. When only whitespace is left, `\s+` backs off to the last character
   * after `q` that is not a newline, and that character is the title.
   */
  function TitleSpan(s: string, q: nat): (span: Option<(nat, nat)>)
    requires q < |s| && IsSpace(s[q])
    ensures span.Some? ==> q < span.value.0 < span.value.1 <= |s|
  {
    var e := SpacesEnd(s, q);
    assert e == SpacesEnd(s, q + 1);
    var k := if e < |s| then e else LastNonNewline(s, q + 1);
    if k == -1 then None
    else
      assert s[k] != '\n';
      assert LineEnd(s, k) == LineEnd(s, k + 1);
      Some((k, LineEnd(s, k)))
  }

  /**
   * The match of the heading pattern at `p`, if any. `#{1,6}` must take the whole run of
   * '#' (a shorter take leaves a '#' where `\s` is needed), and `\s+` must find at
   * least one whitespace character after it.
   */
  function HeadingAt(s: string, p: nat): (m: Option<Heading>)
    requires p <= |s|
    ensures m.Some? ==> && m.value.start == p && p < m.value.end <= |s|
                        && 1 <= m.value.level <= 6 && |m.value.title| > 0
  {
    if !LineStart(s, p) then None
    else
      var h := HashRun(s, p);
      var q := p + h;
      if h < 1 || h > 6 || q == |s| || !IsSpace(s[q]) then None
      else match TitleSpan(s, q)
        case None => None
        case Some((k, end)) => Some(Heading(h, s[k..end], p, end))
  }

  /** A heading title is one non-empty line. */
  lemma TitleOneLine(s: string, p: nat)
    requires p <= |s| && HeadingAt(s, p).Some?
    ensures '\n' !in HeadingAt(s, p).value.title
  {
    var h := HashRun(s, p);
    var span := TitleSpan(s, p + h).value;
    var t := s[span.0..span.1];
    LineEndNoNewline(s, span.0);
    forall j | 0 <= j < |t| ensures t[j] != '\n' { assert t[j] == s[span.0 + j]; }
  }

  /** `finditer` from index `p`: after a match the search resumes where it ended. */
  function HeadingsFrom(s: string, p: nat): (hs: seq<Heading>)
    requires p <= |s|
    ensures forall i :: 0 <= i < |hs| ==> p <= hs[i].start < hs[i].end <= |s|
    ensures forall i {:trigger HeadingAt(s, hs[i].start)} :: 0 <= i < |hs| ==> HeadingAt(s, hs[i].start) == Some(hs[i])
    ensures forall i :: 0 <= i < |hs| - 1 ==> hs[i].end <= hs[i + 1].start
    decreases |s| - p
  {
    if p == |s| then []
    else match HeadingAt(s, p)
      case Some(hd) => [hd] + HeadingsFrom(s, hd.end)
      case None => HeadingsFrom(s, p + 1)
  }

  function Headings(s: string): seq<Heading> {
    HeadingsFrom(s, 0)
  }

  /**
   * Every place where the pattern matches is found, unless an earlier match already
   * ran over it.
   */
  lemma {:induction false} HeadingsFromComplete(s: string, p: nat, q: nat) returns (i: nat)
    requires p <= q <= |s| && HeadingAt(s, q).Some?
    ensures i < |HeadingsFrom(s, p)| && HeadingsFrom(s, p)[i].start <= q < HeadingsFrom(s, p)[i].end
    decreases |s| - p, 1
  {
    if p == |s| {
      assert false;
    } else if HeadingAt(s, p).Some? {
      i := CoverAfterMatch(s, p, q);
    } else {
      assert q != p;
      HeadingsFromSkip(s, p);
      i := HeadingsFromComplete(s, p + 1, q);
    }
  }

  /** `finditer` moves on one character where the pattern does not match. */
  lemma HeadingsFromSkip(s: string, p: nat)
    requires p < |s| && HeadingAt(s, p).None?
    ensures HeadingsFrom(s, p) == HeadingsFrom(s, p + 1)
  {
  }

  /** `finditer` yields a match and resumes where it ends. */
  lemma HeadingsFromMatch(s: string, p: nat)
    requires p < |s| && HeadingAt(s, p).Some?
    ensures HeadingsFrom(s, p) == [HeadingAt(s, p).value] + HeadingsFrom(s, HeadingAt(s, p).value.end)
  {
  }

  /** The completeness step for a match at `p`: `q` lies in it, or in a later one. */
  lemma {:induction false} CoverAfterMatch(s: string, p: nat, q: nat) returns (i: nat)
    requires p < |s| && p <= q <= |s| && HeadingAt(s, q).Some? && HeadingAt(s, p).Some?
    ensures i < |HeadingsFrom(s, p)| && HeadingsFrom(s, p)[i].start <= q < HeadingsFrom(s, p)[i].end
    decreases |s| - p, 0
  {
    var hd := HeadingAt(s, p).value;
    HeadingsFromMatch(s, p);
    if q < hd.end {
      i := 0;
    } else {
      var j := HeadingsFromComplete(s, hd.end, q);
      i := j + 1;
      ConsIndex(hd, HeadingsFrom(s, hd.end), j);
    }
  }

  lemma ConsIndex<T>(x: T, xs: seq<T>, j: nat)
    requires j < |xs|
    ensures ([x] + xs)[j + 1] == xs[j]
  {
  }

  /**
   * The headings found are exactly the matches of the pattern that do not start inside
   * an earlier match: each is a match at its start, they come in text order without
   * overlapping, and a match anywhere lies within one of them.
   */
  lemma HeadingsExact(s: string)
    ensures var hs := Headings(s);
      && (forall i :: 0 <= i < |hs| ==> HeadingAt(s, hs[i].start) == Some(hs[i]))
      && (forall i :: 0 <= i < |hs| - 1 ==> hs[i].end <= hs[i + 1].start)
      && (forall q :: 0 <= q <= |s| && HeadingAt(s, q).Some? ==>
            exists i :: 0 <= i < |hs| && hs[i].start <= q < hs[i].end)
  {
    forall q | 0 <= q <= |s| && HeadingAt(s, q).Some?
      ensures exists i :: 0 <= i < |Headings(s)| && Headings(s)[i].start <= q < Headings(s)[i].end
    {
      var i := HeadingsFromComplete(s, 0, q);
    }
  }

  /** Where the section of heading `i` ends: at the next heading's start, or at the end of the text. */
  function SectionEnd(s: string, hs: seq<Heading>, i: nat): nat
    requires i < |hs|
  {
    if i + 1 < |hs| then hs[i + 1].start else |s|
  }

  /** The headings `finditer` yields for `s`, in order and within the text. */
  predicate WellPlaced(s: string, hs: seq<Heading>) {
    && (forall i :: 0 <= i < |hs| ==> hs[i].start < hs[i].end <= |s|)
    && (forall i :: 0 <= i < |hs| - 1 ==> hs[i].end <= hs[i + 1].start)
  }

  lemma HeadingsWellPlaced(s: string)
    ensures WellPlaced(s, Headings(s))
  {
  }

  /** The raw text of section `i`: from its heading to the next heading or the end. */
  function RawSection(s: string, hs: seq<Heading>, i: nat): string
    requires WellPlaced(s, hs) && i < |hs|
  {
    s[hs[i].start..SectionEnd(s, hs, i)]
  }

  /** Section `i`: the heading's title cut to the title limit, the raw text stripped and cut to the content limit. */
  function SectionAt(s: string, hs: seq<Heading>, i: nat): Section
    requires WellPlaced(s, hs) && i < |hs|
  {
    Section(Truncate(hs[i].title, MaxTitleLength, true), hs[i].level,
            Truncate(Strip(RawSection(s, hs, i)), MaxContentLength, true))
  }

  /** The sections of a document: one "Main Content" section without headings, otherwise one per heading. */
  function SectionsOf(s: string): seq<Section> {
    var hs := Headings(s);
    HeadingsWellPlaced(s);
    if |hs| == 0 then [Section("Main Content", 0, Truncate(s, MaxContentLength, true))]
    else seq(|hs|, i requires 0 <= i < |hs| => SectionAt(s, hs, i))
  }

  /** The loop of `extract_sections` over the heading matches. */
  method ExtractSections(markdownText: string) returns (sections: seq<Section>)
    ensures sections == SectionsOf(markdownText)
  {
    var headers := Headings(markdownText);
    HeadingsWellPlaced(markdownText);
    if |headers| == 0 {
      return [Section("Main Content", 0, Truncate(markdownText, MaxContentLength, true))];
    }
    ghost var all := SectionsOf(markdownText);
    sections := [];
    for i := 0 to |headers|
      invariant sections == all[..i]
    {
      var nextPos := if i + 1 < |headers| then headers[i + 1].start else |markdownText|;
      var title := Truncate(headers[i].title, MaxTitleLength, true);
      var content := Strip(markdownText[headers[i].start..nextPos]);
      content := Truncate(content, MaxContentLength, true);
      SectionStep(markdownText, i, nextPos, title, content);
      PrefixGrows(all, i);
      sections := sections + [Section(title, headers[i].level, content)];
    }
    assert all[..|headers|] == all;
  }

  lemma PrefixGrows<T>(a: seq<T>, i: nat)
    requires i < |a|
    ensures a[..i + 1] == a[..i] + [a[i]]
  {
  }

  lemma SectionStep(s: string, i: nat, next: nat, title: string, content: string)
    requires i < |Headings(s)|
    requires next == if i + 1 < |Headings(s)| then Headings(s)[i + 1].start else |s|
    requires title == Truncate(Headings(s)[i].title, MaxTitleLength, true)
    requires Headings(s)[i].start <= next <= |s|
    requires content == Truncate(Strip(s[Headings(s)[i].start..next]), MaxContentLength, true)
    ensures SectionsOf(s)[i] == Section(title, Headings(s)[i].level, content)
  {
    var hs := Headings(s);
    HeadingsWellPlaced(s);
    assert SectionEnd(s, hs, i) == next;
    assert RawSection(s, hs, i) == s[hs[i].start..next];
    assert SectionsOf(s)[i] == SectionAt(s, hs, i);
  }

  /**
   * Without a heading there is one section, "Main Content" at level 0 holding the whole
   * text cut to the content limit; otherwise there is one section per heading, in order,
   * with the heading's level (1 to 6) and its title cut to the title limit.
   */
  lemma SectionsShape(s: string)
    ensures var hs := Headings(s);
      var ss := SectionsOf(s);
      && (|hs| == 0 ==> ss == [Section("Main Content", 0, Truncate(s, MaxContentLength, true))])
      && (|hs| > 0 ==> |ss| == |hs|)
      && (forall i :: 0 <= i < |hs| ==>
            && ss[i].level == hs[i].level
            && 1 <= ss[i].level <= 6
            && ss[i].title == Truncate(hs[i].title, MaxTitleLength, true)
            && |ss[i].title| <= MaxTitleLength + 3)
  {
    var hs := Headings(s);
    forall i | 0 <= i < |hs|
      ensures && SectionsOf(s)[i].level == hs[i].level
              && 1 <= SectionsOf(s)[i].level <= 6
              && SectionsOf(s)[i].title == Truncate(hs[i].title, MaxTitleLength, true)
              && |SectionsOf(s)[i].title| <= MaxTitleLength + 3
    {
      SectionOfHeading(s, i);
    }
  }

  lemma SectionOfHeading(s: string, i: nat)
    requires i < |Headings(s)|
    ensures var h := Headings(s)[i];
      && i < |SectionsOf(s)|
      && SectionsOf(s)[i].level == h.level
      && 1 <= h.level <= 6
      && SectionsOf(s)[i].title == Truncate(h.title, MaxTitleLength, true)
      && |SectionsOf(s)[i].title| <= MaxTitleLength + 3
  {
    var hs := Headings(s);
    SectionIsPreprocessed(s, i);
    TruncateBound(hs[i].title, MaxTitleLength, true);
    assert HeadingAt(s, hs[i].start) == Some(hs[i]);
  }

  /** The concatenated raw sections from `i` on. */
  function RawFrom(s: string, hs: seq<Heading>, i: nat): string
    requires WellPlaced(s, hs) && i <= |hs|
    decreases |hs| - i
  {
    if i == |hs| then "" else RawSection(s, hs, i) + RawFrom(s, hs, i + 1)
  }

  /** The raw sections tile the text from heading `i` to the end. */
  lemma {:induction false} RawTiles(s: string, hs: seq<Heading>, i: nat)
    requires WellPlaced(s, hs) && i < |hs|
    ensures RawFrom(s, hs, i) == s[hs[i].start..]
    decreases |hs| - i
  {
    if i + 1 < |hs| {
      RawTiles(s, hs, i + 1);
      assert s[hs[i].start..] == s[hs[i].start..hs[i + 1].start] + s[hs[i + 1].start..];
    } else {
      assert RawFrom(s, hs, i + 1) == "";
    }
  }

  /**
   * Text before the first heading belongs to no section: the raw sections put together are
   * the text from the first heading on, and each starts with its heading.
   */
  lemma SectionsCover(s: string)
    ensures var hs := Headings(s);
      |hs| > 0 ==>
        && RawFrom(s, hs, 0) == s[hs[0].start..]
        && forall i :: 0 <= i < |hs| ==> HeadingAt(s, hs[i].start).Some? && s[hs[i].start] == '#'
  {
    var hs := Headings(s);
    HeadingsWellPlaced(s);
    if |hs| > 0 {
      RawTiles(s, hs, 0);
      forall i | 0 <= i < |hs| ensures s[hs[i].start] == '#' {
        HeadingStartsWithHash(s, hs[i].start);
      }
    }
  }

  lemma HeadingStartsWithHash(s: string, p: nat)
    requires p <= |s| && HeadingAt(s, p).Some?
    ensures p < |s| && s[p] == '#'
  {
  }

  /** Each section is `preprocess_section` applied to its stripped raw text, its title and its level. */
  lemma SectionIsPreprocessed(s: string, i: nat)
    requires i < |Headings(s)|
    ensures var hs := Headings(s);
      WellPlaced(s, hs) &&
      SectionsOf(s)[i] == PreprocessSection(Strip(RawSection(s, hs, i)), hs[i].title, hs[i].level)
  {
  }
}
