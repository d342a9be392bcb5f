/**
 * MarkdownProcessor (markdown_processor.py, identical under api/ and ragdocs_api/):
 * word-boundary truncation, YAML front matter, code-block placeholders,
 * heading sections, keyword categories and section preprocessing.
 */
module Markdown {
  import opened Wrappers
  import opened Strings

  /** Milvus VARCHAR limits the processor truncates to. */
  const MaxTitleLength: nat := 512
  const MaxContentLength: nat := 65535

  // ---------------------------------------------------------------------------
  // truncate_text

  /**
   * Cuts `text` to `maxLength` characters, backing up to the last space of that
   * window when it is not at index 0, and (with `addEllipsis`) right-strips and
   * appends "...". Text that already fits is returned unchanged.
   */
  function Truncate(text: string, maxLength: nat, addEllipsis: bool): (r: string)
    ensures |text| <= maxLength ==> r == text
    ensures |text| > maxLength && addEllipsis ==> |r| >= 3 && r[|r| - 3..] == "..."
  {
    if |text| <= maxLength then text
    else
      var truncated := text[..maxLength];
      var lastSpace := LastIndexOf(truncated, ' ');
      var kept := if lastSpace > 0 then truncated[..lastSpace] else truncated;
      if addEllipsis then RStrip(kept) + "..." else kept
  }

  /**
   * Without an ellipsis, text over the limit is cut to a prefix: the whole window of
   * `maxLength` characters, or the window up to its last space when that space is not
   * the first character; no space lies between the cut and the end of the window, and
   * the whole window is kept exactly when no space follows its first character.
   */
  lemma TruncateCut(text: string, maxLength: nat)
    requires |text| > maxLength
    ensures var r := Truncate(text, maxLength, false);
      && r <= text
      && (|r| == maxLength || (0 < |r| < maxLength && text[|r|] == ' '))
      && (forall i :: |r| < i < maxLength ==> text[i] != ' ')
      && (|r| == maxLength <==> forall i :: 0 < i < maxLength ==> text[i] != ' ')
  {
    var truncated := text[..maxLength];
    var lastSpace := LastIndexOf(truncated, ' ');
    if lastSpace <= 0 {
      forall i | 0 < i < maxLength ensures text[i] != ' ' {
        assert truncated[i] == text[i];
        if lastSpace == 0 { assert truncated[i] in truncated[1..]; }
      }
    } else {
      forall i | lastSpace < i < maxLength ensures text[i] != ' ' {
        assert truncated[i] in truncated[lastSpace + 1..];
      }
      assert text[lastSpace] == truncated[lastSpace] == ' ';
    }
  }

  /** With an ellipsis the result is the plain cut, right-stripped, plus "...". */
  lemma TruncateWithEllipsis(text: string, maxLength: nat)
    requires |text| > maxLength
    ensures Truncate(text, maxLength, true) == RStrip(Truncate(text, maxLength, false)) + "..."
  {
  }

  /** The plain cut never exceeds the limit, but the ellipsis can take the result three characters past it. */
  lemma TruncateBound(text: string, maxLength: nat, addEllipsis: bool)
    ensures |Truncate(text, maxLength, addEllipsis)| <= if addEllipsis then maxLength + 3 else maxLength
  {
    if |text| > maxLength && addEllipsis {
      TruncateWithEllipsis(text, maxLength);
    }
  }

  /** The last `c` of `s` is at `k` when `s[k]` is `c` and none follows. */
  lemma LastIndexOfAt(s: string, c: char, k: nat)
    requires k < |s| && s[k] == c && c !in s[k + 1..]
    ensures LastIndexOf(s, c) == k
  {
    var r := LastIndexOf(s, c);
    if r < k { assert s[k] in s[r + 1..]; }
  }

  /**
   * Truncating twice is not truncating once: for a word `w` without whitespace, the
   * text `w + " cc"` cut to |w| + 2 characters comes back as `w + "..."`, which is
   * longer than the limit, and a second pass cuts that again.
   */
  lemma TruncateNotIdempotent(w: string)
    requires |w| >= 1 && forall i :: 0 <= i < |w| ==> !IsSpace(w[i])
    ensures var n := |w| + 2;
            var once := Truncate(w + " cc", n, true);
            once == w + "..." && |once| > n && Truncate(once, n, true) != once
  {
    var n := |w| + 2;
    var text := w + " cc";
    var window := text[..n];
    assert window == w + " c";
    assert ' ' !in window[|w| + 1..];
    LastIndexOfAt(window, ' ', |w|);
    assert window[..|w|] == w;
    assert RStrip(w) == w;
    var once := w + "...";
    assert Truncate(text, n, true) == once;
    var window2 := once[..n];
    assert window2 == w + "..";
    assert ' ' !in window2 by {
      forall i | 0 <= i < |window2| ensures window2[i] != ' ' {
        if i < |w| { assert window2[i] == w[i]; assert !IsSpace(w[i]); }
      }
    }
    assert RStrip(window2) == window2;
    assert Truncate(once, n, true) == window2 + "...";
  }

  // ---------------------------------------------------------------------------
  // extract_frontmatter

  /** Parsed YAML, keys and values as text. */
  type Metadata = map<string, string>

  /** What `yaml.safe_load` does with the front-matter text: a mapping, some other value, or an error. */
  datatype YamlValue = Mapping(entries: Metadata) | NotMapping | YamlError

  /** The metadata kept from a YAML value: its mapping, or nothing for any other value. */
  function MetadataOf(yaml: YamlValue): Metadata {
    if yaml.Mapping? then yaml.entries else map[]
  }

  const Opening := "---\n"
  const Closing := "\n---\n"

  /**
   * Splits a leading "---\n ... \n---\n" block off `content`. The metadata is the YAML
   * mapping of the block (empty for a non-mapping value) and the body is the rest,
   * stripped; without an opening line, without a closing line at index 4 or later, or
   * when YAML fails, the content comes back whole with no metadata.
   */
  function ExtractFrontmatter(content: string, safeLoad: string -> YamlValue): (r: (Metadata, string))
    ensures r.1 != content ==> Opening <= content && |r.1| < |content|
    ensures r.0 != map[] ==> r.1 != content
  {
    if !(Opening <= content) then (map[], content)
    else
      var pos := Find(content, Closing, 4);
      if pos == -1 then (map[], content)
      else
        var yaml := safeLoad(content[4..pos]);
        if yaml.YamlError? then (map[], content)
        else (MetadataOf(yaml), Strip(content[pos + 5..]))
  }

  /**
   * Without an opening "---\n" line, or without a closing "\n---\n" at index 4 or
   * later, or when YAML cannot parse the block, the content comes back whole.
   */
  lemma FrontmatterFallback(content: string, safeLoad: string -> YamlValue)
    requires || !(Opening <= content)
             || Find(content, Closing, 4) == -1
             || safeLoad(content[4..Find(content, Closing, 4)]).YamlError?
    ensures ExtractFrontmatter(content, safeLoad) == (map[], content)
  {
  }

  /** The pieces of "---\n" + yaml + "\n---\n" + body sit where they were put. */
  lemma FrontmatterParts(yaml: string, body: string)
    ensures var content := Opening + yaml + Closing + body;
      && Opening <= content
      && content[4..4 + |yaml|] == yaml
      && content[4 + |yaml| + 5..] == body
  {
    var content := Opening + yaml + Closing + body;
    assert content[4..4 + |yaml|] == yaml;
    assert content[4 + |yaml| + 5..] == body;
  }

  /** The first closing line of "---\n" + yaml + "\n---\n" + body is the one after the YAML. */
  lemma ClosingFound(yaml: string, body: string)
    requires Find(yaml + Closing, Closing, 0) == |yaml|
    ensures Find(Opening + yaml + Closing + body, Closing, 4) == 4 + |yaml|
  {
    var closed := yaml + Closing;
    var rest := closed + body;
    FindExtends(closed, body, Closing, 0);
    FindPastPrefix(Opening, rest, Closing, 0);
    Regroup(Opening, yaml, Closing, body);
  }

  lemma Regroup(a: string, b: string, c: string, d: string)
    ensures a + (b + c + d) == a + b + c + d
  {
  }

  /**
   * Front matter written as "---\n" + yaml + "\n---\n" + body comes apart into the
   * YAML's mapping and the stripped body, provided the YAML text holds no closing line.
   */
  lemma FrontmatterRoundTrip(yaml: string, body: string, safeLoad: string -> YamlValue)
    requires Find(yaml + Closing, Closing, 0) == |yaml|
    requires !safeLoad(yaml).YamlError?
    ensures ExtractFrontmatter(Opening + yaml + Closing + body, safeLoad) ==
      (MetadataOf(safeLoad(yaml)), Strip(body))
  {
    FrontmatterParts(yaml, body);
    ClosingFound(yaml, body);
  }

  // ---------------------------------------------------------------------------
  // preprocess_section

  /** A section of a document: its heading text, its heading level (0 for a document without headings) and its text. */
  datatype Section = Section(title: string, level: int, content: string)

  /** Cuts the title to the title limit and the content to the content limit; the level is kept. */
  function PreprocessSection(content: string, title: string, level: int): Section {
    Section(Truncate(title, MaxTitleLength, true), level, Truncate(content, MaxContentLength, true))
  }

  /**
   * The level is kept; a title or content within its limit is kept as it is; otherwise
   * the result ends in "..." and exceeds its limit by at most the three characters of
   * the ellipsis.
   */
  lemma PreprocessBounds(content: string, title: string, level: int)
    ensures var r := PreprocessSection(content, title, level);
      && r.level == level
      && |r.title| <= MaxTitleLength + 3
      && |r.content| <= MaxContentLength + 3
      && (|title| <= MaxTitleLength ==> r.title == title)
      && (|content| <= MaxContentLength ==> r.content == content)
      && (|title| > MaxTitleLength ==> EndsWith(r.title, "..."))
      && (|content| > MaxContentLength ==> EndsWith(r.content, "..."))
  {
    TruncateBound(title, MaxTitleLength, true);
    TruncateBound(content, MaxContentLength, true);
  }

  /**
   * A title of 513 letters with no space comes back with 515 characters, past the
   * 512-character limit the truncation is meant to respect.
   */
  lemma TitleCanExceedLimit()
    ensures var title := seq(MaxTitleLength + 1, _ => 'a');
      |PreprocessSection("", title, 1).title| == MaxTitleLength + 3
  {
    var title := seq(MaxTitleLength + 1, _ => 'a');
    var window := title[..MaxTitleLength];
    assert ' ' !in window by {
      forall k | 0 <= k < |window| ensures window[k] != ' ' { assert window[k] == title[k]; }
    }
    assert !IsSpace(window[|window| - 1]) by { assert window[|window| - 1] == 'a'; }
    assert RStrip(window) == window;
  }
}
