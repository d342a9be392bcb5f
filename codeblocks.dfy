/**
 * `MarkdownProcessor.clean_code_blocks`: fenced blocks become one-line placeholders
 * (the `re.sub` pass), then each run of indented lines becomes a single placeholder
 * line (the `in_code_block` loop).
 */
module CodeBlocks {
  import opened Wrappers
  import opened Strings

  // ---------------------------------------------------------------------------
  // The fence pass: re.sub(r"```(\w+)?\n(.*?)\n```", ..., flags=re.DOTALL)

  const Fence := "```"
  const ClosingFence := "\n```"

  /** The regex class `\w`, restricted to ASCII. */
  predicate IsWordChar(c: char) {
    ('a' <= c <= 'z') || ('A' <= c <= 'Z') || ('0' <= c <= '9') || c == '_'
  }

  /** The length of the run of word characters starting at `i`. */
  function WordRun(s: string, i: nat): (n: nat)
    requires i <= |s|
    ensures i + n <= |s|
    decreases |s| - i
  {
    if i < |s| && IsWordChar(s[i]) then 1 + WordRun(s, i + 1) else 0
  }

  /** The run holds only word characters and stops at the end or at a character that is not one. */
  lemma {:induction false} WordRunMaximal(s: string, i: nat)
    requires i <= |s|
    ensures forall j :: i <= j < i + WordRun(s, i) ==> IsWordChar(s[j])
    ensures i + WordRun(s, i) == |s| || !IsWordChar(s[i + WordRun(s, i)])
    decreases |s| - i
  {
    if i < |s| && IsWordChar(s[i]) {
      WordRunMaximal(s, i + 1);
    }
  }

  /** One match of the fence pattern: group 1 (absent when empty), group 2, and the length of the match. */
  datatype FenceMatch = FenceMatch(lang: Option<string>, code: string, end: nat)

  /**
   * The match of the fence pattern at the start of `t`, if any. `(\w+)?` takes the
   * longest word (backing off cannot help, since a shorter word is followed by a word
   * character, not a newline) and the lazy `(.*?)` stops at the first "\n```" after
   * the newline.
   */
  function FenceMatchAt(t: string): (m: Option<FenceMatch>)
    ensures m.Some? ==> 8 <= m.value.end <= |t|
    ensures m.Some? ==> Fence <= t
    ensures m.Some? ==> t[m.value.end - 4..m.value.end] == ClosingFence
  {
    if !(Fence <= t) then None
    else
      var nl := 3 + WordRun(t, 3);
      if nl >= |t| || t[nl] != '\n' then None
      else
        var close := Find(t, ClosingFence, nl + 1);
        if close == -1 then None
        else
          var lang := if nl == 3 then None else Some(t[3..nl]);
          Some(FenceMatch(lang, t[nl + 1..close], close + 4))
  }

  /** The replacement text for a fenced block: its language tag, or "code" without one. */
  function Placeholder(lang: Option<string>): string {
    "[CODE_BLOCK_" + (if lang.Some? then lang.value else "code") + ": Code example]"
  }

  /**
   * `re.sub` with the fence pattern: where a match starts, it is replaced and scanning
   * resumes after it; elsewhere one character is kept and scanning moves on by one.
   */
  function ReplaceFences(t: string): string
    decreases |t|
  {
    if |t| == 0 then ""
    else match FenceMatchAt(t)
      case Some(m) => Placeholder(m.lang) + ReplaceFences(t[m.end..])
      case None => [t[0]] + ReplaceFences(t[1..])
  }

  /** Text without "```" comes through the fence pass unchanged. */
  lemma {:induction false} NoFenceUnchanged(t: string)
    requires !Contains(t, Fence)
    ensures ReplaceFences(t) == t
    decreases |t|
  {
    if |t| > 0 {
      assert !OccursAt(t, Fence, 0);
      FindFirst(t, Fence, 0);
      assert !Contains(t[1..], Fence) by {
        if Contains(t[1..], Fence) {
          var k := Find(t[1..], Fence, 0);
          assert t[1 + k..1 + k + 3] == t[1..][k..k + 3];
          assert OccursAt(t, Fence, 1 + k);
        }
      }
      NoFenceUnchanged(t[1..]);
      assert t == [t[0]] + t[1..];
    }
  }

  /** A fenced-block placeholder is one line, holds no backquote and is not indented. */
  lemma PlaceholderPlain(lang: Option<string>)
    requires lang.Some? ==> forall k :: 0 <= k < |lang.value| ==> IsWordChar(lang.value[k])
    ensures '\n' !in Placeholder(lang) && '`' !in Placeholder(lang)
    ensures !IsIndented(Placeholder(lang))
  {
    var p := Placeholder(lang);
    var tag := if lang.Some? then lang.value else "code";
    assert p == "[CODE_BLOCK_" + tag + ": Code example]";
    assert p[0] == '[';
    forall k | 0 <= k < |p| ensures p[k] != '\n' && p[k] != '`' {
      if 12 <= k < 12 + |tag| { assert p[k] == tag[k - 12]; }
    }
  }

  /** The text "```" + lang + "\n" + code + "\n```" of one fenced block. */
  function FencedBlock(lang: string, code: string): string {
    Fence + lang + "\n" + code + ClosingFence
  }

  lemma FencedBlockParts(lang: string, code: string, post: string)
    ensures var t := FencedBlock(lang, code) + post;
      var nl := 3 + |lang|;
      && Fence <= t
      && t[3..nl] == lang
      && t[nl] == '\n'
      && t[nl + 1..nl + 1 + |code|] == code
      && t[nl + 1 + |code| + 4..] == post
  {
    var t := FencedBlock(lang, code) + post;
    var nl := 3 + |lang|;
    assert t[3..nl] == lang;
    assert t[nl + 1..nl + 1 + |code|] == code;
    assert t[nl + 1 + |code| + 4..] == post;
  }

  /** The word run at index 3 of a fenced block is its tag. */
  lemma WordRunOfTag(t: string, lang: string)
    requires 3 + |lang| < |t| && t[3..3 + |lang|] == lang && t[3 + |lang|] == '\n'
    requires forall k :: 0 <= k < |lang| ==> IsWordChar(lang[k])
    ensures WordRun(t, 3) == |lang|
  {
    WordRunMaximal(t, 3);
  }

  /** A fenced block with a word as its tag, and code without "\n```", is one match of the pattern. */
  lemma FenceMatched(lang: string, code: string, post: string)
    requires forall k :: 0 <= k < |lang| ==> IsWordChar(lang[k])
    requires Find(code + ClosingFence, ClosingFence, 0) == |code|
    ensures FenceMatchAt(FencedBlock(lang, code) + post) ==
      Some(FenceMatch(if lang == "" then None else Some(lang), code, |FencedBlock(lang, code)|))
  {
    var t := FencedBlock(lang, code) + post;
    var nl := 3 + |lang|;
    FencedBlockParts(lang, code, post);
    WordRunOfTag(t, lang);
    ClosingFenceFound(lang, code, post);
    FenceMatchOf(t, nl, nl + 1 + |code|, if lang == "" then None else Some(lang), code);
  }

  /**
   * Every match is a fenced block followed by the rest of the text: its tag is a
   * non-empty word when present, and its code holds no "\n```" before the closing one.
   */
  lemma FenceMatchShape(t: string)
    requires FenceMatchAt(t).Some?
    ensures var m := FenceMatchAt(t).value;
      var tag := if m.lang.Some? then m.lang.value else "";
      && (m.lang.Some? ==> m.lang.value != "")
      && (forall k :: 0 <= k < |tag| ==> IsWordChar(tag[k]))
      && Find(m.code + ClosingFence, ClosingFence, 0) == |m.code|
      && t == FencedBlock(tag, m.code) + t[m.end..]
  {
    FenceMatchSome(t);
    var nl := 3 + WordRun(t, 3);
    var close := Find(t, ClosingFence, nl + 1);
    FenceMatchOf(t, nl, close, if nl == 3 then None else Some(t[3..nl]), t[nl + 1..close]);
    WordRunMaximal(t, 3);
    FenceShapeOf(t, nl, close, FenceMatchAt(t).value);
  }

  /** A match needs a newline right after the tag and a closing fence after that. */
  lemma FenceMatchSome(t: string)
    requires FenceMatchAt(t).Some?
    ensures var nl := 3 + WordRun(t, 3);
      && Fence <= t && nl < |t| && t[nl] == '\n' && Find(t, ClosingFence, nl + 1) != -1
  {
    FenceUnmatched(t);
  }

  /** Without a newline right after the tag, or without a closing fence after it, nothing matches. */
  lemma FenceUnmatched(t: string)
    ensures Fence <= t ==> var nl := 3 + WordRun(t, 3);
      (nl >= |t| || t[nl] != '\n' || Find(t, ClosingFence, nl + 1) == -1) ==> FenceMatchAt(t).None?
  {
  }

  /** The shape of a match whose tag line ends at `nl` and whose closing fence starts at `close`. */
  lemma FenceShapeOf(t: string, nl: nat, close: nat, m: FenceMatch)
    requires Fence <= t && 3 <= nl && nl + 1 <= close && close + 4 <= |t| && t[nl] == '\n'
    requires t[close..close + 4] == ClosingFence
    requires Find(t, ClosingFence, nl + 1) == close
    requires forall k :: 3 <= k < nl ==> IsWordChar(t[k])
    requires m == FenceMatch(if nl == 3 then None else Some(t[3..nl]), t[nl + 1..close], close + 4)
    ensures var tag := if m.lang.Some? then m.lang.value else "";
      && (m.lang.Some? ==> m.lang.value != "")
      && (forall k :: 0 <= k < |tag| ==> IsWordChar(tag[k]))
      && Find(m.code + ClosingFence, ClosingFence, 0) == |m.code|
      && t == FencedBlock(tag, m.code) + t[m.end..]
  {
    var tag := t[3..nl];
    assert forall k :: 0 <= k < |tag| ==> tag[k] == t[3 + k];
    FindWithin(t, ClosingFence, nl + 1, close);
    assert t[nl + 1..close + 4] == m.code + ClosingFence;
    BlockSplit(t, nl, close);
  }

  /** Text made of the fence, a tag line, code and the closing fence, and a rest, is a fenced block and the rest. */
  lemma BlockSplit(t: string, nl: nat, close: nat)
    requires Fence <= t && 3 <= nl < close && close + 4 <= |t|
    requires t[nl] == '\n' && t[close..close + 4] == ClosingFence
    ensures t == FencedBlock(t[3..nl], t[nl + 1..close]) + t[close + 4..]
  {
    assert t[..3] == Fence;
    assert t == t[..3] + t[3..nl] + [t[nl]] + t[nl + 1..close] + t[close..close + 4] + t[close + 4..];
  }

  /** The match at the start of `t` read off from where its newline and its closing fence are. */
  lemma FenceMatchOf(t: string, nl: nat, close: nat, lang: Option<string>, code: string)
    requires Fence <= t && nl == 3 + WordRun(t, 3) && nl < |t| && t[nl] == '\n'
    requires Find(t, ClosingFence, nl + 1) == close
    requires lang == if nl == 3 then None else Some(t[3..nl])
    requires nl + 1 <= close && code == t[nl + 1..close]
    ensures FenceMatchAt(t) == Some(FenceMatch(lang, code, close + 4))
  {
  }

  /** The first "\n```" after the tag line of a fenced block is the one that closes it. */
  lemma ClosingFenceFound(lang: string, code: string, post: string)
    requires Find(code + ClosingFence, ClosingFence, 0) == |code|
    ensures Find(FencedBlock(lang, code) + post, ClosingFence, 4 + |lang|) == 4 + |lang| + |code|
  {
    var head := Fence + lang + "\n";
    FindExtends(code + ClosingFence, post, ClosingFence, 0);
    FindPastPrefix(head, code + ClosingFence + post, ClosingFence, 0);
    BlockRegroup(lang, code, post);
  }

  lemma BlockRegroup(lang: string, code: string, post: string)
    ensures (Fence + lang + "\n") + (code + ClosingFence + post) == FencedBlock(lang, code) + post
  {
  }

  /** Where no fence can start, the fence pass keeps the first character and moves on. */
  lemma KeptCharacter(t: string)
    requires |t| > 0 && t[0] != '`'
    ensures ReplaceFences(t) == [t[0]] + ReplaceFences(t[1..])
  {
    assert FenceMatchAt(t).None?;
  }

  /** Text without backquotes is kept, and the fence pass goes on with what follows it. */
  lemma {:induction false} PlainPrefix(pre: string, rest: string)
    requires '`' !in pre
    ensures ReplaceFences(pre + rest) == pre + ReplaceFences(rest)
    decreases |pre|
  {
    if |pre| > 0 {
      var t := pre + rest;
      assert t[0] == pre[0] != '`';
      assert t[1..] == pre[1..] + rest;
      KeptCharacter(t);
      PlainPrefix(pre[1..], rest);
      var out := ReplaceFences(rest);
      assert ReplaceFences(t) == [pre[0]] + (pre[1..] + out);
      assert [pre[0]] + (pre[1..] + out) == ([pre[0]] + pre[1..]) + out;
      assert [pre[0]] + pre[1..] == pre;
    } else {
      assert pre + rest == rest;
    }
  }

  /**
   * One fenced block after text without backquotes: the text before it is kept, the block
   * becomes its placeholder, and the fence pass continues on what follows. The tag must be
   * a word and the code must not contain "\n```" itself.
   */
  lemma FenceReplaced(pre: string, lang: string, code: string, post: string)
    requires '`' !in pre
    requires forall k :: 0 <= k < |lang| ==> IsWordChar(lang[k])
    requires Find(code + ClosingFence, ClosingFence, 0) == |code|
    ensures ReplaceFences(pre + FencedBlock(lang, code) + post) ==
      pre + Placeholder(if lang == "" then None else Some(lang)) + ReplaceFences(post)
  {
    var block := FencedBlock(lang, code);
    FenceMatched(lang, code, post);
    assert (block + post)[|block|..] == post;
    PlainPrefix(pre, block + post);
    assert pre + block + post == pre + (block + post);
  }

  // ---------------------------------------------------------------------------
  // The line pass: runs of indented lines become one placeholder line

  const IndentedPlaceholder := "[CODE_BLOCK: Indented code example]"

  lemma IndentedPlaceholderPlain()
    ensures '\n' !in IndentedPlaceholder && !IsIndented(IndentedPlaceholder)
  {
    assert IndentedPlaceholder[0] == '[';
  }

  /** A line that starts with four spaces or a tab. */
  predicate IsIndented(line: string) {
    "    " <= line || "\t" <= line
  }

  /**
   * The lines the pass produces, defined from the last line back: an indented line is
   * dropped when the line before it is indented too, and otherwise starts a placeholder;
   * every other line is kept.
   */
  function Collapse(lines: seq<string>): seq<string> {
    if |lines| == 0 then []
    else
      var init := lines[..|lines| - 1];
      var last := lines[|lines| - 1];
      if !IsIndented(last) then Collapse(init) + [last]
      else if |init| > 0 && IsIndented(init[|init| - 1]) then Collapse(init)
      else Collapse(init) + [IndentedPlaceholder]
  }

  /** What `clean_code_blocks` returns: the fence-replaced text, its lines collapsed and joined again. */
  function Cleaned(text: string): string {
    Join(Collapse(Split(ReplaceFences(text), '\n')), '\n')
  }

  /**
   * The loop of `clean_code_blocks` over the lines of the fence-replaced text, with its
   * `in_code_block` flag; the result is those lines collapsed and joined again.
   */
  method CleanCodeBlocks(text: string) returns (r: string)
    ensures r == Cleaned(text)
  {
    var lines := Split(ReplaceFences(text), '\n');
    var inCodeBlock := false;
    var processed: seq<string> := [];
    for i := 0 to |lines|
      invariant processed == Collapse(lines[..i])
      invariant inCodeBlock == (i > 0 && IsIndented(lines[i - 1]))
    {
      assert lines[..i + 1][..i] == lines[..i];
      if IsIndented(lines[i]) {
        if !inCodeBlock {
          inCodeBlock := true;
          processed := processed + [IndentedPlaceholder];
        }
      } else {
        inCodeBlock := false;
        processed := processed + [lines[i]];
      }
    }
    assert lines[..|lines|] == lines;
    r := Join(processed, '\n');
  }

  /** No line of the output is indented, and every output line is an input line or the placeholder. */
  lemma {:induction false} CollapseLines(lines: seq<string>)
    ensures forall k :: 0 <= k < |Collapse(lines)| ==> !IsIndented(Collapse(lines)[k])
    ensures forall k :: 0 <= k < |Collapse(lines)| ==>
      Collapse(lines)[k] == IndentedPlaceholder || Collapse(lines)[k] in lines
    ensures |Collapse(lines)| <= |lines|
    ensures |lines| > 0 ==> |Collapse(lines)| > 0
  {
    IndentedPlaceholderPlain();
    if |lines| > 0 {
      var init := lines[..|lines| - 1];
      CollapseLines(init);
      assert forall x :: x in init ==> x in lines;
    }
  }

  /** Lines without indentation come through unchanged. */
  lemma {:induction false} CollapseUnindented(lines: seq<string>)
    requires forall k :: 0 <= k < |lines| ==> !IsIndented(lines[k])
    ensures Collapse(lines) == lines
  {
    if |lines| > 0 {
      CollapseUnindented(lines[..|lines| - 1]);
    }
  }

  /** The line pass is idempotent. */
  lemma CollapseIdempotent(lines: seq<string>)
    ensures Collapse(Collapse(lines)) == Collapse(lines)
  {
    CollapseLines(lines);
    CollapseUnindented(Collapse(lines));
  }

  /**
   * A maximal run of indented lines becomes exactly one placeholder after what came
   * before it.
   */
  lemma {:induction false} CollapseRun(pre: seq<string>, run: seq<string>)
    requires |run| > 0 && forall k :: 0 <= k < |run| ==> IsIndented(run[k])
    requires |pre| == 0 || !IsIndented(pre[|pre| - 1])
    ensures Collapse(pre + run) == Collapse(pre) + [IndentedPlaceholder]
    decreases |run|
  {
    var s := pre + run;
    assert s[..|s| - 1] == pre + run[..|run| - 1];
    if |run| > 1 {
      CollapseRun(pre, run[..|run| - 1]);
    }
  }

  /** The lines kept by the pass: neither indented nor the placeholder text itself. */
  function Plain(lines: seq<string>): seq<string> {
    if |lines| == 0 then []
    else
      var last := lines[|lines| - 1];
      Plain(lines[..|lines| - 1]) + if IsIndented(last) || last == IndentedPlaceholder then [] else [last]
  }

  /** Leaving out placeholders, the output is the input without its indented lines, in order. */
  lemma {:induction false} CollapseKeepsPlain(lines: seq<string>)
    ensures Plain(Collapse(lines)) == Plain(lines)
  {
    if |lines| > 0 {
      var init := lines[..|lines| - 1];
      var last := lines[|lines| - 1];
      CollapseKeepsPlain(init);
      var c := Collapse(init);
      if !IsIndented(last) {
        assert (c + [last])[..|c|] == c;
      } else if !(|init| > 0 && IsIndented(init[|init| - 1])) {
        assert (c + [IndentedPlaceholder])[..|c|] == c;
      }
    }
  }

  /**
   * The text `clean_code_blocks` returns, split at newlines, is the collapsed list of
   * lines, and none of its lines is indented.
   */
  lemma CleanedLines(text: string)
    ensures var lines := Collapse(Split(ReplaceFences(text), '\n'));
      && Split(Join(lines, '\n'), '\n') == lines
      && forall k :: 0 <= k < |lines| ==> !IsIndented(lines[k])
  {
    var parts := Split(ReplaceFences(text), '\n');
    var lines := Collapse(parts);
    CollapseLines(parts);
    IndentedPlaceholderPlain();
    forall k | 0 <= k < |lines| ensures '\n' !in lines[k] {
      if lines[k] != IndentedPlaceholder {
        var j :| 0 <= j < |parts| && parts[j] == lines[k];
      }
    }
    SplitJoin(lines, '\n');
  }
}
