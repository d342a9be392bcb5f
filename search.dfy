/**
 * The query side of `RagSystem` (ragdocs_api/rag_system.py): the Milvus filter
 * expression built from the optional technology and category lists, the grouping of
 * search hits by technology, the score normalisation, and the category names.
 */
module Search {
  import opened Wrappers
  import opened Categories
  import opened Markdown
  import opened Indexing
  import Tracking

  // ---------------------------------------------------------------------------
  // Python `repr` of a list of strings, as an f-string prints it

  /** The quote `repr` picks: a double quote only when the text holds a single quote and no double quote. */
  function QuoteOf(s: string): char {
    if '\'' in s && '"' !in s then '"' else '\''
  }

  /** One character inside a quoted `repr`: backslash, the quote and the line controls are escaped. */
  function EscapeChar(c: char, q: char): string {
    if c == '\\' then "\\\\"
    else if c == q then ['\\', q]
    else if c == '\n' then "\\n"
    else if c == '\r' then "\\r"
    else if c == '\t' then "\\t"
    else [c]
  }

  function Escaped(s: string, q: char): string {
    if |s| == 0 then [] else EscapeChar(s[0], q) + Escaped(s[1..], q)
  }

  /** `repr(s)` for a string. */
  function StrRepr(s: string): string {
    var q := QuoteOf(s);
    [q] + Escaped(s, q) + [q]
  }

  /** The items of a list's `repr`, separated by ", ". */
  function ListItems(xs: seq<string>): string {
    if |xs| == 0 then ""
    else if |xs| == 1 then StrRepr(xs[0])
    else StrRepr(xs[0]) + ", " + ListItems(xs[1..])
  }

  /** `repr(xs)` for a list of strings. */
  function ListRepr(xs: seq<string>): string {
    "[" + ListItems(xs) + "]"
  }

  // ---------------------------------------------------------------------------
  // _build_filter_expression

  /** A list argument is present when it is given and not empty (Python's truth test). */
  predicate Given(xs: Option<seq<string>>) {
    xs.Some? && |xs.value| > 0
  }

  function TechnologyClause(ts: seq<string>): string {
    "technology in " + ListRepr(ts)
  }

  function CategoryClause(cs: seq<string>): string {
    "category in " + ListRepr(cs)
  }

  /** The filter: the clauses of the present lists, joined by " && ", or none when both are absent. */
  function BuildFilterExpression(technologies: Option<seq<string>>, categories: Option<seq<string>>): (r: Option<string>)
    ensures r.None? <==> !Given(technologies) && !Given(categories)
  {
    var parts := (if Given(technologies) then [TechnologyClause(technologies.value)] else []) +
                 (if Given(categories) then [CategoryClause(categories.value)] else []);
    if |parts| == 0 then None
    else if |parts| == 1 then Some(parts[0])
    else Some(parts[0] + " && " + parts[1])
  }

  // ---------------------------------------------------------------------------
  // Reading an expression back

  function UnescapeChar(c: char): char {
    if c == 'n' then '\n' else if c == 'r' then '\r' else if c == 't' then '\t' else c
  }

  /** The text of a quoted string up to its closing quote `q`, and what follows that quote. */
  function ReadQuoted(t: string, q: char): (r: Option<(string, string)>)
    ensures r.Some? ==> |r.value.1| < |t|
  {
    if |t| == 0 then None
    else if t[0] == q then Some(([], t[1..]))
    else if t[0] == '\\' then
      if |t| < 2 then None
      else match ReadQuoted(t[2..], q)
        case None => None
        case Some((s, rest)) => Some(([UnescapeChar(t[1])] + s, rest))
    else match ReadQuoted(t[1..], q)
      case None => None
      case Some((s, rest)) => Some(([t[0]] + s, rest))
  }

  /** A string literal in either quote. */
  function ReadString(t: string): (r: Option<(string, string)>)
    ensures r.Some? ==> |r.value.1| < |t|
  {
    if |t| > 0 && (t[0] == '\'' || t[0] == '"') then ReadQuoted(t[1..], t[0]) else None
  }

  /** One or more string literals separated by ", ", up to and including the closing bracket. */
  function ReadItems(t: string): (r: Option<(seq<string>, string)>)
    ensures r.Some? ==> |r.value.1| < |t|
    decreases |t|
  {
    match ReadString(t)
      case None => None
      case Some((s, rest)) =>
        if |rest| > 0 && rest[0] == ']' then Some(([s], rest[1..]))
        else if |rest| >= 2 && rest[..2] == ", " then
          match ReadItems(rest[2..])
            case None => None
            case Some((xs, after)) => Some(([s] + xs, after))
        else None
  }

  /** A bracketed list of string literals. */
  function ReadList(t: string): Option<(seq<string>, string)> {
    if |t| >= 2 && t[..2] == "[]" then Some(([], t[2..]))
    else if |t| > 0 && t[0] == '[' then ReadItems(t[1..])
    else None
  }

  predicate StartsWith(x: string, prefix: string) {
    |x| >= |prefix| && x[..|prefix|] == prefix
  }

  /** The lists a filter selects on, `[]` standing for no restriction. */
  function ParseFilter(e: Option<string>): Option<(seq<string>, seq<string>)> {
    match e
      case None => Some(([], []))
      case Some(x) =>
        if StartsWith(x, "technology in ") then ParseTechnologies(x[|"technology in "|..])
        else if StartsWith(x, "category in ") then ParseCategories(x[|"category in "|..], [])
        else None
  }

  /** A technology list, then nothing or the category clause. */
  function ParseTechnologies(t: string): Option<(seq<string>, seq<string>)> {
    match ReadList(t)
      case None => None
      case Some((ts, rest)) =>
        if rest == "" then Some((ts, []))
        else if StartsWith(rest, " && category in ") then ParseCategories(rest[|" && category in "|..], ts)
        else None
  }

  /** A category list ending the expression. */
  function ParseCategories(t: string, ts: seq<string>): Option<(seq<string>, seq<string>)> {
    match ReadList(t)
      case None => None
      case Some((cs, rest)) => if rest == "" then Some((ts, cs)) else None
  }

  function ListOrEmpty(xs: Option<seq<string>>): seq<string> {
    if xs.Some? then xs.value else []
  }

  /** One escaped character reads back as itself, in front of whatever the rest reads as. */
  lemma EscapeCharRead(c: char, q: char, tail: string)
    requires q == '\'' || q == '"'
    requires ReadQuoted(tail, q).Some?
    ensures ReadQuoted(EscapeChar(c, q) + tail, q) ==
      Some(([c] + ReadQuoted(tail, q).value.0, ReadQuoted(tail, q).value.1))
  {
    var t := EscapeChar(c, q) + tail;
    if c == '\\' || c == q || c == '\n' || c == '\r' || c == '\t' {
      assert t[0] == '\\' && t[2..] == tail;
      assert UnescapeChar(t[1]) == c;
    } else {
      assert t[0] == c && t[1..] == tail;
    }
  }

  /** Escaping never lets an unescaped closing quote through: the quoted text reads back exactly. */
  lemma {:induction false} ReadEscaped(s: string, q: char, rest: string)
    requires q == '\'' || q == '"'
    ensures ReadQuoted(Escaped(s, q) + [q] + rest, q) == Some((s, rest))
  {
    if |s| == 0 {
      assert Escaped(s, q) + [q] + rest == [q] + rest;
    } else {
      var tail := Escaped(s[1..], q) + [q] + rest;
      ReadEscaped(s[1..], q, rest);
      Regroup(EscapeChar(s[0], q), Escaped(s[1..], q), [q], rest);
      EscapeCharRead(s[0], q, tail);
      assert [s[0]] + s[1..] == s;
    }
  }

  /** `repr` of a string reads back as that string, whatever follows it. */
  lemma StrReprRead(s: string, rest: string)
    ensures ReadString(StrRepr(s) + rest) == Some((s, rest))
  {
    var q := QuoteOf(s);
    ReadEscaped(s, q, rest);
    assert (StrRepr(s) + rest)[1..] == Escaped(s, q) + [q] + rest;
  }

  /** A string literal followed by the closing bracket reads as a one-item list. */
  lemma ReadLastItem(s: string, rest: string)
    ensures ReadItems(StrRepr(s) + ("]" + rest)) == Some(([s], rest))
  {
    StrReprRead(s, "]" + rest);
    assert ("]" + rest)[1..] == rest;
  }

  /** A string literal followed by ", " and more items reads as one more item in front. */
  lemma ReadNextItem(s: string, after: string)
    requires ReadItems(after).Some?
    ensures ReadItems(StrRepr(s) + (", " + after)) == Some(([s] + ReadItems(after).value.0, ReadItems(after).value.1))
  {
    StrReprRead(s, ", " + after);
    assert (", " + after)[..2] == ", " && (", " + after)[2..] == after;
  }

  /** The items of a non-empty list's `repr`, with its closing bracket, read back as the list. */
  lemma {:induction false} ListItemsRead(xs: seq<string>, rest: string)
    requires |xs| > 0
    ensures ReadItems(ListItems(xs) + "]" + rest) == Some((xs, rest))
  {
    if |xs| == 1 {
      ReadLastItem(xs[0], rest);
      OneItem(xs, rest);
    } else {
      var after := ListItems(xs[1..]) + "]" + rest;
      ListItemsRead(xs[1..], rest);
      ReadNextItem(xs[0], after);
      ItemsSplit(xs, rest);
      ConsSplit(xs);
    }
  }

  lemma OneItem(xs: seq<string>, rest: string)
    requires |xs| == 1
    ensures xs == [xs[0]] && ListItems(xs) + "]" + rest == StrRepr(xs[0]) + ("]" + rest)
  {
  }

  lemma ItemsSplit(xs: seq<string>, rest: string)
    requires |xs| >= 2
    ensures ListItems(xs) + "]" + rest == StrRepr(xs[0]) + (", " + (ListItems(xs[1..]) + "]" + rest))
  {
    Assoc5(StrRepr(xs[0]), ", ", ListItems(xs[1..]), "]", rest);
  }

  lemma Assoc5<T>(a: seq<T>, b: seq<T>, c: seq<T>, d: seq<T>, e: seq<T>)
    ensures a + b + c + d + e == a + (b + (c + d + e))
    ensures (a + b) + c + (d + e) == a + (b + ((c + d) + e))
  {
  }

  lemma ConsSplit<T>(xs: seq<T>)
    requires |xs| > 0
    ensures xs == [xs[0]] + xs[1..]
  {
  }

  /** The items of a non-empty list's `repr` open with a quote. */
  lemma ListItemsStart(xs: seq<string>)
    requires |xs| > 0
    ensures |ListItems(xs)| > 0 && ListItems(xs)[0] == QuoteOf(xs[0])
  {
  }

  /** A list's `repr` reads back as the list, whatever follows it. */
  lemma ListReprRead(xs: seq<string>, rest: string)
    ensures ReadList(ListRepr(xs) + rest) == Some((xs, rest))
  {
    var t := ListRepr(xs) + rest;
    if |xs| == 0 {
      assert t == "[]" + rest;
      assert t[..2] == "[]" && t[2..] == rest;
    } else {
      ListItemsStart(xs);
      ListItemsRead(xs, rest);
      Regroup("[", ListItems(xs), "]", rest);
      assert t[1..] == ListItems(xs) + "]" + rest;
      assert t[1] == QuoteOf(xs[0]);
    }
  }

  /** A clause `<prefix>` + list, with nothing after it, reads back as the list. */
  lemma ClauseRead(prefix: string, xs: seq<string>)
    ensures var x := prefix + ListRepr(xs);
      StartsWith(x, prefix) && ReadList(x[|prefix|..]) == Some((xs, ""))
  {
    ListReprRead(xs, "");
    assert (prefix + ListRepr(xs))[|prefix|..] == ListRepr(xs) + "";
  }

  lemma FilterBoth(ts: seq<string>, cs: seq<string>)
    requires |ts| > 0 && |cs| > 0
    ensures ParseFilter(BuildFilterExpression(Some(ts), Some(cs))) == Some((ts, cs))
  {
    var body := ListRepr(ts) + (" && category in " + ListRepr(cs));
    assert BuildFilterExpression(Some(ts), Some(cs)) == Some(TechnologyClause(ts) + " && " + CategoryClause(cs));
    BothSplit(ts, cs);
    PrefixParts("technology in ", body);
    TechnologiesThenCategories(ts, cs);
  }

  lemma BothSplit(ts: seq<string>, cs: seq<string>)
    ensures TechnologyClause(ts) + " && " + CategoryClause(cs) ==
      "technology in " + (ListRepr(ts) + (" && category in " + ListRepr(cs)))
  {
    assert " && " + "category in " == " && category in ";
    Assoc5("technology in ", ListRepr(ts), " && ", "category in ", ListRepr(cs));
  }

  lemma PrefixParts(a: string, b: string)
    ensures StartsWith(a + b, a) && (a + b)[|a|..] == b
  {
  }

  lemma TechnologiesThenCategories(ts: seq<string>, cs: seq<string>)
    ensures ParseTechnologies(ListRepr(ts) + (" && category in " + ListRepr(cs))) == Some((ts, cs))
  {
    var tail := " && category in " + ListRepr(cs);
    ListReprRead(ts, tail);
    ClauseRead(" && category in ", cs);
  }

  lemma FilterTechnologies(ts: seq<string>, categories: Option<seq<string>>)
    requires |ts| > 0 && !Given(categories)
    ensures ParseFilter(BuildFilterExpression(Some(ts), categories)) == Some((ts, []))
  {
    ClauseRead("technology in ", ts);
    assert BuildFilterExpression(Some(ts), categories) == Some(TechnologyClause(ts));
  }

  lemma FilterCategories(technologies: Option<seq<string>>, cs: seq<string>)
    requires !Given(technologies) && |cs| > 0
    ensures ParseFilter(BuildFilterExpression(technologies, Some(cs))) == Some(([], cs))
  {
    var x := CategoryClause(cs);
    assert BuildFilterExpression(technologies, Some(cs)) == Some(x);
    ClauseRead("category in ", cs);
    assert !StartsWith(x, "technology in ") by {
      assert x[0] == 'c';
    }
  }

  /**
   * The filter expression reads back as the lists it was built from: an absent or empty
   * list reads back as no restriction, a present one item for item.
   */
  lemma FilterRoundTrip(technologies: Option<seq<string>>, categories: Option<seq<string>>)
    ensures ParseFilter(BuildFilterExpression(technologies, categories)) ==
      Some((ListOrEmpty(technologies), ListOrEmpty(categories)))
  {
    if Given(technologies) && Given(categories) {
      FilterBoth(technologies.value, categories.value);
    } else if Given(technologies) {
      FilterTechnologies(technologies.value, categories);
    } else if Given(categories) {
      FilterCategories(technologies, categories.value);
    }
  }

  // ---------------------------------------------------------------------------
  // The grouping loop of search

  /** One hit returned by the vector search: its L2 distance and the stored fields. */
  datatype Hit = Hit(distance: real, content: string, technology: string, filePath: string,
                     sectionTitle: string, sectionLevel: int, category: string)

  datatype SearchResult = SearchResult(content: string, technology: string, filePath: string,
                                       sectionTitle: string, sectionLevel: int, category: string, score: real)

  /** The distance of two unit vectors, at most 2, mapped to a relevance in [0, 1]. */
  function NormalizedScore(distance: real): real {
    1.0 - distance * distance / 4.0
  }

  /** The score lies in [0, 1] for a distance in [0, 2], is 1 at distance 0 and 0 at distance 2, and falls as the distance grows. */
  lemma NormalizedScoreRange(d: real, e: real)
    requires 0.0 <= d <= e <= 2.0
    ensures 0.0 <= NormalizedScore(e) <= NormalizedScore(d) <= 1.0
    ensures NormalizedScore(0.0) == 1.0 && NormalizedScore(2.0) == 0.0
    ensures d < e ==> NormalizedScore(e) < NormalizedScore(d)
  {
    MulLe(d, 0.0, d);
    assert 0.0 <= d * d;
    MulLe(d, d, e);
    assert d * d <= d * e;
    MulLe(e, d, e);
    assert e * d <= e * e;
    assert d * e == e * d;
    MulLe(e, e, 2.0);
    assert e * e <= e * 2.0;
    assert e * 2.0 <= 4.0;
    if d < e {
      MulLt(e, d, e);
      assert e * d < e * e;
      LessChain(d * d, e * d, e * e);
      assert d * d / 4.0 < e * e / 4.0;
    }
  }

  lemma MulLe(a: real, b: real, c: real)
    requires 0.0 <= a && b <= c
    ensures a * b <= a * c
  {
    assert a * c - a * b == a * (c - b);
  }

  lemma MulLt(a: real, b: real, c: real)
    requires 0.0 < a && b < c
    ensures a * b < a * c
  {
    assert a * c - a * b == a * (c - b);
  }

  lemma LessChain(a: real, b: real, c: real)
    requires a <= b < c
    ensures a < c
  {
  }

  function ResultOf(h: Hit): SearchResult {
    SearchResult(h.content, h.technology, h.filePath, h.sectionTitle, h.sectionLevel, h.category,
                 NormalizedScore(h.distance))
  }

  /** The results of all hit lists, list after list. */
  function Flatten(hits: seq<seq<Hit>>): seq<SearchResult> {
    if |hits| == 0 then [] else Flatten(hits[..|hits| - 1]) + ResultsOf(hits[|hits| - 1])
  }

  function ResultsOf(hs: seq<Hit>): seq<SearchResult> {
    if |hs| == 0 then [] else ResultsOf(hs[..|hs| - 1]) + [ResultOf(hs[|hs| - 1])]
  }

  /** The technologies of `rs` in order of first appearance: the keys of the grouping dict. */
  function KeysOf(rs: seq<SearchResult>): seq<string> {
    if |rs| == 0 then []
    else
      var keys := KeysOf(rs[..|rs| - 1]);
      if rs[|rs| - 1].technology in keys then keys else keys + [rs[|rs| - 1].technology]
  }

  /** The results of `rs` under technology `t`, in order. */
  function GroupOf(rs: seq<SearchResult>, t: string): seq<SearchResult> {
    if |rs| == 0 then []
    else GroupOf(rs[..|rs| - 1], t) + if rs[|rs| - 1].technology == t then [rs[|rs| - 1]] else []
  }

  /** `keys` and `organized` are the grouping dict of the results `seen`. */
  ghost predicate Organizes(keys: seq<string>, organized: map<string, seq<SearchResult>>, seen: seq<SearchResult>) {
    && keys == KeysOf(seen)
    && (forall t :: t in organized <==> t in keys)
    && (forall t :: t in organized ==> organized[t] == GroupOf(seen, t))
  }

  /** The dict after appending one result under its technology. */
  function Insert(g: (seq<string>, map<string, seq<SearchResult>>), r: SearchResult): (seq<string>, map<string, seq<SearchResult>>) {
    var t := r.technology;
    if t in g.1 then (g.0, g.1[t := g.1[t] + [r]]) else (g.0 + [t], g.1[t := [r]])
  }

  /** The dict after appending the results `rs` one by one to an empty one. */
  function Grouping(rs: seq<SearchResult>): (seq<string>, map<string, seq<SearchResult>>) {
    if |rs| == 0 then ([], map[]) else Insert(Grouping(rs[..|rs| - 1]), rs[|rs| - 1])
  }

  /**
   * The loop filling `organized_results`: every hit, list after list, becomes a result
   * appended to the list of its technology. The dict is its key order and its map: the
   * keys are the technologies in order of first appearance, and each maps to its results
   * in order.
   */
  method GroupHits(results: seq<seq<Hit>>) returns (keys: seq<string>, organized: map<string, seq<SearchResult>>)
    ensures (keys, organized) == Grouping(Flatten(results))
    ensures keys == KeysOf(Flatten(results))
    ensures forall t :: t in organized <==> t in keys
    ensures forall t :: t in organized ==> organized[t] == GroupOf(Flatten(results), t)
  {
    keys := [];
    organized := map[];
    for i := 0 to |results|
      invariant (keys, organized) == Grouping(Flatten(results[..i]))
    {
      keys, organized := AddHits(keys, organized, Flatten(results[..i]), results[i]);
      FlattenStep(results, i);
    }
    assert results[..|results|] == results;
    GroupingMeaning(Flatten(results));
  }

  /** The inner loop of the grouping: the hits of one list, in order, each under its technology. */
  method AddHits(keys0: seq<string>, organized0: map<string, seq<SearchResult>>, ghost seen: seq<SearchResult>, hits: seq<Hit>)
    returns (keys: seq<string>, organized: map<string, seq<SearchResult>>)
    requires (keys0, organized0) == Grouping(seen)
    ensures (keys, organized) == Grouping(seen + ResultsOf(hits))
  {
    keys, organized := keys0, organized0;
    assert seen + ResultsOf(hits[..0]) == seen;
    for j := 0 to |hits|
      invariant (keys, organized) == Grouping(seen + ResultsOf(hits[..j]))
    {
      var result := ResultOf(hits[j]);
      if result.technology in organized {
        organized := organized[result.technology := organized[result.technology] + [result]];
      } else {
        keys := keys + [result.technology];
        organized := organized[result.technology := [result]];
      }
      ResultsStep(hits, j);
      GroupingStep(seen + ResultsOf(hits[..j]), result);
      assert seen + ResultsOf(hits[..j]) + [result] == seen + ResultsOf(hits[..j + 1]);
    }
    assert hits[..|hits|] == hits;
  }

  lemma GroupingStep(rs: seq<SearchResult>, r: SearchResult)
    ensures Grouping(rs + [r]) == Insert(Grouping(rs), r)
  {
    assert (rs + [r])[..|rs|] == rs;
  }

  lemma LastSplit<T>(rs: seq<T>)
    requires |rs| > 0
    ensures rs == rs[..|rs| - 1] + [rs[|rs| - 1]]
  {
  }

  /** The dict built by the loop is the grouping of the results by technology. */
  lemma {:induction false} GroupingMeaning(rs: seq<SearchResult>)
    ensures Organizes(Grouping(rs).0, Grouping(rs).1, rs)
  {
    if |rs| > 0 {
      var init := rs[..|rs| - 1];
      GroupingMeaning(init);
      OrganizeStep(Grouping(init).0, Grouping(init).1, init, rs[|rs| - 1]);
      LastSplit(rs);
    }
  }

  lemma FlattenStep(results: seq<seq<Hit>>, i: nat)
    requires i < |results|
    ensures Flatten(results[..i + 1]) == Flatten(results[..i]) + ResultsOf(results[i])
  {
    assert results[..i + 1][..i] == results[..i];
  }

  lemma ResultsStep(hits: seq<Hit>, j: nat)
    requires j < |hits|
    ensures ResultsOf(hits[..j + 1]) == ResultsOf(hits[..j]) + [ResultOf(hits[j])]
  {
    assert hits[..j + 1][..j] == hits[..j];
  }

  /** Appending one result to the dict keeps it the grouping of the results seen. */
  lemma OrganizeStep(keys: seq<string>, organized: map<string, seq<SearchResult>>, seen: seq<SearchResult>, r: SearchResult)
    requires Organizes(keys, organized, seen)
    ensures var t := r.technology;
      Organizes(if t in organized then keys else keys + [t],
                organized[t := if t in organized then organized[t] + [r] else [r]], seen + [r])
  {
    assert (seen + [r])[..|seen|] == seen;
    GroupStep(seen, r);
    if r.technology !in organized {
      GroupAbsent(seen, r.technology);
    }
  }

  /** Appending one result extends only its own technology's group. */
  lemma GroupStep(rs: seq<SearchResult>, r: SearchResult)
    ensures forall t :: GroupOf(rs + [r], t) == GroupOf(rs, t) + if r.technology == t then [r] else []
  {
    assert (rs + [r])[..|rs|] == rs;
  }

  /** A technology that is not a key has no results. */
  lemma {:induction false} GroupAbsent(rs: seq<SearchResult>, t: string)
    requires t !in KeysOf(rs)
    ensures GroupOf(rs, t) == []
  {
    if |rs| > 0 {
      GroupAbsent(rs[..|rs| - 1], t);
    }
  }

  /** The keys are distinct. */
  lemma {:induction false} KeysDistinct(rs: seq<SearchResult>)
    ensures Tracking.Distinct(KeysOf(rs))
  {
    if |rs| > 0 {
      KeysDistinct(rs[..|rs| - 1]);
    }
  }

  /** The keys are exactly the technologies that occur. */
  lemma {:induction false} KeysAreTechnologies(rs: seq<SearchResult>, t: string)
    ensures t in KeysOf(rs) <==> exists k :: 0 <= k < |rs| && rs[k].technology == t
  {
    if |rs| > 0 {
      var init := rs[..|rs| - 1];
      KeysAreTechnologies(init, t);
      if t in KeysOf(init) {
        var k :| 0 <= k < |init| && init[k].technology == t;
        assert rs[k] == init[k];
      }
      if exists k :: 0 <= k < |rs| && rs[k].technology == t {
        var k :| 0 <= k < |rs| && rs[k].technology == t;
        if k < |rs| - 1 {
          assert init[k].technology == t;
        }
      }
    }
  }

  /** A group holds only results of its technology, each taken from the results. */
  lemma {:induction false} GroupSound(rs: seq<SearchResult>, t: string, r: SearchResult)
    requires r in GroupOf(rs, t)
    ensures r in rs && r.technology == t
  {
    var init := rs[..|rs| - 1];
    if r in GroupOf(init, t) {
      GroupSound(init, t, r);
      assert rs == init + [rs[|rs| - 1]];
    }
  }

  /** Every result lies in the group of its technology. */
  lemma {:induction false} GroupComplete(rs: seq<SearchResult>, k: nat)
    requires k < |rs|
    ensures rs[k] in GroupOf(rs, rs[k].technology)
  {
    if k < |rs| - 1 {
      var init := rs[..|rs| - 1];
      GroupComplete(init, k);
      assert init[k] == rs[k];
    }
  }

  /** The results under one technology keep the order in which the search returned them. */
  lemma {:induction false} GroupKeepsOrder(rs: seq<SearchResult>, t: string)
    ensures GroupOf(rs, t) == Filtered(rs, t)
  {
    if |rs| > 0 {
      GroupKeepsOrder(rs[..|rs| - 1], t);
      FilteredAppend(rs[..|rs| - 1], [rs[|rs| - 1]], t);
      assert rs[..|rs| - 1] + [rs[|rs| - 1]] == rs;
    }
  }

  /** An order-preserving filter written from the front, independently of `GroupOf`. */
  function Filtered(rs: seq<SearchResult>, t: string): seq<SearchResult> {
    if |rs| == 0 then [] else (if rs[0].technology == t then [rs[0]] else []) + Filtered(rs[1..], t)
  }

  lemma {:induction false} FilteredAppend(a: seq<SearchResult>, b: seq<SearchResult>, t: string)
    ensures Filtered(a + b, t) == Filtered(a, t) + Filtered(b, t)
  {
    if |a| > 0 {
      FilteredAppend(a[1..], b, t);
      assert (a + b)[1..] == a[1..] + b;
    } else {
      assert a + b == b;
    }
  }

  // ---------------------------------------------------------------------------
  // get_categories

  /** The keys of the category table. */
  function CategoryNames(categories: seq<Category>): set<string> {
    set k | 0 <= k < |categories| :: categories[k].name
  }

  /** `get_categories`: the six category names of the table. */
  lemma GetCategories()
    ensures CategoryNames(CategoryKeywords) ==
      {"deployment", "performance", "features", "scalability", "security", "integration"}
  {
    var names := CategoryNames(CategoryKeywords);
    assert CategoryKeywords[0].name in names && CategoryKeywords[1].name in names && CategoryKeywords[2].name in names;
    assert CategoryKeywords[3].name in names && CategoryKeywords[4].name in names && CategoryKeywords[5].name in names;
  }

  /** Every category a stored chunk can carry is one `get_categories` names, or "general". */
  lemma ChunkCategoryListed(file: SourceFile, filePath: string, technology: string, p: Pipeline, i: nat)
    requires p.categories == CategoryKeywords
    requires i < |ChunksOf(file, filePath, technology, p)|
    ensures ChunksOf(file, filePath, technology, p)[i].category in CategoryNames(CategoryKeywords) + {General}
  {
    var c := ChunksOf(file, filePath, technology, p)[i];
    ChunkFields(file, filePath, technology, p, i);
    if c.category != General {
      var k :| 0 <= k < |CategoryKeywords| && c.category == CategoryKeywords[k].name;
    }
  }
}
