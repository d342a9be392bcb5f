/**
 * `MarkdownProcessor.detect_category`: each category scores the number of its keywords
 * found in the lower-cased section text and title; the category with the highest score
 * wins, the first one on ties, and "general" wins when nothing matched.
 */
module Categories {
  import opened Strings

  /** One entry of the keyword table: the category's name and its set of keywords. */
  datatype Category = Category(name: string, keywords: set<string>)

  const General := "general"

  /** The text the keywords are looked for in: the lower-cased section text, a space, the lower-cased title. */
  function Haystack(text: string, title: string): string {
    Lower(text) + " " + Lower(title)
  }

  /** The keywords of `keywords` that occur in `hay`. */
  function Matches(keywords: set<string>, hay: string): set<string> {
    set k | k in keywords && Contains(hay, k)
  }

  /** A category's score: how many distinct keywords of it occur in `hay`. */
  function Score(c: Category, hay: string): nat {
    |Matches(c.keywords, hay)|
  }

  /**
   * The items of `category_scores` after the first `n` categories: a category appears,
   * with its score, only once a keyword of it has matched, so in table order and only
   * with a positive score.
   */
  function Scored(cats: seq<Category>, hay: string, n: nat): seq<(string, nat)>
    requires n <= |cats|
  {
    if n == 0 then []
    else
      var c := cats[n - 1];
      Scored(cats, hay, n - 1) + if Score(c, hay) > 0 then [(c.name, Score(c, hay))] else []
  }

  /** `max(items, key=score)` over the first `n` items: the first item holding the highest score. */
  function FirstMaxItem(items: seq<(string, nat)>, n: nat): (b: nat)
    requires 1 <= n <= |items|
    ensures b < n
  {
    if n == 1 then 0
    else
      var b := FirstMaxItem(items, n - 1);
      if items[n - 1].1 > items[b].1 then n - 1 else b
  }

  /** The category `detect_category` returns for the haystack `hay`. */
  function CategoryOf(cats: seq<Category>, hay: string): string {
    var items := Scored(cats, hay, |cats|);
    if |items| == 0 then General else items[FirstMaxItem(items, |items|)].0
  }

  /**
   * The two loops of `detect_category`: count each category's matching keywords
   * (the keyword set is visited in an arbitrary order), keep the categories that
   * scored, then take the first highest score.
   */
  method DetectCategory(categories: seq<Category>, text: string, title: string) returns (r: string)
    ensures r == CategoryOf(categories, Haystack(text, title))
  {
    var textLower := Lower(text) + " " + Lower(title);
    var scores: seq<(string, nat)> := [];
    for i := 0 to |categories|
      invariant scores == Scored(categories, textLower, i)
    {
      var keywords := categories[i].keywords;
      var remaining := keywords;
      var count := 0;
      while remaining != {}
        invariant remaining <= keywords
        invariant count == |Matches(keywords - remaining, textLower)|
        decreases |remaining|
      {
        var keyword :| keyword in remaining;
        MatchesGrow(keywords - remaining, keyword, textLower);
        assert keywords - (remaining - {keyword}) == (keywords - remaining) + {keyword};
        if Contains(textLower, keyword) {
          count := count + 1;
        }
        remaining := remaining - {keyword};
      }
      assert keywords - remaining == keywords;
      if count > 0 {
        scores := scores + [(categories[i].name, count)];
      }
    }
    if |scores| == 0 {
      return General;
    }
    var best := 0;
    for j := 1 to |scores|
      invariant best == FirstMaxItem(scores, j)
    {
      if scores[j].1 > scores[best].1 {
        best := j;
      }
    }
    r := scores[best].0;
  }

  /** Adding one keyword not yet looked at adds it to the matches exactly when it occurs. */
  lemma MatchesGrow(done: set<string>, k: string, hay: string)
    requires k !in done
    ensures |Matches(done + {k}, hay)| == |Matches(done, hay)| + if Contains(hay, k) then 1 else 0
  {
    if Contains(hay, k) {
      assert Matches(done + {k}, hay) == Matches(done, hay) + {k};
    } else {
      assert Matches(done + {k}, hay) == Matches(done, hay);
    }
  }

  /**
   * The winner read off the categories themselves: among the first `n`, the first one
   * with the highest positive score, or -1 when none scored.
   */
  function FirstMax(cats: seq<Category>, hay: string, n: nat): (b: int)
    requires n <= |cats|
    ensures -1 <= b < n
  {
    if n == 0 then -1
    else
      var b := FirstMax(cats, hay, n - 1);
      var s := Score(cats[n - 1], hay);
      if s > 0 && (b == -1 || s > Score(cats[b], hay)) then n - 1 else b
  }

  /** The scored items and the winner over the categories agree: the first highest item is the winner's. */
  lemma {:induction false} ScoredFirstMax(cats: seq<Category>, hay: string, n: nat)
    requires n <= |cats|
    ensures var items := Scored(cats, hay, n);
      var b := FirstMax(cats, hay, n);
      && (|items| == 0 <==> b == -1)
      && (b != -1 ==> items[FirstMaxItem(items, |items|)] == (cats[b].name, Score(cats[b], hay)))
  {
    if n > 0 {
      ScoredFirstMax(cats, hay, n - 1);
      var prev := Scored(cats, hay, n - 1);
      var c := cats[n - 1];
      if Score(c, hay) > 0 {
        var items := prev + [(c.name, Score(c, hay))];
        assert items[..|prev|] == prev;
        if |prev| > 0 {
          PrefixFirstMax(items, |prev|);
          var k := FirstMaxItem(prev, |prev|);
          assert FirstMaxItem(items, |prev|) == k;
          assert items[k] == prev[k];
        }
      } else {
        assert Scored(cats, hay, n) == prev;
      }
    }
  }

  /** `FirstMaxItem` over the first `n` items depends on those items only. */
  lemma {:induction false} PrefixFirstMax(items: seq<(string, nat)>, n: nat)
    requires 1 <= n < |items|
    ensures FirstMaxItem(items[..n], n) == FirstMaxItem(items, n)
  {
    if n > 1 {
      PrefixFirstMax(items, n - 1);
      assert items[..n][..n - 1] == items[..n - 1];
      PrefixFirstMaxEq(items[..n], items, n - 1);
    }
  }

  /** Two item lists that agree on their first `n` items have the same first maximum there. */
  lemma {:induction false} PrefixFirstMaxEq(a: seq<(string, nat)>, b: seq<(string, nat)>, n: nat)
    requires 1 <= n <= |a| && n <= |b| && a[..n] == b[..n]
    ensures FirstMaxItem(a, n) == FirstMaxItem(b, n)
  {
    assert a[n - 1] == a[..n][n - 1];
    assert b[n - 1] == b[..n][n - 1];
    if n > 1 {
      assert a[..n - 1] == a[..n][..n - 1];
      assert b[..n - 1] == b[..n][..n - 1];
      PrefixFirstMaxEq(a, b, n - 1);
      var k := FirstMaxItem(a, n - 1);
      assert a[k] == a[..n][k];
      assert b[k] == b[..n][k];
    }
  }

  /**
   * The winner among the first `n` categories is the first one whose score is positive,
   * at least every other score, and above every earlier score; -1 means that no
   * category has a positive score.
   */
  lemma {:induction false} FirstMaxIsFirstMaximum(cats: seq<Category>, hay: string, n: nat)
    requires n <= |cats|
    ensures var b := FirstMax(cats, hay, n);
      && (b == -1 <==> forall j :: 0 <= j < n ==> Score(cats[j], hay) == 0)
      && (b != -1 ==>
            && Score(cats[b], hay) > 0
            && (forall j :: 0 <= j < n ==> Score(cats[j], hay) <= Score(cats[b], hay))
            && (forall j :: 0 <= j < b ==> Score(cats[j], hay) < Score(cats[b], hay)))
  {
    if n > 0 {
      FirstMaxIsFirstMaximum(cats, hay, n - 1);
    }
  }

  /**
   * The result of `detect_category` is "general" exactly when no keyword of any category
   * occurs in the haystack; otherwise it is the name of the first category with the
   * highest count of distinct matching keywords.
   */
  lemma DetectCategoryMeaning(cats: seq<Category>, hay: string)
    ensures var r := CategoryOf(cats, hay);
      && ((forall j, k :: 0 <= j < |cats| && k in cats[j].keywords ==> !Contains(hay, k)) ==> r == General)
      && ((exists j, k :: 0 <= j < |cats| && k in cats[j].keywords && Contains(hay, k)) ==>
            exists i :: && 0 <= i < |cats| && r == cats[i].name
                        && Score(cats[i], hay) > 0
                        && (forall j :: 0 <= j < |cats| ==> Score(cats[j], hay) <= Score(cats[i], hay))
                        && (forall j :: 0 <= j < i ==> Score(cats[j], hay) < Score(cats[i], hay)))
  {
    var n := |cats|;
    ScoredFirstMax(cats, hay, n);
    FirstMaxIsFirstMaximum(cats, hay, n);
    var b := FirstMax(cats, hay, n);
    if forall j, k :: 0 <= j < n && k in cats[j].keywords ==> !Contains(hay, k) {
      forall j | 0 <= j < n ensures Score(cats[j], hay) == 0 {
        assert Matches(cats[j].keywords, hay) == {};
      }
    }
    if exists j, k :: 0 <= j < n && k in cats[j].keywords && Contains(hay, k) {
      var j, k :| 0 <= j < n && k in cats[j].keywords && Contains(hay, k);
      assert k in Matches(cats[j].keywords, hay);
      assert b != -1;
    }
  }

  /** The result is "general" or the name of a category. */
  lemma CategoryIsKnown(cats: seq<Category>, hay: string)
    ensures var r := CategoryOf(cats, hay);
      r == General || exists i :: 0 <= i < |cats| && r == cats[i].name
  {
    ScoredFirstMax(cats, hay, |cats|);
  }
}
