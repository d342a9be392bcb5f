/**
 * The parts of Python's `str` that the documentation assistant relies on:
 * `find`, `rfind`, `strip`, `rstrip`, `lower`, `split("\n")`, `"\n".join`,
 * `replace(c, "")`, `endswith` and the `in` substring test.
 */
module Strings {

  /** The characters for which Python's `str.isspace()` holds; the regex class `\s` matches the same set. */
  predicate IsSpace(c: char) {
    || c == ' '
    || '\t' <= c <= '\r'
    || '\U{1C}' <= c <= '\U{1F}'
    || c == '\U{85}' || c == '\U{A0}' || c == '\U{1680}'
    || '\U{2000}' <= c <= '\U{200A}'
    || c == '\U{2028}' || c == '\U{2029}' || c == '\U{202F}' || c == '\U{205F}' || c == '\U{3000}'
  }

  predicate EndsWith(s: string, suffix: string) {
    |suffix| <= |s| && s[|s| - |suffix|..] == suffix
  }

  /** `sub` occurs in `s` starting at index `i`. */
  predicate OccursAt(s: string, sub: string, i: int) {
    0 <= i && i + |sub| <= |s| && s[i..i + |sub|] == sub
  }

  /** Python's `s.find(sub, start)`: the lowest index at or after `start` where `sub` occurs, or -1. */
  function Find(s: string, sub: string, start: nat): (r: int)
    ensures r == -1 || (start <= r && OccursAt(s, sub, r))
    decreases |s| - start
  {
    if start + |sub| > |s| then -1
    else if s[start..start + |sub|] == sub then start
    else Find(s, sub, start + 1)
  }

  /** `find` returns the first occurrence at or after `start`, and -1 only when there is none. */
  lemma {:induction false} FindFirst(s: string, sub: string, start: nat)
    ensures Find(s, sub, start) == -1 ==> forall i :: start <= i ==> !OccursAt(s, sub, i)
    ensures Find(s, sub, start) != -1 ==> forall i :: start <= i < Find(s, sub, start) ==> !OccursAt(s, sub, i)
    decreases |s| - start
  {
    if start + |sub| <= |s| && s[start..start + |sub|] != sub {
      FindFirst(s, sub, start + 1);
    }
  }

  /** The text from `i` up to the end of the occurrence `find` found holds that occurrence first. */
  lemma FindWithin(s: string, sub: string, i: nat, r: int)
    requires i <= |s| && r == Find(s, sub, i) && r != -1
    ensures i <= r && Find(s[i..r + |sub|], sub, 0) == r - i
  {
    FindInSuffix(s, sub, i, 0);
    var x := s[i..r + |sub|];
    SliceSplit(s, i, r + |sub|);
    SliceOfSlice(s, i, r + |sub|, r - i, r - i + |sub|);
    assert OccursAt(x, sub, r - i);
    FindFirst(x, sub, 0);
    FindExtends(x, s[r + |sub|..], sub, 0);
  }

  lemma SliceOfSlice(s: string, i: nat, j: nat, a: nat, b: nat)
    requires i <= j <= |s| && a <= b <= j - i
    ensures s[i..j][a..b] == s[i + a..i + b]
  {
    assert forall k :: 0 <= k < b - a ==> s[i..j][a..b][k] == s[i + a + k];
  }

  lemma SliceSplit(s: string, i: nat, j: nat)
    requires i <= j <= |s|
    ensures s[i..] == s[i..j] + s[j..]
  {
  }

  /** `find` on a longer text skips the prefix: searching `p + s` past `p` is searching `s`. */
  lemma {:induction false} FindPastPrefix(p: string, s: string, sub: string, k: nat)
    requires Find(s, sub, k) != -1
    ensures Find(p + s, sub, |p| + k) == |p| + Find(s, sub, k)
    decreases |s| - k
  {
    var t := p + s;
    if k + |sub| <= |s| {
      assert t[|p| + k..|p| + k + |sub|] == s[k..k + |sub|];
      if s[k..k + |sub|] != sub {
        FindPastPrefix(p, s, sub, k + 1);
      }
    }
  }

  /** Appending text after a found occurrence does not move it. */
  lemma {:induction false} FindExtends(s: string, t: string, sub: string, k: nat)
    requires Find(s, sub, k) != -1
    ensures Find(s + t, sub, k) == Find(s, sub, k)
    decreases |s| - k
  {
    var u := s + t;
    assert u[k..k + |sub|] == s[k..k + |sub|];
    if s[k..k + |sub|] != sub {
      FindExtends(s, t, sub, k + 1);
    }
  }

  /** A `find` at or after `i + j` in `s` is a `find` at or after `j` in `s[i..]`, shifted by `i`. */
  lemma {:induction false} FindInSuffix(s: string, sub: string, i: nat, j: nat)
    requires i <= |s|
    ensures Find(s, sub, i + j) == (if Find(s[i..], sub, j) == -1 then -1 else i + Find(s[i..], sub, j))
    decreases |s| - i - j
  {
    var t := s[i..];
    if j + |sub| <= |t| {
      assert s[i + j..i + j + |sub|] == t[j..j + |sub|];
      if t[j..j + |sub|] != sub {
        FindInSuffix(s, sub, i, j + 1);
      }
    }
  }

  /** Python's `sub in s`. */
  predicate Contains(s: string, sub: string) {
    Find(s, sub, 0) != -1
  }

  lemma ContainsMeansOccurs(s: string, sub: string)
    ensures Contains(s, sub) <==> exists i :: OccursAt(s, sub, i)
  {
    FindFirst(s, sub, 0);
  }

  /** Python's `s.rfind(c)` for a one-character needle: the highest index holding `c`, or -1. */
  function LastIndexOf(s: string, c: char): (r: int)
    ensures r == -1 <==> c !in s
    ensures r != -1 ==> 0 <= r < |s| && s[r] == c && c !in s[r + 1..]
  {
    if |s| == 0 then -1
    else if s[|s| - 1] == c then |s| - 1
    else
      var k := LastIndexOf(s[..|s| - 1], c);
      assert s == s[..|s| - 1] + [s[|s| - 1]];
      k
  }

  /** Python's `s.rstrip()`. */
  function RStrip(s: string): (r: string)
    ensures r <= s
    ensures |r| == 0 || !IsSpace(r[|r| - 1])
    ensures forall i :: |r| <= i < |s| ==> IsSpace(s[i])
  {
    if |s| > 0 && IsSpace(s[|s| - 1]) then RStrip(s[..|s| - 1]) else s
  }

  /** The number of whitespace characters `s` starts with. */
  function LeadingSpaces(s: string): (k: nat)
    ensures k <= |s|
    ensures forall i :: 0 <= i < k ==> IsSpace(s[i])
    ensures k < |s| ==> !IsSpace(s[k])
  {
    if |s| > 0 && IsSpace(s[0]) then 1 + LeadingSpaces(s[1..]) else 0
  }

  /** Python's `s.lstrip()`. */
  function LStrip(s: string): (r: string)
    ensures |r| <= |s| && r == s[|s| - |r|..]
    ensures |r| == 0 || !IsSpace(r[0])
    ensures forall i :: 0 <= i < |s| - |r| ==> IsSpace(s[i])
  {
    s[LeadingSpaces(s)..]
  }

  /** Python's `s.strip()`. */
  function Strip(s: string): (r: string)
    ensures |r| == 0 || (!IsSpace(r[0]) && !IsSpace(r[|r| - 1]))
    ensures exists a, b :: && 0 <= a <= b <= |s| && r == s[a..b]
                           && (forall i :: 0 <= i < a ==> IsSpace(s[i]))
                           && (forall i :: b <= i < |s| ==> IsSpace(s[i]))
  {
    var t := RStrip(s);
    var r := LStrip(t);
    StripBounds(s, |t| - |r|, |t|);
    r
  }

  /** `strip` keeps `s[a..b]`, where `b` ends what `rstrip` keeps and `a` starts what `lstrip` then keeps. */
  lemma StripBounds(s: string, a: int, b: int)
    requires b == |RStrip(s)| && a == b - |LStrip(RStrip(s))|
    ensures && 0 <= a <= b <= |s| && LStrip(RStrip(s)) == s[a..b]
            && (forall i :: 0 <= i < a ==> IsSpace(s[i]))
            && (forall i :: b <= i < |s| ==> IsSpace(s[i]))
  {
    var t := RStrip(s);
    assert t == s[..b];
    assert forall i :: 0 <= i < a ==> s[i] == t[i];
  }

  /** The index of the first `c` in `s`, or |s| when there is none. */
  function IndexOf(s: string, c: char): (r: nat)
    ensures r <= |s|
    ensures r < |s| ==> s[r] == c
    ensures c !in s[..r]
  {
    if |s| == 0 || s[0] == c then 0 else 1 + IndexOf(s[1..], c)
  }

  /** Python's `s.split(sep)` for a one-character separator. */
  function Split(s: string, sep: char): (parts: seq<string>)
    ensures |parts| >= 1
    ensures forall i :: 0 <= i < |parts| ==> sep !in parts[i]
    decreases |s|
  {
    var i := IndexOf(s, sep);
    if i == |s| then [s] else [s[..i]] + Split(s[i + 1..], sep)
  }

  /** Python's `sep.join(parts)` for a one-character separator. */
  function Join(parts: seq<string>, sep: char): string {
    if |parts| == 0 then ""
    else if |parts| == 1 then parts[0]
    else parts[0] + [sep] + Join(parts[1..], sep)
  }

  /** Joining the pieces of a split gives back the original text. */
  lemma {:induction false} JoinSplit(s: string, sep: char)
    ensures Join(Split(s, sep), sep) == s
    decreases |s|
  {
    var i := IndexOf(s, sep);
    if i < |s| {
      var tail := Split(s[i + 1..], sep);
      JoinCons(s[..i], tail, sep);
      JoinSplit(s[i + 1..], sep);
      assert s == s[..i] + [sep] + s[i + 1..];
    }
  }

  lemma JoinCons(head: string, tail: seq<string>, sep: char)
    requires |tail| >= 1
    ensures Join([head] + tail, sep) == head + [sep] + Join(tail, sep)
  {
    assert ([head] + tail)[1..] == tail;
  }

  /** Splitting a join of separator-free pieces gives back the pieces. */
  lemma {:induction false} SplitJoin(parts: seq<string>, sep: char)
    requires |parts| >= 1
    requires forall i :: 0 <= i < |parts| ==> sep !in parts[i]
    ensures Split(Join(parts, sep), sep) == parts
  {
    if |parts| == 1 {
      assert IndexOf(parts[0], sep) == |parts[0]|;
    } else {
      var rest := Join(parts[1..], sep);
      var s := parts[0] + [sep] + rest;
      IndexOfPastPrefix(parts[0], sep, rest);
      assert s[..|parts[0]|] == parts[0];
      assert s[|parts[0]| + 1..] == rest;
      SplitJoin(parts[1..], sep);
    }
  }

  lemma {:induction false} IndexOfPastPrefix(a: string, sep: char, b: string)
    requires sep !in a
    ensures IndexOf(a + [sep] + b, sep) == |a|
  {
    if |a| > 0 {
      assert (a + [sep] + b)[1..] == a[1..] + [sep] + b;
      IndexOfPastPrefix(a[1..], sep, b);
    }
  }

  /** Python's `s.replace(c, "")` for one character. */
  function RemoveChar(s: string, c: char): (r: string)
    ensures c !in r
    ensures |r| <= |s|
    ensures c !in s ==> r == s
    ensures multiset(r) == multiset(s)[c := 0]
  {
    if |s| == 0 then ""
    else
      assert s == [s[0]] + s[1..];
      if s[0] == c then RemoveChar(s[1..], c)
      else [s[0]] + RemoveChar(s[1..], c)
  }

  /** Removal works piece by piece, so the characters that stay keep their order. */
  lemma {:induction false} RemoveCharAppend(a: string, b: string, c: char)
    ensures RemoveChar(a + b, c) == RemoveChar(a, c) + RemoveChar(b, c)
  {
    if |a| == 0 {
      assert a + b == b;
    } else {
      assert (a + b)[0] == a[0] && (a + b)[1..] == a[1..] + b;
      RemoveCharAppend(a[1..], b, c);
    }
  }

  /** The lower-case form of an ASCII letter; every other character is kept. */
  function LowerChar(c: char): char {
    if 'A' <= c <= 'Z' then (c as int + 32) as char else c
  }

  /** Python's `s.lower()`, restricted to ASCII letters. */
  function Lower(s: string): (r: string)
    ensures |r| == |s|
    ensures forall i :: 0 <= i < |s| ==> r[i] == LowerChar(s[i])
  {
    seq(|s|, i requires 0 <= i < |s| => LowerChar(s[i]))
  }
}
