/**
 * The pieces of JavaScript's String.prototype that the controllers rely on:
 * `trim`, `startsWith`, `indexOf` and `split` with a non-empty separator.
 */
module Strings {
  import opened Wrappers

  /** The WhiteSpace and LineTerminator code points that `trim` removes. */
  predicate IsWhitespace(c: char) {
    || c == ' ' || c == '\t' || c == '\n' || c == '\r'
    || c == '\U{000B}' || c == '\U{000C}' || c == '\U{00A0}' || c == '\U{1680}'
    || ('\U{2000}' <= c <= '\U{200A}')
    || c == '\U{2028}' || c == '\U{2029}' || c == '\U{202F}' || c == '\U{205F}'
    || c == '\U{3000}' || c == '\U{FEFF}'
  }

  predicate AllWhitespace(s: string) {
    forall i :: 0 <= i < |s| ==> IsWhitespace(s[i])
  }

  /** Neither end of `s` is whitespace: what `trim` leaves behind. */
  predicate Trimmed(s: string) {
    s == [] || (!IsWhitespace(s[0]) && !IsWhitespace(s[|s| - 1]))
  }

  function TrimStart(s: string): (r: string)
    ensures |r| <= |s|
    ensures r == [] || !IsWhitespace(r[0])
  {
    if |s| > 0 && IsWhitespace(s[0]) then TrimStart(s[1..]) else s
  }

  function TrimEnd(s: string): (r: string)
    ensures |r| <= |s|
    ensures r == [] || !IsWhitespace(r[|r| - 1])
  {
    if |s| > 0 && IsWhitespace(s[|s| - 1]) then TrimEnd(s[..|s| - 1]) else s
  }

  lemma {:induction false} TrimEndIsPrefix(s: string)
    ensures TrimEnd(s) == s[..|TrimEnd(s)|]
  {
    if |s| > 0 && IsWhitespace(s[|s| - 1]) {
      var front := s[..|s| - 1];
      TrimEndIsPrefix(front);
      assert front[..|TrimEnd(s)|] == s[..|TrimEnd(s)|];
    }
  }

  /** `s.trim()` */
  function Trim(s: string): (r: string)
    ensures Trimmed(r) && |r| <= |s|
  {
    TrimEndIsPrefix(TrimStart(s));
    TrimEnd(TrimStart(s))
  }

  lemma {:induction false} TrimStartSkips(a: string, t: string)
    requires AllWhitespace(a)
    ensures TrimStart(a + t) == TrimStart(t)
    decreases |a|
  {
    if a != [] {
      assert (a + t)[0] == a[0] && IsWhitespace(a[0]);
      assert (a + t)[1..] == a[1..] + t;
      assert AllWhitespace(a[1..]);
      TrimStartSkips(a[1..], t);
      assert TrimStart(a + t) == TrimStart(a[1..] + t);
    } else {
      assert a + t == t;
    }
  }

  lemma {:induction false} TrimEndSkips(t: string, b: string)
    requires AllWhitespace(b)
    ensures TrimEnd(t + b) == TrimEnd(t)
    decreases |b|
  {
    if b != [] {
      var b' := b[..|b| - 1];
      assert (t + b)[..|t + b| - 1] == t + b';
      TrimEndSkips(t, b');
    } else {
      assert t + b == t;
    }
  }

  /** `trim` removes exactly the whitespace around the text and nothing else. */
  lemma TrimExact(a: string, m: string, b: string)
    requires AllWhitespace(a) && AllWhitespace(b) && Trimmed(m)
    ensures Trim(a + m + b) == m
  {
    assert a + m + b == a + (m + b);
    TrimStartSkips(a, m + b);
    if m == [] {
      assert m + b == b + [];
      TrimStartSkips(b, []);
      assert TrimStart(a + m + b) == [];
    } else {
      assert (m + b)[0] == m[0];
      TrimEndSkips(m, b);
    }
  }

  /** A string with no whitespace at either end is left as it is. */
  lemma TrimOfTrimmed(s: string)
    requires Trimmed(s)
    ensures Trim(s) == s
  {
  }

  /** Trimming twice is trimming once. */
  lemma TrimIdempotent(s: string)
    ensures Trim(Trim(s)) == Trim(s)
  {
  }

  /** `sep` occurs in `s` at index `i`. */
  predicate OccursAt(s: string, sep: string, i: int) {
    0 <= i && i + |sep| <= |s| && s[i..i + |sep|] == sep
  }

  /** `s.indexOf(sep, k)`, with None for -1. */
  function IndexFrom(s: string, sep: string, k: nat): (r: Option<nat>)
    ensures r.Some? ==> k <= r.value && OccursAt(s, sep, r.value)
    ensures r.Some? ==> forall j :: k <= j < r.value ==> !OccursAt(s, sep, j)
    ensures r.None? ==> forall j :: k <= j ==> !OccursAt(s, sep, j)
    decreases |s| - k
  {
    if k + |sep| > |s| then None
    else if s[k..k + |sep|] == sep then Some(k)
    else IndexFrom(s, sep, k + 1)
  }

  function IndexOf(s: string, sep: string): Option<nat> {
    IndexFrom(s, sep, 0)
  }

  /** `s.split(sep)` for a non-empty `sep`; `cur` is the segment read so far. */
  function SplitFrom(s: string, sep: string, cur: string): (r: seq<string>)
    requires sep != []
    ensures |r| >= 1
    decreases |s|
  {
    if s == [] then [cur]
    else if OccursAt(s, sep, 0) then [cur] + SplitFrom(s[|sep|..], sep, [])
    else SplitFrom(s[1..], sep, cur + [s[0]])
  }

  function Split(s: string, sep: string): seq<string>
    requires sep != []
  {
    SplitFrom(s, sep, [])
  }

  /** `parts.join(sep)` */
  function Join(parts: seq<string>, sep: string): string
    requires |parts| >= 1
  {
    if |parts| == 1 then parts[0] else parts[0] + sep + Join(parts[1..], sep)
  }

  lemma JoinCons(head: string, tail: seq<string>, sep: string, rest: string)
    requires |tail| >= 1 && Join(tail, sep) == rest
    ensures Join([head] + tail, sep) == head + (sep + rest)
  {
  }

  lemma CutAtStart(s: string, sep: string)
    requires OccursAt(s, sep, 0)
    ensures s == sep + s[|sep|..]
  {
  }

  lemma {:induction false} SplitFromJoin(s: string, sep: string, cur: string)
    requires sep != []
    ensures Join(SplitFrom(s, sep, cur), sep) == cur + s
    decreases |s|
  {
    if s == [] {
      assert cur + s == cur;
    } else if OccursAt(s, sep, 0) {
      var rest := s[|sep|..];
      SplitFromJoin(rest, sep, []);
      assert [] + rest == rest;
      CutAtStart(s, sep);
      JoinCons(cur, SplitFrom(rest, sep, []), sep, rest);
    } else {
      SplitFromJoin(s[1..], sep, cur + [s[0]]);
      assert (cur + [s[0]]) + s[1..] == cur + s;
    }
  }

  /** Splitting loses nothing: joining the segments back gives the input. */
  lemma SplitJoin(s: string, sep: string)
    requires sep != []
    ensures Join(Split(s, sep), sep) == s
  {
    SplitFromJoin(s, sep, []);
    assert [] + s == s;
  }

  /** An occurrence in `s[1..]` is an occurrence in `s`, one place further on. */
  lemma OccursInTail(s: string, sep: string, j: nat)
    requires s != []
    ensures OccursAt(s[1..], sep, j) <==> OccursAt(s, sep, j + 1)
  {
  }

  lemma {:induction false} SplitFromAtFirst(s: string, sep: string, cur: string, i: nat)
    requires sep != [] && OccursAt(s, sep, i)
    requires forall j :: 0 <= j < i ==> !OccursAt(s, sep, j)
    ensures SplitFrom(s, sep, cur) == [cur + s[..i]] + Split(s[i + |sep|..], sep)
    decreases i
  {
    if i == 0 {
      assert OccursAt(s, sep, 0);
      assert cur + s[..0] == cur;
    } else {
      assert !OccursAt(s, sep, 0);
      var t := s[1..];
      OccursInTail(s, sep, i - 1);
      forall j | 0 <= j < i - 1
        ensures !OccursAt(t, sep, j)
      {
        OccursInTail(s, sep, j);
      }
      SplitFromAtFirst(t, sep, cur + [s[0]], i - 1);
      assert (cur + [s[0]]) + t[..i - 1] == cur + s[..i];
      assert t[i - 1 + |sep|..] == s[i + |sep|..];
    }
  }

  lemma {:induction false} SplitFromNowhere(s: string, sep: string, cur: string)
    requires sep != []
    requires forall j :: 0 <= j ==> !OccursAt(s, sep, j)
    ensures SplitFrom(s, sep, cur) == [cur + s]
    decreases |s|
  {
    if s == [] {
      assert cur + s == cur;
    } else {
      assert !OccursAt(s, sep, 0);
      var t := s[1..];
      forall j | 0 <= j
        ensures !OccursAt(t, sep, j)
      {
        OccursInTail(s, sep, j);
      }
      SplitFromNowhere(t, sep, cur + [s[0]]);
      assert (cur + [s[0]]) + t == cur + s;
    }
  }

  /** `split` cuts at the first occurrence found by `indexOf`, or not at all. */
  lemma SplitAtIndex(s: string, sep: string)
    requires sep != []
    ensures IndexOf(s, sep).None? ==> Split(s, sep) == [s]
    ensures IndexOf(s, sep).Some? ==>
      var i := IndexOf(s, sep).value;
      Split(s, sep) == [s[..i]] + Split(s[i + |sep|..], sep)
  {
    match IndexOf(s, sep)
    case None =>
      SplitFromNowhere(s, sep, []);
      assert [] + s == s;
    case Some(i) =>
      SplitFromAtFirst(s, sep, [], i);
      assert [] + s[..i] == s[..i];
  }

  /** The text before the first `sep`, or all of `s` when there is none. */
  function FirstSegment(s: string, sep: string): string {
    match IndexOf(s, sep)
    case None => s
    case Some(i) => s[..i]
  }

  /** The text between the first and second `sep` (up to the end when there is no second). */
  function SecondSegment(s: string, sep: string): Option<string> {
    match IndexOf(s, sep)
    case None => None
    case Some(i) => Some(FirstSegment(s[i + |sep|..], sep))
  }

  /** `s.split(sep)[0]` and `s.split(sep)[1]`, by `indexOf`. */
  lemma SplitSegments(s: string, sep: string)
    requires sep != []
    ensures Split(s, sep)[0] == FirstSegment(s, sep)
    ensures |Split(s, sep)| >= 2 <==> SecondSegment(s, sep).Some?
    ensures |Split(s, sep)| >= 2 ==> Split(s, sep)[1] == SecondSegment(s, sep).value
  {
    SplitAtIndex(s, sep);
    match IndexOf(s, sep)
    case None =>
    case Some(i) =>
      SplitAtIndex(s[i + |sep|..], sep);
  }

  /** A single-character separator never appears inside the first segment. */
  lemma FirstSegmentNoSeparator(s: string, c: char)
    ensures c !in FirstSegment(s, [c])
    ensures FirstSegment(s, [c]) <= s
    ensures |FirstSegment(s, [c])| == |s| || s[|FirstSegment(s, [c])|] == c
  {
    var seg := FirstSegment(s, [c]);
    if c in seg {
      var k :| 0 <= k < |seg| && seg[k] == c;
      assert s[k..k + 1] == [c];
      assert OccursAt(s, [c], k);
    }
    match IndexOf(s, [c])
    case None =>
    case Some(i) =>
      assert s[i..i + 1] == [c];
  }
}
