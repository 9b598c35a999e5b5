/** Resource paths as the Twitter connection sees them: the two regular
    expressions of `normalizeResource` and PHP's `dirname`.

    `normalizeResource` runs two `preg_replace` patterns one after the other:
      1. `~/(?:\d+|:\w+)(?=/|$)~` becomes a slash and a star (numeric ids and `:name`
         placeholders turn into a wildcard segment);
      2. `~(\.\w+(\?.*)?|\?.*)$~` becomes `` (a trailing `.ext`, with or
         without a query, or a bare query, is dropped).
    Both are modelled with PCRE's defaults: `\d` and `\w` are ASCII classes,
    `.` does not match a newline and `$` matches at the end of the subject or
    just before a newline that ends it. */
module Paths {
  import opened Values

  predicate IsDigit(c: char) {
    '0' <= c <= '9'
  }

  /** PCRE's `\w` without Unicode support. */
  predicate IsWordChar(c: char) {
    IsDigit(c) || 'a' <= c <= 'z' || 'A' <= c <= 'Z' || c == '_'
  }

  predicate AllDigits(s: string) {
    forall i :: 0 <= i < |s| ==> IsDigit(s[i])
  }

  predicate AllWord(s: string) {
    forall i :: 0 <= i < |s| ==> IsWordChar(s[i])
  }

  /** Number of leading digits (how far a greedy `\d+` reaches). */
  function DigitRun(t: string): (n: nat)
    ensures n <= |t| && (forall i :: 0 <= i < n ==> IsDigit(t[i])) && (n < |t| ==> !IsDigit(t[n]))
  {
    if t != [] && IsDigit(t[0]) then
      1 + DigitRun(t[1..])
    else 0
  }

  /** Number of leading word characters (how far a greedy `\w+` reaches). */
  function WordRun(t: string): (n: nat)
    ensures n <= |t| && (forall i :: 0 <= i < n ==> IsWordChar(t[i])) && (n < |t| ==> !IsWordChar(t[n]))
  {
    if t != [] && IsWordChar(t[0]) then
      1 + WordRun(t[1..])
    else 0
  }

  lemma DigitRunIs(t: string, n: nat)
    requires n <= |t| && (forall i :: 0 <= i < n ==> IsDigit(t[i])) && (n < |t| ==> !IsDigit(t[n]))
    ensures DigitRun(t) == n
  {
  }

  lemma WordRunIs(t: string, n: nat)
    requires n <= |t| && (forall i :: 0 <= i < n ==> IsWordChar(t[i])) && (n < |t| ==> !IsWordChar(t[n]))
    ensures WordRun(t) == n
  {
  }

  // ---------------------------------------------------------------------
  // Pattern 1: ids and placeholders become `*`
  // ---------------------------------------------------------------------

  /** `$` without the D modifier: at the end, or before a newline that ends the string. */
  predicate DollarAt(s: string, k: nat) {
    k == |s| || (k + 1 == |s| && s[k] == '\n')
  }

  /** The lookahead `(?=/|$)` at position k of t. */
  predicate SegmentEnd(t: string, k: nat) {
    (k < |t| && t[k] == '/') || DollarAt(t, k)
  }

  /** Length of the match of `(?:\d+|:\w+)(?=/|$)` at the start of t, 0 when
      there is none. Backtracking never helps: a shorter run is followed by
      a digit or word character, which is neither `/` nor an end. */
  function IdLen(t: string): (n: nat)
    ensures n <= |t|
  {
    var d := DigitRun(t);
    if d > 0 && SegmentEnd(t, d) then d
    else if |t| > 0 && t[0] == ':' && WordRun(t[1..]) > 0 && SegmentEnd(t, 1 + WordRun(t[1..])) then
      1 + WordRun(t[1..])
    else 0
  }

  /** The first replacement of `normalizeResource`: every match of
      `/(?:\d+|:\w+)(?=/|$)`, scanned left to right, becomes a slash and a star. */
  function ReplaceIds(s: string): string
    decreases |s|
  {
    if s == [] then []
    else if s[0] == '/' && IdLen(s[1..]) > 0 then "/*" + ReplaceIds(s[1 + IdLen(s[1..])..])
    else [s[0]] + ReplaceIds(s[1..])
  }

  // ---------------------------------------------------------------------
  // Pattern 2: a trailing extension or query is removed
  // ---------------------------------------------------------------------

  /** First newline at or after q, or |s|: how far `.*` can reach. */
  function LineEnd(s: string, q: nat): (e: nat)
    requires q <= |s|
    ensures q <= e <= |s| && (e < |s| ==> s[e] == '\n')
    ensures forall i :: q <= i < e ==> s[i] != '\n'
    decreases |s| - q
  {
    if q == |s| || s[q] == '\n' then q else LineEnd(s, q + 1)
  }

  /** End of a match of `\?.*$` whose `?` stands at q. */
  function QueryEnd(s: string, q: nat): (r: Option<nat>)
    requires q < |s|
    ensures r.Some? ==> q < r.value <= |s| && DollarAt(s, r.value)
  {
    var e := LineEnd(s, q + 1);
    if DollarAt(s, e) then Some(e) else None
  }

  /** End of a match of `(\.\w+(\?.*)?|\?.*)$` starting at p, if there is one.
      As with pattern 1, a shorter `\w+` is followed by a word character and
      cannot be followed by `?` or an end. */
  function SuffixMatch(s: string, p: nat): (r: Option<nat>)
    requires p <= |s|
    ensures r.Some? ==> p < r.value <= |s| && DollarAt(s, r.value)
  {
    if p < |s| && s[p] == '.' then
      var w := WordRun(s[p + 1..]);
      var q := p + 1 + w;
      if w == 0 then None
      else if q < |s| && s[q] == '?' && QueryEnd(s, q).Some? then QueryEnd(s, q)
      else if DollarAt(s, q) then Some(q)
      else None
    else if p < |s| && s[p] == '?' then QueryEnd(s, p)
    else None
  }

  /** The leftmost position at or after p where the suffix pattern matches. */
  function LeftmostMatch(s: string, p: nat): (r: Option<nat>)
    requires p <= |s|
    ensures r.Some? ==> p <= r.value < |s| && SuffixMatch(s, r.value).Some?
    ensures r.Some? ==> forall i :: p <= i < r.value ==> SuffixMatch(s, i).None?
    ensures r.None? ==> forall i :: p <= i <= |s| ==> SuffixMatch(s, i).None?
    decreases |s| - p
  {
    if p == |s| then None
    else if SuffixMatch(s, p).Some? then Some(p)
    else LeftmostMatch(s, p + 1)
  }

  /** The second replacement of `normalizeResource`. A match always runs to
      a `$`, so the first one ends the scan and there is at most one. */
  function StripSuffix(s: string): string {
    match LeftmostMatch(s, 0)
    case None => s
    case Some(p) =>
      s[..p] + s[SuffixMatch(s, p).value..]
  }

  /** `normalizeResource`: the lookup key of a raw API path. */
  function Normalize(resource: string): string {
    StripSuffix(ReplaceIds(resource))
  }

  // ---------------------------------------------------------------------
  // A segment-wise reference for pattern 1
  // ---------------------------------------------------------------------

  /** A segment that pattern 1 rewrites: all digits, or `:` and word characters. */
  predicate IsIdSegment(seg: string) {
    (|seg| > 0 && AllDigits(seg)) || (|seg| >= 2 && seg[0] == ':' && AllWord(seg[1..]))
  }

  /** A last segment `id` followed by the string's final newline. */
  predicate IsIdBeforeNewline(seg: string) {
    |seg| > 0 && seg[|seg| - 1] == '\n' && IsIdSegment(seg[..|seg| - 1])
  }

  /** The rewrite of one segment that follows a `/`. */
  function RewriteSegment(seg: string, last: bool): string {
    if IsIdSegment(seg) then "*"
    else if last && IsIdBeforeNewline(seg) then "*\n"
    else seg
  }

  /** Length of the first segment: the position of the first `/`, or |s|. */
  function SegmentLength(s: string): (n: nat)
    ensures n <= |s| && (n < |s| ==> s[n] == '/')
  {
    if s == [] || s[0] == '/' then 0 else 1 + SegmentLength(s[1..])
  }

  /** The first segment holds no `/`. */
  lemma {:induction false} FirstSegmentNoSlash(s: string)
    ensures forall i :: 0 <= i < SegmentLength(s) ==> s[i] != '/'
    ensures '/' !in s[..SegmentLength(s)]
  {
    if s != [] && s[0] != '/' {
      FirstSegmentNoSlash(s[1..]);
      assert forall i :: 1 <= i < SegmentLength(s) ==> s[i] == s[1..][i - 1];
    }
  }

  /** `explode('/', $s)`. */
  function Segments(s: string): (segs: seq<string>)
    ensures |segs| >= 1
    decreases |s|
  {
    if SegmentLength(s) == |s| then [s]
    else [s[..SegmentLength(s)]] + Segments(s[SegmentLength(s) + 1..])
  }

  /** `implode('/', $segs)`. */
  function Join(segs: seq<string>): string
    requires |segs| >= 1
  {
    if |segs| == 1 then segs[0] else segs[0] + "/" + Join(segs[1..])
  }

  /** A string is the text before a `/`, the `/` and the text after it. */
  lemma SplitAt(t: string, n: nat)
    requires n < |t| && t[n] == '/'
    ensures t == t[..n] + "/" + t[n + 1..]
    ensures t == t[..n] + ("/" + t[n + 1..])
  {
  }

  /** Splitting on `/` and joining again gives the path back. */
  lemma {:induction false} JoinSegments(s: string)
    ensures Join(Segments(s)) == s
    decreases |s|
  {
    var n := SegmentLength(s);
    if n < |s| {
      JoinSegments(s[n + 1..]);
      SplitAt(s, n);
      var segs := Segments(s);
      assert segs == [s[..n]] + Segments(s[n + 1..]);
      assert segs[1..] == Segments(s[n + 1..]);
    }
  }

  /** Every segment rewritten as one that follows a `/`; only the last one
      can end the string. */
  function RewriteSegments(segs: seq<string>): (r: seq<string>)
    ensures |r| == |segs|
  {
    if segs == [] then []
    else if |segs| == 1 then [RewriteSegment(segs[0], true)]
    else [RewriteSegment(segs[0], false)] + RewriteSegments(segs[1..])
  }

  /** The reference reading of pattern 1: the path is split at its first
      `/`; the first segment is kept (no `/` precedes it), the rest is
      exploded and every segment that is an id becomes `*`. */
  function WildcardSegments(s: string): string {
    var n := SegmentLength(s);
    if n == |s| then s else s[..n] + "/" + Join(RewriteSegments(Segments(s[n + 1..])))
  }

  // ---------------------------------------------------------------------
  // Lemmas about pattern 1
  // ---------------------------------------------------------------------

  /** Where pattern 1 matches after a `/` depends only on the segment that
      follows, and whether the string ends right after it. */
  lemma IdLenOfSegment(a: string, rest: string)
    requires '/' !in a
    requires rest == [] || rest[0] == '/'
    ensures IdLen(a + rest) ==
      if IsIdSegment(a) then |a|
      else if rest == [] && IsIdBeforeNewline(a) then |a| - 1
      else 0
  {
    if IsIdSegment(a) {
      IdLenOfId(a, rest);
    } else if rest == [] && IsIdBeforeNewline(a) {
      IdLenBeforeNewline(a);
      assert a + rest == a;
    } else {
      IdLenOfOther(a, rest);
    }
  }

  /** A whole id segment is matched up to the `/` or the end after it. */
  lemma IdLenOfId(a: string, rest: string)
    requires '/' !in a && IsIdSegment(a)
    requires rest == [] || rest[0] == '/'
    ensures IdLen(a + rest) == |a|
  {
    var t := a + rest;
    assert t[..|a|] == a;
    if |a| > 0 && AllDigits(a) {
      DigitRunIs(t, |a|);
    } else {
      DigitRunIs(t, 0);
      assert t[1..][..|a| - 1] == a[1..];
      WordRunIs(t[1..], |a| - 1);
    }
  }

  /** An id segment that ends the string just before a final newline is
      matched without the newline. */
  lemma IdLenBeforeNewline(a: string)
    requires IsIdBeforeNewline(a)
    ensures IdLen(a) == |a| - 1
  {
    var b := a[..|a| - 1];
    assert a[|b|] == '\n';
    if AllDigits(b) {
      assert forall i :: 0 <= i < |b| ==> a[i] == b[i];
      DigitRunIs(a, |b|);
    } else {
      DigitRunIs(a, 0);
      assert forall i :: 0 <= i < |b| - 1 ==> a[1..][i] == b[1..][i];
      assert a[1..][|b| - 1] == '\n';
      WordRunIs(a[1..], |b| - 1);
    }
  }

  /** Any other segment is not matched. */
  lemma IdLenOfOther(a: string, rest: string)
    requires '/' !in a
    requires rest == [] || rest[0] == '/'
    requires !IsIdSegment(a) && !(rest == [] && IsIdBeforeNewline(a))
    ensures IdLen(a + rest) == 0
  {
    var t := a + rest;
    var d := DigitRun(t);
    if d > 0 && SegmentEnd(t, d) {
      DigitMatchIsId(a, rest, d);
      assert false;
    }
    if |t| > 0 && t[0] == ':' {
      var w := WordRun(t[1..]);
      if w > 0 && SegmentEnd(t, 1 + w) {
        ColonMatchIsId(a, rest, w);
        assert false;
      }
    }
  }

  /** A run of digits after a `/` that pattern 1 accepts is a whole id segment. */
  lemma DigitMatchIsId(a: string, rest: string, d: nat)
    requires '/' !in a && (rest == [] || rest[0] == '/')
    requires 0 < d <= |a + rest|
    requires forall i :: 0 <= i < d ==> IsDigit((a + rest)[i])
    requires SegmentEnd(a + rest, d)
    ensures IsIdSegment(a) || (rest == [] && IsIdBeforeNewline(a))
  {
    var t := a + rest;
    assert |a| < |t| ==> t[|a|] == '/';
    assert d <= |a|;
    if d == |a| {
      assert forall i :: 0 <= i < |a| ==> a[i] == t[i];
    } else {
      assert t[d] == a[d];
      assert |t| == d + 1 && rest == [];
      var b := a[..|a| - 1];
      assert forall i :: 0 <= i < |b| ==> b[i] == t[i];
    }
  }

  /** A `:word` after a `/` that pattern 1 accepts is a whole placeholder segment. */
  lemma ColonMatchIsId(a: string, rest: string, w: nat)
    requires '/' !in a && (rest == [] || rest[0] == '/')
    requires |a| > 0 && a[0] == ':'
    requires 0 < w && 1 + w <= |a + rest|
    requires forall i :: 1 <= i <= w ==> IsWordChar((a + rest)[i])
    requires SegmentEnd(a + rest, 1 + w)
    ensures IsIdSegment(a) || (rest == [] && IsIdBeforeNewline(a))
  {
    var t := a + rest;
    assert |a| < |t| ==> t[|a|] == '/';
    assert 1 + w <= |a|;
    if 1 + w == |a| {
      assert forall i :: 0 <= i < |a| - 1 ==> a[1..][i] == t[i + 1];
    } else {
      assert t[1 + w] == a[1 + w];
      assert |t| == w + 2 && rest == [];
      var b := a[..|a| - 1];
      assert forall i :: 0 <= i < |b| - 1 ==> b[1..][i] == t[i + 1];
    }
  }

  /** A segment that is not an id is copied unchanged up to the next `/`. */
  lemma {:induction false} ReplaceIdsPrefix(a: string, b: string)
    requires '/' !in a
    ensures ReplaceIds(a + b) == a + ReplaceIds(b)
  {
    if a != [] {
      assert a[0] in a;
      assert (a + b)[0] == a[0];
      assert (a + b)[1..] == a[1..] + b;
      ReplaceIdsPrefix(a[1..], b);
      assert ReplaceIds(a + b) == [a[0]] + ReplaceIds(a[1..] + b);
      assert a == [a[0]] + a[1..];
    } else {
      assert a + b == b;
    }
  }

  /** One step of pattern 1 at a `/`. */
  lemma ReplaceIdsSlash(t: string)
    ensures ReplaceIds("/" + t) ==
      if IdLen(t) > 0 then "/*" + ReplaceIds(t[IdLen(t)..]) else "/" + ReplaceIds(t)
  {
    assert ("/" + t)[1..] == t;
  }

  /** Pattern 1 on the last segment, after a `/`. */
  lemma ReplaceIdsLastSegment(t: string)
    requires '/' !in t
    ensures ReplaceIds("/" + t) == "/" + RewriteSegment(t, true)
  {
    IdLenOfSegment(t, []);
    assert t + [] == t;
    ReplaceIdsSlash(t);
    if IsIdSegment(t) {
      assert t[|t|..] == [];
    } else if IsIdBeforeNewline(t) {
      assert t[|t| - 1..] == "\n";
      assert ReplaceIds("\n") == "\n";
    } else {
      ReplaceIdsPrefix(t, []);
    }
  }

  /** Pattern 1 on a segment followed by another `/`. */
  lemma ReplaceIdsInnerSegment(a: string, t: string)
    requires '/' !in a
    ensures ReplaceIds("/" + (a + ("/" + t))) == "/" + RewriteSegment(a, false) + ReplaceIds("/" + t)
  {
    if IsIdSegment(a) {
      ReplaceIdsInnerId(a, t);
    } else {
      ReplaceIdsInnerOther(a, t);
    }
  }

  /** An inner id segment becomes `*`. */
  lemma ReplaceIdsInnerId(a: string, t: string)
    requires '/' !in a && IsIdSegment(a)
    ensures ReplaceIds("/" + (a + ("/" + t))) == "/*" + ReplaceIds("/" + t)
  {
    IdLenOfSegment(a, "/" + t);
    ReplaceIdsSlash(a + ("/" + t));
    assert (a + ("/" + t))[|a|..] == "/" + t;
  }

  /** Any other inner segment is kept. */
  lemma ReplaceIdsInnerOther(a: string, t: string)
    requires '/' !in a && !IsIdSegment(a)
    ensures ReplaceIds("/" + (a + ("/" + t))) == "/" + a + ReplaceIds("/" + t)
  {
    IdLenOfSegment(a, "/" + t);
    ReplaceIdsSlash(a + ("/" + t));
    ReplaceIdsPrefix(a, "/" + t);
  }

  /** `ReplaceIdsInnerSegment` at the first `/` of t. */
  lemma ReplaceIdsSplitAfterSlash(t: string)
    requires SegmentLength(t) < |t|
    ensures var n := SegmentLength(t);
      ReplaceIds("/" + t) == "/" + RewriteSegment(t[..n], false) + ReplaceIds("/" + t[n + 1..])
  {
    var n := SegmentLength(t);
    SplitAt(t, n);
    FirstSegmentNoSlash(t);
    ReplaceIdsInnerSegment(t[..n], t[n + 1..]);
  }

  /** The reference on the text after a `/`: the first segment is rewritten
      as the last one or as an inner one. */
  lemma RewriteFirstSegment(t: string)
    ensures var n := SegmentLength(t);
      Join(RewriteSegments(Segments(t))) ==
        if n == |t| then RewriteSegment(t, true)
        else RewriteSegment(t[..n], false) + "/" + Join(RewriteSegments(Segments(t[n + 1..])))
  {
    var n := SegmentLength(t);
    if n < |t| {
      var segs' := Segments(t[n + 1..]);
      SegmentsSplit(t, t[..n], t[n + 1..]);
      RewriteSegmentsCons(t[..n], segs');
      JoinCons(RewriteSegment(t[..n], false), RewriteSegments(segs'));
    }
  }

  /** Rewriting a first segment in front of others. */
  lemma RewriteSegmentsCons(x: string, segs: seq<string>)
    requires |segs| >= 1
    ensures RewriteSegments([x] + segs) == [RewriteSegment(x, false)] + RewriteSegments(segs)
  {
    assert ([x] + segs)[1..] == segs;
  }

  /** The text after a `/`, segment by segment. */
  lemma {:induction false} ReplaceIdsAfterSlash(t: string)
    ensures ReplaceIds("/" + t) == "/" + Join(RewriteSegments(Segments(t)))
    decreases |t|
  {
    var n := SegmentLength(t);
    RewriteFirstSegment(t);
    if n == |t| {
      FirstSegmentNoSlash(t);
      assert t[..n] == t;
      ReplaceIdsLastSegment(t);
    } else {
      ReplaceIdsSplitAfterSlash(t);
      ReplaceIdsAfterSlash(t[n + 1..]);
      var x, j := RewriteSegment(t[..n], false), Join(RewriteSegments(Segments(t[n + 1..])));
      Assoc("/", x, "/" + j);
      Assoc(x, "/", j);
    }
  }

  /** Pattern 1 agrees with the segment-wise reference: exactly the segments
      after a `/` that are all digits or `:word` become `*`, and every other
      character is kept. */
  lemma ReplaceIdsBySegments(s: string)
    ensures ReplaceIds(s) == WildcardSegments(s)
  {
    var n := SegmentLength(s);
    if n < |s| {
      ReplaceIdsBySegmentsSplit(s, s[..n], s[n + 1..]);
    } else {
      FirstSegmentNoSlash(s);
      assert s[..n] == s;
      ReplaceIdsNoSlash(s);
    }
  }

  /** `ReplaceIdsBySegments` for a path with a `/`: head, `/`, then the
      rewritten segments of the tail. */
  lemma ReplaceIdsBySegmentsSplit(s: string, head: string, tail: string)
    requires SegmentLength(s) < |s|
    requires head == s[..SegmentLength(s)] && tail == s[SegmentLength(s) + 1..]
    ensures ReplaceIds(s) == WildcardSegments(s)
  {
    ReplaceIdsFirstSegment(s);
    ReplaceIdsAfterSlash(tail);
    Assoc(head, "/", Join(RewriteSegments(Segments(tail))));
  }

  /** The first segment has no `/` before it and is copied unchanged. */
  lemma ReplaceIdsFirstSegment(s: string)
    requires SegmentLength(s) < |s|
    ensures ReplaceIds(s) == s[..SegmentLength(s)] + ReplaceIds("/" + s[SegmentLength(s) + 1..])
  {
    var n := SegmentLength(s);
    SplitAt(s, n);
    FirstSegmentNoSlash(s);
    ReplaceIdsPrefix(s[..n], "/" + s[n + 1..]);
  }

  /** A path without `/` is copied unchanged. */
  lemma ReplaceIdsNoSlash(s: string)
    requires '/' !in s
    ensures ReplaceIds(s) == s
  {
    ReplaceIdsPrefix(s, []);
    assert s + [] == s;
  }

  /** `explode` splits off the first segment. */
  lemma SegmentsSplit(t: string, head: string, tail: string)
    requires SegmentLength(t) < |t|
    requires head == t[..SegmentLength(t)] && tail == t[SegmentLength(t) + 1..]
    ensures Segments(t) == [head] + Segments(tail)
  {
  }

  /** Joining a first segment in front of others. */
  lemma JoinCons(x: string, rs: seq<string>)
    requires |rs| >= 1
    ensures Join([x] + rs) == x + "/" + Join(rs)
  {
    assert ([x] + rs)[1..] == rs;
  }

  /** Pattern 1 only ever writes `*` besides the characters it keeps. */
  lemma {:induction false} ReplaceIdsChars(s: string)
    ensures forall c :: c in ReplaceIds(s) ==> c in s || c == '*'
    decreases |s|
  {
    if s != [] {
      if s[0] == '/' && IdLen(s[1..]) > 0 {
        var k := IdLen(s[1..]);
        ReplaceIdsChars(s[1 + k..]);
        forall c | c in s[1 + k..] ensures c in s {
          var i :| 0 <= i < |s[1 + k..]| && s[1 + k..][i] == c;
          assert s[1 + k + i] == c;
        }
      } else {
        ReplaceIdsChars(s[1..]);
        forall c | c in s[1..] ensures c in s {
          var i :| 0 <= i < |s[1..]| && s[1..][i] == c;
          assert s[1 + i] == c;
        }
      }
    }
  }

  /** The output of pattern 1 is empty or starts with a `/` exactly when its input does. */
  lemma ReplaceIdsHead(b: string)
    requires b == [] || b[0] == '/'
    ensures ReplaceIds(b) == [] <==> b == []
    ensures b != [] ==> ReplaceIds(b)[0] == '/'
  {
    if b != [] {
      assert b == "/" + b[1..];
      ReplaceIdsSlash(b[1..]);
    }
  }

  /** Pattern 1 is idempotent: a wildcard is not an id, and the segments it
      leaves are still not ids. */
  lemma {:induction false} ReplaceIdsIdempotent(s: string)
    ensures ReplaceIds(ReplaceIds(s)) == ReplaceIds(s)
    decreases |s|
  {
    if s == [] {
    } else if s[0] == '/' && IdLen(s[1..]) > 0 {
      var rest := s[1 + IdLen(s[1..])..];
      ReplaceIdsIdempotent(rest);
      ReplaceIdsIdempotentAtId(s, rest);
    } else if s[0] != '/' {
      ReplaceIdsIdempotent(s[1..]);
      ReplaceIdsIdempotentAtChar(s, s[1..]);
    } else {
      ReplaceIdsIdempotent(s[1..]);
      ReplaceIdsIdempotentAtSegment(s, s[1..]);
    }
  }

  /** The step of `ReplaceIdsIdempotent` at an id: the wildcard it writes is kept by the second pass. */
  lemma ReplaceIdsIdempotentAtId(s: string, rest: string)
    requires |s| > 0 && s[0] == '/' && IdLen(s[1..]) > 0 && rest == s[1 + IdLen(s[1..])..]
    requires ReplaceIds(ReplaceIds(rest)) == ReplaceIds(rest)
    ensures ReplaceIds(ReplaceIds(s)) == ReplaceIds(s)
  {
    var x := ReplaceIds(rest);
    assert ReplaceIds(s) == "/*" + x;
    assert IdLen("*" + x) == 0 by {
      DigitRunIs("*" + x, 0);
    }
    ReplaceIdsSlash("*" + x);
    assert "/*" + x == "/" + ("*" + x);
    ReplaceIdsPrefix("*", x);
  }

  /** The step of `ReplaceIdsIdempotent` at a character other than `/`. */
  lemma ReplaceIdsIdempotentAtChar(s: string, t: string)
    requires |s| > 0 && s[0] != '/' && t == s[1..]
    requires ReplaceIds(ReplaceIds(t)) == ReplaceIds(t)
    ensures ReplaceIds(ReplaceIds(s)) == ReplaceIds(s)
  {
    assert ReplaceIds(s) == [s[0]] + ReplaceIds(t);
    ReplaceIdsPrefix([s[0]], ReplaceIds(t));
  }

  /** The step of `ReplaceIdsIdempotent` at a `/` before a segment that is
      not an id: the segment is copied by both passes. */
  lemma ReplaceIdsIdempotentAtSegment(s: string, t: string)
    requires |s| > 0 && s[0] == '/' && t == s[1..] && IdLen(t) == 0
    requires ReplaceIds(ReplaceIds(t)) == ReplaceIds(t)
    ensures ReplaceIds(ReplaceIds(s)) == ReplaceIds(s)
  {
    KeptSegmentStaysKept(t);
    SlashStep(s, t);
    var u := ReplaceIds(t);
    ReplaceIdsSlash(u);
  }

  /** Pattern 1 at a `/` that does not start an id. */
  lemma SlashStep(s: string, t: string)
    requires |s| > 0 && s[0] == '/' && t == s[1..] && IdLen(t) == 0
    ensures ReplaceIds(s) == "/" + ReplaceIds(t)
  {
  }

  /** A first segment that pattern 1 keeps is still kept on its output. */
  lemma KeptSegmentStaysKept(t: string)
    requires IdLen(t) == 0
    ensures IdLen(ReplaceIds(t)) == 0
  {
    var n := SegmentLength(t);
    FirstSegmentNoSlash(t);
    KeptSegmentSplit(t, t[..n], t[n..]);
  }

  /** `KeptSegmentStaysKept` with t split at its first `/`. */
  lemma KeptSegmentSplit(t: string, a: string, rest: string)
    requires '/' !in a && (rest == [] || rest[0] == '/') && t == a + rest
    requires IdLen(t) == 0
    ensures IdLen(ReplaceIds(t)) == 0
  {
    ReplaceIdsPrefix(a, rest);
    ReplaceIdsHead(rest);
    IdLenOfSegment(a, rest);
    IdLenOfSegment(a, ReplaceIds(rest));
  }

  // ---------------------------------------------------------------------
  // Lemmas about pattern 2
  // ---------------------------------------------------------------------

  /** `name.ext` at position p: a dot followed by word characters up to the end. */
  predicate HasExtension(s: string, p: nat) {
    p + 1 < |s| && s[p] == '.' && forall i :: p < i < |s| ==> IsWordChar(s[i])
  }

  /** Without a newline, every match runs to the very end of the string. */
  lemma MatchEndsAtEnd(s: string, p: nat)
    requires p <= |s| && '\n' !in s
    ensures SuffixMatch(s, p).Some? ==> SuffixMatch(s, p).value == |s|
  {
  }

  /** A path without `.` and `?` is left as it is. */
  lemma StripSuffixNoop(s: string)
    requires '.' !in s && '?' !in s
    ensures StripSuffix(s) == s
  {
  }

  /** Without a newline, a query string never survives. */
  lemma StripSuffixDropsQuery(s: string)
    requires '\n' !in s
    ensures '?' !in StripSuffix(s)
  {
    var r := LeftmostMatch(s, 0);
    forall q | 0 <= q < |s| && s[q] == '?' ensures SuffixMatch(s, q).Some? {
      QueryMatches(s, q);
    }
    if r.Some? {
      MatchEndsAtEnd(s, r.value);
      assert StripSuffix(s) == s[..r.value];
      NoQueryBefore(s, r.value);
    } else {
      NoQueryBefore(s, |s|);
      assert s[..|s|] == s;
    }
  }

  /** Without a newline, `\?.*$` matches at every `?`. */
  lemma QueryMatches(s: string, q: nat)
    requires '\n' !in s && q < |s| && s[q] == '?'
    ensures SuffixMatch(s, q).Some?
  {
    assert forall i :: 0 <= i < |s| ==> s[i] != '\n';
  }

  /** A prefix whose characters are not `?` holds no `?`. */
  lemma NoQueryBefore(s: string, p: nat)
    requires p <= |s| && forall j :: 0 <= j < p ==> s[j] != '?'
    ensures '?' !in s[..p]
  {
    forall c | c in s[..p] ensures c != '?' {
      var j :| 0 <= j < p && s[..p][j] == c;
    }
  }

  /** Without a newline or a query, a final `.ext` is dropped... */
  lemma StripSuffixExtension(s: string, p: nat)
    requires '\n' !in s && '?' !in s && HasExtension(s, p)
    ensures StripSuffix(s) == s[..p]
  {
    WordRunIs(s[p + 1..], |s| - p - 1);
    assert SuffixMatch(s, p) == Some(|s|);
    forall i | 0 <= i < p ensures SuffixMatch(s, i).None? {
    }
    assert LeftmostMatch(s, 0) == Some(p);
  }

  /** Without a newline or a query, the suffix pattern only matches a final `.ext`. */
  lemma MatchIsExtension(s: string, p: nat)
    requires '\n' !in s && '?' !in s
    requires p <= |s| && SuffixMatch(s, p).Some?
    ensures HasExtension(s, p)
  {
    assert forall i :: p < i < |s| ==> s[i] == s[p + 1..][i - p - 1];
  }

  /** ...and anything else is kept. */
  lemma StripSuffixNoExtension(s: string)
    requires '\n' !in s && '?' !in s
    requires forall p :: !HasExtension(s, p)
    ensures StripSuffix(s) == s
  {
    var r := LeftmostMatch(s, 0);
    if r.Some? {
      MatchIsExtension(s, r.value);
      assert false;
    }
  }

  // ---------------------------------------------------------------------
  // normalizeResource
  // ---------------------------------------------------------------------

  /** A key normalized from a path that does not start with `/` does not
      start with `/` either. */
  lemma NormalizeNoLeadingSlash(url: string)
    requires url == "" || url[0] != '/'
    ensures Normalize(url) == "" || Normalize(url)[0] != '/'
  {
    if url != "" {
      assert url == [url[0]] + url[1..];
      ReplaceIdsPrefix([url[0]], url[1..]);
    }
  }

  /** Appending text after a `/` does not change where pattern 1 matches
      at the start, as long as there is no newline to end the string early. */
  lemma IdLenAppend(t: string, b: string)
    requires '\n' !in t
    ensures IdLen(t + ("/" + b)) == IdLen(t)
  {
    var n := SegmentLength(t);
    var a := t[..n];
    assert t == a + t[n..];
    FirstSegmentNoSlash(t);
    assert t + ("/" + b) == a + (t[n..] + ("/" + b));
    IdLenOfSegment(a, t[n..]);
    IdLenOfSegment(a, t[n..] + ("/" + b));
    if |a| > 0 {
      assert a[|a| - 1] == t[|a| - 1];
    }
  }

  /** `(x + y)[m..]` for a cut inside x. */
  lemma DropAppend(x: string, y: string, m: nat)
    requires m <= |x|
    ensures (x + y)[m..] == x[m..] + y
  {
  }

  /** A last segment that is not an id is kept, and does not change how the
      text before it is rewritten. */
  lemma {:induction false} ReplaceIdsAppendSegment(k: string, b: string)
    requires '\n' !in k
    requires '/' !in b && !IsIdSegment(b) && !IsIdBeforeNewline(b)
    ensures ReplaceIds(k + ("/" + b)) == ReplaceIds(k) + ("/" + b)
    decreases |k|
  {
    if k == [] {
      assert k + ("/" + b) == "/" + b;
      ReplaceIdsLastSegment(b);
    } else if k[0] != '/' {
      DropAppend(k, "/" + b, 1);
      ReplaceIdsAppendSegment(k[1..], b);
      Assoc([k[0]], ReplaceIds(k[1..]), "/" + b);
    } else {
      var t := k[1..];
      IdLenAppend(t, b);
      DropAppend(k, "/" + b, 1);
      var m := IdLen(t);
      if m > 0 {
        DropAppend(t, "/" + b, m);
        ReplaceIdsAppendSegment(t[m..], b);
        Assoc("/*", ReplaceIds(t[m..]), "/" + b);
      } else {
        ReplaceIdsAppendSegment(t, b);
        Assoc("/", ReplaceIds(t), "/" + b);
      }
    }
  }

  /** A path of plain names none of which is an id is its own key. */
  lemma PlainPathKept(a: string, b: string)
    requires '\n' !in a && '.' !in a && '?' !in a && ReplaceIds(a) == a
    requires IsPlainName(b) && !IsIdSegment(b)
    ensures ReplaceIds(a + "/" + b) == a + "/" + b
    ensures Normalize(a + "/" + b) == a + "/" + b
  {
    ReplaceIdsAppendSegment(a, b);
    assert a + "/" + b == a + ("/" + b);
    StripSuffixNoop(a + "/" + b);
  }

  /** Normalizing twice gives the same key when the path has no `.` or `?`. */
  lemma NormalizeIdempotent(s: string)
    requires '.' !in s && '?' !in s
    ensures Normalize(Normalize(s)) == Normalize(s)
  {
    ReplaceIdsChars(s);
    var r := ReplaceIds(s);
    assert '.' !in r && '?' !in r;
    StripSuffixNoop(r);
    ReplaceIdsIdempotent(s);
    ReplaceIdsChars(r);
    StripSuffixNoop(ReplaceIds(r));
  }

  /** A plain name: no `/`, `.`, `?` or newline. */
  predicate IsPlainName(s: string) {
    '/' !in s && '.' !in s && '?' !in s && '\n' !in s
  }

  /** A name with an extension is not an id segment. */
  lemma ExtensionNotId(op: string, ext: string)
    requires '/' !in op && ext != [] && AllWord(ext)
    ensures var tail := op + "." + ext;
      '/' !in tail && !IsIdSegment(tail) && !IsIdBeforeNewline(tail)
  {
    var tail := op + "." + ext;
    assert tail[|op|] == '.';
    assert tail[|tail| - 1] == ext[|ext| - 1];
    assert '/' !in ext;
  }

  /** Pattern 1 on `name/id/tail`. */
  lemma ReplaceIdsIdInPath(name: string, id: string, tail: string)
    requires '/' !in name && IsIdSegment(id)
    requires '/' !in tail && !IsIdSegment(tail) && !IsIdBeforeNewline(tail)
    ensures ReplaceIds(name + "/" + id + "/" + tail) == name + "/*/" + tail
  {
    IdInPathSpelling(name, id, tail);
    IdSegmentNoSlash(id);
    ReplaceIdsPrefix(name, "/" + (id + ("/" + tail)));
    ReplaceIdsInnerSegment(id, tail);
    ReplaceIdsLastSegment(tail);
    assert RewriteSegment(id, false) == "*";
    assert RewriteSegment(tail, true) == tail;
    StarSpelling(name, tail);
  }

  /** The groupings of `name/id/tail` used above. */
  lemma IdInPathSpelling(name: string, id: string, tail: string)
    ensures name + "/" + id + "/" + tail == name + ("/" + (id + ("/" + tail)))
  {
  }

  /** The groupings of the rewritten path used above. */
  lemma StarSpelling(name: string, tail: string)
    ensures name + ("/" + "*" + ("/" + tail)) == name + "/*/" + tail
  {
  }

  /** An id segment has no `/`. */
  lemma IdSegmentNoSlash(id: string)
    requires IsIdSegment(id)
    ensures '/' !in id
  {
    forall i | 0 <= i < |id| ensures id[i] != '/' {
      if !AllDigits(id) && i > 0 {
        assert IsWordChar(id[1..][i - 1]);
      }
    }
  }

  /** Pattern 1 on `name/tail`. */
  lemma ReplaceIdsLastOnly(name: string, tail: string)
    requires '/' !in name
    requires '/' !in tail && !IsIdSegment(tail) && !IsIdBeforeNewline(tail)
    ensures ReplaceIds(name + "/" + tail) == name + "/" + tail
  {
    assert name + "/" + tail == name + ("/" + tail);
    ReplaceIdsPrefix(name, "/" + tail);
    ReplaceIdsLastSegment(tail);
  }

  /** Pattern 2 on `head.ext`. */
  lemma StripExtension(head: string, ext: string)
    requires '\n' !in head && '?' !in head
    requires ext != [] && AllWord(ext)
    ensures StripSuffix(head + "." + ext) == head
  {
    var r := head + "." + ext;
    assert r[|head| + 1..] == ext;
    assert '\n' !in ext && '?' !in ext;
    StripSuffixExtension(r, |head|);
    assert r[..|head|] == head;
  }

  /** An id between two segments becomes `*` and the extension is dropped:
      `name/id/op.ext` gives the key `name/` `*` `/op`. */
  lemma NormalizeIdInPath(name: string, id: string, op: string, ext: string)
    requires IsPlainName(name) && IsPlainName(op)
    requires IsIdSegment(id)
    requires ext != [] && AllWord(ext)
    ensures Normalize(name + "/" + id + "/" + op + "." + ext) == name + "/*/" + op
  {
    var tail := op + "." + ext;
    ExtensionNotId(op, ext);
    ReplaceIdsIdInPath(name, id, tail);
    assert name + "/" + id + "/" + op + "." + ext == name + "/" + id + "/" + tail;
    assert name + "/*/" + tail == (name + "/*/" + op) + "." + ext;
    StripExtension(name + "/*/" + op, ext);
  }

  /** The worked example: `statuses/12345/show.json` gives `statuses/` `*` `/show`. */
  lemma NormalizeExample(name: string, id: string, op: string, ext: string)
    requires name == "statuses" && id == "12345" && op == "show" && ext == "json"
    ensures Normalize(name + "/" + id + "/" + op + "." + ext) == name + "/*/" + op
  {
    assert !IsDigit(op[0]);
    NormalizeIdInPath(name, id, op, ext);
  }

  /** An extension hides the id in front of it... */
  lemma NormalizeIdWithExtension(name: string, id: string, ext: string)
    requires IsPlainName(name)
    requires id != [] && AllDigits(id)
    requires ext != [] && AllWord(ext)
    ensures Normalize(name + "/" + id + "." + ext) == name + "/" + id
  {
    ExtensionNotId(id, ext);
    ReplaceIdsLastOnly(name, id + "." + ext);
    assert name + "/" + (id + "." + ext) == name + "/" + id + "." + ext;
    StripExtension(name + "/" + id, ext);
  }

  /** ...which a second pass then finds: normalizing is not idempotent on
      such paths. */
  lemma NormalizeTrailingId(name: string, id: string)
    requires IsPlainName(name)
    requires id != [] && AllDigits(id)
    ensures Normalize(name + "/" + id) == name + "/*"
  {
    ReplaceIdsPrefix(name, "/" + id);
    ReplaceIdsLastSegment(id);
    assert name + "/" + id == name + ("/" + id);
    StripSuffixNoop(name + "/*");
  }

  /** Normalizing is not idempotent: `name/id.ext` gives `name/id`, which a
      second pass turns into `name/` `*` (for instance `statuses/12345.json`,
      then `statuses/12345`, then `statuses/` `*`). */
  lemma NormalizeNotIdempotent(name: string, id: string, ext: string)
    requires IsPlainName(name)
    requires id != [] && AllDigits(id)
    requires ext != [] && AllWord(ext)
    ensures Normalize(name + "/" + id + "." + ext) == name + "/" + id
    ensures Normalize(Normalize(name + "/" + id + "." + ext)) == name + "/*"
    ensures Normalize(Normalize(name + "/" + id + "." + ext)) != Normalize(name + "/" + id + "." + ext)
  {
    NormalizeIdWithExtension(name, id, ext);
    NormalizeTrailingId(name, id);
    assert (name + "/" + id)[|name| + 1] == id[0] != '*';
    assert (name + "/*")[|name| + 1] == '*';
  }

  // ---------------------------------------------------------------------
  // dirname
  // ---------------------------------------------------------------------

  /** Length of s without its trailing slashes. */
  function TrimmedLength(s: string): (n: nat)
    ensures n <= |s| && (n > 0 ==> s[n - 1] != '/')
  {
    if s == [] then 0
    else if s[|s| - 1] == '/' then TrimmedLength(s[..|s| - 1])
    else |s|
  }

  /** Only slashes are trimmed. */
  lemma {:induction false} TrimmedAreSlashes(s: string)
    ensures forall i :: TrimmedLength(s) <= i < |s| ==> s[i] == '/'
  {
    if s != [] && s[|s| - 1] == '/' {
      TrimmedAreSlashes(s[..|s| - 1]);
    }
  }

  /** Position of the last `/`, if any. */
  function LastSlash(s: string): (r: Option<nat>)
    ensures r.Some? ==> r.value < |s| && s[r.value] == '/'
  {
    if s == [] then None
    else if s[|s| - 1] == '/' then Some(|s| - 1)
    else LastSlash(s[..|s| - 1])
  }

  /** None exactly when there is no `/`; otherwise no `/` follows the one found. */
  lemma {:induction false} LastSlashIsLast(s: string)
    ensures LastSlash(s).None? ==> forall i :: 0 <= i < |s| ==> s[i] != '/'
    ensures LastSlash(s).Some? ==> forall i :: LastSlash(s).value < i < |s| ==> s[i] != '/'
  {
    if s != [] && s[|s| - 1] != '/' {
      LastSlashIsLast(s[..|s| - 1]);
    }
  }

  /** PHP's `dirname` on a Unix system: trailing slashes are dropped (a
      path of slashes only gives "/"), then the last name and the slashes
      before it; "." when no slash is left, "/" when only slashes were, and
      "" for "". */
  function Dirname(path: string): string
    decreases |path|
  {
    if path == "" then ""
    else if path[|path| - 1] == '/' then
      if |path| == 1 then "/" else Dirname(path[..|path| - 1])
    else match LastSlash(path)
      case None => "."
      case Some(i) =>
        var u := path[..i];
        var d := u[..TrimmedLength(u)];
        if d == "" then "/" else d
  }

  /** `a` is `b` cut just before one of its slashes: a strictly shorter,
      more general path. */
  predicate IsProperAncestor(a: string, b: string) {
    0 < |a| < |b| && a == b[..|a|] && b[|a|] == '/'
  }

  /** On a path that does not start with `/`, dirname is "." or a proper
      ancestor that does not start with `/` either. */
  lemma {:induction false} DirnameRelative(p: string)
    requires p != "" && p[0] != '/'
    ensures Dirname(p) == "." || (IsProperAncestor(Dirname(p), p) && Dirname(p)[0] != '/')
    decreases |p|
  {
    if p[|p| - 1] == '/' {
      var q := p[..|p| - 1];
      DirnameRelative(q);
      if Dirname(q) != "." {
        assert Dirname(q) == p[..|Dirname(q)|];
      }
    } else {
      match LastSlash(p)
      case None =>
      case Some(i) =>
        var u := p[..i];
        assert i > 0;
        TrimmedAreSlashes(u);
        var n := TrimmedLength(u);
        assert u[0] == p[0];
        assert n > 0;
        var d := u[..n];
        assert d == p[..n];
        if n < |u| {
          assert p[n] == u[n];
        }
    }
  }

  /** On a path that starts with `/`, dirname starts with `/` again: it never reaches ".". */
  lemma {:induction false} DirnameAbsolute(p: string)
    requires p != "" && p[0] == '/'
    ensures Dirname(p) != "" && Dirname(p)[0] == '/'
    decreases |p|
  {
    if p[|p| - 1] == '/' {
      if |p| > 1 {
        DirnameAbsolute(p[..|p| - 1]);
      }
    } else {
      LastSlashIsLast(p);
      var i := LastSlash(p).value;
      var u := p[..i];
      var d := u[..TrimmedLength(u)];
      if d != "" {
        assert d[0] == p[0];
      }
    }
  }

  /** On a path that starts with `/`, dirname is "/" or a proper ancestor:
      "/" is the only path that is its own dirname. */
  lemma {:induction false} DirnameAbsoluteAncestor(p: string)
    requires p != "" && p[0] == '/'
    ensures Dirname(p) == "/" || IsProperAncestor(Dirname(p), p)
    decreases |p|
  {
    if p[|p| - 1] == '/' {
      if |p| > 1 {
        var q := p[..|p| - 1];
        DirnameAbsoluteAncestor(q);
        if Dirname(q) != "/" {
          assert Dirname(q) == p[..|Dirname(q)|];
        }
      }
    } else {
      LastSlashIsLast(p);
      var i := LastSlash(p).value;
      var u := p[..i];
      TrimmedAreSlashes(u);
      var n := TrimmedLength(u);
      var d := u[..n];
      if d != "" {
        assert d == p[..n];
        if n < |u| {
          assert p[n] == u[n];
        }
      }
    }
  }

  /** `dirname("a/b")` is `a` when `b` is a plain name. */
  lemma DirnameChild(a: string, b: string)
    requires a != "" && a[|a| - 1] != '/'
    requires b != "" && forall i :: 0 <= i < |b| ==> b[i] != '/'
    ensures Dirname(a + "/" + b) == a
  {
    var p := a + "/" + b;
    assert p[|p| - 1] != '/' by { assert p[|p| - 1] == b[|b| - 1]; }
    LastSlashOfChild(a, b);
    Assoc(a, "/", b);
    PrefixOfAppend(a, "/" + b);
    TrimmedWhole(a);
  }

  /** The last `/` of `a/b`, when b has none, is the one just after a. */
  lemma LastSlashOfChild(a: string, b: string)
    requires forall i :: 0 <= i < |b| ==> b[i] != '/'
    ensures LastSlash(a + "/" + b) == Some(|a|)
  {
    LastSlashAppend(a + "/", b);
    assert (a + "/")[|a|] == '/';
  }

  /** Appending text without `/` does not move the last `/`. */
  lemma {:induction false} LastSlashAppend(c: string, b: string)
    requires forall i :: 0 <= i < |b| ==> b[i] != '/'
    ensures LastSlash(c + b) == LastSlash(c)
    decreases |b|
  {
    if b == [] {
      assert c + b == c;
    } else {
      var q := b[..|b| - 1];
      assert (c + b)[..|c + b| - 1] == c + q;
      assert (c + b)[|c + b| - 1] == b[|b| - 1];
      LastSlashAppend(c, q);
    }
  }

  /** Nothing is trimmed from a string that does not end with `/`. */
  lemma TrimmedWhole(a: string)
    requires a != "" && a[|a| - 1] != '/'
    ensures TrimmedLength(a) == |a| && a[..TrimmedLength(a)] == a
  {
  }

  /** The front part of a concatenation. */
  lemma PrefixOfAppend(a: string, b: string)
    ensures (a + b)[..|a|] == a
  {
  }

  /** `dirname` of a name without `/` is ".". */
  lemma DirnamePlain(s: string)
    requires s != "" && forall i :: 0 <= i < |s| ==> s[i] != '/'
    ensures Dirname(s) == "."
  {
  }

  /** dirname applied n times. */
  function DirnameIter(p: string, n: nat): string
    decreases n
  {
    if n == 0 then p else DirnameIter(Dirname(p), n - 1)
  }

  /** However often dirname is applied to a path that starts with `/`, the
      result is never "." (it ends at "/", which is its own dirname). */
  lemma {:induction false} AbsoluteNeverDot(p: string, n: nat)
    requires p != "" && p[0] == '/'
    decreases n
    ensures DirnameIter(p, n) != "" && DirnameIter(p, n)[0] == '/'
  {
    DirnameAbsolute(p);
    if n > 0 {
      AbsoluteNeverDot(Dirname(p), n - 1);
    }
  }

  /** `ltrim($s, '/')`. */
  function TrimLeadingSlashes(s: string): (r: string)
    ensures r == [] || r[0] != '/'
    ensures |r| <= |s| && r == s[|s| - |r|..]
    ensures forall i :: 0 <= i < |s| - |r| ==> s[i] == '/'
  {
    if s != [] && s[0] == '/' then TrimLeadingSlashes(s[1..]) else s
  }
}
