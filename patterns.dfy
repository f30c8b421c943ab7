/** The fixed regular expressions of database_builder.py and Python's `re.search` /
    `re.findall` over them.

    Every pattern the source uses has one of two shapes: a literal prefix followed by
    a captured word (`STATE_(\w+)`, `s:STATE_(\w+)`), or an assignment
    `lhs\s*=\s*rhs`. A Pattern value names the shape and its literals; MatchAt is
    the scanner that decides whether the pattern matches at a position, taking every
    repetition greedily as Python's engine does. Occurs states the regex meaning
    without any scanning (some choice of cut points fits), and MatchAtMeaning proves
    the two agree. */
module Patterns {
  import opened Options
  import opened Scan

  /** Left-hand side of an assignment: a literal key (`id`, `traits`, ...) or a
      literal prefix followed by a captured `(\w+)` (`region_state:(\w+)`, `(\w+)`). */
  datatype Lhs = Key(name: string) | Named(prefix: string)

  /** Right-hand side of an assignment: `(\d+)`; a literal prefix and a word, where
      the capture drops the prefix (`c:(\w+)`) or keeps it (`(cu:\w+)`); or a
      brace block `{[^}]+}` / `{[^}]*}`, with or without a group around its inside. */
  datatype Rhs =
    | Number
    | Ident(prefix: string, keepPrefix: bool)
    | Braced(nonEmpty: bool, capture: bool)

  datatype Pattern = Tag(prefix: string) | Assign(lhs: Lhs, rhs: Rhs)

  /** A successful match: the text s[start..end] and the captured groups in order
      (group 1 of Python is groups[0]). */
  datatype Match = Match(start: nat, end: nat, groups: seq<string>)

  /** The cut points of a match of `lhs\s*=\s*rhs` starting at i: lhs spans
      s[i..a], the spaces s[a..q], the `=` is s[q], the spaces s[q+1..j] and rhs
      spans s[j..e]. A Tag match uses only e. */
  datatype Cut = Cut(a: nat, q: nat, j: nat, e: nat)

  /** Patterns whose scanner needs no backtracking: a right-hand prefix must not
      start with whitespace, or the `\s*` before it could give characters back. */
  predicate WellFormed(p: Pattern) {
    p.Assign? && p.rhs.Ident? && p.rhs.prefix != [] ==> !IsSpace(p.rhs.prefix[0])
  }

  function LhsGroups(lhs: Lhs): nat {
    if lhs.Named? then 1 else 0
  }

  function RhsGroups(rhs: Rhs): nat {
    match rhs
    case Number => 1
    case Ident(_, _) => 1
    case Braced(_, capture) => if capture then 1 else 0
  }

  function GroupCount(p: Pattern): nat {
    match p
    case Tag(_) => 1
    case Assign(lhs, rhs) => LhsGroups(lhs) + RhsGroups(rhs)
  }

  /** What a right-hand group can hold. */
  ghost predicate RhsGroupShape(rhs: Rhs, g: string) {
    match rhs
    case Number => IsNumeral(g)
    case Ident(pre, keep) =>
      if keep then |pre| <= |g| && g[..|pre|] == pre && IsWord(g[|pre|..]) else IsWord(g)
    case Braced(nonEmpty, _) =>
      (forall k :: 0 <= k < |g| ==> g[k] != '}') && (nonEmpty ==> g != [])
  }

  /** What the groups of any match of p can hold. */
  ghost predicate GroupShapes(p: Pattern, gs: seq<string>) {
    |gs| == GroupCount(p) &&
    match p
    case Tag(_) => IsWord(gs[0])
    case Assign(lhs, rhs) =>
      (lhs.Named? ==> IsWord(gs[0])) &&
      (RhsGroups(rhs) == 1 ==> RhsGroupShape(rhs, gs[|gs| - 1]))
  }

  // ---------------------------------------------------------------------------
  // The scanner

  /** `prefix(\w+)` at i: the end of the greedy word run after the prefix. */
  function WordEnd(s: string, i: nat, prefix: string): (r: Option<nat>)
    requires i <= |s|
    ensures r.Some? ==> i + |prefix| < r.value <= |s| && LitAt(s, i, prefix)
    ensures r.Some? ==> IsWord(s[i + |prefix|..r.value])
  {
    var w := i + |prefix|;
    if LitAt(s, i, prefix) && w < |s| && IsWordChar(s[w]) then Some(Span(s, w, Word)) else None
  }

  function LhsAt(lhs: Lhs, s: string, i: nat): (r: Option<(nat, seq<string>)>)
    requires i <= |s|
    ensures r.Some? ==> i <= r.value.0 <= |s| && |r.value.1| == LhsGroups(lhs)
  {
    match lhs
    case Key(k) => if LitAt(s, i, k) then Some((i + |k|, [])) else None
    case Named(pre) =>
      (match WordEnd(s, i, pre)
       case None => None
       case Some(e) => Some((e, [s[i + |pre|..e]])))
  }

  function RhsAt(rhs: Rhs, s: string, j: nat): (r: Option<(nat, seq<string>)>)
    requires j <= |s|
    ensures r.Some? ==> j < r.value.0 <= |s| && |r.value.1| == RhsGroups(rhs)
  {
    match rhs
    case Number =>
      if j < |s| && IsDigit(s[j]) then
        var e := Span(s, j, Digit);
        Some((e, [s[j..e]]))
      else None
    case Ident(pre, keep) =>
      (match WordEnd(s, j, pre)
       case None => None
       case Some(e) => Some((e, [if keep then s[j..e] else s[j + |pre|..e]])))
    case Braced(nonEmpty, capture) =>
      if j < |s| && s[j] == '{' then
        var c := Span(s, j + 1, NotCloseBrace);
        if c < |s| && (nonEmpty ==> c > j + 1) then
          Some((c + 1, if capture then [s[j + 1..c]] else []))
        else None
      else None
  }

  /** The match of p that starts exactly at i, if any (Python's `pattern.match(s, i)`). */
  function MatchAt(p: Pattern, s: string, i: nat): (r: Option<Match>)
    requires i <= |s|
    ensures r.Some? ==> r.value.start == i < r.value.end <= |s|
    ensures r.Some? ==> |r.value.groups| == GroupCount(p)
  {
    match p
    case Tag(pre) =>
      (match WordEnd(s, i, pre)
       case None => None
       case Some(e) => Some(Match(i, e, [s[i + |pre|..e]])))
    case Assign(lhs, rhs) =>
      match LhsAt(lhs, s, i)
      case None => None
      case Some(l) =>
        var q := Span(s, l.0, Space);
        if q < |s| && s[q] == '=' then
          match RhsAt(rhs, s, Span(s, q + 1, Space))
          case None => None
          case Some(r) => Some(Match(i, r.0, l.1 + r.1))
        else None
  }

  // ---------------------------------------------------------------------------
  // What the patterns mean, without scanning

  ghost predicate WordSpans(s: string, i: nat, prefix: string, e: nat) {
    LitAt(s, i, prefix) && i + |prefix| < e && AllIn(s, i + |prefix|, e, Word)
  }

  ghost predicate LhsSpans(lhs: Lhs, s: string, i: nat, a: nat) {
    match lhs
    case Key(k) => a == i + |k| && LitAt(s, i, k)
    case Named(pre) => WordSpans(s, i, pre, a)
  }

  ghost predicate RhsSpans(rhs: Rhs, s: string, j: nat, e: nat) {
    match rhs
    case Number => j < e && AllIn(s, j, e, Digit)
    case Ident(pre, _) => WordSpans(s, j, pre, e)
    case Braced(nonEmpty, _) =>
      j + 1 < e <= |s| && s[j] == '{' && s[e - 1] == '}' &&
      AllIn(s, j + 1, e - 1, NotCloseBrace) && (nonEmpty ==> j + 2 < e)
  }

  /** The regular expression p matches s[i..c.e], split at the cut points c. */
  ghost predicate Fits(p: Pattern, s: string, i: nat, c: Cut) {
    match p
    case Tag(pre) => WordSpans(s, i, pre, c.e)
    case Assign(lhs, rhs) =>
      LhsSpans(lhs, s, i, c.a) && AllIn(s, c.a, c.q, Space) && c.q < |s| && s[c.q] == '=' &&
      AllIn(s, c.q + 1, c.j, Space) && RhsSpans(rhs, s, c.j, c.e)
  }

  /** The last repetition of the fit cannot be extended: Python's greedy choice.
      (The other repetitions of a fit are maximal already.) */
  ghost predicate Greedy(p: Pattern, s: string, c: Cut) {
    match p
    case Tag(_) => c.e < |s| ==> !IsWordChar(s[c.e])
    case Assign(_, rhs) =>
      (match rhs
       case Number => c.e < |s| ==> !IsDigit(s[c.e])
       case Ident(_, _) => c.e < |s| ==> !IsWordChar(s[c.e])
       case Braced(_, _) => true)
  }

  /** The groups a fit captures. */
  ghost function Captures(p: Pattern, s: string, i: nat, c: Cut): (gs: seq<string>)
    requires Fits(p, s, i, c)
    ensures |gs| == GroupCount(p)
  {
    match p
    case Tag(pre) => [s[i + |pre|..c.e]]
    case Assign(lhs, rhs) =>
      (if lhs.Named? then [s[i + |lhs.prefix|..c.a]] else []) +
      (match rhs
       case Number => [s[c.j..c.e]]
       case Ident(pre, keep) => [if keep then s[c.j..c.e] else s[c.j + |pre|..c.e]]
       case Braced(_, capture) => if capture then [s[c.j + 1..c.e - 1]] else [])
  }

  /** The regular expression p matches at position i of s. */
  ghost predicate Occurs(p: Pattern, s: string, i: nat) {
    exists c :: Fits(p, s, i, c)
  }

  /** i is the leftmost position where p matches: the one `re.search` reports. */
  ghost predicate FirstOccurrence(p: Pattern, s: string, i: nat) {
    i <= |s| && Occurs(p, s, i) && forall k :: 0 <= k < i ==> !Occurs(p, s, k)
  }

  // ---------------------------------------------------------------------------
  // The scanner agrees with the meaning

  lemma LhsComplete(lhs: Lhs, s: string, i: nat, c: Cut)
    requires i <= |s|
    requires LhsSpans(lhs, s, i, c.a) && AllIn(s, c.a, c.q, Space) && c.q < |s| && s[c.q] == '='
    ensures LhsAt(lhs, s, i).Some? && LhsAt(lhs, s, i).value.0 == c.a
  {
    if lhs.Named? {
      var w := i + |lhs.prefix|;
      assert c.a == |s| || !IsWordChar(s[c.a]) by {
        if c.a < c.q { assert IsSpace(s[c.a]); }
      }
      SpanAt(s, w, Word, c.a);
    }
  }

  lemma RhsComplete(rhs: Rhs, s: string, j: nat, e: nat)
    requires j <= |s| && RhsSpans(rhs, s, j, e)
    ensures RhsAt(rhs, s, j).Some?
  {
    if rhs.Braced? {
      SpanAt(s, j + 1, NotCloseBrace, e - 1);
    }
  }

  /** The first character of any right-hand side of a well-formed pattern is not
      whitespace, so the greedy `\s*` before it stops exactly there. */
  lemma RhsStartsSolid(p: Pattern, s: string, j: nat, e: nat)
    requires WellFormed(p) && p.Assign? && RhsSpans(p.rhs, s, j, e)
    ensures j < |s| && !IsSpace(s[j])
  {
    match p.rhs
    case Number =>
      assert IsDigit(s[j]);
    case Ident(pre, _) =>
      if pre != [] {
        assert s[j..j + |pre|][0] == pre[0];
      } else {
        assert IsWordChar(s[j]);
      }
    case Braced(_, _) =>
  }

  /** The cut points the scanner chose for its match at i. */
  ghost function ScannedCut(p: Pattern, s: string, i: nat): Cut
    requires i <= |s| && MatchAt(p, s, i).Some?
  {
    match p
    case Tag(_) => Cut(i, i, i, MatchAt(p, s, i).value.end)
    case Assign(lhs, _) =>
      var a := LhsAt(lhs, s, i).value.0;
      var q := Span(s, a, Space);
      Cut(a, q, Span(s, q + 1, Space), MatchAt(p, s, i).value.end)
  }

  lemma ScannedCutFits(p: Pattern, s: string, i: nat)
    requires i <= |s| && MatchAt(p, s, i).Some?
    ensures Fits(p, s, i, ScannedCut(p, s, i))
  {
    var c := ScannedCut(p, s, i);
    if p.Assign? {
      assert LhsSpans(p.lhs, s, i, c.a);
      if p.rhs.Braced? {
        var b := Span(s, c.j + 1, NotCloseBrace);
        assert !InClass(s[b], NotCloseBrace);
      }
      assert RhsSpans(p.rhs, s, c.j, c.e);
    }
  }

  lemma ScannedCutGreedy(p: Pattern, s: string, i: nat)
    requires i <= |s| && MatchAt(p, s, i).Some?
    ensures Greedy(p, s, ScannedCut(p, s, i))
  {
  }

  lemma ScannedCutCaptures(p: Pattern, s: string, i: nat)
    requires i <= |s| && MatchAt(p, s, i).Some?
    ensures Fits(p, s, i, ScannedCut(p, s, i))
    ensures MatchAt(p, s, i).value == Match(i, ScannedCut(p, s, i).e, Captures(p, s, i, ScannedCut(p, s, i)))
  {
    ScannedCutFits(p, s, i);
  }

  /** The one group of `key\s*=\s*{([^}]*)}` is the inside of the braces. */
  lemma BracedCapture(p: Pattern, s: string, i: nat, c: Cut)
    requires p.Assign? && p.lhs.Key? && p.rhs.Braced? && p.rhs.capture && Fits(p, s, i, c)
    ensures Captures(p, s, i, c) == [s[c.j + 1..c.e - 1]]
  {
    assert Captures(p, s, i, c) == [] + [s[c.j + 1..c.e - 1]];
  }

  /** The groups the scanner returns at i are those of a greedy fit at i. */
  lemma MatchAtSound(p: Pattern, s: string, i: nat)
    requires i <= |s| && MatchAt(p, s, i).Some?
    ensures exists c :: Fits(p, s, i, c) && Greedy(p, s, c) &&
                        MatchAt(p, s, i).value == Match(i, c.e, Captures(p, s, i, c))
  {
    var c := ScannedCut(p, s, i);
    ScannedCutCaptures(p, s, i);
    ScannedCutGreedy(p, s, i);
  }

  /** Completeness: wherever the regular expression can match, the scanner matches. */
  lemma MatchAtComplete(p: Pattern, s: string, i: nat, c: Cut)
    requires WellFormed(p) && i <= |s| && Fits(p, s, i, c)
    ensures MatchAt(p, s, i).Some?
  {
    match p
    case Tag(pre) =>
      assert IsWordChar(s[i + |pre|]);
    case Assign(lhs, rhs) =>
      var l := LhsAt(lhs, s, i);
      assert l.Some? && l.value.0 == c.a by {
        LhsComplete(lhs, s, i, c);
      }
      assert Span(s, c.a, Space) == c.q by {
        SpanAt(s, c.a, Space, c.q);
      }
      assert Span(s, c.q + 1, Space) == c.j by {
        RhsStartsSolid(p, s, c.j, c.e);
        SpanAt(s, c.q + 1, Space, c.j);
      }
      assert RhsAt(rhs, s, c.j).Some? by {
        RhsComplete(rhs, s, c.j, c.e);
      }
  }

  /** The scanner decides exactly the regular expression's matches, and what it
      captures is what the greedy fit captures. */
  lemma MatchAtMeaning(p: Pattern, s: string, i: nat)
    requires WellFormed(p) && i <= |s|
    ensures MatchAt(p, s, i).Some? <==> Occurs(p, s, i)
    ensures MatchAt(p, s, i).Some? ==>
              exists c :: Fits(p, s, i, c) && Greedy(p, s, c) &&
                          MatchAt(p, s, i).value == Match(i, c.e, Captures(p, s, i, c))
  {
    if MatchAt(p, s, i).Some? {
      MatchAtSound(p, s, i);
    } else if Occurs(p, s, i) {
      var c :| Fits(p, s, i, c);
      MatchAtComplete(p, s, i, c);
    }
  }

  /** Every group of a match has the shape its part of the pattern allows. */
  lemma MatchGroupShapes(p: Pattern, s: string, i: nat)
    requires i <= |s| && MatchAt(p, s, i).Some?
    ensures GroupShapes(p, MatchAt(p, s, i).value.groups)
  {
    var c := ScannedCut(p, s, i);
    ScannedCutCaptures(p, s, i);
    if p.Assign? && RhsGroups(p.rhs) == 1 {
      RhsCaptureShape(p, s, i, c);
    }
  }

  lemma RhsCaptureShape(p: Pattern, s: string, i: nat, c: Cut)
    requires p.Assign? && RhsGroups(p.rhs) == 1 && Fits(p, s, i, c)
    ensures RhsGroupShape(p.rhs, Captures(p, s, i, c)[GroupCount(p) - 1])
  {
    var g := Captures(p, s, i, c)[GroupCount(p) - 1];
    match p.rhs
    case Number =>
      assert g == s[c.j..c.e];
    case Ident(pre, keep) =>
      if keep {
        assert g == s[c.j..c.e];
        assert g[..|pre|] == s[c.j..c.j + |pre|];
        assert g[|pre|..] == s[c.j + |pre|..c.e];
      } else {
        assert g == s[c.j + |pre|..c.e];
      }
    case Braced(_, _) =>
      assert g == s[c.j + 1..c.e - 1];
      forall k | 0 <= k < |g| ensures g[k] != '}' {
        assert g[k] == s[c.j + 1 + k];
      }
  }

  // ---------------------------------------------------------------------------
  // re.search and re.findall

  /** No match of p starts at or after `from`. */
  ghost predicate NoMatchFrom(p: Pattern, s: string, from: nat) {
    forall i :: from <= i <= |s| ==> MatchAt(p, s, i).None?
  }

  /** m is the match of p that starts leftmost at or after `from`. */
  ghost predicate Leftmost(p: Pattern, s: string, from: nat, m: Match) {
    from <= m.start <= |s| && MatchAt(p, s, m.start) == Some(m) &&
    forall i :: from <= i < m.start ==> MatchAt(p, s, i).None?
  }

  /** `re.search(p, s[from:])`: try every start position from left to right.
      SearchLeftmost states which match it finds. */
  function Search(p: Pattern, s: string, from: nat): (r: Option<Match>)
    requires from <= |s|
    ensures r.Some? ==> from <= r.value.start < r.value.end <= |s| && |r.value.groups| == GroupCount(p)
    decreases |s| - from
  {
    var m := MatchAt(p, s, from);
    if m.Some? then m else if from == |s| then None else Search(p, s, from + 1)
  }

  /** Search finds the leftmost match at or after `from`, and finds none only when
      no match starts there or later. */
  lemma {:induction false} SearchLeftmost(p: Pattern, s: string, from: nat)
    requires from <= |s|
    ensures Search(p, s, from).None? ==> NoMatchFrom(p, s, from)
    ensures Search(p, s, from).Some? ==> Leftmost(p, s, from, Search(p, s, from).value)
    decreases |s| - from
  {
    var r := Search(p, s, from);
    if MatchAt(p, s, from).Some? {
      assert r == MatchAt(p, s, from);
    } else if from < |s| {
      SearchLeftmost(p, s, from + 1);
      assert r == Search(p, s, from + 1);
      if r.Some? {
        forall i | from <= i < r.value.start ensures MatchAt(p, s, i).None? {
          if i > from {
            assert from + 1 <= i < r.value.start;
          }
        }
      } else {
        forall i | from <= i <= |s| ensures MatchAt(p, s, i).None? {
          if i > from {
            assert from + 1 <= i <= |s|;
          }
        }
      }
    }
  }

  /** ms is what a left-to-right scan from `from` finds: each match is the leftmost
      one that starts where the previous one ended, and no match starts after the
      last one. */
  ghost predicate IsScan(p: Pattern, s: string, from: nat, ms: seq<Match>)
    decreases |ms|
  {
    if ms == [] then NoMatchFrom(p, s, from)
    else Leftmost(p, s, from, ms[0]) && IsScan(p, s, ms[0].end, ms[1..])
  }

  /** `re.findall(p, s)`: the non-overlapping matches from left to right, each search
      resuming at the end of the previous match. FindAllIsScan states that they are
      the scan's matches. */
  function FindAll(p: Pattern, s: string, from: nat): (r: seq<Match>)
    requires from <= |s|
    ensures forall k :: 0 <= k < |r| ==>
              from <= r[k].start < r[k].end <= |s| && |r[k].groups| == GroupCount(p)
    decreases |s| - from
  {
    match Search(p, s, from)
    case None => []
    case Some(m) => [m] + FindAll(p, s, m.end)
  }

  /** FindAll returns exactly the matches of the left-to-right scan. */
  lemma {:induction false} FindAllIsScan(p: Pattern, s: string, from: nat)
    requires from <= |s|
    ensures IsScan(p, s, from, FindAll(p, s, from))
    decreases |s| - from
  {
    SearchLeftmost(p, s, from);
    var found := Search(p, s, from);
    if found.Some? {
      FindAllIsScan(p, s, found.value.end);
      assert FindAll(p, s, from)[1..] == FindAll(p, s, found.value.end);
    }
  }

  /** Each match FindAll returns is the one the scanner finds at its start. */
  lemma {:induction false} FindAllMatches(p: Pattern, s: string, from: nat)
    requires from <= |s|
    ensures forall k :: 0 <= k < |FindAll(p, s, from)| ==>
              MatchAt(p, s, FindAll(p, s, from)[k].start) == Some(FindAll(p, s, from)[k])
    decreases |s| - from
  {
    SearchLeftmost(p, s, from);
    var found := Search(p, s, from);
    if found.Some? {
      FindAllMatches(p, s, found.value.end);
      var ms := FindAll(p, s, from);
      assert ms[1..] == FindAll(p, s, found.value.end);
      forall k | 0 <= k < |ms| ensures MatchAt(p, s, ms[k].start) == Some(ms[k]) {
        if k > 0 {
          assert ms[k] == ms[1..][k - 1];
        }
      }
    }
  }

  lemma LeftmostUnique(p: Pattern, s: string, from: nat, m1: Match, m2: Match)
    requires Leftmost(p, s, from, m1) && Leftmost(p, s, from, m2)
    ensures m1 == m2
  {
  }

  /** The left-to-right scan has exactly one outcome, and FindAll computes it. */
  lemma {:induction false} ScanIsFindAll(p: Pattern, s: string, from: nat, ms: seq<Match>)
    requires from <= |s| && IsScan(p, s, from, ms)
    ensures ms == FindAll(p, s, from)
    decreases |s| - from
  {
    SearchLeftmost(p, s, from);
    var found := Search(p, s, from);
    if ms == [] {
    } else {
      LeftmostUnique(p, s, from, ms[0], found.value);
      ScanIsFindAll(p, s, ms[0].end, ms[1..]);
    }
  }

  /** The groups of every match FindAll returns have their pattern's shapes. */
  lemma FindAllShapes(p: Pattern, s: string, from: nat)
    requires from <= |s|
    ensures forall k :: 0 <= k < |FindAll(p, s, from)| ==>
              GroupShapes(p, FindAll(p, s, from)[k].groups)
  {
    var ms := FindAll(p, s, from);
    FindAllMatches(p, s, from);
    forall k | 0 <= k < |ms| ensures GroupShapes(p, ms[k].groups) {
      MatchGroupShapes(p, s, ms[k].start);
    }
  }

  /** A pattern ending in a brace block can never match text without a `}`. */
  lemma NoCloseBraceNoMatch(p: Pattern, s: string, from: nat)
    requires p.Assign? && p.rhs.Braced? && from <= |s|
    requires forall k :: 0 <= k < |s| ==> s[k] != '}'
    ensures FindAll(p, s, from) == []
  {
    SearchLeftmost(p, s, from);
    var found := Search(p, s, from);
    if found.Some? {
      ScannedCutFits(p, s, found.value.start);
      assert false;
    }
  }

  // ---------------------------------------------------------------------------
  // re.search as the source uses it

  /** The leftmost match of p in s exists exactly when p occurs somewhere in s, and
      it starts at the first occurrence. */
  lemma SearchMeaning(p: Pattern, s: string)
    requires WellFormed(p)
    ensures Search(p, s, 0).Some? <==> exists i :: 0 <= i <= |s| && Occurs(p, s, i)
    ensures Search(p, s, 0).Some? ==> FirstOccurrence(p, s, Search(p, s, 0).value.start)
  {
    SearchLeftmost(p, s, 0);
    var found := Search(p, s, 0);
    if found.Some? {
      var i := found.value.start;
      MatchAtMeaning(p, s, i);
      forall k | 0 <= k < i ensures !Occurs(p, s, k) {
        MatchAtMeaning(p, s, k);
      }
    } else {
      forall i | 0 <= i <= |s| ensures !Occurs(p, s, i) {
        MatchAtMeaning(p, s, i);
      }
    }
  }

  /** The match `re.search` reports is a greedy fit at the first occurrence, and its
      groups are what that fit captures. */
  lemma SearchFit(p: Pattern, s: string) returns (c: Cut)
    requires WellFormed(p) && Search(p, s, 0).Some?
    ensures FirstOccurrence(p, s, Search(p, s, 0).value.start)
    ensures Fits(p, s, Search(p, s, 0).value.start, c) && Greedy(p, s, c)
    ensures Search(p, s, 0).value.groups == Captures(p, s, Search(p, s, 0).value.start, c)
  {
    var m := Search(p, s, 0).value;
    assert FirstOccurrence(p, s, m.start) by {
      SearchMeaning(p, s);
    }
    assert MatchAt(p, s, m.start) == Some(m) by {
      SearchLeftmost(p, s, 0);
    }
    c := ScannedCut(p, s, m.start);
    assert Fits(p, s, m.start, c) && m.groups == Captures(p, s, m.start, c) by {
      ScannedCutCaptures(p, s, m.start);
    }
    assert Greedy(p, s, c) by {
      ScannedCutGreedy(p, s, m.start);
    }
  }

  /** `m.group(1)` of `m = re.search(p, s)`, or None when nothing matched. */
  function FirstGroup(p: Pattern, s: string): Option<string>
    requires GroupCount(p) >= 1
  {
    match Search(p, s, 0)
    case None => None
    case Some(m) => Some(m.groups[0])
  }

  /** FirstGroup is present exactly when p occurs, and then holds group 1 of the
      greedy fit at the first occurrence. */
  lemma FirstGroupMeaning(p: Pattern, s: string)
    requires WellFormed(p) && GroupCount(p) >= 1
    ensures FirstGroup(p, s).Some? <==> exists i :: 0 <= i <= |s| && Occurs(p, s, i)
    ensures FirstGroup(p, s).Some? ==>
              exists i, c :: FirstOccurrence(p, s, i) && Fits(p, s, i, c) && Greedy(p, s, c) &&
                             FirstGroup(p, s).value == Captures(p, s, i, c)[0]
  {
    assert FirstGroup(p, s).Some? <==> exists i :: 0 <= i <= |s| && Occurs(p, s, i) by {
      SearchMeaning(p, s);
    }
    if Search(p, s, 0).Some? {
      var m := Search(p, s, 0).value;
      var c := SearchFit(p, s);
      assert FirstGroup(p, s).value == Captures(p, s, m.start, c)[0];
    }
  }

}
