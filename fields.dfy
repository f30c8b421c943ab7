/** The optional-field extraction that every parser of database_builder.py repeats:
    search for a pattern, and when it matches turn group 1 into a word, an integer
    (`int(...)`) or a whitespace-split list (`[x.strip() for x in g.split()]`);
    otherwise leave the key out. */
module Fields {
  import opened Options
  import opened Scan
  import opened Patterns

  /** `s:STATE_(\w+)`, the state reference both history parsers look for. */
  const StateRefPattern := Tag("s:STATE_")

  /** The text of a match: what `re.findall` returns for a pattern without groups. */
  function MatchText(s: string, m: Match): (t: string)
    requires m.start <= m.end <= |s|
    ensures |t| == m.end - m.start
  {
    s[m.start..m.end]
  }

  /** `int(m.group(1))` of `m = re.search(p, s)` for a `key\s*=\s*(\d+)` pattern. */
  function FirstNumber(p: Pattern, s: string): Option<int>
    requires p.Assign? && p.lhs.Key? && p.rhs.Number?
  {
    match Search(p, s, 0)
    case None => None
    case Some(m) =>
      SearchLeftmost(p, s, 0);
      MatchGroupShapes(p, s, m.start);
      Some(DecimalValue(m.groups[0]))
  }

  /** `[x.strip() for x in m.group(1).split()]` of `m = re.search(p, s)` for a
      `key\s*=\s*{([^}]+)}` pattern. */
  function FirstTokens(p: Pattern, s: string): Option<seq<string>>
    requires p.Assign? && p.lhs.Key? && p.rhs.Braced? && p.rhs.capture
  {
    match Search(p, s, 0)
    case None => None
    case Some(m) => Some(StripEach(Split(m.groups[0])))
  }

  /** `m = re.search(p, s)` followed by `m.group(1)` when m matched. */
  method SearchGroup(p: Pattern, s: string) returns (r: Option<string>)
    requires GroupCount(p) >= 1
    ensures r == FirstGroup(p, s)
  {
    var m := Search(p, s, 0);
    r := None;
    if m.Some? {
      r := Some(m.value.groups[0]);
    }
  }

  /** `m = re.search(p, s)` followed by `int(m.group(1))` when m matched. */
  method SearchNumber(p: Pattern, s: string) returns (r: Option<int>)
    requires p.Assign? && p.lhs.Key? && p.rhs.Number?
    ensures r == FirstNumber(p, s)
  {
    var m := Search(p, s, 0);
    r := None;
    if m.Some? {
      SearchLeftmost(p, s, 0);
      MatchGroupShapes(p, s, m.value.start);
      r := Some(DecimalValue(m.value.groups[0]));
    }
  }

  /** `[x.strip() for x in parts]`, one element at a time. */
  method StripAll(parts: seq<string>) returns (stripped: seq<string>)
    ensures stripped == StripEach(parts)
  {
    stripped := [];
    for k := 0 to |parts|
      invariant |stripped| == k
      invariant forall j :: 0 <= j < k ==> stripped[j] == Strip(parts[j])
    {
      stripped := stripped + [Strip(parts[k])];
    }
  }

  /** `m = re.search(p, s)` followed by `[x.strip() for x in m.group(1).split()]`
      when m matched. */
  method SearchTokens(p: Pattern, s: string) returns (r: Option<seq<string>>)
    requires p.Assign? && p.lhs.Key? && p.rhs.Braced? && p.rhs.capture
    ensures r == FirstTokens(p, s)
  {
    var m := Search(p, s, 0);
    r := None;
    if m.Some? {
      var stripped := StripAll(Split(m.value.groups[0]));
      r := Some(stripped);
    }
  }

  // ---------------------------------------------------------------------------
  // What each kind of extracted field means

  /** v is what `m.group(1)` of `m = re.search(p, s)` must be: present exactly when
      p occurs somewhere in s, and then group 1 of the greedy fit at the first
      occurrence. */
  ghost predicate WordField(p: Pattern, s: string, v: Option<string>)
    requires GroupCount(p) >= 1
  {
    (v.Some? <==> exists i :: 0 <= i <= |s| && Occurs(p, s, i)) &&
    (v.Some? ==> exists i, c :: FirstOccurrence(p, s, i) && Fits(p, s, i, c) && Greedy(p, s, c) &&
                                v.value == Captures(p, s, i, c)[0])
  }

  /** v is what `int(m.group(1))` must be for a `key\s*=\s*(\d+)` pattern: present
      exactly when p occurs, and then the base-10 value of the greedy digit run of
      the first occurrence, never negative. */
  ghost predicate NumberField(p: Pattern, s: string, v: Option<int>)
    requires p.Assign? && p.rhs.Number?
  {
    (v.Some? <==> exists i :: 0 <= i <= |s| && Occurs(p, s, i)) &&
    (v.Some? ==> v.value >= 0 &&
                 exists i, c :: FirstOccurrence(p, s, i) && Fits(p, s, i, c) && Greedy(p, s, c) &&
                                IsNumeral(s[c.j..c.e]) && v.value == DecimalValue(s[c.j..c.e]))
  }

  /** ts is the whitespace split of the text between the `{` of the first
      occurrence of p and the first `}` after it: in order, and spelling that text
      without its whitespace. */
  ghost predicate SplitOfFirstBlock(p: Pattern, s: string, ts: seq<string>)
    requires p.Assign? && p.rhs.Braced?
  {
    exists i, c :: FirstOccurrence(p, s, i) && Fits(p, s, i, c) &&
                   ts == Split(s[c.j + 1..c.e - 1]) && Concat(ts) == NonSpaceChars(s[c.j + 1..c.e - 1])
  }

  /** No token is empty, holds whitespace or holds `}`. */
  predicate CleanTokens(ts: seq<string>) {
    forall k :: 0 <= k < |ts| ==> IsToken(ts[k]) && '}' !in ts[k]
  }

  /** v is what `[x.strip() for x in m.group(1).split()]` must be for a
      `key\s*=\s*{([^}]+)}` pattern: present exactly when p occurs, and then the
      clean split of the inside of the first occurrence's braces. */
  ghost predicate TokensField(p: Pattern, s: string, v: Option<seq<string>>)
    requires p.Assign? && p.rhs.Braced?
  {
    (v.Some? <==> exists i :: 0 <= i <= |s| && Occurs(p, s, i)) &&
    (v.Some? ==> SplitOfFirstBlock(p, s, v.value) && CleanTokens(v.value))
  }

  /** A word field holds a group of the shape its pattern allows. */
  lemma FirstWordMeaning(p: Pattern, s: string)
    requires WellFormed(p) && GroupCount(p) == 1
    ensures WordField(p, s, FirstGroup(p, s))
    ensures FirstGroup(p, s).Some? ==> GroupShapes(p, [FirstGroup(p, s).value])
  {
    FirstGroupMeaning(p, s);
    if Search(p, s, 0).Some? {
      var m := Search(p, s, 0).value;
      assert GroupShapes(p, m.groups) by {
        SearchLeftmost(p, s, 0);
        MatchGroupShapes(p, s, m.start);
      }
      assert m.groups == [FirstGroup(p, s).value];
    }
  }

  lemma FirstNumberMeaning(p: Pattern, s: string)
    requires p.Assign? && p.lhs.Key? && p.rhs.Number?
    ensures NumberField(p, s, FirstNumber(p, s))
  {
    assert FirstNumber(p, s).Some? <==> exists i :: 0 <= i <= |s| && Occurs(p, s, i) by {
      SearchMeaning(p, s);
    }
    if Search(p, s, 0).Some? {
      var m := Search(p, s, 0).value;
      var c := SearchFit(p, s);
      assert m.groups == [s[c.j..c.e]];
      assert IsNumeral(s[c.j..c.e]) by {
        SearchLeftmost(p, s, 0);
        MatchGroupShapes(p, s, m.start);
      }
      assert FirstNumber(p, s) == Some(DecimalValue(s[c.j..c.e]));
    }
  }

  lemma FirstTokensMeaning(p: Pattern, s: string)
    requires p.Assign? && p.lhs.Key? && p.rhs.Braced? && p.rhs.capture
    ensures TokensField(p, s, FirstTokens(p, s))
  {
    assert FirstTokens(p, s).Some? <==> exists i :: 0 <= i <= |s| && Occurs(p, s, i) by {
      SearchMeaning(p, s);
    }
    TokensText(p, s);
    TokensClean(p, s);
  }

  lemma TokensText(p: Pattern, s: string)
    requires p.Assign? && p.lhs.Key? && p.rhs.Braced? && p.rhs.capture
    ensures FirstTokens(p, s).Some? ==> SplitOfFirstBlock(p, s, FirstTokens(p, s).value)
  {
    var found := Search(p, s, 0);
    if found.Some? {
      var g := found.value.groups[0];
      StripEachSplit(g);
      SplitKeepsText(g);
      var c := TokensCut(p, s, found.value.start);
    }
  }

  lemma TokensClean(p: Pattern, s: string)
    requires p.Assign? && p.lhs.Key? && p.rhs.Braced? && p.rhs.capture
    ensures FirstTokens(p, s).Some? ==> CleanTokens(FirstTokens(p, s).value)
  {
    var found := Search(p, s, 0);
    if found.Some? {
      var g := found.value.groups[0];
      StripEachSplit(g);
      SearchLeftmost(p, s, 0);
      MatchGroupShapes(p, s, found.value.start);
      BraceFreeTokens(g);
    }
  }

  /** The cut points of the first occurrence of a brace pattern whose capture is g. */
  lemma TokensCut(p: Pattern, s: string, i: nat) returns (c: Cut)
    requires p.Assign? && p.lhs.Key? && p.rhs.Braced? && p.rhs.capture
    requires Search(p, s, 0).Some? && Search(p, s, 0).value.start == i
    ensures FirstOccurrence(p, s, i) && Fits(p, s, i, c)
    ensures Search(p, s, 0).value.groups == [s[c.j + 1..c.e - 1]]
  {
    c := SearchFit(p, s);
    BracedCapture(p, s, i, c);
  }

  /** Splitting text without `}` gives tokens without `}`. */
  lemma BraceFreeTokens(g: string)
    requires forall k :: 0 <= k < |g| ==> g[k] != '}'
    ensures forall k :: 0 <= k < |Split(g)| ==> '}' !in Split(g)[k]
  {
    forall k | 0 <= k < |Split(g)| ensures '}' !in Split(g)[k] {
      if '}' in Split(g)[k] {
        SplitTokenChars(g, k, '}');
        assert false;
      }
    }
  }

  // ---------------------------------------------------------------------------
  // re.findall results

  /** `re.findall(p, s)` for a pattern without groups: the text of each match. */
  function FindAllTexts(p: Pattern, s: string): (ts: seq<string>)
    ensures |ts| == |FindAll(p, s, 0)|
  {
    var ms := FindAll(p, s, 0);
    seq(|ms|, k requires 0 <= k < |ms| => MatchText(s, ms[k]))
  }

  /** `re.findall(p, s)` for a pattern with one group: group 1 of each match. */
  function FindAllGroups(p: Pattern, s: string): (gs: seq<string>)
    requires GroupCount(p) == 1
    ensures |gs| == |FindAll(p, s, 0)|
  {
    var ms := FindAll(p, s, 0);
    seq(|ms|, k requires 0 <= k < |ms| => ms[k].groups[0])
  }

  /** `re.findall(p, s)` for a pattern with two groups: the pair of groups of each
      match. */
  function FindAllPairs(p: Pattern, s: string): (ps: seq<(string, string)>)
    requires GroupCount(p) == 2
    ensures |ps| == |FindAll(p, s, 0)|
  {
    var ms := FindAll(p, s, 0);
    seq(|ms|, k requires 0 <= k < |ms| => (ms[k].groups[0], ms[k].groups[1]))
  }

  /** Every pair findall returns has the shape its pattern allows. */
  lemma FindAllPairsShaped(p: Pattern, s: string)
    requires GroupCount(p) == 2
    ensures forall k :: 0 <= k < |FindAllPairs(p, s)| ==>
              GroupShapes(p, [FindAllPairs(p, s)[k].0, FindAllPairs(p, s)[k].1])
  {
    var ms := FindAll(p, s, 0);
    FindAllShapes(p, s, 0);
    forall k | 0 <= k < |ms| ensures GroupShapes(p, [FindAllPairs(p, s)[k].0, FindAllPairs(p, s)[k].1]) {
      assert ms[k].groups == [ms[k].groups[0], ms[k].groups[1]];
    }
  }

  /** Every group findall returns has the shape its pattern allows. */
  lemma FindAllGroupsShaped(p: Pattern, s: string)
    requires GroupCount(p) == 1
    ensures forall k :: 0 <= k < |FindAllGroups(p, s)| ==> GroupShapes(p, [FindAllGroups(p, s)[k]])
  {
    var ms := FindAll(p, s, 0);
    FindAllShapes(p, s, 0);
    forall k | 0 <= k < |ms| ensures GroupShapes(p, [FindAllGroups(p, s)[k]]) {
      assert ms[k].groups == [ms[k].groups[0]];
    }
  }

  /** A text whose only `}` is its last character. */
  predicate ClosedBlock(t: string) {
    |t| > 0 && t[|t| - 1] == '}' && forall j :: 0 <= j < |t| - 1 ==> t[j] != '}'
  }

  /** A match of `key\s*=\s*{...}` starts with the key and is a closed block: it
      stops at the first `}` after its `{`. */
  lemma BracedMatchClosed(p: Pattern, s: string, i: nat)
    requires p.Assign? && p.lhs.Key? && p.rhs.Braced? && '}' !in p.lhs.name
    requires i <= |s| && MatchAt(p, s, i).Some?
    ensures LitAt(s, i, p.lhs.name)
    ensures ClosedBlock(s[i..MatchAt(p, s, i).value.end])
  {
    var c := ScannedCut(p, s, i);
    ScannedCutCaptures(p, s, i);
    var t := s[i..c.e];
    forall j | 0 <= j < |t| - 1 ensures t[j] != '}' {
      var x := i + j;
      if x < c.a {
        assert s[x] == p.lhs.name[x - i];
      } else if x < c.q {
        assert InClass(s[x], Space);
      } else if x == c.q {
      } else if x < c.j {
        assert InClass(s[x], Space);
      } else if x == c.j {
      } else {
        assert InClass(s[x], NotCloseBrace);
      }
    }
  }

  /** Every text findall returns for `key\s*=\s*{...}` begins with the key and ends
      with its only `}`. */
  lemma BracedTextsClosed(p: Pattern, s: string)
    requires p.Assign? && p.lhs.Key? && p.rhs.Braced? && '}' !in p.lhs.name
    ensures forall k :: 0 <= k < |FindAllTexts(p, s)| ==>
              ClosedBlock(FindAllTexts(p, s)[k]) && LitAt(FindAllTexts(p, s)[k], 0, p.lhs.name)
  {
    var ms := FindAll(p, s, 0);
    FindAllMatches(p, s, 0);
    forall k | 0 <= k < |ms|
      ensures ClosedBlock(FindAllTexts(p, s)[k]) && LitAt(FindAllTexts(p, s)[k], 0, p.lhs.name)
    {
      BracedMatchClosed(p, s, ms[k].start);
      assert FindAllTexts(p, s)[k] == s[ms[k].start..ms[k].end];
    }
  }

}
