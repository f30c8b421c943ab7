/** Character-level scanning primitives shared by the pattern matchers: the ASCII
    character classes behind `\s`, `\w`, `\d` and `[^}]`, maximal runs of a class,
    literal matching, base-10 numerals (`int(...)` on a digit run), and the
    whitespace `split()` / `strip()` of Python strings. */
module Scan {

  /** Whitespace as Python's `\s` and `str.isspace()` see it within ASCII: tab, line
      feed, vertical tab, form feed, carriage return (9..13), the separators 28..31
      and the space (32). */
  predicate IsSpace(c: char) {
    var n := c as int;
    (9 <= n <= 13) || (28 <= n <= 32)
  }

  predicate IsDigit(c: char) {
    '0' <= c <= '9'
  }

  /** `\w` within ASCII: letters, digits and the underscore. */
  predicate IsWordChar(c: char) {
    ('a' <= c <= 'z') || ('A' <= c <= 'Z') || IsDigit(c) || c == '_'
  }

  /** The character classes the source's patterns repeat: `\s`, `\S`, `\w`, `\d`, `[^}]`. */
  datatype CharClass = Space | NonSpace | Word | Digit | NotCloseBrace

  predicate InClass(c: char, k: CharClass) {
    match k
    case Space => IsSpace(c)
    case NonSpace => !IsSpace(c)
    case Word => IsWordChar(c)
    case Digit => IsDigit(c)
    case NotCloseBrace => c != '}'
  }

  /** Every character of s[lo..hi] is of class k. */
  predicate AllIn(s: string, lo: nat, hi: nat, k: CharClass) {
    lo <= hi <= |s| && forall j :: lo <= j < hi ==> InClass(s[j], k)
  }

  /** The end of the longest run of class-k characters that starts at i: what a
      greedy `\s*`, `\w+`, `\d+` or `[^}]*` reaches from i. */
  function Span(s: string, i: nat, k: CharClass): (e: nat)
    requires i <= |s|
    ensures i <= e <= |s|
    ensures AllIn(s, i, e, k)
    ensures e == |s| || !InClass(s[e], k)
    decreases |s| - i
  {
    if i < |s| && InClass(s[i], k) then Span(s, i + 1, k) else i
  }

  /** A run that is all of class k and cannot be extended is the one Span finds. */
  lemma SpanAt(s: string, i: nat, k: CharClass, e: nat)
    requires i <= e && AllIn(s, i, e, k)
    requires e == |s| || !InClass(s[e], k)
    ensures Span(s, i, k) == e
  {
  }

  /** The literal `lit` occurs in s at position i. */
  predicate LitAt(s: string, i: nat, lit: string) {
    i + |lit| <= |s| && s[i..i + |lit|] == lit
  }

  /** A non-empty run of word characters: what `(\w+)` captures. */
  predicate IsWord(t: string) {
    |t| > 0 && forall j :: 0 <= j < |t| ==> IsWordChar(t[j])
  }

  predicate AllDigits(t: string) {
    forall j :: 0 <= j < |t| ==> IsDigit(t[j])
  }

  /** A non-empty run of digits: what `(\d+)` captures. */
  predicate IsNumeral(t: string) {
    |t| > 0 && AllDigits(t)
  }

  /** A non-empty string without whitespace: an element of `split()`'s result. */
  predicate IsToken(t: string) {
    |t| > 0 && forall j :: 0 <= j < |t| ==> !IsSpace(t[j])
  }

  // ---------------------------------------------------------------------------
  // Base-10 numerals

  function DigitValue(c: char): (v: nat)
    requires IsDigit(c)
    ensures v < 10
  {
    c as int - '0' as int
  }

  function DigitChar(v: nat): (c: char)
    requires v < 10
    ensures IsDigit(c) && DigitValue(c) == v
  {
    ('0' as int + v) as char
  }

  /** The value of a digit string read in base 10, as `int(...)` reads the digit runs
      the patterns capture (leading zeros allowed). */
  function DecimalValue(d: string): nat
    requires AllDigits(d)
  {
    if d == [] then 0 else 10 * DecimalValue(d[..|d| - 1]) + DigitValue(d[|d| - 1])
  }

  /** The canonical base-10 spelling of n: the reference encoder DecimalValue inverts. */
  function DecimalString(n: nat): (d: string)
    ensures IsNumeral(d)
    ensures |d| > 1 ==> d[0] != '0'
  {
    if n < 10 then [DigitChar(n)] else DecimalString(n / 10) + [DigitChar(n % 10)]
  }

  lemma {:induction false} DecimalRoundTrip(n: nat)
    ensures DecimalValue(DecimalString(n)) == n
  {
    var d := DecimalString(n);
    if n < 10 {
      assert d[..|d| - 1] == [];
    } else {
      assert d[..|d| - 1] == DecimalString(n / 10);
      DecimalRoundTrip(n / 10);
    }
  }

  /** A leading zero does not change the value (`int("007") == 7`). */
  lemma {:induction false} LeadingZeroIgnored(d: string)
    requires AllDigits(d)
    ensures AllDigits("0" + d) && DecimalValue("0" + d) == DecimalValue(d)
  {
    var z := "0" + d;
    assert AllDigits(z) by {
      forall j | 0 <= j < |z| ensures IsDigit(z[j]) {
        if j > 0 { assert z[j] == d[j - 1]; }
      }
    }
    if d == [] {
      assert z[..|z| - 1] == [];
    } else {
      assert z[..|z| - 1] == "0" + d[..|d| - 1];
      LeadingZeroIgnored(d[..|d| - 1]);
    }
  }

  // ---------------------------------------------------------------------------
  // str.split() and str.strip()

  /** Python's `s.split()`: the maximal runs of non-whitespace, in order. */
  function Split(s: string): (r: seq<string>)
    ensures forall k :: 0 <= k < |r| ==> IsToken(r[k])
    decreases |s|
  {
    if s == [] then []
    else if IsSpace(s[0]) then Split(s[1..])
    else
      var e := Span(s, 0, NonSpace);
      [s[..e]] + Split(s[e..])
  }

  /** The characters of s that are not whitespace, in order. */
  function NonSpaceChars(s: string): string {
    if s == [] then [] else (if IsSpace(s[0]) then [] else [s[0]]) + NonSpaceChars(s[1..])
  }

  function Concat(ts: seq<string>): string {
    if ts == [] then [] else ts[0] + Concat(ts[1..])
  }

  /** Every character of a token of split() comes from the split text. */
  lemma {:induction false} SplitTokenChars(s: string, k: nat, x: char)
    requires k < |Split(s)| && x in Split(s)[k]
    ensures x in s
    decreases |s|
  {
    if IsSpace(s[0]) {
      SplitTokenChars(s[1..], k, x);
    } else {
      var e := Span(s, 0, NonSpace);
      if k > 0 {
        assert Split(s)[k] == Split(s[e..])[k - 1];
        SplitTokenChars(s[e..], k - 1, x);
      }
    }
  }

  /** The tokens ts written out between the whitespace runs ws: ws[0] before the
      first token, ws[k + 1] after token k. */
  function Joined(ts: seq<string>, ws: seq<string>): string
    requires |ws| == |ts| + 1
  {
    if ts == [] then ws[0] else ws[0] + ts[0] + Joined(ts[1..], ws[1..])
  }

  /** ws are whitespace runs that can separate the tokens ts: the runs at both ends
      may be empty, the runs between two tokens may not. */
  predicate Separators(ts: seq<string>, ws: seq<string>) {
    |ws| == |ts| + 1 &&
    (forall k :: 0 <= k < |ws| ==> AllIn(ws[k], 0, |ws[k]|, Space)) &&
    (forall k :: 0 < k < |ts| ==> ws[k] != [])
  }

  lemma {:induction false} NonSpaceCharsAppend(a: string, b: string)
    ensures NonSpaceChars(a + b) == NonSpaceChars(a) + NonSpaceChars(b)
  {
    if a != [] {
      assert (a + b)[1..] == a[1..] + b;
      NonSpaceCharsAppend(a[1..], b);
    } else {
      assert a + b == b;
    }
  }

  lemma {:induction false} NonSpaceCharsOfRun(t: string)
    requires forall j :: 0 <= j < |t| ==> !IsSpace(t[j])
    ensures NonSpaceChars(t) == t
  {
    if t != [] {
      NonSpaceCharsOfRun(t[1..]);
    }
  }

  /** split() drops exactly the whitespace: its tokens joined together are the
      non-whitespace characters of s, in order. */
  lemma {:induction false} SplitKeepsText(s: string)
    ensures Concat(Split(s)) == NonSpaceChars(s)
    decreases |s|
  {
    if s == [] {
    } else if IsSpace(s[0]) {
      SplitKeepsText(s[1..]);
    } else {
      var e := Span(s, 0, NonSpace);
      assert s == s[..e] + s[e..];
      NonSpaceCharsAppend(s[..e], s[e..]);
      NonSpaceCharsOfRun(s[..e]);
      SplitKeepsText(s[e..]);
      assert Split(s)[1..] == Split(s[e..]);
    }
  }

  /** Leading whitespace does not change split(). */
  lemma {:induction false} SplitSkipsSpace(w: string, rest: string)
    requires AllIn(w, 0, |w|, Space)
    ensures Split(w + rest) == Split(rest)
  {
    if w != [] {
      assert (w + rest)[0] == w[0];
      assert (w + rest)[1..] == w[1..] + rest;
      assert AllIn(w[1..], 0, |w[1..]|, Space) by {
        forall j | 0 <= j < |w| - 1 ensures IsSpace(w[1..][j]) {
          assert w[1..][j] == w[j + 1];
        }
      }
      SplitSkipsSpace(w[1..], rest);
    } else {
      assert w + rest == rest;
    }
  }

  /** split() cuts exactly at whitespace runs: any tokens written out with any
      whitespace runs between them (and around them) come back as they were. */
  lemma {:induction false} SplitJoined(ts: seq<string>, ws: seq<string>)
    requires forall k :: 0 <= k < |ts| ==> IsToken(ts[k])
    requires Separators(ts, ws)
    ensures Split(Joined(ts, ws)) == ts
  {
    if ts == [] {
      assert Split(ws[0] + []) == Split([]) by { SplitSkipsSpace(ws[0], []); }
      assert ws[0] + [] == ws[0];
    } else {
      var t, rest := ts[0], Joined(ts[1..], ws[1..]);
      assert Joined(ts, ws) == ws[0] + (t + rest);
      SplitSkipsSpace(ws[0], t + rest);
      assert Separators(ts[1..], ws[1..]) by {
        forall k | 0 < k < |ts| - 1 ensures ws[1..][k] != [] {
          assert ws[1..][k] == ws[k + 1];
        }
      }
      SplitJoined(ts[1..], ws[1..]);
      assert rest == [] || IsSpace(rest[0]) by {
        if |ts| > 1 {
          assert rest == ws[1] + (ts[1] + Joined(ts[2..], ws[2..]));
          assert rest[0] == ws[1][0];
        } else {
          assert rest == ws[1];
        }
      }
      var x := t + rest;
      assert x[|t|..] == rest;
      SpanAt(x, 0, NonSpace, |t|);
      assert x[..|t|] == t;
    }
  }

  /** The start of the longest run of whitespace that ends at e. */
  function SpanBack(s: string, e: nat): (b: nat)
    requires e <= |s|
    ensures b <= e && AllIn(s, b, e, Space)
    ensures b == 0 || !IsSpace(s[b - 1])
  {
    if e > 0 && IsSpace(s[e - 1]) then SpanBack(s, e - 1) else e
  }

  /** `t.lstrip()`: t without its leading whitespace. */
  function StripStart(t: string): (r: string)
    ensures |r| <= |t| && forall j :: 0 <= j < |r| ==> r[j] == t[|t| - |r| + j]
    ensures forall j :: 0 <= j < |t| - |r| ==> IsSpace(t[j])
    ensures r == [] || !IsSpace(r[0])
  {
    t[Span(t, 0, Space)..]
  }

  /** `t.rstrip()`: t without its trailing whitespace. */
  function StripEnd(t: string): (r: string)
    ensures |r| <= |t| && forall j :: 0 <= j < |r| ==> r[j] == t[j]
    ensures forall j :: |r| <= j < |t| ==> IsSpace(t[j])
    ensures r == [] || !IsSpace(r[|r| - 1])
  {
    t[..SpanBack(t, |t|)]
  }

  /** `t.strip()`. */
  function Strip(t: string): string {
    StripEnd(StripStart(t))
  }

  /** `[x.strip() for x in ts]`. */
  function StripEach(ts: seq<string>): (r: seq<string>)
    ensures |r| == |ts|
  {
    seq(|ts|, k requires 0 <= k < |ts| => Strip(ts[k]))
  }

  /** The `.strip()` the source applies to every element of a `split()` result
      changes nothing. */
  lemma StripEachSplit(s: string)
    ensures StripEach(Split(s)) == Split(s)
  {
    var ts := Split(s);
    forall k | 0 <= k < |ts| ensures Strip(ts[k]) == ts[k] {
      var t := ts[k];
      assert StripStart(t) == t;
      assert StripEnd(t) == t;
    }
  }

}
