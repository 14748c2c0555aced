/** Artifact globs: the two-level backtracking matcher of internal/policy/pattern.go. */
module Glob {
  import opened Common
  import opened Division

  // ----- the code ----------------------------------------------------------

  /** What is left of a pattern once its leading run of stars is consumed. */
  function SkipStars(pat: string): (rest: string)
    ensures |rest| <= |pat|
    ensures pat != "" && pat[0] == '*' ==> |rest| < |pat|
    ensures rest != "" ==> rest[0] != '*'
  {
    if pat != "" && pat[0] == '*' then SkipStars(pat[1..]) else pat
  }

  /** The value `matchSegment` computes; the method below is its loop. */
  predicate SegmentMatches(pat: string, s: string)
    decreases |pat|
  {
    if pat == "" then s == ""
    else if pat[0] == '*' then
      var rest := SkipStars(pat);
      rest == "" || exists i :: 0 <= i <= |s| && SegmentMatches(rest, s[i..])
    else
      s != "" && (pat[0] == '?' || pat[0] == s[0]) && SegmentMatches(pat[1..], s[1..])
  }

  /** `matchSegments`, over whole path segments. */
  predicate SegmentsMatch(pat: seq<string>, name: seq<string>)
    decreases |pat| + |name|
  {
    if |pat| == 0 then |name| == 0
    else if pat[0] == "**" then
      if SegmentsMatch(pat[1..], name) then true
      else if |name| == 0 then false
      else SegmentsMatch(pat, name[1..])
    else if |name| == 0 then false
    else if !SegmentMatches(pat[0], name[0]) then false
    else SegmentsMatch(pat[1..], name[1..])
  }

  /** `Match`. */
  predicate Match(pattern: string, name: string) {
    pattern != "" && SegmentsMatch(Split(pattern, '/'), Split(name, '/'))
  }

  /** How many times `matchSegment` is entered, the first call included. */
  ghost function Cost(pat: string, s: string): nat
    decreases |pat|, 0, 0
  {
    if pat == "" then 1
    else if pat[0] == '*' then
      var rest := SkipStars(pat);
      if rest == "" then 1 else 1 + Tries(rest, s)
    else if s == "" || (pat[0] != '?' && pat[0] != s[0]) then 1
    else Cost(pat[1..], s[1..])
  }

  /** The calls made by the loop that tries `rest` on every suffix of `s` until one fits. */
  ghost function Tries(rest: string, s: string): nat
    decreases |rest|, 1, |s|
  {
    Cost(rest, s) + if SegmentMatches(rest, s) || s == "" then 0 else Tries(rest, s[1..])
  }

  /** The maximal runs of stars in a pattern segment. */
  function StarRuns(pat: string): nat {
    if pat == "" then 0
    else (if pat[0] == '*' && (|pat| == 1 || pat[1] != '*') then 1 else 0) + StarRuns(pat[1..])
  }

  /** `matchSegment`: accepts exactly the token language, within the backtracking bound. */
  method MatchSegment(pattern: string, subject: string) returns (ok: bool, ghost calls: nat)
    ensures ok == SegmentMatches(pattern, subject)
    ensures ok <==> Accepts(TokenFits, pattern, subject)
    ensures calls == Cost(pattern, subject)
    ensures calls <= Pow(|subject| + 2, StarRuns(pattern))
    decreases |pattern|
  {
    SegmentExact(pattern, subject);
    CostBound(pattern, subject);
    calls := 1;
    var pat, s := pattern, subject;
    while |pat| > 0
      invariant |pat| <= |pattern|
      invariant SegmentMatches(pat, s) == SegmentMatches(pattern, subject)
      invariant Cost(pat, s) == Cost(pattern, subject)
      invariant calls == 1
      decreases |pat|
    {
      if pat[0] == '*' {
        ghost var starred := pat;
        while |pat| > 0 && pat[0] == '*'
          invariant |pat| <= |starred|
          invariant |pat| < |starred| || pat == starred
          invariant SkipStars(pat) == SkipStars(starred)
        {
          pat := pat[1..];
        }
        if pat == "" {
          ok := true;
          return;
        }
        var i := 0;
        assert s[0..] == s;
        while i <= |s|
          invariant 0 <= i <= |s| + 1
          invariant forall j :: 0 <= j < i ==> !SegmentMatches(pat, s[j..])
          invariant calls + (if i <= |s| then Tries(pat, s[i..]) else 0) == 1 + Tries(pat, s)
        {
          ghost var below: nat;
          ok, below := MatchSegment(pat, s[i..]);
          calls := calls + below;
          if ok {
            return;
          }
          assert i < |s| ==> s[i..][1..] == s[i + 1..];
          i := i + 1;
        }
        ok := false;
        return;
      } else if pat[0] == '?' {
        if s == "" {
          ok := false;
          return;
        }
        pat, s := pat[1..], s[1..];
      } else {
        if s == "" || s[0] != pat[0] {
          ok := false;
          return;
        }
        pat, s := pat[1..], s[1..];
      }
    }
    ok := s == "";
  }

  // ----- the language ------------------------------------------------------

  /** What one pattern byte may take: `*` any run, `?` one byte, anything else itself. */
  ghost predicate TokenFits(token: char, piece: string) {
    token == '*' || (if token == '?' then |piece| == 1 else piece == [token])
  }

  /** What one pattern segment may take: `**` any run of segments, anything else one that fits. */
  ghost predicate SegmentFits(segment: string, piece: seq<string>) {
    segment == "**" || (|piece| == 1 && Accepts(TokenFits, segment, piece[0]))
  }

  /** The glob language over whole names. */
  ghost predicate InLanguage(pattern: string, name: string) {
    pattern != "" && Accepts(SegmentFits, Split(pattern, '/'), Split(name, '/'))
  }

  // ----- soundness and completeness ----------------------------------------

  /** A star consumes any prefix, whether or not more stars follow it. */
  lemma StarStep(pat: string, s: string)
    requires pat != "" && pat[0] == '*'
    ensures SegmentMatches(pat, s) <==> exists k :: 0 <= k <= |s| && SegmentMatches(pat[1..], s[k..])
  {
    var rest := SkipStars(pat);
    var tail := pat[1..];
    if tail == "" {
      assert SegmentMatches(tail, s[|s|..]);
    } else if tail[0] == '*' {
      assert SkipStars(tail) == rest;
      assert s[0..] == s;
      if k :| 0 <= k <= |s| && SegmentMatches(tail, s[k..]) {
        if rest != "" {
          var i :| 0 <= i <= |s[k..]| && SegmentMatches(rest, s[k..][i..]);
          assert s[k..][i..] == s[k + i..];
        }
      }
      if SegmentMatches(pat, s) {
        assert SegmentMatches(tail, s[0..]);
      }
    } else {
      assert rest == tail;
    }
  }

  /** Within a segment the matcher accepts exactly the token language. */
  lemma {:induction false} SegmentExact(pat: string, s: string)
    ensures SegmentMatches(pat, s) <==> Accepts(TokenFits, pat, s)
    decreases |pat|
  {
    if pat == "" {
      AcceptsNil(TokenFits, s);
    } else {
      AcceptsCons(TokenFits, pat, s);
      forall k | 0 <= k <= |s|
        ensures SegmentMatches(pat[1..], s[k..]) <==> Accepts(TokenFits, pat[1..], s[k..])
      {
        SegmentExact(pat[1..], s[k..]);
      }
      if pat[0] == '*' {
        StarStep(pat, s);
        if k :| 0 <= k <= |s| && SegmentMatches(pat[1..], s[k..]) {
          assert HeadTakes(TokenFits, pat, s, k);
        }
      } else {
        if s != "" {
          assert s[..1] == [s[0]];
        }
        if SegmentMatches(pat, s) {
          assert HeadTakes(TokenFits, pat, s, 1);
        }
        if k :| HeadTakes(TokenFits, pat, s, k) {
          assert |s[..k]| == 1;
          assert k == 1;
        }
      }
    }
  }

  /** `**` takes any number of whole segments. */
  lemma {:induction false} DoubleStarStep(pat: seq<string>, name: seq<string>)
    requires pat != [] && pat[0] == "**"
    ensures SegmentsMatch(pat, name) <==> exists k :: 0 <= k <= |name| && SegmentsMatch(pat[1..], name[k..])
    decreases |name|
  {
    assert name[0..] == name;
    if !SegmentsMatch(pat[1..], name) && name != [] {
      DoubleStarStep(pat, name[1..]);
      if k :| 0 <= k <= |name[1..]| && SegmentsMatch(pat[1..], name[1..][k..]) {
        assert name[1..][k..] == name[k + 1..];
      }
      if k :| 0 <= k <= |name| && SegmentsMatch(pat[1..], name[k..]) {
        assert k > 0;
        assert name[k..] == name[1..][k - 1..];
      }
    }
  }

  /** Over segments the matcher accepts exactly the segment language. */
  lemma {:induction false} SegmentsExact(pat: seq<string>, name: seq<string>)
    ensures SegmentsMatch(pat, name) <==> Accepts(SegmentFits, pat, name)
    decreases |pat|
  {
    if pat == [] {
      AcceptsNil(SegmentFits, name);
    } else {
      AcceptsCons(SegmentFits, pat, name);
      forall k | 0 <= k <= |name|
        ensures SegmentsMatch(pat[1..], name[k..]) <==> Accepts(SegmentFits, pat[1..], name[k..])
      {
        SegmentsExact(pat[1..], name[k..]);
      }
      if pat[0] == "**" {
        DoubleStarStep(pat, name);
        if k :| 0 <= k <= |name| && SegmentsMatch(pat[1..], name[k..]) {
          assert HeadTakes(SegmentFits, pat, name, k);
        }
      } else {
        if name != [] {
          SegmentExact(pat[0], name[0]);
          assert name[..1] == [name[0]];
        }
        if SegmentsMatch(pat, name) {
          assert HeadTakes(SegmentFits, pat, name, 1);
        }
        if k :| HeadTakes(SegmentFits, pat, name, k) {
          assert |name[..k]| == 1;
          assert k == 1;
        }
      }
    }
  }

  /** `Match` is sound and complete for the glob language. */
  lemma MatchExact(pattern: string, name: string)
    ensures Match(pattern, name) <==> InLanguage(pattern, name)
  {
    SegmentsExact(Split(pattern, '/'), Split(name, '/'));
  }

  // ----- concatenation -----------------------------------------------------

  ghost predicate SegmentCut(p: string, q: string, s: string, k: int) {
    0 <= k <= |s| && SegmentMatches(p, s[..k]) && SegmentMatches(q, s[k..])
  }

  ghost predicate SegmentsCut(p: seq<string>, q: seq<string>, name: seq<string>, k: int) {
    0 <= k <= |name| && SegmentsMatch(p, name[..k]) && SegmentsMatch(q, name[k..])
  }

  /** First-success backtracking still matches a concatenation exactly by parts. */
  lemma SegmentConcat(p: string, q: string, s: string)
    ensures SegmentMatches(p + q, s) <==> exists k :: SegmentCut(p, q, s, k)
  {
    SegmentExact(p + q, s);
    AcceptsConcat(TokenFits, p, q, s);
    forall k | 0 <= k <= |s|
      ensures SegmentCut(p, q, s, k) <==> CutsAt(TokenFits, p, q, s, k)
    {
      SegmentExact(p, s[..k]);
      SegmentExact(q, s[k..]);
    }
    if k :| CutsAt(TokenFits, p, q, s, k) {
      assert SegmentCut(p, q, s, k);
    }
    if k :| SegmentCut(p, q, s, k) {
      assert CutsAt(TokenFits, p, q, s, k);
    }
  }

  /** The same law over whole segments. */
  lemma SegmentsConcat(p: seq<string>, q: seq<string>, name: seq<string>)
    ensures SegmentsMatch(p + q, name) <==> exists k :: SegmentsCut(p, q, name, k)
  {
    SegmentsExact(p + q, name);
    AcceptsConcat(SegmentFits, p, q, name);
    forall k | 0 <= k <= |name|
      ensures SegmentsCut(p, q, name, k) <==> CutsAt(SegmentFits, p, q, name, k)
    {
      SegmentsExact(p, name[..k]);
      SegmentsExact(q, name[k..]);
    }
    if k :| CutsAt(SegmentFits, p, q, name, k) {
      assert SegmentsCut(p, q, name, k);
    }
    if k :| SegmentsCut(p, q, name, k) {
      assert CutsAt(SegmentFits, p, q, name, k);
    }
  }

  // ----- structure ---------------------------------------------------------

  /** Without a `**` segment a pattern fixes the number of slashes. */
  lemma SlashesFixed(pattern: string, name: string)
    requires Match(pattern, name)
    requires "**" !in Split(pattern, '/')
    ensures Occurrences(pattern, '/') == Occurrences(name, '/')
  {
    MatchExact(pattern, name);
    var pat, segs := Split(pattern, '/'), Split(name, '/');
    var pieces :| Divides(SegmentFits, pat, pieces, segs);
    forall i | 0 <= i < |pieces| ensures |pieces[i]| == 1 {
      assert pat[i] in pat;
      assert SegmentFits(pat[i], pieces[i]);
    }
    UnitPieces(SegmentFits, pat, pieces, segs);
    JoinSplit(pattern, '/');
    JoinSplit(name, '/');
  }

  /** `**` between two parts of a segment list still admits what they admit together. */
  lemma DoubleStarBetween(before: seq<string>, after: seq<string>, segs: seq<string>)
    requires SegmentsMatch(before + after, segs)
    ensures SegmentsMatch(before + ["**"] + after, segs)
  {
    SegmentsConcat(before, after, segs);
    var k :| SegmentsCut(before, after, segs, k);
    var tail := ["**"] + after;
    assert tail[1..] == after;
    assert SegmentsMatch(tail, segs[k..]);
    assert SegmentsCut(before, tail, segs, k);
    SegmentsConcat(before, tail, segs);
    assert before + tail == before + ["**"] + after;
  }

  /** A `**` segment inserted at any boundary never loses a name. */
  lemma InsertDoubleStar(before: seq<string>, after: seq<string>, name: string)
    requires Unbroken(before, '/') && Unbroken(after, '/') && before + after != []
    requires Match(Join(before + after, '/'), name)
    ensures Match(Join(before + ["**"] + after, '/'), name)
  {
    var wide := before + ["**"] + after;
    SplitJoin(before + after, '/');
    SplitJoin(wide, '/');
    DoubleStarBetween(before, after, Split(name, '/'));
    assert wide != [""] by {
      assert wide[|before|] == "**";
    }
    assert Split("", '/') == [""];
  }

  /** `n` question marks. */
  function Questions(n: nat): string {
    if n == 0 then "" else ['?'] + Questions(n - 1)
  }

  /** A question mark takes one byte, so `n` of them exactly the texts of `n` bytes: a character of several
      bytes needs as many. */
  lemma {:induction false} QuestionTakesByte(n: nat, s: string)
    ensures SegmentMatches(Questions(n), s) <==> |s| == n
    ensures SegmentMatches("?", s) <==> |s| == 1
  {
    if n > 0 {
      assert Questions(n)[1..] == Questions(n - 1);
      if s != "" {
        QuestionTakesByte(n - 1, s[1..]);
      }
    }
    assert "?"[1..] == "";
  }

  /** `n` stars. */
  function Stars(n: nat): string {
    if n == 0 then "" else ['*'] + Stars(n - 1)
  }

  lemma {:induction false} StarsMatchAll(n: nat, s: string)
    requires n > 0
    ensures SegmentMatches(Stars(n), s)
  {
    StarStep(Stars(n), s);
    assert Stars(n)[1..] == Stars(n - 1);
    if n == 1 {
      assert SegmentMatches("", s[|s|..]);
    } else {
      StarsMatchAll(n - 1, s[0..]);
    }
  }

  /** Inside one segment a run of stars is worth a single star. */
  lemma StarRunIsOneStar(before: string, n: nat, after: string, s: string)
    requires n > 0
    ensures SegmentMatches(before + Stars(n) + after, s) <==> SegmentMatches(before + "*" + after, s)
  {
    assert Stars(1) == "*";
    if SegmentMatches(before + Stars(n) + after, s) {
      StarRunWorth(before, n, 1, after, s);
    }
    if SegmentMatches(before + "*" + after, s) {
      StarRunWorth(before, 1, n, after, s);
    }
  }

  lemma StarRunWorth(before: string, n: nat, m: nat, after: string, s: string)
    requires n > 0 && m > 0
    requires SegmentMatches(before + Stars(n) + after, s)
    ensures SegmentMatches(before + Stars(m) + after, s)
  {
    SegmentConcat(before + Stars(n), after, s);
    var k :| SegmentCut(before + Stars(n), after, s, k);
    SegmentConcat(before, Stars(n), s[..k]);
    var j :| SegmentCut(before, Stars(n), s[..k], j);
    StarsMatchAll(m, s[..k][j..]);
    assert SegmentCut(before, Stars(m), s[..k], j);
    SegmentConcat(before, Stars(m), s[..k]);
    assert SegmentCut(before + Stars(m), after, s, k);
    SegmentConcat(before + Stars(m), after, s);
  }

  // ----- the price of backtracking -----------------------------------------

  lemma {:induction false} SkipStarsRuns(pat: string)
    requires pat != "" && pat[0] == '*'
    ensures StarRuns(SkipStars(pat)) + 1 == StarRuns(pat)
  {
    if |pat| > 1 && pat[1] == '*' {
      SkipStarsRuns(pat[1..]);
    } else {
      assert SkipStars(pat) == pat[1..];
    }
  }

  /** At most (n + 2)^g calls on a segment of n bytes with g star runs. */
  lemma {:induction false} CostBound(pat: string, s: string)
    ensures Cost(pat, s) <= Pow(|s| + 2, StarRuns(pat))
    decreases |pat|, 0, 0
  {
    PowPositive(|s| + 2, StarRuns(pat));
    if pat == "" {
    } else if pat[0] == '*' {
      var rest := SkipStars(pat);
      if rest != "" {
        SkipStarsRuns(pat);
        TriesBound(rest, s);
        PowPositive(|s| + 2, StarRuns(rest));
        OneMoreTry(|s| + 1, Pow(|s| + 2, StarRuns(rest)), Tries(rest, s));
      }
    } else if s != "" {
      CostBound(pat[1..], s[1..]);
      PowMonotone(|s| + 1, |s| + 2, StarRuns(pat[1..]));
    }
  }

  lemma OneMoreTry(n: nat, p: nat, tries: nat)
    requires p > 0 && tries <= n * p
    ensures 1 + tries <= (n + 1) * p
  {
  }

  lemma MoreTries(n: nat, small: nat, big: nat, cost: nat, tries: nat)
    requires small <= big && cost <= big && tries <= n * small
    ensures cost + tries <= (n + 1) * big
  {
    MulMonotone(n, n, small, big);
  }

  lemma {:induction false} TriesBound(rest: string, s: string)
    ensures Tries(rest, s) <= (|s| + 1) * Pow(|s| + 2, StarRuns(rest))
    decreases |rest|, 1, |s|
  {
    CostBound(rest, s);
    if s != "" {
      TriesBound(rest, s[1..]);
      PowMonotone(|s| + 1, |s| + 2, StarRuns(rest));
      MoreTries(|s|, Pow(|s| + 1, StarRuns(rest)), Pow(|s| + 2, StarRuns(rest)), Cost(rest, s), Tries(rest, s[1..]));
    } else {
      assert Tries(rest, s) == Cost(rest, s);
    }
  }

  /** `n` copies of the byte `a`. */
  function Letters(n: nat): string {
    if n == 0 then "" else ['a'] + Letters(n - 1)
  }

  /** The pattern `*a*a...*ab` with `g` stars. */
  function Costly(g: nat): string {
    if g == 0 then "b" else ['*'] + (['a'] + Costly(g - 1))
  }

  lemma {:induction false} CostlyMisses(g: nat, n: nat)
    ensures !SegmentMatches(Costly(g), Letters(n))
    ensures g > 0 ==> !SegmentMatches(['a'] + Costly(g - 1), Letters(n))
    decreases g, n
  {
    if g > 0 {
      var rest := ['a'] + Costly(g - 1);
      assert SkipStars(Costly(g)) == rest by { assert Costly(g)[1..] == rest; }
      assert rest[1..] == Costly(g - 1);
      if n > 0 {
        assert Letters(n)[1..] == Letters(n - 1);
        CostlyMisses(g - 1, n - 1);
      }
      forall i | 0 <= i <= n && i <= |Letters(n)| ensures !SegmentMatches(rest, Letters(n)[i..]) {
        LettersSuffix(n, i);
        if i > 0 {
          CostlyMisses(g, n - i);
        } else {
          assert Letters(n)[0..] == Letters(n);
        }
      }
      LettersSuffix(n, 0);
    }
  }

  lemma {:induction false} LettersSuffix(n: nat, i: nat)
    requires i <= n
    ensures |Letters(n)| == n && Letters(n)[i..] == Letters(n - i)
  {
    if i > 0 {
      LettersSuffix(n - 1, i - 1);
      assert Letters(n)[i..] == Letters(n)[1..][i - 1..];
    } else if n > 0 {
      LettersSuffix(n - 1, 0);
    }
  }

  /** The worst case is exponential: g stars cost at least 2^g calls on g bytes or more. */
  lemma {:induction false} CostExplodes(g: nat, n: nat)
    ensures Cost(Costly(g), Letters(n)) >= Pow(2, if g <= n + 1 then g else n + 1)
    ensures g > 0 ==> Cost(Costly(g), Letters(n)) == 1 + Tries(['a'] + Costly(g - 1), Letters(n))
    decreases n, g
  {
    if g > 0 {
      var rest := ['a'] + Costly(g - 1);
      assert SkipStars(Costly(g)) == rest by { assert Costly(g)[1..] == rest; }
      assert rest[1..] == Costly(g - 1);
      CostlyMisses(g, n);
      if n == 0 {
        assert Letters(0) == "" && Cost(rest, "") == 1;
        assert Pow(2, 1) == 2 * Pow(2, 0);
      } else {
        assert Letters(n)[1..] == Letters(n - 1);
        CostExplodes(g - 1, n - 1);
        CostExplodes(g, n - 1);
        assert Cost(rest, Letters(n)) == Cost(Costly(g - 1), Letters(n - 1));
        PowStep(if g <= n then g else n, if g - 1 <= n then g - 1 else n);
      }
    }
  }

  lemma PowStep(a: nat, b: nat)
    requires b <= a <= b + 1
    ensures Pow(2, a) + Pow(2, b) >= Pow(2, b + 1)
  {
  }
}
