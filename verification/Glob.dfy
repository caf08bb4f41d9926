/**
 Model pattern matching (src/routing/mod.rs:78-114): the greedy scan with one
 backtracking point decides the declarative meaning of `*`.
 */
module Glob {

  /** `*` stands for any sequence of characters, every other character for itself. */
  ghost predicate Matches(pat: string, txt: string)
    decreases |pat|
  {
    if pat == "" then txt == ""
    else if pat[0] == '*' then exists k :: 0 <= k <= |txt| && Matches(pat[1..], txt[k..])
    else txt != "" && txt[0] == pat[0] && Matches(pat[1..], txt[1..])
  }

  predicate StarFree(s: string) {
    forall i :: 0 <= i < |s| ==> s[i] != '*'
  }

  /** A star-free start of a pattern matches itself and nothing else. */
  lemma {:induction false} LiteralStart(pat: string, n: nat, txt: string)
    requires n <= |pat| && StarFree(pat[..n])
    ensures Matches(pat, txt) <==> n <= |txt| && txt[..n] == pat[..n] && Matches(pat[n..], txt[n..])
  {
    if n == 0 {
      assert pat[0..] == pat && txt[0..] == txt;
    } else {
      assert pat[..n] == [pat[0]] + pat[1..][..n - 1];
      assert pat[..n][0] != '*';
      assert StarFree(pat[1..][..n - 1]) by {
        assert pat[1..][..n - 1] == pat[..n][1..];
      }
      if txt != "" {
        LiteralStart(pat[1..], n - 1, txt[1..]);
        assert pat[1..][n - 1..] == pat[n..];
        if n <= |txt| {
          assert txt[1..][n - 1..] == txt[n..];
          assert txt[..n] == [txt[0]] + txt[1..][..n - 1];
        }
      }
    }
  }

  /** Some start at or after `from` lets the pattern match to the end of the text. */
  ghost predicate MatchesFrom(pat: string, txt: string, from: nat) {
    exists k :: from <= k <= |txt| && Matches(pat, txt[k..])
  }

  lemma StarMatches(pat: string, txt: string)
    requires pat != "" && pat[0] == '*'
    ensures Matches(pat, txt) <==> MatchesFrom(pat[1..], txt, 0)
  {
  }

  /** Reaching a second star: the place of the first one is settled, for greedy loses nothing. */
  lemma StarAfterLiteral(pat: string, n: nat, txt: string, at: nat)
    requires n < |pat| && StarFree(pat[..n]) && pat[n] == '*'
    requires at + n <= |txt| && txt[at..at + n] == pat[..n]
    ensures MatchesFrom(pat, txt, at) <==> MatchesFrom(pat[n + 1..], txt, at + n)
  {
    assert pat[n..][0] == '*' && pat[n..][1..] == pat[n + 1..];
    if MatchesFrom(pat, txt, at) {
      var k :| at <= k <= |txt| && Matches(pat, txt[k..]);
      LiteralStart(pat, n, txt[k..]);
      StarMatches(pat[n..], txt[k..][n..]);
      assert txt[k..][n..] == txt[k + n..];
      var j :| 0 <= j <= |txt[k + n..]| && Matches(pat[n + 1..], txt[k + n..][j..]);
      assert txt[k + n..][j..] == txt[k + n + j..];
    }
    if MatchesFrom(pat[n + 1..], txt, at + n) {
      var k :| at + n <= k <= |txt| && Matches(pat[n + 1..], txt[k..]);
      LiteralStart(pat, n, txt[at..]);
      assert txt[at..][..n] == txt[at..at + n];
      assert txt[at..][n..] == txt[at + n..];
      assert txt[at + n..][k - at - n..] == txt[k..];
      StarMatches(pat[n..], txt[at + n..]);
    }
  }

  /** A mismatch after a literal stretch rules out this start, so the search moves one further. */
  lemma NextStart(pat: string, n: nat, txt: string, at: nat)
    requires n <= |pat| && StarFree(pat[..n]) && at + n < |txt| && txt[at..at + n] == pat[..n]
    requires n == |pat| || (pat[n] != '*' && pat[n] != txt[at + n])
    ensures MatchesFrom(pat, txt, at) <==> MatchesFrom(pat, txt, at + 1)
  {
    LiteralStart(pat, n, txt[at..]);
    assert txt[at..][n..] == txt[at + n..];
    if n < |pat| { assert pat[n..][0] == pat[n]; }
    assert txt[at + n..][0] == txt[at + n];
    assert !Matches(pat, txt[at..]);
  }

  /** At the end of the text only this start is long enough. */
  lemma LastStart(pat: string, n: nat, txt: string, at: nat)
    requires n <= |pat| && StarFree(pat[..n]) && at + n == |txt| && txt[at..] == pat[..n]
    ensures MatchesFrom(pat, txt, at) <==> Matches(pat[n..], "")
  {
    LiteralStart(pat, n, txt[at..]);
    assert txt[at..][n..] == "";
    forall k | at < k <= |txt| ensures !Matches(pat, txt[k..]) {
      LiteralStart(pat, n, txt[k..]);
    }
    if Matches(pat[n..], "") {
      assert Matches(pat, txt[at..]);
    }
  }

  lemma EmptyTextStep(pat: string)
    requires pat != ""
    ensures Matches(pat, "") <==> pat[0] == '*' && Matches(pat[1..], "")
  {
    if pat[0] == '*' && Matches(pat[1..], "") {
      assert ""[0..] == "";
    }
  }

  /** What the scan knows: the stretch since the last star matches literally, and the answer
      depends only on where that star's successor may start. */
  ghost predicate Scanned(pat: string, txt: string, p: int, t: int, star: int, starMatch: int) {
    && -1 <= star < p <= |pat| && 0 <= starMatch <= t <= |txt|
    && p - (star + 1) == t - starMatch
    && StarFree(pat[star + 1..p])
    && txt[starMatch..t] == pat[star + 1..p]
    && (star == -1 ==> starMatch == 0)
    && (star >= 0 ==> (Matches(pat, txt) <==> MatchesFrom(pat[star + 1..], txt, starMatch)))
  }

  lemma ScanStar(pat: string, txt: string, p: nat, t: nat, star: int, starMatch: nat)
    requires Scanned(pat, txt, p, t, star, starMatch) && p < |pat| && pat[p] == '*'
    ensures Scanned(pat, txt, p + 1, t, p, t)
  {
    hide Matches, MatchesFrom;
    var tail, n := pat[star + 1..], p - (star + 1);
    assert tail[..n] == pat[star + 1..p] && tail[n..] == pat[p..];
    assert tail[n] == '*' && tail[n + 1..] == pat[p + 1..] && tail[n..][1..] == pat[p + 1..];
    if star >= 0 {
      StarAfterLiteral(tail, n, txt, starMatch);
    } else {
      assert tail == pat && txt[0..t] == txt[..t];
      LiteralStart(pat, n, txt);
      StarMatches(pat[n..], txt[t..]);
      ShiftStart(pat[p + 1..], txt, t);
    }
  }

  lemma ScanChar(pat: string, txt: string, p: nat, t: nat, star: int, starMatch: nat)
    requires Scanned(pat, txt, p, t, star, starMatch)
    requires p < |pat| && t < |txt| && pat[p] != '*' && pat[p] == txt[t]
    ensures Scanned(pat, txt, p + 1, t + 1, star, starMatch)
  {
    assert txt[starMatch..t + 1] == txt[starMatch..t] + [txt[t]];
    assert pat[star + 1..p + 1] == pat[star + 1..p] + [pat[p]];
  }

  lemma ScanBack(pat: string, txt: string, p: nat, t: nat, star: int, starMatch: nat)
    requires Scanned(pat, txt, p, t, star, starMatch)
    requires t < |txt| && (p == |pat| || (pat[p] != '*' && pat[p] != txt[t]))
    ensures star >= 0 ==> Scanned(pat, txt, star + 1, starMatch + 1, star, starMatch + 1)
    ensures star == -1 ==> !Matches(pat, txt)
  {
    hide MatchesFrom;
    var tail, n := pat[star + 1..], p - (star + 1);
    assert tail[..n] == pat[star + 1..p] && tail[n..] == pat[p..];
    if p < |pat| { assert tail[n] == pat[p]; }
    if star >= 0 {
      NextStart(tail, n, txt, starMatch);
    } else {
      assert tail == pat && txt[0..t] == txt[..t];
      LiteralStart(pat, n, txt);
      assert txt[t..][0] == txt[t];
    }
  }

  lemma ScanEnd(pat: string, txt: string, p: nat, star: int, starMatch: nat)
    requires Scanned(pat, txt, p, |txt|, star, starMatch)
    ensures Matches(pat, txt) <==> Matches(pat[p..], "")
  {
    hide Matches, MatchesFrom;
    var tail, n := pat[star + 1..], p - (star + 1);
    assert tail[..n] == pat[star + 1..p] && tail[n..] == pat[p..];
    assert txt[starMatch..] == txt[starMatch..|txt|];
    if star >= 0 {
      LastStart(tail, n, txt, starMatch);
    } else {
      assert tail == pat && txt[starMatch..] == txt && txt[n..] == "";
      LiteralStart(pat, n, txt);
    }
  }

  lemma EmptyMatchesEmpty()
    ensures Matches("", "")
  {
  }

  lemma ScanStart(pat: string, txt: string)
    ensures Scanned(pat, txt, 0, 0, -1, 0)
  {
  }

  lemma ScanBounds(pat: string, txt: string, p: nat, t: nat, star: int, starMatch: nat)
    requires Scanned(pat, txt, p, t, star, starMatch)
    ensures -1 <= star < p <= |pat| && 0 <= starMatch <= t <= |txt| && p - (star + 1) == t - starMatch
  {
  }

  method PatternMatches(pat: string, txt: string) returns (matched: bool)
    ensures matched <==> Matches(pat, txt)
  {
    hide Scanned, Matches;
    var p: nat, t: nat := 0, 0;
    var star: int := -1;
    var starMatch: nat := 0;
    ScanStart(pat, txt);
    while t < |txt|
      invariant Scanned(pat, txt, p, t, star, starMatch)
      decreases |pat| - star, |txt| - starMatch, |pat| - p
    {
      ScanBounds(pat, txt, p, t, star, starMatch);
      if p < |pat| && pat[p] == '*' {
        ScanStar(pat, txt, p, t, star, starMatch);
        star := p;
        starMatch := t;
        p := p + 1;
      } else if p < |pat| && pat[p] == txt[t] {
        ScanChar(pat, txt, p, t, star, starMatch);
        p := p + 1;
        t := t + 1;
      } else {
        ScanBack(pat, txt, p, t, star, starMatch);
        if star < 0 {
          return false;
        }
        starMatch := starMatch + 1;
        t := starMatch;
        p := star + 1;
      }
    }
    ScanBounds(pat, txt, p, t, star, starMatch);
    ScanEnd(pat, txt, p, star, starMatch);
    while p < |pat| && pat[p] == '*'
      invariant 0 <= p <= |pat|
      invariant Matches(pat, txt) <==> Matches(pat[p..], "")
    {
      EmptyTextStep(pat[p..]);
      assert pat[p..][1..] == pat[p + 1..];
      p := p + 1;
    }
    if p < |pat| {
      EmptyTextStep(pat[p..]);
    } else {
      assert pat[p..] == "";
      EmptyMatchesEmpty();
    }
    matched := p == |pat|;
  }

  lemma ShiftStart(pat: string, txt: string, t: nat)
    requires t <= |txt|
    ensures MatchesFrom(pat, txt[t..], 0) <==> MatchesFrom(pat, txt, t)
  {
    if MatchesFrom(pat, txt[t..], 0) {
      var k :| 0 <= k <= |txt[t..]| && Matches(pat, txt[t..][k..]);
      assert txt[t..][k..] == txt[t + k..];
    }
    if MatchesFrom(pat, txt, t) {
      var k :| t <= k <= |txt| && Matches(pat, txt[k..]);
      assert txt[t..][k - t..] == txt[k..];
    }
  }

  /** Without a star a pattern matches itself only; `a*` matches what begins with a, and `*a` what ends with it. */
  lemma WhatStarsMean(a: string, txt: string)
    requires StarFree(a)
    ensures Matches(a, txt) <==> txt == a
    ensures Matches(a + "*", txt) <==> a <= txt
    ensures Matches("*" + a, txt) <==> |a| <= |txt| && txt[|txt| - |a|..] == a
  {
    hide Matches;
    Literal(a, txt);
    PrefixPattern(a, txt);
    SuffixPattern(a, txt);
  }

  lemma PrefixPattern(a: string, txt: string)
    requires StarFree(a)
    ensures Matches(a + "*", txt) <==> a <= txt
  {
    hide Matches;
    var front := a + "*";
    assert front[..|a|] == a && front[|a|..] == "*";
    LiteralStart(front, |a|, txt);
    if |a| <= |txt| {
      StarTakesAll(txt[|a|..]);
    }
  }

  lemma SuffixPattern(a: string, txt: string)
    requires StarFree(a)
    ensures Matches("*" + a, txt) <==> |a| <= |txt| && txt[|txt| - |a|..] == a
  {
    hide Matches;
    var back := "*" + a;
    assert back[1..] == a;
    StarMatches(back, txt);
    if k :| 0 <= k <= |txt| && Matches(a, txt[k..]) {
      Literal(a, txt[k..]);
    }
    if |a| <= |txt| {
      Literal(a, txt[|txt| - |a|..]);
    }
  }

  lemma Literal(a: string, txt: string)
    requires StarFree(a)
    ensures Matches(a, txt) <==> txt == a
  {
    assert a[..|a|] == a && a[|a|..] == "";
    LiteralStart(a, |a|, txt);
    if |a| <= |txt| {
      assert Matches("", txt[|a|..]) <==> txt[|a|..] == "";
      assert txt == txt[..|a|] + txt[|a|..];
    }
  }

  lemma StarTakesAll(txt: string)
    ensures Matches("*", txt)
  {
    assert "*"[1..] == "" && Matches("", txt[|txt|..]);
  }
}
