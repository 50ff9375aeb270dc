/**
 The wildcard matcher of the test runner (`wildcmp`): `*` stands for any run of characters,
 `?` for one character, any other pattern character for itself, up to a case fold when the
 comparison is not case sensitive.

 A C string is the sequence of its characters; reading the terminator is reading past the end.
 */
module Wildcard {

  /** `tolower` in the C locale. */
  function ToLower(c: char): char {
    if 'A' <= c <= 'Z' then ((c as int) - ('A' as int) + ('a' as int)) as char else c
  }

  predicate SameChar(caseSensitive: bool, p: char, c: char) {
    if caseSensitive then p == c else ToLower(p) == ToLower(c)
  }

  predicate MatchesOne(caseSensitive: bool, p: char, c: char) {
    p == '?' || SameChar(caseSensitive, p, c)
  }

  /** What a pattern means, with no search strategy: a star absorbs some prefix. */
  ghost predicate Matches(caseSensitive: bool, s: string, w: string)
    decreases |w|
  {
    if w == "" then s == ""
    else if w[0] == '*' then exists k :: 0 <= k <= |s| && Matches(caseSensitive, s[k..], w[1..])
    else s != "" && MatchesOne(caseSensitive, w[0], s[0]) && Matches(caseSensitive, s[1..], w[1..])
  }

  /** `Matches` on suffixes given by their positions. */
  ghost predicate MatchesAt(cs: bool, s: string, w: string, i: int, j: int) {
    0 <= i <= |s| && 0 <= j <= |w| && Matches(cs, s[i..], w[j..])
  }

  /** Some suffix starting at `lo` or later matches the pattern from `j`. */
  ghost predicate MatchesFrom(cs: bool, s: string, w: string, lo: int, j: int) {
    exists k :: lo <= k <= |s| && MatchesAt(cs, s, w, k, j)
  }

  lemma MatchesAtEnd(cs: bool, s: string, w: string, i: int)
    requires 0 <= i <= |s|
    ensures MatchesAt(cs, s, w, i, |w|) <==> i == |s|
  {}

  lemma LiteralMatches(cs: bool, s: string, w: string, i: int, j: int)
    requires 0 <= i <= |s| && 0 <= j < |w| && w[j] != '*'
    ensures MatchesAt(cs, s, w, i, j) <==> i < |s| && MatchesOne(cs, w[j], s[i]) && MatchesAt(cs, s, w, i + 1, j + 1)
  {}

  lemma StarMatches(cs: bool, s: string, w: string, i: int, j: int)
    requires 0 <= i <= |s| && 0 <= j < |w| && w[j] == '*'
    ensures MatchesAt(cs, s, w, i, j) <==> MatchesFrom(cs, s, w, i, j + 1)
  {
    assert w[j..][1..] == w[j + 1..];
    forall k | 0 <= k <= |s| - i
      ensures s[i..][k..] == s[i + k..]
    {}
    if MatchesAt(cs, s, w, i, j) {
      var k :| 0 <= k <= |s[i..]| && Matches(cs, s[i..][k..], w[j..][1..]);
      assert MatchesAt(cs, s, w, i + k, j + 1);
    }
    if MatchesFrom(cs, s, w, i, j + 1) {
      var j1 := j + 1;
      var k :| i <= k <= |s| && MatchesAt(cs, s, w, k, j1);
      assert Matches(cs, s[i..][k - i..], w[j..][1..]);
    }
  }

  /** The pattern segment w[m..j] has no star and matches s[c..c + (j - m)] character by character. */
  ghost predicate Aligned(cs: bool, s: string, w: string, c: int, m: int, j: int) {
    0 <= c && 0 <= m <= j <= |w| && c + (j - m) <= |s| &&
    forall x :: m <= x < j ==> w[x] != '*' && MatchesOne(cs, w[x], s[c + (x - m)])
  }

  /** A star-free segment consumes exactly its length. */
  lemma {:induction false} SegmentConsumes(cs: bool, s: string, w: string, k: int, m: int, j: int)
    requires 0 <= m <= j <= |w| && MatchesAt(cs, s, w, k, m)
    requires forall x :: m <= x < j ==> w[x] != '*'
    ensures k + (j - m) <= |s| && MatchesAt(cs, s, w, k + (j - m), j)
    decreases j - m
  {
    if m < j {
      LiteralMatches(cs, s, w, k, m);
      SegmentConsumes(cs, s, w, k + 1, m + 1, j);
    }
  }

  /**
   What the backtracking search still has to explore: the current alignment, or a later start
   `k >= cp` for the text after the last star.
   */
  ghost predicate Open(cs: bool, s: string, w: string, i: int, j: int, mp: int, cp: int) {
    MatchesAt(cs, s, w, i, j) || MatchesFrom(cs, s, w, cp, mp)
  }

  /**
   The loop invariant of the backtracking search. Before the first star nothing is aligned yet;
   after it the text from `cp - 1` is aligned with the pattern from `mp`, just behind the last star.
   */
  ghost predicate Searching(cs: bool, s: string, w: string, i: int, j: int, mp: int, cp: int, starSeen: bool) {
    if !starSeen then
      MatchesAt(cs, s, w, 0, 0) <==> MatchesAt(cs, s, w, i, j)
    else
      && Aligned(cs, s, w, cp - 1, mp, j)
      && i == cp - 1 + (j - mp)
      && (MatchesAt(cs, s, w, 0, 0) <==> Open(cs, s, w, i, j, mp, cp))
  }

  lemma SearchStart(cs: bool, s: string, w: string)
    ensures Searching(cs, s, w, 0, 0, 0, 0, false)
    ensures MatchesAt(cs, s, w, 0, 0) <==> Matches(cs, s, w)
  {}

  /** Meeting another star makes every later start of the previous one redundant. */
  lemma LastStarSuffices(cs: bool, s: string, w: string, i: int, j: int, mp: int, cp: int)
    requires Aligned(cs, s, w, cp - 1, mp, j) && i == cp - 1 + (j - mp)
    requires j < |w| && w[j] == '*'
    ensures Open(cs, s, w, i, j, mp, cp) <==> MatchesAt(cs, s, w, i, j)
  {
    if k :| cp <= k <= |s| && MatchesAt(cs, s, w, k, mp) {
      SegmentConsumes(cs, s, w, k, mp, j);
      StarMatches(cs, s, w, k + (j - mp), j);
      StarMatches(cs, s, w, i, j);
    }
  }

  lemma StarStep(cs: bool, s: string, w: string, i: int, j: int, mp: int, cp: int, starSeen: bool)
    requires Searching(cs, s, w, i, j, mp, cp, starSeen)
    requires 0 <= i <= |s| && 0 <= j < |w| && w[j] == '*'
    ensures Searching(cs, s, w, i, j + 1, j + 1, i + 1, true)
    ensures j + 1 == |w| ==> MatchesAt(cs, s, w, 0, 0)
  {
    if starSeen {
      LastStarSuffices(cs, s, w, i, j, mp, cp);
    }
    StarMatches(cs, s, w, i, j);
    var j1 := j + 1;
    assert MatchesFrom(cs, s, w, i, j1) <==> MatchesAt(cs, s, w, i, j1) || MatchesFrom(cs, s, w, i + 1, j1);
    if j1 == |w| {
      MatchesAtEnd(cs, s, w, |s|);
      assert MatchesAt(cs, s, w, |s|, j1);
    }
  }

  lemma LiteralStep(cs: bool, s: string, w: string, i: int, j: int, mp: int, cp: int, starSeen: bool)
    requires Searching(cs, s, w, i, j, mp, cp, starSeen)
    requires 0 <= i < |s| && 0 <= j < |w| && w[j] != '*' && MatchesOne(cs, w[j], s[i])
    ensures Searching(cs, s, w, i + 1, j + 1, mp, cp, starSeen)
  {}

  lemma PrefixMismatch(cs: bool, s: string, w: string, i: int, j: int)
    requires Searching(cs, s, w, i, j, 0, 0, false)
    requires 0 <= i < |s| && 0 <= j <= |w|
    requires j < |w| ==> w[j] != '*' && !MatchesOne(cs, w[j], s[i])
    ensures !MatchesAt(cs, s, w, 0, 0)
  {}

  /** A failed alignment moves the search to the next start after the last star. */
  lemma BacktrackStep(cs: bool, s: string, w: string, i: int, j: int, mp: int, cp: int)
    requires Searching(cs, s, w, i, j, mp, cp, true)
    requires 0 <= i < |s| && 0 <= j <= |w|
    requires j < |w| ==> w[j] != '*' && !MatchesOne(cs, w[j], s[i])
    ensures Searching(cs, s, w, cp, mp, mp, cp + 1, true)
  {}

  /** Once the text is used up no later start can fit. */
  lemma SearchAtEnd(cs: bool, s: string, w: string, j: int, mp: int, cp: int, starSeen: bool)
    requires Searching(cs, s, w, |s|, j, mp, cp, starSeen)
    ensures MatchesAt(cs, s, w, 0, 0) <==> MatchesAt(cs, s, w, |s|, j)
  {
    if starSeen {
      if k :| cp <= k <= |s| && MatchesAt(cs, s, w, k, mp) {
        SegmentConsumes(cs, s, w, k, mp, j);
        assert false;
      }
    }
  }

  lemma {:induction false} TrailingStars(cs: bool, s: string, w: string, j: int, e: int)
    requires 0 <= j <= e <= |w| && forall x :: j <= x < e ==> w[x] == '*'
    requires e < |w| ==> w[e] != '*'
    ensures MatchesAt(cs, s, w, |s|, j) <==> e == |w|
    decreases e - j
  {
    if j < e {
      StarMatches(cs, s, w, |s|, j);
      TrailingStars(cs, s, w, j + 1, e);
    } else if e < |w| {
      LiteralMatches(cs, s, w, |s|, e);
    } else {
      MatchesAtEnd(cs, s, w, |s|);
    }
  }

  method Wildcmp(str: string, wild: string, caseSensitive: bool) returns (r: bool)
    ensures r <==> Matches(caseSensitive, str, wild)
  {
    hide Matches, MatchesAt, Searching;
    SearchStart(caseSensitive, str, wild);
    ghost var cs, s, w := caseSensitive, str, wild;
    var i, j := 0, 0;
    while i < |str| && !(j < |wild| && wild[j] == '*')
      invariant 0 <= i <= |str| && 0 <= j <= |wild|
      invariant Searching(cs, s, w, i, j, 0, 0, false)
      decreases |str| - i
    {
      if j == |wild| || !MatchesOne(caseSensitive, wild[j], str[i]) {
        PrefixMismatch(cs, s, w, i, j);
        return false;
      }
      LiteralStep(cs, s, w, i, j, 0, 0, false);
      i, j := i + 1, j + 1;
    }

    var mp, cp := 0, 0;
    ghost var starSeen := false;
    while i < |str|
      invariant 0 <= i <= |str| && 0 <= j <= |wild| && 0 <= mp <= |wild| && 0 <= cp <= |str| + 1
      invariant if starSeen then 0 < mp <= j && cp <= i + 1 else mp == 0 && (i < |str| ==> j < |wild| && wild[j] == '*')
      invariant Searching(cs, s, w, i, j, mp, cp, starSeen)
      decreases |wild| - mp, |str| + 1 - cp, |str| - i
    {
      if j < |wild| && wild[j] == '*' {
        StarStep(cs, s, w, i, j, mp, cp, starSeen);
        j := j + 1;
        if j == |wild| {
          return true;
        }
        mp := j;
        cp := i + 1;
        starSeen := true;
      } else if j < |wild| && MatchesOne(caseSensitive, wild[j], str[i]) {
        LiteralStep(cs, s, w, i, j, mp, cp, starSeen);
        i, j := i + 1, j + 1;
      } else {
        BacktrackStep(cs, s, w, i, j, mp, cp);
        j := mp;
        i := cp;
        cp := cp + 1;
      }
    }
    SearchAtEnd(cs, s, w, j, mp, cp, starSeen);

    ghost var j0 := j;
    while j < |wild| && wild[j] == '*'
      invariant j0 <= j <= |wild|
      invariant forall x :: j0 <= x < j ==> wild[x] == '*'
    {
      j := j + 1;
    }
    TrailingStars(cs, s, w, j0, j);
    return j == |wild|;
  }

  /** A name passes a filter list when some filter matches it, or the list is empty and `matchEmpty`. */
  ghost predicate MatchesSome(name: string, filters: seq<string>, matchEmpty: bool, caseSensitive: bool) {
    (filters == [] && matchEmpty) || exists f :: f in filters && Matches(caseSensitive, name, f)
  }

  method MatchesAny(name: string, filters: seq<string>, matchEmpty: bool, caseSensitive: bool) returns (r: bool)
    ensures r <==> MatchesSome(name, filters, matchEmpty, caseSensitive)
  {
    if filters == [] && matchEmpty {
      return true;
    }
    for i := 0 to |filters|
      invariant forall k :: 0 <= k < i ==> !Matches(caseSensitive, name, filters[k])
    {
      var m := Wildcmp(name, filters[i], caseSensitive);
      if m {
        return true;
      }
    }
    return false;
  }

  // ---------- what patterns mean, character by character ----------

  /** The code of a letter in lower case. */
  function LowerCode(c: char): int {
    if 'A' <= c <= 'Z' then c as int + 32 else c as int
  }

  /** Without a star, text and pattern agree position by position. */
  lemma {:induction false} StarFreeMatches(cs: bool, s: string, w: string)
    requires '*' !in w
    ensures Matches(cs, s, w) <==>
            |s| == |w| && forall i :: 0 <= i < |w| ==>
              w[i] == '?' || w[i] == s[i] || (!cs && LowerCode(w[i]) == LowerCode(s[i]))
    decreases |w|
  {
    if w != "" && s != "" {
      StarFreeMatches(cs, s[1..], w[1..]);
      var rest, text := w[1..], s[1..];
      if Matches(cs, s, w) {
        forall i | 0 <= i < |w|
          ensures w[i] == '?' || w[i] == s[i] || (!cs && LowerCode(w[i]) == LowerCode(s[i]))
        {
          assert i > 0 ==> w[i] == rest[i - 1] && s[i] == text[i - 1];
        }
      }
    }
  }

  function Marks(n: nat): (r: string)
    ensures |r| == n && forall i :: 0 <= i < n ==> r[i] == '?'
  {
    seq(n, _ => '?')
  }

  /** n question marks match the texts of length n. */
  lemma MarksMatch(cs: bool, s: string, n: nat)
    ensures Matches(cs, s, Marks(n)) <==> |s| == n
  {
    StarFreeMatches(cs, s, Marks(n));
  }

  /** A pattern of two parts matches the texts that can be cut so that each part matches its piece. */
  lemma {:induction false} PartsMatch(cs: bool, s: string, u: string, v: string)
    ensures Matches(cs, s, u + v) <==> exists k :: 0 <= k <= |s| && Matches(cs, s[..k], u) && Matches(cs, s[k..], v)
    decreases |u|
  {
    if u == "" {
      assert u + v == v && s[0..] == s && s[..0] == "";
      assert Matches(cs, s, v) ==> Matches(cs, s[..0], u) && Matches(cs, s[0..], v);
    } else {
      assert (u + v)[1..] == u[1..] + v && (u + v)[0] == u[0];
      if u[0] == '*' {
        StarPartMatches(cs, s, u, v);
      } else {
        LiteralPartMatches(cs, s, u, v);
      }
    }
  }

  lemma StarPartMatches(cs: bool, s: string, u: string, v: string)
    requires u != "" && u[0] == '*' && (u + v)[1..] == u[1..] + v
    ensures Matches(cs, s, u + v) <==> exists k :: 0 <= k <= |s| && Matches(cs, s[..k], u) && Matches(cs, s[k..], v)
    decreases |u|, 1
  {
    if Matches(cs, s, u + v) {
      StarPartCuts(cs, s, u, v);
    }
    if k :| 0 <= k <= |s| && Matches(cs, s[..k], u) && Matches(cs, s[k..], v) {
      StarPartJoins(cs, s, u, v, k);
    }
  }

  lemma StarPartCuts(cs: bool, s: string, u: string, v: string)
    requires u != "" && u[0] == '*' && (u + v)[1..] == u[1..] + v && Matches(cs, s, u + v)
    ensures exists k :: 0 <= k <= |s| && Matches(cs, s[..k], u) && Matches(cs, s[k..], v)
    decreases |u|, 0
  {
    var j :| 0 <= j <= |s| && Matches(cs, s[j..], (u + v)[1..]);
    PartsMatch(cs, s[j..], u[1..], v);
    var k :| 0 <= k <= |s[j..]| && Matches(cs, s[j..][..k], u[1..]) && Matches(cs, s[j..][k..], v);
    assert s[..j + k][j..] == s[j..][..k] && s[j..][k..] == s[j + k..];
    assert Matches(cs, s[..j + k], u);
  }

  lemma StarPartJoins(cs: bool, s: string, u: string, v: string, k: nat)
    requires u != "" && u[0] == '*' && (u + v)[1..] == u[1..] + v
    requires k <= |s| && Matches(cs, s[..k], u) && Matches(cs, s[k..], v)
    ensures Matches(cs, s, u + v)
    decreases |u|, 0
  {
    var j :| 0 <= j <= |s[..k]| && Matches(cs, s[..k][j..], u[1..]);
    assert s[..k][j..] == s[j..][..k - j] && s[j..][k - j..] == s[k..];
    PartsMatch(cs, s[j..], u[1..], v);
    assert Matches(cs, s[j..], (u + v)[1..]);
  }

  lemma LiteralPartMatches(cs: bool, s: string, u: string, v: string)
    requires u != "" && u[0] != '*' && (u + v)[1..] == u[1..] + v
    ensures Matches(cs, s, u + v) <==> exists k :: 0 <= k <= |s| && Matches(cs, s[..k], u) && Matches(cs, s[k..], v)
    decreases |u|, 1
  {
    if Matches(cs, s, u + v) {
      LiteralPartCuts(cs, s, u, v);
    }
    if k :| 0 <= k <= |s| && Matches(cs, s[..k], u) && Matches(cs, s[k..], v) {
      LiteralPartJoins(cs, s, u, v, k);
    }
  }

  lemma LiteralPartCuts(cs: bool, s: string, u: string, v: string)
    requires u != "" && u[0] != '*' && (u + v)[1..] == u[1..] + v && Matches(cs, s, u + v)
    ensures exists k :: 0 <= k <= |s| && Matches(cs, s[..k], u) && Matches(cs, s[k..], v)
    decreases |u|, 0
  {
    var text := s[1..];
    PartsMatch(cs, text, u[1..], v);
    var k :| 0 <= k <= |text| && Matches(cs, text[..k], u[1..]) && Matches(cs, text[k..], v);
    assert s[..k + 1][1..] == text[..k] && text[k..] == s[k + 1..];
    assert Matches(cs, s[..k + 1], u);
  }

  lemma LiteralPartJoins(cs: bool, s: string, u: string, v: string, k: nat)
    requires u != "" && u[0] != '*' && (u + v)[1..] == u[1..] + v
    requires k <= |s| && Matches(cs, s[..k], u) && Matches(cs, s[k..], v)
    ensures Matches(cs, s, u + v)
    decreases |u|, 0
  {
    PartsMatch(cs, s[1..], u[1..], v);
    assert s[..k][1..] == s[1..][..k - 1] && s[k..] == s[1..][k - 1..];
    assert Matches(cs, s[1..], u[1..] + v);
  }

  /** A star alone matches every text; with `PartsMatch` and `StarFreeMatches` this fixes every pattern. */
  lemma StarMatchesAll(cs: bool, s: string)
    ensures Matches(cs, s, "*")
  {
    assert Matches(cs, s[|s|..], "*"[1..]);
  }

  /** The same text up to the case of its letters. */
  ghost predicate SameUpToCase(a: string, b: string) {
    |a| == |b| && forall i :: 0 <= i < |a| ==> LowerCode(a[i]) == LowerCode(b[i])
  }

  /** Without case sensitivity the case of no letter matters, in the text or in the pattern. */
  lemma {:induction false} CaseDoesNotMatter(s: string, s': string, w: string, w': string)
    requires SameUpToCase(s, s') && SameUpToCase(w, w')
    ensures Matches(false, s, w) <==> Matches(false, s', w')
    decreases |w|
  {
    if w != "" {
      assert SameUpToCase(w[1..], w'[1..]);
      if w[0] == '*' {
        forall k | 0 <= k <= |s|
          ensures Matches(false, s[k..], w[1..]) <==> Matches(false, s'[k..], w'[1..])
        {
          CaseDoesNotMatter(s[k..], s'[k..], w[1..], w'[1..]);
        }
      } else if s != "" {
        CaseDoesNotMatter(s[1..], s'[1..], w[1..], w'[1..]);
      }
    }
  }
}
