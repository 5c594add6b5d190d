/** Glob patterns in access rules: `*` stands for any string, `?` for any byte. */
module Glob {
  import opened Wrappers

  /** What a pattern means. */
  ghost predicate Match(p: string, s: string)
    decreases |p| + |s|
  {
    if p == "" then s == ""
    else if p[0] == '*' then Match(p[1..], s) || (s != "" && Match(p, s[1..]))
    else s != "" && (p[0] == '?' || p[0] == s[0]) && Match(p[1..], s[1..])
  }

  predicate AllStars(p: string) {
    p == "" || (p[0] == '*' && AllStars(p[1..]))
  }

  /** Where to resume: the pattern after the last star, and the subject from where the star
      last gave up. */
  type Fallback = Option<(string, string)>

  /** The matcher's loop, on what is left of the pattern and of the subject. The literal case
      comes before the star case, as in the code. */
  predicate Scan(p: string, s: string, back: Fallback)
    requires back.Some? ==> |s| <= |back.value.1|
    decreases if back.Some? then |back.value.1| else |s| + 1, |p| + |s|
  {
    if s == "" then AllStars(p)
    else if p != "" && (p[0] == '?' || p[0] == s[0]) then Scan(p[1..], s[1..], back)
    else if p != "" && p[0] == '*' then Scan(p[1..], s, Some((p[1..], s)))
    else if back.Some? then
      var (after, rest) := back.value;
      Scan(after, rest[1..], Some((after, rest[1..])))
    else false
  }

  predicate Matched(pattern: string, str: string) {
    if pattern == "" then str == "" else if pattern == "*" then true else Scan(pattern, str, None)
  }

  function Resume(pattern: string, str: string, starIdx: int, matchIdx: nat): Fallback
    requires -1 <= starIdx < |pattern| && matchIdx <= |str|
  {
    if starIdx == -1 then None else Some((pattern[starIdx + 1..], str[matchIdx..]))
  }

  method GlobMatch(pattern: string, str: string) returns (r: bool)
    ensures r == Matched(pattern, str)
    ensures r ==> Match(pattern, str)
    ensures '*' !in str ==> (r <==> Match(pattern, str))
  {
    MatchedIsSound(pattern, str);
    if '*' !in str { MatchedIsComplete(pattern, str); }
    MatchedStarts(pattern, str);
    hide Match, Scan, Matched, AllStars, At;
    if pattern == "" {
      return str == "";
    }
    if pattern == "*" {
      return true;
    }
    var pIdx, sIdx, starIdx, matchIdx := 0, 0, -1, 0;
    while sIdx < |str|
      invariant 0 <= pIdx <= |pattern| && 0 <= matchIdx <= sIdx <= |str| && -1 <= starIdx < pIdx
      invariant At(pattern, str, pIdx, sIdx, starIdx, matchIdx)
      decreases if starIdx == -1 then |str| - sIdx + 1 else |str| - matchIdx, (|pattern| - pIdx) + (|str| - sIdx)
    {
      ScanStep(pattern, str, pIdx, sIdx, starIdx, matchIdx);
      if pIdx < |pattern| && (pattern[pIdx] == '?' || pattern[pIdx] == str[sIdx]) {
        pIdx, sIdx := pIdx + 1, sIdx + 1;
      } else if pIdx < |pattern| && pattern[pIdx] == '*' {
        starIdx, matchIdx := pIdx, sIdx;
        pIdx := pIdx + 1;
      } else if starIdx != -1 {
        pIdx := starIdx + 1;
        matchIdx := matchIdx + 1;
        sIdx := matchIdx;
      } else {
        return false;
      }
    }
    ScanEnds(pattern, str, pIdx, sIdx, starIdx, matchIdx);
    while pIdx < |pattern| && pattern[pIdx] == '*'
      invariant 0 <= pIdx <= |pattern|
      invariant Matched(pattern, str) == AllStars(pattern[pIdx..])
    {
      StarsStep(pattern, pIdx);
      pIdx := pIdx + 1;
    }
    StarsStep(pattern, pIdx);
    r := pIdx == |pattern|;
  }

  /** The matcher will say what the scan says from here. */
  ghost predicate At(pattern: string, str: string, pIdx: nat, sIdx: nat, starIdx: int, matchIdx: nat)
    requires pIdx <= |pattern| && matchIdx <= sIdx <= |str| && -1 <= starIdx < pIdx
  {
    Matched(pattern, str) == Scan(pattern[pIdx..], str[sIdx..], Resume(pattern, str, starIdx, matchIdx))
  }

  /** The two shortcuts, and where the loop begins. */
  lemma MatchedStarts(pattern: string, str: string)
    ensures pattern == "" ==> Matched(pattern, str) == (str == "")
    ensures pattern == "*" ==> Matched(pattern, str)
    ensures pattern != "" && pattern != "*" ==> At(pattern, str, 0, 0, -1, 0)
  {
    hide Scan;
    assert pattern[0..] == pattern && str[0..] == str;
  }

  lemma StarsStep(pattern: string, pIdx: nat)
    requires pIdx <= |pattern|
    ensures AllStars(pattern[pIdx..]) ==
      (pIdx == |pattern| || (pattern[pIdx] == '*' && AllStars(pattern[pIdx + 1..])))
  {
    if pIdx < |pattern| { assert pattern[pIdx..][1..] == pattern[pIdx + 1..]; }
  }

  lemma ScanEnds(pattern: string, str: string, pIdx: nat, sIdx: nat, starIdx: int, matchIdx: nat)
    requires pIdx <= |pattern| && matchIdx <= sIdx == |str| && -1 <= starIdx < pIdx
    requires At(pattern, str, pIdx, sIdx, starIdx, matchIdx)
    ensures Matched(pattern, str) == AllStars(pattern[pIdx..])
  {
    hide Scan, Matched, AllStars;
    assert str[sIdx..] == "";
    ScanEnd(pattern[pIdx..], Resume(pattern, str, starIdx, matchIdx));
  }

  /** One turn of the loop. */
  lemma ScanStep(pattern: string, str: string, pIdx: nat, sIdx: nat, starIdx: int, matchIdx: nat)
    requires pIdx <= |pattern| && matchIdx <= sIdx < |str| && -1 <= starIdx < pIdx
    requires At(pattern, str, pIdx, sIdx, starIdx, matchIdx)
    ensures if pIdx < |pattern| && (pattern[pIdx] == '?' || pattern[pIdx] == str[sIdx])
            then At(pattern, str, pIdx + 1, sIdx + 1, starIdx, matchIdx)
            else if pIdx < |pattern| && pattern[pIdx] == '*'
            then At(pattern, str, pIdx + 1, sIdx, pIdx, sIdx)
            else if starIdx != -1
            then At(pattern, str, starIdx + 1, matchIdx + 1, starIdx, matchIdx + 1)
            else !Matched(pattern, str)
  {
    hide Matched;
    assert str[sIdx..][1..] == str[sIdx + 1..];
    assert str[matchIdx..][1..] == str[matchIdx + 1..];
    assert pIdx < |pattern| ==> pattern[pIdx..][1..] == pattern[pIdx + 1..];
  }

  lemma ScanEnd(p: string, back: Fallback)
    ensures Scan(p, "", back) == AllStars(p)
  {
  }

  // ---- every answer of true is right ----

  lemma {:induction false} EmptySubject(p: string)
    ensures Match(p, "") <==> AllStars(p)
  {
    if p != "" { EmptySubject(p[1..]); }
  }

  lemma StarMatch(p: string, s: string)
    ensures Match("*" + p, s) <==> Match(p, s) || (s != "" && Match("*" + p, s[1..]))
  {
    assert ("*" + p)[1..] == p;
  }

  lemma {:induction false} ScanIsSound(p: string, s: string, back: Fallback)
    requires back.Some? ==> |s| <= |back.value.1|
    requires Scan(p, s, back)
    ensures Match(p, s) || (back.Some? && Match("*" + back.value.0, back.value.1))
    decreases if back.Some? then |back.value.1| else |s| + 1, |p| + |s|
  {
    if s == "" {
      EmptySubject(p);
    } else if p != "" && (p[0] == '?' || p[0] == s[0]) {
      ScanIsSound(p[1..], s[1..], back);
    } else if p != "" && p[0] == '*' {
      ScanIsSound(p[1..], s, Some((p[1..], s)));
      assert p == "*" + p[1..];
    } else {
      var (after, rest) := back.value;
      ScanIsSound(after, rest[1..], Some((after, rest[1..])));
      StarMatch(after, rest);
      StarMatch(after, rest[1..]);
    }
  }

  lemma {:induction false} StarTakesAll(s: string)
    ensures Match("*", s)
  {
    assert "*"[1..] == "";
    if s != "" { StarTakesAll(s[1..]); }
  }

  lemma MatchedIsSound(pattern: string, str: string)
    ensures Matched(pattern, str) ==> Match(pattern, str)
  {
    if pattern == "*" {
      StarTakesAll(str);
    } else if pattern != "" && Matched(pattern, str) {
      ScanIsSound(pattern, str, None);
    }
  }

  // ---- without a star in the subject, every answer is right ----

  lemma {:induction false} StarAbsorbs(p: string, s: string, i: nat)
    requires i <= |s| && Match("*" + p, s[i..])
    ensures Match("*" + p, s)
  {
    if i == 0 {
      assert s[0..] == s;
    } else {
      assert s[1..][i - 1..] == s[i..];
      StarAbsorbs(p, s[1..], i - 1);
      StarMatch(p, s);
    }
  }

  /** A star-free piece takes exactly its length. */
  lemma {:induction false} PieceTakesItsLength(u: string, p: string, s: string)
    requires '*' !in u && Match(u + p, s)
    ensures |u| <= |s| && Match(p, s[|u|..])
  {
    if u == "" {
      assert u + p == p && s[0..] == s;
    } else {
      assert (u + p)[1..] == u[1..] + p && (u + p)[0] == u[0];
      PieceTakesItsLength(u[1..], p, s[1..]);
      assert s[1..][|u| - 1..] == s[|u|..];
    }
  }

  /** Wherever a star lets the piece u begin, what follows u matches further on. */
  lemma {:induction false} AfterThePiece(u: string, p: string, s: string) returns (j: nat)
    requires '*' !in u && Match("*" + (u + p), s)
    ensures j + |u| <= |s| && Match(p, s[j + |u|..])
    decreases |s|
  {
    StarMatch(u + p, s);
    if Match(u + p, s) {
      PieceTakesItsLength(u, p, s);
      j := 0;
    } else {
      var k := AfterThePiece(u, p, s[1..]);
      j := k + 1;
      assert s[1..][k + |u|..] == s[j + |u|..];
    }
  }

  /** The matcher is aligned: it has read a star-free piece u since the last star, against
      as many bytes of the subject. */
  ghost predicate Aligned(p: string, s: string, back: Fallback) {
    back.Some? ==>
      var (after, rest) := back.value;
      |s| <= |rest| && s == rest[|rest| - |s|..] && |p| <= |after| &&
      |after| - |p| == |rest| - |s| && after == after[..|after| - |p|] + p && '*' !in after[..|after| - |p|]
  }

  ghost predicate LaterStart(back: Fallback) {
    back.Some? && back.value.1 != "" && Match("*" + back.value.0, back.value.1[1..])
  }

  /** When a second star is met, starting the piece before it later cannot win what this
      start would lose. */
  lemma FirstFitIsBest(p: string, s: string, back: Fallback)
    requires p != "" && p[0] == '*' && Aligned(p, s, back) && LaterStart(back)
    ensures Match(p, s)
  {
    var (after, rest) := back.value;
    var u := after[..|after| - |p|];
    var j := AfterThePiece(u, p, rest[1..]);
    assert rest[1..][j + |u|..] == s[j + 1..];
    assert p == "*" + p[1..];
    StarAbsorbs(p[1..], s, j + 1);
  }

  lemma NothingLeft(p: string, back: Fallback)
    requires Aligned(p, "", back)
    ensures !LaterStart(back)
  {
    if LaterStart(back) {
      var (after, rest) := back.value;
      var j := AfterThePiece(after[..|after| - |p|], p, rest[1..]);
    }
  }

  predicate Fits(p: string, s: string) {
    p != "" && s != "" && (p[0] == '?' || p[0] == s[0])
  }

  lemma ScanFits(p: string, s: string, back: Fallback)
    requires Fits(p, s) && s[0] != '*' && (back.Some? ==> |s| <= |back.value.1|)
    ensures Scan(p, s, back) == Scan(p[1..], s[1..], back) && Match(p, s) == Match(p[1..], s[1..])
  {
  }

  lemma ScanStar(p: string, s: string, back: Fallback)
    requires p != "" && p[0] == '*' && s != "" && s[0] != '*' && (back.Some? ==> |s| <= |back.value.1|)
    ensures Scan(p, s, back) == Scan(p[1..], s, Some((p[1..], s)))
    ensures Match(p, s) <==> Match(p[1..], s) || Match(p, s[1..])
    ensures p == "*" + p[1..]
  {
  }

  lemma ScanFallsBack(p: string, s: string, back: Fallback)
    requires s != "" && !Fits(p, s) && !(p != "" && p[0] == '*') && (back.Some? ==> |s| <= |back.value.1|)
    ensures !Match(p, s) && (back.None? ==> !Scan(p, s, back))
    ensures back.Some? ==>
      Scan(p, s, back) == Scan(back.value.0, back.value.1[1..], Some((back.value.0, back.value.1[1..])))
  {
  }

  lemma {:induction false} ScanIsExact(p: string, s: string, back: Fallback)
    requires Aligned(p, s, back) && '*' !in s && (back.Some? ==> '*' !in back.value.1)
    ensures Scan(p, s, back) <==> Match(p, s) || LaterStart(back)
    decreases if back.Some? then |back.value.1| else |s| + 1, |p| + |s|
  {
    hide Scan, Match;
    if s == "" {
      ScanEnd(p, back);
      EmptySubject(p);
      NothingLeft(p, back);
    } else if Fits(p, s) {
      ScanFits(p, s, back);
      StaysAligned(p, s, back);
      ScanIsExact(p[1..], s[1..], back);
    } else if p != "" && p[0] == '*' {
      ScanStar(p, s, back);
      ScanIsExact(p[1..], s, Some((p[1..], s)));
      if LaterStart(back) { FirstFitIsBest(p, s, back); }
    } else {
      ScanFallsBack(p, s, back);
      if back.Some? {
        var (after, rest) := back.value;
        ScanIsExact(after, rest[1..], Some((after, rest[1..])));
        StarMatch(after, rest[1..]);
      }
    }
  }

  lemma StaysAligned(p: string, s: string, back: Fallback)
    requires Aligned(p, s, back) && p != "" && s != "" && p[0] != '*'
    ensures Aligned(p[1..], s[1..], back)
  {
    if back.Some? {
      var (after, rest) := back.value;
      var n := |after| - |p|;
      assert after[n] == p[0];
      assert after[..n + 1] == after[..n] + [p[0]];
      assert after == after[..n + 1] + p[1..];
    }
  }

  lemma MatchedIsComplete(pattern: string, str: string)
    requires '*' !in str
    ensures Matched(pattern, str) <==> Match(pattern, str)
  {
    if pattern == "*" {
      StarTakesAll(str);
    } else if pattern != "" {
      ScanIsExact(pattern, str, None);
    }
  }

  // ---- with a star in the subject, some answer is wrong ----

  function AnyBytes(n: nat): string {
    if n == 0 then "" else "?" + AnyBytes(n - 1)
  }

  lemma {:induction false} AnyBytesMatch(s: string)
    ensures Match(AnyBytes(|s|), s)
  {
    if s != "" {
      assert AnyBytes(|s|)[1..] == AnyBytes(|s| - 1);
      AnyBytesMatch(s[1..]);
    }
  }

  lemma {:induction false} OneTooMany(s: string)
    ensures !Scan(AnyBytes(|s| + 1), s, None)
  {
    assert AnyBytes(|s| + 1)[1..] == AnyBytes(|s|);
    if s != "" { OneTooMany(s[1..]); }
  }

  /** Ahead of the first star of the subject both readings take u literally. */
  lemma {:induction false} LiteralPrefix(u: string, p: string, s: string)
    requires '*' !in u
    ensures Scan(u + p, u + s, None) <==> Scan(p, s, None)
    ensures Match(u + p, u + s) <==> Match(p, s)
  {
    if u == "" {
      assert u + p == p && u + s == s;
    } else {
      assert (u + p)[1..] == u[1..] + p && (u + s)[1..] == u[1..] + s;
      assert (u + p)[0] == u[0] == (u + s)[0];
      LiteralPrefix(u[1..], p, s);
    }
  }

  /** For a subject with a star in it, a pattern that matches and is refused. */
  lemma StarInSubjectFails(u: string, v: string) returns (p: string)
    requires '*' !in u
    ensures Match(p, u + ("*" + v)) && !Matched(p, u + ("*" + v))
  {
    var tail, rest := "*" + AnyBytes(|v| + 1), "*" + v;
    p := u + tail;
    LiteralPrefix(u, tail, rest);
    assert tail[1..] == AnyBytes(|v| + 1) && rest[1..] == v;
    OneTooMany(v);
    AnyBytesMatch(rest);
    assert |p| >= 2;
  }

  lemma {:induction false} FirstStar(s: string) returns (u: string, v: string)
    requires '*' in s
    ensures s == u + ("*" + v) && '*' !in u
  {
    if s[0] == '*' {
      u, v := "", s[1..];
    } else {
      u, v := FirstStar(s[1..]);
      u := [s[0]] + u;
    }
  }

  /** The matcher is right about a subject, whatever the pattern, exactly when the subject
      has no star in it. */
  lemma ExactIff(s: string)
    ensures (forall p :: Matched(p, s) <==> Match(p, s)) <==> '*' !in s
  {
    if '*' !in s {
      forall p ensures Matched(p, s) <==> Match(p, s) { MatchedIsComplete(p, s); }
    } else {
      var u, v := FirstStar(s);
      var p := StarInSubjectFails(u, v);
    }
  }
}
