/** The string functions the narinfo code calls. A char stands for a rune. */
module Text {
  import opened Wrappers
  import opened Arithmetic

  // ---- strings.Split, strings.TrimRight ----

  function SplitLines(s: string): (r: seq<string>)
    ensures |r| >= 1
  {
    if s == "" then [""]
    else
      var r := SplitLines(s[1..]);
      if s[0] == '\n' then [""] + r else [[s[0]] + r[0]] + r[1..]
  }

  function TrimNewlines(s: string): string {
    if s != "" && s[|s| - 1] == '\n' then TrimNewlines(s[..|s| - 1]) else s
  }

  /** Every line with its newline. */
  function Unlines(ls: seq<string>): string {
    if ls == [] then "" else Unlines(ls[..|ls| - 1]) + ls[|ls| - 1] + "\n"
  }

  ghost predicate OneLine(s: string) {
    '\n' !in s
  }

  lemma {:induction false} SplitOneLine(l: string)
    requires OneLine(l)
    ensures SplitLines(l) == [l]
  {
    if l != "" {
      SplitOneLine(l[1..]);
      assert [l[0]] + l[1..] == l;
    }
  }

  lemma {:induction false} SplitAppend(s: string, l: string)
    requires OneLine(l)
    ensures SplitLines(s + "\n" + l) == SplitLines(s) + [l]
  {
    if s == "" {
      assert "" + "\n" + l == "\n" + l && ("\n" + l)[1..] == l;
      SplitOneLine(l);
    } else {
      assert (s + "\n" + l)[1..] == s[1..] + "\n" + l && (s + "\n" + l)[0] == s[0];
      SplitAppend(s[1..], l);
    }
  }

  /** Lines of a text that ends in one newline. */
  lemma {:induction false} LinesOfText(ls: seq<string>)
    requires ls != [] && (forall l :: l in ls ==> OneLine(l)) && ls[|ls| - 1] != ""
    ensures SplitLines(TrimNewlines(Unlines(ls))) == ls
  {
    var init, last := ls[..|ls| - 1], ls[|ls| - 1];
    assert last in ls;
    var body := Unlines(init) + last;
    assert Unlines(ls) == body + "\n" && Unlines(ls)[..|Unlines(ls)| - 1] == body;
    assert body[|body| - 1] == last[|last| - 1] && last[|last| - 1] in last;
    assert TrimNewlines(body) == body;
    SplitText(init, last);
    assert ls == init + [last];
  }

  lemma {:induction false} SplitText(ls: seq<string>, last: string)
    requires (forall l :: l in ls ==> OneLine(l)) && OneLine(last)
    ensures SplitLines(Unlines(ls) + last) == ls + [last]
  {
    if ls == [] {
      assert "" + last == last;
      SplitOneLine(last);
    } else {
      var init, l := ls[..|ls| - 1], ls[|ls| - 1];
      assert l in ls;
      assert Unlines(ls) + last == (Unlines(init) + l) + "\n" + last;
      SplitAppend(Unlines(init) + l, last);
      SplitText(init, l);
      assert ls == init + [l];
    }
  }

  lemma {:induction false} SplitGivesLines(s: string)
    ensures forall l :: l in SplitLines(s) ==> OneLine(l)
  {
    if s != "" {
      var r := SplitLines(s[1..]);
      SplitGivesLines(s[1..]);
      assert r[0] in r && OneLine(r[0]);
      forall l | l in SplitLines(s) ensures OneLine(l) {
        assert l in r || l == "" || l == [s[0]] + r[0];
      }
    }
  }

  // ---- strings.Cut ----

  predicate HasPrefix(s: string, prefix: string) {
    |prefix| <= |s| && s[..|prefix|] == prefix
  }

  predicate HasSuffix(s: string, suffix: string) {
    |s| >= |suffix| && s[|s| - |suffix|..] == suffix
  }

  /** All of it if there is no slash. */
  function AfterLastSlash(s: string): string {
    if s == "" || s[|s| - 1] == '/' then "" else AfterLastSlash(s[..|s| - 1]) + [s[|s| - 1]]
  }

  function TrimPrefix(s: string, prefix: string): string {
    if HasPrefix(s, prefix) then s[|prefix|..] else s
  }

  function Cut(s: string, sep: string): Option<(string, string)> {
    if HasPrefix(s, sep) then Some(("", s[|sep|..]))
    else if s == "" then None
    else match Cut(s[1..], sep)
      case None => None
      case Some((before, after)) => Some(([s[0]] + before, after))
  }

  lemma {:induction false} CutAtFirst(before: string, sep: string, after: string)
    requires sep != "" && sep[0] !in before
    ensures Cut(before + sep + after, sep) == Some((before, after))
  {
    var s := before + sep + after;
    if before == "" {
      assert s == sep + after && s[..|sep|] == sep && s[|sep|..] == after;
    } else {
      assert s[0] == before[0] && before[0] in before && s[..|sep|][0] == s[0];
      assert s[1..] == before[1..] + sep + after;
      CutAtFirst(before[1..], sep, after);
      assert [before[0]] + before[1..] == before;
    }
  }

  lemma {:induction false} CutNone(s: string, sep: string)
    requires |sep| == 1 && sep[0] !in s
    ensures Cut(s, sep) == None
  {
    if s != "" {
      assert s[..1][0] == s[0] && s[0] in s;
      CutNone(s[1..], sep);
    }
  }

  lemma {:induction false} CutGivesParts(s: string, sep: string)
    ensures Cut(s, sep).Some? ==> s == Cut(s, sep).value.0 + sep + Cut(s, sep).value.1
  {
    if !HasPrefix(s, sep) && s != "" {
      CutGivesParts(s[1..], sep);
    }
  }

  // ---- strings.Fields, strings.Join ----

  /** unicode.IsSpace. */
  predicate IsSpace(c: char) {
    || c in "\t\n\r " || c as int in {0x0B, 0x0C, 0x85, 0xA0, 0x1680, 0x2028, 0x2029, 0x202F, 0x205F, 0x3000}
    || 0x2000 <= c as int <= 0x200A
  }

  function Word(s: string): string {
    if s == "" || IsSpace(s[0]) then "" else [s[0]] + Word(s[1..])
  }

  function Words(s: string): seq<string>
    decreases |s|
  {
    if s == "" then []
    else if IsSpace(s[0]) then Words(s[1..])
    else
      WordIsPrefix(s);
      [Word(s)] + Words(s[|Word(s)|..])
  }

  lemma {:induction false} WordIsPrefix(s: string)
    ensures |Word(s)| <= |s| && Word(s) == s[..|Word(s)|]
    ensures forall i :: 0 <= i < |Word(s)| ==> !IsSpace(Word(s)[i])
  {
    if s != "" && !IsSpace(s[0]) { WordIsPrefix(s[1..]); }
  }

  ghost predicate IsWord(s: string) {
    s != "" && forall i :: 0 <= i < |s| ==> !IsSpace(s[i])
  }

  lemma {:induction false} WordsAreWords(s: string)
    ensures forall w :: w in Words(s) ==> IsWord(w)
    decreases |s|
  {
    if s != "" {
      if IsSpace(s[0]) {
        WordsAreWords(s[1..]);
      } else {
        WordIsPrefix(s);
        WordsAreWords(s[|Word(s)|..]);
      }
    }
  }

  function TrimSpace(s: string): string {
    if s != "" && IsSpace(s[0]) then TrimSpace(s[1..])
    else if s != "" && IsSpace(s[|s| - 1]) then TrimSpace(s[..|s| - 1])
    else s
  }

  function Join(ss: seq<string>, sep: string): string {
    if ss == [] then "" else if |ss| == 1 then ss[0] else ss[0] + sep + Join(ss[1..], sep)
  }

  lemma {:induction false} WordAtHead(w: string, rest: string)
    requires (forall i :: 0 <= i < |w| ==> !IsSpace(w[i])) && (rest == "" || IsSpace(rest[0]))
    ensures Word(w + rest) == w
  {
    if w == "" {
      assert w + rest == rest;
    } else {
      assert (w + rest)[1..] == w[1..] + rest && (w + rest)[0] == w[0];
      WordAtHead(w[1..], rest);
    }
  }

  /** White space of one byte, the next line and the no-break space. */
  lemma {:induction false} WordsPartAtSpace(a: string, c: char, b: string)
    requires c in "\t\n\r " || c as int in {0x0B, 0x0C, 0x85, 0xA0}
    ensures Words(a + [c] + b) == Words(a) + Words(b)
    decreases |a|
  {
    var all := a + [c] + b;
    if a == "" {
      assert all[0] == c && all[1..] == b;
    } else if IsSpace(a[0]) {
      assert all[0] == a[0] && all[1..] == a[1..] + [c] + b;
      WordsPartAtSpace(a[1..], c, b);
    } else {
      WordIsPrefix(a);
      WordStops(a, c, b);
      var n := |Word(a)|;
      assert all[0] == a[0] && all[n..] == a[n..] + [c] + b;
      WordsPartAtSpace(a[n..], c, b);
    }
  }

  lemma {:induction false} WordStops(a: string, c: char, b: string)
    requires IsSpace(c)
    ensures Word(a + [c] + b) == Word(a)
  {
    var all := a + [c] + b;
    if a == "" {
      assert all[0] == c;
    } else {
      assert all[0] == a[0] && all[1..] == a[1..] + [c] + b;
      WordStops(a[1..], c, b);
    }
  }

  lemma {:induction false} WordsOfJoin(ws: seq<string>)
    requires forall w :: w in ws ==> IsWord(w)
    ensures Words(Join(ws, " ")) == ws
  {
    if ws != [] {
      var w, rest := ws[0], if |ws| == 1 then "" else " " + Join(ws[1..], " ");
      assert w in ws && Join(ws, " ") == w + rest;
      WordAtHead(w, rest);
      assert (w + rest)[0] == w[0] && (w + rest)[|w|..] == rest;
      WordsOfJoin(ws[1..]);
      if |ws| > 1 { assert rest[1..] == Join(ws[1..], " "); }
      assert ws == [w] + ws[1..];
    }
  }

  // ---- strconv ----

  function Digit(d: nat): char
    requires d < 10
  {
    '0' + d as char
  }

  function Decimal(n: nat): string {
    (if n < 10 then "" else Decimal(n / 10)) + [Digit(n % 10)]
  }

  function DigitsValue(s: string): Option<nat> {
    if s == "" then Some(0)
    else
      var c := s[|s| - 1];
      var v := DigitsValue(s[..|s| - 1]);
      if v.Some? && '0' <= c <= '9' then Some(v.value * 10 + (c - '0') as int) else None
  }

  /** ParseUint(s, 10, 64). */
  function ParseUint(s: string): Option<nat> {
    var v := DigitsValue(s);
    if s != "" && v.Some? && v.value < TwoTo64 then v else None
  }

  lemma {:induction false} DecimalRoundTrip(n: nat)
    ensures DigitsValue(Decimal(n)) == Some(n) && Decimal(n) != ""
    ensures OneLine(Decimal(n)) && ';' !in Decimal(n)
  {
    var s := Decimal(n);
    if n >= 10 { DecimalRoundTrip(n / 10); }
    assert s[..|s| - 1] == if n < 10 then "" else Decimal(n / 10);
  }
}
