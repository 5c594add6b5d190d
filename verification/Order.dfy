/** Byte order on strings, and sorting by a string key. Go's sort.Strings,
    strings.Compare and the database's key order are instances of it. */
module Order {

  /** a comes strictly before b. */
  predicate Before(a: string, b: string) {
    |b| > 0 && (|a| == 0 || a[0] < b[0] || (a[0] == b[0] && Before(a[1..], b[1..])))
  }

  lemma {:induction false} BeforeIsTransitive(a: string, b: string, c: string)
    requires Before(a, b) && Before(b, c)
    ensures Before(a, c)
  {
    if |a| > 0 && a[0] == b[0] == c[0] {
      BeforeIsTransitive(a[1..], b[1..], c[1..]);
    }
  }

  lemma {:induction false} BeforeIsTotal(a: string, b: string)
    ensures Before(a, b) || a == b || Before(b, a)
    ensures !(Before(a, b) && Before(b, a))
    ensures Before(a, b) ==> a != b
  {
    if |a| > 0 && |b| > 0 {
      BeforeIsTotal(a[1..], b[1..]);
      assert a == [a[0]] + a[1..] && b == [b[0]] + b[1..];
    }
  }

  /** Each key strictly before the next one: no two are equal. */
  ghost predicate Ascending<T>(key: T -> string, s: seq<T>) {
    forall i, j :: 0 <= i < j < |s| ==> Before(key(s[i]), key(s[j]))
  }

  /** No key before an earlier one; equal keys may repeat. */
  ghost predicate Sorted<T>(key: T -> string, s: seq<T>) {
    forall i, j :: 0 <= i < j < |s| ==> !Before(key(s[j]), key(s[i]))
  }

  function Insert<T>(key: T -> string, x: T, s: seq<T>): seq<T> {
    if s == [] || !Before(key(s[0]), key(x)) then [x] + s else [s[0]] + Insert(key, x, s[1..])
  }

  /** The sorted permutation of s. */
  function SortBy<T>(key: T -> string, s: seq<T>): seq<T> {
    if s == [] then [] else Insert(key, s[0], SortBy(key, s[1..]))
  }

  lemma {:induction false} InsertKeeps<T>(key: T -> string, x: T, s: seq<T>)
    requires Sorted(key, s)
    ensures Sorted(key, Insert(key, x, s))
    ensures multiset(Insert(key, x, s)) == multiset{x} + multiset(s)
  {
    var r := Insert(key, x, s);
    if s == [] {
    } else if !Before(key(s[0]), key(x)) {
      forall j | 0 <= j < |s| ensures !Before(key(s[j]), key(x)) {
        if Before(key(s[j]), key(x)) {
          BeforeIsTotal(key(s[0]), key(s[j]));
          if Before(key(s[0]), key(s[j])) { BeforeIsTransitive(key(s[0]), key(s[j]), key(x)); }
        }
      }
    } else {
      InsertKeeps(key, x, s[1..]);
      assert s == [s[0]] + s[1..];
      var t := Insert(key, x, s[1..]);
      forall j | 0 <= j < |t| ensures !Before(key(t[j]), key(s[0])) {
        assert t[j] in multiset(t);
        BeforeIsTotal(key(s[0]), key(x));
        if t[j] != x {
          assert t[j] in multiset(s[1..]);
          var i :| 0 <= i < |s[1..]| && s[1..][i] == t[j];
          assert s[i + 1] == t[j];
        }
      }
    }
  }

  lemma {:induction false} SortBySorts<T>(key: T -> string, s: seq<T>)
    ensures Sorted(key, SortBy(key, s))
    ensures multiset(SortBy(key, s)) == multiset(s)
    ensures |SortBy(key, s)| == |s|
  {
    if s != [] {
      SortBySorts(key, s[1..]);
      InsertKeeps(key, s[0], SortBy(key, s[1..]));
      assert s == [s[0]] + s[1..];
    }
    assert |multiset(SortBy(key, s))| == |multiset(s)|;
  }

  function Self(s: string): string { s }

  lemma HeadsAgree(a: seq<string>, b: seq<string>)
    requires Sorted(Self, a) && Sorted(Self, b) && multiset(a) == multiset(b) && a != [] && b != []
    ensures a[0] == b[0]
  {
    assert a[0] in multiset(b) && b[0] in multiset(a);
    var i :| 0 <= i < |b| && b[i] == a[0];
    var j :| 0 <= j < |a| && a[j] == b[0];
    assert i > 0 ==> !Before(Self(b[i]), Self(b[0]));
    assert j > 0 ==> !Before(Self(a[j]), Self(a[0]));
    BeforeIsTotal(a[0], b[0]);
  }

  /** A sorted sequence of strings is determined by its elements. */
  lemma {:induction false} SortedIsUnique(a: seq<string>, b: seq<string>)
    requires Sorted(Self, a) && Sorted(Self, b) && multiset(a) == multiset(b)
    ensures a == b
  {
    assert |a| == |multiset(a)| == |multiset(b)| == |b|;
    if a != [] {
      HeadsAgree(a, b);
      SortedTail(Self, a);
      SortedTail(Self, b);
      SortedIsUnique(a[1..], b[1..]);
    }
  }

  /** Sorted with distinct keys is ascending; and ascending keys are distinct. */
  lemma SortedDistinctIsAscending<T>(key: T -> string, s: seq<T>)
    requires Sorted(key, s)
    ensures Ascending(key, s) <==> forall i :: 0 < i < |s| ==> key(s[i - 1]) != key(s[i])
  {
    if forall i :: 0 < i < |s| ==> key(s[i - 1]) != key(s[i]) {
      forall i, j | 0 <= i < j < |s| ensures Before(key(s[i]), key(s[j])) {
        BeforeIsTotal(key(s[i]), key(s[i + 1]));
        if i + 1 < j {
          BeforeIsTotal(key(s[i + 1]), key(s[j]));
          if Before(key(s[i + 1]), key(s[j])) {
            BeforeIsTransitive(key(s[i]), key(s[i + 1]), key(s[j]));
          }
        }
      }
    } else {
      var i :| 0 < i < |s| && key(s[i - 1]) == key(s[i]);
      BeforeIsTotal(key(s[i - 1]), key(s[i]));
    }
  }

  /** Inserting a new string keeps an ascending sequence ascending. */
  lemma {:induction false} InsertFresh(x: string, s: seq<string>)
    requires Ascending(Self, s) && x !in s
    ensures Ascending(Self, Insert(Self, x, s))
    ensures forall k :: k in Insert(Self, x, s) <==> k == x || k in s
  {
    if s == [] {
    } else if !Before(Self(s[0]), Self(x)) {
      BeforeIsTotal(s[0], x);
      forall j | 0 <= j < |s| ensures Before(Self(x), Self(s[j])) {
        if j > 0 {
          assert Before(Self(s[0]), Self(s[j]));
          BeforeIsTransitive(x, s[0], s[j]);
        }
      }
    } else {
      assert Ascending(Self, s[1..]) && forall k :: k in s <==> k == s[0] || k in s[1..];
      InsertFresh(x, s[1..]);
      var t := Insert(Self, x, s[1..]);
      forall j | 0 <= j < |t| ensures Before(Self(s[0]), Self(t[j])) {
        assert t[j] in t;
        if t[j] != x {
          var i :| 0 <= i < |s[1..]| && s[1..][i] == t[j];
          assert Before(Self(s[0]), Self(s[i + 1]));
        }
      }
    }
  }

  /** No two positions have the same key. */
  ghost predicate NoRepeats<T>(key: T -> string, s: seq<T>) {
    forall i, j :: 0 <= i < j < |s| ==> key(s[i]) != key(s[j])
  }

  lemma AscendingIsDistinct<T>(key: T -> string, s: seq<T>)
    requires Ascending(key, s)
    ensures Sorted(key, s) && NoRepeats(key, s)
  {
    forall i, j | 0 <= i < j < |s| ensures !Before(key(s[j]), key(s[i])) && key(s[i]) != key(s[j]) {
      BeforeIsTotal(key(s[i]), key(s[j]));
    }
  }

  /** In sorted order, equal keys are neighbours. */
  lemma AdjacentRepeats<T>(key: T -> string, s: seq<T>)
    requires Sorted(key, s)
    ensures NoRepeats(key, s) <==> forall i :: 0 < i < |s| ==> key(s[i - 1]) != key(s[i])
    ensures NoRepeats(key, s) ==> Ascending(key, s)
  {
    SortedDistinctIsAscending(key, s);
    if Ascending(key, s) { AscendingIsDistinct(key, s); }
  }

  // ---- any sort will do ----

  lemma ElementAt<T>(s: seq<T>, x: T) returns (i: nat)
    requires x in multiset(s)
    ensures i < |s| && s[i] == x
  {
    i :| 0 <= i < |s| && s[i] == x;
  }

  lemma TwiceIn<T>(s: seq<T>, x: T) returns (i: nat, j: nat)
    requires multiset(s)[x] >= 2
    ensures i < j < |s| && s[i] == s[j] == x
  {
    i := ElementAt(s, x);
    assert s == s[..i] + [x] + s[i + 1..];
    assert multiset(s) == multiset(s[..i]) + multiset{x} + multiset(s[i + 1..]);
    if x in multiset(s[..i]) {
      var k := ElementAt(s[..i], x);
      i, j := k, i;
    } else {
      var k := ElementAt(s[i + 1..], x);
      j := i + 1 + k;
    }
  }

  lemma TwoPositions<T>(s: seq<T>, i: nat, j: nat)
    requires i < j < |s| && s[i] == s[j]
    ensures multiset(s)[s[i]] >= 2
  {
    assert s == s[..j] + [s[j]] + s[j + 1..];
    assert s[..j][i] in multiset(s[..j]);
  }

  lemma RepeatFound<T>(key: T -> string, a: seq<T>, b: seq<T>, i: nat, j: nat) returns (p: nat, q: nat)
    requires multiset(a) == multiset(b) && i < j < |b| && key(b[i]) == key(b[j])
    ensures p < q < |a| && key(a[p]) == key(a[q])
  {
    if b[i] == b[j] {
      TwoPositions(b, i, j);
      p, q := TwiceIn(a, b[i]);
    } else {
      assert b[i] in multiset(b) && b[j] in multiset(b);
      p := ElementAt(a, b[i]);
      q := ElementAt(a, b[j]);
      if q < p { p, q := q, p; }
    }
  }

  /** Repeats are a property of the elements, not of their order. */
  lemma RepeatsPermute<T>(key: T -> string, a: seq<T>, b: seq<T>)
    requires multiset(a) == multiset(b)
    ensures NoRepeats(key, a) <==> NoRepeats(key, b)
  {
    if !NoRepeats(key, a) {
      var i, j :| 0 <= i < j < |a| && key(a[i]) == key(a[j]);
      var p, q := RepeatFound(key, b, a, i, j);
    }
    if !NoRepeats(key, b) {
      var i, j :| 0 <= i < j < |b| && key(b[i]) == key(b[j]);
      var p, q := RepeatFound(key, a, b, i, j);
    }
  }

  lemma DistinctHeadsAgree<T>(key: T -> string, a: seq<T>, b: seq<T>)
    requires Sorted(key, a) && Sorted(key, b) && multiset(a) == multiset(b) && NoRepeats(key, a) && a != [] && b != []
    ensures a[0] == b[0]
  {
    assert a[0] in multiset(a) && b[0] in multiset(b);
    var i := ElementAt(b, a[0]);
    var j := ElementAt(a, b[0]);
    assert i > 0 ==> !Before(key(b[i]), key(b[0]));
    assert j > 0 ==> !Before(key(a[j]), key(a[0]));
    BeforeIsTotal(key(a[0]), key(b[0]));
    if j > 0 {
      assert key(a[0]) != key(a[j]);
    }
  }

  /** With distinct keys there is one sorted order. */
  lemma {:induction false} DistinctOrderIsUnique<T>(key: T -> string, a: seq<T>, b: seq<T>)
    requires Sorted(key, a) && Sorted(key, b) && multiset(a) == multiset(b) && NoRepeats(key, a)
    ensures a == b
  {
    assert |a| == |multiset(a)| == |multiset(b)| == |b|;
    if a != [] {
      DistinctHeadsAgree(key, a, b);
      SortedTail(key, a);
      SortedTail(key, b);
      DistinctOrderIsUnique(key, a[1..], b[1..]);
    }
  }

  lemma SortedTail<T>(key: T -> string, s: seq<T>)
    requires Sorted(key, s) && s != []
    ensures s == [s[0]] + s[1..] && multiset(s[1..]) == multiset(s) - multiset{s[0]}
    ensures Sorted(key, s[1..]) && (NoRepeats(key, s) ==> NoRepeats(key, s[1..]))
  {
    assert s == [s[0]] + s[1..];
  }

  lemma AscendingIsSorted<T>(key: T -> string, s: seq<T>)
    requires Ascending(key, s)
    ensures Sorted(key, s) && NoRepeats(key, s) && SortBy(key, s) == s
  {
    AscendingIsDistinct(key, s);
    SortBySorts(key, s);
    DistinctOrderIsUnique(key, s, SortBy(key, s));
  }

  /** A library sort: sorted, a permutation, and nothing said about equal keys. */
  method SortFunc<T>(key: T -> string, s: seq<T>) returns (r: seq<T>)
    ensures Sorted(key, r) && multiset(r) == multiset(s)
  {
    SortBySorts(key, s);
    r := SortBy(key, s);
  }
}
