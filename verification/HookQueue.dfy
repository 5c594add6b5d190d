/** The upload queue of the post-build hook: a table of store paths in row order. */
module HookQueue {
  import opened Wrappers

  const RemoveChunk: nat := 1000

  // ---- the queue as a sequence ----

  /** s without the paths in gone. */
  function Without(s: seq<string>, gone: set<string>): seq<string> {
    if s == [] then []
    else Without(s[..|s| - 1], gone) + if s[|s| - 1] in gone then [] else [s[|s| - 1]]
  }

  ghost predicate Distinct(s: seq<string>) {
    forall i, j :: 0 <= i < j < |s| ==> s[i] != s[j]
  }

  function Inserted(s: seq<string>, p: string): seq<string> {
    if p in s then s else s + [p]
  }

  function AllInserted(s: seq<string>, ps: seq<string>): seq<string> {
    if ps == [] then s else Inserted(AllInserted(s, ps[..|ps| - 1]), ps[|ps| - 1])
  }

  function MovedBack(s: seq<string>, p: string): seq<string> {
    if p in s then Without(s, {p}) + [p] else s
  }

  function AllMovedBack(s: seq<string>, ps: seq<string>): seq<string> {
    if ps == [] then s else MovedBack(AllMovedBack(s, ps[..|ps| - 1]), ps[|ps| - 1])
  }

  lemma {:induction false} WithoutHolds(s: seq<string>, gone: set<string>)
    ensures forall p :: p in Without(s, gone) <==> p in s && p !in gone
    ensures |Without(s, gone)| <= |s|
    ensures (exists p :: p in s && p in gone) ==> |Without(s, gone)| < |s|
    ensures (forall p :: p in s ==> p !in gone) ==> Without(s, gone) == s
  {
    if s != [] {
      WithoutHolds(s[..|s| - 1], gone);
      assert s == s[..|s| - 1] + [s[|s| - 1]];
    }
  }

  lemma {:induction false} WithoutTwice(s: seq<string>, a: set<string>, b: set<string>)
    ensures Without(Without(s, a), b) == Without(s, a + b)
  {
    if s != [] {
      var init, last := s[..|s| - 1], s[|s| - 1];
      WithoutTwice(init, a, b);
      if last !in a {
        assert (Without(init, a) + [last])[..|Without(init, a)|] == Without(init, a);
      } else {
        assert Without(init, a) + [] == Without(init, a);
      }
    }
  }

  lemma {:induction false} WithoutConcat(s: seq<string>, t: seq<string>, gone: set<string>)
    ensures Without(s + t, gone) == Without(s, gone) + Without(t, gone)
  {
    if t == [] {
      assert s + t == s;
    } else {
      assert (s + t)[..|s + t| - 1] == s + t[..|t| - 1];
      WithoutConcat(s, t[..|t| - 1], gone);
    }
  }

  lemma NothingRemoved(s: seq<string>, paths: seq<string>)
    ensures Without(s, Elements(paths[..0])) == s
  {
    WithoutHolds(s, Elements(paths[..0]));
  }

  lemma ChunkRemoved(s: seq<string>, paths: seq<string>, i: nat, n: nat)
    requires i + n <= |paths|
    ensures Without(Without(s, Elements(paths[..i])), Elements(paths[i..i + n])) == Without(s, Elements(paths[..i + n]))
  {
    hide Without;
    WithoutTwice(s, Elements(paths[..i]), Elements(paths[i..i + n]));
    assert paths[..i + n] == paths[..i] + paths[i..i + n];
    assert Elements(paths[..i]) + Elements(paths[i..i + n]) == Elements(paths[..i + n]);
  }

  // ---- tried and untried ----

  /** Everything already tried sorts behind everything untried. */
  ghost predicate TriedLast(s: seq<string>, tried: set<string>) {
    forall i, j :: 0 <= i < j < |s| && s[i] in tried ==> s[j] in tried
  }

  lemma {:induction false} WithoutKeepsTriedLast(s: seq<string>, gone: set<string>, tried: set<string>)
    requires TriedLast(s, tried)
    ensures TriedLast(Without(s, gone), tried)
  {
    if s != [] {
      var init := s[..|s| - 1];
      WithoutKeepsTriedLast(init, gone, tried);
      WithoutHolds(init, gone);
      var w := Without(init, gone);
      if s[|s| - 1] !in gone {
        forall i | 0 <= i < |w| && w[i] in tried ensures s[|s| - 1] in tried {
          assert w[i] in w;
          var k :| 0 <= k < |init| && init[k] == w[i];
          assert s[k] in tried;
        }
      }
    }
  }

  /** A path that failed goes behind everything. */
  lemma MoveKeepsTriedLast(s: seq<string>, p: string, tried: set<string>)
    requires TriedLast(s, tried)
    ensures TriedLast(MovedBack(s, p), tried + {p})
  {
    if p in s {
      WithoutKeepsTriedLast(s, {p}, tried);
      WithoutHolds(s, {p});
      var w := Without(s, {p});
      forall i, j | 0 <= i < j < |MovedBack(s, p)| && MovedBack(s, p)[i] in tried + {p}
        ensures MovedBack(s, p)[j] in tried + {p}
      {
        assert w[i] in w && w[i] != p;
        if j < |w| { assert w[j] in tried; }
      }
    }
  }

  /** A new path goes behind everything too: then the order holds exactly if nothing in the
      queue has been tried. */
  lemma InsertKeepsTriedLastIff(s: seq<string>, p: string, tried: set<string>)
    requires TriedLast(s, tried) && p !in s && p !in tried
    ensures TriedLast(Inserted(s, p), tried) <==> forall q :: q in s ==> q !in tried
  {
    var t := Inserted(s, p);
    if TriedLast(t, tried) {
      forall q | q in s ensures q !in tried {
        var i :| 0 <= i < |s| && s[i] == q;
        assert t[i] == q && t[|s|] == p;
      }
    } else {
      var i, j :| 0 <= i < j < |t| && t[i] in tried && t[j] !in tried;
      assert s[i] in s;
    }
  }

  /** b is what is left of a after some paths were taken out: the order is kept. */
  ghost predicate OnlyLoses(a: seq<string>, b: seq<string>) {
    exists gone :: b == Without(a, gone)
  }

  lemma OnlyLosesTransitive(a: seq<string>, b: seq<string>, c: seq<string>)
    requires OnlyLoses(a, b) && OnlyLoses(b, c)
    ensures OnlyLoses(a, c)
  {
    var g :| b == Without(a, g);
    var h :| c == Without(b, h);
    WithoutTwice(a, g, h);
  }

  lemma MovedIsUntriedLost(s: seq<string>, p: string, tried: set<string>)
    ensures OnlyLoses(Without(s, tried), Without(MovedBack(s, p), tried + {p}))
  {
    WithoutTwice(s, tried, {p});
    if p in s {
      WithoutConcat(Without(s, {p}), [p], tried + {p});
      assert Without([p], tried + {p}) == [];
      WithoutTwice(s, {p}, tried + {p});
      assert {p} + (tried + {p}) == tried + {p};
    }
    assert Without(MovedBack(s, p), tried + {p}) == Without(Without(s, tried), {p});
  }

  lemma RemovedIsUntriedLost(s: seq<string>, gone: set<string>, tried: set<string>)
    ensures OnlyLoses(Without(s, tried), Without(Without(s, gone), tried))
  {
    WithoutTwice(s, gone, tried);
    WithoutTwice(s, tried, gone);
    assert gone + tried == tried + gone;
  }

  // ---- the table ----

  lemma HasElement(s: seq<string>)
    requires s != []
    ensures exists p :: p in s
  {
    assert s[0] in s;
  }

  /** upload_queue: store_path is the key, rowid the order. */
  class Queue {
    var rows: map<string, nat>
    ghost var order: seq<string>

    ghost predicate Valid()
      reads this
    {
      && (forall p :: p in rows <==> p in order)
      && forall i, j :: 0 <= i < j < |order| ==> rows[order[i]] < rows[order[j]]
    }

    constructor ()
      ensures Valid() && order == []
    {
      rows, order := map[], [];
    }

    /** MAX(rowid) + 1. */
    method NextRowid() returns (n: nat)
      requires Valid()
      ensures forall p :: p in rows ==> rows[p] < n
    {
      if rows == map[] {
        return 1;
      }
      LastIsGreatest();
      var p :| p in rows && forall q :: q in rows ==> rows[q] <= rows[p];
      n := rows[p] + 1;
    }

    lemma LastIsGreatest()
      requires Valid() && rows != map[]
      ensures order != [] && order[|order| - 1] in rows
      ensures forall q :: q in rows ==> rows[q] <= rows[order[|order| - 1]]
    {
      var k :| k in rows;
      assert k in order;
      assert order[|order| - 1] in order;
      forall q | q in rows ensures rows[q] <= rows[order[|order| - 1]] {
        var i :| 0 <= i < |order| && order[i] == q;
      }
    }

    method Enqueue(paths: seq<string>)
      requires Valid()
      modifies this
      ensures Valid() && order == AllInserted(old(order), paths)
    {
      for i := 0 to |paths|
        invariant Valid() && order == AllInserted(old(order), paths[..i])
      {
        assert paths[..i + 1][..i] == paths[..i];
        if paths[i] !in rows {
          var n := NextRowid();
          rows := rows[paths[i] := n];
          order := order + [paths[i]];
        }
      }
      assert paths[..|paths|] == paths;
    }

    /** SELECT store_path ... ORDER BY rowid LIMIT n. */
    method FetchBatch(n: nat) returns (paths: seq<string>)
      requires Valid()
      ensures paths == order[..if n < |order| then n else |order|]
    {
      hide Valid, RestIs;
      paths := [];
      var rest := rows;
      StartOfOrder();
      while |paths| < n && rest != map[]
        invariant |paths| <= |order| && paths == order[..|paths|] && |paths| <= n
        invariant RestIs(|paths|, rest)
        decreases n - |paths|
      {
        FirstIsLeast(|paths|, rest);
        var p :| p in rest && forall q :: q in rest ==> rest[p] <= rest[q];
        assert p == order[|paths|];
        RestStep(|paths|, rest);
        paths := paths + [p];
        rest := rest - {p};
      }
      if rest == map[] {
        EndOfOrder(|paths|);
      }
    }

    /** The rows not yet returned. */
    ghost predicate RestIs(k: nat, rest: map<string, nat>)
      reads this
    {
      && k <= |order| && (forall p :: p in rest <==> p in order[k..])
      && (forall p :: p in rest ==> p in rows && rest[p] == rows[p])
    }

    lemma StartOfOrder()
      requires Valid()
      ensures RestIs(0, rows)
    {
      assert order[0..] == order;
    }

    lemma EndOfOrder(k: nat)
      requires RestIs(k, map[])
      ensures k == |order|
    {
      if k < |order| { HasElement(order[k..]); }
    }

    lemma RestStep(k: nat, rest: map<string, nat>)
      requires Valid() && RestIs(k, rest) && k < |order|
      ensures RestIs(k + 1, rest - {order[k]})
    {
      RestOfOrder(k + 1);
    }

    lemma FirstIsLeast(k: nat, rest: map<string, nat>)
      requires Valid() && rest != map[] && RestIs(k, rest)
      ensures k < |order| && order[k] in rest && forall q :: q in rest ==>
        rest[order[k]] <= rest[q] && (q != order[k] ==> rest[order[k]] < rest[q])
    {
      var some :| some in rest;
      assert some in order[k..];
      assert order[k..][0] in order[k..];
      forall q | q in rest ensures rest[order[k]] <= rest[q] && (q != order[k] ==> rest[order[k]] < rest[q]) {
        var i :| 0 <= i < |order[k..]| && order[k..][i] == q;
        assert q == order[k + i];
      }
    }

    lemma RestOfOrder(k: nat)
      requires Valid() && 0 < k <= |order|
      ensures forall p :: p in order[k..] <==> p in order[k - 1..] && p != order[k - 1]
    {
      forall p | p in order[k..] ensures p in order[k - 1..] && p != order[k - 1] {
        var i :| 0 <= i < |order[k..]| && order[k..][i] == p;
        assert p == order[k + i] == order[k - 1..][i + 1];
        assert rows[order[k - 1]] < rows[order[k + i]];
      }
      forall p | p in order[k - 1..] && p != order[k - 1] ensures p in order[k..] {
        var i :| 0 <= i < |order[k - 1..]| && order[k - 1..][i] == p;
        assert p == order[k - 1 + i] && i > 0;
        assert order[k..][i - 1] == p;
      }
    }

    /** DELETE ... WHERE store_path IN (...), a chunk at a time. */
    method Remove(paths: seq<string>)
      requires Valid()
      modifies this
      ensures Valid() && order == Without(old(order), Elements(paths))
    {
      hide Valid, Without, Elements;
      var rest := paths;
      ghost var removed := 0;
      NothingRemoved(order, paths);
      while |rest| > 0
        invariant removed <= |paths| && rest == paths[removed..]
        invariant Valid() && order == Without(old(order), Elements(paths[..removed]))
      {
        var n := if |rest| < RemoveChunk then |rest| else RemoveChunk;
        var chunk := rest[..n];
        rest := rest[n..];
        assert chunk == paths[removed..removed + n];
        ChunkRemoved(old(order), paths, removed, n);
        RemoveRows(chunk);
        removed := removed + n;
      }
      assert paths[..removed] == paths;
    }

    method RemoveRows(chunk: seq<string>)
      requires Valid()
      modifies this
      ensures Valid() && order == Without(old(order), Elements(chunk))
    {
      rows := rows - Elements(chunk);
      order := Without(order, Elements(chunk));
      RemovalKeepsOrder(old(order), Elements(chunk));
    }

    lemma RemovalKeepsOrder(before: seq<string>, gone: set<string>)
      requires order == Without(before, gone)
      requires forall p :: p in rows <==> p in before && p !in gone
      requires InRowOrder(before, rows)
      ensures Valid()
    {
      hide Without;
      WithoutHolds(before, gone);
      WithoutAscends(before, gone, rows);
      forall i | 0 <= i < |order| ensures order[i] in rows { assert order[i] in order; }
    }

    /** UPDATE ... SET rowid = MAX(rowid) + 1, a path at a time. */
    method Retry(paths: seq<string>)
      requires Valid()
      modifies this
      ensures Valid() && order == AllMovedBack(old(order), paths)
    {
      for i := 0 to |paths|
        invariant Valid() && order == AllMovedBack(old(order), paths[..i])
      {
        assert paths[..i + 1][..i] == paths[..i];
        if paths[i] in rows {
          var n := NextRowid();
          ghost var before, rowsBefore := order, rows;
          rows := rows[paths[i] := n];
          order := Without(order, {paths[i]}) + [paths[i]];
          WithoutHolds(before, {paths[i]});
          WithoutAscends(before, {paths[i]}, rowsBefore);
          MoveKeepsOrder(rowsBefore, Without(before, {paths[i]}), paths[i], n);
        }
      }
      assert paths[..|paths|] == paths;
    }

    lemma MoveKeepsOrder(rowsBefore: map<string, nat>, kept: seq<string>, p: string, n: nat)
      requires rows == rowsBefore[p := n] && order == kept + [p] && p !in kept && p in rowsBefore
      requires forall q :: q in kept <==> q in rowsBefore && q != p
      requires InRowOrder(kept, rowsBefore)
      requires forall q :: q in rowsBefore ==> rowsBefore[q] < n
      ensures Valid()
    {
      forall i, j | 0 <= i < j < |order| ensures rows[order[i]] < rows[order[j]] {
        assert kept[i] in kept;
        if j < |kept| { assert kept[j] in kept; }
      }
    }
  }

  /** The paths of s that have a row are in row order. */
  ghost predicate InRowOrder(s: seq<string>, rows: map<string, nat>) {
    forall i, j :: 0 <= i < j < |s| && s[i] in rows && s[j] in rows ==> rows[s[i]] < rows[s[j]]
  }

  lemma {:induction false} WithoutAscends(s: seq<string>, gone: set<string>, rows: map<string, nat>)
    requires InRowOrder(s, rows)
    ensures InRowOrder(Without(s, gone), rows)
  {
    if s != [] {
      var init, last := s[..|s| - 1], s[|s| - 1];
      WithoutAscends(init, gone, rows);
      if last !in gone && last in rows {
        forall i | 0 <= i < |Without(init, gone)| && Without(init, gone)[i] in rows
          ensures rows[Without(init, gone)[i]] < rows[last] {
          var k := CameFrom(init, gone, i);
          assert s[k] == init[k] && s[|s| - 1] == last;
        }
      }
    }
  }

  lemma CameFrom(s: seq<string>, gone: set<string>, i: nat) returns (k: nat)
    requires i < |Without(s, gone)|
    ensures k < |s| && s[k] == Without(s, gone)[i]
  {
    WithoutHolds(s, gone);
    assert Without(s, gone)[i] in Without(s, gone);
    k :| 0 <= k < |s| && s[k] == Without(s, gone)[i];
  }
}
