/** Reachability over a finite reference graph. The server's garbage collector
    (rows and their refs) and the client (store paths and their references)
    both rest on it. A node without an entry in the graph has no references. */
module Reachability {

  function Refs<K>(g: map<K, set<K>>, k: K): set<K> {
    if k in g then g[k] else {}
  }

  ghost predicate Closed<K>(g: map<K, set<K>>, s: set<K>) {
    forall k, r :: k in s && r in Refs(g, k) ==> r in s
  }

  /** Everything a walk from the seeds could ever meet. */
  function Universe<K>(g: map<K, set<K>>, seeds: set<K>): set<K> {
    seeds + set k, r | k in g && r in g[k] :: r
  }

  /** The least closed set that contains the seeds. */
  ghost function Reach<K(!new)>(g: map<K, set<K>>, seeds: set<K>): set<K> {
    set k | k in Universe(g, seeds) && InEveryClosedSet(g, seeds, k)
  }

  ghost predicate InEveryClosedSet<K(!new)>(g: map<K, set<K>>, seeds: set<K>, k: K) {
    forall s: set<K> | seeds <= s && Closed(g, s) :: k in s
  }

  /** A walk along references, first node first. */
  ghost predicate IsPath<K>(g: map<K, set<K>>, p: seq<K>) {
    |p| > 0 && forall i :: 0 < i < |p| ==> p[i] in Refs(g, p[i - 1])
  }

  lemma ReachIsClosed<K(!new)>(g: map<K, set<K>>, seeds: set<K>)
    ensures seeds <= Reach(g, seeds)
    ensures Closed(g, Reach(g, seeds))
  {
    forall k, r | k in Reach(g, seeds) && r in Refs(g, k)
      ensures r in Reach(g, seeds)
    {
      assert r in Universe(g, seeds);
      forall s: set<K> | seeds <= s && Closed(g, s) ensures r in s {
        assert k in s;
      }
    }
  }

  lemma ReachIsLeast<K(!new)>(g: map<K, set<K>>, seeds: set<K>, s: set<K>)
    requires seeds <= s && Closed(g, s)
    ensures Reach(g, seeds) <= s
  {
  }

  lemma {:induction false} PathStaysInClosedSet<K(!new)>(g: map<K, set<K>>, p: seq<K>, s: set<K>)
    requires IsPath(g, p) && p[0] in s && Closed(g, s)
    ensures p[|p| - 1] in s
  {
    if |p| > 1 {
      PathStaysInClosedSet(g, p[..|p| - 1], s);
      assert p[|p| - 1] in Refs(g, p[|p| - 2]);
    }
  }

  ghost predicate WalkedTo<K(!new)>(g: map<K, set<K>>, seeds: set<K>, k: K) {
    exists p :: IsPath(g, p) && p[0] in seeds && p[|p| - 1] == k
  }

  lemma WalksExtend<K(!new)>(g: map<K, set<K>>, seeds: set<K>, k: K, r: K)
    requires WalkedTo(g, seeds, k) && r in Refs(g, k)
    ensures WalkedTo(g, seeds, r)
  {
    var p :| IsPath(g, p) && p[0] in seeds && p[|p| - 1] == k;
    var q := p + [r];
    assert IsPath(g, q) && q[0] in seeds && q[|q| - 1] == r;
  }

  /** The least closed set holds exactly the nodes that some walk from a seed ends in. */
  lemma ReachIffPath<K(!new)>(g: map<K, set<K>>, seeds: set<K>, k: K)
    ensures k in Reach(g, seeds) <==> WalkedTo(g, seeds, k)
  {
    ReachIsClosed(g, seeds);
    if WalkedTo(g, seeds, k) {
      var p :| IsPath(g, p) && p[0] in seeds && p[|p| - 1] == k;
      PathStaysInClosedSet(g, p, Reach(g, seeds));
    }
    var walked := set n | n in Universe(g, seeds) && WalkedTo(g, seeds, n);
    forall n | n in seeds ensures n in walked {
      assert IsPath(g, [n]) && [n][0] in seeds;
    }
    forall n, r | n in walked && r in Refs(g, n) ensures r in walked {
      WalksExtend(g, seeds, n, r);
    }
    ReachIsLeast(g, seeds, walked);
  }

  /** More references, or more seeds, never lose a reachable node. */
  lemma ReachIsMonotone<K(!new)>(g: map<K, set<K>>, h: map<K, set<K>>, seeds: set<K>, more: set<K>)
    requires seeds <= more && forall k :: k in g ==> k in h && g[k] <= h[k]
    ensures Reach(g, seeds) <= Reach(h, more)
  {
    ReachIsClosed(h, more);
    ReachIsLeast(g, seeds, Reach(h, more));
  }
}
