/** From the file system to a tree: the metadata walk that precedes the dump, and the
    listing made without a dump. */
module NarWalk {
  import opened Wrappers
  import opened NarFormat
  import opened NarListing
  import opened Order
  import Text

  const CaseHackSuffix: Bytes := "~nix~case~hack~"

  /** What readdir, lstat and readlink say. `data` is what a read of the file returns
      when the dump gets to it: None if it cannot be opened. */
  datatype Fs =
    | File(executable: bool, size: nat, data: Option<Bytes>)
    | Dir(entries: seq<FsEntry>)
    | Link(target: Bytes)
    | Special

  datatype FsEntry = FsEntry(name: Bytes, fs: Fs)

  /** A narNode. */
  datatype Walked =
    | WFile(path: Bytes, size: nat, executable: bool, data: Option<Bytes>)
    | WDir(children: seq<Child>)
    | WLink(target: Bytes)

  datatype Child = Child(name: Bytes, node: Walked)

  function NameOf(c: Child): Bytes { c.name }

  function RawNameOf(e: FsEntry): Bytes { e.name }

  /** stripCaseHackSuffix: everything before the first marker, on macOS only. */
  function Strip(useCaseHack: bool, name: Bytes): Bytes {
    if useCaseHack then BeforeMarker(name) else name
  }

  function BeforeMarker(name: Bytes): Bytes {
    if name == "" || Text.HasPrefix(name, CaseHackSuffix) then "" else [name[0]] + BeforeMarker(name[1..])
  }

  /** The name up to its first marker, or all of it if there is none. */
  ghost predicate EndsAtMarker(name: Bytes, base: Bytes) {
    && base <= name && (forall i :: 0 <= i < |base| ==> !Text.HasPrefix(name[i..], "~nix~case~hack~"))
    && (base < name ==> Text.HasPrefix(name[|base|..], "~nix~case~hack~"))
  }

  lemma {:induction false} BeforeMarkerIs(name: Bytes)
    ensures EndsAtMarker(name, BeforeMarker(name))
  {
    if name != "" && !Text.HasPrefix(name, CaseHackSuffix) {
      var rest := name[1..];
      BeforeMarkerIs(rest);
      assert name[0..] == name;
      assert forall i :: 0 < i <= |name| ==> name[i..] == rest[i - 1..];
      assert name == [name[0]] + rest;
    }
  }

  lemma SameEnd(name: Bytes, a: Bytes, b: Bytes)
    requires EndsAtMarker(name, a) && EndsAtMarker(name, b)
    ensures a == b
  {
    assert a == name[..|a|] && b == name[..|b|];
  }

  /** Names are kept as they are, but for the case hack of macOS. */
  lemma StripIff(hack: bool, name: Bytes, base: Bytes)
    ensures Strip(hack, name) == base <==> if hack then EndsAtMarker(name, base) else base == name
  {
    BeforeMarkerIs(name);
    if hack && EndsAtMarker(name, base) { SameEnd(name, base, BeforeMarker(name)); }
  }

  // ---- walkNode, walkDirectory ----

  function Walk(fs: Fs, path: Bytes, hack: bool): Option<Walked>
    decreases fs, 0
  {
    match fs
    case File(executable, size, data) => Some(WFile(path, size, executable, data))
    case Link(target) => Some(WLink(target))
    case Special => None
    case Dir(entries) =>
      match WalkEntries(entries, path, hack)
      case None => None
      case Some(children) => if Collides(SortBy(NameOf, children)) then None else Some(WDir(SortBy(NameOf, children)))
  }

  function WalkEntries(entries: seq<FsEntry>, path: Bytes, hack: bool): (r: Option<seq<Child>>)
    ensures r.Some? ==> |r.value| == |entries|
    ensures r.Some? ==> forall i :: 0 <= i < |entries| ==>
      && Walk(entries[i].fs, path + "/" + entries[i].name, hack) == Some(r.value[i].node)
      && r.value[i].name == Strip(hack, entries[i].name)
    ensures r.None? <==> exists i :: 0 <= i < |entries| && Walk(entries[i].fs, path + "/" + entries[i].name, hack).None?
    decreases entries, 1
  {
    if entries == [] then Some([])
    else
      var init := entries[..|entries| - 1];
      var e := entries[|entries| - 1];
      match WalkEntries(init, path, hack)
      case None => None
      case Some(children) =>
        match Walk(e.fs, path + "/" + e.name, hack)
        case None => None
        case Some(node) => Some(children + [Child(Strip(hack, e.name), node)])
  }

  /** Two neighbours with one name. */
  predicate Collides(children: seq<Child>) {
    exists i :: 0 < i < |children| && children[i - 1].name == children[i].name
  }

  // ---- GenerateListingOnly ----

  function ListOnly(fs: Fs, hack: bool): Option<Listing>
    decreases fs, 0
  {
    match fs
    case File(executable, size, _) => Some(LRegular(size, executable, None))
    case Link(target) => Some(LSymlink(target))
    case Special => None
    case Dir(entries) =>
      match ListOnlyEntries(entries, hack)
      case None => None
      case Some(listed) => Some(LDirectory(FromPairs(SortBy(KeyOf, listed))))
  }

  /** An entry with its raw name, its name in the listing, and its own listing. */
  datatype Listed = Listed(raw: Bytes, name: Bytes, listing: Listing)

  function KeyOf(l: Listed): Bytes { l.raw }

  function ListOnlyEntries(entries: seq<FsEntry>, hack: bool): (r: Option<seq<Listed>>)
    ensures r.Some? ==> |r.value| == |entries|
    ensures r.Some? ==> forall i :: 0 <= i < |entries| ==>
      r.value[i].raw == entries[i].name && r.value[i].name == Strip(hack, entries[i].name)
      && ListOnly(entries[i].fs, hack) == Some(r.value[i].listing)
    ensures r.None? <==> exists i :: 0 <= i < |entries| && ListOnly(entries[i].fs, hack).None?
    decreases entries, 1
  {
    if entries == [] then Some([])
    else
      var init := entries[..|entries| - 1];
      var e := entries[|entries| - 1];
      match ListOnlyEntries(init, hack)
      case None => None
      case Some(listed) =>
        match ListOnly(e.fs, hack)
        case None => None
        case Some(l) => Some(listed + [Listed(e.name, Strip(hack, e.name), l)])
  }

  /** Assignments to a map in order: a later one wins. */
  function FromPairs(ps: seq<Listed>): map<Bytes, Listing> {
    if ps == [] then map[] else FromPairs(ps[..|ps| - 1])[ps[|ps| - 1].name := ps[|ps| - 1].listing]
  }

  // ---- what the dump reads ----

  /** The tree that is dumped; None if a file is gone or shorter than its stat said. */
  function Contents(w: Walked): Option<Node>
    decreases w, 0
  {
    match w
    case WFile(_, size, executable, data) =>
      if data.Some? && |data.value| >= size then Some(Regular(executable, data.value[..size])) else None
    case WLink(target) => Some(Symlink(target))
    case WDir(children) =>
      match ChildContents(children) case None => None case Some(entries) => Some(Directory(entries))
  }

  function ChildContents(children: seq<Child>): (r: Option<seq<Entry>>)
    ensures r.Some? ==> |r.value| == |children|
    ensures r.Some? ==> forall i :: 0 <= i < |children| ==>
      r.value[i].name == children[i].name && Contents(children[i].node) == Some(r.value[i].node)
    decreases children, 1
  {
    if children == [] then Some([])
    else
      match Contents(children[0].node)
      case None => None
      case Some(node) =>
        match ChildContents(children[1..])
        case None => None
        case Some(more) => Some([Entry(children[0].name, node)] + more)
  }

  // ---- the walk sorts, and refuses collisions ----

  /** Stripped names are distinct in every directory. */
  ghost predicate NoCollisions(fs: Fs, hack: bool) {
    fs.Dir? ==>
      && (forall i, j :: 0 <= i < j < |fs.entries| ==>
        Strip(hack, fs.entries[i].name) != Strip(hack, fs.entries[j].name))
      && (forall i :: 0 <= i < |fs.entries| ==> NoCollisions(fs.entries[i].fs, hack))
  }

  /** Children strictly ascending by name in every directory: NAR's canonical order. */
  ghost predicate Canonical(w: Walked) {
    w.WDir? ==> Ascending(NameOf, w.children) && forall i :: 0 <= i < |w.children| ==> Canonical(w.children[i].node)
  }

  lemma {:induction false} WalkIsCanonical(fs: Fs, path: Bytes, hack: bool)
    requires Walk(fs, path, hack).Some?
    ensures Canonical(Walk(fs, path, hack).value)
    decreases fs
  {
    if fs.Dir? {
      var children := WalkEntries(fs.entries, path, hack).value;
      var sorted := SortBy(NameOf, children);
      SortBySorts(NameOf, children);
      forall i | 0 < i < |sorted| ensures NameOf(sorted[i - 1]) != NameOf(sorted[i]) {}
      SortedDistinctIsAscending(NameOf, sorted);
      forall i | 0 <= i < |sorted| ensures Canonical(sorted[i].node) {
        var j := Origin(children, sorted, i);
        WalkIsCanonical(fs.entries[j].fs, path + "/" + fs.entries[j].name, hack);
      }
    }
  }

  lemma Origin<T>(s: seq<T>, sorted: seq<T>, i: nat) returns (j: nat)
    requires multiset(s) == multiset(sorted) && i < |sorted|
    ensures j < |s| && s[j] == sorted[i]
  {
    assert sorted[i] in multiset(s);
    j :| 0 <= j < |s| && s[j] == sorted[i];
  }

  /** The walk succeeds exactly when the plain listing does and no two stripped names
      meet in one directory. */
  lemma {:induction false} WalkSucceedsIff(fs: Fs, path: Bytes, hack: bool)
    ensures Walk(fs, path, hack).Some? <==> ListOnly(fs, hack).Some? && NoCollisions(fs, hack)
    decreases fs
  {
    if fs.Dir? {
      var entries := fs.entries;
      forall i | 0 <= i < |entries|
        ensures Walk(entries[i].fs, path + "/" + entries[i].name, hack).Some?
            <==> ListOnly(entries[i].fs, hack).Some? && NoCollisions(entries[i].fs, hack)
      {
        WalkSucceedsIff(entries[i].fs, path + "/" + entries[i].name, hack);
      }
      if WalkEntries(entries, path, hack).Some? {
        SortedCollision(entries, WalkEntries(entries, path, hack).value, hack);
      }
    }
  }

  /** The walk of a directory is refused exactly if two of its stripped names are the same. */
  lemma SortedCollision(entries: seq<FsEntry>, children: seq<Child>, hack: bool)
    requires |children| == |entries|
    requires forall i :: 0 <= i < |entries| ==> children[i].name == Strip(hack, entries[i].name)
    ensures !Collides(SortBy(NameOf, children)) <==>
      forall i, j :: 0 <= i < j < |entries| ==> Strip(hack, entries[i].name) != Strip(hack, entries[j].name)
  {
    hide Collides, Strip, SortBy;
    SortBySorts(NameOf, children);
    NoCollisionIff(SortBy(NameOf, children));
    RepeatsPermute(NameOf, SortBy(NameOf, children), children);
    CollisionIsRepeat(entries, children, hack);
  }

  lemma CollisionIsRepeat(entries: seq<FsEntry>, children: seq<Child>, hack: bool)
    requires |children| == |entries|
    requires forall i :: 0 <= i < |entries| ==> children[i].name == Strip(hack, entries[i].name)
    ensures NoRepeats(NameOf, children) <==>
      forall i, j :: 0 <= i < j < |entries| ==> Strip(hack, entries[i].name) != Strip(hack, entries[j].name)
  {
    if forall i, j :: 0 <= i < j < |entries| ==> Strip(hack, entries[i].name) != Strip(hack, entries[j].name) {
      forall i, j | 0 <= i < j < |children| ensures NameOf(children[i]) != NameOf(children[j]) {
        assert Strip(hack, entries[i].name) != Strip(hack, entries[j].name);
      }
    } else {
      var i, j :| 0 <= i < j < |entries| && Strip(hack, entries[i].name) == Strip(hack, entries[j].name);
      assert NameOf(children[i]) == NameOf(children[j]);
    }
  }

  // ---- the two listings agree ----

  lemma {:induction false} FromPairsHolds(ps: seq<Listed>)
    ensures forall k :: k in FromPairs(ps) ==>
      exists i :: 0 <= i < |ps| && ps[i].name == k && ps[i].listing == FromPairs(ps)[k]
    ensures forall i :: 0 <= i < |ps| ==> ps[i].name in FromPairs(ps)
  {
    if ps != [] {
      var init := ps[..|ps| - 1];
      FromPairsHolds(init);
      forall k | k in FromPairs(ps)
        ensures exists i :: 0 <= i < |ps| && ps[i].name == k && ps[i].listing == FromPairs(ps)[k] {
        if k == ps[|ps| - 1].name {
          assert ps[|ps| - 1].listing == FromPairs(ps)[k];
        } else {
          var i :| 0 <= i < |init| && init[i].name == k && init[i].listing == FromPairs(init)[k];
          assert ps[i].name == k;
        }
      }
    }
  }

  ghost predicate IsListingOf(l: Listing, n: Node) {
    exists at :: l == ListingOf(n, at)
  }

  /** The map holds exactly the entries, each with some listing of its node. */
  ghost predicate AllListed(m: map<Bytes, Listing>, entries: seq<Entry>) {
    && (forall k :: k in m ==> exists i :: 0 <= i < |entries| && entries[i].name == k)
    && (forall i :: 0 <= i < |entries| ==> entries[i].name in m && IsListingOf(m[entries[i].name], entries[i].node))
  }

  lemma ListedCons(first: Listing, more: map<Bytes, Listing>, entries: seq<Entry>)
    requires entries != [] && IsListingOf(first, entries[0].node) && AllListed(more, entries[1..])
    requires forall i, j :: 0 <= i < j < |entries| ==> entries[i].name != entries[j].name
    ensures AllListed(map[entries[0].name := first] + more, entries)
  {
    hide IsListingOf;
    var m := map[entries[0].name := first] + more;
    forall k | k in m ensures exists i :: 0 <= i < |entries| && entries[i].name == k {
      if k in more {
        var i :| 0 <= i < |entries[1..]| && entries[1..][i].name == k;
        assert entries[i + 1].name == k;
      }
    }
    forall i | 0 <= i < |entries| ensures entries[i].name in m && IsListingOf(m[entries[i].name], entries[i].node) {
      if i > 0 {
        assert entries[1..][i - 1] == entries[i];
      } else {
        assert entries[0].name !in more;
      }
    }
  }

  /** The dump's listing of a directory, entry by entry. */
  lemma {:induction false} EntriesAreListed(entries: seq<Entry>, start: nat)
    requires forall i, j :: 0 <= i < j < |entries| ==> entries[i].name != entries[j].name
    ensures AllListed(ListEntries(entries, start), entries)
  {
    hide Join, Encode, Tokens, ListingOf, IsListingOf, ListEntries, AllListed;
    if entries == [] {
      NothingListed(start);
    } else {
      var e, rest := entries[0], entries[1..];
      var nodeStart := start + EntryHeadSpan(e.name);
      var next := nodeStart + |Encode(Tokens(e.node))| + EntryCloseSpan;
      EntriesAreListed(rest, next);
      ListCons(entries, start);
      ItsOwnListing(e.node, nodeStart);
      ListedCons(ListingOf(e.node, nodeStart), ListEntries(rest, next), entries);
    }
  }

  lemma NothingListed(start: nat)
    ensures AllListed(ListEntries([], start), [])
  {
  }

  lemma ItsOwnListing(n: Node, at: nat)
    ensures IsListingOf(ListingOf(n, at), n)
  {
  }

  /** Without its offsets, the dump's listing is what GenerateListingOnly returns. */
  lemma {:induction false} ListingsAgree(fs: Fs, path: Bytes, hack: bool, start: nat)
    requires Walk(fs, path, hack).Some? && Contents(Walk(fs, path, hack).value).Some?
    ensures ListOnly(fs, hack) == Some(Erase(ListingOf(Contents(Walk(fs, path, hack).value).value, start)))
    decreases fs, 2
  {
    if fs.Dir? {
      WalkSucceedsIff(fs, path, hack);
      WalkIsCanonical(fs, path, hack);
      DirectoriesAgree(fs, path, hack, start);
    }
  }

  lemma {:induction false} DirectoriesAgree(fs: Fs, path: Bytes, hack: bool, start: nat)
    requires fs.Dir? && Walk(fs, path, hack).Some? && Contents(Walk(fs, path, hack).value).Some?
    requires ListOnly(fs, hack).Some? && Canonical(Walk(fs, path, hack).value)
    ensures ListOnly(fs, hack) == Some(Erase(ListingOf(Contents(Walk(fs, path, hack).value).value, start)))
    decreases fs, 1
  {
    hide Join, Encode, Tokens, ListEntries, FromPairs, SortBy, ErasesEach, Erase;
    var children := WalkEntries(fs.entries, path, hack).value;
    var entries := ChildContents(SortBy(NameOf, children)).value;
    var listed := ListOnlyEntries(fs.entries, hack).value;
    SortBySorts(NameOf, children);
    SortBySorts(KeyOf, listed);
    MapsAgree(fs, path, hack, start + DirectoryHeadSpan, children, SortBy(NameOf, children), entries, listed,
        SortBy(KeyOf, listed));
    ErasesTo(ListEntries(entries, start + DirectoryHeadSpan), FromPairs(SortBy(KeyOf, listed)));
  }

  lemma {:induction false} MapsAgree(fs: Fs, path: Bytes, hack: bool, start: nat, children: seq<Child>,
                                     sorted: seq<Child>,
                                     entries: seq<Entry>, listed: seq<Listed>, byKey: seq<Listed>)
    requires fs.Dir? && WalkEntries(fs.entries, path, hack) == Some(children)
      && ListOnlyEntries(fs.entries, hack) == Some(listed)
    requires multiset(sorted) == multiset(children) && multiset(byKey) == multiset(listed)
    requires Ascending(NameOf, sorted) && ChildContents(sorted) == Some(entries)
    ensures ErasesEach(ListEntries(entries, start), FromPairs(byKey))
    decreases fs, 0
  {
    hide Join, Encode, Tokens, ListEntries, FromPairs, IsListingOf, ChildContents, WalkEntries, ListOnlyEntries,
         Contents, Walk, ListOnly,
         Erase, ListingOf, Strip, Ascending;
    var full, plain := ListEntries(entries, start), FromPairs(byKey);
    FromPairsHolds(byKey);
    EntriesAreDistinct(sorted, entries);
    EntriesAreListed(entries, start);
    forall k | k in plain ensures k in full && Erase(full[k]) == plain[k] {
      var j := ListedFrom(listed, byKey, plain, k);
      var m := Origin(sorted, children, j);
      assert entries[m].name == k;
      var at := SomeStart(full[k], entries[m].node);
      ListingsAgree(fs.entries[j].fs, path + "/" + fs.entries[j].name, hack, at);
    }
    forall k | k in full ensures k in plain {
      var i :| 0 <= i < |entries| && entries[i].name == k;
      var j := Origin(children, sorted, i);
      var m := Origin(byKey, listed, j);
    }
  }

  lemma ListedFrom(listed: seq<Listed>, sorted: seq<Listed>, m: map<Bytes, Listing>, k: Bytes) returns (j: nat)
    requires multiset(sorted) == multiset(listed)
    requires exists i :: 0 <= i < |sorted| && sorted[i].name == k && k in m && sorted[i].listing == m[k]
    ensures j < |listed| && listed[j].name == k && k in m && listed[j].listing == m[k]
  {
    var i :| 0 <= i < |sorted| && sorted[i].name == k && k in m && sorted[i].listing == m[k];
    j := Origin(listed, sorted, i);
  }

  lemma SomeStart(l: Listing, n: Node) returns (at: nat)
    requires IsListingOf(l, n)
    ensures l == ListingOf(n, at)
  {
    at :| l == ListingOf(n, at);
  }

  ghost predicate ErasesEach(full: map<Bytes, Listing>, plain: map<Bytes, Listing>) {
    full.Keys == plain.Keys && forall k :: k in plain ==> Erase(full[k]) == plain[k]
  }

  lemma ErasesTo(full: map<Bytes, Listing>, plain: map<Bytes, Listing>)
    requires ErasesEach(full, plain)
    ensures Erase(LDirectory(full)) == LDirectory(plain)
  {
    assert (map k | k in full :: Erase(full[k])) == plain;
  }

  lemma EntriesAreDistinct(sorted: seq<Child>, entries: seq<Entry>)
    requires Ascending(NameOf, sorted) && |entries| == |sorted|
    requires forall i :: 0 <= i < |sorted| ==> entries[i].name == sorted[i].name
    ensures forall i, j :: 0 <= i < j < |entries| ==> entries[i].name != entries[j].name
  {
    forall i, j | 0 <= i < j < |entries| ensures entries[i].name != entries[j].name {
      BeforeIsTotal(NameOf(sorted[i]), NameOf(sorted[j]));
    }
  }

  // ---- the walks as the client runs them ----

  method WalkNode(fs: Fs, path: Bytes, hack: bool) returns (r: Option<Walked>)
    ensures r == Walk(fs, path, hack)
    decreases fs, 1
  {
    match fs
    case File(executable, size, data) => r := Some(WFile(path, size, executable, data));
    case Dir(entries) => r := WalkDirectory(fs, path, hack);
    case Link(target) => r := Some(WLink(target));
    case Special => r := None;
  }

  method WalkDirectory(fs: Fs, path: Bytes, hack: bool) returns (r: Option<Walked>)
    requires fs.Dir?
    ensures r == Walk(fs, path, hack)
    decreases fs, 0
  {
    var entries := fs.entries;
    var children: seq<Child> := [];
    for i := 0 to |entries|
      invariant WalkEntries(entries[..i], path, hack) == Some(children)
    {
      var child := WalkNode(entries[i].fs, path + "/" + entries[i].name, hack);
      if child.None? {
        assert WalkEntries(entries, path, hack).None?;
        return None;
      }
      assert entries[..i + 1][..i] == entries[..i];
      children := children + [Child(Strip(hack, entries[i].name), child.value)];
    }
    assert entries[..|entries|] == entries;
    var sorted := SortFunc(NameOf, children);
    AnySortWalks(children, sorted);
    var collides := FindCollision(sorted);
    r := if collides then None else Some(WDir(sorted));
  }

  method FindCollision(sorted: seq<Child>) returns (found: bool)
    ensures found <==> Collides(sorted)
  {
    var i := 1;
    while i < |sorted|
      invariant forall j :: 0 < j < i && j < |sorted| ==> sorted[j - 1].name != sorted[j].name
    {
      if sorted[i - 1].name == sorted[i].name {
        return true;
      }
      i := i + 1;
    }
    found := false;
  }

  /** An unstable sort gives the same walk: where it could differ, the walk refuses. */
  lemma AnySortWalks(children: seq<Child>, sorted: seq<Child>)
    requires Sorted(NameOf, sorted) && multiset(sorted) == multiset(children)
    ensures Collides(sorted) <==> Collides(SortBy(NameOf, children))
    ensures !Collides(sorted) ==> sorted == SortBy(NameOf, children)
  {
    var reference := SortBy(NameOf, children);
    SortBySorts(NameOf, children);
    NoCollisionIff(sorted);
    NoCollisionIff(reference);
    RepeatsPermute(NameOf, sorted, reference);
    if NoRepeats(NameOf, sorted) {
      DistinctOrderIsUnique(NameOf, sorted, reference);
    }
  }

  lemma NoCollisionIff(sorted: seq<Child>)
    requires Sorted(NameOf, sorted)
    ensures !Collides(sorted) <==> NoRepeats(NameOf, sorted)
  {
    AdjacentRepeats(NameOf, sorted);
    assert Collides(sorted) <==> exists i :: 0 < i < |sorted| && NameOf(sorted[i - 1]) == NameOf(sorted[i]);
  }

  /** os.ReadDir returns the entries of a directory sorted by file name. */
  ghost predicate FromReadDir(fs: Fs) {
    fs.Dir? ==> Ascending(RawNameOf, fs.entries) && forall i :: 0 <= i < |fs.entries| ==> FromReadDir(fs.entries[i].fs)
  }

  method GenerateListingEntry(fs: Fs, hack: bool) returns (r: Option<Listing>)
    requires FromReadDir(fs)
    ensures r == ListOnly(fs, hack)
    decreases fs, 1
  {
    match fs
    case File(executable, size, _) => r := Some(LRegular(size, executable, None));
    case Dir(_) => r := GenerateDirectoryListing(fs, hack);
    case Link(target) => r := Some(LSymlink(target));
    case Special => r := None;
  }

  method GenerateDirectoryListing(fs: Fs, hack: bool) returns (r: Option<Listing>)
    requires fs.Dir? && FromReadDir(fs)
    ensures r == ListOnly(fs, hack)
    decreases fs, 0
  {
    hide Strip, ListOnlyEntries, ListOnly, FromPairs, Ascending, SortBy;
    var entries := SortFunc(RawNameOf, fs.entries);
    ReadDirIsSorted(fs, entries);
    var entryMap := map[];
    ghost var listed: seq<Listed> := [];
    NothingListedOnly(hack);
    for i := 0 to |entries|
      invariant ListOnlyEntries(entries[..i], hack) == Some(listed)
      invariant entryMap == FromPairs(listed)
    {
      var listing := GenerateListingEntry(entries[i].fs, hack);
      if listing.None? {
        NotListed(fs, i, hack);
        return None;
      }
      var name := Strip(hack, entries[i].name);
      entryMap := entryMap[name := listing.value];
      listed := ListedSnoc(entries, i, hack, listed, listing.value);
    }
    assert entries[..|entries|] == entries;
    DirectoryListed(fs, hack, listed);
    r := Some(LDirectory(entryMap));
  }

  lemma ReadDirIsSorted(fs: Fs, sorted: seq<FsEntry>)
    requires fs.Dir? && FromReadDir(fs) && Sorted(RawNameOf, sorted) && multiset(sorted) == multiset(fs.entries)
    ensures sorted == fs.entries && forall i :: 0 <= i < |sorted| ==> FromReadDir(sorted[i].fs)
  {
    AscendingIsSorted(RawNameOf, fs.entries);
    DistinctOrderIsUnique(RawNameOf, fs.entries, sorted);
  }

  lemma NothingListedOnly(hack: bool)
    ensures ListOnlyEntries([], hack) == Some([]) && FromPairs([]) == map[]
  {
  }

  lemma NotListed(fs: Fs, i: nat, hack: bool)
    requires fs.Dir? && i < |fs.entries| && ListOnly(fs.entries[i].fs, hack).None?
    ensures ListOnly(fs, hack).None?
  {
    assert ListOnlyEntries(fs.entries, hack).None?;
  }

  lemma ListedSnoc(entries: seq<FsEntry>, i: nat, hack: bool, listed: seq<Listed>, l: Listing)
    returns (more: seq<Listed>)
    requires i < |entries| && ListOnlyEntries(entries[..i], hack) == Some(listed)
      && ListOnly(entries[i].fs, hack) == Some(l)
    ensures ListOnlyEntries(entries[..i + 1], hack) == Some(more)
    ensures FromPairs(more) == FromPairs(listed)[Strip(hack, entries[i].name) := l]
  {
    more := listed + [Listed(entries[i].name, Strip(hack, entries[i].name), l)];
    assert entries[..i + 1][..i] == entries[..i] && more[..i] == listed;
  }

  lemma DirectoryListed(fs: Fs, hack: bool, listed: seq<Listed>)
    requires fs.Dir? && FromReadDir(fs) && ListOnlyEntries(fs.entries, hack) == Some(listed)
    ensures ListOnly(fs, hack) == Some(LDirectory(FromPairs(listed)))
  {
    forall i, j | 0 <= i < j < |listed| ensures Before(KeyOf(listed[i]), KeyOf(listed[j])) {
      assert Before(RawNameOf(fs.entries[i]), RawNameOf(fs.entries[j]));
    }
    AscendingIsSorted(KeyOf, listed);
  }
}
