/** The listing that is written beside a NAR: for each file its size and where its
    contents start in the archive. */
module NarListing {
  import opened Wrappers
  import opened Arithmetic
  import opened NarFormat

  datatype Listing =
    | LRegular(size: nat, executable: bool, narOffset: Option<nat>)
    | LDirectory(entries: map<Bytes, Listing>)
    | LSymlink(target: Bytes)

  /** Offsets are uint64. */
  function Wrap(n: nat): nat {
    n % TwoTo64
  }

  /** Bytes a string of n bytes takes. */
  function Span(n: nat): nat {
    8 + n + PadLength(n)
  }

  const ArchiveHeadSpan: nat := 40
  const DirectoryHeadSpan: nat := 40
  const EntryCloseSpan: nat := 32

  function RegularHeadSpan(executable: bool): nat {
    if executable then 80 else 48
  }

  function EntryHeadSpan(name: Bytes): nat {
    80 + Span(|name|)
  }

  /** The listing of a node that is written after `start` bytes. */
  function ListingOf(n: Node, start: nat): Listing {
    match n
    case Regular(executable, contents) =>
      LRegular(|contents|, executable, Some(Wrap(start + RegularHeadSpan(executable) + 8)))
    case Directory(entries) => LDirectory(ListEntries(entries, start + DirectoryHeadSpan))
    case Symlink(target) => LSymlink(target)
  }

  /** A name that occurs again replaces the earlier entry. */
  function ListEntries(entries: seq<Entry>, start: nat): map<Bytes, Listing> {
    if entries == [] then map[]
    else
      var e := entries[0];
      var nodeStart := start + EntryHeadSpan(e.name);
      map[e.name := ListingOf(e.node, nodeStart)]
      + ListEntries(entries[1..], nodeStart + |Encode(Tokens(e.node))| + EntryCloseSpan)
  }

  /** Names are distinct in every directory. */
  ghost predicate DistinctNames(n: Node) {
    n.Directory? ==>
      && (forall i, j :: 0 <= i < j < |n.entries| ==> n.entries[i].name != n.entries[j].name)
      && (forall i :: 0 <= i < |n.entries| ==> DistinctNames(n.entries[i].node))
  }

  /** The listing describes the tree, and each offset leads to the file's contents. */
  ghost predicate Locates(l: Listing, n: Node, nar: Bytes) {
    match n
    case Regular(executable, contents) =>
      && l.LRegular? && l.executable == executable && l.size == |contents|
      && l.narOffset.Some? && l.narOffset.value + l.size <= |nar|
      && nar[l.narOffset.value..l.narOffset.value + l.size] == contents
    case Directory(entries) =>
      && l.LDirectory?
      && (forall k :: k in l.entries ==> exists i :: 0 <= i < |entries| && entries[i].name == k)
      && forall i :: 0 <= i < |entries| ==>
           entries[i].name in l.entries && Locates(l.entries[entries[i].name], entries[i].node, nar)
    case Symlink(target) => l == LSymlink(target)
  }

  // ---- how the pieces lie in the archive ----

  lemma EncodeAppend(ts: seq<Bytes>, t: Bytes)
    ensures Encode(ts + [t]) == Encode(ts) + Str(t)
    ensures |Encode(ts + [t])| == |Encode(ts)| + Span(|t|)
  {
    EncodeConcat(ts, [t]);
    EncodeOne(t);
    StrLength(t);
  }

  lemma PairSpan(a: Bytes, b: Bytes)
    ensures |Encode([a, b])| == Span(|a|) + Span(|b|)
  {
    assert [a, b] == [a] + [b];
    EncodeOne(a);
    StrLength(a);
    EncodeAppend([a], b);
  }

  lemma RegularHeadHasSpan(executable: bool)
    ensures |Encode(RegularHead(executable))| == RegularHeadSpan(executable)
  {
    hide Join, Encode;
    PairSpan("type", "regular");
    PairSpan("executable", "");
    var first, second := ["type", "regular"], if executable then ["executable", ""] else [];
    ThreeParts(first, second, "contents");
    NothingEncoded();
  }

  lemma NothingEncoded()
    ensures Encode([]) == ""
  {
  }

  lemma ThreeParts(a: seq<Bytes>, b: seq<Bytes>, last: Bytes)
    ensures |Encode(a + b + [last])| == |Encode(a)| + |Encode(b)| + |Str(last)|
  {
    hide Join, Encode, Str;
    EncodeConcat(a, b);
    EncodeAppend(a + b, last);
  }

  lemma EntryHeadHasSpan(name: Bytes)
    ensures |Encode(EntryHead(name))| == EntryHeadSpan(name)
  {
    hide Join, Encode;
    PairSpan("entry", "(");
    PairSpan("name", name);
    PairSpan("node", "(");
    EncodeConcat(["entry", "("], ["name", name]);
    EncodeConcat(["entry", "("] + ["name", name], ["node", "("]);
    assert EntryHead(name) == ["entry", "("] + ["name", name] + ["node", "("];
  }

  lemma RegularShape(executable: bool, contents: Bytes) returns (head: Bytes, pad: Bytes)
    ensures |head| == RegularHeadSpan(executable) + 8
    ensures Encode(Tokens(Regular(executable, contents))) == head + contents + pad
  {
    RegularHeadHasSpan(executable);
    EncodeAppend(RegularHead(executable), contents);
    LittleEndianLength(|contents|, 8);
    head := Encode(RegularHead(executable)) + LittleEndian(|contents|, 8);
    pad := Zeros(PadLength(|contents|));
    assert Encode(RegularHead(executable)) + (LittleEndian(|contents|, 8) + contents + pad) == head + contents + pad;
  }

  lemma DirectoryShape(entries: seq<Entry>) returns (head: Bytes)
    ensures |head| == DirectoryHeadSpan
    ensures Encode(Tokens(Directory(entries))) == head + Encode(EntriesTokens(entries))
  {
    head := Encode(["type", "directory"]);
    PairSpan("type", "directory");
    EncodeConcat(["type", "directory"], EntriesTokens(entries));
  }

  lemma EntryShape(entries: seq<Entry>) returns (head: Bytes, close: Bytes)
    requires entries != []
    ensures |head| == EntryHeadSpan(entries[0].name) && |close| == EntryCloseSpan
    ensures Encode(EntriesTokens(entries)) ==
            head + Encode(Tokens(entries[0].node)) + close + Encode(EntriesTokens(entries[1..]))
  {
    hide Join, Encode;
    var e := entries[0];
    head, close := Encode(EntryHead(e.name)), Encode([")", ")"]);
    EntryHeadHasSpan(e.name);
    PairSpan(")", ")");
    EncodeConcat(EntryHead(e.name) + Tokens(e.node) + [")", ")"], EntriesTokens(entries[1..]));
    EncodeConcat(EntryHead(e.name) + Tokens(e.node), [")", ")"]);
    EncodeConcat(EntryHead(e.name), Tokens(e.node));
  }

  lemma ArchiveShape(n: Node) returns (head: Bytes, close: Bytes)
    ensures |head| == ArchiveHeadSpan
    ensures Dump(n) == head + Encode(Tokens(n)) + close
  {
    hide Join, Encode;
    head, close := Encode(["nix-archive-1", "("]), Encode([")"]);
    PairSpan("nix-archive-1", "(");
    EncodeConcat(["nix-archive-1", "("] + Tokens(n), [")"]);
    EncodeConcat(["nix-archive-1", "("], Tokens(n));
  }

  // ---- the offsets are right ----

  lemma Window(pre: Bytes, head: Bytes, contents: Bytes, pad: Bytes, post: Bytes)
    ensures var nar := pre + (head + contents + pad) + post;
            var at := |pre| + |head|;
            at + |contents| <= |nar| && nar[at..at + |contents|] == contents
  {
  }

  /** In an archive, the listing of every node locates its files. */
  lemma {:induction false} NodesAreLocated(n: Node, pre: Bytes, post: Bytes, nar: Bytes)
    requires nar == pre + Encode(Tokens(n)) + post && |nar| < TwoTo64 && DistinctNames(n)
    ensures Locates(ListingOf(n, |pre|), n, nar)
    decreases n, 0
  {
    hide Join, Encode;
    match n
    case Regular(executable, contents) =>
      var head, pad := RegularShape(executable, contents);
      Window(pre, head, contents, pad, post);
    case Symlink(_) =>
    case Directory(entries) =>
      var head := DirectoryShape(entries);
      assert nar == (pre + head) + Encode(EntriesTokens(entries)) + post;
      EntriesAreLocated(entries, pre + head, post, nar);
  }

  lemma {:induction false} EntriesAreLocated(entries: seq<Entry>, pre: Bytes, post: Bytes, nar: Bytes)
    requires nar == pre + Encode(EntriesTokens(entries)) + post && |nar| < TwoTo64
    requires DistinctNames(Directory(entries))
    ensures AllLocated(ListEntries(entries, |pre|), entries, nar)
    decreases entries, 1
  {
    hide Join, Encode, EntriesTokens, Tokens, ListEntries, AllLocated;
    if entries == [] {
      NothingToLocate(|pre|, nar);
    } else {
      var e, rest := entries[0], entries[1..];
      DistinctTail(entries);
      var before, after, next := EntryPlace(entries, pre, post, nar);
      NodesAreLocated(e.node, before, after, nar);
      EntriesAreLocated(rest, next, post, nar);
      LocatedCons(ListingOf(e.node, |before|), ListEntries(rest, |next|), entries, nar);
      ListCons(entries, |pre|);
    }
  }

  lemma NothingToLocate(start: nat, nar: Bytes)
    ensures AllLocated(ListEntries([], start), [], nar)
  {
  }

  lemma ListCons(entries: seq<Entry>, start: nat)
    requires entries != []
    ensures var e, nodeStart := entries[0], start + EntryHeadSpan(entries[0].name);
            ListEntries(entries, start) ==
              map[e.name := ListingOf(e.node, nodeStart)]
              + ListEntries(entries[1..], nodeStart + |Encode(Tokens(e.node))| + EntryCloseSpan)
  {
    hide Join, Encode, Tokens;
  }

  /** Where the first entry's node and the remaining entries lie. */
  lemma EntryPlace(entries: seq<Entry>, pre: Bytes, post: Bytes, nar: Bytes)
    returns (before: Bytes, after: Bytes, next: Bytes)
    requires nar == pre + Encode(EntriesTokens(entries)) + post && entries != []
    ensures nar == before + Encode(Tokens(entries[0].node)) + after
    ensures nar == next + Encode(EntriesTokens(entries[1..])) + post
    ensures |before| == |pre| + EntryHeadSpan(entries[0].name)
    ensures |next| == |before| + |Encode(Tokens(entries[0].node))| + EntryCloseSpan
  {
    hide Join, Encode, EntriesTokens, Tokens;
    var head, close := EntryShape(entries);
    var body, more := Encode(Tokens(entries[0].node)), Encode(EntriesTokens(entries[1..]));
    before, after, next := pre + head, close + more + post, pre + head + body + close;
    Reassociate(pre, head, body, close, more, post);
  }

  lemma DistinctTail(entries: seq<Entry>)
    requires entries != [] && DistinctNames(Directory(entries))
    ensures DistinctNames(entries[0].node) && DistinctNames(Directory(entries[1..]))
  {
  }

  lemma Reassociate(pre: Bytes, head: Bytes, body: Bytes, close: Bytes, more: Bytes, post: Bytes)
    ensures var nar := pre + (head + body + close + more) + post;
            nar == (pre + head) + body + (close + more + post) && nar == (pre + head + body + close) + more + post
  {
  }

  /** The map holds exactly the entries, each located. */
  ghost predicate AllLocated(m: map<Bytes, Listing>, entries: seq<Entry>, nar: Bytes) {
    && (forall k :: k in m ==> exists i :: 0 <= i < |entries| && entries[i].name == k)
    && (forall i :: 0 <= i < |entries| ==> entries[i].name in m && Locates(m[entries[i].name], entries[i].node, nar))
  }

  lemma LocatedCons(first: Listing, more: map<Bytes, Listing>, entries: seq<Entry>, nar: Bytes)
    requires entries != [] && Locates(first, entries[0].node, nar) && AllLocated(more, entries[1..], nar)
    requires DistinctNames(Directory(entries))
    ensures AllLocated(map[entries[0].name := first] + more, entries, nar)
  {
    var m := map[entries[0].name := first] + more;
    forall k | k in m ensures exists i :: 0 <= i < |entries| && entries[i].name == k {
      if k in more {
        var i :| 0 <= i < |entries[1..]| && entries[1..][i].name == k;
        assert entries[i + 1].name == k;
      }
    }
    forall i | 0 <= i < |entries| ensures entries[i].name in m && Locates(m[entries[i].name], entries[i].node, nar) {
      if i > 0 {
        assert entries[1..][i - 1] == entries[i];
      } else {
        assert entries[0].name !in more;
      }
    }
  }

  /** The listing written with an archive locates every file in it. */
  lemma ArchiveIsLocated(n: Node)
    requires |Dump(n)| < TwoTo64 && DistinctNames(n)
    ensures Locates(ListingOf(n, ArchiveHeadSpan), n, Dump(n))
  {
    var head, close := ArchiveShape(n);
    NodesAreLocated(n, head, close, Dump(n));
  }

  /** A listing without offsets, as GenerateListingOnly makes it. */
  function Erase(l: Listing): Listing {
    match l
    case LRegular(size, executable, _) => LRegular(size, executable, None)
    case LDirectory(entries) => LDirectory(map k | k in entries :: Erase(entries[k]))
    case LSymlink(_) => l
  }
}
