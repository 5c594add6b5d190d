/** The NAR format: a tree is flattened to a list of strings, and each string is
    written with its length in front and padded to 8 bytes. A char stands for a byte. */
module NarFormat {
  import opened Wrappers
  import opened Arithmetic

  type Bytes = string

  datatype Node =
    | Regular(executable: bool, contents: Bytes)
    | Directory(entries: seq<Entry>)
    | Symlink(target: Bytes)

  datatype Entry = Entry(name: Bytes, node: Node)

  // ---- strings ----

  /** binary.LittleEndian: width bytes, least significant first. */
  function LittleEndian(n: nat, width: nat): Bytes {
    if width == 0 then "" else [(n % 256) as char] + LittleEndian(n / 256, width - 1)
  }

  function FromLittleEndian(b: Bytes): nat {
    if b == "" then 0 else b[0] as int + 256 * FromLittleEndian(b[1..])
  }

  function Zeros(n: nat): Bytes {
    seq(n, _ => 0 as char)
  }

  function PadLength(n: nat): nat {
    (8 - n % 8) % 8
  }

  function Str(s: Bytes): Bytes {
    LittleEndian(|s|, 8) + s + Zeros(PadLength(|s|))
  }

  function Join<T>(f: T -> Bytes, ts: seq<T>): Bytes {
    if ts == [] then "" else Join(f, ts[..|ts| - 1]) + f(ts[|ts| - 1])
  }

  function Encode(tokens: seq<Bytes>): Bytes {
    Join(Str, tokens)
  }

  /** Lengths are written as uint64. */
  predicate Writable(tokens: seq<Bytes>) {
    forall t :: t in tokens ==> |t| < TwoTo64
  }

  // ---- trees ----

  function Tokens(n: Node): seq<Bytes> {
    match n
    case Regular(executable, contents) => RegularHead(executable) + [contents]
    case Directory(entries) => ["type", "directory"] + EntriesTokens(entries)
    case Symlink(target) => ["type", "symlink", "target", target]
  }

  function RegularHead(executable: bool): seq<Bytes> {
    ["type", "regular"] + (if executable then ["executable", ""] else []) + ["contents"]
  }

  function EntriesTokens(entries: seq<Entry>): seq<Bytes> {
    if entries == [] then []
    else EntryHead(entries[0].name) + Tokens(entries[0].node) + [")", ")"] + EntriesTokens(entries[1..])
  }

  function EntryHead(name: Bytes): seq<Bytes> {
    ["entry", "(", "name", name, "node", "("]
  }

  function ArchiveTokens(n: Node): seq<Bytes> {
    ["nix-archive-1", "("] + Tokens(n) + [")"]
  }

  function Dump(n: Node): Bytes {
    Encode(ArchiveTokens(n))
  }

  // ---- reading it back ----

  /** The first string of b and what follows it. */
  function Take(b: Bytes): Option<(Bytes, Bytes)> {
    if |b| < 8 then None
    else
      var n := FromLittleEndian(b[..8]);
      if |b| < 8 + n + PadLength(n) then None else Some((b[8..8 + n], b[8 + n + PadLength(n)..]))
  }

  function Decode(b: Bytes): Option<seq<Bytes>>
    decreases |b|
  {
    if b == "" then Some([])
    else match Take(b)
      case None => None
      case Some((s, rest)) =>
        match Decode(rest) case None => None case Some(more) => Some([s] + more)
  }

  /** A node at the head of the token list, and the tokens after it. */
  function ParseNode(ts: seq<Bytes>): (r: Option<(Node, seq<Bytes>)>)
    ensures r.Some? ==> |r.value.1| < |ts|
    decreases |ts|, 0
  {
    if |ts| < 2 || ts[0] != "type" then None
    else if ts[1] == "regular" then
      if |ts| >= 4 && ts[2] == "contents" then Some((Regular(false, ts[3]), ts[4..]))
      else if |ts| >= 6 && ts[2] == "executable" && ts[3] == ""
        && ts[4] == "contents" then Some((Regular(true, ts[5]), ts[6..]))
      else None
    else if ts[1] == "symlink" then
      if |ts| >= 4 && ts[2] == "target" then Some((Symlink(ts[3]), ts[4..])) else None
    else if ts[1] == "directory" then
      match ParseEntries(ts[2..])
      case None => None
      case Some((entries, rest)) => Some((Directory(entries), rest))
    else None
  }

  function ParseEntries(ts: seq<Bytes>): (r: Option<(seq<Entry>, seq<Bytes>)>)
    ensures r.Some? ==> |r.value.1| <= |ts|
    decreases |ts|, 1
  {
    if |ts| == 0 || ts[0] != "entry" then Some(([], ts))
    else if |ts| < 6 || ts[1] != "(" || ts[2] != "name" || ts[4] != "node" || ts[5] != "(" then None
    else match ParseNode(ts[6..])
      case None => None
      case Some((node, rest)) =>
        if |rest| < 2 || rest[0] != ")" || rest[1] != ")" then None
        else match ParseEntries(rest[2..])
          case None => None
          case Some((more, rest')) => Some(([Entry(ts[3], node)] + more, rest'))
  }

  function ParseArchive(b: Bytes): Option<Node> {
    match Decode(b)
    case None => None
    case Some(ts) =>
      if |ts| < 2 || ts[0] != "nix-archive-1" || ts[1] != "(" then None
      else match ParseNode(ts[2..])
        case None => None
        case Some((n, rest)) => if rest == [")"] then Some(n) else None
  }

  // ---- strings come back ----

  function Pow256(width: nat): nat {
    if width == 0 then 1 else 256 * Pow256(width - 1)
  }

  lemma {:induction false} LittleEndianRoundTrip(n: nat, width: nat)
    requires n < Pow256(width)
    ensures |LittleEndian(n, width)| == width
    ensures FromLittleEndian(LittleEndian(n, width)) == n
  {
    if width > 0 {
      LittleEndianRoundTrip(n / 256, width - 1);
      assert LittleEndian(n, width)[1..] == LittleEndian(n / 256, width - 1);
    }
  }

  lemma EightBytes()
    ensures Pow256(8) == TwoTo64
  {
    assert Pow256(4) == 0x1_0000_0000;
    assert Pow256(8) == 256 * 256 * 256 * 256 * Pow256(4);
  }

  lemma StrLength(s: Bytes)
    ensures |Str(s)| == 8 + |s| + PadLength(|s|) && |Str(s)| % 8 == 0
  {
    LittleEndianLength(|s|, 8);
  }

  lemma {:induction false} LittleEndianLength(n: nat, width: nat)
    ensures |LittleEndian(n, width)| == width
  {
    if width > 0 { LittleEndianLength(n / 256, width - 1); }
  }

  lemma TakeStr(s: Bytes, rest: Bytes)
    requires |s| < TwoTo64
    ensures Take(Str(s) + rest) == Some((s, rest))
  {
    EightBytes();
    LittleEndianRoundTrip(|s|, 8);
    StrLength(s);
    PartsOf(LittleEndian(|s|, 8), s, Zeros(PadLength(|s|)), rest);
    hide LittleEndian, FromLittleEndian, Zeros, PadLength;
  }

  lemma PartsOf<T>(a: seq<T>, b: seq<T>, c: seq<T>, rest: seq<T>)
    ensures var all := a + b + c + rest;
            all[..|a|] == a && all[|a|..|a| + |b|] == b && all[|a + b + c|..] == rest
  {
  }

  lemma {:induction false} JoinConcat<T>(f: T -> Bytes, a: seq<T>, b: seq<T>)
    ensures Join(f, a + b) == Join(f, a) + Join(f, b)
  {
    if b == [] {
      assert a + b == a;
    } else {
      var ab := a + b;
      assert ab[..|ab| - 1] == a + b[..|b| - 1];
      JoinConcat(f, a, b[..|b| - 1]);
    }
  }

  lemma EncodeConcat(a: seq<Bytes>, b: seq<Bytes>)
    ensures Encode(a + b) == Encode(a) + Encode(b)
  {
    JoinConcat(Str, a, b);
  }

  lemma EncodeOne(s: Bytes)
    ensures Encode([s]) == Str(s)
  {
    assert [s][..0] == [] && Join(Str, [s][..0]) == "";
    assert "" + Str(s) == Str(s);
  }

  lemma {:induction false} JoinIsAligned<T>(f: T -> Bytes, ts: seq<T>)
    requires forall i :: 0 <= i < |ts| ==> |f(ts[i])| % 8 == 0
    ensures |Join(f, ts)| % 8 == 0
  {
    if ts != [] {
      var init, last := ts[..|ts| - 1], f(ts[|ts| - 1]);
      JoinIsAligned(f, init);
      assert |Join(f, ts)| == |Join(f, init)| + |last|;
    }
  }

  lemma EncodeIsAligned(ts: seq<Bytes>)
    ensures |Encode(ts)| % 8 == 0
  {
    forall i | 0 <= i < |ts| ensures |Str(ts[i])| % 8 == 0 { StrLength(ts[i]); }
    JoinIsAligned(Str, ts);
  }

  lemma {:induction false} DecodeEncode(ts: seq<Bytes>)
    requires Writable(ts)
    ensures Decode(Encode(ts)) == Some(ts)
  {
    if ts != [] {
      assert ts == [ts[0]] + ts[1..];
      EncodeConcat([ts[0]], ts[1..]);
      EncodeOne(ts[0]);
      StrLength(ts[0]);
      TakeStr(ts[0], Encode(ts[1..]));
      DecodeEncode(ts[1..]);
    }
  }

  // ---- trees come back ----

  lemma ParseRegular(executable: bool, contents: Bytes, tail: seq<Bytes>)
    ensures ParseNode(Tokens(Regular(executable, contents)) + tail) == Some((Regular(executable, contents), tail))
  {
    var ts := Tokens(Regular(executable, contents)) + tail;
    if executable {
      assert ts == ["type", "regular", "executable", "", "contents", contents] + tail;
      assert ts[6..] == tail;
    } else {
      assert ts == ["type", "regular", "contents", contents] + tail;
      assert ts[4..] == tail;
    }
  }

  lemma ParseSymlink(target: Bytes, tail: seq<Bytes>)
    ensures ParseNode(Tokens(Symlink(target)) + tail) == Some((Symlink(target), tail))
  {
    var ts := Tokens(Symlink(target)) + tail;
    assert ts == ["type", "symlink", "target", target] + tail;
    assert ts[4..] == tail;
  }

  lemma ParseDirectory(entries: seq<Entry>, body: seq<Bytes>, tail: seq<Bytes>)
    requires ParseEntries(body) == Some((entries, tail))
    ensures ParseNode(["type", "directory"] + body) == Some((Directory(entries), tail))
  {
    var ts := ["type", "directory"] + body;
    assert ts[0] == "type" && ts[1] == "directory" && ts[2..] == body;
  }

  lemma {:induction false} ParseTokens(n: Node, tail: seq<Bytes>)
    requires tail == [] || tail[0] != "entry"
    ensures ParseNode(Tokens(n) + tail) == Some((n, tail))
    decreases n, 0
  {
    hide ParseNode, ParseEntries, Tokens, EntriesTokens;
    match n
    case Regular(executable, contents) => ParseRegular(executable, contents, tail);
    case Symlink(target) => ParseSymlink(target, tail);
    case Directory(entries) =>
      ParseEntriesTokens(entries, tail);
      ParseDirectory(entries, EntriesTokens(entries) + tail, tail);
      DirectoryThen(entries, tail);
  }

  lemma DirectoryThen(entries: seq<Entry>, tail: seq<Bytes>)
    ensures Tokens(Directory(entries)) + tail == ["type", "directory"] + (EntriesTokens(entries) + tail)
  {
    hide EntriesTokens;
  }

  lemma {:induction false} ParseEntriesTokens(entries: seq<Entry>, tail: seq<Bytes>)
    requires tail == [] || tail[0] != "entry"
    ensures ParseEntries(EntriesTokens(entries) + tail) == Some((entries, tail))
    decreases entries, 1
  {
    if entries == [] {
      assert EntriesTokens(entries) + tail == tail;
    } else {
      var e, rest := entries[0], entries[1..];
      var more := EntriesTokens(rest) + tail;
      ParseTokens(e.node, [")", ")"] + more);
      ParseEntriesTokens(rest, tail);
      EntryThenMore(e, more, rest, tail);
      Regroup(EntryHead(e.name), Tokens(e.node), [")", ")"], EntriesTokens(rest), tail);
      assert entries == [e] + rest;
    }
  }

  lemma Regroup<T>(a: seq<T>, b: seq<T>, c: seq<T>, d: seq<T>, e: seq<T>)
    ensures a + b + c + d + e == a + (b + (c + (d + e)))
  {
  }

  lemma EntryThenMore(e: Entry, more: seq<Bytes>, rest: seq<Entry>, tail: seq<Bytes>)
    requires ParseNode(Tokens(e.node) + ([")", ")"] + more)) == Some((e.node, [")", ")"] + more))
    requires ParseEntries(more) == Some((rest, tail))
    ensures ParseEntries(EntryHead(e.name) + (Tokens(e.node) + ([")", ")"] + more))) == Some(([e] + rest, tail))
  {
    var inner := Tokens(e.node) + ([")", ")"] + more);
    var ts := EntryHead(e.name) + inner;
    assert ts[6..] == inner;
    assert ([")", ")"] + more)[2..] == more;
    assert ts[0] == "entry" && ts[1] == "(" && ts[2] == "name" && ts[3] == e.name && ts[4] == "node" && ts[5] == "(";
  }

  /** Reading an archive gives back the tree that was dumped. */
  lemma ParseDump(n: Node)
    requires Writable(ArchiveTokens(n))
    ensures ParseArchive(Dump(n)) == Some(n)
  {
    hide Encode, Decode, Tokens, ParseNode;
    var ts := ArchiveTokens(n);
    DecodeEncode(ts);
    assert ts == ["nix-archive-1", "("] + (Tokens(n) + [")"]);
    assert ts[2..] == Tokens(n) + [")"];
    ParseTokens(n, [")"]);
  }

  /** No two trees have the same archive. */
  lemma DumpIsInjective(a: Node, b: Node)
    requires Writable(ArchiveTokens(a)) && Writable(ArchiveTokens(b))
    requires Dump(a) == Dump(b)
    ensures a == b
  {
    ParseDump(a);
    ParseDump(b);
  }
}
