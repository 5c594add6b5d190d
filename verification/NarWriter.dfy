/** The serializer as it runs: a writer with a running offset, and the queue of small
    files that were read ahead for it. */
module NarWriter {
  import opened Wrappers
  import opened Arithmetic
  import opened NarFormat
  import opened NarListing
  import opened NarWalk
  import opened Order

  const PrefetchMaxFileSize: nat := 256 * 1024
  const CopyBufferSize: nat := 128 * 1024

  /** A prefetchedFile whose read is done: the contents, or None for an error. */
  datatype Prefetched = Prefetched(path: Bytes, size: nat, data: Option<Bytes>)

  predicate ShouldPrefetch(n: Walked) {
    n.WFile? && n.size <= PrefetchMaxFileSize
  }

  /** readFile: exactly `size` bytes, or an error. */
  function ReadFile(path: Bytes, size: nat, data: Option<Bytes>): Prefetched {
    Prefetched(path, size, if data.Some? && |data.value| >= size then Some(data.value[..size]) else None)
  }

  /** The small files of a tree, in the order of the archive. */
  function SmallFiles(n: Walked): seq<Prefetched>
    decreases n, 0
  {
    match n
    case WFile(path, size, _, data) => if size <= PrefetchMaxFileSize then [ReadFile(path, size, data)] else []
    case WDir(children) => AllSmallFiles(children)
    case WLink(_) => []
  }

  /** Files of up to 256 KiB are read ahead, once each, and larger ones are not. */
  lemma ReadAheadIff(path: Bytes, size: nat, executable: bool, data: Option<Bytes>)
    ensures var n := WFile(path, size, executable, data);
      SmallFiles(n) == if size <= 262_144 then [ReadFile(path, size, data)] else []
  {
  }

  function AllSmallFiles(children: seq<Child>): seq<Prefetched>
    decreases children, 1
  {
    if children == [] then [] else SmallFiles(children[0].node) + AllSmallFiles(children[1..])
  }

  class Prefetcher {
    var queue: seq<Prefetched>

    constructor ()
      ensures queue == []
    {
      queue := [];
    }

    method Enqueue(path: Bytes, size: nat, data: Option<Bytes>)
      modifies this
      ensures queue == old(queue) + [ReadFile(path, size, data)]
    {
      queue := queue + [ReadFile(path, size, data)];
    }

    method Receive() returns (pf: Prefetched)
      requires queue != []
      modifies this
      ensures old(queue) == [pf] + queue
    {
      pf := queue[0];
      queue := queue[1..];
    }

    method EnqueuePrefetch(n: Walked)
      modifies this
      ensures queue == old(queue) + SmallFiles(n)
      decreases n
    {
      if ShouldPrefetch(n) {
        Enqueue(n.path, n.size, n.data);
        return;
      }
      if n.WDir? {
        ghost var goal := old(queue) + SmallFiles(n);
        for i := 0 to |n.children|
          invariant queue + AllSmallFiles(n.children[i..]) == goal
        {
          ghost var before := queue;
          EnqueuePrefetch(n.children[i].node);
          assert n.children[i..][1..] == n.children[i + 1..];
          assert before + (SmallFiles(n.children[i].node) + AllSmallFiles(n.children[i + 1..]))
              == (before + SmallFiles(n.children[i].node)) + AllSmallFiles(n.children[i + 1..]);
        }
      }
    }
  }

  lemma WrapAdd(a: nat, b: nat)
    ensures Wrap(Wrap(a) + b) == Wrap(a + b)
  {
  }

  lemma FileString(start: Bytes, contents: Bytes)
    ensures start + LittleEndian(|contents|, 8) + contents + Zeros(PadLength(|contents|)) == start + Str(contents)
  {
    hide LittleEndian, Zeros, PadLength;
    Associate(start, LittleEndian(|contents|, 8), contents, Zeros(PadLength(|contents|)));
  }

  lemma TwoMore<T>(s: seq<T>, a: T, b: T)
    ensures s + [a] + [b] == s + [a, b]
  {
  }

  lemma Associate<T>(a: seq<T>, b: seq<T>, c: seq<T>, d: seq<T>)
    ensures a + b + c + d == a + (b + c + d)
  {
  }

  lemma HeadOffset(before: seq<Bytes>, executable: bool)
    ensures |Encode(before + RegularHead(executable))| == |Encode(before)| + RegularHeadSpan(executable)
  {
    RegularHeadHasSpan(executable);
    EncodeConcat(before, RegularHead(executable));
  }

  lemma SmallFilesOfFile(n: Walked)
    requires n.WFile?
    ensures SmallFiles(n) == if ShouldPrefetch(n) then [ReadFile(n.path, n.size, n.data)] else []
    ensures Contents(n).Some? <==> ReadFile(n.path, n.size, n.data).data.Some?
  {
  }

  lemma RegularWritten(n: Walked, before: seq<Bytes>, after: seq<Bytes>)
    requires n.WFile? && Contents(n).Some?
    requires after == before + RegularHead(n.executable) + [n.data.value[..n.size]]
    ensures after == before + Tokens(Contents(n).value)
    ensures ListingOf(Contents(n).value, |Encode(before)|)
         == LRegular(n.size, n.executable, Some(Wrap(|Encode(before)| + RegularHeadSpan(n.executable) + 8)))
  {
    hide Join, Encode, RegularHead;
    Associate(before, RegularHead(n.executable), [n.data.value[..n.size]], []);
    assert RegularHead(n.executable) + [n.data.value[..n.size]] + [] == Tokens(Contents(n).value);
  }

  // ---- what has been written of a directory ----

  /** The node's strings have been appended, its small files taken from the queue,
      and the listing is the node's own. */
  ghost predicate Wrote(n: Walked, before: seq<Bytes>, after: seq<Bytes>,
                        queueBefore: seq<Prefetched>, queueAfter: seq<Prefetched>, l: Listing) {
    && Contents(n).Some?
    && after == before + Tokens(Contents(n).value)
    && queueBefore == SmallFiles(n) + queueAfter
    && l == ListingOf(Contents(n).value, |Encode(before)|)
  }

  /** The files of the first i children have been taken; those of the rest come next. */
  ghost predicate QueueSide(start: seq<Prefetched>, taken: seq<Prefetched>, queue: seq<Prefetched>,
                            children: seq<Child>, i: nat)
    requires i <= |children|
  {
    start == taken + queue && AllSmallFiles(children) == taken + AllSmallFiles(children[i..])
      && AllSmallFiles(children[i..]) <= queue
  }

  /** The first i children could be read. */
  ghost predicate ContentsSide(children: seq<Child>, i: nat)
    requires i <= |children|
  {
    && (ChildContents(children).Some? <==> ChildContents(children[i..]).Some?)
    && (ChildContents(children).Some? ==> ChildContents(children[i..]).value == ChildContents(children).value[i..])
  }

  ghost predicate TokenSide(start: seq<Bytes>, tokens: seq<Bytes>, children: seq<Child>, i: nat)
    requires i <= |children|
  {
    ChildContents(children).Some? ==>
      var entries := ChildContents(children).value;
      start + EntriesTokens(entries) == tokens + EntriesTokens(entries[i..])
  }

  ghost predicate ListSide(start: seq<Bytes>, tokens: seq<Bytes>, children: seq<Child>, i: nat, listed: map<Bytes,
                           Listing>)
    requires i <= |children|
  {
    ChildContents(children).Some? ==>
      var entries := ChildContents(children).value;
      ListEntries(entries, |Encode(start)|) == listed + ListEntries(entries[i..], |Encode(tokens)|)
  }

  lemma NothingWritten(start: seq<Bytes>, children: seq<Child>)
    ensures children[0..] == children
    ensures ContentsSide(children, 0) && TokenSide(start, start, children, 0)
      && ListSide(start, start, children, 0, map[])
  {
    hide Join, Encode, EntriesTokens, ListEntries;
    if ChildContents(children).Some? {
      var entries := ChildContents(children).value;
      assert entries[0..] == entries;
      assert map[] + ListEntries(entries, |Encode(start)|) == ListEntries(entries, |Encode(start)|);
    }
  }

  lemma ChildIsNext(queue: seq<Prefetched>, children: seq<Child>, i: nat)
    requires i < |children| && AllSmallFiles(children[i..]) <= queue
    ensures SmallFiles(children[i].node) <= queue
  {
    hide SmallFiles;
    var files, rest := SmallFiles(children[i].node), AllSmallFiles(children[i..][1..]);
    assert AllSmallFiles(children[i..]) == files + rest;
    assert files == (files + rest)[..|files|];
  }

  lemma ContentsStep(children: seq<Child>, i: nat)
    requires i < |children| && ContentsSide(children, i)
    ensures Contents(children[i].node).None? ==> ChildContents(children).None?
    ensures Contents(children[i].node).Some? ==> ContentsSide(children, i + 1)
  {
    hide Contents;
    assert children[i..][0] == children[i] && children[i..][1..] == children[i + 1..];
    if ChildContents(children).Some? {
      var entries := ChildContents(children).value;
      assert entries[i..][1..] == entries[i + 1..];
      var more := ChildContents(children[i + 1..]).value;
      assert entries[i..] == [entries[i..][0]] + more;
    }
  }

  lemma QueueStep(start: seq<Prefetched>, taken: seq<Prefetched>, before: seq<Prefetched>, after: seq<Prefetched>,
                  children: seq<Child>, i: nat)
    requires i < |children| && QueueSide(start, taken, before, children, i)
    requires before == SmallFiles(children[i].node) + after
    ensures QueueSide(start, taken + SmallFiles(children[i].node), after, children, i + 1)
  {
    hide SmallFiles;
    var files, rest := SmallFiles(children[i].node), AllSmallFiles(children[i + 1..]);
    assert children[i..][1..] == children[i + 1..];
    assert AllSmallFiles(children[i..]) == files + rest;
    assert taken + (files + rest) == (taken + files) + rest;
    assert taken + (files + after) == (taken + files) + after;
    assert rest == (files + rest)[|files|..] && after == before[|files|..];
  }

  lemma TokenStep(start: seq<Bytes>, before: seq<Bytes>, after: seq<Bytes>, children: seq<Child>, i: nat)
    requires i < |children| && TokenSide(start, before, children, i) && Contents(children[i].node).Some?
    requires after == before + EntryHead(children[i].name) + Tokens(Contents(children[i].node).value) + [")", ")"]
    ensures TokenSide(start, after, children, i + 1)
  {
    if ChildContents(children).Some? {
      var entries := ChildContents(children).value;
      TokensMove(before, entries, i);
    }
  }

  lemma TokensMove(before: seq<Bytes>, entries: seq<Entry>, i: nat)
    requires i < |entries|
    ensures before + EntriesTokens(entries[i..])
         == before + EntryHead(entries[i].name) + Tokens(entries[i].node) + [")", ")"] + EntriesTokens(entries[i + 1..])
  {
    hide Tokens, EntryHead;
    assert entries[i..][1..] == entries[i + 1..];
    Regroup(before, EntryHead(entries[i].name), Tokens(entries[i].node), [")", ")"], EntriesTokens(entries[i + 1..]));
    Regroup([], EntryHead(entries[i].name), Tokens(entries[i].node), [")", ")"], EntriesTokens(entries[i + 1..]));
  }

  lemma EntryLengths(before: seq<Bytes>, e: Entry)
    ensures |Encode(before + EntryHead(e.name))| == |Encode(before)| + EntryHeadSpan(e.name)
    ensures |Encode(before + EntryHead(e.name) + Tokens(e.node) + [")", ")"])|
         == |Encode(before)| + EntryHeadSpan(e.name) + |Encode(Tokens(e.node))| + EntryCloseSpan
  {
    hide Join, Encode, Tokens, EntryHead;
    EntryHeadHasSpan(e.name);
    PairSpan(")", ")");
    EncodeConcat(before, EntryHead(e.name));
    EncodeConcat(before + EntryHead(e.name), Tokens(e.node));
    EncodeConcat(before + EntryHead(e.name) + Tokens(e.node), [")", ")"]);
  }

  lemma ListStep(start: seq<Bytes>, before: seq<Bytes>, after: seq<Bytes>, children: seq<Child>, i: nat,
                 listed: map<Bytes, Listing>, l: Listing)
    requires i < |children| && ListSide(start, before, children, i, listed) && Contents(children[i].node).Some?
    requires after == before + EntryHead(children[i].name) + Tokens(Contents(children[i].node).value) + [")", ")"]
    requires l == ListingOf(Contents(children[i].node).value, |Encode(before + EntryHead(children[i].name))|)
    ensures ListSide(start, after, children, i + 1, listed[children[i].name := l])
  {
    hide Join, Encode, Tokens, EntryHead, ListEntries, ListingOf;
    if ChildContents(children).Some? {
      var entries := ChildContents(children).value;
      EntryLengths(before, entries[i]);
      ListCons(entries[i..], |Encode(before)|);
      assert entries[i..][1..] == entries[i + 1..];
      MapMove(listed, children[i].name, l, ListEntries(entries[i + 1..], |Encode(after)|));
    }
  }

  lemma MapMove<K, V>(m: map<K, V>, k: K, v: V, rest: map<K, V>)
    ensures m + (map[k := v] + rest) == m[k := v] + rest
  {
  }

  lemma NothingTaken(queue: seq<Prefetched>, n: Walked)
    requires n.WDir? && SmallFiles(n) <= queue
    ensures QueueSide(queue, [], queue, n.children, 0)
  {
    assert n.children[0..] == n.children;
    assert [] + queue == queue && [] + AllSmallFiles(n.children) == AllSmallFiles(n.children);
  }

  lemma AllTaken(start: seq<Prefetched>, taken: seq<Prefetched>, queue: seq<Prefetched>, n: Walked)
    requires n.WDir? && QueueSide(start, taken, queue, n.children, |n.children|)
    ensures start == SmallFiles(n) + queue
  {
    assert n.children[|n.children|..] == [];
    assert taken + [] == taken;
  }

  lemma AllTokens(n: Walked, before: seq<Bytes>, start: seq<Bytes>, after: seq<Bytes>)
    requires n.WDir? && start == before + ["type", "directory"]
    requires ContentsSide(n.children, |n.children|) && TokenSide(start, after, n.children, |n.children|)
    ensures Contents(n).Some? && after == before + Tokens(Contents(n).value)
  {
    assert n.children[|n.children|..] == [];
    var entries := ChildContents(n.children).value;
    assert entries[|n.children|..] == [];
    assert start + EntriesTokens(entries) == before + (["type", "directory"] + EntriesTokens(entries));
  }

  lemma AllWritten(n: Walked, before: seq<Bytes>, start: seq<Bytes>, after: seq<Bytes>, listed: map<Bytes, Listing>)
    requires n.WDir? && start == before + ["type", "directory"]
    requires ContentsSide(n.children, |n.children|) && TokenSide(start, after, n.children, |n.children|)
    requires var k := |n.children|; ListSide(start, after, n.children, k, listed)
    ensures Contents(n).Some? && after == before + Tokens(Contents(n).value)
    ensures LDirectory(listed) == ListingOf(Contents(n).value, |Encode(before)|)
  {
    hide Join, Encode, TokenSide, Tokens, EntriesTokens;
    AllTokens(n, before, start, after);
    assert n.children[|n.children|..] == [];
    var entries := ChildContents(n.children).value;
    assert entries[|n.children|..] == [];
    PairSpan("type", "directory");
    EncodeConcat(before, ["type", "directory"]);
    assert listed + map[] == listed;
  }

  lemma WrapIsAligned(n: nat)
    requires n % 8 == 0
    ensures Wrap(n) % 8 == 0
  {
    var q, rest := n / TwoTo64, n % TwoTo64;
    assert n == q * TwoTo64 + rest;
    assert rest == 8 * (n / 8 - q * (TwoTo64 / 8));
  }

  class Writer {
    var out: Bytes
    var offset: nat
    ghost var tokens: seq<Bytes>

    constructor ()
      ensures Valid() && tokens == []
    {
      out, offset, tokens := "", 0, [];
    }

    /** The offset is the number of bytes written. */
    ghost predicate Counted()
      reads this
    {
      offset == Wrap(|out|)
    }

    /** At a string boundary. */
    ghost predicate Valid()
      reads this
    {
      Counted() && out == Encode(tokens)
    }

    /** Every string starts at a multiple of 8. */
    lemma AlignedOffset()
      requires Valid()
      ensures offset % 8 == 0
    {
      EncodeIsAligned(tokens);
      hide Encode;
      WrapIsAligned(|out|);
    }

    method Write(data: Bytes)
      modifies this`out
      ensures out == old(out) + data
    {
      out := out + data;
    }

    method WriteUint64(v: nat)
      requires Counted()
      modifies this`out, this`offset
      ensures Counted() && out == old(out) + LittleEndian(v, 8)
    {
      LittleEndianLength(v, 8);
      WrapAdd(|out|, 8);
      Write(LittleEndian(v, 8));
      offset := Wrap(offset + 8);
    }

    /** A string whose encoding was made beforehand. */
    method WriteStatic(s: Bytes)
      requires Valid()
      modifies this
      ensures Valid() && tokens == old(tokens) + [s]
    {
      EncodeAppend(tokens, s);
      var data := Str(s);
      WrapAdd(|out|, |data|);
      Write(data);
      offset := Wrap(offset + |data|);
      tokens := tokens + [s];
    }

    method WriteString(s: Bytes)
      requires Valid()
      modifies this
      ensures Valid() && tokens == old(tokens) + [s]
    {
      EncodeAppend(tokens, s);
      ghost var start := out;
      WriteUint64(|s|);
      Write(s);
      WrapAdd(|start + LittleEndian(|s|, 8)|, |s|);
      offset := Wrap(offset + |s|);
      WritePadding(|s|);
      assert out == start + (LittleEndian(|s|, 8) + s + Zeros(PadLength(|s|)));
      tokens := tokens + [s];
    }

    method WritePadding(size: nat)
      requires Counted()
      modifies this`out, this`offset
      ensures Counted() && out == old(out) + Zeros(PadLength(size))
    {
      var padding := PadLength(size);
      if padding > 0 {
        WrapAdd(|out|, padding);
        Write(Zeros(padding));
        offset := Wrap(offset + padding);
      }
    }

    method WriteContentsHeader(size: nat) returns (at: nat)
      requires Counted()
      modifies this`out, this`offset
      ensures Counted() && out == old(out) + LittleEndian(size, 8) && at == Wrap(|old(out)| + 8)
    {
      LittleEndianLength(size, 8);
      WriteUint64(size);
      at := offset;
    }

    /** The contents have been written, but not counted. */
    method WriteContentsFooter(size: nat)
      requires size <= |out| && offset == Wrap(|out| - size)
      modifies this`out, this`offset
      ensures Counted() && out == old(out) + Zeros(PadLength(size))
    {
      WrapAdd(|out| - size, size);
      offset := Wrap(offset + size);
      WritePadding(size);
    }

    /** A file too big to be read ahead: copied chunk by chunk. */
    method WriteFileContentsStreaming(size: nat, data: Option<Bytes>) returns (at: Option<nat>)
      requires Counted()
      modifies this`out, this`offset
      ensures at.Some? <==> data.Some? && |data.value| >= size
      ensures at.Some? ==> Counted() && out == old(out) + Str(data.value[..size]) && at.value == Wrap(|old(out)| + 8)
    {
      hide LittleEndian, Str, Zeros, PadLength;
      var contentOffset := WriteContentsHeader(size);
      if data.None? {
        return None;
      }
      ghost var start := out;
      var position, remaining := 0, size;
      while remaining > 0
        invariant 0 <= remaining && position + remaining == size && 0 <= position <= |data.value|
        invariant out == start + data.value[..position] && offset == Wrap(|start|)
      {
        var chunk := if CopyBufferSize > remaining then remaining else CopyBufferSize;
        if |data.value| - position < chunk {
          return None;
        }
        Write(data.value[position..position + chunk]);
        assert data.value[..position] + data.value[position..position + chunk] == data.value[..position + chunk];
        position, remaining := position + chunk, remaining - chunk;
      }
      assert out == start + data.value[..size] && |data.value[..size]| == size;
      WriteContentsFooter(size);
      FileString(old(out), data.value[..size]);
      at := Some(contentOffset);
    }

    method WriteFileContentsPrefetched(pf: Prefetched) returns (at: Option<nat>)
      requires Counted()
      requires pf.data.Some? ==> |pf.data.value| == pf.size
      modifies this`out, this`offset
      ensures at.Some? <==> pf.data.Some?
      ensures at.Some? ==> Counted() && out == old(out) + Str(pf.data.value) && at.value == Wrap(|old(out)| + 8)
    {
      if pf.data.None? {
        return None;
      }
      var contentOffset := WriteContentsHeader(pf.size);
      Write(pf.data.value);
      WriteContentsFooter(pf.size);
      FileString(old(out), pf.data.value);
      at := Some(contentOffset);
    }

    method WriteNode(p: Prefetcher, n: Walked) returns (r: Option<Listing>)
      requires Valid() && SmallFiles(n) <= p.queue
      modifies this, p
      ensures r.Some? <==> Contents(n).Some?
      ensures r.Some? ==> Valid() && Wrote(n, old(tokens), tokens, old(p.queue), p.queue, r.value)
      decreases n, 1
    {
      match n
      case WFile(_, _, _, _) => r := WriteRegularFile(p, n);
      case WDir(_) => r := WriteDirectory(p, n);
      case WLink(_) => r := WriteSymlink(p, n);
    }

    method WriteSymlink(p: Prefetcher, n: Walked) returns (r: Option<Listing>)
      requires Valid() && n.WLink?
      modifies this
      ensures r.Some? && Valid() && Wrote(n, old(tokens), tokens, p.queue, p.queue, r.value)
    {
      WriteStatic("type");
      WriteStatic("symlink");
      WriteStatic("target");
      WriteString(n.target);
      r := Some(LSymlink(n.target));
    }

    method WriteRegularFile(p: Prefetcher, n: Walked) returns (r: Option<Listing>)
      requires Valid() && n.WFile? && SmallFiles(n) <= p.queue
      modifies this, p
      ensures r.Some? <==> Contents(n).Some?
      ensures r.Some? ==> Valid() && Wrote(n, old(tokens), tokens, old(p.queue), p.queue, r.value)
    {
      hide Contents, SmallFiles, ListingOf, Tokens, Join, Encode, Str;
      WriteRegularHead(n.executable);
      HeadOffset(old(tokens), n.executable);
      var at: Option<nat>;
      if ShouldPrefetch(n) {
        SmallFilesOfFile(n);
        var prefetched := p.Receive();
        assert prefetched == old(p.queue)[0] == SmallFiles(n)[0];
        at := WriteFileContentsPrefetched(prefetched);
      } else {
        SmallFilesOfFile(n);
        at := WriteFileContentsStreaming(n.size, n.data);
      }
      if at.None? {
        return None;
      }
      ghost var contents := n.data.value[..n.size];
      EncodeAppend(tokens, contents);
      tokens := tokens + [contents];
      RegularWritten(n, old(tokens), tokens);
      r := Some(LRegular(n.size, n.executable, at));
    }

    method WriteRegularHead(executable: bool)
      requires Valid()
      modifies this
      ensures Valid() && tokens == old(tokens) + RegularHead(executable)
    {
      WriteStatic("type");
      WriteStatic("regular");
      ghost var start := tokens;
      TwoMore(old(tokens), "type", "regular");
      if executable {
        WriteStatic("executable");
        WriteStatic("");
        TwoMore(start, "executable", "");
      }
      WriteStatic("contents");
      Associate(old(tokens), ["type", "regular"], if executable then ["executable", ""] else [], ["contents"]);
    }

    method WriteDirectory(p: Prefetcher, n: Walked) returns (r: Option<Listing>)
      requires Valid() && n.WDir? && SmallFiles(n) <= p.queue
      modifies this, p
      ensures r.Some? <==> Contents(n).Some?
      ensures r.Some? ==> Valid() && Wrote(n, old(tokens), tokens, old(p.queue), p.queue, r.value)
      decreases n, 0
    {
      hide SmallFiles, AllSmallFiles, Tokens, EntriesTokens, ListEntries, ListingOf, ContentsSide, TokenSide,
           ListSide, Join, Encode, EntryHead, ChildContents;
      WriteStatic("type");
      WriteStatic("directory");
      var listed := map[];
      var children := n.children;
      ghost var start := tokens;
      ghost var taken: seq<Prefetched> := [];
      NothingWritten(start, children);
      NothingTaken(p.queue, n);
      for i := 0 to |children|
        invariant Valid()
        invariant QueueSide(old(p.queue), taken, p.queue, children, i)
        invariant ContentsSide(children, i)
        invariant TokenSide(start, tokens, children, i)
        invariant ListSide(start, tokens, children, i, listed)
      {
        ghost var before, queueBefore, listedBefore := tokens, p.queue, listed;
        OpenEntry(children[i].name);
        ChildIsNext(p.queue, children, i);
        ContentsStep(children, i);
        var child := WriteNode(p, children[i].node);
        if child.None? {
          return None;
        }
        listed := listed[children[i].name := child.value];
        WriteStatic(")");
        WriteStatic(")");
        assert tokens == before + EntryHead(children[i].name) + Tokens(Contents(children[i].node).value) + [")", ")"];
        QueueStep(old(p.queue), taken, queueBefore, p.queue, children, i);
        taken := taken + SmallFiles(children[i].node);
        TokenStep(start, before, tokens, children, i);
        ListStep(start, before, tokens, children, i, listedBefore, child.value);
      }
      AllTaken(old(p.queue), taken, p.queue, n);
      AllWritten(n, old(tokens), start, tokens, listed);
      r := Some(LDirectory(listed));
    }

    method OpenEntry(name: Bytes)
      requires Valid()
      modifies this
      ensures Valid() && tokens == old(tokens) + EntryHead(name)
    {
      WriteStatic("entry");
      WriteStatic("(");
      WriteStatic("name");
      WriteString(name);
      WriteStatic("node");
      WriteStatic("(");
    }
  }

  // ---- the whole dump ----

  /** The archive and its listing. The queue here is unbounded and filled beforehand;
      module NarPrefetch runs the enqueuer, the workers and the writer side by side. */
  method DumpPathWithListing(fs: Fs, path: Bytes, hack: bool) returns (listing: Option<Listing>, out: Bytes)
    ensures listing.Some? <==> Walk(fs, path, hack).Some? && Contents(Walk(fs, path, hack).value).Some?
    ensures listing.Some? ==>
      var node := Contents(Walk(fs, path, hack).value).value;
      out == Dump(node) && listing.value == ListingOf(node, ArchiveHeadSpan)
  {
    hide Join, Encode, Tokens, ListingOf, Contents, Walk, Str;
    var root := WalkNode(fs, path, hack);
    if root.None? {
      return None, "";
    }
    var p := new Prefetcher();
    p.EnqueuePrefetch(root.value);
    var nw := new Writer();
    nw.WriteStatic("nix-archive-1");
    nw.WriteStatic("(");
    TwoMore([], "nix-archive-1", "(");
    assert nw.tokens == ["nix-archive-1", "("];
    PairSpan("nix-archive-1", "(");
    listing := nw.WriteNode(p, root.value);
    if listing.Some? {
      nw.WriteStatic(")");
    }
    out := nw.out;
  }

  /** Entries strictly ascending by name in every directory. */
  ghost predicate CanonicalNode(n: Node) {
    n.Directory? ==>
      && (forall i, j :: 0 <= i < j < |n.entries| ==> Before(n.entries[i].name, n.entries[j].name))
      && (forall i :: 0 <= i < |n.entries| ==> CanonicalNode(n.entries[i].node))
  }

  lemma {:induction false} ContentsAreCanonical(w: Walked)
    requires Canonical(w) && Contents(w).Some?
    ensures CanonicalNode(Contents(w).value) && DistinctNames(Contents(w).value)
    decreases w
  {
    if w.WDir? {
      var entries := ChildContents(w.children).value;
      forall i, j | 0 <= i < j < |entries|
        ensures Before(entries[i].name, entries[j].name) && entries[i].name != entries[j].name {
        assert Before(NameOf(w.children[i]), NameOf(w.children[j]));
        BeforeIsTotal(entries[i].name, entries[j].name);
      }
      forall i | 0 <= i < |entries| ensures CanonicalNode(entries[i].node) && DistinctNames(entries[i].node) {
        ContentsAreCanonical(w.children[i].node);
      }
    }
  }

  lemma {:induction false} TokensFit(ts: seq<Bytes>, t: Bytes)
    requires t in ts
    ensures |t| <= |Encode(ts)|
  {
    var init, last := ts[..|ts| - 1], ts[|ts| - 1];
    assert ts == init + [last];
    StrLength(last);
    if t != last { TokensFit(init, t); }
  }

  /** What a dump of a file system is worth: the archive is read back as the tree that was
      walked, in canonical order; the listing locates every file in it; and without its
      offsets it is the listing GenerateListingOnly makes. */
  lemma DumpIsFaithful(fs: Fs, path: Bytes, hack: bool, node: Node)
    requires Walk(fs, path, hack).Some? && Contents(Walk(fs, path, hack).value) == Some(node)
    requires |Dump(node)| < TwoTo64
    ensures ParseArchive(Dump(node)) == Some(node) && CanonicalNode(node)
    ensures |Dump(node)| % 8 == 0
    ensures Locates(ListingOf(node, ArchiveHeadSpan), node, Dump(node))
    ensures ListOnly(fs, hack) == Some(Erase(ListingOf(node, ArchiveHeadSpan)))
  {
    hide Join, Encode, Tokens, ListingOf, Contents, Walk, Str, Locates, ListOnly, Erase, ParseArchive, ArchiveTokens;
    WalkIsCanonical(fs, path, hack);
    ContentsAreCanonical(Walk(fs, path, hack).value);
    forall t | t in ArchiveTokens(node) ensures |t| < TwoTo64 { TokensFit(ArchiveTokens(node), t); }
    ParseDump(node);
    EncodeIsAligned(ArchiveTokens(node));
    ArchiveIsLocated(node);
    ListingsAgree(fs, path, hack, ArchiveHeadSpan);
  }

  /** File systems with the same archive hold the same tree and get the same plain listing. */
  lemma SameArchiveSameTree(a: Fs, b: Fs, path: Bytes, hack: bool, m: Node, n: Node)
    requires Walk(a, path, hack).Some? && Contents(Walk(a, path, hack).value) == Some(m)
    requires Walk(b, path, hack).Some? && Contents(Walk(b, path, hack).value) == Some(n)
    requires Dump(m) == Dump(n) && |Dump(m)| < TwoTo64
    ensures m == n && ListOnly(a, hack) == ListOnly(b, hack)
  {
    DumpIsFaithful(a, path, hack, m);
    DumpIsFaithful(b, path, hack, n);
  }
}
