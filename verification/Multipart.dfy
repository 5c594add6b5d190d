/** Uploading a compressed NAR of unknown length in parts: the client chooses the part size
    and asks for more part URLs as it goes; the server hands them out up to S3's limit. */
module Multipart {
  import opened Results
  import opened Arithmetic

  type Bytes = string

  const MiB: nat := 1024 * 1024
  const GiB: nat := 1024 * MiB

  const MultipartPartSize: nat := 10 * MiB
  const MaxPartSize: nat := 5 * GiB
  const TargetMaxParts: nat := 9000
  const Step: nat := 16 * MiB
  const AdditionalParts: nat := 100
  const PartsInFlight: nat := 4
  const S3MaxParts: nat := 10000

  // ---- sizes ----

  /** partSizeForNAR; the addition is uint64. */
  function PartSizeForNAR(narSize: nat): nat {
    var size := (narSize + (TargetMaxParts - 1)) % TwoTo64 / TargetMaxParts;
    if size <= MultipartPartSize then MultipartPartSize
    else
      var rounded := (size + Step - 1) / Step * Step;
      if rounded > MaxPartSize then MaxPartSize else rounded
  }

  /** The sizes a part may have: 10 MiB, or steps of 16 MiB up to 5 GiB. */
  predicate IsPartSize(size: nat) {
    size == 10_485_760 || (0 < size <= 5_368_709_120 && size % 16_777_216 == 0)
  }

  /** With 9000 parts of this size the NAR is covered. */
  predicate Covers(narSize: nat, size: nat) {
    narSize <= 9000 * size
  }

  lemma StepIsLeast(size: nat)
    requires size > 0
    ensures var rounded := (size + Step - 1) / Step * Step;
      rounded % 16_777_216 == 0 && size <= rounded
      && forall other: nat :: size <= other && other % 16_777_216 == 0 ==> rounded <= other
  {
    var steps := (size + Step - 1) / Step;
    forall other: nat | size <= other && other % 16_777_216 == 0 ensures steps * Step <= other {
      assert other == other / 16_777_216 * 16_777_216;
      assert steps * Step <= size + Step - 1;
    }
  }

  lemma PartsCover(narSize: nat, size: nat)
    ensures Covers(narSize, size) <==> (narSize + 8999) / 9000 <= size
  {
  }

  /** The least allowed size with which 9000 parts cover the NAR, or the greatest there is. The
      sum wraps for the last 8999 sizes a uint64 can have; they get the least of all. */
  lemma PartSizeIsLeast(narSize: nat)
    requires narSize < 0x1_0000_0000_0000_0000
    ensures var size := PartSizeForNAR(narSize);
      && IsPartSize(size)
      && (narSize < 0xFFFF_FFFF_FFFF_DCD9 ==>
            && (Covers(narSize, size) || size == 5_368_709_120)
            && forall other: nat :: IsPartSize(other) && Covers(narSize, other) ==> size <= other)
      && (narSize >= 0xFFFF_FFFF_FFFF_DCD9 ==> size == 10_485_760)
  {
    var size := (narSize + (TargetMaxParts - 1)) % TwoTo64 / TargetMaxParts;
    if narSize < 0xFFFF_FFFF_FFFF_DCD9 {
      assert size == (narSize + 8999) / 9000;
      PartsCover(narSize, PartSizeForNAR(narSize));
      forall other: nat | IsPartSize(other) && Covers(narSize, other) ensures PartSizeForNAR(narSize) <= other {
        PartsCover(narSize, other);
        if size > MultipartPartSize { StepIsLeast(size); }
      }
      if size > MultipartPartSize { StepIsLeast(size); }
    }
  }

  /** estimatePartsNeeded: the part URLs handed out at the start. */
  function EstimatePartsNeeded(narSize: nat): nat {
    if narSize == 0 then 10
    else
      var parts := (narSize + (MultipartPartSize - 1)) % TwoTo64 / MultipartPartSize;
      var buffered := parts + parts / 5;
      if buffered > 100 then 100 else if buffered < 2 then 2 else buffered
  }

  /** A fifth more than the parts of 10 MiB, rounded down, but at least 2 and at most 100; and 10
      if the size is not known. */
  lemma EstimateIs(narSize: nat, parts: nat)
    requires narSize + 10_485_759 < 0x1_0000_0000_0000_0000
    requires parts * 10_485_760 < narSize + 10_485_760 && narSize <= parts * 10_485_760
    ensures narSize == 0 ==> EstimatePartsNeeded(narSize) == 10
    ensures var estimate := EstimatePartsNeeded(narSize);
      narSize > 0 ==>
        && 2 <= estimate <= 100 && (5 * estimate <= 6 * parts || estimate == 2)
        && (6 * parts < 5 * estimate + 5 || estimate == 100)
  {
    if narSize > 0 { assert (narSize + (MultipartPartSize - 1)) / MultipartPartSize == parts; }
  }

  // ---- the server's answer ----

  /** A part URL is for one part number. */
  method GeneratePartURLs(start: nat, num: nat) returns (urls: seq<nat>)
    ensures urls == PartURLs(start, num)
  {
    var a := new nat[num];
    for i := 0 to num
      invariant forall j :: 0 <= j < i ==> a[j] == start + j
    {
      a[i] := start + i;
    }
    urls := a[..];
  }

  function PartURLs(start: nat, num: nat): (urls: seq<nat>)
    ensures |urls| == num
  {
    seq(num, i requires 0 <= i < num => start + i)
  }

  method RequestMoreParts(start: int, num: int) returns (r: Result<seq<nat>>)
    ensures r.Ok? <==> 0 < start && 0 < num <= 1000 && start + num - 1 <= S3MaxParts
    ensures r.Ok? ==> r.value == PartURLs(start, num)
  {
    if start <= 0 {
      return Err;
    }
    if num <= 0 || num > 1000 {
      return Err;
    }
    var endPart := start + num - 1;
    if endPart > S3MaxParts {
      return Err;
    }
    var urls := GeneratePartURLs(start, num);
    r := Ok(urls);
  }

  // ---- parts ----

  datatype Part = Part(number: nat, data: Bytes)

  function Length(stream: Bytes, partSize: nat): nat {
    if |stream| < partSize then |stream| else partSize
  }

  /** The parts of a stream, numbered from `first`. */
  function Chunks(stream: Bytes, partSize: nat, first: nat): seq<Part>
    requires partSize > 0
    decreases |stream|
  {
    if stream == "" then []
    else
      var n := Length(stream, partSize);
      [Part(first, stream[..n])] + Chunks(stream[n..], partSize, first + 1)
  }

  /** Parts begun, the last of them perhaps only to find the end. */
  function Tries(length: nat, partSize: nat): nat
    requires partSize > 0
  {
    if length < partSize then 1 else 1 + Tries(length - partSize, partSize)
  }

  function Assembled(parts: seq<Part>): Bytes {
    if parts == [] then "" else parts[0].data + Assembled(parts[1..])
  }

  lemma {:induction false} ChunksAssemble(stream: Bytes, partSize: nat, first: nat)
    requires partSize > 0
    ensures Assembled(Chunks(stream, partSize, first)) == stream
    decreases |stream|
  {
    if stream != "" {
      var n := Length(stream, partSize);
      ChunksAssemble(stream[n..], partSize, first + 1);
      var cs := Chunks(stream, partSize, first);
      assert cs[1..] == Chunks(stream[n..], partSize, first + 1);
      assert stream == stream[..n] + stream[n..];
    }
  }

  /** Numbered in order, every part but the last full. */
  lemma {:induction false} ChunksAreFull(stream: Bytes, partSize: nat, first: nat)
    requires partSize > 0
    ensures var cs := Chunks(stream, partSize, first);
      && (forall i :: 0 <= i < |cs| ==> cs[i].number == first + i && 0 < |cs[i].data| <= partSize)
      && (forall i :: 0 <= i < |cs| - 1 ==> |cs[i].data| == partSize)
      && |cs| <= Tries(|stream|, partSize)
    decreases |stream|
  {
    if stream != "" {
      var n := Length(stream, partSize);
      ChunksAreFull(stream[n..], partSize, first + 1);
    }
  }

  lemma OneLess(a: nat, b: nat)
    requires 0 < b <= a
    ensures a / b == (a - b) / b + 1
  {
    var q, r := (a - b) / b, (a - b) % b;
    assert a - b == q * b + r;
    assert (q + 1) * b == q * b + b;
    QuotientIs(a, b, q + 1, r);
  }

  lemma QuotientBelow(a: nat, b: nat)
    requires a < b
    ensures a / b == 0
  {
    QuotientIs(a, b, 0, a);
  }

  lemma {:induction false} TriesAre(length: nat, partSize: nat)
    requires partSize > 0
    ensures Tries(length, partSize) == length / partSize + 1
  {
    if length >= partSize {
      TriesAre(length - partSize, partSize);
      OneLess(length, partSize);
    } else {
      QuotientBelow(length, partSize);
    }
  }

  // ---- sorting by part number ----

  ghost predicate InOrder(parts: seq<Part>) {
    forall i, j :: 0 <= i < j < |parts| ==> parts[i].number <= parts[j].number
  }

  function Insert(p: Part, s: seq<Part>): seq<Part> {
    if s == [] || p.number <= s[0].number then [p] + s else [s[0]] + Insert(p, s[1..])
  }

  ghost predicate NoneBelow(n: nat, s: seq<Part>) {
    forall j :: 0 <= j < |s| ==> n <= s[j].number
  }

  lemma ConsNoneBelow(n: nat, p: Part, s: seq<Part>)
    ensures NoneBelow(n, [p] + s) <==> n <= p.number && NoneBelow(n, s)
  {
    var t := [p] + s;
    if NoneBelow(n, t) {
      assert n <= t[0].number;
      forall j | 0 <= j < |s| ensures n <= s[j].number { assert n <= t[j + 1].number; }
    }
  }

  lemma ConsInOrder(p: Part, s: seq<Part>)
    ensures InOrder([p] + s) <==> NoneBelow(p.number, s) && InOrder(s)
    ensures forall n: nat :: NoneBelow(n, [p] + s) <==> n <= p.number && NoneBelow(n, s)
  {
    var t := [p] + s;
    forall n: nat ensures NoneBelow(n, t) <==> n <= p.number && NoneBelow(n, s) { ConsNoneBelow(n, p, s); }
    if InOrder(t) {
      forall j | 0 <= j < |s| ensures p.number <= s[j].number { assert t[0].number <= t[j + 1].number; }
      forall i, j | 0 <= i < j < |s| ensures s[i].number <= s[j].number { assert t[i + 1].number <= t[j + 1].number; }
    }
  }

  lemma HeadIsLeast(p: Part, s: seq<Part>)
    requires s != [] && InOrder(s) && p.number <= s[0].number
    ensures NoneBelow(p.number, s)
  {
  }

  lemma {:induction false} InsertKeeps(p: Part, s: seq<Part>)
    requires InOrder(s)
    ensures InOrder(Insert(p, s)) && multiset(Insert(p, s)) == multiset{p} + multiset(s)
    ensures forall n: nat :: NoneBelow(n, s) && n <= p.number ==> NoneBelow(n, Insert(p, s))
  {
    hide InOrder, NoneBelow;
    ConsInOrder(p, s);
    if s == [] {
      EmptyInOrder(p.number);
    } else if p.number <= s[0].number {
      HeadIsLeast(p, s);
    } else {
      assert s == [s[0]] + s[1..];
      ConsInOrder(s[0], s[1..]);
      InsertKeeps(p, s[1..]);
      ConsInOrder(s[0], Insert(p, s[1..]));
    }
  }

  lemma EmptyInOrder(n: nat)
    ensures InOrder([]) && NoneBelow(n, [])
  {
  }

  method SortParts(parts: seq<Part>) returns (sorted: seq<Part>)
    ensures InOrder(sorted) && multiset(sorted) == multiset(parts)
  {
    hide Insert, NoneBelow;
    sorted := [];
    for i := 0 to |parts|
      invariant InOrder(sorted) && multiset(sorted) == multiset(parts[..i])
    {
      InsertKeeps(parts[i], sorted);
      sorted := Insert(parts[i], sorted);
      assert parts[..i + 1] == parts[..i] + [parts[i]];
    }
    assert parts[..|parts|] == parts;
  }

  ghost predicate Ascending(parts: seq<Part>) {
    forall i, j :: 0 <= i < j < |parts| ==> parts[i].number < parts[j].number
  }

  lemma HeadsAgree(a: seq<Part>, b: seq<Part>)
    requires InOrder(a) && Ascending(b) && multiset(a) == multiset(b) && a != [] && b != []
    ensures a[0] == b[0]
  {
    assert a[0] in multiset(b) && b[0] in multiset(a);
    var i :| 0 <= i < |b| && b[i] == a[0];
    var j :| 0 <= j < |a| && a[j] == b[0];
    assert j > 0 ==> a[0].number <= a[j].number;
    assert i > 0 ==> b[0].number < b[i].number;
  }

  lemma TailOf(s: seq<Part>)
    requires s != []
    ensures s == [s[0]] + s[1..] && multiset(s[1..]) == multiset(s) - multiset{s[0]}
    ensures (InOrder(s) ==> InOrder(s[1..])) && (Ascending(s) ==> Ascending(s[1..]))
  {
    assert s == [s[0]] + s[1..];
  }

  /** Parts with different numbers have one order. */
  lemma {:induction false} OrderIsUnique(a: seq<Part>, b: seq<Part>)
    requires InOrder(a) && multiset(a) == multiset(b) && Ascending(b)
    ensures a == b
  {
    hide InOrder, Ascending;
    assert |a| == |multiset(a)| == |multiset(b)| == |b|;
    if a != [] {
      HeadsAgree(a, b);
      TailOf(a);
      TailOf(b);
      OrderIsUnique(a[1..], b[1..]);
    }
  }

  // ---- the upload ----

  /** What the outside decides: which PUT in flight is done next, whether more are done
      before the next part is read, whether the PUT of a part succeeds, whether a request
      for the URLs from a part on is answered, and whether S3 completes the upload. */
  datatype World = World(
    which: nat -> nat, moreDone: nat -> bool, put: Part -> bool, answers: nat -> bool, completes: seq<Part> -> bool)

  /** u part URLs at the start are enough to begin t parts, getting 100 at a time. */
  predicate FitsBudget(u: nat, t: nat) {
    t <= u || u + (t - u + AdditionalParts - 1) / AdditionalParts * AdditionalParts <= S3MaxParts
  }

  /** Every request for more URLs among the first t parts is answered. */
  ghost predicate AllAnswered(w: World, u: nat, t: nat) {
    forall p :: u < p <= t && (p - u - 1) % AdditionalParts == 0 ==> w.answers(p)
  }

  ghost predicate AllPut(w: World, parts: seq<Part>) {
    forall i :: 0 <= i < |parts| ==> w.put(parts[i])
  }

  class Uploader {
    const world: World
    var clock: nat
    var inFlight: seq<Part>
    var completed: seq<Part>
    var failed: bool
    ghost var handed: seq<Part>       // parts given to a PUT, in order

    constructor (world: World)
      ensures this.world == world && Valid() && handed == [] && !failed
    {
      this.world := world;
      clock, inFlight, completed, failed, handed := 0, [], [], false, [];
    }

    /** At most four PUTs in flight; no part is lost, and a part that is missing has failed. */
    ghost predicate Valid()
      reads this
    {
      && |inFlight| <= 4
      && (!failed ==> multiset(inFlight) + multiset(completed) == multiset(handed))
      && (!failed ==> forall p :: p in completed ==> world.put(p))
      && (failed ==> exists p :: p in handed && !world.put(p))
      && (forall p :: p in inFlight ==> p in handed)
    }

    method FinishOne()
      requires Valid() && inFlight != []
      modifies this`clock, this`inFlight, this`completed, this`failed
      ensures Valid() && |inFlight| == |old(inFlight)| - 1
    {
      var k := world.which(clock) % |inFlight|;
      clock := clock + 1;
      var p := inFlight[k];
      assert inFlight == inFlight[..k] + [p] + inFlight[k + 1..];
      inFlight := inFlight[..k] + inFlight[k + 1..];
      if world.put(p) {
        completed := completed + [p];
      } else {
        failed := true;
      }
    }

    method TakeSlot()
      requires Valid()
      modifies this`clock, this`inFlight, this`completed, this`failed
      ensures Valid() && |inFlight| < PartsInFlight
    {
      while |inFlight| == PartsInFlight || (inFlight != [] && world.moreDone(clock))
        invariant Valid()
        decreases |inFlight|
      {
        FinishOne();
      }
    }

    method Go(p: Part)
      requires Valid() && |inFlight| < PartsInFlight
      modifies this`inFlight, this`handed
      ensures Valid() && handed == old(handed) + [p]
    {
      inFlight, handed := inFlight + [p], handed + [p];
    }

    method Wait()
      requires Valid()
      modifies this`clock, this`inFlight, this`completed, this`failed
      ensures Valid() && inFlight == []
    {
      while inFlight != []
        invariant Valid()
        decreases |inFlight|
      {
        FinishOne();
      }
    }

    /** Reads the stream part by part, putting each at the URL of its number. */
    method SendParts(stream: Bytes, urls: seq<nat>, partSize: nat) returns (ok: bool)
      requires Valid() && handed == [] && partSize > 0 && urls == PartURLs(1, |urls|)
      modifies this
      ensures Valid()
      ensures ok
        <==> FitsBudget(|urls|, Tries(|stream|, partSize)) && AllAnswered(world, |urls|, Tries(|stream|, partSize))
      ensures ok ==> handed == Chunks(stream, partSize, 1)
    {
      hide Chunks, Tries, FitsBudget, Extended, PartURLs, Length, AllAnswered;
      var partURLs, rest, partNumber := urls, stream, 1;
      ghost var tries := Tries(|stream|, partSize);
      StartsExtended(world, |urls|);
      while true
        invariant Valid() && 1 <= partNumber <= |partURLs| + 1
        invariant handed + Chunks(rest, partSize, partNumber) == Chunks(stream, partSize, 1)
        invariant partNumber - 1 + Tries(|rest|, partSize) == tries
        invariant partURLs == PartURLs(1, |partURLs|) && Extended(|urls|, |partURLs|, partNumber)
        invariant AllAnswered(world, |urls|, |partURLs|)
        decreases |rest|
      {
        TriesAtLeastOne(|rest|, partSize);
        if partNumber > |partURLs| {
          var more := RequestMoreParts(partNumber, AdditionalParts);
          if more.Err? {
            OverBudget(|urls|, |partURLs|, partNumber, tries);
            return false;
          }
          if !world.answers(partNumber) {
            Unanswered(world, |urls|, |partURLs|, tries);
            return false;
          }
          MoreAnswered(world, |urls|, |partURLs|);
          MoreURLs(|urls|, partURLs, partNumber);
          partURLs := partURLs + more.value;
        }
        TakeSlot();
        ReadStep(rest, partSize, partNumber);
        var n := Length(rest, partSize);
        if n == 0 {
          WithinBudget(world, |urls|, |partURLs|, partNumber);
          assert handed + [] == handed;
          return true;
        }
        var part := Part(partNumber, rest[..n]);
        URLOf(partURLs, partNumber);
        ghost var before := handed;
        Go(part);
        Regroup(before, part, Chunks(rest[n..], partSize, partNumber + 1));
        rest := rest[n..];
        if n < partSize {
          WithinBudget(world, |urls|, |partURLs|, partNumber);
          assert handed + [] == handed;
          return true;
        }
        partNumber := partNumber + 1;
        StillExtended(|urls|, |partURLs|, partNumber);
      }
    }
  }

  lemma Regroup(handed: seq<Part>, part: Part, rest: seq<Part>)
    ensures handed + ([part] + rest) == (handed + [part]) + rest
  {
  }

  lemma TriesAtLeastOne(length: nat, partSize: nat)
    requires partSize > 0
    ensures Tries(length, partSize) >= 1
  {
  }

  /** One read: the end, a last short part, or a full one. */
  lemma ReadStep(rest: Bytes, partSize: nat, p: nat)
    requires partSize > 0
    ensures var n := Length(rest, partSize);
      && n <= |rest| && n <= partSize
      && (n == 0 ==> Chunks(rest, partSize, p) == [] && Tries(|rest|, partSize) == 1)
      && (n > 0 ==> Chunks(rest, partSize, p) == [Part(p, rest[..n])] + Chunks(rest[n..], partSize, p + 1))
      && (0 < n < partSize ==> Tries(|rest|, partSize) == 1 && Chunks(rest[n..], partSize, p + 1) == [])
      && (n == partSize ==> Tries(|rest|, partSize) == 1 + Tries(|rest[n..]|, partSize))
  {
  }

  /** The URL a part is sent to is the one for its number. */
  lemma URLOf(urls: seq<nat>, p: nat)
    requires urls == PartURLs(1, |urls|) && 1 <= p <= |urls|
    ensures urls[p - 1] == p
  {
  }

  lemma StartsExtended(w: World, u: nat)
    ensures Extended(u, u, 1) && AllAnswered(w, u, u)
  {
  }

  lemma StillExtended(u: nat, n: nat, p: nat)
    requires p > 0 && Extended(u, n, p - 1)
    ensures Extended(u, n, p)
  {
  }

  /** n URLs after starting with u and asking for 100 more only when part p or one before it
      needed them. */
  ghost predicate Extended(u: nat, n: nat, p: nat) {
    n == u || (u < n <= S3MaxParts && (n - u) % AdditionalParts == 0 && n - AdditionalParts < p)
  }

  lemma OverBudget(u: nat, n: nat, p: nat, tries: nat)
    requires Extended(u, n, p) && p == n + 1 <= tries && p + AdditionalParts - 1 > S3MaxParts
    ensures !FitsBudget(u, tries)
  {
  }

  lemma WithinBudget(w: World, u: nat, n: nat, p: nat)
    requires Extended(u, n, p) && p <= n && AllAnswered(w, u, n)
    ensures FitsBudget(u, p) && AllAnswered(w, u, p)
  {
  }

  lemma Unanswered(w: World, u: nat, n: nat, tries: nat)
    requires Extended(u, n, n + 1) && n < tries && !w.answers(n + 1)
    ensures !AllAnswered(w, u, tries)
  {
    assert (n + 1 - u - 1) % AdditionalParts == 0;
  }

  lemma MoreAnswered(w: World, u: nat, n: nat)
    requires Extended(u, n, n + 1) && AllAnswered(w, u, n) && w.answers(n + 1)
    ensures AllAnswered(w, u, n + AdditionalParts)
  {
    forall p | u < p <= n + AdditionalParts && (p - u - 1) % AdditionalParts == 0 ensures w.answers(p) {
      if p > n { assert p == n + 1; }
    }
  }

  lemma MoreURLs(u: nat, urls: seq<nat>, p: nat)
    requires urls == PartURLs(1, |urls|) && p == |urls| + 1 && Extended(u, |urls|, p)
      && p + AdditionalParts - 1 <= S3MaxParts
    ensures urls + PartURLs(p, AdditionalParts) == PartURLs(1, |urls| + AdditionalParts)
    ensures Extended(u, |urls| + AdditionalParts, p)
  {
  }

  lemma PutsDecide(w: World, handed: seq<Part>, completed: seq<Part>, failed: bool)
    requires failed ==> exists p :: p in handed && !w.put(p)
    requires !failed ==> multiset(completed) == multiset(handed) && forall p :: p in completed ==> w.put(p)
    ensures !failed <==> AllPut(w, handed)
  {
    if !failed {
      forall i | 0 <= i < |handed| ensures w.put(handed[i]) {
        assert handed[i] in multiset(handed);
        assert handed[i] in multiset(completed);
      }
    }
  }

  lemma ChunksAscend(stream: Bytes, partSize: nat)
    requires partSize > 0
    ensures Ascending(Chunks(stream, partSize, 1)) && (Chunks(stream, partSize, 1) == [] <==> stream == "")
  {
    ChunksAreFull(stream, partSize, 1);
  }

  /** The object in the bucket, if the upload succeeds: exactly if the stream is not empty,
      the URLs suffice and are handed out, every part could be put, in whatever order the
      PUTs end, and S3 completes the upload from the parts in order. */
  method UploadMultipart(world: World, stream: Bytes, urls: seq<nat>, partSize: nat) returns (r: Result<Bytes>)
    requires partSize > 0 && urls == PartURLs(1, |urls|)
    ensures r.Ok? <==>
      && stream != "" && FitsBudget(|urls|, Tries(|stream|, partSize))
        && AllAnswered(world, |urls|, Tries(|stream|, partSize))
      && AllPut(world, Chunks(stream, partSize, 1)) && world.completes(Chunks(stream, partSize, 1))
    ensures r.Ok? ==> r.value == stream
  {
    hide InOrder, Ascending, FitsBudget, Chunks, Tries, Assembled, AllPut, AllAnswered, PartURLs;
    var u := new Uploader(world);
    var ok := u.SendParts(stream, urls, partSize);
    u.Wait();
    assert u.inFlight == [] && multiset(u.inFlight) + multiset(u.completed) == multiset(u.completed);
    PutsDecide(world, u.handed, u.completed, u.failed);
    if !ok || u.failed {
      return Err;
    }
    var parts := SortParts(u.completed);
    ChunksAscend(stream, partSize);
    OrderIsUnique(parts, Chunks(stream, partSize, 1));
    ChunksAssemble(stream, partSize, 1);
    if |parts| == 0 || !world.completes(parts) {
      return Err;
    }
    r := Ok(Assembled(parts));
  }

  // ---- the budget ----

  lemma FitsIff(u: nat, t: nat)
    requires u <= S3MaxParts
    ensures FitsBudget(u, t) <==> t <= u + (S3MaxParts - u) / AdditionalParts * AdditionalParts
  {
  }

  /** What the part size is chosen for: 9000 parts cover the NAR, and no part is over S3's
      maximum. */
  lemma PartSizeCovers(narSize: nat)
    requires narSize <= TargetMaxParts * MaxPartSize
    ensures narSize <= TargetMaxParts * PartSizeForNAR(narSize)
    ensures MultipartPartSize <= PartSizeForNAR(narSize) <= MaxPartSize
  {
    assert narSize + TargetMaxParts < TwoTo64;
  }

  /** Every NAR up to 9000 parts of 5 GiB, compressed to at most a tenth more than its size,
      is uploaded in at most 9900 parts, and no request for URLs exceeds the server's limit. */
  lemma BudgetSuffices(narSize: nat, length: nat)
    requires 0 < narSize <= TargetMaxParts * MaxPartSize && length <= narSize + narSize / 10
    ensures var partSize := PartSizeForNAR(narSize);
      partSize > 0 && length / partSize <= 9900 && FitsBudget(EstimatePartsNeeded(narSize), Tries(length, partSize))
  {
    PartSizeCovers(narSize);
    var partSize := PartSizeForNAR(narSize);
    assert 10 * length <= 11 * narSize <= 99000 * partSize;
    QuotientAtMost(length, partSize, 9900);
    TriesAre(length, partSize);
    FitsIff(EstimatePartsNeeded(narSize), Tries(length, partSize));
  }

  lemma QuotientAtMost(a: nat, b: nat, n: nat)
    requires b > 0 && a <= n * b
    ensures a / b <= n
  {
    assert a == (a / b) * b + a % b;
    if a / b > n { Gap(a / b, n, b); }
  }

  /** The budget leaves nothing over: the largest such upload asks for URLs up to 10000, and
      one part more would be refused. */
  lemma BudgetIsTight()
    ensures var narSize := TargetMaxParts * MaxPartSize;
      && PartSizeForNAR(narSize) == MaxPartSize && EstimatePartsNeeded(narSize) == 100
      && Tries(narSize + narSize / 10, MaxPartSize) == 9901
      && Extended(100, S3MaxParts, 9901) && !Extended(100, S3MaxParts, 9900)
      && FitsBudget(100, 10000) && !FitsBudget(100, 10001)
  {
    TriesAre(TargetMaxParts * MaxPartSize + TargetMaxParts * MaxPartSize / 10, MaxPartSize);
  }
}
