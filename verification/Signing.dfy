/** Fingerprints and signatures of narinfos. */
module Signing {
  import opened Results
  import opened Wrappers
  import opened Order
  import opened Text
  import opened Narinfo
  import NixBase32

  const NarHashLength: nat := 59

  function Fingerprint(nar: NarInfo): Result<string> {
    if !HasPrefix(nar.storePath, "/nix/store") || !HasPrefix(nar.narHash, "sha256:") || |nar.narHash| != NarHashLength
       || !AllInStore(nar.references)
    then Err
    else Ok("1;" + nar.storePath + ";" + nar.narHash + ";" + Decimal(nar.narSize) + ";"
      + Join(SortBy(Self, nar.references), ","))
  }

  predicate AllInStore(refs: seq<string>) {
    forall i :: 0 <= i < |refs| ==> HasPrefix(refs[i], "/nix/store")
  }

  /** The four checks. */
  ghost predicate IsSignable(nar: NarInfo) {
    && HasPrefix(nar.storePath, "/nix/store") && HasPrefix(nar.narHash, "sha256:") && |nar.narHash| == 59
    && forall ref :: ref in nar.references ==> HasPrefix(ref, "/nix/store")
  }

  method GenerateFingerprint(nar: NarInfo) returns (r: Result<string>)
    ensures r == Fingerprint(nar)
    ensures r.Ok? <==> IsSignable(nar)
  {
    hide HasPrefix, SortBy, Join, Decimal;
    if !HasPrefix(nar.storePath, "/nix/store") || !HasPrefix(nar.narHash, "sha256:") || |nar.narHash| != NarHashLength {
      return Err;
    }
    for i := 0 to |nar.references|
      invariant forall j :: 0 <= j < i ==> HasPrefix(nar.references[j], "/nix/store")
    {
      if !HasPrefix(nar.references[i], "/nix/store") {
        return Err;
      }
    }
    var sortedRefs := SortBy(Self, nar.references);
    var builder := "1;" + nar.storePath + ";" + nar.narHash + ";" + Decimal(nar.narSize) + ";";
    ghost var head := builder;
    NothingJoined(head, sortedRefs);
    for i := 0 to |sortedRefs|
      invariant builder == head + Join(sortedRefs[..i], ",")
    {
      JoinSnoc(sortedRefs, i, ",");
      if i > 0 {
        builder := builder + ",";
      }
      builder := builder + sortedRefs[i];
    }
    assert sortedRefs[..|sortedRefs|] == sortedRefs;
    r := Ok(builder);
  }

  lemma NothingJoined(head: string, refs: seq<string>)
    ensures head + Join(refs[..0], ",") == head
  {
  }

  lemma {:induction false} JoinSnoc(ss: seq<string>, i: nat, sep: string)
    requires i < |ss|
    ensures Join(ss[..i + 1], sep) == Join(ss[..i], sep) + (if i > 0 then sep else "") + ss[i]
  {
    if i == 0 {
      assert ss[..1] == [ss[0]] && ss[..0] == [];
    } else {
      var rest := ss[1..];
      assert ss[..i + 1][1..] == rest[..i] && ss[..i][1..] == rest[..i - 1];
      JoinSnoc(rest, i - 1, sep);
    }
  }

  // ---- VerifyNarinfo ----

  /** A named key. `check` stands for base64 decoding and ed25519.Verify: given the
      fingerprint and the encoded signature. */
  datatype PublicKey = PublicKey(name: string, check: (string, string) -> bool)

  predicate Signs(key: PublicKey, fingerprint: string, sig: string) {
    match Cut(sig, ":")
    case None => false
    case Some((name, encoded)) => name == key.name && key.check(fingerprint, encoded)
  }

  predicate VerifyNarinfo(key: PublicKey, nar: NarInfo, sigs: seq<string>) {
    Fingerprint(nar).Ok? && exists i :: 0 <= i < |sigs| && Signs(key, Fingerprint(nar).value, sigs[i])
  }

  /** Verified is what carries, under the key's own name, a signature the key accepts for the
      fingerprint. */
  lemma VerifiesIff(key: PublicKey, nar: NarInfo, sigs: seq<string>)
    requires ':' !in key.name
    ensures VerifyNarinfo(key, nar, sigs)
      <==> && IsSignable(nar)
           && exists encoded :: key.name + ":" + encoded in sigs && key.check(Fingerprint(nar).value, encoded)
  {
    hide Cut, SortBy, Join, Decimal;
    if VerifyNarinfo(key, nar, sigs) {
      var i :| 0 <= i < |sigs| && Signs(key, Fingerprint(nar).value, sigs[i]);
      CutGivesParts(sigs[i], ":");
      var encoded := Cut(sigs[i], ":").value.1;
      assert key.name + ":" + encoded in sigs;
    }
    if && IsSignable(nar)
       && exists encoded :: key.name + ":" + encoded in sigs && key.check(Fingerprint(nar).value, encoded) {
      var encoded :| key.name + ":" + encoded in sigs && key.check(Fingerprint(nar).value, encoded);
      var i :| 0 <= i < |sigs| && sigs[i] == key.name + ":" + encoded;
      CutAtFirst(key.name, ":", encoded);
      assert Signs(key, Fingerprint(nar).value, sigs[i]);
    }
  }

  // ---- signatures survive printing and parsing ----

  /** The order of the references does not matter to a signature. */
  lemma SortedFingerprint(nar: NarInfo)
    ensures Fingerprint(SortedNar(nar)) == Fingerprint(nar)
  {
    hide HasPrefix;
    var refs, sorted := nar.references, SortBy(Self, nar.references);
    SortBySorts(Self, refs);
    SortBySorts(Self, sorted);
    SortedIsUnique(SortBy(Self, sorted), sorted);
    if AllInStore(refs) { AllInStorePermutes(refs, sorted); }
    if AllInStore(sorted) { AllInStorePermutes(sorted, refs); }
  }

  lemma AllInStorePermutes(a: seq<string>, b: seq<string>)
    requires multiset(a) == multiset(b) && AllInStore(a)
    ensures AllInStore(b)
  {
    forall i | 0 <= i < |b| ensures HasPrefix(b[i], "/nix/store") {
      assert b[i] in multiset(b);
      var j := ElementAt(a, b[i]);
    }
  }

  lemma VerifyPermutes(key: PublicKey, nar: NarInfo, a: seq<string>, b: seq<string>)
    requires multiset(a) == multiset(b) && VerifyNarinfo(key, nar, a)
    ensures VerifyNarinfo(key, nar, b)
  {
    hide Signs, Fingerprint;
    var i :| 0 <= i < |a| && Signs(key, Fingerprint(nar).value, a[i]);
    assert a[i] in multiset(a);
    var j := ElementAt(b, a[i]);
    assert Signs(key, Fingerprint(nar).value, b[j]);
  }

  /** A client's narinfo, read back, has the fingerprint the server signed, and its
      signatures are good for exactly the keys they were good for. */
  lemma ClientSignatureSurvives(key: PublicKey, meta: Meta, sigs: seq<string>, info: Info)
    requires CleanMeta(meta) && AllOneLine(sigs) && Parse(Generate(meta, sigs)) == Ok(info)
    ensures Fingerprint(info.nar) == Fingerprint(meta.nar)
    ensures VerifyNarinfo(key, info.nar, info.sigs) <==> VerifyNarinfo(key, meta.nar, sigs)
  {
    hide Parse, Generate, Fingerprint, Signs, CleanMeta, SortBy, VerifyNarinfo;
    ParseGenerate(meta, sigs);
    SortedFingerprint(meta.nar);
    SortBySorts(Self, sigs);
    SameFingerprintVerifies(key, meta.nar, info.nar, sigs);
    if VerifyNarinfo(key, info.nar, info.sigs) {
      VerifyPermutes(key, info.nar, info.sigs, sigs);
    }
    if VerifyNarinfo(key, meta.nar, sigs) {
      VerifyPermutes(key, info.nar, sigs, info.sigs);
    }
  }

  lemma SameFingerprintVerifies(key: PublicKey, a: NarInfo, b: NarInfo, sigs: seq<string>)
    requires Fingerprint(a) == Fingerprint(b)
    ensures VerifyNarinfo(key, a, sigs) <==> VerifyNarinfo(key, b, sigs)
  {
  }

  /** A narinfo the server accepted from an upstream, printed again under its own key with
      more signatures, is still accepted by whoever trusted the upstream, and by whoever
      trusts one of the new signatures. */
  lemma FillKeepsSignatures(key: PublicKey, text: string, info: Info, narKey: string, more: seq<string>, served: Info)
    requires Parse(text) == Ok(info) && OneLine(narKey) && AllOneLine(more)
    requires Parse(Format(info.(narKey := narKey), info.sigs + more)) == Ok(served)
    ensures served.nar == info.nar && served.url == narKey && served.sigs == info.sigs + more
    ensures VerifyNarinfo(key, served.nar, served.sigs) <==>
      VerifyNarinfo(key, info.nar, info.sigs) || VerifyNarinfo(key, info.nar, more)
  {
    hide Parse, Format, Signs, Fingerprint, GoodNar;
    ParsedIsClean(text, info);
    var sigs := info.sigs + more;
    ReprintKeepsInfo(text, info, narKey, sigs);
    if VerifyNarinfo(key, info.nar, info.sigs) {
      var i :| 0 <= i < |info.sigs| && Signs(key, Fingerprint(info.nar).value, info.sigs[i]);
      assert sigs[i] == info.sigs[i];
    }
    if VerifyNarinfo(key, info.nar, more) {
      var i :| 0 <= i < |more| && Signs(key, Fingerprint(info.nar).value, more[i]);
      assert sigs[|info.sigs| + i] == more[i];
    }
  }

  // ---- what a fingerprint determines ----

  ghost predicate NoSeparator(ss: seq<string>, sep: string)
    requires |sep| == 1
  {
    forall i :: 0 <= i < |ss| ==> ss[i] != "" && sep[0] !in ss[i]
  }

  lemma CutOfJoin(ss: seq<string>, sep: string)
    requires |sep| == 1 && NoSeparator(ss, sep)
    ensures Cut(Join(ss, sep), sep) == if |ss| <= 1 then None else Some((ss[0], Join(ss[1..], sep)))
  {
    if |ss| == 0 {
      CutNone("", sep);
    } else if |ss| == 1 {
      CutNone(ss[0], sep);
    } else {
      CutAtFirst(ss[0], sep, Join(ss[1..], sep));
    }
  }

  lemma {:induction false} JoinIsInjective(a: seq<string>, b: seq<string>, sep: string)
    requires |sep| == 1 && NoSeparator(a, sep) && NoSeparator(b, sep) && Join(a, sep) == Join(b, sep)
    ensures a == b
  {
    CutOfJoin(a, sep);
    CutOfJoin(b, sep);
    if |a| > 1 {
      JoinIsInjective(a[1..], b[1..], sep);
      assert a == [a[0]] + a[1..] && b == [b[0]] + b[1..];
    }
  }

  ghost predicate Separable(nar: NarInfo) {
    ';' !in nar.storePath && forall i :: 0 <= i < |nar.references| ==> ',' !in nar.references[i]
  }

  lemma DecimalIsInjective(m: nat, n: nat)
    requires Decimal(m) == Decimal(n)
    ensures m == n
  {
    DecimalRoundTrip(m);
    DecimalRoundTrip(n);
  }

  /** With no ';' in the store path and no ',' in a reference, one signature covers one set
      of metadata: path, hash, size and references. */
  lemma FingerprintBinds(a: NarInfo, b: NarInfo)
    requires Separable(a) && Separable(b) && Fingerprint(a).Ok? && Fingerprint(a) == Fingerprint(b)
    ensures a.storePath == b.storePath && a.narHash == b.narHash && a.narSize == b.narSize
    ensures multiset(a.references) == multiset(b.references)
  {
    var x, y := Join(SortBy(Self, a.references), ","), Join(SortBy(Self, b.references), ",");
    HeadBinds(a, b, x, y);
    SortBySorts(Self, a.references);
    SortBySorts(Self, b.references);
    SortedIsSeparable(a);
    SortedIsSeparable(b);
    JoinIsInjective(SortBy(Self, a.references), SortBy(Self, b.references), ",");
  }

  lemma SortedIsSeparable(nar: NarInfo)
    requires Separable(nar) && AllInStore(nar.references)
    ensures NoSeparator(SortBy(Self, nar.references), ",")
  {
    var sorted := SortBy(Self, nar.references);
    forall i | 0 <= i < |sorted| ensures sorted[i] != "" && ',' !in sorted[i] {
      var j := SortedHolds(Self, nar.references, i);
      assert HasPrefix(nar.references[j], "/nix/store");
    }
  }

  function Head(nar: NarInfo, refs: string): string {
    "1;" + nar.storePath + ";" + nar.narHash + ";" + Decimal(nar.narSize) + ";" + refs
  }

  lemma HeadBinds(a: NarInfo, b: NarInfo, x: string, y: string)
    requires ';' !in a.storePath && ';' !in b.storePath && |a.narHash| == |b.narHash|
    requires Head(a, x) == Head(b, y)
    ensures a.storePath == b.storePath && a.narHash == b.narHash && a.narSize == b.narSize && x == y
  {
    PathThenRest(a, x);
    PathThenRest(b, y);
    HashThenRest(a, x);
    HashThenRest(b, y);
    DecimalRoundTrip(a.narSize);
    DecimalRoundTrip(b.narSize);
    CutAtFirst(Decimal(a.narSize), ";", x);
    CutAtFirst(Decimal(b.narSize), ";", y);
    DecimalIsInjective(a.narSize, b.narSize);
  }

  function AfterPath(nar: NarInfo, refs: string): string {
    nar.narHash + (";" + AfterHash(nar, refs))
  }

  function AfterHash(nar: NarInfo, refs: string): string {
    Decimal(nar.narSize) + ";" + refs
  }

  lemma PathThenRest(nar: NarInfo, refs: string)
    requires ';' !in nar.storePath
    ensures Cut(Head(nar, refs)[2..], ";") == Some((nar.storePath, AfterPath(nar, refs)))
  {
    assert Head(nar, refs)[2..] == nar.storePath + ";" + AfterPath(nar, refs);
    CutAtFirst(nar.storePath, ";", AfterPath(nar, refs));
  }

  lemma HashThenRest(nar: NarInfo, refs: string)
    ensures AfterPath(nar, refs)[..|nar.narHash|] == nar.narHash
    ensures AfterPath(nar, refs)[|nar.narHash| + 1..] == AfterHash(nar, refs)
  {
  }

  // ---- what can be read off a fingerprint ----

  /** strings.Split at one character. */
  function SplitAt(s: string, sep: string): seq<string>
    requires |sep| == 1
    decreases |s|
  {
    CutGivesParts(s, sep);
    match Cut(s, sep)
    case None => [s]
    case Some((before, after)) => [before] + SplitAt(after, sep)
  }

  lemma {:induction false} SplitOfJoin(ss: seq<string>, sep: string)
    requires |sep| == 1 && NoSeparator(ss, sep) && ss != []
    ensures SplitAt(Join(ss, sep), sep) == ss
  {
    CutOfJoin(ss, sep);
    if |ss| > 1 { SplitOfJoin(ss[1..], sep); }
  }

  /** Cut at semicolons, a fingerprint is a 1, the path, the hash, the size in decimal, and the
      references, which are in ascending order between commas. */
  ghost predicate Reads(fingerprint: string, nar: NarInfo) {
    exists a, b, c, refs ::
      && Cut(fingerprint, ";") == Some(("1", a)) && Cut(a, ";") == Some((nar.storePath, b))
      && Cut(b, ";") == Some((nar.narHash, c)) && Cut(c, ";") == Some((Decimal(nar.narSize), refs))
      && ListsRefs(refs, nar.references)
  }

  ghost predicate ListsRefs(list: string, refs: seq<string>) {
    if refs == [] then list == ""
    else multiset(SplitAt(list, ",")) == multiset(refs) && Sorted(Self, SplitAt(list, ","))
  }

  lemma RefsAreListed(nar: NarInfo)
    requires Separable(nar) && AllInStore(nar.references)
    ensures ListsRefs(Join(SortBy(Self, nar.references), ","), nar.references)
  {
    var sorted := SortBy(Self, nar.references);
    SortBySorts(Self, nar.references);
    if nar.references != [] {
      SortedIsSeparable(nar);
      SplitOfJoin(sorted, ",");
    }
  }

  lemma HeadReads(nar: NarInfo, refs: string)
    requires ';' !in nar.storePath && ';' !in nar.narHash
    ensures Cut(Head(nar, refs), ";") == Some(("1", nar.storePath + ";" + AfterPath(nar, refs)))
    ensures Cut(nar.storePath + ";" + AfterPath(nar, refs), ";") == Some((nar.storePath, AfterPath(nar, refs)))
    ensures Cut(AfterPath(nar, refs), ";") == Some((nar.narHash, AfterHash(nar, refs)))
    ensures Cut(AfterHash(nar, refs), ";") == Some((Decimal(nar.narSize), refs))
  {
    hide Cut, Decimal;
    CutAtFirst("1", ";", nar.storePath + ";" + AfterPath(nar, refs));
    assert Head(nar, refs) == "1" + ";" + (nar.storePath + ";" + AfterPath(nar, refs));
    CutAtFirst(nar.storePath, ";", AfterPath(nar, refs));
    CutAtFirst(nar.narHash, ";", AfterHash(nar, refs));
    assert AfterPath(nar, refs) == nar.narHash + ";" + AfterHash(nar, refs);
    DecimalRoundTrip(nar.narSize);
    CutAtFirst(Decimal(nar.narSize), ";", refs);
  }

  /** Everything that was signed can be read off the fingerprint. */
  lemma FingerprintReads(nar: NarInfo)
    requires Separable(nar) && ';' !in nar.narHash && Fingerprint(nar).Ok?
    ensures Reads(Fingerprint(nar).value, nar)
  {
    hide Cut, Decimal, Join, SortBy, ListsRefs;
    var refs := Join(SortBy(Self, nar.references), ",");
    assert Fingerprint(nar).value == Head(nar, refs);
    HeadReads(nar, refs);
    RefsAreListed(nar);
  }

  /** The NAR hash Nix writes: the digits of 32 bytes. */
  ghost predicate IsNixHash(narHash: string) {
    exists digest: seq<NixBase32.Byte> :: |digest| == 32 && narHash == "sha256:" + NixBase32.Encoded(digest)
  }

  /** A narinfo of Nix's store, with a hash as Nix writes it, has a fingerprint. */
  lemma NixInfoIsSigned(nar: NarInfo)
    requires IsNixHash(nar.narHash) && HasPrefix(nar.storePath, "/nix/store/")
    requires forall ref :: ref in nar.references ==> HasPrefix(ref, "/nix/store/")
    ensures Fingerprint(nar).Ok? && (Separable(nar) ==> Reads(Fingerprint(nar).value, nar))
  {
    hide SortBy, Join, Decimal, Cut, SplitAt, Reads;
    NixHashIs(nar.narHash);
    ShorterPrefix(nar.storePath);
    forall i | 0 <= i < |nar.references| ensures HasPrefix(nar.references[i], "/nix/store") {
      assert nar.references[i] in nar.references;
      ShorterPrefix(nar.references[i]);
    }
    if Separable(nar) { FingerprintReads(nar); }
  }

  lemma NixHashIs(narHash: string)
    requires IsNixHash(narHash)
    ensures HasPrefix(narHash, "sha256:") && |narHash| == 59 && ';' !in narHash
  {
    var digest: seq<NixBase32.Byte> :| |digest| == 32 && narHash == "sha256:" + NixBase32.Encoded(digest);
    NixBase32.EncodedValue(digest);
    NixBase32.EncodedDigits(digest);
    hide NixBase32.Encoded;
    assert narHash[..7] == "sha256:";
    DigitsAreSeparate(NixBase32.Encoded(digest));
  }

  lemma ShorterPrefix(s: string)
    requires HasPrefix(s, "/nix/store/")
    ensures HasPrefix(s, "/nix/store")
  {
    assert s[..10] == s[..11][..10] == "/nix/store";
  }

  lemma DigitsAreSeparate(digits: string)
    requires NixBase32.AreDigits(digits)
    ensures ';' !in "sha256:" + digits
  {
    assert ';' !in NixBase32.Alphabet;
  }
}
