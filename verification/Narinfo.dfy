/** The narinfo text: the client's printer, the server's parser and printer, and the
    fingerprint a signature covers. */
module Narinfo {
  import NixBase32
  import opened Results
  import opened Wrappers
  import opened Arithmetic
  import opened Order
  import opened Text

  const NixStoreDir: string := "/nix/store/"
  const DefaultCompression: string := "bzip2"

  /** The part a signature covers. */
  datatype NarInfo = NarInfo(storePath: string, narHash: string, narSize: nat, references: seq<string>)

  /** An upstreamNarinfo. */
  datatype Info = Info(nar: NarInfo, url: string, narKey: string, compression: string, deriver: string, ca: string,
                       sigs: seq<string>)

  /** A NarinfoMetadata: what the client prints. */
  datatype Meta = Meta(nar: NarInfo, url: string, compression: string, deriver: Option<string>, ca: Option<string>)

  // ---- fields ----

  datatype Key =
    | StorePath | URL | Compression | NarHash | NarSize | References | Deriver | CA | Sig
    | Other(name: string)

  function KeyOf(name: string): Key {
    if name == "StorePath" then StorePath
    else if name == "URL" then URL
    else if name == "Compression" then Compression
    else if name == "NarHash" then NarHash
    else if name == "NarSize" then NarSize
    else if name == "References" then References
    else if name == "Deriver" then Deriver
    else if name == "CA" then CA
    else if name == "Sig" then Sig
    else Other(name)
  }

  function NameOf(k: Key): string {
    match k
    case StorePath => "StorePath"
    case URL => "URL"
    case Compression => "Compression"
    case NarHash => "NarHash"
    case NarSize => "NarSize"
    case References => "References"
    case Deriver => "Deriver"
    case CA => "CA"
    case Sig => "Sig"
    case Other(name) => name
  }

  datatype Field = Field(key: Key, value: string)

  function Line(f: Field): string {
    NameOf(f.key) + ": " + f.value
  }

  function Lines(fs: seq<Field>): seq<string> {
    if fs == [] then [] else Lines(fs[..|fs| - 1]) + [Line(fs[|fs| - 1])]
  }

  /** The text of some fields. */
  function Print(fs: seq<Field>): string {
    Unlines(Lines(fs))
  }

  lemma PrintSnoc(fs: seq<Field>, f: Field)
    ensures Print(fs + [f]) == Print(fs) + Line(f) + "\n"
  {
    assert (fs + [f])[..|fs|] == fs;
    assert (Lines(fs) + [Line(f)])[..|Lines(fs)|] == Lines(fs);
  }

  // ---- parseNarinfo ----

  predicate IsStorePathBase(base: string) {
    && |base| >= 34 && base[32] == '-' && '/' !in base
    && forall i :: 0 <= i < 32 ==> base[i] in NixBase32.Alphabet
  }

  function AllBases(words: seq<string>): bool {
    forall i :: 0 <= i < |words| ==> IsStorePathBase(words[i])
  }

  function InStore(words: seq<string>): seq<string> {
    seq(|words|, i requires 0 <= i < |words| => NixStoreDir + words[i])
  }

  datatype Parsing = Parsing(info: Info, seen: set<Key>)

  const Nothing: Info := Info(NarInfo("", "", 0, []), "", "", "", "", "", [])

  function SetField(info: Info, f: Field): Result<Info> {
    match f.key
    case StorePath => Ok(info.(nar := info.nar.(storePath := f.value)))
    case URL => Ok(info.(url := f.value))
    case Compression => Ok(info.(compression := f.value))
    case NarHash => Ok(info.(nar := info.nar.(narHash := f.value)))
    case NarSize =>
      (match ParseUint(f.value) case None => Err case Some(n) => Ok(info.(nar := info.nar.(narSize := n))))
    case References =>
      var words := Words(f.value);
      if AllBases(words) then Ok(info.(nar := info.nar.(references := info.nar.references + InStore(words)))) else Err
    case Deriver => Ok(info.(deriver := f.value))
    case CA => Ok(info.(ca := f.value))
    case Sig => Ok(info.(sigs := info.sigs + [f.value]))
    case Other(_) => Ok(info)
  }

  function TakeField(p: Parsing, f: Field): Result<Parsing> {
    if f.key != Sig && f.key in p.seen then Err
    else match SetField(p.info, f)
      case Err => Err
      case Ok(info) => Ok(Parsing(info, if f.key == Sig then p.seen else p.seen + {f.key}))
  }

  function FieldOf(line: string): Result<Field> {
    match Cut(line, ": ")
    case None => Err
    case Some((name, value)) => Ok(Field(KeyOf(name), value))
  }

  function TakeLines(p: Parsing, lines: seq<string>): Result<Parsing>
    decreases |lines|
  {
    if lines == [] then Ok(p)
    else match FieldOf(lines[0])
      case Err => Err
      case Ok(f) => match TakeField(p, f) case Err => Err case Ok(q) => TakeLines(q, lines[1..])
  }

  function WithDefault(info: Info): Info {
    if info.compression == "" then info.(compression := DefaultCompression) else info
  }

  function Parse(text: string): Result<Info> {
    match TakeLines(Parsing(Nothing, {}), SplitLines(TrimNewlines(text)))
    case Err => Err
    case Ok(p) => Ok(WithDefault(p.info))
  }

  method ParseNarinfo(text: string) returns (r: Result<Info>)
    ensures r == Parse(text)
  {
    hide SetField, FieldOf, SplitLines, TrimNewlines;
    var info, seen := Nothing, {};
    var lines := SplitLines(TrimNewlines(text));
    for i := 0 to |lines|
      invariant TakeLines(Parsing(Nothing, {}), lines) == TakeLines(Parsing(info, seen), lines[i..])
    {
      assert lines[i..][1..] == lines[i + 1..];
      var f := FieldOf(lines[i]);
      if f.Err? {
        return Err;
      }
      if f.value.key != Sig {
        if f.value.key in seen {
          return Err;
        }
        seen := seen + {f.value.key};
      }
      var next := SetField(info, f.value);
      if next.Err? {
        return Err;
      }
      info := next.value;
    }
    r := Ok(WithDefault(info));
  }

  // ---- upstreamNarinfo.format ----

  function BaseNames(refs: seq<string>): seq<string> {
    seq(|refs|, i requires 0 <= i < |refs| => TrimPrefix(refs[i], NixStoreDir))
  }

  function SigFields(sigs: seq<string>): seq<Field> {
    seq(|sigs|, i requires 0 <= i < |sigs| => Field(Sig, sigs[i]))
  }

  function Six(nar: NarInfo, url: string, compression: string, references: string): seq<Field> {
    [Field(StorePath, nar.storePath), Field(URL, url), Field(Compression, compression), Field(NarHash, nar.narHash),
     Field(NarSize, Decimal(nar.narSize)), Field(References, references)]
  }

  function IfAny(k: Key, value: string): seq<Field> {
    if value == "" then [] else [Field(k, value)]
  }

  function FormatFields(info: Info, sigs: seq<string>): seq<Field> {
    Six(info.nar, info.narKey, info.compression, Join(BaseNames(info.nar.references), " "))
    + IfAny(Deriver, info.deriver) + IfAny(CA, info.ca) + SigFields(sigs)
  }

  // ---- generateNarinfoContent ----

  function IfSome(k: Key, value: Option<string>): seq<Field> {
    if value.None? then [] else [Field(k, value.value)]
  }

  function DeriverName(meta: Meta): Option<string> {
    if meta.deriver.None? then None else Some(TrimPrefix(meta.deriver.value, NixStoreDir))
  }

  function ClientFields(meta: Meta, sigs: seq<string>): seq<Field> {
    Six(meta.nar, meta.url, meta.compression, Join(BaseNames(SortBy(Self, meta.nar.references)), " "))
    + IfSome(Deriver, DeriverName(meta)) + SigFields(SortBy(Self, sigs)) + IfSome(CA, meta.ca)
  }

  // ---- a printed text is parsed field by field ----

  function TakeFields(p: Parsing, fs: seq<Field>): Result<Parsing> {
    if fs == [] then Ok(p)
    else match TakeFields(p, fs[..|fs| - 1])
      case Err => Err
      case Ok(q) => TakeField(q, fs[|fs| - 1])
  }

  /** Fields that survive a line: a known name and no newline. */
  ghost predicate Printable(fs: seq<Field>) {
    forall i :: 0 <= i < |fs| ==> !fs[i].key.Other? && OneLine(fs[i].value)
  }

  lemma KnownName(k: Key)
    requires !k.Other?
    ensures KeyOf(NameOf(k)) == k && ':' !in NameOf(k) && '\n' !in NameOf(k) && NameOf(k) != ""
  {
  }

  lemma LineIsRead(f: Field)
    requires !f.key.Other? && OneLine(f.value)
    ensures FieldOf(Line(f)) == Ok(f) && OneLine(Line(f)) && Line(f) != ""
  {
    hide KeyOf, NameOf;
    KnownName(f.key);
    CutAtFirst(NameOf(f.key), ": ", f.value);
  }

  lemma {:induction false} LinesAreLines(fs: seq<Field>)
    requires Printable(fs)
    ensures |Lines(fs)| == |fs| && forall i :: 0 <= i < |fs| ==>
      Lines(fs)[i] == Line(fs[i]) && OneLine(Lines(fs)[i]) && Lines(fs)[i] != ""
  {
    hide Line;
    if fs != [] {
      LinesAreLines(fs[..|fs| - 1]);
      LineIsRead(fs[|fs| - 1]);
    }
  }

  lemma {:induction false} TakeLinesSnoc(p: Parsing, lines: seq<string>, f: Field, line: string)
    requires FieldOf(line) == Ok(f)
    ensures TakeLines(p, lines + [line]) ==
      match TakeLines(p, lines) case Err => Err case Ok(q) => TakeField(q, f)
    decreases |lines|
  {
    hide FieldOf, TakeField;
    var all := lines + [line];
    if lines == [] {
      assert all == [line] && all[1..] == [];
      assert TakeLines(p, all) == match TakeField(p, f) case Err => Err case Ok(q) => TakeLines(q, []);
    } else {
      assert all[0] == lines[0] && all[1..] == lines[1..] + [line];
      if FieldOf(lines[0]).Ok? && TakeField(p, FieldOf(lines[0]).value).Ok? {
        TakeLinesSnoc(TakeField(p, FieldOf(lines[0]).value).value, lines[1..], f, line);
      }
    }
  }

  lemma {:induction false} TakeLinesIsTakeFields(p: Parsing, fs: seq<Field>)
    requires Printable(fs)
    ensures TakeLines(p, Lines(fs)) == TakeFields(p, fs)
  {
    hide Line, FieldOf, TakeField;
    if fs != [] {
      var init, last := fs[..|fs| - 1], fs[|fs| - 1];
      TakeLinesIsTakeFields(p, init);
      LineIsRead(last);
      TakeLinesSnoc(p, Lines(init), last, Line(last));
    }
  }

  lemma ParseOfPrint(fs: seq<Field>)
    requires Printable(fs) && fs != []
    ensures Parse(Print(fs)) ==
      match TakeFields(Parsing(Nothing, {}), fs) case Err => Err case Ok(p) => Ok(WithDefault(p.info))
  {
    hide TakeFields, TakeLines, Line;
    LinesAreLines(fs);
    LinesOfText(Lines(fs));
    TakeLinesIsTakeFields(Parsing(Nothing, {}), fs);
  }

  // ---- what the printed fields leave behind ----

  lemma {:induction false} TakeFieldsConcat(p: Parsing, a: seq<Field>, b: seq<Field>)
    ensures TakeFields(p, a + b) == match TakeFields(p, a) case Err => Err case Ok(q) => TakeFields(q, b)
  {
    hide TakeField;
    if b == [] {
      assert a + b == a;
    } else {
      assert (a + b)[..|a + b| - 1] == a + b[..|b| - 1];
      TakeFieldsConcat(p, a, b[..|b| - 1]);
    }
  }

  /** A reference the parser would give: a store path whose base has no white space. */
  ghost predicate GoodRef(ref: string) {
    HasPrefix(ref, NixStoreDir) && IsStorePathBase(ref[|NixStoreDir|..]) && IsWord(ref[|NixStoreDir|..])
  }

  ghost predicate GoodRefs(refs: seq<string>) {
    forall i :: 0 <= i < |refs| ==> GoodRef(refs[i])
  }

  lemma RefsAreRead(refs: seq<string>)
    requires GoodRefs(refs)
    ensures var words := Words(Join(BaseNames(refs), " ")); AllBases(words) && InStore(words) == refs
  {
    hide IsStorePathBase, IsWord;
    forall w | w in BaseNames(refs) ensures IsWord(w) {
      var i :| 0 <= i < |refs| && w == BaseNames(refs)[i];
      assert GoodRef(refs[i]);
    }
    WordsOfJoin(BaseNames(refs));
    forall i | 0 <= i < |refs| ensures IsStorePathBase(BaseNames(refs)[i]) && InStore(BaseNames(refs))[i] == refs[i] {
      assert GoodRef(refs[i]);
    }
  }

  lemma {:induction false} JoinOneLine(ss: seq<string>)
    requires forall i :: 0 <= i < |ss| ==> OneLine(ss[i])
    ensures OneLine(Join(ss, " "))
  {
    if |ss| > 1 { JoinOneLine(ss[1..]); }
  }

  lemma RefsLineIsOneLine(refs: seq<string>)
    requires GoodRefs(refs)
    ensures OneLine(Join(BaseNames(refs), " "))
  {
    forall i | 0 <= i < |refs| ensures OneLine(BaseNames(refs)[i]) {
      assert GoodRef(refs[i]);
      assert forall j :: 0 <= j < |BaseNames(refs)[i]| ==> !IsSpace(BaseNames(refs)[i][j]);
    }
    JoinOneLine(BaseNames(refs));
  }

  const SixKeys: set<Key> := {StorePath, URL, Compression, NarHash, NarSize, References}

  ghost predicate GoodNar(nar: NarInfo) {
    OneLine(nar.storePath) && OneLine(nar.narHash) && nar.narSize < TwoTo64 && GoodRefs(nar.references)
  }

  function AfterSix(nar: NarInfo, url: string, compression: string): Info {
    Nothing.(nar := nar, url := url, compression := compression)
  }

  lemma TakeOne(p: Parsing, f: Field)
    ensures TakeFields(p, [f]) == TakeField(p, f)
  {
    hide TakeField;
    assert [f][..0] == [];
  }

  lemma TakeTwo(p: Parsing, f: Field, g: Field)
    ensures TakeFields(p, [f, g]) == match TakeField(p, f) case Err => Err case Ok(q) => TakeField(q, g)
  {
    hide TakeField;
    assert [f, g][..1] == [f];
    TakeOne(p, f);
  }

  lemma SixTaken(nar: NarInfo, url: string, compression: string)
    requires GoodNar(nar)
    ensures TakeFields(Parsing(Nothing, {}), Six(nar, url, compression, Join(BaseNames(nar.references), " ")))
         == Ok(Parsing(AfterSix(nar, url, compression), SixKeys))
  {
    hide TakeFields, Join, BaseNames, Words, AllBases, InStore, ParseUint, Decimal, GoodRefs;
    var refs := Join(BaseNames(nar.references), " ");
    var fs := Six(nar, url, compression, refs);
    var a, b, c := [fs[0], fs[1]], [fs[2], fs[3]], [fs[4], fs[5]];
    assert fs == a + b + c;
    TakeFieldsConcat(Parsing(Nothing, {}), a + b, c);
    TakeFieldsConcat(Parsing(Nothing, {}), a, b);
    TakeTwo(Parsing(Nothing, {}), fs[0], fs[1]);
    var p := Parsing(Nothing.(nar := Nothing.nar.(storePath := nar.storePath), url := url), {StorePath, URL});
    assert {} + {StorePath} + {URL} == p.seen;
    assert TakeFields(Parsing(Nothing, {}), a) == Ok(p);
    TakeTwo(p, fs[2], fs[3]);
    var q := Parsing(AfterSix(NarInfo(nar.storePath, nar.narHash, 0, []), url, compression),
        {StorePath, URL, Compression, NarHash});
    assert p.seen + {Compression} + {NarHash} == q.seen;
    assert TakeFields(p, b) == Ok(q);
    TakeTwo(q, fs[4], fs[5]);
    SizeIsRead(nar.narSize);
    RefsAreRead(nar.references);
    assert [] + InStore(Words(refs)) == nar.references;
    assert q.seen + {NarSize} + {References} == SixKeys;
  }

  lemma SizeIsRead(n: nat)
    requires n < TwoTo64
    ensures ParseUint(Decimal(n)) == Some(n) && OneLine(Decimal(n))
  {
    DecimalRoundTrip(n);
  }

  lemma {:induction false} SigsTaken(p: Parsing, sigs: seq<string>)
    ensures TakeFields(p, SigFields(sigs)) == Ok(p.(info := p.info.(sigs := p.info.sigs + sigs)))
  {
    if sigs == [] {
      assert p.info.sigs + [] == p.info.sigs;
    } else {
      var init := sigs[..|sigs| - 1];
      assert SigFields(sigs)[..|sigs| - 1] == SigFields(init);
      SigsTaken(p, init);
      assert p.info.sigs + init + [sigs[|sigs| - 1]] == p.info.sigs + sigs;
    }
  }

  lemma DeriverTaken(p: Parsing, value: string)
    requires Deriver !in p.seen && p.info.deriver == ""
    ensures TakeFields(p, [Field(Deriver, value)]) == Ok(Parsing(p.info.(deriver := value), p.seen + {Deriver}))
    ensures exists seen ::
      seen <= p.seen + {Deriver} && TakeFields(p, IfAny(Deriver, value)) == Ok(Parsing(p.info.(deriver := value), seen))
  {
    TakeOne(p, Field(Deriver, value));
    assert value == "" ==> TakeFields(p, IfAny(Deriver, value)) == Ok(Parsing(p.info.(deriver := value), p.seen));
  }

  lemma CATaken(p: Parsing, value: string)
    requires CA !in p.seen && p.info.ca == ""
    ensures TakeFields(p, [Field(CA, value)]) == Ok(Parsing(p.info.(ca := value), p.seen + {CA}))
    ensures exists seen ::
      seen <= p.seen + {CA} && TakeFields(p, IfAny(CA, value)) == Ok(Parsing(p.info.(ca := value), seen))
  {
    TakeOne(p, Field(CA, value));
    assert value == "" ==> TakeFields(p, IfAny(CA, value)) == Ok(Parsing(p.info.(ca := value), p.seen));
  }

  ghost predicate AllOneLine(ss: seq<string>) {
    forall i :: 0 <= i < |ss| ==> OneLine(ss[i])
  }

  /** An info whose fields can be printed. */
  ghost predicate Clean(info: Info) {
    GoodNar(info.nar) && OneLine(info.compression) && info.compression != "" && OneLine(info.deriver)
      && OneLine(info.ca)
  }

  lemma FormatIsPrintable(info: Info, sigs: seq<string>)
    requires Clean(info) && OneLine(info.narKey) && AllOneLine(sigs)
    ensures Printable(FormatFields(info, sigs)) && FormatFields(info, sigs) != []
  {
    hide Join, BaseNames, Decimal, GoodRefs;
    SizeIsRead(info.nar.narSize);
    RefsLineIsOneLine(info.nar.references);
  }

  lemma FormatIsTaken(info: Info, sigs: seq<string>) returns (seen: set<Key>)
    requires Clean(info)
    ensures TakeFields(Parsing(Nothing, {}), FormatFields(info, sigs))
         == Ok(Parsing(AfterSix(info.nar, info.narKey, info.compression).(deriver := info.deriver, ca := info.ca,
             sigs := sigs), seen))
  {
    hide TakeFields, TakeField, Six, IfAny, SigFields, GoodNar, Join, BaseNames;
    var six := Six(info.nar, info.narKey, info.compression, Join(BaseNames(info.nar.references), " "));
    var start, p := Parsing(Nothing, {}), Parsing(AfterSix(info.nar, info.narKey, info.compression), SixKeys);
    SixTaken(info.nar, info.narKey, info.compression);
    DeriverTaken(p, info.deriver);
    var seen1 :| seen1 <= p.seen + {Deriver}
      && TakeFields(p, IfAny(Deriver, info.deriver)) == Ok(Parsing(p.info.(deriver := info.deriver), seen1));
    var q := Parsing(p.info.(deriver := info.deriver), seen1);
    CATaken(q, info.ca);
    seen :| seen <= q.seen + {CA} && TakeFields(q, IfAny(CA, info.ca)) == Ok(Parsing(q.info.(ca := info.ca), seen));
    var r := Parsing(q.info.(ca := info.ca), seen);
    SigsTaken(r, sigs);
    assert [] + sigs == sigs;
    TakeFieldsConcat(start, six + IfAny(Deriver, info.deriver) + IfAny(CA, info.ca), SigFields(sigs));
    TakeFieldsConcat(start, six + IfAny(Deriver, info.deriver), IfAny(CA, info.ca));
    TakeFieldsConcat(start, six, IfAny(Deriver, info.deriver));
  }

  function Format(info: Info, sigs: seq<string>): string {
    Print(FormatFields(info, sigs))
  }

  /** What the server prints it would parse back, under the key it stores the NAR at. */
  lemma ParseFormat(info: Info, sigs: seq<string>)
    requires Clean(info) && OneLine(info.narKey) && AllOneLine(sigs)
    ensures Parse(Format(info, sigs)) == Ok(info.(url := info.narKey, narKey := "", sigs := sigs))
  {
    hide TakeFields, FormatFields, Print, Parse, GoodNar;
    FormatIsPrintable(info, sigs);
    ParseOfPrint(FormatFields(info, sigs));
    var seen := FormatIsTaken(info, sigs);
  }

  // ---- what parsing leaves can be printed ----

  ghost predicate CleanSoFar(info: Info) {
    && GoodNar(info.nar) && OneLine(info.url) && OneLine(info.compression) && OneLine(info.deriver) && OneLine(info.ca)
    && AllOneLine(info.sigs) && info.narKey == ""
  }

  lemma WordsAreGoodRefs(value: string)
    requires AllBases(Words(value))
    ensures GoodRefs(InStore(Words(value)))
  {
    hide Words, IsWord, IsStorePathBase;
    WordsAreWords(value);
    forall i | 0 <= i < |Words(value)| ensures GoodRef(InStore(Words(value))[i]) {
      assert Words(value)[i] in Words(value);
      assert (NixStoreDir + Words(value)[i])[|NixStoreDir|..] == Words(value)[i];
    }
  }

  lemma FieldKeepsClean(info: Info, f: Field)
    requires CleanSoFar(info) && OneLine(f.value) && SetField(info, f).Ok?
    ensures CleanSoFar(SetField(info, f).value)
  {
    hide GoodRef, Words, InStore, AllBases, ParseUint;
    if f.key == References {
      WordsAreGoodRefs(f.value);
    } else if f.key == NarSize {
      ParseUintFits(f.value);
    }
  }

  lemma ParseUintFits(s: string)
    ensures ParseUint(s).Some? ==> ParseUint(s).value < TwoTo64
  {
  }

  lemma {:induction false} LinesKeepClean(p: Parsing, lines: seq<string>)
    requires CleanSoFar(p.info) && (forall l :: l in lines ==> OneLine(l)) && TakeLines(p, lines).Ok?
    ensures CleanSoFar(TakeLines(p, lines).value.info)
    decreases |lines|
  {
    hide CleanSoFar, SetField, KeyOf;
    if lines != [] {
      var f := FieldOf(lines[0]).value;
      CutGivesParts(lines[0], ": ");
      assert lines[0] in lines && OneLine(f.value);
      FieldKeepsClean(p.info, f);
      LinesKeepClean(TakeField(p, f).value, lines[1..]);
    }
  }

  lemma ParsedIsClean(text: string, info: Info)
    requires Parse(text) == Ok(info)
    ensures Clean(info) && CleanSoFar(info)
  {
    hide TakeLines, SplitLines, TrimNewlines;
    var lines := SplitLines(TrimNewlines(text));
    SplitGivesLines(TrimNewlines(text));
    LinesKeepClean(Parsing(Nothing, {}), lines);
  }

  /** Any narinfo the server accepts survives being printed again with other signatures:
      the same info comes back, found at the server's own key. */
  lemma ReprintKeepsInfo(text: string, info: Info, narKey: string, sigs: seq<string>)
    requires Parse(text) == Ok(info) && OneLine(narKey) && AllOneLine(sigs)
    ensures Parse(Format(info.(narKey := narKey), sigs)) == Ok(info.(url := narKey, sigs := sigs))
  {
    hide Parse, Format, GoodNar;
    ParsedIsClean(text, info);
    ParseFormat(info.(narKey := narKey), sigs);
  }

  // ---- the client's narinfo, parsed by the server ----

  ghost predicate CleanMeta(meta: Meta) {
    && GoodNar(meta.nar) && OneLine(meta.url) && OneLine(meta.compression) && meta.compression != ""
    && (meta.deriver.Some? ==> OneLine(meta.deriver.value)) && (meta.ca.Some? ==> OneLine(meta.ca.value))
  }

  function OrEmpty(value: Option<string>): string {
    if value.None? then "" else value.value
  }

  /** The same metadata with the references sorted. */
  function SortedNar(nar: NarInfo): NarInfo {
    nar.(references := SortBy(Self, nar.references))
  }

  function Generate(meta: Meta, sigs: seq<string>): string {
    Print(ClientFields(meta, sigs))
  }

  lemma SortedHolds<T>(key: T -> string, s: seq<T>, i: nat) returns (j: nat)
    requires i < |SortBy(key, s)|
    ensures j < |s| && s[j] == SortBy(key, s)[i]
  {
    SortBySorts(key, s);
    assert SortBy(key, s)[i] in multiset(SortBy(key, s));
    j := ElementAt(s, SortBy(key, s)[i]);
  }

  lemma SortedIsGood(meta: Meta, sigs: seq<string>)
    requires CleanMeta(meta) && AllOneLine(sigs)
    ensures GoodNar(SortedNar(meta.nar)) && AllOneLine(SortBy(Self, sigs))
  {
    hide SortBy, GoodRef;
    var refs := meta.nar.references;
    forall i | 0 <= i < |SortBy(Self, refs)| ensures GoodRef(SortBy(Self, refs)[i]) {
      var j := SortedHolds(Self, refs, i);
    }
    forall i | 0 <= i < |SortBy(Self, sigs)| ensures OneLine(SortBy(Self, sigs)[i]) {
      var j := SortedHolds(Self, sigs, i);
    }
  }

  lemma TrimOneLine(s: string, prefix: string)
    requires OneLine(s)
    ensures OneLine(TrimPrefix(s, prefix))
  {
  }

  lemma ClientIsPrintable(meta: Meta, sigs: seq<string>)
    requires CleanMeta(meta) && AllOneLine(sigs)
    ensures Printable(ClientFields(meta, sigs)) && ClientFields(meta, sigs) != []
  {
    hide Join, BaseNames, Decimal, GoodRefs, SortBy, TrimPrefix;
    SortedIsGood(meta, sigs);
    SizeIsRead(meta.nar.narSize);
    RefsLineIsOneLine(SortBy(Self, meta.nar.references));
    if meta.deriver.Some? { TrimOneLine(meta.deriver.value, NixStoreDir); }
  }

  lemma ClientIsTaken(meta: Meta, sigs: seq<string>) returns (seen: set<Key>)
    requires CleanMeta(meta) && AllOneLine(sigs)
    ensures TakeFields(Parsing(Nothing, {}), ClientFields(meta, sigs))
         == Ok(Parsing(AfterSix(SortedNar(meta.nar), meta.url, meta.compression)
                       .(deriver := OrEmpty(DeriverName(meta)), ca := OrEmpty(meta.ca), sigs := SortBy(Self, sigs)),
                         seen))
  {
    hide TakeField, Six, SigFields, GoodNar, Join, BaseNames, SortBy, DeriverName;
    SortedIsGood(meta, sigs);
    var nar, sorted, name := SortedNar(meta.nar), SortBy(Self, sigs), DeriverName(meta);
    var six := Six(nar, meta.url, meta.compression, Join(BaseNames(nar.references), " "));
    assert six == Six(meta.nar, meta.url, meta.compression,
        Join(BaseNames(nar.references), " ")) by { SixIgnoresOrder(meta); }
    var start, p := Parsing(Nothing, {}), Parsing(AfterSix(nar, meta.url, meta.compression), SixKeys);
    SixTaken(nar, meta.url, meta.compression);
    DeriverTaken(p, OrEmpty(name));
    var q := Parsing(p.info.(deriver := OrEmpty(name)), if name.Some? then p.seen + {Deriver} else p.seen);
    assert TakeFields(p, IfSome(Deriver, name)) == Ok(q);
    SigsTaken(q, sorted);
    assert [] + sorted == sorted;
    var r := q.(info := q.info.(sigs := sorted));
    CATaken(r, OrEmpty(meta.ca));
    seen := if meta.ca.Some? then r.seen + {CA} else r.seen;
    assert TakeFields(r, IfSome(CA, meta.ca)) == Ok(Parsing(r.info.(ca := OrEmpty(meta.ca)), seen));
    TakeFieldsConcat(start, six + IfSome(Deriver, name) + SigFields(sorted), IfSome(CA, meta.ca));
    TakeFieldsConcat(start, six + IfSome(Deriver, name), SigFields(sorted));
    TakeFieldsConcat(start, six, IfSome(Deriver, name));
  }

  lemma SixIgnoresOrder(meta: Meta)
    ensures forall refs ::
      Six(SortedNar(meta.nar), meta.url, meta.compression, refs) == Six(meta.nar, meta.url, meta.compression, refs)
  {
  }

  /** What the client prints, the server parses: the metadata with its references and
      signatures sorted. */
  lemma ParseGenerate(meta: Meta, sigs: seq<string>)
    requires CleanMeta(meta) && AllOneLine(sigs)
    ensures Parse(Generate(meta, sigs)) ==
      Ok(Info(SortedNar(meta.nar), meta.url, "", meta.compression, OrEmpty(DeriverName(meta)), OrEmpty(meta.ca),
          SortBy(Self, sigs)))
  {
    hide TakeFields, ClientFields, Print, Parse, GoodNar, SortBy;
    ClientIsPrintable(meta, sigs);
    ParseOfPrint(ClientFields(meta, sigs));
    var seen := ClientIsTaken(meta, sigs);
  }

  // ---- the printers as they run ----

  /** A strings.Builder that is given whole fields. */
  class Builder {
    var text: string
    ghost var fields: seq<Field>

    ghost predicate Valid()
      reads this
    {
      text == Print(fields)
    }

    constructor ()
      ensures Valid() && fields == []
    {
      text, fields := "", [];
    }

    method WriteField(key: Key, value: string)
      requires Valid()
      modifies this
      ensures Valid() && fields == old(fields) + [Field(key, value)]
    {
      PrintSnoc(fields, Field(key, value));
      text := text + (NameOf(key) + ": " + value) + "\n";
      fields := fields + [Field(key, value)];
    }

    /** StorePath to NarSize. */
    method WriteHead(nar: NarInfo, url: string, compression: string)
      requires Valid() && fields == []
      modifies this
      ensures Valid() && forall refs :: fields + [Field(References, refs)] == Six(nar, url, compression, refs)
    {
      WriteField(StorePath, nar.storePath);
      WriteField(URL, url);
      WriteField(Compression, compression);
      WriteField(NarHash, nar.narHash);
      WriteField(NarSize, Decimal(nar.narSize));
    }

    method WriteSigs(sigs: seq<string>)
      requires Valid()
      modifies this
      ensures Valid() && fields == old(fields) + SigFields(sigs)
    {
      for i := 0 to |sigs|
        invariant Valid() && fields == old(fields) + SigFields(sigs)[..i]
      {
        WriteField(Sig, sigs[i]);
      }
    }

    /** The client's References line: a name at a time, and a space even if there is none. */
    method WriteReferences(refs: seq<string>)
      requires Valid()
      modifies this
      ensures Valid() && fields == old(fields) + [Field(References, Join(BaseNames(refs), " "))]
    {
      hide Print, Join, TrimPrefix, Pieces;
      text := text + "References:";
      ghost var goal := text + Pieces(BaseNames(refs));
      ghost var end := if refs == [] then " " else "";
      assert BaseNames(refs)[0..] == BaseNames(refs);
      for i := 0 to |refs|
        invariant text + Pieces(BaseNames(refs)[i..]) == goal
        invariant fields == old(fields)
      {
        var refName := TrimPrefix(refs[i], NixStoreDir);
        OneMorePiece(text, BaseNames(refs), i);
        text := text + " " + refName;
      }
      NoMorePieces(BaseNames(refs));
      assert goal + end == old(text) + "References:" + (Pieces(BaseNames(refs)) + end);
      if refs == [] {
        text := text + " ";
      }
      text := text + "\n";
      PiecesAreJoined(BaseNames(refs));
      ReferencesLine(old(text), Join(BaseNames(refs), " "));
      PrintSnoc(fields, Field(References, Join(BaseNames(refs), " ")));
      fields := fields + [Field(References, Join(BaseNames(refs), " "))];
    }
  }

  lemma OneMorePiece(text: string, names: seq<string>, i: nat)
    requires i < |names|
    ensures text + Pieces(names[i..]) == text + " " + names[i] + Pieces(names[i + 1..])
  {
    assert names[i..][1..] == names[i + 1..];
    assert text + (" " + names[i] + Pieces(names[i + 1..])) == (text + " " + names[i]) + Pieces(names[i + 1..]);
  }

  lemma NoMorePieces(names: seq<string>)
    ensures Pieces(names[|names|..]) == ""
  {
  }

  lemma ReferencesLine(before: string, value: string)
    ensures before + "References:" + (" " + value) + "\n" == before + Line(Field(References, value)) + "\n"
  {
    assert "References:" + (" " + value) == Line(Field(References, value));
    assert before + "References:" + (" " + value) == before + ("References:" + (" " + value));
  }

  function Pieces(names: seq<string>): string {
    if names == [] then "" else " " + names[0] + Pieces(names[1..])
  }

  lemma {:induction false} PiecesAreJoined(names: seq<string>)
    ensures Pieces(names) + (if names == [] then " " else "") == " " + Join(names, " ")
  {
    if |names| == 1 {
      assert Pieces(names) == " " + names[0] + Pieces([]);
    } else if |names| > 1 {
      PiecesAreJoined(names[1..]);
      assert " " + names[0] + (" " + Join(names[1..], " ")) == " " + (names[0] + " " + Join(names[1..], " "));
    }
  }

  method FormatNarinfo(info: Info, sigs: seq<string>) returns (text: string)
    ensures text == Format(info, sigs)
  {
    hide Six, Print, Join;
    var b := new Builder();
    b.WriteHead(info.nar, info.narKey, info.compression);
    var refs: seq<string> := [];
    for i := 0 to |info.nar.references|
      invariant refs == BaseNames(info.nar.references)[..i]
    {
      refs := refs + [TrimPrefix(info.nar.references[i], NixStoreDir)];
    }
    assert refs == BaseNames(info.nar.references);
    b.WriteField(References, Join(refs, " "));
    assert b.fields == Six(info.nar, info.narKey, info.compression, Join(BaseNames(info.nar.references), " "));
    if info.deriver != "" {
      b.WriteField(Deriver, info.deriver);
    }
    if info.ca != "" {
      b.WriteField(CA, info.ca);
    }
    b.WriteSigs(sigs);
    assert b.fields == FormatFields(info, sigs);
    text := b.text;
  }

  method GenerateNarinfoContent(meta: Meta, signatures: seq<string>) returns (text: string)
    ensures text == Generate(meta, signatures)
  {
    hide Six, Print, Join, SortBy;
    var b := new Builder();
    b.WriteHead(meta.nar, meta.url, meta.compression);
    var sortedRefs := SortBy(Self, meta.nar.references);
    b.WriteReferences(sortedRefs);
    assert b.fields == Six(meta.nar, meta.url, meta.compression, Join(BaseNames(sortedRefs), " "));
    if meta.deriver.Some? {
      b.WriteField(Deriver, TrimPrefix(meta.deriver.value, NixStoreDir));
    }
    if |signatures| > 0 {
      var sortedSigs := SortBy(Self, signatures);
      b.WriteSigs(sortedSigs);
    } else {
      NothingSorted();
    }
    if meta.ca.Some? {
      b.WriteField(CA, meta.ca.value);
    }
    assert b.fields == ClientFields(meta, signatures);
    text := b.text;
  }

  lemma NothingSorted()
    ensures SortBy(Self, []) == []
  {
  }
}
