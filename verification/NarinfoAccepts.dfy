/** Which narinfo texts the server accepts, line by line, and what it makes of their lines. */
module NarinfoAccepts {
  import opened Wrappers
  import opened Results
  import opened Arithmetic
  import opened Text
  import opened Narinfo
  import NixBase32

  function LinesOf(text: string): seq<string> {
    SplitLines(TrimNewlines(text))
  }

  /** The line is a name and a value, parted by its first colon with a space. */
  ghost predicate IsField(line: string, name: string, value: string) {
    && line == name + ": " + value
    && forall j :: 0 <= j < |name| ==> !(line[j] == ':' && line[j + 1] == ' ')
  }

  /** A number of 64 bits in decimal; zeros may lead. */
  ghost predicate IsSize(s: string) {
    exists zeros: nat, n: nat :: IsDecimal(s, zeros, n) && n < 18446744073709551616
  }

  ghost predicate IsDecimal(s: string, zeros: nat, n: nat) {
    s == seq(zeros, _ => '0') + Decimal(n)
  }

  /** The 32 digits of 20 bytes, a dash, and a name. */
  ghost predicate IsReference(s: string) {
    exists digest: seq<NixBase32.Byte>, name :: IsHashed(s, digest, name)
  }

  ghost predicate IsHashed(s: string, digest: seq<NixBase32.Byte>, name: string) {
    |digest| == 20 && name != "" && '/' !in name && s == NixBase32.Encoded(digest) + "-" + name
  }

  /** Every line is a field, only Sig repeats, and size and references are well formed. Names
      that mean nothing are let through. */
  ghost predicate IsAccepted(lines: seq<string>) {
    && (forall i :: 0 <= i < |lines| ==> HasField(lines[i]))
    && (forall i, j :: 0 <= i < j < |lines| ==> Differ(lines[i], lines[j]))
    && (forall i :: 0 <= i < |lines| ==> IsWellFormed(lines[i]))
  }

  ghost predicate HasField(line: string) {
    exists name, value :: IsField(line, name, value)
  }

  ghost predicate Differ(line: string, later: string) {
    forall name, v, w :: IsField(line, name, v) && IsField(later, name, w) ==> name == "Sig"
  }

  ghost predicate IsWellFormed(line: string) {
    && (forall v :: IsField(line, "NarSize", v) ==> IsSize(v))
    && forall v, w :: IsField(line, "References", v) && w in Words(v) ==> IsReference(w)
  }

  // ---- lines ----

  lemma FieldAfter(c: char, line: string, name: string, value: string)
    requires IsField(line, name, value) && !(c == ':' && line[0] == ' ')
    ensures IsField([c] + line, [c] + name, value)
  {
    var more := [c] + line;
    assert forall j :: 0 <= j < |line| ==> more[j + 1] == line[j];
    forall j | 0 <= j < |[c] + name| ensures !(more[j] == ':' && more[j + 1] == ' ') {
      if j > 0 { assert more[j] == line[j - 1]; }
    }
  }

  lemma {:induction false} CutGivesField(line: string)
    ensures Cut(line, ": ").Some? ==> IsField(line, Cut(line, ": ").value.0, Cut(line, ": ").value.1)
  {
    hide IsField;
    if HasPrefix(line, ": ") {
      StartsAtOnce(line);
    } else if line != "" {
      CutGivesField(line[1..]);
      if Cut(line[1..], ": ").Some? {
        assert line == [line[0]] + line[1..];
        FieldIsLonger(line[1..], Cut(line[1..], ": ").value.0, Cut(line[1..], ": ").value.1);
        assert line[..2] == [line[0], line[1]];
        FieldAfter(line[0], line[1..], Cut(line[1..], ": ").value.0, Cut(line[1..], ": ").value.1);
      }
    }
  }

  lemma StartsAtOnce(line: string)
    requires HasPrefix(line, ": ")
    ensures IsField(line, "", line[2..])
  {
    assert line == "" + ": " + line[2..];
  }

  lemma FieldIsLonger(line: string, name: string, value: string)
    requires IsField(line, name, value)
    ensures |line| >= 2
  {
  }

  lemma {:induction false} CutFindsField(line: string, name: string, value: string)
    requires IsField(line, name, value)
    ensures Cut(line, ": ") == Some((name, value))
  {
    if name == "" {
      assert line[..2] == ": " && line[2..] == value;
    } else {
      assert line[0] == name[0] && line[1..] == name[1..] + ": " + value;
      assert line[..2] == [line[0], line[1]];
      var rest := line[1..];
      assert forall j :: 0 <= j < |rest| ==> rest[j] == line[j + 1];
      CutFindsField(line[1..], name[1..], value);
      assert [line[0]] + name[1..] == name;
    }
  }

  lemma FieldIs(line: string, name: string, value: string)
    ensures IsField(line, name, value) ==> FieldOf(line) == Ok(Field(KeyOf(name), value))
  {
    hide KeyOf, IsField;
    if IsField(line, name, value) { CutFindsField(line, name, value); }
  }

  lemma FieldOfIs(line: string) returns (name: string, value: string)
    ensures FieldOf(line).Ok? <==> IsField(line, name, value)
    ensures FieldOf(line).Err? ==> forall n, v :: !IsField(line, n, v)
    ensures FieldOf(line).Ok? ==> FieldOf(line).value == Field(KeyOf(name), value)
  {
    hide KeyOf, IsField;
    CutGivesField(line);
    forall n, v | IsField(line, n, v) ensures FieldOf(line).Ok? { CutFindsField(line, n, v); }
    if FieldOf(line).Ok? {
      name, value := Cut(line, ": ").value.0, Cut(line, ": ").value.1;
    } else {
      name, value := "", "";
    }
  }

  lemma KeysAreNames(a: string, b: string)
    ensures KeyOf(a) == KeyOf(b) <==> a == b
  {
    assert NameOf(KeyOf(a)) == a && NameOf(KeyOf(b)) == b;
  }

  // ---- sizes and references ----

  lemma {:induction false} DigitsAfterZeros(zeros: nat, s: string)
    ensures DigitsValue(seq(zeros, _ => '0') + s) == DigitsValue(s)
  {
    var lead := seq(zeros, _ => '0');
    if s == "" {
      assert lead + s == lead;
      if zeros > 0 {
        assert lead[..|lead| - 1] == seq(zeros - 1, _ => '0') + "";
        DigitsAfterZeros(zeros - 1, "");
      }
    } else {
      assert (lead + s)[..|lead + s| - 1] == lead + s[..|s| - 1];
      DigitsAfterZeros(zeros, s[..|s| - 1]);
    }
  }

  lemma {:induction false} DigitsAreDecimal(s: string) returns (zeros: nat)
    requires s != "" && DigitsValue(s).Some?
    ensures IsDecimal(s, zeros, DigitsValue(s).value)
  {
    var init, v := s[..|s| - 1], DigitsValue(s).value;
    assert s == init + [s[|s| - 1]];
    if init == "" {
      zeros := 0;
    } else {
      var less := DigitsAreDecimal(init);
      var w := DigitsValue(init).value;
      assert v / 10 == w && Digit(v % 10) == s[|s| - 1];
      if w == 0 {
        zeros := less + 1;
        assert seq(zeros, _ => '0') == seq(less, _ => '0') + "0";
        assert Decimal(0) == "0";
      } else {
        zeros := less;
        assert Decimal(v) == Decimal(w) + [Digit(v % 10)];
      }
    }
  }

  /** strconv.ParseUint, by the numbers it reads. */
  lemma ParseUintIff(s: string, n: nat)
    ensures ParseUint(s) == Some(n) <==> n < 18446744073709551616 && exists zeros: nat :: IsDecimal(s, zeros, n)
  {
    if ParseUint(s) == Some(n) {
      var zeros := DigitsAreDecimal(s);
    }
    if zeros: nat :| IsDecimal(s, zeros, n) {
      DecimalRoundTrip(n);
      DigitsAfterZeros(zeros, Decimal(n));
    }
  }

  lemma SizeIff(s: string)
    ensures ParseUint(s).Some? <==> IsSize(s)
  {
    hide IsDecimal, ParseUint;
    if ParseUint(s).Some? { ParseUintIff(s, ParseUint(s).value); }
    if IsSize(s) {
      var zeros: nat, n: nat :| IsDecimal(s, zeros, n) && n < 18446744073709551616;
      ParseUintIff(s, n);
    }
  }

  lemma BaseIsReference(s: string)
    requires IsStorePathBase(s)
    ensures IsReference(s)
  {
    var hash, name := s[..32], s[33..];
    assert NixBase32.AreDigits(hash);
    hide NixBase32.Encoded, NixBase32.AreDigits;
    var digest := NixBase32.EncodeIsOnto(hash, 20);
    assert s == hash + "-" + name;
    assert forall i :: 0 <= i < |name| ==> name[i] == s[33 + i];
    assert IsHashed(s, digest, name);
  }

  lemma ReferenceIsBase(s: string, digest: seq<NixBase32.Byte>, name: string)
    requires IsHashed(s, digest, name)
    ensures IsStorePathBase(s)
  {
    var hash := NixBase32.Encoded(digest);
    NixBase32.EncodedValue(digest);
    NixBase32.EncodedDigits(digest);
    HashedIsBase(hash, name);
  }

  lemma HashedIsBase(hash: string, name: string)
    requires |hash| == 32 && NixBase32.AreDigits(hash) && name != "" && '/' !in name
    ensures IsStorePathBase(hash + "-" + name)
  {
    var s := hash + "-" + name;
    assert s[32] == '-' && forall i :: 0 <= i < 32 ==> s[i] == hash[i];
    assert '/' !in NixBase32.Alphabet;
    assert '/' !in hash;
  }

  lemma ReferenceIff(s: string)
    ensures IsStorePathBase(s) <==> IsReference(s)
  {
    hide IsStorePathBase, IsHashed;
    if IsStorePathBase(s) { BaseIsReference(s); }
    if digest: seq<NixBase32.Byte>, name :| IsHashed(s, digest, name) { ReferenceIsBase(s, digest, name); }
  }

  // ---- acceptance ----

  ghost predicate GoodValue(f: Field) {
    && (f.key == NarSize ==> ParseUint(f.value).Some?)
    && (f.key == References ==> AllBases(Words(f.value)))
  }

  lemma SetFieldIff(info: Info, f: Field)
    ensures SetField(info, f).Ok? <==> GoodValue(f)
  {
  }

  /** Every line is a field with a good value, and no key but Sig was seen before. */
  ghost predicate Fine(seen: set<Key>, lines: seq<string>) {
    forall i :: 0 <= i < |lines| ==> FineAt(seen, lines, i)
  }

  ghost predicate FineAt(seen: set<Key>, lines: seq<string>, i: nat)
    requires i < |lines|
  {
    && FieldOf(lines[i]).Ok? && GoodValue(FieldOf(lines[i]).value)
    && var key := FieldOf(lines[i]).value.key;
       || key == Sig
       || (key !in seen && forall j :: 0 <= j < i && FieldOf(lines[j]).Ok? ==> FieldOf(lines[j]).value.key != key)
  }

  lemma FineTail(seen: set<Key>, lines: seq<string>, key: Key)
    requires lines != [] && FieldOf(lines[0]).Ok? && FieldOf(lines[0]).value.key == key
    requires GoodValue(FieldOf(lines[0]).value) && (key == Sig || key !in seen)
    ensures Fine(seen, lines) <==> Fine(if key == Sig then seen else seen + {key}, lines[1..])
  {
    hide FieldOf, GoodValue;
    var more := if key == Sig then seen else seen + {key};
    if Fine(seen, lines) {
      forall i | 0 <= i < |lines[1..]| ensures FineAt(more, lines[1..], i) {
        assert FineAt(seen, lines, i + 1);
      }
    }
    if Fine(more, lines[1..]) {
      forall i | 0 <= i < |lines| ensures FineAt(seen, lines, i) {
        if i > 0 {
          assert FineAt(more, lines[1..], i - 1);
          forall j | 1 <= j < i ensures lines[j] == lines[1..][j - 1] {}
        }
      }
    }
  }

  lemma {:induction false} TakeLinesIff(p: Parsing, lines: seq<string>)
    ensures TakeLines(p, lines).Ok? <==> Fine(p.seen, lines)
    decreases |lines|
  {
    hide FieldOf, SetField, GoodValue;
    if lines != [] {
      if FieldOf(lines[0]).Ok? {
        var f := FieldOf(lines[0]).value;
        SetFieldIff(p.info, f);
        if TakeField(p, f).Ok? {
          FineTail(p.seen, lines, f.key);
          TakeLinesIff(TakeField(p, f).value, lines[1..]);
        } else {
          assert !FineAt(p.seen, lines, 0);
        }
      } else {
        assert !FineAt(p.seen, lines, 0);
      }
    }
  }

  lemma GoodIsWellFormed(line: string)
    requires FieldOf(line).Ok?
    ensures GoodValue(FieldOf(line).value) <==> IsWellFormed(line)
  {
    hide FieldOf, KeyOf, IsField, IsSize, IsReference, IsStorePathBase, Words, ParseUint;
    SigKey();
    var name, value := FieldOfIs(line);
    NameOfKey(name);
    SizeIff(value);
    BasesAre(value);
    forall v | IsField(line, "NarSize", v) ensures name == "NarSize" && v == value { FieldIs(line, "NarSize", v); }
    forall v | IsField(line, "References", v) ensures name == "References" && v == value {
      FieldIs(line, "References", v);
    }
  }

  lemma DifferentKeys(line: string, later: string)
    requires FieldOf(line).Ok? && FieldOf(later).Ok?
    ensures Differ(line, later) <==>
      FieldOf(later).value.key == Sig || FieldOf(line).value.key != FieldOf(later).value.key
  {
    hide FieldOf, KeyOf, NameOf, IsField;
    SigKey();
    var name, value := FieldOfIs(line);
    var other, w := FieldOfIs(later);
    KeysAreNames(name, other);
    KeysAreNames(other, "Sig");
    forall n, u, v | IsField(line, n, u) && IsField(later, n, v) ensures n == name == other {
      FieldIs(line, n, u);
      FieldIs(later, n, v);
      KeysAreNames(n, name);
      KeysAreNames(n, other);
    }
  }

  lemma FineIsAccepted(lines: seq<string>)
    requires Fine({}, lines)
    ensures IsAccepted(lines)
  {
    hide FieldOf, GoodValue, IsWellFormed, Differ, HasField;
    forall i | 0 <= i < |lines| ensures HasField(lines[i]) && IsWellFormed(lines[i]) {
      assert FineAt({}, lines, i);
      FieldIff(lines[i]);
      GoodIsWellFormed(lines[i]);
    }
    forall i, j | 0 <= i < j < |lines| ensures Differ(lines[i], lines[j]) {
      assert FineAt({}, lines, i) && FineAt({}, lines, j);
      DifferentKeys(lines[i], lines[j]);
    }
  }

  lemma AcceptedIsFine(lines: seq<string>)
    requires IsAccepted(lines)
    ensures Fine({}, lines)
  {
    hide FieldOf, GoodValue, IsWellFormed, Differ, HasField;
    forall i | 0 <= i < |lines| ensures FineAt({}, lines, i) {
      FieldIff(lines[i]);
      GoodIsWellFormed(lines[i]);
      forall j | 0 <= j < i && FieldOf(lines[j]).Ok?
        ensures FieldOf(lines[i]).value.key == Sig || FieldOf(lines[j]).value.key != FieldOf(lines[i]).value.key
      {
        assert Differ(lines[j], lines[i]);
        DifferentKeys(lines[j], lines[i]);
      }
    }
  }

  lemma FieldIff(line: string)
    ensures HasField(line) <==> FieldOf(line).Ok?
  {
    hide IsField, FieldOf;
    var name, value := FieldOfIs(line);
  }

  lemma BasesAre(value: string)
    ensures AllBases(Words(value)) <==> forall w :: w in Words(value) ==> IsReference(w)
  {
    hide IsStorePathBase, IsReference, Words;
    forall w ensures IsStorePathBase(w) <==> IsReference(w) { ReferenceIff(w); }
    var words := Words(value);
    assert forall i :: 0 <= i < |words| ==> words[i] in words;
  }

  lemma SigKey()
    ensures KeyOf("Sig") == Sig && KeyOf("NarSize") == NarSize && KeyOf("References") == References
    ensures NameOf(Sig) == "Sig" && NameOf(NarSize) == "NarSize" && NameOf(References) == "References"
  {
  }

  lemma NameOfKey(name: string)
    ensures NameOf(KeyOf(name)) == name
  {
    assert NameOf(KeyOf(name)) == name;
  }

  /** parseNarinfo succeeds exactly on the accepted texts. */
  lemma ParseIff(text: string)
    ensures Parse(text).Ok? <==> IsAccepted(LinesOf(text))
  {
    hide TakeLines, SplitLines, TrimNewlines, Fine, IsAccepted;
    TakeLinesIff(Parsing(Nothing, {}), LinesOf(text));
    if Fine({}, LinesOf(text)) { FineIsAccepted(LinesOf(text)); }
    if IsAccepted(LinesOf(text)) { AcceptedIsFine(LinesOf(text)); }
  }

  // ---- lines that mean nothing ----

  /** The names parseNarinfo looks for. */
  predicate IsKnown(name: string) {
    name in {"StorePath", "URL", "Compression", "NarHash", "NarSize", "References", "Deriver", "CA", "Sig"}
  }

  lemma UnknownKey(name: string)
    requires !IsKnown(name)
    ensures KeyOf(name) == Other(name)
  {
  }

  lemma UnknownIsIgnored(p: Parsing, f: Field)
    requires f.key.Other? && f.key !in p.seen
    ensures TakeField(p, f) == Ok(p.(seen := p.seen + {f.key}))
  {
  }

  /** No line has the name. */
  ghost predicate Lacks(lines: seq<string>, name: string) {
    forall i, value :: 0 <= i < |lines| ==> !IsField(lines[i], name, value)
  }

  lemma LackedKey(lines: seq<string>, name: string, i: nat)
    requires Lacks(lines, name) && i < |lines| && FieldOf(lines[i]).Ok?
    ensures FieldOf(lines[i]).value.key != KeyOf(name)
  {
    hide FieldOf, KeyOf, IsField;
    var other, value := FieldOfIs(lines[i]);
    KeysAreNames(other, name);
  }

  /** Having seen one more name does not matter to lines that lack it. */
  lemma {:induction false} SeenMore(p: Parsing, lines: seq<string>, name: string)
    requires Lacks(lines, name)
    ensures var q := p.(seen := p.seen + {KeyOf(name)});
      TakeLines(q, lines) == match TakeLines(p, lines)
                             case Err => Err
                             case Ok(r) => Ok(r.(seen := r.seen + {KeyOf(name)}))
    decreases |lines|
  {
    hide FieldOf, KeyOf, SetField, IsField;
    var q := p.(seen := p.seen + {KeyOf(name)});
    if lines != [] && FieldOf(lines[0]).Ok? {
      var f := FieldOf(lines[0]).value;
      LackedKey(lines, name, 0);
      if TakeField(p, f).Ok? {
        var next := TakeField(p, f).value;
        SeenMore(next, lines[1..], name);
        assert p.seen + {KeyOf(name)} + {f.key} == p.seen + {f.key} + {KeyOf(name)};
        assert TakeField(q, f) == Ok(next.(seen := next.seen + {KeyOf(name)}));
      }
    }
  }

  lemma {:induction false} LineIsSkipped(p: Parsing, before: seq<string>, line: string, after: seq<string>,
                                         name: string, value: string)
    requires IsField(line, name, value) && !IsKnown(name) && KeyOf(name) !in p.seen
    requires Lacks(before, name) && Lacks(after, name)
    ensures match TakeLines(p, before + after)
            case Err => TakeLines(p, before + [line] + after).Err?
            case Ok(r) => TakeLines(p, before + [line] + after) == Ok(r.(seen := r.seen + {KeyOf(name)}))
    decreases |before|
  {
    hide FieldOf, KeyOf, SetField, IsField;
    var all := before + [line] + after;
    if before == [] {
      assert all[0] == line && all[1..] == after && before + after == after;
      FieldIs(line, name, value);
      UnknownKey(name);
      UnknownIsIgnored(p, Field(KeyOf(name), value));
      SeenMore(p, after, name);
    } else {
      assert all[0] == before[0] && all[1..] == before[1..] + [line] + after;
      assert (before + after)[1..] == before[1..] + after;
      if FieldOf(before[0]).Ok? {
        var f := FieldOf(before[0]).value;
        LackedKey(before, name, 0);
        if TakeField(p, f).Ok? { LineIsSkipped(TakeField(p, f).value, before[1..], line, after, name, value); }
      }
    }
  }

  /** A line with a name that means nothing and occurs nowhere else changes nothing, wherever it
      stands: the same info, or an error as before. */
  lemma UnknownLineIsSkipped(text: string, more: string, before: seq<string>, line: string, after: seq<string>,
                             name: string, value: string)
    requires LinesOf(text) == before + after && LinesOf(more) == before + [line] + after
    requires IsField(line, name, value) && !IsKnown(name) && Lacks(before + after, name)
    ensures Parse(more) == Parse(text)
  {
    hide TakeLines, SplitLines, TrimNewlines, IsField, KeyOf;
    assert forall i :: 0 <= i < |before| ==> before[i] == (before + after)[i];
    assert forall i :: 0 <= i < |after| ==> after[i] == (before + after)[|before| + i];
    LineIsSkipped(Parsing(Nothing, {}), before, line, after, name, value);
  }

  // ---- the values ----

  /** What the info holds for a name. */
  function Held(info: Info, name: string): string
    requires name in {"StorePath", "URL", "NarHash", "Deriver", "CA", "Compression"}
  {
    if name == "StorePath" then info.nar.storePath
    else if name == "URL" then info.url
    else if name == "NarHash" then info.nar.narHash
    else if name == "Deriver" then info.deriver
    else if name == "CA" then info.ca
    else info.compression
  }

  lemma FieldIsHeld(p: Parsing, name: string, value: string, other: string)
    requires TakeField(p, Field(KeyOf(name), value)).Ok?
    requires other in {"StorePath", "URL", "NarHash", "Deriver", "CA", "Compression"}
    ensures var q := TakeField(p, Field(KeyOf(name), value)).value;
      Held(q.info, other) == if name == other then value else Held(p.info, other)
  {
    hide Words, ParseUint, AllBases, InStore;
  }

  lemma {:induction false} LinesAreHeld(p: Parsing, lines: seq<string>, name: string)
    requires TakeLines(p, lines).Ok? && name in {"StorePath", "URL", "NarHash", "Deriver", "CA", "Compression"}
    ensures var held := Held(TakeLines(p, lines).value.info, name);
      && (forall i, value :: 0 <= i < |lines| && IsField(lines[i], name, value) ==> held == value)
      && (Lacks(lines, name) ==> held == Held(p.info, name))
    decreases |lines|
  {
    hide FieldOf, KeyOf, TakeField, IsField, Held;
    if lines != [] {
      var f := FieldOf(lines[0]).value;
      var q := TakeField(p, f).value;
      var rest := lines[1..];
      LinesAreHeld(q, rest, name);
      var other, value := FieldOfIs(lines[0]);
      FieldIsHeld(p, other, value, name);
      TakeLinesIff(p, lines);
      FineIsDifferent(p.seen, lines, name);
      assert forall i :: 0 <= i < |rest| ==> rest[i] == lines[i + 1];
      forall i, v | 0 <= i < |lines| && IsField(lines[i], name, v)
        ensures Held(TakeLines(p, lines).value.info, name) == v
      {
        if i == 0 {
          FieldIs(lines[0], name, v);
          KeysAreNames(other, name);
        } else {
          assert IsField(rest[i - 1], name, v);
        }
      }
      if Lacks(lines, name) {
        assert other != name;
        assert Lacks(rest, name);
      }
    }
  }

  /** If the first line has the name, no other one has. */
  lemma FineIsDifferent(seen: set<Key>, lines: seq<string>, name: string)
    requires Fine(seen, lines) && lines != [] && name != "Sig"
    ensures (exists value :: IsField(lines[0], name, value)) ==> Lacks(lines[1..], name)
  {
    hide FieldOf, KeyOf, IsField, GoodValue;
    if value :| IsField(lines[0], name, value) {
      SigKey();
      FieldIs(lines[0], name, value);
      KeysAreNames(name, "Sig");
      var rest := lines[1..];
      forall i, v | 0 <= i < |rest| ensures !IsField(rest[i], name, v) {
        assert FineAt(seen, lines, i + 1);
        FieldIs(rest[i], name, v);
      }
    }
  }

  /** What the info holds if a line says this; bzip2 is Nix's compression if none is given. */
  function OrDefault(name: string, value: string): string {
    if name == "Compression" && value == "" then "bzip2" else value
  }

  /** Each value is held as it stands, and what is missing as if it were empty. */
  lemma ValuesAreHeld(text: string, name: string)
    requires Parse(text).Ok? && name in {"StorePath", "URL", "NarHash", "Deriver", "CA", "Compression"}
    ensures var held, lines := Held(Parse(text).value, name), LinesOf(text);
      && (forall i, value :: 0 <= i < |lines| && IsField(lines[i], name, value) ==> held == OrDefault(name, value))
      && (Lacks(lines, name) ==> held == OrDefault(name, ""))
  {
    hide TakeLines, SplitLines, TrimNewlines, IsField;
    LinesAreHeld(Parsing(Nothing, {}), LinesOf(text), name);
  }

  /** The size and the references a text gives. */
  ghost predicate Tells(lines: seq<string>, before: Info, info: Info) {
    && (forall i, value :: 0 <= i < |lines| && IsField(lines[i], "NarSize", value) ==>
          ParseUint(value) == Some(info.nar.narSize))
    && (forall i, value :: 0 <= i < |lines| && IsField(lines[i], "References", value) ==>
          info.nar.references == before.nar.references + InStore(Words(value)))
    && (Lacks(lines, "NarSize") ==> info.nar.narSize == before.nar.narSize)
    && (Lacks(lines, "References") ==> info.nar.references == before.nar.references)
  }

  lemma FieldTells(p: Parsing, name: string, value: string)
    requires TakeField(p, Field(KeyOf(name), value)).Ok?
    ensures var nar, later := p.info.nar, TakeField(p, Field(KeyOf(name), value)).value.info.nar;
      && (name == "NarSize" ==> ParseUint(value) == Some(later.narSize))
      && (name != "NarSize" ==> later.narSize == nar.narSize)
      && later.references == if name == "References" then nar.references + InStore(Words(value)) else nar.references
  {
    hide Words, ParseUint, AllBases, InStore;
  }

  lemma {:induction false} LinesTell(p: Parsing, lines: seq<string>)
    requires TakeLines(p, lines).Ok?
    ensures Tells(lines, p.info, TakeLines(p, lines).value.info)
    decreases |lines|
  {
    hide FieldOf, KeyOf, TakeField, IsField, ParseUint, Words, InStore;
    if lines != [] {
      var q := TakeField(p, FieldOf(lines[0]).value).value;
      LinesTell(q, lines[1..]);
      var name, value := FieldOfIs(lines[0]);
      FieldTells(p, name, value);
      TakeLinesIff(p, lines);
      FineIsDifferent(p.seen, lines, "NarSize");
      FineIsDifferent(p.seen, lines, "References");
      TellsMore(lines, name, value, p.info, q.info, TakeLines(p, lines).value.info);
    }
  }

  lemma TellsMore(lines: seq<string>, name: string, value: string, before: Info, mid: Info, info: Info)
    requires lines != [] && IsField(lines[0], name, value) && Tells(lines[1..], mid, info)
    requires name == "NarSize" ==> ParseUint(value) == Some(mid.nar.narSize) && Lacks(lines[1..], "NarSize")
    requires name != "NarSize" ==> mid.nar.narSize == before.nar.narSize
    requires name == "References" ==> Lacks(lines[1..], "References")
    requires mid.nar.references
      == if name == "References" then before.nar.references + InStore(Words(value)) else before.nar.references
    ensures Tells(lines, before, info)
  {
    hide IsField, ParseUint, Words, InStore;
    var rest := lines[1..];
    assert forall i :: 0 <= i < |rest| ==> rest[i] == lines[i + 1];
    forall n, v | IsField(lines[0], n, v) ensures n == name && v == value { SameField(lines[0], n, v, name, value); }
    forall i, n, v | 1 <= i < |lines| && IsField(lines[i], n, v) ensures IsField(rest[i - 1], n, v) {}
    if Lacks(lines, "NarSize") { assert Lacks(rest, "NarSize"); }
    if Lacks(lines, "References") { assert Lacks(rest, "References"); }
  }

  lemma SameField(line: string, a: string, v: string, b: string, w: string)
    requires IsField(line, a, v) && IsField(line, b, w)
    ensures a == b && v == w
  {
    hide IsField;
    CutFindsField(line, a, v);
    CutFindsField(line, b, w);
  }

  /** The size is the number written, and the references are the names written, in the store. */
  lemma SizeAndReferencesAreHeld(text: string, info: Info)
    requires Parse(text) == Ok(info)
    ensures var lines := LinesOf(text);
      && (forall i, value :: 0 <= i < |lines| && IsField(lines[i], "NarSize", value) ==>
            exists zeros: nat :: IsDecimal(value, zeros, info.nar.narSize))
      && (forall i, value :: 0 <= i < |lines| && IsField(lines[i], "References", value) ==>
            && |info.nar.references| == |Words(value)|
            && forall j :: 0 <= j < |Words(value)| ==> info.nar.references[j] == "/nix/store/" + Words(value)[j])
      && (Lacks(lines, "NarSize") ==> info.nar.narSize == 0)
      && (Lacks(lines, "References") ==> info.nar.references == [])
  {
    hide TakeLines, SplitLines, TrimNewlines, IsField, ParseUint, Words, IsDecimal;
    var lines := LinesOf(text);
    LinesTell(Parsing(Nothing, {}), lines);
    forall i, value | 0 <= i < |lines| && IsField(lines[i], "NarSize", value)
      ensures exists zeros: nat :: IsDecimal(value, zeros, info.nar.narSize)
    {
      ParseUintIff(value, info.nar.narSize);
    }
  }
}
