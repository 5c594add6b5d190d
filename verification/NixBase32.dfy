/** Nix's base 32: the bytes are read as one little-endian number, and its digits are written
    most significant first. */
module NixBase32 {
  import opened Arithmetic

  const Alphabet: string := "0123456789abcdfghijklmnpqrsvwxyz"

  type Byte = b: int | 0 <= b < 256

  function Pow2(n: nat): (p: nat)
    ensures p > 0
  {
    if n == 0 then 1 else 2 * Pow2(n - 1)
  }

  // ---- the operators of uint8 ----

  function ShiftRight(x: Byte, j: nat): nat {
    QuotientIsNat(x, Pow2(j));
    x / Pow2(j)
  }

  function ShiftLeft(x: Byte, j: nat): nat {
    x * Pow2(j) % 256
  }

  /** Bit by bit. */
  function Or(a: nat, b: nat): nat {
    if a == 0 && b == 0 then 0 else (if a % 2 == 1 || b % 2 == 1 then 1 else 0) + 2 * Or(a / 2, b / 2)
  }

  // ---- the code ----

  /** The low five bits of what is read at bit b. */
  function Digit(input: seq<Byte>, b: nat): nat {
    var i, j := b / 8, b % 8;
    var c := if i < |input| then ShiftRight(input[i], j) else 0;
    (if i + 1 < |input| then Or(c, ShiftLeft(input[i + 1], 8 - j)) else c) % 32
  }

  method EncodeNixBase32(input: seq<Byte>) returns (result: string)
    ensures result == Encoded(input)
  {
    if |input| == 0 {
      return "";
    }
    var length := (|input| * 8 - 1) / 5 + 1;
    result := "";
    var n := length - 1;
    while n >= 0
      invariant -1 <= n < length && |result| == length - 1 - n
      invariant forall k :: 0 <= k < |result| ==> result[k] == Alphabet[Digit(input, (length - 1 - k) * 5)]
    {
      var i, j := n * 5 / 8, n * 5 % 8;
      var c: nat := 0;
      if i < |input| {
        c := ShiftRight(input[i], j);
      }
      if i + 1 < |input| {
        c := Or(c, ShiftLeft(input[i + 1], 8 - j));
      }
      result := result + [Alphabet[c % 32]];
      n := n - 1;
    }
  }

  function Length(bytes: nat): nat {
    if bytes == 0 then 0 else (bytes * 8 - 1) / 5 + 1
  }

  function Encoded(input: seq<Byte>): string {
    seq(Length(|input|), k requires 0 <= k < Length(|input|) => Alphabet[Digit(input, (Length(|input|) - 1 - k) * 5)])
  }

  // ---- the numbers behind it ----

  /** The bytes as a number, least significant first. */
  function Value(input: seq<Byte>): nat {
    if input == [] then 0 else input[0] + 256 * Value(input[1..])
  }

  /** The five bits of v from bit b on. */
  function Bits(v: nat, b: nat): nat {
    v / Pow2(b) % 32
  }

  /** What a digit stands for: its place in the alphabet. */
  function Place(s: string, c: char): nat {
    if s == "" || s[0] == c then 0 else 1 + Place(s[1..], c)
  }

  /** A string of digits as a number, most significant first. */
  function Number(s: string): nat {
    if s == "" then 0 else 32 * Number(s[..|s| - 1]) + Place(Alphabet, s[|s| - 1])
  }

  // ---- powers of two ----

  lemma {:induction false} PowersMultiply(m: nat, n: nat)
    ensures Pow2(m + n) == Pow2(m) * Pow2(n)
  {
    if m > 0 {
      PowersMultiply(m - 1, n);
      PowerStep(m + n);
      PowerStep(m);
      hide Pow2;
      Regroup(2, Pow2(m - 1), Pow2(n));
    }
  }

  lemma PowerStep(m: nat)
    requires m > 0
    ensures Pow2(m) == 2 * Pow2(m - 1)
  {
  }

  lemma Regroup(a: nat, b: nat, c: nat)
    ensures a * b * c == a * (b * c)
  {
  }

  lemma Powers()
    ensures Pow2(5) == 32 && Pow2(8) == 256
  {
    assert Pow2(4) == 16;
  }

  lemma DivideTwice(v: nat, m: nat, n: nat)
    requires m > 0 && n > 0
    ensures m * n > 0 && v / m / n == v / (m * n)
  {
    var q, r, s := v / m / n, v / m % n, v % m;
    assert v / m == q * n + r && v == (v / m) * m + s;
    assert v == q * (m * n) + (r * m + s) by { assert (q * n + r) * m == q * (m * n) + r * m; }
    Gap(n, r, m);
    assert n * m == m * n;
    QuotientIs(v, m * n, q, r * m + s);
  }

  lemma OrEven(a: nat, c: nat)
    ensures Or(a, 2 * c) == a % 2 + 2 * Or(a / 2, c)
  {
  }

  /** Disjoint bits: an or is a sum. */
  lemma {:induction false} OrIsSum(a: nat, b: nat, m: nat)
    requires a < Pow2(m)
    ensures Or(a, b * Pow2(m)) == a + b * Pow2(m)
  {
    hide Or;
    if m == 0 {
      OrZero(b);
    } else {
      var c := b * Pow2(m - 1);
      assert b * Pow2(m) == 2 * c;
      OrIsSum(a / 2, b, m - 1);
      OrEven(a, c);
    }
  }

  lemma {:induction false} OrZero(b: nat)
    ensures Or(0, b) == b
  {
    if b > 0 { OrZero(b / 2); }
  }

  // ---- a digit is five bits of the number ----

  /** With p * q == 256: the low byte's high bits, and above them the bits of the rest. */
  lemma ShiftedApart(x: nat, w: nat, p: nat, q: nat)
    requires p > 0 && p * q == 256
    ensures (x + 256 * w) / p == x / p + q * w
  {
    assert x == (x / p) * p + x % p;
    assert (x / p + q * w) * p == (x / p) * p + 256 * w by { assert q * w * p == (p * q) * w; }
    QuotientIs(x + 256 * w, p, x / p + q * w, x % p);
  }

  lemma ShiftedUp(y: nat, p: nat, q: nat)
    requires p > 0 && q > 0 && p * q == 256
    ensures y * q % 256 == (y % p) * q && y * q == 256 * (y / p) + (y % p) * q
  {
    assert y == (y / p) * p + y % p;
    assert y * q == (y / p) * 256 + (y % p) * q by { assert (y / p) * p * q == (y / p) * (p * q); }
    Gap(p, y % p, q);
    QuotientIs(y * q, 256, y / p, (y % p) * q);
  }

  lemma ByteBelow(x: Byte, p: nat, q: nat)
    requires p > 0 && p * q == 256
    ensures x / p < q
  {
    assert x == (x / p) * p + x % p;
    if x / p >= q { Gap(x / p, q - 1, p); }
  }

  /** What the code reads across two bytes is five bits of any number that ends in them. */
  lemma TwoBytes(x: Byte, y: Byte, rest: nat, j: nat)
    requires j < 8
    ensures Or(ShiftRight(x, j), ShiftLeft(y, 8 - j)) % 32 == Bits(x + 256 * (y + 256 * rest), j)
  {
    hide Or, Pow2, ShiftRight, ShiftLeft;
    var a, b, n := Split(x, y, rest, j);
    SameLowBits(a, b, n);
  }

  /** The bits of x, those of y above them, and what is higher than a byte. */
  lemma Split(x: Byte, y: Byte, rest: nat, j: nat) returns (a: nat, b: nat, n: nat)
    requires j < 8
    ensures Or(ShiftRight(x, j), ShiftLeft(y, 8 - j)) == a + b
    ensures Pow2(j) > 0 && (x + 256 * (y + 256 * rest)) / Pow2(j) == a + (b + 256 * n)
  {
    hide Or, Pow2, ShiftRight, ShiftLeft;
    PowersOfByte(j);
    a, b := OrOfShifts(x, y, j);
    n := Shifted(x, y, rest, Pow2(j), Pow2(8 - j), a, b);
  }

  lemma OrOfShifts(x: Byte, y: Byte, j: nat) returns (a: nat, b: nat)
    requires j < 8 && Pow2(j) > 0
    ensures a == x / Pow2(j) && b == (y % Pow2(j)) * Pow2(8 - j)
    ensures Or(ShiftRight(x, j), ShiftLeft(y, 8 - j)) == a + b
  {
    hide Or, Pow2, ShiftRight, ShiftLeft;
    PowersOfByte(j);
    ShiftsAre(x, y, j);
    ByteBelow(x, Pow2(j), Pow2(8 - j));
    OrIsSum(x / Pow2(j), y % Pow2(j), 8 - j);
    a, b := ShiftRight(x, j), ShiftLeft(y, 8 - j);
  }

  lemma PowersOfByte(j: nat)
    requires j <= 8
    ensures Pow2(j) > 0 && Pow2(8 - j) > 0 && Pow2(j) * Pow2(8 - j) == 256
  {
    hide Pow2;
    Powers();
    PowersMultiply(j, 8 - j);
  }

  lemma ShiftsAre(x: Byte, y: Byte, j: nat)
    requires j <= 8
    ensures ShiftRight(x, j) == x / Pow2(j) && ShiftLeft(y, 8 - j) == (y % Pow2(j)) * Pow2(8 - j)
  {
    hide Pow2;
    PowersOfByte(j);
    ShiftedUp(y, Pow2(j), Pow2(8 - j));
  }

  /** A number that ends in the bytes x and y, shifted right across them. */
  lemma Shifted(x: Byte, y: Byte, rest: nat, p: nat, q: nat, a: nat, b: nat) returns (n: nat)
    requires p > 0 && q > 0 && p * q == 256 && a == x / p && b == (y % p) * q
    ensures (x + 256 * (y + 256 * rest)) / p == a + (b + 256 * n)
  {
    var w := y + 256 * rest;
    ShiftedApart(x, w, p, q);
    ShiftedUp(y, p, q);
    TimesSum(q, y, rest);
    n := y / p + q * rest;
  }

  lemma TimesSum(q: nat, y: nat, rest: nat)
    ensures q * (y + 256 * rest) == y * q + 256 * (q * rest)
  {
    assert q * (256 * rest) == 256 * (q * rest);
  }

  lemma SameLowBits(a: nat, b: nat, n: nat)
    ensures (a + b) % 32 == (a + (b + 256 * n)) % 32
  {
    var v := a + b;
    QuotientIs(v + 256 * n, 32, v / 32 + 8 * n, v % 32);
  }

  lemma OneByte(x: Byte, j: nat)
    ensures ShiftRight(x, j) % 32 == Bits(x, j)
  {
  }

  lemma {:induction false} DigitIsBits(input: seq<Byte>, b: nat)
    requires b < 8 * |input|
    ensures Digit(input, b) == Bits(Value(input), b)
  {
    hide Or, Pow2, ShiftRight, ShiftLeft, Bits;
    if b >= 8 {
      DigitIsBits(input[1..], b - 8);
      assert b / 8 == (b - 8) / 8 + 1 && b % 8 == (b - 8) % 8;
      ByteLess(input[0], Value(input[1..]), b);
    } else if |input| == 1 {
      OneByte(input[0], b);
    } else {
      TwoBytes(input[0], input[1], Value(input[1..][1..]), b);
    }
  }

  lemma ByteLess(x: Byte, w: nat, b: nat)
    requires b >= 8
    ensures Bits(x + 256 * w, b) == Bits(w, b - 8)
  {
    hide Pow2;
    Powers();
    PowersMultiply(8, b - 8);
    DivideTwice(x + 256 * w, 256, Pow2(b - 8));
  }

  // ---- the digits are the number ----

  lemma {:induction false} PlaceOf(s: string, d: nat)
    requires d < |s| && forall i, j :: 0 <= i < j < |s| ==> s[i] != s[j]
    ensures Place(s, s[d]) == d
  {
    if d > 0 { PlaceOf(s[1..], d - 1); }
  }

  lemma AlphabetIsDistinct()
    ensures |Alphabet| == 32 && forall i, j :: 0 <= i < j < |Alphabet| ==> Alphabet[i] != Alphabet[j]
  {
    forall i | 0 <= i < 31 ensures Alphabet[i] < Alphabet[i + 1] {}
    forall i, j | 0 <= i < j < |Alphabet| ensures Alphabet[i] < Alphabet[j] { Climbs(Alphabet, i, j); }
  }

  lemma {:induction false} Climbs(s: string, i: nat, j: nat)
    requires i < j < |s| && forall k :: 0 <= k < |s| - 1 ==> s[k] < s[k + 1]
    ensures s[i] < s[j]
  {
    if i + 1 < j { Climbs(s, i, j - 1); }
  }

  lemma LengthRoundsUp(n: nat)
    ensures 8 * n <= 5 * Length(n) < 8 * n + 5
  {
  }

  lemma {:induction false} ValueFits(input: seq<Byte>)
    ensures Value(input) < Pow2(8 * |input|)
  {
    if input != [] {
      ValueFits(input[1..]);
      Powers();
      PowersMultiply(8, 8 * |input[1..]|);
    }
  }

  lemma {:induction false} PowersGrow(m: nat, n: nat)
    requires m <= n
    ensures Pow2(m) <= Pow2(n)
  {
    if m < n { PowersGrow(m, n - 1); }
  }

  lemma EncodedLength(input: seq<Byte>)
    ensures |Encoded(input)| == Length(|input|)
  {
  }

  /** The first m digits are the number without its low bits. */
  lemma {:induction false} Leading(input: seq<Byte>, m: nat)
    requires m <= Length(|input|)
    ensures Number(Encoded(input)[..m]) == Value(input) / Pow2(5 * (Length(|input|) - m))
  {
    hide Encoded, Value, Bits, Place, Pow2, Length;
    var length, v, s := Length(|input|), Value(input), Encoded(input);
    LengthRoundsUp(|input|);
    EncodedLength(input);
    if m == 0 {
      ValueFits(input);
      PowersGrow(8 * |input|, 5 * length);
      QuotientIs(v, Pow2(5 * length), 0, v);
    } else {
      Leading(input, m - 1);
      var b := 5 * (length - m);
      LeadingDigit(input, m);
      NextDigit(v, b);
      OneMoreDigit(s, m);
    }
  }

  lemma OneMoreDigit(s: string, m: nat)
    requires 0 < m <= |s|
    ensures Number(s[..m]) == 32 * Number(s[..m - 1]) + Place(Alphabet, s[m - 1])
  {
    hide Place;
    assert s[..m][..m - 1] == s[..m - 1];
  }

  lemma LeadingDigit(input: seq<Byte>, m: nat)
    requires 0 < m <= Length(|input|)
    ensures Place(Alphabet, Encoded(input)[m - 1]) == Bits(Value(input), 5 * (Length(|input|) - m))
  {
    hide Digit, Place, Value, Pow2;
    var b := 5 * (Length(|input|) - m);
    LengthRoundsUp(|input|);
    DigitIsBits(input, b);
    AlphabetIsDistinct();
    PlaceOf(Alphabet, Digit(input, b));
    assert Encoded(input)[m - 1] == Alphabet[Digit(input, (Length(|input|) - 1 - (m - 1)) * 5)];
  }

  lemma NextDigit(v: nat, b: nat)
    ensures v / Pow2(b) == 32 * (v / Pow2(b + 5)) + Bits(v, b)
  {
    hide Pow2;
    Powers();
    PowersMultiply(b, 5);
    DivideTwice(v, Pow2(b), 32);
  }

  /** ceil(8n / 5) digits, whose value is the bytes' value. */
  lemma EncodedValue(input: seq<Byte>)
    ensures 8 * |input| <= 5 * |Encoded(input)| < 8 * |input| + 5
    ensures Number(Encoded(input)) == Value(input)
  {
    hide Encoded, Value, Number, Length;
    LengthRoundsUp(|input|);
    EncodedLength(input);
    Leading(input, Length(|input|));
    assert Encoded(input)[..Length(|input|)] == Encoded(input);
    assert Pow2(0) == 1;
  }

  lemma FirstByte(a: Byte, v: nat, b: Byte, w: nat)
    requires a + 256 * v == b + 256 * w
    ensures a == b && v == w
  {
  }

  lemma {:induction false} ValueIsInjective(a: seq<Byte>, b: seq<Byte>)
    requires |a| == |b| && Value(a) == Value(b)
    ensures a == b
  {
    if a != [] {
      FirstByte(a[0], Value(a[1..]), b[0], Value(b[1..]));
      ValueIsInjective(a[1..], b[1..]);
      assert a == [a[0]] + a[1..] && b == [b[0]] + b[1..];
    }
  }

  /** No two byte strings, of whatever lengths, have the same encoding. */
  lemma EncodeIsInjective(a: seq<Byte>, b: seq<Byte>)
    requires Encoded(a) == Encoded(b)
    ensures a == b
  {
    EncodedValue(a);
    EncodedValue(b);
    ValueIsInjective(a, b);
  }

  // ---- every string of digits is an encoding ----

  ghost predicate AreDigits(s: string) {
    forall i :: 0 <= i < |s| ==> s[i] in Alphabet
  }

  /** Where a digit or letter stands in the alphabet. */
  function PlaceIn(c: char): int {
    if c <= '9' then c as int - '0' as int
    else
      var skipped := if c > 'u' then 4 else if c > 't' then 3 else if c > 'o' then 2 else if c > 'e' then 1 else 0;
      c as int - 'a' as int + 10 - skipped
  }

  lemma PlacesInOrder()
    ensures |Alphabet| == 32 && forall d :: 0 <= d < 32 ==>
      PlaceIn(Alphabet[d]) == d && ('0' <= Alphabet[d] <= '9' || 'a' <= Alphabet[d] <= 'z') && Alphabet[d] !in "eotu"
  {
  }

  lemma LetterIsThere(c: char)
    requires ('0' <= c <= '9' || 'a' <= c <= 'z') && c !in "eotu"
    ensures c in Alphabet
  {
    var d := PlaceIn(c);
    assert 0 <= d < 32;
    assert Alphabet[d] == c;
  }

  /** The digits and the lower-case letters but e, o, t and u, in order. */
  lemma AlphabetIs()
    ensures forall i, j :: 0 <= i < j < |Alphabet| ==> PlaceIn(Alphabet[i]) < PlaceIn(Alphabet[j])
    ensures forall c: char :: c in Alphabet <==> ('0' <= c <= '9' || 'a' <= c <= 'z') && c !in "eotu"
  {
    hide PlaceIn;
    PlacesInOrder();
    forall c: char | ('0' <= c <= '9' || 'a' <= c <= 'z') && c !in "eotu" ensures c in Alphabet { LetterIsThere(c); }
  }

  lemma {:induction false} PlaceHolds(s: string, c: char)
    requires c in s
    ensures Place(s, c) < |s| && s[Place(s, c)] == c
  {
    if s[0] != c { PlaceHolds(s[1..], c); }
  }

  function Bytes(v: nat, n: nat): seq<Byte> {
    if n == 0 then [] else [v % 256] + Bytes(v / 256, n - 1)
  }

  lemma {:induction false} BytesHold(v: nat, n: nat)
    requires v < Pow2(8 * n)
    ensures |Bytes(v, n)| == n && Value(Bytes(v, n)) == v
  {
    if n > 0 {
      Powers();
      PowersMultiply(8, 8 * (n - 1));
      BytesHold(v / 256, n - 1);
      assert Bytes(v, n)[1..] == Bytes(v / 256, n - 1);
    }
  }

  lemma {:induction false} NumberFits(s: string)
    requires AreDigits(s)
    ensures Number(s) < Pow2(5 * |s|)
  {
    hide Place, Pow2;
    if s == "" {
      Powers();
    } else {
      var init := s[..|s| - 1];
      NumberFits(init);
      PlaceHolds(Alphabet, s[|s| - 1]);
      Powers();
      PowersMultiply(5, 5 * |init|);
      OneMoreFits(Number(init), Place(Alphabet, s[|s| - 1]), Pow2(5 * |init|));
    }
  }

  lemma OneMoreFits(n: nat, d: nat, p: nat)
    requires n < p && d < 32
    ensures 32 * n + d < 32 * p
  {
  }

  lemma {:induction false} NumberIsInjective(s: string, t: string)
    requires |s| == |t| && AreDigits(s) && AreDigits(t) && Number(s) == Number(t)
    ensures s == t
  {
    hide Place;
    if s != "" {
      var c, d := s[|s| - 1], t[|t| - 1];
      PlaceHolds(Alphabet, c);
      PlaceHolds(Alphabet, d);
      SameLast(Number(s[..|s| - 1]), Place(Alphabet, c), Number(t[..|t| - 1]), Place(Alphabet, d));
      NumberIsInjective(s[..|s| - 1], t[..|t| - 1]);
      assert s == s[..|s| - 1] + [c] && t == t[..|t| - 1] + [d];
    }
  }

  lemma SameLast(m: nat, c: nat, n: nat, d: nat)
    requires c < 32 && d < 32 && 32 * m + c == 32 * n + d
    ensures m == n && c == d
  {
  }

  /** If the digits fill whole bytes, they are the encoding of some. */
  lemma EncodeIsOnto(s: string, n: nat) returns (bytes: seq<Byte>)
    requires AreDigits(s) && 5 * |s| == 8 * n
    ensures |bytes| == n && Encoded(bytes) == s
  {
    hide Number, Value, Pow2, Digit;
    NumberFits(s);
    bytes := Bytes(Number(s), n);
    BytesHold(Number(s), n);
    EncodedValue(bytes);
    EncodedDigits(bytes);
    NumberIsInjective(Encoded(bytes), s);
  }

  lemma EncodedDigits(input: seq<Byte>)
    ensures AreDigits(Encoded(input))
  {
    AlphabetIsDistinct();
    forall k | 0 <= k < |Encoded(input)| ensures Encoded(input)[k] in Alphabet {
      var d := Digit(input, (Length(|input|) - 1 - k) * 5);
      assert Encoded(input)[k] == Alphabet[d];
    }
  }
}
