/** Positional notation, and the base-36 rendering of 16-byte identifiers. */
module Base36 {

  // ---- Digits, most significant first ----

  function Pow(b: nat, n: nat): nat {
    if n == 0 then 1 else Pow(b, n - 1) * b
  }

  predicate Digits(ds: seq<nat>, b: nat) {
    forall i :: 0 <= i < |ds| ==> ds[i] < b
  }

  function Push(v: nat, d: nat, b: nat): nat {
    v * b + d
  }

  function Quotient(n: nat, b: nat): nat
    requires b > 0
  {
    n / b
  }

  function Remainder(n: nat, b: nat): (d: nat)
    requires b > 0
    ensures d < b
  {
    n % b
  }

  function Value(ds: seq<nat>, b: nat): nat {
    if ds == [] then 0 else Push(Value(ds[..|ds| - 1], b), ds[|ds| - 1], b)
  }

  function Written(n: nat, b: nat, len: nat): (ds: seq<nat>)
    requires b > 0
    ensures |ds| == len
    decreases len
  {
    if len == 0 then [] else Written(Quotient(n, b), b, len - 1) + [Remainder(n, b)]
  }

  lemma Distribute(x: int, y: int, b: int)
    ensures (x + y) * b == x * b + y * b
  {
  }

  lemma MulNat(x: nat, b: nat)
    ensures x * b >= 0
  {
  }

  lemma MulGap(x: int, y: int, b: nat)
    ensures x < y ==> x * b + b <= y * b
  {
    if x < y {
      MulNat(y - x - 1, b);
      Distribute(y - x - 1, x + 1, b);
      Distribute(x, 1, b);
    }
  }

  lemma PushPop(q: nat, d: nat, b: nat)
    requires d < b
    ensures Quotient(Push(q, d, b), b) == q && Remainder(Push(q, d, b), b) == d
  {
    var n := q * b + d;
    assert n == (n / b) * b + n % b;
    MulGap(n / b, q, b);
    MulGap(q, n / b, b);
  }

  lemma PopPush(n: nat, b: nat)
    requires b > 0
    ensures Push(Quotient(n, b), Remainder(n, b), b) == n
  {
  }

  lemma PushBound(v: nat, p: nat, b: nat, d: nat)
    requires v < p && d < b
    ensures Push(v, d, b) < p * b
  {
    MulGap(v, p, b);
  }

  lemma PopBound(n: nat, p: nat, b: nat)
    requires b > 0 && n < p * b
    ensures Quotient(n, b) < p
  {
    PopPush(n, b);
    MulGap(p - 1, n / b, b);
    Distribute(p - 1, 1, b);
  }

  lemma PopBelowPow(n: nat, b: nat, len: nat)
    requires b > 0 && len > 0 && n < Pow(b, len)
    ensures Quotient(n, b) < Pow(b, len - 1)
  {
    PopBound(n, Pow(b, len - 1), b);
  }

  lemma {:induction false} ValueBound(ds: seq<nat>, b: nat)
    requires Digits(ds, b)
    ensures Value(ds, b) < Pow(b, |ds|)
  {
    hide Push;
    if ds != [] {
      var front, d := ds[..|ds| - 1], ds[|ds| - 1];
      ValueBound(front, b);
      PushBound(Value(front, b), Pow(b, |front|), b, d);
    }
  }

  lemma WrittenSnoc(n: nat, b: nat, len: nat)
    requires b > 0 && len > 0
    ensures Written(n, b, len) == Written(Quotient(n, b), b, len - 1) + [Remainder(n, b)]
  {
  }

  lemma {:induction false} WrittenValue(ds: seq<nat>, b: nat)
    requires b > 0 && Digits(ds, b)
    ensures Written(Value(ds, b), b, |ds|) == ds
  {
    if ds == [] {
      return;
    }
    var front, d := ds[..|ds| - 1], ds[|ds| - 1];
    assert d < b && Digits(front, b) && Value(ds, b) == Push(Value(front, b), d, b);
    hide *;
    WrittenSnoc(Value(ds, b), b, |ds|);
    WrittenValue(front, b);
    PushPop(Value(front, b), d, b);
    assert ds == front + [d];
  }

  lemma {:induction false} ValueWritten(n: nat, b: nat, len: nat)
    requires b > 0 && n < Pow(b, len)
    ensures Value(Written(n, b, len), b) == n && Digits(Written(n, b, len), b)
    decreases len
  {
    if len == 0 {
      return;
    }
    hide *;
    PopBelowPow(n, b, len);
    WrittenSnoc(n, b, len);
    ValueWritten(Quotient(n, b), b, len - 1);
    ValueSnoc(Written(Quotient(n, b), b, len - 1), Remainder(n, b), b);
    PopPush(n, b);
  }

  lemma ValueSnoc(front: seq<nat>, d: nat, b: nat)
    ensures Value(front + [d], b) == Push(Value(front, b), d, b)
    ensures Digits(front, b) && d < b ==> Digits(front + [d], b)
  {
    assert (front + [d])[..|front|] == front;
  }

  /** Comparison from the left. */
  predicate Less(a: seq<nat>, c: seq<nat>)
    requires |a| == |c|
  {
    a != [] && (a[0] < c[0] || (a[0] == c[0] && Less(a[1..], c[1..])))
  }

  lemma {:induction false} LessSnoc(a: seq<nat>, c: seq<nat>)
    requires |a| == |c| > 0
    ensures var k := |a| - 1; Less(a, c) <==> Less(a[..k], c[..k]) || (a[..k] == c[..k] && a[k] < c[k])
  {
    var k := |a| - 1;
    if k > 0 {
      LessSnoc(a[1..], c[1..]);
      assert a[1..][..k - 1] == a[..k][1..] && c[1..][..k - 1] == c[..k][1..];
      assert a[..k] == [a[0]] + a[..k][1..] && c[..k] == [c[0]] + c[..k][1..];
    }
  }

  /** Among digit strings of one length, comparing from the left is comparing values. */
  lemma {:induction false} LessIsValueOrder(a: seq<nat>, c: seq<nat>, b: nat)
    requires |a| == |c| && Digits(a, b) && Digits(c, b)
    ensures Less(a, c) <==> Value(a, b) < Value(c, b)
    decreases |a|
  {
    if a != [] {
      var k := |a| - 1;
      LessSnoc(a, c);
      LessIsValueOrder(a[..k], c[..k], b);
      LessIsValueOrder(c[..k], a[..k], b);
      hide Less;
      var x, y := Value(a[..k], b), Value(c[..k], b);
      if x < y { PushBound(x, y, b, a[k]); }
      if y < x { PushBound(y, x, b, c[k]); }
      if x == y {
        WrittenValue(a[..k], b);
        WrittenValue(c[..k], b);
      }
    }
  }

  // ---- The codec ----

  const ID_LENGTH := 25

  /** The 16 bytes of an identifier. */
  predicate Uuid(b: seq<nat>) {
    |b| == 16 && Digits(b, 256)
  }

  /** The alphabet: digits, then lower-case letters. */
  function CharOf(d: nat): char
    requires d < 36
  {
    if d < 10 then ('0' as int + d) as char else ('a' as int + (d - 10)) as char
  }

  predicate InAlphabet(c: char) {
    '0' <= c <= '9' || 'a' <= c <= 'z'
  }

  function DigitOf(c: char): (d: nat)
    requires InAlphabet(c)
    ensures d < 36
  {
    if c <= '9' then c as int - '0' as int else c as int - 'a' as int + 10
  }

  lemma CharOfDigit()
    ensures forall d: nat :: d < 36 ==> InAlphabet(CharOf(d)) && DigitOf(CharOf(d)) == d
    ensures forall c: char :: InAlphabet(c) ==> CharOf(DigitOf(c)) == c
    ensures forall d: nat, e: nat :: d < 36 && e < 36 ==> (CharOf(d) < CharOf(e) <==> d < e)
  {
  }

  predicate Base36Text(s: string) {
    forall i :: 0 <= i < |s| ==> InAlphabet(s[i])
  }

  function Text(ds: seq<nat>): string
    requires Digits(ds, 36)
  {
    seq(|ds|, i requires 0 <= i < |ds| => CharOf(ds[i]))
  }

  function DigitsOf(s: string): (ds: seq<nat>)
    requires Base36Text(s)
    ensures |ds| == |s| && Digits(ds, 36)
  {
    seq(|s|, i requires 0 <= i < |s| => DigitOf(s[i]))
  }

  lemma TextRoundTrip(ds: seq<nat>)
    requires Digits(ds, 36)
    ensures Base36Text(Text(ds)) && DigitsOf(Text(ds)) == ds
  {
    CharOfDigit();
  }

  lemma DigitsRoundTrip(s: string)
    requires Base36Text(s)
    ensures Text(DigitsOf(s)) == s
  {
    CharOfDigit();
  }

  lemma MulAssociative(p: nat, q: nat, b: nat)
    ensures p * q * b == p * (q * b)
  {
  }

  lemma {:induction false} PowAdd(b: nat, m: nat, n: nat)
    ensures Pow(b, m + n) == Pow(b, m) * Pow(b, n)
    decreases n
  {
    if n == 0 {
      return;
    }
    PowStep(b, m + n);
    PowStep(b, n);
    hide Pow;
    PowAdd(b, m, n - 1);
    assert m + n - 1 == m + (n - 1);
    MulAssociative(Pow(b, m), Pow(b, n - 1), b);
  }

  lemma PowStep(b: nat, n: nat)
    requires n > 0
    ensures Pow(b, n) == Pow(b, n - 1) * b
  {
  }

  const TWO_128 := 0x1_0000_0000_0000_0000_0000_0000_0000_0000

  lemma BytesFit()
    ensures Pow(256, 16) == TWO_128
  {
    assert Pow(256, 1) == 256;
    PowAdd(256, 1, 1);
    PowAdd(256, 2, 2);
    PowAdd(256, 4, 4);
    PowAdd(256, 8, 8);
  }

  /** Twenty-five base-36 digits are enough for 128 bits, and twenty-four are not. */
  lemma LengthIsRight()
    ensures Pow(36, 24) < TWO_128 < Pow(36, ID_LENGTH)
  {
    assert Pow(36, 1) == 36;
    PowAdd(36, 1, 1);
    PowAdd(36, 2, 1);
    PowAdd(36, 3, 3);
    PowAdd(36, 6, 6);
    PowAdd(36, 12, 12);
    PowAdd(36, 24, 1);
  }

  ghost function Encode(b: seq<nat>): (s: string)
    requires Uuid(b)
    ensures |s| == ID_LENGTH && Base36Text(s)
  {
    var n := Value(b, 256);
    ValueBound(b, 256);
    BytesFit();
    LengthIsRight();
    ValueWritten(n, 36, ID_LENGTH);
    TextRoundTrip(Written(n, 36, ID_LENGTH));
    Text(Written(n, 36, ID_LENGTH))
  }

  // ---- The bytes of a number ----

  /** Big-endian bytes without leading zeros, as a big integer gives them. */
  function Stripped(n: nat): seq<nat> {
    if n == 0 then [] else Stripped(n / 256) + [n % 256]
  }

  lemma StrippedStep(n: nat)
    requires n > 0
    ensures Stripped(n) == Stripped(Quotient(n, 256)) + [Remainder(n, 256)] && Quotient(n, 256) < n
  {
  }

  /** They are the number's bytes, and the first is not zero. */
  lemma {:induction false} StrippedMeaning(n: nat)
    ensures Value(Stripped(n), 256) == n && Digits(Stripped(n), 256) && (Stripped(n) != [] ==> Stripped(n)[0] != 0)
  {
    if n > 0 {
      StrippedStep(n);
      var q, d := Quotient(n, 256), Remainder(n, 256);
      StrippedMeaning(q);
      PopPush(n, 256);
      ValueSnoc(Stripped(q), d, 256);
      assert q == 0 ==> d == n && Stripped(q) == [];
    }
  }

  /** The number of bytes is at most k exactly for numbers below 256^k. */
  lemma {:induction false} StrippedLength(n: nat, k: nat)
    ensures |Stripped(n)| <= k <==> n < Pow(256, k)
    decreases k
  {
    PowPositive(256, k);
    if n > 0 && k > 0 {
      StrippedStep(n);
      StrippedLength(Quotient(n, 256), k - 1);
      QuotientBelowIff(n, k);
    }
  }

  lemma QuotientBelowIff(n: nat, k: nat)
    requires k > 0
    ensures Quotient(n, 256) < Pow(256, k - 1) <==> n < Pow(256, k)
  {
    PopPush(n, 256);
    PowStep(256, k);
  }

  lemma {:induction false} PowPositive(b: nat, n: nat)
    requires b > 0
    ensures Pow(b, n) > 0
  {
    if n > 0 {
      PowPositive(b, n - 1);
      MulGap(0, Pow(b, n - 1), b);
    }
  }

  function Zeros(n: nat): seq<nat> {
    seq(n, i => 0)
  }

  /** Right-aligned in `len` bytes they are the number written with that many. */
  lemma {:induction false} PaddedIsWritten(n: nat, len: nat)
    requires |Stripped(n)| <= len
    ensures Zeros(len - |Stripped(n)|) + Stripped(n) == Written(n, 256, len)
    decreases len
  {
    if len > 0 {
      WrittenSnoc(n, 256, len);
      if n == 0 {
        PaddedIsWritten(0, len - 1);
        assert Zeros(len) == Zeros(len - 1) + [0];
        assert Quotient(0, 256) == 0 && Remainder(0, 256) == 0;
      } else {
        StrippedStep(n);
        PaddedIsWritten(Quotient(n, 256), len - 1);
      }
    }
  }

  /** `Panics` is the slice of the result that would start before it. */
  datatype Decoded = Ok(bytes: seq<nat>) | BadLength | BadCharacter | Panics

  /** Length of the UTF-8 form, which is what the length check measures. */
  function ByteLength(s: string): nat {
    if s == "" then 0
    else
      var c := s[|s| - 1] as int;
      ByteLength(s[..|s| - 1]) + if c < 0x80 then 1 else if c < 0x800 then 2 else if c < 0x1_0000 then 3 else 4
  }

  lemma {:induction false} PlainByteLength(s: string)
    requires Base36Text(s)
    ensures ByteLength(s) == |s|
  {
    if s != "" { PlainByteLength(s[..|s| - 1]); }
  }

  function Decode(s: string): Decoded {
    if ByteLength(s) != ID_LENGTH then BadLength
    else if !Base36Text(s) then BadCharacter
    else
      var b := Stripped(Value(DigitsOf(s), 36));
      if |b| <= 16 then Ok(Zeros(16 - |b|) + b) else Panics
  }

  /** What the right-aligned copy amounts to: sixteen bytes of a number below 2^128, and otherwise no result. */
  lemma DecodeByValue(s: string)
    requires ByteLength(s) == ID_LENGTH && Base36Text(s)
    ensures var n := Value(DigitsOf(s), 36); Decode(s) == if n < TWO_128 then Ok(Written(n, 256, 16)) else Panics
  {
    var n := Value(DigitsOf(s), 36);
    BytesFit();
    StrippedLength(n, 16);
    if n < TWO_128 { PaddedIsWritten(n, 16); }
  }

  /** Decoding gives these bytes back exactly for the text that encodes them. */
  lemma DecodeIffEncoded(s: string, b: seq<nat>)
    requires Uuid(b)
    ensures Decode(s) == Ok(b) <==> s == Encode(b)
  {
    var n := Value(b, 256);
    ValueBound(b, 256);
    BytesFit();
    WrittenValue(b, 256);
    LengthIsRight();
    ValueWritten(n, 36, ID_LENGTH);
    TextRoundTrip(Written(n, 36, ID_LENGTH));
    PlainByteLength(Encode(b));
    DecodeByValue(Encode(b));
    hide Stripped, Zeros, Value, Pow, Written;
    if Decode(s) == Ok(b) {
      PlainByteLength(s);
      DecodeByValue(s);
      var m := Value(DigitsOf(s), 36);
      ValueWritten(m, 256, 16);
      assert m == n;
      WrittenValue(DigitsOf(s), 36);
      DigitsRoundTrip(s);
    }
  }

  /** Decoding succeeds exactly on the encodings; it panics exactly on 25 alphabet characters worth 2^128 or more. */
  lemma DecodeOutcomes(s: string)
    ensures Decode(s).Ok? <==> exists b :: Uuid(b) && s == Encode(b)
    ensures Decode(s) == Panics <==> |s| == ID_LENGTH && Base36Text(s) && Value(DigitsOf(s), 36) >= TWO_128
  {
    if Base36Text(s) { PlainByteLength(s); }
    if ByteLength(s) == ID_LENGTH && Base36Text(s) { DecodeByValue(s); }
    hide Stripped, Zeros, Value, Pow;
    if Decode(s).Ok? {
      var n := Value(DigitsOf(s), 36);
      BytesFit();
      ValueWritten(n, 256, 16);
      var b := Written(n, 256, 16);
      DecodeIffEncoded(s, b);
    }
    if b :| Uuid(b) && s == Encode(b) { DecodeIffEncoded(s, b); }
  }

  /** The largest text of the right length. */
  lemma PanicsSomewhere(s: string)
    requires |s| == ID_LENGTH && forall i :: 0 <= i < |s| ==> s[i] == 'z'
    ensures Decode(s) == Panics
  {
    AllZ(s);
    PlainByteLength(s);
    LengthIsRight();
    hide *;
    DecodeByValue(s);
  }

  lemma {:induction false} AllZ(s: string)
    requires forall i :: 0 <= i < |s| ==> s[i] == 'z'
    ensures Base36Text(s) && Value(DigitsOf(s), 36) == Pow(36, |s|) - 1
  {
    if s != "" {
      var front := s[..|s| - 1];
      AllZ(front);
      assert DigitsOf(s)[..|s| - 1] == DigitsOf(front);
    }
  }

  predicate TextLess(s: string, t: string)
    requires |s| == |t|
  {
    s != "" && (s[0] < t[0] || (s[0] == t[0] && TextLess(s[1..], t[1..])))
  }

  lemma {:induction false} TextOrder(ds: seq<nat>, es: seq<nat>)
    requires |ds| == |es| && Digits(ds, 36) && Digits(es, 36)
    ensures TextLess(Text(ds), Text(es)) <==> Less(ds, es)
  {
    CharOfDigit();
    if ds != [] {
      TextOrder(ds[1..], es[1..]);
      assert Text(ds)[1..] == Text(ds[1..]) && Text(es)[1..] == Text(es[1..]);
    }
  }

  /** Identifiers sort as their bytes do. */
  lemma EncodeKeepsOrder(b: seq<nat>, c: seq<nat>)
    requires Uuid(b) && Uuid(c)
    ensures TextLess(Encode(b), Encode(c)) <==> Less(b, c)
  {
    var m, n := Value(b, 256), Value(c, 256);
    ValueBound(b, 256);
    ValueBound(c, 256);
    BytesFit();
    LengthIsRight();
    ValueWritten(m, 36, ID_LENGTH);
    ValueWritten(n, 36, ID_LENGTH);
    TextOrder(Written(m, 36, ID_LENGTH), Written(n, 36, ID_LENGTH));
    LessIsValueOrder(Written(m, 36, ID_LENGTH), Written(n, 36, ID_LENGTH), 36);
    LessIsValueOrder(b, c, 256);
  }

  // ---- The loops ----

  method SetBytes(b: seq<nat>) returns (n: nat)
    ensures n == Value(b, 256)
  {
    n := 0;
    for i := 0 to |b|
      invariant n == Value(b[..i], 256)
    {
      n := n * 256 + b[i];
      assert b[..i + 1][..i] == b[..i];
    }
    assert b[..|b|] == b;
  }

  method UuidToBase36(b: seq<nat>) returns (s: string)
    requires Uuid(b)
    ensures s == Encode(b)
  {
    hide Value, Written, Encode, Pow, Digits, Text;
    var n := SetBytes(b);
    ghost var all := Written(n, 36, ID_LENGTH);
    EncodeIsWritten(b);
    var buf := new char[ID_LENGTH](i => '0');
    var i := ID_LENGTH;
    while i > 0
      invariant 0 <= i <= ID_LENGTH
      invariant all[..i] == Written(n, 36, i)
      invariant forall k :: i <= k < ID_LENGTH ==> buf[k] == Encode(b)[k]
    {
      i := i - 1;
      WrittenStep(n, i + 1);
      assert all[..i] == all[..i + 1][..i] && all[i] == all[..i + 1][i];
      buf[i] := CharOf(n % 36);
      n := n / 36;
    }
    s := buf[..];
  }

  lemma EncodeIsWritten(b: seq<nat>)
    requires Uuid(b)
    ensures var ds := Written(Value(b, 256), 36, ID_LENGTH);
            forall k :: 0 <= k < ID_LENGTH ==> ds[k] < 36 && Encode(b)[k] == CharOf(ds[k])
  {
    ValueBound(b, 256);
    BytesFit();
    LengthIsRight();
    ValueWritten(Value(b, 256), 36, ID_LENGTH);
  }

  lemma WrittenStep(n: nat, len: nat)
    requires len > 0
    ensures Written(n, 36, len)[..len - 1] == Written(n / 36, 36, len - 1) && Written(n, 36, len)[len - 1] == n % 36
  {
  }

  method Bytes(n: nat) returns (b: seq<nat>)
    ensures b == Stripped(n)
  {
    b := [];
    var m := n;
    assert Stripped(m) + [] == Stripped(m);
    while m > 0
      invariant Stripped(m) + b == Stripped(n)
    {
      assert Stripped(m / 256) + [m % 256] + b == Stripped(m / 256) + ([m % 256] + b);
      b := [m % 256] + b;
      m := m / 256;
    }
  }

  method Base36ToUuid(s: string) returns (r: Decoded)
    ensures r == Decode(s)
  {
    if ByteLength(s) != ID_LENGTH {
      return BadLength;
    }
    var n := 0;
    for i := 0 to |s|
      invariant Base36Text(s[..i]) && n == Value(DigitsOf(s[..i]), 36)
    {
      if !InAlphabet(s[i]) {
        return BadCharacter;
      }
      n := n * 36 + DigitOf(s[i]);
      assert DigitsOf(s[..i + 1])[..i] == DigitsOf(s[..i]);
    }
    assert s[..|s|] == s;
    var b := Bytes(n);
    if 16 - |b| < 0 {
      return Panics;
    }
    var out := new nat[16](i => 0);
    for j := 0 to |b|
      invariant forall k :: 0 <= k < 16 ==> out[k] == if 16 - |b| <= k < 16 - |b| + j then b[k - (16 - |b|)] else 0
    {
      out[16 - |b| + j] := b[j];
    }
    assert out[..] == Zeros(16 - |b|) + b;
    return Ok(out[..]);
  }

  // ---- Kinds ----

  const KINDS := ["cl-", "usr-", "team-", "key-", "host-", "htok-", "hrt-", "log-", "bld-", "perm-", "ch-", "vol-"]

  /** Ends with its only hyphen. */
  predicate Prefix(p: string) {
    p != "" && p[|p| - 1] == '-' && forall i :: 0 <= i < |p| - 1 ==> p[i] != '-'
  }

  lemma KindsArePrefixes()
    ensures forall i :: 0 <= i < |KINDS| ==> Prefix(KINDS[i])
    ensures forall i, j :: 0 <= i < j < |KINDS| ==> KINDS[i] != KINDS[j]
  {
  }

  ghost function Format(prefix: string, b: seq<nat>): string
    requires Uuid(b)
  {
    prefix + Encode(b)
  }

  datatype Parsed = Parsed(decoded: Decoded) | BadPrefix

  function Parse(prefix: string, s: string): Parsed {
    if prefix <= s then Parsed(Decode(s[|prefix|..])) else BadPrefix
  }

  /** Parsing inverts formatting, and accepts nothing else. */
  lemma ParseIffFormatted(prefix: string, s: string, b: seq<nat>)
    requires Uuid(b)
    ensures Parse(prefix, s) == Parsed(Ok(b)) <==> s == Format(prefix, b)
  {
    if prefix <= s {
      DecodeIffEncoded(s[|prefix|..], b);
      assert s == prefix + s[|prefix|..];
    }
    assert Format(prefix, b)[|prefix|..] == Encode(b);
  }

  /** An identifier of one kind is refused as any other kind. */
  lemma OtherKindsRejected(p: string, q: string, b: seq<nat>)
    requires Prefix(p) && Prefix(q) && p != q && Uuid(b)
    ensures Parse(q, Format(p, b)) == BadPrefix
  {
    if q <= Format(p, b) { PrefixesAgree(p, q, Format(p, b)); }
  }

  lemma PrefixesAgree(p: string, q: string, s: string)
    requires Prefix(p) && Prefix(q) && p <= s && q <= s
    ensures p == q
  {
    assert s[|p| - 1] == '-' && s[|q| - 1] == '-';
    assert |p| <= |q| ==> q[|p| - 1] == s[|p| - 1];
    assert |q| <= |p| ==> p[|q| - 1] == s[|q| - 1];
    assert p == s[..|p|] && q == s[..|q|];
  }

  // ---- Refusals ----

  /** The UTF-8 form of a character (RFC 3629, section 3). */
  function Utf8(c: char): (bytes: seq<nat>)
    ensures Digits(bytes, 256) && bytes != []
    ensures |bytes| == 1 ==> bytes[0] < 0x80
    ensures |bytes| == 2 ==> 0xC2 <= bytes[0] < 0xE0
    ensures |bytes| == 3 ==> 0xE0 <= bytes[0] < 0xF0 && (bytes[0] == 0xE0 ==> bytes[1] >= 0xA0)
    ensures |bytes| == 4 ==> 0xF0 <= bytes[0] < 0xF5 && (bytes[0] == 0xF0 ==> bytes[1] >= 0x90)
    ensures forall i :: 0 < i < |bytes| ==> 0x80 <= bytes[i] < 0xC0
  {
    var n := c as int;
    if n < 0x80 then [n]
    else if n < 0x800 then [0xC0 + n / 64, 0x80 + n % 64]
    else if n < 0x1_0000 then [0xE0 + n / 4096, 0x80 + n / 64 % 64, 0x80 + n % 64]
    else [0xF0 + n / 262144, 0x80 + n / 4096 % 64, 0x80 + n / 64 % 64, 0x80 + n % 64]
  }

  function Utf8Text(s: string): seq<nat> {
    if s == "" then [] else Utf8Text(s[..|s| - 1]) + Utf8(s[|s| - 1])
  }

  lemma {:induction false} ByteLengthIsUtf8(s: string)
    ensures ByteLength(s) == |Utf8Text(s)|
  {
    if s != "" { ByteLengthIsUtf8(s[..|s| - 1]); }
  }

  /** Why a text is refused: first the number of its bytes, then a character outside the alphabet. */
  lemma DecodeRefusals(s: string)
    ensures Decode(s) == BadLength <==> |Utf8Text(s)| != 25
    ensures Decode(s) == BadCharacter <==>
              |Utf8Text(s)| == 25 && exists c :: c in s && c !in "0123456789abcdefghijklmnopqrstuvwxyz"
  {
    ByteLengthIsUtf8(s);
    AlphabetIsListed();
    hide Utf8Text, ByteLength, Stripped, Value, Zeros, DigitsOf;
    if !Base36Text(s) {
      var i :| 0 <= i < |s| && !InAlphabet(s[i]);
      assert s[i] in s;
    } else {
      assert forall c :: c in s ==> InAlphabet(c);
    }
  }

  lemma AlphabetIsListed()
    ensures forall c: char :: InAlphabet(c) <==> c in "0123456789abcdefghijklmnopqrstuvwxyz"
  {
    var letters := "0123456789abcdefghijklmnopqrstuvwxyz";
    forall c: char | InAlphabet(c)
      ensures c in letters
    {
      assert letters[DigitOf(c)] == c;
    }
  }

  /** An identifier is read by what follows its prefix, and refused as such exactly when it does not begin with it. */
  lemma ParseByPrefix(prefix: string, s: string)
    ensures Parse(prefix, s) == BadPrefix <==> !exists rest :: s == prefix + rest
    ensures forall rest :: s == prefix + rest ==> Parse(prefix, s) == Parsed(Decode(rest))
  {
    hide Decode;
    if prefix <= s {
      assert s == prefix + s[|prefix|..];
    }
    forall rest | s == prefix + rest
      ensures prefix <= s && s[|prefix|..] == rest
    {
    }
  }
}
