/**
 UTF-8 as RFC 3629 defines it (section 3 for the encoding, section 4 for the byte grammar), and the
 incremental decoder with U+FFFD replacement: one replacement for each maximal subpart of an
 ill-formed sequence (Unicode Standard, section 3.9).
 */
module Utf8 {
  type Byte = b: int | 0 <= b < 256
  type Bytes = seq<Byte>

  /** A Unicode scalar value: a code point that is not a surrogate. */
  type Scalar = c: int | 0 <= c < 0xD800 || 0xE000 <= c < 0x110000
  type Text = seq<Scalar>

  const REPLACEMENT: Scalar := 0xFFFD

  // ---------------------------------------------------------------- encoding

  function EncodeOne(c: Scalar): Bytes {
    if c < 0x80 then [c]
    else if c < 0x800 then [0xC0 + c / 64, 0x80 + c % 64]
    else if c < 0x10000 then [0xE0 + c / 4096, 0x80 + c / 64 % 64, 0x80 + c % 64]
    else [0xF0 + c / 262144, 0x80 + c / 4096 % 64, 0x80 + c / 64 % 64, 0x80 + c % 64]
  }

  function Encode(text: Text): Bytes {
    if text == [] then [] else EncodeOne(text[0]) + Encode(text[1..])
  }

  /** The example of section 7 of RFC 3629: "A", NOT IDENTICAL TO, ALPHA, ".". */
  lemma Rfc3629Example()
    ensures EncodeOne(0x41) + EncodeOne(0x2262) + EncodeOne(0x391) + EncodeOne(0x2E)
            == [0x41, 0xE2, 0x89, 0xA2, 0xCE, 0x91, 0x2E]
    ensures EncodeOne(0x233B4) == [0xF0, 0xA3, 0x8E, 0xB4]
  {
  }

  // ---------------------------------------------------------------- scanning

  /** How many bytes a sequence with this lead byte has; 0 if no sequence starts with it. */
  function Need(lead: Byte): nat {
    if lead < 0x80 then 1
    else if 0xC2 <= lead <= 0xDF then 2
    else if 0xE0 <= lead <= 0xEF then 3
    else if 0xF0 <= lead <= 0xF4 then 4
    else 0
  }

  predicate Tail(b: Byte) {
    0x80 <= b <= 0xBF
  }

  /** The second byte excludes overlong forms, surrogates and values past U+10FFFF. */
  predicate Second(lead: Byte, b: Byte) {
    if lead == 0xE0 then 0xA0 <= b <= 0xBF
    else if lead == 0xED then 0x80 <= b <= 0x9F
    else if lead == 0xF0 then 0x90 <= b <= 0xBF
    else if lead == 0xF4 then 0x80 <= b <= 0x8F
    else Tail(b)
  }

  /** What stands at the front of a byte sequence: a character, an ill-formed subpart of the given
      length, or a so far well-formed sequence that ends too early. */
  datatype Front = Whole(c: Scalar, n: nat) | Broken(n: nat) | Partial

  function Scan(bs: Bytes): (f: Front)
    requires bs != []
    ensures f.Whole? || f.Broken? ==> 1 <= f.n <= |bs|
  {
    var need := Need(bs[0]);
    if need == 0 then Broken(1)
    else if need == 1 then Whole(bs[0], 1)
    else if |bs| < 2 then Partial
    else if !Second(bs[0], bs[1]) then Broken(1)
    else if need == 2 then Whole(Join2(bs[0], bs[1]), 2)
    else if |bs| < 3 then Partial
    else if !Tail(bs[2]) then Broken(2)
    else if need == 3 then Whole(Join3(bs[0], bs[1], bs[2]), 3)
    else if |bs| < 4 then Partial
    else if !Tail(bs[3]) then Broken(3)
    else Whole(Join4(bs[0], bs[1], bs[2], bs[3]), 4)
  }

  function Join2(b0: int, b1: int): int {
    (b0 - 0xC0) * 64 + (b1 - 0x80)
  }

  function Join3(b0: int, b1: int, b2: int): int {
    (b0 - 0xE0) * 4096 + (b1 - 0x80) * 64 + (b2 - 0x80)
  }

  function Join4(b0: int, b1: int, b2: int, b3: int): int {
    (b0 - 0xF0) * 262144 + (b1 - 0x80) * 4096 + (b2 - 0x80) * 64 + (b3 - 0x80)
  }

  /** More input never changes a verdict already reached. */
  lemma ScanStable(bs: Bytes, more: Bytes)
    requires bs != [] && !Scan(bs).Partial?
    ensures Scan(bs + more) == Scan(bs)
  {
  }

  lemma Whole2(c: Scalar, bs: Bytes)
    requires 0x80 <= c < 0x800 && |bs| >= 2 && bs[0] == 0xC0 + c / 64 && bs[1] == 0x80 + c % 64
    ensures Scan(bs) == Whole(c, 2)
  {
  }

  lemma Whole3(c: Scalar, bs: Bytes)
    requires 0x800 <= c < 0x10000 && |bs| >= 3
    requires bs[0] == 0xE0 + c / 4096 && bs[1] == 0x80 + c / 64 % 64 && bs[2] == 0x80 + c % 64
    ensures Scan(bs) == Whole(c, 3)
  {
    var x := c / 64;
    assert c == 64 * x + c % 64 && x == 64 * (x / 64) + x % 64 && x / 64 == c / 4096;
  }

  lemma Whole4(c: Scalar, bs: Bytes)
    requires 0x10000 <= c && |bs| >= 4
    requires bs[0] == 0xF0 + c / 262144 && bs[1] == 0x80 + c / 4096 % 64
    requires bs[2] == 0x80 + c / 64 % 64 && bs[3] == 0x80 + c % 64
    ensures Scan(bs) == Whole(c, 4)
  {
    var x, y := c / 64, c / 4096;
    assert c == 64 * x + c % 64 && x == 64 * y + x % 64 && y == 64 * (y / 64) + y % 64 && y / 64 == c / 262144;
  }

  /** Decoding undoes encoding, one character at a time. */
  lemma ScanWhole(c: Scalar, more: Bytes)
    ensures Scan(EncodeOne(c) + more) == Whole(c, |EncodeOne(c)|)
  {
    var bs := EncodeOne(c) + more;
    if c < 0x80 {
    } else if c < 0x800 {
      Whole2(c, bs);
    } else if c < 0x10000 {
      Whole3(c, bs);
    } else {
      Whole4(c, bs);
    }
  }

  /** A proper prefix of a character's encoding is incomplete, not ill-formed. */
  lemma ScanCut(c: Scalar, k: nat)
    requires 0 < k < |EncodeOne(c)|
    ensures Scan(EncodeOne(c)[..k]) == Partial
  {
    var bs := EncodeOne(c)[..k];
    assert bs[0] == EncodeOne(c)[0];
    if k >= 2 {
      assert bs[1] == EncodeOne(c)[1];
    }
    if k >= 3 {
      assert bs[2] == EncodeOne(c)[2];
    }
  }

  /** Only the canonical encoding of a character is read as that character. */
  lemma ScanCanonical(bs: Bytes)
    requires bs != [] && Scan(bs).Whole?
    ensures bs[..Scan(bs).n] == EncodeOne(Scan(bs).c)
  {
    var f := Scan(bs);
    if f.n == 3 {
      Canonical3(bs[0], bs[1], bs[2]);
    } else if f.n == 4 {
      Canonical4(bs[0], bs[1], bs[2], bs[3]);
    }
  }

  lemma Canonical3(b0: Byte, b1: Byte, b2: Byte)
    requires Need(b0) == 3 && Second(b0, b1) && Tail(b2)
    ensures var c := Join3(b0, b1, b2);
            0x800 <= c < 0x10000 && b0 == 0xE0 + c / 4096 && b1 == 0x80 + c / 64 % 64 && b2 == 0x80 + c % 64
  {
    var c, x := Join3(b0, b1, b2), (b0 - 0xE0) * 64 + (b1 - 0x80);
    assert c == 64 * x + (b2 - 0x80);
    assert c / 64 == x && c / 4096 == x / 64;
  }

  lemma Canonical4(b0: Byte, b1: Byte, b2: Byte, b3: Byte)
    requires Need(b0) == 4 && Second(b0, b1) && Tail(b2) && Tail(b3)
    ensures var c := Join4(b0, b1, b2, b3);
            && 0x10000 <= c < 0x110000 && b0 == 0xF0 + c / 262144 && b1 == 0x80 + c / 4096 % 64
            && b2 == 0x80 + c / 64 % 64 && b3 == 0x80 + c % 64
  {
    var y := (b0 - 0xF0) * 64 + (b1 - 0x80);
    var x := 64 * y + (b2 - 0x80);
    var c := Join4(b0, b1, b2, b3);
    assert c == 64 * x + (b3 - 0x80);
    assert c / 64 == x && x / 64 == y && c / 4096 == y && c / 262144 == y / 64;
  }

  /** The bytes are the beginning of a character's encoding, and not all of it. */
  ghost predicate Begins(bs: Bytes) {
    exists c: Scalar :: BeginsOne(bs, c)
  }

  predicate BeginsOne(bs: Bytes, c: Scalar) {
    bs < EncodeOne(c)
  }

  /** The least second byte that may follow `lead`. */
  function LeastSecond(lead: Byte): Byte {
    if lead == 0xE0 then 0xA0 else if lead == 0xF0 then 0x90 else 0x80
  }

  lemma Complete2(b0: Byte)
    requires Need(b0) == 2
    ensures BeginsOne([b0], Join2(b0, 0x80))
  {
    var c := Join2(b0, 0x80);
    assert c / 64 == b0 - 0xC0;
  }

  lemma Complete3(b0: Byte, b1: Byte)
    requires Need(b0) == 3 && Second(b0, b1)
    ensures Scan([b0, b1, 0x80]).Whole? && BeginsOne([b0, b1], Scan([b0, b1, 0x80]).c) && BeginsOne([b0], Scan([b0, b1, 0x80]).c)
  {
    Canonical3(b0, b1, 0x80);
  }

  lemma Complete4(b0: Byte, b1: Byte, b2: Byte)
    requires Need(b0) == 4 && Second(b0, b1) && Tail(b2)
    ensures var f := Scan([b0, b1, b2, 0x80]);
            f.Whole? && BeginsOne([b0, b1, b2], f.c) && BeginsOne([b0, b1], f.c) && BeginsOne([b0], f.c)
  {
    Canonical4(b0, b1, b2, 0x80);
  }

  lemma LeadBegins(b0: Byte)
    requires Need(b0) >= 2
    ensures Begins([b0])
  {
    if Need(b0) == 2 {
      Complete2(b0);
    } else if Need(b0) == 3 {
      Complete3(b0, LeastSecond(b0));
    } else {
      Complete4(b0, LeastSecond(b0), 0x80);
    }
  }

  lemma PairBegins(b0: Byte, b1: Byte)
    requires Need(b0) >= 3 && Second(b0, b1)
    ensures Begins([b0, b1])
  {
    if Need(b0) == 3 {
      Complete3(b0, b1);
    } else {
      Complete4(b0, b1, 0x80);
    }
  }

  lemma PartialBegins(bs: Bytes)
    requires bs != [] && Scan(bs) == Partial
    ensures Begins(bs)
  {
    if |bs| == 1 {
      LeadBegins(bs[0]);
      assert bs == [bs[0]];
    } else if |bs| == 2 {
      PairBegins(bs[0], bs[1]);
      assert bs == [bs[0], bs[1]];
    } else {
      Complete4(bs[0], bs[1], bs[2]);
      assert bs == [bs[0], bs[1], bs[2]];
    }
  }

  /** Input is kept back exactly when it is the proper beginning of some character. */
  lemma PartialExact(bs: Bytes)
    requires bs != []
    ensures Scan(bs) == Partial <==> Begins(bs)
  {
    if Scan(bs) == Partial {
      PartialBegins(bs);
    }
    if Begins(bs) {
      var c: Scalar :| BeginsOne(bs, c);
      ScanCut(c, |bs|);
      assert EncodeOne(c)[..|bs|] == bs;
    }
  }

  /** The replaced subpart is maximal: it is one byte or the beginning of some character, and with its
      next byte it begins no character at all. */
  lemma BrokenIsMaximal(bs: Bytes, c: Scalar)
    requires bs != [] && Scan(bs).Broken?
    ensures Scan(bs).n == 1 || Begins(bs[..Scan(bs).n])
    ensures Scan(bs).n < |bs| ==> !(bs[..Scan(bs).n + 1] <= EncodeOne(c))
  {
    var n := Scan(bs).n;
    if n > 1 {
      assert Scan(bs[..n]) == Partial;
      PartialBegins(bs[..n]);
    }
    if n < |bs| {
      NotCut(bs, c);
    }
  }

  lemma NotCut(bs: Bytes, c: Scalar)
    requires bs != [] && Scan(bs).Broken? && Scan(bs).n < |bs|
    ensures !(bs[..Scan(bs).n + 1] <= EncodeOne(c))
  {
    var k := Scan(bs).n + 1;
    if bs[..k] <= EncodeOne(c) {
      assert Scan(bs[..k]).Broken?;
      assert EncodeOne(c)[..k] == bs[..k] && EncodeOne(c) + [] == EncodeOne(c);
      ScanWhole(c, []);
      if k < |EncodeOne(c)| {
        ScanCut(c, k);
      }
    }
  }

  // ---------------------------------------------------------------- decoding

  /** The text decoded so far and the bytes kept back for the next chunk. */
  datatype Decoded = Decoded(text: Text, rest: Bytes)

  /** Decode as much as can be decided without knowing what follows. */
  function Decode(bs: Bytes): Decoded {
    if bs == [] || Scan(bs).Partial? then Decoded([], bs)
    else
      var d := Decode(bs[Scan(bs).n..]);
      Decoded([Emit(Scan(bs))] + d.text, d.rest)
  }

  /** A character stands for itself, an ill-formed subpart for one replacement character. */
  function Emit(f: Front): Scalar {
    if f.Whole? then f.c else REPLACEMENT
  }

  /** At the end of the stream an incomplete sequence becomes one replacement character. */
  function Flush(rest: Bytes): Text {
    if rest == [] then [] else [REPLACEMENT]
  }

  /** The text of a complete byte stream. */
  function DecodeAll(bs: Bytes): Text {
    Decode(bs).text + Flush(Decode(bs).rest)
  }

  /** Decoding `a`, then what it kept back together with `b`. */
  function Resume(a: Decoded, b: Bytes): Decoded {
    Decoded(a.text + Decode(a.rest + b).text, Decode(a.rest + b).rest)
  }

  lemma ResumeAfter(x: Scalar, d: Decoded, b: Bytes)
    ensures Resume(Decoded([x] + d.text, d.rest), b) == Decoded([x] + Resume(d, b).text, Resume(d, b).rest)
  {
    assert [x] + d.text + Decode(d.rest + b).text == [x] + (d.text + Decode(d.rest + b).text);
  }

  /** Cutting the input anywhere and carrying the kept-back bytes over changes nothing. */
  lemma {:induction false} DecodeSplit(a: Bytes, b: Bytes)
    ensures Decode(a + b) == Resume(Decode(a), b)
    decreases |a|
  {
    if a == [] {
      assert a + b == b;
    } else if !Scan(a).Partial? {
      var f := Scan(a);
      ScanStable(a, b);
      assert (a + b)[f.n..] == a[f.n..] + b;
      DecodeSplit(a[f.n..], b);
      ResumeAfter(Emit(f), Decode(a[f.n..]), b);
    }
  }

  lemma DecodeAllSplit(a: Bytes, b: Bytes)
    ensures DecodeAll(a + b) == Decode(a).text + DecodeAll(Decode(a).rest + b)
  {
    DecodeSplit(a, b);
    var d, e := Decode(a), Decode(Decode(a).rest + b);
    var p, q, r := d.text, e.text, Flush(e.rest);
    assert DecodeAll(a + b) == (p + q) + r;
    assert (p + q) + r == p + (q + r);
  }

  // ---------------------------------------------------------------- what decoding means

  function Concat<T>(parts: seq<seq<T>>): seq<T> {
    if parts == [] then [] else parts[0] + Concat(parts[1..])
  }

  /** Some character is encoded at the front of the bytes. */
  ghost predicate StartsWhole(bs: Bytes) {
    exists c: Scalar :: EncodeOne(c) <= bs
  }

  /** The bytes are a character's encoding or the beginning of one. */
  ghost predicate Extends(bs: Bytes) {
    exists c: Scalar :: bs <= EncodeOne(c)
  }

  /** An ill-formed stretch that is replaced as one: no character stands at its front, it is a single
      byte or the beginning of a character, and it ends where the bytes do or where the next byte no
      longer continues any character. */
  ghost predicate IllFormed(part: Bytes, rest: Bytes) {
    && part != [] && (|part| == 1 || Begins(part))
    && !StartsWhole(part + rest)
    && (rest != [] ==> !Extends(part + [rest[0]]))
  }

  /** The text reads the bytes part by part: each part is the encoding of its character, or an
      ill-formed stretch read as U+FFFD. */
  ghost predicate Reads(bs: Bytes, parts: seq<Bytes>, text: Text) {
    && |parts| == |text| && Concat(parts) == bs
    && forall i :: 0 <= i < |parts| ==> PartReads(parts[i], Concat(parts[i + 1..]), text[i])
  }

  ghost predicate PartReads(part: Bytes, rest: Bytes, c: Scalar) {
    part == EncodeOne(c) || (c == 0xFFFD && IllFormed(part, rest))
  }

  lemma ReadsCons(part: Bytes, rest: Bytes, c: Scalar, parts: seq<Bytes>, text: Text)
    requires PartReads(part, rest, c) && Reads(rest, parts, text)
    ensures Reads(part + rest, [part] + parts, [c] + text)
  {
    var parts', text' := [part] + parts, [c] + text;
    assert parts'[1..] == parts;
    forall i | 0 <= i < |parts'| ensures PartReads(parts'[i], Concat(parts'[i + 1..]), text'[i]) {
      if i > 0 {
        assert parts'[i + 1..] == parts[i - 1 + 1..];
        assert PartReads(parts[i - 1], Concat(parts[i - 1 + 1..]), text[i - 1]);
      }
    }
  }

  lemma WholeIsScanned(bs: Bytes)
    requires bs != []
    ensures StartsWhole(bs) <==> Scan(bs).Whole?
  {
    if StartsWhole(bs) {
      var c: Scalar :| EncodeOne(c) <= bs;
      assert bs == EncodeOne(c) + bs[|EncodeOne(c)|..];
      ScanWhole(c, bs[|EncodeOne(c)|..]);
    }
    if Scan(bs).Whole? {
      ScanCanonical(bs);
      assert EncodeOne(Scan(bs).c) <= bs;
    }
  }

  /** A broken stretch ends where its next byte continues no character. */
  lemma BrokenStops(bs: Bytes)
    requires bs != [] && Scan(bs).Broken? && Scan(bs).n < |bs|
    ensures !Extends(bs[..Scan(bs).n + 1])
  {
    forall c: Scalar ensures !(bs[..Scan(bs).n + 1] <= EncodeOne(c)) {
      BrokenIsMaximal(bs, c);
    }
  }

  lemma DecodeAllStep(bs: Bytes)
    requires bs != [] && !Scan(bs).Partial?
    ensures DecodeAll(bs) == [Emit(Scan(bs))] + DecodeAll(bs[Scan(bs).n..])
  {
  }

  lemma BrokenIsIllFormed(bs: Bytes)
    requires bs != [] && Scan(bs).Broken?
    ensures IllFormed(bs[..Scan(bs).n], bs[Scan(bs).n..])
  {
    var n := Scan(bs).n;
    assert bs[..n] + bs[n..] == bs;
    WholeIsScanned(bs);
    BrokenIsMaximal(bs, 0);
    if n < |bs| {
      BrokenStops(bs);
      assert bs[..n + 1] == bs[..n] + [bs[n..][0]];
    }
  }

  lemma PartialIsIllFormed(bs: Bytes)
    requires bs != [] && Scan(bs) == Partial
    ensures IllFormed(bs, [])
  {
    PartialBegins(bs);
    WholeIsScanned(bs);
    assert bs + [] == bs;
  }

  lemma TailReads(bs: Bytes)
    requires bs != [] && Scan(bs) == Partial
    ensures Reads(bs, [bs], DecodeAll(bs))
  {
    PartialIsIllFormed(bs);
    ReadsCons(bs, [], 0xFFFD, [], []);
    assert bs + [] == bs && [bs] + [] == [bs] && DecodeAll(bs) == [0xFFFD] + [];
  }

  lemma FrontReads(bs: Bytes)
    requires bs != [] && !Scan(bs).Partial?
    ensures PartReads(bs[..Scan(bs).n], bs[Scan(bs).n..], Emit(Scan(bs)))
  {
    if Scan(bs).Whole? {
      ScanCanonical(bs);
    } else {
      BrokenIsIllFormed(bs);
    }
  }

  lemma StepReads(bs: Bytes, later: seq<Bytes>, part: Bytes, rest: Bytes)
    requires bs != [] && !Scan(bs).Partial? && part == bs[..Scan(bs).n] && rest == bs[Scan(bs).n..]
    requires Reads(rest, later, DecodeAll(rest))
    ensures Reads(bs, [part] + later, DecodeAll(bs))
  {
    FrontReads(bs);
    DecodeAllStep(bs);
    ReadsCons(part, rest, Emit(Scan(bs)), later, DecodeAll(rest));
    assert part + rest == bs;
  }

  /** The decoded text reads the bytes, whatever they are. */
  lemma {:induction false} DecodeReads(bs: Bytes) returns (parts: seq<Bytes>)
    ensures Reads(bs, parts, DecodeAll(bs))
    decreases |bs|
  {
    if bs == [] {
      parts := [];
    } else if Scan(bs) == Partial {
      TailReads(bs);
      parts := [bs];
    } else {
      var part, rest := bs[..Scan(bs).n], bs[Scan(bs).n..];
      var later := DecodeReads(rest);
      StepReads(bs, later, part, rest);
      parts := [part] + later;
    }
  }

  /** If the bytes go on past `part` as a character does, so does their next byte. */
  lemma BeginsPast(part: Bytes, rest: Bytes, bs: Bytes)
    requires part <= bs <= part + rest && |part| < |bs| && (Begins(bs) || Extends(bs))
    ensures rest != [] && Extends(part + [rest[0]])
  {
    var c: Scalar :| bs <= EncodeOne(c);
    assert bs[|part|] == rest[0];
    assert part + [rest[0]] == bs[..|part| + 1];
    assert part + [rest[0]] <= EncodeOne(c);
  }

  lemma LongerExtends(bs: Bytes, part: Bytes, n: nat)
    requires part <= bs && n < |part| && Begins(part)
    ensures Extends(bs[..n + 1])
  {
    var c: Scalar :| BeginsOne(part, c);
    assert bs[..n + 1] == part[..n + 1];
    assert bs[..n + 1] <= EncodeOne(c);
  }

  /** A replaced stretch is exactly the one the scanner finds. */
  lemma IllFormedIsScanned(part: Bytes, rest: Bytes)
    requires IllFormed(part, rest)
    ensures var f := Scan(part + rest); (f.Broken? && f.n == |part|) || (f == Partial && rest == [])
  {
    var bs := part + rest;
    WholeIsScanned(bs);
    if Scan(bs) == Partial {
      PartialBegins(bs);
      if rest != [] {
        BeginsPast(part, rest, bs);
      }
    } else {
      BrokenLength(part, rest);
    }
  }

  lemma BrokenLength(part: Bytes, rest: Bytes)
    requires IllFormed(part, rest) && Scan(part + rest).Broken?
    ensures Scan(part + rest).n == |part|
  {
    var bs, n := part + rest, Scan(part + rest).n;
    BrokenIsMaximal(bs, 0);
    if |part| < n {
      assert part <= bs[..n] <= bs;
      BeginsPast(part, rest, bs[..n]);
    } else if n < |part| {
      BrokenStops(bs);
      LongerExtends(bs, part, n);
    }
  }

  lemma PartDecodes(part: Bytes, rest: Bytes, c: Scalar)
    requires PartReads(part, rest, c)
    ensures DecodeAll(part + rest) == [c] + DecodeAll(rest)
  {
    var bs := part + rest;
    assert bs[|part|..] == rest;
    if part == EncodeOne(c) {
      ScanWhole(c, rest);
    } else {
      IllFormedIsScanned(part, rest);
    }
    if !Scan(bs).Partial? {
      DecodeAllStep(bs);
    }
  }

  /** And it is the only text that does: reading determines the decoding. */
  lemma {:induction false} OnlyDecodeReads(bs: Bytes, parts: seq<Bytes>, text: Text)
    requires Reads(bs, parts, text)
    ensures text == DecodeAll(bs)
    decreases |parts|
  {
    if parts != [] {
      ReadsTail(bs, parts, text);
      OnlyDecodeReads(Concat(parts[1..]), parts[1..], text[1..]);
      assert PartReads(parts[0], Concat(parts[0 + 1..]), text[0]);
      PartDecodes(parts[0], Concat(parts[1..]), text[0]);
    }
  }

  lemma ReadsTail(bs: Bytes, parts: seq<Bytes>, text: Text)
    requires Reads(bs, parts, text) && parts != []
    ensures Reads(Concat(parts[1..]), parts[1..], text[1..])
  {
    forall i | 0 <= i < |parts| - 1 ensures PartReads(parts[1..][i], Concat(parts[1..][i + 1..]), text[1..][i]) {
      assert parts[1..][i + 1..] == parts[i + 2..];
      assert PartReads(parts[i + 1], Concat(parts[i + 1 + 1..]), text[i + 1]);
    }
  }

  // ---------------------------------------------------------------- the decoder

  /** Round trip: encoded text decodes to itself, with nothing kept back. */
  lemma {:induction false} RoundTrip(text: Text)
    ensures Decode(Encode(text)) == Decoded(text, []) && DecodeAll(Encode(text)) == text
  {
    if text != [] {
      ScanWhole(text[0], Encode(text[1..]));
      assert Encode(text)[|EncodeOne(text[0])|..] == Encode(text[1..]);
      RoundTrip(text[1..]);
    }
  }

  /** One round of the decoder's loop: `text` was decoded before `bs`. */
  lemma DecodeRound(text: Text, bs: Bytes)
    requires bs != [] && !Scan(bs).Partial?
    ensures var front, d, e := Scan(bs), Decode(bs), Decode(bs[Scan(bs).n..]);
            text + d.text == text + [Emit(front)] + e.text && d.rest == e.rest
  {
  }

  /** The stdlib decoder: `buffer` holds what the last chunk left undecided. */
  class IncrementalDecoder {
    var buffer: Bytes

    constructor ()
      ensures buffer == []
    {
      buffer := [];
    }

    method DecodeChunk(chunk: Bytes, final: bool) returns (text: Text)
      modifies this
      ensures text == if final then DecodeAll(old(buffer) + chunk) else Decode(old(buffer) + chunk).text
      ensures buffer == if final then [] else Decode(old(buffer) + chunk).rest
    {
      var data := buffer + chunk;
      ghost var whole := Decode(data);
      text := [];
      while data != [] && !Scan(data).Partial?
        invariant whole.text == text + Decode(data).text && whole.rest == Decode(data).rest
        decreases |data|
      {
        DecodeRound(text, data);
        text, data := text + [Emit(Scan(data))], data[Scan(data).n..];
      }
      assert Decode(data) == Decoded([], data);
      buffer := data;
      if final {
        text := text + Flush(buffer);
        buffer := [];
      }
    }
  }
}
