/**
 * UTF-8 (RFC 3629) as far as the config editor depends on it: encoding, well-formedness,
 * decoding, and the `str`/`String` operations that take byte indices.
 */
module Utf8 {

  import opened Prelude

  /** The encoding table of RFC 3629, section 3. Dafny's `char` is a Unicode scalar value. */
  function EncodeChar(c: char): (b: seq<byte>)
    ensures 1 <= |b| <= 4 && |b| == LeadWidth(b[0])
    ensures !IsContinuation(b[0])
    ensures |b| == 1 <==> c as int < 0x80
  {
    var n := c as int;
    if n < 0x80 then [n]
    else if n < 0x800 then [0xC0 + n / 64, 0x80 + n % 64]
    else if n < 0x10000 then [0xE0 + n / 64 / 64, 0x80 + n / 64 % 64, 0x80 + n % 64]
    else [0xF0 + n / 64 / 64 / 64, 0x80 + n / 64 / 64 % 64, 0x80 + n / 64 % 64, 0x80 + n % 64]
  }

  function Encode(s: string): seq<byte> {
    if s == [] then [] else EncodeChar(s[0]) + Encode(s[1..])
  }

  predicate IsContinuation(b: byte) {
    0x80 <= b < 0xC0
  }

  /** How far an iterator over well-formed text advances on a leading byte. */
  function LeadWidth(b: byte): nat {
    if b < 0x80 then 1 else if b < 0xE0 then 2 else if b < 0xF0 then 3 else 4
  }

  /** One row of the grammar of RFC 3629, section 4 (UTF8-1, UTF8-2, UTF8-3, UTF8-4). */
  predicate WellFormedChar(b: seq<byte>) {
    match |b|
    case 1 => b[0] <= 0x7F
    case 2 => 0xC2 <= b[0] <= 0xDF && IsContinuation(b[1])
    case 3 =>
      && IsContinuation(b[1]) && IsContinuation(b[2])
      && (|| (b[0] == 0xE0 && 0xA0 <= b[1])
          || 0xE1 <= b[0] <= 0xEC
          || (b[0] == 0xED && b[1] <= 0x9F)
          || 0xEE <= b[0] <= 0xEF)
    case 4 =>
      && IsContinuation(b[1]) && IsContinuation(b[2]) && IsContinuation(b[3])
      && (|| (b[0] == 0xF0 && 0x90 <= b[1])
          || 0xF1 <= b[0] <= 0xF3
          || (b[0] == 0xF4 && b[1] <= 0x8F))
    case _ => false
  }

  predicate WellFormed(b: seq<byte>) {
    b == [] ||
    var w := LeadWidth(b[0]);
    w <= |b| && WellFormedChar(b[..w]) && WellFormed(b[w..])
  }

  function CodePoint(b: seq<byte>): (n: int)
    requires WellFormedChar(b)
    ensures 0 <= n < 0xD800 || 0xE000 <= n < 0x11_0000
  {
    if |b| == 1 then b[0]
    else
      var lead: int := b[0];
      if |b| == 2 then Shift(lead - 0xC0, b[1])
      else if |b| == 3 then Shift(Shift(lead - 0xE0, b[1]), b[2])
      else Shift(Shift(Shift(lead - 0xF0, b[1]), b[2]), b[3])
  }

  /** Six more bits, taken from a continuation byte. */
  function Shift(high: int, low: byte): int {
    high * 64 + low - 0x80
  }

  function DecodeChar(b: seq<byte>): char
    requires WellFormedChar(b)
  {
    CodePoint(b) as char
  }

  function Decode(b: seq<byte>): string
    requires WellFormed(b)
  {
    if b == [] then [] else
    var w := LeadWidth(b[0]);
    [DecodeChar(b[..w])] + Decode(b[w..])
  }

  lemma EncodeCharWellFormed(c: char)
    ensures WellFormedChar(EncodeChar(c)) && DecodeChar(EncodeChar(c)) == c
  {
    var b := EncodeChar(c);
    assert WellFormedChar(b);
    assert CodePoint(b) == c as int;
  }

  lemma Unshift(high: int, low: byte)
    requires IsContinuation(low)
    ensures Shift(high, low) / 64 == high && 0x80 + Shift(high, low) % 64 == low
  {
  }

  lemma DecodeCharEncodes(b: seq<byte>)
    requires WellFormedChar(b)
    ensures EncodeChar(DecodeChar(b)) == b
  {
    var lead: int := b[0];
    match |b|
    case 1 =>
    case 2 =>
      Unshift(lead - 0xC0, b[1]);
      assert EncodeChar(DecodeChar(b)) == [b[0], b[1]];
    case 3 =>
      var high := Shift(lead - 0xE0, b[1]);
      Unshift(lead - 0xE0, b[1]);
      Unshift(high, b[2]);
      assert 0x800 <= CodePoint(b) < 0x10000;
      assert EncodeChar(DecodeChar(b)) == [b[0], b[1], b[2]];
    case 4 =>
      var high := Shift(lead - 0xF0, b[1]);
      var mid := Shift(high, b[2]);
      Unshift(lead - 0xF0, b[1]);
      Unshift(high, b[2]);
      Unshift(mid, b[3]);
      assert 0x10000 <= CodePoint(b);
      assert EncodeChar(DecodeChar(b)) == [b[0], b[1], b[2], b[3]];
  }

  /** Encoding and decoding are inverse: every well-formed byte string is one text and back. */
  lemma {:induction false} DecodeEncode(s: string)
    ensures WellFormed(Encode(s)) && Decode(Encode(s)) == s
  {
    if s != [] {
      EncodeCharWellFormed(s[0]);
      DecodeEncode(s[1..]);
      DecodeCons(EncodeChar(s[0]), Encode(s[1..]));
      assert s == [s[0]] + s[1..];
    }
  }

  lemma DecodeCons(first: seq<byte>, rest: seq<byte>)
    requires WellFormedChar(first) && |first| == LeadWidth(first[0]) && WellFormed(rest)
    ensures WellFormed(first + rest) && Decode(first + rest) == [DecodeChar(first)] + Decode(rest)
  {
    var b := first + rest;
    assert b[..|first|] == first && b[|first|..] == rest;
  }

  lemma {:induction false} EncodeDecode(b: seq<byte>)
    requires WellFormed(b)
    ensures Encode(Decode(b)) == b
  {
    if b != [] {
      var w := LeadWidth(b[0]);
      DecodeCharEncodes(b[..w]);
      EncodeDecode(b[w..]);
      assert b == b[..w] + b[w..];
    }
  }

  lemma EncodeNothing(s: string)
    requires s == []
    ensures Encode(s) == []
  {
  }

  lemma EncodeCons(s: string)
    requires s != []
    ensures Encode(s) == EncodeChar(s[0]) + Encode(s[1..])
  {
  }

  lemma {:induction false} EncodeConcat(s: string, t: string)
    ensures Encode(s + t) == Encode(s) + Encode(t)
  {
    hide Encode, EncodeChar, LeadWidth, IsContinuation;
    if s == [] {
      assert s + t == t;
      EncodeNothing(s);
    } else {
      EncodeConcat(s[1..], t);
      assert (s + t)[0] == s[0] && (s + t)[1..] == s[1..] + t;
      EncodeCons(s);
      EncodeCons(s + t);
      assert EncodeChar(s[0]) + (Encode(s[1..]) + Encode(t)) == EncodeChar(s[0]) + Encode(s[1..]) + Encode(t);
    }
  }

  /** The number of bytes is at least the number of characters, with equality on ASCII only. */
  lemma {:induction false} EncodeLength(s: string)
    ensures |s| <= |Encode(s)|
    ensures |Encode(s)| == |s| <==> IsAscii(s)
  {
    if s != [] {
      EncodeLength(s[1..]);
      assert forall i :: 0 < i < |s| ==> s[i] == s[1..][i - 1];
    }
  }

  predicate IsAscii(s: string) {
    forall i :: 0 <= i < |s| ==> s[i] as int < 0x80
  }

  /** `str::is_char_boundary`. */
  predicate IsCharBoundary(b: seq<byte>, i: nat) {
    i == |b| || (i < |b| && !IsContinuation(b[i]))
  }

  /** `str::chars().count()` */
  function CharCount(b: seq<byte>): nat
    requires WellFormed(b)
  {
    |Decode(b)|
  }

  /** `String::insert`: panics unless the index is a character boundary. */
  function InsertAt(b: seq<byte>, i: nat, c: char): seq<byte>
    requires IsCharBoundary(b, i)
  {
    b[..i] + EncodeChar(c) + b[i..]
  }

  /** `String::remove`: panics unless a character starts at the index. */
  function RemoveAt(b: seq<byte>, i: nat): seq<byte>
    requires i < |b| && IsCharBoundary(b, i)
    requires i + LeadWidth(b[i]) <= |b|
  {
    b[..i] + b[i + LeadWidth(b[i])..]
  }

  /** The start of the k-th character, or the end of the line when there is none. */
  function ByteIndex(line: seq<byte>, k: nat): (i: nat)
    requires WellFormed(line)
    ensures i <= |line|
  {
    if k == 0 || line == [] then 0
    else
      var w := LeadWidth(line[0]);
      w + ByteIndex(line[w..], k - 1)
  }

  lemma ByteIndexStep(t: string, k: nat)
    requires t != [] && k > 0
    ensures WellFormed(Encode(t)) && WellFormed(Encode(t[1..]))
    ensures ByteIndex(Encode(t), k) == |EncodeChar(t[0])| + ByteIndex(Encode(t[1..]), k - 1)
  {
    DecodeEncode(t);
    DecodeEncode(t[1..]);
    var first, rest := EncodeChar(t[0]), Encode(t[1..]);
    assert (first + rest)[|first|..] == rest;
    assert (first + rest)[0] == first[0];
  }

  /** `ByteIndex` measures exactly the first k characters, or all of them. */
  lemma {:induction false} ByteIndexMeasures(t: string, k: nat)
    ensures WellFormed(Encode(t))
    ensures ByteIndex(Encode(t), k) == |Encode(t[..if k < |t| then k else |t|])|
  {
    hide EncodeChar, LeadWidth, IsContinuation;
    DecodeEncode(t);
    if k > 0 && t != [] {
      ByteIndexStep(t, k);
      ByteIndexMeasures(t[1..], k - 1);
      var n := if k < |t| then k else |t|;
      assert t[..n][0] == t[0] && t[..n][1..] == t[1..][..n - 1];
    }
  }

  /** `ByteIndex` cuts an encoded text between its first k characters and the rest, on a boundary. */
  lemma ByteIndexCuts(t: string, k: nat)
    ensures WellFormed(Encode(t))
    ensures
      var i, n := ByteIndex(Encode(t), k), if k < |t| then k else |t|;
      && Encode(t)[..i] == Encode(t[..n]) && Encode(t)[i..] == Encode(t[n..])
      && IsCharBoundary(Encode(t), i)
      && (i < |Encode(t)| <==> k < |t|)
  {
    ByteIndexMeasures(t, k);
    var n := if k < |t| then k else |t|;
    EncodeConcat(t[..n], t[n..]);
    assert t == t[..n] + t[n..];
    var head, tail := Encode(t[..n]), Encode(t[n..]);
    assert Encode(t) == head + tail;
    if k < |t| {
      assert t[n..] != [];
      assert tail == EncodeChar(t[n]) + Encode(t[n..][1..]);
      assert Encode(t)[|head|] == tail[0];
    }
  }

  /** Inserting at the byte index of character k is inserting at character k. */
  lemma InsertAtByteIndex(t: string, k: nat, c: char)
    ensures
      var b, n := Encode(t), if k < |t| then k else |t|;
      && WellFormed(b) && IsCharBoundary(b, ByteIndex(b, k))
      && InsertAt(b, ByteIndex(b, k), c) == Encode(t[..n] + [c] + t[n..])
  {
    ByteIndexCuts(t, k);
    var n := if k < |t| then k else |t|;
    EncodeConcat(t[..n], [c]);
    EncodeConcat(t[..n] + [c], t[n..]);
    assert [c][1..] == [];
    assert Encode([c]) == EncodeChar(c) + Encode([]);
    assert Encode([c]) == EncodeChar(c);
  }

  /** Removing at the byte index of character k removes exactly that character. */
  lemma RemoveAtByteIndex(t: string, k: nat)
    requires k < |t|
    ensures WellFormed(Encode(t))
    ensures
      var b, i := Encode(t), ByteIndex(Encode(t), k);
      && i < |b| && IsCharBoundary(b, i) && i + LeadWidth(b[i]) <= |b|
      && RemoveAt(b, i) == Encode(t[..k] + t[k + 1..])
  {
    ByteIndexMeasures(t, k);
    RemoveCharacter(t, k);
  }

  lemma RemoveCharacter(t: string, k: nat)
    requires k < |t|
    ensures
      var b, i := Encode(t), |Encode(t[..k])|;
      && i < |b| && IsCharBoundary(b, i) && i + LeadWidth(b[i]) <= |b|
      && RemoveAt(b, i) == Encode(t[..k] + t[k + 1..])
  {
    hide Encode, EncodeChar, LeadWidth, IsContinuation;
    EncodeAround(t, k);
    EncodeConcat(t[..k], t[k + 1..]);
    CutOut(Encode(t[..k]), EncodeChar(t[k]), Encode(t[k + 1..]));
  }

  lemma EncodeAround(t: string, k: nat)
    requires k < |t|
    ensures Encode(t) == Encode(t[..k]) + (EncodeChar(t[k]) + Encode(t[k + 1..]))
  {
    var rest := t[k..];
    assert t == t[..k] + rest;
    EncodeConcat(t[..k], rest);
    assert rest[0] == t[k] && rest[1..] == t[k + 1..];
  }

  lemma CutOut(head: seq<byte>, first: seq<byte>, rest: seq<byte>)
    requires first != []
    ensures
      var b := head + (first + rest);
      b[|head|] == first[0] && b[..|head|] + b[|head| + |first|..] == head + rest
  {
    var b := head + (first + rest);
    assert b[..|head|] == head && b[|head| + |first|..] == rest;
  }
}
