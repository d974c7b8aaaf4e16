/**
 * `str::cmp` compares UTF-8 bytes. That is the order of code points, which is what lets the
 * rest of the project sort strings character by character.
 */
module Utf8Order {
  import opened Prelude
  import opened Utf8
  import opened TextOrder

  /** Lexicographic order of bytes. */
  predicate BytesLeq(a: seq<byte>, b: seq<byte>) {
    a == [] || (b != [] && (a[0] < b[0] || (a[0] == b[0] && BytesLeq(a[1..], b[1..]))))
  }

  lemma {:induction false} SamePrefix(p: seq<byte>, a: seq<byte>, b: seq<byte>)
    ensures BytesLeq(p + a, p + b) <==> BytesLeq(a, b)
  {
    if p == [] {
      assert p + a == a && p + b == b;
    } else {
      SamePrefix(p[1..], a, b);
      assert (p + a)[1..] == p[1..] + a && (p + b)[1..] == p[1..] + b;
    }
  }

  /** Where two byte strings first differ, and which one is smaller there. */
  predicate DiffersAt(a: seq<byte>, b: seq<byte>, k: nat) {
    k < |a| && k < |b| && a[..k] == b[..k] && a[k] < b[k]
  }

  lemma DiffersDecides(a: seq<byte>, b: seq<byte>, k: nat, x: seq<byte>, y: seq<byte>)
    requires DiffersAt(a, b, k)
    ensures BytesLeq(a + x, b + y) && !BytesLeq(b + y, a + x)
  {
    assert a + x == a[..k] + (a[k..] + x) && b + y == a[..k] + (b[k..] + y);
    SamePrefix(a[..k], a[k..] + x, b[k..] + y);
    SamePrefix(a[..k], b[k..] + y, a[k..] + x);
  }

  /** Dividing by 64 keeps the order of the high part, and equal high parts leave it to the low one. */
  lemma SplitBy64(m: nat, n: nat)
    requires m < n
    ensures m / 64 < n / 64 || (m / 64 == n / 64 && m % 64 < n % 64)
  {
  }

  /** The encodings of two characters first differ at a byte that orders them as their code points. */
  lemma CharsDiffer(c: char, d: char) returns (k: nat)
    requires c < d
    ensures DiffersAt(EncodeChar(c), EncodeChar(d), k)
  {
    hide DiffersAt;
    if c as int < 0x10000 {
      k := ShortCharsDiffer(c, d);
    } else {
      k := LongCharsDiffer(c, d);
    }
  }

  lemma ShortCharsDiffer(c: char, d: char) returns (k: nat)
    requires c < d && c as int < 0x10000
    ensures DiffersAt(EncodeChar(c), EncodeChar(d), k)
  {
    hide LeadWidth, IsContinuation;
    var m, n := c as int, d as int;
    var a, b := EncodeChar(c), EncodeChar(d);
    SplitBy64(m, n);
    if |a| != |b| || m < 0x80 {
      k := 0;
    } else if |a| == 2 {
      k := if a[0] < b[0] then 0 else 1;
    } else {
      if m / 64 < n / 64 { SplitBy64(m / 64, n / 64); }
      k := if a[0] < b[0] then 0 else if a[1] < b[1] then 1 else 2;
    }
    Agree(a, b, k);
  }

  lemma LongCharsDiffer(c: char, d: char) returns (k: nat)
    requires c < d && c as int >= 0x10000
    ensures DiffersAt(EncodeChar(c), EncodeChar(d), k)
  {
    hide LeadWidth, IsContinuation;
    var m, n := c as int, d as int;
    var a, b := EncodeChar(c), EncodeChar(d);
    SplitBy64(m, n);
    if m / 64 < n / 64 { SplitBy64(m / 64, n / 64); }
    if m / 64 / 64 < n / 64 / 64 { SplitBy64(m / 64 / 64, n / 64 / 64); }
    k := if a[0] < b[0] then 0 else if a[1] < b[1] then 1 else if a[2] < b[2] then 2 else 3;
    Agree(a, b, k);
  }

  lemma Agree(a: seq<byte>, b: seq<byte>, k: nat)
    requires k < |a| && k < |b| && forall i :: 0 <= i < k ==> a[i] == b[i]
    ensures a[..k] == b[..k]
  {
  }

  /** Comparing bytes is comparing characters. */
  lemma {:induction false} BytesSortAsCharacters(a: string, b: string)
    ensures BytesLeq(Encode(a), Encode(b)) <==> Leq(a, b)
  {
    hide EncodeChar;
    if a != [] && b != [] {
      if a[0] == b[0] {
        SamePrefix(EncodeChar(a[0]), Encode(a[1..]), Encode(b[1..]));
        BytesSortAsCharacters(a[1..], b[1..]);
      } else if a[0] < b[0] {
        var k := CharsDiffer(a[0], b[0]);
        DiffersDecides(EncodeChar(a[0]), EncodeChar(b[0]), k, Encode(a[1..]), Encode(b[1..]));
      } else {
        var k := CharsDiffer(b[0], a[0]);
        DiffersDecides(EncodeChar(b[0]), EncodeChar(a[0]), k, Encode(b[1..]), Encode(a[1..]));
      }
    }
  }
}
