/**
 * The order of `str::cmp` and the stable `sort_by` that the repository uses with it.
 * Strings compare character by character; `Utf8Order` proves that comparing UTF-8 bytes is the same.
 */
module TextOrder {

  predicate Leq(a: string, b: string) {
    a == [] || (b != [] && (a[0] < b[0] || (a[0] == b[0] && Leq(a[1..], b[1..]))))
  }

  predicate Less(a: string, b: string) {
    a != b && Leq(a, b)
  }

  lemma {:induction false} LeqReflexive(a: string)
    ensures Leq(a, a)
  {
    if a != [] { LeqReflexive(a[1..]); }
  }

  lemma {:induction false} LeqTotal(a: string, b: string)
    ensures Leq(a, b) || Leq(b, a)
  {
    if a != [] && b != [] { LeqTotal(a[1..], b[1..]); }
  }

  lemma {:induction false} LeqAntisymmetric(a: string, b: string)
    requires Leq(a, b) && Leq(b, a)
    ensures a == b
  {
    if a != [] {
      LeqAntisymmetric(a[1..], b[1..]);
      assert a == [a[0]] + a[1..] && b == [b[0]] + b[1..];
    }
  }

  lemma {:induction false} LeqTransitive(a: string, b: string, c: string)
    requires Leq(a, b) && Leq(b, c)
    ensures Leq(a, c)
  {
    if a != [] && a[0] == b[0] == c[0] { LeqTransitive(a[1..], b[1..], c[1..]); }
  }

  ghost predicate StrictlySorted<T>(key: T -> string, s: seq<T>) {
    forall i, j :: 0 <= i < j < |s| ==> Less(key(s[i]), key(s[j]))
  }

  ghost predicate Sorted<T>(key: T -> string, s: seq<T>) {
    forall i, j :: 0 <= i < j < |s| ==> Leq(key(s[i]), key(s[j]))
  }

  ghost predicate DistinctKeys<T>(key: T -> string, s: seq<T>) {
    forall i, j :: 0 <= i < j < |s| ==> key(s[i]) != key(s[j])
  }

  /** Insert before the first element that is not smaller, so equal keys keep their order. */
  function Insert<T>(key: T -> string, x: T, s: seq<T>): seq<T> {
    if s == [] || Leq(key(x), key(s[0])) then [x] + s else [s[0]] + Insert(key, x, s[1..])
  }

  /** `sort_by(|a, b| key(a).cmp(key(b)))` */
  function SortBy<T>(key: T -> string, s: seq<T>): seq<T> {
    if s == [] then [] else Insert(key, s[0], SortBy(key, s[1..]))
  }

  lemma {:induction false} InsertKeeps<T>(key: T -> string, x: T, s: seq<T>)
    ensures multiset(Insert(key, x, s)) == multiset(s) + multiset{x}
    ensures |Insert(key, x, s)| == |s| + 1
  {
    if s != [] && !Leq(key(x), key(s[0])) {
      InsertKeeps(key, x, s[1..]);
      assert s == [s[0]] + s[1..];
    }
  }

  lemma SortedCons<T>(key: T -> string, x: T, s: seq<T>)
    requires Sorted(key, s) && forall y :: y in s ==> Leq(key(x), key(y))
    ensures Sorted(key, [x] + s)
  {
  }

  lemma {:induction false} InsertSorted<T>(key: T -> string, x: T, s: seq<T>)
    requires Sorted(key, s)
    ensures Sorted(key, Insert(key, x, s))
  {
    if s == [] {
    } else if Leq(key(x), key(s[0])) {
      forall y | y in s ensures Leq(key(x), key(y)) {
        var i :| 0 <= i < |s| && s[i] == y;
        if i > 0 { LeqTransitive(key(x), key(s[0]), key(s[i])); }
      }
      SortedCons(key, x, s);
    } else {
      InsertSorted(key, x, s[1..]);
      InsertKeeps(key, x, s[1..]);
      LeqTotal(key(x), key(s[0]));
      forall y | y in Insert(key, x, s[1..]) ensures Leq(key(s[0]), key(y)) {
        if y != x {
          assert y in multiset(Insert(key, x, s[1..]));
          assert y in s[1..];
          var i :| 0 <= i < |s[1..]| && s[1..][i] == y;
          assert Leq(key(s[0]), key(s[i + 1]));
        }
      }
      SortedCons(key, s[0], Insert(key, x, s[1..]));
    }
  }

  /** The sorted list is a sorted permutation of its input. */
  lemma {:induction false} SortBySorts<T>(key: T -> string, s: seq<T>)
    ensures multiset(SortBy(key, s)) == multiset(s) && |SortBy(key, s)| == |s|
    ensures Sorted(key, SortBy(key, s))
  {
    if s != [] {
      SortBySorts(key, s[1..]);
      InsertKeeps(key, s[0], SortBy(key, s[1..]));
      InsertSorted(key, s[0], SortBy(key, s[1..]));
      assert s == [s[0]] + s[1..];
    }
  }

  // ----- stability ----------------------------------------------------------------------------

  /** x stands before y in the list. */
  ghost predicate Precedes<T(!new)>(s: seq<T>, x: T, y: T) {
    exists p, q :: 0 <= p < q < |s| && s[p] == x && s[q] == y
  }

  lemma PrecedesAt<T(!new)>(s: seq<T>, p: nat, q: nat)
    requires p < q < |s|
    ensures Precedes(s, s[p], s[q])
  {
  }

  lemma PrecedesCons<T(!new)>(s: seq<T>, x: T, y: T)
    requires s != [] && Precedes(s[1..], x, y)
    ensures Precedes(s, x, y)
  {
    var p, q :| 0 <= p < q < |s[1..]| && s[1..][p] == x && s[1..][q] == y;
    PrecedesAt(s, p + 1, q + 1);
  }

  /** Where an element is inserted: after all that are smaller, before the rest. */
  lemma {:induction false} InsertPlace<T>(key: T -> string, x: T, s: seq<T>) returns (k: nat)
    ensures k <= |s| && Insert(key, x, s) == s[..k] + [x] + s[k..]
    ensures forall i :: 0 <= i < k ==> key(s[i]) != key(x)
  {
    if s == [] || Leq(key(x), key(s[0])) {
      k := 0;
    } else {
      LeqReflexive(key(x));
      k := InsertPlace(key, x, s[1..]);
      k := k + 1;
      assert forall i :: 0 < i < k ==> s[i] == s[1..][i - 1];
      assert s[..k] == [s[0]] + s[1..][..k - 1] && s[k..] == s[1..][k - 1..];
    }
  }

  /** `sort_by` is stable: elements with equal keys keep their order. */
  lemma {:induction false} SortByStable<T(!new)>(key: T -> string, s: seq<T>, i: nat, j: nat)
    requires i < j < |SortBy(key, s)| && key(SortBy(key, s)[i]) == key(SortBy(key, s)[j])
    ensures Precedes(s, SortBy(key, s)[i], SortBy(key, s)[j])
  {
    hide Precedes, Insert;
    var rest, r := SortBy(key, s[1..]), SortBy(key, s);
    var k := InsertPlace(key, s[0], rest);
    assert forall n :: 0 <= n < k ==> r[n] == rest[n];
    assert forall n :: k < n < |r| ==> r[n] == rest[n - 1];
    if i == k {
      SortBySorts(key, s[1..]);
      var q := PermutedIndex(rest, s[1..], j - 1);
      PrecedesAt(s, 0, q + 1);
    } else if j != k {
      SortByStable(key, s[1..], if i < k then i else i - 1, if j < k then j else j - 1);
      PrecedesCons(s, r[i], r[j]);
    }
  }

  lemma SameMembers<T>(a: seq<T>, b: seq<T>)
    requires multiset(a) == multiset(b)
    ensures forall y :: y in a <==> y in b
  {
    forall y ensures y in a <==> y in b {
      assert y in a <==> y in multiset(a);
    }
  }

  lemma PermutedIndex<T>(a: seq<T>, b: seq<T>, i: nat) returns (j: nat)
    requires multiset(a) == multiset(b) && i < |a|
    ensures j < |b| && b[j] == a[i]
  {
    assert a[i] in multiset(a);
    j :| 0 <= j < |b| && b[j] == a[i];
  }

  lemma SortByDistinct<T>(key: T -> string, s: seq<T>)
    requires DistinctKeys(key, s)
    ensures StrictlySorted(key, SortBy(key, s))
  {
    SortBySorts(key, s);
    var r := SortBy(key, s);
    forall i, j | 0 <= i < j < |r| ensures Less(key(r[i]), key(r[j])) {
      var p := PermutedIndex(r, s, i);
      var q := PermutedIndex(r, s, j);
      if p == q {
        OccursOnce(key, s, p);
        OccursTwice(r, i, j);
      }
    }
  }

  lemma OccursOnce<T>(key: T -> string, s: seq<T>, p: nat)
    requires DistinctKeys(key, s) && p < |s|
    ensures multiset(s)[s[p]] == 1
  {
    assert s == s[..p] + [s[p]] + s[p + 1..];
    assert s[p] !in s[..p] && s[p] !in s[p + 1..];
  }

  lemma OccursTwice<T>(s: seq<T>, i: nat, j: nat)
    requires i < j < |s| && s[i] == s[j]
    ensures multiset(s)[s[i]] >= 2
  {
    assert s == s[..j] + [s[j]] + s[j + 1..];
    assert s[i] in s[..j];
  }

  /** Two strictly sorted lists with the same elements are the same list. */
  lemma {:induction false} StrictlySortedUnique<T>(key: T -> string, a: seq<T>, b: seq<T>)
    requires StrictlySorted(key, a) && StrictlySorted(key, b)
    requires forall y :: y in a <==> y in b
    ensures a == b
  {
    assert a != [] ==> a[0] in b;
    assert b != [] ==> b[0] in a;
    if a != [] {
      HeadsAgree(key, a, b);
      forall y ensures y in a[1..] <==> y in b[1..] {
        if y in a[1..] { TailAvoidsHead(key, a, y); assert y in b; }
        if y in b[1..] { TailAvoidsHead(key, b, y); assert y in a; }
      }
      StrictlySortedUnique(key, a[1..], b[1..]);
      assert a == [a[0]] + a[1..] && b == [b[0]] + b[1..];
    }
  }

  lemma HeadsAgree<T>(key: T -> string, a: seq<T>, b: seq<T>)
    requires StrictlySorted(key, a) && StrictlySorted(key, b) && a != [] && b != []
    requires forall y :: y in a <==> y in b
    ensures a[0] == b[0]
  {
    assert a[0] in b && b[0] in a;
    var i :| 0 <= i < |b| && b[i] == a[0];
    var j :| 0 <= j < |a| && a[j] == b[0];
    if i > 0 && j > 0 {
      LeqAntisymmetric(key(a[0]), key(b[0]));
    }
  }

  lemma TailAvoidsHead<T>(key: T -> string, a: seq<T>, y: T)
    requires StrictlySorted(key, a) && a != [] && y in a[1..]
    ensures y != a[0] && y in a
  {
    var i :| 0 <= i < |a[1..]| && a[1..][i] == y;
    assert Less(key(a[0]), key(a[i + 1]));
  }

  /** With distinct keys the result does not depend on the order the list came in. */
  lemma SortByCanonical<T>(key: T -> string, a: seq<T>, b: seq<T>)
    requires DistinctKeys(key, a) && DistinctKeys(key, b)
    requires forall y :: y in a <==> y in b
    ensures SortBy(key, a) == SortBy(key, b)
  {
    SortBySorts(key, a);
    SortBySorts(key, b);
    SortByDistinct(key, a);
    SortByDistinct(key, b);
    SameMembers(SortBy(key, a), a);
    SameMembers(SortBy(key, b), b);
    StrictlySortedUnique(key, SortBy(key, a), SortBy(key, b));
  }
}
