/** Small shared vocabulary: optional values, FIFO channels and sequence helpers. */
module Prelude {

  type byte = b: int | 0 <= b < 256

  datatype Option<+T> = None | Some(value: T)

  /**
   * A FIFO channel, kept as the log of everything ever sent and a read cursor.
   * What is still in the channel is the part of the log behind the cursor, so the
   * history that the properties talk about comes with the channel itself.
   */
  datatype Channel<T> = Channel(sent: seq<T>, taken: nat) {
    ghost predicate Valid() {
      taken <= |sent|
    }

    ghost predicate Empty() {
      taken == |sent|
    }

    function Queued(): int {
      |sent| - taken
    }

    function Send(x: T): Channel<T> {
      Channel(sent + [x], taken)
    }

    function Head(): T
      requires taken < |sent|
    {
      sent[taken]
    }

    function Take(): Channel<T>
      requires taken < |sent|
    {
      Channel(sent, taken + 1)
    }
  }

  function Min(a: int, b: int): int {
    if a < b then a else b
  }

  function Max(a: int, b: int): int {
    if a < b then b else a
  }

  function Clamp(x: int, lo: int, hi: int): int {
    Max(lo, Min(x, hi))
  }

  /** The elements of s that satisfy p, in order. */
  ghost function Filter<T>(p: T -> bool, s: seq<T>): seq<T> {
    if s == [] then []
    else Filter(p, s[..|s| - 1]) + if p(s[|s| - 1]) then [s[|s| - 1]] else []
  }

  lemma FilterSnoc<T>(p: T -> bool, s: seq<T>, x: T)
    ensures Filter(p, s + [x]) == Filter(p, s) + if p(x) then [x] else []
  {
    assert (s + [x])[..|s|] == s;
  }

  lemma {:induction false} FilterConcat<T>(p: T -> bool, a: seq<T>, b: seq<T>)
    ensures Filter(p, a + b) == Filter(p, a) + Filter(p, b)
  {
    if b == [] {
      assert a + b == a;
    } else {
      var b' := b[..|b| - 1];
      FilterConcat(p, a, b');
      assert a + b == (a + b') + [b[|b| - 1]];
      FilterSnoc(p, a + b', b[|b| - 1]);
    }
  }

  /** A prefix of the log filters to a prefix of the filtered log. */
  lemma FilterPrefix<T>(p: T -> bool, s: seq<T>, n: nat)
    requires n <= |s|
    ensures Filter(p, s[..n]) <= Filter(p, s)
  {
    assert s == s[..n] + s[n..];
    FilterConcat(p, s[..n], s[n..]);
  }

  /** Run a step function over a list, first element first. */
  ghost function Fold<S, M>(step: (S, M) -> S, s: S, ms: seq<M>): S {
    if ms == [] then s else step(Fold(step, s, ms[..|ms| - 1]), ms[|ms| - 1])
  }

  lemma FoldSnoc<S, M>(step: (S, M) -> S, s: S, ms: seq<M>, m: M)
    ensures Fold(step, s, ms + [m]) == step(Fold(step, s, ms), m)
  {
    assert (ms + [m])[..|ms|] == ms;
  }

  lemma {:induction false} FoldConcat<S, M>(step: (S, M) -> S, s: S, a: seq<M>, b: seq<M>)
    ensures Fold(step, s, a + b) == Fold(step, Fold(step, s, a), b)
  {
    if b == [] {
      assert a + b == a;
    } else {
      var most := b[..|b| - 1];
      FoldConcat(step, s, a, most);
      assert a + b == (a + most) + [b[|b| - 1]];
      FoldSnoc(step, s, a + most, b[|b| - 1]);
    }
  }

  /** The lists that f gives for the elements of xs, one after another. */
  ghost function FlatMap<T, U>(f: T -> seq<U>, xs: seq<T>): seq<U> {
    if xs == [] then [] else FlatMap(f, xs[..|xs| - 1]) + f(xs[|xs| - 1])
  }

  lemma NothingMapped<T, U>(f: T -> seq<U>)
    ensures FlatMap(f, []) == []
  {
  }

  lemma FlatMapNext<T, U>(f: T -> seq<U>, xs: seq<T>, k: nat)
    requires k < |xs|
    ensures FlatMap(f, xs[..k + 1]) == FlatMap(f, xs[..k]) + f(xs[k])
  {
    assert xs[..k + 1][..k] == xs[..k];
  }

  /** The last n elements, or all of them if there are fewer. */
  function Last<T>(s: seq<T>, n: nat): seq<T> {
    if |s| <= n then s else s[|s| - n..]
  }

  /** Keeping the last n of what was kept and what is new keeps the last n of everything. */
  lemma LastAppend<T>(s: seq<T>, t: seq<T>, n: nat)
    ensures Last(Last(s, n) + t, n) == Last(s + t, n)
  {
  }

  lemma EuclidUnique(x: int, n: int, q: int, r: int)
    requires n > 0 && x == q * n + r && 0 <= r < n
    ensures x % n == r
  {
    var d := x / n - q;
    assert x == (x / n) * n + x % n;
    assert d * n == r - x % n;
    Multiples(d, n);
  }

  lemma Multiples(d: int, n: int)
    requires n > 0
    ensures d >= 1 ==> d * n >= n
    ensures d <= -1 ==> d * n <= -n
  {
  }
}
