/** The pull-down menu: its entries and the stepping loop that skips separators. */
module Menus {
  import opened Prelude

  datatype ViewMode = Fleet | Config | Pipeline | Metrics | Logs | Health

  datatype MenuAction = SetView(view: ViewMode) | Edit | Restart | Filter | Help | Quit | Separator

  datatype MenuEntry = MenuEntry(caption: string, action: MenuAction)

  /** The entries of `Menu::new`. */
  function Entries(): (entries: seq<MenuEntry>)
    ensures |entries| == 13
  {
    [ MenuEntry("Fleet view          1", SetView(Fleet)),
      MenuEntry("Config view         2", SetView(Config)),
      MenuEntry("Pipeline view       3", SetView(Pipeline)),
      MenuEntry("Metrics view        4", SetView(Metrics)),
      MenuEntry("Logs view           5", SetView(Logs)),
      MenuEntry("Health view         6", SetView(Health)),
      MenuEntry("", Separator),
      MenuEntry("Edit remote config F4", Edit),
      MenuEntry("Restart agent      F6", Restart),
      MenuEntry("Filter fleet       F7", Filter),
      MenuEntry("", Separator),
      MenuEntry("Help               F1", Help),
      MenuEntry("Quit              F10", Quit) ]
  }

  // ----- the nearest selectable entry --------------------------------------------------------

  predicate Selectable(entries: seq<MenuEntry>, i: nat) {
    i < |entries| && !entries[i].action.Separator?
  }

  /** How many single steps forward lead from i to j around a cycle of n; a full turn from i to i. */
  function Ahead(n: nat, i: nat, j: nat): int {
    if j > i then j - i else j - i + n
  }

  /** The same in the direction of a step. */
  function Distance(n: nat, delta: int, i: nat, j: nat): int {
    if delta == 1 then Ahead(n, i, j) else Ahead(n, j, i)
  }

  /** j is the first selectable entry met when stepping from i in one direction. */
  ghost predicate Nearest(entries: seq<MenuEntry>, delta: int, i: nat, j: nat) {
    && Selectable(entries, j)
    && forall t: nat :: Selectable(entries, t) ==>
        Distance(|entries|, delta, i, j) <= Distance(|entries|, delta, i, t)
  }

  /** The nearest selectable entry among the first k. */
  ghost function Closest(entries: seq<MenuEntry>, delta: int, i: nat, k: nat): (best: Option<nat>)
    requires k <= |entries|
    ensures best.Some? ==> Selectable(entries, best.value) && best.value < k
    ensures forall t: nat :: t < k && Selectable(entries, t) ==>
      best.Some? && Distance(|entries|, delta, i, best.value) <= Distance(|entries|, delta, i, t)
  {
    if k == 0 then None else
    var best := Closest(entries, delta, i, k - 1);
    if !Selectable(entries, k - 1) then best
    else if best.None? then Some(k - 1)
    else if Distance(|entries|, delta, i, k - 1) < Distance(|entries|, delta, i, best.value) then Some(k - 1)
    else best
  }

  /** Where a step from i leads. */
  ghost function Stepped(entries: seq<MenuEntry>, delta: int, i: nat): (j: nat)
    requires exists t: nat :: Selectable(entries, t)
    ensures Nearest(entries, delta, i, j)
  {
    Closest(entries, delta, i, |entries|).value
  }

  lemma Wraps(i: int, n: int)
    requires 0 < n && -1 <= i <= n
    ensures i % n == if i == n then 0 else if i == -1 then n - 1 else i
  {
    if i == n {
      EuclidUnique(i, n, 1, 0);
    } else if i == -1 {
      EuclidUnique(i, n, -1, n - 1);
    }
  }

  class Menu {
    var entries: seq<MenuEntry>
    var selected: nat

    /** Something can be selected and `selected` is in range. */
    ghost predicate Valid()
      reads this
    {
      selected < |entries| && exists t: nat :: Selectable(entries, t)
    }

    constructor ()
      ensures Valid() && entries == Entries() && selected == 0
    {
      entries := Entries();
      selected := 0;
      new;
      assert Selectable(entries, 0);
    }

    /** The loop ends, and on the nearest selectable entry in its direction. */
    method Step(delta: int)
      requires Valid() && (delta == 1 || delta == -1)
      modifies this`selected
      ensures Valid() && Nearest(entries, delta, old(selected), selected)
    {
      var len := |entries|;
      var idx := selected;
      ghost var gone := 0;
      ghost var at, target: nat := selected, 0;
      target :| Selectable(entries, target);
      while true
        invariant 0 <= idx < len && 0 <= gone
        invariant Distance(len, delta, at, idx) == if gone == 0 then len else gone
        invariant forall t: nat :: Selectable(entries, t) ==> gone < Distance(len, delta, at, t)
        decreases len - gone
      {
        assert Selectable(entries, target);
        Wraps(idx + delta, len);
        idx := (idx + delta) % len;
        gone := gone + 1;
        assert Distance(len, delta, at, idx) == gone;
        if !entries[idx].action.Separator? {
          break;
        }
      }
      selected := idx;
    }
  }

  // ----- stepping back and forth ---------------------------------------------------------------

  lemma NearestIsUnique(entries: seq<MenuEntry>, delta: int, i: nat, j: nat, k: nat)
    requires i < |entries| && Nearest(entries, delta, i, j) && Nearest(entries, delta, i, k)
    ensures j == k
  {
  }

  /** From a selectable entry, a step one way and a step the other way undo each other. */
  lemma StepsUndo(entries: seq<MenuEntry>, delta: int, back: int, i: nat, j: nat, k: nat)
    requires (delta == 1 || delta == -1) && back == -delta && Selectable(entries, i)
    requires Nearest(entries, delta, i, j) && Nearest(entries, back, j, k)
    ensures k == i
  {
    var n := |entries|;
    assert Distance(n, back, j, k) <= Distance(n, back, j, i);
    assert Distance(n, delta, i, j) <= Distance(n, delta, i, k);
  }

  // ----- the tour ------------------------------------------------------------------------------

  /** How many selectable entries come before position k. */
  ghost function Rank(entries: seq<MenuEntry>, k: nat): nat {
    if k == 0 then 0 else Rank(entries, k - 1) + if Selectable(entries, k - 1) then 1 else 0
  }

  lemma {:induction false} RankGrows(entries: seq<MenuEntry>, i: nat, k: nat)
    requires i <= k
    ensures Rank(entries, i) <= Rank(entries, k)
    ensures Rank(entries, i) == Rank(entries, k) <==> forall t: nat :: i <= t < k ==> !Selectable(entries, t)
  {
    if i < k { RankGrows(entries, i, k - 1); }
  }

  lemma RankInjective(entries: seq<MenuEntry>, i: nat, k: nat)
    requires Selectable(entries, i) && Selectable(entries, k) && Rank(entries, i) == Rank(entries, k)
    ensures i == k
  {
    if i < k { RankGrows(entries, i, k); }
    if k < i { RankGrows(entries, k, i); }
  }

  lemma RankBounded(entries: seq<MenuEntry>, i: nat)
    requires Selectable(entries, i)
    ensures Rank(entries, i) < Rank(entries, |entries|)
  {
    RankGrows(entries, i, |entries|);
  }

  lemma Skipped(entries: seq<MenuEntry>, i: nat, j: nat, t: nat)
    requires Nearest(entries, 1, i, j) && Ahead(|entries|, i, t) < Ahead(|entries|, i, j)
    ensures !Selectable(entries, t)
  {
  }

  /** A forward step moves to the next rank, cyclically. */
  lemma StepAdvancesRank(entries: seq<MenuEntry>, i: nat, j: nat)
    requires Selectable(entries, i) && Nearest(entries, 1, i, j)
    ensures var m := Rank(entries, |entries|);
      Rank(entries, j) == if Rank(entries, i) + 1 == m then 0 else Rank(entries, i) + 1
  {
    var n := |entries|;
    if j > i {
      forall t: nat | i + 1 <= t < j ensures !Selectable(entries, t) {
        Skipped(entries, i, j, t);
      }
      RankGrows(entries, i + 1, j);
      RankBounded(entries, j);
    } else {
      forall t: nat | i + 1 <= t < n || t < j ensures !Selectable(entries, t) {
        Skipped(entries, i, j, t);
      }
      RankGrows(entries, i + 1, n);
      RankGrows(entries, 0, j);
    }
  }

  /** Positions that follow from each other by forward steps. */
  ghost predicate Walk(entries: seq<MenuEntry>, p: seq<nat>) {
    && (forall k :: 0 <= k < |p| ==> Selectable(entries, p[k]))
    && forall k :: 0 < k < |p| ==> Nearest(entries, 1, p[k - 1], p[k])
  }

  lemma {:induction false} WalkRank(entries: seq<MenuEntry>, p: seq<nat>, k: nat)
    requires Walk(entries, p) && k < |p| && k <= Rank(entries, |entries|)
    ensures var m, r := Rank(entries, |entries|), Rank(entries, p[0]) + k;
      Rank(entries, p[k]) == if r >= m then r - m else r
  {
    RankBounded(entries, p[0]);
    if k > 0 {
      WalkRank(entries, p, k - 1);
      StepAdvancesRank(entries, p[k - 1], p[k]);
    }
  }

  /**
   * A walk over as many steps as there are selectable entries visits every one of them,
   * none twice, and its next step is back at the start.
   */
  lemma WalkIsTour(entries: seq<MenuEntry>, p: seq<nat>)
    requires Walk(entries, p) && |p| == Rank(entries, |entries|) + 1
    ensures p[|p| - 1] == p[0]
    ensures forall j, k :: 0 <= j < k < |p| - 1 ==> p[j] != p[k]
    ensures forall t: nat :: Selectable(entries, t) ==> t in p[..|p| - 1]
  {
    hide Nearest;
    var m := |p| - 1;
    WalkRank(entries, p, m);
    RankInjective(entries, p[0], p[m]);
    forall j, k | 0 <= j < k < m ensures p[j] != p[k] {
      WalkRank(entries, p, j);
      WalkRank(entries, p, k);
      RankBounded(entries, p[0]);
    }
    forall t: nat | Selectable(entries, t) ensures t in p[..m] {
      RankBounded(entries, t);
      RankBounded(entries, p[0]);
      var gap := Rank(entries, t) - Rank(entries, p[0]);
      var k := if gap < 0 then gap + m else gap;
      WalkRank(entries, p, k);
      RankInjective(entries, t, p[k]);
      assert p[..m][k] == t;
    }
  }
}
