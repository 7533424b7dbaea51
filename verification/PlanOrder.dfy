/** Which of the plans that are made choose their tables safely (module StoreOrder). */
module PlanOrder {
  import opened Options
  import opened Bytes
  import opened Keys
  import opened Ranges
  import opened Levels
  import opened LevelHandlers
  import opened Plans
  import opened FillPlans
  import opened GarbageCollection
  import opened StoreOrder
  import R = Retention

  lemma KeysOnSides(r: KeyTsRange, t: Table, u: Table, a: KeyTs, b: KeyTs)
    requires Widened(r) && Within(t, r) && Holds(t, a) && Holds(u, b)
    requires Lt(u.biggest, r.left) || Lt(r.right, u.smallest)
    ensures a.key != b.key
  {
    LeTransitive(r.left, t.smallest, a);
    LeTransitive(a, t.biggest, r.right);
    if Lt(u.biggest, r.left) {
      LeTotal(u.biggest, r.left);
      LeTransitive(b, u.biggest, r.left);
      if a.key == b.key {
        WidestVersions(a);
        BetweenVersions(r.left, a, b);
      }
    } else {
      LeTotal(r.right, u.smallest);
      LeTransitive(r.right, u.smallest, b);
      if a.key == b.key {
        BetweenOldest(r.right, a, b);
      }
    }
  }

  /** Nothing is before the newest possible version of a user key but smaller user keys. */
  lemma BetweenVersions(left: KeyTs, a: KeyTs, b: KeyTs)
    requires left.ts == MAX_TS && Le(left, a) && a.key == b.key
    ensures !Lt(b, left)
  {
    CompareKeyTsReverse(left, a);
    CompareKeyTsReverse(left, b);
    CompareEqual(a.key, left.key);
    CompareReverse(a.key, left.key);
  }

  lemma BetweenOldest(right: KeyTs, a: KeyTs, b: KeyTs)
    requires right.ts == 0 && Le(a, right) && a.key == b.key
    ensures !Lt(right, b)
  {
    CompareKeyTsReverse(right, a);
    CompareKeyTsReverse(right, b);
    CompareReverse(a.key, right.key);
  }

  /** A table outside of the range hides nothing from one inside. */
  lemma OutsideHidesNone(r: KeyTsRange, c: Table, u: Table)
    requires Widened(r) && Within(c, r) && (Lt(u.biggest, r.left) || Lt(r.right, u.smallest))
    ensures !MayHide(c, u)
  {
    if MayHide(c, u) {
      var key: Bytes, a: TxnTs, b: TxnTs :| a < b && Holds(u, KeyTs(key, a)) && Holds(c, KeyTs(key, b));
      KeysOnSides(r, c, u, KeyTs(key, b), KeyTs(key, a));
      assert false;
    }
  }

  // ---------- kinds of plans ----------

  ghost predicate AllIn(ts: seq<Table>, level: seq<Table>) {
    forall t :: t in ts ==> t in level
  }

  /** The bottom are the tables of the next level that meet the range of the top. */
  ghost predicate Meeting(levels: seq<seq<Table>>, p: Plan) {
    && p.nextLevel < |levels| && BottomOf(levels[p.nextLevel], p.thisRange, p.bottom)
    && Widened(p.thisRange) && InsideRange(p.top, p.thisRange)
  }

  /** From a level to the next, as `FillTables` plans it. */
  ghost predicate ToNextLevel(levels: seq<seq<Table>>, p: Plan) {
    1 <= p.thisLevel && p.nextLevel == p.thisLevel + 1 && Meeting(levels, p) && AllIn(p.top, levels[p.thisLevel])
  }

  /** From level 0 to the base level, as `FillLevel0ToBase` plans it. */
  ghost predicate ToBaseLevel(levels: seq<seq<Table>>, p: Plan) {
    p.thisLevel == 0 < p.nextLevel && Meeting(levels, p) && p.top <= levels[0]
  }

  /** From the last level into itself, as `FillMaxLevel` plans it. */
  ghost predicate IntoItself(levels: seq<seq<Table>>, p: Plan) {
    1 <= p.thisLevel == p.nextLevel < |levels| && AllIn(Claimed(p), levels[p.thisLevel])
  }

  /** From level 0 into level 0, as `FillLevel0ToLevel0` plans it. */
  ghost predicate WithinLevel0(levels: seq<seq<Table>>, p: Plan) {
    p.thisLevel == p.nextLevel == 0 < |levels| && p.bottom == [] && AllIn(p.top, levels[0])
  }

  ghost predicate OfAKind(levels: seq<seq<Table>>, p: Plan) {
    ToNextLevel(levels, p) || ToBaseLevel(levels, p) || IntoItself(levels, p) || WithinLevel0(levels, p)
  }

  /** The levels between level 0 and the base hold nothing that the plan may hide; they need not be empty. */
  ghost predicate ClearBetween(levels: seq<seq<Table>>, p: Plan) {
    forall l, c, u :: 0 < l < p.nextLevel && l < |levels| && c in p.top && u in levels[l] ==> !MayHide(c, u)
  }

  /** Of a plan within level 0: no table that it leaves in front of one it takes. */
  ghost predicate ClearInFront(levels: seq<seq<Table>>, p: Plan)
    requires |levels| > 0
  {
    forall c, u :: c in p.top && u !in p.top && InFront(levels[0], u, c) ==> !MayHide(c, u)
  }

  lemma BottomInLevel(next: seq<Table>, r: KeyTsRange, bottom: seq<Table>, u: Table)
    requires BottomOf(next, r, bottom)
    ensures u in bottom ==> u in next
    ensures u in next && u !in bottom ==> Lt(u.biggest, r.left) || Lt(r.right, u.smallest)
  {
    var lo: nat, hi: nat :| lo <= hi && Overlapped(next, r, lo, hi) && bottom == next[lo..hi];
    if u in next {
      var i :| 0 <= i < |next| && next[i] == u;
      if lo <= i < hi {
        assert bottom[i - lo] == u;
      }
    }
  }

  // ---------- made by the planner ----------

  /** What the contract of `FillTables` says of its plans. */
  lemma NextKind(levels: seq<seq<Table>>, catalog: map<nat, Home>, st: Status, st': Status, p: Plan)
    requires Accepts(catalog, st, p, st') && 1 <= p.thisLevel && p.nextLevel == p.thisLevel + 1 < |levels|
    requires |p.top| == 1 && p.top[0] in levels[p.thisLevel]
    requires BottomOf(levels[p.nextLevel], p.thisRange, p.bottom) && Widened(p.thisRange)
    ensures ToNextLevel(levels, p)
  {
  }

  /** What the contract of `FillLevel0ToBase` says. */
  lemma BaseKind(levels: seq<seq<Table>>, catalog: map<nat, Home>, st: Status, st': Status, p: Plan, drop: bool)
    requires Accepts(catalog, st, p, st') && p.thisLevel == 0 < p.nextLevel < |levels|
    requires TopOf(levels[0], drop, p.top, p.thisRange)
    requires BottomOf(levels[p.nextLevel], p.thisRange, p.bottom) && Widened(p.thisRange)
    ensures ToBaseLevel(levels, p)
  {
  }

  /** What the contract of `FillMaxLevel` says. */
  lemma MaxKind(levels: seq<seq<Table>>, candidates: seq<Table>, need: nat, p: Plan)
    requires 1 <= p.thisLevel == p.nextLevel < |levels| && |p.top| == 1 && p.top[0] in levels[p.thisLevel]
    requires MaxBottom(levels[p.thisLevel], candidates, need, p.top[0], p.bottom)
    ensures IntoItself(levels, p)
  {
  }

  /** What the contract of `FillLevel0ToLevel0` says. */
  lemma Level0Kind(levels: seq<seq<Table>>, eligible: Table -> bool, claimed: set<nat>, p: Plan)
    requires p.thisLevel == p.nextLevel == 0 < |levels| && p.bottom == []
    requires p.top == Unclaimed(levels[0], eligible, claimed)
    ensures WithinLevel0(levels, p)
  {
    forall t | t in p.top
      ensures t in levels[0]
    {
      UnclaimedIff(levels[0], eligible, claimed, t);
    }
  }

  // ---------- which of them are safe ----------

  lemma ClaimedInStore(levels: seq<seq<Table>>, p: Plan)
    requires OfAKind(levels, p)
    ensures InStore(levels, Claimed(p))
    ensures forall t :: t in p.top ==> p.thisLevel < |levels| && t in levels[p.thisLevel]
    ensures forall t :: t in p.bottom ==> p.nextLevel < |levels| && t in levels[p.nextLevel]
  {
    forall t | t in Claimed(p)
      ensures t in p.top ==> p.thisLevel < |levels| && t in levels[p.thisLevel]
      ensures t in p.bottom ==> p.nextLevel < |levels| && t in levels[p.nextLevel]
    {
      if Meeting(levels, p) {
        BottomInLevel(levels[p.nextLevel], p.thisRange, p.bottom, t);
      }
    }
  }

  /** Where a table that is left behind must be. */
  lemma StrandedAt(levels: seq<seq<Table>>, p: Plan, c: Table, u: Table) returns (l: nat)
    requires UniquePlaces(levels) && OfAKind(levels, p) && Strands(levels, Claimed(p), p.nextLevel, c, u)
    ensures l <= p.nextLevel && l < |levels| && u in levels[l] && u !in Claimed(p) && c in p.top
    ensures p.thisLevel < l || (p.thisLevel == l == 0 && InFront(levels[0], u, c))
  {
    l :| 0 <= l <= p.nextLevel && l < |levels| && u in levels[l];
    ClaimedInStore(levels, p);
    var j := PlaceOf(levels, u, l);
    var k := if c in p.top then p.thisLevel else p.nextLevel;
    var i := PlaceOf(levels, c, k);
    BehindAt(levels, k, i, l, j);
  }

  /** Plans to the next level, and from the last level into itself, are safe. */
  lemma MostAreSafe(levels: seq<seq<Table>>, p: Plan)
    requires UniquePlaces(levels) && (ToNextLevel(levels, p) || IntoItself(levels, p))
    ensures Safe(levels, Claimed(p), p.nextLevel)
  {
    forall c, u | Strands(levels, Claimed(p), p.nextLevel, c, u)
      ensures !MayHide(c, u)
    {
      var l := StrandedAt(levels, p, c, u);
      if ToNextLevel(levels, p) {
        BottomInLevel(levels[p.nextLevel], p.thisRange, p.bottom, u);
        OutsideHidesNone(p.thisRange, c, u);
      }
    }
  }

  lemma StrandsFrom(levels: seq<seq<Table>>, p: Plan, c: Table, u: Table, l: nat)
    requires UniquePlaces(levels) && OfAKind(levels, p) && c in p.top && u !in Claimed(p)
    requires p.thisLevel < |levels| && c in levels[p.thisLevel] && l <= p.nextLevel && l < |levels| && u in levels[l]
    requires p.thisLevel < l || (l == 0 && InFront(levels[0], u, c))
    ensures Strands(levels, Claimed(p), p.nextLevel, c, u)
  {
    if p.thisLevel < l {
      assert Lower(levels, u, c);
    }
  }

  /** A plan to the base level is safe if and only if the levels in between hold nothing that it may hide. */
  lemma BaseSafeIff(levels: seq<seq<Table>>, p: Plan)
    requires UniquePlaces(levels) && ToBaseLevel(levels, p)
    ensures Safe(levels, Claimed(p), p.nextLevel) <==> ClearBetween(levels, p)
  {
    ClaimedInStore(levels, p);
    if ClearBetween(levels, p) {
      forall c, u | Strands(levels, Claimed(p), p.nextLevel, c, u)
        ensures !MayHide(c, u)
      {
        var l := StrandedAt(levels, p, c, u);
        BottomInLevel(levels[p.nextLevel], p.thisRange, p.bottom, u);
        if l == p.nextLevel {
          OutsideHidesNone(p.thisRange, c, u);
        } else if l == 0 {
          PrefixHasNoneInFront(levels, p.top, c, u);
        }
      }
    }
    if Safe(levels, Claimed(p), p.nextLevel) {
      forall l, c, u | 0 < l < p.nextLevel && l < |levels| && c in p.top && u in levels[l]
        ensures !MayHide(c, u)
      {
        NotClaimedBetween(levels, p, u, l);
        StrandsFrom(levels, p, c, u, l);
      }
    }
  }

  lemma PrefixHasNoneInFront(levels: seq<seq<Table>>, top: seq<Table>, c: Table, u: Table)
    requires UniquePlaces(levels) && |levels| > 0 && top <= levels[0] && c in top && u !in top
    ensures !InFront(levels[0], u, c)
  {
    var i :| 0 <= i < |top| && top[i] == c;
    forall j, i' | 0 <= j < i' < |levels[0]| && levels[0][i'] == c
      ensures levels[0][j] in top
    {
      SamePlace(levels, 0, i, 0, i');
      assert top[j] in top;
    }
  }

  lemma NotClaimedBetween(levels: seq<seq<Table>>, p: Plan, u: Table, l: nat)
    requires UniquePlaces(levels) && ToBaseLevel(levels, p) && 0 < l < p.nextLevel && u in levels[l]
    ensures u !in Claimed(p)
  {
    ClaimedInStore(levels, p);
    var j := PlaceOf(levels, u, l);
    LevelAt(levels, l, j, 0);
    LevelAt(levels, l, j, p.nextLevel);
  }

  /** A plan within level 0 is safe if and only if it hides nothing that it leaves in front. */
  lemma Level0SafeIff(levels: seq<seq<Table>>, p: Plan)
    requires UniquePlaces(levels) && WithinLevel0(levels, p)
    ensures Safe(levels, Claimed(p), 0) <==> ClearInFront(levels, p)
  {
    assert Claimed(p) == p.top;
    if ClearInFront(levels, p) {
      forall c, u | Strands(levels, Claimed(p), 0, c, u)
        ensures !MayHide(c, u)
      {
        var l := StrandedAt(levels, p, c, u);
      }
    }
    if Safe(levels, Claimed(p), 0) {
      forall c, u | c in p.top && u !in p.top && InFront(levels[0], u, c)
        ensures !MayHide(c, u)
      {
        StrandsFrom(levels, p, c, u, 0);
      }
    }
  }

  /** What each kind of plan has to check. */
  ghost predicate IsClear(levels: seq<seq<Table>>, p: Plan) {
    && (ToBaseLevel(levels, p) ==> ClearBetween(levels, p))
    && (WithinLevel0(levels, p) ==> ClearInFront(levels, p))
  }

  /** Exactly which plans are unseen by readers, whatever a store in order holds: those whose overlap check is positive,
      those to the next level or of the last level into itself, those to the base level with nothing to hide in between,
      and those within level 0 with nothing to hide in front. */
  lemma PlanUnseenIff(levels: seq<seq<Table>>, p: Plan)
    requires UniquePlaces(levels) && OfAKind(levels, p) && Claimed(p) != []
    ensures (forall contents, es, upper, lower, s, now ::
               Unseen(levels, contents, Claimed(p), p.nextLevel, es, upper, lower, s, now))
        <==> OverlapBelow(levels, Claimed(p), p.nextLevel + 1) || IsClear(levels, p)
  {
    ClaimedInStore(levels, p);
    ClaimedWellFormed(levels, Claimed(p));
    UnseenIff(levels, Claimed(p), p.nextLevel);
    if ToBaseLevel(levels, p) {
      BaseSafeIff(levels, p);
    } else if WithinLevel0(levels, p) {
      Level0SafeIff(levels, p);
    } else {
      MostAreSafe(levels, p);
    }
  }
}
