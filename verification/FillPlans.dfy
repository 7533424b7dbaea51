/** The four ways a plan is filled (src/level/plan.rs:84-306), against the shared status. Every
    one of them only registers plans of the kind module Plans is about. */
module FillPlans {
  import opened Options
  import opened Bytes
  import opened Keys
  import opened Ranges
  import opened Levels
  import opened Plans
  import Seqs

  class CompactStatus {
    var ranges: seq<seq<KeyTsRange>>
    var tables: set<nat>

    ghost function Abs(): Status
      reads this
    {
      Status(ranges, tables)
    }

    constructor (levels: nat)
      ensures Abs() == Status(seq(levels, _ => []), {})
    {
      ranges, tables := seq(levels, _ => []), {};
    }

    /** `LevelCompactStatus::is_overlaps_with`. */
    method IsOverlapsWith(level: nat, target: KeyTsRange) returns (overlaps: bool)
      requires level < |ranges|
      ensures overlaps == Blocked(ranges[level], target)
    {
      for i := 0 to |ranges[level]|
        invariant forall j :: 0 <= j < i ==> !OverlapsWith(ranges[level][j], target)
      {
        if OverlapsWith(ranges[level][i], target) {
          return true;
        }
      }
      return false;
    }

    /** `CompactStatusInner::try_update`. */
    method TryUpdate(p: Plan) returns (ok: bool)
      requires Fits(Abs(), p)
      modifies this
      ensures ok == (!Blocked(old(ranges)[p.thisLevel], p.thisRange) && !Blocked(old(ranges)[p.nextLevel], p.nextRange))
      ensures Abs() == if ok then Registered(old(Abs()), p) else old(Abs())
    {
      var a := IsOverlapsWith(p.thisLevel, p.thisRange);
      var b := IsOverlapsWith(p.nextLevel, p.nextRange);
      if a || b {
        return false;
      }
      ranges := AddRange(ranges, p.thisLevel, p.thisRange);
      ranges := AddRange(ranges, p.nextLevel, p.nextRange);
      tables := tables + Ids(Claimed(p));
      return true;
    }
  }

  /** The bottom tables are exactly those of the next level that meet the range. */
  ghost predicate BottomOf(next: seq<Table>, r: KeyTsRange, bottom: seq<Table>) {
    exists lo: nat, hi: nat :: lo <= hi && Overlapped(next, r, lo, hi) && bottom == next[lo..hi]
  }

  /** A non-empty range of tables: proper ends, not infinite. */
  ghost predicate Proper(r: KeyTsRange) {
    !IsDefault(r.left) && !IsDefault(r.right) && !r.inf && Le(r.left, r.right)
  }

  /** A range of tables: from the newest possible version of a user key to the oldest of another. */
  ghost predicate Widened(r: KeyTsRange) {
    Proper(r) && r.left.ts == MAX_TS && r.right.ts == 0
  }

  lemma RangeOfProper(t: Table)
    requires WellFormed(t)
    ensures Widened(RangeOf(t)) && Within(t, RangeOf(t))
  {
    LeTotal(t.smallest, t.smallest);
    LeTotal(t.biggest, t.biggest);
    RangeOfEncloses(t, t.smallest);
    RangeOfEncloses(t, t.biggest);
    LeTransitive(RangeOf(t).left, t.smallest, RangeOf(t).right);
  }

  /** `bottom` are the tables of the next level that meet the range, and `nextRange` is registered for them. */
  ghost predicate Below(next: seq<Table>, thisRange: KeyTsRange, bottom: seq<Table>, nextRange: KeyTsRange) {
    && BottomOf(next, thisRange, bottom)
    && (if bottom == [] then nextRange == thisRange else IsHull(bottom, nextRange))
  }

  /** Bottom tables for a range, and the range to register for them. */
  method ChooseBottom(next: seq<Table>, thisRange: KeyTsRange) returns (bottom: seq<Table>, nextRange: KeyTsRange)
    requires Disjoint(next) && Widened(thisRange)
    ensures InsideRange(bottom, nextRange) && Widened(nextRange)
    ensures forall t :: t in bottom ==> t in next
    ensures Below(next, thisRange, bottom, nextRange)
  {
    var lo, hi := OverlapTables(next, thisRange);
    bottom := next[lo..hi];
    if |bottom| == 0 {
      nextRange := thisRange;
    } else {
      nextRange := RangeOfAll(bottom);
      HullContains(bottom, nextRange);
    }
  }

  /** A plan for these tables would be refused: its range, or that of the tables it meets below, is taken. */
  ghost predicate Refused(st: Status, level: nat, nextLevel: nat, next: seq<Table>, thisRange: KeyTsRange)
    requires level < |st.ranges| && nextLevel < |st.ranges|
  {
    || Blocked(st.ranges[level], thisRange)
    || exists bottom, nextRange :: Below(next, thisRange, bottom, nextRange) && Blocked(st.ranges[nextLevel], nextRange)
  }

  /** What a plan for table `t` must be. */
  ghost predicate NextPlan(catalog: map<nat, Home>, st: Status, st': Status, p: Plan, level: nat, t: Table,
                           next: seq<Table>) {
    && Accepts(catalog, st, p, st') && p.thisLevel == level && p.nextLevel == level + 1 && p.top == [t]
    && BottomOf(next, p.thisRange, p.bottom) && Widened(p.thisRange) && Widened(p.nextRange)
  }

  /** One round of `fill_tables`. */
  method TryTable(status: CompactStatus, ghost catalog: map<nat, Home>, level: nat, t: Table, next: seq<Table>)
    returns (plan: Option<Plan>)
    requires level + 1 < |status.ranges| && Disjoint(next) && Lives(catalog, level, t)
    requires AllLive(catalog, level + 1, next)
    modifies status
    ensures plan.Some? ==> NextPlan(catalog, old(status.Abs()), status.Abs(), plan.value, level, t, next)
    ensures plan.None? ==>
              status.Abs() == old(status.Abs()) && Refused(old(status.Abs()), level, level + 1, next, RangeOf(t))
  {
    RangeOfProper(t);
    var taken := status.IsOverlapsWith(level, RangeOf(t));
    if taken {
      return None;
    }
    var bottom, nextRange := ChooseBottom(next, RangeOf(t));
    var p := Plan(level, level + 1, [t], bottom, RangeOf(t), nextRange);
    assert PlanOk(catalog, p);
    if |bottom| > 0 {
      taken := status.IsOverlapsWith(level + 1, nextRange);
      if taken {
        return None;
      }
    }
    var ok := status.TryUpdate(p);
    return if ok then Some(p) else None;
  }

  /** `top` is the first candidate for which a plan is not refused. */
  ghost predicate FirstAccepted(st: Status, level: nat, candidates: seq<Table>, next: seq<Table>, top: seq<Table>)
    requires level + 1 < |st.ranges|
  {
    exists i :: 0 <= i < |candidates| && top == [candidates[i]]
      && forall j :: 0 <= j < i ==> Refused(st, level, level + 1, next, RangeOf(candidates[j]))
  }

  /** `fill_tables`, below the last level. `candidates` are this level's tables in the order in
      which they are tried. */
  method FillTables(status: CompactStatus, ghost catalog: map<nat, Home>, level: nat,
                    candidates: seq<Table>, next: seq<Table>) returns (plan: Option<Plan>)
    requires level + 1 < |status.ranges| && Disjoint(next)
    requires AllLive(catalog, level, candidates) && AllLive(catalog, level + 1, next)
    modifies status
    ensures plan.Some? ==>
              && Accepts(catalog, old(status.Abs()), plan.value, status.Abs())
              && plan.value.thisLevel == level && plan.value.nextLevel == level + 1
              && FirstAccepted(old(status.Abs()), level, candidates, next, plan.value.top)
              && BottomOf(next, plan.value.thisRange, plan.value.bottom)
              && Widened(plan.value.thisRange) && Widened(plan.value.nextRange)
    ensures plan.None? ==> status.Abs() == old(status.Abs())
    ensures plan.None? ==>
              forall t :: t in candidates ==> Refused(old(status.Abs()), level, level + 1, next, RangeOf(t))
  {
    for i := 0 to |candidates|
      invariant status.Abs() == old(status.Abs())
      invariant forall j :: 0 <= j < i ==> Refused(status.Abs(), level, level + 1, next, RangeOf(candidates[j]))
    {
      plan := TryTable(status, catalog, level, candidates[i], next);
      if plan.Some? {
        return;
      }
    }
    return None;
  }

  lemma ExtendKeeps(r: KeyTsRange, s: KeyTsRange, t: Table)
    requires Proper(r) && Proper(s) && (Within(t, r) || Within(t, s))
    ensures Proper(Extend(r, s)) && Within(t, Extend(r, s))
  {
    var e := Extend(r, s);
    LeTotal(r.left, s.left);
    LeTotal(r.right, s.right);
    LeTotal(s.left, s.left);
    LeTotal(s.right, s.right);
    LeTotal(r.left, r.left);
    LeTotal(r.right, r.right);
    assert Le(e.left, r.left) && Le(e.left, s.left) && Le(r.right, e.right) && Le(s.right, e.right);
    LeTransitive(e.left, r.left, r.right);
    LeTransitive(e.left, r.right, e.right);
    if Within(t, r) {
      LeTransitive(e.left, r.left, t.smallest);
      LeTransitive(t.biggest, r.right, e.right);
    } else {
      LeTransitive(e.left, s.left, t.smallest);
      LeTransitive(t.biggest, s.right, e.right);
    }
  }

  /** `k` lies between the first and the last user key of the tables. */
  ghost predicate Spanned(ts: seq<Table>, k: Bytes) {
    && (exists a :: a in ts && Compare(a.smallest.key, k) != Greater)
    && (exists b :: b in ts && Compare(k, b.biggest.key) != Greater)
  }

  /** The table has a user key between the first and the last one of the tables. */
  ghost predicate Touches(ts: seq<Table>, t: Table) {
    exists k: Bytes :: Spanned(ts, k) && Compare(t.smallest.key, k) != Greater && Compare(k, t.biggest.key) != Greater
  }

  ghost predicate TouchesOlder(level0: seq<Table>, i: nat)
    requires i < |level0|
  {
    Touches(level0[..i], level0[i])
  }

  /** The first `n` tables of level 0 are the longest run of which each touches those before it. */
  ghost predicate LongestRun(level0: seq<Table>, n: nat) {
    && 0 < n <= |level0|
    && (forall i :: 0 < i < n ==> TouchesOlder(level0, i))
    && (n < |level0| ==> !TouchesOlder(level0, n))
  }

  /** `top` are the tables to take from level 0, and `r` is their range. */
  ghost predicate TopOf(level0: seq<Table>, dropPrefixes: bool, top: seq<Table>, r: KeyTsRange) {
    && IsHull(top, r)
    && if dropPrefixes then top == level0 else exists n: nat :: LongestRun(level0, n) && top == level0[..n]
  }

  lemma HullOfOne(t: Table)
    requires WellFormed(t)
    ensures IsHull([t], RangeOf(t))
  {
    LeTotal(t.smallest, t.smallest);
    LeTotal(t.biggest, t.biggest);
    assert t in [t];
  }

  /** The smaller of two first keys, widened. */
  lemma LeftExtends(a: Table, t: Table)
    ensures var l, r := KeyTs(a.smallest.key, MAX_TS), KeyTs(t.smallest.key, MAX_TS);
      (if Lt(r, l) then r.key else l.key) == (if Lt(t.smallest, a.smallest) then t.smallest.key else a.smallest.key)
  {
    CompareEqual(t.smallest.key, a.smallest.key);
  }

  lemma RightExtends(b: Table, t: Table)
    ensures var l, r := KeyTs(b.biggest.key, 0), KeyTs(t.biggest.key, 0);
      (if Lt(l, r) then r.key else l.key) == (if Lt(b.biggest, t.biggest) then t.biggest.key else b.biggest.key)
  {
    CompareEqual(b.biggest.key, t.biggest.key);
  }

  ghost predicate First(ts: seq<Table>, a: Table) {
    a in ts && forall u :: u in ts ==> Le(a.smallest, u.smallest)
  }

  ghost predicate Last(ts: seq<Table>, b: Table) {
    b in ts && forall u :: u in ts ==> Le(u.biggest, b.biggest)
  }

  lemma FirstExtends(ts: seq<Table>, a: Table, t: Table)
    requires First(ts, a)
    ensures First(ts + [t], if Lt(t.smallest, a.smallest) then t else a)
  {
    LeTotal(t.smallest, a.smallest);
    LeTotal(t.smallest, t.smallest);
    forall u | u in ts && Lt(t.smallest, a.smallest)
      ensures Le(t.smallest, u.smallest)
    {
      LeTransitive(t.smallest, a.smallest, u.smallest);
    }
  }

  lemma LastExtends(ts: seq<Table>, b: Table, t: Table)
    requires Last(ts, b)
    ensures Last(ts + [t], if Lt(b.biggest, t.biggest) then t else b)
  {
    LeTotal(b.biggest, t.biggest);
    LeTotal(t.biggest, t.biggest);
    forall u | u in ts && Lt(b.biggest, t.biggest)
      ensures Le(u.biggest, t.biggest)
    {
      LeTransitive(u.biggest, b.biggest, t.biggest);
    }
  }

  lemma HullBy(ts: seq<Table>, a: Table, b: Table)
    requires First(ts, a) && Last(ts, b)
    ensures IsHull(ts, KeyTsRange(KeyTs(a.smallest.key, MAX_TS), KeyTs(b.biggest.key, 0), false))
  {
  }

  lemma HullEnds(ts: seq<Table>, r: KeyTsRange) returns (a: Table, b: Table)
    requires ts != [] && IsHull(ts, r)
    ensures First(ts, a) && Last(ts, b)
    ensures r == KeyTsRange(KeyTs(a.smallest.key, MAX_TS), KeyTs(b.biggest.key, 0), false)
  {
    a :| a in ts && r.left.key == a.smallest.key && forall u :: u in ts ==> Le(a.smallest, u.smallest);
    b :| b in ts && r.right.key == b.biggest.key && forall u :: u in ts ==> Le(u.biggest, b.biggest);
  }

  lemma HullExtends(ts: seq<Table>, r: KeyTsRange, t: Table)
    requires ts != [] && AllWellFormed(ts) && WellFormed(t) && IsHull(ts, r)
    ensures IsHull(ts + [t], Extend(r, RangeOf(t)))
  {
    HullContains(ts, r);
    RangeOfProper(t);
    var a, b := HullEnds(ts, r);
    LeftExtends(a, t);
    RightExtends(b, t);
    FirstExtends(ts, a, t);
    LastExtends(ts, b, t);
    HullBy(ts + [t], if Lt(t.smallest, a.smallest) then t else a, if Lt(b.biggest, t.biggest) then t else b);
  }

  /** The range of several tables overlaps that of another one if and only if that touches them. */
  lemma HullTouches(ts: seq<Table>, r: KeyTsRange, t: Table)
    requires ts != [] && AllWellFormed(ts) && WellFormed(t) && IsHull(ts, r)
    ensures OverlapsWith(r, RangeOf(t)) <==> Touches(ts, t)
  {
    HullContains(ts, r);
    RangeOfProper(t);
    HullSpans(ts, r);
    RangeLt(t.biggest.key, r.left.key);
    RangeLt(r.right.key, t.smallest.key);
    UserKeysOrdered(t);
    HullKeysOrdered(ts, r);
    CompareReverse(t.biggest.key, r.left.key);
    CompareReverse(r.right.key, t.smallest.key);
    CompareReverse(r.left.key, t.smallest.key);
    CompareEqual(r.left.key, r.left.key);
    CompareEqual(t.smallest.key, t.smallest.key);
    if OverlapsWith(r, RangeOf(t)) {
      var k := if Compare(r.left.key, t.smallest.key) == Less then t.smallest.key else r.left.key;
      assert Spanned(ts, k);
    }
    forall k: Bytes | Spanned(ts, k) && Compare(t.smallest.key, k) != Greater && Compare(k, t.biggest.key) != Greater
      ensures OverlapsWith(r, RangeOf(t))
    {
      CompareTransitive(r.left.key, k, t.biggest.key);
      CompareTransitive(t.smallest.key, k, r.right.key);
    }
  }

  lemma HullKeysOrdered(ts: seq<Table>, r: KeyTsRange)
    requires ts != [] && AllWellFormed(ts) && IsHull(ts, r)
    ensures Compare(r.left.key, r.right.key) != Greater
  {
    HullContains(ts, r);
    CompareKeyTsReverse(r.left, r.right);
  }

  /** The user keys between the ends of a hull. */
  lemma HullSpans(ts: seq<Table>, r: KeyTsRange)
    requires ts != [] && IsHull(ts, r)
    ensures forall k: Bytes ::
              Spanned(ts, k) <==> Compare(r.left.key, k) != Greater && Compare(k, r.right.key) != Greater
  {
    var a, b := HullEnds(ts, r);
    forall k: Bytes
      ensures Spanned(ts, k) <==> Compare(r.left.key, k) != Greater && Compare(k, r.right.key) != Greater
    {
      if u :| u in ts && Compare(u.smallest.key, k) != Greater {
        CompareKeyTsReverse(a.smallest, u.smallest);
        CompareTransitive(a.smallest.key, u.smallest.key, k);
      }
      if u :| u in ts && Compare(k, u.biggest.key) != Greater {
        CompareKeyTsReverse(u.biggest, b.biggest);
        CompareTransitive(k, u.biggest.key, b.biggest.key);
      }
    }
  }

  /** One table more is taken. */
  lemma TopGrows(top: seq<Table>, r: KeyTsRange, t: Table)
    requires AllWellFormed(top) && WellFormed(t)
    requires if top == [] then r == DefaultRange() else IsHull(top, r)
    requires OverlapsWith(r, RangeOf(t))
    ensures IsHull(top + [t], Extend(r, RangeOf(t))) && (top != [] ==> Touches(top, t))
  {
    if top == [] {
      RangeOfProper(t);
      HullOfOne(t);
      assert top + [t] == [t];
    } else {
      HullExtends(top, r, t);
      HullTouches(top, r, t);
    }
  }

  method ChooseTop(level0: seq<Table>, dropPrefixes: bool) returns (top: seq<Table>, thisRange: KeyTsRange)
    requires level0 != [] && AllWellFormed(level0)
    ensures TopOf(level0, dropPrefixes, top, thisRange) && top != []
    ensures Widened(thisRange) && forall t :: t in top ==> t in level0 && Within(t, thisRange)
  {
    if dropPrefixes {
      thisRange := RangeOfAll(level0);
      HullContains(level0, thisRange);
      return level0, thisRange;
    }
    var n;
    n, thisRange := LongestTop(level0);
    HullContains(level0[..n], thisRange);
    return level0[..n], thisRange;
  }

  /** The first `i` tables are taken so far. */
  ghost predicate Taking(level0: seq<Table>, i: nat, r: KeyTsRange) {
    && i <= |level0|
    && (if i == 0 then r == DefaultRange() else IsHull(level0[..i], r))
    && (forall j :: 0 < j < i ==> TouchesOlder(level0, j))
  }

  lemma TakeMore(level0: seq<Table>, i: nat, r: KeyTsRange)
    requires AllWellFormed(level0) && Taking(level0, i, r) && i < |level0| && OverlapsWith(r, RangeOf(level0[i]))
    ensures Taking(level0, i + 1, Extend(r, RangeOf(level0[i])))
  {
    Seqs.SnocSlice(level0, i);
    TopGrows(level0[..i], r, level0[i]);
  }

  lemma TakeNoMore(level0: seq<Table>, i: nat, r: KeyTsRange)
    requires AllWellFormed(level0) && level0 != [] && Taking(level0, i, r)
    requires i < |level0| ==> !OverlapsWith(r, RangeOf(level0[i]))
    ensures LongestRun(level0, i) && IsHull(level0[..i], r)
  {
    if i < |level0| {
      assert level0[i] in level0;
      HullTouches(level0[..i], r, level0[i]);
    }
  }

  /** How many of the oldest tables overlap what was taken before, and their range. */
  method LongestTop(level0: seq<Table>) returns (i: nat, thisRange: KeyTsRange)
    requires level0 != [] && AllWellFormed(level0)
    ensures LongestRun(level0, i) && IsHull(level0[..i], thisRange)
  {
    i, thisRange := 0, DefaultRange();
    while i < |level0|
      invariant i <= |level0| && Taking(level0, i, thisRange)
    {
      if !OverlapsWith(thisRange, RangeOf(level0[i])) {
        break;
      }
      TakeMore(level0, i, thisRange);
      thisRange := Extend(thisRange, RangeOf(level0[i]));
      i := i + 1;
    }
    TakeNoMore(level0, i, thisRange);
  }

  /** `fill_tables_level0_to_levelbase`. Without prefixes to drop it takes the oldest tables as
      long as they overlap what was taken before. `idle` is the test on the adjusted score. */
  method FillLevel0ToBase(status: CompactStatus, ghost catalog: map<nat, Home>, base: nat,
                          level0: seq<Table>, next: seq<Table>, dropPrefixes: bool, idle: bool)
    returns (plan: Option<Plan>)
    requires 0 < base < |status.ranges| && Disjoint(next)
    requires AllLive(catalog, 0, level0) && AllLive(catalog, base, next)
    modifies status
    ensures plan.Some? ==>
              && Accepts(catalog, old(status.Abs()), plan.value, status.Abs())
              && plan.value.thisLevel == 0 && plan.value.nextLevel == base
              && TopOf(level0, dropPrefixes, plan.value.top, plan.value.thisRange)
              && BottomOf(next, plan.value.thisRange, plan.value.bottom)
              && Widened(plan.value.thisRange) && Widened(plan.value.nextRange)
    ensures plan.None? ==> status.Abs() == old(status.Abs())
    ensures idle || level0 == [] ==> plan.None?
    ensures plan.None? && !idle && level0 != [] ==>
              exists top, r :: TopOf(level0, dropPrefixes, top, r) && Refused(old(status.Abs()), 0, base, next, r)
  {
    if idle || |level0| == 0 {
      return None;
    }
    var top, thisRange := ChooseTop(level0, dropPrefixes);
    var bottom, nextRange := ChooseBottom(next, thisRange);
    var p := Plan(0, base, top, bottom, thisRange, nextRange);
    assert PlanOk(catalog, p);
    var ok := status.TryUpdate(p);
    if !ok {
      assert Refused(status.Abs(), 0, base, next, thisRange);
    }
    return if ok then Some(p) else None;
  }

  /** The tables that pass the test and are in no plan. */
  function Unclaimed(level0: seq<Table>, eligible: Table -> bool, claimed: set<nat>): seq<Table> {
    if level0 == [] then []
    else
      var n := |level0| - 1;
      Unclaimed(level0[..n], eligible, claimed)
      + if eligible(level0[n]) && level0[n].id !in claimed then [level0[n]] else []
  }

  /** These are exactly the tables of level 0 that pass the test and are in no plan. */
  lemma {:induction false} UnclaimedIff(level0: seq<Table>, eligible: Table -> bool, claimed: set<nat>, t: Table)
    ensures t in Unclaimed(level0, eligible, claimed) <==> t in level0 && eligible(t) && t.id !in claimed
  {
    if level0 != [] {
      var n := |level0| - 1;
      UnclaimedIff(level0[..n], eligible, claimed, t);
      assert t in level0 <==> t == level0[n] || t in level0[..n];
    }
  }

  /** `fill_tables_level0_to_level0`: only the first task, only with at least four tables that no
      plan has claimed. `eligible` is the test on size and age. */
  method FillLevel0ToLevel0(status: CompactStatus, ghost catalog: map<nat, Home>, task: nat,
                            level0: seq<Table>, eligible: Table -> bool) returns (plan: Option<Plan>)
    requires 0 < |status.ranges| && AllLive(catalog, 0, level0)
    modifies status
    ensures plan.Some? <==> task == 0 && |Unclaimed(level0, eligible, old(status.tables))| >= 4
    ensures plan.Some? ==>
              && plan.value.top == Unclaimed(level0, eligible, old(status.tables))
              && Accepts(catalog, old(status.Abs()), plan.value, status.Abs())
              && plan.value.thisLevel == plan.value.nextLevel == 0 && plan.value.bottom == []
    ensures plan.None? ==> status.Abs() == old(status.Abs())
  {
    if task != 0 {
      return None;
    }
    var out := [];
    for i := 0 to |level0|
      invariant status.Abs() == old(status.Abs())
      invariant out == Unclaimed(level0[..i], eligible, status.tables)
      invariant forall t :: t in out ==> t in level0 && t.id !in status.tables
    {
      assert level0[..i + 1][..i] == level0[..i];
      if eligible(level0[i]) && level0[i].id !in status.tables {
        out := out + [level0[i]];
      }
    }
    assert level0[..|level0|] == level0;
    if |out| < 4 {
      return None;
    }
    var p := Plan(0, 0, out, [], InfRange(), DefaultRange());
    assert PlanOk(catalog, p);
    status.ranges := AddRange(status.ranges, 0, InfRange());
    status.tables := status.tables + Ids(out);
    return Some(p);
  }

  /** The search for a table by its first key, with the assertion that follows it in the source. */
  method IndexOf(ts: seq<Table>, t: Table) returns (at: nat)
    requires Disjoint(ts) && t in ts
    ensures at < |ts| && ts[at] == t
  {
    EndsIncrease(ts);
    LtIsStrictTotalOrder();
    var smallest := seq(|ts|, i requires 0 <= i < |ts| => ts[i].smallest);
    ghost var i :| 0 <= i < |ts| && ts[i] == t;
    assert smallest[i] == t.smallest;
    var found;
    found, at := BinarySearch(smallest, t.smallest);
    assert !Lt(t.smallest, t.smallest);
    assert at == i;
  }

  /** Behind `tables[at]`, `bottom` are its neighbours as long as all of them together fit into one file. */
  ghost predicate Neighbours(tables: seq<Table>, at: nat, need: nat, bottom: seq<Table>) {
    && at + |bottom| < |tables| && bottom == tables[at + 1..at + 1 + |bottom|]
    && (bottom != [] ==> Sum(tables[at..at + 1 + |bottom|]) < need)
    && (at + 1 + |bottom| < |tables| ==> Sum(tables[at..at + 2 + |bottom|]) >= need)
  }

  lemma SumNext(tables: seq<Table>, at: nat, j: nat)
    requires at <= j < |tables|
    ensures Sum(tables[at..j + 1]) == Sum(tables[at..j]) + tables[j].size
  {
    assert tables[at..j + 1] == tables[at..j] + [tables[j]];
    SumConcat(tables[at..j], [tables[j]]);
  }

  lemma BottomGrows(bottom: seq<Table>, r: KeyTsRange, t: Table)
    requires Proper(r) && InsideRange(bottom, r) && WellFormed(t)
    ensures Proper(Extend(r, RangeOf(t))) && InsideRange(bottom + [t], Extend(r, RangeOf(t)))
  {
    RangeOfProper(t);
    forall u | u in bottom || u == t
      ensures Within(u, Extend(r, RangeOf(t)))
    {
      ExtendKeeps(r, RangeOf(t), u);
    }
    ExtendKeeps(r, RangeOf(t), t);
  }

  /** Neighbours behind `tables[at]` that still fit into one file. */
  method CollectBottom(tables: seq<Table>, at: nat, need: nat) returns (bottom: seq<Table>, nextRange: KeyTsRange)
    requires at < |tables| && AllWellFormed(tables)
    ensures Neighbours(tables, at, need, bottom)
    ensures Proper(nextRange) && InsideRange(bottom, nextRange)
  {
    RangeOfProper(tables[at]);
    bottom, nextRange := [], RangeOf(tables[at]);
    var total, j := tables[at].size, at + 1;
    SumNext(tables, at, at);
    while j < |tables|
      invariant at < j <= |tables| && bottom == tables[at + 1..j] && total == Sum(tables[at..j])
      invariant bottom != [] ==> total < need
      invariant Proper(nextRange) && InsideRange(bottom, nextRange)
    {
      var t := tables[j];
      SumNext(tables, at, j);
      total := total + t.size;
      if total >= need {
        break;
      }
      BottomGrows(bottom, nextRange, t);
      bottom := bottom + [t];
      nextRange := Extend(nextRange, RangeOf(t));
      j := j + 1;
    }
  }

  /** The bottom of a plan for `t` within the last level: its neighbours that fit into one file with it; nothing, if it
      is large enough alone, or if it is the last candidate, which is offered once more without them. */
  ghost predicate MaxBottom(tables: seq<Table>, candidates: seq<Table>, need: nat, t: Table, bottom: seq<Table>) {
    || (exists at: nat :: at < |tables| && tables[at] == t && t.size < need && Neighbours(tables, at, need, bottom))
    || (bottom == [] && (t.size >= need || (candidates != [] && t == candidates[|candidates| - 1])))
  }

  /** `collect_bottom_tables` and the attempt to register the plan with them. */
  method TryNeighbours(status: CompactStatus, ghost catalog: map<nat, Home>, p: Plan, tables: seq<Table>,
                       ghost candidates: seq<Table>, need: nat) returns (plan: Option<Plan>)
    requires p.thisLevel == p.nextLevel < |status.ranges| && Disjoint(tables) && AllLive(catalog, p.thisLevel, tables)
    requires |p.top| == 1 && p.top[0] in tables && p.top[0].size < need && InsideRange(p.top, p.thisRange)
    modifies status
    ensures plan.Some? ==>
              && Accepts(catalog, old(status.Abs()), plan.value, status.Abs())
              && plan.value == p.(bottom := plan.value.bottom, nextRange := plan.value.nextRange)
              && MaxBottom(tables, candidates, need, p.top[0], plan.value.bottom)
    ensures plan.None? ==> status.Abs() == old(status.Abs())
  {
    var at := IndexOf(tables, p.top[0]);
    var bottom, nextRange := CollectBottom(tables, at, need);
    var q := p.(bottom := bottom, nextRange := nextRange);
    assert PlanOk(catalog, q);
    var ok := status.TryUpdate(q);
    return if ok then Some(q) else None;
  }

  /** `fill_max_level_tables`: the last level is compacted into itself. `candidates` are the
      level's stale tables that pass the filters, in the order in which they are tried. The plan's
      fields keep their values from one round to the next, as in the source, and what they hold
      after the loop is offered to the status once more. */
  method FillMaxLevel(status: CompactStatus, ghost catalog: map<nat, Home>, level: nat,
                      tables: seq<Table>, candidates: seq<Table>, need: nat) returns (plan: Option<Plan>)
    requires level < |status.ranges| && Disjoint(tables) && AllLive(catalog, level, tables)
    requires forall t :: t in candidates ==> t in tables
    modifies status
    ensures plan.Some? ==>
              && Accepts(catalog, old(status.Abs()), plan.value, status.Abs())
              && plan.value.thisLevel == plan.value.nextLevel == level
              && |plan.value.top| == 1 && plan.value.top[0] in candidates
              && MaxBottom(tables, candidates, need, plan.value.top[0], plan.value.bottom)
    ensures plan.None? ==> status.Abs() == old(status.Abs())
    ensures plan.None? && candidates != [] ==> Blocked(old(status.ranges)[level], RangeOf(candidates[|candidates| - 1]))
  {
    var p := Plan(level, level, [], [], DefaultRange(), DefaultRange());
    for i := 0 to |candidates|
      invariant status.Abs() == old(status.Abs())
      invariant p.thisLevel == p.nextLevel == level && p.bottom == []
      invariant AllLive(catalog, level, p.top)
      invariant InsideRange(p.top, p.thisRange) || Blocked(status.ranges[level], p.thisRange)
      invariant p.top == [] || (|p.top| == 1 && p.top[0] in candidates)
      invariant i > 0 ==> p.thisRange == RangeOf(candidates[i - 1])
      invariant i > 0 ==> p.nextRange == DefaultRange() || p.nextRange == p.thisRange
      invariant i > 0 && !Blocked(status.ranges[level], p.thisRange) ==> p.top == [candidates[i - 1]]
    {
      var t := candidates[i];
      assert Lives(catalog, level, t);
      RangeOfProper(t);
      p := p.(thisRange := RangeOf(t), nextRange := RangeOf(t));
      var taken := status.IsOverlapsWith(level, p.thisRange);
      if taken {
        continue;
      }
      p := p.(top := [t]);
      if t.size >= need {
        break;
      }
      plan := TryNeighbours(status, catalog, p, tables, candidates, need);
      if plan.Some? {
        return;
      }
      p := p.(bottom := [], nextRange := DefaultRange());
    }
    if |p.top| == 0 {
      return None;
    }
    var ok := status.TryUpdate(p);
    return if ok then Some(p) else None;
  }
}
