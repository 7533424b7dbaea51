/** Plans that are not safe (module PlanOrder), as the planner makes them, and the deletions they undo. */
module PlanFailures {
  import opened Options
  import opened Bytes
  import opened Keys
  import opened Ranges
  import opened Levels
  import opened LevelHandlers
  import opened Plans
  import opened FillPlans
  import opened GarbageCollection
  import opened StoreOrder
  import R = Retention

  /** A table of one entry. */
  function Single(id: nat, e: R.Entry, size: nat): Table {
    Table(id, e.at, e.at, size)
  }

  function Version(key: Byte, ts: TxnTs): KeyTs {
    KeyTs([key], ts)
  }

  lemma SingleOk(id: nat, e: R.Entry, size: nat)
    requires e.at.key != []
    ensures WellFormed(Single(id, e, size))
  {
    LeTotal(e.at, e.at);
  }

  lemma {:induction false} AllUnclaimed(ts: seq<Table>, eligible: Table -> bool)
    requires forall t :: t in ts ==> eligible(t)
    ensures Unclaimed(ts, eligible, {}) == ts
  {
    if ts != [] {
      AllUnclaimed(ts[..|ts| - 1], eligible);
    }
  }

  lemma {:induction false} FirstNotEligible(t: Table, ts: seq<Table>, eligible: Table -> bool)
    requires !eligible(t)
    ensures Unclaimed([t] + ts, eligible, {}) == Unclaimed(ts, eligible, {})
  {
    var all, n := [t] + ts, |ts|;
    if ts == [] {
      assert all[..0] == [];
    } else {
      FirstNotEligible(t, ts[..n - 1], eligible);
      assert all[..n] == [t] + ts[..n - 1];
    }
  }

  lemma DroppedDeletion(deletion: R.Entry, e2: R.Entry, e3: R.Entry, e4: R.Entry, s: R.Setting)
    requires deletion == Deletion(Version(1, 2)) && s.discardTs == 2 && !s.hasOverlap
    requires e2 == Put(Version(2, 3)) && e3 == Put(Version(3, 3)) && e4 == Put(Version(4, 3))
    ensures R.Sorted([deletion, e2, e3, e4])
    ensures R.Retain([deletion, e2, e3, e4], R.Fresh(), s) == [e2, e3, e4]
  {
    var es := [deletion, e2, e3, e4];
    assert es[1..] == [e2, e3, e4];
    forall i, j | 0 <= i < j < 4
      ensures Lt(es[i].at, es[j].at)
    {
      SmallKeys(es[i].at, es[j].at);
    }
    KeepsAll(es[1..], R.Decide(R.Fresh(), deletion, s).0, s);
  }

  lemma SmallKeys(a: KeyTs, b: KeyTs)
    requires |a.key| == |b.key| == 1 && a.key[0] < b.key[0]
    ensures Lt(a, b)
  {
  }

  lemma {:induction false} KeepsAll(es: seq<R.Entry>, c: R.Context, s: R.Setting)
    requires forall e :: e in es ==> e.at.ts > s.discardTs && c.skip != Some(e.at.key)
    ensures R.Retain(es, c, s) == es
  {
    if es != [] {
      KeepsAll(es[1..], R.Decide(c, es[0], s).0, s);
      assert es == [es[0]] + es[1..];
    }
  }

  /** Tables of one entry each, whose versions of a user key get newer, are a level 0 in order. */
  lemma SinglesInOrder(level0: seq<Table>, all: seq<R.Entry>, contents: Contents)
    requires |level0| == |all|
    requires forall i :: 0 <= i < |all| ==> level0[i] == Single(i, all[i], level0[i].size) && contents(i) == [all[i]]
    requires forall i, j :: 0 <= i < j < |all| && all[i].at.key == all[j].at.key ==> all[i].at.ts < all[j].at.ts
    ensures StoreOk([level0, []], contents)
  {
    forall i | 0 <= i < |all|
      ensures Holds(level0[i], all[i].at)
    {
      LeTotal(all[i].at, all[i].at);
    }
    forall i, j | 0 <= i < j < |all|
      ensures OlderThan(contents, level0[i], level0[j])
    {
    }
  }

  lemma SinglesDivided(level0: seq<Table>, all: seq<R.Entry>, contents: Contents)
    requires |level0| == |all| > 0
    requires forall i :: 0 <= i < |all| ==> level0[i].id == i && contents(i) == [all[i]]
    ensures Divides([level0, []], contents, level0[1..], 0, all[1..], [all[0]], [])
  {
    forall e | e in all[1..]
      ensures exists t :: t in level0[1..] && e in contents(t.id)
    {
      var i :| 0 <= i < |all| - 1 && all[1..][i] == e;
      assert level0[1..][i] == level0[i + 1];
    }
    assert level0[0] in [level0, []][0] && level0[0] !in level0[1..] && all[0] in contents(level0[0].id);
  }

  function ContentsOf(all: seq<R.Entry>): Contents {
    (n: nat) => if n < |all| then [all[n]] else []
  }

  lemma AllButFirst(ts: seq<Table>, eligible: Table -> bool)
    requires ts != [] && !eligible(ts[0]) && forall i :: 1 <= i < |ts| ==> eligible(ts[i])
    ensures Unclaimed(ts, eligible, {}) == ts[1..]
  {
    AllUnclaimed(ts[1..], eligible);
    FirstNotEligible(ts[0], ts[1..], eligible);
    assert ts == [ts[0]] + ts[1..];
  }

  /** The plan for a level 0 whose first table is too large to be eligible takes the four others; the level below is
      empty, so that no overlap is reported. */
  method PlanWithoutFirst(level0: seq<Table>) returns (plan: Option<Plan>, overlap: bool)
    requires |level0| == 5 && forall i :: 0 <= i < 5 ==> level0[i].id == i && WellFormed(level0[i])
    requires level0[0].size >= 10 && forall i :: 1 <= i < 5 ==> level0[i].size < 10
    ensures plan.Some? && Claimed(plan.value) == level0[1..] && plan.value.thisLevel == plan.value.nextLevel == 0
    ensures !overlap && !OverlapBelow([level0, []], level0[1..], 1)
  {
    var eligible := (t: Table) => t.size < 10;
    ghost var catalog := map i: nat | i < 5 :: Home(0, level0[i]);
    AllButFirst(level0, eligible);
    var status := new CompactStatus(2);
    plan := FillLevel0ToLevel0(status, catalog, 0, level0, eligible);
    overlap := CheckOverlap([level0, []], level0[1..], 1);
  }

  /** A plan from level 0 into level 0 can undo a deletion: an older version is in the table that is not eligible, the
      deletion is in one that is taken; it is dropped, and the older version is visible again. */
  method Level0PlanUndoes(keepVersions: nat, now: nat)
    returns (levels: seq<seq<Table>>, contents: Contents, plan: Option<Plan>,
             older: R.Entry, es: seq<R.Entry>, s: R.Setting)
    ensures StoreOk(levels, contents) && plan.Some? && plan.value.thisLevel == plan.value.nextLevel == 0
    ensures Divides(levels, contents, Claimed(plan.value), 0, es, [older], [])
    ensures s.hasOverlap == OverlapBelow(levels, Claimed(plan.value), 1)
    ensures R.Sorted(es) && R.ReadsLater(es, s, now)
    ensures R.Visible(es + [older], [1], 2, now) == None
    ensures R.Visible(R.Retain(es, R.Fresh(), s) + [older], [1], 2, now) == Some(older)
  {
    older := Put(Version(1, 1));
    es := [Deletion(Version(1, 2)), Put(Version(2, 3)), Put(Version(3, 3)), Put(Version(4, 3))];
    var level0 := Singles([older] + es, 10);
    var overlap;
    plan, overlap := PlanWithoutFirst(level0);
    levels, contents, s := [level0, []], ContentsOf([older] + es), R.Setting(2, keepVersions, overlap, e => now);
    assert ([older] + es)[1..] == es;
    InOrder(es);
    SinglesDivided(level0, [older] + es, contents);
    Undone(es, s, now);
  }

  /** A table for each entry, the first of the given size. */
  function Singles(all: seq<R.Entry>, size: nat): (ts: seq<Table>)
    requires forall e :: e in all ==> e.at.key != []
    ensures |ts| == |all| && forall i :: 0 <= i < |ts| ==> WellFormed(ts[i])
    ensures forall i :: 0 <= i < |ts| ==> ts[i] == Single(i, all[i], if i == 0 then size else 1)
  {
    assert forall i :: 0 <= i < |all| ==> all[i] in all;
    var ts := seq(|all|, i requires 0 <= i < |all| => Single(i, all[i], if i == 0 then size else 1));
    SinglesOk(all, ts, size);
    ts
  }

  lemma SinglesOk(all: seq<R.Entry>, ts: seq<Table>, size: nat)
    requires |ts| == |all| && forall i :: 0 <= i < |all| ==> all[i].at.key != []
    requires forall i :: 0 <= i < |ts| ==> ts[i] == Single(i, all[i], if i == 0 then size else 1)
    ensures forall i :: 0 <= i < |ts| ==> WellFormed(ts[i])
  {
    forall i | 0 <= i < |ts|
      ensures WellFormed(ts[i])
    {
      SingleOk(i, all[i], if i == 0 then size else 1);
    }
  }

  lemma InOrder(es: seq<R.Entry>)
    requires es == [Deletion(Version(1, 2)), Put(Version(2, 3)), Put(Version(3, 3)), Put(Version(4, 3))]
    ensures var all := [Put(Version(1, 1))] + es;
      (forall e :: e in all ==> e.at.key != []) && StoreOk([Singles(all, 10), []], ContentsOf(all))
  {
    var all := [Put(Version(1, 1))] + es;
    assert all == [Put(Version(1, 1)), es[0], es[1], es[2], es[3]];
    SinglesInOrder(Singles(all, 10), all, ContentsOf(all));
  }

  lemma Undone(es: seq<R.Entry>, s: R.Setting, now: nat)
    requires es == [Deletion(Version(1, 2)), Put(Version(2, 3)), Put(Version(3, 3)), Put(Version(4, 3))]
    requires s == R.Setting(2, s.keepVersions, false, e => now)
    ensures R.Sorted(es) && R.ReadsLater(es, s, now)
    ensures R.Visible(es + [Put(Version(1, 1))], [1], 2, now) == None
    ensures R.Visible(R.Retain(es, R.Fresh(), s) + [Put(Version(1, 1))], [1], 2, now) == Some(Put(Version(1, 1)))
  {
    DroppedDeletion(es[0], es[1], es[2], es[3], s);
    NewestOf(es[0], Put(Version(1, 1)), es[1], es[2], es[3]);
  }

  lemma NewestOf(deletion: R.Entry, older: R.Entry, e2: R.Entry, e3: R.Entry, e4: R.Entry)
    requires deletion == Deletion(Version(1, 2)) && older == Put(Version(1, 1))
    requires e2 == Put(Version(2, 3)) && e3 == Put(Version(3, 3)) && e4 == Put(Version(4, 3))
    ensures R.Newest([deletion, e2, e3, e4] + [older], [1], 2) == Some(deletion)
    ensures R.Newest([e2, e3, e4] + [older], [1], 2) == Some(older)
  {
    var rest := [e2, e3, e4];
    assert [deletion] + rest == [deletion, e2, e3, e4];
    NoneNewest(rest, [1], 2);
    R.NewestConcat(rest, [older], [1], 2);
    R.NewestConcat([deletion], rest + [older], [1], 2);
    assert [deletion] + (rest + [older]) == [deletion, e2, e3, e4] + [older];
    assert [older][1..] == [] && [deletion][1..] == [];
  }

  lemma {:induction false} NoneNewest(es: seq<R.Entry>, key: Bytes, ts: nat)
    requires forall e :: e in es ==> e.at.key != key
    ensures R.Newest(es, key, ts) == None
  {
    if es != [] {
      NoneNewest(es[1..], key, ts);
    }
  }

  // ---------- to the base level, past a level that still holds tables ----------

  /** The plan takes the only table of level 0 to level 2; what lies in level 1 is in the way of neither the plan nor
      the check. */
  method PlanPastLevel1(t: Table, between: seq<Table>) returns (plan: Option<Plan>, overlap: bool)
    requires WellFormed(t)
    ensures plan.Some? && Claimed(plan.value) == [t] && plan.value.thisLevel == 0 && plan.value.nextLevel == 2
    ensures !overlap && !OverlapBelow([[t], between, []], [t], 3)
  {
    ghost var catalog := map[t.id := Home(0, t)];
    var status := new CompactStatus(3);
    plan := FillLevel0ToBase(status, catalog, 2, [t], [], false, false);
    assert plan.value.top == [t] && plan.value.bottom == [];
    overlap := CheckOverlap([[t], between, []], [t], 3);
  }

  /** The base level is chosen by the size of the last level (src/level/compaction.rs:325-351), so that it may lie
      below a level that still holds tables. A plan to it can undo a deletion: the older version is in that level. */
  method BasePlanUndoes(keepVersions: nat, now: nat)
    returns (levels: seq<seq<Table>>, contents: Contents, plan: Option<Plan>,
             older: R.Entry, es: seq<R.Entry>, s: R.Setting)
    ensures StoreOk(levels, contents) && plan.Some? && plan.value.thisLevel == 0 && plan.value.nextLevel == 2
    ensures Divides(levels, contents, Claimed(plan.value), 2, es, [older], [])
    ensures s.hasOverlap == OverlapBelow(levels, Claimed(plan.value), 3)
    ensures R.Sorted(es) && R.ReadsLater(es, s, now)
    ensures R.Visible(es + [older], [1], 2, now) == None
    ensures R.Visible(R.Retain(es, R.Fresh(), s) + [older], [1], 2, now) == Some(older)
  {
    var deletion := Deletion(Version(1, 2));
    older, es := Put(Version(1, 1)), [deletion];
    var t, u := Single(0, deletion, 1), Single(1, older, 1);
    SingleOk(0, deletion, 1);
    SingleOk(1, older, 1);
    var overlap;
    plan, overlap := PlanPastLevel1(t, [u]);
    levels, contents := [[t], [u], []], ContentsOf([deletion, older]);
    s := R.Setting(2, keepVersions, overlap, e => now);
    OneAboveOther(t, u, deletion, older, contents);
    assert es + [older] == [deletion] + [older];
    R.DeletionUndone([], keepVersions, now);
  }

  lemma OneAboveOther(t: Table, u: Table, e: R.Entry, f: R.Entry, contents: Contents)
    requires t == Single(0, e, t.size) && u == Single(1, f, u.size) && contents(0) == [e] && contents(1) == [f]
    requires f.at.ts < e.at.ts
    ensures StoreOk([[t], [u], []], contents) && Divides([[t], [u], []], contents, [t], 2, [e], [f], [])
  {
    LeTotal(e.at, e.at);
    LeTotal(f.at, f.at);
    var levels := [[t], [u], []];
    assert InBounds(contents, t) && InBounds(contents, u) && OlderThan(contents, u, t);
    assert levels[1] == [u] && LeftIn(levels, contents, [t], 0, 3, f);
  }
}
