/** Compaction plans and the status that keeps them apart (src/level/plan.rs,
    src/level/compaction.rs:413-454, 523-603). */
module Plans {
  import opened Keys
  import opened Ranges
  import opened Levels

  datatype Plan = Plan(
    thisLevel: nat,
    nextLevel: nat,
    top: seq<Table>,
    bottom: seq<Table>,
    thisRange: KeyTsRange,
    nextRange: KeyTsRange)

  /** `CompactStatusInner`: the ranges registered per level, and the ids of all claimed tables. */
  datatype Status = Status(ranges: seq<seq<KeyTsRange>>, tables: set<nat>)

  predicate Blocked(ranges: seq<KeyTsRange>, target: KeyTsRange) {
    exists i :: 0 <= i < |ranges| && OverlapsWith(ranges[i], target)
  }

  function Claimed(p: Plan): seq<Table> {
    p.top + p.bottom
  }

  predicate Fits(st: Status, p: Plan) {
    p.thisLevel < |st.ranges| && p.nextLevel < |st.ranges|
  }

  function AddRange(ranges: seq<seq<KeyTsRange>>, level: nat, r: KeyTsRange): seq<seq<KeyTsRange>>
    requires level < |ranges|
  {
    ranges[level := ranges[level] + [r]]
  }

  /** The status after `try_update` accepted the plan. */
  function Registered(st: Status, p: Plan): Status
    requires Fits(st, p)
  {
    Status(AddRange(AddRange(st.ranges, p.thisLevel, p.thisRange), p.nextLevel, p.nextRange),
           st.tables + Ids(Claimed(p)))
  }

  /** The status after a level-0-to-level-0 plan, which registers the infinite range unchecked. */
  function RegisteredLevel0(st: Status, p: Plan): Status
    requires 0 < |st.ranges|
  {
    Status(AddRange(st.ranges, 0, InfRange()), st.tables + Ids(p.top))
  }

  /** A plan for a table is blocked by plans for other tables if and only if one of these shares a user key with it. */
  lemma BlockedIff(ranges: seq<KeyTsRange>, claimed: seq<Table>, t: Table)
    requires |ranges| == |claimed| && AllWellFormed(claimed) && WellFormed(t)
    requires forall i :: 0 <= i < |claimed| ==> ranges[i] == RangeOf(claimed[i])
    ensures Blocked(ranges, RangeOf(t)) <==> exists i :: 0 <= i < |claimed| && ShareUserKey(claimed[i], t)
  {
    forall i | 0 <= i < |claimed|
      ensures OverlapsWith(ranges[i], RangeOf(t)) <==> ShareUserKey(claimed[i], t)
    {
      assert claimed[i] in claimed;
      OverlapIsSharedUserKey(claimed[i], t);
    }
  }

  // ---------- what every plan respects ----------

  /** Table ids are never reused and a table stays where it was created, so an id fixes both. */
  datatype Home = Home(level: nat, table: Table)

  ghost predicate Lives(catalog: map<nat, Home>, level: nat, t: Table) {
    t.id in catalog && catalog[t.id] == Home(level, t) && WellFormed(t)
  }

  ghost predicate AllLive(catalog: map<nat, Home>, level: nat, ts: seq<Table>) {
    forall t :: t in ts ==> Lives(catalog, level, t)
  }

  ghost predicate InsideRange(ts: seq<Table>, r: KeyTsRange) {
    forall t :: t in ts ==> Within(t, r) && !IsEmpty(r)
  }

  ghost predicate PlanOk(catalog: map<nat, Home>, p: Plan) {
    && AllLive(catalog, p.thisLevel, p.top)
    && AllLive(catalog, p.nextLevel, p.bottom)
    && InsideRange(p.top, p.thisRange)
    && InsideRange(p.bottom, p.nextRange)
  }

  /** One more plan is accepted: through `try_update`, or as a level-0-to-level-0 plan. */
  ghost predicate Accepts(catalog: map<nat, Home>, st: Status, p: Plan, st': Status) {
    && Fits(st, p) && PlanOk(catalog, p)
    && (|| (!Blocked(st.ranges[p.thisLevel], p.thisRange) && !Blocked(st.ranges[p.nextLevel], p.nextRange)
            && st' == Registered(st, p))
        || (p.thisLevel == 0 && p.bottom == [] && (forall t :: t in p.top ==> t.id !in st.tables)
            && st' == RegisteredLevel0(st, p)))
  }

  /** Plans accepted one after another, and the statuses in between, starting from an empty one. */
  ghost predicate History(catalog: map<nat, Home>, levels: nat, plans: seq<Plan>, sts: seq<Status>) {
    && |sts| == |plans| + 1
    && sts[0] == Status(seq(levels, _ => []), {})
    && (forall k :: 0 <= k < |plans| ==> Accepts(catalog, sts[k], plans[k], sts[k + 1]))
  }

  // ---------- exclusion ----------

  /** Two ranges around the same table overlap. */
  lemma SharedTableOverlaps(t: Table, r: KeyTsRange, s: KeyTsRange)
    requires WellFormed(t) && Within(t, r) && Within(t, s) && !IsEmpty(r) && !IsEmpty(s)
    ensures OverlapsWith(r, s)
  {
    if !r.inf && !s.inf {
      LeTransitive(r.left, t.smallest, t.biggest);
      LeTransitive(r.left, t.biggest, s.right);
      LeTransitive(s.left, t.smallest, t.biggest);
      LeTransitive(s.left, t.biggest, r.right);
    }
  }

  /** `t` lies inside a range registered for its level. */
  ghost predicate Guarded(st: Status, level: nat, t: Table) {
    level < |st.ranges|
    && exists i :: 0 <= i < |st.ranges[level]| && Within(t, st.ranges[level][i]) && !IsEmpty(st.ranges[level][i])
  }

  /** Every claimed table is recorded, and guarded on its level. */
  ghost predicate Covers(catalog: map<nat, Home>, st: Status, p: Plan) {
    forall t :: t in Claimed(p) ==>
      && t.id in st.tables && t.id in catalog && catalog[t.id].table == t && WellFormed(t)
      && Guarded(st, catalog[t.id].level, t)
  }

  lemma AddRangeKeepsGuarded(st: Status, st': Status, level: nat, r: KeyTsRange, at: nat, t: Table)
    requires level < |st.ranges| && st'.ranges == AddRange(st.ranges, level, r) && Guarded(st, at, t)
    ensures Guarded(st', at, t)
  {
    var i :| 0 <= i < |st.ranges[at]| && Within(t, st.ranges[at][i]) && !IsEmpty(st.ranges[at][i]);
    assert st'.ranges[at][i] == st.ranges[at][i];
  }

  lemma AddRangeGuards(st: Status, st': Status, level: nat, r: KeyTsRange, t: Table)
    requires level < |st.ranges| && st'.ranges == AddRange(st.ranges, level, r)
    requires Within(t, r) && !IsEmpty(r)
    ensures Guarded(st', level, t)
  {
    assert st'.ranges[level][|st.ranges[level]|] == r;
  }

  lemma AcceptsKeepsCovers(catalog: map<nat, Home>, st: Status, p: Plan, st': Status, q: Plan)
    requires Accepts(catalog, st, p, st') && Covers(catalog, st, q)
    ensures Covers(catalog, st', q)
  {
    forall t | t in Claimed(q)
      ensures Guarded(st', catalog[t.id].level, t)
    {
      var at := catalog[t.id].level;
      if st' == Registered(st, p) {
        var mid := st.(ranges := AddRange(st.ranges, p.thisLevel, p.thisRange));
        AddRangeKeepsGuarded(st, mid, p.thisLevel, p.thisRange, at, t);
        AddRangeKeepsGuarded(mid, st', p.nextLevel, p.nextRange, at, t);
      } else {
        AddRangeKeepsGuarded(st, st', 0, InfRange(), at, t);
      }
    }
  }

  lemma AcceptsCovers(catalog: map<nat, Home>, st: Status, p: Plan, st': Status)
    requires Accepts(catalog, st, p, st')
    ensures Covers(catalog, st', p)
  {
    forall t | t in Claimed(p)
      ensures Guarded(st', catalog[t.id].level, t)
    {
      if st' == Registered(st, p) {
        var mid := st.(ranges := AddRange(st.ranges, p.thisLevel, p.thisRange));
        if t in p.top {
          AddRangeGuards(st, mid, p.thisLevel, p.thisRange, t);
          AddRangeKeepsGuarded(mid, st', p.nextLevel, p.nextRange, p.thisLevel, t);
        } else {
          AddRangeGuards(mid, st', p.nextLevel, p.nextRange, t);
        }
      } else {
        AddRangeGuards(st, st', 0, InfRange(), t);
      }
    }
  }

  ghost predicate NoSharedTable(p: Plan, q: Plan) {
    forall t, u :: t in Claimed(p) && u in Claimed(q) ==> t.id != u.id
  }

  /** A plan is not accepted while it shares a table with one that is registered. */
  lemma AcceptsExcludes(catalog: map<nat, Home>, st: Status, q: Plan, p: Plan, st': Status)
    requires Covers(catalog, st, q) && Accepts(catalog, st, p, st')
    ensures NoSharedTable(q, p)
  {
    forall t, u | t in Claimed(q) && u in Claimed(p)
      ensures t.id != u.id
    {
      if t.id == u.id && st' == Registered(st, p)
         && !Blocked(st.ranges[p.thisLevel], p.thisRange) && !Blocked(st.ranges[p.nextLevel], p.nextRange) {
        assert t == u;
        var level := catalog[t.id].level;
        var i :| 0 <= i < |st.ranges[level]| && Within(t, st.ranges[level][i]) && !IsEmpty(st.ranges[level][i]);
        SharedTableOverlaps(t, st.ranges[level][i], if u in p.top then p.thisRange else p.nextRange);
        assert false;
      }
    }
  }

  lemma {:induction false} HistoryCovers(catalog: map<nat, Home>, levels: nat, plans: seq<Plan>, sts: seq<Status>,
                                         i: nat, k: nat)
    requires History(catalog, levels, plans, sts) && i < k <= |plans|
    ensures Covers(catalog, sts[k], plans[i])
    decreases k
  {
    if k == i + 1 {
      AcceptsCovers(catalog, sts[i], plans[i], sts[k]);
    } else {
      HistoryCovers(catalog, levels, plans, sts, i, k - 1);
      AcceptsKeepsCovers(catalog, sts[k - 1], plans[k - 1], sts[k], plans[i]);
    }
  }

  /** Over any sequence of accepted plans no table is claimed twice. */
  lemma NoTableClaimedTwice(catalog: map<nat, Home>, levels: nat, plans: seq<Plan>, sts: seq<Status>, i: nat, j: nat)
    requires History(catalog, levels, plans, sts) && i < j < |plans|
    ensures Ids(Claimed(plans[i])) !! Ids(Claimed(plans[j]))
  {
    HistoryCovers(catalog, levels, plans, sts, i, j);
    AcceptsExcludes(catalog, sts[j], plans[i], plans[j], sts[j + 1]);
  }
}
