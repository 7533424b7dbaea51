/** A whole compaction between two levels: the plan, the tables its tasks write, and the target level afterwards. */
module CompactionStep {
  import opened Keys
  import opened Ranges
  import opened Levels
  import opened LevelHandlers
  import opened Plans
  import opened FillPlans
  import opened Retention
  import opened GarbageCollection
  import opened Splits
  import opened Compact
  import opened AddKeysLoop
  import Seqs

  /** `news` are the tables of the outputs: their bounds are the first and the last key. */
  ghost predicate TablesOf(news: seq<Table>, outs: seq<seq<Entry>>) {
    && |news| == |outs|
    && (forall i :: 0 <= i < |outs| ==> TableOf(news[i], outs[i]))
  }

  ghost predicate TableOf(t: Table, out: seq<Entry>) {
    out != [] && t.smallest == out[0].at && t.biggest == out[|out| - 1].at
  }

  /** Entry `k` of output `i` within all outputs. */
  lemma Located(outs: seq<seq<Entry>>, i: nat, k: nat)
    requires i < |outs| && k < |outs[i]|
    ensures var lo := |Seqs.Flatten(outs[..i])|;
      lo + k < |Seqs.Flatten(outs)| && Seqs.Flatten(outs)[lo + k] == outs[i][k]
  {
    Seqs.FlattenPart(outs, i);
    var lo := |Seqs.Flatten(outs[..i])|;
    assert Seqs.Flatten(outs)[lo..lo + |outs[i]|][k] == outs[i][k];
  }

  lemma OutputsFollow(outs: seq<seq<Entry>>, i: nat, j: nat)
    requires i < j < |outs|
    ensures |Seqs.Flatten(outs[..i])| + |outs[i]| <= |Seqs.Flatten(outs[..j])|
  {
    Seqs.FlattenPart(outs, i);
    Seqs.FlattenPrefix(outs[..j], i + 1);
    assert outs[..j][..i + 1] == outs[..i + 1];
  }

  lemma OutputBefore(news: seq<Table>, outs: seq<seq<Entry>>, i: nat, j: nat)
    requires TablesOf(news, outs) && Sorted(Seqs.Flatten(outs)) && i < j < |news|
    ensures Lt(news[i].biggest, news[j].smallest)
  {
    assert TableOf(news[i], outs[i]) && TableOf(news[j], outs[j]);
    Located(outs, i, |outs[i]| - 1);
    Located(outs, j, 0);
    OutputsFollow(outs, i, j);
  }

  lemma OutputWellFormed(news: seq<Table>, outs: seq<seq<Entry>>, i: nat)
    requires TablesOf(news, outs) && Sorted(Seqs.Flatten(outs)) && i < |news|
    requires forall e :: e in Seqs.Flatten(outs) ==> e.at.key != []
    ensures WellFormed(news[i])
  {
    assert TableOf(news[i], outs[i]);
    Located(outs, i, 0);
    Located(outs, i, |outs[i]| - 1);
    LeTotal(news[i].smallest, news[i].biggest);
  }

  /** Tables written one after the other do not meet. */
  lemma OutputsApart(news: seq<Table>, outs: seq<seq<Entry>>)
    requires TablesOf(news, outs) && Sorted(Seqs.Flatten(outs))
    requires forall e :: e in Seqs.Flatten(outs) ==> e.at.key != []
    ensures AllApart(news)
  {
    forall i, j | 0 <= i < j < |news|
      ensures Apart(news[i], news[j])
    {
      OutputBefore(news, outs, i, j);
    }
    forall t | t in news
      ensures WellFormed(t)
    {
      var i :| 0 <= i < |news| && news[i] == t;
      OutputWellFormed(news, outs, i);
    }
  }

  /** What is written comes from the stream, hence from the compacted tables. */
  lemma OutputsDrawn(news: seq<Table>, outs: seq<seq<Entry>>, es: seq<Entry>, s: Setting, tables: seq<Table>)
    requires TablesOf(news, outs) && Seqs.Flatten(outs) == Retain(es, Fresh(), s) && StoredIn(es, tables)
    ensures forall n :: n in news ==> DrawnFrom(n, tables)
  {
    forall n | n in news
      ensures DrawnFrom(n, tables)
    {
      var i :| 0 <= i < |news| && news[i] == n;
      assert TableOf(news[i], outs[i]);
      var last := |outs[i]| - 1;
      Located(outs, i, 0);
      Located(outs, i, last);
      RetainSubset(es, Fresh(), s, outs[i][0]);
      RetainSubset(es, Fresh(), s, outs[i][last]);
    }
  }

  /** Every key between the bounds of proper tables has a user part. */
  lemma HeldHasKey(t: Table, k: KeyTs)
    requires WellFormed(t) && Holds(t, k)
    ensures k.key != []
  {
  }

  lemma StreamHasKeys(es: seq<Entry>, tables: seq<Table>)
    requires StoredIn(es, tables) && AllWellFormed(tables)
    ensures forall e :: e in es ==> e.at.key != []
  {
    forall e | e in es
      ensures e.at.key != []
    {
      var t :| t in tables && Holds(t, e.at);
      HeldHasKey(t, e.at);
    }
  }

  /** However the tasks cut their output, it keeps the target level in order and free of overlaps. */
  lemma TargetStaysDisjoint(level: nat, next: seq<Table>, p: Plan, es: seq<Entry>, s: Setting,
                            outs: seq<seq<Entry>>, news: seq<Table>)
    requires level > 0 && Disjoint(next) && UniqueIds(next)
    requires BottomOf(next, p.thisRange, p.bottom) && Widened(p.thisRange) && InsideRange(p.top, p.thisRange)
    requires AllWellFormed(Claimed(p)) && Sorted(es) && StoredIn(es, Claimed(p))
    requires Seqs.Flatten(outs) == Retain(es, Fresh(), s) && TablesOf(news, outs)
    ensures Disjoint(Arrange(level, Without(next, Ids(p.bottom)) + news))
  {
    RetainSorted(es, Fresh(), s);
    StreamHasKeys(es, Claimed(p));
    forall e | e in Seqs.Flatten(outs)
      ensures e.at.key != []
    {
      RetainSubset(es, Fresh(), s, e);
    }
    OutputsApart(news, outs);
    OutputsDrawn(news, outs, es, s, Claimed(p));
    var lo: nat, hi: nat :| lo <= hi && Overlapped(next, p.thisRange, lo, hi) && p.bottom == next[lo..hi];
    ReplaceKeepsDisjoint(level, next, p.top, p.thisRange, lo, hi, news);
  }

  /** The end of a compaction: the target level gets the new tables in place of the plan's bottom. The plan is one that
      `FillTables` or `FillLevel0ToBase` made, the outputs are those of its tasks. */
  method Install(target: LevelHandler, ghost catalog: map<nat, Home>, p: Plan, news: seq<Table>,
                 ghost es: seq<Entry>, ghost s: Setting, ghost outs: seq<seq<Entry>>)
    requires target.level > 0 && Disjoint(target.tables) && UniqueIds(target.tables)
    requires PlanOk(catalog, p) && BottomOf(target.tables, p.thisRange, p.bottom) && Widened(p.thisRange)
    requires Sorted(es) && StoredIn(es, Claimed(p))
    requires Seqs.Flatten(outs) == Retain(es, Fresh(), s) && TablesOf(news, outs)
    modifies target
    ensures target.Valid() && Disjoint(target.tables)
    ensures target.tables == Arrange(target.level, Without(old(target.tables), Ids(p.bottom)) + news)
  {
    forall t | t in Claimed(p)
      ensures WellFormed(t)
    {
      assert t in p.top ==> Lives(catalog, p.thisLevel, t);
      assert t in p.bottom ==> Lives(catalog, p.nextLevel, t);
    }
    TargetStaysDisjoint(target.level, target.tables, p, es, s, outs, news);
    target.Replace(p.bottom, news);
  }

  // ---------- from the plan to the level ----------

  lemma {:induction false} TasksSnoc(splits: seq<KeyTsRange>, r: KeyTsRange, es: seq<Entry>, s: Setting)
    ensures TasksRetain(splits + [r], es, s) == TasksRetain(splits, es, s) + Retain(Part(es, r), Fresh(), s)
  {
    var all, part := splits + [r], Retain(Part(es, r), Fresh(), s);
    if splits == [] {
      assert all[0] == r && all[1..] == [] && part + [] == part;
    } else {
      TasksSnoc(splits[1..], r, es, s);
      assert all[0] == splits[0] && all[1..] == splits[1..] + [r];
      Seqs.Regroup(Retain(Part(es, splits[0]), Fresh(), s), TasksRetain(splits[1..], es, s), part);
    }
  }

  /** No user key has versions in two outputs. */
  ghost predicate OwnKeys(outs: seq<seq<Entry>>) {
    forall a, b, e, f :: 0 <= a < b < |outs| && e in outs[a] && f in outs[b] ==> e.at.key != f.at.key
  }

  /** The ranges that tasks work on: none divides the versions of a user key, and no entry is in two of them. */
  ghost predicate TaskRanges(splits: seq<KeyTsRange>, es: seq<Entry>) {
    && (forall i :: 0 <= i < |splits| ==> WholeKeys(es, splits[i]) && RightWay(splits[i]))
    && (forall e, i, j :: 0 <= i < j < |splits| && e in es && InSplit(splits[i], e.at) ==> !InSplit(splits[j], e.at))
  }

  ghost predicate FromSplit(es: seq<Entry>, splits: seq<KeyTsRange>, n: nat, e: Entry) {
    e in es && exists k :: 0 <= k < n <= |splits| && InSplit(splits[k], e.at)
  }

  /** The outputs come from the first `n` splits. */
  ghost predicate WrittenBy(outs: seq<seq<Entry>>, es: seq<Entry>, splits: seq<KeyTsRange>, n: nat) {
    && OwnKeys(outs)
    && (forall a, e :: 0 <= a < |outs| && e in outs[a] ==> FromSplit(es, splits, n, e))
  }

  lemma InSomeOutput(outs: seq<seq<Entry>>, i: nat, e: Entry)
    requires i < |outs| && e in outs[i]
    ensures e in Seqs.Flatten(outs)
  {
    var k :| 0 <= k < |outs[i]| && outs[i][k] == e;
    Located(outs, i, k);
  }

  lemma KeysOfSplits(es: seq<Entry>, splits: seq<KeyTsRange>, n: nat, e: Entry, f: Entry)
    requires TaskRanges(splits, es) && n < |splits|
    requires FromSplit(es, splits, n, e) && f in es && InSplit(splits[n], f.at)
    ensures e.at.key != f.at.key
  {
    var k :| 0 <= k < n && InSplit(splits[k], e.at);
    var i :| 0 <= i < |es| && es[i] == e;
    var j :| 0 <= j < |es| && es[j] == f;
    assert WholeKeys(es, splits[k]) && !InSplit(splits[k], es[j].at);
  }

  lemma TaskWrites(tables: seq<seq<Entry>>, es: seq<Entry>, s: Setting, r: KeyTsRange, a: nat, e: Entry)
    requires a < |tables| && e in tables[a] && Seqs.Flatten(tables) == Retain(Part(es, r), Fresh(), s)
    ensures e in es && InSplit(r, e.at)
  {
    InSomeOutput(tables, a, e);
    RetainSubset(Part(es, r), Fresh(), s, e);
    InPart(es, r, e);
  }

  /** One task more. */
  lemma TaskJoins(outs: seq<seq<Entry>>, tables: seq<seq<Entry>>, es: seq<Entry>, s: Setting,
                  splits: seq<KeyTsRange>, n: nat)
    requires TaskRanges(splits, es) && n < |splits| && WrittenBy(outs, es, splits, n)
    requires KeysApart(tables) && Seqs.Flatten(tables) == Retain(Part(es, splits[n]), Fresh(), s)
    ensures WrittenBy(outs + tables, es, splits, n + 1)
  {
    var all := outs + tables;
    forall a, e | 0 <= a < |all| && e in all[a]
      ensures FromSplit(es, splits, n + 1, e)
    {
      if a < |outs| {
        assert FromSplit(es, splits, n, e);
      } else {
        TaskWrites(tables, es, s, splits[n], a - |outs|, e);
      }
    }
    forall a, b, e: Entry, f: Entry | 0 <= a < b < |all| && e in all[a] && f in all[b]
      ensures e.at.key != f.at.key
    {
      TaskOwns(outs, tables, es, s, splits, n, a, b, e, f);
    }
  }

  lemma TaskOwns(outs: seq<seq<Entry>>, tables: seq<seq<Entry>>, es: seq<Entry>, s: Setting,
                 splits: seq<KeyTsRange>, n: nat, a: nat, b: nat, e: Entry, f: Entry)
    requires TaskRanges(splits, es) && n < |splits| && WrittenBy(outs, es, splits, n)
    requires KeysApart(tables) && Seqs.Flatten(tables) == Retain(Part(es, splits[n]), Fresh(), s)
    requires a < b < |outs + tables| && e in (outs + tables)[a] && f in (outs + tables)[b]
    ensures e.at.key != f.at.key
  {
    if b >= |outs| {
      if a < |outs| {
        OutputFrom(outs, es, splits, n, a, e);
        TaskWrites(tables, es, s, splits[n], b - |outs|, f);
        KeysOfSplits(es, splits, n, e, f);
      } else {
        TablesOwn(tables, a - |outs|, b - |outs|, e, f);
      }
    } else {
      OutputsOwn(outs, a, b, e, f);
    }
  }

  lemma OutputFrom(outs: seq<seq<Entry>>, es: seq<Entry>, splits: seq<KeyTsRange>, n: nat, a: nat, e: Entry)
    requires WrittenBy(outs, es, splits, n) && a < |outs| && e in outs[a]
    ensures FromSplit(es, splits, n, e)
  {
  }

  lemma OutputsOwn(outs: seq<seq<Entry>>, a: nat, b: nat, e: Entry, f: Entry)
    requires OwnKeys(outs) && a < b < |outs| && e in outs[a] && f in outs[b]
    ensures e.at.key != f.at.key
  {
  }

  lemma TablesOwn(tables: seq<seq<Entry>>, a: nat, b: nat, e: Entry, f: Entry)
    requires KeysApart(tables) && a < b < |tables| && e in tables[a] && f in tables[b]
    ensures e.at.key != f.at.key
  {
  }

  /** A task for each split; their outputs in the order of the splits. */
  method RunTasks(splits: seq<KeyTsRange>, es: seq<Entry>, s: Setting, full: (nat, nat) -> bool, crowded: nat -> bool)
    returns (outs: seq<seq<Entry>>)
    requires Sorted(es) && HasRoom(full, es) && TaskRanges(splits, es)
    ensures Seqs.Flatten(outs) == TasksRetain(splits, es, s) && OwnKeys(outs)
    ensures forall o :: o in outs ==> o != []
  {
    outs := [];
    for i := 0 to |splits|
      invariant Seqs.Flatten(outs) == TasksRetain(splits[..i], es, s) && WrittenBy(outs, es, splits, i)
      invariant forall o :: o in outs ==> o != []
    {
      assert WholeKeys(es, splits[i]) && RightWay(splits[i]);
      var tables := SubCompact(es, splits[i], s, full, crowded);
      TaskJoins(outs, tables, es, s, splits, i);
      TasksJoined(outs, tables, splits, i, es, s);
      outs := outs + tables;
    }
    assert splits[..|splits|] == splits;
  }

  lemma TasksJoined(outs: seq<seq<Entry>>, tables: seq<seq<Entry>>, splits: seq<KeyTsRange>, i: nat,
                    es: seq<Entry>, s: Setting)
    requires i < |splits| && Seqs.Flatten(outs) == TasksRetain(splits[..i], es, s)
    requires Seqs.Flatten(tables) == Retain(Part(es, splits[i]), Fresh(), s)
    ensures Seqs.Flatten(outs + tables) == TasksRetain(splits[..i + 1], es, s)
  {
    Seqs.FlattenConcat(outs, tables);
    TasksSnoc(splits[..i], splits[i], es, s);
    assert splits[..i + 1] == splits[..i] + [splits[i]];
  }

  /** The ends of a range are in order. */
  ghost predicate RightWay(r: KeyTsRange) {
    IsDefault(r.right) || IsDefault(r.left) || Le(r.left, r.right)
  }

  /** The left end of a plan is before everything its tables hold. */
  lemma PlanCovers(p: Plan, es: seq<Entry>)
    requires Widened(p.thisRange) && Widened(p.nextRange) && StoredIn(es, Claimed(p))
    requires InsideRange(p.top, p.thisRange) && InsideRange(p.bottom, p.nextRange)
    ensures var left := Extend(p.thisRange, p.nextRange).left;
      left.ts == MAX_TS && forall e :: e in es ==> Le(left, e.at)
  {
    var r := Extend(p.thisRange, p.nextRange);
    forall e | e in es
      ensures Le(r.left, e.at)
    {
      var t :| t in Claimed(p) && Holds(t, e.at);
      ExtendKeeps(p.thisRange, p.nextRange, t);
      LeTransitive(r.left, t.smallest, e.at);
    }
  }

  /** The splits of a plan, or the one range for everything. */
  method SplitsOf(p: Plan, ghost es: seq<Entry>, ghost s: Setting) returns (splits: seq<KeyTsRange>)
    requires Disjoint(p.bottom) && Widened(p.thisRange) && Widened(p.nextRange)
    requires InsideRange(p.top, p.thisRange) && InsideRange(p.bottom, p.nextRange)
    requires Sorted(es) && StoredIn(es, Claimed(p)) && forall e :: e in es ==> e.at.ts > 0
    ensures TaskRanges(splits, es) && TasksRetain(splits, es, s) == Retain(es, Fresh(), s)
  {
    ghost var width;
    splits, width := AddSplits(p.bottom, p.thisRange, p.nextRange);
    if |splits| == 0 {
      splits := [DefaultRange()];
      PartOfDefault(es);
      assert splits[1..] == [] && Retain(es, Fresh(), s) + [] == Retain(es, Fresh(), s);
    } else {
      ghost var left := Extend(p.thisRange, p.nextRange).left;
      PlanCovers(p, es);
      TasksRetainAll(splits, left, es, s);
      forall i | 0 <= i < |splits|
        ensures WholeKeys(es, splits[i]) && RightWay(splits[i])
      {
        SplitsWhole(splits, left, es, i);
        assert i < |splits| - 1 ==> Joined(splits[i], splits[i + 1]);
      }
      forall e, i, j | 0 <= i < j < |splits| && e in es && InSplit(splits[i], e.at)
        ensures !InSplit(splits[j], e.at)
      {
        var k := CoveredOnce(splits, left, e.at);
      }
    }
  }

  /** A table for each output; ids and sizes are given. */
  method NameTables(outs: seq<seq<Entry>>, id: nat -> nat, size: seq<Entry> -> nat) returns (news: seq<Table>)
    requires forall o :: o in outs ==> o != []
    ensures TablesOf(news, outs) && forall i :: 0 <= i < |news| ==> news[i].id == id(i)
  {
    news := [];
    for i := 0 to |outs|
      invariant TablesOf(news, outs[..i]) && forall k :: 0 <= k < i ==> news[k].id == id(k)
    {
      assert outs[i] in outs;
      var t := Table(id(i), outs[i][0].at, outs[i][|outs[i]| - 1].at, size(outs[i]));
      assert outs[..i + 1] == outs[..i] + [outs[i]] && TableOf(t, outs[i]);
      news := news + [t];
    }
    assert outs[..|outs|] == outs;
  }

  /** A whole compaction: the plan is split, a task for each split writes its tables, the target level gets them in
      place of the plan's bottom, and the plan's top leaves the source level. The target level stays in order and free
      of overlaps, and holds, besides what stays, exactly the retained entries, no user key in two tables. `es` is the
      merged stream of the plan's tables. */
  method CompactPlan(source: LevelHandler, target: LevelHandler, ghost catalog: map<nat, Home>, p: Plan,
                     es: seq<Entry>, s: Setting, full: (nat, nat) -> bool, crowded: nat -> bool,
                     id: nat -> nat, size: seq<Entry> -> nat)
    returns (outs: seq<seq<Entry>>, news: seq<Table>)
    requires source != target && source.Valid()
    requires target.level > 0 && Disjoint(target.tables) && UniqueIds(target.tables)
    requires HasRoom(full, es)
    requires PlanOk(catalog, p) && BottomOf(target.tables, p.thisRange, p.bottom)
    requires Widened(p.thisRange) && Widened(p.nextRange)
    requires Sorted(es) && StoredIn(es, Claimed(p)) && forall e :: e in es ==> e.at.ts > 0
    modifies source, target
    ensures source.Valid() && source.tables == Without(old(source.tables), Ids(p.top))
    ensures target.Valid() && Disjoint(target.tables)
    ensures target.tables == Arrange(target.level, Without(old(target.tables), Ids(p.bottom)) + news)
    ensures TablesOf(news, outs) && OwnKeys(outs) && Seqs.Flatten(outs) == Retain(es, Fresh(), s)
    ensures forall i :: 0 <= i < |news| ==> news[i].id == id(i)
  {
    BottomDisjoint(target.tables, p.thisRange, p.bottom);
    var splits := SplitsOf(p, es, s);
    outs := RunTasks(splits, es, s, full, crowded);
    news := NameTables(outs, id, size);
    Install(target, catalog, p, news, es, s, outs);
    source.Delete(p.top);
  }

  lemma BottomDisjoint(next: seq<Table>, r: KeyTsRange, bottom: seq<Table>)
    requires Disjoint(next) && BottomOf(next, r, bottom)
    ensures Disjoint(bottom)
  {
    var lo: nat, hi: nat :| lo <= hi && Overlapped(next, r, lo, hi) && bottom == next[lo..hi];
    forall i, j | 0 <= i < j < |bottom|
      ensures Lt(bottom[i].biggest, bottom[j].smallest)
    {
      assert bottom[i] == next[lo + i] && bottom[j] == next[lo + j];
    }
  }
}
