/** The order of level 0, which goes by the ids of its tables: what a flush and a compaction within level 0 do to it. */
module Level0Order {
  import opened Options
  import opened Bytes
  import opened Keys
  import opened Ranges
  import opened Levels
  import opened Plans
  import opened CompactionStep
  import opened StoreOrder
  import opened PlanOrder
  import opened StoreStep
  import R = Retention
  import Seqs

  // ---------- a flush ----------

  /** A memtable that is flushed holds only versions newer than those in the store: the store stays in order. */
  lemma FlushKeepsOrder(levels: seq<seq<Table>>, contents: Contents, t: Table)
    requires |levels| > 0 && StoreOk(levels, contents) && InBounds(contents, t)
    requires forall l, u :: 0 <= l < |levels| && u in levels[l] ==> OlderThan(contents, u, t)
    ensures StoreOk(levels[0 := levels[0] + [t]], contents)
  {
    var after := levels[0 := levels[0] + [t]];
    forall i, j | 0 <= i < j < |after[0]|
      ensures OlderThan(contents, after[0][i], after[0][j])
    {
      assert levels[0][i] in levels[0];
    }
  }

  // ---------- a compaction within level 0 ----------

  /** New tables get new, higher ids. */
  ghost predicate Youngest(level0: seq<Table>, news: seq<Table>) {
    forall t, n :: t in level0 && n in news ==> t.id < n.id
  }

  /** No table that stays behind a claimed one, by its age, may hold newer versions of what is claimed: the output ends
      up behind it. */
  ghost predicate ClearBehind(levels: seq<seq<Table>>, p: Plan)
    requires |levels| > 0
  {
    forall c, u :: c in p.top && u !in p.top && InFront(levels[0], c, u) ==> !MayHide(u, c)
  }

  lemma ByIdOlder(levels: seq<seq<Table>>, contents: Contents, t: Table, u: Table)
    requires |levels| > 0 && StoreOk(levels, contents) && Ordered(0, levels[0])
    requires t in levels[0] && u in levels[0] && t.id < u.id
    ensures OlderThan(contents, t, u) && InFront(levels[0], t, u)
  {
    var i := PlaceOf(levels, t, 0);
    var j := PlaceOf(levels, u, 0);
    assert j < i ==> !Levels.Before(0, levels[0][i], levels[0][j]);
    assert OlderThan(contents, levels[0][i], levels[0][j]);
  }

  lemma OrderedAfter(levels: seq<seq<Table>>, p: Plan, news: seq<Table>)
    requires WithinLevel0(levels, p)
    ensures Ordered(0, After(levels, p, news)[0])
  {
    var arranged := Arrange(0, Without(levels[0], Ids(p.bottom)) + news);
    ArrangeSorts(0, Without(levels[0], Ids(p.bottom)) + news);
    forall i, j | 0 <= i < j < |Without(arranged, Ids(p.top))|
      ensures !Levels.Before(0, Without(arranged, Ids(p.top))[j], Without(arranged, Ids(p.top))[i])
    {
      var i', j' := WithoutKeepsOrder(arranged, Ids(p.top), i, j);
    }
  }

  /** What a claimed table holds is newer than what stays in level 0, or shares no user key with it. */
  lemma StaysOlder(levels: seq<seq<Table>>, contents: Contents, p: Plan, c: Table, u: Table)
    requires UniquePlaces(levels) && StoreOk(levels, contents) && WithinLevel0(levels, p) && Ordered(0, levels[0])
    requires ClearBehind(levels, p) && c in p.top && u !in p.top && u in levels[0]
    ensures OlderThan(contents, u, c)
  {
    var i := PlaceOf(levels, c, 0);
    var j := PlaceOf(levels, u, 0);
    if u.id == c.id {
      SamePlace(levels, 0, i, 0, j);
    } else if u.id < c.id {
      ByIdOlder(levels, contents, u, c);
    } else {
      ByIdOlder(levels, contents, c, u);
      assert InBounds(contents, c) && InBounds(contents, u);
      NothingHidden(contents, u, c);
    }
  }

  /** The output of a compaction within level 0 is newer than everything that stays. */
  lemma OutputNewer(levels: seq<seq<Table>>, contents: Contents, p: Plan, es: seq<R.Entry>, s: R.Setting,
                    outs: seq<seq<R.Entry>>, news: seq<Table>, contents': Contents, n: Table, u: Table, l: nat)
    requires Compacts(levels, contents, p, es, s, outs, news, contents') && WithinLevel0(levels, p)
    requires ClearBehind(levels, p) && Ordered(0, levels[0]) && n in news && Stays(levels, p, l, u)
    ensures OlderThan(contents', u, n)
  {
    var i :| 0 <= i < |news| && news[i] == n;
    forall e, f | f in contents'(u.id) && e in contents'(n.id) && e.at.key == f.at.key
      ensures f.at.ts < e.at.ts
    {
      var c := NewFrom(levels, contents, Claimed(p), es, s, outs, news, contents', i, e);
      ClaimedNewer(levels, contents, p, c, u, l);
    }
  }

  lemma ClaimedNewer(levels: seq<seq<Table>>, contents: Contents, p: Plan, c: Table, u: Table, l: nat)
    requires UniquePlaces(levels) && StoreOk(levels, contents) && WithinLevel0(levels, p) && Ordered(0, levels[0])
    requires ClearBehind(levels, p) && c in Claimed(p) && Stays(levels, p, l, u)
    ensures OlderThan(contents, u, c)
  {
    if l == 0 {
      StaysOlder(levels, contents, p, c, u);
    } else {
      assert c in levels[0] && u in levels[l];
    }
  }

  lemma Level0Pair(levels: seq<seq<Table>>, contents: Contents, p: Plan, es: seq<R.Entry>, s: R.Setting,
                   outs: seq<seq<R.Entry>>, news: seq<Table>, contents': Contents, t: Table, u: Table)
    requires Compacts(levels, contents, p, es, s, outs, news, contents') && WithinLevel0(levels, p)
    requires ClearBehind(levels, p) && Ordered(0, levels[0]) && Youngest(levels[0], news)
    requires t in After(levels, p, news)[0] && u in After(levels, p, news)[0] && t.id < u.id
    ensures OlderThan(contents', t, u)
  {
    TablesAfter(levels, p, news, 0, t);
    TablesAfter(levels, p, news, 0, u);
    if t in news && u in news {
      NewVersusNew(outs, news, contents', t, u);
    } else if u in news {
      OutputNewer(levels, contents, p, es, s, outs, news, contents', u, t, 0);
    } else {
      ByIdOlder(levels, contents, t, u);
    }
  }

  lemma LowerPair(levels: seq<seq<Table>>, contents: Contents, p: Plan, es: seq<R.Entry>, s: R.Setting,
                  outs: seq<seq<R.Entry>>, news: seq<Table>, contents': Contents, k: nat, l: nat, t: Table, u: Table)
    requires Compacts(levels, contents, p, es, s, outs, news, contents') && WithinLevel0(levels, p)
    requires ClearBehind(levels, p) && Ordered(0, levels[0]) && k < l < |levels|
    requires t in After(levels, p, news)[k] && u in After(levels, p, news)[l]
    ensures OlderThan(contents', u, t)
  {
    TablesAfter(levels, p, news, k, t);
    TablesAfter(levels, p, news, l, u);
    if Stays(levels, p, k, t) {
      assert OlderThan(contents, u, t);
    } else {
      OutputNewer(levels, contents, p, es, s, outs, news, contents', t, u, l);
    }
  }

  lemma ClearKeepsOrder(levels: seq<seq<Table>>, contents: Contents, p: Plan, es: seq<R.Entry>, s: R.Setting,
                        outs: seq<seq<R.Entry>>, news: seq<Table>, contents': Contents)
    requires Compacts(levels, contents, p, es, s, outs, news, contents') && WithinLevel0(levels, p)
    requires ClearBehind(levels, p) && Ordered(0, levels[0]) && Youngest(levels[0], news)
    ensures StoreOk(After(levels, p, news), contents')
  {
    var after := After(levels, p, news);
    OrderedAfter(levels, p, news);
    PlacesKept(levels, contents, p, es, s, outs, news, contents');
    forall l, t | 0 <= l < |after| && t in after[l]
      ensures InBounds(contents', t)
    {
      BoundsAfter(levels, contents, p, es, s, outs, news, contents', l, t);
    }
    forall k, l, t, u | 0 <= k < l < |after| && t in after[k] && u in after[l]
      ensures OlderThan(contents', u, t)
    {
      LowerPair(levels, contents, p, es, s, outs, news, contents', k, l, t, u);
    }
    forall i, j | 0 <= i < j < |after[0]|
      ensures OlderThan(contents', after[0][i], after[0][j])
    {
      IdsAscend(after[0], i, j);
      Level0Pair(levels, contents, p, es, s, outs, news, contents', after[0][i], after[0][j]);
    }
    forall l, t, u | 1 <= l < |after| && t in after[l] && u in after[l] && t != u
      ensures NoSharedKey(contents', t, u)
    {
      TablesAfter(levels, p, news, l, t);
      TablesAfter(levels, p, news, l, u);
      assert NoSharedKey(contents, t, u);
    }
  }

  lemma IdsAscend(ts: seq<Table>, i: nat, j: nat)
    requires Ordered(0, ts) && UniqueIds(ts) && i < j < |ts|
    ensures ts[i].id < ts[j].id && ts[i] in ts && ts[j] in ts
  {
    assert !Levels.Before(0, ts[j], ts[i]);
  }

  // ---------- and what happens otherwise ----------

  lemma {:induction false} IdAbove(ts: seq<Table>) returns (id: nat)
    ensures forall t :: t in ts ==> t.id < id
  {
    id := 0;
    if ts != [] {
      var rest := IdAbove(ts[1..]);
      id := if ts[0].id < rest then rest else ts[0].id + 1;
      assert forall t :: t in ts ==> t == ts[0] || t in ts[1..];
    }
  }

  lemma {:induction false} IdAboveAll(levels: seq<seq<Table>>) returns (id: nat)
    ensures forall l, t :: 0 <= l < |levels| && t in levels[l] ==> t.id < id
  {
    id := 0;
    if levels != [] {
      var n := |levels| - 1;
      var rest := IdAboveAll(levels[..n]);
      var last := IdAbove(levels[n]);
      id := if last < rest then rest else last;
      forall l, t | 0 <= l < |levels| && t in levels[l]
        ensures t.id < id
      {
        assert l < n ==> t in levels[..n][l];
      }
    }
  }

  /** What is kept of a single live entry: itself. */
  lemma OneRetained(f: R.Entry, now: nat)
    requires f == Put(f.at)
    ensures R.Retain([f], R.Fresh(), R.Setting(0, 2, false, _ => now)) == [f]
  {
    assert [f][1..] == [];
  }

  /** A newer version stays in `u`, an older one moves from `c` into a new table. */
  lemma OneMoved(levels: seq<seq<Table>>, p: Plan, i: nat, j: nat, e: R.Entry, f: R.Entry)
    returns (id: nat, contents: Contents, contents': Contents, s: R.Setting)
    requires UniquePlaces(levels) && WithinLevel0(levels, p) && j < i < |levels[0]|
    requires levels[0][j] in p.top && levels[0][i] !in p.top && f.at.ts < e.at.ts && f == Put(f.at)
    requires Holds(levels[0][i], e.at) && Holds(levels[0][j], f.at)
    ensures var news := [Table(id, f.at, f.at, 0)];
      && Compacts(levels, contents, p, [f], s, [[f]], news, contents') && Youngest(levels[0], news)
      && contents'(id) == [f] && contents'(levels[0][i].id) == [e]
  {
    var u, c := levels[0][i], levels[0][j];
    id := IdAboveAll(levels);
    s := R.Setting(0, 2, false, _ => 0);
    contents := TwoEntries(u.id, e, c.id, f);
    var before := contents;
    contents' := (n: nat) => if n == id then [f] else before(n);
    TwoEntriesInOrder(levels, 0, i, 0, j, e, f);
    HeldAt(levels, 0, i, 0, j, e, f, 0, i);
    HeldAt(levels, 0, i, 0, j, e, f, 0, j);
    OneMerged(levels, p, i, j, e, f);
    OneWritten(levels, contents, f, s, id, contents');
  }

  lemma OneWritten(levels: seq<seq<Table>>, contents: Contents, f: R.Entry, s: R.Setting, id: nat, contents': Contents)
    requires f == Put(f.at) && s == R.Setting(0, 2, false, _ => 0) && contents'(id) == [f]
    requires forall n :: n != id ==> contents'(n) == contents(n)
    requires forall l, t :: 0 <= l < |levels| && t in levels[l] ==> t.id < id
    ensures Written(levels, contents, [f], s, [[f]], [Table(id, f.at, f.at, 0)], contents')
  {
    OneRetained(f, 0);
    assert Seqs.Flatten([[f]][..0]) == [] && [] + [f] == [f];
  }

  lemma OneMerged(levels: seq<seq<Table>>, p: Plan, i: nat, j: nat, e: R.Entry, f: R.Entry)
    requires UniquePlaces(levels) && WithinLevel0(levels, p) && j < i < |levels[0]|
    requires levels[0][j] in p.top && levels[0][i] !in p.top
    ensures Merged(TwoEntries(levels[0][i].id, e, levels[0][j].id, f), Claimed(p), [f])
  {
    var contents := TwoEntries(levels[0][i].id, e, levels[0][j].id, f);
    HeldAt(levels, 0, i, 0, j, e, f, 0, j);
    forall t | t in Claimed(p)
      ensures forall g :: g in contents(t.id) ==> g == f
    {
      var x := PlaceOf(levels, t, 0);
      HeldAt(levels, 0, i, 0, j, e, f, 0, x);
    }
    assert f in contents(levels[0][j].id);
  }

  /** The store afterwards is in order. */
  ghost predicate LeavesOrder(levels: seq<seq<Table>>, contents: Contents, p: Plan, es: seq<R.Entry>, s: R.Setting,
                              outs: seq<seq<R.Entry>>, news: seq<Table>, contents': Contents)
    requires p.thisLevel < |levels| && p.nextLevel < |levels|
  {
    Compacts(levels, contents, p, es, s, outs, news, contents') && Youngest(levels[0], news)
    ==> StoreOk(After(levels, p, news), contents')
  }

  lemma ClearLeavesOrder(levels: seq<seq<Table>>, contents: Contents, p: Plan, es: seq<R.Entry>, s: R.Setting,
                         outs: seq<seq<R.Entry>>, news: seq<Table>, contents': Contents)
    requires WithinLevel0(levels, p) && ClearBehind(levels, p) && Ordered(0, levels[0])
    ensures LeavesOrder(levels, contents, p, es, s, outs, news, contents')
  {
    if Compacts(levels, contents, p, es, s, outs, news, contents') && Youngest(levels[0], news) {
      ClearKeepsOrder(levels, contents, p, es, s, outs, news, contents');
    }
  }

  /** Otherwise the older version ends up behind the newer one. */
  lemma OutOfOrder(levels: seq<seq<Table>>, p: Plan, c: Table, u: Table)
    returns (contents: Contents, f: R.Entry, s: R.Setting, news: seq<Table>, contents': Contents)
    requires UniquePlaces(levels) && WithinLevel0(levels, p) && Ordered(0, levels[0])
    requires c in p.top && u !in p.top && InFront(levels[0], c, u) && MayHide(u, c)
    ensures !LeavesOrder(levels, contents, p, [f], s, [[f]], news, contents')
  {
    var j, i :| 0 <= j < i < |levels[0]| && levels[0][j] == c && levels[0][i] == u;
    var key: Bytes, a: TxnTs, b: TxnTs :| a < b && Holds(c, KeyTs(key, a)) && Holds(u, KeyTs(key, b));
    var e := Put(KeyTs(key, b));
    f := Put(KeyTs(key, a));
    var id;
    id, contents, contents', s := OneMoved(levels, p, i, j, e, f);
    news := [Table(id, f.at, f.at, 0)];
    Misplaced(levels, contents, p, s, news, contents', u, e, f);
  }

  lemma Misplaced(levels: seq<seq<Table>>, contents: Contents, p: Plan, s: R.Setting, news: seq<Table>,
                  contents': Contents, u: Table, e: R.Entry, f: R.Entry)
    requires Compacts(levels, contents, p, [f], s, [[f]], news, contents') && WithinLevel0(levels, p)
    requires Youngest(levels[0], news) && u in levels[0] && u !in p.top && |news| == 1
    requires contents'(u.id) == [e] && contents'(news[0].id) == [f] && e.at.key == f.at.key && f.at.ts < e.at.ts
    ensures !StoreOk(After(levels, p, news), contents')
  {
    TablesAfter(levels, p, news, 0, u);
    TablesAfter(levels, p, news, 0, news[0]);
    OrderedAfter(levels, p, news);
    if StoreOk(After(levels, p, news), contents') {
      ByIdOlder(After(levels, p, news), contents', u, news[0]);
      assert false;
    }
  }

  lemma ClearAlways(levels: seq<seq<Table>>, p: Plan)
    requires WithinLevel0(levels, p) && Ordered(0, levels[0]) && ClearBehind(levels, p)
    ensures forall contents, es, s, outs, news, contents' ::
              LeavesOrder(levels, contents, p, es, s, outs, news, contents')
  {
    forall contents, es, s, outs, news, contents'
      ensures LeavesOrder(levels, contents, p, es, s, outs, news, contents')
    {
      ClearLeavesOrder(levels, contents, p, es, s, outs, news, contents');
    }
  }

  /** Exactly when a compaction within level 0 leaves every store in order: no table that stays behind a claimed one may
      hold newer versions of what is claimed. */
  lemma Level0OrderIff(levels: seq<seq<Table>>, p: Plan)
    requires UniquePlaces(levels) && WithinLevel0(levels, p) && Ordered(0, levels[0])
    ensures (forall contents, es, s, outs, news, contents' ::
               LeavesOrder(levels, contents, p, es, s, outs, news, contents'))
        <==> ClearBehind(levels, p)
  {
    if ClearBehind(levels, p) {
      ClearAlways(levels, p);
    } else {
      var c, u :| c in p.top && u !in p.top && InFront(levels[0], c, u) && MayHide(u, c);
      NotAlways(levels, p, c, u);
    }
  }

  lemma NotAlways(levels: seq<seq<Table>>, p: Plan, c: Table, u: Table)
    requires UniquePlaces(levels) && WithinLevel0(levels, p) && Ordered(0, levels[0])
    requires c in p.top && u !in p.top && InFront(levels[0], c, u) && MayHide(u, c)
    ensures !forall contents, es, s, outs, news, contents' ::
              LeavesOrder(levels, contents, p, es, s, outs, news, contents')
  {
    var contents, f, s, news, contents' := OutOfOrder(levels, p, c, u);
  }
}
