/** What a compaction leaves: a store that is in order again, with the same answers for readers. */
module StoreStep {
  import opened Options
  import opened Bytes
  import opened Keys
  import opened Ranges
  import opened Levels
  import opened LevelHandlers
  import opened Plans
  import opened FillPlans
  import opened GarbageCollection
  import opened Splits
  import opened Compact
  import opened CompactionStep
  import opened StoreOrder
  import opened PlanOrder
  import R = Retention
  import AddKeysLoop
  import Seqs

  /** The levels after `replace` on the target level and `delete` on the source level. */
  function After(levels: seq<seq<Table>>, p: Plan, news: seq<Table>): seq<seq<Table>>
    requires p.thisLevel < |levels| && p.nextLevel < |levels|
  {
    var next := levels[p.nextLevel := Arrange(p.nextLevel, Without(levels[p.nextLevel], Ids(p.bottom)) + news)];
    next[p.thisLevel := Without(next[p.thisLevel], Ids(p.top))]
  }

  /** `es` is the merged stream of the claimed tables. */
  ghost predicate Merged(contents: Contents, claimed: seq<Table>, es: seq<R.Entry>) {
    R.Sorted(es) && forall e :: e in es <==> exists t :: t in claimed && e in contents(t.id)
  }

  /** The ids of the new tables are new. */
  ghost predicate NewIds(levels: seq<seq<Table>>, news: seq<Table>) {
    UniqueIds(news) && forall n, l, t :: n in news && 0 <= l < |levels| && t in levels[l] ==> n.id != t.id
  }

  /** The outputs are what is retained, cut between user keys, and the new tables hold them. */
  ghost predicate Written(levels: seq<seq<Table>>, contents: Contents, es: seq<R.Entry>, s: R.Setting,
                          outs: seq<seq<R.Entry>>, news: seq<Table>, contents': Contents) {
    && TablesOf(news, outs) && OwnKeys(outs) && Seqs.Flatten(outs) == R.Retain(es, R.Fresh(), s)
    && NewIds(levels, news)
    && (forall l, t :: 0 <= l < |levels| && t in levels[l] ==> contents'(t.id) == contents(t.id))
    && (forall i :: 0 <= i < |news| ==> contents'(news[i].id) == outs[i])
  }

  // ---------- which tables there are ----------

  lemma {:induction false} InWithout(ts: seq<Table>, ids: set<nat>, t: Table)
    ensures t in Without(ts, ids) <==> t in ts && t.id !in ids
  {
    if ts != [] {
      InWithout(ts[1..], ids, t);
      assert t in ts <==> t == ts[0] || t in ts[1..];
    }
  }

  lemma InArranged(level: nat, ts: seq<Table>, t: Table)
    ensures t in Arrange(level, ts) <==> t in ts
  {
    ArrangeIsPermutation(level, ts);
    InSeq(ts, t);
    InSeq(Arrange(level, ts), t);
  }

  /** Of the tables in the store, ids name exactly the given ones. */
  lemma NamedById(levels: seq<seq<Table>>, ts: seq<Table>, k: nat, t: Table, l: nat)
    requires UniquePlaces(levels) && k < |levels| && AllIn(ts, levels[k]) && l < |levels| && t in levels[l]
    ensures t.id in Ids(ts) <==> t in ts
  {
    var j := PlaceOf(levels, t, l);
    forall u | u in ts
      ensures u.id == t.id ==> u == t
    {
      var i := PlaceOf(levels, u, k);
      if u.id == t.id {
        SamePlace(levels, k, i, l, j);
      }
    }
  }

  ghost predicate Stays(levels: seq<seq<Table>>, p: Plan, l: nat, t: Table) {
    l < |levels| && t in levels[l] && t !in Claimed(p)
  }

  /** The tables afterwards, by the ids that were removed. */
  lemma TablesById(levels: seq<seq<Table>>, p: Plan, news: seq<Table>, l: nat, t: Table)
    requires p.thisLevel < |levels| && p.nextLevel < |levels| && l < |levels|
    ensures t in After(levels, p, news)[l] <==>
      && ((t in levels[l] && (l == p.nextLevel ==> t.id !in Ids(p.bottom))) || (l == p.nextLevel && t in news))
      && (l == p.thisLevel ==> t.id !in Ids(p.top))
  {
    var next := Without(levels[p.nextLevel], Ids(p.bottom)) + news;
    InWithout(levels[p.nextLevel], Ids(p.bottom), t);
    InArranged(p.nextLevel, next, t);
    InWithout(if l == p.nextLevel then Arrange(l, next) else levels[l], Ids(p.top), t);
  }

  /** A table is claimed if its id was removed from its level. */
  lemma ClaimedById(levels: seq<seq<Table>>, p: Plan, l: nat, t: Table)
    requires UniquePlaces(levels) && OfAKind(levels, p) && p.thisLevel < |levels| && p.nextLevel < |levels|
    requires l < |levels| && t in levels[l]
    ensures t in Claimed(p) <==> (l == p.thisLevel && t.id in Ids(p.top)) || (l == p.nextLevel && t.id in Ids(p.bottom))
  {
    ClaimedInStore(levels, p);
    NamedById(levels, p.top, p.thisLevel, t, l);
    NamedById(levels, p.bottom, p.nextLevel, t, l);
    ElsewhereUnclaimed(levels, p, l, t);
  }

  /** The tables afterwards: those that were not claimed, where they were, and the new ones in the target level. */
  lemma TablesAfter(levels: seq<seq<Table>>, p: Plan, news: seq<Table>, l: nat, t: Table)
    requires UniquePlaces(levels) && OfAKind(levels, p) && NewIds(levels, news)
    requires p.thisLevel < |levels| && p.nextLevel < |levels| && l < |levels|
    ensures t in After(levels, p, news)[l] <==> Stays(levels, p, l, t) || (l == p.nextLevel && t in news)
  {
    TablesById(levels, p, news, l, t);
    if t in levels[l] {
      ClaimedById(levels, p, l, t);
    }
    if t in news {
      NewNotNamed(levels, p, news, t);
    }
  }

  lemma NewNotNamed(levels: seq<seq<Table>>, p: Plan, news: seq<Table>, n: Table)
    requires OfAKind(levels, p) && NewIds(levels, news) && n in news
    ensures n.id !in Ids(p.top)
  {
    ClaimedInStore(levels, p);
  }

  lemma ElsewhereUnclaimed(levels: seq<seq<Table>>, p: Plan, l: nat, t: Table)
    requires UniquePlaces(levels) && OfAKind(levels, p) && l < |levels| && t in levels[l]
    ensures t in p.top ==> l == p.thisLevel
    ensures t in p.bottom ==> l == p.nextLevel
  {
    ClaimedInStore(levels, p);
    var j := PlaceOf(levels, t, l);
    if p.thisLevel < |levels| {
      LevelAt(levels, l, j, p.thisLevel);
    }
    if p.nextLevel < |levels| {
      LevelAt(levels, l, j, p.nextLevel);
    }
  }

  // ---------- what the new tables hold ----------

  /** Every entry of a new table comes from a claimed one. */
  lemma NewFrom(levels: seq<seq<Table>>, contents: Contents, claimed: seq<Table>, es: seq<R.Entry>, s: R.Setting,
                outs: seq<seq<R.Entry>>, news: seq<Table>, contents': Contents, i: nat, e: R.Entry)
    returns (c: Table)
    requires Written(levels, contents, es, s, outs, news, contents') && Merged(contents, claimed, es)
    requires i < |news| && e in contents'(news[i].id)
    ensures c in claimed && e in contents(c.id)
  {
    InSomeOutput(outs, i, e);
    R.RetainSubset(es, R.Fresh(), s, e);
    c :| c in claimed && e in contents(c.id);
  }

  /** New tables are sorted and hold what lies between their bounds. */
  lemma NewInBounds(levels: seq<seq<Table>>, contents: Contents, es: seq<R.Entry>, s: R.Setting,
                    outs: seq<seq<R.Entry>>, news: seq<Table>, contents': Contents, i: nat)
    requires Written(levels, contents, es, s, outs, news, contents') && R.Sorted(es) && i < |news|
    ensures InBounds(contents', news[i])
  {
    var all, lo := Seqs.Flatten(outs), |Seqs.Flatten(outs[..i])|;
    AddKeysLoop.RetainSorted(es, R.Fresh(), s);
    assert TableOf(news[i], outs[i]);
    forall a, b | 0 <= a < b < |outs[i]|
      ensures Lt(outs[i][a].at, outs[i][b].at)
    {
      Located(outs, i, a);
      Located(outs, i, b);
      assert Lt(all[lo + a].at, all[lo + b].at);
    }
    SortedBetween(outs[i], news[i]);
  }

  lemma SortedBetween(es: seq<R.Entry>, t: Table)
    requires R.Sorted(es) && TableOf(t, es)
    ensures forall e :: e in es ==> Holds(t, e.at)
  {
    forall e | e in es
      ensures Holds(t, e.at)
    {
      var k :| 0 <= k < |es| && es[k] == e;
      LeTotal(es[0].at, e.at);
      LeTotal(e.at, es[|es| - 1].at);
    }
  }

  /** How a claimed table relates to one that stays. */
  lemma ClaimedVersusLeft(levels: seq<seq<Table>>, contents: Contents, p: Plan, c: Table, u: Table, l: nat)
    requires UniquePlaces(levels) && StoreOk(levels, contents) && OfAKind(levels, p) && p.nextLevel > 0
    requires Safe(levels, Claimed(p), p.nextLevel) && c in Claimed(p) && Stays(levels, p, l, u)
    ensures l < p.nextLevel ==> OlderThan(contents, c, u)
    ensures l == p.nextLevel ==> NoSharedKey(contents, c, u)
    ensures l > p.nextLevel ==> OlderThan(contents, u, c)
  {
    ClaimedInStore(levels, p);
    var k := if c in p.top then p.thisLevel else p.nextLevel;
    if l < p.nextLevel {
      LeftBehindIsNewer(levels, contents, Claimed(p), p.nextLevel, c, u, l);
    } else if l == p.nextLevel {
      if k < l {
        assert Lower(levels, u, c);
        assert Strands(levels, Claimed(p), p.nextLevel, c, u);
        BehindSharesNone(levels, contents, c, u, k, l);
      } else {
        assert c in levels[l] && u in levels[l] && c != u;
      }
    } else {
      assert c in levels[k] && k <= p.nextLevel < l;
    }
  }

  /** How a new table relates to one that stays. */
  lemma NewVersusLeft(levels: seq<seq<Table>>, contents: Contents, p: Plan, es: seq<R.Entry>, s: R.Setting,
                      outs: seq<seq<R.Entry>>, news: seq<Table>, contents': Contents, n: Table, u: Table, l: nat)
    requires UniquePlaces(levels) && StoreOk(levels, contents) && OfAKind(levels, p) && p.nextLevel > 0
    requires Safe(levels, Claimed(p), p.nextLevel) && n in news && Stays(levels, p, l, u)
    requires Written(levels, contents, es, s, outs, news, contents') && Merged(contents, Claimed(p), es)
    ensures l < p.nextLevel ==> OlderThan(contents', n, u)
    ensures l == p.nextLevel ==> NoSharedKey(contents', n, u)
    ensures l > p.nextLevel ==> OlderThan(contents', u, n)
  {
    var i :| 0 <= i < |news| && news[i] == n;
    forall e, f | e in contents'(n.id) && f in contents'(u.id)
      ensures l < p.nextLevel && e.at.key == f.at.key ==> e.at.ts < f.at.ts
      ensures l == p.nextLevel ==> e.at.key != f.at.key
      ensures l > p.nextLevel && e.at.key == f.at.key ==> f.at.ts < e.at.ts
    {
      var c := NewFrom(levels, contents, Claimed(p), es, s, outs, news, contents', i, e);
      ClaimedVersusLeft(levels, contents, p, c, u, l);
    }
  }

  lemma NewVersusNew(outs: seq<seq<R.Entry>>, news: seq<Table>, contents': Contents, n: Table, m: Table)
    requires OwnKeys(outs) && |news| == |outs| && n in news && m in news && n != m
    requires forall i :: 0 <= i < |news| ==> contents'(news[i].id) == outs[i]
    ensures NoSharedKey(contents', n, m)
  {
    var i :| 0 <= i < |news| && news[i] == n;
    var j :| 0 <= j < |news| && news[j] == m;
    forall e, f | e in contents'(n.id) && f in contents'(m.id)
      ensures e.at.key != f.at.key
    {
      assert e in outs[i] && f in outs[j];
      assert i < j || j < i;
    }
  }

  // ---------- the order afterwards ----------

  /** Tables that stay keep their order. */
  lemma {:induction false} WithoutKeepsOrder(ts: seq<Table>, ids: set<nat>, i: nat, j: nat) returns (i': nat, j': nat)
    requires i < j < |Without(ts, ids)|
    ensures i' < j' < |ts| && Without(ts, ids)[i] == ts[i'] && Without(ts, ids)[j] == ts[j']
  {
    var rest := Without(ts[1..], ids);
    if ts[0].id in ids {
      i', j' := WithoutKeepsOrder(ts[1..], ids, i, j);
      i', j' := i' + 1, j' + 1;
    } else if i > 0 {
      i', j' := WithoutKeepsOrder(ts[1..], ids, i - 1, j - 1);
      i', j' := i' + 1, j' + 1;
    } else {
      assert Without(ts, ids)[j] == rest[j - 1] && rest[j - 1] in rest;
      InWithout(ts[1..], ids, rest[j - 1]);
      var k :| 0 <= k < |ts[1..]| && ts[1..][k] == rest[j - 1];
      i', j' := 0, k + 1;
    }
  }

  /** Everything the lemmas below need of a compaction. */
  ghost predicate Compacts(levels: seq<seq<Table>>, contents: Contents, p: Plan, es: seq<R.Entry>, s: R.Setting,
                           outs: seq<seq<R.Entry>>, news: seq<Table>, contents': Contents) {
    && UniquePlaces(levels) && StoreOk(levels, contents) && OfAKind(levels, p)
    && p.thisLevel < |levels| && p.nextLevel < |levels|
    && Merged(contents, Claimed(p), es) && Written(levels, contents, es, s, outs, news, contents')
  }

  lemma BoundsAfter(levels: seq<seq<Table>>, contents: Contents, p: Plan, es: seq<R.Entry>, s: R.Setting,
                    outs: seq<seq<R.Entry>>, news: seq<Table>, contents': Contents, l: nat, t: Table)
    requires Compacts(levels, contents, p, es, s, outs, news, contents')
    requires l < |levels| && t in After(levels, p, news)[l]
    ensures InBounds(contents', t)
  {
    TablesAfter(levels, p, news, l, t);
    if t in levels[l] {
      assert InBounds(contents, t);
    } else {
      var i :| 0 <= i < |news| && news[i] == t;
      NewInBounds(levels, contents, es, s, outs, news, contents', i);
    }
  }

  lemma LevelsAfter(levels: seq<seq<Table>>, contents: Contents, p: Plan, es: seq<R.Entry>, s: R.Setting,
                    outs: seq<seq<R.Entry>>, news: seq<Table>, contents': Contents, k: nat, l: nat, t: Table, u: Table)
    requires Compacts(levels, contents, p, es, s, outs, news, contents') && p.nextLevel > 0
    requires Safe(levels, Claimed(p), p.nextLevel) && k < l < |levels|
    requires t in After(levels, p, news)[k] && u in After(levels, p, news)[l]
    ensures OlderThan(contents', u, t)
  {
    TablesAfter(levels, p, news, k, t);
    TablesAfter(levels, p, news, l, u);
    if Stays(levels, p, k, t) && Stays(levels, p, l, u) {
      assert OlderThan(contents, u, t);
    } else if Stays(levels, p, k, t) {
      NewVersusLeft(levels, contents, p, es, s, outs, news, contents', u, t, k);
    } else {
      NewVersusLeft(levels, contents, p, es, s, outs, news, contents', t, u, l);
    }
  }

  lemma LevelAfter(levels: seq<seq<Table>>, contents: Contents, p: Plan, es: seq<R.Entry>, s: R.Setting,
                   outs: seq<seq<R.Entry>>, news: seq<Table>, contents': Contents, l: nat, t: Table, u: Table)
    requires Compacts(levels, contents, p, es, s, outs, news, contents') && p.nextLevel > 0
    requires Safe(levels, Claimed(p), p.nextLevel) && 1 <= l < |levels| && t != u
    requires t in After(levels, p, news)[l] && u in After(levels, p, news)[l]
    ensures NoSharedKey(contents', t, u)
  {
    TablesAfter(levels, p, news, l, t);
    TablesAfter(levels, p, news, l, u);
    if Stays(levels, p, l, t) && Stays(levels, p, l, u) {
      assert NoSharedKey(contents, t, u);
    } else if Stays(levels, p, l, t) {
      NewVersusLeft(levels, contents, p, es, s, outs, news, contents', u, t, l);
    } else if Stays(levels, p, l, u) {
      NewVersusLeft(levels, contents, p, es, s, outs, news, contents', t, u, l);
    } else {
      NewVersusNew(outs, news, contents', t, u);
    }
  }

  lemma Level0After(levels: seq<seq<Table>>, contents: Contents, p: Plan, es: seq<R.Entry>, s: R.Setting,
                    outs: seq<seq<R.Entry>>, news: seq<Table>, contents': Contents, i: nat, j: nat)
    requires Compacts(levels, contents, p, es, s, outs, news, contents') && p.nextLevel > 0
    requires i < j < |After(levels, p, news)[0]|
    ensures OlderThan(contents', After(levels, p, news)[0][i], After(levels, p, news)[0][j])
  {
    var i', j' := i, j;
    if p.thisLevel == 0 {
      i', j' := WithoutKeepsOrder(levels[0], Ids(p.top), i, j);
    }
    assert levels[0][i'] in levels[0] && levels[0][j'] in levels[0];
    assert OlderThan(contents, levels[0][i'], levels[0][j']);
  }

  /** A safe compaction into a level below level 0 leaves the store in order. */
  lemma OrderKept(levels: seq<seq<Table>>, contents: Contents, p: Plan, es: seq<R.Entry>, s: R.Setting,
                  outs: seq<seq<R.Entry>>, news: seq<Table>, contents': Contents)
    requires Compacts(levels, contents, p, es, s, outs, news, contents') && p.nextLevel > 0
    requires Safe(levels, Claimed(p), p.nextLevel)
    ensures StoreOk(After(levels, p, news), contents')
  {
    var after := After(levels, p, news);
    forall l, t | 0 <= l < |after| && t in after[l]
      ensures InBounds(contents', t)
    {
      BoundsAfter(levels, contents, p, es, s, outs, news, contents', l, t);
    }
    forall k, l, t, u | 0 <= k < l < |after| && t in after[k] && u in after[l]
      ensures OlderThan(contents', u, t)
    {
      LevelsAfter(levels, contents, p, es, s, outs, news, contents', k, l, t, u);
    }
    forall i, j | 0 <= i < j < |after[0]|
      ensures OlderThan(contents', after[0][i], after[0][j])
    {
      Level0After(levels, contents, p, es, s, outs, news, contents', i, j);
    }
    forall l, t, u | 1 <= l < |after| && t in after[l] && u in after[l] && t != u
      ensures NoSharedKey(contents', t, u)
    {
      LevelAfter(levels, contents, p, es, s, outs, news, contents', l, t, u);
    }
  }

  // ---------- the answers afterwards ----------

  ghost predicate InStock(levels: seq<seq<Table>>, contents: Contents, e: R.Entry) {
    exists l, t :: 0 <= l < |levels| && t in levels[l] && e in contents(t.id)
  }

  /** `all` is everything the store holds. */
  ghost predicate IsStock(levels: seq<seq<Table>>, contents: Contents, all: seq<R.Entry>) {
    forall e :: e in all <==> InStock(levels, contents, e)
  }

  /** Of two tables, one is older throughout. */
  lemma OneIsOlder(levels: seq<seq<Table>>, contents: Contents, t: Table, k: nat, u: Table, l: nat)
    requires StoreOk(levels, contents) && k < |levels| && l < |levels| && t in levels[k] && u in levels[l] && t != u
    ensures OlderThan(contents, t, u) || OlderThan(contents, u, t)
  {
    if k == l == 0 {
      var i := PlaceOf(levels, t, 0);
      var j := PlaceOf(levels, u, 0);
      assert i < j ==> OlderThan(contents, levels[0][i], levels[0][j]);
      assert j < i ==> OlderThan(contents, levels[0][j], levels[0][i]);
    } else if k == l {
      assert NoSharedKey(contents, t, u);
    }
  }

  /** A store in order has every version once. */
  lemma OneVersion(levels: seq<seq<Table>>, contents: Contents, e: R.Entry, f: R.Entry)
    requires StoreOk(levels, contents) && InStock(levels, contents, e) && InStock(levels, contents, f)
    requires e.at == f.at
    ensures e == f
  {
    var k, t :| 0 <= k < |levels| && t in levels[k] && e in contents(t.id);
    var l, u :| 0 <= l < |levels| && u in levels[l] && f in contents(u.id);
    assert InBounds(contents, t);
    if t == u {
      R.SameKeySameEntry(contents(t.id), e, f);
    } else {
      OneIsOlder(levels, contents, t, k, u, l);
    }
  }

  /** With every version once, the order in which a store is listed does not matter. */
  lemma SameAnswers(a: seq<R.Entry>, b: seq<R.Entry>, key: Bytes, ts: nat, now: nat)
    requires forall e :: e in a <==> e in b
    requires forall e, f :: e in a && f in a && e.at == f.at ==> e == f
    ensures R.Visible(a, key, ts, now) == R.Visible(b, key, ts, now)
  {
    R.NewestIsNewest(a, key, ts);
    R.NewestIsNewest(b, key, ts);
    var x, y := R.Newest(a, key, ts), R.Newest(b, key, ts);
    if x.Some? && y.Some? {
      assert x.value.at == y.value.at;
    }
  }

  /** The entries of `all` that tables between two levels hold and that are not claimed. */
  lemma {:induction false} PickLeft(levels: seq<seq<Table>>, contents: Contents, claimed: seq<Table>,
                                    lo: nat, hi: nat, all: seq<R.Entry>) returns (left: seq<R.Entry>)
    ensures forall e :: e in left <==> e in all && LeftIn(levels, contents, claimed, lo, hi, e)
    decreases all
  {
    left := [];
    if all != [] {
      var rest := PickLeft(levels, contents, claimed, lo, hi, all[1..]);
      left := if LeftIn(levels, contents, claimed, lo, hi, all[0]) then [all[0]] + rest else rest;
      assert forall e :: e in all <==> e == all[0] || e in all[1..];
    }
  }

  /** An entry of the store is in a claimed table or in one that stays. */
  lemma ClaimedOrLeft(levels: seq<seq<Table>>, contents: Contents, claimed: seq<Table>, target: nat, e: R.Entry)
    requires InStore(levels, claimed) && target < |levels|
    ensures InStock(levels, contents, e) <==>
      || (exists t :: t in claimed && e in contents(t.id))
      || LeftIn(levels, contents, claimed, 0, target + 1, e)
      || LeftIn(levels, contents, claimed, target + 1, |levels|, e)
  {
    if InStock(levels, contents, e) {
      var l, t :| 0 <= l < |levels| && t in levels[l] && e in contents(t.id);
      if t !in claimed && l <= target {
        assert LeftIn(levels, contents, claimed, 0, target + 1, e);
      }
    }
    if t :| t in claimed && e in contents(t.id) {
      var l :| 0 <= l < |levels| && t in levels[l];
    }
  }

  /** An entry is retained, or held by a table that stays. */
  ghost predicate StaysOrNew(levels: seq<seq<Table>>, contents: Contents, p: Plan, es: seq<R.Entry>, s: R.Setting,
                             e: R.Entry) {
    || e in R.Retain(es, R.Fresh(), s)
    || LeftIn(levels, contents, Claimed(p), 0, p.nextLevel + 1, e)
    || LeftIn(levels, contents, Claimed(p), p.nextLevel + 1, |levels|, e)
  }

  lemma NewOrLeft(levels: seq<seq<Table>>, contents: Contents, p: Plan, es: seq<R.Entry>, s: R.Setting,
                  outs: seq<seq<R.Entry>>, news: seq<Table>, contents': Contents, e: R.Entry, l: nat, t: Table)
    requires Compacts(levels, contents, p, es, s, outs, news, contents')
    requires l < |levels| && t in After(levels, p, news)[l] && e in contents'(t.id)
    ensures StaysOrNew(levels, contents, p, es, s, e)
  {
    TablesAfter(levels, p, news, l, t);
    if t in news {
      var i :| 0 <= i < |news| && news[i] == t;
      InSomeOutput(outs, i, e);
    } else if l <= p.nextLevel {
      assert LeftIn(levels, contents, Claimed(p), 0, p.nextLevel + 1, e);
    } else {
      assert LeftIn(levels, contents, Claimed(p), p.nextLevel + 1, |levels|, e);
    }
  }

  lemma OutputHeld(levels: seq<seq<Table>>, p: Plan, outs: seq<seq<R.Entry>>, news: seq<Table>, contents': Contents,
                   e: R.Entry)
    requires UniquePlaces(levels) && OfAKind(levels, p) && p.thisLevel < |levels| && p.nextLevel < |levels|
    requires NewIds(levels, news) && |news| == |outs| && e in Seqs.Flatten(outs)
    requires forall i :: 0 <= i < |news| ==> contents'(news[i].id) == outs[i]
    ensures InStock(After(levels, p, news), contents', e)
  {
    var i := SomeOutput(outs, e);
    TablesAfter(levels, p, news, p.nextLevel, news[i]);
    InStockAt(After(levels, p, news), contents', p.nextLevel, news[i], e);
  }

  lemma InStockAt(levels: seq<seq<Table>>, contents: Contents, l: nat, t: Table, e: R.Entry)
    requires l < |levels| && t in levels[l] && e in contents(t.id)
    ensures InStock(levels, contents, e)
  {
  }

  lemma LeftHeld(levels: seq<seq<Table>>, contents: Contents, p: Plan, news: seq<Table>, contents': Contents,
                 e: R.Entry, lo: nat, hi: nat)
    requires UniquePlaces(levels) && OfAKind(levels, p) && p.thisLevel < |levels| && p.nextLevel < |levels|
    requires NewIds(levels, news) && LeftIn(levels, contents, Claimed(p), lo, hi, e)
    requires forall l, t :: 0 <= l < |levels| && t in levels[l] ==> contents'(t.id) == contents(t.id)
    ensures InStock(After(levels, p, news), contents', e)
  {
    var l, u :| lo <= l < hi && l < |levels| && u in levels[l] && u !in Claimed(p) && e in contents(u.id);
    TablesAfter(levels, p, news, l, u);
    InStockAt(After(levels, p, news), contents', l, u, e);
  }

  /** What the store holds afterwards. */
  lemma StockIs(levels: seq<seq<Table>>, contents: Contents, p: Plan, es: seq<R.Entry>, s: R.Setting,
                outs: seq<seq<R.Entry>>, news: seq<Table>, contents': Contents, e: R.Entry)
    requires Compacts(levels, contents, p, es, s, outs, news, contents')
    ensures InStock(After(levels, p, news), contents', e) <==> StaysOrNew(levels, contents, p, es, s, e)
  {
    var after := After(levels, p, news);
    if l, t: Table :| 0 <= l < |after| && t in after[l] && e in contents'(t.id) {
      NewOrLeft(levels, contents, p, es, s, outs, news, contents', e, l, t);
    }
    if e in R.Retain(es, R.Fresh(), s) {
      OutputHeld(levels, p, outs, news, contents', e);
    } else if LeftIn(levels, contents, Claimed(p), 0, p.nextLevel + 1, e) {
      LeftHeld(levels, contents, p, news, contents', e, 0, p.nextLevel + 1);
    } else if LeftIn(levels, contents, Claimed(p), p.nextLevel + 1, |levels|, e) {
      LeftHeld(levels, contents, p, news, contents', e, p.nextLevel + 1, |levels|);
    }
  }

  lemma {:induction false} SomeOutput(outs: seq<seq<R.Entry>>, e: R.Entry) returns (i: nat)
    requires e in Seqs.Flatten(outs)
    ensures i < |outs| && e in outs[i]
  {
    var n := |outs| - 1;
    if e in outs[n] {
      return n;
    }
    i := SomeOutput(outs[..n], e);
  }

  /** `upper` and `lower` are what the tables that stay hold, above and below the target level. */
  ghost predicate LeftOver(levels: seq<seq<Table>>, contents: Contents, claimed: seq<Table>, target: nat,
                           upper: seq<R.Entry>, lower: seq<R.Entry>) {
    && (forall e :: e in upper <==> LeftIn(levels, contents, claimed, 0, target + 1, e))
    && (forall e :: e in lower <==> LeftIn(levels, contents, claimed, target + 1, |levels|, e))
  }

  lemma SplitStock(levels: seq<seq<Table>>, contents: Contents, claimed: seq<Table>, target: nat, es: seq<R.Entry>,
                   before: seq<R.Entry>) returns (upper: seq<R.Entry>, lower: seq<R.Entry>)
    requires IsStock(levels, contents, before) && InStore(levels, claimed) && target < |levels|
    requires Merged(contents, claimed, es)
    ensures LeftOver(levels, contents, claimed, target, upper, lower)
    ensures forall e :: e in before <==> e in es + (upper + lower)
  {
    upper := PickLeft(levels, contents, claimed, 0, target + 1, before);
    lower := PickLeft(levels, contents, claimed, target + 1, |levels|, before);
    forall e
      ensures e in upper <==> LeftIn(levels, contents, claimed, 0, target + 1, e)
      ensures e in lower <==> LeftIn(levels, contents, claimed, target + 1, |levels|, e)
      ensures e in before <==> e in es + (upper + lower)
    {
      ClaimedOrLeft(levels, contents, claimed, target, e);
    }
  }

  lemma StockAfter(levels: seq<seq<Table>>, contents: Contents, p: Plan, es: seq<R.Entry>, s: R.Setting,
                   outs: seq<seq<R.Entry>>, news: seq<Table>, contents': Contents,
                   after: seq<R.Entry>, upper: seq<R.Entry>, lower: seq<R.Entry>)
    requires Compacts(levels, contents, p, es, s, outs, news, contents')
    requires IsStock(After(levels, p, news), contents', after)
    requires LeftOver(levels, contents, Claimed(p), p.nextLevel, upper, lower)
    ensures forall e :: e in after <==> e in R.Retain(es, R.Fresh(), s) + (upper + lower)
    ensures forall e :: e in after ==> InStock(levels, contents, e)
  {
    forall e
      ensures e in after <==> e in R.Retain(es, R.Fresh(), s) + (upper + lower)
      ensures e in after ==> InStock(levels, contents, e)
    {
      StockIs(levels, contents, p, es, s, outs, news, contents', e);
      if e in after {
        StaysInStock(levels, contents, p, es, s, e);
      }
    }
  }

  lemma StaysInStock(levels: seq<seq<Table>>, contents: Contents, p: Plan, es: seq<R.Entry>, s: R.Setting, e: R.Entry)
    requires OfAKind(levels, p) && p.nextLevel < |levels| && Merged(contents, Claimed(p), es)
    requires StaysOrNew(levels, contents, p, es, s, e)
    ensures InStock(levels, contents, e)
  {
    ClaimedInStore(levels, p);
    ClaimedOrLeft(levels, contents, Claimed(p), p.nextLevel, e);
    if e in R.Retain(es, R.Fresh(), s) {
      R.RetainSubset(es, R.Fresh(), s, e);
    }
  }

  lemma UnseenLeft(levels: seq<seq<Table>>, contents: Contents, claimed: seq<Table>, target: nat, es: seq<R.Entry>,
                   s: R.Setting, upper: seq<R.Entry>, lower: seq<R.Entry>, key: Bytes, ts: nat, now: nat)
    requires StoreOk(levels, contents) && InStore(levels, claimed) && claimed != [] && AllWellFormed(claimed)
    requires Merged(contents, claimed, es) && LeftOver(levels, contents, claimed, target, upper, lower)
    requires OverlapBelow(levels, claimed, target + 1) || Safe(levels, claimed, target)
    requires s.hasOverlap == OverlapBelow(levels, claimed, target + 1) && R.ReadsLater(es, s, now)
    requires ts >= s.discardTs
    ensures R.Visible(R.Retain(es, R.Fresh(), s) + (upper + lower), key, ts, now)
         == R.Visible(es + (upper + lower), key, ts, now)
  {
    SafeIsUnseen(levels, contents, claimed, target, es, upper, lower, s, now);
  }

  /** A compaction that the plan makes safe, or the overlap check careful, changes no answer from the discard timestamp
      on. */
  lemma AnswersKept(levels: seq<seq<Table>>, contents: Contents, p: Plan, es: seq<R.Entry>, s: R.Setting,
                    outs: seq<seq<R.Entry>>, news: seq<Table>, contents': Contents,
                    before: seq<R.Entry>, after: seq<R.Entry>, key: Bytes, ts: nat, now: nat)
    requires Compacts(levels, contents, p, es, s, outs, news, contents') && Claimed(p) != []
    requires OverlapBelow(levels, Claimed(p), p.nextLevel + 1) || Safe(levels, Claimed(p), p.nextLevel)
    requires s.hasOverlap == OverlapBelow(levels, Claimed(p), p.nextLevel + 1) && R.ReadsLater(es, s, now)
    requires IsStock(levels, contents, before) && IsStock(After(levels, p, news), contents', after)
    requires ts >= s.discardTs
    ensures R.Visible(after, key, ts, now) == R.Visible(before, key, ts, now)
  {
    ClaimedInStore(levels, p);
    ClaimedWellFormed(levels, Claimed(p));
    var upper, lower := SplitStock(levels, contents, Claimed(p), p.nextLevel, es, before);
    StockAfter(levels, contents, p, es, s, outs, news, contents', after, upper, lower);
    UnseenLeft(levels, contents, Claimed(p), p.nextLevel, es, s, upper, lower, key, ts, now);
    AnswersBefore(levels, contents, before, es + (upper + lower), key, ts, now);
    AnswersBefore(levels, contents, after, R.Retain(es, R.Fresh(), s) + (upper + lower), key, ts, now);
  }

  lemma AnswersBefore(levels: seq<seq<Table>>, contents: Contents, a: seq<R.Entry>, b: seq<R.Entry>,
                      key: Bytes, ts: nat, now: nat)
    requires StoreOk(levels, contents) && forall e :: e in a ==> InStock(levels, contents, e)
    requires forall e :: e in a <==> e in b
    ensures R.Visible(a, key, ts, now) == R.Visible(b, key, ts, now)
  {
    forall e, f | e in a && f in a && e.at == f.at
      ensures e == f
    {
      OneVersion(levels, contents, e, f);
    }
    SameAnswers(a, b, key, ts, now);
  }

  // ---------- the places afterwards ----------

  lemma {:induction false} InsertKeepsUnique(level: nat, ts: seq<Table>, t: Table)
    requires UniqueIds(ts) && forall u :: u in ts ==> u.id != t.id
    ensures UniqueIds(Insert(level, ts, t))
  {
    if ts != [] && Levels.Before(level, t, ts[|ts| - 1]) {
      var init, last := ts[..|ts| - 1], ts[|ts| - 1];
      InsertKeepsUnique(level, init, t);
      forall u | u in Insert(level, init, t)
        ensures u.id != last.id
      {
        InInserted(level, init, t, u);
      }
    }
  }

  lemma {:induction false} ArrangeKeepsUnique(level: nat, ts: seq<Table>)
    requires UniqueIds(ts)
    ensures UniqueIds(Arrange(level, ts))
  {
    if ts != [] {
      var init, last := ts[..|ts| - 1], ts[|ts| - 1];
      ArrangeKeepsUnique(level, init);
      forall u | u in Arrange(level, init)
        ensures u.id != last.id
      {
        InArranged(level, init, u);
      }
      InsertKeepsUnique(level, Arrange(level, init), last);
    }
  }

  lemma WithoutKeepsUnique(ts: seq<Table>, ids: set<nat>)
    requires UniqueIds(ts)
    ensures UniqueIds(Without(ts, ids))
  {
    forall i, j | 0 <= i < j < |Without(ts, ids)|
      ensures Without(ts, ids)[i].id != Without(ts, ids)[j].id
    {
      var i', j' := WithoutKeepsOrder(ts, ids, i, j);
    }
  }

  lemma TargetUnique(levels: seq<seq<Table>>, p: Plan, news: seq<Table>)
    requires UniquePlaces(levels) && NewIds(levels, news) && p.nextLevel < |levels|
    ensures UniqueIds(Arrange(p.nextLevel, Without(levels[p.nextLevel], Ids(p.bottom)) + news))
  {
    var stay := Without(levels[p.nextLevel], Ids(p.bottom));
    WithoutKeepsUnique(levels[p.nextLevel], Ids(p.bottom));
    forall i, j | 0 <= i < |stay| && 0 <= j < |news|
      ensures stay[i].id != news[j].id
    {
      InWithout(levels[p.nextLevel], Ids(p.bottom), stay[i]);
      assert news[j] in news;
    }
    ArrangeKeepsUnique(p.nextLevel, stay + news);
  }

  lemma NewWellFormed(levels: seq<seq<Table>>, contents: Contents, p: Plan, es: seq<R.Entry>, s: R.Setting,
                      outs: seq<seq<R.Entry>>, news: seq<Table>, contents': Contents)
    requires Compacts(levels, contents, p, es, s, outs, news, contents')
    ensures AllWellFormed(news)
  {
    AddKeysLoop.RetainSorted(es, R.Fresh(), s);
    forall e | e in Seqs.Flatten(outs)
      ensures e.at.key != []
    {
      R.RetainSubset(es, R.Fresh(), s, e);
      ClaimedInStore(levels, p);
      ClaimedHolds(levels, contents, Claimed(p), e);
      ClaimedWellFormed(levels, Claimed(p));
      var t :| t in Claimed(p) && Holds(t, e.at);
      HeldHasKey(t, e.at);
    }
    OutputsApart(news, outs);
  }

  /** Every table still has its own id and place. */
  lemma PlacesKept(levels: seq<seq<Table>>, contents: Contents, p: Plan, es: seq<R.Entry>, s: R.Setting,
                   outs: seq<seq<R.Entry>>, news: seq<Table>, contents': Contents)
    requires Compacts(levels, contents, p, es, s, outs, news, contents')
    ensures UniquePlaces(After(levels, p, news))
  {
    var after := After(levels, p, news);
    NewWellFormed(levels, contents, p, es, s, outs, news, contents');
    TargetUnique(levels, p, news);
    forall l | 0 <= l < |after|
      ensures UniqueIds(after[l]) && AllWellFormed(after[l])
    {
      assert UniqueIds(levels[l]) && AllWellFormed(levels[l]);
      if l == p.thisLevel {
        WithoutKeepsUnique(if l == p.nextLevel then Arrange(l, Without(levels[l], Ids(p.bottom)) + news) else levels[l],
                           Ids(p.top));
      }
      forall t | t in after[l]
        ensures WellFormed(t)
      {
        TablesAfter(levels, p, news, l, t);
      }
    }
    forall k, l, t: Table, u: Table | 0 <= k < l < |after| && t in after[k] && u in after[l]
      ensures t.id != u.id
    {
      TablesAfter(levels, p, news, k, t);
      TablesAfter(levels, p, news, l, u);
    }
  }

  // ---------- the whole step ----------

  /** Contents with the outputs under the ids of the new tables. */
  ghost function WithOutputs(contents: Contents, news: seq<Table>, outs: seq<seq<R.Entry>>): Contents
    requires |news| == |outs|
  {
    if news == [] then contents
    else
      var rest := WithOutputs(contents, news[1..], outs[1..]);
      (n: nat) => if n == news[0].id then outs[0] else rest(n)
  }

  lemma {:induction false} OutputAt(contents: Contents, news: seq<Table>, outs: seq<seq<R.Entry>>, i: nat)
    requires |news| == |outs| && i < |news| && UniqueIds(news)
    ensures WithOutputs(contents, news, outs)(news[i].id) == outs[i]
  {
    if i > 0 {
      assert news[0].id != news[i].id && news[1..][i - 1] == news[i];
      OutputAt(contents, news[1..], outs[1..], i - 1);
    }
  }

  lemma {:induction false} NoOutputAt(contents: Contents, news: seq<Table>, outs: seq<seq<R.Entry>>, n: nat)
    requires |news| == |outs| && forall m :: m in news ==> m.id != n
    ensures WithOutputs(contents, news, outs)(n) == contents(n)
  {
    if news != [] {
      assert news[0] in news;
      NoOutputAt(contents, news[1..], outs[1..], n);
    }
  }

  lemma OutputsHeld(levels: seq<seq<Table>>, contents: Contents, es: seq<R.Entry>, s: R.Setting,
                    outs: seq<seq<R.Entry>>, news: seq<Table>)
    requires TablesOf(news, outs) && OwnKeys(outs) && Seqs.Flatten(outs) == R.Retain(es, R.Fresh(), s)
    requires NewIds(levels, news)
    ensures Written(levels, contents, es, s, outs, news, WithOutputs(contents, news, outs))
  {
    forall i | 0 <= i < |news|
      ensures WithOutputs(contents, news, outs)(news[i].id) == outs[i]
    {
      OutputAt(contents, news, outs, i);
    }
    forall l, t | 0 <= l < |levels| && t in levels[l]
      ensures WithOutputs(contents, news, outs)(t.id) == contents(t.id)
    {
      NoOutputAt(contents, news, outs, t.id);
    }
  }

  /** The levels are those of the store. */
  ghost predicate Shows(source: LevelHandler, target: LevelHandler, levels: seq<seq<Table>>, p: Plan)
    reads source, target
    requires p.thisLevel < |levels| && p.nextLevel < |levels|
  {
    source.tables == levels[p.thisLevel] && target.tables == levels[p.nextLevel] && target.level == p.nextLevel
  }

  ghost predicate UnusedIds(levels: seq<seq<Table>>, id: nat -> nat) {
    && (forall i, j :: 0 <= i < j ==> id(i) != id(j))
    && (forall i, l, t :: 0 <= i && 0 <= l < |levels| && t in levels[l] ==> t.id != id(i))
  }

  /** What a compaction leaves: the store is in order, its places are unique, and no answer has changed from the discard
      timestamp on. */
  ghost predicate GoodStep(levels: seq<seq<Table>>, contents: Contents, p: Plan, es: seq<R.Entry>, s: R.Setting,
                           outs: seq<seq<R.Entry>>, news: seq<Table>, contents': Contents) {
    && Compacts(levels, contents, p, es, s, outs, news, contents')
    && UniquePlaces(After(levels, p, news)) && StoreOk(After(levels, p, news), contents')
    && (forall before, after, key, ts, now ::
          SameAfter(levels, contents, After(levels, p, news), contents', es, s, before, after, key, ts, now))
  }

  lemma SafeIsGood(levels: seq<seq<Table>>, contents: Contents, p: Plan, es: seq<R.Entry>, s: R.Setting,
                   outs: seq<seq<R.Entry>>, news: seq<Table>, contents': Contents)
    requires Compacts(levels, contents, p, es, s, outs, news, contents') && Claimed(p) != [] && p.nextLevel > 0
    requires Safe(levels, Claimed(p), p.nextLevel)
    requires s.hasOverlap == OverlapBelow(levels, Claimed(p), p.nextLevel + 1)
    ensures GoodStep(levels, contents, p, es, s, outs, news, contents')
  {
    OrderKept(levels, contents, p, es, s, outs, news, contents');
    PlacesKept(levels, contents, p, es, s, outs, news, contents');
    forall before, after, key, ts, now
      ensures SameAfter(levels, contents, After(levels, p, news), contents', es, s, before, after, key, ts, now)
    {
      AnswersSame(levels, contents, p, es, s, outs, news, contents', before, after, key, ts, now);
    }
  }

  lemma StepIsGood(levels: seq<seq<Table>>, contents: Contents, p: Plan, es: seq<R.Entry>, s: R.Setting,
                   outs: seq<seq<R.Entry>>, news: seq<Table>, id: nat -> nat)
    requires UniquePlaces(levels) && StoreOk(levels, contents) && UnusedIds(levels, id)
    requires ToNextLevel(levels, p) || (ToBaseLevel(levels, p) && ClearBetween(levels, p))
    requires Claimed(p) != [] && Merged(contents, Claimed(p), es)
    requires s.hasOverlap == OverlapBelow(levels, Claimed(p), p.nextLevel + 1)
    requires TablesOf(news, outs) && OwnKeys(outs) && Seqs.Flatten(outs) == R.Retain(es, R.Fresh(), s)
    requires forall i :: 0 <= i < |news| ==> news[i].id == id(i)
    ensures GoodStep(levels, contents, p, es, s, outs, news, WithOutputs(contents, news, outs))
  {
    OutputsHeld(levels, contents, es, s, outs, news);
    SafeEnough(levels, p);
    SafeIsGood(levels, contents, p, es, s, outs, news, WithOutputs(contents, news, outs));
  }

  /** A compaction by a safe plan to the next or the base level, from the plan to the two levels. */
  method CompactStore(source: LevelHandler, target: LevelHandler, ghost catalog: map<nat, Home>,
                      ghost levels: seq<seq<Table>>, ghost contents: Contents, p: Plan, es: seq<R.Entry>,
                      s: R.Setting, full: (nat, nat) -> bool, crowded: nat -> bool, id: nat -> nat,
                      size: seq<R.Entry> -> nat)
    returns (outs: seq<seq<R.Entry>>, news: seq<Table>, ghost contents': Contents)
    requires source != target && source.Valid() && HasRoom(full, es) && UnusedIds(levels, id)
    requires UniquePlaces(levels) && StoreOk(levels, contents) && PlanOk(catalog, p) && Widened(p.nextRange)
    requires ToNextLevel(levels, p) || (ToBaseLevel(levels, p) && ClearBetween(levels, p))
    requires Claimed(p) != [] && Shows(source, target, levels, p) && Disjoint(target.tables)
    requires Merged(contents, Claimed(p), es) && forall e :: e in es ==> e.at.ts > 0
    requires s.hasOverlap == OverlapBelow(levels, Claimed(p), p.nextLevel + 1)
    modifies source, target
    ensures source.Valid() && target.Valid() && Disjoint(target.tables)
    ensures Shows(source, target, After(levels, p, news), p)
    ensures GoodStep(levels, contents, p, es, s, outs, news, contents')
  {
    StreamStored(levels, contents, p, es);
    assert UniqueIds(levels[p.nextLevel]);
    outs, news := CompactPlan(source, target, catalog, p, es, s, full, crowded, id, size);
    contents' := WithOutputs(contents, news, outs);
    StepIsGood(levels, contents, p, es, s, outs, news, id);
    LevelsApart(levels, p, news);
  }

  lemma LevelsApart(levels: seq<seq<Table>>, p: Plan, news: seq<Table>)
    requires p.thisLevel < |levels| && p.nextLevel < |levels| && p.thisLevel != p.nextLevel
    ensures After(levels, p, news)[p.thisLevel] == Without(levels[p.thisLevel], Ids(p.top))
    ensures After(levels, p, news)[p.nextLevel]
         == Arrange(p.nextLevel, Without(levels[p.nextLevel], Ids(p.bottom)) + news)
  {
  }

  lemma StreamStored(levels: seq<seq<Table>>, contents: Contents, p: Plan, es: seq<R.Entry>)
    requires StoreOk(levels, contents) && OfAKind(levels, p) && Merged(contents, Claimed(p), es)
    ensures StoredIn(es, Claimed(p))
  {
    ClaimedInStore(levels, p);
    forall e | e in es
      ensures exists t :: t in Claimed(p) && Holds(t, e.at)
    {
      ClaimedHolds(levels, contents, Claimed(p), e);
    }
  }

  lemma SafeEnough(levels: seq<seq<Table>>, p: Plan)
    requires UniquePlaces(levels) && (ToNextLevel(levels, p) || (ToBaseLevel(levels, p) && ClearBetween(levels, p)))
    ensures Safe(levels, Claimed(p), p.nextLevel)
  {
    if ToNextLevel(levels, p) {
      MostAreSafe(levels, p);
    } else {
      BaseSafeIff(levels, p);
    }
  }

  /** A reader from the discard timestamp on gets the same answer from both stores. */
  ghost predicate SameAfter(levels: seq<seq<Table>>, contents: Contents, levels': seq<seq<Table>>, contents': Contents,
                            es: seq<R.Entry>, s: R.Setting, before: seq<R.Entry>, after: seq<R.Entry>,
                            key: Bytes, ts: nat, now: nat) {
    && IsStock(levels, contents, before) && IsStock(levels', contents', after)
    && R.ReadsLater(es, s, now) && ts >= s.discardTs
    ==> R.Visible(after, key, ts, now) == R.Visible(before, key, ts, now)
  }

  lemma AnswersSame(levels: seq<seq<Table>>, contents: Contents, p: Plan, es: seq<R.Entry>, s: R.Setting,
                    outs: seq<seq<R.Entry>>, news: seq<Table>, contents': Contents,
                    before: seq<R.Entry>, after: seq<R.Entry>, key: Bytes, ts: nat, now: nat)
    requires Compacts(levels, contents, p, es, s, outs, news, contents') && Claimed(p) != []
    requires Safe(levels, Claimed(p), p.nextLevel)
    requires s.hasOverlap == OverlapBelow(levels, Claimed(p), p.nextLevel + 1)
    ensures SameAfter(levels, contents, After(levels, p, news), contents', es, s, before, after, key, ts, now)
  {
    if IsStock(levels, contents, before) && IsStock(After(levels, p, news), contents', after)
      && R.ReadsLater(es, s, now) && ts >= s.discardTs {
      AnswersKept(levels, contents, p, es, s, outs, news, contents', before, after, key, ts, now);
    }
  }
}
