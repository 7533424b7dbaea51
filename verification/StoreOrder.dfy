/** The order of versions in a store, and exactly which choices of tables can be compacted unseen. */
module StoreOrder {
  import opened Options
  import opened Bytes
  import opened Keys
  import opened Ranges
  import opened Levels
  import opened LevelHandlers
  import opened GarbageCollection
  import R = Retention

  /** What the tables of a store hold, by their id. */
  type Contents = nat -> seq<R.Entry>

  /** Two tables share no user key. */
  ghost predicate NoSharedKey(contents: Contents, t: Table, u: Table) {
    forall e, f :: e in contents(t.id) && f in contents(u.id) ==> e.at.key != f.at.key
  }

  /** Versions in `t` are older than those of the same user key in `u`. */
  ghost predicate OlderThan(contents: Contents, t: Table, u: Table) {
    forall e, f :: e in contents(t.id) && f in contents(u.id) && e.at.key == f.at.key ==> e.at.ts < f.at.ts
  }

  /** Tables are sorted and hold what lies between their bounds. */
  ghost predicate InBounds(contents: Contents, t: Table) {
    R.Sorted(contents(t.id)) && forall e :: e in contents(t.id) ==> Holds(t, e.at)
  }

  /** The order of a store: versions get older from level to level, in level 0 also from the end to the front, and
      tables of another level do not share user keys. */
  ghost predicate StoreOk(levels: seq<seq<Table>>, contents: Contents) {
    && (forall l, t :: 0 <= l < |levels| && t in levels[l] ==> InBounds(contents, t))
    && (forall k, l, t, u :: 0 <= k < l < |levels| && t in levels[k] && u in levels[l] ==> OlderThan(contents, u, t))
    && (|levels| > 0 ==> forall i, j :: 0 <= i < j < |levels[0]| ==> OlderThan(contents, levels[0][i], levels[0][j]))
    && (forall l, t, u :: 1 <= l < |levels| && t in levels[l] && u in levels[l] && t != u ==>
          NoSharedKey(contents, t, u))
  }

  /** Every table has its own id and one place. */
  ghost predicate UniquePlaces(levels: seq<seq<Table>>) {
    && (forall k, l, t, u :: 0 <= k < l < |levels| && t in levels[k] && u in levels[l] ==> t.id != u.id)
    && (forall l :: 0 <= l < |levels| ==> UniqueIds(levels[l]) && AllWellFormed(levels[l]))
  }

  ghost predicate InStore(levels: seq<seq<Table>>, ts: seq<Table>) {
    forall t :: t in ts ==> exists l :: 0 <= l < |levels| && t in levels[l]
  }

  lemma ClaimedWellFormed(levels: seq<seq<Table>>, claimed: seq<Table>)
    requires UniquePlaces(levels) && InStore(levels, claimed)
    ensures AllWellFormed(claimed)
  {
    forall t | t in claimed
      ensures WellFormed(t)
    {
      var l :| 0 <= l < |levels| && t in levels[l];
      assert AllWellFormed(levels[l]);
    }
  }

  // ---------- which tables may be left behind ----------

  /** `u` is in an older place than `c`: on a lower level, or in level 0 and further in front. */
  ghost predicate Behind(levels: seq<seq<Table>>, u: Table, c: Table) {
    Lower(levels, u, c) || (|levels| > 0 && InFront(levels[0], u, c))
  }

  ghost predicate Lower(levels: seq<seq<Table>>, u: Table, c: Table) {
    exists k, l :: 0 <= k < l < |levels| && c in levels[k] && u in levels[l]
  }

  ghost predicate InFront(level0: seq<Table>, u: Table, c: Table) {
    exists i, j :: 0 <= i < j < |level0| && level0[i] == u && level0[j] == c
  }

  /** By their bounds, `u` may hold an older version of a user key than `c`. */
  ghost predicate MayHide(c: Table, u: Table) {
    exists key: Bytes, a: TxnTs, b: TxnTs :: a < b && Holds(u, KeyTs(key, a)) && Holds(c, KeyTs(key, b))
  }

  /** `u` is left, in a level down to the target, in an older place than the claimed `c`. */
  ghost predicate Strands(levels: seq<seq<Table>>, claimed: seq<Table>, target: nat, c: Table, u: Table) {
    && c in claimed && u !in claimed && Behind(levels, u, c)
    && (exists l :: 0 <= l <= target && l < |levels| && u in levels[l])
  }

  /** Down to the target level, no table that is left behind may hold older versions of what is compacted. */
  ghost predicate Safe(levels: seq<seq<Table>>, claimed: seq<Table>, target: nat) {
    forall c, u :: Strands(levels, claimed, target, c, u) ==> !MayHide(c, u)
  }

  /** What a caller can check: tables whose ranges do not overlap hide nothing from one another. */
  lemma HiddenOverlaps(c: Table, u: Table)
    requires WellFormed(c) && WellFormed(u) && MayHide(c, u)
    ensures OverlapsWith(RangeOf(c), RangeOf(u))
  {
    var key: Bytes, a: TxnTs, b: TxnTs :| a < b && Holds(u, KeyTs(key, a)) && Holds(c, KeyTs(key, b));
    HeldKey(u, KeyTs(key, a));
    HeldKey(c, KeyTs(key, b));
    assert ShareUserKey(c, u);
    OverlapIsSharedUserKey(c, u);
  }

  lemma HeldKey(t: Table, k: KeyTs)
    requires Holds(t, k)
    ensures Compare(t.smallest.key, k.key) != Greater && Compare(k.key, t.biggest.key) != Greater
  {
    CompareKeyTsReverse(t.smallest, k);
    CompareKeyTsReverse(k, t.biggest);
  }

  /** Whatever is left behind, down to the target level, is newer than what is compacted. */
  lemma LeftBehindIsNewer(levels: seq<seq<Table>>, contents: Contents, claimed: seq<Table>, target: nat,
                          c: Table, u: Table, l: nat)
    requires StoreOk(levels, contents) && InStore(levels, claimed) && Safe(levels, claimed, target)
    requires c in claimed && l <= target && l < |levels| && u in levels[l] && u !in claimed
    ensures OlderThan(contents, c, u)
  {
    var k :| 0 <= k < |levels| && c in levels[k];
    assert Behind(levels, u, c) ==> Strands(levels, claimed, target, c, u);
    if k < l {
      BehindSharesNone(levels, contents, c, u, k, l);
    } else if k == l == 0 {
      var i :| 0 <= i < |levels[0]| && levels[0][i] == u;
      var j :| 0 <= j < |levels[0]| && levels[0][j] == c;
      if i < j {
        assert InFront(levels[0], u, c);
        NothingHidden(contents, c, u);
      }
    } else if k == l {
      assert NoSharedKey(contents, c, u);
    }
  }

  lemma BehindSharesNone(levels: seq<seq<Table>>, contents: Contents, c: Table, u: Table, k: nat, l: nat)
    requires StoreOk(levels, contents) && k < l < |levels| && c in levels[k] && u in levels[l] && !MayHide(c, u)
    ensures NoSharedKey(contents, c, u)
  {
    assert OlderThan(contents, u, c) && InBounds(contents, c) && InBounds(contents, u);
    NothingHidden(contents, c, u);
  }

  lemma NothingHidden(contents: Contents, c: Table, u: Table)
    requires InBounds(contents, c) && InBounds(contents, u) && OlderThan(contents, u, c) && !MayHide(c, u)
    ensures NoSharedKey(contents, c, u)
  {
    forall e, f | e in contents(c.id) && f in contents(u.id)
      ensures e.at.key != f.at.key
    {
      HiddenBy(c, u, e.at, f.at);
    }
  }

  lemma HiddenBy(c: Table, u: Table, b: KeyTs, a: KeyTs)
    requires Holds(c, b) && Holds(u, a)
    ensures a.key == b.key && a.ts < b.ts ==> MayHide(c, u)
  {
    assert a == KeyTs(a.key, a.ts) && b == KeyTs(b.key, b.ts);
  }

  // ---------- what garbage collection asks for ----------

  /** `es` is held by the claimed tables, `upper` by the others down to the target level, `lower` by the levels
      below. */
  ghost predicate Divides(levels: seq<seq<Table>>, contents: Contents, claimed: seq<Table>, target: nat,
                          es: seq<R.Entry>, upper: seq<R.Entry>, lower: seq<R.Entry>) {
    && (forall e :: e in es ==> exists t :: t in claimed && e in contents(t.id))
    && (forall f :: f in upper ==> LeftIn(levels, contents, claimed, 0, target + 1, f))
    && (forall f :: f in lower ==> LeftIn(levels, contents, claimed, target + 1, |levels|, f))
  }

  /** `f` is held by a table, in the levels from `lo` to before `hi`, that is not claimed. */
  ghost predicate LeftIn(levels: seq<seq<Table>>, contents: Contents, claimed: seq<Table>, lo: nat, hi: nat,
                         f: R.Entry) {
    exists l, u :: lo <= l < hi && l < |levels| && u in levels[l] && u !in claimed && f in contents(u.id)
  }

  lemma {:induction false} Smallest(ts: seq<Table>) returns (a: Table)
    requires ts != []
    ensures a in ts && (forall t :: t in ts ==> Le(a.smallest, t.smallest))
  {
    var n := |ts| - 1;
    a := ts[n];
    LeTotal(a.smallest, a.smallest);
    if n > 0 {
      var b := Smallest(ts[..n]);
      LeTotal(b.smallest, a.smallest);
      LeTotal(a.smallest, b.smallest);
      if Le(b.smallest, a.smallest) {
        return b;
      }
      forall t | t in ts[..n]
        ensures Le(a.smallest, t.smallest)
      {
        LeTransitive(a.smallest, b.smallest, t.smallest);
      }
    }
  }

  lemma {:induction false} Biggest(ts: seq<Table>) returns (a: Table)
    requires ts != []
    ensures a in ts && (forall t :: t in ts ==> Le(t.biggest, a.biggest))
  {
    var n := |ts| - 1;
    a := ts[n];
    LeTotal(a.biggest, a.biggest);
    if n > 0 {
      var b := Biggest(ts[..n]);
      LeTotal(a.biggest, b.biggest);
      LeTotal(b.biggest, a.biggest);
      if Le(a.biggest, b.biggest) {
        return b;
      }
      forall t | t in ts[..n]
        ensures Le(t.biggest, a.biggest)
      {
        LeTransitive(t.biggest, b.biggest, a.biggest);
      }
    }
  }

  lemma HullExists(ts: seq<Table>)
    requires ts != []
    ensures exists r :: IsHull(ts, r)
  {
    var a := Smallest(ts);
    var b := Biggest(ts);
    MaxPositive();
    assert IsHull(ts, KeyTsRange(KeyTs(a.smallest.key, MAX_TS), KeyTs(b.biggest.key, 0), false));
  }

  lemma ClaimedHolds(levels: seq<seq<Table>>, contents: Contents, claimed: seq<Table>, e: R.Entry)
    requires StoreOk(levels, contents) && InStore(levels, claimed)
    requires exists t :: t in claimed && e in contents(t.id)
    ensures exists t :: t in claimed && Holds(t, e.at)
  {
    var t :| t in claimed && e in contents(t.id);
    var l :| 0 <= l < |levels| && t in levels[l];
    assert InBounds(contents, t);
  }

  /** A safe choice of tables, in a store that is in order, has the surroundings that garbage collection needs. */
  lemma SafeSurroundings(levels: seq<seq<Table>>, contents: Contents, claimed: seq<Table>, target: nat,
                         es: seq<R.Entry>, upper: seq<R.Entry>, lower: seq<R.Entry>)
    requires StoreOk(levels, contents) && InStore(levels, claimed) && Safe(levels, claimed, target)
    requires claimed != [] && AllWellFormed(claimed)
    requires Divides(levels, contents, claimed, target, es, upper, lower)
    ensures Surroundings(es, upper, lower, levels, claimed, target + 1)
  {
    HullExists(claimed);
    forall e | e in es
      ensures exists t :: t in claimed && Holds(t, e.at)
    {
      ClaimedHolds(levels, contents, claimed, e);
    }
    forall f | f in lower
      ensures exists l, t :: target + 1 <= l < |levels| && t in levels[l] && Holds(t, f.at)
    {
      assert LeftIn(levels, contents, claimed, target + 1, |levels|, f);
      var l, u :| target + 1 <= l < |levels| && u in levels[l] && u !in claimed && f in contents(u.id);
      assert InBounds(contents, u);
    }
    forall e, f | e in es && f in upper && e.at.key == f.at.key
      ensures e.at.ts < f.at.ts
    {
      var t :| t in claimed && e in contents(t.id);
      assert LeftIn(levels, contents, claimed, 0, target + 1, f);
      var l, u :| 0 <= l < target + 1 && l < |levels| && u in levels[l] && u !in claimed && f in contents(u.id);
      LeftBehindIsNewer(levels, contents, claimed, target, t, u, l);
    }
  }

  /** A compaction of the claimed tables, with the overlap check as it is made, changes nothing for readers. */
  ghost predicate Unseen(levels: seq<seq<Table>>, contents: Contents, claimed: seq<Table>, target: nat,
                         es: seq<R.Entry>, upper: seq<R.Entry>, lower: seq<R.Entry>, s: R.Setting, now: nat) {
    && StoreOk(levels, contents) && Divides(levels, contents, claimed, target, es, upper, lower)
    && R.Sorted(es) && R.ReadsLater(es, s, now) && s.hasOverlap == OverlapBelow(levels, claimed, target + 1)
    ==> R.Preserved(es, s, upper + lower, now)
  }

  lemma SafeIsUnseen(levels: seq<seq<Table>>, contents: Contents, claimed: seq<Table>, target: nat,
                     es: seq<R.Entry>, upper: seq<R.Entry>, lower: seq<R.Entry>, s: R.Setting, now: nat)
    requires InStore(levels, claimed) && claimed != [] && AllWellFormed(claimed)
    requires OverlapBelow(levels, claimed, target + 1) || Safe(levels, claimed, target)
    ensures Unseen(levels, contents, claimed, target, es, upper, lower, s, now)
  {
    if StoreOk(levels, contents) && Divides(levels, contents, claimed, target, es, upper, lower)
      && R.Sorted(es) && R.ReadsLater(es, s, now) && s.hasOverlap == OverlapBelow(levels, claimed, target + 1) {
      if s.hasOverlap {
        R.PreservedWithoutOlder(es, s, upper + lower, now);
      } else {
        SafeSurroundings(levels, contents, claimed, target, es, upper, lower);
        CompactionInvisible(es, s, upper, lower, levels, claimed, target + 1, now);
      }
    }
  }

  // ---------- and what goes wrong otherwise ----------

  /** Two tables hold one entry each, all others nothing. */
  function TwoEntries(c: nat, e: R.Entry, u: nat, f: R.Entry): Contents {
    (n: nat) => if n == c then [e] else if n == u then [f] else []
  }

  function Put(at: KeyTs): R.Entry {
    R.Entry(at, false, false, false, 0, [])
  }

  function Deletion(at: KeyTs): R.Entry {
    R.Entry(at, true, false, false, 0, [])
  }

  lemma SamePlace(levels: seq<seq<Table>>, k: nat, i: nat, l: nat, j: nat)
    requires UniquePlaces(levels) && k < |levels| && l < |levels| && i < |levels[k]| && j < |levels[l]|
    requires levels[k][i].id == levels[l][j].id
    ensures k == l && i == j
  {
    assert levels[k][i] in levels[k] && levels[l][j] in levels[l];
    assert UniqueIds(levels[k]);
  }

  lemma LevelAt(levels: seq<seq<Table>>, k: nat, i: nat, k': nat)
    requires UniquePlaces(levels) && k < |levels| && i < |levels[k]| && k' < |levels|
    ensures levels[k][i] in levels[k'] ==> k' == k
  {
    if i' :| 0 <= i' < |levels[k']| && levels[k'][i'] == levels[k][i] {
      SamePlace(levels, k, i, k', i');
    }
  }

  lemma LowerAt(levels: seq<seq<Table>>, k: nat, i: nat, l: nat, j: nat)
    requires UniquePlaces(levels) && k < |levels| && l < |levels| && i < |levels[k]| && j < |levels[l]|
    requires Lower(levels, levels[l][j], levels[k][i])
    ensures k < l
  {
    var k', l' :| 0 <= k' < l' < |levels| && levels[k][i] in levels[k'] && levels[l][j] in levels[l'];
    LevelAt(levels, k, i, k');
    LevelAt(levels, l, j, l');
  }

  lemma InFrontAt(levels: seq<seq<Table>>, k: nat, i: nat, l: nat, j: nat)
    requires UniquePlaces(levels) && k < |levels| && l < |levels| && i < |levels[k]| && j < |levels[l]|
    requires InFront(levels[0], levels[l][j], levels[k][i])
    ensures k == l == 0 && j < i
  {
    var j', i' :| 0 <= j' < i' < |levels[0]| && levels[0][j'] == levels[l][j] && levels[0][i'] == levels[k][i];
    SamePlace(levels, k, i, 0, i');
    SamePlace(levels, l, j, 0, j');
  }

  lemma BehindAt(levels: seq<seq<Table>>, k: nat, i: nat, l: nat, j: nat)
    requires UniquePlaces(levels) && k < |levels| && l < |levels| && i < |levels[k]| && j < |levels[l]|
    requires Behind(levels, levels[l][j], levels[k][i])
    ensures OlderPlace(l, j, k, i)
  {
    if Lower(levels, levels[l][j], levels[k][i]) {
      LowerAt(levels, k, i, l, j);
    } else {
      InFrontAt(levels, k, i, l, j);
    }
  }

  /** What `TwoEntries` holds at a place. */
  lemma HeldAt(levels: seq<seq<Table>>, k: nat, i: nat, l: nat, j: nat, e: R.Entry, f: R.Entry, m: nat, x: nat)
    requires UniquePlaces(levels) && k < |levels| && l < |levels| && i < |levels[k]| && j < |levels[l]|
    requires (k, i) != (l, j) && m < |levels| && x < |levels[m]|
    ensures TwoEntries(levels[k][i].id, e, levels[l][j].id, f)(levels[m][x].id)
         == if (m, x) == (k, i) then [e] else if (m, x) == (l, j) then [f] else []
  {
    if levels[m][x].id == levels[k][i].id {
      SamePlace(levels, m, x, k, i);
    }
    if levels[m][x].id == levels[l][j].id {
      SamePlace(levels, m, x, l, j);
    }
  }

  /** The places are in the order of age. */
  ghost predicate OlderPlace(l: nat, j: nat, k: nat, i: nat) {
    k < l || (k == l == 0 && j < i)
  }

  lemma TwoAt(levels: seq<seq<Table>>, k: nat, i: nat, l: nat, j: nat, e: R.Entry, f: R.Entry,
              m: nat, x: nat, n: nat, y: nat)
    requires UniquePlaces(levels) && k < |levels| && l < |levels| && i < |levels[k]| && j < |levels[l]|
    requires OlderPlace(l, j, k, i) && f.at.ts < e.at.ts
    requires m < |levels| && n < |levels| && x < |levels[m]| && y < |levels[n]| && (m, x) != (n, y)
    ensures var contents := TwoEntries(levels[k][i].id, e, levels[l][j].id, f);
      && (OlderPlace(n, y, m, x) ==> OlderThan(contents, levels[n][y], levels[m][x]))
      && (m == n > 0 ==> NoSharedKey(contents, levels[m][x], levels[n][y]))
  {
    HeldAt(levels, k, i, l, j, e, f, m, x);
    HeldAt(levels, k, i, l, j, e, f, n, y);
  }

  lemma TwoFit(levels: seq<seq<Table>>, k: nat, i: nat, l: nat, j: nat, e: R.Entry, f: R.Entry, m: nat, x: nat)
    requires UniquePlaces(levels) && k < |levels| && l < |levels| && i < |levels[k]| && j < |levels[l]|
    requires OlderPlace(l, j, k, i) && m < |levels| && x < |levels[m]|
    requires Holds(levels[k][i], e.at) && Holds(levels[l][j], f.at)
    ensures InBounds(TwoEntries(levels[k][i].id, e, levels[l][j].id, f), levels[m][x])
  {
    HeldAt(levels, k, i, l, j, e, f, m, x);
  }

  /** A store in order, place by place. */
  lemma OkByPlaces(levels: seq<seq<Table>>, contents: Contents)
    requires forall m, x :: 0 <= m < |levels| && 0 <= x < |levels[m]| ==> InBounds(contents, levels[m][x])
    requires forall m, x, n, y :: 0 <= m <= n < |levels| && 0 <= x < |levels[m]| && 0 <= y < |levels[n]|
               ==> OrderedAt(levels, contents, m, x, n, y)
    ensures StoreOk(levels, contents)
  {
    forall k, l, t, u | 0 <= k < l < |levels| && t in levels[k] && u in levels[l]
      ensures OlderThan(contents, u, t)
    {
      var x :| 0 <= x < |levels[k]| && levels[k][x] == t;
      var y :| 0 <= y < |levels[l]| && levels[l][y] == u;
      assert OrderedAt(levels, contents, k, x, l, y);
    }
    forall l, t, u | 1 <= l < |levels| && t in levels[l] && u in levels[l] && t != u
      ensures NoSharedKey(contents, t, u)
    {
      var x :| 0 <= x < |levels[l]| && levels[l][x] == t;
      var y :| 0 <= y < |levels[l]| && levels[l][y] == u;
      assert OrderedAt(levels, contents, l, x, l, y);
    }
    if |levels| > 0 {
      forall i, j | 0 <= i < j < |levels[0]|
        ensures OlderThan(contents, levels[0][i], levels[0][j])
      {
        assert OrderedAt(levels, contents, 0, j, 0, i);
      }
    }
  }

  ghost predicate OrderedAt(levels: seq<seq<Table>>, contents: Contents, m: nat, x: nat, n: nat, y: nat)
    requires m < |levels| && n < |levels| && x < |levels[m]| && y < |levels[n]|
  {
    && (OlderPlace(n, y, m, x) ==> OlderThan(contents, levels[n][y], levels[m][x]))
    && (m == n > 0 && x != y ==> NoSharedKey(contents, levels[m][x], levels[n][y]))
  }

  /** A newer version in one table and an older one in a table behind it are a store in order. */
  lemma TwoEntriesInOrder(levels: seq<seq<Table>>, k: nat, i: nat, l: nat, j: nat, e: R.Entry, f: R.Entry)
    requires UniquePlaces(levels) && k < |levels| && l < |levels| && i < |levels[k]| && j < |levels[l]|
    requires OlderPlace(l, j, k, i) && f.at.ts < e.at.ts
    requires Holds(levels[k][i], e.at) && Holds(levels[l][j], f.at)
    ensures StoreOk(levels, TwoEntries(levels[k][i].id, e, levels[l][j].id, f))
  {
    var contents := TwoEntries(levels[k][i].id, e, levels[l][j].id, f);
    forall m, x | 0 <= m < |levels| && 0 <= x < |levels[m]|
      ensures InBounds(contents, levels[m][x])
    {
      TwoFit(levels, k, i, l, j, e, f, m, x);
    }
    forall m, x, n, y | 0 <= m <= n < |levels| && 0 <= x < |levels[m]| && 0 <= y < |levels[n]|
      ensures OrderedAt(levels, contents, m, x, n, y)
    {
      if (m, x) != (n, y) {
        TwoAt(levels, k, i, l, j, e, f, m, x, n, y);
      }
    }
    OkByPlaces(levels, contents);
  }

  /** A deletion in `e` that hides `f` from readers, and is dropped. */
  lemma DeletionDropped(e: R.Entry, f: R.Entry, s: R.Setting, now: nat)
    requires e == Deletion(e.at) && f == Put(f.at) && e.at.key == f.at.key && f.at.ts < e.at.ts
    requires s.discardTs == e.at.ts && !s.hasOverlap
    ensures R.Sorted([e]) && R.Resurrects([e], s, [f], now, e.at.key)
  {
    assert R.Newest([e][1..], e.at.key, e.at.ts) == None && R.Newest([f][1..], e.at.key, e.at.ts) == None;
  }

  lemma PlaceOf(levels: seq<seq<Table>>, t: Table, l: nat) returns (j: nat)
    requires l < |levels| && t in levels[l]
    ensures j < |levels[l]| && levels[l][j] == t
  {
    j :| 0 <= j < |levels[l]| && levels[l][j] == t;
  }

  /** The places of a table left behind and of a claimed one whose versions it may hide. */
  lemma UnsafePlaces(levels: seq<seq<Table>>, claimed: seq<Table>, target: nat)
    returns (k: nat, i: nat, l: nat, j: nat)
    requires UniquePlaces(levels) && InStore(levels, claimed) && !Safe(levels, claimed, target)
    ensures k < |levels| && l < |levels| && i < |levels[k]| && j < |levels[l]| && l <= target
    ensures levels[k][i] in claimed && levels[l][j] !in claimed && MayHide(levels[k][i], levels[l][j])
    ensures OlderPlace(l, j, k, i)
  {
    var c, u :| Strands(levels, claimed, target, c, u) && MayHide(c, u);
    l :| 0 <= l <= target && l < |levels| && u in levels[l];
    k :| 0 <= k < |levels| && c in levels[k];
    i := PlaceOf(levels, c, k);
    j := PlaceOf(levels, u, l);
    BehindAt(levels, k, i, l, j);
  }

  /** A table that is left behind and may hold an older version of what is compacted: in some store in order, with the
      overlap check negative, a deletion is undone. */
  lemma UnsafeIsSeen(levels: seq<seq<Table>>, claimed: seq<Table>, target: nat, now: nat)
    returns (contents: Contents, e: R.Entry, f: R.Entry, s: R.Setting)
    requires UniquePlaces(levels) && InStore(levels, claimed) && !OverlapBelow(levels, claimed, target + 1)
    requires !Safe(levels, claimed, target)
    ensures !Unseen(levels, contents, claimed, target, [e], [f], [], s, now)
  {
    var k, i, l, j := UnsafePlaces(levels, claimed, target);
    var c, u := levels[k][i], levels[l][j];
    var key: Bytes, a: TxnTs, b: TxnTs :| a < b && Holds(u, KeyTs(key, a)) && Holds(c, KeyTs(key, b));
    e, f, s := Deletion(KeyTs(key, b)), Put(KeyTs(key, a)), R.Setting(b, 1, false, _ => now);
    contents := TwoEntries(c.id, e, u.id, f);
    TwoEntriesInOrder(levels, k, i, l, j, e, f);
    TwoEntriesDivided(levels, claimed, target, k, i, l, j, e, f);
    DeletionSeen(levels, contents, claimed, target, e, f, s, now);
  }

  lemma DeletionSeen(levels: seq<seq<Table>>, contents: Contents, claimed: seq<Table>, target: nat,
                     e: R.Entry, f: R.Entry, s: R.Setting, now: nat)
    requires StoreOk(levels, contents) && Divides(levels, contents, claimed, target, [e], [f], [])
    requires e == Deletion(e.at) && f == Put(f.at) && e.at.key == f.at.key && f.at.ts < e.at.ts
    requires !OverlapBelow(levels, claimed, target + 1) && s == R.Setting(e.at.ts, 1, false, _ => now)
    ensures !Unseen(levels, contents, claimed, target, [e], [f], [], s, now)
  {
    DeletionDropped(e, f, s, now);
    R.PreservedIff([e], s, [f], now);
    assert [f] + [] == [f];
  }

  lemma TwoEntriesDivided(levels: seq<seq<Table>>, claimed: seq<Table>, target: nat,
                          k: nat, i: nat, l: nat, j: nat, e: R.Entry, f: R.Entry)
    requires UniquePlaces(levels) && k < |levels| && l < |levels| && i < |levels[k]| && j < |levels[l]|
    requires levels[k][i] in claimed && levels[l][j] !in claimed && l <= target
    ensures Divides(levels, TwoEntries(levels[k][i].id, e, levels[l][j].id, f), claimed, target, [e], [f], [])
  {
    var contents := TwoEntries(levels[k][i].id, e, levels[l][j].id, f);
    HeldAt(levels, k, i, l, j, e, f, k, i);
    HeldAt(levels, k, i, l, j, e, f, l, j);
    assert levels[l][j] in levels[l];
    assert LeftIn(levels, contents, claimed, 0, target + 1, f);
  }

  /** Exactly which choices of tables can be compacted unseen, whatever a store in order holds: those for which the
      overlap check is positive, and those that are safe. */
  lemma UnseenIff(levels: seq<seq<Table>>, claimed: seq<Table>, target: nat)
    requires UniquePlaces(levels) && InStore(levels, claimed) && claimed != [] && AllWellFormed(claimed)
    ensures (forall contents, es, upper, lower, s, now ::
               Unseen(levels, contents, claimed, target, es, upper, lower, s, now))
        <==> OverlapBelow(levels, claimed, target + 1) || Safe(levels, claimed, target)
  {
    if OverlapBelow(levels, claimed, target + 1) || Safe(levels, claimed, target) {
      forall contents, es, upper, lower, s, now
        ensures Unseen(levels, contents, claimed, target, es, upper, lower, s, now)
      {
        SafeIsUnseen(levels, contents, claimed, target, es, upper, lower, s, now);
      }
    } else {
      var contents, e, f, s := UnsafeIsSeen(levels, claimed, target, 0);
    }
  }
}
