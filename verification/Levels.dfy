/** One level of the tree (src/level/level_handler.rs) and the search for the tables that meet a
    key range (src/level/compaction.rs, `overlap_tables`). */
module Levels {
  import opened Bytes
  import opened Keys
  import opened Ranges
  import opened Seqs

  /** A level from 1 on: tables in key order, none meeting another. */
  ghost predicate Disjoint(ts: seq<Table>) {
    && AllWellFormed(ts)
    && (forall i, j :: 0 <= i < j < |ts| ==> Lt(ts[i].biggest, ts[j].smallest))
  }

  ghost predicate UniqueIds(ts: seq<Table>) {
    forall i, j :: 0 <= i < j < |ts| ==> ts[i].id != ts[j].id
  }

  // ---------- searching ----------

  ghost predicate Increasing(keys: seq<KeyTs>) {
    forall i, j :: 0 <= i < j < |keys| ==> Lt(keys[i], keys[j])
  }

  /** `binary_search_by` on keys in order: the position of `key`, or where it would go. */
  method BinarySearch(keys: seq<KeyTs>, key: KeyTs) returns (found: bool, at: nat)
    requires Increasing(keys)
    ensures at <= |keys|
    ensures found ==> at < |keys| && keys[at] == key
    ensures forall i :: 0 <= i < at ==> Lt(keys[i], key)
    ensures forall i :: at <= i < |keys| ==> (if found && i == at then keys[i] == key else Lt(key, keys[i]))
  {
    LtIsStrictTotalOrder();
    var left, right, size := 0, |keys|, |keys|;
    while left < right
      invariant 0 <= left <= right <= |keys| && size == right - left
      invariant forall i :: 0 <= i < left ==> Lt(keys[i], key)
      invariant forall i :: right <= i < |keys| ==> Lt(key, keys[i])
    {
      var mid := left + size / 2;
      CompareKeyTsEqual(keys[mid], key);
      CompareKeyTsReverse(keys[mid], key);
      match CompareKeyTs(keys[mid], key) {
        case Less => left := mid + 1;
        case Greater => right := mid;
        case Equal => return true, mid;
      }
      size := right - left;
    }
    return false, left;
  }

  ghost predicate Meets(t: Table, r: KeyTsRange) {
    !Lt(t.biggest, r.left) && !Lt(r.right, t.smallest)
  }

  lemma EndsIncrease(ts: seq<Table>)
    requires Disjoint(ts)
    ensures Increasing(seq(|ts|, i requires 0 <= i < |ts| => ts[i].smallest))
    ensures Increasing(seq(|ts|, i requires 0 <= i < |ts| => ts[i].biggest))
  {
    forall i, j | 0 <= i < j < |ts|
      ensures Lt(ts[i].smallest, ts[j].smallest) && Lt(ts[i].biggest, ts[j].biggest)
    {
      assert ts[i] in ts && ts[j] in ts;
      LeTotal(ts[i].biggest, ts[j].smallest);
      LeTransitive(ts[i].smallest, ts[i].biggest, ts[j].smallest);
      LeTransitive(ts[i].biggest, ts[j].smallest, ts[j].biggest);
    }
  }

  /** `lo..hi` cuts the level at the two ends of the range. */
  ghost predicate Overlapped(ts: seq<Table>, r: KeyTsRange, lo: nat, hi: nat) {
    && lo <= |ts| && hi <= |ts|
    && (forall i :: 0 <= i < |ts| ==> (i < lo <==> Lt(ts[i].biggest, r.left)))
    && (forall i :: 0 <= i < |ts| ==> (i >= hi <==> Lt(r.right, ts[i].smallest)))
  }

  /** The half-open interval of indices whose tables meet the range -- exactly those. An end of
      the range that equals the default key selects nothing. */
  method OverlapTables(ts: seq<Table>, r: KeyTsRange) returns (lo: nat, hi: nat)
    requires Disjoint(ts)
    ensures IsDefault(r.left) || IsDefault(r.right) ==> lo == hi == 0
    ensures !IsDefault(r.left) && !IsDefault(r.right) ==>
              && Overlapped(ts, r, lo, hi)
              && (forall i :: 0 <= i < |ts| ==> (lo <= i < hi <==> Meets(ts[i], r)))
              && (Le(r.left, r.right) ==> lo <= hi)
  {
    if IsDefault(r.left) || IsDefault(r.right) {
      return 0, 0;
    }
    EndsIncrease(ts);
    LtIsStrictTotalOrder();
    var biggest := seq(|ts|, i requires 0 <= i < |ts| => ts[i].biggest);
    var smallest := seq(|ts|, i requires 0 <= i < |ts| => ts[i].smallest);
    var _, l := BinarySearch(biggest, r.left);
    var found, h := BinarySearch(smallest, r.right);
    lo := l;
    hi := if found then h + 1 else h;
    forall i | 0 <= i < |ts|
      ensures i < lo <==> Lt(ts[i].biggest, r.left)
      ensures i >= hi <==> Lt(r.right, ts[i].smallest)
    {
      assert biggest[i] == ts[i].biggest && smallest[i] == ts[i].smallest;
    }
    if lo > hi && Le(r.left, r.right) {
      OrderedRange(ts[lo - 1], r);
      assert false;
    }
  }

  lemma OrderedRange(t: Table, r: KeyTsRange)
    requires WellFormed(t) && Le(r.left, r.right) && Lt(t.biggest, r.left)
    ensures !Lt(r.right, t.smallest)
  {
    LeTotal(t.biggest, r.left);
    LeTransitive(t.smallest, t.biggest, r.left);
    LeTransitive(t.smallest, r.left, r.right);
  }

  // ---------- rearranging a level ----------

  function Sum(ts: seq<Table>): nat {
    if ts == [] then 0 else ts[0].size + Sum(ts[1..])
  }

  function Without(ts: seq<Table>, ids: set<nat>): seq<Table> {
    if ts == [] then []
    else (if ts[0].id in ids then [] else [ts[0]]) + Without(ts[1..], ids)
  }

  function Ids(ts: seq<Table>): set<nat> {
    set t | t in ts :: t.id
  }

  /** Level 0 is kept in order of age, every other level in key order. */
  predicate Before(level: nat, a: Table, b: Table) {
    if level == 0 then a.id < b.id else Lt(a.smallest, b.smallest)
  }

  /** A stable sort (`sort_by`), one table at a time. */
  function Insert(level: nat, ts: seq<Table>, t: Table): seq<Table> {
    if ts == [] then [t]
    else if Before(level, t, ts[|ts| - 1]) then Insert(level, ts[..|ts| - 1], t) + [ts[|ts| - 1]]
    else ts + [t]
  }

  function Arrange(level: nat, ts: seq<Table>): seq<Table> {
    if ts == [] then [] else Insert(level, Arrange(level, ts[..|ts| - 1]), ts[|ts| - 1])
  }

  lemma {:induction false} SumConcat(a: seq<Table>, b: seq<Table>)
    ensures Sum(a + b) == Sum(a) + Sum(b)
  {
    if a == [] {
      assert a + b == b;
    } else {
      SumConcat(a[1..], b);
      assert (a + b)[1..] == a[1..] + b;
    }
  }

  lemma {:induction false} InsertIsPermutation(level: nat, ts: seq<Table>, t: Table)
    ensures multiset(Insert(level, ts, t)) == multiset(ts) + multiset{t}
    ensures Sum(Insert(level, ts, t)) == Sum(ts) + t.size
  {
    if ts != [] && Before(level, t, ts[|ts| - 1]) {
      var init, last := ts[..|ts| - 1], ts[|ts| - 1];
      InsertIsPermutation(level, init, t);
      assert ts == init + [last];
      SumConcat(init, [last]);
      SumConcat(Insert(level, init, t), [last]);
    } else {
      SumConcat(ts, [t]);
    }
  }

  lemma {:induction false} ArrangeIsPermutation(level: nat, ts: seq<Table>)
    ensures multiset(Arrange(level, ts)) == multiset(ts)
    ensures Sum(Arrange(level, ts)) == Sum(ts)
  {
    if ts != [] {
      var init, last := ts[..|ts| - 1], ts[|ts| - 1];
      ArrangeIsPermutation(level, init);
      InsertIsPermutation(level, Arrange(level, init), last);
      assert ts == init + [last];
      SumConcat(init, [last]);
    }
  }

  ghost predicate Apart(a: Table, b: Table) {
    Lt(a.biggest, b.smallest) || Lt(b.biggest, a.smallest)
  }

  ghost predicate AllApart(ts: seq<Table>) {
    AllWellFormed(ts) && forall i, j :: 0 <= i < j < |ts| ==> Apart(ts[i], ts[j])
  }

  /** The order that `Before` asks for. */
  ghost predicate Ordered(level: nat, ts: seq<Table>) {
    forall i, j :: 0 <= i < j < |ts| ==> !Before(level, ts[j], ts[i])
  }

  lemma BeforeIsOrder(level: nat, a: Table, b: Table, c: Table)
    ensures Before(level, a, b) ==> !Before(level, b, a)
    ensures !Before(level, b, a) && !Before(level, c, b) ==> !Before(level, c, a)
  {
    LeTotal(a.smallest, b.smallest);
    LeTotal(b.smallest, a.smallest);
    if Le(a.smallest, b.smallest) && Le(b.smallest, c.smallest) {
      LeTransitive(a.smallest, b.smallest, c.smallest);
    }
  }

  lemma {:induction false} InInserted(level: nat, ts: seq<Table>, t: Table, u: Table)
    ensures u in Insert(level, ts, t) <==> u in ts || u == t
  {
    if ts != [] && Before(level, t, ts[|ts| - 1]) {
      InInserted(level, ts[..|ts| - 1], t, u);
    }
  }

  lemma {:induction false} InsertSorts(level: nat, ts: seq<Table>, t: Table)
    requires Ordered(level, ts)
    ensures Ordered(level, Insert(level, ts, t))
  {
    if ts != [] {
      var n := |ts| - 1;
      var last, init := ts[n], ts[..n];
      if Before(level, t, last) {
        InsertSorts(level, init, t);
        var r := Insert(level, init, t);
        forall i | 0 <= i < |r|
          ensures !Before(level, last, r[i])
        {
          InInserted(level, init, t, r[i]);
          BeforeIsOrder(level, t, last, last);
        }
      } else {
        forall i | 0 <= i < n
          ensures !Before(level, t, ts[i])
        {
          BeforeIsOrder(level, ts[i], last, t);
        }
      }
    }
  }

  /** A level is in order: level 0 by age, every other one by its first keys. */
  lemma {:induction false} ArrangeSorts(level: nat, ts: seq<Table>)
    ensures Ordered(level, Arrange(level, ts))
  {
    if ts != [] {
      ArrangeSorts(level, ts[..|ts| - 1]);
      InsertSorts(level, Arrange(level, ts[..|ts| - 1]), ts[|ts| - 1]);
    }
  }

  /** Level 0 ends up in strictly ascending order of the ids, if they are unique. */
  lemma Level0ById(ts: seq<Table>)
    requires UniqueIds(Arrange(0, ts))
    ensures forall i, j :: 0 <= i < j < |Arrange(0, ts)| ==> Arrange(0, ts)[i].id < Arrange(0, ts)[j].id
  {
    ArrangeSorts(0, ts);
  }

  lemma InSeq(ts: seq<Table>, t: Table)
    ensures t in ts <==> t in multiset(ts)
  {
  }

  lemma DisjointSnoc(ts: seq<Table>, t: Table)
    requires Disjoint(ts) && WellFormed(t) && forall u :: u in ts ==> Lt(u.biggest, t.smallest)
    ensures Disjoint(ts + [t])
  {
    forall i, j | 0 <= i < j < |ts + [t]|
      ensures Lt((ts + [t])[i].biggest, (ts + [t])[j].smallest)
    {
      assert ts[i] in ts;
    }
  }

  lemma ApartBefore(t: Table, u: Table)
    requires WellFormed(t) && WellFormed(u) && Apart(u, t) && Lt(t.smallest, u.smallest)
    ensures Lt(t.biggest, u.smallest)
  {
    if Lt(u.biggest, t.smallest) {
      LeTotal(u.biggest, t.smallest);
      LeTransitive(u.smallest, u.biggest, t.smallest);
      assert false;
    }
  }

  lemma {:induction false} InsertKeepsDisjoint(ts: seq<Table>, t: Table)
    requires Disjoint(ts) && WellFormed(t) && forall u :: u in ts ==> Apart(u, t)
    ensures Disjoint(Insert(1, ts, t))
    ensures forall u :: u in Insert(1, ts, t) ==> u == t || u in ts
  {
    if ts == [] {
    } else if Before(1, t, ts[|ts| - 1]) {
      var init, last := ts[..|ts| - 1], ts[|ts| - 1];
      ApartBefore(t, last);
      InsertKeepsDisjoint(init, t);
      DisjointSnoc(Insert(1, init, t), last);
    } else {
      forall u | u in ts
        ensures Lt(u.biggest, t.smallest)
      {
        var i :| 0 <= i < |ts| && ts[i] == u;
        BelowLast(ts, i, t);
      }
      DisjointSnoc(ts, t);
    }
  }

  /** A table apart from `ts[i]` and not before the last one lies behind `ts[i]`. */
  lemma BelowLast(ts: seq<Table>, i: nat, t: Table)
    requires Disjoint(ts) && i < |ts| && WellFormed(t)
    requires Apart(ts[i], t) && !Lt(t.smallest, ts[|ts| - 1].smallest)
    ensures Lt(ts[i].biggest, t.smallest)
  {
    var last := ts[|ts| - 1];
    assert ts[i] in ts;
    LeTotal(ts[i].smallest, ts[i].smallest);
    if i < |ts| - 1 {
      LeTotal(ts[i].biggest, last.smallest);
      LeTransitive(ts[i].biggest, last.smallest, t.smallest);
    } else if Lt(t.biggest, last.smallest) {
      LeTotal(t.biggest, last.smallest);
      LeTransitive(t.smallest, t.biggest, last.smallest);
      assert false;
    }
  }

  /** Sorting tables that are apart by their first key makes a well-formed level. */
  lemma {:induction false} ArrangeMakesDisjoint(level: nat, ts: seq<Table>)
    requires level > 0 && AllApart(ts)
    ensures Disjoint(Arrange(level, ts))
  {
    if ts != [] {
      var init, last := ts[..|ts| - 1], ts[|ts| - 1];
      ArrangeMakesDisjoint(level, init);
      ArrangeIsPermutation(level, init);
      forall u | u in Arrange(level, init)
        ensures Apart(u, last)
      {
        InSeq(Arrange(level, init), u);
        InSeq(init, u);
        var i :| 0 <= i < |init| && init[i] == u;
        assert ts[i] == u;
      }
      InsertSameFrom(level, 1, Arrange(level, init), last);
      InsertKeepsDisjoint(Arrange(level, init), last);
    }
  }

  lemma {:induction false} InsertSameFrom(a: nat, b: nat, ts: seq<Table>, t: Table)
    requires a > 0 && b > 0
    ensures Insert(a, ts, t) == Insert(b, ts, t)
  {
    if ts != [] {
      InsertSameFrom(a, b, ts[..|ts| - 1], t);
    }
  }

  // ---------- applying a plan ----------

  ghost predicate Holds(t: Table, k: KeyTs) {
    Le(t.smallest, k) && Le(k, t.biggest)
  }

  /** Both ends of `n` are keys of one of the compacted tables. */
  ghost predicate DrawnFrom(n: Table, tables: seq<Table>) {
    (exists t :: t in tables && Holds(t, n.smallest)) && (exists t :: t in tables && Holds(t, n.biggest))
  }

  /** A key of the compacted tables does not touch a table that stays. */
  lemma RemainingMisses(ts: seq<Table>, top: seq<Table>, r: KeyTsRange, lo: nat, hi: nat, i: nat, k: KeyTs)
    requires Disjoint(ts) && lo <= hi && Overlapped(ts, r, lo, hi)
    requires forall t :: t in top ==> Within(t, r) && !r.inf
    requires i < |ts| && !(lo <= i < hi)
    requires exists t :: t in top + ts[lo..hi] && Holds(t, k)
    ensures i < lo ==> Lt(ts[i].biggest, k)
    ensures i >= hi ==> Lt(k, ts[i].smallest)
  {
    LtIsStrictTotalOrder();
    assert ts[i] in ts;
    var t :| t in top + ts[lo..hi] && Holds(t, k);
    if t in top {
      LeTransitive(r.left, t.smallest, k);
      LeTransitive(k, t.biggest, r.right);
      LeTotal(ts[i].biggest, r.left);
      LeTotal(r.right, ts[i].smallest);
      if i < lo {
        LeTransitive(ts[i].biggest, r.left, k);
      } else {
        LeTransitive(k, r.right, ts[i].smallest);
      }
    } else {
      var j :| 0 <= j < |ts[lo..hi]| && ts[lo..hi][j] == t;
      assert ts[lo + j] == t;
      if i < lo {
        LeTotal(ts[i].biggest, t.smallest);
        LeTransitive(ts[i].biggest, t.smallest, k);
      } else {
        LeTotal(t.biggest, ts[i].smallest);
        LeTransitive(k, t.biggest, ts[i].smallest);
      }
    }
  }

  /** The level after a compaction: `bottom` is replaced by `new`. */
  ghost predicate NewTables(new': seq<Table>, top: seq<Table>, bottom: seq<Table>) {
    AllApart(new') && forall n :: n in new' ==> DrawnFrom(n, top + bottom)
  }

  lemma RemainingApart(ts: seq<Table>, top: seq<Table>, r: KeyTsRange, lo: nat, hi: nat, new': seq<Table>)
    requires Disjoint(ts) && lo <= hi && Overlapped(ts, r, lo, hi)
    requires forall t :: t in top ==> Within(t, r) && !r.inf
    requires NewTables(new', top, ts[lo..hi])
    ensures AllApart(ts[..lo] + ts[hi..] + new')
  {
    var kept := ts[..lo] + ts[hi..];
    var all := kept + new';
    forall a, b | 0 <= a < b < |all|
      ensures Apart(all[a], all[b])
    {
      var i := if a < lo then a else a - lo + hi;
      if b < |kept| {
        var j := if b < lo then b else b - lo + hi;
        assert all[a] == ts[i] && all[b] == ts[j];
      } else if a < |kept| {
        assert all[a] == ts[i] && all[b] in new';
        RemainingMisses(ts, top, r, lo, hi, i, all[b].smallest);
        RemainingMisses(ts, top, r, lo, hi, i, all[b].biggest);
      } else {
        assert all[a] == new'[a - |kept|] && all[b] == new'[b - |kept|];
      }
    }
    forall t | t in all
      ensures WellFormed(t)
    {
    }
  }

  lemma {:induction false} WithoutNone(ts: seq<Table>, ids: set<nat>)
    requires forall t :: t in ts ==> t.id !in ids
    ensures Without(ts, ids) == ts
  {
    if ts != [] {
      WithoutNone(ts[1..], ids);
      assert ts == [ts[0]] + ts[1..];
    }
  }

  lemma {:induction false} WithoutAll(ts: seq<Table>, ids: set<nat>)
    requires forall t :: t in ts ==> t.id in ids
    ensures Without(ts, ids) == []
  {
    if ts != [] {
      WithoutAll(ts[1..], ids);
    }
  }

  lemma {:induction false} WithoutConcat(a: seq<Table>, b: seq<Table>, ids: set<nat>)
    ensures Without(a + b, ids) == Without(a, ids) + Without(b, ids)
  {
    if a == [] {
      assert a + b == b;
    } else {
      WithoutConcat(a[1..], b, ids);
      assert (a + b)[1..] == a[1..] + b;
      Regroup(if a[0].id in ids then [] else [a[0]], Without(a[1..], ids), Without(b, ids));
    }
  }

  lemma LeftStays(ts: seq<Table>, a: seq<Table>, b: seq<Table>, c: seq<Table>)
    requires UniqueIds(ts) && ts == a + (b + c)
    ensures Without(a, Ids(b)) == a
  {
    forall i, j | 0 <= i < |a| && 0 <= j < |b|
      ensures a[i].id != b[j].id
    {
      assert ts[i] == a[i] && ts[|a| + j] == b[j];
    }
    WithoutNone(a, Ids(b));
  }

  lemma RightStays(ts: seq<Table>, a: seq<Table>, b: seq<Table>, c: seq<Table>)
    requires UniqueIds(ts) && ts == a + (b + c)
    ensures Without(c, Ids(b)) == c
  {
    forall i, j | 0 <= i < |c| && 0 <= j < |b|
      ensures c[i].id != b[j].id
    {
      assert ts[|a| + |b| + i] == c[i] && ts[|a| + j] == b[j];
    }
    WithoutNone(c, Ids(b));
  }

  lemma WithoutMiddle(ts: seq<Table>, a: seq<Table>, b: seq<Table>, c: seq<Table>)
    requires UniqueIds(ts) && ts == a + (b + c)
    ensures Without(ts, Ids(b)) == a + c
  {
    LeftStays(ts, a, b, c);
    RightStays(ts, a, b, c);
    WithoutAll(b, Ids(b));
    WithoutConcat(b, c, Ids(b));
    WithoutConcat(a, b + c, Ids(b));
    assert [] + c == c;
  }

  /** Removing a run of tables by their ids leaves what is on both sides. */
  lemma WithoutRun(ts: seq<Table>, lo: nat, hi: nat)
    requires UniqueIds(ts) && lo <= hi <= |ts|
    ensures Without(ts, Ids(ts[lo..hi])) == ts[..lo] + ts[hi..]
  {
    CutTwice(ts, lo, hi);
    WithoutMiddle(ts, ts[..lo], ts[lo..hi], ts[hi..]);
  }

  /** Replacing the tables that meet the plan's range by tables drawn from the compacted keys
      leaves the target level in order and free of overlaps. */
  lemma ReplaceKeepsDisjoint(level: nat, ts: seq<Table>, top: seq<Table>, r: KeyTsRange,
                             lo: nat, hi: nat, new': seq<Table>)
    requires level > 0 && Disjoint(ts) && UniqueIds(ts)
    requires lo <= hi && Overlapped(ts, r, lo, hi)
    requires forall t :: t in top ==> Within(t, r) && !r.inf
    requires NewTables(new', top, ts[lo..hi])
    ensures Disjoint(Arrange(level, Without(ts, Ids(ts[lo..hi])) + new'))
  {
    WithoutRun(ts, lo, hi);
    RemainingApart(ts, top, r, lo, hi, new');
    ArrangeMakesDisjoint(level, ts[..lo] + ts[hi..] + new');
  }
}
