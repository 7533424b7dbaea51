/** The level handler as an object (src/level/level_handler.rs, src/level/flush.rs:86-102) and the
    look at the levels below a compaction (src/level/compact.rs:288-298). */
module LevelHandlers {
  import opened Bytes
  import opened Keys
  import opened Ranges
  import opened Levels

  class LevelHandler {
    const level: nat
    var tables: seq<Table>
    var totalSize: nat

    /** `total_size` is the sum of the table sizes. */
    ghost predicate Valid()
      reads this
    {
      totalSize == Sum(tables)
    }

    constructor (level: nat)
      ensures Valid() && this.level == level && tables == []
    {
      this.level, tables, totalSize := level, [], 0;
    }

    /** `LevelHandlerTables::init`. */
    method Init(ts: seq<Table>)
      modifies this
      ensures Valid() && tables == Arrange(level, ts) && multiset(tables) == multiset(ts) && Ordered(level, tables)
    {
      tables := ts;
      var total := 0;
      for i := 0 to |tables|
        invariant tables == ts && total == Sum(tables[..i])
      {
        assert tables[..i + 1] == tables[..i] + [tables[i]];
        SumConcat(tables[..i], [tables[i]]);
        total := total + tables[i].size;
      }
      assert tables[..|tables|] == tables;
      totalSize := total;
      ArrangeIsPermutation(level, ts);
      ArrangeSorts(level, ts);
      tables := Arrange(level, tables);
    }

    /** `LevelHandler::replace`: the tables named in `remove` go, `add` comes in. */
    method Replace(remove: seq<Table>, add: seq<Table>)
      modifies this
      ensures Valid() && tables == Arrange(level, Without(old(tables), Ids(remove)) + add) && Ordered(level, tables)
      ensures multiset(tables) == multiset(Without(old(tables), Ids(remove))) + multiset(add)
    {
      var kept := [];
      for i := 0 to |tables|
        invariant tables == old(tables) && kept == Without(tables[..i], Ids(remove))
      {
        assert tables[..i + 1] == tables[..i] + [tables[i]];
        WithoutConcat(tables[..i], [tables[i]], Ids(remove));
        if tables[i].id !in Ids(remove) {
          kept := kept + [tables[i]];
        }
      }
      assert tables[..|tables|] == tables;
      Init(kept + add);
    }

    /** `LevelHandler::delete`. */
    method Delete(remove: seq<Table>)
      requires Valid()
      modifies this
      ensures Valid() && tables == Without(old(tables), Ids(remove))
    {
      var kept, removedSize := [], 0;
      for i := 0 to |tables|
        invariant tables == old(tables) && kept == Without(tables[..i], Ids(remove))
        invariant totalSize == old(totalSize)
        invariant Sum(kept) + removedSize == Sum(tables[..i])
      {
        assert tables[..i + 1] == tables[..i] + [tables[i]];
        WithoutConcat(tables[..i], [tables[i]], Ids(remove));
        SumConcat(tables[..i], [tables[i]]);
        SumConcat(kept, [tables[i]]);
        if tables[i].id in Ids(remove) {
          removedSize := removedSize + tables[i].size;
        } else {
          kept := kept + [tables[i]];
        }
      }
      assert tables[..|tables|] == tables;
      tables := kept;
      totalSize := totalSize - removedSize;
    }

    /** `push_level0`: refused while the level is at its stall limit. */
    method PushLevel0(t: Table, stall: nat) returns (pushed: bool)
      requires Valid()
      modifies this
      ensures Valid() && pushed == (|old(tables)| < stall)
      ensures tables == if pushed then old(tables) + [t] else old(tables)
    {
      if |tables| >= stall {
        return false;
      }
      SumConcat(tables, [t]);
      tables := tables + [t];
      totalSize := totalSize + t.size;
      return true;
    }

    /** `LevelHandler::validate`. */
    method Validate() returns (ok: bool)
      ensures ok <==> level == 0 || Chained(tables)
    {
      if level == 0 {
        return true;
      }
      var j := 1;
      while j < |tables|
        invariant 1 <= j
        invariant Chained(if j <= |tables| then tables[..j] else tables)
      {
        assert tables[..j + 1][..j] == tables[..j];
        if CompareKeyTs(tables[j - 1].biggest, tables[j].smallest) != Less {
          return false;
        }
        CompareKeyTsReverse(tables[j].smallest, tables[j].biggest);
        if CompareKeyTs(tables[j].smallest, tables[j].biggest) == Greater {
          return false;
        }
        j := j + 1;
      }
      assert tables[..|tables|] == tables;
      return true;
    }
  }

  /** What `validate` compares: neighbours, and the ends of every table but the first. */
  ghost predicate Chained(ts: seq<Table>) {
    forall i :: 1 <= i < |ts| ==> Lt(ts[i - 1].biggest, ts[i].smallest) && Le(ts[i].smallest, ts[i].biggest)
  }

  /** Comparing neighbours is enough: given a proper first table and non-empty keys, `validate`
      accepts exactly the disjoint levels. */
  lemma ChainedIsDisjoint(ts: seq<Table>)
    requires ts != [] ==> Le(ts[0].smallest, ts[0].biggest)
    requires forall t :: t in ts ==> t.smallest.key != [] && t.biggest.key != []
    ensures Chained(ts) <==> Disjoint(ts)
  {
    if Chained(ts) {
      forall i, j | 0 <= i < j < |ts|
        ensures Lt(ts[i].biggest, ts[j].smallest)
      {
        ChainReaches(ts, i, j);
      }
      forall t | t in ts
        ensures WellFormed(t)
      {
        var i :| 0 <= i < |ts| && ts[i] == t;
      }
    }
    if Disjoint(ts) {
      DisjointIsChained(ts);
    }
  }

  lemma DisjointIsChained(ts: seq<Table>)
    requires Disjoint(ts)
    ensures Chained(ts)
  {
    forall i | 1 <= i < |ts|
      ensures Lt(ts[i - 1].biggest, ts[i].smallest) && Le(ts[i].smallest, ts[i].biggest)
    {
      assert ts[i] in ts;
    }
  }

  lemma {:induction false} ChainReaches(ts: seq<Table>, i: nat, j: nat)
    requires Chained(ts) && i < j < |ts|
    ensures Lt(ts[i].biggest, ts[j].smallest)
    decreases j
  {
    if i < j - 1 {
      ChainReaches(ts, i, j - 1);
      LeTotal(ts[i].biggest, ts[j - 1].smallest);
      LeTotal(ts[j - 1].biggest, ts[j].smallest);
      LeTransitive(ts[i].biggest, ts[j - 1].smallest, ts[j - 1].biggest);
      LeTransitive(ts[i].biggest, ts[j - 1].biggest, ts[j].smallest);
    }
  }

  /** `t` meets the range around the compacted tables. */
  ghost predicate MeetsHull(t: Table, compacted: seq<Table>) {
    exists r :: IsHull(compacted, r) && Meets(t, r)
  }

  lemma HullUnique(ts: seq<Table>, r: KeyTsRange, s: KeyTsRange)
    requires IsHull(ts, r) && IsHull(ts, s)
    ensures r == s
  {
    if ts != [] {
      var a :| a in ts && r.left.key == a.smallest.key && forall t :: t in ts ==> Le(a.smallest, t.smallest);
      var b :| b in ts && r.right.key == b.biggest.key && forall t :: t in ts ==> Le(t.biggest, b.biggest);
      var c :| c in ts && s.left.key == c.smallest.key && forall t :: t in ts ==> Le(c.smallest, t.smallest);
      var d :| d in ts && s.right.key == d.biggest.key && forall t :: t in ts ==> Le(t.biggest, d.biggest);
      LeTotal(a.smallest, c.smallest);
      LeTotal(b.biggest, d.biggest);
    }
  }

  /** `check_overlap`: whether some table of the levels from `target` on meets the range of the
      compacted tables. */
  method CheckOverlap(levels: seq<seq<Table>>, compacted: seq<Table>, target: nat) returns (overlap: bool)
    requires target <= |levels| && compacted != [] && AllWellFormed(compacted)
    requires forall l :: target <= l < |levels| ==> Disjoint(levels[l])
    ensures overlap <==> exists l, t :: target <= l < |levels| && t in levels[l] && MeetsHull(t, compacted)
  {
    var r := RangeOfAll(compacted);
    HullContains(compacted, r);
    for l := target to |levels|
      invariant forall m, t :: target <= m < l && t in levels[m] ==> !Meets(t, r)
    {
      var lo, hi := OverlapTables(levels[l], r);
      if lo < hi {
        var t := levels[l][lo];
        assert t in levels[l] && Meets(t, r);
        assert MeetsHull(t, compacted);
        return true;
      }
    }
    forall l, t | target <= l < |levels| && t in levels[l]
      ensures !MeetsHull(t, compacted)
    {
      forall s | IsHull(compacted, s)
        ensures !Meets(t, s)
      {
        HullUnique(compacted, r, s);
      }
    }
    return false;
  }

  /** `k` has the user key of some key of `c`. */
  ghost predicate Shares(c: Table, k: KeyTs) {
    exists x :: Holds(c, x) && x.key == k.key
  }

  /** A key below that shares a user key with a compacted table is always reported. */
  lemma SharedIsReported(compacted: seq<Table>, c: Table, t: Table, k: KeyTs)
    requires AllWellFormed(compacted) && c in compacted && Holds(t, k) && Shares(c, k)
    requires exists r :: IsHull(compacted, r)
    ensures MeetsHull(t, compacted)
  {
    var r :| IsHull(compacted, r);
    SharedMeets(compacted, r, c, t, k);
  }

  lemma SharedMeets(compacted: seq<Table>, r: KeyTsRange, c: Table, t: Table, k: KeyTs)
    requires AllWellFormed(compacted) && IsHull(compacted, r) && c in compacted
    requires Holds(t, k) && Shares(c, k)
    ensures Meets(t, r)
  {
    var a :| a in compacted && r.left.key == a.smallest.key
      && forall t :: t in compacted ==> Le(a.smallest, t.smallest);
    var b :| b in compacted && r.right.key == b.biggest.key && forall t :: t in compacted ==> Le(t.biggest, b.biggest);
    var x :| Holds(c, x) && x.key == k.key;
    LeTransitive(a.smallest, c.smallest, x);
    LeTransitive(x, c.biggest, b.biggest);
    UserKeyLe(a.smallest, x);
    UserKeyLe(x, b.biggest);
    // the widened ends of the range enclose every version of x's user key
    WidenedLe(r.left, k);
    WidenedGe(k, r.right);
    LeTransitive(r.left, k, t.biggest);
    LeTransitive(t.smallest, k, r.right);
  }

  lemma UserKeyLe(a: KeyTs, b: KeyTs)
    requires Le(a, b)
    ensures Compare(a.key, b.key) != Greater
  {
    CompareKeyTsReverse(a, b);
  }

  lemma WidenedLe(a: KeyTs, b: KeyTs)
    requires a.ts == MAX_TS && Compare(a.key, b.key) != Greater
    ensures Le(a, b)
  {
    CompareKeyTsReverse(a, b);
    CompareEqual(a.key, b.key);
  }

  lemma WidenedGe(a: KeyTs, b: KeyTs)
    requires b.ts == 0 && Compare(a.key, b.key) != Greater
    ensures Le(a, b)
  {
    CompareKeyTsReverse(a, b);
    CompareEqual(a.key, b.key);
  }
}
