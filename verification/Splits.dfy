/** Splitting a compaction into key ranges (src/level/plan.rs:307-330) that separate tasks work
    on (src/level/compact.rs:232-242, 362). */
module Splits {
  import opened Bytes
  import opened Keys
  import opened Ranges
  import opened Levels
  import opened Plans
  import opened FillPlans

  /** The keys a task with range `r` writes: it seeks to the left end and stops at the right one. */
  predicate InSplit(r: KeyTsRange, k: KeyTs) {
    (IsDefault(r.left) || Le(r.left, k)) && (IsDefault(r.right) || Lt(k, r.right))
  }

  /** Ranges that follow one another without gap, the last one open to the right. */
  ghost predicate Contiguous(splits: seq<KeyTsRange>, left: KeyTs) {
    && splits != []
    && splits[0].left == left && !IsDefault(left)
    && IsDefault(splits[|splits| - 1].right)
    && (forall i :: 0 <= i < |splits| - 1 ==> Joined(splits[i], splits[i + 1]))
  }

  ghost predicate Joined(a: KeyTsRange, b: KeyTsRange) {
    b.left == a.right && !IsDefault(a.right) && Le(a.left, a.right)
  }

  /** No split boundary lies strictly inside the versions of a user key, version 0 aside. */
  ghost predicate CutsBetweenKeys(splits: seq<KeyTsRange>) {
    forall i :: 0 <= i < |splits| - 1 ==> splits[i].right.ts == 0
  }

  /** Splits made so far, with `cur` as the left end of the next one. */
  ghost predicate Partial(splits: seq<KeyTsRange>, left: KeyTs, cur: KeyTs) {
    && !IsDefault(left)
    && (splits == [] ==> cur == left)
    && (splits != [] ==> splits[0].left == left && EndsAt(splits[|splits| - 1], cur))
    && (forall i :: 0 <= i < |splits| - 1 ==> Joined(splits[i], splits[i + 1]))
    && (forall i :: 0 <= i < |splits| ==> splits[i].right.ts == 0)
  }

  ghost predicate EndsAt(r: KeyTsRange, k: KeyTs) {
    r.right == k && !IsDefault(k) && Le(r.left, k)
  }

  lemma PartialPush(splits: seq<KeyTsRange>, left: KeyTs, r: KeyTsRange)
    requires Partial(splits, left, r.left) && EndsAt(r, r.right) && r.right.ts == 0
    ensures Partial(splits + [r], left, r.right)
  {
  }

  lemma PartialClose(splits: seq<KeyTsRange>, left: KeyTs, r: KeyTsRange)
    requires Partial(splits, left, r.left) && IsDefault(r.right)
    ensures Contiguous(splits + [r], left) && CutsBetweenKeys(splits + [r])
  {
  }

  function Width(n: nat): nat {
    var w := (n + 4) / 5;
    if w < 3 then 3 else w
  }

  lemma Multiply(a: int, b: int, w: nat)
    requires a <= b
    ensures a * w <= b * w
  {
  }

  lemma AtMostFour(c: nat, w: nat, n: nat)
    requires c * w < n <= 5 * w
    ensures c <= 4
  {
    if c >= 5 {
      Multiply(5, c, w);
      assert false;
    }
  }

  lemma Remainder(q: nat, w: nat, r: nat)
    requires r < w
    ensures (q * w + r) % w == r
  {
    var v := q * w + r;
    var d := v / w - q;
    assert v == (v / w) * w + v % w;
    assert d * w == r - v % w;
    if d >= 1 {
      Multiply(1, d, w);
      assert false;
    } else if d <= -1 {
      Multiply(d, -1, w);
      assert false;
    }
  }

  lemma NextRemainder(i: nat, w: nat, c: nat)
    requires w > 0 && i == c * w + i % w
    ensures i % w == w - 1 ==> i + 1 == (c + 1) * w + (i + 1) % w
    ensures i % w < w - 1 ==> i + 1 == c * w + (i + 1) % w
  {
    if i % w == w - 1 {
      assert i + 1 == (c + 1) * w + 0;
      Remainder(c + 1, w, 0);
    } else {
      Remainder(c, w, i % w + 1);
    }
  }

  /** The widened range of a bottom table ends behind its left end and in key order. */
  lemma BoundariesOrdered(bottom: seq<Table>, i: nat, j: nat)
    requires Disjoint(bottom) && i < j < |bottom|
    ensures Le(KeyTs(bottom[i].biggest.key, 0), KeyTs(bottom[j].biggest.key, 0))
  {
    var a, b := bottom[i], bottom[j];
    assert b in bottom;
    LeTotal(a.biggest, b.smallest);
    LeTransitive(a.biggest, b.smallest, b.biggest);
    CompareKeyTsReverse(a.biggest, b.biggest);
    CompareKeyTsReverse(KeyTs(a.biggest.key, 0), KeyTs(b.biggest.key, 0));
    CompareEqual(a.biggest.key, b.biggest.key);
  }

  /** The least number of tables per split, but at least three, that makes no more than five splits of `n` tables. */
  ghost predicate IsWidth(w: nat, n: nat) {
    w >= 3 && 5 * w >= n && (w > 3 ==> 5 * (w - 1) < n)
  }

  /** Split `k` ends behind the oldest version of the last user key of the `k`-th group of `w` tables. */
  ghost predicate EndsGroup(splits: seq<KeyTsRange>, bottom: seq<Table>, w: nat, k: nat)
    requires k < |splits|
  {
    0 <= (k + 1) * w - 1 < |bottom| && splits[k].right == KeyTs(bottom[(k + 1) * w - 1].biggest.key, 0)
  }

  lemma GroupsKept(splits: seq<KeyTsRange>, r: KeyTsRange, bottom: seq<Table>, w: nat)
    requires forall k :: 0 <= k < |splits| ==> EndsGroup(splits, bottom, w, k)
    ensures forall k :: 0 <= k < |splits| ==> EndsGroup(splits + [r], bottom, w, k)
  {
    forall k | 0 <= k < |splits|
      ensures EndsGroup(splits + [r], bottom, w, k)
    {
      assert EndsGroup(splits, bottom, w, k) && (splits + [r])[k] == splits[k];
    }
  }

  /** `CompactPlan::add_splits`: a split for every group of tables, the last one open to the right. */
  method AddSplits(bottom: seq<Table>, thisRange: KeyTsRange, nextRange: KeyTsRange)
    returns (splits: seq<KeyTsRange>, ghost width: nat)
    requires Disjoint(bottom) && Proper(thisRange) && Proper(nextRange) && InsideRange(bottom, nextRange)
    ensures bottom == [] ==> splits == []
    ensures bottom != [] ==>
              && 1 <= |splits| <= 5
              && Contiguous(splits, Extend(thisRange, nextRange).left)
              && CutsBetweenKeys(splits)
    ensures bottom != [] ==>
              && IsWidth(width, |bottom|) && (|splits| - 1) * width < |bottom| <= |splits| * width
              && (forall k :: 0 <= k < |splits| - 1 ==> EndsGroup(splits, bottom, width, k))
  {
    splits := [];
    var w := Width(|bottom|);
    width := w;
    var skr := Extend(thisRange, nextRange);
    ghost var left := skr.left;
    if bottom == [] {
      return;
    }
    ExtendKeeps(thisRange, nextRange, bottom[0]);
    FirstBoundary(bottom[0], skr);
    for i := 0 to |bottom|
      invariant i < |bottom| && Splitting(splits, left, skr.left, bottom, w, i)
    {
      if i == |bottom| - 1 {
        skr := skr.(right := KeyTs([], 0));
        SplitLast(splits, left, skr, bottom, w, i);
        splits := splits + [skr];
        return;
      }
      SplitOn(splits, left, skr, bottom, w, i);
      if i % w == w - 1 {
        skr := skr.(right := KeyTs(bottom[i].biggest.key, 0));
        splits := splits + [skr];
        skr := skr.(left := skr.right);
      }
    }
  }

  /** In front of table `i`, with `cur` as the left end of the next split. */
  ghost predicate Splitting(splits: seq<KeyTsRange>, left: KeyTs, cur: KeyTs, bottom: seq<Table>, w: nat, i: nat) {
    && i < |bottom| && w > 0 && i == |splits| * w + i % w && Partial(splits, left, cur)
    && (forall k :: 0 <= k < |splits| ==> EndsGroup(splits, bottom, w, k))
    && Le(cur, KeyTs(bottom[i].biggest.key, 0))
  }

  lemma SplitOn(splits: seq<KeyTsRange>, left: KeyTs, skr: KeyTsRange, bottom: seq<Table>, w: nat, i: nat)
    requires Disjoint(bottom) && Splitting(splits, left, skr.left, bottom, w, i) && i + 1 < |bottom|
    ensures i % w != w - 1 ==> Splitting(splits, left, skr.left, bottom, w, i + 1)
    ensures i % w == w - 1 ==>
              var right := KeyTs(bottom[i].biggest.key, 0);
              Splitting(splits + [skr.(right := right)], left, right, bottom, w, i + 1)
  {
    assert bottom[i] in bottom;
    var right := KeyTs(bottom[i].biggest.key, 0);
    BoundariesOrdered(bottom, i, i + 1);
    LeTransitive(skr.left, right, KeyTs(bottom[i + 1].biggest.key, 0));
    NextRemainder(i, w, |splits|);
    if i % w == w - 1 {
      PartialPush(splits, left, skr.(right := right));
      GroupsKept(splits, skr.(right := right), bottom, w);
      assert (|splits| + 1) * w - 1 == i;
    }
  }

  lemma SplitLast(splits: seq<KeyTsRange>, left: KeyTs, skr: KeyTsRange, bottom: seq<Table>, w: nat, i: nat)
    requires Splitting(splits, left, skr.left, bottom, w, i) && i + 1 == |bottom| <= 5 * w && IsDefault(skr.right)
    ensures |splits + [skr]| <= 5 && Contiguous(splits + [skr], left) && CutsBetweenKeys(splits + [skr])
    ensures |splits| * w < |bottom| <= (|splits| + 1) * w
    ensures forall k :: 0 <= k < |splits| ==> EndsGroup(splits + [skr], bottom, w, k)
  {
    LastGroup(|splits|, w, i);
    AtMostFour(|splits|, w, |bottom|);
    PartialClose(splits, left, skr);
    GroupsKept(splits, skr, bottom, w);
  }

  lemma LastGroup(c: nat, w: nat, i: nat)
    requires w > 0 && i == c * w + i % w
    ensures c * w < i + 1 <= (c + 1) * w
  {
  }

  lemma FirstBoundary(t: Table, r: KeyTsRange)
    requires WellFormed(t) && Within(t, r) && !r.inf
    ensures Le(r.left, KeyTs(t.biggest.key, 0))
  {
    WidestVersions(t.biggest);
    LeTransitive(r.left, t.smallest, t.biggest);
    LeTransitive(r.left, t.biggest, KeyTs(t.biggest.key, 0));
  }

  // ---------- every key goes to exactly one task ----------

  lemma {:induction false} EndsBefore(splits: seq<KeyTsRange>, left: KeyTs, i: nat, j: nat)
    requires Contiguous(splits, left) && i < j < |splits|
    ensures Le(splits[i].right, splits[j].left)
    decreases j
  {
    assert Joined(splits[j - 1], splits[j]);
    LeTotal(splits[j].left, splits[j].left);
    if i < j - 1 {
      EndsBefore(splits, left, i, j - 1);
      LeTransitive(splits[i].right, splits[j - 1].left, splits[j].left);
    }
  }

  lemma {:induction false} Reaches(splits: seq<KeyTsRange>, left: KeyTs, k: KeyTs, from: nat) returns (i: nat)
    requires Contiguous(splits, left) && from < |splits| && Le(splits[from].left, k)
    ensures i < |splits| && InSplit(splits[i], k)
    decreases |splits| - from
  {
    if from == |splits| - 1 || Lt(k, splits[from].right) {
      i := from;
    } else {
      assert Joined(splits[from], splits[from + 1]);
      i := Reaches(splits, left, k, from + 1);
    }
  }

  /** Each key from the left end on belongs to one split and to no other. */
  lemma CoveredOnce(splits: seq<KeyTsRange>, left: KeyTs, k: KeyTs) returns (i: nat)
    requires Contiguous(splits, left) && Le(left, k)
    ensures i < |splits| && InSplit(splits[i], k)
    ensures forall j :: 0 <= j < |splits| && InSplit(splits[j], k) ==> j == i
  {
    i := Reaches(splits, left, k, 0);
    forall j | 0 <= j < |splits| && j != i
      ensures !InSplit(splits[j], k)
    {
      var a, b := if i < j then i else j, if i < j then j else i;
      EndsBefore(splits, left, a, b);
      assert Joined(splits[a], splits[a + 1]);
      assert Joined(splits[b - 1], splits[b]);
      if InSplit(splits[a], k) && InSplit(splits[b], k) {
        LeTransitive(splits[a].right, splits[b].left, k);
        assert false;
      }
    }
  }

  /** Versions from 1 on of one user key go to the same split. */
  lemma VersionsTogether(splits: seq<KeyTsRange>, left: KeyTs, a: KeyTs, b: KeyTs, i: nat)
    requires Contiguous(splits, left) && CutsBetweenKeys(splits) && left.ts == MAX_TS
    requires a.key == b.key && a.ts > 0 && b.ts > 0 && Le(left, a)
    requires i < |splits| && InSplit(splits[i], a)
    ensures InSplit(splits[i], b)
  {
    CompareEqual(a.key, a.key);
    if i == 0 {
      SameSideOfStart(left, a, b);
    } else {
      assert Joined(splits[i - 1], splits[i]);
      SameSideOfCut(splits[i].left, a, b);
    }
    if i < |splits| - 1 {
      SameSideOfCut(splits[i].right, a, b);
    }
  }

  lemma SameSideOfCut(cut: KeyTs, a: KeyTs, b: KeyTs)
    requires cut.ts == 0 && a.key == b.key && a.ts > 0 && b.ts > 0
    ensures Lt(a, cut) <==> Lt(b, cut)
    ensures Le(cut, a) <==> Le(cut, b)
  {
  }

  lemma SameSideOfStart(left: KeyTs, a: KeyTs, b: KeyTs)
    requires left.ts == MAX_TS && a.key == b.key
    ensures Le(left, a) ==> Le(left, b)
  {
    CompareKeyTsReverse(left, a);
    CompareKeyTsReverse(left, b);
  }
}
