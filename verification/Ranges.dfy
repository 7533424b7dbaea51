/** Tables as key intervals, and the `KeyTsRange` of src/level/compaction.rs. */
module Ranges {
  import opened Bytes
  import opened Keys

  /** What compaction needs to know of a table. */
  datatype Table = Table(id: nat, smallest: KeyTs, biggest: KeyTs, size: nat)

  const MAX_TS: TxnTs := U64_LIMIT - 1

  datatype KeyTsRange = KeyTsRange(left: KeyTs, right: KeyTs, inf: bool)

  function DefaultRange(): KeyTsRange {
    U64Positive();
    KeyTsRange(KeyTs([], 0), KeyTs([], 0), false)
  }

  function InfRange(): KeyTsRange {
    DefaultRange().(inf := true)
  }

  predicate Le(a: KeyTs, b: KeyTs) {
    !Lt(b, a)
  }

  predicate IsEmpty(r: KeyTsRange) {
    IsDefault(r.left) && IsDefault(r.right) && !r.inf
  }

  /** `KeyTsRange::is_overlaps_with`, with `r` as receiver. */
  predicate OverlapsWith(r: KeyTsRange, target: KeyTsRange) {
    if IsEmpty(r) then true
    else if IsEmpty(target) then false
    else if r.inf || target.inf then true
    else !(Lt(target.right, r.left) || Lt(r.right, target.left))
  }

  /** `KeyTsRange::extend` and `extend_borrow`. */
  function Extend(r: KeyTsRange, other: KeyTsRange): KeyTsRange {
    if IsEmpty(other) then r
    else if IsEmpty(r) then other
    else
      KeyTsRange(
        if IsDefault(r.left) || Lt(other.left, r.left) then other.left else r.left,
        if IsDefault(r.right) || Lt(r.right, other.right) then other.right else r.right,
        r.inf || other.inf)
  }

  /** `From<&Table>`: from the newest possible version of the first user key to the oldest of the last. */
  function RangeOf(t: Table): KeyTsRange {
    KeyTsRange(KeyTs(t.smallest.key, MAX_TS), KeyTs(t.biggest.key, 0), false)
  }

  /** A table holds at least one key, and no empty user key. */
  ghost predicate WellFormed(t: Table) {
    Le(t.smallest, t.biggest) && t.smallest.key != [] && t.biggest.key != []
  }

  ghost predicate AllWellFormed(ts: seq<Table>) {
    forall t :: t in ts ==> WellFormed(t)
  }

  ghost predicate Within(t: Table, r: KeyTsRange) {
    r.inf || (Le(r.left, t.smallest) && Le(t.biggest, r.right))
  }

  // ---------- order facts ----------

  lemma LeTransitive(a: KeyTs, b: KeyTs, c: KeyTs)
    requires Le(a, b) && Le(b, c)
    ensures Le(a, c)
    ensures Lt(a, b) || Lt(b, c) ==> Lt(a, c)
  {
    CompareKeyTsReverse(a, b);
    CompareKeyTsReverse(b, c);
    CompareKeyTsReverse(a, c);
    CompareKeyTsTransitive(a, b, c);
  }

  lemma LeTotal(a: KeyTs, b: KeyTs)
    ensures Le(a, b) || Lt(b, a)
    ensures Lt(a, b) ==> Le(a, b)
    ensures Le(a, b) && Le(b, a) ==> a == b
    ensures Le(a, a)
  {
    CompareKeyTsReverse(a, b);
    CompareKeyTsEqual(a, b);
    CompareKeyTsEqual(a, a);
  }

  /** The widened ends enclose every version of the table's first and last user key. */
  lemma RangeOfEncloses(t: Table, k: KeyTs)
    requires WellFormed(t) && Le(t.smallest, k) && Le(k, t.biggest)
    ensures Le(RangeOf(t).left, k) && Le(k, RangeOf(t).right)
    ensures !IsDefault(RangeOf(t).left) && !IsDefault(RangeOf(t).right) && !IsEmpty(RangeOf(t))
  {
    CompareEqual(t.smallest.key, t.smallest.key);
    CompareEqual(t.biggest.key, t.biggest.key);
    LeTransitive(RangeOf(t).left, t.smallest, k);
    LeTransitive(k, t.biggest, RangeOf(t).right);
  }

  /** Some user key lies between the bounds of both tables. */
  ghost predicate ShareUserKey(a: Table, b: Table) {
    exists k: Bytes ::
      && Compare(a.smallest.key, k) != Greater && Compare(k, a.biggest.key) != Greater
      && Compare(b.smallest.key, k) != Greater && Compare(k, b.biggest.key) != Greater
  }

  /** Two table ranges overlap exactly when some user key lies in both closed intervals. */
  lemma OverlapIsSharedUserKey(a: Table, b: Table)
    requires WellFormed(a) && WellFormed(b)
    ensures OverlapsWith(RangeOf(a), RangeOf(b)) <==> ShareUserKey(a, b)
  {
    UserKeysOrdered(a);
    UserKeysOrdered(b);
    RangeLt(a.biggest.key, b.smallest.key);
    RangeLt(b.biggest.key, a.smallest.key);
    CompareReverse(a.smallest.key, b.smallest.key);
    CompareReverse(a.biggest.key, b.smallest.key);
    CompareReverse(b.biggest.key, a.smallest.key);
    CompareEqual(a.smallest.key, a.smallest.key);
    CompareEqual(b.smallest.key, b.smallest.key);
    if OverlapsWith(RangeOf(a), RangeOf(b)) {
      // the larger of the two first keys is shared
      var k := if Compare(a.smallest.key, b.smallest.key) == Less then b.smallest.key else a.smallest.key;
      assert Compare(a.smallest.key, k) != Greater && Compare(b.smallest.key, k) != Greater;
      assert Compare(k, a.biggest.key) != Greater && Compare(k, b.biggest.key) != Greater;
    }
    forall k: Bytes |
      && Compare(a.smallest.key, k) != Greater && Compare(k, a.biggest.key) != Greater
      && Compare(b.smallest.key, k) != Greater && Compare(k, b.biggest.key) != Greater
      ensures OverlapsWith(RangeOf(a), RangeOf(b))
    {
      CompareTransitive(a.smallest.key, k, b.biggest.key);
      CompareTransitive(b.smallest.key, k, a.biggest.key);
    }
  }

  lemma UserKeysOrdered(t: Table)
    requires WellFormed(t)
    ensures Compare(t.smallest.key, t.biggest.key) != Greater
  {
    CompareKeyTsReverse(t.smallest, t.biggest);
  }

  /** The last version of one user key against the first version of another. */
  lemma RangeLt(a: Bytes, b: Bytes)
    ensures Lt(KeyTs(a, 0), KeyTs(b, MAX_TS)) <==> Compare(a, b) == Less
  {
    MaxPositive();
  }

  lemma MaxPositive()
    ensures MAX_TS > 0
  {
    assert Pow256(8) == 256 * Pow256(7);
  }

  // ---------- the range of several tables ----------

  /** The smallest range around the tables, widened at both ends. */
  ghost predicate IsHull(ts: seq<Table>, r: KeyTsRange) {
    && (ts == [] ==> r == DefaultRange())
    && (ts != [] ==>
          && !r.inf && r.left.ts == MAX_TS && r.right.ts == 0
          && (exists a :: a in ts && r.left.key == a.smallest.key && forall t :: t in ts ==> Le(a.smallest, t.smallest))
          && (exists b :: b in ts && r.right.key == b.biggest.key && forall t :: t in ts ==> Le(t.biggest, b.biggest)))
  }

  /** `From<&[Table]>`. */
  method RangeOfAll(ts: seq<Table>) returns (r: KeyTsRange)
    ensures IsHull(ts, r)
  {
    if |ts| == 0 {
      return DefaultRange();
    }
    var a, b := ts[0], ts[0];
    LeTotal(a.smallest, a.smallest);
    LeTotal(b.biggest, b.biggest);
    for i := 1 to |ts|
      invariant a in ts && b in ts
      invariant forall j :: 0 <= j < i ==> Le(a.smallest, ts[j].smallest) && Le(ts[j].biggest, b.biggest)
    {
      var t := ts[i];
      LeTotal(t.smallest, a.smallest);
      LeTotal(b.biggest, t.biggest);
      LeTotal(t.smallest, t.smallest);
      LeTotal(t.biggest, t.biggest);
      if Lt(t.smallest, a.smallest) {
        forall j | 0 <= j < i
          ensures Le(t.smallest, ts[j].smallest)
        {
          LeTransitive(t.smallest, a.smallest, ts[j].smallest);
        }
        a := t;
      }
      if Lt(b.biggest, t.biggest) {
        forall j | 0 <= j < i
          ensures Le(ts[j].biggest, t.biggest)
        {
          LeTransitive(ts[j].biggest, b.biggest, t.biggest);
        }
        b := t;
      }
    }
    r := KeyTsRange(KeyTs(a.smallest.key, MAX_TS), KeyTs(b.biggest.key, 0), false);
  }

  lemma WidestVersions(k: KeyTs)
    ensures Le(KeyTs(k.key, MAX_TS), k) && Le(k, KeyTs(k.key, 0))
  {
    CompareEqual(k.key, k.key);
  }

  /** The hull contains every table it was built from, and is never taken for an empty range. */
  lemma HullContains(ts: seq<Table>, r: KeyTsRange)
    requires AllWellFormed(ts) && ts != [] && IsHull(ts, r)
    ensures forall t :: t in ts ==> Within(t, r)
    ensures !IsDefault(r.left) && !IsDefault(r.right) && !IsEmpty(r) && Le(r.left, r.right)
  {
    var a :| a in ts && r.left.key == a.smallest.key && forall t :: t in ts ==> Le(a.smallest, t.smallest);
    var b :| b in ts && r.right.key == b.biggest.key && forall t :: t in ts ==> Le(t.biggest, b.biggest);
    WidestVersions(a.smallest);
    WidestVersions(b.biggest);
    forall t | t in ts
      ensures Within(t, r)
    {
      LeTransitive(r.left, a.smallest, t.smallest);
      LeTransitive(t.biggest, b.biggest, r.right);
    }
    LeTransitive(r.left, a.smallest, a.biggest);
    LeTransitive(r.left, a.biggest, r.right);
  }
}
