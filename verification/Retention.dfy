/** Which versions a compaction keeps (src/level/compact.rs, `TableBuilder::add_keys`), deciding each entry of the
    merged stream once, and what a reader then sees. */
module Retention {
  import opened Options
  import opened Bytes
  import opened Keys

  /** An entry with the `Meta` bits that matter here; `expiresAt` 0 means never. */
  datatype Entry = Entry(
    at: KeyTs,
    deleted: bool,
    discardEarlier: bool,
    merge: bool,
    expiresAt: nat,
    value: Bytes)

  /** `is_deleted_or_expired` at time `now`. */
  predicate Gone(e: Entry, now: nat) {
    e.deleted || (e.expiresAt != 0 && e.expiresAt <= now)
  }

  /** What stays fixed during one compaction. `clock` is the time at which each entry is examined. */
  datatype Setting = Setting(discardTs: nat, keepVersions: nat, hasOverlap: bool, clock: Entry -> nat)

  /** `AddKeyContext`, without statistics. */
  datatype Context = Context(skip: Option<Bytes>, last: Bytes, versions: nat)

  function Fresh(): Context {
    Context(None, [], 0)
  }

  /** `skip_key`, which is taken for unset when it is the default key. */
  function Skipping(at: KeyTs): Option<Bytes> {
    if IsDefault(at) then None else Some(at.key)
  }

  /** One entry: the new context and whether the entry is written out. */
  function Decide(c: Context, e: Entry, s: Setting): (Context, bool) {
    if c.skip == Some(e.at.key) then (c, false)
    else
      var versions := if e.at.key != c.last then 0 else c.versions;
      var c := Context(None, e.at.key, versions);
      if e.at.ts <= s.discardTs && !e.merge then
        var c := c.(versions := versions + 1);
        var gone := Gone(e, s.clock(e));
        var lastValid := e.discardEarlier || c.versions == s.keepVersions;
        if gone || lastValid then
          (c.(skip := Skipping(e.at)), !((gone || !lastValid) && !s.hasOverlap))
        else (c, true)
      else (c, true)
  }

  /** The entries written out for a merged stream. */
  function Retain(es: seq<Entry>, c: Context, s: Setting): seq<Entry> {
    if es == [] then []
    else
      var (c', keep) := Decide(c, es[0], s);
      (if keep then [es[0]] else []) + Retain(es[1..], c', s)
  }

  // ---------- what a reader sees ----------

  /** The newest version of `key` at or below `ts`; the first of equals. */
  function Newest(es: seq<Entry>, key: Bytes, ts: nat): Option<Entry> {
    if es == [] then None
    else
      var rest := Newest(es[1..], key, ts);
      if es[0].at.key == key && es[0].at.ts <= ts && (rest.None? || rest.value.at.ts <= es[0].at.ts)
      then Some(es[0]) else rest
  }

  function Visible(es: seq<Entry>, key: Bytes, ts: nat, now: nat): Option<Entry> {
    var e := Newest(es, key, ts);
    if e.None? || Gone(e.value, now) then None else e
  }

  ghost predicate IsNewest(es: seq<Entry>, key: Bytes, ts: nat, e: Entry) {
    && e in es && e.at.key == key && e.at.ts <= ts
    && (forall f :: f in es && f.at.key == key && f.at.ts <= ts ==> f.at.ts <= e.at.ts)
  }

  lemma {:induction false} NewestIsNewest(es: seq<Entry>, key: Bytes, ts: nat)
    ensures Newest(es, key, ts).Some? ==> IsNewest(es, key, ts, Newest(es, key, ts).value)
    ensures Newest(es, key, ts).None? ==> forall f :: f in es && f.at.key == key ==> f.at.ts > ts
  {
    if es != [] {
      NewestIsNewest(es[1..], key, ts);
      assert es == [es[0]] + es[1..];
    }
  }

  lemma {:induction false} NewestConcat(a: seq<Entry>, b: seq<Entry>, key: Bytes, ts: nat)
    ensures var x, y := Newest(a, key, ts), Newest(b, key, ts);
      Newest(a + b, key, ts) == if x.None? || (y.Some? && y.value.at.ts > x.value.at.ts) then y else x
  {
    if a == [] {
      assert a + b == b;
    } else {
      NewestConcat(a[1..], b, key, ts);
      assert (a + b)[1..] == a[1..] + b;
    }
  }

  // ---------- order of the stream ----------

  predicate KeyLe(a: Bytes, b: Bytes) {
    Compare(a, b) != Greater
  }

  ghost predicate Sorted(es: seq<Entry>) {
    forall i, j :: 0 <= i < j < |es| ==> Lt(es[i].at, es[j].at)
  }

  lemma LtParts(a: KeyTs, b: KeyTs)
    requires Lt(a, b)
    ensures KeyLe(a.key, b.key) && (a.key == b.key ==> a.ts > b.ts)
  {
    CompareEqual(a.key, b.key);
  }

  lemma KeyLeAntisymmetric(a: Bytes, b: Bytes)
    requires KeyLe(a, b) && KeyLe(b, a)
    ensures a == b
  {
    CompareReverse(a, b);
    CompareEqual(a, b);
  }

  /** The context belongs to the stream that follows it: no later key is before `last`, and only
      `last` can be skipped. */
  ghost predicate Follows(es: seq<Entry>, c: Context) {
    && Sorted(es)
    && (forall e :: e in es ==> KeyLe(c.last, e.at.key))
    && (c.skip.Some? ==> c.skip.value == c.last)
  }

  lemma FreshFollows(es: seq<Entry>)
    requires Sorted(es)
    ensures Follows(es, Fresh())
  {
  }

  lemma DecideFollows(es: seq<Entry>, c: Context, s: Setting)
    requires Follows(es, c) && es != []
    ensures Follows(es[1..], Decide(c, es[0], s).0)
    ensures Decide(c, es[0], s).0.last == es[0].at.key
  {
    forall e | e in es[1..]
      ensures KeyLe(es[0].at.key, e.at.key)
    {
      var i :| 0 <= i < |es[1..]| && es[1..][i] == e;
      assert es[i + 1] == e;
      LtParts(es[0].at, e.at);
    }
  }

  /** Entries after the first of a sorted stream: larger, and below it in time for the same key. */
  lemma AfterFirst(es: seq<Entry>, e: Entry)
    requires Sorted(es) && es != [] && e in es[1..]
    ensures KeyLe(es[0].at.key, e.at.key)
    ensures e.at.key == es[0].at.key ==> e.at.ts < es[0].at.ts
  {
    var i :| 0 <= i < |es[1..]| && es[1..][i] == e;
    assert es[i + 1] == e;
    LtParts(es[0].at, e.at);
  }

  // ---------- what is kept ----------

  lemma {:induction false} RetainSubset(es: seq<Entry>, c: Context, s: Setting, e: Entry)
    requires e in Retain(es, c, s)
    ensures e in es
  {
    var (c', keep) := Decide(c, es[0], s);
    if !(keep && e == es[0]) {
      RetainSubset(es[1..], c', s, e);
    }
  }

  /** While a key is skipped none of its entries is written. */
  lemma {:induction false} SkipDrops(es: seq<Entry>, c: Context, s: Setting, e: Entry)
    requires Follows(es, c) && c.skip.Some? && e in Retain(es, c, s)
    ensures e.at.key != c.skip.value
  {
    var k := c.skip.value;
    if es[0].at.key == k {
      DecideFollows(es, c, s);
      SkipDrops(es[1..], c, s, e);
    } else {
      RetainSubset(es, c, s, e);
      if e != es[0] {
        AfterFirst(es, e);
        if e.at.key == k {
          KeyLeAntisymmetric(k, es[0].at.key);
        }
      }
    }
  }

  /** The entry is dropped for its own sake, not because an earlier version was the last to keep. */
  predicate DroppedFloor(e: Entry, s: Setting) {
    e.at.ts <= s.discardTs && !e.merge && Gone(e, s.clock(e)) && !s.hasOverlap
  }

  /** `u` is the first entry of its key at or below the discard timestamp. */
  ghost predicate IsFloor(es: seq<Entry>, s: Setting, u: Entry) {
    IsNewest(es, u.at.key, s.discardTs, u)
  }

  /** Every version above the discard timestamp is kept, and so is the floor, unless it is a
      deleted or expired one that nothing below could need. */
  lemma {:induction false} Kept(es: seq<Entry>, c: Context, s: Setting, e: Entry)
    requires Follows(es, c) && e in es && c.skip != Some(e.at.key)
    requires e.at.ts > s.discardTs || (IsFloor(es, s, e) && !DroppedFloor(e, s))
    ensures e in Retain(es, c, s)
  {
    var (c', keep) := Decide(c, es[0], s);
    if e != es[0] {
      DecideFollows(es, c, s);
      AfterFirst(es, e);
      assert forall f :: f in es[1..] ==> f in es;
      assert c'.skip != Some(e.at.key) by {
        if es[0].at.key == e.at.key && es[0].at.ts <= s.discardTs {
          assert es[0] in es;
        }
      }
      Kept(es[1..], c', s, e);
    }
  }

  /** If the floor is dropped, every older version goes with it. */
  lemma {:induction false} FloorTakesOlder(es: seq<Entry>, c: Context, s: Setting, u: Entry, e: Entry)
    requires Follows(es, c) && IsFloor(es, s, u) && DroppedFloor(u, s)
    requires e in Retain(es, c, s) && e.at.key == u.at.key
    ensures e.at.ts > s.discardTs
  {
    var (c', keep) := Decide(c, es[0], s);
    DecideFollows(es, c, s);
    if es[0] == u {
      RetainSubset(es[1..], c', s, e);
      AfterFirst(es, e);
      if !IsDefault(u.at) {
        SkipDrops(es[1..], c', s, e);
      }
      assert false;
    } else {
      assert u in es[1..];
      AfterFirst(es, u);
      if !(keep && e == es[0]) {
        assert forall f :: f in es[1..] ==> f in es;
        FloorTakesOlder(es[1..], c', s, u, e);
      }
    }
  }

  lemma SameKeySameEntry(es: seq<Entry>, e: Entry, f: Entry)
    requires Sorted(es) && e in es && f in es && e.at == f.at
    ensures e == f
  {
    LtIsStrictTotalOrder();
    var i :| 0 <= i < |es| && es[i] == e;
    var j :| 0 <= j < |es| && es[j] == f;
    assert !Lt(e.at, f.at);
  }

  /** The newest version at or below any `ts` from the discard timestamp on survives, except a
      dropped floor, of which nothing survives. */
  lemma NewestRetained(es: seq<Entry>, s: Setting, key: Bytes, ts: nat)
    requires Sorted(es) && ts >= s.discardTs
    ensures var a, b := Newest(es, key, ts), Newest(Retain(es, Fresh(), s), key, ts);
      b == if a.Some? && DroppedFloor(a.value, s) then None else a
  {
    var out := Retain(es, Fresh(), s);
    FreshFollows(es);
    NewestIsNewest(es, key, ts);
    NewestIsNewest(out, key, ts);
    var a, b := Newest(es, key, ts), Newest(out, key, ts);
    if b.Some? {
      RetainSubset(es, Fresh(), s, b.value);
    }
    if a.Some? {
      var e := a.value;
      assert e.at.ts <= s.discardTs ==> IsFloor(es, s, e);
      if DroppedFloor(e, s) {
        if b.Some? {
          FloorTakesOlder(es, Fresh(), s, e, b.value);
        }
      } else {
        Kept(es, Fresh(), s, e);
        SameKeySameEntry(es, e, b.value);
      }
    }
  }

  // ---------- visibility ----------

  /** Compacting `es` changes nothing for readers from the discard timestamp on, when `rest` is
      everything else in the store. */
  ghost predicate Preserved(es: seq<Entry>, s: Setting, rest: seq<Entry>, now: nat) {
    forall key: Bytes, ts: nat :: ts >= s.discardTs ==>
      Visible(Retain(es, Fresh(), s) + rest, key, ts, now) == Visible(es + rest, key, ts, now)
  }

  /** A dropped deletion of `key` had been hiding a live, no newer version elsewhere. */
  ghost predicate Resurrects(es: seq<Entry>, s: Setting, rest: seq<Entry>, now: nat, key: Bytes) {
    var u, w := Newest(es, key, s.discardTs), Newest(rest, key, s.discardTs);
    && u.Some? && DroppedFloor(u.value, s)
    && w.Some? && w.value.at.ts <= u.value.at.ts && !Gone(w.value, now)
  }

  /** The reader's clock is not behind the compaction's. */
  ghost predicate ReadsLater(es: seq<Entry>, s: Setting, now: nat) {
    forall e :: e in es ==> s.clock(e) <= now
  }

  lemma PreservedAt(es: seq<Entry>, s: Setting, rest: seq<Entry>, now: nat, key: Bytes, ts: nat)
    requires Sorted(es) && ReadsLater(es, s, now) && ts >= s.discardTs
    requires !Resurrects(es, s, rest, now, key)
    ensures Visible(Retain(es, Fresh(), s) + rest, key, ts, now) == Visible(es + rest, key, ts, now)
  {
    var out := Retain(es, Fresh(), s);
    NewestConcat(es, rest, key, ts);
    NewestConcat(out, rest, key, ts);
    NewestRetained(es, s, key, ts);
    NewestIsNewest(es, key, ts);
    NewestIsNewest(rest, key, ts);
    var u, w := Newest(es, key, ts), Newest(rest, key, ts);
    if u.Some? && DroppedFloor(u.value, s) && w.Some? && w.value.at.ts <= u.value.at.ts {
      NewestBelow(es, key, ts, s.discardTs);
      NewestBelow(rest, key, ts, s.discardTs);
    }
  }

  /** Lowering the bound to one that still admits the newest version does not change it. */
  lemma {:induction false} NewestBelow(es: seq<Entry>, key: Bytes, hi: nat, lo: nat)
    requires lo <= hi && Newest(es, key, hi).Some? && Newest(es, key, hi).value.at.ts <= lo
    ensures Newest(es, key, lo) == Newest(es, key, hi)
  {
    NewestIsNewest(es, key, hi);
    NewestIsNewest(es[1..], key, hi);
    NewestIsNewest(es[1..], key, lo);
    assert es == [es[0]] + es[1..];
    if Newest(es[1..], key, hi).Some? {
      assert Newest(es[1..], key, hi).value in es;
      NewestBelow(es[1..], key, hi, lo);
    }
  }

  /** Exactly when a compaction is invisible: for any limit on versions, any flags and any other
      contents of the store, no dropped deletion may have been hiding a live version. */
  lemma PreservedIff(es: seq<Entry>, s: Setting, rest: seq<Entry>, now: nat)
    requires Sorted(es) && ReadsLater(es, s, now)
    ensures Preserved(es, s, rest, now) <==> forall key :: !Resurrects(es, s, rest, now, key)
  {
    if Preserved(es, s, rest, now) {
      forall key: Bytes
        ensures !Resurrects(es, s, rest, now, key)
      {
        var ts, out := s.discardTs, Retain(es, Fresh(), s);
        NewestConcat(es, rest, key, ts);
        NewestConcat(out, rest, key, ts);
        NewestRetained(es, s, key, ts);
        NewestIsNewest(es, key, ts);
        assert Visible(out + rest, key, ts, now) == Visible(es + rest, key, ts, now);
      }
    } else {
      var key: Bytes, ts: nat :| ts >= s.discardTs
        && Visible(Retain(es, Fresh(), s) + rest, key, ts, now) != Visible(es + rest, key, ts, now);
      if !Resurrects(es, s, rest, now, key) {
        PreservedAt(es, s, rest, now, key, ts);
      }
    }
  }

  /** The case the overlap check is for: with no overlap reported, no version at or below a
      compacted one lives outside the input. */
  lemma PreservedWithoutOlder(es: seq<Entry>, s: Setting, rest: seq<Entry>, now: nat)
    requires Sorted(es) && ReadsLater(es, s, now)
    requires !s.hasOverlap ==>
               forall e, f :: e in es && f in rest && e.at.key == f.at.key ==> e.at.ts < f.at.ts
    ensures Preserved(es, s, rest, now)
  {
    forall key: Bytes
      ensures !Resurrects(es, s, rest, now, key)
    {
      NewestIsNewest(es, key, s.discardTs);
      NewestIsNewest(rest, key, s.discardTs);
    }
    PreservedIff(es, s, rest, now);
  }

  /** It does fail where an older version sits in a table the check does not look at, such as a
      level-0 table left out of a level-0-to-level-0 plan: the deletion is dropped, the old
      value is back. */
  lemma DeletionUndone(value: Bytes, keepVersions: nat, now: nat)
    ensures var older := Entry(KeyTs([1], 1), false, false, false, 0, value);
      var deletion := Entry(KeyTs([1], 2), true, false, false, 0, []);
      var s := Setting(2, keepVersions, false, e => now);
      && Visible([deletion] + [older], [1], 2, now) == None
      && Visible(Retain([deletion], Fresh(), s) + [older], [1], 2, now) == Some(older)
  {
    var older := Entry(KeyTs([1], 1), false, false, false, 0, value);
    var deletion := Entry(KeyTs([1], 2), true, false, false, 0, []);
    var s := Setting(2, keepVersions, false, e => now);
    assert [deletion][1..] == [] && [older][1..] == [];
    assert Retain([deletion], Fresh(), s) == [];
    assert [] + [older] == [older];
    NewestConcat([deletion], [older], [1], 2);
  }
}
