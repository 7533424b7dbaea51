/** One compaction task (src/level/compact.rs, `sub_compact` and `add_keys`): the part of the merged stream that lies
    in its key range is written into one table after another. */
module Compact {
  import opened Options
  import opened Bytes
  import opened Keys
  import opened Ranges
  import opened Retention
  import opened Seqs
  import opened Splits

  ghost predicate KeyLess(a: Bytes, b: Bytes) {
    KeyLe(a, b) && a != b
  }

  lemma KeyLeLess(a: Bytes, b: Bytes, c: Bytes)
    requires (KeyLe(a, b) && KeyLess(b, c)) || (KeyLess(a, b) && KeyLe(b, c))
    ensures KeyLess(a, c)
  {
    CompareTransitive(a, b, c);
    if a == c {
      KeyLeAntisymmetric(a, b);
    }
  }

  // ---------- cutting a stream between user keys ----------

  /** The user key changes at `pos`. */
  ghost predicate Boundary(es: seq<Entry>, pos: nat) {
    0 < pos < |es| ==> es[pos - 1].at.key != es[pos].at.key
  }

  lemma SortedKeys(es: seq<Entry>, i: nat, j: nat)
    requires Sorted(es) && i <= j < |es|
    ensures KeyLe(es[i].at.key, es[j].at.key)
  {
    CompareEqual(es[i].at.key, es[i].at.key);
    if i < j {
      LtParts(es[i].at, es[j].at);
    }
  }

  /** What comes before a boundary has smaller user keys than what comes after it. */
  lemma Separated(es: seq<Entry>, pos: nat, i: nat, j: nat)
    requires Sorted(es) && Boundary(es, pos) && i < pos <= j < |es|
    ensures KeyLess(es[i].at.key, es[j].at.key)
  {
    SortedKeys(es, i, pos - 1);
    SortedKeys(es, pos - 1, pos);
    SortedKeys(es, pos, j);
    KeyLeLess(es[i].at.key, es[pos - 1].at.key, es[pos].at.key);
    KeyLeLess(es[i].at.key, es[pos].at.key, es[j].at.key);
  }

  /** A context that says nothing about `key`. */
  ghost predicate Unconcerned(c: Context, key: Bytes) {
    c.skip != Some(key) && (key != c.last || c.versions == 0)
  }

  /** Such a context is as good as a fresh one. */
  lemma RetainFrom(es: seq<Entry>, c: Context, s: Setting)
    requires es != [] ==> Unconcerned(c, es[0].at.key)
    ensures Retain(es, c, s) == Retain(es, Fresh(), s)
  {
    if es != [] {
      assert Decide(c, es[0], s) == Decide(Fresh(), es[0], s);
    }
  }

  /** Streams cut between user keys can be retained one by one. */
  lemma {:induction false} RetainCut(a: seq<Entry>, b: seq<Entry>, c: Context, s: Setting)
    requires c.skip.Some? ==> c.skip.value == c.last
    requires b != [] ==> if a == [] then Unconcerned(c, b[0].at.key) else a[|a| - 1].at.key != b[0].at.key
    ensures Retain(a + b, c, s) == Retain(a, c, s) + Retain(b, Fresh(), s)
  {
    if a == [] {
      assert a + b == b;
      RetainFrom(b, c, s);
    } else {
      var (c', keep) := Decide(c, a[0], s);
      assert (a + b)[0] == a[0] && (a + b)[1..] == a[1..] + b;
      assert c'.last == a[0].at.key && (c'.skip.Some? ==> c'.skip.value == c'.last);
      RetainCut(a[1..], b, c', s);
      Regroup(if keep then [a[0]] else [], Retain(a[1..], c', s), Retain(b, Fresh(), s));
    }
  }

  // ---------- the part of a stream that lies in a range ----------

  function Part(es: seq<Entry>, r: KeyTsRange): seq<Entry> {
    if es == [] then [] else (if InSplit(r, es[0].at) then [es[0]] else []) + Part(es[1..], r)
  }

  lemma {:induction false} InPart(es: seq<Entry>, r: KeyTsRange, e: Entry)
    ensures e in Part(es, r) <==> e in es && InSplit(r, e.at)
  {
    if es != [] {
      InPart(es[1..], r, e);
      assert e in es <==> e == es[0] || e in es[1..];
    }
  }

  /** `lo..hi` are the entries in the range. */
  ghost predicate Spans(es: seq<Entry>, r: KeyTsRange, lo: nat, hi: nat) {
    && lo <= hi <= |es|
    && (forall i :: 0 <= i < |es| ==> (lo <= i < hi <==> InSplit(r, es[i].at)))
  }

  lemma {:induction false} PartIsSlice(es: seq<Entry>, r: KeyTsRange, lo: nat, hi: nat)
    requires Spans(es, r, lo, hi)
    ensures Part(es, r) == es[lo..hi]
  {
    if es != [] {
      var rest := es[1..];
      var lo', hi' := if lo == 0 then 0 else lo - 1, if hi == 0 then 0 else hi - 1;
      forall i | 0 <= i < |rest|
        ensures lo' <= i < hi' <==> InSplit(r, rest[i].at)
      {
        assert rest[i] == es[i + 1];
      }
      PartIsSlice(rest, r, lo', hi');
      SliceOfRest(es, lo, hi);
      assert InSplit(r, es[0].at) <==> lo == 0 < hi;
    }
  }

  lemma SliceOfRest(es: seq<Entry>, lo: nat, hi: nat)
    requires es != [] && lo <= hi <= |es|
    ensures lo == 0 < hi ==> es[lo..hi] == [es[0]] + es[1..][..hi - 1]
    ensures lo == hi == 0 ==> es[lo..hi] == [] + es[1..][..0]
    ensures 0 < lo ==> es[lo..hi] == [] + es[1..][lo - 1..hi - 1]
  {
  }

  // ---------- filling one table ----------

  /** `iter.key().ge(key_range.right())`. */
  predicate Past(e: Entry, right: KeyTs) {
    !IsDefault(right) && Le(right, e.at)
  }

  /** The entries before `hi` are those in front of the right end. */
  ghost predicate StopsAt(es: seq<Entry>, right: KeyTs, hi: nat) {
    hi <= |es| && (forall i :: 0 <= i < |es| ==> (i < hi <==> !Past(es[i], right)))
  }

  /** Having written `out`, what the rest of the stream adds to it makes `goal`. */
  ghost predicate Towards(es: seq<Entry>, pos: nat, c: Context, s: Setting, out: seq<Entry>, goal: seq<Entry>) {
    && pos <= |es| && out + Retain(es[pos..], c, s) == goal
    && (c.skip.Some? ==> c.skip.value == c.last)
  }

  lemma TowardsStep(es: seq<Entry>, pos: nat, c: Context, s: Setting, out: seq<Entry>, goal: seq<Entry>)
    requires pos < |es| && Towards(es, pos, c, s, out, goal)
    ensures var d := Decide(c, es[pos], s);
      && Towards(es, pos + 1, d.0, s, if d.1 then out + [es[pos]] else out, goal)
      && d.0.last == es[pos].at.key
  {
    assert es[pos..][1..] == es[pos + 1..] && es[pos..][0] == es[pos];
    var d := Decide(c, es[pos], s);
    Regroup(out, if d.1 then [es[pos]] else [], Retain(es[pos + 1..], d.0, s));
    assert out + [] == out;
  }

  /** Between two tables the context may be replaced by one that says as little about the next user key. */
  lemma TowardsNew(es: seq<Entry>, pos: nat, c: Context, c': Context, s: Setting, out: seq<Entry>, goal: seq<Entry>)
    requires pos < |es| && Towards(es, pos, c, s, out, goal) && (c'.skip.Some? ==> c'.skip.value == c'.last)
    requires Unconcerned(c, es[pos].at.key) && Unconcerned(c', es[pos].at.key)
    ensures Towards(es, pos, c', s, out, goal)
  {
    assert es[pos..][0] == es[pos];
    RetainFrom(es[pos..], c, s);
    RetainFrom(es[pos..], c', s);
  }

  /** The entries of `out` are among those from `lo` to `hi`. */
  ghost predicate Among(out: seq<Entry>, es: seq<Entry>, lo: nat, hi: nat) {
    forall e :: e in out ==> exists i :: lo <= i < hi <= |es| && es[i] == e
  }

  lemma AmongGrows(out: seq<Entry>, es: seq<Entry>, lo: nat, pos: nat)
    requires lo <= pos < |es| && Among(out, es, lo, pos)
    ensures Among(out, es, lo, pos + 1) && Among(out + [es[pos]], es, lo, pos + 1)
  {
  }

  const CHECK_EVERY: nat := 5000

  /** One table being filled from `start` on: what is in it, and what the rest of the range will add. */
  ghost predicate Filling(es: seq<Entry>, hi: nat, start: nat, pos: nat, c: Context, s: Setting,
                          out: seq<Entry>, goal: seq<Entry>) {
    && start <= pos <= hi <= |es| && Towards(es[..hi], pos, c, s, out, goal) && Among(out, es, start, pos)
    && (pos > start ==> c.last == es[pos - 1].at.key) && (pos == start ==> out == [])
  }

  lemma FillingStep(es: seq<Entry>, hi: nat, start: nat, pos: nat, c: Context, s: Setting,
                    out: seq<Entry>, goal: seq<Entry>)
    requires Filling(es, hi, start, pos, c, s, out, goal) && pos < hi
    ensures var d := Decide(c, es[pos], s);
      Filling(es, hi, start, pos + 1, d.0, s, if d.1 then out + [es[pos]] else out, goal)
  {
    assert es[..hi][pos] == es[pos];
    TowardsStep(es[..hi], pos, c, s, out, goal);
    AmongGrows(out, es, start, pos);
  }

  /** The range ends at a new user key, where it is noticed. */
  lemma FillingInRange(es: seq<Entry>, hi: nat, start: nat, pos: nat, c: Context, s: Setting, right: KeyTs,
                       out: seq<Entry>, goal: seq<Entry>)
    requires Filling(es, hi, start, pos, c, s, out, goal) && pos < |es|
    requires start < hi && StopsAt(es, right, hi) && Boundary(es, hi)
    ensures pos < hi <==> !(IsNewKey(c, es[pos]) && Past(es[pos], right))
  {
  }

  lemma FillingCut(es: seq<Entry>, hi: nat, start: nat, pos: nat, c: Context, s: Setting,
                   out: seq<Entry>, goal: seq<Entry>)
    requires Filling(es, hi, start, pos, c, s, out, goal) && start < pos
    requires pos == |es| || IsNewKey(c, es[pos])
    ensures Towards(es[..hi], pos, c, s, out, goal) && Among(out, es, start, pos) && Boundary(es, pos) && pos <= hi
  {
  }

  /** The context after the table ended in front of a new user key. */
  lemma FillingEnds(es: seq<Entry>, hi: nat, start: nat, pos: nat, c: Context, s: Setting,
                    out: seq<Entry>, goal: seq<Entry>)
    requires Filling(es, hi, start, pos, c, s, out, goal) && start < pos < hi && IsNewKey(c, es[pos])
    ensures Towards(es[..hi], pos, Context(None, es[pos].at.key, 0), s, out, goal)
    ensures Among(out, es, start, pos) && Boundary(es, pos)
  {
    assert es[..hi][pos] == es[pos];
    TowardsNew(es[..hi], pos, c, Context(None, es[pos].at.key, 0), s, out, goal);
  }

  /** A table without entries is not full. */
  ghost predicate HasRoom(full: (nat, nat) -> bool, es: seq<Entry>) {
    forall i :: 0 <= i < |es| ==> !full(i, 0)
  }

  /** The entry is not skipped and is the first of its user key. */
  predicate IsNewKey(c: Context, e: Entry) {
    c.skip != Some(e.at.key) && e.at.key != c.last
  }

  // ---------- where a table ends ----------

  /** The context after a stream. */
  function ContextAfter(es: seq<Entry>, c: Context, s: Setting): Context {
    if es == [] then c else ContextAfter(es[1..], Decide(c, es[0], s).0, s)
  }

  lemma {:induction false} RetainSnoc(es: seq<Entry>, e: Entry, c: Context, s: Setting)
    ensures var d := Decide(ContextAfter(es, c, s), e, s);
      && ContextAfter(es + [e], c, s) == d.0
      && Retain(es + [e], c, s) == Retain(es, c, s) + if d.1 then [e] else []
  {
    if es == [] {
      assert [] + [e] == [e] && [e][1..] == [];
    } else {
      assert (es + [e])[0] == es[0] && (es + [e])[1..] == es[1..] + [e];
      RetainSnoc(es[1..], e, Decide(c, es[0], s).0, s);
    }
  }

  /** A user key begins at `q`, for a table begun at `start` behind the key `last`. */
  predicate Begins(es: seq<Entry>, start: nat, q: nat, last: Bytes)
    requires start <= q < |es|
  {
    es[q].at.key != if q == start then last else es[q - 1].at.key
  }

  /** How many user keys begin from `start` to before `q`. */
  function Begun(es: seq<Entry>, start: nat, q: nat, last: Bytes): nat
    requires start <= q <= |es|
  {
    if q == start then 0 else Begun(es, start, q - 1, last) + if Begins(es, start, q - 1, last) then 1 else 0
  }

  /** A table begun at `start` must end at `q`: a user key begins there, and the table is full with what was retained so
      far, or this is a multiple of 5000 user keys and there is too much overlap. */
  ghost predicate MustEnd(es: seq<Entry>, start: nat, q: nat, c0: Context, s: Setting,
                          full: (nat, nat) -> bool, crowded: nat -> bool)
    requires start <= q < |es|
  {
    && Begins(es, start, q, c0.last)
    && (|| full(q, |Retain(es[start..q], c0, s)|)
        || ((Begun(es, start, q, c0.last) + 1) % 5000 == 0 && crowded(q)))
  }

  /** What the loop has done up to `pos`. */
  ghost predicate Filled(es: seq<Entry>, start: nat, pos: nat, c0: Context, c: Context, s: Setting,
                         out: seq<Entry>, newKeys: nat, full: (nat, nat) -> bool, crowded: nat -> bool) {
    && start <= pos <= |es| && c == ContextAfter(es[start..pos], c0, s) && out == Retain(es[start..pos], c0, s)
    && newKeys == Begun(es, start, pos, c0.last)
    && (forall q :: start <= q < pos ==> !MustEnd(es, start, q, c0, s, full, crowded))
  }

  lemma FilledStep(es: seq<Entry>, start: nat, pos: nat, c0: Context, c: Context, s: Setting,
                   out: seq<Entry>, newKeys: nat, full: (nat, nat) -> bool, crowded: nat -> bool)
    requires Filled(es, start, pos, c0, c, s, out, newKeys, full, crowded) && pos < |es|
    requires !MustEnd(es, start, pos, c0, s, full, crowded)
    ensures var d := Decide(c, es[pos], s);
      Filled(es, start, pos + 1, c0, d.0, s, if d.1 then out + [es[pos]] else out,
             newKeys + if Begins(es, start, pos, c0.last) then 1 else 0, full, crowded)
  {
    assert es[start..pos + 1] == es[start..pos] + [es[pos]];
    RetainSnoc(es[start..pos], es[pos], c0, s);
    assert out + [] == out;
  }

  /** The loop takes an entry for the first of its user key exactly where a user key begins. */
  lemma NewKeyBegins(es: seq<Entry>, hi: nat, start: nat, pos: nat, c0: Context, c: Context, s: Setting,
                     out: seq<Entry>, goal: seq<Entry>)
    requires Filling(es, hi, start, pos, c, s, out, goal) && pos < |es| && (pos == start ==> c == c0)
    ensures IsNewKey(c, es[pos]) <==> Begins(es, start, pos, c0.last)
  {
  }

  /** One round of the loop: the table ends in front of the entry at `pos`, or takes its decision on it. */
  method AddKey(es: seq<Entry>, start: nat, pos: nat, ghost c0: Context, c: Context, s: Setting, right: KeyTs,
                full: (nat, nat) -> bool, crowded: nat -> bool, out: seq<Entry>, newKeys: nat,
                ghost hi: nat, ghost goal: seq<Entry>)
    returns (ends: bool, c': Context, out': seq<Entry>, newKeys': nat)
    requires start < hi && StopsAt(es, right, hi) && Boundary(es, hi) && !full(start, 0) && pos < |es|
    requires Filling(es, hi, start, pos, c, s, out, goal)
    requires Filled(es, start, pos, c0, c, s, out, newKeys, full, crowded)
    ensures ends ==> start < pos <= hi && Towards(es[..hi], pos, c', s, out', goal) && out' == out
    ensures ends ==> Among(out', es, start, pos) && Boundary(es, pos)
    ensures ends ==> pos == hi || MustEnd(es, start, pos, c0, s, full, crowded)
    ensures !ends ==> pos < hi && Filling(es, hi, start, pos + 1, c', s, out', goal)
    ensures !ends ==> Filled(es, start, pos + 1, c0, c', s, out', newKeys', full, crowded)
  {
    newKeys' := newKeys;
    FillingInRange(es, hi, start, pos, c, s, right, out, goal);
    StartContext(es, start, pos, c0, c, s, out, newKeys, full, crowded);
    NewKeyBegins(es, hi, start, pos, c0, c, s, out, goal);
    if IsNewKey(c, es[pos]) {
      if Past(es[pos], right) || full(pos, |out|) {
        FillingCut(es, hi, start, pos, c, s, out, goal);
        return true, c, out, newKeys;
      }
      newKeys' := newKeys + 1;
      if newKeys' % CHECK_EVERY == 0 && crowded(pos) {
        FillingEnds(es, hi, start, pos, c, s, out, goal);
        return true, Context(None, es[pos].at.key, 0), out, newKeys';
      }
    }
    FillingStep(es, hi, start, pos, c, s, out, goal);
    FilledStep(es, start, pos, c0, c, s, out, newKeys, full, crowded);
    var d := Decide(c, es[pos], s);
    return false, d.0, if d.1 then out + [es[pos]] else out, newKeys';
  }

  lemma StartContext(es: seq<Entry>, start: nat, pos: nat, c0: Context, c: Context, s: Setting,
                     out: seq<Entry>, newKeys: nat, full: (nat, nat) -> bool, crowded: nat -> bool)
    requires Filled(es, start, pos, c0, c, s, out, newKeys, full, crowded)
    ensures pos == start ==> c == c0 && newKeys == 0
  {
    assert es[start..start] == [];
  }

  /** `add_keys`: fills one table from `start` on. It stops at the end of the range, when the table has reached its
      capacity (`full`, by where it is in the stream and how many entries it has), or, at every 5000th user key, when
      it overlaps too much of the level after next (`crowded`); always in front of a new user key, and at the first
      place where it must. The iterator is advanced after every entry (module AddKeysLoop is about the loop as it stands
      in the source). `hi` is where the range ends. */
  method AddKeys(es: seq<Entry>, start: nat, c0: Context, s: Setting, right: KeyTs, full: (nat, nat) -> bool,
                 crowded: nat -> bool, ghost hi: nat, ghost goal: seq<Entry>)
    returns (pos: nat, c: Context, out: seq<Entry>)
    requires start < hi && StopsAt(es, right, hi) && Boundary(es, hi) && !full(start, 0)
    requires Towards(es[..hi], start, c0, s, [], goal)
    ensures start < pos <= hi && Towards(es[..hi], pos, c, s, out, goal)
    ensures Among(out, es, start, pos) && Boundary(es, pos) && out == Retain(es[start..pos], c0, s)
    ensures pos == hi || MustEnd(es, start, pos, c0, s, full, crowded)
    ensures forall q :: start <= q < pos ==> !MustEnd(es, start, q, c0, s, full, crowded)
  {
    var newKeys: nat, ends := 0, false;
    pos, c, out := start, c0, [];
    assert es[start..start] == [];
    while pos < |es|
      invariant start <= pos <= |es| && Filling(es, hi, start, pos, c, s, out, goal)
      invariant Filled(es, start, pos, c0, c, s, out, newKeys, full, crowded)
    {
      ends, c, out, newKeys := AddKey(es, start, pos, c0, c, s, right, full, crowded, out, newKeys, hi, goal);
      if ends {
        return;
      }
      pos := pos + 1;
    }
    FillingCut(es, hi, start, pos, c, s, out, goal);
  }

  // ---------- table after table ----------

  /** Every pair of entries in different tables has different user keys, in table order. */
  ghost predicate KeysApart(tables: seq<seq<Entry>>) {
    forall a, b, e, f :: 0 <= a < b < |tables| && e in tables[a] && f in tables[b] ==>
      KeyLess(e.at.key, f.at.key)
  }

  ghost predicate AllAmong(tables: seq<seq<Entry>>, es: seq<Entry>, lo: nat, hi: nat) {
    forall a :: 0 <= a < |tables| ==> Among(tables[a], es, lo, hi) && tables[a] != []
  }

  lemma TablesGrow(tables: seq<seq<Entry>>, out: seq<Entry>, es: seq<Entry>, lo: nat, mid: nat, pos: nat)
    requires Sorted(es) && KeysApart(tables) && AllAmong(tables, es, lo, mid) && Boundary(es, mid)
    requires lo <= mid <= pos <= |es| && Among(out, es, mid, pos)
    ensures KeysApart(tables + [out])
  {
    forall a, e, f | 0 <= a < |tables| && e in tables[a] && f in out
      ensures KeyLess(e.at.key, f.at.key)
    {
      assert Among(tables[a], es, lo, mid);
      var i :| lo <= i < mid <= |es| && es[i] == e;
      var j :| mid <= j < pos <= |es| && es[j] == f;
      Separated(es, mid, i, j);
    }
  }

  lemma AmongWider(out: seq<Entry>, es: seq<Entry>, lo: nat, hi: nat, lo': nat, hi': nat)
    requires Among(out, es, lo, hi) && lo' <= lo && hi <= hi' <= |es|
    ensures Among(out, es, lo', hi')
  {
  }

  lemma AllAmongGrows(tables: seq<seq<Entry>>, out: seq<Entry>, es: seq<Entry>, lo: nat, mid: nat, pos: nat)
    requires AllAmong(tables, es, lo, mid) && lo <= mid <= pos <= |es| && Among(out, es, mid, pos)
    ensures AllAmong(tables, es, lo, pos) && (out != [] ==> AllAmong(tables + [out], es, lo, pos))
  {
    forall a | 0 <= a < |tables|
      ensures Among(tables[a], es, lo, pos)
    {
      AmongWider(tables[a], es, lo, mid, lo, pos);
    }
    AmongWider(out, es, mid, pos, lo, pos);
  }

  /** The state between two tables. */
  ghost predicate Cutting(es: seq<Entry>, lo: nat, hi: nat, pos: nat, c: Context, s: Setting,
                          tables: seq<seq<Entry>>, goal: seq<Entry>) {
    && lo <= pos <= hi <= |es| && Towards(es[..hi], pos, c, s, Flatten(tables), goal)
    && KeysApart(tables) && AllAmong(tables, es, lo, pos)
    && (pos == lo ==> tables == []) && (pos > lo ==> Boundary(es, pos))
  }

  /** A finished table is appended to the earlier ones. */
  lemma Resume(es: seq<Entry>, pos: nat, c: Context, s: Setting,
               tables: seq<seq<Entry>>, out: seq<Entry>, rest: seq<Entry>, goal: seq<Entry>)
    requires Towards(es, pos, c, s, out, rest) && Flatten(tables) + rest == goal
    ensures Towards(es, pos, c, s, Flatten(if out == [] then tables else tables + [out]), goal)
  {
    FlattenSnoc(tables, out);
    Regroup(Flatten(tables), out, Retain(es[pos..], c, s));
    assert Flatten(tables) + [] == Flatten(tables);
  }

  lemma CuttingGrows(es: seq<Entry>, lo: nat, hi: nat, start: nat, c0: Context, pos: nat, c: Context, s: Setting,
                     tables: seq<seq<Entry>>, out: seq<Entry>, rest: seq<Entry>, goal: seq<Entry>)
    requires Sorted(es) && Cutting(es, lo, hi, start, c0, s, tables, goal) && Flatten(tables) + rest == goal
    requires start < pos <= hi && Towards(es[..hi], pos, c, s, out, rest) && Among(out, es, start, pos)
    requires Boundary(es, pos)
    ensures Cutting(es, lo, hi, pos, c, s, if out == [] then tables else tables + [out], goal)
  {
    if start > lo {
      TablesGrow(tables, out, es, lo, start, pos);
    }
    AllAmongGrows(tables, out, es, lo, start, pos);
    Resume(es[..hi], pos, c, s, tables, out, rest, goal);
  }

  /** One table more, unless everything it was given is dropped. */
  method BuildTable(es: seq<Entry>, start: nat, c0: Context, s: Setting, right: KeyTs, full: (nat, nat) -> bool,
                    crowded: nat -> bool, tables0: seq<seq<Entry>>, ghost lo: nat, ghost hi: nat,
                    ghost goal: seq<Entry>)
    returns (pos: nat, c: Context, tables: seq<seq<Entry>>)
    requires Sorted(es) && start < hi && StopsAt(es, right, hi) && Boundary(es, hi) && !full(start, 0)
    requires Cutting(es, lo, hi, start, c0, s, tables0, goal)
    ensures start < pos && Cutting(es, lo, hi, pos, c, s, tables, goal)
  {
    ghost var rest := Retain(es[..hi][start..], c0, s);
    assert [] + rest == rest;
    var out;
    pos, c, out := AddKeys(es, start, c0, s, right, full, crowded, hi, rest);
    CuttingGrows(es, lo, hi, start, c0, pos, c, s, tables0, out, rest, goal);
    tables := if out == [] then tables0 else tables0 + [out];
  }

  /** `merge_iter.seek(left)`, as it is meant: the first entry not before the left end. */
  method Seek(es: seq<Entry>, left: KeyTs) returns (lo: nat)
    ensures StartsAt(es, left, lo)
  {
    lo := 0;
    while lo < |es| && Short(es[lo], left)
      invariant lo <= |es| && forall i :: 0 <= i < lo ==> Short(es[i], left)
    {
      lo := lo + 1;
    }
  }

  predicate Short(e: Entry, left: KeyTs) {
    !IsDefault(left) && Lt(e.at, left)
  }

  /** `lo` is the first entry not before the left end. */
  ghost predicate StartsAt(es: seq<Entry>, left: KeyTs, lo: nat) {
    lo <= |es| && (forall i :: 0 <= i < lo ==> Short(es[i], left)) && (lo < |es| ==> !Short(es[lo], left))
  }

  /** No user key has versions both inside and outside of the range. */
  ghost predicate WholeKeys(es: seq<Entry>, r: KeyTsRange) {
    forall i, j :: 0 <= i < |es| && 0 <= j < |es| && es[i].at.key == es[j].at.key ==>
      (InSplit(r, es[i].at) <==> InSplit(r, es[j].at))
  }

  /** Where the range ends, given where it starts. */
  lemma RangeEnds(es: seq<Entry>, r: KeyTsRange, lo: nat) returns (hi: nat)
    requires Sorted(es) && WholeKeys(es, r) && StartsAt(es, r.left, lo)
    requires IsDefault(r.right) || IsDefault(r.left) || Le(r.left, r.right)
    ensures Spans(es, r, lo, hi) && StopsAt(es, r.right, hi) && (lo < hi ==> Boundary(es, hi))
  {
    hi := lo;
    while hi < |es| && !Past(es[hi], r.right)
      invariant lo <= hi <= |es| && (forall i :: lo <= i < hi ==> !Past(es[i], r.right))
    {
      hi := hi + 1;
    }
    forall i | 0 <= i < |es|
      ensures lo <= i < hi <==> InSplit(r, es[i].at)
      ensures i < hi <==> !Past(es[i], r.right)
    {
      Placed(es, r, lo, hi, i);
    }
  }

  lemma Placed(es: seq<Entry>, r: KeyTsRange, lo: nat, hi: nat, i: nat)
    requires Sorted(es) && lo <= hi <= |es| && i < |es| && StartsAt(es, r.left, lo)
    requires IsDefault(r.right) || IsDefault(r.left) || Le(r.left, r.right)
    requires (forall i :: lo <= i < hi ==> !Past(es[i], r.right)) && (hi < |es| ==> Past(es[hi], r.right))
    ensures lo <= i < hi <==> InSplit(r, es[i].at)
    ensures i < hi <==> !Past(es[i], r.right)
  {
    if i < lo {
      if !IsDefault(r.right) {
        LeTotal(es[i].at, r.left);
        LeTransitive(es[i].at, r.left, r.right);
      }
    } else {
      if lo < i {
        LeTotal(es[lo].at, es[i].at);
        if !IsDefault(r.left) {
          LeTransitive(r.left, es[lo].at, es[i].at);
        }
      }
      if hi < i && !IsDefault(r.right) {
        LeTotal(es[hi].at, es[i].at);
        LeTransitive(r.right, es[hi].at, es[i].at);
      }
    }
  }

  /** `sub_compact`: however the output is cut, together the tables hold exactly what is retained of the part of the
      stream in the range, and no user key has versions in two of them. */
  method SubCompact(es: seq<Entry>, r: KeyTsRange, s: Setting, full: (nat, nat) -> bool, crowded: nat -> bool)
    returns (tables: seq<seq<Entry>>)
    requires Sorted(es) && WholeKeys(es, r) && HasRoom(full, es)
    requires IsDefault(r.right) || IsDefault(r.left) || Le(r.left, r.right)
    ensures Flatten(tables) == Retain(Part(es, r), Fresh(), s)
    ensures KeysApart(tables) && forall t :: t in tables ==> t != []
  {
    var lo := Seek(es, r.left);
    ghost var hi := RangeEnds(es, r, lo);
    PartIsSlice(es, r, lo, hi);
    ghost var goal := Retain(es[lo..hi], Fresh(), s);
    CuttingStarts(es, lo, hi, s);
    var pos, c := lo, Fresh();
    tables := [];
    while pos < |es|
      invariant Cutting(es, lo, hi, pos, c, s, tables, goal)
    {
      if Past(es[pos], r.right) {
        break;
      }
      pos, c, tables := BuildTable(es, pos, c, s, r.right, full, crowded, tables, lo, hi, goal);
    }
    CuttingEnds(es, lo, hi, c, s, tables, goal);
  }

  lemma CuttingStarts(es: seq<Entry>, lo: nat, hi: nat, s: Setting)
    requires lo <= hi <= |es|
    ensures Cutting(es, lo, hi, lo, Fresh(), s, [], Retain(es[lo..hi], Fresh(), s))
  {
    assert es[..hi][lo..] == es[lo..hi];
    var goal := Retain(es[lo..hi], Fresh(), s);
    assert Flatten<Entry>([]) + goal == goal;
  }

  lemma CuttingEnds(es: seq<Entry>, lo: nat, hi: nat, c: Context, s: Setting, tables: seq<seq<Entry>>, goal: seq<Entry>)
    requires Cutting(es, lo, hi, hi, c, s, tables, goal)
    ensures Flatten(tables) == goal && KeysApart(tables) && forall t :: t in tables ==> t != []
  {
    assert es[..hi][hi..] == [] && Flatten(tables) + [] == Flatten(tables);
  }

  // ---------- all tasks of a plan ----------

  /** What the tasks of the splits write, one after the other, each starting with a fresh context. */
  function TasksRetain(splits: seq<KeyTsRange>, es: seq<Entry>, s: Setting): seq<Entry> {
    if splits == [] then [] else Retain(Part(es, splits[0]), Fresh(), s) + TasksRetain(splits[1..], es, s)
  }

  /** The splits of a plan do not come between the versions, from 1 on, of a user key. */
  lemma SplitsWhole(splits: seq<KeyTsRange>, left: KeyTs, es: seq<Entry>, i: nat)
    requires Contiguous(splits, left) && CutsBetweenKeys(splits) && left.ts == MAX_TS && i < |splits|
    requires forall e :: e in es ==> Le(left, e.at) && e.at.ts > 0
    ensures WholeKeys(es, splits[i])
  {
    forall a, b | 0 <= a < |es| && 0 <= b < |es| && es[a].at.key == es[b].at.key && InSplit(splits[i], es[a].at)
      ensures InSplit(splits[i], es[b].at)
    {
      assert es[a] in es && es[b] in es;
      VersionsTogether(splits, left, es[a].at, es[b].at, i);
    }
  }

  lemma {:induction false} TasksFrom(splits: seq<KeyTsRange>, left: KeyTs, es: seq<Entry>, s: Setting, i: nat, lo: nat)
    requires Contiguous(splits, left) && CutsBetweenKeys(splits) && left.ts == MAX_TS && i < |splits| && Sorted(es)
    requires forall e :: e in es ==> Le(left, e.at) && e.at.ts > 0
    requires StartsAt(es, splits[i].left, lo)
    ensures TasksRetain(splits[i..], es, s) == Retain(es[lo..], Fresh(), s)
    decreases |splits| - i
  {
    SplitsWhole(splits, left, es, i);
    if i < |splits| - 1 {
      assert Joined(splits[i], splits[i + 1]);
    }
    var hi := RangeEnds(es, splits[i], lo);
    PartIsSlice(es, splits[i], lo, hi);
    assert splits[i..][0] == splits[i] && splits[i..][1..] == splits[i + 1..];
    if i == |splits| - 1 {
      assert hi == |es|;
      assert es[lo..hi] == es[lo..] && TasksRetain([], es, s) == [];
    } else {
      NextStarts(es, splits[i].right, hi);
      TasksFrom(splits, left, es, s, i + 1, hi);
      RetainParts(es, lo, hi, s);
    }
  }

  lemma NextStarts(es: seq<Entry>, cut: KeyTs, hi: nat)
    requires StopsAt(es, cut, hi) && !IsDefault(cut)
    ensures StartsAt(es, cut, hi)
  {
  }

  lemma RetainParts(es: seq<Entry>, lo: nat, hi: nat, s: Setting)
    requires lo <= hi <= |es| && (lo < hi ==> Boundary(es, hi))
    ensures Retain(es[lo..], Fresh(), s) == Retain(es[lo..hi], Fresh(), s) + Retain(es[hi..], Fresh(), s)
  {
    assert es[lo..] == es[lo..hi] + es[hi..];
    RetainCut(es[lo..hi], es[hi..], Fresh(), s);
  }

  /** Tasks that work on the splits of a plan write, together, what one task would write for the whole stream. */
  lemma TasksRetainAll(splits: seq<KeyTsRange>, left: KeyTs, es: seq<Entry>, s: Setting)
    requires Contiguous(splits, left) && CutsBetweenKeys(splits) && left.ts == MAX_TS && Sorted(es)
    requires forall e :: e in es ==> Le(left, e.at) && e.at.ts > 0
    ensures TasksRetain(splits, es, s) == Retain(es, Fresh(), s)
  {
    if es != [] {
      assert es[0] in es;
    }
    TasksFrom(splits, left, es, s, 0, 0);
    assert splits[0..] == splits && es[0..] == es;
  }

  /** Without splits there is one task for everything. */
  lemma {:induction false} PartOfDefault(es: seq<Entry>)
    ensures Part(es, DefaultRange()) == es
  {
    if es != [] {
      PartOfDefault(es[1..]);
      assert es == [es[0]] + es[1..];
    }
  }
}
