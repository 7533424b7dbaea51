/** The loop of `add_keys` as it is written (src/level/compact.rs:340-428). */
module AddKeysLoop {
  import opened Options
  import opened Keys
  import opened Retention

  datatype Cursor = Cursor(pos: nat, context: Context, out: seq<Entry>)

  /** One iteration. The iterator is advanced after an entry that is skipped (lines 346, 354 and 410), but not after
      one that is pushed (lines 415-427). */
  function Iterate(es: seq<Entry>, c: Cursor, s: Setting): Cursor
    requires c.pos < |es|
  {
    var (context, keep) := Decide(c.context, es[c.pos], s);
    if keep then Cursor(c.pos, context, c.out + [es[c.pos]]) else Cursor(c.pos + 1, context, c.out)
  }

  /** At most `n` iterations. */
  function Run(es: seq<Entry>, c: Cursor, s: Setting, n: nat): Cursor
    decreases n
  {
    if n == 0 || c.pos >= |es| then c else Run(es, Iterate(es, c, s), s, n - 1)
  }

  function Start(): Cursor {
    Cursor(0, Fresh(), [])
  }

  /** The loop comes to the end of the stream and has then written what should be retained. */
  ghost predicate Works(es: seq<Entry>, s: Setting) {
    exists n :: WorksIn(es, s, n)
  }

  ghost predicate WorksIn(es: seq<Entry>, s: Setting, n: nat) {
    Run(es, Start(), s, n).pos == |es| && Run(es, Start(), s, n).out == Retain(es, Fresh(), s)
  }

  predicate IsFirst(es: seq<Entry>, i: nat)
    requires i < |es|
  {
    i == 0 || es[i - 1].at.key != es[i].at.key
  }

  /** The first version of a user key to be examined ends the examination of that key. The default key cannot be
      skipped, so that its entry must be dropped at once. */
  predicate Settles(e: Entry, s: Setting) {
    && e.at.ts <= s.discardTs && !e.merge && (Gone(e, s.clock(e)) || e.discardEarlier || s.keepVersions == 1)
    && (IsDefault(e.at) ==> DroppedFloor(e, s))
  }

  // ---------- runs ----------

  lemma {:induction false} RunTwice(es: seq<Entry>, c: Cursor, s: Setting, m: nat, n: nat)
    ensures Run(es, Run(es, c, s, m), s, n) == Run(es, c, s, m + n)
    decreases m
  {
    if m > 0 && c.pos < |es| {
      RunTwice(es, Iterate(es, c, s), s, m - 1, n);
    }
  }

  /** The position never goes back, and what was written stays written. */
  lemma {:induction false} RunGrows(es: seq<Entry>, c: Cursor, s: Setting, n: nat)
    ensures c.pos <= Run(es, c, s, n).pos && c.out <= Run(es, c, s, n).out
    decreases n
  {
    if n > 0 && c.pos < |es| {
      RunGrows(es, Iterate(es, c, s), s, n - 1);
    }
  }

  // ---------- where it works ----------

  /** The context in front of `pos` when every user key before was settled by its first version. */
  ghost predicate Settled(es: seq<Entry>, pos: nat, c: Context)
    requires pos <= |es|
  {
    if pos == 0 then c == Fresh()
    else c.last == es[pos - 1].at.key && (c.skip == Some(c.last) || (c.skip == None && IsDefault(es[pos - 1].at)))
  }

  lemma SettledStep(es: seq<Entry>, pos: nat, c: Context, s: Setting)
    requires Sorted(es) && pos < |es| && Settled(es, pos, c) && (IsFirst(es, pos) ==> Settles(es[pos], s))
    ensures var d := Decide(c, es[pos], s);
      Settled(es, pos + 1, d.0) && (d.1 ==> Decide(d.0, es[pos], s) == (d.0, false))
  {
    if !IsFirst(es, pos) {
      LtParts(es[pos - 1].at, es[pos].at);
    }
  }

  /** As long as first versions settle their keys, the loop gets on, and writes what it should. */
  lemma {:induction false} Reach(es: seq<Entry>, s: Setting, pos: nat, c: Context, out: seq<Entry>, to: nat)
    returns (n: nat, c': Context, out': seq<Entry>)
    requires Sorted(es) && pos <= to <= |es| && Settled(es, pos, c)
    requires forall i :: pos <= i < to && IsFirst(es, i) ==> Settles(es[i], s)
    ensures Run(es, Cursor(pos, c, out), s, n) == Cursor(to, c', out') && Settled(es, to, c')
    ensures out' + Retain(es[to..], c', s) == out + Retain(es[pos..], c, s)
    decreases |es| - pos
  {
    if pos == to {
      return 0, c, out;
    }
    var e, d := es[pos], Decide(c, es[pos], s);
    SettledStep(es, pos, c, s);
    var more := if d.1 then out + [e] else out;
    n, c', out' := Reach(es, s, pos + 1, d.0, more, to);
    RetainStep(es, pos, c, s, out);
    var steps := GetsOn(es, s, pos, c, out);
    RunTwice(es, Cursor(pos, c, out), s, steps, n);
    n := steps + n;
  }

  /** Past one entry, in one iteration or two. */
  lemma GetsOn(es: seq<Entry>, s: Setting, pos: nat, c: Context, out: seq<Entry>) returns (n: nat)
    requires Sorted(es) && pos < |es| && Settled(es, pos, c) && (IsFirst(es, pos) ==> Settles(es[pos], s))
    ensures var d := Decide(c, es[pos], s);
      Run(es, Cursor(pos, c, out), s, n) == Cursor(pos + 1, d.0, if d.1 then out + [es[pos]] else out)
  {
    var d, cursor := Decide(c, es[pos], s), Cursor(pos, c, out);
    SettledStep(es, pos, c, s);
    if d.1 {
      assert Iterate(es, Iterate(es, cursor, s), s) == Cursor(pos + 1, d.0, out + [es[pos]]);
      return 2;
    }
    assert Iterate(es, cursor, s) == Cursor(pos + 1, d.0, out);
    return 1;
  }

  lemma RetainStep(es: seq<Entry>, pos: nat, c: Context, s: Setting, out: seq<Entry>)
    requires pos < |es|
    ensures var d := Decide(c, es[pos], s);
      (if d.1 then out + [es[pos]] else out) + Retain(es[pos + 1..], d.0, s) == out + Retain(es[pos..], c, s)
  {
    assert es[pos..][0] == es[pos] && es[pos..][1..] == es[pos + 1..];
  }

  // ---------- where it does not ----------

  lemma {:induction false} RetainSorted(es: seq<Entry>, c: Context, s: Setting)
    requires Sorted(es)
    ensures Sorted(Retain(es, c, s))
  {
    if es != [] {
      var (c', keep) := Decide(c, es[0], s);
      var rest := Retain(es[1..], c', s);
      RetainSorted(es[1..], c', s);
      forall j | 0 <= j < |rest|
        ensures Lt(es[0].at, rest[j].at)
      {
        RetainSubset(es[1..], c', s, rest[j]);
        var k :| 0 <= k < |es[1..]| && es[1..][k] == rest[j];
        assert es[k + 1] == rest[j];
      }
    }
  }

  /** At an entry above the discard timestamp, or a merge entry, the loop pushes that entry for ever. */
  lemma {:induction false} Stalls(es: seq<Entry>, c: Cursor, s: Setting, n: nat)
    requires c.pos < |es| && c.context.skip != Some(es[c.pos].at.key)
    requires es[c.pos].at.ts > s.discardTs || es[c.pos].merge
    ensures Run(es, c, s, n).pos == c.pos
    ensures Run(es, c, s, n).out == c.out + seq(n, _ => es[c.pos])
    decreases n
  {
    if n > 0 {
      Stalls(es, Iterate(es, c, s), s, n - 1);
      assert c.out + [es[c.pos]] + seq(n - 1, _ => es[c.pos]) == c.out + seq(n, _ => es[c.pos]);
    }
  }

  /** An entry that is kept but does not settle its key is pushed at least twice. */
  lemma PushedTwice(es: seq<Entry>, pos: nat, c: Context, out: seq<Entry>, s: Setting)
    requires pos < |es| && Settled(es, pos, c) && IsFirst(es, pos)
    requires !Settles(es[pos], s) && es[pos].at.ts <= s.discardTs && !es[pos].merge
    ensures var once := Iterate(es, Cursor(pos, c, out), s);
      && once.pos == pos && Iterate(es, once, s).pos == pos
      && Iterate(es, once, s).out == out + [es[pos]] + [es[pos]]
  {
  }

  /** From there, the loop either stays or has written the entry twice. */
  lemma StaysOrDoubles(es: seq<Entry>, pos: nat, c: Context, out: seq<Entry>, s: Setting, n: nat)
    requires pos < |es| && Settled(es, pos, c) && IsFirst(es, pos) && !Settles(es[pos], s)
    ensures var r := Run(es, Cursor(pos, c, out), s, n);
      r.pos == pos || out + [es[pos]] + [es[pos]] <= r.out
  {
    var start := Cursor(pos, c, out);
    if es[pos].at.ts > s.discardTs || es[pos].merge {
      Stalls(es, start, s, n);
    } else {
      PushedTwice(es, pos, c, out, s);
      if n >= 2 {
        var twice := Iterate(es, Iterate(es, start, s), s);
        assert Run(es, start, s, n) == Run(es, twice, s, n - 2);
        RunGrows(es, twice, s, n - 2);
      }
    }
  }

  /** What is retained has no entry twice. */
  lemma NoDoubles(es: seq<Entry>, s: Setting, out: seq<Entry>, e: Entry)
    requires Sorted(es)
    ensures !(out + [e] + [e] <= Retain(es, Fresh(), s))
  {
    RetainSorted(es, Fresh(), s);
    CompareKeyTsEqual(e.at, e.at);
    var r, twice := Retain(es, Fresh(), s), out + [e] + [e];
    assert twice[|out|] == e && twice[|out| + 1] == e;
    assert |twice| <= |r| ==> !(r[|out|] == e && r[|out| + 1] == e);
  }

  /** The first key that is not settled spoils every run. */
  lemma NeverWorks(es: seq<Entry>, s: Setting, i: nat, m: nat, c: Context, out: seq<Entry>, n: nat)
    requires Sorted(es) && i < |es| && IsFirst(es, i) && !Settles(es[i], s)
    requires Run(es, Start(), s, m) == Cursor(i, c, out) && Settled(es, i, c)
    ensures !WorksIn(es, s, n)
  {
    if n <= m {
      RunTwice(es, Start(), s, n, m - n);
      RunGrows(es, Run(es, Start(), s, n), s, m - n);
    } else {
      RunTwice(es, Start(), s, m, n - m);
      StaysOrDoubles(es, i, c, out, s, n - m);
      NoDoubles(es, s, out, es[i]);
    }
  }

  /** The loop as written does its work if and only if the first version of every user key settles that key. */
  lemma WorksIff(es: seq<Entry>, s: Setting)
    requires Sorted(es)
    ensures Works(es, s) <==> forall i :: 0 <= i < |es| && IsFirst(es, i) ==> Settles(es[i], s)
  {
    if forall i :: 0 <= i < |es| && IsFirst(es, i) ==> Settles(es[i], s) {
      var n, c, out := Reach(es, s, 0, Fresh(), [], |es|);
      assert es[0..] == es && es[|es|..] == [] && out + [] == out;
      assert WorksIn(es, s, n);
    } else {
      var i := FirstUnsettled(es, s, 0);
      var m, c, out := Reach(es, s, 0, Fresh(), [], i);
      forall n
        ensures !WorksIn(es, s, n)
      {
        NeverWorks(es, s, i, m, c, out, n);
      }
    }
  }

  lemma {:induction false} FirstUnsettled(es: seq<Entry>, s: Setting, from: nat) returns (i: nat)
    requires from <= |es| && forall j :: 0 <= j < from && IsFirst(es, j) ==> Settles(es[j], s)
    requires exists j :: 0 <= j < |es| && IsFirst(es, j) && !Settles(es[j], s)
    ensures i < |es| && IsFirst(es, i) && !Settles(es[i], s)
    ensures forall j :: 0 <= j < i && IsFirst(es, j) ==> Settles(es[j], s)
    decreases |es| - from
  {
    if from < |es| && (!IsFirst(es, from) || Settles(es[from], s)) {
      i := FirstUnsettled(es, s, from + 1);
    } else {
      i := from;
    }
  }
}
