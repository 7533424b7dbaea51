/** Compaction under concurrent readers: the discard timestamp of the oracle, the overlap check of
    the levels and the retention rule together. */
module GarbageCollection {
  import opened Options
  import opened Bytes
  import opened Keys
  import opened Ranges
  import opened Levels
  import opened LevelHandlers
  import R = Retention
  import O = Oracle
  import opened Protocol
  import opened Runs

  /** Every entry lies in one of the tables. */
  ghost predicate StoredIn(es: seq<R.Entry>, tables: seq<Table>) {
    forall e :: e in es ==> exists t :: t in tables && Holds(t, e.at)
  }

  ghost predicate StoredInLevels(es: seq<R.Entry>, levels: seq<seq<Table>>, target: nat) {
    forall e :: e in es ==> exists l, t :: target <= l < |levels| && t in levels[l] && Holds(t, e.at)
  }

  /** The outcome of `CheckOverlap`. */
  ghost predicate OverlapBelow(levels: seq<seq<Table>>, compacted: seq<Table>, target: nat) {
    exists l, t :: target <= l < |levels| && t in levels[l] && MeetsHull(t, compacted)
  }

  /** A negative overlap check means that no entry below shares a user key with the input. */
  lemma NoOverlapNoSharedKey(es: seq<R.Entry>, lower: seq<R.Entry>, levels: seq<seq<Table>>,
                             compacted: seq<Table>, target: nat, e: R.Entry, f: R.Entry)
    requires compacted != [] && AllWellFormed(compacted) && (exists r :: IsHull(compacted, r))
    requires StoredIn(es, compacted) && StoredInLevels(lower, levels, target)
    requires !OverlapBelow(levels, compacted, target)
    requires e in es && f in lower
    ensures e.at.key != f.at.key
  {
    if e.at.key == f.at.key {
      var c :| c in compacted && Holds(c, e.at);
      var l, t :| target <= l < |levels| && t in levels[l] && Holds(t, f.at);
      assert Shares(c, f.at);
      SharedIsReported(compacted, c, t, f.at);
      assert false;
    }
  }

  /** What lies outside a compaction: newer versions above it, older ones only in the levels that
      were checked. */
  ghost predicate Surroundings(es: seq<R.Entry>, upper: seq<R.Entry>, lower: seq<R.Entry>,
                               levels: seq<seq<Table>>, compacted: seq<Table>, target: nat) {
    && compacted != [] && AllWellFormed(compacted) && (exists r :: IsHull(compacted, r))
    && StoredIn(es, compacted)
    && StoredInLevels(lower, levels, target)
    && (forall e, f :: e in es && f in upper && e.at.key == f.at.key ==> e.at.ts < f.at.ts)
  }

  lemma CompactionInvisible(es: seq<R.Entry>, s: R.Setting, upper: seq<R.Entry>, lower: seq<R.Entry>,
                            levels: seq<seq<Table>>, compacted: seq<Table>, target: nat, now: nat)
    requires R.Sorted(es) && R.ReadsLater(es, s, now)
    requires Surroundings(es, upper, lower, levels, compacted, target)
    requires s.hasOverlap == OverlapBelow(levels, compacted, target)
    ensures R.Preserved(es, s, upper + lower, now)
  {
    if !s.hasOverlap {
      forall e, f | e in es && f in upper + lower && e.at.key == f.at.key
        ensures e.at.ts < f.at.ts
      {
        if f in lower {
          NoOverlapNoSharedKey(es, lower, levels, compacted, target, e, f);
        }
      }
    }
    R.PreservedWithoutOlder(es, s, upper + lower, now);
  }

  lemma NothingAtZero(es: seq<R.Entry>, key: Bytes, now: nat)
    requires forall e :: e in es ==> e.at.ts > 0
    ensures R.Visible(es, key, 0, now) == None
  {
    R.NewestIsNewest(es, key, 0);
  }

  /** No reader loses anything to compaction: take any run, let a compaction sample the discard
      timestamp at `k`, and let transaction `i` at `m` be one that still reads or that began after
      `k`. Whatever key it looks up, it gets the same answer from the compacted store. This
      includes readers at timestamp 0, which the watermark does not protect: they see nothing
      either way. */
  lemma ReadersLoseNothing(run: seq<Sys>, maxVersion: nat, k: nat, m: nat, i: nat,
                           es: seq<R.Entry>, s: R.Setting, upper: seq<R.Entry>, lower: seq<R.Entry>,
                           levels: seq<seq<Table>>, compacted: seq<Table>, target: nat, now: nat, key: Bytes)
    requires IsRun(run, maxVersion) && k <= m < |run| && i < |run[m].oracle.readMark.ts|
    requires i !in run[m].oracle.readMark.closed || i >= |run[k].oracle.readMark.ts|
    requires s.discardTs == O.DiscardAtOrBelow(run[k].oracle)
    requires R.Sorted(es) && R.ReadsLater(es, s, now)
    requires Surroundings(es, upper, lower, levels, compacted, target)
    requires s.hasOverlap == OverlapBelow(levels, compacted, target)
    requires forall e :: e in es || e in upper || e in lower ==> e.at.ts > 0
    ensures var readTs := run[m].oracle.readMark.ts[i];
      R.Visible(R.Retain(es, R.Fresh(), s) + (upper + lower), key, readTs, now)
        == R.Visible(es + (upper + lower), key, readTs, now)
  {
    var readTs, rest := run[m].oracle.readMark.ts[i], upper + lower;
    if readTs == 0 {
      var out := R.Retain(es, R.Fresh(), s);
      forall e | e in out
        ensures e in es
      {
        R.RetainSubset(es, R.Fresh(), s, e);
      }
      NothingAtZero(es + rest, key, now);
      NothingAtZero(out + rest, key, now);
    } else {
      DiscardBelowReaders(run, maxVersion, k, m, i);
      CompactionInvisible(es, s, upper, lower, levels, compacted, target, now);
    }
  }
}
