/** Read timestamp 0, at which the first transactions of a fresh store read: the watermark task drops its marks
    (src/txn/water_mark.rs:173). */
module ReadTsZero {
  import opened WaterMark
  import opened MarkChannel
  import opened Protocol
  import opened Runs
  import O = Oracle

  function Last(run: seq<Sys>): Sys
    requires run != []
  {
    run[|run| - 1]
  }

  lemma Extend(run: seq<Sys>, maxVersion: nat, step: Step) returns (run': seq<Sys>)
    requires IsRun(run, maxVersion) && Enabled(Last(run), step)
    ensures IsRun(run', maxVersion) && Last(run') == Next(Last(run), step)
  {
    run' := run + [Next(Last(run), step)];
    forall k | 0 <= k < |run'| - 1
      ensures StepAt(run', k)
    {
      if k < |run| - 1 {
        assert StepAt(run, k);
      }
    }
  }

  /** Once every session above 0 is done and processed, the watermark has reached them. */
  lemma AllSeen(run: seq<Sys>, c: Channel, i: nat)
    requires IsRun(run, 0) && (c == Last(run).oracle.readMark || c == Last(run).oracle.txnMark)
    requires i < c.begun <= |c.ts|
    requires forall j :: 0 <= j < c.begun && c.ts[j] > 0 ==> j in c.seen
    ensures c.wm.doneUntil >= c.ts[i]
  {
    RunInv(run, 0, |run| - 1);
    AllSeenOn(c, i);
  }

  lemma AllSeenOn(c: Channel, i: nat)
    requires i < c.begun <= |c.ts| && forall j :: 0 <= j < c.begun && c.ts[j] > 0 ==> j in c.seen
    ensures Inv(c) ==> c.wm.doneUntil >= c.ts[i]
  {
    if Inv(c) && c.wm.doneUntil < c.ts[i] {
      var j := WatermarkIsTight(c, i);
    }
  }

  /** Two transactions at timestamp 0; the second takes commit timestamp 1 and is refused. */
  lemma CommitOne() returns (run: seq<Sys>)
    ensures IsRun(run, 0)
    ensures var o := Last(run).oracle;
      && o.nextTs == 2
      && o.txns == [O.Admitting, O.Active]
      && o.readMark.ts == [0, 0] && o.readMark.closed == {1}
      && o.readMark.queue == [Begin(0), Begin(1), Done(1)]
      && o.readMark.begun == 0 && o.readMark.seen == {}
      && o.txnMark.ts == [1] && o.txnMark.queue == [Begin(0), Done(0)]
      && o.txnMark.begun == 0 && o.txnMark.seen == {}
  {
    run := [Start(0)];
    run := Extend(run, 0, BeginTxn);
    run := Extend(run, 0, BeginTxn);
    run := Extend(run, 0, AdmitFast(1));
    run := Extend(run, 0, TakeCommitTs(1));
    run := Extend(run, 0, Reject);
  }

  /** The transaction watermark reaches 1. */
  lemma CommitOneSeen() returns (run: seq<Sys>)
    ensures IsRun(run, 0)
    ensures var o := Last(run).oracle;
      && o.nextTs == 2 && |o.txns| == 2
      && o.readMark.ts == [0, 0] && o.readMark.closed == {1}
      && o.readMark.queue == [Begin(0), Begin(1), Done(1)]
      && o.readMark.begun == 0 && o.readMark.seen == {}
      && o.txnMark.wm.doneUntil >= 1
  {
    run := CommitOne();
    run := Extend(run, 0, ProcessTxnMark);
    run := Extend(run, 0, ProcessTxnMark);
    AllSeen(run, Last(run).oracle.txnMark, 0);
  }

  /** A third transaction reads at timestamp 1 and is discarded. */
  lemma ReadAtOne() returns (run: seq<Sys>)
    ensures IsRun(run, 0)
    ensures var o := Last(run).oracle;
      && o.readMark.ts == [0, 0, 1] && o.readMark.closed == {1, 2}
      && o.readMark.queue == [Begin(0), Begin(1), Done(1), Begin(2), Done(2)]
      && o.readMark.begun == 0 && o.readMark.seen == {}
  {
    run := CommitOneSeen();
    run := Extend(run, 0, BeginTxn);
    run := Extend(run, 0, AdmitFast(2));
    run := Extend(run, 0, Discard(2));
  }

  /** The marks at timestamp 0 are dropped. */
  lemma ZeroMarksDropped() returns (run: seq<Sys>)
    ensures IsRun(run, 0)
    ensures var o := Last(run).oracle;
      && o.readMark.ts == [0, 0, 1] && o.readMark.closed == {1, 2}
      && o.readMark.queue == [Begin(2), Done(2)] && o.readMark.begun == 2 && o.readMark.seen == {1}
  {
    run := ReadAtOne();
    run := Extend(run, 0, ProcessReadMark);
    run := Extend(run, 0, ProcessReadMark);
    run := Extend(run, 0, ProcessReadMark);
  }

  /** With all marks processed the read watermark is at 1, above the first reader. */
  lemma ReaderAtZeroPassed() returns (run: seq<Sys>)
    ensures IsRun(run, 0)
    ensures var o := Last(run).oracle;
      && 0 < |o.readMark.ts| && 0 !in o.readMark.closed && o.readMark.ts[0] == 0
      && O.DiscardAtOrBelow(o) > 0
  {
    run := ZeroMarksDropped();
    run := Extend(run, 0, ProcessReadMark);
    run := Extend(run, 0, ProcessReadMark);
    AllSeen(run, Last(run).oracle.readMark, 2);
  }

  /** In every run, every transaction reading at `t` whose done mark has not been sent keeps the
      discard timestamp at or below `t`. */
  ghost predicate Protected(t: nat) {
    forall run: seq<Sys>, maxVersion: nat, i: nat ::
      IsRun(run, maxVersion) && i < |Last(run).oracle.readMark.ts|
      && Last(run).oracle.readMark.ts[i] == t && i !in Last(run).oracle.readMark.closed
      ==> O.DiscardAtOrBelow(Last(run).oracle) <= t
  }

  /** The protection a reader gets from the read watermark holds exactly for positive read
      timestamps. */
  lemma ProtectedIffPositive(t: nat)
    ensures Protected(t) <==> t > 0
  {
    if t > 0 {
      forall run: seq<Sys>, maxVersion: nat, i: nat |
        IsRun(run, maxVersion) && i < |Last(run).oracle.readMark.ts|
        && Last(run).oracle.readMark.ts[i] == t && i !in Last(run).oracle.readMark.closed
        ensures O.DiscardAtOrBelow(Last(run).oracle) <= t
      {
        DiscardBelowReaders(run, maxVersion, |run| - 1, |run| - 1, i);
      }
    } else {
      var run := ReaderAtZeroPassed();
      assert Last(run).oracle.readMark.ts[0] == 0;
    }
  }
}
