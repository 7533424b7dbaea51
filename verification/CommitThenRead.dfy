/** A run in which a commit goes all the way and is then read: the steps of the protocol can be taken. */
module CommitThenRead {
  import opened Options
  import opened WaterMark
  import opened MarkChannel
  import opened Protocol
  import opened Runs
  import opened ReadTsZero
  import O = Oracle
  import W = WritePipeline

  /** A transaction takes commit timestamp 1 and sends its request. */
  lemma CommitSent() returns (run: seq<Sys>)
    ensures IsRun(run, 0)
    ensures var o, p := Last(run).oracle, Last(run).pipe;
      && o.nextTs == 2 && |o.txns| == 1 && o.readMark.ts == [0]
      && o.txnMark.ts == [1] && o.txnMark.queue == [Begin(0)] && o.txnMark.begun == 0 && o.txnMark.seen == {}
      && o.txnMark.closed == {}
      && p == W.Empty().(issued := 1, writeQueue := [0], enqueued := [0])
  {
    run := [Start(0)];
    run := Extend(run, 0, BeginTxn);
    run := Extend(run, 0, AdmitFast(0));
    run := Extend(run, 0, TakeCommitTs(0));
    run := Extend(run, 0, Enqueue);
  }

  /** The request is collected, written and answered. */
  lemma CommitWritten() returns (run: seq<Sys>)
    ensures IsRun(run, 0)
    ensures var o, p := Last(run).oracle, Last(run).pipe;
      && o.nextTs == 2 && |o.txns| == 1 && o.readMark.ts == [0]
      && o.txnMark.ts == [1] && o.txnMark.queue == [Begin(0)] && o.txnMark.begun == 0 && o.txnMark.seen == {}
      && o.txnMark.closed == {}
      && p.applied == [0] && 0 in p.settled && p.failures == {}
  {
    run := CommitSent();
    run := Extend(run, 0, TakeRequest);
    run := Extend(run, 0, SpawnBatch);
    run := Extend(run, 0, ApplyNext);
    run := Extend(run, 0, EndBatch);
  }

  /** Its marks are processed. */
  lemma CommitDone() returns (run: seq<Sys>)
    ensures IsRun(run, 0)
    ensures var o, p := Last(run).oracle, Last(run).pipe;
      && o.nextTs == 2 && |o.txns| == 1 && o.readMark.ts == [0] && o.txnMark.ts == [1]
      && o.txnMark.wm.doneUntil >= 1 && p.applied == [0] && p.failures == {}
  {
    run := CommitWritten();
    run := Extend(run, 0, FinishCommit(0));
    run := Extend(run, 0, ProcessTxnMark);
    run := Extend(run, 0, ProcessTxnMark);
    AllSeen(run, Last(run).oracle.txnMark, 0);
  }

  /** The next transaction reads at the commit's timestamp, and the request is in the memtable. */
  lemma CommitIsRead() returns (run: seq<Sys>)
    ensures IsRun(run, 0)
    ensures var s := Last(run);
      && In(s, 1, O.Active) && s.oracle.readMark.ts[1] == 1 && s.oracle.txnMark.ts == [1]
      && s.pipe.applied == [0] && s.pipe.failures == {}
  {
    run := CommitDone();
    run := Extend(run, 0, BeginTxn);
    run := Extend(run, 0, AdmitFast(1));
  }
}
