/** Nobody is stuck: whoever waits, waits for a step that can be taken. */
module Progress {
  import opened Options
  import opened WaterMark
  import opened MarkChannel
  import opened Protocol
  import opened Runs
  import opened Seqs
  import O = Oracle
  import W = WritePipeline

  /** A step of the write path, or one that answers or finishes commit `j`, can be taken. */
  ghost predicate PipeMoves(s: Sys, j: nat) {
    || Enabled(s, Enqueue) || Enabled(s, TakeRequest) || Enabled(s, SpawnBatch) || Enabled(s, ApplyNext)
    || Enabled(s, EndBatch) || Enabled(s, ReturnPermit) || Enabled(s, DropRequest(j)) || Enabled(s, FinishCommit(j))
  }

  lemma {:induction false} InSomeBatch(batches: seq<seq<nat>>, j: nat) returns (x: nat)
    requires j in Flatten(batches)
    ensures x < |batches| && j in batches[x]
  {
    x := |batches| - 1;
    if j !in batches[x] {
      x := InSomeBatch(batches[..x], j);
    }
  }

  /** A request that is buffered or on the channel. */
  lemma QueuedMoves(s: Sys, j: nat)
    requires W.PipeInv(s.pipe) && !s.pipe.loc.Stopped? && (s.pipe.buffer != [] || s.pipe.writeQueue != [])
    ensures PipeMoves(s, j)
  {
    var p := s.pipe;
    match p.batch
    case Running(_, _) => assert Enabled(s, EndBatch);
    case Ended => assert Enabled(s, ReturnPermit);
    case Idle =>
      if p.loc.Inner? {
        assert Enabled(s, SpawnBatch);
      } else if p.writeQueue != [] {
        assert Enabled(s, TakeRequest);
      } else {
        assert Enabled(s, SpawnBatch);
      }
  }

  /** A request that is in a batch. */
  lemma BatchedMoves(s: Sys, j: nat)
    requires W.Outcomes(s.pipe) && j in Flatten(s.pipe.batches) && j !in s.oracle.txnMark.closed
    ensures PipeMoves(s, j)
  {
    var x := InSomeBatch(s.pipe.batches, j);
    BatchAnswers(s.pipe, j, x);
  }

  lemma BatchAnswers(p: W.Pipe, j: nat, x: nat)
    requires W.Outcomes(p) && x < |p.batches| && j in p.batches[x]
    ensures j in p.settled || j in p.published || p.batch.Running?
  {
    if W.Over(p, x) {
      assert W.InOver(p, j);
    }
  }

  lemma OpenCommitMoves(s: Sys, j: nat)
    requires W.PipeInv(s.pipe) && Linked(s) && !s.pipe.loc.Stopped?
    requires j < |s.oracle.txnMark.ts| && j !in s.oracle.txnMark.closed
    ensures PipeMoves(s, j)
  {
    var p := s.pipe;
    if p.sending == Some(j) {
      assert Enabled(s, Enqueue);
    } else if j in Flatten(p.batches) {
      BatchedMoves(s, j);
    } else {
      assert j in p.enqueued;
      QueuedMoves(s, j);
    }
  }

  /** As long as the loop runs, a commit that is not done has a step ahead of it. */
  lemma CommitMoves(run: seq<Sys>, maxVersion: nat, k: nat, j: nat)
    requires IsRun(run, maxVersion) && k < |run| && !run[k].pipe.loc.Stopped?
    requires j < |run[k].oracle.txnMark.ts| && j !in run[k].oracle.txnMark.closed
    ensures PipeMoves(run[k], j)
  {
    RunInv(run, maxVersion, k);
    OpenCommitMoves(run[k], j);
  }

  /** With all marks processed, a watermark below a read timestamp has an open commit to blame. */
  lemma OpenCommit(o: O.OracleState, i: nat) returns (j: nat)
    requires O.OracleInv(o) && o.txnMark.queue == [] && i < |o.readMark.ts|
    requires o.txnMark.wm.doneUntil < o.readMark.ts[i]
    ensures j < |o.txnMark.ts| && j !in o.txnMark.closed && o.txnMark.ts[j] <= o.readMark.ts[i]
  {
    var c := o.txnMark;
    var x := o.readMark.ts[i] - c.start - 1;
    assert c.ts[x] == o.readMark.ts[i];
    j := WatermarkIsTight(c, x);
  }

  /** Transaction `i` can take its next step, or a mark can be processed, or there is a commit at or below its read
      timestamp that has a step ahead of it. */
  ghost predicate TxnMoving(s: Sys, i: nat) {
    || Enabled(s, AdmitFast(i)) || Enabled(s, SeeLow(i)) || Enabled(s, SendWaiter(i)) || Enabled(s, Wake(i))
    || Enabled(s, ProcessTxnMark)
    || exists j: nat :: BlamedOn(s, i, j)
  }

  ghost predicate BlamedOn(s: Sys, i: nat, j: nat) {
    && i < |s.oracle.readMark.ts| && j < |s.oracle.txnMark.ts| && s.oracle.txnMark.ts[j] <= s.oracle.readMark.ts[i]
    && PipeMoves(s, j)
  }

  /** A transaction that was not admitted yet is not stuck. */
  lemma TxnMoves(run: seq<Sys>, maxVersion: nat, k: nat, i: nat)
    requires IsRun(run, maxVersion) && k < |run| && !run[k].pipe.loc.Stopped?
    requires i < |run[k].oracle.txns| && !run[k].oracle.txns[i].Active?
    ensures TxnMoving(run[k], i)
  {
    RunInv(run, maxVersion, k);
    if !run[k].oracle.txns[i].Waiting? {
      FirstStepsMove(run[k], i);
    } else if run[k].oracle.txnMark.queue != [] {
      HeadMoves(run[k].oracle.txnMark);
    } else {
      WaitingMoves(run[k], i);
    }
  }

  lemma WaitingMoves(s: Sys, i: nat)
    requires SysInv(s) && !s.pipe.loc.Stopped? && s.oracle.txnMark.queue == []
    requires i < |s.oracle.txns| && s.oracle.txns[i].Waiting?
    ensures TxnMoving(s, i)
  {
    WokenNow(s.oracle, i);
    if s.oracle.readMark.ts[i] <= s.oracle.txnMark.wm.doneUntil {
      assert Enabled(s, Wake(i));
    } else {
      var j := OpenCommit(s.oracle, i);
      OpenCommitMoves(s, j);
      assert BlamedOn(s, i, j);
    }
  }

  /** With an empty channel, a waiter was notified if its timestamp has been reached. */
  lemma WokenNow(o: O.OracleState, i: nat)
    requires O.OracleInv(o) && o.txnMark.queue == [] && i < |o.txns| && o.txns[i].Waiting?
    ensures i < |o.readMark.ts|
    ensures o.readMark.ts[i] <= o.txnMark.wm.doneUntil ==> i in o.txnMark.wm.notified
  {
    NobodyQueued(o, i);
  }

  lemma FirstStepsMove(s: Sys, i: nat)
    requires O.Admitted(s.oracle) && i < |s.oracle.txns| && (s.oracle.txns[i].Admitting? || s.oracle.txns[i].MustWait?)
    ensures Enabled(s, AdmitFast(i)) || Enabled(s, SeeLow(i)) || Enabled(s, SendWaiter(i))
  {
  }

  lemma HeadMoves(c: Channel)
    requires Inv(c) && c.queue != []
    ensures O.Receivable(c)
  {
    HeadInRange(c);
  }

  /** With an empty channel every waiter was heard. */
  lemma NobodyQueued(o: O.OracleState, i: nat)
    requires O.OracleInv(o) && o.txnMark.queue == [] && i < |o.txns| && o.txns[i].Waiting?
    ensures i in o.txnMark.heard
  {
    assert !Queued(o.txnMark.queue, o.txnMark.asked[i], i);
  }
}
