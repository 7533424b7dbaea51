/** Safety of the transaction protocol over whole runs. */
module Runs {
  import opened WaterMark
  import opened MarkChannel
  import opened Protocol
  import O = Oracle
  import W = WritePipeline
  import opened Options
  import opened Seqs

  ghost predicate StepsTo(s: Sys, s': Sys) {
    exists step :: Enabled(s, step) && s' == Next(s, step)
  }

  ghost predicate StepAt(run: seq<Sys>, k: nat)
    requires k + 1 < |run|
  {
    StepsTo(run[k], run[k + 1])
  }

  /** A run from a store whose newest version at start-up is `maxVersion`. */
  ghost predicate IsRun(run: seq<Sys>, maxVersion: nat) {
    && run != []
    && run[0] == Start(maxVersion)
    && (forall k :: 0 <= k < |run| - 1 ==> StepAt(run, k))
  }

  /** The invariant holds in every state of every run. */
  lemma {:induction false} RunInv(run: seq<Sys>, maxVersion: nat, k: nat)
    requires IsRun(run, maxVersion) && k < |run|
    ensures SysInv(run[k])
  {
    if k == 0 {
      StartInv(maxVersion);
    } else {
      RunInv(run, maxVersion, k - 1);
      RunStepKeeps(run, maxVersion, k);
    }
  }

  lemma RunStepKeeps(run: seq<Sys>, maxVersion: nat, k: nat)
    requires IsRun(run, maxVersion) && 0 < k < |run|
    ensures SysInv(run[k - 1]) ==> SysInv(run[k])
  {
    assert StepAt(run, k - 1);
    if SysInv(run[k - 1]) {
      StepsToKeeps(run[k - 1], run[k]);
    }
  }

  lemma StepsToKeeps(s: Sys, s': Sys)
    requires SysInv(s) && StepsTo(s, s')
    ensures SysInv(s')
  {
    var step :| Enabled(s, step) && s' == Next(s, step);
    StepKeeps(s, step);
  }

  // ---------- how a state relates to a later one ----------

  /** Read timestamps and done marks only accumulate, watermarks only advance, and read
      timestamps handed out in between start at the earlier `nextTs - 1`. */
  ghost predicate Later(a: O.OracleState, b: O.OracleState) {
    && a.nextTs <= b.nextTs
    && a.readMark.wm.doneUntil <= b.readMark.wm.doneUntil
    && a.txnMark.wm.doneUntil <= b.txnMark.wm.doneUntil
    && a.readMark.ts <= b.readMark.ts
    && a.txnMark.ts <= b.txnMark.ts
    && a.readMark.closed <= b.readMark.closed
    && (forall i :: |a.readMark.ts| <= i < |b.readMark.ts| ==> a.nextTs <= b.readMark.ts[i] + 1)
    && |a.txns| <= |b.txns|
    && (forall i :: 0 <= i < |a.txns| && a.txns[i].Active? ==> b.txns[i].Active?)
  }

  lemma StepLater(s: Sys, step: Step)
    requires Inv(s.oracle.readMark) && Inv(s.oracle.txnMark) && Enabled(s, step)
    ensures Later(s.oracle, Next(s, step).oracle)
  {
    match step
    case BeginTxn => BeginTxnLater(s.oracle);
    case AdmitFast(i) => PhaseLater(s.oracle, i, O.Active, s.oracle.txnMark);
    case SeeLow(i) => PhaseLater(s.oracle, i, O.MustWait, s.oracle.txnMark);
    case SendWaiter(i) => PhaseLater(s.oracle, i, O.Waiting, Ask(s.oracle.txnMark, s.oracle.readMark.ts[i], i));
    case Wake(i) => PhaseLater(s.oracle, i, O.Active, s.oracle.txnMark);
    case TakeCommitTs(i) => CommitLater(s.oracle, i);
    case ProcessReadMark => ReceivedLater(s.oracle.readMark, O.ProcessReadMark(s.oracle).readMark);
    case ProcessTxnMark => ReceivedLater(s.oracle.txnMark, O.ProcessTxnMark(s.oracle).txnMark);
    case Discard(i) => DiscardLater(s.oracle, i);
    case _ =>
  }

  lemma DiscardLater(o: O.OracleState, i: nat)
    ensures Later(o, O.Discard(o, i))
  {
  }

  lemma BeginTxnLater(o: O.OracleState)
    requires o.nextTs > 0
    ensures Later(o, O.BeginTxn(o))
  {
  }

  /** A transaction that is not active yet changes its phase. */
  lemma PhaseLater(o: O.OracleState, i: nat, phase: O.TxnPhase, txnMark: Channel)
    requires i < |o.txns| && (o.txns[i].Active? ==> phase.Active?)
    requires txnMark.ts == o.txnMark.ts && txnMark.wm == o.txnMark.wm
    ensures Later(o, O.SetPhase(o, i, phase).(txnMark := txnMark))
  {
  }

  lemma CommitLater(o: O.OracleState, i: nat)
    ensures Later(o, O.TakeCommitTs(o, i))
  {
  }

  lemma ReceivedLater(c: Channel, c': Channel)
    requires Inv(c) && O.Receivable(c) && c' == Receive(c)
    ensures c.wm.doneUntil <= c'.wm.doneUntil && c'.ts == c.ts && c'.closed == c.closed
  {
    ReceiveKeeps(c);
  }

  lemma LaterTransitive(a: O.OracleState, b: O.OracleState, c: O.OracleState)
    requires Later(a, b) && Later(b, c)
    ensures Later(a, c)
  {
  }

  lemma RunStepLater(run: seq<Sys>, maxVersion: nat, k: nat)
    requires IsRun(run, maxVersion) && k + 1 < |run|
    ensures Later(run[k].oracle, run[k + 1].oracle)
  {
    RunInv(run, maxVersion, k);
    assert StepAt(run, k);
    var step :| Enabled(run[k], step) && run[k + 1] == Next(run[k], step);
    StepLater(run[k], step);
  }

  lemma {:induction false} RunLater(run: seq<Sys>, maxVersion: nat, k: nat, m: nat)
    requires IsRun(run, maxVersion) && k <= m < |run|
    ensures Later(run[k].oracle, run[m].oracle)
    decreases m - k
  {
    if k < m {
      RunLater(run, maxVersion, k, m - 1);
      RunStepLater(run, maxVersion, m - 1);
      LaterTransitive(run[k].oracle, run[m - 1].oracle, run[m].oracle);
    }
  }

  // ---------- the discard timestamp ----------

  /** The discard timestamp a compaction samples at `k` is not above the read timestamp of any
      transaction that, at any later point `m`, still reads (its done mark is not sent) or that
      began after `k`. Read timestamp 0 is the exception. */
  lemma DiscardBelowReaders(run: seq<Sys>, maxVersion: nat, k: nat, m: nat, i: nat)
    requires IsRun(run, maxVersion) && k <= m < |run|
    requires i < |run[m].oracle.readMark.ts|
    requires (i !in run[m].oracle.readMark.closed && run[m].oracle.readMark.ts[i] > 0)
          || i >= |run[k].oracle.readMark.ts|
    ensures O.DiscardAtOrBelow(run[k].oracle) <= run[m].oracle.readMark.ts[i]
  {
    RunLater(run, maxVersion, k, m);
    RunInv(run, maxVersion, k);
    RunInv(run, maxVersion, m);
    var a, b := run[k].oracle, run[m].oracle;
    if i >= |a.readMark.ts| {
      O.LastBelow(a);
      NextNotPassed(a.readMark, a.nextTs - 1);
    } else {
      var c := b.readMark;
      LegalBounds(c.queue, c.begun, c.seen, |c.ts|, c.closed);
      UnseenNotPassed(c, i);
    }
  }

  /** It does not lag either: it has reached every begun transaction at or below whose read timestamp no begun
      transaction, at a positive timestamp, has its done mark unprocessed. */
  lemma DiscardReachesDone(run: seq<Sys>, maxVersion: nat, k: nat, i: nat)
    requires IsRun(run, maxVersion) && k < |run| && i < run[k].oracle.readMark.begun
    requires var c := run[k].oracle.readMark;
      i < |c.ts| && forall j :: 0 <= j < c.begun && j < |c.ts| && 0 < c.ts[j] <= c.ts[i] ==> j in c.seen
    ensures run[k].oracle.readMark.ts[i] <= O.DiscardAtOrBelow(run[k].oracle)
  {
    RunInv(run, maxVersion, k);
    var c := run[k].oracle.readMark;
    if c.wm.doneUntil < c.ts[i] {
      var j := WatermarkIsTight(c, i);
    }
  }

  // ---------- snapshots ----------

  /** A request was written, or refused, or all requests of its batch were told of an error. */
  ghost predicate Known(p: W.Pipe, j: nat) {
    j in p.applied || j in p.rejected || exists x: nat :: x in p.failures && x < |p.batches| && j in p.batches[x]
  }

  /** A request that has its result, or is with the publisher, is in the memtable unless its batch failed. */
  lemma SettledIsKnown(p: W.Pipe, j: nat)
    requires W.Outcomes(p) && (j in p.settled || j in p.published)
    ensures Known(p, j)
  {
    assert W.InOver(p, j);
    var x: nat :| W.Over(p, x) && j in p.batches[x];
    if j !in p.applied {
      assert W.Unwritten(p, x);
    }
  }

  /** A transaction that has its read timestamp sees a complete snapshot: every commit at or
      below it has had its done mark processed, so its write is in the memtable, or was refused, or its
      batch failed. */
  lemma SnapshotComplete(run: seq<Sys>, maxVersion: nat, k: nat, i: nat, j: nat)
    requires IsRun(run, maxVersion) && k < |run|
    requires In(run[k], i, O.Active) && j < |run[k].oracle.txnMark.ts|
    requires run[k].oracle.txnMark.ts[j] <= run[k].oracle.readMark.ts[i]
    ensures j in run[k].oracle.txnMark.seen
    ensures j in run[k].pipe.settled || j in run[k].pipe.rejected
    ensures Known(run[k].pipe, j)
  {
    RunInv(run, maxVersion, k);
    var c := run[k].oracle.txnMark;
    LegalBounds(c.queue, c.begun, c.seen, |c.ts|, c.closed);
    if j in run[k].pipe.settled {
      SettledIsKnown(run[k].pipe, j);
    }
  }

  /** Whatever is still on its way to the memtable is newer than every admitted reader. */
  lemma AheadIsNewer(s: Sys, i: nat, j: nat)
    requires SysInv(s) && In(s, i, O.Active) && j in W.Ahead(s.pipe)
    ensures j < |s.oracle.txnMark.ts| && s.oracle.txnMark.ts[j] > s.oracle.readMark.ts[i]
  {
    var c := s.oracle.txnMark;
    LegalBounds(c.queue, c.begun, c.seen, |c.ts|, c.closed);
    assert j in s.pipe.enqueued;
    assert j !in c.closed;
    assert j !in c.seen;
  }

  /** `applied` grows by nothing, or by one request newer than the admitted reader `i`. */
  ghost predicate GrowsAbove(s: Sys, s': Sys, i: nat)
    requires i < |s.oracle.readMark.ts|
  {
    || s'.pipe.applied == s.pipe.applied
    || exists j :: s'.pipe.applied == s.pipe.applied + [j] && NewerThan(s', j, s.oracle.readMark.ts[i])
  }

  ghost predicate NewerThan(s: Sys, j: nat, ts: nat) {
    j < |s.oracle.txnMark.ts| && s.oracle.txnMark.ts[j] > ts
  }

  lemma StepKeepsApplied(s: Sys, step: Step)
    requires Enabled(s, step) && !step.ApplyNext?
    ensures Next(s, step).pipe.applied == s.pipe.applied
  {
  }

  lemma ApplyGrowsAbove(s: Sys, i: nat)
    requires SysInv(s) && Enabled(s, ApplyNext) && In(s, i, O.Active)
    ensures GrowsAbove(s, Next(s, ApplyNext), i)
  {
    var j := s.pipe.batch.reqs[s.pipe.batch.next];
    assert j == W.Rest(s.pipe.batch)[0];
    assert j in W.Ahead(s.pipe);
    AheadIsNewer(s, i, j);
    assert NewerThan(Next(s, ApplyNext), j, s.oracle.readMark.ts[i]);
  }

  lemma RunStepGrowsAbove(run: seq<Sys>, maxVersion: nat, k: nat, i: nat)
    requires IsRun(run, maxVersion) && k + 1 < |run| && In(run[k], i, O.Active)
    ensures GrowsAbove(run[k], run[k + 1], i)
  {
    assert StepAt(run, k);
    var step :| Enabled(run[k], step) && run[k + 1] == Next(run[k], step);
    if step.ApplyNext? {
      RunInv(run, maxVersion, k);
      ApplyGrowsAbove(run[k], i);
    } else {
      StepKeepsApplied(run[k], step);
    }
  }

  /** Between `a` and `b`, only commits newer than transaction `i` reached the memtable. */
  ghost predicate Stable(a: Sys, b: Sys, i: nat) {
    && In(a, i, O.Active) && In(b, i, O.Active)
    && b.oracle.readMark.ts[i] == a.oracle.readMark.ts[i]
    && a.pipe.applied <= b.pipe.applied
    && (forall j :: j in b.pipe.applied[|a.pipe.applied|..] ==> NewerThan(b, j, a.oracle.readMark.ts[i]))
  }

  lemma StableGrows(a: Sys, b: Sys, c: Sys, i: nat)
    requires Stable(a, b, i) && Later(b.oracle, c.oracle) && GrowsAbove(b, c, i)
    requires |c.oracle.txns| == |c.oracle.readMark.ts|
    ensures Stable(a, c, i)
  {
    var n, before, after := |a.pipe.applied|, b.pipe.applied, c.pipe.applied;
    if after != before {
      var j :| after == before + [j] && NewerThan(c, j, b.oracle.readMark.ts[i]);
      assert after[n..] == before[n..] + [j];
    }
  }

  /** Snapshots are stable: after a transaction has been admitted, only commits newer than its
      read timestamp reach the memtable. */
  lemma {:induction false} SnapshotStable(run: seq<Sys>, maxVersion: nat, k: nat, m: nat, i: nat)
    requires IsRun(run, maxVersion) && k <= m < |run| && In(run[k], i, O.Active)
    ensures Stable(run[k], run[m], i)
    decreases m - k
  {
    if k < m {
      SnapshotStable(run, maxVersion, k, m - 1, i);
      RunStepLater(run, maxVersion, m - 1);
      RunStepGrowsAbove(run, maxVersion, m - 1, i);
      assert |run[m].oracle.txns| == |run[m].oracle.readMark.ts| by {
        RunInv(run, maxVersion, m);
      }
      StableGrows(run[k], run[m - 1], run[m], i);
    }
  }

  // ---------- writes ----------

  /** A batch can be spawned exactly when none is in flight and the loop has requests, or is draining an empty
      channel. */
  lemma OneBatchAtATime(run: seq<Sys>, maxVersion: nat, k: nat)
    requires IsRun(run, maxVersion) && k < |run|
    ensures var p := run[k].pipe;
      Enabled(run[k], SpawnBatch) <==> p.batch.Idle? && (p.loc.Inner? || (p.loc.Draining? && p.writeQueue == []))
  {
    RunInv(run, maxVersion, k);
  }

  /** Requests are collected, up to 3000 of them while a batch is in flight. */
  lemma CollectsUpTo3000(s: Sys)
    ensures var p := s.pipe;
      Enabled(s, TakeRequest) <==>
        p.writeQueue != [] && (p.loc.Outer? || p.loc.Draining? || (p.loc.Inner? && |p.buffer| < 3000))
  {
  }

  /** What became of every request, in every run: the running batch has written exactly the requests before its next
      one; a batch that is over is reported as failed if and only if it left a request unwritten; a request has its
      result, or is with the publisher, if and only if its batch is over; and no request is lost on the way. */
  lemma EveryRequestEndsUp(run: seq<Sys>, maxVersion: nat, k: nat)
    requires IsRun(run, maxVersion) && k < |run|
    ensures var p := run[k].pipe;
      && (p.batch.Running? ==>
            forall i :: 0 <= i < |p.batch.reqs| ==> (p.batch.reqs[i] in p.applied <==> i < p.batch.next))
      && (forall x: nat :: W.Over(p, x) ==>
            (x in p.failures <==> exists j :: j in p.batches[x] && j !in p.applied))
      && (forall j :: j in p.settled || j in p.published <==> exists x: nat :: W.Over(p, x) && j in p.batches[x])
      && (forall j :: j in p.settled || j in p.published ==> Known(p, j))
      && (forall j :: 0 <= j < p.issued ==> p.sending == Some(j) || j in p.enqueued || j in p.rejected)
  {
    RunInv(run, maxVersion, k);
    var p := run[k].pipe;
    forall j | j in p.settled || j in p.published
      ensures Known(p, j)
    {
      SettledIsKnown(p, j);
    }
    forall x: nat | W.Over(p, x)
      ensures x in p.failures <==> exists j :: j in p.batches[x] && j !in p.applied
    {
      assert W.Unwritten(p, x) <==> exists j :: j in p.batches[x] && j !in p.applied;
    }
    forall j
      ensures j in p.settled || j in p.published <==> exists x: nat :: W.Over(p, x) && j in p.batches[x]
    {
      assert W.InOver(p, j) <==> exists x: nat :: W.Over(p, x) && j in p.batches[x];
    }
  }

  /** Requests reach the memtable in strictly increasing commit-timestamp order. */
  lemma WritesInCommitOrder(run: seq<Sys>, maxVersion: nat, k: nat, a: nat, b: nat)
    requires IsRun(run, maxVersion) && k < |run| && a < b < |run[k].pipe.applied|
    ensures var ts, applied := run[k].oracle.txnMark.ts, run[k].pipe.applied;
      applied[a] < |ts| && applied[b] < |ts| && ts[applied[a]] < ts[applied[b]]
  {
    RunInv(run, maxVersion, k);
    var p := run[k].pipe;
    AscendingParts(p.applied, W.Ahead(p));
    assert p.applied[a] in p.applied && p.applied[b] in p.applied;
  }

  /** Every request taken from the channel is in exactly one batch or still in the buffer, and
      batches are filled in the order of commit: nothing is lost, doubled or overtaken. */
  lemma EachRequestInOneBatch(run: seq<Sys>, maxVersion: nat, k: nat)
    requires IsRun(run, maxVersion) && k < |run|
    ensures var p := run[k].pipe;
      && p.enqueued == Flatten(p.batches) + p.buffer + p.writeQueue
      && (forall x, y, u, v |
            0 <= x <= y < |p.batches| && 0 <= u < |p.batches[x]| && 0 <= v < |p.batches[y]| && (x < y || u < v) ::
            p.batches[x][u] < p.batches[y][v])
  {
    RunInv(run, maxVersion, k);
    var p := run[k].pipe;
    AscendingParts(Flatten(p.batches) + p.buffer, p.writeQueue);
    AscendingParts(Flatten(p.batches), p.buffer);
    forall x, y, u, v |
      0 <= x <= y < |p.batches| && 0 <= u < |p.batches[x]| && 0 <= v < |p.batches[y]| && (x < y || u < v)
      ensures p.batches[x][u] < p.batches[y][v]
    {
      FlattenSeparates(p.batches, x, y, u, v);
    }
  }

  // ---------- the watermark tasks ----------

  /** No run trips the assertions of the watermark tasks or of the oracle: a mark that is acted
      on is never below its watermark, and the clean-up timestamps never go back. */
  lemma AssertionsHold(run: seq<Sys>, maxVersion: nat, k: nat)
    requires IsRun(run, maxVersion) && k < |run|
    ensures forall c :: c == run[k].oracle.readMark || c == run[k].oracle.txnMark ==>
              && Valid(c.wm)
              && (c.queue != [] && !c.queue[0].Wait? ==>
                    && c.queue[0].session < |c.ts|
                    && (c.ts[c.queue[0].session] > 0 ==> c.wm.doneUntil <= c.ts[c.queue[0].session]))
    ensures run[k].oracle.lastCleanup <= run[k].oracle.readMark.wm.doneUntil < run[k].oracle.nextTs
  {
    RunInv(run, maxVersion, k);
    var o := run[k].oracle;
    forall c | (c == o.readMark || c == o.txnMark) && c.queue != [] && !c.queue[0].Wait?
      ensures c.queue[0].session < |c.ts|
      ensures c.ts[c.queue[0].session] > 0 ==> c.wm.doneUntil <= c.ts[c.queue[0].session]
    {
      HeadNotPassed(c);
    }
    O.LastBelow(o);
    NextNotPassed(o.readMark, o.nextTs - 1);
  }

  /** No lost wake-up: once its mark has been processed, a waiting transaction is notified
      exactly when the transaction watermark has reached its read timestamp. */
  lemma WaiterWokenExactly(run: seq<Sys>, maxVersion: nat, k: nat, i: nat)
    requires IsRun(run, maxVersion) && k < |run| && i in run[k].oracle.txnMark.heard
    ensures i < |run[k].oracle.readMark.ts|
    ensures i in run[k].oracle.txnMark.wm.notified
       <==> run[k].oracle.readMark.ts[i] <= run[k].oracle.txnMark.wm.doneUntil
  {
    RunInv(run, maxVersion, k);
  }
}
