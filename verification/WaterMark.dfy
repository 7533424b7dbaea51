/** The watermark task (src/txn/water_mark.rs): begin and done marks arrive over a channel; it
    counts them per timestamp, advances `done_until` past every timestamp that has no begin
    left open, and notifies whoever waits for a timestamp it has reached. */
module WaterMark {
  import opened Options
  import opened Seqs

  /** `waiter` names the `Notify` object of a caller of `wait_for_mark`. The `indices` vector of
      the source is empty in every mark that is ever sent. */
  datatype Mark = Mark(ts: nat, done: bool, waiter: Option<nat>)

  /** `heap` lists the elements of the min-heap in ascending order; `notified` collects the
      waiters whose `notify_one` was called. */
  datatype State = State(
    doneUntil: nat,
    pending: map<nat, int>,
    heap: seq<nat>,
    waiters: map<nat, seq<nat>>,
    notified: set<nat>)

  function Initial(doneUntil: nat): State {
    State(doneUntil, map[], [], map[], {})
  }

  /** What holds between two marks: heap entries are exactly the pending timestamps, none lies
      below the watermark, the smallest is still open, and whoever waits has not been reached. */
  ghost predicate Valid(s: State) {
    && Ascending(s.heap)
    && (forall t :: t in s.heap <==> t in s.pending)
    && (forall t :: t in s.pending ==> s.doneUntil <= t)
    && (s.heap != [] ==> s.pending[s.heap[0]] < 0)
    && (forall t :: t in s.waiters ==> s.doneUntil < t)
  }

  function Count(pending: map<nat, int>, ts: nat): int {
    if ts in pending then pending[ts] else 0
  }

  function Bump(pending: map<nat, int>, ts: nat, done: bool): map<nat, int> {
    pending[ts := Count(pending, ts) + if done then 1 else -1]
  }

  function Insert(heap: seq<nat>, ts: nat): seq<nat> {
    if heap == [] || ts <= heap[0] then [ts] + heap else [heap[0]] + Insert(heap[1..], ts)
  }

  function PushHeap(s: State, ts: nat): seq<nat> {
    if ts in s.pending then s.heap else Insert(s.heap, ts)
  }

  predicate Open(pending: map<nat, int>, ts: nat) {
    ts in pending && pending[ts] < 0
  }

  /** How many leading heap entries the pop loop removes. */
  function Closed(pending: map<nat, int>, heap: seq<nat>): (n: nat)
    ensures n <= |heap|
    ensures forall i :: 0 <= i < n ==> !Open(pending, heap[i])
    ensures n < |heap| ==> Open(pending, heap[n])
  {
    if heap == [] || Open(pending, heap[0]) then 0 else 1 + Closed(pending, heap[1..])
  }

  function WokenAt(waiters: map<nat, seq<nat>>, at: set<nat>): set<nat> {
    set t, w | t in at && t in waiters && w in waiters[t] :: w
  }

  function Reached(waiters: map<nat, seq<nat>>, until: nat): set<nat> {
    set t | t in waiters && t <= until
  }

  function Woken(waiters: map<nat, seq<nat>>, until: nat): set<nat> {
    WokenAt(waiters, Reached(waiters, until))
  }

  function Sleeping(waiters: map<nat, seq<nat>>, until: nat): map<nat, seq<nat>> {
    map t | t in waiters && until < t :: waiters[t]
  }

  datatype Popped = Popped(until: nat, pending: map<nat, int>, heap: seq<nat>)

  /** The pop loop, started at `doneUntil`. */
  function Pop(doneUntil: nat, pending: map<nat, int>, heap: seq<nat>): Popped {
    var n := Closed(pending, heap);
    if n == 0 then Popped(doneUntil, pending, heap)
    else Popped(heap[n - 1], pending - Elements(heap[..n]), heap[n..])
  }

  /** One begin or done mark. */
  function ProcessOne(s: State, ts: nat, done: bool): State {
    var r := Pop(s.doneUntil, Bump(s.pending, ts, done), PushHeap(s, ts));
    State(r.until, r.pending, r.heap,
          Sleeping(s.waiters, r.until), s.notified + Woken(s.waiters, r.until))
  }

  /** The body of the `select!` arm that received a mark. */
  function Process(s: State, m: Mark): State {
    match m.waiter
    case Some(w) =>
      if s.doneUntil >= m.ts then s.(notified := s.notified + {w})
      else if m.ts in s.waiters then s.(waiters := s.waiters[m.ts := s.waiters[m.ts] + [w]])
      else s.(waiters := s.waiters[m.ts := [w]])
    case None =>
      if m.ts > 0 then ProcessOne(s, m.ts, m.done) else s
  }

  // ---------- facts about the pieces ----------

  lemma {:induction false} InsertSorts(heap: seq<nat>, ts: nat)
    requires Ascending(heap) && ts !in heap
    ensures Ascending(Insert(heap, ts))
    ensures forall t :: t in Insert(heap, ts) <==> t == ts || t in heap
  {
    if heap != [] && ts > heap[0] {
      InsertSorts(heap[1..], ts);
      var r := Insert(heap[1..], ts);
      assert heap == [heap[0]] + heap[1..];
      forall i | 0 <= i < |r|
        ensures heap[0] < r[i]
      {
        assert r[i] in r;
        if r[i] in heap[1..] {
          var j :| 0 <= j < |heap[1..]| && heap[1..][j] == r[i];
          assert heap[j + 1] == r[i];
        }
      }
      AscendingCons(heap[0], r);
    }
  }

  lemma AscendingCons(x: nat, r: seq<nat>)
    requires Ascending(r) && forall i :: 0 <= i < |r| ==> x < r[i]
    ensures Ascending([x] + r)
  {
  }

  lemma PushHeapSorts(s: State, ts: nat, done: bool)
    requires Valid(s)
    ensures Ascending(PushHeap(s, ts))
    ensures forall t :: t in PushHeap(s, ts) <==> t in Bump(s.pending, ts, done)
  {
    if ts !in s.pending {
      InsertSorts(s.heap, ts);
    }
  }

  /** Cutting an ascending list keeps the smaller elements on the left. */
  lemma CutSplits(heap: seq<nat>, n: nat, t: nat)
    requires Ascending(heap) && 0 < n <= |heap|
    ensures t in heap[..n] <==> t in heap && t <= heap[n - 1]
    ensures t in heap[n..] <==> t in heap && t > heap[n - 1]
    ensures Ascending(heap[n..])
  {
    if t in heap {
      var i :| 0 <= i < |heap| && heap[i] == t;
      if i < n {
        assert heap[..n][i] == t;
      } else {
        assert heap[n..][i - n] == t;
      }
    }
  }

  /** Heap entries are exactly the pending timestamps, none below the watermark. */
  ghost predicate Tracks(doneUntil: nat, pending: map<nat, int>, heap: seq<nat>) {
    && Ascending(heap)
    && (forall t :: t in heap <==> t in pending)
    && (forall t :: t in pending ==> doneUntil <= t)
  }

  /** What becomes of one timestamp when the pop loop moves the mark. */
  lemma PopMoves(doneUntil: nat, pending: map<nat, int>, heap: seq<nat>, t: nat)
    requires Tracks(doneUntil, pending, heap) && Closed(pending, heap) > 0
    ensures var r := Pop(doneUntil, pending, heap);
      && Ascending(r.heap)
      && (t in r.heap <==> t in pending && r.until < t)
      && (t in r.pending <==> t in pending && r.until < t)
      && (Open(pending, t) ==> r.until < t)
  {
    var n := Closed(pending, heap);
    CutSplits(heap, n, t);
    if t in heap[..n] {
      var i :| 0 <= i < n && heap[..n][i] == t;
      assert heap[i] == t;
    }
  }

  /** The pop loop: whatever is open or above the new mark stays, everything else goes. */
  lemma PopFacts(doneUntil: nat, pending: map<nat, int>, heap: seq<nat>)
    requires Tracks(doneUntil, pending, heap)
    ensures var r := Pop(doneUntil, pending, heap);
      && doneUntil <= r.until
      && Tracks(r.until, r.pending, r.heap)
      && (r.heap != [] ==> Open(r.pending, r.heap[0]))
      && (forall t :: t in r.pending ==> t in pending && r.pending[t] == pending[t])
      && (forall t :: t in pending && (Open(pending, t) || r.until < t) ==> t in r.pending)
      && (r.until != doneUntil ==> r.until in pending && forall t :: t in r.pending ==> r.until < t)
  {
    var n := Closed(pending, heap);
    if n > 0 {
      var r := Pop(doneUntil, pending, heap);
      assert heap[n - 1] in heap;
      PopMoves(doneUntil, pending, heap, 0);
      forall t
        ensures t in r.heap <==> t in pending && r.until < t
        ensures t in r.pending <==> t in pending && r.until < t
        ensures Open(pending, t) ==> r.until < t
      {
        PopMoves(doneUntil, pending, heap, t);
      }
      if r.heap != [] {
        assert r.heap[0] == heap[n] && r.heap[0] in r.heap;
      }
    }
  }

  /** Every mark keeps the watermark's invariant, provided its timestamp is not below the
      watermark -- the condition of the source's assertion. */
  lemma ProcessOneKeepsValid(s: State, ts: nat, done: bool)
    requires Valid(s) && s.doneUntil <= ts
    ensures Valid(ProcessOne(s, ts, done))
    ensures s.doneUntil <= ProcessOne(s, ts, done).doneUntil
  {
    PushHeapSorts(s, ts, done);
    PopFacts(s.doneUntil, Bump(s.pending, ts, done), PushHeap(s, ts));
  }

  /** Which timestamps survive a mark, and where the watermark goes. */
  ghost predicate Marked(s: State, ts: nat, done: bool, s': State) {
    var p := Bump(s.pending, ts, done);
    && s.doneUntil <= s'.doneUntil
    && (forall t :: t in s'.pending ==> t in p && s'.pending[t] == p[t])
    && (forall t :: t in p && (Open(p, t) || s'.doneUntil < t) ==> t in s'.pending)
    && (s'.doneUntil != s.doneUntil ==> s'.doneUntil in p && forall t :: t in s'.pending ==> s'.doneUntil < t)
  }

  ghost predicate WaitsUpTo(s: State, w: nat, until: nat) {
    exists t :: t in s.waiters && t <= until && w in s.waiters[t]
  }

  /** The waiters that were reached, and only those, moved to `notified`. */
  ghost predicate Woke(s: State, s': State) {
    && s.doneUntil <= s'.doneUntil
    && (forall t :: t in s'.waiters ==> t in s.waiters && s'.waiters[t] == s.waiters[t])
    && (forall t :: t in s.waiters && s'.doneUntil < t ==> t in s'.waiters)
    && (forall w :: w in s'.notified <==> w in s.notified || WaitsUpTo(s, w, s'.doneUntil))
  }

  lemma NotifyWakes(s: State, s': State)
    requires s.doneUntil <= s'.doneUntil
    requires s'.waiters == Sleeping(s.waiters, s'.doneUntil)
    requires s'.notified == s.notified + Woken(s.waiters, s'.doneUntil)
    ensures Woke(s, s')
  {
    forall w
      ensures w in Woken(s.waiters, s'.doneUntil) <==> WaitsUpTo(s, w, s'.doneUntil)
    {
      if WaitsUpTo(s, w, s'.doneUntil) {
        var t :| t in s.waiters && t <= s'.doneUntil && w in s.waiters[t];
        assert t in Reached(s.waiters, s'.doneUntil);
      }
    }
  }

  lemma ProcessOneMarks(s: State, ts: nat, done: bool)
    requires Valid(s) && s.doneUntil <= ts
    ensures var s' := ProcessOne(s, ts, done);
      Valid(s') && Marked(s, ts, done, s') && Woke(s, s')
  {
    ProcessOneKeepsValid(s, ts, done);
    PushHeapSorts(s, ts, done);
    PopFacts(s.doneUntil, Bump(s.pending, ts, done), PushHeap(s, ts));
    assert Marked(s, ts, done, ProcessOne(s, ts, done));
    NotifyWakes(s, ProcessOne(s, ts, done));
  }

  /** A begin mark never moves the watermark. */
  lemma BeginKeepsDoneUntil(s: State, ts: nat)
    requires Valid(s) && s.doneUntil <= ts
    requires forall t :: t in s.pending ==> s.pending[t] <= 0
    ensures ProcessOne(s, ts, false).doneUntil == s.doneUntil
  {
    PushHeapSorts(s, ts, false);
    var p, heap := Bump(s.pending, ts, false), PushHeap(s, ts);
    if heap[0] != ts {
      assert heap[0] in s.heap;
      if s.heap[0] != heap[0] {
        assert s.heap[0] in heap;
      }
    }
    assert Open(p, heap[0]);
  }

  /** The two ways of notifying have the same effect: walking `done_until + 1 ..= until`
      meets the same waiters as scanning the whole table for timestamps up to `until`. */
  lemma NotificationBranchesAgree(s: State, until: nat)
    requires Valid(s) && s.doneUntil <= until
    ensures var walked := set t | t in s.waiters && s.doneUntil < t <= until;
      && Woken(s.waiters, until) == WokenAt(s.waiters, walked)
      && Sleeping(s.waiters, until) == s.waiters - walked
  {
    assert Reached(s.waiters, until) == set t | t in s.waiters && s.doneUntil < t <= until;
  }

  lemma WokenAtAdd(waiters: map<nat, seq<nat>>, at: set<nat>, t: nat)
    ensures WokenAt(waiters, at + {t})
         == WokenAt(waiters, at) + if t in waiters then Elements(waiters[t]) else {}
  {
  }

  lemma {:induction false} ClosedForgets(pending: map<nat, int>, heap: seq<nat>, x: nat)
    requires x !in heap
    ensures Closed(pending - {x}, heap) == Closed(pending, heap)
  {
    if heap != [] {
      ClosedForgets(pending, heap[1..], x);
    }
  }

  /** One iteration of the pop loop. */
  lemma PopStep(doneUntil: nat, pending: map<nat, int>, heap: seq<nat>)
    requires Ascending(heap) && heap != [] && !Open(pending, heap[0])
    ensures Pop(heap[0], pending - {heap[0]}, heap[1..]) == Pop(doneUntil, pending, heap)
  {
    var x, rest := heap[0], heap[1..];
    ClosedForgets(pending, rest, x);
    var n := Closed(pending, rest);
    assert heap[..n + 1] == [x] + rest[..n];
    ElementsCons(x, rest[..n]);
    if n > 0 {
      assert pending - {x} - Elements(rest[..n]) == pending - Elements(heap[..n + 1]);
      assert heap[1..][n..] == heap[n + 1..];
    }
  }

  lemma PopNotBack(doneUntil: nat, pending: map<nat, int>, heap: seq<nat>)
    requires Tracks(doneUntil, pending, heap)
    ensures doneUntil <= Pop(doneUntil, pending, heap).until && Ascending(heap)
  {
    PopFacts(doneUntil, pending, heap);
  }

  lemma ElementsCons(x: nat, s: seq<nat>)
    ensures Elements([x] + s) == {x} + Elements(s)
  {
    forall t
      ensures t in Elements([x] + s) <==> t in {x} + Elements(s)
    {
      assert t in [x] + s <==> t == x || t in s;
    }
  }

  lemma ProcessKeepsValid(s: State, m: Mark)
    requires Valid(s)
    requires m.waiter.None? && m.ts > 0 ==> s.doneUntil <= m.ts
    ensures Valid(Process(s, m))
    ensures s.doneUntil <= Process(s, m).doneUntil
    ensures s.notified <= Process(s, m).notified
  {
    if m.waiter.None? && m.ts > 0 {
      ProcessOneKeepsValid(s, m.ts, m.done);
    }
  }

  // ---------- the watermark task ----------

  class WaterMarkTask {
    var doneUntil: nat
    var pending: map<nat, int>
    var minHeap: seq<nat>
    var waiters: map<nat, seq<nat>>
    var notified: set<nat>

    ghost function Abs(): State
      reads this
    {
      State(doneUntil, pending, minHeap, waiters, notified)
    }

    constructor (start: nat)
      ensures Abs() == Initial(start) && Valid(Abs())
    {
      doneUntil, pending, minHeap, waiters, notified := start, map[], [], map[], {};
    }

    /** The `process_one` closure. */
    method ApplyOne(ts: nat, done: bool)
      requires Valid(Abs()) && doneUntil <= ts
      modifies this
      ensures Valid(Abs())
      ensures Abs() == ProcessOne(old(Abs()), ts, done)
    {
      ProcessOneKeepsValid(Abs(), ts, done);
      CountMark(ts, done);
      var until := PopHeap();
      var before := doneUntil;
      doneUntil := until;
      if until - before <= |waiters| {
        WalkRange(before, until);
      } else {
        ScanAll(until);
      }
    }

    method CountMark(ts: nat, done: bool)
      requires Valid(Abs()) && doneUntil <= ts
      modifies this`pending, this`minHeap
      ensures pending == Bump(old(pending), ts, done)
      ensures minHeap == PushHeap(old(Abs()), ts)
      ensures Tracks(doneUntil, pending, minHeap)
    {
      PushHeapSorts(Abs(), ts, done);
      if ts in pending {
        pending := pending[ts := pending[ts] + if done then 1 else -1];
      } else {
        minHeap := Insert(minHeap, ts);
        pending := pending[ts := if done then 1 else -1];
      }
    }

    method PopHeap() returns (until: nat)
      requires Tracks(doneUntil, pending, minHeap)
      modifies this`pending, this`minHeap
      ensures doneUntil <= until
      ensures Popped(until, pending, minHeap) == Pop(doneUntil, old(pending), old(minHeap))
    {
      PopNotBack(doneUntil, pending, minHeap);
      until := doneUntil;
      while |minHeap| > 0
        invariant Ascending(minHeap)
        invariant Pop(until, pending, minHeap) == Pop(doneUntil, old(pending), old(minHeap))
      {
        var min := minHeap[0];
        if min in pending && pending[min] < 0 {
          break;
        }
        PopStep(until, pending, minHeap);
        minHeap := minHeap[1..];
        pending := pending - {min};
        until := min;
      }
    }

    /** Notify `before + 1 ..= until`, one timestamp at a time. */
    method WalkRange(before: nat, until: nat)
      requires before <= until
      requires forall t :: t in waiters ==> before < t
      modifies this`waiters, this`notified
      ensures waiters == Sleeping(old(waiters), until)
      ensures notified == old(notified) + Woken(old(waiters), until)
    {
      ghost var all := waiters;
      assert Sleeping(all, before) == all && Reached(all, before) == {};
      for idx := before + 1 to until + 1
        invariant waiters == Sleeping(all, idx - 1)
        invariant notified == old(notified) + Woken(all, idx - 1)
      {
        if idx in waiters {
          notified := notified + Elements(waiters[idx]);
        }
        WokenAtAdd(all, Reached(all, idx - 1), idx);
        assert Reached(all, idx) == Reached(all, idx - 1) + if idx in all then {idx} else {};
        waiters := waiters - {idx};
        assert waiters == Sleeping(all, idx);
      }
    }

    /** Notify every table entry up to `until`, in the table's own order, then remove them. */
    method ScanAll(until: nat)
      modifies this`waiters, this`notified
      ensures waiters == Sleeping(old(waiters), until)
      ensures notified == old(notified) + Woken(old(waiters), until)
    {
      var rest := waiters.Keys;
      var needRemove: set<nat> := {};
      while rest != {}
        invariant waiters == old(waiters) && rest <= waiters.Keys
        invariant needRemove == Reached(waiters, until) - rest
        invariant notified == old(notified) + WokenAt(waiters, needRemove)
        decreases |rest|
      {
        var t :| t in rest;
        if t <= until {
          notified := notified + Elements(waiters[t]);
          WokenAtAdd(waiters, needRemove, t);
          needRemove := needRemove + {t};
        }
        rest := rest - {t};
      }
      assert needRemove == Reached(waiters, until);
      waiters := waiters - needRemove;
      assert waiters == Sleeping(old(waiters), until);
    }

    /** One message of the channel. */
    method Receive(m: Mark)
      requires Valid(Abs())
      requires m.waiter.None? && m.ts > 0 ==> doneUntil <= m.ts
      modifies this
      ensures Valid(Abs())
      ensures Abs() == Process(old(Abs()), m)
    {
      match m.waiter
      case Some(w) =>
        if doneUntil >= m.ts {
          notified := notified + {w};
        } else if m.ts in waiters {
          waiters := waiters[m.ts := waiters[m.ts] + [w]];
        } else {
          waiters := waiters[m.ts := [w]];
        }
      case None =>
        if m.ts > 0 {
          ApplyOne(m.ts, m.done);
        }
    }
  }
}
