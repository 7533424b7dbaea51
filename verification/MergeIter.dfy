/** The merge of sorted streams by a tree of two-way merges (`SinkMergeIter`, src/table/iter.rs:257-474), read
    forwards. A tree owns its children, so that it is a value here, and a step gives the new tree. */
module MergeIters {
  import opened Options
  import opened Bytes
  import opened Keys
  import opened Blocks

  /** A leaf has delivered the first `taken` of its rows. An empty `temp` is a merge that was not started. */
  datatype Iter =
    | Leaf(rows: seq<Row>, taken: nat)
    | Merge(left: Node, right: Option<Node>, temp: Bytes, leftSmall: bool)

  datatype Node = Node(valid: bool, iter: Iter)

  // ---------- building a tree ----------

  /** `SinkMergeIter::new` on at least one iterator. */
  function New(iters: seq<Iter>): Iter
    requires iters != []
  {
    var n := |iters|;
    if n == 1 then Merge(Node(true, iters[0]), None, [], true)
    else if n == 2 then Merge(Node(true, iters[0]), Some(Node(true, iters[1])), [], true)
    else Merge(Node(true, New(iters[..n / 2])), Some(Node(true, New(iters[n / 2..]))), [], true)
  }

  /** Every merge has a right child. */
  ghost predicate TwoChildren(it: Iter) {
    it.Merge? ==> it.right.Some? && TwoChildren(it.left.iter) && TwoChildren(it.right.value.iter)
  }

  predicate PowerOfTwo(n: nat) {
    n == 2 || (n > 2 && n % 2 == 0 && PowerOfTwo(n / 2))
  }

  /** The tree has two children everywhere exactly for 2, 4, 8, ... streams. */
  lemma {:induction false} TwoChildrenIff(iters: seq<Iter>)
    requires iters != [] && forall it :: it in iters ==> it.Leaf?
    ensures TwoChildren(New(iters)) <==> PowerOfTwo(|iters|)
    decreases |iters|
  {
    var n := |iters|;
    if n == 2 {
      assert iters[0] in iters && iters[1] in iters;
    } else if n > 2 {
      var l, r := iters[..n / 2], iters[n / 2..];
      TwoChildrenIff(l);
      TwoChildrenIff(r);
      Halves(n);
    }
  }

  lemma {:induction false} Halves(n: nat)
    requires n > 2
    ensures PowerOfTwo(n) <==> PowerOfTwo(n / 2) && PowerOfTwo(n - n / 2)
  {
    var h := n / 2;
    if n == 2 * h {
      assert n % 2 == 0 && n - h == h;
    } else {
      assert n % 2 == 1 && n - h == h + 1;
      assert PowerOfTwo(h) ==> h % 2 == 0;
    }
  }

  // ---------- merging two lists ----------

  /** The merge of two lists. Of rows with the same key that of the first list is kept; when the second list gets
      ahead, the two change places. */
  ghost function Zip(lt: Order, a: seq<Row>, b: seq<Row>): seq<Row>
    decreases |a| + |b|
  {
    if a == [] then b
    else if b == [] then a
    else if lt(a[0].key, b[0].key) then [a[0]] + Zip(lt, a[1..], b)
    else if a[0].key == b[0].key then [a[0]] + Zip(lt, a[1..], b[1..])
    else [b[0]] + Zip(lt, b[1..], a)
  }

  ghost predicate Ascending(lt: Order, rows: seq<Row>) {
    forall i, j :: 0 <= i < j < |rows| ==> lt(rows[i].key, rows[j].key)
  }

  /** `k` is before all of the rows. */
  ghost predicate Ahead(lt: Order, k: SerializedKey, rows: seq<Row>) {
    forall i :: 0 <= i < |rows| ==> lt(k, rows[i].key)
  }

  lemma AscendingCons(lt: Order, row: Row, rows: seq<Row>)
    ensures Ascending(lt, [row] + rows) <==> Ahead(lt, row.key, rows) && Ascending(lt, rows)
  {
    var all := [row] + rows;
    if Ascending(lt, all) {
      forall i, j | 0 <= i < j < |rows|
        ensures lt(rows[i].key, rows[j].key)
      {
        assert all[i + 1] == rows[i] && all[j + 1] == rows[j];
      }
      forall i | 0 <= i < |rows|
        ensures lt(row.key, rows[i].key)
      {
        assert all[0] == row && all[i + 1] == rows[i];
      }
    }
  }

  lemma AscendingSplit(lt: Order, rows: seq<Row>)
    requires Ascending(lt, rows) && rows != []
    ensures Ahead(lt, rows[0].key, rows[1..]) && Ascending(lt, rows[1..])
  {
    assert rows == [rows[0]] + rows[1..];
    AscendingCons(lt, rows[0], rows[1..]);
  }

  lemma AheadCons(lt: Order, k: SerializedKey, rows: seq<Row>)
    requires StrictTotalOrder(lt) && rows != [] && lt(k, rows[0].key) && Ahead(lt, rows[0].key, rows[1..])
    ensures Ahead(lt, k, rows)
  {
    forall i | 0 <= i < |rows|
      ensures lt(k, rows[i].key)
    {
      assert i > 0 ==> rows[1..][i - 1] == rows[i];
    }
  }

  lemma {:induction false} ZipAhead(lt: Order, k: SerializedKey, a: seq<Row>, b: seq<Row>)
    requires Ahead(lt, k, a) && Ahead(lt, k, b)
    ensures Ahead(lt, k, Zip(lt, a, b))
    decreases |a| + |b|
  {
    if a != [] && b != [] {
      ZipAhead(lt, k, a[1..], b);
      ZipAhead(lt, k, a[1..], b[1..]);
      ZipAhead(lt, k, b[1..], a);
    }
  }

  /** Merging keeps the order. */
  lemma {:induction false} ZipAscending(lt: Order, a: seq<Row>, b: seq<Row>)
    requires StrictTotalOrder(lt) && Ascending(lt, a) && Ascending(lt, b)
    ensures Ascending(lt, Zip(lt, a, b))
    decreases |a| + |b|, 0
  {
    if a != [] && b != [] {
      AscendingSplit(lt, a);
      AscendingSplit(lt, b);
      if lt(a[0].key, b[0].key) {
        AheadCons(lt, a[0].key, b);
        ZipFirst(lt, a[0], a[1..], b);
      } else if a[0].key == b[0].key {
        ZipFirst(lt, a[0], a[1..], b[1..]);
      } else {
        AheadCons(lt, b[0].key, a);
        ZipFirst(lt, b[0], b[1..], a);
      }
    }
  }

  lemma {:induction false} ZipFirst(lt: Order, row: Row, a: seq<Row>, b: seq<Row>)
    requires StrictTotalOrder(lt) && Ascending(lt, a) && Ascending(lt, b)
    requires Ahead(lt, row.key, a) && Ahead(lt, row.key, b)
    ensures Ascending(lt, [row] + Zip(lt, a, b))
    decreases |a| + |b|, 1
  {
    ZipAscending(lt, a, b);
    ZipAhead(lt, row.key, a, b);
    AscendingCons(lt, row, Zip(lt, a, b));
  }

  ghost function KeysOf(rows: seq<Row>): set<SerializedKey> {
    set r | r in rows :: r.key
  }

  lemma KeysOfCons(row: Row, rows: seq<Row>)
    ensures KeysOf([row] + rows) == {row.key} + KeysOf(rows)
  {
    assert row in [row] + rows;
    assert forall r :: r in rows ==> r in [row] + rows;
  }

  lemma KeysOfSplit(rows: seq<Row>)
    requires rows != []
    ensures KeysOf(rows) == {rows[0].key} + KeysOf(rows[1..])
  {
    assert rows == [rows[0]] + rows[1..];
    KeysOfCons(rows[0], rows[1..]);
  }

  /** Merging loses no key and makes up no row. */
  lemma {:induction false} ZipHasAll(lt: Order, a: seq<Row>, b: seq<Row>)
    ensures KeysOf(Zip(lt, a, b)) == KeysOf(a) + KeysOf(b)
    ensures forall r :: r in Zip(lt, a, b) ==> r in a || r in b
    decreases |a| + |b|
  {
    if a != [] && b != [] {
      KeysOfSplit(a);
      KeysOfSplit(b);
      if lt(a[0].key, b[0].key) {
        ZipHasAll(lt, a[1..], b);
        KeysOfCons(a[0], Zip(lt, a[1..], b));
      } else if a[0].key == b[0].key {
        ZipHasAll(lt, a[1..], b[1..]);
        KeysOfCons(a[0], Zip(lt, a[1..], b[1..]));
      } else {
        ZipHasAll(lt, b[1..], a);
        KeysOfCons(b[0], Zip(lt, b[1..], a));
      }
    }
  }

  // ---------- what is still to come ----------

  /** `key` and `value`. */
  function RowOf(it: Iter): Option<Row> {
    match it
    case Leaf(rows, taken) => if 0 < taken <= |rows| then Some(rows[taken - 1]) else None
    case Merge(left, right, _, leftSmall) =>
      if leftSmall then NodeRow(left) else if right.Some? then NodeRow(right.value) else None
  }

  function NodeRow(n: Node): Option<Row> {
    if n.valid then RowOf(n.iter) else None
  }

  function Cursor(n: Node): seq<Row> {
    if NodeRow(n).Some? then [NodeRow(n).value] else []
  }

  /** The rows that will be delivered. */
  ghost function Pending(lt: Order, it: Iter): seq<Row> {
    match it
    case Leaf(rows, taken) => if taken <= |rows| then rows[taken..] else []
    case Merge(left, right, temp, leftSmall) =>
      if right.None? then []
      else if leftSmall then Zip(lt, After(lt, left, temp), Rest(lt, right.value))
      else Zip(lt, After(lt, right.value, temp), Rest(lt, left))
  }

  /** The row at the cursor and those after it. */
  ghost function Rest(lt: Order, n: Node): seq<Row> {
    if n.valid then Cursor(n) + Pending(lt, n.iter) else []
  }

  /** The same, without the row at the cursor if that was delivered. */
  ghost function After(lt: Order, n: Node, temp: Bytes): seq<Row> {
    if !n.valid then []
    else if NodeRow(n).Some? && NodeRow(n).value.key == temp then Pending(lt, n.iter)
    else Cursor(n) + Pending(lt, n.iter)
  }

  ghost function Height(it: Iter): nat {
    match it
    case Leaf(_, _) => 0
    case Merge(left, right, _, _) =>
      var l, r := Height(left.iter), if right.Some? then Height(right.value.iter) else 0;
      1 + if l > r then l else r
  }

  /** Rows to come, and one more step to find out that there are none. */
  ghost function Work(lt: Order, n: Node): nat {
    |Pending(lt, n.iter)| + if n.valid then 1 else 0
  }

  // ---------- states ----------

  ghost predicate NodeOk(lt: Order, n: Node) {
    && IterOk(lt, n.iter) && Ascending(lt, Full(lt, n.iter)) && (!n.valid ==> Pending(lt, n.iter) == [])
  }

  ghost function Full(lt: Order, it: Iter): seq<Row> {
    (if RowOf(it).Some? then [RowOf(it).value] else []) + Pending(lt, it)
  }

  /** The cursor of `small` is before that of `big`. */
  ghost predicate Apart(lt: Order, small: Node, big: Node) {
    NodeRow(small).Some? && (big.valid ==> NodeRow(big).Some? && lt(NodeRow(small).value.key, NodeRow(big).value.key))
  }

  /** The state of a merge between two calls: exhausted, not started, or with the cursor of the smaller child on the
      key last delivered and that of the other child beyond it. */
  ghost predicate AtRest(lt: Order, small: Node, big: Node, temp: Bytes) {
    || (!small.valid && !big.valid)
    || (small.valid && NodeRow(small) == NodeRow(big) == None && temp == [])
    || (small.valid && Apart(lt, small, big) && NodeRow(small).value.key == temp)
  }

  ghost predicate IterOk(lt: Order, it: Iter) {
    match it
    case Leaf(rows, taken) => taken <= |rows| && Ascending(lt, rows)
    case Merge(left, right, temp, leftSmall) =>
      && right.Some? && NodeOk(lt, left) && NodeOk(lt, right.value)
      && AtRest(lt, if leftSmall then left else right.value, if leftSmall then right.value else left, temp)
  }

  /** What one step from `it` to `it'` has to do: deliver the next row, or nothing if none is left. */
  ghost predicate Steps(lt: Order, it: Iter, moved: bool, it': Iter) {
    && moved == (Pending(lt, it) != [])
    && (moved ==> RowOf(it') == Some(Pending(lt, it)[0]) && Pending(lt, it') == Pending(lt, it)[1..])
    && (!moved ==> Pending(lt, it') == [])
    && IterOk(lt, it') && Ascending(lt, Full(lt, it')) && Height(it') == Height(it)
  }

  /** Nothing was taken yet; a merge may have one child only. */
  ghost predicate FreshTree(lt: Order, it: Iter) {
    match it
    case Leaf(rows, taken) => taken == 0 && Ascending(lt, rows)
    case Merge(left, right, temp, leftSmall) =>
      && temp == [] && leftSmall && left.valid && FreshTree(lt, left.iter)
      && (right.Some? ==> right.value.valid && FreshTree(lt, right.value.iter))
  }

  lemma {:induction false} FreshHasNoRow(lt: Order, it: Iter)
    requires FreshTree(lt, it)
    ensures RowOf(it) == None
  {
    if it.Merge? {
      FreshHasNoRow(lt, it.left.iter);
    }
  }

  /** A fresh tree with two children everywhere is ready to be stepped. */
  lemma {:induction false} FreshIsOk(lt: Order, it: Iter)
    requires StrictTotalOrder(lt) && FreshTree(lt, it) && TwoChildren(it)
    ensures IterOk(lt, it) && Ascending(lt, Pending(lt, it)) && Ascending(lt, Full(lt, it))
  {
    FreshHasNoRow(lt, it);
    assert Full(lt, it) == Pending(lt, it);
    if it.Merge? {
      var l, r := it.left, it.right.value;
      FreshIsOk(lt, l.iter);
      FreshIsOk(lt, r.iter);
      FreshHasNoRow(lt, l.iter);
      FreshHasNoRow(lt, r.iter);
      FreshMergeOk(lt, it);
    } else {
      assert it.rows[0..] == it.rows;
    }
  }

  lemma FreshMergeOk(lt: Order, it: Iter)
    requires StrictTotalOrder(lt) && it.Merge? && it.temp == [] && it.leftSmall && it.right.Some?
    requires NodeOk(lt, it.left) && it.left.valid && RowOf(it.left.iter) == None
    requires NodeOk(lt, it.right.value) && it.right.value.valid && RowOf(it.right.value.iter) == None
    ensures IterOk(lt, it) && Ascending(lt, Pending(lt, it))
  {
    var l, r := it.left, it.right.value;
    assert Full(lt, l.iter) == Pending(lt, l.iter) && Full(lt, r.iter) == Pending(lt, r.iter);
    assert After(lt, l, []) == Pending(lt, l.iter) && Rest(lt, r) == Pending(lt, r.iter);
    ZipAscending(lt, Pending(lt, l.iter), Pending(lt, r.iter));
  }

  lemma {:induction false} OkHasTwo(lt: Order, it: Iter)
    requires IterOk(lt, it)
    ensures TwoChildren(it)
  {
    if it.Merge? {
      OkHasTwo(lt, it.left.iter);
      OkHasTwo(lt, it.right.value.iter);
    }
  }

  // ---------- one step of a child ----------

  /** What a step means for a child of a merge: its cursor moves to the next of its rows. */
  ghost predicate Pulled(lt: Order, n: Node, moved: bool, n': Node) {
    && NodeOk(lt, n') && n'.valid == moved == NodeRow(n').Some? && Rest(lt, n') == Pending(lt, n.iter)
    && Height(n'.iter) == Height(n.iter) && Work(lt, n') < Work(lt, n)
  }

  lemma StepPulls(lt: Order, n: Node, moved: bool, n': Node)
    requires NodeOk(lt, n) && n.valid && Steps(lt, n.iter, moved, n'.iter) && n'.valid == moved
    ensures Pulled(lt, n, moved, n')
  {
    var p := Pending(lt, n.iter);
    if moved {
      assert p == [p[0]] + p[1..];
    }
  }

  /** `SinkMergeNode::next`. `ok` is false where the source panics. */
  method NodeNext(lt: Order, n: Node) returns (ok: bool, moved: bool, n': Node)
    requires StrictTotalOrder(lt) && n.valid && (NodeOk(lt, n) || FreshTree(lt, n.iter))
    ensures NodeOk(lt, n) ==> ok && Pulled(lt, n, moved, n')
    ensures FreshTree(lt, n.iter) ==> (ok <==> TwoChildren(n.iter))
    decreases Height(n.iter), 2
  {
    var it;
    ok, moved, it := Next(lt, n.iter);
    n' := Node(moved, it);
    if NodeOk(lt, n) {
      StepPulls(lt, n, moved, n');
    }
  }

  /** `next` of a leaf. */
  method LeafNext(lt: Order, it: Iter) returns (moved: bool, it': Iter)
    requires IterOk(lt, it) && it.Leaf?
    ensures Steps(lt, it, moved, it')
  {
    if it.taken == |it.rows| {
      LeafAscending(lt, it);
      return false, it;
    }
    moved, it' := true, it.(taken := it.taken + 1);
    LeafAscending(lt, it');
  }

  lemma LeafAscending(lt: Order, it: Iter)
    requires IterOk(lt, it) && it.Leaf?
    ensures Ascending(lt, Full(lt, it))
  {
    var from := if it.taken == 0 then 0 else it.taken - 1;
    assert Full(lt, it) == it.rows[from..];
  }

  /** `next`, for any tree between two calls, and the first one for a fresh tree of any shape. `ok` is false where the
      source panics: the first step of a fresh tree is all right if and only if each of its merges has two children. */
  method Next(lt: Order, it: Iter) returns (ok: bool, moved: bool, it': Iter)
    requires StrictTotalOrder(lt) && (IterOk(lt, it) || FreshTree(lt, it))
    ensures IterOk(lt, it) ==> ok && Steps(lt, it, moved, it')
    ensures FreshTree(lt, it) ==> (ok <==> TwoChildren(it))
    decreases Height(it), 1
  {
    if it.Leaf? {
      moved, it' := LeafNext(lt, it);
      ok := true;
    } else {
      ok, moved, it' := MergeNext(lt, it);
    }
  }

  // ---------- one round of the loop ----------

  /** The smaller child is about to be advanced: not started, or with its cursor on the key last delivered. */
  ghost predicate Ready(lt: Order, small: Node, big: Node, temp: Bytes, goal: seq<Row>) {
    && small.valid && goal == Zip(lt, Pending(lt, small.iter), Rest(lt, big))
    && (|| (NodeRow(small) == NodeRow(big) == None && temp == [])
        || (Apart(lt, small, big) && NodeRow(small).value.key == temp))
  }

  /** The cursor of the smaller child is on the next row to deliver. */
  ghost predicate Found(lt: Order, small: Node, big: Node, temp: Bytes, goal: seq<Row>) {
    && small.valid && Apart(lt, small, big) && NodeRow(small).value.key != temp
    && goal == [NodeRow(small).value] + Zip(lt, Pending(lt, small.iter), Rest(lt, big))
  }

  ghost predicate InLoop(lt: Order, small: Node, big: Node, temp: Bytes, goal: seq<Row>) {
    (!small.valid && !big.valid && goal == []) || Ready(lt, small, big, temp, goal) || Found(lt, small, big, temp, goal)
  }

  /** A child whose cursor was not delivered yet. */
  ghost predicate Undelivered(n: Node, temp: Bytes) {
    n.valid ==> if NodeRow(n).Some? then NodeRow(n).value.key != temp else temp == []
  }

  lemma AfterPull(lt: Order, small: Node, s: Node, moved: bool, big: Node, temp: Bytes, goal: seq<Row>)
    requires StrictTotalOrder(lt) && NodeOk(lt, small) && NodeOk(lt, big) && Ready(lt, small, big, temp, goal)
    requires Pulled(lt, small, moved, s)
    ensures goal == Zip(lt, Rest(lt, s), Rest(lt, big)) && Undelivered(s, temp) && Undelivered(big, temp)
  {
    if moved && NodeRow(small).Some? {
      var p := Pending(lt, small.iter);
      AscendingCons(lt, NodeRow(small).value, p);
      assert p[0] == NodeRow(s).value;
    }
  }

  lemma ZipNil(lt: Order, a: seq<Row>)
    ensures Zip(lt, a, []) == a && Zip(lt, [], a) == a
  {
  }

  /** One of the two is exhausted; the other is `n`. */
  lemma OnlyOne(lt: Order, n: Node, gone: Node, temp: Bytes, goal: seq<Row>)
    requires n.valid && !gone.valid && Undelivered(n, temp) && goal == Rest(lt, n)
    ensures InLoop(lt, n, gone, temp, goal)
  {
    ZipNil(lt, Pending(lt, n.iter));
  }

  /** The outcome of a round that started with `small` and `big`. */
  ghost predicate RoundOk(lt: Order, small: Node, big: Node, small': Node, big': Node, swapped: bool) {
    && NodeOk(lt, small') && NodeOk(lt, big')
    && Work(lt, small') + Work(lt, big') <= Work(lt, small) + Work(lt, big)
    && Height(small'.iter) == (if swapped then Height(big.iter) else Height(small.iter))
    && Height(big'.iter) == (if swapped then Height(small.iter) else Height(big.iter))
  }

  /** The tree is fresh and one of its merges has no right child: the next step, or the one after it, gets there. */
  ghost predicate AtFault(lt: Order, small: Node, big: Option<Node>, temp: Bytes) {
    && temp == [] && small.valid && FreshTree(lt, small.iter)
    && (TwoChildren(small.iter) ==>
          big.None? || (big.value.valid && FreshTree(lt, big.value.iter) && !TwoChildren(big.value.iter)))
  }

  ghost function Taller(a: Node, b: Option<Node>): nat {
    if b.Some? && Height(b.value.iter) > Height(a.iter) then Height(b.value.iter) else Height(a.iter)
  }

  ghost function Total(lt: Order, a: Node, b: Option<Node>): nat {
    Work(lt, a) + if b.Some? then Work(lt, b.value) else 0
  }

  /** One round of the loop in `next`: the smaller child moves on, and the two change places if it overtook the other.
      `ok` is false where `bigger` unwraps a right child that is not there. */
  method Round(lt: Order, small: Node, big: Option<Node>, temp: Bytes, ghost good: bool, ghost goal: seq<Row>)
    returns (ok: bool, small': Node, big': Option<Node>, swapped: bool)
    requires StrictTotalOrder(lt)
    requires good ==> big.Some? && NodeOk(lt, small) && NodeOk(lt, big.value) && Ready(lt, small, big.value, temp, goal)
    requires !good ==> AtFault(lt, small, big, temp)
    ensures good ==> ok && big'.Some?
    ensures good ==> RoundOk(lt, small, big.value, small', big'.value, swapped)
    ensures good ==> InLoop(lt, small', big'.value, temp, goal)
    ensures ok && !good ==> AtFault(lt, small', big', temp) && Taller(small', big') == Taller(small, big)
    ensures ok ==> Total(lt, small', big') < Total(lt, small, big)
    decreases Taller(small, big), 5
  {
    if !good && TwoChildren(small.iter) {
      FreshIsOk(lt, small.iter);
    }
    var moved, s;
    ok, moved, s := NodeNext(lt, small);
    if !ok || big.None? {
      return false, small, big, false;
    }
    if good {
      AfterPull(lt, small, s, moved, big.value, temp, goal);
    }
    if !big.value.valid {
      if good && moved {
        ZipNil(lt, Rest(lt, s));
        OnlyOne(lt, s, big.value, temp, goal);
      }
      return true, s, big, false;
    }
    if !moved {
      if good {
        ZipNil(lt, Rest(lt, big.value));
        OnlyOne(lt, big.value, s, temp, goal);
      }
      return true, big.value, Some(s), true;
    }
    var b;
    ok, small', b, swapped := Started(lt, s, big.value, temp, good, goal);
    big' := Some(b);
  }

  /** The second part of a round: the other child is started if it was not. */
  method Started(lt: Order, s: Node, big: Node, temp: Bytes, ghost good: bool, ghost goal: seq<Row>)
    returns (ok: bool, small': Node, big': Node, swapped: bool)
    requires StrictTotalOrder(lt) && NodeOk(lt, s) && s.valid && NodeRow(s).Some? && big.valid
    requires good ==> NodeOk(lt, big) && goal == Zip(lt, Rest(lt, s), Rest(lt, big))
    requires good ==> Undelivered(s, temp) && Undelivered(big, temp)
    requires !good ==> FreshTree(lt, big.iter) && !TwoChildren(big.iter)
    ensures ok == good
    ensures good ==> RoundOk(lt, s, big, small', big', swapped) && InLoop(lt, small', big', temp, goal)
    decreases (if Height(s.iter) > Height(big.iter) then Height(s.iter) else Height(big.iter)), 4
  {
    if !good {
      FreshHasNoRow(lt, big.iter);
    }
    var b := big;
    if NodeRow(big) == None {
      var moved;
      ok, moved, b := NodeNext(lt, big);
      if !ok {
        return false, s, big, false;
      }
      if !moved {
        ZipNil(lt, Rest(lt, s));
        OnlyOne(lt, s, b, temp, goal);
        return true, s, b, false;
      }
      BigStarts(lt, big, b, temp);
    }
    small', big', swapped := Compared(lt, s, b, temp, goal);
    ok := true;
  }

  lemma BigStarts(lt: Order, big: Node, b: Node, temp: Bytes)
    requires NodeRow(big) == None && big.valid && Undelivered(big, temp) && Pulled(lt, big, true, b)
    ensures Undelivered(b, temp) && Rest(lt, b) == Rest(lt, big)
  {
    assert [] + Pending(lt, big.iter) == Pending(lt, big.iter);
  }

  /** The third part of a round: the cursors are compared. */
  method Compared(lt: Order, s: Node, b: Node, temp: Bytes, ghost goal: seq<Row>)
    returns (small': Node, big': Node, swapped: bool)
    requires StrictTotalOrder(lt) && NodeOk(lt, s) && NodeOk(lt, b) && s.valid && b.valid
    requires NodeRow(s).Some? && NodeRow(b).Some? && Undelivered(s, temp) && Undelivered(b, temp)
    requires goal == Zip(lt, Rest(lt, s), Rest(lt, b))
    ensures RoundOk(lt, s, b, small', big', swapped) && Found(lt, small', big', temp, goal)
    decreases (if Height(s.iter) > Height(b.iter) then Height(s.iter) else Height(b.iter)), 3
  {
    var k, j := NodeRow(s).value, NodeRow(b).value;
    Heads(lt, k, Pending(lt, s.iter), j, Pending(lt, b.iter));
    if lt(k.key, j.key) {
      return s, b, false;
    } else if k.key == j.key {
      var ok, moved, b' := NodeNext(lt, b);
      Skipped(lt, b, b', moved, k.key);
      return s, b', false;
    } else {
      return b, s, true;
    }
  }

  /** The head of a merge. */
  lemma Heads(lt: Order, k: Row, p: seq<Row>, j: Row, q: seq<Row>)
    ensures var goal := Zip(lt, [k] + p, [j] + q);
      && (lt(k.key, j.key) ==> goal == [k] + Zip(lt, p, [j] + q))
      && (!lt(k.key, j.key) && k.key == j.key ==> goal == [k] + Zip(lt, p, q))
      && (!lt(k.key, j.key) && k.key != j.key ==> goal == [j] + Zip(lt, q, [k] + p))
  {
    assert ([k] + p)[1..] == p && ([j] + q)[1..] == q;
  }

  lemma Skipped(lt: Order, b: Node, b': Node, moved: bool, k: SerializedKey)
    requires NodeOk(lt, b) && b.valid && NodeRow(b).Some? && NodeRow(b).value.key == k && Pulled(lt, b, moved, b')
    ensures b'.valid ==> NodeRow(b').Some? && lt(k, NodeRow(b').value.key)
  {
    if moved {
      var p := Pending(lt, b.iter);
      AscendingCons(lt, NodeRow(b).value, p);
      assert p[0] == NodeRow(b').value;
    }
  }

  // ---------- the loop ----------

  /** The loop of `next` has got from `it` to `small` and `big`. */
  ghost predicate LoopOk(lt: Order, it: Iter, small: Node, big: Node, leftSmall: bool)
    requires it.Merge? && it.right.Some?
  {
    && NodeOk(lt, small) && NodeOk(lt, big) && InLoop(lt, small, big, it.temp, Pending(lt, it))
    && Height((if leftSmall then small else big).iter) == Height(it.left.iter)
    && Height((if leftSmall then big else small).iter) == Height(it.right.value.iter)
  }

  lemma LoopStarts(lt: Order, it: Iter, small: Node, big: Node)
    requires IterOk(lt, it) && it.Merge?
    requires small == (if it.leftSmall then it.left else it.right.value)
    requires big == (if it.leftSmall then it.right.value else it.left)
    ensures LoopOk(lt, it, small, big, it.leftSmall)
  {
    assert Pending(lt, it) == Zip(lt, After(lt, small, it.temp), Rest(lt, big));
    if small.valid && NodeRow(small) == None {
      assert [] + Pending(lt, small.iter) == Pending(lt, small.iter);
    }
  }

  function Rebuilt(small: Node, big: Node, temp: Bytes, leftSmall: bool): Iter {
    Merge(if leftSmall then small else big, Some(if leftSmall then big else small), temp, leftSmall)
  }

  /** With both children exhausted nothing is left. */
  lemma LoopEnds(lt: Order, it: Iter, small: Node, big: Node, leftSmall: bool)
    requires it.Merge? && it.right.Some? && LoopOk(lt, it, small, big, leftSmall) && !small.valid
    ensures Steps(lt, it, false, Rebuilt(small, big, it.temp, leftSmall))
  {
  }

  /** Stopping at the cursor of `small` delivers the next row. */
  lemma LoopYields(lt: Order, it: Iter, small: Node, big: Node, leftSmall: bool)
    requires StrictTotalOrder(lt) && it.Merge? && it.right.Some? && LoopOk(lt, it, small, big, leftSmall)
    requires small.valid && NodeRow(small).Some? && it.temp != NodeRow(small).value.key
    ensures Steps(lt, it, true, Rebuilt(small, big, NodeRow(small).value.key, leftSmall))
  {
    var row := NodeRow(small).value;
    var it' := Rebuilt(small, big, row.key, leftSmall);
    var p, q := Pending(lt, small.iter), Rest(lt, big);
    assert Pending(lt, it') == Zip(lt, p, q);
    assert Pending(lt, it)[1..] == Zip(lt, p, q);
    AscendingCons(lt, row, p);
    RestAhead(lt, small, big);
    ZipFirst(lt, row, p, q);
  }

  lemma RestAhead(lt: Order, small: Node, big: Node)
    requires StrictTotalOrder(lt) && NodeOk(lt, big) && Apart(lt, small, big)
    ensures Ahead(lt, NodeRow(small).value.key, Rest(lt, big)) && Ascending(lt, Rest(lt, big))
  {
    if big.valid {
      var p := Pending(lt, big.iter);
      AscendingCons(lt, NodeRow(big).value, p);
      assert Rest(lt, big)[0] == NodeRow(big).value && Rest(lt, big)[1..] == p;
      AheadCons(lt, NodeRow(small).value.key, Rest(lt, big));
    }
  }

  /** `next` of a merge. */
  method MergeNext(lt: Order, it: Iter) returns (ok: bool, moved: bool, it': Iter)
    requires StrictTotalOrder(lt) && it.Merge? && (IterOk(lt, it) || FreshTree(lt, it))
    ensures IterOk(lt, it) ==> ok && Steps(lt, it, moved, it')
    ensures FreshTree(lt, it) ==> (ok <==> TwoChildren(it))
    decreases Height(it), 0
  {
    ghost var good := IterOk(lt, it);
    GoodIffTwo(lt, it);
    var leftSmall := it.leftSmall;
    var small := if leftSmall then it.left else it.right.value;
    var big := if leftSmall then it.right else Some(it.left);
    if good {
      LoopStarts(lt, it, small, big.value);
    }
    while small.valid
      invariant good ==> big.Some? && LoopOk(lt, it, small, big.value, leftSmall)
      invariant !good ==> AtFault(lt, small, big, it.temp) && Taller(small, big) < Height(it)
      decreases Total(lt, small, big)
    {
      if !good {
        FreshHasNoRow(lt, small.iter);
      }
      var row := NodeRow(small);
      if row.Some? && it.temp != row.value.key {
        LoopYields(lt, it, small, big.value, leftSmall);
        return true, true, Rebuilt(small, big.value, row.value.key, leftSmall);
      }
      var swapped;
      ok, small, big, swapped := Round(lt, small, big, it.temp, good, Pending(lt, it));
      if !ok {
        return false, false, it;
      }
      leftSmall := leftSmall != swapped;
    }
    LoopEnds(lt, it, small, big.value, leftSmall);
    return true, false, Rebuilt(small, big.value, it.temp, leftSmall);
  }

  lemma GoodIffTwo(lt: Order, it: Iter)
    requires StrictTotalOrder(lt) && (IterOk(lt, it) || FreshTree(lt, it))
    ensures IterOk(lt, it) <==> TwoChildren(it)
  {
    if IterOk(lt, it) {
      OkHasTwo(lt, it);
    } else if TwoChildren(it) {
      FreshIsOk(lt, it);
    }
  }

  // ---------- whole runs ----------

  /** Steps until nothing is left: exactly the rows that were to come, in order. */
  method Drain(lt: Order, it: Iter) returns (out: seq<Row>)
    requires StrictTotalOrder(lt) && IterOk(lt, it)
    ensures out == Pending(lt, it)
  {
    var cur := it;
    out := [];
    while true
      invariant IterOk(lt, cur) && out + Pending(lt, cur) == Pending(lt, it)
      decreases |Pending(lt, cur)|
    {
      var ok, moved, next := Next(lt, cur);
      DrainStep(lt, it, cur, moved, next, out);
      if !moved {
        return;
      }
      out := out + [RowOf(next).value];
      cur := next;
    }
  }

  lemma DrainStep(lt: Order, it: Iter, cur: Iter, moved: bool, next: Iter, out: seq<Row>)
    requires out + Pending(lt, cur) == Pending(lt, it) && Steps(lt, cur, moved, next)
    ensures if moved then
              RowOf(next).Some? && out + [RowOf(next).value] + Pending(lt, next) == Pending(lt, it)
              && |Pending(lt, next)| < |Pending(lt, cur)|
            else out == Pending(lt, it)
  {
    var p := Pending(lt, cur);
    if moved {
      assert p == [p[0]] + p[1..];
    }
  }

  ghost predicate FreshLeaves(lt: Order, iters: seq<Iter>) {
    forall i :: 0 <= i < |iters| ==> iters[i].Leaf? && iters[i].taken == 0 && Ascending(lt, iters[i].rows)
  }

  lemma {:induction false} NewIsFresh(lt: Order, iters: seq<Iter>)
    requires iters != [] && FreshLeaves(lt, iters)
    ensures FreshTree(lt, New(iters))
    decreases |iters|
  {
    if |iters| > 2 {
      NewIsFresh(lt, iters[..|iters| / 2]);
      NewIsFresh(lt, iters[|iters| / 2..]);
    }
  }

  /** The rows of all leaves merged in pairs, and the results merged in the same way. */
  ghost function MergedRows(lt: Order, iters: seq<Iter>): seq<Row>
    requires PowerOfTwo(|iters|) && FreshLeaves(lt, iters)
    decreases |iters|
  {
    var n := |iters|;
    if n == 2 then Zip(lt, iters[0].rows, iters[1].rows)
    else Zip(lt, MergedRows(lt, iters[..n / 2]), MergedRows(lt, iters[n / 2..]))
  }

  lemma {:induction false} NewDelivers(lt: Order, iters: seq<Iter>)
    requires PowerOfTwo(|iters|) && FreshLeaves(lt, iters)
    ensures Pending(lt, New(iters)) == MergedRows(lt, iters)
    decreases |iters|
  {
    var n := |iters|;
    if n == 2 {
      assert iters[0].rows[0..] == iters[0].rows && iters[1].rows[0..] == iters[1].rows;
      FreshPair(lt, iters[0], iters[1]);
    } else {
      var l, r := New(iters[..n / 2]), New(iters[n / 2..]);
      NewDelivers(lt, iters[..n / 2]);
      NewDelivers(lt, iters[n / 2..]);
      NewIsFresh(lt, iters[..n / 2]);
      NewIsFresh(lt, iters[n / 2..]);
      FreshPair(lt, l, r);
    }
  }

  lemma FreshPair(lt: Order, l: Iter, r: Iter)
    requires FreshTree(lt, l) && FreshTree(lt, r)
    ensures Pending(lt, Merge(Node(true, l), Some(Node(true, r)), [], true)) == Zip(lt, Pending(lt, l), Pending(lt, r))
  {
    FreshHasNoRow(lt, l);
    FreshHasNoRow(lt, r);
    assert [] + Pending(lt, l) == Pending(lt, l) && [] + Pending(lt, r) == Pending(lt, r);
  }

  ghost function RowsIn(iters: seq<Iter>): seq<Row> {
    if iters == [] then [] else (if iters[0].Leaf? then iters[0].rows else []) + RowsIn(iters[1..])
  }

  lemma {:induction false} RowsInSplit(iters: seq<Iter>, m: nat)
    requires m <= |iters|
    ensures RowsIn(iters) == RowsIn(iters[..m]) + RowsIn(iters[m..])
  {
    if m > 0 {
      RowsInSplit(iters[1..], m - 1);
      assert iters[..m][1..] == iters[1..][..m - 1] && iters[1..][m - 1..] == iters[m..];
    } else {
      assert iters[0..] == iters;
    }
  }

  lemma KeysOfConcat(a: seq<Row>, b: seq<Row>)
    ensures KeysOf(a + b) == KeysOf(a) + KeysOf(b)
  {
    assert forall r :: r in a + b <==> r in a || r in b;
  }

  /** The merge of all: ascending, with every key of the streams and only rows of the streams. */
  lemma {:induction false} MergedIsUnion(lt: Order, iters: seq<Iter>)
    requires StrictTotalOrder(lt) && PowerOfTwo(|iters|) && FreshLeaves(lt, iters)
    ensures Ascending(lt, MergedRows(lt, iters)) && KeysOf(MergedRows(lt, iters)) == KeysOf(RowsIn(iters))
    ensures forall r :: r in MergedRows(lt, iters) ==> r in RowsIn(iters)
    decreases |iters|
  {
    var n := |iters|;
    var m := if n == 2 then 1 else n / 2;
    RowsInSplit(iters, m);
    if n == 2 {
      RowsInOne(iters[..1]);
      RowsInOne(iters[1..]);
      ZipIsUnion(lt, iters[0].rows, iters[1].rows, RowsIn(iters[..m]), RowsIn(iters[m..]));
    } else {
      MergedIsUnion(lt, iters[..m]);
      MergedIsUnion(lt, iters[m..]);
      ZipIsUnion(lt, MergedRows(lt, iters[..m]), MergedRows(lt, iters[m..]), RowsIn(iters[..m]), RowsIn(iters[m..]));
    }
  }

  lemma ZipIsUnion(lt: Order, a: seq<Row>, b: seq<Row>, p: seq<Row>, q: seq<Row>)
    requires StrictTotalOrder(lt) && Ascending(lt, a) && Ascending(lt, b)
    requires KeysOf(a) == KeysOf(p) && KeysOf(b) == KeysOf(q)
    requires (forall r :: r in a ==> r in p) && (forall r :: r in b ==> r in q)
    ensures Ascending(lt, Zip(lt, a, b)) && KeysOf(Zip(lt, a, b)) == KeysOf(p + q)
    ensures forall r :: r in Zip(lt, a, b) ==> r in p + q
  {
    ZipAscending(lt, a, b);
    ZipHasAll(lt, a, b);
    KeysOfConcat(p, q);
  }

  lemma RowsInOne(iters: seq<Iter>)
    requires |iters| == 1 && iters[0].Leaf?
    ensures RowsIn(iters) == iters[0].rows
  {
    assert iters[1..] == [] && iters[0].rows + [] == iters[0].rows;
  }

  /** Merging sorted streams: it panics at its first step unless there are 2, 4, 8, ... of them; then it gives the
      sorted union of their keys, without duplicates, with the rows that pairwise merging keeps. */
  method MergeAll(lt: Order, iters: seq<Iter>) returns (ok: bool, out: seq<Row>)
    requires StrictTotalOrder(lt) && iters != [] && FreshLeaves(lt, iters)
    ensures ok <==> PowerOfTwo(|iters|)
    ensures ok ==> out == MergedRows(lt, iters)
    ensures ok ==> Ascending(lt, out) && KeysOf(out) == KeysOf(RowsIn(iters))
    ensures ok ==> forall r :: r in out ==> r in RowsIn(iters)
  {
    NewIsFresh(lt, iters);
    TwoChildrenIff(iters);
    var moved, it;
    ok, moved, it := Next(lt, New(iters));
    out := [];
    if ok {
      FreshIsOk(lt, New(iters));
      NewDelivers(lt, iters);
      MergedIsUnion(lt, iters);
      ghost var p := MergedRows(lt, iters);
      if moved {
        out := Drain(lt, it);
        assert p == [p[0]] + p[1..];
        out := [RowOf(it).value] + out;
      }
    }
  }
}
