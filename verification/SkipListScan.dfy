/** Iterating over a skip list (src/util/skip_list.rs:470-541): forwards along the links of the lowest
    level, backwards along the back links, both ends of one iterator in turn, and whole scans as
    lists of nodes in key order. */
module SkipListScan {
  import opened Keys
  import opened SkipListLinks
  import opened SkipLists

  /** `SkipListIter`: both cursors; a back cursor of `NULL` has not moved yet. */
  datatype Iter = Iter(node: nat, back: nat)

  function NewIter(): Iter {
    Iter(HEAD, NULL)
  }

  ghost predicate OnList(l: Links, it: Iter) {
    (it.node == HEAD || it.node in l.nodes) && (it.back == NULL || it.back == HEAD || it.back in l.nodes)
  }

  /** Nodes that neither cursor has reached. */
  ghost function Left(lt: Order, l: Links, it: Iter): set<nat> {
    set p | p in l.nodes && Before(lt, l, it.node, l.nodes[p].key)
      && (it.back in l.nodes ==> lt(l.nodes[p].key, l.nodes[it.back].key))
  }

  /** The front cursor is before the back cursor. */
  ghost predicate Apart(lt: Order, l: Links, it: Iter) {
    it.back == NULL || (it.back in l.nodes && Before(lt, l, it.node, l.nodes[it.back].key))
  }

  /** The front cursor has reached the last node and the back cursor has not moved yet. */
  ghost predicate Spent(lt: Order, l: Links, it: Iter) {
    it.back == NULL && it.node in l.nodes && Follows(lt, l, l.nodes.Keys, it.node, NULL)
  }

  /** `next`: with the cursors apart, it takes the first of the nodes that neither has reached. */
  method Advance(lt: Order, l: Links, it: Iter) returns (moved: bool, it': Iter)
    requires StrictTotalOrder(lt) && LinksOk(lt, l) && OnList(l, it)
    ensures OnList(l, it') && it'.back == it.back
    ensures moved ==> it'.node in l.nodes && Follows(lt, l, l.nodes.Keys, it.node, it'.node)
    ensures !moved ==> it' == it
    ensures Apart(lt, l, it) ==> Apart(lt, l, it') && (moved <==> Left(lt, l, it) != {})
    ensures Apart(lt, l, it) && moved ==> Left(lt, l, it') == Left(lt, l, it) - {it'.node}
  {
    NextIs(lt, l, it.node);
    var n := Next(l, it.node, 0);
    if n != NULL && n != it.back {
      if Apart(lt, l, it) {
        LeftAfterNext(lt, l, it, n);
      }
      return true, it.(node := n);
    }
    return false, it;
  }

  lemma LeftAfterNext(lt: Order, l: Links, it: Iter, n: nat)
    requires StrictTotalOrder(lt) && Shaped(l) && DistinctKeys(l) && OnList(l, it) && Apart(lt, l, it)
    requires Follows(lt, l, l.nodes.Keys, it.node, n) && n != NULL && n != it.back
    ensures Apart(lt, l, it.(node := n)) && n in Left(lt, l, it)
    ensures Left(lt, l, it.(node := n)) == Left(lt, l, it) - {n}
  {
    forall p | p in l.nodes
      ensures p in Left(lt, l, it.(node := n)) <==> p in Left(lt, l, it) - {n}
    {
      PassedStep(lt, l, it.node, n, p);
    }
  }

  /** `next_back`: with the cursors apart, it takes the last of the nodes that neither has reached;
      but its first call on a spent iterator gives the node of the front cursor once more, and the
      cursors are no longer apart. */
  method AdvanceBack(lt: Order, l: Links, height: nat, it: Iter) returns (moved: bool, it': Iter)
    requires StrictTotalOrder(lt) && LinksOk(lt, l) && 1 <= height <= MAX_HEIGHT && OnList(l, it)
    ensures OnList(l, it') && it'.node == it.node
    ensures moved && it.back == NULL ==> it'.back in l.nodes && Follows(lt, l, l.nodes.Keys, it'.back, NULL)
    ensures moved && it.back != NULL ==> it.back in l.nodes && Follows(lt, l, l.nodes.Keys, it'.back, it.back)
    ensures !moved ==> it' == it
    ensures Apart(lt, l, it) && !Spent(lt, l, it) ==> Apart(lt, l, it') && (moved <==> Left(lt, l, it) != {})
    ensures Apart(lt, l, it) && !Spent(lt, l, it) && moved ==> Left(lt, l, it') == Left(lt, l, it) - {it'.back}
    ensures Spent(lt, l, it) ==> moved && it'.back == it.node && !Apart(lt, l, it')
  {
    if it.back == HEAD {
      return false, it;
    }
    if it.back != NULL {
      var p := l.nodes[it.back].prev;
      NextIs(lt, l, p);
      if p == it.node {
        NothingBetween(lt, l, it);
        return false, it;
      }
      if Apart(lt, l, it) {
        LeftBefore(lt, l, it, p);
      }
      return true, it.(back := p);
    }
    var last := FindLastIn(lt, l, height);
    NextIs(lt, l, last);
    if last != HEAD {
      LeftBeforeLast(lt, l, it, last);
      return true, it.(back := last);
    }
    return false, it;
  }

  lemma NothingBetween(lt: Order, l: Links, it: Iter)
    requires StrictTotalOrder(lt) && it.back in l.nodes && it.back != NULL
    requires Follows(lt, l, l.nodes.Keys, it.node, it.back)
    ensures Left(lt, l, it) == {}
  {
  }

  /** The last of the nodes left is the one before the back cursor. */
  lemma LeftBefore(lt: Order, l: Links, it: Iter, p: nat)
    requires StrictTotalOrder(lt) && Shaped(l) && DistinctKeys(l) && OnList(l, it)
    requires it.back in l.nodes && it.back != NULL && Apart(lt, l, it)
    requires (p == HEAD || p in l.nodes) && p != it.node && Follows(lt, l, l.nodes.Keys, p, it.back)
    ensures Apart(lt, l, it.(back := p)) && p in Left(lt, l, it)
    ensures Left(lt, l, it.(back := p)) == Left(lt, l, it) - {p}
  {
    if it.node != HEAD {
      assert it.node in l.nodes.Keys;
    }
    assert p in l.nodes;
    forall q | q in l.nodes
      ensures q in Left(lt, l, it.(back := p)) <==> q in Left(lt, l, it) - {p}
    {
      RemainingStep(lt, l, p, it.back, q);
    }
  }

  lemma LeftBeforeLast(lt: Order, l: Links, it: Iter, last: nat)
    requires StrictTotalOrder(lt) && Shaped(l) && DistinctKeys(l) && OnList(l, it) && it.back == NULL
    requires last in l.nodes && Follows(lt, l, l.nodes.Keys, last, NULL)
    ensures Spent(lt, l, it) <==> it.node == last
    ensures it.node != last ==> last in Left(lt, l, it) && Apart(lt, l, it.(back := last))
    ensures it.node != last ==> Left(lt, l, it.(back := last)) == Left(lt, l, it) - {last}
  {
    assert forall q :: q in l.nodes.Keys && q != last ==> lt(l.nodes[q].key, l.nodes[last].key);
  }

  /** Level 0 leads from `o` to the node that follows it. */
  lemma NextIs(lt: Order, l: Links, o: nat)
    requires LinksOk(lt, l) && (o == HEAD || o in l.nodes)
    ensures Follows(lt, l, l.nodes.Keys, o, Next(l, o, 0))
  {
    AllAtLevelZero(l);
    assert LevelOk(lt, l, 0, Members(l, 0));
  }

  // ---------- whole scans ----------

  /** `out` lists `nodes` by ascending key. */
  ghost predicate Lists(lt: Order, l: Links, nodes: set<nat>, out: seq<nat>) {
    && (forall o :: o in nodes ==> o in l.nodes)
    && (forall o :: o in out <==> o in nodes)
    && (forall i, j :: 0 <= i < j < |out| ==> lt(l.nodes[out[i]].key, l.nodes[out[j]].key))
  }

  /** Nodes up to and including the cursor. */
  ghost function Passed(lt: Order, l: Links, o: nat): set<nat> {
    set p | p in l.nodes && !Before(lt, l, o, l.nodes[p].key)
  }

  lemma PassedStep(lt: Order, l: Links, o: nat, n: nat, p: nat)
    requires StrictTotalOrder(lt) && Shaped(l) && DistinctKeys(l) && (o == HEAD || o in l.nodes)
    requires Follows(lt, l, l.nodes.Keys, o, n) && n != NULL && p in l.nodes
    ensures !Before(lt, l, n, l.nodes[p].key) <==> !Before(lt, l, o, l.nodes[p].key) || p == n
    ensures !Before(lt, l, o, l.nodes[p].key) ==> lt(l.nodes[p].key, l.nodes[n].key)
  {
  }

  lemma PassedAll(lt: Order, l: Links, o: nat)
    requires Left(lt, l, Iter(o, NULL)) == {} && NULL !in l.nodes
    ensures Passed(lt, l, o) == l.nodes.Keys
  {
    forall p | p in l.nodes
      ensures p in Passed(lt, l, o)
    {
      assert p !in Left(lt, l, Iter(o, NULL));
    }
  }

  lemma PassedGrows(lt: Order, l: Links, o: nat, n: nat)
    requires StrictTotalOrder(lt) && Shaped(l) && DistinctKeys(l) && (o == HEAD || o in l.nodes)
    requires Follows(lt, l, l.nodes.Keys, o, n) && n != NULL
    ensures Passed(lt, l, n) == Passed(lt, l, o) + {n}
    ensures forall p :: p in Passed(lt, l, o) ==> lt(l.nodes[p].key, l.nodes[n].key)
  {
    forall p | p in l.nodes
      ensures p in Passed(lt, l, n) <==> p in Passed(lt, l, o) || p == n
      ensures p in Passed(lt, l, o) ==> lt(l.nodes[p].key, l.nodes[n].key)
    {
      PassedStep(lt, l, o, n, p);
    }
  }

  lemma ListsSnoc(lt: Order, l: Links, nodes: set<nat>, out: seq<nat>, n: nat)
    requires Lists(lt, l, nodes, out) && n in l.nodes
    requires forall p :: p in nodes ==> lt(l.nodes[p].key, l.nodes[n].key)
    ensures Lists(lt, l, nodes + {n}, out + [n])
  {
    forall i, j | 0 <= i < j < |out + [n]|
      ensures lt(l.nodes[(out + [n])[i]].key, l.nodes[(out + [n])[j]].key)
    {
      assert out[i] in out;
    }
  }

  /** A forward scan lists every node by ascending key. */
  method ScanForward(lt: Order, l: Links) returns (out: seq<nat>)
    requires StrictTotalOrder(lt) && LinksOk(lt, l)
    ensures Lists(lt, l, l.nodes.Keys, out)
  {
    var it := NewIter();
    out := [];
    assert Passed(lt, l, HEAD) == {};
    while true
      invariant OnList(l, it) && it.back == NULL
      invariant Lists(lt, l, Passed(lt, l, it.node), out)
      decreases Beyond(lt, l, it.node)
    {
      var moved, it' := Advance(lt, l, it);
      if !moved {
        PassedAll(lt, l, it.node);
        return;
      }
      PassedGrows(lt, l, it.node, it'.node);
      ListsSnoc(lt, l, Passed(lt, l, it.node), out, it'.node);
      BeyondShrinks(lt, l, it.node, it'.node);
      out := out + [it'.node];
      it := it';
    }
  }

  /** Nodes from the back cursor on. */
  ghost function Remaining(lt: Order, l: Links, o: nat): set<nat>
    requires o in l.nodes
  {
    set p | p in l.nodes && !lt(l.nodes[p].key, l.nodes[o].key)
  }

  ghost predicate ListsBack(lt: Order, l: Links, nodes: set<nat>, out: seq<nat>) {
    && (forall o :: o in nodes ==> o in l.nodes)
    && (forall o :: o in out <==> o in nodes)
    && (forall i, j :: 0 <= i < j < |out| ==> lt(l.nodes[out[j]].key, l.nodes[out[i]].key))
  }

  lemma ListsBackSnoc(lt: Order, l: Links, nodes: set<nat>, out: seq<nat>, n: nat)
    requires ListsBack(lt, l, nodes, out) && n in l.nodes
    requires forall p :: p in nodes ==> lt(l.nodes[n].key, l.nodes[p].key)
    ensures ListsBack(lt, l, nodes + {n}, out + [n])
  {
    forall i, j | 0 <= i < j < |out + [n]|
      ensures lt(l.nodes[(out + [n])[j]].key, l.nodes[(out + [n])[i]].key)
    {
      assert out[i] in out;
    }
  }

  lemma RemainingStep(lt: Order, l: Links, p: nat, o: nat, q: nat)
    requires StrictTotalOrder(lt) && Shaped(l) && DistinctKeys(l) && p in l.nodes && o in l.nodes && q in l.nodes
    requires Follows(lt, l, l.nodes.Keys, p, o) && o != NULL
    ensures !lt(l.nodes[q].key, l.nodes[p].key) <==> !lt(l.nodes[q].key, l.nodes[o].key) || q == p
    ensures !lt(l.nodes[q].key, l.nodes[o].key) ==> lt(l.nodes[p].key, l.nodes[q].key)
  {
  }

  lemma RemainingAll(lt: Order, l: Links, o: nat)
    requires o in l.nodes && Left(lt, l, Iter(HEAD, o)) == {}
    ensures Remaining(lt, l, o) == l.nodes.Keys
  {
    forall q | q in l.nodes
      ensures q in Remaining(lt, l, o)
    {
      assert q !in Left(lt, l, Iter(HEAD, o));
    }
  }

  lemma RemainingGrows(lt: Order, l: Links, p: nat, o: nat)
    requires StrictTotalOrder(lt) && Shaped(l) && DistinctKeys(l) && p in l.nodes && o in l.nodes
    requires Follows(lt, l, l.nodes.Keys, p, o)
    ensures Remaining(lt, l, p) == Remaining(lt, l, o) + {p}
    ensures forall q :: q in Remaining(lt, l, o) ==> lt(l.nodes[p].key, l.nodes[q].key)
  {
    forall q | q in l.nodes
      ensures q in Remaining(lt, l, p) <==> q in Remaining(lt, l, o) || q == p
      ensures q in Remaining(lt, l, o) ==> lt(l.nodes[p].key, l.nodes[q].key)
    {
      RemainingStep(lt, l, p, o, q);
    }
  }

  lemma LastIsAlone(lt: Order, l: Links, o: nat)
    requires StrictTotalOrder(lt) && DistinctKeys(l) && o in l.nodes && Follows(lt, l, l.nodes.Keys, o, NULL)
    ensures Remaining(lt, l, o) == {o}
  {
  }

  /** A backward scan lists every node by descending key. */
  method ScanBackward(lt: Order, l: Links, height: nat) returns (out: seq<nat>)
    requires StrictTotalOrder(lt) && LinksOk(lt, l) && 1 <= height <= MAX_HEIGHT
    ensures ListsBack(lt, l, l.nodes.Keys, out)
  {
    var it := NewIter();
    out := [];
    var moved;
    moved, it := AdvanceBack(lt, l, height, it);
    if !moved {
      PassedAll(lt, l, HEAD);
      return;
    }
    LastIsAlone(lt, l, it.back);
    out := [it.back];
    while true
      invariant it.node == HEAD && it.back in l.nodes && it.back != NULL && it.back != HEAD
      invariant ListsBack(lt, l, Remaining(lt, l, it.back), out)
      decreases l.nodes.Keys - Remaining(lt, l, it.back)
    {
      var it';
      moved, it' := AdvanceBack(lt, l, height, it);
      if !moved {
        RemainingAll(lt, l, it.back);
        return;
      }
      RemainingGrows(lt, l, it'.back, it.back);
      ListsBackSnoc(lt, l, Remaining(lt, l, it.back), out, it'.back);
      out := out + [it'.back];
      assert it'.back !in Remaining(lt, l, it.back);
      it := it';
    }
  }

  lemma {:induction false} ListsUnique(lt: Order, l: Links, nodes: set<nat>, a: seq<nat>, b: seq<nat>)
    requires StrictTotalOrder(lt) && Lists(lt, l, nodes, a) && Lists(lt, l, nodes, b)
    ensures a == b
    decreases |a|
  {
    ListsSome(lt, l, nodes, a);
    ListsSome(lt, l, nodes, b);
    if nodes != {} {
      assert a[0] in b && b[0] in a;
      FirstIsSmallest(lt, l, a, b[0]);
      FirstIsSmallest(lt, l, b, a[0]);
      assert a[0] == b[0];
      ListsTail(lt, l, nodes, a);
      ListsTail(lt, l, nodes, b);
      ListsUnique(lt, l, nodes - {a[0]}, a[1..], b[1..]);
    }
  }

  lemma ListsSome(lt: Order, l: Links, nodes: set<nat>, a: seq<nat>)
    requires Lists(lt, l, nodes, a)
    ensures a == [] <==> nodes == {}
  {
    if a != [] {
      assert a[0] in a;
    }
  }

  lemma FirstIsSmallest(lt: Order, l: Links, a: seq<nat>, o: nat)
    requires a != [] && o in a && forall x :: x in a ==> x in l.nodes
    requires forall i, j :: 0 <= i < j < |a| ==> lt(l.nodes[a[i]].key, l.nodes[a[j]].key)
    ensures a[0] == o || (a[0] in l.nodes && lt(l.nodes[a[0]].key, l.nodes[o].key))
  {
  }

  lemma ListsTail(lt: Order, l: Links, nodes: set<nat>, a: seq<nat>)
    requires StrictTotalOrder(lt) && Lists(lt, l, nodes, a) && a != []
    ensures Lists(lt, l, nodes - {a[0]}, a[1..])
  {
    forall o
      ensures o in a[1..] <==> o in nodes - {a[0]}
    {
      if o in a[1..] {
        var i :| 0 <= i < |a[1..]| && a[1..][i] == o;
        assert a[i + 1] == o;
      }
      if o in nodes && o != a[0] {
        var i :| 0 <= i < |a| && a[i] == o;
        assert a[1..][i - 1] == o;
      }
    }
  }

  function Reversed(s: seq<nat>): seq<nat> {
    seq(|s|, i requires 0 <= i < |s| => s[|s| - 1 - i])
  }

  /** The two scans are reverses of one another. */
  lemma ScansAreReverses(lt: Order, l: Links, forward: seq<nat>, backward: seq<nat>)
    requires StrictTotalOrder(lt)
    requires Lists(lt, l, l.nodes.Keys, forward) && ListsBack(lt, l, l.nodes.Keys, backward)
    ensures forward == Reversed(backward)
  {
    var r := Reversed(backward);
    forall o
      ensures o in r <==> o in l.nodes.Keys
    {
      if o in backward {
        var i :| 0 <= i < |backward| && backward[i] == o;
        assert r[|backward| - 1 - i] == o;
      }
    }
    assert Lists(lt, l, l.nodes.Keys, r);
    ListsUnique(lt, l, l.nodes.Keys, forward, r);
  }
}
