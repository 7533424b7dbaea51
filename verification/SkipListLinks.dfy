/** The links of a skip list (src/util/skip_list.rs): nodes in an arena, named by their offset, each
    with a tower of successor offsets and a link to its predecessor on the lowest level.
    This module is about one level at a time. */
module SkipListLinks {
  import opened Bytes
  import opened Keys

  const MAX_HEIGHT: nat := 20
  const NULL: nat := 0
  const HEAD: nat := 8

  datatype Node = Node(key: SerializedKey, value: Bytes, height: nat, prev: nat, tower: seq<nat>)

  /** The arena's nodes by offset, and the tower of the head node, which has no key. */
  datatype Links = Links(nodes: map<nat, Node>, head: seq<nat>)

  ghost predicate Shaped(l: Links) {
    && |l.head| == MAX_HEIGHT
    && (forall o :: o in l.nodes ==>
          o > HEAD && 1 <= l.nodes[o].height <= MAX_HEIGHT && |l.nodes[o].tower| == MAX_HEIGHT)
  }

  /** `Node::next`. */
  function Next(l: Links, o: nat, h: nat): nat
    requires o == HEAD || o in l.nodes
    requires h < |l.head| && (o in l.nodes ==> h < |l.nodes[o].tower|)
  {
    if o == HEAD then l.head[h] else l.nodes[o].tower[h]
  }

  /** `o` is the head or a node whose key is before `key`. */
  ghost predicate Before(lt: Order, l: Links, o: nat, key: SerializedKey) {
    o == HEAD || (o in l.nodes && lt(l.nodes[o].key, key))
  }

  /** `t` follows `o` among `members`; `NULL` if nothing does. */
  ghost predicate Follows(lt: Order, l: Links, members: set<nat>, o: nat, t: nat)
    requires forall p :: p in members ==> p in l.nodes
  {
    && (t != NULL ==> t in members && Before(lt, l, o, l.nodes[t].key))
    && (forall p :: p in members && Before(lt, l, o, l.nodes[p].key) ==>
          t != NULL && (p == t || lt(l.nodes[t].key, l.nodes[p].key)))
  }

  /** Level `h` is a sorted list of exactly `members`, starting at the head. */
  ghost predicate LevelOk(lt: Order, l: Links, h: nat, members: set<nat>)
    requires Shaped(l) && h < MAX_HEIGHT
  {
    && (forall p :: p in members ==> p in l.nodes)
    && (forall o {:trigger Next(l, o, h)} :: o == HEAD || o in members ==> Follows(lt, l, members, o, Next(l, o, h)))
  }

  /** The nodes whose tower reaches level `h`. */
  ghost function Members(l: Links, h: nat): set<nat> {
    set o | o in l.nodes && l.nodes[o].height > h
  }

  /** Keys identify nodes. */
  ghost predicate DistinctKeys(l: Links) {
    forall o, p {:trigger l.nodes[o].key, l.nodes[p].key} ::
      o in l.nodes && p in l.nodes && l.nodes[o].key == l.nodes[p].key ==> o == p
  }

  /** `prev` mirrors the links of level 0. */
  ghost predicate PrevOk(l: Links)
    requires Shaped(l)
  {
    forall o {:trigger l.nodes[o].prev} :: o in l.nodes ==>
      (l.nodes[o].prev == HEAD || l.nodes[o].prev in l.nodes) && Next(l, l.nodes[o].prev, 0) == o
  }

  /** Everything that holds between two operations. */
  ghost predicate LinksOk(lt: Order, l: Links) {
    && Shaped(l)
    && DistinctKeys(l)
    && (forall h :: 0 <= h < MAX_HEIGHT ==> LevelOk(lt, l, h, Members(l, h)))
    && PrevOk(l)
  }

  /** Where `key` belongs on level `h`: after `p` and before `n`, with no node in between. */
  ghost predicate Splice(lt: Order, l: Links, h: nat, members: set<nat>, key: SerializedKey, p: nat, n: nat)
    requires Shaped(l) && h < MAX_HEIGHT
  {
    && (p == HEAD || p in members) && Before(lt, l, p, key)
    && (p == HEAD || p in l.nodes) && Next(l, p, h) == n
    && (n != NULL ==> n in l.nodes && lt(key, l.nodes[n].key))
  }

  // ---------- facts about a level ----------

  /** Below the splice everything is at most `p`, above it everything is at least `n`. */
  lemma SpliceSeparates(lt: Order, l: Links, h: nat, members: set<nat>, key: SerializedKey, p: nat, n: nat, o: nat)
    requires StrictTotalOrder(lt) && Shaped(l) && DistinctKeys(l) && h < MAX_HEIGHT && LevelOk(lt, l, h, members)
    requires Splice(lt, l, h, members, key, p, n) && o in members
    ensures l.nodes[o].key != key
    ensures lt(l.nodes[o].key, key) ==> p != HEAD && (o == p || lt(l.nodes[o].key, l.nodes[p].key))
    ensures lt(key, l.nodes[o].key) ==> n != NULL && (o == n || lt(l.nodes[n].key, l.nodes[o].key))
  {
    assert Follows(lt, l, members, p, n);
    if Before(lt, l, p, l.nodes[o].key) {
      assert n != NULL;
    }
  }

  /** The links of one level after `x` was put between `p` and `n`. */
  ghost predicate Inserted(l: Links, l': Links, h: nat, members: set<nat>, p: nat, n: nat, x: nat, key: SerializedKey)
    requires Shaped(l) && Shaped(l') && h < MAX_HEIGHT
  {
    && x !in members && x != HEAD && x in l'.nodes && l'.nodes[x].key == key
    && (forall o :: o in members ==> o in l.nodes && o in l'.nodes && l'.nodes[o].key == l.nodes[o].key)
    && (forall o :: (o == HEAD || o in members) && o != p ==> Next(l', o, h) == Next(l, o, h))
    && (p == HEAD || p in l'.nodes) && Next(l', p, h) == x && Next(l', x, h) == n
  }

  lemma InsertKeepsLevel(lt: Order, l: Links, l': Links, h: nat, members: set<nat>, p: nat, n: nat, x: nat,
                         key: SerializedKey)
    requires StrictTotalOrder(lt) && Shaped(l) && Shaped(l') && DistinctKeys(l) && h < MAX_HEIGHT
    requires LevelOk(lt, l, h, members) && Splice(lt, l, h, members, key, p, n)
    requires Inserted(l, l', h, members, p, n, x, key)
    ensures LevelOk(lt, l', h, members + {x})
  {
    forall o | o == HEAD || o in members + {x}
      ensures Follows(lt, l', members + {x}, o, Next(l', o, h))
    {
      if o == x {
        InsertedFollowsNew(lt, l, l', h, members, p, n, x, key);
      } else if o == p {
        InsertedFollowsPrev(lt, l, l', h, members, p, n, x, key);
      } else {
        InsertedFollowsOther(lt, l, l', h, members, p, n, x, key, o);
      }
    }
  }

  lemma InsertedFollowsNew(lt: Order, l: Links, l': Links, h: nat, members: set<nat>, p: nat, n: nat, x: nat,
                           key: SerializedKey)
    requires StrictTotalOrder(lt) && Shaped(l) && Shaped(l') && DistinctKeys(l) && h < MAX_HEIGHT
    requires LevelOk(lt, l, h, members) && Splice(lt, l, h, members, key, p, n)
    requires Inserted(l, l', h, members, p, n, x, key)
    ensures Follows(lt, l', members + {x}, x, n)
  {
    assert Follows(lt, l, members, p, n);
    forall q | q in members && lt(key, l.nodes[q].key)
      ensures n != NULL && (q == n || lt(l.nodes[n].key, l.nodes[q].key))
    {
      SpliceSeparates(lt, l, h, members, key, p, n, q);
    }
  }

  lemma InsertedFollowsPrev(lt: Order, l: Links, l': Links, h: nat, members: set<nat>, p: nat, n: nat, x: nat,
                            key: SerializedKey)
    requires StrictTotalOrder(lt) && Shaped(l) && Shaped(l') && DistinctKeys(l) && h < MAX_HEIGHT
    requires LevelOk(lt, l, h, members) && Splice(lt, l, h, members, key, p, n)
    requires Inserted(l, l', h, members, p, n, x, key)
    ensures Follows(lt, l', members + {x}, p, x)
  {
    forall q | q in members && Before(lt, l, p, l.nodes[q].key)
      ensures lt(key, l.nodes[q].key)
    {
      SpliceSeparates(lt, l, h, members, key, p, n, q);
    }
  }

  lemma InsertedFollowsOther(lt: Order, l: Links, l': Links, h: nat, members: set<nat>, p: nat, n: nat, x: nat,
                             key: SerializedKey, o: nat)
    requires StrictTotalOrder(lt) && Shaped(l) && Shaped(l') && DistinctKeys(l) && h < MAX_HEIGHT
    requires LevelOk(lt, l, h, members) && Splice(lt, l, h, members, key, p, n)
    requires Inserted(l, l', h, members, p, n, x, key)
    requires (o == HEAD || o in members) && o != p
    ensures Follows(lt, l', members + {x}, o, Next(l', o, h))
  {
    var t := Next(l, o, h);
    assert Follows(lt, l, members, o, t);
    StaysBefore(lt, l, h, members, p, n, key, o, t);
    FollowsKept(lt, l, l', members, x, key, o, t);
  }

  /** A node before the splice, other than its lower end, has a successor before the splice. */
  lemma StaysBefore(lt: Order, l: Links, h: nat, members: set<nat>, p: nat, n: nat, key: SerializedKey, o: nat, t: nat)
    requires StrictTotalOrder(lt) && Shaped(l) && DistinctKeys(l) && h < MAX_HEIGHT
    requires LevelOk(lt, l, h, members) && Splice(lt, l, h, members, key, p, n)
    requires (o == HEAD || o in members) && o != p && Follows(lt, l, members, o, t)
    ensures Before(lt, l, o, key) ==> t in l.nodes && lt(l.nodes[t].key, key)
  {
    if Before(lt, l, o, key) {
      if o != HEAD {
        SpliceSeparates(lt, l, h, members, key, p, n, o);
      }
      assert Before(lt, l, o, l.nodes[p].key);
    }
  }

  lemma FollowsKept(lt: Order, l: Links, l': Links, members: set<nat>, x: nat, key: SerializedKey, o: nat, t: nat)
    requires x in l'.nodes && l'.nodes[x].key == key && NULL !in members && (o == HEAD || o in members)
    requires forall q :: q in members ==> q in l.nodes && q in l'.nodes && l'.nodes[q].key == l.nodes[q].key
    requires Follows(lt, l, members, o, t)
    requires Before(lt, l, o, key) ==> t in l.nodes && t != NULL && lt(l.nodes[t].key, key)
    ensures Follows(lt, l', members + {x}, o, t)
  {
  }

  // ---------- single stores ----------

  function WithNext(l: Links, o: nat, h: nat, t: nat): Links
    requires Shaped(l) && h < MAX_HEIGHT && (o == HEAD || o in l.nodes)
  {
    if o == HEAD then l.(head := l.head[h := t])
    else l.(nodes := l.nodes[o := l.nodes[o].(tower := l.nodes[o].tower[h := t])])
  }

  function WithPrev(l: Links, o: nat, q: nat): Links
    requires o in l.nodes
  {
    l.(nodes := l.nodes[o := l.nodes[o].(prev := q)])
  }

  /** Keys, values and heights are the same in both. */
  ghost predicate SameData(l: Links, l': Links) {
    && l'.nodes.Keys == l.nodes.Keys
    && (forall o :: o in l.nodes ==>
          && l'.nodes[o].key == l.nodes[o].key && l'.nodes[o].value == l.nodes[o].value
          && l'.nodes[o].height == l.nodes[o].height)
  }

  /** All links are the same, except those of `o` and `x` on level `h`. */
  ghost predicate SameLinksBut(l: Links, l': Links, h: nat, o: nat, x: nat)
    requires Shaped(l) && Shaped(l') && SameData(l, l')
  {
    forall q, g :: (q == HEAD || q in l.nodes) && 0 <= g < MAX_HEIGHT && !(g == h && (q == o || q == x)) ==>
      Next(l', q, g) == Next(l, q, g)
  }

  lemma WithNextFacts(l: Links, o: nat, h: nat, t: nat, x: nat)
    requires Shaped(l) && h < MAX_HEIGHT && (o == HEAD || o in l.nodes)
    ensures var l' := WithNext(l, o, h, t);
      && Shaped(l') && SameData(l, l') && SameLinksBut(l, l', h, o, x) && Next(l', o, h) == t
      && (x != o && (x == HEAD || x in l.nodes) ==> Next(l', x, h) == Next(l, x, h))
      && (forall q :: q in l.nodes ==> l'.nodes[q].prev == l.nodes[q].prev)
  {
  }

  lemma WithPrevFacts(l: Links, o: nat, q: nat, h: nat, p: nat, x: nat)
    requires Shaped(l) && o in l.nodes && h < MAX_HEIGHT
    ensures var l' := WithPrev(l, o, q);
      && Shaped(l') && SameData(l, l') && SameLinksBut(l, l', h, p, x) && l'.nodes[o].prev == q
      && (forall u :: u == HEAD || u in l.nodes ==> Next(l', u, h) == Next(l, u, h))
      && (forall u :: u in l.nodes && u != o ==> l'.nodes[u].prev == l.nodes[u].prev)
  {
  }

  /** The stores of one round of `push`: the new node's link, at level 0 the back links, and the
      predecessor's link. */
  function LinkAt(l: Links, h: nat, p: nat, n: nat, x: nat): (l': Links)
    requires Shaped(l) && h < MAX_HEIGHT && x in l.nodes && Around(l, p, n, x)
    ensures Shaped(l') && SameData(l, l') && SameLinksBut(l, l', h, p, x)
    ensures Next(l', p, h) == x && Next(l', x, h) == n
    ensures forall o :: o in l.nodes ==>
              l'.nodes[o].prev == if h == 0 && o == x then p else if h == 0 && o == n then x else l.nodes[o].prev
  {
    WithNextFacts(l, x, h, n, p);
    var l1 := WithNext(l, x, h, n);
    if h == 0 then
      WithPrevFacts(l1, x, p, h, p, x);
      var l2 := WithPrev(l1, x, p);
      if n != NULL then
        WithPrevFacts(l2, n, x, h, p, x);
        var l3 := WithPrev(l2, n, x);
        WithNextFacts(l3, p, h, x, x);
        WithNext(l3, p, h, x)
      else
        WithNextFacts(l2, p, h, x, x);
        WithNext(l2, p, h, x)
    else
      WithNextFacts(l1, p, h, x, x);
      WithNext(l1, p, h, x)
  }

  /** `p` and `n` are proper neighbours for the new node `x`. */
  ghost predicate Around(l: Links, p: nat, n: nat, x: nat) {
    p != x && n != x && (p == HEAD || p in l.nodes) && (n != NULL ==> n in l.nodes)
  }

  // ---------- linking a new node, level by level ----------

  /** `x` has been linked on the levels below `h`, all else is as in `l0`. */
  ghost predicate Linking(lt: Order, l0: Links, l: Links, x: nat, node: Node, h: nat) {
    && Shaped(l0) && Shaped(l) && h <= MAX_HEIGHT
    && x !in l0.nodes && x > HEAD && l.nodes.Keys == l0.nodes.Keys + {x}
    && l.nodes[x].key == node.key && l.nodes[x].value == node.value && l.nodes[x].height == node.height
    && (forall o :: o in l0.nodes ==>
          && l.nodes[o].key == l0.nodes[o].key && l.nodes[o].value == l0.nodes[o].value
          && l.nodes[o].height == l0.nodes[o].height)
    && (forall g :: 0 <= g < h ==> LevelOk(lt, l, g, Members(l0, g) + {x}))
    && (forall o, g :: (o == HEAD || o in l0.nodes) && h <= g < MAX_HEIGHT ==> Next(l, o, g) == Next(l0, o, g))
    && (h == 0 ==> forall o :: o in l0.nodes ==> l.nodes[o].prev == l0.nodes[o].prev)
    && (h > 0 ==> PrevOk(l))
  }

  /** A level whose links and keys did not change is as good as before. */
  lemma LevelSame(lt: Order, l: Links, l': Links, h: nat, members: set<nat>)
    requires Shaped(l) && Shaped(l') && h < MAX_HEIGHT && LevelOk(lt, l, h, members)
    requires forall o :: o in members ==> o in l'.nodes && l'.nodes[o].key == l.nodes[o].key
    requires forall o :: o == HEAD || o in members ==> Next(l', o, h) == Next(l, o, h)
    ensures LevelOk(lt, l', h, members)
  {
    forall o | o == HEAD || o in members
      ensures Follows(lt, l', members, o, Next(l', o, h))
    {
      assert Follows(lt, l, members, o, Next(l, o, h));
    }
  }

  /** Of two nodes with the same successor neither is before the other. */
  lemma SameSuccessor(lt: Order, l: Links, p: nat, q: nat, n: nat)
    requires StrictTotalOrder(lt) && Shaped(l) && LevelOk(lt, l, 0, l.nodes.Keys)
    requires (p == HEAD || p in l.nodes) && q in l.nodes && n in l.nodes && Next(l, p, 0) == n && Next(l, q, 0) == n
    ensures !Before(lt, l, p, l.nodes[q].key)
  {
    assert Follows(lt, l, l.nodes.Keys, p, n) && Follows(lt, l, l.nodes.Keys, q, n);
  }

  /** Only one node precedes `n`: the `compare_exchange` on `n`'s back link cannot fail. */
  lemma PredecessorUnique(lt: Order, l: Links, p: nat, n: nat)
    requires StrictTotalOrder(lt) && LinksOk(lt, l) && n in l.nodes
    requires (p == HEAD || p in l.nodes) && Next(l, p, 0) == n
    ensures l.nodes[n].prev == p
  {
    var q := l.nodes[n].prev;
    assert Members(l, 0) == l.nodes.Keys && LevelOk(lt, l, 0, l.nodes.Keys);
    if p != HEAD {
      SameSuccessor(lt, l, q, p, n);
    }
    if q != HEAD {
      SameSuccessor(lt, l, p, q, n);
    }
  }

  lemma LinkingSplice(lt: Order, l0: Links, l: Links, x: nat, node: Node, h: nat, p: nat, n: nat)
    requires LinksOk(lt, l0) && Linking(lt, l0, l, x, node, h) && h < MAX_HEIGHT
    requires Splice(lt, l0, h, Members(l0, h), node.key, p, n)
    ensures Splice(lt, l, h, Members(l0, h), node.key, p, n) && LevelOk(lt, l, h, Members(l0, h))
    ensures Around(l, p, n, x)
  {
    assert LevelOk(lt, l0, h, Members(l0, h));
    LevelSame(lt, l0, l, h, Members(l0, h));
  }

  lemma LinkingDistinct(lt: Order, l0: Links, l: Links, x: nat, node: Node, h: nat)
    requires DistinctKeys(l0) && Linking(lt, l0, l, x, node, h)
    requires forall o :: o in l0.nodes ==> l0.nodes[o].key != node.key
    ensures DistinctKeys(l)
  {
  }

  lemma LinkingPrev(l0: Links, l: Links, l': Links, x: nat, p: nat, n: nat)
    requires Shaped(l0) && Shaped(l) && Shaped(l') && PrevOk(l0)
    requires x !in l0.nodes && x != HEAD && l.nodes.Keys == l0.nodes.Keys + {x} && Around(l, p, n, x)
    requires forall o :: o == HEAD || o in l0.nodes ==> Next(l, o, 0) == Next(l0, o, 0)
    requires forall o :: o in l0.nodes ==> l.nodes[o].prev == l0.nodes[o].prev
    requires Next(l0, p, 0) == n
    requires SameData(l, l') && SameLinksBut(l, l', 0, p, x) && Next(l', p, 0) == x && Next(l', x, 0) == n
    requires forall o :: o in l.nodes ==>
               l'.nodes[o].prev == if o == x then p else if o == n then x else l.nodes[o].prev
    ensures PrevOk(l')
  {
    forall o | o in l'.nodes
      ensures (l'.nodes[o].prev == HEAD || l'.nodes[o].prev in l'.nodes) && Next(l', l'.nodes[o].prev, 0) == o
    {
      if o != x && o != n {
        var q := l0.nodes[o].prev;
        assert Next(l0, q, 0) == o && q != p;
      }
    }
  }

  lemma LinkingPrevAbove(l: Links, x: nat, p: nat, n: nat, h: nat)
    requires Shaped(l) && PrevOk(l) && 0 < h < MAX_HEIGHT && x in l.nodes && Around(l, p, n, x)
    ensures PrevOk(LinkAt(l, h, p, n, x))
  {
    var l' := LinkAt(l, h, p, n, x);
    forall o | o in l'.nodes
      ensures Next(l', l'.nodes[o].prev, 0) == o
    {
    }
  }

  /** The levels up to `h` after the stores of level `h`. */
  lemma LinkingLevels(lt: Order, l0: Links, l: Links, l': Links, x: nat, node: Node, h: nat, p: nat, n: nat, g: nat)
    requires StrictTotalOrder(lt) && Linking(lt, l0, l, x, node, h) && g <= h < MAX_HEIGHT && DistinctKeys(l)
    requires LevelOk(lt, l, h, Members(l0, h)) && Splice(lt, l, h, Members(l0, h), node.key, p, n)
    requires Shaped(l') && SameData(l, l') && SameLinksBut(l, l', h, p, x) && Next(l', p, h) == x && Next(l', x, h) == n
    ensures LevelOk(lt, l', g, Members(l0, g) + {x})
  {
    if g == h {
      assert Inserted(l, l', h, Members(l0, h), p, n, x, node.key);
      InsertKeepsLevel(lt, l, l', h, Members(l0, h), p, n, x, node.key);
    } else {
      LevelSame(lt, l, l', g, Members(l0, g) + {x});
    }
  }

  lemma LinkingPrevs(lt: Order, l0: Links, l: Links, x: nat, node: Node, h: nat, p: nat, n: nat)
    requires LinksOk(lt, l0) && Linking(lt, l0, l, x, node, h) && h < MAX_HEIGHT && Around(l, p, n, x)
    requires (p == HEAD || p in l0.nodes) && Next(l0, p, h) == n
    ensures PrevOk(LinkAt(l, h, p, n, x))
  {
    if h == 0 {
      LinkingPrev(l0, l, LinkAt(l, 0, p, n, x), x, p, n);
    } else {
      LinkingPrevAbove(l, x, p, n, h);
    }
  }

  /** One round of the linking loop. */
  lemma LinkingStep(lt: Order, l0: Links, l: Links, x: nat, node: Node, h: nat, p: nat, n: nat)
    requires StrictTotalOrder(lt) && LinksOk(lt, l0) && Linking(lt, l0, l, x, node, h) && h < MAX_HEIGHT
    requires forall o :: o in l0.nodes ==> l0.nodes[o].key != node.key
    requires Splice(lt, l0, h, Members(l0, h), node.key, p, n)
    ensures Around(l, p, n, x)
    ensures Linking(lt, l0, LinkAt(l, h, p, n, x), x, node, h + 1)
  {
    LinkingSplice(lt, l0, l, x, node, h, p, n);
    LinkingDistinct(lt, l0, l, x, node, h);
    LinkingPrevs(lt, l0, l, x, node, h, p, n);
    var l' := LinkAt(l, h, p, n, x);
    forall g | 0 <= g <= h
      ensures LevelOk(lt, l', g, Members(l0, g) + {x})
    {
      LinkingLevels(lt, l0, l, l', x, node, h, p, n, g);
    }
  }

  lemma LinkingDoneLevel(lt: Order, l0: Links, l: Links, x: nat, node: Node, g: nat)
    requires LinksOk(lt, l0) && Linking(lt, l0, l, x, node, node.height) && 1 <= node.height <= MAX_HEIGHT
    requires g < MAX_HEIGHT
    ensures LevelOk(lt, l, g, Members(l, g))
  {
    if g < node.height {
      assert Members(l, g) == Members(l0, g) + {x};
    } else {
      assert Members(l, g) == Members(l0, g);
      assert LevelOk(lt, l0, g, Members(l0, g));
      LevelSame(lt, l0, l, g, Members(l0, g));
    }
  }

  /** With all of its levels linked, the new node is an ordinary member. */
  lemma LinkingDone(lt: Order, l0: Links, l: Links, x: nat, node: Node)
    requires LinksOk(lt, l0) && Linking(lt, l0, l, x, node, node.height) && 1 <= node.height <= MAX_HEIGHT
    requires forall o :: o in l0.nodes ==> l0.nodes[o].key != node.key
    ensures LinksOk(lt, l)
  {
    LinkingDistinct(lt, l0, l, x, node, node.height);
    forall g | 0 <= g < MAX_HEIGHT
      ensures LevelOk(lt, l, g, Members(l, g))
    {
      LinkingDoneLevel(lt, l0, l, x, node, g);
    }
  }

  /** A level not linked yet is still the old one, and a splice found on it is one of the old list. */
  lemma LinkingUntouched(lt: Order, l0: Links, l: Links, x: nat, node: Node, h: nat)
    requires LinksOk(lt, l0) && Linking(lt, l0, l, x, node, h) && h < MAX_HEIGHT
    ensures LevelOk(lt, l, h, Members(l0, h))
  {
    assert LevelOk(lt, l0, h, Members(l0, h));
    LevelSame(lt, l0, l, h, Members(l0, h));
  }

  lemma SpliceWasOld(lt: Order, l0: Links, l: Links, x: nat, node: Node, h: nat, p: nat, n: nat)
    requires LinksOk(lt, l0) && Linking(lt, l0, l, x, node, h) && h < MAX_HEIGHT
    requires LevelOk(lt, l, h, Members(l0, h)) && Splice(lt, l, h, Members(l0, h), node.key, p, n)
    ensures Splice(lt, l0, h, Members(l0, h), node.key, p, n)
  {
    assert Follows(lt, l, Members(l0, h), p, n);
  }

  /** The list right after the new node was allocated. */
  lemma LinkingStarts(lt: Order, l0: Links, x: nat, node: Node)
    requires Shaped(l0) && x !in l0.nodes && x > HEAD
    requires 1 <= node.height <= MAX_HEIGHT && |node.tower| == MAX_HEIGHT
    ensures Linking(lt, l0, l0.(nodes := l0.nodes[x := node]), x, node, 0)
  {
  }

  /** Above the tallest node the splice is the head alone. */
  lemma EmptyLevelSplice(lt: Order, l: Links, h: nat, key: SerializedKey)
    requires LinksOk(lt, l) && h < MAX_HEIGHT && forall o :: o in l.nodes ==> l.nodes[o].height <= h
    ensures Splice(lt, l, h, Members(l, h), key, HEAD, NULL)
  {
    assert Members(l, h) == {};
    assert LevelOk(lt, l, h, Members(l, h));
    assert Follows(lt, l, {}, HEAD, Next(l, HEAD, h));
  }

  /** Nodes strictly behind `o`. */
  ghost function Beyond(lt: Order, l: Links, o: nat): set<nat> {
    set p | p in l.nodes && Before(lt, l, o, l.nodes[p].key)
  }

  lemma BeyondShrinks(lt: Order, l: Links, o: nat, t: nat)
    requires StrictTotalOrder(lt) && t in l.nodes && Before(lt, l, o, l.nodes[t].key)
    requires t != HEAD
    ensures Beyond(lt, l, t) < Beyond(lt, l, o)
  {
    assert t in Beyond(lt, l, o) && t !in Beyond(lt, l, t);
    forall p | p in Beyond(lt, l, t)
      ensures p in Beyond(lt, l, o)
    {
    }
  }

  /** `find_splice_for_level`: equal results mean that the key was found. */
  method FindSplice(lt: Order, l: Links, key: SerializedKey, start: nat, h: nat, ghost members: set<nat>)
    returns (p: nat, n: nat)
    requires StrictTotalOrder(lt) && Shaped(l) && h < MAX_HEIGHT && LevelOk(lt, l, h, members)
    requires (start == HEAD || start in members) && Before(lt, l, start, key)
    ensures p == n ==> p in members && l.nodes[p].key == key
    ensures p != n ==> Splice(lt, l, h, members, key, p, n)
  {
    p := start;
    while true
      invariant (p == HEAD || p in members) && Before(lt, l, p, key)
      decreases Beyond(lt, l, p)
    {
      n := Next(l, p, h);
      assert Follows(lt, l, members, p, n);
      if n == NULL {
        return;
      }
      var k := l.nodes[n].key;
      if lt(key, k) {
        return;
      } else if key == k {
        return n, n;
      }
      BeyondShrinks(lt, l, p, n);
      p := n;
    }
  }
}
