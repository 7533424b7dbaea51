/** The arena-backed skip list (src/util/skip_list.rs, src/util/arena.rs) with a single writer, for which every
    `compare_exchange` succeeds; that is proved at the places where the source has a retry. */
module SkipLists {
  import opened Bytes
  import opened Keys
  import opened SkipListLinks

  const NODE_SIZE: nat := 104

  /** The fields of a node: the place of its value and of its key, its height, its back link and twenty links, rounded
      up to the alignment. */
  lemma NodeSizeIs()
    ensures NODE_SIZE == RoundUp8(8 + 4 + 2 + 2 + 4 + 4 * MAX_HEIGHT) && MAX_HEIGHT == 20
  {
  }

  /** `Arena::round_up_to` for the arena's alignment of eight. */
  function RoundUp8(n: nat): (r: nat)
    ensures n <= r < n + 8 && r % 8 == 0
  {
    (n + 7) / 8 * 8
  }

  /** `index` finds the node of every key, and only those. */
  ghost predicate Indexed(l: Links, index: map<SerializedKey, nat>) {
    && (forall k :: k in index ==> index[k] in l.nodes && l.nodes[index[k]].key == k)
    && (forall o :: o in l.nodes ==> l.nodes[o].key in index && index[l.nodes[o].key] == o)
  }

  ghost function ContentsOf(l: Links, index: map<SerializedKey, nat>): map<SerializedKey, Bytes>
    requires Indexed(l, index)
  {
    map k | k in index :: l.nodes[index[k]].value
  }

  /** Nodes lie in the used part of the arena, and no tower is higher than the list. */
  ghost predicate Allocated(l: Links, height: nat, ptr: nat, limit: nat) {
    && 1 <= height <= MAX_HEIGHT
    && (forall o :: o in l.nodes ==> l.nodes[o].height <= height && o < ptr)
    && HEAD < ptr <= limit
  }

  /** `o` has the least key not before `key`; `NULL` if every key is before it. */
  ghost predicate LeastFrom(lt: Order, l: Links, key: SerializedKey, o: nat) {
    && (o != NULL ==> o in l.nodes && !lt(l.nodes[o].key, key))
    && (forall p :: p in l.nodes && !lt(l.nodes[p].key, key) ==>
          o in l.nodes && (p == o || lt(l.nodes[o].key, l.nodes[p].key)))
  }

  /** `o` has the key `key`; `NULL` if no node has. */
  ghost predicate FoundExactly(l: Links, key: SerializedKey, o: nat) {
    && (o != NULL ==> o in l.nodes && l.nodes[o].key == key)
    && (o == NULL ==> forall p :: p in l.nodes ==> l.nodes[p].key != key)
  }

  /** `o` has the least key after `key`; `NULL` if there is none. */
  ghost predicate LeastAfter(lt: Order, l: Links, key: SerializedKey, o: nat) {
    && (o != NULL ==> o in l.nodes && lt(key, l.nodes[o].key))
    && (forall p :: p in l.nodes && lt(key, l.nodes[p].key) ==>
          o in l.nodes && (p == o || lt(l.nodes[o].key, l.nodes[p].key)))
  }

  /** `o` has the greatest key before `key`; `NULL` if there is none. */
  ghost predicate GreatestBefore(lt: Order, l: Links, key: SerializedKey, o: nat) {
    && (o != NULL ==> o in l.nodes && lt(l.nodes[o].key, key))
    && (forall p :: p in l.nodes && lt(l.nodes[p].key, key) ==>
          o in l.nodes && (p == o || lt(l.nodes[p].key, l.nodes[o].key)))
  }

  ghost predicate ListOk(lt: Order, l: Links, height: nat, ptr: nat, limit: nat, index: map<SerializedKey, nat>) {
    StrictTotalOrder(lt) && LinksOk(lt, l) && Allocated(l, height, ptr, limit) && Indexed(l, index)
  }

  class SkipList {
    const lt: Order
    const limit: nat  // end of the arena
    var ptr: nat      // `ptr_offset`
    var links: Links
    var height: nat
    ghost var index: map<SerializedKey, nat>

    ghost predicate Valid()
      reads this
    {
      ListOk(lt, links, height, ptr, limit, index)
    }

    /** The map the list stands for. */
    ghost function Contents(): map<SerializedKey, Bytes>
      reads this
      requires Valid()
    {
      ContentsOf(links, index)
    }

    constructor (arenaSize: nat, lt: Order)
      requires StrictTotalOrder(lt) && NODE_SIZE <= arenaSize < 0xFFFF_FFF0  // offsets have 32 bits
      ensures Valid() && Contents() == map[] && this.lt == lt
    {
      this.lt := lt;
      limit := RoundUp8(arenaSize + 8);
      ptr := HEAD + NODE_SIZE;
      links := Links(map[], seq(MAX_HEIGHT, _ => NULL));
      height := 1;
      index := map[];
      new;
      forall h | 0 <= h < MAX_HEIGHT
        ensures LevelOk(lt, links, h, Members(links, h))
      {
        assert Members(links, h) == {};
      }
    }

    // ---------- searching ----------

    /** The search of this module, on this list. */
    method FindOrNear(key: SerializedKey, allowNear: bool) returns (o: nat)
      requires Valid()
      ensures allowNear ==> LeastFrom(lt, links, key, o)
      ensures !allowNear ==> FoundExactly(links, key, o)
    {
      o := FindOrNearIn(lt, links, height, key, allowNear);
    }

    // ---------- writing ----------

    /** `try_set_value`. The list is untouched if the arena has no room for a new value. */
    method TrySetValue(o: nat, value: Bytes) returns (ok: bool)
      requires Valid() && o in links.nodes
      modifies this
      ensures Valid()
      ensures ok == (old(links.nodes[o].value) == value || old(ptr) + RoundUp8(|value|) <= limit)
      ensures Contents() == if ok then old(Contents())[old(links.nodes[o].key) := value] else old(Contents())
    {
      if links.nodes[o].value == value {
        ContentsStored(links, index, o);
        return true;
      }
      if ptr + RoundUp8(|value|) > limit {
        return false;
      }
      StoreKeeps(lt, links, height, ptr, limit, index, o, value);
      ptr := ptr + RoundUp8(|value|);
      links := WithValue(links, o, value);
      return true;
    }

    /** The part of `push` that makes a new node. */
    method PushNew(key: SerializedKey, value: Bytes, randomHeight: nat, prev: seq<nat>, next: seq<nat>)
      returns (ok: bool)
      requires Valid() && 1 <= randomHeight <= MAX_HEIGHT && NotFound(lt, links, height, key, prev, next)
      modifies this
      ensures Valid()
      ensures ok == (old(ptr) + NODE_SIZE + RoundUp8(|key|) + RoundUp8(|value|) <= limit)
      ensures Contents() == if ok then old(Contents())[key := value] else old(Contents())
    {
      var size := NODE_SIZE + RoundUp8(|key|) + RoundUp8(|value|);
      if ptr + size > limit {
        return false;
      }
      var node := Node(key, value, randomHeight, HEAD, seq(MAX_HEIGHT, _ => NULL));
      var l := InsertNode(lt, links, height, ptr, limit, index, node, size, prev, next);
      index := index[key := ptr];
      links := l;
      height := if randomHeight > height then randomHeight else height;
      ptr := ptr + size;
      return true;
    }

    /** `push`: the key maps to the value afterwards, everything else is as before; without room in
        the arena (where the source panics) nothing changes. `randomHeight` is the height drawn
        for a new node. A node keeps the length of its key in 16 bits; longer keys never get here
        (src/txn/mod.rs:278-293). */
    method Push(key: SerializedKey, value: Bytes, randomHeight: nat) returns (ok: bool)
      requires Valid() && 1 <= randomHeight <= MAX_HEIGHT && |key| < 0x1_0000
      modifies this
      ensures Valid()
      ensures Contents() == if ok then old(Contents())[key := value] else old(Contents())
      ensures old(ptr) + NODE_SIZE + RoundUp8(|key|) + RoundUp8(|value|) <= limit ==> ok
    {
      var found, prev, next := Search(lt, links, height, key);
      if found != NULL {
        ok := TrySetValue(found, value);
      } else {
        ok := PushNew(key, value, randomHeight, prev, next);
      }
    }
  }

  /** The least key not before `key`; without `allowNear` only `key` itself. */
  method FindOrNearIn(lt: Order, l: Links, height: nat, key: SerializedKey, allowNear: bool) returns (o: nat)
    requires StrictTotalOrder(lt) && LinksOk(lt, l) && 1 <= height <= MAX_HEIGHT
    ensures allowNear ==> LeastFrom(lt, l, key, o)
    ensures !allowNear ==> FoundExactly(l, key, o)
  {
    var node, level := HEAD, height - 1;
    while true
      invariant 0 <= level < height
      invariant node == HEAD || node in Members(l, level)
      invariant Before(lt, l, node, key)
      decreases Beyond(lt, l, node), level
    {
      var next := Next(l, node, level);
      assert Follows(lt, l, Members(l, level), node, next);
      if next != NULL && key == l.nodes[next].key {
        return next;
      } else if next != NULL && !lt(key, l.nodes[next].key) {
        BeyondShrinks(lt, l, node, next);
        node := next;
      } else if level > 0 {
        level := level - 1;
      } else {
        StopsBetween(lt, l, node, key);
        return if allowNear then next else NULL;
      }
    }
  }

  /** The least key after `key`. */
  method FindNextIn(lt: Order, l: Links, height: nat, key: SerializedKey) returns (o: nat)
    requires StrictTotalOrder(lt) && LinksOk(lt, l) && 1 <= height <= MAX_HEIGHT
    ensures LeastAfter(lt, l, key, o)
  {
    var node, level := HEAD, height - 1;
    while true
      invariant 0 <= level < height
      invariant node == HEAD || node in Members(l, level)
      invariant Before(lt, l, node, key)
      decreases Beyond(lt, l, node), level
    {
      var next := Next(l, node, level);
      assert Follows(lt, l, Members(l, level), node, next);
      if next != NULL && key == l.nodes[next].key {
        StopsAfter(lt, l, next);
        return Next(l, next, 0);
      } else if next != NULL && !lt(key, l.nodes[next].key) {
        BeyondShrinks(lt, l, node, next);
        node := next;
      } else if level > 0 {
        level := level - 1;
      } else {
        StopsBetween(lt, l, node, key);
        return next;
      }
    }
  }

  /** The greatest key before `key`. */
  method FindPrevIn(lt: Order, l: Links, height: nat, key: SerializedKey) returns (o: nat)
    requires StrictTotalOrder(lt) && LinksOk(lt, l) && 1 <= height <= MAX_HEIGHT
    ensures GreatestBefore(lt, l, key, o)
  {
    var node, level := HEAD, height - 1;
    while true
      invariant 0 <= level < height
      invariant node == HEAD || node in Members(l, level)
      invariant Before(lt, l, node, key)
      decreases Beyond(lt, l, node), level
    {
      var next := Next(l, node, level);
      assert Follows(lt, l, Members(l, level), node, next);
      if next != NULL && lt(l.nodes[next].key, key) {
        BeyondShrinks(lt, l, node, next);
        node := next;
      } else if level > 0 {
        level := level - 1;
      } else {
        LastBefore(lt, l, node, key);
        return if node == HEAD then NULL else node;
      }
    }
  }

  /** Where the search for a predecessor ends. */
  lemma LastBefore(lt: Order, l: Links, node: nat, key: SerializedKey)
    requires StrictTotalOrder(lt) && LinksOk(lt, l) && (node == HEAD || node in l.nodes) && Before(lt, l, node, key)
    requires Next(l, node, 0) != NULL ==> Next(l, node, 0) in l.nodes && !lt(l.nodes[Next(l, node, 0)].key, key)
    ensures GreatestBefore(lt, l, key, if node == HEAD then NULL else node)
  {
    AllAtLevelZero(l);
    assert LevelOk(lt, l, 0, l.nodes.Keys);
    assert Follows(lt, l, l.nodes.Keys, node, Next(l, node, 0));
    forall p | p in l.nodes && lt(l.nodes[p].key, key)
      ensures node in l.nodes && (p == node || lt(l.nodes[p].key, l.nodes[node].key))
    {
      assert !Before(lt, l, node, l.nodes[p].key);
    }
  }

  /** The last node, or the head of an empty list. */
  method FindLastIn(lt: Order, l: Links, height: nat) returns (o: nat)
    requires StrictTotalOrder(lt) && LinksOk(lt, l) && 1 <= height <= MAX_HEIGHT
    ensures o == HEAD || o in l.nodes
    ensures Next(l, o, 0) == NULL
  {
    var level := height - 1;
    o := HEAD;
    while true
      invariant 0 <= level < height
      invariant o == HEAD || o in Members(l, level)
      decreases Beyond(lt, l, o), level
    {
      var next := Next(l, o, level);
      assert Follows(lt, l, Members(l, level), o, next);
      if next != NULL {
        BeyondShrinks(lt, l, o, next);
        o := next;
      } else if level > 0 {
        level := level - 1;
      } else {
        return;
      }
    }
  }

  lemma AllAtLevelZero(l: Links)
    requires Shaped(l)
    ensures Members(l, 0) == l.nodes.Keys
  {
  }

  /** Where the search of a push ends: the splices of all levels in use. */
  ghost predicate Splices(lt: Order, l: Links, key: SerializedKey, prev: seq<nat>, next: seq<nat>, from: nat, to: nat)
    requires Shaped(l)
  {
    && |prev| == |next| == MAX_HEIGHT + 1 && to <= MAX_HEIGHT
    && (forall h :: from <= h < to ==> prev[h] != NULL && Splice(lt, l, h, Members(l, h), key, prev[h], next[h]))
  }

  /** Where a search ends on level 0: nothing lies between the two nodes. */
  lemma StopsBetween(lt: Order, l: Links, node: nat, key: SerializedKey)
    requires StrictTotalOrder(lt) && LinksOk(lt, l)
    requires (node == HEAD || node in l.nodes) && Before(lt, l, node, key)
    requires var t := Next(l, node, 0); t != NULL ==> t in l.nodes && lt(key, l.nodes[t].key)
    ensures LeastFrom(lt, l, key, Next(l, node, 0)) && LeastAfter(lt, l, key, Next(l, node, 0))
    ensures forall p :: p in l.nodes ==> l.nodes[p].key != key
  {
    AllAtLevelZero(l);
    var t, members := Next(l, node, 0), Members(l, 0);
    assert LevelOk(lt, l, 0, members) && Splice(lt, l, 0, members, key, node, t);
    forall p | p in l.nodes
      ensures l.nodes[p].key != key
      ensures lt(key, l.nodes[p].key) ==> t != NULL && (p == t || lt(l.nodes[t].key, l.nodes[p].key))
    {
      SpliceSeparates(lt, l, 0, members, key, node, t, p);
    }
  }

  lemma StopsAfter(lt: Order, l: Links, node: nat)
    requires StrictTotalOrder(lt) && LinksOk(lt, l) && node in l.nodes
    ensures LeastAfter(lt, l, l.nodes[node].key, Next(l, node, 0))
  {
    AllAtLevelZero(l);
    assert LevelOk(lt, l, 0, Members(l, 0));
    assert Follows(lt, l, Members(l, 0), node, Next(l, node, 0));
  }

  /** What the search leaves behind when the key is new: splices for the levels in use, the head
      for the level above, nothing beyond. */
  ghost predicate NotFound(lt: Order, l: Links, height: nat, key: SerializedKey, prev: seq<nat>, next: seq<nat>) {
    && Shaped(l) && 1 <= height <= MAX_HEIGHT
    && Splices(lt, l, key, prev, next, 0, height)
    && prev[height] == HEAD && next[height] == NULL
    && (forall h :: height < h <= MAX_HEIGHT ==> prev[h] == NULL)
    && (forall o :: o in l.nodes ==> l.nodes[o].key != key)
  }

  lemma NewNodeFits(lt: Order, l: Links, height: nat, ptr: nat, limit: nat, index: map<SerializedKey, nat>,
                    node: Node, prev: seq<nat>, next: seq<nat>)
    requires ListOk(lt, l, height, ptr, limit, index) && NotFound(lt, l, height, node.key, prev, next)
    ensures ptr !in l.nodes && ptr > HEAD && node.key !in index
    ensures forall o :: o in l.nodes ==> l.nodes[o].height <= height
  {
  }

  /** The first loop of `push`: from the top level down, each search starting where the one above
      it stopped. */
  method Search(lt: Order, l: Links, height: nat, key: SerializedKey)
    returns (found: nat, prev: seq<nat>, next: seq<nat>)
    requires StrictTotalOrder(lt) && LinksOk(lt, l) && 1 <= height <= MAX_HEIGHT
    ensures found != NULL ==> found in l.nodes && l.nodes[found].key == key
    ensures found == NULL ==> NotFound(lt, l, height, key, prev, next)
  {
    found := NULL;
    prev := seq(MAX_HEIGHT + 1, _ => NULL);
    next := seq(MAX_HEIGHT + 1, _ => NULL);
    prev := prev[height := HEAD];
    var h := height;
    while h > 0
      invariant 0 <= h <= height && |prev| == |next| == MAX_HEIGHT + 1
      invariant Splices(lt, l, key, prev, next, h, height)
      invariant prev[height] == HEAD && next[height] == NULL
      invariant forall g :: height < g <= MAX_HEIGHT ==> prev[g] == NULL
    {
      h := h - 1;
      assert LevelOk(lt, l, h, Members(l, h));
      StartsLower(lt, l, h, height, key, prev, next);
      var p, n := FindSplice(lt, l, key, prev[h + 1], h, Members(l, h));
      prev, next := prev[h := p], next[h := n];
      if p == n {
        found := p;
        return;
      }
    }
    StopsBetween(lt, l, prev[0], key);
  }

  /** A node of the level above is a node of this level. */
  lemma StartsLower(lt: Order, l: Links, h: nat, height: nat, key: SerializedKey, prev: seq<nat>, next: seq<nat>)
    requires Shaped(l) && h < height <= MAX_HEIGHT && Splices(lt, l, key, prev, next, h + 1, height)
    requires prev[height] == HEAD
    ensures prev[h + 1] == HEAD || prev[h + 1] in Members(l, h)
    ensures Before(lt, l, prev[h + 1], key)
  {
    if h + 1 < height {
      assert Splice(lt, l, h + 1, Members(l, h + 1), key, prev[h + 1], next[h + 1]);
    }
  }

  /** Where the new node goes on level `h`: as found, except above the list's height, where the source searches again
      from the head. */
  method SpliceFor(lt: Order, ghost l0: Links, l: Links, height: nat, ghost x: nat, node: Node, h: nat, p0: nat,
                   n0: nat)
    returns (p: nat, n: nat)
    requires StrictTotalOrder(lt) && LinksOk(lt, l0) && Linking(lt, l0, l, x, node, h) && h < MAX_HEIGHT && height >= 1
    requires forall o :: o in l0.nodes ==> l0.nodes[o].height <= height && l0.nodes[o].key != node.key
    requires h < height ==> p0 != NULL && Splice(lt, l0, h, Members(l0, h), node.key, p0, n0)
    requires h == height ==> p0 == HEAD && n0 == NULL
    requires h > height ==> p0 == NULL
    ensures Splice(lt, l0, h, Members(l0, h), node.key, p, n)
  {
    if p0 == NULL {
      assert h > 1;
      LinkingUntouched(lt, l0, l, x, node, h);
      p, n := FindSplice(lt, l, node.key, HEAD, h, Members(l0, h));
      assert p != n;
      SpliceWasOld(lt, l0, l, x, node, h, p, n);
    } else {
      if h == height {
        EmptyLevelSplice(lt, l0, h, node.key);
      }
      return p0, n0;
    }
  }

  /** The second loop of `push`: the new node is linked from the bottom level up. */
  method LinkAll(lt: Order, l0: Links, height: nat, x: nat, node: Node, prev: seq<nat>, next: seq<nat>)
    returns (l: Links)
    requires StrictTotalOrder(lt) && LinksOk(lt, l0) && NotFound(lt, l0, height, node.key, prev, next)
    requires forall o :: o in l0.nodes ==> l0.nodes[o].height <= height
    requires x !in l0.nodes && x > HEAD && 1 <= node.height <= MAX_HEIGHT && |node.tower| == MAX_HEIGHT
    ensures LinksOk(lt, l) && Linking(lt, l0, l, x, node, node.height)
  {
    l := l0.(nodes := l0.nodes[x := node]);
    LinkingStarts(lt, l0, x, node);
    for h := 0 to node.height
      invariant Linking(lt, l0, l, x, node, h)
    {
      var p, n := SpliceFor(lt, l0, l, height, x, node, h, prev[h], next[h]);
      l := LinkLevel(lt, l0, l, x, node, h, p, n);
    }
    LinkingDone(lt, l0, l, x, node);
  }

  /** Links the new node, placed at `ptr`, into a valid list. */
  method InsertNode(lt: Order, l0: Links, height: nat, ptr: nat, limit: nat, ghost index: map<SerializedKey, nat>,
                    node: Node, size: nat, prev: seq<nat>, next: seq<nat>) returns (l: Links)
    requires ListOk(lt, l0, height, ptr, limit, index) && NotFound(lt, l0, height, node.key, prev, next)
    requires size > 0 && ptr + size <= limit && 1 <= node.height <= MAX_HEIGHT && |node.tower| == MAX_HEIGHT
    ensures var top := if node.height > height then node.height else height;
      ListOk(lt, l, top, ptr + size, limit, index[node.key := ptr])
    ensures ContentsOf(l, index[node.key := ptr]) == ContentsOf(l0, index)[node.key := node.value]
  {
    NewNodeFits(lt, l0, height, ptr, limit, index, node, prev, next);
    l := LinkAll(lt, l0, height, ptr, node, prev, next);
    PushKeeps(lt, l0, l, height, ptr, limit, index, node, size);
  }

  /** One level. Both `compare_exchange`s find the value they expect. */
  method LinkLevel(lt: Order, ghost l0: Links, l: Links, x: nat, node: Node, h: nat, p: nat, n: nat) returns (l': Links)
    requires StrictTotalOrder(lt) && LinksOk(lt, l0) && Linking(lt, l0, l, x, node, h) && h < MAX_HEIGHT
    requires forall o :: o in l0.nodes ==> l0.nodes[o].key != node.key
    requires Splice(lt, l0, h, Members(l0, h), node.key, p, n)
    ensures Linking(lt, l0, l', x, node, h + 1)
  {
    LinkingSplice(lt, l0, l, x, node, h, p, n);
    LinkingStep(lt, l0, l, x, node, h, p, n);
    assert Next(l, p, h) == n;  // on the predecessor's link
    if h == 0 && n != NULL {
      PredecessorUnique(lt, l0, p, n);
      assert l.nodes[n].prev == p;  // on the successor's back link
    }
    l' := LinkAt(l, h, p, n, x);
  }

  /** `l` is `l0` with `x` added; links aside. */
  ghost predicate Grown(l0: Links, l: Links, x: nat, node: Node) {
    && x !in l0.nodes && l.nodes.Keys == l0.nodes.Keys + {x}
    && l.nodes[x].key == node.key && l.nodes[x].value == node.value && l.nodes[x].height == node.height
    && (forall o :: o in l0.nodes ==>
          && l.nodes[o].key == l0.nodes[o].key && l.nodes[o].value == l0.nodes[o].value
          && l.nodes[o].height == l0.nodes[o].height)
  }

  lemma IndexGrows(l0: Links, l: Links, index: map<SerializedKey, nat>, x: nat, node: Node)
    requires Indexed(l0, index) && Grown(l0, l, x, node) && node.key !in index
    ensures Indexed(l, index[node.key := x])
    ensures ContentsOf(l, index[node.key := x]) == ContentsOf(l0, index)[node.key := node.value]
  {
  }

  lemma AllocatedGrows(l0: Links, l: Links, height: nat, ptr: nat, limit: nat, x: nat, node: Node, size: nat)
    requires Allocated(l0, height, ptr, limit) && Grown(l0, l, x, node)
    requires x == ptr && size > 0 && ptr + size <= limit && 1 <= node.height <= MAX_HEIGHT
    ensures Allocated(l, if node.height > height then node.height else height, ptr + size, limit)
  {
  }

  function WithValue(l: Links, o: nat, value: Bytes): Links
    requires o in l.nodes
  {
    l.(nodes := l.nodes[o := l.nodes[o].(value := value)])
  }

  lemma ContentsStore(l: Links, index: map<SerializedKey, nat>, o: nat, value: Bytes)
    requires Indexed(l, index) && o in l.nodes
    ensures Indexed(WithValue(l, o, value), index)
    ensures ContentsOf(WithValue(l, o, value), index) == ContentsOf(l, index)[l.nodes[o].key := value]
  {
  }

  lemma ContentsStored(l: Links, index: map<SerializedKey, nat>, o: nat)
    requires Indexed(l, index) && o in l.nodes
    ensures ContentsOf(l, index) == ContentsOf(l, index)[l.nodes[o].key := l.nodes[o].value]
  {
  }

  lemma StoreKeeps(lt: Order, l: Links, height: nat, ptr: nat, limit: nat, index: map<SerializedKey, nat>, o: nat,
                   value: Bytes)
    requires ListOk(lt, l, height, ptr, limit, index) && o in l.nodes && ptr + RoundUp8(|value|) <= limit
    ensures ListOk(lt, WithValue(l, o, value), height, ptr + RoundUp8(|value|), limit, index)
    ensures ContentsOf(WithValue(l, o, value), index) == ContentsOf(l, index)[l.nodes[o].key := value]
  {
    ValueKeepsLinks(lt, l, o, value);
    ContentsStore(l, index, o, value);
    StoreAllocated(l, height, ptr, limit, o, value);
  }

  lemma StoreAllocated(l: Links, height: nat, ptr: nat, limit: nat, o: nat, value: Bytes)
    requires Allocated(l, height, ptr, limit) && o in l.nodes && ptr + RoundUp8(|value|) <= limit
    ensures Allocated(WithValue(l, o, value), height, ptr + RoundUp8(|value|), limit)
  {
  }

  lemma PushKeeps(lt: Order, l0: Links, l: Links, height: nat, ptr: nat, limit: nat, index: map<SerializedKey, nat>,
                  node: Node, size: nat)
    requires ListOk(lt, l0, height, ptr, limit, index) && LinksOk(lt, l) && Linking(lt, l0, l, ptr, node, node.height)
    requires size > 0 && ptr + size <= limit && 1 <= node.height <= MAX_HEIGHT && node.key !in index
    ensures var top := if node.height > height then node.height else height;
      ListOk(lt, l, top, ptr + size, limit, index[node.key := ptr])
    ensures ContentsOf(l, index[node.key := ptr]) == ContentsOf(l0, index)[node.key := node.value]
  {
    IndexGrows(l0, l, index, ptr, node);
    AllocatedGrows(l0, l, height, ptr, limit, ptr, node, size);
  }

  /** Storing a value moves no link. */
  lemma ValueKeepsLinks(lt: Order, l: Links, o: nat, value: Bytes)
    requires LinksOk(lt, l) && o in l.nodes
    ensures LinksOk(lt, WithValue(l, o, value))
  {
    var l' := WithValue(l, o, value);
    ValueKeepsShape(l, o, value);
    forall h | 0 <= h < MAX_HEIGHT
      ensures LevelOk(lt, l', h, Members(l', h))
    {
      ValueKeepsLevel(lt, l, l', h);
    }
  }

  lemma ValueKeepsShape(l: Links, o: nat, value: Bytes)
    requires Shaped(l) && DistinctKeys(l) && PrevOk(l) && o in l.nodes
    ensures var l' := WithValue(l, o, value);
      && Shaped(l') && DistinctKeys(l') && PrevOk(l') && l'.nodes.Keys == l.nodes.Keys
      && (forall q :: q in l.nodes ==> l'.nodes[q].key == l.nodes[q].key && l'.nodes[q].height == l.nodes[q].height)
      && (forall q, g :: (q == HEAD || q in l.nodes) && 0 <= g < MAX_HEIGHT ==> Next(l', q, g) == Next(l, q, g))
  {
    var l' := WithValue(l, o, value);
    assert l'.nodes.Keys == l.nodes.Keys;
    forall q | q in l.nodes
      ensures l'.nodes[q] == l.nodes[q].(value := l'.nodes[q].value)
    {
    }
    SameLinksSamePrev(l, l');
  }

  lemma SameLinksSamePrev(l: Links, l': Links)
    requires Shaped(l) && Shaped(l') && PrevOk(l) && l'.nodes.Keys == l.nodes.Keys && l'.head == l.head
    requires forall q :: q in l.nodes ==> l'.nodes[q].prev == l.nodes[q].prev && l'.nodes[q].tower == l.nodes[q].tower
    ensures PrevOk(l')
  {
    forall q | q in l'.nodes
      ensures Next(l', l'.nodes[q].prev, 0) == q
    {
      assert Next(l, l.nodes[q].prev, 0) == q;
    }
  }

  lemma ValueKeepsLevel(lt: Order, l: Links, l': Links, h: nat)
    requires LinksOk(lt, l) && Shaped(l') && l'.nodes.Keys == l.nodes.Keys && h < MAX_HEIGHT
    requires forall q :: q in l.nodes ==> l'.nodes[q].key == l.nodes[q].key && l'.nodes[q].height == l.nodes[q].height
    requires forall q :: q == HEAD || q in l.nodes ==> Next(l', q, h) == Next(l, q, h)
    ensures LevelOk(lt, l', h, Members(l', h))
  {
    assert Members(l', h) == Members(l, h);
    assert LevelOk(lt, l, h, Members(l, h));
    LevelSame(lt, l, l', h, Members(l, h));
  }
}
