/** The memtable (src/memtable): versions of user keys in a skip list of serialized keys. */
module MemTables {
  import opened Options
  import opened Bytes
  import opened Keys
  import opened Values
  import opened SkipListLinks
  import opened SkipLists

  datatype Entry = Entry(key: KeyTs, value: ValueMeta)

  /** `Meta::FIN_TXN` closes a transaction in the log; such an entry holds no data. */
  predicate ClosesTxn(e: Entry) {
    e.value.meta / FIN_TXN % 2 == 1
  }

  /** That is the highest of the eight bits. */
  lemma ClosingIsHighest(e: Entry)
    ensures ClosesTxn(e) <==> e.value.meta >= 128
  {
  }

  ghost predicate Stored(contents: map<SerializedKey, Bytes>, key: KeyTs, value: ValueMeta) {
    key.key != [] && Serialize(key) in contents && contents[Serialize(key)] == SerializeValue(value)
  }

  /** `contents` holds exactly `entries`, serialized. */
  ghost predicate Encodes(entries: map<KeyTs, ValueMeta>, contents: map<SerializedKey, Bytes>) {
    && (forall k {:trigger Stored(contents, k, entries[k])} :: k in entries ==> Stored(contents, k, entries[k]))
    && (forall b :: b in contents ==> FromBytes(b) in entries)
  }

  /** The newest version of `at.key` that is not newer than `at.ts`. */
  ghost predicate IsNewest(entries: map<KeyTs, ValueMeta>, at: KeyTs, r: Option<(TxnTs, ValueMeta)>) {
    match r
    case Some((ts, value)) =>
      && KeyTs(at.key, ts) in entries && entries[KeyTs(at.key, ts)] == value && ts <= at.ts
      && (forall k :: k in entries && k.key == at.key && k.ts <= at.ts ==> k.ts <= ts)
    case None => forall k :: k in entries && k.key == at.key ==> k.ts > at.ts
  }

  ghost predicate IsExact(entries: map<KeyTs, ValueMeta>, at: KeyTs, r: Option<(TxnTs, ValueMeta)>) {
    r == if at in entries then Some((at.ts, entries[at])) else None
  }

  /** `MemTable::get` on the node that the list found. */
  function Answer(l: Links, at: KeyTs, o: nat): Option<(TxnTs, ValueMeta)>
    requires o != NULL ==> o in l.nodes
  {
    if o == NULL then None
    else
      var node := l.nodes[o];
      if BorrowKey(node.key) != at.key then None
      else
        var value := DeserializeValue(node.value);
        if value.None? then None else Some((BorrowTs(node.key), value.value))
  }

  // ---------- from list order to versions ----------

  /** A node holds one of the entries. */
  lemma NodeIsEntry(l: Links, index: map<SerializedKey, nat>, entries: map<KeyTs, ValueMeta>, o: nat)
    requires Indexed(l, index) && Encodes(entries, ContentsOf(l, index)) && o in l.nodes
    ensures var k := FromBytes(l.nodes[o].key);
      && k in entries && Serialize(k) == l.nodes[o].key && DeserializeValue(l.nodes[o].value) == Some(entries[k])
      && BorrowKey(l.nodes[o].key) == k.key && BorrowTs(l.nodes[o].key) == k.ts
  {
    var b := l.nodes[o].key;
    var contents := ContentsOf(l, index);
    assert b in contents;
    assert Stored(contents, FromBytes(b), entries[FromBytes(b)]);
    DeserializeRoundTrip(b);
    SerializeRoundTrip(FromBytes(b));
    ValueRoundTrip(entries[FromBytes(b)]);
  }

  /** Every entry has a node. */
  lemma EntryHasNode(l: Links, index: map<SerializedKey, nat>, entries: map<KeyTs, ValueMeta>, k: KeyTs)
    returns (o: nat)
    requires Indexed(l, index) && Encodes(entries, ContentsOf(l, index)) && k in entries
    ensures o in l.nodes && l.nodes[o].key == Serialize(k)
  {
    assert Stored(ContentsOf(l, index), k, entries[k]);
    o := index[Serialize(k)];
  }

  /** Versions of one user key are sorted newest first. */
  lemma SameKeyOrder(a: KeyTs, b: KeyTs)
    requires a.key != [] && a.key == b.key
    ensures SerializedLt(Serialize(a), Serialize(b)) <==> a.ts > b.ts
  {
    SerializeKeepsOrder(a, b);
    CompareEqual(a.key, b.key);
  }

  lemma NotBoth(a: KeyTs, b: KeyTs)
    requires a.key != [] && b.key != []
    ensures !SerializedLt(Serialize(a), Serialize(b)) || !SerializedLt(Serialize(b), Serialize(a))
  {
    SerializeKeepsOrder(a, b);
    SerializeKeepsOrder(b, a);
    CompareKeyTsReverse(a, b);
  }

  /** Versions of one user key are adjacent: what lies between two of them is another one. */
  lemma BetweenVersions(a: KeyTs, m: KeyTs, b: KeyTs)
    requires a.key != [] && a.key == b.key && m.key != []
    requires !SerializedLt(Serialize(m), Serialize(a)) && !SerializedLt(Serialize(b), Serialize(m))
    ensures m.key == a.key
  {
    SerializeKeepsOrder(m, a);
    SerializeKeepsOrder(b, m);
    CompareReverse(a.key, m.key);
    CompareReverse(b.key, m.key);
    CompareEqual(a.key, m.key);
  }

  lemma AnswerIsEntry(l: Links, index: map<SerializedKey, nat>, entries: map<KeyTs, ValueMeta>, at: KeyTs, o: nat)
    requires Indexed(l, index) && Encodes(entries, ContentsOf(l, index)) && o in l.nodes && o != NULL
    ensures var m := FromBytes(l.nodes[o].key);
      m in entries && Answer(l, at, o) == if m.key == at.key then Some((m.ts, entries[m])) else None
  {
    NodeIsEntry(l, index, entries, o);
  }

  lemma NotNewer(l: Links, index: map<SerializedKey, nat>, entries: map<KeyTs, ValueMeta>, at: KeyTs, o: nat)
    requires Indexed(l, index) && Encodes(entries, ContentsOf(l, index)) && at.key != []
    requires o in l.nodes && !SerializedLt(l.nodes[o].key, Serialize(at)) && FromBytes(l.nodes[o].key).key == at.key
    ensures FromBytes(l.nodes[o].key).ts <= at.ts
  {
    NodeIsEntry(l, index, entries, o);
    SameKeyOrder(FromBytes(l.nodes[o].key), at);
  }

  /** A version at or below the timestamp that no other version at or below it beats. */
  lemma NewestFrom(entries: map<KeyTs, ValueMeta>, at: KeyTs, m: KeyTs)
    requires m in entries && m.key == at.key && m.ts <= at.ts
    requires forall k :: k in entries && k.key == at.key && k.ts <= at.ts ==> k.ts <= m.ts
    ensures IsNewest(entries, at, Some((m.ts, entries[m])))
  {
    assert m == KeyTs(at.key, m.ts);
  }

  /** The least key from (key, ts) on is the newest version at ts, if it has the same user key. */
  lemma LeastIsNewest(l: Links, index: map<SerializedKey, nat>, entries: map<KeyTs, ValueMeta>, at: KeyTs, o: nat)
    requires Indexed(l, index) && Encodes(entries, ContentsOf(l, index)) && NULL !in l.nodes && at.key != []
    requires LeastFrom(SerializedLt, l, Serialize(at), o)
    ensures IsNewest(entries, at, Answer(l, at, o))
  {
    if o == NULL {
      NoneIsNewest(l, index, entries, at, o);
    } else {
      AnswerIsEntry(l, index, entries, at, o);
      var m := FromBytes(l.nodes[o].key);
      if m.key == at.key {
        SomeIsNewest(l, index, entries, at, o, m);
      } else {
        NoneIsNewest(l, index, entries, at, o);
      }
    }
  }

  lemma NoVersion(l: Links, index: map<SerializedKey, nat>, entries: map<KeyTs, ValueMeta>, at: KeyTs, o: nat, k: KeyTs)
    requires Indexed(l, index) && Encodes(entries, ContentsOf(l, index)) && NULL !in l.nodes && at.key != []
    requires LeastFrom(SerializedLt, l, Serialize(at), o)
    requires o in l.nodes ==> FromBytes(l.nodes[o].key).key != at.key
    requires k in entries && k.key == at.key
    ensures k.ts > at.ts
  {
    if k.ts <= at.ts {
      LeastIsNewerThan(l, index, entries, at, o, k);
    }
  }

  lemma NoneIsNewest(l: Links, index: map<SerializedKey, nat>, entries: map<KeyTs, ValueMeta>, at: KeyTs, o: nat)
    requires Indexed(l, index) && Encodes(entries, ContentsOf(l, index)) && NULL !in l.nodes && at.key != []
    requires LeastFrom(SerializedLt, l, Serialize(at), o)
    requires o in l.nodes ==> FromBytes(l.nodes[o].key).key != at.key
    ensures IsNewest(entries, at, None)
  {
    forall k | k in entries && k.key == at.key
      ensures k.ts > at.ts
    {
      NoVersion(l, index, entries, at, o, k);
    }
  }

  lemma SomeIsNewest(l: Links, index: map<SerializedKey, nat>, entries: map<KeyTs, ValueMeta>, at: KeyTs, o: nat,
                     m: KeyTs)
    requires Indexed(l, index) && Encodes(entries, ContentsOf(l, index)) && NULL !in l.nodes && at.key != []
    requires LeastFrom(SerializedLt, l, Serialize(at), o)
    requires o in l.nodes && FromBytes(l.nodes[o].key) == m && m.key == at.key && m in entries
    ensures IsNewest(entries, at, Some((m.ts, entries[m])))
  {
    NotNewer(l, index, entries, at, o);
    forall k | k in entries && k.key == at.key && k.ts <= at.ts
      ensures k.ts <= m.ts
    {
      LeastIsNewerThan(l, index, entries, at, o, k);
    }
    NewestFrom(entries, at, m);
  }

  lemma LeastIsNewerThan(l: Links, index: map<SerializedKey, nat>, entries: map<KeyTs, ValueMeta>, at: KeyTs, o: nat,
                         k: KeyTs)
    requires Indexed(l, index) && Encodes(entries, ContentsOf(l, index)) && NULL !in l.nodes && at.key != []
    requires LeastFrom(SerializedLt, l, Serialize(at), o)
    requires k in entries && k.key == at.key && k.ts <= at.ts
    ensures o in l.nodes && FromBytes(l.nodes[o].key).key == at.key && k.ts <= FromBytes(l.nodes[o].key).ts
  {
    var p := EntryHasNode(l, index, entries, k);
    SameKeyOrder(k, at);
    assert o in l.nodes;
    NodeIsEntry(l, index, entries, o);
    var m := FromBytes(l.nodes[o].key);
    NotBoth(m, k);
    BetweenVersions(at, m, k);
    SameKeyOrder(k, m);
  }

  lemma ExactIsEntry(l: Links, index: map<SerializedKey, nat>, entries: map<KeyTs, ValueMeta>, at: KeyTs, o: nat)
    requires Indexed(l, index) && Encodes(entries, ContentsOf(l, index)) && NULL !in l.nodes && at.key != []
    requires FoundExactly(l, Serialize(at), o)
    ensures IsExact(entries, at, Answer(l, at, o))
  {
    SerializeRoundTrip(at);
    if o != NULL {
      NodeIsEntry(l, index, entries, o);
    } else if at in entries {
      var p := EntryHasNode(l, index, entries, at);
    }
  }

  lemma SerializeInjective(a: KeyTs, b: KeyTs)
    requires a.key != [] && Serialize(a) == Serialize(b)
    ensures a == b
  {
    SerializeRoundTrip(a);
    SerializeRoundTrip(b);
  }

  lemma StoredAfter(contents: map<SerializedKey, Bytes>, key: KeyTs, value: ValueMeta, e: KeyTs, v: ValueMeta)
    requires key.key != []
    requires if e == key then v == value else Stored(contents, e, v)
    ensures Stored(contents[Serialize(key) := SerializeValue(value)], e, v)
  {
    if e != key && Serialize(e) == Serialize(key) {
      SerializeInjective(key, e);
    }
  }

  lemma EncodesPush(entries: map<KeyTs, ValueMeta>, contents: map<SerializedKey, Bytes>, key: KeyTs, value: ValueMeta)
    requires Encodes(entries, contents) && key.key != []
    ensures Encodes(entries[key := value], contents[Serialize(key) := SerializeValue(value)])
  {
    StoredAll(entries, contents, key, value);
    DecodedAll(entries, contents, key, value, SerializeValue(value));
  }

  lemma StoredAll(entries: map<KeyTs, ValueMeta>, contents: map<SerializedKey, Bytes>, key: KeyTs, value: ValueMeta)
    requires key.key != []
    requires forall k {:trigger Stored(contents, k, entries[k])} :: k in entries ==> Stored(contents, k, entries[k])
    ensures var entries', contents' := entries[key := value], contents[Serialize(key) := SerializeValue(value)];
      forall k {:trigger Stored(contents', k, entries'[k])} :: k in entries' ==> Stored(contents', k, entries'[k])
  {
    var entries' := entries[key := value];
    forall k | k in entries'
      ensures Stored(contents[Serialize(key) := SerializeValue(value)], k, entries'[k])
    {
      assert k in entries ==> Stored(contents, k, entries[k]);
      StoredAfter(contents, key, value, k, entries'[k]);
    }
  }

  lemma DecodedAll(entries: map<KeyTs, ValueMeta>, contents: map<SerializedKey, Bytes>, key: KeyTs,
                   value: ValueMeta, v: Bytes)
    requires key.key != [] && forall b :: b in contents ==> FromBytes(b) in entries
    ensures forall b :: b in contents[Serialize(key) := v] ==> FromBytes(b) in entries[key := value]
  {
    SerializeRoundTrip(key);
  }

  class MemTable {
    const list: SkipList
    var maxVersion: nat
    /** Every version pushed, with its last value. */
    ghost var entries: map<KeyTs, ValueMeta>

    ghost predicate Valid()
      reads this, list
    {
      list.Valid() && list.lt == SerializedLt && Encodes(entries, list.Contents())
    }

    constructor (arenaSize: nat)
      requires NODE_SIZE <= arenaSize < 0xFFFF_FFF0
      ensures Valid() && entries == map[] && maxVersion == 0 && fresh(list)
    {
      SerializedLtIsStrictTotalOrder();
      list := new SkipList(arenaSize, SerializedLt);
      maxVersion := 0;
      entries := map[];
    }

    /** `push`; `ok` is false where the arena is full. */
    method Push(e: Entry, randomHeight: nat) returns (ok: bool)
      requires Valid() && e.key.key != [] && |e.key.key| + 8 < 0x1_0000 && 1 <= randomHeight <= MAX_HEIGHT
      modifies this, list
      ensures Valid()
      ensures e.value.meta >= 128 ==> ok && entries == old(entries) && maxVersion == old(maxVersion)
      ensures e.value.meta < 128 ==> entries == if ok then old(entries)[e.key := e.value] else old(entries)
      ensures old(list.ptr) + NODE_SIZE + RoundUp8(|e.key.key| + 8) + RoundUp8(|SerializeValue(e.value)|) <= list.limit
              ==> ok
      ensures e.value.meta < 128 ==>
                maxVersion == if ok && e.key.ts > old(maxVersion) then e.key.ts else old(maxVersion)
    {
      ClosingIsHighest(e);
      if ClosesTxn(e) {
        return true;
      }
      var k, v := Serialize(e.key), SerializeValue(e.value);
      ghost var before := list.Contents();
      ok := list.Push(k, v, randomHeight);
      if ok {
        EncodesPush(entries, before, e.key, e.value);
        maxVersion := if e.key.ts > maxVersion then e.key.ts else maxVersion;
        entries := entries[e.key := e.value];
      }
    }

    /** `get`: with `allowNear` the newest version at or below the timestamp, of exactly that user
        key; without it, exactly that version. */
    method Get(at: KeyTs, allowNear: bool) returns (r: Option<(TxnTs, ValueMeta)>)
      requires Valid() && at.key != []
      ensures allowNear ==> IsNewest(entries, at, r)
      ensures !allowNear ==> IsExact(entries, at, r)
    {
      var o := list.FindOrNear(Serialize(at), allowNear);
      if allowNear {
        LeastIsNewest(list.links, list.index, entries, at, o);
      } else {
        ExactIsEntry(list.links, list.index, entries, at, o);
      }
      r := Answer(list.links, at, o);
    }
  }
}
