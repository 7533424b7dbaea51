/** Versioned keys (src/kv.rs): a user key with a transaction timestamp, its 8-byte-suffix
    serialization, and the comparisons on decoded, serialized and mixed operands. */
module Keys {
  import opened Bytes

  const U64_LIMIT: nat := Pow256(8)

  type TxnTs = t: nat | t < U64_LIMIT witness (U64Positive(); 0)

  lemma U64Positive()
    ensures 0 < U64_LIMIT
  {
  }

  datatype KeyTs = KeyTs(key: Bytes, ts: TxnTs)

  /** `KeyTs::is_empty`: equal to the default value, not merely an empty user key. */
  predicate IsDefault(k: KeyTs) {
    k.key == [] && k.ts == 0
  }

  /** `Ord for KeyTs`: user key ascending, timestamp descending. */
  function CompareKeyTs(a: KeyTs, b: KeyTs): Ordering {
    Compare(a.key, b.key).Then(CompareInt(b.ts, a.ts))
  }

  function Serialize(k: KeyTs): Bytes {
    k.key + PutBe(k.ts, 8)
  }

  /** `From<&[u8]> for KeyTs`. */
  function FromBytes(b: Bytes): KeyTs {
    if |b| <= 8 then KeyTs(b, 0)
    else KeyTs(b[..|b| - 8], GetBe(b[|b| - 8..]))
  }

  // `KeyTsBorrow::key` and `KeyTsBorrow::txn_ts`.
  function BorrowKey(b: Bytes): Bytes {
    if |b| >= 8 then b[..|b| - 8] else b
  }

  function BorrowTs(b: Bytes): TxnTs {
    if |b| >= 8 then GetBe(b[|b| - 8..]) else U64Positive(); 0
  }

  /** `KeyTsBorrow::cmp`, the comparator given to the skip list. */
  function CompareSerialized(l: Bytes, r: Bytes): Ordering {
    if |l| > 8 && |r| > 8 then
      Compare(l[..|l| - 8], r[..|r| - 8]).Then(Compare(r[|r| - 8..], l[|l| - 8..]))
    else
      Compare(l, r)
  }

  /** `PartialOrd for KeyTsBorrow`; shorter operands underflow in the source. */
  function CompareBorrow(l: Bytes, r: Bytes): Ordering
    requires |l| >= 8 && |r| >= 8
  {
    Compare(l[..|l| - 8], r[..|r| - 8]).Then(Compare(r[|r| - 8..], l[|l| - 8..]))
  }

  /** `PartialOrd<KeyTsBorrow> for KeyTs`. */
  function CompareOwnedBorrow(l: KeyTs, r: Bytes): Ordering {
    Compare(l.key, BorrowKey(r)).Then(CompareInt(BorrowTs(r), l.ts))
  }

  /** `PartialOrd<KeyTs> for KeyTsBorrow`. */
  function CompareBorrowOwned(l: Bytes, r: KeyTs): Ordering {
    Compare(BorrowKey(l), r.key).Then(CompareInt(r.ts, BorrowTs(l)))
  }

  // ---------- serialization ----------

  /** Serialization can be undone exactly for non-empty user keys: the decoder takes any
      string of at most eight bytes for a bare user key. */
  lemma SerializeRoundTrip(k: KeyTs)
    ensures FromBytes(Serialize(k)) == k <==> k.key != []
    ensures BorrowKey(Serialize(k)) == k.key && BorrowTs(Serialize(k)) == k.ts
  {
    var b := Serialize(k);
    assert b[..|b| - 8] == k.key && b[|b| - 8..] == PutBe(k.ts, 8);
    GetPut(k.ts, 8);
  }

  lemma DeserializeRoundTrip(b: Bytes)
    requires |b| > 8
    ensures Serialize(FromBytes(b)) == b
  {
    PutGet(b[|b| - 8..]);
  }

  // ---------- order ----------

  /** With a non-empty user part on both sides, every comparison of the file is
      `KeyTs::cmp` on the decoded keys. */
  lemma ComparisonsAgree(l: Bytes, r: Bytes)
    requires |l| > 8 && |r| > 8
    ensures CompareSerialized(l, r) == CompareKeyTs(FromBytes(l), FromBytes(r))
    ensures CompareBorrow(l, r) == CompareKeyTs(FromBytes(l), FromBytes(r))
    ensures CompareOwnedBorrow(FromBytes(l), r) == CompareKeyTs(FromBytes(l), FromBytes(r))
    ensures CompareBorrowOwned(l, FromBytes(r)) == CompareKeyTs(FromBytes(l), FromBytes(r))
  {
    BigEndianOrder(r[|r| - 8..], l[|l| - 8..]);
  }

  /** The same on the way in: serializing keeps the order of non-empty keys. */
  lemma SerializeKeepsOrder(a: KeyTs, b: KeyTs)
    requires a.key != [] && b.key != []
    ensures CompareSerialized(Serialize(a), Serialize(b)) == CompareKeyTs(a, b)
  {
    SerializeRoundTrip(a);
    SerializeRoundTrip(b);
    ComparisonsAgree(Serialize(a), Serialize(b));
  }

  /** Without a user part the byte comparator sorts versions the wrong way round. */
  lemma EmptyKeysSortAscending(t: TxnTs, u: TxnTs)
    ensures CompareSerialized(Serialize(KeyTs([], t)), Serialize(KeyTs([], u)))
         == CompareKeyTs(KeyTs([], t), KeyTs([], u)).Reverse()
  {
    var a, b := PutBe(t, 8), PutBe(u, 8);
    assert [] + a == a && [] + b == b;
    BigEndianOrder(a, b);
    GetPut(t, 8);
    GetPut(u, 8);
  }

  lemma CompareKeyTsEqual(a: KeyTs, b: KeyTs)
    ensures CompareKeyTs(a, b) == Equal <==> a == b
  {
    CompareEqual(a.key, b.key);
  }

  lemma CompareKeyTsReverse(a: KeyTs, b: KeyTs)
    ensures CompareKeyTs(b, a) == CompareKeyTs(a, b).Reverse()
  {
    CompareReverse(a.key, b.key);
  }

  lemma CompareKeyTsTransitive(a: KeyTs, b: KeyTs, c: KeyTs)
    requires CompareKeyTs(a, b) != Greater && CompareKeyTs(b, c) != Greater
    ensures CompareKeyTs(a, c) != Greater
    ensures CompareKeyTs(a, c) == Equal ==> CompareKeyTs(a, b) == Equal && CompareKeyTs(b, c) == Equal
  {
    CompareTransitive(a.key, b.key, c.key);
  }

  // ---------- the order as a relation ----------

  predicate Lt(a: KeyTs, b: KeyTs) {
    CompareKeyTs(a, b) == Less
  }

  /** Serialized keys with a non-empty user part. */
  type SerializedKey = b: Bytes | |b| > 8 witness [0, 0, 0, 0, 0, 0, 0, 0, 0]

  type Order = (SerializedKey, SerializedKey) -> bool

  predicate SerializedLt(a: SerializedKey, b: SerializedKey) {
    CompareSerialized(a, b) == Less
  }

  ghost predicate StrictTotalOrder<T(!new)>(lt: (T, T) -> bool) {
    && (forall a :: !lt(a, a))
    && (forall a, b {:trigger lt(a, b)} :: a == b || lt(a, b) || lt(b, a))
    && (forall a, b, c {:trigger lt(a, b), lt(b, c)} :: lt(a, b) && lt(b, c) ==> lt(a, c))
  }

  lemma LtIsStrictTotalOrder()
    ensures StrictTotalOrder(Lt)
  {
    forall a: KeyTs
      ensures !Lt(a, a)
    {
      CompareKeyTsEqual(a, a);
    }
    forall a: KeyTs, b: KeyTs
      ensures a == b || Lt(a, b) || Lt(b, a)
    {
      CompareKeyTsEqual(a, b);
      CompareKeyTsReverse(a, b);
    }
    forall a: KeyTs, b: KeyTs, c: KeyTs | Lt(a, b) && Lt(b, c)
      ensures Lt(a, c)
    {
      CompareKeyTsTransitive(a, b, c);
    }
  }

  /** The byte comparator is a strict total order on serialized keys. */
  lemma SerializedLtIsStrictTotalOrder()
    ensures StrictTotalOrder(SerializedLt)
  {
    LtIsStrictTotalOrder();
    forall a: SerializedKey, b: SerializedKey
      ensures SerializedLt(a, b) == Lt(FromBytes(a), FromBytes(b))
      ensures FromBytes(a) == FromBytes(b) ==> a == b
    {
      ComparisonsAgree(a, b);
      DeserializeRoundTrip(a);
      DeserializeRoundTrip(b);
    }
    forall a: SerializedKey, b: SerializedKey, c: SerializedKey | SerializedLt(a, b) && SerializedLt(b, c)
      ensures SerializedLt(a, c)
    {
      assert Lt(FromBytes(a), FromBytes(b)) && Lt(FromBytes(b), FromBytes(c));
    }
  }
}
