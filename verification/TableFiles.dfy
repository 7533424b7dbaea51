/** Table files (src/table/write.rs, src/table/mod.rs): finished blocks, then the index, and a footer that is read
    from the end. Codecs and checksums are abstract. */
module TableFiles {
  import opened Options
  import opened Bytes
  import opened Keys
  import opened Values
  import opened Blocks
  import Seqs
  import Blooms

  datatype BlockOffset = BlockOffset(keyTs: Bytes, offset: nat, len: nat)

  datatype TableIndex = TableIndex(
    offsets: seq<BlockOffset>,
    bloom: Option<Blooms.Filter>,
    maxVersion: nat,
    keyCount: nat)

  /** `pack` compresses and encrypts a block, `packIndex` encodes and encrypts an index; their second argument is
      the nonce that was drawn. `sum` gives the encoded checksum. */
  datatype Codec = Codec(
    pack: (Bytes, nat) -> Bytes,
    unpack: Bytes -> Option<Bytes>,
    packIndex: (TableIndex, nat) -> Bytes,
    unpackIndex: Bytes -> Option<TableIndex>,
    sum: Bytes -> Bytes)

  /** Packing can be undone, and a checksum is small enough for its 32-bit length (see module PlainCodec for one). */
  ghost predicate Sound(c: Codec) {
    && (forall b, n :: c.unpack(c.pack(b, n)) == Some(b))
    && (forall i, n :: c.unpackIndex(c.packIndex(i, n)) == Some(i))
    && (forall b :: |c.sum(b)| < U32_LIMIT)
  }

  // ---------- what a file holds ----------

  /** The stored bytes `packed` give a block that holds `rows` and has the right checksum. */
  ghost predicate Unpacks(c: Codec, packed: Bytes, blockIndex: nat, rows: seq<Row>) {
    && c.unpack(packed).Some?
    && var r := Parsed(blockIndex, c.unpack(packed).value);
       && r.Some? && BlockHolds(r.value, rows) && r.value.blockIndex == blockIndex
       && r.value.checksum == c.sum(r.value.data)
  }

  ghost predicate Stored(c: Codec, baseKey: Bytes, packed: Bytes, rows: seq<Row>) {
    rows != [] && baseKey == rows[0].key && forall j :: Unpacks(c, packed, j, rows)
  }

  ghost predicate StoredAt(c: Codec, baseKeys: seq<Bytes>, packed: seq<Bytes>, blocks: seq<seq<Row>>, i: nat)
    requires i < |baseKeys| == |packed| == |blocks|
  {
    Stored(c, baseKeys[i], packed[i], blocks[i])
  }

  ghost predicate AllStored(c: Codec, baseKeys: seq<Bytes>, packed: seq<Bytes>, blocks: seq<seq<Row>>) {
    && |baseKeys| == |packed| == |blocks|
    && (forall i :: 0 <= i < |blocks| ==> StoredAt(c, baseKeys, packed, blocks, i))
  }

  /** `offsets` says where each of the blocks is. */
  ghost predicate Locates(offsets: seq<BlockOffset>, baseKeys: seq<Bytes>, packed: seq<Bytes>) {
    && |offsets| == |baseKeys| == |packed|
    && (forall i :: 0 <= i < |offsets| ==>
          offsets[i] == BlockOffset(baseKeys[i], |Seqs.Flatten(packed[..i])|, |packed[i]|))
  }

  function Footer(index: Bytes, checksum: Bytes): Bytes
    requires |index| < U32_LIMIT && |checksum| < U32_LIMIT
  {
    Limits();
    index + PutBe(|index|, 4) + (checksum + PutBe(|checksum|, 4))
  }

  /** What a file was made from. */
  datatype Layout = Layout(
    blocks: seq<seq<Row>>,
    baseKeys: seq<Bytes>,
    packed: seq<Bytes>,
    index: TableIndex,
    indexBytes: Bytes)

  ghost predicate IsFile(c: Codec, file: Bytes, lay: Layout) {
    && |lay.indexBytes| < U32_LIMIT && |c.sum(lay.indexBytes)| < U32_LIMIT
    && file == Seqs.Flatten(lay.packed) + Footer(lay.indexBytes, c.sum(lay.indexBytes))
    && c.unpackIndex(lay.indexBytes) == Some(lay.index)
    && lay.blocks != [] && AllStored(c, lay.baseKeys, lay.packed, lay.blocks)
    && Locates(lay.index.offsets, lay.baseKeys, lay.packed)
  }

  ghost function Rows(lay: Layout): seq<Row> {
    Seqs.Flatten(lay.blocks)
  }

  // ---------- building ----------

  function MaxVersion(rows: seq<Row>): nat {
    if rows == [] then 0
    else
      var m, ts := MaxVersion(rows[..|rows| - 1]), BorrowTs(rows[|rows| - 1].key);
      if ts > m then ts else m
  }

  /** The largest timestamp among the rows. */
  lemma {:induction false} MaxVersionIs(rows: seq<Row>)
    ensures forall i :: 0 <= i < |rows| ==> BorrowTs(rows[i].key) <= MaxVersion(rows)
    ensures rows != [] ==> exists i :: 0 <= i < |rows| && BorrowTs(rows[i].key) == MaxVersion(rows)
  {
    if rows != [] {
      var n := |rows| - 1;
      var init := rows[..n];
      MaxVersionIs(init);
      forall i | 0 <= i < n
        ensures BorrowTs(rows[i].key) <= MaxVersion(init)
      {
        assert init[i] == rows[i];
      }
      if n > 0 && BorrowTs(rows[n].key) <= MaxVersion(init) {
        var i :| 0 <= i < n && BorrowTs(init[i].key) == MaxVersion(init);
        assert init[i] == rows[i];
      } else {
        assert BorrowTs(rows[n].key) == MaxVersion(rows);
      }
    }
  }

  const NONCE_SIZE: nat := 12

  /** The size that `should_finish_block` expects with one more row. */
  function Estimate(data: Bytes, entries: nat, row: Row, encrypted: bool): nat {
    |data| + 6 + |row.key| + |SerializeValue(row.value)| + (entries + 1) * 4 + 16
    + if encrypted then NONCE_SIZE else 0
  }

  /** Blocks that were closed, and what they held. */
  ghost predicate HashesOf(hash: Bytes -> Blooms.Hash, hashes: seq<Blooms.Hash>, rows: seq<Row>) {
    |hashes| == |rows| && forall i :: 0 <= i < |rows| ==> hashes[i] == hash(BorrowKey(rows[i].key))
  }

  /** `packed` is what the builder makes of `rows`: their block, finished and packed with `nonce`. */
  ghost predicate Made(c: Codec, baseKey: Bytes, packed: Bytes, rows: seq<Row>, nonce: nat) {
    exists data, offsets :: MadeOf(c, baseKey, packed, rows, nonce, data, offsets)
  }

  ghost predicate MadeOf(c: Codec, baseKey: Bytes, packed: Bytes, rows: seq<Row>, nonce: nat, data: Bytes,
                         offsets: seq<U32>) {
    && BuilderOk(data, baseKey, offsets, rows) && rows != []
    && |c.sum(FinishedData(data, offsets))| < U32_LIMIT && packed == c.pack(Finished(data, offsets, c.sum), nonce)
  }

  ghost predicate MadeAt(c: Codec, baseKeys: seq<Bytes>, packed: seq<Bytes>, blocks: seq<seq<Row>>, drawn: seq<nat>,
                         i: nat)
    requires i < |baseKeys| == |packed| == |blocks| == |drawn|
  {
    Made(c, baseKeys[i], packed[i], blocks[i], drawn[i])
  }

  /** Every block was made with its nonce. */
  ghost predicate AllMade(c: Codec, baseKeys: seq<Bytes>, packed: seq<Bytes>, blocks: seq<seq<Row>>, drawn: seq<nat>) {
    && |baseKeys| == |packed| == |blocks| == |drawn|
    && (forall i :: 0 <= i < |blocks| ==> MadeAt(c, baseKeys, packed, blocks, drawn, i))
  }

  lemma FinishedIsMade(c: Codec, baseKey: Bytes, rows: seq<Row>, nonce: nat, data: Bytes, offsets: seq<U32>)
    requires Sound(c) && BuilderOk(data, baseKey, offsets, rows) && rows != []
    ensures Made(c, baseKey, c.pack(Finished(data, offsets, c.sum), nonce), rows, nonce)
  {
    assert MadeOf(c, baseKey, c.pack(Finished(data, offsets, c.sum), nonce), rows, nonce, data, offsets);
  }

  /** What was made can be unpacked. */
  lemma MadeUnpacks(c: Codec, baseKey: Bytes, packed: Bytes, rows: seq<Row>, nonce: nat)
    requires Sound(c) && Made(c, baseKey, packed, rows, nonce)
    ensures Stored(c, baseKey, packed, rows)
  {
    var data, offsets :| MadeOf(c, baseKey, packed, rows, nonce, data, offsets);
    assert c.unpack(packed) == Some(Finished(data, offsets, c.sum));
    forall j
      ensures Unpacks(c, packed, j, rows)
    {
      BlockRoundTrip(j, data, offsets, rows, c.sum);
    }
  }

  lemma AllMadeStored(c: Codec, baseKeys: seq<Bytes>, packed: seq<Bytes>, blocks: seq<seq<Row>>, drawn: seq<nat>)
    requires Sound(c) && AllMade(c, baseKeys, packed, blocks, drawn)
    ensures AllStored(c, baseKeys, packed, blocks)
  {
    forall i | 0 <= i < |blocks|
      ensures StoredAt(c, baseKeys, packed, blocks, i)
    {
      assert MadeAt(c, baseKeys, packed, blocks, drawn, i);
      MadeUnpacks(c, baseKeys[i], packed[i], blocks[i], drawn[i]);
    }
  }

  lemma MadeMore(c: Codec, baseKeys: seq<Bytes>, packed: seq<Bytes>, blocks: seq<seq<Row>>, drawn: seq<nat>,
                 k: Bytes, p: Bytes, rows: seq<Row>, nonce: nat)
    requires AllMade(c, baseKeys, packed, blocks, drawn) && Made(c, k, p, rows, nonce)
    ensures AllMade(c, baseKeys + [k], packed + [p], blocks + [rows], drawn + [nonce])
  {
    forall i | 0 <= i <= |blocks|
      ensures MadeAt(c, baseKeys + [k], packed + [p], blocks + [rows], drawn + [nonce], i)
    {
      assert i < |blocks| ==> MadeAt(c, baseKeys, packed, blocks, drawn, i);
    }
  }

  lemma MaxVersionSnoc(rows: seq<Row>, row: Row)
    ensures MaxVersion(rows + [row]) == if BorrowTs(row.key) > MaxVersion(rows) then BorrowTs(row.key)
      else MaxVersion(rows)
  {
    assert (rows + [row])[..|rows|] == rows;
  }

  /** `build_index`: the offsets of the blocks; `ok` is false where a size exceeds 32 bits. */
  method BuildOffsets(baseKeys: seq<Bytes>, packed: seq<Bytes>) returns (ok: bool, offsets: seq<BlockOffset>)
    requires |baseKeys| == |packed|
    ensures ok == (|Seqs.Flatten(packed)| < U32_LIMIT)
    ensures ok ==> Locates(offsets, baseKeys, packed)
  {
    var dataSize := 0;
    offsets := [];
    for i := 0 to |packed|
      invariant dataSize == |Seqs.Flatten(packed[..i])| < U32_LIMIT
      invariant Locates(offsets, baseKeys[..i], packed[..i])
    {
      Seqs.FlattenPart(packed, i);
      if dataSize + |packed[i]| >= U32_LIMIT {
        return false, offsets;
      }
      LocatesMore(offsets, baseKeys, packed, i);
      offsets := offsets + [BlockOffset(baseKeys[i], dataSize, |packed[i]|)];
      dataSize := dataSize + |packed[i]|;
    }
    assert packed[..|packed|] == packed && baseKeys[..|packed|] == baseKeys;
    return true, offsets;
  }

  lemma LocatesMore(offsets: seq<BlockOffset>, baseKeys: seq<Bytes>, packed: seq<Bytes>, i: nat)
    requires i < |packed| == |baseKeys| && Locates(offsets, baseKeys[..i], packed[..i])
    ensures var o := BlockOffset(baseKeys[i], |Seqs.Flatten(packed[..i])|, |packed[i]|);
      Locates(offsets + [o], baseKeys[..i + 1], packed[..i + 1])
  {
    forall j | 0 <= j < i + 1
      ensures packed[..i + 1][..j] == packed[..j]
      ensures j < i ==> packed[..i][..j] == packed[..j]
    {
    }
  }

  method CopyInto(buf: array<Byte>, at: nat, src: Bytes)
    requires at + |src| <= buf.Length
    modifies buf
    ensures buf[..at] == old(buf[..at]) && buf[at..at + |src|] == src
  {
    for i := 0 to |src|
      invariant buf[..at] == old(buf[..at]) && buf[at..at + i] == src[..i]
    {
      buf[at + i] := src[i];
    }
  }

  /** Appends `src` after the first `written` bytes. */
  method Put(buf: array<Byte>, written: nat, src: Bytes, ghost before: Bytes) returns (w: nat)
    requires written + |src| <= buf.Length && buf[..written] == before
    modifies buf
    ensures w == written + |src| && buf[..w] == before + src
  {
    CopyInto(buf, written, src);
    w := written + |src|;
    assert buf[..w] == buf[..written] + buf[written..w];
  }

  /** `read_all`: fills the buffer with the file. */
  method ReadAll(packed: seq<Bytes>, index: Bytes, checksum: Bytes, buf: array<Byte>)
    requires |index| < U32_LIMIT && |checksum| < U32_LIMIT
    requires buf.Length == |Seqs.Flatten(packed)| + |index| + 4 + |checksum| + 4
    modifies buf
    ensures buf[..] == Seqs.Flatten(packed) + Footer(index, checksum)
  {
    Limits();
    var written := 0;
    for i := 0 to |packed|
      invariant written == |Seqs.Flatten(packed[..i])| <= |Seqs.Flatten(packed)|
      invariant buf[..written] == Seqs.Flatten(packed[..i])
    {
      Seqs.FlattenPart(packed, i);
      assert packed[..i + 1][..i] == packed[..i];
      written := Put(buf, written, packed[i], Seqs.Flatten(packed[..i]));
    }
    assert packed[..|packed|] == packed;
    ghost var d := Seqs.Flatten(packed);
    written := Put(buf, written, index, d);
    written := Put(buf, written, PutBe(|index|, 4), d + index);
    written := Put(buf, written, checksum, d + index + PutBe(|index|, 4));
    written := Put(buf, written, PutBe(|checksum|, 4), d + index + PutBe(|index|, 4) + checksum);
    assert buf[..] == buf[..written];
    Seqs.Regroup(d, index, PutBe(|index|, 4));
    Seqs.Regroup(d, index + PutBe(|index|, 4), checksum + PutBe(|checksum|, 4));
    Seqs.Regroup(d + index + PutBe(|index|, 4), checksum, PutBe(|checksum|, 4));
  }

  lemma HashesSnoc(hash: Bytes -> Blooms.Hash, hashes: seq<Blooms.Hash>, rows: seq<Row>, row: Row)
    requires HashesOf(hash, hashes, rows)
    ensures HashesOf(hash, hashes + [hash(BorrowKey(row.key))], rows + [row])
  {
    var hashes', rows' := hashes + [hash(BorrowKey(row.key))], rows + [row];
    forall i | 0 <= i < |rows'|
      ensures hashes'[i] == hash(BorrowKey(rows'[i].key))
    {
      assert i < |rows| ==> hashes'[i] == hashes[i] && rows'[i] == rows[i];
    }
  }

  /** `rows` are those of the finished blocks and of the current one; their hashes and the largest version are kept. */
  ghost predicate Accounts(hash: Bytes -> Blooms.Hash, blocks: seq<seq<Row>>, cur: seq<Row>, rows: seq<Row>,
                           hashes: seq<Blooms.Hash>, maxVersion: nat) {
    && rows == Seqs.Flatten(blocks) + cur
    && HashesOf(hash, hashes, rows) && maxVersion == MaxVersion(rows)
  }

  lemma AccountsRow(hash: Bytes -> Blooms.Hash, blocks: seq<seq<Row>>, cur: seq<Row>, rows: seq<Row>,
                    hashes: seq<Blooms.Hash>, maxVersion: nat, row: Row)
    requires Accounts(hash, blocks, cur, rows, hashes, maxVersion)
    ensures Accounts(hash, blocks, cur + [row], rows + [row], hashes + [hash(BorrowKey(row.key))],
                     if BorrowTs(row.key) > maxVersion then BorrowTs(row.key) else maxVersion)
  {
    HashesSnoc(hash, hashes, rows, row);
    MaxVersionSnoc(rows, row);
    Seqs.Regroup(Seqs.Flatten(blocks), cur, [row]);
  }

  lemma AccountsBlock(hash: Bytes -> Blooms.Hash, blocks: seq<seq<Row>>, cur: seq<Row>, rows: seq<Row>,
                      hashes: seq<Blooms.Hash>, maxVersion: nat)
    requires Accounts(hash, blocks, cur, rows, hashes, maxVersion)
    ensures Accounts(hash, blocks + [cur], [], rows, hashes, maxVersion)
  {
    Seqs.FlattenSnoc(blocks, cur);
    assert rows + [] == rows;
  }

  /** A block that is finished and packed joins those before it. */
  lemma BlockClosed(c: Codec, hash: Bytes -> Blooms.Hash, baseKeys: seq<Bytes>, packed: seq<Bytes>,
                    blocks: seq<seq<Row>>, drawn: seq<nat>, cur: seq<Row>, rows: seq<Row>,
                    hashes: seq<Blooms.Hash>, maxVersion: nat,
                    baseKey: Bytes, data: Bytes, offsets: seq<U32>, nonce: nat)
    requires Sound(c) && AllMade(c, baseKeys, packed, blocks, drawn)
    requires Accounts(hash, blocks, cur, rows, hashes, maxVersion)
    requires BuilderOk(data, baseKey, offsets, cur) && cur != []
    ensures AllMade(c, baseKeys + [baseKey], packed + [c.pack(Finished(data, offsets, c.sum), nonce)],
                    blocks + [cur], drawn + [nonce])
    ensures Accounts(hash, blocks + [cur], [], rows, hashes, maxVersion)
  {
    FinishedIsMade(c, baseKey, cur, nonce, data, offsets);
    MadeMore(c, baseKeys, packed, blocks, drawn, baseKey, c.pack(Finished(data, offsets, c.sum), nonce), cur, nonce);
    AccountsBlock(hash, blocks, cur, rows, hashes, maxVersion);
  }

  class TableBuilder {
    const codec: Codec
    const blockSize: nat
    const encrypted: bool
    const hash: Bytes -> Blooms.Hash
    var cur: BlockBuilder
    // Base keys and stored bytes of the finished blocks.
    var baseKeys: seq<Bytes>
    var packed: seq<Bytes>
    var keyHashes: seq<Blooms.Hash>
    var maxVersion: nat
    /** The rows of the finished blocks, the nonces they were packed with, and all rows pushed. */
    ghost var blocks: seq<seq<Row>>
    ghost var drawn: seq<nat>
    ghost var rows: seq<Row>

    ghost predicate Valid()
      reads this, cur
    {
      && Sound(codec) && cur.Valid() && AllMade(codec, baseKeys, packed, blocks, drawn)
      && Accounts(hash, blocks, cur.rows, rows, keyHashes, maxVersion)
    }

    constructor (codec: Codec, blockSize: nat, encrypted: bool, hash: Bytes -> Blooms.Hash)
      requires Sound(codec)
      ensures Valid() && fresh(cur) && rows == [] && drawn == [] && this.codec == codec && this.hash == hash
    {
      this.codec, this.blockSize, this.encrypted, this.hash := codec, blockSize, encrypted, hash;
      baseKeys, packed, keyHashes, maxVersion, blocks, drawn, rows := [], [], [], 0, [], [], [];
      cur := new BlockBuilder();
    }

    /** `finish_cur_block`. */
    method FinishCurBlock(nonce: nat)
      requires Valid()
      modifies this`cur, this`baseKeys, this`packed, this`blocks, this`drawn, cur`data
      ensures Valid() && cur.rows == [] && (cur == old(cur) || fresh(cur))
      ensures drawn == old(drawn) + if old(cur.rows) == [] then [] else [nonce]
    {
      if |cur.entryOffsets| == 0 {
        return;
      }
      var p := PackBlock(nonce);
      NextBlock(nonce, p);
    }

    /** Files the packed block and starts a new one. */
    method NextBlock(nonce: nat, p: Bytes)
      requires Sound(codec)
      requires AllMade(codec, baseKeys + [cur.baseKey], packed + [p], blocks + [cur.rows], drawn + [nonce])
      requires Accounts(hash, blocks + [cur.rows], [], rows, keyHashes, maxVersion)
      modifies this`cur, this`baseKeys, this`packed, this`blocks, this`drawn
      ensures Valid() && cur.rows == [] && fresh(cur) && drawn == old(drawn) + [nonce]
    {
      baseKeys, packed := baseKeys + [cur.baseKey], packed + [p];
      blocks, drawn := blocks + [cur.rows], drawn + [nonce];
      cur := new BlockBuilder();
    }

    /** The bytes of the current block, finished and packed. */
    method PackBlock(nonce: nat) returns (p: Bytes)
      requires Valid() && cur.rows != []
      modifies cur`data
      ensures AllMade(codec, baseKeys + [cur.baseKey], packed + [p], blocks + [cur.rows], drawn + [nonce])
      ensures Accounts(hash, blocks + [cur.rows], [], rows, keyHashes, maxVersion)
    {
      BlockClosed(codec, hash, baseKeys, packed, blocks, drawn, cur.rows, rows, keyHashes, maxVersion,
                  cur.baseKey, cur.data, cur.entryOffsets, nonce);
      cur.FinishBlock(codec.sum);
      p := codec.pack(cur.data, nonce);
    }

    /** With the row, its offset, the number of entries, a checksum of 8 bytes and its length, and the nonce of an
        encrypted block, the current block would exceed the block size. */
    ghost predicate IsFull(row: Row)
      reads this, cur
    {
      && cur.rows != []
      && |cur.data| + 6 + |row.key| + |SerializeValue(row.value)| + 4 * (|cur.rows| + 1) + 4 + 8 + 4
         + (if encrypted then 12 else 0) > blockSize
    }

    /** The first part of `push_internal`: closes the block if the row would make it too large. `ok` is false where
        an assertion of `should_finish_block` fails. */
    method MakeRoom(row: Row, nonce: nat) returns (ok: bool)
      requires Valid()
      modifies this`cur, this`baseKeys, this`packed, this`blocks, this`drawn, cur`data
      ensures cur == old(cur) || fresh(cur)
      ensures Valid() && rows == old(rows) && (ok ==> |cur.data| < U32_LIMIT)
      ensures drawn == old(drawn) || drawn == old(drawn) + [nonce]
      ensures old(|cur.data| + Estimate(cur.data, |cur.entryOffsets|, row, encrypted)) < U32_LIMIT - 1 ==> ok
      ensures ok ==> cur.rows == if old(IsFull(row)) then [] else old(cur.rows)
    {
      if |cur.entryOffsets| == 0 {
        return true;
      }
      var estimate := Estimate(cur.data, |cur.entryOffsets|, row, encrypted);
      if |cur.data| + estimate >= U32_LIMIT - 1 {
        return false;
      }
      if estimate > blockSize {
        FinishCurBlock(nonce);
      }
      return true;
    }

    /** `push_internal`: the row comes after all others. `ok` is false where an assertion on a length fails. */
    method Push(row: Row, nonce: nat) returns (ok: bool)
      requires Valid()
      modifies this, cur
      ensures cur == old(cur) || fresh(cur)
      ensures ok ==> Valid() && rows == old(rows) + [row]
      ensures drawn == old(drawn) || drawn == old(drawn) + [nonce]
      ensures (&& |row.key| < U16_LIMIT
               && old(|cur.data| + Estimate(cur.data, |cur.entryOffsets|, row, encrypted)) < U32_LIMIT - 1) ==> ok
    {
      ok := MakeRoom(row, nonce);
      if ok {
        ok := Add(row);
      }
    }

    method Add(row: Row) returns (ok: bool)
      requires Valid() && |cur.data| < U32_LIMIT
      modifies this`keyHashes, this`maxVersion, this`rows, cur
      ensures ok ==> Valid() && rows == old(rows) + [row]
      ensures |row.key| < U16_LIMIT ==> ok
    {
      AccountsRow(hash, blocks, cur.rows, rows, keyHashes, maxVersion, row);
      ok := cur.PushEntry(row);
      if ok {
        keyHashes := keyHashes + [hash(BorrowKey(row.key))];
        maxVersion := if BorrowTs(row.key) > maxVersion then BorrowTs(row.key) else maxVersion;
        rows := rows + [row];
      }
    }

    /** `finish`: the file of all rows pushed; `None` where a size exceeds 32 bits. `probes` is the number of
        bloom probes, 0 for no filter. */
    method Finish(nonce: nat, probes: nat, bitsPerKey: nat) returns (r: Option<Bytes>, ghost lay: Layout)
      requires Valid() && probes <= 30
      modifies this`cur, this`baseKeys, this`packed, this`blocks, this`drawn, cur`data
      ensures Valid() && rows == old(rows) == Seqs.Flatten(blocks)
      ensures drawn == old(drawn) || drawn == old(drawn) + [nonce]
      ensures lay.blocks == blocks && lay.baseKeys == baseKeys && lay.packed == packed
      ensures Composes(codec, hash, lay, rows, probes, nonce)
      ensures r.None? <==> TooLarge(lay)
      ensures r.Some? && rows != [] ==> IsFile(codec, r.value, lay)
    {
      FinishCurBlock(nonce);
      assert Seqs.Flatten(blocks) + [] == Seqs.Flatten(blocks);
      AllMadeStored(codec, baseKeys, packed, blocks, drawn);
      r, lay := Composed(codec, hash, baseKeys, packed, keyHashes, maxVersion, blocks, rows, nonce, probes, bitsPerKey);
    }
  }

  /** What the index says about the rows besides their place. */
  ghost predicate Summarizes(hash: Bytes -> Blooms.Hash, index: TableIndex, rows: seq<Row>, probes: nat) {
    && index.maxVersion == MaxVersion(rows) && index.keyCount == |rows|
    && index.bloom.Some? == (probes > 0)
    && (probes > 0 ==>
          exists hashes :: HashesOf(hash, hashes, rows) && Blooms.IsFilter(index.bloom.value, hashes, probes))
  }

  /** `lay` holds the rows, and, unless its blocks are too large, an index of them packed with `nonce`. */
  ghost predicate Composes(c: Codec, hash: Bytes -> Blooms.Hash, lay: Layout, rows: seq<Row>, probes: nat, nonce: nat) {
    && Rows(lay) == rows
    && (|Seqs.Flatten(lay.packed)| < U32_LIMIT ==>
          && Locates(lay.index.offsets, lay.baseKeys, lay.packed) && Summarizes(hash, lay.index, rows, probes)
          && lay.indexBytes == c.packIndex(lay.index, nonce))
  }

  /** The blocks or the index exceed the 32 bits of an offset or a length. */
  ghost predicate TooLarge(lay: Layout) {
    |Seqs.Flatten(lay.packed)| >= U32_LIMIT || |lay.indexBytes| >= U32_LIMIT
  }

  /** The file of the finished blocks. */
  method Composed(c: Codec, ghost hash: Bytes -> Blooms.Hash, baseKeys: seq<Bytes>, packed: seq<Bytes>,
                  hashes: seq<Blooms.Hash>, maxVersion: nat, ghost blocks: seq<seq<Row>>, ghost rows: seq<Row>,
                  nonce: nat, probes: nat, bitsPerKey: nat)
    returns (r: Option<Bytes>, ghost lay: Layout)
    requires Sound(c) && AllStored(c, baseKeys, packed, blocks) && rows == Seqs.Flatten(blocks)
    requires HashesOf(hash, hashes, rows) && maxVersion == MaxVersion(rows) && probes <= 30
    ensures lay.blocks == blocks && lay.baseKeys == baseKeys && lay.packed == packed
    ensures Composes(c, hash, lay, rows, probes, nonce)
    ensures r.None? <==> TooLarge(lay)
    ensures r.Some? && rows != [] ==> IsFile(c, r.value, lay)
  {
    var bloom := None;
    if probes > 0 {
      var f := Blooms.New(hashes, probes, bitsPerKey);
      bloom := Some(f);
    }
    var ok, offsets := BuildOffsets(baseKeys, packed);
    if !ok {
      return None, Layout(blocks, baseKeys, packed, TableIndex([], None, 0, 0), []);
    }
    var index := TableIndex(offsets, bloom, maxVersion, |hashes|);
    var indexBytes := c.packIndex(index, nonce);
    lay := Layout(blocks, baseKeys, packed, index, indexBytes);
    if |indexBytes| >= U32_LIMIT {
      return None, lay;
    }
    var file := Assemble(packed, indexBytes, c.sum(indexBytes));
    return Some(file), lay;
  }

  method Assemble(packed: seq<Bytes>, index: Bytes, checksum: Bytes) returns (file: Bytes)
    requires |index| < U32_LIMIT && |checksum| < U32_LIMIT
    ensures file == Seqs.Flatten(packed) + Footer(index, checksum)
  {
    var size := SizeOf(packed);
    var buf := new Byte[size + |index| + 4 + |checksum| + 4](_ => 0);
    ReadAll(packed, index, checksum, buf);
    return buf[..];
  }

  method SizeOf(packed: seq<Bytes>) returns (size: nat)
    ensures size == |Seqs.Flatten(packed)|
  {
    size := 0;
    for i := 0 to |packed|
      invariant size == |Seqs.Flatten(packed[..i])|
    {
      Seqs.FlattenPart(packed, i);
      size := size + |packed[i]|;
    }
    assert packed[..|packed|] == packed;
  }

  // ---------- opening ----------

  /** `init_index`: index, its position and its length, from the end of the file; `None` for an error or a position
      out of bounds. */
  function InitIndex(c: Codec, file: Bytes): Option<(TableIndex, nat, nat)> {
    var p0 := |file| - 4;
    if p0 < 0 then None
    else
      var checksumLen := GetBe(file[p0..p0 + 4]);
      var p1 := p0 - checksumLen;
      if p1 < 0 then None
      else
        var checksum := file[p1..p1 + checksumLen];
        var p2 := p1 - 4;
        if p2 < 0 then None
        else
          var indexLen := GetBe(file[p2..p2 + 4]);
          var start := p2 - indexLen;
          if start < 0 then None
          else
            var data := file[start..start + indexLen];
            if checksum != c.sum(data) then None
            else
              var index := c.unpackIndex(data);
              if index.None? then None else Some((index.value, start, indexLen))
  }

  /** The footer leads back to the index. */
  lemma InitIndexOf(c: Codec, file: Bytes, lay: Layout)
    requires IsFile(c, file, lay)
    ensures InitIndex(c, file) == Some((lay.index, |Seqs.Flatten(lay.packed)|, |lay.indexBytes|))
  {
    var d, ix := Seqs.Flatten(lay.packed), lay.indexBytes;
    Limits();
    InitIndexIn(c, file, d, ix, PutBe(|ix|, 4), c.sum(ix), PutBe(|c.sum(ix)|, 4), lay.index);
  }

  lemma InitIndexIn(c: Codec, file: Bytes, d: Bytes, ix: Bytes, n: Bytes, ck: Bytes, m: Bytes, index: TableIndex)
    requires |ix| < Pow256(4) && |ck| < Pow256(4) && n == PutBe(|ix|, 4) && m == PutBe(|ck|, 4)
    requires file == d + (ix + n + (ck + m)) && ck == c.sum(ix) && c.unpackIndex(ix) == Some(index)
    ensures InitIndex(c, file) == Some((index, |d|, |ix|))
  {
    FooterParts(file, d, ix, n, ck, m);
    GetPut(|ix|, 4);
    GetPut(|ck|, 4);
    FooterRead(c, file, |d|, ix, ck, index);
  }

  lemma FooterRead(c: Codec, file: Bytes, start: nat, ix: Bytes, ck: Bytes, index: TableIndex)
    requires ck == c.sum(ix) && c.unpackIndex(ix) == Some(index) && |file| == start + |ix| + |ck| + 8
    requires GetBe(file[|file| - 4..|file| - 4 + 4]) == |ck|
    requires file[|file| - 4 - |ck|..|file| - 4 - |ck| + |ck|] == ck
    requires GetBe(file[|file| - 4 - |ck| - 4..|file| - 4 - |ck| - 4 + 4]) == |ix| && file[start..start + |ix|] == ix
    ensures InitIndex(c, file) == Some((index, start, |ix|))
  {
  }

  lemma FooterParts(file: Bytes, d: Bytes, ix: Bytes, n: Bytes, ck: Bytes, m: Bytes)
    requires |n| == |m| == 4 && file == d + (ix + n + (ck + m))
    ensures |file| == |d| + |ix| + |ck| + 8
    ensures file[|file| - 4..|file| - 4 + 4] == m && file[|file| - 4 - |ck|..|file| - 4 - |ck| + |ck|] == ck
    ensures file[|file| - 4 - |ck| - 4..|file| - 4 - |ck| - 4 + 4] == n && file[|d|..|d| + |ix|] == ix
  {
  }

  /** `get_block`. With `verify` the checksum is compared. */
  function GetBlock(c: Codec, file: Bytes, index: TableIndex, i: nat, verify: bool): Option<Block> {
    if i >= |index.offsets| then None
    else
      var o := index.offsets[i];
      if o.offset + o.len > |file| then None
      else
        var raw := c.unpack(file[o.offset..o.offset + o.len]);
        if raw.None? then None
        else
          var b := Parsed(i, raw.value);
          if b.None? || (verify && b.value.checksum != c.sum(b.value.data)) then None else b
  }

  lemma BlockBytes(c: Codec, file: Bytes, lay: Layout, i: nat)
    requires IsFile(c, file, lay) && i < |lay.blocks|
    ensures i < |lay.index.offsets| && i < |lay.packed|
    ensures var o := lay.index.offsets[i];
      o.offset + o.len <= |file| && file[o.offset..o.offset + o.len] == lay.packed[i]
  {
    var d := Seqs.Flatten(lay.packed);
    Seqs.FlattenPart(lay.packed, i);
    var lo := |Seqs.Flatten(lay.packed[..i])|;
    assert lay.index.offsets[i] == BlockOffset(lay.baseKeys[i], lo, |lay.packed[i]|);
    FilePart(file, d, Footer(lay.indexBytes, c.sum(lay.indexBytes)), lo, lo + |lay.packed[i]|);
  }

  lemma BlockStored(c: Codec, file: Bytes, lay: Layout, i: nat)
    requires IsFile(c, file, lay) && i < |lay.blocks|
    ensures i < |lay.packed| && Unpacks(c, lay.packed[i], i, lay.blocks[i])
  {
    assert StoredAt(c, lay.baseKeys, lay.packed, lay.blocks, i);
  }

  lemma BlockUnpacked(c: Codec, file: Bytes, index: TableIndex, i: nat, verify: bool, packed: Bytes, rows: seq<Row>)
    requires i < |index.offsets| && index.offsets[i].offset + index.offsets[i].len <= |file|
    requires file[index.offsets[i].offset..index.offsets[i].offset + index.offsets[i].len] == packed
    requires Unpacks(c, packed, i, rows)
    ensures var b := GetBlock(c, file, index, i, verify);
      b.Some? && BlockHolds(b.value, rows) && b.value.blockIndex == i
  {
  }

  /** Every block of the file is found and holds its rows. */
  lemma GetBlockOf(c: Codec, file: Bytes, lay: Layout, i: nat, verify: bool)
    requires IsFile(c, file, lay) && i < |lay.blocks|
    ensures var b := GetBlock(c, file, lay.index, i, verify);
      b.Some? && BlockHolds(b.value, lay.blocks[i]) && b.value.blockIndex == i
  {
    BlockBytes(c, file, lay, i);
    BlockStored(c, file, lay, i);
    BlockUnpacked(c, file, lay.index, i, verify, lay.packed[i], lay.blocks[i]);
  }

  lemma FilePart(file: Bytes, d: Bytes, rest: Bytes, lo: nat, hi: nat)
    requires file == d + rest && lo <= hi <= |d|
    ensures hi <= |file| && file[lo..hi] == d[lo..hi]
  {
  }
}
