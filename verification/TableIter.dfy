/** Opening a table (src/table/mod.rs:127-255) and iterating over it from both ends (`SinkTableIter`,
    src/table/read.rs:9-141). */
module TableIters {
  import opened Options
  import opened Bytes
  import opened Keys
  import opened Blocks
  import opened BlockIters
  import opened TableFiles
  import Seqs
  import Blooms

  datatype Table = Table(file: Bytes, index: TableIndex, smallest: KeyTs, biggest: KeyTs)

  /** Block `i` can be read and holds its rows. */
  ghost predicate Readable(c: Codec, t: Table, blocks: seq<seq<Row>>, i: nat, verify: bool)
    requires i < |blocks|
  {
    && var b := GetBlock(c, t.file, t.index, i, verify);
       b.Some? && BlockHolds(b.value, blocks[i]) && b.value.blockIndex == i
  }

  /** `t` holds the rows of `blocks`. */
  ghost predicate Opened(c: Codec, t: Table, blocks: seq<seq<Row>>) {
    && |t.index.offsets| == |blocks| > 0
    && (forall i, verify :: 0 <= i < |blocks| ==> Readable(c, t, blocks, i, verify))
  }

  /** `open`: succeeds on every file that a builder made; the key bounds are the first and the last key. With `verify`
      all checksums are compared. */
  method Open(c: Codec, file: Bytes, verify: bool, ghost lay: Layout) returns (r: Option<Table>)
    requires IsFile(c, file, lay)
    ensures r.Some? && Opened(c, r.value, lay.blocks) && r.value.file == file && r.value.index == lay.index
    ensures Rows(lay) != []
    ensures r.value.smallest == FromBytes(Rows(lay)[0].key)
    ensures r.value.biggest == FromBytes(Rows(lay)[|Rows(lay)| - 1].key)
  {
    InitIndexOf(c, file, lay);
    var init := InitIndex(c, file);
    if init.None? {
      return None;
    }
    var index := init.value.0;
    Ends(c, file, lay);
    var last := |index.offsets| - 1;
    var smallest := FromBytes(index.offsets[0].keyTs);
    var biggest := LastKey(c, file, index, last, lay);
    if verify {
      var ok := Verify(c, file, index, lay);
      if !ok {
        return None;
      }
    }
    var t := Table(file, index, smallest, FromBytes(biggest));
    AllReadable(c, t, lay);
    return Some(t);
  }

  lemma AllReadable(c: Codec, t: Table, lay: Layout)
    requires IsFile(c, t.file, lay) && t.index == lay.index
    ensures Opened(c, t, lay.blocks)
  {
    forall i, verify | 0 <= i < |lay.blocks|
      ensures Readable(c, t, lay.blocks, i, verify)
    {
      GetBlockOf(c, t.file, lay, i, verify);
    }
  }

  lemma Ends(c: Codec, file: Bytes, lay: Layout)
    requires IsFile(c, file, lay)
    ensures var n := |lay.blocks|;
      && |lay.index.offsets| == n > 0 && lay.blocks[0] != [] && lay.blocks[n - 1] != [] && Rows(lay) != []
      && lay.index.offsets[0].keyTs == lay.blocks[0][0].key == Rows(lay)[0].key
      && lay.blocks[n - 1][|lay.blocks[n - 1]| - 1] == Rows(lay)[|Rows(lay)| - 1]
  {
    var n := |lay.blocks|;
    assert StoredAt(c, lay.baseKeys, lay.packed, lay.blocks, 0);
    assert StoredAt(c, lay.baseKeys, lay.packed, lay.blocks, n - 1);
    Seqs.FlattenPart(lay.blocks, 0);
    assert lay.blocks[..0] == [];
    assert Seqs.Flatten(lay.blocks)[0..|lay.blocks[0]|][0] == lay.blocks[0][0];
  }

  /** The last key of the last block. */
  method LastKey(c: Codec, file: Bytes, index: TableIndex, last: nat, ghost lay: Layout) returns (key: Bytes)
    requires IsFile(c, file, lay) && index == lay.index && last == |lay.blocks| - 1
    ensures lay.blocks[last] != [] && key == lay.blocks[last][|lay.blocks[last]| - 1].key
  {
    GetBlockOf(c, file, lay, last, true);
    var it := new BlockIter(GetBlock(c, file, index, last, true).value, lay.blocks[last]);
    var ok, moved := it.NextBack();
    return it.backKey;
  }

  /** `verify`. */
  method Verify(c: Codec, file: Bytes, index: TableIndex, ghost lay: Layout) returns (ok: bool)
    requires IsFile(c, file, lay) && index == lay.index
    ensures ok
  {
    for i := 0 to |index.offsets| {
      GetBlockOf(c, file, lay, i, true);
      if GetBlock(c, file, index, i, true).None? {
        return false;
      }
    }
    return true;
  }

  /** `may_contain_key` says yes for every key in the table. */
  method MayContainKey(t: Table, hash: Bytes -> Blooms.Hash, key: KeyTs) returns (r: bool)
    ensures r <==> t.index.bloom.None? || t.index.bloom.value == [] || Blooms.Passes(t.index.bloom.value, hash(key.key))
  {
    if t.index.bloom.None? || t.index.bloom.value == [] {
      return true;
    }
    r := Blooms.MayContain(t.index.bloom.value, hash(key.key));
  }

  lemma NoKeyMissed(filter: Blooms.Filter, hash: Bytes -> Blooms.Hash, hashes: seq<Blooms.Hash>, k: nat,
                    rows: seq<Row>, i: nat)
    requires Blooms.IsFilter(filter, hashes, k) && HashesOf(hash, hashes, rows) && i < |rows|
    ensures Blooms.Passes(filter, hash(FromBytes(rows[i].key).key))
  {
    Blooms.NoFalseNegatives(filter, hashes, k, i);
    assert hashes[i] == hash(BorrowKey(rows[i].key));
  }

  // ---------- iterating ----------

  /** `get_block(..)?.iter()`. */
  method IterAt(c: Codec, t: Table, i: nat, verify: bool, ghost blocks: seq<seq<Row>>) returns (it: BlockIter)
    requires Opened(c, t, blocks) && i < |blocks|
    ensures fresh(it) && it.Valid() && it.rows == blocks[i] != [] && it.block.blockIndex == i
    ensures it.entryIndex == None && it.backEntryIndex == None && it.baseKey == []
  {
    assert Readable(c, t, blocks, i, verify);
    it := new BlockIter(GetBlock(c, t.file, t.index, i, verify).value, blocks[i]);
  }

  /** How many rows come before block `b`. */
  ghost function Before(blocks: seq<seq<Row>>, b: nat): nat
    requires b <= |blocks|
  {
    |Seqs.Flatten(blocks[..b])|
  }

  /** Rows of a block within the rows of the table. */
  lemma RowsOf(blocks: seq<seq<Row>>, b: nat, e: nat)
    requires b < |blocks| && e < |blocks[b]|
    ensures Before(blocks, b) + e < Before(blocks, b + 1) == Before(blocks, b) + |blocks[b]| <= |Seqs.Flatten(blocks)|
    ensures Seqs.Flatten(blocks)[Before(blocks, b) + e] == blocks[b][e]
  {
    Seqs.FlattenPart(blocks, b);
    var lo := Before(blocks, b);
    assert Seqs.Flatten(blocks)[lo..lo + |blocks[b]|][e] == blocks[b][e];
  }

  lemma AllBefore(blocks: seq<seq<Row>>)
    ensures Before(blocks, |blocks|) == |Seqs.Flatten(blocks)| && Before(blocks, 0) == 0
  {
    assert blocks[..|blocks|] == blocks;
  }

  class TableIter {
    const codec: Codec
    const table: Table
    const verify: bool
    var blockIter: BlockIter?
    var backBlockIter: BlockIter?
    ghost const blocks: seq<seq<Row>>
    /** How many rows were delivered from either end. */
    ghost var taken: nat
    ghost var takenBack: nat

    /** The rows of the table. */
    ghost function All(): seq<Row> {
      Seqs.Flatten(blocks)
    }

    ghost predicate FrontValid()
      reads this, blockIter
    {
      && Opened(codec, table, blocks)
      && (blockIter == null ==> taken == 0)
      && (blockIter != null ==>
            && blockIter.Valid() && blockIter.backEntryIndex == None && blockIter.entryIndex.Some?
            && blockIter.block.blockIndex < |blocks| && blockIter.rows == blocks[blockIter.block.blockIndex]
            && taken == Before(blocks, blockIter.block.blockIndex) + blockIter.entryIndex.value + 1)
    }

    ghost predicate BackValid()
      reads this, backBlockIter
    {
      && Opened(codec, table, blocks)
      && (backBlockIter == null ==> takenBack == 0)
      && (backBlockIter != null ==>
            && backBlockIter.Valid() && backBlockIter.entryIndex == None && backBlockIter.backEntryIndex.Some?
            && backBlockIter.block.blockIndex < |blocks| && backBlockIter.rows == blocks[backBlockIter.block.blockIndex]
            && takenBack
               == |All()| - (Before(blocks, backBlockIter.block.blockIndex) + backBlockIter.backEntryIndex.value))
    }

    constructor (codec: Codec, table: Table, verify: bool, ghost blocks: seq<seq<Row>>)
      requires Opened(codec, table, blocks)
      ensures Valid() && taken == takenBack == 0 && blockIter == backBlockIter == null && this.blocks == blocks
    {
      this.codec, this.table, this.verify, this.blocks := codec, table, verify, blocks;
      blockIter, backBlockIter, taken, takenBack := null, null, 0, 0;
    }

    /** Both iterators stand on equal rows. */
    ghost predicate Met()
      reads this
    {
      && 0 < taken <= |All()| && 0 < takenBack <= |All()|
      && All()[taken - 1] == All()[|All()| - takenBack]
    }

    ghost predicate Valid()
      reads this, blockIter, backBlockIter
    {
      FrontValid() && BackValid() && (blockIter == null || blockIter != backBlockIter)
    }

    /** `double_ended_eq`. */
    method DoubleEndedEq() returns (eq: bool)
      requires FrontValid() && BackValid()
      ensures eq == Met()
    {
      var a := Item();
      var b := ItemBack();
      return a.Some? && b.Some? && a.value == b.value;
    }

    /** `next`: delivers the next row, if there is one, until it has met the back iterator. */
    method Next() returns (moved: bool)
      requires Valid()
      modifies this`blockIter, this`taken, blockIter
      ensures Valid() && (blockIter == old(blockIter) || fresh(blockIter))
      ensures old(Met()) ==> !moved && taken == old(taken)
      ensures !old(Met()) ==>
                && taken == old(taken) + (if old(taken) < |All()| then 1 else 0)
                && moved == (old(taken) < |All()| && !Met())
    {
      var eq := DoubleEndedEq();
      if eq {
        return false;
      }
      moved := AdvanceFront();
      if moved {
        eq := DoubleEndedEq();
        moved := !eq;
      }
    }

    /** `next_back`: the same from the end. */
    method NextBack() returns (moved: bool)
      requires Valid()
      modifies this`backBlockIter, this`takenBack, backBlockIter
      ensures Valid() && (backBlockIter == old(backBlockIter) || fresh(backBlockIter))
      ensures old(Met()) ==> !moved && takenBack == old(takenBack)
      ensures !old(Met()) ==>
                && takenBack == old(takenBack) + (if old(takenBack) < |All()| then 1 else 0)
                && moved == (old(takenBack) < |All()| && !Met())
    {
      var eq := DoubleEndedEq();
      if eq {
        return false;
      }
      moved := AdvanceBack();
      if moved {
        eq := DoubleEndedEq();
        moved := !eq;
      }
    }

    /** Moves to the next row, if there is one. */
    method AdvanceFront() returns (moved: bool)
      requires FrontValid()
      modifies this`blockIter, this`taken, blockIter
      ensures FrontValid() && (blockIter == old(blockIter) || fresh(blockIter))
      ensures moved == (old(taken) < |All()|) && taken == old(taken) + if moved then 1 else 0
    {
      var b := 0;
      AllBefore(blocks);
      if blockIter != null {
        b := blockIter.block.blockIndex;
        RowsOf(blocks, b, blockIter.entryIndex.value);
        var _, inBlock := blockIter.Next();
        if inBlock {
          RowsOf(blocks, b, blockIter.entryIndex.value);
          taken := taken + 1;
          return true;
        }
        if b == |table.index.offsets| - 1 {
          return false;
        }
        b := b + 1;
      }
      OpenFront(b);
      return true;
    }

    /** Starts on block `b`, all rows before which were delivered. */
    method OpenFront(b: nat)
      requires Opened(codec, table, blocks) && b < |blocks| && taken == Before(blocks, b)
      modifies this`blockIter, this`taken
      ensures FrontValid() && fresh(blockIter) && taken == old(taken) + 1 && taken <= |All()|
    {
      var it := IterAt(codec, table, b, verify, blocks);
      RowsOf(blocks, b, 0);
      var ok, moved := it.Next();
      blockIter := it;
      taken := taken + 1;
    }

    /** Moves to the row before, if there is one. */
    method AdvanceBack() returns (moved: bool)
      requires BackValid()
      modifies this`backBlockIter, this`takenBack, backBlockIter
      ensures BackValid() && (backBlockIter == old(backBlockIter) || fresh(backBlockIter))
      ensures moved == (old(takenBack) < |All()|)
      ensures takenBack == old(takenBack) + if moved then 1 else 0
    {
      var b := |table.index.offsets| - 1;
      AllBefore(blocks);
      if backBlockIter != null {
        b := backBlockIter.block.blockIndex;
        RowsOf(blocks, b, backBlockIter.backEntryIndex.value);
        var _, inBlock := backBlockIter.NextBack();
        if inBlock {
          takenBack := takenBack + 1;
          return true;
        }
        if b == 0 {
          return false;
        }
        b := b - 1;
      }
      OpenBack(b);
      return true;
    }

    /** Starts at the end of block `b`, all rows after which were delivered. */
    method OpenBack(b: nat)
      requires Opened(codec, table, blocks) && b < |blocks| && takenBack == |All()| - Before(blocks, b + 1)
      modifies this`backBlockIter, this`takenBack
      ensures BackValid() && fresh(backBlockIter) && takenBack == old(takenBack) + 1 && takenBack <= |All()|
    {
      var it := IterAt(codec, table, b, verify, blocks);
      RowsOf(blocks, b, |blocks[b]| - 1);
      var ok, moved := it.NextBack();
      backBlockIter := it;
      takenBack := takenBack + 1;
    }

    /** `key` and `value`: those of the row that `next` moved to. */
    method Item() returns (r: Option<Row>)
      requires FrontValid()
      ensures taken == 0 ==> r == None
      ensures taken > 0 ==> taken <= |All()| && r == Some(All()[taken - 1])
    {
      if blockIter == null {
        return None;
      }
      RowsOf(blocks, blockIter.block.blockIndex, blockIter.entryIndex.value);
      var v := blockIter.Value();
      return Some(Row(blockIter.key, v.value));
    }

    /** `key_back` and `value_back`. */
    method ItemBack() returns (r: Option<Row>)
      requires BackValid()
      ensures takenBack == 0 ==> r == None
      ensures takenBack > 0 ==> takenBack <= |All()| && r == Some(All()[|All()| - takenBack])
    {
      if backBlockIter == null {
        return None;
      }
      RowsOf(blocks, backBlockIter.block.blockIndex, backBlockIter.backEntryIndex.value);
      var v := backBlockIter.ValueBack();
      return Some(Row(backBlockIter.backKey, v.value));
    }

    /** `next` and the row it moved to, as in the loops of the callers. */
    method Step() returns (r: Option<Row>)
      requires Valid() && backBlockIter == null
      modifies this`blockIter, this`taken, blockIter
      ensures Valid() && (blockIter == old(blockIter) || fresh(blockIter))
      ensures if old(taken) < |All()| then r == Some(All()[old(taken)]) && taken == old(taken) + 1
              else r == None && taken == old(taken)
    {
      var moved := Next();
      if !moved {
        return None;
      }
      r := Item();
    }

    method StepBack() returns (r: Option<Row>)
      requires Valid() && blockIter == null
      modifies this`backBlockIter, this`takenBack, backBlockIter
      ensures Valid() && (backBlockIter == old(backBlockIter) || fresh(backBlockIter))
      ensures if old(takenBack) < |All()|
              then r == Some(All()[|All()| - 1 - old(takenBack)]) && takenBack == old(takenBack) + 1
              else r == None && takenBack == old(takenBack)
    {
      var moved := NextBack();
      if !moved {
        return None;
      }
      r := ItemBack();
    }
  }

  lemma TakeOne(rows: seq<Row>, out: seq<Row>, row: Row)
    requires |out| < |rows| && out == rows[..|out|] && row == rows[|out|]
    ensures out + [row] == rows[..|out| + 1]
  {
  }

  /** `out` is the end of `rows`, last row first. */
  ghost predicate FromTheEnd(rows: seq<Row>, out: seq<Row>) {
    |out| <= |rows| && forall i :: 0 <= i < |out| ==> out[i] == rows[|rows| - 1 - i]
  }

  lemma TakeOneBack(rows: seq<Row>, out: seq<Row>, row: Row)
    requires FromTheEnd(rows, out) && |out| < |rows| && row == rows[|rows| - 1 - |out|]
    ensures FromTheEnd(rows, out + [row])
  {
  }

  /** A forward scan gives the rows in the order in which they were pushed. */
  method ScanForward(c: Codec, t: Table, verify: bool, ghost blocks: seq<seq<Row>>) returns (out: seq<Row>)
    requires Opened(c, t, blocks)
    ensures out == Seqs.Flatten(blocks)
  {
    var it := new TableIter(c, t, verify, blocks);
    ghost var rows := Seqs.Flatten(blocks);
    out := [];
    while true
      invariant fresh(it) && (it.blockIter != null ==> fresh(it.blockIter))
      invariant it.Valid() && it.backBlockIter == null && it.blocks == blocks
      invariant it.taken == |out| <= |rows| && out == rows[..|out|]
      decreases |rows| - it.taken
    {
      var item := it.Step();
      if item == None {
        return;
      }
      TakeOne(rows, out, item.value);
      out := out + [item.value];
    }
  }

  /** A backward scan gives them in the opposite order. */
  method ScanBackward(c: Codec, t: Table, verify: bool, ghost blocks: seq<seq<Row>>) returns (out: seq<Row>)
    requires Opened(c, t, blocks)
    ensures |out| == |Seqs.Flatten(blocks)| && FromTheEnd(Seqs.Flatten(blocks), out)
  {
    var it := new TableIter(c, t, verify, blocks);
    ghost var rows := Seqs.Flatten(blocks);
    out := [];
    while true
      invariant fresh(it) && (it.backBlockIter != null ==> fresh(it.backBlockIter))
      invariant it.Valid() && it.blockIter == null && it.blocks == blocks
      invariant |out| == it.takenBack && FromTheEnd(rows, out)
      decreases |rows| - it.takenBack
    {
      var item := it.StepBack();
      if item == None {
        return;
      }
      TakeOneBack(rows, out, item.value);
      out := out + [item.value];
    }
  }

  // ---------- the whole way ----------

  /** Keys below 64 KiB and rows of, together, less than a third of 4 GiB. */
  ghost predicate Fits(rows: seq<Row>) {
    (forall i :: 0 <= i < |rows| ==> |rows[i].key| < U16_LIMIT) && 3 * RowBytes(rows) + 64 < U32_LIMIT
  }

  /** Then no assertion on a length fails. */
  lemma HasRoom(data: Bytes, entries: nat, done: seq<Row>, cur: seq<Row>, rows: seq<Row>, i: nat, encrypted: bool)
    requires |data| <= RowBytes(cur) && 4 * entries <= |data| && i < |rows| && rows[..i] == done + cur && Fits(rows)
    ensures |data| + Estimate(data, entries, rows[i], encrypted) < U32_LIMIT - 1
  {
    RowBytesConcat(done, cur);
    RowBytesUpTo(rows, i);
    var size, total := RowSize(rows[i]), RowBytes(rows);
    assert |data| + size <= total;
    assert Estimate(data, entries, rows[i], encrypted) <= |data| + size + 4 * entries + 40;
  }

  ghost predicate DrawnFor(nonce: nat, nonces: nat -> nat, n: nat) {
    exists k :: 0 <= k <= n && nonce == nonces(k)
  }

  /** Every nonce was drawn for one of the first `n` rows, or for what follows them. */
  ghost predicate DrawnFrom(drawn: seq<nat>, nonces: nat -> nat, n: nat) {
    forall i :: 0 <= i < |drawn| ==> DrawnFor(drawn[i], nonces, n)
  }

  lemma DrawnMore(drawn: seq<nat>, drawn': seq<nat>, nonces: nat -> nat, n: nat)
    requires DrawnFrom(drawn, nonces, n) && (drawn' == drawn || drawn' == drawn + [nonces(n)])
    ensures DrawnFrom(drawn', nonces, n) && DrawnFrom(drawn', nonces, n + 1)
  {
    forall i | 0 <= i < |drawn'|
      ensures DrawnFor(drawn'[i], nonces, n) && DrawnFor(drawn'[i], nonces, n + 1)
    {
      assert i < |drawn| ==> DrawnFor(drawn[i], nonces, n);
      assert i == |drawn| ==> drawn'[i] == nonces(n);
    }
  }

  /** `build_l0_table`: pushes all rows; `ok` is false where an assertion on a length fails. */
  method BuildTable(c: Codec, blockSize: nat, encrypted: bool, hash: Bytes -> Blooms.Hash, rows: seq<Row>,
                    nonces: nat -> nat)
    returns (ok: bool, builder: TableBuilder)
    requires Sound(c)
    ensures fresh(builder) && fresh(builder.cur)
    ensures ok ==> builder.Valid() && builder.rows == rows && builder.codec == c && builder.hash == hash
    ensures ok ==> DrawnFrom(builder.drawn, nonces, |rows|)
    ensures Fits(rows) ==> ok
  {
    builder := new TableBuilder(c, blockSize, encrypted, hash);
    for i := 0 to |rows|
      invariant fresh(builder) && fresh(builder.cur) && builder.codec == c && builder.hash == hash
      invariant builder.Valid() && builder.rows == rows[..i] && DrawnFrom(builder.drawn, nonces, i)
    {
      TakeOne(rows, rows[..i], rows[i]);
      if Fits(rows) {
        HasRoom(builder.cur.data, |builder.cur.entryOffsets|, Seqs.Flatten(builder.blocks), builder.cur.rows, rows, i,
                builder.encrypted);
      }
      ghost var drawn := builder.drawn;
      ok := builder.Push(rows[i], nonces(i));
      if !ok {
        return;
      }
      DrawnMore(drawn, builder.drawn, nonces, i);
    }
    ok := true;
    assert rows[..|rows|] == rows;
  }

  /** `lay` is what the builder's steps make of the rows with these nonces, for some way of dividing them into
      blocks. */
  ghost predicate Built(c: Codec, hash: Bytes -> Blooms.Hash, lay: Layout, drawn: seq<nat>, rows: seq<Row>,
                        nonces: nat -> nat, probes: nat) {
    && AllMade(c, lay.baseKeys, lay.packed, lay.blocks, drawn) && DrawnFrom(drawn, nonces, |rows|)
    && Composes(c, hash, lay, rows, probes, nonces(|rows|))
  }

  /** What was pushed is what is read back, from either end, whatever the codec, the block size and the nonces. A
      table that fits fails only if blocks that the builder can make of these rows, or their index, exceed 32 bits. */
  method RoundTrip(c: Codec, blockSize: nat, encrypted: bool, hash: Bytes -> Blooms.Hash, rows: seq<Row>,
                   nonces: nat -> nat, probes: nat, bitsPerKey: nat, verify: bool)
    returns (r: Option<(Table, seq<Row>, seq<Row>)>)
    requires Sound(c) && rows != [] && probes <= 30
    ensures Fits(rows) && r.None? ==>
              exists lay, drawn :: Built(c, hash, lay, drawn, rows, nonces, probes) && TooLarge(lay)
    ensures r.Some? ==> r.value.1 == rows
    ensures r.Some? ==> |r.value.2| == |rows| && FromTheEnd(rows, r.value.2)
    ensures r.Some? ==> r.value.0.smallest == FromBytes(rows[0].key)
    ensures r.Some? ==> r.value.0.biggest == FromBytes(rows[|rows| - 1].key)
    ensures r.Some? ==> Summarizes(hash, r.value.0.index, rows, probes)
  {
    var ok, builder := BuildTable(c, blockSize, encrypted, hash, rows, nonces);
    if !ok {
      return None;
    }
    ghost var drawn := builder.drawn;
    var file, lay := builder.Finish(nonces(|rows|), probes, bitsPerKey);
    DrawnMore(drawn, builder.drawn, nonces, |rows|);
    assert Built(c, hash, lay, builder.drawn, rows, nonces, probes);
    if file.None? {
      return None;
    }
    var t := Open(c, file.value, verify, lay);
    var forward := ScanForward(c, t.value, verify, lay.blocks);
    var backward := ScanBackward(c, t.value, verify, lay.blocks);
    return Some((t.value, forward, backward));
  }

  /** If the rows were pushed in ascending order, the bounds of the table enclose every key. */
  lemma BoundsEnclose(rows: seq<Row>, i: nat)
    requires i < |rows| && forall j, k :: 0 <= j < k < |rows| ==> SerializedLt(rows[j].key, rows[k].key)
    ensures CompareKeyTs(FromBytes(rows[0].key), FromBytes(rows[i].key)) != Greater
    ensures CompareKeyTs(FromBytes(rows[i].key), FromBytes(rows[|rows| - 1].key)) != Greater
  {
    var first, key, last := rows[0].key, rows[i].key, rows[|rows| - 1].key;
    ComparisonsAgree(first, key);
    ComparisonsAgree(key, last);
    CompareKeyTsEqual(FromBytes(key), FromBytes(key));
    assert first == key || SerializedLt(first, key);
    assert key == last || SerializedLt(key, last);
  }
}
