/** Iterating over a block (`SinkBlockIter`, src/table/read.rs:169-383) from both ends: each key is
    rebuilt from the key before it, of which only the part shared with the base key is trusted. */
module BlockIters {
  import opened Options
  import opened Bytes
  import opened Keys
  import opened Values
  import opened Blocks

  /** `BlockInner::data`: the entries without their offsets. */
  function Data(b: Block): Bytes
    requires b.entriesIndexStart <= |b.data|
  {
    b.data[..b.entriesIndexStart]
  }

  /** `header` describes how `row`'s key was cut against `base`. */
  ghost predicate Describes(header: Header, base: Bytes, row: Row) {
    && header.overlap + header.diff == |row.key| && header.overlap <= |base|
    && row.key[..header.overlap] == base[..header.overlap]
  }

  /** The bytes after the key of entry `i` are its value. */
  ghost predicate ValueFollows(data: Bytes, offsets: seq<U32>, i: nat, header: Header, row: Row)
    requires i < |offsets|
  {
    && offsets[i] + HEADER_SIZE + header.diff <= EndOf(data, offsets, i) <= |data|
    && data[offsets[i] + HEADER_SIZE + header.diff..EndOf(data, offsets, i)] == SerializeValue(row.value)
  }

  /** A cursor stands at entry `i`: it has its key and its header. */
  ghost predicate At(b: Block, rows: seq<Row>, i: nat, key: Bytes, header: Header) {
    && i < |rows| == |b.entryOffsets| && b.entriesIndexStart <= |b.data|
    && key == rows[i].key && Describes(header, rows[0].key, rows[i])
    && ValueFollows(Data(b), b.entryOffsets, i, header, rows[i])
  }

  /** The key that `set_entry_index` and `next_back` put together: `key` is cut to what it shares with the
      base key, topped up from the base key if more is shared now, and extended by the stored bytes. */
  function Rebuilt(base: Bytes, key: Bytes, prevOverlap: nat, nextOverlap: nat, diff: Bytes): Bytes
    requires prevOverlap <= |key| && nextOverlap <= |base|
  {
    if nextOverlap > prevOverlap then key[..prevOverlap] + base[prevOverlap..nextOverlap] + diff
    else key[..nextOverlap] + diff
  }

  /** Whichever key was there before, the rebuilt one is exactly `next`. */
  lemma RebuiltIs(base: Bytes, key: Bytes, prevOverlap: nat, nextOverlap: nat, next: Bytes)
    requires prevOverlap <= |key| && prevOverlap <= |base| && key[..prevOverlap] == base[..prevOverlap]
    requires nextOverlap <= |next| && nextOverlap <= |base| && next[..nextOverlap] == base[..nextOverlap]
    ensures Rebuilt(base, key, prevOverlap, nextOverlap, next[nextOverlap..]) == next
  {
    if nextOverlap > prevOverlap {
      assert key[..prevOverlap] + base[prevOverlap..nextOverlap] == base[..nextOverlap];
    } else {
      assert key[..nextOverlap] == key[..prevOverlap][..nextOverlap] == base[..nextOverlap];
    }
  }

  /** The header and the stored key bytes of an entry. */
  method ReadEntry(data: Bytes, off: nat, ghost base: Bytes, ghost end: nat, ghost row: Row)
    returns (h: Header, diff: Bytes)
    requires EntryAt(data, base, off, end, row)
    ensures Describes(h, base, row) && diff == row.key[h.overlap..] && h == GetHeader(data[off..off + HEADER_SIZE])
    ensures off + HEADER_SIZE + h.diff <= end && data[off + HEADER_SIZE + h.diff..end] == SerializeValue(row.value)
  {
    var rest := data[off..];
    assert rest[..HEADER_SIZE] == data[off..off + HEADER_SIZE];
    h := GetHeader(rest[..HEADER_SIZE]);
    assert rest[HEADER_SIZE..HEADER_SIZE + h.diff] == data[off + HEADER_SIZE..off + HEADER_SIZE + h.diff];
    diff := rest[HEADER_SIZE..HEADER_SIZE + h.diff];
  }

  lemma EntryOf(b: Block, rows: seq<Row>, i: nat)
    requires BlockHolds(b, rows) && i < |rows|
    ensures |b.entryOffsets| == |rows|
    ensures EntryAt(Data(b), rows[0].key, b.entryOffsets[i], EndOf(Data(b), b.entryOffsets, i), rows[i])
  {
    assert RowAt(Data(b), b.entryOffsets, rows, i);
  }

  /** From any entry to any other, in either direction, the rebuilt key is exactly the one that was stored. */
  method MoveTo(b: Block, base: Bytes, key: Bytes, header: Header, ghost rows: seq<Row>, ghost from: nat, to: nat)
    returns (key': Bytes, header': Header)
    requires BlockHolds(b, rows) && base == rows[0].key && At(b, rows, from, key, header) && to < |rows|
    ensures At(b, rows, to, key', header') && key' == rows[to].key
  {
    EntryOf(b, rows, to);
    var data := Data(b);
    var diff;
    header', diff := ReadEntry(data, b.entryOffsets[to], base, EndOf(data, b.entryOffsets, to), rows[to]);
    RebuiltIs(base, key, header.overlap, header'.overlap, rows[to].key);
    key' := Rebuilt(base, key, header.overlap, header'.overlap, diff);
  }

  /** The last entry, straight from the base key. */
  method LoadLast(b: Block, base: Bytes, ghost rows: seq<Row>) returns (key: Bytes, header: Header)
    requires BlockHolds(b, rows) && base == rows[0].key
    ensures At(b, rows, |rows| - 1, key, header)
  {
    ghost var i := |rows| - 1;
    EntryOf(b, rows, i);
    var data := Data(b);
    var diff;
    header, diff := ReadEntry(data, b.entryOffsets[|b.entryOffsets| - 1], base, EndOf(data, b.entryOffsets, i),
      rows[i]);
    key := base[..header.overlap] + diff;
  }

  /** The base key, from the first entry. */
  method LoadFirst(b: Block, ghost rows: seq<Row>) returns (base: Bytes, header: Header)
    requires BlockHolds(b, rows)
    ensures base == rows[0].key && At(b, rows, 0, base, header)
  {
    EntryOf(b, rows, 0);
    var data := Data(b);
    header, base := ReadEntry(data, 0, rows[0].key, EndOf(data, b.entryOffsets, 0), rows[0]);
    assert rows[0].key[0..] == rows[0].key;
  }

  method ValueAt(b: Block, ghost rows: seq<Row>, i: nat, ghost key: Bytes, header: Header)
    returns (r: Option<ValueMeta>)
    requires At(b, rows, i, key, header)
    ensures r == Some(rows[i].value)
  {
    ValueRoundTrip(rows[i].value);
    var end := if i + 1 == |b.entryOffsets| then b.entriesIndexStart else b.entryOffsets[i + 1];
    r := DeserializeValue(Data(b)[b.entryOffsets[i] + HEADER_SIZE + header.diff..end]);
  }

  class BlockIter {
    const block: Block
    var baseKey: Bytes
    var key: Bytes
    var header: Header
    var entryIndex: Option<nat>
    var backKey: Bytes
    var backHeader: Header
    var backEntryIndex: Option<nat>
    /** What the block holds. */
    ghost const rows: seq<Row>

    ghost predicate Valid()
      reads this
    {
      && BlockHolds(block, rows)
      && (baseKey == [] || baseKey == rows[0].key)
      && (entryIndex.Some? ==> entryIndex.value < |rows| && baseKey == rows[0].key && key == rows[entryIndex.value].key)
      && (backEntryIndex.Some? ==>
            backEntryIndex.value < |rows| && baseKey == rows[0].key && backKey == rows[backEntryIndex.value].key)
      && (forall i {:trigger At(block, rows, i, key, header)} ::
            entryIndex == Some(i) ==> At(block, rows, i, key, header))
      && (forall i {:trigger At(block, rows, i, backKey, backHeader)} ::
            backEntryIndex == Some(i) ==> At(block, rows, i, backKey, backHeader))
      && (forall k {:trigger At(block, rows, 0, k, header)} ::
            entryIndex == None && baseKey == k != [] ==> At(block, rows, 0, k, header))
    }

    constructor (block: Block, ghost rows: seq<Row>)
      requires BlockHolds(block, rows)
      ensures Valid() && this.rows == rows && this.block == block
      ensures entryIndex == None && backEntryIndex == None && baseKey == []
    {
      this.block := block;
      this.rows := rows;
      baseKey, key, header, entryIndex := [], [], Header(0, 0), None;
      backKey, backHeader, backEntryIndex := [], Header(0, 0), None;
    }

    /** `set_entry_index`: a jump from one entry to any other. */
    method SetEntryIndex(i: nat)
      requires Valid() && entryIndex.Some? && i < |rows|
      modifies this`entryIndex, this`key, this`header
      ensures Valid() && entryIndex == Some(i)
    {
      assert At(block, rows, entryIndex.value, key, header);
      var k, h := MoveTo(block, baseKey, key, header, rows, entryIndex.value, i);
      key, header, entryIndex := k, h, Some(i);
    }

    /** Reads the base key off the first entry, unless that was done before. */
    method LoadBase()
      requires Valid()
      modifies this`baseKey, this`header
      ensures Valid() && baseKey == rows[0].key
    {
      if |baseKey| == 0 {
        baseKey, header := LoadFirst(block, rows);
      }
    }

    /** `next`: the entries in order, stopping in front of the back cursor if there is one. `ok` is false where the
        source would index past the last entry: the back cursor is in use and not ahead. */
    method Next() returns (ok: bool, moved: bool)
      requires Valid()
      modifies this`entryIndex, this`baseKey, this`key, this`header
      ensures Valid()
      ensures old(entryIndex) == None ==> ok && moved && entryIndex == Some(0)
      ensures old(entryIndex).Some? ==>
                var i := old(entryIndex).value;
                && ok == !(backEntryIndex.Some? && i + 1 == |rows|)
                && moved == (ok && i + 1 < |rows| && backEntryIndex != Some(i + 1))
                && entryIndex == if moved then Some(i + 1) else Some(i)
    {
      if entryIndex == None {
        LoadBase();
        assert At(block, rows, 0, baseKey, header);
        key := baseKey;
        entryIndex := Some(0);
        return true, true;
      }
      if backEntryIndex.Some? {
        if entryIndex.value + 1 == backEntryIndex.value {
          return true, false;
        }
      } else if entryIndex.value == |block.entryOffsets| - 1 {
        return true, false;
      }
      if entryIndex.value + 1 >= |block.entryOffsets| {
        return false, false;
      }
      SetEntryIndex(entryIndex.value + 1);
      return true, true;
    }

    method SetBackIndex(i: nat)
      requires Valid() && backEntryIndex.Some? && i < |rows|
      modifies this`backEntryIndex, this`backKey, this`backHeader
      ensures Valid() && backEntryIndex == Some(i)
    {
      assert At(block, rows, backEntryIndex.value, backKey, backHeader);
      var k, h := MoveTo(block, baseKey, backKey, backHeader, rows, backEntryIndex.value, i);
      backKey, backHeader, backEntryIndex := k, h, Some(i);
    }

    /** `next_back`: the entries from the last one on, stopping behind the front cursor if there is one. `ok` is
        false where the source would subtract from 0: the front cursor is in use and not behind. */
    method NextBack() returns (ok: bool, moved: bool)
      requires Valid()
      modifies this`backEntryIndex, this`baseKey, this`header, this`backKey, this`backHeader
      ensures Valid()
      ensures old(backEntryIndex) == None ==> ok && moved && backEntryIndex == Some(|rows| - 1)
      ensures old(backEntryIndex).Some? ==>
                var i := old(backEntryIndex).value;
                && ok == !(entryIndex.Some? && i == 0)
                && moved == (ok && i > 0 && entryIndex != Some(i - 1))
                && backEntryIndex == if moved then Some(i - 1) else Some(i)
    {
      if backEntryIndex == None {
        LoadBase();
        backKey, backHeader := LoadLast(block, baseKey, rows);
        backEntryIndex := Some(|block.entryOffsets| - 1);
        return true, true;
      }
      if entryIndex.Some? {
        if backEntryIndex.value == 0 {
          return false, false;
        }
        if backEntryIndex.value - 1 == entryIndex.value {
          return true, false;
        }
      } else if backEntryIndex.value == 0 {
        return true, false;
      }
      SetBackIndex(backEntryIndex.value - 1);
      return true, true;
    }

    /** `value`. */
    method Value() returns (r: Option<ValueMeta>)
      requires Valid()
      ensures entryIndex == None ==> r == None
      ensures entryIndex.Some? ==> r == Some(rows[entryIndex.value].value)
    {
      if entryIndex == None {
        return None;
      }
      assert At(block, rows, entryIndex.value, key, header);
      r := ValueAt(block, rows, entryIndex.value, key, header);
    }

    /** `value_back`. */
    method ValueBack() returns (r: Option<ValueMeta>)
      requires Valid()
      ensures backEntryIndex == None ==> r == None
      ensures backEntryIndex.Some? ==> r == Some(rows[backEntryIndex.value].value)
    {
      if backEntryIndex == None {
        return None;
      }
      assert At(block, rows, backEntryIndex.value, backKey, backHeader);
      r := ValueAt(block, rows, backEntryIndex.value, backKey, backHeader);
    }
  }
}
