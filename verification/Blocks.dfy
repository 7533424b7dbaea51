/** The block format of a table (src/table/write.rs, src/table/mod.rs, src/table/read.rs): keys are
    stored as the length they share with the block's first key and the bytes that differ. */
module Blocks {
  import opened Options
  import opened Bytes
  import opened Keys
  import opened Values
  import Seqs

  datatype Row = Row(key: SerializedKey, value: ValueMeta)

  const U16_LIMIT: nat := 0x1_0000
  const U32_LIMIT: nat := 0x1_0000_0000

  type U32 = n: nat | n < U32_LIMIT

  /** Widths in bytes and limits agree. */
  lemma Limits()
    ensures Pow256(2) == U16_LIMIT && Pow256(4) == U32_LIMIT
  {
    assert Pow256(3) == 256 * Pow256(2);
  }

  // ---------- entry headers ----------

  const HEADER_SIZE: nat := 4

  datatype Header = Header(overlap: nat, diff: nat)

  function PutHeader(h: Header): (b: Bytes)
    requires h.overlap < U16_LIMIT && h.diff < U16_LIMIT
    ensures |b| == HEADER_SIZE
  {
    Limits();
    PutBe(h.overlap, 2) + PutBe(h.diff, 2)
  }

  function GetHeader(b: Bytes): Header
    requires |b| == HEADER_SIZE
  {
    Header(GetBe(b[..2]), GetBe(b[2..]))
  }

  lemma HeaderRoundTrip(h: Header)
    requires h.overlap < U16_LIMIT && h.diff < U16_LIMIT
    ensures GetHeader(PutHeader(h)) == h
  {
    Limits();
    var b := PutHeader(h);
    assert b[..2] == PutBe(h.overlap, 2) && b[2..] == PutBe(h.diff, 2);
    GetPut(h.overlap, 2);
    GetPut(h.diff, 2);
  }

  // ---------- lists of 32-bit numbers ----------

  function PutU32s(s: seq<U32>): (b: Bytes)
    ensures |b| == 4 * |s|
  {
    if s == [] then []
    else
      Limits();
      PutU32s(s[..|s| - 1]) + PutBe(s[|s| - 1], 4)
  }

  function GetU32s(b: Bytes): seq<U32> {
    Limits();
    seq(|b| / 4, i requires 0 <= i < |b| / 4 => GetBe(b[4 * i..4 * i + 4]))
  }

  /** `vec_u32_to_bytes`. */
  method VecU32ToBytes(s: seq<U32>) returns (r: Bytes)
    ensures r == PutU32s(s)
  {
    r := [];
    for i := 0 to |s|
      invariant r == PutU32s(s[..i])
    {
      Limits();
      assert s[..i + 1][..i] == s[..i];
      r := r + PutBe(s[i], 4);
    }
    assert s[..|s|] == s;
  }

  /** `bytes_to_vec_u32`. */
  method BytesToVecU32(b: Bytes) returns (v: seq<U32>)
    ensures v == GetU32s(b)
  {
    var s := b;
    v := [];
    for i := 0 to |b| / 4
      invariant |v| == i && s == b[4 * i..]
      invariant forall k :: 0 <= k < i ==> v[k] == GetU32s(b)[k]
    {
      Limits();
      assert s[..4] == b[4 * i..4 * i + 4];
      v := v + [GetBe(s[..4])];
      s := s[4..];
    }
  }

  lemma {:induction false} PutU32sAt(s: seq<U32>, i: nat)
    requires i < |s|
    ensures Pow256(4) == U32_LIMIT && PutU32s(s)[4 * i..4 * i + 4] == PutBe(s[i], 4)
  {
    Limits();
    var n := |s| - 1;
    var b := PutU32s(s[..n]);
    if i < n {
      PutU32sAt(s[..n], i);
      assert PutU32s(s)[4 * i..4 * i + 4] == b[4 * i..4 * i + 4];
    } else {
      assert PutU32s(s) == b + PutBe(s[n], 4);
    }
  }

  lemma U32sRoundTrip(s: seq<U32>)
    ensures GetU32s(PutU32s(s)) == s
  {
    forall i | 0 <= i < |s|
      ensures GetU32s(PutU32s(s))[i] == s[i]
    {
      PutU32sAt(s, i);
      GetPut(s[i], 4);
    }
  }

  // ---------- what the bytes of a block hold ----------

  /** Bytes `off..end` of `data` hold `row`, its key cut against `base`. */
  ghost predicate EntryAt(data: Bytes, base: Bytes, off: nat, end: nat, row: Row) {
    && off + HEADER_SIZE <= end <= |data|
    && var h := GetHeader(data[off..off + HEADER_SIZE]);
       && h.overlap + h.diff == |row.key| && h.overlap <= |base| && off + HEADER_SIZE + h.diff <= end
       && row.key[..h.overlap] == base[..h.overlap]
       && data[off + HEADER_SIZE..off + HEADER_SIZE + h.diff] == row.key[h.overlap..]
       && data[off + HEADER_SIZE + h.diff..end] == SerializeValue(row.value)
  }

  /** Where entry `i` ends. */
  function EndOf(data: Bytes, offsets: seq<U32>, i: nat): nat
    requires i < |offsets|
  {
    if i + 1 == |offsets| then |data| else offsets[i + 1]
  }

  ghost predicate RowAt(data: Bytes, offsets: seq<U32>, rows: seq<Row>, i: nat)
    requires i < |rows| == |offsets|
  {
    EntryAt(data, rows[0].key, offsets[i], EndOf(data, offsets, i), rows[i])
  }

  /** The entries of `data` are `rows`; the first is stored whole. */
  ghost predicate Holds(data: Bytes, offsets: seq<U32>, rows: seq<Row>) {
    && |offsets| == |rows|
    && (forall i :: 0 <= i < |rows| ==> RowAt(data, offsets, rows, i))
    && (rows != [] ==> offsets[0] == 0 && |data| >= HEADER_SIZE && GetHeader(data[..HEADER_SIZE]).overlap == 0)
  }

  lemma EntryExtends(data: Bytes, more: Bytes, base: Bytes, off: nat, end: nat, row: Row)
    requires EntryAt(data, base, off, end, row)
    ensures EntryAt(data + more, base, off, end, row)
  {
    var d := data + more;
    assert d[off..off + HEADER_SIZE] == data[off..off + HEADER_SIZE];
    var h := GetHeader(data[off..off + HEADER_SIZE]);
    assert d[off + HEADER_SIZE..off + HEADER_SIZE + h.diff] == data[off + HEADER_SIZE..off + HEADER_SIZE + h.diff];
    assert d[off + HEADER_SIZE + h.diff..end] == data[off + HEADER_SIZE + h.diff..end];
  }

  function EntryBytes(h: Header, diff: Bytes, value: ValueMeta): Bytes
    requires h.overlap < U16_LIMIT && h.diff < U16_LIMIT
  {
    PutHeader(h) + diff + SerializeValue(value)
  }

  lemma EntryAppended(data: Bytes, base: Bytes, row: Row, overlap: nat)
    requires overlap <= |row.key| && overlap <= |base| && row.key[..overlap] == base[..overlap]
    requires overlap < U16_LIMIT && |row.key| - overlap < U16_LIMIT
    ensures var e := EntryBytes(Header(overlap, |row.key| - overlap), row.key[overlap..], row.value);
      && EntryAt(data + e, base, |data|, |data + e|, row)
      && GetHeader((data + e)[|data|..|data| + HEADER_SIZE]).overlap == overlap
  {
    var h := Header(overlap, |row.key| - overlap);
    var diff, v := row.key[overlap..], SerializeValue(row.value);
    var e := EntryBytes(h, diff, row.value);
    HeaderRoundTrip(h);
    Seqs.ThreeParts(PutHeader(h), diff, v);
    Seqs.SuffixSlice(data, e, 0, HEADER_SIZE);
    Seqs.SuffixSlice(data, e, HEADER_SIZE, HEADER_SIZE + h.diff);
    Seqs.SuffixSlice(data, e, HEADER_SIZE + h.diff, |e|);
  }

  lemma EntryKept(data: Bytes, offsets: seq<U32>, rows: seq<Row>, e: Bytes, i: nat)
    requires Holds(data, offsets, rows) && i < |rows| && |data| < U32_LIMIT
    ensures var d, offs := data + e, offsets + [|data|];
      EntryAt(d, rows[0].key, offs[i], EndOf(d, offs, i), rows[i])
  {
    assert RowAt(data, offsets, rows, i);
    EntryExtends(data, e, rows[0].key, offsets[i], EndOf(data, offsets, i), rows[i]);
  }

  lemma FirstKept(data: Bytes, offsets: seq<U32>, rows: seq<Row>, e: Bytes)
    requires Holds(data, offsets, rows) && rows != []
    ensures |data| >= HEADER_SIZE && (data + e)[..HEADER_SIZE] == data[..HEADER_SIZE]
  {
    assert RowAt(data, offsets, rows, 0);
  }

  lemma HoldsAppended(data: Bytes, offsets: seq<U32>, rows: seq<Row>, e: Bytes, row: Row, base: Bytes)
    requires Holds(data, offsets, rows) && |data| < U32_LIMIT
    requires base == (if rows == [] then row.key else rows[0].key) && EntryAt(data + e, base, |data|, |data + e|, row)
    requires rows == [] ==> data == [] && GetHeader((data + e)[..HEADER_SIZE]).overlap == 0
    ensures Holds(data + e, offsets + [|data|], rows + [row])
  {
    var d, offs, all := data + e, offsets + [|data|], rows + [row];
    assert all[0].key == base;
    forall i | 0 <= i < |all|
      ensures RowAt(d, offs, all, i)
    {
      if i < |rows| {
        EntryKept(data, offsets, rows, e, i);
      }
    }
    if rows != [] {
      FirstKept(data, offsets, rows, e);
    }
  }

  // ---------- building ----------

  /** `diff_base_key`: the length of the longest common prefix. */
  method DiffBaseKey(base: Bytes, key: Bytes) returns (i: nat)
    ensures i <= |base| && i <= |key| && base[..i] == key[..i]
    ensures i == |base| || i == |key| || base[i] != key[i]
  {
    i := 0;
    while i < |base| && i < |key|
      invariant i <= |base| && i <= |key| && base[..i] == key[..i]
    {
      if base[i] != key[i] {
        break;
      }
      i := i + 1;
    }
  }

  /** A finished block: the entries, their offsets and number, and the checksum of all that. */
  function FinishedData(data: Bytes, offsets: seq<U32>): Bytes
    requires |offsets| < U32_LIMIT
  {
    Limits();
    data + PutU32s(offsets) + PutBe(|offsets|, 4)
  }

  function Finished(data: Bytes, offsets: seq<U32>, sum: Bytes -> Bytes): Bytes
    requires |offsets| < U32_LIMIT
    requires |sum(FinishedData(data, offsets))| < U32_LIMIT
  {
    Limits();
    var body := FinishedData(data, offsets);
    body + sum(body) + PutBe(|sum(body)|, 4)
  }

  ghost predicate BuilderOk(data: Bytes, baseKey: Bytes, offsets: seq<U32>, rows: seq<Row>) {
    && Holds(data, offsets, rows)
    && baseKey == (if rows == [] then [] else rows[0].key)
    && (rows == [] ==> data == [])
    && 4 * |offsets| <= |data| && |offsets| < U32_LIMIT
    && |data| <= RowBytes(rows)
  }

  /** The most a row can take. */
  function RowSize(row: Row): nat {
    HEADER_SIZE + |row.key| + |SerializeValue(row.value)|
  }

  function RowBytes(rows: seq<Row>): nat {
    if rows == [] then 0 else RowBytes(rows[..|rows| - 1]) + RowSize(rows[|rows| - 1])
  }

  lemma RowBytesSnoc(rows: seq<Row>, row: Row)
    ensures RowBytes(rows + [row]) == RowBytes(rows) + RowSize(row)
  {
    assert (rows + [row])[..|rows|] == rows;
  }

  lemma {:induction false} RowBytesUpTo(rows: seq<Row>, i: nat)
    requires i < |rows|
    ensures RowBytes(rows[..i]) + RowSize(rows[i]) <= RowBytes(rows)
  {
    var n := |rows| - 1;
    if i < n {
      var init := rows[..n];
      RowBytesUpTo(init, i);
      assert init[..i] == rows[..i] && init[i] == rows[i];
    }
  }

  lemma {:induction false} RowBytesConcat(a: seq<Row>, b: seq<Row>)
    ensures RowBytes(a + b) == RowBytes(a) + RowBytes(b)
  {
    if b == [] {
      assert a + b == a;
    } else {
      var n := |b| - 1;
      RowBytesConcat(a, b[..n]);
      RowBytesSnoc(a + b[..n], b[n]);
      assert a + b == a + b[..n] + [b[n]];
    }
  }

  /** `overlap` is how much of `row`'s key is left out against `base`. */
  ghost predicate Cuts(base: Bytes, row: Row, overlap: nat) {
    && overlap <= |row.key| && overlap <= |base| && row.key[..overlap] == base[..overlap]
    && overlap < U16_LIMIT && |row.key| - overlap < U16_LIMIT
  }

  lemma PushKeeps(data: Bytes, base: Bytes, offsets: seq<U32>, rows: seq<Row>, row: Row, overlap: nat)
    requires Holds(data, offsets, rows) && base == (if rows == [] then row.key else rows[0].key)
    requires rows == [] ==> data == [] && overlap == 0
    requires 4 * |offsets| <= |data| < U32_LIMIT && |data| <= RowBytes(rows) && Cuts(base, row, overlap)
    ensures var e := EntryBytes(Header(overlap, |row.key| - overlap), row.key[overlap..], row.value);
      BuilderOk(data + e, base, offsets + [|data|], rows + [row])
  {
    var e := EntryBytes(Header(overlap, |row.key| - overlap), row.key[overlap..], row.value);
    EntryAppended(data, base, row, overlap);
    HoldsAppended(data, offsets, rows, e, row, base);
    RowBytesSnoc(rows, row);
  }

  /** What the two keys share is `n` bytes and no more. */
  ghost predicate Shared(base: Bytes, key: Bytes, n: nat) {
    && n <= |base| && n <= |key| && base[..n] == key[..n]
    && (n == |base| || n == |key| || base[n] != key[n])
  }

  /** `data'` is `data` and an entry for the row, its key without all that it shares with the base key; the first row of
      a block is stored whole. */
  ghost predicate AddsEntry(data: Bytes, data': Bytes, base: Bytes, first: bool, row: Row) {
    exists n: nat ::
      && (if first then n == 0 else Shared(base, row.key, n)) && n < U16_LIMIT && n <= |row.key| < n + U16_LIMIT
      && data' == data + EntryBytes(Header(n, |row.key| - n), row.key[n..], row.value)
  }

  method Appended(data: Bytes, baseKey: Bytes, offsets: seq<U32>, row: Row, ghost rows: seq<Row>)
    returns (ok: bool, data': Bytes, baseKey': Bytes, offsets': seq<U32>)
    requires BuilderOk(data, baseKey, offsets, rows) && |data| < U32_LIMIT
    ensures ok ==> BuilderOk(data', baseKey', offsets', rows + [row])
    ensures ok ==> AddsEntry(data, data', baseKey, rows == [], row) && offsets' == offsets + [|data|]
    ensures |row.key| < U16_LIMIT ==> ok
  {
    var overlap := 0;
    baseKey' := baseKey;
    if |baseKey| == 0 {
      baseKey' := row.key;
    } else {
      overlap := DiffBaseKey(baseKey, row.key);
    }
    if overlap >= U16_LIMIT || |row.key| - overlap >= U16_LIMIT {
      return false, data, baseKey', offsets;
    }
    data', offsets' := Written(data, baseKey', offsets, row, overlap, rows);
    ok := true;
  }

  /** The entry of a row whose key is cut at `overlap`. */
  method Written(data: Bytes, base: Bytes, offsets: seq<U32>, row: Row, overlap: nat, ghost rows: seq<Row>)
    returns (data': Bytes, offsets': seq<U32>)
    requires Holds(data, offsets, rows) && base == (if rows == [] then row.key else rows[0].key)
    requires rows == [] ==> data == [] && overlap == 0
    requires 4 * |offsets| <= |data| < U32_LIMIT && |data| <= RowBytes(rows) && Cuts(base, row, overlap)
    ensures BuilderOk(data', base, offsets', rows + [row]) && offsets' == offsets + [|data|]
    ensures data' == data + EntryBytes(Header(overlap, |row.key| - overlap), row.key[overlap..], row.value)
  {
    PushKeeps(data, base, offsets, rows, row, overlap);
    data' := data + EntryBytes(Header(overlap, |row.key| - overlap), row.key[overlap..], row.value);
    offsets' := offsets + [|data|];
  }

  class BlockBuilder {
    var data: Bytes
    var baseKey: Bytes
    var entryOffsets: seq<U32>
    ghost var rows: seq<Row>

    ghost predicate Valid()
      reads this
    {
      BuilderOk(data, baseKey, entryOffsets, rows)
    }

    constructor ()
      ensures Valid() && rows == []
    {
      data, baseKey, entryOffsets, rows := [], [], [], [];
    }

    /** `push_entry`; `ok` is false where one of its length assertions fails. The caller has
        checked that offsets fit in 32 bits. */
    method PushEntry(row: Row) returns (ok: bool)
      requires Valid() && |data| < U32_LIMIT
      modifies this
      ensures ok ==> Valid() && rows == old(rows) + [row]
      ensures ok ==> AddsEntry(old(data), data, old(baseKey), old(rows) == [], row)
      ensures |row.key| < U16_LIMIT ==> ok
    {
      var d, o;
      ok, d, baseKey, o := Appended(data, baseKey, entryOffsets, row, rows);
      if ok {
        data, entryOffsets, rows := d, o, rows + [row];
      }
    }

    /** `finish_block`. */
    method FinishBlock(sum: Bytes -> Bytes)
      requires Valid() && |sum(FinishedData(data, entryOffsets))| < U32_LIMIT
      modifies this`data
      ensures data == Finished(old(data), entryOffsets, sum)
    {
      Limits();
      var offs := VecU32ToBytes(entryOffsets);
      data := data + offs;
      data := data + PutBe(|entryOffsets|, 4);
      var checksum := sum(data);
      data := data + checksum;
      data := data + PutBe(|checksum|, 4);
    }
  }

  // ---------- parsing ----------

  datatype Block = Block(blockIndex: nat, data: Bytes, entriesIndexStart: nat, entryOffsets: seq<U32>, checksum: Bytes)

  /** `BlockInner::deserialize`, from the end of the block; `None` for an error or a position that
      would be out of bounds. The result is the one block that was written as these bytes, if any. */
  method ParseBlock(blockIndex: nat, raw: Bytes) returns (r: Option<Block>)
    ensures r == Parsed(blockIndex, raw)
    ensures forall b: Block :: r == Some(b) <==> b.blockIndex == blockIndex && WrittenAs(b, raw)
  {
    forall b: Block
      ensures Parsed(blockIndex, raw) == Some(b) <==> b.blockIndex == blockIndex && WrittenAs(b, raw)
    {
      ParsedIff(blockIndex, raw, b);
    }
    if |raw| < 4 {
      return None;
    }
    var readPos := |raw| - 4;
    assert raw[readPos..readPos + 4] == raw[|raw| - 4..];
    var checksumLen := GetBe(raw[readPos..readPos + 4]);
    if checksumLen > readPos {
      return None;
    }
    readPos := readPos - checksumLen;
    var checksum := raw[readPos..readPos + checksumLen];
    var data := raw[..readPos];
    if readPos < 4 {
      return None;
    }
    readPos := readPos - 4;
    assert data[readPos..readPos + 4] == raw[readPos..readPos + 4];
    var numEntries := GetBe(data[readPos..readPos + 4]);
    if numEntries * 4 > readPos {
      return None;
    }
    var start := readPos - numEntries * 4;
    assert data[start..readPos] == raw[start..readPos];
    var offsets := BytesToVecU32(data[start..readPos]);
    return Some(Block(blockIndex, data, start, offsets, checksum));
  }

  /** The parts of a block by their position counted from its end. */
  function Parsed(blockIndex: nat, raw: Bytes): Option<Block> {
    if |raw| < 4 then None
    else
      var c := GetBe(raw[|raw| - 4..]);
      if c + 8 > |raw| then None
      else
        var p := |raw| - c - 8;
        var n := GetBe(raw[p..p + 4]);
        if 4 * n > p then None
        else Some(Block(blockIndex, raw[..p + 4], p - 4 * n, GetU32s(raw[p - 4 * n..p]), raw[p + 4..p + 4 + c]))
  }

  lemma BodyParts(data: Bytes, offsets: seq<U32>)
    requires |offsets| < U32_LIMIT
    ensures var body, p := FinishedData(data, offsets), |data| + 4 * |offsets|;
      && |body| == p + 4 && body[..|data|] == data
      && GetBe(body[p..p + 4]) == |offsets| && GetU32s(body[|data|..p]) == offsets
  {
    Limits();
    var body, p := FinishedData(data, offsets), |data| + 4 * |offsets|;
    assert body[p..p + 4] == PutBe(|offsets|, 4);
    GetPut(|offsets|, 4);
    assert body[|data|..p] == PutU32s(offsets);
    U32sRoundTrip(offsets);
  }

  lemma ParsedParts(blockIndex: nat, raw: Bytes, body: Bytes, checksum: Bytes, n: nat)
    requires |raw| == |body| + |checksum| + 4 && |body| >= 4 + 4 * n
    requires GetBe(raw[|body| + |checksum|..]) == |checksum|
    requires raw[..|body|] == body && raw[|body|..|body| + |checksum|] == checksum
    requires GetBe(body[|body| - 4..|body|]) == n
    ensures var start := |body| - 4 - 4 * n;
      Parsed(blockIndex, raw) == Some(Block(blockIndex, body, start, GetU32s(body[start..|body| - 4]), checksum))
  {
    Seqs.PrefixSlice(raw, body, |body| - 4, |body|);
    Seqs.PrefixSlice(raw, body, |body| - 4 - 4 * n, |body| - 4);
  }

  /** Parsing undoes finishing. */
  lemma ParseFinished(blockIndex: nat, data: Bytes, offsets: seq<U32>, sum: Bytes -> Bytes)
    requires |offsets| < U32_LIMIT && |sum(FinishedData(data, offsets))| < U32_LIMIT
    ensures Parsed(blockIndex, Finished(data, offsets, sum))
         == Some(Block(blockIndex, FinishedData(data, offsets), |data|, offsets, sum(FinishedData(data, offsets))))
  {
    Limits();
    var body := FinishedData(data, offsets);
    BodyParts(data, offsets);
    Seqs.ThreeParts(body, sum(body), PutBe(|sum(body)|, 4));
    GetPut(|sum(body)|, 4);
    ParsedParts(blockIndex, Finished(data, offsets, sum), body, sum(body), |offsets|);
  }

  /** The bytes of `b` in a file: entries, offsets and their number, then the checksum and its length. */
  predicate WrittenAs(b: Block, raw: Bytes) {
    && |b.entryOffsets| < U32_LIMIT && |b.checksum| < U32_LIMIT && b.entriesIndexStart <= |b.data|
    && b.data == FinishedData(b.data[..b.entriesIndexStart], b.entryOffsets)
    && raw == Finished(b.data[..b.entriesIndexStart], b.entryOffsets, _ => b.checksum)
  }

  lemma GetU32sSnoc(b: Bytes, n: nat)
    requires |b| == 4 * n + 4
    ensures GetU32s(b) == GetU32s(b[..4 * n]) + [GetBe(b[4 * n..])]
  {
    Limits();
    forall i | 0 <= i < n
      ensures GetU32s(b)[i] == GetU32s(b[..4 * n])[i]
    {
      Seqs.PrefixSlice(b, b[..4 * n], 4 * i, 4 * i + 4);
    }
    assert b[4 * n..4 * n + 4] == b[4 * n..];
  }

  lemma {:induction false} PutGetU32s(b: Bytes, n: nat)
    requires |b| == 4 * n
    ensures PutU32s(GetU32s(b)) == b
  {
    if n > 0 {
      var m := n - 1;
      var s := GetU32s(b[..4 * m]);
      Limits();
      GetU32sSnoc(b, m);
      assert (s + [GetBe(b[4 * m..])])[..|s|] == s;
      PutGetU32s(b[..4 * m], m);
      PutGet(b[4 * m..]);
    }
  }

  lemma BodyWritten(body: Bytes, n: nat)
    requires |body| >= 4 + 4 * n && n == GetBe(body[|body| - 4..])
    ensures var p := |body| - 4;
      var start := p - 4 * n;
      n < U32_LIMIT && |GetU32s(body[start..p])| == n && body == FinishedData(body[..start], GetU32s(body[start..p]))
  {
    Limits();
    var p := |body| - 4;
    var start := p - 4 * n;
    PutGet(body[p..]);
    PutGetU32s(body[start..p], n);
    Seqs.CutTwice(body, start, p);
    Seqs.Regroup(body[..start], body[start..p], body[p..]);
  }

  /** The parts in their places are the written form. */
  lemma WrittenParts(raw: Bytes, b: Block)
    requires |b.entryOffsets| < U32_LIMIT && |b.checksum| < U32_LIMIT && b.entriesIndexStart <= |b.data|
    requires b.data == FinishedData(b.data[..b.entriesIndexStart], b.entryOffsets)
    requires Pow256(4) == U32_LIMIT && raw == b.data + b.checksum + PutBe(|b.checksum|, 4)
    ensures WrittenAs(b, raw)
  {
  }

  lemma ChecksumWritten(raw: Bytes, c: nat)
    requires |raw| >= 4 && c == GetBe(raw[|raw| - 4..]) && c + 4 <= |raw|
    ensures var q := |raw| - 4;
      c < U32_LIMIT == Pow256(4) && raw == raw[..q - c] + raw[q - c..q] + PutBe(c, 4)
  {
    Limits();
    var q := |raw| - 4;
    PutGet(raw[q..]);
    Seqs.CutTwice(raw, q - c, q);
    Seqs.Regroup(raw[..q - c], raw[q - c..q], raw[q..]);
  }

  /** Whatever parses is the form of the block it gives. */
  lemma ParsedIsWritten(blockIndex: nat, raw: Bytes)
    requires Parsed(blockIndex, raw).Some?
    ensures WrittenAs(Parsed(blockIndex, raw).value, raw)
  {
    var c := GetBe(raw[|raw| - 4..]);
    var p := |raw| - c - 8;
    var n, body := GetBe(raw[p..p + 4]), raw[..p + 4];
    ChecksumWritten(raw, c);
    assert body[p..] == raw[p..p + 4];
    BodyWritten(body, n);
    assert body[p - 4 * n..p] == raw[p - 4 * n..p];
    WrittenParts(raw, Parsed(blockIndex, raw).value);
  }

  /** A block is parsed from exactly the bytes it is written as. */
  lemma ParsedIff(blockIndex: nat, raw: Bytes, b: Block)
    ensures Parsed(blockIndex, raw) == Some(b) <==> b.blockIndex == blockIndex && WrittenAs(b, raw)
  {
    if Parsed(blockIndex, raw) == Some(b) {
      ParsedIsWritten(blockIndex, raw);
    }
    if b.blockIndex == blockIndex && WrittenAs(b, raw) {
      ParseFinished(blockIndex, b.data[..b.entriesIndexStart], b.entryOffsets, _ => b.checksum);
    }
  }

  /** The data of `b` without the offsets holds `rows`. */
  ghost predicate BlockHolds(b: Block, rows: seq<Row>) {
    b.entriesIndexStart <= |b.data| && rows != [] && Holds(b.data[..b.entriesIndexStart], b.entryOffsets, rows)
  }

  /** What a builder finished is what the reader gets, checksum included. */
  lemma BlockRoundTrip(blockIndex: nat, data: Bytes, offsets: seq<U32>, rows: seq<Row>, sum: Bytes -> Bytes)
    requires Holds(data, offsets, rows) && rows != [] && |offsets| < U32_LIMIT
    requires |sum(FinishedData(data, offsets))| < U32_LIMIT
    ensures var r := Parsed(blockIndex, Finished(data, offsets, sum));
      r.Some? && BlockHolds(r.value, rows) && r.value.blockIndex == blockIndex && r.value.checksum == sum(r.value.data)
  {
    ParseFinished(blockIndex, data, offsets, sum);
    BodyParts(data, offsets);
  }
}
