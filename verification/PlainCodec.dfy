/** A codec that neither compresses nor encrypts, with a plain encoding of the index, whose numbers and lists are
    unbounded like those of `TableIndex`. It shows that the assumptions that module TableFiles makes about codecs
    can be met. */
module PlainCodec {
  import opened Options
  import opened Bytes
  import opened TableFiles
  import Blooms

  /** A number in unary, so that its end can be found. */
  function PutNat(n: nat): Bytes {
    if n == 0 then [0] else [1] + PutNat(n - 1)
  }

  function GetNat(b: Bytes): (r: Option<(nat, Bytes)>)
    ensures r.Some? ==> |r.value.1| < |b|
  {
    if b == [] then None
    else if b[0] == 0 then Some((0, b[1..]))
    else
      var r := GetNat(b[1..]);
      if r.None? then None else Some((r.value.0 + 1, r.value.1))
  }

  lemma {:induction false} NatRoundTrip(n: nat, rest: Bytes)
    ensures GetNat(PutNat(n) + rest) == Some((n, rest))
  {
    if n > 0 {
      NatRoundTrip(n - 1, rest);
      assert (PutNat(n) + rest)[1..] == PutNat(n - 1) + rest;
    }
  }

  function PutBytes(x: Bytes): Bytes {
    PutNat(|x|) + x
  }

  function GetBytes(b: Bytes): (r: Option<(Bytes, Bytes)>)
    ensures r.Some? ==> |r.value.1| < |b|
  {
    var n := GetNat(b);
    if n.None? || n.value.0 > |n.value.1| then None
    else Some((n.value.1[..n.value.0], n.value.1[n.value.0..]))
  }

  lemma BytesRoundTrip(x: Bytes, rest: Bytes)
    ensures GetBytes(PutBytes(x) + rest) == Some((x, rest))
  {
    NatRoundTrip(|x|, x + rest);
    assert PutBytes(x) + rest == PutNat(|x|) + (x + rest);
    assert (x + rest)[..|x|] == x && (x + rest)[|x|..] == rest;
  }

  function PutOffset(o: BlockOffset): Bytes {
    PutBytes(o.keyTs) + (PutNat(o.offset) + PutNat(o.len))
  }

  function GetOffset(b: Bytes): (r: Option<(BlockOffset, Bytes)>)
    ensures r.Some? ==> |r.value.1| < |b|
  {
    var key := GetBytes(b);
    if key.None? then None
    else
      var offset := GetNat(key.value.1);
      if offset.None? then None
      else
        var len := GetNat(offset.value.1);
        if len.None? then None
        else Some((BlockOffset(key.value.0, offset.value.0, len.value.0), len.value.1))
  }

  lemma OffsetRoundTrip(o: BlockOffset, rest: Bytes)
    ensures GetOffset(PutOffset(o) + rest) == Some((o, rest))
  {
    var a, c := PutNat(o.offset), PutNat(o.len);
    assert PutOffset(o) + rest == PutBytes(o.keyTs) + (a + (c + rest));
    BytesRoundTrip(o.keyTs, a + (c + rest));
    NatRoundTrip(o.offset, c + rest);
    NatRoundTrip(o.len, rest);
  }

  function PutOffsets(os: seq<BlockOffset>): Bytes {
    if os == [] then [0] else [1] + (PutOffset(os[0]) + PutOffsets(os[1..]))
  }

  function GetOffsets(b: Bytes): Option<(seq<BlockOffset>, Bytes)>
    decreases |b|
  {
    if b == [] then None
    else if b[0] == 0 then Some(([], b[1..]))
    else
      var o := GetOffset(b[1..]);
      if o.None? then None
      else
        var os := GetOffsets(o.value.1);
        if os.None? then None else Some(([o.value.0] + os.value.0, os.value.1))
  }

  lemma {:induction false} OffsetsRoundTrip(os: seq<BlockOffset>, rest: Bytes)
    ensures GetOffsets(PutOffsets(os) + rest) == Some((os, rest))
  {
    if os == [] {
      assert PutOffsets(os) + rest == [0] + rest;
    } else {
      var o, more := PutOffset(os[0]), PutOffsets(os[1..]);
      OffsetRoundTrip(os[0], more + rest);
      OffsetsRoundTrip(os[1..], rest);
      Tagged(o, more, rest);
      OffsetsStep(os[0], os[1..], o + (more + rest), more + rest, rest);
      assert os == [os[0]] + os[1..];
    }
  }

  lemma Tagged(a: Bytes, b: Bytes, rest: Bytes)
    ensures [1] + (a + b) + rest == [1] + (a + (b + rest))
  {
  }

  lemma OffsetsStep(o: BlockOffset, os: seq<BlockOffset>, b: Bytes, b': Bytes, rest: Bytes)
    requires GetOffset(b) == Some((o, b')) && GetOffsets(b') == Some((os, rest))
    ensures GetOffsets([1] + b) == Some(([o] + os, rest))
  {
    assert ([1] + b)[1..] == b;
  }

  function FilterBytes(f: Blooms.Filter): Bytes {
    seq(|f|, i requires 0 <= i < |f| => f[i] as int)
  }

  function BytesFilter(b: Bytes): Blooms.Filter {
    seq(|b|, i requires 0 <= i < |b| => b[i] as bv8)
  }

  lemma FilterRoundTrip(f: Blooms.Filter)
    ensures BytesFilter(FilterBytes(f)) == f
  {
  }

  function PutBloom(f: Option<Blooms.Filter>): Bytes {
    if f.None? then [0] else [1] + PutBytes(FilterBytes(f.value))
  }

  function GetBloom(b: Bytes): Option<(Option<Blooms.Filter>, Bytes)> {
    if b == [] then None
    else if b[0] == 0 then Some((None, b[1..]))
    else
      var f := GetBytes(b[1..]);
      if f.None? then None else Some((Some(BytesFilter(f.value.0)), f.value.1))
  }

  lemma BloomRoundTrip(f: Option<Blooms.Filter>, rest: Bytes)
    ensures GetBloom(PutBloom(f) + rest) == Some((f, rest))
  {
    if f.Some? {
      FilterRoundTrip(f.value);
      BytesRoundTrip(FilterBytes(f.value), rest);
      assert (PutBloom(f) + rest)[1..] == PutBytes(FilterBytes(f.value)) + rest;
    }
  }

  function PutIndex(i: TableIndex): Bytes {
    PutOffsets(i.offsets) + (PutBloom(i.bloom) + (PutNat(i.maxVersion) + PutNat(i.keyCount)))
  }

  function GetIndex(b: Bytes): Option<TableIndex> {
    var offsets := GetOffsets(b);
    if offsets.None? then None
    else
      var bloom := GetBloom(offsets.value.1);
      if bloom.None? then None
      else
        var maxVersion := GetNat(bloom.value.1);
        if maxVersion.None? then None
        else
          var keyCount := GetNat(maxVersion.value.1);
          if keyCount.None? then None
          else Some(TableIndex(offsets.value.0, bloom.value.0, maxVersion.value.0, keyCount.value.0))
  }

  lemma IndexRoundTrip(i: TableIndex)
    ensures GetIndex(PutIndex(i)) == Some(i)
  {
    var m, k := PutNat(i.maxVersion), PutNat(i.keyCount);
    OffsetsRoundTrip(i.offsets, PutBloom(i.bloom) + (m + k));
    BloomRoundTrip(i.bloom, m + k);
    NatRoundTrip(i.maxVersion, k);
    NatRoundTrip(i.keyCount, []);
    assert k + [] == k;
  }

  function Plain(): Codec {
    Codec((b, _) => b, b => Some(b), (i, _) => PutIndex(i), b => GetIndex(b), _ => [])
  }

  lemma PlainIsSound()
    ensures Sound(Plain())
  {
    forall i: TableIndex, n: nat
      ensures Plain().unpackIndex(Plain().packIndex(i, n)) == Some(i)
    {
      IndexRoundTrip(i);
    }
  }
}
