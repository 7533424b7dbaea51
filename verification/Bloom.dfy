/** The bloom filter of a table (src/util/bloom.rs). Hashes are 32-bit; the number of probes and the bits
    per key, which the source computes in floating point, are parameters. */
module Blooms {
  const U32: nat := 0x1_0000_0000

  type Filter = seq<bv8>

  type Hash = h: nat | h < U32

  /** `hash >> 17 | hash << 15`, a rotation. */
  function Delta(h: Hash): (d: Hash) {
    h / 0x2_0000 + h % 0x2_0000 * 0x8000
  }

  /** The hash after `i` additions of delta. */
  function Stepped(h: Hash, i: nat): Hash {
    if i == 0 then h else (Stepped(h, i - 1) + Delta(h)) % U32
  }

  function Probe(h: Hash, i: nat, bitLen: nat): (pos: nat)
    requires bitLen > 0
    ensures pos < bitLen
  {
    Stepped(h, i) % bitLen
  }

  // ---------- probes in closed form ----------

  /** Bit `i` of a number. */
  ghost predicate BitOf(n: nat, i: nat) {
    if i == 0 then n % 2 == 1 else BitOf(n / 2, i - 1)
  }

  function Pow2(n: nat): (p: nat)
    ensures p > 0
  {
    if n == 0 then 1 else 2 * Pow2(n - 1)
  }

  /** The bits of a number written as a high and a low part. */
  lemma {:induction false} BitsOfParts(q: nat, r: nat, p: nat, i: nat)
    requires r < Pow2(p)
    ensures BitOf(q * Pow2(p) + r, i) <==> if i < p then BitOf(r, i) else BitOf(q, i - p)
    decreases p
  {
    if p > 0 {
      var n, half := q * Pow2(p) + r, q * Pow2(p - 1);
      assert n == 2 * half + r;
      assert n % 2 == r % 2 && n / 2 == half + r / 2;
      if i > 0 {
        BitsOfParts(q, r / 2, p - 1, i - 1);
      }
    }
  }

  lemma Powers()
    ensures Pow2(15) == 0x8000 && Pow2(17) == 0x2_0000
  {
    assert Pow2(5) == 32;
    assert Pow2(10) == 32 * Pow2(5);
    assert Pow2(15) == 32 * Pow2(10);
  }

  lemma BitsOf17(q: nat, r: nat, i: nat)
    requires r < 0x2_0000
    ensures BitOf(q * 0x2_0000 + r, i) <==> if i < 17 then BitOf(r, i) else BitOf(q, i - 17)
  {
    Powers();
    BitsOfParts(q, r, 17, i);
  }

  lemma BitsOf15(q: nat, r: nat, i: nat)
    requires r < 0x8000
    ensures BitOf(q * 0x8000 + r, i) <==> if i < 15 then BitOf(r, i) else BitOf(q, i - 15)
  {
    Powers();
    BitsOfParts(q, r, 15, i);
  }

  /** `Delta` rotates the 32 bits of the hash by 17 to the right. */
  lemma DeltaRotates(h: Hash, i: nat)
    requires i < 32
    ensures BitOf(Delta(h), i) <==> BitOf(h, if i < 15 then i + 17 else i - 15)
  {
    var q, r := h / 0x2_0000, h % 0x2_0000;
    BitsOf17(q, r, if i < 15 then i + 17 else i - 15);
    BitsOf15(r, q, i);
  }

  lemma ModAdd(a: nat, d: nat)
    ensures (a % U32 + d) % U32 == (a + d) % U32
  {
  }

  function Times(i: nat, d: nat): nat {
    if i == 0 then 0 else Times(i - 1, d) + d
  }

  lemma {:induction false} TimesIs(i: nat, d: nat)
    ensures Times(i, d) == i * d
  {
    if i > 0 {
      TimesIs(i - 1, d);
      assert i * d == (i - 1) * d + d;
    }
  }

  lemma {:induction false} SteppedIs(h: Hash, i: nat)
    ensures Stepped(h, i) == (h + Times(i, Delta(h))) % U32
  {
    if i > 0 {
      SteppedIs(h, i - 1);
      ModAdd(h + Times(i - 1, Delta(h)), Delta(h));
    }
  }

  /** The `i`-th probe: the hash and `i` times its rotation, modulo 2^32. */
  lemma ProbeIs(h: Hash, i: nat, bitLen: nat)
    requires bitLen > 0
    ensures Probe(h, i, bitLen) == (h + i * Delta(h)) % 0x1_0000_0000 % bitLen
  {
    SteppedIs(h, i);
    TimesIs(i, Delta(h));
  }

  // ---------- bits ----------

  /** `1 << s`. */
  function Mask(s: nat): bv8
    requires s < 8
  {
    match s
    case 0 => 1 case 1 => 2 case 2 => 4 case 3 => 8
    case 4 => 16 case 5 => 32 case 6 => 64 case 7 => 128
  }

  predicate HasBit(b: bv8, s: nat)
    requires s < 8
  {
    b & Mask(s) != 0
  }

  function WithBit(b: bv8, s: nat): (r: bv8)
    requires s < 8
    ensures forall t :: 0 <= t < 8 ==> (HasBit(r, t) <==> HasBit(b, t) || t == s)
  {
    b | Mask(s)
  }

  predicate Bit(f: Filter, pos: nat)
    requires pos / 8 < |f|
  {
    HasBit(f[pos / 8], pos % 8)
  }

  lemma BitStored(f: Filter, f': Filter, at: nat, pos: nat)
    requires at / 8 < |f| && pos / 8 < |f| && f' == f[at / 8 := WithBit(f[at / 8], at % 8)]
    ensures Bit(f', pos) <==> Bit(f, pos) || pos == at
  {
  }

  // ---------- building ----------

  /** `pos` is one of the first `n` probes of `h`. */
  ghost predicate Probed(h: Hash, n: nat, bitLen: nat, pos: nat)
    requires bitLen > 0
  {
    exists i :: 0 <= i < n && Probe(h, i, bitLen) == pos
  }

  /** `pos` is a probe of one of the hashes. */
  ghost predicate Covered(hashes: seq<Hash>, k: nat, bitLen: nat, pos: nat)
    requires bitLen > 0
  {
    exists j :: 0 <= j < |hashes| && Probed(hashes[j], k, bitLen, pos)
  }

  /** Sets the bits of all probes of one hash, and no other bit. */
  method SetProbes(filter: array<bv8>, hash: Hash, k: nat, bitLen: nat)
    requires filter.Length == bitLen / 8 + 1 && bitLen > 0 && bitLen % 8 == 0
    modifies filter
    ensures filter[bitLen / 8] == old(filter[bitLen / 8])
    ensures forall pos :: 0 <= pos < bitLen ==>
      (Bit(filter[..], pos) <==> Bit(old(filter[..]), pos) || Probed(hash, k, bitLen, pos))
  {
    var h: Hash := hash;
    for i := 0 to k
      invariant h == Stepped(hash, i)
      invariant filter[bitLen / 8] == old(filter[bitLen / 8])
      invariant forall pos :: 0 <= pos < bitLen ==>
        (Bit(filter[..], pos) <==> Bit(old(filter[..]), pos) || Probed(hash, i, bitLen, pos))
    {
      var at := h % bitLen;
      assert at == Probe(hash, i, bitLen);
      ghost var f := filter[..];
      filter[at / 8] := WithBit(filter[at / 8], at % 8);
      forall pos | 0 <= pos < bitLen
        ensures Bit(filter[..], pos) <==> Bit(old(filter[..]), pos) || Probed(hash, i + 1, bitLen, pos)
      {
        BitStored(f, filter[..], at, pos);
        ProbedNext(hash, i, bitLen, pos);
      }
      h := (h + Delta(hash)) % U32;
    }
  }

  lemma ProbedNext(h: Hash, n: nat, bitLen: nat, pos: nat)
    requires bitLen > 0
    ensures Probed(h, n + 1, bitLen, pos) <==> Probed(h, n, bitLen, pos) || Probe(h, n, bitLen) == pos
  {
  }

  lemma CoveredNext(hashes: seq<Hash>, n: nat, k: nat, bitLen: nat, pos: nat)
    requires bitLen > 0 && n < |hashes|
    ensures Covered(hashes[..n + 1], k, bitLen, pos) <==>
      Covered(hashes[..n], k, bitLen, pos) || Probed(hashes[n], k, bitLen, pos)
  {
    if Covered(hashes[..n + 1], k, bitLen, pos) {
      var j :| 0 <= j < n + 1 && Probed(hashes[..n + 1][j], k, bitLen, pos);
      assert j < n ==> hashes[..n][j] == hashes[j];
    }
    if Covered(hashes[..n], k, bitLen, pos) {
      var j :| 0 <= j < n && Probed(hashes[..n][j], k, bitLen, pos);
      assert hashes[..n + 1][j] == hashes[j];
    }
    if Probed(hashes[n], k, bitLen, pos) {
      assert hashes[..n + 1][n] == hashes[n];
    }
  }

  /** Filter for the bits of `n` keys: at least eight. */
  function ByteLen(n: nat, bitsPerKey: nat): (len: nat)
    ensures 8 * len >= n * bitsPerKey && 8 * len >= 64
    ensures 8 * (len - 1) < n * bitsPerKey || 8 * (len - 1) < 64
  {
    var bits := if n * bitsPerKey > 64 then n * bitsPerKey else 64;
    (bits + 7) / 8
  }

  /** `filter` ends with the number of probes, and its other bits are exactly the probes of the hashes. */
  ghost predicate IsFilter(filter: Filter, hashes: seq<Hash>, k: nat) {
    && |filter| >= 2 && filter[|filter| - 1] as nat == k
    && (forall pos :: 0 <= pos < 8 * (|filter| - 1) ==>
          (Bit(filter, pos) <==> Covered(hashes, k, 8 * (|filter| - 1), pos)))
  }

  /** The bits of `f` are the probes of the hashes. */
  ghost predicate BitsAre(f: Filter, hashes: seq<Hash>, k: nat, bitLen: nat)
    requires 0 < bitLen <= 8 * |f|
  {
    forall pos :: 0 <= pos < bitLen ==> (Bit(f, pos) <==> Covered(hashes, k, bitLen, pos))
  }

  lemma BitsMore(f: Filter, f': Filter, hashes: seq<Hash>, n: nat, k: nat, bitLen: nat)
    requires 0 < bitLen <= 8 * |f| && |f'| == |f| && n < |hashes| && BitsAre(f, hashes[..n], k, bitLen)
    requires forall pos :: 0 <= pos < bitLen ==> (Bit(f', pos) <==> Bit(f, pos) || Probed(hashes[n], k, bitLen, pos))
    ensures BitsAre(f', hashes[..n + 1], k, bitLen)
  {
    forall pos | 0 <= pos < bitLen
      ensures Bit(f', pos) <==> Covered(hashes[..n + 1], k, bitLen, pos)
    {
      CoveredNext(hashes, n, k, bitLen, pos);
    }
  }

  lemma NoBits(f: Filter, k: nat, bitLen: nat)
    requires 0 < bitLen <= 8 * |f| && forall i :: 0 <= i < |f| ==> f[i] == 0
    ensures BitsAre(f, [], k, bitLen)
  {
    forall pos | 0 <= pos < bitLen
      ensures !Bit(f, pos)
    {
      assert f[pos / 8] == 0;
    }
  }

  lemma LastByte(f: Filter, hashes: seq<Hash>, k: nat, byteLen: nat)
    requires |f| == byteLen + 1 && byteLen >= 1 && 1 <= k <= 30 && BitsAre(f, hashes, k, 8 * byteLen)
    ensures IsFilter(f[byteLen := k as bv8], hashes, k)
  {
    var f' := f[byteLen := k as bv8];
    forall pos | 0 <= pos < 8 * byteLen
      ensures Bit(f', pos) == Bit(f, pos)
    {
      assert f'[pos / 8] == f[pos / 8];
    }
  }

  /** `Bloom::new`. */
  method New(hashes: seq<Hash>, k: nat, bitsPerKey: nat) returns (filter: Filter)
    requires 1 <= k <= 30
    ensures IsFilter(filter, hashes, k) && |filter| == ByteLen(|hashes|, bitsPerKey) + 1
  {
    var byteLen := ByteLen(|hashes|, bitsPerKey);
    var bitLen := 8 * byteLen;
    var f := new bv8[byteLen + 1](_ => 0);
    NoBits(f[..], k, bitLen);
    for n := 0 to |hashes|
      invariant BitsAre(f[..], hashes[..n], k, bitLen)
    {
      ghost var before := f[..];
      SetProbes(f, hashes[n], k, bitLen);
      BitsMore(before, f[..], hashes, n, k, bitLen);
    }
    assert hashes[..|hashes|] == hashes;
    LastByte(f[..], hashes, k, byteLen);
    f[byteLen] := k as bv8;
    filter := f[..];
  }

  // ---------- asking ----------

  /** All probes of `h` are set, with the number of probes and the number of bits taken from the filter. */
  ghost predicate Passes(filter: Filter, h: Hash) {
    |filter| >= 2 && AllSet(filter, h, filter[|filter| - 1] as nat, 8 * (|filter| - 1))
  }

  /** The first `n` probes are set. */
  ghost predicate AllSet(filter: Filter, h: Hash, n: nat, bitLen: nat)
    requires 0 < bitLen <= 8 * |filter|
  {
    forall i :: 0 <= i < n ==> Bit(filter, Probe(h, i, bitLen))
  }

  /** `may_contain`. */
  method MayContain(filter: Filter, hash: Hash) returns (r: bool)
    ensures r <==> Passes(filter, hash)
  {
    if |filter| < 2 {
      return false;
    }
    var k := filter[|filter| - 1] as nat;
    var bitLen := (|filter| - 1) * 8;
    var h: Hash := hash;
    for i := 0 to k
      invariant h == Stepped(hash, i)
      invariant AllSet(filter, hash, i, bitLen)
    {
      var at := h % bitLen;
      assert at == Probe(hash, i, bitLen);
      if !HasBit(filter[at / 8], at % 8) {
        return false;
      }
      h := (h + Delta(hash)) % U32;
    }
    return true;
  }

  /** No false negatives: every hash that went in passes. */
  lemma NoFalseNegatives(filter: Filter, hashes: seq<Hash>, k: nat, j: nat)
    requires IsFilter(filter, hashes, k) && j < |hashes|
    ensures Passes(filter, hashes[j])
  {
    var bitLen := 8 * (|filter| - 1);
    forall i | 0 <= i < k
      ensures Bit(filter, Probe(hashes[j], i, bitLen))
    {
      var pos := Probe(hashes[j], i, bitLen);
      assert Probed(hashes[j], k, bitLen, pos);
      assert Covered(hashes, k, bitLen, pos);
    }
  }

  /** A hash passes if and only if each of its probes is a probe of a hash that went in. */
  lemma PassesIff(filter: Filter, hashes: seq<Hash>, k: nat, h: Hash)
    requires IsFilter(filter, hashes, k)
    ensures var bitLen := 8 * (|filter| - 1);
      Passes(filter, h) <==> forall i :: 0 <= i < k ==> Covered(hashes, k, bitLen, Probe(h, i, bitLen))
  {
  }
}
