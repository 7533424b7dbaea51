/** Stored values (src/kv.rs): the metadata and the bytes of one version, with the variable-length
    integers of the `integer-encoding` crate. */
module Values {
  import opened Options
  import opened Bytes
  import opened Keys

  datatype ValueMeta = ValueMeta(value: Bytes, expiresAt: TxnTs, userMeta: Byte, meta: Byte)

  // A bit of `Meta`.
  const FIN_TXN: nat := 128

  const MAX_VARINT: nat := 10

  /** `encode_var`: seven bits a byte, least significant first, the top bit set on all but the last. */
  function EncodeVar(v: nat): (b: Bytes)
    ensures |b| >= 1
  {
    if v < 128 then [v] else [v % 128 + 128] + EncodeVar(v / 128)
  }

  /** `decode_var` before the result is cut to 64 bits: the number and how many bytes it took. It
      gives up when `budget` bytes do not hold the end. */
  function DecodeVar(b: Bytes, budget: nat): (r: Option<(nat, nat)>)
    ensures r.Some? ==> 1 <= r.value.1 <= |b|
  {
    if b == [] || budget == 0 then None
    else if b[0] < 128 then Some((b[0], 1))
    else
      var rest := DecodeVar(b[1..], budget - 1);
      if rest.None? then None else Some((b[0] - 128 + 128 * rest.value.0, rest.value.1 + 1))
  }

  function Pow128(n: nat): nat {
    if n == 0 then 1 else 128 * Pow128(n - 1)
  }

  lemma {:induction false} VarRoundTrip(v: nat, rest: Bytes, budget: nat)
    requires budget >= 1 && v < Pow128(budget)
    ensures DecodeVar(EncodeVar(v) + rest, budget) == Some((v, |EncodeVar(v)|))
  {
    if v >= 128 {
      var tail := EncodeVar(v / 128);
      assert Pow128(1) == 128;
      VarRoundTrip(v / 128, rest, budget - 1);
      assert (EncodeVar(v) + rest)[1..] == tail + rest;
    } else {
      assert (EncodeVar(v) + rest)[0] == v;
    }
  }

  function SerializeValue(v: ValueMeta): (b: Bytes)
    ensures |b| >= 3
  {
    [v.userMeta, v.meta] + EncodeVar(v.expiresAt) + v.value
  }

  function DeserializeValue(b: Bytes): Option<ValueMeta> {
    if |b| < 3 then None
    else
      var d := DecodeVar(b[2..], MAX_VARINT);
      if d.None? then None
      else
        U64Positive();
        Some(ValueMeta(b[2 + d.value.1..], d.value.0 % U64_LIMIT, b[0], b[1]))
  }

  lemma U64Fits()
    ensures U64_LIMIT <= Pow128(MAX_VARINT)
  {
    assert Pow256(8) == 256 * 256 * 256 * 256 * 256 * 256 * 256 * 256;
    assert Pow128(5) == 128 * 128 * 128 * 128 * 128;
    assert Pow128(10) == 128 * 128 * 128 * 128 * 128 * Pow128(5);
  }

  /** What was stored is what is read. */
  lemma ValueRoundTrip(v: ValueMeta)
    ensures DeserializeValue(SerializeValue(v)) == Some(v)
  {
    var b := SerializeValue(v);
    U64Fits();
    VarRoundTrip(v.expiresAt, v.value, MAX_VARINT);
    assert b[2..] == EncodeVar(v.expiresAt) + v.value;
    assert b[2 + |EncodeVar(v.expiresAt)|..] == v.value;
  }

  // ---------- the bytes themselves ----------

  /** The number whose digits to the base 128, least significant first, are the low seven bits of the bytes. */
  ghost function Digits(b: Bytes): nat {
    if b == [] then 0 else b[0] % 128 + 128 * Digits(b[1..])
  }

  /** A variable-length integer has the digits of the number, as few as possible; all bytes but the last have the high
      bit set. */
  lemma {:induction false} VarIsDigits(v: nat)
    ensures var b := EncodeVar(v);
      && b != [] && Digits(b) == v && (|b| > 1 ==> b[|b| - 1] > 0)
      && (forall i :: 0 <= i < |b| ==> (b[i] >= 128 <==> i < |b| - 1))
  {
    if v >= 128 {
      VarIsDigits(v / 128);
      var b, rest := EncodeVar(v), EncodeVar(v / 128);
      assert b[0] == v % 128 + 128 && b[1..] == rest;
      assert forall i :: 1 <= i < |b| ==> b[i] == rest[i - 1];
    } else {
      assert [v][1..] == [];
    }
  }

  /** A value starts with the user's meta byte and the store's, then come the expiry time and the value itself. */
  lemma ValueBytes(v: ValueMeta) returns (n: nat)
    ensures var b := SerializeValue(v);
      && 2 + n <= |b| && b[0] == v.userMeta && b[1] == v.meta
      && Digits(b[2..2 + n]) == v.expiresAt && b[2 + n..] == v.value
  {
    var b := SerializeValue(v);
    n := |EncodeVar(v.expiresAt)|;
    VarIsDigits(v.expiresAt);
    assert b[2..2 + n] == EncodeVar(v.expiresAt) && b[2 + n..] == v.value;
  }
}
