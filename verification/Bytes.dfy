/** Bytes, big-endian integers and the lexicographic order on byte strings. */
module Bytes {

  type Byte = b: int | 0 <= b < 256
  type Bytes = seq<Byte>

  datatype Ordering = Less | Equal | Greater {
    function Reverse(): Ordering {
      match this
      case Less => Greater
      case Equal => Equal
      case Greater => Less
    }

    /** The usual `match cmp(..) { Equal => next, ord => ord }`. */
    function Then(next: Ordering): Ordering {
      if Equal? then next else this
    }
  }

  function CompareInt(a: int, b: int): Ordering {
    if a < b then Less else if a == b then Equal else Greater
  }

  // ---------- lexicographic order ----------

  /** `<[u8] as Ord>::cmp`. */
  function Compare(a: Bytes, b: Bytes): Ordering {
    if a == [] && b == [] then Equal
    else if a == [] then Less
    else if b == [] then Greater
    else CompareInt(a[0], b[0]).Then(Compare(a[1..], b[1..]))
  }

  lemma {:induction false} CompareEqual(a: Bytes, b: Bytes)
    ensures Compare(a, b) == Equal <==> a == b
  {
    if a != [] && b != [] {
      CompareEqual(a[1..], b[1..]);
      assert a == [a[0]] + a[1..] && b == [b[0]] + b[1..];
    }
  }

  lemma {:induction false} CompareReverse(a: Bytes, b: Bytes)
    ensures Compare(b, a) == Compare(a, b).Reverse()
  {
    if a != [] && b != [] {
      CompareReverse(a[1..], b[1..]);
    }
  }

  lemma {:induction false} CompareTransitive(a: Bytes, b: Bytes, c: Bytes)
    requires Compare(a, b) != Greater && Compare(b, c) != Greater
    ensures Compare(a, c) != Greater
    ensures Compare(a, c) == Equal ==> Compare(a, b) == Equal && Compare(b, c) == Equal
  {
    if a != [] && b != [] && c != [] && a[0] == b[0] == c[0] {
      CompareTransitive(a[1..], b[1..], c[1..]);
    }
  }

  // ---------- big-endian integers ----------

  function Pow256(n: nat): (p: nat)
    ensures p >= 1
  {
    if n == 0 then 1 else 256 * Pow256(n - 1)
  }

  /** `put_u16`, `put_u32`, `put_u64`: the `width` bytes of `v`, most significant first. */
  function PutBe(v: nat, width: nat): (b: Bytes)
    requires v < Pow256(width)
    ensures |b| == width
  {
    if width == 0 then [] else PutBe(v / 256, width - 1) + [v % 256]
  }

  /** `get_u16`, `get_u32`, `get_u64` on exactly the bytes of the integer. */
  function GetBe(b: Bytes): (v: nat)
    ensures v < Pow256(|b|)
  {
    if b == [] then 0 else 256 * GetBe(b[..|b| - 1]) + b[|b| - 1]
  }

  lemma {:induction false} GetPut(v: nat, width: nat)
    requires v < Pow256(width)
    ensures GetBe(PutBe(v, width)) == v
  {
    if width > 0 {
      GetPut(v / 256, width - 1);
      assert PutBe(v, width)[..width - 1] == PutBe(v / 256, width - 1);
    }
  }

  lemma {:induction false} PutGet(b: Bytes)
    ensures PutBe(GetBe(b), |b|) == b
  {
    if b != [] {
      PutGet(b[..|b| - 1]);
      assert b == b[..|b| - 1] + [b[|b| - 1]];
    }
  }

  lemma {:induction false} CompareSnoc(a: Bytes, x: Byte, b: Bytes, y: Byte)
    requires |a| == |b|
    ensures Compare(a + [x], b + [y]) == Compare(a, b).Then(CompareInt(x, y))
  {
    if a != [] {
      CompareSnoc(a[1..], x, b[1..], y);
      assert (a + [x])[1..] == a[1..] + [x];
      assert (b + [y])[1..] == b[1..] + [y];
    }
  }

  /** Big-endian strings of one width compare like the numbers they encode. */
  lemma {:induction false} BigEndianOrder(a: Bytes, b: Bytes)
    requires |a| == |b|
    ensures Compare(a, b) == CompareInt(GetBe(a), GetBe(b))
  {
    if a != [] {
      var n := |a| - 1;
      BigEndianOrder(a[..n], b[..n]);
      CompareSnoc(a[..n], a[n], b[..n], b[n]);
      assert a == a[..n] + [a[n]] && b == b[..n] + [b[n]];
    }
  }
}
