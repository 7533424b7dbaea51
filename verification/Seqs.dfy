/** Concatenations and slices. */
module Seqs {

  ghost predicate Ascending(s: seq<nat>) {
    forall i, j :: 0 <= i < j < |s| ==> s[i] < s[j]
  }

  function Elements(s: seq<nat>): set<nat> {
    set t | t in s
  }

  lemma Regroup<T>(a: seq<T>, b: seq<T>, c: seq<T>)
    ensures a + (b + c) == a + b + c
  {
  }

  lemma SnocSlice<T>(s: seq<T>, i: nat)
    requires i < |s|
    ensures s[..i + 1] == s[..i] + [s[i]] && s[i] in s
  {
  }

  lemma CutTwice<T>(s: seq<T>, lo: nat, hi: nat)
    requires lo <= hi <= |s|
    ensures s == s[..lo] + (s[lo..hi] + s[hi..])
  {
    assert s[lo..] == s[lo..hi] + s[hi..];
  }

  lemma ThreeParts<T>(a: seq<T>, b: seq<T>, c: seq<T>)
    ensures var s, m, n := a + b + c, |a|, |a| + |b|;
      s[..m] == a && s[m..n] == b && s[n..] == c
  {
  }

  lemma PrefixSlice<T>(s: seq<T>, a: seq<T>, lo: nat, hi: nat)
    requires |a| <= |s| && s[..|a|] == a && lo <= hi <= |a|
    ensures s[lo..hi] == a[lo..hi]
  {
    forall k | lo <= k < hi
      ensures s[k] == a[k]
    {
      assert s[k] == s[..|a|][k];
    }
  }

  lemma SuffixSlice<T>(a: seq<T>, b: seq<T>, lo: nat, hi: nat)
    requires lo <= hi <= |b|
    ensures (a + b)[|a| + lo..|a| + hi] == b[lo..hi]
  {
  }

  function Flatten<T>(ss: seq<seq<T>>): seq<T> {
    if ss == [] then [] else Flatten(ss[..|ss| - 1]) + ss[|ss| - 1]
  }

  lemma FlattenSnoc<T>(ss: seq<seq<T>>, s: seq<T>)
    ensures Flatten(ss + [s]) == Flatten(ss) + s
  {
    assert (ss + [s])[..|ss|] == ss;
  }

  lemma {:induction false} FlattenConcat<T>(a: seq<seq<T>>, b: seq<seq<T>>)
    ensures Flatten(a + b) == Flatten(a) + Flatten(b)
  {
    if b == [] {
      assert a + b == a;
    } else {
      var n := |b| - 1;
      FlattenConcat(a, b[..n]);
      FlattenSnoc(a + b[..n], b[n]);
      assert a + b == a + b[..n] + [b[n]];
    }
  }

  lemma {:induction false} FlattenPrefix<T>(ss: seq<seq<T>>, k: nat)
    requires k <= |ss|
    ensures |Flatten(ss[..k])| <= |Flatten(ss)| && Flatten(ss)[..|Flatten(ss[..k])|] == Flatten(ss[..k])
    decreases |ss|
  {
    if k < |ss| {
      var init := ss[..|ss| - 1];
      FlattenPrefix(init, k);
      assert init[..k] == ss[..k];
      PrefixSlice(Flatten(ss), Flatten(init), 0, |Flatten(ss[..k])|);
    } else {
      assert ss[..k] == ss;
    }
  }

  /** Where the parts of a concatenation lie. */
  lemma FlattenPart<T>(ss: seq<seq<T>>, k: nat)
    requires k < |ss|
    ensures var lo := |Flatten(ss[..k])|;
      && |Flatten(ss[..k + 1])| == lo + |ss[k]| && lo + |ss[k]| <= |Flatten(ss)|
      && Flatten(ss)[lo..lo + |ss[k]|] == ss[k]
  {
    var upTo := ss[..k + 1];
    assert upTo[..k] == ss[..k];
    FlattenPrefix(ss, k + 1);
    var lo := |Flatten(ss[..k])|;
    PrefixSlice(Flatten(ss), Flatten(upTo), lo, lo + |ss[k]|);
  }

  lemma AscendingParts(a: seq<nat>, b: seq<nat>)
    requires Ascending(a + b)
    ensures Ascending(a) && Ascending(b)
    ensures forall x, y :: x in a && y in b ==> x < y
  {
    assert forall i :: 0 <= i < |a| ==> a[i] == (a + b)[i];
    assert forall i :: 0 <= i < |b| ==> b[i] == (a + b)[|a| + i];
  }

  lemma {:induction false} FlattenHolds(batches: seq<seq<nat>>, x: nat, j: nat)
    requires x < |batches| && j in batches[x]
    ensures j in Flatten(batches)
  {
    var last := |batches| - 1;
    if x < last {
      assert batches[..last][x] == batches[x];
      FlattenHolds(batches[..last], x, j);
    }
  }

  lemma {:induction false} FlattenSeparates(batches: seq<seq<nat>>, x: nat, y: nat, u: nat, v: nat)
    requires Ascending(Flatten(batches))
    requires x <= y < |batches| && u < |batches[x]| && v < |batches[y]| && (x < y || u < v)
    ensures batches[x][u] < batches[y][v]
  {
    var last := |batches| - 1;
    var init := batches[..last];
    AscendingParts(Flatten(init), batches[last]);
    if y < last {
      assert init[x] == batches[x] && init[y] == batches[y];
      FlattenSeparates(init, x, y, u, v);
    } else if x < last {
      assert init[x] == batches[x] && batches[x][u] in batches[x];
      FlattenHolds(init, x, batches[x][u]);
      assert batches[last][v] in batches[last];
    }
  }
}
