/** The subscription trie (src/util/tire.rs): ids filed under patterns of bytes and ignored positions. Nodes own their
    children, so that a node is a value here. */
module Tries {
  import opened Options
  import opened Bytes

  datatype TrieNode = TrieNode(ids: seq<nat>, children: map<Byte, TrieNode>, ignore: Option<TrieNode>)

  const EMPTY: TrieNode := TrieNode([], map[], None)

  predicate IsEmpty(n: TrieNode) {
    n.ids == [] && n.children == map[] && n.ignore == None
  }

  /** One step of a path: a byte, or an ignored position. */
  datatype Step = One(b: Byte) | Any

  type Pattern = seq<Step>

  /** The path of a prefix, with the flags of the positions to ignore; missing flags are false. */
  function PatternOf(prefix: Bytes, ignore: seq<bool>): Pattern {
    seq(|prefix|, i requires 0 <= i < |prefix| => if i < |ignore| && ignore[i] then Any else One(prefix[i]))
  }

  // ---------- the operations ----------

  /** `get_iter`. */
  function Get(n: TrieNode, key: Bytes): set<nat> {
    (set x | x in n.ids)
    + (if key != [] && n.ignore.Some? then Get(n.ignore.value, key) else {})
    + (if key != [] && key[0] in n.children then Get(n.children[key[0]], key[1..]) else {})
  }

  /** `fix` with `Operation::Set`. */
  function Set(n: TrieNode, p: Pattern, id: nat): TrieNode
    decreases p
  {
    if p == [] then n.(ids := n.ids + [id])
    else match p[0]
      case Any => n.(ignore := Some(Set(if n.ignore.Some? then n.ignore.value else EMPTY, p[1..], id)))
      case One(b) => n.(children := n.children[b := Set(if b in n.children then n.children[b] else EMPTY, p[1..], id)])
  }

  function Filtered(ids: seq<nat>, id: nat): seq<nat> {
    if ids == [] then [] else (if ids[0] == id then [] else [ids[0]]) + Filtered(ids[1..], id)
  }

  /** `fix` with `Operation::Del`; a missing node on the way ends it. */
  function Del(n: TrieNode, p: Pattern, id: nat): TrieNode {
    if p == [] then n.(ids := Filtered(n.ids, id))
    else match p[0]
      case Any => if n.ignore == None then n else n.(ignore := Some(Del(n.ignore.value, p[1..], id)))
      case One(b) => if b !in n.children then n else n.(children := n.children[b := Del(n.children[b], p[1..], id)])
  }

  /** `remove_empty`: the node afterwards; the source returns whether it is empty. */
  function RemoveEmpty(n: TrieNode): TrieNode {
    var ignore := if n.ignore == None || IsEmpty(RemoveEmpty(n.ignore.value)) then None
      else Some(RemoveEmpty(n.ignore.value));
    var children := map b | b in n.children && !IsEmpty(RemoveEmpty(n.children[b])) :: RemoveEmpty(n.children[b]);
    TrieNode(n.ids, children, ignore)
  }

  // ---------- what a trie stands for ----------

  /** `id` is filed under `p`. */
  predicate Has(n: TrieNode, p: Pattern, id: nat) {
    if p == [] then id in n.ids
    else match p[0]
      case Any => n.ignore.Some? && Has(n.ignore.value, p[1..], id)
      case One(b) => b in n.children && Has(n.children[b], p[1..], id)
  }

  /** Which keys a path applies to: an ignored position consumes nothing, but there must be a byte left. */
  predicate Matches(p: Pattern, key: Bytes) {
    if p == [] then true
    else if key == [] then false
    else match p[0]
      case Any => Matches(p[1..], key)
      case One(b) => key[0] == b && Matches(p[1..], key[1..])
  }

  /** No node below this one is empty. */
  predicate NoEmptyBelow(n: TrieNode) {
    && (n.ignore.Some? ==> !IsEmpty(n.ignore.value) && NoEmptyBelow(n.ignore.value))
    && (forall b :: b in n.children ==> !IsEmpty(n.children[b]) && NoEmptyBelow(n.children[b]))
  }

  /** A lookup gives the ids of the patterns that match. */
  lemma {:induction false} GetSound(n: TrieNode, key: Bytes, id: nat) returns (p: Pattern)
    requires id in Get(n, key)
    ensures Has(n, p, id) && Matches(p, key)
  {
    if id in n.ids {
      p := [];
    } else if n.ignore.Some? && key != [] && id in Get(n.ignore.value, key) {
      var q := GetSound(n.ignore.value, key, id);
      p := [Any] + q;
    } else {
      var q := GetSound(n.children[key[0]], key[1..], id);
      p := [One(key[0])] + q;
    }
  }

  lemma {:induction false} GetComplete(n: TrieNode, key: Bytes, id: nat, p: Pattern)
    requires Has(n, p, id) && Matches(p, key)
    ensures id in Get(n, key)
    decreases p
  {
    if p != [] {
      match p[0]
      case Any => GetComplete(n.ignore.value, key, id, p[1..]);
      case One(b) => GetComplete(n.children[b], key[1..], id, p[1..]);
    }
  }

  lemma {:induction false} SetHas(n: TrieNode, p: Pattern, id: nat, q: Pattern, x: nat)
    ensures Has(Set(n, p, id), q, x) <==> Has(n, q, x) || (q == p && x == id)
    decreases p
  {
    if p != [] && q != [] {
      assert p == [p[0]] + p[1..] && q == [q[0]] + q[1..];
      match p[0]
      case Any =>
        var c := if n.ignore.Some? then n.ignore.value else EMPTY;
        SetHas(c, p[1..], id, q[1..], x);
        EmptyHasNone(q[1..], x);
      case One(b) =>
        var c := if b in n.children then n.children[b] else EMPTY;
        SetHas(c, p[1..], id, q[1..], x);
        EmptyHasNone(q[1..], x);
    }
  }

  lemma EmptyHasNone(q: Pattern, x: nat)
    ensures !Has(EMPTY, q, x)
  {
  }

  lemma {:induction false} FilteredHas(ids: seq<nat>, id: nat, x: nat)
    ensures x in Filtered(ids, id) <==> x in ids && x != id
  {
    if ids != [] {
      FilteredHas(ids[1..], id, x);
      assert ids == [ids[0]] + ids[1..];
    }
  }

  lemma {:induction false} DelHas(n: TrieNode, p: Pattern, id: nat, q: Pattern, x: nat)
    ensures Has(Del(n, p, id), q, x) <==> Has(n, q, x) && !(q == p && x == id)
    decreases p
  {
    if p == [] {
      FilteredHas(n.ids, id, x);
    } else if q != [] {
      assert p == [p[0]] + p[1..] && q == [q[0]] + q[1..];
      match p[0]
      case Any =>
        if n.ignore.Some? {
          DelHas(n.ignore.value, p[1..], id, q[1..], x);
        }
      case One(b) =>
        if b in n.children {
          DelHas(n.children[b], p[1..], id, q[1..], x);
        }
    }
  }

  lemma {:induction false} EmptyNodeHasNone(n: TrieNode, q: Pattern, x: nat)
    requires IsEmpty(n)
    ensures !Has(n, q, x)
  {
  }

  /** Pruning files and unfiles nothing. */
  lemma {:induction false} PruneHas(n: TrieNode, q: Pattern, x: nat)
    ensures Has(RemoveEmpty(n), q, x) <==> Has(n, q, x)
    decreases q
  {
    if q != [] {
      match q[0]
      case Any =>
        if n.ignore.Some? {
          PruneHas(n.ignore.value, q[1..], x);
          if IsEmpty(RemoveEmpty(n.ignore.value)) {
            EmptyNodeHasNone(RemoveEmpty(n.ignore.value), q[1..], x);
          }
        }
      case One(b) =>
        if b in n.children {
          PruneHas(n.children[b], q[1..], x);
          if IsEmpty(RemoveEmpty(n.children[b])) {
            EmptyNodeHasNone(RemoveEmpty(n.children[b]), q[1..], x);
          }
        }
    }
  }

  lemma {:induction false} PruneLeavesNoEmpty(n: TrieNode)
    ensures NoEmptyBelow(RemoveEmpty(n))
  {
    if n.ignore.Some? {
      PruneLeavesNoEmpty(n.ignore.value);
    }
    forall b | b in n.children
      ensures NoEmptyBelow(RemoveEmpty(n.children[b]))
    {
      PruneLeavesNoEmpty(n.children[b]);
    }
  }

  /** Pruning changes no lookup. */
  lemma PruneGet(n: TrieNode, key: Bytes)
    ensures Get(RemoveEmpty(n), key) == Get(n, key)
  {
    forall x
      ensures x in Get(RemoveEmpty(n), key) <==> x in Get(n, key)
    {
      if x in Get(n, key) {
        var p := GetSound(n, key, x);
        PruneHas(n, p, x);
        GetComplete(RemoveEmpty(n), key, x, p);
      }
      if x in Get(RemoveEmpty(n), key) {
        var p := GetSound(RemoveEmpty(n), key, x);
        PruneHas(n, p, x);
        GetComplete(n, key, x, p);
      }
    }
  }

  // ---------- push, then delete ----------

  lemma {:induction false} PruneIsIdentity(n: TrieNode)
    requires NoEmptyBelow(n)
    ensures RemoveEmpty(n) == n
  {
    if n.ignore.Some? {
      PruneIsIdentity(n.ignore.value);
    }
    forall b | b in n.children
      ensures RemoveEmpty(n.children[b]) == n.children[b]
    {
      PruneIsIdentity(n.children[b]);
    }
  }

  lemma {:induction false} FilterAppended(ids: seq<nat>, id: nat)
    requires id !in ids
    ensures Filtered(ids + [id], id) == ids
  {
    if ids != [] {
      FilterAppended(ids[1..], id);
      assert (ids + [id])[1..] == ids[1..] + [id];
    }
  }

  /** Deleting what was just pushed gives back the very same trie, if the id was not filed there before. */
  lemma {:induction false} DeleteUndoesPush(n: TrieNode, p: Pattern, id: nat)
    requires NoEmptyBelow(n) && !Has(n, p, id)
    ensures RemoveEmpty(Del(Set(n, p, id), p, id)) == n
    decreases p
  {
    PruneIsIdentity(n);
    if p == [] {
      FilterAppended(n.ids, id);
    } else {
      var c := Below(n, p[0]);
      EmptyHasNone(p[1..], id);
      DeleteUndoesPush(c, p[1..], id);
      SetThenDel(n, p, id);
      var d := Del(Set(c, p[1..], id), p[1..], id);
      match p[0]
      case Any => IgnoreRestored(n, d, c);
      case One(b) => ChildRestored(n, b, d, c);
    }
  }

  /** The node a position leads to, empty if there is none. */
  ghost function Below(n: TrieNode, at: Step): TrieNode {
    match at
    case Any => if n.ignore.Some? then n.ignore.value else EMPTY
    case One(b) => if b in n.children then n.children[b] else EMPTY
  }

  /** A push and a delete change the same child. */
  lemma SetThenDel(n: TrieNode, p: Pattern, id: nat)
    requires p != []
    ensures var d := Del(Set(Below(n, p[0]), p[1..], id), p[1..], id);
      Del(Set(n, p, id), p, id)
        == match p[0]
           case Any => n.(ignore := Some(d))
           case One(b) => n.(children := n.children[b := d])
  {
    if p[0].One? {
      var b, c := p[0].b, Set(Below(n, p[0]), p[1..], id);
      var d := Del(c, p[1..], id);
      assert n.children[b := c][b := d] == n.children[b := d];
    }
  }

  lemma IgnoreRestored(n: TrieNode, d: TrieNode, c: TrieNode)
    requires RemoveEmpty(n) == n && RemoveEmpty(d) == c && c == (if n.ignore.Some? then n.ignore.value else EMPTY)
    requires n.ignore.Some? ==> !IsEmpty(c)
    ensures RemoveEmpty(n.(ignore := Some(d))) == n
  {
  }

  lemma ChildRestored(n: TrieNode, b: Byte, d: TrieNode, c: TrieNode)
    requires RemoveEmpty(n) == n && RemoveEmpty(d) == c && c == (if b in n.children then n.children[b] else EMPTY)
    requires b in n.children ==> !IsEmpty(c)
    ensures RemoveEmpty(n.(children := n.children[b := d])) == n
  {
    var n' := n.(children := n.children[b := d]);
    forall k
      ensures k in RemoveEmpty(n').children <==> k in n.children
      ensures k in n.children ==> RemoveEmpty(n').children[k] == n.children[k]
    {
      ChildKept(n, b, d, k);
    }
    assert RemoveEmpty(n').children == n.children;
  }

  /** What pruning leaves under `k`. */
  lemma ChildPruned(n: TrieNode, k: Byte)
    ensures k in RemoveEmpty(n).children <==> k in n.children && !IsEmpty(RemoveEmpty(n.children[k]))
    ensures k in RemoveEmpty(n).children ==> RemoveEmpty(n).children[k] == RemoveEmpty(n.children[k])
  {
  }

  lemma ChildKept(n: TrieNode, b: Byte, d: TrieNode, k: Byte)
    requires RemoveEmpty(n) == n && RemoveEmpty(d) == (if b in n.children then n.children[b] else EMPTY)
    requires b in n.children ==> !IsEmpty(n.children[b])
    ensures var n' := n.(children := n.children[b := d]);
      && (k in RemoveEmpty(n').children <==> k in n.children)
      && (k in n.children ==> RemoveEmpty(n').children[k] == n.children[k])
  {
    ChildPruned(n, k);
    ChildPruned(n.(children := n.children[b := d]), k);
  }

  // ---------- which keys ----------

  /** What the patterns are meant to say: an ignored position stands for any one byte. */
  predicate Intended(p: Pattern, key: Bytes) {
    |p| <= |key| && forall i :: 0 <= i < |p| ==> p[i] == Any || p[i] == One(key[i])
  }

  predicate AnyOnlyLast(p: Pattern) {
    forall i :: 0 <= i < |p| - 1 ==> p[i] != Any
  }

  lemma {:induction false} AgreeWhenLast(p: Pattern, key: Bytes)
    requires AnyOnlyLast(p)
    ensures Matches(p, key) == Intended(p, key)
    decreases p
  {
    if p != [] && key != [] {
      if p[0] == Any {
        assert |p| == 1;
        assert Matches(p[1..], key);
      } else {
        AgreeWhenLast(p[1..], key[1..]);
        IntendedTail(p, key);
      }
    }
  }

  lemma IntendedTail(p: Pattern, key: Bytes)
    requires p != [] && key != [] && p[0] != Any
    ensures Intended(p, key) <==> p[0] == One(key[0]) && Intended(p[1..], key[1..])
  {
    if p[0] == One(key[0]) && Intended(p[1..], key[1..]) {
      forall i | 0 <= i < |p|
        ensures p[i] == Any || p[i] == One(key[i])
      {
        if i > 0 {
          assert p[1..][i - 1] == p[i] && key[1..][i - 1] == key[i];
        }
      }
    }
    if Intended(p, key) {
      forall i | 0 <= i < |p| - 1
        ensures p[1..][i] == Any || p[1..][i] == One(key[1..][i])
      {
        assert p[1..][i] == p[i + 1] && key[1..][i] == key[i + 1];
      }
    }
  }

  /** The shortest key that a pattern matches. */
  function Shortest(p: Pattern): Bytes {
    if p == [] then []
    else match p[0]
      case Any => if |p| == 1 then [0] else Shortest(p[1..])
      case One(b) => [b] + Shortest(p[1..])
  }

  lemma {:induction false} ShortestMatches(p: Pattern)
    ensures Matches(p, Shortest(p)) && (p != [] ==> Shortest(p) != [])
    ensures |Shortest(p)| <= |p| && (!AnyOnlyLast(p) ==> |Shortest(p)| < |p|)
  {
    if p != [] {
      ShortestMatches(p[1..]);
      if p[0] != Any && !AnyOnlyLast(p) {
        var i :| 0 <= i < |p| - 1 && p[i] == Any;
        assert p[1..][i - 1] == Any;
      }
      if p[0] == Any && |p| == 1 {
        assert Matches(p[1..], [0]);
      }
    }
  }

  /** The trie does what the patterns are meant to say, for all keys, if and only if positions are ignored at the end
      of a pattern only. */
  lemma AgreesIff(p: Pattern)
    ensures (forall key :: Matches(p, key) == Intended(p, key)) <==> AnyOnlyLast(p)
  {
    if AnyOnlyLast(p) {
      forall key
        ensures Matches(p, key) == Intended(p, key)
      {
        AgreeWhenLast(p, key);
      }
    } else {
      ShortestMatches(p);
      assert Matches(p, Shortest(p)) != Intended(p, Shortest(p));
    }
  }

  /** Without ignored positions a pattern matches the keys that start with it. */
  lemma PrefixMatches(prefix: Bytes, key: Bytes)
    ensures Matches(PatternOf(prefix, []), key) <==> prefix <= key
  {
    AgreeWhenLast(PatternOf(prefix, []), key);
    if Intended(PatternOf(prefix, []), key) {
      forall i | 0 <= i < |prefix|
        ensures prefix[i] == key[i]
      {
        assert PatternOf(prefix, [])[i] == One(prefix[i]);
      }
    }
  }

  // ---------- the trie ----------

  class Trie {
    var root: TrieNode
    /** The pairs that are filed. */
    ghost var filed: set<(Pattern, nat)>

    ghost predicate Valid()
      reads this
    {
      forall p: Pattern, x: nat :: Has(root, p, x) <==> (p, x) in filed
    }

    constructor ()
      ensures Valid() && filed == {} && NoEmptyBelow(root)
    {
      root := EMPTY;
      filed := {};
      new;
      forall p: Pattern, x: nat
        ensures !Has(root, p, x)
      {
        EmptyHasNone(p, x);
      }
    }

    /** `push_match`. */
    method PushMatch(prefix: Bytes, ignore: seq<bool>, id: nat)
      requires Valid()
      modifies this
      ensures Valid() && filed == old(filed) + {(PatternOf(prefix, ignore), id)}
      ensures root == Set(old(root), PatternOf(prefix, ignore), id)
    {
      var p := PatternOf(prefix, ignore);
      forall q: Pattern, x: nat
        ensures Has(Set(root, p, id), q, x) <==> (q, x) in filed + {(p, id)}
      {
        SetHas(root, p, id, q, x);
      }
      root := Set(root, p, id);
      filed := filed + {(p, id)};
    }

    /** `delete_match`: exactly this pair is gone, and no empty node is left. */
    method DeleteMatch(prefix: Bytes, ignore: seq<bool>, id: nat)
      requires Valid()
      modifies this
      ensures Valid() && filed == old(filed) - {(PatternOf(prefix, ignore), id)} && NoEmptyBelow(root)
      ensures root == RemoveEmpty(Del(old(root), PatternOf(prefix, ignore), id))
    {
      var p := PatternOf(prefix, ignore);
      var d := Del(root, p, id);
      forall q: Pattern, x: nat
        ensures Has(RemoveEmpty(d), q, x) <==> (q, x) in filed - {(p, id)}
      {
        DelHas(root, p, id, q, x);
        PruneHas(d, q, x);
      }
      PruneLeavesNoEmpty(d);
      root := RemoveEmpty(d);
      filed := filed - {(p, id)};
    }

    /** `get`: the ids filed under a matching pattern. */
    method Lookup(key: Bytes) returns (ids: set<nat>)
      requires Valid()
      ensures forall x :: x in ids <==> exists p :: (p, x) in filed && Matches(p, key)
    {
      ids := Get(root, key);
      forall x
        ensures x in ids <==> exists p :: (p, x) in filed && Matches(p, key)
      {
        if x in ids {
          var p := GetSound(root, key, x);
          assert (p, x) in filed && Matches(p, key);
        }
        if p :| (p, x) in filed && Matches(p, key) {
          GetComplete(root, key, x, p);
        }
      }
    }
  }
}
