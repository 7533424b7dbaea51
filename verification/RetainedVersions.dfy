/** Which versions a compaction keeps, and what a reader sees, said without the steps that compute it. */
module RetainedVersions {
  import opened Options
  import opened Bytes
  import opened Keys
  import opened Retention

  /** The entry is neither deleted nor past its expiry time. */
  ghost predicate Alive(e: Entry, now: nat) {
    !e.deleted && (e.expiresAt == 0 || now < e.expiresAt)
  }

  /** The entry counts as a version: nobody reads below it, and it is no merge entry. */
  ghost predicate Counts(e: Entry, s: Setting) {
    e.at.ts <= s.discardTs && !e.merge
  }

  /** The entries before `n` that count as versions of `key`. */
  ghost function Versions(es: seq<Entry>, n: nat, key: Bytes, s: Setting): set<nat>
    requires n <= |es|
  {
    set i | 0 <= i < n && es[i].at.key == key && Counts(es[i], s)
  }

  /** Nothing older than `es[i]` is needed: it is deleted or expired, or discards earlier versions, or is the last
      version to keep. */
  ghost predicate EndsKey(es: seq<Entry>, i: nat, s: Setting)
    requires i < |es|
  {
    && Counts(es[i], s)
    && (!Alive(es[i], s.clock(es[i])) || es[i].discardEarlier
        || |Versions(es, i + 1, es[i].at.key, s)| == s.keepVersions)
  }

  /** An entry before `n` ends `key`. */
  ghost predicate Ended(es: seq<Entry>, n: nat, key: Bytes, s: Setting)
    requires n <= |es|
  {
    exists i :: 0 <= i < n && es[i].at.key == key && EndsKey(es, i, s)
  }

  /** What the context knows in front of `n`. The default key, which is the last version of the empty user key, cannot
      be skipped and need not be. */
  ghost predicate Knows(es: seq<Entry>, n: nat, c: Context, s: Setting)
    requires n <= |es|
  {
    && c.last == (if n == 0 then [] else es[n - 1].at.key)
    && (c.skip.Some? ==> c.skip.value == c.last && Ended(es, n, c.last, s))
    && (Ended(es, n, c.last, s) && c.skip.None? ==> n > 0 && IsDefault(es[n - 1].at))
    && (!Ended(es, n, c.last, s) ==> c.versions == |Versions(es, n, c.last, s)|)
  }

  lemma VersionsNext(es: seq<Entry>, n: nat, key: Bytes, s: Setting)
    requires n < |es|
    ensures |Versions(es, n + 1, key, s)|
         == |Versions(es, n, key, s)| + if es[n].at.key == key && Counts(es[n], s) then 1 else 0
  {
    var before := Versions(es, n, key, s);
    assert Versions(es, n + 1, key, s) == if es[n].at.key == key && Counts(es[n], s) then before + {n} else before;
  }

  lemma EndedNext(es: seq<Entry>, n: nat, key: Bytes, s: Setting)
    requires n < |es|
    ensures Ended(es, n + 1, key, s) <==> Ended(es, n, key, s) || (es[n].at.key == key && EndsKey(es, n, s))
  {
  }

  /** A user key that changes was not there before. */
  lemma NewKeyIsNew(es: seq<Entry>, n: nat, s: Setting)
    requires Sorted(es) && n < |es| && (n > 0 ==> es[n - 1].at.key != es[n].at.key)
    ensures !Ended(es, n, es[n].at.key, s) && Versions(es, n, es[n].at.key, s) == {}
  {
    forall i | 0 <= i < n
      ensures es[i].at.key != es[n].at.key
    {
      LtParts(es[n - 1].at, es[n].at);
      if i < n - 1 {
        LtParts(es[i].at, es[n - 1].at);
        if es[i].at.key == es[n].at.key {
          KeyLeAntisymmetric(es[n - 1].at.key, es[n].at.key);
        }
      }
    }
  }

  /** What `Decide` must do with `es[n]`. */
  ghost predicate ShouldKeep(es: seq<Entry>, n: nat, s: Setting)
    requires n < |es|
  {
    && !Ended(es, n, es[n].at.key, s)
    && !(Counts(es[n], s) && !Alive(es[n], s.clock(es[n])) && !s.hasOverlap)
  }

  lemma DecideKnows(es: seq<Entry>, n: nat, c: Context, s: Setting)
    requires Sorted(es) && n < |es| && Knows(es, n, c, s)
    ensures Knows(es, n + 1, Decide(c, es[n], s).0, s)
    ensures Decide(c, es[n], s).1 <==> ShouldKeep(es, n, s)
  {
    var key := es[n].at.key;
    VersionsNext(es, n, key, s);
    EndedNext(es, n, key, s);
    if n == 0 || es[n - 1].at.key != key {
      NewKeyIsNew(es, n, s);
    } else {
      LtParts(es[n - 1].at, es[n].at);
    }
  }

  lemma {:induction false} RetainKnows(es: seq<Entry>, n: nat, c: Context, s: Setting, i: nat)
    requires Sorted(es) && n <= |es| && Knows(es, n, c, s) && n <= i < |es|
    ensures es[i] in Retain(es[n..], c, s) <==> ShouldKeep(es, i, s)
    decreases |es| - n
  {
    var d := Decide(c, es[n], s);
    DecideKnows(es, n, c, s);
    assert es[n..][0] == es[n] && es[n..][1..] == es[n + 1..];
    NotLater(es, n);
    if i > n {
      assert es[n + 1..][i - n - 1] == es[i];
      RetainKnows(es, n + 1, d.0, s, i);
    } else if es[n] in Retain(es[n + 1..], d.0, s) {
      RetainSubset(es[n + 1..], d.0, s, es[n]);
    }
  }

  lemma NotLater(es: seq<Entry>, n: nat)
    requires Sorted(es) && n < |es|
    ensures es[n] !in es[n + 1..]
  {
    CompareKeyTsEqual(es[n].at, es[n].at);
    var rest := es[n + 1..];
    forall k | 0 <= k < |rest|
      ensures rest[k] != es[n]
    {
      assert Lt(es[n].at, es[n + 1 + k].at);
    }
  }

  /** Exactly what is kept of a sorted stream: an entry is dropped if and only if a newer entry ends its user key, or it
      is itself deleted or expired, counts as a version, and no overlap was reported. */
  lemma RetainedIff(es: seq<Entry>, s: Setting, i: nat)
    requires Sorted(es) && i < |es|
    ensures es[i] in Retain(es, Fresh(), s) <==>
            && (forall j :: 0 <= j < i && es[j].at.key == es[i].at.key ==> !EndsKey(es, j, s))
            && !(Counts(es[i], s) && !Alive(es[i], s.clock(es[i])) && !s.hasOverlap)
  {
    assert es[0..] == es && Versions(es, 0, [], s) == {};
    RetainKnows(es, 0, Fresh(), s, i);
  }

  /** Up to `i`, all entries of its user key are live plain versions at or below the discard timestamp. */
  ghost predicate Plain(es: seq<Entry>, i: nat, s: Setting)
    requires i < |es|
  {
    forall j :: 0 <= j <= i && es[j].at.key == es[i].at.key ==>
      Counts(es[j], s) && Alive(es[j], s.clock(es[j])) && !es[j].discardEarlier
  }

  /** A plain version ends its key if and only if it is the last one to keep. */
  lemma PlainEnds(es: seq<Entry>, i: nat, s: Setting, j: nat)
    requires i < |es| && Plain(es, i, s) && j < i && es[j].at.key == es[i].at.key
    ensures EndsKey(es, j, s) <==> |Versions(es, j + 1, es[i].at.key, s)| == s.keepVersions
    ensures 0 < |Versions(es, j + 1, es[i].at.key, s)| <= |Versions(es, i, es[i].at.key, s)|
  {
    VersionsNext(es, j, es[i].at.key, s);
    VersionsGrow(es, j + 1, i, es[i].at.key, s);
  }

  lemma PlainEndedIff(es: seq<Entry>, i: nat, s: Setting)
    requires i < |es| && Plain(es, i, s)
    ensures (exists j :: 0 <= j < i && es[j].at.key == es[i].at.key && EndsKey(es, j, s))
        <==> 0 < s.keepVersions <= |Versions(es, i, es[i].at.key, s)|
  {
    var key := es[i].at.key;
    if j :| 0 <= j < i && es[j].at.key == key && EndsKey(es, j, s) {
      PlainEnds(es, i, s, j);
    }
    if 0 < s.keepVersions <= |Versions(es, i, key, s)| {
      var j := VersionAt(es, i, key, s, s.keepVersions);
      PlainEnds(es, i, s, j);
    }
  }

  /** Of live plain versions of a user key at or below the discard timestamp, the newest `keepVersions` are kept; a
      limit of 0 is no limit. */
  lemma LimitIsKept(es: seq<Entry>, s: Setting, i: nat)
    requires Sorted(es) && i < |es| && Plain(es, i, s)
    ensures es[i] in Retain(es, Fresh(), s) <==>
            s.keepVersions == 0 || |set j | 0 <= j < i && es[j].at.key == es[i].at.key| < s.keepVersions
  {
    assert (set j | 0 <= j < i && es[j].at.key == es[i].at.key) == Versions(es, i, es[i].at.key, s);
    RetainedIff(es, s, i);
    PlainEndedIff(es, i, s);
  }

  lemma {:induction false} VersionsGrow(es: seq<Entry>, m: nat, n: nat, key: Bytes, s: Setting)
    requires m <= n <= |es|
    ensures |Versions(es, m, key, s)| <= |Versions(es, n, key, s)|
  {
    if m < n {
      VersionsGrow(es, m, n - 1, key, s);
      VersionsNext(es, n - 1, key, s);
    }
  }

  /** The entry that is the `k`-th version. */
  lemma {:induction false} VersionAt(es: seq<Entry>, n: nat, key: Bytes, s: Setting, k: nat) returns (j: nat)
    requires n <= |es| && 0 < k <= |Versions(es, n, key, s)|
    ensures j < n && es[j].at.key == key && Counts(es[j], s) && |Versions(es, j + 1, key, s)| == k
  {
    assert Versions(es, 0, key, s) == {};
    VersionsNext(es, n - 1, key, s);
    if k <= |Versions(es, n - 1, key, s)| {
      j := VersionAt(es, n - 1, key, s, k);
    } else {
      j := n - 1;
    }
  }

  // ---------- what a reader sees ----------

  /** A reader sees exactly the newest version at or below its timestamp, if that is neither deleted nor expired. */
  lemma VisibleIff(es: seq<Entry>, key: Bytes, ts: nat, now: nat, e: Entry)
    requires forall f, g :: f in es && g in es && f.at == g.at ==> f == g
    ensures Visible(es, key, ts, now) == Some(e) <==> IsNewest(es, key, ts, e) && Alive(e, now)
  {
    NewestIsNewest(es, key, ts);
    var n := Newest(es, key, ts);
    if IsNewest(es, key, ts, e) {
      assert n.Some? && n.value.at == e.at;
    }
  }
}
