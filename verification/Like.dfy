/** The two matchers of LIKE patterns, in the cache (src/cache/latest_cache.cpp) and in the snapshot
    store (src/snapshot/snapshot_store.cpp), against what a pattern means: '%' stands for any string,
    '_' for any character, everything else for itself. */
module Like {
  predicate Stands(q: char, c: char) {
    q == '_' || q == c
  }

  predicate Like(t: string, p: string)
    decreases |p|
  {
    if p == [] then t == []
    else if p[0] == '%' then exists k :: 0 <= k <= |t| && Like(t[k..], p[1..])
    else t != [] && Stands(p[0], t[0]) && Like(t[1..], p[1..])
  }

  /** A pattern of letters stands for itself, and the two signs for one character and for any string. */
  lemma {:induction false} LikeItself(t: string, p: string)
    requires '%' !in p && '_' !in p
    ensures Like(t, p) <==> t == p
    decreases |p|
  {
    if p != "" {
      assert p == [p[0]] + p[1..];
      if t != "" {
        assert t == [t[0]] + t[1..];
        LikeItself(t[1..], p[1..]);
      }
    }
  }

  lemma LikeNothing(t: string)
    ensures Like(t, "") <==> t == ""
  {
  }

  lemma LikeNext(t: string, p: string)
    requires p != "" && p[0] != '%'
    ensures Like(t, p) <==> t != "" && Stands(p[0], t[0]) && Like(t[1..], p[1..])
  {
  }

  lemma LikeSigns(t: string)
    ensures Like(t, "_") <==> |t| == 1
    ensures Like(t, "%")
  {
    hide Like;
    var one, all := "_", "%";
    assert one[1..] == "" && all[1..] == "";
    LikeNext(t, one);
    if t != "" {
      LikeNothing(t[1..]);
    }
    LikeNothing(t[|t|..]);
    LikeFrom(t, |t|, all);
  }

  /** A pattern cut in two lets through what can be cut into a string for each part. */
  lemma {:induction false} LikeConcat(t: string, p: string, q: string)
    ensures Like(t, p + q) <==> exists k :: 0 <= k <= |t| && Like(t[..k], p) && Like(t[k..], q)
    decreases |p|
  {
    if p == "" {
      assert p + q == q && t[0..] == t && t[..0] == "";
    } else {
      assert (p + q)[0] == p[0] && (p + q)[1..] == p[1..] + q;
      if p[0] == '%' {
        if Like(t, p + q) {
          var i :| 0 <= i <= |t| && Like(t[i..], (p + q)[1..]);
          LikeConcat(t[i..], p[1..], q);
          var k :| 0 <= k <= |t[i..]| && Like(t[i..][..k], p[1..]) && Like(t[i..][k..], q);
          assert t[..i + k][i..] == t[i..][..k] && t[i + k..] == t[i..][k..];
          LikeFrom(t[..i + k], i, p);
        }
        if k :| 0 <= k <= |t| && Like(t[..k], p) && Like(t[k..], q) {
          var i :| 0 <= i <= |t[..k]| && Like(t[..k][i..], p[1..]);
          assert t[i..][..k - i] == t[..k][i..] && t[i..][k - i..] == t[k..];
          LikeConcat(t[i..], p[1..], q);
          LikeFrom(t, i, p + q);
        }
      } else if t != "" {
        LikeConcat(t[1..], p[1..], q);
        if Like(t, p + q) {
          var k :| 0 <= k <= |t[1..]| && Like(t[1..][..k], p[1..]) && Like(t[1..][k..], q);
          assert t[..k + 1][1..] == t[1..][..k] && t[k + 1..] == t[1..][k..];
        }
        if k :| 0 <= k <= |t| && Like(t[..k], p) && Like(t[k..], q) {
          assert t[1..][..k - 1] == t[..k][1..] && t[1..][k - 1..] == t[k..];
        }
      }
    }
  }

  lemma LikeFrom(t: string, k: nat, p: string)
    requires k <= |t| && p != [] && p[0] == '%' && Like(t[k..], p[1..])
    ensures Like(t, p)
  {
  }

  /** What a percent sign lets through of a part, it lets through of the whole. */
  lemma LikeLonger(t: string, k: nat, p: string)
    requires k <= |t| && p != [] && p[0] == '%' && Like(t[k..], p)
    ensures Like(t, p)
  {
  }

  /** The shortest strings a pattern lets through. */
  function Instance(p: string): (t: string)
    ensures forall i :: 0 <= i < |t| ==> t[i] != '%' && t[i] != '_'
    ensures p != [] && p[0] != '%' ==> t != []
  {
    if p == [] then []
    else if p[0] == '%' then Instance(p[1..])
    else [if p[0] == '_' then 'x' else p[0]] + Instance(p[1..])
  }

  lemma {:induction false} InstanceLike(p: string)
    ensures Like(Instance(p), p)
    decreases |p|
  {
    if p != [] {
      InstanceLike(p[1..]);
      if p[0] == '%' {
        assert Instance(p)[0..] == Instance(p);
        LikeFrom(Instance(p), 0, p);
      } else {
        assert Instance(p)[1..] == Instance(p[1..]);
      }
    }
  }

  lemma {:induction false} NoShorter(t: string, p: string)
    requires Like(t, p)
    ensures |t| >= |Instance(p)|
    decreases |p|
  {
    if p != [] {
      if p[0] == '%' {
        var k :| 0 <= k <= |t| && Like(t[k..], p[1..]);
        NoShorter(t[k..], p[1..]);
      } else {
        NoShorter(t[1..], p[1..]);
      }
    }
  }

  // ---- the cache's matcher ----

  predicate CacheMatches(t: string, p: string)
    decreases |p|
  {
    if t == [] || p == [] then t == [] && p == []
    else if p[0] == '%' then |p| == 1 || exists k :: 0 <= k < |t| && CacheMatches(t[k..], p[1..])
    else Stands(p[0], t[0]) && CacheMatches(t[1..], p[1..])
  }

  predicate EndsInPercent(p: string) {
    p != [] && p[|p| - 1] == '%'
  }

  /** A percent sign at the end asks for at least one character. */
  function Required(p: string): string {
    if EndsInPercent(p) then p[..|p| - 1] + "_%" else p
  }

  method MatchInCache(tag: string, pattern: string) returns (r: bool)
    ensures r <==> Like(tag, Required(pattern))
    decreases |pattern|
  {
    CacheMatchesLike(tag, pattern);
    r := CacheMatch(tag, pattern);
  }

  /** LatestCache::MatchPattern */
  method CacheMatch(tag: string, pattern: string) returns (r: bool)
    ensures r == CacheMatches(tag, pattern)
    decreases |pattern|
  {
    var ti, pi := 0, 0;
    assert tag[0..] == tag && pattern[0..] == pattern;
    while ti < |tag| && pi < |pattern|
      invariant 0 <= ti <= |tag| && 0 <= pi <= |pattern|
      invariant CacheMatches(tag, pattern) == CacheMatches(tag[ti..], pattern[pi..])
      decreases |pattern| - pi
    {
      assert tag[ti..][1..] == tag[ti + 1..] && pattern[pi..][1..] == pattern[pi + 1..];
      if pattern[pi] == '%' {
        pi := pi + 1;
        if pi >= |pattern| { return true; }
        ghost var from := ti;
        assert forall k :: 0 <= k < |tag| - from ==> tag[from..][k..] == tag[from + k..];
        while ti < |tag|
          invariant from <= ti <= |tag|
          invariant forall k :: from <= k < ti ==> !CacheMatches(tag[k..], pattern[pi..])
        {
          var found := CacheMatch(tag[ti..], pattern[pi..]);
          if found {
            assert CacheMatches(tag[from..][ti - from..], pattern[pi..]);
            return true;
          }
          ti := ti + 1;
        }
        return false;
      } else if pattern[pi] == '_' {
        pi, ti := pi + 1, ti + 1;
      } else if pattern[pi] == tag[ti] {
        pi, ti := pi + 1, ti + 1;
      } else {
        return false;
      }
    }
    r := ti >= |tag| && pi >= |pattern|;
  }

  /** The cache's matcher implements LIKE for the pattern it requires. */
  lemma {:induction false} CacheMatchesLike(t: string, p: string)
    ensures CacheMatches(t, p) <==> Like(t, Required(p))
    decreases |p|
  {
    if p == [] {
    } else if p == "%" {
      assert Required(p) == "_%" && "_%"[1..] == "%" && "%"[1..] == [];
      if t != [] {
        assert t[1..][|t| - 1..] == [];
        LikeFrom(t[1..], |t| - 1, "%");
      }
    } else {
      assert Required(p) == [p[0]] + Required(p[1..]);
      assert Required(p)[1..] == Required(p[1..]);
      if p[0] == '%' {
        forall k | 0 <= k <= |t|
          ensures CacheMatches(t[k..], p[1..]) <==> Like(t[k..], Required(p[1..]))
        {
          CacheMatchesLike(t[k..], p[1..]);
        }
        assert !CacheMatches(t[|t|..], p[1..]);
      } else if t != [] {
        CacheMatchesLike(t[1..], p[1..]);
      }
    }
  }

  /** It is exact on every tag precisely for the patterns that do not end in a percent sign. */
  lemma CacheExactIff(p: string)
    ensures (forall t :: CacheMatches(t, p) <==> Like(t, p)) <==> !EndsInPercent(p)
  {
    forall t
      ensures CacheMatches(t, p) <==> Like(t, Required(p))
    {
      CacheMatchesLike(t, p);
    }
    if EndsInPercent(p) {
      var t, q := Instance(p), p[..|p| - 1];
      InstanceLike(p);
      assert p == q + "%";
      InstanceConcat(q, "%");
      InstanceConcat(q, "_%");
      assert Instance("_%") == "x" && Instance("%") == "";
      if Like(t, q + "_%") {
        NoShorter(t, q + "_%");
        assert false;
      }
      assert Like(t, p) && !CacheMatches(t, p);
    }
  }

  lemma {:induction false} InstanceConcat(a: string, b: string)
    ensures Instance(a + b) == Instance(a) + Instance(b)
    decreases |a|
  {
    if a == [] {
      assert a + b == b;
    } else {
      assert (a + b)[1..] == a[1..] + b;
      InstanceConcat(a[1..], b);
    }
  }

  // ---- the snapshot store's matcher ----

  predicate AllPercent(p: string) {
    forall i :: 0 <= i < |p| ==> p[i] == '%'
  }

  /** Where c first occurs in t, or the end. */
  function IndexOf(t: string, c: char): (k: nat)
    ensures k <= |t| && (k < |t| ==> t[k] == c)
    ensures forall i :: 0 <= i < k ==> t[i] != c
  {
    if t == [] || t[0] == c then 0 else 1 + IndexOf(t[1..], c)
  }

  /** Behind a percent sign it goes to the first occurrence of the next character of the pattern, even
      if that is another wildcard, and never comes back. */
  predicate SnapshotMatches(t: string, p: string)
    decreases |p|
  {
    if t == [] || p == [] then t == [] && AllPercent(p)
    else if p[0] != '%' then Stands(p[0], t[0]) && SnapshotMatches(t[1..], p[1..])
    else if |p| == 1 then true
    else
      var k := IndexOf(t, p[1]);
      k < |t| && SnapshotMatches(t[k..], p[1..])
  }

  /** SnapshotStore::MatchPattern */
  method MatchInSnapshot(tag: string, pattern: string) returns (r: bool)
    ensures r == SnapshotMatches(tag, pattern)
  {
    var pi, ti := 0, 0;
    assert tag[0..] == tag && pattern[0..] == pattern;
    while pi < |pattern| && ti < |tag|
      invariant 0 <= ti <= |tag| && 0 <= pi <= |pattern|
      invariant SnapshotMatches(tag, pattern) == SnapshotMatches(tag[ti..], pattern[pi..])
      decreases |pattern| - pi
    {
      assert tag[ti..][1..] == tag[ti + 1..] && pattern[pi..][1..] == pattern[pi + 1..];
      if pattern[pi] == '%' {
        pi := pi + 1;
        if pi == |pattern| { return true; }
        ghost var k := IndexOf(tag[ti..], pattern[pi]);
        ghost var from := ti;
        while ti < |tag| && tag[ti] != pattern[pi]
          invariant from <= ti <= from + k
        {
          assert tag[from..][ti - from] == tag[ti];
          ti := ti + 1;
        }
        assert ti < |tag| ==> tag[from..][ti - from] == tag[ti];
        assert tag[from..][k..] == tag[from + k..];
        if ti >= |tag| { return false; }
      } else if pattern[pi] == '_' {
        pi, ti := pi + 1, ti + 1;
      } else if pattern[pi] == tag[ti] {
        pi, ti := pi + 1, ti + 1;
      } else {
        return false;
      }
    }
    ghost var rest := pattern[pi..];
    while pi < |pattern| && pattern[pi] == '%'
      invariant pi <= |pattern| && |pattern| - |rest| <= pi
      invariant forall i :: 0 <= i < pi - (|pattern| - |rest|) ==> rest[i] == '%'
    {
      pi := pi + 1;
    }
    r := pi == |pattern| && ti == |tag|;
  }

  lemma {:induction false} AllPercentLike(p: string)
    requires AllPercent(p)
    ensures Like("", p)
    decreases |p|
  {
    if p != [] {
      AllPercentLike(p[1..]);
      assert ""[0..] == "";
      LikeFrom("", 0, p);
    }
  }

  /** It never accepts what LIKE rejects. */
  lemma {:induction false} SnapshotSound(t: string, p: string)
    requires SnapshotMatches(t, p)
    ensures Like(t, p)
    decreases |p|
  {
    if t == [] {
      AllPercentLike(p);
    } else if p != [] {
      if p[0] != '%' {
        SnapshotSound(t[1..], p[1..]);
      } else if |p| == 1 {
        assert t[|t|..] == [];
        LikeFrom(t, |t|, p);
      } else {
        var k := IndexOf(t, p[1]);
        SnapshotSound(t[k..], p[1..]);
        LikeFrom(t, k, p);
      }
    }
  }

  // ---- the patterns it decides exactly ----

  /** No percent sign, or behind every one nothing more, or a plain character, any underscores and the
      next percent sign. */
  predicate Exactable(p: string) {
    p == [] || if p[0] == '%' then Segments(p[1..]) else Exactable(p[1..])
  }

  predicate Segments(w: string)
    decreases |w|
  {
    w == [] || (w[0] != '%' && w[0] != '_' && ToPercent(w[1..]))
  }

  predicate ToPercent(v: string)
    decreases |v|
  {
    v != [] && if v[0] == '_' then ToPercent(v[1..]) else v[0] == '%' && Segments(v[1..])
  }

  lemma {:induction false} ExactableComplete(t: string, p: string)
    requires Exactable(p) && Like(t, p)
    ensures SnapshotMatches(t, p)
    decreases |p|
  {
    if p == [] {
    } else if p[0] != '%' {
      ExactableComplete(t[1..], p[1..]);
    } else {
      SegmentsComplete(t, p);
    }
  }

  /** What a pattern of segments lets through starts with its first character at the first place it
      occurs, or at any later one. */
  lemma {:induction false} SegmentsComplete(t: string, p: string)
    requires p != [] && p[0] == '%' && Segments(p[1..]) && Like(t, p)
    ensures SnapshotMatches(t, p)
    decreases |p|, 0
  {
    if |p| > 1 {
      var w := p[1..];
      var j :| 0 <= j <= |t| && Like(t[j..], w);
      assert w[0] == p[1] && t[j] == p[1];
      var k := IndexOf(t, p[1]);
      assert k <= j;
      assert t[j..][1..] == t[j + 1..] && t[k..][1..] == t[k + 1..];
      assert t[k + 1..][j - k..] == t[j + 1..];
      SegmentComplete(t[k + 1..], j - k, w[1..]);
    }
  }

  lemma {:induction false} SegmentComplete(t: string, k: nat, v: string)
    requires k <= |t| && ToPercent(v) && Like(t[k..], v)
    ensures SnapshotMatches(t, v)
    decreases |v|, 1
  {
    if v[0] == '_' {
      assert t[k..][1..] == t[1..][k..];
      SegmentComplete(t[1..], k, v[1..]);
    } else {
      LikeLonger(t, k, v);
      SegmentsComplete(t, v);
    }
  }

  /** A tag that LIKE accepts and the matcher rejects. */
  function Missed(p: string): string
    requires !Exactable(p)
  {
    if p[0] == '%' then MissedBehind(p[1..])
    else [if p[0] == '_' then 'x' else p[0]] + Missed(p[1..])
  }

  /** One for the pattern with a percent sign before w. */
  function MissedBehind(w: string): string
    requires !Segments(w)
    decreases |w|, 1
  {
    if w[0] == '%' then "x" + Instance(w)
    else if w[0] == '_' then Instance(w)
    else [w[0]] + MissedAfter(w, w[1..])
  }

  /** What follows the first character of w, up to the end or a character of w that differs. */
  function MissedAfter(w: string, v: string): string
    requires !ToPercent(v)
    decreases |v|, 0
  {
    if v == [] then Instance(w)
    else if v[0] == '_' then "x" + MissedAfter(w, v[1..])
    else if v[0] == '%' then MissedBehind(v[1..])
    else [if v[0] == 'x' then 'y' else 'x'] + Instance(w)
  }

  lemma {:induction false} MissedIsMissed(p: string)
    requires !Exactable(p)
    ensures Like(Missed(p), p) && !SnapshotMatches(Missed(p), p)
    decreases |p|
  {
    if p[0] == '%' {
      MissedBehindIsMissed(p);
    } else {
      MissedIsMissed(p[1..]);
      assert Missed(p)[1..] == Missed(p[1..]);
    }
  }

  lemma {:induction false} MissedBehindIsMissed(p: string)
    requires p != [] && p[0] == '%' && !Segments(p[1..])
    ensures Like(MissedBehind(p[1..]), p) && !SnapshotMatches(MissedBehind(p[1..]), p)
    decreases |p|, 0
  {
    var w := p[1..];
    var t := MissedBehind(w);
    InstanceLike(w);
    if w[0] == '%' {
      assert t[1..] == Instance(w);
      LikeFrom(t, 1, p);
    } else if w[0] == '_' {
      assert t[0..] == Instance(w);
      LikeFrom(t, 0, p);
    } else {
      MissedAfterIsMissed(w, w[1..]);
      var rest := MissedAfter(w, w[1..]);
      assert t[1..] == rest && t[0..] == t && IndexOf(t, w[0]) == 0;
      if Like(rest, w[1..]) {
        LikeFrom(t, 0, p);
      } else {
        var k :| 0 <= k <= |rest| && Like(rest[k..], w);
        assert t[k + 1..] == rest[k..];
        LikeFrom(t, k + 1, p);
      }
    }
  }

  lemma {:induction false} MissedAfterIsMissed(w: string, v: string)
    requires w != [] && w[0] != '%' && !ToPercent(v)
    ensures var t := MissedAfter(w, v);
      !SnapshotMatches(t, v) && (Like(t, v) || exists k :: 0 <= k <= |t| && Like(t[k..], w))
    decreases |v|, 1
  {
    var t := MissedAfter(w, v);
    InstanceLike(w);
    if v == [] {
      assert t[0..] == Instance(w);
    } else if v[0] == '_' {
      MissedAfterIsMissed(w, v[1..]);
      var rest := MissedAfter(w, v[1..]);
      assert t[1..] == rest;
      if !Like(rest, v[1..]) {
        var k :| 0 <= k <= |rest| && Like(rest[k..], w);
        assert t[k + 1..] == rest[k..];
      }
    } else if v[0] == '%' {
      MissedBehindIsMissed(v);
    } else {
      assert t[1..] == Instance(w);
    }
  }

  /** It is exact on every tag precisely for the patterns of that form. */
  lemma SnapshotExactIff(p: string)
    ensures (forall t :: SnapshotMatches(t, p) <==> Like(t, p)) <==> Exactable(p)
  {
    if Exactable(p) {
      forall t
        ensures SnapshotMatches(t, p) <==> Like(t, p)
      {
        if Like(t, p) {
          ExactableComplete(t, p);
        }
        if SnapshotMatches(t, p) {
          SnapshotSound(t, p);
        }
      }
    } else {
      MissedIsMissed(p);
    }
  }

  /** Among them are the patterns whose only percent sign is the last character. */
  lemma {:induction false} PrefixExactable(p: string)
    requires forall i :: 0 <= i < |p| - 1 ==> p[i] != '%'
    ensures Exactable(p)
    decreases |p|
  {
    if |p| > 1 {
      PrefixExactable(p[1..]);
    }
  }
}
