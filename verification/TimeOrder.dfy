/** Putting points into time order and dropping the repeats, as every reader of more than one file
    does (src/storage/engine.cpp, src/storage/compaction.cpp). */
module TimeOrder {
  import opened BlockCodec

  predicate SortedBy<T>(s: seq<T>, key: T -> int) {
    forall i, j :: 0 <= i < j < |s| ==> key(s[i]) <= key(s[j])
  }

  /** std::sort: it promises order and the same elements, not which of two equal keys comes first. */
  method Sort<T>(s: seq<T>, key: T -> int) returns (r: seq<T>)
    ensures SortedBy(r, key) && multiset(r) == multiset(s)
  {
    r := [];
    for i := 0 to |s|
      invariant SortedBy(r, key) && multiset(r) == multiset(s[..i])
    {
      assert s[..i + 1] == s[..i] + [s[i]];
      r := Insert(r, s[i], key);
    }
    assert s[..|s|] == s;
  }

  method Insert<T>(s: seq<T>, x: T, key: T -> int) returns (r: seq<T>)
    requires SortedBy(s, key)
    ensures SortedBy(r, key) && multiset(r) == multiset(s) + multiset{x}
  {
    hide SortedBy;
    var k := |s|;
    while k > 0 && key(s[k - 1]) > key(x)
      invariant 0 <= k <= |s|
      invariant forall j :: k <= j < |s| ==> key(x) < key(s[j])
    {
      k := k - 1;
    }
    assert s == s[..k] + s[k..];
    Inserted(s[..k], x, s[k..], key);
    r := s[..k] + [x] + s[k..];
  }

  lemma Inserted<T>(a: seq<T>, x: T, c: seq<T>, key: T -> int)
    requires SortedBy(a + c, key)
    requires a != [] ==> key(a[|a| - 1]) <= key(x)
    requires forall j :: 0 <= j < |c| ==> key(x) < key(c[j])
    ensures SortedBy(a + [x] + c, key)
  {
    hide SortedBy;
    SortedParts(a, c, key);
    SortedOne(x, key);
    if a != [] {
      SortedLast(a, key);
    }
    SortedConcat(a, [x], key);
    assert forall i :: 0 <= i < |a + [x]| ==> key((a + [x])[i]) <= key(x);
    SortedConcat(a + [x], c, key);
  }

  lemma SortedParts<T>(a: seq<T>, b: seq<T>, key: T -> int)
    requires SortedBy(a + b, key)
    ensures SortedBy(a, key) && SortedBy(b, key)
    ensures forall i, j :: 0 <= i < |a| && 0 <= j < |b| ==> key(a[i]) <= key(b[j])
  {
    var s := a + b;
    assert forall i :: 0 <= i < |a| ==> s[i] == a[i];
    assert forall j :: 0 <= j < |b| ==> s[|a| + j] == b[j];
  }

  lemma SortedOne<T>(x: T, key: T -> int)
    ensures SortedBy([x], key)
  {
  }

  lemma SortedLast<T>(s: seq<T>, key: T -> int)
    requires SortedBy(s, key) && s != []
    ensures forall i :: 0 <= i < |s| ==> key(s[i]) <= key(s[|s| - 1])
  {
  }

  lemma SortedConcat<T>(a: seq<T>, b: seq<T>, key: T -> int)
    requires SortedBy(a, key) && SortedBy(b, key)
    requires forall i, j :: 0 <= i < |a| && 0 <= j < |b| ==> key(a[i]) <= key(b[j])
    ensures SortedBy(a + b, key)
  {
  }

  function TimeOf(p: DataPoint): int { p.ts }

  ghost predicate Increasing(s: seq<DataPoint>) {
    forall i, j :: 0 <= i < j < |s| ==> s[i].ts < s[j].ts
  }

  function PointSet(s: seq<DataPoint>): set<DataPoint> {
    set p | p in s
  }

  function TimesOf(points: set<DataPoint>): set<int> {
    set p | p in points :: p.ts
  }

  /** Points of the same time are the same point. */
  ghost predicate Agree(points: set<DataPoint>) {
    forall p, q :: p in points && q in points && p.ts == q.ts ==> p == q
  }

  /** The first point of every run of equal times. */
  function Unique(s: seq<DataPoint>): seq<DataPoint> {
    if |s| <= 1 then s
    else if s[|s| - 1].ts == s[|s| - 2].ts then Unique(s[..|s| - 1])
    else Unique(s[..|s| - 1]) + [s[|s| - 1]]
  }

  /** std::unique followed by erase. */
  method RemoveRepeats(s: seq<DataPoint>) returns (r: seq<DataPoint>)
    ensures r == Unique(s)
  {
    r := [];
    for i := 0 to |s|
      invariant r == Unique(s[..i])
      invariant (r == [] <==> i == 0) && (i > 0 ==> r[|r| - 1].ts == s[i - 1].ts)
    {
      assert s[..i + 1][..i] == s[..i];
      if i == 0 || r[|r| - 1].ts != s[i].ts {
        r := r + [s[i]];
      }
    }
    assert s[..|s|] == s;
  }

  /** Dropping repeats from sorted points keeps every time once, and every kept point was there. */
  lemma {:induction false} UniqueKeepsTimes(s: seq<DataPoint>)
    requires SortedBy(s, TimeOf)
    ensures Increasing(Unique(s))
    ensures PointSet(Unique(s)) <= PointSet(s)
    ensures TimesOf(PointSet(Unique(s))) == TimesOf(PointSet(s))
    ensures s != [] ==> Unique(s) != [] && Unique(s)[|Unique(s)| - 1].ts == s[|s| - 1].ts
    decreases |s|
  {
    hide PointSet, TimesOf, SortedBy, Increasing, Unique;
    if |s| <= 1 {
      UniqueShort(s);
    } else {
      var front, last := s[..|s| - 1], s[|s| - 1];
      SortedFront(s);
      UniqueKeepsTimes(front);
      assert s == front + [last];
      UniqueSnoc(front, last);
      SetSnoc(front, last);
      SetSnoc(Unique(front), last);
      assert front[|front| - 1] == s[|s| - 2];
      if last.ts == s[|s| - 2].ts {
        TimeHeld(front, |front| - 1);
      } else {
        IncreasingSnoc(Unique(front), last);
      }
    }
  }

  lemma UniqueShort(s: seq<DataPoint>)
    requires |s| <= 1
    ensures Unique(s) == s && Increasing(s)
  {
  }

  lemma UniqueSnoc(front: seq<DataPoint>, last: DataPoint)
    requires front != []
    ensures Unique(front + [last])
         == if last.ts == front[|front| - 1].ts then Unique(front) else Unique(front) + [last]
  {
    assert (front + [last])[..|front|] == front;
  }

  lemma IncreasingSnoc(s: seq<DataPoint>, p: DataPoint)
    requires Increasing(s) && (s != [] ==> s[|s| - 1].ts < p.ts)
    ensures Increasing(s + [p])
  {
  }

  lemma SetSnoc(s: seq<DataPoint>, p: DataPoint)
    ensures PointSet(s + [p]) == PointSet(s) + {p}
    ensures TimesOf(PointSet(s + [p])) == TimesOf(PointSet(s)) + {p.ts}
  {
  }

  lemma TimeHeld(s: seq<DataPoint>, i: nat)
    requires i < |s|
    ensures s[i].ts in TimesOf(PointSet(s))
  {
    assert s[i] in PointSet(s);
  }

  lemma SortedFront(s: seq<DataPoint>)
    requires SortedBy(s, TimeOf) && |s| > 1
    ensures SortedBy(s[..|s| - 1], TimeOf) && s[|s| - 2].ts <= s[|s| - 1].ts
  {
    assert TimeOf(s[|s| - 2]) <= TimeOf(s[|s| - 1]);
  }

  /** With agreeing points nothing but repeats is dropped. */
  lemma UniqueKeepsPoints(s: seq<DataPoint>)
    requires SortedBy(s, TimeOf) && Agree(PointSet(s))
    ensures PointSet(Unique(s)) == PointSet(s)
  {
    UniqueKeepsTimes(s);
    forall p | p in PointSet(s)
      ensures p in PointSet(Unique(s))
    {
      assert p.ts in TimesOf(PointSet(s));
      var q :| q in PointSet(Unique(s)) && q.ts == p.ts;
    }
  }

  /** A strictly increasing list is determined by its set of points. */
  lemma {:induction false} IncreasingDetermined(a: seq<DataPoint>, b: seq<DataPoint>)
    requires Increasing(a) && Increasing(b) && PointSet(a) == PointSet(b)
    ensures a == b
    decreases |a|
  {
    assert a != [] ==> a[0] in PointSet(a);
    assert b != [] ==> b[0] in PointSet(b);
    if a != [] && b != [] {
      var x, y := a[|a| - 1], b[|b| - 1];
      assert x in PointSet(a) && y in PointSet(b);
      var i :| 0 <= i < |b| && b[i] == x;
      var j :| 0 <= j < |a| && a[j] == y;
      assert x == y;
      hide PointSet, Increasing;
      FrontSet(a);
      FrontSet(b);
      IncreasingFront(a);
      IncreasingFront(b);
      IncreasingDetermined(a[..|a| - 1], b[..|b| - 1]);
      assert a == a[..|a| - 1] + [x] && b == b[..|b| - 1] + [x];
    }
  }

  lemma IncreasingFront(a: seq<DataPoint>)
    requires Increasing(a) && a != []
    ensures Increasing(a[..|a| - 1])
  {
  }

  lemma FrontSet(a: seq<DataPoint>)
    requires Increasing(a) && a != []
    ensures PointSet(a[..|a| - 1]) == PointSet(a) - {a[|a| - 1]}
  {
  }

  lemma SamePoints(a: seq<DataPoint>, b: seq<DataPoint>)
    requires multiset(a) == multiset(b)
    ensures PointSet(a) == PointSet(b)
  {
    forall p
      ensures p in a <==> p in b
    {
      assert p in multiset(a) <==> p in multiset(b);
    }
  }

  /** What sorting points by time and dropping the repeats may make of them: which of several points
      of one time stays is not promised. */
  ghost predicate Condenses(r: seq<DataPoint>, points: set<DataPoint>) {
    && Increasing(r)
    && PointSet(r) <= points
    && TimesOf(PointSet(r)) == TimesOf(points)
    && (Agree(points) ==> PointSet(r) == points)
  }

  method SortUnique(points: seq<DataPoint>) returns (r: seq<DataPoint>)
    ensures Condenses(r, PointSet(points)) && (points != [] ==> r != [])
  {
    var sorted := Sort(points, TimeOf);
    r := RemoveRepeats(sorted);
    SamePoints(sorted, points);
    UniqueKeepsTimes(sorted);
    if Agree(PointSet(points)) {
      UniqueKeepsPoints(sorted);
    }
    assert points != [] ==> points[0] in PointSet(sorted);
  }

  /** Where points of equal times are equal, the result depends on the set of points alone. */
  lemma CondensedOnce(a: seq<DataPoint>, b: seq<DataPoint>, points: set<DataPoint>)
    requires Agree(points) && Condenses(a, points) && Condenses(b, points)
    ensures a == b
  {
    IncreasingDetermined(a, b);
  }
}
