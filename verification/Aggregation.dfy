/** Aggregating the points of a read over buckets of time (src/storage/engine.cpp), and the variance
    made of an aggregate (src/sql/executor.cpp).

    Numbers are reals here: numberOf says which one a bit pattern stands for. */
module Aggregation {
  import opened Words
  import opened BlockCodec
  import opened TimeOrder
  import opened TagDirectory
  import opened MemTable
  import LatestCache
  import ReadPath
  import VC = ValueCodec

  // ---- buckets ----

  /** Integer division as the processor does it, towards zero. */
  function Truncated(a: int, b: int): int
    requires b > 0
  {
    if a >= 0 then a / b else -(-a / b)
  }

  function BucketOf(ts: int, bucketMs: int): int
    requires bucketMs > 0
  {
    Truncated(ts, bucketMs) * bucketMs
  }

  /** A point lies in the interval that starts at its bucket exactly when its time is not negative or
      is a multiple of the bucket's length. */
  lemma BucketIff(ts: int, bucketMs: int)
    requires bucketMs > 0
    ensures BucketOf(ts, bucketMs) <= ts < BucketOf(ts, bucketMs) + bucketMs <==> ts >= 0 || ts % bucketMs == 0
  {
    if ts < 0 {
      var q, r := -ts / bucketMs, -ts % bucketMs;
      assert -ts == q * bucketMs + r;
      assert BucketOf(ts, bucketMs) == -(q * bucketMs) by { Negated(q, bucketMs); }
      if r == 0 {
        assert ts == -q * bucketMs + 0 by { Negated(q, bucketMs); }
        RemainderUnique(ts, bucketMs, -q, 0);
      } else {
        assert ts == (-q - 1) * bucketMs + (bucketMs - r) by { Negated(q, bucketMs); Distributed(-q, bucketMs); }
        RemainderUnique(ts, bucketMs, -q - 1, bucketMs - r);
      }
    }
  }

  lemma Negated(a: int, b: int)
    ensures -a * b == -(a * b)
  {
  }

  lemma Distributed(a: int, b: int)
    ensures (a - 1) * b == a * b - b
  {
  }

  /** The bucket of a time that is not negative is the only multiple of the length it can lie in. */
  lemma BucketUnique(ts: int, bucketMs: int, k: int)
    requires bucketMs > 0 && ts >= 0
    ensures BucketOf(ts, bucketMs) == k * bucketMs <==> k * bucketMs <= ts < k * bucketMs + bucketMs
  {
    BucketIff(ts, bucketMs);
    if k * bucketMs <= ts < k * bucketMs + bucketMs {
      RemainderUnique(ts, bucketMs, k, ts - k * bucketMs);
    }
  }

  /** The points of one bucket, in their order. */
  function Members(points: seq<DataPoint>, bucket: int, bucketMs: int): (r: seq<DataPoint>)
    requires bucketMs > 0
  {
    if points == [] then []
    else
      var front, last := points[..|points| - 1], points[|points| - 1];
      Members(front, bucket, bucketMs) + if BucketOf(last.ts, bucketMs) == bucket then [last] else []
  }

  lemma MembersSnoc(points: seq<DataPoint>, p: DataPoint, bucket: int, bucketMs: int)
    requires bucketMs > 0
    ensures Members(points + [p], bucket, bucketMs)
         == Members(points, bucket, bucketMs) + if BucketOf(p.ts, bucketMs) == bucket then [p] else []
  {
    assert (points + [p])[..|points|] == points;
  }

  /** With times from 0 on, the points of a bucket are those in the interval it starts. */
  lemma {:induction false} MembersByInterval(points: seq<DataPoint>, k: int, bucketMs: int)
    requires bucketMs > 0 && forall p :: p in points ==> p.ts >= 0
    ensures forall p :: p in Members(points, k * bucketMs, bucketMs)
                   <==> p in points && k * bucketMs <= p.ts < k * bucketMs + bucketMs
    decreases |points|
  {
    if points != [] {
      hide BucketOf;
      var front, last := points[..|points| - 1], points[|points| - 1];
      assert points == front + [last];
      MembersByInterval(front, k, bucketMs);
      BucketUnique(last.ts, bucketMs, k);
    }
  }

  // ---- one aggregate ----

  datatype AggResult = AggResult(bucketTs: int, avg: real, max: real, min: real, sum: real, count: int,
                                 firstTs: int, firstVal: real, lastTs: int, lastVal: real, sumSq: real)

  const NOTHING := AggResult(0, 0.0, 0.0, 0.0, 0.0, 0, 0, 0.0, 0, 0.0, 0.0)

  function NumberOf(p: DataPoint, numberOf: uint64 -> real): real {
    if p.value.Double? then numberOf(p.value.bits) else 0.0
  }

  function Numbers(points: seq<DataPoint>, numberOf: uint64 -> real): (r: seq<real>)
    ensures |r| == |points|
  {
    seq(|points|, i requires 0 <= i < |points| => NumberOf(points[i], numberOf))
  }

  function Sum(xs: seq<real>): real {
    if xs == [] then 0.0 else Sum(xs[..|xs| - 1]) + xs[|xs| - 1]
  }

  function SumOfSquares(xs: seq<real>): real {
    if xs == [] then 0.0 else SumOfSquares(xs[..|xs| - 1]) + xs[|xs| - 1] * xs[|xs| - 1]
  }

  /** An aggregate of these points, its average not yet set. */
  ghost predicate Collects(r: AggResult, points: seq<DataPoint>, numberOf: uint64 -> real) {
    var xs := Numbers(points, numberOf);
    && points != []
    && r.count == |points|
    && r.sum == Sum(xs) && r.sumSq == SumOfSquares(xs)
    && r.firstTs == points[0].ts && r.firstVal == xs[0]
    && r.lastTs == points[|points| - 1].ts && r.lastVal == xs[|points| - 1]
    && r.max in xs && (forall x :: x in xs ==> x <= r.max)
    && r.min in xs && (forall x :: x in xs ==> r.min <= x)
  }

  ghost predicate Summarises(r: AggResult, points: seq<DataPoint>, numberOf: uint64 -> real) {
    Collects(r, points, numberOf) && r.avg == r.sum / |points| as real
  }

  /** The body of the loop over the points. */
  function Absorb(b: AggResult, bucketTs: int, ts: int, val: real): AggResult {
    var b1 := if b.count == 0 then b.(bucketTs := bucketTs, firstTs := ts, firstVal := val) else b;
    var b2 := b1.(count := b1.count + 1, sum := b1.sum + val, sumSq := b1.sumSq + val * val,
                  lastTs := ts, lastVal := val);
    var b3 := if b2.count == 1 || val > b2.max then b2.(max := val) else b2;
    if b3.count == 1 || val < b3.min then b3.(min := val) else b3
  }

  lemma AbsorbCollects(b: AggResult, points: seq<DataPoint>, p: DataPoint, bucketTs: int, numberOf: uint64 -> real)
    requires if points == [] then b == NOTHING else Collects(b, points, numberOf) && b.bucketTs == bucketTs
    ensures var r := Absorb(b, bucketTs, p.ts, NumberOf(p, numberOf));
      Collects(r, points + [p], numberOf) && r.bucketTs == bucketTs
  {
    var val := NumberOf(p, numberOf);
    var xs, ys := Numbers(points, numberOf), Numbers(points + [p], numberOf);
    assert ys == xs + [val];
    assert ys[..|xs|] == xs;
  }

  /** One aggregate for every bucket that holds a point, in the order of the buckets. */
  ghost predicate Aggregates(results: seq<AggResult>, points: seq<DataPoint>, bucketMs: int, numberOf: uint64 -> real)
    requires bucketMs > 0
  {
    && (forall i, j :: 0 <= i < j < |results| ==> results[i].bucketTs < results[j].bucketTs)
    && (forall r :: r in results ==> Summarises(r, Members(points, r.bucketTs, bucketMs), numberOf))
    && (forall p :: p in points ==> exists r :: r in results && r.bucketTs == BucketOf(p.ts, bucketMs))
  }

  /** The buckets after the first points of a read. */
  ghost predicate Grouped(buckets: map<int, AggResult>, points: seq<DataPoint>, bucketMs: int, numberOf: uint64 -> real)
    requires bucketMs > 0
  {
    && (forall b :: b in buckets <==> Members(points, b, bucketMs) != [])
    && (forall b :: b in buckets ==> Collects(buckets[b], Members(points, b, bucketMs), numberOf) && buckets[b].bucketTs == b)
  }

  method Aggregate(raw: seq<DataPoint>, bucketMs: int, numberOf: uint64 -> real) returns (results: seq<AggResult>)
    requires bucketMs > 0
    ensures Aggregates(results, raw, bucketMs, numberOf)
  {
    var buckets: map<int, AggResult> := map[];
    for i := 0 to |raw|
      invariant Grouped(buckets, raw[..i], bucketMs, numberOf)
    {
      hide Grouped;
      var p := raw[i];
      var bucketTs := BucketOf(p.ts, bucketMs);
      var b := if bucketTs in buckets then buckets[bucketTs] else NOTHING;
      assert raw[..i + 1] == raw[..i] + [p];
      GroupedNext(buckets, raw[..i], p, bucketMs, numberOf);
      buckets := buckets[bucketTs := Absorb(b, bucketTs, p.ts, NumberOf(p, numberOf))];
    }
    assert raw[..|raw|] == raw;
    results := Finish(buckets, raw, bucketMs, numberOf);
  }

  lemma GroupedNext(buckets: map<int, AggResult>, points: seq<DataPoint>, p: DataPoint, bucketMs: int,
                    numberOf: uint64 -> real)
    requires bucketMs > 0 && Grouped(buckets, points, bucketMs, numberOf)
    ensures var bucketTs := BucketOf(p.ts, bucketMs);
      var b := if bucketTs in buckets then buckets[bucketTs] else NOTHING;
      Grouped(buckets[bucketTs := Absorb(b, bucketTs, p.ts, NumberOf(p, numberOf))], points + [p], bucketMs, numberOf)
  {
    hide Collects, Absorb, Members, BucketOf;
    var bucketTs := BucketOf(p.ts, bucketMs);
    var b := if bucketTs in buckets then buckets[bucketTs] else NOTHING;
    AbsorbCollects(b, Members(points, bucketTs, bucketMs), p, bucketTs, numberOf);
    forall k
      ensures Members(points + [p], k, bucketMs)
           == if k == bucketTs then Members(points, k, bucketMs) + [p] else Members(points, k, bucketMs)
    {
      MembersSnoc(points, p, k, bucketMs);
    }
  }

  /** The averaged aggregates of exactly these buckets, each once. */
  ghost predicate ListsBuckets(results: seq<AggResult>, buckets: map<int, AggResult>, keys: set<int>) {
    && (forall k :: k in keys ==> k in buckets && Averaged(buckets[k]) in results)
    && (forall r :: r in results ==> r.bucketTs in keys && r.bucketTs in buckets && r == Averaged(buckets[r.bucketTs]))
    && (forall r :: r in results ==> multiset(results)[r] == 1)
  }

  /** Sets the averages and puts the buckets in order; the map yields them in any order. */
  method Finish(buckets: map<int, AggResult>, ghost points: seq<DataPoint>, bucketMs: int, numberOf: uint64 -> real)
    returns (results: seq<AggResult>)
    requires bucketMs > 0 && Grouped(buckets, points, bucketMs, numberOf)
    ensures Aggregates(results, points, bucketMs, numberOf)
  {
    hide Grouped, Aggregates, ListsBuckets;
    var unsorted: seq<AggResult>, keys: set<int> := [], buckets.Keys;
    ListedNone(buckets);
    assert buckets.Keys - keys == {};
    while keys != {}
      invariant keys <= buckets.Keys && ListsBuckets(unsorted, buckets, buckets.Keys - keys)
      decreases keys
    {
      Pickable(keys);
      var k :| k in keys;
      BucketHeld(buckets, points, bucketMs, numberOf, k);
      ListedNext(unsorted, buckets, buckets.Keys - keys, k);
      assert buckets.Keys - (keys - {k}) == buckets.Keys - keys + {k};
      unsorted, keys := unsorted + [Averaged(buckets[k])], keys - {k};
    }
    assert buckets.Keys - keys == buckets.Keys;
    results := Sort(unsorted, (r: AggResult) => r.bucketTs);
    Permuted(results, unsorted, buckets);
    Ordered(results, buckets, points, bucketMs, numberOf);
  }

  lemma Pickable(keys: set<int>)
    requires keys != {}
    ensures exists k :: k in keys
  {
    assert (forall k :: k !in keys) ==> keys == {};
  }

  lemma ListedNone(buckets: map<int, AggResult>)
    ensures ListsBuckets([], buckets, {})
  {
  }

  lemma BucketHeld(buckets: map<int, AggResult>, points: seq<DataPoint>, bucketMs: int, numberOf: uint64 -> real, k: int)
    requires bucketMs > 0 && Grouped(buckets, points, bucketMs, numberOf) && k in buckets
    ensures buckets[k].bucketTs == k && Summarises(Averaged(buckets[k]), Members(points, k, bucketMs), numberOf)
  {
  }

  lemma ListedNext(results: seq<AggResult>, buckets: map<int, AggResult>, keys: set<int>, k: int)
    requires ListsBuckets(results, buckets, keys) && k in buckets && k !in keys && buckets[k].bucketTs == k
    ensures ListsBuckets(results + [Averaged(buckets[k])], buckets, keys + {k})
  {
  }

  lemma Permuted(results: seq<AggResult>, unsorted: seq<AggResult>, buckets: map<int, AggResult>)
    requires multiset(results) == multiset(unsorted) && ListsBuckets(unsorted, buckets, buckets.Keys)
    ensures ListsBuckets(results, buckets, buckets.Keys)
  {
    forall r
      ensures r in results <==> r in unsorted
    {
      assert r in multiset(results) <==> r in multiset(unsorted);
    }
  }

  lemma Ordered(results: seq<AggResult>, buckets: map<int, AggResult>, points: seq<DataPoint>, bucketMs: int,
                numberOf: uint64 -> real)
    requires bucketMs > 0 && Grouped(buckets, points, bucketMs, numberOf)
    requires ListsBuckets(results, buckets, buckets.Keys) && SortedBy(results, (r: AggResult) => r.bucketTs)
    ensures Aggregates(results, points, bucketMs, numberOf)
  {
    var key := (r: AggResult) => r.bucketTs;
    forall i, j | 0 <= i < j < |results|
      ensures results[i].bucketTs < results[j].bucketTs
    {
      assert key(results[i]) <= key(results[j]);
      assert results[i] in results && results[j] in results;
      if results[i].bucketTs == results[j].bucketTs {
        Twice(results, i, j);
      }
    }
    forall r | r in results
      ensures Summarises(r, Members(points, r.bucketTs, bucketMs), numberOf)
    {
      BucketHeld(buckets, points, bucketMs, numberOf, r.bucketTs);
    }
    forall p | p in points
      ensures exists r :: r in results && r.bucketTs == BucketOf(p.ts, bucketMs)
    {
      var k := BucketOf(p.ts, bucketMs);
      InItsBucket(points, p, bucketMs);
      BucketHeld(buckets, points, bucketMs, numberOf, k);
      assert Averaged(buckets[k]) in results;
    }
  }

  lemma Twice<T>(s: seq<T>, i: nat, j: nat)
    requires i < j < |s| && s[i] == s[j]
    ensures multiset(s)[s[i]] >= 2
  {
    assert s == s[..j] + s[j..];
    assert s[i] in s[..j] && s[i] in s[j..];
  }

  lemma {:induction false} InItsBucket(points: seq<DataPoint>, p: DataPoint, bucketMs: int)
    requires bucketMs > 0 && p in points
    ensures p in Members(points, BucketOf(p.ts, bucketMs), bucketMs)
    decreases |points|
  {
    var front, last := points[..|points| - 1], points[|points| - 1];
    assert points == front + [last];
    if p in front {
      InItsBucket(front, p, bucketMs);
    }
  }

  /** Every aggregate in terms of the points themselves: a double counts as its number, an integer or a
      string as 0. */
  lemma OfItsPoints(results: seq<AggResult>, points: seq<DataPoint>, bucketMs: int, numberOf: uint64 -> real, r: AggResult)
    requires bucketMs > 0 && Aggregates(results, points, bucketMs, numberOf) && r in results
    ensures
      var ps := Members(points, r.bucketTs, bucketMs);
      && r.count == |ps| > 0 && r.avg * r.count as real == r.sum
      && (forall p :: p in ps ==> r.min <= (if p.value.Double? then numberOf(p.value.bits) else 0.0) <= r.max)
      && (exists p :: p in ps && r.min == if p.value.Double? then numberOf(p.value.bits) else 0.0)
      && (exists p :: p in ps && r.max == if p.value.Double? then numberOf(p.value.bits) else 0.0)
      && r.firstTs == ps[0].ts && r.lastTs == ps[|ps| - 1].ts
      && r.firstVal == (if ps[0].value.Double? then numberOf(ps[0].value.bits) else 0.0)
      && r.lastVal == (if ps[|ps| - 1].value.Double? then numberOf(ps[|ps| - 1].value.bits) else 0.0)
  {
    hide Members, Sum, SumOfSquares;
    var ps := Members(points, r.bucketTs, bucketMs);
    assert Summarises(r, ps, numberOf);
    var xs := Numbers(ps, numberOf);
    forall p | p in ps
      ensures r.min <= (if p.value.Double? then numberOf(p.value.bits) else 0.0) <= r.max
    {
      var i :| 0 <= i < |ps| && ps[i] == p;
      assert xs[i] in xs;
    }
    var i :| 0 <= i < |xs| && xs[i] == r.min;
    var j :| 0 <= j < |xs| && xs[j] == r.max;
    assert ps[i] in ps && ps[j] in ps;
  }

  /** One more double raises the sum by its number and the sum of squares by the square; any other
      value raises neither. */
  lemma OneMorePoint(before: AggResult, after: AggResult, points: seq<DataPoint>, p: DataPoint, numberOf: uint64 -> real)
    requires points != [] ==> Summarises(before, points, numberOf)
    requires Summarises(after, points + [p], numberOf)
    ensures
      var x := if p.value.Double? then numberOf(p.value.bits) else 0.0;
      && after.sum == (if points == [] then 0.0 else before.sum) + x
      && after.sumSq == (if points == [] then 0.0 else before.sumSq) + x * x
  {
    hide Summarises;
    if points != [] {
      CollectedSums(before, points, numberOf);
    }
    CollectedSums(after, points + [p], numberOf);
    var xs := Numbers(points, numberOf);
    var x := NumberOf(p, numberOf);
    assert Numbers(points + [p], numberOf) == xs + [x];
    SumsSnoc(xs, x, 0.0);
    NoSums(0.0);
  }

  function Averaged(b: AggResult): AggResult {
    if b.count > 0 then b.(avg := b.sum / b.count as real) else b
  }

  method ReadAggregated(cache: LatestCache.LatestCache, dir: Directory?, listing: seq<string>, tag: Tag,
                        range: TimeRange, bucketMs: int, numberOf: uint64 -> real)
    returns (results: seq<AggResult>)
    requires cache.Valid() && bucketMs > 0
    requires dir != null ==> Lists(listing, dir.files)
    ensures
      var cached := if tag == [] then None else cache.Cached(tag);
      var files := if dir == null then map[] else dir.files;
      exists raw :: Condenses(raw, ReadPath.Sources(cached, files, range)) && Aggregates(results, raw, bucketMs, numberOf)
  {
    var points := ReadPath.ReadRaw(cache, dir, listing, tag, range);
    results := [];
    if points != [] {
      results := Aggregate(points, bucketMs, numberOf);
    }
    assert Aggregates(results, points, bucketMs, numberOf);
  }

  // ---- every point is counted once ----

  function TotalCount(results: seq<AggResult>): int {
    if results == [] then 0 else TotalCount(results[..|results| - 1]) + results[|results| - 1].count
  }

  lemma CountsAddUp(results: seq<AggResult>, points: seq<DataPoint>, bucketMs: int, numberOf: uint64 -> real)
    requires bucketMs > 0 && Aggregates(results, points, bucketMs, numberOf)
    ensures TotalCount(results) == |points|
  {
    CountedMembers(results, points, bucketMs);
    forall p | p in points
      ensures exists i :: 0 <= i < |results| && results[i].bucketTs == BucketOf(p.ts, bucketMs)
    {
    }
    MembersAddUp(results, points, bucketMs);
  }

  function TotalMembers(results: seq<AggResult>, points: seq<DataPoint>, bucketMs: int): int
    requires bucketMs > 0
  {
    if results == [] then 0
    else TotalMembers(results[..|results| - 1], points, bucketMs)
         + |Members(points, results[|results| - 1].bucketTs, bucketMs)|
  }

  lemma {:induction false} CountedMembers(results: seq<AggResult>, points: seq<DataPoint>, bucketMs: int)
    requires bucketMs > 0
    requires forall r :: r in results ==> r.count == |Members(points, r.bucketTs, bucketMs)|
    ensures TotalCount(results) == TotalMembers(results, points, bucketMs)
    decreases |results|
  {
    if results != [] {
      CountedMembers(results[..|results| - 1], points, bucketMs);
    }
  }

  lemma {:induction false} MembersAddUp(results: seq<AggResult>, points: seq<DataPoint>, bucketMs: int)
    requires bucketMs > 0
    requires forall i, j :: 0 <= i < j < |results| ==> results[i].bucketTs != results[j].bucketTs
    requires forall p :: p in points ==> exists i :: 0 <= i < |results| && results[i].bucketTs == BucketOf(p.ts, bucketMs)
    ensures TotalMembers(results, points, bucketMs) == |points|
    decreases |points|
  {
    hide BucketOf;
    if points == [] {
      NoMembers(results, bucketMs);
    } else {
      var front, last := points[..|points| - 1], points[|points| - 1];
      assert points == front + [last] && last in points;
      MembersAddUp(results, front, bucketMs);
      var i :| 0 <= i < |results| && results[i].bucketTs == BucketOf(last.ts, bucketMs);
      OneMore(results, front, last, bucketMs, i);
    }
  }

  lemma {:induction false} NoMembers(results: seq<AggResult>, bucketMs: int)
    requires bucketMs > 0
    ensures TotalMembers(results, [], bucketMs) == 0
    decreases |results|
  {
    if results != [] {
      NoMembers(results[..|results| - 1], bucketMs);
    }
  }

  /** A point adds to one bucket if that bucket is among the results, and to none if it is not. */
  lemma {:induction false} OneMore(results: seq<AggResult>, points: seq<DataPoint>, p: DataPoint, bucketMs: int, at: nat)
    requires bucketMs > 0
    requires forall i, j :: 0 <= i < j < |results| ==> results[i].bucketTs != results[j].bucketTs
    requires forall i :: 0 <= i < |results| ==> (results[i].bucketTs == BucketOf(p.ts, bucketMs) <==> i == at)
    ensures TotalMembers(results, points + [p], bucketMs)
         == TotalMembers(results, points, bucketMs) + if at < |results| then 1 else 0
    decreases |results|
  {
    hide BucketOf, Members;
    if results != [] {
      OneMore(results[..|results| - 1], points, p, bucketMs, at);
      MembersSnoc(points, p, results[|results| - 1].bucketTs, bucketMs);
    }
  }

  // ---- the variance ----

  /** The executor's formula. */
  function Formula(r: AggResult): real
    requires r.count > 0
  {
    (r.sumSq - r.sum * r.sum / r.count as real) / r.count as real
  }

  /** What the executor takes the square root of; one point alone yields zero. */
  function Variance(r: AggResult): real {
    if r.count > 1 && Formula(r) > 0.0 then Formula(r) else 0.0
  }

  function Deviations(xs: seq<real>, mean: real): real {
    if xs == [] then 0.0 else Deviations(xs[..|xs| - 1], mean) + Square(xs[|xs| - 1] - mean)
  }

  function Square(x: real): (r: real)
    ensures r >= 0.0
  {
    x * x
  }

  lemma {:induction false} DeviationsExpanded(xs: seq<real>, mean: real)
    ensures Deviations(xs, mean)
         == SumOfSquares(xs) - 2.0 * (mean * Sum(xs)) + |xs| as real * (mean * mean)
    ensures Deviations(xs, mean) >= 0.0
    decreases |xs|
  {
    hide Deviations, Sum, SumOfSquares, Square;
    if xs == [] {
      NoSums(mean);
    } else {
      var front, x := xs[..|xs| - 1], xs[|xs| - 1];
      DeviationsExpanded(front, mean);
      SumsSnoc(front, x, mean);
      assert xs == front + [x];
      OneDeviation(Deviations(front, mean), SumOfSquares(front), Sum(front), |front| as real, x, mean);
    }
  }

  lemma NoSums(mean: real)
    ensures Deviations([], mean) == SumOfSquares([]) == Sum([]) == 0.0
  {
  }

  lemma SumsSnoc(front: seq<real>, x: real, mean: real)
    ensures Deviations(front + [x], mean) == Deviations(front, mean) + Square(x - mean)
    ensures SumOfSquares(front + [x]) == SumOfSquares(front) + x * x
    ensures Sum(front + [x]) == Sum(front) + x
  {
    assert (front + [x])[..|front|] == front;
  }

  lemma OneDeviation(d: real, q: real, s: real, n: real, x: real, mean: real)
    requires d == q - 2.0 * (mean * s) + n * (mean * mean)
    ensures d + Square(x - mean) == q + x * x - 2.0 * (mean * (s + x)) + (n + 1.0) * (mean * mean)
  {
    assert Square(x - mean) == x * x - 2.0 * (mean * x) + mean * mean;
  }

  /** The formula is the mean squared deviation from the average; it is never negative, so the guard
      against a negative variance is never needed. */
  lemma VarianceIsMeanSquaredDeviation(r: AggResult, points: seq<DataPoint>, numberOf: uint64 -> real)
    requires Summarises(r, points, numberOf)
    ensures r.count > 0
    ensures Variance(r) == Deviations(Numbers(points, numberOf), r.avg) / |points| as real
    ensures Variance(r) == Formula(r) >= 0.0
  {
    hide *;
    CollectedSums(r, points, numberOf);
    var xs, n := Numbers(points, numberOf), r.count as real;
    DeviationsExpanded(xs, r.avg);
    MeanVariance(r.sumSq, r.sum, n, r.avg, Deviations(xs, r.avg));
    if r.count == 1 {
      OnlyOne(xs);
      OneAlone(xs[0], n);
    }
    FormulaSteps(r, n, Deviations(xs, r.avg));
    VarianceSteps(r);
  }

  lemma CollectedSums(r: AggResult, points: seq<DataPoint>, numberOf: uint64 -> real)
    requires Summarises(r, points, numberOf)
    ensures r.count == |points| == |Numbers(points, numberOf)| > 0 && r.avg == r.sum / |points| as real
    ensures r.sum == Sum(Numbers(points, numberOf)) && r.sumSq == SumOfSquares(Numbers(points, numberOf))
  {
  }

  lemma VarianceSteps(r: AggResult)
    requires r.count > 0 && Formula(r) >= 0.0 && (r.count == 1 ==> Formula(r) == 0.0)
    ensures Variance(r) == Formula(r)
  {
    hide Formula;
  }

  lemma FormulaSteps(r: AggResult, n: real, d: real)
    requires r.count > 0 && n == r.count as real && d == r.sumSq - r.sum * r.sum / n
    ensures Formula(r) == d / n
  {
  }

  lemma OneAlone(x: real, n: real)
    requires n == 1.0
    ensures (x * x - x * x / n) / n == 0.0
  {
  }

  lemma OnlyOne(xs: seq<real>)
    requires |xs| == 1
    ensures Sum(xs) == xs[0] && SumOfSquares(xs) == xs[0] * xs[0]
  {
    assert xs[..0] == [];
  }

  lemma MeanVariance(q: real, s: real, n: real, mean: real, d: real)
    requires n > 0.0 && mean == s / n
    requires d == q - 2.0 * (mean * s) + n * (mean * mean) && d >= 0.0
    ensures d == q - s * s / n && d / n >= 0.0
  {
    MeanTimes(s, n, mean);
  }

  lemma MeanTimes(sum: real, n: real, mean: real)
    requires n > 0.0 && mean == sum / n
    ensures n * (mean * mean) == mean * sum == sum * sum / n
  {
  }
}
