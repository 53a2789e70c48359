/** Reading a tag back: merging the cached point with the files (src/storage/engine.cpp). */
module ReadPath {
  import opened Words
  import opened BlockCodec
  import opened TimeOrder
  import opened TagDirectory
  import opened MemTable
  import LatestCache
  import SSTable

  // ---- raw points ----

  /** The points a read of this range may draw on. */
  ghost function Sources(cached: Option<DataPoint>, files: Files, range: TimeRange): set<DataPoint> {
    (if cached.Some? && range.Contains(cached.value.ts) then {cached.value} else {}) + InRange(Visible(files), range)
  }

  ghost function InRange(points: set<DataPoint>, range: TimeRange): set<DataPoint> {
    set p | p in points && range.Contains(p.ts)
  }

  /** The files of the listing up to here, in its order. */
  ghost function ReadAll(files: Files, listing: seq<string>, range: TimeRange): seq<DataPoint> {
    if listing == [] then []
    else
      var front, last := listing[..|listing| - 1], listing[|listing| - 1];
      ReadAll(files, front, range)
      + if Readable(files, last) then SSTable.Filter(files[last].content.value, range) else []
  }

  /** A tag without a directory has no files. */
  method ReadRaw(cache: LatestCache.LatestCache, dir: Directory?, listing: seq<string>, tag: Tag, range: TimeRange)
    returns (result: seq<DataPoint>)
    requires cache.Valid()
    requires dir != null ==> Lists(listing, dir.files)
    ensures
      var cached := if tag == [] then None else cache.Cached(tag);
      var files := if dir == null then map[] else dir.files;
      Condenses(result, Sources(cached, files, range))
  {
    hide Condenses, PointSet, Lists, Visible, InRange;
    result := [];
    var cached := None;
    if tag != [] {
      cached := cache.Get(tag);
      if cached.Some? && range.Contains(cached.value.ts) {
        result := [cached.value];
      }
    }
    SmallSets(result);
    if dir == null {
      NoFiles(range);
      assert PointSet(result) == Sources(cached, map[], range);
    } else {
      ghost var first := result;
      var points := ReadFiles(dir, listing, range);
      result := result + points;
      SetConcat(first, points);
      assert PointSet(result) == Sources(cached, dir.files, range);
      result := SortUnique(result);
    }
  }

  method ReadFiles(dir: Directory, listing: seq<string>, range: TimeRange) returns (result: seq<DataPoint>)
    requires Lists(listing, dir.files)
    ensures PointSet(result) == InRange(Visible(dir.files), range)
  {
    hide PointSet, Lists, Visible, InRange;
    result := [];
    for i := 0 to |listing|
      invariant result == ReadAll(dir.files, listing[..i], range)
    {
      assert listing[..i + 1][..i] == listing[..i];
      if Readable(dir.files, listing[i]) {
        result := result + SSTable.Filter(dir.files[listing[i]].content.value, range);
      }
    }
    assert listing[..|listing|] == listing;
    ReadAllSet(dir.files, listing, range);
    ListedAll(dir.files, listing, range);
  }

  lemma SetConcat(a: seq<DataPoint>, b: seq<DataPoint>)
    ensures PointSet(a + b) == PointSet(a) + PointSet(b)
  {
  }

  lemma NoFiles(range: TimeRange)
    ensures InRange(Visible(map[]), range) == {}
  {
  }

  lemma SmallSets(s: seq<DataPoint>)
    requires |s| <= 1
    ensures PointSet(s) == if s == [] then {} else {s[0]}
    ensures Condenses(s, PointSet(s))
  {
  }

  ghost function VisibleIn(files: Files, names: seq<string>, range: TimeRange): set<DataPoint> {
    set n, p | n in names && p in PointsIn(files, n) && range.Contains(p.ts) :: p
  }

  lemma {:induction false} ReadAllSet(files: Files, listing: seq<string>, range: TimeRange)
    ensures PointSet(ReadAll(files, listing, range)) == VisibleIn(files, listing, range)
    decreases |listing|
  {
    if listing != [] {
      var front, last := listing[..|listing| - 1], listing[|listing| - 1];
      ReadAllSet(files, front, range);
      var more := if Readable(files, last) then SSTable.Filter(files[last].content.value, range) else [];
      if Readable(files, last) {
        FilterSet(files[last].content.value, range);
      }
      assert PointSet(ReadAll(files, front, range) + more) == PointSet(ReadAll(files, front, range)) + PointSet(more);
      assert PointSet(more) == InRange(PointsIn(files, last), range);
      assert listing == front + [last];
      VisibleSnoc(files, front, last, range);
    }
  }

  lemma VisibleSnoc(files: Files, front: seq<string>, last: string, range: TimeRange)
    ensures VisibleIn(files, front + [last], range) == VisibleIn(files, front, range) + InRange(PointsIn(files, last), range)
  {
  }

  lemma ListedAll(files: Files, listing: seq<string>, range: TimeRange)
    requires Lists(listing, files)
    ensures VisibleIn(files, listing, range) == InRange(Visible(files), range)
  {
  }

  /** A file that is read holds the point. */
  ghost predicate InFile(files: Files, n: string, p: DataPoint) {
    n in files && IsTable(n) && files[n].content.Some? && p in files[n].content.value
  }

  lemma SourceIff(cached: Option<DataPoint>, files: Files, range: TimeRange, p: DataPoint)
    ensures p in Sources(cached, files, range)
       <==> range.start <= p.ts <= range.end && (cached == Some(p) || exists n :: InFile(files, n, p))
  {
    hide IsTable;
    forall n
      ensures p in PointsIn(files, n) <==> InFile(files, n, p)
    {
    }
  }

  lemma OnlySources(result: seq<DataPoint>, points: set<DataPoint>)
    requires Condenses(result, points)
    ensures forall p :: p in result ==> p in points
    ensures forall i, j :: 0 <= i < j < |result| ==> result[i].ts < result[j].ts
  {
    hide Agree;
    forall p | p in result
      ensures p in points
    {
      assert p in PointSet(result);
    }
  }

  lemma TimeReturned(result: seq<DataPoint>, points: set<DataPoint>, p: DataPoint)
    requires Condenses(result, points) && p in points
    ensures exists q :: q in result && q.ts == p.ts
    ensures Agree(points) ==> p in result
  {
    hide Agree;
    assert p.ts in TimesOf(points);
    assert p.ts in TimesOf(PointSet(result));
    assert p in PointSet(result) <==> p in result;
  }

  /** A read in terms of the files alone: in the order of time, nothing from outside the range or from
      elsewhere than the cache and the readable files, and a point for every time in the range, both
      ends included; every point in the range itself, if equal times carry equal values. */
  lemma ReadReturns(result: seq<DataPoint>, cached: Option<DataPoint>, files: Files, range: TimeRange)
    requires Condenses(result, Sources(cached, files, range))
    ensures forall i, j :: 0 <= i < j < |result| ==> result[i].ts < result[j].ts
    ensures forall p :: p in result ==>
      range.start <= p.ts <= range.end && (cached == Some(p) || exists n :: InFile(files, n, p))
    ensures forall p: DataPoint :: range.start <= p.ts <= range.end && (cached == Some(p) || exists n :: InFile(files, n, p)) ==>
      (exists q :: q in result && q.ts == p.ts) && (Agree(Sources(cached, files, range)) ==> p in result)
  {
    hide InFile, Sources, Agree, Condenses;
    var sources := Sources(cached, files, range);
    OnlySources(result, sources);
    forall p: DataPoint
      ensures p in sources <==> range.start <= p.ts <= range.end && (cached == Some(p) || exists n :: InFile(files, n, p))
    {
      SourceIff(cached, files, range, p);
    }
    forall p | p in sources
      ensures (exists q :: q in result && q.ts == p.ts) && (Agree(sources) ==> p in result)
    {
      TimeReturned(result, sources, p);
    }
  }

  /** Where equal times carry equal values, two reads of the same points agree: whatever the order of
      the directory, and whichever files hold them. */
  lemma ReadsAgree(cached: Option<DataPoint>, before: Files, after: Files, range: TimeRange,
                   first: seq<DataPoint>, second: seq<DataPoint>)
    requires Visible(before) == Visible(after) && Agree(Sources(cached, before, range))
    requires Condenses(first, Sources(cached, before, range)) && Condenses(second, Sources(cached, after, range))
    ensures first == second
  {
    CondensedOnce(first, second, Sources(cached, before, range));
  }

  /** The cached point changes nothing once it is on disk. */
  lemma CachedOnDisk(p: DataPoint, files: Files, range: TimeRange)
    requires p in Visible(files)
    ensures Sources(Some(p), files, range) == Sources(None, files, range)
  {
  }
}
