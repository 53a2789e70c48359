/** The cache of the newest point of every tag (src/cache/latest_cache.cpp). */
module LatestCache {
  import opened Words
  import opened BlockCodec
  import opened MemTable

  /** The newest of the points that arrived: a later arrival wins over an equal time. */
  function NewestOf(arrived: seq<DataPoint>): DataPoint
    requires arrived != []
  {
    var last := arrived[|arrived| - 1];
    if |arrived| == 1 then last
    else
      var before := NewestOf(arrived[..|arrived| - 1]);
      if last.ts >= before.ts then last else before
  }

  /** p arrived, nothing is newer, and nothing as new arrived after it. */
  ghost predicate IsNewest(p: DataPoint, arrived: seq<DataPoint>) {
    exists k :: 0 <= k < |arrived| && arrived[k] == p && NewestAt(arrived, k)
  }

  ghost predicate NewestAt(arrived: seq<DataPoint>, k: nat)
    requires k < |arrived|
  {
    && (forall i :: 0 <= i < k ==> arrived[i].ts <= arrived[k].ts)
    && (forall i :: k < i < |arrived| ==> arrived[i].ts < arrived[k].ts)
  }

  lemma {:induction false} NewestIff(p: DataPoint, arrived: seq<DataPoint>)
    requires arrived != []
    ensures p == NewestOf(arrived) <==> IsNewest(p, arrived)
    decreases |arrived|
  {
    var n := |arrived| - 1;
    if n == 0 {
      assert NewestAt(arrived, 0);
    } else {
      var front, last := arrived[..n], arrived[n];
      NewestIff(NewestOf(front), front);
      var k :| 0 <= k < n && front[k] == NewestOf(front) && NewestAt(front, k);
      var best := if last.ts >= front[k].ts then n else k;
      assert NewestAt(arrived, best);
      if IsNewest(p, arrived) {
        var j :| 0 <= j <= n && arrived[j] == p && NewestAt(arrived, j);
        assert j == best;
      }
    }
  }

  /** arrived is history: the points of every tag since it was last removed. */
  class LatestCache {
    var cache: map<Tag, DataPoint>
    ghost var arrived: map<Tag, seq<DataPoint>>

    ghost predicate Valid()
      reads this
    {
      && cache.Keys == arrived.Keys
      && (forall tag :: tag in cache ==> arrived[tag] != [] && cache[tag] == NewestOf(arrived[tag]))
    }

    constructor ()
      ensures Valid() && arrived == map[]
    {
      cache, arrived := map[], map[];
    }

    method Update(tag: Tag, point: DataPoint)
      requires Valid()
      modifies this
      ensures Valid()
      ensures arrived == old(arrived)[tag := (if tag in old(arrived) then old(arrived)[tag] else []) + [point]]
    {
      ghost var before := if tag in arrived then arrived[tag] else [];
      assert (before + [point])[..|before|] == before;
      if tag in cache {
        if point.ts >= cache[tag].ts {
          cache := cache[tag := point];
        }
      } else {
        cache := cache[tag := point];
      }
      arrived := arrived[tag := before + [point]];
    }

    method Get(tag: Tag) returns (found: Option<DataPoint>)
      requires Valid()
      ensures found.Some? <==> tag in arrived
      ensures found.Some? ==> IsNewest(found.value, arrived[tag])
      ensures found == Cached(tag)
    {
      if tag in cache {
        NewestIff(cache[tag], arrived[tag]);
        return Some(cache[tag]);
      }
      return None;
    }

    function Cached(tag: Tag): Option<DataPoint>
      reads this
    {
      if tag in cache then Some(cache[tag]) else None
    }

    method Remove(tag: Tag)
      requires Valid()
      modifies this
      ensures Valid() && arrived == old(arrived) - {tag}
    {
      cache, arrived := cache - {tag}, arrived - {tag};
    }

    method Clear()
      modifies this
      ensures Valid() && arrived == map[]
    {
      cache, arrived := map[], map[];
    }
  }
}
