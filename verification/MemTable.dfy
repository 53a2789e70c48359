/** The in-memory write buffer (src/storage/memtable.cpp): one buffer of points a tag, handed to the
    flush callback when its estimated size reaches the threshold. */
module MemTable {
  import opened Words
  import opened BlockCodec

  type Tag = seq<byte>

  datatype TagBuffer = TagBuffer(points: seq<DataPoint>, estimatedBytes: nat)

  datatype Batch = Batch(tag: Tag, points: seq<DataPoint>)

  datatype DataBatch = DataBatch(tagName: Tag, points: seq<DataPoint>)

  // ---- when a buffer is full ----

  /** How many points of estimated size cost fill a buffer. */
  function BatchSize(threshold: nat, cost: nat): (k: nat)
    requires cost > 0
    ensures k >= 1
  {
    if threshold <= cost then 1 else (threshold + cost - 1) / cost
  }

  /** The test on the estimated size is a test on the number of points. */
  lemma FullIff(threshold: nat, cost: nat, n: nat)
    requires cost > 0 && n > 0
    ensures n * cost >= threshold <==> n >= BatchSize(threshold, cost)
  {
    if threshold <= cost {
      assert n * cost >= cost;
    } else {
      var k := BatchSize(threshold, cost);
      var r := (threshold + cost - 1) % cost;
      assert threshold + cost - 1 == k * cost + r;
      assert k * cost >= threshold > (k - 1) * cost;
      if n >= k {
        assert n * cost >= k * cost;
      } else {
        assert n * cost <= (k - 1) * cost;
      }
    }
  }

  // ---- what every operation keeps ----

  /** The points of a tag in a list of flushed batches, in order. */
  function FlushedPoints(batches: seq<Batch>, tag: Tag): seq<DataPoint> {
    if batches == [] then []
    else (if batches[0].tag == tag then batches[0].points else []) + FlushedPoints(batches[1..], tag)
  }

  lemma {:induction false} FlushedSnoc(batches: seq<Batch>, b: Batch, tag: Tag)
    ensures FlushedPoints(batches + [b], tag)
         == FlushedPoints(batches, tag) + if b.tag == tag then b.points else []
  {
    if batches == [] {
      assert batches + [b] == [b];
    } else {
      assert (batches + [b])[1..] == batches[1..] + [b];
      FlushedSnoc(batches[1..], b, tag);
    }
  }

  function Buffered(buffers: map<Tag, TagBuffer>, tag: Tag): seq<DataPoint> {
    if tag in buffers then buffers[tag].points else []
  }

  function Added(added: map<Tag, seq<DataPoint>>, tag: Tag): seq<DataPoint> {
    if tag in added then added[tag] else []
  }

  function AddedAll(added: map<Tag, seq<DataPoint>>, tag: Tag, points: seq<DataPoint>): map<Tag, seq<DataPoint>> {
    if points == [] then added else added[tag := Added(added, tag) + points]
  }

  lemma AddedOneMore(added: map<Tag, seq<DataPoint>>, tag: Tag, points: seq<DataPoint>, p: DataPoint)
    ensures AddedAll(AddedAll(added, tag, points), tag, [p]) == AddedAll(added, tag, points + [p])
  {
    var once := AddedAll(added, tag, points);
    assert Added(once, tag) == Added(added, tag) + points;
    assert Added(added, tag) + points + [p] == Added(added, tag) + (points + [p]);
    assert AddedAll(once, tag, [p]) == added[tag := Added(added, tag) + (points + [p])];
  }

  function AddedBatches(added: map<Tag, seq<DataPoint>>, batches: seq<DataBatch>): map<Tag, seq<DataPoint>>
    decreases |batches|
  {
    if batches == [] then added
    else
      var last := batches[|batches| - 1];
      AddedAll(AddedBatches(added, batches[..|batches| - 1]), last.tagName, last.points)
  }

  ghost predicate ConservedIn(buffers: map<Tag, TagBuffer>, flushed: seq<Batch>, added: map<Tag, seq<DataPoint>>) {
    forall tag :: FlushedPoints(flushed, tag) + Buffered(buffers, tag) == Added(added, tag)
  }

  ghost predicate MeasuredIn(buffers: map<Tag, TagBuffer>, threshold: nat, pointSize: nat) {
    forall tag :: tag in buffers ==>
      && buffers[tag].estimatedBytes == |buffers[tag].points| * (pointSize + |tag|)
      && (buffers[tag].estimatedBytes == 0 || buffers[tag].estimatedBytes < threshold)
  }

  /** The buffers and the flushed batches after one more point. */
  function AfterAdd(buffers: map<Tag, TagBuffer>, flushed: seq<Batch>, tag: Tag, point: DataPoint,
                    threshold: nat, pointSize: nat): (map<Tag, TagBuffer>, seq<Batch>)
    requires pointSize > 0
  {
    var points := Buffered(buffers, tag) + [point];
    if |points| >= BatchSize(threshold, pointSize + |tag|)
    then (buffers[tag := TagBuffer([], 0)], flushed + [Batch(tag, points)])
    else (buffers[tag := TagBuffer(points, |points| * (pointSize + |tag|))], flushed)
  }

  /** The same for a table with or without a callback; without one nothing is ever flushed. */
  function AfterOne(callback: bool, buffers: map<Tag, TagBuffer>, flushed: seq<Batch>, tag: Tag, point: DataPoint,
                    threshold: nat, pointSize: nat): (map<Tag, TagBuffer>, seq<Batch>)
    requires pointSize > 0
  {
    if callback then AfterAdd(buffers, flushed, tag, point, threshold, pointSize)
    else
      var before := if tag in buffers then buffers[tag] else TagBuffer([], 0);
      (buffers[tag := TagBuffer(before.points + [point], before.estimatedBytes + pointSize + |tag|)], flushed)
  }

  function AfterPoints(callback: bool, buffers: map<Tag, TagBuffer>, flushed: seq<Batch>, tag: Tag, points: seq<DataPoint>,
                       threshold: nat, pointSize: nat): (map<Tag, TagBuffer>, seq<Batch>)
    requires pointSize > 0
  {
    if points == [] then (buffers, flushed)
    else
      var (b, f) := AfterPoints(callback, buffers, flushed, tag, points[..|points| - 1], threshold, pointSize);
      AfterOne(callback, b, f, tag, points[|points| - 1], threshold, pointSize)
  }

  /** The buffers and the flushed batches after adding the points of the batches one by one, in order. */
  function AfterBatches(callback: bool, buffers: map<Tag, TagBuffer>, flushed: seq<Batch>, batches: seq<DataBatch>,
                        threshold: nat, pointSize: nat): (map<Tag, TagBuffer>, seq<Batch>)
    requires pointSize > 0
  {
    if batches == [] then (buffers, flushed)
    else
      var last := batches[|batches| - 1];
      var (b, f) := AfterBatches(callback, buffers, flushed, batches[..|batches| - 1], threshold, pointSize);
      AfterPoints(callback, b, f, last.tagName, last.points, threshold, pointSize)
  }

  lemma AddKeeps(buffers: map<Tag, TagBuffer>, flushed: seq<Batch>, added: map<Tag, seq<DataPoint>>,
                 tag: Tag, point: DataPoint, threshold: nat, pointSize: nat)
    requires pointSize > 0
    requires ConservedIn(buffers, flushed, added) && MeasuredIn(buffers, threshold, pointSize)
    ensures var (buffers', flushed') := AfterAdd(buffers, flushed, tag, point, threshold, pointSize);
            && ConservedIn(buffers', flushed', AddedAll(added, tag, [point]))
            && MeasuredIn(buffers', threshold, pointSize)
  {
    hide BatchSize, FlushedPoints;
    var (buffers', flushed') := AfterAdd(buffers, flushed, tag, point, threshold, pointSize);
    var points := Buffered(buffers, tag) + [point];
    FullIff(threshold, pointSize + |tag|, |points|);
    forall other
      ensures FlushedPoints(flushed', other) + Buffered(buffers', other)
           == Added(AddedAll(added, tag, [point]), other)
    {
      FlushedSnoc(flushed, Batch(tag, points), other);
      assert FlushedPoints(flushed, other) + Buffered(buffers, other) == Added(added, other);
      Regroup(FlushedPoints(flushed, tag), Buffered(buffers, tag), point);
    }
  }

  /** A point flushes its buffer exactly when the estimate with it reaches the threshold. */
  lemma FlushIff(buffers: map<Tag, TagBuffer>, flushed: seq<Batch>, tag: Tag, point: DataPoint, threshold: nat, pointSize: nat)
    requires pointSize > 0 && MeasuredIn(buffers, threshold, pointSize)
    ensures var (buffers', flushed') := AfterAdd(buffers, flushed, tag, point, threshold, pointSize);
      var estimate := (if tag in buffers then buffers[tag].estimatedBytes else 0) + pointSize + |tag|;
      var points := (if tag in buffers then buffers[tag].points else []) + [point];
      && tag in buffers'
      && (estimate >= threshold ==> buffers'[tag] == TagBuffer([], 0) && flushed' == flushed + [Batch(tag, points)])
      && (estimate < threshold ==> buffers'[tag] == TagBuffer(points, estimate) && flushed' == flushed)
      && (forall other :: other != tag ==> (other in buffers' <==> other in buffers))
      && (forall other :: other in buffers && other != tag ==> buffers'[other] == buffers[other])
  {
    hide BatchSize, MeasuredIn;
    Estimate(buffers, tag, threshold, pointSize);
    FullIff(threshold, pointSize + |tag|, |Buffered(buffers, tag)| + 1);
  }

  lemma Regroup(a: seq<DataPoint>, b: seq<DataPoint>, p: DataPoint)
    ensures a + (b + [p]) == (a + b) + [p]
    ensures (a + (b + [p])) + [] == (a + b) + [p]
  {
  }

  /** The estimate of the buffer of a tag with one more point. */
  lemma Estimate(buffers: map<Tag, TagBuffer>, tag: Tag, threshold: nat, pointSize: nat)
    requires MeasuredIn(buffers, threshold, pointSize)
    ensures (if tag in buffers then buffers[tag].estimatedBytes else 0) + pointSize + |tag|
         == (|Buffered(buffers, tag)| + 1) * (pointSize + |tag|)
  {
  }

  lemma NoPoints(callback: bool, buffers: map<Tag, TagBuffer>, flushed: seq<Batch>, tag: Tag, threshold: nat, pointSize: nat)
    requires pointSize > 0
    ensures AfterPoints(callback, buffers, flushed, tag, [], threshold, pointSize) == (buffers, flushed)
  {
  }

  lemma NextPoint(callback: bool, buffers: map<Tag, TagBuffer>, flushed: seq<Batch>, tag: Tag, points: seq<DataPoint>,
                  j: nat, threshold: nat, pointSize: nat)
    requires pointSize > 0 && j < |points|
    ensures var (b, f) := AfterPoints(callback, buffers, flushed, tag, points[..j], threshold, pointSize);
      AfterPoints(callback, buffers, flushed, tag, points[..j + 1], threshold, pointSize)
      == AfterOne(callback, b, f, tag, points[j], threshold, pointSize)
  {
    assert points[..j + 1][..j] == points[..j];
  }

  lemma NoBatches(callback: bool, buffers: map<Tag, TagBuffer>, flushed: seq<Batch>, added: map<Tag, seq<DataPoint>>,
                  threshold: nat, pointSize: nat)
    requires pointSize > 0
    ensures AfterBatches(callback, buffers, flushed, [], threshold, pointSize) == (buffers, flushed)
    ensures AddedBatches(added, []) == added
  {
  }

  lemma NextBatch(callback: bool, buffers: map<Tag, TagBuffer>, flushed: seq<Batch>, added: map<Tag, seq<DataPoint>>,
                  batches: seq<DataBatch>, i: nat, threshold: nat, pointSize: nat)
    requires pointSize > 0 && i < |batches|
    ensures var (b, f) := AfterBatches(callback, buffers, flushed, batches[..i], threshold, pointSize);
      AfterBatches(callback, buffers, flushed, batches[..i + 1], threshold, pointSize)
      == AfterPoints(callback, b, f, batches[i].tagName, batches[i].points, threshold, pointSize)
    ensures AddedBatches(added, batches[..i + 1])
         == AddedAll(AddedBatches(added, batches[..i]), batches[i].tagName, batches[i].points)
  {
    assert batches[..i + 1][..i] == batches[..i];
  }

  class MemTable {
    const flushThreshold: nat
    /** The size of one point in memory. */
    const pointSize: nat
    var hasCallback: bool
    var buffers: map<Tag, TagBuffer>
    /** What the callback was handed so far. */
    var flushed: seq<Batch>
    /** The points added so far. */
    ghost var added: map<Tag, seq<DataPoint>>

    /** No point is lost, reordered or duplicated. */
    ghost predicate Conserved()
      reads this
    {
      ConservedIn(buffers, flushed, added)
    }

    /** Every estimate is the number of points times the cost of one, and it is zero or below the
        threshold. */
    ghost predicate Measured()
      reads this
    {
      MeasuredIn(buffers, flushThreshold, pointSize)
    }

    /** A table without a callback drops what it flushes; both properties are those of a table that
        has one. */
    ghost predicate Valid()
      reads this
    {
      pointSize > 0 && (hasCallback ==> Conserved() && Measured())
    }

    constructor (threshold: nat, size: nat)
      requires size > 0
      ensures Valid() && flushThreshold == threshold && pointSize == size && !hasCallback
      ensures buffers == map[] && flushed == [] && added == map[]
    {
      flushThreshold, pointSize, hasCallback := threshold, size, false;
      buffers, flushed, added := map[], [], map[];
    }

    /** The properties hold from here on when nothing was added before. */
    method SetFlushCallback()
      modifies this`hasCallback
      ensures hasCallback
      ensures Valid() <== pointSize > 0 && buffers == map[] && flushed == [] && added == map[]
    {
      hasCallback := true;
    }

    /** Hands a buffer to the callback and empties it; an empty buffer is left alone. */
    method FlushBuffer(tag: Tag)
      requires tag in buffers
      modifies this`buffers, this`flushed
      ensures old(buffers[tag].points) == [] ==> buffers == old(buffers) && flushed == old(flushed)
      ensures old(buffers[tag].points) != [] ==>
                && buffers == old(buffers)[tag := TagBuffer([], 0)]
                && flushed == if hasCallback then old(flushed) + [Batch(tag, old(buffers[tag].points))]
                              else old(flushed)
    {
      var buf := buffers[tag];
      if buf.points == [] {
        return;
      }
      if hasCallback {
        flushed := flushed + [Batch(tag, buf.points)];
      }
      buffers := buffers[tag := TagBuffer([], 0)];
    }

    method CheckFlush(tag: Tag)
      requires tag in buffers && buffers[tag].points != []
      modifies this`buffers, this`flushed
      ensures var buf := old(buffers[tag]);
              var full := buf.estimatedBytes >= flushThreshold && hasCallback;
              && buffers == (if full then old(buffers)[tag := TagBuffer([], 0)] else old(buffers))
              && flushed == (if full then old(flushed) + [Batch(tag, buf.points)] else old(flushed))
    {
      if buffers[tag].estimatedBytes >= flushThreshold && hasCallback {
        FlushBuffer(tag);
      }
    }

    /** Adds one point, and flushes the buffer of its tag when that fills it. */
    method Add(tag: Tag, point: DataPoint)
      requires Valid()
      modifies this`buffers, this`flushed, this`added
      ensures Valid() && added == AddedAll(old(added), tag, [point])
      ensures (buffers, flushed)
           == AfterOne(hasCallback, old(buffers), old(flushed), tag, point, flushThreshold, pointSize)
    {
      hide ConservedIn, MeasuredIn, AddedAll, BatchSize;
      var before := if tag in buffers then buffers[tag] else TagBuffer([], 0);
      var points, bytes := before.points + [point], before.estimatedBytes + pointSize + |tag|;
      if hasCallback {
        AddKeeps(buffers, flushed, added, tag, point, flushThreshold, pointSize);
        Estimate(buffers, tag, flushThreshold, pointSize);
        FullIff(flushThreshold, pointSize + |tag|, |points|);
        assert before.points == Buffered(buffers, tag);
        assert bytes == |points| * (pointSize + |tag|);
      }
      ghost var buffers0 := buffers;
      buffers := buffers[tag := TagBuffer(points, bytes)];
      assert buffers[tag := TagBuffer([], 0)] == buffers0[tag := TagBuffer([], 0)];
      CheckFlush(tag);
      added := AddedAll(added, tag, [point]);
    }

    /** Adding batches is adding their points one by one, in order. */
    method AddBatch(batches: seq<DataBatch>)
      requires Valid()
      modifies this`buffers, this`flushed, this`added
      ensures Valid() && added == AddedBatches(old(added), batches)
      ensures (buffers, flushed)
           == AfterBatches(hasCallback, old(buffers), old(flushed), batches, flushThreshold, pointSize)
    {
      hide ConservedIn, MeasuredIn, AddedAll, AfterOne, AfterPoints, AfterBatches, AddedBatches;
      NoBatches(hasCallback, buffers, flushed, added, flushThreshold, pointSize);
      for i := 0 to |batches|
        invariant Valid() && added == AddedBatches(old(added), batches[..i])
        invariant (buffers, flushed)
               == AfterBatches(hasCallback, old(buffers), old(flushed), batches[..i], flushThreshold, pointSize)
      {
        AddPoints(batches[i].tagName, batches[i].points);
        NextBatch(hasCallback, old(buffers), old(flushed), old(added), batches, i, flushThreshold, pointSize);
      }
      assert batches[..|batches|] == batches;
    }

    method AddPoints(tag: Tag, points: seq<DataPoint>)
      requires Valid()
      modifies this`buffers, this`flushed, this`added
      ensures Valid() && added == AddedAll(old(added), tag, points)
      ensures (buffers, flushed)
           == AfterPoints(hasCallback, old(buffers), old(flushed), tag, points, flushThreshold, pointSize)
    {
      hide ConservedIn, MeasuredIn, AfterOne, AfterPoints;
      NoPoints(hasCallback, buffers, flushed, tag, flushThreshold, pointSize);
      for j := 0 to |points|
        invariant Valid() && added == AddedAll(old(added), tag, points[..j])
        invariant (buffers, flushed)
               == AfterPoints(hasCallback, old(buffers), old(flushed), tag, points[..j], flushThreshold, pointSize)
      {
        AddedOneMore(old(added), tag, points[..j], points[j]);
        NextPoint(hasCallback, old(buffers), old(flushed), tag, points, j, flushThreshold, pointSize);
        Add(tag, points[j]);
        assert points[..j + 1] == points[..j] + [points[j]];
      }
      assert points[..|points|] == points;
    }

    /** Flushes the buffer of one tag, if it has one. */
    method FlushTag(tag: Tag)
      requires Valid()
      modifies this`buffers, this`flushed
      ensures Valid() && Buffered(buffers, tag) == []
      ensures forall other :: other != tag ==> Buffered(buffers, other) == old(Buffered(buffers, other))
      ensures buffers.Keys == old(buffers.Keys)
    {
      if tag in buffers {
        ghost var batch := Batch(tag, buffers[tag].points);
        ghost var flushed0 := flushed;
        FlushBuffer(tag);
        if hasCallback && batch.points != [] {
          forall other
            ensures FlushedPoints(flushed, other) + Buffered(buffers, other) == Added(added, other)
          {
            FlushedSnoc(flushed0, batch, other);
          }
        }
      }
    }

    /** Flushes every buffer, in any order: afterwards the callback has seen every point. */
    method FlushAll()
      requires Valid()
      modifies this`buffers, this`flushed
      ensures Valid()
      ensures forall tag :: Buffered(buffers, tag) == []
      ensures hasCallback ==> forall tag :: FlushedPoints(flushed, tag) == Added(added, tag)
    {
      var todo := buffers.Keys;
      while todo != {}
        invariant Valid() && todo <= buffers.Keys
        invariant forall tag :: tag !in todo ==> Buffered(buffers, tag) == []
        decreases todo
      {
        var tag :| tag in todo;
        FlushTag(tag);
        todo := todo - {tag};
      }
      if hasCallback {
        forall tag
          ensures FlushedPoints(flushed, tag) == Added(added, tag)
        {
          assert FlushedPoints(flushed, tag) + Buffered(buffers, tag) == Added(added, tag);
        }
      }
    }
  }
}
