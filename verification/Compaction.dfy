/** Merging the small SSTables of a tag into one (src/storage/compaction.cpp). */
module Compaction {
  import opened Words
  import opened BlockCodec
  import opened TimeOrder
  import opened TagDirectory
  import ReadPath
  import SSTable

  const ALL_TIMES := TimeRange(0, SSTable.INT64_MAX)

  function TmpName(points: seq<DataPoint>): string
    requires points != []
  {
    ".tmp_merge_" + Decimal(points[0].ts) + "_" + Decimal(points[|points| - 1].ts) + ".sst"
  }

  function MergedName(points: seq<DataPoint>): string
    requires points != []
  {
    "merged_" + Decimal(points[0].ts) + "_" + Decimal(points[|points| - 1].ts) + ".sst"
  }

  lemma NamesDiffer(points: seq<DataPoint>)
    requires points != []
    ensures TmpName(points) != MergedName(points)
    ensures IsTable(TmpName(points)) && IsTable(MergedName(points))
  {
    assert TmpName(points)[0] == '.' && MergedName(points)[0] == 'm';
  }

  predicate IsSmall(files: Files, name: string, threshold: nat) {
    IsTable(name) && name in files && files[name].size < threshold
  }

  function SmallFiles(files: Files, listing: seq<string>, threshold: nat): (small: seq<string>)
    ensures forall n :: n in small <==> n in listing && IsSmall(files, n, threshold)
  {
    if listing == [] then []
    else
      var front, last := listing[..|listing| - 1], listing[|listing| - 1];
      assert listing == front + [last];
      SmallFiles(files, front, threshold) + if IsSmall(files, last, threshold) then [last] else []
  }

  /** Those of the files that the reader accepts. */
  function ReadFiles(files: Files, names: seq<string>): (r: seq<string>)
    ensures forall n :: n in r <==> n in names && Readable(files, n)
  {
    if names == [] then []
    else
      var front, last := names[..|names| - 1], names[|names| - 1];
      assert names == front + [last];
      ReadFiles(files, front) + if Readable(files, last) then [last] else []
  }

  /** The points with times from 0 on of all these files. */
  function Gathered(files: Files, names: seq<string>): seq<DataPoint>
    requires forall n :: n in names ==> Readable(files, n)
  {
    if names == [] then []
    else
      var front, last := names[..|names| - 1], names[|names| - 1];
      assert Readable(files, last) && forall n :: n in front ==> n in names;
      Gathered(files, front) + SSTable.Filter(files[last].content.value, ALL_TIMES)
  }

  /** The directory after the first k of the inputs were removed. */
  ghost function Without(files: Files, names: seq<string>): Files {
    map n | n in files && n !in names :: files[n]
  }

  function WithTmp(files: Files, merged: seq<DataPoint>, size: nat): Files
    requires merged != []
  {
    files[TmpName(merged) := File(size, Some(merged))]
  }

  function WithMerged(files: Files, merged: seq<DataPoint>, size: nat): Files
    requires merged != []
  {
    Renamed(WithTmp(files, merged, size), TmpName(merged), MergedName(merged))
  }

  /** The k-th state a compaction puts the directory into. */
  ghost function StateAt(files: Files, inputs: seq<string>, merged: seq<DataPoint>, size: nat, k: nat): Files
    requires merged != [] && k < 4 + |inputs|
  {
    match k
    case 0 => files
    case 1 => files[TmpName(merged) := File(0, None)]
    case 2 => WithTmp(files, merged, size)
    case _ => Without(WithMerged(files, merged, size), inputs[..k - 3])
  }

  ghost function States(files: Files, inputs: seq<string>, merged: seq<DataPoint>, size: nat): (r: seq<Files>)
    requires merged != []
    ensures |r| == 4 + |inputs|
  {
    seq(4 + |inputs|, k requires 0 <= k < 4 + |inputs| => StateAt(files, inputs, merged, size, k))
  }

  /** Compacts the directory and returns the points it merged, none if it left everything alone.
      sizeOf is the size the writer gives to a file of these points. */
  method CompactTag(dir: Directory, listing: seq<string>, threshold: nat, sizeOf: seq<DataPoint> -> nat)
    returns (merged: seq<DataPoint>)
    requires dir.history == [dir.files] && Lists(listing, dir.files)
    modifies dir
    ensures
      var small := SmallFiles(old(dir.files), listing, threshold);
      var inputs := ReadFiles(old(dir.files), small);
      if |small| < 2 || Gathered(old(dir.files), inputs) == []
      then merged == [] && dir.history == [old(dir.files)] && dir.files == old(dir.files)
      else
        && merged != [] && Condenses(merged, PointSet(Gathered(old(dir.files), inputs)))
        && dir.history == States(old(dir.files), inputs, merged, sizeOf(merged))
        && dir.files == dir.history[|inputs| + 3]
    ensures
      var files := old(dir.files);
      var small := set n | n in files && IsTable(n) && files[n].size < threshold;
      var inputs := set n | n in small && files[n].content.Some?;
      var times := set n, p | n in inputs && p in files[n].content.value && 0 <= p.ts <= SSTable.INT64_MAX :: p.ts;
      if |small| < 2 || times == {}
      then merged == [] && dir.history == [files] && dir.files == files
      else
        && Increasing(merged) && merged != [] && TimesOf(PointSet(merged)) == times
        && (forall p :: p in merged ==> exists n :: n in inputs && p in files[n].content.value)
        && (forall n :: n in files ==> (n !in dir.files <==> n in inputs || n == TmpName(merged)))
        && (MergedName(merged) !in inputs ==>
              MergedName(merged) in dir.files && dir.files[MergedName(merged)].content == Some(merged))
        && (forall n, s :: n in files && n !in inputs && n != TmpName(merged) && n != MergedName(merged) && s in dir.history ==>
              n in s && s[n] == files[n])
  {
    hide SmallFiles, ReadFiles, Gathered, Condenses, States, Readable, Lists, IsTable, IsSmall;
    ghost var files := dir.files;
    merged := [];
    var small := Select(dir, listing, threshold);
    if |small| >= 2 {
      var points, inputs := Gather(dir, small);
      if points != [] {
        merged := SortUnique(points);
        Replace(dir, inputs, merged, sizeOf(merged));
        Replaced(files, listing, threshold, inputs, merged, sizeOf(merged));
      }
    }
    Chosen(files, listing, threshold);
  }

  /** The choice of files in terms of the directory alone. */
  lemma Chosen(files: Files, listing: seq<string>, threshold: nat)
    requires Lists(listing, files)
    ensures
      var chosen := ReadFiles(files, SmallFiles(files, listing, threshold));
      var small := set n | n in files && IsTable(n) && files[n].size < threshold;
      var inputs := set n | n in small && files[n].content.Some?;
      var times := set n, p | n in inputs && p in files[n].content.value && 0 <= p.ts <= SSTable.INT64_MAX :: p.ts;
      && |small| == |SmallFiles(files, listing, threshold)|
      && inputs == (set n | n in chosen)
      && TimesOf(PointSet(Gathered(files, chosen))) == times
      && (times == {} <==> Gathered(files, chosen) == [])
      && (forall p :: p in Gathered(files, chosen) ==> exists n :: n in inputs && p in files[n].content.value)
  {
    hide Gathered, SmallFiles, ReadFiles, IsTable;
    var chosen := ReadFiles(files, SmallFiles(files, listing, threshold));
    var small := set n | n in files && IsTable(n) && files[n].size < threshold;
    SmallCount(files, listing, threshold);
    assert small == set n | n in SmallFiles(files, listing, threshold);
    GatheredSet(files, chosen);
    var points := Gathered(files, chosen);
    assert forall p :: p in points <==> p in PointSet(points);
    if points != [] {
      assert points[0].ts in TimesOf(PointSet(points));
    }
  }

  lemma NoneSmall(files: Files, threshold: nat)
    ensures SmallFiles(files, [], threshold) == []
  {
  }

  lemma {:induction false} SmallCount(files: Files, listing: seq<string>, threshold: nat)
    requires forall i, j :: 0 <= i < j < |listing| ==> listing[i] != listing[j]
    ensures |set n | n in SmallFiles(files, listing, threshold)| == |SmallFiles(files, listing, threshold)|
    decreases |listing|
  {
    hide IsSmall, SmallFiles;
    if listing == [] {
      NoneSmall(files, threshold);
    } else {
      var front, last := listing[..|listing| - 1], listing[|listing| - 1];
      SmallCount(files, front, threshold);
      assert forall n :: n in front ==> n != last;
      assert listing == front + [last];
      SmallNext(files, front, last, threshold);
    }
  }

  lemma SmallNext(files: Files, front: seq<string>, last: string, threshold: nat)
    requires last !in front
    ensures var before, after := SmallFiles(files, front, threshold), SmallFiles(files, front + [last], threshold);
      var more := if IsSmall(files, last, threshold) then 1 else 0;
      && |after| == |before| + more
      && |set n | n in after| == |set n | n in before| + more
  {
    hide IsSmall;
    assert (front + [last])[..|front|] == front;
    var before, after := SmallFiles(files, front, threshold), SmallFiles(files, front + [last], threshold);
    var was := set n | n in before;
    if IsSmall(files, last, threshold) {
      assert after == before + [last];
      assert (set n | n in after) == was + {last};
      assert last !in was;
    } else {
      assert after == before;
    }
  }

  lemma LastState(files: Files, inputs: seq<string>, merged: seq<DataPoint>, size: nat)
    requires merged != []
    ensures States(files, inputs, merged, size)[|inputs| + 3] == Without(WithMerged(files, merged, size), inputs)
  {
    assert inputs[..|inputs|] == inputs;
  }

  /** What the sequence of states comes to. */
  lemma Replaced(files: Files, listing: seq<string>, threshold: nat, inputs: seq<string>, merged: seq<DataPoint>, size: nat)
    requires Lists(listing, files) && inputs == ReadFiles(files, SmallFiles(files, listing, threshold))
    requires merged != [] && Condenses(merged, PointSet(Gathered(files, inputs)))
    ensures Increasing(merged) && TimesOf(PointSet(merged)) == TimesOf(PointSet(Gathered(files, inputs)))
    ensures forall p :: p in merged ==> p in Gathered(files, inputs)
    ensures
      var last := States(files, inputs, merged, size)[|inputs| + 3];
      && (forall n :: n in files ==> (n !in last <==> n in inputs || n == TmpName(merged)))
      && (MergedName(merged) !in inputs ==> MergedName(merged) in last && last[MergedName(merged)].content == Some(merged))
    ensures forall n, s :: n in files && n !in Touched(inputs, merged) && s in States(files, inputs, merged, size) ==>
      n in s && s[n] == files[n]
  {
    hide Gathered, SmallFiles, ReadFiles, TmpName, MergedName, StateAt;
    NamesDiffer(merged);
    var states := States(files, inputs, merged, size);
    LastState(files, inputs, merged, size);
    forall p | p in merged
      ensures p in Gathered(files, inputs)
    {
      assert p in PointSet(merged);
    }
    forall n, s | n in files && n !in Touched(inputs, merged) && s in states
      ensures n in s && s[n] == files[n]
    {
      var k :| 0 <= k < |states| && states[k] == s;
      UntouchedKept(files, inputs, merged, size, k, n);
    }
  }

  method Select(dir: Directory, listing: seq<string>, threshold: nat) returns (small: seq<string>)
    requires Lists(listing, dir.files)
    ensures small == SmallFiles(dir.files, listing, threshold)
  {
    small := [];
    for i := 0 to |listing|
      invariant small == SmallFiles(dir.files, listing[..i], threshold)
    {
      assert listing[..i + 1][..i] == listing[..i];
      var name := listing[i];
      if IsTable(name) && dir.files[name].size < threshold {
        small := small + [name];
      }
    }
    assert listing[..|listing|] == listing;
  }

  method Gather(dir: Directory, small: seq<string>) returns (points: seq<DataPoint>, inputs: seq<string>)
    ensures inputs == ReadFiles(dir.files, small) && points == Gathered(dir.files, inputs)
  {
    points, inputs := [], [];
    for i := 0 to |small|
      invariant inputs == ReadFiles(dir.files, small[..i]) && points == Gathered(dir.files, inputs)
    {
      assert small[..i + 1][..i] == small[..i];
      var name := small[i];
      if Readable(dir.files, name) {
        points := points + SSTable.Filter(dir.files[name].content.value, ALL_TIMES);
        assert (inputs + [name])[..|inputs|] == inputs;
        inputs := inputs + [name];
      }
    }
    assert small[..|small|] == small;
  }

  /** Writes the merged file under a temporary name, renames it, and removes the inputs. */
  method Replace(dir: Directory, inputs: seq<string>, merged: seq<DataPoint>, size: nat)
    requires dir.history == [dir.files] && merged != []
    modifies dir
    ensures dir.history == States(old(dir.files), inputs, merged, size)
    ensures dir.files == dir.history[|inputs| + 3]
  {
    hide TmpName, MergedName;
    ghost var files := dir.files;
    dir.Create(TmpName(merged));
    dir.Complete(TmpName(merged), merged, size);
    assert dir.files == WithTmp(files, merged, size);
    dir.Rename(TmpName(merged), MergedName(merged));
    assert dir.files == StateAt(files, inputs, merged, size, 3);
    for i := 0 to |inputs|
      invariant dir.files == StateAt(files, inputs, merged, size, i + 3)
      invariant dir.history == States(files, inputs, merged, size)[..i + 4]
    {
      assert inputs[..i + 1] == inputs[..i] + [inputs[i]];
      dir.Remove(inputs[i]);
    }
  }

  // ---- what is visible afterwards, and at every moment before ----

  /** The points with times from 0 on of the inputs, as a set. */
  ghost function Inputs(files: Files, names: seq<string>): set<DataPoint> {
    set n, p | n in names && p in PointsIn(files, n) && ALL_TIMES.Contains(p.ts) :: p
  }

  lemma {:induction false} GatheredSet(files: Files, names: seq<string>)
    requires forall n :: n in names ==> Readable(files, n)
    ensures PointSet(Gathered(files, names)) == Inputs(files, names)
    decreases |names|
  {
    if names != [] {
      var front, last := names[..|names| - 1], names[|names| - 1];
      assert names == front + [last];
      assert Readable(files, last) && last in names;
      GatheredSet(files, front);
      var content := files[last].content.value;
      FilterSet(content, ALL_TIMES);
      var more := SSTable.Filter(content, ALL_TIMES);
      assert PointSet(Gathered(files, front) + more) == PointSet(Gathered(files, front)) + PointSet(more);
      InputsSnoc(files, front, last);
    }
  }

  lemma InputsSnoc(files: Files, front: seq<string>, last: string)
    ensures Inputs(files, front + [last])
         == Inputs(files, front) + set p | p in PointsIn(files, last) && ALL_TIMES.Contains(p.ts)
  {
  }

  /** The names a compaction may change. */
  ghost function Touched(inputs: seq<string>, merged: seq<DataPoint>): seq<string>
    requires merged != []
  {
    inputs + [TmpName(merged), MergedName(merged)]
  }

  /** Whatever is not an input and bears neither of the two new names stays as it is, at every moment:
      large files, unreadable files, and files that are no SSTables. */
  lemma UntouchedKept(files: Files, inputs: seq<string>, merged: seq<DataPoint>, size: nat, k: nat, name: string)
    requires merged != [] && k < 4 + |inputs|
    requires name in files && name !in Touched(inputs, merged)
    ensures name in StateAt(files, inputs, merged, size, k)
    ensures StateAt(files, inputs, merged, size, k)[name] == files[name]
  {
  }

  /** What a finished compaction leaves visible, whatever the names and the times: the merged points
      are gone with their file if an input bore its name. */
  lemma FinalPoints(files: Files, inputs: seq<string>, merged: seq<DataPoint>, size: nat)
    requires merged != []
    ensures Visible(StateAt(files, inputs, merged, size, 3 + |inputs|))
         == Visible(Without(files, Touched(inputs, merged)))
            + (if MergedName(merged) in inputs then {} else PointSet(merged))
  {
    NamesDiffer(merged);
    var before, after := Without(files, Touched(inputs, merged)), StateAt(files, inputs, merged, size, 3 + |inputs|);
    assert inputs[..|inputs|] == inputs;
    assert forall n :: n in Touched(inputs, merged) <==> n in inputs || n == TmpName(merged) || n == MergedName(merged);
    forall n
      ensures PointsIn(after, n)
           == if n == MergedName(merged) && n !in inputs then PointSet(merged) else PointsIn(before, n)
    {
    }
    if MergedName(merged) !in inputs {
      assert PointsIn(after, MergedName(merged)) == PointSet(merged);
      assert MergedName(merged) in after;
    }
  }

  /** Every point of these files has a time the compaction reads. */
  ghost predicate TimesRead(files: Files, names: seq<string>) {
    forall n, p :: n in names && p in PointsIn(files, n) ==> ALL_TIMES.Contains(p.ts)
  }

  /** What a file of some name contributes to the k-th state. */
  lemma PointsAt(files: Files, inputs: seq<string>, merged: seq<DataPoint>, size: nat, k: nat, name: string)
    requires merged != [] && k < 4 + |inputs|
    ensures PointsIn(StateAt(files, inputs, merged, size, k), name)
         == if Holds(inputs, merged, k, name) then PointSet(merged)
            else if Leaves(inputs, merged, k, name) then PointsIn(files, name)
            else {}
  {
    NamesDiffer(merged);
  }

  /** The merged points are under this name in the k-th state. */
  predicate Holds(inputs: seq<string>, merged: seq<DataPoint>, k: nat, name: string)
    requires merged != [] && k < 4 + |inputs|
  {
    if k == 2 then name == TmpName(merged) else k >= 3 && name == MergedName(merged) && name !in inputs[..k - 3]
  }

  /** What was under this name is still there in the k-th state. */
  predicate Leaves(inputs: seq<string>, merged: seq<DataPoint>, k: nat, name: string)
    requires merged != [] && k < 4 + |inputs|
  {
    k == 0 || (name != TmpName(merged) && (k >= 3 ==> name != MergedName(merged) && name !in inputs[..k - 3]))
  }

  lemma IsVisible(files: Files, name: string, p: DataPoint)
    requires p in PointsIn(files, name)
    ensures p in Visible(files)
  {
  }

  /** One pass over a directory, up to the state at which a crash or its end leaves it. */
  datatype Pass = Pass(inputs: seq<string>, merged: seq<DataPoint>, size: nat, upTo: nat)

  ghost predicate IsPass(files: Files, pass: Pass) {
    && (forall n :: n in pass.inputs ==> Readable(files, n))
    && pass.merged != [] && Condenses(pass.merged, PointSet(Gathered(files, pass.inputs)))
    && pass.upTo < 4 + |pass.inputs|
  }

  ghost function After(files: Files, pass: Pass): Files
    requires IsPass(files, pass)
  {
    StateAt(files, pass.inputs, pass.merged, pass.size, pass.upTo)
  }

  /** The point is in a file that is left alone, or it was read and the merged points are in place. */
  ghost predicate Survives(files: Files, pass: Pass, p: DataPoint)
    requires IsPass(files, pass)
  {
    || (exists n :: p in PointsIn(files, n) && Leaves(pass.inputs, pass.merged, pass.upTo, n))
    || (p in Inputs(files, pass.inputs) && exists n :: Holds(pass.inputs, pass.merged, pass.upTo, n))
  }

  lemma MergedIsInputs(files: Files, inputs: seq<string>, merged: seq<DataPoint>)
    requires forall n :: n in inputs ==> Readable(files, n)
    requires Condenses(merged, PointSet(Gathered(files, inputs)))
    ensures PointSet(merged) <= Inputs(files, inputs) <= Visible(files)
    ensures Agree(Visible(files)) ==> PointSet(merged) == Inputs(files, inputs)
  {
    GatheredSet(files, inputs);
  }

  /** No pass makes a point visible, and of the visible ones exactly those stay that survive. There are
      no premises on names, on times, or on what an earlier crash left in the directory. */
  lemma VisibleAfter(files: Files, pass: Pass)
    requires IsPass(files, pass) && Agree(Visible(files))
    ensures forall p :: p in Visible(After(files, pass)) <==> p in Visible(files) && Survives(files, pass, p)
  {
    hide StateAt, PointsIn, Readable, Condenses, TmpName, MergedName, PointSet, TimesOf, Agree, Gathered, Leaves, Holds;
    var inputs, merged, k := pass.inputs, pass.merged, pass.upTo;
    MergedIsInputs(files, inputs, merged);
    var state := After(files, pass);
    forall p | p in Visible(files) && Survives(files, pass, p)
      ensures p in Visible(state)
    {
      if n :| p in PointsIn(files, n) && Leaves(inputs, merged, k, n) {
        PointsAt(files, inputs, merged, pass.size, k, n);
        NotBoth(inputs, merged, k, n);
        IsVisible(state, n, p);
      } else {
        var n :| Holds(inputs, merged, k, n);
        PointsAt(files, inputs, merged, pass.size, k, n);
        IsVisible(state, n, p);
      }
    }
    forall p | p in Visible(state)
      ensures p in Visible(files) && Survives(files, pass, p)
    {
      var n :| n in state && p in PointsIn(state, n);
      PointsAt(files, inputs, merged, pass.size, k, n);
      if !Holds(inputs, merged, k, n) {
        IsVisible(files, n, p);
      }
    }
  }

  lemma NotBoth(inputs: seq<string>, merged: seq<DataPoint>, k: nat, name: string)
    requires merged != [] && k < 4 + |inputs|
    ensures !(Holds(inputs, merged, k, name) && Leaves(inputs, merged, k, name))
  {
  }

  /** So a pass, finished or cut off at any state, preserves the visible points if and only if every one
      of them survives. */
  lemma PreservedIff(files: Files, pass: Pass)
    requires IsPass(files, pass) && Agree(Visible(files))
    ensures Visible(After(files, pass)) == Visible(files)
       <==> forall p :: p in Visible(files) ==> Survives(files, pass, p)
  {
    hide After, Visible, Survives, IsPass, Agree;
    VisibleAfter(files, pass);
  }

  /** No point is in two files. */
  ghost predicate Distinct(files: Files) {
    forall n, m, p :: p in PointsIn(files, n) && p in PointsIn(files, m) ==> n == m
  }

  /** Where no two files share a point, a finished pass preserves the visible points if and only if no
      file bears the merged file's name that is an input or holds a point, no input holds a negative
      time, and a file left under the temporary name is an input or holds no point. */
  lemma FinishedIff(files: Files, pass: Pass)
    requires IsPass(files, pass) && Agree(Visible(files)) && Distinct(files) && pass.upTo == 3 + |pass.inputs|
    ensures var name, tmp := MergedName(pass.merged), TmpName(pass.merged);
      Visible(After(files, pass)) == Visible(files)
      <==> && name !in pass.inputs && PointsIn(files, name) == {}
           && TimesRead(files, pass.inputs)
           && (tmp in pass.inputs || PointsIn(files, tmp) == {})
  {
    hide StateAt, PointsIn, Readable, Condenses, TmpName, MergedName, PointSet, TimesOf, Agree, Gathered, Visible;
    var inputs, merged, k := pass.inputs, pass.merged, pass.upTo;
    var name, tmp := MergedName(merged), TmpName(merged);
    assert inputs[..k - 3] == inputs;
    PreservedIff(files, pass);
    if name !in inputs && PointsIn(files, name) == {} && TimesRead(files, inputs) && (tmp in inputs || PointsIn(files, tmp) == {}) {
      assert Holds(inputs, merged, k, name);
      forall p | p in Visible(files)
        ensures Survives(files, pass, p)
      {
        var n := FileWith(files, p);
        if n in inputs {
          ReadPoint(files, inputs, n, p, |inputs|);
        } else {
          assert n != name && n != tmp && n !in inputs[..k - 3];
          assert Leaves(inputs, merged, k, n);
        }
      }
    } else {
      var p, n := Endangered(files, pass);
      IsVisible(files, n, p);
      assert !Survives(files, pass, p);
    }
  }

  lemma FileWith(files: Files, p: DataPoint) returns (n: string)
    requires p in Visible(files)
    ensures n in files && p in PointsIn(files, n)
  {
    n :| n in files && p in PointsIn(files, n);
  }

  /** A point that is lost. */
  lemma Endangered(files: Files, pass: Pass) returns (p: DataPoint, n: string)
    requires IsPass(files, pass) && Distinct(files) && pass.upTo == 3 + |pass.inputs|
    requires var name, tmp := MergedName(pass.merged), TmpName(pass.merged);
      || name in pass.inputs || PointsIn(files, name) != {} || !TimesRead(files, pass.inputs)
      || (tmp !in pass.inputs && PointsIn(files, tmp) != {})
    ensures p in PointsIn(files, n) && !Leaves(pass.inputs, pass.merged, pass.upTo, n)
    ensures n in pass.inputs ==> !ALL_TIMES.Contains(p.ts) || MergedName(pass.merged) in pass.inputs
  {
    hide PointsIn, Readable, Condenses, TmpName, MergedName, PointSet, Gathered;
    var inputs := pass.inputs;
    assert inputs[..pass.upTo - 3] == inputs;
    if MergedName(pass.merged) in inputs {
      MergedIsInputs(files, inputs, pass.merged);
      FirstOf(pass.merged);
      p := pass.merged[0];
      n :| n in inputs && p in PointsIn(files, n);
    } else if PointsIn(files, MergedName(pass.merged)) != {} {
      n := MergedName(pass.merged);
      p := AnyOf(PointsIn(files, n));
    } else if !TimesRead(files, inputs) {
      n, p :| n in inputs && p in PointsIn(files, n) && !ALL_TIMES.Contains(p.ts);
    } else {
      n := TmpName(pass.merged);
      p := AnyOf(PointsIn(files, n));
    }
  }

  lemma FirstOf(s: seq<DataPoint>)
    requires s != []
    ensures s[0] in PointSet(s)
  {
  }

  lemma AnyOf(points: set<DataPoint>) returns (p: DataPoint)
    requires points != {}
    ensures p in points
  {
    assert (forall q :: q !in points) ==> points == {};
    p :| p in points;
  }

  // ---- what no crash can lose ----

  /** Every point of the file under the temporary name, if there is one, is in another file as well. */
  ghost predicate TmpSpare(files: Files, merged: seq<DataPoint>)
    requires merged != []
  {
    forall p :: p in PointsIn(files, TmpName(merged)) ==> exists n :: n != TmpName(merged) && p in PointsIn(files, n)
  }

  /** With times from 0 on and equal times carrying equal values, if no file bears the merged file's name
      and a leftover under the temporary name holds nothing of its own, the visible points are the same
      in every state a crash can leave behind. */
  lemma NothingLost(files: Files, pass: Pass)
    requires IsPass(files, pass) && Agree(Visible(files)) && TimesRead(files, pass.inputs)
    requires MergedName(pass.merged) !in files && TmpSpare(files, pass.merged)
    ensures Visible(After(files, pass)) == Visible(files)
  {
    hide StateAt, PointsIn, Condenses, TmpName, MergedName, PointSet, TimesOf, Agree, Gathered, Visible, Readable;
    PreservedIff(files, pass);
    var inputs, merged, k := pass.inputs, pass.merged, pass.upTo;
    NotAmong(files, inputs, merged);
    forall p | p in Visible(files)
      ensures Survives(files, pass, p)
    {
      var n := FileWith(files, p);
      if n == TmpName(merged) {
        n :| n != TmpName(merged) && p in PointsIn(files, n);
      }
      NamedInputs(files, n, p);
      if k >= 3 && n in inputs[..k - 3] {
        ReadPoint(files, inputs, n, p, k - 3);
        assert forall m :: m in inputs[..k - 3] ==> m in inputs;
        assert Holds(inputs, merged, k, MergedName(merged));
      } else {
        assert Leaves(inputs, merged, k, n);
      }
    }
  }

  lemma ReadPoint(files: Files, inputs: seq<string>, n: string, p: DataPoint, k: nat)
    requires TimesRead(files, inputs) && k <= |inputs| && n in inputs[..k] && p in PointsIn(files, n)
    ensures n in inputs && p in Inputs(files, inputs)
  {
  }

  lemma NamedInputs(files: Files, n: string, p: DataPoint)
    requires p in PointsIn(files, n)
    ensures n in files
  {
  }

  lemma NotAmong(files: Files, inputs: seq<string>, merged: seq<DataPoint>)
    requires (forall n :: n in inputs ==> Readable(files, n)) && merged != [] && MergedName(merged) !in files
    ensures MergedName(merged) !in inputs
  {
  }

  /** Hence a read of any range returns the same points before the pass, after it, and after a crash at
      any moment of it. */
  lemma ReadsUnchanged(files: Files, pass: Pass, cached: Option<DataPoint>, range: TimeRange,
                       first: seq<DataPoint>, second: seq<DataPoint>)
    requires IsPass(files, pass) && Agree(Visible(files)) && TimesRead(files, pass.inputs)
    requires MergedName(pass.merged) !in files && TmpSpare(files, pass.merged)
    requires Agree(ReadPath.Sources(cached, files, range))
    requires Condenses(first, ReadPath.Sources(cached, files, range))
    requires Condenses(second, ReadPath.Sources(cached, After(files, pass), range))
    ensures first == second
  {
    hide *;
    NothingLost(files, pass);
    ReadPath.ReadsAgree(cached, files, After(files, pass), range, first, second);
  }

  // ---- passes one after another, each cut off by a crash or finished ----

  ghost predicate IsRun(files: Files, passes: seq<Pass>)
    decreases |passes|
  {
    passes != [] ==> IsPass(files, passes[0]) && IsRun(After(files, passes[0]), passes[1..])
  }

  ghost function AfterRun(files: Files, passes: seq<Pass>): Files
    requires IsRun(files, passes)
    decreases |passes|
  {
    if passes == [] then files else AfterRun(After(files, passes[0]), passes[1..])
  }

  /** At every pass every visible point survives. */
  ghost predicate AllSurvive(files: Files, passes: seq<Pass>)
    requires IsRun(files, passes)
    decreases |passes|
  {
    passes != [] ==>
      && (forall p :: p in Visible(files) ==> Survives(files, passes[0], p))
      && AllSurvive(After(files, passes[0]), passes[1..])
  }

  /** A run of passes preserves the visible points if and only if each of its passes does. */
  lemma {:induction false} RunPreservedIff(files: Files, passes: seq<Pass>)
    requires IsRun(files, passes) && Agree(Visible(files))
    ensures Visible(AfterRun(files, passes)) <= Visible(files)
    ensures Visible(AfterRun(files, passes)) == Visible(files) <==> AllSurvive(files, passes)
    decreases |passes|
  {
    hide IsPass, After, Survives, Visible;
    if passes != [] {
      VisibleAfter(files, passes[0]);
      PreservedIff(files, passes[0]);
      RunPreservedIff(After(files, passes[0]), passes[1..]);
    }
  }

  predicate IsTmp(name: string) {
    ".tmp_merge_" <= name
  }

  /** Every point of a leftover temporary file is in a file that is none. */
  ghost predicate TmpsSpare(files: Files) {
    forall n, p :: IsTmp(n) && p in PointsIn(files, n) ==> exists m :: !IsTmp(m) && p in PointsIn(files, m)
  }

  /** At every pass the merged file's name is free and no input holds a negative time. */
  ghost predicate NamesFree(files: Files, passes: seq<Pass>)
    requires IsRun(files, passes)
    decreases |passes|
  {
    passes != [] ==>
      && MergedName(passes[0].merged) !in files && TimesRead(files, passes[0].inputs)
      && NamesFree(After(files, passes[0]), passes[1..])
  }

  lemma TmpNames(merged: seq<DataPoint>)
    requires merged != []
    ensures IsTmp(TmpName(merged)) && !IsTmp(MergedName(merged))
  {
    assert MergedName(merged)[0] != ".tmp_merge_"[0];
  }

  /** The temporary file a crash leaves behind holds nothing of its own. */
  lemma TmpsStaySpare(files: Files, pass: Pass)
    requires IsPass(files, pass) && TmpsSpare(files) && Agree(Visible(files)) && TimesRead(files, pass.inputs)
    requires MergedName(pass.merged) !in files
    ensures TmpsSpare(After(files, pass))
  {
    hide StateAt, PointsIn, Condenses, TmpName, MergedName, PointSet, TimesOf, Agree, Gathered, Visible, Readable, IsTmp;
    var inputs, merged, k := pass.inputs, pass.merged, pass.upTo;
    var state := After(files, pass);
    TmpNames(merged);
    NotAmong(files, inputs, merged);
    MergedIsInputs(files, inputs, merged);
    forall n, p | IsTmp(n) && p in PointsIn(state, n)
      ensures exists m :: !IsTmp(m) && p in PointsIn(state, m)
    {
      PointsAt(files, inputs, merged, pass.size, k, n);
      var from := n;
      if Holds(inputs, merged, k, n) {
        from :| from in inputs && p in PointsIn(files, from);
      }
      if IsTmp(from) {
        from :| !IsTmp(from) && p in PointsIn(files, from);
      }
      NamedInputs(files, from, p);
      PointsAt(files, inputs, merged, pass.size, k, from);
      PointsAt(files, inputs, merged, pass.size, k, MergedName(merged));
      if k >= 3 && from in inputs[..k - 3] {
        ReadPoint(files, inputs, from, p, k - 3);
        assert forall m :: m in inputs[..k - 3] ==> m in inputs;
        assert p in PointsIn(state, MergedName(merged));
      } else {
        assert Leaves(inputs, merged, k, from) && !Holds(inputs, merged, k, from);
      }
    }
  }

  /** So over any number of passes, each finished or cut off by a crash at any state, nothing is lost
      while the names of the merged files are free and times are from 0 on. */
  lemma {:induction false} RunNothingLost(files: Files, passes: seq<Pass>)
    requires IsRun(files, passes) && Agree(Visible(files)) && TmpsSpare(files) && NamesFree(files, passes)
    ensures Visible(AfterRun(files, passes)) == Visible(files)
    decreases |passes|
  {
    hide IsPass, After, Visible, MergedName, TimesRead, TmpsSpare, PointsIn;
    if passes != [] {
      SpareOne(files, passes[0]);
      NothingLost(files, passes[0]);
      TmpsStaySpare(files, passes[0]);
      RunNothingLost(After(files, passes[0]), passes[1..]);
    }
  }

  lemma SpareOne(files: Files, pass: Pass)
    requires TmpsSpare(files) && IsPass(files, pass)
    ensures TmpSpare(files, pass.merged)
  {
    hide PointsIn, TmpName, MergedName, IsTmp;
    TmpNames(pass.merged);
    forall p | p in PointsIn(files, TmpName(pass.merged))
      ensures exists n :: n != TmpName(pass.merged) && p in PointsIn(files, n)
    {
      var m :| !IsTmp(m) && p in PointsIn(files, m);
    }
  }

  // ---- a pass that follows a crash after the rename ----

  /** After a crash behind the rename, a pass over the merged file and what is left of the inputs makes a
      file of the same points and the same name. It replaces that file and removes it. */
  lemma RetryAfterRename(files: Files, pass: Pass, retry: Pass)
    requires IsPass(files, pass) && Agree(Visible(files)) && pass.upTo >= 3
    requires MergedName(pass.merged) !in pass.inputs
    requires IsPass(After(files, pass), retry) && retry.upTo == 3 + |retry.inputs|
    requires MergedName(pass.merged) in retry.inputs
    requires forall n :: n in retry.inputs ==> n in pass.inputs || n == MergedName(pass.merged)
    ensures retry.merged == pass.merged
    ensures Visible(After(After(files, pass), retry))
         == Visible(Without(After(files, pass), Touched(retry.inputs, pass.merged)))
  {
    hide StateAt, PointsIn, Readable, Condenses, TmpName, MergedName, PointSet, TimesOf, Agree, Gathered, Visible, Without;
    var state := After(files, pass);
    VisibleAfter(files, pass);
    AgreeSubset(Visible(state), Visible(files));
    MergedIsInputs(files, pass.inputs, pass.merged);
    MergedIsInputs(state, retry.inputs, retry.merged);
    SameInputs(files, pass, retry);
    SameMerged(files, pass, retry);
    FinalPoints(state, retry.inputs, retry.merged, retry.size);
  }

  lemma AgreeSubset(a: set<DataPoint>, b: set<DataPoint>)
    requires Agree(b) && forall p :: p in a ==> p in b
    ensures Agree(a)
  {
  }

  lemma SameInputs(files: Files, pass: Pass, retry: Pass)
    requires IsPass(files, pass) && Agree(Visible(files)) && pass.upTo >= 3
    requires MergedName(pass.merged) !in pass.inputs
    requires IsPass(After(files, pass), retry) && MergedName(pass.merged) in retry.inputs
    requires forall n :: n in retry.inputs ==> n in pass.inputs || n == MergedName(pass.merged)
    ensures Inputs(After(files, pass), retry.inputs) == Inputs(files, pass.inputs)
  {
    hide StateAt, PointsIn, Readable, Condenses, TmpName, MergedName, PointSet, TimesOf, Agree, Gathered, Visible;
    var inputs, merged, k, name, state := pass.inputs, pass.merged, pass.upTo, MergedName(pass.merged), After(files, pass);
    MergedIsInputs(files, inputs, merged);
    PointsAt(files, inputs, merged, pass.size, k, name);
    assert forall m :: m in inputs[..k - 3] ==> m in inputs;
    assert PointsIn(state, name) == Inputs(files, inputs);
    forall n, p | n in retry.inputs && p in PointsIn(state, n) && ALL_TIMES.Contains(p.ts)
      ensures p in Inputs(files, inputs)
    {
      PointsAt(files, inputs, merged, pass.size, k, n);
      assert n != name ==> p in PointsIn(files, n);
    }
  }

  lemma SameMerged(files: Files, pass: Pass, retry: Pass)
    requires IsPass(files, pass) && IsPass(After(files, pass), retry)
    requires PointSet(pass.merged) == PointSet(retry.merged)
    ensures retry.merged == pass.merged
  {
    hide StateAt, PointsIn, Readable, Gathered;
    IncreasingDetermined(retry.merged, pass.merged);
  }

  lemma TwoInputs(first: string, a: seq<DataPoint>, second: string, b: seq<DataPoint>, size: nat)
    requires IsTable(first) && IsTable(second) && first != second
    requires forall p :: p in a + b ==> ALL_TIMES.Contains(p.ts)
    ensures
      var files := map[first := File(size, Some(a)), second := File(size, Some(b))];
      && Visible(files) == PointSet(a + b)
      && Inputs(files, [first, second]) == PointSet(a + b)
      && (forall n :: n in [first, second] ==> Readable(files, n))
  {
    var files := map[first := File(size, Some(a)), second := File(size, Some(b))];
    assert PointsIn(files, first) == PointSet(a) && PointsIn(files, second) == PointSet(b);
    assert forall n :: n in files <==> n == first || n == second;
    assert first in [first, second] && second in [first, second];
    forall p | p in PointSet(a + b)
      ensures p in Visible(files) && p in Inputs(files, [first, second])
    {
      if p in a {
        assert p in PointsIn(files, first);
      } else {
        assert p in PointsIn(files, second);
      }
    }
  }

  /** A late point between the ends of an earlier merged file: the second merge gets the same name,
      replaces that file and then removes it as one of its inputs. Nothing is left. */
  lemma MergedTwice(p: DataPoint, late: DataPoint, q: DataPoint, size: nat)
    requires p.ts == 5 && late.ts == 7 && q.ts == 9
    ensures
      var files := map["merged_5_9.sst" := File(size, Some([p, q])), "x.sst" := File(size, Some([late]))];
      var inputs := ["merged_5_9.sst", "x.sst"];
      && (forall n :: n in inputs ==> Readable(files, n))
      && Condenses([p, late, q], PointSet(Gathered(files, inputs)))
      && Visible(files) == {p, late, q}
      && Visible(StateAt(files, inputs, [p, late, q], size, 5)) == {}
  {
    hide PointsIn, Readable, Gathered, StateAt, Visible, Without, Inputs;
    var first, second := "merged_5_9.sst", "x.sst";
    var files := map[first := File(size, Some([p, q])), second := File(size, Some([late]))];
    var inputs, merged := [first, second], [p, late, q];
    assert first[|first| - 4..] == ".sst" && second[|second| - 4..] == ".sst";
    assert first != second by { assert first[0] != second[0]; }
    TwoInputs(first, [p, q], second, [late], size);
    assert PointSet([p, q] + [late]) == {p, late, q} == PointSet(merged);
    GatheredSet(files, inputs);
    FinalPoints(files, inputs, merged, size);
    assert MergedName(merged) == first by { assert Decimal(5) == "5" && Decimal(9) == "9"; }
    assert first in inputs;
    NothingElse(files, inputs, merged);
  }

  lemma NothingElse(files: Files, inputs: seq<string>, merged: seq<DataPoint>)
    requires merged != [] && forall n :: n in files ==> n in inputs
    ensures Visible(Without(files, Touched(inputs, merged))) == {}
  {
    assert forall n :: n in inputs ==> n in Touched(inputs, merged);
  }

  /** Two small files, a crash right after the rename, and one more pass: nothing is left. */
  lemma CrashedThenRetried(p: DataPoint, q: DataPoint, size: nat) returns (first: Pass, second: Pass)
    requires p.ts == 5 && q.ts == 9
    ensures var files := map["a.sst" := File(size, Some([p])), "b.sst" := File(size, Some([q]))];
      && Visible(files) == {p, q}
      && IsRun(files, [first, second]) && first.upTo == 3
      && second.inputs == ["a.sst", "b.sst", "merged_5_9.sst"]
      && Visible(AfterRun(files, [first, second])) == {}
  {
    hide PointsIn, Readable, Gathered, StateAt, Visible, Without, Inputs, Condenses, AfterRun, IsRun, IsPass;
    var a, b, name := "a.sst", "b.sst", "merged_5_9.sst";
    var files := map[a := File(size, Some([p])), b := File(size, Some([q]))];
    var inputs, merged := [a, b], [p, q];
    ExampleNames(merged);
    TwoInputs(a, [p], b, [q], size);
    assert PointSet([p] + [q]) == {p, q} == PointSet(merged);
    TwoCondense(merged);
    GatheredSet(files, inputs);
    first := Pass(inputs, merged, size, 3);
    assert IsPass(files, first) by { MakePass(files, first); }
    var state := After(files, first);
    second := Pass([a, b, name], merged, size, 6);
    Renaming(a, b, p, q, merged, size);
    ThreeInputs(a, [p], b, [q], name, merged, size, size);
    assert PointSet([p] + [q] + merged) == {p, q};
    GatheredSet(state, second.inputs);
    assert IsPass(state, second) by { MakePass(state, second); }
    RetryAfterRename(files, first, second);
    NothingElse(state, second.inputs, merged);
    TwoPasses(files, first, second);
  }

  lemma Renaming(a: string, b: string, p: DataPoint, q: DataPoint, merged: seq<DataPoint>, size: nat)
    requires merged != [] && a != b && TmpName(merged) != a && TmpName(merged) != b && TmpName(merged) != MergedName(merged)
    requires MergedName(merged) != a && MergedName(merged) != b
    ensures StateAt(map[a := File(size, Some([p])), b := File(size, Some([q]))], [a, b], merged, size, 3)
         == map[a := File(size, Some([p])), b := File(size, Some([q])), MergedName(merged) := File(size, Some(merged))]
  {
    hide TmpName, MergedName;
  }

  lemma ThreeInputs(a: string, pa: seq<DataPoint>, b: string, pb: seq<DataPoint>, c: string, pc: seq<DataPoint>,
                    size: nat, large: nat)
    requires IsTable(a) && IsTable(b) && IsTable(c) && a != b && a != c && b != c
    requires forall p :: p in pa + pb + pc ==> ALL_TIMES.Contains(p.ts)
    ensures
      var files := map[a := File(size, Some(pa)), b := File(size, Some(pb)), c := File(large, Some(pc))];
      && Visible(files) == PointSet(pa + pb + pc)
      && Inputs(files, [a, b]) == PointSet(pa + pb)
      && Inputs(files, [a, b, c]) == PointSet(pa + pb + pc)
      && (forall n :: n in [a, b, c] ==> Readable(files, n))
      && PointsIn(files, c) == PointSet(pc)
  {
    var files := map[a := File(size, Some(pa)), b := File(size, Some(pb)), c := File(large, Some(pc))];
    assert PointsIn(files, a) == PointSet(pa) && PointsIn(files, b) == PointSet(pb) && PointsIn(files, c) == PointSet(pc);
    assert forall n :: n in files <==> n == a || n == b || n == c;
    hide PointsIn;
    assert a in [a, b] && b in [a, b] && a in [a, b, c] && b in [a, b, c] && c in [a, b, c];
    forall p | p in PointSet(pa + pb + pc)
      ensures p in Visible(files) && p in Inputs(files, [a, b, c])
    {
      var n := if p in pa then a else if p in pb then b else c;
      assert n in files && p in PointsIn(files, n);
    }
    forall p | p in PointSet(pa + pb)
      ensures p in Inputs(files, [a, b])
    {
      var n := if p in pa then a else b;
      assert n in [a, b] && p in PointsIn(files, n) && p in pa + pb + pc;
    }
  }

  lemma MakePass(files: Files, pass: Pass)
    requires (forall n :: n in pass.inputs ==> Readable(files, n)) && pass.merged != []
    requires Condenses(pass.merged, PointSet(Gathered(files, pass.inputs))) && pass.upTo < 4 + |pass.inputs|
    ensures IsPass(files, pass)
  {
  }

  lemma TwoPasses(files: Files, first: Pass, second: Pass)
    requires IsPass(files, first) && IsPass(After(files, first), second)
    ensures IsRun(files, [first, second])
    ensures AfterRun(files, [first, second]) == After(After(files, first), second)
  {
    hide IsPass, After;
    var passes, state := [first, second], After(files, first);
    assert passes[1..] == [second] && [second][1..] == [];
    assert IsRun(After(state, second), []) && AfterRun(After(state, second), []) == After(state, second);
    assert IsRun(state, [second]) && AfterRun(state, [second]) == AfterRun(After(state, second), [second][1..]);
  }

  lemma ExampleNames(merged: seq<DataPoint>)
    requires merged != [] && merged[0].ts == 5 && merged[|merged| - 1].ts == 9
    ensures MergedName(merged) == "merged_5_9.sst" && TmpName(merged) == ".tmp_merge_5_9.sst"
    ensures IsTable("a.sst") && IsTable("b.sst") && IsTable("merged_5_9.sst")
    ensures "a.sst" != "b.sst" && "a.sst" != "merged_5_9.sst" && "b.sst" != "merged_5_9.sst"
    ensures ".tmp_merge_5_9.sst" != "a.sst" && ".tmp_merge_5_9.sst" != "b.sst" && ".tmp_merge_5_9.sst" != "merged_5_9.sst"
  {
    assert Decimal(5) == "5" && Decimal(9) == "9";
    assert "a.sst"[0] == 'a' && "b.sst"[0] == 'b' && "merged_5_9.sst"[0] == 'm' && ".tmp_merge_5_9.sst"[0] == '.';
    assert "a.sst"[1..] == ".sst" && "b.sst"[1..] == ".sst" && "merged_5_9.sst"[10..] == ".sst";
  }

  /** A large file that is no input but bears the merged file's name is replaced. */
  lemma LargeReplaced(p: DataPoint, r: DataPoint, q: DataPoint, size: nat, large: nat) returns (pass: Pass)
    requires p.ts == 5 && r.ts == 7 && q.ts == 9
    ensures var files := map["a.sst" := File(size, Some([p])), "b.sst" := File(size, Some([q])),
                             "merged_5_9.sst" := File(large, Some([r]))];
      && Visible(files) == {p, r, q}
      && IsPass(files, pass) && pass.inputs == ["a.sst", "b.sst"] && pass.upTo == 5
      && Visible(After(files, pass)) == {p, q}
  {
    hide PointsIn, Readable, Gathered, StateAt, Visible, Without, Inputs, Condenses, IsPass;
    var a, b, name := "a.sst", "b.sst", "merged_5_9.sst";
    var files := map[a := File(size, Some([p])), b := File(size, Some([q])), name := File(large, Some([r]))];
    var inputs, merged := [a, b], [p, q];
    ExampleNames(merged);
    ThreeInputs(a, [p], b, [q], name, [r], size, large);
    assert PointSet([p] + [q] + [r]) == {p, r, q} && PointSet([p] + [q]) == {p, q} == PointSet(merged);
    TwoCondense(merged);
    GatheredSet(files, inputs);
    pass := Pass(inputs, merged, size, 5);
    assert IsPass(files, pass) by { MakePass(files, pass); }
    FinalPoints(files, inputs, merged, size);
    AfterIs(files, pass);
    AllTouched(files, inputs, merged);
  }

  lemma AfterIs(files: Files, pass: Pass)
    requires IsPass(files, pass)
    ensures After(files, pass) == StateAt(files, pass.inputs, pass.merged, pass.size, pass.upTo)
  {
  }

  lemma AllTouched(files: Files, inputs: seq<string>, merged: seq<DataPoint>)
    requires merged != [] && forall n :: n in files ==> n in inputs || n == MergedName(merged)
    ensures Visible(Without(files, Touched(inputs, merged))) == {}
  {
    hide MergedName, TmpName;
    assert forall n :: n in inputs ==> n in Touched(inputs, merged);
    assert MergedName(merged) in Touched(inputs, merged);
  }

  lemma TwoCondense(merged: seq<DataPoint>)
    requires |merged| == 2 && merged[0].ts < merged[1].ts
    ensures Condenses(merged, PointSet(merged)) && Agree(PointSet(merged))
  {
  }
}
