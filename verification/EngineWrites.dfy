/** One call of Write: the state in which it returns, and when its record is durable from then on. */
module EngineWrites {
  import opened Words
  import opened BlockCodec
  import opened MemTable
  import opened Engine
  import opened EngineRuns

  /** The steps of one call of Write. */
  function WriteSteps(s: State, r: Record, date: nat): seq<Step>
    requires s.cfg.pointSize > 0
  {
    [BeginWrite(r), FinishAppend, AddToMemory]
    + if |Held(s.mem, r.tag)| + 1 >= BatchOf(s.cfg, r.tag) then [OpenFile(date), CloseFile] else []
  }

  /** The state in which a Write returns. */
  function Written(s: State, r: Record, date: nat): State
    requires s.cfg.pointSize > 0 && s.log.Some?
  {
    var log := s.log.value;
    var points := Held(s.mem, r.tag) + [r.point];
    var log' := if log.torn then log.(unread := log.unread + [r]) else log.(entries := log.entries + [r]);
    var s' := s.(log := Some(log'), logged := s.logged + [r], acked := s.acked + [r], mem := s.mem[r.tag := points],
                 behind := if log.torn then s.behind + {r} else s.behind);
    if |points| >= BatchOf(s.cfg, r.tag)
    then s'.(files := s.files[Name(r.tag, date, points[0].ts) := Complete(points)], mem := s.mem[r.tag := []])
    else s'
  }

  lemma WriteReturns(s: State, r: Record, date: nat)
    requires s.cfg.pointSize > 0 && s.log.Some? && s.phase == Up
    ensures Run(s, WriteSteps(s, r, date)) == Some(Written(s, r, date))
    ensures Fresh(s.logged, r) ==> AllAllowed(s, WriteSteps(s, r, date))
  {
    hide BatchOf, Run, Apply, AllAllowed, Of;
    var flush := if |Held(s.mem, r.tag)| + 1 >= BatchOf(s.cfg, r.tag) then [OpenFile(date), CloseFile] else [];
    assert WriteSteps(s, r, date) == [BeginWrite(r)] + ([FinishAppend] + ([AddToMemory] + flush));
    var s3 := LoggedAndAdded(s, r, [AddToMemory] + flush);
    RunStep(s3.0, AddToMemory, flush);
    if flush == [] {
      RunNothing(s3.1);
    } else {
      FileWritten(s3.1, r.tag, date, AfterWrite(r));
      Overwritten(s.mem, r.tag, Held(s.mem, r.tag) + [r.point], []);
    }
  }

  lemma Overwritten<K, V>(m: map<K, V>, k: K, v: V, w: V)
    ensures m[k := v][k := w] == m[k := w]
  {
  }

  /** The states before and after the point is added to memory. */
  lemma LoggedAndAdded(s: State, r: Record, rest: seq<Step>) returns (x: (State, State))
    requires s.cfg.pointSize > 0 && s.log.Some? && s.phase == Up
    ensures x.0.cfg == s.cfg && Run(s, [BeginWrite(r)] + ([FinishAppend] + rest)) == Run(x.0, rest)
    ensures Fresh(s.logged, r) && AllAllowed(x.0, rest) ==> AllAllowed(s, [BeginWrite(r)] + ([FinishAppend] + rest))
    ensures Apply(x.0, AddToMemory) == Some(x.1)
    ensures var log := s.log.value;
            var log' := if log.torn then log.(unread := log.unread + [r]) else log.(entries := log.entries + [r]);
            x.1 == AddRecord(s.(log := Some(log'), logged := s.logged + [r], phase := Appended(r),
                                behind := if log.torn then s.behind + {r} else s.behind), r, AfterWrite(r))
  {
    hide Run, AddRecord, AllAllowed, Of;
    var s1 := Apply(s, BeginWrite(r)).value;
    var s2 := Apply(s1, FinishAppend).value;
    RunStep(s, BeginWrite(r), [FinishAppend] + rest);
    RunStep(s1, FinishAppend, rest);
    x := (s2, Apply(s2, AddToMemory).value);
  }

  lemma FileWritten(s: State, tag: Tag, date: nat, after: After)
    requires s.cfg.pointSize > 0 && s.phase == Flushing(tag, after) && Held(s.mem, tag) != []
    ensures var points := Held(s.mem, tag);
            AllAllowed(s, [OpenFile(date), CloseFile]) && Run(s, [OpenFile(date), CloseFile]) ==
            Some(Resume(s.(files := s.files[Name(tag, date, points[0].ts) := Complete(points)],
                           mem := s.mem[tag := []]), after))
  {
    hide Run, AllAllowed;
    var s1 := Apply(s, OpenFile(date)).value;
    var s2 := Apply(s1, CloseFile).value;
    assert [OpenFile(date), CloseFile] == [OpenFile(date)] + ([CloseFile] + []);
    RunStep(s, OpenFile(date), [CloseFile] + []);
    RunStep(s1, CloseFile, []);
    RunNothing(s2);
    var n := FileName(s, tag, date);
    assert s.files[n := Incomplete][n := Complete(Held(s.mem, tag))] == s.files[n := Complete(Held(s.mem, tag))];
  }

  lemma WrittenInv(s: State, r: Record, date: nat)
    requires Inv(s) && s.phase == Up && Fresh(s.logged, r)
    ensures s.cfg.pointSize > 0 && s.log.Some?
    ensures Inv(Written(s, r, date)) && Written(s, r, date).cfg == s.cfg
    ensures Run(s, WriteSteps(s, r, date)) == Some(Written(s, r, date)) && AllAllowed(s, WriteSteps(s, r, date))
  {
    assert s.cfg.pointSize > 0 && s.log.Some? by { hide Of, OldStored, FilesOk, FlushedOnce, TailOk; }
    hide Inv, Run, AllAllowed, WriteSteps, BatchOf, Of;
    WriteReturns(s, r, date);
    RunKeeps(s, WriteSteps(s, r, date));
  }

  /** The first point of the batch that the write fills or extends. */
  function FirstOf(s: State, r: Record): DataPoint {
    (Held(s.mem, r.tag) + [r.point])[0]
  }

  /** A Write that returns has made its point durable for every run that may follow if and only if the
      log was not torn when it was called, or the point filled a buffer whose first point is none of
      the readable log. */
  lemma WriteDurableIff(s: State, r: Record, date: nat)
    requires Inv(s) && s.phase == Up && Fresh(s.logged, r)
    ensures s.cfg.pointSize > 0 && s.log.Some? && Run(s, WriteSteps(s, r, date)) == Some(Written(s, r, date))
    ensures r in Written(s, r, date).acked
    ensures AlwaysRecoverable(Written(s, r, date), r)
       <==> !Torn(s.log) || (|Held(s.mem, r.tag)| + 1 >= BatchOf(s.cfg, r.tag)
                             && NotNamed(FirstOf(s, r).ts, Of(Entries(s.log), r.tag)))
  {
    WrittenInv(s, r, date);
    var s' := Written(s, r, date);
    if !Torn(s.log) {
      ReadableAlways(s, r, date);
    } else if Safe(s', r) {
      forall steps | AllAllowed(s', steps) && Run(s', steps).Some?
        ensures Recoverable(Run(s', steps).value, r)
      {
        RunSafe(s', steps, r);
      }
    } else {
      CrashLoses(s, r, date);
    }
    if Torn(s.log) {
      SafeIff(s, r, date);
    }
  }

  /** A record in the readable log was not logged behind a tear, and stays so. */
  lemma ReadableAlways(s: State, r: Record, date: nat)
    requires Inv(s) && s.phase == Up && Fresh(s.logged, r) && s.cfg.pointSize > 0 && s.log.Some? && !Torn(s.log)
    requires Inv(Written(s, r, date)) && Written(s, r, date).cfg == s.cfg
    ensures AlwaysRecoverable(Written(s, r, date), r)
  {
    hide Run, AllAllowed, Of, BatchOf, OldStored, FilesOk, FlushedOnce, MemOk, TailOk, Recoverable;
    var s' := Written(s, r, date);
    NewRecord(s, r);
    assert r in s'.logged && r !in s'.behind;
    hide Inv;
    forall steps | AllAllowed(s', steps) && Run(s', steps).Some?
      ensures Recoverable(Run(s', steps).value, r)
    {
      RunKeeps(s', steps);
      StaysReadable(s', steps, r);
      InvDurable(Run(s', steps).value, r);
    }
  }

  lemma NewRecord(s: State, r: Record)
    requires HistoryOk(s) && Fresh(s.logged, r)
    ensures r !in s.logged && r !in s.behind
  {
    hide Of;
    OfMember(s.logged, r.tag, r.point);
  }

  lemma {:induction false} StaysReadable(s: State, steps: seq<Step>, r: Record)
    requires Inv(s) && s.cfg.pointSize > 0 && AllAllowed(s, steps) && Run(s, steps).Some?
    requires r in s.logged && r !in s.behind
    ensures var s' := Run(s, steps).value; r in s'.logged && r !in s'.behind
    decreases |steps|
  {
    hide Inv, Apply, Of;
    if steps != [] {
      var s1 := Apply(s, steps[0]).value;
      StepKeeps(s, steps[0]);
      CfgKept(s, steps[0]);
      StepStaysReadable(s, steps[0], r);
      StaysReadable(s1, steps[1..], r);
    }
  }

  lemma StepStaysReadable(s: State, step: Step, r: Record)
    requires Inv(s) && s.cfg.pointSize > 0 && Apply(s, step).Some? && r in s.logged && r !in s.behind
    ensures r in Apply(s, step).value.logged && r !in Apply(s, step).value.behind
  {
    hide Of, OldStored, FilesOk, FlushedOnce, MemOk, TailOk;
    if step.FinishAppend? {
      NewRecord(s, s.phase.record);
      var s' := Apply(s, step).value;
      hide Apply;
      AppendedLog(s, s', s.phase.record);
    } else {
      hide HistoryOk, PhaseOk, BatchOf, FileName;
    }
  }

  /** What the crash right after a write on a torn log leaves. */
  lemma CrashLoses(s: State, r: Record, date: nat)
    requires Inv(s) && s.phase == Up && Fresh(s.logged, r) && s.cfg.pointSize > 0 && s.log.Some? && Torn(s.log)
    requires Inv(Written(s, r, date)) && !Safe(Written(s, r, date), r)
    ensures !AlwaysRecoverable(Written(s, r, date), r)
  {
    hide Inv, Run, AllAllowed, Of, BatchOf, Kept, Recoverable;
    var s' := Written(s, r, date);
    var down := Apply(s', Crash(false)).value;
    StepKeeps(s', Crash(false));
    assert r in Unread(down.log) && Entries(down.log) == Entries(s'.log) && down.files == s'.files;
    assert down.cfg == s'.cfg && down.phase == Down;
    var steps := LosingRun(down, r);
    RunStep(s', Crash(false), steps);
    assert Allowed(s', Crash(false));
  }

  lemma SafeIff(s: State, r: Record, date: nat)
    requires Inv(s) && s.phase == Up && Fresh(s.logged, r) && s.cfg.pointSize > 0 && s.log.Some? && Torn(s.log)
    ensures Safe(Written(s, r, date), r)
       <==> |Held(s.mem, r.tag)| + 1 >= BatchOf(s.cfg, r.tag) && NotNamed(FirstOf(s, r).ts, Of(Entries(s.log), r.tag))
  {
    hide Of, BatchOf, OldStored, FlushedOnce, MemOk, TailOk, FilesOk, NotNamed;
    DiskLogged(s, r.tag, r.point);
    NewRecord(s, r);
    var s' := Written(s, r, date);
    assert Entries(s'.log) == Entries(s.log);
    var n0 := Name(r.tag, date, FirstOf(s, r).ts);
    var w := Of(Entries(s.log), r.tag);
    if |Held(s.mem, r.tag)| + 1 >= BatchOf(s.cfg, r.tag) {
      var points := Held(s.mem, r.tag) + [r.point];
      assert points[|points| - 1] == r.point;
      assert s'.files[n0] == Complete(points);
      forall n | n in s'.files && n.tag == r.tag && s'.files[n].Complete? && r.point in s'.files[n].points
        ensures n == n0
      {
        assert n != n0 ==> OnDisk(s.files, r.tag, r.point);
      }
    } else {
      KeptNowhere(s, r, w);
    }
  }

  lemma KeptNowhere(s: State, r: Record, w: seq<DataPoint>)
    requires !OnDisk(s.files, r.tag, r.point)
    ensures !Kept(s.files, r.tag, r.point, w)
  {
  }

  // ---- a buffer that was filled, and yet lost ----

  /** A restart of an engine whose readable log is one record, of a buffer that takes more. */
  lemma RestartRun(s: State, a: Record) returns (steps: seq<Step>)
    requires s.cfg.pointSize > 0 && s.phase == Down && s.log.Some? && Entries(s.log) == [a] && BatchOf(s.cfg, a.tag) > 1
    ensures AllAllowed(s, steps)
    ensures Run(s, steps) == Some(s.(mem := map[a.tag := [a.point]], phase := Up))
  {
    hide BatchOf, Run, AllAllowed;
    var s1 := Apply(s, Start).value;
    assert [] + [a.point] == [a.point];
    var s2 := Apply(s1, ReplayOne).value;
    assert s2.mem == map[a.tag := [a.point]] && s2.phase == Replaying(1);
    var s3 := Apply(s2, ReplayDone).value;
    RunNothing(s3);
    RunStep(s2, ReplayDone, []);
    RunStep(s1, ReplayOne, [ReplayDone] + []);
    RunStep(s, Start, [ReplayOne] + ([ReplayDone] + []));
    steps := [Start] + ([ReplayOne] + ([ReplayDone] + []));
  }

  /** A crash, and a restart. */
  lemma CrashRun(s: State, a: Record) returns (steps: seq<Step>)
    requires s.cfg.pointSize > 0 && s.phase == Up && s.log.Some? && Entries(s.log) == [a] && BatchOf(s.cfg, a.tag) > 1
    ensures AllAllowed(s, steps)
    ensures Run(s, steps) == Some(s.(mem := map[a.tag := [a.point]], base := |Unread(s.log)|))
  {
    hide BatchOf, Run, AllAllowed;
    var down := Apply(s, Crash(false)).value;
    var restart := RestartRun(down, a);
    RunStep(s, Crash(false), restart);
    steps := [Crash(false)] + restart;
    assert s.orphans + [] == s.orphans;
  }

  const ANY := Name([], 0, 0)

  /** A buffer of two points. a is written, x is cut off by a crash, b fills its buffer with a and is
      acknowledged; after one more crash c does the same, and its file takes the place of b's. */
  lemma FilledYetLost(a: Record, x: Record, b: Record, c: Record) returns (steps: seq<Step>)
    requires a.tag == x.tag == b.tag == c.tag == []
    requires a.point.ts < x.point.ts && a.point.ts < b.point.ts < c.point.ts
    ensures var start := Initial(Config(2, 1));
      && AllAllowed(start, steps) && Run(start, steps).Some?
      && var s := Run(start, steps).value;
         b in s.acked && c in s.acked && b in s.behind && !Recoverable(s, b)
         && s.files == map[Name([], 0, a.point.ts) := Complete([a.point, c.point])]
  {
    hide Run, AllAllowed, WriteSteps, Written;
    var start := Initial(Config(2, 1));
    assert BatchOf(start.cfg, []) == 2;
    var first, s1 := FirstBoot(start);
    FirstRecords(a, x, b, c);
    OneWrite(s1, a);
    var s2 := Written(s1, a, 0);
    WrittenA(s1, a);
    var cut, s3 := CutAppend(s2, a, x);
    OneWrite(s3, b);
    var s4 := Written(s3, b, 0);
    WrittenB(s3, a, b);
    var crash := CrashRun(s4, a);
    var s5 := s4.(mem := map[[] := [a.point]], base := 1);
    OneWrite(s5, c);
    WrittenC(s5, a, b, c);
    Chain(s4, crash, WriteSteps(s5, c, 0), ANY);
    Chain(s3, WriteSteps(s3, b, 0), crash + WriteSteps(s5, c, 0), ANY);
    Chain(s2, cut, WriteSteps(s3, b, 0) + (crash + WriteSteps(s5, c, 0)), ANY);
    Chain(s1, WriteSteps(s1, a, 0), cut + (WriteSteps(s3, b, 0) + (crash + WriteSteps(s5, c, 0))), ANY);
    steps := first + (WriteSteps(s1, a, 0) + (cut + (WriteSteps(s3, b, 0) + (crash + WriteSteps(s5, c, 0)))));
    Chain(start, first, WriteSteps(s1, a, 0) + (cut + (WriteSteps(s3, b, 0) + (crash + WriteSteps(s5, c, 0)))), ANY);
  }

  lemma FirstRecords(a: Record, x: Record, b: Record, c: Record)
    requires a.tag == x.tag == b.tag == c.tag
    requires a.point.ts < x.point.ts && a.point.ts < b.point.ts < c.point.ts
    ensures Fresh([], a) && Fresh([a], x) && Fresh([a], b) && Fresh([a, b], c)
  {
    var tag := a.tag;
    EmptyOf();
    OfSnoc([], a, tag);
    OfSnoc([a], b, tag);
    assert [] + [a] == [a] && [a] + [b] == [a, b];
  }

  lemma WrittenA(s: State, a: Record)
    requires s == Initial(Config(2, 1)).(log := Some(Log([], false, [])), phase := Up) && a.tag == []
    ensures var s' := Written(s, a, 0);
      && s'.log == Some(Log([a], false, [])) && s'.logged == [a] && s'.files == map[] && s'.behind == {}
      && s'.cfg == s.cfg && s'.phase == Up && s'.base == 0 && s'.acked == [a]
  {
    assert [] + [a] == [a] && [] + [a.point] == [a.point];
  }

  lemma WrittenB(s: State, a: Record, b: Record)
    requires s.cfg == Config(2, 1) && s.log == Some(Log([a], true, [])) && s.mem == map[[] := [a.point]]
    requires s.files == map[] && s.logged == [a] && a.tag == b.tag == []
    ensures var s' := Written(s, b, 0);
      && s'.log == Some(Log([a], true, [b])) && s'.logged == [a, b] && b in s'.behind && b in s'.acked
      && s'.files == map[Name([], 0, a.point.ts) := Complete([a.point, b.point])]
      && s'.cfg == s.cfg && s'.phase == s.phase
  {
    assert [] + [b] == [b] && [a.point] + [b.point] == [a.point, b.point] && [a] + [b] == [a, b];
  }

  lemma WrittenC(s: State, a: Record, b: Record, c: Record)
    requires s.cfg == Config(2, 1) && s.log == Some(Log([a], true, [b])) && s.mem == map[[] := [a.point]]
    requires s.files == map[Name([], 0, a.point.ts) := Complete([a.point, b.point])] && a.tag == b.tag == c.tag == []
    requires b in s.behind && b in s.acked && a.point.ts < b.point.ts < c.point.ts
    ensures var s' := Written(s, c, 0);
      && s'.files == map[Name([], 0, a.point.ts) := Complete([a.point, c.point])]
      && b in s'.behind && b in s'.acked && c in s'.acked && !Recoverable(s', b)
  {
    var n := Name([], 0, a.point.ts);
    var s' := Written(s, c, 0);
    assert [a.point] + [c.point] == [a.point, c.point];
    assert s'.files == map[n := Complete([a.point, c.point])];
  }

  lemma FirstBoot(s: State) returns (steps: seq<Step>, s': State)
    requires s == Initial(Config(2, 1))
    ensures AllAllowed(s, steps) && Run(s, steps) == Some(s')
    ensures s' == s.(log := Some(Log([], false, [])), phase := Up)
  {
    hide Run, AllAllowed;
    var s1 := Apply(s, Start).value;
    s' := Apply(s1, ReplayDone).value;
    RunNothing(s');
    RunStep(s1, ReplayDone, []);
    RunStep(s, Start, [ReplayDone] + []);
    steps := [Start] + ([ReplayDone] + []);
  }

  lemma OneWrite(s: State, r: Record)
    requires s.cfg.pointSize > 0 && s.phase == Up && s.log.Some? && Fresh(s.logged, r)
    ensures Run(s, WriteSteps(s, r, 0)) == Some(Written(s, r, 0)) && AllAllowed(s, WriteSteps(s, r, 0))
  {
    WriteReturns(s, r, 0);
  }

  /** The append of x is cut short by a crash, and the engine starts again. */
  lemma CutAppend(s: State, a: Record, x: Record) returns (steps: seq<Step>, s': State)
    requires s.cfg.pointSize > 0 && s.phase == Up && s.log == Some(Log([a], false, [])) && BatchOf(s.cfg, a.tag) > 1
    requires Fresh(s.logged, x) && s.base == 0
    ensures AllAllowed(s, steps) && Run(s, steps) == Some(s')
    ensures s' == s.(log := Some(Log([a], true, [])), mem := map[a.tag := [a.point]])
  {
    hide BatchOf, Run, AllAllowed;
    var s1 := Apply(s, BeginWrite(x)).value;
    var s2 := Apply(s1, Crash(true)).value;
    var restart := RestartRun(s2, a);
    RunStep(s1, Crash(true), restart);
    RunStep(s, BeginWrite(x), [Crash(true)] + restart);
    steps := [BeginWrite(x)] + ([Crash(true)] + restart);
    s' := s2.(mem := map[a.tag := [a.point]], phase := Up);
  }
}
