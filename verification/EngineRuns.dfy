/** Whole runs of the engine: what stays stored, and for records logged behind a torn entry exactly
    which ones do. */
module EngineRuns {
  import opened Words
  import opened BlockCodec
  import opened MemTable
  import opened TimeOrder
  import opened Engine

  lemma {:induction false} RunKeeps(s: State, steps: seq<Step>)
    requires Inv(s) && s.cfg.pointSize > 0 && AllAllowed(s, steps) && Run(s, steps).Some?
    ensures Inv(Run(s, steps).value)
    decreases |steps|
  {
    hide Inv, Apply, Allowed;
    if steps != [] {
      StepKeeps(s, steps[0]);
      CfgKept(s, steps[0]);
      RunKeeps(Apply(s, steps[0]).value, steps[1..]);
    }
  }

  /** The record would be found after a restart, or is found in a file. */
  ghost predicate Recoverable(s: State, r: Record) {
    r in Entries(s.log) || OnDisk(s.files, r.tag, r.point)
  }

  // ---- records that were logged on an undamaged log ----

  /** Durability over whole runs, with crashes anywhere and writes on a torn log: every acknowledged
      record that was not logged behind a tear is in the readable log or in a complete file. */
  lemma Durability(cfg: Config, steps: seq<Step>, r: Record)
    requires cfg.pointSize > 0
    requires AllAllowed(Initial(cfg), steps) && Run(Initial(cfg), steps).Some?
    ensures var s := Run(Initial(cfg), steps).value;
      r in s.acked && r !in s.behind ==> Recoverable(s, r)
  {
    hide Run, AllAllowed;
    InitialOk(cfg);
    RunKeeps(Initial(cfg), steps);
    var s := Run(Initial(cfg), steps).value;
    AckedLogged(s, r);
    if r in s.acked && r !in s.behind {
      InvDurable(s, r);
    }
  }

  lemma AckedLogged(s: State, r: Record)
    requires Inv(s)
    ensures r in s.acked ==> r in s.logged
  {
  }

  lemma InvDurable(s: State, r: Record)
    requires Inv(s) && r in s.logged && r !in s.behind
    ensures Recoverable(s, r)
  {
    hide Of, Increasing, FilesOk, FlushedOnce, MemOk, TailOk, PhaseOk, OnDisk;
    if r !in Entries(s.log) {
      assert r in OldRecords(s);
      KeptIsOnDisk(s.files, r.tag, r.point, Of(Entries(s.log), r.tag));
    }
  }

  lemma DiskLogged(s: State, tag: Tag, p: DataPoint)
    requires Inv(s)
    ensures OnDisk(s.files, tag, p) ==> Record(tag, p) in s.logged
  {
    if OnDisk(s.files, tag, p) {
      hide Of, Aligned, BatchOf, MemOk, TailOk, OldStored;
      var n :| n in s.files && n.tag == tag && s.files[n].Complete? && p in s.files[n].points;
      assert FileOk(s, n);
      OfMember(s.logged, tag, p);
    }
  }

  /** After a close that ran to its end the disk holds nothing but points that were acknowledged or
      whose Write a crash cut off after logging, and all of those that were not logged behind a tear. */
  lemma ClosedExactly(cfg: Config, steps: seq<Step>, tag: Tag, p: DataPoint)
    requires cfg.pointSize > 0
    requires AllAllowed(Initial(cfg), steps) && Run(Initial(cfg), steps).Some?
    requires Run(Initial(cfg), steps).value.log == None && Run(Initial(cfg), steps).value.phase == Down
    ensures var s, r := Run(Initial(cfg), steps).value, Record(tag, p);
      && (OnDisk(s.files, tag, p) ==> r in s.acked || r in s.orphans)
      && (r !in s.behind ==> (OnDisk(s.files, tag, p) <==> r in s.acked || r in s.orphans))
  {
    hide Run, AllAllowed;
    InitialOk(cfg);
    RunKeeps(Initial(cfg), steps);
    var s, r := Run(Initial(cfg), steps).value, Record(tag, p);
    DiskLogged(s, tag, p);
    assert r in s.logged <==> r in s.acked || r in s.orphans by { Partition(s, r); }
    if r in s.logged && r !in s.behind {
      InvDurable(s, r);
    }
  }

  lemma Partition(s: State, r: Record)
    requires Inv(s) && s.phase == Down
    ensures r in s.logged <==> r in s.acked || r in s.orphans
  {
  }

  /** A close stores every record of its session, also those logged behind a tear, for good. */
  lemma CloseSettles(s: State, r: Record)
    requires Inv(s) && Apply(s, RemoveLog).Some? && r in Session(s)
    ensures var s' := Apply(s, RemoveLog).value;
      Kept(s'.files, r.tag, r.point, Of(Entries(s'.log), r.tag))
  {
    hide Of, Inv;
    SessionOnDisk(s, r);
    OnDiskIsKept(s.files, r.tag, r.point);
    EmptyOf();
  }

  // ---- a record that will never be in memory again ----

  ghost predicate Gone(s: State, r: Record) {
    r in s.logged && r !in Session(s)
  }

  ghost predicate Holds(files: map<Name, File>, n: Name, r: Record) {
    n in files && n.tag == r.tag && files[n].Complete? && r.point in files[n].points
  }

  /** The step begins to write this file. */
  predicate Opens(s: State, step: Step, n: Name) {
    step.OpenFile? && s.phase.Flushing? && Held(s.mem, s.phase.tag) != [] && FileName(s, s.phase.tag, step.date) == n
  }

  predicate OpensAlong(s: State, steps: seq<Step>, n: Name)
    requires s.cfg.pointSize > 0
    decreases |steps|
  {
    steps != [] && (Opens(s, steps[0], n) || match Apply(s, steps[0])
      case None => false
      case Some(next) => CfgKept(s, steps[0]); OpensAlong(next, steps[1..], n))
  }

  /** One step takes such a record out of a file exactly when it begins to write that file, and puts it
      into none. */
  lemma StepFate(s: State, step: Step, r: Record, n: Name)
    requires Inv(s) && Allowed(s, step) && Apply(s, step).Some? && Gone(s, r)
    ensures var s' := Apply(s, step).value;
      Gone(s', r) && (Holds(s'.files, n, r) <==> Holds(s.files, n, r) && !Opens(s, step, n))
  {
    hide Inv, Apply, Holds, Gone, Opens;
    GoneStep(s, step, r);
    FilesStep(s, step, r, n);
  }

  lemma FilesStep(s: State, step: Step, r: Record, n: Name)
    requires Inv(s) && Apply(s, step).Some? && Gone(s, r)
    ensures Holds(Apply(s, step).value.files, n, r) <==> Holds(s.files, n, r) && !Opens(s, step, n)
  {
    hide Of, Increasing, BatchOf, OldStored, FilesOk, FlushedOnce, TailOk, Gone, Session;
    if step.CloseFile? {
      hide MemOk;
      if r.tag == s.phase.tag {
        assert MemOk(s);
        NotHeld(s, s.phase.tag, r);
      }
    } else if step.AddToMemory? || step.ReplayOne? {
      hide MemOk, HistoryOk, PhaseOk;
    }
  }

  lemma GoneStep(s: State, step: Step, r: Record)
    requires Inv(s) && Allowed(s, step) && Apply(s, step).Some? && Gone(s, r)
    ensures Gone(Apply(s, step).value, r)
  {
    hide Of, Increasing, BatchOf, OldStored, FilesOk, FlushedOnce, TailOk, MemOk, OldRecords, Inv;
    InvHistory(s);
    if step.FinishAppend? {
      GoneAppend(s, s.phase.record, r);
    } else {
      GoneElse(s, step, r);
    }
  }

  lemma GoneAppend(s: State, q: Record, r: Record)
    requires Inv(s) && s.cfg.pointSize > 0 && Gone(s, r) && s.phase == Appending(q) && Apply(s, FinishAppend).Some?
    ensures Gone(Apply(s, FinishAppend).value, r)
  {
    hide Of, Increasing, BatchOf, OldStored, FilesOk, FlushedOnce, TailOk, MemOk, HistoryOk, Apply, Session;
    var s' := Apply(s, FinishAppend).value;
    AppendedHistory(s, s', q);
    InvHistory(s);
    AppendedLog(s, s', q);
    OfMember(s.logged, q.tag, q.point);
  }

  lemma GoneElse(s: State, step: Step, r: Record)
    requires HistoryOk(s) && Apply(s, step).Some? && Gone(s, r) && !step.FinishAppend?
    ensures Gone(Apply(s, step).value, r)
  {
    hide Of, Increasing, OldRecords, Apply, HistoryOk, Tail;
    SameSession(s, step);
  }

  lemma SameSession(s: State, step: Step)
    requires HistoryOk(s) && Apply(s, step).Some? && !step.FinishAppend?
    ensures var s' := Apply(s, step).value;
      && s'.logged == s.logged
      && (Session(s') == Session(s) || Session(s') == Entries(s.log) || Session(s') == [])
  {
    hide Of, Increasing, OldRecords, FileName, BatchOf, Held;
    var s' := Apply(s, step).value;
    if step.AddToMemory? || step.ReplayOne? || step.CloseFile? || step.OpenFile? {
      assert s'.log == s.log && s'.base == s.base;
    } else if step.Crash? || step.Start? {
      assert Tail(s') == [] && Entries(s'.log) == Entries(s.log);
    }
  }

  /** Memory holds only points of the session. */
  lemma NotHeld(s: State, tag: Tag, r: Record)
    requires MemOk(s) && s.phase != Down && Gone(s, r) && r.tag == tag
    ensures r.point !in Held(s.mem, tag)
  {
    hide Of, BatchOf, Session, OnDisk;
    assert TagMemOk(s, tag);
    OfPrefix(Session(s), Processed(s), tag);
    OfMember(Session(s), tag, r.point);
    var v, m := Of(Session(s)[..Processed(s)], tag), Held(s.mem, tag);
    assert forall i :: 0 <= i < |m| ==> m[i] == v[|v| - |m| + i] == Of(Session(s), tag)[|v| - |m| + i];
  }

  lemma {:induction false} RunFate(s: State, steps: seq<Step>, r: Record, n: Name)
    requires Inv(s) && s.cfg.pointSize > 0 && AllAllowed(s, steps) && Run(s, steps).Some? && Gone(s, r)
    ensures var s' := Run(s, steps).value;
      Gone(s', r) && (Holds(s'.files, n, r) <==> Holds(s.files, n, r) && !OpensAlong(s, steps, n))
    decreases |steps|
  {
    hide Inv, Apply, Allowed, Gone, Holds, Opens;
    if steps != [] {
      StepFate(s, steps[0], r, n);
      StepKeeps(s, steps[0]);
      CfgKept(s, steps[0]);
      RunFate(Apply(s, steps[0]).value, steps[1..], r, n);
    }
  }

  lemma UnreadGone(s: State, r: Record)
    requires Inv(s) && s.phase == Down && r in Unread(s.log)
    ensures Gone(s, r)
  {
    hide Of, OldStored, FilesOk, FlushedOnce, MemOk, TailOk, PhaseOk;
    assert Session(s) == Entries(s.log) && Unread(s.log)[..s.base] == Unread(s.log);
    SessionParts(s, r.tag);
    OfMember(Session(s), r.tag, r.point);
    OfMember(Unread(s.log), r.tag, r.point);
  }

  /** What becomes of a record that was logged behind a tear when the engine goes down: from then on it
      is stored exactly as long as none begins to write the file that holds it. */
  lemma FateOfUnread(s: State, r: Record, steps: seq<Step>)
    requires Inv(s) && s.phase == Down && r in Unread(s.log) && s.cfg.pointSize > 0
    requires AllAllowed(s, steps) && Run(s, steps).Some?
    ensures Recoverable(Run(s, steps).value, r) <==> exists n :: Holds(s.files, n, r) && !OpensAlong(s, steps, n)
  {
    hide Inv, Run, AllAllowed, OpensAlong;
    UnreadGone(s, r);
    var s' := Run(s, steps).value;
    RunFate(s, steps, r, Name(r.tag, 0, 0));
    forall n
      ensures Holds(s'.files, n, r) <==> Holds(s.files, n, r) && !OpensAlong(s, steps, n)
    {
      RunFate(s, steps, r, n);
    }
    OnDiskHolds(s'.files, r);
    NeverRead(s', r);
  }

  lemma OnDiskHolds(files: map<Name, File>, r: Record)
    ensures OnDisk(files, r.tag, r.point) <==> exists n :: Holds(files, n, r)
  {
    if OnDisk(files, r.tag, r.point) {
      var n :| n in files && n.tag == r.tag && files[n].Complete? && r.point in files[n].points;
      assert Holds(files, n, r);
    }
  }

  lemma NeverRead(s: State, r: Record)
    requires Gone(s, r)
    ensures r !in Entries(s.log)
  {
  }

  // ---- which of them survive whatever happens ----

  /** The record is in a complete file that is named after no readable record. */
  ghost predicate Safe(s: State, r: Record) {
    Kept(s.files, r.tag, r.point, Of(Entries(s.log), r.tag))
  }

  /** No step writes such a file again. */
  lemma StepSafe(s: State, step: Step, r: Record)
    requires Inv(s) && s.cfg.pointSize > 0 && Allowed(s, step) && Apply(s, step).Some? && Safe(s, r)
    ensures Safe(Apply(s, step).value, r)
  {
    hide Of, Increasing, BatchOf, OldStored, FilesOk, FlushedOnce, TailOk, MemOk, HistoryOk, Kept, FileName, Session;
    var s' := Apply(s, step).value;
    match step
    case OpenFile(date) => WriteSafe(s, s.phase.tag, date, Incomplete, r);
    case CloseFile => WriteSafe(s, s.phase.tag, s.phase.date, Complete(Held(s.mem, s.phase.tag)), r);
    case FinishAppend => AppendSafe(s, s', r);
    case RemoveLog =>
      KeptIsOnDisk(s.files, r.tag, r.point, Of(Entries(s.log), r.tag));
      OnDiskIsKept(s.files, r.tag, r.point);
      EmptyOf();
    case _ =>
      assert s'.files == s.files && Entries(s'.log) == Entries(s.log);
  }

  lemma WriteSafe(s: State, tag: Tag, date: nat, f: File, r: Record)
    requires Inv(s) && Writes(s, tag, date) && Safe(s, r)
    ensures Kept(s.files[FileName(s, tag, date) := f], r.tag, r.point, Of(Entries(s.log), r.tag))
  {
    hide Inv, Kept, OnDisk, Of, Flushed, Session, Processed, BatchOf;
    var b := FlushedBatch(s, tag, date);
    RewriteLoses(s, tag, date, f, b);
  }

  lemma AppendSafe(s: State, s': State, q: Record)
    requires Inv(s) && s.phase.Appending? && AppendedTo(s, s', s.phase.record) && Safe(s, q)
    ensures Safe(s', q)
  {
    hide Of, Kept, Increasing, BatchOf, OldStored, FilesOk, FlushedOnce, TailOk, MemOk, HistoryOk, Apply;
    var r := s.phase.record;
    AppendedParts(s, s', r, q.tag);
    InvHistory(s);
    AppendedLog(s, s', r);
    KeptOnAppend(s, r, q.tag, q.point, if Torn(s.log) || r.tag != q.tag then [] else [r.point]);
  }

  lemma {:induction false} RunSafe(s: State, steps: seq<Step>, r: Record)
    requires Inv(s) && s.cfg.pointSize > 0 && AllAllowed(s, steps) && Run(s, steps).Some? && Safe(s, r)
    ensures Safe(Run(s, steps).value, r) && Recoverable(Run(s, steps).value, r)
    decreases |steps|
  {
    hide Inv, Apply, Allowed, Kept, OnDisk;
    if steps == [] {
      KeptIsOnDisk(s.files, r.tag, r.point, Of(Entries(s.log), r.tag));
    } else {
      StepSafe(s, steps[0], r);
      StepKeeps(s, steps[0]);
      CfgKept(s, steps[0]);
      RunSafe(Apply(s, steps[0]).value, steps[1..], r);
    }
  }

  /** Every run that is allowed from here leads to a state where the record is stored. */
  ghost predicate AlwaysRecoverable(s: State, r: Record)
    requires s.cfg.pointSize > 0
  {
    forall steps :: AllAllowed(s, steps) && Run(s, steps).Some? ==> Recoverable(Run(s, steps).value, r)
  }

  /** When the engine is down, a record that was logged behind a tear survives whatever happens if and
      only if it is in a complete file that is named after no readable record. */
  lemma SurvivesIff(s: State, r: Record)
    requires Inv(s) && s.phase == Down && r in Unread(s.log) && s.cfg.pointSize > 0
    ensures AlwaysRecoverable(s, r) <==> Safe(s, r)
  {
    hide Inv, AllAllowed, Run, Recoverable, Safe;
    if Safe(s, r) {
      forall steps | AllAllowed(s, steps) && Run(s, steps).Some?
        ensures Recoverable(Run(s, steps).value, r)
      {
        RunSafe(s, steps, r);
      }
    } else {
      var steps := LosingRun(s, r);
    }
  }

  /** The run that loses the record: restart, replay, close, and begin to write its file. */
  lemma LosingRun(s: State, r: Record) returns (steps: seq<Step>)
    requires Inv(s) && s.phase == Down && r in Unread(s.log) && s.cfg.pointSize > 0 && !Safe(s, r)
    ensures AllAllowed(s, steps) && Run(s, steps).Some? && !Recoverable(Run(s, steps).value, r)
  {
    hide Inv, AllAllowed, Run, Recoverable, Holds, OpensAlong, Kept, OnDisk;
    if n :| Holds(s.files, n, r) {
      var a := StraddlingFile(s, r, n);
      hide Safe;
      steps := OpeningRun(s, n, a);
      forall n' | Holds(s.files, n', r)
        ensures n' == n
      {
        OnlyFile(s, r, n, n');
      }
      FateOfUnread(s, r, steps);
    } else {
      steps := [];
      RunNothing(s);
      FateOfUnread(s, r, []);
    }
  }

  lemma OnlyFile(s: State, r: Record, n: Name, n': Name)
    requires Inv(s) && r in Unread(s.log) && Holds(s.files, n, r) && Holds(s.files, n', r)
    ensures n == n'
  {
    hide Of, OldStored, FilesOk, TailOk, MemOk, HistoryOk;
    OfMember(Unread(s.log), r.tag, r.point);
  }

  /** If the record is not safe, its file is that of the last, incomplete batch of the readable log. */
  lemma StraddlingFile(s: State, r: Record, n: Name) returns (a: nat)
    requires Inv(s) && s.phase == Down && r in Unread(s.log) && Holds(s.files, n, r) && !Safe(s, r)
    ensures s.cfg.pointSize > 0
    ensures var w, k := Of(Entries(s.log), n.tag), BatchOf(s.cfg, n.tag);
      a < |w| < a + k && a % k == 0 && w[a].ts == n.ts
  {
    hide Of, BatchOf, Increasing, OldStored, FlushedOnce, TailOk, MemOk;
    var w, u, k, points := Of(Entries(s.log), n.tag), Of(Unread(s.log), n.tag), BatchOf(s.cfg, n.tag), s.files[n].points;
    assert !NotNamed(n.ts, w);
    a :| 0 <= a < |w| && w[a].ts == n.ts;
    assert FileOk(s, n);
    assert Follows(points, a, w, u);
    SessionParts(s, n.tag);
    OfMember(Unread(s.log), r.tag, r.point);
    var j :| 0 <= j < |points| && points[j] == r.point;
    assert forall i :: 0 <= i < |w| ==> w[i] != r.point;
  }

  lemma RunNothing(s: State)
    requires s.cfg.pointSize > 0
    ensures Run(s, []) == Some(s) && AllAllowed(s, [])
  {
  }

  lemma RunStep(s: State, step: Step, rest: seq<Step>)
    requires s.cfg.pointSize > 0 && Apply(s, step).Some?
    ensures Apply(s, step).value.cfg == s.cfg
    ensures Run(s, [step] + rest) == Run(Apply(s, step).value, rest)
    ensures AllAllowed(s, [step] + rest) <==> Allowed(s, step) && AllAllowed(Apply(s, step).value, rest)
    ensures forall n :: OpensAlong(s, [step] + rest, n) <==> Opens(s, step, n) || OpensAlong(Apply(s, step).value, rest, n)
  {
    assert ([step] + rest)[0] == step && ([step] + rest)[1..] == rest;
    CfgKept(s, step);
  }

  /** From a restart to the moment a close begins to write the file of the last batch. */
  lemma OpeningRun(s: State, n: Name, a: nat) returns (steps: seq<Step>)
    requires Inv(s) && s.phase == Down && s.cfg.pointSize > 0 && s.log.Some?
    requires var w, k := Of(Entries(s.log), n.tag), BatchOf(s.cfg, n.tag);
      a < |w| < a + k && a % k == 0 && w[a].ts == n.ts
    ensures AllAllowed(s, steps) && Run(s, steps).Some? && OpensAlong(s, steps, n)
  {
    hide Of, BatchOf, Inv, AllAllowed, Run, OpensAlong, Opens, Apply, Allowed;
    var s1 := Started(s);
    var replay, s2 := ReplayRun(s1, n);
    ReplayedTail(s2, n.tag, a);
    var last, s3 := CloseRun(s2, n);
    steps := [Start] + (replay + last);
    Chain(s1, replay, last, n);
    RunStep(s, Start, replay + last);
  }

  lemma Started(s: State) returns (s1: State)
    requires Inv(s) && s.phase == Down && s.cfg.pointSize > 0 && s.log.Some?
    ensures Apply(s, Start) == Some(s1) && Allowed(s, Start) && Inv(s1)
    ensures s1.phase == Replaying(0) && s1.cfg == s.cfg && s1.log == s.log && s1.base == |Unread(s1.log)|
  {
    hide Of, OldStored, FilesOk, FlushedOnce, MemOk, TailOk;
    s1 := Apply(s, Start).value;
    StepKeeps(s, Start);
  }

  /** Two runs after another. */
  lemma {:induction false} Chain(s: State, first: seq<Step>, second: seq<Step>, n: Name)
    requires s.cfg.pointSize > 0 && AllAllowed(s, first) && Run(s, first).Some?
    requires Run(s, first).value.cfg == s.cfg
    requires AllAllowed(Run(s, first).value, second) && Run(Run(s, first).value, second).Some?
    ensures AllAllowed(s, first + second) && Run(s, first + second) == Run(Run(s, first).value, second)
    ensures OpensAlong(Run(s, first).value, second, n) ==> OpensAlong(s, first + second, n)
    decreases |first|
  {
    hide Apply, Allowed, Opens;
    if first == [] {
      assert first + second == second;
    } else {
      CfgKept(s, first[0]);
      var s1 := Apply(s, first[0]).value;
      assert first == [first[0]] + first[1..];
      RunStep(s, first[0], first[1..]);
      Chain(s1, first[1..], second, n);
      assert first + second == [first[0]] + (first[1..] + second);
      RunStep(s, first[0], first[1..] + second);
    }
  }

  /** A replay can always be finished. */
  lemma {:induction false} ReplayRun(s: State, n: Name) returns (steps: seq<Step>, s': State)
    requires Inv(s) && s.phase.Replaying? && s.cfg.pointSize > 0
    ensures AllAllowed(s, steps) && Run(s, steps) == Some(s')
    ensures Inv(s') && s'.phase == Up && s'.log == s.log && s'.cfg == s.cfg && s'.base == s.base
    decreases |Entries(s.log)| - s.phase.next
  {
    hide Of, BatchOf, Inv, AllAllowed, Run, OpensAlong;
    assert s.phase.next <= |Entries(s.log)| && s.base == |Unread(s.log)| by { ReplayBound(s); }
    if s.phase.next == |Entries(s.log)| {
      s' := Apply(s, ReplayDone).value;
      StepKeeps(s, ReplayDone);
      RunNothing(s');
      RunStep(s, ReplayDone, []);
      steps := [ReplayDone] + [];
    } else {
      var s1, rest := Apply(s, ReplayOne).value, [];
      StepKeeps(s, ReplayOne);
      if s1.phase.Replaying? {
        rest, s' := ReplayRun(s1, n);
      } else {
        var s2 := Apply(s1, OpenFile(0)).value;
        StepKeeps(s1, OpenFile(0));
        var s3 := Apply(s2, CloseFile).value;
        StepKeeps(s2, CloseFile);
        var more;
        more, s' := ReplayRun(s3, n);
        RunStep(s2, CloseFile, more);
        RunStep(s1, OpenFile(0), [CloseFile] + more);
        rest := [OpenFile(0)] + ([CloseFile] + more);
      }
      RunStep(s, ReplayOne, rest);
      steps := [ReplayOne] + rest;
    }
  }

  lemma ReplayBound(s: State)
    requires Inv(s) && s.phase.Replaying?
    ensures s.phase.next <= |Entries(s.log)| && s.base == |Unread(s.log)|
  {
    hide Of, OldStored, FilesOk, FlushedOnce, TailOk;
    assert Session(s) == Entries(s.log);
  }

  /** After a replay the last, incomplete batch of the readable log is in memory. */
  lemma ReplayedTail(s: State, tag: Tag, a: nat)
    requires Inv(s) && s.phase == Up && s.cfg.pointSize > 0 && s.base == |Unread(s.log)|
    requires var w, k := Of(Entries(s.log), tag), BatchOf(s.cfg, tag); a < |w| < a + k && a % k == 0
    ensures Held(s.mem, tag) == Of(Entries(s.log), tag)[a..]
  {
    hide Of, BatchOf, OldStored, FilesOk, FlushedOnce, TailOk, OnDisk;
    var w, k, m := Of(Entries(s.log), tag), BatchOf(s.cfg, tag), Held(s.mem, tag);
    assert Session(s) == Entries(s.log) && Session(s)[..|Session(s)|] == Entries(s.log);
    assert TagMemOk(s, tag);
    SameMultiple(a, |w| - |m|, k, |w|);
  }

  lemma SameMultiple(a: nat, b: nat, k: nat, n: nat)
    requires k > 0 && a % k == 0 && b % k == 0 && a <= n < a + k && b <= n < b + k
    ensures a == b
  {
    if a < b {
      NextMultiple(a, b, k);
    } else if b < a {
      NextMultiple(b, a, k);
    }
  }

  lemma NextMultiple(a: nat, b: nat, k: nat)
    requires k > 0 && a % k == 0 && b % k == 0 && a < b
    ensures a + k <= b
  {
    if b < a + k {
      RemainderUnique(b, k, a / k, b - a);
    }
  }

  lemma CloseRun(s: State, n: Name) returns (steps: seq<Step>, s': State)
    requires Inv(s) && s.phase == Up && s.cfg.pointSize > 0
    requires Held(s.mem, n.tag) != [] && Held(s.mem, n.tag)[0].ts == n.ts
    ensures AllAllowed(s, steps) && Run(s, steps) == Some(s') && OpensAlong(s, steps, n)
  {
    hide Inv, Run, AllAllowed, OpensAlong;
    var s1 := Apply(s, BeginClose).value;
    var s2 := Apply(s1, CloseTag(n.tag)).value;
    s' := Apply(s2, OpenFile(n.date)).value;
    RunNothing(s');
    RunStep(s2, OpenFile(n.date), []);
    RunStep(s1, CloseTag(n.tag), [OpenFile(n.date)] + []);
    RunStep(s, BeginClose, [CloseTag(n.tag)] + ([OpenFile(n.date)] + []));
    steps := [BeginClose] + ([CloseTag(n.tag)] + ([OpenFile(n.date)] + []));
  }
}
