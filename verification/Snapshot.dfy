/** The snapshot store's saver (src/snapshot/snapshot_store.cpp): writers that update the map and then
    set the dirty flag, and a thread that clears the flag and then copies the map to a file, one step
    of any of them at a time. Saving succeeds. */
module Snapshot {
  import opened Words
  import opened BlockCodec
  import opened MemTable

  datatype CachedSnapshot = CachedSnapshot(timestamp: int, value: uint64, tag: Tag, valid: bool)

  type Snap = map<Tag, CachedSnapshot>

  /** Where the thread that saves is: the saver's loop, or Shutdown once the loop is left. upTo counts
      the map updates the copy contains. */
  datatype Phase = Head | Waiting | Cleared | Moved | Copied(copy: Snap, upTo: nat)

  datatype Stage = Running | Stopping | Joined | Stopped

  /** writes, done, saved and early are history: the map updates in order, the numbers of those whose
      OnWrite returned, how many the file contains, and those done when Shutdown was called. */
  datatype State = State(snap: Snap, dirty: bool, file: Option<Snap>, phase: Phase, stage: Stage,
                         loaded: Snap, writes: seq<CachedSnapshot>, done: set<nat>, saved: nat, early: set<nat>)

  datatype Step =
    | UpdateMap(entry: CachedSnapshot)
    | SetDirty(i: nat)
    | Wait
    | TestDirty
    | MoveFile
    | CopyMap
    | WriteFile
    | BeginShutdown
    | Join

  function Contents(file: Option<Snap>): Snap {
    if file.Some? then file.value else map[]
  }

  /** The store after Init. */
  function Initial(file: Option<Snap>): State {
    State(Contents(file), false, file, Head, Running, Contents(file), [], {}, 0, {})
  }

  /** After a save, or if there was nothing to save. */
  function Resting(s: State): State {
    if s.stage == Joined then s.(phase := Head, stage := Stopped) else s.(phase := Head)
  }

  function Apply(s: State, step: Step): Option<State> {
    match step
    case UpdateMap(entry) =>
      Some(s.(snap := s.snap[entry.tag := entry], writes := s.writes + [entry]))
    case SetDirty(i) =>
      if i < |s.writes| && i !in s.done then Some(s.(dirty := true, done := s.done + {i})) else None
    case Wait =>
      if s.phase == Head && s.stage == Running then Some(s.(phase := Waiting)) else None
    case TestDirty =>
      if s.phase == Waiting || (s.phase == Head && s.stage == Joined)
      then Some(if s.dirty then s.(dirty := false, phase := Cleared) else Resting(s))
      else None
    case MoveFile =>
      if s.phase == Cleared then Some(s.(file := None, phase := Moved)) else None
    case CopyMap =>
      if s.phase == Moved then Some(s.(phase := Copied(s.snap, |s.writes|))) else None
    case WriteFile =>
      if s.phase.Copied?
      then Some(Resting(s.(file := Some(s.phase.copy), saved := s.phase.upTo)))
      else None
    case BeginShutdown =>
      if s.stage == Running then Some(s.(stage := Stopping, early := s.done)) else None
    case Join =>
      if s.stage == Stopping && s.phase == Head then Some(s.(stage := Joined)) else None
  }

  /** The state after a run of steps, if all of them could be taken. */
  function Run(s: State, steps: seq<Step>): Option<State>
    decreases |steps|
  {
    if steps == [] then Some(s)
    else
      match Apply(s, steps[0])
      case None => None
      case Some(next) => Run(next, steps[1..])
  }

  /** The map after these updates. */
  function Replay(loaded: Snap, writes: seq<CachedSnapshot>): Snap {
    if writes == [] then loaded
    else
      var last := writes[|writes| - 1];
      Replay(loaded, writes[..|writes| - 1])[last.tag := last]
  }

  /** How often the file is replaced along these steps. */
  function Saves(steps: seq<Step>): nat {
    if steps == [] then 0 else (if steps[0].MoveFile? then 1 else 0) + Saves(steps[1..])
  }

  /** How many OnWrites return along them. */
  function Completed(steps: seq<Step>): nat {
    if steps == [] then 0 else (if steps[0].SetDirty? then 1 else 0) + Completed(steps[1..])
  }

  /** The saves a state still owes. */
  function Owed(s: State): nat {
    (if s.dirty then 1 else 0) + if s.phase == Cleared then 1 else 0
  }

  /** There is no save without a completed OnWrite of its own: many may share one, but nothing is saved
      twice. */
  lemma {:induction false} SavesBounded(s: State, steps: seq<Step>)
    requires Run(s, steps).Some?
    ensures Saves(steps) + Owed(Run(s, steps).value) <= Owed(s) + Completed(steps)
    decreases |steps|
  {
    if steps != [] {
      SavesBounded(Apply(s, steps[0]).value, steps[1..]);
    }
  }

  /** Of every tag the map holds the last update. */
  lemma {:induction false} ReplayLast(loaded: Snap, writes: seq<CachedSnapshot>, i: nat)
    requires i < |writes| && forall j :: i < j < |writes| ==> writes[j].tag != writes[i].tag
    ensures writes[i].tag in Replay(loaded, writes) && Replay(loaded, writes)[writes[i].tag] == writes[i]
    decreases |writes|
  {
    var n := |writes| - 1;
    if i < n {
      ReplayLast(loaded, writes[..n], i);
      assert writes[n].tag != writes[i].tag;
    }
  }

  /** If there was none it holds what was loaded. */
  lemma {:induction false} ReplayNone(loaded: Snap, writes: seq<CachedSnapshot>, tag: Tag)
    requires forall i :: 0 <= i < |writes| ==> writes[i].tag != tag
    ensures tag in Replay(loaded, writes) <==> tag in loaded
    ensures tag in loaded ==> Replay(loaded, writes)[tag] == loaded[tag]
    decreases |writes|
  {
    if writes != [] {
      ReplayNone(loaded, writes[..|writes| - 1], tag);
    }
  }

  // ---- what every step keeps ----

  /** No save is in progress. */
  predicate IsIdle(phase: Phase) {
    phase == Head || phase == Waiting
  }

  ghost predicate Consistent(s: State) {
    && s.snap == Replay(s.loaded, s.writes)
    && s.early <= s.done && (forall i :: i in s.done ==> i < |s.writes|)
    && s.saved <= |s.writes|
    && (s.phase.Copied? ==> s.phase.upTo <= |s.writes| && s.phase.copy == Replay(s.loaded, s.writes[..s.phase.upTo]))
    && (IsIdle(s.phase) ==> Contents(s.file) == Replay(s.loaded, s.writes[..s.saved]))
    && (s.stage == Stopped ==> s.phase == Head)
    && (s.phase == Waiting ==> s.stage == Running || s.stage == Stopping)
  }

  /** Update i is in the file, or in the copy that is about to become the file, or the next copy is
      still to be made. */
  predicate OnItsWay(s: State, i: nat) {
    match s.phase
    case Cleared => true
    case Moved => true
    case Copied(_, upTo) => i < upTo
    case _ => i < s.saved
  }

  /** None of these updates is forgotten; once Shutdown has tested the flag, none of the early ones
      needs it any more. */
  ghost predicate Remembered(s: State, updates: set<nat>, early: set<nat>) {
    && (forall i :: i in updates ==> s.dirty || OnItsWay(s, i))
    && (s.stage == Stopped || (s.stage == Joined && s.phase != Head) ==> forall i :: i in early ==> OnItsWay(s, i))
  }

  ghost predicate Inv(s: State) {
    Consistent(s) && Remembered(s, s.done, s.early)
  }

  lemma InitialInv(file: Option<Snap>)
    ensures Inv(Initial(file))
  {
  }

  lemma StepConsistent(s: State, step: Step)
    requires Consistent(s) && Apply(s, step).Some?
    ensures Consistent(Apply(s, step).value)
  {
    var s' := Apply(s, step).value;
    if step.UpdateMap? {
      assert s'.writes[..|s.writes|] == s.writes;
      assert s'.writes[..s.saved] == s.writes[..s.saved];
      assert s.phase.Copied? ==> s'.writes[..s.phase.upTo] == s.writes[..s.phase.upTo];
    }
    assert s.writes[..|s.writes|] == s.writes;
  }

  /** What is remembered of a set of updates stays remembered, with those completed by the step. */
  lemma StepRemembers(s: State, step: Step, updates: set<nat>, early: set<nat>)
    requires Consistent(s) && Apply(s, step).Some? && Remembered(s, updates, early)
    requires early <= updates && forall i :: i in updates ==> i < |s.writes|
    ensures Remembered(Apply(s, step).value, updates + if step.SetDirty? then {step.i} else {}, early)
    ensures step.BeginShutdown? ==> Remembered(Apply(s, step).value, updates, updates)
  {
    hide Replay;
  }

  lemma StepKeeps(s: State, step: Step)
    requires Inv(s) && Apply(s, step).Some?
    ensures Inv(Apply(s, step).value)
  {
    StepConsistent(s, step);
    StepRemembers(s, step, s.done, s.early);
  }

  lemma {:induction false} RunKeeps(s: State, steps: seq<Step>)
    requires Inv(s) && Run(s, steps).Some?
    ensures Inv(Run(s, steps).value)
    decreases |steps|
  {
    if steps != [] {
      StepKeeps(s, steps[0]);
      RunKeeps(Apply(s, steps[0]).value, steps[1..]);
    }
  }

  // ---- what that means ----

  /** In every run, whenever the flag is clear and no save is in progress, the file holds every
      completed update; if no OnWrite is half done, it is the map. */
  lemma NoLostUpdate(file: Option<Snap>, steps: seq<Step>)
    requires Run(Initial(file), steps).Some?
    ensures var s := Run(Initial(file), steps).value;
      !s.dirty && IsIdle(s.phase) ==>
        && (forall i :: i in s.done ==> i < s.saved)
        && s.saved <= |s.writes|
        && Contents(s.file) == Replay(s.loaded, s.writes[..s.saved])
        && ((forall i :: 0 <= i < |s.writes| ==> i in s.done) ==> Contents(s.file) == s.snap)
  {
    InitialInv(file);
    RunKeeps(Initial(file), steps);
    var s := Run(Initial(file), steps).value;
    if !s.dirty && IsIdle(s.phase) && forall i :: 0 <= i < |s.writes| ==> i in s.done {
      assert s.writes != [] ==> |s.writes| - 1 in s.done;
      assert s.writes[..s.saved] == s.writes;
    }
  }

  /** After Shutdown the file holds every update that was completed before. */
  lemma ShutdownSaves(file: Option<Snap>, steps: seq<Step>)
    requires Run(Initial(file), steps).Some?
    requires Run(Initial(file), steps).value.stage == Stopped
    ensures var s := Run(Initial(file), steps).value;
      && (forall i :: i in s.early ==> i < s.saved)
      && s.saved <= |s.writes|
      && Contents(s.file) == Replay(s.loaded, s.writes[..s.saved])
  {
    InitialInv(file);
    RunKeeps(Initial(file), steps);
  }

  // ---- exactly which writes Shutdown saves ----

  /** How many map updates come before the last copy in these steps; `before` counts those before the
      steps, `saved` those before the last copy made before. */
  function CopiedAt(steps: seq<Step>, before: nat, saved: nat): nat {
    if steps == [] then saved
    else
      var front, last := steps[..|steps| - 1], steps[|steps| - 1];
      if last.CopyMap? then before + Updates(front) else CopiedAt(front, before, saved)
  }

  function Updates(steps: seq<Step>): nat {
    if steps == [] then 0 else Updates(steps[..|steps| - 1]) + if steps[|steps| - 1].UpdateMap? then 1 else 0
  }

  /** The updates that the file contains, or will once the save in progress is written. */
  function Taken(s: State): nat {
    if s.phase.Copied? then s.phase.upTo else s.saved
  }

  lemma {:induction false} RunSnoc(s: State, front: seq<Step>, last: Step)
    ensures Run(s, front + [last])
         == match Run(s, front)
            case None => None
            case Some(m) => Apply(m, last)
    decreases |front|
  {
    hide Apply;
    if front == [] {
      assert front + [last] == [last] && [last][1..] == [];
      match Apply(s, last) {
        case None =>
        case Some(next) => assert Run(next, []) == Some(next);
      }
    } else {
      assert (front + [last])[1..] == front[1..] + [last];
      match Apply(s, front[0]) {
        case None =>
        case Some(next) => RunSnoc(next, front[1..], last);
      }
    }
  }

  /** In every run the file contains the updates that come before the last copy. */
  lemma {:induction false} TakenIsCopied(s: State, steps: seq<Step>)
    requires Run(s, steps).Some?
    ensures var s' := Run(s, steps).value;
      |s'.writes| == |s.writes| + Updates(steps) && Taken(s') == CopiedAt(steps, |s.writes|, Taken(s))
    decreases |steps|
  {
    if steps != [] {
      hide Apply, Taken;
      var front, last := steps[..|steps| - 1], steps[|steps| - 1];
      assert steps == front + [last];
      RunSnoc(s, front, last);
      TakenIsCopied(s, front);
      StepTakes(Run(s, front).value, last);
    }
  }

  lemma StepTakes(s: State, step: Step)
    requires Apply(s, step).Some?
    ensures var s' := Apply(s, step).value;
      && |s'.writes| == |s.writes| + (if step.UpdateMap? then 1 else 0)
      && Taken(s') == if step.CopyMap? then |s.writes| else Taken(s)
  {
  }

  lemma {:induction false} RunConcat(s: State, first: seq<Step>, second: seq<Step>)
    ensures Run(s, first + second)
         == match Run(s, first)
            case None => None
            case Some(m) => Run(m, second)
    decreases |first|
  {
    hide Apply;
    if first == [] {
      assert first + second == second;
    } else {
      assert (first + second)[1..] == first[1..] + second;
      match Apply(s, first[0]) {
        case None =>
        case Some(next) => RunConcat(next, first[1..], second);
      }
    }
  }

  /** A run to the end of Shutdown, in which `before` leads to the moment when Shutdown tests the flag. */
  ghost predicate ShutDown(file: Option<Snap>, before: seq<Step>, after: seq<Step>) {
    && Run(Initial(file), before).Some?
    && Run(Initial(file), before).value.stage == Joined && Run(Initial(file), before).value.phase == Head
    && Run(Initial(file), before + ([TestDirty] + after)).Some?
    && Run(Initial(file), before + ([TestDirty] + after)).value.stage == Stopped
  }

  /** After Shutdown every completed write is in the file if and only if each of them had set the flag
      when Shutdown tested it, or had updated the map before the last copy of the run. */
  lemma ShutdownIff(file: Option<Snap>, before: seq<Step>, after: seq<Step>)
    requires ShutDown(file, before, after)
    ensures var tested, steps := Run(Initial(file), before).value, before + ([TestDirty] + after);
      var s := Run(Initial(file), steps).value;
      && (forall i :: i in tested.done ==> i < s.saved)
      && ((forall i :: i in s.done ==> i < s.saved)
          <==> forall i :: i in s.done ==> i in tested.done || i < CopiedAt(steps, 0, 0))
  {
    hide Run, Replay, CopiedAt, Updates;
    var tested, steps := Run(Initial(file), before).value, before + ([TestDirty] + after);
    InitialInv(file);
    RunKeeps(Initial(file), before);
    RunKeeps(Initial(file), steps);
    TakenIsCopied(Initial(file), steps);
    RunConcat(Initial(file), before, [TestDirty] + after);
    TestedSaved(tested, after);
  }

  /** What was done at the last test is in the file. */
  lemma TestedSaved(tested: State, after: seq<Step>)
    requires Inv(tested) && tested.stage == Joined && tested.phase == Head
    requires Run(tested, [TestDirty] + after).Some? && Run(tested, [TestDirty] + after).value.stage == Stopped
    ensures forall i :: i in tested.done ==> i < Run(tested, [TestDirty] + after).value.saved
  {
    hide Replay;
    assert ([TestDirty] + after)[1..] == after;
    var next := Apply(tested, TestDirty).value;
    StepConsistent(tested, TestDirty);
    RunRemembers(next, after, tested.done, tested.done);
  }

  lemma {:induction false} RunRemembers(s: State, steps: seq<Step>, updates: set<nat>, early: set<nat>)
    requires Consistent(s) && Run(s, steps).Some? && Remembered(s, updates, early)
    requires early <= updates && forall i :: i in updates ==> i < |s.writes|
    ensures Consistent(Run(s, steps).value)
    ensures forall i :: i in early && Run(s, steps).value.stage == Stopped ==> OnItsWay(Run(s, steps).value, i)
    decreases |steps|
  {
    hide Replay;
    if steps != [] {
      var s1 := Apply(s, steps[0]).value;
      StepConsistent(s, steps[0]);
      StepRemembers(s, steps[0], updates, early);
      StillThere(s, steps[0], updates);
      var more := updates + if steps[0].SetDirty? then {steps[0].i} else {};
      RunRemembers(s1, steps[1..], more, early);
    }
  }

  lemma StillThere(s: State, step: Step, updates: set<nat>)
    requires Apply(s, step).Some? && forall i :: i in updates ==> i < |s.writes|
    ensures var more := updates + if step.SetDirty? then {step.i} else {};
      forall i :: i in more ==> i < |Apply(s, step).value.writes|
  {
  }

  ghost predicate NoUpdates(steps: seq<Step>) {
    forall step :: step in steps ==> !step.UpdateMap?
  }

  /** Every write that completes before the end of Shutdown is saved, in every run in which no new one
      begins. */
  ghost predicate AllSaved(s: State) {
    forall after :: NoUpdates(after) && Run(s, [BeginShutdown] + after).Some?
                    && Run(s, [BeginShutdown] + after).value.stage == Stopped
      ==> forall i :: i in Run(s, [BeginShutdown] + after).value.done ==>
            i < Run(s, [BeginShutdown] + after).value.saved
  }

  /** When Shutdown is called, that is certain if and only if the flag is set or every update of the map,
      also one whose OnWrite is half done, is in the file or on its way there. */
  lemma AtShutdownIff(file: Option<Snap>, before: seq<Step>)
    requires Run(Initial(file), before).Some? && Run(Initial(file), before).value.stage == Running
    ensures var s := Run(Initial(file), before).value;
      AllSaved(s) <==> forall i :: 0 <= i < |s.writes| ==> s.dirty || OnItsWay(s, i)
  {
    hide Run, Replay;
    InitialInv(file);
    RunKeeps(Initial(file), before);
    var s := Run(Initial(file), before).value;
    if forall i :: 0 <= i < |s.writes| ==> s.dirty || OnItsWay(s, i) {
      forall after | NoUpdates(after) && Run(s, [BeginShutdown] + after).Some?
                     && Run(s, [BeginShutdown] + after).value.stage == Stopped
        ensures forall i :: i in Run(s, [BeginShutdown] + after).value.done ==>
                  i < Run(s, [BeginShutdown] + after).value.saved
      {
        CertainlySaved(s, after);
      }
    } else {
      var i :| 0 <= i < |s.writes| && !s.dirty && !OnItsWay(s, i);
      var after := LosingShutdown(s, i);
    }
  }

  function Below(n: nat): (r: set<nat>)
    ensures forall i: nat :: i in r <==> i < n
  {
    if n == 0 then {} else Below(n - 1) + {n - 1}
  }

  lemma CertainlySaved(s: State, after: seq<Step>)
    requires Inv(s) && s.stage == Running && NoUpdates(after) && Run(s, [BeginShutdown] + after).Some?
    requires forall i :: 0 <= i < |s.writes| ==> s.dirty || OnItsWay(s, i)
    ensures var s' := Run(s, [BeginShutdown] + after).value;
      s'.stage == Stopped ==> forall i :: i in s'.done ==> i < s'.saved
  {
    hide Replay;
    var all := Below(|s.writes|);
    var next := Apply(s, BeginShutdown).value;
    RunFirst(s, BeginShutdown, after);
    StepConsistent(s, BeginShutdown);
    StepRemembers(s, BeginShutdown, all, {});
    assert all + {} == all;
    RunRemembers(next, after, all, all);
    SameWrites(next, after);
  }

  lemma {:induction false} SameWrites(s: State, steps: seq<Step>)
    requires Run(s, steps).Some? && NoUpdates(steps)
    ensures Run(s, steps).value.writes == s.writes
    decreases |steps|
  {
    if steps != [] {
      SameWrites(Apply(s, steps[0]).value, steps[1..]);
    }
  }

  /** The save in progress is finished, Shutdown finds nothing to save, and only then the flag is set. */
  lemma LosingShutdown(s: State, i: nat) returns (after: seq<Step>)
    requires Inv(s) && s.stage == Running && i < |s.writes| && !s.dirty && !OnItsWay(s, i)
    ensures NoUpdates(after) && Run(s, [BeginShutdown] + after).Some?
    ensures var s' := Run(s, [BeginShutdown] + after).value;
      s'.stage == Stopped && i in s'.done && i >= s'.saved
  {
    hide Replay, Run;
    var finish := if s.phase.Copied? then [WriteFile] else if s.phase == Waiting then [TestDirty] else [];
    after := finish + [Join, TestDirty, SetDirty(i)];
    var s1 := Apply(s, BeginShutdown).value;
    assert i !in s.done;
    RunFirst(s, BeginShutdown, after);
    var s2 := s1;
    if finish == [] {
      assert after == [Join, TestDirty, SetDirty(i)];
    } else {
      s2 := Apply(s1, finish[0]).value;
      assert after == [finish[0]] + [Join, TestDirty, SetDirty(i)];
      RunFirst(s1, finish[0], [Join, TestDirty, SetDirty(i)]);
    }
    LastSteps(s2, i);
  }

  lemma RunFirst(s: State, step: Step, rest: seq<Step>)
    requires Apply(s, step).Some?
    ensures Run(s, [step] + rest) == Run(Apply(s, step).value, rest)
  {
    assert ([step] + rest)[1..] == rest;
  }

  lemma LastSteps(s: State, i: nat)
    requires s.stage == Stopping && s.phase == Head && !s.dirty && i < |s.writes| && i !in s.done
    ensures Run(s, [Join, TestDirty, SetDirty(i)])
         == Some(s.(stage := Stopped, dirty := true, done := s.done + {i}))
  {
    hide Run;
    var s1 := Apply(s, Join).value;
    var s2 := Apply(s1, TestDirty).value;
    var s3 := Apply(s2, SetDirty(i)).value;
    assert [Join, TestDirty, SetDirty(i)] == [Join] + ([TestDirty] + ([SetDirty(i)] + []));
    RunFirst(s, Join, [TestDirty] + ([SetDirty(i)] + []));
    RunFirst(s1, TestDirty, [SetDirty(i)] + []);
    RunFirst(s2, SetDirty(i), []);
    NoSteps(s3);
  }

  lemma NoSteps(s: State)
    ensures Run(s, []) == Some(s)
  {
  }
}
