/** The log of the engine as the bytes of its file: what the engine replays is what the log reader
    returns, as long as the reader stops at the tear. */
module LogBytes {
  import opened Words
  import opened BlockCodec
  import opened MemTable
  import opened Engine
  import Wal
  import VC = ValueCodec

  /** A record that the log's format can hold. */
  predicate Loggable(r: Record) {
    r.point.value.Double? && -TWO_63 <= r.point.ts < TWO_63 && |r.tag| < 65536
  }

  function EntryOf(r: Record): Wal.Entry
    requires Loggable(r)
  {
    Wal.Data(r.tag, r.point.ts, r.point.value.bits)
  }

  function EntriesOf(rs: seq<Record>): (es: seq<Wal.Entry>)
    requires forall r :: r in rs ==> Loggable(r)
    ensures |es| == |rs|
  {
    seq(|rs|, i requires 0 <= i < |rs| => EntryOf(rs[i]))
  }

  /** The file holds the readable entries and then bytes at which the reader stops; without a tear there
      are none. */
  ghost predicate Denotes(file: seq<byte>, log: Log, pads: seq<Wal.Pad>, rest: seq<byte>) {
    && (forall r :: r in log.entries ==> Loggable(r))
    && |pads| == |log.entries|
    && file == Wal.EncodeLog(EntriesOf(log.entries), pads) + rest
    && (log.torn || rest == [])
    && Wal.ReadEntry(rest) == Wal.Stop
  }

  /** The engine replays what the reader returns. */
  lemma ReplayReads(file: seq<byte>, log: Log, pads: seq<Wal.Pad>, rest: seq<byte>)
    requires Denotes(file, log, pads, rest)
    ensures Wal.ReadAll(file) == EntriesOf(log.entries)
  {
    hide Wal.ReadEntry, Wal.ReadAll, Wal.EncodeLog, Wal.LoggedAll;
    var es := EntriesOf(log.entries);
    Wal.ReadToTear(es, pads, rest);
    forall e | e in es && e.Data?
      ensures |e.tag| < 65536
    {
      var i :| 0 <= i < |es| && es[i] == e;
      assert log.entries[i] in log.entries;
    }
    Wal.LoggedExact(es);
  }

  /** An entry appended to an undamaged log is readable. */
  lemma AppendReadable(file: seq<byte>, log: Log, pads: seq<Wal.Pad>, r: Record, pad: Wal.Pad)
    requires Denotes(file, log, pads, []) && Loggable(r)
    ensures Denotes(file + Wal.Encode(EntryOf(r), pad), log.(entries := log.entries + [r]), pads + [pad], [])
  {
    hide Wal.ReadEntry, Wal.EncodeLog, Wal.Encode;
    assert EntriesOf(log.entries + [r]) == EntriesOf(log.entries) + [EntryOf(r)];
    EncodeSnoc(EntriesOf(log.entries), pads, EntryOf(r), pad);
  }

  lemma {:induction false} EncodeSnoc(es: seq<Wal.Entry>, pads: seq<Wal.Pad>, e: Wal.Entry, pad: Wal.Pad)
    requires |pads| == |es|
    ensures Wal.EncodeLog(es + [e], pads + [pad]) == Wal.EncodeLog(es, pads) + Wal.Encode(e, pad)
    decreases |es|
  {
    hide Wal.Encode;
    if es == [] {
      assert es + [e] == [e] && pads + [pad] == [pad];
    } else {
      assert (es + [e])[1..] == es[1..] + [e] && (pads + [pad])[1..] == pads[1..] + [pad];
      EncodeSnoc(es[1..], pads[1..], e, pad);
    }
  }

  /** An append that is cut short anywhere tears the log. */
  lemma CutTears(file: seq<byte>, log: Log, pads: seq<Wal.Pad>, r: Record, pad: Wal.Pad, k: nat)
    requires Denotes(file, log, pads, []) && Loggable(r) && k < Wal.EntryLength(EntryOf(r))
    ensures Denotes(file + Wal.Encode(EntryOf(r), pad)[..k], log.(torn := true), pads, Wal.Encode(EntryOf(r), pad)[..k])
  {
    hide Wal.ReadEntry, Wal.EncodeLog, Wal.Encode;
    Wal.ReadTorn(EntryOf(r), pad, k);
  }

  /** What is appended behind a tear stays unread if and only if the reader stops there still. */
  lemma AppendBehindIff(file: seq<byte>, log: Log, pads: seq<Wal.Pad>, rest: seq<byte>, more: seq<byte>, r: Record)
    requires Denotes(file, log, pads, rest) && log.torn
    ensures Denotes(file + more, log.(unread := log.unread + [r]), pads, rest + more)
       <==> Wal.ReadEntry(rest + more) == Wal.Stop
  {
    hide Wal.ReadEntry, Wal.EncodeLog;
    assert file + more == Wal.EncodeLog(EntriesOf(log.entries), pads) + (rest + more);
  }

  /** When it does for an entry that was torn in its payload. */
  lemma TornPayloadIff(log: Log, pads: seq<Wal.Pad>, x: Record, pad: Wal.Pad, k: nat, later: seq<byte>)
    requires (forall r :: r in log.entries ==> Loggable(r)) && |pads| == |log.entries| && log.torn
    requires Loggable(x) && Wal.HEADER <= k <= Wal.EntryLength(EntryOf(x))
    ensures var p := Wal.Payload(x.tag, x.point.ts, x.point.value.bits);
      var rest := Wal.Torn(x.tag, x.point.ts, x.point.value.bits, pad, k, later);
      Denotes(Wal.EncodeLog(EntriesOf(log.entries), pads) + rest, log, pads, rest)
      <==> k + |later| < Wal.HEADER + |p| || Wal.Checksum32(Wal.Filled(p, k, later)) != Wal.Checksum32(p)
           || !Wal.WellFormed(Wal.Filled(p, k, later))
  {
    hide Wal.ReadEntry, Wal.EncodeLog, Wal.Payload, Wal.Torn, Wal.WellFormed, Wal.Checksum32;
    Wal.TornEntry(x.tag, x.point.ts, x.point.value.bits, pad, k, later);
  }

  // ---- the file along a run of the engine ----

  /** What a step of the engine does to the bytes of the log; a crash may leave any part of the entry
      that was being appended. */
  ghost predicate FileStep(s: State, step: Step, file: Option<seq<byte>>, file': Option<seq<byte>>) {
    match step
    case Start => file' == if file.Some? then file else Some([])
    case FinishAppend =>
      && s.phase.Appending? && Loggable(s.phase.record) && file.Some?
      && exists pad: Wal.Pad :: file' == Some(file.value + Wal.Encode(EntryOf(s.phase.record), pad))
    case Crash(cut) =>
      if cut && s.phase.Appending?
      then
        && Loggable(s.phase.record) && file.Some?
        && exists pad: Wal.Pad, k :: 0 < k < Wal.EntryLength(EntryOf(s.phase.record))
                                     && file' == Some(file.value + Wal.Encode(EntryOf(s.phase.record), pad)[..k])
      else file' == file
    case RemoveLog => file' == None
    case _ => file' == file
  }

  /** The bytes behind the readable entries. */
  function Behind(file: seq<byte>, log: Log): seq<byte>
    requires forall r :: r in log.entries ==> Loggable(r)
  {
    if Length(log.entries) <= |file| then file[Length(log.entries)..] else []
  }

  function Length(rs: seq<Record>): nat
    requires forall r :: r in rs ==> Loggable(r)
  {
    if rs == [] then 0 else Wal.EntryLength(EntryOf(rs[0])) + Length(rs[1..])
  }

  lemma {:induction false} LengthOf(rs: seq<Record>, pads: seq<Wal.Pad>)
    requires (forall r :: r in rs ==> Loggable(r)) && |pads| == |rs|
    ensures |Wal.EncodeLog(EntriesOf(rs), pads)| == Length(rs)
    decreases |rs|
  {
    if rs != [] {
      assert EntriesOf(rs)[1..] == EntriesOf(rs[1..]);
      LengthOf(rs[1..], pads[1..]);
    }
  }

  /** The file of the log is there when the log is, and holds it. */
  ghost predicate FileOf(file: Option<seq<byte>>, log: Option<Log>) {
    match log
    case None => file == None
    case Some(l) => file.Some? && exists pads, rest :: Denotes(file.value, l, pads, rest)
  }

  /** Behind a tear the reader still stops. */
  ghost predicate StillStops(file: Option<seq<byte>>, log: Option<Log>) {
    file.Some? && log.Some? && log.value.torn && (forall r :: r in log.value.entries ==> Loggable(r)) ==>
      Wal.ReadEntry(Behind(file.value, log.value)) == Wal.Stop
  }

  /** So along every run of the engine the file holds the log, if the reader stops wherever more was
      appended behind a tear. */
  lemma StepHolds(s: State, step: Step, file: Option<seq<byte>>, file': Option<seq<byte>>)
    requires s.cfg.pointSize > 0 && Apply(s, step).Some? && FileOf(file, s.log) && FileStep(s, step, file, file')
    requires StillStops(file', Apply(s, step).value.log)
    ensures FileOf(file', Apply(s, step).value.log)
  {
    hide Wal.ReadEntry, Wal.EncodeLog, Wal.Encode, Denotes;
    var s' := Apply(s, step).value;
    match step
    case Start =>
      if s.log.None? {
        EmptyLog();
        assert Denotes([], s'.log.value, [], []);
      }
    case FinishAppend =>
      var pad: Wal.Pad :| file' == Some(file.value + Wal.Encode(EntryOf(s.phase.record), pad));
      var e := EntryOf(s.phase.record);
      assert Wal.Encode(e, pad)[..Wal.EntryLength(e)] == Wal.Encode(e, pad);
      MoreHolds(file.value, s.log.value, s'.log.value, s.phase.record, pad, Wal.EntryLength(e));
    case Crash(cut) =>
      if cut && s.phase.Appending? {
        var pad: Wal.Pad, k :| 0 < k < Wal.EntryLength(EntryOf(s.phase.record))
                               && file' == Some(file.value + Wal.Encode(EntryOf(s.phase.record), pad)[..k]);
        if s.log.Some? {
          MoreHolds(file.value, s.log.value, s'.log.value, s.phase.record, pad, k);
        }
      }
    case _ => assert s'.log == s.log || step.RemoveLog?;
  }

  /** The file before the run and after every step of it. */
  ghost predicate FilesAlong(s: State, steps: seq<Step>, files: seq<Option<seq<byte>>>)
    requires s.cfg.pointSize > 0
    decreases |steps|
  {
    && |files| == |steps| + 1
    && (steps != [] && Apply(s, steps[0]).Some? ==>
          && FileStep(s, steps[0], files[0], files[1])
          && StillStops(files[1], Apply(s, steps[0]).value.log)
          && (CfgKept(s, steps[0]); FilesAlong(Apply(s, steps[0]).value, steps[1..], files[1..])))
  }

  lemma {:induction false} RunHolds(s: State, steps: seq<Step>, files: seq<Option<seq<byte>>>)
    requires s.cfg.pointSize > 0 && Run(s, steps).Some? && FilesAlong(s, steps, files) && FileOf(files[0], s.log)
    ensures FileOf(files[|steps|], Run(s, steps).value.log)
    decreases |steps|
  {
    hide Apply, FileOf, FileStep, StillStops;
    if steps != [] {
      CfgKept(s, steps[0]);
      StepHolds(s, steps[0], files[0], files[1]);
      RunHolds(Apply(s, steps[0]).value, steps[1..], files[1..]);
    }
  }

  lemma EmptyLog()
    ensures Denotes([], Log([], false, []), [], [])
  {
  }

  lemma MoreHolds(file: seq<byte>, log: Log, log': Log, r: Record, pad: Wal.Pad, k: nat)
    requires Loggable(r) && k <= Wal.EntryLength(EntryOf(r))
    requires exists pads, rest :: Denotes(file, log, pads, rest)
    requires if log.torn then log'.torn && log'.entries == log.entries
             else if k < Wal.EntryLength(EntryOf(r)) then log' == log.(torn := true)
             else log' == log.(entries := log.entries + [r])
    requires StillStops(Some(file + Wal.Encode(EntryOf(r), pad)[..k]), Some(log'))
    ensures exists pads, rest :: Denotes(file + Wal.Encode(EntryOf(r), pad)[..k], log', pads, rest)
  {
    hide Wal.ReadEntry, Wal.EncodeLog, Wal.Encode;
    var pads, rest :| Denotes(file, log, pads, rest);
    var more := Wal.Encode(EntryOf(r), pad)[..k];
    if log.torn {
      LengthOf(log.entries, pads);
      assert file + more == Wal.EncodeLog(EntriesOf(log.entries), pads) + (rest + more);
      assert Behind(file + more, log') == rest + more;
      assert Denotes(file + more, log', pads, rest + more);
    } else if k < Wal.EntryLength(EntryOf(r)) {
      CutTears(file, log, pads, r, pad, k);
    } else {
      assert more == Wal.Encode(EntryOf(r), pad);
      AppendReadable(file, log, pads, r, pad);
    }
  }
}
