/** The write path of the storage engine (src/storage/engine.cpp) as a state machine over its disk
    and its memory, with a crash allowed between any two steps.

    On disk are the write-ahead log and the SSTable files, each file reduced to its points. A file is
    incomplete from the moment it is created or truncated until it is closed. In memory is one
    buffer of points a tag. */
module Engine {
  import opened Words
  import opened BlockCodec
  import opened MemTable
  import opened TimeOrder

  /** The sizes that decide when a buffer is full. */
  datatype Config = Config(threshold: nat, pointSize: nat)

  datatype Record = Record(tag: Tag, point: DataPoint)

  /** A log that ends in a torn entry is still appended to; the reader stops at the tear, so records
      behind it are unread. LogBytes says which bytes these are. */
  datatype Log = Log(entries: seq<Record>, torn: bool, unread: seq<Record>)

  /** `<tag>/<date>_<ts>.sst` */
  datatype Name = Name(tag: Tag, date: nat, ts: int)

  datatype File = Incomplete | Complete(points: seq<DataPoint>)

  /** What goes on once a flush is over. */
  datatype After = AfterReplay(next: nat) | AfterWrite(record: Record) | AfterClose

  datatype Phase =
    | Down
    | Replaying(next: nat)
    | Up
    | Appending(record: Record)
    | Appended(record: Record)
    | Flushing(tag: Tag, after: After)
    | FileOpened(tag: Tag, date: nat, after: After)
    | Closing

  /** The rest of a state is history: the records whose log entry was completed, those that Write
      reported as stored, those whose Write was cut off by a crash after logging, those that were
      logged behind a tear, and how many of the unread records are from before the last crash. */
  datatype State = State(cfg: Config, log: Option<Log>, files: map<Name, File>,
                         phase: Phase, mem: map<Tag, seq<DataPoint>>,
                         logged: seq<Record>, acked: seq<Record>, orphans: seq<Record>,
                         behind: set<Record>, base: nat)

  datatype Step =
    | Start
    | ReplayOne
    | ReplayDone
    | BeginWrite(record: Record)
    | FinishAppend
    | AddToMemory
    | OpenFile(date: nat)
    | CloseFile
    | BeginClose
    | CloseTag(tag: Tag)
    | RemoveLog
    | Crash(cut: bool)

  // ---- one step ----

  function BatchOf(cfg: Config, tag: Tag): (k: nat)
    requires cfg.pointSize > 0
    ensures k >= 1
  {
    BatchSize(cfg.threshold, cfg.pointSize + |tag|)
  }

  function Held(mem: map<Tag, seq<DataPoint>>, tag: Tag): seq<DataPoint> {
    if tag in mem then mem[tag] else []
  }

  function Entries(log: Option<Log>): seq<Record> {
    if log.Some? then log.value.entries else []
  }

  function Unread(log: Option<Log>): seq<Record> {
    if log.Some? then log.value.unread else []
  }

  function Torn(log: Option<Log>): bool {
    log.Some? && log.value.torn
  }

  /** Adds a record to memory; a full buffer is flushed next. */
  function AddRecord(s: State, r: Record, after: After): State
    requires s.cfg.pointSize > 0
  {
    var points := Held(s.mem, r.tag) + [r.point];
    var s' := s.(mem := s.mem[r.tag := points]);
    if |points| >= BatchOf(s.cfg, r.tag) then s'.(phase := Flushing(r.tag, after)) else Resume(s', after)
  }

  function Resume(s: State, after: After): State {
    match after
    case AfterReplay(next) => s.(phase := Replaying(next))
    case AfterWrite(r) => s.(phase := Up, acked := s.acked + [r])
    case AfterClose => s.(phase := Closing)
  }

  function FileName(s: State, tag: Tag, date: nat): Name
    requires Held(s.mem, tag) != []
  {
    Name(tag, date, Held(s.mem, tag)[0].ts)
  }

  /** The record of a Write that is logged but not yet acknowledged. */
  function InFlight(phase: Phase): seq<Record> {
    match phase
    case Appended(r) => [r]
    case Flushing(_, AfterWrite(r)) => [r]
    case FileOpened(_, _, AfterWrite(r)) => [r]
    case _ => []
  }

  /** What a step makes of a state, if it can be taken there. A crash while an entry is being appended
      may cut it short. */
  function Apply(s: State, step: Step): Option<State>
    requires s.cfg.pointSize > 0
  {
    match step
    case Start =>
      if s.phase != Down then None
      else Some(s.(log := if s.log.Some? then s.log else Some(Log([], false, [])), mem := map[], phase := Replaying(0)))
    case ReplayOne =>
      if s.phase.Replaying? && s.phase.next < |Entries(s.log)|
      then Some(AddRecord(s, Entries(s.log)[s.phase.next], AfterReplay(s.phase.next + 1)))
      else None
    case ReplayDone =>
      if s.phase == Replaying(|Entries(s.log)|) then Some(s.(phase := Up)) else None
    case BeginWrite(r) =>
      if s.phase == Up then Some(s.(phase := Appending(r))) else None
    case FinishAppend =>
      if s.phase.Appending? && s.log.Some?
      then
        var r, log := s.phase.record, s.log.value;
        var log' := if log.torn then log.(unread := log.unread + [r]) else log.(entries := log.entries + [r]);
        Some(s.(log := Some(log'), logged := s.logged + [r], phase := Appended(r),
                behind := if log.torn then s.behind + {r} else s.behind))
      else None
    case AddToMemory =>
      if s.phase.Appended? then Some(AddRecord(s, s.phase.record, AfterWrite(s.phase.record))) else None
    case OpenFile(date) =>
      if s.phase.Flushing? && Held(s.mem, s.phase.tag) != []
      then Some(s.(files := s.files[FileName(s, s.phase.tag, date) := Incomplete],
                   phase := FileOpened(s.phase.tag, date, s.phase.after)))
      else None
    case CloseFile =>
      if s.phase.FileOpened? && Held(s.mem, s.phase.tag) != []
      then
        var tag, points := s.phase.tag, Held(s.mem, s.phase.tag);
        Some(Resume(s.(files := s.files[FileName(s, tag, s.phase.date) := Complete(points)],
                       mem := s.mem[tag := []]), s.phase.after))
      else None
    case BeginClose =>
      if s.phase == Up then Some(s.(phase := Closing)) else None
    case CloseTag(tag) =>
      if s.phase == Closing && Held(s.mem, tag) != [] then Some(s.(phase := Flushing(tag, AfterClose))) else None
    case RemoveLog =>
      if s.phase == Closing && forall tag :: tag in s.mem ==> s.mem[tag] == []
      then Some(s.(log := None, phase := Down, mem := map[], base := 0))
      else None
    case Crash(cut) =>
      var log' := if cut && s.phase.Appending? && s.log.Some? then Some(s.log.value.(torn := true)) else s.log;
      Some(s.(log := log', phase := Down, mem := map[], orphans := s.orphans + InFlight(s.phase),
              base := |Unread(log')|))
  }

  function Initial(cfg: Config): State {
    State(cfg, None, map[], Down, map[], [], [], [], {}, 0)
  }

  /** The state after a list of steps, if every one of them can be taken. */
  function Run(s: State, steps: seq<Step>): Option<State>
    requires s.cfg.pointSize > 0
    decreases |steps|
  {
    if steps == [] then Some(s)
    else
      match Apply(s, steps[0])
      case None => None
      case Some(s') =>
        CfgKept(s, steps[0]);
        Run(s', steps[1..])
  }

  lemma CfgKept(s: State, step: Step)
    requires s.cfg.pointSize > 0
    ensures Apply(s, step).Some? ==> Apply(s, step).value.cfg == s.cfg
  {
  }

  // ---- the points of a tag ----

  function Of(rs: seq<Record>, tag: Tag): seq<DataPoint> {
    if rs == [] then [] else (if rs[0].tag == tag then [rs[0].point] else []) + Of(rs[1..], tag)
  }

  lemma {:induction false} OfConcat(a: seq<Record>, b: seq<Record>, tag: Tag)
    ensures Of(a + b, tag) == Of(a, tag) + Of(b, tag)
  {
    if a == [] {
      assert a + b == b;
    } else {
      assert (a + b)[0] == a[0] && (a + b)[1..] == a[1..] + b;
      OfConcat(a[1..], b, tag);
      var first := if a[0].tag == tag then [a[0].point] else [];
      assert first + (Of(a[1..], tag) + Of(b, tag)) == (first + Of(a[1..], tag)) + Of(b, tag);
    }
  }

  lemma OfSnoc(a: seq<Record>, r: Record, tag: Tag)
    ensures Of(a + [r], tag) == Of(a, tag) + if r.tag == tag then [r.point] else []
  {
    OfConcat(a, [r], tag);
    assert [r][1..] == [];
  }

  lemma {:induction false} OfMember(rs: seq<Record>, tag: Tag, p: DataPoint)
    ensures Record(tag, p) in rs <==> p in Of(rs, tag)
  {
    if rs != [] {
      OfMember(rs[1..], tag, p);
      assert forall r :: r in rs <==> r == rs[0] || r in rs[1..];
    }
  }

  /** The point is in some complete file of its tag. */
  ghost predicate OnDisk(files: map<Name, File>, tag: Tag, p: DataPoint) {
    exists n :: n in files && n.tag == tag && files[n].Complete? && p in files[n].points
  }

  // ---- when Write may be called ----

  /** The timestamp is later than that of every record of the tag logged so far. */
  ghost predicate Fresh(logged: seq<Record>, r: Record) {
    forall p :: p in Of(logged, r.tag) ==> p.ts < r.point.ts
  }

  /** Per tag, timestamps strictly increase. */
  ghost predicate Allowed(s: State, step: Step) {
    step.BeginWrite? ==> Fresh(s.logged, step.record)
  }

  ghost predicate AllAllowed(s: State, steps: seq<Step>)
    requires s.cfg.pointSize > 0
    decreases |steps|
  {
    steps != [] ==>
      && Allowed(s, steps[0])
      && (Apply(s, steps[0]).Some? ==>
            (CfgKept(s, steps[0]); AllAllowed(Apply(s, steps[0]).value, steps[1..])))
  }

  // ---- the invariant ----

  /** The unread records of this session: those logged behind the tear since the last start. */
  function Tail(s: State): seq<Record> {
    if s.base <= |Unread(s.log)| then Unread(s.log)[s.base..] else []
  }

  /** The records that go through memory in this session. */
  function Session(s: State): seq<Record> {
    Entries(s.log) + Tail(s)
  }

  /** The records logged before the current log was created. */
  function OldRecords(s: State): seq<Record> {
    var n := |Entries(s.log)| + |Unread(s.log)|;
    if n <= |s.logged| then s.logged[..|s.logged| - n] else []
  }

  /** No point of w has this time. */
  ghost predicate NotNamed(ts: int, w: seq<DataPoint>) {
    forall q :: q in w ==> q.ts != ts
  }

  /** Some complete file of the tag holds the point and is named after no time in w. With the readable
      part of the log as w, the file is never written again. */
  ghost predicate Kept(files: map<Name, File>, tag: Tag, p: DataPoint, w: seq<DataPoint>) {
    exists n :: n in files && n.tag == tag && files[n].Complete? && p in files[n].points && NotNamed(n.ts, w)
  }

  predicate Replays(phase: Phase) {
    match phase
    case Replaying(_) => true
    case Flushing(_, AfterReplay(_)) => true
    case FileOpened(_, _, AfterReplay(_)) => true
    case _ => false
  }

  ghost predicate HistoryOk(s: State) {
    && s.cfg.pointSize > 0
    && s.base <= |Unread(s.log)| && (s.phase == Down || Replays(s.phase) ==> s.base == |Unread(s.log)|)
    && (Unread(s.log) != [] ==> Torn(s.log))
    && s.logged == OldRecords(s) + (Entries(s.log) + Unread(s.log))
    && (forall tag :: Increasing(Of(s.logged, tag)))
    && MembersOk(s)
  }

  /** Logged are the acknowledged records, those a crash cut off and the one in flight; the unread ones
      were logged behind a tear. */
  ghost predicate MembersOk(s: State) {
    && (forall r :: r in s.acked || r in s.orphans || r in InFlight(s.phase) <==> r in s.logged)
    && (forall r :: r in Unread(s.log) ==> r in s.behind)
    && (forall r :: r in s.behind ==> r in s.logged)
  }

  ghost predicate OldStored(s: State) {
    forall r :: r in OldRecords(s) && r !in s.behind ==> Kept(s.files, r.tag, r.point, Of(Entries(s.log), r.tag))
  }

  /** A file named after a time in the readable log starts at a batch boundary and holds what follows
      there; past the end of the readable log, w, it holds unread points, from u. */
  ghost predicate Aligned(ts: int, points: seq<DataPoint>, w: seq<DataPoint>, u: seq<DataPoint>, k: nat)
    requires k > 0
  {
    forall a :: 0 <= a < |w| && w[a].ts == ts ==> a % k == 0 && 0 < |points| <= k && Follows(points, a, w, u)
  }

  ghost predicate Follows(points: seq<DataPoint>, a: nat, w: seq<DataPoint>, u: seq<DataPoint>) {
    forall j :: 0 <= j < |points| ==> if a + j < |w| then points[j] == w[a + j] else points[j] in u
  }

  ghost predicate FileOk(s: State, n: Name)
    requires n in s.files && s.cfg.pointSize > 0
  {
    && (exists p :: p in Of(s.logged, n.tag) && p.ts == n.ts)
    && (s.files[n].Complete? ==>
          && (forall p :: p in s.files[n].points ==> p in Of(s.logged, n.tag))
          && Aligned(n.ts, s.files[n].points, Of(Entries(s.log), n.tag), Of(Unread(s.log), n.tag),
                     BatchOf(s.cfg, n.tag)))
  }

  ghost predicate FilesOk(s: State) {
    s.cfg.pointSize > 0 && forall n :: n in s.files ==> FileOk(s, n)
  }

  /** An unread record is flushed at most once. */
  ghost predicate FlushedOnce(s: State) {
    forall n1, n2, q :: n1 in s.files && n2 in s.files && n1.tag == n2.tag
                        && s.files[n1].Complete? && s.files[n2].Complete?
                        && q in s.files[n1].points && q in s.files[n2].points && q in Of(Unread(s.log), n1.tag)
      ==> n1 == n2
  }

  /** How many records of the session have gone through memory. */
  function Processed(s: State): nat {
    match s.phase
    case Down => 0
    case Replaying(next) => next
    case Appended(_) => if Session(s) == [] then 0 else |Session(s)| - 1
    case Flushing(_, AfterReplay(next)) => next
    case FileOpened(_, _, AfterReplay(next)) => next
    case _ => |Session(s)|
  }

  predicate IsClosing(phase: Phase) {
    match phase
    case Closing => true
    case Flushing(_, after) => after == AfterClose
    case FileOpened(_, _, after) => after == AfterClose
    case _ => false
  }

  predicate IsFlushing(phase: Phase, tag: Tag) {
    match phase
    case Flushing(t, _) => t == tag
    case FileOpened(t, _, _) => t == tag
    case _ => false
  }

  /** v are the points of a tag that went through memory, m those still there. The others are on disk,
      and they fill whole batches unless a close has begun. */
  ghost predicate TagOk(v: seq<DataPoint>, m: seq<DataPoint>, files: map<Name, File>, tag: Tag, k: nat,
                        closing: bool, flushing: bool)
    requires k > 0
  {
    && |m| <= |v| && m == v[|v| - |m|..]
    && |m| <= k && (|m| == k ==> flushing)
    && ((|v| - |m|) % k == 0 || (closing && m == []))
    && (forall j :: 0 <= j < |v| - |m| ==> OnDisk(files, tag, v[j]))
  }

  ghost predicate TagMemOk(s: State, tag: Tag)
    requires s.cfg.pointSize > 0 && Processed(s) <= |Session(s)|
  {
    TagOk(Of(Session(s)[..Processed(s)], tag), Held(s.mem, tag), s.files, tag,
          BatchOf(s.cfg, tag), IsClosing(s.phase), IsFlushing(s.phase, tag))
  }

  ghost predicate MemOk(s: State) {
    && s.cfg.pointSize > 0 && Processed(s) <= |Session(s)|
    && (s.phase != Down ==> s.log.Some? && forall tag :: TagMemOk(s, tag))
  }

  /** Where the points of the session begin that are not flushed yet. */
  function Flushed(s: State, tag: Tag): int {
    if Processed(s) <= |Session(s)| then |Of(Session(s)[..Processed(s)], tag)| - |Held(s.mem, tag)| else 0
  }

  /** z are the points of the session, the first lw of them from the readable log, the first b of them
      flushed. No file holds one of the others that is unread, and none is named after one, unless it
      is the file being written. */
  ghost predicate NewTail(files: map<Name, File>, tag: Tag, z: seq<DataPoint>, lw: nat, b: int, writing: bool) {
    forall j :: 0 <= j < |z| && lw <= j && b <= j ==>
      !OnDisk(files, tag, z[j]) && ((writing && j == b) || NoName(files, tag, z[j].ts))
  }

  ghost predicate NoName(files: map<Name, File>, tag: Tag, ts: int) {
    forall n :: n in files && n.tag == tag ==> n.ts != ts
  }

  ghost predicate TailOk(s: State) {
    forall tag :: TagTailOk(s, tag)
  }

  ghost predicate TagTailOk(s: State, tag: Tag) {
    NewTail(s.files, tag, Of(Session(s), tag), |Of(Entries(s.log), tag)|, Flushed(s, tag),
            s.phase.FileOpened? && s.phase.tag == tag)
  }

  ghost predicate FlushOk(s: State, tag: Tag, after: After) {
    && s.cfg.pointSize > 0
    && Held(s.mem, tag) != []
    && (after != AfterClose ==> |Held(s.mem, tag)| == BatchOf(s.cfg, tag))
  }

  ghost predicate PhaseOk(s: State) {
    match s.phase
    case Appending(r) => Fresh(s.logged, r)
    case Appended(r) => Session(s) != [] && Session(s)[|Session(s)| - 1] == r
    case Flushing(tag, after) => FlushOk(s, tag, after)
    case FileOpened(tag, date, after) =>
      FlushOk(s, tag, after) && FileName(s, tag, date) in s.files && s.files[FileName(s, tag, date)] == Incomplete
    case _ => true
  }

  ghost predicate Inv(s: State) {
    && HistoryOk(s) && OldStored(s) && FilesOk(s) && FlushedOnce(s)
    && MemOk(s) && TailOk(s) && PhaseOk(s)
  }

  // ---- the parts of the history ----

  /** The points of a tag, in the order they were logged: old ones, readable ones, unread ones of
      earlier sessions and of this one. */
  lemma LogParts(s: State, tag: Tag)
    requires HistoryOk(s)
    ensures var o, w, u, e, t := Of(OldRecords(s), tag), Of(Entries(s.log), tag), Of(Unread(s.log), tag),
                                 Of(Unread(s.log)[..s.base], tag), Of(Tail(s), tag);
            && Of(s.logged, tag) == o + (w + u) && u == e + t && Of(Session(s), tag) == w + t
            && Increasing(o + (w + (e + t)))
  {
    hide Of, Increasing;
    OfConcat(OldRecords(s), Entries(s.log) + Unread(s.log), tag);
    OfConcat(Entries(s.log), Unread(s.log), tag);
    assert Unread(s.log) == Unread(s.log)[..s.base] + Tail(s);
    OfConcat(Unread(s.log)[..s.base], Tail(s), tag);
    OfConcat(Entries(s.log), Tail(s), tag);
  }

  lemma IncreasingParts(o: seq<DataPoint>, w: seq<DataPoint>, e: seq<DataPoint>, t: seq<DataPoint>)
    requires Increasing(o + (w + (e + t)))
    ensures Increasing(w + t) && Increasing(w)
    ensures forall i, q :: 0 <= i < |w| && q in e + t ==> w[i].ts < q.ts
    ensures forall i, q :: 0 <= i < |w + t| && q in e ==> (w + t)[i].ts != q.ts
  {
    Split(o, w + (e + t));
    Split(w, e + t);
    Split(e, t);
    hide Increasing;
    forall i, q | 0 <= i < |w| && q in e + t
      ensures w[i].ts < q.ts
    {
      var j :| 0 <= j < |e + t| && (e + t)[j] == q;
    }
    forall i, j | 0 <= i < |w| && 0 <= j < |t|
      ensures w[i].ts < t[j].ts
    {
      assert t[j] in e + t;
    }
    Join(w, t);
    forall i, q | 0 <= i < |w + t| && q in e
      ensures (w + t)[i].ts != q.ts
    {
      assert q in e + t;
      var j :| 0 <= j < |e| && e[j] == q;
    }
  }

  lemma Split(a: seq<DataPoint>, b: seq<DataPoint>)
    requires Increasing(a + b)
    ensures Increasing(a) && Increasing(b)
    ensures forall i, j :: 0 <= i < |a| && 0 <= j < |b| ==> a[i].ts < b[j].ts
  {
    var s := a + b;
    assert forall i :: 0 <= i < |a| ==> s[i] == a[i];
    assert forall j :: 0 <= j < |b| ==> s[|a| + j] == b[j];
  }

  lemma Join(a: seq<DataPoint>, b: seq<DataPoint>)
    requires Increasing(a) && Increasing(b)
    requires forall i, j :: 0 <= i < |a| && 0 <= j < |b| ==> a[i].ts < b[j].ts
    ensures Increasing(a + b)
  {
  }

  /** The points of a tag that go through memory in this session, and how they relate to the log. */
  lemma SessionParts(s: State, tag: Tag)
    requires HistoryOk(s)
    ensures var w, u, z := Of(Entries(s.log), tag), Of(Unread(s.log), tag), Of(Session(s), tag);
            && |w| <= |z| && w == z[..|w|] && Increasing(z) && Increasing(w)
            && (forall j :: |w| <= j < |z| ==> z[j] in u)
            && (forall j, q :: 0 <= j < |w| && q in u ==> w[j].ts < q.ts)
            && (forall j :: 0 <= j < |z| ==> z[j] in Of(s.logged, tag))
    ensures forall q :: q in Of(Unread(s.log)[..s.base], tag) ==>
              q in Of(Unread(s.log), tag) && q !in Of(Session(s), tag)
    ensures forall q :: q in Of(Unread(s.log), tag) ==>
              q in Of(Unread(s.log)[..s.base], tag) || q in Of(Session(s), tag)[|Of(Entries(s.log), tag)|..]
  {
    LogParts(s, tag);
    hide Of;
    var o, w, u := Of(OldRecords(s), tag), Of(Entries(s.log), tag), Of(Unread(s.log), tag);
    var e, t := Of(Unread(s.log)[..s.base], tag), Of(Tail(s), tag);
    IncreasingParts(o, w, e, t);
    assert (w + t)[|w|..] == t;
  }

  lemma OfPrefix(rs: seq<Record>, n: nat, tag: Tag)
    requires n <= |rs|
    ensures |Of(rs[..n], tag)| <= |Of(rs, tag)|
    ensures Of(rs[..n], tag) == Of(rs, tag)[..|Of(rs[..n], tag)|]
  {
    assert rs == rs[..n] + rs[n..];
    OfConcat(rs[..n], rs[n..], tag);
  }

  // ---- every step keeps the invariant ----

  lemma InitialOk(cfg: Config)
    requires cfg.pointSize > 0
    ensures Inv(Initial(cfg))
  {
  }

  /** The states have the same disk and the same history of logged records. */
  ghost predicate SameDisk(s: State, s': State) {
    && s'.cfg == s.cfg && s'.files == s.files && s'.logged == s.logged && s'.behind == s.behind
    && Entries(s'.log) == Entries(s.log) && Unread(s'.log) == Unread(s.log)
  }

  lemma DiskStays(s: State, s': State)
    requires Inv(s) && SameDisk(s, s')
    ensures OldStored(s') && FilesOk(s') && FlushedOnce(s')
    ensures OldRecords(s') == OldRecords(s)
    ensures s'.base == s.base ==> Session(s') == Session(s)
  {
    hide Of, Increasing, BatchOf, HistoryOk, MemOk, TailOk, PhaseOk, Kept, Aligned;
    assert OldRecords(s') == OldRecords(s);
    forall n | n in s'.files
      ensures FileOk(s', n)
    {
      assert FileOk(s, n);
    }
  }

  /** After a crash, and at the start, nothing of the session is in memory. */
  lemma NothingYet(s: State)
    requires s.cfg.pointSize > 0 && s.base == |Unread(s.log)| && s.mem == map[]
    requires s.phase == Down || (s.phase == Replaying(0) && s.log.Some?)
    ensures Session(s) == Entries(s.log) && MemOk(s) && TailOk(s)
  {
    assert Session(s) == Entries(s.log) && Session(s)[..0] == [];
    hide BatchOf;
    EmptyOf();
  }

  lemma EmptyOf()
    ensures forall tag :: Of([], tag) == []
  {
  }

  lemma StartKeeps(s: State)
    requires Inv(s) && Apply(s, Start).Some?
    ensures Inv(Apply(s, Start).value)
  {
    hide Of, Increasing, BatchOf, OldStored, FilesOk, FlushedOnce, MemOk, TailOk;
    var s' := Apply(s, Start).value;
    DiskStays(s, s');
    NothingYet(s');
  }

  lemma CrashKeeps(s: State, cut: bool)
    requires Inv(s) && Apply(s, Crash(cut)).Some?
    ensures Inv(Apply(s, Crash(cut)).value)
  {
    hide Of, Increasing, BatchOf, OldStored, FilesOk, FlushedOnce, MemOk, TailOk;
    var s' := Apply(s, Crash(cut)).value;
    DiskStays(s, s');
    NothingYet(s');
  }

  lemma PhaseStepKeeps(s: State, step: Step)
    requires Inv(s) && Allowed(s, step) && Apply(s, step).Some?
    requires step.ReplayDone? || step.BeginWrite? || step.BeginClose? || step.CloseTag?
    ensures Inv(Apply(s, step).value)
  {
    hide Of, OldStored, FilesOk, FlushedOnce, Increasing, MemOk, TailOk, BatchOf, OldRecords;
    var s' := Apply(s, step).value;
    DiskStays(s, s');
    assert step.ReplayDone? ==> Session(s) == Entries(s.log);
    assert Processed(s') == Processed(s);
    hide Session;
    PhaseMemory(s, s');
  }

  lemma PhaseMemory(s: State, s': State)
    requires MemOk(s) && TailOk(s) && SameDisk(s, s') && s'.mem == s.mem
    requires Session(s') == Session(s) && Processed(s') == Processed(s) && (s.phase != Down && s'.log == s.log)
    requires !s.phase.FileOpened? && !s'.phase.FileOpened? && !s.phase.Flushing?
    requires IsClosing(s.phase) ==> IsClosing(s'.phase)
    ensures MemOk(s') && TailOk(s')
  {
    hide TagMemOk, TagTailOk, Session, Processed;
    forall tag
      ensures TagMemOk(s', tag) && TagTailOk(s', tag)
    {
      assert TagMemOk(s, tag) && TagTailOk(s, tag);
      TagStays(s, s', tag);
    }
  }

  lemma TagStays(s: State, s': State, tag: Tag)
    requires SameDisk(s, s') && s'.mem == s.mem && Session(s') == Session(s) && Processed(s') == Processed(s)
    requires s.cfg.pointSize > 0 && Processed(s) <= |Session(s)| && TagMemOk(s, tag) && TagTailOk(s, tag)
    requires !s.phase.FileOpened? && !s'.phase.FileOpened? && !s.phase.Flushing?
    requires IsClosing(s.phase) ==> IsClosing(s'.phase)
    ensures TagMemOk(s', tag) && TagTailOk(s', tag)
  {
    hide Of, NewTail, Session, BatchOf, OnDisk;
  }

  /** One more record of the session goes through memory. */
  lemma AddKeeps(s: State, r: Record, after: After)
    requires Inv(s) && (s.phase.Replaying? || s.phase.Appended?)
    requires Processed(s) < |Session(s)| && Session(s)[Processed(s)] == r
    requires after == if s.phase.Replaying? then AfterReplay(Processed(s) + 1) else AfterWrite(r)
    requires s.phase.Appended? ==> s.phase.record == r && Processed(s) + 1 == |Session(s)|
    ensures Inv(AddRecord(s, r, after))
  {
    hide Of, OldStored, FilesOk, FlushedOnce, TailOk, MemOk, Increasing, BatchOf, OldRecords, Session;
    var s' := AddRecord(s, r, after);
    DiskStays(s, s');
    NotFull(s, r.tag);
    AddedMemOk(s, s', Processed(s), r);
    assert HistoryOk(s');
    assert PhaseOk(s');
  }

  lemma NotFull(s: State, tag: Tag)
    requires MemOk(s) && s.phase != Down && !IsFlushing(s.phase, tag)
    ensures |Held(s.mem, tag)| < BatchOf(s.cfg, tag)
  {
    hide Of, BatchOf;
    assert TagMemOk(s, tag);
  }

  lemma AddedMemOk(s: State, s': State, d: nat, r: Record)
    requires MemOk(s) && TailOk(s) && (s.phase.Replaying? || s.phase.Appended?)
    requires SameDisk(s, s') && Session(s') == Session(s) && s'.phase != Down && s'.log == s.log && s'.base == s.base
    requires d == Processed(s) && Processed(s') == d + 1 <= |Session(s)| && Session(s)[d] == r
    requires s'.mem == s.mem[r.tag := Held(s.mem, r.tag) + [r.point]] && !IsClosing(s'.phase)
    requires !s'.phase.FileOpened?
    requires forall t :: IsFlushing(s'.phase, t) <==> t == r.tag && |Held(s.mem, t)| + 1 >= BatchOf(s.cfg, t)
    ensures MemOk(s') && TailOk(s')
  {
    hide Of, BatchOf, Session;
    var es := Session(s);
    assert es[..d + 1] == es[..d] + [r];
    forall tag
      ensures TagMemOk(s', tag) && TagTailOk(s', tag)
    {
      hide TagOk, NewTail;
      OfSnoc(es[..d], r, tag);
      assert TagMemOk(s, tag) && TagTailOk(s, tag);
      TagAdds(Of(es[..d], tag), Held(s.mem, tag), s.files, tag, BatchOf(s.cfg, tag), r, IsFlushing(s'.phase, tag));
      assert Flushed(s', tag) == Flushed(s, tag);
    }
  }

  lemma TagAdds(v: seq<DataPoint>, m: seq<DataPoint>, files: map<Name, File>, tag: Tag, k: nat, r: Record, full: bool)
    requires k > 0 && TagOk(v, m, files, tag, k, false, false)
    requires r.tag == tag ==> (full <==> |m| + 1 >= k)
    requires r.tag != tag ==> !full
    ensures if r.tag == tag then TagOk(v + [r.point], m + [r.point], files, tag, k, false, full)
            else TagOk(v + [], m, files, tag, k, false, full)
  {
  }

  // ---- a completed entry ----

  /** A completed entry extends the log, in its readable or in its unread part. */
  lemma FinishAppendKeeps(s: State)
    requires Inv(s) && Apply(s, FinishAppend).Some?
    ensures Inv(Apply(s, FinishAppend).value)
  {
    hide Of, Increasing, BatchOf, TagOk, Aligned, Kept, FileOk, NewTail, OldStored, FlushedOnce, FilesOk, TailOk, MemOk;
    var s' := Apply(s, FinishAppend).value;
    AppendedHistory(s, s', s.phase.record);
    AppendedOld(s, s', s.phase.record);
    AppendedFiles(s, s', s.phase.record);
    AppendedMemory(s, s', s.phase.record);
  }

  ghost predicate AppendedTo(s: State, s': State, r: Record) {
    && s.cfg.pointSize > 0 && s.phase == Appending(r) && Apply(s, FinishAppend) == Some(s')
  }

  lemma AppendedHistory(s: State, s': State, r: Record)
    requires Inv(s) && AppendedTo(s, s', r)
    ensures HistoryOk(s') && OldRecords(s') == OldRecords(s) && Session(s') == Session(s) + [r]
  {
    InvHistory(s);
    hide Of, Increasing, Inv, Apply, OldRecords, Session;
    AppendedLog(s, s', r);
    AppendedSplit(s, s', r);
    AppendedTimes(s, s', r);
    AppendedMembers(s, s', r);
  }

  lemma AppendedMembers(s: State, s': State, r: Record)
    requires MembersOk(s) && s.phase == Appending(r) && s'.phase == Appended(r)
    requires s'.acked == s.acked && s'.orphans == s.orphans && s'.logged == s.logged + [r]
    requires Unread(s'.log) == if Torn(s.log) then Unread(s.log) + [r] else []
    requires s'.behind == if Torn(s.log) then s.behind + {r} else s.behind
    ensures MembersOk(s')
  {
    hide Torn, Unread;
  }

  lemma AppendedSplit(s: State, s': State, r: Record)
    requires HistoryOk(s)
    requires Entries(s'.log) == if Torn(s.log) then Entries(s.log) else Entries(s.log) + [r]
    requires Unread(s'.log) == if Torn(s.log) then Unread(s.log) + [r] else []
    requires s'.logged == s.logged + [r] && s'.base == s.base
    ensures OldRecords(s') == OldRecords(s) && Session(s') == Session(s) + [r]
    ensures s'.logged == OldRecords(s') + (Entries(s'.log) + Unread(s'.log))
  {
    hide Of, Increasing, Torn, Entries, Unread;
    var o, e, u := OldRecords(s), Entries(s.log), Unread(s.log);
    assert s'.logged[..|o|] == o;
    if Torn(s.log) {
      assert (u + [r])[s.base..] == u[s.base..] + [r];
      assert e + (u[s.base..] + [r]) == (e + u[s.base..]) + [r];
      assert o + (e + (u + [r])) == (o + (e + u)) + [r];
    } else {
      assert UnreadWhole(s) by { TornIfUnread(s); }
      assert (e + [r]) + [] == (e + u) + [r];
      assert o + ((e + [r]) + []) == (o + (e + u)) + [r];
    }
  }

  ghost predicate UnreadWhole(s: State) {
    Unread(s.log) == []
  }

  lemma TornIfUnread(s: State)
    requires HistoryOk(s) && !Torn(s.log)
    ensures UnreadWhole(s)
  {
  }

  lemma AppendedTimes(s: State, s': State, r: Record)
    requires (forall tag :: Increasing(Of(s.logged, tag))) && Fresh(s.logged, r) && s'.logged == s.logged + [r]
    ensures forall tag :: Increasing(Of(s'.logged, tag))
  {
    hide Of, Increasing;
    forall tag
      ensures Increasing(Of(s'.logged, tag))
    {
      OfSnoc(s.logged, r, tag);
      IncreasingSnoc(s.logged, r, tag);
    }
  }

  lemma IncreasingSnoc(rs: seq<Record>, r: Record, tag: Tag)
    requires Increasing(Of(rs, tag)) && Fresh(rs, r)
    ensures Increasing(Of(rs, tag) + if r.tag == tag then [r.point] else [])
  {
  }

  /** The readable and the unread points of a tag after the entry. */
  lemma AppendedParts(s: State, s': State, r: Record, tag: Tag)
    requires Inv(s) && AppendedTo(s, s', r)
    ensures var p := if r.tag == tag then [r.point] else [];
      && Of(Entries(s'.log), tag) == Of(Entries(s.log), tag) + (if Torn(s.log) then [] else p)
      && Of(Unread(s'.log), tag) == Of(Unread(s.log), tag) + (if Torn(s.log) then p else [])
      && Of(s'.logged, tag) == Of(s.logged, tag) + p
      && (!Torn(s.log) ==> Of(Unread(s.log), tag) == [])
  {
    hide Inv;
    assert HistoryOk(s) by { InvHistory(s); }
    hide *;
    AppendedLog(s, s', r);
    OfSnoc(Entries(s.log), r, tag);
    OfSnoc(Unread(s.log), r, tag);
    OfSnoc(s.logged, r, tag);
    EmptyOf();
    assert Of(Entries(s.log), tag) + [] == Of(Entries(s.log), tag);
    assert Of(Unread(s.log), tag) + [] == Of(Unread(s.log), tag);
  }

  lemma InvHistory(s: State)
    requires Inv(s)
    ensures HistoryOk(s)
  {
  }

  lemma AppendedLog(s: State, s': State, r: Record)
    requires HistoryOk(s) && AppendedTo(s, s', r)
    ensures Entries(s'.log) == if Torn(s.log) then Entries(s.log) else Entries(s.log) + [r]
    ensures Unread(s'.log) == if Torn(s.log) then Unread(s.log) + [r] else []
    ensures !Torn(s.log) ==> Unread(s.log) == []
    ensures s'.logged == s.logged + [r] && s'.files == s.files && s'.cfg == s.cfg && s'.mem == s.mem
    ensures s'.behind == (if Torn(s.log) then s.behind + {r} else s.behind)
    ensures s'.phase == Appended(r) && s'.acked == s.acked && s'.orphans == s.orphans && s'.base == s.base
    ensures Torn(s'.log) == Torn(s.log)
  {
  }

  lemma AppendedOld(s: State, s': State, r: Record)
    requires Inv(s) && AppendedTo(s, s', r) && OldRecords(s') == OldRecords(s)
    ensures OldStored(s')
  {
    hide Of, Increasing, BatchOf, Aligned, FlushedOnce, MemOk, TailOk;
    AppendedLog(s, s', r);
    forall q | q in OldRecords(s') && q !in s'.behind
      ensures Kept(s'.files, q.tag, q.point, Of(Entries(s'.log), q.tag))
    {
      AppendedParts(s, s', r, q.tag);
      assert Kept(s.files, q.tag, q.point, Of(Entries(s.log), q.tag));
      KeptOnAppend(s, r, q.tag, q.point, if Torn(s.log) || r.tag != q.tag then [] else [r.point]);
    }
  }

  /** No file is named after the time of a fresh record. */
  lemma KeptOnAppend(s: State, r: Record, tag: Tag, p: DataPoint, more: seq<DataPoint>)
    requires FilesOk(s) && Fresh(s.logged, r)
    requires more == [] || (r.tag == tag && more == [r.point])
    requires Kept(s.files, tag, p, Of(Entries(s.log), tag))
    ensures Kept(s.files, tag, p, Of(Entries(s.log), tag) + more)
  {
    hide Of, BatchOf, Aligned;
    var w := Of(Entries(s.log), tag);
    var n :| n in s.files && n.tag == tag && s.files[n].Complete? && p in s.files[n].points && NotNamed(n.ts, w);
    assert FileOk(s, n);
    assert NotNamed(n.ts, w + more);
  }

  lemma AppendedFiles(s: State, s': State, r: Record)
    requires Inv(s) && AppendedTo(s, s', r)
    ensures FilesOk(s') && FlushedOnce(s')
  {
    hide Of, Increasing, BatchOf, OldStored, MemOk, TailOk;
    AppendedLog(s, s', r);
    forall n | n in s'.files
      ensures FileOk(s', n)
    {
      hide Aligned;
      assert FileOk(s, n);
      AppendedParts(s, s', r, n.tag);
      if s.files[n].Complete? {
        AlignedOnAppend(n.ts, s.files[n].points, Of(Entries(s.log), n.tag), Of(Unread(s.log), n.tag),
                        BatchOf(s.cfg, n.tag), if r.tag == n.tag then [r.point] else [], Torn(s.log));
      }
    }
    forall n1, n2, q | n1 in s'.files && n2 in s'.files && n1.tag == n2.tag
                       && s'.files[n1].Complete? && s'.files[n2].Complete?
                       && q in s'.files[n1].points && q in s'.files[n2].points && q in Of(Unread(s'.log), n1.tag)
      ensures n1 == n2
    {
      hide Aligned;
      AppendedParts(s, s', r, n1.tag);
      assert FileOk(s, n1);
    }
  }

  lemma AlignedOnAppend(ts: int, points: seq<DataPoint>, w: seq<DataPoint>, u: seq<DataPoint>, k: nat,
                        p: seq<DataPoint>, torn: bool)
    requires k > 0 && Aligned(ts, points, w, u, k) && |p| <= 1 && forall q :: q in p ==> q.ts != ts
    requires !torn ==> u == []
    ensures if torn then Aligned(ts, points, w + [], u + p, k) else Aligned(ts, points, w + p, u + [], k)
  {
    assert w + [] == w && u + [] == u;
  }

  lemma AppendedMemory(s: State, s': State, r: Record)
    requires Inv(s) && AppendedTo(s, s', r) && Session(s') == Session(s) + [r]
    ensures MemOk(s') && TailOk(s') && PhaseOk(s')
  {
    hide Of, Increasing, BatchOf, OldStored, FilesOk, FlushedOnce, Aligned, TagOk;
    AppendedLog(s, s', r);
    assert Processed(s) == |Session(s)| == Processed(s');
    assert Session(s')[..|Session(s)|] == Session(s)[..|Session(s)|];
    forall tag
      ensures TagMemOk(s', tag) && TagTailOk(s', tag)
    {
      hide NewTail, Session, FileOk, HistoryOk;
      assert TagMemOk(s, tag) && TagTailOk(s, tag);
      assert Flushed(s', tag) == Flushed(s, tag);
      OfSnoc(Session(s), r, tag);
      AppendedParts(s, s', r, tag);
      if r.tag == tag {
        NeverNamed(s, r);
        NewTailSnoc(s.files, tag, Of(Session(s), tag), |Of(Entries(s.log), tag)|, |Of(Entries(s'.log), tag)|,
                    Flushed(s, tag), r.point);
      } else {
        assert Of(Session(s), tag) + [] == Of(Session(s), tag);
      }
    }
  }

  lemma NeverNamed(s: State, r: Record)
    requires Inv(s) && s.phase == Appending(r)
    ensures !OnDisk(s.files, r.tag, r.point) && NoName(s.files, r.tag, r.point.ts)
  {
    hide Of, BatchOf, Aligned, HistoryOk, MemOk, TailOk, OldStored, FlushedOnce;
    assert forall n :: n in s.files ==> FileOk(s, n);
  }

  lemma NewTailSnoc(files: map<Name, File>, tag: Tag, z: seq<DataPoint>, lw: nat, lw': nat, b: int, p: DataPoint)
    requires NewTail(files, tag, z, lw, b, false) && lw <= lw'
    requires !OnDisk(files, tag, p) && NoName(files, tag, p.ts)
    ensures NewTail(files, tag, z + [p], lw', b, false)
  {
    hide OnDisk, NoName;
  }

  // ---- flushing ----

  /** The tag is being flushed under this file name. */
  ghost predicate Writes(s: State, tag: Tag, date: nat) {
    && Held(s.mem, tag) != []
    && (s.phase.Flushing? || (s.phase.FileOpened? && s.phase.date == date)) && s.phase.tag == tag
  }

  /** What is known of the tag that is being flushed: its buffer is what has gone through memory of the
      points of the session from position b on, and b is a batch boundary. */
  lemma FlushedBatch(s: State, tag: Tag, date: nat) returns (b: nat)
    requires Inv(s) && Writes(s, tag, date)
    ensures var z, m := Of(Session(s), tag), Held(s.mem, tag);
            && b == Flushed(s, tag) && Processed(s) <= |Session(s)|
            && m != [] && |m| <= BatchOf(s.cfg, tag) && b + |m| <= |z| && m == z[b..b + |m|]
            && b % BatchOf(s.cfg, tag) == 0
            && b + |m| == |Of(Session(s)[..Processed(s)], tag)|
            && (forall j :: 0 <= j < b ==> OnDisk(s.files, tag, z[j]))
  {
    hide Of, OldStored, FilesOk, FlushedOnce, TailOk, Increasing, BatchOf, Session, HistoryOk, PhaseOk, OnDisk;
    var v, m := Of(Session(s)[..Processed(s)], tag), Held(s.mem, tag);
    assert TagMemOk(s, tag);
    b := |v| - |m|;
    OfPrefix(Session(s), Processed(s), tag);
  }

  /** The file about to be written may exist already, from before a crash. If it is complete, it is
      named after a readable record, and holds nothing but points that are in the readable log from
      position b on, or unread ones. */
  lemma Overwrites(s: State, tag: Tag, date: nat, b: nat)
    requires Inv(s) && Writes(s, tag, date) && b == Flushed(s, tag)
    requires b < |Of(Session(s), tag)| && Held(s.mem, tag)[0] == Of(Session(s), tag)[b]
    ensures var n0, w := FileName(s, tag, date), Of(Entries(s.log), tag);
      n0 in s.files && s.files[n0].Complete? ==>
        && b < |w| && Of(Session(s), tag)[b] == w[b]
        && forall p :: p in s.files[n0].points ==> p in w[b..] || p in Of(Unread(s.log), tag)
  {
    hide Of, BatchOf, Increasing, MemOk, OldStored, FlushedOnce, Session;
    var n0, w, u, z := FileName(s, tag, date), Of(Entries(s.log), tag), Of(Unread(s.log), tag), Of(Session(s), tag);
    if n0 in s.files && s.files[n0].Complete? {
      SessionParts(s, tag);
      assert TagTailOk(s, tag);
      assert b < |w| by {
        assert b >= |w| ==> NoName(s.files, tag, z[b].ts);
      }
      assert z[b] == z[..|w|][b];
      assert FileOk(s, n0);
      AlignedPoints(n0.ts, s.files[n0].points, w, u, BatchOf(s.cfg, tag), b);
    }
  }

  lemma AlignedPoints(ts: int, points: seq<DataPoint>, w: seq<DataPoint>, u: seq<DataPoint>, k: nat, b: nat)
    requires k > 0 && Aligned(ts, points, w, u, k) && b < |w| && w[b].ts == ts
    ensures forall p :: p in points ==> p in w[b..] || p in u
  {
    forall p | p in points
      ensures p in w[b..] || p in u
    {
      var j :| 0 <= j < |points| && points[j] == p;
      if b + j < |w| {
        assert w[b..][j] == p;
      }
    }
  }

  /** What writing the file can lose: points of its own batch, which are still in the log, and unread
      points of earlier sessions. */
  lemma RewriteLoses(s: State, tag: Tag, date: nat, f: File, b: nat)
    requires Inv(s) && Writes(s, tag, date) && b == Flushed(s, tag)
    requires b < |Of(Session(s), tag)| && Held(s.mem, tag)[0] == Of(Session(s), tag)[b]
    ensures var n0 := FileName(s, tag, date);
      var w, u, z := Of(Entries(s.log), tag), Of(Unread(s.log), tag), Of(Session(s), tag);
      && (forall t, p :: OnDisk(s.files, t, p) && (t != tag || b >= |w| || (p !in w[b..] && p !in u)) ==>
            OnDisk(s.files[n0 := f], t, p))
      && (forall j :: 0 <= j < b && OnDisk(s.files, tag, z[j]) ==> OnDisk(s.files[n0 := f], tag, z[j]))
      && (forall t, p :: Kept(s.files, t, p, Of(Entries(s.log), t)) ==>
            Kept(s.files[n0 := f], t, p, Of(Entries(s.log), t)))
  {
    hide Of, BatchOf, Increasing, MemOk, OldStored, FlushedOnce, Session, FilesOk, TailOk;
    var n0, w, z := FileName(s, tag, date), Of(Entries(s.log), tag), Of(Session(s), tag);
    Overwrites(s, tag, date, b);
    SessionParts(s, tag);
    forall j | 0 <= j < b && OnDisk(s.files, tag, z[j])
      ensures OnDisk(s.files[n0 := f], tag, z[j])
    {
      if n0 in s.files && s.files[n0].Complete? {
        Separate(z, w, Of(Unread(s.log), tag), b, j);
      }
      DiskKept(s.files, n0, f, tag, z[j]);
    }
    forall t, p | Kept(s.files, t, p, Of(Entries(s.log), t))
      ensures Kept(s.files[n0 := f], t, p, Of(Entries(s.log), t))
    {
      if n0 in s.files && s.files[n0].Complete? {
        assert w[b] in w;
      }
      KeptKept(s.files, n0, f, t, p, Of(Entries(s.log), t));
    }
    forall t, p | OnDisk(s.files, t, p) && (t != tag || b >= |w| || (p !in w[b..] && p !in Of(Unread(s.log), tag)))
      ensures OnDisk(s.files[n0 := f], t, p)
    {
      DiskKept(s.files, n0, f, t, p);
    }
  }

  /** Replacing a file that does not hold p loses no other place where p is stored. */
  lemma DiskKept(files: map<Name, File>, n0: Name, f: File, tag: Tag, p: DataPoint)
    requires OnDisk(files, tag, p)
    requires n0 in files && n0.tag == tag && files[n0].Complete? ==> p !in files[n0].points
    ensures OnDisk(files[n0 := f], tag, p)
  {
  }

  lemma KeptKept(files: map<Name, File>, n0: Name, f: File, tag: Tag, p: DataPoint, w: seq<DataPoint>)
    requires Kept(files, tag, p, w)
    requires n0 in files && files[n0].Complete? && n0.tag == tag ==> !NotNamed(n0.ts, w)
    ensures Kept(files[n0 := f], tag, p, w)
  {
  }

  /** Points of the session before position b are not among the later ones. */
  lemma Separate(z: seq<DataPoint>, w: seq<DataPoint>, u: seq<DataPoint>, b: nat, j: nat)
    requires |w| <= |z| && w == z[..|w|] && Increasing(z) && j < b < |w|
    requires forall j, q :: 0 <= j < |w| && q in u ==> w[j].ts < q.ts
    ensures z[j] !in w[b..] && z[j] !in u
  {
    assert z[j] == w[j];
    forall i | 0 <= i < |w[b..]|
      ensures w[b..][i] != z[j]
    {
      assert w[b..][i] == z[b + i];
    }
  }

  lemma OpenFileKeeps(s: State, date: nat)
    requires Inv(s) && Apply(s, OpenFile(date)).Some?
    ensures Inv(Apply(s, OpenFile(date)).value)
  {
    hide Of, Increasing, BatchOf, Aligned, Kept, FileOk, NewTail, OldStored, FlushedOnce, FilesOk, TailOk, MemOk;
    var s' := Apply(s, OpenFile(date)).value;
    var tag := s.phase.tag;
    var n0 := FileName(s, tag, date);
    var b := FlushedBatch(s, tag, date);
    RewriteLoses(s, tag, date, Incomplete, b);
    assert OldRecords(s') == OldRecords(s) && Session(s') == Session(s) && Processed(s') == Processed(s);
    assert OldStored(s') by { OldStays(s, s'); }
    OpenedFiles(s, s', tag, date, b);
    OpenedMemory(s, s', tag, date, b);
  }

  lemma OldStays(s: State, s': State)
    requires OldStored(s) && OldRecords(s') == OldRecords(s) && s'.behind == s.behind && s'.log == s.log
    requires forall t, p :: Kept(s.files, t, p, Of(Entries(s.log), t)) ==> Kept(s'.files, t, p, Of(Entries(s.log), t))
    ensures OldStored(s')
  {
    hide Of, Kept;
  }

  ghost predicate Opened(s: State, s': State, tag: Tag, date: nat) {
    && s.cfg.pointSize > 0 && s.phase.Flushing? && s.phase.tag == tag && Held(s.mem, tag) != []
    && Apply(s, OpenFile(date)) == Some(s')
  }

  lemma OpenedFiles(s: State, s': State, tag: Tag, date: nat, b: nat)
    requires Inv(s) && Opened(s, s', tag, date) && b < |Of(Session(s), tag)|
    requires Held(s.mem, tag)[0] == Of(Session(s), tag)[b]
    ensures FilesOk(s') && FlushedOnce(s')
  {
    hide Of, Increasing, BatchOf, Aligned, MemOk, OldStored, TailOk, Session;
    SessionParts(s, tag);
    forall n | n in s'.files
      ensures FileOk(s', n)
    {
      if n != FileName(s, tag, date) {
        assert FileOk(s, n);
      }
    }
  }

  /** The points of the tags that were on disk stay on disk while the next batch is being written. */
  lemma OpenedMemory(s: State, s': State, tag: Tag, date: nat, b: nat)
    requires Inv(s) && Opened(s, s', tag, date) && b < |Of(Session(s), tag)| && b == Flushed(s, tag)
    requires Held(s.mem, tag)[0] == Of(Session(s), tag)[b]
    requires Session(s') == Session(s) && Processed(s') == Processed(s)
    requires forall j :: 0 <= j < b ==> OnDisk(s'.files, tag, Of(Session(s), tag)[j])
    requires forall t, p :: t != tag && OnDisk(s.files, t, p) ==> OnDisk(s'.files, t, p)
    ensures MemOk(s') && TailOk(s')
  {
    hide Of, Increasing, BatchOf, HistoryOk, OldStored, FilesOk, FlushedOnce, OnDisk, Session;
    assert HistoryOk(s);
    SessionParts(s, tag);
    forall t
      ensures TagMemOk(s', t) && TagTailOk(s', t)
    {
      hide NewTail;
      assert TagMemOk(s, t) && TagTailOk(s, t);
      OfPrefix(Session(s), Processed(s), t);
      var z, lw := Of(Session(s), t), |Of(Entries(s.log), t)|;
      if t == tag {
        TailOpened(s.files, FileName(s, tag, date), z, lw, b);
      } else {
        TailElsewhere(s.files, FileName(s, tag, date), Incomplete, t, z, lw, Flushed(s, t), false);
      }
    }
  }

  lemma TailOpened(files: map<Name, File>, n0: Name, z: seq<DataPoint>, lw: nat, b: nat)
    requires NewTail(files, n0.tag, z, lw, b, false) && Increasing(z) && b < |z| && n0.ts == z[b].ts
    ensures NewTail(files[n0 := Incomplete], n0.tag, z, lw, b, true)
  {
  }

  lemma TailElsewhere(files: map<Name, File>, n0: Name, f: File, t: Tag, z: seq<DataPoint>, lw: nat, b: int, writing: bool)
    requires NewTail(files, t, z, lw, b, writing) && t != n0.tag
    ensures NewTail(files[n0 := f], t, z, lw, b, writing)
  {
  }

  /** The state after the file is closed: the batch m, at position b of the session, is on disk. */
  ghost predicate Closed(s: State, s': State, tag: Tag, date: nat, b: nat) {
    && s.cfg.pointSize > 0 && s.phase.FileOpened? && s.phase.tag == tag && s.phase.date == date
    && Held(s.mem, tag) != [] && Apply(s, CloseFile) == Some(s') && Processed(s) <= |Session(s)|
    && b == Flushed(s, tag) && b + |Held(s.mem, tag)| <= |Of(Session(s), tag)|
    && Held(s.mem, tag) == Of(Session(s), tag)[b..b + |Held(s.mem, tag)|]
    && b % BatchOf(s.cfg, tag) == 0 && |Held(s.mem, tag)| <= BatchOf(s.cfg, tag)
    && b + |Held(s.mem, tag)| == |Of(Session(s)[..Processed(s)], tag)|
  }

  lemma CloseFileKeeps(s: State)
    requires Inv(s) && Apply(s, CloseFile).Some?
    ensures Inv(Apply(s, CloseFile).value)
  {
    hide Of, Increasing, BatchOf, Aligned, Kept, FileOk, NewTail, OldStored, FlushedOnce, FilesOk, TailOk, MemOk, OnDisk;
    var s' := Apply(s, CloseFile).value;
    var tag, date, m := s.phase.tag, s.phase.date, Held(s.mem, s.phase.tag);
    var b := FlushedBatch(s, tag, date);
    RewriteLoses(s, tag, date, Complete(m), b);
    assert OldRecords(s') == OldRecords(s) && Session(s') == Session(s) && Processed(s') == Processed(s);
    OldStays(s, s');
    ClosedFiles(s, s', tag, date, b);
    ClosedOnce(s, s', tag, date, b);
    ClosedMemory(s, s', tag, date, b);
  }

  lemma ClosedFiles(s: State, s': State, tag: Tag, date: nat, b: nat)
    requires Inv(s) && Closed(s, s', tag, date, b)
    ensures FilesOk(s')
  {
    hide Of, Increasing, BatchOf, MemOk, OldStored, TailOk, FlushedOnce, Session;
    SessionParts(s, tag);
    var n0, w, u, z, m := FileName(s, tag, date), Of(Entries(s.log), tag), Of(Unread(s.log), tag),
                          Of(Session(s), tag), Held(s.mem, tag);
    forall n | n in s'.files
      ensures FileOk(s', n)
    {
      if n != n0 {
        assert FileOk(s, n);
      } else {
        NewFileAligned(n0.ts, m, z, w, u, BatchOf(s.cfg, tag), b);
        assert FileOk(s, n0);
      }
    }
  }

  lemma NewFileAligned(ts: int, m: seq<DataPoint>, z: seq<DataPoint>, w: seq<DataPoint>, u: seq<DataPoint>, k: nat, b: nat)
    requires k > 0 && |w| <= |z| && w == z[..|w|] && Increasing(z)
    requires forall j :: |w| <= j < |z| ==> z[j] in u
    requires 0 < |m| <= k && b + |m| <= |z| && m == z[b..b + |m|] && ts == m[0].ts && b % k == 0
    ensures Aligned(ts, m, w, u, k)
  {
    forall a | 0 <= a < |w| && w[a].ts == ts
      ensures a == b
    {
      assert z[a] == w[a];
    }
  }

  lemma ClosedOnce(s: State, s': State, tag: Tag, date: nat, b: nat)
    requires Inv(s) && Closed(s, s', tag, date, b)
    ensures FlushedOnce(s')
  {
    hide Of, Increasing, BatchOf, Aligned, MemOk, OldStored, FilesOk, HistoryOk, Session;
    assert HistoryOk(s);
    SessionParts(s, tag);
    var n0, w, u, z, m := FileName(s, tag, date), Of(Entries(s.log), tag), Of(Unread(s.log), tag),
                          Of(Session(s), tag), Held(s.mem, tag);
    assert TagTailOk(s, tag);
    assert forall a :: 0 <= a < |w| ==> z[a] == w[a];
    forall q | q in m && q in u
      ensures !OnDisk(s.files, tag, q)
    {
      var i :| 0 <= i < |m| && m[i] == q;
      assert z[b + i] == q;
    }
    forall n1, n2, q | n1 in s'.files && n2 in s'.files && n1.tag == n2.tag
                       && s'.files[n1].Complete? && s'.files[n2].Complete?
                       && q in s'.files[n1].points && q in s'.files[n2].points && q in Of(Unread(s'.log), n1.tag)
      ensures n1 == n2
    {
    }
  }

  /** Memory after a flush. */
  lemma ClosedMemory(s: State, s': State, tag: Tag, date: nat, b: nat)
    requires Inv(s) && Closed(s, s', tag, date, b)
    requires Session(s') == Session(s) && Processed(s') == Processed(s)
    requires forall j :: 0 <= j < b ==> OnDisk(s'.files, tag, Of(Session(s), tag)[j])
    requires forall t, p :: t != tag && OnDisk(s.files, t, p) ==> OnDisk(s'.files, t, p)
    ensures MemOk(s') && TailOk(s')
  {
    hide Of, Increasing, BatchOf, HistoryOk, OldStored, FilesOk, FlushedOnce, Session;
    var m, z := Held(s.mem, tag), Of(Session(s), tag);
    assert IsClosing(s'.phase) == IsClosing(s.phase);
    forall p | p in m
      ensures OnDisk(s'.files, tag, p)
    {
      assert FileName(s, tag, date) in s'.files;
    }
    hide OnDisk;
    AllProcessed(s);
    forall t
      ensures TagMemOk(s', t) && TagTailOk(s', t)
    {
      hide TagOk, NewTail;
      if t == tag {
        FlushedTag(s, s', tag, date, b);
      } else {
        OtherTag(s, s', tag, date, t);
      }
    }
  }

  lemma FlushedTag(s: State, s': State, tag: Tag, date: nat, b: nat)
    requires MemOk(s) && PhaseOk(s) && Closed(s, s', tag, date, b)
    requires Session(s') == Session(s) && Processed(s') == Processed(s) && IsClosing(s'.phase) == IsClosing(s.phase)
    requires forall j :: 0 <= j < b ==> OnDisk(s'.files, tag, Of(Session(s), tag)[j])
    requires forall p :: p in Held(s.mem, tag) ==> OnDisk(s'.files, tag, p)
    requires var v, z := Of(Session(s)[..Processed(s)], tag), Of(Session(s), tag);
      |v| == |z| || |z| == |Of(Entries(s.log), tag)|
    ensures TagMemOk(s', tag) && TagTailOk(s', tag)
  {
    hide Of, BatchOf, Session, TagOk, NewTail, OnDisk, TailOk;
    assert TagMemOk(s, tag);
    var v, z := Of(Session(s)[..Processed(s)], tag), Of(Session(s), tag);
    OfPrefix(Session(s), Processed(s), tag);
    TagFlushed(v, Held(s.mem, tag), z, b, s.files, s'.files, tag, BatchOf(s.cfg, tag), IsClosing(s.phase));
    NoTail(s'.files, tag, z, |Of(Entries(s.log), tag)|, |v|);
  }

  lemma OtherTag(s: State, s': State, tag: Tag, date: nat, t: Tag)
    requires MemOk(s) && TailOk(s) && t != tag
    requires s.cfg.pointSize > 0 && s.phase.FileOpened? && s.phase.tag == tag && s.phase.date == date
    requires Held(s.mem, tag) != [] && Apply(s, CloseFile) == Some(s')
    requires Session(s') == Session(s) && Processed(s') == Processed(s) && IsClosing(s'.phase) == IsClosing(s.phase)
    requires forall p :: OnDisk(s.files, t, p) ==> OnDisk(s'.files, t, p)
    ensures TagMemOk(s', t) && TagTailOk(s', t)
  {
    hide Of, BatchOf, Session, TagOk, NewTail, OnDisk;
    assert TagMemOk(s, t) && TagTailOk(s, t);
    TagUntouched(Of(Session(s)[..Processed(s)], t), Held(s.mem, t), s.files, s'.files, t, BatchOf(s.cfg, t),
                 IsClosing(s.phase));
    TailElsewhere(s.files, FileName(s, tag, date), Complete(Held(s.mem, tag)), t, Of(Session(s), t),
                  |Of(Entries(s.log), t)|, Flushed(s, t), false);
  }

  /** While a file is written, every record of the session has gone through memory, except in a replay,
      when the rest is readable. */
  lemma AllProcessed(s: State)
    requires HistoryOk(s) && MemOk(s) && s.phase.FileOpened?
    ensures forall t :: |Of(Session(s)[..Processed(s)], t)| == |Of(Session(s), t)|
              || |Of(Session(s), t)| == |Of(Entries(s.log), t)|
  {
    hide Of, BatchOf, TagMemOk;
    forall t
      ensures |Of(Session(s)[..Processed(s)], t)| == |Of(Session(s), t)|
           || |Of(Session(s), t)| == |Of(Entries(s.log), t)|
    {
      if Replays(s.phase) {
        assert Session(s) == Entries(s.log);
      } else {
        assert Session(s)[..|Session(s)|] == Session(s);
      }
    }
  }

  lemma NoTail(files: map<Name, File>, tag: Tag, z: seq<DataPoint>, lw: nat, b: nat)
    requires b == |z| || |z| == lw
    ensures NewTail(files, tag, z, lw, b, false)
  {
  }

  /** After the flush everything of the tag that went through memory is on disk. */
  lemma TagFlushed(v: seq<DataPoint>, m: seq<DataPoint>, z: seq<DataPoint>, b: nat, files: map<Name, File>,
                   files': map<Name, File>, tag: Tag, k: nat, closing: bool)
    requires k > 0 && TagOk(v, m, files, tag, k, closing, true)
    requires |v| <= |z| && v == z[..|v|]
    requires b + |m| == |v| && m == z[b..b + |m|] && b % k == 0 && (!closing ==> |m| == k)
    requires forall p :: p in m ==> OnDisk(files', tag, p)
    requires forall j :: 0 <= j < b ==> OnDisk(files', tag, z[j])
    ensures TagOk(v, [], files', tag, k, closing, false)
  {
    hide OnDisk;
    forall j | 0 <= j < |v|
      ensures OnDisk(files', tag, v[j])
    {
      if j >= b {
        assert v[j] == m[j - b];
      }
    }
    if !closing {
      NextBoundary(b, k);
    }
  }

  lemma TagUntouched(v: seq<DataPoint>, m: seq<DataPoint>, files: map<Name, File>, files': map<Name, File>,
                     tag: Tag, k: nat, closing: bool)
    requires k > 0 && TagOk(v, m, files, tag, k, closing, false)
    requires forall p :: OnDisk(files, tag, p) ==> OnDisk(files', tag, p)
    ensures TagOk(v, m, files', tag, k, closing, false)
  {
    hide OnDisk;
  }

  lemma NextBoundary(b: nat, k: nat)
    requires k > 0 && b % k == 0
    ensures (b + k) % k == 0
  {
    RemainderUnique(b + k, k, b / k + 1, 0);
  }

  // ---- the end of a close ----

  /** Once every buffer is empty, every record of the session is on disk. */
  lemma SessionOnDisk(s: State, r: Record)
    requires Inv(s) && Apply(s, RemoveLog).Some? && r in Session(s)
    ensures OnDisk(s.files, r.tag, r.point)
  {
    hide Of, Increasing, BatchOf, HistoryOk, OldStored, FilesOk, FlushedOnce, TailOk, Session, OnDisk;
    OfMember(Session(s), r.tag, r.point);
    assert Session(s)[..|Session(s)|] == Session(s);
    assert TagMemOk(s, r.tag);
    var z := Of(Session(s), r.tag);
    var j :| 0 <= j < |z| && z[j] == r.point;
  }

  /** So the log may go. */
  lemma RemoveLogKeeps(s: State)
    requires Inv(s) && Apply(s, RemoveLog).Some?
    ensures Inv(Apply(s, RemoveLog).value)
  {
    hide Of, Increasing, BatchOf, OnDisk, MemOk, TailOk, FlushedOnce, FilesOk, OldStored, Kept;
    var s' := Apply(s, RemoveLog).value;
    assert Entries(s'.log) == [] && Unread(s'.log) == [] && OldRecords(s') == s.logged && Session(s') == [];
    RemovedOld(s, s');
    RemovedFiles(s, s');
    NothingUnread(s');
  }

  lemma RemovedOld(s: State, s': State)
    requires Inv(s) && Apply(s, RemoveLog) == Some(s') && OldRecords(s') == s.logged && s'.log == None
    ensures OldStored(s')
  {
    hide Of, Increasing, BatchOf, OnDisk, MemOk, TailOk, FlushedOnce, FilesOk, Kept;
    EmptyOf();
    forall r | r in OldRecords(s') && r !in s'.behind
      ensures Kept(s'.files, r.tag, r.point, Of(Entries(s'.log), r.tag))
    {
      assert r in OldRecords(s) || r in Entries(s.log) || r in Unread(s.log);
      if r in OldRecords(s) {
        KeptIsOnDisk(s.files, r.tag, r.point, Of(Entries(s.log), r.tag));
      } else {
        SessionOnDisk(s, r);
      }
      OnDiskIsKept(s.files, r.tag, r.point);
    }
  }

  lemma RemovedFiles(s: State, s': State)
    requires FilesOk(s) && Apply(s, RemoveLog) == Some(s')
    ensures FilesOk(s')
  {
    hide Increasing, BatchOf, OnDisk;
    EmptyOf();
    forall n | n in s'.files
      ensures FileOk(s', n)
    {
      assert FileOk(s, n);
    }
  }

  lemma NothingUnread(s: State)
    requires s.log == None && s.phase == Down && s.base == 0 && s.cfg.pointSize > 0
    ensures FlushedOnce(s) && MemOk(s) && TailOk(s)
  {
    EmptyOf();
  }

  lemma KeptIsOnDisk(files: map<Name, File>, tag: Tag, p: DataPoint, w: seq<DataPoint>)
    requires Kept(files, tag, p, w)
    ensures OnDisk(files, tag, p)
  {
  }

  lemma OnDiskIsKept(files: map<Name, File>, tag: Tag, p: DataPoint)
    requires OnDisk(files, tag, p)
    ensures Kept(files, tag, p, [])
  {
    var n :| n in files && n.tag == tag && files[n].Complete? && p in files[n].points;
    assert NotNamed(n.ts, []);
  }

  lemma StepKeeps(s: State, step: Step)
    requires Inv(s) && Allowed(s, step) && Apply(s, step).Some?
    ensures Inv(Apply(s, step).value)
  {
    hide Inv;
    match step
    case Start => StartKeeps(s);
    case ReplayOne => ReplayKeeps(s);
    case AddToMemory => AddToMemoryKeeps(s);
    case FinishAppend => FinishAppendKeeps(s);
    case OpenFile(date) => OpenFileKeeps(s, date);
    case CloseFile => CloseFileKeeps(s);
    case RemoveLog => RemoveLogKeeps(s);
    case Crash(cut) => CrashKeeps(s, cut);
    case _ => PhaseStepKeeps(s, step);
  }

  lemma ReplayKeeps(s: State)
    requires Inv(s) && Apply(s, ReplayOne).Some?
    ensures Inv(Apply(s, ReplayOne).value)
  {
    hide AddRecord, OldStored, FilesOk, MemOk, TailOk, FlushedOnce, Of, Increasing, OldRecords;
    assert Session(s) == Entries(s.log);
    hide HistoryOk, Session;
    AddKeeps(s, Entries(s.log)[s.phase.next], AfterReplay(s.phase.next + 1));
  }

  lemma AddToMemoryKeeps(s: State)
    requires Inv(s) && Apply(s, AddToMemory).Some?
    ensures Inv(Apply(s, AddToMemory).value)
  {
    hide AddRecord, HistoryOk, OldStored, FilesOk, TailOk, FlushedOnce, Session;
    AddKeeps(s, s.phase.record, AfterWrite(s.phase.record));
  }

  /** The memory of the engine is the table of MemTable: what one call of Add does there is what
      AddRecord does here, the batch handed to the callback being the buffer that is flushed next. */
  lemma AddIsMemTableAdd(s: State, r: Record, after: After, buffers: map<Tag, TagBuffer>, flushed: seq<Batch>)
    requires s.cfg.pointSize > 0
    requires forall t :: Buffered(buffers, t) == Held(s.mem, t)
    ensures var (buffers', flushed') := AfterAdd(buffers, flushed, r.tag, r.point, s.cfg.threshold, s.cfg.pointSize);
            var s' := AddRecord(s, r, after);
            && (forall t :: Buffered(buffers', t) == if IsFlushing(s'.phase, t) then [] else Held(s'.mem, t))
            && flushed' == if s'.phase.Flushing? then flushed + [Batch(r.tag, Held(s'.mem, r.tag))] else flushed
  {
    hide BatchSize;
    assert Buffered(buffers, r.tag) == Held(s.mem, r.tag);
    var (buffers', flushed') := AfterAdd(buffers, flushed, r.tag, r.point, s.cfg.threshold, s.cfg.pointSize);
    var s' := AddRecord(s, r, after);
    forall t
      ensures Buffered(buffers', t) == if IsFlushing(s'.phase, t) then [] else Held(s'.mem, t)
    {
      assert Buffered(buffers, t) == Held(s.mem, t);
    }
  }
}
