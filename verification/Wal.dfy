/** The write-ahead log (src/storage/wal.cpp): a file of entries, each a header and a payload under
    a checksum.

    The header is written as the compiler lays the structure out, with padding after the one-byte
    type. Padding bytes are never initialised, so every entry carries arbitrary ones. */
module Wal {
  import opened Words
  import opened Crc32
  import VC = ValueCodec

  datatype Entry = Data(tag: seq<byte>, ts: int64, bits: uint64) | Checkpoint

  const PADDING: nat := 3
  const HEADER: nat := 9 + PADDING
  const DATA_POINT: byte := 0
  const CHECKPOINT: byte := 2

  type Pad = p: seq<byte> | |p| == PADDING witness [0, 0, 0]

  // ---- the format ----

  function Checksum32(data: seq<byte>): (c: nat)
    ensures c < TWO_32
  {
    WordBound(BitSerial(data));
    BitSerial(data) as int
  }

  lemma WordBound(x: bv32)
    ensures 0 <= x as int < TWO_32
  {
  }

  function Header(crc: nat, kind: byte, dataLen: nat, pad: Pad): (h: seq<byte>)
    ensures |h| == HEADER
  {
    ToBytes(crc, 4) + [kind] + pad + ToBytes(dataLen, 4)
  }

  /** A tag is stored under a 16-bit length, and cut to it. */
  function StoredTag(tag: seq<byte>): (t: seq<byte>)
    ensures |t| < 65536
  {
    tag[..|tag| % 65536]
  }

  function Payload(tag: seq<byte>, ts: int64, bits: uint64): (p: seq<byte>)
    ensures |p| == 18 + |StoredTag(tag)|
  {
    ToBytes(|tag| % 65536, 2) + StoredTag(tag) + ToBytes(ToU64(ts), 8) + ToBytes(bits, 8)
  }

  function Encode(e: Entry, pad: Pad): (s: seq<byte>)
    ensures |s| == EntryLength(e)
  {
    match e
    case Data(tag, ts, bits) =>
      var p := Payload(tag, ts, bits);
      Header(Checksum32(p), DATA_POINT, |p|, pad) + p
    case Checkpoint => Header(0, CHECKPOINT, 0, pad)
  }

  function EntryLength(e: Entry): (n: nat)
    ensures n >= HEADER
  {
    match e
    case Data(tag, _, _) => HEADER + 18 + |StoredTag(tag)|
    case Checkpoint => HEADER
  }

  /** An entry as the reader reports it. */
  function Logged(e: Entry): Entry {
    match e
    case Data(tag, ts, bits) => Data(StoredTag(tag), ts, bits)
    case Checkpoint => Checkpoint
  }

  function EncodeLog(es: seq<Entry>, pads: seq<Pad>): seq<byte>
    requires |pads| == |es|
  {
    if es == [] then [] else Encode(es[0], pads[0]) + EncodeLog(es[1..], pads[1..])
  }

  function LoggedAll(es: seq<Entry>): (r: seq<Entry>)
    ensures |r| == |es|
  {
    if es == [] then [] else [Logged(es[0])] + LoggedAll(es[1..])
  }

  // ---- the writer ----

  datatype Outcome = Returned(ok: bool) | Threw

  class WalWriter {
    var file: seq<byte>
    var size: nat
    var isOpen: bool

    constructor ()
      ensures file == [] && size == 0 && !isOpen
    {
      file, size, isOpen := [], 0, false;
    }

    /** Opens a log that holds these bytes already, to append to it. */
    method Open(existing: seq<byte>)
      modifies this
      ensures file == existing && size == |existing| && isOpen
    {
      file, size, isOpen := existing, |existing|, true;
    }

    method WriteRaw(data: seq<byte>) returns (ok: bool)
      modifies this
      ensures ok == old(isOpen) && isOpen == old(isOpen)
      ensures file == old(file) + if ok then data else []
      ensures size == old(size) + if ok then |data| else 0
    {
      if !isOpen {
        return false;
      }
      file, size := file + data, size + |data|;
      return true;
    }

    /** Appends one point. Only doubles can be logged: any other value throws before anything is
        written. */
    method AppendWrite(tag: seq<byte>, ts: int64, value: VC.Value, pad: Pad) returns (r: Outcome)
      modifies this
      ensures r == if value.Double? then Returned(old(isOpen)) else Threw
      ensures isOpen == old(isOpen)
      ensures file == old(file) + if r == Returned(true) then Encode(Data(tag, ts, value.bits), pad) else []
      ensures size - |file| == old(size) - old(|file|)
    {
      hide Header, Checksum32, Payload;
      if !value.Double? {
        return Threw;
      }
      var data := Serialize(tag, ts, value.bits);
      var ok := WriteRaw(Header(Checksum32(data), DATA_POINT, |data|, pad));
      if !ok {
        return Returned(false);
      }
      ok := WriteRaw(data);
      return Returned(ok);
    }

    /** Fills a buffer of the payload's size part by part. */
    static method Serialize(tag: seq<byte>, ts: int64, bits: uint64) returns (data: seq<byte>)
      ensures data == Payload(tag, ts, bits)
    {
      hide ToBytes;
      var tagLen := |tag| % 65536;
      data := seq(2 + tagLen + 16, _ => 0);
      var offset := 0;
      data := Overwrite(data, offset, ToBytes(tagLen, 2));
      offset := offset + 2;
      data := Overwrite(data, offset, tag[..tagLen]);
      offset := offset + tagLen;
      data := Overwrite(data, offset, ToBytes(ToU64(ts), 8));
      offset := offset + 8;
      data := Overwrite(data, offset, ToBytes(bits, 8));
    }

    method WriteCheckpoint(pad: Pad) returns (ok: bool)
      modifies this
      ensures ok == old(isOpen) == isOpen
      ensures file == old(file) + if ok then Encode(Checkpoint, pad) else []
    {
      ok := WriteRaw(Header(0, CHECKPOINT, 0, pad));
    }
  }

  /** `memcpy(data + offset, part, |part|)` */
  function Overwrite(data: seq<byte>, offset: nat, part: seq<byte>): (r: seq<byte>)
    requires offset + |part| <= |data|
    ensures |r| == |data|
  {
    data[..offset] + part + data[offset + |part|..]
  }

  // ---- the reader ----

  datatype Step = Stop | Got(entry: Entry, length: nat)

  /** Reads the entry at the front of the rest of a file. A payload whose lengths do not add up,
      which no writer produces, is read outside its bounds by the original; here the reader stops. */
  function ReadEntry(s: seq<byte>): (r: Step)
    ensures r.Got? ==> HEADER <= r.length <= |s|
  {
    if |s| < HEADER then Stop
    else
      var kind := s[4];
      if kind == CHECKPOINT then Got(Checkpoint, HEADER)
      else if kind != DATA_POINT then Stop
      else
        var n := FromBytes(s[HEADER - 4..HEADER]);
        if HEADER + n > |s| then Stop
        else
          var data := s[HEADER..HEADER + n];
          if Checksum32(data) != FromBytes(s[..4]) || !WellFormed(data) then Stop
          else Got(Parse(data), HEADER + n)
  }

  predicate WellFormed(data: seq<byte>) {
    |data| >= 2 && |data| >= 18 + FromBytes(data[..2])
  }

  function Parse(data: seq<byte>): Entry
    requires WellFormed(data)
  {
    var tagLen := FromBytes(data[..2]);
    var offset := 2 + tagLen;
    Data(data[2..offset], FromU64(FromBytes(data[offset..offset + 8]) % TWO_64),
         FromBytes(data[offset + 8..offset + 16]) % TWO_64)
  }

  function ReadAll(s: seq<byte>): seq<Entry>
    decreases |s|
  {
    if s == [] then []
    else
      match ReadEntry(s)
      case Stop => []
      case Got(e, n) => [e] + ReadAll(s[n..])
  }

  /** The reader stops at the first entry it cannot read. */
  method Open(file: seq<byte>) returns (entries: seq<Entry>)
    ensures entries == ReadAll(file)
  {
    hide ReadEntry;
    entries := [];
    var pos := 0;
    assert file[0..] == file;
    while pos < |file|
      invariant 0 <= pos <= |file|
      invariant entries + ReadAll(file[pos..]) == ReadAll(file)
    {
      match ReadEntry(file[pos..]) {
        case Stop =>
          return;
        case Got(e, n) =>
          assert file[pos..][n..] == file[pos + n..];
          AppendConcat(entries, e, ReadAll(file[pos + n..]));
          entries := entries + [e];
          pos := pos + n;
      }
    }
  }

  // ---- what the reader recovers ----

  lemma HeaderFields(crc: nat, kind: byte, dataLen: nat, pad: Pad, rest: seq<byte>)
    requires crc < TWO_32 && dataLen < TWO_32
    ensures var s := Header(crc, kind, dataLen, pad) + rest;
            && FromBytes(s[..4]) == crc
            && s[4] == kind
            && FromBytes(s[HEADER - 4..HEADER]) == dataLen
            && s[HEADER..] == rest
  {
    hide ToBytes, FromBytes;
    var s := Header(crc, kind, dataLen, pad) + rest;
    assert s[..4] == ToBytes(crc, 4);
    assert s[HEADER - 4..HEADER] == ToBytes(dataLen, 4);
    Pow2Values();
    WordBytes(crc, 4);
    WordBytes(dataLen, 4);
  }

  lemma PayloadFields(tag: seq<byte>, ts: int64, bits: uint64)
    ensures WellFormed(Payload(tag, ts, bits))
    ensures Parse(Payload(tag, ts, bits)) == Data(StoredTag(tag), ts, bits)
  {
    hide ToBytes, FromBytes;
    var p, t := Payload(tag, ts, bits), StoredTag(tag);
    var n := |t|;
    assert p[..2] == ToBytes(n, 2);
    assert p[2..2 + n] == t;
    assert p[2 + n..2 + n + 8] == ToBytes(ToU64(ts), 8);
    assert p[2 + n + 8..2 + n + 16] == ToBytes(bits, 8);
    Pow2Values();
    Pow2Add(8, 8);
    WordBytes(n, 2);
    WordBytes(ToU64(ts), 8);
    WordBytes(bits, 8);
    SignedRoundTrip(ts);
  }

  lemma ReadEncoded(e: Entry, pad: Pad, rest: seq<byte>)
    ensures ReadEntry(Encode(e, pad) + rest) == Got(Logged(e), EntryLength(e))
  {
    hide Header, Payload, Parse, WellFormed, Checksum32, ToBytes, FromBytes;
    match e
    case Checkpoint => HeaderFields(0, CHECKPOINT, 0, pad, rest);
    case Data(tag, ts, bits) =>
      var p := Payload(tag, ts, bits);
      HeaderFields(Checksum32(p), DATA_POINT, |p|, pad, p + rest);
      PayloadFields(tag, ts, bits);
      var h := Header(Checksum32(p), DATA_POINT, |p|, pad);
      assert (h + p) + rest == h + (p + rest);
      assert (h + (p + rest))[HEADER..HEADER + |p|] == p;
  }

  /** An entry cut short cannot be read. */
  lemma ReadTorn(e: Entry, pad: Pad, k: nat)
    requires k < EntryLength(e)
    ensures ReadEntry(Encode(e, pad)[..k]) == Stop
  {
    hide Header, Payload, Parse, WellFormed, Checksum32, ToBytes, FromBytes;
    var s := Encode(e, pad)[..k];
    match e
    case Checkpoint =>
    case Data(tag, ts, bits) =>
      if k >= HEADER {
        var p := Payload(tag, ts, bits);
        HeaderFields(Checksum32(p), DATA_POINT, |p|, pad, p);
        var t := Encode(e, pad);
        assert s[4] == t[4] && s[HEADER - 4..HEADER] == t[HEADER - 4..HEADER];
      }
  }

  /** How many entries lie wholly before position k. */
  function Whole(es: seq<Entry>, k: nat): (n: nat)
    ensures n <= |es|
  {
    if es == [] || EntryLength(es[0]) > k then 0 else 1 + Whole(es[1..], k - EntryLength(es[0]))
  }

  /** A log cut anywhere gives back exactly the entries that lie wholly before the cut. */
  lemma {:induction false} TornWriteRecovery(es: seq<Entry>, pads: seq<Pad>, k: nat)
    requires |pads| == |es| && k <= |EncodeLog(es, pads)|
    ensures ReadAll(EncodeLog(es, pads)[..k]) == LoggedAll(es)[..Whole(es, k)]
  {
    hide ReadEntry, Encode, Logged, EntryLength;
    var s := EncodeLog(es, pads)[..k];
    if es == [] || k == 0 {
      assert s == [];
      LengthPositive(es);
    } else {
      var e, rest := es[0], EncodeLog(es[1..], pads[1..]);
      var n := EntryLength(e);
      if k < n {
        assert s == Encode(e, pads[0])[..k];
        ReadTorn(e, pads[0], k);
      } else {
        assert s == Encode(e, pads[0]) + rest[..k - n];
        ReadEncoded(e, pads[0], rest[..k - n]);
        assert s[n..] == rest[..k - n];
        TornWriteRecovery(es[1..], pads[1..], k - n);
      }
    }
  }

  lemma LengthPositive(es: seq<Entry>)
    ensures es != [] ==> EntryLength(es[0]) > 0
  {
  }

  lemma {:induction false} WholeLog(es: seq<Entry>, pads: seq<Pad>)
    requires |pads| == |es|
    ensures Whole(es, |EncodeLog(es, pads)|) == |es|
  {
    if es != [] {
      WholeLog(es[1..], pads[1..]);
    }
  }

  /** An undamaged log gives back every entry, and unchanged exactly when every tag is shorter than
      65536 bytes. */
  lemma LogRoundTrip(es: seq<Entry>, pads: seq<Pad>)
    requires |pads| == |es|
    ensures ReadAll(EncodeLog(es, pads)) == LoggedAll(es)
    ensures ReadAll(EncodeLog(es, pads)) == es <==> ShortTags(es)
  {
    var s := EncodeLog(es, pads);
    assert s[..|s|] == s;
    TornWriteRecovery(es, pads, |s|);
    WholeLog(es, pads);
    LoggedExact(es);
  }

  ghost predicate ShortTags(es: seq<Entry>) {
    forall e :: e in es && e.Data? ==> |e.tag| < 65536
  }

  lemma {:induction false} LoggedExact(es: seq<Entry>)
    ensures LoggedAll(es) == es <==> ShortTags(es)
  {
    if es != [] {
      var e, rest := es[0], es[1..];
      LoggedExact(rest);
      assert es == [e] + rest;
      assert LoggedAll(es)[0] == Logged(e) && LoggedAll(es)[1..] == LoggedAll(rest);
      assert Logged(e) == e <==> ShortTags([e]);
      assert ShortTags(es) <==> ShortTags([e]) && ShortTags(rest) by {
        assert forall u :: u in es <==> u in [e] || u in rest;
      }
    }
  }

  /** Whatever follows, the entries before are read first. */
  lemma {:induction false} ReadPrefix(es: seq<Entry>, pads: seq<Pad>, rest: seq<byte>)
    requires |pads| == |es|
    ensures ReadAll(EncodeLog(es, pads) + rest) == LoggedAll(es) + ReadAll(rest)
  {
    hide ReadEntry, Encode, Logged;
    var s := EncodeLog(es, pads) + rest;
    if es == [] {
      assert s == rest;
    } else {
      var tail := EncodeLog(es[1..], pads[1..]) + rest;
      assert s == Encode(es[0], pads[0]) + tail;
      ReadEncoded(es[0], pads[0], tail);
      assert s[EntryLength(es[0])..] == tail;
      ReadPrefix(es[1..], pads[1..], rest);
    }
  }

  /** A payload altered within four consecutive bytes ends the recovery at the entry before it. */
  lemma DamageEndsRecovery(es: seq<Entry>, pads: seq<Pad>, tag: seq<byte>, ts: int64, bits: uint64, pad: Pad,
                           x: seq<byte>, a: seq<byte>, b: seq<byte>, y: seq<byte>, after: seq<byte>)
    requires |pads| == |es| && |a| == |b| <= 4 && a != b
    requires Payload(tag, ts, bits) == x + a + y
    ensures var p := Payload(tag, ts, bits);
            var damaged := Header(Checksum32(p), DATA_POINT, |p|, pad) + (x + b + y);
            ReadAll(EncodeLog(es, pads) + (damaged + after)) == LoggedAll(es)
  {
    hide Header, Payload, Parse, WellFormed, BitSerial, ToBytes, FromBytes;
    var p, p' := Payload(tag, ts, bits), x + b + y;
    var h := Header(Checksum32(p), DATA_POINT, |p|, pad);
    ReadPrefix(es, pads, (h + p') + after);
    HeaderFields(Checksum32(p), DATA_POINT, |p|, pad, p' + after);
    var s := (h + p') + after;
    assert s == h + (p' + after);
    assert s[HEADER..HEADER + |p|] == p';
    BurstDetected(x, a, b, y);
    DifferentWords(BitSerial(p), BitSerial(p'));
    assert ReadEntry(s) == Stop;
  }

  lemma DifferentWords(x: bv32, y: bv32)
    requires x != y
    ensures x as int != y as int
  {
    WordAndBack(x);
    WordAndBack(y);
  }

  // ---- what is read behind a tear ----

  /** Entries before a tear are read; whether the reader goes on depends on the bytes from the tear on
      alone. */
  lemma ReadToTear(es: seq<Entry>, pads: seq<Pad>, rest: seq<byte>)
    requires |pads| == |es|
    ensures ReadAll(EncodeLog(es, pads) + rest) == LoggedAll(es) <==> ReadEntry(rest) == Stop
  {
    hide ReadEntry, EncodeLog, LoggedAll;
    ReadPrefix(es, pads, rest);
    if ReadEntry(rest) == Stop {
      Stopped(rest);
    } else {
      GoesOn(rest);
    }
  }

  lemma GoesOn(s: seq<byte>)
    requires ReadEntry(s).Got?
    ensures ReadAll(s) == [ReadEntry(s).entry] + ReadAll(s[ReadEntry(s).length..])
  {
    hide ReadEntry;
  }

  /** An entry torn in its payload at position k, and whatever bytes were appended since. */
  function Torn(tag: seq<byte>, ts: int64, bits: uint64, pad: Pad, k: nat, later: seq<byte>): seq<byte>
    requires k <= EntryLength(Data(tag, ts, bits))
  {
    Encode(Data(tag, ts, bits), pad)[..k] + later
  }

  /** The payload that the reader takes it to have: its first bytes, and then what was appended. */
  function Filled(p: seq<byte>, k: nat, later: seq<byte>): (f: seq<byte>)
    requires HEADER <= k <= HEADER + |p| <= k + |later|
    ensures |f| == |p|
  {
    p[..k - HEADER] + later[..HEADER + |p| - k]
  }

  /** Behind an entry torn in its payload the reader stops, and so returns exactly the entries before,
      if and only if the bytes appended since do not make up for those that are missing, or what they
      make of the payload has another checksum or a wrong length in it. */
  lemma ReadBehindTear(es: seq<Entry>, pads: seq<Pad>, tag: seq<byte>, ts: int64, bits: uint64, pad: Pad,
                       k: nat, later: seq<byte>)
    requires |pads| == |es| && HEADER <= k <= EntryLength(Data(tag, ts, bits))
    ensures var p := Payload(tag, ts, bits);
      ReadAll(EncodeLog(es, pads) + Torn(tag, ts, bits, pad, k, later)) == LoggedAll(es)
      <==> k + |later| < HEADER + |p| || Checksum32(Filled(p, k, later)) != Checksum32(p)
           || !WellFormed(Filled(p, k, later))
  {
    hide Header, Payload, Parse, WellFormed, Checksum32, ToBytes, FromBytes, ReadAll, EncodeLog;
    ReadToTear(es, pads, Torn(tag, ts, bits, pad, k, later));
    TornEntry(tag, ts, bits, pad, k, later);
  }

  lemma TornEntry(tag: seq<byte>, ts: int64, bits: uint64, pad: Pad, k: nat, later: seq<byte>)
    requires HEADER <= k <= EntryLength(Data(tag, ts, bits))
    ensures var p, s := Payload(tag, ts, bits), Torn(tag, ts, bits, pad, k, later);
      ReadEntry(s) == Stop
      <==> k + |later| < HEADER + |p| || Checksum32(Filled(p, k, later)) != Checksum32(p)
           || !WellFormed(Filled(p, k, later))
  {
    hide Header, Payload, Parse, WellFormed, Checksum32, ToBytes, FromBytes;
    var p := Payload(tag, ts, bits);
    var e, s := Encode(Data(tag, ts, bits), pad), Torn(tag, ts, bits, pad, k, later);
    HeaderFields(Checksum32(p), DATA_POINT, |p|, pad, p);
    assert s[4] == e[4] && s[HEADER - 4..HEADER] == e[HEADER - 4..HEADER] && s[..4] == e[..4];
    if HEADER + |p| <= |s| {
      assert s[HEADER..HEADER + |p|] == Filled(p, k, later);
    }
  }

  /** With at most four bytes missing no checksum is needed: the reader stops unless the bytes that were
      appended are the missing ones. */
  lemma ShortTear(es: seq<Entry>, pads: seq<Pad>, tag: seq<byte>, ts: int64, bits: uint64, pad: Pad,
                  k: nat, later: seq<byte>)
    requires |pads| == |es| && HEADER <= k <= EntryLength(Data(tag, ts, bits)) <= k + 4
    ensures ReadAll(EncodeLog(es, pads) + Torn(tag, ts, bits, pad, k, later)) == LoggedAll(es)
       <==> !(Payload(tag, ts, bits)[k - HEADER..] <= later)
  {
    hide Header, Payload, Parse, BitSerial, ToBytes, FromBytes, ReadAll, EncodeLog, WellFormed;
    var p := Payload(tag, ts, bits);
    ReadBehindTear(es, pads, tag, ts, bits, pad, k, later);
    PayloadFields(tag, ts, bits);
    if HEADER + |p| <= k + |later| {
      var fill := later[..HEADER + |p| - k];
      assert p == p[..k - HEADER] + p[k - HEADER..] + [] && Filled(p, k, later) == p[..k - HEADER] + fill + [];
      if fill != p[k - HEADER..] {
        BurstDetected(p[..k - HEADER], p[k - HEADER..], fill, []);
        DifferentWords(BitSerial(p), BitSerial(Filled(p, k, later)));
      }
    }
  }

  /** The kind of an entry torn in its header: its own if the tear is behind the kind, or a byte of what
      was appended. */
  function KindAt(k: nat, later: seq<byte>): byte
    requires 0 < k < HEADER && HEADER <= k + |later|
  {
    if k > 4 then DATA_POINT else later[4 - k]
  }

  /** Behind an entry torn in its header, the header is made up from what was appended. The reader stops
      if that is too short or has no known kind; it reads a checkpoint that nobody wrote if the kind
      byte says so; otherwise it stops unless length and checksum happen to fit. */
  lemma ReadBehindHeaderTear(es: seq<Entry>, pads: seq<Pad>, tag: seq<byte>, ts: int64, bits: uint64, pad: Pad,
                             k: nat, later: seq<byte>)
    requires |pads| == |es| && 0 < k < HEADER
    ensures var s := Torn(tag, ts, bits, pad, k, later);
      && (k + |later| < HEADER ==> ReadAll(EncodeLog(es, pads) + s) == LoggedAll(es))
      && (HEADER <= k + |later| && KindAt(k, later) != CHECKPOINT && KindAt(k, later) != DATA_POINT ==>
            ReadAll(EncodeLog(es, pads) + s) == LoggedAll(es))
      && (HEADER <= k + |later| && KindAt(k, later) == CHECKPOINT ==>
            ReadAll(EncodeLog(es, pads) + s) == LoggedAll(es) + [Checkpoint] + ReadAll(later[HEADER - k..]))
      && (HEADER <= k + |later| && KindAt(k, later) == DATA_POINT ==>
            var n := FromBytes(s[HEADER - 4..HEADER]);
            (ReadAll(EncodeLog(es, pads) + s) == LoggedAll(es)
             <==> HEADER + n > |s| || Checksum32(s[HEADER..HEADER + n]) != FromBytes(s[..4])
                  || !WellFormed(s[HEADER..HEADER + n])))
  {
    hide Header, Payload, Parse, WellFormed, Checksum32, ToBytes, FromBytes, EncodeLog, ReadAll, ReadEntry, KindAt, Torn;
    var s := Torn(tag, ts, bits, pad, k, later);
    ReadToTear(es, pads, s);
    TornHeader(tag, ts, bits, pad, k, later);
    if HEADER <= k + |later| && KindAt(k, later) == CHECKPOINT {
      ReadPrefix(es, pads, s);
      GoesOn(s);
    }
  }

  lemma TornHeader(tag: seq<byte>, ts: int64, bits: uint64, pad: Pad, k: nat, later: seq<byte>)
    requires 0 < k < HEADER
    ensures var s := Torn(tag, ts, bits, pad, k, later);
      && |s| == k + |later|
      && (|s| < HEADER ==> ReadEntry(s) == Stop)
      && (|s| >= HEADER ==>
            && s[HEADER..] == later[HEADER - k..]
            && (KindAt(k, later) != CHECKPOINT && KindAt(k, later) != DATA_POINT ==> ReadEntry(s) == Stop)
            && (KindAt(k, later) == CHECKPOINT ==> ReadEntry(s) == Got(Checkpoint, HEADER))
            && (KindAt(k, later) == DATA_POINT ==>
                  var n := FromBytes(s[HEADER - 4..HEADER]);
                  (ReadEntry(s) == Stop
                   <==> HEADER + n > |s| || Checksum32(s[HEADER..HEADER + n]) != FromBytes(s[..4])
                        || !WellFormed(s[HEADER..HEADER + n]))))
  {
    hide Header, Payload, Parse, WellFormed, Checksum32, ToBytes, FromBytes, EncodeLog;
    var s, p := Torn(tag, ts, bits, pad, k, later), Payload(tag, ts, bits);
    var e := Encode(Data(tag, ts, bits), pad);
    HeaderFields(Checksum32(p), DATA_POINT, |p|, pad, p);
    assert |s| >= HEADER && k > 4 ==> s[4] == e[4];
    assert |s| >= HEADER ==> s[HEADER..] == later[HEADER - k..];
  }

  lemma Stopped(s: seq<byte>)
    requires ReadEntry(s) == Stop
    ensures ReadAll(s) == []
  {
  }
}
