/** What the write-ahead log means: replaying records, recovering a file that may
    end in a torn record, and rewriting the file at a snapshot
    (internal/storage/wal.go, wal_entries.go, wal_validate.go, wal_copy.go,
    wal_compact.go, wal_snapshot.go). */
module Wal {
  import opened Types
  import opened Bytes
  import opened WalCodec

  /** The fields a storage keeps in memory. */
  datatype Live = Live(state: PersistentState, entries: seq<Entry>, snapshot: Option<Snapshot>)

  const EMPTY := Live(PersistentState(0, [], NO_MEMBERSHIP), [], None)

  function LastOf(entries: seq<Entry>): nat
    requires entries != []
  {
    entries[|entries| - 1].index
  }

  // ---- Validators and copies ----

  /** validateAppend, with the check for an empty batch of validateRecoveredAppend. */
  predicate Continues(existing: seq<Entry>, additions: seq<Entry>) {
    existing == [] || additions == [] || additions[0].index == LastOf(existing) + 1
  }

  /** validateReplaceSuffix. */
  predicate ValidReplace(snapshot: Option<Snapshot>, from: nat, entries: seq<Entry>) {
    && from >= 1
    && (snapshot.Some? ==> snapshot.value.index < from)
    && ValidEntries(entries)
    && (entries != [] ==> entries[0].index == from)
  }

  /** validateRecoveredSnapshot. */
  predicate ValidSnapshot(current: Option<Snapshot>, snapshot: Snapshot) {
    && snapshot.index >= 1
    && (current.Some? ==>
          && snapshot.index >= current.value.index
          && (snapshot.index == current.value.index ==> snapshot.term == current.value.term))
  }

  /** The entries before the first one at or above `from`. */
  function Below(entries: seq<Entry>, from: nat): seq<Entry> {
    if entries == [] || entries[0].index >= from then [] else [entries[0]] + Below(entries[1..], from)
  }

  /** The entries above `boundary`. */
  function Above(entries: seq<Entry>, boundary: nat): seq<Entry> {
    if entries == [] then []
    else
      var last := |entries| - 1;
      Above(entries[..last], boundary) + if entries[last].index > boundary then [entries[last]] else []
  }

  /** replaceSuffixCopy. */
  function Replaced(existing: seq<Entry>, from: nat, entries: seq<Entry>): seq<Entry> {
    Below(existing, from) + entries
  }

  // ---- Replay ----

  /** One turn of the recovery loop; `None` when recovery fails. */
  function Replay(f: Format, live: Live, rec: Record): Option<Live> {
    if rec.kind == STATE then
      match DecodeState(rec.payload)
      case None => None
      case Some(st) => Some(live.(state := st))
    else if rec.kind == ENTRIES then
      match DecodeEntries(rec.payload)
      case None => None
      case Some(entries) =>
        if Continues(live.entries, entries) then Some(live.(entries := live.entries + entries)) else None
    else if rec.kind == SNAPSHOT then
      match f.getSnapshot(rec.payload)
      case None => None
      case Some(snapshot) =>
        if ValidSnapshot(live.snapshot, snapshot) then Some(live.(snapshot := Some(snapshot))) else None
    else if rec.kind == REPLACE then
      match DecodeSuffix(rec.payload)
      case None => None
      case Some(Suffix(from, entries)) =>
        if ValidReplace(live.snapshot, from, entries) && ValidEntries(Replaced(live.entries, from, entries))
        then Some(live.(entries := Replaced(live.entries, from, entries))) else None
    else None
  }

  function ReplayAll(f: Format, live: Live, recs: seq<Record>): Option<Live>
    decreases |recs|
  {
    if recs == [] then Some(live)
    else
      match Replay(f, live, recs[0])
      case None => None
      case Some(live') => ReplayAll(f, live', recs[1..])
  }

  datatype Recovered = Recovered(live: Live, size: nat)

  /** recover: the state rebuilt from the bytes, and how many of them are kept. */
  function Recover(f: Format, s: seq<byte>, live: Live): Option<Recovered>
    decreases |s|
  {
    match Unframe(f, s)
    case Eof => Some(Recovered(live, 0))
    case Torn => Some(Recovered(live, 0))
    case Corrupt => None
    case Read(rec, rest) =>
      match Replay(f, live, rec)
      case None => None
      case Some(live') =>
        match Recover(f, rest, live')
        case None => None
        case Some(Recovered(final, size)) => Some(Recovered(final, |s| - |rest| + size))
  }

  /** The file that holds `recs`. */
  function Frames(f: Format, recs: seq<Record>): seq<byte> {
    if recs == [] then [] else Frame(f, recs[0]) + Frames(f, recs[1..])
  }

  ghost predicate AllSmall(recs: seq<Record>) {
    forall i | 0 <= i < |recs| :: Small(recs[i])
  }

  lemma {:induction false} ReplayAppend(f: Format, live: Live, a: seq<Record>, b: seq<Record>)
    ensures ReplayAll(f, live, a + b) ==
            match ReplayAll(f, live, a)
            case None => None
            case Some(live') => ReplayAll(f, live', b)
    decreases |a|
  {
    hide Replay;
    if a == [] {
      assert a + b == b;
    } else {
      assert (a + b)[1..] == a[1..] + b;
      if Replay(f, live, a[0]).Some? {
        ReplayAppend(f, Replay(f, live, a[0]).value, a[1..], b);
      }
    }
  }

  lemma {:induction false} FramesAppend(f: Format, a: seq<Record>, b: seq<Record>)
    ensures Frames(f, a + b) == Frames(f, a) + Frames(f, b)
    decreases |a|
  {
    if a == [] {
      assert a + b == b;
    } else {
      assert (a + b)[1..] == a[1..] + b;
      FramesAppend(f, a[1..], b);
    }
  }

  /** One record at the front of the file. */
  lemma RecoverFirst(f: Format, rec: Record, rest: seq<byte>, live: Live)
    requires Small(rec)
    ensures Recover(f, Frame(f, rec) + rest, live) ==
            match Replay(f, live, rec)
            case None => None
            case Some(live') =>
              match Recover(f, rest, live')
              case None => None
              case Some(Recovered(final, size)) => Some(Recovered(final, |Frame(f, rec)| + size))
  {
    hide Replay, Unframe, Frame;
    UnframeFrame(f, rec, rest);
  }

  /** A file of records with a torn end, or none, recovers to the replay of the records. */
  lemma {:induction false} RecoverFrames(f: Format, recs: seq<Record>, tail: seq<byte>, live: Live)
    requires AllSmall(recs) && ReplayAll(f, live, recs).Some?
    requires Unframe(f, tail).Eof? || Unframe(f, tail).Torn?
    ensures Recover(f, Frames(f, recs) + tail, live) ==
            Some(Recovered(ReplayAll(f, live, recs).value, |Frames(f, recs)|))
    decreases |recs|
  {
    hide Replay, Unframe, Frame;
    if recs == [] {
      assert Frames(f, recs) + tail == tail;
    } else {
      var rest := Frames(f, recs[1..]);
      assert Frames(f, recs) + tail == Frame(f, recs[0]) + (rest + tail);
      RecoverFirst(f, recs[0], rest + tail, live);
      RecoverFrames(f, recs[1..], tail, Replay(f, live, recs[0]).value);
    }
  }

  /** A record that recovery refuses makes it fail, however many good ones precede it. */
  lemma {:induction false} RecoverRefuses(f: Format, recs: seq<Record>, rec: Record, live: Live)
    requires AllSmall(recs) && Small(rec) && ReplayAll(f, live, recs).Some? &&
        Replay(f, ReplayAll(f, live, recs).value, rec).None?
    ensures Recover(f, Frames(f, recs) + Frame(f, rec), live).None?
    decreases |recs|
  {
    hide Replay, Unframe, Frame;
    if recs == [] {
      assert Frames(f, recs) + Frame(f, rec) == Frame(f, rec) + [];
      RecoverFirst(f, rec, [], live);
    } else {
      var rest := Frames(f, recs[1..]) + Frame(f, rec);
      assert Frames(f, recs) + Frame(f, rec) == Frame(f, recs[0]) + rest;
      RecoverFirst(f, recs[0], rest, live);
      RecoverRefuses(f, recs[1..], rec, Replay(f, live, recs[0]).value);
    }
  }

  lemma FramesBehind(f: Format, rec: Record, more: seq<Record>, rest: seq<byte>)
    requires |Frames(f, more)| <= |rest| && rest == Frames(f, more) + rest[|Frames(f, more)|..]
    ensures var s, recs := Frame(f, rec) + rest, [rec] + more;
            var size := |Frames(f, recs)|;
            && size == |Frame(f, rec)| + |Frames(f, more)| <= |s|
            && s[size..] == rest[|Frames(f, more)|..]
            && s == Frames(f, recs) + s[size..]
  {
    hide Frame;
    var recs, tail := [rec] + more, rest[|Frames(f, more)|..];
    assert recs[1..] == more;
    assert Frame(f, rec) + (Frames(f, more) + tail) == Frames(f, recs) + tail;
  }

  /** `recs` are the records that recovery read from `s`. */
  ghost predicate ReadFrom(f: Format, s: seq<byte>, live: Live, r: Recovered, recs: seq<Record>) {
    && AllSmall(recs)
    && r.size == |Frames(f, recs)| <= |s|
    && s == Frames(f, recs) + s[r.size..]
    && ReplayAll(f, live, recs) == Some(r.live)
    && (Unframe(f, s[r.size..]).Eof? || Unframe(f, s[r.size..]).Torn?)
  }

  lemma ReadFromFirst(f: Format, rec: Record, rest: seq<byte>, live: Live, r: Recovered, more: seq<Record>)
    requires Small(rec) && Replay(f, live, rec).Some? && ReadFrom(f, rest, Replay(f, live, rec).value, r, more)
    ensures ReadFrom(f, Frame(f, rec) + rest, live, Recovered(r.live, |Frame(f, rec)| + r.size), [rec] + more)
  {
    hide Frame, Unframe, Replay;
    FramesBehind(f, rec, more, rest);
    assert ([rec] + more)[1..] == more;
  }

  /** Whatever bytes recovery accepts are a file of records with a torn end, or none. */
  lemma {:induction false} RecoverIsFrames(f: Format, s: seq<byte>, live: Live) returns (recs: seq<Record>)
    requires Recover(f, s, live).Some?
    ensures ReadFrom(f, s, live, Recover(f, s, live).value, recs)
    decreases |s|
  {
    var d := Unframe(f, s);
    if d.Read? {
      hide Replay, ReadFrom, Frame, Unframe;
      UnframeIsFrame(f, s);
      var more := RecoverIsFrames(f, d.rest, Replay(f, live, d.rec).value);
      ReadFromFirst(f, d.rec, d.rest, live, Recover(f, d.rest, Replay(f, live, d.rec).value).value, more);
      recs := [d.rec] + more;
    } else {
      recs := [];
      assert s[0..] == s;
    }
  }

  // ---- Torn tails ----

  /** How many records lie wholly before `cut`. */
  function Whole(f: Format, recs: seq<Record>, cut: nat): (k: nat)
    ensures k <= |recs|
  {
    if recs == [] || cut < |Frame(f, recs[0])| then 0 else 1 + Whole(f, recs[1..], cut - |Frame(f, recs[0])|)
  }

  /** That count is the right one: those records end by `cut` and the next one does not. */
  lemma {:induction false} WholeMeaning(f: Format, recs: seq<Record>, cut: nat)
    ensures var k := Whole(f, recs, cut);
            && |Frames(f, recs[..k])| <= cut
            && (k < |recs| ==> cut < |Frames(f, recs[..k + 1])|)
    decreases |recs|
  {
    if recs != [] && cut >= |Frame(f, recs[0])| {
      WholeMeaning(f, recs[1..], cut - |Frame(f, recs[0])|);
      var k := Whole(f, recs, cut);
      assert recs[..k][1..] == recs[1..][..k - 1];
      if k < |recs| {
        assert recs[..k + 1][1..] == recs[1..][..k];
      }
    } else if recs != [] {
      assert recs[..1] == [recs[0]];
      assert Frames(f, recs[..1]) == Frame(f, recs[0]) + Frames(f, recs[..1][1..]);
    }
  }

  /** A well-formed file cut at any byte recovers, to exactly the state after
      the records that lie wholly before the cut, and keeps exactly those. */
  lemma {:induction false} TornTail(f: Format, recs: seq<Record>, cut: nat, live: Live)
    requires AllSmall(recs) && ReplayAll(f, live, recs).Some? && cut <= |Frames(f, recs)|
    ensures var k := Whole(f, recs, cut);
            && ReplayAll(f, live, recs[..k]).Some?
            && Recover(f, Frames(f, recs)[..cut], live) ==
               Some(Recovered(ReplayAll(f, live, recs[..k]).value, |Frames(f, recs[..k])|))
    decreases |recs|
  {
    hide Replay, Unframe, Frame;
    var s := Frames(f, recs)[..cut];
    if recs == [] {
      EmptyFile(f);
    } else if cut < |Frame(f, recs[0])| {
      assert s == Frame(f, recs[0])[..cut];
      UnframeTorn(f, recs[0], cut);
    } else {
      var first, k := |Frame(f, recs[0])|, Whole(f, recs, cut);
      assert s == Frame(f, recs[0]) + Frames(f, recs[1..])[..cut - first];
      RecoverFirst(f, recs[0], Frames(f, recs[1..])[..cut - first], live);
      TornTail(f, recs[1..], cut - first, Replay(f, live, recs[0]).value);
      assert recs[..k][1..] == recs[1..][..k - 1];
    }
  }

  lemma EmptyFile(f: Format)
    ensures Unframe(f, []) == Eof
  {
  }

  // ---- Live operations ----

  datatype Op =
    | SaveState(st: PersistentState)
    | AppendEntries(entries: seq<Entry>)
    | ReplaceSuffix(from: nat, entries: seq<Entry>)
    | SaveSnapshot(snapshot: Snapshot)

  function OpRecord(f: Format, op: Op): Record {
    match op
    case SaveState(st) => Record(STATE, StatePayload(st))
    case AppendEntries(entries) => Record(ENTRIES, Counted(entries))
    case ReplaceSuffix(from, entries) => Record(REPLACE, SuffixPayload(Suffix(from, entries)))
    case SaveSnapshot(snapshot) => Record(SNAPSHOT, f.putSnapshot(snapshot))
  }

  /** An empty append writes nothing. */
  function OpRecords(f: Format, op: Op): seq<Record> {
    if op == AppendEntries([]) then [] else [OpRecord(f, op)]
  }

  /** The new in-memory fields when the storage accepts an operation and the write succeeds. */
  function Perform(f: Format, live: Live, op: Op): Option<Live> {
    if op == AppendEntries([]) then Some(live)
    else if !Small(OpRecord(f, op)) then None
    else
      match op
      case SaveState(st) => Some(live.(state := st))
      case AppendEntries(entries) =>
        if ValidEntries(entries) &&
            Continues(live.entries, entries) then Some(live.(entries := live.entries + entries)) else None
      case ReplaceSuffix(from, entries) =>
        if ValidReplace(live.snapshot, from, entries)
            then Some(live.(entries := Replaced(live.entries, from, entries))) else None
      case SaveSnapshot(snapshot) => Some(live.(snapshot := Some(snapshot)))
  }

  /** Exactly which operations the storage accepts. */
  lemma PerformsExactly(f: Format, live: Live, op: Op)
    ensures Perform(f, live, op).Some? <==>
            op == AppendEntries([]) ||
            (|OpRecord(f, op).payload| <= 0x100_0000 &&
             match op
             case SaveState(_) => true
             case SaveSnapshot(_) => true
             case AppendEntries(entries) =>
               && entries[0].index >= 1 && Consecutive(entries, entries[0].index)
               && (live.entries != [] ==> entries[0].index == live.entries[|live.entries| - 1].index + 1)
             case ReplaceSuffix(from, entries) =>
               && from >= 1 && (live.snapshot.Some? ==> from > live.snapshot.value.index)
               && Consecutive(entries, from))
  {
    hide StatePayload, Counted, SuffixPayload, Replaced;
  }

  /** The snapshots of one log, each at or past the one before, all last. */
  lemma SnapshotLasts(live: Live, log: seq<Entry>, index: nat, data: seq<byte>)
    requires 1 <= index <= |log|
    requires live.snapshot.Some? ==>
               1 <= live.snapshot.value.index <= index &&
               live.snapshot.value.term == log[live.snapshot.value.index - 1].term
    ensures Lasting(live, SaveSnapshot(Snapshot(index, log[index - 1].term, data)))
  {
  }

  /** The widths that Go's types fix. */
  predicate Fits(op: Op) {
    match op
    case SaveState(st) => st.term < U64
    case AppendEntries(entries) => WideEntries(entries)
    case ReplaceSuffix(from, entries) => from < U64 && WideEntries(entries)
    case SaveSnapshot(_) => true
  }

  /** What recovery checks and the live call does not: voters the decoder
      accepts, no gap before a replaced suffix, no snapshot at index 0 or moving
      backwards. */
  predicate Lasting(live: Live, op: Op) {
    match op
    case SaveState(st) => GoodMembership(st.membership)
    case AppendEntries(_) => true
    case ReplaceSuffix(from, entries) => entries == [] || live.entries == [] || from <= LastOf(live.entries) + 1
    case SaveSnapshot(snapshot) => ValidSnapshot(live.snapshot, snapshot)
  }

  lemma {:induction false} BelowMeaning(entries: seq<Entry>, from: nat)
    requires ValidEntries(entries)
    ensures Below(entries, from) == if entries == [] || from <= entries[0].index then []
                                    else if from > LastOf(entries) then entries
                                    else entries[..from - entries[0].index]
  {
    if entries != [] && entries[0].index < from {
      BelowMeaning(entries[1..], from);
    }
  }

  /** Replacing a suffix leaves consecutive indices exactly when there is no gap. */
  lemma ReplacedValid(existing: seq<Entry>, from: nat, entries: seq<Entry>)
    requires ValidEntries(existing) && ValidEntries(entries) && (entries != [] ==> entries[0].index == from) &&
        from >= 1
    ensures ValidEntries(Replaced(existing, from, entries)) <==>
            entries == [] || existing == [] || from <= LastOf(existing) + 1
  {
    BelowMeaning(existing, from);
    var r := Replaced(existing, from, entries);
    if existing != [] && entries != [] && from > LastOf(existing) + 1 {
      assert r[|existing|] == entries[0] && r[0] == existing[0];
      assert r[|existing| - 1] == existing[|existing| - 1];
    } else if r != [] {
      var kept := |Below(existing, from)|;
      forall i | 0 <= i < |r| ensures r[i].index == r[0].index + i {
        assert r[i] == if i < kept then existing[i] else entries[i - kept];
      }
    }
  }

  lemma StateSize(st: PersistentState)
    ensures |st.votedFor| <= |StatePayload(st)|
  {
  }

  lemma ContinuedValid(existing: seq<Entry>, entries: seq<Entry>)
    requires ValidEntries(existing) && ValidEntries(entries) && Continues(existing, entries)
    ensures ValidEntries(existing + entries)
  {
  }

  /** Replaying the record of an accepted operation does what the operation did
      in memory, exactly when the operation is a lasting one. */
  lemma ReplayMatches(f: Format, live: Live, op: Op)
    requires Sound(f) && ValidEntries(live.entries) && Fits(op) && op != AppendEntries([])
    requires Perform(f, live, op).Some?
    ensures Replay(f, live, OpRecord(f, op)) == Perform(f, live, op) <==> Lasting(live, op)
    ensures Lasting(live, op) ==> ValidEntries(Perform(f, live, op).value.entries)
  {
    hide DecodeState, DecodeEntries, DecodeSuffix, StatePayload, GoodMembership, Below;
    match op
    case SaveState(st) =>
      StateSize(st);
      StateRoundTrip(st);
    case AppendEntries(entries) =>
      WideEntriesFit(entries);
      EntriesRoundTrip(entries);
      ContinuedValid(live.entries, entries);
    case ReplaceSuffix(from, entries) =>
      WideEntriesFit(entries);
      SuffixRoundTrip(Suffix(from, entries));
      ReplacedValid(live.entries, from, entries);
    case SaveSnapshot(_) => {}
  }

  /** A replacement behind a gap is accepted, and recovery refuses its record. */
  lemma GapIsRefused(f: Format, live: Live, op: Op)
    requires ValidEntries(live.entries) && Fits(op) && op.ReplaceSuffix? && !Lasting(live, op)
    requires Perform(f, live, op).Some?
    ensures Replay(f, live, OpRecord(f, op)).None?
  {
    hide DecodeSuffix, Below;
    WideEntriesFit(op.entries);
    SuffixRoundTrip(Suffix(op.from, op.entries));
    ReplacedValid(live.entries, op.from, op.entries);
  }

  /** One such: entry 1 is there, and the suffix from 3 on is replaced. */
  lemma AcceptedButRefused(f: Format)
    ensures exists live: Live, op: Op ::
              && ValidEntries(live.entries) && Fits(op) && Perform(f, live, op).Some?
              && !Lasting(live, op) && Replay(f, live, OpRecord(f, op)).None?
  {
    var live := EMPTY.(entries := [Entry(1, 1, [])]);
    var op := ReplaceSuffix(3, [Entry(3, 1, [])]);
    assert Perform(f, live, op).Some?;
    GapIsRefused(f, live, op);
  }

  /** The fields after a sequence of operations, all of which succeed and last. */
  function PerformAll(f: Format, live: Live, ops: seq<Op>): Option<Live>
    decreases |ops|
  {
    if ops == [] then Some(live)
    else if !Fits(ops[0]) || !Lasting(live, ops[0]) then None
    else
      match Perform(f, live, ops[0])
      case None => None
      case Some(live') => PerformAll(f, live', ops[1..])
  }

  function AllRecords(f: Format, ops: seq<Op>): seq<Record> {
    if ops == [] then [] else OpRecords(f, ops[0]) + AllRecords(f, ops[1..])
  }

  lemma {:induction false} PerformedReplays(f: Format, live: Live, ops: seq<Op>)
    requires Sound(f) && ValidEntries(live.entries) && PerformAll(f, live, ops).Some?
    ensures AllSmall(AllRecords(f, ops)) && ReplayAll(f, live, AllRecords(f, ops)) == PerformAll(f, live, ops)
    decreases |ops|
  {
    hide Replay, Sound;
    if ops != [] {
      var live' := Perform(f, live, ops[0]).value;
      var one, more := OpRecords(f, ops[0]), AllRecords(f, ops[1..]);
      if one == [] {
        assert one + more == more;
        PerformedReplays(f, live', ops[1..]);
      } else {
        ReplayMatches(f, live, ops[0]);
        PerformedReplays(f, live', ops[1..]);
        assert (one + more)[1..] == more && (one + more)[0] == one[0];
      }
    }
  }

  /** Replay equals live: after any sequence of successful, lasting operations
      the bytes of the file rebuild exactly the fields in memory. */
  lemma ReplayEqualsLive(f: Format, ops: seq<Op>)
    requires Sound(f) && PerformAll(f, EMPTY, ops).Some?
    ensures var file := Frames(f, AllRecords(f, ops));
            Recover(f, file, EMPTY) == Some(Recovered(PerformAll(f, EMPTY, ops).value, |file|))
  {
    var recs := AllRecords(f, ops);
    PerformedReplays(f, EMPTY, ops);
    EmptyFile(f);
    RecoverFrames(f, recs, [], EMPTY);
    assert Frames(f, recs) + [] == Frames(f, recs);
  }

  /** One more record at the end of a file, written whole or in part. */
  lemma RecordAppended(f: Format, file: seq<byte>, live: Live, rec: Record, part: nat)
    requires Recover(f, file, EMPTY) == Some(Recovered(live, |file|))
    requires Small(rec) && part < |Frame(f, rec)|
    ensures Recover(f, file + Frame(f, rec), EMPTY) ==
            match Replay(f, live, rec)
            case None => None
            case Some(live') => Some(Recovered(live', |file + Frame(f, rec)|))
    ensures Recover(f, file + Frame(f, rec)[..part], EMPTY) == Some(Recovered(live, |file|))
  {
    hide Replay, Unframe, Frame;
    var recs := RecoverIsFrames(f, file, EMPTY);
    assert file == Frames(f, recs);
    UnframeTorn(f, rec, part);
    RecoverFrames(f, recs, Frame(f, rec)[..part], EMPTY);
    if Replay(f, live, rec).None? {
      RecoverRefuses(f, recs, rec, EMPTY);
    } else {
      ReplayAppend(f, EMPTY, recs, [rec]);
      FramesAppend(f, recs, [rec]);
      assert Frames(f, [rec]) == Frame(f, rec);
      EmptyFile(f);
      RecoverFrames(f, recs + [rec], [], EMPTY);
      assert Frames(f, recs + [rec]) + [] == file + Frame(f, rec);
    }
  }

  // ---- Compaction ----

  /** Compact is accepted. */
  predicate MayCompact(live: Live, snapshot: Snapshot) {
    snapshot.index >= 1 && live.snapshot.Some? &&
    live.snapshot.value.index == snapshot.index && live.snapshot.value.term == snapshot.term
  }

  /** A snapshot that has been saved, at a positive index, can be compacted at, and no other. */
  lemma CompactsExactly(live: Live, saved: Snapshot, snapshot: Snapshot)
    ensures MayCompact(live.(snapshot := Some(saved)), snapshot) <==>
            snapshot.index >= 1 && saved.index == snapshot.index && saved.term == snapshot.term
    ensures !MayCompact(live.(snapshot := None), snapshot)
  {
  }

  function Compacted(live: Live, snapshot: Snapshot): Live {
    Live(live.state, Above(live.entries, snapshot.index), Some(snapshot))
  }

  /** The records of the rewritten file. */
  function CompactRecords(f: Format, live: Live, snapshot: Snapshot): seq<Record> {
    var kept := Above(live.entries, snapshot.index);
    [OpRecord(f, SaveState(live.state)), OpRecord(f, SaveSnapshot(snapshot))] +
    if kept == [] then [] else [OpRecord(f, AppendEntries(kept))]
  }

  lemma {:induction false} AboveAppend(a: seq<Entry>, b: seq<Entry>, boundary: nat)
    ensures Above(a + b, boundary) == Above(a, boundary) + Above(b, boundary)
  {
    if b == [] {
      assert a + b == a;
    } else {
      AboveAppend(a, b[..|b| - 1], boundary);
      assert (a + b)[..|a + b| - 1] == a + b[..|b| - 1];
    }
  }

  lemma {:induction false} AboveAll(entries: seq<Entry>, boundary: nat)
    requires forall i | 0 <= i < |entries| :: entries[i].index > boundary
    ensures Above(entries, boundary) == entries
  {
    if entries != [] {
      AboveAll(entries[..|entries| - 1], boundary);
      assert entries == entries[..|entries| - 1] + [entries[|entries| - 1]];
    }
  }

  lemma {:induction false} AboveNone(entries: seq<Entry>, boundary: nat)
    requires forall i | 0 <= i < |entries| :: entries[i].index <= boundary
    ensures Above(entries, boundary) == []
  {
    if entries != [] {
      AboveNone(entries[..|entries| - 1], boundary);
    }
  }

  /** What is kept is a suffix: everything from the first entry above the boundary. */
  lemma AboveMeaning(entries: seq<Entry>, boundary: nat)
    requires ValidEntries(entries)
    ensures Above(entries, boundary) == if entries == [] || boundary >= LastOf(entries) then []
                                        else if boundary < entries[0].index then entries
                                        else entries[boundary + 1 - entries[0].index..]
    ensures ValidEntries(Above(entries, boundary))
  {
    hide Above;
    if entries == [] || boundary >= LastOf(entries) {
      AboveNone(entries, boundary);
    } else if boundary < entries[0].index {
      AboveAll(entries, boundary);
    } else {
      var k := boundary + 1 - entries[0].index;
      AboveFrom(entries, boundary, k);
      assert entries[k..][0] == entries[k];
    }
  }

  lemma AboveFrom(entries: seq<Entry>, boundary: nat, k: nat)
    requires k <= |entries|
    requires forall i | 0 <= i < |entries| :: entries[i].index <= boundary <==> i < k
    ensures Above(entries, boundary) == entries[k..]
  {
    hide Above;
    assert entries == entries[..k] + entries[k..];
    AboveAppend(entries[..k], entries[k..], boundary);
    AboveNone(entries[..k], boundary);
    AboveAll(entries[k..], boundary);
  }

  lemma {:induction false} AboveFits(entries: seq<Entry>, boundary: nat)
    requires WideEntries(entries)
    ensures WideEntries(Above(entries, boundary))
  {
    if entries != [] {
      AboveFits(entries[..|entries| - 1], boundary);
    }
  }

  /** Compaction preserves meaning: the rewritten file recovers to the fields
      before, less the entries up to the boundary. */
  lemma CompactionRecovers(f: Format, live: Live, snapshot: Snapshot)
    requires Sound(f) && MayCompact(live, snapshot) && ValidEntries(live.entries) && WideEntries(live.entries)
    requires live.state.term < U64 && GoodMembership(live.state.membership)
    requires AllSmall(CompactRecords(f, live, snapshot))
    ensures var file := Frames(f, CompactRecords(f, live, snapshot));
            Recover(f, file, EMPTY) == Some(Recovered(Compacted(live, snapshot), |file|))
  {
    var kept := Above(live.entries, snapshot.index);
    AboveMeaning(live.entries, snapshot.index);
    AboveFits(live.entries, snapshot.index);
    var ops := [SaveState(live.state), SaveSnapshot(snapshot), AppendEntries(kept)];
    CompactionOps(f, live, snapshot);
    ReplayEqualsLive(f, ops);
  }

  lemma PerformFirst(f: Format, live: Live, op: Op, ops: seq<Op>)
    requires Fits(op) && Lasting(live, op) && Perform(f, live, op).Some?
    ensures PerformAll(f, live, [op] + ops) == PerformAll(f, Perform(f, live, op).value, ops)
    ensures AllRecords(f, [op] + ops) == OpRecords(f, op) + AllRecords(f, ops)
  {
    hide Fits, Lasting, Perform, OpRecords;
    assert ([op] + ops)[1..] == ops;
  }

  /** The three writes of a compaction, each accepted where it stands. */
  lemma CompactionSteps(f: Format, live: Live, snapshot: Snapshot)
    requires MayCompact(live, snapshot) && AllSmall(CompactRecords(f, live, snapshot))
    requires live.state.term < U64 && GoodMembership(live.state.membership)
    requires ValidEntries(Above(live.entries, snapshot.index)) && WideEntries(Above(live.entries, snapshot.index))
    ensures var kept := Above(live.entries, snapshot.index);
            var o1, o2, o3 := SaveState(live.state), SaveSnapshot(snapshot), AppendEntries(kept);
            var l1 := EMPTY.(state := live.state);
            var l2 := l1.(snapshot := Some(snapshot));
            && Fits(o1) && Lasting(EMPTY, o1) && Perform(f, EMPTY, o1) == Some(l1)
            && Fits(o2) && Lasting(l1, o2) && Perform(f, l1, o2) == Some(l2)
            && Fits(o3) && Lasting(l2, o3) && Perform(f, l2, o3) == Some(Compacted(live, snapshot))
  {
    hide GoodMembership, WideEntries, ValidEntries, Above, StatePayload, Counted;
    var kept := Above(live.entries, snapshot.index);
    var recs := CompactRecords(f, live, snapshot);
    assert Small(recs[0]) && Small(recs[1]);
    assert kept != [] ==> Small(recs[2]);
    assert [] + kept == kept;
  }

  lemma CompactionOps(f: Format, live: Live, snapshot: Snapshot)
    requires MayCompact(live, snapshot) && AllSmall(CompactRecords(f, live, snapshot))
    requires live.state.term < U64 && GoodMembership(live.state.membership)
    requires ValidEntries(Above(live.entries, snapshot.index)) && WideEntries(Above(live.entries, snapshot.index))
    ensures var ops := [SaveState(live.state), SaveSnapshot(snapshot),
                        AppendEntries(Above(live.entries, snapshot.index))];
            && AllRecords(f, ops) == CompactRecords(f, live, snapshot)
            && PerformAll(f, EMPTY, ops) == Some(Compacted(live, snapshot))
  {
    hide GoodMembership, WideEntries, ValidEntries, Above, PerformAll, AllRecords, Perform, Fits, Lasting, OpRecord;
    var kept := Above(live.entries, snapshot.index);
    var o1, o2, o3 := SaveState(live.state), SaveSnapshot(snapshot), AppendEntries(kept);
    CompactionSteps(f, live, snapshot);
    PerformFirst(f, EMPTY, o1, [o2, o3]);
    PerformFirst(f, EMPTY.(state := live.state), o2, [o3]);
    PerformFirst(f, EMPTY.(state := live.state, snapshot := Some(snapshot)), o3, []);
    NoOps(f, Compacted(live, snapshot));
    assert [o1] + [o2, o3] == [o1, o2, o3] && [o2] + [o3] == [o2, o3] && [o3] + [] == [o3];
  }

  lemma NoOps(f: Format, live: Live)
    ensures PerformAll(f, live, []) == Some(live) && AllRecords(f, []) == []
  {
  }

  /** An append at or below the boundary: the entries end below the stored snapshot. */
  predicate Slips(op: Op, boundary: nat) {
    op.AppendEntries? && op.entries != [] && op.entries[0].index <= boundary
  }

  /** `comp` is `live` with the entries up to `boundary` dropped; the data of their
      snapshots may differ. */
  predicate Beside(live: Live, comp: Live, boundary: nat) {
    && ValidEntries(live.entries)
    && comp.state == live.state
    && comp.entries == Above(live.entries, boundary)
    && live.snapshot.Some? && comp.snapshot.Some?
    && live.snapshot.value.index == comp.snapshot.value.index >= boundary
    && live.snapshot.value.term == comp.snapshot.value.term
  }

  lemma CompactedBeside(live: Live, snapshot: Snapshot)
    requires MayCompact(live, snapshot) && ValidEntries(live.entries)
    ensures Beside(live, Compacted(live, snapshot), snapshot.index)
  {
  }

  lemma AppendBeside(live: Live, comp: Live, boundary: nat, entries: seq<Entry>)
    requires Beside(live, comp, boundary) && entries != [] && ValidEntries(entries) && Continues(live.entries, entries)
    ensures Continues(comp.entries, entries)
    ensures Above(live.entries + entries, boundary) == comp.entries + entries <==> entries[0].index > boundary
  {
    hide Above;
    AboveMeaning(live.entries, boundary);
    AboveAppend(live.entries, entries, boundary);
    AboveMeaning(entries, boundary);
    if entries[0].index <= boundary {
      assert |Above(entries, boundary)| < |entries|;
    }
  }

  lemma ReplaceBeside(live: Live, comp: Live, boundary: nat, op: Op)
    requires Beside(live, comp, boundary) && op.ReplaceSuffix? && Lasting(live, op)
    requires ValidReplace(live.snapshot, op.from, op.entries)
    ensures Lasting(comp, op) && ValidReplace(comp.snapshot, op.from, op.entries)
    ensures Above(Replaced(live.entries, op.from, op.entries), boundary) == Replaced(comp.entries, op.from, op.entries)
    ensures ValidEntries(Replaced(live.entries, op.from, op.entries))
  {
    hide Above, Replaced;
    AboveMeaning(live.entries, boundary);
    ReplaceCommutes(live.entries, op.from, op.entries, boundary);
    ReplacedValid(live.entries, op.from, op.entries);
  }

  /** An operation commutes with compaction: it is accepted after it as before,
      with the same effect above the boundary, if and only if it is not an append
      that slips below it. */
  lemma CompactionCommutes(f: Format, live: Live, comp: Live, boundary: nat, op: Op)
    requires Beside(live, comp, boundary) && Lasting(live, op) && Perform(f, live, op).Some?
    ensures (Lasting(comp, op) && Perform(f, comp, op).Some? &&
             Beside(Perform(f, live, op).value, Perform(f, comp, op).value, boundary)) <==> !Slips(op, boundary)
  {
    hide Above, Replaced, GoodMembership, StatePayload, Counted, SuffixPayload;
    match op
    case SaveState(_) => {}
    case SaveSnapshot(_) => {}
    case AppendEntries(entries) =>
      if entries != [] {
        AppendBeside(live, comp, boundary, entries);
        ContinuedValid(live.entries, entries);
      }
    case ReplaceSuffix(_, _) => ReplaceBeside(live, comp, boundary, op);
  }

  /** The input that fails: the entries end below the stored snapshot, and the next
      one goes in before compaction and after it, but only after it stays. */
  lemma AppendSlips(f: Format, live: Live, snapshot: Snapshot, e: Entry)
    requires MayCompact(live, snapshot) && ValidEntries(live.entries) && live.entries != []
    requires e.index == LastOf(live.entries) + 1 <= snapshot.index && Small(OpRecord(f, AppendEntries([e])))
    ensures Perform(f, live, AppendEntries([e])) == Some(live.(entries := live.entries + [e]))
    ensures Perform(f, Compacted(live, snapshot), AppendEntries([e])) ==
        Some(Compacted(live, snapshot).(entries := [e]))
    ensures Compacted(live.(entries := live.entries + [e]), snapshot).entries == []
  {
    hide Above;
    AboveMeaning(live.entries, snapshot.index);
    assert ValidEntries([e]) && [] + [e] == [e];
    AboveNone(live.entries + [e], snapshot.index);
  }

  /** Both sides carry out `ops` and are beside each other at every point of it. */
  predicate StayBeside(f: Format, live: Live, comp: Live, boundary: nat, ops: seq<Op>)
    decreases |ops|
  {
    && Beside(live, comp, boundary)
    && (ops != [] ==>
          && Perform(f, live, ops[0]).Some?
          && Lasting(comp, ops[0]) && Perform(f, comp, ops[0]).Some?
          && StayBeside(f, Perform(f, live, ops[0]).value, Perform(f, comp, ops[0]).value, boundary, ops[1..]))
  }

  /** In particular both sides carry out the whole sequence and end beside each other. */
  lemma {:induction false} StayedBeside(f: Format, live: Live, comp: Live, boundary: nat, ops: seq<Op>)
    requires StayBeside(f, live, comp, boundary, ops) && PerformAll(f, live, ops).Some?
    ensures PerformAll(f, comp, ops).Some?
    ensures Beside(PerformAll(f, live, ops).value, PerformAll(f, comp, ops).value, boundary)
    decreases |ops|
  {
    hide Beside, Perform, Lasting, Fits;
    if ops != [] {
      StayedBeside(f, Perform(f, live, ops[0]).value, Perform(f, comp, ops[0]).value, boundary, ops[1..]);
    }
  }

  /** A whole sequence of operations commutes with compaction, at every point of
      it, if and only if none of them slips below the boundary. */
  lemma {:induction false} SequenceCommutes(f: Format, live: Live, comp: Live, boundary: nat, ops: seq<Op>)
    requires Beside(live, comp, boundary) && PerformAll(f, live, ops).Some?
    ensures StayBeside(f, live, comp, boundary, ops) <==> forall i | 0 <= i < |ops| :: !Slips(ops[i], boundary)
    decreases |ops|
  {
    hide Beside, Perform, Lasting, Fits, Slips;
    if ops != [] {
      var op, rest := ops[0], ops[1..];
      CompactionCommutes(f, live, comp, boundary, op);
      assert ops == [op] + rest;
      if Slips(op, boundary) {
        if StayBeside(f, live, comp, boundary, ops) {
          BesideFirst(f, live, comp, boundary, ops);
        }
      } else {
        SequenceCommutes(f, Perform(f, live, op).value, Perform(f, comp, op).value, boundary, rest);
      }
    }
  }

  /** Compaction and any operations after it: they are carried out as without it,
      to the same fields less the compacted entries at every point, if and only if
      none of them is an append at or below the snapshot. */
  lemma CompactionThenOperations(f: Format, live: Live, snapshot: Snapshot, ops: seq<Op>)
    requires MayCompact(live, snapshot) && ValidEntries(live.entries) && PerformAll(f, live, ops).Some?
    ensures StayBeside(f, live, Compacted(live, snapshot), snapshot.index, ops) <==>
            forall i | 0 <= i < |ops| :: !Slips(ops[i], snapshot.index)
    ensures (forall i | 0 <= i < |ops| :: !Slips(ops[i], snapshot.index)) ==>
            && PerformAll(f, Compacted(live, snapshot), ops).Some?
            && var a, b := PerformAll(f, live, ops).value, PerformAll(f, Compacted(live, snapshot), ops).value;
               b.entries == Above(a.entries, snapshot.index) && b.state == a.state
  {
    hide Perform, Lasting, Fits, Slips, Above, PerformAll;
    var comp := Compacted(live, snapshot);
    CompactedBeside(live, snapshot);
    SequenceCommutes(f, live, comp, snapshot.index, ops);
    if StayBeside(f, live, comp, snapshot.index, ops) {
      StayedBeside(f, live, comp, snapshot.index, ops);
    }
  }

  lemma BesideFirst(f: Format, live: Live, comp: Live, boundary: nat, ops: seq<Op>)
    requires ops != [] && StayBeside(f, live, comp, boundary, ops)
    ensures Lasting(comp, ops[0]) && Perform(f, live, ops[0]).Some? && Perform(f, comp, ops[0]).Some?
    ensures Beside(Perform(f, live, ops[0]).value, Perform(f, comp, ops[0]).value, boundary)
  {
  }

  lemma AboveBelow(entries: seq<Entry>, from: nat, boundary: nat)
    requires ValidEntries(entries) && boundary < from
    ensures Above(Below(entries, from), boundary) == Below(Above(entries, boundary), from)
  {
    hide Above, Below;
    AboveMeaning(entries, boundary);
    BelowMeaning(entries, from);
    BelowMeaning(Above(entries, boundary), from);
    AboveMeaning(Below(entries, from), boundary);
    if entries != [] && entries[0].index <= boundary < from <= LastOf(entries) {
      var k, m := boundary + 1 - entries[0].index, from - entries[0].index;
      assert entries[..m][k..] == entries[k..][..m - k];
    }
  }

  lemma ReplaceCommutes(existing: seq<Entry>, from: nat, entries: seq<Entry>, boundary: nat)
    requires ValidEntries(existing) && ValidEntries(entries) && boundary < from
    requires entries != [] ==> entries[0].index == from
    ensures Above(Replaced(existing, from, entries), boundary) == Replaced(Above(existing, boundary), from, entries)
  {
    hide Above, Below;
    AboveBelow(existing, from, boundary);
    AboveAppend(Below(existing, from), entries, boundary);
    AboveAll(entries, boundary);
  }

  /** The converse fails: once compaction has emptied the log, an append is
      accepted at any index, while before it had to follow the last entry. */
  lemma CompactedLogAcceptsGap(f: Format, live: Live, snapshot: Snapshot, e: Entry)
    requires MayCompact(live, snapshot) && ValidEntries(live.entries) && live.entries != []
    requires LastOf(live.entries) <= snapshot.index && e.index >= 1 && e.index != LastOf(live.entries) + 1
    requires Small(OpRecord(f, AppendEntries([e])))
    ensures Perform(f, live, AppendEntries([e])).None?
    ensures Perform(f, Compacted(live, snapshot), AppendEntries([e])) ==
        Some(Compacted(live, snapshot).(entries := [e]))
  {
    hide Above;
    AboveMeaning(live.entries, snapshot.index);
    assert OpRecord(f, AppendEntries([e])).kind == ENTRIES;
    assert ValidEntries([e]) && [] + [e] == [e];
  }
}
