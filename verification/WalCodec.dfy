/** The payloads and the record framing of the write-ahead log
    (internal/storage/wal_record.go, wal_state.go, wal_membership.go,
    wal_entries.go). */
module WalCodec {
  import opened Types
  import opened Bytes

  type u32 = x: int | 0 <= x < 0x1_0000_0000

  /** What the log takes from libraries: CRC-32 (IEEE) over bytes, and the JSON
      form of a snapshot. Nothing below depends on which checksum it is. */
  datatype Format = Format(
    crc: seq<byte> -> u32,
    putSnapshot: Snapshot -> seq<byte>,
    getSnapshot: seq<byte> -> Option<Snapshot>)

  /** Snapshots survive their own encoding. */
  ghost predicate Sound(f: Format) {
    forall s: Snapshot :: f.getSnapshot(f.putSnapshot(s)) == Some(s)
  }

  /** A number as that many ones before a zero. */
  function PutOnes(n: nat): seq<byte> {
    if n == 0 then [0] else [1] + PutOnes(n - 1)
  }

  function ReadOnes(s: seq<byte>): Option<Parsed<nat>> {
    if s == [] then None
    else if s[0] == 0 then Some(Parsed(0, s[1..]))
    else
      match ReadOnes(s[1..])
      case None => None
      case Some(Parsed(n, rest)) => Some(Parsed(n + 1, rest))
  }

  lemma {:induction false} ReadPutOnes(n: nat, rest: seq<byte>)
    ensures ReadOnes(PutOnes(n) + rest) == Some(Parsed(n, rest))
  {
    var s := PutOnes(n) + rest;
    if n == 0 {
      assert s[1..] == rest;
    } else {
      assert s[1..] == PutOnes(n - 1) + rest;
      ReadPutOnes(n - 1, rest);
    }
  }

  function PutPlain(s: Snapshot): seq<byte> {
    PutOnes(s.index) + (PutOnes(s.term) + s.data)
  }

  function GetPlain(s: seq<byte>): Option<Snapshot> {
    match ReadOnes(s)
    case None => None
    case Some(Parsed(index, rest)) =>
      match ReadOnes(rest)
      case None => None
      case Some(Parsed(term, data)) => Some(Snapshot(index, term, data))
  }

  /** There is a format of that kind, for any checksum. */
  lemma SoundFormat(crc: seq<byte> -> u32)
    ensures Sound(Format(crc, PutPlain, GetPlain))
  {
    forall s: Snapshot ensures GetPlain(PutPlain(s)) == Some(s) {
      ReadPutOnes(s.index, PutOnes(s.term) + s.data);
      ReadPutOnes(s.term, s.data);
    }
  }

  // ---- State payloads ----

  const STATE_MAGIC := 0x52414654

  const NO_MEMBERSHIP := Membership(Configuration([]), None)

  function PutJoint(m: Membership): seq<byte> {
    match m.joint
    case None => [0]
    case Some(joint) => [1] + PutVoters(joint.oldC.voters) + PutVoters(joint.newC.voters)
  }

  function PutMembership(m: Membership): seq<byte> {
    Put(STATE_MAGIC, 4) + [1] + PutVoters(m.current.voters) + PutJoint(m)
  }

  function ReadJoint(s: seq<byte>, current: Configuration): Option<Parsed<Membership>> {
    if s == [] then None
    else if s[0] == 0 then Some(Parsed(Membership(current, None), s[1..]))
    else if s[0] != 1 then None
    else
      match ReadVoters(s[1..])
      case None => None
      case Some(Parsed(oldC, rest)) =>
        match ReadVoters(rest)
        case None => None
        case Some(Parsed(newC, rest')) =>
          Some(Parsed(Membership(current, Some(JointConfiguration(Configuration(oldC), Configuration(newC)))), rest'))
  }

  function ReadMembership(s: seq<byte>): Option<Parsed<Membership>> {
    match ReadUint(s, 4)
    case None => None
    case Some(Parsed(magic, rest)) =>
      if magic != STATE_MAGIC || rest == [] || rest[0] != 1 then None
      else
        match ReadVoters(rest[1..])
        case None => None
        case Some(Parsed(current, rest')) => ReadJoint(rest', Configuration(current))
  }

  function StatePayload(st: PersistentState): seq<byte> {
    Put(st.term, 8) + PutString(st.votedFor) + PutMembership(st.membership)
  }

  /** decodeStatePayload; a payload that ends after the vote is of the old format. */
  function DecodeState(payload: seq<byte>): Option<PersistentState> {
    match ReadUint(payload, 8)
    case None => None
    case Some(Parsed(term, rest)) =>
      match ReadString(rest)
      case None => None
      case Some(Parsed(votedFor, rest')) =>
        if rest' == [] then Some(PersistentState(term, votedFor, NO_MEMBERSHIP))
        else
          match ReadMembership(rest')
          case None => None
          case Some(Parsed(m, rest'')) => if rest'' != [] then None else Some(PersistentState(term, votedFor, m))
  }

  predicate GoodMembership(m: Membership) {
    && GoodVoters(m.current.voters)
    && (m.joint.Some? ==> GoodVoters(m.joint.value.oldC.voters) && GoodVoters(m.joint.value.newC.voters))
  }

  /** The widths that Go's types fix. */
  predicate FitsState(st: PersistentState) {
    st.term < U64 && |st.votedFor| < U32
  }

  /** A record of the old format, without a membership, keeps its term and vote. */
  lemma OldStateKept(term: nat, votedFor: NodeID)
    requires term < U64 && |votedFor| < U32
    ensures DecodeState(Put(term, 8) + PutString(votedFor)) == Some(PersistentState(term, votedFor, NO_MEMBERSHIP))
  {
    Widths();
    ReadPut(term, 8, PutString(votedFor));
    assert PutString(votedFor) + [] == PutString(votedFor);
    ReadPutString(votedFor, []);
  }

  lemma JointRoundTrip(m: Membership)
    requires GoodMembership(m)
    ensures ReadJoint(PutJoint(m), m.current) == Some(Parsed(m, []))
  {
    if m.joint.Some? {
      var first, second := PutVoters(m.joint.value.oldC.voters), PutVoters(m.joint.value.newC.voters);
      var tail: seq<byte> := [1] + first + second;
      assert tail[1..] == first + second;
      ReadPutVoters(m.joint.value.oldC.voters, second);
      assert second + [] == second;
      ReadPutVoters(m.joint.value.newC.voters, []);
    } else {
      assert PutJoint(m)[1..] == [];
    }
  }

  lemma MembershipRoundTrip(m: Membership)
    requires GoodMembership(m)
    ensures ReadMembership(PutMembership(m)) == Some(Parsed(m, []))
  {
    hide PutJoint, ReadJoint, PutVoters, ReadVoters, GoodVoters;
    Widths();
    var tail := PutJoint(m);
    var rest: seq<byte> := [1] + (PutVoters(m.current.voters) + tail);
    assert PutMembership(m) == Put(STATE_MAGIC, 4) + rest;
    ReadPut(STATE_MAGIC, 4, rest);
    assert rest[1..] == PutVoters(m.current.voters) + tail;
    ReadPutVoters(m.current.voters, tail);
    JointRoundTrip(m);
  }

  lemma JointIsGood(s: seq<byte>, current: Configuration)
    requires ReadJoint(s, current).Some? && GoodVoters(current.voters)
    ensures GoodMembership(ReadJoint(s, current).value.value)
  {
    if s[0] != 0 {
      ReadVotersIsPut(s[1..]);
      ReadVotersIsPut(ReadVoters(s[1..]).value.rest);
    }
  }

  lemma MembershipIsGood(s: seq<byte>)
    requires ReadMembership(s).Some?
    ensures GoodMembership(ReadMembership(s).value.value)
  {
    var rest := ReadUint(s, 4).value.rest;
    ReadVotersIsPut(rest[1..]);
    var p := ReadVoters(rest[1..]).value;
    JointIsGood(p.rest, Configuration(p.value));
  }

  lemma MembershipSize(m: Membership)
    ensures |PutMembership(m)| >= 5
  {
    hide PutJoint, PutVoters;
  }

  /** Decoding a saved state comes down to decoding its membership. */
  lemma StateFields(st: PersistentState)
    requires FitsState(st)
    ensures DecodeState(StatePayload(st)) ==
            match ReadMembership(PutMembership(st.membership))
            case None => None
            case Some(Parsed(m, rest)) => if rest != [] then None else Some(PersistentState(st.term, st.votedFor, m))
  {
    hide PutMembership, ReadMembership, PutString, ReadString, Put, ReadUint;
    Widths();
    var tail := PutMembership(st.membership);
    assert StatePayload(st) == Put(st.term, 8) + (PutString(st.votedFor) + tail);
    ReadPut(st.term, 8, PutString(st.votedFor) + tail);
    ReadPutString(st.votedFor, tail);
    MembershipSize(st.membership);
  }

  /** A saved state is read back unchanged exactly when its membership is one the
      decoder accepts: at most 1024 voters per configuration, none empty or over
      1024 bytes, none twice. The encoder does not check any of this. */
  lemma StateRoundTrip(st: PersistentState)
    requires FitsState(st)
    ensures DecodeState(StatePayload(st)) == Some(st) <==> GoodMembership(st.membership)
  {
    hide PutMembership, ReadMembership, DecodeState, StatePayload, GoodMembership;
    StateFields(st);
    if GoodMembership(st.membership) {
      MembershipRoundTrip(st.membership);
    }
    if DecodeState(StatePayload(st)) == Some(st) {
      MembershipIsGood(PutMembership(st.membership));
    }
  }

  // ---- Entry payloads ----

  function PutEntry(e: Entry): seq<byte> {
    Put(e.index, 8) + Put(e.term, 8) + PutString(e.data)
  }

  function PutEntries(entries: seq<Entry>): seq<byte> {
    if entries == [] then [] else PutEntries(entries[..|entries| - 1]) + PutEntry(entries[|entries| - 1])
  }

  function ReadEntry(s: seq<byte>): Option<Parsed<Entry>> {
    match ReadUint(s, 8)
    case None => None
    case Some(Parsed(index, rest)) =>
      match ReadUint(rest, 8)
      case None => None
      case Some(Parsed(term, rest')) =>
        match ReadString(rest')
        case None => None
        case Some(Parsed(data, rest'')) => Some(Parsed(Entry(index, term, data), rest''))
  }

  function ReadEntries(s: seq<byte>, count: nat, entries: seq<Entry>): Option<seq<Entry>>
    decreases count
  {
    if count == 0 then if s == [] then Some(entries) else None
    else
      match ReadEntry(s)
      case None => None
      case Some(Parsed(e, rest)) => ReadEntries(rest, count - 1, entries + [e])
  }

  /** A count and that many entries, nothing behind them. */
  function ReadCounted(s: seq<byte>): Option<seq<Entry>> {
    match ReadUint(s, 4)
    case None => None
    case Some(Parsed(count, rest)) => if count > |rest| / 20 then None else ReadEntries(rest, count, [])
  }

  function Counted(entries: seq<Entry>): seq<byte> {
    Put(|entries|, 4) + PutEntries(entries)
  }

  /** validateEntries accepts. */
  predicate ValidEntries(entries: seq<Entry>) {
    entries != [] ==> entries[0].index >= 1 && Consecutive(entries, entries[0].index)
  }

  predicate FitsEntries(entries: seq<Entry>) {
    |entries| < U32 && forall i | 0 <= i < |entries| :: FitsEntry(entries[i])
  }

  predicate FitsEntry(e: Entry) {
    e.index < U64 && e.term < U64 && |e.data| < U32
  }

  lemma ReadPutEntry(e: Entry, rest: seq<byte>)
    requires FitsEntry(e)
    ensures ReadEntry(PutEntry(e) + rest) == Some(Parsed(e, rest))
  {
    Widths();
    hide Put, Get, Power, ReadUint, PutString, ReadString;
    var tail := PutString(e.data) + rest;
    assert PutEntry(e) + rest == Put(e.index, 8) + (Put(e.term, 8) + tail);
    ReadPut(e.index, 8, Put(e.term, 8) + tail);
    ReadPut(e.term, 8, tail);
    ReadPutString(e.data, rest);
  }

  lemma PutEntriesLast(entries: seq<Entry>, e: Entry)
    ensures PutEntries(entries + [e]) == PutEntries(entries) + PutEntry(e)
  {
    hide PutEntry;
    assert (entries + [e])[..|entries|] == entries;
  }

  lemma {:induction false} PutEntriesAppend(a: seq<Entry>, b: seq<Entry>)
    ensures PutEntries(a + b) == PutEntries(a) + PutEntries(b)
  {
    if b == [] {
      assert a + b == a;
    } else {
      hide PutEntry, PutEntries;
      var front, e := b[..|b| - 1], b[|b| - 1];
      PutEntriesAppend(a, front);
      PutEntriesLast(front, e);
      PutEntriesLast(a + front, e);
      assert b == front + [e] && a + b == a + front + [e];
      Assoc(PutEntries(a), PutEntries(front), PutEntry(e));
    }
  }

  lemma PutEntriesFirst(entries: seq<Entry>)
    requires entries != []
    ensures PutEntries(entries) == PutEntry(entries[0]) + PutEntries(entries[1..])
  {
    hide PutEntry;
    assert entries == [entries[0]] + entries[1..];
    PutEntriesAppend([entries[0]], entries[1..]);
    assert PutEntries([entries[0]]) == PutEntries([entries[0]][..0]) + PutEntry(entries[0]);
  }

  lemma FitsFirst(entries: seq<Entry>)
    requires FitsEntries(entries) && entries != []
    ensures FitsEntry(entries[0]) && FitsEntries(entries[1..])
  {
  }

  lemma ReadOneEntry(e: Entry, rest: seq<byte>, count: nat, before: seq<Entry>)
    requires FitsEntry(e) && count >= 1
    ensures ReadEntries(PutEntry(e) + rest, count, before) == ReadEntries(rest, count - 1, before + [e])
  {
    hide PutEntry, ReadEntry;
    ReadPutEntry(e, rest);
  }

  lemma {:induction false} ReadPutEntries(entries: seq<Entry>, before: seq<Entry>)
    requires FitsEntries(entries)
    ensures ReadEntries(PutEntries(entries), |entries|, before) == Some(before + entries)
    decreases |entries|
  {
    if entries == [] {
      assert before + entries == before;
    } else {
      FitsFirst(entries);
      hide PutEntry, FitsEntry, FitsEntries, PutEntries, ReadEntries;
      PutEntriesFirst(entries);
      ReadOneEntry(entries[0], PutEntries(entries[1..]), |entries|, before);
      ReadPutEntries(entries[1..], before + [entries[0]]);
      assert before + [entries[0]] + entries[1..] == before + entries by {
        assert entries == [entries[0]] + entries[1..];
      }
    }
  }

  lemma {:induction false} EntriesSize(entries: seq<Entry>)
    ensures |PutEntries(entries)| >= 20 * |entries|
    ensures forall i | 0 <= i < |entries| :: |entries[i].data| <= |PutEntries(entries)|
  {
    if entries != [] {
      EntriesSize(entries[..|entries| - 1]);
    }
  }

  /** Index and term are 64-bit integers in the source. */
  predicate WideEntries(entries: seq<Entry>) {
    forall i | 0 <= i < |entries| :: entries[i].index < U64 && entries[i].term < U64
  }

  /** Entries whose encoding stays within a record fit all other widths as well. */
  lemma WideEntriesFit(entries: seq<Entry>)
    requires WideEntries(entries) && |PutEntries(entries)| < U32
    ensures FitsEntries(entries)
  {
    EntriesSize(entries);
  }

  lemma CountedRoundTrip(entries: seq<Entry>)
    requires FitsEntries(entries)
    ensures ReadCounted(Counted(entries)) == Some(entries)
  {
    Widths();
    hide Put, Get, Power, ReadUint, PutEntries, ReadEntries;
    ReadPut(|entries|, 4, PutEntries(entries));
    EntriesSize(entries);
    ReadPutEntries(entries, []);
    assert [] + entries == entries;
  }

  /** decodeEntriesPayload. */
  function DecodeEntries(payload: seq<byte>): Option<seq<Entry>> {
    match ReadCounted(payload)
    case None => None
    case Some(entries) => if ValidEntries(entries) then Some(entries) else None
  }

  datatype Suffix = Suffix(from: nat, entries: seq<Entry>)

  function SuffixPayload(suffix: Suffix): seq<byte> {
    Put(suffix.from, 8) + Counted(suffix.entries)
  }

  /** decodeReplaceSuffixPayload. */
  function DecodeSuffix(payload: seq<byte>): Option<Suffix> {
    match ReadUint(payload, 8)
    case None => None
    case Some(Parsed(from, rest)) =>
      match ReadCounted(rest)
      case None => None
      case Some(entries) => Some(Suffix(from, entries))
  }

  /** An entries record is read back unchanged exactly when its indices run on from a positive one. */
  lemma EntriesRoundTrip(entries: seq<Entry>)
    requires FitsEntries(entries)
    ensures DecodeEntries(Counted(entries)) == Some(entries) <==> ValidEntries(entries)
  {
    CountedRoundTrip(entries);
  }

  lemma SuffixRoundTrip(suffix: Suffix)
    requires suffix.from < U64 && FitsEntries(suffix.entries)
    ensures DecodeSuffix(SuffixPayload(suffix)) == Some(suffix)
  {
    Widths();
    hide Put, Get, Power, ReadUint, Counted, ReadCounted;
    ReadPut(suffix.from, 8, Counted(suffix.entries));
    CountedRoundTrip(suffix.entries);
  }

  // ---- The loops ----

  /** The body of encodeEntriesRecord. */
  method EncodeEntries(entries: seq<Entry>) returns (payload: seq<byte>)
    ensures payload == Counted(entries)
  {
    var body := [];
    for i := 0 to |entries|
      invariant body == PutEntries(entries[..i])
    {
      assert entries[..i + 1][..i] == entries[..i];
      body := body + PutEntry(entries[i]);
    }
    assert entries[..|entries|] == entries;
    return Put(|entries|, 4) + body;
  }

  /** validateEntries. */
  method ValidateEntries(entries: seq<Entry>) returns (ok: bool)
    ensures ok == ValidEntries(entries)
  {
    for i := 0 to |entries|
      invariant i > 0 ==> entries[0].index >= 1
      invariant forall k | 0 <= k < i :: entries[k].index == entries[0].index + k
    {
      if entries[i].index == 0 || (i > 0 && entries[i].index != entries[i - 1].index + 1) {
        return false;
      }
    }
    return true;
  }

  /** decodeEntriesPayload with its reader. */
  method DecodeEntriesPayload(payload: seq<byte>) returns (result: Option<seq<Entry>>)
    ensures result == DecodeEntries(payload)
  {
    hide ReadEntry, ReadUint, ValidEntries;
    var header := ReadUint(payload, 4);
    if header.None? || header.value.value > |header.value.rest| / 20 {
      return None;
    }
    var count, rest := header.value.value, header.value.rest;
    var entries: seq<Entry> := [];
    for i := 0 to count
      invariant ReadEntries(rest, count - i, entries) == ReadEntries(header.value.rest, count, [])
    {
      var entry := ReadEntry(rest);
      if entry.None? {
        return None;
      }
      rest := entry.value.rest;
      entries := entries + [entry.value.value];
    }
    if |rest| != 0 {
      return None;
    }
    var ok := ValidateEntries(entries);
    if !ok {
      return None;
    }
    return Some(entries);
  }

  // ---- Records ----

  const STATE := 1
  const ENTRIES := 2
  const SNAPSHOT := 3
  const REPLACE := 4
  const MAX_RECORD := 0x100_0000

  datatype Record = Record(kind: byte, payload: seq<byte>)

  predicate Small(rec: Record) {
    |rec.payload| <= MAX_RECORD
  }

  function Head(rec: Record): seq<byte> {
    [rec.kind] + Put(|rec.payload|, 4) + rec.payload
  }

  /** encodeRecord of a payload within bounds. */
  function Frame(f: Format, rec: Record): (s: seq<byte>)
    ensures |s| == |rec.payload| + 9
  {
    Head(rec) + Put(f.crc(Head(rec)), 4)
  }

  datatype Decoded =
    | Eof
    | Torn
    | Corrupt
    | Read(rec: Record, rest: seq<byte>)

  /** decodeRecord on the bytes that are left in the file. */
  function Unframe(f: Format, s: seq<byte>): Decoded {
    if s == [] then Eof
    else if |s| < 5 then Torn
    else
      var size := Get(s[1..5]);
      if size > MAX_RECORD then Corrupt
      else if |s| < size + 9 then Torn
      else
        var rec := Record(s[0], s[5..size + 5]);
        if Get(s[size + 5..size + 9]) != f.crc(Head(rec)) then Corrupt
        else Read(rec, s[size + 9..])
  }

  lemma FramePieces(f: Format, rec: Record, rest: seq<byte>)
    requires Small(rec)
    ensures var s := Frame(f, rec) + rest;
            && s[0] == rec.kind
            && Get(s[1..5]) == |rec.payload|
            && s[5..|rec.payload| + 5] == rec.payload
            && s[|rec.payload| + 5..|rec.payload| + 9] == Put(f.crc(Head(rec)), 4)
            && s[|rec.payload| + 9..] == rest
  {
    Widths();
    var s := Frame(f, rec) + rest;
    assert s[1..5] == Put(|rec.payload|, 4);
    GetPut(|rec.payload|, 4);
  }

  /** A framed record is read back with whatever follows it. */
  lemma UnframeFrame(f: Format, rec: Record, rest: seq<byte>)
    requires Small(rec)
    ensures Unframe(f, Frame(f, rec) + rest) == Read(rec, rest)
  {
    Widths();
    FramePieces(f, rec, rest);
    GetPut(f.crc(Head(rec)), 4);
  }

  /** A record cut short anywhere is torn, not corrupt and not readable. */
  lemma UnframeTorn(f: Format, rec: Record, cut: nat)
    requires Small(rec) && cut < |Frame(f, rec)|
    ensures Unframe(f, Frame(f, rec)[..cut]) == if cut == 0 then Eof else Torn
  {
    var s := Frame(f, rec);
    assert s + [] == s;
    FramePieces(f, rec, []);
    if cut >= 5 {
      assert s[..cut][1..5] == s[1..5];
    }
  }

  /** What is read as a record is that record's frame. */
  lemma UnframeIsFrame(f: Format, s: seq<byte>)
    requires Unframe(f, s).Read?
    ensures var d := Unframe(f, s); Small(d.rec) && s == Frame(f, d.rec) + d.rest
  {
    Widths();
    var d := Unframe(f, s);
    var size := |d.rec.payload|;
    PutGet(s[1..5]);
    PutGet(s[size + 5..size + 9]);
    assert s == [s[0]] + s[1..5] + s[5..size + 5] + s[size + 5..size + 9] + s[size + 9..];
  }
}
