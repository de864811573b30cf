/** The storage object: a file and the fields rebuilt from it, and the methods
    that keep the two in step (internal/storage). */
module WalStorage {
  import opened Types
  import opened Bytes
  import opened WalCodec
  import opened Wal

  /** How a write to the file ends: whole, or with an error after `part` bytes,
      which are then cut off again if the rollback succeeds. */
  datatype Write = Done | Failed(part: nat, rolledBack: bool)

  /** How the file-system half of a compaction ends. */
  datatype Rewrite = Renamed | NotRenamed(reopened: bool)

  // ---- What recovered fields look like ----

  /** Fields that can be saved again. */
  predicate Storable(live: Live) {
    ValidEntries(live.entries) && WideEntries(live.entries) && live.state.term < U64 &&
        GoodMembership(live.state.membership)
  }

  lemma {:induction false} ReadEntriesWide(s: seq<byte>, count: nat, before: seq<Entry>)
    requires ReadEntries(s, count, before).Some? && WideEntries(before)
    ensures WideEntries(ReadEntries(s, count, before).value)
    decreases count
  {
    hide WideEntries;
    if count > 0 {
      var p := ReadEntry(s).value;
      ReadEntryWide(s, before);
      hide ReadEntry;
      ReadEntriesWide(p.rest, count - 1, before + [p.value]);
    }
  }

  lemma ReadEntryWide(s: seq<byte>, before: seq<Entry>)
    requires ReadEntry(s).Some? && WideEntries(before)
    ensures WideEntries(before + [ReadEntry(s).value.value])
  {
    Widths();
    var rest := ReadUint(s, 8).value.rest;
    assert ReadEntry(s).value.value.term == ReadUint(rest, 8).value.value;
  }

  lemma DecodedEntriesWide(payload: seq<byte>)
    ensures DecodeEntries(payload).Some? ==> WideEntries(DecodeEntries(payload).value)
    ensures DecodeSuffix(payload).Some? ==> WideEntries(DecodeSuffix(payload).value.entries)
  {
    if ReadCounted(payload).Some? {
      var p := ReadUint(payload, 4).value;
      ReadEntriesWide(p.rest, p.value, []);
    }
    if DecodeSuffix(payload).Some? {
      var p := ReadUint(ReadUint(payload, 8).value.rest, 4).value;
      ReadEntriesWide(p.rest, p.value, []);
    }
  }

  lemma DecodedState(payload: seq<byte>)
    requires DecodeState(payload).Some?
    ensures DecodeState(payload).value.term < U64 && GoodMembership(DecodeState(payload).value.membership)
  {
    Widths();
    var rest := ReadString(ReadUint(payload, 8).value.rest).value.rest;
    if rest != [] {
      MembershipIsGood(rest);
    }
  }

  lemma ReplayStorable(f: Format, live: Live, rec: Record)
    requires Storable(live) && Replay(f, live, rec).Some?
    ensures Storable(Replay(f, live, rec).value)
  {
    hide DecodeState, DecodeEntries, DecodeSuffix, GoodMembership, Below;
    if rec.kind == STATE {
      DecodedState(rec.payload);
    } else if rec.kind == ENTRIES {
      DecodedEntriesWide(rec.payload);
      var entries := DecodeEntries(rec.payload).value;
      DecodedEntriesValid(rec.payload);
      ContinuedValid(live.entries, entries);
    } else if rec.kind == REPLACE {
      DecodedEntriesWide(rec.payload);
      var Suffix(from, entries) := DecodeSuffix(rec.payload).value;
      BelowWide(live.entries, from);
    }
  }

  lemma DecodedEntriesValid(payload: seq<byte>)
    requires DecodeEntries(payload).Some?
    ensures ValidEntries(DecodeEntries(payload).value)
  {
  }

  lemma {:induction false} BelowWide(entries: seq<Entry>, from: nat)
    requires WideEntries(entries)
    ensures WideEntries(Below(entries, from))
  {
    if entries != [] {
      BelowWide(entries[1..], from);
    }
  }

  lemma AppendedWide(existing: seq<Entry>, entries: seq<Entry>)
    requires WideEntries(existing) && WideEntries(entries)
    ensures WideEntries(existing + entries)
  {
  }

  lemma ReplacedWide(existing: seq<Entry>, from: nat, entries: seq<Entry>)
    requires WideEntries(existing) && WideEntries(entries)
    ensures WideEntries(Replaced(existing, from, entries))
  {
    BelowWide(existing, from);
  }

  function Shift(r: Option<Recovered>, n: nat): Option<Recovered> {
    match r
    case None => None
    case Some(Recovered(live, size)) => Some(Recovered(live, n + size))
  }

  /** The loops of replaceSuffixCopy: find the cut, copy, append. */
  method ReplaceSuffixCopy(existing: seq<Entry>, from: nat, replacement: seq<Entry>) returns (result: seq<Entry>)
    ensures result == Replaced(existing, from, replacement)
  {
    var cut := 0;
    while cut < |existing| && existing[cut].index < from
      invariant cut <= |existing|
      invariant Below(existing, from) == existing[..cut] + Below(existing[cut..], from)
    {
      assert existing[cut..][1..] == existing[cut + 1..];
      assert existing[..cut + 1] == existing[..cut] + [existing[cut]];
      cut := cut + 1;
    }
    result := existing[..cut] + replacement;
  }

  /** The filtering loop of Compact. */
  method KeepAbove(entries: seq<Entry>, boundary: nat) returns (kept: seq<Entry>)
    ensures kept == Above(entries, boundary)
  {
    kept := [];
    for i := 0 to |entries|
      invariant kept == Above(entries[..i], boundary)
    {
      assert entries[..i + 1][..i] == entries[..i];
      if entries[i].index > boundary {
        kept := kept + [entries[i]];
      }
    }
    assert entries[..|entries|] == entries;
  }

  class Storage {
    const f: Format
    var file: seq<byte>
    var synced: nat
    var open: bool
    var state: PersistentState
    var entries: seq<Entry>
    var snapshot: Option<Snapshot>

    function View(): Live
      reads this
    {
      Live(state, entries, snapshot)
    }

    /** The bytes rebuild the fields; an open file has no torn end. */
    ghost predicate Valid()
      reads this
    {
      && Sound(f)
      && Storable(View())
      && synced <= |file|
      && Recover(f, file, EMPTY).Some?
      && Recover(f, file, EMPTY).value.live == View()
      && (open ==> Recover(f, file, EMPTY).value.size == |file|)
    }

    /** The bytes of an open file rebuild the fields. */
    ghost predicate Recovers()
      reads this
    {
      Recover(f, file, EMPTY) == Some(Recovered(View(), |file|))
    }

    /** OpenWAL up to the call of recover: a file with whatever it holds, some of
        it perhaps not yet synced. */
    constructor (f: Format, bytes: seq<byte>, synced: nat)
      requires synced <= |bytes|
      ensures this.f == f && file == bytes && this.synced == synced && !open && View() == EMPTY
    {
      this.f := f;
      file := bytes;
      this.synced := synced;
      open := false;
      state := EMPTY.state;
      entries := [];
      snapshot := None;
    }

    /** recover: rebuild the fields record by record and cut off a torn end.
        `position` is the cursor of the file. Nothing is synced. */
    method RecoverFile() returns (ok: bool)
      requires Sound(f) && View() == EMPTY && synced <= |file|
      modifies this
      ensures ok <==> Recover(f, old(file), EMPTY).Some?
      ensures ok ==> Valid() && open && synced == if old(synced) < |file| then old(synced) else |file|
      ensures ok ==> View() == Recover(f, old(file), EMPTY).value.live
      ensures ok ==> |file| == Recover(f, old(file), EMPTY).value.size && file <= old(file)
    {
      hide Replay, Unframe, Sound;
      var bytes := file;
      var position, validOffset := 0, 0;
      EmptyStorable();
      while true
        invariant file == bytes && position == validOffset <= |file| && synced == old(synced)
        invariant Storable(View())
        invariant Recover(f, bytes, EMPTY) == Shift(Recover(f, bytes[validOffset..], View()), validOffset)
        decreases |file| - validOffset
      {
        var recordStart := position;
        var decoded := Unframe(f, file[position..]);
        position := if decoded.Read? then |file| - |decoded.rest| else |file|;
        if decoded.Eof? {
          if recordStart != validOffset {
            // The branch that truncates at an end of file past a valid boundary.
            assert false;
          }
          break;
        }
        if decoded.Torn? {
          break;
        }
        if decoded.Corrupt? {
          return false;
        }
        UnframeIsFrame(f, file[recordStart..]);
        validOffset := position;
        var replayed := Replay(f, View(), decoded.rec);
        if replayed.None? {
          return false;
        }
        ReplayStorable(f, View(), decoded.rec);
        assert bytes[validOffset..] == decoded.rest;
        state, entries, snapshot := replayed.value.state, replayed.value.entries, replayed.value.snapshot;
      }
      file := file[..validOffset];
      synced := if synced < |file| then synced else |file|;
      open := true;
      RecoveredAgain(f, bytes);
      return true;
    }

    /** appendRecord: all of the record, or none of it, or a closed file with a torn end. */
    method AppendRecord(rec: Record, w: Write) returns (ok: bool)
      requires Valid() && open && Small(rec)
      requires w.Failed? ==> w.part < |Frame(f, rec)|
      modifies this`file, this`open
      ensures ok == w.Done?
      ensures ok ==> open && file == old(file) + Frame(f, rec)
      ensures ok ==> Recover(f, file, EMPTY) ==
                     match Replay(f, View(), rec)
                     case None => None
                     case Some(live) => Some(Recovered(live, |file|))
      ensures !ok ==> Valid() && open == w.rolledBack
      ensures !ok && w.rolledBack ==> file == old(file)
    {
      hide Replay, Frame, Sound, Storable;
      var start := |file|;
      RecordAppended(f, file, View(), rec, if w.Failed? then w.part else 0);
      if w.Failed? {
        file := file + Frame(f, rec)[..w.part];
        if w.rolledBack {
          file := file[..start];
        } else {
          open := false;
        }
        return false;
      }
      file := file + Frame(f, rec);
      return true;
    }

    /** The fields and the file change together or not at all. What is saved is
        rebuilt by recovery exactly if recovery accepts it; so for the methods below. */
    method SaveState(st: PersistentState, w: Write) returns (ok: bool)
      requires Valid() && st.term < U64
      requires w.Failed? ==> w.part < |StatePayload(st)| + 9
      modifies this
      ensures synced == old(synced) && (!ok || Lasting(old(View()), Op.SaveState(st)) ==> Valid())
      ensures ok ==> (Recovers() <==> Lasting(old(View()), Op.SaveState(st)))
      ensures ok == (old(open) && w.Done? && Small(OpRecord(f, Op.SaveState(st))))
      ensures View() == if ok then old(View()).(state := st) else old(View())
      ensures old(open) && ok ==> open && file == old(file) + Frame(f, OpRecord(f, Op.SaveState(st)))
      ensures old(open) && !ok && !(w.Failed? && !w.rolledBack) ==> open && file == old(file)
    {
      hide Replay, Frame, StatePayload, GoodMembership, GoodVoters;
      var op := Op.SaveState(st);
      if !open || !Small(OpRecord(f, op)) {
        return false;
      }
      ReplayMatches(f, View(), op);
      ok := AppendRecord(OpRecord(f, op), w);
      if ok {
        state := st;
      }
    }

    method AppendEntries(additions: seq<Entry>, w: Write) returns (ok: bool)
      requires Valid() && WideEntries(additions)
      requires w.Failed? ==> w.part < |Counted(additions)| + 9
      modifies this
      ensures Valid() && synced == old(synced)
      ensures ok == (old(open) && Perform(f, old(View()), Op.AppendEntries(additions)).Some? &&
          (additions == [] || w.Done?))
      ensures View() == if ok then old(View()).(entries := old(entries) + additions) else old(View())
      ensures old(open) && !(w.Failed? && !w.rolledBack) ==> open
    {
      hide Replay, Frame, Counted, Sound, WideEntries, GoodMembership, Recover, ValidEntries;
      var op := Op.AppendEntries(additions);
      if !open {
        return false;
      }
      if additions == [] {
        assert entries + additions == entries;
        return true;
      }
      var valid := ValidateEntries(additions);
      if !valid || !Continues(entries, additions) || !Small(OpRecord(f, op)) {
        return false;
      }
      ReplayMatches(f, View(), op);
      AppendedWide(entries, additions);
      ok := AppendRecord(OpRecord(f, op), w);
      if ok {
        entries := entries + additions;
      }
    }

    method ReplaceSuffix(from: nat, replacement: seq<Entry>, w: Write) returns (ok: bool)
      requires Valid() && from < U64 && WideEntries(replacement)
      requires w.Failed? ==> w.part < |SuffixPayload(Suffix(from, replacement))| + 9
      modifies this
      ensures synced == old(synced) && (!ok || Lasting(old(View()), Op.ReplaceSuffix(from, replacement)) ==> Valid())
      ensures ok ==> (Recovers() <==> Lasting(old(View()), Op.ReplaceSuffix(from, replacement)))
      ensures ok == (old(open) && w.Done? && Perform(f, old(View()), Op.ReplaceSuffix(from, replacement)).Some?)
      ensures View() == if ok then old(View()).(entries := Replaced(old(entries), from, replacement)) else old(View())
      ensures old(open) && !(w.Failed? && !w.rolledBack) ==> open
    {
      hide Replay, Frame, SuffixPayload, Replaced, Sound, ValidEntries, WideEntries, GoodMembership, Recover;
      var op := Op.ReplaceSuffix(from, replacement);
      if !open || !ValidReplace(snapshot, from, replacement) || !Small(OpRecord(f, op)) {
        return false;
      }
      ReplayMatches(f, View(), op);
      ReplacedWide(entries, from, replacement);
      ok := AppendRecord(OpRecord(f, op), w);
      if ok {
        entries := ReplaceSuffixCopy(entries, from, replacement);
      }
    }

    method SaveSnapshot(s: Snapshot, w: Write) returns (ok: bool)
      requires Valid()
      requires w.Failed? ==> w.part < |f.putSnapshot(s)| + 9
      modifies this
      ensures synced == old(synced) && (!ok || Lasting(old(View()), Op.SaveSnapshot(s)) ==> Valid())
      ensures ok ==> (Recovers() <==> Lasting(old(View()), Op.SaveSnapshot(s)))
      ensures ok == (old(open) && w.Done? && Small(OpRecord(f, Op.SaveSnapshot(s))))
      ensures View() == if ok then old(View()).(snapshot := Some(s)) else old(View())
    {
      hide Replay, Frame;
      var op := Op.SaveSnapshot(s);
      if !open || !Small(OpRecord(f, op)) {
        return false;
      }
      ReplayMatches(f, View(), op);
      ok := AppendRecord(OpRecord(f, op), w);
      if ok {
        snapshot := Some(s);
      }
    }

    /** Sync: everything written so far is on stable storage. */
    method Sync(flushed: bool) returns (ok: bool)
      requires Valid()
      modifies this`synced
      ensures Valid() && ok == (open && flushed)
      ensures synced == if ok then |file| else old(synced)
    {
      if !open || !flushed {
        return false;
      }
      synced := |file|;
      return true;
    }

    /** Compact: rewrite the file as state, snapshot and the entries above it. */
    method Compact(s: Snapshot, outcome: Rewrite) returns (ok: bool)
      requires Valid()
      modifies this
      ensures Valid()
      ensures ok == (old(open) && outcome.Renamed? && MayCompact(old(View()), s) &&
          AllSmall(CompactRecords(f, old(View()), s)))
      ensures ok ==> open && View() == Compacted(old(View()), s) && synced == |file|
      ensures !ok ==> View() == old(View()) && file == old(file)
    {
      hide Recover, Frames, Above, Sound, ValidEntries, WideEntries, GoodMembership;
      if !open || !MayCompact(View(), s) {
        return false;
      }
      var kept := KeepAbove(entries, s.index);
      var recs := [OpRecord(f, Op.SaveState(state)), OpRecord(f, Op.SaveSnapshot(s))] +
                  (if kept == [] then [] else [OpRecord(f, Op.AppendEntries(kept))]);
      assert recs == CompactRecords(f, View(), s);
      if !(Small(recs[0]) && Small(recs[1]) && (kept == [] || Small(recs[2]))) {
        return false;
      }
      assert AllSmall(recs);
      if outcome.NotRenamed? {
        open := outcome.reopened;
        return false;
      }
      CompactionRecovers(f, View(), s);
      CompactedStorable(View(), s);
      file := Frames(f, recs);
      synced := |file|;
      entries := kept;
      snapshot := Some(s);
      return true;
    }
  }

  lemma EmptyStorable()
    ensures Storable(EMPTY)
  {
  }

  lemma CompactedStorable(live: Live, s: Snapshot)
    requires Storable(live)
    ensures Storable(Compacted(live, s))
  {
    AboveMeaning(live.entries, s.index);
    AboveFits(live.entries, s.index);
  }

  /** Recovering what recovery kept changes nothing. */
  lemma RecoveredAgain(f: Format, s: seq<byte>)
    requires Recover(f, s, EMPTY).Some?
    ensures var r := Recover(f, s, EMPTY).value;
            r.size <= |s| && Recover(f, s[..r.size], EMPTY) == Some(Recovered(r.live, r.size))
  {
    hide Replay, Unframe;
    var recs := RecoverIsFrames(f, s, EMPTY);
    var r := Recover(f, s, EMPTY).value;
    assert s[..r.size] == Frames(f, recs) == Frames(f, recs) + [];
    EmptyFile(f);
    RecoverFrames(f, recs, [], EMPTY);
  }
}
