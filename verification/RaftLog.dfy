/** The in-memory log with a compacted prefix (internal/raft/log.go). `plain` is
    the log as it would be had nothing ever been compacted. */
module RaftLog {
  import opened Types
  import opened RaftStep

  /** What a reader of the plain log may still learn at `index` once the entries
      up to `base` are gone: of the entry at `base` itself, only the term. */
  function Lookup(plain: seq<Entry>, base: nat, index: nat): Option<Entry> {
    if !(1 <= index <= |plain|) || index < base then None
    else if index == base then Some(Entry(index, plain[index - 1].term, []))
    else Some(plain[index - 1])
  }

  /** TruncateFrom on the plain log: 0 stands for everything above the boundary,
      and nothing at or below the boundary can go. */
  function Truncated(plain: seq<Entry>, base: nat, index: nat): seq<Entry>
    requires base <= |plain|
  {
    if index == 0 then plain[..base]
    else if index <= base || index > |plain| then plain
    else plain[..index - 1]
  }

  /** A snapshot boundary that the log still sees and agrees with. */
  predicate Agrees(plain: seq<Entry>, base: nat, index: nat, term: nat) {
    if index == 0 then base == 0 && term == 0
    else base <= index <= |plain| && plain[index - 1].term == term
  }

  class Log {
    var entries: seq<Entry>
    var lastIncludedIndex: nat
    var lastIncludedTerm: nat
    ghost var plain: seq<Entry>

    ghost predicate Valid()
      reads this
    {
      && Consecutive(plain, 1)
      && lastIncludedIndex <= |plain|
      && entries == plain[lastIncludedIndex..]
      && lastIncludedTerm == LastTerm(plain[..lastIncludedIndex])
    }

    constructor ()
      ensures Valid() && plain == [] && lastIncludedIndex == 0
    {
      entries := [];
      lastIncludedIndex := 0;
      lastIncludedTerm := 0;
      plain := [];
    }

    method LastIndex() returns (index: nat)
      requires Valid()
      ensures index == |plain|
    {
      if |entries| == 0 {
        return lastIncludedIndex;
      }
      return entries[|entries| - 1].index;
    }

    method LastTermOf() returns (term: nat)
      requires Valid()
      ensures term == LastTerm(plain)
    {
      if |entries| == 0 {
        assert plain[..lastIncludedIndex] == plain;
        return lastIncludedTerm;
      }
      return entries[|entries| - 1].term;
    }

    method Get(index: nat) returns (entry: Option<Entry>)
      requires Valid()
      ensures entry == Lookup(plain, lastIncludedIndex, index)
    {
      if index == lastIncludedIndex && index != 0 {
        return Some(Entry(index, lastIncludedTerm, []));
      }
      assert lastIncludedIndex < index <= |plain| ==> entries[index - 1 - lastIncludedIndex] == plain[index - 1];
      for i := 0 to |entries|
        invariant forall k | 0 <= k < i :: entries[k].index != index
      {
        if entries[i].index == index {
          return Some(entries[i]);
        }
      }
      return None;
    }

    method Append(entry: Entry) returns (ok: bool)
      requires Valid()
      modifies this
      ensures Valid() && lastIncludedIndex == old(lastIncludedIndex)
      ensures ok == (entry.index == old(|plain|) + 1)
      ensures plain == if ok then old(plain) + [entry] else old(plain)
    {
      var last := LastIndex();
      if entry.index != last + 1 {
        return false;
      }
      assert (plain + [entry])[..lastIncludedIndex] == plain[..lastIncludedIndex];
      entries := entries + [entry];
      plain := plain + [entry];
      return true;
    }

    method TruncateFrom(index: nat)
      requires Valid()
      modifies this
      ensures Valid() && lastIncludedIndex == old(lastIncludedIndex)
      ensures plain == Truncated(old(plain), lastIncludedIndex, index)
    {
      ghost var cut := Truncated(plain, lastIncludedIndex, index);
      assert cut[..lastIncludedIndex] == plain[..lastIncludedIndex];
      if index == 0 {
        entries, plain := [], cut;
        return;
      }
      if index <= lastIncludedIndex {
        return;
      }
      for i := 0 to |entries|
        invariant Valid() && plain == old(plain) && lastIncludedIndex == old(lastIncludedIndex) &&
            entries == old(entries)
        invariant forall k | 0 <= k < i :: entries[k].index < index
      {
        if entries[i].index >= index {
          assert lastIncludedIndex + i + 1 == index by {
            if i > 0 {
              assert entries[i - 1].index < index;
            }
          }
          entries, plain := entries[..i], cut;
          return;
        }
      }
      if |entries| > 0 {
        assert entries[|entries| - 1].index < index;
      }
    }

    /** Drop everything up to a boundary; the plain log is the same afterwards. */
    method Compact(index: nat, term: nat) returns (ok: bool)
      requires Valid()
      modifies this
      ensures Valid() && plain == old(plain)
      ensures ok == Agrees(plain, old(lastIncludedIndex), index, term)
      ensures lastIncludedIndex == if ok then index else old(lastIncludedIndex)
    {
      var last := LastIndex();
      if index < lastIncludedIndex || index > last {
        return false;
      }
      if index == lastIncludedIndex {
        return term == lastIncludedTerm;
      }
      var entry := Get(index);
      if entry.None? || entry.value.term != term {
        return false;
      }
      entries := Remaining(index);
      lastIncludedIndex := index;
      lastIncludedTerm := term;
      return true;
    }

    /** The copying loop of Compact and RestoreSnapshot. */
    method Remaining(index: nat) returns (remaining: seq<Entry>)
      requires Valid() && lastIncludedIndex <= index <= |plain|
      ensures remaining == plain[index..]
    {
      remaining := [];
      var drop := index - lastIncludedIndex;
      for i := 0 to |entries|
        invariant remaining == if i <= drop then [] else entries[drop..i]
      {
        if entries[i].index > index {
          remaining := remaining + [entries[i]];
        }
      }
      assert entries[drop..] == plain[index..];
    }

    /** Install a snapshot that stands for the log `prefix`. A log that agrees at
        the boundary keeps what lies behind it, any other is replaced. */
    method RestoreSnapshot(index: nat, term: nat, ghost prefix: seq<Entry>) returns (ok: bool)
      requires Valid() && Consecutive(prefix, 1) && |prefix| == index && LastTerm(prefix) == term
      modifies this
      ensures Valid()
      ensures ok == (index > old(lastIncludedIndex) || Agrees(old(plain), old(lastIncludedIndex), index, term))
      ensures lastIncludedIndex == if ok then index else old(lastIncludedIndex)
      ensures plain == if !ok || index == old(lastIncludedIndex) then old(plain)
                       else if Agrees(old(plain), old(lastIncludedIndex), index, term) then prefix + old(plain)[index..]
                       else prefix
      ensures ok && index <= old(|plain|) && prefix == old(plain)[..index] ==> plain == old(plain)
    {
      if index < lastIncludedIndex {
        return false;
      }
      if index == lastIncludedIndex {
        return term == lastIncludedTerm;
      }
      assert old(|plain|) >= index && prefix == old(plain)[..index] ==>
          old(plain)[index - 1] == prefix[index - 1] && prefix + old(plain)[index..] == old(plain);
      var entry := Get(index);
      if entry.Some? && entry.value.term == term {
        entries := Remaining(index);
        plain := prefix + plain[index..];
      } else {
        entries := [];
        plain := prefix;
      }
      assert plain[..index] == prefix;
      lastIncludedIndex := index;
      lastIncludedTerm := term;
      return true;
    }
  }
}
