/** Big-endian integers and length-prefixed strings: the pieces that both the
    write-ahead log and the configuration entries are written in.

    A parser takes the bytes that are left and returns a value with the bytes
    after it, or `None` where the Go reader reports an error. */
module Bytes {
  import opened Types

  datatype Parsed<T> = Parsed(value: T, rest: seq<byte>)

  const U32 := 0x1_0000_0000
  const U64 := 0x1_0000_0000_0000_0000

  function Power(k: nat): nat {
    if k == 0 then 1 else 256 * Power(k - 1)
  }

  /** binary.Write of a `k`-byte unsigned integer, big-endian. */
  function Put(n: nat, k: nat): (s: seq<byte>)
    ensures |s| == k
  {
    if k == 0 then [] else Put(n / 256, k - 1) + [n % 256]
  }

  function Get(s: seq<byte>): (n: nat)
    ensures n < Power(|s|)
  {
    if s == [] then 0 else Get(s[..|s| - 1]) * 256 + s[|s| - 1]
  }

  lemma {:induction false} GetPut(n: nat, k: nat)
    requires n < Power(k)
    ensures Get(Put(n, k)) == n
  {
    if k > 0 {
      GetPut(n / 256, k - 1);
      assert Put(n, k)[..k - 1] == Put(n / 256, k - 1);
    }
  }

  lemma {:induction false} PutGet(s: seq<byte>)
    ensures Put(Get(s), |s|) == s
  {
    if s != [] {
      PutGet(s[..|s| - 1]);
      assert s == s[..|s| - 1] + [s[|s| - 1]];
    }
  }

  lemma Widths()
    ensures Power(4) == U32 && Power(8) == U64
  {
    assert Power(1) == 256 && Power(2) == 65536 && Power(3) == 0x100_0000 && Power(4) == U32;
    assert Power(5) == 0x100_0000_0000 && Power(6) == 0x1_0000_0000_0000 && Power(7) == 0x100_0000_0000_0000;
  }

  /** binary.Read of a `k`-byte unsigned integer. */
  function ReadUint(s: seq<byte>, k: nat): Option<Parsed<nat>> {
    if |s| < k then None else Some(Parsed(Get(s[..k]), s[k..]))
  }

  /** Reading back what was written, with more bytes behind it. */
  lemma ReadPut(n: nat, k: nat, rest: seq<byte>)
    requires n < Power(k)
    ensures ReadUint(Put(n, k) + rest, k) == Some(Parsed(n, rest))
  {
    hide Put, Get, Power;
    assert (Put(n, k) + rest)[..k] == Put(n, k);
    assert (Put(n, k) + rest)[k..] == rest;
    GetPut(n, k);
  }

  /** What is read is what would be written. */
  lemma ReadIsPut(s: seq<byte>, k: nat)
    requires ReadUint(s, k).Some?
    ensures var p := ReadUint(s, k).value; s == Put(p.value, k) + p.rest && p.value < Power(k)
  {
    hide Put, Get, Power;
    PutGet(s[..k]);
    assert s == s[..k] + s[k..];
  }

  /** A byte string behind its 32-bit length. */
  function PutString(s: seq<byte>): seq<byte> {
    Put(|s|, 4) + s
  }

  function ReadString(s: seq<byte>): Option<Parsed<seq<byte>>> {
    match ReadUint(s, 4)
    case None => None
    case Some(Parsed(n, rest)) => if n > |rest| then None else Some(Parsed(rest[..n], rest[n..]))
  }

  lemma ReadPutString(s: seq<byte>, rest: seq<byte>)
    requires |s| < U32
    ensures ReadString(PutString(s) + rest) == Some(Parsed(s, rest))
  {
    Widths();
    hide Put, Get, Power, ReadUint;
    assert PutString(s) + rest == Put(|s|, 4) + (s + rest);
    ReadPut(|s|, 4, s + rest);
    assert (s + rest)[..|s|] == s && (s + rest)[|s|..] == rest;
  }

  lemma ReadStringIsPut(s: seq<byte>)
    requires ReadString(s).Some?
    ensures var p := ReadString(s).value; s == PutString(p.value) + p.rest && |p.value| < U32
  {
    Widths();
    hide Put, Get, Power, ReadUint;
    ReadIsPut(s, 4);
    var Parsed(n, rest) := ReadUint(s, 4).value;
    assert rest == rest[..n] + rest[n..];
    assert Put(n, 4) + rest[..n] + rest[n..] == Put(n, 4) + (rest[..n] + rest[n..]);
  }

  // ---- Voter lists ----

  const MAX_VOTERS := 1024
  const MAX_NODE_ID := 1024

  /** The node IDs of a configuration, one length-prefixed string after another. */
  function PutIds(ids: seq<NodeID>): seq<byte> {
    if ids == [] then [] else PutIds(ids[..|ids| - 1]) + PutString(ids[|ids| - 1])
  }

  function PutVoters(ids: seq<NodeID>): seq<byte> {
    Put(|ids|, 4) + PutIds(ids)
  }

  predicate GoodId(id: NodeID) {
    1 <= |id| <= MAX_NODE_ID
  }

  /** What both decoders accept as a voter list. */
  predicate GoodVoters(ids: seq<NodeID>) {
    && |ids| <= MAX_VOTERS
    && (forall i | 0 <= i < |ids| :: GoodId(ids[i]))
    && NoDuplicates(ids)
  }

  /** The decoding loop with `count` IDs to go and `ids` already read. */
  function ReadIds(s: seq<byte>, count: nat, ids: seq<NodeID>): Option<Parsed<seq<NodeID>>>
    decreases count
  {
    if count == 0 then Some(Parsed(ids, s))
    else
      match ReadString(s)
      case None => None
      case Some(Parsed(id, rest)) =>
        if !GoodId(id) || id in ids then None else ReadIds(rest, count - 1, ids + [id])
  }

  function ReadVoters(s: seq<byte>): Option<Parsed<seq<NodeID>>> {
    match ReadUint(s, 4)
    case None => None
    case Some(Parsed(count, rest)) => if count > MAX_VOTERS then None else ReadIds(rest, count, [])
  }

  lemma PutIdsLast(ids: seq<NodeID>, id: NodeID)
    ensures PutIds(ids + [id]) == PutIds(ids) + PutString(id)
  {
    hide PutString;
    assert (ids + [id])[..|ids|] == ids;
  }

  lemma Assoc(a: seq<byte>, b: seq<byte>, c: seq<byte>)
    ensures a + b + c == a + (b + c)
  {
  }

  lemma {:induction false} PutIdsAppend(a: seq<NodeID>, b: seq<NodeID>)
    ensures PutIds(a + b) == PutIds(a) + PutIds(b)
  {
    if b == [] {
      assert a + b == a;
    } else {
      hide PutString, PutIds;
      var front, id := b[..|b| - 1], b[|b| - 1];
      PutIdsAppend(a, front);
      PutIdsLast(front, id);
      PutIdsLast(a + front, id);
      assert b == front + [id] && a + b == a + front + [id];
      Assoc(PutIds(a), PutIds(front), PutString(id));
    }
  }

  lemma PutIdsFirst(ids: seq<NodeID>)
    requires ids != []
    ensures PutIds(ids) == PutString(ids[0]) + PutIds(ids[1..])
  {
    assert ids == [ids[0]] + ids[1..];
    PutIdsAppend([ids[0]], ids[1..]);
    assert PutIds([ids[0]]) == PutIds([ids[0]][..0]) + PutString(ids[0]);
  }

  lemma NextId(ids: seq<NodeID>, before: seq<NodeID>)
    requires GoodVoters(before + ids) && ids != []
    ensures GoodId(ids[0]) && ids[0] !in before && before + ids == before + [ids[0]] + ids[1..]
  {
    assert (before + ids)[|before|] == ids[0];
    forall i | 0 <= i < |before| ensures before[i] != ids[0] {
      assert (before + ids)[i] == before[i];
    }
  }

  lemma ReadIdsFirst(s: seq<byte>, count: nat, before: seq<NodeID>)
    requires count > 0 && ReadString(s).Some? && GoodId(ReadString(s).value.value) &&
        ReadString(s).value.value !in before
    ensures ReadIds(s, count, before) ==
        ReadIds(ReadString(s).value.rest, count - 1, before + [ReadString(s).value.value])
  {
  }

  lemma {:induction false} ReadPutIds(ids: seq<NodeID>, before: seq<NodeID>, rest: seq<byte>)
    requires GoodVoters(before + ids)
    ensures ReadIds(PutIds(ids) + rest, |ids|, before) == Some(Parsed(before + ids, rest))
    decreases |ids|
  {
    if ids == [] {
      assert before + ids == before;
      assert PutIds(ids) + rest == rest;
    } else {
      hide GoodVoters, PutString, ReadString, PutIds;
      var id := ids[0];
      NextId(ids, before);
      GoodIdShort(id);
      hide GoodId;
      hide ReadIds;
      PutIdsFirst(ids);
      Assoc(PutString(id), PutIds(ids[1..]), rest);
      ReadPutString(id, PutIds(ids[1..]) + rest);
      ReadIdsFirst(PutIds(ids) + rest, |ids|, before);
      ReadPutIds(ids[1..], before + [id], rest);
    }
  }

  lemma GoodIdShort(id: NodeID)
    requires GoodId(id)
    ensures |id| < U32
  {
  }

  lemma ReadPutVoters(ids: seq<NodeID>, rest: seq<byte>)
    requires GoodVoters(ids)
    ensures ReadVoters(PutVoters(ids) + rest) == Some(Parsed(ids, rest))
  {
    Widths();
    hide Put, Get, Power, ReadUint, PutIds, ReadIds, GoodId;
    assert PutVoters(ids) + rest == Put(|ids|, 4) + (PutIds(ids) + rest);
    ReadPut(|ids|, 4, PutIds(ids) + rest);
    assert [] + ids == ids;
    ReadPutIds(ids, [], rest);
  }

  predicate GoodIds(ids: seq<NodeID>) {
    NoDuplicates(ids) && forall i | 0 <= i < |ids| :: GoodId(ids[i])
  }

  lemma GoodIdsAppend(ids: seq<NodeID>, id: NodeID)
    requires GoodIds(ids) && GoodId(id) && id !in ids
    ensures GoodIds(ids + [id])
  {
  }

  /** `ids` was read behind `before`. */
  predicate ReadBehind(s: seq<byte>, before: seq<NodeID>, p: Parsed<seq<NodeID>>) {
    GoodIds(p.value) && before <= p.value && s == PutIds(p.value[|before|..]) + p.rest
  }

  lemma ReadBehindOne(s: seq<byte>, before: seq<NodeID>, id: NodeID, rest: seq<byte>, p: Parsed<seq<NodeID>>)
    requires s == PutString(id) + rest && ReadBehind(rest, before + [id], p)
    ensures ReadBehind(s, before, p)
  {
    var tail := p.value[|before|..];
    assert tail[0] == (before + [id])[|before|] == id;
    assert tail[1..] == p.value[|before + [id]|..];
    PutIdsFirst(tail);
    assert PutString(id) + PutIds(tail[1..]) + p.rest == PutString(id) + (PutIds(tail[1..]) + p.rest);
  }

  lemma {:induction false} ReadIdsIsPut(s: seq<byte>, count: nat, before: seq<NodeID>)
    requires ReadIds(s, count, before).Some? && GoodIds(before)
    ensures ReadBehind(s, before, ReadIds(s, count, before).value)
    ensures |ReadIds(s, count, before).value.value| == |before| + count
    decreases count
  {
    if count == 0 {
      assert PutIds(before[|before|..]) + s == s;
    } else {
      hide ReadString, PutString, GoodIds, ReadBehind, GoodId;
      ReadStringIsPut(s);
      var Parsed(id, rest) := ReadString(s).value;
      GoodIdsAppend(before, id);
      ReadIdsIsPut(rest, count - 1, before + [id]);
      ReadBehindOne(s, before, id, rest, ReadIds(s, count, before).value);
    }
  }

  lemma EmptyGood()
    ensures GoodIds([])
  {
  }

  /** A decoded voter list is a good one, and its encoding is what was decoded. */
  lemma ReadVotersIsPut(s: seq<byte>)
    requires ReadVoters(s).Some?
    ensures var p := ReadVoters(s).value; s == PutVoters(p.value) + p.rest && GoodVoters(p.value)
  {
    hide Put, Get, Power, ReadUint, PutIds, ReadIds, GoodId;
    ReadIsPut(s, 4);
    var Parsed(count, rest) := ReadUint(s, 4).value;
    EmptyGood();
    ReadIdsIsPut(rest, count, []);
    var p := ReadVoters(s).value;
    assert p.value[0..] == p.value;
    assert Put(count, 4) + PutIds(p.value) + p.rest == Put(count, 4) + (PutIds(p.value) + p.rest);
  }
}
