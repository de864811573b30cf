/** The binary envelope of membership changes in the log
    (internal/raft/config_entry*.go). */
module ConfigEntry {
  import opened Types
  import opened Bytes

  const MAGIC := 0x52434647
  const VERSION := 1
  const STABLE := 1
  const ENTER_JOINT := 2
  const LEAVE_JOINT := 3
  const MAX_PAYLOAD := 0x10_0000

  /** IsConfigurationEntry. */
  predicate IsConfiguration(data: seq<byte>) {
    |data| >= 4 && Get(data[..4]) == MAGIC
  }

  /** An entry is taken for a configuration exactly if it begins with "RCFG". */
  lemma RecognisedExactly(data: seq<byte>)
    ensures IsConfiguration(data) <==>
            |data| >= 4 && data[0] == 0x52 && data[1] == 0x43 && data[2] == 0x46 && data[3] == 0x47
  {
    if |data| >= 4 {
      var s := data[..4];
      assert s[..3][..2][..1] == [data[0]] && s[..3][..2] == [data[0], data[1]];
      assert s[..3] == [data[0], data[1], data[2]];
      assert Get(s) == 256 * Get(s[..3]) + data[3];
      assert Get(s[..3]) == 256 * Get(s[..3][..2]) + data[2];
      assert Get(s[..3][..2]) == 256 * Get(s[..3][..2][..1]) + data[1];
    }
  }

  /** validateConfiguration accepts. */
  predicate Valid(configuration: Configuration) {
    configuration.voters != [] && GoodVoters(configuration.voters)
  }

  method ValidateConfiguration(configuration: Configuration) returns (ok: bool)
    ensures ok == Valid(configuration)
  {
    var voters := configuration.voters;
    if |voters| == 0 || |voters| > MAX_VOTERS {
      return false;
    }
    var seen: set<NodeID> := {};
    for i := 0 to |voters|
      invariant seen == set v | v in voters[..i]
      invariant GoodIds(voters[..i])
    {
      assert voters[..i + 1] == voters[..i] + [voters[i]];
      if |voters[i]| == 0 || |voters[i]| > MAX_NODE_ID || voters[i] in seen {
        assert !GoodVoters(voters) by {
          assert voters[i] in seen ==> voters[i] in voters[..i];
        }
        return false;
      }
      GoodIdsAppend(voters[..i], voters[i]);
      seen := seen + {voters[i]};
    }
    assert voters[..|voters|] == voters;
    return true;
  }

  // ---- The loops over the voters ----

  /** encodeConfigurationPayload. */
  method EncodePayload(configuration: Configuration) returns (buf: seq<byte>)
    ensures buf == PutVoters(configuration.voters)
  {
    var voters := configuration.voters;
    var ids := [];
    for i := 0 to |voters|
      invariant ids == PutIds(voters[..i])
    {
      assert voters[..i + 1][..i] == voters[..i];
      ids := ids + PutString(voters[i]);
    }
    assert voters[..|voters|] == voters;
    return Put(|voters|, 4) + ids;
  }

  /** decodeConfigurationPayload: a cursor over the bytes, the voters read so far
      and the set of those seen. */
  method DecodePayload(data: seq<byte>) returns (result: Option<Parsed<Configuration>>)
    ensures result == ReadConfiguration(data)
  {
    var header := ReadUint(data, 4);
    if header.None? || header.value.value == 0 || header.value.value > MAX_VOTERS {
      if header.Some? && header.value.value == 0 {
        assert ReadIds(header.value.rest, 0, []) == Some(Parsed([], header.value.rest));
      }
      return None;
    }
    var count, rest := header.value.value, header.value.rest;
    var voters: seq<NodeID> := [];
    var seen: set<NodeID> := {};
    for i := 0 to count
      invariant |voters| == i
      invariant seen == set v | v in voters
      invariant ReadIds(rest, count - i, voters) == ReadIds(header.value.rest, count, [])
    {
      var id := ReadString(rest);
      if id.None? || !GoodId(id.value.value) || id.value.value in seen {
        return None;
      }
      rest := id.value.rest;
      voters := voters + [id.value.value];
      seen := seen + {id.value.value};
    }
    return Some(Parsed(Configuration(voters), rest));
  }

  function Envelope(kind: byte): seq<byte> {
    Put(MAGIC, 4) + [VERSION, kind]
  }

  /** validateConfigurationEntryEnvelope: the bytes behind a matching envelope. */
  function OpenEnvelope(data: seq<byte>, kind: byte): Option<seq<byte>> {
    match ReadUint(data, 4)
    case None => None
    case Some(Parsed(magic, rest)) =>
      if magic != MAGIC || |rest| < 2 || rest[0] != VERSION || rest[1] != kind then None else Some(rest[2..])
  }

  /** decodeConfigurationPayload. */
  function ReadConfiguration(s: seq<byte>): Option<Parsed<Configuration>> {
    match ReadVoters(s)
    case None => None
    case Some(Parsed(voters, rest)) => if voters == [] then None else Some(Parsed(Configuration(voters), rest))
  }

  function Bounded(data: seq<byte>): Option<seq<byte>> {
    if |data| > MAX_PAYLOAD then None else Some(data)
  }

  // ---- The three kinds of entry ----

  function EncodeOne(kind: byte, c: Configuration): Option<seq<byte>> {
    if !Valid(c) then None else Bounded(Envelope(kind) + PutVoters(c.voters))
  }

  function DecodeOne(kind: byte, data: seq<byte>): Option<Configuration> {
    if |data| > MAX_PAYLOAD then None
    else
      match OpenEnvelope(data, kind)
      case None => None
      case Some(body) =>
        match ReadConfiguration(body)
        case None => None
        case Some(Parsed(c, rest)) => if rest != [] then None else Some(c)
  }

  /** EncodeConfigurationEntry and DecodeConfigurationEntry. */
  function EncodeStable(c: Configuration): Option<seq<byte>> {
    EncodeOne(STABLE, c)
  }

  function DecodeStable(data: seq<byte>): Option<Configuration> {
    if |data| < 10 then None else DecodeOne(STABLE, data)
  }

  function EncodeLeaveJoint(c: Configuration): Option<seq<byte>> {
    EncodeOne(LEAVE_JOINT, c)
  }

  function DecodeLeaveJoint(data: seq<byte>): Option<Configuration> {
    DecodeOne(LEAVE_JOINT, data)
  }

  function EncodeEnterJoint(joint: JointConfiguration): Option<seq<byte>> {
    if !Valid(joint.oldC) || !Valid(joint.newC) then None
    else Bounded(Envelope(ENTER_JOINT) + PutVoters(joint.oldC.voters) + PutVoters(joint.newC.voters))
  }

  function DecodeEnterJoint(data: seq<byte>): Option<JointConfiguration> {
    if |data| > MAX_PAYLOAD then None
    else
      match OpenEnvelope(data, ENTER_JOINT)
      case None => None
      case Some(body) =>
        match ReadConfiguration(body)
        case None => None
        case Some(Parsed(oldC, rest)) =>
          match ReadConfiguration(rest)
          case None => None
          case Some(Parsed(newC, rest')) => if rest' != [] then None else Some(JointConfiguration(oldC, newC))
  }

  // ---- Exact inverses ----

  lemma OpenSealed(kind: byte, body: seq<byte>)
    ensures OpenEnvelope(Envelope(kind) + body, kind) == Some(body)
  {
    Widths();
    var rest: seq<byte> := [VERSION, kind] + body;
    assert Envelope(kind) + body == Put(MAGIC, 4) + rest;
    ReadPut(MAGIC, 4, rest);
    assert rest[2..] == body;
  }

  lemma OpenedIsSealed(data: seq<byte>, kind: byte)
    requires OpenEnvelope(data, kind).Some?
    ensures data == Envelope(kind) + OpenEnvelope(data, kind).value
  {
    ReadIsPut(data, 4);
    var Parsed(magic, rest) := ReadUint(data, 4).value;
    assert rest == [VERSION, kind] + rest[2..];
  }

  lemma ReadPutConfiguration(c: Configuration, rest: seq<byte>)
    requires Valid(c)
    ensures ReadConfiguration(PutVoters(c.voters) + rest) == Some(Parsed(c, rest))
  {
    ReadPutVoters(c.voters, rest);
  }

  lemma ReadConfigurationIsPut(s: seq<byte>)
    requires ReadConfiguration(s).Some?
    ensures var p := ReadConfiguration(s).value; s == PutVoters(p.value.voters) + p.rest && Valid(p.value)
  {
    ReadVotersIsPut(s);
  }

  lemma OneExact(kind: byte, c: Configuration, data: seq<byte>)
    ensures DecodeOne(kind, data) == Some(c) <==> EncodeOne(kind, c) == Some(data)
  {
    if EncodeOne(kind, c) == Some(data) {
      assert PutVoters(c.voters) + [] == PutVoters(c.voters);
      OpenSealed(kind, PutVoters(c.voters));
      ReadPutConfiguration(c, []);
    }
    if DecodeOne(kind, data) == Some(c) {
      OpenedIsSealed(data, kind);
      var body := OpenEnvelope(data, kind).value;
      ReadConfigurationIsPut(body);
      assert PutVoters(c.voters) + [] == PutVoters(c.voters);
    }
  }

  /** The stable decoder accepts exactly what the encoder produces. */
  lemma StableExact(c: Configuration, data: seq<byte>)
    ensures DecodeStable(data) == Some(c) <==> EncodeStable(c) == Some(data)
  {
    OneExact(STABLE, c, data);
  }

  lemma LeaveJointExact(c: Configuration, data: seq<byte>)
    ensures DecodeLeaveJoint(data) == Some(c) <==> EncodeLeaveJoint(c) == Some(data)
  {
    OneExact(LEAVE_JOINT, c, data);
  }

  lemma EnterJointEncodes(joint: JointConfiguration, data: seq<byte>)
    requires EncodeEnterJoint(joint) == Some(data)
    ensures DecodeEnterJoint(data) == Some(joint)
  {
    var first, second := PutVoters(joint.oldC.voters), PutVoters(joint.newC.voters);
    assert Envelope(ENTER_JOINT) + first + second == Envelope(ENTER_JOINT) + (first + second);
    OpenSealed(ENTER_JOINT, first + second);
    ReadPutConfiguration(joint.oldC, second);
    assert second + [] == second;
    ReadPutConfiguration(joint.newC, []);
  }

  lemma EnterJointDecodes(joint: JointConfiguration, data: seq<byte>)
    requires DecodeEnterJoint(data) == Some(joint)
    ensures EncodeEnterJoint(joint) == Some(data)
  {
    OpenedIsSealed(data, ENTER_JOINT);
    var body := OpenEnvelope(data, ENTER_JOINT).value;
    ReadConfigurationIsPut(body);
    var rest := ReadConfiguration(body).value.rest;
    ReadConfigurationIsPut(rest);
    var first, second := PutVoters(joint.oldC.voters), PutVoters(joint.newC.voters);
    assert second + [] == second;
    assert Envelope(ENTER_JOINT) + first + second == Envelope(ENTER_JOINT) + (first + second);
  }

  lemma EnterJointExact(joint: JointConfiguration, data: seq<byte>)
    ensures DecodeEnterJoint(data) == Some(joint) <==> EncodeEnterJoint(joint) == Some(data)
  {
    if DecodeEnterJoint(data) == Some(joint) {
      EnterJointDecodes(joint, data);
    }
    if EncodeEnterJoint(joint) == Some(data) {
      EnterJointEncodes(joint, data);
    }
  }

  /** No bytes decode as two kinds of entry, and all that decode are recognised. */
  lemma KindsDisjoint(data: seq<byte>)
    ensures DecodeStable(data).Some? ==>
        IsConfiguration(data) && DecodeEnterJoint(data).None? && DecodeLeaveJoint(data).None?
    ensures DecodeEnterJoint(data).Some? ==> IsConfiguration(data) && DecodeLeaveJoint(data).None?
    ensures DecodeLeaveJoint(data).Some? ==> IsConfiguration(data)
  {
  }

  /** Exactly when the change that adds a voter can be written into the log. */
  lemma AdditionEncodesExactly(voters: seq<NodeID>, peer: NodeID)
    ensures EncodeEnterJoint(JointConfiguration(Configuration(voters), Configuration(voters + [peer]))).Some? <==>
            && 1 <= |voters| < 1024 && NoDuplicates(voters) && peer !in voters && 1 <= |peer| <= 1024
            && (forall i | 0 <= i < |voters| :: 1 <= |voters[i]| <= 1024)
            && 2 * |PutIds(voters)| + |peer| + 18 <= 0x10_0000
  {
    hide Put, PutIds, PutString;
    var more := voters + [peer];
    PutIdsAppend(voters, [peer]);
    OneId(peer);
    if Valid(Configuration(more)) {
      assert more[|voters|] == peer;
      forall i | 0 <= i < |voters| ensures voters[i] == more[i] && voters[i] != peer {
      }
    }
  }

  lemma OneId(id: NodeID)
    ensures |PutIds([id])| == |id| + 4
  {
    assert [id][..0] == [];
  }
}
