/** The values that travel between the Raft node, its write-ahead log and its
    state machine (internal/model).

    Terms and log indices are unbounded naturals; the codecs say where a value
    has to fit a fixed width. */
module Types {

  type byte = x: int | 0 <= x < 256

  /** A node ID is a Go string, that is, a byte sequence; `[]` is "". */
  type NodeID = seq<byte>

  datatype Option<+T> = None | Some(value: T)

  datatype Entry = Entry(index: nat, term: nat, data: seq<byte>)

  datatype Configuration = Configuration(voters: seq<NodeID>)

  datatype JointConfiguration = JointConfiguration(oldC: Configuration, newC: Configuration)

  /** `current` is active when `joint` is `None`; otherwise both halves of
      `joint` take part in every quorum decision. */
  datatype Membership = Membership(current: Configuration, joint: Option<JointConfiguration>)

  datatype PersistentState = PersistentState(term: nat, votedFor: NodeID, membership: Membership)

  datatype Snapshot = Snapshot(index: nat, term: nat, data: seq<byte>)

  /** Consecutive indices starting at `first`. */
  predicate Consecutive(entries: seq<Entry>, first: nat) {
    forall k | 0 <= k < |entries| :: entries[k].index == first + k
  }

  predicate NoDuplicates<T(==)>(s: seq<T>) {
    forall i, j | 0 <= i < j < |s| :: s[i] != s[j]
  }
}
