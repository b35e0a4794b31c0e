/**
 * The message shapes of the Paxos RPC interface (api/paxos.pb.go), as plain
 * values. A Go pointer that may be nil becomes an Option.
 */
module Api {
  import opened Wrappers
  import opened Ballot

  /** The payload of a key-value record. */
  datatype Value = Value(vi64: int)

  /** One Paxos instance: one version of one key. */
  datatype PaxosInstanceId = PaxosInstanceId(key: string, ver: int)

  /**
   * The Acceptor message: the state of one instance at an acceptor, which is
   * also the reply to Prepare. Its VBal is always set there, so it is not
   * optional here; Val is nil until a value has been voted.
   */
  datatype Acceptor = Acceptor(lastBal: BallotNum, val: Option<Value>, vBal: BallotNum)

  /** The reply to Accept: an Acceptor message whose only field set is LastBal. */
  datatype AcceptReply = AcceptReply(lastBal: BallotNum)

  /** The Proposer message as it is sent in a Prepare or Accept call. */
  datatype Request = Request(id: PaxosInstanceId, bal: BallotNum, val: Option<Value>)
}
