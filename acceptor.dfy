/**
 * The acceptor side of core/acceptor.go: the per-instance transition rules
 * of Prepare and Accept, the registry KVServer that maps (key, version) to
 * an instance state created on first touch, and facts about any sequence
 * of calls on one instance.
 */
module Acceptors {
  import opened Wrappers
  import opened Ballot
  import opened Api

  /** The state getVersionLocked creates on the first touch of an instance. */
  const Empty := Acceptor(Zero, None, Zero)

  /** The invariant an acceptor keeps: it never votes above its promise. */
  predicate Wf(st: Acceptor) {
    st.lastBal.GE(st.vBal)
  }

  /**
   * The state after handling Prepare(bal): the promise LastBal becomes the
   * higher of the old promise and bal, and the vote is left alone.
   */
  function PrepareNext(st: Acceptor, bal: BallotNum): (st': Acceptor)
    ensures st'.val == st.val && st'.vBal == st.vBal
    ensures st'.lastBal.GE(st.lastBal) && st'.lastBal.GE(bal)
    ensures st'.lastBal == bal || st'.lastBal == st.lastBal
    ensures st'.lastBal == bal <==> bal.GE(st.lastBal)
    ensures Wf(st) ==> Wf(st')
  {
    if bal.GE(st.lastBal) then st.(lastBal := bal) else st
  }

  /**
   * The state after handling Accept(bal, val): the vote (bal, val) is taken,
   * and the promise raised to bal, exactly when bal is at least the promise;
   * otherwise nothing changes.
   */
  function AcceptNext(st: Acceptor, bal: BallotNum, val: Option<Value>): (st': Acceptor)
    ensures st'.lastBal.GE(st.lastBal) && st'.lastBal.GE(bal)
    ensures bal.GE(st.lastBal) <==> st'.vBal == bal && st'.val == val && st'.lastBal == bal
    ensures !bal.GE(st.lastBal) ==> st' == st
    ensures Wf(st) ==> Wf(st')
  {
    if bal.GE(st.lastBal) then Acceptor(bal, val, bal) else st
  }

  /** One call addressed to an instance. */
  datatype Call = PrepareCall(bal: BallotNum) | AcceptCall(bal: BallotNum, val: Option<Value>)

  function Step(st: Acceptor, c: Call): Acceptor {
    match c
    case PrepareCall(b) => PrepareNext(st, b)
    case AcceptCall(b, v) => AcceptNext(st, b, v)
  }

  /** The instance state after handling the calls in order. */
  function Replay(st: Acceptor, calls: seq<Call>): Acceptor
    decreases |calls|
  {
    if calls == [] then st else Replay(Step(st, calls[0]), calls[1..])
  }

  /**
   * Along any sequence of calls the promise never decreases and the
   * acceptor never holds a vote above its promise.
   */
  lemma {:induction false} ReplayKeepsPromise(st: Acceptor, calls: seq<Call>)
    requires Wf(st)
    ensures Wf(Replay(st, calls))
    ensures Replay(st, calls).lastBal.GE(st.lastBal)
    decreases |calls|
  {
    if calls != [] {
      var next := Step(st, calls[0]);
      ReplayKeepsPromise(next, calls[1..]);
      GETransitive(Replay(next, calls[1..]).lastBal, next.lastBal, st.lastBal);
    }
  }

  /** Every instance reachable from the empty state keeps the invariant. */
  lemma ReplayFromEmptyIsWf(calls: seq<Call>)
    ensures Wf(Replay(Empty, calls))
    ensures Replay(Empty, calls).lastBal.GE(Zero)
  {
    ReplayKeepsPromise(Empty, calls);
  }

  /**
   * The vote an instance holds after a sequence of calls is the one it
   * started with, or one cast by an Accept call of the sequence: Prepare
   * never changes Val or VBal.
   */
  lemma {:induction false} ReplayVoteComesFromAccept(st: Acceptor, calls: seq<Call>)
    ensures var st' := Replay(st, calls);
      (st'.val == st.val && st'.vBal == st.vBal) ||
      exists i :: 0 <= i < |calls| && calls[i] == AcceptCall(st'.vBal, st'.val)
    decreases |calls|
  {
    if calls != [] {
      var next := Step(st, calls[0]);
      var st' := Replay(next, calls[1..]);
      ReplayVoteComesFromAccept(next, calls[1..]);
      if st'.val == next.val && st'.vBal == next.vBal {
        if !(next.val == st.val && next.vBal == st.vBal) {
          assert calls[0] == AcceptCall(st'.vBal, st'.val);
        }
      } else {
        var i :| 0 <= i < |calls[1..]| && calls[1..][i] == AcceptCall(st'.vBal, st'.val);
        assert calls[i + 1] == AcceptCall(st'.vBal, st'.val);
      }
    }
  }

  /** Only Prepare calls: the vote is untouched. */
  lemma {:induction false} PreparesKeepVote(st: Acceptor, calls: seq<Call>)
    requires forall i :: 0 <= i < |calls| ==> calls[i].PrepareCall?
    ensures Replay(st, calls).val == st.val && Replay(st, calls).vBal == st.vBal
    decreases |calls|
  {
    if calls != [] {
      PreparesKeepVote(Step(st, calls[0]), calls[1..]);
    }
  }

  /**
   * KVServer: the acceptor of one process. Storage maps a key to its
   * versions, and a version to the state of that Paxos instance.
   */
  class KVServer {
    var storage: map<string, map<int, Acceptor>>

    constructor ()
      ensures storage == map[] && Valid()
    {
      storage := map[];
    }

    /** Whether the instance has been touched. */
    predicate Has(id: PaxosInstanceId)
      reads this
    {
      id.key in storage && id.ver in storage[id.key]
    }

    /** The state of an instance; an untouched one is the empty state. */
    function Instance(id: PaxosInstanceId): Acceptor
      reads this
    {
      if Has(id) then storage[id.key][id.ver] else Empty
    }

    /** Every stored instance keeps the acceptor invariant. */
    ghost predicate Valid()
      reads this
    {
      forall k, v :: k in storage && v in storage[k] ==> Wf(storage[k][v])
    }

    /** A valid server keeps the acceptor invariant in every instance, touched or not. */
    lemma ValidInstanceIsWf(id: PaxosInstanceId)
      requires Valid()
      ensures Wf(Instance(id))
    {
      if !Has(id) {
        GEReflexive(Zero);
      }
    }

    /**
     * Look up an instance, creating its version table and its empty state
     * when absent. Creation is invisible through Instance; no other entry
     * changes.
     */
    method GetVersionLocked(id: PaxosInstanceId) returns (v: Acceptor)
      modifies this
      ensures Has(id) && v == Instance(id) && v == old(Instance(id))
      ensures !old(Has(id)) ==> v == Empty
      ensures old(Has(id)) ==> storage == old(storage)
      ensures storage.Keys == old(storage.Keys) + {id.key}
      ensures forall k :: k in old(storage) && k != id.key ==> storage[k] == old(storage)[k]
      ensures id.key in old(storage) ==> storage[id.key].Keys == old(storage)[id.key].Keys + {id.ver}
      ensures forall x :: Instance(x) == old(Instance(x))
      ensures forall x :: x != id ==> (Has(x) <==> old(Has(x)))
      ensures old(Valid()) ==> Valid()
    {
      var versions: map<int, Acceptor>;
      if id.key in storage {
        versions := storage[id.key];
      } else {
        versions := map[];
        storage := storage[id.key := versions];
      }
      if id.ver in versions {
        v := versions[id.ver];
      } else {
        v := Empty;
        storage := storage[id.key := versions[id.ver := v]];
      }
    }

    /**
     * Handle Prepare: reply with the instance state as it was before the
     * call, and raise the promise to r.Bal when r.Bal is at least it.
     */
    method Prepare(r: Request) returns (reply: Acceptor)
      modifies this
      ensures reply == old(Instance(r.id))
      ensures Has(r.id) && Instance(r.id) == PrepareNext(old(Instance(r.id)), r.bal)
      ensures forall x :: x != r.id ==> Instance(x) == old(Instance(x)) && (Has(x) <==> old(Has(x)))
      ensures old(Valid()) ==> Valid()
    {
      var v := GetVersionLocked(r.id);
      reply := v;
      if r.bal.GE(v.lastBal) {
        storage := storage[r.id.key := storage[r.id.key][r.id.ver := v.(lastBal := r.bal)]];
      }
    }

    /**
     * Handle Accept: reply with a copy of the promise held before the call,
     * and take the vote (r.Bal, r.Val) when r.Bal is at least that promise.
     */
    method Accept(r: Request) returns (reply: AcceptReply)
      modifies this
      ensures reply == AcceptReply(old(Instance(r.id)).lastBal)
      ensures Has(r.id) && Instance(r.id) == AcceptNext(old(Instance(r.id)), r.bal, r.val)
      ensures forall x :: x != r.id ==> Instance(x) == old(Instance(x)) && (Has(x) <==> old(Has(x)))
      ensures old(Valid()) ==> Valid()
    {
      var v := GetVersionLocked(r.id);
      reply := AcceptReply(v.lastBal);
      if r.bal.GE(v.lastBal) {
        storage := storage[r.id.key := storage[r.id.key][r.id.ver := Acceptor(r.bal, r.val, r.bal)]];
      }
    }
  }

  /**
   * The acceptor test of core/server_test.go: an Accept with ballot {1, 0}
   * and no value on a fresh server replies with the old promise 0; changing
   * the stored promise afterwards does not change the reply; and the stored
   * state holds no value under a non-zero VBal.
   */
  method AcceptReplyIsACopy() returns (reply: AcceptReply, stored: Acceptor)
    ensures reply.lastBal.n == 0
    ensures stored.lastBal.n == 100
    ensures stored.val == None && stored.vBal == BallotNum(1, 0) && stored.vBal != Zero
  {
    var s := new KVServer();
    var id := PaxosInstanceId("k", 0);
    reply := s.Accept(Request(id, BallotNum(1, 0), None));
    var version := s.storage["k"][0];
    s.storage := s.storage["k" := s.storage["k"][0 := version.(lastBal := version.lastBal.(n := 100))]];
    stored := s.storage["k"][0];
  }
}
