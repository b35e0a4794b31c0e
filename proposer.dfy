/**
 * The proposer driver of core/proposer.go: RunPaxos and the fan-out that
 * sends one request to every acceptor. The acceptors are KVServer objects
 * called directly; what the network does to each call is given by a
 * Delivery, and the rounds the source would run forever are given by a
 * schedule, one Round per pass of the retry loop.
 */
module Proposers {
  import opened Wrappers
  import opened Ballot
  import opened Api
  import opened Acceptors
  import opened Phases

  /** What became of one RPC of a fan-out. */
  datatype Delivery =
    | Replied    // the acceptor handled the call and its reply came back
    | Unreached  // the call failed before the acceptor handled it
    | ReplyLost  // the acceptor handled the call but its reply never came back

  /** The fate of the Prepare and of the Accept call to each acceptor in one pass. */
  datatype Round = Round(prepare: seq<Delivery>, accept: seq<Delivery>)

  /** What RunPaxos returns, or Unfinished when the schedule ran out while retrying. */
  datatype RunResult = Established(value: Option<Value>) | Unfinished

  predicate Distinct(acceptors: seq<KVServer>) {
    forall i, j :: 0 <= i < j < |acceptors| ==> acceptors[i] != acceptors[j]
  }

  /** from lists acceptor indices below n in increasing order. */
  predicate Increasing(from: seq<nat>, n: nat) {
    && (forall k :: 0 <= k < |from| ==> from[k] < n)
    && (forall k, l :: 0 <= k < l < |from| ==> from[k] < from[l])
  }

  /**
   * The replies rpcToAll keeps: the non-nil ones, in acceptor order (the
   * filtering at the end of rpcToAll).
   */
  function DropNil<T>(rs: seq<Option<T>>): seq<T> {
    if rs == [] then []
    else DropNil(rs[..|rs| - 1]) + (if rs[|rs| - 1].Some? then [rs[|rs| - 1].value] else [])
  }

  /** The position in rs that each kept reply comes from. */
  function Origins<T>(rs: seq<Option<T>>): seq<nat> {
    if rs == [] then []
    else Origins(rs[..|rs| - 1]) + (if rs[|rs| - 1].Some? then [|rs| - 1] else [])
  }

  /**
   * Dropping nil replies keeps exactly the non-nil ones, each once, in their
   * original order.
   */
  lemma {:induction false} DropNilKeepsOrder<T>(rs: seq<Option<T>>)
    ensures |DropNil(rs)| == |Origins(rs)| && Increasing(Origins(rs), |rs|)
    ensures forall k :: 0 <= k < |Origins(rs)| ==> rs[Origins(rs)[k]] == Some(DropNil(rs)[k])
    ensures forall j :: 0 <= j < |rs| ==> (rs[j].Some? <==> j in Origins(rs))
    decreases |rs|
  {
    if rs != [] {
      var n := |rs| - 1;
      var init := rs[..n];
      DropNilKeepsOrder(init);
      var kept, from := DropNil(init), Origins(init);
      var kept', from' := DropNil(rs), Origins(rs);
      if rs[n].Some? {
        assert kept' == kept + [rs[n].value] && from' == from + [n];
        forall k | 0 <= k < |from'|
          ensures from'[k] <= n && rs[from'[k]] == Some(kept'[k])
        {
          if k < |from| {
            assert from'[k] == from[k] && kept'[k] == kept[k] && rs[from[k]] == init[from[k]];
          }
        }
        forall j | 0 <= j <= n
          ensures rs[j].Some? <==> j in from'
        {
          if j < n {
            assert rs[j] == init[j];
          }
        }
      } else {
        assert kept' == kept && from' == from;
        forall k | 0 <= k < |from'|
          ensures rs[from'[k]] == Some(kept'[k])
        {
          assert rs[from[k]] == init[from[k]];
        }
        forall j | 0 <= j < n
          ensures rs[j].Some? <==> j in from'
        {
          assert rs[j] == init[j];
        }
      }
    }
  }

  /**
   * Call Prepare on every acceptor the call reaches, in order; the reply of
   * acceptor i is its state before the call, or nil when it did not come back.
   */
  method PrepareEach(acceptors: seq<KVServer>, req: Request, deliveries: seq<Delivery>)
    returns (rs: seq<Option<Acceptor>>)
    requires Distinct(acceptors) && |deliveries| == |acceptors|
    modifies acceptors
    ensures |rs| == |acceptors|
    ensures forall i :: 0 <= i < |acceptors| ==>
      rs[i] == if deliveries[i] == Replied then Some(old(acceptors[i].Instance(req.id))) else None
    ensures forall i :: 0 <= i < |acceptors| ==>
      acceptors[i].Instance(req.id) ==
        if deliveries[i] == Unreached then old(acceptors[i].Instance(req.id))
        else PrepareNext(old(acceptors[i].Instance(req.id)), req.bal)
    ensures forall i, x :: 0 <= i < |acceptors| && x != req.id ==>
      acceptors[i].Instance(x) == old(acceptors[i].Instance(x))
  {
    rs := [];
    var i := 0;
    while i < |acceptors|
      invariant 0 <= i <= |acceptors| && |rs| == i
      invariant forall j :: 0 <= j < i ==>
        rs[j] == if deliveries[j] == Replied then Some(old(acceptors[j].Instance(req.id))) else None
      invariant forall j :: 0 <= j < |acceptors| ==>
        acceptors[j].Instance(req.id) ==
          if j >= i || deliveries[j] == Unreached then old(acceptors[j].Instance(req.id))
          else PrepareNext(old(acceptors[j].Instance(req.id)), req.bal)
      invariant forall j, x :: 0 <= j < |acceptors| && x != req.id ==>
        acceptors[j].Instance(x) == old(acceptors[j].Instance(x))
    {
      var reply: Option<Acceptor> := None;
      if deliveries[i] != Unreached {
        var r := acceptors[i].Prepare(req);
        if deliveries[i] == Replied {
          reply := Some(r);
        }
      }
      rs := rs + [reply];
      i := i + 1;
    }
  }

  /**
   * Call Accept on every acceptor the call reaches, in order; the reply of
   * acceptor i is its LastBal before the call, or nil when it did not come back.
   */
  method AcceptEach(acceptors: seq<KVServer>, req: Request, deliveries: seq<Delivery>)
    returns (rs: seq<Option<AcceptReply>>)
    requires Distinct(acceptors) && |deliveries| == |acceptors|
    modifies acceptors
    ensures |rs| == |acceptors|
    ensures forall i :: 0 <= i < |acceptors| ==>
      rs[i] == if deliveries[i] == Replied then Some(AcceptReply(old(acceptors[i].Instance(req.id)).lastBal)) else None
    ensures forall i :: 0 <= i < |acceptors| ==>
      acceptors[i].Instance(req.id) ==
        if deliveries[i] == Unreached then old(acceptors[i].Instance(req.id))
        else AcceptNext(old(acceptors[i].Instance(req.id)), req.bal, req.val)
    ensures forall i, x :: 0 <= i < |acceptors| && x != req.id ==>
      acceptors[i].Instance(x) == old(acceptors[i].Instance(x))
  {
    rs := [];
    var i := 0;
    while i < |acceptors|
      invariant 0 <= i <= |acceptors| && |rs| == i
      invariant forall j :: 0 <= j < i ==>
        rs[j] == if deliveries[j] == Replied then Some(AcceptReply(old(acceptors[j].Instance(req.id)).lastBal)) else None
      invariant forall j :: 0 <= j < |acceptors| ==>
        acceptors[j].Instance(req.id) ==
          if j >= i || deliveries[j] == Unreached then old(acceptors[j].Instance(req.id))
          else AcceptNext(old(acceptors[j].Instance(req.id)), req.bal, req.val)
      invariant forall j, x :: 0 <= j < |acceptors| && x != req.id ==>
        acceptors[j].Instance(x) == old(acceptors[j].Instance(x))
    {
      var reply: Option<AcceptReply> := None;
      if deliveries[i] != Unreached {
        var r := acceptors[i].Accept(req);
        if deliveries[i] == Replied {
          reply := Some(r);
        }
      }
      rs := rs + [reply];
      i := i + 1;
    }
  }

  /**
   * rpcToAll for Prepare: the replies that came back, in acceptor order;
   * from[k] is the acceptor that sent replies[k].
   */
  method RpcPrepareToAll(acceptors: seq<KVServer>, req: Request, deliveries: seq<Delivery>)
    returns (replies: seq<Acceptor>, ghost from: seq<nat>)
    requires Distinct(acceptors) && |deliveries| == |acceptors|
    modifies acceptors
    ensures |replies| == |from| && Increasing(from, |acceptors|)
    ensures forall i :: 0 <= i < |acceptors| ==> (deliveries[i] == Replied <==> i in from)
    ensures forall k :: 0 <= k < |from| ==> replies[k] == old(acceptors[from[k]].Instance(req.id))
    ensures forall i :: 0 <= i < |acceptors| ==>
      acceptors[i].Instance(req.id) ==
        if deliveries[i] == Unreached then old(acceptors[i].Instance(req.id))
        else PrepareNext(old(acceptors[i].Instance(req.id)), req.bal)
    ensures forall i, x :: 0 <= i < |acceptors| && x != req.id ==>
      acceptors[i].Instance(x) == old(acceptors[i].Instance(x))
  {
    var rs := PrepareEach(acceptors, req, deliveries);
    replies, from := DropNil(rs), Origins(rs);
    DropNilKeepsOrder(rs);
  }

  /**
   * rpcToAll for Accept: the replies that came back, in acceptor order;
   * from[k] is the acceptor that sent replies[k].
   */
  method RpcAcceptToAll(acceptors: seq<KVServer>, req: Request, deliveries: seq<Delivery>)
    returns (replies: seq<AcceptReply>, ghost from: seq<nat>)
    requires Distinct(acceptors) && |deliveries| == |acceptors|
    modifies acceptors
    ensures |replies| == |from| && Increasing(from, |acceptors|)
    ensures forall i :: 0 <= i < |acceptors| ==> (deliveries[i] == Replied <==> i in from)
    ensures forall k :: 0 <= k < |from| ==> replies[k] == AcceptReply(old(acceptors[from[k]].Instance(req.id)).lastBal)
    ensures forall i :: 0 <= i < |acceptors| ==>
      acceptors[i].Instance(req.id) ==
        if deliveries[i] == Unreached then old(acceptors[i].Instance(req.id))
        else AcceptNext(old(acceptors[i].Instance(req.id)), req.bal, req.val)
    ensures forall i, x :: 0 <= i < |acceptors| && x != req.id ==>
      acceptors[i].Instance(x) == old(acceptors[i].Instance(x))
  {
    var rs := AcceptEach(acceptors, req, deliveries);
    replies, from := DropNil(rs), Origins(rs);
    DropNilKeepsOrder(rs);
  }

  /** The state of instance id at every acceptor. */
  ghost function Snapshot(acceptors: seq<KVServer>, id: PaxosInstanceId): (s: seq<Acceptor>)
    reads acceptors
    ensures |s| == |acceptors| && forall i :: 0 <= i < |acceptors| ==> s[i] == acceptors[i].Instance(id)
    decreases |acceptors|
  {
    if acceptors == [] then [] else Snapshot(acceptors[..|acceptors| - 1], id) + [acceptors[|acceptors| - 1].Instance(id)]
  }

  /**
   * The answers xs[i] of the acceptors whose call came back (ds[i] is
   * Replied), in acceptor order: what rpcToAll keeps.
   */
  function Delivered<T>(xs: seq<T>, ds: seq<Delivery>): seq<T>
    decreases |xs|
  {
    if xs == [] then []
    else
      var n := |xs| - 1;
      Delivered(xs[..n], ds) + (if n < |ds| && ds[n] == Replied then [xs[n]] else [])
  }

  /**
   * Replies that come one from each acceptor whose call came back, in
   * increasing acceptor order, are exactly the delivered answers.
   */
  lemma {:induction false} DeliveredFromOrigins<T>(replies: seq<T>, from: seq<nat>, xs: seq<T>, ds: seq<Delivery>)
    requires |replies| == |from| && Increasing(from, |xs|) && |xs| <= |ds|
    requires forall i :: 0 <= i < |xs| ==> (ds[i] == Replied <==> i in from)
    requires forall k :: 0 <= k < |from| ==> replies[k] == xs[from[k]]
    ensures replies == Delivered(xs, ds)
    decreases |xs|
  {
    if xs == [] {
      IncreasingIsShort(from, 0);
    } else {
      var n := |xs| - 1;
      if ds[n] == Replied {
        var m := LastOrigin(from, n + 1, ds);
        DeliveredFromOrigins(replies[..m], from[..m], xs[..n], ds);
        assert replies == replies[..m] + [xs[n]];
      } else {
        assert n !in from;
        assert Increasing(from, n);
        DeliveredFromOrigins(replies, from, xs[..n], ds);
      }
    }
  }

  /** Increasing indices below n number at most n. */
  lemma {:induction false} IncreasingIsShort(from: seq<nat>, n: nat)
    requires Increasing(from, n)
    ensures |from| <= n
    decreases |from|
  {
    if from != [] {
      var m := |from| - 1;
      IncreasingIsShort(from[..m], from[m]);
    }
  }

  /**
   * When the call to the last of n acceptors came back, it is the last
   * origin, and the others are the origins of the first n - 1.
   */
  lemma LastOrigin(from: seq<nat>, n: nat, ds: seq<Delivery>) returns (m: nat)
    requires Increasing(from, n) && 0 < n <= |ds| && ds[n - 1] == Replied
    requires forall i :: 0 <= i < n ==> (ds[i] == Replied <==> i in from)
    ensures m == |from| - 1 && from == from[..m] + [n - 1]
    ensures Increasing(from[..m], n - 1)
    ensures forall i :: 0 <= i < n - 1 ==> (ds[i] == Replied <==> i in from[..m])
  {
    m := |from| - 1;
    var k :| 0 <= k < |from| && from[k] == n - 1;
    assert from[m] <= n - 1;
    assert k == m;
    assert from == from[..m] + [n - 1];
  }

  /** The Accept reply each state s[i] would give: its LastBal. */
  function Acks(s: seq<Acceptor>): (r: seq<AcceptReply>)
    ensures |r| == |s| && forall i :: 0 <= i < |s| ==> r[i] == AcceptReply(s[i].lastBal)
  {
    seq(|s|, i requires 0 <= i < |s| => AcceptReply(s[i].lastBal))
  }

  /** The states s after a Prepare(bal) fan-out: every acceptor the call reached has handled it. */
  function Prepared(s: seq<Acceptor>, ds: seq<Delivery>, bal: BallotNum): (s': seq<Acceptor>)
    requires |ds| == |s|
    ensures |s'| == |s|
    ensures forall i :: 0 <= i < |s| ==> s'[i] == if ds[i] == Unreached then s[i] else PrepareNext(s[i], bal)
  {
    seq(|s|, i requires 0 <= i < |s| => if ds[i] == Unreached then s[i] else PrepareNext(s[i], bal))
  }

  /** The states s after an Accept(bal, v) fan-out: every acceptor the call reached has handled it. */
  function Accepted(s: seq<Acceptor>, ds: seq<Delivery>, bal: BallotNum, v: Option<Value>): (s': seq<Acceptor>)
    requires |ds| == |s|
    ensures |s'| == |s|
    ensures forall i :: 0 <= i < |s| ==> s'[i] == if ds[i] == Unreached then s[i] else AcceptNext(s[i], bal, v)
  {
    seq(|s|, i requires 0 <= i < |s| => if ds[i] == Unreached then s[i] else AcceptNext(s[i], bal, v))
  }

  /** The current states of instance id at the acceptors, as a value. */
  lemma States(acceptors: seq<KVServer>, id: PaxosInstanceId) returns (s: seq<Acceptor>)
    ensures |s| == |acceptors| && forall i :: 0 <= i < |acceptors| ==> s[i] == acceptors[i].Instance(id)
  {
    s := Snapshot(acceptors, id);
  }

  /** The acceptors whose instance id holds the vote (bal, v) under the promise bal. */
  function VotedFor(acceptors: seq<KVServer>, id: PaxosInstanceId, bal: BallotNum, v: Option<Value>): set<nat>
    reads acceptors
  {
    set i: nat | i < |acceptors| && acceptors[i].Instance(id) == Acceptor(bal, v, bal)
  }

  /**
   * A proposer: the instance it runs on, its working ballot, and the value
   * it sends (nil during Phase 1).
   */
  class Proposer {
    const id: PaxosInstanceId
    var bal: BallotNum
    var val: Option<Value>

    constructor (id: PaxosInstanceId, bal: BallotNum)
      ensures this.id == id && this.bal == bal && this.val == None
    {
      this.id, this.bal, this.val := id, bal, None;
    }

    /** The Proposer message sent in Prepare and Accept calls. */
    function ToRequest(): Request
      reads this
    {
      Request(id, bal, val)
    }

    /**
     * One pass of the retry loop of RunPaxos: Phase 1, then (unless it fails
     * or there is nothing to write) Phase 2. A failed phase moves the ballot
     * past every rejecting promise and asks for another pass; proposal' is
     * the value carried into the next pass, and t records what the pass saw.
     */
    method RunRound(acceptors: seq<KVServer>, quorum: nat, proposal: Option<Value>, round: Round,
                    ghost states: seq<Acceptor>)
      returns (outcome: RoundOutcome, proposal': Option<Value>, ghost t: RoundTrace)
      requires Distinct(acceptors)
      requires |round.prepare| == |acceptors| && |round.accept| == |acceptors|
      requires |states| == |acceptors| && forall i :: 0 <= i < |acceptors| ==> states[i] == acceptors[i].Instance(id)
      modifies this, acceptors
      ensures bal.proposerId == old(bal.proposerId)
      ensures t.pre == states && t.bal == old(bal) && t.deliveries == round
      ensures Observed(t) && Tallied(t, quorum) && RoundShape(t, proposal)
      ensures forall i :: 0 <= i < |acceptors| ==> acceptors[i].Instance(id) == After(t, proposal')[i]
      ensures proposal' == Carried(t, proposal) && (proposal'.None? ==> proposal.None?)
      ensures outcome.Decided? <==> Decides(t)
      ensures bal == BallotAfter(t)
      ensures outcome.Retry? ==> bal.GT(old(bal)) && bal.n > old(bal.n)
      ensures outcome.Decided? ==> bal == old(bal) && outcome.value == proposal' && this.val == proposal'
      ensures outcome.Decided? && proposal'.Some? ==>
        |VotedFor(acceptors, id, bal, proposal')| >= quorum
      ensures proposal' == proposal ||
        (proposal'.Some? && exists i :: 0 <= i < |acceptors| && proposal' == old(acceptors[i].Instance(id)).val)
      ensures forall i :: 0 <= i < |acceptors| ==>
        acceptors[i].Instance(id).val == old(acceptors[i].Instance(id)).val ||
        acceptors[i].Instance(id).val == proposal'
      ensures forall i, x :: 0 <= i < |acceptors| && x != id ==>
        acceptors[i].Instance(x) == old(acceptors[i].Instance(x))
    {
      ghost var pre := states;
      var start := bal;
      proposal' := proposal;
      var res1, replies1 := Survey(acceptors, quorum, round.prepare, pre);
      t := RoundTrace(start, pre, round, replies1, res1, [], None);
      if res1.NoEnoughQuorum? {
        bal := NextBallot(bal, res1.higherBal);
        outcome := Retry;
        return;
      }
      if res1.value.Some? {
        proposal' := res1.value;
      }
      if proposal' == None {
        outcome := Decided(None);
        return;
      }
      ghost var promised := States(acceptors, id);
      assert promised == Prepared(pre, round.prepare, start);
      var decided, res2, replies2 := Propose(acceptors, quorum, proposal', round.accept, promised);
      t := t.(acks := replies2, phase2 := Some(res2));
      outcome := if decided then Decided(proposal') else Retry;
    }

    /**
     * The first half of a pass: clear the value and run Phase 1. states are
     * the acceptors' states of instance id when it begins.
     */
    method Survey(acceptors: seq<KVServer>, quorum: nat, deliveries: seq<Delivery>, ghost states: seq<Acceptor>)
      returns (res: PhaseResult<Option<Value>>, replies: seq<Acceptor>)
      requires Distinct(acceptors) && |deliveries| == |acceptors|
      requires |states| == |acceptors| && forall i :: 0 <= i < |acceptors| ==> states[i] == acceptors[i].Instance(id)
      modifies this, acceptors
      ensures this.val == None && bal == old(bal)
      ensures res == Phase1Outcome(bal, replies, quorum)
      ensures replies == Delivered(states, deliveries)
      ensures forall i :: 0 <= i < |acceptors| ==> acceptors[i].Instance(id) == Prepared(states, deliveries, bal)[i]
      ensures res.NoEnoughQuorum? ==> res.higherBal.GE(bal)
      ensures res.Ok? && res.value.Some? ==> exists i :: 0 <= i < |acceptors| && res.value == states[i].val
      ensures forall i :: 0 <= i < |acceptors| ==> acceptors[i].Instance(id).val == states[i].val
      ensures forall i, x :: 0 <= i < |acceptors| && x != id ==>
        acceptors[i].Instance(x) == old(acceptors[i].Instance(x))
    {
      this.val := None;
      ghost var from;
      res, replies, from := Phase1(acceptors, quorum, deliveries);
      DeliveredFromOrigins(replies, from, states, deliveries);
    }

    /**
     * The second half of a pass: propose v in Phase 2 and, when it fails,
     * move the ballot past the highest promise seen. states are the
     * acceptors' states of instance id when it begins.
     */
    method Propose(acceptors: seq<KVServer>, quorum: nat, v: Option<Value>, deliveries: seq<Delivery>,
                   ghost states: seq<Acceptor>)
      returns (decided: bool, res: PhaseResult<()>, replies: seq<AcceptReply>)
      requires Distinct(acceptors) && |deliveries| == |acceptors|
      requires |states| == |acceptors| && forall i :: 0 <= i < |acceptors| ==> states[i] == acceptors[i].Instance(id)
      modifies this, acceptors
      ensures this.val == v
      ensures res == Phase2Outcome(old(bal), replies, quorum) && decided == res.Ok?
      ensures replies == Delivered(Acks(states), deliveries)
      ensures forall i :: 0 <= i < |acceptors| ==> acceptors[i].Instance(id) == Accepted(states, deliveries, old(bal), v)[i]
      ensures bal == if decided then old(bal) else NextBallot(old(bal), res.higherBal)
      ensures !decided ==> bal.GT(old(bal)) && bal.n > old(bal.n)
      ensures decided ==> |VotedFor(acceptors, id, bal, v)| >= quorum
      ensures forall i :: 0 <= i < |acceptors| ==>
        acceptors[i].Instance(id).val == states[i].val || acceptors[i].Instance(id).val == v
      ensures forall i, x :: 0 <= i < |acceptors| && x != id ==>
        acceptors[i].Instance(x) == old(acceptors[i].Instance(x))
    {
      this.val := v;
      ghost var from;
      res, replies, from := Phase2(acceptors, quorum, deliveries);
      DeliveredFromOrigins(replies, from, Acks(states), deliveries);
      decided := res.Ok?;
      if !decided {
        bal := NextBallot(bal, res.higherBal);
      }
    }

    /**
     * Phase 1: send Prepare for the current ballot to every acceptor and
     * tally the replies that came back, by Phase1Outcome, which the loop
     * Phases.Phase1 computes. Only the promises change.
     */
    method Phase1(acceptors: seq<KVServer>, quorum: nat, deliveries: seq<Delivery>)
      returns (res: PhaseResult<Option<Value>>, replies: seq<Acceptor>, ghost from: seq<nat>)
      requires Distinct(acceptors) && |deliveries| == |acceptors|
      modifies acceptors
      ensures res == Phase1Outcome(bal, replies, quorum)
      ensures |replies| == |from| && Increasing(from, |acceptors|)
      ensures forall i :: 0 <= i < |acceptors| ==> (deliveries[i] == Replied <==> i in from)
      ensures forall k :: 0 <= k < |from| ==> replies[k] == old(acceptors[from[k]].Instance(id))
      ensures forall i :: 0 <= i < |acceptors| ==>
        acceptors[i].Instance(id) ==
          if deliveries[i] == Unreached then old(acceptors[i].Instance(id))
          else PrepareNext(old(acceptors[i].Instance(id)), bal)
      ensures res.NoEnoughQuorum? ==> res.higherBal.GE(bal)
      ensures res.Ok? && res.value.Some? ==>
        exists i :: 0 <= i < |acceptors| && res.value == old(acceptors[i].Instance(id)).val
      ensures forall i :: 0 <= i < |acceptors| ==>
        acceptors[i].Instance(id).val == old(acceptors[i].Instance(id)).val
      ensures forall i, x :: 0 <= i < |acceptors| && x != id ==>
        acceptors[i].Instance(x) == old(acceptors[i].Instance(x))
    {
      var req := ToRequest();
      assert req.id == id && req.bal == bal;
      replies, from := RpcPrepareToAll(acceptors, req, deliveries);
      res := Phase1Outcome(bal, replies, quorum);
      Phase1Meaning(bal, replies, quorum);
      HigherBalBounds(bal, PromiseBals(replies));
      if res.Ok? && res.value.Some? {
        Phase1ValueFromReply(bal, replies, quorum);
        var j :| 0 <= j < |replies| && replies[j].val == res.value;
        assert res.value == old(acceptors[from[j]].Instance(id)).val;
      }
    }

    /**
     * Phase 2: send Accept for the current ballot and value to every
     * acceptor and tally the replies that came back, by Phase2Outcome, which
     * the loop Phases.Phase2 computes. On success a quorum
     * holds the vote.
     */
    method Phase2(acceptors: seq<KVServer>, quorum: nat, deliveries: seq<Delivery>)
      returns (res: PhaseResult<()>, replies: seq<AcceptReply>, ghost from: seq<nat>)
      requires Distinct(acceptors) && |deliveries| == |acceptors|
      modifies acceptors
      ensures res == Phase2Outcome(bal, replies, quorum)
      ensures |replies| == |from| && Increasing(from, |acceptors|)
      ensures forall i :: 0 <= i < |acceptors| ==> (deliveries[i] == Replied <==> i in from)
      ensures forall k :: 0 <= k < |from| ==> replies[k] == AcceptReply(old(acceptors[from[k]].Instance(id)).lastBal)
      ensures forall i :: 0 <= i < |acceptors| ==>
        acceptors[i].Instance(id) ==
          if deliveries[i] == Unreached then old(acceptors[i].Instance(id))
          else AcceptNext(old(acceptors[i].Instance(id)), bal, val)
      ensures res.NoEnoughQuorum? ==> res.higherBal.GE(bal)
      ensures res.Ok? ==> |VotedFor(acceptors, id, bal, val)| >= quorum
      ensures forall i :: 0 <= i < |acceptors| ==>
        acceptors[i].Instance(id).val == old(acceptors[i].Instance(id)).val ||
        acceptors[i].Instance(id).val == val
      ensures forall i, x :: 0 <= i < |acceptors| && x != id ==>
        acceptors[i].Instance(x) == old(acceptors[i].Instance(x))
    {
      ghost var before := Snapshot(acceptors, id);
      var req := ToRequest();
      assert req.id == id && req.bal == bal && req.val == val;
      replies, from := RpcAcceptToAll(acceptors, req, deliveries);
      res := Phase2Outcome(bal, replies, quorum);
      Phase2Meaning(bal, replies, quorum);
      HigherBalBounds(bal, AckBals(replies));
      if res.Ok? {
        QuorumVoted(acceptors, id, bal, val, before, replies, from, quorum);
      }
    }

    /**
     * Run Phase 1 and Phase 2, retrying with a higher ballot after every
     * failed phase, until a value is established. A value voted earlier and
     * found in Phase 1 replaces the caller's val; a read (val nil) that finds
     * none returns nil without Phase 2. trace records the rounds run.
     */
    method RunPaxos(acceptors: seq<KVServer>, val: Option<Value>, schedule: seq<Round>)
      returns (r: RunResult, ghost trace: History)
      requires Distinct(acceptors)
      requires forall k :: 0 <= k < |schedule| ==>
        |schedule[k].prepare| == |acceptors| && |schedule[k].accept| == |acceptors|
      modifies this, acceptors
      ensures bal.proposerId == old(bal.proposerId) && bal.GE(old(bal))
      ensures |Rounds(trace)| <= |schedule| && Retried(trace, old(bal), val, Quorum(|acceptors|), old(Snapshot(acceptors, id)), schedule)
      ensures bal == BallotOf(trace, old(bal))
      ensures forall i :: 0 <= i < |acceptors| ==>
        acceptors[i].Instance(id) == StateOf(trace, old(Snapshot(acceptors, id)), val)[i]
      ensures r.Established? <==> Settled(trace)
      ensures r.Established? ==> r.value == CarriedAll(trace, val)
      ensures r == Unfinished ==> |Rounds(trace)| == |schedule| && bal.n >= old(bal.n) + |schedule|
      ensures r.Established? && r.value.Some? ==>
        this.val == r.value && |VotedFor(acceptors, id, bal, r.value)| >= Quorum(|acceptors|)
      ensures r.Established? ==> FromCaller(r.value, val, old(Snapshot(acceptors, id)))
      ensures r.Established? && r.value.None? ==> val == None && this.val == None
      ensures forall i, x :: 0 <= i < |acceptors| && x != id ==>
        acceptors[i].Instance(x) == old(acceptors[i].Instance(x))
    {
      ghost var init := Snapshot(acceptors, id);
      var quorum := Quorum(|acceptors|);
      var proposal := val;
      trace := Start;
      var k := 0;
      while k < |schedule|
        invariant 0 <= k <= |schedule| && |Rounds(trace)| == k
        invariant Retried(trace, old(bal), val, quorum, init, schedule) && !Settled(trace)
        invariant bal == BallotOf(trace, old(bal))
        invariant proposal == CarriedAll(trace, val)
        invariant |StateOf(trace, init, val)| == |acceptors|
        invariant forall i :: 0 <= i < |acceptors| ==> acceptors[i].Instance(id) == StateOf(trace, init, val)[i]
        invariant proposal.None? ==> val.None?
        invariant forall i, x :: 0 <= i < |acceptors| && x != id ==>
          acceptors[i].Instance(x) == old(acceptors[i].Instance(x))
      {
        var outcome;
        ghost var t;
        ghost var states := StateOf(trace, init, val);
        outcome, proposal, t := RunRound(acceptors, quorum, proposal, schedule[k], states);
        trace := Then(trace, t);
        if outcome.Decided? {
          RetriedRaisesBallot(trace, old(bal), val, quorum, init, schedule);
          RetriedFromCaller(trace, old(bal), val, quorum, init, schedule);
          return Established(outcome.value), trace;
        }
        k := k + 1;
      }
      RetriedRaisesBallot(trace, old(bal), val, quorum, init, schedule);
      return Unfinished, trace;
    }
  }

  /** What one pass of the retry loop ends with. */
  datatype RoundOutcome = Decided(value: Option<Value>) | Retry

  /**
   * What one pass of the retry loop saw: its ballot, the states of the
   * instance at the acceptors when it began, what the network did to each
   * call, the Prepare replies kept and Phase 1's result, and, when Phase 2
   * ran, the Accept replies kept and its result.
   */
  datatype RoundTrace = RoundTrace(
    bal: BallotNum, pre: seq<Acceptor>, deliveries: Round,
    promises: seq<Acceptor>, phase1: PhaseResult<Option<Value>>,
    acks: seq<AcceptReply>, phase2: Option<PhaseResult<()>>)

  /**
   * The replies of a round are what the acceptors it began from answer:
   * the promises are the delivered states, and the Accept replies (only
   * when Phase 2 ran) the delivered LastBals of the states Phase 1 left.
   */
  predicate Observed(t: RoundTrace) {
    && |t.deliveries.prepare| == |t.pre| && |t.deliveries.accept| == |t.pre|
    && t.promises == Delivered(t.pre, t.deliveries.prepare)
    && t.acks == if t.phase2.Some? then Delivered(Acks(Prepared(t.pre, t.deliveries.prepare, t.bal)), t.deliveries.accept) else []
  }

  /** The states a round leaves the acceptors in, v being the value its Phase 2 sends. */
  function After(t: RoundTrace, v: Option<Value>): (s: seq<Acceptor>)
    requires Observed(t)
    ensures |s| == |t.pre|
  {
    var promised := Prepared(t.pre, t.deliveries.prepare, t.bal);
    if t.phase2.Some? then Accepted(promised, t.deliveries.accept, t.bal, v) else promised
  }

  /** Each phase's result is the tally of its replies under the round's ballot. */
  predicate Tallied(t: RoundTrace, quorum: int) {
    && t.phase1 == Phase1Outcome(t.bal, t.promises, quorum)
    && (t.phase2.Some? ==> t.phase2.value == Phase2Outcome(t.bal, t.acks, quorum))
  }

  /** Phase 1 of the round succeeded with a value. */
  predicate Found(t: RoundTrace) {
    t.phase1.Ok? && t.phase1.value.Some?
  }

  /** The value carried out of a round entered with proposal. */
  function Carried(t: RoundTrace, proposal: Option<Value>): Option<Value> {
    if t.phase1.Ok? then ProposedValue(t.phase1.value, proposal) else proposal
  }

  /** Phase 2 runs exactly when Phase 1 succeeded and there is a value to propose. */
  predicate RoundShape(t: RoundTrace, proposal: Option<Value>) {
    t.phase2.Some? <==> t.phase1.Ok? && Carried(t, proposal).Some?
  }

  /** The round ends the retry loop: Phase 1 succeeded, and so did Phase 2 if it ran. */
  predicate Decides(t: RoundTrace) {
    t.phase1.Ok? && (t.phase2.None? || t.phase2.value.Ok?)
  }

  /** The ballot after a round: NextBallot past the failed phase's highest ballot, else unchanged. */
  function BallotAfter(t: RoundTrace): BallotNum {
    if t.phase1.NoEnoughQuorum? then NextBallot(t.bal, t.phase1.higherBal)
    else if t.phase2.Some? && t.phase2.value.NoEnoughQuorum? then NextBallot(t.bal, t.phase2.value.higherBal)
    else t.bal
  }

  /** The rounds a run has made, the latest outermost. */
  datatype History = Start | Then(before: History, round: RoundTrace)

  /** The rounds of h, oldest first. */
  function Rounds(h: History): seq<RoundTrace> {
    if h.Start? then [] else Rounds(h.before) + [h.round]
  }

  /** The first n rounds of h. */
  function Prefix(h: History, n: nat): History
    requires n <= |Rounds(h)|
  {
    if n == |Rounds(h)| then h else Prefix(h.before, n)
  }

  /** The ballot after the rounds h of a run started at ballot start. */
  function BallotOf(h: History, start: BallotNum): BallotNum {
    if h.Start? then start else BallotAfter(h.round)
  }

  /** The states the rounds h of a run begun from states init with value val leave behind. */
  function StateOf(h: History, init: seq<Acceptor>, val: Option<Value>): seq<Acceptor>
    requires h.Then? ==> Observed(h.round)
  {
    if h.Start? then init else After(h.round, CarriedAll(h, val))
  }

  /** The latest round of h ended the retry loop. */
  predicate Settled(h: History) {
    h.Then? && Decides(h.round)
  }

  /** The value carried out of the rounds h by a run started with val. */
  function CarriedAll(h: History, val: Option<Value>): Option<Value> {
    if h.Start? then val else Carried(h.round, CarriedAll(h.before, val))
  }

  /**
   * h are the rounds of a run started at ballot start with value val from
   * the acceptor states init, the network behaving as schedule says: each
   * round follows a round that did not end the loop, uses the next entry of
   * the schedule, begins from the states that round left and at the ballot
   * it left, sees the replies of those states, tallies them and is shaped
   * by the value carried into it.
   */
  predicate Retried(h: History, start: BallotNum, val: Option<Value>, quorum: int, init: seq<Acceptor>, schedule: seq<Round>) {
    h.Then? ==> Retried(h.before, start, val, quorum, init, schedule) && Fits(h.before, h.round, start, val, quorum, init, schedule)
  }

  /**
   * t may follow the rounds before of a run: they did not end the loop,
   * and t uses the next entry of the schedule, begins from the states and
   * at the ballot they left, sees the replies of those states, tallies
   * them and is shaped by the value carried into it.
   */
  predicate Fits(before: History, t: RoundTrace, start: BallotNum, val: Option<Value>, quorum: int,
                 init: seq<Acceptor>, schedule: seq<Round>) {
    && (before.Then? ==> Observed(before.round))
    && !Settled(before)
    && |Rounds(before)| < |schedule| && t.deliveries == schedule[|Rounds(before)|]
    && t.pre == StateOf(before, init, val)
    && t.bal == BallotOf(before, start)
    && Observed(t) && Tallied(t, quorum)
    && RoundShape(t, CarriedAll(before, val))
  }

  /** The first k + 1 rounds of a run are its first k rounds followed by round k, and are a run too. */
  lemma {:induction false} RetriedPrefix(h: History, start: BallotNum, val: Option<Value>, quorum: int,
                                         init: seq<Acceptor>, schedule: seq<Round>, k: nat)
    requires Retried(h, start, val, quorum, init, schedule) && k < |Rounds(h)|
    ensures |Rounds(Prefix(h, k))| == k
    ensures Prefix(h, k + 1) == Then(Prefix(h, k), Rounds(h)[k])
    ensures Fits(Prefix(h, k), Rounds(h)[k], start, val, quorum, init, schedule)
  {
    var n := |Rounds(h.before)|;
    assert Rounds(h) == Rounds(h.before) + [h.round];
    if k < n {
      RetriedPrefix(h.before, start, val, quorum, init, schedule, k);
      assert Rounds(h)[k] == Rounds(h.before)[k];
    }
  }

  /** Round k of a run uses the k-th entry of the schedule, sees and tallies its replies, and the first round starts the run. */
  lemma {:induction false} RoundAt(h: History, start: BallotNum, val: Option<Value>, quorum: int,
                                 init: seq<Acceptor>, schedule: seq<Round>, k: nat)
    requires Retried(h, start, val, quorum, init, schedule) && k < |Rounds(h)|
    ensures var ts := Rounds(h);
      && k < |schedule| && ts[k].deliveries == schedule[k] && Observed(ts[k]) && Tallied(ts[k], quorum)
      && RoundShape(ts[k], CarriedAll(Prefix(h, k), val))
      && (k == 0 ==> ts[0].bal == start && ts[0].pre == init)
  {
    RetriedPrefix(h, start, val, quorum, init, schedule, k);
  }

  /** Round k + 1 of a run follows round k, which did not end the loop, from the ballot and the states it left. */
  lemma {:induction false} ChainAt(h: History, start: BallotNum, val: Option<Value>, quorum: int,
                                 init: seq<Acceptor>, schedule: seq<Round>, k: nat)
    requires Retried(h, start, val, quorum, init, schedule) && k + 1 < |Rounds(h)|
    ensures var ts := Rounds(h);
      && Observed(ts[k]) && !Decides(ts[k]) && ts[k + 1].bal == BallotAfter(ts[k])
      && ts[k + 1].pre == After(ts[k], CarriedAll(Prefix(h, k + 1), val))
  {
    RetriedPrefix(h, start, val, quorum, init, schedule, k);
    RetriedPrefix(h, start, val, quorum, init, schedule, k + 1);
  }

  /** Retried, stated round by round over the rounds in order. */
  lemma {:induction false} RetriedRoundByRound(h: History, start: BallotNum, val: Option<Value>, quorum: int,
                                               init: seq<Acceptor>, schedule: seq<Round>)
    requires Retried(h, start, val, quorum, init, schedule)
    ensures var ts := Rounds(h);
      && |ts| <= |schedule|
      && (forall k :: 0 <= k < |ts| ==>
            && ts[k].deliveries == schedule[k] && Observed(ts[k]) && Tallied(ts[k], quorum)
            && RoundShape(ts[k], CarriedAll(Prefix(h, k), val)))
      && (|ts| > 0 ==> ts[0].bal == start && ts[0].pre == init)
      && (forall k :: 0 <= k < |ts| - 1 ==>
            && !Decides(ts[k]) && ts[k + 1].bal == BallotAfter(ts[k])
            && ts[k + 1].pre == After(ts[k], CarriedAll(Prefix(h, k + 1), val)))
  {
    var ts := Rounds(h);
    if ts != [] {
      RoundAt(h, start, val, quorum, init, schedule, |ts| - 1);
      RoundAt(h, start, val, quorum, init, schedule, 0);
    }
    forall k | 0 <= k < |ts|
      ensures ts[k].deliveries == schedule[k] && Observed(ts[k]) && Tallied(ts[k], quorum)
      ensures RoundShape(ts[k], CarriedAll(Prefix(h, k), val))
    {
      RoundAt(h, start, val, quorum, init, schedule, k);
    }
    forall k | 0 <= k < |ts| - 1
      ensures !Decides(ts[k]) && ts[k + 1].bal == BallotAfter(ts[k])
      ensures ts[k + 1].pre == After(ts[k], CarriedAll(Prefix(h, k + 1), val))
    {
      ChainAt(h, start, val, quorum, init, schedule, k);
    }
  }

  /**
   * The rounds of a run are determined by where it starts: two histories
   * with as many rounds, both run from the same ballot, value, acceptor
   * states and schedule, are the same history.
   */
  lemma {:induction false} RetriedIsDetermined(h1: History, h2: History, start: BallotNum, val: Option<Value>, quorum: int,
                                               init: seq<Acceptor>, schedule: seq<Round>)
    requires Retried(h1, start, val, quorum, init, schedule) && Retried(h2, start, val, quorum, init, schedule)
    requires |Rounds(h1)| == |Rounds(h2)|
    ensures h1 == h2
  {
    if h1.Then? {
      RetriedIsDetermined(h1.before, h2.before, start, val, quorum, init, schedule);
    }
  }

  /**
   * Along the rounds of a run, the ballot keeps the proposer id and only
   * grows, and every round that does not end the loop raises its N.
   */
  lemma {:induction false} RetriedRaisesBallot(h: History, start: BallotNum, val: Option<Value>, quorum: int,
                                               init: seq<Acceptor>, schedule: seq<Round>)
    requires Retried(h, start, val, quorum, init, schedule)
    ensures var last := BallotOf(h, start);
      && last.proposerId == start.proposerId
      && last.GE(start)
      && last.n >= start.n + |Rounds(h)| - (if Settled(h) then 1 else 0)
  {
    if h.Then? {
      var t := h.round;
      RetriedRaisesBallot(h.before, start, val, quorum, init, schedule);
      var before := BallotOf(h.before, start);
      if !Decides(t) {
        BallotAfterFailure(t, quorum);
        GETotal(BallotAfter(t), before);
        GETransitive(BallotAfter(t), before, start);
      }
    }
  }

  /** Round k of ts found a value in Phase 1 and no later round did. */
  predicate LatestFound(ts: seq<RoundTrace>, k: int) {
    0 <= k < |ts| && Found(ts[k]) && forall l :: k < l < |ts| ==> !Found(ts[l])
  }

  /**
   * The value a run carries is the value found by the last round whose
   * Phase 1 found one, and the caller's value when no round found any.
   */
  lemma {:induction false} CarriedAllIsLatestFound(h: History, val: Option<Value>)
    ensures (forall k :: 0 <= k < |Rounds(h)| ==> !Found(Rounds(h)[k])) ==> CarriedAll(h, val) == val
    ensures forall k :: LatestFound(Rounds(h), k) ==> CarriedAll(h, val) == Rounds(h)[k].phase1.value
  {
    if h.Then? {
      var ts, prev := Rounds(h), Rounds(h.before);
      var n := |prev|;
      CarriedAllIsLatestFound(h.before, val);
      assert ts == prev + [h.round] && ts[n] == h.round;
      assert forall k :: 0 <= k < n ==> prev[k] == ts[k];
      if !Found(h.round) {
        forall k | LatestFound(ts, k)
          ensures CarriedAll(h, val) == ts[k].phase1.value
        {
          assert k < n && LatestFound(prev, k);
        }
      }
    }
  }

  /**
   * A round that does not decide moves the ballot strictly up, keeping the
   * proposer id, past the LastBal of every reply of the failed phase.
   */
  lemma BallotAfterFailure(t: RoundTrace, quorum: int)
    requires Tallied(t, quorum) && !Decides(t)
    ensures BallotAfter(t).proposerId == t.bal.proposerId
    ensures BallotAfter(t).GT(t.bal) && BallotAfter(t).n > t.bal.n
    ensures t.phase1.NoEnoughQuorum? ==> forall i :: 0 <= i < |t.promises| ==> BallotAfter(t).GT(t.promises[i].lastBal)
    ensures t.phase1.Ok? ==> forall i :: 0 <= i < |t.acks| ==> BallotAfter(t).GT(t.acks[i].lastBal)
  {
    if t.phase1.NoEnoughQuorum? {
      RetryAfterPhase1OutranksReplies(t.bal, t.promises, quorum);
      Phase1Meaning(t.bal, t.promises, quorum);
      HigherBalBounds(t.bal, PromiseBals(t.promises));
    } else {
      RetryAfterPhase2OutranksReplies(t.bal, t.acks, quorum);
      Phase2Meaning(t.bal, t.acks, quorum);
      HigherBalBounds(t.bal, AckBals(t.acks));
    }
  }

  /** v is the caller's value val or a value held by one of the states init. */
  ghost predicate FromCaller(v: Option<Value>, val: Option<Value>, init: seq<Acceptor>) {
    v == val || exists i :: 0 <= i < |init| && init[i].val == v
  }

  /** Every state of s holds the caller's value or one held at the start. */
  ghost predicate AllFromCaller(s: seq<Acceptor>, val: Option<Value>, init: seq<Acceptor>) {
    forall i :: 0 <= i < |s| ==> FromCaller(s[i].val, val, init)
  }

  /**
   * A round keeps every value in play traceable to the caller or to the
   * start: the new proposal is the old one or a value an acceptor held, and
   * each acceptor keeps its value or takes the new proposal.
   */
  lemma FromCallerStep(before: seq<Acceptor>, after: seq<Acceptor>, proposal: Option<Value>, proposal': Option<Value>,
                       val: Option<Value>, init: seq<Acceptor>)
    requires |after| == |before| && AllFromCaller(before, val, init) && FromCaller(proposal, val, init)
    requires proposal' == proposal || exists i :: 0 <= i < |before| && proposal' == before[i].val
    requires forall i :: 0 <= i < |after| ==> after[i].val == before[i].val || after[i].val == proposal'
    ensures AllFromCaller(after, val, init) && FromCaller(proposal', val, init)
  {
    if proposal' != proposal {
      var i :| 0 <= i < |before| && proposal' == before[i].val;
      assert FromCaller(before[i].val, val, init);
    }
    forall i | 0 <= i < |after|
      ensures FromCaller(after[i].val, val, init)
    {
      assert FromCaller(before[i].val, val, init);
    }
  }

  /** Every delivered answer is one of the answers. */
  lemma {:induction false} DeliveredIsAnswer<T>(xs: seq<T>, ds: seq<Delivery>)
    ensures forall y :: y in Delivered(xs, ds) ==> y in xs
    decreases |xs|
  {
    if xs != [] {
      var n := |xs| - 1;
      DeliveredIsAnswer(xs[..n], ds);
      assert forall y :: y in xs[..n] ==> y in xs;
    }
  }

  /** A round leaves each acceptor with the value it began with or the value its Phase 2 sent. */
  lemma AfterKeepsOrTakes(t: RoundTrace, v: Option<Value>)
    requires Observed(t)
    ensures forall i :: 0 <= i < |t.pre| ==> After(t, v)[i].val == t.pre[i].val || After(t, v)[i].val == v
  {
  }

  /**
   * The value a round carries out is the one carried in, or a value one of
   * the acceptors held when the round began.
   */
  lemma CarriedFromPromises(t: RoundTrace, proposal: Option<Value>, quorum: int)
    requires Observed(t) && Tallied(t, quorum)
    ensures Carried(t, proposal) == proposal || exists i :: 0 <= i < |t.pre| && Carried(t, proposal) == t.pre[i].val
  {
    if Found(t) {
      Phase1ValueFromReply(t.bal, t.promises, quorum);
      var j :| 0 <= j < |t.promises| && t.promises[j].val == t.phase1.value;
      DeliveredIsAnswer(t.pre, t.deliveries.prepare);
      assert t.promises[j] in t.pre;
    }
  }

  /**
   * Along a run, the value carried and the value every acceptor holds are
   * the caller's val or a value some acceptor held when the run began.
   */
  lemma {:induction false} RetriedFromCaller(h: History, start: BallotNum, val: Option<Value>, quorum: int,
                                             init: seq<Acceptor>, schedule: seq<Round>)
    requires Retried(h, start, val, quorum, init, schedule)
    ensures FromCaller(CarriedAll(h, val), val, init)
    ensures AllFromCaller(StateOf(h, init, val), val, init)
  {
    if h.Then? {
      var t := h.round;
      RetriedFromCaller(h.before, start, val, quorum, init, schedule);
      CarriedFromPromises(t, CarriedAll(h.before, val), quorum);
      AfterKeepsOrTakes(t, CarriedAll(h, val));
      FromCallerStep(t.pre, After(t, CarriedAll(h, val)), CarriedAll(h.before, val), CarriedAll(h, val), val, init);
    }
  }

  /**
   * No run makes an acceptor vote above its promise: from states that keep
   * the acceptor invariant, every round leaves states that keep it.
   */
  lemma {:induction false} RetriedKeepsWf(h: History, start: BallotNum, val: Option<Value>, quorum: int,
                                          init: seq<Acceptor>, schedule: seq<Round>)
    requires Retried(h, start, val, quorum, init, schedule)
    requires forall i :: 0 <= i < |init| ==> Wf(init[i])
    ensures forall i :: 0 <= i < |StateOf(h, init, val)| ==> Wf(StateOf(h, init, val)[i])
  {
    if h.Then? {
      RetriedKeepsWf(h.before, start, val, quorum, init, schedule);
    }
  }

  /**
   * After an Accept fan-out whose replies reach the quorum, every acceptor
   * that sent a counted reply holds the vote (bal, v).
   */
  lemma QuorumVoted(acceptors: seq<KVServer>, id: PaxosInstanceId, bal: BallotNum, v: Option<Value>,
                    before: seq<Acceptor>, replies: seq<AcceptReply>, from: seq<nat>, quorum: int)
    requires |before| == |acceptors| && |replies| == |from| && Increasing(from, |acceptors|)
    requires forall k :: 0 <= k < |from| ==> replies[k] == AcceptReply(before[from[k]].lastBal)
    requires forall k :: 0 <= k < |from| ==> acceptors[from[k]].Instance(id) == AcceptNext(before[from[k]], bal, v)
    requires quorum <= Counted(bal, AckBals(replies))
    ensures |VotedFor(acceptors, id, bal, v)| >= quorum
  {
    var bs := AckBals(replies);
    CountedAccsSize(bal, bs, from);
    var counted := CountedAccs(bal, bs, from);
    forall a | a in counted
      ensures a in VotedFor(acceptors, id, bal, v)
    {
      var k :| 0 <= k < |bs| && bal.GE(bs[k]) && from[k] == a;
    }
    SubsetSize(counted, VotedFor(acceptors, id, bal, v));
  }
}
