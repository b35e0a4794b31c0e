/**
 * Safety of one Paxos instance run by the acceptor rules of core/acceptor.go
 * and the phase tallies of core/proposer.go, with any number of proposers
 * whose calls interleave in any order and whose replies may be lost.
 *
 * Acceptors are numbered 0 .. n-1. The history sets votes, promises and acks
 * record every vote cast and every reply ever produced; a proposer only
 * tallies replies taken from them. proposals maps a ballot to the value its
 * proposer sends in Phase 2: one value per ballot, since a proposer sets
 * p.Val once per round and moves to a higher ballot before the next round,
 * and distinct proposers carry distinct proposer ids.
 */
module Consensus {
  import opened Wrappers
  import opened Ballot
  import opened Api
  import opened Acceptors
  import opened Phases

  datatype Vote = Vote(acc: nat, bal: BallotNum, val: Value)

  /** A Prepare reply: acceptor acc's state just before it handled Prepare(bal). */
  datatype Promise = Promise(bal: BallotNum, acc: nat, reply: Acceptor)

  /** An Accept reply of acceptor acc to Accept(bal). */
  datatype Ack = Ack(bal: BallotNum, acc: nat, reply: AcceptReply)

  datatype System = System(
    acceptors: seq<Acceptor>,
    proposals: map<BallotNum, Value>,
    votes: set<Vote>,
    promises: set<Promise>,
    acks: set<Ack>)

  datatype Step =
    | PrepareStep(acc: nat, bal: BallotNum)
      // acceptor acc handles Prepare(bal)
    | AcceptStep(acc: nat, bal: BallotNum)
      // acceptor acc handles Accept(bal, proposals[bal])
    | ProposeStep(bal: BallotNum, replies: seq<Promise>, own: Option<Value>)
      // a proposer whose Phase 1 at bal succeeded on replies fixes its value

  function Init(n: nat): System {
    System(seq(n, _ => Empty), map[], {}, {}, {})
  }

  function Snaps(ps: seq<Promise>): (rs: seq<Acceptor>)
    ensures |rs| == |ps| && forall i :: 0 <= i < |ps| ==> rs[i] == ps[i].reply
  {
    seq(|ps|, i requires 0 <= i < |ps| => ps[i].reply)
  }

  function PromiseAccs(ps: seq<Promise>): (accs: seq<nat>)
    ensures |accs| == |ps| && forall i :: 0 <= i < |ps| ==> accs[i] == ps[i].acc
  {
    seq(|ps|, i requires 0 <= i < |ps| => ps[i].acc)
  }

  function AckReplies(ks: seq<Ack>): (rs: seq<AcceptReply>)
    ensures |rs| == |ks| && forall i :: 0 <= i < |ks| ==> rs[i] == ks[i].reply
  {
    seq(|ks|, i requires 0 <= i < |ks| => ks[i].reply)
  }

  function AckAccs(ks: seq<Ack>): (accs: seq<nat>)
    ensures |accs| == |ks| && forall i :: 0 <= i < |ks| ==> accs[i] == ks[i].acc
  {
    seq(|ks|, i requires 0 <= i < |ks| => ks[i].acc)
  }

  /** Prepare replies to bal, from distinct acceptors, that were really sent. */
  predicate ValidPromises(s: System, bal: BallotNum, ps: seq<Promise>) {
    && (forall i :: 0 <= i < |ps| ==> ps[i] in s.promises && ps[i].bal == bal)
    && (forall i, j :: 0 <= i < j < |ps| ==> ps[i].acc != ps[j].acc)
  }

  /** Accept replies to bal, from distinct acceptors, that were really sent. */
  predicate ValidAcks(s: System, bal: BallotNum, ks: seq<Ack>) {
    && (forall i :: 0 <= i < |ks| ==> ks[i] in s.acks && ks[i].bal == bal)
    && (forall i, j :: 0 <= i < j < |ks| ==> ks[i].acc != ks[j].acc)
  }

  predicate Enabled(s: System, step: Step) {
    match step
    case PrepareStep(a, b) => a < |s.acceptors|
    case AcceptStep(a, b) => a < |s.acceptors| && b in s.proposals
    case ProposeStep(b, ps, own) =>
      var r := Phase1Outcome(b, Snaps(ps), Quorum(|s.acceptors|));
      && b.GT(Zero)
      && ValidPromises(s, b, ps)
      && r.Ok?
      && ProposedValue(r.value, own).Some?
      && (b in s.proposals ==> s.proposals[b] == ProposedValue(r.value, own).value)
  }

  function Apply(s: System, step: Step): System
    requires Enabled(s, step)
  {
    match step
    case PrepareStep(a, b) =>
      var st := s.acceptors[a];
      s.(acceptors := s.acceptors[a := PrepareNext(st, b)],
         promises := s.promises + {Promise(b, a, st)})
    case AcceptStep(a, b) =>
      var st := s.acceptors[a];
      var v := s.proposals[b];
      s.(acceptors := s.acceptors[a := AcceptNext(st, b, Some(v))],
         votes := if b.GE(st.lastBal) then s.votes + {Vote(a, b, v)} else s.votes,
         acks := s.acks + {Ack(b, a, AcceptReply(st.lastBal))})
    case ProposeStep(b, ps, own) =>
      var found := Phase1Outcome(b, Snaps(ps), Quorum(|s.acceptors|)).value;
      s.(proposals := s.proposals[b := ProposedValue(found, own).value])
  }

  /** A step that is not enabled changes nothing. */
  function Next(s: System, step: Step): System {
    if Enabled(s, step) then Apply(s, step) else s
  }

  /** The system after the steps, in order. */
  function Exec(s: System, steps: seq<Step>): System
    decreases |steps|
  {
    if steps == [] then s else Exec(Next(s, steps[0]), steps[1..])
  }

  /* ----- Chosen and choosable ----- */

  /** The acceptors that voted (c, w). */
  function Voters(s: System, c: BallotNum, w: Value): set<nat> {
    set v | v in s.votes && v.bal == c && v.val == w :: v.acc
  }

  /** w is chosen at c: a quorum voted (c, w). */
  predicate Chosen(s: System, c: BallotNum, w: Value) {
    |Voters(s, c, w)| >= Quorum(|s.acceptors|)
  }

  /**
   * The acceptors that have voted (c, w) or may still do so: all but those
   * that promised above c without voting (c, w).
   */
  function NonBlockers(s: System, c: BallotNum, w: Value): set<nat> {
    set a: nat | a < |s.acceptors| && !(s.acceptors[a].lastBal.GT(c) && Vote(a, c, w) !in s.votes)
  }

  /** w can still become (or already is) chosen at c. */
  predicate Choosable(s: System, c: BallotNum, w: Value) {
    |NonBlockers(s, c, w)| >= Quorum(|s.acceptors|)
  }

  /* ----- The invariant ----- */

  /** st's vote is none (VBal zero, no value) or one a recorded in votes. */
  predicate HoldsVote(s: System, a: nat, st: Acceptor) {
    || (st.vBal == Zero && st.val == None)
    || (st.val.Some? && Vote(a, st.vBal, st.val.value) in s.votes)
  }

  predicate AcceptorsOk(s: System) {
    && (forall a :: 0 <= a < |s.acceptors| ==> Wf(s.acceptors[a]) && HoldsVote(s, a, s.acceptors[a]))
    && (forall v :: v in s.votes ==> v.acc < |s.acceptors| && s.acceptors[v.acc].vBal.GE(v.bal))
  }

  predicate VotesOk(s: System) {
    && (forall b :: b in s.proposals ==> b.GT(Zero))
    && (forall v :: v in s.votes ==> v.bal in s.proposals && s.proposals[v.bal] == v.val)
  }

  /**
   * A counted promise binds its acceptor: its promise stays at least bal,
   * and every vote it ever casts below bal is at most the reply's VBal.
   */
  predicate PromisesOk(s: System) {
    forall p :: p in s.promises ==>
      && p.acc < |s.acceptors|
      && Wf(p.reply)
      && HoldsVote(s, p.acc, p.reply)
      && (p.bal.GE(p.reply.lastBal) ==>
            && s.acceptors[p.acc].lastBal.GE(p.bal)
            && forall v :: v in s.votes && v.acc == p.acc && p.bal.GT(v.bal) ==> p.reply.vBal.GE(v.bal))
  }

  /** A counted Accept reply means the acceptor voted the ballot's value. */
  predicate AcksOk(s: System) {
    forall k :: k in s.acks ==>
      k.bal.GE(k.reply.lastBal) ==> k.bal in s.proposals && Vote(k.acc, k.bal, s.proposals[k.bal]) in s.votes
  }

  /** No proposal contradicts a value that is choosable at a lower ballot. */
  ghost predicate ProposalsSafe(s: System) {
    forall b, c, w :: b in s.proposals && b.GT(c) && Choosable(s, c, w) ==> s.proposals[b] == w
  }

  ghost predicate Inv(s: System) {
    AcceptorsOk(s) && VotesOk(s) && PromisesOk(s) && AcksOk(s) && ProposalsSafe(s)
  }

  /* ----- Quorum facts ----- */

  lemma ChosenIsChoosable(s: System, c: BallotNum, w: Value)
    requires Inv(s) && Chosen(s, c, w)
    ensures Choosable(s, c, w)
  {
    forall a | a in Voters(s, c, w)
      ensures a in NonBlockers(s, c, w)
    {
      var v :| v in s.votes && v.bal == c && v.val == w && v.acc == a;
      assert v == Vote(a, c, w);
    }
    SubsetSize(Voters(s, c, w), NonBlockers(s, c, w));
  }

  /** A chosen value is the proposal of its ballot. */
  lemma ChosenIsProposed(s: System, c: BallotNum, w: Value)
    requires Inv(s) && Chosen(s, c, w)
    ensures c in s.proposals && s.proposals[c] == w
  {
    assert Voters(s, c, w) != {};
    var a :| a in Voters(s, c, w);
    var v :| v in s.votes && v.bal == c && v.val == w && v.acc == a;
  }

  /**
   * If every acceptor counted by a successful Phase 1 at b (up to the reply
   * that completed the quorum) has not voted (c, w), for c below b, then
   * (c, w) is not choosable: all those acceptors promised above c.
   */
  lemma QuorumBlocks(s: System, b: BallotNum, ps: seq<Promise>, k: nat, c: BallotNum, w: Value)
    requires PromisesOk(s) && ValidPromises(s, b, ps) && b.GT(c)
    requires QuorumAt(b, PromiseBals(Snaps(ps)), Quorum(|s.acceptors|), k)
    requires forall i :: 0 <= i <= k && b.GE(ps[i].reply.lastBal) ==> Vote(ps[i].acc, c, w) !in s.votes
    ensures !Choosable(s, c, w)
  {
    var n := |s.acceptors|;
    var bs := PromiseBals(Snaps(ps))[..k + 1];
    var from := PromiseAccs(ps)[..k + 1];
    CountedAccsSize(b, bs, from);
    var q := CountedAccs(b, bs, from);
    forall a | a in q
      ensures a in Range(n) && a !in NonBlockers(s, c, w)
    {
      var i :| 0 <= i < |bs| && b.GE(bs[i]) && from[i] == a;
      assert ps[i] in s.promises;
    }
    forall a | a in NonBlockers(s, c, w)
      ensures a in Range(n)
    {
    }
    OutsideQuorumIsSmall(NonBlockers(s, c, w), q, n);
  }

  /**
   * Every vote cast below b by an acceptor counted in the first k+1 replies
   * is at most m.
   */
  ghost predicate CountedVotesAtMost(s: System, b: BallotNum, ps: seq<Promise>, k: nat, m: BallotNum) {
    forall i, v ::
      (0 <= i <= k && i < |ps| && b.GE(ps[i].reply.lastBal) && v in s.votes && v.acc == ps[i].acc && b.GT(v.bal))
      ==> m.GE(v.bal)
  }

  /** The highest counted VBal bounds every counted acceptor's votes below b. */
  lemma MaxVoteBoundsVotes(s: System, b: BallotNum, ps: seq<Promise>, k: nat, j: nat)
    requires PromisesOk(s) && ValidPromises(s, b, ps) && k < |ps|
    requires IsMaxVote(b, Snaps(ps)[..k + 1], j)
    ensures CountedVotesAtMost(s, b, ps, k, ps[j].reply.vBal)
  {
    var pre := Snaps(ps)[..k + 1];
    forall i, v | 0 <= i <= k && b.GE(ps[i].reply.lastBal) && v in s.votes && v.acc == ps[i].acc && b.GT(v.bal)
      ensures ps[j].reply.vBal.GE(v.bal)
    {
      assert ps[i] in s.promises && pre[i] == ps[i].reply && pre[j] == ps[j].reply;
      GETransitive(ps[j].reply.vBal, ps[i].reply.vBal, v.bal);
    }
  }

  /**
   * If the counted acceptors voted at most m below b, and (c, w) is above m
   * or was never voted, the counted acceptors block (c, w).
   */
  lemma BoundBlocks(s: System, b: BallotNum, ps: seq<Promise>, k: nat, m: BallotNum, c: BallotNum, w: Value)
    requires PromisesOk(s) && ValidPromises(s, b, ps) && b.GT(c)
    requires QuorumAt(b, PromiseBals(Snaps(ps)), Quorum(|s.acceptors|), k)
    requires CountedVotesAtMost(s, b, ps, k, m)
    requires !m.GE(c) || forall a :: Vote(a, c, w) !in s.votes
    ensures !Choosable(s, c, w)
  {
    forall i | 0 <= i <= k && b.GE(ps[i].reply.lastBal)
      ensures Vote(ps[i].acc, c, w) !in s.votes
    {
    }
    QuorumBlocks(s, b, ps, k, c, w);
  }

  /**
   * A successful Phase 1 at b returns the value of a counted reply j that
   * holds the highest VBal among the replies up to the quorum-completing k.
   */
  lemma Phase1Witness(s: System, b: BallotNum, ps: seq<Promise>) returns (k: nat, j: nat)
    requires PromisesOk(s) && VotesOk(s) && ValidPromises(s, b, ps)
    requires Phase1Outcome(b, Snaps(ps), Quorum(|s.acceptors|)).Ok?
    ensures j <= k < |ps|
    ensures QuorumAt(b, PromiseBals(Snaps(ps)), Quorum(|s.acceptors|), k)
    ensures IsMaxVote(b, Snaps(ps)[..k + 1], j)
    ensures Phase1Outcome(b, Snaps(ps), Quorum(|s.acceptors|)).value == ps[j].reply.val
  {
    var quorum := Quorum(|s.acceptors|);
    var rs := Snaps(ps);
    var found := Phase1Outcome(b, rs, quorum).value;
    Phase1RecoversHighestVote(b, rs, quorum);
    k :| QuorumAt(b, PromiseBals(rs), quorum, k) && HighestVoteValue(b, rs[..k + 1], found);
    var pre := rs[..k + 1];
    // The reply completing the quorum is counted and holds a VBal of at least zero.
    assert ps[k] in s.promises && pre[k] == ps[k].reply;
    assert b.GE(pre[k].lastBal) && pre[k].vBal.GE(Zero);
    j :| IsMaxVote(b, pre, j) && found == pre[j].val;
  }

  /**
   * Phase 1 is safe: when it succeeds at b, for every (c, w) choosable below
   * b it finds exactly w. A read therefore returns the chosen value, and a
   * write adopts it instead of its own.
   */
  lemma Phase1FindsChoosable(s: System, b: BallotNum, ps: seq<Promise>, c: BallotNum, w: Value)
    requires Inv(s) && ValidPromises(s, b, ps)
    requires Phase1Outcome(b, Snaps(ps), Quorum(|s.acceptors|)).Ok?
    requires b.GT(c) && Choosable(s, c, w)
    ensures Phase1Outcome(b, Snaps(ps), Quorum(|s.acceptors|)).value == Some(w)
  {
    var k, j := Phase1Witness(s, b, ps);
    var r := ps[j].reply;
    var m := r.vBal;
    assert ps[j] in s.promises;
    MaxVoteBoundsVotes(s, b, ps, k, j);
    if r.val == None {
      assert m == Zero;
      BoundBlocks(s, b, ps, k, m, c, w);
    } else {
      assert Vote(ps[j].acc, m, r.val.value) in s.votes;
      if !m.GT(c) && !(m == c && r.val == Some(w)) {
        BoundBlocks(s, b, ps, k, m, c, w);
      }
    }
  }

  /** Phase 2 succeeding at b means the proposal of b is chosen. */
  lemma DecisionIsChosen(s: System, b: BallotNum, ks: seq<Ack>)
    requires AcksOk(s) && ValidAcks(s, b, ks)
    requires Phase2Outcome(b, AckReplies(ks), Quorum(|s.acceptors|)).Ok?
    ensures b in s.proposals && Chosen(s, b, s.proposals[b])
  {
    var quorum := Quorum(|s.acceptors|);
    var bs := AckBals(AckReplies(ks));
    Phase2Meaning(b, AckReplies(ks), quorum);
    CountedAccsSize(b, bs, AckAccs(ks));
    var q := CountedAccs(b, bs, AckAccs(ks));
    assert q != {};
    var a0 :| a0 in q;
    var i0 :| 0 <= i0 < |bs| && b.GE(bs[i0]) && AckAccs(ks)[i0] == a0;
    assert ks[i0] in s.acks;
    var w := s.proposals[b];
    forall a | a in q
      ensures a in Voters(s, b, w)
    {
      var i :| 0 <= i < |bs| && b.GE(bs[i]) && AckAccs(ks)[i] == a;
      assert ks[i] in s.acks;
      assert Vote(a, b, w) in s.votes;
    }
    SubsetSize(q, Voters(s, b, w));
  }

  /** At most one value is chosen. */
  lemma Agreement(s: System, c1: BallotNum, w1: Value, c2: BallotNum, w2: Value)
    requires Inv(s) && Chosen(s, c1, w1) && Chosen(s, c2, w2)
    ensures w1 == w2
  {
    ChosenIsProposed(s, c1, w1);
    ChosenIsProposed(s, c2, w2);
    if c1.GT(c2) {
      ChosenIsChoosable(s, c2, w2);
    } else if c2.GT(c1) {
      ChosenIsChoosable(s, c1, w1);
    } else {
      GEAntisymmetric(c1, c2);
    }
  }

  /**
   * A Phase 1 at a ballot above a chosen value finds that value: a read
   * returns it and a write proposes it.
   */
  lemma ReadFindsChosen(s: System, b: BallotNum, ps: seq<Promise>, c: BallotNum, w: Value)
    requires Inv(s) && ValidPromises(s, b, ps)
    requires Phase1Outcome(b, Snaps(ps), Quorum(|s.acceptors|)).Ok?
    requires Chosen(s, c, w) && b.GT(c)
    ensures Phase1Outcome(b, Snaps(ps), Quorum(|s.acceptors|)).value == Some(w)
  {
    ChosenIsChoosable(s, c, w);
    Phase1FindsChoosable(s, b, ps, c, w);
  }

  /** The current states of the acceptors accs, in order. */
  function Current(s: System, accs: seq<nat>): (rs: seq<Acceptor>)
    requires forall i :: 0 <= i < |accs| ==> accs[i] < |s.acceptors|
    ensures |rs| == |accs| && forall i :: 0 <= i < |accs| ==> rs[i] == s.acceptors[accs[i]]
  {
    seq(|accs|, i requires 0 <= i < |accs| => s.acceptors[accs[i]])
  }

  /**
   * Among the current states of distinct acceptors counted up to the
   * quorum-completing reply k, one belongs to a voter of a chosen (c, w)
   * and so holds a VBal of at least c.
   */
  lemma CountedMeetsVoters(s: System, b: BallotNum, accs: seq<nat>, k: nat, c: BallotNum, w: Value)
    returns (i: nat)
    requires AcceptorsOk(s) && Chosen(s, c, w)
    requires forall i :: 0 <= i < |accs| ==> accs[i] < |s.acceptors|
    requires forall i, j :: 0 <= i < j < |accs| ==> accs[i] != accs[j]
    requires QuorumAt(b, PromiseBals(Current(s, accs)), Quorum(|s.acceptors|), k)
    ensures i <= k && b.GE(Current(s, accs)[i].lastBal) && Current(s, accs)[i].vBal.GE(c)
  {
    var n := |s.acceptors|;
    var bs, from := PromiseBals(Current(s, accs))[..k + 1], accs[..k + 1];
    CountedAccsSize(b, bs, from);
    var q := CountedAccs(b, bs, from);
    forall a | a in q
      ensures a in Range(n)
    {
    }
    forall a | a in Voters(s, c, w)
      ensures a in Range(n)
    {
    }
    QuorumsIntersect(q, Voters(s, c, w), n);
    var a :| a in q && a in Voters(s, c, w);
    i :| 0 <= i < |bs| && b.GE(bs[i]) && from[i] == a;
    var v :| v in s.votes && v.bal == c && v.val == w && v.acc == a;
  }

  /**
   * A Phase 1 whose replies are the current states of distinct acceptors
   * (no other call interleaves with its Prepare fan-out) finds a chosen
   * value at any ballot that lets it succeed, the ballot of the choice
   * included: a read after a finished write returns the written value.
   */
  lemma CurrentReadFindsChosen(s: System, b: BallotNum, accs: seq<nat>, c: BallotNum, w: Value)
    requires Inv(s) && Chosen(s, c, w)
    requires forall i :: 0 <= i < |accs| ==> accs[i] < |s.acceptors|
    requires forall i, j :: 0 <= i < j < |accs| ==> accs[i] != accs[j]
    requires Phase1Outcome(b, Current(s, accs), Quorum(|s.acceptors|)).Ok?
    ensures Phase1Outcome(b, Current(s, accs), Quorum(|s.acceptors|)).value == Some(w)
  {
    var rs := Current(s, accs);
    var found := Phase1Outcome(b, rs, Quorum(|s.acceptors|)).value;
    Phase1RecoversHighestVote(b, rs, Quorum(|s.acceptors|));
    var k :| QuorumAt(b, PromiseBals(rs), Quorum(|s.acceptors|), k) && HighestVoteValue(b, rs[..k + 1], found);
    var pre := rs[..k + 1];
    // A counted acceptor holds a VBal of at least c, so the highest counted VBal m does too.
    var i := CountedMeetsVoters(s, b, accs, k, c, w);
    ChosenIsProposed(s, c, w);
    assert pre[i] == rs[i] && c.GT(Zero);
    GETransitive(pre[i].vBal, c, Zero);
    var j :| IsMaxVote(b, pre, j) && found == pre[j].val;
    var m := pre[j].vBal;
    GETransitive(m, pre[i].vBal, c);
    GTIsStrictGE(c, Zero);
    // m is above zero, so it is the ballot of a vote, whose value is the proposal of m.
    assert pre[j] == s.acceptors[accs[j]] && m != Zero;
    assert Vote(accs[j], m, pre[j].val.value) in s.votes;
    GTIsStrictGE(m, c);
    if m != c {
      ChosenIsChoosable(s, c, w);
    }
  }

  /* ----- The invariant is inductive ----- */

  lemma InitInv(n: nat)
    ensures Inv(Init(n))
  {
    forall c, w
      ensures NonBlockers(Init(n), c, w) <= Range(n)
    {
    }
  }

  /**
   * A step that only raises promises and adds votes an acceptor was allowed
   * to cast leaves fewer choosable values.
   */
  lemma ChoosableShrinks(s: System, s': System, c: BallotNum, w: Value)
    requires |s'.acceptors| == |s.acceptors|
    requires forall a :: 0 <= a < |s.acceptors| ==> s'.acceptors[a].lastBal.GE(s.acceptors[a].lastBal)
    requires s.votes <= s'.votes
    requires forall v :: v in s'.votes && v !in s.votes ==>
      v.acc < |s.acceptors| && !s.acceptors[v.acc].lastBal.GT(v.bal)
    requires Choosable(s', c, w)
    ensures Choosable(s, c, w)
  {
    forall a | a in NonBlockers(s', c, w)
      ensures a in NonBlockers(s, c, w)
    {
    }
    SubsetSize(NonBlockers(s', c, w), NonBlockers(s, c, w));
  }

  lemma PrepareKeepsInv(s: System, a: nat, b: BallotNum)
    requires Inv(s) && Enabled(s, PrepareStep(a, b))
    ensures Inv(Apply(s, PrepareStep(a, b)))
  {
    var s' := Apply(s, PrepareStep(a, b));
    forall b', c, w | b' in s'.proposals && b'.GT(c) && Choosable(s', c, w)
      ensures s'.proposals[b'] == w
    {
      ChoosableShrinks(s, s', c, w);
    }
  }

  lemma AcceptKeepsInv(s: System, a: nat, b: BallotNum)
    requires Inv(s) && Enabled(s, AcceptStep(a, b))
    ensures Inv(Apply(s, AcceptStep(a, b)))
  {
    var s' := Apply(s, AcceptStep(a, b));
    forall b', c, w | b' in s'.proposals && b'.GT(c) && Choosable(s', c, w)
      ensures s'.proposals[b'] == w
    {
      ChoosableShrinks(s, s', c, w);
    }
  }

  lemma ProposeKeepsInv(s: System, b: BallotNum, ps: seq<Promise>, own: Option<Value>)
    requires Inv(s) && Enabled(s, ProposeStep(b, ps, own))
    ensures Inv(Apply(s, ProposeStep(b, ps, own)))
  {
    var s' := Apply(s, ProposeStep(b, ps, own));
    forall c, w
      ensures NonBlockers(s', c, w) == NonBlockers(s, c, w)
    {
    }
    forall b', c, w | b' in s'.proposals && b'.GT(c) && Choosable(s', c, w)
      ensures s'.proposals[b'] == w
    {
      assert Choosable(s, c, w);
      if b' == b && b !in s.proposals {
        Phase1FindsChoosable(s, b, ps, c, w);
      }
    }
  }

  lemma {:induction false} ExecKeepsInv(s: System, steps: seq<Step>)
    requires Inv(s)
    ensures Inv(Exec(s, steps))
    decreases |steps|
  {
    if steps != [] {
      var step := steps[0];
      if Enabled(s, step) {
        match step
        case PrepareStep(a, b) => PrepareKeepsInv(s, a, b);
        case AcceptStep(a, b) => AcceptKeepsInv(s, a, b);
        case ProposeStep(b, ps, own) => ProposeKeepsInv(s, b, ps, own);
      }
      ExecKeepsInv(Next(s, step), steps[1..]);
    }
  }

  /** Along any execution from the initial state, at most one value is chosen. */
  lemma Safety(n: nat, steps: seq<Step>, c1: BallotNum, w1: Value, c2: BallotNum, w2: Value)
    requires Chosen(Exec(Init(n), steps), c1, w1) && Chosen(Exec(Init(n), steps), c2, w2)
    ensures w1 == w2
  {
    InitInv(n);
    ExecKeepsInv(Init(n), steps);
    Agreement(Exec(Init(n), steps), c1, w1, c2, w2);
  }

  /**
   * Two proposers whose Phase 2 succeeded, on the replies of any execution,
   * return the same value.
   */
  lemma DecisionsAgree(n: nat, steps: seq<Step>, b1: BallotNum, ks1: seq<Ack>, b2: BallotNum, ks2: seq<Ack>)
    requires var s := Exec(Init(n), steps);
      && ValidAcks(s, b1, ks1) && Phase2Outcome(b1, AckReplies(ks1), Quorum(n)).Ok?
      && ValidAcks(s, b2, ks2) && Phase2Outcome(b2, AckReplies(ks2), Quorum(n)).Ok?
    ensures var s := Exec(Init(n), steps);
      b1 in s.proposals && b2 in s.proposals && s.proposals[b1] == s.proposals[b2]
  {
    var s := Exec(Init(n), steps);
    InitInv(n);
    ExecKeepsInv(Init(n), steps);
    ExecKeepsSize(Init(n), steps);
    DecisionIsChosen(s, b1, ks1);
    DecisionIsChosen(s, b2, ks2);
    Agreement(s, b1, s.proposals[b1], b2, s.proposals[b2]);
  }

  /** Prepare(b) handled by each of the acceptors accs, in order. */
  function Prepares(accs: seq<nat>, b: BallotNum): (steps: seq<Step>)
    ensures |steps| == |accs| && forall i :: 0 <= i < |accs| ==> steps[i] == PrepareStep(accs[i], b)
  {
    seq(|accs|, i requires 0 <= i < |accs| => PrepareStep(accs[i], b))
  }

  /** Replies to Prepare(b) from the acceptors accs, each carrying that acceptor's state in s. */
  function CurrentPromises(s: System, b: BallotNum, accs: seq<nat>): (ps: seq<Promise>)
    requires forall i :: 0 <= i < |accs| ==> accs[i] < |s.acceptors|
    ensures |ps| == |accs| && forall i :: 0 <= i < |accs| ==> ps[i] == Promise(b, accs[i], s.acceptors[accs[i]])
  {
    seq(|accs|, i requires 0 <= i < |accs| => Promise(b, accs[i], s.acceptors[accs[i]]))
  }

  /**
   * When distinct acceptors handle Prepare(b) one after another, each
   * reply is the state the acceptor had before the first of them; no vote
   * and no acceptor is added or lost.
   */
  lemma {:induction false} PreparesReplyCurrent(s: System, b: BallotNum, accs: seq<nat>)
    requires forall i :: 0 <= i < |accs| ==> accs[i] < |s.acceptors|
    requires forall i, j :: 0 <= i < j < |accs| ==> accs[i] != accs[j]
    ensures var s' := Exec(s, Prepares(accs, b));
      && |s'.acceptors| == |s.acceptors| && s'.votes == s.votes && s.promises <= s'.promises
      && forall i :: 0 <= i < |accs| ==> Promise(b, accs[i], s.acceptors[accs[i]]) in s'.promises
    decreases |accs|
  {
    if accs != [] {
      var a, rest := accs[0], accs[1..];
      var s1 := Next(s, PrepareStep(a, b));
      assert Prepares(accs, b)[0] == PrepareStep(a, b) && Prepares(accs, b)[1..] == Prepares(rest, b);
      assert s1.acceptors == s.acceptors[a := PrepareNext(s.acceptors[a], b)];
      PreparesReplyCurrent(s1, b, rest);
      forall i | 0 < i < |accs|
        ensures Promise(b, accs[i], s.acceptors[accs[i]]) in Exec(s, Prepares(accs, b)).promises
      {
        assert rest[i - 1] == accs[i] && accs[i] != a;
      }
    }
  }

  /**
   * A read after a finished write: when distinct acceptors handle the
   * reader's Prepare(b) one after another with no other step in between,
   * their replies are valid promises, the chosen value stays chosen, and
   * a Phase 1 that succeeds on those replies returns it, whatever b is
   * relative to the ballot of the choice.
   */
  lemma ReadAfterWrite(s: System, b: BallotNum, accs: seq<nat>, c: BallotNum, w: Value)
    requires Inv(s) && Chosen(s, c, w)
    requires forall i :: 0 <= i < |accs| ==> accs[i] < |s.acceptors|
    requires forall i, j :: 0 <= i < j < |accs| ==> accs[i] != accs[j]
    requires Phase1Outcome(b, Snaps(CurrentPromises(s, b, accs)), Quorum(|s.acceptors|)).Ok?
    ensures var s' := Exec(s, Prepares(accs, b));
      ValidPromises(s', b, CurrentPromises(s, b, accs)) && Chosen(s', c, w)
    ensures Phase1Outcome(b, Snaps(CurrentPromises(s, b, accs)), Quorum(|s.acceptors|)).value == Some(w)
  {
    var s' := Exec(s, Prepares(accs, b));
    PreparesReplyCurrent(s, b, accs);
    assert Voters(s', c, w) == Voters(s, c, w);
    assert Snaps(CurrentPromises(s, b, accs)) == Current(s, accs);
    CurrentReadFindsChosen(s, b, accs, c, w);
  }

  /** Steps never change the number of acceptors and never erase a vote. */
  lemma {:induction false} ExecKeepsSize(s: System, steps: seq<Step>)
    ensures |Exec(s, steps).acceptors| == |s.acceptors|
    ensures s.votes <= Exec(s, steps).votes
    decreases |steps|
  {
    if steps != [] {
      ExecKeepsSize(Next(s, steps[0]), steps[1..]);
    }
  }

  lemma {:induction false} ExecAppend(s: System, steps1: seq<Step>, steps2: seq<Step>)
    ensures Exec(s, steps1 + steps2) == Exec(Exec(s, steps1), steps2)
    decreases |steps1|
  {
    if steps1 == [] {
      assert steps1 + steps2 == steps2;
    } else {
      assert (steps1 + steps2)[0] == steps1[0] && (steps1 + steps2)[1..] == steps1[1..] + steps2;
      ExecAppend(Next(s, steps1[0]), steps1[1..], steps2);
    }
  }

  /** A chosen value stays chosen whatever happens next. */
  lemma ChosenStaysChosen(s: System, steps: seq<Step>, c: BallotNum, w: Value)
    requires Chosen(s, c, w)
    ensures Chosen(Exec(s, steps), c, w)
  {
    ExecKeepsSize(s, steps);
    var s' := Exec(s, steps);
    forall a | a in Voters(s, c, w)
      ensures a in Voters(s', c, w)
    {
      var v :| v in s.votes && v.bal == c && v.val == w && v.acc == a;
      assert v in s'.votes;
    }
    SubsetSize(Voters(s, c, w), Voters(s', c, w));
  }

  /** A value chosen at some point and a value chosen later are the same. */
  lemma SafetyAcrossTime(n: nat, steps1: seq<Step>, steps2: seq<Step>,
                         c1: BallotNum, w1: Value, c2: BallotNum, w2: Value)
    requires Chosen(Exec(Init(n), steps1), c1, w1)
    requires Chosen(Exec(Init(n), steps1 + steps2), c2, w2)
    ensures w1 == w2
  {
    ExecAppend(Init(n), steps1, steps2);
    ChosenStaysChosen(Exec(Init(n), steps1), steps2, c1, w1);
    Safety(n, steps1 + steps2, c1, w1, c2, w2);
  }
}
