/**
 * The two phases of the proposer in core/proposer.go, each over the replies
 * that came back (a failed or missing reply is simply absent), the quorum
 * size, and the ballot a proposer retries with.
 *
 * Each phase is a method with the loop of the source, proved equal to a scan
 * function; the lemmas below say what the scan computes in terms of left
 * folds over the replies seen so far (Counted, HigherBal, MaxVoted).
 */
module Phases {
  import opened Wrappers
  import opened Ballot
  import opened Api

  /** A phase either succeeds with its result or reports the highest ballot seen. */
  datatype PhaseResult<T> = Ok(value: T) | NoEnoughQuorum(higherBal: BallotNum)

  /** The quorum of an acceptor set of n members: the smallest strict majority. */
  function Quorum(n: nat): (q: nat)
    ensures n < 2 * q && 2 * (q - 1) <= n
  {
    n / 2 + 1
  }

  /** The acceptor indices 0 .. n-1. */
  function Range(n: nat): (r: set<nat>)
    ensures forall i :: i in r <==> 0 <= i < n
  {
    if n == 0 then {} else Range(n - 1) + {n - 1}
  }

  lemma {:induction false} RangeSize(n: nat)
    ensures |Range(n)| == n
  {
    if n > 0 {
      RangeSize(n - 1);
    }
  }

  lemma SubsetSize(a: set<nat>, b: set<nat>)
    requires a <= b
    ensures |a| <= |b|
  {
    assert b == a + (b - a);
  }

  /** Two quorums of the same acceptor set always share an acceptor. */
  lemma QuorumsIntersect(s1: set<nat>, s2: set<nat>, n: nat)
    requires s1 <= Range(n) && s2 <= Range(n)
    requires |s1| >= Quorum(n) && |s2| >= Quorum(n)
    ensures s1 * s2 != {}
  {
    if s1 * s2 == {} {
      assert |s1 + s2| == |s1| + |s2|;
      SubsetSize(s1 + s2, Range(n));
      RangeSize(n);
    }
  }

  /** A set that avoids a quorum of the acceptors is not itself a quorum. */
  lemma OutsideQuorumIsSmall(s: set<nat>, q: set<nat>, n: nat)
    requires s <= Range(n) && q <= Range(n)
    requires |q| >= Quorum(n) && s * q == {}
    ensures |s| < Quorum(n)
  {
    if |s| >= Quorum(n) {
      QuorumsIntersect(s, q, n);
    }
  }

  /** The LastBal of every Prepare reply, in order. */
  function PromiseBals(rs: seq<Acceptor>): (bs: seq<BallotNum>)
    ensures |bs| == |rs| && forall i :: 0 <= i < |rs| ==> bs[i] == rs[i].lastBal
  {
    seq(|rs|, i requires 0 <= i < |rs| => rs[i].lastBal)
  }

  /** The LastBal of every Accept reply, in order. */
  function AckBals(rs: seq<AcceptReply>): (bs: seq<BallotNum>)
    ensures |bs| == |rs| && forall i :: 0 <= i < |rs| ==> bs[i] == rs[i].lastBal
  {
    seq(|rs|, i requires 0 <= i < |rs| => rs[i].lastBal)
  }

  /** How many replies do not reject bal: those whose LastBal bal is at least. */
  function Counted(bal: BallotNum, bs: seq<BallotNum>): nat {
    if bs == [] then 0
    else Counted(bal, bs[..|bs| - 1]) + (if bal.GE(bs[|bs| - 1]) then 1 else 0)
  }

  /** The highest ballot seen: bal, raised by every rejecting reply's LastBal. */
  function HigherBal(bal: BallotNum, bs: seq<BallotNum>): BallotNum {
    if bs == [] then bal
    else
      var h := HigherBal(bal, bs[..|bs| - 1]);
      var b := bs[|bs| - 1];
      if !bal.GE(b) && b.GE(h) then b else h
  }

  /** The initial "highest vote" of Phase 1: VBal zero, no value. */
  const NoVote := Acceptor(Zero, None, Zero)

  /** The reply Phase 1 keeps as the highest vote after seeing rs. */
  function MaxVoted(bal: BallotNum, rs: seq<Acceptor>): Acceptor {
    if rs == [] then NoVote
    else
      var m := MaxVoted(bal, rs[..|rs| - 1]);
      var r := rs[|rs| - 1];
      if bal.GE(r.lastBal) && r.vBal.GE(m.vBal) then r else m
  }

  /** Reply k is the one whose counting brings the count to the quorum q. */
  predicate QuorumAt(bal: BallotNum, bs: seq<BallotNum>, q: int, k: int) {
    0 <= k < |bs| && bal.GE(bs[k]) && Counted(bal, bs[..k + 1]) == q
  }

  /**
   * Reply j of the counted replies in rs holds the highest VBal (at least
   * zero), and no later counted reply holds the same VBal.
   */
  ghost predicate IsMaxVote(bal: BallotNum, rs: seq<Acceptor>, j: int) {
    && 0 <= j < |rs|
    && bal.GE(rs[j].lastBal)
    && rs[j].vBal.GE(Zero)
    && (forall i :: 0 <= i < |rs| && bal.GE(rs[i].lastBal) ==> rs[j].vBal.GE(rs[i].vBal))
    && (forall i :: j < i < |rs| && bal.GE(rs[i].lastBal) ==> rs[i].vBal != rs[j].vBal)
  }

  lemma CountedStep(bal: BallotNum, bs: seq<BallotNum>, i: nat)
    requires i < |bs|
    ensures Counted(bal, bs[..i + 1]) == Counted(bal, bs[..i]) + (if bal.GE(bs[i]) then 1 else 0)
    ensures HigherBal(bal, bs[..i + 1]) ==
      (if !bal.GE(bs[i]) && bs[i].GE(HigherBal(bal, bs[..i])) then bs[i] else HigherBal(bal, bs[..i]))
  {
    assert bs[..i + 1][..i] == bs[..i];
  }

  lemma MaxVotedStep(bal: BallotNum, rs: seq<Acceptor>, i: nat)
    requires i < |rs|
    ensures MaxVoted(bal, rs[..i + 1]) ==
      (if bal.GE(rs[i].lastBal) && rs[i].vBal.GE(MaxVoted(bal, rs[..i]).vBal) then rs[i] else MaxVoted(bal, rs[..i]))
  {
    assert rs[..i + 1][..i] == rs[..i];
  }

  /** Counting more replies never lowers the count. */
  lemma {:induction false} CountedGrows(bal: BallotNum, bs: seq<BallotNum>, i: nat)
    requires i <= |bs|
    ensures Counted(bal, bs[..i]) <= Counted(bal, bs)
    decreases |bs| - i
  {
    if i < |bs| {
      CountedStep(bal, bs, i);
      CountedGrows(bal, bs, i + 1);
    } else {
      assert bs[..i] == bs;
    }
  }

  /**
   * The highest ballot seen is at least bal and at least every rejecting
   * LastBal, and it is bal or one of those.
   */
  lemma {:induction false} HigherBalBounds(bal: BallotNum, bs: seq<BallotNum>)
    ensures HigherBal(bal, bs).GE(bal)
    ensures forall i :: 0 <= i < |bs| && !bal.GE(bs[i]) ==> HigherBal(bal, bs).GE(bs[i])
    ensures HigherBal(bal, bs) == bal || exists i :: 0 <= i < |bs| && !bal.GE(bs[i]) && HigherBal(bal, bs) == bs[i]
  {
    if bs != [] {
      var p := bs[..|bs| - 1];
      HigherBalBounds(bal, p);
      var h := HigherBal(bal, p);
      var b := bs[|bs| - 1];
      forall i | 0 <= i < |bs| && !bal.GE(bs[i])
        ensures HigherBal(bal, bs).GE(bs[i])
      {
        if i < |bs| - 1 {
          assert bs[i] == p[i];
          if !bal.GE(b) && b.GE(h) {
            GETransitive(b, h, bs[i]);
          }
        }
      }
      if HigherBal(bal, bs) != bal {
        if !bal.GE(b) && b.GE(h) {
          assert HigherBal(bal, bs) == bs[|bs| - 1];
        } else {
          var i :| 0 <= i < |p| && !bal.GE(p[i]) && h == p[i];
          assert bs[i] == p[i];
        }
      }
    }
  }

  /**
   * The highest vote Phase 1 keeps is a counted reply with the highest VBal,
   * later replies winning ties; it stays the initial no-vote only when no
   * counted reply has a VBal of at least zero.
   */
  lemma {:induction false} MaxVotedIsMax(bal: BallotNum, rs: seq<Acceptor>)
    ensures
      || (exists j :: IsMaxVote(bal, rs, j) && MaxVoted(bal, rs) == rs[j])
      || (MaxVoted(bal, rs) == NoVote &&
          forall i :: 0 <= i < |rs| && bal.GE(rs[i].lastBal) ==> !rs[i].vBal.GE(Zero))
  {
    if rs != [] {
      var n := |rs| - 1;
      var p := rs[..n];
      MaxVotedIsMax(bal, p);
      var m := MaxVoted(bal, p);
      var r := rs[n];
      assert MaxVoted(bal, rs) == if bal.GE(r.lastBal) && r.vBal.GE(m.vBal) then r else m;
      assert forall i :: 0 <= i < n ==> rs[i] == p[i];
      if bal.GE(r.lastBal) && r.vBal.GE(m.vBal) {
        if exists j :: IsMaxVote(bal, p, j) && m == p[j] {
          var j :| IsMaxVote(bal, p, j) && m == p[j];
          LastBecomesMax(bal, rs, m.vBal);
        } else {
          LastBecomesMax(bal, rs, Zero);
        }
        assert IsMaxVote(bal, rs, n) && MaxVoted(bal, rs) == rs[n];
      } else if exists j :: IsMaxVote(bal, p, j) && m == p[j] {
        var j :| IsMaxVote(bal, p, j) && m == p[j];
        if bal.GE(r.lastBal) {
          GETotal(r.vBal, m.vBal);
        }
        MaxStays(bal, rs, j);
        assert IsMaxVote(bal, rs, j) && MaxVoted(bal, rs) == rs[j];
      } else {
        assert MaxVoted(bal, rs) == NoVote;
        forall i | 0 <= i < |rs| && bal.GE(rs[i].lastBal)
          ensures !rs[i].vBal.GE(Zero)
        {
          if i < n {
            assert rs[i] == p[i];
          }
        }
      }
    }
  }

  /**
   * A counted last reply whose VBal is at least some bound m (itself at
   * least zero) that is GE every earlier counted VBal becomes the maximum.
   */
  lemma LastBecomesMax(bal: BallotNum, rs: seq<Acceptor>, m: BallotNum)
    requires rs != [] && bal.GE(rs[|rs| - 1].lastBal) && rs[|rs| - 1].vBal.GE(m) && m.GE(Zero)
    requires forall i :: 0 <= i < |rs| - 1 && bal.GE(rs[i].lastBal) ==> m.GE(rs[i].vBal) || !rs[i].vBal.GE(Zero)
    ensures IsMaxVote(bal, rs, |rs| - 1)
  {
  }

  /**
   * The maximum j of the earlier replies stays the maximum when the last
   * reply is not counted or holds a strictly lower VBal.
   */
  lemma MaxStays(bal: BallotNum, rs: seq<Acceptor>, j: nat)
    requires rs != [] && IsMaxVote(bal, rs[..|rs| - 1], j)
    requires var r := rs[|rs| - 1]; !bal.GE(r.lastBal) || (rs[j].vBal.GE(r.vBal) && r.vBal != rs[j].vBal)
    ensures IsMaxVote(bal, rs, j)
  {
    var p := rs[..|rs| - 1];
    assert forall i :: 0 <= i < |p| ==> rs[i] == p[i];
  }

  /** The counted acceptors: from[k] names the acceptor that sent reply k. */
  function CountedAccs(bal: BallotNum, bs: seq<BallotNum>, from: seq<nat>): set<nat>
    requires |from| == |bs|
  {
    if bs == [] then {}
    else
      var n := |bs| - 1;
      CountedAccs(bal, bs[..n], from[..n]) + (if bal.GE(bs[n]) then {from[n]} else {})
  }

  /** Every acceptor that sent a counted reply is a counted acceptor. */
  lemma {:induction false} CountedAccsHas(bal: BallotNum, bs: seq<BallotNum>, from: seq<nat>)
    requires |from| == |bs|
    ensures forall k :: 0 <= k < |bs| && bal.GE(bs[k]) ==> from[k] in CountedAccs(bal, bs, from)
  {
    if bs != [] {
      var n := |bs| - 1;
      var bs', from' := bs[..n], from[..n];
      CountedAccsHas(bal, bs', from');
      forall k | 0 <= k < n && bal.GE(bs[k])
        ensures from[k] in CountedAccs(bal, bs, from)
      {
        assert bs'[k] == bs[k] && from'[k] == from[k];
      }
    }
  }

  /** Every counted acceptor sent a counted reply. */
  lemma {:induction false} CountedAccsOnly(bal: BallotNum, bs: seq<BallotNum>, from: seq<nat>)
    requires |from| == |bs|
    ensures forall a :: a in CountedAccs(bal, bs, from) ==> exists k :: 0 <= k < |bs| && bal.GE(bs[k]) && from[k] == a
  {
    if bs != [] {
      var n := |bs| - 1;
      var bs', from' := bs[..n], from[..n];
      CountedAccsOnly(bal, bs', from');
      forall a | a in CountedAccs(bal, bs', from')
        ensures exists k :: 0 <= k < |bs| && bal.GE(bs[k]) && from[k] == a
      {
        var k :| 0 <= k < n && bal.GE(bs'[k]) && from'[k] == a;
        assert bs[k] == bs'[k] && from[k] == from'[k];
      }
    }
  }

  /** An acceptor that sent none of the replies is not counted. */
  lemma {:induction false} NotCounted(bal: BallotNum, bs: seq<BallotNum>, from: seq<nat>, x: nat)
    requires |from| == |bs|
    requires forall k :: 0 <= k < |from| ==> from[k] != x
    ensures x !in CountedAccs(bal, bs, from)
  {
    if bs != [] {
      var n := |bs| - 1;
      NotCounted(bal, bs[..n], from[..n], x);
    }
  }

  /** Replies from distinct acceptors: there are Counted counted acceptors. */
  lemma {:induction false} CountedAccsCard(bal: BallotNum, bs: seq<BallotNum>, from: seq<nat>)
    requires |from| == |bs|
    requires forall k, l :: 0 <= k < l < |from| ==> from[k] != from[l]
    ensures |CountedAccs(bal, bs, from)| == Counted(bal, bs)
  {
    if bs != [] {
      var n := |bs| - 1;
      var bs', from' := bs[..n], from[..n];
      forall k, l | 0 <= k < l < n
        ensures from'[k] != from'[l]
      {
        assert from'[k] == from[k] && from'[l] == from[l];
      }
      CountedAccsCard(bal, bs', from');
      if bal.GE(bs[n]) {
        forall k | 0 <= k < n
          ensures from'[k] != from[n]
        {
          assert from'[k] == from[k];
        }
        NotCounted(bal, bs', from', from[n]);
      }
    }
  }

  /**
   * Replies from distinct acceptors: the counted acceptors are exactly those
   * that sent a counted reply, and there are Counted of them.
   */
  lemma CountedAccsSize(bal: BallotNum, bs: seq<BallotNum>, from: seq<nat>)
    requires |from| == |bs|
    requires forall k, l :: 0 <= k < l < |from| ==> from[k] != from[l]
    ensures |CountedAccs(bal, bs, from)| == Counted(bal, bs)
    ensures forall a :: a in CountedAccs(bal, bs, from) <==> exists k :: 0 <= k < |bs| && bal.GE(bs[k]) && from[k] == a
  {
    CountedAccsCard(bal, bs, from);
    CountedAccsHas(bal, bs, from);
    CountedAccsOnly(bal, bs, from);
  }

  /** Phase 1's loop, from reply i on, with its running count, highest ballot and highest vote. */
  function Phase1Scan(bal: BallotNum, rs: seq<Acceptor>, quorum: int, i: nat,
                      count: int, higherBal: BallotNum, maxVoted: Acceptor): PhaseResult<Option<Value>>
    requires i <= |rs|
    decreases |rs| - i
  {
    if i == |rs| then NoEnoughQuorum(higherBal)
    else
      var r := rs[i];
      if !bal.GE(r.lastBal) then
        Phase1Scan(bal, rs, quorum, i + 1, count, if r.lastBal.GE(higherBal) then r.lastBal else higherBal, maxVoted)
      else
        var m := if r.vBal.GE(maxVoted.vBal) then r else maxVoted;
        if count + 1 == quorum then Ok(m.val)
        else Phase1Scan(bal, rs, quorum, i + 1, count + 1, higherBal, m)
  }

  /** The outcome of Phase 1 for ballot bal over the Prepare replies rs. */
  function Phase1Outcome(bal: BallotNum, rs: seq<Acceptor>, quorum: int): PhaseResult<Option<Value>> {
    Phase1Scan(bal, rs, quorum, 0, 0, bal, NoVote)
  }

  lemma {:induction false} Phase1ScanMeaning(bal: BallotNum, rs: seq<Acceptor>, quorum: int, i: nat,
                                             count: int, higherBal: BallotNum, maxVoted: Acceptor)
    requires i <= |rs|
    requires count == Counted(bal, PromiseBals(rs)[..i])
    requires higherBal == HigherBal(bal, PromiseBals(rs)[..i])
    requires maxVoted == MaxVoted(bal, rs[..i])
    requires quorum < 1 || count < quorum
    ensures var r := Phase1Scan(bal, rs, quorum, i, count, higherBal, maxVoted);
      && (r.Ok? <==> 1 <= quorum <= Counted(bal, PromiseBals(rs)))
      && (r.NoEnoughQuorum? ==> r.higherBal == HigherBal(bal, PromiseBals(rs)))
      && (r.Ok? ==> exists k :: i <= k < |rs| && QuorumAt(bal, PromiseBals(rs), quorum, k) &&
                                r.value == MaxVoted(bal, rs[..k + 1]).val)
    decreases |rs| - i
  {
    var bs := PromiseBals(rs);
    if i == |rs| {
      assert bs[..i] == bs;
    } else {
      CountedStep(bal, bs, i);
      MaxVotedStep(bal, rs, i);
      var r := rs[i];
      if !bal.GE(r.lastBal) {
        Phase1ScanMeaning(bal, rs, quorum, i + 1, count,
                          if r.lastBal.GE(higherBal) then r.lastBal else higherBal, maxVoted);
      } else if count + 1 == quorum {
        CountedGrows(bal, bs, i + 1);
        assert QuorumAt(bal, bs, quorum, i);
      } else {
        var m := if r.vBal.GE(maxVoted.vBal) then r else maxVoted;
        Phase1ScanMeaning(bal, rs, quorum, i + 1, count + 1, higherBal, m);
      }
    }
  }

  /**
   * Phase 1 succeeds iff at least quorum (>= 1) replies are counted; on
   * success its value is the highest vote among the replies scanned up to
   * the one that completed the quorum; on failure it reports the highest
   * ballot seen.
   */
  lemma Phase1Meaning(bal: BallotNum, rs: seq<Acceptor>, quorum: int)
    ensures var r := Phase1Outcome(bal, rs, quorum);
      && (r.Ok? <==> 1 <= quorum <= Counted(bal, PromiseBals(rs)))
      && (r.NoEnoughQuorum? ==> r.higherBal == HigherBal(bal, PromiseBals(rs)))
      && (r.Ok? ==> exists k :: QuorumAt(bal, PromiseBals(rs), quorum, k) &&
                                r.value == MaxVoted(bal, rs[..k + 1]).val)
  {
    assert PromiseBals(rs)[..0] == [] && rs[..0] == [];
    Phase1ScanMeaning(bal, rs, quorum, 0, 0, bal, NoVote);
  }

  /**
   * v is the Val of the counted reply of pre with the highest VBal (at least
   * zero; later replies win ties), or nil when no counted reply holds a VBal
   * of at least zero.
   */
  ghost predicate HighestVoteValue(bal: BallotNum, pre: seq<Acceptor>, v: Option<Value>) {
    || (exists j :: IsMaxVote(bal, pre, j) && v == pre[j].val)
    || (v == None && forall i :: 0 <= i < |pre| && bal.GE(pre[i].lastBal) ==> !pre[i].vBal.GE(Zero))
  }

  /**
   * The value a successful Phase 1 returns is the highest vote among the
   * counted replies scanned up to the one that completed the quorum.
   */
  lemma Phase1RecoversHighestVote(bal: BallotNum, rs: seq<Acceptor>, quorum: int)
    requires Phase1Outcome(bal, rs, quorum).Ok?
    ensures exists k :: QuorumAt(bal, PromiseBals(rs), quorum, k) &&
                        HighestVoteValue(bal, rs[..k + 1], Phase1Outcome(bal, rs, quorum).value)
  {
    Phase1Meaning(bal, rs, quorum);
    var k :| QuorumAt(bal, PromiseBals(rs), quorum, k) &&
             Phase1Outcome(bal, rs, quorum).value == MaxVoted(bal, rs[..k + 1]).val;
    MaxVotedIsMax(bal, rs[..k + 1]);
  }

  /** A value Phase 1 recovers was carried by one of the replies. */
  lemma Phase1ValueFromReply(bal: BallotNum, rs: seq<Acceptor>, quorum: int)
    requires Phase1Outcome(bal, rs, quorum).Ok?
    ensures var v := Phase1Outcome(bal, rs, quorum).value;
      v == None || exists j :: 0 <= j < |rs| && rs[j].val == v
  {
    Phase1RecoversHighestVote(bal, rs, quorum);
    var k :| QuorumAt(bal, PromiseBals(rs), quorum, k) &&
             HighestVoteValue(bal, rs[..k + 1], Phase1Outcome(bal, rs, quorum).value);
    var pre := rs[..k + 1];
    if exists j :: IsMaxVote(bal, pre, j) && Phase1Outcome(bal, rs, quorum).value == pre[j].val {
      var j :| IsMaxVote(bal, pre, j) && Phase1Outcome(bal, rs, quorum).value == pre[j].val;
      assert pre[j] == rs[j];
    }
  }

  /**
   * Phase 1 as the source runs it: scan the replies, skip (and remember the
   * ballot of) every reply whose LastBal is above bal, keep the counted reply
   * with the highest VBal, and stop as soon as quorum replies are counted.
   */
  method Phase1(bal: BallotNum, replies: seq<Acceptor>, quorum: int) returns (r: PhaseResult<Option<Value>>)
    ensures r == Phase1Outcome(bal, replies, quorum)
    ensures r.Ok? <==> 1 <= quorum <= Counted(bal, PromiseBals(replies))
    ensures r.NoEnoughQuorum? ==>
      && r.higherBal.GE(bal)
      && forall i :: 0 <= i < |replies| && !bal.GE(replies[i].lastBal) ==> r.higherBal.GE(replies[i].lastBal)
  {
    Phase1Meaning(bal, replies, quorum);
    HigherBalBounds(bal, PromiseBals(replies));
    var count := 0;
    var higherBal := bal;
    var maxVoted := NoVote;
    var i := 0;
    while i < |replies|
      invariant 0 <= i <= |replies|
      invariant Phase1Scan(bal, replies, quorum, i, count, higherBal, maxVoted) == Phase1Outcome(bal, replies, quorum)
    {
      var reply := replies[i];
      if !bal.GE(reply.lastBal) {
        if reply.lastBal.GE(higherBal) {
          higherBal := reply.lastBal;
        }
      } else {
        if reply.vBal.GE(maxVoted.vBal) {
          maxVoted := reply;
        }
        count := count + 1;
        if count == quorum {
          return Ok(maxVoted.val);
        }
      }
      i := i + 1;
    }
    r := NoEnoughQuorum(higherBal);
  }

  /** Phase 2's loop, from reply i on, with its running count and highest ballot. */
  function Phase2Scan(bal: BallotNum, rs: seq<AcceptReply>, quorum: int, i: nat,
                      count: int, higherBal: BallotNum): PhaseResult<()>
    requires i <= |rs|
    decreases |rs| - i
  {
    if i == |rs| then NoEnoughQuorum(higherBal)
    else
      var r := rs[i];
      if !bal.GE(r.lastBal) then
        Phase2Scan(bal, rs, quorum, i + 1, count, if r.lastBal.GE(higherBal) then r.lastBal else higherBal)
      else if count + 1 == quorum then Ok(())
      else Phase2Scan(bal, rs, quorum, i + 1, count + 1, higherBal)
  }

  /** The outcome of Phase 2 for ballot bal over the Accept replies rs. */
  function Phase2Outcome(bal: BallotNum, rs: seq<AcceptReply>, quorum: int): PhaseResult<()> {
    Phase2Scan(bal, rs, quorum, 0, 0, bal)
  }

  lemma {:induction false} Phase2ScanMeaning(bal: BallotNum, rs: seq<AcceptReply>, quorum: int, i: nat,
                                             count: int, higherBal: BallotNum)
    requires i <= |rs|
    requires count == Counted(bal, AckBals(rs)[..i])
    requires higherBal == HigherBal(bal, AckBals(rs)[..i])
    requires quorum < 1 || count < quorum
    ensures var r := Phase2Scan(bal, rs, quorum, i, count, higherBal);
      && (r.Ok? <==> 1 <= quorum <= Counted(bal, AckBals(rs)))
      && (r.NoEnoughQuorum? ==> r.higherBal == HigherBal(bal, AckBals(rs)))
    decreases |rs| - i
  {
    var bs := AckBals(rs);
    if i == |rs| {
      assert bs[..i] == bs;
    } else {
      CountedStep(bal, bs, i);
      var r := rs[i];
      if !bal.GE(r.lastBal) {
        Phase2ScanMeaning(bal, rs, quorum, i + 1, count, if r.lastBal.GE(higherBal) then r.lastBal else higherBal);
      } else if count + 1 == quorum {
        CountedGrows(bal, bs, i + 1);
      } else {
        Phase2ScanMeaning(bal, rs, quorum, i + 1, count + 1, higherBal);
      }
    }
  }

  /**
   * Phase 2 succeeds iff at least quorum (>= 1) Accept replies are counted;
   * on failure it reports the highest ballot seen.
   */
  lemma Phase2Meaning(bal: BallotNum, rs: seq<AcceptReply>, quorum: int)
    ensures var r := Phase2Outcome(bal, rs, quorum);
      && (r.Ok? <==> 1 <= quorum <= Counted(bal, AckBals(rs)))
      && (r.NoEnoughQuorum? ==> r.higherBal == HigherBal(bal, AckBals(rs)))
  {
    assert AckBals(rs)[..0] == [];
    Phase2ScanMeaning(bal, rs, quorum, 0, 0, bal);
  }

  /** Phase 2 as the source runs it: count the replies that do not reject bal. */
  method Phase2(bal: BallotNum, replies: seq<AcceptReply>, quorum: int) returns (r: PhaseResult<()>)
    ensures r == Phase2Outcome(bal, replies, quorum)
    ensures r.Ok? <==> 1 <= quorum <= Counted(bal, AckBals(replies))
    ensures r.NoEnoughQuorum? ==>
      && r.higherBal.GE(bal)
      && forall i :: 0 <= i < |replies| && !bal.GE(replies[i].lastBal) ==> r.higherBal.GE(replies[i].lastBal)
  {
    Phase2Meaning(bal, replies, quorum);
    HigherBalBounds(bal, AckBals(replies));
    var count := 0;
    var higherBal := bal;
    var i := 0;
    while i < |replies|
      invariant 0 <= i <= |replies|
      invariant Phase2Scan(bal, replies, quorum, i, count, higherBal) == Phase2Outcome(bal, replies, quorum)
    {
      var reply := replies[i];
      if !bal.GE(reply.lastBal) {
        if reply.lastBal.GE(higherBal) {
          higherBal := reply.lastBal;
        }
      } else {
        count := count + 1;
        if count == quorum {
          return Ok(());
        }
      }
      i := i + 1;
    }
    r := NoEnoughQuorum(higherBal);
  }

  /**
   * The value RunPaxos carries into Phase 2 after a successful Phase 1: the
   * value Phase 1 found, which replaces the proposer's own, else its own.
   */
  function ProposedValue(found: Option<Value>, own: Option<Value>): (v: Option<Value>)
    ensures v == found || v == own
    ensures found.Some? ==> v == found
    ensures v.None? <==> found.None? && own.None?
  {
    if found.Some? then found else own
  }

  /**
   * The ballot a proposer retries with after a failed phase: one more than
   * the highest N seen, with its own proposer id.
   */
  function NextBallot(bal: BallotNum, higherBal: BallotNum): (next: BallotNum)
    ensures next.proposerId == bal.proposerId
    ensures next.GT(higherBal)
    ensures higherBal.GE(bal) ==> next.n > bal.n && next.GT(bal)
  {
    BallotNum(higherBal.n + 1, bal.proposerId)
  }

  /**
   * After a failed Phase 1 the retried ballot is strictly above the old one
   * and above the LastBal of every reply seen, counted or not.
   */
  lemma RetryAfterPhase1OutranksReplies(bal: BallotNum, rs: seq<Acceptor>, quorum: int)
    requires Phase1Outcome(bal, rs, quorum).NoEnoughQuorum?
    ensures var next := NextBallot(bal, Phase1Outcome(bal, rs, quorum).higherBal);
      next.GT(bal) && forall i :: 0 <= i < |rs| ==> next.GT(rs[i].lastBal)
  {
    Phase1Meaning(bal, rs, quorum);
    HigherBalBounds(bal, PromiseBals(rs));
  }

  /** The same for a failed Phase 2. */
  lemma RetryAfterPhase2OutranksReplies(bal: BallotNum, rs: seq<AcceptReply>, quorum: int)
    requires Phase2Outcome(bal, rs, quorum).NoEnoughQuorum?
    ensures var next := NextBallot(bal, Phase2Outcome(bal, rs, quorum).higherBal);
      next.GT(bal) && forall i :: 0 <= i < |rs| ==> next.GT(rs[i].lastBal)
  {
    Phase2Meaning(bal, rs, quorum);
    HigherBalBounds(bal, AckBals(rs));
  }

  /**
   * An instance of the tie rule of MaxVotedIsMax: at ballot {5, 1} with a
   * quorum of 2, two counted replies both voted under {3, 1}, carrying 1
   * and then 2, make Phase 1 return 2, the later reply's value.
   */
  lemma {:induction false} Phase1LaterTieWins()
    ensures var b := BallotNum(3, 1);
      Phase1Outcome(BallotNum(5, 1), [Acceptor(b, Some(Value(1)), b), Acceptor(b, Some(Value(2)), b)], 2)
        == Ok(Some(Value(2)))
  {
    var b := BallotNum(3, 1);
    var rs := [Acceptor(b, Some(Value(1)), b), Acceptor(b, Some(Value(2)), b)];
    assert Phase1Scan(BallotNum(5, 1), rs, 2, 1, 1, BallotNum(5, 1), rs[0]) == Ok(Some(Value(2)));
  }

  /**
   * A vote under the zero ballot {0, 0} looks exactly like the empty state:
   * when a later counted reply is an untouched acceptor, Phase 1 finds no
   * value although one was voted.
   */
  lemma {:induction false} Phase1HidesZeroBallotVote()
    ensures Phase1Outcome(BallotNum(1, 1), [Acceptor(Zero, Some(Value(5)), Zero), NoVote], 2) == Ok(None)
  {
    var rs := [Acceptor(Zero, Some(Value(5)), Zero), NoVote];
    assert Phase1Scan(BallotNum(1, 1), rs, 2, 1, 1, BallotNum(1, 1), rs[0]) == Ok(None);
  }
}
