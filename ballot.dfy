/**
 * Ballot numbers and their order (core/acceptor.go, BallotNum.GE).
 * A ballot is the pair (N, ProposerId); GE compares N first and breaks
 * ties on the proposer id, so it is the lexicographic order on the pair.
 */
module Ballot {

  /** The BallotNum message: a counter and the id of the proposer using it. */
  datatype BallotNum = BallotNum(n: int, proposerId: int) {

    /** a.GE(b): a is at least b. */
    predicate GE(b: BallotNum) {
      if n > b.n then true
      else if n < b.n then false
      else proposerId >= b.proposerId
    }

    /** a.GT(b): b is not at least a, i.e. a is strictly above b. */
    predicate GT(b: BallotNum) {
      !b.GE(this)
    }
  }

  /** The ballot every acceptor starts with (an empty BallotNum message). */
  const Zero := BallotNum(0, 0)

  lemma GEReflexive(a: BallotNum)
    ensures a.GE(a)
  {
  }

  lemma GETotal(a: BallotNum, b: BallotNum)
    ensures a.GE(b) || b.GE(a)
  {
  }

  lemma GETransitive(a: BallotNum, b: BallotNum, c: BallotNum)
    requires a.GE(b) && b.GE(c)
    ensures a.GE(c)
  {
  }

  lemma GEAntisymmetric(a: BallotNum, b: BallotNum)
    requires a.GE(b) && b.GE(a)
    ensures a == b
  {
  }

  /** GT is GE without equality. */
  lemma GTIsStrictGE(a: BallotNum, b: BallotNum)
    ensures a.GT(b) <==> a.GE(b) && a != b
  {
  }

  /** Lexicographic comparison of two integer sequences of the same length. */
  function LexGE(x: seq<int>, y: seq<int>): bool
    requires |x| == |y|
  {
    if x == [] then true
    else if x[0] != y[0] then x[0] > y[0]
    else LexGE(x[1..], y[1..])
  }

  /** GE agrees with the lexicographic order of the pairs (N, ProposerId). */
  lemma {:induction false} GEIsLexicographic(a: BallotNum, b: BallotNum)
    ensures a.GE(b) <==> LexGE([a.n, a.proposerId], [b.n, b.proposerId])
  {
    var x, y := [a.n, a.proposerId], [b.n, b.proposerId];
    assert x[1..] == [a.proposerId] && y[1..] == [b.proposerId];
    assert [a.proposerId][1..] == [] && [b.proposerId][1..] == [];
    assert LexGE([a.proposerId], [b.proposerId]) == (a.proposerId >= b.proposerId);
    assert LexGE(x, y) == if a.n != b.n then a.n > b.n else LexGE([a.proposerId], [b.proposerId]);
  }
}
