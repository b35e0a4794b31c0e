# highness-paxos-kv: the Paxos core in Dafny

highness-paxos-kv is a key-value store in which every `(key, version)` pair is
an independent single-decree Paxos instance. Each process runs an acceptor
(`KVServer`) that keeps, per instance, the promise `LastBal`, the vote value
`Val` and the vote ballot `VBal`. A client runs a proposer (`RunPaxos`). It
runs Phase 1 (Prepare) and Phase 2 (Accept) against all acceptors and retries
with a higher ballot until a quorum accepts. A write proposes its value, unless Phase 1
finds a value voted earlier, which it proposes instead. A read brings no value:
it returns nil when Phase 1 finds none, and otherwise proposes the value found
and returns it once a quorum accepts it.

The model has seven modules, one file each:

- `Wrappers` (`wrappers.dfy`): the `Option` type, which stands for Go's nil pointers.
- `Ballot` (`ballot.dfy`): `BallotNum` and its order `GE`, proved to be the lexicographic order on `(N, ProposerId)`.
- `Api` (`api.dfy`): the protobuf message shapes as plain datatypes: `Value`, `PaxosInstanceId`, `Acceptor` and `Request` (the `Proposer` message).
  - The reply to Accept is its own datatype `AcceptReply`. It holds only `LastBal`, because that is all the source copies into the reply.
- `Acceptors` (`acceptor.dfy`): the transition rules `PrepareNext` and `AcceptNext`, and facts about any sequence of calls on one instance.
  - `KVServer` is a class whose field `storage` is the two-level map `key -> version -> state`.
  - Its methods `GetVersionLocked`, `Prepare` and `Accept` update that map as the source does.
- `Phases` (`phases.dfy`): the two tallies of `core/proposer.go` and the retry ballot.
  - `Phase1` and `Phase2` are methods with the source's loop and its early return. They run over any sequence of replies.
  - Each loop is proved equal to a scan function. Lemmas say what the scan computes: the number of counted replies, the highest rejecting ballot and the highest vote.
  - The module also holds the quorum formula and its intersection property.
- `Proposers` (`proposer.dfy`): the class `Proposer` with `RunPaxos`.
  - `RunPaxos` calls the `Prepare` and `Accept` methods of a sequence of `KVServer` objects directly.
  - `Proposer.Phase1` and `Proposer.Phase2` tally the replies with the functions `Phase1Outcome` and `Phase2Outcome`. The loops `Phases.Phase1` and `Phases.Phase2` are proved to compute exactly these functions.
  - A `Delivery` per call says whether the acceptor handled the call and whether its reply came back. Replies that do not come back are dropped, as `rpcToAll` drops nil replies.
- `Consensus` (`consensus.dfy`): the safety of one instance.
  - Any number of proposers act in any interleaving. They use the same transition functions and the same Phase 1 and Phase 2 tallies.
  - Main result: at most one value is ever chosen. Two successful Phase 2 runs return the same value. A Phase 1 above a chosen value finds that value, and so does a read whose Prepare calls follow a finished write, even at the write's own ballot.

Two behaviours of the code that are easy to misread are kept as written:

- Phase 1 compares `VBal` with `GE` (`core/proposer.go:86`). A later counted reply with an *equal* `VBal` therefore replaces the reply kept so far; a strict comparison would keep the first. `Phases.Phase1LaterTieWins` is a concrete case.
- An Accept with a nil value stores no value under a non-zero `VBal` (`core/server_test.go:15-23`). `Acceptors.AcceptReplyIsACopy` replays that test.

## Model

| member | source | states |
|---|---|---|
| Ballot.GEReflexive | core/acceptor.go:20-28 | every ballot is GE itself |
| Ballot.GETotal | core/acceptor.go:20-28 | for any two ballots, one is GE the other |
| Ballot.GETransitive | core/acceptor.go:20-28 | GE is transitive |
| Ballot.GEAntisymmetric | core/acceptor.go:20-28 | two ballots that are GE each other are equal in both N and ProposerId |
| Ballot.GTIsStrictGE | core/acceptor.go:20-28 | "not b.GE(a)" is exactly "a.GE(b) and a differs from b" |
| Ballot.GEIsLexicographic | core/acceptor.go:20-28 | GE is the lexicographic order on the pair (N, ProposerId) |
| Acceptors.PrepareNext | core/acceptor.go:54-56 | Prepare(bal) leaves Val and VBal alone; LastBal becomes bal exactly when bal is GE the old LastBal, and otherwise stays; the new LastBal is GE both; LastBal GE VBal is kept |
| Acceptors.AcceptNext | core/acceptor.go:71-75 | the state becomes (bal, val, bal) exactly when bal is GE the old LastBal, and otherwise stays unchanged; LastBal never decreases; LastBal GE VBal is kept |
| Acceptors.ReplayKeepsPromise | core/acceptor.go:54-75 | along any sequence of Prepare and Accept calls on one instance, LastBal never decreases and LastBal GE VBal holds after every call |
| Acceptors.ReplayFromEmptyIsWf | core/acceptor.go:94-98 | from the zero state that getVersionLocked creates, every sequence of calls keeps LastBal GE VBal, and LastBal GE zero |
| Acceptors.ReplayVoteComesFromAccept | core/acceptor.go:54-75 | the (Val, VBal) held after any sequence of calls is the initial one or was sent by one of the Accept calls |
| Acceptors.PreparesKeepVote | core/acceptor.go:54-56 | a sequence of Prepare calls never changes Val or VBal |
| Acceptors.KVServer.constructor | core/acceptor.go:40-43 | a new server has empty storage, so every stored state keeps LastBal GE VBal |
| Acceptors.KVServer.GetVersionLocked | core/acceptor.go:80-105 | returns the instance's state; on first touch it creates the zero state (zero LastBal, no value, zero VBal), adding the key and the version as needed; existing entries and all other keys and versions keep their state |
| Acceptors.KVServer.Prepare | core/acceptor.go:46-59 | the reply is the instance's state before the call; the new state is PrepareNext of the old one; every other instance is unchanged; stored states keep LastBal GE VBal |
| Acceptors.KVServer.Accept | core/acceptor.go:62-78 | the reply holds only a copy of the LastBal before the call; the new state is AcceptNext of the old one; every other instance is unchanged; stored states keep LastBal GE VBal |
| Acceptors.KVServer.ValidInstanceIsWf | core/acceptor.go:80-105 | on a server whose stored states keep LastBal GE VBal, the state read for any instance, stored or the zero state of a first touch, keeps it too |
| Acceptors.AcceptReplyIsACopy | core/server_test.go:11-30 | an Accept of ballot {1, 0} without a value on a fresh server replies LastBal.N = 0; changing the stored LastBal to 100 afterwards leaves the reply alone; the stored state has no value under VBal {1, 0} |
| Phases.Quorum | core/proposer.go:28 | n/2+1 is a strict majority of n, and the smallest one |
| Phases.QuorumsIntersect | core/proposer.go:28 | two sets of acceptors, each at least a quorum, share an acceptor |
| Phases.HigherBalBounds | core/proposer.go:79-83 | the highest ballot tracked is GE the proposer's ballot and GE the LastBal of every rejecting reply, and is one of them |
| Phases.MaxVotedIsMax | core/proposer.go:74-88 | the tracked reply is a counted reply whose VBal is GE every counted VBal, with no later counted reply holding an equal VBal; or, when no counted VBal is GE zero, it is the initial empty vote |
| Phases.Phase1Meaning | core/proposer.go:69-97 | Phase 1 succeeds iff at least quorum (and at least one) replies are counted; on success its value is the highest vote among the replies scanned up to the one that completed the quorum; on failure it reports the highest ballot seen |
| Phases.Phase1RecoversHighestVote | core/proposer.go:86-92 | on success the value is the Val of the counted reply with the highest VBal (later replies win ties), or nil when there is none |
| Phases.Phase1ValueFromReply | core/proposer.go:86-92 | a value Phase 1 returns was carried by one of the replies |
| Phases.Phase1 | core/proposer.go:72-96 | the loop, with its early return at the quorum, computes the scan; it succeeds iff quorum replies are counted; on ErrNoEnoughQuorum the ballot returned is GE the proposer's and GE every rejecting LastBal |
| Phases.Phase2Meaning | core/proposer.go:102-124 | Phase 2 succeeds iff at least quorum (and at least one) replies are counted; on failure it reports the highest ballot seen |
| Phases.Phase2 | core/proposer.go:105-123 | the loop computes the scan; it succeeds iff quorum replies are counted; on ErrNoEnoughQuorum the ballot returned is GE the proposer's and GE every rejecting LastBal |
| Phases.ProposedValue | core/proposer.go:40-44 | the value carried into Phase 2 is the one Phase 1 found or the proposer's own; a found value always wins; it is nil only when neither exists |
| Phases.NextBallot | core/proposer.go:36 | the retried ballot keeps ProposerId, is strictly above the highest ballot seen, and its N is strictly above the old N |
| Phases.RetryAfterPhase1OutranksReplies | core/proposer.go:33-37 | after a failed Phase 1 the retried ballot is strictly above the old ballot and above every LastBal in the replies |
| Phases.RetryAfterPhase2OutranksReplies | core/proposer.go:54-58 | after a failed Phase 2 the retried ballot is strictly above the old ballot and above every LastBal in the replies |
| Phases.Phase1LaterTieWins | core/proposer.go:86-88 | at ballot {5, 1} with quorum 2, two counted replies both voted under {3, 1} with values 1 then 2 make Phase 1 return 2 (the general tie rule is in MaxVotedIsMax) |
| Phases.Phase1HidesZeroBallotVote | core/proposer.go:74-88 | a vote under ballot {0, 0} followed by an untouched acceptor's reply yields no value |
| Proposers.DropNilKeepsOrder | core/proposer.go:154-156 | the kept replies are exactly the non-nil ones, in their original order: the i-th kept reply is the value of the i-th non-nil slot, and a slot is kept iff it holds a reply |
| Proposers.PrepareEach | core/proposer.go:129-157 | the loop calls Prepare on every acceptor it reaches, in order; each slot holds the acceptor's state before the call when the reply is delivered and nil otherwise; unreached acceptors and other instances keep their state |
| Proposers.AcceptEach | core/proposer.go:129-157 | the loop calls Accept on every acceptor it reaches, in order; each slot holds a reply carrying the acceptor's prior LastBal when delivered and nil otherwise; unreached acceptors and other instances keep their state |
| Proposers.RpcPrepareToAll | core/proposer.go:127-161 | every acceptor reached handles Prepare, and no other instance changes; the replies kept are exactly those delivered, in acceptor order, each the acceptor's state before the call |
| Proposers.RpcAcceptToAll | core/proposer.go:127-161 | every acceptor reached handles Accept, and no other instance changes; the replies kept are exactly those delivered, in acceptor order, each the acceptor's prior LastBal |
| Proposers.Proposer.constructor | api/paxos.pb.go:257-268 | a new proposer has the given instance and ballot and no value |
| Proposers.Proposer.Phase1 | core/proposer.go:69-97 | the result is the Phase 1 tally, under the current ballot, of the replies returned; the replies are the states before the call of exactly the acceptors whose reply was delivered, in acceptor order; every reached acceptor's instance becomes PrepareNext of its old state and the others keep theirs; on failure the ballot returned is GE the proposer's; a value found was held by some acceptor before the call; no acceptor's value and no other instance changes |
| Proposers.Proposer.Phase2 | core/proposer.go:102-124 | the result is the Phase 2 tally, under the current ballot, of the replies returned; the replies carry the prior LastBal of exactly the acceptors whose reply was delivered, in acceptor order; every reached acceptor's instance becomes AcceptNext of its old state with p.Val and the others keep theirs; on failure the ballot returned is GE the proposer's; on success at least quorum acceptors hold the vote (Bal, Val, Bal); no other instance changes |
| Proposers.Proposer.Survey | core/proposer.go:31-33 | clears p.Val and runs Phase 1: the replies are the delivered ones among the states at the start, in order; the result is their tally; each acceptor's new state is PrepareNext of its old one when reached; no value changes; a value found was held by an acceptor |
| Proposers.Proposer.Propose | core/proposer.go:51-58 | sets p.Val and runs Phase 2: the replies are the delivered LastBals of the states at the start; the result is their tally; each reached acceptor's new state is AcceptNext of its old one; on failure the ballot becomes NextBallot past the highest seen, strictly higher; on success a quorum holds the vote |
| Proposers.DeliveredFromOrigins | core/proposer.go:129-157 | replies kept from exactly the delivered acceptors, in acceptor order, are the Delivered answers of those acceptors |
| Proposers.QuorumVoted | core/proposer.go:110-119 | every acceptor whose Accept reply was counted holds the vote (Bal, Val, Bal), so a successful Phase 2 leaves a quorum of them |
| Proposers.Proposer.RunRound | core/proposer.go:31-62 | one pass, recorded in t with the acceptors' states before it and the round's deliveries: the Prepare replies are exactly the delivered ones among those states, in order, and the Accept replies the delivered LastBals of the states Phase 1 left (Observed); each acceptor's new state is what the delivered calls make of its old one (After); both phases' results are the tallies of those replies; the value carried on is the one Phase 1 found when it found one and the caller's otherwise; Phase 2 runs exactly when Phase 1 succeeded with a value to propose; the pass ends the loop iff Phase 1 succeeded and Phase 2 did not fail; the next ballot is NextBallot past the failed phase's highest ballot, strictly higher with the same ProposerId, and unchanged on success; success returns p.Val, voted by a quorum; the carried value is the caller's or one an acceptor held |
| Proposers.Proposer.RunPaxos | core/proposer.go:27-64 | trace records the rounds (Retried): round k uses the k-th entry of the schedule; the first starts from the acceptors' states at the call and the proposer's ballot, and each later one from the states and ballot the previous round left, after a round that did not end the loop; every round's replies are the delivered answers of those states, tallied; the acceptors end in the states the last round left (StateOf); a value is returned iff the last round ended the loop, and it is the value carried through all rounds (CarriedAll); the ballot only grows, keeping ProposerId, and each failed round raises N; a returned value is the final p.Val, voted by a quorum, and is the caller's value or one an acceptor held at the start; nil is returned only for a read; no other instance changes |
| Proposers.RetriedRoundByRound | core/proposer.go:30-58 | round by round: round k uses the k-th schedule entry, its replies are the delivered answers of the states it began from, its results are their tallies, and Phase 2 ran iff Phase 1 succeeded with a value to carry; the first round uses the starting ballot and states; every later round follows one that did not end the loop and uses the ballot and the states it left |
| Proposers.RetriedIsDetermined | core/proposer.go:27-64 | two traces of a run from the same ballot, value, acceptor states and schedule, with as many rounds, are equal: the trace is fixed by the run's inputs |
| Proposers.CarriedFromPromises | core/proposer.go:40-44 | the value a round carries out is the one carried in or a value an acceptor held when the round began |
| Proposers.RetriedFromCaller | core/proposer.go:27-64 | along a run, the value carried and every acceptor's value are the caller's val or a value an acceptor held at the start |
| Proposers.RetriedKeepsWf | core/acceptor.go:54-75 | from states that keep LastBal GE VBal, every round of a run leaves states that keep it |
| Proposers.CarriedAllIsLatestFound | core/proposer.go:40-44 | the value a run carries is the value found by the latest round whose Phase 1 found one, and the caller's val when no round found any |
| Proposers.BallotAfterFailure | core/proposer.go:33-58 | a round that did not end the loop leaves a ballot with the same ProposerId, strictly above the round's ballot and its N, and above the LastBal of every reply of the failed phase |
| Proposers.RetriedRaisesBallot | core/proposer.go:33-58 | along a run the ballot keeps ProposerId, stays GE the starting ballot, and its N grows by at least one per round that did not end the loop |
| Consensus.ChosenIsChoosable | core/proposer.go:28 | a value voted by a quorum at a ballot is still choosable there |
| Consensus.ChosenIsProposed | core/acceptor.go:71-75 | a chosen value is the one proposed with its ballot |
| Consensus.QuorumBlocks | core/proposer.go:79-92 | if the acceptors counted by a successful Phase 1 at b have not voted (c, w) for some c below b, then (c, w) can no longer be chosen |
| Consensus.Phase1FindsChoosable | core/proposer.go:69-97 | when Phase 1 succeeds at b, for every value still choosable below b it returns exactly that value |
| Consensus.DecisionIsChosen | core/proposer.go:102-124 | a successful Phase 2 at b means the value proposed with b is voted by a quorum |
| Consensus.Agreement | core/proposer.go:27-64 | in any state satisfying the invariant, two chosen values are equal |
| Consensus.ReadFindsChosen | core/proposer.go:40-49 | a Phase 1 at a ballot above a chosen value finds that value, so a read returns it and a write proposes it instead of its own |
| Consensus.CurrentReadFindsChosen | core/proposer.go:69-97 | a Phase 1 whose replies are the current states of distinct acceptors returns a chosen value at any ballot at which it succeeds, the ballot of the choice included |
| Consensus.PreparesReplyCurrent | core/acceptor.go:46-59 | when distinct acceptors handle Prepare(b) one after another, each reply is the state the acceptor had before the first call; the votes and the number of acceptors do not change |
| Consensus.ReadAfterWrite | core/server_set_get_test.go:20-43 | a read whose Prepare calls follow a finished write, as in the test that writes and then reads at ballot {0, 2}: its replies are valid promises, the written value stays chosen, and a Phase 1 that succeeds on them returns it whatever its ballot |
| Consensus.InitInv | core/acceptor.go:94-98 | the invariant holds when every acceptor is in the zero state |
| Consensus.PrepareKeepsInv | core/acceptor.go:46-59 | a Prepare step keeps the invariant |
| Consensus.AcceptKeepsInv | core/acceptor.go:62-78 | an Accept step keeps the invariant |
| Consensus.ProposeKeepsInv | core/proposer.go:40-51 | fixing the value of a ballot after a successful Phase 1 keeps the invariant |
| Consensus.ExecKeepsInv | core/proposer.go:27-64 | every interleaving of steps keeps the invariant |
| Consensus.Safety | core/proposer.go:27-64 | along any execution from the zero state, at most one value is chosen |
| Consensus.DecisionsAgree | core/proposer.go:54-62 | two proposers whose Phase 2 succeeded in the same execution return the same value |
| Consensus.ChosenStaysChosen | core/acceptor.go:71-75 | a chosen value stays chosen whatever steps follow |
| Consensus.SafetyAcrossTime | core/proposer.go:27-64 | a value chosen at one point of an execution and a value chosen later are equal |

## Left out

- Phases.NextBallot: does not model the int64 wrap-around of `higherBal.N + 1`. Ballot fields, versions and values are unbounded integers.
- Acceptors.KVServer.Prepare: the error result is left out. The source always returns nil there, and `Accept` behaves the same way.
- The mutexes of `KVServer` and `Version` (core/acceptor.go:32, 41, 81, 103) are left out. Calls are modelled as whole, sequential steps. In `Consensus` these steps interleave in any order.
- The `Version` wrapper is flattened. A stored version is its `Acceptor` state.
- Go pointer aliasing is not modelled. The source stores the request's `Bal` pointer as both `LastBal` and `VBal` (core/acceptor.go:72-74). So the test's `LastBal.N = 100` (core/server_test.go:28) also reaches the request and the stored `VBal`, which in Go then reads N = 100. Ballots here are immutable values, as they are once copied over gRPC, so `Acceptors.AcceptReplyIsACopy` keeps `VBal` at {1, 0}.
- The transport of `rpcToAll` is not modelled: the gRPC dial, the port arithmetic, the one-second timeouts and the panic on a dial failure. A `Delivery` per call stands in for the network.
- Proposers.Proposer.RunPaxos: requires distinct acceptor objects. The source does not check `acceptorIds` for duplicates.
- Proposers.Proposer.RunPaxos: the endless retry loop runs over a finite schedule of rounds. When the schedule runs out it returns `Unfinished`, so nontermination and liveness are not modelled.
- Consensus.Safety: assumes every proposed ballot is above {0, 0}. A vote under {0, 0} looks exactly like the zero state to Phase 1 (see `Phases.Phase1HidesZeroBallotVote`). The source's tests use ballots {0, 2} and {1, 0}.
- Consensus.Safety: assumes one value per ballot. A proposer sets `p.Val` once per round and raises its ballot before the next round. Distinct proposers are assumed to carry distinct proposer ids.
- Consensus.ReadFindsChosen: the general form requires the reading ballot to be strictly above the ballot of the choice. At an equal ballot, a Prepare handled before the votes of that ballot does not see them; `Consensus.ReadAfterWrite` covers the equal ballot when the read's Prepare calls follow the write, as in `core/server_set_get_test.go`.
- Consensus.Safety: the protocol model never sends an Accept without a value. `RunPaxos` returns before Phase 2 when it has none.
- `ServeAcceptors` (listeners, goroutines, server registration) is not modelled. Neither is the logging in `pkg/logging` or the environment lookup in `pkg/toolkit`.
- The generated protobuf code of `api/paxos.pb.go` is not modelled, apart from the message shapes.
