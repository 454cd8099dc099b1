# A verified model of the swarm's consensus, evidence and governance core

This project models the parts of the swarm runtime on which its safety rests, and proves what they promise:

- **Consensus** (`ConsensusModel`, `CommitChain`, `NodeReports`, `VoteProvenance`, `HeardVotes`, `RoundSteps`,
  `CommitteeAgreement`, `Disagreement`, `ZeroTolerance`, `CommitteeLiveness`, `ConsensusNode`, `DriveRound`,
  `ReturnedCommits`, `UnpublishedVotes`). The propose / prevote / precommit node is written twice: as functions from a
  state to an outcome, on which the theorems are proved, and as the class `ConsensusNode` with the node's fields,
  whose every method is proved to move them exactly as the function does, errors included. A committee is a set of
  honest nodes, up to `f` Byzantine members and a network that delivers what it likes. The driver of one node against
  an arbitrary transport is the function `Drive`, computed in place by the method `DriveRound`, and every drive is
  proved to be a run of the node.
- **Merkle trees** (`MerkleTree`): the level-by-level construction against the recursive definition of section 2.1 of
  RFC 6962, and inclusion proofs against section 2.1.1.
- **Canonical JSON** (`CanonicalNumbers`, `CanonicalStrings`, `CanonicalJson`): the printer every signature is taken
  over, with an independent parser for what it prints.
- **Governance** (`GovernanceModel`, `GovernanceRuns`, `GovernanceRounds`, `GovernanceReceipts`, `PartitionEras`,
  `ContingencyLeases`, `LeaseRuns`, `GovernancePolicy`): the key, the peers, the receipt chain, partitions and
  contingency leases. Again the functions carry the theorems over all runs, and the class `GovernancePolicy`, which
  runs its rounds through `DriveRound`, refines them.
- **The HTTP rate limiter** (`RateLimiter`) and **the lexical path normalizer** (`PathNormalization`).

Hashes, signatures, message subjects and proposal encodings are function-valued parameters, so each theorem holds for
every choice of them. Where one needs a collision-free hash or an unforgeable signature, its precondition says so.
Clocks are parameters. Integers are unbounded, except where a bound decides a branch.

## What turned out not to hold

Each of these is a property one would expect; each has its exact condition and an input on which it fails.

- *Honest commits of a height agree*, in a committee that tolerates a fault (`f >= 1`), if and only if it has exactly
  `2f + 1` members (`AgreementExactly`). Nothing locks a node to a value it precommitted, so in every larger committee,
  even without a faulty member, a quorum can commit one proposal in round 0 and the nodes it leaves behind another in
  round 1 (`TwoRoundsDisagree`). With `f = 0`, as two and three governors have it, commits of the first height agree if
  and only if one member leads every round (`FirstAgreementExactly`, `TwoLeadersDisagree`).
- *Honest commits of a height and round agree*, where `f >= 1` and a faulty member leads some round, if and only if the
  members and the faulty ones among them are together at most `4f + 1`; with `f` faulty ones that is up to `3f + 1`
  members (`RoundAgreementExactly`). The constructor accepts larger committees; there an equivocating leader splits the
  honest nodes (`OneRoundDisagrees`).
- *No commit is lost* if and only if no message makes the node catch up to a round it leads with a proposal pending
  while one vote is a quorum (`ChainIntactExactly`; `PairLosesCommit` is a run).
- *A driver that returns a commit has published all its node sent*, on every transport that cannot forge, if and only if
  the committee tolerates no fault and the node leads round 0 (`PublishesExactly`). What the node sends on envelopes
  handed over together with the one that makes it commit stays queued and is dropped (`PublishedExactly`), so a node can
  return a commit with neither of its votes published (`VotesDropped`).
- *A round commits over the chain head*, on every transport that cannot forge, if and only if there are four or more
  governors, or the local one leads round 0, or no peer can propose after a lost commit (`HeadCoveredExactly`).
- *A receipt names the action it allows*, on every such transport, if and only if the local governor leads round 0 and,
  with four or more governors, every round (`ReceiptNamesActionExactly`). The result of a round is never compared with
  the proposal it was run for. `TwoGovernorsFail` is a run of two governors on which both of these fail.
- *Only faulty members are excluded* fails: an envelope that does not verify excludes the member it names
  (`ExcludedExactly`, `ForgeryExcludes`).
- *A previewed lease is honoured* if and only if it verifies and is the first active lease with its id
  (`PreviewHonoured`). In terms of the times at which health is observed, every preview is honoured if and only if no
  instant is observed again, three or more observations later, without a lease's lifetime having passed until the
  observation after it (`PreviewsExactly`, `PreviewRefused`); distinct times, in any order, suffice.
- *A lease stays within its blast radius* if and only if no instant is observed again after a lifetime has passed, each
  time with the next observation inside the lifetime (`RadiusExactly`). A clock that never runs backwards suffices
  (`SteadyClock`); one that is set back can have a lease staged again under the id of one that expired
  (`BackwardClockBreaksRadius`).
- *An inclusion proof binds its index* only together with the true tree size (`AcceptedExactly`); a claimed size and
  index bind no more than their turns (`AcceptedAtAnySize`, `ThirdAcceptedAsSecond`).
- *No source exceeds its rate limits* if and only if at most as many sources make requests as the limiter keeps track
  of (`LimitsHoldExactly`): a source that is evicted is admitted as if it were new (`EvictedExceedsLimit`).
- *A prefix of a path may be normalized first* if and only if it is not empty (`NormalizePrefix`); *the rest may* unless
  it is absolute and climbs above its root, and the base is neither the root nor empty (`NormalizeTail`,
  `TailCanDiffer`).
- *Documentation and code differ twice.* `attest_release` is documented to persist the state, and does not; the
  canonical printer also escapes U+007F to U+009F, which RFC 8785 does not. The model follows the code.

## Model

| member | source | states |
|---|---|---|
| ConsensusNodes.NewCommittee | crates/swarm-consensus/src/lib.rs:94-132 | A committee is built if and only if it is non-empty, its threshold does not overflow and it has at least 2f+1 distinct members; it then has exactly the given members, sorted and without duplicates |
| ConsensusNodes.RecommendedIsLargest | crates/swarm-consensus/src/lib.rs:77-83 | The recommended f is the largest with 3f+1 members, and a quorum remains when f members are gone |
| ConsensusModel.BestOf | crates/swarm-consensus/src/lib.rs:155-182 | The proposer is a member and no member scores higher |
| ConsensusModel.BestOfIsFirst | crates/swarm-consensus/src/lib.rs:155-182 | Of the members with the best score the proposer is the first in order |
| ConsensusNodes.ConsensusNode.ProposerFor | crates/swarm-consensus/src/lib.rs:155-182 | The loop over members finds the first member of highest score |
| ConsensusNodes.ConsensusNode.New | crates/swarm-consensus/src/lib.rs:669-707 | A node is created exactly when the local identity is a member and the timeout is positive, in the initial state |
| ConsensusNodes.ConsensusNode.HandleSigned | crates/swarm-consensus/src/lib.rs:794-834 | In-place handling of a signed envelope is the state function: exclusion, duplicates, equivocation, bad signatures, acceptance, and the state left by an error |
| ConsensusNodes.ConsensusNode.HandleEnvelope | crates/swarm-consensus/src/lib.rs:775-792 | As above for the subject check |
| ConsensusNodes.ConsensusNode.ObserveMessage | crates/swarm-consensus/src/lib.rs:836-878 | As above for membership, height, hash and round filtering and the catch-up whose progress is dropped |
| ConsensusNodes.ConsensusNode.EmitProposalIfLeader | crates/swarm-consensus/src/lib.rs:879-914 | As above for a leader's own proposal |
| ConsensusNodes.ConsensusNode.ObserveProposal | crates/swarm-consensus/src/lib.rs:916-928 | As above for a received proposal |
| ConsensusNodes.ConsensusNode.ObservePrevote | crates/swarm-consensus/src/lib.rs:930-946 | As above for a received prevote |
| ConsensusNodes.ConsensusNode.ObservePrecommit | crates/swarm-consensus/src/lib.rs:948-964 | As above for a received precommit |
| ConsensusNodes.ConsensusNode.EmitPrevote | crates/swarm-consensus/src/lib.rs:966-994 | As above for casting a prevote |
| ConsensusNodes.ConsensusNode.EmitPrecommit | crates/swarm-consensus/src/lib.rs:996-1024 | As above for casting a precommit |
| ConsensusNodes.ConsensusNode.Commit | crates/swarm-consensus/src/lib.rs:1026-1100 | As above for committing and entering the next height |
| ConsensusNodes.ConsensusNode.AdvanceRound | crates/swarm-consensus/src/lib.rs:1102-1121 | As above for entering a later round |
| ConsensusNodes.ConsensusNode.RecordProposal | crates/swarm-consensus/src/lib.rs:1123-1150 | As above for the proposer check and the proposal table |
| ConsensusNodes.ConsensusNode.ExcludeSender | crates/swarm-consensus/src/lib.rs:1181-1233 | As above for excluding a sender and dropping its contributions |
| ConsensusNodes.ConsensusNode.QueueProposal | crates/swarm-consensus/src/lib.rs:759-766 | As above for queueing a proposal |
| ConsensusNodes.ConsensusNode.Tick | crates/swarm-consensus/src/lib.rs:768-773 | As above for the round timer |
| CommitChain.ChainIntactExactly | crates/swarm-consensus/src/lib.rs:836-878 | Over every run of every committee, the reported commits have heights 1, 2, 3, ..., each hashed over the one before, and lead to where the node stands, if and only if no message met the guard of a lost commit in the state it reached |
| CommitChain.LostCommitExactly | crates/swarm-consensus/src/lib.rs:862-864 | A node that has lost nothing loses a commit to its next call if and only if the call makes it catch up to a round it leads, with a proposal pending and f = 0 |
| CommitChain.FollowerLoses | crates/swarm-consensus/src/lib.rs:862-864 | With f = 0, a node that does not lead round 0 but leads a later one loses the proposal it queued to any message of that round |
| CommitChain.PairLosesCommit | crates/swarm-consensus/src/lib.rs:862-864 | A committee of two in which two calls lose a commit |
| CommitChain.CommitsFormAChain | crates/swarm-consensus/src/lib.rs:759-1121 | For f >= 1, over every sequence of calls, none is lost or skipped |
| CommitChain.NextKeepsUnless | crates/swarm-consensus/src/lib.rs:836-878 | Every call that meets no such guard stays at its height or reports exactly the commit by which it moved up one, sends only at that height, and keeps the ledgers of later rounds empty |
| CommitChain.RoundLastsTimeout | crates/swarm-consensus/src/lib.rs:768-773 | After every run a timer leads the node out of its round if and only if the timeout has passed since the call that led it in; an earlier one does and reports nothing, and a due one leads to the next round or a commit |
| CommitChain.ClockIsLastStart | crates/swarm-consensus/src/lib.rs:1102-1121 | Over every run the round clock shows the last call that led the node into another round or height |
| NodeReports.FilteredExactly | crates/swarm-consensus/src/lib.rs:836-864 | A message of a stranger and one of a later height are errors, exactly; one that has passed is ignored; none of them changes the node |
| NodeReports.ProposalsExactly | crates/swarm-consensus/src/lib.rs:1123-1150 | A proposal is refused exactly when its sender does not lead the round or another is known for it, and then changes nothing |
| NodeReports.VotesExactly | crates/swarm-consensus/src/lib.rs:549-572 | A vote is refused exactly when its voter voted otherwise, and else counted with those for the same choice |
| NodeReports.ConflictsRefused | crates/swarm-consensus/src/lib.rs:930-964 | A message with such a vote fails and changes nothing |
| NodeReports.SubjectsExactly | crates/swarm-consensus/src/lib.rs:775-792 | A wrong subject is an error exactly where the message would otherwise be looked at |
| NodeReports.ExclusionsExactly | crates/swarm-consensus/src/lib.rs:1181-1213 | A call excludes a member exactly if it delivers an envelope of that member that convicts it, and reports each exclusion in one receipt: equivocation with the hashes of both envelopes, or invalid signature with that of the one |
| NodeReports.KeptExactly | crates/swarm-consensus/src/lib.rs:1215-1233 | Which envelopes are kept after any call: one that arrives, and none of a convicted member for that round of the node's height |
| NodeReports.AdvancesReported | crates/swarm-consensus/src/lib.rs:768-773 | A new round is reported exactly by a timer that is due |
| NodeReports.PendingExactly | crates/swarm-consensus/src/lib.rs:759-766 | Over every run that loses no commit the node holds the last proposal queued, until it commits that one |
| NodeReports.ExcludedDoNotCount | crates/swarm-consensus/src/lib.rs:1215-1233 | Over every such run of signed envelopes nobody but the node is counted, as voter or proposer, in a round of its height it is excluded from |
| NodeReports.StepTells | crates/swarm-consensus/src/lib.rs:966-1024 | Over every such run the step is that of a vote cast in the current round, or the first if none was |
| VoteProvenance.RecordVoteOk | crates/swarm-consensus/src/lib.rs:550-572 | Recording a vote keeps the two ledger maps mutual inverses over committee members |
| VoteProvenance.RemoveVoterOk | crates/swarm-consensus/src/lib.rs:574-584 | So does removing a voter, who is then absent from both |
| VoteProvenance.HandleSignedKeepsInv | crates/swarm-consensus/src/lib.rs:794-834 | For f >= 1 and any signed envelope: the ledgers stay inverses, every recorded vote has a verified message or the node's own vote behind it, and the ledger's conflicting-vote error does not occur |
| VoteProvenance.NextKeepsInv | crates/swarm-consensus/src/lib.rs:759-1100 | The same for every call of an honest node but the unsigned one, which names its sender freely; the node moreover votes at most once per phase and round, and its commits are certified by two quorums and followed by no later precommit of that height |
| VoteProvenance.ExcludedExactly | crates/swarm-consensus/src/lib.rs:1181-1213 | Over every run a member is excluded from a height and round if and only if an envelope in its name was delivered that differed from the one kept for its kind or, with none kept, did not verify |
| VoteProvenance.ForgeryExcludes | crates/swarm-consensus/src/lib.rs:794-834 | An envelope that does not verify has the member it names excluded, and its genuine messages of that round ignored |
| HeardVotes.NextHeard | crates/swarm-consensus/src/lib.rs:549-592 | Every call, signed or not, in every committee, keeps the ledgers inverse over members whose votes were heard, and heard for the node's height and hash as long as no commit is lost |
| HeardVotes.RunHeard | crates/swarm-consensus/src/lib.rs:759-1100 | Over every run both tallies of every commit count distinct members, each the node itself or the sender of a heard vote for that round and proposal, and, unless a commit was lost, for that height and previous hash |
| VoteProvenance.RedeliveryIsIdle | crates/swarm-consensus/src/lib.rs:794-834 | Handling the same envelope again, at any time, changes nothing and reports nothing |
| CommitteeAgreement.QuorumsMeet | crates/swarm-consensus/src/lib.rs:143-145 | Two quorums share a member that is not faulty, if all members and the faulty ones are together at most 4f+1 |
| CommitteeAgreement.MoveKeepsInv | crates/swarm-consensus/src/lib.rs:794-1100 | Every step the network and the Byzantine members can cause keeps the committee invariant |
| CommitteeAgreement.Agreement | crates/swarm-consensus/src/lib.rs:794-1100 | In every run with f >= 1, at most f Byzantine members, these and all members together at most 4f+1 (as with up to 3f+1 members), and any delivery, two honest commits of the same height and round have the same proposal id and extend the same hash |
| CommitteeAgreement.WholeCommitteeAgrees | crates/swarm-consensus/src/lib.rs:794-1100 | With exactly 2f+1 members any two honest commits of a height, whatever is delivered, were reached in the same round, carry the same proposal id and extend the same hash |
| CommitteeAgreement.HistoryAgrees | crates/swarm-consensus/src/lib.rs:1026-1100 | With a collision-free hash those two nodes committed identical proposals, payloads included, at every lower height |
| Disagreement.AgreementExactly | crates/swarm-consensus/src/lib.rs:1102-1121 | For every network with f >= 1: in every run all honest commits of a height carry the same proposal id if and only if there are exactly 2f+1 members |
| Disagreement.TwoRoundsDisagree | crates/swarm-consensus/src/lib.rs:1102-1121 | With more members, for any two proposals some run has one honest node commit one in round 0 and another the other in round 1, at height 1 |
| Disagreement.RoundAgreementExactly | crates/swarm-consensus/src/lib.rs:94-132 | For every such network in which a faulty member leads some round: in every run all honest commits of a height and round agree if and only if the members and the faulty ones are together at most 4f+1 |
| Disagreement.OneRoundDisagrees | crates/swarm-consensus/src/lib.rs:794-834 | With more, for any two proposals some run has two honest nodes commit one each in that round of height 1 |
| Disagreement.TwoCommitInOneRound | crates/swarm-consensus/src/lib.rs:930-1100 | In every such network some run has two honest nodes commit in the same round |
| Disagreement.TakingTurnsQualifies | crates/swarm-consensus/src/lib.rs:155-182 | Concrete committees of four and of five meet the hypotheses of the two theorems |
| ZeroTolerance.FirstAgreementExactly | crates/swarm-consensus/src/lib.rs:879-1100 | For every network with f = 0 whose nodes start from one hash: in every run all commits of height 1 carry the same proposal id if and only if one member leads every round after that hash |
| ZeroTolerance.TwoLeadersDisagree | crates/swarm-consensus/src/lib.rs:768-773 | With f = 0, for any two proposals, two members that lead different rounds commit one each at height 1 without hearing anything |
| ZeroTolerance.MoveKeepsFirst | crates/swarm-consensus/src/lib.rs:794-1100 | Under one leader every step of every run keeps that nobody has done anything, or that what was proposed, learned and committed at height 1 is the leader's one proposal |
| ZeroTolerance.PairDisagrees | crates/swarm-consensus/src/lib.rs:155-182 | Two members that take turns disagree in some run |
| RoundSteps.TimeoutLeads | crates/swarm-consensus/src/lib.rs:768-773 | A timed-out node that leads the next round proposes and prevotes its own pending proposal, whatever it precommitted |
| RoundSteps.Follows | crates/swarm-consensus/src/lib.rs:916-928 | A node prevotes the proposal of this or a later round, whatever it precommitted |
| CommitteeLiveness.BoundedLiveness | crates/swarm-consensus/src/lib.rs:759-1100 | With f >= 1, at least 2f+1 live members and a live round-0 proposer, delivering each envelope to all live nodes in order produced ends after 2n+1 deliveries (n live nodes) with an empty wire and every live node at height 2, on the same hash, having committed exactly the proposer's proposal |
| DriveRounds.Drive | crates/swarm-consensus/src/transport.rs:188-274 | Terminates for every transport |
| DriveRounds.DriveBounded | crates/swarm-consensus/src/transport.rs:204-238 | The driver hands the node at most 3n(f+1)+8 envelopes |
| DriveRounds.DriveRound | crates/swarm-consensus/src/transport.rs:188-274 | The driver, with its loops, leaves the node, the result, both counters and the published envelopes exactly as that function says |
| DriveRounds.Absorb | crates/swarm-consensus/src/transport.rs:228-247 | Drained envelopes are handled one by one in order until a commit, an error or the cap |
| DriveRounds.PublishAll | crates/swarm-consensus/src/transport.rs:224-226 | Envelopes are signed and published in order, stopping at the first failure |
| DriveRounds.DriveTold | crates/swarm-consensus/src/transport.rs:188-274 | Every accepted drive is a run of the node: the proposal queued, then only envelopes the transport handed over and timeouts, in order, each timer one timeout after the last; a returned commit is the first the node reports, with everything sent published in order but for what was sent on its batch before it; and a failure is due to a missing key, a failed publication or drain, too many envelopes, an error of the node, or an empty drain in round f or later |
| DriveRounds.PublishSigns | crates/swarm-consensus/src/transport.rs:224-226 | Publishing appends the envelopes, signed by the node, in order, and fails only without a key or with the transport |
| UnpublishedVotes.PublishedExactly | crates/swarm-consensus/src/transport.rs:228-247 | A drive that returns a commit published everything if and only if nothing was sent on the batch of the committing envelope before it |
| UnpublishedVotes.PublishesExactly | crates/swarm-consensus/src/transport.rs:228-247 | On every transport that cannot forge such a drive has published everything, if and only if f = 0 and the node leads round 0 |
| UnpublishedVotes.VotesDropped | crates/swarm-consensus/src/transport.rs:228-247 | Otherwise some such transport makes it return a commit with votes of the node never published |
| DriveRounds.DriveTicks | crates/swarm-consensus/src/transport.rs:250-262 | A node with f = 0, or with nothing recorded for later rounds, is ticked at most f times |
| DriveRounds.DriveTallied | crates/swarm-consensus/src/transport.rs:188-274 | In every committee and on every transport, both tallies of a returned commit count distinct members: the node itself and senders of verified votes, for that round and proposal, that the transport handed over; for f >= 1, or if no commit was lost, the votes are for the height and the hash the node started from |
| DriveRounds.DriveLinks | crates/swarm-consensus/src/transport.rs:188-274 | For f >= 1 the returned commit is of the height the node started at and hashed over where it started |
| DriveRounds.DriveCertified | crates/swarm-consensus/src/transport.rs:188-274 | For f >= 1 and no forgery it is certified by two quorums of verified votes |
| ReturnedCommits.OwnProposalExactly | crates/swarm-consensus/src/transport.rs:188-274 | Among peers whose signatures verify, a fresh node returns only commits of the proposal it was given, on every transport that cannot forge, if and only if it leads round 0 and, for f >= 1, every round |
| ReturnedCommits.PeerProposalReturned | crates/swarm-consensus/src/transport.rs:227-247 | Otherwise some such transport makes the driver return any given proposal of a peer |
| ReturnedCommits.CoversExactly | crates/swarm-consensus/src/transport.rs:188-274 | It returns only commits hashed over where it started, on every such transport, if and only if f >= 1, or it leads round 0, or it leads every round after committing in one it leads |
| ReturnedCommits.SecondHeightReturned | crates/swarm-consensus/src/transport.rs:227-247 | Otherwise some such transport makes the driver return a commit of height 2 |
| ReturnedCommits.PairReturnsSecondHeight | crates/swarm-consensus/src/transport.rs:227-247 | A committee of two on which it does |
| MerkleTrees.SplitPointIsLargest | crates/swarm-crypto/src/merkle.rs:234-240 | The split point is a power of two below n and no larger one is |
| MerkleTrees.PairedTreeHash | crates/swarm-crypto/src/merkle.rs:70-96 | Pairing one level with lone-node promotion does not change the recursive tree hash |
| MerkleTrees.PairLevel | crates/swarm-crypto/src/merkle.rs:70-96 | The inner loop computes the paired level |
| MerkleTrees.FromHashes | crates/swarm-crypto/src/merkle.rs:70-96 | Builds all levels; refuses an empty list |
| MerkleTrees.FromLeaves | crates/swarm-crypto/src/merkle.rs:42-68 | The same over hashed leaves |
| MerkleTrees.Root | crates/swarm-crypto/src/merkle.rs:103-108 | The root is the tree hash of section 2.1 of RFC 6962 |
| MerkleTrees.PairedAuditPath | crates/swarm-crypto/src/merkle.rs:111-145 | The recursive audit path is the sibling followed by the audit path one level up |
| MerkleTrees.InclusionProof | crates/swarm-crypto/src/merkle.rs:111-145 | The loop computes the audit path of section 2.1.1 of RFC 6962; an index past the leaves is refused |
| MerkleTrees.ComputeRootFromHash | crates/swarm-crypto/src/merkle.rs:163-201 | The loop recomputes the root, failing on a path that is too short or too long |
| MerkleTrees.ProofsComplete | crates/swarm-crypto/src/merkle.rs:163-201 | For every tree and index the generated path recomputes the root with every entry consumed |
| MerkleTrees.ProofsBind | crates/swarm-crypto/src/merkle.rs:163-201 | Any accepted path is the generated one for the true leaf, or two different inputs of the node hash with equal output are found |
| MerkleTrees.AcceptedExactly | crates/swarm-crypto/src/merkle.rs:163-201 | With an injective node hash a leaf hash and path are accepted if and only if they are the i-th leaf and its generated path |
| MerkleTrees.AcceptedAtAnySize | crates/swarm-crypto/src/merkle.rs:163-201 | With hashes kept apart, a proof of any claimed size and index is accepted if and only if the hash is some leaf, the path is that leaf's, and the claimed position takes the same turns as that leaf |
| MerkleTrees.ThirdAcceptedAsSecond | crates/swarm-crypto/src/merkle.rs:163-201 | The third of three leaves is accepted as the second of two |
| CanonicalNumbers.NormIsValue | crates/swarm-crypto/src/canonical.rs:109-162 | Normal forms are equal exactly when the decimals denote the same rational |
| CanonicalNumbers.PartsPreserveValue | crates/swarm-crypto/src/canonical.rs:109-162 | For every literal of either shape the extracted digits and exponent denote the same rational, without redundant zeros |
| CanonicalNumbers.ExponentFormExactly | crates/swarm-crypto/src/canonical.rs:77-107 | Exponent form is chosen exactly outside [1e-6, 1e21) |
| CanonicalNumbers.NumberTextReads | crates/swarm-crypto/src/canonical.rs:64-107 | The printed text of every finite number reads back as its exact value |
| CanonicalNumbers.SameTextSameValue | crates/swarm-crypto/src/canonical.rs:64-107 | Two finite numbers print alike if and only if they are equal, integers and doubles mixed |
| CanonicalNumbers.NumeralIsMinimal | crates/swarm-crypto/src/canonical.rs:164-203 | A printed numeral has no redundant zero, sign or point, and an exponent exactly outside [1e-6, 1e21) |
| CanonicalNumbers.TrimDecimalInPlace | crates/swarm-crypto/src/canonical.rs:193-203 | The pop loop removes trailing zeros and then a bare point |
| CanonicalStrings.EscapeReads | crates/swarm-crypto/src/canonical.rs:205-223 | An escaped string followed by a quote and anything reads back as the string and the rest |
| CanonicalStrings.EscapeIsShortest | crates/swarm-crypto/src/canonical.rs:205-223 | The escaped string is the only shortest text that reads back as the string |
| CanonicalStrings.EscapesExactly | crates/swarm-crypto/src/canonical.rs:205-223 | It holds no character of U+0000 to U+001F or U+007F to U+009F, and differs from the string exactly if that holds one of these, a quote or a backslash |
| CanonicalStrings.EscapeJsonString | crates/swarm-crypto/src/canonical.rs:205-223 | The loop computes the escaped string |
| CanonicalStrings.CompareUtf16 | crates/swarm-crypto/src/canonical.rs:47-62 | The loop orders strings by the first UTF-16 code unit in which they differ, a proper prefix first, and finds equal only equal strings |
| CanonicalStrings.UnitsInjective | crates/swarm-crypto/src/canonical.rs:47-62 | Different strings have different code units |
| CanonicalStrings.UnitsExactly | crates/swarm-crypto/src/canonical.rs:47-49 | The code units of a string are exactly those that the standard decoding turns into it |
| CanonicalStrings.BeforeExactly | crates/swarm-crypto/src/canonical.rs:47-62 | One key comes before another exactly if their units agree up to a place where it ends or has the smaller unit |
| CanonicalStrings.BeforeIsTotal | crates/swarm-crypto/src/canonical.rs:47-62 | The order is total and strict |
| CanonicalStrings.BeforeTransitive | crates/swarm-crypto/src/canonical.rs:47-62 | The order is transitive |
| CanonicalJson.Canonicalize | crates/swarm-crypto/src/canonical.rs:10-45 | Printing succeeds exactly when no number is infinite or not a number, and yields the canonical text |
| CanonicalJson.CanonicalizeItems | crates/swarm-crypto/src/canonical.rs:29-38 | The same for the loop over array items |
| CanonicalJson.CanonicalizeMembers | crates/swarm-crypto/src/canonical.rs:12-28 | The same for the loop over sorted members |
| CanonicalJson.MembersPrintedInOrder | crates/swarm-crypto/src/canonical.rs:12-28 | The members of an object are printed once each, one before another exactly if its key is less by code units |
| CanonicalJson.SortedUnique | crates/swarm-crypto/src/canonical.rs:12-28 | Strictly sorted lists with the same entries are equal |
| CanonicalJson.TextReads | crates/swarm-crypto/src/canonical.rs:10-45 | Followed by any text that can follow a value, the canonical text reads back as the value and that rest |
| CanonicalJson.RoundTrip | crates/swarm-crypto/src/canonical.rs:10-45 | Parsing the canonical text gives back exactly the value's data, all text consumed |
| CanonicalJson.TextIdentifiesData | crates/swarm-crypto/src/canonical.rs:10-45 | Two values print alike if and only if they are the same data up to member order and equal numbers |
| CanonicalJson.RecanonicalizingIsIdentity | crates/swarm-crypto/src/canonical.rs:10-45 | Printing what was read from a canonical text gives that text |
| CanonicalJson.MemberOrderIsIrrelevant | crates/swarm-crypto/src/canonical.rs:10-62 | Reordering members does not change the text |
| GovernanceModel.StagedKindsAreDestructive | crates/swarm-agents/src/tom_agent.rs:1255-1288 | The kinds leases are staged for are exactly the destructive ones |
| GovernanceRuns.RunIdentity | crates/swarm-agents/src/tom_agent.rs:514-568 | Over every run the key is the first one offered, the peers are exactly the other identities ever admitted, and the unhealthy agents are those of the last observation |
| GovernanceRuns.RunDisplay | crates/swarm-agents/src/tom_agent.rs:514-542 | Over every run the agents on display are those the key was registered for, and the governing agent is that of the last observation or else the first of these |
| GovernanceRuns.RunGovernors | crates/swarm-agents/src/tom_agent.rs:303-307 | The governors counted are the distinct identities of the key and of all peers admitted |
| GovernanceRuns.DecidedWithoutRound | crates/swarm-agents/src/tom_agent.rs:675-722 | Actions that are not destructive are allowed; without a key no other is; in a partition one is allowed exactly with the first lease that can be redeemed, and its receipt; none of these changes the policy |
| GovernanceRuns.ActIssues | crates/swarm-agents/src/tom_agent.rs:723-791 | Otherwise the decision carries the receipt of its round, if that committed, and allows exactly if it did and no agent was unhealthy |
| GovernanceRuns.FailClosedExactly | crates/swarm-agents/src/tom_agent.rs:675-791 | After every run, on the solo transport, a destructive action is allowed if and only if a key was registered and: in a partition some lease can be redeemed; otherwise no other identity was admitted and the last observation found all healthy |
| GovernanceRuns.StaysRefused | crates/swarm-agents/src/tom_agent.rs:553-568 | Once a key is set and another identity admitted, destructive actions outside a partition are refused for good, with no receipt and no change of state |
| GovernanceRuns.ReceiptChain | crates/swarm-agents/src/tom_agent.rs:1311-1429 | Over every run with any rounds failing, across decisions, staged leases and attestations, each receipt names the previous receipt's commit hash, the counter is the number of receipts, the head is the last commit hash, and one identity issued them all |
| GovernanceRuns.RunLinked | crates/swarm-agents/src/tom_agent.rs:1335-1342 | Every receipt of a run whose rounds commit over the chain head is hashed over its predecessor |
| GovernanceRuns.HeadIdentifiesHistory | crates/swarm-agents/src/tom_agent.rs:1335-1342 | With a collision-free hash, two runs whose rounds commit over the chain head, with equally many receipts and the same head, decided the same proposals in the same order |
| GovernanceRuns.SoloHeadIdentifiesHistory | crates/swarm-agents/src/tom_agent.rs:1335-1342 | The same for any two runs on the solo transport |
| GovernanceRounds.SoloOutcomeIs | crates/swarm-consensus/src/transport.rs:77-83 | On the solo transport the driver commits the proposal of a committee of one at once and refuses any other committee |
| GovernanceRounds.ReceiptNamesCommitted | crates/swarm-agents/src/tom_agent.rs:1330-1341 | Whatever the round's outcome, the receipt of a decision names the action if and only if the action's proposal is what was committed |
| GovernanceReceipts.ReceiptsTell | crates/swarm-agents/src/tom_agent.rs:1311-1342 | Over every run every receipt names the governors of the calls so far, their quorum, the key and the time, states what its round committed with both tallies, and approves if it is an attestation's or a lease's, or a decision's after an observation that found all healthy; else it vetoes |
| GovernanceReceipts.ReceiptBacked | crates/swarm-agents/src/tom_agent.rs:1311-1342 | After every run and on every transport the tallies on a decision's receipt count distinct governors, at least the quorum it states: the local one and senders of verified votes for its round and proposal that the transport handed over |
| GovernanceRounds.ReceiptNamesActionExactly | crates/swarm-agents/src/tom_agent.rs:1330-1341 | An action is allowed only with a receipt that names it, on every transport that cannot forge, if and only if the local governor leads round 0 and, with four or more governors, every round |
| GovernanceRounds.AllowedOnForeignReceipt | crates/swarm-agents/src/tom_agent.rs:1330-1341 | Otherwise some such transport has the action allowed on any given proposal of a peer |
| GovernanceRounds.StagedOnForeignReceipt | crates/swarm-agents/src/tom_agent.rs:1403-1429 | And has a lease staged that does not verify |
| GovernanceRounds.HeadCoveredExactly | crates/swarm-agents/src/tom_agent.rs:1318-1342 | A round commits only over the chain head, on every such transport, if and only if there are four or more governors, or the local one leads round 0, or no peer can propose after a lost commit |
| GovernanceRounds.TwoGovernorsFail | crates/swarm-agents/src/tom_agent.rs:1318-1342 | With two governors, after a concrete run, one transport has an action allowed on a foreign receipt and another breaks the chain |
| PartitionEras.PartitionExactly | crates/swarm-agents/src/tom_agent.rs:582-625 | After every run an observation leads into a partition exactly when the governors it leaves healthy, counted entry by entry, are no quorum of the registered agents or identities, whichever are more; never with at most f unhealthy; out of one only to healing; else to healthy or degraded by whether all agents are healthy |
| PartitionEras.ObservationTells | crates/swarm-agents/src/tom_agent.rs:596-650 | It announces on leaving a partition the report, and on every change the states and the governors counted; and remembers these counts, the time of the change, and when the partition began until all is healthy |
| PartitionEras.OthersTellNothing | crates/swarm-agents/src/tom_agent.rs:1039-1045 | No other call announces or moves any of this, but draining hands the notices over |
| PartitionEras.LeavesThroughHealing | crates/swarm-agents/src/tom_agent.rs:604-650 | Only an observation moves the partition state; leaving a partition leads to healing and announces exactly one report, of all activity; no other call of any kind announces one, and each keeps the activity and adds what it records |
| PartitionEras.AnsweredOnce | crates/swarm-agents/src/tom_agent.rs:801-927 | A destructive request in a partition is recorded exactly once, under its own names and time, as authorized if and only if the answer was a lease, with that lease, or with the reason of the refusal and the lease it concerns |
| PartitionEras.EraConservation | crates/swarm-agents/src/tom_agent.rs:570-657 | Over every run activity exists only in a partition and is exactly the era's records; each ended era has exactly one report with its start, its end, the receipts by then and its records in order, split by the flag; the last sixteen are kept |
| PartitionEras.SplitConserves | crates/swarm-agents/src/tom_agent.rs:1072-1104 | The split loses and repeats no record |
| PartitionEras.SplitKeepsOrder | crates/swarm-agents/src/tom_agent.rs:1072-1104 | And keeps their order |
| ContingencyLeases.RedeemMatchesPreview | crates/swarm-policy/src/formal_core.rs:199-248 | A lease can be redeemed exactly when redeeming it succeeds; redeeming again changes nothing |
| ContingencyLeases.RedeemExactly | crates/swarm-policy/src/formal_core.rs:181-248 | A lease is redeemed exactly if it is of the kind, pinned to no other scope, not expired, and has the scope or room for it; which of these fails is the error; the scope is added once |
| ContingencyLeases.AnsweredExactly | crates/swarm-agents/src/tom_agent.rs:801-927 | How a request is answered, case by case: no lease, malformed, unverified, unknown, mismatched, or as redeeming it says |
| ContingencyLeases.AuthorizedUnderReceipt | crates/swarm-agents/src/tom_agent.rs:801-927 | A request is authorized only under a receipt that verifies, approves and names exactly the terms of the lease |
| ContingencyLeases.StagedExactly | crates/swarm-agents/src/tom_agent.rs:1047-1070 | A lease of a kind is staged exactly if none of it is open, there is a key, leases have room and a lifetime, and the round commits |
| ContingencyLeases.EveryKindCovered | crates/swarm-agents/src/tom_agent.rs:1047-1070 | After an observation that ends healthy, with rounds that commit, every destructive kind has an open lease |
| ContingencyLeases.PreviewHonoured | crates/swarm-agents/src/tom_agent.rs:801-927 | The lease shown in a decision is accepted back if and only if it verifies and is the first active lease with its id |
| ContingencyLeases.BlastRadius | crates/swarm-agents/src/tom_agent.rs:1047-1070 | Over every run with distinct lease ids, however its rounds end, every authorized record names an unexpired lease staged for its kind; and unless the observation times relapse, no lease id is used for more distinct scopes than the cap |
| LeaseRuns.PreviewsHonoured | crates/swarm-agents/src/tom_agent.rs:801-927 | On every run with distinct ids, observation times that do not return within a lifetime, rounds that commit what they were run for and receipts that verify, the lease shown in a decision is accepted back |
| LeaseRuns.PreviewRefused | crates/swarm-agents/src/tom_agent.rs:801-927 | At any times that do return, a run on the solo transport after which it is refused |
| LeaseRuns.PreviewsExactly | crates/swarm-agents/src/tom_agent.rs:801-927 | For any list of observation times: every preview is honoured in every run on the solo transport that observes at a prefix of them, if and only if they do not return within a lifetime |
| LeaseRuns.RadiusExactly | crates/swarm-agents/src/tom_agent.rs:1047-1070 | For any list of observation times: no run on the solo transport that observes at them uses a lease id for more scopes than the cap, if and only if they do not relapse |
| LeaseRuns.Overuse | crates/swarm-agents/src/tom_agent.rs:1047-1070 | At any times that do relapse, with any cap, a run that uses one id for more scopes than the cap |
| LeaseRuns.BackwardClockBreaksRadius | crates/swarm-agents/src/tom_agent.rs:1047-1070 | The same for a clock that is set back once, with five observations |
| GovernancePolicies.RunOneRound | crates/swarm-agents/src/tom_agent.rs:1318-1333 | A fresh node on top of the chain head is driven over the transport |
| GovernancePolicies.GovernancePolicy.RunGovernanceRound | crates/swarm-agents/src/tom_agent.rs:1311-1342 | The chain moves exactly when the driven round commits |
| GovernancePolicies.GovernancePolicy.RegisterGovernor | crates/swarm-agents/src/tom_agent.rs:514-542 | Installs the key or, for a second different one, changes nothing; the key is never also a peer |
| GovernancePolicies.GovernancePolicy.RegisterPeer | crates/swarm-agents/src/tom_agent.rs:553-568 | Admits a peer other than the key's own identity |
| GovernancePolicies.GovernancePolicy.ObserveHealth | crates/swarm-agents/src/tom_agent.rs:570-657 | Moves the whole state as the observation function does, for the outcomes its rounds had |
| GovernancePolicies.GovernancePolicy.EnsureContingencyLeases | crates/swarm-agents/src/tom_agent.rs:1047-1070 | The loop stages leases kind by kind, each round starting from the chain the last one left |
| GovernancePolicies.GovernancePolicy.ReconcileActivity | crates/swarm-agents/src/tom_agent.rs:1072-1104 | The loop splits the era's records into one report and clears them |
| GovernancePolicies.GovernancePolicy.CanActAt | crates/swarm-agents/src/tom_agent.rs:675-791 | Decides as the decision function does; on the solo transport with the solo outcome |
| GovernancePolicies.GovernancePolicy.AuthorizePartitionRequest | crates/swarm-agents/src/tom_agent.rs:801-927 | Answers and records as the authorization function does |
| GovernancePolicies.GovernancePolicy.AttestRelease | crates/swarm-agents/src/tom_agent.rs:951-989 | Attests on the same chain, or changes nothing |
| GovernancePolicies.GovernancePolicy.NotePartitionVeto | crates/swarm-agents/src/tom_agent.rs:991-1013 | Records a veto only in a partition |
| GovernancePolicies.GovernancePolicy.DrainRuntimeEvents | crates/swarm-agents/src/tom_agent.rs:1039-1045 | Hands over all pending notices in order and changes nothing else |
| RateLimiting.MatchesFullLog | crates/swarm-core/src/http_rate_limit.rs:147-210 | With a non-decreasing clock, every verdict on a source that has not been evicted is the one its full admission log gives |
| RateLimiting.RejectsOnlyIfLogDoes | crates/swarm-core/src/http_rate_limit.rs:321-344 | With a non-decreasing clock and any evictions, a request is rejected only if the full log rejects it |
| RateLimiting.NoWindowExceedsLimit | crates/swarm-core/src/http_rate_limit.rs:147-210 | With a non-decreasing clock, no interval of a window's length holds more admissions than its limit of a source that is never evicted |
| RateLimiting.RetryIsExact | crates/swarm-core/src/http_rate_limit.rs:294-302 | With a non-decreasing clock, after a rejection with a positive limit of a source not evicted, the same threshold rejects each later request of the source before the announced time, and does not reject the first one at or after it |
| RateLimiting.VerdictsCount | crates/swarm-core/src/http_rate_limit.rs:160-186 | With a non-decreasing clock a request of a source not evicted is admitted exactly while both windows hold fewer admissions than their limits; else the burst limit is named if reached, and the sustained one if only that is |
| RateLimiting.TrackedExactly | crates/swarm-core/src/http_rate_limit.rs:321-332 | A source never evicted is tracked exactly from its first request on while its last admission lies within a sustained or a burst window |
| RateLimiting.KeptExactly | crates/swarm-core/src/http_rate_limit.rs:304-319 | The last 64 rejections are kept, newest first, each with its own source, path, threshold, time and delay |
| RateLimiting.LimitsHoldExactly | crates/swarm-core/src/http_rate_limit.rs:321-344 | For positive limits and windows beyond one millisecond, every run with a non-decreasing clock and requests from given sources keeps all limits if and only if these are at most 4096 |
| RateLimiting.EvictedExceedsLimit | crates/swarm-core/src/http_rate_limit.rs:321-344 | With any 4097 sources some run admits one of them once more than its tighter limit within one window |
| RateLimiting.RateLimiter.CheckSource | crates/swarm-core/src/http_rate_limit.rs:147-210 | The verdict, the tracked windows, the sources evicted and the recorded violation of one request |
| RateLimiting.RateLimiter.PruneWindow | crates/swarm-core/src/http_rate_limit.rs:285-292 | The pop loop drops the expired front |
| RateLimiting.RateLimiter.PushViolation | crates/swarm-core/src/http_rate_limit.rs:304-319 | Newest first, the oldest dropped beyond the cap |
| RateLimiting.RateLimiter.CompactSources | crates/swarm-core/src/http_rate_limit.rs:321-344 | Forgets idle sources, then evicts the least recently admitted down to the cap and no further |
| PathNormalization.NormalizePathForPolicy | crates/swarm-guard/src/path_normalization.rs:10-47 | The stack loop computes the normalization |
| PathNormalization.NormalizeIsLexical | crates/swarm-guard/src/path_normalization.rs:10-47 | It obeys the laws of lexical paths: backslashes separate, empty and `.` segments vanish, `..` takes back the segment before it and nothing at the root, a leading `./` and a trailing separator say nothing, and normal forms stay |
| PathNormalization.LawsDetermine | crates/swarm-guard/src/path_normalization.rs:10-47 | Whatever obeys these laws is the normalizer |
| PathNormalization.BackslashSeparates | crates/swarm-guard/src/path_normalization.rs:11-11 | A backslash separates like a slash |
| PathNormalization.UpTakesBack | crates/swarm-guard/src/path_normalization.rs:10-47 | A segment followed by `..` vanishes, wherever it stands |
| PathNormalization.NormalFormExactly | crates/swarm-guard/src/path_normalization.rs:10-47 | Every result is the root, `.`, or plain segments between slashes with `..` only first in a relative path, absolute exactly if the path starts with a separator; and the paths that stay as they are are exactly these |
| PathNormalization.NormalizeIsClean | crates/swarm-guard/src/path_normalization.rs:10-47 | The result has no empty or `.` segment (but the path `.`), and `..` only as a prefix of a relative path |
| PathNormalization.NormalizeIdempotent | crates/swarm-guard/src/path_normalization.rs:10-47 | Normalizing twice is normalizing once |
| PathNormalization.NormalizePrefix | crates/swarm-guard/src/path_normalization.rs:10-47 | A prefix may be normalized before the rest is appended if and only if it is not empty |
| PathNormalization.NormalizeTail | crates/swarm-guard/src/path_normalization.rs:10-47 | The rest may be normalized first if and only if it is relative, or does not climb above its own start, or the base is empty or the root |
| PathNormalization.TailCanDiffer | crates/swarm-guard/src/path_normalization.rs:10-47 | A base and a rest for which it may not |

## Left out

- CommitteeAgreement.Agreement: covers the signed path only, since an unsigned envelope names its sender freely, and the proposal id of the newest commit rather than its payload, since votes carry only the id.
- VoteProvenance.NextKeepsInv: leaves out the unsigned call for the same reason; what holds of it too is `HeardVotes.NextHeard`.
- DriveRounds.DriveRound: the round clock may not start after the driver's, and the saturation of 64-bit times is not modelled.
- GovernanceRuns.ReceiptChain: is about one process; decisions and attestations advance the chain without saving it.
- RateLimiting.RateLimiter.CompactSources: which of several equally old sources is evicted is left open, as a hash map leaves it.
- The inside of Ed25519, SHA-256, hex and serde: they are function parameters.
- The shortest decimal of a double: numbers start from the literal in either of the two shapes handed to the printer.
- The reasons inside a lease's failed verification: they are one reason.
- Two signing keys with the same derived identity: a key is its identity.
- The solo transport's record of its last 64 envelopes: nothing reads it back.
- File persistence, mutex poisoning, clock reads, tracing and status reports.
- Derivation of the request source from HTTP headers, and configuration changes of the limiter.
- Agents other than the governor, guards, stores, ingest, the command line and the user interface.
