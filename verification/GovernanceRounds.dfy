/**
 The rounds of the governance policy, as the consensus driver ends them on a given transport: what their
 receipts are about and what they are chained to, exactly.
 */
module GovernanceRounds {
  import opened Wrappers
  import opened ConsensusModel
  import opened CommitChain
  import opened ConsensusNodes
  import opened DriveRounds
  import opened ReturnedCommits
  import opened GovernanceModel
  import opened GovernanceRuns

  const ROUND_TIMEOUT: int := 1000

  /** The configuration of the node that runs a round. */
  function RoundConfig(p: Policy, s: State): Config
    requires SortedPeers(s.peers) && s.key.Some?
  {
    Config(s.key.value, true, Committee(Members(s), RecommendedMaxFaulty(|Members(s)|)), ROUND_TIMEOUT, p.crypto)
  }

  lemma RoundConfigValid(p: Policy, s: State)
    requires OneKey(s) && s.key.Some?
    ensures RoundConfig(p, s).Valid()
  {
    CommitteeOfOne(s);
    RecommendedIsLargest(|Members(s)|, 0);
  }

  /** How a round ends on a transport. */
  ghost function OutcomeOn(p: Policy, s: State, t: Transport, q: Proposal, at: int): RoundOutcome
    requires OneKey(s) && s.key.Some?
  {
    RoundConfigValid(p, s);
    Drive(RoundConfig(p, s), InitialState(s.previous, at), t, q, at).result
  }

  /** The round ended as the driver ends it on the transport. */
  ghost function DrivenOn(p: Policy, t: Transport, at: int): (State, Proposal, RoundOutcome) -> bool {
    (s: State, q, o) => OneKey(s) && s.key.Some? && o == OutcomeOn(p, s, t, q, at)
  }

  /** On the solo transport a round commits its proposal exactly for a committee of one. */
  lemma SoloOutcomeIs(p: Policy, s: State, q: Proposal, at: int)
    requires OneKey(s) && s.key.Some?
    ensures OutcomeOn(p, s, SOLO, q, at) == SoloOutcome(p, s, q)
  {
    hide QueueProposal, Loop;
    RoundConfigValid(p, s);
    CommitteeOfOne(s);
    var c := RoundConfig(p, s);
    if s.peers == [] {
      assert c.committee.members == [c.local];
      assert c.ProposerFor(s.previous, 0) == c.local;
      LeaderCommitsAtOnce(c, s.previous, q, at);
      SoloPublishes(c, QueueProposal(c, InitialState(s.previous, at), q, at).Outbound(), []);
    }
  }

  lemma {:induction false} SoloPublishes(c: Config, envelopes: seq<Envelope>, log: Log)
    requires c.holdsKey
    ensures Publish(c, SOLO, envelopes, log).result.Ok?
    decreases |envelopes|
  {
    if envelopes != [] {
      SoloPublishes(c, envelopes[1..], log + [SignedEnvelope(envelopes[0], c.crypto.sign(c.local, envelopes[0]))]);
    }
  }

  // -------------------------------------------------------------------------
  // What a receipt is about

  /** Whatever the round's outcome, the receipt of a decision names the action's proposal if and only if that is
      what was committed: the driver's result is never compared with the proposal asked for. */
  lemma ReceiptNamesCommitted(p: Policy, s: State, a: Action, now: int, at: int, outcome: RoundOutcome)
    requires SortedPeers(s.peers) && IsDestructive(a) && s.partition != Partitioned
    requires CanAct(p, s, a, now, at, outcome).verdict.receipt.Some?
    ensures outcome.Ok?
    ensures CanAct(p, s, a, now, at, outcome).verdict.receipt.value.proposalId == ActProposal(p, s, a).id
            <==> outcome.value.proposal.id == ActProposal(p, s, a).id
  {
    hide Members;
  }

  /** On every transport that cannot forge, an action is allowed only with a receipt that names it. */
  ghost predicate AlwaysNamesAction(p: Policy, s: State, a: Action, now: int, at: int)
    requires OneKey(s) && s.key.Some?
  {
    forall t | NoForgery(RoundConfig(p, s), t, {}) ::
      var verdict := CanAct(p, s, a, now, at, OutcomeOn(p, s, t, ActProposal(p, s, a), at)).verdict;
      verdict.Allow? && verdict.receipt.Some? ==> verdict.receipt.value.proposalId == ActProposal(p, s, a).id
  }

  /**
   What an allowed action's receipt is about, exactly.  Outside a partition, with all agents healthy and among
   peers whose signatures verify: an action is allowed only with a receipt that names it, on every transport that
   cannot forge, if and only if the local governor leads round 0 and, with four or more governors, every round.
   */
  lemma ReceiptNamesActionExactly(p: Policy, s: State, a: Action, now: int, at: int)
    requires OneKey(s) && s.key.Some? && IsDestructive(a) && s.partition != Partitioned && s.unhealthy == []
    requires PeersSign(RoundConfig(p, s))
    ensures RoundConfig(p, s).Valid()
    ensures AlwaysNamesAction(p, s, a, now, at) <==> LeadsAlone(RoundConfig(p, s), s.previous)
  {
    hide Drive, NoForgery, PeersSign, LeadsAlone, CanAct, RunRound;
    RoundConfigValid(p, s);
    var c, q := RoundConfig(p, s), ActProposal(p, s, a);
    OwnProposalExactly(c, s.previous, q, at);
    forall t | NoForgery(c, t, {}) ensures
      var outcome := OutcomeOn(p, s, t, q, at);
      var verdict := CanAct(p, s, a, now, at, outcome).verdict;
      && (verdict.Allow? <==> outcome.Ok?) && (outcome.Ok? <==> verdict.receipt.Some?)
      && (outcome.Ok? ==> (verdict.receipt.value.proposalId == q.id <==> outcome.value.proposal.id == q.id))
    {
      ActIssues(p, s, a, now, at, OutcomeOn(p, s, t, q, at));
      RoundReceipt(p, s, q, DecisionOf(s), at, OutcomeOn(p, s, t, q, at));
    }
  }

  lemma RoundReceipt(p: Policy, s: State, q: Proposal, decision: Decision, at: int, outcome: RoundOutcome)
    requires SortedPeers(s.peers) && s.key.Some?
    ensures var r := RunRound(s, q, decision, at, outcome).receipt;
            (r.Ok? <==> outcome.Ok?) && (outcome.Ok? ==> r.value.proposalId == outcome.value.proposal.id)
  {
    hide Members;
  }

  /** Where another governor can lead, some transport makes the policy allow an action on that governor's
      proposal. */
  lemma AllowedOnForeignReceipt(p: Policy, s: State, a: Action, now: int, at: int, y: Proposal) returns (t: Transport)
    requires OneKey(s) && s.key.Some? && IsDestructive(a) && s.partition != Partitioned && s.unhealthy == []
    requires RoundConfig(p, s).Valid() && PeersSign(RoundConfig(p, s)) && !LeadsAlone(RoundConfig(p, s), s.previous)
    ensures NoForgery(RoundConfig(p, s), t, {})
    ensures var verdict := CanAct(p, s, a, now, at, OutcomeOn(p, s, t, ActProposal(p, s, a), at)).verdict;
            verdict.Allow? && verdict.receipt.Some? && verdict.receipt.value.proposalId == y.id
  {
    hide Drive, NoForgery, PeersSign, LeadsAlone, CanAct, RunRound;
    var q := ActProposal(p, s, a);
    t := PeerProposalReturned(RoundConfig(p, s), s.previous, q, y, at);
    ActIssues(p, s, a, now, at, OutcomeOn(p, s, t, q, at));
    RoundReceipt(p, s, q, DecisionOf(s), at, OutcomeOn(p, s, t, q, at));
  }

  /** A lease staged on such a transport carries a foreign receipt, and is refused when presented. */
  lemma StagedOnForeignReceipt(p: Policy, s: State, kind: ActionKind, now: int, y: Proposal) returns (t: Transport)
    requires OneKey(s) && Stages(p, s, kind, now) && y.id != LeaseProposal(p, kind, now).id
    requires RoundConfig(p, s).Valid() && PeersSign(RoundConfig(p, s)) && !LeadsAlone(RoundConfig(p, s), s.previous)
    ensures NoForgery(RoundConfig(p, s), t, {})
    ensures var staged := StageLease(p, s, kind, now, OutcomeOn(p, s, t, LeaseProposal(p, kind, now), now)).leases;
            |staged| == |s.leases| + 1 && !LeaseVerifies(p, staged[|s.leases|])
  {
    hide Drive, NoForgery, PeersSign, LeadsAlone, HasOpenLease, Members;
    t := PeerProposalReturned(RoundConfig(p, s), s.previous, LeaseProposal(p, kind, now), y, now);
  }

  // -------------------------------------------------------------------------
  // What a receipt is chained to

  /** On every transport that cannot forge, a round commits only over the chain head. */
  ghost predicate AlwaysCoversHead(p: Policy, s: State, q: Proposal, at: int)
    requires OneKey(s) && s.key.Some?
  {
    forall t | NoForgery(RoundConfig(p, s), t, {}) ::
      var outcome := OutcomeOn(p, s, t, q, at); outcome.Ok? ==> CoversHead(p, s.previous, outcome.value)
  }

  /**
   What a receipt is chained to, exactly.  Among peers whose signatures verify, a round commits only over the chain
   head, on every transport that cannot forge, if and only if there are four or more governors, or the local one
   leads round 0, or no peer can propose after a lost commit.
   */
  lemma HeadCoveredExactly(p: Policy, s: State, q: Proposal, at: int)
    requires OneKey(s) && s.key.Some? && PeersSign(RoundConfig(p, s))
    ensures RoundConfig(p, s).Valid()
    ensures AlwaysCoversHead(p, s, q, at)
            <==> |Members(s)| >= 4 || NoneAfterLoss(RoundConfig(p, s), s.previous, q)
  {
    hide Drive, NoForgery, PeersSign, NoneAfterLoss, Members;
    RoundConfigValid(p, s);
    CoversExactly(RoundConfig(p, s), s.previous, q, at);
  }

  // -------------------------------------------------------------------------
  // A run on which both fail

  /** A policy whose rounds are scored as in the committee of two of `PairOfTwo`. */
  function PairPolicy(propose: Subject -> Proposal): Policy {
    Policy(PairOfTwo().crypto, 1, 1, propose, (kind, scope, from, to, cap) => "", r => true)
  }

  /** The local governor 0 with governor 1 admitted. */
  const TWO_GOVERNORS: seq<Call> := [Key(0, 0), Peer(1)]

  lemma TwoGovernors(p: Policy)
    ensures var s := GovernanceRuns.Run(p, INITIAL_STATE, TWO_GOVERNORS);
            s.key == Some(0) && s.peers == [1] && s.partition == Healthy && s.unhealthy == []
            && s.previous == "governance-bootstrap"
  {
    assert TWO_GOVERNORS[..1] == [Key(0, 0)] && [Key(0, 0)][..0] == [];
    assert GovernanceRuns.Run(p, INITIAL_STATE, []) == INITIAL_STATE;
  }

  lemma PairElects(propose: Subject -> Proposal)
    ensures var p := PairPolicy(propose); var s := GovernanceRuns.Run(p, INITIAL_STATE, TWO_GOVERNORS);
            && s.key.Some? && RoundConfig(p, s).Valid() && PeersSign(RoundConfig(p, s))
            && RoundConfig(p, s).committee == Committee([0, 1], 0)
            && RoundConfig(p, s).ProposerFor(s.previous, 0) == 1
            && (forall h, r: nat :: RoundConfig(p, s).ProposerFor(h, r) == if r == 0 then 1 else 0)
  {
    hide GovernanceRuns.Run;
    var p := PairPolicy(propose);
    var s := GovernanceRuns.Run(p, INITIAL_STATE, TWO_GOVERNORS);
    TwoGovernors(p);
    RoundConfigValid(p, s);
    assert Insert(0, [1]) == [0, 1];
    var c := RoundConfig(p, s);
    assert c.committee.members[0] == 0 && c.committee.members[1] == 1;
    forall h, r: nat ensures c.ProposerFor(h, r) == if r == 0 then 1 else 0 {
      assert c.crypto.score(h, r, c.ProposerFor(h, r)) == 1;
    }
  }

  /** With two governors, of whom the other leads round 0, some transport makes the policy allow an action on the
      other's proposal, and some makes a round return a commit that is not hashed over the chain head. */
  lemma TwoGovernorsFail(propose: Subject -> Proposal, a: Action, now: int, at: int, y: Proposal)
    returns (foreign: Transport, unchained: Transport)
    requires IsDestructive(a)
    ensures var p := PairPolicy(propose); var s := GovernanceRuns.Run(p, INITIAL_STATE, TWO_GOVERNORS);
            && s.key.Some? && s.partition != Partitioned
            && NoForgery(RoundConfig(p, s), foreign, {}) && NoForgery(RoundConfig(p, s), unchained, {})
            && (var verdict := CanAct(p, s, a, now, at, OutcomeOn(p, s, foreign, ActProposal(p, s, a), at)).verdict;
                verdict.Allow? && verdict.receipt.Some? && verdict.receipt.value.proposalId == y.id)
            && (var outcome := OutcomeOn(p, s, unchained, ActProposal(p, s, a), at);
                outcome.Ok? && !CoversHead(p, s.previous, outcome.value))
  {
    hide GovernanceRuns.Run, Drive, NoForgery, PeersSign, CanAct, Members, Config.ProposerFor;
    var p := PairPolicy(propose);
    var s := GovernanceRuns.Run(p, INITIAL_STATE, TWO_GOVERNORS);
    TwoGovernors(p);
    PairElects(propose);
    var c, q := RoundConfig(p, s), ActProposal(p, s, a);
    foreign := AllowedOnForeignReceipt(p, s, a, now, at, y);
    assert !LeadsAll(c, c.crypto.commitHash(1, 1, s.previous, q)) by {
      assert c.ProposerFor(c.crypto.commitHash(1, 1, s.previous, q), 0) == 1;
    }
    assert c.ProposerFor(s.previous, 1) == 0;
    unchained := SecondHeightReturned(c, s.previous, q, at);
  }
}
