/**
 What the receipts of the governance policy say, over every run: the decision, the governors, the quorum and the time
 they name, and the votes their tallies count.
 */
module GovernanceReceipts {
  import opened Wrappers
  import opened ConsensusModel
  import opened ConsensusNodes
  import opened CommitChain
  import opened HeardVotes
  import opened DriveRounds
  import opened GovernanceModel
  import opened GovernanceRuns
  import opened GovernanceRounds
  import opened PartitionEras

  /** The entries of the last observation. */
  function LastEntries(calls: seq<Call>): seq<HealthEntry> {
    if calls == [] then []
    else if calls[|calls| - 1].Health? then calls[|calls| - 1].entries
    else LastEntries(calls[..|calls| - 1])
  }

  predicate AllHealthy(entries: seq<HealthEntry>) { forall i | 0 <= i < |entries| :: entries[i].health == IsHealthy }

  lemma {:induction false} HealthyExactly(calls: seq<Call>)
    ensures LastUnhealthy(calls) == [] <==> AllHealthy(LastEntries(calls))
  {
    hide UnhealthyOf;
    if calls != [] {
      var last := calls[|calls| - 1];
      if last.Health? { NoneUnhealthy(last.entries); } else { HealthyExactly(calls[..|calls| - 1]); }
    }
  }

  /** The receipt states the decision, the time and what was committed. */
  predicate Certifies(r: Receipt, decision: Decision, at: int, commit: CommitRecord) {
    && r.decision == decision && r.issuedAt == at && r.height == commit.height && r.round == commit.round
    && r.commitHash == commit.hash && r.proposalId == commit.proposal.id
    && r.prevoteTally == commit.prevoteTally && r.precommitTally == commit.precommitTally
  }

  /** It names the governors of the calls, in order, the quorum of so many, and the key as its issuer. */
  ghost predicate NamesGovernors(calls: seq<Call>, r: Receipt) {
    && SortedPeers(r.committee) && (forall a :: a in r.committee <==> a in Governors(calls))
    && |r.committee| == |Governors(calls)| && r.threshold == 2 * RecommendedMaxFaulty(|Governors(calls)|) + 1
    && FirstKey(calls) == Some(r.issuedBy)
  }

  ghost predicate NamesMembers(s: State, r: Receipt)
    requires SortedPeers(s.peers)
  {
    r.committee == Members(s) && r.threshold == 2 * RecommendedMaxFaulty(|Members(s)|) + 1 && s.key == Some(r.issuedBy)
  }

  lemma MembersAreGovernors(p: Policy, calls: seq<Call>, r: Receipt)
    requires NamesMembers(GovernanceRuns.Run(p, INITIAL_STATE, calls), r)
    ensures NamesGovernors(calls, r)
  {
    hide GovernanceRuns.Run, Governors, RecommendedMaxFaulty;
    var s := GovernanceRuns.Run(p, INITIAL_STATE, calls);
    RunGovernors(p, calls);
    RunIdentity(p, calls);
    PeersSize(Members(s));
    assert PeerSet(Members(s)) == Governors(calls);
  }

  lemma RoundCertifies(s: State, q: Proposal, decision: Decision, at: int, outcome: RoundOutcome)
    requires SortedPeers(s.peers)
    ensures var issued := RunRound(s, q, decision, at, outcome);
            && (issued.receipt.Ok? <==> s.key.Some? && outcome.Ok?)
            && (issued.receipt.Ok? ==>
                  Certifies(issued.receipt.value, decision, at, outcome.value) && NamesMembers(s, issued.receipt.value))
            && issued.state.peers == s.peers && issued.state.key == s.key
  {
    hide Members, RecommendedMaxFaulty;
  }

  /** A newly staged lease carries a receipt of its round. */
  ghost predicate Carries(s: State, l: Lease, now: int, outcomes: ActionKind -> RoundOutcome)
    requires SortedPeers(s.peers)
  {
    && outcomes(l.kind).Ok? && Certifies(l.receipt, Approve, now, outcomes(l.kind).value) && NamesMembers(s, l.receipt)
  }

  lemma {:induction false} StagedCarry(
    p: Policy, s: State, kinds: seq<ActionKind>, now: int, outcomes: ActionKind -> RoundOutcome)
    requires SortedPeers(s.peers)
    ensures var t := StageLeases(p, s, kinds, now, outcomes);
            s.leases <= t.leases && forall i | |s.leases| <= i < |t.leases| :: Carries(s, t.leases[i], now, outcomes)
    decreases |kinds|
  {
    hide HasOpenLease, RunRound, NamesMembers, Certifies;
    if kinds != [] {
      var m := StageLease(p, s, kinds[0], now, outcomes(kinds[0]));
      StageCarries(p, s, kinds[0], now, outcomes);
      StagedCarry(p, m, kinds[1..], now, outcomes);
      var t := StageLeases(p, s, kinds, now, outcomes);
      forall i | |s.leases| <= i < |t.leases| ensures Carries(s, t.leases[i], now, outcomes) {
        if i < |m.leases| { assert t.leases[i] == m.leases[i]; }
        else { SameMembers(s, m, t.leases[i].receipt); }
      }
    }
  }

  lemma SameMembers(s: State, t: State, r: Receipt)
    requires SortedPeers(s.peers) && t.peers == s.peers && t.key == s.key
    ensures NamesMembers(s, r) == NamesMembers(t, r)
  {
  }

  lemma StageCarries(p: Policy, s: State, kind: ActionKind, now: int, outcomes: ActionKind -> RoundOutcome)
    requires SortedPeers(s.peers)
    ensures var t := StageLease(p, s, kind, now, outcomes(kind));
            && t.peers == s.peers && t.key == s.key && s.leases <= t.leases && |t.leases| <= |s.leases| + 1
            && forall i | |s.leases| <= i < |t.leases| :: Carries(s, t.leases[i], now, outcomes)
  {
    hide HasOpenLease, NamesMembers, Certifies, RunRound;
    RoundCertifies(s, LeaseProposal(p, kind, now), Approve, now, outcomes(kind));
    RoundLeases(s, LeaseProposal(p, kind, now), Approve, now, outcomes(kind));
  }

  lemma RoundLeases(s: State, q: Proposal, decision: Decision, at: int, outcome: RoundOutcome)
    requires SortedPeers(s.peers)
    ensures RunRound(s, q, decision, at, outcome).state.leases == s.leases
  {
  }

  /** How the receipts of a call are accounted for: an attestation and a staged lease approve; a decision approves
      exactly if the last observation found every agent healthy. */
  ghost predicate Accounted(calls: seq<Call>, call: Call, r: Receipt) {
    match call
    case Act(_, _, issuedAt, outcome) =>
      outcome.Ok? && Certifies(r, if AllHealthy(LastEntries(calls)) then Approve else Veto, issuedAt, outcome.value)
    case Attest(_, now, outcome) => outcome.Ok? && Certifies(r, Approve, now, outcome.value)
    case Health(_, _, now, outcomes) =>
      exists kind :: kind in DESTRUCTIVE_KINDS && outcomes(kind).Ok? && Certifies(r, Approve, now, outcomes(kind).value)
    case _ => false
  }

  /**
   What receipts say.  Over every run, every receipt a call hands out names the governors of the calls so far and
   their quorum, is issued by the key, and states the time, the decision and what its round committed.
   */
  lemma ReceiptsTell(p: Policy, calls: seq<Call>, call: Call, r: Receipt)
    requires r in IssuedBy(p, GovernanceRuns.Run(p, INITIAL_STATE, calls), call)
    ensures NamesGovernors(calls, r) && Accounted(calls, call, r)
  {
    hide GovernanceRuns.Run, NamesGovernors, NamesMembers, Accounted, IssuedBy;
    ReceiptsCertify(p, calls, call, r);
    MembersAreGovernors(p, calls, r);
  }

  lemma ReceiptsCertify(p: Policy, calls: seq<Call>, call: Call, r: Receipt)
    requires r in IssuedBy(p, GovernanceRuns.Run(p, INITIAL_STATE, calls), call)
    ensures NamesMembers(GovernanceRuns.Run(p, INITIAL_STATE, calls), r) && Accounted(calls, call, r)
  {
    hide GovernanceRuns.Run, RunRound, NamesMembers, Certifies, ObserveHealth, FirstRedeemable, LastEntries, AllHealthy,
         LastUnhealthy;
    var s := GovernanceRuns.Run(p, INITIAL_STATE, calls);
    RunIdentity(p, calls);
    HealthyExactly(calls);
    match call
    case Act(a, now, issuedAt, outcome) =>
      RoundCertifies(s, ActProposal(p, s, a), DecisionOf(s), issuedAt, outcome);
    case Attest(body, now, outcome) => RoundCertifies(s, p.propose(ReleaseSubject(body)), Approve, now, outcome);
    case Health(agent, entries, now, outcomes) => HealthAccounted(p, s, agent, entries, now, outcomes, r);
    case _ =>
  }

  lemma HealthAccounted(
    p: Policy, s: State, agent: AgentId, entries: seq<HealthEntry>, now: int, outcomes: ActionKind -> RoundOutcome,
    r: Receipt)
    requires SortedPeers(s.peers) && r in IssuedBy(p, s, Health(agent, entries, now, outcomes))
    ensures NamesMembers(s, r) && Accounted([], Health(agent, entries, now, outcomes), r)
  {
    hide StageLeases, ObservePartition, Unexpired, NamesMembers, Certifies, Carries;
    var t := GovernanceRuns.Observed(s, agent, entries, now);
    ObservedPeers(s, agent, entries, now);
    StagedCarry(p, t, DESTRUCTIVE_KINDS, now, outcomes);
    var after := ObserveHealth(p, s, agent, entries, now, outcomes).leases;
    var i :| |t.leases| <= i < |after| && after[i].receipt == r;
    StagedKindIs(p, t, DESTRUCTIVE_KINDS, now, outcomes, i);
    CarriesMeans(t, after[i], now, outcomes);
    SameMembers(s, t, r);
  }

  lemma CarriesMeans(s: State, l: Lease, now: int, outcomes: ActionKind -> RoundOutcome)
    requires SortedPeers(s.peers) && Carries(s, l, now, outcomes)
    ensures outcomes(l.kind).Ok? && Certifies(l.receipt, Approve, now, outcomes(l.kind).value)
    ensures NamesMembers(s, l.receipt)
  {
  }

  lemma {:induction false} StagedKindIs(
    p: Policy, s: State, kinds: seq<ActionKind>, now: int, outcomes: ActionKind -> RoundOutcome, i: nat)
    requires SortedPeers(s.peers) && |s.leases| <= i < |StageLeases(p, s, kinds, now, outcomes).leases|
    ensures StageLeases(p, s, kinds, now, outcomes).leases[i].kind in kinds
    decreases |kinds|
  {
    hide HasOpenLease, Members;
    if kinds != [] {
      var m := StageLease(p, s, kinds[0], now, outcomes(kinds[0]));
      StageFrame(p, m, kinds[1..], now, outcomes);
      if i >= |m.leases| { StagedKindIs(p, m, kinds[1..], now, outcomes, i); }
    }
  }

  // -------------------------------------------------------------------------
  // The votes behind a receipt

  /** The commit as far as the receipt tells it. */
  function CommitOf(r: Receipt): CommitRecord {
    CommitRecord(r.height, r.round, Proposal(r.proposalId, ""), r.prevoteTally, r.precommitTally, r.commitHash)
  }

  lemma SameTally(c: Config, heard: set<Message>, place: Place, commit: CommitRecord, r: Receipt)
    requires Tallied(c, heard, place, commit) && r.prevoteTally == commit.prevoteTally
    requires r.precommitTally == commit.precommitTally && r.round == commit.round && r.proposalId == commit.proposal.id
    ensures Tallied(c, heard, place, CommitOf(r))
  {
    hide AreVoters;
  }

  /**
   The votes behind a receipt.  After every run and on every transport, the tallies on the receipt of a decision count
   distinct governors, at least the quorum it states: the local one, and senders of verified votes, for the round and
   the proposal the receipt names, that the transport handed over.
   */
  lemma ReceiptBacked(p: Policy, calls: seq<Call>, t: Transport, a: Action, now: int, at: int, r: Receipt)
    returns (heard: set<Message>, place: Place)
    requires var s := GovernanceRuns.Run(p, INITIAL_STATE, calls);
             && s.key.Some? && s.partition != Partitioned && IsDestructive(a)
             && CanAct(p, s, a, now, at, OutcomeOn(p, s, t, ActProposal(p, s, a), at)).verdict.receipt == Some(r)
    ensures var c := RoundConfig(p, GovernanceRuns.Run(p, INITIAL_STATE, calls));
            && Tallied(c, heard, place, CommitOf(r)) && r.threshold == c.committee.Threshold()
            && (forall b :: b in c.committee.members <==> b in Governors(calls))
            && (forall m | m in heard :: exists e: SignedEnvelope, n: nat, log ::
                  && e.envelope.message == m && c.crypto.verifies(e)
                  && t.drain(n, log).Ok? && e in t.drain(n, log).value)
  {
    hide GovernanceRuns.Run, Drive, RunRound, CanAct, Tallied, Governors, CommitChain.Run, HeardDuring, NoneSwallowed;
    var s := GovernanceRuns.Run(p, INITIAL_STATE, calls);
    var q := ActProposal(p, s, a);
    var outcome := OutcomeOn(p, s, t, q, at);
    var c := RoundConfig(p, s);
    RoundConfigValid(p, s);
    ActIssues(p, s, a, now, at, outcome);
    RoundCertifies(s, q, DecisionOf(s), at, outcome);
    RunGovernors(p, calls);
    var events := DriveTallied(c, t, s.previous, q, at);
    heard := HeardDuring(c, events);
    place := if NoneSwallowed(c, InitialState(s.previous, at), events) then At(1, s.previous) else Anywhere;
    SameTally(c, heard, place, outcome.value, r);
    HeardFromTransport(c, t, events, q, at);
  }

  lemma {:induction false} HeardFromTransport(c: Config, t: Transport, events: seq<Event>, q: Proposal, at: int)
    requires events != [] && events[0] == Queue(q, at) && forall i | 1 <= i < |events| :: FromTransport(t, events[i])
    ensures forall m | m in HeardDuring(c, events) :: exists e: SignedEnvelope, n: nat, log ::
              && e.envelope.message == m && c.crypto.verifies(e)
              && t.drain(n, log).Ok? && e in t.drain(n, log).value
    decreases |events|
  {
    var front, last := events[..|events| - 1], events[|events| - 1];
    if |events| == 1 { assert HeardDuring(c, front) == {}; }
    else {
      HeardFromTransport(c, t, front, q, at);
      assert FromTransport(t, last);
    }
  }
}
