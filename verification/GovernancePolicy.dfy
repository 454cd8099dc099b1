/**
 `GovernancePolicy` as it is written: an object whose methods update the locked state in place and run each
 round through the consensus driver.  Every method is proved to move the fields exactly as the
 corresponding function of `GovernanceModel`, for the outcome its round had.
 */
module GovernancePolicies {
  import opened Wrappers
  import opened ConsensusModel
  import opened ConsensusNodes
  import opened DriveRounds
  import opened GovernanceRounds
  import opened GovernanceModel
  import opened GovernanceRuns

  /** One governance round: a fresh node, on top of the chain head, driven over the transport. */
  method RunOneRound(p: Policy, s: State, t: Transport, q: Proposal, issuedAt: int) returns (outcome: RoundOutcome)
    requires OneKey(s) && s.key.Some?
    ensures outcome == OutcomeOn(p, s, t, q, issuedAt)
  {
    hide Drive;
    var members := Insert(s.key.value, s.peers);
    RoundConfigValid(p, s);
    var config := Config(s.key.value, true, Committee(members, RecommendedMaxFaulty(|members|)), ROUND_TIMEOUT,
                         p.crypto);
    assert config == RoundConfig(p, s);
    var made := ConsensusNode.New(config, s.previous, issuedAt);
    var node := made.value;
    var handled, ticks, log;
    outcome, handled, ticks, log := DriveRound(node, t, q, issuedAt);
  }

  // -------------------------------------------------------------------------
  // The loops over collections

  /** The records with the given flag, after one more record. */
  lemma {:induction false} SplitAppended(records: seq<Record>, r: Record, authorized: bool)
    ensures Split(records + [r], authorized)
            == Split(records, authorized) + (if r.authorized == authorized then [r] else [])
  {
    if records == [] { assert records + [r] == [r]; assert [r][1..] == []; }
    else {
      SplitAppended(records[1..], r, authorized);
      assert (records + [r])[1..] == records[1..] + [r];
    }
  }

  method SplitActivity(records: seq<Record>) returns (authorized: seq<Record>, unauthorized: seq<Record>)
    ensures authorized == Split(records, true) && unauthorized == Split(records, false)
  {
    authorized, unauthorized := [], [];
    for i := 0 to |records|
      invariant authorized == Split(records[..i], true) && unauthorized == Split(records[..i], false)
    {
      SplitAppended(records[..i], records[i], true);
      SplitAppended(records[..i], records[i], false);
      assert records[..i + 1] == records[..i] + [records[i]];
      if records[i].authorized { authorized := authorized + [records[i]]; }
      else { unauthorized := unauthorized + [records[i]]; }
    }
    assert records[..|records|] == records;
  }

  lemma HealthTouches(p: Policy, s: State, agent: AgentId, entries: seq<HealthEntry>, now: int)
    requires OneKey(s)
    ensures var t := ObservePartition(s, agent, entries, now);
            && OneKey(t.(leases := Unexpired(t.leases, now)))
            && t.leases == s.leases && Members(t.(leases := Unexpired(t.leases, now))) == Members(s)
  {
    hide UnhealthyOf, BaseState, HealthyGovernors, ReportOf, Trimmed, Unexpired;
  }

  // -------------------------------------------------------------------------
  // The policy object

  class GovernancePolicy {
    const policy: Policy
    const transport: Transport
    var governing: Option<AgentId>
    var display: map<AgentId, AgentId>
    var key: Option<AgentId>
    var peers: seq<AgentId>
    var unhealthy: seq<HealthEntry>
    var previous: Hash
    var counter: nat
    var partition: PartitionState
    var partitionStartedAt: Option<int>
    var lastTransitionAt: Option<int>
    var lastHealthyGovernors: nat
    var lastQuorum: nat
    var leases: seq<Lease>
    var activity: seq<Record>
    var reports: seq<Report>
    var notices: seq<Notice>

    function State(): State
      reads this
    {
      GovernanceModel.State(governing, display, key, peers, unhealthy, previous, counter, partition, partitionStartedAt,
                            lastTransitionAt, lastHealthyGovernors, lastQuorum, leases, activity, reports, notices)
    }

    ghost predicate Valid()
      reads this
    {
      OneKey(State())
    }

    constructor (policy: Policy, transport: Transport)
      ensures this.policy == policy && this.transport == transport && State() == INITIAL_STATE && Valid()
    {
      this.policy, this.transport := policy, transport;
      governing, display, key, peers, unhealthy := None, map[], None, [], [];
      previous, counter, partition := "governance-bootstrap", 0, Healthy;
      partitionStartedAt, lastTransitionAt, lastHealthyGovernors, lastQuorum := None, None, 0, 0;
      leases, activity, reports, notices := [], [], [], [];
    }

    method RegisterGovernor(agent: AgentId, offered: AgentId) returns (accepted: bool)
      requires Valid()
      modifies this
      ensures Valid()
      ensures Registered(State(), accepted) == GovernanceModel.RegisterGovernor(old(State()), agent, offered)
    {
      if key.Some? && key.value != offered { return false; }
      if governing.None? { governing := Some(agent); }
      display := display[agent := offered];
      peers := Without(peers, offered);
      key := Some(offered);
      return true;
    }

    method RegisterPeer(peer: AgentId)
      requires Valid()
      modifies this
      ensures Valid() && State() == GovernanceModel.RegisterPeer(old(State()), peer)
    {
      if key == Some(peer) { return; }
      peers := Insert(peer, peers);
    }

    /** Moves the chain exactly when the round commits. */
    method RunGovernanceRound(q: Proposal, decision: Decision, issuedAt: int)
      returns (r: Result<Receipt, ConsensusError>, ghost outcome: RoundOutcome)
      requires Valid()
      modifies this`previous, this`counter
      ensures Issued(State(), r) == RunRound(old(State()), q, decision, issuedAt, outcome)
      ensures key.Some? ==> outcome == OutcomeOn(policy, old(State()), transport, q, issuedAt)
    {
      hide OutcomeOn;
      outcome := Err(InvalidCommittee);
      if key.None? { return Err(InvalidCommittee), outcome; }
      var members := Insert(key.value, peers);
      var ended := RunOneRound(policy, State(), transport, q, issuedAt);
      outcome := ended;
      match ended
      case Err(error) => return Err(error), outcome;
      case Ok(commit) =>
        var receipt := Receipt(decision, members, 2 * RecommendedMaxFaulty(|members|) + 1, commit.height, commit.round,
                               previous, commit.hash, commit.proposal.id, commit.prevoteTally, commit.precommitTally,
                               key.value, issuedAt);
        previous, counter := commit.hash, counter + 1;
        return Ok(receipt), outcome;
    }

    method HasOpenLease(kind: ActionKind, now: int) returns (open: bool)
      ensures open == GovernanceModel.HasOpenLease(leases, kind, now)
    {
      for i := 0 to |leases|
        invariant !GovernanceModel.HasOpenLease(leases[..i], kind, now)
      {
        var l := leases[i];
        if l.kind == kind && l.scope.None? && now < l.expiresAt && |l.redeemed| < l.cap { return true; }
      }
      assert leases[..|leases|] == leases;
      return false;
    }

    /** One turn of the staging loop. */
    method StageOne(kind: ActionKind, now: int) returns (ghost outcome: RoundOutcome)
      requires Valid()
      modifies this`previous, this`counter, this`leases
      ensures State() == StageLease(policy, old(State()), kind, now, outcome)
      ensures old(Stages(policy, State(), kind, now)) ==>
                DrivenOn(policy, transport, now)(old(State()), LeaseProposal(policy, kind, now), outcome)
    {
      hide GovernanceModel.HasOpenLease, Members, RecommendedMaxFaulty, OutcomeOn;
      outcome := Err(InvalidCommittee);
      var open := HasOpenLease(kind, now);
      if open || key.None? || policy.leaseCap == 0 || policy.leaseTtl <= 0 { return; }
      var expiresAt := now + policy.leaseTtl;
      var id := policy.leaseIdOf(kind, None, now, expiresAt, policy.leaseCap);
      var subject := LeaseSubject(id, kind, None, policy.leaseCap, policy.leaseTtl, now, expiresAt);
      var receipt;
      receipt, outcome := RunGovernanceRound(policy.propose(subject), Approve, now);
      if receipt.Ok? {
        leases := leases + [Lease(CONTINGENCY_LEASE_SCHEMA_VERSION, id, kind, None, policy.leaseCap, policy.leaseTtl,
                                  now, expiresAt, [], receipt.value)];
      }
    }

    method EnsureContingencyLeases(now: int) returns (ghost outcomes: ActionKind -> RoundOutcome)
      requires Valid()
      modifies this`previous, this`counter, this`leases
      ensures State() == StageLeases(policy, old(State()), DESTRUCTIVE_KINDS, now, outcomes)
      ensures EachStaged(policy, old(State()), DESTRUCTIVE_KINDS, now, outcomes, DrivenOn(policy, transport, now))
    {
      hide StageLease, StageLeases, EachStaged, Stages, DrivenOn, LeaseProposal, Updated;
      outcomes := (k: ActionKind) => Err(InvalidCommittee);
      ghost var s := State();
      StagedNothing(policy, s, now, outcomes, DrivenOn(policy, transport, now));
      for n := 0 to |DESTRUCTIVE_KINDS|
        invariant Valid() && State() == StageLeases(policy, s, DESTRUCTIVE_KINDS[..n], now, outcomes)
        invariant OnlyStages(s, State())
        invariant EachStaged(policy, s, DESTRUCTIVE_KINDS[..n], now, outcomes, DrivenOn(policy, transport, now))
      {
        var kind := DESTRUCTIVE_KINDS[n];
        ghost var before := outcomes;
        ghost var outcome := StageOne(kind, now);
        outcomes := Updated(before, kind, outcome);
        StageTurn(policy, s, n, now, before, outcome, DrivenOn(policy, transport, now));
      }
      assert DESTRUCTIVE_KINDS[..|DESTRUCTIVE_KINDS|] == DESTRUCTIVE_KINDS;
    }

    /** Takes the era's records and keeps the last reports. */
    method ReconcileActivity(now: int) returns (report: Report)
      modifies this`activity, this`reports
      ensures State() == Reconcile(old(State()), now) && report == ReportOf(old(State()), now)
    {
      var authorized, unauthorized := SplitActivity(activity);
      activity := [];
      report := Report(now, counter, partitionStartedAt, authorized, unauthorized);
      reports := reports + [report];
      if |reports| > MAX_RECONCILIATION_REPORTS { reports := reports[|reports| - MAX_RECONCILIATION_REPORTS..]; }
    }

    method MoveTo(next: PartitionState, agent: AgentId, now: int, healthy: nat, total: nat, quorum: nat)
      modifies this
      ensures State() == Moved(old(State()), next, agent, now, healthy, total, quorum)
    {
      if partition == next { return; }
      if next == Partitioned { partitionStartedAt := Some(now); }
      else if next == Healthy { partitionStartedAt := None; }
      lastTransitionAt := Some(now);
      notices := notices + [Transition(now, agent, partition, next, healthy, total, quorum)];
      partition := next;
    }

    method Assess(agent: AgentId, entries: seq<HealthEntry>)
      returns (healthy: nat, total: nat, quorum: nat, base: PartitionState)
      modifies this
      ensures State() == Assessed(old(State()), agent, entries)
      ensures total == TotalGovernors(old(State())) && quorum == QuorumThreshold(total)
      ensures healthy == HealthyGovernors(old(State()), entries) && base == BaseState(old(State()), entries)
    {
      hide UnhealthyOf, UnhealthyGovernors, QuorumThreshold;
      governing := Some(agent);
      unhealthy := UnhealthyOf(entries);
      total := TotalGovernors(State());
      var bad := UnhealthyGovernors(entries, display);
      healthy := if total >= bad then total - bad else 0;
      quorum := QuorumThreshold(total);
      lastHealthyGovernors, lastQuorum := healthy, quorum;
      base := if healthy < quorum then Partitioned else if unhealthy == [] then Healthy else Degraded;
    }

    /** The partition part of an observation. */
    method ObservePartition(agent: AgentId, entries: seq<HealthEntry>, now: int)
      modifies this
      ensures State() == GovernanceModel.ObservePartition(old(State()), agent, entries, now)
    {
      hide UnhealthyOf, HealthyGovernors, TotalGovernors, QuorumThreshold, BaseState, ReportOf, Trimmed, Moved;
      var healthy, total, quorum, base := Assess(agent, entries);
      var next := base;
      if partition == Partitioned && base != Partitioned {
        var report := ReconcileActivity(now);
        notices := notices + [Reconciliation(now, agent, report)];
        next := Healing;
      }
      MoveTo(next, agent, now, healthy, total, quorum);
    }

    method ObserveHealth(agent: AgentId, entries: seq<HealthEntry>, now: int)
      returns (ghost outcomes: ActionKind -> RoundOutcome)
      requires Valid()
      modifies this
      ensures Valid() && State() == GovernanceModel.ObserveHealth(policy, old(State()), agent, entries, now, outcomes)
      ensures EachRound(policy, old(State()), Health(agent, entries, now, outcomes), DrivenOn(policy, transport, now))
    {
      hide StageLeases, EachStaged, GovernanceModel.ObservePartition, Unexpired, Members, DrivenOn;
      ghost var s := State();
      outcomes := (k: ActionKind) => Err(InvalidCommittee);
      ObservePartition(agent, entries, now);
      HealthTouches(policy, s, agent, entries, now);
      leases := Unexpired(leases, now);
      assert State() == Observed(s, agent, entries, now);
      if partition == Healthy { outcomes := EnsureContingencyLeases(now); }
      StepIdentity(policy, s, Health(agent, entries, now, outcomes));
    }

    method CanActAt(a: Action, now: int, issuedAt: int) returns (verdict: Verdict, ghost outcome: RoundOutcome)
      requires Valid()
      modifies this`previous, this`counter
      ensures Valid() && Decided(State(), verdict) == CanAct(policy, old(State()), a, now, issuedAt, outcome)
      ensures EachRound(policy, old(State()), Act(a, now, issuedAt, outcome), DrivenOn(policy, transport, issuedAt))
      ensures transport == SOLO ==> Decided(State(), verdict) == SoloCanAct(policy, old(State()), a, now, issuedAt)
    {
      hide Members, RecommendedMaxFaulty, FirstRedeemable, OutcomeOn, SoloOutcome;
      outcome := SoloOutcome(policy, State(), ActProposal(policy, State(), a));
      if !IsDestructive(a) { return Allow(None, None), outcome; }
      if key.None? { return Refuse(None), outcome; }
      if partition == Partitioned {
        var found := FirstRedeemable(leases, a, now);
        if found.Some? { return Allow(Some(found.value.receipt), Some(found.value)), outcome; }
        return Refuse(None), outcome;
      }
      var decision := if unhealthy == [] then Approve else Veto;
      var q := policy.propose(ActionSubject(counter, a, decision, unhealthy, previous));
      SoloOutcomeIs(policy, State(), q, issuedAt);
      var receipt;
      receipt, outcome := RunGovernanceRound(q, decision, issuedAt);
      if receipt.Err? { return Refuse(None), outcome; }
      if decision == Approve { return Allow(Some(receipt.value), None), outcome; }
      return Refuse(Some(receipt.value)), outcome;
    }

    method AttestRelease(body: string, now: int) returns (r: Option<Receipt>, ghost outcome: RoundOutcome)
      requires Valid()
      modifies this`previous, this`counter
      ensures Valid()
      ensures var issued := GovernanceModel.AttestRelease(policy, old(State()), body, now, outcome);
              State() == issued.state && r == (if issued.receipt.Ok? then Some(issued.receipt.value) else None)
      ensures EachRound(policy, old(State()), Attest(body, now, outcome), DrivenOn(policy, transport, now))
    {
      hide Members, RecommendedMaxFaulty, OutcomeOn;
      var receipt;
      receipt, outcome := RunGovernanceRound(policy.propose(ReleaseSubject(body)), Approve, now);
      if receipt.Err? { return None, outcome; }
      return Some(receipt.value), outcome;
    }

    method RecordActivity(r: Request, authorized: bool, reason: Reason, leaseId: Option<string>, now: int)
      modifies this`activity
      ensures activity == old(activity) + [Note(r, authorized, reason, leaseId, now)]
    {
      activity := activity + [Record(now, r.hunt, r.requestedBy, r.action.kind, r.action.scope, authorized, reason,
                                     leaseId)];
    }

    method AuthorizePartitionRequest(r: Request, now: int) returns (answer: Result<Option<Lease>, Reason>)
      requires Valid()
      modifies this`activity, this`leases
      ensures Valid() && Authorized(State(), answer) == AuthorizePartition(policy, old(State()), r, now)
    {
      hide LeaseVerifies, Redeem;
      if !IsDestructive(r.action) || partition != Partitioned { return Ok(None); }
      if r.evidence.NoLease? { RecordActivity(r, false, MissingLease, None, now); return Err(MissingLease); }
      if r.evidence.Malformed? { RecordActivity(r, false, MalformedLease, None, now); return Err(MalformedLease); }
      var lease := r.evidence.lease;
      if !LeaseVerifies(policy, lease) {
        RecordActivity(r, false, UnverifiedLease, Some(lease.id), now);
        return Err(UnverifiedLease);
      }
      var i := IndexOfLease(leases, lease.id);
      if i == |leases| { RecordActivity(r, false, UnknownLease, None, now); return Err(UnknownLease); }
      if leases[i] != lease { RecordActivity(r, false, MismatchedLease, None, now); return Err(MismatchedLease); }
      var redeemed := Redeem(leases[i], r.action, now);
      if redeemed.Err? {
        RecordActivity(r, false, redeemed.error, Some(lease.id), now);
        return Err(redeemed.error);
      }
      leases := leases[i := redeemed.value];
      RecordActivity(r, true, AuthorizedByLease, Some(redeemed.value.id), now);
      return Ok(Some(redeemed.value));
    }

    method NotePartitionVeto(r: Request, text: string, now: int)
      requires Valid()
      modifies this`activity
      ensures Valid() && State() == NoteVeto(old(State()), r, text, now)
    {
      if partition != Partitioned { return; }
      RecordActivity(r, false, Vetoed(text), r.leaseIdText, now);
    }

    method DrainRuntimeEvents() returns (drained: seq<Notice>)
      requires Valid()
      modifies this`notices
      ensures Valid() && drained == old(notices) && State() == old(State()).(notices := [])
    {
      drained := notices;
      notices := [];
    }
  }
}
