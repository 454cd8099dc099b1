/**
 The governance state machine: partition state, partition-era records, contingency leases, the receipt
 chain, the single signing key and fail-closed authorization, as functions on the locked state.

 Whether a governance round commits is decided by the consensus transport.  Every operation that runs a
 round takes its outcome as an argument, so theorems over all runs hold for every transport.
 */
module GovernanceModel {
  import opened Wrappers
  import opened ConsensusModel
  import opened ConsensusNodes

  const MAX_RECONCILIATION_REPORTS: nat := 16
  const CONTINGENCY_LEASE_SCHEMA_VERSION: nat := 1

  datatype PartitionState = Healthy | Degraded | Partitioned | Healing

  // -------------------------------------------------------------------------
  // Actions

  datatype ActionKind =
    | BlockEgress | IsolateHost | RevokeCredential | SinkholeDns | TerminateUserSession | InjectFirewallRule
    | QuarantineFile | KillProcess | SuspendProcess | DisableUserAccount | ForcePasswordReset | RemoveScheduledTask
    | TriggerEdrScan | DeployDecoy | Escalate

  /** An action by its kind and its policy scope. */
  datatype Action = Action(kind: ActionKind, scope: Option<string>)

  function KindText(kind: ActionKind): string {
    match kind
    case BlockEgress => "block_egress"
    case IsolateHost => "isolate_host"
    case RevokeCredential => "revoke_credential"
    case SinkholeDns => "sinkhole_dns"
    case TerminateUserSession => "terminate_user_session"
    case InjectFirewallRule => "inject_firewall_rule"
    case QuarantineFile => "quarantine_file"
    case KillProcess => "kill_process"
    case SuspendProcess => "suspend_process"
    case DisableUserAccount => "disable_user_account"
    case ForcePasswordReset => "force_password_reset"
    case RemoveScheduledTask => "remove_scheduled_task"
    case TriggerEdrScan => "trigger_edr_scan"
    case DeployDecoy => "deploy_decoy"
    case Escalate => "escalate"
  }

  const DESTRUCTIVE_KINDS: seq<ActionKind> :=
    [BlockEgress, IsolateHost, RevokeCredential, SinkholeDns, TerminateUserSession, InjectFirewallRule,
     QuarantineFile, KillProcess, SuspendProcess, DisableUserAccount, ForcePasswordReset, RemoveScheduledTask]

  predicate IsDestructive(a: Action) {
    match a.kind
    case TriggerEdrScan | DeployDecoy | Escalate => false
    case _ => true
  }

  /** The kinds leases are staged for are exactly the destructive ones. */
  lemma StagedKindsAreDestructive(a: Action)
    ensures IsDestructive(a) <==> a.kind in DESTRUCTIVE_KINDS
  {
    var k := DESTRUCTIVE_KINDS;
    assert k[0] == BlockEgress && k[1] == IsolateHost && k[2] == RevokeCredential && k[3] == SinkholeDns
        && k[4] == TerminateUserSession && k[5] == InjectFirewallRule && k[6] == QuarantineFile && k[7] == KillProcess
        && k[8] == SuspendProcess && k[9] == DisableUserAccount && k[10] == ForcePasswordReset
        && k[11] == RemoveScheduledTask;
  }

  // -------------------------------------------------------------------------
  // Receipts, leases and records

  datatype Decision = Approve | Veto

  datatype Receipt = Receipt(
    decision: Decision, committee: seq<AgentId>, threshold: nat, height: nat, round: nat,
    previous: Hash, commitHash: Hash, proposalId: ProposalId, prevoteTally: nat, precommitTally: nat,
    issuedBy: AgentId, issuedAt: int)

  datatype Lease = Lease(
    schemaVersion: nat, id: string, kind: ActionKind, scope: Option<string>, cap: nat, maxDuration: int,
    issuedAt: int, expiresAt: int, redeemed: seq<string>, receipt: Receipt)

  datatype Record = Record(
    at: int, hunt: string, requestedBy: string, kind: ActionKind, scope: Option<string>,
    authorized: bool, reason: Reason, leaseId: Option<string>)

  datatype Reason =
    | MissingLease | MalformedLease | UnverifiedLease | UnknownLease | MismatchedLease
    | NotCovered | Expired | CapExceeded | AuthorizedByLease | Vetoed(text: string)

  datatype Report = Report(
    healedAt: int, receiptCounter: nat, startedAt: Option<int>, authorized: seq<Record>, unauthorized: seq<Record>)

  datatype Notice =
    | Transition(at: int, agent: AgentId, from: PartitionState, to: PartitionState,
                 healthyGovernors: nat, totalGovernors: nat, quorum: nat)
    | Reconciliation(at: int, agent: AgentId, report: Report)

  datatype Evidence = NoLease | Malformed | Presented(lease: Lease)

  datatype Request = Request(hunt: string, requestedBy: string, action: Action, evidence: Evidence,
                             leaseIdText: Option<string>)

  datatype Health = IsHealthy | IsDegraded | IsFailed

  datatype HealthEntry = HealthEntry(id: AgentId, health: Health)

  /** What proposals are built from. */
  datatype Subject =
    | ActionSubject(counter: nat, action: Action, decision: Decision, unhealthy: seq<HealthEntry>, previous: Hash)
    | LeaseSubject(id: string, kind: ActionKind, scope: Option<string>, cap: nat, maxDuration: int, issuedAt: int,
                   expiresAt: int)
    | ReleaseSubject(body: string)

  /** Configuration, with hashing, encoding and signature checking as functions. */
  datatype Policy = Policy(
    crypto: Crypto, leaseTtl: int, leaseCap: nat,
    propose: Subject -> Proposal,
    leaseIdOf: (ActionKind, Option<string>, int, int, nat) -> string,
    receiptVerifies: Receipt -> bool)

  // -------------------------------------------------------------------------
  // State

  datatype State = State(
    governing: Option<AgentId>,
    display: map<AgentId, AgentId>,
    key: Option<AgentId>,
    peers: seq<AgentId>,
    unhealthy: seq<HealthEntry>,
    previous: Hash,
    counter: nat,
    partition: PartitionState,
    partitionStartedAt: Option<int>,
    lastTransitionAt: Option<int>,
    lastHealthyGovernors: nat,
    lastQuorum: nat,
    leases: seq<Lease>,
    activity: seq<Record>,
    reports: seq<Report>,
    notices: seq<Notice>)

  const INITIAL_STATE :=
    State(None, map[], None, [], [], "governance-bootstrap", 0, Healthy, None, None, 0, 0, [], [], [], [])

  function GovernorCount(s: State): nat { |s.peers| + (if s.key.Some? then 1 else 0) }

  function TotalGovernors(s: State): nat {
    if |s.display| >= GovernorCount(s) then |s.display| else GovernorCount(s)
  }

  predicate SortedPeers(peers: seq<AgentId>) { forall i, j | 0 <= i < j < |peers| :: peers[i] < peers[j] }

  function Members(s: State): seq<AgentId>
    requires SortedPeers(s.peers)
  {
    if s.key.Some? then Insert(s.key.value, s.peers) else s.peers
  }

  // -------------------------------------------------------------------------
  // Keys and peers

  function Without(peers: seq<AgentId>, a: AgentId): (r: seq<AgentId>)
    ensures forall b :: b in r <==> b in peers && b != a
    ensures |r| <= |peers|
    ensures SortedPeers(peers) ==> SortedPeers(r)
  {
    if peers == [] then []
    else
      var rest := Without(peers[1..], a);
      assert forall b :: b in peers <==> b == peers[0] || b in peers[1..];
      assert forall i | 0 <= i < |rest| :: rest[i] in rest;
      (if peers[0] == a then [] else [peers[0]]) + rest
  }

  datatype Registered = Registered(state: State, accepted: bool)

  /** A second, different key is refused and changes nothing. */
  function RegisterGovernor(s: State, agent: AgentId, key: AgentId): Registered {
    if s.key.Some? && s.key.value != key then Registered(s, false)
    else
      Registered(s.(governing := if s.governing.Some? then s.governing else Some(agent),
                    display := s.display[agent := key],
                    peers := Without(s.peers, key),
                    key := Some(key)), true)
  }

  function RegisterPeer(s: State, peer: AgentId): State
    requires SortedPeers(s.peers)
  {
    if s.key == Some(peer) then s else s.(peers := Insert(peer, s.peers))
  }

  // -------------------------------------------------------------------------
  // Rounds

  type RoundOutcome = Result<CommitRecord, ConsensusError>

  datatype Issued = Issued(state: State, receipt: Result<Receipt, ConsensusError>)

  /** One governance round.  Only a commit moves the chain. */
  function RunRound(s: State, proposal: Proposal, decision: Decision, issuedAt: int, outcome: RoundOutcome): Issued
    requires SortedPeers(s.peers)
  {
    if s.key.None? then Issued(s, Err(InvalidCommittee))
    else match outcome
      case Err(error) => Issued(s, Err(error))
      case Ok(commit) =>
        var members := Members(s);
        Issued(s.(previous := commit.hash, counter := s.counter + 1),
               Ok(Receipt(decision, members, 2 * RecommendedMaxFaulty(|members|) + 1, commit.height, commit.round,
                          s.previous, commit.hash, commit.proposal.id, commit.prevoteTally, commit.precommitTally,
                          s.key.value, issuedAt)))
  }

  datatype Verdict =
    | Allow(receipt: Option<Receipt>, lease: Option<Lease>)
    | Refuse(receipt: Option<Receipt>)

  datatype Decided = Decided(state: State, verdict: Verdict)

  // -------------------------------------------------------------------------
  // Leases

  /** The key an action is redeemed under. */
  function ScopeKey(a: Action): string {
    if a.scope.Some? then a.scope.value else "unscoped:" + KindText(a.kind)
  }

  predicate LeaseMatches(l: Lease, a: Action) {
    l.kind == a.kind && (l.scope.None? || a.scope == l.scope)
  }

  predicate CanRedeem(l: Lease, a: Action, now: int) {
    LeaseMatches(l, a) && now < l.expiresAt && (ScopeKey(a) in l.redeemed || |l.redeemed| < l.cap)
  }

  function Redeem(l: Lease, a: Action, now: int): Result<Lease, Reason> {
    if !LeaseMatches(l, a) then Err(NotCovered)
    else if l.expiresAt <= now then Err(Expired)
    else if ScopeKey(a) in l.redeemed then Ok(l)
    else if |l.redeemed| >= l.cap then Err(CapExceeded)
    else Ok(l.(redeemed := l.redeemed + [ScopeKey(a)]))
  }

  predicate LeaseVerifies(p: Policy, l: Lease) {
    && l.schemaVersion == CONTINGENCY_LEASE_SCHEMA_VERSION && l.cap > 0 && l.maxDuration > 0 && l.issuedAt < l.expiresAt
    && p.receiptVerifies(l.receipt) && l.receipt.decision == Approve
    && l.receipt.proposalId
      == p.propose(LeaseSubject(l.id, l.kind, l.scope, l.cap, l.maxDuration, l.issuedAt, l.expiresAt)).id
  }

  /** The first lease an action can be redeemed against. */
  function FirstRedeemable(leases: seq<Lease>, a: Action, now: int): Option<Lease> {
    if leases == [] then None
    else if CanRedeem(leases[0], a, now) then Some(leases[0])
    else FirstRedeemable(leases[1..], a, now)
  }

  function Unexpired(leases: seq<Lease>, now: int): seq<Lease> {
    if leases == [] then []
    else (if now < leases[0].expiresAt then [leases[0]] else []) + Unexpired(leases[1..], now)
  }

  predicate HasOpenLease(leases: seq<Lease>, kind: ActionKind, now: int) {
    exists i | 0 <= i < |leases| ::
      && leases[i].kind == kind && leases[i].scope.None? && now < leases[i].expiresAt
      && |leases[i].redeemed| < leases[i].cap
  }

  function StageLease(p: Policy, s: State, kind: ActionKind, now: int, outcome: RoundOutcome): State
    requires SortedPeers(s.peers)
  {
    if HasOpenLease(s.leases, kind, now) || s.key.None? || p.leaseCap == 0 || p.leaseTtl <= 0 then s
    else
      var expiresAt := now + p.leaseTtl;
      var id := p.leaseIdOf(kind, None, now, expiresAt, p.leaseCap);
      var subject := LeaseSubject(id, kind, None, p.leaseCap, p.leaseTtl, now, expiresAt);
      var issued := RunRound(s, p.propose(subject), Approve, now, outcome);
      match issued.receipt
      case Err(_) => issued.state
      case Ok(receipt) =>
        var lease := Lease(CONTINGENCY_LEASE_SCHEMA_VERSION, id, kind, None, p.leaseCap, p.leaseTtl, now, expiresAt,
                           [], receipt);
        issued.state.(leases := issued.state.leases + [lease])
  }

  /** One round per kind, each starting from the state the one before it left. */
  function StageLeases(
    p: Policy, s: State, kinds: seq<ActionKind>, now: int, outcomes: ActionKind -> RoundOutcome): State
    requires SortedPeers(s.peers)
    decreases |kinds|
  {
    if kinds == [] then s
    else
      StagePeers(p, s, kinds[0], now, outcomes(kinds[0]));
      StageLeases(p, StageLease(p, s, kinds[0], now, outcomes(kinds[0])), kinds[1..], now, outcomes)
  }

  lemma StagePeers(p: Policy, s: State, kind: ActionKind, now: int, outcome: RoundOutcome)
    requires SortedPeers(s.peers)
    ensures StageLease(p, s, kind, now, outcome).peers == s.peers
  {
  }

  // -------------------------------------------------------------------------
  // Health observation

  function UnhealthyOf(entries: seq<HealthEntry>): seq<HealthEntry> {
    if entries == [] then []
    else (if entries[0].health != IsHealthy then [entries[0]] else []) + UnhealthyOf(entries[1..])
  }

  function UnhealthyGovernors(entries: seq<HealthEntry>, display: map<AgentId, AgentId>): nat {
    if entries == [] then 0
    else
      UnhealthyGovernors(entries[1..], display)
      + if entries[0].health != IsHealthy && entries[0].id in display then 1 else 0
  }

  function QuorumThreshold(total: nat): nat { if total == 0 then 0 else 2 * RecommendedMaxFaulty(total) + 1 }

  function HealthyGovernors(s: State, entries: seq<HealthEntry>): nat {
    var total, bad := TotalGovernors(s), UnhealthyGovernors(entries, s.display);
    if total >= bad then total - bad else 0
  }

  function BaseState(s: State, entries: seq<HealthEntry>): PartitionState {
    if HealthyGovernors(s, entries) < QuorumThreshold(TotalGovernors(s)) then Partitioned
    else if UnhealthyOf(entries) == [] then Healthy
    else Degraded
  }

  function Split(records: seq<Record>, authorized: bool): seq<Record> {
    if records == [] then []
    else (if records[0].authorized == authorized then [records[0]] else []) + Split(records[1..], authorized)
  }

  function ReportOf(s: State, now: int): Report {
    Report(now, s.counter, s.partitionStartedAt, Split(s.activity, true), Split(s.activity, false))
  }

  function Trimmed(reports: seq<Report>): seq<Report> {
    if |reports| > MAX_RECONCILIATION_REPORTS then reports[|reports| - MAX_RECONCILIATION_REPORTS..] else reports
  }

  /** Moves the era's records into one report. */
  function Reconcile(s: State, now: int): State {
    s.(activity := [], reports := Trimmed(s.reports + [ReportOf(s, now)]))
  }

  function NextPartition(from: PartitionState, base: PartitionState): PartitionState {
    if from == Partitioned && base != Partitioned then Healing else base
  }

  function Assessed(s: State, agent: AgentId, entries: seq<HealthEntry>): State {
    s.(governing := Some(agent), unhealthy := UnhealthyOf(entries),
       lastHealthyGovernors := HealthyGovernors(s, entries), lastQuorum := QuorumThreshold(TotalGovernors(s)))
  }

  /** Enters a partition state and announces it, unless it is already there. */
  function Moved(
    s: State, next: PartitionState, agent: AgentId, now: int, healthy: nat, total: nat, quorum: nat): State {
    if next == s.partition then s
    else
      s.(partition := next,
         partitionStartedAt :=
           if next == Partitioned then Some(now) else if next == Healthy then None else s.partitionStartedAt,
         lastTransitionAt := Some(now),
         notices := s.notices + [Transition(now, agent, s.partition, next, healthy, total, quorum)])
  }

  /** The partition part of an observation. */
  function ObservePartition(s: State, agent: AgentId, entries: seq<HealthEntry>, now: int): State {
    var base := BaseState(s, entries);
    var next := NextPartition(s.partition, base);
    var s1 := Assessed(s, agent, entries);
    var s2 := if next == Healing && s.partition == Partitioned
              then Reconcile(s1, now).(notices := s1.notices + [Reconciliation(now, agent, ReportOf(s1, now))])
              else s1;
    Moved(s2, next, agent, now, HealthyGovernors(s, entries), TotalGovernors(s), QuorumThreshold(TotalGovernors(s)))
  }

  function ObserveHealth(
    p: Policy, s: State, agent: AgentId, entries: seq<HealthEntry>, now: int,
    outcomes: ActionKind -> RoundOutcome): State
    requires SortedPeers(s.peers)
  {
    var s1 := ObservePartition(s, agent, entries, now);
    var s2 := s1.(leases := Unexpired(s1.leases, now));
    if s2.partition == Healthy then StageLeases(p, s2, DESTRUCTIVE_KINDS, now, outcomes) else s2
  }

  // -------------------------------------------------------------------------
  // Decisions

  function CanAct(p: Policy, s: State, a: Action, now: int, issuedAt: int, outcome: RoundOutcome): Decided
    requires SortedPeers(s.peers)
  {
    if !IsDestructive(a) then Decided(s, Allow(None, None))
    else if s.key.None? then Decided(s, Refuse(None))
    else if s.partition == Partitioned then
      match FirstRedeemable(s.leases, a, now)
      case Some(lease) => Decided(s, Allow(Some(lease.receipt), Some(lease)))
      case None => Decided(s, Refuse(None))
    else
      var decision := if s.unhealthy == [] then Approve else Veto;
      var proposal := p.propose(ActionSubject(s.counter, a, decision, s.unhealthy, s.previous));
      var issued := RunRound(s, proposal, decision, issuedAt, outcome);
      match issued.receipt
      case Err(_) => Decided(issued.state, Refuse(None))
      case Ok(receipt) =>
        Decided(issued.state, if decision == Approve then Allow(Some(receipt), None) else Refuse(Some(receipt)))
  }

  function AttestRelease(p: Policy, s: State, body: string, now: int, outcome: RoundOutcome): Issued
    requires SortedPeers(s.peers)
  {
    RunRound(s, p.propose(ReleaseSubject(body)), Approve, now, outcome)
  }

  function Note(r: Request, authorized: bool, reason: Reason, leaseId: Option<string>, now: int): Record {
    Record(now, r.hunt, r.requestedBy, r.action.kind, r.action.scope, authorized, reason, leaseId)
  }

  function IndexOfLease(leases: seq<Lease>, id: string): (i: nat)
    ensures i <= |leases|
    ensures i < |leases| ==> leases[i].id == id
    ensures forall j | 0 <= j < i :: leases[j].id != id
  {
    if leases == [] || leases[0].id == id then 0 else 1 + IndexOfLease(leases[1..], id)
  }

  datatype Authorized = Authorized(state: State, result: Result<Option<Lease>, Reason>)

  function Refused(s: State, r: Request, reason: Reason, leaseId: Option<string>, now: int): Authorized {
    Authorized(s.(activity := s.activity + [Note(r, false, reason, leaseId, now)]), Err(reason))
  }

  /** A destructive request during a partition is recorded exactly once, whatever its outcome. */
  function AuthorizePartition(p: Policy, s: State, r: Request, now: int): Authorized {
    if !IsDestructive(r.action) || s.partition != Partitioned then Authorized(s, Ok(None))
    else match r.evidence
      case NoLease => Refused(s, r, MissingLease, None, now)
      case Malformed => Refused(s, r, MalformedLease, None, now)
      case Presented(lease) =>
        var i := IndexOfLease(s.leases, lease.id);
        if !LeaseVerifies(p, lease) then Refused(s, r, UnverifiedLease, Some(lease.id), now)
        else if i == |s.leases| then Refused(s, r, UnknownLease, None, now)
        else if s.leases[i] != lease then Refused(s, r, MismatchedLease, None, now)
        else match Redeem(s.leases[i], r.action, now)
          case Err(reason) => Refused(s, r, reason, Some(lease.id), now)
          case Ok(redeemed) =>
            Authorized(s.(leases := s.leases[i := redeemed],
                          activity := s.activity + [Note(r, true, AuthorizedByLease, Some(redeemed.id), now)]),
                       Ok(Some(redeemed)))
  }

  function NoteVeto(s: State, r: Request, text: string, now: int): State {
    if s.partition != Partitioned then s
    else s.(activity := s.activity + [Note(r, false, Vetoed(text), r.leaseIdText, now)])
  }
}
