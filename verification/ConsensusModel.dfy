/**
 The propose / prevote / precommit state machine of one consensus node, written as
 functions from a node state to the next state and the progress (or error) reported.

 An error does not roll back: `Outcome.state` is the state the node is left in, error or not.

 Hashing, signature checking and subject formatting are function-valued fields of `Crypto`,
 so every theorem holds for every choice of them.
 */
module ConsensusModel {
  import opened Wrappers

  type AgentId = nat
  type Hash = string
  type ProposalId = string
  type Choice = Option<ProposalId>

  datatype Proposal = Proposal(id: ProposalId, payload: string)

  datatype Phase = Prevote | Precommit

  datatype Body =
    | Propose(proposal: Proposal)
    | Vote(phase: Phase, choice: Choice)

  datatype Kind = ProposalKind | VoteKind(phase: Phase)

  datatype Message = Message(
    height: nat, round: nat, previous: Hash, from: AgentId, sentAt: int, body: Body)

  datatype Envelope = Envelope(subject: string, message: Message)

  datatype SignedEnvelope = SignedEnvelope(envelope: Envelope, signature: string)

  datatype MessageKey = MessageKey(height: nat, round: nat, from: AgentId, kind: Kind)

  datatype ConsensusError =
    | InvalidCommittee
    | SubjectMismatch
    | NotAMember
    | HeightAhead
    | WrongProposer
    | ProposalAlreadyRecorded
    | ConflictingVote
    | SigningUnavailable
    | TransportFailed
    | RoundExpired

  // -------------------------------------------------------------------------
  // Committee

  /** Abstract cryptography.  `verifies` is the whole of `ConsensusSignedEnvelope::verify`:
      a valid signature by the key whose derived identity is the declared sender. */
  datatype Crypto = Crypto(
    score: (Hash, nat, AgentId) -> nat,
    commitHash: (nat, nat, Hash, Proposal) -> Hash,
    messageHash: SignedEnvelope -> Hash,
    verifies: SignedEnvelope -> bool,
    sign: (AgentId, Envelope) -> string,
    roundSubject: (nat, nat) -> string)

  datatype Committee = Committee(members: seq<AgentId>, maxFaulty: nat) {
    function Threshold(): nat { 2 * maxFaulty + 1 }

    predicate Valid() {
      && Threshold() <= |members|
      && forall i, j | 0 <= i < j < |members| :: members[i] < members[j]
    }
  }

  /** Best-scoring member of a non-empty list; the earliest one wins a tie. */
  function BestOf(members: seq<AgentId>, score: AgentId -> nat): (best: AgentId)
    requires members != []
    ensures best in members
    ensures forall a | a in members :: score(a) <= score(best)
  {
    if |members| == 1 then members[0] else
    var last := members[|members| - 1];
    var before := BestOf(members[..|members| - 1], score);
    assert forall a | a in members :: a == last || a in members[..|members| - 1];
    if score(last) > score(before) then last else before
  }

  /** Of the members with the best score, the first is chosen. */
  lemma {:induction false} BestOfIsFirst(members: seq<AgentId>, score: AgentId -> nat) returns (k: nat)
    requires members != []
    ensures k < |members| && BestOf(members, score) == members[k]
    ensures forall j | 0 <= j < k :: score(members[j]) < score(members[k])
  {
    var n := |members| - 1;
    if n == 0 { k := 0; }
    else {
      var front := members[..n];
      assert members == front + [members[n]];
      k := BestOfIsFirst(front, score);
      if score(members[n]) > score(BestOf(front, score)) {
        k := n;
        forall j | 0 <= j < n ensures score(members[j]) < score(members[n]) {
          assert members[j] == front[j] && front[j] in front;
        }
      }
    }
  }

  datatype Config = Config(
    local: AgentId, holdsKey: bool, committee: Committee, roundTimeout: int, crypto: Crypto) {

    predicate Valid() {
      committee.Valid() && local in committee.members && roundTimeout > 0
    }

    function ProposerFor(previous: Hash, round: nat): AgentId
      requires Valid()
    {
      BestOf(committee.members, a => crypto.score(previous, round, a))
    }
  }

  // -------------------------------------------------------------------------
  // Vote ledger

  datatype Ledger = Ledger(byAgent: map<AgentId, Choice>, byValue: map<Choice, set<AgentId>>) {
    function Count(choice: Choice): nat {
      if choice in byValue then |byValue[choice]| else 0
    }

    function VotersFor(choice: Choice): set<AgentId> {
      if choice in byValue then byValue[choice] else {}
    }
  }

  const NO_VOTES := Ledger(map[], map[])

  datatype Recorded = Recorded(ledger: Ledger, count: Result<nat, ConsensusError>)

  function RecordVote(l: Ledger, voter: AgentId, choice: Choice): Recorded {
    if voter in l.byAgent then
      if l.byAgent[voter] == choice then Recorded(l, Ok(l.Count(choice)))
      else Recorded(l, Err(ConflictingVote))
    else
      var voted := Ledger(l.byAgent[voter := choice],
                          l.byValue[choice := l.VotersFor(choice) + {voter}]);
      Recorded(voted, Ok(voted.Count(choice)))
  }

  function RemoveVoter(l: Ledger, voter: AgentId): Ledger {
    if voter !in l.byAgent then l else
    var choice := l.byAgent[voter];
    var rest := l.VotersFor(choice) - {voter};
    Ledger(l.byAgent - {voter},
           if choice !in l.byValue then l.byValue
           else if rest == {} then l.byValue - {choice}
           else l.byValue[choice := rest])
  }

  function LedgerAt(ledgers: map<nat, Ledger>, round: nat): Ledger {
    if round in ledgers then ledgers[round] else NO_VOTES
  }

  // -------------------------------------------------------------------------
  // Node state and progress

  datatype RoundStep = AtPropose | AtPrevote | AtPrecommit

  datatype NodeState = NodeState(
    height: nat,
    round: nat,
    step: RoundStep,
    previous: Hash,
    roundStartedAt: int,
    proposals: map<nat, Proposal>,
    prevotes: map<nat, Ledger>,
    precommits: map<nat, Ledger>,
    emittedPrevotes: set<nat>,
    emittedPrecommits: set<nat>,
    pending: Option<Proposal>,
    seen: map<MessageKey, SignedEnvelope>,
    excluded: map<(nat, nat), set<AgentId>>) {

    function Ledgers(phase: Phase): map<nat, Ledger> {
      if phase == Prevote then prevotes else precommits
    }

    function Emitted(phase: Phase): set<nat> {
      if phase == Prevote then emittedPrevotes else emittedPrecommits
    }

    predicate IsExcluded(height: nat, round: nat, agent: AgentId) {
      (height, round) in excluded && agent in excluded[(height, round)]
    }
  }

  datatype ExclusionReason = InvalidSignature | Equivocation

  datatype ExclusionReceipt = ExclusionReceipt(
    height: nat, round: nat, agent: AgentId, kind: Kind, reason: ExclusionReason,
    evidence: seq<Hash>, issuedBy: AgentId, issuedAt: int)

  datatype CommitRecord = CommitRecord(
    height: nat, round: nat, proposal: Proposal, prevoteTally: nat, precommitTally: nat, hash: Hash)

  datatype Progress = Progress(
    outbound: seq<Envelope>, commits: seq<CommitRecord>, exclusions: seq<ExclusionReceipt>,
    roundAdvanced: bool) {

    function Extend(other: Progress): Progress {
      Progress(outbound + other.outbound, commits + other.commits,
               exclusions + other.exclusions, roundAdvanced || other.roundAdvanced)
    }
  }

  const NO_PROGRESS := Progress([], [], [], false)

  datatype Outcome = Outcome(state: NodeState, result: Result<Progress, ConsensusError>) {

    /** The same outcome with earlier progress put in front; an error drops that progress. */
    function After(earlier: Progress): Outcome {
      if result.Ok? then Outcome(state, Ok(earlier.Extend(result.value))) else this
    }

    /** Envelopes actually handed to the caller. */
    function Outbound(): seq<Envelope> { if result.Ok? then result.value.outbound else [] }

    /** Commits actually reported to the caller. */
    function Commits(): seq<CommitRecord> { if result.Ok? then result.value.commits else [] }
  }

  function Idle(s: NodeState): Outcome { Outcome(s, Ok(NO_PROGRESS)) }

  function InitialState(previous: Hash, startedAt: int): NodeState {
    NodeState(1, 0, AtPropose, previous, startedAt, map[], map[], map[], {}, {}, None, map[], map[])
  }

  function KindOf(body: Body): Kind {
    if body.Propose? then ProposalKind else VoteKind(body.phase)
  }

  function KeyOf(m: Message): MessageKey {
    MessageKey(m.height, m.round, m.from, KindOf(m.body))
  }

  function BuildEnvelope(c: Config, s: NodeState, round: nat, body: Body, now: int): Envelope {
    Envelope(c.crypto.roundSubject(s.height, round),
             Message(s.height, round, s.previous, c.local, now, body))
  }

  function Sending(e: Envelope): Progress { NO_PROGRESS.(outbound := [e]) }

  // -------------------------------------------------------------------------
  // Transitions

  function Commit(c: Config, s: NodeState, round: nat, choice: Choice, now: int): Outcome {
    if choice.None? || round !in s.proposals || s.proposals[round].id != choice.value then Idle(s)
    else
      var proposal := s.proposals[round];
      var prevoteTally := LedgerAt(s.prevotes, round).Count(choice);
      var precommitTally := LedgerAt(s.precommits, round).Count(choice);
      if prevoteTally < c.committee.Threshold() || precommitTally < c.committee.Threshold() then Idle(s)
      else
        var hash := c.crypto.commitHash(s.height, round, s.previous, proposal);
        var pending := if s.pending.Some? && s.pending.value.id == proposal.id then None else s.pending;
        Outcome(
          NodeState(s.height + 1, 0, AtPropose, hash, now, map[], map[], map[], {}, {},
                    pending, s.seen, s.excluded),
          Ok(NO_PROGRESS.(commits :=
            [CommitRecord(s.height, round, proposal, prevoteTally, precommitTally, hash)])))
  }

  function EmitPrecommit(c: Config, s: NodeState, round: nat, choice: Choice, now: int): Outcome {
    if round in s.emittedPrecommits then Idle(s)
    else
      var vote := RecordVote(LedgerAt(s.precommits, round), c.local, choice);
      var s1 := s.(emittedPrecommits := s.emittedPrecommits + {round}, step := AtPrecommit,
                   precommits := s.precommits[round := vote.ledger]);
      if vote.count.Err? then Outcome(s1, Err(vote.count.error))
      else
        var sent := Sending(BuildEnvelope(c, s, round, Vote(Precommit, choice), now));
        if vote.count.value >= c.committee.Threshold()
        then Commit(c, s1, round, choice, now).After(sent)
        else Outcome(s1, Ok(sent))
  }

  function EmitPrevote(c: Config, s: NodeState, round: nat, choice: Choice, now: int): Outcome {
    if round in s.emittedPrevotes then Idle(s)
    else
      var vote := RecordVote(LedgerAt(s.prevotes, round), c.local, choice);
      var s1 := s.(emittedPrevotes := s.emittedPrevotes + {round}, step := AtPrevote,
                   prevotes := s.prevotes[round := vote.ledger]);
      if vote.count.Err? then Outcome(s1, Err(vote.count.error))
      else
        var sent := Sending(BuildEnvelope(c, s, round, Vote(Prevote, choice), now));
        if vote.count.value >= c.committee.Threshold() && round !in s1.emittedPrecommits
        then EmitPrecommit(c, s1, round, choice, now).After(sent)
        else Outcome(s1, Ok(sent))
  }

  datatype ProposalRecorded = ProposalRecorded(state: NodeState, result: Result<(), ConsensusError>)

  function RecordProposal(c: Config, s: NodeState, from: AgentId, round: nat, proposal: Proposal)
    : ProposalRecorded
    requires c.Valid()
  {
    if from != c.ProposerFor(s.previous, round) then ProposalRecorded(s, Err(WrongProposer))
    else if round in s.proposals then
      ProposalRecorded(s, if s.proposals[round] == proposal then Ok(()) else Err(ProposalAlreadyRecorded))
    else ProposalRecorded(s.(proposals := s.proposals[round := proposal]), Ok(()))
  }

  function ObserveLocalProposal(c: Config, s: NodeState, round: nat, proposal: Proposal, now: int): Outcome
    requires c.Valid()
  {
    var recorded := RecordProposal(c, s, c.local, round, proposal);
    if recorded.result.Err? then Outcome(recorded.state, Err(recorded.result.error))
    else
      EmitPrevote(c, recorded.state, round, Some(proposal.id), now)
        .After(Sending(BuildEnvelope(c, recorded.state, round, Propose(proposal), now)))
  }

  function EmitProposalIfLeader(c: Config, s: NodeState, now: int): Outcome
    requires c.Valid()
  {
    if c.ProposerFor(s.previous, s.round) != c.local || s.round in s.proposals || s.pending.None?
    then Idle(s)
    else ObserveLocalProposal(c, s, s.round, s.pending.value, now)
  }

  function AdvanceRound(c: Config, s: NodeState, target: nat, now: int): Outcome
    requires c.Valid()
  {
    if target <= s.round then Idle(s)
    else
      EmitProposalIfLeader(c, s.(round := target, step := AtPropose, roundStartedAt := now), now)
        .After(NO_PROGRESS.(roundAdvanced := true))
  }

  function ObserveProposal(
    c: Config, s: NodeState, from: AgentId, round: nat, proposal: Proposal, now: int): Outcome
    requires c.Valid()
  {
    var recorded := RecordProposal(c, s, from, round, proposal);
    if recorded.result.Err? then Outcome(recorded.state, Err(recorded.result.error))
    else if round in recorded.state.emittedPrevotes then Idle(recorded.state)
    else EmitPrevote(c, recorded.state, round, Some(proposal.id), now)
  }

  function ObservePrevote(
    c: Config, s: NodeState, from: AgentId, round: nat, choice: Choice, now: int): Outcome
  {
    var vote := RecordVote(LedgerAt(s.prevotes, round), from, choice);
    var s1 := s.(prevotes := s.prevotes[round := vote.ledger]);
    if vote.count.Err? then Outcome(s1, Err(vote.count.error))
    else if vote.count.value >= c.committee.Threshold() && round !in s1.emittedPrecommits
    then EmitPrecommit(c, s1, round, choice, now)
    else Idle(s1)
  }

  function ObservePrecommit(
    c: Config, s: NodeState, from: AgentId, round: nat, choice: Choice, now: int): Outcome
  {
    var vote := RecordVote(LedgerAt(s.precommits, round), from, choice);
    var s1 := s.(precommits := s.precommits[round := vote.ledger]);
    if vote.count.Err? then Outcome(s1, Err(vote.count.error))
    else if vote.count.value >= c.committee.Threshold() then Commit(c, s1, round, choice, now)
    else Idle(s1)
  }

  function ObserveBody(c: Config, s: NodeState, m: Message, now: int): Outcome
    requires c.Valid()
  {
    match m.body
    case Propose(proposal) => ObserveProposal(c, s, m.from, m.round, proposal, now)
    case Vote(Prevote, choice) => ObservePrevote(c, s, m.from, m.round, choice, now)
    case Vote(Precommit, choice) => ObservePrecommit(c, s, m.from, m.round, choice, now)
  }

  /** A message for a later round first moves the node there; the progress of that move,
      envelopes and commits included, is dropped. */
  function ObserveMessage(c: Config, s: NodeState, m: Message, now: int): Outcome
    requires c.Valid()
  {
    if m.from !in c.committee.members then Outcome(s, Err(NotAMember))
    else if m.height < s.height then Idle(s)
    else if m.height > s.height then Outcome(s, Err(HeightAhead))
    else if m.previous != s.previous || m.round < s.round then Idle(s)
    else
      var caughtUp := AdvanceRound(c, s, m.round, now);
      if caughtUp.result.Err? then caughtUp
      else ObserveBody(c, caughtUp.state, m, now)
  }

  function HandleEnvelope(c: Config, s: NodeState, e: Envelope, now: int): Outcome
    requires c.Valid()
  {
    if e.subject != c.crypto.roundSubject(e.message.height, e.message.round)
    then Outcome(s, Err(SubjectMismatch))
    else ObserveMessage(c, s, e.message, now)
  }

  function WithoutVoter(ledgers: map<nat, Ledger>, round: nat, agent: AgentId): map<nat, Ledger> {
    if round in ledgers then ledgers[round := RemoveVoter(ledgers[round], agent)] else ledgers
  }

  /** Drops by round alone: the height of the offending message is not consulted, except when
      forgetting seen messages. */
  function DropContributions(c: Config, s: NodeState, round: nat, agent: AgentId): NodeState
    requires c.Valid()
  {
    s.(proposals := if c.ProposerFor(s.previous, round) == agent then s.proposals - {round} else s.proposals,
       prevotes := WithoutVoter(s.prevotes, round, agent),
       precommits := WithoutVoter(s.precommits, round, agent),
       seen := map key | key in s.seen
                 && !(key.height == s.height && key.round == round && key.from == agent) :: s.seen[key])
  }

  function ExcludeSender(
    c: Config, s: NodeState, key: MessageKey, reason: ExclusionReason, evidence: seq<Hash>, now: int): Outcome
    requires c.Valid()
  {
    var slot := (key.height, key.round);
    var members := (if slot in s.excluded then s.excluded[slot] else {}) + {key.from};
    var s1 := DropContributions(c, s.(excluded := s.excluded[slot := members]), key.round, key.from);
    if !c.holdsKey then Idle(s1)
    else
      Outcome(s1, Ok(NO_PROGRESS.(exclusions :=
        [ExclusionReceipt(key.height, key.round, key.from, key.kind, reason, evidence, c.local, now)])))
  }

  function HandleSigned(c: Config, s: NodeState, e: SignedEnvelope, now: int): Outcome
    requires c.Valid()
  {
    var key := KeyOf(e.envelope.message);
    if s.IsExcluded(key.height, key.round, key.from) then Idle(s)
    else if key in s.seen then
      if s.seen[key] == e then Idle(s)
      else ExcludeSender(c, s, key, Equivocation,
                         [c.crypto.messageHash(s.seen[key]), c.crypto.messageHash(e)], now)
    else if !c.crypto.verifies(e) then
      ExcludeSender(c, s, key, InvalidSignature, [c.crypto.messageHash(e)], now)
    else HandleEnvelope(c, s.(seen := s.seen[key := e]), e.envelope, now)
  }

  function QueueProposal(c: Config, s: NodeState, proposal: Proposal, now: int): Outcome
    requires c.Valid()
  {
    EmitProposalIfLeader(c, s.(pending := Some(proposal)), now)
  }

  function Tick(c: Config, s: NodeState, now: int): Outcome
    requires c.Valid()
  {
    if now - s.roundStartedAt < c.roundTimeout then Idle(s)
    else AdvanceRound(c, s, s.round + 1, now)
  }

  /** Everything a caller can do to a node. */
  datatype Event =
    | Deliver(signed: SignedEnvelope, now: int)
    | DeliverUnsigned(envelope: Envelope, now: int)
    | Queue(proposal: Proposal, now: int)
    | Timer(now: int)

  function Next(c: Config, s: NodeState, ev: Event): Outcome
    requires c.Valid()
  {
    match ev
    case Deliver(signed, now) => HandleSigned(c, s, signed, now)
    case DeliverUnsigned(envelope, now) => HandleEnvelope(c, s, envelope, now)
    case Queue(proposal, now) => QueueProposal(c, s, proposal, now)
    case Timer(now) => Tick(c, s, now)
  }
}
