/**
 `ConsensusNode` as it is written: an object whose methods update its fields in place.  Every method is
 proved to move the fields exactly as the corresponding function of `ConsensusModel` moves the state,
 including the partial updates left behind by an error.
 */
module ConsensusNodes {
  import opened Wrappers
  import opened ConsensusModel

  const MAX_USIZE: nat := 0xFFFF_FFFF_FFFF_FFFF

  /** Insertion into a strictly sorted list; a member already there is kept once. */
  function Insert(a: AgentId, sorted: seq<AgentId>): (r: seq<AgentId>)
    requires forall i, j | 0 <= i < j < |sorted| :: sorted[i] < sorted[j]
    ensures forall i, j | 0 <= i < j < |r| :: r[i] < r[j]
    ensures forall b :: b in r <==> b == a || b in sorted
  {
    if sorted == [] then [a]
    else if a < sorted[0] then [a] + sorted
    else if a == sorted[0] then sorted
    else
      var rest := Insert(a, sorted[1..]);
      assert forall b :: b in sorted <==> b == sorted[0] || b in sorted[1..];
      assert forall i | 0 <= i < |rest| :: rest[i] in rest && (rest[i] == a || rest[i] in sorted[1..]);
      [sorted[0]] + rest
  }

  /** Sorting followed by removal of duplicates. */
  function SortDedup(members: seq<AgentId>): (r: seq<AgentId>)
    ensures forall i, j | 0 <= i < j < |r| :: r[i] < r[j]
    ensures forall a :: a in r <==> a in members
  {
    if members == [] then [] else
    assert forall a :: a in members <==> a == members[0] || a in members[1..];
    Insert(members[0], SortDedup(members[1..]))
  }

  /** The committee constructor: refuses an empty list, an overflowing threshold and a committee smaller
      than `2f + 1`; every accepted committee is valid and has exactly the given members. */
  method NewCommittee(members: seq<AgentId>, maxFaulty: nat) returns (r: Result<Committee, ConsensusError>)
    ensures r.Ok? <==> members != [] && 2 * maxFaulty + 1 <= MAX_USIZE && 2 * maxFaulty + 1 <= |SortDedup(members)|
    ensures r.Ok? ==> r.value.Valid() && r.value.maxFaulty == maxFaulty
    ensures r.Ok? ==> forall a :: a in r.value.members <==> a in members
    ensures r.Err? ==> r.error == InvalidCommittee
  {
    if members == [] { return Err(InvalidCommittee); }
    var deduped := SortDedup(members);
    if 2 * maxFaulty + 1 > MAX_USIZE { return Err(InvalidCommittee); }
    if |deduped| < 2 * maxFaulty + 1 { return Err(InvalidCommittee); }
    return Ok(Committee(deduped, maxFaulty));
  }

  function RecommendedMaxFaulty(committeeSize: nat): nat {
    if committeeSize <= 1 then 0 else (committeeSize - 1) / 3
  }

  /** The recommended fault tolerance is the largest `f` with `3f + 1` members, and a committee of that
      size still has a quorum after any `f` of its members are excluded. */
  lemma RecommendedIsLargest(n: nat, g: nat)
    requires n >= 1
    ensures 3 * RecommendedMaxFaulty(n) + 1 <= n
    ensures 3 * g + 1 <= n ==> g <= RecommendedMaxFaulty(n)
    ensures n - RecommendedMaxFaulty(n) >= 2 * RecommendedMaxFaulty(n) + 1
  {
  }

  lemma BestOfOne(members: seq<AgentId>, score: AgentId -> nat)
    requires members != []
    ensures BestOf(members[..1], score) == members[0]
  {
  }

  lemma BestOfNext(members: seq<AgentId>, i: nat, score: AgentId -> nat)
    requires 1 <= i < |members|
    ensures var best := BestOf(members[..i], score);
            BestOf(members[..i + 1], score) == if score(members[i]) > score(best) then members[i] else best
  {
    assert members[..i + 1][..i] == members[..i];
  }

  class ConsensusNode {
    const config: Config
    var height: nat
    var round: nat
    var step: RoundStep
    var previous: Hash
    var roundStartedAt: int
    var proposals: map<nat, Proposal>
    var prevotes: map<nat, Ledger>
    var precommits: map<nat, Ledger>
    var emittedPrevotes: set<nat>
    var emittedPrecommits: set<nat>
    var pending: Option<Proposal>
    var seen: map<MessageKey, SignedEnvelope>
    var excluded: map<(nat, nat), set<AgentId>>

    ghost function State(): NodeState
      reads this
    {
      NodeState(height, round, step, previous, roundStartedAt, proposals, prevotes, precommits,
                emittedPrevotes, emittedPrecommits, pending, seen, excluded)
    }

    constructor (config: Config, previous: Hash, startedAt: int)
      ensures this.config == config && State() == InitialState(previous, startedAt)
    {
      this.config := config;
      height, round, step := 1, 0, AtPropose;
      this.previous := previous;
      roundStartedAt := startedAt;
      proposals, prevotes, precommits := map[], map[], map[];
      emittedPrevotes, emittedPrecommits := {}, {};
      pending, seen, excluded := None, map[], map[];
    }

    /** Refuses a local identity outside the committee and a timeout that is not positive. */
    static method New(config: Config, previous: Hash, startedAt: int)
      returns (r: Result<ConsensusNode, ConsensusError>)
      requires config.committee.Valid()
      ensures r.Ok? <==> config.Valid()
      ensures r.Ok? ==> fresh(r.value) && r.value.config == config
                        && r.value.State() == InitialState(previous, startedAt)
    {
      if config.local !in config.committee.members { return Err(InvalidCommittee); }
      if config.roundTimeout <= 0 { return Err(InvalidCommittee); }
      var node := new ConsensusNode(config, previous, startedAt);
      return Ok(node);
    }

    /** Highest score wins; of equal scores the first member in order. */
    method ProposerFor(previous: Hash, round: nat) returns (best: AgentId)
      requires config.Valid()
      ensures best == config.ProposerFor(previous, round)
    {
      hide BestOf;
      var members := config.committee.members;
      var score := a => config.crypto.score(previous, round, a);
      best := members[0];
      BestOfOne(members, score);
      for i := 1 to |members|
        invariant best == BestOf(members[..i], score)
      {
        BestOfNext(members, i, score);
        if score(members[i]) > score(best) { best := members[i]; }
      }
      assert members[..|members|] == members;
    }

    method BuildEnvelope(round: nat, body: Body, now: int) returns (e: Envelope)
      ensures e == ConsensusModel.BuildEnvelope(config, State(), round, body, now)
    {
      e := Envelope(config.crypto.roundSubject(height, round),
                    Message(height, round, previous, config.local, now, body));
    }

    /** The second half of a commit: everything about the old height is forgotten. */
    method EnterNextHeight(hash: Hash, now: int)
      modifies this
      ensures State() == NodeState(old(height) + 1, 0, AtPropose, hash, now, map[], map[], map[], {}, {},
                                   old(pending), old(seen), old(excluded))
    {
      height := height + 1;
      round := 0;
      previous := hash;
      roundStartedAt := now;
      proposals, prevotes, precommits := map[], map[], map[];
      emittedPrevotes, emittedPrecommits := {}, {};
      step := AtPropose;
    }

    method Commit(round: nat, choice: Choice, now: int) returns (r: Result<Progress, ConsensusError>)
      modifies this
      ensures Outcome(State(), r) == ConsensusModel.Commit(config, old(State()), round, choice, now)
    {
      if choice.None? || round !in proposals { return Ok(NO_PROGRESS); }
      var proposal := proposals[round];
      if proposal.id != choice.value { return Ok(NO_PROGRESS); }
      var prevoteTally := LedgerAt(prevotes, round).Count(choice);
      var precommitTally := LedgerAt(precommits, round).Count(choice);
      if prevoteTally < config.committee.Threshold() || precommitTally < config.committee.Threshold() {
        return Ok(NO_PROGRESS);
      }
      var hash := config.crypto.commitHash(height, round, previous, proposal);
      var commit := CommitRecord(height, round, proposal, prevoteTally, precommitTally, hash);
      if pending.Some? && pending.value.id == proposal.id { pending := None; }
      EnterNextHeight(hash, now);
      return Ok(NO_PROGRESS.(commits := [commit]));
    }

    method EmitPrecommit(round: nat, choice: Choice, now: int) returns (r: Result<Progress, ConsensusError>)
      modifies this
      ensures Outcome(State(), r) == ConsensusModel.EmitPrecommit(config, old(State()), round, choice, now)
    {
      hide ConsensusModel.Commit;
      if round in emittedPrecommits { return Ok(NO_PROGRESS); }
      emittedPrecommits := emittedPrecommits + {round};
      step := AtPrecommit;
      var vote := RecordVote(LedgerAt(precommits, round), config.local, choice);
      precommits := precommits[round := vote.ledger];
      if vote.count.Err? { return Err(vote.count.error); }
      var e := BuildEnvelope(round, Vote(Precommit, choice), now);
      r := Ok(Sending(e));
      if vote.count.value >= config.committee.Threshold() {
        var followUp := Commit(round, choice, now);
        if followUp.Err? { return followUp; }
        r := Ok(Sending(e).Extend(followUp.value));
      }
    }

    method EmitPrevote(round: nat, choice: Choice, now: int) returns (r: Result<Progress, ConsensusError>)
      modifies this
      ensures Outcome(State(), r) == ConsensusModel.EmitPrevote(config, old(State()), round, choice, now)
    {
      hide ConsensusModel.EmitPrecommit;
      if round in emittedPrevotes { return Ok(NO_PROGRESS); }
      emittedPrevotes := emittedPrevotes + {round};
      step := AtPrevote;
      var vote := RecordVote(LedgerAt(prevotes, round), config.local, choice);
      prevotes := prevotes[round := vote.ledger];
      if vote.count.Err? { return Err(vote.count.error); }
      var e := BuildEnvelope(round, Vote(Prevote, choice), now);
      r := Ok(Sending(e));
      if vote.count.value >= config.committee.Threshold() && round !in emittedPrecommits {
        var followUp := EmitPrecommit(round, choice, now);
        if followUp.Err? { return followUp; }
        r := Ok(Sending(e).Extend(followUp.value));
      }
    }

    method RecordProposal(from: AgentId, round: nat, proposal: Proposal) returns (r: Result<(), ConsensusError>)
      requires config.Valid()
      modifies this
      ensures ProposalRecorded(State(), r) == ConsensusModel.RecordProposal(config, old(State()), from, round, proposal)
    {
      var expected := ProposerFor(previous, round);
      if from != expected { return Err(WrongProposer); }
      if round in proposals {
        if proposals[round] == proposal { return Ok(()); }
        return Err(ProposalAlreadyRecorded);
      }
      proposals := proposals[round := proposal];
      return Ok(());
    }

    method ObserveLocalProposal(round: nat, proposal: Proposal, now: int) returns (r: Result<Progress, ConsensusError>)
      requires config.Valid()
      modifies this
      ensures Outcome(State(), r) == ConsensusModel.ObserveLocalProposal(config, old(State()), round, proposal, now)
    {
      hide ConsensusModel.RecordProposal, ConsensusModel.EmitPrevote;
      var recorded := RecordProposal(config.local, round, proposal);
      if recorded.Err? { return Err(recorded.error); }
      var e := BuildEnvelope(round, Propose(proposal), now);
      var followUp := EmitPrevote(round, Some(proposal.id), now);
      if followUp.Err? { return followUp; }
      return Ok(Sending(e).Extend(followUp.value));
    }

    method EmitProposalIfLeader(now: int) returns (r: Result<Progress, ConsensusError>)
      requires config.Valid()
      modifies this
      ensures Outcome(State(), r) == ConsensusModel.EmitProposalIfLeader(config, old(State()), now)
    {
      hide ConsensusModel.ObserveLocalProposal;
      var proposer := ProposerFor(previous, round);
      if proposer != config.local || round in proposals || pending.None? { return Ok(NO_PROGRESS); }
      r := ObserveLocalProposal(round, pending.value, now);
    }

    method AdvanceRound(target: nat, now: int) returns (r: Result<Progress, ConsensusError>)
      requires config.Valid()
      modifies this
      ensures Outcome(State(), r) == ConsensusModel.AdvanceRound(config, old(State()), target, now)
    {
      hide ConsensusModel.EmitProposalIfLeader;
      if target <= round { return Ok(NO_PROGRESS); }
      round := target;
      step := AtPropose;
      roundStartedAt := now;
      var followUp := EmitProposalIfLeader(now);
      if followUp.Err? { return followUp; }
      return Ok(NO_PROGRESS.(roundAdvanced := true).Extend(followUp.value));
    }

    method ObserveProposal(from: AgentId, round: nat, proposal: Proposal, now: int)
      returns (r: Result<Progress, ConsensusError>)
      requires config.Valid()
      modifies this
      ensures Outcome(State(), r) == ConsensusModel.ObserveProposal(config, old(State()), from, round, proposal, now)
    {
      hide ConsensusModel.RecordProposal, ConsensusModel.EmitPrevote;
      var recorded := RecordProposal(from, round, proposal);
      if recorded.Err? { return Err(recorded.error); }
      if round in emittedPrevotes { return Ok(NO_PROGRESS); }
      r := EmitPrevote(round, Some(proposal.id), now);
    }

    method ObservePrevote(from: AgentId, round: nat, choice: Choice, now: int)
      returns (r: Result<Progress, ConsensusError>)
      modifies this
      ensures Outcome(State(), r) == ConsensusModel.ObservePrevote(config, old(State()), from, round, choice, now)
    {
      hide ConsensusModel.EmitPrecommit;
      var vote := RecordVote(LedgerAt(prevotes, round), from, choice);
      prevotes := prevotes[round := vote.ledger];
      if vote.count.Err? { return Err(vote.count.error); }
      if vote.count.value >= config.committee.Threshold() && round !in emittedPrecommits {
        r := EmitPrecommit(round, choice, now);
        return;
      }
      return Ok(NO_PROGRESS);
    }

    method ObservePrecommit(from: AgentId, round: nat, choice: Choice, now: int)
      returns (r: Result<Progress, ConsensusError>)
      modifies this
      ensures Outcome(State(), r) == ConsensusModel.ObservePrecommit(config, old(State()), from, round, choice, now)
    {
      hide ConsensusModel.Commit;
      var vote := RecordVote(LedgerAt(precommits, round), from, choice);
      precommits := precommits[round := vote.ledger];
      if vote.count.Err? { return Err(vote.count.error); }
      if vote.count.value >= config.committee.Threshold() {
        r := Commit(round, choice, now);
        return;
      }
      return Ok(NO_PROGRESS);
    }

    method ObserveMessage(m: Message, now: int) returns (r: Result<Progress, ConsensusError>)
      requires config.Valid()
      modifies this
      ensures Outcome(State(), r) == ConsensusModel.ObserveMessage(config, old(State()), m, now)
    {
      hide ConsensusModel.AdvanceRound, ConsensusModel.ObserveProposal, ConsensusModel.ObservePrevote,
           ConsensusModel.ObservePrecommit;
      if m.from !in config.committee.members { return Err(NotAMember); }
      if m.height < height { return Ok(NO_PROGRESS); }
      if m.height > height { return Err(HeightAhead); }
      if m.previous != previous { return Ok(NO_PROGRESS); }
      if m.round < round { return Ok(NO_PROGRESS); }
      var caughtUp := AdvanceRound(m.round, now);
      if caughtUp.Err? { return caughtUp; }
      match m.body
      case Propose(proposal) => r := ObserveProposal(m.from, m.round, proposal, now);
      case Vote(Prevote, choice) => r := ObservePrevote(m.from, m.round, choice, now);
      case Vote(Precommit, choice) => r := ObservePrecommit(m.from, m.round, choice, now);
    }

    method HandleEnvelope(e: Envelope, now: int) returns (r: Result<Progress, ConsensusError>)
      requires config.Valid()
      modifies this
      ensures Outcome(State(), r) == ConsensusModel.HandleEnvelope(config, old(State()), e, now)
    {
      hide ConsensusModel.ObserveMessage;
      if e.subject != config.crypto.roundSubject(e.message.height, e.message.round) { return Err(SubjectMismatch); }
      r := ObserveMessage(e.message, now);
    }

    method DropContributions(round: nat, agent: AgentId)
      requires config.Valid()
      modifies this
      ensures State() == ConsensusModel.DropContributions(config, old(State()), round, agent)
    {
      var proposer := ProposerFor(previous, round);
      if proposer == agent { proposals := proposals - {round}; }
      if round in prevotes { prevotes := prevotes[round := RemoveVoter(prevotes[round], agent)]; }
      if round in precommits { precommits := precommits[round := RemoveVoter(precommits[round], agent)]; }
      seen := map key | key in seen
                && !(key.height == height && key.round == round && key.from == agent) :: seen[key];
    }

    method ExcludeSender(key: MessageKey, reason: ExclusionReason, evidence: seq<Hash>, now: int)
      returns (r: Result<Progress, ConsensusError>)
      requires config.Valid()
      modifies this
      ensures Outcome(State(), r) == ConsensusModel.ExcludeSender(config, old(State()), key, reason, evidence, now)
    {
      hide ConsensusModel.DropContributions;
      var slot := (key.height, key.round);
      var members := if slot in excluded then excluded[slot] else {};
      excluded := excluded[slot := members + {key.from}];
      DropContributions(key.round, key.from);
      if !config.holdsKey { return Ok(NO_PROGRESS); }
      return Ok(NO_PROGRESS.(exclusions :=
        [ExclusionReceipt(key.height, key.round, key.from, key.kind, reason, evidence, config.local, now)]));
    }

    method HandleSigned(e: SignedEnvelope, now: int) returns (r: Result<Progress, ConsensusError>)
      requires config.Valid()
      modifies this
      ensures Outcome(State(), r) == ConsensusModel.HandleSigned(config, old(State()), e, now)
    {
      hide ConsensusModel.ExcludeSender, ConsensusModel.HandleEnvelope;
      var key := KeyOf(e.envelope.message);
      if (key.height, key.round) in excluded && key.from in excluded[(key.height, key.round)] {
        return Ok(NO_PROGRESS);
      }
      if key in seen {
        if seen[key] == e { return Ok(NO_PROGRESS); }
        r := ExcludeSender(key, Equivocation,
                           [config.crypto.messageHash(seen[key]), config.crypto.messageHash(e)], now);
        return;
      }
      if !config.crypto.verifies(e) {
        r := ExcludeSender(key, InvalidSignature, [config.crypto.messageHash(e)], now);
        return;
      }
      seen := seen[key := e];
      r := HandleEnvelope(e.envelope, now);
    }

    method QueueProposal(proposal: Proposal, now: int) returns (r: Result<Progress, ConsensusError>)
      requires config.Valid()
      modifies this
      ensures Outcome(State(), r) == ConsensusModel.QueueProposal(config, old(State()), proposal, now)
    {
      hide ConsensusModel.EmitProposalIfLeader;
      pending := Some(proposal);
      r := EmitProposalIfLeader(now);
    }

    method Tick(now: int) returns (r: Result<Progress, ConsensusError>)
      requires config.Valid()
      modifies this
      ensures Outcome(State(), r) == ConsensusModel.Tick(config, old(State()), now)
    {
      hide ConsensusModel.AdvanceRound;
      if now - roundStartedAt < config.roundTimeout { return Ok(NO_PROGRESS); }
      r := AdvanceRound(round + 1, now);
    }
  }
}
