/**
 What a node reports and keeps: its errors, its exclusion receipts, the proposal it still holds, and whose
 contributions it counts.
 */
module NodeReports {
  import opened Wrappers
  import opened ConsensusModel
  import opened CommitChain

  // -------------------------------------------------------------------------
  // Errors

  /** Of an earlier height, or of this one over another hash or for an earlier round. */
  predicate Passed(s: NodeState, m: Message) {
    m.height < s.height || (m.height == s.height && (m.previous != s.previous || m.round < s.round))
  }

  /** What becomes of a message before its body is looked at: a stranger's and one of a later height are errors, one
      of an earlier height or round, or over another hash, is ignored; none of them changes the node. */
  lemma FilteredExactly(c: Config, s: NodeState, m: Message, now: int)
    requires c.Valid()
    ensures var o := ObserveMessage(c, s, m, now);
            && (o.result == Err(NotAMember) <==> m.from !in c.committee.members)
            && (o.result == Err(HeightAhead) <==> m.from in c.committee.members && m.height > s.height)
            && (m.from in c.committee.members && Passed(s, m) ==> o == Idle(s))
            && (m.from !in c.committee.members || m.height > s.height ==> o.state == s)
  {
    hide AdvanceRound, ObserveBody;
    AdvanceErrs(c, s, m.round, now);
    BodyErrs(c, AdvanceRound(c, s, m.round, now).state, m, now);
  }

  /** The errors of a node about its own step. */
  predicate OwnError(o: Outcome) {
    o.result.Err? ==> o.result.error in {WrongProposer, ProposalAlreadyRecorded, ConflictingVote}
  }

  lemma EmitErrs(c: Config, s: NodeState, round: nat, choice: Choice, now: int)
    ensures var o := EmitPrevote(c, s, round, choice, now); o.result.Err? ==> o.result.error == ConflictingVote
    ensures var o := EmitPrecommit(c, s, round, choice, now); o.result.Err? ==> o.result.error == ConflictingVote
  {
    hide Commit, RecordVote, LedgerAt;
    var vote := RecordVote(LedgerAt(s.prevotes, round), c.local, choice);
    var own := RecordVote(LedgerAt(s.precommits, round), c.local, choice);
    RecordErrs(LedgerAt(s.prevotes, round), c.local, choice);
    RecordErrs(LedgerAt(s.precommits, round), c.local, choice);
    CommitIsOk(c, s, round, choice, now);
  }

  lemma RecordErrs(l: Ledger, voter: AgentId, choice: Choice)
    ensures RecordVote(l, voter, choice).count.Err? ==> RecordVote(l, voter, choice).count.error == ConflictingVote
  {
  }

  lemma CommitIsOk(c: Config, s: NodeState, round: nat, choice: Choice, now: int)
    ensures forall t: NodeState :: Commit(c, t, round, choice, now).result.Ok?
  {
  }

  lemma AdvanceErrs(c: Config, s: NodeState, target: nat, now: int)
    requires c.Valid()
    ensures OwnError(AdvanceRound(c, s, target, now))
  {
    hide EmitPrevote;
    var s1 := s.(round := target, step := AtPropose, roundStartedAt := now);
    if s.pending.Some? {
      var recorded := RecordProposal(c, s1, c.local, target, s.pending.value);
      EmitErrs(c, recorded.state, target, Some(s.pending.value.id), now);
    }
  }

  lemma BodyErrs(c: Config, s: NodeState, m: Message, now: int)
    requires c.Valid()
    ensures OwnError(ObserveBody(c, s, m, now))
  {
    hide EmitPrevote, EmitPrecommit, Commit, RecordVote, LedgerAt, Config.ProposerFor;
    match m.body
    case Propose(proposal) =>
      EmitErrs(c, RecordProposal(c, s, m.from, m.round, proposal).state, m.round, Some(proposal.id), now);
    case Vote(Prevote, choice) =>
      var vote := RecordVote(LedgerAt(s.prevotes, m.round), m.from, choice);
      RecordErrs(LedgerAt(s.prevotes, m.round), m.from, choice);
      EmitErrs(c, s.(prevotes := s.prevotes[m.round := vote.ledger]), m.round, choice, now);
    case Vote(Precommit, choice) =>
      RecordErrs(LedgerAt(s.precommits, m.round), m.from, choice);
      CommitIsOk(c, s, m.round, choice, now);
  }

  /** A proposal is refused exactly when its sender does not lead the round, or another is known for the round; a
      refused one changes nothing, and an accepted one is the one the node knows. */
  lemma ProposalsExactly(c: Config, s: NodeState, from: AgentId, round: nat, proposal: Proposal, now: int)
    requires c.Valid()
    ensures var o := ObserveProposal(c, s, from, round, proposal, now);
            && (o.result == Err(WrongProposer) <==> from != c.ProposerFor(s.previous, round))
            && (o.result == Err(ProposalAlreadyRecorded) <==>
                  from == c.ProposerFor(s.previous, round) && round in s.proposals && s.proposals[round] != proposal)
            && (o.result in {Err(WrongProposer), Err(ProposalAlreadyRecorded)} ==> o.state == s)
            && (o.result.Ok? && o.state.height == s.height ==>
                  round in o.state.proposals && o.state.proposals[round] == proposal)
  {
    hide EmitPrevote;
    var recorded := RecordProposal(c, s, from, round, proposal);
    EmitErrs(c, recorded.state, round, Some(proposal.id), now);
    EmitKeepsProposals(c, recorded.state, round, Some(proposal.id), now);
  }

  lemma EmitKeepsProposals(c: Config, s: NodeState, round: nat, choice: Choice, now: int)
    ensures var t := EmitPrevote(c, s, round, choice, now).state; t.height == s.height ==> t.proposals == s.proposals
    ensures var t := EmitPrecommit(c, s, round, choice, now).state; t.height == s.height ==> t.proposals == s.proposals
  {
    hide Commit, RecordVote, EmitPrecommit;
    var vote := RecordVote(LedgerAt(s.prevotes, round), c.local, choice);
    var s1 := s.(emittedPrevotes := s.emittedPrevotes + {round}, step := AtPrevote,
                 prevotes := s.prevotes[round := vote.ledger]);
    PrecommitKeepsProposals(c, s, round, choice, now);
    PrecommitKeepsProposals(c, s1, round, choice, now);
  }

  lemma PrecommitKeepsProposals(c: Config, s: NodeState, round: nat, choice: Choice, now: int)
    ensures var t := EmitPrecommit(c, s, round, choice, now).state; t.height == s.height ==> t.proposals == s.proposals
  {
    hide RecordVote;
  }

  /** A vote is refused exactly when its voter has voted otherwise, and then changes nothing; otherwise it is counted
      with the votes of others for the same choice. */
  lemma VotesExactly(l: Ledger, voter: AgentId, choice: Choice)
    ensures var r, otherwise := RecordVote(l, voter, choice), voter in l.byAgent && l.byAgent[voter] != choice;
            && (r.count == Err(ConflictingVote) <==> otherwise) && (r.count.Err? ==> otherwise && r.ledger == l)
            && (r.count.Ok? ==>
                  && voter in r.ledger.byAgent && r.ledger.byAgent[voter] == choice
                  && r.count.value == r.ledger.Count(choice))
  {
  }

  /** A message with such a vote is refused, and changes nothing. */
  lemma ConflictsRefused(c: Config, s: NodeState, m: Message, now: int)
    requires c.Valid() && m.body.Vote?
    requires var l := LedgerAt(s.Ledgers(m.body.phase), m.round);
             m.from in l.byAgent && l.byAgent[m.from] != m.body.choice
    ensures ObserveBody(c, s, m, now) == Outcome(s, Err(ConflictingVote))
  {
    var ledgers := s.Ledgers(m.body.phase);
    assert ledgers[m.round := ledgers[m.round]] == ledgers;
  }

  // -------------------------------------------------------------------------
  // Arrivals

  /** The envelope gets past exclusion, duplicates and the signature. */
  predicate Arrives(c: Config, s: NodeState, e: SignedEnvelope) {
    var m := e.envelope.message;
    !s.IsExcluded(m.height, m.round, m.from) && KeyOf(m) !in s.seen && c.crypto.verifies(e)
  }

  /** The envelope convicts its sender: another one was kept for its place, or none was and it does not verify. */
  predicate Convicts(c: Config, s: NodeState, e: SignedEnvelope) {
    var m := e.envelope.message;
    && !s.IsExcluded(m.height, m.round, m.from)
    && if KeyOf(m) in s.seen then s.seen[KeyOf(m)] != e else !c.crypto.verifies(e)
  }

  /** A subject that is not that of the message's height and round is an error, exactly where the message would
      otherwise be looked at. */
  lemma SubjectsExactly(c: Config, s: NodeState, ev: Event)
    requires c.Valid()
    ensures Next(c, s, ev).result == Err(SubjectMismatch) <==>
              match ev
              case Deliver(e, _) =>
                Arrives(c, s, e)
                && e.envelope.subject != c.crypto.roundSubject(e.envelope.message.height, e.envelope.message.round)
              case DeliverUnsigned(e, _) =>
                e.subject != c.crypto.roundSubject(e.message.height, e.message.round)
              case _ => false
  {
    hide ObserveMessage, AdvanceRound, EmitProposalIfLeader, DropContributions;
    match ev
    case Deliver(e, now) =>
      NoSubjectError(c, s.(seen := s.seen[KeyOf(e.envelope.message) := e]), e.envelope.message, now);
    case DeliverUnsigned(e, now) => NoSubjectError(c, s, e.message, now);
    case Queue(proposal, now) => QueueErrs(c, s.(pending := Some(proposal)), now);
    case Timer(now) => AdvanceErrs(c, s, s.round + 1, now);
  }

  lemma NoSubjectError(c: Config, s: NodeState, m: Message, now: int)
    requires c.Valid()
    ensures ObserveMessage(c, s, m, now).result != Err(SubjectMismatch)
  {
    hide AdvanceRound, ObserveBody;
    AdvanceErrs(c, s, m.round, now);
    BodyErrs(c, AdvanceRound(c, s, m.round, now).state, m, now);
  }

  lemma QueueErrs(c: Config, s: NodeState, now: int)
    requires c.Valid()
    ensures OwnError(EmitProposalIfLeader(c, s, now))
  {
    hide EmitPrevote;
    if s.pending.Some? {
      var recorded := RecordProposal(c, s, c.local, s.round, s.pending.value);
      EmitErrs(c, recorded.state, s.round, Some(s.pending.value.id), now);
    }
  }

  // -------------------------------------------------------------------------
  // Exclusion receipts

  function Exclusions(o: Outcome): seq<ExclusionReceipt> { if o.result.Ok? then o.result.value.exclusions else [] }

  /** The member was not excluded from the height and round before, and is afterwards. */
  predicate NewlyExcluded(s: NodeState, t: NodeState, height: nat, round: nat, a: AgentId) {
    !s.IsExcluded(height, round, a) && t.IsExcluded(height, round, a)
  }

  /**
   Exclusions, exactly.  A call excludes a member from a height and round if and only if it delivers an envelope in
   that member's name, of that height and round, that convicts it.  A node that holds its key reports each exclusion
   in one receipt: an equivocation with the hashes of the envelope kept and of the one delivered, or else an invalid
   signature with the hash of the one delivered; and it reports no other.
   */
  lemma ExclusionsExactly(c: Config, s: NodeState, ev: Event)
    requires c.Valid()
    ensures forall height, round, a ::
              NewlyExcluded(s, Next(c, s, ev).state, height, round, a) <==>
                && ev.Deliver? && Convicts(c, s, ev.signed)
                && var m := ev.signed.envelope.message; m.height == height && m.round == round && m.from == a
    ensures Exclusions(Next(c, s, ev)) ==
              if !c.holdsKey || !ev.Deliver? || !Convicts(c, s, ev.signed) then []
              else
                var e, m := ev.signed, ev.signed.envelope.message;
                if KeyOf(m) in s.seen then
                  [ExclusionReceipt(m.height, m.round, m.from, KindOf(m.body), Equivocation,
                                    [c.crypto.messageHash(s.seen[KeyOf(m)]), c.crypto.messageHash(e)], c.local, ev.now)]
                else
                  [ExclusionReceipt(m.height, m.round, m.from, KindOf(m.body), InvalidSignature,
                                    [c.crypto.messageHash(e)], c.local, ev.now)]
  {
    hide HandleSigned, ObserveMessage, AdvanceRound, EmitProposalIfLeader, Convicts;
    match ev
    case Deliver(e, now) => DeliveryExclusions(c, s, e, now);
    case DeliverUnsigned(e, now) => ObservePlain(c, s, e.message, now);
    case Queue(proposal, now) => EmitProposalKeeps(c, s.(pending := Some(proposal)), now);
    case Timer(now) => AdvancePlain(c, s, s.round + 1, now);
  }

  lemma DeliveryExclusions(c: Config, s: NodeState, e: SignedEnvelope, now: int)
    requires c.Valid()
    ensures var m, o := e.envelope.message, HandleSigned(c, s, e, now);
            && (forall height, round, a ::
                  NewlyExcluded(s, o.state, height, round, a) <==>
                    Convicts(c, s, e) && m.height == height && m.round == round && m.from == a)
            && Exclusions(o) ==
               if !c.holdsKey || !Convicts(c, s, e) then []
               else if KeyOf(m) in s.seen then
                 [ExclusionReceipt(m.height, m.round, m.from, KindOf(m.body), Equivocation,
                                   [c.crypto.messageHash(s.seen[KeyOf(m)]), c.crypto.messageHash(e)], c.local, now)]
               else
                 [ExclusionReceipt(m.height, m.round, m.from, KindOf(m.body), InvalidSignature,
                                   [c.crypto.messageHash(e)], c.local, now)]
  {
    hide ObserveMessage, WithoutVoter, Config.ProposerFor;
    ObservePlain(c, s.(seen := s.seen[KeyOf(e.envelope.message) := e]), e.envelope.message, now);
  }

  lemma AdvancePlain(c: Config, s: NodeState, target: nat, now: int)
    requires c.Valid()
    ensures var o := AdvanceRound(c, s, target, now);
            && Exclusions(o) == [] && o.state.excluded == s.excluded && o.state.seen == s.seen
            && (o.result.Ok? ==> (o.result.value.roundAdvanced <==> target > s.round))
  {
    hide EmitProposalIfLeader;
    EmitProposalKeeps(c, s.(round := target, step := AtPropose, roundStartedAt := now), now);
  }

  lemma ObservePlain(c: Config, s: NodeState, m: Message, now: int)
    requires c.Valid()
    ensures var o := ObserveMessage(c, s, m, now);
            && Exclusions(o) == [] && o.state.excluded == s.excluded && o.state.seen == s.seen
            && (o.result.Ok? ==> !o.result.value.roundAdvanced)
  {
    hide AdvanceRound, ObserveBody;
    AdvancePlain(c, s, m.round, now);
    ObserveBodyKeeps(c, AdvanceRound(c, s, m.round, now).state, m, now);
  }

  /** A new round is reported exactly by a timer that is due and does not fail. */
  lemma AdvancesReported(c: Config, s: NodeState, ev: Event)
    requires c.Valid()
    ensures var o := Next(c, s, ev);
            o.result.Ok? ==>
              (o.result.value.roundAdvanced <==> ev.Timer? && ev.now - s.roundStartedAt >= c.roundTimeout)
  {
    hide ObserveMessage, AdvanceRound, EmitProposalIfLeader, DropContributions;
    match ev
    case Deliver(e, now) =>
      ObservePlain(c, s.(seen := s.seen[KeyOf(e.envelope.message) := e]), e.envelope.message, now);
    case DeliverUnsigned(e, now) => ObservePlain(c, s, e.message, now);
    case Queue(proposal, now) => EmitProposalKeeps(c, s.(pending := Some(proposal)), now);
    case Timer(now) => AdvancePlain(c, s, s.round + 1, now);
  }

  // -------------------------------------------------------------------------
  // Envelopes kept

  /** The envelope of the key is of the given member and of a round of the node's own height. */
  predicate OfMember(s: NodeState, key: MessageKey, round: nat, a: AgentId) {
    key.height == s.height && key.round == round && key.from == a
  }

  /** Which envelopes a node keeps: a delivered one that arrives is kept in its place; one that convicts its sender is
      not, and all kept of that sender for that round, if of the node's own height, are forgotten; nothing else
      changes what is kept. */
  lemma KeptExactly(c: Config, s: NodeState, ev: Event)
    requires c.Valid()
    ensures var t := Next(c, s, ev).state;
            if ev.Deliver? && Arrives(c, s, ev.signed) then
              t.seen == s.seen[KeyOf(ev.signed.envelope.message) := ev.signed]
            else if ev.Deliver? && Convicts(c, s, ev.signed) then
              var m := ev.signed.envelope.message;
              && (forall key | key in t.seen :: key in s.seen && t.seen[key] == s.seen[key])
              && forall key | key in s.seen :: key in t.seen <==> !OfMember(s, key, m.round, m.from)
            else t.seen == s.seen
  {
    hide ObserveMessage, AdvanceRound, EmitProposalIfLeader, WithoutVoter, Config.ProposerFor;
    match ev
    case Deliver(e, now) =>
      ObservePlain(c, s.(seen := s.seen[KeyOf(e.envelope.message) := e]), e.envelope.message, now);
    case DeliverUnsigned(e, now) => ObservePlain(c, s, e.message, now);
    case Queue(proposal, now) => EmitProposalKeeps(c, s.(pending := Some(proposal)), now);
    case Timer(now) => AdvancePlain(c, s, s.round + 1, now);
  }

  // -------------------------------------------------------------------------
  // The pending proposal

  /** One call: queueing sets the pending proposal, and a commit of it clears it. */
  lemma NextPending(c: Config, s: NodeState, ev: Event)
    requires c.Valid() && FutureEmpty(s) && !Swallows(c, s, ev)
    ensures var o := Next(c, s, ev);
            o.state.pending == StillPending(if ev.Queue? then Some(ev.proposal) else s.pending, o.Commits())
  {
    hide ObserveMessage, AdvanceRound, EmitProposalIfLeader, WithoutVoter;
    match ev
    case Deliver(e, now) =>
      if Observed(c, s, ev).Some? {
        ObservePending(c, s.(seen := s.seen[KeyOf(e.envelope.message) := e]), e.envelope.message, now);
      }
    case DeliverUnsigned(e, now) =>
      if Observed(c, s, ev).Some? { ObservePending(c, s, e.message, now); }
    case Queue(proposal, now) => EmitProposalKeeps(c, s.(pending := Some(proposal)), now);
    case Timer(now) => AdvancePending(c, s, s.round + 1, now);
  }

  lemma AdvancePending(c: Config, s: NodeState, target: nat, now: int)
    requires c.Valid()
    ensures var o := AdvanceRound(c, s, target, now); o.state.pending == StillPending(s.pending, o.Commits())
  {
    hide EmitProposalIfLeader;
    EmitProposalKeeps(c, s.(round := target, step := AtPropose, roundStartedAt := now), now);
  }

  lemma ObservePending(c: Config, s: NodeState, m: Message, now: int)
    requires c.Valid() && FutureEmpty(s) && !SwallowedBy(c, s, m)
    ensures var o := ObserveMessage(c, s, m, now); o.state.pending == StillPending(s.pending, o.Commits())
  {
    hide AdvanceRound, ObserveBody, FutureEmpty;
    AdvancePending(c, s, m.round, now);
    if CatchesUp(c, s, m) { AdvanceCommitsExactly(c, s, m.round, now); } else { NoAdvance(c, s, m.round, now); }
    ObserveBodyKeeps(c, AdvanceRound(c, s, m.round, now).state, m, now);
  }

  lemma NoAdvance(c: Config, s: NodeState, target: nat, now: int)
    requires c.Valid()
    ensures target <= s.round ==> AdvanceRound(c, s, target, now) == Idle(s)
  {
  }

  /** The last proposal queued that has not been committed since. */
  function PendingOf(c: Config, s0: NodeState, events: seq<Event>): Option<Proposal>
    requires c.Valid()
  {
    if events == [] then None
    else
      var n := |events| - 1;
      StillPending(if events[n].Queue? then Some(events[n].proposal) else PendingOf(c, s0, events[..n]),
                   Next(c, Run(c, s0, events[..n]).state, events[n]).Commits())
  }

  /** Over every run that loses no commit, the node holds the last proposal queued, until it commits that one. */
  lemma {:induction false} PendingExactly(c: Config, genesis: Hash, startedAt: int, events: seq<Event>)
    requires c.Valid() && NoneSwallowed(c, InitialState(genesis, startedAt), events)
    ensures var s0 := InitialState(genesis, startedAt); Run(c, s0, events).state.pending == PendingOf(c, s0, events)
  {
    hide Next, NoneSwallowed, Swallows, Intact, FutureEmpty, StillPending;
    var s0 := InitialState(genesis, startedAt);
    NoneSwallowedStep(c, s0, events);
    if events != [] {
      var n := |events| - 1;
      PendingExactly(c, genesis, startedAt, events[..n]);
      UnswallowedRun(c, genesis, startedAt, events[..n]);
      NextPending(c, Run(c, s0, events[..n]).state, events[n]);
    }
  }

  // -------------------------------------------------------------------------
  // Whose contributions count

  /** The node counts something of `a` in the round: a vote, or the proposal of the round that `a` leads. */
  predicate Counts(c: Config, s: NodeState, round: nat, a: AgentId)
    requires c.Valid()
  {
    || a in LedgerAt(s.prevotes, round).byAgent || a in LedgerAt(s.precommits, round).byAgent
    || (round in s.proposals && c.ProposerFor(s.previous, round) == a)
  }

  /** The step adds nothing of `a`, another member, to the round, or enters a new height with nothing of it. */
  ghost predicate AddsNothing(c: Config, s: NodeState, t: NodeState, round: nat, a: AgentId)
    requires c.Valid()
  {
    Counts(c, t, round, a) ==> Counts(c, s, round, a) && t.height == s.height && t.previous == s.previous
  }

  lemma CommitAddsNothing(
    c: Config, s: NodeState, at: nat, choice: Choice, now: int, round: nat, a: AgentId)
    requires c.Valid()
    ensures AddsNothing(c, s, Commit(c, s, at, choice, now).state, round, a)
  {
  }

  /** A vote adds its voter to its round and nobody else anywhere. */
  lemma VoteAdds(ledgers: map<nat, Ledger>, at: nat, voter: AgentId, choice: Choice, round: nat, a: AgentId)
    requires a != voter || round != at
    ensures var after := ledgers[at := RecordVote(LedgerAt(ledgers, at), voter, choice).ledger];
            a in LedgerAt(after, round).byAgent ==> a in LedgerAt(ledgers, round).byAgent
  {
  }

  lemma PrecommitAddsNothing(
    c: Config, s: NodeState, at: nat, choice: Choice, now: int, round: nat, a: AgentId)
    requires c.Valid() && a != c.local
    ensures AddsNothing(c, s, EmitPrecommit(c, s, at, choice, now).state, round, a)
  {
    hide Commit, Config.ProposerFor, RecordVote, LedgerAt;
    VoteAdds(s.precommits, at, c.local, choice, round, a);
    var vote := RecordVote(LedgerAt(s.precommits, at), c.local, choice);
    var s1 := s.(emittedPrecommits := s.emittedPrecommits + {at}, step := AtPrecommit,
                 precommits := s.precommits[at := vote.ledger]);
    CommitAddsNothing(c, s1, at, choice, now, round, a);
  }

  lemma PrevoteAddsNothing(
    c: Config, s: NodeState, at: nat, choice: Choice, now: int, round: nat, a: AgentId)
    requires c.Valid() && a != c.local
    ensures AddsNothing(c, s, EmitPrevote(c, s, at, choice, now).state, round, a)
  {
    hide EmitPrecommit, Config.ProposerFor, RecordVote, LedgerAt;
    VoteAdds(s.prevotes, at, c.local, choice, round, a);
    var vote := RecordVote(LedgerAt(s.prevotes, at), c.local, choice);
    var s1 := s.(emittedPrevotes := s.emittedPrevotes + {at}, step := AtPrevote,
                 prevotes := s.prevotes[at := vote.ledger]);
    PrecommitAddsNothing(c, s1, at, choice, now, round, a);
  }

  lemma RecordAddsNothing(c: Config, s: NodeState, from: AgentId, at: nat, proposal: Proposal, round: nat, a: AgentId)
    requires c.Valid() && (a != from || round != at)
    ensures AddsNothing(c, s, RecordProposal(c, s, from, at, proposal).state, round, a)
  {
    hide Config.ProposerFor;
  }

  lemma AdvanceAddsNothing(c: Config, s: NodeState, target: nat, now: int, round: nat, a: AgentId)
    requires c.Valid() && a != c.local
    ensures AddsNothing(c, s, AdvanceRound(c, s, target, now).state, round, a)
  {
    hide EmitPrevote, RecordProposal, Config.ProposerFor;
    var s1 := s.(round := target, step := AtPropose, roundStartedAt := now);
    ProposeAddsNothing(c, s1, now, round, a);
  }

  lemma ProposeAddsNothing(c: Config, s: NodeState, now: int, round: nat, a: AgentId)
    requires c.Valid() && a != c.local
    ensures AddsNothing(c, s, EmitProposalIfLeader(c, s, now).state, round, a)
  {
    hide EmitPrevote, RecordProposal, Config.ProposerFor;
    if s.pending.Some? {
      var recorded := RecordProposal(c, s, c.local, s.round, s.pending.value).state;
      RecordAddsNothing(c, s, c.local, s.round, s.pending.value, round, a);
      PrevoteAddsNothing(c, recorded, s.round, Some(s.pending.value.id), now, round, a);
    }
  }

  lemma BodyAddsNothing(c: Config, s: NodeState, m: Message, now: int, round: nat, a: AgentId)
    requires c.Valid() && a != c.local && (a != m.from || round != m.round)
    ensures AddsNothing(c, s, ObserveBody(c, s, m, now).state, round, a)
  {
    hide EmitPrevote, EmitPrecommit, Commit, RecordProposal, Config.ProposerFor, RecordVote, LedgerAt;
    match m.body
    case Propose(proposal) =>
      RecordAddsNothing(c, s, m.from, m.round, proposal, round, a);
      PrevoteAddsNothing(c, RecordProposal(c, s, m.from, m.round, proposal).state, m.round, Some(proposal.id), now,
                         round, a);
    case Vote(Prevote, choice) =>
      VoteAdds(s.prevotes, m.round, m.from, choice, round, a);
      var vote := RecordVote(LedgerAt(s.prevotes, m.round), m.from, choice);
      PrecommitAddsNothing(c, s.(prevotes := s.prevotes[m.round := vote.ledger]), m.round, choice, now, round, a);
    case Vote(Precommit, choice) =>
      VoteAdds(s.precommits, m.round, m.from, choice, round, a);
      var vote := RecordVote(LedgerAt(s.precommits, m.round), m.from, choice);
      CommitAddsNothing(c, s.(precommits := s.precommits[m.round := vote.ledger]), m.round, choice, now, round, a);
  }

  lemma ObserveAddsNothing(c: Config, s: NodeState, m: Message, now: int, round: nat, a: AgentId)
    requires c.Valid() && a != c.local && (a != m.from || round != m.round)
    ensures AddsNothing(c, s, ObserveMessage(c, s, m, now).state, round, a)
  {
    hide AdvanceRound, ObserveBody, Counts;
    AdvanceAddsNothing(c, s, m.round, now, round, a);
    BodyAddsNothing(c, AdvanceRound(c, s, m.round, now).state, m, now, round, a);
  }

  /** Excluding a member drops what it contributed to the round, and adds nothing. */
  lemma ExcludeDrops(
    c: Config, s: NodeState, key: MessageKey, reason: ExclusionReason, evidence: seq<Hash>, now: int, round: nat,
    a: AgentId)
    requires c.Valid()
    ensures var t := ExcludeSender(c, s, key, reason, evidence, now).state;
            && !Counts(c, t, key.round, key.from) && AddsNothing(c, s, t, round, a)
  {
    hide Config.ProposerFor;
  }

  /** Nobody excluded from a round of the node's height is counted in it. */
  ghost predicate Silenced(c: Config, s: NodeState)
    requires c.Valid()
  {
    forall round, a | a != c.local && s.IsExcluded(s.height, round, a) :: !Counts(c, s, round, a)
  }

  lemma ObserveSilences(c: Config, s: NodeState, m: Message, now: int)
    requires c.Valid() && FutureEmpty(s) && !SwallowedBy(c, s, m) && Silenced(c, s)
    requires !s.IsExcluded(m.height, m.round, m.from)
    ensures Silenced(c, ObserveMessage(c, s, m, now).state)
  {
    hide ObserveMessage, Counts, FutureEmpty;
    var t := ObserveMessage(c, s, m, now).state;
    ObservePlain(c, s, m, now);
    ObserveKeeps(c, s, m, now);
    forall round, a | a != c.local && t.IsExcluded(t.height, round, a) ensures !Counts(c, t, round, a) {
      if a == m.from && round == m.round { SenderCounted(c, s, m, now); }
      else { ObserveAddsNothing(c, s, m, now, round, a); }
    }
  }

  /** The sender of a message is newly counted only at the height of the message. */
  lemma SenderCounted(c: Config, s: NodeState, m: Message, now: int)
    requires c.Valid() && FutureEmpty(s) && !SwallowedBy(c, s, m)
    ensures var t := ObserveMessage(c, s, m, now).state;
            Counts(c, t, m.round, m.from) ==> t.height == s.height && (t == s || m.height == s.height)
  {
    hide AdvanceRound, ObserveBody, FutureEmpty;
    if m.height == s.height && m.previous == s.previous && m.round >= s.round {
      if m.from in c.committee.members {
        if CatchesUp(c, s, m) { AdvanceCommitsExactly(c, s, m.round, now); } else { NoAdvance(c, s, m.round, now); }
        ObserveBodyKeeps(c, AdvanceRound(c, s, m.round, now).state, m, now);
      }
    }
  }

  lemma DeliverSilences(c: Config, s: NodeState, e: SignedEnvelope, now: int)
    requires c.Valid() && FutureEmpty(s) && !Swallows(c, s, Deliver(e, now)) && Silenced(c, s)
    ensures Silenced(c, HandleSigned(c, s, e, now).state)
  {
    hide Counts, ObserveMessage, ExcludeSender;
    var m := e.envelope.message;
    var key := KeyOf(m);
    if Convicts(c, s, e) {
      if key in s.seen {
        ExcludeSilences(c, s, key, Equivocation, [c.crypto.messageHash(s.seen[key]), c.crypto.messageHash(e)], now);
      } else {
        ExcludeSilences(c, s, key, InvalidSignature, [c.crypto.messageHash(e)], now);
      }
    } else if Arrives(c, s, e) {
      var s1 := s.(seen := s.seen[key := e]);
      SeenSilences(c, s, s1);
      if Observed(c, s, Deliver(e, now)).Some? { ObserveSilences(c, s1, m, now); }
    }
  }

  lemma SeenSilences(c: Config, s: NodeState, t: NodeState)
    requires c.Valid() && Silenced(c, s) && t == s.(seen := t.seen)
    ensures Silenced(c, t)
  {
    forall round, a | a != c.local && t.IsExcluded(t.height, round, a) ensures !Counts(c, t, round, a) {
      assert !Counts(c, s, round, a);
    }
  }

  lemma ExcludeSilences(
    c: Config, s: NodeState, key: MessageKey, reason: ExclusionReason, evidence: seq<Hash>, now: int)
    requires c.Valid() && Silenced(c, s)
    ensures Silenced(c, ExcludeSender(c, s, key, reason, evidence, now).state)
  {
    hide Counts, ExcludeSender;
    var t := ExcludeSender(c, s, key, reason, evidence, now).state;
    ExcludedAfter(c, s, key, reason, evidence, now);
    forall round, a | a != c.local && t.IsExcluded(t.height, round, a) ensures !Counts(c, t, round, a) {
      ExcludeDrops(c, s, key, reason, evidence, now, round, a);
    }
  }

  lemma ExcludedAfter(
    c: Config, s: NodeState, key: MessageKey, reason: ExclusionReason, evidence: seq<Hash>, now: int)
    requires c.Valid()
    ensures var t := ExcludeSender(c, s, key, reason, evidence, now).state;
            && t.height == s.height && t.previous == s.previous
            && forall height, round, a :: t.IsExcluded(height, round, a) <==>
                 s.IsExcluded(height, round, a) || (height == key.height && round == key.round && a == key.from)
  {
    hide WithoutVoter, Config.ProposerFor;
  }

  lemma NextSilences(c: Config, s: NodeState, ev: Event)
    requires c.Valid() && FutureEmpty(s) && !Swallows(c, s, ev) && !ev.DeliverUnsigned? && Silenced(c, s)
    ensures Silenced(c, Next(c, s, ev).state)
  {
    hide HandleSigned, Counts, EmitProposalIfLeader, AdvanceRound, FutureEmpty, Swallows;
    match ev
    case Deliver(e, now) => DeliverSilences(c, s, e, now);
    case Queue(proposal, now) =>
      var s1 := s.(pending := Some(proposal));
      EmitProposalKeeps(c, s1, now);
      OwnStepSilences(c, s, s1, EmitProposalIfLeader(c, s1, now).state, now, true);
    case Timer(now) =>
      AdvancePlain(c, s, s.round + 1, now);
      OwnStepSilences(c, s, s, AdvanceRound(c, s, s.round + 1, now).state, now, false);
  }

  lemma OwnStepSilences(c: Config, s: NodeState, s1: NodeState, t: NodeState, now: int, queued: bool)
    requires c.Valid() && Silenced(c, s) && s1 == s.(pending := s1.pending) && t.excluded == s.excluded
    requires t == if queued
            then EmitProposalIfLeader(c, s1, now).state else AdvanceRound(c, s1, s1.round + 1, now).state
    ensures Silenced(c, t)
  {
    hide Config.ProposerFor, EmitProposalIfLeader, AdvanceRound;
    forall round, a | a != c.local && t.IsExcluded(t.height, round, a) ensures !Counts(c, t, round, a) {
      if queued { ProposeAddsNothing(c, s1, now, round, a); }
        else { AdvanceAddsNothing(c, s1, s1.round + 1, now, round, a); }
      assert Counts(c, s1, round, a) == Counts(c, s, round, a);
    }
  }

  /**
   The excluded do not count.  Over every run of signed envelopes that loses no commit, nobody but the node itself is
   counted, as voter or as proposer, in a round of the node's height it is excluded from.
   */
  lemma {:induction false} ExcludedDoNotCount(c: Config, genesis: Hash, startedAt: int, events: seq<Event>)
    requires c.Valid() && NoneSwallowed(c, InitialState(genesis, startedAt), events)
    requires forall ev | ev in events :: !ev.DeliverUnsigned?
    ensures Silenced(c, Run(c, InitialState(genesis, startedAt), events).state)
  {
    hide Next, NoneSwallowed, Swallows, Intact, FutureEmpty, Silenced;
    var s0 := InitialState(genesis, startedAt);
    NoneSwallowedStep(c, s0, events);
    if events == [] { StartsSilent(c, genesis, startedAt); }
    else {
      var n := |events| - 1;
      ExcludedDoNotCount(c, genesis, startedAt, events[..n]);
      UnswallowedRun(c, genesis, startedAt, events[..n]);
      NextSilences(c, Run(c, s0, events[..n]).state, events[n]);
    }
  }

  lemma StartsSilent(c: Config, genesis: Hash, startedAt: int)
    requires c.Valid()
    ensures Silenced(c, InitialState(genesis, startedAt))
  {
  }

  // -------------------------------------------------------------------------
  // The step

  /** The step is that of a vote the node cast in its round, or the first if it cast none. */
  ghost predicate InStep(s: NodeState) {
    match s.step
    case AtPropose => s.round !in s.emittedPrevotes && s.round !in s.emittedPrecommits
    case AtPrevote => s.round in s.emittedPrevotes
    case AtPrecommit => s.round in s.emittedPrecommits
  }

  lemma EmitsInStep(c: Config, s: NodeState, choice: Choice, now: int)
    ensures InStep(s) ==> InStep(EmitPrecommit(c, s, s.round, choice, now).state)
    ensures InStep(s) ==> InStep(EmitPrevote(c, s, s.round, choice, now).state)
  {
    hide EmitPrecommit, RecordVote;
    var vote := RecordVote(LedgerAt(s.prevotes, s.round), c.local, choice);
    var s1 := s.(emittedPrevotes := s.emittedPrevotes + {s.round}, step := AtPrevote,
                 prevotes := s.prevotes[s.round := vote.ledger]);
    PrecommitsInStep(c, s, choice, now);
    PrecommitsInStep(c, s1, choice, now);
  }

  lemma PrecommitsInStep(c: Config, s: NodeState, choice: Choice, now: int)
    ensures InStep(s) ==> InStep(EmitPrecommit(c, s, s.round, choice, now).state)
  {
    hide RecordVote, Commit;
    var vote := RecordVote(LedgerAt(s.precommits, s.round), c.local, choice);
    CommitsInStep(c, s.(emittedPrecommits := s.emittedPrecommits + {s.round}, step := AtPrecommit,
                        precommits := s.precommits[s.round := vote.ledger]), s.round, choice, now);
  }

  lemma CommitsInStep(c: Config, s: NodeState, round: nat, choice: Choice, now: int)
    ensures InStep(s) ==> InStep(Commit(c, s, round, choice, now).state)
  {
  }

  lemma ProposesInStep(c: Config, s: NodeState, now: int)
    requires c.Valid() && InStep(s)
    ensures InStep(EmitProposalIfLeader(c, s, now).state)
  {
    hide EmitPrevote, Config.ProposerFor;
    if s.pending.Some? {
      EmitsInStep(c, RecordProposal(c, s, c.local, s.round, s.pending.value).state, Some(s.pending.value.id), now);
    }
  }

  lemma AdvancesInStep(c: Config, s: NodeState, target: nat, now: int)
    requires c.Valid() && FutureEmpty(s) && InStep(s)
    ensures InStep(AdvanceRound(c, s, target, now).state)
  {
    hide EmitProposalIfLeader;
    if target > s.round { ProposesInStep(c, s.(round := target, step := AtPropose, roundStartedAt := now), now); }
  }

  lemma BodyInStep(c: Config, s: NodeState, m: Message, now: int)
    requires c.Valid() && InStep(s) && m.round == s.round
    ensures InStep(ObserveBody(c, s, m, now).state)
  {
    hide EmitPrevote, EmitPrecommit, RecordVote, Config.ProposerFor;
    match m.body
    case Propose(proposal) =>
      EmitsInStep(c, RecordProposal(c, s, m.from, m.round, proposal).state, Some(proposal.id), now);
    case Vote(Prevote, choice) =>
      var vote := RecordVote(LedgerAt(s.prevotes, m.round), m.from, choice);
      EmitsInStep(c, s.(prevotes := s.prevotes[m.round := vote.ledger]), choice, now);
    case Vote(Precommit, choice) =>
  }

  lemma ObservesInStep(c: Config, s: NodeState, m: Message, now: int)
    requires c.Valid() && FutureEmpty(s) && InStep(s) && !SwallowedBy(c, s, m)
    ensures InStep(ObserveMessage(c, s, m, now).state)
  {
    hide AdvanceRound, ObserveBody, FutureEmpty, InStep;
    AdvancesInStep(c, s, m.round, now);
    if CatchesUp(c, s, m) { AdvanceCommitsExactly(c, s, m.round, now); } else { NoAdvance(c, s, m.round, now); }
    if m.height == s.height && m.previous == s.previous && m.round >= s.round && m.from in c.committee.members {
      BodyInStep(c, AdvanceRound(c, s, m.round, now).state, m, now);
    }
  }

  lemma NextInStep(c: Config, s: NodeState, ev: Event)
    requires c.Valid() && FutureEmpty(s) && InStep(s) && !Swallows(c, s, ev)
    ensures InStep(Next(c, s, ev).state)
  {
    hide ObserveMessage, AdvanceRound, EmitProposalIfLeader, WithoutVoter;
    match ev
    case Deliver(e, now) =>
      if Observed(c, s, ev).Some? {
        ObservesInStep(c, s.(seen := s.seen[KeyOf(e.envelope.message) := e]), e.envelope.message, now);
      }
    case DeliverUnsigned(e, now) =>
      if Observed(c, s, ev).Some? { ObservesInStep(c, s, e.message, now); }
    case Queue(proposal, now) => ProposesInStep(c, s.(pending := Some(proposal)), now);
    case Timer(now) => AdvancesInStep(c, s, s.round + 1, now);
  }

  /** Over every run that loses no commit, the step is that of a vote cast in the current round, or the first. */
  lemma {:induction false} StepTells(c: Config, genesis: Hash, startedAt: int, events: seq<Event>)
    requires c.Valid() && NoneSwallowed(c, InitialState(genesis, startedAt), events)
    ensures InStep(Run(c, InitialState(genesis, startedAt), events).state)
  {
    hide Next, NoneSwallowed, Swallows, Intact, FutureEmpty;
    var s0 := InitialState(genesis, startedAt);
    NoneSwallowedStep(c, s0, events);
    if events != [] {
      var n := |events| - 1;
      StepTells(c, genesis, startedAt, events[..n]);
      UnswallowedRun(c, genesis, startedAt, events[..n]);
      NextInStep(c, Run(c, s0, events[..n]).state, events[n]);
    }
  }
}
