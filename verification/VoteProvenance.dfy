/**
 Where votes come from.

 Relates a node to `sent`, the set of all envelopes it has ever handed out, across all its heights.
 In every reachable state the two indexes of each ledger are inverse to each other and hold only
 members, every recorded vote stems from a verified envelope (or from the node itself), the node has
 voted at most once per phase, height and round, and the ledger's own conflicting-vote error cannot occur.
 */
module VoteProvenance {
  import opened Wrappers
  import opened ConsensusModel
  import opened CommitChain

  // -------------------------------------------------------------------------
  // Ledgers

  /** `byAgent` and `byValue` are inverse to each other, and only members vote. */
  ghost predicate LedgerOk(c: Config, l: Ledger) {
    && (forall a | a in l.byAgent :: a in c.committee.members && a in l.VotersFor(l.byAgent[a]))
    && (forall v | v in l.byValue :: l.byValue[v] != {})
    && (forall v, a | v in l.byValue && a in l.byValue[v] :: a in l.byAgent && l.byAgent[a] == v)
  }

  ghost predicate LedgersOk(c: Config, ledgers: map<nat, Ledger>) {
    forall r | r in ledgers :: LedgerOk(c, ledgers[r])
  }

  lemma RecordVoteOk(c: Config, l: Ledger, voter: AgentId, choice: Choice)
    requires LedgerOk(c, l) && voter in c.committee.members
    requires voter in l.byAgent ==> l.byAgent[voter] == choice
    ensures var r := RecordVote(l, voter, choice);
            && LedgerOk(c, r.ledger) && r.ledger.byAgent == l.byAgent[voter := choice]
            && r.count == Ok(r.ledger.Count(choice)) && |r.ledger.VotersFor(choice)| == r.ledger.Count(choice)
  {
  }

  lemma RemoveVoterOk(c: Config, l: Ledger, voter: AgentId)
    requires LedgerOk(c, l)
    ensures LedgerOk(c, RemoveVoter(l, voter))
    ensures RemoveVoter(l, voter).byAgent == l.byAgent - {voter}
  {
    var r := RemoveVoter(l, voter);
    if voter in l.byAgent {
      var choice := l.byAgent[voter];
      forall a | a in r.byAgent ensures a in r.VotersFor(r.byAgent[a]) {
        assert a in l.VotersFor(l.byAgent[a]);
      }
    } else {
      assert l.byAgent - {voter} == l.byAgent;
    }
  }

  // -------------------------------------------------------------------------
  // Sent envelopes

  ghost predicate IsVote(e: Envelope, height: nat, round: nat, phase: Phase) {
    e.message.height == height && e.message.round == round && e.message.body.Vote? && e.message.body.phase == phase
  }

  /** The node never votes twice in the same phase of the same height and round. */
  ghost predicate VotesOnce(sent: set<Envelope>) {
    forall e1, e2 | e1 in sent && e2 in sent && e1.message.body.Vote?
                    && IsVote(e2, e1.message.height, e1.message.round, e1.message.body.phase) ::
      e1.message.body.choice == e2.message.body.choice && e1.message.previous == e2.message.previous
  }

  /** What one sent envelope says about the state it is sent from or has been left behind by. */
  ghost predicate SentOk(c: Config, s: NodeState, e: Envelope) {
    && e.message.from == c.local
    && e.message.height <= s.height
    && (e.message.height == s.height ==>
          && e.message.previous == s.previous
          && (e.message.body.Vote? ==> e.message.round in s.Emitted(e.message.body.phase)))
  }

  ghost predicate AllSentOk(c: Config, s: NodeState, sent: set<Envelope>) {
    forall e | e in sent :: SentOk(c, s, e)
  }

  /** A vote of the node itself: cast, and agreeing with whatever it sent. */
  ghost predicate OwnVote(s: NodeState, sent: set<Envelope>, phase: Phase, round: nat, choice: Choice) {
    && round in s.Emitted(phase)
    && (forall e | e in sent && IsVote(e, s.height, round, phase) :: e.message.body.choice == choice)
    && (phase == Precommit ==>
          exists e :: e in sent && IsVote(e, s.height, round, phase)
                      && e.message.body.choice == choice && e.message.previous == s.previous)
  }

  /** The vote of another member: backed by a verified envelope kept in `seen`. */
  ghost predicate SeenVote(
    c: Config, seen: map<MessageKey, SignedEnvelope>,
    height: nat, previous: Hash, phase: Phase, round: nat, voter: AgentId, choice: Choice)
  {
    var key := MessageKey(height, round, voter, VoteKind(phase));
    && key in seen
    && c.crypto.verifies(seen[key])
    && KeyOf(seen[key].envelope.message) == key
    && seen[key].envelope.message.previous == previous
    && seen[key].envelope.message.body == Vote(phase, choice)
  }

  ghost predicate VoteSourced(
    c: Config, s: NodeState, sent: set<Envelope>, phase: Phase, round: nat, voter: AgentId, choice: Choice)
  {
    if voter == c.local then OwnVote(s, sent, phase, round, choice)
    else SeenVote(c, s.seen, s.height, s.previous, phase, round, voter, choice)
  }

  ghost predicate Sourced(c: Config, s: NodeState, sent: set<Envelope>, phase: Phase) {
    forall r, a | r in s.Ledgers(phase) && a in s.Ledgers(phase)[r].byAgent ::
      VoteSourced(c, s, sent, phase, r, a, s.Ledgers(phase)[r].byAgent[a])
  }

  ghost predicate SeenOk(c: Config, seen: map<MessageKey, SignedEnvelope>) {
    forall key | key in seen :: c.crypto.verifies(seen[key]) && KeyOf(seen[key].envelope.message) == key
  }

  /** The invariant of one honest node together with everything it has sent. */
  ghost predicate Inv(c: Config, s: NodeState, sent: set<Envelope>) {
    && FutureEmpty(s)
    && LedgersOk(c, s.prevotes) && LedgersOk(c, s.precommits)
    && VotesOnce(sent) && AllSentOk(c, s, sent)
    && Sourced(c, s, sent, Prevote) && Sourced(c, s, sent, Precommit)
    && SeenOk(c, s.seen)
  }

  function SetOf(s: seq<Envelope>): set<Envelope> { set e | e in s }

  // -------------------------------------------------------------------------
  // Certificates

  ghost predicate SentPrecommit(sent: set<Envelope>, height: nat, round: nat, previous: Hash, choice: Choice) {
    exists e :: e in sent && IsVote(e, height, round, Precommit)
                && e.message.body.choice == choice && e.message.previous == previous
  }

  /** `voters` is a quorum of members that voted `choice`: each other member by a verified envelope the
      node still holds, the node itself, if it counts, by a precommit it sent. */
  ghost predicate IsQuorum(
    c: Config, seen: map<MessageKey, SignedEnvelope>, sent: set<Envelope>,
    height: nat, round: nat, previous: Hash, phase: Phase, choice: Choice, voters: set<AgentId>)
  {
    && |voters| >= c.committee.Threshold()
    && (forall a | a in voters ::
          && a in c.committee.members
          && (if a == c.local then phase == Precommit ==> SentPrecommit(sent, height, round, previous, choice)
              else SeenVote(c, seen, height, previous, phase, round, a, choice)))
  }

  /** None of the sent precommits of the commit's height is for a later round. */
  ghost predicate LastWord(sent: set<Envelope>, commit: CommitRecord) {
    forall e | e in sent && e.message.body.Vote? && e.message.body.phase == Precommit
               && e.message.height == commit.height :: e.message.round <= commit.round
  }

  /** Both tallies of a commit count the members of an actual quorum, and the node precommitted in no later
      round. */
  ghost predicate Certified(
    c: Config, seen: map<MessageKey, SignedEnvelope>, sent: set<Envelope>, previous: Hash, commit: CommitRecord)
  {
    LastWord(sent, commit) &&
    exists prevoters, precommitters ::
      && |prevoters| == commit.prevoteTally && |precommitters| == commit.precommitTally
      && IsQuorum(c, seen, sent, commit.height, commit.round, previous, Prevote, Some(commit.proposal.id), prevoters)
      && IsQuorum(c, seen, sent, commit.height, commit.round, previous, Precommit, Some(commit.proposal.id),
                  precommitters)
  }

  /** The outcome of a step: no vote conflict, the invariant kept, every commit certified. */
  ghost predicate KeepsInv(c: Config, s: NodeState, sent: set<Envelope>, o: Outcome) {
    && o.result != Err(ConflictingVote)
    && o.state.seen == s.seen
    && Inv(c, o.state, sent + SetOf(o.Outbound()))
    && (forall commit | commit in o.Commits() ::
          Certified(c, s.seen, sent + SetOf(o.Outbound()), s.previous, commit))
  }

  lemma LedgerQuorum(c: Config, s: NodeState, sent: set<Envelope>, phase: Phase, round: nat, choice: Choice)
    requires LedgersOk(c, s.Ledgers(phase)) && Sourced(c, s, sent, phase)
    requires LedgerAt(s.Ledgers(phase), round).Count(choice) >= c.committee.Threshold()
    ensures IsQuorum(c, s.seen, sent, s.height, round, s.previous, phase, choice,
                     LedgerAt(s.Ledgers(phase), round).VotersFor(choice))
  {
    var l := LedgerAt(s.Ledgers(phase), round);
    forall a | a in l.VotersFor(choice)
      ensures a in c.committee.members && VoteSourced(c, s, sent, phase, round, a, choice)
    {
      assert LedgerOk(c, l);
      assert a in l.byAgent && l.byAgent[a] == choice;
    }
  }

  lemma PrecommitsSoFar(c: Config, s: NodeState, sent: set<Envelope>, commit: CommitRecord)
    requires FutureEmpty(s) && AllSentOk(c, s, sent) && commit.height == s.height && commit.round == s.round
    ensures LastWord(sent, commit)
  {
    forall e | e in sent && e.message.body.Vote? && e.message.body.phase == Precommit
               && e.message.height == commit.height
      ensures e.message.round <= commit.round
    {
      assert SentOk(c, s, e);
    }
  }

  lemma CommitKeepsInv(c: Config, s: NodeState, sent: set<Envelope>, round: nat, choice: Choice, now: int)
    requires Inv(c, s, sent) && round == s.round
    ensures KeepsInv(c, s, sent, Commit(c, s, round, choice, now))
  {
    hide LedgerOk, SeenVote, IsQuorum, OwnVote;
    var o := Commit(c, s, round, choice, now);
    assert sent + SetOf(o.Outbound()) == sent;
    if o.Commits() != [] {
      LedgerQuorum(c, s, sent, Prevote, round, choice);
      LedgerQuorum(c, s, sent, Precommit, round, choice);
      PrecommitsSoFar(c, s, sent, o.Commits()[0]);
      assert Certified(c, s.seen, sent, s.previous, o.Commits()[0]);
    }
  }

  // -------------------------------------------------------------------------
  // The node's own votes

  /** The state in which the node has recorded its own vote. */
  function CastState(s: NodeState, phase: Phase, round: nat, l: Ledger): NodeState {
    if phase == Prevote then
      s.(emittedPrevotes := s.emittedPrevotes + {round}, step := AtPrevote, prevotes := s.prevotes[round := l])
    else
      s.(emittedPrecommits := s.emittedPrecommits + {round}, step := AtPrecommit,
         precommits := s.precommits[round := l])
  }

  /** A node that has not emitted a vote has none on record. */
  lemma NoOwnVoteYet(c: Config, s: NodeState, sent: set<Envelope>, phase: Phase, round: nat)
    requires Inv(c, s, sent) && round !in s.Emitted(phase)
    ensures c.local !in LedgerAt(s.Ledgers(phase), round).byAgent
  {
    var ls := s.Ledgers(phase);
    assert round in ls && c.local in ls[round].byAgent ==>
             VoteSourced(c, s, sent, phase, round, c.local, ls[round].byAgent[c.local]);
  }

  lemma OwnVoteCast(
    c: Config, s: NodeState, s1: NodeState, sent: set<Envelope>, phase: Phase, choice: Choice, now: int)
    requires AllSentOk(c, s, sent) && s.round !in s.Emitted(phase)
    requires s1.height == s.height && s1.previous == s.previous && s.round in s1.Emitted(phase)
    ensures OwnVote(s1, sent + {BuildEnvelope(c, s, s.round, Vote(phase, choice), now)}, phase, s.round, choice)
  {
    var e := BuildEnvelope(c, s, s.round, Vote(phase, choice), now);
    assert e in sent + {e} && IsVote(e, s.height, s.round, phase);
    assert forall e2 | e2 in sent && IsVote(e2, s.height, s.round, phase) :: SentOk(c, s, e2);
  }

  /** Votes other than the one being cast stay sourced. */
  lemma OtherVoteStays(
    c: Config, s: NodeState, s1: NodeState, sent: set<Envelope>, e: Envelope,
    phase: Phase, round: nat, voter: AgentId, choice: Choice)
    requires VoteSourced(c, s, sent, phase, round, voter, choice)
    requires s1.height == s.height && s1.previous == s.previous && s1.seen == s.seen
    requires s.Emitted(phase) <= s1.Emitted(phase)
    requires voter == c.local ==> !IsVote(e, s.height, round, phase)
    ensures VoteSourced(c, s1, sent + {e}, phase, round, voter, choice)
  {
  }

  lemma CastSourced(c: Config, s: NodeState, sent: set<Envelope>, phase: Phase, choice: Choice, now: int)
    requires c.Valid() && Inv(c, s, sent) && s.round !in s.Emitted(phase)
    ensures var l := RecordVote(LedgerAt(s.Ledgers(phase), s.round), c.local, choice).ledger;
            var e := BuildEnvelope(c, s, s.round, Vote(phase, choice), now);
            var s1 := CastState(s, phase, s.round, l);
            Sourced(c, s1, sent + {e}, Prevote) && Sourced(c, s1, sent + {e}, Precommit)
  {
    hide SeenVote, LedgerOk, OwnVote, AllSentOk, VotesOnce, FutureEmpty, SeenOk;
    NoOwnVoteYet(c, s, sent, phase, s.round);
    var l0 := LedgerAt(s.Ledgers(phase), s.round);
    var l := RecordVote(l0, c.local, choice).ledger;
    var e := BuildEnvelope(c, s, s.round, Vote(phase, choice), now);
    var s1 := CastState(s, phase, s.round, l);
    OwnVoteCast(c, s, s1, sent, phase, choice, now);
    forall ph, r, a | r in s1.Ledgers(ph) && a in s1.Ledgers(ph)[r].byAgent
      ensures VoteSourced(c, s1, sent + {e}, ph, r, a, s1.Ledgers(ph)[r].byAgent[a])
    {
      if !(ph == phase && r == s.round && a == c.local) {
        OtherVoteStays(c, s, s1, sent, e, ph, r, a, s.Ledgers(ph)[r].byAgent[a]);
      }
    }
  }

  lemma CastKeepsInv(c: Config, s: NodeState, sent: set<Envelope>, phase: Phase, choice: Choice, now: int)
    requires c.Valid() && Inv(c, s, sent) && s.round !in s.Emitted(phase)
    ensures var vote := RecordVote(LedgerAt(s.Ledgers(phase), s.round), c.local, choice);
            var e := BuildEnvelope(c, s, s.round, Vote(phase, choice), now);
            vote.count.Ok? && Inv(c, CastState(s, phase, s.round, vote.ledger), sent + {e})
  {
    hide SeenVote, LedgerOk, OwnVote, Sourced;
    CastSourced(c, s, sent, phase, choice, now);
    NoOwnVoteYet(c, s, sent, phase, s.round);
    var l0 := LedgerAt(s.Ledgers(phase), s.round);
    assert LedgerOk(c, l0) by { EmptyLedgerOk(c); }
    RecordVoteOk(c, l0, c.local, choice);
    var e := BuildEnvelope(c, s, s.round, Vote(phase, choice), now);
    assert forall e2 | e2 in sent && IsVote(e2, s.height, s.round, phase) :: SentOk(c, s, e2);
  }

  lemma EmptyLedgerOk(c: Config)
    ensures LedgerOk(c, NO_VOTES)
  {
  }

  /** Progress made before a successful step joins what that step reports. */
  lemma AfterKeepsInv(c: Config, s: NodeState, s1: NodeState, sent: set<Envelope>, earlier: Progress, o: Outcome)
    requires o.result.Ok? && KeepsInv(c, s1, sent + SetOf(earlier.outbound), o)
    requires s1.seen == s.seen && s1.previous == s.previous && earlier.commits == []
    ensures KeepsInv(c, s, sent, o.After(earlier)) && o.After(earlier).result.Ok?
  {
    hide Inv, Certified;
    var outs := earlier.outbound + o.Outbound();
    assert SetOf(outs) == SetOf(earlier.outbound) + SetOf(o.Outbound());
    assert sent + SetOf(outs) == sent + SetOf(earlier.outbound) + SetOf(o.Outbound());
  }

  /** Reporting nothing but `p` in a state that satisfies the invariant. */
  lemma QuietKeepsInv(c: Config, s: NodeState, s1: NodeState, sent: set<Envelope>, p: Progress)
    requires Inv(c, s1, sent + SetOf(p.outbound)) && s1.seen == s.seen && p.commits == []
    ensures KeepsInv(c, s, sent, Outcome(s1, Ok(p)))
  {
    hide Inv;
  }

  lemma EmitPrecommitKeepsInv(c: Config, s: NodeState, sent: set<Envelope>, choice: Choice, now: int)
    requires c.Valid() && Inv(c, s, sent)
    ensures var o := EmitPrecommit(c, s, s.round, choice, now); KeepsInv(c, s, sent, o) && o.result.Ok?
  {
    hide Inv, RecordVote, Commit;
    assert sent + SetOf([]) == sent;
    if s.round !in s.emittedPrecommits {
      CastKeepsInv(c, s, sent, Precommit, choice, now);
      var vote := RecordVote(LedgerAt(s.precommits, s.round), c.local, choice);
      var s1 := CastState(s, Precommit, s.round, vote.ledger);
      var e := BuildEnvelope(c, s, s.round, Vote(Precommit, choice), now);
      assert SetOf([e]) == {e};
      CommitIsOk(c, s1, s.round, choice, now);
      CommitKeepsInv(c, s1, sent + {e}, s.round, choice, now);
      AfterKeepsInv(c, s, s1, sent, Sending(e), Commit(c, s1, s.round, choice, now));
      QuietKeepsInv(c, s, s1, sent, Sending(e));
    } else {
      QuietKeepsInv(c, s, s, sent, NO_PROGRESS);
    }
  }

  lemma CommitIsOk(c: Config, s: NodeState, round: nat, choice: Choice, now: int)
    ensures Commit(c, s, round, choice, now).result.Ok?
  {
  }

  lemma EmitPrevoteKeepsInv(c: Config, s: NodeState, sent: set<Envelope>, choice: Choice, now: int)
    requires c.Valid() && Inv(c, s, sent)
    ensures var o := EmitPrevote(c, s, s.round, choice, now); KeepsInv(c, s, sent, o) && o.result.Ok?
  {
    hide Inv, RecordVote, EmitPrecommit;
    assert sent + SetOf([]) == sent;
    if s.round !in s.emittedPrevotes {
      CastKeepsInv(c, s, sent, Prevote, choice, now);
      var vote := RecordVote(LedgerAt(s.prevotes, s.round), c.local, choice);
      var s1 := CastState(s, Prevote, s.round, vote.ledger);
      var e := BuildEnvelope(c, s, s.round, Vote(Prevote, choice), now);
      assert SetOf([e]) == {e};
      EmitPrecommitKeepsInv(c, s1, sent + {e}, choice, now);
      AfterKeepsInv(c, s, s1, sent, Sending(e), EmitPrecommit(c, s1, s.round, choice, now));
      QuietKeepsInv(c, s, s1, sent, Sending(e));
    } else {
      QuietKeepsInv(c, s, s, sent, NO_PROGRESS);
    }
  }

  // -------------------------------------------------------------------------
  // Proposals and rounds

  /** Recording a proposal does not touch votes. */
  lemma RecordProposalKeepsInv(
    c: Config, s: NodeState, sent: set<Envelope>, from: AgentId, proposal: Proposal)
    requires c.Valid() && Inv(c, s, sent)
    ensures Inv(c, RecordProposal(c, s, from, s.round, proposal).state, sent)
  {
    hide LedgerOk, VoteSourced, SentOk;
    var s1 := RecordProposal(c, s, from, s.round, proposal).state;
    SameVotesKeepInv(c, s, s1, sent);
  }

  /** The invariant looks only at height, previous hash, ledgers, emitted votes and seen messages, and
      at proposals and the round through `FutureEmpty`. */
  lemma SameVotesKeepInv(c: Config, s: NodeState, s1: NodeState, sent: set<Envelope>)
    requires Inv(c, s, sent) && FutureEmpty(s1)
    requires s1.height == s.height && s1.previous == s.previous && s1.seen == s.seen
    requires s1.prevotes == s.prevotes && s1.precommits == s.precommits
    requires s1.emittedPrevotes == s.emittedPrevotes && s1.emittedPrecommits == s.emittedPrecommits
    ensures Inv(c, s1, sent)
  {
    forall e | e in sent ensures SentOk(c, s1, e) { assert SentOk(c, s, e); }
    forall ph, r, a | r in s1.Ledgers(ph) && a in s1.Ledgers(ph)[r].byAgent
      ensures VoteSourced(c, s1, sent, ph, r, a, s1.Ledgers(ph)[r].byAgent[a])
    {
      assert VoteSourced(c, s, sent, ph, r, a, s.Ledgers(ph)[r].byAgent[a]);
    }
  }

  /** Sending a proposal adds no vote. */
  lemma SendProposalKeepsInv(c: Config, s: NodeState, sent: set<Envelope>, proposal: Proposal, now: int)
    requires Inv(c, s, sent)
    ensures Inv(c, s, sent + {BuildEnvelope(c, s, s.round, Propose(proposal), now)})
  {
    hide LedgerOk, SeenVote;
    var e := BuildEnvelope(c, s, s.round, Propose(proposal), now);
    forall ph, r, a | r in s.Ledgers(ph) && a in s.Ledgers(ph)[r].byAgent
      ensures VoteSourced(c, s, sent + {e}, ph, r, a, s.Ledgers(ph)[r].byAgent[a])
    {
      OtherVoteStays(c, s, s, sent, e, ph, r, a, s.Ledgers(ph)[r].byAgent[a]);
    }
  }

  lemma EmitProposalKeepsInv(c: Config, s: NodeState, sent: set<Envelope>, now: int)
    requires c.Valid() && Inv(c, s, sent)
    ensures var o := EmitProposalIfLeader(c, s, now); KeepsInv(c, s, sent, o) && o.result.Ok?
  {
    hide Inv, EmitPrevote;
    assert sent + SetOf([]) == sent;
    QuietKeepsInv(c, s, s, sent, NO_PROGRESS);
    if s.pending.Some? && c.ProposerFor(s.previous, s.round) == c.local && s.round !in s.proposals {
      var p := s.pending.value;
      var s1 := RecordProposal(c, s, c.local, s.round, p).state;
      RecordProposalKeepsInv(c, s, sent, c.local, p);
      SendProposalKeepsInv(c, s1, sent, p, now);
      var e := BuildEnvelope(c, s1, s.round, Propose(p), now);
      assert SetOf([e]) == {e};
      EmitPrevoteKeepsInv(c, s1, sent + {e}, Some(p.id), now);
      AfterKeepsInv(c, s, s1, sent, Sending(e), EmitPrevote(c, s1, s.round, Some(p.id), now));
    }
  }

  /** Envelopes without a precommit may be thrown away. */
  lemma DiscardKeepsInv(c: Config, s: NodeState, sent: set<Envelope>, dropped: seq<Envelope>)
    requires Inv(c, s, sent + SetOf(dropped)) && NoPrecommits(dropped)
    ensures Inv(c, s, sent)
  {
    hide LedgerOk, SeenVote;
    forall ph, r, a | r in s.Ledgers(ph) && a in s.Ledgers(ph)[r].byAgent
      ensures VoteSourced(c, s, sent, ph, r, a, s.Ledgers(ph)[r].byAgent[a])
    {
      assert VoteSourced(c, s, sent + SetOf(dropped), ph, r, a, s.Ledgers(ph)[r].byAgent[a]);
    }
  }

  lemma AdvanceKeepsInv(c: Config, s: NodeState, sent: set<Envelope>, target: nat, now: int)
    requires c.Valid() && c.committee.maxFaulty >= 1 && Inv(c, s, sent) && target > s.round
    ensures var o := AdvanceRound(c, s, target, now);
            KeepsInv(c, s, sent, o) && o.result.Ok? && Inv(c, o.state, sent)
  {
    hide EmitProposalIfLeader;
    var s0 := s.(round := target, step := AtPropose, roundStartedAt := now);
    assert Inv(c, s0, sent) && FutureEmpty(s) by { SameVotesKeepInv(c, s, s0, sent); }
    hide Inv;
    EmitProposalKeepsInv(c, s0, sent, now);
    assert sent + SetOf([]) == sent;
    AfterKeepsInv(c, s, s0, sent, NO_PROGRESS.(roundAdvanced := true), EmitProposalIfLeader(c, s0, now));
    AdvanceCommitsExactly(c, s, target, now);
    DiscardKeepsInv(c, AdvanceRound(c, s, target, now).state, sent, AdvanceRound(c, s, target, now).Outbound());
  }

  // -------------------------------------------------------------------------
  // Votes of other members

  /** The state in which a member's vote has been recorded. */
  function ObservedState(s: NodeState, phase: Phase, round: nat, l: Ledger): NodeState {
    if phase == Prevote then s.(prevotes := s.prevotes[round := l]) else s.(precommits := s.precommits[round := l])
  }

  /** A delivered message is backed: kept in `seen` if from a peer, sent earlier if from the node itself. */
  ghost predicate Backed(c: Config, s: NodeState, sent: set<Envelope>, m: Message) {
    if m.from == c.local then exists e :: e in sent && e.message == m
    else KeyOf(m) in s.seen && c.crypto.verifies(s.seen[KeyOf(m)]) && s.seen[KeyOf(m)].envelope.message == m
  }

  lemma BackedVoteSourced(c: Config, s: NodeState, sent: set<Envelope>, m: Message)
    requires Inv(c, s, sent) && Backed(c, s, sent, m) && m.body.Vote?
    requires m.height == s.height && m.previous == s.previous
    ensures VoteSourced(c, s, sent, m.body.phase, m.round, m.from, m.body.choice)
    ensures var l := LedgerAt(s.Ledgers(m.body.phase), m.round);
            m.from in l.byAgent ==> l.byAgent[m.from] == m.body.choice
  {
    hide LedgerOk;
    var phase := m.body.phase;
    var l := LedgerAt(s.Ledgers(phase), m.round);
    assert m.from in l.byAgent ==> VoteSourced(c, s, sent, phase, m.round, m.from, l.byAgent[m.from]);
    if m.from == c.local {
      var e :| e in sent && e.message == m;
      assert SentOk(c, s, e) && IsVote(e, s.height, m.round, phase);
    }
  }

  lemma ObservedSourced(c: Config, s: NodeState, sent: set<Envelope>, m: Message, ph: Phase)
    requires Inv(c, s, sent) && m.body.Vote?
    requires VoteSourced(c, s, sent, m.body.phase, m.round, m.from, m.body.choice)
    requires var l := LedgerAt(s.Ledgers(m.body.phase), m.round);
             m.from in l.byAgent ==> l.byAgent[m.from] == m.body.choice
    ensures var l := RecordVote(LedgerAt(s.Ledgers(m.body.phase), m.round), m.from, m.body.choice).ledger;
            Sourced(c, ObservedState(s, m.body.phase, m.round, l), sent, ph)
  {
    hide LedgersOk, VoteSourced, VotesOnce, AllSentOk, FutureEmpty, SeenOk;
    var l := RecordVote(LedgerAt(s.Ledgers(m.body.phase), m.round), m.from, m.body.choice).ledger;
    var s1 := ObservedState(s, m.body.phase, m.round, l);
    forall r, a | r in s1.Ledgers(ph) && a in s1.Ledgers(ph)[r].byAgent
      ensures VoteSourced(c, s1, sent, ph, r, a, s1.Ledgers(ph)[r].byAgent[a])
    {
      if ph == m.body.phase && r == m.round && a == m.from {
        assert s1.Ledgers(ph)[r].byAgent[a] == m.body.choice;
      } else {
        assert s1.Ledgers(ph)[r].byAgent[a] == s.Ledgers(ph)[r].byAgent[a];
      }
      SameSource(c, s, s1, sent, ph, r, a, s1.Ledgers(ph)[r].byAgent[a]);
    }
  }

  lemma VoteObserved(c: Config, s: NodeState, sent: set<Envelope>, m: Message)
    requires Inv(c, s, sent) && Backed(c, s, sent, m) && m.body.Vote? && m.from in c.committee.members
    requires m.height == s.height && m.previous == s.previous && m.round == s.round
    ensures var vote := RecordVote(LedgerAt(s.Ledgers(m.body.phase), m.round), m.from, m.body.choice);
            vote.count.Ok? && Inv(c, ObservedState(s, m.body.phase, m.round, vote.ledger), sent)
  {
    hide LedgerOk, Sourced, RecordVote, VotesOnce, AllSentOk, FutureEmpty;
    BackedVoteSourced(c, s, sent, m);
    ObservedSourced(c, s, sent, m, Prevote);
    ObservedSourced(c, s, sent, m, Precommit);
    var l0 := LedgerAt(s.Ledgers(m.body.phase), m.round);
    assert LedgerOk(c, l0) by { EmptyLedgerOk(c); }
    RecordVoteOk(c, l0, m.from, m.body.choice);
    var l := RecordVote(l0, m.from, m.body.choice).ledger;
    var s1 := ObservedState(s, m.body.phase, m.round, l);
    ObservedRest(c, s, sent, m.body.phase, m.round, l);
  }

  lemma ObservedRest(c: Config, s: NodeState, sent: set<Envelope>, phase: Phase, round: nat, l: Ledger)
    requires FutureEmpty(s) && round == s.round && AllSentOk(c, s, sent) && LedgerOk(c, l)
    requires LedgersOk(c, s.prevotes) && LedgersOk(c, s.precommits)
    ensures var s1 := ObservedState(s, phase, round, l);
            && FutureEmpty(s1) && AllSentOk(c, s1, sent) && s1.seen == s.seen
            && LedgersOk(c, s1.prevotes) && LedgersOk(c, s1.precommits)
  {
    hide LedgerOk;
    var s1 := ObservedState(s, phase, round, l);
    forall e | e in sent ensures SentOk(c, s1, e) { assert SentOk(c, s, e); }
  }

  lemma SameSource(
    c: Config, s: NodeState, s1: NodeState, sent: set<Envelope>,
    phase: Phase, round: nat, voter: AgentId, choice: Choice)
    requires VoteSourced(c, s, sent, phase, round, voter, choice)
    requires s1.height == s.height && s1.previous == s.previous && s1.seen == s.seen
    requires s1.emittedPrevotes == s.emittedPrevotes && s1.emittedPrecommits == s.emittedPrecommits
    ensures VoteSourced(c, s1, sent, phase, round, voter, choice)
  {
  }

  lemma ObserveProposalKeepsInv(
    c: Config, s: NodeState, sent: set<Envelope>, from: AgentId, proposal: Proposal, now: int)
    requires c.Valid() && Inv(c, s, sent)
    ensures KeepsInv(c, s, sent, ObserveProposal(c, s, from, s.round, proposal, now))
  {
    hide Inv, EmitPrevote;
    assert sent + SetOf([]) == sent;
    var s1 := RecordProposal(c, s, from, s.round, proposal).state;
    RecordProposalKeepsInv(c, s, sent, from, proposal);
    QuietKeepsInv(c, s, s1, sent, NO_PROGRESS);
    EmitPrevoteKeepsInv(c, s1, sent, Some(proposal.id), now);
  }

  lemma ObserveVoteKeepsInv(c: Config, s: NodeState, sent: set<Envelope>, m: Message, now: int)
    requires c.Valid() && Inv(c, s, sent) && Backed(c, s, sent, m) && m.from in c.committee.members
    requires m.height == s.height && m.previous == s.previous && m.round == s.round && m.body.Vote?
    ensures KeepsInv(c, s, sent, ObserveBody(c, s, m, now))
  {
    hide Inv, Backed, RecordVote, EmitPrecommit, Commit, ObserveProposal;
    assert sent + SetOf([]) == sent;
    VoteObserved(c, s, sent, m);
    var vote := RecordVote(LedgerAt(s.Ledgers(m.body.phase), m.round), m.from, m.body.choice);
    var s1 := ObservedState(s, m.body.phase, m.round, vote.ledger);
    QuietKeepsInv(c, s, s1, sent, NO_PROGRESS);
    match m.body.phase
    case Prevote => EmitPrecommitKeepsInv(c, s1, sent, m.body.choice, now);
    case Precommit => CommitKeepsInv(c, s1, sent, m.round, m.body.choice, now);
  }

  lemma ObserveBodyKeepsInv(c: Config, s: NodeState, sent: set<Envelope>, m: Message, now: int)
    requires c.Valid() && Inv(c, s, sent) && Backed(c, s, sent, m) && m.from in c.committee.members
    requires m.height == s.height && m.previous == s.previous && m.round == s.round
    ensures KeepsInv(c, s, sent, ObserveBody(c, s, m, now))
  {
    hide Inv, Backed, KeepsInv, ObserveProposal, ObservePrevote, ObservePrecommit;
    match m.body
    case Propose(proposal) => ObserveProposalKeepsInv(c, s, sent, m.from, proposal, now);
    case Vote(_, _) => ObserveVoteKeepsInv(c, s, sent, m, now);
  }

  lemma ObserveKeepsInv(c: Config, s: NodeState, sent: set<Envelope>, m: Message, now: int)
    requires c.Valid() && c.committee.maxFaulty >= 1 && Inv(c, s, sent) && Backed(c, s, sent, m)
    ensures KeepsInv(c, s, sent, ObserveMessage(c, s, m, now))
  {
    hide Inv, Certified, AdvanceRound, ObserveBody;
    assert sent + SetOf([]) == sent;
    if m.from in c.committee.members && m.height == s.height && m.previous == s.previous && m.round >= s.round {
      var s1 := AdvanceRound(c, s, m.round, now).state;
      CaughtUp(c, s, sent, m.round, now);
      ObserveBodyKeepsInv(c, s1, sent, m, now);
    }
  }

  /** The catch-up reaches the round without changing height, and its envelopes can be dropped. */
  lemma CaughtUp(c: Config, s: NodeState, sent: set<Envelope>, target: nat, now: int)
    requires c.Valid() && c.committee.maxFaulty >= 1 && Inv(c, s, sent) && target >= s.round
    ensures var o := AdvanceRound(c, s, target, now);
            && o.result.Ok? && Inv(c, o.state, sent) && o.state.seen == s.seen
            && o.state.height == s.height && o.state.previous == s.previous && o.state.round == target
  {
    hide EmitProposalIfLeader;
    if target > s.round {
      AdvanceKeepsInv(c, s, sent, target, now);
      AdvanceCommitsExactly(c, s, target, now);
    }
  }

  // -------------------------------------------------------------------------
  // Signed envelopes

  lemma SeenInsertKeepsInv(c: Config, s: NodeState, sent: set<Envelope>, e: SignedEnvelope)
    requires Inv(c, s, sent) && KeyOf(e.envelope.message) !in s.seen && c.crypto.verifies(e)
    ensures Inv(c, s.(seen := s.seen[KeyOf(e.envelope.message) := e]), sent)
  {
    hide LedgerOk;
    var s1 := s.(seen := s.seen[KeyOf(e.envelope.message) := e]);
    forall e1 | e1 in sent ensures SentOk(c, s1, e1) { assert SentOk(c, s, e1); }
    forall ph, r, a | r in s1.Ledgers(ph) && a in s1.Ledgers(ph)[r].byAgent
      ensures VoteSourced(c, s1, sent, ph, r, a, s1.Ledgers(ph)[r].byAgent[a])
    {
      assert VoteSourced(c, s, sent, ph, r, a, s.Ledgers(ph)[r].byAgent[a]);
    }
  }

  lemma DroppedLedgers(c: Config, ledgers: map<nat, Ledger>, round: nat, agent: AgentId)
    requires LedgersOk(c, ledgers)
    ensures var after := WithoutVoter(ledgers, round, agent);
            && LedgersOk(c, after) && after.Keys == ledgers.Keys
            && (forall r | r in after ::
                  after[r].byAgent == if r == round then ledgers[r].byAgent - {agent} else ledgers[r].byAgent)
  {
    hide LedgerOk, RemoveVoter;
    if round in ledgers { RemoveVoterOk(c, ledgers[round], agent); }
  }

  /** A remaining vote keeps its source: only envelopes of the dropped member are forgotten. */
  lemma DroppedSourced(
    c: Config, s: NodeState, s1: NodeState, sent: set<Envelope>, phase: Phase, round: nat, agent: AgentId)
    requires Inv(c, s, sent)
    requires s1.height == s.height && s1.previous == s.previous
    requires s1.emittedPrevotes == s.emittedPrevotes && s1.emittedPrecommits == s.emittedPrecommits
    requires s1.Ledgers(phase) == WithoutVoter(s.Ledgers(phase), round, agent)
    requires forall key | key in s.seen && !(key.height == s.height && key.round == round && key.from == agent) ::
               key in s1.seen && s1.seen[key] == s.seen[key]
    ensures Sourced(c, s1, sent, phase)
  {
    hide LedgerOk, WithoutVoter;
    DroppedLedgers(c, s.Ledgers(phase), round, agent);
    forall r, a | r in s1.Ledgers(phase) && a in s1.Ledgers(phase)[r].byAgent
      ensures VoteSourced(c, s1, sent, phase, r, a, s1.Ledgers(phase)[r].byAgent[a])
    {
      assert VoteSourced(c, s, sent, phase, r, a, s.Ledgers(phase)[r].byAgent[a]);
    }
  }

  lemma ExcludeKeepsInv(
    c: Config, s: NodeState, sent: set<Envelope>, key: MessageKey,
    reason: ExclusionReason, evidence: seq<Hash>, now: int)
    requires c.Valid() && Inv(c, s, sent)
    ensures var o := ExcludeSender(c, s, key, reason, evidence, now);
            && o.result.Ok? && o.Commits() == [] && o.Outbound() == [] && Inv(c, o.state, sent)
            && (forall k | k in o.state.seen :: k in s.seen && o.state.seen[k] == s.seen[k])
  {
    hide LedgerOk, WithoutVoter, VoteSourced;
    var s1 := ExcludeSender(c, s, key, reason, evidence, now).state;
    DroppedSourced(c, s, s1, sent, Prevote, key.round, key.from);
    DroppedSourced(c, s, s1, sent, Precommit, key.round, key.from);
    DroppedLedgers(c, s.prevotes, key.round, key.from);
    DroppedLedgers(c, s.precommits, key.round, key.from);
    ExcludeKeeps(c, s, key, reason, evidence, now);
    hide Sourced, FutureEmpty, LedgersOk;
    forall e | e in sent ensures SentOk(c, s1, e) { SameSent(c, s, s1, e); }
  }

  lemma SameSent(c: Config, s: NodeState, s1: NodeState, e: Envelope)
    requires SentOk(c, s, e)
    requires s1.height == s.height && s1.previous == s.previous
    requires s1.emittedPrevotes == s.emittedPrevotes && s1.emittedPrecommits == s.emittedPrecommits
    ensures SentOk(c, s1, e)
  {
  }

  /** Signatures cannot be forged: a verified envelope in the node's own name is one it sent. */
  ghost predicate Admissible(c: Config, sent: set<Envelope>, ev: Event) {
    && !ev.DeliverUnsigned?
    && (ev.Deliver? && c.crypto.verifies(ev.signed) && ev.signed.envelope.message.from == c.local
        ==> ev.signed.envelope in sent)
  }

  /** A step keeps in `seen` only what was there and the verified envelope it was handed. */
  ghost predicate SeenFrom(
    c: Config, before: map<MessageKey, SignedEnvelope>, ev: Event, after: map<MessageKey, SignedEnvelope>) {
    forall key | key in after ::
      || (key in before && after[key] == before[key])
      || (ev.Deliver? && after[key] == ev.signed && c.crypto.verifies(ev.signed))
  }

  lemma HandleSignedKeepsInv(c: Config, s: NodeState, sent: set<Envelope>, e: SignedEnvelope, now: int)
    requires c.Valid() && c.committee.maxFaulty >= 1 && Inv(c, s, sent) && Admissible(c, sent, Deliver(e, now))
    ensures var o := HandleSigned(c, s, e, now);
            && o.result != Err(ConflictingVote) && Inv(c, o.state, sent + SetOf(o.Outbound()))
            && SeenFrom(c, s.seen, Deliver(e, now), o.state.seen)
            && (forall commit | commit in o.Commits() ::
                  Certified(c, o.state.seen, sent + SetOf(o.Outbound()), s.previous, commit))
  {
    hide Inv, Certified, ObserveMessage, ExcludeSender;
    assert sent + SetOf([]) == sent;
    var key := KeyOf(e.envelope.message);
    if !s.IsExcluded(key.height, key.round, key.from) {
      if key in s.seen {
        if s.seen[key] != e {
          ExcludeKeepsInv(c, s, sent, key, Equivocation,
                          [c.crypto.messageHash(s.seen[key]), c.crypto.messageHash(e)], now);
        }
      } else if !c.crypto.verifies(e) {
        ExcludeKeepsInv(c, s, sent, key, InvalidSignature, [c.crypto.messageHash(e)], now);
      } else {
        SeenInsertKeepsInv(c, s, sent, e);
        ObserveKeepsInv(c, s.(seen := s.seen[key := e]), sent, e.envelope.message, now);
      }
    }
  }

  /** One admissible step of an honest node: votes never conflict, the invariant is kept and every commit
      it reports is certified by two quorums. */
  lemma NextKeepsInv(c: Config, s: NodeState, sent: set<Envelope>, ev: Event)
    requires c.Valid() && c.committee.maxFaulty >= 1 && Inv(c, s, sent) && Admissible(c, sent, ev)
    ensures var o := Next(c, s, ev);
            && o.result != Err(ConflictingVote) && Inv(c, o.state, sent + SetOf(o.Outbound()))
            && SeenFrom(c, s.seen, ev, o.state.seen)
            && (forall commit | commit in o.Commits() ::
                  Certified(c, o.state.seen, sent + SetOf(o.Outbound()), s.previous, commit))
  {
    hide Certified, HandleSigned, AdvanceRound, EmitProposalIfLeader;
    assert sent + SetOf([]) == sent;
    match ev
    case Deliver(e, now) => HandleSignedKeepsInv(c, s, sent, e, now);
    case Queue(proposal, now) =>
      var s1 := s.(pending := Some(proposal));
      SameVotesKeepInv(c, s, s1, sent);
      EmitProposalKeepsInv(c, s1, sent, now);
    case Timer(now) => AdvanceKeepsInv(c, s, sent, s.round + 1, now);
  }

  lemma InitialInv(c: Config, previous: Hash, startedAt: int)
    ensures Inv(c, InitialState(previous, startedAt), {})
  {
  }

  // -------------------------------------------------------------------------
  // Redelivery

  lemma ObserveKeepsSeen(c: Config, s: NodeState, m: Message, now: int)
    requires c.Valid()
    ensures ObserveMessage(c, s, m, now).state.seen == s.seen
    ensures ObserveMessage(c, s, m, now).state.excluded == s.excluded
  {
    hide ObserveBody, EmitProposalIfLeader;
    EmitProposalKeeps(c, s.(round := m.round, step := AtPropose, roundStartedAt := now), now);
    ObserveBodyKeeps(c, AdvanceRound(c, s, m.round, now).state, m, now);
  }

  /** Delivering the same envelope again, at any later time, changes nothing and reports nothing: in any
      state, whether it was accepted, rejected with an error, or led to an exclusion. */
  lemma RedeliveryIsIdle(c: Config, s: NodeState, e: SignedEnvelope, now: int, later: int)
    requires c.Valid()
    ensures var once := HandleSigned(c, s, e, now).state; HandleSigned(c, once, e, later) == Idle(once)
  {
    hide HandleEnvelope, ExcludeSender;
    var key := KeyOf(e.envelope.message);
    if key in s.seen {
      ExcludeMarks(c, s, key, Equivocation, [c.crypto.messageHash(s.seen[key]), c.crypto.messageHash(e)], now);
    }
    ExcludeMarks(c, s, key, InvalidSignature, [c.crypto.messageHash(e)], now);
    var s1 := s.(seen := s.seen[key := e]);
    EnvelopeKeepsSeen(c, s1, e.envelope, now);
  }

  lemma EnvelopeKeepsSeen(c: Config, s: NodeState, e: Envelope, now: int)
    requires c.Valid()
    ensures HandleEnvelope(c, s, e, now).state.seen == s.seen
    ensures HandleEnvelope(c, s, e, now).state.excluded == s.excluded
  {
    hide ObserveMessage;
    ObserveKeepsSeen(c, s, e.message, now);
  }

  lemma ExcludeMarks(
    c: Config, s: NodeState, key: MessageKey, reason: ExclusionReason, evidence: seq<Hash>, now: int)
    requires c.Valid()
    ensures ExcludeSender(c, s, key, reason, evidence, now).state.IsExcluded(key.height, key.round, key.from)
  {
    hide WithoutVoter;
  }

  // -------------------------------------------------------------------------
  // Exclusion

  /** The call hands over an envelope in the name of `a` for that height and round that differs from the one kept
      for its kind or, if none is kept, does not verify. */
  predicate Convicts(c: Config, s: NodeState, ev: Event, height: nat, round: nat, a: AgentId) {
    ev.Deliver? &&
    var key := KeyOf(ev.signed.envelope.message);
    && key.height == height && key.round == round && key.from == a
    && (if key in s.seen then s.seen[key] != ev.signed else !c.crypto.verifies(ev.signed))
  }

  lemma ExcludeAdds(
    c: Config, s: NodeState, key: MessageKey, reason: ExclusionReason, evidence: seq<Hash>, now: int,
    height: nat, round: nat, a: AgentId)
    requires c.Valid()
    ensures ExcludeSender(c, s, key, reason, evidence, now).state.IsExcluded(height, round, a)
            <==> s.IsExcluded(height, round, a) || (key.height == height && key.round == round && key.from == a)
  {
    hide WithoutVoter;
  }

  lemma NextExcludes(c: Config, s: NodeState, ev: Event, height: nat, round: nat, a: AgentId)
    requires c.Valid()
    ensures Next(c, s, ev).state.IsExcluded(height, round, a)
            <==> s.IsExcluded(height, round, a) || Convicts(c, s, ev, height, round, a)
  {
    hide HandleEnvelope, ExcludeSender, EmitProposalIfLeader;
    match ev
    case Deliver(e, now) =>
      var key := KeyOf(e.envelope.message);
      if key in s.seen {
        ExcludeAdds(c, s, key, Equivocation, [c.crypto.messageHash(s.seen[key]), c.crypto.messageHash(e)], now, height,
                    round, a);
      }
      ExcludeAdds(c, s, key, InvalidSignature, [c.crypto.messageHash(e)], now, height, round, a);
      EnvelopeKeepsSeen(c, s.(seen := s.seen[key := e]), e.envelope, now);
    case DeliverUnsigned(e, now) => EnvelopeKeepsSeen(c, s, e, now);
    case Queue(proposal, now) => EmitProposalKeeps(c, s.(pending := Some(proposal)), now);
    case Timer(now) => EmitProposalKeeps(c, s.(round := s.round + 1, step := AtPropose, roundStartedAt := now), now);
  }

  /** Some call of the run convicted `a`. */
  ghost predicate Convicted(c: Config, s0: NodeState, events: seq<Event>, height: nat, round: nat, a: AgentId)
    requires c.Valid()
  {
    exists i | 0 <= i < |events| :: Convicts(c, Run(c, s0, events[..i]).state, events[i], height, round, a)
  }

  lemma ConvictedStep(c: Config, s0: NodeState, events: seq<Event>, height: nat, round: nat, a: AgentId)
    requires c.Valid() && events != []
    ensures var n := |events| - 1;
            Convicted(c, s0, events, height, round, a) <==>
              || Convicted(c, s0, events[..n], height, round, a)
              || Convicts(c, Run(c, s0, events[..n]).state, events[n], height, round, a)
  {
    hide Run, Convicts;
    var n := |events| - 1;
    var front := events[..n];
    assert forall i | 0 <= i < n :: front[..i] == events[..i] && front[i] == events[i];
  }

  /** A member is excluded from a height and round, over every run, if and only if some call convicted it.  Nothing
      asks who made the envelope: one that does not verify convicts the member it names. */
  lemma {:induction false} ExcludedExactly(
    c: Config, previous: Hash, startedAt: int, events: seq<Event>, height: nat, round: nat, a: AgentId)
    requires c.Valid()
    ensures var s0 := InitialState(previous, startedAt);
            Run(c, s0, events).state.IsExcluded(height, round, a) <==> Convicted(c, s0, events, height, round, a)
  {
    hide Next, Convicts;
    var s0 := InitialState(previous, startedAt);
    if events != [] {
      hide Convicted;
      var n := |events| - 1;
      ConvictedStep(c, s0, events, height, round, a);
      ExcludedExactly(c, previous, startedAt, events[..n], height, round, a);
      NextExcludes(c, Run(c, s0, events[..n]).state, events[n], height, round, a);
    }
  }

  /** Anyone can have any member excluded: an envelope that does not verify excludes the member it names, even the
      node itself, and that member's genuine messages of the round are ignored from then on. */
  lemma ForgeryExcludes(c: Config, previous: Hash, startedAt: int, forged: SignedEnvelope, now: int)
    requires c.Valid() && !c.crypto.verifies(forged)
    ensures var m := forged.envelope.message;
            var s := Run(c, InitialState(previous, startedAt), [Deliver(forged, now)]).state;
            && s.IsExcluded(m.height, m.round, m.from)
            && forall e: SignedEnvelope, later: int |
                 e.envelope.message.height == m.height && e.envelope.message.round == m.round
                 && e.envelope.message.from == m.from ::
                 HandleSigned(c, s, e, later) == Idle(s)
  {
    hide Next, Run;
    var m, events := forged.envelope.message, [Deliver(forged, now)];
    assert events[..0] == [];
    assert Run(c, InitialState(previous, startedAt), []).state.seen == map[] by { NothingSeen(c, previous, startedAt); }
    assert Convicts(c, Run(c, InitialState(previous, startedAt), events[..0]).state, events[0], m.height, m.round,
                    m.from);
    ExcludedExactly(c, previous, startedAt, events, m.height, m.round, m.from);
    hide HandleEnvelope, ExcludeSender;
  }

  lemma NothingSeen(c: Config, previous: Hash, startedAt: int)
    requires c.Valid()
    ensures Run(c, InitialState(previous, startedAt), []).state.seen == map[]
  {
  }
}
