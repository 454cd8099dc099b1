/**
 The steps of one node inside a round of height 1: hearing a proposal, prevotes and precommits, and taking
 the lead after a timeout.  None of them depends on what the node precommitted in an earlier round.
 */
module RoundSteps {
  import opened Wrappers
  import opened ConsensusModel
  import opened CommitChain

  /** The ledger in which exactly `voters` voted, all for `choice`. */
  function Unanimous(voters: set<AgentId>, choice: Choice): Ledger {
    Ledger(map a | a in voters :: choice, map[choice := voters])
  }

  lemma UnanimousVote(voters: set<AgentId>, a: AgentId, choice: Choice)
    ensures RecordVote(Unanimous(voters, choice), a, choice)
            == Recorded(Unanimous(voters + {a}, choice), Ok(|voters + {a}|))
  {
    var l := Unanimous(voters, choice);
    if a in voters {
      assert voters + {a} == voters;
    } else {
      assert l.byAgent[a := choice] == Unanimous(voters + {a}, choice).byAgent;
    }
  }

  lemma FirstUnanimous(a: AgentId, choice: Choice)
    ensures RecordVote(NO_VOTES, a, choice) == Recorded(Unanimous({a}, choice), Ok(1))
  {
    var l := RecordVote(NO_VOTES, a, choice).ledger;
    assert l.byAgent == Unanimous({a}, choice).byAgent;
    assert l.byValue == Unanimous({a}, choice).byValue;
  }

  /** A fresh, valid message for the node's current round reaches its handler. */
  lemma Accepts(c: Config, s: NodeState, e: SignedEnvelope, now: int)
    requires c.Valid() && c.crypto.verifies(e) && s.excluded == map[]
    requires var m := e.envelope.message;
             && KeyOf(m) !in s.seen && m.from in c.committee.members
             && m.height == s.height && m.previous == s.previous && m.round == s.round
             && e.envelope.subject == c.crypto.roundSubject(m.height, m.round)
    ensures HandleSigned(c, s, e, now)
            == ObserveBody(c, s.(seen := s.seen[KeyOf(e.envelope.message) := e]), e.envelope.message, now)
  {
    hide ObserveBody, ExcludeSender, EmitProposalIfLeader;
  }

  /** A fresh, valid message of an earlier height is only remembered. */
  lemma Outdated(c: Config, s: NodeState, e: SignedEnvelope, now: int)
    requires c.Valid() && c.crypto.verifies(e) && s.excluded == map[]
    requires var m := e.envelope.message;
             && KeyOf(m) !in s.seen && m.from in c.committee.members && m.height < s.height
             && e.envelope.subject == c.crypto.roundSubject(m.height, m.round)
    ensures HandleSigned(c, s, e, now) == Idle(s.(seen := s.seen[KeyOf(e.envelope.message) := e]))
  {
    hide ObserveBody, ExcludeSender, AdvanceRound;
  }

  // -------------------------------------------------------------------------
  // Calls

  lemma NextIsHandle(c: Config, s: NodeState, e: SignedEnvelope, now: int)
    requires c.Valid()
    ensures Next(c, s, Deliver(e, now)) == HandleSigned(c, s, e, now)
  {
    hide HandleSigned;
  }

  lemma NextIsQueue(c: Config, s: NodeState, proposal: Proposal, now: int)
    requires c.Valid()
    ensures Next(c, s, Queue(proposal, now)) == QueueProposal(c, s, proposal, now)
  {
    hide QueueProposal;
  }

  lemma NextIsTick(c: Config, s: NodeState, now: int)
    requires c.Valid()
    ensures Next(c, s, Timer(now)) == Tick(c, s, now)
  {
    hide Tick;
  }

  // -------------------------------------------------------------------------
  // Where a node stands

  function Signed(crypto: Crypto, e: Envelope): SignedEnvelope { SignedEnvelope(e, crypto.sign(e.message.from, e)) }

  /** The signed message of `a` in round `r` of height 1. */
  function Wire(crypto: Crypto, previous: Hash, now: int, a: AgentId, r: nat, body: Body): SignedEnvelope {
    Signed(crypto, Envelope(crypto.roundSubject(1, r), Message(1, r, previous, a, now, body)))
  }

  function Prevoted(p: Proposal): Body { Vote(Prevote, Some(p.id)) }

  function Precommitted(p: Proposal): Body { Vote(Precommit, Some(p.id)) }

  /** A node at height 1 that has excluded nobody and knows nothing of later rounds. */
  ghost predicate Clean(previous: Hash, s: NodeState) {
    && s.height == 1 && s.previous == previous && s.excluded == map[] && FutureEmpty(s)
    && (forall key | key in s.seen :: key.round <= s.round)
  }

  /** Nothing has been recorded or seen for round `r`. */
  ghost predicate Untouched(s: NodeState, r: nat) {
    && r !in s.proposals && r !in s.prevotes && r !in s.precommits
    && r !in s.emittedPrevotes && r !in s.emittedPrecommits
    && forall key | key in s.seen :: key.round != r
  }

  /** The node is in round `r` with proposal `p`, the prevotes of `pv` and the precommits of `pc`. */
  ghost predicate Tally(previous: Hash, s: NodeState, r: nat, p: Proposal, pv: set<AgentId>, pc: set<AgentId>) {
    && Clean(previous, s) && s.round == r && r in s.proposals && s.proposals[r] == p && r in s.emittedPrevotes
    && r in s.prevotes && s.prevotes[r] == Unanimous(pv, Some(p.id))
    && (if pc == {} then r !in s.precommits && r !in s.emittedPrecommits
        else r in s.precommits && s.precommits[r] == Unanimous(pc, Some(p.id)) && r in s.emittedPrecommits)
    && (forall b | b !in pv :: MessageKey(1, r, b, VoteKind(Prevote)) !in s.seen)
    && (forall b | b !in pc :: MessageKey(1, r, b, VoteKind(Precommit)) !in s.seen)
  }

  lemma StartsClean(previous: Hash, startedAt: int, r: nat)
    ensures Clean(previous, InitialState(previous, startedAt)) && Untouched(InitialState(previous, startedAt), r)
  {
  }

  lemma TallyMovesOn(previous: Hash, s: NodeState, r: nat, p: Proposal, pv: set<AgentId>, pc: set<AgentId>)
    requires Tally(previous, s, r, p, pv, pc)
    ensures Clean(previous, s) && Untouched(s, r + 1) && s.round == r && r in s.proposals
  {
  }

  /** What a step leaves alone. */
  ghost predicate SameRest(s: NodeState, t: NodeState) {
    t.pending == s.pending && (t.round == s.round ==> t.roundStartedAt == s.roundStartedAt)
  }

  // -------------------------------------------------------------------------
  // First votes

  lemma PrecommitFirst(c: Config, s: NodeState, r: nat, choice: Choice, now: int)
    requires c.committee.maxFaulty >= 1 && r !in s.precommits && r !in s.emittedPrecommits
    ensures EmitPrecommit(c, s, r, choice, now)
            == Outcome(s.(precommits := s.precommits[r := Unanimous({c.local}, choice)],
                          emittedPrecommits := s.emittedPrecommits + {r}, step := AtPrecommit),
                       Ok(Sending(BuildEnvelope(c, s, r, Vote(Precommit, choice), now))))
  {
    hide Commit;
    FirstUnanimous(c.local, choice);
  }

  lemma PrevoteFirst(c: Config, s: NodeState, r: nat, choice: Choice, now: int)
    requires c.committee.maxFaulty >= 1 && r !in s.prevotes && r !in s.emittedPrevotes
    ensures EmitPrevote(c, s, r, choice, now)
            == Outcome(s.(prevotes := s.prevotes[r := Unanimous({c.local}, choice)],
                          emittedPrevotes := s.emittedPrevotes + {r}, step := AtPrevote),
                       Ok(Sending(BuildEnvelope(c, s, r, Vote(Prevote, choice), now))))
  {
    hide EmitPrecommit;
    FirstUnanimous(c.local, choice);
  }

  // -------------------------------------------------------------------------
  // Votes of others

  /** The prevote that completes a quorum makes the node precommit. */
  lemma HearPrevote(
    c: Config, previous: Hash, now: int, s: NodeState, r: nat, p: Proposal, pv: set<AgentId>, b: AgentId)
    requires c.Valid() && c.committee.maxFaulty >= 1 && b in c.committee.members
    requires c.crypto.verifies(Wire(c.crypto, previous, now, b, r, Prevoted(p)))
    requires Tally(previous, s, r, p, pv, {}) && b !in pv && |pv| < c.committee.Threshold()
    ensures var o := HandleSigned(c, s, Wire(c.crypto, previous, now, b, r, Prevoted(p)), now);
            var full := |pv| + 1 == c.committee.Threshold();
            && o.result.Ok? && o.Commits() == [] && SameRest(s, o.state)
            && Tally(previous, o.state, r, p, pv + {b}, if full then {c.local} else {})
            && o.Outbound()
              == if full then [Wire(c.crypto, previous, now, c.local, r, Precommitted(p)).envelope] else []
  {
    hide HandleSigned, EmitPrecommit, RecordVote, Unanimous, FutureEmpty;
    var choice, e := Some(p.id), Wire(c.crypto, previous, now, b, r, Prevoted(p));
    Accepts(c, s, e, now);
    var s1 := s.(seen := s.seen[KeyOf(e.envelope.message) := e]);
    UnanimousVote(pv, b, choice);
    var s2 := s1.(prevotes := s1.prevotes[r := Unanimous(pv + {b}, choice)]);
    PrecommitFirst(c, s2, r, choice, now);
    StillFuture(s, HandleSigned(c, s, e, now).state);
  }

  lemma CommitsWith(c: Config, s: NodeState, r: nat, p: Proposal, pv: set<AgentId>, pc: set<AgentId>, now: int)
    requires |pv| >= c.committee.Threshold() && |pc| >= c.committee.Threshold()
    requires r in s.proposals && s.proposals[r] == p
    requires r in s.prevotes && s.prevotes[r] == Unanimous(pv, Some(p.id))
    requires r in s.precommits && s.precommits[r] == Unanimous(pc, Some(p.id))
    ensures var o := Commit(c, s, r, Some(p.id), now);
            o.result.Ok? && o.Outbound() == [] && |o.Commits()| == 1 && CommitsAt(s.height, r, p, o.Commits()[0])
  {
  }

  ghost predicate CommitsAt(height: nat, r: nat, p: Proposal, commit: CommitRecord) {
    commit.height == height && commit.round == r && commit.proposal == p
  }

  /** The precommit that completes a quorum makes the node commit. */
  lemma HearPrecommit(
    c: Config, previous: Hash, now: int, s: NodeState, r: nat, p: Proposal, pv: set<AgentId>, pc: set<AgentId>,
    b: AgentId)
    requires c.Valid() && b in c.committee.members
    requires c.crypto.verifies(Wire(c.crypto, previous, now, b, r, Precommitted(p)))
    requires Tally(previous, s, r, p, pv, pc) && |pv| >= c.committee.Threshold()
    requires b !in pc && pc != {} && |pc| < c.committee.Threshold()
    ensures var o := HandleSigned(c, s, Wire(c.crypto, previous, now, b, r, Precommitted(p)), now);
            var full := |pc| + 1 == c.committee.Threshold();
            && o.result.Ok? && o.Outbound() == []
            && (!full ==> o.Commits() == [] && SameRest(s, o.state) && Tally(previous, o.state, r, p, pv, pc + {b}))
            && (full ==> |o.Commits()| == 1 && CommitsAt(1, r, p, o.Commits()[0]))
  {
    hide HandleSigned, Commit, RecordVote, Unanimous, FutureEmpty;
    var choice, e := Some(p.id), Wire(c.crypto, previous, now, b, r, Precommitted(p));
    Accepts(c, s, e, now);
    var s1 := s.(seen := s.seen[KeyOf(e.envelope.message) := e]);
    UnanimousVote(pc, b, choice);
    var s2 := s1.(precommits := s1.precommits[r := Unanimous(pc + {b}, choice)]);
    if |pc| + 1 == c.committee.Threshold() { CommitsWith(c, s2, r, p, pv, pc + {b}, now); }
    else { StillFuture(s, s2); }
  }

  // -------------------------------------------------------------------------
  // Proposals

  /** The leader of the round it is in sends its proposal and prevotes it. */
  lemma Leads(c: Config, previous: Hash, now: int, s: NodeState, p: Proposal)
    requires c.Valid() && c.committee.maxFaulty >= 1 && Clean(previous, s) && Untouched(s, s.round)
    requires c.ProposerFor(previous, s.round) == c.local && s.pending == Some(p)
    ensures var o := EmitProposalIfLeader(c, s, now);
            && o.result.Ok? && o.Commits() == [] && SameRest(s, o.state)
            && Tally(previous, o.state, s.round, p, {c.local}, {})
            && o.Outbound() == [Wire(c.crypto, previous, now, c.local, s.round, Propose(p)).envelope,
                                Wire(c.crypto, previous, now, c.local, s.round, Prevoted(p)).envelope]
  {
    hide EmitPrevote, Unanimous;
    var s1 := s.(proposals := s.proposals[s.round := p]);
    PrevoteFirst(c, s1, s.round, Some(p.id), now);
  }

  /** A timeout makes the next leader propose its own pending proposal, whatever it precommitted before. */
  lemma TimeoutLeads(c: Config, previous: Hash, now: int, s: NodeState, p: Proposal)
    requires c.Valid() && c.committee.maxFaulty >= 1 && Clean(previous, s)
    requires c.ProposerFor(previous, s.round + 1) == c.local && s.pending == Some(p)
    requires s.roundStartedAt + c.roundTimeout <= now
    ensures var o, r := Tick(c, s, now), s.round + 1;
            && o.result.Ok? && o.Commits() == [] && Tally(previous, o.state, r, p, {c.local}, {})
            && o.Outbound() == [Wire(c.crypto, previous, now, c.local, r, Propose(p)).envelope,
                                Wire(c.crypto, previous, now, c.local, r, Prevoted(p)).envelope]
  {
    hide EmitProposalIfLeader, Unanimous, Wire;
    var s1 := s.(round := s.round + 1, step := AtPropose, roundStartedAt := now);
    MovesOn(previous, s, s1);
    Leads(c, previous, now, s1, p);
  }

  lemma MovesOn(previous: Hash, s: NodeState, s1: NodeState)
    requires Clean(previous, s) && s1.round > s.round
    requires s1 == s.(round := s1.round, step := s1.step, roundStartedAt := s1.roundStartedAt)
    ensures Clean(previous, s1) && Untouched(s1, s1.round)
  {
  }

  /** The node after moving to round `r` because of `e`. */
  function Arrived(s: NodeState, e: SignedEnvelope, r: nat, now: int): NodeState {
    var s1 := s.(seen := s.seen[KeyOf(e.envelope.message) := e]);
    if r > s.round then s1.(round := r, step := AtPropose, roundStartedAt := now) else s1
  }

  lemma ReachesBody(c: Config, s: NodeState, e: SignedEnvelope, now: int)
    requires c.Valid() && c.crypto.verifies(e) && s.excluded == map[]
    requires var m := e.envelope.message;
             && KeyOf(m) !in s.seen && m.from in c.committee.members
             && m.height == s.height && m.previous == s.previous && m.round >= s.round
             && e.envelope.subject == c.crypto.roundSubject(m.height, m.round)
             && c.ProposerFor(s.previous, m.round) != c.local
    ensures HandleSigned(c, s, e, now)
            == ObserveBody(c, Arrived(s, e, e.envelope.message.round, now), e.envelope.message, now)
  {
    hide ObserveBody, ExcludeSender, ObserveLocalProposal;
  }

  lemma PrevotesProposal(c: Config, s: NodeState, leader: AgentId, r: nat, p: Proposal, now: int)
    requires c.Valid() && c.committee.maxFaulty >= 1 && c.ProposerFor(s.previous, r) == leader
    requires r !in s.proposals && r !in s.prevotes && r !in s.emittedPrevotes
    ensures ObserveProposal(c, s, leader, r, p, now)
            == Outcome(s.(proposals := s.proposals[r := p],
                          prevotes := s.prevotes[r := Unanimous({c.local}, Some(p.id))],
                          emittedPrevotes := s.emittedPrevotes + {r}, step := AtPrevote),
                       Ok(Sending(BuildEnvelope(c, s, r, Vote(Prevote, Some(p.id)), now))))
  {
    hide EmitPrevote, Unanimous;
    PrevoteFirst(c, s.(proposals := s.proposals[r := p]), r, Some(p.id), now);
  }

  /** A proposal of this or a later round is prevoted, whatever the node precommitted before. */
  lemma Follows(c: Config, previous: Hash, now: int, s: NodeState, leader: AgentId, r: nat, p: Proposal)
    requires c.Valid() && c.committee.maxFaulty >= 1 && Clean(previous, s) && Untouched(s, r) && s.round <= r
    requires c.ProposerFor(previous, r) == leader != c.local
    requires c.crypto.verifies(Wire(c.crypto, previous, now, leader, r, Propose(p)))
    ensures var o := HandleSigned(c, s, Wire(c.crypto, previous, now, leader, r, Propose(p)), now);
            && o.result.Ok? && o.Commits() == [] && SameRest(s, o.state)
            && Tally(previous, o.state, r, p, {c.local}, {})
            && o.Outbound() == [Wire(c.crypto, previous, now, c.local, r, Prevoted(p)).envelope]
  {
    hide Unanimous, HandleSigned, ObserveProposal, Tally, FutureEmpty, Config.ProposerFor;
    var e := Wire(c.crypto, previous, now, leader, r, Propose(p));
    LeaderIsMember(c, previous, r);
    assert KeyOf(e.envelope.message).round == r;
    ReachesBody(c, s, e, now);
    PrevotesProposal(c, Arrived(s, e, r, now), leader, r, p, now);
    ArrivedTally(previous, c.local, s, e, r, p, now);
  }

  lemma LeaderIsMember(c: Config, previous: Hash, r: nat)
    requires c.Valid()
    ensures c.ProposerFor(previous, r) in c.committee.members
  {
  }

  lemma ArrivedTally(previous: Hash, a: AgentId, s: NodeState, e: SignedEnvelope, r: nat, p: Proposal, now: int)
    requires Clean(previous, s) && Untouched(s, r) && s.round <= r
    requires KeyOf(e.envelope.message).round == r && KeyOf(e.envelope.message).kind == ProposalKind
    ensures var s1 := Arrived(s, e, r, now);
            Tally(previous,
                  s1.(proposals := s1.proposals[r := p], prevotes := s1.prevotes[r := Unanimous({a}, Some(p.id))],
                      emittedPrevotes := s1.emittedPrevotes + {r}, step := AtPrevote), r, p, {a}, {})
  {
    hide Unanimous, FutureEmpty;
    ArrivedFuture(s, e, r, p, Unanimous({a}, Some(p.id)), now);
  }

  lemma ArrivedFuture(s: NodeState, e: SignedEnvelope, r: nat, p: Proposal, votes: Ledger, now: int)
    requires FutureEmpty(s) && s.round <= r
    ensures var s1 := Arrived(s, e, r, now);
            FutureEmpty(s1.(proposals := s1.proposals[r := p], prevotes := s1.prevotes[r := votes],
                            emittedPrevotes := s1.emittedPrevotes + {r}, step := AtPrevote))
  {
  }
}
