/**
 Committees that tolerate no fault, as two and three governors form.

 One vote is then a quorum, and a leader commits its own proposal as it makes it.  Honest commits of the first height
 agree in every run if and only if one member leads every round.
 */
module ZeroTolerance {
  import opened Wrappers
  import opened ConsensusModel
  import opened CommitChain
  import opened CommitteeAgreement
  import opened Disagreement

  ghost function LeaderOf(net: Network, genesis: Hash, round: nat): AgentId
    requires net.Valid()
  {
    BestOf(net.committee.members, a => net.crypto.score(genesis, round, a))
  }

  ghost predicate OneLeads(net: Network, genesis: Hash)
    requires net.Valid()
  {
    forall r: nat :: LeaderOf(net, genesis, r) == LeaderOf(net, genesis, 0)
  }

  /** All commits of height 1 carry the same proposal id. */
  ghost predicate FirstAgrees(net: Network, g: System)
    requires Covers(net, g)
  {
    forall a, b, x, y |
      && a in net.honest && b in net.honest && x in g.commits[a] && y in g.commits[b]
      && x.height == 1 && y.height == 1 :: x.proposal.id == y.proposal.id
  }

  ghost predicate FirstAlwaysAgrees(net: Network)
    requires net.Valid()
  {
    forall g | Reachable(net, g) && Covers(net, g) :: FirstAgrees(net, g)
  }

  // -------------------------------------------------------------------------
  // A node that heard nothing

  /** Height 1, and nothing proposed or voted. */
  predicate Pristine(genesis: Hash, s: NodeState) {
    && s.height == 1 && s.previous == genesis && s.proposals == map[] && s.prevotes == map[] && s.precommits == map[]
    && s.emittedPrevotes == {} && s.emittedPrecommits == {}
  }

  /** A leader without tolerance commits its own proposal as it makes it. */
  lemma LeaderCommits(c: Config, genesis: Hash, s: NodeState, now: int)
    requires c.Valid() && c.committee.maxFaulty == 0 && Pristine(genesis, s)
    requires c.ProposerFor(genesis, s.round) == c.local && s.pending.Some?
    ensures var o := EmitProposalIfLeader(c, s, now);
            && |o.Commits()| == 1 && o.Commits()[0].height == 1 && o.Commits()[0].proposal == s.pending.value
            && o.state.height == 2
            && forall e | e in o.Outbound() && e.message.body.Propose? :: e.message.body.proposal == s.pending.value
  {
    FirstVote(c.local, Some(s.pending.value.id));
  }

  lemma FollowerWaits(c: Config, genesis: Hash, s: NodeState, now: int)
    requires c.Valid() && Pristine(genesis, s) && (c.ProposerFor(genesis, s.round) != c.local || s.pending.None?)
    ensures EmitProposalIfLeader(c, s, now) == Idle(s)
  {
  }

  // -------------------------------------------------------------------------
  // Two leaders disagree

  ghost predicate CommittedFirst(commits: seq<CommitRecord>, x: Proposal) {
    |commits| == 1 && commits[0].height == 1 && commits[0].proposal == x
  }

  /** On the way to a round that `a` leads. */
  ghost predicate Heading(net: Network, genesis: Hash, g: System, a: AgentId, r: nat, x: Proposal)
    requires net.Valid() && Covers(net, g) && a in net.honest
  {
    var s := g.nodes[a];
    && g.commits[a] == [] && Pristine(genesis, s) && s.pending == Some(x) && s.round <= r
    && LeaderOf(net, genesis, s.round) != a
  }

  /** The next timeout brings `a` one round further, or makes it commit. */
  lemma HeadsOn(net: Network, genesis: Hash, g: System, a: AgentId, r: nat, x: Proposal) returns (g': System)
    requires net.Valid() && net.committee.maxFaulty == 0 && OnRun(net, g) && a in net.honest
    requires LeaderOf(net, genesis, r) == a && Heading(net, genesis, g, a, r, x)
    ensures OnRun(net, g') && Only(net, g, g', a)
    ensures CommittedFirst(g'.commits[a], x)
            || (Heading(net, genesis, g', a, r, x) && g'.nodes[a].round == g.nodes[a].round + 1)
  {
    hide EndsAt, Next, Network.Valid, LeaderOf, Only;
    MemberConfig(net, a);
    var s := g.nodes[a];
    var now := s.roundStartedAt + net.roundTimeout;
    TimesOutOwn(net.ConfigOf(a), genesis, s, x, now);
    g' := Takes(net, g, a, Timer(now));
  }

  /** A member that leads round `r` commits its own proposal without hearing anything. */
  lemma CommitsOwn(net: Network, genesis: Hash, g: System, a: AgentId, r: nat, x: Proposal) returns (g': System)
    requires net.Valid() && net.committee.maxFaulty == 0 && OnRun(net, g) && a in net.honest
    requires Pristine(genesis, g.nodes[a]) && g.nodes[a].round == 0 && g.commits[a] == []
    requires LeaderOf(net, genesis, r) == a
    ensures OnRun(net, g') && Only(net, g, g', a) && CommittedFirst(g'.commits[a], x)
  {
    hide EndsAt, Next, Network.Valid, LeaderOf, Only, Heading, CommittedFirst;
    g' := StartsOwn(net, genesis, g, a, r, x);
    HeadingRound(net, genesis, g', a, r, x);
    while !CommittedFirst(g'.commits[a], x)
      invariant OnRun(net, g') && Only(net, g, g', a)
      invariant CommittedFirst(g'.commits[a], x) || Heading(net, genesis, g', a, r, x)
      invariant Heading(net, genesis, g', a, r, x) ==> g'.nodes[a].round <= r
      decreases if CommittedFirst(g'.commits[a], x) then 0 else 1 + r - g'.nodes[a].round
    {
      var g1 := HeadsOn(net, genesis, g', a, r, x);
      OnlyTwice(net, g, g', g1, a);
      HeadingRound(net, genesis, g1, a, r, x);
      g' := g1;
    }
  }

  lemma HeadingRound(net: Network, genesis: Hash, g: System, a: AgentId, r: nat, x: Proposal)
    requires net.Valid() && Covers(net, g) && a in net.honest
    ensures Heading(net, genesis, g, a, r, x) ==> g.nodes[a].round <= r
  {
    hide Network.Valid, LeaderOf;
  }

  lemma StartsOwn(net: Network, genesis: Hash, g: System, a: AgentId, r: nat, x: Proposal) returns (g': System)
    requires net.Valid() && net.committee.maxFaulty == 0 && OnRun(net, g) && a in net.honest
    requires Pristine(genesis, g.nodes[a]) && g.nodes[a].round == 0 && g.commits[a] == []
    ensures OnRun(net, g') && Only(net, g, g', a)
    ensures CommittedFirst(g'.commits[a], x) || (Heading(net, genesis, g', a, r, x) && g'.nodes[a].round <= r)
  {
    hide EndsAt, Next, Network.Valid, LeaderOf, Only;
    MemberConfig(net, a);
    QueuesOwn(net.ConfigOf(a), genesis, g.nodes[a], x);
    g' := Takes(net, g, a, Queue(x, 0));
  }

  lemma MemberConfig(net: Network, a: AgentId)
    requires net.Valid() && a in net.honest
    ensures net.ConfigOf(a).Valid()
    ensures forall h, r: nat :: net.ConfigOf(a).ProposerFor(h, r) == LeaderOf(net, h, r)
  {
  }

  lemma Takes(net: Network, g: System, a: AgentId, ev: Event) returns (g': System)
    requires net.Valid() && OnRun(net, g) && a in net.honest && (ev.Queue? || ev.Timer?)
    ensures net.ConfigOf(a).Valid() && OnRun(net, g') && Only(net, g, g', a)
    ensures var o := Next(net.ConfigOf(a), g.nodes[a], ev);
            g'.nodes[a] == o.state && g'.commits[a] == g.commits[a] + o.Commits()
  {
    hide Network.Valid, EndsAt, Next, After, Allowed;
    var move := Move(a, ev);
    MemberConfig(net, a);
    MayAct(net, g, move);
    ReachNext(net, g, move);
    ActEffects(net, g, move);
    g' := After(net, g, move);
  }

  lemma QueuesOwn(c: Config, genesis: Hash, s: NodeState, x: Proposal)
    requires c.Valid() && c.committee.maxFaulty == 0 && Pristine(genesis, s)
    ensures var o := Next(c, s, Queue(x, 0));
            if c.ProposerFor(genesis, s.round) == c.local then
              |o.Commits()| == 1 && o.Commits()[0].height == 1 && o.Commits()[0].proposal == x
            else o == Idle(s.(pending := Some(x)))
  {
    hide EmitProposalIfLeader;
    var s1 := s.(pending := Some(x));
    if c.ProposerFor(genesis, s.round) == c.local { LeaderCommits(c, genesis, s1, 0); }
    else { FollowerWaits(c, genesis, s1, 0); }
  }

  lemma TimesOutOwn(c: Config, genesis: Hash, s: NodeState, x: Proposal, now: int)
    requires c.Valid() && c.committee.maxFaulty == 0 && Pristine(genesis, s) && s.pending == Some(x)
    requires now - s.roundStartedAt >= c.roundTimeout
    ensures var o := Next(c, s, Timer(now));
            if c.ProposerFor(genesis, s.round + 1) == c.local then
              |o.Commits()| == 1 && o.Commits()[0].height == 1 && o.Commits()[0].proposal == x
            else
              o.Commits() == [] && Pristine(genesis, o.state) && o.state.pending == Some(x) && o.state.round
                == s.round + 1
  {
    hide EmitProposalIfLeader, Config.ProposerFor, Config.Valid;
    var s1 := s.(round := s.round + 1, step := AtPropose, roundStartedAt := now);
    assert s1.round == s.round + 1 && Pristine(genesis, s1);
    assert Next(c, s, Timer(now)) == EmitProposalIfLeader(c, s1, now).After(NO_PROGRESS.(roundAdvanced := true));
    hide Next;
    if c.ProposerFor(genesis, s1.round) == c.local { LeaderCommits(c, genesis, s1, now); }
    else { FollowerWaits(c, genesis, s1, now); }
  }

  /** Two members that lead different rounds commit different proposals at height 1. */
  lemma TwoLeadersDisagree(net: Network, genesis: Hash, r: nat, q: nat, x: Proposal, y: Proposal)
    returns (g: System, a: AgentId, b: AgentId)
    requires net.Valid() && net.committee.maxFaulty == 0 && SameStart(net, genesis)
    requires LeaderOf(net, genesis, r) != LeaderOf(net, genesis, q)
    ensures OnRun(net, g) && a in net.honest && b in net.honest
    ensures CommittedFirst(g.commits[a], x) && CommittedFirst(g.commits[b], y)
  {
    hide EndsAt, Network.Valid;
    a, b := LeaderOf(net, genesis, r), LeaderOf(net, genesis, q);
    AllHonest(net, genesis, r);
    AllHonest(net, genesis, q);
    ReachStart(net);
    var g1 := CommitsOwn(net, genesis, InitialSystem(net), a, r, x);
    g := CommitsOwn(net, genesis, g1, b, q, y);
  }

  /** Without tolerance every member is honest. */
  lemma AllHonest(net: Network, genesis: Hash, r: nat)
    requires net.Valid() && net.committee.maxFaulty == 0
    ensures LeaderOf(net, genesis, r) in net.honest && forall a | a in net.committee.members :: a in net.honest
  {
    assert net.Byzantine() == {};
    forall a | a in net.committee.members ensures a in net.honest { assert a in net.Members(); }
  }

  // -------------------------------------------------------------------------
  // No step goes down

  /** Nothing is sent or committed below the height the step starts from. */
  ghost predicate Upward(s: NodeState, o: Outcome) {
    && o.state.height >= s.height && (forall commit | commit in o.Commits() :: commit.height >= s.height)
    && forall e | e in o.Outbound() :: e.message.height >= s.height
  }

  lemma KeepsUpward(c: Config, s: NodeState, o: Outcome)
    requires KeepsChain(c, s, o)
    ensures Upward(s, o)
  {
  }

  lemma AdvanceUpward(c: Config, s: NodeState, target: nat, now: int)
    requires c.Valid()
    ensures Upward(s, AdvanceRound(c, s, target, now))
  {
    hide EmitProposalIfLeader;
    var s1 := s.(round := target, step := AtPropose, roundStartedAt := now);
    EmitProposalKeeps(c, s1, now);
    KeepsUpward(c, s1, EmitProposalIfLeader(c, s1, now));
  }

  lemma ObserveUpward(c: Config, s: NodeState, m: Message, now: int)
    requires c.Valid()
    ensures Upward(s, ObserveMessage(c, s, m, now))
  {
    hide AdvanceRound, ObserveBody;
    AdvanceUpward(c, s, m.round, now);
    var s1 := AdvanceRound(c, s, m.round, now).state;
    ObserveBodyKeeps(c, s1, m, now);
    KeepsUpward(c, s1, ObserveBody(c, s1, m, now));
  }

  lemma NextUpward(c: Config, s: NodeState, ev: Event)
    requires c.Valid()
    ensures Upward(s, Next(c, s, ev))
  {
    hide ObserveMessage, EmitProposalIfLeader, AdvanceRound, WithoutVoter;
    match ev
    case Deliver(e, now) =>
      ObserveUpward(c, s.(seen := s.seen[KeyOf(e.envelope.message) := e]), e.envelope.message, now);
    case DeliverUnsigned(e, now) => ObserveUpward(c, s, e.message, now);
    case Queue(proposal, now) =>
      var s1 := s.(pending := Some(proposal));
      EmitProposalKeeps(c, s1, now);
      KeepsUpward(c, s1, EmitProposalIfLeader(c, s1, now));
    case Timer(now) => AdvanceUpward(c, s, s.round + 1, now);
  }

  // -------------------------------------------------------------------------
  // Followers of one leader

  /** Every proposal the node knows of is `x`. */
  ghost predicate Knows(s: NodeState, x: Proposal) { forall r | r in s.proposals :: s.proposals[r] == x }

  /** The step proposes nothing, commits nothing but `x`, and learns of no other proposal at its height. */
  ghost predicate Loyal(s: NodeState, x: Proposal, o: Outcome) {
    && (forall commit | commit in o.Commits() :: commit.proposal == x)
    && (forall e | e in o.Outbound() :: !e.message.body.Propose?)
    && (o.state.height > s.height || (o.state.height == s.height && o.state.previous
                                      == s.previous && Knows(o.state, x)))
  }

  lemma CommitLoyal(c: Config, s: NodeState, x: Proposal, round: nat, choice: Choice, now: int)
    requires Knows(s, x)
    ensures Loyal(s, x, Commit(c, s, round, choice, now))
  {
  }

  lemma EmitPrecommitLoyal(c: Config, s: NodeState, x: Proposal, round: nat, choice: Choice, now: int)
    requires Knows(s, x)
    ensures Loyal(s, x, EmitPrecommit(c, s, round, choice, now))
  {
    hide Commit, RecordVote;
    var vote := RecordVote(LedgerAt(s.precommits, round), c.local, choice);
    var s1 := s.(emittedPrecommits := s.emittedPrecommits + {round}, step := AtPrecommit,
                 precommits := s.precommits[round := vote.ledger]);
    CommitLoyal(c, s1, x, round, choice, now);
  }

  lemma EmitPrevoteLoyal(c: Config, s: NodeState, x: Proposal, round: nat, choice: Choice, now: int)
    requires Knows(s, x)
    ensures Loyal(s, x, EmitPrevote(c, s, round, choice, now))
  {
    hide EmitPrecommit, RecordVote;
    var vote := RecordVote(LedgerAt(s.prevotes, round), c.local, choice);
    var s1 := s.(emittedPrevotes := s.emittedPrevotes + {round}, step := AtPrevote,
                 prevotes := s.prevotes[round := vote.ledger]);
    EmitPrecommitLoyal(c, s1, x, round, choice, now);
  }

  lemma ObserveBodyLoyal(c: Config, s: NodeState, x: Proposal, m: Message, now: int)
    requires c.Valid() && Knows(s, x) && (m.body.Propose? ==> m.body.proposal == x)
    ensures Loyal(s, x, ObserveBody(c, s, m, now))
  {
    hide ObserveProposal, ObservePrevote, ObservePrecommit, Loyal;
    match m.body
    case Propose(_) => ObserveProposalLoyal(c, s, x, m.from, m.round, now);
    case Vote(Prevote, choice) => ObservePrevoteLoyal(c, s, x, m.from, m.round, choice, now);
    case Vote(Precommit, choice) => ObservePrecommitLoyal(c, s, x, m.from, m.round, choice, now);
  }

  lemma ObserveProposalLoyal(c: Config, s: NodeState, x: Proposal, from: AgentId, round: nat, now: int)
    requires c.Valid() && Knows(s, x)
    ensures Loyal(s, x, ObserveProposal(c, s, from, round, x, now))
  {
    hide EmitPrevote;
    EmitPrevoteLoyal(c, RecordProposal(c, s, from, round, x).state, x, round, Some(x.id), now);
  }

  lemma ObservePrevoteLoyal(
    c: Config, s: NodeState, x: Proposal, from: AgentId, round: nat, choice: Choice, now: int)
    requires Knows(s, x)
    ensures Loyal(s, x, ObservePrevote(c, s, from, round, choice, now))
  {
    hide EmitPrecommit, RecordVote;
    var vote := RecordVote(LedgerAt(s.prevotes, round), from, choice);
    EmitPrecommitLoyal(c, s.(prevotes := s.prevotes[round := vote.ledger]), x, round, choice, now);
  }

  lemma ObservePrecommitLoyal(
    c: Config, s: NodeState, x: Proposal, from: AgentId, round: nat, choice: Choice, now: int)
    requires Knows(s, x)
    ensures Loyal(s, x, ObservePrecommit(c, s, from, round, choice, now))
  {
    hide Commit, RecordVote;
    var vote := RecordVote(LedgerAt(s.precommits, round), from, choice);
    CommitLoyal(c, s.(precommits := s.precommits[round := vote.ledger]), x, round, choice, now);
  }

  /** A node that leads no round at this hash. */
  ghost predicate Follower(c: Config, previous: Hash)
    requires c.Valid()
  {
    forall r: nat :: c.ProposerFor(previous, r) != c.local
  }

  lemma FollowerAdvances(c: Config, s: NodeState, target: nat, now: int)
    requires c.Valid() && Follower(c, s.previous)
    ensures var o := AdvanceRound(c, s, target, now);
            && o.result.Ok? && o.Commits() == [] && o.Outbound() == []
            && o.state.height == s.height && o.state.previous == s.previous && o.state.proposals == s.proposals
            && o.state.prevotes == s.prevotes && o.state.precommits == s.precommits
            && o.state.emittedPrevotes == s.emittedPrevotes && o.state.emittedPrecommits == s.emittedPrecommits
  {
  }

  lemma ObserveLoyal(c: Config, s: NodeState, x: Proposal, m: Message, now: int)
    requires c.Valid() && Follower(c, s.previous) && Knows(s, x)
    requires m.from in c.committee.members && m.height == s.height && m.body.Propose? ==> m.body.proposal == x
    ensures Loyal(s, x, ObserveMessage(c, s, m, now))
  {
    hide AdvanceRound, ObserveBody, Follower;
    if m.from in c.committee.members && m.height == s.height {
      FollowerAdvances(c, s, m.round, now);
      ObserveBodyLoyal(c, AdvanceRound(c, s, m.round, now).state, x, m, now);
    }
  }

  /** A call that delivers no other verified proposal of a member at this height keeps a follower loyal. */
  lemma NextLoyal(c: Config, s: NodeState, x: Proposal, ev: Event)
    requires c.Valid() && Follower(c, s.previous) && Knows(s, x) && !ev.DeliverUnsigned?
    requires ev.Deliver? && c.crypto.verifies(ev.signed) ==>
               var m := ev.signed.envelope.message;
               m.from in c.committee.members && m.height == s.height && m.body.Propose? ==> m.body.proposal == x
    ensures Loyal(s, x, Next(c, s, ev))
  {
    hide HandleSigned, AdvanceRound, Follower;
    match ev
    case Deliver(e, now) => DeliverLoyal(c, s, x, e, now);
    case Queue(proposal, now) => FollowerQueues(c, s, proposal, now);
    case Timer(now) => FollowerAdvances(c, s, s.round + 1, now);
  }

  lemma DeliverLoyal(c: Config, s: NodeState, x: Proposal, e: SignedEnvelope, now: int)
    requires c.Valid() && Follower(c, s.previous) && Knows(s, x)
    requires c.crypto.verifies(e) ==>
               var m := e.envelope.message;
               m.from in c.committee.members && m.height == s.height && m.body.Propose? ==> m.body.proposal == x
    ensures Loyal(s, x, HandleSigned(c, s, e, now))
  {
    hide ObserveMessage, ExcludeSender, Follower;
    var key := KeyOf(e.envelope.message);
    if key in s.seen {
      ExcludeLoyal(c, s, x, key, Equivocation, [c.crypto.messageHash(s.seen[key]), c.crypto.messageHash(e)], now);
    }
    ExcludeLoyal(c, s, x, key, InvalidSignature, [c.crypto.messageHash(e)], now);
    if c.crypto.verifies(e) { ObserveLoyal(c, s.(seen := s.seen[key := e]), x, e.envelope.message, now); }
  }

  lemma ExcludeLoyal(
    c: Config, s: NodeState, x: Proposal, key: MessageKey, reason: ExclusionReason, evidence: seq<Hash>, now: int)
    requires c.Valid() && Knows(s, x)
    ensures Loyal(s, x, ExcludeSender(c, s, key, reason, evidence, now))
  {
    hide WithoutVoter;
  }

  lemma FollowerQueues(c: Config, s: NodeState, proposal: Proposal, now: int)
    requires c.Valid() && Follower(c, s.previous)
    ensures QueueProposal(c, s, proposal, now) == Idle(s.(pending := Some(proposal)))
  {
  }

  // -------------------------------------------------------------------------
  // One leader

  /** The first step that does anything is the leader's: it commits its own proposal. */
  lemma NextPristine(c: Config, genesis: Hash, s: NodeState, ev: Event) returns (x: Proposal)
    requires c.Valid() && c.committee.maxFaulty == 0 && Pristine(genesis, s) && !ev.DeliverUnsigned?
    requires ev.Deliver? && c.crypto.verifies(ev.signed) ==>
               ev.signed.envelope.message.from !in c.committee.members
    ensures var o := Next(c, s, ev);
            || (o.Commits() == [] && o.Outbound() == [] && Pristine(genesis, o.state))
            || (&& !Follower(c, genesis) && CommittedFirst(o.Commits(), x) && o.state.height == 2
                && forall e | e in o.Outbound() && e.message.body.Propose? :: e.message.body.proposal == x)
  {
    hide EmitProposalIfLeader, HandleSigned, Follower;
    x := if ev.Queue? then ev.proposal else if s.pending.Some? then s.pending.value else Proposal("", "");
    match ev
    case Deliver(e, now) => IgnoresDelivery(c, genesis, s, e, now);
    case Queue(proposal, now) => ProposesOrWaits(c, genesis, s.(pending := Some(proposal)), now);
    case Timer(now) =>
      ProposesOrWaits(c, genesis, s.(round := s.round + 1, step := AtPropose, roundStartedAt := now), now);
  }

  /** Envelopes that do not verify, or are not a member's, leave nothing. */
  lemma IgnoresDelivery(c: Config, genesis: Hash, s: NodeState, e: SignedEnvelope, now: int)
    requires c.Valid() && Pristine(genesis, s)
    requires c.crypto.verifies(e) ==> e.envelope.message.from !in c.committee.members
    ensures var o := HandleSigned(c, s, e, now); o.Commits() == [] && o.Outbound() == [] && Pristine(genesis, o.state)
  {
  }

  lemma ProposesOrWaits(c: Config, genesis: Hash, s: NodeState, now: int)
    requires c.Valid() && c.committee.maxFaulty == 0 && Pristine(genesis, s)
    ensures var o := EmitProposalIfLeader(c, s, now);
            || o == Idle(s)
            || (&& !Follower(c, genesis) && s.pending.Some? && o.result.Ok? && o.state.height == 2
                && var x := s.pending.value;
                   && CommittedFirst(o.Commits(), x)
                   && forall e | e in o.Outbound() && e.message.body.Propose? :: e.message.body.proposal == x)
  {
    hide EmitProposalIfLeader;
    if c.ProposerFor(genesis, s.round) == c.local && s.pending.Some? { LeaderCommits(c, genesis, s, now); }
    else { FollowerWaits(c, genesis, s, now); }
  }

  /** Nobody has done anything. */
  ghost predicate Waiting(net: Network, genesis: Hash, g: System)
    requires Covers(net, g)
  {
    forall a | a in net.honest :: Pristine(genesis, g.nodes[a]) && g.sent[a] == {} && g.commits[a] == []
  }

  /** What `a` knows, sent and committed at height 1 is only the leader's proposal `x`; the leader is beyond it. */
  ghost predicate SpreadTo(net: Network, genesis: Hash, g: System, leader: AgentId, x: Proposal, a: AgentId)
    requires Covers(net, g) && a in net.honest
  {
    var s := g.nodes[a];
    && s.height >= 1 && (s.height == 1 ==> a != leader && s.previous == genesis && Knows(s, x))
    && (forall e | e in g.sent[a] && e.message.height == 1 && e.message.body.Propose? :: e.message.body.proposal == x)
    && forall commit | commit in g.commits[a] && commit.height == 1 :: commit.proposal == x
  }

  ghost predicate Spread(net: Network, genesis: Hash, g: System, leader: AgentId, x: Proposal)
    requires Covers(net, g)
  {
    forall a | a in net.honest :: SpreadTo(net, genesis, g, leader, x, a)
  }

  ghost predicate FirstInv(net: Network, genesis: Hash, g: System, leader: AgentId)
    requires Covers(net, g)
  {
    Waiting(net, genesis, g) || exists x :: Spread(net, genesis, g, leader, x)
  }

  lemma WaitingMoves(net: Network, genesis: Hash, g: System, move: Move, leader: AgentId)
    requires net.Valid() && net.committee.maxFaulty == 0 && OneLeads(net, genesis)
    requires leader == LeaderOf(net, genesis, 0)
    requires Covers(net, g) && Allowed(net, g, move) && Waiting(net, genesis, g)
    ensures FirstInv(net, genesis, After(net, g, move), leader)
  {
    hide Next, Network.Valid, LeaderOf, OneLeads;
    var a := move.node;
    var c, s := net.ConfigOf(a), g.nodes[a];
    MemberConfig(net, a);
    AllHonest(net, genesis, 0);
    var x := NextPristine(c, genesis, s, move.event);
    var o, g' := Next(c, s, move.event), After(net, g, move);
    if o.Commits() == [] {
      assert Waiting(net, genesis, g');
    } else {
      OnlyLeader(net, genesis, a);
      assert Spread(net, genesis, g', leader, x);
    }
  }

  /** Everyone but the leader is a follower. */
  lemma OnlyLeader(net: Network, genesis: Hash, a: AgentId)
    requires net.Valid() && OneLeads(net, genesis) && a in net.honest && net.ConfigOf(a).Valid()
    ensures Follower(net.ConfigOf(a), genesis) <==> a != LeaderOf(net, genesis, 0)
  {
    hide Network.Valid, LeaderOf;
    MemberConfig(net, a);
    assert net.ConfigOf(a).ProposerFor(genesis, 0) == LeaderOf(net, genesis, 0);
    forall r: nat ensures net.ConfigOf(a).ProposerFor(genesis, r) == LeaderOf(net, genesis, 0) {
      assert LeaderOf(net, genesis, r) == LeaderOf(net, genesis, 0);
    }
  }

  lemma ActorSpreads(net: Network, genesis: Hash, g: System, move: Move, leader: AgentId, x: Proposal)
    requires net.Valid() && net.committee.maxFaulty == 0 && OneLeads(net, genesis)
    requires leader == LeaderOf(net, genesis, 0)
    requires Covers(net, g) && Allowed(net, g, move) && Spread(net, genesis, g, leader, x)
    ensures SpreadTo(net, genesis, After(net, g, move), leader, x, move.node)
  {
    hide Next, Network.Valid, LeaderOf, OneLeads, Follower, Knows;
    var a := move.node;
    var c, s := net.ConfigOf(a), g.nodes[a];
    MemberConfig(net, a);
    AllHonest(net, genesis, 0);
    assert SpreadTo(net, genesis, g, leader, x, a);
    NextUpward(c, s, move.event);
    if s.height == 1 {
      OnlyLeader(net, genesis, a);
      if move.event.Deliver? && net.crypto.verifies(move.event.signed) {
        var from := move.event.signed.envelope.message.from;
        if from in net.honest { assert SpreadTo(net, genesis, g, leader, x, from); }
      }
      NextLoyal(c, s, x, move.event);
    }
  }

  lemma MoveKeepsFirst(net: Network, genesis: Hash, g: System, move: Move, leader: AgentId)
    requires net.Valid() && net.committee.maxFaulty == 0 && OneLeads(net, genesis)
    requires leader == LeaderOf(net, genesis, 0)
    requires Covers(net, g) && Allowed(net, g, move) && FirstInv(net, genesis, g, leader)
    ensures FirstInv(net, genesis, After(net, g, move), leader)
  {
    hide Next, Network.Valid, LeaderOf, OneLeads, Waiting, SpreadTo, Allowed;
    if Waiting(net, genesis, g) { WaitingMoves(net, genesis, g, move, leader); }
    else {
      var x :| Spread(net, genesis, g, leader, x);
      var g' := After(net, g, move);
      ActorSpreads(net, genesis, g, move, leader, x);
      forall a | a in net.honest && a != move.node ensures SpreadTo(net, genesis, g', leader, x, a) {
        BystanderSpreads(net, genesis, g, g', leader, x, a);
      }
      assert Spread(net, genesis, g', leader, x);
    }
  }

  lemma BystanderSpreads(
    net: Network, genesis: Hash, g: System, g': System, leader: AgentId, x: Proposal, a: AgentId)
    requires Covers(net, g) && Covers(net, g') && a in net.honest && SpreadTo(net, genesis, g, leader, x, a)
    requires g'.nodes[a] == g.nodes[a] && g'.sent[a] == g.sent[a] && g'.commits[a] == g.commits[a]
    ensures SpreadTo(net, genesis, g', leader, x, a)
  {
  }

  lemma {:induction false} RunFirst(net: Network, genesis: Hash, trace: seq<System>, moves: seq<Move>, i: nat)
    requires net.Valid() && net.committee.maxFaulty == 0 && SameStart(net, genesis) && OneLeads(net, genesis)
    requires IsRun(net, trace, moves) && i < |trace|
    ensures FirstInv(net, genesis, trace[i], LeaderOf(net, genesis, 0))
  {
    hide After, Network.Valid, Allowed, FirstInv, LeaderOf, OneLeads, InitialSystem;
    if i == 0 {
      StartsWaiting(net, genesis);
    } else {
      RunFirst(net, genesis, trace, moves, i - 1);
      assert trace[i - 1 + 1] == After(net, trace[i - 1], moves[i - 1]);
      MoveKeepsFirst(net, genesis, trace[i - 1], moves[i - 1], LeaderOf(net, genesis, 0));
    }
  }

  lemma StartsWaiting(net: Network, genesis: Hash)
    requires net.Valid() && SameStart(net, genesis)
    ensures Covers(net, InitialSystem(net)) && FirstInv(net, genesis, InitialSystem(net), LeaderOf(net, genesis, 0))
  {
    hide Network.Valid, LeaderOf;
    assert Waiting(net, genesis, InitialSystem(net));
  }

  lemma FirstInvAgrees(net: Network, genesis: Hash, g: System, leader: AgentId)
    requires Covers(net, g) && FirstInv(net, genesis, g, leader)
    ensures FirstAgrees(net, g)
  {
    hide Pristine, Knows, SpreadTo;
    if !Waiting(net, genesis, g) {
      var x :| Spread(net, genesis, g, leader, x);
      forall a, commit | a in net.honest && commit in g.commits[a] && commit.height == 1 ensures commit.proposal == x {
        SpreadCommits(net, genesis, g, leader, x, a);
      }
    }
  }

  lemma SpreadCommits(net: Network, genesis: Hash, g: System, leader: AgentId, x: Proposal, a: AgentId)
    requires Covers(net, g) && a in net.honest && SpreadTo(net, genesis, g, leader, x, a)
    ensures forall commit | commit in g.commits[a] && commit.height == 1 :: commit.proposal == x
  {
  }

  /**
   Agreement without tolerance, exactly.  For every network that tolerates no fault and whose nodes start from one
   hash: in every run all commits of height 1 carry the same proposal id if and only if one member leads every round
   after that hash.
   */
  lemma FirstAgreementExactly(net: Network, genesis: Hash)
    requires net.Valid() && net.committee.maxFaulty == 0 && SameStart(net, genesis)
    ensures FirstAlwaysAgrees(net) <==> OneLeads(net, genesis)
  {
    hide Network.Valid, LeaderOf, SameStart;
    if OneLeads(net, genesis) {
      forall g | Reachable(net, g) && Covers(net, g) ensures FirstAgrees(net, g) {
        var trace, moves :| IsRun(net, trace, moves) && g in trace;
        var i: nat :| i < |trace| && trace[i] == g;
        RunFirst(net, genesis, trace, moves, i);
        FirstInvAgrees(net, genesis, g, LeaderOf(net, genesis, 0));
      }
    } else {
      var r: nat :| LeaderOf(net, genesis, r) != LeaderOf(net, genesis, 0);
      var x, y := Proposal("x", ""), Proposal("y", "");
      var g, a, b := TwoLeadersDisagree(net, genesis, r, 0, x, y);
      OnRunIsReachable(net, g);
      assert g.commits[a][0] in g.commits[a] && g.commits[b][0] in g.commits[b];
    }
  }

  /** Two members that take turns disagree. */
  lemma PairDisagrees()
    ensures var net := TakingTurns([0, 1], 0, {0, 1}); net.Valid() && !FirstAlwaysAgrees(net)
  {
    hide FirstAlwaysAgrees, BestOf;
    var net := TakingTurns([0, 1], 0, {0, 1});
    var m := net.committee.members;
    assert m[0] in m && m[1] in m;
    assert net.Byzantine() == {};
    assert net.crypto.score("genesis", 0, LeaderOf(net, "genesis", 0)) >= net.crypto.score("genesis", 0, 0) == 1;
    assert net.crypto.score("genesis", 1, LeaderOf(net, "genesis", 1)) >= net.crypto.score("genesis", 1, 1) == 1;
    FirstAgreementExactly(net, "genesis");
  }
}
