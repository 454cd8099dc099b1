/**
 No commit is lost or skipped, except in one case.

 Over every run the commits a node reports have heights 1, 2, 3, ... and each is hashed over the hash of
 the one before it, if and only if no message makes the node catch up to a round it leads, with a proposal
 pending, in a committee that tolerates no fault.  There the catch-up in `ObserveMessage`, whose progress
 is thrown away, commits on the spot.  The proof rests on the ledgers of rounds above the current one
 being empty for as long as no commit has been lost.
 */
module CommitChain {
  import opened Wrappers
  import opened ConsensusModel

  ghost predicate UpTo(rounds: set<nat>, round: nat) {
    forall r | r in rounds :: r <= round
  }

  /** Nothing has been recorded for a round the node has not entered. */
  ghost predicate FutureEmpty(s: NodeState) {
    && UpTo(s.proposals.Keys, s.round) && UpTo(s.prevotes.Keys, s.round) && UpTo(s.precommits.Keys, s.round)
    && UpTo(s.emittedPrevotes, s.round) && UpTo(s.emittedPrecommits, s.round)
  }

  /** `commit` is the commit of `height` hashed over `previous`. */
  ghost predicate Links(c: Config, height: nat, previous: Hash, commit: CommitRecord) {
    && commit.height == height
    && commit.hash == c.crypto.commitHash(height, commit.round, previous, commit.proposal)
    && commit.prevoteTally >= c.committee.Threshold()
    && commit.precommitTally >= c.committee.Threshold()
  }

  ghost predicate AllAt(envelopes: seq<Envelope>, height: nat) {
    forall e | e in envelopes :: e.message.height == height
  }

  /** `o` sends only at the height it starts from, and either reports no commit and stays there, or reports
      exactly the commit by which it moved up one height. */
  ghost predicate KeepsChain(c: Config, s: NodeState, o: Outcome) {
    AllAt(o.Outbound(), s.height) &&
    if o.Commits() == [] then
      o.state.height == s.height && o.state.previous == s.previous && o.state.round >= s.round
    else
      && |o.Commits()| == 1
      && o.state.height == s.height + 1 && o.state.round == 0
      && Links(c, s.height, s.previous, o.Commits()[0])
      && o.state.previous == o.Commits()[0].hash
  }

  /** What stays pending: the proposal queued, unless that is what was committed. */
  function StillPending(pending: Option<Proposal>, commits: seq<CommitRecord>): Option<Proposal> {
    if commits != [] && pending.Some? && pending.value.id == commits[0].proposal.id then None else pending
  }

  /** Reports neither an exclusion nor a new round. */
  predicate Plain(o: Outcome) { o.result.Ok? ==> o.result.value.exclusions == [] && !o.result.value.roundAdvanced }

  /** As `KeepsChain`, without touching the seen messages or exclusions, and staying in the round begun when it was
      unless it commits `now`; and the future stays empty provided it was and `round` is the current round. */
  ghost predicate Keeps(c: Config, s: NodeState, round: nat, now: int, o: Outcome) {
    && KeepsChain(c, s, o)
    && o.state.seen == s.seen && o.state.excluded == s.excluded
    && o.state.pending == StillPending(s.pending, o.Commits()) && Plain(o)
    && (if o.Commits() == [] then o.state.round == s.round && o.state.roundStartedAt == s.roundStartedAt
        else
          && o.state.roundStartedAt == now
          && o.state.proposals == map[] && o.state.prevotes == map[] && o.state.precommits == map[])
    && (FutureEmpty(s) && round == s.round ==> FutureEmpty(o.state))
  }

  lemma StillFuture(s: NodeState, t: NodeState)
    requires FutureEmpty(s) && t.round == s.round && t.proposals == s.proposals
    requires t.prevotes.Keys <= s.prevotes.Keys + {s.round} && t.precommits.Keys <= s.precommits.Keys + {s.round}
    requires t.emittedPrevotes <= s.emittedPrevotes + {s.round}
    requires t.emittedPrecommits <= s.emittedPrecommits + {s.round}
    ensures FutureEmpty(t)
  {
  }

  lemma CommitKeeps(c: Config, s: NodeState, round: nat, choice: Choice, now: int)
    ensures Keeps(c, s, round, now, Commit(c, s, round, choice, now))
  {
  }

  /** `s1` differs from `s` only in what the round has recorded. */
  ghost predicate Records(s: NodeState, s1: NodeState, round: nat) {
    && s1 == s.(step := s1.step, prevotes := s1.prevotes, precommits := s1.precommits,
                emittedPrevotes := s1.emittedPrevotes, emittedPrecommits := s1.emittedPrecommits)
    && (FutureEmpty(s) && round == s.round ==> FutureEmpty(s1))
  }

  /** What keeps after recording and sending keeps from before. */
  lemma KeepsFrom(c: Config, s: NodeState, s1: NodeState, round: nat, now: int, o: Outcome, e: Envelope)
    requires Records(s, s1, round) && e.message.height == s.height
    ensures Keeps(c, s1, round, now, o) ==> Keeps(c, s, round, now, o.After(Sending(e)))
    ensures Keeps(c, s, round, now, Outcome(s1, Ok(Sending(e))))
    ensures forall error :: Keeps(c, s, round, now, Outcome(s1, Err(error)))
  {
    hide Links, FutureEmpty;
  }

  lemma EmitPrecommitKeeps(c: Config, s: NodeState, round: nat, choice: Choice, now: int)
    ensures Keeps(c, s, round, now, EmitPrecommit(c, s, round, choice, now))
  {
    hide Commit, RecordVote, FutureEmpty, Keeps;
    var vote := RecordVote(LedgerAt(s.precommits, round), c.local, choice);
    var s1 := s.(emittedPrecommits := s.emittedPrecommits + {round}, step := AtPrecommit,
                 precommits := s.precommits[round := vote.ledger]);
    if FutureEmpty(s) && round == s.round { StillFuture(s, s1); }
    CommitKeeps(c, s1, round, choice, now);
    KeepsFrom(c, s, s1, round, now, Commit(c, s1, round, choice, now),
              BuildEnvelope(c, s, round, Vote(Precommit, choice), now));
    IdleKeeps(c, s, round, now);
  }

  lemma IdleKeeps(c: Config, s: NodeState, round: nat, now: int)
    ensures Keeps(c, s, round, now, Idle(s))
  {
    hide FutureEmpty;
  }

  lemma EmitPrevoteKeeps(c: Config, s: NodeState, round: nat, choice: Choice, now: int)
    ensures Keeps(c, s, round, now, EmitPrevote(c, s, round, choice, now))
  {
    hide EmitPrecommit, RecordVote, FutureEmpty, Keeps;
    var vote := RecordVote(LedgerAt(s.prevotes, round), c.local, choice);
    var s1 := s.(emittedPrevotes := s.emittedPrevotes + {round}, step := AtPrevote,
                 prevotes := s.prevotes[round := vote.ledger]);
    if FutureEmpty(s) && round == s.round { StillFuture(s, s1); }
    EmitPrecommitKeeps(c, s1, round, choice, now);
    KeepsFrom(c, s, s1, round, now, EmitPrecommit(c, s1, round, choice, now),
              BuildEnvelope(c, s, round, Vote(Prevote, choice), now));
    IdleKeeps(c, s, round, now);
  }

  lemma RecordProposalKeeps(c: Config, s: NodeState, from: AgentId, round: nat, proposal: Proposal)
    requires c.Valid()
    ensures var s1 := RecordProposal(c, s, from, round, proposal).state;
            && s1.height == s.height && s1.previous == s.previous && s1.round == s.round && s1.seen == s.seen
            && s1.pending == s.pending && s1.excluded == s.excluded
            && s1.roundStartedAt == s.roundStartedAt
            && (FutureEmpty(s) && round == s.round ==> FutureEmpty(s1))
  {
  }

  lemma EmitProposalKeeps(c: Config, s: NodeState, now: int)
    requires c.Valid()
    ensures Keeps(c, s, s.round, now, EmitProposalIfLeader(c, s, now))
  {
    hide EmitPrevote, RecordProposal, FutureEmpty;
    if s.pending.Some? {
      RecordProposalKeeps(c, s, c.local, s.round, s.pending.value);
      var recorded := RecordProposal(c, s, c.local, s.round, s.pending.value);
      EmitPrevoteKeeps(c, recorded.state, s.round, Some(s.pending.value.id), now);
    }
  }

  lemma ObserveProposalKeeps(c: Config, s: NodeState, from: AgentId, round: nat, proposal: Proposal, now: int)
    requires c.Valid()
    ensures Keeps(c, s, round, now, ObserveProposal(c, s, from, round, proposal, now))
  {
    hide EmitPrevote, RecordProposal, FutureEmpty;
    RecordProposalKeeps(c, s, from, round, proposal);
    var recorded := RecordProposal(c, s, from, round, proposal);
    EmitPrevoteKeeps(c, recorded.state, round, Some(proposal.id), now);
  }

  lemma ObserveBodyKeeps(c: Config, s: NodeState, m: Message, now: int)
    requires c.Valid()
    ensures Keeps(c, s, m.round, now, ObserveBody(c, s, m, now))
  {
    hide ObserveProposal, ObservePrevote, ObservePrecommit, Keeps;
    match m.body
    case Propose(proposal) => ObserveProposalKeeps(c, s, m.from, m.round, proposal, now);
    case Vote(Prevote, choice) => ObservePrevoteKeeps(c, s, m.from, m.round, choice, now);
    case Vote(Precommit, choice) => ObservePrecommitKeeps(c, s, m.from, m.round, choice, now);
  }

  lemma ObservePrevoteKeeps(c: Config, s: NodeState, from: AgentId, round: nat, choice: Choice, now: int)
    ensures Keeps(c, s, round, now, ObservePrevote(c, s, from, round, choice, now))
  {
    hide EmitPrecommit, RecordVote, Links;
    var vote := RecordVote(LedgerAt(s.prevotes, round), from, choice);
    EmitPrecommitKeeps(c, s.(prevotes := s.prevotes[round := vote.ledger]), round, choice, now);
  }

  lemma ObservePrecommitKeeps(c: Config, s: NodeState, from: AgentId, round: nat, choice: Choice, now: int)
    ensures Keeps(c, s, round, now, ObservePrecommit(c, s, from, round, choice, now))
  {
    hide Commit, RecordVote, Links;
    var vote := RecordVote(LedgerAt(s.precommits, round), from, choice);
    CommitKeeps(c, s.(precommits := s.precommits[round := vote.ledger]), round, choice, now);
  }

  /** The first vote cast in a round nobody has voted in. */
  lemma FirstVote(voter: AgentId, choice: Choice)
    ensures RecordVote(NO_VOTES, voter, choice).count == Ok(1)
  {
    assert RecordVote(NO_VOTES, voter, choice).ledger.byValue[choice] == {voter};
  }

  ghost predicate NoPrecommits(envelopes: seq<Envelope>) {
    forall e | e in envelopes :: e.message.body.Vote? ==> e.message.body.phase != Precommit
  }

  /** What the leader's own proposal does in an untouched round: it commits if and only if one vote
      is a quorum. */
  lemma FreshProposal(c: Config, s: NodeState, proposal: Proposal, now: int)
    requires c.Valid() && c.ProposerFor(s.previous, s.round) == c.local
    requires s.round !in s.proposals && s.round !in s.prevotes && s.round !in s.precommits
    requires s.round !in s.emittedPrevotes && s.round !in s.emittedPrecommits
    ensures var o := ObserveLocalProposal(c, s, s.round, proposal, now);
            && o.result.Ok?
            && (o.Commits() != [] <==> c.committee.maxFaulty == 0)
            && (o.Commits() == [] ==>
                  o.state.round == s.round && o.state.roundStartedAt == s.roundStartedAt && NoPrecommits(o.Outbound()))
  {
    FirstVote(c.local, Some(proposal.id));
  }

  /** Entering a new round as its leader, with a pending proposal, in a committee whose threshold
      is one, commits on the spot; nothing else does. */
  lemma AdvanceCommitsExactly(c: Config, s: NodeState, target: nat, now: int)
    requires c.Valid() && FutureEmpty(s) && target > s.round
    ensures var o := AdvanceRound(c, s, target, now);
            && o.result.Ok? && KeepsChain(c, s, o) && FutureEmpty(o.state)
            && (o.Commits() != [] <==>
                  c.committee.maxFaulty == 0 && c.ProposerFor(s.previous, target) == c.local && s.pending.Some?)
            && (o.Commits() == [] ==>
                  o.state.round == target && o.state.roundStartedAt == now && NoPrecommits(o.Outbound()))
  {
    hide ObserveLocalProposal;
    var s0 := s.(round := target, step := AtPropose, roundStartedAt := now);
    EmitProposalKeeps(c, s0, now);
    if c.ProposerFor(s.previous, target) == c.local && s.pending.Some? {
      FreshProposal(c, s0, s.pending.value, now);
    }
  }

  /** `m` makes the node catch up to a later round. */
  predicate CatchesUp(c: Config, s: NodeState, m: Message) {
    m.from in c.committee.members && m.height == s.height && m.previous == s.previous && m.round > s.round
  }

  /** The catch-up commits: the node leads the round, has a proposal pending, and one vote is a quorum. */
  predicate SwallowedBy(c: Config, s: NodeState, m: Message)
    requires c.Valid()
  {
    && CatchesUp(c, s, m)
    && c.committee.maxFaulty == 0 && c.ProposerFor(s.previous, m.round) == c.local && s.pending.Some?
  }

  lemma ObserveKeeps(c: Config, s: NodeState, m: Message, now: int)
    requires c.Valid() && FutureEmpty(s) && !SwallowedBy(c, s, m)
    ensures KeepsChain(c, s, ObserveMessage(c, s, m, now)) && FutureEmpty(ObserveMessage(c, s, m, now).state)
  {
    hide ObserveBody, EmitProposalIfLeader;
    if m.height == s.height && m.round >= s.round {
      if m.round > s.round { AdvanceCommitsExactly(c, s, m.round, now); }
      ObserveBodyKeeps(c, AdvanceRound(c, s, m.round, now).state, m, now);
    }
  }

  /** A swallowed commit leaves the node one height above what it reports. */
  lemma ObserveSwallows(c: Config, s: NodeState, m: Message, now: int)
    requires c.Valid() && FutureEmpty(s) && SwallowedBy(c, s, m)
    ensures var o := ObserveMessage(c, s, m, now); o.state.height == s.height + |o.Commits()| + 1
  {
    hide ObserveBody, AdvanceRound;
    AdvanceCommitsExactly(c, s, m.round, now);
    var s1 := AdvanceRound(c, s, m.round, now).state;
    ObserveBodyKeeps(c, s1, m, now);
    assert ObserveMessage(c, s, m, now) == ObserveBody(c, s1, m, now);
  }

  lemma ExcludeKeeps(
    c: Config, s: NodeState, key: MessageKey, reason: ExclusionReason, evidence: seq<Hash>, now: int)
    requires c.Valid() && FutureEmpty(s)
    ensures var o := ExcludeSender(c, s, key, reason, evidence, now); KeepsChain(c, s, o) && FutureEmpty(o.state)
  {
    hide RemoveVoter;
  }

  /** The message a call makes the node observe, once duplicates, signatures and subjects are checked. */
  function Observed(c: Config, s: NodeState, ev: Event): Option<Message> {
    match ev
    case Deliver(e, _) =>
      var key := KeyOf(e.envelope.message);
      if s.IsExcluded(key.height, key.round, key.from) || key in s.seen || !c.crypto.verifies(e) then None
      else ObservedEnvelope(c, e.envelope)
    case DeliverUnsigned(e, _) => ObservedEnvelope(c, e)
    case _ => None
  }

  function ObservedEnvelope(c: Config, e: Envelope): Option<Message> {
    if e.subject == c.crypto.roundSubject(e.message.height, e.message.round) then Some(e.message) else None
  }

  /** The guard of a lost commit, read off the state before the call. */
  predicate Swallows(c: Config, s: NodeState, ev: Event)
    requires c.Valid()
  {
    Observed(c, s, ev).Some? && SwallowedBy(c, s, Observed(c, s, ev).value)
  }

  /** A call that swallows no commit keeps the chain. */
  lemma NextKeepsUnless(c: Config, s: NodeState, ev: Event)
    requires c.Valid() && FutureEmpty(s) && !Swallows(c, s, ev)
    ensures KeepsChain(c, s, Next(c, s, ev)) && FutureEmpty(Next(c, s, ev).state)
  {
    hide ObserveMessage, EmitProposalIfLeader, AdvanceRound, ExcludeSender;
    match ev
    case Deliver(e, now) =>
      var key := KeyOf(e.envelope.message);
      if key in s.seen {
        ExcludeKeeps(c, s, key, Equivocation,
                     [c.crypto.messageHash(s.seen[key]), c.crypto.messageHash(e)], now);
      }
      ExcludeKeeps(c, s, key, InvalidSignature, [c.crypto.messageHash(e)], now);
      if Observed(c, s, ev).Some? { ObserveKeeps(c, s.(seen := s.seen[key := e]), e.envelope.message, now); }
    case DeliverUnsigned(e, now) =>
      if Observed(c, s, ev).Some? { ObserveKeeps(c, s, e.message, now); }
    case Queue(proposal, now) => EmitProposalKeeps(c, s.(pending := Some(proposal)), now);
    case Timer(now) => AdvanceCommitsExactly(c, s, s.round + 1, now);
  }

  lemma NextSwallows(c: Config, s: NodeState, ev: Event)
    requires c.Valid() && FutureEmpty(s) && Swallows(c, s, ev)
    ensures Next(c, s, ev).state.height == s.height + |Next(c, s, ev).Commits()| + 1
  {
    hide ObserveMessage, ExcludeSender;
    match ev
    case Deliver(e, now) =>
      ObserveSwallows(c, s.(seen := s.seen[KeyOf(e.envelope.message) := e]), e.envelope.message, now);
    case DeliverUnsigned(e, now) => ObserveSwallows(c, s, e.message, now);
  }

  lemma NextKeeps(c: Config, s: NodeState, ev: Event)
    requires c.Valid() && c.committee.maxFaulty >= 1 && FutureEmpty(s)
    ensures KeepsChain(c, s, Next(c, s, ev)) && FutureEmpty(Next(c, s, ev).state)
  {
    hide Next;
    NextKeepsUnless(c, s, ev);
  }

  /** In any state a call moves up at least as many heights as it reports commits. */
  lemma NextClimbs(c: Config, s: NodeState, ev: Event)
    requires c.Valid()
    ensures Next(c, s, ev).state.height >= s.height + |Next(c, s, ev).Commits()|
  {
    hide ObserveMessage, EmitProposalIfLeader, WithoutVoter;
    match ev
    case Deliver(e, now) =>
      ObserveClimbs(c, s.(seen := s.seen[KeyOf(e.envelope.message) := e]), e.envelope.message, now);
    case DeliverUnsigned(e, now) => ObserveClimbs(c, s, e.message, now);
    case Queue(proposal, now) => EmitProposalKeeps(c, s.(pending := Some(proposal)), now);
    case Timer(now) => EmitProposalKeeps(c, s.(round := s.round + 1, step := AtPropose, roundStartedAt := now), now);
  }

  lemma ObserveClimbs(c: Config, s: NodeState, m: Message, now: int)
    requires c.Valid()
    ensures ObserveMessage(c, s, m, now).state.height >= s.height + |ObserveMessage(c, s, m, now).Commits()|
  {
    hide ObserveBody, EmitProposalIfLeader;
    EmitProposalKeeps(c, s.(round := m.round, step := AtPropose, roundStartedAt := now), now);
    ObserveBodyKeeps(c, AdvanceRound(c, s, m.round, now).state, m, now);
  }

  // -------------------------------------------------------------------------
  // What holds of every step, in any state

  /** Every reported commit has reached the threshold in both tallies, and the round clock moves only to
      the time of the step. */
  ghost predicate Orderly(c: Config, s: NodeState, now: int, o: Outcome) {
    && (o.state.roundStartedAt == s.roundStartedAt || o.state.roundStartedAt == now)
    && forall commit | commit in o.Commits() ::
         commit.prevoteTally >= c.committee.Threshold() && commit.precommitTally >= c.committee.Threshold()
  }

  lemma AdvanceOrderly(c: Config, s: NodeState, target: nat, now: int)
    requires c.Valid()
    ensures Orderly(c, s, now, AdvanceRound(c, s, target, now))
    ensures target > s.round && AdvanceRound(c, s, target, now).Commits() == []
            ==> AdvanceRound(c, s, target, now).state.round >= target
  {
    hide EmitProposalIfLeader;
    EmitProposalKeeps(c, s.(round := target, step := AtPropose, roundStartedAt := now), now);
  }

  lemma ObserveOrderly(c: Config, s: NodeState, m: Message, now: int)
    requires c.Valid()
    ensures Orderly(c, s, now, ObserveMessage(c, s, m, now))
  {
    hide AdvanceRound, ObserveBody;
    AdvanceOrderly(c, s, m.round, now);
    ObserveBodyKeeps(c, AdvanceRound(c, s, m.round, now).state, m, now);
  }

  lemma NextOrderly(c: Config, s: NodeState, ev: Event)
    requires c.Valid()
    ensures Orderly(c, s, ev.now, Next(c, s, ev))
  {
    hide ObserveMessage, EmitProposalIfLeader, AdvanceRound, WithoutVoter;
    match ev
    case Deliver(e, now) =>
      ObserveOrderly(c, s.(seen := s.seen[KeyOf(e.envelope.message) := e]), e.envelope.message, now);
    case DeliverUnsigned(e, now) => ObserveOrderly(c, s, e.message, now);
    case Queue(proposal, now) => EmitProposalKeeps(c, s.(pending := Some(proposal)), now);
    case Timer(now) => AdvanceOrderly(c, s, s.round + 1, now);
  }

  // -------------------------------------------------------------------------
  // Runs

  datatype Trace = Trace(state: NodeState, commits: seq<CommitRecord>)

  /** The state after the events, and every commit reported on the way. */
  function Run(c: Config, s: NodeState, events: seq<Event>): Trace
    requires c.Valid()
  {
    if events == [] then Trace(s, [])
    else
      var before := Run(c, s, events[..|events| - 1]);
      var o := Next(c, before.state, events[|events| - 1]);
      Trace(o.state, before.commits + o.Commits())
  }

  /** The hash the commit at index `i` is chained to. */
  function PreviousOf(genesis: Hash, commits: seq<CommitRecord>, i: nat): Hash
    requires i <= |commits|
  {
    if i == 0 then genesis else commits[i - 1].hash
  }

  ghost predicate IsChain(c: Config, genesis: Hash, commits: seq<CommitRecord>) {
    forall i | 0 <= i < |commits| :: Links(c, i + 1, PreviousOf(genesis, commits, i), commits[i])
  }

  /** The node stands exactly where its reported commits, a chain from the start, lead. */
  ghost predicate Intact(c: Config, genesis: Hash, t: Trace) {
    && IsChain(c, genesis, t.commits)
    && t.state.height == |t.commits| + 1
    && t.state.previous == PreviousOf(genesis, t.commits, |t.commits|)
  }

  /** No message of the run met the guard in the state it reached. */
  ghost predicate NoneSwallowed(c: Config, s: NodeState, events: seq<Event>)
    requires c.Valid()
  {
    forall i | 0 <= i < |events| :: !Swallows(c, Run(c, s, events[..i]).state, events[i])
  }

  lemma ChainGrows(c: Config, genesis: Hash, t: Trace, o: Outcome)
    requires Intact(c, genesis, t) && KeepsChain(c, t.state, o)
    ensures Intact(c, genesis, Trace(o.state, t.commits + o.Commits()))
  {
    hide Links, IsChain;
    if o.Commits() == [] { assert t.commits + [] == t.commits; }
    else {
      assert o.Commits() == [o.Commits()[0]];
      ChainExtends(c, genesis, t.commits, o.Commits()[0]);
    }
  }

  lemma ChainExtends(c: Config, genesis: Hash, commits: seq<CommitRecord>, next: CommitRecord)
    requires IsChain(c, genesis, commits)
    requires Links(c, |commits| + 1, PreviousOf(genesis, commits, |commits|), next)
    ensures IsChain(c, genesis, commits + [next])
  {
    hide Links, PreviousOf;
    var all := commits + [next];
    forall i | 0 <= i < |all| ensures Links(c, i + 1, PreviousOf(genesis, all, i), all[i]) {
      SamePrevious(genesis, commits, next, i);
    }
  }

  lemma SamePrevious(genesis: Hash, commits: seq<CommitRecord>, next: CommitRecord, i: nat)
    requires i <= |commits|
    ensures PreviousOf(genesis, commits + [next], i) == PreviousOf(genesis, commits, i)
  {
  }

  lemma {:induction false} UnswallowedRun(c: Config, genesis: Hash, startedAt: int, events: seq<Event>)
    requires c.Valid() && NoneSwallowed(c, InitialState(genesis, startedAt), events)
    ensures var t := Run(c, InitialState(genesis, startedAt), events); Intact(c, genesis, t) && FutureEmpty(t.state)
  {
    hide Next, Intact, Swallows, FutureEmpty, NoneSwallowed;
    var s0 := InitialState(genesis, startedAt);
    NoneSwallowedStep(c, s0, events);
    if events == [] { StartsIntact(c, genesis, startedAt); }
    else {
      var n := |events| - 1;
      UnswallowedRun(c, genesis, startedAt, events[..n]);
      var before := Run(c, s0, events[..n]);
      NextKeepsUnless(c, before.state, events[n]);
      ChainGrows(c, genesis, before, Next(c, before.state, events[n]));
    }
  }

  lemma StartsIntact(c: Config, genesis: Hash, startedAt: int)
    ensures Intact(c, genesis, Trace(InitialState(genesis, startedAt), []))
    ensures FutureEmpty(InitialState(genesis, startedAt))
  {
  }

  lemma NoneSwallowedStep(c: Config, s: NodeState, events: seq<Event>)
    requires c.Valid()
    ensures events == [] ==> NoneSwallowed(c, s, events)
    ensures events != [] ==>
              var n := |events| - 1;
              NoneSwallowed(c, s, events)
              <==> NoneSwallowed(c, s, events[..n]) && !Swallows(c, Run(c, s, events[..n]).state, events[n])
  {
    hide Swallows, Run;
    if events != [] {
      var n := |events| - 1;
      var front := events[..n];
      assert forall i | 0 <= i < n :: front[..i] == events[..i] && front[i] == events[i];
    }
  }

  /** The gap a swallowed commit leaves never closes. */
  lemma {:induction false} SwallowedRun(c: Config, genesis: Hash, startedAt: int, events: seq<Event>)
    requires c.Valid() && !NoneSwallowed(c, InitialState(genesis, startedAt), events)
    ensures var t := Run(c, InitialState(genesis, startedAt), events); t.state.height > |t.commits| + 1
  {
    hide Next, Swallows, IsChain, FutureEmpty, NoneSwallowed;
    var s0, n := InitialState(genesis, startedAt), |events| - 1;
    NoneSwallowedStep(c, s0, events);
    var front := events[..n];
    var before := Run(c, s0, front);
    if NoneSwallowed(c, s0, front) {
      UnswallowedRun(c, genesis, startedAt, front);
      NextSwallows(c, before.state, events[n]);
    } else {
      SwallowedRun(c, genesis, startedAt, front);
      NextClimbs(c, before.state, events[n]);
    }
  }

  /**
   No commit is lost, exactly.  Over every run of a node, whatever its committee tolerates, the commits it
   reports have heights 1, 2, 3, ..., each hashed over the one before, and lead to where the node stands, if
   and only if no message met the guard of a lost commit in the state it reached.
   */
  lemma ChainIntactExactly(c: Config, genesis: Hash, startedAt: int, events: seq<Event>)
    requires c.Valid()
    ensures Intact(c, genesis, Run(c, InitialState(genesis, startedAt), events))
            <==> NoneSwallowed(c, InitialState(genesis, startedAt), events)
  {
    hide Run, NoneSwallowed, IsChain;
    if NoneSwallowed(c, InitialState(genesis, startedAt), events) { UnswallowedRun(c, genesis, startedAt, events); }
    else { SwallowedRun(c, genesis, startedAt, events); }
  }

  /** A node that has lost nothing loses a commit to the next call if and only if the call meets the guard. */
  lemma LostCommitExactly(c: Config, genesis: Hash, startedAt: int, events: seq<Event>, ev: Event)
    requires c.Valid() && Intact(c, genesis, Run(c, InitialState(genesis, startedAt), events))
    ensures Intact(c, genesis, Run(c, InitialState(genesis, startedAt), events + [ev]))
            <==> !Swallows(c, Run(c, InitialState(genesis, startedAt), events).state, ev)
  {
    hide Run, Swallows, Intact, NoneSwallowed;
    var s0, all := InitialState(genesis, startedAt), events + [ev];
    ChainIntactExactly(c, genesis, startedAt, events);
    ChainIntactExactly(c, genesis, startedAt, all);
    NoneSwallowedStep(c, s0, all);
    assert all[..|events|] == events;
  }

  lemma CommitsFormAChain(c: Config, genesis: Hash, startedAt: int, events: seq<Event>)
    requires c.Valid() && c.committee.maxFaulty >= 1
    ensures var t := Run(c, InitialState(genesis, startedAt), events); Intact(c, genesis, t) && FutureEmpty(t.state)
  {
    hide Run, Intact;
    UnswallowedRun(c, genesis, startedAt, events);
  }

  // -------------------------------------------------------------------------
  // Rounds last their timeout

  predicate SameRound(s: NodeState, t: NodeState) { t.height == s.height && t.round == s.round }

  /** The step never goes back to an earlier height or round, and the round clock shows when the node last entered
      another one. */
  ghost predicate Clocked(s: NodeState, now: int, t: NodeState) {
    && (t.height > s.height || (t.height == s.height && t.round >= s.round))
    && t.roundStartedAt == if SameRound(s, t) then s.roundStartedAt else now
  }

  lemma KeepsClocked(c: Config, s: NodeState, round: nat, now: int, o: Outcome)
    requires Keeps(c, s, round, now, o)
    ensures Clocked(s, now, o.state)
  {
    hide FutureEmpty, Links;
  }

  lemma AdvanceClocked(c: Config, s: NodeState, target: nat, now: int)
    requires c.Valid()
    ensures var o := AdvanceRound(c, s, target, now);
            && Clocked(s, now, o.state) && (target > s.round <==> !SameRound(s, o.state))
            && (target > s.round && o.state.height == s.height ==> o.state.round == target)
  {
    hide EmitProposalIfLeader;
    EmitProposalKeeps(c, s.(round := target, step := AtPropose, roundStartedAt := now), now);
  }

  lemma ObserveClocked(c: Config, s: NodeState, m: Message, now: int)
    requires c.Valid()
    ensures Clocked(s, now, ObserveMessage(c, s, m, now).state)
  {
    hide AdvanceRound, ObserveBody;
    AdvanceClocked(c, s, m.round, now);
    var s1 := AdvanceRound(c, s, m.round, now).state;
    ObserveBodyKeeps(c, s1, m, now);
    KeepsClocked(c, s1, m.round, now, ObserveBody(c, s1, m, now));
  }

  lemma NextClocked(c: Config, s: NodeState, ev: Event)
    requires c.Valid()
    ensures Clocked(s, ev.now, Next(c, s, ev).state)
  {
    hide ObserveMessage, EmitProposalIfLeader, AdvanceRound, WithoutVoter;
    match ev
    case Deliver(e, now) =>
      ObserveClocked(c, s.(seen := s.seen[KeyOf(e.envelope.message) := e]), e.envelope.message, now);
    case DeliverUnsigned(e, now) => ObserveClocked(c, s, e.message, now);
    case Queue(proposal, now) =>
      var s1 := s.(pending := Some(proposal));
      EmitProposalKeeps(c, s1, now);
      KeepsClocked(c, s1, s.round, now, EmitProposalIfLeader(c, s1, now));
    case Timer(now) => AdvanceClocked(c, s, s.round + 1, now);
  }

  /** The time of the last call that led the node into another round or height. */
  function LastStart(c: Config, genesis: Hash, startedAt: int, events: seq<Event>): int
    requires c.Valid()
  {
    if events == [] then startedAt
    else
      var n, s0 := |events| - 1, InitialState(genesis, startedAt);
      if SameRound(Run(c, s0, events[..n]).state, Run(c, s0, events).state)
      then LastStart(c, genesis, startedAt, events[..n]) else events[n].now
  }

  lemma {:induction false} ClockIsLastStart(c: Config, genesis: Hash, startedAt: int, events: seq<Event>)
    requires c.Valid()
    ensures Run(c, InitialState(genesis, startedAt), events).state.roundStartedAt
            == LastStart(c, genesis, startedAt, events)
  {
    hide Next;
    if events != [] {
      var n := |events| - 1;
      ClockIsLastStart(c, genesis, startedAt, events[..n]);
      NextClocked(c, Run(c, InitialState(genesis, startedAt), events[..n]).state, events[n]);
    }
  }

  /**
   A round lasts its timeout, exactly.  After every run, a timer leads the node out of its round if and only if the
   timeout has passed since the call that led the node into it; a timer that comes earlier does and reports nothing,
   and one that does not makes the node commit leads it to the next round.
   */
  lemma RoundLastsTimeout(c: Config, genesis: Hash, startedAt: int, events: seq<Event>, now: int)
    requires c.Valid()
    ensures var s := Run(c, InitialState(genesis, startedAt), events).state;
            var o, due := Next(c, s, Timer(now)), now - LastStart(c, genesis, startedAt, events) >= c.roundTimeout;
            && (!SameRound(s, o.state) <==> due)
            && (!due ==> o == Idle(s))
            && (due && o.state.height == s.height ==> o.state.round == s.round + 1)
  {
    hide Run, LastStart, AdvanceRound;
    var s := Run(c, InitialState(genesis, startedAt), events).state;
    ClockIsLastStart(c, genesis, startedAt, events);
    AdvanceClocked(c, s, s.round + 1, now);
  }

  // -------------------------------------------------------------------------
  // A run that loses a commit

  /** Where no fault is tolerated, a node that does not lead round 0 but leads a later one loses the proposal it
      queued to any message of that round. */
  lemma FollowerLoses(c: Config, genesis: Hash, startedAt: int, p: Proposal, m: Message, now: int)
    requires c.Valid() && c.committee.maxFaulty == 0
    requires c.ProposerFor(genesis, 0) != c.local && c.ProposerFor(genesis, m.round) == c.local
    requires m.from in c.committee.members && m.height == 1 && m.previous == genesis && m.round > 0
    ensures var ev := DeliverUnsigned(Envelope(c.crypto.roundSubject(1, m.round), m), now);
            var t := Run(c, InitialState(genesis, startedAt), [Queue(p, now), ev]);
            t.state.height > |t.commits| + 1 && !Intact(c, genesis, t)
  {
    hide Next, IsChain;
    var s0, queue := InitialState(genesis, startedAt), Queue(p, now);
    var ev := DeliverUnsigned(Envelope(c.crypto.roundSubject(1, m.round), m), now);
    var events := [queue, ev];
    assert events[..1] == [queue] && [queue][..0] == [];
    assert Run(c, s0, []) == Trace(s0, []);
    assert Run(c, s0, [queue]).state == Next(c, s0, queue).state;
    QueueFollows(c, s0, p, now);
    assert Swallows(c, Run(c, s0, events[..1]).state, events[1]);
    SwallowedRun(c, genesis, startedAt, events);
  }

  lemma QueueFollows(c: Config, s: NodeState, p: Proposal, now: int)
    requires c.Valid() && c.ProposerFor(s.previous, s.round) != c.local
    ensures Next(c, s, Queue(p, now)) == Idle(s.(pending := Some(p)))
  {
    hide ObserveLocalProposal;
  }

  /** A committee of two whose second member leads round 0 and whose first leads every later round. */
  function PairOfTwo(): Config {
    Config(0, true, Committee([0, 1], 0), 1,
           Crypto((h, r: nat, a: nat) => if (r == 0) == (a == 1) then 1 else 0, (h, r, e, x) => e + "+", e => "",
                  e => true, (a, e) => "", (h, r) => ""))
  }

  /** Queueing a proposal and then hearing a prevote of round 1 moves the first member to height 2 with nothing
      reported. */
  lemma PairLosesCommit()
    ensures var c := PairOfTwo();
            var vote := Message(1, 1, "genesis", 1, 0, Vote(Prevote, None));
            && c.Valid()
            && var t := Run(c, InitialState("genesis", 0), [Queue(Proposal("p", ""), 0),
                                                            DeliverUnsigned(Envelope("", vote), 0)]);
               t.state.height > |t.commits| + 1 && !Intact(c, "genesis", t)
  {
    hide Run, Intact;
    var c := PairOfTwo();
    assert c.committee.members[0] == 0 && c.committee.members[1] == 1;
    assert c.ProposerFor("genesis", 0) == 1 && c.ProposerFor("genesis", 1) == 0;
    FollowerLoses(c, "genesis", 0, Proposal("p", ""), Message(1, 1, "genesis", 1, 0, Vote(Prevote, None)), 0);
  }
}
