/**
 What the tallies of a commit count, in every committee and whatever is delivered: distinct members, each of
 them the node itself or the sender of a vote that was handed to the node.  As long as no commit is lost, each
 such vote is for the height of the commit and the hash it extends.
 */
module HeardVotes {
  import opened Wrappers
  import opened ConsensusModel
  import opened CommitChain
  import opened VoteProvenance

  /** What is known of where in the chain a vote was cast. */
  datatype Place = Anywhere | At(height: nat, previous: Hash) {
    predicate Holds(m: Message) { At? ==> m.height == height && m.previous == previous }
  }

  function PlaceOf(s: NodeState, exact: bool): Place { if exact then At(s.height, s.previous) else Anywhere }

  /** The vote is the node's own, or one of the messages heard. */
  ghost predicate HeardVote(
    c: Config, heard: set<Message>, place: Place, phase: Phase, round: nat, voter: AgentId, choice: Choice)
  {
    || voter == c.local
    || exists m ::
         m in heard && m.from == voter && m.round == round && m.body == Vote(phase, choice) && place.Holds(m)
  }

  ghost predicate LedgerHeard(c: Config, heard: set<Message>, place: Place, phase: Phase, round: nat, l: Ledger) {
    LedgerOk(c, l) && forall a | a in l.byAgent :: HeardVote(c, heard, place, phase, round, a, l.byAgent[a])
  }

  ghost predicate LedgersHeard(c: Config, heard: set<Message>, place: Place, phase: Phase, ledgers: map<nat, Ledger>) {
    forall r | r in ledgers :: LedgerHeard(c, heard, place, phase, r, ledgers[r])
  }

  ghost predicate AllHeard(c: Config, heard: set<Message>, s: NodeState, exact: bool) {
    && LedgersHeard(c, heard, PlaceOf(s, exact), Prevote, s.prevotes)
    && LedgersHeard(c, heard, PlaceOf(s, exact), Precommit, s.precommits)
  }

  /** `voters` are members that voted `choice`. */
  ghost predicate AreVoters(
    c: Config, heard: set<Message>, place: Place, phase: Phase, round: nat, choice: Choice, voters: set<AgentId>)
  {
    forall a | a in voters :: a in c.committee.members && HeardVote(c, heard, place, phase, round, a, choice)
  }

  /** Each tally is the number of distinct members whose votes were heard, at least a quorum. */
  ghost predicate Tallied(c: Config, heard: set<Message>, place: Place, commit: CommitRecord) {
    exists prevoters, precommitters ::
      && |prevoters| == commit.prevoteTally >= c.committee.Threshold()
      && |precommitters| == commit.precommitTally >= c.committee.Threshold()
      && AreVoters(c, heard, place, Prevote, commit.round, Some(commit.proposal.id), prevoters)
      && AreVoters(c, heard, place, Precommit, commit.round, Some(commit.proposal.id), precommitters)
  }

  ghost predicate KeepsHeard(c: Config, heard: set<Message>, s: NodeState, exact: bool, o: Outcome) {
    && AllHeard(c, heard, o.state, exact)
    && forall commit | commit in o.Commits() :: Tallied(c, heard, PlaceOf(s, exact), commit)
  }

  // -------------------------------------------------------------------------
  // Ledgers

  lemma RecordHeard(
    c: Config, heard: set<Message>, place: Place, phase: Phase, ledgers: map<nat, Ledger>, round: nat, voter: AgentId,
    choice: Choice)
    requires LedgersHeard(c, heard, place, phase, ledgers) && voter in c.committee.members
    requires HeardVote(c, heard, place, phase, round, voter, choice)
    ensures LedgersHeard(c, heard, place, phase, ledgers[round := RecordVote(LedgerAt(ledgers, round), voter,
                                                                             choice).ledger])
  {
    hide LedgerOk, HeardVote, RecordVote;
    var l := LedgerAt(ledgers, round);
    EmptyLedgerOk(c);
    assert LedgerHeard(c, heard, place, phase, round, l);
    RecordedHeard(c, heard, place, phase, round, l, voter, choice);
  }

  lemma RecordedHeard(
    c: Config, heard: set<Message>, place: Place, phase: Phase, round: nat, l: Ledger, voter: AgentId, choice: Choice)
    requires LedgerHeard(c, heard, place, phase, round, l) && voter in c.committee.members
    requires HeardVote(c, heard, place, phase, round, voter, choice)
    ensures LedgerHeard(c, heard, place, phase, round, RecordVote(l, voter, choice).ledger)
  {
    hide LedgerOk, HeardVote;
    if voter in l.byAgent && l.byAgent[voter] != choice { SameLedger(l, voter, choice); }
    else { RecordVoteOk(c, l, voter, choice); }
  }

  lemma SameLedger(l: Ledger, voter: AgentId, choice: Choice)
    requires voter in l.byAgent && l.byAgent[voter] != choice
    ensures RecordVote(l, voter, choice).ledger == l
  {
  }

  lemma WithoutHeard(
    c: Config, heard: set<Message>, place: Place, phase: Phase, ledgers: map<nat, Ledger>, round: nat, agent: AgentId)
    requires LedgersHeard(c, heard, place, phase, ledgers)
    ensures LedgersHeard(c, heard, place, phase, WithoutVoter(ledgers, round, agent))
  {
    hide LedgerOk, RemoveVoter, HeardVote;
    if round in ledgers {
      assert LedgerHeard(c, heard, place, phase, round, ledgers[round]);
      RemoveVoterOk(c, ledgers[round], agent);
    }
  }

  lemma VotersHeard(
    c: Config, heard: set<Message>, place: Place, phase: Phase, ledgers: map<nat, Ledger>, round: nat, choice: Choice)
    requires LedgersHeard(c, heard, place, phase, ledgers)
    ensures var l := LedgerAt(ledgers, round);
            |l.VotersFor(choice)|
              == l.Count(choice) && AreVoters(c, heard, place, phase, round, choice, l.VotersFor(choice))
  {
    hide HeardVote;
    var l := LedgerAt(ledgers, round);
    assert round in ledgers ==> LedgerHeard(c, heard, place, phase, round, l);
    forall a | a in l.VotersFor(choice)
      ensures a in c.committee.members && HeardVote(c, heard, place, phase, round, a, choice)
    {
      assert a in l.byAgent && l.byAgent[a] == choice;
    }
  }

  // -------------------------------------------------------------------------
  // Steps

  lemma CommitHeard(c: Config, heard: set<Message>, s: NodeState, exact: bool, round: nat, choice: Choice, now: int)
    requires AllHeard(c, heard, s, exact)
    ensures KeepsHeard(c, heard, s, exact, Commit(c, s, round, choice, now))
  {
    hide LedgerHeard, AreVoters;
    VotersHeard(c, heard, PlaceOf(s, exact), Prevote, s.prevotes, round, choice);
    VotersHeard(c, heard, PlaceOf(s, exact), Precommit, s.precommits, round, choice);
  }

  lemma EmitPrecommitHeard(
    c: Config, heard: set<Message>, s: NodeState, exact: bool, round: nat, choice: Choice, now: int)
    requires c.Valid() && AllHeard(c, heard, s, exact)
    ensures KeepsHeard(c, heard, s, exact, EmitPrecommit(c, s, round, choice, now))
  {
    hide Commit, RecordVote, LedgersHeard, Tallied;
    RecordHeard(c, heard, PlaceOf(s, exact), Precommit, s.precommits, round, c.local, choice);
    var vote := RecordVote(LedgerAt(s.precommits, round), c.local, choice);
    var s1 := s.(emittedPrecommits := s.emittedPrecommits + {round}, step := AtPrecommit,
                 precommits := s.precommits[round := vote.ledger]);
    CommitHeard(c, heard, s1, exact, round, choice, now);
  }

  lemma EmitPrevoteHeard(
    c: Config, heard: set<Message>, s: NodeState, exact: bool, round: nat, choice: Choice, now: int)
    requires c.Valid() && AllHeard(c, heard, s, exact)
    ensures KeepsHeard(c, heard, s, exact, EmitPrevote(c, s, round, choice, now))
  {
    hide EmitPrecommit, RecordVote, LedgersHeard, Tallied;
    RecordHeard(c, heard, PlaceOf(s, exact), Prevote, s.prevotes, round, c.local, choice);
    var vote := RecordVote(LedgerAt(s.prevotes, round), c.local, choice);
    var s1 := s.(emittedPrevotes := s.emittedPrevotes + {round}, step := AtPrevote,
                 prevotes := s.prevotes[round := vote.ledger]);
    EmitPrecommitHeard(c, heard, s1, exact, round, choice, now);
  }

  lemma EmitProposalHeard(c: Config, heard: set<Message>, s: NodeState, exact: bool, now: int)
    requires c.Valid() && AllHeard(c, heard, s, exact)
    ensures KeepsHeard(c, heard, s, exact, EmitProposalIfLeader(c, s, now))
  {
    hide EmitPrevote, LedgersHeard, Tallied;
    if s.pending.Some? {
      var recorded := RecordProposal(c, s, c.local, s.round, s.pending.value);
      EmitPrevoteHeard(c, heard, recorded.state, exact, s.round, Some(s.pending.value.id), now);
    }
  }

  lemma ObserveBodyHeard(c: Config, heard: set<Message>, s: NodeState, exact: bool, m: Message, now: int)
    requires c.Valid() && AllHeard(c, heard, s, exact)
    requires m in heard && m.from in c.committee.members && PlaceOf(s, exact).Holds(m)
    ensures KeepsHeard(c, heard, s, exact, ObserveBody(c, s, m, now))
  {
    hide EmitPrevote, EmitPrecommit, Commit, RecordVote, LedgersHeard, Tallied;
    match m.body
    case Propose(proposal) =>
      var recorded := RecordProposal(c, s, m.from, m.round, proposal);
      EmitPrevoteHeard(c, heard, recorded.state, exact, m.round, Some(proposal.id), now);
    case Vote(Prevote, choice) =>
      RecordHeard(c, heard, PlaceOf(s, exact), Prevote, s.prevotes, m.round, m.from, choice);
      var vote := RecordVote(LedgerAt(s.prevotes, m.round), m.from, choice);
      EmitPrecommitHeard(c, heard, s.(prevotes := s.prevotes[m.round := vote.ledger]), exact, m.round, choice, now);
    case Vote(Precommit, choice) =>
      RecordHeard(c, heard, PlaceOf(s, exact), Precommit, s.precommits, m.round, m.from, choice);
      var vote := RecordVote(LedgerAt(s.precommits, m.round), m.from, choice);
      CommitHeard(c, heard, s.(precommits := s.precommits[m.round := vote.ledger]), exact, m.round, choice, now);
  }

  lemma AdvanceHeard(c: Config, heard: set<Message>, s: NodeState, exact: bool, target: nat, now: int)
    requires c.Valid() && AllHeard(c, heard, s, exact)
    ensures KeepsHeard(c, heard, s, exact, AdvanceRound(c, s, target, now))
  {
    hide EmitProposalIfLeader, LedgersHeard, Tallied;
    EmitProposalHeard(c, heard, s.(round := target, step := AtPropose, roundStartedAt := now), exact, now);
  }

  /** Catching up keeps the place of a node that loses no commit to it. */
  lemma CatchUpStays(c: Config, s: NodeState, m: Message, now: int)
    requires c.Valid() && FutureEmpty(s) && !SwallowedBy(c, s, m)
    requires m.from in c.committee.members && m.height == s.height && m.previous == s.previous
    ensures var t := AdvanceRound(c, s, m.round, now).state; t.height == s.height && t.previous == s.previous
  {
    hide EmitProposalIfLeader;
    if m.round > s.round { AdvanceCommitsExactly(c, s, m.round, now); }
  }

  lemma ObserveHeard(c: Config, heard: set<Message>, s: NodeState, exact: bool, m: Message, now: int)
    requires c.Valid() && AllHeard(c, heard, s, exact) && m in heard
    requires exact ==> FutureEmpty(s) && !SwallowedBy(c, s, m)
    ensures KeepsHeard(c, heard, s, exact, ObserveMessage(c, s, m, now))
  {
    hide AdvanceRound, ObserveBody, LedgersHeard, Tallied, FutureEmpty;
    if m.from in c.committee.members && m.height == s.height && m.previous == s.previous {
      AdvanceHeard(c, heard, s, exact, m.round, now);
      if exact { CatchUpStays(c, s, m, now); }
      ObserveBodyHeard(c, heard, AdvanceRound(c, s, m.round, now).state, exact, m, now);
    }
  }

  lemma ExcludeHeard(
    c: Config, heard: set<Message>, s: NodeState, exact: bool, key: MessageKey, reason: ExclusionReason,
    evidence: seq<Hash>, now: int)
    requires c.Valid() && AllHeard(c, heard, s, exact)
    ensures KeepsHeard(c, heard, s, exact, ExcludeSender(c, s, key, reason, evidence, now))
  {
    hide WithoutVoter, LedgersHeard, Tallied;
    WithoutHeard(c, heard, PlaceOf(s, exact), Prevote, s.prevotes, key.round, key.from);
    WithoutHeard(c, heard, PlaceOf(s, exact), Precommit, s.precommits, key.round, key.from);
  }

  /** The message a call makes the node hear: an unsigned one, or one whose signature verifies. */
  function HeardOf(c: Config, ev: Event): set<Message> {
    match ev
    case Deliver(e, _) => if c.crypto.verifies(e) then {e.envelope.message} else {}
    case DeliverUnsigned(e, _) => {e.message}
    case _ => {}
  }

  lemma HearMore(c: Config, heard: set<Message>, more: set<Message>, s: NodeState, exact: bool)
    requires AllHeard(c, heard, s, exact)
    ensures AllHeard(c, heard + more, s, exact)
  {
    hide LedgerOk;
    var place := PlaceOf(s, exact);
    forall phase, r | r in s.Ledgers(phase) ensures LedgerHeard(c, heard + more, place, phase, r, s.Ledgers(phase)[r]) {
      assert LedgerHeard(c, heard, place, phase, r, s.Ledgers(phase)[r]);
      forall a | a in s.Ledgers(phase)[r].byAgent
        ensures HeardVote(c, heard + more, place, phase, r, a, s.Ledgers(phase)[r].byAgent[a])
      {
        assert HeardVote(c, heard, place, phase, r, a, s.Ledgers(phase)[r].byAgent[a]);
      }
    }
  }

  /** Every call, in every committee and in every state with heard votes, keeps them heard; and every commit it
      reports is tallied from members whose votes were heard.  If the votes were known to be for the node's height
      and hash and the call loses no commit, both stay so. */
  lemma NextHeard(c: Config, heard: set<Message>, s: NodeState, exact: bool, ev: Event)
    requires c.Valid() && AllHeard(c, heard, s, exact)
    requires exact ==> FutureEmpty(s) && !Swallows(c, s, ev)
    ensures KeepsHeard(c, heard + HeardOf(c, ev), s, exact, Next(c, s, ev))
  {
    hide ObserveMessage, EmitProposalIfLeader, AdvanceRound, ExcludeSender, LedgersHeard, Tallied;
    var all := heard + HeardOf(c, ev);
    HearMore(c, heard, HeardOf(c, ev), s, exact);
    match ev
    case Deliver(e, now) =>
      var key := KeyOf(e.envelope.message);
      if key in s.seen {
        ExcludeHeard(c, all, s, exact, key, Equivocation,
                     [c.crypto.messageHash(s.seen[key]), c.crypto.messageHash(e)], now);
      }
      ExcludeHeard(c, all, s, exact, key, InvalidSignature, [c.crypto.messageHash(e)], now);
      if Observed(c, s, ev).Some? {
        ObserveHeard(c, all, s.(seen := s.seen[key := e]), exact, e.envelope.message, now);
      }
    case DeliverUnsigned(e, now) =>
      if Observed(c, s, ev).Some? { ObserveHeard(c, all, s, exact, e.message, now); }
    case Queue(proposal, now) => EmitProposalHeard(c, all, s.(pending := Some(proposal)), exact, now);
    case Timer(now) => AdvanceHeard(c, all, s, exact, s.round + 1, now);
  }

  // -------------------------------------------------------------------------
  // Runs

  /** Everything a node hears over a run. */
  ghost function HeardDuring(c: Config, events: seq<Event>): set<Message> {
    if events == [] then {}
    else HeardDuring(c, events[..|events| - 1]) + HeardOf(c, events[|events| - 1])
  }

  /** Where the votes behind the commit at index `i` were cast. */
  function CommitPlace(genesis: Hash, commits: seq<CommitRecord>, i: nat, exact: bool): Place
    requires i <= |commits|
  {
    if exact then At(i + 1, PreviousOf(genesis, commits, i)) else Anywhere
  }

  ghost predicate AllTallied(
    c: Config, heard: set<Message>, genesis: Hash, commits: seq<CommitRecord>, exact: bool) {
    forall i | 0 <= i < |commits| :: Tallied(c, heard, CommitPlace(genesis, commits, i, exact), commits[i])
  }

  /**
   Over every run both tallies of every commit count distinct members, each of them the node itself or the sender of
   a vote it heard for that round and proposal; and for that height and previous hash too, unless a commit was lost.
   */
  lemma {:induction false} RunHeard(c: Config, genesis: Hash, startedAt: int, events: seq<Event>, exact: bool)
    requires c.Valid() && (exact ==> NoneSwallowed(c, InitialState(genesis, startedAt), events))
    ensures var t, heard := Run(c, InitialState(genesis, startedAt), events), HeardDuring(c, events);
            AllHeard(c, heard, t.state, exact) && AllTallied(c, heard, genesis, t.commits, exact)
  {
    hide Next, AllHeard, Tallied, NoneSwallowed, FutureEmpty, Swallows, IsChain;
    var s0 := InitialState(genesis, startedAt);
    NoneSwallowedStep(c, s0, events);
    if events == [] { NothingHeard(c, genesis, startedAt, exact); }
    else {
      var front, last := events[..|events| - 1], events[|events| - 1];
      RunHeard(c, genesis, startedAt, front, exact);
      var before, heard := Run(c, s0, front), HeardDuring(c, front);
      if exact {
        UnswallowedRun(c, genesis, startedAt, front);
        NextKeepsUnless(c, before.state, last);
      }
      NextHeard(c, heard, before.state, exact, last);
      TalliedGrow(c, heard, HeardOf(c, last), genesis, before, exact, Next(c, before.state, last));
    }
  }

  /** The commits of one more call join those of a run. */
  lemma TalliedGrow(
    c: Config, heard: set<Message>, more: set<Message>, genesis: Hash, t: Trace, exact: bool, o: Outcome)
    requires AllTallied(c, heard, genesis, t.commits, exact)
    requires KeepsHeard(c, heard + more, t.state, exact, o)
    requires exact ==> Intact(c, genesis, t) && KeepsChain(c, t.state, o)
    ensures AllTallied(c, heard + more, genesis, t.commits + o.Commits(), exact)
  {
    hide AllHeard, Tallied, IsChain, Links, PreviousOf;
    var all := t.commits + o.Commits();
    forall i | 0 <= i < |all| ensures Tallied(c, heard + more, CommitPlace(genesis, all, i, exact), all[i]) {
      SamePlace(genesis, t.commits, o.Commits(), i, exact);
      if i < |t.commits| {
        StaysTallied(c, heard, more, CommitPlace(genesis, t.commits, i, exact), t.commits[i]);
      } else {
        assert all[i] in o.Commits();
      }
    }
  }

  /** What is known of a commit does not depend on later ones. */
  lemma SamePlace(genesis: Hash, commits: seq<CommitRecord>, more: seq<CommitRecord>, i: nat, exact: bool)
    requires i < |commits + more|
    ensures i <= |commits| ==> CommitPlace(genesis, commits + more, i, exact) == CommitPlace(genesis, commits, i, exact)
    ensures i < |commits| ==> (commits + more)[i] == commits[i]
  {
  }

  lemma NothingHeard(c: Config, previous: Hash, startedAt: int, exact: bool)
    ensures AllHeard(c, {}, InitialState(previous, startedAt), exact)
  {
  }

  lemma StaysTallied(c: Config, heard: set<Message>, more: set<Message>, place: Place, commit: CommitRecord)
    requires Tallied(c, heard, place, commit)
    ensures Tallied(c, heard + more, place, commit)
  {
    var choice := Some(commit.proposal.id);
    var p, q :|
      && |p| == commit.prevoteTally >= c.committee.Threshold()
      && |q| == commit.precommitTally >= c.committee.Threshold()
      && AreVoters(c, heard, place, Prevote, commit.round, choice, p)
      && AreVoters(c, heard, place, Precommit, commit.round, choice, q);
    forall a | a in p ensures HeardVote(c, heard + more, place, Prevote, commit.round, a, choice) {
      assert HeardVote(c, heard, place, Prevote, commit.round, a, choice);
    }
    forall a | a in q ensures HeardVote(c, heard + more, place, Precommit, commit.round, a, choice) {
      assert HeardVote(c, heard, place, Precommit, commit.round, a, choice);
    }
    assert AreVoters(c, heard + more, place, Prevote, commit.round, choice, p);
    assert AreVoters(c, heard + more, place, Precommit, commit.round, choice, q);
  }
}
