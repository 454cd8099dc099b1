/**
 What the driver publishes.  When it returns a commit it has published everything the node sent, in order, but for
 what the node sent on envelopes handed over together with the one that made it commit: that stays in the driver's
 queue and is dropped.  On which nodes this can happen is stated exactly.
 */
module UnpublishedVotes {
  import opened Wrappers
  import opened ConsensusModel
  import opened CommitChain
  import opened RoundSteps
  import opened DriveRounds
  import opened ReturnedCommits

  /** The events are those of the drive: the proposal queued, then what the transport handed over and timeouts. */
  ghost predicate DriveRun(c: Config, t: Transport, previous: Hash, p: Proposal, at: int, events: seq<Event>)
    requires c.Valid()
  {
    && events != [] && events[0] == Queue(p, at) && (forall i | 1 <= i < |events| :: FromTransport(t, events[i]))
    && Tale(c, t, InitialState(previous, at), {}, events, Drive(c, InitialState(previous, at), t, p, at))
  }

  /** The drive published everything the node sent, signed, in order. */
  ghost predicate PublishedAll(c: Config, t: Transport, previous: Hash, p: Proposal, at: int, events: seq<Event>)
    requires c.Valid()
  {
    Drive(c, InitialState(previous, at), t, p, at).log == SignAll(c, SentList(c, InitialState(previous, at), events))
  }

  /** On every transport that cannot forge, a drive that returns a commit has published everything. */
  ghost predicate AlwaysPublishes(c: Config, previous: Hash, p: Proposal, at: int)
    requires c.Valid()
  {
    forall t, events |
      && NoForgery(c, t, {}) && Drive(c, InitialState(previous, at), t, p, at).result.Ok?
      && DriveRun(c, t, previous, p, at, events) ::
      PublishedAll(c, t, previous, p, at, events)
  }

  lemma SameLength(c: Config, a: seq<Envelope>, b: seq<Envelope>)
    ensures SignAll(c, a + b) == SignAll(c, a) + SignAll(c, b) && |SignAll(c, a)| == |a|
  {
  }

  /** A drive that returns a commit published everything if and only if nothing was sent on the envelopes handed over
      with the committing one, before it. */
  lemma PublishedExactly(c: Config, t: Transport, previous: Hash, p: Proposal, at: int, events: seq<Event>)
    returns (n: nat, m: nat)
    requires c.Valid() && Drive(c, InitialState(previous, at), t, p, at).result.Ok?
    requires DriveRun(c, t, previous, p, at, events)
    ensures var sent := SentList(c, InitialState(previous, at), events);
            && m == |SentList(c, InitialState(previous, at), events[..|events| - 1])|
            && PublishedBut(c, sent, Drive(c, InitialState(previous, at), t, p, at).log, n, m)
            && (PublishedAll(c, t, previous, p, at, events) <==> n == m)
  {
    hide Drive, SentList, Story, EndsIn, SignAll, NoForgery;
    var s0 := InitialState(previous, at);
    var sent, d := SentList(c, s0, events), Drive(c, s0, t, p, at);
    m := |SentList(c, s0, events[..|events| - 1])|;
    assert PublishedUpTo(c, sent, d.log, m);
    n :| PublishedBut(c, sent, d.log, n, m);
    SameLength(c, sent[..n], sent[m..]);
    SameLength(c, sent, []);
    SameLength(c, sent[m..], []);
    if n == m { assert sent[..n] + sent[m..] == sent; }
  }

  // -------------------------------------------------------------------------
  // Where nothing is dropped

  lemma {:induction false} FirstCommitsStay(c: Config, s0: NodeState, events: seq<Event>)
    requires c.Valid() && events != []
    ensures Next(c, s0, events[0]).Commits() <= Run(c, s0, events).commits
    decreases |events|
  {
    hide Next;
    var front := events[..|events| - 1];
    if |events| == 1 {
      assert events == [events[0]];
      OnlyStep(c, s0, events[0]);
    } else {
      FirstCommitsStay(c, s0, front);
    }
  }

  /** A node without tolerance that leads round 0 commits, publishes and returns at once. */
  lemma LeaderPublishes(c: Config, previous: Hash, t: Transport, p: Proposal, at: int, events: seq<Event>)
    requires c.Valid() && c.committee.maxFaulty == 0 && c.ProposerFor(previous, 0) == c.local
    requires Drive(c, InitialState(previous, at), t, p, at).result.Ok? && DriveRun(c, t, previous, p, at, events)
    ensures PublishedAll(c, t, previous, p, at, events)
  {
    hide QueueProposal, Loop, Publish, Run, NoForgery, Next, SignAll, SentList, Story;
    var s0 := InitialState(previous, at);
    LeaderCommitsAtOnce(c, previous, p, at);
    NextIsQueue(c, s0, p, at);
    var front := events[..|events| - 1];
    assert front != [] ==> front[0] == events[0];
    if front != [] { FirstCommitsStay(c, s0, front); }
    assert events == [Queue(p, at)];
    SentOnce(c, s0, Queue(p, at));
    var o := QueueProposal(c, s0, p, at);
    PublishSigns(c, t, o.Outbound(), []);
    assert [] + SignAll(c, o.Outbound()) == SignAll(c, o.Outbound());
  }

  lemma SentOnce(c: Config, s0: NodeState, ev: Event)
    requires c.Valid()
    ensures SentList(c, s0, [ev]) == Next(c, s0, ev).Outbound()
  {
    hide Next;
    assert [ev][..0] == [] && Run(c, s0, []) == Trace(s0, []);
    assert SentList(c, s0, []) == [];
  }

  // -------------------------------------------------------------------------
  // Where votes are dropped

  /** A batch that makes the node commit, after making it send something, drops what it sent. */
  lemma OnceDrops(c: Config, previous: Hash, inbound: seq<SignedEnvelope>, p: Proposal, at: int)
    returns (events: seq<Event>)
    requires c.Valid() && c.holdsKey && inbound != [] && FromPeers(c, inbound)
    requires var o := QueueProposal(c, InitialState(previous, at), p, at);
             && o.result.Ok? && o.Commits() == []
             && var a := AbsorbAll(c, o.state, inbound, at, 0, []); a.ending.Commits? && a.outbound != []
    ensures NoForgery(c, Once(inbound), {}) && Drive(c, InitialState(previous, at), Once(inbound), p, at).result.Ok?
    ensures DriveRun(c, Once(inbound), previous, p, at, events)
    ensures !PublishedAll(c, Once(inbound), previous, p, at, events)
  {
    hide QueueProposal, AbsorbAll, Publish, NoForgery, Run, Next, Told, Story, EndsIn, DueTo, SentList, SignAll, Paced,
         AdmissibleRun, SentDuring, FromTransport;
    var s0, t, ev := InitialState(previous, at), Once(inbound), Queue(p, at);
    var o := QueueProposal(c, s0, p, at);
    var a := AbsorbAll(c, o.state, inbound, at, 0, []);
    OnceCannotForge(c, inbound);
    OnceReturns(c, s0, inbound, p, at, a.ending.commit);
    QueuedOrderly(c, s0, p, at);
    var log := QueueTold(c, t, s0, p, at, inbound);
    events := AbsorbTold(c, t, s0, {}, at, [ev], o.state, log, [], 0, inbound, at, 0, 0);
    FinishTells(c, t, s0, {}, events, a.outbound, a.state, a.ending.commit, a.ending.last, log, a.handled, 0);
    OnceIs(c, s0, inbound, p, at, log);
    OncePublishes(c, inbound, a.ending.last, log);
    PublishSigns(c, t, a.ending.last, log);
    SameLength(c, a.ending.last, []);
    SameLength(c, SentList(c, s0, events), []);
    assert events[0] == ev;
  }

  /** What queueing leaves for the one batch. */
  lemma QueueTold(c: Config, t: Transport, s0: NodeState, p: Proposal, at: int, inbound: seq<SignedEnvelope>)
    returns (log: Log)
    requires c.Valid() && c.holdsKey && t == Once(inbound)
    requires QueueProposal(c, s0, p, at).result.Ok? && QueueProposal(c, s0, p, at).Commits() == []
    ensures log == Publish(c, t, QueueProposal(c, s0, p, at).Outbound(), []).log
    ensures Told(c, t, s0, {}, [Queue(p, at)], QueueProposal(c, s0, p, at).state, log, [])
    ensures Paced(c, at, [Queue(p, at)]) && Count([Queue(p, at)], true) == 0 && Count([Queue(p, at)], false) == 0
  {
    hide QueueProposal, Publish, NoForgery, Run, Next, Told, Story, EndsIn, DueTo, SentList, Paced, AdmissibleRun,
         SentDuring;
    var ev, o := Queue(p, at), QueueProposal(c, s0, p, at);
    NextIsQueue(c, s0, p, at);
    NothingTold(c, t, s0, {}, at);
    TellMore(c, t, s0, {}, [], s0, [], [], ev);
    assert [] + [ev] == [ev] && [] + o.Outbound() == o.Outbound() && [ev][..0] == [];
    assert Count([], true) == 0 && Count([], false) == 0;
    OnePaced(c, at, [], ev);
    OncePublishes(c, inbound, o.Outbound(), []);
    PublishTold(c, t, s0, {}, [ev], o.state, [], o.Outbound());
    log := Publish(c, t, o.Outbound(), []).log;
  }

  lemma OnceIs(c: Config, s0: NodeState, inbound: seq<SignedEnvelope>, p: Proposal, at: int, log: Log)
    requires c.Valid() && c.holdsKey && s0.roundStartedAt <= at && inbound != []
    requires var o := QueueProposal(c, s0, p, at);
             && o.result.Ok? && o.Commits() == [] && log == Publish(c, Once(inbound), o.Outbound(), []).log
             && AbsorbAll(c, o.state, inbound, at, 0, []).ending.Commits?
    ensures var a := AbsorbAll(c, QueueProposal(c, s0, p, at).state, inbound, at, 0, []);
            Drive(c, s0, Once(inbound), p, at)
            == Finish(c, a.state, Once(inbound), a.ending.commit, a.ending.last, log, a.handled, 0)
  {
    hide QueueProposal, AbsorbAll, Publish, Finish;
    var o, t := QueueProposal(c, s0, p, at), Once(inbound);
    QueuedOrderly(c, s0, p, at);
    OncePublishes(c, inbound, o.Outbound(), []);
    assert t.drain(0, log) == Ok(inbound);
  }

  /** The votes of the peers for the node's own proposal. */
  lemma OwnBatch(c: Config, previous: Hash, p: Proposal, at: int) returns (inbound: seq<SignedEnvelope>)
    requires c.Valid() && c.committee.maxFaulty >= 1 && PeersSign(c) && c.ProposerFor(previous, 0) == c.local
    ensures inbound != [] && FromPeers(c, inbound)
    ensures var a := AbsorbAll(c, QueueProposal(c, InitialState(previous, at), p, at).state, inbound, at, 0, []);
            a.ending.Commits? && a.outbound != []
  {
    hide Tally, HandleSigned, AbsorbAll, Wire, PeersSign, Fresh, EmitProposalIfLeader, Config.ProposerFor;
    var s := InitialState(previous, at).(pending := Some(p));
    CleanStart(previous, at, p);
    Leads(c, previous, at, s, p);
    var voters := Peers(c);
    RoomFor(c);
    var votes := Votes(c, previous, at, voters, 0, Prevoted(p));
    var more := Votes(c, previous, at, voters, 0, Precommitted(p));
    inbound := votes + more;
    OwnBatchFromPeers(c, previous, at, p, voters);
    var o := EmitProposalIfLeader(c, s, at);
    var s1, pv, out := AbsorbPrevotes(c, previous, at, o.state, 0, p, {c.local}, voters, more, 0, []);
    AbsorbPrecommits(c, previous, at, s1, 0, p, pv, {c.local}, voters, |voters|, out);
  }

  lemma OwnBatchFromPeers(c: Config, previous: Hash, at: int, p: Proposal, voters: seq<AgentId>)
    requires Fresh(c, voters, {c.local})
    ensures FromPeers(c, Votes(c, previous, at, voters, 0, Prevoted(p))
                      + Votes(c, previous, at, voters, 0, Precommitted(p)))
  {
  }

  lemma CleanStart(previous: Hash, at: int, p: Proposal)
    ensures var s := InitialState(previous, at).(pending := Some(p)); Clean(previous, s) && Untouched(s, 0)
  {
  }

  /** Without tolerance, votes that come before their proposal make a follower vote twice before it commits. */
  lemma FollowerBatch(c: Config, previous: Hash, p: Proposal, at: int) returns (inbound: seq<SignedEnvelope>)
    requires c.Valid() && c.committee.maxFaulty == 0 && PeersSign(c) && c.ProposerFor(previous, 0) != c.local
    ensures inbound != [] && FromPeers(c, inbound)
    ensures var a := AbsorbAll(c, QueueProposal(c, InitialState(previous, at), p, at).state, inbound, at, 0, []);
            a.ending.Commits? && a.outbound != []
  {
    hide QueueProposal, AbsorbAll, HandleSigned, PeersSign, Config.ProposerFor, Wire;
    var b := c.ProposerFor(previous, 0);
    var s := InitialState(previous, at).(pending := Some(p));
    AfterQueue(c, previous, p, at);
    LeaderIsMember(c, previous, 0);
    WireVerifies(c, previous, at, b, 0, Prevoted(p));
    WireVerifies(c, previous, at, b, 0, Propose(p));
    WireVerifies(c, previous, at, b, 0, Precommitted(p));
    var e1 := Wire(c.crypto, previous, at, b, 0, Prevoted(p));
    var e2 := Wire(c.crypto, previous, at, b, 0, Propose(p));
    var e3 := Wire(c.crypto, previous, at, b, 0, Precommitted(p));
    inbound := [e1, e2, e3];
    EarlyPrevote(c, previous, p, at, b);
    var o1 := HandleSigned(c, s, e1, at);
    LateProposal(c, previous, p, at, b, o1.state);
    var o2 := HandleSigned(c, o1.state, e2, at);
    LastPrecommit(c, previous, p, at, b, o2.state);
    assert [e1] + [e2, e3] == inbound && [e2] + [e3] == [e2, e3] && [e3] + [] == [e3];
    AbsorbOne(c, s, e1, [e2, e3], at, 0, []);
    AbsorbOne(c, o1.state, e2, [e3], at, 1, [] + o1.Outbound());
    AbsorbOne(c, o2.state, e3, [], at, 2, [] + o1.Outbound() + o2.Outbound());
    BatchFromPeer(c, previous, at, b, p);
  }

  /** A node in round 0 that has heard the messages of `b` in `kinds`, and holds the given votes for `p`. */
  ghost predicate Holding(
    previous: Hash, p: Proposal, b: AgentId, s: NodeState, kinds: set<Kind>, pv: set<AgentId>, pc: set<AgentId>)
  {
    && s.height == 1 && s.round == 0 && s.previous == previous && s.excluded == map[]
    && (forall kind | kind !in kinds :: MessageKey(1, 0, b, kind) !in s.seen)
    && LedgerAt(s.prevotes, 0) == Unanimous(pv, Some(p.id)) && LedgerAt(s.precommits, 0) == Unanimous(pc, Some(p.id))
    && 0 in s.emittedPrecommits
  }

  lemma EarlyPrevote(c: Config, previous: Hash, p: Proposal, at: int, b: AgentId)
    requires c.Valid() && c.committee.maxFaulty == 0 && b in c.committee.members && b != c.local
    requires c.crypto.verifies(Wire(c.crypto, previous, at, b, 0, Prevoted(p)))
    ensures var s := InitialState(previous, at).(pending := Some(p));
            var o := HandleSigned(c, s, Wire(c.crypto, previous, at, b, 0, Prevoted(p)), at);
            && o.result.Ok? && o.Commits() == [] && o.Outbound() != []
            && Holding(previous, p, b, o.state, {VoteKind(Prevote)}, {b}, {c.local})
            && o.state.proposals == map[] && o.state.emittedPrevotes == {}
  {
    hide HandleSigned, RecordVote, Unanimous;
    var s, e := InitialState(previous, at).(pending := Some(p)), Wire(c.crypto, previous, at, b, 0, Prevoted(p));
    Accepts(c, s, e, at);
    FirstUnanimous(b, Some(p.id));
    FirstUnanimous(c.local, Some(p.id));
    CountOne(b, p);
    CountOne(c.local, p);
  }

  lemma CountOne(a: AgentId, p: Proposal)
    ensures Unanimous({a}, Some(p.id)).Count(Some(p.id)) == 1
  {
  }

  lemma LateProposal(c: Config, previous: Hash, p: Proposal, at: int, b: AgentId, s: NodeState)
    requires c.Valid() && c.committee.maxFaulty == 0 && b == c.ProposerFor(previous, 0) != c.local
    requires c.crypto.verifies(Wire(c.crypto, previous, at, b, 0, Propose(p)))
    requires Holding(previous, p, b, s, {VoteKind(Prevote)}, {b}, {c.local})
    requires s.proposals == map[] && s.emittedPrevotes == {}
    ensures var o := HandleSigned(c, s, Wire(c.crypto, previous, at, b, 0, Propose(p)), at);
            && o.result.Ok? && o.Commits() == []
            && Holding(previous, p, b, o.state, {VoteKind(Prevote), ProposalKind}, {b, c.local}, {c.local})
            && o.state.proposals == map[0 := p]
  {
    hide HandleSigned, RecordVote, Unanimous, Config.ProposerFor;
    var e := Wire(c.crypto, previous, at, b, 0, Propose(p));
    LeaderIsMember(c, previous, 0);
    Accepts(c, s, e, at);
    UnanimousVote({b}, c.local, Some(p.id));
    assert {b} + {c.local} == {b, c.local};
  }

  lemma LastPrecommit(c: Config, previous: Hash, p: Proposal, at: int, b: AgentId, s: NodeState)
    requires c.Valid() && c.committee.maxFaulty == 0 && b in c.committee.members && b != c.local
    requires c.crypto.verifies(Wire(c.crypto, previous, at, b, 0, Precommitted(p)))
    requires Holding(previous, p, b, s, {VoteKind(Prevote), ProposalKind}, {b, c.local}, {c.local})
    requires s.proposals == map[0 := p]
    ensures var o := HandleSigned(c, s, Wire(c.crypto, previous, at, b, 0, Precommitted(p)), at);
            o.result.Ok? && o.Commits() != []
  {
    hide HandleSigned, RecordVote;
    var e := Wire(c.crypto, previous, at, b, 0, Precommitted(p));
    Accepts(c, s, e, at);
    UnanimousVote({c.local}, b, Some(p.id));
  }

  lemma BatchFromPeer(c: Config, previous: Hash, at: int, b: AgentId, p: Proposal)
    requires b != c.local
    ensures FromPeers(c, [Wire(c.crypto, previous, at, b, 0, Prevoted(p)),
                          Wire(c.crypto, previous, at, b, 0, Propose(p)),
                          Wire(c.crypto, previous, at, b, 0, Precommitted(p))])
  {
  }

  /** Everywhere else some transport makes the driver return a commit with votes of the node never published. */
  lemma VotesDropped(c: Config, previous: Hash, p: Proposal, at: int) returns (t: Transport, events: seq<Event>)
    requires c.Valid() && c.holdsKey && PeersSign(c)
    requires c.committee.maxFaulty >= 1 || c.ProposerFor(previous, 0) != c.local
    ensures NoForgery(c, t, {}) && Drive(c, InitialState(previous, at), t, p, at).result.Ok?
    ensures DriveRun(c, t, previous, p, at, events) && !PublishedAll(c, t, previous, p, at, events)
  {
    hide QueueProposal, AbsorbAll, Drive, PeersSign, Config.ProposerFor, NoForgery, DriveRun, PublishedAll, PeerBatch,
         Clean, Untouched, Fresh;
    AfterQueue(c, previous, p, at);
    var inbound;
    var leader := c.ProposerFor(previous, 0);
    if c.committee.maxFaulty == 0 { inbound := FollowerBatch(c, previous, p, at); }
    else if leader == c.local { inbound := OwnBatch(c, previous, p, at); }
    else {
      var s := QueueProposal(c, InitialState(previous, at), p, at).state;
      PendingUntouched(previous, p, at);
      var voters := PeerBatchCommits(c, previous, at, s, leader, 0, p);
      inbound := PeerBatch(c, previous, at, leader, 0, p, voters);
      PeerBatchFromPeers(c, previous, at, leader, 0, p, voters);
      assert inbound != [] by { PeerBatchNonEmpty(c, previous, at, leader, 0, p, voters); }
    }
    events := OnceDrops(c, previous, inbound, p, at);
    t := Once(inbound);
  }

  /**
   What is published, exactly.  Among peers whose signatures verify: on every transport that cannot forge, a drive
   that returns a commit has published everything the node sent, if and only if the committee tolerates no fault and
   the node leads round 0.
   */
  lemma PublishesExactly(c: Config, previous: Hash, p: Proposal, at: int)
    requires c.Valid() && c.holdsKey && PeersSign(c)
    ensures AlwaysPublishes(c, previous, p, at)
            <==> c.committee.maxFaulty == 0 && c.ProposerFor(previous, 0) == c.local
  {
    hide Drive, PeersSign, Config.ProposerFor, NoForgery, DriveRun, PublishedAll;
    if c.committee.maxFaulty == 0 && c.ProposerFor(previous, 0) == c.local {
      forall t, events |
        && NoForgery(c, t, {}) && Drive(c, InitialState(previous, at), t, p, at).result.Ok?
        && DriveRun(c, t, previous, p, at, events)
        ensures PublishedAll(c, t, previous, p, at, events) {
        LeaderPublishes(c, previous, t, p, at, events);
      }
    } else {
      var t, events := VotesDropped(c, previous, p, at);
    }
  }
}
