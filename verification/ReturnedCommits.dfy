/**
 What a transport can make the driver of a fresh node return, exactly.

 The driver hands back whatever its node commits.  Whether that commit is hashed over the hash the node started
 from, and whether it is for the proposal that was asked for, depends on which rounds the node leads, and on
 nothing the driver checks afterwards.
 */
module ReturnedCommits {
  import opened Wrappers
  import opened ConsensusModel
  import opened CommitChain
  import opened VoteProvenance
  import opened RoundSteps
  import opened DriveRounds

  /** What a peer signs verifies. */
  ghost predicate PeersSign(c: Config) {
    forall e: Envelope | e.message.from in c.committee.members && e.message.from != c.local ::
      c.crypto.verifies(Signed(c.crypto, e))
  }

  // -------------------------------------------------------------------------
  // A transport that delivers one batch

  function Once(inbound: seq<SignedEnvelope>): Transport {
    Transport(committee => true, log => true, (calls, log) => Ok(if calls == 0 then inbound else []))
  }

  ghost predicate FromPeers(c: Config, inbound: seq<SignedEnvelope>) {
    forall e | e in inbound :: e.envelope.message.from != c.local
  }

  lemma OnceCannotForge(c: Config, inbound: seq<SignedEnvelope>)
    requires FromPeers(c, inbound)
    ensures NoForgery(c, Once(inbound), {})
  {
  }

  lemma {:induction false} OncePublishes(c: Config, inbound: seq<SignedEnvelope>, envelopes: seq<Envelope>, log: Log)
    requires c.holdsKey
    ensures Publish(c, Once(inbound), envelopes, log).result.Ok?
    decreases |envelopes|
  {
    if envelopes != [] {
      OncePublishes(c, inbound, envelopes[1..],
                    log + [SignedEnvelope(envelopes[0], c.crypto.sign(c.local, envelopes[0]))]);
    }
  }

  /** If the batch makes the node commit, the driver returns that commit. */
  lemma OnceReturns(c: Config, s0: NodeState, inbound: seq<SignedEnvelope>, p: Proposal, at: int, commit: CommitRecord)
    requires c.Valid() && c.holdsKey && s0.roundStartedAt <= at && inbound != []
    requires var o := QueueProposal(c, s0, p, at);
             && o.result.Ok? && o.Commits() == []
             && var a := AbsorbAll(c, o.state, inbound, at, 0, []); a.ending.Commits? && a.ending.commit == commit
    ensures Drive(c, s0, Once(inbound), p, at).result == Ok(commit)
  {
    hide QueueProposal, AbsorbAll, Publish;
    var o, t := QueueProposal(c, s0, p, at), Once(inbound);
    QueuedOrderly(c, s0, p, at);
    var a := AbsorbAll(c, o.state, inbound, at, 0, []);
    OncePublishes(c, inbound, o.Outbound(), []);
    var log := Publish(c, t, o.Outbound(), []).log;
    assert t.drain(0, log) == Ok(inbound);
    OncePublishes(c, inbound, a.ending.last, log);
    assert Loop(c, o.state, t, o.Outbound(), [], 0, at, 0, 0)
      == Finish(c, a.state, t, commit, a.ending.last, log, a.handled, 0);
  }

  // -------------------------------------------------------------------------
  // Batches

  lemma AbsorbOne(
    c: Config, s: NodeState, e: SignedEnvelope, rest: seq<SignedEnvelope>, now: int, handled: nat,
    outbound: seq<Envelope>)
    requires c.Valid() && handled < MaxInbound(c.committee)
    requires HandleSigned(c, s, e, now).result.Ok?
    ensures var o := HandleSigned(c, s, e, now);
            && (o.Commits() == [] ==>
                  AbsorbAll(c, s, [e] + rest, now, handled, outbound)
                  == AbsorbAll(c, o.state, rest, now, handled + 1, outbound + o.Outbound()))
            && (o.Commits() != [] ==>
                  AbsorbAll(c, s, [e] + rest, now, handled, outbound)
                  == Absorbed(o.state, handled + 1, outbound, Commits(o.Commits()[0], o.Outbound())))
  {
    hide HandleSigned;
    assert ([e] + rest)[1..] == rest;
  }

  function Votes(c: Config, previous: Hash, now: int, voters: seq<AgentId>, r: nat, body: Body): seq<SignedEnvelope> {
    seq(|voters|, i requires 0 <= i < |voters| => Wire(c.crypto, previous, now, voters[i], r, body))
  }

  lemma VotesStep(c: Config, previous: Hash, now: int, voters: seq<AgentId>, r: nat, body: Body)
    requires voters != []
    ensures Votes(c, previous, now, voters, r, body)
            == [Wire(c.crypto, previous, now, voters[0], r, body)] + Votes(c, previous, now, voters[1..], r, body)
  {
    hide Wire;
  }

  /** Voters that are peers, each listed once, none of them in `heard`. */
  ghost predicate Fresh(c: Config, voters: seq<AgentId>, heard: set<AgentId>) {
    && (forall i | 0 <= i < |voters| :: voters[i] in c.committee.members && voters[i] != c.local && voters[i] !in heard)
    && (forall i, j | 0 <= i < j < |voters| :: voters[i] != voters[j])
  }

  lemma FreshRest(c: Config, voters: seq<AgentId>, heard: set<AgentId>)
    requires Fresh(c, voters, heard) && voters != []
    ensures Fresh(c, voters[1..], heard + {voters[0]})
  {
  }

  lemma WireVerifies(c: Config, previous: Hash, now: int, a: AgentId, r: nat, body: Body)
    requires PeersSign(c) && a in c.committee.members && a != c.local
    ensures c.crypto.verifies(Wire(c.crypto, previous, now, a, r, body))
  {
  }

  /** The prevotes of enough peers make the node precommit. */
  lemma {:induction false} AbsorbPrevotes(
    c: Config, previous: Hash, now: int, s: NodeState, r: nat, y: Proposal, pv: set<AgentId>, voters: seq<AgentId>,
    rest: seq<SignedEnvelope>, handled: nat, outbound: seq<Envelope>)
    returns (s': NodeState, pv': set<AgentId>, outbound': seq<Envelope>)
    requires c.Valid() && c.committee.maxFaulty >= 1 && PeersSign(c) && Fresh(c, voters, pv)
    requires |pv| + |voters| == c.committee.Threshold() && handled + |voters| <= MaxInbound(c.committee)
    requires Tally(previous, s, r, y, pv, if voters == [] then {c.local} else {})
    ensures Tally(previous, s', r, y, pv', {c.local}) && |pv'| == c.committee.Threshold()
    ensures outbound <= outbound' && (voters != [] ==> outbound != outbound')
    ensures AbsorbAll(c, s, Votes(c, previous, now, voters, r, Prevoted(y)) + rest, now, handled, outbound)
            == AbsorbAll(c, s', rest, now, handled + |voters|, outbound')
    decreases |voters|
  {
    hide Tally, HandleSigned, AbsorbAll, Wire, Votes, PeersSign, Fresh, SameRest;
    s', pv', outbound' := s, pv, outbound;
    if voters == [] {
      NoVotes(c, previous, now, r, Prevoted(y));
      assert Votes(c, previous, now, voters, r, Prevoted(y)) + rest == rest;
    } else {
      var b, more := voters[0], voters[1..];
      FreshFirst(c, voters, pv);
      FreshRest(c, voters, pv);
      WireVerifies(c, previous, now, b, r, Prevoted(y));
      HearPrevote(c, previous, now, s, r, y, pv, b);
      var e, tail := Wire(c.crypto, previous, now, b, r, Prevoted(y)), Votes(c, previous, now, more, r, Prevoted(y));
      var o := HandleSigned(c, s, e, now);
      VotesStep(c, previous, now, voters, r, Prevoted(y));
      assert [e] + tail + rest == [e] + (tail + rest);
      AbsorbOne(c, s, e, tail + rest, now, handled, outbound);
      s', pv', outbound' :=
        AbsorbPrevotes(c, previous, now, o.state, r, y, pv + {b}, more, rest, handled + 1, outbound + o.Outbound());
    }
  }

  lemma NoVotes(c: Config, previous: Hash, now: int, r: nat, body: Body)
    ensures Votes(c, previous, now, [], r, body) == []
  {
  }

  lemma FreshFirst(c: Config, voters: seq<AgentId>, heard: set<AgentId>)
    requires Fresh(c, voters, heard) && voters != []
    ensures voters[0] in c.committee.members && voters[0] != c.local && voters[0] !in heard
  {
  }

  /** The precommits of enough peers make the node commit. */
  lemma {:induction false} AbsorbPrecommits(
    c: Config, previous: Hash, now: int, s: NodeState, r: nat, y: Proposal, pv: set<AgentId>, pc: set<AgentId>,
    voters: seq<AgentId>, handled: nat, outbound: seq<Envelope>)
    requires c.Valid() && PeersSign(c) && Fresh(c, voters, pc) && pc != {} && voters != []
    requires |pv| == c.committee.Threshold() == |pc| + |voters| && handled + |voters| <= MaxInbound(c.committee)
    requires Tally(previous, s, r, y, pv, pc)
    ensures var a := AbsorbAll(c, s, Votes(c, previous, now, voters, r, Precommitted(y)), now, handled, outbound);
            a.ending.Commits? && CommitsAt(1, r, y, a.ending.commit) && outbound <= a.outbound
    decreases |voters|
  {
    hide Tally, HandleSigned, AbsorbAll, Wire, Votes, PeersSign, Fresh, SameRest;
    var b, more := voters[0], voters[1..];
    FreshFirst(c, voters, pc);
    FreshRest(c, voters, pc);
    WireVerifies(c, previous, now, b, r, Precommitted(y));
    HearPrecommit(c, previous, now, s, r, y, pv, pc, b);
    var e := Wire(c.crypto, previous, now, b, r, Precommitted(y));
    var tail := Votes(c, previous, now, more, r, Precommitted(y));
    var o := HandleSigned(c, s, e, now);
    VotesStep(c, previous, now, voters, r, Precommitted(y));
    AbsorbOne(c, s, e, tail, now, handled, outbound);
    if more != [] {
      AbsorbPrecommits(c, previous, now, o.state, r, y, pv, pc + {b}, more, handled + 1, outbound + o.Outbound());
    }
  }

  // -------------------------------------------------------------------------
  // A peer's proposal

  /** The batch in which the leader of round `r` proposes `y` and the voters prevote and precommit it. */
  function PeerBatch(c: Config, previous: Hash, now: int, leader: AgentId, r: nat, y: Proposal, voters: seq<AgentId>)
    : seq<SignedEnvelope>
  {
    [Wire(c.crypto, previous, now, leader, r, Propose(y))]
    + (Votes(c, previous, now, voters, r, Prevoted(y)) + Votes(c, previous, now, voters, r, Precommitted(y)))
  }

  lemma PeerBatchFromPeers(
    c: Config, previous: Hash, now: int, leader: AgentId, r: nat, y: Proposal, voters: seq<AgentId>)
    requires leader != c.local && Fresh(c, voters, {})
    ensures FromPeers(c, PeerBatch(c, previous, now, leader, r, y, voters))
  {
  }

  /** `2f` peers. */
  lemma Peers(c: Config) returns (voters: seq<AgentId>)
    requires c.Valid()
    ensures |voters| == 2 * c.committee.maxFaulty && Fresh(c, voters, {c.local})
  {
    var members := c.committee.members;
    var i :| 0 <= i < |members| && members[i] == c.local;
    var others := members[..i] + members[i + 1..];
    voters := others[..2 * c.committee.maxFaulty];
  }

  /** A node that tolerates a fault commits the proposal of a peer that leads a round it can still reach. */
  lemma PeerBatchCommits(c: Config, previous: Hash, now: int, s: NodeState, leader: AgentId, r: nat, y: Proposal)
    returns (voters: seq<AgentId>)
    requires c.Valid() && c.committee.maxFaulty >= 1 && PeersSign(c) && Clean(previous, s) && Untouched(s, r)
    requires s.round <= r
    requires c.ProposerFor(previous, r) == leader != c.local
    ensures leader != c.local && Fresh(c, voters, {})
    ensures var a := AbsorbAll(c, s, PeerBatch(c, previous, now, leader, r, y, voters), now, 0, []);
            a.ending.Commits? && CommitsAt(1, r, y, a.ending.commit) && a.outbound != []
  {
    hide Tally, HandleSigned, AbsorbAll, Wire, Votes, PeersSign, Clean, Untouched, SameRest, Config.ProposerFor;
    voters := Peers(c);
    FreshSmaller(c, voters);
    LeaderIsMember(c, previous, r);
    RoomFor(c);
    WireVerifies(c, previous, now, leader, r, Propose(y));
    Follows(c, previous, now, s, leader, r, y);
    var e := Wire(c.crypto, previous, now, leader, r, Propose(y));
    var o := HandleSigned(c, s, e, now);
    var votes := Votes(c, previous, now, voters, r, Prevoted(y));
    var more := Votes(c, previous, now, voters, r, Precommitted(y));
    AbsorbOne(c, s, e, votes + more, now, 0, []);
    var s1, pv, out := AbsorbPrevotes(c, previous, now, o.state, r, y, {c.local}, voters, more, 1, [] + o.Outbound());
    AbsorbPrecommits(c, previous, now, s1, r, y, pv, {c.local}, voters, 1 + |voters|, out);
  }

  lemma FreshSmaller(c: Config, voters: seq<AgentId>)
    requires Fresh(c, voters, {c.local})
    ensures Fresh(c, voters, {})
  {
  }

  lemma RoomFor(c: Config)
    requires c.Valid()
    ensures 1 + 4 * c.committee.maxFaulty <= MaxInbound(c.committee)
  {
    var n, f := |c.committee.members|, c.committee.maxFaulty;
    assert 3 * (f + 1) * n >= 3 * n;
  }

  // -------------------------------------------------------------------------
  // Committees that tolerate no fault

  /** The node after committing `y` in round `r`. */
  function Entered(c: Config, s: NodeState, r: nat, y: Proposal, now: int): NodeState {
    NodeState(s.height + 1, 0, AtPropose, c.crypto.commitHash(s.height, r, s.previous, y), now,
              map[], map[], map[], {}, {},
              if s.pending.Some? && s.pending.value.id == y.id then None else s.pending, s.seen, s.excluded)
  }

  ghost predicate CommitsFirst(c: Config, s: NodeState, r: nat, y: Proposal, now: int, o: Outcome) {
    && o.result.Ok? && o.state == Entered(c, s, r, y, now)
    && o.Commits() == [CommitRecord(s.height, r, y, 1, 1, c.crypto.commitHash(s.height, r, s.previous, y))]
  }

  /** Without tolerance a first vote is a quorum: the proposal of a round's leader commits on the spot. */
  lemma ProposalCommits(c: Config, s: NodeState, r: nat, y: Proposal, now: int)
    requires c.committee.maxFaulty == 0 && r in s.proposals && s.proposals[r] == y
    requires r !in s.prevotes && r !in s.emittedPrevotes && r !in s.emittedPrecommits
    requires var l := LedgerAt(s.precommits, r); c.local !in l.byAgent && Some(y.id) !in l.byValue
    ensures CommitsFirst(c, s, r, y, now, EmitPrevote(c, s, r, Some(y.id), now))
  {
    hide EmitPrecommit;
    FirstUnanimous(c.local, Some(y.id));
    var s1 := s.(emittedPrevotes := s.emittedPrevotes + {r}, step := AtPrevote,
                 prevotes := s.prevotes[r := Unanimous({c.local}, Some(y.id))]);
    PrecommitCommits(c, s1, r, y, now);
  }

  lemma PrecommitCommits(c: Config, s: NodeState, r: nat, y: Proposal, now: int)
    requires c.committee.maxFaulty == 0 && r in s.proposals && s.proposals[r] == y && r !in s.emittedPrecommits
    requires r in s.prevotes && s.prevotes[r] == Unanimous({c.local}, Some(y.id))
    requires var l := LedgerAt(s.precommits, r); c.local !in l.byAgent && Some(y.id) !in l.byValue
    ensures CommitsFirst(c, s, r, y, now, EmitPrecommit(c, s, r, Some(y.id), now))
  {
    var l := RecordVote(LedgerAt(s.precommits, r), c.local, Some(y.id)).ledger;
    assert l.byValue[Some(y.id)] == {c.local};
  }

  /** A node that leads round 0 of such a committee commits its proposal as soon as it is queued. */
  lemma LeaderCommitsAtOnce(c: Config, previous: Hash, p: Proposal, at: int)
    requires c.Valid() && c.committee.maxFaulty == 0 && c.ProposerFor(previous, 0) == c.local
    ensures QueueProposal(c, InitialState(previous, at), p, at).result.Ok?
    ensures QueueProposal(c, InitialState(previous, at), p, at).Commits()
            == [CommitRecord(1, 0, p, 1, 1, c.crypto.commitHash(1, 0, previous, p))]
  {
    hide EmitPrevote;
    var s := InitialState(previous, at).(pending := Some(p), proposals := map[0 := p]);
    ProposalCommits(c, s, 0, p, at);
  }

  lemma LeaderReturnsOwn(c: Config, previous: Hash, t: Transport, p: Proposal, at: int)
    requires c.Valid() && c.committee.maxFaulty == 0 && c.ProposerFor(previous, 0) == c.local
    ensures var d := Drive(c, InitialState(previous, at), t, p, at);
            d.result.Ok? ==>
              d.result.value == CommitRecord(1, 0, p, 1, 1, c.crypto.commitHash(1, 0, previous, p))
  {
    hide QueueProposal, Loop, Publish;
    LeaderCommitsAtOnce(c, previous, p, at);
  }

  // -------------------------------------------------------------------------
  // Whose proposal comes back

  /** The node leads round 0, and if a round can time out it leads every round. */
  ghost predicate LeadsAlone(c: Config, previous: Hash)
    requires c.Valid()
  {
    && c.ProposerFor(previous, 0) == c.local
    && (c.committee.maxFaulty == 0 || forall r: nat :: c.ProposerFor(previous, r) == c.local)
  }

  lemma AfterQueue(c: Config, previous: Hash, p: Proposal, at: int)
    requires c.Valid() && (c.committee.maxFaulty >= 1 || c.ProposerFor(previous, 0) != c.local)
    ensures var o := QueueProposal(c, InitialState(previous, at), p, at);
            && o.result.Ok? && o.Commits() == [] && Clean(previous, o.state) && o.state.round == 0
            && (c.ProposerFor(previous, 0) != c.local ==> o == Idle(InitialState(previous, at).(pending := Some(p))))
  {
    hide ObserveLocalProposal, Tally;
    var s := InitialState(previous, at).(pending := Some(p));
    assert Clean(previous, s) && Untouched(s, 0);
    if c.ProposerFor(previous, 0) == c.local {
      Leads(c, previous, at, s, p);
      TallyMovesOn(previous, EmitProposalIfLeader(c, s, at).state, 0, p, {c.local}, {});
    }
  }

  lemma CleanAhead(previous: Hash, s: NodeState, r: nat)
    requires Clean(previous, s) && r > s.round
    ensures Untouched(s, r)
  {
  }

  /** If a peer leads a round the node can reach, some transport makes the driver return that peer's proposal. */
  lemma PeerProposalReturned(c: Config, previous: Hash, p: Proposal, y: Proposal, at: int) returns (t: Transport)
    requires c.Valid() && c.holdsKey && PeersSign(c) && !LeadsAlone(c, previous)
    ensures NoForgery(c, t, {})
    ensures var d := Drive(c, InitialState(previous, at), t, p, at); d.result.Ok? && d.result.value.proposal == y
  {
    hide QueueProposal, AbsorbAll, Drive, PeersSign, Clean, Untouched, Config.ProposerFor, NoForgery, Fresh, PeerBatch;
    var s0 := InitialState(previous, at);
    AfterQueue(c, previous, p, at);
    var s := QueueProposal(c, s0, p, at).state;
    var inbound;
    if c.committee.maxFaulty == 0 {
      inbound := LeaderProposes(c, previous, p, y, at);
    } else {
      var r: nat :| c.ProposerFor(previous, r) != c.local;
      if r == 0 { PendingUntouched(previous, p, at); } else { CleanAhead(previous, s, r); }
      var leader := c.ProposerFor(previous, r);
      var voters := PeerBatchCommits(c, previous, at, s, leader, r, y);
      inbound := PeerBatch(c, previous, at, leader, r, y, voters);
      PeerBatchFromPeers(c, previous, at, leader, r, y, voters);
      assert inbound != [] by { PeerBatchNonEmpty(c, previous, at, leader, r, y, voters); }
    }
    var a := AbsorbAll(c, s, inbound, at, 0, []);
    OnceReturns(c, s0, inbound, p, at, a.ending.commit);
    OnceCannotForge(c, inbound);
    t := Once(inbound);
  }

  lemma PeerBatchNonEmpty(
    c: Config, previous: Hash, now: int, leader: AgentId, r: nat, y: Proposal, voters: seq<AgentId>)
    ensures PeerBatch(c, previous, now, leader, r, y, voters) != []
  {
  }

  lemma PendingUntouched(previous: Hash, p: Proposal, at: int)
    ensures Untouched(InitialState(previous, at).(pending := Some(p)), 0)
  {
  }

  /** Without tolerance, the proposal of the leader of round 0 alone makes another node commit it. */
  lemma LeaderProposes(
    c: Config, previous: Hash, p: Proposal, y: Proposal, at: int)
    returns (inbound: seq<SignedEnvelope>)
    requires c.Valid() && PeersSign(c) && c.committee.maxFaulty == 0 && c.ProposerFor(previous, 0) != c.local
    ensures inbound != [] && FromPeers(c, inbound)
    ensures var a := AbsorbAll(c, QueueProposal(c, InitialState(previous, at), p, at).state, inbound, at, 0, []);
            a.ending.Commits? && a.ending.commit.proposal == y
  {
    hide QueueProposal, AbsorbAll, HandleSigned, EmitPrevote, PeersSign, Config.ProposerFor;
    var leader := c.ProposerFor(previous, 0);
    var e := Wire(c.crypto, previous, at, leader, 0, Propose(y));
    inbound := [e];
    AfterQueue(c, previous, p, at);
    LeaderIsMember(c, previous, 0);
    WireVerifies(c, previous, at, leader, 0, Propose(y));
    var s := InitialState(previous, at).(pending := Some(p));
    ReachesBody(c, s, e, at);
    var s1 := Arrived(s, e, 0, at).(proposals := map[0 := y]);
    ProposalCommits(c, s1, 0, y, at);
    assert HandleSigned(c, s, e, at) == EmitPrevote(c, s1, 0, Some(y.id), at);
    assert [e] + [] == [e];
    AbsorbOne(c, s, e, [], at, 0, []);
  }

  /** The node is at its first height, still wants `p`, and has recorded no other proposal. */
  ghost predicate Own(previous: Hash, p: Proposal, s: NodeState) {
    && s.height == 1 && s.previous == previous && s.pending == Some(p)
    && forall r | r in s.proposals :: s.proposals[r] == p
  }

  ghost predicate OwnSends(p: Proposal, sent: set<Envelope>) {
    forall e | e in sent && e.message.body.Propose? :: e.message.body.proposal == p
  }

  ghost predicate KeepsOwn(previous: Hash, p: Proposal, o: Outcome) {
    && (o.Commits() == [] ==> Own(previous, p, o.state))
    && (forall commit | commit in o.Commits() :: commit.proposal == p)
    && OwnSends(p, SetOf(o.Outbound()))
  }

  lemma EmitPrecommitOwn(c: Config, previous: Hash, p: Proposal, s: NodeState, r: nat, choice: Choice, now: int)
    requires Own(previous, p, s)
    ensures KeepsOwn(previous, p, EmitPrecommit(c, s, r, choice, now))
  {
    hide RecordVote, Commit;
    var vote := RecordVote(LedgerAt(s.precommits, r), c.local, choice);
    CommitOwn(c, previous, p, s.(emittedPrecommits := s.emittedPrecommits + {r}, step := AtPrecommit,
                                 precommits := s.precommits[r := vote.ledger]), r, choice, now);
  }

  lemma CommitOwn(c: Config, previous: Hash, p: Proposal, s: NodeState, r: nat, choice: Choice, now: int)
    requires Own(previous, p, s)
    ensures KeepsOwn(previous, p, Commit(c, s, r, choice, now)) && Commit(c, s, r, choice, now).Outbound() == []
  {
  }

  lemma EmitPrevoteOwn(c: Config, previous: Hash, p: Proposal, s: NodeState, r: nat, choice: Choice, now: int)
    requires Own(previous, p, s)
    ensures KeepsOwn(previous, p, EmitPrevote(c, s, r, choice, now))
  {
    hide RecordVote, EmitPrecommit;
    var vote := RecordVote(LedgerAt(s.prevotes, r), c.local, choice);
    EmitPrecommitOwn(c, previous, p, s.(emittedPrevotes := s.emittedPrevotes + {r}, step := AtPrevote,
                                        prevotes := s.prevotes[r := vote.ledger]), r, choice, now);
  }

  lemma EmitProposalOwn(c: Config, previous: Hash, p: Proposal, s: NodeState, now: int)
    requires c.Valid() && Own(previous, p, s)
    ensures KeepsOwn(previous, p, EmitProposalIfLeader(c, s, now))
  {
    hide EmitPrevote;
    var recorded := RecordProposal(c, s, c.local, s.round, p);
    EmitPrevoteOwn(c, previous, p, recorded.state, s.round, Some(p.id), now);
  }

  ghost predicate LeadsAll(c: Config, previous: Hash)
    requires c.Valid()
  {
    forall r: nat :: c.ProposerFor(previous, r) == c.local
  }

  lemma ObserveBodyOwn(c: Config, previous: Hash, p: Proposal, s: NodeState, m: Message, now: int)
    requires c.Valid() && LeadsAll(c, previous) && Own(previous, p, s)
    requires m.from == c.local && m.body.Propose? ==> m.body.proposal == p
    ensures KeepsOwn(previous, p, ObserveBody(c, s, m, now))
  {
    hide EmitPrevote, EmitPrecommit, RecordVote, Commit;
    match m.body
    case Propose(proposal) =>
      var recorded := RecordProposal(c, s, m.from, m.round, proposal);
      if recorded.result.Ok? { EmitPrevoteOwn(c, previous, p, recorded.state, m.round, Some(proposal.id), now); }
    case Vote(Prevote, choice) =>
      var vote := RecordVote(LedgerAt(s.prevotes, m.round), m.from, choice);
      EmitPrecommitOwn(c, previous, p, s.(prevotes := s.prevotes[m.round := vote.ledger]), m.round, choice, now);
    case Vote(Precommit, choice) =>
      var vote := RecordVote(LedgerAt(s.precommits, m.round), m.from, choice);
      CommitOwn(c, previous, p, s.(precommits := s.precommits[m.round := vote.ledger]), m.round, choice, now);
  }

  lemma ObserveOwn(c: Config, previous: Hash, p: Proposal, s: NodeState, m: Message, now: int)
    requires c.Valid() && c.committee.maxFaulty >= 1 && FutureEmpty(s) && LeadsAll(c, previous) && Own(previous, p, s)
    requires m.from == c.local && m.body.Propose? ==> m.body.proposal == p
    ensures KeepsOwn(previous, p, ObserveMessage(c, s, m, now))
  {
    hide ObserveBody, EmitProposalIfLeader, LeadsAll;
    if m.round > s.round {
      AdvanceCommitsExactly(c, s, m.round, now);
      EmitProposalOwn(c, previous, p, s.(round := m.round, step := AtPropose, roundStartedAt := now), now);
    }
    if m.round >= s.round { ObserveBodyOwn(c, previous, p, AdvanceRound(c, s, m.round, now).state, m, now); }
  }

  lemma ExcludeOwn(
    c: Config, previous: Hash, p: Proposal, s: NodeState, key: MessageKey, reason: ExclusionReason,
    evidence: seq<Hash>, now: int)
    requires c.Valid() && Own(previous, p, s)
    ensures KeepsOwn(previous, p, ExcludeSender(c, s, key, reason, evidence, now))
  {
    hide WithoutVoter;
  }

  lemma NextOwn(c: Config, previous: Hash, p: Proposal, s: NodeState, sent: set<Envelope>, ev: Event)
    requires c.Valid() && c.committee.maxFaulty >= 1 && FutureEmpty(s) && LeadsAll(c, previous) && Own(previous, p, s)
    requires Admissible(c, sent, ev) && OwnSends(p, sent) && (ev.Deliver? || ev.Timer?)
    ensures KeepsOwn(previous, p, Next(c, s, ev))
  {
    hide ObserveMessage, EmitProposalIfLeader, ExcludeSender, LeadsAll, FutureEmpty;
    match ev
    case Deliver(e, now) =>
      var key := KeyOf(e.envelope.message);
      if key in s.seen {
        ExcludeOwn(c, previous, p, s, key, Equivocation, [c.crypto.messageHash(s.seen[key]), c.crypto.messageHash(e)],
                   now);
      }
      ExcludeOwn(c, previous, p, s, key, InvalidSignature, [c.crypto.messageHash(e)], now);
      if c.crypto.verifies(e) {
        var s1 := s.(seen := s.seen[key := e]);
        assert FutureEmpty(s1) by { SeenKeepsFuture(s, s.seen[key := e]); }
        ObserveOwn(c, previous, p, s1, e.envelope.message, now);
      }
    case Timer(now) =>
      EmitProposalOwn(c, previous, p, s.(round := s.round + 1, step := AtPropose, roundStartedAt := now), now);
  }

  lemma SeenKeepsFuture(s: NodeState, seen: map<MessageKey, SignedEnvelope>)
    requires FutureEmpty(s)
    ensures FutureEmpty(s.(seen := seen))
  {
  }

  lemma QueueOwn(c: Config, previous: Hash, p: Proposal, at: int)
    requires c.Valid()
    ensures KeepsOwn(previous, p, QueueProposal(c, InitialState(previous, at), p, at))
  {
    hide EmitProposalIfLeader;
    EmitProposalOwn(c, previous, p, InitialState(previous, at).(pending := Some(p)), at);
  }

  /** Up to the last event of a drive no commit was reported. */
  ghost predicate DriveEvents(c: Config, t: Transport, previous: Hash, p: Proposal, at: int, events: seq<Event>)
    requires c.Valid()
  {
    && events != [] && events[0] == Queue(p, at) && (forall i | 1 <= i < |events| :: FromTransport(t, events[i]))
    && AdmissibleRun(c, InitialState(previous, at), {}, events)
  }

  lemma DriveEventsFront(c: Config, t: Transport, previous: Hash, p: Proposal, at: int, events: seq<Event>)
    requires c.Valid() && DriveEvents(c, t, previous, p, at, events) && |events| > 1
    ensures DriveEvents(c, t, previous, p, at, events[..|events| - 1])
    ensures var front, last := events[..|events| - 1], events[|events| - 1];
            && Admissible(c, SentDuring(c, InitialState(previous, at), front), last) && (last.Deliver? || last.Timer?)
  {
    hide Admissible, SentDuring;
    var front := events[..|events| - 1];
    assert FromTransport(t, events[|events| - 1]);
    assert {} + SentDuring(c, InitialState(previous, at), front) == SentDuring(c, InitialState(previous, at), front);
  }

  /** A node that leads every round commits only what it was asked for. */
  lemma {:induction false} RunOwn(c: Config, t: Transport, previous: Hash, p: Proposal, at: int, events: seq<Event>)
    requires c.Valid() && c.committee.maxFaulty >= 1 && LeadsAll(c, previous)
    requires DriveEvents(c, t, previous, p, at, events)
    requires Run(c, InitialState(previous, at), events[..|events| - 1]).commits == []
    ensures var s0 := InitialState(previous, at);
            && OwnSends(p, SentDuring(c, s0, events))
            && (forall commit | commit in Run(c, s0, events).commits :: commit.proposal == p)
            && (Run(c, s0, events).commits == [] ==> Own(previous, p, Run(c, s0, events).state))
  {
    hide Next, LeadsAll, Own, FutureEmpty, DriveEvents, OwnSends, FromTransport, Admissible;
    var s0, n := InitialState(previous, at), |events| - 1;
    if |events| == 1 {
      OneEvent(c, t, previous, p, at, events);
      NextIsQueue(c, s0, p, at);
      QueueOwn(c, previous, p, at);
      OnlyStep(c, s0, Queue(p, at));
    } else {
      DriveEventsNonEmpty(c, t, previous, p, at, events);
      DriveEventsFront(c, t, previous, p, at, events);
      var front, last := events[..n], events[n];
      assert Run(c, s0, front[..|front| - 1]).commits == [] by { EarlierSilent(c, s0, front); }
      RunOwn(c, t, previous, p, at, front);
      assert FutureEmpty(s0) by { StartsIntact(c, previous, at); }
      StaysUntilCommit(c, s0, front);
      var s, sent := Run(c, s0, front).state, SentDuring(c, s0, front);
      NextOwn(c, previous, p, s, sent, last);
      LastStep(c, s0, events);
      SendsMore(p, sent, SetOf(Next(c, s, last).Outbound()));
    }
  }

  lemma DriveEventsNonEmpty(c: Config, t: Transport, previous: Hash, p: Proposal, at: int, events: seq<Event>)
    requires c.Valid() && DriveEvents(c, t, previous, p, at, events)
    ensures |events| >= 1
  {
  }

  lemma OneEvent(c: Config, t: Transport, previous: Hash, p: Proposal, at: int, events: seq<Event>)
    requires c.Valid() && DriveEvents(c, t, previous, p, at, events) && |events| == 1
    ensures events == [Queue(p, at)]
  {
  }

  lemma OnlyStep(c: Config, s0: NodeState, ev: Event)
    requires c.Valid()
    ensures Run(c, s0, [ev]) == Trace(Next(c, s0, ev).state, Next(c, s0, ev).Commits())
    ensures SentDuring(c, s0, [ev]) == SetOf(Next(c, s0, ev).Outbound())
  {
    hide Next;
    assert [ev][..0] == [];
  }

  lemma EarlierSilent(c: Config, s0: NodeState, events: seq<Event>)
    requires c.Valid() && Run(c, s0, events).commits == [] && events != []
    ensures Run(c, s0, events[..|events| - 1]).commits == []
  {
    hide Next;
  }

  lemma SendsMore(p: Proposal, sent: set<Envelope>, more: set<Envelope>)
    requires OwnSends(p, sent) && OwnSends(p, more)
    ensures OwnSends(p, sent + more)
  {
  }

  lemma OwnReturned(c: Config, previous: Hash, t: Transport, p: Proposal, at: int)
    requires c.Valid() && LeadsAlone(c, previous) && NoForgery(c, t, {})
    ensures var d := Drive(c, InitialState(previous, at), t, p, at); d.result.Ok? ==> d.result.value.proposal == p
  {
    hide Next, Drive, NoForgery, Run, AdmissibleRun, SentDuring, Own;
    var s0 := InitialState(previous, at);
    if c.committee.maxFaulty == 0 { LeaderReturnsOwn(c, previous, t, p, at); }
    else if Drive(c, s0, t, p, at).result.Ok? {
      DriveRefused(c, s0, t, p, at);
      var events := DriveTold(c, s0, t, p, at, {});
      RunOwn(c, t, previous, p, at, events);
      assert Run(c, s0, events).commits[0] in Run(c, s0, events).commits;
    }
  }

  /** On every transport that cannot forge, the driver returns a commit only of the proposal it was given. */
  ghost predicate AlwaysOwn(c: Config, previous: Hash, p: Proposal, at: int)
    requires c.Valid()
  {
    forall t | NoForgery(c, t, {}) ::
      var d := Drive(c, InitialState(previous, at), t, p, at); d.result.Ok? ==> d.result.value.proposal.id == p.id
  }

  /**
   Whose proposal comes back, exactly.  A node that holds its key, among peers whose signatures verify: the driver
   returns only commits of the proposal it was given, on every transport that cannot forge, if and only if the node
   leads round 0 and, where a round can time out, every other round too.
   */
  lemma OwnProposalExactly(c: Config, previous: Hash, p: Proposal, at: int)
    requires c.Valid() && c.holdsKey && PeersSign(c)
    ensures AlwaysOwn(c, previous, p, at) <==> LeadsAlone(c, previous)
  {
    hide Drive, NoForgery, PeersSign;
    if LeadsAlone(c, previous) {
      forall t | NoForgery(c, t, {})
        ensures var d := Drive(c, InitialState(previous, at), t, p, at);
                d.result.Ok? ==> d.result.value.proposal.id == p.id
      {
        OwnReturned(c, previous, t, p, at);
      }
    } else {
      var y := Proposal(p.id + "!", "");
      assert |y.id| != |p.id|;
      var t := PeerProposalReturned(c, previous, p, y, at);
    }
  }

  // -------------------------------------------------------------------------
  // What the returned commit is hashed over

  ghost predicate CoversStart(c: Config, previous: Hash, commit: CommitRecord) {
    commit.height == 1 && commit.hash == c.crypto.commitHash(1, commit.round, previous, commit.proposal)
  }

  /** The node leads round 0; or, whenever it leads a later round, it also leads every round after committing
      `p` there. */
  ghost predicate NoneAfterLoss(c: Config, previous: Hash, p: Proposal)
    requires c.Valid()
  {
    || c.ProposerFor(previous, 0) == c.local
    || forall r: nat | r >= 1 && c.ProposerFor(previous, r) == c.local ::
         LeadsAll(c, c.crypto.commitHash(1, r, previous, p))
  }

  ghost predicate NoProposals(sent: set<Envelope>) { forall e | e in sent :: !e.message.body.Propose? }

  /** Waiting at the first height with `p` pending. */
  ghost predicate Waiting(previous: Hash, p: Proposal, s: NodeState) {
    s.height == 1 && s.previous == previous && FutureEmpty(s) && s.pending == Some(p)
  }

  /** Past a lost commit, with nothing pending, no proposal recorded, and no peer to propose one. */
  ghost predicate Stuck(c: Config, s: NodeState)
    requires c.Valid()
  {
    s.height == 2 && s.pending == None && s.proposals == map[] && LeadsAll(c, s.previous)
  }

  ghost predicate KeepsStuck(c: Config, o: Outcome)
    requires c.Valid()
  {
    Stuck(c, o.state) && o.Commits() == [] && NoProposals(SetOf(o.Outbound()))
  }

  lemma BodySendsVotes(c: Config, s: NodeState, m: Message, now: int)
    requires c.Valid()
    ensures NoProposals(SetOf(ObserveBody(c, s, m, now).Outbound()))
  {
    hide RecordVote, Commit, RecordProposal, EmitPrevote, EmitPrecommit;
    match m.body
    case Propose(proposal) =>
      var s1 := RecordProposal(c, s, m.from, m.round, proposal).state;
      PrevoteSendsVotes(c, s1, m.round, Some(proposal.id), now);
    case Vote(Prevote, choice) =>
      var vote := RecordVote(LedgerAt(s.prevotes, m.round), m.from, choice);
      PrecommitSendsVotes(c, s.(prevotes := s.prevotes[m.round := vote.ledger]), m.round, choice, now);
    case Vote(Precommit, choice) =>
      var vote := RecordVote(LedgerAt(s.precommits, m.round), m.from, choice);
      CommitSendsNothing(c, s.(precommits := s.precommits[m.round := vote.ledger]), m.round, choice, now);
  }

  lemma CommitSendsNothing(c: Config, s: NodeState, round: nat, choice: Choice, now: int)
    ensures Commit(c, s, round, choice, now).Outbound() == []
  {
  }

  lemma PrecommitSendsVotes(c: Config, s: NodeState, round: nat, choice: Choice, now: int)
    ensures NoProposals(SetOf(EmitPrecommit(c, s, round, choice, now).Outbound()))
  {
    hide RecordVote, Commit;
    var vote := RecordVote(LedgerAt(s.precommits, round), c.local, choice);
    CommitSendsNothing(c, s.(emittedPrecommits := s.emittedPrecommits + {round}, step := AtPrecommit,
                             precommits := s.precommits[round := vote.ledger]), round, choice, now);
  }

  lemma PrevoteSendsVotes(c: Config, s: NodeState, round: nat, choice: Choice, now: int)
    ensures NoProposals(SetOf(EmitPrevote(c, s, round, choice, now).Outbound()))
  {
    hide RecordVote, EmitPrecommit;
    var vote := RecordVote(LedgerAt(s.prevotes, round), c.local, choice);
    PrecommitSendsVotes(c, s.(emittedPrevotes := s.emittedPrevotes + {round}, step := AtPrevote,
                              prevotes := s.prevotes[round := vote.ledger]), round, choice, now);
  }

  lemma StuckBody(c: Config, s: NodeState, m: Message, now: int)
    requires c.Valid() && Stuck(c, s) && !(m.from == c.local && m.body.Propose?)
    ensures KeepsStuck(c, ObserveBody(c, s, m, now))
  {
    hide RecordVote, EmitPrecommit, EmitPrevote, Commit, NoProposals, LeadsAll;
    BodySendsVotes(c, s, m, now);
    match m.body
    case Propose(proposal) => assert c.ProposerFor(s.previous, m.round)
      == c.local by { LeadsHere(c, s.previous, m.round); }
    case Vote(Prevote, choice) =>
      var vote := RecordVote(LedgerAt(s.prevotes, m.round), m.from, choice);
      StuckPrecommits(c, s.(prevotes := s.prevotes[m.round := vote.ledger]), m.round, choice, now);
    case Vote(Precommit, choice) =>
      var vote := RecordVote(LedgerAt(s.precommits, m.round), m.from, choice);
      StuckCommits(c, s.(precommits := s.precommits[m.round := vote.ledger]), m.round, choice, now);
  }

  lemma LeadsHere(c: Config, previous: Hash, r: nat)
    requires c.Valid() && LeadsAll(c, previous)
    ensures c.ProposerFor(previous, r) == c.local
  {
  }

  lemma StuckCommits(c: Config, s: NodeState, r: nat, choice: Choice, now: int)
    requires s.proposals == map[]
    ensures Commit(c, s, r, choice, now) == Idle(s)
  {
  }

  lemma StuckPrecommits(c: Config, s: NodeState, r: nat, choice: Choice, now: int)
    requires c.Valid() && Stuck(c, s)
    ensures var o := EmitPrecommit(c, s, r, choice, now); Stuck(c, o.state) && o.Commits() == []
  {
    hide RecordVote, Commit, LeadsAll;
    var vote := RecordVote(LedgerAt(s.precommits, r), c.local, choice);
    StuckCommits(c, s.(emittedPrecommits := s.emittedPrecommits + {r}, step := AtPrecommit,
                       precommits := s.precommits[r := vote.ledger]), r, choice, now);
  }

  lemma StuckObserves(c: Config, s: NodeState, m: Message, now: int)
    requires c.Valid() && Stuck(c, s) && !(m.from == c.local && m.body.Propose?)
    ensures KeepsStuck(c, ObserveMessage(c, s, m, now))
  {
    hide ObserveBody, ObserveLocalProposal, LeadsAll;
    StuckBody(c, AdvanceRound(c, s, m.round, now).state, m, now);
  }

  lemma StuckExcludes(c: Config, s: NodeState, key: MessageKey, reason: ExclusionReason, evidence: seq<Hash>, now: int)
    requires c.Valid() && Stuck(c, s)
    ensures KeepsStuck(c, ExcludeSender(c, s, key, reason, evidence, now))
  {
    hide WithoutVoter, LeadsAll;
  }

  lemma StuckHandles(c: Config, s: NodeState, e: SignedEnvelope, now: int, sent: set<Envelope>)
    requires c.Valid() && Stuck(c, s) && NoProposals(sent) && Admissible(c, sent, Deliver(e, now))
    ensures KeepsStuck(c, HandleSigned(c, s, e, now))
  {
    hide ObserveMessage, ExcludeSender, LeadsAll;
    var key := KeyOf(e.envelope.message);
    if key in s.seen {
      StuckExcludes(c, s, key, Equivocation, [c.crypto.messageHash(s.seen[key]), c.crypto.messageHash(e)], now);
    }
    StuckExcludes(c, s, key, InvalidSignature, [c.crypto.messageHash(e)], now);
    if c.crypto.verifies(e) { StuckObserves(c, s.(seen := s.seen[key := e]), e.envelope.message, now); }
  }

  /** Catching up to a round the node leads commits the pending proposal. */
  lemma CatchUpCommits(c: Config, s: NodeState, p: Proposal, r: nat, now: int)
    requires c.Valid() && c.committee.maxFaulty == 0 && FutureEmpty(s) && s.pending == Some(p) && r > s.round
    requires c.ProposerFor(s.previous, r) == c.local
    ensures AdvanceRound(c, s, r, now).result.Ok? && AdvanceRound(c, s, r, now).state == Entered(c, s, r, p, now)
  {
    hide EmitPrevote;
    var s1 := s.(round := r, step := AtPropose, roundStartedAt := now, proposals := s.proposals[r := p]);
    ProposalCommits(c, s1, r, p, now);
  }

  /** What a delivery does to a waiting node: it waits on, commits over where it started, or is stuck. */
  ghost predicate WaitsOn(c: Config, previous: Hash, p: Proposal, o: Outcome)
    requires c.Valid()
  {
    && (o.Commits() == [] ==> Waiting(previous, p, o.state) || Stuck(c, o.state))
    && (forall commit | commit in o.Commits() :: CoversStart(c, previous, commit))
    && NoProposals(SetOf(o.Outbound()))
  }

  lemma WaitingObserves(c: Config, previous: Hash, p: Proposal, s: NodeState, m: Message, now: int)
    requires c.Valid() && c.committee.maxFaulty == 0 && Waiting(previous, p, s)
    requires c.ProposerFor(previous, 0) != c.local && NoneAfterLoss(c, previous, p)
    requires !(m.from == c.local && m.body.Propose?)
    ensures WaitsOn(c, previous, p, ObserveMessage(c, s, m, now))
  {
    hide ObserveBody, EmitProposalIfLeader, LeadsAll, FutureEmpty;
    if SwallowedBy(c, s, m) {
      CatchUpCommits(c, s, p, m.round, now);
      StuckBody(c, Entered(c, s, m.round, p, now), m, now);
    } else {
      ObserveKeeps(c, s, m, now);
      if CatchesUp(c, s, m) { CatchUpWaits(c, s, m.round, now); }
      if m.round >= s.round {
        var s1 := AdvanceRound(c, s, m.round, now).state;
        BodySendsVotes(c, s1, m, now);
        ObserveBodyKeeps(c, s1, m, now);
      }
    }
  }

  lemma CatchUpWaits(c: Config, s: NodeState, r: nat, now: int)
    requires c.Valid() && FutureEmpty(s) && r > s.round && s.pending.Some? && c.committee.maxFaulty == 0
    requires c.ProposerFor(s.previous, r) != c.local
    ensures var s1 := AdvanceRound(c, s, r, now).state; s1.pending == s.pending
  {
  }

  lemma WaitingExcludes(
    c: Config, previous: Hash, p: Proposal, s: NodeState, key: MessageKey, reason: ExclusionReason,
    evidence: seq<Hash>, now: int)
    requires c.Valid() && Waiting(previous, p, s)
    ensures WaitsOn(c, previous, p, ExcludeSender(c, s, key, reason, evidence, now))
  {
    hide WithoutVoter, FutureEmpty, LeadsAll;
    ExcludeKeeps(c, s, key, reason, evidence, now);
  }

  lemma WaitingHandles(
    c: Config, previous: Hash, p: Proposal, s: NodeState, e: SignedEnvelope, now: int, sent: set<Envelope>)
    requires c.Valid() && c.committee.maxFaulty == 0 && Waiting(previous, p, s)
    requires c.ProposerFor(previous, 0) != c.local && NoneAfterLoss(c, previous, p)
    requires NoProposals(sent) && Admissible(c, sent, Deliver(e, now))
    ensures WaitsOn(c, previous, p, HandleSigned(c, s, e, now))
  {
    hide ObserveMessage, ExcludeSender, FutureEmpty, NoneAfterLoss, Stuck;
    var key := KeyOf(e.envelope.message);
    if key in s.seen {
      WaitingExcludes(c, previous, p, s, key, Equivocation,
                      [c.crypto.messageHash(s.seen[key]), c.crypto.messageHash(e)], now);
    }
    WaitingExcludes(c, previous, p, s, key, InvalidSignature, [c.crypto.messageHash(e)], now);
    if c.crypto.verifies(e) {
      SeenKeepsFuture(s, s.seen[key := e]);
      WaitingObserves(c, previous, p, s.(seen := s.seen[key := e]), e.envelope.message, now);
    }
  }

  /** Over a drive of a node that may not lead round 0, every commit covers the start. */
  lemma {:induction false} RunCovers(c: Config, t: Transport, previous: Hash, p: Proposal, at: int, events: seq<Event>)
    requires c.Valid() && c.committee.maxFaulty == 0 && DriveEvents(c, t, previous, p, at, events)
    requires c.ProposerFor(previous, 0) != c.local && NoneAfterLoss(c, previous, p)
    requires Count(events, true) == 0 && Run(c, InitialState(previous, at), events[..|events| - 1]).commits == []
    ensures var s0 := InitialState(previous, at);
            && NoProposals(SentDuring(c, s0, events))
            && (forall commit | commit in Run(c, s0, events).commits :: CoversStart(c, previous, commit))
            && (Run(c, s0, events).commits == [] ==>
                  Waiting(previous, p, Run(c, s0, events).state) || Stuck(c, Run(c, s0, events).state))
  {
    hide Next, HandleSigned, FutureEmpty, DriveEvents, FromTransport, Admissible, Stuck, NoneAfterLoss, NoProposals;
    var s0, n := InitialState(previous, at), |events| - 1;
    if |events| == 1 {
      OneEvent(c, t, previous, p, at, events);
      OnlyStep(c, s0, Queue(p, at));
      QueueWaits(c, previous, p, at);
    } else {
      DriveEventsNonEmpty(c, t, previous, p, at, events);
      DriveEventsFront(c, t, previous, p, at, events);
      var front, last := events[..n], events[n];
      assert Run(c, s0, front[..|front| - 1]).commits == [] by { EarlierSilent(c, s0, front); }
      RunCovers(c, t, previous, p, at, front);
      var s, sent := Run(c, s0, front).state, SentDuring(c, s0, front);
      assert last.Deliver?;
      NextIsHandle(c, s, last.signed, last.now);
      if Waiting(previous, p, s) { WaitingHandles(c, previous, p, s, last.signed, last.now, sent); }
      else { StuckHandles(c, s, last.signed, last.now, sent); }
      LastStep(c, s0, events);
      NoMoreProposals(sent, SetOf(Next(c, s, last).Outbound()));
    }
  }

  lemma QueueWaits(c: Config, previous: Hash, p: Proposal, at: int)
    requires c.Valid() && c.ProposerFor(previous, 0) != c.local
    ensures var o := Next(c, InitialState(previous, at), Queue(p, at));
            Waiting(previous, p, o.state) && o.Commits() == [] && NoProposals(SetOf(o.Outbound()))
  {
    hide QueueProposal;
    AfterQueue(c, previous, p, at);
  }

  lemma NoMoreProposals(sent: set<Envelope>, more: set<Envelope>)
    requires NoProposals(sent) && NoProposals(more)
    ensures NoProposals(sent + more)
  {
  }

  lemma CoveredReturned(c: Config, previous: Hash, t: Transport, p: Proposal, at: int)
    requires c.Valid() && c.committee.maxFaulty == 0 && NoneAfterLoss(c, previous, p) && NoForgery(c, t, {})
    ensures var d := Drive(c, InitialState(previous, at), t, p, at);
            d.result.Ok? ==> CoversStart(c, previous, d.result.value)
  {
    hide Next, Drive, NoForgery, Run, AdmissibleRun, SentDuring, NoneAfterLoss, Waiting, Stuck;
    var s0 := InitialState(previous, at);
    if c.ProposerFor(previous, 0) == c.local { LeaderReturnsOwn(c, previous, t, p, at); }
    else if Drive(c, s0, t, p, at).result.Ok? {
      DriveRefused(c, s0, t, p, at);
      DriveTicks(c, s0, t, p, at);
      var events := DriveTold(c, s0, t, p, at, {});
      RunCovers(c, t, previous, p, at, events);
      assert Run(c, s0, events).commits[0] in Run(c, s0, events).commits;
    }
  }

  // -------------------------------------------------------------------------
  // A commit over another hash

  /** A proposal of height 2, on top of `hash`. */
  function SecondHeight(c: Config, hash: Hash, now: int, leader: AgentId, r: nat, y: Proposal): SignedEnvelope {
    Signed(c.crypto, Envelope(c.crypto.roundSubject(2, r), Message(2, r, hash, leader, now, Propose(y))))
  }

  /** The state after a lost commit and a stray precommit of `b` for nothing. */
  function AfterLoss(
    c: Config, previous: Hash, p: Proposal, at: int, b: AgentId, r: nat, e: SignedEnvelope): NodeState {
    var s := InitialState(previous, at).(pending := Some(p), seen := map[KeyOf(e.envelope.message) := e]);
    Entered(c, s, r, p, at).(precommits := map[r := Unanimous({b}, None)])
  }

  /** A precommit of a round the node leads makes it lose the commit of its pending proposal. */
  lemma PrecommitLoses(c: Config, previous: Hash, p: Proposal, at: int, b: AgentId, r: nat)
    requires c.Valid() && c.committee.maxFaulty == 0 && PeersSign(c) && b in c.committee.members && b != c.local
    requires r >= 1 && c.ProposerFor(previous, r) == c.local
    ensures var e := Wire(c.crypto, previous, at, b, r, Vote(Precommit, None));
            HandleSigned(c, InitialState(previous, at).(pending := Some(p)), e, at)
            == Idle(AfterLoss(c, previous, p, at, b, r, e))
  {
    hide AdvanceRound, ExcludeSender, PeersSign, Config.ProposerFor;
    var e := Wire(c.crypto, previous, at, b, r, Vote(Precommit, None));
    WireVerifies(c, previous, at, b, r, Vote(Precommit, None));
    var s := InitialState(previous, at).(pending := Some(p), seen := map[KeyOf(e.envelope.message) := e]);
    CatchUpCommits(c, s, p, r, at);
    FirstUnanimous(b, None);
  }

  /** The proposal of a peer that leads a round of the next height then commits at that height. */
  lemma NextHeightCommits(
    c: Config, previous: Hash, p: Proposal, y: Proposal, at: int, b: AgentId, r: nat, r': nat, e: SignedEnvelope)
    requires c.Valid() && c.committee.maxFaulty == 0 && PeersSign(c) && b != c.local && e.envelope.message.height == 1
    requires c.ProposerFor(c.crypto.commitHash(1, r, previous, p), r') != c.local
    ensures var hash := c.crypto.commitHash(1, r, previous, p);
            var o := HandleSigned(c, AfterLoss(c, previous, p, at, b, r, e),
                                  SecondHeight(c, hash, at, c.ProposerFor(hash, r'), r', y), at);
            o.result.Ok? && |o.Commits()| == 1 && o.Commits()[0].height == 2
  {
    hide EmitPrevote, HandleSigned, PeersSign, Config.ProposerFor;
    var hash := c.crypto.commitHash(1, r, previous, p);
    var leader := c.ProposerFor(hash, r');
    LeaderIsMember(c, hash, r');
    var s, m := AfterLoss(c, previous, p, at, b, r, e), SecondHeight(c, hash, at, leader, r', y);
    SecondVerifies(c, hash, at, leader, r', y);
    ReachesBody(c, s, m, at);
    var s1 := Arrived(s, m, r', at).(proposals := map[r' := y]);
    ProposalCommits(c, s1, r', y, at);
    assert HandleSigned(c, s, m, at) == EmitPrevote(c, s1, r', Some(y.id), at);
  }

  lemma SecondVerifies(c: Config, hash: Hash, now: int, leader: AgentId, r: nat, y: Proposal)
    requires PeersSign(c) && leader in c.committee.members && leader != c.local
    ensures c.crypto.verifies(SecondHeight(c, hash, now, leader, r, y))
  {
  }

  /** If a peer can propose after a lost commit, some transport makes the driver return a commit of height 2. */
  lemma SecondHeightReturned(c: Config, previous: Hash, p: Proposal, at: int) returns (t: Transport)
    requires c.Valid() && c.holdsKey && c.committee.maxFaulty == 0 && PeersSign(c) && !NoneAfterLoss(c, previous, p)
    ensures NoForgery(c, t, {})
    ensures var d := Drive(c, InitialState(previous, at), t, p, at); d.result.Ok? && d.result.value.height == 2
  {
    hide QueueProposal, HandleSigned, AbsorbAll, Drive, PeersSign, Config.ProposerFor, NoForgery, Wire, SecondHeight,
         AfterLoss;
    var s0, b := InitialState(previous, at), c.ProposerFor(previous, 0);
    var r: nat :|
      r >= 1 && c.ProposerFor(previous, r) == c.local && !LeadsAll(c, c.crypto.commitHash(1, r, previous, p));
    var hash := c.crypto.commitHash(1, r, previous, p);
    var r': nat :| c.ProposerFor(hash, r') != c.local;
    LeaderIsMember(c, previous, 0);
    AfterQueue(c, previous, p, at);
    var s := QueueProposal(c, s0, p, at).state;
    var e1 := Wire(c.crypto, previous, at, b, r, Vote(Precommit, None));
    var e2 := SecondHeight(c, hash, at, c.ProposerFor(hash, r'), r', p);
    PrecommitLoses(c, previous, p, at, b, r);
    WireHeight(c, previous, at, b, r, Vote(Precommit, None));
    NextHeightCommits(c, previous, p, p, at, b, r, r', e1);
    var lost := AfterLoss(c, previous, p, at, b, r, e1);
    var o := HandleSigned(c, lost, e2, at);
    var none: seq<Envelope> := [];
    assert [e1] + [e2] == [e1, e2] && [e2] + [] == [e2] && none + none == none;
    AbsorbOne(c, s, e1, [e2], at, 0, none);
    AbsorbOne(c, lost, e2, [], at, 1, none);
    OnceReturns(c, s0, [e1, e2], p, at, o.Commits()[0]);
    SecondFrom(c, hash, at, c.ProposerFor(hash, r'), r', p);
    OnceCannotForge(c, [e1, e2]);
    t := Once([e1, e2]);
  }

  lemma WireHeight(c: Config, previous: Hash, now: int, a: AgentId, r: nat, body: Body)
    ensures var m := Wire(c.crypto, previous, now, a, r, body).envelope.message; m.height == 1 && m.from == a
  {
  }

  lemma SecondFrom(c: Config, hash: Hash, now: int, leader: AgentId, r: nat, y: Proposal)
    ensures SecondHeight(c, hash, now, leader, r, y).envelope.message.from == leader
  {
  }

  /** On every transport that cannot forge, the driver returns only commits hashed over where the node started. */
  ghost predicate AlwaysCovers(c: Config, previous: Hash, p: Proposal, at: int)
    requires c.Valid()
  {
    forall t | NoForgery(c, t, {}) ::
      var d := Drive(c, InitialState(previous, at), t, p, at);
      d.result.Ok? ==> CoversStart(c, previous, d.result.value)
  }

  /**
   What the returned commit is hashed over, exactly.  Where a fault is tolerated it is always the hash the node
   started from.  Where none is, a node that holds its key among peers whose signatures verify returns only such
   commits, on every transport that cannot forge, if and only if it leads round 0 or no peer can propose after a
   lost commit.
   */
  lemma CoversExactly(c: Config, previous: Hash, p: Proposal, at: int)
    requires c.Valid() && c.holdsKey && PeersSign(c)
    ensures AlwaysCovers(c, previous, p, at) <==> c.committee.maxFaulty >= 1 || NoneAfterLoss(c, previous, p)
  {
    hide Drive, NoForgery, PeersSign, NoneAfterLoss;
    if c.committee.maxFaulty >= 1 || NoneAfterLoss(c, previous, p) {
      forall t | NoForgery(c, t, {}) ensures
        var d := Drive(c, InitialState(previous, at), t, p, at);
        d.result.Ok? ==> CoversStart(c, previous, d.result.value)
      {
        if c.committee.maxFaulty >= 1 { TolerantCovers(c, previous, t, p, at); }
        else { CoveredReturned(c, previous, t, p, at); }
      }
    } else {
      var t := SecondHeightReturned(c, previous, p, at);
    }
  }

  lemma TolerantCovers(c: Config, previous: Hash, t: Transport, p: Proposal, at: int)
    requires c.Valid() && c.committee.maxFaulty >= 1
    ensures var d := Drive(c, InitialState(previous, at), t, p, at);
            d.result.Ok? ==> CoversStart(c, previous, d.result.value)
  {
    hide Drive;
    StartsIntact(c, previous, at);
    DriveLinks(c, InitialState(previous, at), t, p, at);
  }

  /** In the committee of two of `PairLosesCommit`, a transport makes the driver return a commit of height 2. */
  lemma PairReturnsSecondHeight(p: Proposal, at: int) returns (t: Transport)
    ensures PairOfTwo().Valid() && NoForgery(PairOfTwo(), t, {})
    ensures var d := Drive(PairOfTwo(), InitialState("genesis", at), t, p, at);
            d.result.Ok? && d.result.value.height == 2
  {
    hide Drive, NoForgery;
    var c := PairOfTwo();
    assert c.committee.members[0] == 0 && c.committee.members[1] == 1;
    assert c.ProposerFor("genesis", 0) == 1 && c.ProposerFor("genesis", 1) == 0;
    var hash := c.crypto.commitHash(1, 1, "genesis", p);
    assert c.ProposerFor(hash, 0) == 1;
    assert !LeadsAll(c, hash);
    t := SecondHeightReturned(c, "genesis", p, at);
  }
}
