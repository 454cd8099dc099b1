/**
 Safety of a whole committee.

 A system of honest nodes and up to `maxFaulty` Byzantine members over a network that may deliver any
 envelope to any node at any time, any number of times, or never.  The adversary may invent envelopes;
 it cannot produce one that verifies in the name of an honest member that did not send it.
 */
module CommitteeAgreement {
  import opened Wrappers
  import opened ConsensusModel
  import opened CommitChain
  import opened VoteProvenance

  ghost function MemberSet(members: seq<AgentId>): set<AgentId> { set a | a in members }

  /** Fixed parameters of a run.  Each honest node has its own starting hash and clock. */
  datatype Network = Network(
    committee: Committee, crypto: Crypto, roundTimeout: int, honest: set<AgentId>,
    genesis: AgentId -> Hash, startedAt: AgentId -> int) {

    ghost predicate Valid() {
      && committee.Valid() && roundTimeout > 0
      && (forall a | a in honest :: a in committee.members)
      && |Byzantine()| <= committee.maxFaulty
    }

    /** The committee tolerates a fault. */
    ghost predicate Tolerant() { Valid() && committee.maxFaulty >= 1 }

    ghost function Members(): set<AgentId> { MemberSet(committee.members) }

    ghost function Byzantine(): set<AgentId> { Members() - honest }

    /** Any two quorums share an honest member.  Every committee of at most `3f + 1` members does this. */
    ghost predicate Overlapping() { |committee.members| + |Byzantine()| <= 4 * committee.maxFaulty + 1 }

    function ConfigOf(node: AgentId): Config { Config(node, true, committee, roundTimeout, crypto) }
  }

  /** State of the honest nodes, everything each has sent and every commit each has reported. */
  datatype System = System(
    nodes: map<AgentId, NodeState>, sent: map<AgentId, set<Envelope>>, commits: map<AgentId, seq<CommitRecord>>)

  datatype Move = Move(node: AgentId, event: Event)

  ghost function InitialSystem(net: Network): System {
    System(map a | a in net.honest :: InitialState(net.genesis(a), net.startedAt(a)),
           map a | a in net.honest :: {},
           map a | a in net.honest :: [])
  }

  ghost predicate Covers(net: Network, g: System) {
    g.nodes.Keys == net.honest && g.sent.Keys == net.honest && g.commits.Keys == net.honest
  }

  /** Any honest node may take any step; verified envelopes of honest senders must have been sent. */
  ghost predicate Allowed(net: Network, g: System, move: Move)
    requires Covers(net, g)
  {
    && move.node in net.honest
    && !move.event.DeliverUnsigned?
    && (move.event.Deliver? ==>
          var e := move.event.signed;
          net.crypto.verifies(e) && e.envelope.message.from in net.honest
          ==> e.envelope in g.sent[e.envelope.message.from])
  }

  /** Books the outcome of a step of `a`. */
  ghost function Booked(net: Network, g: System, a: AgentId, o: Outcome): (g': System)
    requires Covers(net, g) && a in net.honest
    ensures Covers(net, g')
    ensures forall b | b in net.honest :: g.sent[b] <= g'.sent[b]
    ensures forall b | b in net.honest && b != a ::
              g'.nodes[b] == g.nodes[b] && g'.sent[b] == g.sent[b] && g'.commits[b] == g.commits[b]
  {
    System(g.nodes[a := o.state], g.sent[a := g.sent[a] + SetOf(o.Outbound())],
           g.commits[a := g.commits[a] + o.Commits()])
  }

  ghost function After(net: Network, g: System, move: Move): System
    requires net.Valid() && Covers(net, g) && Allowed(net, g, move)
  {
    Booked(net, g, move.node, Next(net.ConfigOf(move.node), g.nodes[move.node], move.event))
  }

  /** `trace` is a run: each state follows from the one before by an allowed move. */
  ghost predicate IsRun(net: Network, trace: seq<System>, moves: seq<Move>)
    requires net.Valid()
  {
    && |trace| == |moves| + 1
    && trace[0] == InitialSystem(net)
    && (forall i | 0 <= i < |trace| :: Covers(net, trace[i]))
    && forall i | 0 <= i < |moves| ::
         Allowed(net, trace[i], moves[i]) && trace[i + 1] == After(net, trace[i], moves[i])
  }

  // -------------------------------------------------------------------------
  // Quorums

  lemma SubsetSize<T>(a: set<T>, b: set<T>)
    requires a <= b
    ensures |a| <= |b|
  {
    assert b == a + (b - a);
    assert |b| == |a| + |b - a|;
  }

  lemma {:induction false} MembersSize(members: seq<AgentId>)
    requires forall i, j | 0 <= i < j < |members| :: members[i] < members[j]
    ensures |MemberSet(members)| == |members|
  {
    if members != [] {
      var front, last := members[..|members| - 1], members[|members| - 1];
      MembersSize(front);
      assert members == front + [last];
      assert last !in front;
      assert MemberSet(members) == MemberSet(front) + {last};
    }
  }

  /** Two quorums meet outside the faulty members, if these and all members are together at most `4f + 1`. */
  lemma QuorumsMeet(all: set<AgentId>, faulty: set<AgentId>, f: nat, q1: set<AgentId>, q2: set<AgentId>)
    returns (a: AgentId)
    requires |all| + |faulty| <= 4 * f + 1 && q1 <= all && q2 <= all
    requires |q1| >= 2 * f + 1 && |q2| >= 2 * f + 1
    ensures a in q1 && a in q2 && a !in faulty
  {
    assert |q1 + q2| == |q1| + |q2| - |q1 * q2|;
    SubsetSize(q1 + q2, all);
    var both := q1 * q2;
    assert |both| > |faulty|;
    assert !(both <= faulty) by { if both <= faulty { SubsetSize(both, faulty); } }
    a :| a in both && a !in faulty;
  }

  lemma Take(s: set<AgentId>, k: nat) returns (t: set<AgentId>)
    requires k <= |s|
    ensures t <= s && |t| == k
  {
    if k == 0 {
      t := {};
    } else {
      var a :| a in s;
      assert |s - {a}| == |s| - 1;
      var rest := Take(s - {a}, k - 1);
      t := rest + {a};
    }
  }

  // -------------------------------------------------------------------------
  // The system invariant

  /** A quorum stands behind the commit: each honest member of it sent that precommit. */
  ghost predicate Supported(
    net: Network, sent: map<AgentId, set<Envelope>>, previous: Hash, commit: CommitRecord, quorum: set<AgentId>)
    requires sent.Keys == net.honest
  {
    && quorum <= net.Members() && |quorum| >= net.committee.Threshold()
    && forall a | a in quorum && a in net.honest ::
         SentPrecommit(sent[a], commit.height, commit.round, previous, Some(commit.proposal.id))
  }

  ghost predicate HasSupport(net: Network, sent: map<AgentId, set<Envelope>>, previous: Hash, commit: CommitRecord)
    requires sent.Keys == net.honest
  {
    exists quorum :: Supported(net, sent, previous, commit, quorum)
  }

  /** Envelopes a node holds from honest senders were sent by them. */
  ghost predicate Authentic(net: Network, sent: map<AgentId, set<Envelope>>, seen: map<MessageKey, SignedEnvelope>)
    requires sent.Keys == net.honest
  {
    forall key | key in seen && key.from in net.honest :: seen[key].envelope in sent[key.from]
  }

  ghost predicate NodeOk(net: Network, g: System, a: AgentId)
    requires Covers(net, g) && a in net.honest
  {
    var c, s, commits := net.ConfigOf(a), g.nodes[a], g.commits[a];
    && Inv(c, s, g.sent[a])
    && Authentic(net, g.sent, s.seen)
    && Intact(c, net.genesis(a), Trace(s, commits))
    && forall i | 0 <= i < |commits| :: Stands(net, g.sent, a, PreviousOf(net.genesis(a), commits, i), commits[i])
  }

  ghost predicate SystemInv(net: Network, g: System) {
    Covers(net, g) && forall a | a in net.honest :: NodeOk(net, g, a)
  }

  lemma InitialSystemInv(net: Network)
    requires net.Tolerant()
    ensures SystemInv(net, InitialSystem(net))
  {
    forall a | a in net.honest ensures NodeOk(net, InitialSystem(net), a) {
      InitialInv(net.ConfigOf(a), net.genesis(a), net.startedAt(a));
    }
  }

  /** Sending more never takes support away. */
  lemma SupportGrows(
    net: Network, sent: map<AgentId, set<Envelope>>, sent': map<AgentId, set<Envelope>>, previous: Hash,
    commit: CommitRecord)
    requires sent.Keys == net.honest == sent'.Keys && forall a | a in net.honest :: sent[a] <= sent'[a]
    requires HasSupport(net, sent, previous, commit)
    ensures HasSupport(net, sent', previous, commit)
  {
    var quorum :| Supported(net, sent, previous, commit, quorum);
    forall a | a in quorum && a in net.honest
      ensures SentPrecommit(sent'[a], commit.height, commit.round, previous, Some(commit.proposal.id))
    {
      assert SentPrecommit(sent[a], commit.height, commit.round, previous, Some(commit.proposal.id));
    }
    assert Supported(net, sent', previous, commit, quorum);
  }

  /** A certificate held by one honest node is support in the whole system. */
  lemma CertificateSupports(
    net: Network, a: AgentId, seen: map<MessageKey, SignedEnvelope>, sent: map<AgentId, set<Envelope>>,
    previous: Hash, commit: CommitRecord)
    requires sent.Keys == net.honest && a in net.honest
    requires Authentic(net, sent, seen) && Certified(net.ConfigOf(a), seen, sent[a], previous, commit)
    ensures Stands(net, sent, a, previous, commit)
  {
    var c, choice := net.ConfigOf(a), Some(commit.proposal.id);
    var p, q :|
      && |p| == commit.prevoteTally && |q| == commit.precommitTally
      && IsQuorum(c, seen, sent[a], commit.height, commit.round, previous, Prevote, choice, p)
      && IsQuorum(c, seen, sent[a], commit.height, commit.round, previous, Precommit, choice, q);
    forall b | b in q && b in net.honest && b != a
      ensures SentPrecommit(sent[b], commit.height, commit.round, previous, choice)
    {
      assert SeenVote(c, seen, commit.height, previous, Precommit, commit.round, b, choice);
      var key := MessageKey(commit.height, commit.round, b, VoteKind(Precommit));
      assert seen[key].envelope in sent[b] && IsVote(seen[key].envelope, commit.height, commit.round, Precommit);
    }
    assert Supported(net, sent, previous, commit, q);
  }

  /** The acting node after one move, with the system's sent envelopes already updated. */
  lemma ActorOk(net: Network, g: System, move: Move)
    requires net.Tolerant() && SystemInv(net, g) && Allowed(net, g, move)
    ensures NodeOk(net, After(net, g, move), move.node)
  {
    hide Next, Inv, Certified, Links, HasSupport, Network.Valid, Config.Valid, IsChain;
    var a, g' := move.node, After(net, g, move);
    var c, s := net.ConfigOf(a), g.nodes[a];
    ConfigsValid(net, a);
    var o := Next(c, s, move.event);
    assert NodeOk(net, g, a);
    NextKeepsInv(c, s, g.sent[a], move.event);
    InvParts(c, s, g.sent[a]);
    InvParts(c, o.state, g'.sent[a]);
    NextKeeps(c, s, move.event);
    SeenAuthentic(net, g, g', move, o.state.seen);
    NodeChain(net, g, g', a, o);
  }

  lemma ConfigsValid(net: Network, a: AgentId)
    requires net.Tolerant() && a in net.honest
    ensures net.ConfigOf(a).Valid() && net.committee.maxFaulty >= 1
  {
  }

  lemma InvParts(c: Config, s: NodeState, sent: set<Envelope>)
    requires Inv(c, s, sent)
    ensures FutureEmpty(s) && VotesOnce(sent) && SeenOk(c, s.seen)
  {
  }

  lemma SeenAuthentic(net: Network, g: System, g': System, move: Move, seen: map<MessageKey, SignedEnvelope>)
    requires Covers(net, g) && Covers(net, g') && Allowed(net, g, move)
    requires Authentic(net, g.sent, g.nodes[move.node].seen)
    requires SeenOk(net.ConfigOf(move.node), g.nodes[move.node].seen)
    requires SeenFrom(net.ConfigOf(move.node), g.nodes[move.node].seen, move.event, seen)
    requires forall key | key in seen :: KeyOf(seen[key].envelope.message) == key
    requires forall a | a in net.honest :: g.sent[a] <= g'.sent[a]
    ensures Authentic(net, g'.sent, seen)
  {
  }

  /** A commit that stands: a quorum precommitted it, and the node precommitted nothing of its height later. */
  ghost predicate Stands(
    net: Network, sent: map<AgentId, set<Envelope>>, a: AgentId, previous: Hash, commit: CommitRecord)
    requires sent.Keys == net.honest && a in net.honest
  {
    HasSupport(net, sent, previous, commit) && LastWord(sent[a], commit)
  }

  /** What the acting node sends does not touch the commits of earlier heights. */
  lemma StandsStill(
    net: Network, sent: map<AgentId, set<Envelope>>, sent': map<AgentId, set<Envelope>>, a: AgentId,
    more: seq<Envelope>, height: nat, previous: Hash, commit: CommitRecord)
    requires sent.Keys == net.honest == sent'.Keys && a in net.honest
    requires forall b | b in net.honest :: sent[b] <= sent'[b]
    requires sent'[a] == sent[a] + SetOf(more) && AllAt(more, height) && commit.height != height
    requires Stands(net, sent, a, previous, commit)
    ensures Stands(net, sent', a, previous, commit)
  {
    hide HasSupport;
    SupportGrows(net, sent, sent', previous, commit);
  }

  /** The commit log of the acting node stays a chain of commits that stand. */
  lemma NodeChain(net: Network, g: System, g': System, a: AgentId, o: Outcome)
    requires Covers(net, g) && Covers(net, g') && a in net.honest && NodeOk(net, g, a)
    requires g'.nodes[a] == o.state && g'.commits[a] == g.commits[a] + o.Commits()
    requires g'.sent[a] == g.sent[a] + SetOf(o.Outbound())
    requires forall b | b in net.honest :: g.sent[b] <= g'.sent[b]
    requires KeepsChain(net.ConfigOf(a), g.nodes[a], o)
    requires Inv(net.ConfigOf(a), o.state, g'.sent[a]) && Authentic(net, g'.sent, o.state.seen)
    requires forall commit | commit in o.Commits() ::
               Certified(net.ConfigOf(a), o.state.seen, g'.sent[a], g.nodes[a].previous, commit)
    ensures NodeOk(net, g', a)
  {
    hide Inv, Certified, Links, HasSupport, Authentic, LastWord, IsChain, AllAt;
    var genesis, before, after := net.genesis(a), g.commits[a], g'.commits[a];
    ChainGrows(net.ConfigOf(a), genesis, Trace(g.nodes[a], before), o);
    forall i | 0 <= i < |after| ensures Stands(net, g'.sent, a, PreviousOf(genesis, after, i), after[i]) {
      if i < |before| {
        assert PreviousOf(genesis, after, i) == PreviousOf(genesis, before, i) && after[i] == before[i];
        assert before[i].height == i + 1 by { ChainHeight(net.ConfigOf(a), genesis, before, i); }
        StandsStill(net, g.sent, g'.sent, a, o.Outbound(), g.nodes[a].height, PreviousOf(genesis, before, i),
                    before[i]);
      } else {
        assert after[i] in o.Commits();
        CertificateSupports(net, a, o.state.seen, g'.sent, g.nodes[a].previous, after[i]);
      }
    }
  }

  lemma ChainHeight(c: Config, genesis: Hash, commits: seq<CommitRecord>, i: nat)
    requires IsChain(c, genesis, commits) && i < |commits|
    ensures commits[i].height == i + 1
  {
    assert Links(c, i + 1, PreviousOf(genesis, commits, i), commits[i]);
  }

  /** A node that does not move keeps its invariant as others send. */
  lemma BystanderOk(net: Network, g: System, g': System, a: AgentId)
    requires Covers(net, g) && Covers(net, g') && a in net.honest && NodeOk(net, g, a)
    requires g'.nodes[a] == g.nodes[a] && g'.sent[a] == g.sent[a] && g'.commits[a] == g.commits[a]
    requires forall b | b in net.honest :: g.sent[b] <= g'.sent[b]
    ensures NodeOk(net, g', a)
  {
    hide Inv, HasSupport, IsChain, LastWord;
    forall i | 0 <= i < |g.commits[a]|
      ensures Stands(net, g'.sent, a, PreviousOf(net.genesis(a), g.commits[a], i), g.commits[a][i])
    {
      assert Stands(net, g.sent, a, PreviousOf(net.genesis(a), g.commits[a], i), g.commits[a][i]);
      SupportGrows(net, g.sent, g'.sent, PreviousOf(net.genesis(a), g.commits[a], i), g.commits[a][i]);
    }
  }

  /** Every allowed move keeps the system invariant. */
  lemma MoveKeepsInv(net: Network, g: System, move: Move)
    requires net.Tolerant() && SystemInv(net, g) && Allowed(net, g, move)
    ensures SystemInv(net, After(net, g, move))
  {
    hide Next, NodeOk, Network.Valid;
    ActorOk(net, g, move);
    forall b | b in net.honest && b != move.node ensures NodeOk(net, After(net, g, move), b) {
      BystanderOk(net, g, After(net, g, move), b);
    }
  }

  lemma {:induction false} RunInv(net: Network, trace: seq<System>, moves: seq<Move>, i: nat)
    requires net.Tolerant() && IsRun(net, trace, moves) && i < |trace|
    ensures SystemInv(net, trace[i])
  {
    hide SystemInv, After, Network.Valid, Allowed, InitialSystem;
    if i == 0 {
      InitialSystemInv(net);
    } else {
      RunInv(net, trace, moves, i - 1);
      assert trace[i - 1 + 1] == After(net, trace[i - 1], moves[i - 1]);
      MoveKeepsInv(net, trace[i - 1], moves[i - 1]);
    }
  }

  // -------------------------------------------------------------------------
  // Agreement

  lemma HonestInBoth(net: Network, q1: set<AgentId>, q2: set<AgentId>) returns (a: AgentId)
    requires net.Tolerant() && net.Overlapping()
    requires q1 <= net.Members() && |q1| >= net.committee.Threshold()
    requires q2 <= net.Members() && |q2| >= net.committee.Threshold()
    ensures a in q1 && a in q2 && a in net.honest
  {
    MembersSize(net.committee.members);
    a := QuorumsMeet(net.Members(), net.Byzantine(), net.committee.maxFaulty, q1, q2);
  }

  /** Every committee of at most `3f + 1` members overlaps. */
  lemma SmallOverlaps(net: Network)
    requires net.Valid()
    ensures |net.committee.members| <= 3 * net.committee.maxFaulty + 1 ==> net.Overlapping()
  {
  }

  /** Two supported commits of the same height and round agree on the proposal and on the hash they
      extend, because some honest member stands behind both and precommits once. */
  lemma SupportAgrees(
    net: Network, g: System, previous1: Hash, commit1: CommitRecord, previous2: Hash, commit2: CommitRecord)
    requires net.Tolerant() && SystemInv(net, g) && net.Overlapping()
    requires HasSupport(net, g.sent, previous1, commit1) && HasSupport(net, g.sent, previous2, commit2)
    requires commit1.height == commit2.height && commit1.round == commit2.round
    ensures commit1.proposal.id == commit2.proposal.id && previous1 == previous2
  {
    hide Inv, Authentic, IsChain, Network.Valid;
    var q1 :| Supported(net, g.sent, previous1, commit1, q1);
    var q2 :| Supported(net, g.sent, previous2, commit2, q2);
    var a := HonestInBoth(net, q1, q2);
    assert NodeOk(net, g, a);
    InvParts(net.ConfigOf(a), g.nodes[a], g.sent[a]);
    var e1 :| e1 in g.sent[a] && IsVote(e1, commit1.height, commit1.round, Precommit)
              && e1.message.body.choice == Some(commit1.proposal.id) && e1.message.previous == previous1;
    var e2 :| e2 in g.sent[a] && IsVote(e2, commit2.height, commit2.round, Precommit)
              && e2.message.body.choice == Some(commit2.proposal.id) && e2.message.previous == previous2;
    assert IsVote(e2, e1.message.height, e1.message.round, e1.message.body.phase);
  }

  lemma AgreeAt(net: Network, g: System, a: AgentId, b: AgentId, i: nat)
    requires net.Tolerant() && SystemInv(net, g) && net.Overlapping()
    requires a in net.honest && b in net.honest && i < |g.commits[a]| && i < |g.commits[b]|
    requires g.commits[a][i].round == g.commits[b][i].round
    ensures g.commits[a][i].height == g.commits[b][i].height == i + 1
    ensures g.commits[a][i].proposal.id == g.commits[b][i].proposal.id
    ensures PreviousOf(net.genesis(a), g.commits[a], i) == PreviousOf(net.genesis(b), g.commits[b], i)
  {
    hide Inv, HasSupport, Authentic, Network.Valid;
    assert NodeOk(net, g, a) && NodeOk(net, g, b);
    SupportAgrees(net, g, PreviousOf(net.genesis(a), g.commits[a], i), g.commits[a][i],
                  PreviousOf(net.genesis(b), g.commits[b], i), g.commits[b][i]);
  }

  /** Agreement.  In every run in which at most `f` members are Byzantine, and these and all members are together at
      most `4f + 1`, as they are with up to `3f + 1` members, two honest nodes whose commits of height `i + 1` were
      reached in the same round committed the same proposal
      id, on top of the same hash. */
  lemma Agreement(net: Network, trace: seq<System>, moves: seq<Move>, k: nat, a: AgentId, b: AgentId, i: nat)
    requires net.Tolerant() && net.Overlapping()
    requires IsRun(net, trace, moves) && k < |trace| && a in net.honest && b in net.honest
    requires i < |trace[k].commits[a]| && i < |trace[k].commits[b]|
    requires trace[k].commits[a][i].round == trace[k].commits[b][i].round
    ensures trace[k].commits[a][i].height == trace[k].commits[b][i].height == i + 1
    ensures trace[k].commits[a][i].proposal.id == trace[k].commits[b][i].proposal.id
    ensures PreviousOf(net.genesis(a), trace[k].commits[a], i) == PreviousOf(net.genesis(b), trace[k].commits[b], i)
  {
    hide SystemInv, Network.Valid, Allowed, After, InitialSystem;
    RunInv(net, trace, moves, k);
    AgreeAt(net, trace[k], a, b, i);
  }

  // -------------------------------------------------------------------------
  // Agreement across rounds

  lemma WholeCommittee(net: Network, q: set<AgentId>)
    requires net.Tolerant() && |net.committee.members| == net.committee.Threshold()
    requires q <= net.Members() && |q| >= net.committee.Threshold()
    ensures q == net.Members()
  {
    hide Network.Members;
    MembersCount(net);
    FullSubset(q, net.Members());
  }

  lemma MembersCount(net: Network)
    requires net.committee.Valid()
    ensures |net.Members()| == |net.committee.members|
  {
    MembersSize(net.committee.members);
  }

  lemma FullSubset(a: set<AgentId>, b: set<AgentId>)
    requires a <= b && |a| >= |b|
    ensures a == b
  {
    assert |b - a| == |b| - |a|;
  }

  /** Where a quorum is the whole committee, `b` commits no later than `a`: `a` stands behind the commit of
      `b`, and precommitted nothing of that height after its own. */
  lemma CommitsNoLater(net: Network, g: System, a: AgentId, b: AgentId, i: nat)
    requires net.Tolerant() && SystemInv(net, g) && |net.committee.members| == net.committee.Threshold()
    requires a in net.honest && b in net.honest && i < |g.commits[a]| && i < |g.commits[b]|
    ensures g.commits[b][i].round <= g.commits[a][i].round
  {
    hide Inv, Authentic, Network.Valid;
    assert NodeOk(net, g, a) && NodeOk(net, g, b);
    var mine, theirs := g.commits[a][i], g.commits[b][i];
    ChainHeight(net.ConfigOf(a), net.genesis(a), g.commits[a], i);
    ChainHeight(net.ConfigOf(b), net.genesis(b), g.commits[b], i);
    assert Stands(net, g.sent, a, PreviousOf(net.genesis(a), g.commits[a], i), mine);
    var previous := PreviousOf(net.genesis(b), g.commits[b], i);
    assert Stands(net, g.sent, b, previous, theirs);
    var q :| Supported(net, g.sent, previous, theirs, q);
    WholeCommittee(net, q);
    assert a in q by { HonestIsMember(net, a); }
    assert SentPrecommit(g.sent[a], theirs.height, theirs.round, previous, Some(theirs.proposal.id));
  }

  lemma HonestIsMember(net: Network, a: AgentId)
    requires net.Tolerant() && a in net.honest
    ensures a in net.Members()
  {
  }

  /** All honest commits of a height carry the same proposal id. */
  ghost predicate AgreeIn(net: Network, g: System)
    requires Covers(net, g)
  {
    forall a, b, i: nat | a in net.honest && b in net.honest && i < |g.commits[a]| && i < |g.commits[b]| ::
      g.commits[a][i].proposal.id == g.commits[b][i].proposal.id
  }

  /** All honest commits of a height and round carry the same proposal id. */
  ghost predicate AgreePerRoundIn(net: Network, g: System)
    requires Covers(net, g)
  {
    forall a, b, i: nat | a in net.honest && b in net.honest && i < |g.commits[a]| && i < |g.commits[b]|
                          && g.commits[a][i].round == g.commits[b][i].round ::
      g.commits[a][i].proposal.id == g.commits[b][i].proposal.id
  }

  ghost predicate Reachable(net: Network, g: System)
    requires net.Valid()
  {
    exists trace, moves :: IsRun(net, trace, moves) && g in trace
  }

  ghost predicate AlwaysAgrees(net: Network)
    requires net.Valid()
  {
    forall g | Reachable(net, g) && Covers(net, g) :: AgreeIn(net, g)
  }

  ghost predicate AlwaysAgreesPerRound(net: Network)
    requires net.Valid()
  {
    forall g | Reachable(net, g) && Covers(net, g) :: AgreePerRoundIn(net, g)
  }

  lemma ReachableInv(net: Network, g: System)
    requires net.Tolerant() && Reachable(net, g)
    ensures SystemInv(net, g)
  {
    hide Network.Valid, SystemInv, IsRun;
    var trace, moves :| IsRun(net, trace, moves) && g in trace;
    var i: nat :| i < |trace| && trace[i] == g;
    RunInv(net, trace, moves, i);
  }

  /** Where quorums overlap, honest commits of one height and round agree in every run. */
  lemma OverlapAgreesPerRound(net: Network)
    requires net.Tolerant() && net.Overlapping()
    ensures AlwaysAgreesPerRound(net)
  {
    hide Network.Valid, SystemInv, Reachable;
    forall g, a, b, i: nat |
      && Reachable(net, g) && Covers(net, g) && a in net.honest && b in net.honest
      && i < |g.commits[a]| && i < |g.commits[b]| && g.commits[a][i].round == g.commits[b][i].round
      ensures g.commits[a][i].proposal.id == g.commits[b][i].proposal.id
    {
      ReachableInv(net, g);
      AgreeAt(net, g, a, b, i);
    }
  }

  /** With exactly `2f + 1` members, honest commits of one height agree in every run, and were reached in the
      same round on top of the same hash. */
  lemma WholeCommitteeAgrees(net: Network, g: System, a: AgentId, b: AgentId, i: nat)
    requires net.Tolerant() && Reachable(net, g) && |net.committee.members| == net.committee.Threshold()
    requires Covers(net, g) && a in net.honest && b in net.honest && i < |g.commits[a]| && i < |g.commits[b]|
    ensures g.commits[a][i].round == g.commits[b][i].round
    ensures g.commits[a][i].proposal.id == g.commits[b][i].proposal.id
    ensures PreviousOf(net.genesis(a), g.commits[a], i) == PreviousOf(net.genesis(b), g.commits[b], i)
  {
    hide Network.Valid, SystemInv, Reachable;
    ReachableInv(net, g);
    SmallOverlaps(net);
    CommitsNoLater(net, g, a, b, i);
    CommitsNoLater(net, g, b, a, i);
    AgreeAt(net, g, a, b, i);
  }

  // -------------------------------------------------------------------------
  // Agreement on histories

  ghost predicate CollisionFree(crypto: Crypto) {
    forall h1, r1, p1, x1, h2, r2, p2, x2
      {:trigger crypto.commitHash(h1, r1, p1, x1), crypto.commitHash(h2, r2, p2, x2)} ::
      crypto.commitHash(h1, r1, p1, x1) == crypto.commitHash(h2, r2, p2, x2)
      ==> h1 == h2 && r1 == r2 && p1 == p2 && x1 == x2
  }

  /** Commits with the same hash are the same commit. */
  lemma SameHashSameCommit(net: Network, g: System, a: AgentId, b: AgentId, j: nat)
    requires SystemInv(net, g) && CollisionFree(net.crypto)
    requires a in net.honest && b in net.honest && j < |g.commits[a]| && j < |g.commits[b]|
    requires g.commits[a][j].hash == g.commits[b][j].hash
    ensures g.commits[a][j].proposal == g.commits[b][j].proposal && g.commits[a][j].round == g.commits[b][j].round
  {
    hide Inv, HasSupport, Authentic;
    assert NodeOk(net, g, a) && NodeOk(net, g, b);
    assert Links(net.ConfigOf(a), j + 1, PreviousOf(net.genesis(a), g.commits[a], j), g.commits[a][j]);
    assert Links(net.ConfigOf(b), j + 1, PreviousOf(net.genesis(b), g.commits[b], j), g.commits[b][j]);
  }

  lemma {:induction false} PrefixAgrees(net: Network, g: System, a: AgentId, b: AgentId, i: nat, j: nat)
    requires net.Tolerant() && SystemInv(net, g) && CollisionFree(net.crypto)
    requires net.Overlapping()
    requires a in net.honest && b in net.honest && j < i < |g.commits[a]| && i < |g.commits[b]|
    requires g.commits[a][i].round == g.commits[b][i].round
    ensures g.commits[a][j].proposal == g.commits[b][j].proposal && g.commits[a][j].round == g.commits[b][j].round
    decreases i - j
  {
    hide NodeOk, CollisionFree, Network.Valid;
    if j + 1 < i { PrefixAgrees(net, g, a, b, i, j + 1); }
    AgreeAt(net, g, a, b, j + 1);
    SameHashSameCommit(net, g, a, b, j);
  }

  /** The whole history agrees.  If the commit hash is collision-free, honest nodes that agree on the round
      of one height have committed exactly the same proposals, payloads included, at every height below. */
  lemma HistoryAgrees(
    net: Network, trace: seq<System>, moves: seq<Move>, k: nat, a: AgentId, b: AgentId, i: nat)
    requires net.Tolerant() && net.Overlapping() && CollisionFree(net.crypto)
    requires IsRun(net, trace, moves) && k < |trace| && a in net.honest && b in net.honest
    requires i < |trace[k].commits[a]| && i < |trace[k].commits[b]|
    requires trace[k].commits[a][i].round == trace[k].commits[b][i].round
    ensures forall j | 0 <= j < i :: trace[k].commits[a][j].proposal == trace[k].commits[b][j].proposal
  {
    hide SystemInv, Network.Valid, Allowed, After, InitialSystem, CollisionFree;
    RunInv(net, trace, moves, k);
    forall j | 0 <= j < i ensures trace[k].commits[a][j].proposal == trace[k].commits[b][j].proposal {
      PrefixAgrees(net, trace[k], a, b, i, j);
    }
  }
}
