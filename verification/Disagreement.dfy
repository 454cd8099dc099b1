/**
 How far agreement goes, exactly.

 Honest commits of one height agree in every run if and only if the committee has exactly `2f + 1` members;
 honest commits of one height and round do if and only if its members and its faulty members are together at
 most `4f + 1`.  One half of each is proved in `CommitteeAgreement`; here, for every larger committee, the run
 that breaks it is built.
 */
module Disagreement {
  import opened Wrappers
  import opened ConsensusModel
  import opened CommitChain
  import opened VoteProvenance
  import opened CommitteeAgreement
  import opened RoundSteps

  /** A network whose honest nodes start from the same hash, seen at a time when their first round is over. */
  datatype Scene = Scene(net: Network, genesis: Hash, now: int) {
    ghost predicate Valid() {
      && net.Tolerant() && SameStart(net, genesis) && Signs(net)
      && (forall a | a in net.honest :: net.startedAt(a) + net.roundTimeout <= now)
    }

    function Msg(a: AgentId, round: nat, body: Body): SignedEnvelope {
      Wire(net.crypto, genesis, now, a, round, body)
    }

    function Leader(round: nat): AgentId
      requires net.committee.Valid()
    {
      BestOf(net.committee.members, a => net.crypto.score(genesis, round, a))
    }
  }

  ghost predicate SameStart(net: Network, genesis: Hash) { forall a | a in net.honest :: net.genesis(a) == genesis }

  /** What a member signs verifies. */
  ghost predicate Signs(net: Network) { forall e: Envelope :: net.crypto.verifies(Signed(net.crypto, e)) }

  lemma Facts(k: Scene, a: AgentId)
    requires k.Valid() && a in k.net.honest
    ensures k.net.Tolerant() && k.net.ConfigOf(a).Valid() && k.net.committee.maxFaulty >= 1 && k.net.committee.Valid()
    ensures forall r: nat :: k.net.ConfigOf(a).ProposerFor(k.genesis, r) == k.Leader(r)
    ensures forall b, r: nat, body :: k.net.crypto.verifies(k.Msg(b, r, body))
  {
  }

  lemma Populated(k: Scene)
    requires k.Valid()
    ensures k.net.Tolerant() && k.net.committee.Valid() && k.net.committee.maxFaulty >= 1
    ensures forall r: nat :: k.Leader(r) in k.net.Members()
    ensures k.net.honest <= k.net.Members() && |k.net.Members()| == |k.net.committee.members|
    ensures |k.net.honest| >= |k.net.committee.members| - k.net.committee.maxFaulty
  {
    MembersCount(k.net);
    var all, honest := k.net.Members(), k.net.honest;
    assert all == honest + k.net.Byzantine();
    assert |all| == |honest| + |k.net.Byzantine()|;
  }

  // -------------------------------------------------------------------------
  // Moves

  ghost predicate OnRun(net: Network, g: System)
    requires net.Valid()
  {
    Covers(net, g) && EndsAt(net, g)
  }

  ghost predicate EndsAt(net: Network, g: System)
    requires net.Valid()
  {
    exists trace, moves :: IsRun(net, trace, moves) && trace[|moves|] == g
  }

  lemma OnRunIsReachable(net: Network, g: System)
    requires net.Valid() && OnRun(net, g)
    ensures Reachable(net, g)
  {
    hide Network.Valid;
    var trace, moves :| IsRun(net, trace, moves) && trace[|moves|] == g;
    assert g in trace;
  }

  lemma ReachStart(net: Network)
    requires net.Valid()
    ensures OnRun(net, InitialSystem(net))
  {
    hide Network.Valid;
    var trace: seq<System>, moves: seq<Move> := [InitialSystem(net)], [];
    assert IsRun(net, trace, moves) && trace[|moves|] == InitialSystem(net);
  }

  lemma ReachNext(net: Network, g: System, move: Move)
    requires net.Valid() && OnRun(net, g) && Allowed(net, g, move)
    ensures OnRun(net, After(net, g, move))
  {
    hide Network.Valid, After, Allowed, InitialSystem;
    var trace, moves :| IsRun(net, trace, moves) && trace[|moves|] == g;
    var g' := After(net, g, move);
    assert Covers(net, g') by { AfterCovers(net, g, move); }
    var trace', moves' := trace + [g'], moves + [move];
    assert IsRun(net, trace', moves') && trace'[|moves'|] == g';
  }

  lemma AfterCovers(net: Network, g: System, move: Move)
    requires net.Valid() && Covers(net, g) && Allowed(net, g, move)
    ensures Covers(net, After(net, g, move))
  {
    hide Network.Valid, Next, Allowed;
  }

  /** From `g` to `g'` only `a` acted, and nothing sent was forgotten. */
  ghost predicate Only(net: Network, g: System, g': System, a: AgentId)
    requires Covers(net, g) && Covers(net, g')
  {
    && (forall b | b in net.honest && b != a :: g'.nodes[b] == g.nodes[b] && g'.commits[b] == g.commits[b])
    && (forall b | b in net.honest :: g.sent[b] <= g'.sent[b])
  }

  /** One step of `a`. */
  lemma Acts(k: Scene, g: System, a: AgentId, ev: Event) returns (g': System)
    requires k.Valid() && k.net.Tolerant() && OnRun(k.net, g) && a in k.net.honest && !ev.DeliverUnsigned?
    requires ev.Deliver? && ev.signed.envelope.message.from in k.net.honest ==>
               ev.signed.envelope in g.sent[ev.signed.envelope.message.from]
    ensures OnRun(k.net, g') && Only(k.net, g, g', a) && k.net.ConfigOf(a).Valid()
    ensures var o := Next(k.net.ConfigOf(a), g.nodes[a], ev);
            && g'.nodes[a] == o.state && g'.commits[a] == g.commits[a] + o.Commits()
            && (forall e | e in o.Outbound() :: e in g'.sent[a])
  {
    hide Scene.Valid, Network.Valid, EndsAt, Allowed, Next, After;
    Facts(k, a);
    var move := Move(a, ev);
    assert Allowed(k.net, g, move) by { MayAct(k.net, g, move); }
    ReachNext(k.net, g, move);
    g' := After(k.net, g, move);
    ActEffects(k.net, g, move);
  }

  lemma MayAct(net: Network, g: System, move: Move)
    requires Covers(net, g) && move.node in net.honest && !move.event.DeliverUnsigned?
    requires move.event.Deliver? && move.event.signed.envelope.message.from in net.honest ==>
               move.event.signed.envelope in g.sent[move.event.signed.envelope.message.from]
    ensures Allowed(net, g, move)
  {
  }

  lemma ActEffects(net: Network, g: System, move: Move)
    requires net.Valid() && Covers(net, g) && Allowed(net, g, move) && net.ConfigOf(move.node).Valid()
    ensures var g', o := After(net, g, move), Next(net.ConfigOf(move.node), g.nodes[move.node], move.event);
            && Covers(net, g') && Only(net, g, g', move.node)
            && g'.nodes[move.node] == o.state && g'.commits[move.node] == g.commits[move.node] + o.Commits()
            && (forall e | e in o.Outbound() :: e in g'.sent[move.node])
  {
    hide Network.Valid, Next, Allowed;
  }

  // -------------------------------------------------------------------------
  // Where the nodes of the scene stand

  /** The message of `b` can be delivered: it was sent, or `b` is free to send anything. */
  ghost predicate Available(k: Scene, g: System, b: AgentId, r: nat, body: Body)
    requires Covers(k.net, g)
  {
    b in k.net.honest ==> k.Msg(b, r, body).envelope in g.sent[b]
  }

  /** Round 0, if the node is still in it, has timed out. */
  ghost predicate Ripe(k: Scene, s: NodeState) {
    s.round == 0 ==> s.roundStartedAt + k.net.roundTimeout <= k.now
  }

  /** Where `a` stands, with its vote of each phase it has cast in its outbox. */
  ghost predicate At(k: Scene, g: System, a: AgentId, r: nat, p: Proposal, pv: set<AgentId>, pc: set<AgentId>)
    requires Covers(k.net, g) && a in k.net.honest
  {
    && Tally(k.genesis, g.nodes[a], r, p, pv, pc) && g.commits[a] == [] && Ripe(k, g.nodes[a])
    && Available(k, g, a, r, Prevoted(p)) && (pc != {} ==> Available(k, g, a, r, Precommitted(p)))
  }

  lemma AtStays(
    k: Scene, g: System, g': System, a: AgentId, b: AgentId, r: nat, p: Proposal, pv: set<AgentId>, pc: set<AgentId>)
    requires Covers(k.net, g) && Covers(k.net, g') && Only(k.net, g, g', a) && b in k.net.honest && b != a
    requires At(k, g, b, r, p, pv, pc)
    ensures At(k, g', b, r, p, pv, pc)
  {
    hide Tally, Wire;
  }

  lemma StaysAvailable(k: Scene, g: System, g': System, a: AgentId, r: nat, body: Body, voters: set<AgentId>)
    requires Covers(k.net, g) && Covers(k.net, g') && Only(k.net, g, g', a)
    requires forall b | b in voters :: Available(k, g, b, r, body)
    ensures forall b | b in voters :: Available(k, g', b, r, body)
  {
    hide Wire;
    forall b | b in voters ensures Available(k, g', b, r, body) { assert Available(k, g, b, r, body); }
  }

  ghost predicate IsQuorumOf(k: Scene, q: set<AgentId>) {
    q <= k.net.Members() && |q| == k.net.committee.Threshold()
  }

  // -------------------------------------------------------------------------
  // One node hears a quorum

  lemma HearsPrevote(k: Scene, g: System, a: AgentId, b: AgentId, r: nat, p: Proposal, pv: set<AgentId>)
    returns (g': System)
    requires k.Valid() && k.net.Tolerant() && OnRun(k.net, g) && a in k.net.honest && b in k.net.Members()
    requires At(k, g, a, r, p, pv, {}) && b !in pv && |pv| < k.net.committee.Threshold()
    requires Available(k, g, b, r, Prevoted(p))
    ensures OnRun(k.net, g') && Only(k.net, g, g', a) && g'.nodes[a].pending == g.nodes[a].pending
    ensures At(k, g', a, r, p, pv + {b}, if |pv| + 1 == k.net.committee.Threshold() then {a} else {})
  {
    hide Scene.Valid, Network.Valid, HandleSigned, Tally, EndsAt, Network.Members, Scene.Leader, Wire, Config.Valid,
         At, Available;
    Facts(k, a);
    MemberOf(k.net, b);
    MsgFrom(k, b, r, Prevoted(p));
    AvailableMeans(k, g, b, r, Prevoted(p));
    g' := Acts(k, g, a, Deliver(k.Msg(b, r, Prevoted(p)), k.now));
    AtTally(k, g, a, r, p, pv, {});
    HearPrevote(k.net.ConfigOf(a), k.genesis, k.now, g.nodes[a], r, p, pv, b);
    var pc := if |pv| + 1 == k.net.committee.Threshold() then {a} else {};
    AtNext(k, g, g', a, r, p, pv, {}, pv + {b}, pc);
  }

  /** `a` itself moved on within the round. */
  lemma AtNext(
    k: Scene, g: System, g': System, a: AgentId, r: nat, p: Proposal, pv: set<AgentId>, pc: set<AgentId>,
    pv': set<AgentId>, pc': set<AgentId>)
    requires Covers(k.net, g) && Covers(k.net, g') && Only(k.net, g, g', a) && a in k.net.honest
    requires At(k, g, a, r, p, pv, pc) && Tally(k.genesis, g'.nodes[a], r, p, pv', pc')
    requires SameRest(g.nodes[a], g'.nodes[a]) && g'.commits[a] == []
    requires pc' != {} && pc == {} ==> k.Msg(a, r, Precommitted(p)).envelope in g'.sent[a]
    ensures At(k, g', a, r, p, pv', pc')
  {
    hide Wire, Tally;
    TallyRound(k.genesis, g.nodes[a], r, p, pv, pc);
    TallyRound(k.genesis, g'.nodes[a], r, p, pv', pc');
  }

  lemma AtTally(k: Scene, g: System, a: AgentId, r: nat, p: Proposal, pv: set<AgentId>, pc: set<AgentId>)
    requires Covers(k.net, g) && a in k.net.honest && At(k, g, a, r, p, pv, pc)
    ensures Tally(k.genesis, g.nodes[a], r, p, pv, pc) && g.commits[a] == [] && Ripe(k, g.nodes[a])
  {
    hide Tally, Wire;
  }

  lemma AvailableMeans(k: Scene, g: System, b: AgentId, r: nat, body: Body)
    requires Covers(k.net, g) && Available(k, g, b, r, body)
    ensures b in k.net.honest ==> k.Msg(b, r, body).envelope in g.sent[b]
  {
    hide Wire;
  }

  lemma MsgFrom(k: Scene, b: AgentId, r: nat, body: Body)
    ensures k.Msg(b, r, body).envelope.message.from == b
  {
  }

  lemma MemberOf(net: Network, b: AgentId)
    requires b in net.Members()
    ensures b in net.committee.members
  {
  }

  lemma TallyRound(previous: Hash, s: NodeState, r: nat, p: Proposal, pv: set<AgentId>, pc: set<AgentId>)
    requires Tally(previous, s, r, p, pv, pc)
    ensures s.round == r
  {
  }

  /** The prevotes of the rest of a quorum make `a` precommit. */
  lemma {:induction false} HearsPrevotes(
    k: Scene, g: System, a: AgentId, q: set<AgentId>, r: nat, p: Proposal, pv: set<AgentId>) returns (g': System)
    requires k.Valid() && k.net.Tolerant() && OnRun(k.net, g) && a in k.net.honest && IsQuorumOf(k, q) && pv < q
    requires At(k, g, a, r, p, pv, {}) && forall b | b in q :: Available(k, g, b, r, Prevoted(p))
    ensures OnRun(k.net, g') && Only(k.net, g, g', a) && g'.nodes[a].pending == g.nodes[a].pending
    ensures At(k, g', a, r, p, q, {a})
    decreases |q - pv|
  {
    hide Scene.Valid, Network.Valid, At, EndsAt, Only, Network.Members, Available;
    assert q - pv != {} by { ProperSubset(pv, q); }
    var b :| b in q - pv;
    SubsetSize(pv + {b}, q);
    var g1 := HearsPrevote(k, g, a, b, r, p, pv);
    StaysAvailable(k, g, g1, a, r, Prevoted(p), q);
    if pv + {b} == q {
      g' := g1;
    } else {
      assert |pv + {b}| < |q| by { ProperSubset(pv + {b}, q); }
      assert q - (pv + {b}) == (q - pv) - {b};
      g' := HearsPrevotes(k, g1, a, q, r, p, pv + {b});
      OnlyTwice(k.net, g, g1, g', a);
    }
  }

  lemma ProperSubset(a: set<AgentId>, b: set<AgentId>)
    requires a <= b && a != b
    ensures |a| < |b|
  {
    if |a| >= |b| { FullSubset(a, b); }
  }

  lemma OnlyTwice(net: Network, g: System, g1: System, g2: System, a: AgentId)
    requires Covers(net, g) && Covers(net, g1) && Covers(net, g2) && Only(net, g, g1, a) && Only(net, g1, g2, a)
    ensures Only(net, g, g2, a)
  {
  }

  ghost predicate Committed(commits: seq<CommitRecord>, r: nat, p: Proposal) {
    |commits| == 1 && CommitsAt(1, r, p, commits[0])
  }

  /** The precommits of the rest of a quorum make `a` commit. */
  lemma {:induction false} HearsPrecommits(
    k: Scene, g: System, a: AgentId, q: set<AgentId>, r: nat, p: Proposal, pc: set<AgentId>) returns (g': System)
    requires k.Valid() && k.net.Tolerant() && OnRun(k.net, g) && a in k.net.honest && IsQuorumOf(k, q) && pc < q
    requires pc != {}
    requires At(k, g, a, r, p, q, pc) && forall b | b in q :: Available(k, g, b, r, Precommitted(p))
    ensures OnRun(k.net, g') && Only(k.net, g, g', a) && Committed(g'.commits[a], r, p)
    decreases |q - pc|
  {
    hide Scene.Valid, Network.Valid, EndsAt, Only, Network.Members, Available, HandleSigned, Tally, Scene.Leader;
    assert q - pc != {} by { ProperSubset(pc, q); }
    var b :| b in q - pc;
    SubsetSize(pc + {b}, q);
    assert Available(k, g, b, r, Precommitted(p));
    var g1 := HearsPrecommit(k, g, a, b, r, p, q, pc);
    StaysAvailable(k, g, g1, a, r, Precommitted(p), q);
    if pc + {b} == q {
      g' := g1;
    } else {
      ProperSubset(pc + {b}, q);
      assert q - (pc + {b}) == (q - pc) - {b};
      g' := HearsPrecommits(k, g1, a, q, r, p, pc + {b});
      OnlyTwice(k.net, g, g1, g', a);
    }
  }

  lemma HearsPrecommit(
    k: Scene, g: System, a: AgentId, b: AgentId, r: nat, p: Proposal, q: set<AgentId>, pc: set<AgentId>)
    returns (g': System)
    requires k.Valid() && k.net.Tolerant() && OnRun(k.net, g) && a in k.net.honest && b in k.net.Members()
    requires At(k, g, a, r, p, q, pc) && |q| == k.net.committee.Threshold()
    requires b !in pc && pc != {} && |pc| < k.net.committee.Threshold() && Available(k, g, b, r, Precommitted(p))
    ensures OnRun(k.net, g') && Only(k.net, g, g', a)
    ensures if |pc| + 1 == k.net.committee.Threshold() then Committed(g'.commits[a], r, p)
            else At(k, g', a, r, p, q, pc + {b})
  {
    hide Scene.Valid, Network.Valid, HandleSigned, Tally, EndsAt, Network.Members, Scene.Leader, Wire, Config.Valid,
         At, Available;
    Facts(k, a);
    MemberOf(k.net, b);
    MsgFrom(k, b, r, Precommitted(p));
    AvailableMeans(k, g, b, r, Precommitted(p));
    g' := Acts(k, g, a, Deliver(k.Msg(b, r, Precommitted(p)), k.now));
    AtTally(k, g, a, r, p, q, pc);
    HearPrecommit(k.net.ConfigOf(a), k.genesis, k.now, g.nodes[a], r, p, q, pc, b);
    if |pc| + 1 != k.net.committee.Threshold() { AtNext(k, g, g', a, r, p, q, pc, q, pc + {b}); }
  }

  // -------------------------------------------------------------------------
  // A quorum goes through a round

  /** From `g` to `g'` only members of `who` acted, none touched its pending proposal, and nothing sent was
      forgotten. */
  ghost predicate Quiet(net: Network, g: System, g': System, who: set<AgentId>)
    requires Covers(net, g) && Covers(net, g')
  {
    forall d | d in net.honest ::
      && g.sent[d] <= g'.sent[d] && g'.nodes[d].pending == g.nodes[d].pending
      && (d !in who ==> g'.nodes[d] == g.nodes[d] && g'.commits[d] == g.commits[d])
  }

  lemma QuietThen(net: Network, g: System, g1: System, g2: System, a: AgentId, who: set<AgentId>)
    requires Covers(net, g) && Covers(net, g1) && Covers(net, g2) && a in net.honest
    requires Only(net, g, g1, a) && g1.nodes[a].pending == g.nodes[a].pending && Quiet(net, g1, g2, who)
    ensures Quiet(net, g, g2, who + {a})
  {
  }

  lemma QuietKeepsAt(
    k: Scene, g: System, g': System, who: set<AgentId>, b: AgentId, r: nat, p: Proposal, pv: set<AgentId>,
    pc: set<AgentId>)
    requires Covers(k.net, g) && Covers(k.net, g') && Quiet(k.net, g, g', who) && b in k.net.honest && b !in who
    requires At(k, g, b, r, p, pv, pc)
    ensures At(k, g', b, r, p, pv, pc)
  {
    hide Tally, Wire;
  }

  /** Every node of `todo` hears the prevotes of the quorum and precommits. */
  lemma {:induction false} GroupPrecommits(
    k: Scene, g: System, todo: set<AgentId>, q: set<AgentId>, r: nat, p: Proposal) returns (g': System)
    requires k.Valid() && k.net.Tolerant() && OnRun(k.net, g) && IsQuorumOf(k, q) && todo <= q && todo <= k.net.honest
    requires forall a | a in todo :: At(k, g, a, r, p, {a}, {})
    requires forall b | b in q :: Available(k, g, b, r, Prevoted(p))
    ensures OnRun(k.net, g') && Quiet(k.net, g, g', todo)
    ensures forall a | a in todo :: At(k, g', a, r, p, q, {a})
    decreases todo
  {
    hide Scene.Valid, Network.Valid, At, EndsAt, Only, Quiet, Network.Members, Available;
    if todo == {} {
      g' := g;
      QuietNothing(k.net, g);
    } else {
      var a :| a in todo;
      var rest := todo - {a};
      assert {a} < q by { SingleInQuorum(k, q, a); }
      var g1 := HearsPrevotes(k, g, a, q, r, p, {a});
      StaysAvailable(k, g, g1, a, r, Prevoted(p), q);
      forall b | b in rest ensures At(k, g1, b, r, p, {b}, {}) { AtStays(k, g, g1, a, b, r, p, {b}, {}); }
      g' := GroupPrecommits(k, g1, rest, q, r, p);
      QuietThen(k.net, g, g1, g', a, rest);
      PutBack(todo, a);
      QuietKeepsAt(k, g1, g', rest, a, r, p, q, {a});
    }
  }

  lemma PutBack(s: set<AgentId>, a: AgentId)
    requires a in s
    ensures s - {a} + {a} == s
  {
  }

  lemma QuietNothing(net: Network, g: System)
    requires Covers(net, g)
    ensures Quiet(net, g, g, {})
  {
  }

  lemma SingleInQuorum(k: Scene, q: set<AgentId>, a: AgentId)
    requires k.Valid() && IsQuorumOf(k, q) && a in q
    ensures {a} < q
  {
    hide Network.Members;
    assert |{a}| == 1 && k.net.committee.Threshold() > 1;
    assert q != {a};
  }

  /** A node that can take up the proposal of round `r`. */
  ghost predicate Joinable(k: Scene, g: System, a: AgentId, r: nat)
    requires Covers(k.net, g) && a in k.net.honest
  {
    var s := g.nodes[a];
    Clean(k.genesis, s) && Untouched(s, r) && s.round <= r && Ripe(k, s) && g.commits[a] == []
  }

  /** `a` receives the proposal of round `r` from its leader. */
  lemma Joins(k: Scene, g: System, a: AgentId, r: nat, p: Proposal) returns (g': System)
    requires k.Valid() && k.net.Tolerant() && OnRun(k.net, g) && a in k.net.honest && Joinable(k, g, a, r)
    requires k.Leader(r) != a && Available(k, g, k.Leader(r), r, Propose(p))
    ensures OnRun(k.net, g') && Only(k.net, g, g', a) && g'.nodes[a].pending == g.nodes[a].pending
    ensures At(k, g', a, r, p, {a}, {})
  {
    hide Scene.Valid, Network.Valid, Tally, EndsAt, HandleSigned, Clean, Untouched, Scene.Leader, Wire, Available, At;
    Facts(k, a);
    MsgFrom(k, k.Leader(r), r, Propose(p));
    AvailableMeans(k, g, k.Leader(r), r, Propose(p));
    g' := Acts(k, g, a, Deliver(k.Msg(k.Leader(r), r, Propose(p)), k.now));
    Follows(k.net.ConfigOf(a), k.genesis, k.now, g.nodes[a], k.Leader(r), r, p);
    AtFirst(k, g, g', a, r, p);
  }

  /** `a` has just prevoted. */
  lemma AtFirst(k: Scene, g: System, g': System, a: AgentId, r: nat, p: Proposal)
    requires Covers(k.net, g) && Covers(k.net, g') && a in k.net.honest
    requires Tally(k.genesis, g'.nodes[a], r, p, {a}, {}) && g'.commits[a] == []
    requires g.nodes[a].round <= r && Ripe(k, g.nodes[a])
    requires g'.nodes[a].round == g.nodes[a].round ==> g'.nodes[a].roundStartedAt == g.nodes[a].roundStartedAt
    requires k.Msg(a, r, Prevoted(p)).envelope in g'.sent[a]
    ensures At(k, g', a, r, p, {a}, {})
  {
    hide Tally, Wire;
    TallyRound(k.genesis, g'.nodes[a], r, p, {a}, {});
  }

  /** Every node of `todo` receives the proposal. */
  lemma {:induction false} GroupJoins(
    k: Scene, g: System, todo: set<AgentId>, leader: AgentId, r: nat, p: Proposal) returns (g': System)
    requires k.Valid() && k.net.Tolerant() && k.net.committee.Valid() && OnRun(k.net, g) && todo <= k.net.honest
    requires leader == k.Leader(r) && leader !in todo && Available(k, g, leader, r, Propose(p))
    requires forall a | a in todo :: Joinable(k, g, a, r)
    ensures OnRun(k.net, g') && Quiet(k.net, g, g', todo)
    ensures forall a | a in todo :: At(k, g', a, r, p, {a}, {})
    decreases todo
  {
    hide Scene.Valid, Network.Valid, Committee.Valid, At, EndsAt, Only, Quiet, Available, Scene.Leader, Joinable;
    if todo == {} {
      g' := g;
      QuietNothing(k.net, g);
    } else {
      var a :| a in todo;
      var rest := todo - {a};
      PutBack(todo, a);
      var g1 := Joins(k, g, a, r, p);
      StaysAvailable(k, g, g1, a, r, Propose(p), {leader});
      forall b | b in rest ensures Joinable(k, g1, b, r) { JoinableStays(k, g, g1, a, b, r); }
      g' := GroupJoins(k, g1, rest, leader, r, p);
      QuietThen(k.net, g, g1, g', a, rest);
      QuietKeepsAt(k, g1, g', rest, a, r, p, {a}, {});
    }
  }

  lemma JoinableStays(k: Scene, g: System, g': System, a: AgentId, b: AgentId, r: nat)
    requires Covers(k.net, g) && Covers(k.net, g') && Only(k.net, g, g', a) && b in k.net.honest && b != a
    requires Joinable(k, g, b, r)
    ensures Joinable(k, g', b, r)
  {
    hide Clean, Untouched;
  }

  /** The honest members of a quorum that all have the proposal precommit it, and `c` commits it. */
  lemma RoundCommits(k: Scene, g: System, q: set<AgentId>, r: nat, p: Proposal, c: AgentId) returns (g': System)
    requires k.Valid() && k.net.Tolerant() && OnRun(k.net, g) && IsQuorumOf(k, q) && c in q && c in k.net.honest
    requires forall a | a in q * k.net.honest :: At(k, g, a, r, p, {a}, {})
    ensures OnRun(k.net, g') && Committed(g'.commits[c], r, p)
    ensures forall a | a in q * k.net.honest && a != c :: At(k, g', a, r, p, q, {a})
    ensures forall b | b in q :: Available(k, g', b, r, Precommitted(p))
    ensures forall d | d in k.net.honest && d !in q :: g'.nodes[d] == g.nodes[d] && g'.commits[d] == g.commits[d]
    ensures forall d | d in k.net.honest :: g.sent[d] <= g'.sent[d]
  {
    hide Scene.Valid, Network.Valid, At, EndsAt, Network.Members, Available, Committed;
    var voters := q * k.net.honest;
    forall b | b in q ensures Available(k, g, b, r, Prevoted(p)) { HasVoted(k, g, b, r, p); }
    var g1 := GroupPrecommits(k, g, voters, q, r, p);
    forall b | b in q ensures Available(k, g1, b, r, Precommitted(p)) { HasPrecommitted(k, g1, b, r, p, q); }
    assert {c} < q by { SingleInQuorum(k, q, c); }
    g' := HearsPrecommits(k, g1, c, q, r, p, {c});
    StaysAvailable(k, g1, g', c, r, Precommitted(p), q);
    forall a | a in voters && a != c ensures At(k, g', a, r, p, q, {a}) { AtStays(k, g1, g', c, a, r, p, q, {a}); }
  }

  lemma HasVoted(k: Scene, g: System, b: AgentId, r: nat, p: Proposal)
    requires Covers(k.net, g) && (b in k.net.honest ==> At(k, g, b, r, p, {b}, {}))
    ensures Available(k, g, b, r, Prevoted(p))
  {
    hide Tally, Wire;
  }

  lemma HasPrecommitted(k: Scene, g: System, b: AgentId, r: nat, p: Proposal, q: set<AgentId>)
    requires Covers(k.net, g) && (b in k.net.honest ==> At(k, g, b, r, p, q, {b}))
    ensures Available(k, g, b, r, Precommitted(p))
  {
    hide Tally, Wire;
  }

  // -------------------------------------------------------------------------
  // Round 0

  lemma TakeWith(s: set<AgentId>, core: set<AgentId>, n: nat) returns (q: set<AgentId>)
    requires core <= s && |core| <= n <= |s|
    ensures core <= q <= s && |q| == n
  {
    assert |s - core| == |s| - |core|;
    var more := Take(s - core, n - |core|);
    q := core + more;
  }

  /** A node still at its start. */
  ghost predicate AtStart(k: Scene, g: System, a: AgentId)
    requires Covers(k.net, g) && a in k.net.honest
  {
    g.nodes[a] == InitialState(k.genesis, k.net.startedAt(a)) && g.commits[a] == []
  }

  lemma Starts(k: Scene)
    requires k.Valid()
    ensures k.net.Tolerant() && OnRun(k.net, InitialSystem(k.net))
    ensures forall a | a in k.net.honest :: AtStart(k, InitialSystem(k.net), a)
  {
    hide Network.Valid, EndsAt;
    ReachStart(k.net);
  }

  lemma StartJoinable(k: Scene, g: System, a: AgentId, r: nat)
    requires k.Valid() && Covers(k.net, g) && a in k.net.honest && AtStart(k, g, a)
    ensures Joinable(k, g, a, r)
  {
    hide Network.Valid;
    StartsClean(k.genesis, k.net.startedAt(a), r);
  }

  /** The leader of round 0 has its proposal out: an honest one queues it, any other is free to send it. */
  lemma Opens(k: Scene, x: Proposal) returns (g: System)
    requires k.Valid()
    ensures k.net.Tolerant() && k.net.committee.Valid() && OnRun(k.net, g)
    ensures Available(k, g, k.Leader(0), 0, Propose(x))
    ensures k.Leader(0) in k.net.honest ==> At(k, g, k.Leader(0), 0, x, {k.Leader(0)}, {})
    ensures forall a | a in k.net.honest && a != k.Leader(0) :: AtStart(k, g, a)
  {
    hide Scene.Valid, Network.Valid, EndsAt, Wire, Tally, Scene.Leader, QueueProposal, InitialSystem;
    Populated(k);
    Starts(k);
    var a := k.Leader(0);
    g := InitialSystem(k.net);
    if a in k.net.honest {
      var g1 := Acts(k, g, a, Queue(x, k.now));
      QueueLeads(k, g, a, x);
      AtFirst(k, g, g1, a, 0, x);
      g := g1;
    }
  }

  lemma QueueLeads(k: Scene, g: System, a: AgentId, x: Proposal)
    requires k.Valid() && k.net.committee.Valid() && Covers(k.net, g) && a in k.net.honest && AtStart(k, g, a)
    requires k.Leader(0) == a
    ensures k.net.ConfigOf(a).Valid() && Ripe(k, g.nodes[a])
    ensures var o := QueueProposal(k.net.ConfigOf(a), g.nodes[a], x, k.now);
            && o.result.Ok? && o.Commits() == [] && Tally(k.genesis, o.state, 0, x, {a}, {})
            && o.state.roundStartedAt == g.nodes[a].roundStartedAt
            && o.Outbound() == [k.Msg(a, 0, Propose(x)).envelope, k.Msg(a, 0, Prevoted(x)).envelope]
  {
    hide Network.Valid, Tally, EmitProposalIfLeader, Scene.Leader;
    Facts(k, a);
    var s := g.nodes[a].(pending := Some(x));
    PendingIsClean(k.genesis, k.net.startedAt(a), x);
    Leads(k.net.ConfigOf(a), k.genesis, k.now, s, x);
    TallyRound(k.genesis, EmitProposalIfLeader(k.net.ConfigOf(a), s, k.now).state, 0, x, {a}, {});
  }

  lemma PendingIsClean(previous: Hash, startedAt: int, y: Proposal)
    ensures var s := InitialState(previous, startedAt).(pending := Some(y)); Clean(previous, s) && Untouched(s, 0)
  {
  }

  /** A quorum that includes the leader goes through round 0 with `x`, and `c` commits it. */
  lemma FirstRound(k: Scene, q: set<AgentId>, x: Proposal, c: AgentId) returns (g': System)
    requires k.Valid() && k.net.committee.Valid() && IsQuorumOf(k, q) && k.Leader(0) in q && c in q && c in k.net.honest
    ensures k.net.Tolerant() && OnRun(k.net, g') && Committed(g'.commits[c], 0, x)
    ensures forall a | a in q * k.net.honest && a != c :: At(k, g', a, 0, x, q, {a})
    ensures forall b | b in q :: Available(k, g', b, 0, Precommitted(x))
    ensures forall d | d in k.net.honest && d !in q :: AtStart(k, g', d)
  {
    hide Scene.Valid, Network.Valid, EndsAt, At, Available, Network.Members, Scene.Leader, Joinable, Committed,
         AtStart, Quiet;
    var leader := k.Leader(0);
    var g := Opens(k, x);
    var rest := q * k.net.honest - {leader};
    forall a | a in rest ensures Joinable(k, g, a, 0) { StartJoinable(k, g, a, 0); }
    var g1 := GroupJoins(k, g, rest, leader, 0, x);
    if leader in k.net.honest { QuietKeepsAt(k, g, g1, rest, leader, 0, x, {leader}, {}); }
    g' := RoundCommits(k, g1, q, 0, x, c);
    forall d | d in k.net.honest && d !in q ensures AtStart(k, g', d) { StillAtStart(k, g, g1, g', rest, d); }
  }

  lemma StillAtStart(k: Scene, g: System, g1: System, g2: System, who: set<AgentId>, d: AgentId)
    requires Covers(k.net, g) && Covers(k.net, g1) && Covers(k.net, g2) && d in k.net.honest && d !in who
    requires AtStart(k, g, d) && Quiet(k.net, g, g1, who)
    requires g2.nodes[d] == g1.nodes[d] && g2.commits[d] == g1.commits[d]
    ensures AtStart(k, g2, d)
  {
  }

  // -------------------------------------------------------------------------
  // Round 1

  /** An honest node left behind in round 0, whatever it precommitted there. */
  ghost predicate Resting(k: Scene, g: System, a: AgentId)
    requires Covers(k.net, g) && a in k.net.honest && k.net.committee.Valid()
  {
    Joinable(k, g, a, 1) && g.nodes[a].round == 0 && (k.Leader(0) == a ==> 0 in g.nodes[a].proposals)
  }

  lemma AtRests(k: Scene, g: System, a: AgentId, x: Proposal, pv: set<AgentId>, pc: set<AgentId>)
    requires Covers(k.net, g) && a in k.net.honest && k.net.committee.Valid() && At(k, g, a, 0, x, pv, pc)
    ensures Resting(k, g, a)
  {
    hide Tally, Wire, Clean, Untouched, Scene.Leader;
    TallyMovesOn(k.genesis, g.nodes[a], 0, x, pv, pc);
  }

  lemma StartRests(k: Scene, g: System, a: AgentId)
    requires k.Valid() && Covers(k.net, g) && a in k.net.honest && k.net.committee.Valid()
    requires AtStart(k, g, a) && k.Leader(0) != a
    ensures Resting(k, g, a)
  {
    hide Scene.Leader;
    StartJoinable(k, g, a, 1);
  }

  lemma RestingStays(k: Scene, g: System, g': System, a: AgentId, b: AgentId)
    requires Covers(k.net, g) && Covers(k.net, g') && Only(k.net, g, g', a) && b in k.net.honest && b != a
    requires k.net.committee.Valid() && Resting(k, g, b)
    ensures Resting(k, g', b)
  {
    hide Clean, Untouched, Scene.Leader;
  }

  /** Queueing while the round is someone else's, or already proposed, only waits. */
  lemma QueueWaits(c: Config, s: NodeState, y: Proposal, now: int)
    requires c.Valid() && (c.ProposerFor(s.previous, s.round) != c.local || s.round in s.proposals)
    ensures QueueProposal(c, s, y, now) == Idle(s.(pending := Some(y)))
  {
    hide ObserveLocalProposal;
  }

  lemma SetsPending(k: Scene, g: System, g': System, a: AgentId, y: Proposal)
    requires Covers(k.net, g) && Covers(k.net, g') && a in k.net.honest && k.net.committee.Valid()
    requires Resting(k, g, a) && g'.nodes[a] == g.nodes[a].(pending := Some(y)) && g'.commits[a] == g.commits[a]
    ensures Resting(k, g', a)
  {
    hide Scene.Leader;
  }

  lemma QueuesUp(k: Scene, g: System, a: AgentId, y: Proposal) returns (g': System)
    requires k.Valid() && k.net.Tolerant() && k.net.committee.Valid() && OnRun(k.net, g) && a in k.net.honest
    requires Resting(k, g, a)
    ensures OnRun(k.net, g') && Only(k.net, g, g', a) && Resting(k, g', a) && g'.nodes[a].pending == Some(y)
  {
    hide Scene.Valid, Network.Valid, EndsAt, Scene.Leader, QueueProposal, Resting, Only, Clean;
    Facts(k, a);
    RestingParts(k, g, a);
    g' := Acts(k, g, a, Queue(y, k.now));
    QueueWaits(k.net.ConfigOf(a), g.nodes[a], y, k.now);
    assert g.commits[a] + [] == g.commits[a];
    SetsPending(k, g, g', a, y);
  }

  lemma MakesAvailable(k: Scene, g: System, a: AgentId, r: nat, body: Body)
    requires Covers(k.net, g) && a in k.net.honest && k.Msg(a, r, body).envelope in g.sent[a]
    ensures Available(k, g, a, r, body)
  {
    hide Wire;
  }

  lemma TimesOut(k: Scene, g: System, a: AgentId, y: Proposal) returns (g': System)
    requires k.Valid() && k.net.Tolerant() && k.net.committee.Valid() && OnRun(k.net, g) && a in k.net.honest
    requires Resting(k, g, a) && g.nodes[a].pending == Some(y) && k.Leader(1) == a
    ensures OnRun(k.net, g') && Only(k.net, g, g', a) && Available(k, g', a, 1, Propose(y))
    ensures At(k, g', a, 1, y, {a}, {})
  {
    hide Scene.Valid, Network.Valid, EndsAt, Wire, Tally, Scene.Leader, Next, Resting, Only, At, Available, Ripe;
    TimeoutHere(k, g, a, y);
    g' := Acts(k, g, a, Timer(k.now));
    assert g'.commits[a] == [];
    assert k.Msg(a, 1, Propose(y)).envelope in g'.sent[a] && k.Msg(a, 1, Prevoted(y)).envelope in g'.sent[a];
    MakesAvailable(k, g', a, 1, Propose(y));
    AtFirst(k, g, g', a, 1, y);
  }

  lemma TimeoutHere(k: Scene, g: System, a: AgentId, y: Proposal)
    requires k.Valid() && k.net.committee.Valid() && Covers(k.net, g) && a in k.net.honest
    requires Resting(k, g, a) && g.nodes[a].pending == Some(y) && k.Leader(1) == a
    ensures k.net.ConfigOf(a).Valid() && g.nodes[a].round == 0 && Ripe(k, g.nodes[a]) && g.commits[a] == []
    ensures var o := Next(k.net.ConfigOf(a), g.nodes[a], Timer(k.now));
            && Tally(k.genesis, o.state, 1, y, {a}, {}) && o.state.round == 1 && o.Commits() == []
            && o.Outbound() == [k.Msg(a, 1, Propose(y)).envelope, k.Msg(a, 1, Prevoted(y)).envelope]
  {
    hide Scene.Valid, Network.Valid, Wire, Tally, Scene.Leader, Next, Tick, Resting, Clean;
    Facts(k, a);
    RestingParts(k, g, a);
    var c, s := k.net.ConfigOf(a), g.nodes[a];
    NextIsTick(c, s, k.now);
    TimeoutLeads(c, k.genesis, k.now, s, y);
    TallyRound(k.genesis, Tick(c, s, k.now).state, 1, y, {a}, {});
  }

  /** The leader of round 1 has `y` out: an honest one queues it and times out, any other is free to send it. */
  lemma Reopens(k: Scene, g: System, a: AgentId, y: Proposal) returns (g': System)
    requires k.Valid() && k.net.Tolerant() && k.net.committee.Valid() && OnRun(k.net, g) && a == k.Leader(1)
    requires a in k.net.honest ==> Resting(k, g, a)
    ensures OnRun(k.net, g') && Available(k, g', a, 1, Propose(y))
    ensures a in k.net.honest ==> Only(k.net, g, g', a) && At(k, g', a, 1, y, {a}, {})
    ensures a !in k.net.honest ==> g' == g
  {
    hide Scene.Valid, Network.Valid, EndsAt, Wire, At, Scene.Leader, Resting, Only;
    g' := g;
    if a in k.net.honest {
      var g1 := QueuesUp(k, g, a, y);
      g' := TimesOut(k, g1, a, y);
      OnlyTwice(k.net, g, g1, g', a);
    }
  }

  lemma RestingParts(k: Scene, g: System, a: AgentId)
    requires Covers(k.net, g) && a in k.net.honest && k.net.committee.Valid() && Resting(k, g, a)
    ensures var s := g.nodes[a];
            && Clean(k.genesis, s) && s.round == 0 && s.roundStartedAt + k.net.roundTimeout <= k.now
            && g.commits[a] == [] && Ripe(k, s) && s.previous == k.genesis
            && (k.Leader(0) == a ==> 0 in s.proposals)
  {
    hide FutureEmpty, Untouched, Scene.Leader;
  }

  /** A quorum of nodes left behind in round 0 goes through round 1 with `y`, and `b` commits it. */
  lemma SecondRound(k: Scene, g: System, q: set<AgentId>, y: Proposal, b: AgentId) returns (g': System)
    requires k.Valid() && k.net.Tolerant() && k.net.committee.Valid() && OnRun(k.net, g)
    requires IsQuorumOf(k, q) && k.Leader(1) in q && b in q && b in k.net.honest
    requires forall a | a in q * k.net.honest :: Resting(k, g, a)
    ensures OnRun(k.net, g') && Committed(g'.commits[b], 1, y)
    ensures forall d | d in k.net.honest && d !in q :: g'.commits[d] == g.commits[d]
  {
    hide Scene.Valid, Network.Valid, EndsAt, At, Available, Network.Members, Scene.Leader, Joinable, Resting, Committed;
    var leader := k.Leader(1);
    var g1 := Reopens(k, g, leader, y);
    var rest := q * k.net.honest - {leader};
    forall a | a in rest ensures Joinable(k, g1, a, 1) {
      if leader in k.net.honest { RestingStays(k, g, g1, leader, a); }
      RestingJoins(k, g1, a);
    }
    var g2 := GroupJoins(k, g1, rest, leader, 1, y);
    if leader in k.net.honest { QuietKeepsAt(k, g1, g2, rest, leader, 1, y, {leader}, {}); }
    g' := RoundCommits(k, g2, q, 1, y, b);
  }

  lemma RestingJoins(k: Scene, g: System, a: AgentId)
    requires Covers(k.net, g) && a in k.net.honest && k.net.committee.Valid() && Resting(k, g, a)
    ensures Joinable(k, g, a, 1)
  {
    hide Joinable;
  }

  // -------------------------------------------------------------------------
  // Agreement at a height, exactly

  /** With more than `2f + 1` members two honest nodes can commit different proposals at the same height: a
      quorum takes one through round 0 and loses only the node that commits it; the others, enough for another
      quorum, take the other through round 1. */
  lemma TwoRoundsDisagree(k: Scene, x: Proposal, y: Proposal) returns (g: System, a: AgentId, b: AgentId)
    requires k.Valid() && |k.net.committee.members| > k.net.committee.Threshold()
    ensures k.net.Tolerant() && OnRun(k.net, g) && a in k.net.honest && b in k.net.honest
    ensures Committed(g.commits[a], 0, x) && Committed(g.commits[b], 1, y)
  {
    hide Scene.Valid, Network.Valid, EndsAt, At, Available, Network.Members, Scene.Leader, Resting, Committed, AtStart;
    Populated(k);
    var all, honest, n := k.net.Members(), k.net.honest, k.net.committee.Threshold();
    var l0, l1 := k.Leader(0), k.Leader(1);
    a, b := TwoOf(honest, l1);
    var q0 := TakeWith(all, {l0, a}, n);
    var q1 := TakeWith(all - {a}, {l1, b}, n);
    var g1 := FirstRound(k, q0, x, a);
    forall d | d in q1 * honest ensures Resting(k, g1, d) {
      if d in q0 { AtRests(k, g1, d, x, q0, {d}); } else { StartRests(k, g1, d); }
    }
    g := SecondRound(k, g1, q1, y, b);
  }

  lemma TwoOf(s: set<AgentId>, avoid: AgentId) returns (a: AgentId, b: AgentId)
    requires |s| >= 3
    ensures a in s && b in s && a != avoid && b != a
  {
    assert |s - {avoid}| >= 2;
    a :| a in s - {avoid};
    assert |s - {a}| >= 2;
    b :| b in s - {a};
  }

  /** A time by which the first round of every honest node is over. */
  lemma LateEnough(net: Network, nodes: set<AgentId>) returns (now: int)
    ensures forall a | a in nodes :: net.startedAt(a) + net.roundTimeout <= now
  {
    now := 0;
    var todo := nodes;
    while todo != {}
      invariant todo <= nodes && forall a | a in nodes && a !in todo :: net.startedAt(a) + net.roundTimeout <= now
    {
      var a :| a in todo;
      if net.startedAt(a) + net.roundTimeout > now { now := net.startedAt(a) + net.roundTimeout; }
      todo := todo - {a};
    }
  }

  lemma Stage(net: Network, genesis: Hash) returns (k: Scene)
    requires net.Tolerant() && SameStart(net, genesis) && Signs(net)
    ensures k.Valid() && k.net == net && k.genesis == genesis
  {
    hide Network.Valid;
    var now := LateEnough(net, net.honest);
    k := Scene(net, genesis, now);
  }

  /**
   Agreement at a height, exactly.  For every network that tolerates a fault, whose honest nodes start from one
   hash and whose members' signatures verify: in every run all honest commits of one height carry the same
   proposal id if and only if the committee has exactly `2f + 1` members.
   */
  lemma AgreementExactly(net: Network, genesis: Hash)
    requires net.Tolerant() && SameStart(net, genesis) && Signs(net)
    ensures AlwaysAgrees(net) <==> |net.committee.members| == net.committee.Threshold()
  {
    hide Network.Valid, Reachable, Scene.Valid, SameStart, Signs;
    if |net.committee.members| == net.committee.Threshold() {
      forall g | Reachable(net, g) && Covers(net, g) ensures AgreeIn(net, g) {
        forall a, b, i: nat | a in net.honest && b in net.honest && i < |g.commits[a]| && i < |g.commits[b]|
          ensures g.commits[a][i].proposal.id == g.commits[b][i].proposal.id
        {
          WholeCommitteeAgrees(net, g, a, b, i);
        }
      }
    } else {
      AtLeastQuorum(net);
      var k := Stage(net, genesis);
      var g, a, b := TwoRoundsDisagree(k, Proposal("x", ""), Proposal("y", ""));
      OnRunIsReachable(net, g);
      assert g.commits[a][0].proposal.id != g.commits[b][0].proposal.id;
    }
  }

  lemma AtLeastQuorum(net: Network)
    requires net.Tolerant()
    ensures |net.committee.members| >= net.committee.Threshold()
  {
  }

  // -------------------------------------------------------------------------
  // Agreement at a height and round, exactly

  lemma SentKeepsAt(
    k: Scene, g: System, g': System, b: AgentId, r: nat, p: Proposal, pv: set<AgentId>, pc: set<AgentId>)
    requires Covers(k.net, g) && Covers(k.net, g') && b in k.net.honest && At(k, g, b, r, p, pv, pc)
    requires g'.nodes[b] == g.nodes[b] && g'.commits[b] == g.commits[b] && g.sent[b] <= g'.sent[b]
    ensures At(k, g', b, r, p, pv, pc)
  {
    hide Tally, Wire;
  }

  lemma QuietKeepsJoinable(k: Scene, g: System, g': System, who: set<AgentId>, b: AgentId, r: nat)
    requires Covers(k.net, g) && Covers(k.net, g') && Quiet(k.net, g, g', who) && b in k.net.honest && b !in who
    requires Joinable(k, g, b, r)
    ensures Joinable(k, g', b, r)
  {
    hide Clean, Untouched;
  }

  /** A faulty leader sends one proposal to `left` and another to `right`. */
  lemma Equivocates(k: Scene, r: nat, left: set<AgentId>, right: set<AgentId>, x: Proposal, y: Proposal)
    returns (g: System)
    requires k.Valid() && k.net.committee.Valid() && k.Leader(r) !in k.net.honest
    requires left <= k.net.honest && right <= k.net.honest && left !! right
    ensures k.net.Tolerant() && OnRun(k.net, g)
    ensures forall a | a in left :: At(k, g, a, r, x, {a}, {})
    ensures forall b | b in right :: At(k, g, b, r, y, {b}, {})
  {
    hide Scene.Valid, Network.Valid, EndsAt, At, Scene.Leader, Joinable, AtStart, Quiet, InitialSystem;
    var leader := k.Leader(r);
    Starts(k);
    var g0 := InitialSystem(k.net);
    forall a | a in k.net.honest ensures Joinable(k, g0, a, r) { StartJoinable(k, g0, a, r); }
    var g1 := GroupJoins(k, g0, left, leader, r, x);
    forall b | b in right ensures Joinable(k, g1, b, r) { QuietKeepsJoinable(k, g0, g1, left, b, r); }
    g := GroupJoins(k, g1, right, leader, r, y);
    forall a | a in left ensures At(k, g, a, r, x, {a}, {}) { QuietKeepsAt(k, g1, g, right, a, r, x, {a}, {}); }
  }

  /** Two groups of honest nodes, each a quorum together with the faulty members. */
  lemma TwoGroups(k: Scene) returns (left: set<AgentId>, right: set<AgentId>)
    requires k.Valid() && !k.net.Overlapping()
    ensures left <= k.net.honest && right <= k.net.honest && left !! right && left != {} && right != {}
    ensures IsQuorumOf(k, left + k.net.Byzantine()) && IsQuorumOf(k, right + k.net.Byzantine())
  {
    hide Network.Members, Scene.Leader;
    Populated(k);
    left, right := SplitGroups(k.net.Members(), k.net.honest, k.net.committee.maxFaulty);
  }

  lemma SplitGroups(all: set<AgentId>, honest: set<AgentId>, f: nat) returns (left: set<AgentId>, right: set<AgentId>)
    requires honest <= all && |all - honest| <= f && |all| + |all - honest| > 4 * f + 1
    ensures left <= honest && right <= honest && left !! right && left != {} && right != {}
    ensures left + (all - honest) <= all && |left + (all - honest)| == 2 * f + 1
    ensures right + (all - honest) <= all && |right + (all - honest)| == 2 * f + 1
  {
    assert all == honest + (all - honest);
    var n := 2 * f + 1 - |all - honest|;
    left := Take(honest, n);
    assert |honest - left| == |honest| - |left|;
    right := Take(honest - left, n);
    Joined(left, all - honest);
    Joined(right, all - honest);
  }

  lemma Joined(a: set<AgentId>, b: set<AgentId>)
    requires a !! b
    ensures |a + b| == |a| + |b|
  {
  }

  /** With more members, and a faulty one leading some round, two honest nodes can commit different proposals in
      that round. */
  lemma OneRoundDisagrees(k: Scene, r: nat, x: Proposal, y: Proposal) returns (g: System, a: AgentId, b: AgentId)
    requires k.Valid() && k.net.committee.Valid() && k.Leader(r) in k.net.Byzantine() && !k.net.Overlapping()
    ensures k.net.Tolerant() && OnRun(k.net, g) && a in k.net.honest && b in k.net.honest
    ensures Committed(g.commits[a], r, x) && Committed(g.commits[b], r, y)
  {
    hide Scene.Valid, Network.Valid, EndsAt, At, Available, Network.Members, Scene.Leader, Committed,
         Network.Overlapping;
    var left, right := TwoGroups(k);
    var faulty := k.net.Byzantine();
    a :| a in left;
    b :| b in right;
    var g0 := Equivocates(k, r, left, right, x, y);
    assert (left + faulty) * k.net.honest == left && (right + faulty) * k.net.honest == right;
    var g1 := RoundCommits(k, g0, left + faulty, r, x, a);
    forall d | d in right ensures At(k, g1, d, r, y, {d}, {}) { SentKeepsAt(k, g0, g1, d, r, y, {d}, {}); }
    g := RoundCommits(k, g1, right + faulty, r, y, b);
  }

  /**
   Agreement at a height and round, exactly.  For every network as above in which a faulty member leads some round:
   in every run all honest commits of one height and round carry the same proposal id if and only if the members
   and the faulty members are together at most `4f + 1`.  With `f` faulty members that is `3f + 1` members.
   */
  lemma RoundAgreementExactly(net: Network, genesis: Hash, r: nat)
    requires net.Tolerant() && SameStart(net, genesis) && Signs(net)
    requires Scene(net, genesis, 0).Leader(r) in net.Byzantine()
    ensures AlwaysAgreesPerRound(net)
            <==> |net.committee.members| + |net.Byzantine()| <= 4 * net.committee.maxFaulty + 1
  {
    hide Reachable, Scene.Valid, SameStart, Signs, Network.Byzantine;
    if net.Overlapping() {
      OverlapAgreesPerRound(net);
    } else {
      var k := Stage(net, genesis);
      assert k.Leader(r) == Scene(net, genesis, 0).Leader(r);
      var g, a, b := OneRoundDisagrees(k, r, Proposal("x", ""), Proposal("y", ""));
      OnRunIsReachable(net, g);
      assert g.commits[a][0].proposal.id != g.commits[b][0].proposal.id;
    }
  }

  // -------------------------------------------------------------------------
  // The hypotheses are met

  /** Some run has two honest nodes commit in the same round. */
  lemma TwoCommitInOneRound(k: Scene, x: Proposal) returns (g: System, a: AgentId, b: AgentId)
    requires k.Valid()
    ensures k.net.Tolerant() && OnRun(k.net, g) && a in k.net.honest && b in k.net.honest && a != b
    ensures Committed(g.commits[a], 0, x) && Committed(g.commits[b], 0, x)
  {
    hide Scene.Valid, Network.Valid, EndsAt, At, Available, Network.Members, Scene.Leader, Committed, AtStart;
    Populated(k);
    var l := k.Leader(0);
    a, b := TwoHonest(k);
    var q := TakeWith(k.net.Members(), {l, a, b}, k.net.committee.Threshold());
    var g1 := FirstRound(k, q, x, a);
    assert {b} < q by { SingleInQuorum(k, q, b); }
    g := HearsPrecommits(k, g1, b, q, 0, x, {b});
  }

  lemma TwoHonest(k: Scene) returns (a: AgentId, b: AgentId)
    requires k.Valid()
    ensures a in k.net.honest && b in k.net.honest && a != b
  {
    Populated(k);
    a :| a in k.net.honest;
    assert |k.net.honest - {a}| >= 1;
    b :| b in k.net.honest - {a};
  }

  /** A committee that takes turns, with the given members honest. */
  ghost function TakingTurns(members: seq<AgentId>, f: nat, honest: set<AgentId>): Network {
    var crypto := Crypto((h, r: nat, a) => if a == r then 1 else 0, (h, r, e, x) => e, e => "", e => true,
                         (a, e) => "", (h, r) => "");
    Network(Committee(members, f), crypto, 1, honest, a => "genesis", a => 0)
  }

  /** A fault-free committee of four meets the hypotheses of `AgreementExactly`, and five members of whom the
      first leader is faulty meet those of `RoundAgreementExactly`. */
  lemma TakingTurnsQualifies()
    ensures var net := TakingTurns([0, 1, 2, 3], 1, {0, 1, 2, 3});
            net.Tolerant() && SameStart(net, "genesis") && Signs(net)
    ensures var net := TakingTurns([0, 1, 2, 3, 4], 1, {1, 2, 3, 4});
            && net.Tolerant() && SameStart(net, "genesis") && Signs(net) && |net.Byzantine()| == 1
            && Scene(net, "genesis", 0).Leader(0) in net.Byzantine()
  {
    FourQualify();
    FiveQualify();
  }

  lemma FourQualify()
    ensures var net := TakingTurns([0, 1, 2, 3], 1, {0, 1, 2, 3});
            net.Tolerant() && SameStart(net, "genesis") && Signs(net)
  {
    var net := TakingTurns([0, 1, 2, 3], 1, {0, 1, 2, 3});
    var m := net.committee.members;
    assert m[0] in m && m[1] in m && m[2] in m && m[3] in m;
    assert net.Byzantine() == {};
  }

  lemma FiveQualify()
    ensures var net := TakingTurns([0, 1, 2, 3, 4], 1, {1, 2, 3, 4});
            && net.Tolerant() && SameStart(net, "genesis") && Signs(net) && |net.Byzantine()| == 1
            && Scene(net, "genesis", 0).Leader(0) in net.Byzantine()
  {
    hide BestOf, Network.Members, Network.Byzantine;
    var net := TakingTurns([0, 1, 2, 3, 4], 1, {1, 2, 3, 4});
    var m := net.committee.members;
    assert m[1] in m && m[2] in m && m[3] in m && m[4] in m;
    FirstIsFaulty(net);
    FirstLeads(net);
  }

  lemma FirstIsFaulty(net: Network)
    requires net == TakingTurns([0, 1, 2, 3, 4], 1, {1, 2, 3, 4})
    ensures net.Byzantine() == {0}
  {
    var m := net.committee.members;
    assert m[0] in m;
    forall a | a in net.Byzantine() ensures a == 0 {
      var i :| 0 <= i < |m| && m[i] == a;
    }
  }

  lemma FirstLeads(net: Network)
    requires net == TakingTurns([0, 1, 2, 3, 4], 1, {1, 2, 3, 4}) && net.committee.Valid()
    ensures Scene(net, "genesis", 0).Leader(0) == 0
  {
    var m := net.committee.members;
    assert m[0] in m;
    assert net.crypto.score("genesis", 0, Scene(net, "genesis", 0).Leader(0)) >= net.crypto.score("genesis", 0, 0) == 1;
  }
}
