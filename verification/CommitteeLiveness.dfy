/**
 Progress of a committee whose live members make a quorum.

 Every live node queues a proposal; then each envelope, in the order produced, is delivered to every live
 node.  After one proposal, one prevote and one precommit per live node the wire is empty and every live
 node has committed the round-0 proposer's proposal, whatever the committee size and whoever is silent.
 */
module CommitteeLiveness {
  import opened Wrappers
  import opened ConsensusModel
  import opened CommitteeAgreement
  import opened RoundSteps

  datatype Setting = Setting(
    committee: Committee, crypto: Crypto, roundTimeout: int, genesis: Hash, now: int,
    proposals: AgentId -> Proposal, live: seq<AgentId>) {

    function ConfigOf(a: AgentId): Config { Config(a, true, committee, roundTimeout, crypto) }

    ghost predicate Valid() {
      && committee.Valid() && roundTimeout > 0
      && committee.maxFaulty >= 1
      && Distinct(live) && (forall a | a in live :: a in committee.members)
      && 2 * committee.maxFaulty + 1 <= |live|
      && Leader() in live
      && forall e: Envelope :: crypto.verifies(Signed(e))
    }

    function Leader(): AgentId
      requires committee.Valid() && roundTimeout > 0
    {
      BestOf(committee.members, a => crypto.score(genesis, 0, a))
    }

    /** What every live node is expected to commit. */
    function Chosen(): Proposal
      requires committee.Valid() && roundTimeout > 0
    {
      proposals(Leader())
    }

    function Signed(e: Envelope): SignedEnvelope { SignedEnvelope(e, crypto.sign(e.message.from, e)) }

    /** The signed round-0 message of `a`. */
    function Wire(a: AgentId, body: Body): SignedEnvelope {
      Signed(Envelope(crypto.roundSubject(1, 0), Message(1, 0, genesis, a, now, body)))
    }

    function CommitHash(): Hash
      requires committee.Valid() && roundTimeout > 0
    {
      crypto.commitHash(1, 0, genesis, Chosen())
    }
  }

  predicate Distinct(xs: seq<AgentId>) { forall i, j | 0 <= i < j < |xs| :: xs[i] != xs[j] }

  // -------------------------------------------------------------------------
  // One node

  /** No message of the given phase from anyone outside `delivered` has been seen. */
  ghost predicate Unseen(s: NodeState, phase: Phase, delivered: set<AgentId>) {
    forall a | a !in delivered :: MessageKey(1, 0, a, VoteKind(phase)) !in s.seen
  }

  ghost predicate AtStart(k: Setting, s: NodeState) {
    s.height == 1 && s.round == 0 && s.previous == k.genesis && s.excluded == map[]
  }

  /** The node has the proposal and the prevotes of `heard` and itself; it has precommitted if and only if
      those are a quorum. */
  ghost predicate Prevoting(k: Setting, a: AgentId, heard: set<AgentId>, s: NodeState)
    requires k.Valid()
  {
    PrevoteLedgers(k, a, heard, s) && Unseen(s, Prevote, heard) && Unseen(s, Precommit, {})
  }

  ghost predicate PrevoteLedgers(k: Setting, a: AgentId, heard: set<AgentId>, s: NodeState)
    requires k.Valid()
  {
    var choice, voters := Some(k.Chosen().id), heard + {a};
    && AtStart(k, s) && s.proposals == map[0 := k.Chosen()]
    && s.prevotes == map[0 := Unanimous(voters, choice)] && s.emittedPrevotes == {0}
    && (if |voters| >= k.committee.Threshold()
        then s.precommits == map[0 := Unanimous({a}, choice)] && s.emittedPrecommits == {0}
        else s.precommits == map[] && s.emittedPrecommits == {})
  }

  /** The node has a quorum of prevotes and the precommits of `heard` and itself; with a quorum of those it
      has committed. */
  ghost predicate Precommitting(k: Setting, a: AgentId, heard: set<AgentId>, s: NodeState)
    requires k.Valid()
  {
    var choice, voters := Some(k.Chosen().id), heard + {a};
    && Unseen(s, Precommit, heard) && s.excluded == map[]
    && (if |voters| >= k.committee.Threshold() then s.height == 2 && s.previous == k.CommitHash()
        else
          && AtStart(k, s) && s.proposals == map[0 := k.Chosen()]
          && 0 in s.prevotes && s.prevotes[0].Count(choice) >= k.committee.Threshold()
          && s.precommits == map[0 := Unanimous(voters, choice)] && s.emittedPrecommits == {0})
  }

  /** Casting the first precommit of a round: with a threshold above one it is sent and nothing commits. */
  lemma FirstPrecommit(k: Setting, a: AgentId, s: NodeState, choice: Choice)
    requires k.Valid() && AtStart(k, s) && s.precommits == map[] && s.emittedPrecommits == {}
    ensures EmitPrecommit(k.ConfigOf(a), s, 0, choice, k.now)
            == Outcome(s.(precommits := map[0 := Unanimous({a}, choice)], emittedPrecommits := {0},
                          step := AtPrecommit),
                       Ok(Sending(k.Wire(a, Vote(Precommit, choice)).envelope)))
  {
    hide Commit;
    FirstUnanimous(a, choice);
  }

  ghost predicate Crosses(k: Setting, a: AgentId, heard: set<AgentId>, b: AgentId) {
    |heard + {a}| < k.committee.Threshold() <= |heard + {b} + {a}|
  }

  /** What observing the prevote of `b` does to the ledgers. */
  lemma PrevoteOutcome(k: Setting, a: AgentId, heard: set<AgentId>, s: NodeState, b: AgentId)
    requires k.Valid() && a in k.committee.members && PrevoteLedgers(k, a, heard, s)
    ensures var choice := Some(k.Chosen().id);
            var s2 := s.(prevotes := map[0 := Unanimous(heard + {b} + {a}, choice)]);
            ObservePrevote(k.ConfigOf(a), s, b, 0, choice, k.now)
            == if Crosses(k, a, heard, b)
               then Outcome(s2.(precommits := map[0 := Unanimous({a}, choice)], emittedPrecommits := {0},
                                step := AtPrecommit),
                            Ok(Sending(k.Wire(a, Vote(Precommit, choice)).envelope)))
               else Idle(s2)
  {
    hide EmitPrecommit, RecordVote, Setting.Valid, Setting.Wire;
    Basics(k, a);
    var choice, voters := Some(k.Chosen().id), heard + {b} + {a};
    UnanimousVote(heard + {a}, b, choice);
    assert heard + {a} + {b} == voters;
    var s2 := s.(prevotes := s.prevotes[0 := Unanimous(voters, choice)]);
    assert s2.prevotes == map[0 := Unanimous(voters, choice)];
    assert |heard + {a}| <= |voters| by { SubsetSize(heard + {a}, voters); }
    if Crosses(k, a, heard, b) { FirstPrecommit(k, a, s2, choice); }
  }

  lemma PrevoteStep(k: Setting, a: AgentId, heard: set<AgentId>, s: NodeState, b: AgentId)
    requires k.Valid() && a in k.committee.members && b in k.committee.members
    requires Prevoting(k, a, heard, s) && b !in heard
    ensures var choice := Some(k.Chosen().id);
            var o := HandleSigned(k.ConfigOf(a), s, k.Wire(b, Vote(Prevote, choice)), k.now);
            && o.result.Ok? && o.Commits() == [] && Prevoting(k, a, heard + {b}, o.state)
            && o.Outbound() == if Crosses(k, a, heard, b) then [k.Wire(a, Vote(Precommit, choice)).envelope] else []
  {
    hide HandleSigned, ObservePrevote, Setting.Valid, Unanimous;
    assert k.ConfigOf(a).Valid() by { Basics(k, a); }
    var c, choice := k.ConfigOf(a), Some(k.Chosen().id);
    var e := k.Wire(b, Vote(Prevote, choice));
    assert c.crypto.verifies(e) by { Verifies(k, e.envelope); }
    Accepts(c, s, e, k.now);
    var s1 := s.(seen := s.seen[KeyOf(e.envelope.message) := e]);
    RemembersPrevote(heard, s, b, e);
    PrevoteOutcome(k, a, heard, s1, b);
    assert |heard + {a}| <= |heard + {b} + {a}| by { SubsetSize(heard + {a}, heard + {b} + {a}); }
  }

  lemma RemembersPrevote(heard: set<AgentId>, s: NodeState, b: AgentId, e: SignedEnvelope)
    requires Unseen(s, Prevote, heard) && Unseen(s, Precommit, {})
    requires KeyOf(e.envelope.message) == MessageKey(1, 0, b, VoteKind(Prevote))
    ensures var s1 := s.(seen := s.seen[KeyOf(e.envelope.message) := e]);
            Unseen(s1, Prevote, heard + {b}) && Unseen(s1, Precommit, {})
  {
  }

  lemma Basics(k: Setting, a: AgentId)
    requires k.Valid() && a in k.committee.members
    ensures k.committee.Threshold() >= 3 && k.ConfigOf(a).Valid() && |k.live| >= k.committee.Threshold()
    ensures k.ConfigOf(a).ProposerFor(k.genesis, 0) == k.Leader()
  {
  }

  lemma Formed(k: Setting)
    requires k.Valid()
    ensures k.committee.Valid() && k.roundTimeout > 0 && k.Leader() in k.live
    ensures Distinct(k.live) && |k.live| >= k.committee.Threshold() >= 3
  {
  }

  lemma LiveIsMember(k: Setting, a: AgentId)
    requires k.Valid() && a in k.live
    ensures a in k.committee.members
  {
  }

  lemma Verifies(k: Setting, e: Envelope)
    requires k.Valid()
    ensures k.crypto.verifies(k.Signed(e))
  {
  }

  lemma CommitsHere(k: Setting, a: AgentId, s: NodeState)
    requires k.Valid() && AtStart(k, s) && s.proposals == map[0 := k.Chosen()]
    requires LedgerAt(s.prevotes, 0).Count(Some(k.Chosen().id)) >= k.committee.Threshold()
    requires LedgerAt(s.precommits, 0).Count(Some(k.Chosen().id)) >= k.committee.Threshold()
    ensures var o := Commit(k.ConfigOf(a), s, 0, Some(k.Chosen().id), k.now);
            && o.state.height == 2 && o.state.previous == k.CommitHash() && o.Outbound() == [] && o.result.Ok?
            && o.state.seen == s.seen && o.state.excluded == s.excluded
            && |o.Commits()| == 1 && IsChosen(k, o.Commits()[0])
  {
  }

  /** The commit every live node should report. */
  ghost predicate IsChosen(k: Setting, commit: CommitRecord)
    requires k.Valid()
  {
    commit.height == 1 && commit.round == 0 && commit.proposal == k.Chosen() && commit.hash == k.CommitHash()
  }

  lemma PrecommitStep(k: Setting, a: AgentId, heard: set<AgentId>, s: NodeState, b: AgentId)
    requires k.Valid() && a in k.committee.members && b in k.committee.members
    requires Precommitting(k, a, heard, s) && b !in heard
    ensures var choice := Some(k.Chosen().id);
            var o := HandleSigned(k.ConfigOf(a), s, k.Wire(b, Vote(Precommit, choice)), k.now);
            && o.result.Ok? && o.Outbound() == [] && Precommitting(k, a, heard + {b}, o.state)
            && (if Crosses(k, a, heard, b) then |o.Commits()| == 1 && IsChosen(k, o.Commits()[0])
                else o.Commits() == [])
  {
    hide HandleSigned, Commit, RecordVote, Setting.Valid;
    assert k.ConfigOf(a).Valid() by { Basics(k, a); }
    var c, choice := k.ConfigOf(a), Some(k.Chosen().id);
    var e := k.Wire(b, Vote(Precommit, choice));
    assert c.crypto.verifies(e) by { Verifies(k, e.envelope); }
    var s1 := s.(seen := s.seen[KeyOf(e.envelope.message) := e]);
    var voters := heard + {b} + {a};
    assert heard + {a} + {b} == voters;
    assert |heard + {a}| <= |voters| by { SubsetSize(heard + {a}, voters); }
    if |heard + {a}| >= k.committee.Threshold() {
      Outdated(c, s, e, k.now);
    } else {
      Accepts(c, s, e, k.now);
      UnanimousVote(heard + {a}, b, choice);
      var s2 := s1.(precommits := s1.precommits[0 := Unanimous(voters, choice)]);
      assert s2.precommits == map[0 := Unanimous(voters, choice)];
      if Crosses(k, a, heard, b) { CommitsHere(k, a, s2); }
    }
  }

  /** A node that has queued its proposal; the leader has already prevoted for its own. */
  ghost predicate Queued(k: Setting, a: AgentId, s: NodeState)
    requires k.Valid()
  {
    && AtStart(k, s) && s.seen == map[]
    && (if a == k.Leader() then PrevoteLedgers(k, a, {}, s)
        else s.proposals == map[] && s.prevotes == map[] && s.precommits == map[]
             && s.emittedPrevotes == {} && s.emittedPrecommits == {})
  }

  /** Casting the first prevote of a round. */
  lemma FirstPrevote(k: Setting, a: AgentId, s: NodeState, choice: Choice)
    requires k.Valid() && AtStart(k, s) && s.prevotes == map[] && s.emittedPrevotes == {}
    ensures EmitPrevote(k.ConfigOf(a), s, 0, choice, k.now)
            == Outcome(s.(prevotes := map[0 := Unanimous({a}, choice)], emittedPrevotes := {0}, step := AtPrevote),
                       Ok(Sending(k.Wire(a, Vote(Prevote, choice)).envelope)))
  {
    hide EmitPrecommit;
    FirstUnanimous(a, choice);
  }

  lemma QueueStep(k: Setting, a: AgentId)
    requires k.Valid() && a in k.live
    ensures var o := QueueProposal(k.ConfigOf(a), InitialState(k.genesis, k.now), k.proposals(a), k.now);
            && o.result.Ok? && o.Commits() == [] && Queued(k, a, o.state)
            && o.Outbound() == if a == k.Leader()
                               then [k.Wire(a, Propose(k.Chosen())).envelope,
                                     k.Wire(a, Vote(Prevote, Some(k.Chosen().id))).envelope]
                               else []
  {
    hide EmitPrevote;
    Basics(k, a);
    var s := InitialState(k.genesis, k.now).(pending := Some(k.proposals(a)));
    var choice := Some(k.Chosen().id);
    if a == k.Leader() {
      var s1 := s.(proposals := s.proposals[0 := k.Chosen()]);
      FirstPrevote(k, a, s1, choice);
      assert s1.proposals == map[0 := k.Chosen()];
      assert {} + {a} == {a};
    }
  }

  lemma ProposalStep(k: Setting, a: AgentId, s: NodeState)
    requires k.Valid() && a in k.live && Queued(k, a, s)
    ensures var o := HandleSigned(k.ConfigOf(a), s, k.Wire(k.Leader(), Propose(k.Chosen())), k.now);
            && o.result.Ok? && o.Commits() == [] && Prevoting(k, a, {}, o.state)
            && o.Outbound() == if a == k.Leader() then []
                               else [k.Wire(a, Vote(Prevote, Some(k.Chosen().id))).envelope]
  {
    hide HandleSigned, EmitPrevote, Setting.Valid;
    assert a in k.committee.members by { LiveIsMember(k, a); }
    Basics(k, a);
    var c, e, choice := k.ConfigOf(a), k.Wire(k.Leader(), Propose(k.Chosen())), Some(k.Chosen().id);
    assert c.crypto.verifies(e) by { Verifies(k, e.envelope); }
    Accepts(c, s, e, k.now);
    var s1 := s.(seen := s.seen[KeyOf(e.envelope.message) := e]);
    assert {} + {a} == {a};
    if a != k.Leader() {
      var s2 := s1.(proposals := s1.proposals[0 := k.Chosen()]);
      assert s2.proposals == map[0 := k.Chosen()];
      FirstPrevote(k, a, s2, choice);
    }
  }

  // -------------------------------------------------------------------------
  // All live nodes on one wire

  datatype Harness = Harness(
    nodes: map<AgentId, NodeState>, wire: seq<SignedEnvelope>, commits: map<AgentId, seq<CommitRecord>>)

  function SignAll(k: Setting, envelopes: seq<Envelope>): seq<SignedEnvelope> {
    seq(|envelopes|, i requires 0 <= i < |envelopes| => k.Signed(envelopes[i]))
  }

  /** The outcome of an event at one node of the harness. */
  function At(k: Setting, h: Harness, a: AgentId, ev: Event): Outcome
    requires k.ConfigOf(a).Valid() && a in h.nodes
  {
    Next(k.ConfigOf(a), h.nodes[a], ev)
  }

  function Apply(k: Setting, h: Harness, a: AgentId, ev: Event): Harness
    requires k.ConfigOf(a).Valid() && a in h.nodes && a in h.commits
  {
    var o := At(k, h, a, ev);
    Harness(h.nodes[a := o.state], h.wire + SignAll(k, o.Outbound()), h.commits[a := h.commits[a] + o.Commits()])
  }

  ghost predicate Ready(k: Setting, h: Harness, xs: seq<AgentId>) {
    forall a | a in xs :: k.ConfigOf(a).Valid() && a in h.nodes && a in h.commits
  }

  /** Each node of `xs`, in order, handles its event. */
  ghost function ApplyAll(k: Setting, h: Harness, xs: seq<AgentId>, ev: AgentId -> Event): Harness
    requires Ready(k, h, xs)
    decreases |xs|
  {
    if xs == [] then h else ApplyAll(k, Apply(k, h, xs[0], ev(xs[0])), xs[1..], ev)
  }

  /** What the nodes of `xs` put on the wire, each acting on its own state. */
  ghost function Replies(k: Setting, h: Harness, xs: seq<AgentId>, ev: AgentId -> Event): seq<SignedEnvelope>
    requires Ready(k, h, xs)
    decreases |xs|
  {
    if xs == [] then []
    else SignAll(k, At(k, h, xs[0], ev(xs[0])).Outbound()) + Replies(k, h, xs[1..], ev)
  }

  lemma {:induction false} RepliesLocal(k: Setting, h: Harness, h': Harness, xs: seq<AgentId>, ev: AgentId -> Event)
    requires Ready(k, h, xs) && Ready(k, h', xs) && forall a | a in xs :: h'.nodes[a] == h.nodes[a]
    ensures Replies(k, h', xs, ev) == Replies(k, h, xs, ev)
  {
    hide At;
    if xs != [] {
      assert At(k, h', xs[0], ev(xs[0])) == At(k, h, xs[0], ev(xs[0])) by { SameAt(k, h, h', xs[0], ev(xs[0])); }
      RepliesLocal(k, h, h', xs[1..], ev);
    }
  }

  lemma SameAt(k: Setting, h: Harness, h': Harness, a: AgentId, ev: Event)
    requires k.ConfigOf(a).Valid() && a in h.nodes && a in h'.nodes && h.nodes[a] == h'.nodes[a]
    ensures At(k, h', a, ev) == At(k, h, a, ev)
  {
    hide Next;
  }

  lemma ApplyOne(k: Setting, h: Harness, a: AgentId, ev: Event)
    requires k.ConfigOf(a).Valid() && a in h.nodes && a in h.commits
    ensures var h' := Apply(k, h, a, ev);
            && h'.nodes.Keys == h.nodes.Keys && h'.commits.Keys == h.commits.Keys
            && h'.wire == h.wire + SignAll(k, At(k, h, a, ev).Outbound())
            && h'.nodes[a] == At(k, h, a, ev).state && h'.commits[a] == h.commits[a] + At(k, h, a, ev).Commits()
            && (forall b | b in h.nodes && b != a :: h'.nodes[b] == h.nodes[b])
            && (forall b | b in h.commits && b != a :: h'.commits[b] == h.commits[b])
  {
    hide At;
  }

  /** `h'` is `h` after each node of `xs` acted exactly once on its own state. */
  ghost predicate Swept(k: Setting, h: Harness, xs: seq<AgentId>, ev: AgentId -> Event, h': Harness)
    requires Ready(k, h, xs)
  {
    Acted(k, h, xs, ev, h') && h'.wire == h.wire + Replies(k, h, xs, ev)
  }

  ghost predicate Acted(k: Setting, h: Harness, xs: seq<AgentId>, ev: AgentId -> Event, h': Harness)
    requires Ready(k, h, xs)
  {
    && h'.nodes.Keys == h.nodes.Keys && h'.commits.Keys == h.commits.Keys
    && (forall a | a in h.nodes :: h'.nodes[a] == if a in xs then At(k, h, a, ev(a)).state else h.nodes[a])
    && (forall a | a in h.commits ::
          h'.commits[a] == if a in xs then h.commits[a] + At(k, h, a, ev(a)).Commits() else h.commits[a])
  }

  lemma {:induction false} Sweep(k: Setting, h: Harness, xs: seq<AgentId>, ev: AgentId -> Event)
    requires Ready(k, h, xs) && Distinct(xs)
    ensures Swept(k, h, xs, ev, ApplyAll(k, h, xs, ev))
    decreases |xs|
  {
    hide At, Apply;
    if xs != [] {
      var x, rest := xs[0], xs[1..];
      var h1 := Apply(k, h, x, ev(x));
      ApplyOne(k, h, x, ev(x));
      assert x !in rest;
      assert Ready(k, h1, rest);
      Sweep(k, h1, rest, ev);
      assert xs == [x] + rest;
      SweptAfter(k, h, x, rest, ev, h1, ApplyAll(k, h1, rest, ev));
    }
  }

  lemma SweptAfter(
    k: Setting, h: Harness, x: AgentId, rest: seq<AgentId>, ev: AgentId -> Event, h1: Harness, h': Harness)
    requires Ready(k, h, [x] + rest) && Ready(k, h1, rest) && x !in rest && Swept(k, h1, rest, ev, h')
    requires h1.nodes.Keys == h.nodes.Keys && h1.commits.Keys == h.commits.Keys
    requires h1.wire == h.wire + SignAll(k, At(k, h, x, ev(x)).Outbound())
    requires h1.nodes[x] == At(k, h, x, ev(x)).state && h1.commits[x] == h.commits[x] + At(k, h, x, ev(x)).Commits()
    requires forall b | b in h.nodes && b != x :: h1.nodes[b] == h.nodes[b]
    requires forall b | b in h.commits && b != x :: h1.commits[b] == h.commits[b]
    ensures Swept(k, h, [x] + rest, ev, h')
  {
    hide At, Acted, Replies, SignAll;
    ActedAfter(k, h, x, rest, ev, h1, h');
    RepliesCons(k, h, x, rest, ev);
    assert forall a | a in rest :: a in [x] + rest;
    RepliesLocal(k, h, h1, rest, ev);
    assert h.wire + SignAll(k, At(k, h, x, ev(x)).Outbound()) + Replies(k, h, rest, ev)
        == h.wire + Replies(k, h, [x] + rest, ev);
  }

  lemma ActedAfter(
    k: Setting, h: Harness, x: AgentId, rest: seq<AgentId>, ev: AgentId -> Event, h1: Harness, h': Harness)
    requires Ready(k, h, [x] + rest) && Ready(k, h1, rest) && x !in rest && Acted(k, h1, rest, ev, h')
    requires h1.nodes.Keys == h.nodes.Keys && h1.commits.Keys == h.commits.Keys
    requires h1.nodes[x] == At(k, h, x, ev(x)).state && h1.commits[x] == h.commits[x] + At(k, h, x, ev(x)).Commits()
    requires forall b | b in h.nodes && b != x :: h1.nodes[b] == h.nodes[b]
    requires forall b | b in h.commits && b != x :: h1.commits[b] == h.commits[b]
    ensures Acted(k, h, [x] + rest, ev, h')
  {
    hide At;
    assert forall a :: a in [x] + rest <==> a == x || a in rest;
    forall a | a in rest ensures At(k, h1, a, ev(a)) == At(k, h, a, ev(a)) {
      assert a in [x] + rest;
      SameAt(k, h, h1, a, ev(a));
    }
  }

  lemma RepliesCons(k: Setting, h: Harness, x: AgentId, rest: seq<AgentId>, ev: AgentId -> Event)
    requires Ready(k, h, [x] + rest)
    ensures Ready(k, h, rest)
    ensures Replies(k, h, [x] + rest, ev) == SignAll(k, At(k, h, x, ev(x)).Outbound()) + Replies(k, h, rest, ev)
  {
    hide At, SignAll;
    assert ([x] + rest)[1..] == rest;
  }

  // -------------------------------------------------------------------------
  // Lists of senders

  function Wires(k: Setting, xs: seq<AgentId>, body: Body): seq<SignedEnvelope> {
    seq(|xs|, i requires 0 <= i < |xs| => k.Wire(xs[i], body))
  }

  ghost function Filter(xs: seq<AgentId>, keep: set<AgentId>): seq<AgentId> {
    if xs == [] then []
    else (if xs[0] in keep then [xs[0]] else []) + Filter(xs[1..], keep)
  }

  ghost function SetIn(xs: seq<AgentId>): set<AgentId> { set a | a in xs }

  lemma {:induction false} FilterFacts(xs: seq<AgentId>, keep: set<AgentId>)
    requires Distinct(xs)
    ensures Distinct(Filter(xs, keep)) && SetIn(Filter(xs, keep)) == SetIn(xs) * keep
  {
    if xs != [] {
      var rest := Filter(xs[1..], keep);
      FilterFacts(xs[1..], keep);
      assert SetIn(xs) == {xs[0]} + SetIn(xs[1..]);
      assert xs[0] !in xs[1..];
      assert forall a | a in rest :: a in SetIn(rest);
      assert xs[0] !in rest;
      assert SetIn(Filter(xs, keep)) == (if xs[0] in keep then {xs[0]} else {}) + SetIn(rest);
    }
  }

  lemma {:induction false} DistinctSize(xs: seq<AgentId>)
    requires Distinct(xs)
    ensures |SetIn(xs)| == |xs|
  {
    if xs != [] {
      DistinctSize(xs[1..]);
      assert xs[0] !in xs[1..];
      assert SetIn(xs) == {xs[0]} + SetIn(xs[1..]);
    }
  }

  lemma {:induction false} RepliesFilter(
    k: Setting, h: Harness, xs: seq<AgentId>, ev: AgentId -> Event, body: Body, keep: set<AgentId>)
    requires Ready(k, h, xs)
    requires forall a | a in xs :: At(k, h, a, ev(a)).Outbound() == if a in keep then [k.Wire(a, body).envelope] else []
    ensures Replies(k, h, xs, ev) == Wires(k, Filter(xs, keep), body)
  {
    hide At, SignAll, Wires, Setting.Wire;
    if xs == [] { WiresOne(k, 0, body); }
    else {
      var rest := xs[1..];
      RepliesFilter(k, h, rest, ev, body, keep);
      WiresOne(k, xs[0], body);
      WiresAppend(k, [xs[0]], Filter(rest, keep), body);
      WiresAppend(k, [], Filter(rest, keep), body);
    }
  }

  lemma WiresOne(k: Setting, a: AgentId, body: Body)
    ensures Wires(k, [], body) == [] && Wires(k, [a], body) == [k.Wire(a, body)]
    ensures SignAll(k, [k.Wire(a, body).envelope]) == [k.Wire(a, body)] && SignAll(k, []) == []
  {
  }

  lemma WiresAppend(k: Setting, xs: seq<AgentId>, ys: seq<AgentId>, body: Body)
    ensures Wires(k, xs + ys, body) == Wires(k, xs, body) + Wires(k, ys, body)
  {
  }

  // -------------------------------------------------------------------------
  // The schedule

  ghost function DeliverFront(k: Setting, h: Harness): Harness
    requires k.Valid() && Ready(k, h, k.live)
  {
    if h.wire == [] then h
    else
      var e := h.wire[0];
      ApplyAll(k, h.(wire := h.wire[1..]), k.live, (a: AgentId) => Deliver(e, k.now))
  }

  ghost function Started(k: Setting): Harness
    requires k.Valid()
  {
    ApplyAll(k,
             Harness(map a | a in k.live :: InitialState(k.genesis, k.now), [], map a | a in k.live :: []),
             k.live, (a: AgentId) => Queue(k.proposals(a), k.now))
  }

  /** `heard` is the set of members whose votes of one kind have been delivered, `rest` those still to come. */
  ghost predicate Splits(k: Setting, heard: set<AgentId>, rest: seq<AgentId>) {
    Distinct(rest) && heard + SetIn(rest) == SetIn(k.live) && heard !! SetIn(rest)
  }

  ghost function Quorate(k: Setting, heard: set<AgentId>): set<AgentId> {
    set a | a in k.live && |heard + {a}| >= k.committee.Threshold()
  }

  ghost predicate PrevotePhase(k: Setting, h: Harness, heard: set<AgentId>, rest: seq<AgentId>, sent: seq<AgentId>)
    requires k.Valid()
  {
    var choice := Some(k.Chosen().id);
    && Ready(k, h, k.live) && Splits(k, heard, rest)
    && Distinct(sent) && SetIn(sent) == Quorate(k, heard)
    && h.wire == Wires(k, rest, Vote(Prevote, choice)) + Wires(k, sent, Vote(Precommit, choice))
    && forall a | a in k.live :: Prevoting(k, a, heard, h.nodes[a]) && h.commits[a] == []
  }

  ghost predicate PrecommitPhase(k: Setting, h: Harness, heard: set<AgentId>, rest: seq<AgentId>)
    requires k.Valid()
  {
    && Ready(k, h, k.live) && Splits(k, heard, rest)
    && h.wire == Wires(k, rest, Vote(Precommit, Some(k.Chosen().id)))
    && forall a | a in k.live ::
         && Precommitting(k, a, heard, h.nodes[a])
         && (if a in Quorate(k, heard) then |h.commits[a]| == 1 && IsChosen(k, h.commits[a][0]) else h.commits[a] == [])
  }

  lemma SplitsNext(k: Setting, heard: set<AgentId>, rest: seq<AgentId>)
    requires Splits(k, heard, rest) && rest != []
    ensures rest[0] in k.live && rest[0] !in heard && Splits(k, heard + {rest[0]}, rest[1..])
  {
    assert SetIn(rest) == {rest[0]} + SetIn(rest[1..]);
    assert rest[0] in SetIn(rest) && rest[0] !in rest[1..];
  }

  /** Nodes that gain their quorum with the vote of `b`. */
  ghost function Gaining(k: Setting, heard: set<AgentId>, b: AgentId): set<AgentId> {
    set a | a in k.live && Crosses(k, a, heard, b)
  }

  lemma GainingFacts(k: Setting, heard: set<AgentId>, b: AgentId)
    ensures Quorate(k, heard + {b}) == Quorate(k, heard) + Gaining(k, heard, b)
    ensures Quorate(k, heard) !! Gaining(k, heard, b)
  {
    forall a | a in k.live ensures |heard + {a}| <= |heard + {b} + {a}| { SubsetSize(heard + {a}, heard + {b} + {a}); }
  }

  lemma AtDeliver(k: Setting, h: Harness, a: AgentId, e: SignedEnvelope)
    requires k.ConfigOf(a).Valid() && a in h.nodes
    ensures At(k, h, a, Deliver(e, k.now)) == HandleSigned(k.ConfigOf(a), h.nodes[a], e, k.now)
  {
    hide HandleSigned;
  }

  lemma PrevoteSweep(k: Setting, h: Harness, heard: set<AgentId>, b: AgentId, ev: AgentId -> Event)
    requires k.Valid() && Ready(k, h, k.live) && b in k.live && b !in heard
    requires forall a | a in k.live :: Prevoting(k, a, heard, h.nodes[a]) && h.commits[a] == []
    requires forall a :: ev(a) == Deliver(k.Wire(b, Vote(Prevote, Some(k.Chosen().id))), k.now)
    ensures var choice := Some(k.Chosen().id);
            var h' := ApplyAll(k, h, k.live, ev);
            && Ready(k, h', k.live)
            && h'.wire == h.wire + Wires(k, Filter(k.live, Gaining(k, heard, b)), Vote(Precommit, choice))
            && forall a | a in k.live :: Prevoting(k, a, heard + {b}, h'.nodes[a]) && h'.commits[a] == []
  {
    hide At, HandleSigned, Prevoting, Setting.Wire, ApplyAll;
    var choice := Some(k.Chosen().id);
    forall a | a in k.live
      ensures var o := At(k, h, a, ev(a));
              && o.Commits() == [] && Prevoting(k, a, heard + {b}, o.state)
              && o.Outbound() == if a in Gaining(k, heard, b) then [k.Wire(a, Vote(Precommit, choice)).envelope] else []
    {
      AtDeliver(k, h, a, k.Wire(b, Vote(Prevote, choice)));
      PrevoteStep(k, a, heard, h.nodes[a], b);
    }
    Sweep(k, h, k.live, ev);
    RepliesFilter(k, h, k.live, ev, Vote(Precommit, choice), Gaining(k, heard, b));
  }

  lemma PrevotePhaseStep(k: Setting, h: Harness, heard: set<AgentId>, rest: seq<AgentId>, sent: seq<AgentId>)
    requires k.Valid() && PrevotePhase(k, h, heard, rest, sent) && rest != []
    ensures PrevotePhase(k, DeliverFront(k, h), heard + {rest[0]}, rest[1..],
                         sent + Filter(k.live, Gaining(k, heard, rest[0])))
  {
    hide ApplyAll, Prevoting, Setting.Valid, Quorate, Gaining, Setting.Wire;
    Formed(k);
    var b, choice := rest[0], Some(k.Chosen().id);
    SplitsNext(k, heard, rest);
    GainingFacts(k, heard, b);
    var e := h.wire[0];
    assert e == k.Wire(b, Vote(Prevote, choice));
    var h0 := h.(wire := h.wire[1..]);
    var more := Filter(k.live, Gaining(k, heard, b));
    PrevoteSweep(k, h0, heard, b, (a: AgentId) => Deliver(e, k.now));
    FilterFacts(k.live, Gaining(k, heard, b));
    WiresAppend(k, sent, more, Vote(Precommit, choice));
    assert h.wire[1..] == Wires(k, rest[1..], Vote(Prevote, choice)) + Wires(k, sent, Vote(Precommit, choice));
    SentDistinct(k, heard, b, sent, more);
  }

  lemma SentDistinct(k: Setting, heard: set<AgentId>, b: AgentId, sent: seq<AgentId>, more: seq<AgentId>)
    requires Distinct(sent) && SetIn(sent) == Quorate(k, heard)
    requires Distinct(more) && SetIn(more) == SetIn(k.live) * Gaining(k, heard, b)
    ensures Distinct(sent + more) && SetIn(sent + more) == Quorate(k, heard + {b})
  {
    hide Quorate, Gaining;
    GainingFacts(k, heard, b);
    assert SetIn(k.live) * Gaining(k, heard, b) == Gaining(k, heard, b) by { GainingLive(k, heard, b); }
    assert SetIn(sent + more) == SetIn(sent) + SetIn(more);
    forall i, j | 0 <= i < j < |sent + more| ensures (sent + more)[i] != (sent + more)[j] {
      if i < |sent| <= j {
        assert sent[i] in SetIn(sent) && more[j - |sent|] in SetIn(more);
      }
    }
  }

  lemma GainingLive(k: Setting, heard: set<AgentId>, b: AgentId)
    ensures Gaining(k, heard, b) <= SetIn(k.live)
  {
  }

  lemma PrecommitSweep(k: Setting, h: Harness, heard: set<AgentId>, b: AgentId, ev: AgentId -> Event)
    requires k.Valid() && Ready(k, h, k.live) && b in k.live && b !in heard
    requires forall a | a in k.live :: Precommitting(k, a, heard, h.nodes[a])
    requires forall a :: ev(a) == Deliver(k.Wire(b, Vote(Precommit, Some(k.Chosen().id))), k.now)
    ensures var h' := ApplyAll(k, h, k.live, ev);
            && Ready(k, h', k.live) && h'.wire == h.wire
            && forall a | a in k.live ::
                 && Precommitting(k, a, heard + {b}, h'.nodes[a])
                 && (if a in Gaining(k, heard, b)
                     then |h'.commits[a]| == |h.commits[a]| + 1 && h.commits[a] <= h'.commits[a]
                          && IsChosen(k, h'.commits[a][|h.commits[a]|])
                     else h'.commits[a] == h.commits[a])
  {
    hide At, HandleSigned, Precommitting, Setting.Wire, ApplyAll, IsChosen;
    var choice := Some(k.Chosen().id);
    forall a | a in k.live
      ensures var o := At(k, h, a, ev(a));
              && Precommitting(k, a, heard + {b}, o.state) && o.Outbound() == []
              && (if a in Gaining(k, heard, b) then |o.Commits()| == 1 && IsChosen(k, o.Commits()[0])
                  else o.Commits() == [])
    {
      AtDeliver(k, h, a, k.Wire(b, Vote(Precommit, choice)));
      PrecommitStep(k, a, heard, h.nodes[a], b);
    }
    Sweep(k, h, k.live, ev);
    RepliesFilter(k, h, k.live, ev, Vote(Precommit, choice), {});
    FilterNothing(k.live);
  }

  lemma {:induction false} FilterNothing(xs: seq<AgentId>)
    ensures Filter(xs, {}) == []
  {
    if xs != [] { FilterNothing(xs[1..]); }
  }

  lemma PrecommitPhaseStep(k: Setting, h: Harness, heard: set<AgentId>, rest: seq<AgentId>)
    requires k.Valid() && PrecommitPhase(k, h, heard, rest) && rest != []
    ensures PrecommitPhase(k, DeliverFront(k, h), heard + {rest[0]}, rest[1..])
  {
    hide ApplyAll, Precommitting, Setting.Valid, Quorate, Gaining, Setting.Wire, IsChosen;
    Formed(k);
    var b, choice := rest[0], Some(k.Chosen().id);
    SplitsNext(k, heard, rest);
    GainingFacts(k, heard, b);
    var e := h.wire[0];
    assert e == k.Wire(b, Vote(Precommit, choice));
    var h0 := h.(wire := h.wire[1..]);
    PrecommitSweep(k, h0, heard, b, (a: AgentId) => Deliver(e, k.now));
    assert h.wire[1..] == Wires(k, rest[1..], Vote(Precommit, choice));
  }

  lemma BecomesPrecommitting(k: Setting, a: AgentId, heard: set<AgentId>, s: NodeState)
    requires k.Valid() && Prevoting(k, a, heard, s) && |heard + {a}| >= k.committee.Threshold() >= 3
    ensures Precommitting(k, a, {}, s)
  {
    hide Setting.Valid;
    assert {} + {a} == {a};
  }

  lemma AllQuorate(k: Setting, heard: set<AgentId>)
    requires k.Valid() && heard == SetIn(k.live)
    ensures Quorate(k, heard) == SetIn(k.live) && forall a | a in k.live :: heard + {a} == heard
  {
    hide Setting.Valid;
    Formed(k);
    DistinctSize(k.live);
    forall a | a in k.live ensures heard + {a} == heard {}
  }

  lemma NoneQuorate(k: Setting)
    requires k.Valid()
    ensures Quorate(k, {}) == {}
  {
    hide Setting.Valid;
    Formed(k);
    forall a | a in k.live ensures {} + {a} == {a} {}
  }

  /** With every prevote delivered, every live node has a quorum and has precommitted. */
  lemma PrevotesDone(k: Setting, h: Harness, heard: set<AgentId>, sent: seq<AgentId>)
    requires k.Valid() && PrevotePhase(k, h, heard, [], sent)
    ensures PrecommitPhase(k, h, {}, sent) && |sent| == |k.live|
  {
    hide Setting.Valid, Setting.Wire, Prevoting, Precommitting, Quorate;
    Formed(k);
    assert SetIn([]) == {};
    assert heard == SetIn(k.live);
    AllQuorate(k, heard);
    NoneQuorate(k);
    DistinctSize(k.live);
    DistinctSize(sent);
    assert {} + SetIn(sent) == SetIn(k.live);
    forall a | a in k.live ensures Precommitting(k, a, {}, h.nodes[a]) {
      BecomesPrecommitting(k, a, heard, h.nodes[a]);
    }
  }

  ghost function Steps(k: Setting, h: Harness, n: nat): Harness
    requires k.Valid() && Ready(k, h, k.live)
    decreases n
  {
    if n == 0 then h else
    DeliverReady(k, h);
    Steps(k, DeliverFront(k, h), n - 1)
  }

  lemma DeliverReady(k: Setting, h: Harness)
    requires k.Valid() && Ready(k, h, k.live)
    ensures Ready(k, DeliverFront(k, h), k.live)
  {
    hide Setting.Valid, ApplyAll;
    Formed(k);
    if h.wire != [] {
      var e := h.wire[0];
      Sweep(k, h.(wire := h.wire[1..]), k.live, (a: AgentId) => Deliver(e, k.now));
    }
  }

  lemma {:induction false} PrecommitsRun(k: Setting, h: Harness, heard: set<AgentId>, rest: seq<AgentId>)
    requires k.Valid() && PrecommitPhase(k, h, heard, rest)
    ensures PrecommitPhase(k, Steps(k, h, |rest|), SetIn(k.live), [])
    decreases |rest|
  {
    hide PrecommitPhase, DeliverFront, Setting.Valid;
    if rest == [] {
      assert heard == SetIn(k.live) by { SplitsAll(k, h, heard); }
    } else {
      PrecommitPhaseStep(k, h, heard, rest);
      assert Ready(k, h, k.live) by { PhaseReady(k, h, heard, rest); }
      PrecommitsRun(k, DeliverFront(k, h), heard + {rest[0]}, rest[1..]);
    }
  }

  lemma SplitsAll(k: Setting, h: Harness, heard: set<AgentId>)
    requires k.Valid() && PrecommitPhase(k, h, heard, [])
    ensures heard == SetIn(k.live)
  {
    assert SetIn([]) == {};
  }

  lemma PhaseReady(k: Setting, h: Harness, heard: set<AgentId>, rest: seq<AgentId>)
    requires k.Valid() && PrecommitPhase(k, h, heard, rest)
    ensures Ready(k, h, k.live)
  {
  }

  lemma {:induction false} PrevotesRun(
    k: Setting, h: Harness, heard: set<AgentId>, rest: seq<AgentId>, sent: seq<AgentId>)
    requires k.Valid() && PrevotePhase(k, h, heard, rest, sent)
    ensures Ready(k, h, k.live) && Ready(k, Steps(k, h, |rest|), k.live)
    ensures exists order :: |order| == |k.live| && PrecommitPhase(k, Steps(k, h, |rest|), {}, order)
    decreases |rest|
  {
    hide PrecommitPhase, DeliverFront, Setting.Valid;
    if rest == [] {
      PrevotesDone(k, h, heard, sent);
    } else {
      PrevotePhaseStep(k, h, heard, rest, sent);
      PrevotesRun(k, DeliverFront(k, h), heard + {rest[0]}, rest[1..],
                  sent + Filter(k.live, Gaining(k, heard, rest[0])));
    }
  }

  // -------------------------------------------------------------------------
  // The beginning

  lemma {:induction false} RepliesOfOne(k: Setting, h: Harness, xs: seq<AgentId>, ev: AgentId -> Event, x: AgentId)
    requires Ready(k, h, xs) && Distinct(xs)
    requires forall a | a in xs && a != x :: At(k, h, a, ev(a)).Outbound() == []
    ensures Replies(k, h, xs, ev) == if x in xs then SignAll(k, At(k, h, x, ev(x)).Outbound()) else []
  {
    hide At;
    if xs != [] {
      RepliesOfOne(k, h, xs[1..], ev, x);
      assert xs[0] !in xs[1..];
    }
  }

  lemma AtQueue(k: Setting, h: Harness, a: AgentId, proposal: Proposal)
    requires k.ConfigOf(a).Valid() && a in h.nodes
    ensures At(k, h, a, Queue(proposal, k.now)) == QueueProposal(k.ConfigOf(a), h.nodes[a], proposal, k.now)
  {
    hide QueueProposal;
  }

  /** After queueing, the wire holds the leader's proposal and prevote. */
  lemma StartedWire(k: Setting)
    requires k.Valid()
    ensures var h := Started(k);
            && Ready(k, h, k.live)
            && h.wire == [k.Wire(k.Leader(), Propose(k.Chosen())),
                          k.Wire(k.Leader(), Vote(Prevote, Some(k.Chosen().id)))]
            && forall a | a in k.live :: Queued(k, a, h.nodes[a]) && h.commits[a] == []
  {
    hide At, QueueProposal, Queued, ApplyAll, Setting.Wire;
    var h := Harness(map a | a in k.live :: InitialState(k.genesis, k.now), [], map a | a in k.live :: []);
    var ev := (a: AgentId) => Queue(k.proposals(a), k.now);
    forall a | a in k.live
      ensures var o := At(k, h, a, ev(a));
              && o.Commits() == [] && Queued(k, a, o.state)
              && o.Outbound() == if a == k.Leader()
                                 then [k.Wire(a, Propose(k.Chosen())).envelope,
                                       k.Wire(a, Vote(Prevote, Some(k.Chosen().id))).envelope]
                                 else []
    {
      AtQueue(k, h, a, k.proposals(a));
      QueueStep(k, a);
    }
    Sweep(k, h, k.live, ev);
    RepliesOfOne(k, h, k.live, ev, k.Leader());
    SignTwo(k, k.Leader(), Propose(k.Chosen()), Vote(Prevote, Some(k.Chosen().id)));
  }

  lemma SignTwo(k: Setting, a: AgentId, body1: Body, body2: Body)
    ensures SignAll(k, [k.Wire(a, body1).envelope, k.Wire(a, body2).envelope]) == [k.Wire(a, body1), k.Wire(a, body2)]
  {
  }

  lemma ProposalSweep(k: Setting, h: Harness, ev: AgentId -> Event)
    requires k.Valid() && Ready(k, h, k.live)
    requires forall a | a in k.live :: Queued(k, a, h.nodes[a]) && h.commits[a] == []
    requires forall a :: ev(a) == Deliver(k.Wire(k.Leader(), Propose(k.Chosen())), k.now)
    ensures var h' := ApplyAll(k, h, k.live, ev);
            && Ready(k, h', k.live)
            && h'.wire == h.wire
              + Wires(k, Filter(k.live, SetIn(k.live) - {k.Leader()}), Vote(Prevote, Some(k.Chosen().id)))
            && forall a | a in k.live :: Prevoting(k, a, {}, h'.nodes[a]) && h'.commits[a] == []
  {
    hide At, HandleSigned, Queued, Prevoting, ApplyAll, Setting.Wire;
    var choice, others := Some(k.Chosen().id), SetIn(k.live) - {k.Leader()};
    forall a | a in k.live
      ensures var o := At(k, h, a, ev(a));
              && o.Commits() == [] && Prevoting(k, a, {}, o.state)
              && o.Outbound() == if a in others then [k.Wire(a, Vote(Prevote, choice)).envelope] else []
    {
      AtDeliver(k, h, a, k.Wire(k.Leader(), Propose(k.Chosen())));
      ProposalStep(k, a, h.nodes[a]);
    }
    Sweep(k, h, k.live, ev);
    RepliesFilter(k, h, k.live, ev, Vote(Prevote, choice), others);
  }

  /** Delivering the proposal makes every live node prevote. */
  lemma ProposalDelivered(k: Setting)
    requires k.Valid()
    ensures Ready(k, Started(k), k.live)
    ensures PrevotePhase(k, DeliverFront(k, Started(k)), {},
                         [k.Leader()] + Filter(k.live, SetIn(k.live) - {k.Leader()}), [])
  {
    hide Queued, Prevoting, ApplyAll, Setting.Wire, Setting.Valid, Quorate, Started;
    Formed(k);
    StartedWire(k);
    var h := Started(k);
    var e, rest := h.wire[0], Filter(k.live, SetIn(k.live) - {k.Leader()});
    ProposalSweep(k, h.(wire := h.wire[1..]), (a: AgentId) => Deliver(e, k.now));
    FilterFacts(k.live, SetIn(k.live) - {k.Leader()});
    NoneQuorate(k);
    WiresAppend(k, [k.Leader()], rest, Vote(Prevote, Some(k.Chosen().id)));
    LeaderFirst(k, rest);
  }

  lemma LeaderFirst(k: Setting, rest: seq<AgentId>)
    requires k.Valid() && Distinct(rest) && SetIn(rest) == SetIn(k.live) * (SetIn(k.live) - {k.Leader()})
    ensures Splits(k, {}, [k.Leader()] + rest) && |[k.Leader()] + rest| == |k.live|
  {
    hide Setting.Valid;
    Formed(k);
    var all := [k.Leader()] + rest;
    assert k.Leader() !in SetIn(rest);
    assert SetIn(all) == {k.Leader()} + SetIn(rest);
    assert SetIn(all) == SetIn(k.live);
    DistinctSize(all);
    DistinctSize(k.live);
  }

  lemma {:induction false} StepsCompose(k: Setting, h: Harness, m: nat, n: nat)
    requires k.Valid() && Ready(k, h, k.live)
    ensures Ready(k, Steps(k, h, m), k.live) && Steps(k, h, m + n) == Steps(k, Steps(k, h, m), n)
    decreases m
  {
    hide DeliverFront, Setting.Valid;
    if m > 0 {
      DeliverReady(k, h);
      StepsCompose(k, DeliverFront(k, h), m - 1, n);
    }
  }

  /**
   Bounded liveness.  With a fault tolerance `f` of at least one, at least `2f + 1` live members and a live round-0
   proposer, `2 * |live| + 1` deliveries empty the wire and leave every live node at
   height 2 on the same hash, having committed exactly the proposer's proposal, in round 0.
   */
  lemma BoundedLiveness(k: Setting)
    requires k.Valid()
    ensures Ready(k, Started(k), k.live)
    ensures var h := Steps(k, Started(k), 1 + 2 * |k.live|);
            && h.wire == []
            && forall a | a in k.live ::
                 && a in h.nodes && h.nodes[a].height == 2 && h.nodes[a].previous == k.CommitHash()
                 && a in h.commits && |h.commits[a]| == 1 && IsChosen(k, h.commits[a][0])
  {
    hide Setting.Valid, DeliverFront, PrevotePhase, PrecommitPhase, Started, IsChosen;
    Formed(k);
    ProposalDelivered(k);
    var h, n := Started(k), |k.live|;
    var h1 := DeliverFront(k, h);
    var rest := [k.Leader()] + Filter(k.live, SetIn(k.live) - {k.Leader()});
    FilterFacts(k.live, SetIn(k.live) - {k.Leader()});
    LeaderFirst(k, rest[1..]);
    PrevotesRun(k, h1, {}, rest, []);
    var order :| |order| == n && PrecommitPhase(k, Steps(k, h1, n), {}, order);
    PrecommitsRun(k, Steps(k, h1, n), {}, order);
    StepsCompose(k, h1, n, n);
    assert Steps(k, h, 1 + 2 * n) == Steps(k, h1, n + n);
    AllCommitted(k, Steps(k, h1, n + n));
  }

  lemma AllCommitted(k: Setting, h: Harness)
    requires k.Valid() && PrecommitPhase(k, h, SetIn(k.live), [])
    ensures h.wire == []
    ensures forall a | a in k.live ::
              && a in h.nodes && h.nodes[a].height == 2 && h.nodes[a].previous == k.CommitHash()
              && a in h.commits && |h.commits[a]| == 1 && IsChosen(k, h.commits[a][0])
  {
    hide Setting.Valid, IsChosen;
    Formed(k);
    AllQuorate(k, SetIn(k.live));
    DistinctSize(k.live);
  }
}
