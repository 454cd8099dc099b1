/**
 What holds over every run of the governance state machine: the receipt chain, the single key, and the exact
 rule for destructive actions.

 A run is any sequence of calls, and every round inside it may end in any way.
 */
module GovernanceRuns {
  import opened Wrappers
  import opened ConsensusModel
  import opened ConsensusNodes
  import opened GovernanceModel

  datatype Call =
    | Key(agent: AgentId, key: AgentId)
    | Peer(peer: AgentId)
    | Health(agent: AgentId, entries: seq<HealthEntry>, now: int, outcomes: ActionKind -> RoundOutcome)
    | Act(action: Action, now: int, issuedAt: int, outcome: RoundOutcome)
    | Attest(body: string, now: int, outcome: RoundOutcome)
    | Authorize(request: Request, now: int)
    | NoteVetoed(request: Request, text: string, now: int)
    | DrainNotices

  function Step(p: Policy, s: State, call: Call): (r: State)
    requires SortedPeers(s.peers)
  {
    match call
    case Key(agent, key) => RegisterGovernor(s, agent, key).state
    case Peer(peer) => RegisterPeer(s, peer)
    case Health(agent, entries, now, outcomes) => ObserveHealth(p, s, agent, entries, now, outcomes)
    case Act(action, now, issuedAt, outcome) => CanAct(p, s, action, now, issuedAt, outcome).state
    case Attest(body, now, outcome) => AttestRelease(p, s, body, now, outcome).state
    case Authorize(request, now) => AuthorizePartition(p, s, request, now).state
    case NoteVetoed(request, text, now) => NoteVeto(s, request, text, now)
    case DrainNotices => s.(notices := [])
  }

  // -------------------------------------------------------------------------
  // What staging leases touches

  /** Staging moves only the chain and appends leases. */
  ghost predicate OnlyStages(s: State, t: State) {
    t == s.(previous := t.previous, counter := t.counter, leases := t.leases) && s.leases <= t.leases
  }

  lemma {:induction false} StageFrame(
    p: Policy, s: State, kinds: seq<ActionKind>, now: int, outcomes: ActionKind -> RoundOutcome)
    requires SortedPeers(s.peers)
    ensures OnlyStages(s, StageLeases(p, s, kinds, now, outcomes))
    decreases |kinds|
  {
    hide HasOpenLease;
    if kinds != [] {
      var s1 := StageLease(p, s, kinds[0], now, outcomes(kinds[0]));
      StageFrame(p, s1, kinds[1..], now, outcomes);
    }
  }

  /** An observation is its partition part, the pruning of leases, and staging if it ended healthy. */
  lemma HealthFrame(
    p: Policy, s: State, agent: AgentId, entries: seq<HealthEntry>, now: int, outcomes: ActionKind -> RoundOutcome)
    requires SortedPeers(s.peers)
    ensures var t := ObserveHealth(p, s, agent, entries, now, outcomes);
            var s1 := ObservePartition(s, agent, entries, now);
            && OnlyStages(s1.(leases := Unexpired(s.leases, now)), t)
            && t.partition == NextPartition(s.partition, BaseState(s, entries))
            && t.unhealthy == UnhealthyOf(entries) && t.peers == s.peers && t.key == s.key && t.display == s.display
  {
    hide StageLeases, BaseState, UnhealthyOf, ReportOf, Trimmed, Unexpired;
    var s1 := ObservePartition(s, agent, entries, now);
    StageFrame(p, s1.(leases := Unexpired(s1.leases, now)), DESTRUCTIVE_KINDS, now, outcomes);
  }

  // -------------------------------------------------------------------------
  // Keys and peers

  /** The local key is not also a peer, and peers are kept as a sorted set. */
  ghost predicate OneKey(s: State) {
    SortedPeers(s.peers) && (s.key.Some? ==> s.key.value !in s.peers && s.governing.Some?)
  }

  function FirstKey(calls: seq<Call>): Option<AgentId> {
    if calls == [] then None
    else if FirstKey(calls[..|calls| - 1]).Some? then FirstKey(calls[..|calls| - 1])
    else if calls[|calls| - 1].Key? then Some(calls[|calls| - 1].key)
    else None
  }

  function AdmittedPeers(calls: seq<Call>): set<AgentId> {
    set i | 0 <= i < |calls| && calls[i].Peer? :: calls[i].peer
  }

  function LastUnhealthy(calls: seq<Call>): seq<HealthEntry> {
    if calls == [] then []
    else if calls[|calls| - 1].Health? then UnhealthyOf(calls[|calls| - 1].entries)
    else LastUnhealthy(calls[..|calls| - 1])
  }

  lemma StepIdentity(p: Policy, s: State, call: Call)
    requires OneKey(s)
    ensures var t := Step(p, s, call);
            && OneKey(t)
            && t.key == (if s.key.Some? then s.key else if call.Key? then Some(call.key) else None)
            && (forall a :: a in t.peers <==> (a in s.peers || call == Peer(a)) && t.key != Some(a))
            && t.unhealthy == (if call.Health? then UnhealthyOf(call.entries) else s.unhealthy)
  {
    hide ObserveHealth, UnhealthyOf, FirstRedeemable, IndexOfLease, Redeem, LeaseVerifies;
    if call.Health? {
      HealthFrame(p, s, call.agent, call.entries, call.now, call.outcomes);
      HealthGoverned(p, s, call);
    }
  }

  lemma HealthGoverned(p: Policy, s: State, call: Call)
    requires SortedPeers(s.peers) && call.Health?
    ensures ObserveHealth(p, s, call.agent, call.entries, call.now, call.outcomes).governing == Some(call.agent)
  {
    hide StageLeases, BaseState, UnhealthyOf, ReportOf, Trimmed, Unexpired;
    var s1 := ObservePartition(s, call.agent, call.entries, call.now);
    StageFrame(p, s1.(leases := Unexpired(s1.leases, call.now)), DESTRUCTIVE_KINDS, call.now, call.outcomes);
  }

  // -------------------------------------------------------------------------
  // Runs

  /** The state after the calls, started from `s`. */
  ghost function Run(p: Policy, s: State, calls: seq<Call>): (r: State)
    requires OneKey(s)
    ensures OneKey(r)
  {
    if calls == [] then s
    else
      var before := Run(p, s, calls[..|calls| - 1]);
      StepIdentity(p, before, calls[|calls| - 1]);
      Step(p, before, calls[|calls| - 1])
  }

  /** The key, the peers and the unhealthy agents, read off the calls: the first key offered stays for
      good, every other identity admitted stays a peer, and the last observation counts. */
  lemma {:induction false} RunIdentity(p: Policy, calls: seq<Call>)
    ensures var s := Run(p, INITIAL_STATE, calls);
            && s.key == FirstKey(calls)
            && (forall a :: a in s.peers <==> a in AdmittedPeers(calls) && s.key != Some(a))
            && s.unhealthy == LastUnhealthy(calls)
  {
    hide Step, UnhealthyOf;
    if calls != [] {
      var front, last := calls[..|calls| - 1], calls[|calls| - 1];
      RunIdentity(p, front);
      StepIdentity(p, Run(p, INITIAL_STATE, front), last);
      assert calls == front + [last];
      forall a ensures a in AdmittedPeers(calls) <==> a in AdmittedPeers(front) || (last.Peer? && last.peer == a) {
        AdmittedGrows(front, last, a);
      }
    }
  }

  lemma AdmittedGrows(front: seq<Call>, last: Call, a: AgentId)
    ensures a in AdmittedPeers(front + [last]) <==> a in AdmittedPeers(front) || (last.Peer? && last.peer == a)
  {
    var calls := front + [last];
    if a in AdmittedPeers(front) {
      var i :| 0 <= i < |front| && front[i].Peer? && front[i].peer == a;
      assert calls[i].peer == a;
    }
    if last.Peer? && last.peer == a { assert calls[|front|].peer == a; }
  }

  /** The agents the key was registered for. */
  function Displayed(calls: seq<Call>): set<AgentId> {
    set i | 0 <= i < |calls| && calls[i].Key? && FirstKey(calls) == Some(calls[i].key) :: calls[i].agent
  }

  /** The identity of the key and every identity ever admitted. */
  function Governors(calls: seq<Call>): set<AgentId> {
    AdmittedPeers(calls) + if FirstKey(calls).Some? then {FirstKey(calls).value} else {}
  }

  /** The agent of the last observation or, before any, the first the key was registered for. */
  function GoverningOf(calls: seq<Call>): Option<AgentId> {
    if calls == [] then None
    else
      var front, last := GoverningOf(calls[..|calls| - 1]), calls[|calls| - 1];
      if last.Health? then Some(last.agent)
      else if last.Key? && front.None? && FirstKey(calls) == Some(last.key) then Some(last.agent)
      else front
  }

  lemma StepDisplay(p: Policy, s: State, call: Call)
    requires SortedPeers(s.peers)
    ensures var t := Step(p, s, call);
            var accepted := call.Key? && (s.key.None? || s.key.value == call.key);
            && t.display == (if accepted then s.display[call.agent := call.key] else s.display)
            && t.governing == (if call.Health? then Some(call.agent)
                               else if accepted && s.governing.None? then Some(call.agent) else s.governing)
  {
    hide ObserveHealth, FirstRedeemable, IndexOfLease, Redeem, LeaseVerifies;
    if call.Health? {
      HealthFrame(p, s, call.agent, call.entries, call.now, call.outcomes);
      HealthGoverned(p, s, call);
    }
  }

  lemma {:induction false} NoKeyYet(calls: seq<Call>)
    requires FirstKey(calls).None?
    ensures forall i | 0 <= i < |calls| :: !calls[i].Key?
  {
    if calls != [] { NoKeyYet(calls[..|calls| - 1]); }
  }

  lemma DisplayedGrows(front: seq<Call>, last: Call, a: AgentId)
    ensures var calls := front + [last];
            a in Displayed(calls) <==>
              a in Displayed(front) || (last.Key? && FirstKey(calls) == Some(last.key) && last.agent == a)
  {
    hide FirstKey;
    var calls := front + [last];
    assert FirstKey(front).Some? ==> FirstKey(calls) == FirstKey(front) by {
      if FirstKey(front).Some? { FirstKeyStays(front, [last]); }
    }
    if FirstKey(front).None? { NoKeyYet(front); }
    if a in Displayed(front) {
      var i :| 0 <= i < |front| && front[i].Key? && FirstKey(front) == Some(front[i].key) && front[i].agent == a;
      assert calls[i].agent == a;
    }
    if last.Key? && FirstKey(calls) == Some(last.key) && last.agent == a { assert calls[|front|].agent == a; }
  }

  lemma KeyAccepted(front: seq<Call>, last: Call)
    ensures last.Key? ==>
              (FirstKey(front + [last]) == Some(last.key) <==>
                 FirstKey(front).None? || FirstKey(front).value == last.key)
  {
    assert (front + [last])[..|front|] == front;
  }

  /** The agents on display and the governing agent, read off the calls. */
  lemma {:induction false} RunDisplay(p: Policy, calls: seq<Call>)
    ensures var s := Run(p, INITIAL_STATE, calls);
            s.display.Keys == Displayed(calls) && s.governing == GoverningOf(calls)
  {
    hide Step, FirstKey, Displayed;
    if calls == [] { assert Displayed([]) == {} by { NoneDisplayed(); } }
    else {
      var front, last := calls[..|calls| - 1], calls[|calls| - 1];
      RunDisplay(p, front);
      RunIdentity(p, front);
      StepDisplay(p, Run(p, INITIAL_STATE, front), last);
      assert calls == front + [last];
      KeyAccepted(front, last);
      forall a ensures a in Displayed(calls) <==>
                         a in Displayed(front) || (last.Key? && FirstKey(calls) == Some(last.key) && last.agent == a) {
        DisplayedGrows(front, last, a);
      }
    }
  }

  lemma NoneDisplayed()
    ensures Displayed([]) == {}
  {
  }

  function PeerSet(peers: seq<AgentId>): set<AgentId> { set a | a in peers }

  lemma {:induction false} PeersSize(peers: seq<AgentId>)
    requires SortedPeers(peers)
    ensures |PeerSet(peers)| == |peers|
  {
    if peers != [] {
      var front, last := peers[..|peers| - 1], peers[|peers| - 1];
      PeersSize(front);
      assert peers == front + [last];
      assert last !in front;
      assert PeerSet(peers) == PeerSet(front) + {last};
    }
  }

  lemma GovernorsSize(s: State)
    requires OneKey(s)
    ensures GovernorCount(s) == |PeerSet(s.peers) + if s.key.Some? then {s.key.value} else {}|
  {
    PeersSize(s.peers);
  }

  /** The governors counted are those of the calls. */
  lemma RunGovernors(p: Policy, calls: seq<Call>)
    ensures var s := Run(p, INITIAL_STATE, calls);
            && GovernorCount(s) == |Governors(calls)|
            && (forall a :: a in Governors(calls) <==> a in s.peers || s.key == Some(a))
            && TotalGovernors(s)
              == if |Displayed(calls)| >= |Governors(calls)| then |Displayed(calls)| else |Governors(calls)|
  {
    hide Run, Displayed, AdmittedPeers, FirstKey, GovernorCount;
    var s := Run(p, INITIAL_STATE, calls);
    RunIdentity(p, calls);
    RunDisplay(p, calls);
    GovernorsSize(s);
    assert Governors(calls) == PeerSet(s.peers) + if s.key.Some? then {s.key.value} else {};
    assert |s.display| == |s.display.Keys|;
  }

  // -------------------------------------------------------------------------
  // The exact rule for destructive actions on the solo transport

  /** How a round over the solo transport ends: a larger committee is refused, a committee of one commits
      the proposal at once. */
  function SoloOutcome(p: Policy, s: State, proposal: Proposal): RoundOutcome
    requires SortedPeers(s.peers)
  {
    if |Members(s)| > 1 then Err(InvalidCommittee)
    else Ok(CommitRecord(1, 0, proposal, 1, 1, p.crypto.commitHash(1, 0, s.previous, proposal)))
  }

  function DecisionOf(s: State): Decision { if s.unhealthy == [] then Approve else Veto }

  function ActProposal(p: Policy, s: State, a: Action): Proposal {
    p.propose(ActionSubject(s.counter, a, DecisionOf(s), s.unhealthy, s.previous))
  }

  function SoloCanAct(p: Policy, s: State, a: Action, now: int, issuedAt: int): Decided
    requires SortedPeers(s.peers)
  {
    CanAct(p, s, a, now, issuedAt, SoloOutcome(p, s, ActProposal(p, s, a)))
  }

  /** The lease found is the first that can be redeemed, if any can. */
  lemma {:induction false} FirstRedeemableFinds(leases: seq<Lease>, a: Action, now: int)
    ensures FirstRedeemable(leases, a, now).Some? <==> exists l :: l in leases && CanRedeem(l, a, now)
    ensures FirstRedeemable(leases, a, now).Some? ==>
              exists i | 0 <= i < |leases| ::
                && leases[i] == FirstRedeemable(leases, a, now).value && CanRedeem(leases[i], a, now)
                && forall j | 0 <= j < i :: !CanRedeem(leases[j], a, now)
  {
    hide CanRedeem;
    if leases != [] {
      var rest := leases[1..];
      FirstRedeemableFinds(rest, a, now);
      assert leases == [leases[0]] + rest;
      if !CanRedeem(leases[0], a, now) && FirstRedeemable(rest, a, now).Some? {
        var i :| 0 <= i < |rest| && rest[i] == FirstRedeemable(rest, a, now).value && CanRedeem(rest[i], a, now)
                 && forall j | 0 <= j < i :: !CanRedeem(rest[j], a, now);
        assert leases[i + 1] == rest[i] && forall j | 1 <= j < i + 1 :: leases[j] == rest[j - 1];
      }
    }
  }

  lemma CommitteeOfOne(s: State)
    requires OneKey(s) && s.key.Some?
    ensures |Members(s)| > 1 <==> s.peers != []
    ensures s.key.value in Members(s)
  {
    var members := Members(s);
    if s.peers != [] {
      assert s.peers[0] in members;
      assert s.key.value in members && s.key.value != s.peers[0];
    } else {
      assert members == [s.key.value];
    }
  }

  /** What a decision is, in the cases that run no round: an action that is not destructive is allowed; without a key
      none else is; and in a partition it is allowed exactly with the first lease that can be redeemed for it, and that
      lease's receipt.  None of these changes the policy. */
  lemma DecidedWithoutRound(p: Policy, s: State, a: Action, now: int, issuedAt: int, outcome: RoundOutcome)
    requires SortedPeers(s.peers) && (!IsDestructive(a) || s.key.None? || s.partition == Partitioned)
    ensures var decided, found := CanAct(p, s, a, now, issuedAt, outcome), FirstRedeemable(s.leases, a, now);
            && decided.state == s
            && decided.verdict ==
               if !IsDestructive(a) then Allow(None, None)
               else if s.key.Some? && found.Some? then Allow(Some(found.value.receipt), Some(found.value))
               else Refuse(None)
  {
    hide FirstRedeemable;
  }

  /**
   Fail-closed, exactly.  After every run, on the solo transport, a destructive action is allowed if and
   only if a key was registered and: during a partition, some active lease can be redeemed for it;
   otherwise, no identity but the key's own was ever admitted as a peer and the last observation found
   no agent unhealthy.
   */
  lemma FailClosedExactly(p: Policy, calls: seq<Call>, a: Action, now: int, issuedAt: int)
    requires IsDestructive(a)
    ensures var s := Run(p, INITIAL_STATE, calls);
            SoloCanAct(p, s, a, now, issuedAt).verdict.Allow?
            <==>
            && FirstKey(calls).Some?
            && (if s.partition == Partitioned then exists l :: l in s.leases && CanRedeem(l, a, now)
                else AdmittedPeers(calls) <= {FirstKey(calls).value} && LastUnhealthy(calls) == [])
  {
    hide Run, FirstRedeemable, CanRedeem, Members;
    var s := Run(p, INITIAL_STATE, calls);
    RunIdentity(p, calls);
    FirstRedeemableFinds(s.leases, a, now);
    if s.key.Some? {
      CommitteeOfOne(s);
      assert s.peers != [] ==> s.peers[0] in s.peers;
      assert s.peers == [] <==> AdmittedPeers(calls) <= {s.key.value};
    }
  }

  /** Once a key is set and a different identity is admitted, every destructive action outside a partition
      is refused for good, without a receipt and without moving the chain. */
  lemma StaysRefused(p: Policy, calls: seq<Call>, later: seq<Call>, a: Action, now: int, issuedAt: int)
    requires IsDestructive(a)
    requires FirstKey(calls).Some? && !(AdmittedPeers(calls) <= {FirstKey(calls).value})
    ensures var s := Run(p, INITIAL_STATE, calls + later);
            s.partition != Partitioned ==> SoloCanAct(p, s, a, now, issuedAt) == Decided(s, Refuse(None))
  {
    hide Run, FirstRedeemable, Members;
    var s := Run(p, INITIAL_STATE, calls + later);
    RunIdentity(p, calls + later);
    FirstKeyStays(calls, later);
    var a :| a in AdmittedPeers(calls) && a != FirstKey(calls).value;
    var i :| 0 <= i < |calls| && calls[i].Peer? && calls[i].peer == a;
    assert (calls + later)[i].peer == a;
    assert a in s.peers;
    CommitteeOfOne(s);
  }

  lemma {:induction false} FirstKeyStays(calls: seq<Call>, later: seq<Call>)
    requires FirstKey(calls).Some?
    ensures FirstKey(calls + later) == FirstKey(calls)
  {
    if later == [] { assert calls + later == calls; }
    else {
      FirstKeyStays(calls, later[..|later| - 1]);
      assert (calls + later)[..|calls + later| - 1] == calls + later[..|later| - 1];
    }
  }

  // -------------------------------------------------------------------------
  // The receipt chain

  function HeadOf(genesis: Hash, log: seq<Receipt>, i: nat): Hash
    requires i <= |log|
  {
    if i == 0 then genesis else log[i - 1].commitHash
  }

  /** Each receipt names the commit hash of the one before it; the first names `from`, the last ends at `to`. */
  ghost predicate Chains(from: Hash, log: seq<Receipt>, to: Hash) {
    (forall i | 0 <= i < |log| :: log[i].previous == HeadOf(from, log, i)) && to == HeadOf(from, log, |log|)
  }

  lemma ChainsJoin(from: Hash, first: seq<Receipt>, mid: Hash, second: seq<Receipt>, to: Hash)
    requires Chains(from, first, mid) && Chains(mid, second, to)
    ensures Chains(from, first + second, to)
  {
    var log := first + second;
    forall i | 0 <= i < |log| ensures log[i].previous == HeadOf(from, log, i) {
      if i < |first| { assert first[i].previous == HeadOf(from, first, i); }
      else { assert second[i - |first|].previous == HeadOf(mid, second, i - |first|); }
    }
  }

  function ReceiptsOf(leases: seq<Lease>): seq<Receipt> {
    seq(|leases|, i requires 0 <= i < |leases| => leases[i].receipt)
  }

  function Beyond(leases: seq<Lease>, n: nat): seq<Lease> { if n <= |leases| then leases[n..] else [] }

  /** The receipts a call hands out for the first time: the one in a decision taken by a round, the one of
      an attestation, and those inside newly staged leases. */
  function IssuedBy(p: Policy, s: State, call: Call): seq<Receipt>
    requires SortedPeers(s.peers)
  {
    match call
    case Health(agent, entries, now, outcomes) =>
      ReceiptsOf(Beyond(ObserveHealth(p, s, agent, entries, now, outcomes).leases, |Unexpired(s.leases, now)|))
    case Act(action, now, issuedAt, outcome) =>
      if s.partition == Partitioned then []
      else
        var receipt := CanAct(p, s, action, now, issuedAt, outcome).verdict.receipt;
        if receipt.Some? then [receipt.value] else []
    case Attest(body, now, outcome) =>
      var receipt := AttestRelease(p, s, body, now, outcome).receipt;
      if receipt.Ok? then [receipt.value] else []
    case _ => []
  }

  /** The chain moved from `s` to `t` by exactly the receipts in `log`, all issued by the key of `s`. */
  ghost predicate Extends(s: State, log: seq<Receipt>, t: State) {
    && Chains(s.previous, log, t.previous) && t.counter == s.counter + |log|
    && forall r | r in log :: s.key == Some(r.issuedBy)
  }

  lemma StageIssues(p: Policy, s: State, kind: ActionKind, now: int, outcome: RoundOutcome)
    requires SortedPeers(s.peers)
    ensures var t := StageLease(p, s, kind, now, outcome);
            OnlyStages(s, t) && Extends(s, ReceiptsOf(t.leases[|s.leases|..]), t)
  {
    hide HasOpenLease, Members;
  }

  lemma {:induction false} StageAllIssue(
    p: Policy, s: State, kinds: seq<ActionKind>, now: int, outcomes: ActionKind -> RoundOutcome)
    requires SortedPeers(s.peers)
    ensures var t := StageLeases(p, s, kinds, now, outcomes);
            OnlyStages(s, t) && Extends(s, ReceiptsOf(t.leases[|s.leases|..]), t)
    decreases |kinds|
  {
    hide StageLease, Chains;
    if kinds == [] { ChainsNothing(s); }
    else {
      StageIssues(p, s, kinds[0], now, outcomes(kinds[0]));
      var m := StageLease(p, s, kinds[0], now, outcomes(kinds[0]));
      StageAllIssue(p, m, kinds[1..], now, outcomes);
      var t := StageLeases(p, s, kinds, now, outcomes);
      var first, second := ReceiptsOf(m.leases[|s.leases|..]), ReceiptsOf(t.leases[|m.leases|..]);
      ChainsJoin(s.previous, first, m.previous, second, t.previous);
      assert ReceiptsOf(t.leases[|s.leases|..]) == first + second;
    }
  }

  lemma ChainsNothing(s: State)
    ensures Extends(s, [], s)
  {
  }

  lemma RoundIssues(p: Policy, s: State, proposal: Proposal, decision: Decision, issuedAt: int, outcome: RoundOutcome)
    requires SortedPeers(s.peers)
    ensures var issued := RunRound(s, proposal, decision, issuedAt, outcome);
            Extends(s, if issued.receipt.Ok? then [issued.receipt.value] else [], issued.state)
  {
    hide Members;
  }

  lemma StepIssues(p: Policy, s: State, call: Call)
    requires SortedPeers(s.peers)
    ensures Extends(s, IssuedBy(p, s, call), Step(p, s, call))
  {
    hide Chains, RunRound, FirstRedeemable, IndexOfLease, Redeem, LeaseVerifies, StageLeases, ReceiptsOf, Unexpired,
         ObservePartition;
    ChainsNothing(s);
    ChainsNothing(Step(p, s, call));
    match call
    case Health(agent, entries, now, outcomes) => HealthIssues(p, s, agent, entries, now, outcomes);
    case Act(action, now, issuedAt, outcome) =>
      RoundIssues(p, s, ActProposal(p, s, action), DecisionOf(s), issuedAt, outcome);
    case Attest(body, now, outcome) =>
      RoundIssues(p, s, p.propose(ReleaseSubject(body)), Approve, now, outcome);
    case _ =>
  }

  lemma HealthIssues(
    p: Policy, s: State, agent: AgentId, entries: seq<HealthEntry>, now: int, outcomes: ActionKind -> RoundOutcome)
    requires SortedPeers(s.peers)
    ensures var call := Health(agent, entries, now, outcomes); Extends(s, IssuedBy(p, s, call), Step(p, s, call))
  {
    hide StageLeases, BaseState, UnhealthyOf, ReportOf, Trimmed, Unexpired, Chains;
    var s1 := ObservePartition(s, agent, entries, now);
    var s2 := s1.(leases := Unexpired(s1.leases, now));
    StageAllIssue(p, s2, DESTRUCTIVE_KINDS, now, outcomes);
    ChainsNothing(s2);
    assert ReceiptsOf(Beyond(s2.leases, |s2.leases|)) == [];
  }

  /** Every receipt handed out over a run, in order. */
  ghost function IssuedDuring(p: Policy, s: State, calls: seq<Call>): seq<Receipt>
    requires OneKey(s)
  {
    if calls == [] then []
    else
      IssuedDuring(p, s, calls[..|calls| - 1]) + IssuedBy(p, Run(p, s, calls[..|calls| - 1]), calls[|calls| - 1])
  }

  /**
   The receipt chain.  Over every run, across authorizations, lease staging and attestations in any order
   and with any rounds failing: each receipt's previous hash is the commit hash of the receipt before it,
   the counter is the number of receipts handed out, and all carry the one key's identity.
   */
  lemma {:induction false} ReceiptChain(p: Policy, calls: seq<Call>)
    ensures var s := Run(p, INITIAL_STATE, calls);
            var log := IssuedDuring(p, INITIAL_STATE, calls);
            && Chains(INITIAL_STATE.previous, log, s.previous)
            && s.counter == |log|
            && (forall r | r in log :: FirstKey(calls) == Some(r.issuedBy))
  {
    hide Step, IssuedBy, Chains;
    if calls == [] { ChainsNothing(INITIAL_STATE); }
    else {
      var front, last := calls[..|calls| - 1], calls[|calls| - 1];
      ReceiptChain(p, front);
      var s := Run(p, INITIAL_STATE, front);
      RunIdentity(p, front);
      StepIssues(p, s, last);
      ChainsJoin(INITIAL_STATE.previous, IssuedDuring(p, INITIAL_STATE, front), s.previous, IssuedBy(p, s, last),
                 Step(p, s, last).previous);
    }
  }

  /** The commit hash of a receipt covers its own height, round, previous hash and proposal. */
  ghost predicate Linked(p: Policy, r: Receipt) {
    exists payload ::
      r.commitHash == p.crypto.commitHash(r.height, r.round, r.previous, Proposal(r.proposalId, payload))
  }

  ghost predicate CollisionFree(p: Policy) {
    forall h1, r1, e1, x1, h2, r2, e2, x2 ::
      p.crypto.commitHash(h1, r1, e1, x1) == p.crypto.commitHash(h2, r2, e2, x2) ==>
        h1 == h2 && r1 == r2 && e1 == e2 && x1 == x2
  }

  /** What a receipt says was decided, and where in the chain. */
  predicate SameLink(a: Receipt, b: Receipt) {
    a.commitHash == b.commitHash && a.previous == b.previous && a.proposalId == b.proposalId
    && a.height == b.height && a.round == b.round
  }

  lemma {:induction false} SameHeadSameChain(p: Policy, genesis: Hash, a: seq<Receipt>, b: seq<Receipt>, head: Hash)
    requires CollisionFree(p) && Chains(genesis, a, head) && Chains(genesis, b, head) && |a| == |b|
    requires forall r | r in a + b :: Linked(p, r)
    ensures forall i | 0 <= i < |a| :: SameLink(a[i], b[i])
    decreases |a|
  {
    hide CollisionFree, Linked, Chains, SameLink;
    if a != [] {
      var n := |a| - 1;
      var x, y := a[n], b[n];
      assert x in a + b && y in a + b;
      ChainsFront(genesis, a, head);
      ChainsFront(genesis, b, head);
      LinkedEqual(p, x, y);
      SameHeadSameChain(p, genesis, a[..n], b[..n], x.previous);
      assert a == a[..n] + [x] && b == b[..n] + [y];
    }
  }

  lemma LinkedEqual(p: Policy, x: Receipt, y: Receipt)
    requires CollisionFree(p) && Linked(p, x) && Linked(p, y) && x.commitHash == y.commitHash
    ensures SameLink(x, y) && x.previous == y.previous
  {
  }

  lemma ChainsFront(genesis: Hash, log: seq<Receipt>, head: Hash)
    requires Chains(genesis, log, head) && log != []
    ensures Chains(genesis, log[..|log| - 1], log[|log| - 1].previous) && head == log[|log| - 1].commitHash
  {
    var front := log[..|log| - 1];
    forall i | 0 <= i <= |front| ensures HeadOf(genesis, front, i) == HeadOf(genesis, log, i) {}
  }

  // -------------------------------------------------------------------------
  // How the rounds of a run ended

  /** A condition on the state a round starts from, its proposal and its outcome. */
  type Ends = (State, Proposal, RoundOutcome) -> bool

  function LeaseProposal(p: Policy, kind: ActionKind, now: int): Proposal {
    var expiresAt := now + p.leaseTtl;
    var id := p.leaseIdOf(kind, None, now, expiresAt, p.leaseCap);
    p.propose(LeaseSubject(id, kind, None, p.leaseCap, p.leaseTtl, now, expiresAt))
  }

  /** Staging a lease of the kind runs a round. */
  predicate Stages(p: Policy, s: State, kind: ActionKind, now: int) {
    !HasOpenLease(s.leases, kind, now) && s.key.Some? && p.leaseCap > 0 && p.leaseTtl > 0
  }

  /** Every round of a staging loop ended as `ends` says. */
  predicate EachStaged(
    p: Policy, s: State, kinds: seq<ActionKind>, now: int, outcomes: ActionKind -> RoundOutcome, ends: Ends)
    requires SortedPeers(s.peers)
    decreases |kinds|
  {
    kinds == [] ||
    (&& (Stages(p, s, kinds[0], now) ==> ends(s, LeaseProposal(p, kinds[0], now), outcomes(kinds[0])))
     && (StagePeers(p, s, kinds[0], now, outcomes(kinds[0]));
         EachStaged(p, StageLease(p, s, kinds[0], now, outcomes(kinds[0])), kinds[1..], now, outcomes, ends)))
  }

  /** The state in which an observation starts to stage leases. */
  function Observed(s: State, agent: AgentId, entries: seq<HealthEntry>, now: int): State {
    var s1 := ObservePartition(s, agent, entries, now);
    s1.(leases := Unexpired(s1.leases, now))
  }

  lemma ObservedPeers(s: State, agent: AgentId, entries: seq<HealthEntry>, now: int)
    ensures var t := Observed(s, agent, entries, now);
            t.peers == s.peers && t.key == s.key && t.previous == s.previous && t.leases == Unexpired(s.leases, now)
  {
    hide UnhealthyOf, BaseState, HealthyGovernors, ReportOf, Trimmed, Unexpired;
  }

  /** Every round a call runs ended as `ends` says. */
  predicate EachRound(p: Policy, s: State, call: Call, ends: Ends)
    requires SortedPeers(s.peers)
  {
    match call
    case Health(agent, entries, now, outcomes) =>
      var t := Observed(s, agent, entries, now);
      ObservedPeers(s, agent, entries, now);
      t.partition == Healthy ==> EachStaged(p, t, DESTRUCTIVE_KINDS, now, outcomes, ends)
    case Act(action, _, _, outcome) =>
      IsDestructive(action) && s.key.Some? && s.partition != Partitioned ==> ends(s, ActProposal(p, s, action), outcome)
    case Attest(body, _, outcome) => s.key.Some? ==> ends(s, p.propose(ReleaseSubject(body)), outcome)
    case _ => true
  }

  /** Every round of a run ended as `ends` says. */
  ghost predicate EachRoundOf(p: Policy, s: State, calls: seq<Call>, ends: Ends)
    requires OneKey(s)
  {
    calls == [] ||
    var front := calls[..|calls| - 1];
    EachRoundOf(p, s, front, ends) && EachRound(p, Run(p, s, front), calls[|calls| - 1], ends)
  }

  /** The commit is hashed over `previous`. */
  predicate CoversHead(p: Policy, previous: Hash, commit: CommitRecord) {
    commit.height == 1 && commit.hash == p.crypto.commitHash(1, commit.round, previous, commit.proposal)
  }

  /** The round committed nothing, or a commit hashed over the chain head. */
  function Covering(p: Policy): Ends { (s: State, q, o: RoundOutcome) => o.Ok? ==> CoversHead(p, s.previous, o.value) }

  /** The round committed nothing, or the proposal it was run for. */
  function Own(): Ends { (s, q: Proposal, o: RoundOutcome) => o.Ok? ==> o.value.proposal.id == q.id }

  /** The round ended as it does on the solo transport. */
  function Solo(p: Policy): Ends {
    (s: State, q: Proposal, o: RoundOutcome) => SortedPeers(s.peers) && o == SoloOutcome(p, s, q)
  }

  lemma SoloCoversAndOwns(p: Policy, s: State, q: Proposal, o: RoundOutcome)
    requires Solo(p)(s, q, o)
    ensures Covering(p)(s, q, o) && Own()(s, q, o)
  {
  }

  ghost predicate Implies(e1: Ends, e2: Ends) { forall s, q, o | e1(s, q, o) :: e2(s, q, o) }

  lemma {:induction false} EachStagedWeakens(
    p: Policy, s: State, kinds: seq<ActionKind>, now: int, outcomes: ActionKind -> RoundOutcome, e1: Ends, e2: Ends)
    requires SortedPeers(s.peers) && Implies(e1, e2) && EachStaged(p, s, kinds, now, outcomes, e1)
    ensures EachStaged(p, s, kinds, now, outcomes, e2)
    decreases |kinds|
  {
    hide StageLease, Stages;
    if kinds != [] {
      StagePeers(p, s, kinds[0], now, outcomes(kinds[0]));
      EachStagedWeakens(p, StageLease(p, s, kinds[0], now, outcomes(kinds[0])), kinds[1..], now, outcomes, e1, e2);
    }
  }

  lemma EachRoundWeakens(p: Policy, s: State, call: Call, e1: Ends, e2: Ends)
    requires SortedPeers(s.peers) && Implies(e1, e2) && EachRound(p, s, call, e1)
    ensures EachRound(p, s, call, e2)
  {
    hide Observed, EachStaged;
    if call.Health? {
      var t := Observed(s, call.agent, call.entries, call.now);
      ObservedPeers(s, call.agent, call.entries, call.now);
      if t.partition == Healthy { EachStagedWeakens(p, t, DESTRUCTIVE_KINDS, call.now, call.outcomes, e1, e2); }
    }
  }

  lemma {:induction false} EachRoundOfWeakens(p: Policy, s: State, calls: seq<Call>, e1: Ends, e2: Ends)
    requires OneKey(s) && Implies(e1, e2) && EachRoundOf(p, s, calls, e1)
    ensures EachRoundOf(p, s, calls, e2)
  {
    hide EachRound, Run;
    if calls != [] {
      var front := calls[..|calls| - 1];
      EachRoundOfWeakens(p, s, front, e1, e2);
      EachRoundWeakens(p, Run(p, s, front), calls[|calls| - 1], e1, e2);
    }
  }

  lemma SoloRunCovers(p: Policy, calls: seq<Call>)
    requires EachRoundOf(p, INITIAL_STATE, calls, Solo(p))
    ensures EachRoundOf(p, INITIAL_STATE, calls, Covering(p)) && EachRoundOf(p, INITIAL_STATE, calls, Own())
  {
    hide EachRoundOf;
    forall s, q, o | Solo(p)(s, q, o) ensures Covering(p)(s, q, o) && Own()(s, q, o) { SoloCoversAndOwns(p, s, q, o); }
    EachRoundOfWeakens(p, INITIAL_STATE, calls, Solo(p), Covering(p));
    EachRoundOfWeakens(p, INITIAL_STATE, calls, Solo(p), Own());
  }

  // -------------------------------------------------------------------------
  // The staging loop, kind by kind

  /** Staging the kinds of a list one after the other. */
  lemma {:induction false} StageAppended(
    p: Policy, s: State, kinds: seq<ActionKind>, kind: ActionKind, now: int, outcomes: ActionKind -> RoundOutcome,
    ends: Ends)
    requires SortedPeers(s.peers)
    ensures StageLeases(p, s, kinds, now, outcomes).peers == s.peers
    ensures StageLeases(p, s, kinds + [kind], now, outcomes) ==
            StageLease(p, StageLeases(p, s, kinds, now, outcomes), kind, now, outcomes(kind))
    ensures var t := StageLeases(p, s, kinds, now, outcomes);
            EachStaged(p, s, kinds + [kind], now, outcomes, ends) <==>
              && EachStaged(p, s, kinds, now, outcomes, ends)
              && (Stages(p, t, kind, now) ==> ends(t, LeaseProposal(p, kind, now), outcomes(kind)))
    decreases |kinds|
  {
    hide StageLease, Stages, LeaseProposal;
    if kinds == [] {
      assert kinds + [kind] == [kind];
      StagePeers(p, s, kind, now, outcomes(kind));
      assert [kind][1..] == [];
    } else {
      StagePeers(p, s, kinds[0], now, outcomes(kinds[0]));
      StageAppended(p, StageLease(p, s, kinds[0], now, outcomes(kinds[0])), kinds[1..], kind, now, outcomes, ends);
      assert (kinds + [kind])[1..] == kinds[1..] + [kind];
    }
  }

  /** Only the outcomes of the kinds in the list matter. */
  lemma {:induction false} StageIgnoresOthers(
    p: Policy, s: State, kinds: seq<ActionKind>, now: int,
    outcomes: ActionKind -> RoundOutcome, others: ActionKind -> RoundOutcome, ends: Ends)
    requires SortedPeers(s.peers) && forall k | k in kinds :: outcomes(k) == others(k)
    ensures StageLeases(p, s, kinds, now, outcomes) == StageLeases(p, s, kinds, now, others)
    ensures EachStaged(p, s, kinds, now, outcomes, ends) <==> EachStaged(p, s, kinds, now, others, ends)
    decreases |kinds|
  {
    hide StageLease, Stages, LeaseProposal;
    if kinds != [] {
      StagePeers(p, s, kinds[0], now, outcomes(kinds[0]));
      StageIgnoresOthers(p, StageLease(p, s, kinds[0], now, outcomes(kinds[0])), kinds[1..], now, outcomes, others,
                         ends);
    }
  }

  lemma KindsDistinct(i: nat, j: nat)
    requires i < j < |DESTRUCTIVE_KINDS|
    ensures DESTRUCTIVE_KINDS[i] != DESTRUCTIVE_KINDS[j]
  {
    var k := DESTRUCTIVE_KINDS;
    assert k[0] == BlockEgress && k[1] == IsolateHost && k[2] == RevokeCredential && k[3] == SinkholeDns
        && k[4] == TerminateUserSession && k[5] == InjectFirewallRule && k[6] == QuarantineFile && k[7] == KillProcess
        && k[8] == SuspendProcess && k[9] == DisableUserAccount && k[10] == ForcePasswordReset
        && k[11] == RemoveScheduledTask;
  }

  ghost function Updated(
    outcomes: ActionKind -> RoundOutcome, kind: ActionKind, outcome: RoundOutcome): ActionKind -> RoundOutcome {
    (k: ActionKind) => if k == kind then outcome else outcomes(k)
  }

  lemma StagedNothing(p: Policy, s: State, now: int, outcomes: ActionKind -> RoundOutcome, ends: Ends)
    requires SortedPeers(s.peers)
    ensures StageLeases(p, s, DESTRUCTIVE_KINDS[..0], now, outcomes) == s && OnlyStages(s, s)
    ensures EachStaged(p, s, DESTRUCTIVE_KINDS[..0], now, outcomes, ends)
  {
  }

  /** One turn of the staging loop. */
  lemma StageTurn(
    p: Policy, s: State, n: nat, now: int, before: ActionKind -> RoundOutcome, outcome: RoundOutcome, ends: Ends)
    requires SortedPeers(s.peers) && n < |DESTRUCTIVE_KINDS|
    ensures var kind := DESTRUCTIVE_KINDS[n];
            var t := StageLeases(p, s, DESTRUCTIVE_KINDS[..n], now, before);
            var outcomes := Updated(before, kind, outcome);
            && t.peers == s.peers
            && StageLeases(p, s, DESTRUCTIVE_KINDS[..n + 1], now, outcomes) == StageLease(p, t, kind, now, outcome)
            && OnlyStages(s, StageLease(p, t, kind, now, outcome))
            && (EachStaged(p, s, DESTRUCTIVE_KINDS[..n + 1], now, outcomes, ends) <==>
                  && EachStaged(p, s, DESTRUCTIVE_KINDS[..n], now, before, ends)
                  && (Stages(p, t, kind, now) ==> ends(t, LeaseProposal(p, kind, now), outcome)))
  {
    hide StageLease, StageLeases, OnlyStages, EachStaged, Stages, LeaseProposal;
    var kind, kinds := DESTRUCTIVE_KINDS[n], DESTRUCTIVE_KINDS[..n];
    var outcomes := Updated(before, kind, outcome);
    forall k | k in kinds ensures outcomes(k) == before(k) {
      var j :| 0 <= j < n && DESTRUCTIVE_KINDS[j] == k;
      KindsDistinct(j, n);
    }
    StageIgnoresOthers(p, s, kinds, now, before, outcomes, ends);
    StageAppended(p, s, kinds, kind, now, outcomes, ends);
    assert DESTRUCTIVE_KINDS[..n + 1] == kinds + [kind];
    StageFrame(p, s, kinds + [kind], now, outcomes);
  }

  // -------------------------------------------------------------------------
  // Linked receipts

  lemma RoundLinks(p: Policy, s: State, q: Proposal, decision: Decision, at: int, outcome: RoundOutcome)
    requires SortedPeers(s.peers) && Covering(p)(s, q, outcome)
    ensures var r := RunRound(s, q, decision, at, outcome).receipt; r.Ok? ==> Linked(p, r.value)
  {
    hide Members;
    if s.key.Some? && outcome.Ok? {
      var commit := outcome.value;
      var r := RunRound(s, q, decision, at, outcome).receipt.value;
      assert commit.proposal == Proposal(r.proposalId, commit.proposal.payload);
    }
  }

  ghost predicate AllLinked(p: Policy, log: seq<Receipt>) { forall r | r in log :: Linked(p, r) }

  lemma {:induction false} StagedLinked(
    p: Policy, s: State, kinds: seq<ActionKind>, now: int, outcomes: ActionKind -> RoundOutcome)
    requires SortedPeers(s.peers) && EachStaged(p, s, kinds, now, outcomes, Covering(p))
    ensures var t := StageLeases(p, s, kinds, now, outcomes);
            |s.leases| <= |t.leases| && AllLinked(p, ReceiptsOf(t.leases[|s.leases|..]))
    decreases |kinds|
  {
    hide Linked, HasOpenLease, Members, Stages, LeaseProposal, Covering;
    if kinds != [] {
      var o := outcomes(kinds[0]);
      StageLinked(p, s, kinds[0], now, o);
      var m := StageLease(p, s, kinds[0], now, o);
      StagedLinked(p, m, kinds[1..], now, outcomes);
      StageFrame(p, m, kinds[1..], now, outcomes);
      var t := StageLeases(p, s, kinds, now, outcomes);
      assert ReceiptsOf(t.leases[|s.leases|..])
        == ReceiptsOf(m.leases[|s.leases|..]) + ReceiptsOf(t.leases[|m.leases|..]);
    }
  }

  lemma StageLinked(p: Policy, s: State, kind: ActionKind, now: int, outcome: RoundOutcome)
    requires SortedPeers(s.peers) && (Stages(p, s, kind, now) ==> Covering(p)(s, LeaseProposal(p, kind, now), outcome))
    ensures var t := StageLease(p, s, kind, now, outcome);
            && t.peers == s.peers && s.leases <= t.leases && |t.leases| <= |s.leases| + 1
            && AllLinked(p, ReceiptsOf(t.leases[|s.leases|..]))
  {
    hide Linked, HasOpenLease, Covering, Members;
    if Stages(p, s, kind, now) { RoundLinks(p, s, LeaseProposal(p, kind, now), Approve, now, outcome); }
  }

  lemma StepLinked(p: Policy, s: State, call: Call)
    requires SortedPeers(s.peers) && EachRound(p, s, call, Covering(p))
    ensures AllLinked(p, IssuedBy(p, s, call))
  {
    hide Linked, RunRound, FirstRedeemable, StageLeases, EachStaged, Observed, Covering, Unexpired, ActProposal;
    match call
    case Health(agent, entries, now, outcomes) => HealthLinked(p, s, agent, entries, now, outcomes);
    case Act(action, now, issuedAt, outcome) =>
      if IsDestructive(action) && s.key.Some? && s.partition != Partitioned {
        RoundLinks(p, s, ActProposal(p, s, action), DecisionOf(s), issuedAt, outcome);
        ActIssues(p, s, action, now, issuedAt, outcome);
      }
    case Attest(body, now, outcome) =>
      if s.key.Some? { RoundLinks(p, s, p.propose(ReleaseSubject(body)), Approve, now, outcome); }
      NoKeyNoReceipt(p, s, p.propose(ReleaseSubject(body)), Approve, now, outcome);
    case _ =>
  }

  lemma NoKeyNoReceipt(p: Policy, s: State, q: Proposal, decision: Decision, at: int, outcome: RoundOutcome)
    requires SortedPeers(s.peers)
    ensures s.key.None? ==> RunRound(s, q, decision, at, outcome).receipt.Err?
  {
  }

  /** The receipt of a decision is the one its round issued. */
  lemma ActIssues(p: Policy, s: State, action: Action, now: int, issuedAt: int, outcome: RoundOutcome)
    requires SortedPeers(s.peers) && IsDestructive(action) && s.key.Some? && s.partition != Partitioned
    ensures var issued := RunRound(s, ActProposal(p, s, action), DecisionOf(s), issuedAt, outcome);
            var verdict := CanAct(p, s, action, now, issuedAt, outcome).verdict;
            && verdict.receipt == (if issued.receipt.Ok? then Some(issued.receipt.value) else None)
            && (verdict.Allow? <==> issued.receipt.Ok? && s.unhealthy == [])
  {
    hide Members;
  }

  lemma HealthLinked(
    p: Policy, s: State, agent: AgentId, entries: seq<HealthEntry>, now: int, outcomes: ActionKind -> RoundOutcome)
    requires SortedPeers(s.peers) && EachRound(p, s, Health(agent, entries, now, outcomes), Covering(p))
    ensures AllLinked(p, IssuedBy(p, s, Health(agent, entries, now, outcomes)))
  {
    hide Linked, StageLeases, EachStaged, Unexpired, ObservePartition;
    var t := Observed(s, agent, entries, now);
    ObservedPeers(s, agent, entries, now);
    if t.partition == Healthy { StagedLinked(p, t, DESTRUCTIVE_KINDS, now, outcomes); }
    else { assert ReceiptsOf(Beyond(t.leases, |t.leases|)) == []; }
  }

  /** Every receipt of a run whose rounds cover the chain head is linked to its predecessor. */
  lemma {:induction false} RunLinked(p: Policy, calls: seq<Call>)
    requires EachRoundOf(p, INITIAL_STATE, calls, Covering(p))
    ensures AllLinked(p, IssuedDuring(p, INITIAL_STATE, calls))
  {
    hide EachRound, Run, IssuedBy, Linked;
    if calls != [] {
      var front := calls[..|calls| - 1];
      RunLinked(p, front);
      StepLinked(p, Run(p, INITIAL_STATE, front), calls[|calls| - 1]);
    }
  }

  /** The chain head identifies the history: with a collision-free commit hash, two runs whose rounds commit over
      the chain head, that issued equally many receipts and ended at the same head, decided the same proposals in
      the same order. */
  lemma HeadIdentifiesHistory(p: Policy, left: seq<Call>, right: seq<Call>)
    requires CollisionFree(p)
    requires EachRoundOf(p, INITIAL_STATE, left, Covering(p)) && EachRoundOf(p, INITIAL_STATE, right, Covering(p))
    requires Run(p, INITIAL_STATE, left).previous == Run(p, INITIAL_STATE, right).previous
    requires Run(p, INITIAL_STATE, left).counter == Run(p, INITIAL_STATE, right).counter
    ensures var a, b := IssuedDuring(p, INITIAL_STATE, left), IssuedDuring(p, INITIAL_STATE, right);
            |a| == |b| && forall i | 0 <= i < |a| :: SameLink(a[i], b[i])
  {
    hide Run, IssuedDuring, Chains, EachRoundOf, Linked, CollisionFree;
    ReceiptChain(p, left);
    ReceiptChain(p, right);
    RunLinked(p, left);
    RunLinked(p, right);
    SameHeadSameChain(p, INITIAL_STATE.previous, IssuedDuring(p, INITIAL_STATE, left),
                      IssuedDuring(p, INITIAL_STATE, right),
                      Run(p, INITIAL_STATE, left).previous);
  }

  /** The same on the solo transport, where nothing needs to be known of the rounds. */
  lemma SoloHeadIdentifiesHistory(p: Policy, left: seq<Call>, right: seq<Call>)
    requires CollisionFree(p)
    requires EachRoundOf(p, INITIAL_STATE, left, Solo(p)) && EachRoundOf(p, INITIAL_STATE, right, Solo(p))
    requires Run(p, INITIAL_STATE, left).previous == Run(p, INITIAL_STATE, right).previous
    requires Run(p, INITIAL_STATE, left).counter == Run(p, INITIAL_STATE, right).counter
    ensures var a, b := IssuedDuring(p, INITIAL_STATE, left), IssuedDuring(p, INITIAL_STATE, right);
            |a| == |b| && forall i | 0 <= i < |a| :: SameLink(a[i], b[i])
  {
    hide Run, IssuedDuring, EachRoundOf, CollisionFree;
    SoloRunCovers(p, left);
    SoloRunCovers(p, right);
    HeadIdentifiesHistory(p, left, right);
  }
}
