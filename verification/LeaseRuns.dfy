/**
 When previews are honoured and the blast radius is kept, exactly, in terms of the times at which health is observed.
 Both fail in the same way: an instant is observed again and a lease is staged a second time under the same id.
 While the first is still active, the second is shown and refused; once it has expired, the second is honoured.
 */
module LeaseRuns {
  import opened Wrappers
  import opened ConsensusModel
  import opened ConsensusNodes
  import opened GovernanceModel
  import opened GovernanceRuns
  import opened PartitionEras
  import opened ContingencyLeases

  // -------------------------------------------------------------------------
  // Every preview is honoured

  /** Everything about a lease that verification checks, except the signature of its receipt. */
  predicate WellStaged(p: Policy, l: Lease, past: seq<int>) {
    && Staged(p, l, past) && l.schemaVersion == CONTINGENCY_LEASE_SCHEMA_VERSION && l.cap > 0
    && l.maxDuration == p.leaseTtl && l.scope.None? && l.receipt.decision == Approve
    && l.receipt.proposalId == LeaseProposal(p, l.kind, l.issuedAt).id
  }

  /** The lease was staged again at `k`, at least three observations after `i`, and has outlived all since `i`. */
  predicate TwiceAt(l: Lease, past: seq<int>, i: nat, k: nat) {
    && i + 3 <= k < |past| && past[i] == past[k] == l.issuedAt && forall m | i < m < |past| :: past[m] < l.expiresAt
  }

  ghost predicate Twice(l: Lease, past: seq<int>, phase: PartitionState) {
    exists i: nat, k: nat :: TwiceAt(l, past, i, k) && (k + 1 == |past| ==> phase == Healthy)
  }

  /** A lease with the id of an earlier one was staged a second time. */
  ghost predicate Paired(leases: seq<Lease>, past: seq<int>, phase: PartitionState) {
    forall a, b | 0 <= a < b < |leases| && leases[a].id == leases[b].id :: Twice(leases[b], past, phase)
  }

  /** Well staged leases, whose receipts were issued on this run. */
  ghost predicate Sound(p: Policy, leases: seq<Lease>, log: seq<Receipt>, past: seq<int>) {
    forall l | l in leases :: WellStaged(p, l, past) && l.receipt in log
  }

  lemma WellStagedVerifies(p: Policy, l: Lease, past: seq<int>)
    requires WellStaged(p, l, past) && p.receiptVerifies(l.receipt)
    ensures LeaseVerifies(p, l)
  {
  }

  lemma StillTwice(l: Lease, past: seq<int>, phase: PartitionState, now: int, after: PartitionState)
    requires Twice(l, past, phase) && now < l.expiresAt
    ensures Twice(l, past + [now], after)
  {
    var i: nat, k: nat :| TwiceAt(l, past, i, k) && (k + 1 == |past| ==> phase == Healthy);
    assert TwiceAt(l, past + [now], i, k);
  }

  lemma PairedTail(leases: seq<Lease>, past: seq<int>, phase: PartitionState)
    requires Paired(leases, past, phase) && leases != []
    ensures Paired(leases[1..], past, phase)
    ensures forall l | l in leases[1..] && l.id == leases[0].id :: Twice(l, past, phase)
  {
    hide Twice;
    var tail := leases[1..];
    forall a, b | 0 <= a < b < |tail| && tail[a].id == tail[b].id ensures Twice(tail[b], past, phase) {
      assert tail[a] == leases[a + 1] && tail[b] == leases[b + 1];
    }
    forall l | l in tail && l.id == leases[0].id ensures Twice(l, past, phase) {
      var b :| 0 <= b < |tail| && tail[b] == l;
      assert leases[b + 1] == l;
    }
  }

  lemma PairedCons(l: Lease, rest: seq<Lease>, past: seq<int>, phase: PartitionState)
    requires Paired(rest, past, phase) && forall x | x in rest && x.id == l.id :: Twice(x, past, phase)
    ensures Paired([l] + rest, past, phase)
  {
    hide Twice;
    var all := [l] + rest;
    forall a, b | 0 <= a < b < |all| && all[a].id == all[b].id ensures Twice(all[b], past, phase) {
      assert all[b] == rest[b - 1];
      if a > 0 { assert all[a] == rest[a - 1]; }
    }
  }

  lemma {:induction false} UnexpiredPaired(
    leases: seq<Lease>, past: seq<int>, phase: PartitionState, now: int, after: PartitionState)
    requires Paired(leases, past, phase)
    ensures Paired(Unexpired(leases, now), past + [now], after)
  {
    hide Twice, Paired;
    if leases == [] { NonePaired(past + [now], after); }
    else {
      var rest := Unexpired(leases[1..], now);
      PairedTail(leases, past, phase);
      UnexpiredPaired(leases[1..], past, phase, now, after);
      UnexpiredWithin(leases[1..], now);
      forall l | l in rest && l.id == leases[0].id ensures Twice(l, past + [now], after) {
        StillTwice(l, past, phase, now, after);
      }
      PairedCons(leases[0], rest, past + [now], after);
      assert [] + rest == rest;
    }
  }

  lemma NonePaired(past: seq<int>, phase: PartitionState)
    ensures Paired([], past, phase)
  {
  }

  /** A lease is staged a second time only once the first is used up, which takes a partition and its healing. */
  lemma StagedTwice(p: Policy, s: State, l: Lease, kind: ActionKind, now: int, past: seq<int>, x: Lease)
    requires IdsDistinct(p) && x in s.leases && !HasOpenLease(s.leases, kind, now)
    requires WellStaged(p, x, past + [now]) && IsPlaced(x, past + [now], Healthy)
    requires x.id == l.id == IdOf(p, kind, now) && l.issuedAt == now && l.expiresAt == now + p.leaseTtl
    ensures Twice(l, past + [now], Healthy)
  {
    hide IdOf, LeaseProposal;
    assert x.kind == kind && x.issuedAt == now;
    var n :| 0 <= n < |s.leases| && s.leases[n] == x;
    assert x.redeemed != [];
    var i: nat :| Placed(x, past + [now], Healthy, i);
    assert TwiceAt(l, past + [now], i, |past|);
  }

  lemma StageSound(p: Policy, s: State, kind: ActionKind, now: int, outcome: RoundOutcome, past: seq<int>)
    requires SortedPeers(s.peers) && IdsDistinct(p) && AllPlaced(s.leases, past + [now], Healthy)
    requires Paired(s.leases, past + [now], Healthy) && forall l | l in s.leases :: WellStaged(p, l, past + [now])
    requires Stages(p, s, kind, now) ==> Own()(s, LeaseProposal(p, kind, now), outcome)
    ensures var t := StageLease(p, s, kind, now, outcome);
            && Paired(t.leases, past + [now], Healthy) && AllPlaced(t.leases, past + [now], Healthy)
            && forall l | l in t.leases :: WellStaged(p, l, past + [now])
  {
    hide HasOpenLease, Members, IdsDistinct, IdOf, IsPlaced, Twice, StageLease, WellStaged;
    var t := StageLease(p, s, kind, now, outcome);
    if t.leases != s.leases {
      StagedIs(p, s, kind, now, outcome);
      StagedNow(p, s, past, kind, now, outcome);
      var l := t.leases[|s.leases|];
      StagedWell(p, s, kind, now, outcome, past);
      forall a | 0 <= a < |s.leases| && s.leases[a].id == l.id ensures Twice(l, past + [now], Healthy) {
        StagedTwice(p, s, l, kind, now, past, s.leases[a]);
      }
    }
  }

  lemma StagedWell(p: Policy, s: State, kind: ActionKind, now: int, outcome: RoundOutcome, past: seq<int>)
    requires SortedPeers(s.peers) && StageLease(p, s, kind, now, outcome).leases != s.leases
    requires Stages(p, s, kind, now) ==> Own()(s, LeaseProposal(p, kind, now), outcome)
    ensures var t := StageLease(p, s, kind, now, outcome);
            |t.leases| == |s.leases| + 1 && WellStaged(p, t.leases[|s.leases|], past + [now])
  {
    hide HasOpenLease, StageLease;
    StagedIs(p, s, kind, now, outcome);
  }

  /** What a staged lease looks like. */
  lemma StagedIs(p: Policy, s: State, kind: ActionKind, now: int, outcome: RoundOutcome)
    requires SortedPeers(s.peers) && StageLease(p, s, kind, now, outcome).leases != s.leases
    ensures Stages(p, s, kind, now) && outcome.Ok?
    ensures var t := StageLease(p, s, kind, now, outcome);
            && |t.leases| == |s.leases| + 1 && t.leases == s.leases + [t.leases[|s.leases|]]
            && var l := t.leases[|s.leases|];
               && l.id == IdOf(p, kind, now) && l.kind == kind && l.scope.None? && l.issuedAt == now
               && l.schemaVersion == CONTINGENCY_LEASE_SCHEMA_VERSION && l.maxDuration == p.leaseTtl
               && l.expiresAt == now + p.leaseTtl && l.cap == p.leaseCap && l.redeemed == []
               && l.receipt.decision == Approve
               && l.receipt.proposalId == outcome.value.proposal.id
  {
    hide HasOpenLease, Members;
  }

  lemma {:induction false} StageAllSound(
    p: Policy, s: State, kinds: seq<ActionKind>, now: int, outcomes: ActionKind -> RoundOutcome, past: seq<int>)
    requires SortedPeers(s.peers) && IdsDistinct(p) && AllPlaced(s.leases, past + [now], Healthy)
    requires Paired(s.leases, past + [now], Healthy) && forall l | l in s.leases :: WellStaged(p, l, past + [now])
    requires EachStaged(p, s, kinds, now, outcomes, Own())
    ensures var t := StageLeases(p, s, kinds, now, outcomes);
            Paired(t.leases, past + [now], Healthy) && forall l | l in t.leases :: WellStaged(p, l, past + [now])
    decreases |kinds|
  {
    hide StageLease, Stages, IdsDistinct, WellStaged, Paired, LeaseProposal, AllPlaced, Own;
    if kinds != [] {
      StagePeers(p, s, kinds[0], now, outcomes(kinds[0]));
      StageSound(p, s, kinds[0], now, outcomes(kinds[0]), past);
      StageAllSound(p, StageLease(p, s, kinds[0], now, outcomes(kinds[0])), kinds[1..], now, outcomes, past);
    }
  }

  lemma HealthSound(p: Policy, s: State, log: seq<Receipt>, call: Call, past: seq<int>)
    requires OneKey(s) && IdsDistinct(p) && call.Health? && EachRound(p, s, call, Own())
    requires Sound(p, s.leases, log, past) && Paired(s.leases, past, s.partition)
    requires AllPlaced(s.leases, past, s.partition)
    ensures var t := Step(p, s, call);
            && Sound(p, t.leases, log + IssuedBy(p, s, call), past + [call.now])
            && Paired(t.leases, past + [call.now], t.partition)
  {
    hide StageLeases, EachStaged, Unexpired, IdsDistinct, ObservePartition, Staged, LeaseProposal, Paired, AllPlaced,
         WellStaged;
    var t := Observed(s, call.agent, call.entries, call.now);
    ObservedPeers(s, call.agent, call.entries, call.now);
    UnexpiredPaired(s.leases, past, s.partition, call.now, t.partition);
    UnexpiredPlaced(s, call, past);
    UnexpiredWithin(s.leases, call.now);
    var kept := t.leases;
    forall l | l in kept ensures WellStaged(p, l, past + [call.now]) { LaterWellStaged(p, l, past, call.now); }
    var after := Step(p, s, call).leases;
    if t.partition == Healthy {
      StageAllSound(p, t, DESTRUCTIVE_KINDS, call.now, call.outcomes, past);
      StageFrame(p, t, DESTRUCTIVE_KINDS, call.now, call.outcomes);
    }
    forall l | l in after ensures l.receipt in log + IssuedBy(p, s, call) {
      var i :| 0 <= i < |after| && after[i] == l;
      if i < |kept| { assert l in kept; }
      else { assert IssuedBy(p, s, call)[i - |kept|] == l.receipt; }
    }
  }

  lemma UnexpiredPlaced(s: State, call: Call, past: seq<int>)
    requires call.Health? && AllPlaced(s.leases, past, s.partition)
    ensures var t := Observed(s, call.agent, call.entries, call.now);
            AllPlaced(t.leases, past + [call.now], t.partition)
  {
    hide BaseState, UnhealthyOf, ReportOf, Trimmed, Unexpired, HealthyGovernors, IsPlaced;
    var t := Observed(s, call.agent, call.entries, call.now);
    UnexpiredWithin(s.leases, call.now);
    forall l | l in t.leases ensures IsPlaced(l, past + [call.now], t.partition) {
      StillPlaced(l, past, s.partition, call.now, t.partition);
    }
  }

  lemma LaterWellStaged(p: Policy, l: Lease, past: seq<int>, now: int)
    requires WellStaged(p, l, past)
    ensures WellStaged(p, l, past + [now])
  {
  }

  /** Redeeming changes only the redeemed scopes of a lease. */
  lemma RedeemSound(
    p: Policy, leases: seq<Lease>, log: seq<Receipt>, past: seq<int>, phase: PartitionState, i: nat, a: Action,
    now: int)
    requires Sound(p, leases, log, past) && Paired(leases, past, phase)
    requires i < |leases| && Redeem(leases[i], a, now).Ok?
    ensures var after := leases[i := Redeem(leases[i], a, now).value];
            Sound(p, after, log, past) && Paired(after, past, phase)
  {
    hide IdOf, LeaseProposal, Twice;
    assert leases[i] in leases;
    RedeemMatchesPreview(leases[i], a, now);
    var l := Redeem(leases[i], a, now).value;
    if Twice(leases[i], past, phase) { SameTwice(leases[i], l, past, phase); }
  }

  lemma SameTwice(l: Lease, l': Lease, past: seq<int>, phase: PartitionState)
    requires Twice(l, past, phase) && l' == l.(redeemed := l'.redeemed)
    ensures Twice(l', past, phase)
  {
    var i: nat, k: nat :| TwiceAt(l, past, i, k) && (k + 1 == |past| ==> phase == Healthy);
    assert TwiceAt(l', past, i, k);
  }

  lemma CallSound(p: Policy, s: State, log: seq<Receipt>, call: Call, past: seq<int>)
    requires OneKey(s) && !call.Health? && Sound(p, s.leases, log, past) && Paired(s.leases, past, s.partition)
    ensures var t := Step(p, s, call);
            Sound(p, t.leases, log + IssuedBy(p, s, call), past) && Paired(t.leases, past, t.partition)
  {
    hide WellStaged, Paired, IssuedBy, AuthorizePartition, FirstRedeemable, Members;
    if call.Authorize? {
      AuthorizeLeases(p, s, call.request, call.now);
      AuthorizeRecords(p, s, call.request, call.now);
      var answer := AuthorizePartition(p, s, call.request, call.now).result;
      if answer.Ok? && answer.value.Some? {
        RedeemSound(p, s.leases, log, past, s.partition, IndexOfLease(s.leases, answer.value.value.id),
                    call.request.action, call.now);
      }
    }
  }

  lemma {:induction false} RunSound(p: Policy, calls: seq<Call>)
    requires IdsDistinct(p) && EachRoundOf(p, INITIAL_STATE, calls, Own())
    ensures var s := Run(p, INITIAL_STATE, calls);
            && Sound(p, s.leases, IssuedDuring(p, INITIAL_STATE, calls), Times(calls))
            && Paired(s.leases, Times(calls), s.partition)
  {
    hide IdsDistinct, Step, IssuedBy, EachRound, Sound, Paired, AllPlaced;
    if calls == [] {
      NoLeases(p);
      NonePaired([], Healthy);
    } else {
      var front, call := calls[..|calls| - 1], calls[|calls| - 1];
      var s, log := Run(p, INITIAL_STATE, front), IssuedDuring(p, INITIAL_STATE, front);
      RunSound(p, front);
      if call.Health? {
        RunPlaced(p, front);
        HealthSound(p, s, log, call, Times(front));
      } else {
        assert Times(front) + [] == Times(front);
        CallSound(p, s, log, call, Times(front));
      }
    }
  }

  lemma NoLeases(p: Policy)
    ensures Sound(p, [], [], [])
  {
  }

  lemma RunPlaced(p: Policy, calls: seq<Call>)
    requires IdsDistinct(p)
    ensures var s := Run(p, INITIAL_STATE, calls); AllPlaced(s.leases, Times(calls), s.partition)
  {
    hide IdsDistinct, Run, Times, AllPlaced, Covered, Justified, AllStaged, AllRecords, FirstWith, GrantedUnder,
         Relapses;
    RunWithinRadius(p, calls);
  }

  /** The instant observed at `i` is observed again at `k`, with room for a partition and its healing in between, and
      no lifetime passes until the observation after `k`. */
  predicate Return(ttl: int, past: seq<int>, i: nat, k: nat) {
    && i + 3 <= k && k + 1 < |past| && past[i] == past[k]
    && forall m | i < m <= k + 1 :: past[m] < past[i] + ttl
  }

  /** Leases are staged at all, and an instant returns within its lifetime.  It never does when no two observations
      fall on the same instant. */
  ghost predicate Returns(p: Policy, past: seq<int>) {
    p.leaseCap > 0 && p.leaseTtl > 0 && exists i, k :: Return(p.leaseTtl, past, i, k)
  }

  lemma ReturnsStay(p: Policy, past: seq<int>, more: seq<int>)
    requires Returns(p, past)
    ensures Returns(p, past + more)
  {
    var i, k :| Return(p.leaseTtl, past, i, k);
    assert Return(p.leaseTtl, past + more, i, k);
  }

  lemma TwiceReturns(p: Policy, l: Lease, past: seq<int>)
    requires WellStaged(p, l, past) && Twice(l, past, Partitioned)
    ensures Returns(p, past)
  {
    hide IdOf, LeaseProposal;
    var i: nat, k: nat :| TwiceAt(l, past, i, k) && k + 1 != |past|;
    assert Return(p.leaseTtl, past, i, k);
  }

  /** During a partition, the request presents the lease shown in a decision on its action at that time. */
  ghost predicate Previewed(p: Policy, s: State, r: Request, now: int, issuedAt: int, outcome: RoundOutcome)
    requires SortedPeers(s.peers)
  {
    && s.partition == Partitioned && IsDestructive(r.action)
    && var verdict := CanAct(p, s, r.action, now, issuedAt, outcome).verdict;
       verdict.Allow? && r.evidence == Presented(verdict.lease.value)
  }

  ghost predicate AllVerify(
    p: Policy, log: seq<Receipt>) { forall receipt | receipt in log :: p.receiptVerifies(receipt) }

  /**
   Every preview is honoured.  On every run with distinct lease ids, rounds that commit only what they were run for,
   receipts that verify, and observation times that do not return within a lifetime: the lease shown in a decision
   during a partition is accepted when it is presented back at that time.
   */
  lemma PreviewsHonoured(p: Policy, calls: seq<Call>, r: Request, now: int, issuedAt: int, outcome: RoundOutcome)
    requires IdsDistinct(p) && !Returns(p, Times(calls)) && EachRoundOf(p, INITIAL_STATE, calls, Own())
    requires AllVerify(p, IssuedDuring(p, INITIAL_STATE, calls))
    requires Previewed(p, Run(p, INITIAL_STATE, calls), r, now, issuedAt, outcome)
    ensures AuthorizePartition(p, Run(p, INITIAL_STATE, calls), r, now).result.Ok?
  {
    hide Run, IssuedDuring, EachRoundOf, IdsDistinct, AuthorizePartition, LeaseVerifies, WellStaged, CanRedeem, Times,
         Twice, Returns;
    var s := Run(p, INITIAL_STATE, calls);
    RunSound(p, calls);
    FirstRedeemableFinds(s.leases, r.action, now);
    var lease := r.evidence.lease;
    assert lease in s.leases;
    WellStagedVerifies(p, lease, Times(calls));
    var i :| 0 <= i < |s.leases| && s.leases[i] == lease;
    if Twice(lease, Times(calls), Partitioned) { TwiceReturns(p, lease, Times(calls)); }
    PreviewHonoured(p, s, r, now, issuedAt, outcome);
  }

  // -------------------------------------------------------------------------
  // A lone governor

  /** What a lone governor is told: all well, another agent failed, or it failed itself. */
  datatype Mood = Up | Weak | Down

  function Entries(mood: Mood): seq<HealthEntry> {
    match mood
    case Up => [HealthEntry(0, IsHealthy)]
    case Weak => [HealthEntry(1, IsFailed)]
    case Down => [HealthEntry(0, IsFailed)]
  }

  function Toward(from: PartitionState, mood: Mood): PartitionState {
    if mood == Down then Partitioned else if from == Partitioned then Healing else if mood == Up then Healthy
    else Degraded
  }

  /** Governor 0 with its key and nobody else. */
  ghost predicate Alone(s: State) { s.key == Some(0) && s.peers == [] && s.display == map[0 := 0] && s.governing.Some? }

  /** Receipts in the name of governor 0 verify. */
  ghost predicate Trusted(p: Policy) { forall r: Receipt | r.issuedBy == 0 :: p.receiptVerifies(r) }

  /** A policy under which governor 0 stages leases. */
  ghost predicate Lone(p: Policy) { p.leaseCap > 0 && p.leaseTtl > 0 && IdsDistinct(p) && Trusted(p) }

  lemma LoneBounds(p: Policy)
    requires Lone(p)
    ensures p.leaseTtl > 0 && p.leaseCap > 0
  {
  }

  function Scope(n: nat): (r: string)
    ensures |r| == n
  {
    seq(n, _ => 'x')
  }

  /** The first `n` scopes. */
  function Scopes(n: nat): seq<string> { seq(n, i requires 0 <= i < n => Scope(i)) }

  lemma ScopesGrow(n: nat)
    ensures Scopes(0) == [] && Scopes(n + 1) == Scopes(n) + [Scope(n)] && Scope(n) !in Scopes(n) && |Scopes(n)| == n
  {
    hide Scope;
    forall i | 0 <= i < n ensures Scopes(n)[i] != Scope(n) {}
  }

  /** A lease of `BlockEgress` staged at `at` and redeemed for the scopes `used`. */
  ghost predicate Lent(p: Policy, l: Lease, at: int, used: seq<string>) {
    && WellStaged(p, l, [at]) && l.kind == BlockEgress && l.issuedAt == at && l.redeemed == used && LeaseVerifies(p, l)
  }

  lemma LentFacts(p: Policy, l: Lease, at: int, used: seq<string>)
    requires Lent(p, l, at, used)
    ensures l.id == IdOf(p, BlockEgress, at) && l.expiresAt == at + p.leaseTtl && l.cap == p.leaseCap
    ensures l.kind == BlockEgress && l.scope.None? && LeaseVerifies(p, l) && l.redeemed == used
  {
    hide LeaseVerifies, IdOf, LeaseProposal;
  }

  lemma BaseStates(s: State, mood: Mood)
    requires Alone(s)
    ensures BaseState(s, Entries(mood)) == Toward(Healthy, mood)
  {
    var entries := Entries(mood);
    assert entries[1..] == [];
    assert UnhealthyGovernors(entries, s.display) == if mood == Down then 1 else 0;
    assert UnhealthyOf(entries) == [] <==> mood == Up;
    assert TotalGovernors(s) == 1;
  }

  /** An observation of the lone governor. */
  lemma Observes(p: Policy, s: State, mood: Mood, now: int, outcomes: ActionKind -> RoundOutcome)
    requires Alone(s)
    ensures var t, m := ObserveHealth(p, s, 0, Entries(mood), now, outcomes), Observed(s, 0, Entries(mood), now);
            && Alone(t) && t.partition == Toward(s.partition, mood)
            && Alone(m) && m.leases == Unexpired(s.leases, now) && m.partition == t.partition
            && t.leases == (if t.partition == Healthy then StageLeases(p, m, DESTRUCTIVE_KINDS, now, outcomes).leases
                            else m.leases)
  {
    hide StageLeases, BaseState, UnhealthyOf, ReportOf, Trimmed, Unexpired, HealthyGovernors, Entries;
    BaseStates(s, mood);
    HealthFrame(p, s, 0, Entries(mood), now, outcomes);
    HealthGoverned(p, s, Health(0, Entries(mood), now, outcomes));
  }

  // -------------------------------------------------------------------------
  // Staging on the solo transport

  /** The outcomes the solo transport gives a staging loop. */
  lemma SoloOutcomes(p: Policy, s: State, now: int) returns (outcomes: ActionKind -> RoundOutcome)
    requires SortedPeers(s.peers)
    ensures EachStaged(p, s, DESTRUCTIVE_KINDS, now, outcomes, Solo(p))
  {
    hide StageLease, StageLeases, EachStaged, Stages, LeaseProposal, Updated, SoloOutcome;
    outcomes := (k: ActionKind) => Err(InvalidCommittee);
    StagedNothing(p, s, now, outcomes, Solo(p));
    var n := 0;
    while n < |DESTRUCTIVE_KINDS|
      invariant 0 <= n <= |DESTRUCTIVE_KINDS|
      invariant EachStaged(p, s, DESTRUCTIVE_KINDS[..n], now, outcomes, Solo(p))
      invariant StageLeases(p, s, DESTRUCTIVE_KINDS[..n], now, outcomes).peers == s.peers
    {
      var t := StageLeases(p, s, DESTRUCTIVE_KINDS[..n], now, outcomes);
      var kind := DESTRUCTIVE_KINDS[n];
      var outcome := SoloOutcome(p, t, LeaseProposal(p, kind, now));
      StageTurn(p, s, n, now, outcomes, outcome, Solo(p));
      StagePeers(p, t, kind, now, outcome);
      outcomes := Updated(outcomes, kind, outcome);
      n := n + 1;
    }
    assert DESTRUCTIVE_KINDS[..|DESTRUCTIVE_KINDS|] == DESTRUCTIVE_KINDS;
  }

  ghost predicate OtherKinds(leases: seq<Lease>) { forall l | l in leases :: l.kind != BlockEgress }

  lemma {:induction false} StageOthers(
    p: Policy, s: State, kinds: seq<ActionKind>, now: int, outcomes: ActionKind -> RoundOutcome)
    requires SortedPeers(s.peers) && BlockEgress !in kinds
    ensures var t := StageLeases(p, s, kinds, now, outcomes);
            |s.leases| <= |t.leases| && s.leases == t.leases[..|s.leases|] && OtherKinds(t.leases[|s.leases|..])
    decreases |kinds|
  {
    hide HasOpenLease, Members;
    if kinds != [] {
      var m := StageLease(p, s, kinds[0], now, outcomes(kinds[0]));
      StageOthers(p, m, kinds[1..], now, outcomes);
      var t := StageLeases(p, s, kinds, now, outcomes);
      assert t.leases[|s.leases|..] == m.leases[|s.leases|..] + t.leases[|m.leases|..];
    }
  }

  /** Without an open lease of `BlockEgress`, a lone governor stages one, and then only leases of other kinds. */
  lemma StagesEgress(
    p: Policy, s: State, now: int, outcomes: ActionKind -> RoundOutcome)
    returns (l: Lease, others: seq<Lease>)
    requires Lone(p) && Alone(s) && !HasOpenLease(s.leases, BlockEgress, now)
    requires EachStaged(p, s, DESTRUCTIVE_KINDS, now, outcomes, Solo(p))
    ensures StageLeases(p, s, DESTRUCTIVE_KINDS, now, outcomes).leases == s.leases + [l] + others
    ensures Lent(p, l, now, []) && OtherKinds(others)
  {
    hide HasOpenLease, IdsDistinct, LeaseProposal, StageLeases, EachStaged;
    var rest, o := DESTRUCTIVE_KINDS[1..], outcomes(BlockEgress);
    assert DESTRUCTIVE_KINDS[0] == BlockEgress;
    StagingStep(p, s, DESTRUCTIVE_KINDS, now, outcomes, Solo(p));
    var m := StageLease(p, s, BlockEgress, now, o);
    EgressLease(p, s, now, o);
    assert BlockEgress !in rest by {
      forall j | 0 <= j < |rest| ensures rest[j] != BlockEgress { KindsDistinct(0, j + 1); }
    }
    StageOthers(p, m, rest, now, outcomes);
    l := m.leases[|s.leases|];
    var t := StageLeases(p, s, DESTRUCTIVE_KINDS, now, outcomes);
    others := t.leases[|m.leases|..];
    assert t.leases == t.leases[..|m.leases|] + others;
  }

  lemma StagingStep(
    p: Policy, s: State, kinds: seq<ActionKind>, now: int, outcomes: ActionKind -> RoundOutcome, ends: Ends)
    requires SortedPeers(s.peers) && kinds != [] && EachStaged(p, s, kinds, now, outcomes, ends)
    ensures StageLease(p, s, kinds[0], now, outcomes(kinds[0])).peers == s.peers
    ensures StageLeases(p, s, kinds, now, outcomes)
            == StageLeases(p, StageLease(p, s, kinds[0], now, outcomes(kinds[0])), kinds[1..], now, outcomes)
    ensures Stages(p, s, kinds[0], now) ==> ends(s, LeaseProposal(p, kinds[0], now), outcomes(kinds[0]))
  {
    hide StageLease, Stages;
    StagePeers(p, s, kinds[0], now, outcomes(kinds[0]));
  }

  lemma EgressLease(p: Policy, s: State, now: int, o: RoundOutcome)
    requires Lone(p) && Alone(s) && Stages(p, s, BlockEgress, now) && Solo(p)(s, LeaseProposal(p, BlockEgress, now), o)
    ensures var m := StageLease(p, s, BlockEgress, now, o);
            && |m.leases| == |s.leases| + 1 && m.leases == s.leases + [m.leases[|s.leases|]] && m.peers == []
            && Lent(p, m.leases[|s.leases|], now, [])
  {
    hide HasOpenLease, IdsDistinct;
    assert Members(s) == [0];
    StagedIs(p, s, BlockEgress, now, o);
  }

  // -------------------------------------------------------------------------
  // Using a lease

  function Request0(scope: string, l: Lease): Request {
    Request("hunt", "agent", Action(BlockEgress, Some(scope)), Presented(l), None)
  }

  /** The first active lease, presented unchanged, is redeemed if it can be. */
  lemma Authorizes(p: Policy, s: State, l: Lease, others: seq<Lease>, scope: string, now: int)
    requires s.partition == Partitioned && s.leases == [l] + others && LeaseVerifies(p, l)
    requires Redeem(l, Action(BlockEgress, Some(scope)), now).Ok?
    ensures var answer := AuthorizePartition(p, s, Request0(scope, l), now);
            var used := Redeem(l, Action(BlockEgress, Some(scope)), now);
            && answer.result == Ok(Some(used.value)) && answer.state.leases == [used.value] + others
            && answer.state == s.(leases := answer.state.leases, activity := answer.state.activity)
            && used.value.id == l.id
  {
    hide LeaseVerifies;
    assert s.leases[0] == l && IndexOfLease(s.leases, l.id) == 0;
    assert IsDestructive(Action(BlockEgress, Some(scope)));
    var used := Redeem(l, Action(BlockEgress, Some(scope)), now).value;
    assert s.leases[0 := used] == [used] + others;
  }

  /** An unexpired lease with room for it is redeemed for a new scope. */
  lemma Redeems(p: Policy, l: Lease, at: int, used: seq<string>, scope: string, now: int)
    requires Lent(p, l, at, used) && |used| < p.leaseCap && scope !in used && now < at + p.leaseTtl
    ensures var l' := l.(redeemed := used + [scope]);
            Redeem(l, Action(BlockEgress, Some(scope)), now) == Ok(l') && Lent(p, l', at, used + [scope])
  {
    hide IdOf;
  }

  lemma UnexpiredAll(leases: seq<Lease>, now: int)
    requires forall l | l in leases :: now < l.expiresAt
    ensures Unexpired(leases, now) == leases
  {
    if leases != [] {
      UnexpiredAll(leases[1..], now);
      assert leases == [leases[0]] + leases[1..];
    }
  }

  lemma {:induction false} UnexpiredNone(leases: seq<Lease>, now: int)
    requires forall l | l in leases :: l.expiresAt <= now
    ensures Unexpired(leases, now) == []
  {
    if leases != [] { UnexpiredNone(leases[1..], now); }
  }

  /** All leases were staged at `at`. */
  ghost predicate AllAt(p: Policy, leases: seq<Lease>, at: int) {
    forall l | l in leases :: l.expiresAt == at + p.leaseTtl
  }

  lemma {:induction false} StagedAllAt(
    p: Policy, s: State, kinds: seq<ActionKind>, now: int, outcomes: ActionKind -> RoundOutcome)
    requires SortedPeers(s.peers) && AllAt(p, s.leases, now)
    ensures AllAt(p, StageLeases(p, s, kinds, now, outcomes).leases, now)
    decreases |kinds|
  {
    hide HasOpenLease, Members;
    if kinds != [] { StagedAllAt(p, StageLease(p, s, kinds[0], now, outcomes(kinds[0])), kinds[1..], now, outcomes); }
  }

  // -------------------------------------------------------------------------
  // Building runs

  /** The calls are a run of the lone governor on the solo transport, observing at the times `past` and ending
      in `s`. */
  ghost predicate Leads(p: Policy, calls: seq<Call>, s: State, past: seq<int>) {
    && OneKey(s) && Alone(s) && Run(p, INITIAL_STATE, calls) == s && Times(calls) == past
    && EachRoundOf(p, INITIAL_STATE, calls, Solo(p))
  }

  lemma Extend(p: Policy, calls: seq<Call>, s: State, call: Call, past: seq<int>)
    requires Leads(p, calls, s, past) && EachRound(p, s, call, Solo(p)) && Alone(Step(p, s, call))
    ensures Leads(p, calls + [call], Step(p, s, call), past + if call.Health? then [call.now] else [])
    ensures AllRecords(p, calls + [call]) == AllRecords(p, calls) + RecordedBy(p, s, call)
  {
    hide Step, EachRound, RecordedBy, Alone;
    assert (calls + [call])[..|calls + [call]| - 1] == calls;
    StepIdentity(p, s, call);
  }

  /** An observation of the lone governor, its rounds ending as the solo transport ends them. */
  lemma ObserveNext(p: Policy, calls: seq<Call>, s: State, past: seq<int>, mood: Mood, now: int)
    returns (call: Call, t: State)
    requires Leads(p, calls, s, past)
    ensures call.Health? && call.now == now && call.agent == 0 && call.entries == Entries(mood)
    ensures t == Step(p, s, call) && EachRound(p, s, call, Solo(p))
    ensures Leads(p, calls + [call], t, past + [now])
    ensures AllRecords(p, calls + [call]) == AllRecords(p, calls)
    ensures t.partition == Toward(s.partition, mood)
    ensures t.partition != Healthy ==> t.leases == Unexpired(s.leases, now)
  {
    hide Run, ObserveHealth, StageLeases, EachStaged, Unexpired, Observed, AllRecords, EachRoundOf, Entries, Toward,
         Times;
    Observes(p, s, mood, now, (kind: ActionKind) => Err(InvalidCommittee));
    var outcomes := SoloOutcomes(p, Observed(s, 0, Entries(mood), now), now);
    call := Health(0, Entries(mood), now, outcomes);
    t := Step(p, s, call);
    Observes(p, s, mood, now, outcomes);
    Extend(p, calls, s, call, past);
    assert AllRecords(p, calls) + [] == AllRecords(p, calls);
  }

  /** An observation that stages a new lease of `BlockEgress`. */
  lemma StageNext(
    p: Policy, calls: seq<Call>, s: State, past: seq<int>, now: int)
    returns (call: Call, t: State, l: Lease, others: seq<Lease>)
    requires Leads(p, calls, s, past) && Lone(p) && s.partition != Partitioned
    requires !HasOpenLease(Unexpired(s.leases, now), BlockEgress, now) && AllAt(p, Unexpired(s.leases, now), now)
    ensures Leads(p, calls + [call], t, past + [now]) && t.partition == Healthy
    ensures AllRecords(p, calls + [call]) == AllRecords(p, calls)
    ensures t.leases == Unexpired(s.leases, now) + [l] + others && Lent(p, l, now, []) && OtherKinds(others)
    ensures AllAt(p, t.leases, now)
  {
    hide Run, ObserveHealth, StageLeases, EachStaged, Unexpired, Observed, AllRecords, EachRoundOf, HasOpenLease,
         IdsDistinct, Entries, Times, AllAt, Lent;
    call, t := ObserveNext(p, calls, s, past, Up, now);
    Observes(p, s, Up, now, call.outcomes);
    var m := Observed(s, 0, Entries(Up), now);
    l, others := StagesEgress(p, m, now, call.outcomes);
    StagedAllAt(p, m, DESTRUCTIVE_KINDS, now, call.outcomes);
  }

  /** The key is registered. */
  lemma Begin(p: Policy) returns (calls: seq<Call>, s: State)
    ensures Leads(p, calls, s, []) && s.partition == Healthy && s.leases == []
  {
    hide AllRecords, ObserveHealth, CanAct, AuthorizePartition, AttestRelease, Run, Times, EachRoundOf;
    s := Step(p, INITIAL_STATE, Key(0, 0));
    calls := [Key(0, 0)];
    assert Alone(s);
    OneCall(p, Key(0, 0));
  }

  lemma OneCall(p: Policy, call: Call)
    requires call.Key?
    ensures Run(p, INITIAL_STATE, [call]) == Step(p, INITIAL_STATE, call) && OneKey(Step(p, INITIAL_STATE, call))
    ensures Times([call]) == [] && EachRoundOf(p, INITIAL_STATE, [call], Solo(p))
  {
    hide Step;
    assert [call][..0] == [];
    assert Run(p, INITIAL_STATE, []) == INITIAL_STATE && Times([]) == [];
    StepIdentity(p, INITIAL_STATE, call);
  }

  lemma AuthorizeNext(
    p: Policy, calls: seq<Call>, s: State, past: seq<int>, l: Lease, others: seq<Lease>, scope: string, now: int)
    returns (call: Call, t: State)
    requires Leads(p, calls, s, past) && s.partition == Partitioned && s.leases == [l] + others
    requires LeaseVerifies(p, l) && Redeem(l, Action(BlockEgress, Some(scope)), now).Ok?
    ensures Leads(p, calls + [call], t, past) && t.partition == Partitioned
    ensures t.leases == [Redeem(l, Action(BlockEgress, Some(scope)), now).value] + others
    ensures AllRecords(p, calls + [call]) ==
            AllRecords(p, calls) + [Note(Request0(scope, l), true, AuthorizedByLease, Some(l.id), now)]
  {
    hide Run, AllRecords, EachRoundOf, LeaseVerifies, AuthorizePartition, Redeem, Times;
    call := Authorize(Request0(scope, l), now);
    t := Step(p, s, call);
    Authorizes(p, s, l, others, scope, now);
    assert past + [] == past;
    Extend(p, calls, s, call, past);
  }

  /** The first `n` scopes were granted under the id. */
  ghost predicate Grants(p: Policy, calls: seq<Call>, id: string, n: nat) {
    forall m: nat | m < n :: Scope(m) in GrantedUnder(AllRecords(p, calls), id)
  }

  /** A request for the next scope. */
  lemma UseNext(
    p: Policy, calls: seq<Call>, s: State, past: seq<int>, l: Lease, others: seq<Lease>, at: int, used: seq<string>,
    n: nat)
    returns (call: Call, t: State)
    requires Leads(p, calls, s, past) && s.partition == Partitioned && s.leases == [l] + others && p.leaseTtl > 0
    requires Lent(p, l, at, used) && |used| < p.leaseCap && Scope(n) !in used && Grants(p, calls, l.id, n)
    ensures Leads(p, calls + [call], t, past) && t.partition == Partitioned && Grants(p, calls + [call], l.id, n + 1)
    ensures t.leases == [l.(redeemed := used + [Scope(n)])] + others
    ensures Lent(p, l.(redeemed := used + [Scope(n)]), at, used + [Scope(n)])
  {
    hide Leads, AllRecords, Redeem, Lent, GrantedUnder, Scope;
    LentFacts(p, l, at, used);
    Redeems(p, l, at, used, Scope(n), at);
    call, t := AuthorizeNext(p, calls, s, past, l, others, Scope(n), at);
    GrantedAppended(AllRecords(p, calls), Note(Request0(Scope(n), l), true, AuthorizedByLease, Some(l.id), at), l.id);
  }

  /** A new lease is redeemed to its cap. */
  lemma UseUp(p: Policy, calls: seq<Call>, s: State, past: seq<int>, l: Lease, others: seq<Lease>, at: int)
    returns (after: seq<Call>, t: State)
    requires Leads(p, calls, s, past) && s.partition == Partitioned && s.leases == [l] + others && p.leaseTtl > 0
    requires Lent(p, l, at, [])
    ensures Leads(p, after, t, past) && t.partition == Partitioned && Grants(p, after, l.id, p.leaseCap)
    ensures t.leases == [l.(redeemed := Scopes(p.leaseCap))] + others
  {
    hide Leads, Lent, GrantedUnder, AllRecords, Scopes, Scope;
    after, t := calls, s;
    LentFacts(p, l, at, []);
    ScopesGrow(0);
    var n, now := 0, l;
    while n < p.leaseCap
      invariant 0 <= n <= p.leaseCap && now == l.(redeemed := Scopes(n)) && Lent(p, now, at, Scopes(n))
      invariant Leads(p, after, t, past) && t.partition == Partitioned && t.leases == [now] + others
      invariant Grants(p, after, l.id, n)
    {
      ScopesGrow(n);
      var call, next := UseNext(p, after, t, past, now, others, at, Scopes(n), n);
      after, t, now, n := after + [call], next, l.(redeemed := Scopes(n + 1)), n + 1;
    }
  }

  lemma NoneGranted(p: Policy, calls: seq<Call>, id: string)
    ensures Grants(p, calls, id, 0)
  {
  }

  lemma LeadsTo(p: Policy, calls: seq<Call>, s: State, past: seq<int>)
    requires Leads(p, calls, s, past)
    ensures Run(p, INITIAL_STATE, calls) == s && EachRoundOf(p, INITIAL_STATE, calls, Solo(p)) && Times(calls) == past
    ensures s.key.Some? && SortedPeers(s.peers)
  {
  }

  lemma NothingStaged(p: Policy, at: int)
    ensures Unexpired([], at) == [] && !HasOpenLease([], BlockEgress, at) && AllAt(p, [], at)
  {
  }

  lemma UsedAllAt(p: Policy, first: Lease, used: Lease, others: seq<Lease>, at: int)
    requires AllAt(p, [first] + others, at) && used.expiresAt == first.expiresAt
    ensures AllAt(p, [used] + others, at)
  {
    assert first in [first] + others;
    forall l | l in [used] + others ensures l.expiresAt == at + p.leaseTtl {
      if l != used { assert l in [first] + others; }
    }
  }

  lemma NextTime(times: seq<int>, m: nat)
    requires m < |times|
    ensures times[..m + 1] == times[..m] + [times[m]]
  {
  }

  /** The governor runs without staging anything. */
  lemma Idle(p: Policy, times: seq<int>, i: nat) returns (calls: seq<Call>, s: State)
    requires i <= |times|
    ensures Leads(p, calls, s, times[..i]) && s.partition != Partitioned && s.leases == []
  {
    hide Leads, Unexpired, AllRecords, AllAt, HasOpenLease;
    calls, s := Begin(p);
    var m := 0;
    assert times[..0] == [];
    while m < i
      invariant 0 <= m <= i && Leads(p, calls, s, times[..m]) && s.partition != Partitioned && s.leases == []
    {
      NothingStaged(p, times[m]);
      NextTime(times, m);
      var call, t := ObserveNext(p, calls, s, times[..m], Weak, times[m]);
      calls, s, m := calls + [call], t, m + 1;
    }
  }

  /** The observation `m` stages a lease, and the next begins a partition the lease outlives. */
  lemma Lend(p: Policy, calls: seq<Call>, s: State, times: seq<int>, m: nat)
    returns (after: seq<Call>, t: State, l: Lease, others: seq<Lease>)
    requires Lone(p) && m + 1 < |times| && times[m + 1] < times[m] + p.leaseTtl
    requires Leads(p, calls, s, times[..m]) && s.partition != Partitioned && s.leases == []
    ensures Leads(p, after, t, times[..m + 2]) && t.partition == Partitioned
    ensures AllRecords(p, after) == AllRecords(p, calls)
    ensures t.leases == [l] + others && Lent(p, l, times[m], []) && AllAt(p, t.leases, times[m]) && OtherKinds(others)
  {
    hide Leads, Unexpired, AllRecords, AllAt, HasOpenLease, Lent, Lone, OtherKinds;
    NothingStaged(p, times[m]);
    NextTime(times, m);
    NextTime(times, m + 1);
    var call;
    call, t, l, others := StageNext(p, calls, s, times[..m], times[m]);
    after := calls + [call];
    Fewer(p, t.leases, times[m], times[m + 1]);
    call, t := ObserveNext(p, after, t, times[..m + 1], Down, times[m + 1]);
    after := after + [call];
  }

  predicate AllBefore(times: seq<int>, end: int) { forall time | time in times :: time < end }

  lemma IsBefore(times: seq<int>, m: nat, end: int)
    requires m < |times|
    ensures AllBefore(times, end) ==> times[m] < end
  {
    assert times[m] in times;
  }

  /** The partition lasts, and begins to heal at the observation before `k`.  Leases staged at `at` survive if no
      lifetime has passed by then, and are gone if one has passed at some observation `j`. */
  lemma Heal(p: Policy, calls: seq<Call>, s: State, times: seq<int>, at: int, i: nat, j: nat, k: nat)
    returns (after: seq<Call>, t: State)
    requires i <= j < k <= |times|
    requires Leads(p, calls, s, times[..i]) && s.partition == Partitioned && AllAt(p, s.leases, at)
    ensures Leads(p, after, t, times[..k]) && t.partition == Healing && AllRecords(p, after) == AllRecords(p, calls)
    ensures at + p.leaseTtl <= times[j] ==> t.leases == []
    ensures AllBefore(times[i..k], at + p.leaseTtl) ==> t.leases == s.leases
  {
    hide Leads, Unexpired, AllRecords, AllAt, AllBefore;
    after, t := calls, s;
    var m := i;
    while m + 1 < k
      invariant i <= m < k && Leads(p, after, t, times[..m]) && AllRecords(p, after) == AllRecords(p, calls)
      invariant t.partition == Partitioned
      invariant AllAt(p, t.leases, at) && (j < m && at + p.leaseTtl <= times[j] ==> t.leases == [])
      invariant AllBefore(times[i..k], at + p.leaseTtl) ==> t.leases == s.leases
    {
      IsBefore(times[i..k], m - i, at + p.leaseTtl);
      var call, next := Weather(p, after, t, times, at, m, Down);
      after, t, m := after + [call], next, m + 1;
    }
    IsBefore(times[i..k], m - i, at + p.leaseTtl);
    var call, next := Weather(p, after, t, times, at, m, Up);
    after, t := after + [call], next;
  }

  /** One observation of a partition. */
  lemma Weather(p: Policy, calls: seq<Call>, s: State, times: seq<int>, at: int, m: nat, mood: Mood)
    returns (call: Call, t: State)
    requires m < |times| && Leads(p, calls, s, times[..m]) && s.partition == Partitioned && AllAt(p, s.leases, at)
    ensures Leads(p, calls + [call], t, times[..m + 1]) && AllRecords(p, calls + [call]) == AllRecords(p, calls)
    ensures t.partition == (if mood == Down then Partitioned else Healing) && AllAt(p, t.leases, at)
    ensures at + p.leaseTtl <= times[m] || s.leases == [] ==> t.leases == []
    ensures times[m] < at + p.leaseTtl ==> t.leases == s.leases
  {
    hide Leads, Unexpired, AllRecords, AllAt;
    NextTime(times, m);
    call, t := ObserveNext(p, calls, s, times[..m], mood, times[m]);
    Fewer(p, s.leases, at, times[m]);
  }

  lemma Fewer(p: Policy, leases: seq<Lease>, at: int, now: int)
    requires AllAt(p, leases, at)
    ensures AllAt(p, Unexpired(leases, now), at)
    ensures at + p.leaseTtl <= now || leases == [] ==> Unexpired(leases, now) == []
    ensures now < at + p.leaseTtl ==> Unexpired(leases, now) == leases
  {
    UnexpiredWithin(leases, now);
    if at + p.leaseTtl <= now || leases == [] { UnexpiredNone(leases, now); } else { UnexpiredAll(leases, now); }
  }

  // -------------------------------------------------------------------------
  // A previewed lease is refused

  lemma {:induction false} FirstRedeemableSkips(front: seq<Lease>, l: Lease, back: seq<Lease>, a: Action, now: int)
    requires (forall x | x in front :: !CanRedeem(x, a, now)) && CanRedeem(l, a, now)
    ensures FirstRedeemable(front + [l] + back, a, now) == Some(l)
  {
    hide CanRedeem;
    var all := front + [l] + back;
    if front != [] {
      assert all[0] == front[0] && all[1..] == front[1..] + [l] + back;
      FirstRedeemableSkips(front[1..], l, back, a, now);
    }
  }

  /** A lease redeemed to its cap is not open. */
  lemma NoneOpen(used: Lease, others: seq<Lease>, now: int)
    requires |used.redeemed| >= used.cap && OtherKinds(others)
    ensures !HasOpenLease([used] + others, BlockEgress, now)
  {
    var all := [used] + others;
    forall i | 0 <= i < |all| ensures all[i].kind != BlockEgress || |all[i].redeemed| >= all[i].cap {
      if i > 0 { assert all[i] in others; }
    }
  }

  /** The previewed lease is the second with its id: the request finds the first, which differs. */
  lemma SecondRefused(p: Policy, s: State, used: Lease, others: seq<Lease>, l: Lease, back: seq<Lease>, at: int)
    requires SortedPeers(s.peers) && s.key.Some? && s.partition == Partitioned
    requires s.leases == [used] + others + [l] + back
    requires used.kind == BlockEgress && used.redeemed == Scopes(p.leaseCap) && used.cap == p.leaseCap
    requires Lone(p) && Lent(p, l, at, []) && used.id == l.id && OtherKinds(others)
    ensures var r := Request0(Scope(p.leaseCap), l);
            && (forall outcome :: Previewed(p, s, r, at, at, outcome))
            && AuthorizePartition(p, s, r, at).result == Err(MismatchedLease)
  {
    hide LeaseVerifies, Lent, Lone, OtherKinds, Scope, Scopes;
    LentFacts(p, l, at, []);
    LoneBounds(p);
    ScopesGrow(p.leaseCap);
    var a, front := Action(BlockEgress, Some(Scope(p.leaseCap))), [used] + others;
    forall x | x in front ensures !CanRedeem(x, a, at) {
      if x != used { OtherKind(others, x); }
    }
    FirstRedeemableSkips(front, l, back, a, at);
    assert s.leases[0] == used && IndexOfLease(s.leases, l.id) == 0;
  }

  lemma OtherKind(others: seq<Lease>, x: Lease)
    requires OtherKinds(others) && x in others
    ensures x.kind != BlockEgress
  {
  }

  /**
   A previewed lease is refused.  On the solo transport, at times that return within a lifetime: a lease is redeemed
   to its cap in a partition, staged again under the same id once the partition is over, shown in the next partition,
   and refused when presented.
   */
  lemma PreviewRefused(p: Policy, times: seq<int>, i: nat, k: nat) returns (calls: seq<Call>, r: Request)
    requires Lone(p) && Return(p.leaseTtl, times, i, k)
    ensures EachRoundOf(p, INITIAL_STATE, calls, Solo(p)) && Times(calls) == times[..k + 2]
    ensures AllVerify(p, IssuedDuring(p, INITIAL_STATE, calls))
    ensures var s := Run(p, INITIAL_STATE, calls);
            && (forall outcome :: Previewed(p, s, r, times[i], times[i], outcome))
            && AuthorizePartition(p, s, r, times[i]).result == Err(MismatchedLease)
  {
    hide Leads, AllRecords, Lent, OtherKinds, AllAt, AuthorizePartition, Lone, Times, Previewed, Scope, Scopes, Return,
         AllVerify, Run, IssuedDuring, EachRoundOf;
    var s, first, others, l, back;
    ReturnFacts(p.leaseTtl, times, i, k);
    LoneBounds(p);
    calls, s, first, others := UsedUp(p, times, i, k);
    var used := first.(redeemed := Scopes(p.leaseCap));
    LentFacts(p, first, times[i], []);
    ScopesGrow(p.leaseCap);
    calls, s, l, back := StagedAgain(p, calls, s, times, k, used, others);
    LentFacts(p, l, times[k], []);
    LeadsTo(p, calls, s, times[..k + 2]);
    LeadsVerify(p, calls, s, times[..k + 2]);
    r := Request0(Scope(p.leaseCap), l);
    SecondRefused(p, s, used, others, l, back, times[k]);
  }

  lemma ReturnFacts(ttl: int, times: seq<int>, i: nat, k: nat)
    requires Return(ttl, times, i, k)
    ensures i < k && k + 1 < |times| && times[i] == times[k] && times[k + 1] < times[k] + ttl
  {
  }

  /** With the first lease used up, a second is staged at the observation `k`; both outlive the next, which begins a
      partition. */
  lemma StagedAgain(
    p: Policy, calls: seq<Call>, s: State, times: seq<int>, k: nat, used: Lease, others: seq<Lease>)
    returns (after: seq<Call>, t: State, l: Lease, back: seq<Lease>)
    requires Lone(p) && k + 1 < |times| && times[k + 1] < times[k] + p.leaseTtl
    requires Leads(p, calls, s, times[..k]) && s.partition != Partitioned && s.leases == [used] + others
    requires AllAt(p, s.leases, times[k]) && |used.redeemed| >= used.cap && OtherKinds(others)
    ensures Leads(p, after, t, times[..k + 2]) && t.partition == Partitioned
    ensures t.leases == [used] + others + [l] + back && Lent(p, l, times[k], [])
  {
    hide Leads, AllRecords, Unexpired, HasOpenLease, Lent, OtherKinds, AllAt, Lone;
    var call;
    LoneBounds(p);
    NoneOpen(used, others, times[k]);
    NextTime(times, k);
    NextTime(times, k + 1);
    Fewer(p, s.leases, times[k], times[k]);
    call, t, l, back := StageNext(p, calls, s, times[..k], times[k]);
    after := calls + [call];
    Fewer(p, t.leases, times[k], times[k + 1]);
    call, t := ObserveNext(p, after, t, times[..k + 1], Down, times[k + 1]);
    after := after + [call];
  }

  /** A lease staged at the observation `i` is used up in a partition that begins to heal just before `k`. */
  lemma UsedUp(p: Policy, times: seq<int>, i: nat, k: nat)
    returns (calls: seq<Call>, s: State, l: Lease, others: seq<Lease>)
    requires Lone(p) && Return(p.leaseTtl, times, i, k)
    ensures Leads(p, calls, s, times[..k]) && s.partition == Healing && Lent(p, l, times[i], []) && OtherKinds(others)
    ensures s.leases == [l.(redeemed := Scopes(p.leaseCap))] + others && AllAt(p, s.leases, times[i])
  {
    hide Leads, AllRecords, Unexpired, Lent, OtherKinds, AllAt, Lone, Scope, Scopes, Grants;
    LoneBounds(p);
    calls, s := Idle(p, times, i);
    calls, s, l, others := Lend(p, calls, s, times, i);
    NoneGranted(p, calls, l.id);
    calls, s := UseUp(p, calls, s, times[..i + 2], l, others, times[i]);
    UsedAllAt(p, l, l.(redeemed := Scopes(p.leaseCap)), others, times[i]);
    assert AllBefore(times[i + 2..k], times[i] + p.leaseTtl);
    calls, s := Heal(p, calls, s, times, times[i], i + 2, i + 2, k);
  }

  /** All receipts of the lone governor carry its name. */
  lemma LeadsVerify(p: Policy, calls: seq<Call>, s: State, past: seq<int>)
    requires Leads(p, calls, s, past) && Lone(p)
    ensures AllVerify(p, IssuedDuring(p, INITIAL_STATE, calls))
  {
    hide Run, IssuedDuring, EachRoundOf, Chains;
    ReceiptChain(p, calls);
    RunIdentity(p, calls);
  }

  /**
   Previews, exactly.  Over the runs on the solo transport that observe at a prefix of the given times and whose
   receipts verify, with distinct ids: every preview is honoured if and only if the times do not return.
   */
  lemma PreviewsExactly(p: Policy, times: seq<int>)
    requires IdsDistinct(p) && Trusted(p)
    ensures (forall calls, r, now, issuedAt, outcome ::
               && Times(calls) <= times && EachRoundOf(p, INITIAL_STATE, calls, Solo(p))
               && AllVerify(p, IssuedDuring(p, INITIAL_STATE, calls))
               && Previewed(p, Run(p, INITIAL_STATE, calls), r, now, issuedAt, outcome)
               ==> AuthorizePartition(p, Run(p, INITIAL_STATE, calls), r, now).result.Ok?)
            <==> !Returns(p, times)
  {
    hide Times, EachRoundOf, IssuedDuring, IdsDistinct, Trusted, Run, AllVerify, Previewed, AuthorizePartition;
    if Returns(p, times) {
      var i: nat, k: nat :| Return(p.leaseTtl, times, i, k);
      assert Lone(p);
      var calls, r := PreviewRefused(p, times, i, k);
      assert times[..k + 2] <= times;
      assert Previewed(p, Run(p, INITIAL_STATE, calls), r, times[i], times[i], Err(InvalidCommittee));
    } else {
      forall calls, r, now, issuedAt, outcome |
        && Times(calls) <= times && EachRoundOf(p, INITIAL_STATE, calls, Solo(p))
        && AllVerify(p, IssuedDuring(p, INITIAL_STATE, calls))
        && Previewed(p, Run(p, INITIAL_STATE, calls), r, now, issuedAt, outcome)
        ensures AuthorizePartition(p, Run(p, INITIAL_STATE, calls), r, now).result.Ok? {
        SoloRunCovers(p, calls);
        assert times == Times(calls) + times[|Times(calls)|..];
        if Returns(p, Times(calls)) { ReturnsStay(p, Times(calls), times[|Times(calls)|..]); }
        PreviewsHonoured(p, calls, r, now, issuedAt, outcome);
      }
    }
  }

  // -------------------------------------------------------------------------
  // A lease id is used beyond the cap

  /** The partition lasts for all remaining observations. */
  lemma Finish(p: Policy, calls: seq<Call>, s: State, times: seq<int>, i: nat) returns (after: seq<Call>, t: State)
    requires i <= |times| && Leads(p, calls, s, times[..i])
    ensures Leads(p, after, t, times) && AllRecords(p, after) == AllRecords(p, calls)
  {
    hide Leads, Unexpired, AllRecords;
    after, t := calls, s;
    var m := i;
    while m < |times|
      invariant i <= m <= |times| && Leads(p, after, t, times[..m]) && AllRecords(p, after) == AllRecords(p, calls)
    {
      NextTime(times, m);
      var call, next := ObserveNext(p, after, t, times[..m], Down, times[m]);
      after, t, m := after + [call], next, m + 1;
    }
    assert times[..|times|] == times;
  }

  lemma {:induction false} ManyScopes(n: nat, granted: set<string>)
    requires forall m: nat | m < n :: Scope(m) in granted
    ensures n <= |granted|
  {
    hide Scope;
    if n > 0 {
      forall m: nat | m < n - 1 ensures Scope(m) in granted - {Scope(n - 1)} { assert |Scope(m)| == m; }
      ManyScopes(n - 1, granted - {Scope(n - 1)});
    }
  }

  /** At relapsing times a lease is used up, expires, is staged again under the same id and used once more. */
  lemma Overuse(p: Policy, times: seq<int>, i: nat, j: nat, k: nat) returns (calls: seq<Call>)
    requires Lone(p) && Relapse(p.leaseTtl, times, i, j, k)
    ensures Times(calls) == times && EachRoundOf(p, INITIAL_STATE, calls, Solo(p))
    ensures |GrantedUnder(AllRecords(p, calls), IdOf(p, BlockEgress, times[i]))| > p.leaseCap
  {
    hide Leads, Unexpired, AllRecords, AllAt, Lent, Lone, Scope, Scopes, Times, IdOf, Grants, GrantedUnder;
    var at := times[i];
    var s, l, others, call;
    LoneBounds(p);
    calls, s := Idle(p, times, i);
    calls, s, l, others := Lend(p, calls, s, times, i);
    LentFacts(p, l, at, []);
    NoneGranted(p, calls, l.id);
    calls, s := UseUp(p, calls, s, times[..i + 2], l, others, at);
    UsedAllAt(p, l, l.(redeemed := Scopes(p.leaseCap)), others, at);
    ghost var used := calls;
    calls, s := Heal(p, calls, s, times, at, i + 2, j, k);
    calls, s, l, others := Lend(p, calls, s, times, k);
    LentFacts(p, l, at, []);
    SameGrants(p, used, calls, l.id, p.leaseCap);
    call, s := UseNext(p, calls, s, times[..k + 2], l, others, at, [], p.leaseCap);
    used := calls + [call];
    calls, s := Finish(p, used, s, times, k + 2);
    SameGrants(p, used, calls, l.id, p.leaseCap + 1);
    LeadsTo(p, calls, s, times);
    Exceeds(p, calls, l.id);
  }

  lemma SameGrants(p: Policy, calls: seq<Call>, after: seq<Call>, id: string, n: nat)
    requires Grants(p, calls, id, n) && AllRecords(p, after) == AllRecords(p, calls)
    ensures Grants(p, after, id, n)
  {
    hide Scope, AllRecords, GrantedUnder;
  }

  lemma Exceeds(p: Policy, calls: seq<Call>, id: string)
    requires Grants(p, calls, id, p.leaseCap + 1)
    ensures |GrantedUnder(AllRecords(p, calls), id)| > p.leaseCap
  {
    hide Scope, AllRecords, GrantedUnder;
    ManyScopes(p.leaseCap + 1, GrantedUnder(AllRecords(p, calls), id));
  }

  /**
   The blast radius, exactly.  For observations at the given times, on the solo transport, with distinct ids and
   receipts that verify: no run grants more scopes under a lease id than the cap if and only if the times do not
   relapse.
   */
  lemma RadiusExactly(p: Policy, times: seq<int>)
    requires IdsDistinct(p) && Trusted(p)
    ensures (forall calls, id | Times(calls) == times && EachRoundOf(p, INITIAL_STATE, calls, Solo(p)) ::
               |GrantedUnder(AllRecords(p, calls), id)| <= p.leaseCap)
            <==> !Relapses(p, times)
  {
    hide Times, EachRoundOf, AllRecords, GrantedUnder, IdsDistinct, Trusted, IdOf;
    forall calls, id | Times(calls) == times && EachRoundOf(p, INITIAL_STATE, calls, Solo(p)) && !Relapses(p, times)
      ensures |GrantedUnder(AllRecords(p, calls), id)| <= p.leaseCap {
      BlastRadius(p, calls, id);
    }
    if Relapses(p, times) {
      var i: nat, j: nat, k: nat :| Relapse(p.leaseTtl, times, i, j, k);
      var calls := Overuse(p, times, i, j, k);
      assert Times(calls) == times;
    }
  }

  /** A clock set back to when an expired lease was staged breaks the blast radius. */
  lemma BackwardClockBreaksRadius(p: Policy) returns (calls: seq<Call>)
    requires Lone(p)
    ensures Times(calls) == [0, 0, p.leaseTtl, 0, 0] && EachRoundOf(p, INITIAL_STATE, calls, Solo(p))
    ensures |GrantedUnder(AllRecords(p, calls), IdOf(p, BlockEgress, 0))| > p.leaseCap
  {
    hide Times, EachRoundOf, AllRecords, GrantedUnder, IdsDistinct, IdOf;
    calls := Overuse(p, [0, 0, p.leaseTtl, 0, 0], 0, 2, 3);
  }
}
