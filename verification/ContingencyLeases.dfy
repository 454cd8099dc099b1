/**
 Contingency leases over whole runs: every authorization during a partition falls under a lease this policy
 staged, inside its lifetime, and no lease covers more distinct scopes than its blast radius, unless the clock
 returns to an instant at which a lease was staged that has expired since.
 */
module ContingencyLeases {
  import opened Wrappers
  import opened ConsensusModel
  import opened GovernanceModel
  import opened GovernanceRuns
  import opened PartitionEras

  // -------------------------------------------------------------------------
  // Previewing and redeeming

  /** The preview used for a decision and the redemption used for a request agree; redeeming again is a no-op. */
  lemma RedeemMatchesPreview(l: Lease, a: Action, now: int)
    ensures CanRedeem(l, a, now) <==> Redeem(l, a, now).Ok?
    ensures Redeem(l, a, now).Ok? ==>
              var l' := Redeem(l, a, now).value;
              && l' == l.(redeemed := l'.redeemed) && l.redeemed <= l'.redeemed && ScopeKey(a) in l'.redeemed
              && (|l.redeemed| <= l.cap ==> |l'.redeemed| <= l.cap || l' == l)
              && Redeem(l', a, now) == Ok(l')
  {
  }

  /** A lease can be redeemed for an action exactly if it is of its kind, pinned to no other scope, not expired, and
      has the scope already or room for it; redeeming adds the scope once and changes nothing else. */
  lemma RedeemExactly(l: Lease, a: Action, now: int)
    ensures var key := if a.scope.Some? then a.scope.value else "unscoped:" + KindText(a.kind);
            var covers := l.kind == a.kind && (l.scope.Some? ==> a.scope == l.scope);
            && (Redeem(l, a, now) == Err(NotCovered) <==> !covers)
            && (Redeem(l, a, now) == Err(Expired) <==> covers && l.expiresAt <= now)
            && (Redeem(l, a, now) == Err(CapExceeded) <==>
                  covers && now < l.expiresAt && key !in l.redeemed && |l.redeemed| >= l.cap)
            && (Redeem(l, a, now).Ok? <==> covers && now < l.expiresAt && (key in l.redeemed || |l.redeemed| < l.cap))
            && (Redeem(l, a, now).Ok? ==>
                  Redeem(l, a, now).value
                  == if key in l.redeemed then l else l.(redeemed := l.redeemed + [key]))
  {
  }

  /** The lease verifies and is the first active one with its id. */
  ghost predicate Active(p: Policy, s: State, l: Lease) {
    LeaseVerifies(p, l) && exists i | 0 <= i < |s.leases| ::
      s.leases[i] == l && forall j | 0 <= j < i :: s.leases[j].id != l.id
  }

  /** What a destructive request is answered during a partition, case by case. */
  lemma AnsweredExactly(p: Policy, s: State, r: Request, now: int)
    ensures var result := AuthorizePartition(p, s, r, now).result;
            && (result == Ok(None) <==> !IsDestructive(r.action) || s.partition != Partitioned)
            && (result != Ok(None) ==>
                  match r.evidence
                  case NoLease => result == Err(MissingLease)
                  case Malformed => result == Err(MalformedLease)
                  case Presented(l) =>
                    if !LeaseVerifies(p, l) then result == Err(UnverifiedLease)
                    else if forall i | 0 <= i < |s.leases| :: s.leases[i].id != l.id then result == Err(UnknownLease)
                    else if !Active(p, s, l) then result == Err(MismatchedLease)
                    else result == match Redeem(l, r.action, now) case Err(e) => Err(e) case Ok(l') => Ok(Some(l')))
  {
    hide LeaseVerifies, Redeem;
    if r.evidence.Presented? {
      var l := r.evidence.lease;
      var k := IndexOfLease(s.leases, l.id);
      assert forall i | 0 <= i < |s.leases| && s.leases[i] == l ::
        s.leases[i].id == l.id && ((forall j | 0 <= j < i :: s.leases[j].id != l.id) ==> i == k);
    }
  }

  /** A lease is authorized only under a receipt that verifies, approves, and names exactly the terms of the lease. */
  lemma AuthorizedUnderReceipt(p: Policy, s: State, r: Request, now: int)
    requires AuthorizePartition(p, s, r, now).result.Ok? && AuthorizePartition(p, s, r, now).result != Ok(None)
    ensures r.evidence.Presented?
    ensures var l := r.evidence.lease;
            && p.receiptVerifies(l.receipt) && l.receipt.decision == Approve
            && l.receipt.proposalId
              == p.propose(LeaseSubject(l.id, l.kind, l.scope, l.cap, l.maxDuration, l.issuedAt, l.expiresAt)).id
            && l.schemaVersion == 1 && l.cap > 0 && l.maxDuration > 0 && l.issuedAt < l.expiresAt
            && l.kind == r.action.kind && now < l.expiresAt
  {
  }

  /** A lease shown in a decision is honoured when presented back, if and only if it verifies and no earlier
      active lease carries its id. */
  lemma PreviewHonoured(p: Policy, s: State, r: Request, now: int, issuedAt: int, outcome: RoundOutcome)
    requires SortedPeers(s.peers) && s.partition == Partitioned && IsDestructive(r.action)
    requires CanAct(p, s, r.action, now, issuedAt, outcome).verdict.Allow?
    requires r.evidence == Presented(CanAct(p, s, r.action, now, issuedAt, outcome).verdict.lease.value)
    ensures var lease := r.evidence.lease;
            AuthorizePartition(p, s, r, now).result.Ok? <==>
              LeaseVerifies(p, lease) && exists i | 0 <= i < |s.leases| ::
                s.leases[i] == lease && forall j | 0 <= j < i :: s.leases[j].id != lease.id
  {
    hide LeaseVerifies, FirstRedeemable, CanRedeem, Redeem;
    var lease := r.evidence.lease;
    FirstRedeemableFinds(s.leases, r.action, now);
    RedeemMatchesPreview(lease, r.action, now);
    var k := IndexOfLease(s.leases, lease.id);
    assert forall i | 0 <= i < |s.leases| && s.leases[i] == lease ::
      s.leases[i].id == lease.id && ((forall j | 0 <= j < i :: s.leases[j].id != lease.id) ==> i == k);
  }

  // -------------------------------------------------------------------------
  // Staging

  /** The lease covers any scope of the kind, has not expired and has room for another scope. */
  predicate IsOpen(l: Lease, kind: ActionKind, now: int) {
    l.kind == kind && l.scope.None? && now < l.expiresAt && |l.redeemed| < l.cap
  }

  /** A lease of a kind is staged exactly if none is open, there is a key, leases have room and a lifetime, and the
      round commits. */
  lemma StagedExactly(p: Policy, s: State, kind: ActionKind, now: int, outcome: RoundOutcome)
    requires SortedPeers(s.peers)
    ensures StageLease(p, s, kind, now, outcome).leases != s.leases <==>
              && (forall l | l in s.leases :: !IsOpen(l, kind, now))
              && s.key.Some? && p.leaseCap > 0 && p.leaseTtl > 0 && outcome.Ok?
  {
    hide Members, HasOpenLease, IsOpen;
    OpenExactly(s.leases, kind, now);
  }

  lemma OpenExactly(leases: seq<Lease>, kind: ActionKind, now: int)
    ensures HasOpenLease(leases, kind, now) <==> exists l :: l in leases && IsOpen(l, kind, now)
  {
    if HasOpenLease(leases, kind, now) {
      var i :| 0 <= i < |leases| && leases[i].kind == kind && leases[i].scope.None? && now < leases[i].expiresAt
               && |leases[i].redeemed| < leases[i].cap;
      assert leases[i] in leases && IsOpen(leases[i], kind, now);
    }
    if l :| l in leases && IsOpen(l, kind, now) {
      var i :| 0 <= i < |leases| && leases[i] == l;
      assert leases[i].kind == kind;
    }
  }

  /** A staged lease is open, and staging another keeps it. */
  lemma StagingOpens(p: Policy, s: State, kind: ActionKind, now: int, outcome: RoundOutcome)
    requires SortedPeers(s.peers) && s.key.Some? && p.leaseCap > 0 && p.leaseTtl > 0 && outcome.Ok?
    ensures var t := StageLease(p, s, kind, now, outcome);
            && t.key == s.key && s.leases <= t.leases && exists l :: l in t.leases && IsOpen(l, kind, now)
  {
    hide Members;
    var t := StageLease(p, s, kind, now, outcome);
    StagedExactly(p, s, kind, now, outcome);
    if t.leases != s.leases { assert t.leases[|s.leases|] in t.leases && IsOpen(t.leases[|s.leases|], kind, now); }
  }

  lemma {:induction false} StagingOpensAll(
    p: Policy, s: State, kinds: seq<ActionKind>, now: int, outcomes: ActionKind -> RoundOutcome, kind: ActionKind)
    requires SortedPeers(s.peers) && s.key.Some? && p.leaseCap > 0 && p.leaseTtl > 0
    requires kind in kinds && forall k | k in kinds :: outcomes(k).Ok?
    ensures exists l :: l in StageLeases(p, s, kinds, now, outcomes).leases && IsOpen(l, kind, now)
    decreases |kinds|
  {
    hide StageLease, IsOpen;
    var m := StageLease(p, s, kinds[0], now, outcomes(kinds[0]));
    StagingOpens(p, s, kinds[0], now, outcomes(kinds[0]));
    StagePeers(p, s, kinds[0], now, outcomes(kinds[0]));
    if kinds[0] == kind {
      var l :| l in m.leases && IsOpen(l, kind, now);
      StageFrame(p, m, kinds[1..], now, outcomes);
      assert l in StageLeases(p, s, kinds, now, outcomes).leases;
    } else { StagingOpensAll(p, m, kinds[1..], now, outcomes, kind); }
  }

  /** After an observation that ends healthy, with a key, room, a lifetime and rounds that commit, every destructive
      kind has an open lease for the next partition. */
  lemma EveryKindCovered(p: Policy, s: State, call: Call, kind: ActionKind)
    requires SortedPeers(s.peers) && s.key.Some? && p.leaseCap > 0 && p.leaseTtl > 0 && call.Health?
    requires Step(p, s, call).partition == Healthy && kind in DESTRUCTIVE_KINDS
    requires forall k | k in DESTRUCTIVE_KINDS :: call.outcomes(k).Ok?
    ensures exists l :: l in Step(p, s, call).leases && IsOpen(l, kind, call.now)
  {
    hide StageLeases, ObservePartition, Unexpired, IsOpen;
    var t := Observed(s, call.agent, call.entries, call.now);
    ObservedPeers(s, call.agent, call.entries, call.now);
    StageFrame(p, t, DESTRUCTIVE_KINDS, call.now, call.outcomes);
    StagingOpensAll(p, t, DESTRUCTIVE_KINDS, call.now, call.outcomes, kind);
  }

  // -------------------------------------------------------------------------
  // Lease ids

  /** The id of the lease staged for a kind at a time. */
  function IdOf(p: Policy, kind: ActionKind, at: int): string {
    p.leaseIdOf(kind, None, at, at + p.leaseTtl, p.leaseCap)
  }

  ghost predicate IdsDistinct(p: Policy) {
    forall k1, t1, k2, t2 :: IdOf(p, k1, t1) == IdOf(p, k2, t2) ==> k1 == k2 && t1 == t2
  }

  /** A lease as this policy stages it, at one of the observation times in `past`. */
  predicate Staged(p: Policy, l: Lease, past: seq<int>) {
    && l.id == IdOf(p, l.kind, l.issuedAt) && l.issuedAt in past && p.leaseTtl > 0
    && l.expiresAt == l.issuedAt + p.leaseTtl && l.cap == p.leaseCap && |l.redeemed| <= l.cap
  }

  ghost predicate AllStaged(p: Policy, leases: seq<Lease>, past: seq<int>) {
    forall l | l in leases :: Staged(p, l, past)
  }

  /** The lease a redemption under an id uses: the first active one with it. */
  function FirstWith(leases: seq<Lease>, id: string): Option<Lease> {
    var i := IndexOfLease(leases, id);
    if i < |leases| then Some(leases[i]) else None
  }

  lemma FirstWithStep(leases: seq<Lease>, id: string)
    requires leases != []
    ensures FirstWith(leases, id) == if leases[0].id == id then Some(leases[0]) else FirstWith(leases[1..], id)
  {
  }

  lemma {:induction false} FirstAppended(leases: seq<Lease>, l: Lease, id: string)
    ensures FirstWith(leases + [l], id) ==
            if FirstWith(leases, id).Some? then FirstWith(leases, id) else if l.id == id then Some(l) else None
  {
    hide FirstWith;
    FirstWithStep(leases + [l], id);
    if leases == [] { FirstWithOne(l, id); }
    else {
      FirstWithStep(leases, id);
      FirstAppended(leases[1..], l, id);
      assert (leases + [l])[1..] == leases[1..] + [l];
    }
  }

  lemma FirstWithOne(l: Lease, id: string)
    ensures FirstWith([], id) == None && FirstWith([] + [l], id) == if l.id == id then Some(l) else None
  {
  }

  lemma FirstWithFinds(leases: seq<Lease>, id: string)
    ensures FirstWith(leases, id).Some?
            ==> FirstWith(leases, id).value in leases && FirstWith(leases, id).value.id == id
  {
  }

  lemma {:induction false} UnexpiredWithin(leases: seq<Lease>, now: int)
    ensures forall l | l in Unexpired(leases, now) :: l in leases && now < l.expiresAt
  {
    if leases != [] { UnexpiredWithin(leases[1..], now); }
  }

  lemma SameIdSameExpiry(p: Policy, a: Lease, b: Lease, past: seq<int>)
    requires IdsDistinct(p) && Staged(p, a, past) && Staged(p, b, past) && a.id == b.id
    ensures a.expiresAt == b.expiresAt
  {
    hide IdOf;
  }

  /** Pruning drops all leases with an id together, as they expire together. */
  lemma {:induction false} FirstUnexpired(p: Policy, leases: seq<Lease>, now: int, past: seq<int>, id: string)
    requires IdsDistinct(p) && AllStaged(p, leases, past)
    ensures FirstWith(Unexpired(leases, now), id) ==
            if FirstWith(leases, id).Some? && now < FirstWith(leases, id).value.expiresAt then FirstWith(leases, id)
            else None
  {
    hide FirstWith, IdsDistinct, Staged;
    if leases == [] { assert FirstWith([], id) == None by { FirstWithNone(id); } }
    else {
      var rest := Unexpired(leases[1..], now);
      FirstUnexpired(p, leases[1..], now, past, id);
      FirstWithStep(leases, id);
      FirstWithStep([leases[0]] + rest, id);
      assert ([leases[0]] + rest)[1..] == rest && [] + rest == rest;
      FirstWithFinds(leases[1..], id);
      if FirstWith(leases[1..], id).Some? && leases[0].id == id {
        SameIdSameExpiry(p, leases[0], FirstWith(leases[1..], id).value, past);
      }
    }
  }

  lemma FirstWithNone(id: string)
    ensures FirstWith([], id) == None
  {
  }

  // -------------------------------------------------------------------------
  // Scopes granted under an id

  predicate GrantsUnder(r: Record, id: string) { r.authorized && r.leaseId == Some(id) }

  function GrantKey(r: Record): string { ScopeKey(Action(r.kind, r.scope)) }

  /** The distinct scopes authorized under a lease id. */
  function GrantedUnder(records: seq<Record>, id: string): set<string> {
    set i | 0 <= i < |records| && GrantsUnder(records[i], id) :: GrantKey(records[i])
  }

  lemma GrantedAppended(records: seq<Record>, r: Record, id: string)
    ensures GrantedUnder(records + [r], id)
            == GrantedUnder(records, id) + if GrantsUnder(r, id) then {GrantKey(r)} else {}
  {
    hide GrantsUnder, GrantKey;
    var all := records + [r];
    forall x | x in GrantedUnder(records, id) ensures x in GrantedUnder(all, id) {
      var i :| 0 <= i < |records| && GrantsUnder(records[i], id) && GrantKey(records[i]) == x;
      assert all[i] == records[i];
    }
    assert all[|records|] == r;
  }

  // -------------------------------------------------------------------------
  // Observation times

  /** The times of the observations of a run, in order. */
  function Times(calls: seq<Call>): seq<int> {
    if calls == [] then []
    else
      var call := calls[|calls| - 1];
      Times(calls[..|calls| - 1]) + if call.Health? then [call.now] else []
  }

  /** The instant observed at `i` is observed again at `k`, a lifetime or more having passed at `j` in between, and
      after both the next observation falls within the lifetime. */
  predicate Relapse(ttl: int, past: seq<int>, i: nat, j: nat, k: nat) {
    && i < j < k && k + 1 < |past| && past[i] == past[k] && past[i] + ttl <= past[j]
    && past[i + 1] < past[i] + ttl && past[k + 1] < past[k] + ttl
  }

  /** Leases are staged at all, and an instant relapses. */
  ghost predicate Relapses(p: Policy, past: seq<int>) {
    p.leaseCap > 0 && p.leaseTtl > 0 && exists i, j, k :: Relapse(p.leaseTtl, past, i, j, k)
  }

  lemma RelapsesStay(p: Policy, past: seq<int>, more: seq<int>)
    requires Relapses(p, past)
    ensures Relapses(p, past + more)
  {
    var i, j, k :| Relapse(p.leaseTtl, past, i, j, k);
    assert Relapse(p.leaseTtl, past + more, i, j, k);
  }

  // -------------------------------------------------------------------------
  // The invariant

  /** In this phase, a lease that was redeemed has seen at least so many observations since it was staged. */
  function Lag(phase: PartitionState): nat {
    match phase case Partitioned => 1 case Healing => 2 case _ => 3
  }

  /** The lease was staged at the observation `i` and has outlived every later one.  A policy whose last observation
      staged it is phase, and a lease once redeemed has been through a partition. */
  predicate Placed(l: Lease, past: seq<int>, phase: PartitionState, i: nat) {
    && i < |past| && past[i] == l.issuedAt && (forall m | i < m < |past| :: past[m] < l.expiresAt)
    && (i + 1 == |past| ==> phase == Healthy) && (l.redeemed != [] ==> i + Lag(phase) < |past|)
  }

  ghost predicate IsPlaced(l: Lease, past: seq<int>, phase: PartitionState) { exists i :: Placed(l, past, phase, i) }

  ghost predicate AllPlaced(leases: seq<Lease>, past: seq<int>, phase: PartitionState) {
    forall l | l in leases :: IsPlaced(l, past, phase)
  }

  /** The id is of a lease of the instant observed at `i`, which outlived the next observation and not that at `j`. */
  predicate RetiredAt(p: Policy, id: string, past: seq<int>, kind: ActionKind, i: nat, j: nat) {
    && i < j < |past| && id == IdOf(p, kind, past[i])
    && past[i + 1] < past[i] + p.leaseTtl && past[i] + p.leaseTtl <= past[j]
  }

  ghost predicate Retired(p: Policy, id: string, past: seq<int>) {
    exists kind, i, j :: RetiredAt(p, id, past, kind, i, j)
  }

  /** What was granted under an id is recorded in its active lease, or within the cap under a lease that expired,
      and no other with its id has been redeemed since. */
  ghost predicate Covered(p: Policy, active: Option<Lease>, granted: set<string>, id: string, past: seq<int>) {
    || granted == {}
    || (active.Some? && forall x | x in granted :: x in active.value.redeemed)
    || ((active.Some? ==> active.value.redeemed == []) && Retired(p, id, past) && |granted| <= p.leaseCap)
  }

  /** Every authorized record names a lease staged for its kind and not yet expired. */
  ghost predicate Justified(p: Policy, r: Record) {
    r.authorized ==> exists at :: r.leaseId == Some(IdOf(p, r.kind, at)) && r.at < at + p.leaseTtl
  }

  ghost predicate WithinRadius(
    p: Policy, leases: seq<Lease>, records: seq<Record>, past: seq<int>, phase: PartitionState) {
    && AllStaged(p, leases, past) && AllPlaced(leases, past, phase)
    && (!Relapses(p, past) ==> forall id :: Covered(p, FirstWith(leases, id), GrantedUnder(records, id), id, past))
    && forall r | r in records :: Justified(p, r)
  }

  lemma {:induction false} SizeOfElements(xs: seq<string>, s: set<string>)
    requires forall x | x in s :: x in xs
    ensures |s| <= |xs|
  {
    if xs != [] {
      assert forall x | x in s - {xs[0]} :: x in xs[1..];
      SizeOfElements(xs[1..], s - {xs[0]});
    } else { assert s == {}; }
  }

  lemma CoveredWithinCap(
    p: Policy, leases: seq<Lease>, records: seq<Record>, past: seq<int>, phase: PartitionState, id: string)
    requires WithinRadius(p, leases, records, past, phase) && !Relapses(p, past)
    ensures |GrantedUnder(records, id)| <= p.leaseCap
  {
    hide Retired, GrantedUnder, IdOf, AllPlaced, Relapses;
    var granted := GrantedUnder(records, id);
    assert Covered(p, FirstWith(leases, id), granted, id, past);
    if FirstWith(leases, id).Some? && forall x | x in granted :: x in FirstWith(leases, id).value.redeemed {
      var l := FirstWith(leases, id).value;
      assert l in leases;
      SizeOfElements(l.redeemed, granted);
    }
  }

  // -------------------------------------------------------------------------
  // Steps

  lemma RetiredStays(p: Policy, id: string, past: seq<int>, now: int)
    requires Retired(p, id, past)
    ensures Retired(p, id, past + [now])
  {
    hide IdOf;
    var kind, i, j :| RetiredAt(p, id, past, kind, i, j);
    assert RetiredAt(p, id, past + [now], kind, i, j);
  }

  /** A redeemed lease that expires retires its id. */
  lemma RetiresNow(p: Policy, l: Lease, past: seq<int>, phase: PartitionState, now: int)
    requires Staged(p, l, past) && IsPlaced(l, past, phase)
    requires l.redeemed != [] && l.expiresAt <= now
    ensures Retired(p, l.id, past + [now])
  {
    hide IdOf;
    var i :| Placed(l, past, phase, i);
    assert RetiredAt(p, l.id, past + [now], l.kind, i, |past|);
  }

  lemma StillPlaced(l: Lease, past: seq<int>, phase: PartitionState, now: int, after: PartitionState)
    requires IsPlaced(l, past, phase) && now < l.expiresAt && Lag(after) <= Lag(phase) + 1
    ensures IsPlaced(l, past + [now], after)
  {
    var i :| Placed(l, past, phase, i);
    assert Placed(l, past + [now], after, i);
  }

  /** Leases expire at an observation. */
  lemma PruneKeeps(
    p: Policy, leases: seq<Lease>, records: seq<Record>, past: seq<int>, phase: PartitionState, now: int,
    after: PartitionState)
    requires IdsDistinct(p) && WithinRadius(p, leases, records, past, phase) && Lag(after) <= Lag(phase) + 1
    ensures WithinRadius(p, Unexpired(leases, now), records, past + [now], after)
  {
    hide FirstWith, GrantedUnder, Justified, IdsDistinct, Unexpired, IdOf, IsPlaced, Retired, Relapses;
    if Relapses(p, past) { RelapsesStay(p, past, [now]); }
    UnexpiredWithin(leases, now);
    forall l | l in Unexpired(leases, now) ensures IsPlaced(l, past + [now], after) {
      StillPlaced(l, past, phase, now, after);
    }
    forall id | !Relapses(p, past)
      ensures Covered(p, FirstWith(Unexpired(leases, now), id), GrantedUnder(records, id), id, past + [now]) {
      FirstUnexpired(p, leases, now, past, id);
      FirstWithFinds(leases, id);
      CoveredWithinCap(p, leases, records, past, phase, id);
      assert Covered(p, FirstWith(leases, id), GrantedUnder(records, id), id, past);
      if Retired(p, id, past) { RetiredStays(p, id, past, now); }
      if FirstWith(leases, id).Some? {
        var l := FirstWith(leases, id).value;
        if l.redeemed != [] && l.expiresAt <= now { RetiresNow(p, l, past, phase, now); }
      }
    }
  }

  lemma StageKeeps(
    p: Policy, s: State, records: seq<Record>, past: seq<int>, kind: ActionKind, now: int, outcome: RoundOutcome)
    requires SortedPeers(s.peers) && WithinRadius(p, s.leases, records, past + [now], Healthy)
    ensures WithinRadius(p, StageLease(p, s, kind, now, outcome).leases, records, past + [now], Healthy)
  {
    hide FirstWith, GrantedUnder, Justified, IdOf, HasOpenLease, Retired, StageLease, IsPlaced, Staged, Relapses;
    var t := StageLease(p, s, kind, now, outcome);
    if t.leases != s.leases {
      StagedNow(p, s, past, kind, now, outcome);
      var l := t.leases[|s.leases|];
      assert forall x | x in t.leases :: x in s.leases || x == l;
      forall id | !Relapses(p, past + [now])
        ensures Covered(p, FirstWith(t.leases, id), GrantedUnder(records, id), id, past + [now]) {
        FirstAppended(s.leases, l, id);
        assert Covered(p, FirstWith(s.leases, id), GrantedUnder(records, id), id, past + [now]);
      }
    }
  }

  lemma StagedNow(p: Policy, s: State, past: seq<int>, kind: ActionKind, now: int, outcome: RoundOutcome)
    requires SortedPeers(s.peers) && StageLease(p, s, kind, now, outcome).leases != s.leases
    ensures var t := StageLease(p, s, kind, now, outcome);
            && |t.leases| == |s.leases| + 1 && t.leases == s.leases + [t.leases[|s.leases|]]
            && var l := t.leases[|s.leases|];
               l.redeemed == [] && Staged(p, l, past + [now]) && IsPlaced(l, past + [now], Healthy)
  {
    hide HasOpenLease, Members;
    var t := StageLease(p, s, kind, now, outcome);
    assert Placed(t.leases[|s.leases|], past + [now], Healthy, |past|);
  }

  lemma {:induction false} StageAllKeep(
    p: Policy, s: State, records: seq<Record>, past: seq<int>, kinds: seq<ActionKind>, now: int,
    outcomes: ActionKind -> RoundOutcome)
    requires SortedPeers(s.peers) && WithinRadius(p, s.leases, records, past + [now], Healthy)
    ensures WithinRadius(p, StageLeases(p, s, kinds, now, outcomes).leases, records, past + [now], Healthy)
    decreases |kinds|
  {
    hide StageLease, WithinRadius;
    if kinds != [] {
      StageKeeps(p, s, records, past, kinds[0], now, outcomes(kinds[0]));
      StagePeers(p, s, kinds[0], now, outcomes(kinds[0]));
      StageAllKeep(p, StageLease(p, s, kinds[0], now, outcomes(kinds[0])), records, past, kinds[1..], now, outcomes);
    }
  }

  lemma HealthKeeps(p: Policy, s: State, records: seq<Record>, past: seq<int>, call: Call)
    requires SortedPeers(s.peers) && IdsDistinct(p) && call.Health?
    requires WithinRadius(p, s.leases, records, past, s.partition)
    ensures var t := Step(p, s, call);
            WithinRadius(p, t.leases, records, past + [call.now], t.partition)
  {
    hide WithinRadius, IdsDistinct, StageLeases, BaseState, UnhealthyOf, ReportOf, Trimmed, Unexpired, HealthyGovernors;
    var s1 := ObservePartition(s, call.agent, call.entries, call.now);
    var s2 := s1.(leases := Unexpired(s1.leases, call.now));
    PruneKeeps(p, s.leases, records, past, s.partition, call.now, s1.partition);
    if s2.partition == Healthy {
      StageAllKeep(p, s2, records, past, DESTRUCTIVE_KINDS, call.now, call.outcomes);
      StageFrame(p, s2, DESTRUCTIVE_KINDS, call.now, call.outcomes);
    }
  }

  lemma AuthorizeLeases(p: Policy, s: State, r: Request, now: int)
    ensures var answer := AuthorizePartition(p, s, r, now);
            if answer.result.Ok? && answer.result.value.Some? then
              var i := IndexOfLease(s.leases, answer.result.value.value.id);
              && i < |s.leases| && Redeem(s.leases[i], r.action, now) == Ok(answer.result.value.value)
              && answer.state.leases == s.leases[i := answer.result.value.value]
              && s.partition == Partitioned
            else answer.state.leases == s.leases
  {
    hide LeaseVerifies;
  }

  lemma {:induction false} FirstUpdated(leases: seq<Lease>, i: nat, l: Lease, id: string)
    requires i < |leases| && leases[i].id == l.id && IndexOfLease(leases, l.id) == i
    ensures FirstWith(leases[i := l], id) == if id == l.id then Some(l) else FirstWith(leases, id)
  {
    hide FirstWith;
    FirstWithStep(leases, id);
    FirstWithStep(leases[i := l], id);
    if i > 0 {
      FirstUpdated(leases[1..], i - 1, l, id);
      assert leases[i := l][1..] == leases[1..][i - 1 := l];
    } else {
      assert leases[i := l][1..] == leases[1..];
    }
  }

  /** In a partition, an active lease whose id retired earlier was staged at a relapse. */
  lemma RetiredRelapses(p: Policy, l: Lease, past: seq<int>)
    requires IdsDistinct(p) && Staged(p, l, past) && IsPlaced(l, past, Partitioned) && Retired(p, l.id, past)
    ensures p.leaseCap > 0 ==> Relapses(p, past)
  {
    hide IdOf;
    var k: nat :| Placed(l, past, Partitioned, k);
    var kind, i: nat, j: nat :| RetiredAt(p, l.id, past, kind, i, j);
    assert past[i] == past[k];
    assert Relapse(p.leaseTtl, past, i, j, k);
  }

  /** Redeeming keeps a lease as staged. */
  lemma RedeemedPlaced(p: Policy, l: Lease, l': Lease, past: seq<int>)
    requires l' == l.(redeemed := l'.redeemed) && |l'.redeemed| <= l.cap
    requires Staged(p, l, past) && IsPlaced(l, past, Partitioned)
    ensures Staged(p, l', past) && IsPlaced(l', past, Partitioned)
  {
    hide IdOf;
    var i :| Placed(l, past, Partitioned, i);
    assert Placed(l', past, Partitioned, i);
  }

  /** An authorized request adds one scope, and the lease records it. */
  lemma ScopeCovered(
    p: Policy, leases: seq<Lease>, records: seq<Record>, note: Record, l: Lease, past: seq<int>, id: string)
    requires IdsDistinct(p) && !Relapses(p, past) && WithinRadius(p, leases, records, past, Partitioned)
    requires var i := IndexOfLease(leases, l.id);
             && i < |leases| && leases[i].redeemed <= l.redeemed && GrantKey(note) in l.redeemed
             && |l.redeemed| <= p.leaseCap
    requires GrantsUnder(note, id) <==> id == l.id
    ensures Covered(p, FirstWith(leases[IndexOfLease(leases, l.id) := l], id), GrantedUnder(records + [note], id), id,
                    past)
  {
    hide FirstWith, GrantedUnder, IdOf, IndexOfLease, Retired, IdsDistinct, Relapses, IsPlaced, Justified, GrantKey,
         GrantsUnder, Staged;
    var i := IndexOfLease(leases, l.id);
    assert leases[i] in leases;
    FirstIs(leases, l.id);
    assert Covered(p, FirstWith(leases, id), GrantedUnder(records, id), id, past);
    FirstUpdated(leases, i, l, id);
    GrantedAppended(records, note, id);
    assert |l.redeemed| > 0;
    if id == l.id && Retired(p, id, past) { RetiredRelapses(p, leases[i], past); }
  }

  /** What a redemption leaves in the lease and in the record. */
  lemma RedeemedNote(p: Policy, l: Lease, l': Lease, r: Request, now: int, past: seq<int>)
    requires Staged(p, l, past) && Redeem(l, r.action, now) == Ok(l')
    ensures var note := Note(r, true, AuthorizedByLease, Some(l'.id), now);
            && l' == l.(redeemed := l'.redeemed) && l.redeemed <= l'.redeemed && |l'.redeemed| <= p.leaseCap
            && GrantKey(note) in l'.redeemed && Justified(p, note)
              && (forall id :: GrantsUnder(note, id) <==> id == l'.id)
  {
    hide IdOf;
    var note := Note(r, true, AuthorizedByLease, Some(l'.id), now);
    assert note.leaseId == Some(IdOf(p, note.kind, l.issuedAt));
  }

  lemma RedeemKeeps(
    p: Policy, leases: seq<Lease>, records: seq<Record>, r: Request, l: Lease, now: int, past: seq<int>)
    requires IdsDistinct(p) && WithinRadius(p, leases, records, past, Partitioned)
    requires IndexOfLease(leases, l.id) < |leases| && Redeem(leases[IndexOfLease(leases, l.id)], r.action, now) == Ok(l)
    ensures WithinRadius(p, leases[IndexOfLease(leases, l.id) := l],
                         records + [Note(r, true, AuthorizedByLease, Some(l.id), now)], past, Partitioned)
  {
    hide FirstWith, GrantedUnder, IndexOfLease, IdsDistinct, Relapses, IsPlaced, Covered, Redeem, Justified, Staged,
         Note,
         GrantKey, GrantsUnder;
    var i := IndexOfLease(leases, l.id);
    var note := Note(r, true, AuthorizedByLease, Some(l.id), now);
    assert leases[i] in leases;
    RedeemedNote(p, leases[i], l, r, now, past);
    StagedCap(p, leases[i], past);
    RedeemedPlaced(p, leases[i], l, past);
    assert forall x | x in leases[i := l] :: x in leases || x == l;
    assert forall x | x in records + [note] :: x in records || x == note;
    forall id | !Relapses(p, past)
      ensures Covered(p, FirstWith(leases[i := l], id), GrantedUnder(records + [note], id), id, past) {
      ScopeCovered(p, leases, records, note, l, past, id);
    }
  }

  lemma StagedCap(p: Policy, l: Lease, past: seq<int>)
    requires Staged(p, l, past)
    ensures l.cap == p.leaseCap
  {
  }

  lemma FirstIs(leases: seq<Lease>, id: string)
    requires IndexOfLease(leases, id) < |leases|
    ensures FirstWith(leases, id) == Some(leases[IndexOfLease(leases, id)])
  {
  }

  /** A record that authorizes nothing. */
  lemma RefusalKeeps(
    p: Policy, leases: seq<Lease>, records: seq<Record>, note: Record, past: seq<int>, phase: PartitionState)
    requires WithinRadius(p, leases, records, past, phase) && !note.authorized
    ensures WithinRadius(p, leases, records + [note], past, phase)
  {
    hide FirstWith, GrantedUnder, IdOf, Covered, Staged, AllPlaced, Relapses;
    forall id ensures GrantedUnder(records + [note], id) == GrantedUnder(records, id) {
      GrantedAppended(records, note, id);
    }
  }

  lemma AuthorizeKeeps(p: Policy, s: State, records: seq<Record>, r: Request, now: int, past: seq<int>)
    requires IdsDistinct(p) && WithinRadius(p, s.leases, records, past, s.partition)
    ensures var answer := AuthorizePartition(p, s, r, now);
            WithinRadius(p, answer.state.leases, records + RecordOf(r, answer.result, now), past, s.partition)
  {
    hide WithinRadius, AuthorizePartition, IndexOfLease, Redeem, LeaseNamed, IdsDistinct;
    var answer := AuthorizePartition(p, s, r, now).result;
    AuthorizeLeases(p, s, r, now);
    match answer
    case Ok(None) => assert records + [] == records;
    case Ok(Some(l)) => RedeemKeeps(p, s.leases, records, r, l, now, past);
    case Err(reason) =>
      RefusalKeeps(p, s.leases, records, Note(r, false, reason, LeaseNamed(r, reason), now), past,
                   s.partition);
  }

  lemma StepKeepsRadius(p: Policy, s: State, records: seq<Record>, call: Call, past: seq<int>)
    requires SortedPeers(s.peers) && IdsDistinct(p)
    requires WithinRadius(p, s.leases, records, past, s.partition)
    ensures var t := Step(p, s, call);
            WithinRadius(p, t.leases, records + RecordedBy(p, s, call), past + if call.Health? then [call.now] else [],
                         t.partition)
  {
    hide WithinRadius, IdsDistinct, AuthorizePartition, ObserveHealth, FirstRedeemable, RecordOf, Members;
    assert records + [] == records && past + [] == past;
    match call
    case Health(_, _, _, _) => HealthKeeps(p, s, records, past, call);
    case Authorize(r, now) =>
      AuthorizeKeeps(p, s, records, r, now, past);
      AuthorizeRecords(p, s, r, now);
    case NoteVetoed(r, text, now) =>
      RefusalKeeps(p, s.leases, records, Note(r, false, Vetoed(text), r.leaseIdText, now), past,
                   s.partition);
    case _ =>
  }

  // -------------------------------------------------------------------------
  // Runs

  /** Every record made over a run, in order. */
  ghost function AllRecords(p: Policy, calls: seq<Call>): seq<Record> {
    if calls == [] then []
    else
      var front := calls[..|calls| - 1];
      AllRecords(p, front) + RecordedBy(p, Run(p, INITIAL_STATE, front), calls[|calls| - 1])
  }

  lemma {:induction false} RunWithinRadius(p: Policy, calls: seq<Call>)
    requires IdsDistinct(p)
    ensures var s := Run(p, INITIAL_STATE, calls);
            WithinRadius(p, s.leases, AllRecords(p, calls), Times(calls), s.partition)
  {
    hide WithinRadius, IdsDistinct, Step, RecordedBy;
    if calls == [] { NothingGranted(p); }
    else {
      var front, call := calls[..|calls| - 1], calls[|calls| - 1];
      RunWithinRadius(p, front);
      StepKeepsRadius(p, Run(p, INITIAL_STATE, front), AllRecords(p, front), call, Times(front));
    }
  }

  lemma NothingGranted(p: Policy)
    ensures WithinRadius(p, [], [], [], Healthy)
  {
    assert forall id :: GrantedUnder([], id) == {};
  }

  /**
   The blast radius.  Over every run with distinct lease ids, whatever way its rounds end: every authorized record
   names a lease staged for its kind that had not expired when the record was made; and unless the observation times
   relapse, the number of distinct scopes authorized under one lease id never exceeds the configured cap.
   */
  lemma BlastRadius(p: Policy, calls: seq<Call>, id: string)
    requires IdsDistinct(p)
    ensures !Relapses(p, Times(calls)) ==> |GrantedUnder(AllRecords(p, calls), id)| <= p.leaseCap
    ensures forall r | r in AllRecords(p, calls) :: Justified(p, r)
  {
    hide Run, AllRecords, IdsDistinct, GrantedUnder, Justified, FirstWith, Covered, Staged, AllPlaced, Times, Relapses;
    var s := Run(p, INITIAL_STATE, calls);
    RunWithinRadius(p, calls);
    if !Relapses(p, Times(calls)) {
      CoveredWithinCap(p, s.leases, AllRecords(p, calls), Times(calls), s.partition, id);
    }
  }

  /** A clock that never runs backwards never relapses. */
  lemma SteadyClock(p: Policy, past: seq<int>)
    requires forall i, j | 0 <= i < j < |past| :: past[i] <= past[j]
    ensures !Relapses(p, past)
  {
  }
}
