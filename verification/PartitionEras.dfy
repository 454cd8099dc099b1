/**
 Partitions, in terms of the calls made: when an observation leads into one, what it announces, how every
 destructive request during one is recorded, and that every record of an era ends in exactly one report.
 */
module PartitionEras {
  import opened Wrappers
  import opened ConsensusModel
  import opened ConsensusNodes
  import opened GovernanceModel
  import opened GovernanceRuns

  // -------------------------------------------------------------------------
  // Records, read off the answers given to callers

  /** The lease a refusal names: none when no lease of this policy was recognised. */
  function LeaseNamed(r: Request, reason: Reason): Option<string> {
    if r.evidence.Presented? && reason in {UnverifiedLease, NotCovered, Expired, CapExceeded}
    then Some(r.evidence.lease.id) else None
  }

  function RecordOf(r: Request, answer: Result<Option<Lease>, Reason>, now: int): seq<Record> {
    match answer
    case Err(reason) => [Note(r, false, reason, LeaseNamed(r, reason), now)]
    case Ok(Some(lease)) => [Note(r, true, AuthorizedByLease, Some(lease.id), now)]
    case Ok(None) => []
  }

  /** The records a call is due: one per answered destructive request and per veto during a partition. */
  function RecordedBy(p: Policy, s: State, call: Call): seq<Record> {
    match call
    case Authorize(request, now) => RecordOf(request, AuthorizePartition(p, s, request, now).result, now)
    case NoteVetoed(request, text, now) =>
      if s.partition == Partitioned then [Note(request, false, Vetoed(text), request.leaseIdText, now)] else []
    case _ => []
  }

  function Reported(notices: seq<Notice>): seq<Report> {
    if notices == [] then []
    else (if notices[0].Reconciliation? then [notices[0].report] else []) + Reported(notices[1..])
  }

  /** The reports a call announces: those among the notices it adds. */
  function ReportedBy(p: Policy, s: State, call: Call): seq<Report>
    requires SortedPeers(s.peers)
  {
    var t := Step(p, s, call);
    if s.notices <= t.notices then Reported(t.notices[|s.notices|..]) else []
  }

  // -------------------------------------------------------------------------
  // Steps

  lemma ActivityGrows(p: Policy, s: State, call: Call)
    requires SortedPeers(s.peers) && !call.Health?
    ensures var t := Step(p, s, call);
            && t.activity == s.activity + RecordedBy(p, s, call)
            && t.partition == s.partition && t.partitionStartedAt == s.partitionStartedAt && t.reports == s.reports
            && (s.partition != Partitioned ==> RecordedBy(p, s, call) == [])
  {
    hide FirstRedeemable, AuthorizePartition, Members;
    if call.Authorize? { AuthorizeRecords(p, s, call.request, call.now); }
  }

  lemma AuthorizeRecords(p: Policy, s: State, r: Request, now: int)
    ensures var answer := AuthorizePartition(p, s, r, now);
            && answer.state
              == s.(leases := answer.state.leases, activity := s.activity + RecordOf(r, answer.result, now))
            && (s.partition != Partitioned ==> answer.result == Ok(None))
  {
    hide LeaseVerifies, IndexOfLease;
  }

  /** Each destructive request answered during a partition is recorded exactly once, under its own names and time,
      authorized if and only if the answer was a lease, with that lease or the reason of the refusal.  A refusal names
      the lease presented once that has been found to verify and be active, or has been found not to verify. */
  lemma AnsweredOnce(p: Policy, s: State, r: Request, now: int)
    requires s.partition == Partitioned && IsDestructive(r.action) && SortedPeers(s.peers)
    ensures var answer := AuthorizePartition(p, s, r, now);
            && |answer.state.activity| == |s.activity| + 1 && s.activity <= answer.state.activity
            && answer.result != Ok(None)
            && var last := answer.state.activity[|s.activity|];
               && (last.authorized <==> answer.result.Ok?)
               && last.at == now && last.hunt == r.hunt && last.requestedBy == r.requestedBy
               && last.kind == r.action.kind && last.scope == r.action.scope
               && match answer.result
                  case Ok(lease) => last.reason == AuthorizedByLease && last.leaseId == Some(lease.value.id)
                  case Err(reason) =>
                    && last.reason == reason
                    && last.leaseId ==
                       if reason in {UnverifiedLease, NotCovered, Expired, CapExceeded} then Some(r.evidence.lease.id)
                       else None
  {
    hide LeaseVerifies, IndexOfLease;
  }

  /** Only an observation moves the partition state.  Leaving `Partitioned` leads to `Healing` and announces
      one report, of all the activity; nothing else, of any kind of call, announces a report. */
  lemma LeavesThroughHealing(p: Policy, s: State, call: Call)
    requires SortedPeers(s.peers)
    ensures var t := Step(p, s, call);
            && (t.partition != s.partition ==> call.Health?)
            && (if s.partition == Partitioned && t.partition != Partitioned then
                  && t.partition == Healing && t.activity == []
                  && ReportedBy(p, s, call) == [ReportOf(s, call.now)]
                  && t.reports == Trimmed(s.reports + [ReportOf(s, call.now)])
                else
                  && t.activity == s.activity + RecordedBy(p, s, call)
                  && ReportedBy(p, s, call) == [] && t.reports == s.reports)
            && (s.partition != Partitioned && t.partition == Partitioned ==> t.partitionStartedAt == Some(call.now))
            && (s.partition == Partitioned && t.partition == Partitioned
                ==> t.partitionStartedAt == s.partitionStartedAt)
  {
    hide Step, RecordedBy, ReportedBy, Trimmed, Split, Reported, AuthorizePartition;
    if call.Health? {
      HealthLeaves(p, s, call);
      HealthRecordsNothing(p, s, call);
      assert s.activity + [] == s.activity;
    } else {
      ActivityGrows(p, s, call);
      NothingReported(p, s, call);
    }
  }

  lemma HealthLeaves(p: Policy, s: State, call: Call)
    requires SortedPeers(s.peers) && call.Health?
    ensures var t := Step(p, s, call);
            && (s.partition == Partitioned && t.partition != Partitioned ==>
                  && t.partition == Healing && t.activity == []
                  && ReportedBy(p, s, call) == [ReportOf(s, call.now)]
                  && t.reports == Trimmed(s.reports + [ReportOf(s, call.now)]))
            && (!(s.partition == Partitioned && t.partition != Partitioned) ==>
                  t.activity == s.activity && ReportedBy(p, s, call) == [] && t.reports == s.reports)
            && (s.partition != Partitioned && t.partition == Partitioned ==> t.partitionStartedAt == Some(call.now))
            && (s.partition == Partitioned && t.partition == Partitioned
                ==> t.partitionStartedAt == s.partitionStartedAt)
  {
    hide ObserveHealth, BaseState, UnhealthyOf, Trimmed, Split, Unexpired, HealthyGovernors, TotalGovernors,
         QuorumThreshold, Reported;
    HealthFrame(p, s, call.agent, call.entries, call.now, call.outcomes);
    var t, s1 := Step(p, s, call), ObservePartition(s, call.agent, call.entries, call.now);
    assert t.notices == s1.notices;
    var added := t.notices[|s.notices|..];
    forall n: Notice ensures Reported([n]) == if n.Reconciliation? then [n.report] else [] { ReportedOne(n); }
    ReportedNone();
    forall m: Notice, n: Notice ensures Reported([m, n]) == Reported([m]) + Reported([n]) { ReportedTwo(m, n); }
    if s.partition == Partitioned && t.partition != Partitioned {
      assert added == [added[0], added[1]];
    } else if s.partition != t.partition {
      assert added == [added[0]];
    }
  }

  lemma {:induction false} NoneUnhealthy(entries: seq<HealthEntry>)
    ensures UnhealthyOf(entries) == [] <==> forall i | 0 <= i < |entries| :: entries[i].health == IsHealthy
  {
    if entries != [] {
      NoneUnhealthy(entries[1..]);
      assert entries == [entries[0]] + entries[1..];
    }
  }

  // -------------------------------------------------------------------------
  // Observations

  /** The positions of entries that find an agent of `agents` anything but healthy. */
  function UnhealthyAt(entries: seq<HealthEntry>, agents: set<AgentId>): set<nat> {
    set i: nat | i < |entries| && entries[i].health != IsHealthy && entries[i].id in agents
  }

  lemma {:induction false} UnhealthyAppended(
    entries: seq<HealthEntry>, e: HealthEntry, display: map<AgentId, AgentId>)
    ensures UnhealthyGovernors(entries + [e], display)
            == UnhealthyGovernors(entries, display) + if e.health != IsHealthy && e.id in display then 1 else 0
  {
    var all := entries + [e];
    if entries == [] { assert all[1..] == []; }
    else {
      UnhealthyAppended(entries[1..], e, display);
      assert all[1..] == entries[1..] + [e];
    }
  }

  lemma {:induction false} UnhealthyCount(entries: seq<HealthEntry>, display: map<AgentId, AgentId>)
    ensures UnhealthyGovernors(entries, display) == |UnhealthyAt(entries, display.Keys)|
  {
    if entries == [] { assert UnhealthyAt(entries, display.Keys) == {}; }
    else {
      var n := |entries| - 1;
      var front, e := entries[..n], entries[n];
      UnhealthyCount(front, display);
      UnhealthyAppended(front, e, display);
      assert entries == front + [e];
      assert UnhealthyAt(entries, display.Keys)
        == UnhealthyAt(front, display.Keys) + if e.health != IsHealthy && e.id in display then {n} else {};
    }
  }

  function Larger(a: nat, b: nat): nat { if a >= b then a else b }

  /** How many governors there are after the calls, by registered agents or by identities. */
  function GovernorsIn(calls: seq<Call>): nat { Larger(|Displayed(calls)|, |Governors(calls)|) }

  /** How many of them the entries leave healthy. */
  function HealthyIn(calls: seq<Call>, entries: seq<HealthEntry>): nat {
    Larger(GovernorsIn(calls), |UnhealthyAt(entries, Displayed(calls))|) - |UnhealthyAt(entries, Displayed(calls))|
  }

  /** How many are a quorum. */
  function QuorumIn(calls: seq<Call>): nat {
    if GovernorsIn(calls) == 0 then 0 else 2 * RecommendedMaxFaulty(GovernorsIn(calls)) + 1
  }

  lemma Assesses(p: Policy, calls: seq<Call>, entries: seq<HealthEntry>)
    ensures var s := Run(p, INITIAL_STATE, calls);
            && TotalGovernors(s) == GovernorsIn(calls) && HealthyGovernors(s, entries) == HealthyIn(calls, entries)
            && QuorumThreshold(TotalGovernors(s)) == QuorumIn(calls)
            && BaseState(s, entries) ==
               if HealthyIn(calls, entries) < QuorumIn(calls) then Partitioned
               else if forall i | 0 <= i < |entries| :: entries[i].health == IsHealthy then Healthy
               else Degraded
  {
    hide Run, Displayed, Governors, UnhealthyAt, UnhealthyGovernors, TotalGovernors, RecommendedMaxFaulty, UnhealthyOf;
    var s := Run(p, INITIAL_STATE, calls);
    RunGovernors(p, calls);
    RunDisplay(p, calls);
    UnhealthyCount(entries, s.display);
    NoneUnhealthy(entries);
  }

  /** Where an observation after any run leads: into a partition exactly when the governors it leaves healthy are no
      quorum of all, never while at most the tolerated number is unhealthy; out of one into healing; otherwise to
      healthy or degraded by whether every agent is healthy. */
  lemma PartitionExactly(p: Policy, calls: seq<Call>, call: Call)
    requires call.Health?
    ensures var s, t := Run(p, INITIAL_STATE, calls), Run(p, INITIAL_STATE, calls + [call]);
            var total, bad := GovernorsIn(calls), |UnhealthyAt(call.entries, Displayed(calls))|;
            var lost := total > 0 && total - bad <= 2 * RecommendedMaxFaulty(total);
            && (t.partition == Partitioned <==> lost)
            && (bad <= RecommendedMaxFaulty(total) ==> t.partition != Partitioned)
            && (t.partition == Healing <==> !lost && s.partition == Partitioned)
            && (t.partition == Healthy <==>
                  && !lost && s.partition != Partitioned
                  && forall i | 0 <= i < |call.entries| :: call.entries[i].health == IsHealthy)
  {
    hide ObserveHealth, BaseState, GovernorsIn, UnhealthyAt, Run, Displayed;
    var s := Run(p, INITIAL_STATE, calls);
    Assesses(p, calls, call.entries);
    HealthFrame(p, s, call.agent, call.entries, call.now, call.outcomes);
    RunStep(p, calls, call);
  }

  lemma RunStep(p: Policy, calls: seq<Call>, call: Call)
    ensures Run(p, INITIAL_STATE, calls + [call]) == Step(p, Run(p, INITIAL_STATE, calls), call)
  {
    hide Step;
    assert (calls + [call])[..|calls|] == calls;
  }

  /**
   What an observation after any run announces and remembers: on leaving a partition the report, and on every change
   of state the change with the governors it was judged by; the time of the change; and when the partition began, until
   all is healthy again.
   */
  lemma ObservationTells(p: Policy, calls: seq<Call>, call: Call)
    requires call.Health?
    ensures var s, t := Run(p, INITIAL_STATE, calls), Run(p, INITIAL_STATE, calls + [call]);
            var healthy, total, quorum := HealthyIn(calls, call.entries), GovernorsIn(calls), QuorumIn(calls);
            && t.lastHealthyGovernors == healthy && t.lastQuorum == quorum
            && t.notices == s.notices
               + (if s.partition == Partitioned && t.partition != Partitioned
                  then [Reconciliation(call.now, call.agent, ReportOf(s, call.now))] else [])
               + (if t.partition != s.partition
                  then [Transition(call.now, call.agent, s.partition, t.partition, healthy, total, quorum)] else [])
            && t.lastTransitionAt == (if t.partition != s.partition then Some(call.now) else s.lastTransitionAt)
            && t.partitionStartedAt == if t.partition == s.partition then s.partitionStartedAt
                                       else if t.partition == Partitioned then Some(call.now)
                                       else if t.partition == Healthy then None
                                       else s.partitionStartedAt
  {
    hide ObserveHealth, BaseState, GovernorsIn, HealthyIn, QuorumIn, Run, UnhealthyOf, Trimmed, Split, Unexpired,
         HealthyGovernors, TotalGovernors, QuorumThreshold;
    var s := Run(p, INITIAL_STATE, calls);
    Assesses(p, calls, call.entries);
    HealthFrame(p, s, call.agent, call.entries, call.now, call.outcomes);
    RunStep(p, calls, call);
    assert forall xs: seq<Notice> :: xs + [] == xs;
  }

  /** No other call announces, forgets or moves any of this, but draining hands the notices over. */
  lemma OthersTellNothing(p: Policy, s: State, call: Call)
    requires SortedPeers(s.peers) && !call.Health?
    ensures var t := Step(p, s, call);
            && t.notices == (if call.DrainNotices? then [] else s.notices) && t.partition == s.partition
            && t.lastTransitionAt == s.lastTransitionAt && t.partitionStartedAt == s.partitionStartedAt
            && t.lastHealthyGovernors == s.lastHealthyGovernors && t.lastQuorum == s.lastQuorum
  {
    hide FirstRedeemable, AuthorizePartition, Members, Without, Insert;
    if call.Authorize? { AuthorizeRecords(p, s, call.request, call.now); }
  }

  lemma ReportedNone()
    ensures Reported([]) == []
  {
  }

  lemma ReportedOne(n: Notice)
    ensures Reported([n]) == if n.Reconciliation? then [n.report] else []
  {
  }

  lemma ReportedTwo(m: Notice, n: Notice)
    ensures Reported([m, n]) == Reported([m]) + Reported([n])
  {
    assert [m, n][1..] == [n];
  }

  // -------------------------------------------------------------------------
  // Eras

  /** A partition that is over: when it began and ended, how many receipts there were then, and its records. */
  datatype Era = Era(startedAt: int, endedAt: int, receipts: nat, records: seq<Record>)

  /** A run with the partition eras it went through: those that ended, the records since the last entry into
      `Partitioned`, and every report announced. */
  datatype History = History(state: State, openedAt: int, open: seq<Record>, closed: seq<Era>, reports: seq<Report>)

  function Extended(p: Policy, h: History, call: Call): History
    requires SortedPeers(h.state.peers)
  {
    var t := Step(p, h.state, call);
    var was, isNow := h.state.partition == Partitioned, t.partition == Partitioned;
    History(t,
            if !was && isNow && call.Health? then call.now else h.openedAt,
            if was && isNow then h.open + RecordedBy(p, h.state, call) else [],
            if was && !isNow && call.Health? then h.closed + [Era(h.openedAt, call.now, h.state.counter, h.open)]
            else h.closed,
            h.reports + ReportedBy(p, h.state, call))
  }

  ghost function HistoryOf(p: Policy, calls: seq<Call>): (h: History)
    ensures h.state == Run(p, INITIAL_STATE, calls)
  {
    if calls == [] then History(INITIAL_STATE, 0, [], [], [])
    else Extended(p, HistoryOf(p, calls[..|calls| - 1]), calls[|calls| - 1])
  }

  /** The report gives the start and end of the era, the receipts issued by then, and its records in order, split by
      the authorized flag. */
  ghost predicate Tells(report: Report, era: Era) {
    && report.startedAt == Some(era.startedAt) && report.healedAt == era.endedAt
    && report.receiptCounter == era.receipts
    && report.authorized == Split(era.records, true) && report.unauthorized == Split(era.records, false)
  }

  ghost predicate Conserved(h: History) {
    && h.state.activity == h.open
    && (if h.state.partition == Partitioned then h.state.partitionStartedAt == Some(h.openedAt) else h.open == [])
    && |h.reports| == |h.closed| && (forall i | 0 <= i < |h.reports| :: Tells(h.reports[i], h.closed[i]))
    && h.state.reports == if |h.reports| <= 16 then h.reports else h.reports[|h.reports| - 16..]
  }

  /** The last sixteen. */
  lemma TrimmedIs(reports: seq<Report>)
    ensures Trimmed(reports) == if |reports| <= 16 then reports else reports[|reports| - 16..]
  {
  }

  lemma TrimmedGrows(reports: seq<Report>, report: Report)
    ensures Trimmed(Trimmed(reports) + [report]) == Trimmed(reports + [report])
  {
  }

  lemma ExtendedConserves(p: Policy, h: History, call: Call)
    requires SortedPeers(h.state.peers) && Conserved(h)
    ensures Conserved(Extended(p, h, call))
  {
    hide Step, RecordedBy, ReportedBy, Split, Trimmed;
    LeavesThroughHealing(p, h.state, call);
    if call.Health? {
      HealthRecordsNothing(p, h.state, call);
      TrimmedIs(h.reports);
      TrimmedIs(h.reports + [ReportOf(h.state, call.now)]);
      TrimmedGrows(h.reports, ReportOf(h.state, call.now));
    } else {
      ActivityGrows(p, h.state, call);
    }
    assert h.reports + [] == h.reports && h.open + [] == h.open;
  }

  lemma HealthRecordsNothing(p: Policy, s: State, call: Call)
    requires call.Health?
    ensures RecordedBy(p, s, call) == []
  {
  }

  lemma NothingReported(p: Policy, s: State, call: Call)
    requires !call.Health? && SortedPeers(s.peers)
    ensures ReportedBy(p, s, call) == []
  {
    hide FirstRedeemable, AuthorizePartition, Members, Without, Insert, Reported;
    if call.Authorize? { AuthorizeRecords(p, s, call.request, call.now); }
    ReportedNone();
    var t := Step(p, s, call);
    assert t.notices in {s.notices, []};
    assert s.notices <= t.notices ==> t.notices[|s.notices|..] == [];
  }

  /**
   Era conservation.  Over every run: activity is kept only while partitioned and is exactly the records of
   the era in progress; each era that ended has exactly one report, holding exactly its records; and the
   policy keeps the last sixteen reports.
   */
  lemma {:induction false} EraConservation(p: Policy, calls: seq<Call>)
    ensures Conserved(HistoryOf(p, calls))
  {
    hide Conserved, Extended, Run;
    if calls == [] { NothingYet(); }
    else {
      EraConservation(p, calls[..|calls| - 1]);
      ExtendedConserves(p, HistoryOf(p, calls[..|calls| - 1]), calls[|calls| - 1]);
    }
  }

  lemma NothingYet()
    ensures Conserved(History(INITIAL_STATE, 0, [], [], []))
  {
  }

  /** A report keeps the order of its records. */
  lemma {:induction false} SplitKeepsOrder(earlier: seq<Record>, later: seq<Record>, authorized: bool)
    ensures Split(earlier + later, authorized) == Split(earlier, authorized) + Split(later, authorized)
  {
    var all := earlier + later;
    if earlier == [] { assert all == later && Split([], authorized) == []; }
    else {
      var first := if earlier[0].authorized == authorized then [earlier[0]] else [];
      SplitKeepsOrder(earlier[1..], later, authorized);
      assert all[0] == earlier[0] && all[1..] == earlier[1..] + later;
      assert Split(all, authorized) == first + Split(earlier[1..] + later, authorized);
      assert Split(earlier, authorized) == first + Split(earlier[1..], authorized);
    }
  }

  /** A report loses and repeats nothing. */
  lemma {:induction false} SplitConserves(records: seq<Record>)
    ensures multiset(Split(records, true)) + multiset(Split(records, false)) == multiset(records)
    ensures forall r | r in Split(records, true) :: r.authorized
    ensures forall r | r in Split(records, false) :: !r.authorized
  {
    if records != [] {
      SplitConserves(records[1..]);
      assert records == [records[0]] + records[1..];
    }
  }
}
