/**
 `drive_round`: one locally owned node run against an arbitrary transport.

 The transport is an oracle: what `drain` returns may depend on the number of calls and on everything
 published so far, so it may withhold, reorder, invent and redeliver forever.  `Drive` is the driver as a
 function, and the method `DriveRound`, with the loops of the driver, computes it in place.  Times are
 unbounded integers, so the saturation of `i64` is not modelled.
 */
module DriveRounds {
  import opened Wrappers
  import opened ConsensusModel
  import opened CommitChain
  import opened VoteProvenance
  import opened HeardVotes
  import opened RoundSteps
  import opened ConsensusNodes

  type Log = seq<SignedEnvelope>

  datatype Transport = Transport(
    accepts: Committee -> bool,
    publishes: Log -> bool,
    drain: (nat, Log) -> Result<seq<SignedEnvelope>, ConsensusError>)

  /** The transport of a committee of one: accepts no larger committee and delivers nothing. */
  const SOLO := Transport((c: Committee) => |c.members| <= 1, log => true, (calls, log) => Ok([]))

  /** Three message kinds from each member in each round of the budget, plus slack. */
  function MaxInbound(c: Committee): nat { 3 * (c.maxFaulty + 1) * |c.members| + 8 }

  // -------------------------------------------------------------------------
  // The driver as a function

  datatype Published = Published(log: Log, result: Result<(), ConsensusError>)

  /** Signs and publishes in order; stops at the first failure. */
  function Publish(c: Config, t: Transport, envelopes: seq<Envelope>, log: Log): Published {
    if envelopes == [] then Published(log, Ok(()))
    else if !c.holdsKey then Published(log, Err(SigningUnavailable))
    else
      var log1 := log + [SignedEnvelope(envelopes[0], c.crypto.sign(c.local, envelopes[0]))];
      if t.publishes(log1) then Publish(c, t, envelopes[1..], log1) else Published(log1, Err(TransportFailed))
  }

  /** How a batch of drained envelopes ended. */
  datatype Ending = Continues | Commits(commit: CommitRecord, last: seq<Envelope>) | Fails(error: ConsensusError)

  datatype Absorbed = Absorbed(state: NodeState, handled: nat, outbound: seq<Envelope>, ending: Ending)

  /** Feeds drained envelopes to the node, in order, until one commits, one fails, or the cap is hit. */
  function AbsorbAll(
    c: Config, s: NodeState, inbound: seq<SignedEnvelope>, now: int, handled: nat,
    outbound: seq<Envelope>): (a: Absorbed)
    requires c.Valid() && handled <= MaxInbound(c.committee)
    ensures handled <= a.handled <= MaxInbound(c.committee)
    ensures a.ending == Continues ==> a.handled == handled + |inbound|
    ensures a.ending == Continues && s.roundStartedAt <= now ==> a.state.roundStartedAt <= now
    decreases |inbound|
  {
    if inbound == [] then Absorbed(s, handled, outbound, Continues)
    else if handled + 1 > MaxInbound(c.committee) then Absorbed(s, handled, outbound, Fails(TransportFailed))
    else
      var o := HandleSigned(c, s, inbound[0], now);
      HandledOrderly(c, s, inbound[0], now);
      if o.result.Err? then Absorbed(o.state, handled + 1, outbound, Fails(o.result.error))
      else if o.Commits() != [] then
        Absorbed(o.state, handled + 1, outbound, Commits(o.Commits()[0], o.Outbound()))
      else AbsorbAll(c, o.state, inbound[1..], now, handled + 1, outbound + o.Outbound())
  }

  lemma HandledOrderly(c: Config, s: NodeState, e: SignedEnvelope, now: int)
    requires c.Valid()
    ensures Orderly(c, s, now, HandleSigned(c, s, e, now))
  {
    hide Next, HandleSigned, Orderly;
    NextOrderly(c, s, Deliver(e, now));
    NextIsHandle(c, s, e, now);
  }

  lemma QueuedOrderly(c: Config, s: NodeState, proposal: Proposal, now: int)
    requires c.Valid()
    ensures Orderly(c, s, now, QueueProposal(c, s, proposal, now))
  {
    hide Next, QueueProposal, Orderly;
    NextOrderly(c, s, Queue(proposal, now));
    NextIsQueue(c, s, proposal, now);
  }

  /** A tick one timeout after the round clock moves the node to a later round, or it commits or fails. */
  lemma TickAdvances(c: Config, s: NodeState, now: int)
    requires c.Valid() && now - s.roundStartedAt >= c.roundTimeout
    ensures var o := Tick(c, s, now);
            Orderly(c, s, now, o) && (o.Commits() == [] ==> o.state.round > s.round)
  {
    hide AdvanceRound, Orderly;
    AdvanceOrderly(c, s, s.round + 1, now);
  }

  /** What the driver leaves behind: the node, its result, how often it was fed and ticked, and what it published. */
  datatype Driven = Driven(
    state: NodeState, result: Result<CommitRecord, ConsensusError>, handled: nat, ticks: nat, log: Log)

  /** Publishes what came with a commit and returns it. */
  function Finish(
    c: Config, s: NodeState, t: Transport, commit: CommitRecord, last: seq<Envelope>, log: Log, handled: nat,
    ticks: nat)
    : Driven
  {
    var published := Publish(c, t, last, log);
    Driven(s, if published.result.Ok? then Ok(commit) else Err(published.result.error), handled, ticks, published.log)
  }

  function RoundsLeft(c: Config, s: NodeState): nat {
    if s.round < c.committee.maxFaulty then c.committee.maxFaulty - s.round else 0
  }

  /** Publishes, drains, and feeds the node or lets its round time out. */
  function Loop(
    c: Config, s: NodeState, t: Transport, outbound: seq<Envelope>, log: Log, calls: nat, now: int,
    handled: nat, ticks: nat): (d: Driven)
    requires c.Valid() && s.roundStartedAt <= now && handled <= MaxInbound(c.committee)
    ensures d.handled <= MaxInbound(c.committee)
    decreases MaxInbound(c.committee) - handled, RoundsLeft(c, s)
  {
    var published := Publish(c, t, outbound, log);
    if published.result.Err? then Driven(s, Err(published.result.error), handled, ticks, published.log)
    else
      var drained := t.drain(calls, published.log);
      if drained.Err? then Driven(s, Err(drained.error), handled, ticks, published.log)
      else if drained.value != [] then
        var a := AbsorbAll(c, s, drained.value, now, handled, []);
        match a.ending
        case Fails(error) => Driven(a.state, Err(error), a.handled, ticks, published.log)
        case Commits(commit, last) => Finish(c, a.state, t, commit, last, published.log, a.handled, ticks)
        case Continues => Loop(c, a.state, t, a.outbound, published.log, calls + 1, now, a.handled, ticks)
      else if s.round >= c.committee.maxFaulty then Driven(s, Err(RoundExpired), handled, ticks, published.log)
      else
        var later := now + c.roundTimeout;
        var o := Tick(c, s, later);
        TickAdvances(c, s, later);
        if o.result.Err? then Driven(o.state, Err(o.result.error), handled, ticks + 1, published.log)
        else if o.Commits() != [] then
          Finish(c, o.state, t, o.Commits()[0], o.Outbound(), published.log, handled, ticks + 1)
        else Loop(c, o.state, t, o.Outbound(), published.log, calls + 1, later, handled, ticks + 1)
  }

  /** Runs one round to a commit or fails.  It terminates for every transport. */
  function Drive(c: Config, s: NodeState, t: Transport, proposal: Proposal, startedAt: int): (d: Driven)
    requires c.Valid() && s.roundStartedAt <= startedAt
    ensures d.handled <= MaxInbound(c.committee)
  {
    if !t.accepts(c.committee) then Driven(s, Err(InvalidCommittee), 0, 0, [])
    else
      var o := QueueProposal(c, s, proposal, startedAt);
      QueuedOrderly(c, s, proposal, startedAt);
      if o.result.Err? then Driven(o.state, Err(o.result.error), 0, 0, [])
      else if o.Commits() != [] then Finish(c, o.state, t, o.Commits()[0], o.Outbound(), [], 0, 0)
      else Loop(c, o.state, t, o.Outbound(), [], 0, startedAt, 0, 0)
  }

  /** The driver hands the node three envelopes per member and round of its budget, and eight more, at most. */
  lemma DriveBounded(c: Config, s: NodeState, t: Transport, proposal: Proposal, startedAt: int)
    requires c.Valid() && s.roundStartedAt <= startedAt
    ensures Drive(c, s, t, proposal, startedAt).handled
            <= 3 * (c.committee.maxFaulty + 1) * |c.committee.members| + 8
  {
    hide Drive;
  }

  // -------------------------------------------------------------------------
  // A drive is a run of the node

  /** A transport cannot forge: a verified envelope in the local name was handed out by the node. */
  ghost predicate NoForgery(c: Config, t: Transport, before: set<Envelope>) {
    forall calls: nat, log: Log, e: SignedEnvelope |
      t.drain(calls, log).Ok? && e in t.drain(calls, log).value
      && c.crypto.verifies(e) && e.envelope.message.from == c.local ::
      e.envelope in before || exists p :: p in log && p.envelope == e.envelope
  }

  /** Everything the node sends over a run. */
  ghost function SentDuring(c: Config, s: NodeState, events: seq<Event>): set<Envelope>
    requires c.Valid()
  {
    if events == [] then {}
    else
      var front := events[..|events| - 1];
      SentDuring(c, s, front) + SetOf(Next(c, Run(c, s, front).state, events[|events| - 1]).Outbound())
  }

  /** Over the run no envelope verified in the node's own name that it had not sent. */
  ghost predicate AdmissibleRun(c: Config, s: NodeState, before: set<Envelope>, events: seq<Event>)
    requires c.Valid()
  {
    events == [] ||
    var front := events[..|events| - 1];
    AdmissibleRun(c, s, before, front) && Admissible(c, before + SentDuring(c, s, front), events[|events| - 1])
  }

  function Count(events: seq<Event>, timers: bool): nat {
    if events == [] then 0
    else
      var last := events[|events| - 1];
      Count(events[..|events| - 1], timers) + if (if timers then last.Timer? else last.Deliver?) then 1 else 0
  }

  /** Everything the node sends over a run, in order. */
  ghost function SentList(c: Config, s: NodeState, events: seq<Event>): seq<Envelope>
    requires c.Valid()
  {
    if events == [] then []
    else
      var front := events[..|events| - 1];
      SentList(c, s, front) + Next(c, Run(c, s, front).state, events[|events| - 1]).Outbound()
  }

  function SignAll(c: Config, envelopes: seq<Envelope>): Log {
    seq(|envelopes|, i requires 0 <= i < |envelopes| =>
      SignedEnvelope(envelopes[i], c.crypto.sign(c.local, envelopes[i])))
  }

  /** The time of every event is that of the start plus one timeout for each timer so far, itself included. */
  ghost predicate Paced(c: Config, at: int, events: seq<Event>) {
    forall i | 0 <= i < |events| :: events[i].now == at + c.roundTimeout * Count(events[..i + 1], true)
  }

  lemma OneMore(c: Config, s0: NodeState, before: set<Envelope>, events: seq<Event>, ev: Event)
    requires c.Valid()
    ensures var t, o := Run(c, s0, events), Next(c, Run(c, s0, events).state, ev);
            && Run(c, s0, events + [ev]) == Trace(o.state, t.commits + o.Commits())
            && SentDuring(c, s0, events + [ev]) == SentDuring(c, s0, events) + SetOf(o.Outbound())
            && SentList(c, s0, events + [ev]) == SentList(c, s0, events) + o.Outbound()
            && (AdmissibleRun(c, s0, before, events + [ev]) <==>
                  AdmissibleRun(c, s0, before, events) && Admissible(c, before + SentDuring(c, s0, events), ev))
            && (forall timers :: Count(events + [ev], timers) ==
                  Count(events, timers) + if (if timers then ev.Timer? else ev.Deliver?) then 1 else 0)
  {
    hide Next, Admissible;
    var all := events + [ev];
    assert all[..|all| - 1] == events;
  }

  lemma OnePaced(c: Config, at: int, events: seq<Event>, ev: Event)
    requires Paced(c, at, events) && ev.now == at + c.roundTimeout * Count(events + [ev], true)
    ensures Paced(c, at, events + [ev])
  {
    hide Count;
    var all := events + [ev];
    forall i | 0 <= i < |all| ensures all[i].now == at + c.roundTimeout * Count(all[..i + 1], true) {
      if i < |events| { assert all[..i + 1] == events[..i + 1]; } else { assert all[..i + 1] == all; }
    }
  }

  /** The log is what was sent, signed, up to what is still queued. */
  ghost predicate Logged(c: Config, sent: seq<Envelope>, log: Log, queue: seq<Envelope>) {
    |log| <= |sent| && log == SignAll(c, sent[..|log|]) && queue == sent[|log|..]
  }

  /** The node is in state `s` after `events` without having reported a commit, and everything sent on the way was
      published or is queued, in order. */
  ghost predicate Told(
    c: Config, t: Transport, s0: NodeState, before: set<Envelope>, events: seq<Event>,
    s: NodeState, log: Log, queue: seq<Envelope>)
    requires c.Valid()
  {
    && Run(c, s0, events) == Trace(s, [])
    && (NoForgery(c, t, before) ==> AdmissibleRun(c, s0, before, events))
    && (forall p | p in log :: p.envelope in SentDuring(c, s0, events))
    && (forall e | e in queue :: e in SentDuring(c, s0, events))
    && Logged(c, SentList(c, s0, events), log, queue)
  }

  /** The events lead the node to where the drive left it, with as many deliveries and timers as the drive counts. */
  ghost predicate Story(
    c: Config, t: Transport, s0: NodeState, before: set<Envelope>, events: seq<Event>, s: NodeState, handled: nat,
    ticks: nat)
    requires c.Valid()
  {
    && Run(c, s0, events).state == s
    && (NoForgery(c, t, before) ==> AdmissibleRun(c, s0, before, events))
    && handled == Count(events, false) && ticks == Count(events, true)
  }

  /** The commit is the first the node reports, by its last event. */
  ghost predicate EndsIn(c: Config, s0: NodeState, events: seq<Event>, commit: CommitRecord)
    requires c.Valid()
  {
    && events != [] && Run(c, s0, events[..|events| - 1]).commits == []
    && Run(c, s0, events).commits != [] && Run(c, s0, events).commits[0] == commit
  }

  /** All that was sent was published, in order, but for what was sent from `n` up to `m`. */
  ghost predicate PublishedBut(c: Config, sent: seq<Envelope>, log: Log, n: nat, m: nat) {
    n <= m <= |sent| && log == SignAll(c, sent[..n]) + SignAll(c, sent[m..])
  }

  ghost predicate PublishedUpTo(c: Config, sent: seq<Envelope>, log: Log, m: nat) {
    exists n :: PublishedBut(c, sent, log, n, m)
  }

  /** What a failed drive is due to: no key, a failed publication or drain, too many envelopes, the last round over
      with nothing more to drain, or an error of the node. */
  ghost predicate DueTo(
    c: Config, t: Transport, s0: NodeState, events: seq<Event>, s: NodeState, handled: nat, error: ConsensusError)
    requires c.Valid()
  {
    || (error == SigningUnavailable && !c.holdsKey)
    || (error == TransportFailed && exists log :: !t.publishes(log))
    || (exists calls: nat, log :: t.drain(calls, log) == Err(error))
    || (error == TransportFailed && handled == 3 * (c.committee.maxFaulty + 1) * |c.committee.members| + 8)
    || (&& error == RoundExpired && s.round >= c.committee.maxFaulty
        && exists calls: nat, log :: t.drain(calls, log) == Ok([]))
    || (events != [] && Next(c, Run(c, s0, events[..|events| - 1]).state, events[|events| - 1]).result == Err(error))
  }

  /** The events of a whole drive: the node ends where the drive ends; a returned commit is the first it reports, and
      all it sent was published but for what it sent, before the last event, on the batch of that event; a failure
      has a cause. */
  ghost predicate Tale(c: Config, t: Transport, s0: NodeState, before: set<Envelope>, events: seq<Event>, d: Driven)
    requires c.Valid()
  {
    && Story(c, t, s0, before, events, d.state, d.handled, d.ticks)
    && match d.result
       case Ok(commit) =>
         && EndsIn(c, s0, events, commit)
         && PublishedUpTo(c, SentList(c, s0, events), d.log, |SentList(c, s0, events[..|events| - 1])|)
       case Err(error) => DueTo(c, t, s0, events, d.state, d.handled, error)
  }

  /** One more event. */
  lemma TellMore(
    c: Config, t: Transport, s0: NodeState, before: set<Envelope>, events: seq<Event>,
    s: NodeState, log: Log, queue: seq<Envelope>, ev: Event)
    requires c.Valid() && Told(c, t, s0, before, events, s, log, queue)
    requires NoForgery(c, t, before) ==> Admissible(c, before + SentDuring(c, s0, events), ev)
    ensures var o, all := Next(c, s, ev), events + [ev];
            && (o.Commits() == [] ==> Told(c, t, s0, before, all, o.state, log, queue + o.Outbound()))
            && (o.Commits() != [] ==> EndsIn(c, s0, all, o.Commits()[0]))
            && Story(c, t, s0, before, all, o.state, Count(all, false), Count(all, true))
            && (o.result.Err? ==> DueTo(c, t, s0, all, o.state, Count(all, false), o.result.error))
  {
    hide Next, Admissible, NoForgery, Count, Run, SentDuring, AdmissibleRun, SentList;
    OneMore(c, s0, before, events, ev);
    assert (events + [ev])[..|events + [ev]| - 1] == events;
    assert [] + Next(c, s, ev).Commits() == Next(c, s, ev).Commits();
    LoggedMore(c, SentList(c, s0, events), log, queue, Next(c, s, ev).Outbound());
  }

  lemma LoggedMore(c: Config, sent: seq<Envelope>, log: Log, queue: seq<Envelope>, more: seq<Envelope>)
    requires Logged(c, sent, log, queue)
    ensures Logged(c, sent + more, log, queue + more)
  {
    hide SignAll;
    assert (sent + more)[..|log|] == sent[..|log|] && (sent + more)[|log|..] == queue + more;
  }

  /** A drained envelope is admissible. */
  lemma DrainedAdmissible(
    c: Config, t: Transport, s0: NodeState, before: set<Envelope>, events: seq<Event>, s: NodeState,
    log: Log, queue: seq<Envelope>, calls: nat, e: SignedEnvelope, now: int)
    requires c.Valid() && Told(c, t, s0, before, events, s, log, queue)
    requires t.drain(calls, log).Ok? && e in t.drain(calls, log).value
    ensures NoForgery(c, t, before) ==> Admissible(c, before + SentDuring(c, s0, events), Deliver(e, now))
  {
    hide Run, SentDuring, AdmissibleRun, Logged;
  }

  /** Publishing appends the envelopes, signed, in order; it fails only without a key or if the transport does. */
  lemma {:induction false} PublishSigns(c: Config, t: Transport, queue: seq<Envelope>, log: Log)
    ensures var p := Publish(c, t, queue, log);
            && (p.result.Ok? ==> p.log == log + SignAll(c, queue))
            && (p.result.Err? ==>
                  || (p.result.error == SigningUnavailable && !c.holdsKey)
                  || (p.result.error == TransportFailed && exists l :: !t.publishes(l)))
    decreases |queue|
  {
    if queue == [] { assert log + SignAll(c, queue) == log; }
    else if c.holdsKey {
      var signed := SignedEnvelope(queue[0], c.crypto.sign(c.local, queue[0]));
      if t.publishes(log + [signed]) { PublishSigns(c, t, queue[1..], log + [signed]); }
      assert log + SignAll(c, queue) == log + [signed] + SignAll(c, queue[1..]);
    }
  }

  /** Publishing moves envelopes from the queue to the log. */
  lemma PublishTold(
    c: Config, t: Transport, s0: NodeState, before: set<Envelope>, events: seq<Event>,
    s: NodeState, log: Log, queue: seq<Envelope>)
    requires c.Valid() && Told(c, t, s0, before, events, s, log, queue)
    ensures var p := Publish(c, t, queue, log);
            && (p.result.Ok? ==> Told(c, t, s0, before, events, s, p.log, []))
            && (p.result.Err? ==> forall handled :: DueTo(c, t, s0, events, s, handled, p.result.error))
  {
    hide NoForgery, Run, SentDuring, AdmissibleRun, Publish, SentList, Next;
    PublishSigns(c, t, queue, log);
    var p, sent := Publish(c, t, queue, log), SentList(c, s0, events);
    if p.result.Ok? {
      assert p.log == SignAll(c, sent);
      assert sent[..|sent|] == sent && sent[|sent|..] == [];
      SignedFrom(c, queue);
    }
  }

  lemma SignedFrom(c: Config, queue: seq<Envelope>)
    ensures forall p | p in SignAll(c, queue) :: p.envelope in queue
  {
  }

  /** How a batch adds to the story. */
  ghost predicate BatchTold(
    c: Config, t: Transport, s0: NodeState, before: set<Envelope>, events: seq<Event>, log: Log, a: Absorbed,
    ticks: nat)
    requires c.Valid()
  {
    && Story(c, t, s0, before, events, a.state, a.handled, ticks)
    && match a.ending
       case Continues => Told(c, t, s0, before, events, a.state, log, a.outbound)
       case Commits(commit, last) => EndsIn(c, s0, events, commit) && LastOf(c, s0, events, log, a.outbound, last)
       case Fails(error) => DueTo(c, t, s0, events, a.state, a.handled, error)
  }

  /** The log and the queue are what was sent before the last event, which sends `last`. */
  ghost predicate LastOf(
    c: Config, s0: NodeState, events: seq<Event>, log: Log, queue: seq<Envelope>, last: seq<Envelope>)
    requires c.Valid()
  {
    && events != [] && Logged(c, SentList(c, s0, events[..|events| - 1]), log, queue)
    && SentList(c, s0, events) == SentList(c, s0, events[..|events| - 1]) + last
  }

  lemma {:induction false} AbsorbTold(
    c: Config, t: Transport, s0: NodeState, before: set<Envelope>, at: int, events: seq<Event>, s: NodeState, log: Log,
    queue: seq<Envelope>, calls: nat, inbound: seq<SignedEnvelope>, now: int, handled: nat, ticks: nat)
    returns (all: seq<Event>)
    requires c.Valid() && handled <= MaxInbound(c.committee) && Told(c, t, s0, before, events, s, log, queue)
    requires t.drain(calls, log).Ok? && forall e | e in inbound :: e in t.drain(calls, log).value
    requires handled == Count(events, false) && ticks == Count(events, true)
    requires Paced(c, at, events) && now == at + c.roundTimeout * ticks
    ensures events <= all && (forall i | |events| <= i < |all| :: FromTransport(t, all[i])) && Paced(c, at, all)
    ensures BatchTold(c, t, s0, before, all, log, AbsorbAll(c, s, inbound, now, handled, queue), ticks)
    decreases |inbound|
  {
    hide HandleSigned, Next, NoForgery, Run, SentDuring, AdmissibleRun, Count, Told, SentList, DueTo, EndsIn, Logged,
         Paced;
    all := events;
    ToldStory(c, t, s0, before, events, s, log, queue, handled, ticks);
    if inbound == [] { return; }
    if handled + 1 > MaxInbound(c.committee) {
      TooMany(c, t, s0, events, s, handled);
      return;
    }
    var e := inbound[0];
    var ev := Deliver(e, now);
    DrainedAdmissible(c, t, s0, before, events, s, log, queue, calls, e, now);
    TellMore(c, t, s0, before, events, s, log, queue, ev);
    OneMore(c, s0, before, events, ev);
    OnePaced(c, at, events, ev);
    NextIsHandle(c, s, e, now);
    all := events + [ev];
    assert all[..|all| - 1] == events;
    ToldLogged(c, t, s0, before, events, s, log, queue);
    var o := HandleSigned(c, s, e, now);
    if o.result.Ok? && o.Commits() == [] {
      all := AbsorbTold(c, t, s0, before, at, all, o.state, log, queue + o.Outbound(), calls, inbound[1..], now,
                        handled + 1, ticks);
    }
  }

  lemma ToldLogged(
    c: Config, t: Transport, s0: NodeState, before: set<Envelope>, events: seq<Event>, s: NodeState, log: Log,
    queue: seq<Envelope>)
    requires c.Valid() && Told(c, t, s0, before, events, s, log, queue)
    ensures Run(c, s0, events).state == s && Logged(c, SentList(c, s0, events), log, queue)
  {
    hide NoForgery, Run, SentDuring, AdmissibleRun, Logged, SentList;
  }

  lemma TooMany(c: Config, t: Transport, s0: NodeState, events: seq<Event>, s: NodeState, handled: nat)
    requires c.Valid() && handled == MaxInbound(c.committee)
    ensures DueTo(c, t, s0, events, s, handled, TransportFailed)
  {
    hide Next, Run;
  }

  lemma ToldStory(
    c: Config, t: Transport, s0: NodeState, before: set<Envelope>, events: seq<Event>, s: NodeState, log: Log,
    queue: seq<Envelope>, handled: nat, ticks: nat)
    requires c.Valid() && Told(c, t, s0, before, events, s, log, queue)
    requires handled == Count(events, false) && ticks == Count(events, true)
    ensures Story(c, t, s0, before, events, s, handled, ticks)
  {
    hide NoForgery, Run, SentDuring, AdmissibleRun, Count, Logged, SentList;
  }

  /** The envelopes that come with the commit are published and the commit returned. */
  lemma FinishTells(
    c: Config, t: Transport, s0: NodeState, before: set<Envelope>, events: seq<Event>, queue: seq<Envelope>,
    s: NodeState, commit: CommitRecord, last: seq<Envelope>, log: Log, handled: nat, ticks: nat)
    requires c.Valid() && Story(c, t, s0, before, events, s, handled, ticks) && EndsIn(c, s0, events, commit)
    requires LastOf(c, s0, events, log, queue, last)
    ensures Tale(c, t, s0, before, events, Finish(c, s, t, commit, last, log, handled, ticks))
  {
    hide NoForgery, Run, SentDuring, AdmissibleRun, Count, SentList, Publish, Story, EndsIn, SignAll, Next;
    PublishSigns(c, t, last, log);
    var d := Finish(c, s, t, commit, last, log, handled, ticks);
    var sent, front := SentList(c, s0, events), SentList(c, s0, events[..|events| - 1]);
    if d.result.Ok? {
      assert sent[..|log|] == front[..|log|] && sent[|front|..] == last;
      assert PublishedBut(c, sent, d.log, |log|, |front|);
    }
  }

  /** The event is a timeout, or the delivery of an envelope the transport handed over. */
  ghost predicate FromTransport(t: Transport, ev: Event) {
    || ev.Timer?
    || (ev.Deliver? && exists calls: nat, log :: t.drain(calls, log).Ok? && ev.signed in t.drain(calls, log).value)
  }

  lemma {:induction false} LoopTold(
    c: Config, t: Transport, s0: NodeState, before: set<Envelope>, at: int, events: seq<Event>, s: NodeState,
    outbound: seq<Envelope>, log: Log, calls: nat, now: int, handled: nat, ticks: nat) returns (all: seq<Event>)
    requires c.Valid() && s.roundStartedAt <= now && handled <= MaxInbound(c.committee)
    requires Told(c, t, s0, before, events, s, log, outbound)
    requires handled == Count(events, false) && ticks == Count(events, true)
    requires Paced(c, at, events) && now == at + c.roundTimeout * ticks
    ensures events <= all && (forall i | |events| <= i < |all| :: FromTransport(t, all[i])) && Paced(c, at, all)
    ensures Tale(c, t, s0, before, all, Loop(c, s, t, outbound, log, calls, now, handled, ticks))
    decreases MaxInbound(c.committee) - handled, RoundsLeft(c, s)
  {
    hide Next, HandleSigned, Tick, NoForgery, Run, SentDuring, AdmissibleRun, Count, Told, AbsorbAll, Publish,
         Finish, SentList, DueTo, EndsIn, Logged, Paced, Story, PublishedUpTo;
    all := events;
    PublishTold(c, t, s0, before, events, s, log, outbound);
    ToldStory(c, t, s0, before, events, s, log, outbound, handled, ticks);
    var published := Publish(c, t, outbound, log);
    if published.result.Err? { return; }
    DrainFails(c, t, s0, events, s, handled, calls, published.log);
    if t.drain(calls, published.log).Err? { return; }
    var inbound := t.drain(calls, published.log).value;
    if inbound != [] {
      var a := AbsorbAll(c, s, inbound, now, handled, []);
      all := AbsorbTold(c, t, s0, before, at, events, s, published.log, [], calls, inbound, now, handled, ticks);
      match a.ending
      case Fails(_) =>
      case Commits(commit, last) =>
        FinishTells(c, t, s0, before, all, a.outbound, a.state, commit, last, published.log, a.handled, ticks);
      case Continues =>
        StoryCounts(c, t, s0, before, all, a.state, a.handled, ticks);
        all := LoopTold(c, t, s0, before, at, all, a.state, a.outbound, published.log, calls + 1, now, a.handled,
                        ticks);
    } else if s.round < c.committee.maxFaulty {
      var later := now + c.roundTimeout;
      TickAdvances(c, s, later);
      all := TickTold(c, t, s0, before, at, events, s, published.log, later, handled, ticks);
      var o := Tick(c, s, later);
      if o.result.Ok? {
        if o.Commits() == [] {
          all := LoopTold(c, t, s0, before, at, all, o.state, o.Outbound(), published.log, calls + 1, later, handled,
                          ticks + 1);
        } else {
          FinishTells(c, t, s0, before, all, [], o.state, o.Commits()[0], o.Outbound(), published.log, handled,
                      ticks + 1);
        }
      }
    }
  }

  lemma StoryCounts(
    c: Config, t: Transport, s0: NodeState, before: set<Envelope>, events: seq<Event>, s: NodeState, handled: nat,
    ticks: nat)
    requires c.Valid() && Story(c, t, s0, before, events, s, handled, ticks)
    ensures handled == Count(events, false) && ticks == Count(events, true)
  {
    hide NoForgery, Run, AdmissibleRun, Count;
  }

  /** A failed drain, and one that is empty in the last round, end the drive. */
  lemma DrainFails(
    c: Config, t: Transport, s0: NodeState, events: seq<Event>, s: NodeState, handled: nat, calls: nat, log: Log)
    requires c.Valid()
    ensures t.drain(calls, log).Err? ==> DueTo(c, t, s0, events, s, handled, t.drain(calls, log).error)
    ensures t.drain(calls, log) == Ok([]) && s.round >= c.committee.maxFaulty ==>
              DueTo(c, t, s0, events, s, handled, RoundExpired)
  {
    hide Next, Run;
  }

  /** A timer adds to the story. */
  lemma TickTold(
    c: Config, t: Transport, s0: NodeState, before: set<Envelope>, at: int, events: seq<Event>, s: NodeState,
    log: Log, later: int, handled: nat, ticks: nat)
    returns (all: seq<Event>)
    requires c.Valid() && Told(c, t, s0, before, events, s, log, []) && Paced(c, at, events)
    requires handled == Count(events, false) && ticks == Count(events, true)
    requires later == at + c.roundTimeout * (ticks + 1)
    ensures all == events + [Timer(later)] && Paced(c, at, all) && FromTransport(t, all[|events|])
    ensures handled == Count(all, false) && ticks + 1 == Count(all, true)
    ensures var o := Tick(c, s, later);
            && Story(c, t, s0, before, all, o.state, handled, ticks + 1)
            && (o.result.Err? ==> DueTo(c, t, s0, all, o.state, handled, o.result.error))
            && (o.Commits() == [] ==> Told(c, t, s0, before, all, o.state, log, o.Outbound()))
            && (o.Commits() != [] ==> EndsIn(c, s0, all, o.Commits()[0]) && LastOf(c, s0, all, log, [], o.Outbound()))
  {
    hide Next, Tick, NoForgery, Run, SentDuring, AdmissibleRun, Count, Told, SentList, DueTo, EndsIn, Logged, Paced,
         Story;
    var ev := Timer(later);
    NextIsTick(c, s, later);
    TimerAdmissible(c, before + SentDuring(c, s0, events), later);
    TellMore(c, t, s0, before, events, s, log, [], ev);
    OneMore(c, s0, before, events, ev);
    OnePaced(c, at, events, ev);
    ToldLogged(c, t, s0, before, events, s, log, []);
    all := events + [ev];
    assert all[..|all| - 1] == events && [] + Tick(c, s, later).Outbound() == Tick(c, s, later).Outbound();
  }

  lemma TimerAdmissible(c: Config, sent: set<Envelope>, now: int)
    ensures Admissible(c, sent, Timer(now))
  {
  }

  /** Every drive that is accepted is a run: the proposal is queued, then drained envelopes and timeouts follow. */
  lemma DriveTold(c: Config, s0: NodeState, t: Transport, proposal: Proposal, startedAt: int, before: set<Envelope>)
    returns (events: seq<Event>)
    requires c.Valid() && s0.roundStartedAt <= startedAt && t.accepts(c.committee)
    ensures events != [] && events[0] == Queue(proposal, startedAt)
    ensures forall i | 1 <= i < |events| :: FromTransport(t, events[i])
    ensures Paced(c, startedAt, events)
    ensures Tale(c, t, s0, before, events, Drive(c, s0, t, proposal, startedAt))
  {
    hide Next, QueueProposal, NoForgery, Told, Loop, Finish, DueTo, EndsIn, Logged, Paced, Story, Run, SentList,
         SentDuring, AdmissibleRun, PublishedUpTo;
    var ev, o := Queue(proposal, startedAt), QueueProposal(c, s0, proposal, startedAt);
    NextIsQueue(c, s0, proposal, startedAt);
    NothingTold(c, t, s0, before, startedAt);
    TellMore(c, t, s0, before, [], s0, [], [], ev);
    OneMore(c, s0, before, [], ev);
    assert [] + [ev] == [ev] && [] + o.Outbound() == o.Outbound() && [ev][..0] == [];
    assert Count([], true) == 0 && Count([], false) == 0 && Count([ev], true) == 0 && Count([ev], false) == 0;
    OnePaced(c, startedAt, [], ev);
    ToldLogged(c, t, s0, before, [], s0, [], []);
    events := [ev];
    if o.result.Ok? {
      if o.Commits() == [] {
        QueuedOrderly(c, s0, proposal, startedAt);
        events := LoopTold(c, t, s0, before, startedAt, [ev], o.state, o.Outbound(), [], 0, startedAt, 0, 0);
      } else {
        FinishTells(c, t, s0, before, [ev], [], o.state, o.Commits()[0], o.Outbound(), [], 0, 0);
      }
    }
  }

  lemma NothingTold(c: Config, t: Transport, s0: NodeState, before: set<Envelope>, at: int)
    requires c.Valid()
    ensures Told(c, t, s0, before, [], s0, [], []) && Paced(c, at, [])
    ensures forall sent, p, now :: Admissible(c, sent, Queue(p, now))
  {
    hide NoForgery;
  }

  // -------------------------------------------------------------------------
  // What a returned commit guarantees

  /** Until it reports a commit, a node that cannot lose one stays at its height. */
  lemma {:induction false} StaysUntilCommit(c: Config, s0: NodeState, events: seq<Event>)
    requires c.Valid() && c.committee.maxFaulty >= 1 && FutureEmpty(s0) && Run(c, s0, events).commits == []
    ensures var s := Run(c, s0, events).state;
            FutureEmpty(s) && s.height == s0.height && s.previous == s0.previous && s.round >= s0.round
  {
    hide Next, FutureEmpty, Links;
    if events != [] {
      var front := events[..|events| - 1];
      StaysUntilCommit(c, s0, front);
      NextKeeps(c, Run(c, s0, front).state, events[|events| - 1]);
    }
  }

  lemma LastStep(c: Config, s0: NodeState, events: seq<Event>)
    requires c.Valid() && events != []
    ensures var before, ev := Run(c, s0, events[..|events| - 1]), events[|events| - 1];
            Run(c, s0, events) == Trace(Next(c, before.state, ev).state,
                                        before.commits + Next(c, before.state, ev).Commits())
  {
    hide Next;
  }

  /** A node that tolerates a fault and has nothing recorded for later rounds returns the commit of its height,
      hashed over where it started. */
  lemma DriveLinks(c: Config, s0: NodeState, t: Transport, proposal: Proposal, startedAt: int)
    requires c.Valid() && s0.roundStartedAt <= startedAt && c.committee.maxFaulty >= 1 && FutureEmpty(s0)
    ensures var d := Drive(c, s0, t, proposal, startedAt);
            d.result.Ok? ==>
              && Links(c, s0.height, s0.previous, d.result.value)
              && d.state.height == s0.height + 1 && d.state.previous == d.result.value.hash
  {
    hide Next, Drive, Links, FutureEmpty, Run, NoForgery, AdmissibleRun;
    if Drive(c, s0, t, proposal, startedAt).result.Ok? {
      DriveRefused(c, s0, t, proposal, startedAt);
      var events := DriveTold(c, s0, t, proposal, startedAt, {});
      var front, last := events[..|events| - 1], events[|events| - 1];
      StaysUntilCommit(c, s0, front);
      NextKeeps(c, Run(c, s0, front).state, last);
      LastStep(c, s0, events);
      assert [] + Next(c, Run(c, s0, front).state, last).Commits() == Next(c, Run(c, s0, front).state, last).Commits();
    }
  }

  lemma DriveRefused(c: Config, s0: NodeState, t: Transport, proposal: Proposal, startedAt: int)
    requires c.Valid() && s0.roundStartedAt <= startedAt
    ensures !t.accepts(c.committee) ==>
              Drive(c, s0, t, proposal, startedAt) == Driven(s0, Err(InvalidCommittee), 0, 0, [])
  {
  }

  lemma {:induction false} RunKeepsInv(c: Config, s0: NodeState, before: set<Envelope>, events: seq<Event>)
    requires c.Valid() && c.committee.maxFaulty >= 1 && Inv(c, s0, before) && AdmissibleRun(c, s0, before, events)
    ensures Inv(c, Run(c, s0, events).state, before + SentDuring(c, s0, events))
  {
    hide Next, Inv, Admissible, Certified;
    if events == [] { assert before + {} == before; }
    else {
      var front, last := events[..|events| - 1], events[|events| - 1];
      RunKeepsInv(c, s0, before, front);
      var sent := before + SentDuring(c, s0, front);
      var o := Next(c, Run(c, s0, front).state, last);
      NextKeepsInv(c, Run(c, s0, front).state, sent, last);
      assert sent + SetOf(o.Outbound()) == before + SentDuring(c, s0, events);
    }
  }

  /** On a transport that cannot forge the local signature, the commit of a node whose votes are accounted for is
      certified by two quorums of verified votes. */
  lemma DriveCertified(
    c: Config, s0: NodeState, t: Transport, proposal: Proposal, startedAt: int, before: set<Envelope>)
    returns (sent: set<Envelope>)
    requires c.Valid() && s0.roundStartedAt <= startedAt && c.committee.maxFaulty >= 1
    requires Inv(c, s0, before) && NoForgery(c, t, before)
    ensures var d := Drive(c, s0, t, proposal, startedAt);
            d.result.Ok? ==> Certified(c, d.state.seen, sent, s0.previous, d.result.value)
  {
    hide Next, Drive, Inv, Certified, Links, FutureEmpty, NoForgery, Admissible;
    sent := before;
    if Drive(c, s0, t, proposal, startedAt).result.Ok? {
      DriveRefused(c, s0, t, proposal, startedAt);
      var events := DriveTold(c, s0, t, proposal, startedAt, before);
      var front, last := events[..|events| - 1], events[|events| - 1];
      RunKeepsInv(c, s0, before, front);
      assert FutureEmpty(s0) by { InvFuture(c, s0, before); }
      StaysUntilCommit(c, s0, front);
      var s, earlier := Run(c, s0, front).state, before + SentDuring(c, s0, front);
      var o := Next(c, s, last);
      NextKeepsInv(c, s, earlier, last);
      sent := earlier + SetOf(o.Outbound());
      assert [] + o.Commits() == o.Commits();
      assert o.Commits()[0] in o.Commits();
    }
  }

  lemma InvFuture(c: Config, s: NodeState, sent: set<Envelope>)
    requires Inv(c, s, sent)
    ensures FutureEmpty(s)
  {
  }

  /**
   In every committee and on every transport, the tallies of a returned commit count distinct members: the node
   itself, and senders of verified votes for that round and proposal among the envelopes the transport handed over.
   Unless a commit was lost on the way, which takes a committee without tolerance, the votes are for the height and
   the hash the node started from.
   */
  lemma DriveTallied(c: Config, t: Transport, previous: Hash, proposal: Proposal, startedAt: int)
    returns (events: seq<Event>)
    requires c.Valid()
    ensures var d := Drive(c, InitialState(previous, startedAt), t, proposal, startedAt);
            d.result.Ok? ==>
              && events != [] && events[0] == Queue(proposal, startedAt)
              && (forall i | 1 <= i < |events| :: FromTransport(t, events[i]))
              && var whole := NoneSwallowed(c, InitialState(previous, startedAt), events);
                 && (c.committee.maxFaulty >= 1 ==> whole)
                 && Tallied(c, HeardDuring(c, events), if whole then At(1, previous) else Anywhere, d.result.value)
  {
    hide Next, Drive, Run, NoForgery, AdmissibleRun, Tallied, AllHeard, HeardDuring;
    var s0 := InitialState(previous, startedAt);
    events := [];
    if Drive(c, s0, t, proposal, startedAt).result.Ok? {
      DriveRefused(c, s0, t, proposal, startedAt);
      events := DriveTold(c, s0, t, proposal, startedAt, {});
      RunHeard(c, previous, startedAt, events, NoneSwallowed(c, s0, events));
    }
  }

  // -------------------------------------------------------------------------
  // Ticks

  /** A node that cannot lose a commit does not fall back while envelopes are absorbed. */
  lemma {:induction false} AbsorbKeepsRound(
    c: Config, s: NodeState, inbound: seq<SignedEnvelope>, now: int, handled: nat, outbound: seq<Envelope>)
    requires c.Valid() && handled <= MaxInbound(c.committee) && c.committee.maxFaulty >= 1 && FutureEmpty(s)
    ensures var a := AbsorbAll(c, s, inbound, now, handled, outbound);
            a.ending == Continues ==> FutureEmpty(a.state) && a.state.round >= s.round
    decreases |inbound|
  {
    hide HandleSigned, Next, FutureEmpty, Links;
    if inbound != [] && handled < MaxInbound(c.committee) {
      NextKeeps(c, s, Deliver(inbound[0], now));
      NextIsHandle(c, s, inbound[0], now);
      var o := HandleSigned(c, s, inbound[0], now);
      if o.result.Ok? && o.Commits() == [] {
        AbsorbKeepsRound(c, o.state, inbound[1..], now, handled + 1, outbound + o.Outbound());
      }
    }
  }

  /** The ticks so far fit the rounds so far; without tolerance there are none. */
  ghost predicate OnTime(c: Config, s: NodeState, ticks: nat) {
    if c.committee.maxFaulty == 0 then ticks == 0
    else FutureEmpty(s) && ticks <= s.round && ticks <= c.committee.maxFaulty
  }

  lemma {:induction false} LoopTicks(
    c: Config, s: NodeState, t: Transport, outbound: seq<Envelope>, log: Log, calls: nat, now: int, handled: nat,
    ticks: nat)
    requires c.Valid() && s.roundStartedAt <= now && handled <= MaxInbound(c.committee) && OnTime(c, s, ticks)
    ensures Loop(c, s, t, outbound, log, calls, now, handled, ticks).ticks <= c.committee.maxFaulty
    decreases MaxInbound(c.committee) - handled, RoundsLeft(c, s)
  {
    hide Next, Tick, FutureEmpty, AbsorbAll, Publish, Links;
    var published := Publish(c, t, outbound, log);
    if published.result.Ok? && t.drain(calls, published.log).Ok? {
      var inbound := t.drain(calls, published.log).value;
      if inbound != [] {
        var a := AbsorbAll(c, s, inbound, now, handled, []);
        if a.ending == Continues {
          if c.committee.maxFaulty >= 1 { AbsorbKeepsRound(c, s, inbound, now, handled, []); }
          LoopTicks(c, a.state, t, a.outbound, published.log, calls + 1, now, a.handled, ticks);
        }
      } else if s.round < c.committee.maxFaulty {
        var later := now + c.roundTimeout;
        var o := Tick(c, s, later);
        TickAdvances(c, s, later);
        NextKeeps(c, s, Timer(later));
        NextIsTick(c, s, later);
        if o.result.Ok? && o.Commits() == [] {
          LoopTicks(c, o.state, t, o.Outbound(), published.log, calls + 1, later, handled, ticks + 1);
        }
      }
    }
  }

  /** A node that tolerates no fault, or has nothing recorded for later rounds, is ticked at most `f` times. */
  lemma DriveTicks(c: Config, s0: NodeState, t: Transport, proposal: Proposal, startedAt: int)
    requires c.Valid() && s0.roundStartedAt <= startedAt && (c.committee.maxFaulty == 0 || FutureEmpty(s0))
    ensures Drive(c, s0, t, proposal, startedAt).ticks <= c.committee.maxFaulty
  {
    hide Next, QueueProposal, FutureEmpty, Loop, Links;
    var o := QueueProposal(c, s0, proposal, startedAt);
    if c.committee.maxFaulty >= 1 {
      NextKeeps(c, s0, Queue(proposal, startedAt));
      NextIsQueue(c, s0, proposal, startedAt);
    }
    if t.accepts(c.committee) && o.result.Ok? && o.Commits() == [] {
      QueuedOrderly(c, s0, proposal, startedAt);
      LoopTicks(c, o.state, t, o.Outbound(), [], 0, startedAt, 0, 0);
    }
  }

  // -------------------------------------------------------------------------
  // The driver in place

  method PublishAll(c: Config, t: Transport, envelopes: seq<Envelope>, log: Log)
    returns (r: Result<(), ConsensusError>, after: Log)
    ensures Published(after, r) == Publish(c, t, envelopes, log)
  {
    after := log;
    for i := 0 to |envelopes|
      invariant Publish(c, t, envelopes[i..], after) == Publish(c, t, envelopes, log)
    {
      assert envelopes[i..][1..] == envelopes[i + 1..];
      if !c.holdsKey { return Err(SigningUnavailable), after; }
      after := after + [SignedEnvelope(envelopes[i], c.crypto.sign(c.local, envelopes[i]))];
      if !t.publishes(after) { return Err(TransportFailed), after; }
    }
    return Ok(()), after;
  }

  method Absorb(node: ConsensusNode, inbound: seq<SignedEnvelope>, now: int, already: nat)
    returns (ending: Ending, outbound: seq<Envelope>, handled: nat)
    requires node.config.Valid() && already <= MaxInbound(node.config.committee)
    modifies node
    ensures Absorbed(node.State(), handled, outbound, ending)
            == AbsorbAll(node.config, old(node.State()), inbound, now, already, [])
  {
    hide HandleSigned;
    handled, outbound := already, [];
    for i := 0 to |inbound|
      invariant handled == already + i <= MaxInbound(node.config.committee)
      invariant AbsorbAll(node.config, node.State(), inbound[i..], now, handled, outbound)
                == AbsorbAll(node.config, old(node.State()), inbound, now, already, [])
    {
      assert inbound[i..][1..] == inbound[i + 1..];
      if handled + 1 > MaxInbound(node.config.committee) { return Fails(TransportFailed), outbound, handled; }
      handled := handled + 1;
      var progress := node.HandleSigned(inbound[i], now);
      if progress.Err? { return Fails(progress.error), outbound, handled; }
      if progress.value.commits != [] {
        return Commits(progress.value.commits[0], progress.value.outbound), outbound, handled;
      }
      outbound := outbound + progress.value.outbound;
    }
    return Continues, outbound, handled;
  }

  /** Runs one round to a commit or fails, as `Drive` says; `log` is what was published. */
  method DriveRound(node: ConsensusNode, t: Transport, proposal: Proposal, startedAt: int)
    returns (r: Result<CommitRecord, ConsensusError>, handled: nat, ticks: nat, log: Log)
    requires node.config.Valid() && node.roundStartedAt <= startedAt
    modifies node
    ensures Driven(node.State(), r, handled, ticks, log)
            == Drive(node.config, old(node.State()), t, proposal, startedAt)
  {
    hide QueueProposal, Tick, AbsorbAll, Publish;
    var c := node.config;
    handled, ticks, log := 0, 0, [];
    if !t.accepts(c.committee) { return Err(InvalidCommittee), handled, ticks, log; }
    var now, calls: nat := startedAt, 0;
    QueuedOrderly(c, node.State(), proposal, now);
    var progress := node.QueueProposal(proposal, now);
    if progress.Err? { return Err(progress.error), handled, ticks, log; }
    if progress.value.commits != [] {
      var published;
      published, log := PublishAll(c, t, progress.value.outbound, log);
      if published.Err? { return Err(published.error), handled, ticks, log; }
      return Ok(progress.value.commits[0]), handled, ticks, log;
    }
    var outbound := progress.value.outbound;

    while true
      invariant node.config == c && node.roundStartedAt <= now && handled <= MaxInbound(c.committee)
      invariant Loop(c, node.State(), t, outbound, log, calls, now, handled, ticks)
                == Drive(c, old(node.State()), t, proposal, startedAt)
      decreases MaxInbound(c.committee) - handled, RoundsLeft(c, node.State())
    {
      var published;
      published, log := PublishAll(c, t, outbound, log);
      if published.Err? { return Err(published.error), handled, ticks, log; }
      var drained := t.drain(calls, log);
      if drained.Err? { return Err(drained.error), handled, ticks, log; }
      calls := calls + 1;
      if drained.value != [] {
        var ending;
        ending, outbound, handled := Absorb(node, drained.value, now, handled);
        match ending
        case Fails(error) => return Err(error), handled, ticks, log;
        case Commits(commit, last) =>
          published, log := PublishAll(c, t, last, log);
          if published.Err? { return Err(published.error), handled, ticks, log; }
          return Ok(commit), handled, ticks, log;
        case Continues => continue;
      }
      if node.round >= c.committee.maxFaulty { break; }
      now := now + c.roundTimeout;
      ticks := ticks + 1;
      TickAdvances(c, node.State(), now);
      progress := node.Tick(now);
      if progress.Err? { return Err(progress.error), handled, ticks, log; }
      outbound := progress.value.outbound;
      if progress.value.commits != [] {
        published, log := PublishAll(c, t, outbound, log);
        if published.Err? { return Err(published.error), handled, ticks, log; }
        return Ok(progress.value.commits[0]), handled, ticks, log;
      }
    }
    return Err(RoundExpired), handled, ticks, log;
  }
}
