/**
 The per-source sliding-window rate limiter.

 It keeps only pruned windows and forgets idle sources.  It is proved to decide exactly as a limiter that
 keeps the full log of admissions would, for every source the cap on tracked sources never evicts.  An evicted
 source is never rejected where the full log would admit it, but can exceed its limits.  Times are unbounded
 integers.
 */
module RateLimiting {
  import opened Wrappers

  const MAX_TRACKED_SOURCES: nat := 4096
  const MAX_RECENT_VIOLATIONS: nat := 64

  datatype Threshold = Burst | Sustained

  datatype Config = Config(burstMax: nat, burstWindow: nat, sustainedMax: nat, sustainedWindow: nat) {
    function Max(t: Threshold): nat { if t == Burst then burstMax else sustainedMax }
    function Window(t: Threshold): nat { if t == Burst then burstWindow else sustainedWindow }
  }

  datatype Verdict = Admitted | Rejected(threshold: Threshold, retryAfter: int)

  datatype SourceState = SourceState(burst: seq<int>, sustained: seq<int>, lastSeen: int) {
    function Times(t: Threshold): seq<int> { if t == Burst then burst else sustained }
  }

  const UNSEEN := SourceState([], [], 0)

  // -------------------------------------------------------------------------
  // The limiter, on values

  /** Drops expired times from the front. */
  function Pruned(times: seq<int>, now: int, window: nat): seq<int> {
    if times == [] || now - times[0] < window then times else Pruned(times[1..], now, window)
  }

  function RetryAfter(times: seq<int>, now: int, window: nat): int {
    if times == [] then (if window >= 1 then window else 1)
    else var left := times[0] + window - now; if left >= 1 then left else 1
  }

  /** The verdict on windows that are already pruned. */
  function Judge(c: Config, burst: seq<int>, sustained: seq<int>, now: int): Verdict {
    if |burst| >= c.burstMax then Rejected(Burst, RetryAfter(burst, now, c.burstWindow))
    else if |sustained| >= c.sustainedMax then Rejected(Sustained, RetryAfter(sustained, now, c.sustainedWindow))
    else Admitted
  }

  function PruneState(c: Config, s: SourceState, now: int): SourceState {
    s.(burst := Pruned(s.burst, now, c.burstWindow), sustained := Pruned(s.sustained, now, c.sustainedWindow))
  }

  /** A source is forgotten when both windows are empty and it was last admitted a sustained window ago. */
  predicate Idle(c: Config, s: SourceState, now: int) {
    s.burst == [] && s.sustained == [] && now - s.lastSeen >= c.sustainedWindow
  }

  /** What compaction keeps, before the cap on the number of sources. */
  function Retained(c: Config, sources: map<string, SourceState>, now: int): map<string, SourceState> {
    map k | k in sources && !Idle(c, PruneState(c, sources[k], now), now) :: PruneState(c, sources[k], now)
  }

  function StateOf(sources: map<string, SourceState>, k: string): SourceState {
    if k in sources then sources[k] else UNSEEN
  }

  /** The state of the requesting source after its request. */
  function Touched(c: Config, s: SourceState, now: int): SourceState {
    var p := PruneState(c, s, now);
    if Judge(c, p.burst, p.sustained, now).Admitted?
    then SourceState(p.burst + [now], p.sustained + [now], now)
    else p
  }

  function VerdictFor(c: Config, s: SourceState, now: int): Verdict {
    var p := PruneState(c, s, now); Judge(c, p.burst, p.sustained, now)
  }

  // -------------------------------------------------------------------------
  // The specification: a full log of admissions

  /** The admissions still inside the window. */
  function Recent(log: seq<int>, now: int, window: nat): seq<int> {
    if log == [] then []
    else (if now - log[0] < window then [log[0]] else []) + Recent(log[1..], now, window)
  }

  function Decide(c: Config, log: seq<int>, now: int): Verdict {
    Judge(c, Recent(log, now, c.burstWindow), Recent(log, now, c.sustainedWindow), now)
  }

  ghost predicate Sorted(log: seq<int>) { forall i, j | 0 <= i < j < |log| :: log[i] <= log[j] }

  /** No window-length interval holds more than `max` admissions: an admission and the one `max` places
      earlier are at least a window apart. */
  ghost predicate Spaced(log: seq<int>, max: nat, window: nat) {
    && (max == 0 ==> log == [])
    && forall i | max <= i < |log| :: log[i] - log[i - max] >= window
  }

  function CountBetween(log: seq<int>, lo: int, hi: int): nat {
    if log == [] then 0
    else (if lo <= log[0] < hi then 1 else 0) + CountBetween(log[1..], lo, hi)
  }

  // -------------------------------------------------------------------------
  // Windows

  /** The pruned window of a sorted log is its recent part. */
  lemma {:induction false} PrunedIsRecent(log: seq<int>, now: int, window: nat)
    requires Sorted(log)
    ensures Pruned(log, now, window) == Recent(log, now, window)
  {
    if log != [] {
      PrunedIsRecent(log[1..], now, window);
      if now - log[0] < window { AllRecent(log, now, window); }
    }
  }

  lemma {:induction false} AllRecent(log: seq<int>, now: int, window: nat)
    requires forall i | 0 <= i < |log| :: now - log[i] < window
    ensures Recent(log, now, window) == log
  {
    if log != [] { AllRecent(log[1..], now, window); }
  }

  /** `times` is the end of the log, and everything before it had left the window by time `t`. */
  ghost predicate Exact(times: seq<int>, log: seq<int>, t: int, window: nat) {
    && IsSuffix(times, log)
    && forall i | 0 <= i < |log| - |times| :: t - log[i] >= window
  }

  ghost predicate IsSuffix(times: seq<int>, log: seq<int>) {
    |times| <= |log| && times == log[|log| - |times|..]
  }

  /** Pruning the kept end of the log at a later time gives what pruning the whole log would. */
  lemma {:induction false} PrunedExact(times: seq<int>, log: seq<int>, t: int, now: int, window: nat)
    requires Exact(times, log, t, window) && t <= now
    ensures Pruned(times, now, window) == Pruned(log, now, window)
    ensures Exact(Pruned(log, now, window), log, now, window)
    decreases |log|
  {
    if |times| < |log| {
      assert log[1..][|log[1..]| - |times|..] == times;
      forall i | 0 <= i < |log[1..]| - |times| ensures t - log[1..][i] >= window { assert log[1..][i] == log[i + 1]; }
      PrunedExact(times, log[1..], t, now, window);
      PrunedTail(log, now, window);
    } else {
      PrunedOwn(log, now, window);
    }
  }

  lemma PrunedTail(log: seq<int>, now: int, window: nat)
    requires log != [] && now - log[0] >= window && Exact(Pruned(log[1..], now, window), log[1..], now, window)
    ensures Exact(Pruned(log, now, window), log, now, window)
  {
    var times, rest := Pruned(log[1..], now, window), log[1..];
    assert log[|log| - |times|..] == rest[|rest| - |times|..];
    forall i | 0 <= i < |log| - |times| ensures now - log[i] >= window {
      if i > 0 { assert log[i] == rest[i - 1]; }
    }
  }

  lemma {:induction false} PrunedOwn(log: seq<int>, now: int, window: nat)
    ensures Exact(Pruned(log, now, window), log, now, window)
  {
    if log != [] && now - log[0] >= window {
      PrunedOwn(log[1..], now, window);
      PrunedTail(log, now, window);
    }
  }

  // -------------------------------------------------------------------------
  // Runs

  /** One request, and the sources the cap evicts after it. */
  datatype Turn = Turn(source: string, now: int, evicted: set<string>)

  /** The limiter together with the log of what it admitted. */
  datatype World = World(sources: map<string, SourceState>, logs: map<string, seq<int>>, verdicts: seq<Verdict>)

  function LogOf(logs: map<string, seq<int>>, k: string): seq<int> { if k in logs then logs[k] else [] }

  function Sources(c: Config, sources: map<string, SourceState>, turn: Turn): map<string, SourceState> {
    var s := StateOf(sources, turn.source);
    Retained(c, sources[turn.source := Touched(c, s, turn.now)], turn.now) - turn.evicted
  }

  /** Whatever was evicted had been admitted no later than anything kept. */
  ghost predicate OnlyOldest(retained: map<string, SourceState>, kept: map<string, SourceState>) {
    forall k, e | k in kept && e in retained && e !in kept :: retained[e].lastSeen <= kept[k].lastSeen
  }

  /** The turn evicts as compaction does: the oldest sources down to the cap, and none below it. */
  ghost predicate Evicts(c: Config, sources: map<string, SourceState>, turn: Turn) {
    var all := Sources(c, sources, turn.(evicted := {}));
    if |all| <= MAX_TRACKED_SOURCES then turn.evicted == {}
    else |all - turn.evicted| == MAX_TRACKED_SOURCES && OnlyOldest(all, all - turn.evicted)
  }

  function After(c: Config, w: World, turn: Turn): World {
    var verdict := VerdictFor(c, StateOf(w.sources, turn.source), turn.now);
    var log := LogOf(w.logs, turn.source);
    World(Sources(c, w.sources, turn),
          w.logs[turn.source := if verdict.Admitted? then log + [turn.now] else log],
          w.verdicts + [verdict])
  }

  function Run(c: Config, turns: seq<Turn>): (w: World)
    ensures |w.verdicts| == |turns|
  {
    if turns == [] then World(map[], map[], [])
    else After(c, Run(c, turns[..|turns| - 1]), turns[|turns| - 1])
  }

  ghost predicate Ordered(turns: seq<Turn>) { forall i, j | 0 <= i < j < |turns| :: turns[i].now <= turns[j].now }

  /** The source is never evicted. */
  ghost predicate Spared(turns: seq<Turn>, k: string) { forall i | 0 <= i < |turns| :: k !in turns[i].evicted }

  /** What is tracked of a source is the end of its log, exactly so if it was not evicted. */
  ghost predicate TracksSource(c: Config, w: World, t: int, exact: bool, k: string) {
    var s, log := StateOf(w.sources, k), LogOf(w.logs, k);
    && Sorted(log) && (forall i | 0 <= i < |log| :: log[i] <= t)
    && forall th: Threshold ::
         && IsSuffix(s.Times(th), log)
         && (exact ==> Exact(s.Times(th), log, t, c.Window(th)) && Spaced(log, c.Max(th), c.Window(th)))
  }

  /** One window of a source that makes no request. */
  lemma PrunedKeeps(times: seq<int>, log: seq<int>, t: int, now: int, window: nat, exact: bool)
    requires IsSuffix(times, log) && t <= now && (exact ==> Exact(times, log, t, window))
    ensures IsSuffix(Pruned(times, now, window), log)
    ensures exact ==> Exact(Pruned(times, now, window), log, now, window)
  {
    if exact { PrunedExact(times, log, t, now, window); }
    PrunedOwn(times, now, window);
    SuffixOfSuffix(Pruned(times, now, window), times, log);
  }

  lemma SuffixOfSuffix(a: seq<int>, b: seq<int>, c: seq<int>)
    requires IsSuffix(a, b) && IsSuffix(b, c)
    ensures IsSuffix(a, c)
  {
    assert c[|c| - |a|..] == c[|c| - |b|..][|b| - |a|..];
  }

  /** Compaction and eviction forget only empty windows, or exactness. */
  lemma KeptWindow(
    c: Config, sources: map<string, SourceState>, now: int, evicted: set<string>, k: string, th: Threshold,
    log: seq<int>, t: int, exact: bool)
    requires t <= now && (exact ==> k !in evicted)
    requires IsSuffix(StateOf(sources, k).Times(th), log)
    requires exact ==> Exact(StateOf(sources, k).Times(th), log, t, c.Window(th))
    ensures var s := StateOf(Retained(c, sources, now) - evicted, k);
            && IsSuffix(s.Times(th), log)
            && (exact ==> Exact(s.Times(th), log, now, c.Window(th)))
  {
    var s := StateOf(sources, k);
    PrunedKeeps(s.Times(th), log, t, now, c.Window(th), exact);
    assert PruneState(c, s, now).Times(th) == Pruned(s.Times(th), now, c.Window(th));
    assert k !in sources ==> Pruned(s.Times(th), now, c.Window(th)) == [];
    assert IsSuffix([], log);
  }

  /** Appending an admission to a pruned window and to the log. */
  lemma AppendKeeps(times: seq<int>, log: seq<int>, now: int, window: nat, max: nat, exact: bool)
    requires IsSuffix(times, log) && |times| < max
    requires exact ==> Exact(times, log, now, window) && Spaced(log, max, window)
    ensures IsSuffix(times + [now], log + [now])
    ensures exact ==> Exact(times + [now], log + [now], now, window) && Spaced(log + [now], max, window)
  {
    var log' := log + [now];
    assert log'[|log'| - |times + [now]|..] == times + [now];
    if exact {
      forall i | 0 <= i < |log'| - |times + [now]| ensures now - log'[i] >= window { assert log'[i] == log[i]; }
      forall i | max <= i < |log'| ensures log'[i] - log'[i - max] >= window {
        if i < |log| { assert log'[i] == log[i]; }
      }
    }
  }

  /** The requesting source, one window at a time, before compaction. */
  lemma TouchedWindow(c: Config, s: SourceState, log: seq<int>, t: int, now: int, exact: bool, th: Threshold)
    requires t <= now && IsSuffix(s.Times(th), log)
    requires exact ==> Exact(s.Times(th), log, t, c.Window(th)) && Spaced(log, c.Max(th), c.Window(th))
    ensures var log' := if VerdictFor(c, s, now).Admitted? then log + [now] else log;
            && IsSuffix(Touched(c, s, now).Times(th), log')
            && (exact ==>
                  Exact(Touched(c, s, now).Times(th), log', now, c.Window(th)) && Spaced(log', c.Max(th), c.Window(th)))
  {
    hide Pruned, Exact, Spaced, IsSuffix;
    PrunedKeeps(s.Times(th), log, t, now, c.Window(th), exact);
    var p := PruneState(c, s, now);
    assert p.Times(th) == Pruned(s.Times(th), now, c.Window(th));
    if VerdictFor(c, s, now).Admitted? {
      AppendKeeps(p.Times(th), log, now, c.Window(th), c.Max(th), exact);
    }
  }

  /** One turn keeps every source tracked. */
  lemma AfterTracksSource(c: Config, w: World, t: int, exact: bool, turn: Turn, k: string)
    requires TracksSource(c, w, t, exact, k) && t <= turn.now && (exact ==> k !in turn.evicted)
    ensures TracksSource(c, After(c, w, turn), turn.now, exact, k)
  {
    hide Pruned, Exact, Spaced, IsSuffix, Retained, Touched, VerdictFor;
    var now, s := turn.now, StateOf(w.sources, turn.source);
    var sources, w' := w.sources[turn.source := Touched(c, s, now)], After(c, w, turn);
    var log' := LogOf(w'.logs, k);
    if k == turn.source {
      forall th: Threshold
        ensures IsSuffix(StateOf(w'.sources, k).Times(th), log')
        ensures exact ==> Exact(StateOf(w'.sources, k).Times(th), log', now, c.Window(th))
                          && Spaced(log', c.Max(th), c.Window(th))
      {
        TouchedWindow(c, s, LogOf(w.logs, k), t, now, exact, th);
        KeptWindow(c, sources, now, turn.evicted, k, th, log', now, exact);
      }
    } else {
      assert StateOf(sources, k) == StateOf(w.sources, k) && log' == LogOf(w.logs, k);
      forall th: Threshold
        ensures IsSuffix(StateOf(w'.sources, k).Times(th), log')
        ensures exact ==> Exact(StateOf(w'.sources, k).Times(th), log', now, c.Window(th))
                          && Spaced(log', c.Max(th), c.Window(th))
      {
        KeptWindow(c, sources, now, turn.evicted, k, th, log', t, exact);
      }
    }
  }

  function LastTime(turns: seq<Turn>, start: int): int {
    if turns == [] then start else turns[|turns| - 1].now
  }

  lemma {:induction false} RunTracks(c: Config, turns: seq<Turn>, exact: bool, start: int, k: string)
    requires Ordered(turns) && (exact ==> Spared(turns, k))
    ensures TracksSource(c, Run(c, turns), LastTime(turns, start), exact, k)
  {
    hide TracksSource, After;
    if turns == [] { EmptyTracks(c, start, exact, k); }
    else {
      var front, last := turns[..|turns| - 1], turns[|turns| - 1];
      RunTracks(c, front, exact, last.now, k);
      AfterTracksSource(c, Run(c, front), LastTime(front, last.now), exact, last, k);
    }
  }

  lemma EmptyTracks(c: Config, t: int, exact: bool, k: string)
    ensures TracksSource(c, World(map[], map[], []), t, exact, k)
  {
  }

  /** The verdict of a source whose windows are exact is the verdict of its log. */
  lemma VerdictMatches(c: Config, s: SourceState, log: seq<int>, t: int, now: int)
    requires t <= now && Sorted(log)
    requires Exact(s.burst, log, t, c.burstWindow) && Exact(s.sustained, log, t, c.sustainedWindow)
    ensures VerdictFor(c, s, now) == Decide(c, log, now)
  {
    hide Pruned, Recent, Exact;
    PrunedExact(s.burst, log, t, now, c.burstWindow);
    PrunedExact(s.sustained, log, t, now, c.sustainedWindow);
    PrunedIsRecent(log, now, c.burstWindow);
    PrunedIsRecent(log, now, c.sustainedWindow);
  }

  /** Keeping less of the log can only admit more. */
  lemma {:induction false} SuffixPrunesToLess(times: seq<int>, log: seq<int>, now: int, window: nat)
    requires IsSuffix(times, log) && Sorted(log)
    ensures |Pruned(times, now, window)| <= |Recent(log, now, window)|
    decreases |log|
  {
    if |times| < |log| {
      assert log[1..][|log[1..]| - |times|..] == times;
      SuffixPrunesToLess(times, log[1..], now, window);
    } else {
      PrunedIsRecent(log, now, window);
    }
  }

  lemma RejectionJustified(c: Config, s: SourceState, log: seq<int>, now: int)
    requires Sorted(log) && IsSuffix(s.burst, log) && IsSuffix(s.sustained, log)
    ensures VerdictFor(c, s, now).Rejected? ==> Decide(c, log, now).Rejected?
  {
    hide Pruned, Recent;
    SuffixPrunesToLess(s.burst, log, now, c.burstWindow);
    SuffixPrunesToLess(s.sustained, log, now, c.sustainedWindow);
  }

  // -------------------------------------------------------------------------
  // Theorems over runs

  lemma {:induction false} RunVerdict(c: Config, turns: seq<Turn>, i: nat)
    requires i < |turns|
    ensures Run(c, turns).verdicts[i]
            == VerdictFor(c, StateOf(Run(c, turns[..i]).sources, turns[i].source), turns[i].now)
    decreases |turns|
  {
    var front := turns[..|turns| - 1];
    if i < |front| {
      RunVerdict(c, front, i);
      assert front[..i] == turns[..i];
    }
  }

  /** Every verdict on a source not evicted so far, its threshold and its retry delay included, is the one a full
      log of admissions would give: neither pruning nor compaction ever changes a decision. */
  lemma MatchesFullLog(c: Config, turns: seq<Turn>, i: nat)
    requires Ordered(turns) && i < |turns| && Spared(turns[..i], turns[i].source)
    ensures Run(c, turns).verdicts[i] == Decide(c, LogOf(Run(c, turns[..i]).logs, turns[i].source), turns[i].now)
  {
    hide Run, Decide, VerdictFor;
    RunVerdict(c, turns, i);
    var w, turn := Run(c, turns[..i]), turns[i];
    RunTracks(c, turns[..i], true, turn.now, turn.source);
    var s := StateOf(w.sources, turn.source);
    assert s.Times(Burst) == s.burst && s.Times(Sustained) == s.sustained;
    VerdictMatches(c, s, LogOf(w.logs, turn.source), LastTime(turns[..i], turn.now), turn.now);
  }

  /** With evictions too, a request is rejected only if its full log would reject it. */
  lemma RejectsOnlyIfLogDoes(c: Config, turns: seq<Turn>, i: nat)
    requires Ordered(turns) && i < |turns| && Run(c, turns).verdicts[i].Rejected?
    ensures Decide(c, LogOf(Run(c, turns[..i]).logs, turns[i].source), turns[i].now).Rejected?
  {
    hide Run, Decide, VerdictFor;
    RunVerdict(c, turns, i);
    var w, turn := Run(c, turns[..i]), turns[i];
    RunTracks(c, turns[..i], false, turn.now, turn.source);
    var s := StateOf(w.sources, turn.source);
    assert s.Times(Burst) == s.burst && s.Times(Sustained) == s.sustained;
    RejectionJustified(c, s, LogOf(w.logs, turn.source), turn.now);
  }

  lemma {:induction false} SpacedBounds(log: seq<int>, max: nat, window: nat, lo: int)
    requires Sorted(log) && Spaced(log, max, window)
    ensures CountBetween(log, lo, lo + window) <= max
    decreases |log|
  {
    if log != [] {
      if lo <= log[0] < lo + window {
        if |log| > max { assert log[max] - log[0] >= window; }
        CountFrom(log, lo, lo + window, max);
      } else {
        assert Spaced(log[1..], max, window) by {
          forall i | max <= i < |log[1..]| ensures log[1..][i] - log[1..][i - max] >= window {
            assert log[i + 1] - log[i + 1 - max] >= window;
          }
        }
        SpacedBounds(log[1..], max, window, lo);
      }
    }
  }

  /** A sorted log counts nothing from its first entry past the interval on. */
  lemma {:induction false} CountFrom(log: seq<int>, lo: int, hi: int, n: nat)
    requires Sorted(log) && (|log| > n ==> log[n] >= hi)
    ensures CountBetween(log, lo, hi) <= n
  {
    if log != [] {
      if n == 0 {
        assert Sorted(log[1..]) && (|log[1..]| > 0 ==> log[1] >= hi);
        CountFrom(log[1..], lo, hi, 0);
      } else {
        CountFrom(log[1..], lo, hi, n - 1);
      }
    }
  }

  /** No interval of a window's length ever holds more admissions than the limit of that window, of a source that
      is never evicted. */
  lemma NoWindowExceedsLimit(c: Config, turns: seq<Turn>, k: string, th: Threshold, lo: int)
    requires Ordered(turns) && Spared(turns, k)
    ensures CountBetween(LogOf(Run(c, turns).logs, k), lo, lo + c.Window(th)) <= c.Max(th)
  {
    hide Run;
    RunTracks(c, turns, true, 0, k);
    var times := StateOf(Run(c, turns).sources, k).Times(th);
    SpacedBounds(LogOf(Run(c, turns).logs, k), c.Max(th), c.Window(th), lo);
  }

  // -------------------------------------------------------------------------
  // The retry delay

  lemma {:induction false} RecentCount(log: seq<int>, now: int, window: nat)
    requires forall i | 0 <= i < |log| :: log[i] <= now
    ensures |Recent(log, now, window)| == CountBetween(log, now - window + 1, now + 1)
  {
    if log != [] { RecentCount(log[1..], now, window); }
  }

  lemma {:induction false} PrunedShrinks(times: seq<int>, now: int, window: nat)
    ensures |Pruned(times, now, window)| <= |times|
  {
    if times != [] && now - times[0] >= window { PrunedShrinks(times[1..], now, window); }
  }

  lemma {:induction false} PrunedFront(times: seq<int>, now: int, window: nat)
    ensures var p := Pruned(times, now, window); p != [] ==> now - p[0] < window
  {
    if times != [] && now - times[0] >= window { PrunedFront(times[1..], now, window); }
  }

  /** As time passes the recent part of a log stays as it is until its first entry expires, and then has fewer. */
  lemma RecentLater(log: seq<int>, now: int, t: int, window: nat)
    requires Sorted(log) && now <= t
    ensures var r, r' := Recent(log, now, window), Recent(log, t, window);
            && |r'| <= |r|
            && (r != [] ==> now - r[0] < window)
            && (r != [] ==> if t < r[0] + window then r' == r else |r'| < |r|)
  {
    hide Recent;
    PrunedIsRecent(log, now, window);
    PrunedIsRecent(log, t, window);
    PrunedOwn(log, now, window);
    PrunedExact(Pruned(log, now, window), log, now, t, window);
    var r := Pruned(log, now, window);
    PrunedShrinks(r, t, window);
    PrunedFront(log, now, window);
    if r != [] && t >= r[0] + window { PrunedShrinks(r[1..], t, window); }
  }

  /** What a log must satisfy at time `now`; every log of a run does. */
  ghost predicate LogOk(c: Config, log: seq<int>, now: int) {
    && Sorted(log) && (forall i | 0 <= i < |log| :: log[i] <= now)
    && Spaced(log, c.burstMax, c.burstWindow) && Spaced(log, c.sustainedMax, c.sustainedWindow)
  }

  lemma NeverOverfull(c: Config, log: seq<int>, now: int, th: Threshold)
    requires LogOk(c, log, now)
    ensures |Recent(log, now, c.Window(th))| <= c.Max(th)
  {
    RecentCount(log, now, c.Window(th));
    SpacedBounds(log, c.Max(th), c.Window(th), now - c.Window(th) + 1);
  }

  predicate RejectsBy(v: Verdict, th: Threshold) { v.Rejected? && v.threshold == th }

  /** On an unchanged log, the same threshold rejects until the retry delay has passed, and not after. */
  lemma RetryOnLog(c: Config, log: seq<int>, now: int, t: int)
    requires LogOk(c, log, now) && now <= t && Decide(c, log, now).Rejected?
    requires c.Max(Decide(c, log, now).threshold) >= 1
    ensures var v := Decide(c, log, now);
            RejectsBy(Decide(c, log, t), v.threshold) <==> t < now + v.retryAfter
  {
    hide Recent, LogOk;
    assert Sorted(log) by { LogSorted(c, log, now); }
    RecentLater(log, now, t, c.burstWindow);
    RecentLater(log, now, t, c.sustainedWindow);
    NeverOverfull(c, log, now, Burst);
    NeverOverfull(c, log, now, Sustained);
  }

  lemma LogSorted(c: Config, log: seq<int>, now: int)
    requires LogOk(c, log, now)
    ensures Sorted(log)
  {
  }

  lemma RunLogOk(c: Config, turns: seq<Turn>, k: string, now: int)
    requires Ordered(turns) && Spared(turns, k) && (turns != [] ==> turns[|turns| - 1].now <= now)
    ensures LogOk(c, LogOf(Run(c, turns).logs, k), now)
  {
    hide Run;
    RunTracks(c, turns, true, now, k);
    var s := StateOf(Run(c, turns).sources, k);
    assert s.Times(Burst) == s.burst && s.Times(Sustained) == s.sustained;
  }

  /** Requests of the source at indexes strictly between `i` and `m` all come before `deadline`. */
  ghost predicate AllBefore(turns: seq<Turn>, i: nat, m: nat, deadline: int)
    requires i < m <= |turns|
  {
    forall n | i < n < m && turns[n].source == turns[i].source :: turns[n].now < deadline
  }

  lemma LogStep(c: Config, turns: seq<Turn>, n: nat, k: string)
    requires n < |turns| && (turns[n].source == k ==> Run(c, turns).verdicts[n].Rejected?)
    ensures LogOf(Run(c, turns[..n + 1]).logs, k) == LogOf(Run(c, turns[..n]).logs, k)
  {
    hide Sources, VerdictFor;
    assert turns[..n + 1][..n] == turns[..n];
    RunVerdict(c, turns, n);
  }

  /** After a rejection the log stands still while every further request comes before the retry time. */
  lemma {:induction false} LogStandsStill(c: Config, turns: seq<Turn>, i: nat, m: nat)
    requires Ordered(turns) && i < m <= |turns| && Spared(turns[..m], turns[i].source)
    requires Run(c, turns).verdicts[i].Rejected? && c.Max(Run(c, turns).verdicts[i].threshold) >= 1
    requires AllBefore(turns, i, m, turns[i].now + Run(c, turns).verdicts[i].retryAfter)
    ensures LogOf(Run(c, turns[..m]).logs, turns[i].source) == LogOf(Run(c, turns[..i]).logs, turns[i].source)
    decreases m
  {
    hide Run, Decide, LogOk;
    var k, log, n := turns[i].source, LogOf(Run(c, turns[..i]).logs, turns[i].source), m - 1;
    MatchesFullLog(c, turns, i);
    if n == i {
      LogStep(c, turns, i, k);
    } else {
      LogStandsStill(c, turns, i, n);
      if turns[n].source == k {
        MatchesFullLog(c, turns, n);
        RunLogOk(c, turns[..i], k, turns[i].now);
        RetryOnLog(c, log, turns[i].now, turns[n].now);
      }
      LogStep(c, turns, n, k);
    }
  }

  /** The retry delay is exact.  After a rejection by a window that admits anything at all, the next requests
      of that source are rejected by the same window if and only if they come before the announced time. */
  lemma RetryIsExact(c: Config, turns: seq<Turn>, i: nat, j: nat)
    requires Ordered(turns) && i < j < |turns| && turns[j].source == turns[i].source
    requires Spared(turns[..j], turns[i].source)
    requires Run(c, turns).verdicts[i].Rejected? && c.Max(Run(c, turns).verdicts[i].threshold) >= 1
    requires AllBefore(turns, i, j, turns[i].now + Run(c, turns).verdicts[i].retryAfter)
    ensures var v := Run(c, turns).verdicts[i];
            RejectsBy(Run(c, turns).verdicts[j], v.threshold) <==> turns[j].now < turns[i].now + v.retryAfter
  {
    hide Run, Decide, LogOk;
    var k := turns[i].source;
    LogStandsStill(c, turns, i, j);
    MatchesFullLog(c, turns, i);
    MatchesFullLog(c, turns, j);
    RunLogOk(c, turns[..i], k, turns[i].now);
    RetryOnLog(c, LogOf(Run(c, turns[..i]).logs, k), turns[i].now, turns[j].now);
  }

  // -------------------------------------------------------------------------
  // The verdict, by counting

  /** The admissions of a source that are less than a window old when its request `i` comes. */
  function Standing(c: Config, turns: seq<Turn>, i: nat, th: Threshold): nat
    requires i < |turns|
  {
    CountBetween(LogOf(Run(c, turns[..i]).logs, turns[i].source), turns[i].now - c.Window(th) + 1, turns[i].now + 1)
  }

  /** A request of a source not evicted so far is admitted exactly while both windows hold fewer admissions than their
      limits; otherwise the burst limit is named if it is reached, and the sustained one if only that is.  Where a
      limit admits nothing, the delay announced is the window, or one at least. */
  lemma {:induction false} VerdictsCount(c: Config, turns: seq<Turn>, i: nat)
    requires Ordered(turns) && i < |turns| && Spared(turns[..i], turns[i].source)
    ensures var v, burst, sustained :=
              Run(c, turns).verdicts[i], Standing(c, turns, i, Burst), Standing(c, turns, i, Sustained);
            && (v.Admitted? <==> burst < c.burstMax && sustained < c.sustainedMax)
            && (RejectsBy(v, Burst) <==> burst >= c.burstMax)
            && (RejectsBy(v, Sustained) <==> burst < c.burstMax && sustained >= c.sustainedMax)
            && (v.Rejected? && c.Max(v.threshold) == 0 ==>
                  v.retryAfter == if c.Window(v.threshold) >= 1 then c.Window(v.threshold) else 1)
  {
    hide Run, Recent, CountBetween;
    var turn, log := turns[i], LogOf(Run(c, turns[..i]).logs, turns[i].source);
    MatchesFullLog(c, turns, i);
    RunLogOk(c, turns[..i], turn.source, turn.now);
    assert log == [] ==> forall w: nat :: Recent(log, turn.now, w) == [] by { NoneRecent(turn.now); }
    RecentCount(log, turn.now, c.burstWindow);
    RecentCount(log, turn.now, c.sustainedWindow);
  }

  lemma NoneRecent(now: int)
    ensures forall w: nat :: Recent([], now, w) == []
  {
  }

  // -------------------------------------------------------------------------
  // Which sources are tracked

  /** The last admission of a source, or zero. */
  function LastAdmitted(log: seq<int>): int { if log == [] then 0 else log[|log| - 1] }

  /** The last admission is less than a sustained window ago, or is one and less than a burst window ago. */
  predicate Remembered(c: Config, log: seq<int>, now: int) {
    now - LastAdmitted(log) < c.sustainedWindow || (log != [] && now - LastAdmitted(log) < c.burstWindow)
  }

  predicate Asked(turns: seq<Turn>, k: string) { exists i :: 0 <= i < |turns| && turns[i].source == k }

  lemma {:induction false} LastRecent(log: seq<int>, now: int, window: nat)
    requires Sorted(log)
    ensures Recent(log, now, window) == [] <==> log == [] || now - log[|log| - 1] >= window
  {
    if log != [] {
      LastRecent(log[1..], now, window);
      assert log[0] <= log[|log| - 1];
    }
  }

  /** A source is tracked exactly if it asked and is remembered, with the time of its last admission. */
  ghost predicate TracksExactly(c: Config, w: World, now: int, k: string, asked: bool) {
    var log := LogOf(w.logs, k);
    && (k in w.sources <==> asked && Remembered(c, log, now))
    && (k in w.sources ==> w.sources[k].lastSeen == LastAdmitted(log)) && (!asked ==> log == [])
  }

  /** What pruning leaves of a source whose windows are exact is idle exactly if it is no longer remembered. */
  lemma IdleExactly(c: Config, s: SourceState, log: seq<int>, t: int, now: int)
    requires t <= now && Sorted(log) && s.lastSeen == LastAdmitted(log)
    requires Exact(s.burst, log, t, c.burstWindow) && Exact(s.sustained, log, t, c.sustainedWindow)
    ensures Idle(c, PruneState(c, s, now), now) <==> !Remembered(c, log, now)
  {
    hide Pruned, Recent, Exact;
    PrunedExact(s.burst, log, t, now, c.burstWindow);
    PrunedExact(s.sustained, log, t, now, c.sustainedWindow);
    PrunedIsRecent(log, now, c.burstWindow);
    PrunedIsRecent(log, now, c.sustainedWindow);
    LastRecent(log, now, c.burstWindow);
    LastRecent(log, now, c.sustainedWindow);
  }

  lemma TouchedExactly(c: Config, w: World, t: int, turn: Turn)
    requires TracksSource(c, w, t, true, turn.source) && t <= turn.now
    requires turn.source in w.sources ==> w.sources[turn.source].lastSeen == LastAdmitted(LogOf(w.logs, turn.source))
    ensures var s, log := StateOf(w.sources, turn.source), LogOf(After(c, w, turn).logs, turn.source);
            var touched := Touched(c, s, turn.now);
            && Sorted(log) && touched.lastSeen == LastAdmitted(log)
            && Exact(touched.burst, log, turn.now, c.burstWindow)
            && Exact(touched.sustained, log, turn.now, c.sustainedWindow)
  {
    hide Pruned, Exact, Spaced, IsSuffix;
    var s, log := StateOf(w.sources, turn.source), LogOf(w.logs, turn.source);
    TouchedWindow(c, s, log, t, turn.now, true, Burst);
    TouchedWindow(c, s, log, t, turn.now, true, Sustained);
    var touched := Touched(c, s, turn.now);
    assert touched.Times(Burst) == touched.burst && touched.Times(Sustained) == touched.sustained;
    assert s.Times(Burst) == s.burst && s.Times(Sustained) == s.sustained;
    if turn.source !in w.sources && !VerdictFor(c, s, turn.now).Admitted? { UnseenRejected(c, log, turn.now); }
  }

  /** An unknown source is refused only by a limit that admits nothing, and then its log is empty. */
  lemma UnseenRejected(c: Config, log: seq<int>, now: int)
    requires Spaced(log, c.Max(Burst), c.Window(Burst)) && Spaced(log, c.Max(Sustained), c.Window(Sustained))
    requires !VerdictFor(c, UNSEEN, now).Admitted?
    ensures log == []
  {
  }

  lemma AfterTracksExactly(c: Config, w: World, t: int, turn: Turn, k: string, asked: bool)
    requires TracksSource(c, w, t, true, k) && TracksExactly(c, w, t, k, asked) && t <= turn.now && k !in turn.evicted
    ensures TracksExactly(c, After(c, w, turn), turn.now, k, asked || turn.source == k)
  {
    hide Pruned, Exact, Spaced, IsSuffix, Touched, VerdictFor, Idle, PruneState;
    var now, s, w' := turn.now, StateOf(w.sources, turn.source), After(c, w, turn);
    var sources := w.sources[turn.source := Touched(c, s, now)];
    RetainedAt(c, sources, now, k);
    if k == turn.source {
      TouchedExactly(c, w, t, turn);
      IdleExactly(c, Touched(c, s, now), LogOf(w'.logs, k), now, now);
    } else if k in w.sources {
      var mine := StateOf(w.sources, k);
      assert Exact(mine.Times(Burst), LogOf(w.logs, k), t, c.Window(Burst));
      assert Exact(mine.Times(Sustained), LogOf(w.logs, k), t, c.Window(Sustained));
      IdleExactly(c, w.sources[k], LogOf(w.logs, k), t, now);
    }
  }

  lemma RetainedAt(c: Config, sources: map<string, SourceState>, now: int, k: string)
    ensures k in Retained(c, sources, now) <==> k in sources && !Idle(c, PruneState(c, sources[k], now), now)
    ensures k in Retained(c, sources, now) ==> Retained(c, sources, now)[k].lastSeen == sources[k].lastSeen
  {
  }

  lemma AskedGrows(turns: seq<Turn>, k: string)
    requires turns != []
    ensures Asked(turns, k) <==> Asked(turns[..|turns| - 1], k) || turns[|turns| - 1].source == k
  {
    var n := |turns| - 1;
    if Asked(turns[..n], k) {
      var i :| 0 <= i < n && turns[..n][i].source == k;
      assert turns[i].source == k;
    }
    if Asked(turns, k) {
      var i :| 0 <= i < |turns| && turns[i].source == k;
      if i < n { assert turns[..n][i].source == k; }
    }
  }

  lemma {:induction false} RunTracksExactly(c: Config, turns: seq<Turn>, start: int, k: string)
    requires Ordered(turns) && Spared(turns, k)
    ensures TracksExactly(c, Run(c, turns), LastTime(turns, start), k, Asked(turns, k))
  {
    hide TracksExactly, After, TracksSource;
    if turns == [] { NothingTracked(c, start, k); }
    else {
      var front, last := turns[..|turns| - 1], turns[|turns| - 1];
      RunTracksExactly(c, front, last.now, k);
      RunTracks(c, front, true, last.now, k);
      AfterTracksExactly(c, Run(c, front), LastTime(front, last.now), last, k, Asked(front, k));
      AskedGrows(turns, k);
    }
  }

  lemma NothingTracked(c: Config, start: int, k: string)
    ensures TracksExactly(c, Run(c, []), start, k, Asked([], k))
  {
  }

  /** A source that is never evicted is tracked exactly from its first request on, while its last admission lies less
      than a sustained window back, or a burst window; so idle sources are forgotten, and no others. */
  lemma TrackedExactly(c: Config, turns: seq<Turn>, k: string)
    requires Ordered(turns) && Spared(turns, k) && turns != []
    ensures k in Run(c, turns).sources <==>
              Asked(turns, k) && Remembered(c, LogOf(Run(c, turns).logs, k), turns[|turns| - 1].now)
  {
    hide Run;
    RunTracksExactly(c, turns, 0, k);
  }

  // -------------------------------------------------------------------------
  // How many sources there may be

  /** Every turn of the run evicts as compaction does. */
  ghost predicate Lawful(c: Config, turns: seq<Turn>) {
    forall i | 0 <= i < |turns| :: Evicts(c, Run(c, turns[..i]).sources, turns[i])
  }

  ghost predicate From(turns: seq<Turn>, names: set<string>) {
    forall i | 0 <= i < |turns| :: turns[i].source in names
  }

  lemma SubsetSize(a: set<string>, b: set<string>)
    requires a <= b
    ensures |a| <= |b|
  {
    assert b == a + (b - a);
  }

  lemma {:induction false} TrackedNames(c: Config, turns: seq<Turn>, names: set<string>)
    requires From(turns, names)
    ensures Run(c, turns).sources.Keys <= names
  {
    hide Touched, VerdictFor, PruneState;
    if turns != [] { TrackedNames(c, turns[..|turns| - 1], names); }
  }

  /** So few sources are never evicted. */
  lemma NoneEvicted(c: Config, turns: seq<Turn>, names: set<string>, k: string)
    requires Lawful(c, turns) && From(turns, names) && |names| <= MAX_TRACKED_SOURCES
    ensures Spared(turns, k)
  {
    hide Run, Sources;
    forall i | 0 <= i < |turns| ensures turns[i].evicted == {} {
      var turn := turns[i].(evicted := {});
      var front := turns[..i] + [turn];
      assert front[..i] == turns[..i];
      TrackedNames(c, front, names);
      RunLast(c, turns[..i], turn);
      SubsetSize(Run(c, front).sources.Keys, names);
      assert Evicts(c, Run(c, turns[..i]).sources, turns[i]);
    }
  }

  lemma RunLast(c: Config, turns: seq<Turn>, turn: Turn)
    ensures Run(c, turns + [turn]) == After(c, Run(c, turns), turn)
  {
    hide After;
    assert (turns + [turn])[..|turns|] == turns;
  }

  // -------------------------------------------------------------------------
  // An evicted source exceeds its limits

  /** The limits admit something, and the windows last beyond the next instant. */
  predicate Open(c: Config) { c.burstMax > 0 && c.sustainedMax > 0 && c.burstWindow > 1 && c.sustainedWindow > 1 }

  function Tightest(c: Config): Threshold { if c.burstMax <= c.sustainedMax then Burst else Sustained }

  function Zeros(n: nat): seq<int> { seq(n, _ => 0) }

  /** Admitted `n` times, all at time 0. */
  function Busy(n: nat): SourceState { SourceState(Zeros(n), Zeros(n), 0) }

  const NEWCOMER := SourceState([1], [1], 1)

  /** The names of a busy source and of as many newcomers as the table holds. */
  datatype Roster = Roster(busy: string, others: seq<string>) {
    ghost predicate Valid() {
      && |others| == MAX_TRACKED_SOURCES && busy !in others
      && forall i, j | 0 <= i < j < |others| :: others[i] != others[j]
    }

    function First(n: nat): set<string>
      requires n <= |others|
    {
      set i | 0 <= i < n :: others[i]
    }

    ghost predicate Names(k: string) { k == busy || k in others }
  }

  lemma FirstGrows(w: Roster, n: nat)
    requires w.Valid() && n < MAX_TRACKED_SOURCES
    ensures w.First(n + 1) == w.First(n) + {w.others[n]} && w.others[n] !in w.First(n)
  {
  }

  lemma {:induction false} FirstSize(w: Roster, n: nat)
    requires w.Valid() && n <= MAX_TRACKED_SOURCES
    ensures |w.First(n)| == n && w.busy !in w.First(n)
  {
    if n > 0 {
      FirstSize(w, n - 1);
      FirstGrows(w, n - 1);
    }
  }

  /** Both windows hold only times that are still recent. */
  predicate Fresh(c: Config, s: SourceState, now: int) {
    && s.burst != [] && s.sustained != [] && now - s.burst[0] < c.burstWindow
      && now - s.sustained[0] < c.sustainedWindow
  }

  /** A source that is unknown, or fresh with room left, is admitted and nothing is forgotten. */
  lemma Admits(c: Config, w: World, turn: Turn)
    requires Open(c) && forall k | k in w.sources :: Fresh(c, w.sources[k], turn.now)
    requires var s := StateOf(w.sources, turn.source); |s.burst| < c.burstMax && |s.sustained| < c.sustainedMax
    ensures var all := Admitting(w.sources, turn.source, turn.now);
            && Sources(c, w.sources, turn) == all - turn.evicted
            && Sources(c, w.sources, turn.(evicted := {})) == all
            && After(c, w, turn).sources == all - turn.evicted
            && After(c, w, turn).logs == w.logs[turn.source := LogOf(w.logs, turn.source) + [turn.now]]
  {
    var now, s := turn.now, StateOf(w.sources, turn.source);
    assert PruneState(c, s, now) == s;
    var all := w.sources[turn.source := Touched(c, s, now)];
    forall k | k in all ensures PruneState(c, all[k], now) == all[k] && !Idle(c, all[k], now) {}
    assert Retained(c, all, now) == all && all - {} == all;
  }

  /** A run with one more turn. */
  lemma Extends(c: Config, turns: seq<Turn>, turn: Turn)
    requires Lawful(c, turns) && Ordered(turns) && Evicts(c, Run(c, turns).sources, turn)
    requires forall i | 0 <= i < |turns| :: turns[i].now <= turn.now
    ensures Lawful(c, turns + [turn]) && Ordered(turns + [turn])
    ensures Run(c, turns + [turn]) == After(c, Run(c, turns), turn)
  {
    hide Evicts, Run, After;
    var all := turns + [turn];
    assert all[..|turns|] == turns;
    assert forall i | 0 <= i < |turns| :: all[..i] == turns[..i];
    RunLast(c, turns, turn);
  }

  /** A lawful run up to time `now`, the sources it tracks and the admissions of the busy source. */
  ghost predicate Reached(
    c: Config, w: Roster, turns: seq<Turn>, now: int, sources: map<string, SourceState>, log: seq<int>) {
    && Lawful(c, turns) && Ordered(turns)
    && (forall i | 0 <= i < |turns| :: turns[i].now <= now && w.Names(turns[i].source))
    && Run(c, turns).sources == sources && LogOf(Run(c, turns).logs, w.busy) == log
  }

  function Admitting(sources: map<string, SourceState>, k: string, now: int): map<string, SourceState> {
    var s := StateOf(sources, k); sources[k := SourceState(s.burst + [now], s.sustained + [now], now)]
  }

  /** One more admission, and the eviction it causes. */
  lemma Take(
    c: Config, w: Roster, turns: seq<Turn>, latest: int, sources: map<string, SourceState>, log: seq<int>, turn: Turn)
    returns (after: seq<Turn>)
    requires Reached(c, w, turns, latest, sources, log) && latest <= turn.now && Open(c) && w.Names(turn.source)
    requires forall k | k in sources :: Fresh(c, sources[k], turn.now)
    requires var s := StateOf(sources, turn.source); |s.burst| < c.burstMax && |s.sustained| < c.sustainedMax
    requires var all := Admitting(sources, turn.source, turn.now);
             if |all| <= MAX_TRACKED_SOURCES then turn.evicted == {}
             else |all - turn.evicted| == MAX_TRACKED_SOURCES && OnlyOldest(all, all - turn.evicted)
    ensures Reached(c, w, after, turn.now, Admitting(sources, turn.source, turn.now) - turn.evicted,
                    if turn.source == w.busy then log + [turn.now] else log)
  {
    hide After, Run, Sources, Open, Fresh, Lawful, Ordered, OnlyOldest, Admitting, Roster.Names;
    Admits(c, Run(c, turns), turn);
    Extends(c, turns, turn);
    after := turns + [turn];
  }

  /** The busy source makes all the requests it may at time 0. */
  lemma FillUp(c: Config, w: Roster, n: nat) returns (turns: seq<Turn>)
    requires Open(c) && 0 < n <= c.Max(Tightest(c))
    ensures Reached(c, w, turns, 0, map[w.busy := Busy(n)], Zeros(n))
  {
    hide Reached, OnlyOldest, Zeros, Admitting, StateOf;
    turns := [];
    NothingYet(c, w);
    AdmitsBusy(w.busy, 0);
    turns := Take(c, w, turns, 0, map[], [], Turn(w.busy, 0, {}));
    var m := 1;
    while m < n
      invariant 0 < m <= n && Reached(c, w, turns, 0, map[w.busy := Busy(m)], Zeros(m))
    {
      AdmitsBusy(w.busy, m);
      turns := Take(c, w, turns, 0, map[w.busy := Busy(m)], Zeros(m), Turn(w.busy, 0, {}));
      m := m + 1;
    }
  }

  lemma AdmitsBusy(k: string, m: nat)
    ensures var sources := if m == 0 then map[] else map[k := Busy(m)];
            && StateOf(sources, k).burst == StateOf(sources, k).sustained == Zeros(m) && |Zeros(m)| == m
            && Admitting(sources, k, 0) == map[k := Busy(m + 1)] && |Admitting(sources, k, 0)| == 1
            && Admitting(sources, k, 0) - {} == map[k := Busy(m + 1)]
    ensures Zeros(0) == [] && Zeros(m) + [0] == Zeros(m + 1) && Zeros(m + 1)[0] == 0
  {
    assert Zeros(m) + [0] == Zeros(m + 1) && Zeros(0) == [];
  }

  lemma NothingYet(c: Config, w: Roster)
    ensures Reached(c, w, [], 0, map[], [])
  {
  }

  /** The busy source, if it is still there, and `n` newcomers. */
  function Crowd(w: Roster, busy: map<string, SourceState>, n: nat): (r: map<string, SourceState>)
    requires n <= |w.others|
    ensures r.Keys == busy.Keys + w.First(n)
  {
    map k | k in busy.Keys + w.First(n) :: if k in busy then busy[k] else NEWCOMER
  }

  lemma AdmitsNewcomer(sources: map<string, SourceState>, k: string)
    requires k !in sources
    ensures StateOf(sources, k) == UNSEEN && Admitting(sources, k, 1) == sources[k := NEWCOMER]
    ensures Admitting(sources, k, 1) - {} == sources[k := NEWCOMER]
  {
    assert [] + [1] == [1];
  }

  lemma CrowdGrows(w: Roster, busy: map<string, SourceState>, n: nat)
    requires w.Valid() && busy.Keys <= {w.busy} && n < MAX_TRACKED_SOURCES
    ensures var crowd, k := Crowd(w, busy, n), w.others[n];
            && StateOf(crowd, k) == UNSEEN
            && Admitting(crowd, k, 1) == Crowd(w, busy, n + 1) && Admitting(crowd, k, 1) - {} == Crowd(w, busy, n + 1)
  {
    hide Roster.First, Admitting, StateOf, Crowd;
    var k := w.others[n];
    NewcomerKey(w, busy, n);
    AdmitsNewcomer(Crowd(w, busy, n), k);
    forall x | x in Crowd(w, busy, n + 1) && x != k ensures Crowd(w, busy, n)[x] == Crowd(w, busy, n + 1)[x] {
      CrowdAt(w, busy, n, x);
      CrowdAt(w, busy, n + 1, x);
    }
    CrowdAt(w, busy, n + 1, k);
    MapPut(Crowd(w, busy, n), Crowd(w, busy, n + 1), k, NEWCOMER);
  }

  lemma NewcomerKey(w: Roster, busy: map<string, SourceState>, n: nat)
    requires w.Valid() && busy.Keys <= {w.busy} && n < MAX_TRACKED_SOURCES
    ensures w.others[n] !in busy && w.others[n] !in Crowd(w, busy, n)
    ensures Crowd(w, busy, n + 1).Keys == Crowd(w, busy, n).Keys + {w.others[n]}
  {
    hide Roster.First, Crowd;
    assert w.others[n] in w.others;
    FirstGrows(w, n);
  }

  lemma CrowdAt(w: Roster, busy: map<string, SourceState>, n: nat, k: string)
    requires n <= |w.others| && k in Crowd(w, busy, n)
    ensures Crowd(w, busy, n)[k] == if k in busy then busy[k] else NEWCOMER
  {
  }

  lemma MapPut(a: map<string, SourceState>, b: map<string, SourceState>, k: string, s: SourceState)
    requires b.Keys == a.Keys + {k} && b[k] == s && forall x | x in b && x != k :: a[x] == b[x]
    ensures a[k := s] == b
  {
  }

  lemma CrowdSize(w: Roster, busy: map<string, SourceState>, n: nat)
    requires w.Valid() && busy.Keys <= {w.busy} && n <= MAX_TRACKED_SOURCES
    ensures |Crowd(w, busy, n)| == |busy| + n
  {
    hide Roster.First;
    FirstSize(w, n);
    assert |Crowd(w, busy, n).Keys| == |busy.Keys + w.First(n)|;
    assert busy.Keys == {} || busy.Keys == {w.busy};
  }

  lemma CrowdFresh(c: Config, w: Roster, m: nat, n: nat)
    requires Open(c) && 0 < m && n <= |w.others|
    ensures forall k | k in Crowd(w, map[w.busy := Busy(m)], n) :: Fresh(c, Crowd(w, map[w.busy := Busy(m)], n)[k], 1)
    ensures forall k | k in Crowd(w, map[], n) :: Fresh(c, Crowd(w, map[], n)[k], 1)
  {
  }

  /** Newcomers arrive at time 1 until the table is full. */
  lemma FillTable(c: Config, w: Roster, turns: seq<Turn>, m: nat, n: nat) returns (after: seq<Turn>)
    requires Open(c) && w.Valid() && 0 < m && n < MAX_TRACKED_SOURCES
    requires Reached(c, w, turns, 0, map[w.busy := Busy(m)], Zeros(m))
    ensures Reached(c, w, after, 1, Crowd(w, map[w.busy := Busy(m)], n), Zeros(m))
  {
    hide Reached, Zeros, Crowd;
    after := turns;
    var busy, k := map[w.busy := Busy(m)], 0;
    CrowdOfNone(w, busy);
    Later(c, w, turns, busy, Zeros(m));
    while k < n
      invariant 0 <= k <= n && Reached(c, w, after, 1, Crowd(w, busy, k), Zeros(m))
    {
      after := Arrives(c, w, after, m, k);
      k := k + 1;
    }
  }

  /** One more newcomer, while there is room. */
  lemma Arrives(c: Config, w: Roster, turns: seq<Turn>, m: nat, n: nat) returns (after: seq<Turn>)
    requires Open(c) && w.Valid() && 0 < m && n + 1 < MAX_TRACKED_SOURCES
    requires Reached(c, w, turns, 1, Crowd(w, map[w.busy := Busy(m)], n), Zeros(m))
    ensures Reached(c, w, after, 1, Crowd(w, map[w.busy := Busy(m)], n + 1), Zeros(m))
  {
    hide Reached, OnlyOldest, Fresh, Admitting, StateOf, Zeros, Roster.First, Crowd;
    var busy := map[w.busy := Busy(m)];
    assert w.others[n] in w.others && w.others[n] != w.busy;
    CrowdGrows(w, busy, n);
    CrowdSize(w, busy, n + 1);
    CrowdFresh(c, w, m, n);
    after := Take(c, w, turns, 1, Crowd(w, busy, n), Zeros(m), Turn(w.others[n], 1, {}));
  }

  lemma CrowdOfNone(w: Roster, busy: map<string, SourceState>)
    ensures Crowd(w, busy, 0) == busy
  {
  }

  lemma Later(c: Config, w: Roster, turns: seq<Turn>, sources: map<string, SourceState>, log: seq<int>)
    requires Reached(c, w, turns, 0, sources, log)
    ensures Reached(c, w, turns, 1, sources, log)
  {
    hide Lawful, Ordered, Run;
  }

  lemma CrowdWithout(w: Roster, m: nat, n: nat)
    requires w.Valid() && n <= MAX_TRACKED_SOURCES
    ensures var all := Crowd(w, map[w.busy := Busy(m)], n);
            all - {w.busy} == Crowd(w, map[], n) && OnlyOldest(all, all - {w.busy})
  {
    hide Roster.First, Zeros;
    FirstSize(w, n);
    var all, rest := Crowd(w, map[w.busy := Busy(m)], n), Crowd(w, map[], n);
    assert (all - {w.busy}).Keys == rest.Keys;
    forall k | k in rest ensures all[k] == rest[k] == NEWCOMER {}
  }

  /** One newcomer too many has the busy source evicted. */
  lemma PushOut(c: Config, w: Roster, turns: seq<Turn>, m: nat) returns (after: seq<Turn>)
    requires Open(c) && w.Valid() && 0 < m
    requires Reached(c, w, turns, 1, Crowd(w, map[w.busy := Busy(m)], MAX_TRACKED_SOURCES - 1), Zeros(m))
    ensures Reached(c, w, after, 1, Crowd(w, map[], MAX_TRACKED_SOURCES), Zeros(m))
  {
    hide Reached, Fresh, Roster.First, Crowd, Admitting, OnlyOldest, Zeros;
    var busy, n := map[w.busy := Busy(m)], MAX_TRACKED_SOURCES - 1;
    assert w.others[n] in w.others;
    CrowdGrows(w, busy, n);
    CrowdSize(w, busy, n + 1);
    CrowdSize(w, map[], n + 1);
    CrowdFresh(c, w, m, n);
    CrowdWithout(w, m, n + 1);
    after := Take(c, w, turns, 1, Crowd(w, busy, n), Zeros(m), Turn(w.others[n], 1, {w.busy}));
  }

  /** Back again, the source is admitted as if it were new. */
  lemma ComeBack(c: Config, w: Roster, turns: seq<Turn>, m: nat)
    returns (after: seq<Turn>, sources: map<string, SourceState>)
    requires Open(c) && w.Valid() && 0 < m && Reached(c, w, turns, 1, Crowd(w, map[], MAX_TRACKED_SOURCES), Zeros(m))
    ensures Reached(c, w, after, 1, sources, Zeros(m) + [1])
  {
    hide Reached, Fresh, Roster.First, Crowd, Zeros;
    var full := Crowd(w, map[], MAX_TRACKED_SOURCES);
    CrowdSize(w, map[], MAX_TRACKED_SOURCES);
    CrowdFresh(c, w, m, MAX_TRACKED_SOURCES);
    FirstSize(w, MAX_TRACKED_SOURCES);
    var all := Admitting(full, w.busy, 1);
    AdmitsNewcomer(full, w.busy);
    hide Admitting;
    assert all.Keys == full.Keys + {w.busy};
    forall k | k in full ensures full[k] == NEWCOMER { CrowdAt(w, map[], MAX_TRACKED_SOURCES, k); }
    assert |all.Keys| == MAX_TRACKED_SOURCES + 1;
    sources := all - {w.busy};
    assert sources.Keys == all.Keys - {w.busy};
    after := Take(c, w, turns, 1, full, Zeros(m), Turn(w.busy, 1, {w.busy}));
  }

  lemma {:induction false} CountAll(log: seq<int>, lo: int, hi: int)
    requires forall i | 0 <= i < |log| :: lo <= log[i] < hi
    ensures CountBetween(log, lo, hi) == |log|
  {
    if log != [] { CountAll(log[1..], lo, hi); }
  }

  /** An evicted source exceeds its limit: it uses up its tighter limit, new sources have it evicted, and within the
      same window it is admitted once more. */
  lemma EvictedExceedsLimit(c: Config, w: Roster) returns (turns: seq<Turn>)
    requires Open(c) && w.Valid()
    ensures Ordered(turns) && Lawful(c, turns) && forall i | 0 <= i < |turns| :: w.Names(turns[i].source)
    ensures var th := Tightest(c); CountBetween(LogOf(Run(c, turns).logs, w.busy), 0, c.Window(th)) == c.Max(th) + 1
  {
    hide Reached, Crowd, Zeros, Lawful, Ordered, Run, CountBetween, Roster.Valid, Roster.Names;
    var m, sources := c.Max(Tightest(c)), map[];
    RosterSize(w);
    turns := FillUp(c, w, m);
    turns := FillTable(c, w, turns, m, MAX_TRACKED_SOURCES - 1);
    turns := PushOut(c, w, turns, m);
    turns, sources := ComeBack(c, w, turns, m);
    Exceeded(c, w, turns, sources, m);
  }

  lemma RosterSize(w: Roster)
    requires w.Valid()
    ensures |w.others| == MAX_TRACKED_SOURCES
  {
  }

  lemma Exceeded(c: Config, w: Roster, turns: seq<Turn>, sources: map<string, SourceState>, m: nat)
    requires Open(c) && Reached(c, w, turns, 1, sources, Zeros(m) + [1])
    ensures Ordered(turns) && Lawful(c, turns) && forall i | 0 <= i < |turns| :: w.Names(turns[i].source)
    ensures forall th: Threshold :: CountBetween(LogOf(Run(c, turns).logs, w.busy), 0, c.Window(th)) == m + 1
  {
    hide Lawful, Ordered, Run, CountBetween, Roster.Names;
    CountAll(Zeros(m) + [1], 0, c.Window(Burst));
    CountAll(Zeros(m) + [1], 0, c.Window(Sustained));
  }

  // -------------------------------------------------------------------------
  // Limits, exactly

  /** The admissions of a source over a run that fall into the window beginning at `lo`. */
  function AdmittedFrom(c: Config, turns: seq<Turn>, k: string, th: Threshold, lo: int): nat {
    CountBetween(LogOf(Run(c, turns).logs, k), lo, lo + c.Window(th))
  }

  /** No window-length interval of the run holds more admissions of a source than the limit. */
  ghost predicate WithinLimits(c: Config, turns: seq<Turn>) {
    forall k, th, lo :: AdmittedFrom(c, turns, k, th, lo) <= c.Max(th)
  }

  lemma {:induction false} ListOf(names: set<string>, n: nat) returns (r: seq<string>)
    requires n <= |names|
    ensures |r| == n && (forall k | k in r :: k in names) && forall i, j | 0 <= i < j < n :: r[i] != r[j]
  {
    if n == 0 { r := []; }
    else {
      var k :| k in names;
      var rest := ListOf(names - {k}, n - 1);
      r := [k] + rest;
    }
  }

  /** A source and enough others to fill the table. */
  lemma Enlist(names: set<string>) returns (w: Roster)
    requires |names| > MAX_TRACKED_SOURCES
    ensures w.Valid() && forall k | w.Names(k) :: k in names
  {
    var k :| k in names;
    var others := ListOf(names - {k}, MAX_TRACKED_SOURCES);
    w := Roster(k, others);
  }

  /**
   The limits, exactly.  For limits that admit something and windows that last beyond the next instant: every run of
   the limiter with a non-decreasing clock keeps them if and only if at most as many sources make requests as the
   limiter keeps track of.
   */
  lemma LimitsHoldExactly(c: Config, names: set<string>)
    requires Open(c)
    ensures (forall turns | Ordered(turns) && Lawful(c, turns) && From(turns, names) :: WithinLimits(c, turns))
            <==> |names| <= MAX_TRACKED_SOURCES
  {
    hide Run, Ordered, Lawful, CountBetween, Spared, Open, Roster.Valid, Roster.Names;
    if |names| <= MAX_TRACKED_SOURCES {
      forall turns, k, th, lo | Ordered(turns) && Lawful(c, turns) && From(turns, names)
        ensures AdmittedFrom(c, turns, k, th, lo) <= c.Max(th) {
        NoneEvicted(c, turns, names, k);
        NoWindowExceedsLimit(c, turns, k, th, lo);
      }
    } else {
      var w := Enlist(names);
      var turns := EvictedExceedsLimit(c, w);
      var th := Tightest(c);
      assert From(turns, names);
      assert AdmittedFrom(c, turns, w.busy, th, 0) > c.Max(th);
    }
  }

  // -------------------------------------------------------------------------
  // The limiter object

  datatype Violation = Violation(source: string, path: string, threshold: Threshold, observedAt: int, retryAfter: int)

  datatype Rejection = Rejection(source: string, path: string, threshold: Threshold, retryAfter: int)

  /** Newest first, the oldest dropped beyond the cap. */
  function WithViolation(violations: seq<Violation>, r: Rejection, now: int): seq<Violation> {
    var all := [Violation(r.source, r.path, r.threshold, now, r.retryAfter)] + violations;
    if |all| > MAX_RECENT_VIOLATIONS then all[..MAX_RECENT_VIOLATIONS] else all
  }

  /** A rejection at a time. */
  datatype Refusal = Refusal(rejection: Rejection, now: int)

  /** What is kept of the rejections so far, by pushing each when it happens. */
  function Kept(rejections: seq<Refusal>): seq<Violation> {
    if rejections == [] then []
    else
      var last := rejections[|rejections| - 1];
      WithViolation(Kept(rejections[..|rejections| - 1]), last.rejection, last.now)
  }

  /** The last 64 rejections are kept, the newest first, each with its own source, path, threshold, time and delay. */
  lemma {:induction false} KeptExactly(rejections: seq<Refusal>, k: nat)
    ensures |Kept(rejections)| == if |rejections| <= 64 then |rejections| else 64
    ensures k < |Kept(rejections)| ==>
              var v, from := Kept(rejections)[k], rejections[|rejections| - 1 - k];
              && v.source == from.rejection.source && v.path == from.rejection.path
              && v.threshold == from.rejection.threshold && v.observedAt == from.now
              && v.retryAfter == from.rejection.retryAfter
  {
    if rejections != [] { KeptExactly(rejections[..|rejections| - 1], if k > 0 then k - 1 else 0); }
  }

  class RateLimiter {
    var sources: map<string, SourceState>
    var recentViolations: seq<Violation>

    constructor ()
      ensures sources == map[] && recentViolations == []
    {
      sources, recentViolations := map[], [];
    }

    static method PruneWindow(window: seq<int>, now: int, windowMs: nat) returns (r: seq<int>)
      ensures r == Pruned(window, now, windowMs)
    {
      r := window;
      while r != []
        invariant Pruned(r, now, windowMs) == Pruned(window, now, windowMs)
        decreases |r|
      {
        if now - r[0] < windowMs { break; }
        r := r[1..];
      }
    }

    method PushViolation(rejection: Rejection, now: int)
      modifies this`recentViolations
      ensures recentViolations == WithViolation(old(recentViolations), rejection, now)
    {
      ghost var all := [Violation(rejection.source, rejection.path, rejection.threshold, now,
                                  rejection.retryAfter)] + recentViolations;
      recentViolations :=
        [Violation(rejection.source, rejection.path, rejection.threshold, now, rejection.retryAfter)]
          + recentViolations;
      while |recentViolations| > MAX_RECENT_VIOLATIONS
        invariant recentViolations == all[..|recentViolations|]
        invariant |all| >= MAX_RECENT_VIOLATIONS ==> |recentViolations| >= MAX_RECENT_VIOLATIONS
        invariant |all| < MAX_RECENT_VIOLATIONS ==> |recentViolations| == |all|
        decreases |recentViolations|
      {
        recentViolations := recentViolations[..|recentViolations| - 1];
      }
    }

    /** Evicts, one by one, a source least recently admitted until the cap is met. */
    static method EvictOldest(retained: map<string, SourceState>)
      returns (sources: map<string, SourceState>, ghost evicted: set<string>)
      ensures sources == retained - evicted
      ensures if |retained| <= MAX_TRACKED_SOURCES then evicted == {} else |sources| == MAX_TRACKED_SOURCES
      ensures OnlyOldest(retained, sources)
    {
      sources, evicted := retained, {};
      while |sources| > MAX_TRACKED_SOURCES
        invariant sources == retained - evicted && OnlyOldest(retained, sources)
        invariant |retained| > MAX_TRACKED_SOURCES ==> |sources| >= MAX_TRACKED_SOURCES
        invariant |retained| <= MAX_TRACKED_SOURCES ==> evicted == {}
        decreases |sources|
      {
        OldestExists(sources);
        var oldest :| oldest in sources && forall k | k in sources :: sources[oldest].lastSeen <= sources[k].lastSeen;
        DropOne(retained, sources, evicted, oldest);
        evicted := evicted + {oldest};
        sources := sources - {oldest};
      }
    }

    /** Keeps what `Retained` keeps, up to the cap. */
    method CompactSources(c: Config, now: int) returns (ghost evicted: set<string>)
      modifies this`sources
      ensures sources == Retained(c, old(sources), now) - evicted
      ensures if |Retained(c, old(sources), now)| <= MAX_TRACKED_SOURCES then evicted == {}
              else |sources| == MAX_TRACKED_SOURCES
      ensures OnlyOldest(Retained(c, old(sources), now), sources)
    {
      sources, evicted := EvictOldest(Retained(c, sources, now));
    }

    /** Prunes both windows of a source and decides its request. */
    static method JudgeRequest(s: SourceState, source: string, path: string, now: int, c: Config)
      returns (touched: SourceState, r: Result<(), Rejection>)
      ensures touched == Touched(c, s, now)
      ensures var v := VerdictFor(c, s, now);
              r == if v.Admitted? then Ok(()) else Err(Rejection(source, path, v.threshold, v.retryAfter))
    {
      hide Pruned, RetryAfter;
      var burst := PruneWindow(s.burst, now, c.burstWindow);
      var sustained := PruneWindow(s.sustained, now, c.sustainedWindow);
      touched := s.(burst := burst, sustained := sustained);
      if |burst| >= c.burstMax {
        r := Err(Rejection(source, path, Burst, RetryAfter(burst, now, c.burstWindow)));
      } else if |sustained| >= c.sustainedMax {
        r := Err(Rejection(source, path, Sustained, RetryAfter(sustained, now, c.sustainedWindow)));
      } else {
        touched := SourceState(burst + [now], sustained + [now], now);
        r := Ok(());
      }
    }

    /** Decides one request: the verdict is that of the tracked windows, the requesting source is touched and
        the table compacted; a rejection is recorded. */
    method CheckSource(source: string, path: string, now: int, c: Config)
      returns (r: Result<(), Rejection>, ghost evicted: set<string>)
      modifies this
      ensures var v := VerdictFor(c, StateOf(old(sources), source), now);
              r == if v.Admitted? then Ok(()) else Err(Rejection(source, path, v.threshold, v.retryAfter))
      ensures sources == Sources(c, old(sources), Turn(source, now, evicted))
      ensures Evicts(c, old(sources), Turn(source, now, evicted))
      ensures recentViolations ==
              if r.Ok? then old(recentViolations) else WithViolation(old(recentViolations), r.error, now)
    {
      hide Retained, Touched, VerdictFor, WithViolation, OnlyOldest;
      var s;
      s, r := JudgeRequest(StateOf(sources, source), source, path, now, c);
      sources := sources[source := s];
      ghost var touched := sources;
      if r.Err? { PushViolation(r.error, now); }
      evicted := CompactSources(c, now);
      assert Retained(c, touched, now) - {} == Retained(c, touched, now);
    }
  }

  lemma DropOne(
    retained: map<string, SourceState>, sources: map<string, SourceState>, evicted: set<string>, oldest: string)
    requires sources == retained - evicted && OnlyOldest(retained, sources)
    requires oldest in sources && forall k | k in sources :: sources[oldest].lastSeen <= sources[k].lastSeen
    ensures sources - {oldest} == retained - (evicted + {oldest})
    ensures |sources - {oldest}| == |sources| - 1 && OnlyOldest(retained, sources - {oldest})
  {
    assert sources.Keys == (sources - {oldest}).Keys + {oldest};
  }

  lemma OldestExists(sources: map<string, SourceState>)
    requires sources != map[]
    ensures exists o :: o in sources && forall k | k in sources :: sources[o].lastSeen <= sources[k].lastSeen
    decreases |sources|
  {
    var a :| a in sources;
    var rest := sources - {a};
    assert sources.Keys == rest.Keys + {a};
    if rest != map[] {
      OldestExists(rest);
      var o :| o in rest && forall k | k in rest :: rest[o].lastSeen <= rest[k].lastSeen;
      var best := if sources[a].lastSeen <= rest[o].lastSeen then a else o;
      assert best in sources && forall k | k in sources :: sources[best].lastSeen <= sources[k].lastSeen;
    } else {
      assert forall k | k in sources :: k == a;
    }
  }
}
