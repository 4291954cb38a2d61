/** The two limiters side by side on one request stream: the countdown bucket of client.go is
    never more generous than the sliding window of token_bucket.lua, and when exactly it is as generous. */
module LimiterSimulation {
  import opened RedisKeys
  import opened Runs
  import SW = SlidingWindow
  import CD = CountdownBucket

  /** One request at one clock, as each store meets it; the keys are distinct, so they may be
      dropped at their deadlines differently.  The counter is not evicted. */
  datatype Request = Request(clock: real, time: int, windowGone: bool, windowEvicted: bool, counterGone: bool)
  {
    function ToWindow(): SW.Call { SW.Call(clock, clock, time, windowGone, windowEvicted) }

    function ToCounter(): CD.Call { CD.Call(clock, counterGone, false) }
  }

  /** Nothing is left out: any two calls at one clock on which the caller agrees are a request's. */
  lemma EveryPairIsARequest(c: SW.Call, d: CD.Call)
    requires c.now == c.clock == d.clock && !d.evicted
    ensures var r := Request(c.clock, c.time, c.goneAtDeadline, c.evicted, d.goneAtDeadline);
            r.ToWindow() == c && r.ToCounter() == d
  {
  }

  function WindowRun(run: Run<Request>): Run<SW.Call> {
    match run
    case Start => Start
    case Then(before, r) => Then(WindowRun(before), r.ToWindow())
  }

  function CounterRun(run: Run<Request>): Run<CD.Call> {
    match run
    case Start => Start
    case Then(before, r) => Then(CounterRun(before), r.ToCounter())
  }

  function ClockOf(r: Request): real { r.clock }

  ghost predicate MonotoneClock(run: Run<Request>) {
    NonDecreasing(run, ClockOf)
  }

  /** The countdown bucket is configured no more generously than the sliding window. */
  predicate NoLarger(cfg: CD.Config, lim: SW.Limits) {
    cfg.capacity <= lim.maxTokens && cfg.ttl >= lim.window
  }

  function ZSet(lim: SW.Limits, run: Run<Request>): SW.Key {
    SW.After(lim, WindowRun(run))
  }

  function Counter(cfg: CD.Config, run: Run<Request>): CD.Key {
    CD.After(cfg, CD.Missing, CounterRun(run))
  }

  /** The simulation relation: both keys were last touched at `last`, and as long as the counter
      holds tokens, the set holds no more entries than the tokens spent. */
  ghost predicate Related(lim: SW.Limits, cfg: CD.Config, last: real, zset: SW.Key, counter: CD.Key) {
    && counter.Stored? && counter.deadline == last + cfg.ttl as real
    && (zset.Stored? ==> zset.deadline == last + lim.window as real)
    && (forall m :: m in SW.Entries(zset) ==> SW.Entries(zset)[m] <= last)
    && (counter.remaining > 0 ==> |SW.Entries(zset)| + counter.remaining <= cfg.capacity)
  }

  /** Either the keys are related or neither has been created yet. */
  ghost predicate Matched(lim: SW.Limits, cfg: CD.Config, last: real, zset: SW.Key, counter: CD.Key) {
    (zset == SW.Missing && counter == CD.Missing) || Related(lim, cfg, last, zset, counter)
  }

  /** A request that finds the counter expired finds nothing to count in the set either. */
  lemma NewSessionCountsNothing(lim: SW.Limits, cfg: CD.Config, last: real, zset: SW.Key, counter: CD.Key, r: Request)
    requires NoLarger(cfg, lim) && Matched(lim, cfg, last, zset, counter) && last <= r.clock
    requires !CD.Alive(counter, r.ToCounter())
    ensures SW.Occupancy(lim, zset, r.ToWindow()) == map[]
  {
    var live := SW.Live(zset, r.ToWindow());
    forall m | m in live ensures live[m] <= r.clock - lim.window as real {
      assert m in SW.Entries(zset);
    }
  }

  lemma OccupancyOnlyShrinks(lim: SW.Limits, k: SW.Key, c: SW.Call)
    ensures |SW.Occupancy(lim, k, c)| <= |SW.Entries(k)|
  {
    SW.SubmapIsSmaller(SW.Occupancy(lim, k, c), SW.Entries(k));
  }

  lemma IssuedIsAllowed(lim: SW.Limits, cfg: CD.Config, last: real, zset: SW.Key, counter: CD.Key, r: Request)
    requires NoLarger(cfg, lim) && Matched(lim, cfg, last, zset, counter) && last <= r.clock
    requires CD.Issues(cfg, counter, r.ToCounter())
    ensures SW.Allows(lim, zset, r.ToWindow())
  {
    if CD.Alive(counter, r.ToCounter()) {
      OccupancyOnlyShrinks(lim, zset, r.ToWindow());
    } else {
      NewSessionCountsNothing(lim, cfg, last, zset, counter, r);
    }
  }

  lemma RelatedStep(lim: SW.Limits, cfg: CD.Config, last: real, zset: SW.Key, counter: CD.Key, r: Request)
    requires cfg.ttl > 0 && NoLarger(cfg, lim) && Matched(lim, cfg, last, zset, counter) && last <= r.clock
    ensures Related(lim, cfg, r.clock, SW.Next(lim, zset, r.ToWindow()), CD.Next(cfg, counter, r.ToCounter()))
  {
    var kept := SW.Occupancy(lim, zset, r.ToWindow());
    assert forall m :: m in kept ==> m in SW.Entries(zset) && kept[m] == SW.Entries(zset)[m];
    SW.OverwritingAddsNoEntry(kept, r.time, r.clock);
    OccupancyOnlyShrinks(lim, zset, r.ToWindow());
    if !CD.Alive(counter, r.ToCounter()) {
      NewSessionCountsNothing(lim, cfg, last, zset, counter, r);
    }
  }

  lemma NoKeysWithoutTtl(lim: SW.Limits, cfg: CD.Config, run: Run<Request>)
    requires cfg.ttl <= 0 && lim.window <= 0
    ensures ZSet(lim, run) == SW.Missing && Counter(cfg, run) == CD.Missing
  {
  }

  lemma {:induction false} RunsMatch(lim: SW.Limits, cfg: CD.Config, run: Run<Request>, last: real)
    requires NoLarger(cfg, lim) && MonotoneClock(run)
    requires run.Then? ==> last == run.last.clock
    ensures Matched(lim, cfg, last, ZSet(lim, run), Counter(cfg, run))
  {
    if cfg.ttl <= 0 {
      NoKeysWithoutTtl(lim, cfg, run);
    } else if run.Then? {
      var before, r := run.before, run.last;
      var earlier := if before.Then? then before.last.clock else r.clock;
      RunsMatch(lim, cfg, before, earlier);
      RelatedStep(lim, cfg, earlier, ZSet(lim, before), Counter(cfg, before), r);
    }
  }

  /** On any request stream with a non-decreasing clock, with capacity = maxTokens and ttl = window,
      or a smaller capacity or a longer ttl, every request that the countdown bucket admits the
      sliding window admits too, even if Redis evicts its set. */
  lemma {:induction false} CountdownAdmitsNoMore(lim: SW.Limits, cfg: CD.Config, before: Run<Request>, r: Request)
    requires NoLarger(cfg, lim) && MonotoneClock(Then(before, r))
    requires CD.Issues(cfg, Counter(cfg, before), r.ToCounter())
    ensures SW.Allows(lim, ZSet(lim, before), r.ToWindow())
  {
    var earlier := if before.Then? then before.last.clock else r.clock;
    RunsMatch(lim, cfg, before, earlier);
    IssuedIsAllowed(lim, cfg, earlier, ZSet(lim, before), Counter(cfg, before), r);
  }

  // ----- when the two agree -----------------------------------------------------------------

  /** One configuration for both: n tokens, and w seconds of window and time to live. */
  function Window(n: int, w: int): SW.Limits { SW.Limits(n, w) }

  function Bucket(n: int, w: int): CD.Config { CD.Config(n, w) }

  ghost predicate SameDecision(n: int, w: int, before: Run<Request>, r: Request) {
    SW.Allows(Window(n, w), ZSet(Window(n, w), before), r.ToWindow())
    <==> CD.Issues(Bucket(n, w), Counter(Bucket(n, w), before), r.ToCounter())
  }

  ghost predicate DecidedAlike(n: int, w: int, run: Run<Request>) {
    run.Then? ==> DecidedAlike(n, w, run.before) && SameDecision(n, w, run.before, run.last)
  }

  /** The last request of the run is within the first n calls of its session, or less than w seconds
      after the session's start. */
  predicate SettledRequest(n: int, w: int, run: Run<Request>)
    requires run.Then?
  {
    var calls := CounterRun(run);
    n <= 0
    || (w > 0 && (CD.SessionLength(Bucket(n, w), calls) <= n
                  || run.last.clock < CD.SessionStart(Bucket(n, w), calls) + w as real))
  }

  ghost predicate Settled(n: int, w: int, run: Run<Request>) {
    run.Then? ==> Settled(n, w, run.before) && SettledRequest(n, w, run)
  }

  ghost predicate SetNotEvicted(run: Run<Request>) {
    run.Then? ==> SetNotEvicted(run.before) && !run.last.windowEvicted
  }

  function Spent(n: nat, length: nat): nat {
    if length < n then length else n
  }

  ghost predicate ScoredFrom(entries: map<int, real>, start: real) {
    forall m :: m in entries ==> entries[m] >= start
  }

  ghost predicate ScoredUpTo(entries: map<int, real>, last: real) {
    forall m :: m in entries ==> entries[m] <= last
  }

  /** While the two agree, `length` calls into a session that began at `start`: the counter has spent
      one token per call; until start + w the set holds one entry for each; and always at least one
      of the tokens spent is not matched by an entry scored after the start. */
  ghost predicate InStep(n: nat, w: int, zset: SW.Key, counter: CD.Key, length: nat, start: real, last: real) {
    var entries := SW.Entries(zset);
    && length >= 1 && start <= last
    && counter == CD.Stored(n - Spent(n, length), last + w as real)
    && (zset.Stored? ==> zset.deadline == last + w as real)
    && ScoredUpTo(entries, last)
    && (last < start + w as real ==> |entries| == Spent(n, length) && ScoredFrom(entries, start))
    && |SW.Above(entries, start)| + 1 <= Spent(n, length)
  }

  ghost predicate InStepAfter(n: nat, w: int, zset: SW.Key, counter: CD.Key, r: Request, length: nat, start: real) {
    InStep(n, w, SW.Next(Window(n, w), zset, r.ToWindow()), CD.Next(Bucket(n, w), counter, r.ToCounter()),
           length, start, r.clock)
  }

  lemma ScoresAfterRequest(n: nat, w: int, zset: SW.Key, r: Request, last: real)
    requires w > 0 && ScoredUpTo(SW.Entries(zset), last) && last <= r.clock
    ensures var next := SW.Next(Window(n, w), zset, r.ToWindow());
            && ScoredUpTo(SW.Entries(next), r.clock)
            && (next.Stored? ==> next.deadline == r.clock + w as real)
  {
    var kept := SW.Occupancy(Window(n, w), zset, r.ToWindow());
    assert forall m :: m in kept ==> m in SW.Entries(zset) && kept[m] == SW.Entries(zset)[m];
  }

  /** A request that finds the counter gone is admitted by both, and starts a session in step. */
  lemma NewSession(n: nat, w: int, zset: SW.Key, counter: CD.Key, r: Request, last: real)
    requires n >= 1 && w > 0 && last <= r.clock && ScoredUpTo(SW.Entries(zset), last)
    requires counter == CD.Missing ==> zset == SW.Missing
    requires counter.Stored? ==> counter.deadline == last + w as real
    requires !CD.Alive(counter, r.ToCounter())
    ensures SW.Allows(Window(n, w), zset, r.ToWindow()) && CD.Issues(Bucket(n, w), counter, r.ToCounter())
    ensures InStepAfter(n, w, zset, counter, r, 1, r.clock)
  {
    var kept := SW.Occupancy(Window(n, w), zset, r.ToWindow());
    var live := SW.Live(zset, r.ToWindow());
    forall m | m in live ensures live[m] <= r.clock - w as real {
      assert m in SW.Entries(zset);
    }
    assert kept == map[];
    var next := SW.Next(Window(n, w), zset, r.ToWindow());
    assert SW.Entries(next) == map[][r.time := r.clock];
    assert SW.Above(SW.Entries(next), r.clock) == map[];
  }

  /** Within w seconds of the session's start, the set counts one entry per token spent. */
  lemma EarlyCallCountsAll(n: nat, w: int, zset: SW.Key, counter: CD.Key, length: nat, start: real, last: real,
                           r: Request)
    requires n >= 1 && w > 0 && last <= r.clock < start + w as real && !r.windowEvicted
    requires InStep(n, w, zset, counter, length, start, last)
    ensures SW.Occupancy(Window(n, w), zset, r.ToWindow()) == SW.Entries(zset)
    ensures SW.Allows(Window(n, w), zset, r.ToWindow()) <==> length < n
  {
    var entries := SW.Entries(zset);
    assert entries != map[];
    assert SW.Live(zset, r.ToWindow()) == entries;
    assert forall m :: m in entries ==> entries[m] > r.clock - w as real;
    assert SW.Above(entries, r.clock - w as real) == entries;
  }

  lemma EarlyCall(n: nat, w: int, zset: SW.Key, counter: CD.Key, length: nat, start: real, last: real, r: Request)
    requires n >= 1 && w > 0 && last <= r.clock < start + w as real && !r.windowEvicted
    requires InStep(n, w, zset, counter, length, start, last)
    requires SW.Fresh(Window(n, w), zset, r.ToWindow())
    ensures SW.Allows(Window(n, w), zset, r.ToWindow()) <==> CD.Issues(Bucket(n, w), counter, r.ToCounter())
    ensures InStepAfter(n, w, zset, counter, r, length + 1, start)
  {
    var lim, c := Window(n, w), r.ToWindow();
    EarlyCallCountsAll(n, w, zset, counter, length, start, last, r);
    ScoresAfterRequest(n, w, zset, r, last);
    SW.FreshIffCounted(lim, zset, c);
    SW.FreshCallAddsOne(lim, zset, c, start);
  }

  /** From then on, the set no longer counts the session's first entry. */
  lemma LateCallCountsFewer(n: nat, w: int, zset: SW.Key, counter: CD.Key, length: nat, start: real, last: real,
                            r: Request)
    requires n >= 1 && w > 0 && last <= r.clock && start + w as real <= r.clock
    requires InStep(n, w, zset, counter, length, start, last)
    ensures SW.Allows(Window(n, w), zset, r.ToWindow())
    ensures |SW.Above(SW.Occupancy(Window(n, w), zset, r.ToWindow()), start)| + 1 <= Spent(n, length)
  {
    var kept, later := SW.Occupancy(Window(n, w), zset, r.ToWindow()), SW.Above(SW.Entries(zset), start);
    assert kept.Keys <= later.Keys;
    SW.SubmapIsSmaller(kept, later);
    SW.SubmapIsSmaller(SW.Above(kept, start), kept);
  }

  lemma LateCall(n: nat, w: int, zset: SW.Key, counter: CD.Key, length: nat, start: real, last: real, r: Request)
    requires n >= 1 && w > 0 && last <= r.clock && start + w as real <= r.clock
    requires InStep(n, w, zset, counter, length, start, last)
    requires CD.Alive(counter, r.ToCounter()) && SW.Fresh(Window(n, w), zset, r.ToWindow())
    ensures SW.Allows(Window(n, w), zset, r.ToWindow())
    ensures CD.Issues(Bucket(n, w), counter, r.ToCounter()) <==> length < n
    ensures length < n ==> InStepAfter(n, w, zset, counter, r, length + 1, start)
  {
    var lim, c := Window(n, w), r.ToWindow();
    LateCallCountsFewer(n, w, zset, counter, length, start, last, r);
    ScoresAfterRequest(n, w, zset, r, last);
    SW.FreshCallAddsOne(lim, zset, c, start);
  }

  /** In step, or before the first request. */
  ghost predicate RunInStep(n: nat, w: int, run: Run<Request>) {
    var zset, counter := ZSet(Window(n, w), run), Counter(Bucket(n, w), run);
    if run == Start then zset == SW.Missing && counter == CD.Missing
    else InStep(n, w, zset, counter, CD.SessionLength(Bucket(n, w), CounterRun(run)),
                CD.SessionStart(Bucket(n, w), CounterRun(run)), run.last.clock)
  }

  lemma RunInStepAfter(n: nat, w: int, before: Run<Request>, r: Request)
    requires n >= 1 && w > 0 && MonotoneClock(Then(before, r)) && !r.windowEvicted
    requires SW.Fresh(Window(n, w), ZSet(Window(n, w), before), r.ToWindow())
    requires RunInStep(n, w, before)
    ensures SameDecision(n, w, before, r) <==> SettledRequest(n, w, Then(before, r))
    ensures SameDecision(n, w, before, r) ==> RunInStep(n, w, Then(before, r))
  {
    var zset, counter := ZSet(Window(n, w), before), Counter(Bucket(n, w), before);
    if !CD.Alive(counter, r.ToCounter()) {
      NewSession(n, w, zset, counter, r, if before.Then? then before.last.clock else r.clock);
    } else {
      var calls := CounterRun(before);
      var length, start := CD.SessionLength(Bucket(n, w), calls), CD.SessionStart(Bucket(n, w), calls);
      if r.clock < start + w as real {
        EarlyCall(n, w, zset, counter, length, start, before.last.clock, r);
      } else {
        LateCall(n, w, zset, counter, length, start, before.last.clock, r);
      }
    }
  }

  lemma {:induction false} InStepWhileAlike(n: nat, w: int, run: Run<Request>)
    requires n >= 1 && w > 0 && MonotoneClock(run) && SetNotEvicted(run)
    requires SW.FreshMembers(Window(n, w), WindowRun(run))
    ensures DecidedAlike(n, w, run) <==> Settled(n, w, run)
    ensures DecidedAlike(n, w, run) ==> RunInStep(n, w, run)
  {
    if run.Then? {
      InStepWhileAlike(n, w, run.before);
      if DecidedAlike(n, w, run.before) {
        RunInStepAfter(n, w, run.before, run.last);
      }
    }
  }

  /** With no tokens at all both deny everything. */
  lemma {:induction false} NoTokensAlike(n: int, w: int, run: Run<Request>)
    requires n <= 0
    ensures DecidedAlike(n, w, run) && Settled(n, w, run)
    ensures Counter(Bucket(n, w), run).Stored? ==> Counter(Bucket(n, w), run).remaining <= 0
  {
    if run.Then? {
      NoTokensAlike(n, w, run.before);
    }
  }

  /** Without a time to live no token is ever issued, and the set never holds an entry. */
  lemma NoTtlDiffers(n: int, w: int, before: Run<Request>, r: Request)
    requires n >= 1 && w <= 0
    ensures !SameDecision(n, w, before, r)
  {
    NoKeysWithoutTtl(Window(n, w), Bucket(n, w), before);
    assert SW.Occupancy(Window(n, w), SW.Missing, r.ToWindow()) == map[];
  }

  /** The two limiters, with one limit and one window, decide every request of a stream alike if and
      only if each request is among the first n calls of its countdown session or comes less than
      w seconds after that session began (or the limit admits nothing at all). */
  lemma {:induction false} AlikeIffSettled(n: int, w: int, run: Run<Request>)
    requires MonotoneClock(run) && SetNotEvicted(run) && SW.FreshMembers(Window(n, w), WindowRun(run))
    ensures DecidedAlike(n, w, run) <==> Settled(n, w, run)
  {
    if n <= 0 {
      NoTokensAlike(n, w, run);
    } else if w > 0 {
      InStepWhileAlike(n, w, run);
    } else if run.Then? {
      NoTtlDiffers(n, w, run.before, run.last);
    }
  }

  /** k requests at clock 0. */
  function Opening(k: nat): Run<Request> {
    if k == 0 then Start else Then(Opening(k - 1), Request(0.0, k, false, false, false))
  }

  /** ... then one at p and one at 2p. */
  function Steady(n: nat, p: real): Run<Request> {
    Then(Then(Opening(n), Request(p, n + 1, false, false, false)), Request(2.0 * p, n + 2, false, false, false))
  }

  lemma {:induction false} OpeningIsOneSession(n: nat, w: int, k: nat)
    requires w > 0 && k <= n
    ensures var run, cfg := Opening(k), Bucket(n, w);
            && MonotoneClock(run) && SetNotEvicted(run) && SW.IncreasingTimes(WindowRun(run)) && Settled(n, w, run)
            && CD.SessionLength(cfg, CounterRun(run)) == k
            && (k > 0 ==> run.last.clock == 0.0 && run.last.time == k
                          && CD.SessionStart(cfg, CounterRun(run)) == 0.0
                          && Counter(cfg, run).Stored? && Counter(cfg, run).deadline == w as real)
  {
    if k > 0 {
      OpeningIsOneSession(n, w, k - 1);
    }
  }

  lemma SteadySession(n: nat, w: int, p: real)
    requires n >= 1 && 0.0 < p < w as real <= 2.0 * p
    ensures var run := Steady(n, p);
            && MonotoneClock(run) && SetNotEvicted(run) && SW.IncreasingTimes(WindowRun(run))
            && Settled(n, w, run.before) && !Settled(n, w, run)
  {
    var cfg, run := Bucket(n, w), Steady(n, p);
    OpeningIsOneSession(n, w, n);
    assert Counter(cfg, run.before).deadline == p + w as real;
    assert CD.SessionLength(cfg, CounterRun(run.before)) == n + 1;
    assert CD.SessionStart(cfg, CounterRun(run.before)) == 0.0;
  }

  /** So the converse fails for every limit: a client that spends its n tokens at once and then calls
      every p seconds, with p < window <= 2p, is readmitted by the sliding window at 2p, while its own
      denied call has kept the countdown bucket from refilling. */
  lemma SlidingWindowAdmitsMore(n: nat, w: int, p: real)
    requires n >= 1 && 0.0 < p < w as real <= 2.0 * p
    ensures var run := Steady(n, p);
            && MonotoneClock(run)
            && DecidedAlike(n, w, run.before)
            && SW.Allows(Window(n, w), ZSet(Window(n, w), run.before), run.last.ToWindow())
            && !CD.Issues(Bucket(n, w), Counter(Bucket(n, w), run.before), run.last.ToCounter())
  {
    var run := Steady(n, p);
    SteadySession(n, w, p);
    SW.IncreasingTimesAreFresh(Window(n, w), WindowRun(run));
    AlikeIffSettled(n, w, run.before);
    AlikeIffSettled(n, w, run);
    if CD.Issues(Bucket(n, w), Counter(Bucket(n, w), run.before), run.last.ToCounter()) {
      CountdownAdmitsNoMore(Window(n, w), Bucket(n, w), run.before, run.last);
    }
  }
}
