/** The sliding-window limiter of token_bucket.lua: one sorted set per client address, whose
    scores are the caller's timestamps and whose members are the server's TIME readings. */
module SlidingWindow {
  import opened RedisKeys
  import opened Runs

  // ----- the stored key and one script call -------------------------------------------

  /** A sorted set with a time to live; Redis deletes the key when its set becomes empty. */
  datatype Key = Missing | Stored(entries: map<int, real>, deadline: real)

  datatype Limits = Limits(maxTokens: int, window: int)

  /** `now` is the caller's timestamp; `clock` and `time` are the server's clock and its TIME
      reading while the script runs; `evicted`: Redis has evicted the key since the previous call. */
  datatype Call = Call(now: real, clock: real, time: int, goneAtDeadline: bool, evicted: bool)

  function Entries(k: Key): map<int, real> {
    match k
    case Missing => map[]
    case Stored(entries, _) => entries
  }

  /** The key is gone by the time the call looks. */
  predicate Dropped(k: Key, c: Call) {
    c.evicted || (k.Stored? && Expired(k.deadline, c.clock, c.goneAtDeadline))
  }

  function Live(k: Key, c: Call): map<int, real> {
    if Dropped(k, c) then map[] else Entries(k)
  }

  function Above(entries: map<int, real>, cutoff: real): map<int, real> {
    map m | m in entries && entries[m] > cutoff :: entries[m]
  }

  /** What the script counts: the live entries that survive pruning. */
  function Occupancy(lim: Limits, k: Key, c: Call): map<int, real> {
    Above(Live(k, c), c.now - lim.window as real)
  }

  predicate Allows(lim: Limits, k: Key, c: Call) {
    |Occupancy(lim, k, c)| < lim.maxTokens
  }

  function Next(lim: Limits, k: Key, c: Call): Key {
    var kept := Occupancy(lim, k, c);
    var entries := if Allows(lim, k, c) then kept[c.time := c.now] else kept;
    if entries == map[] || lim.window <= 0 then Missing else Stored(entries, c.clock + lim.window as real)
  }

  /** The key as the script's Redis commands change it in place. */
  class SortedSetKey {
    var entries: map<int, real>
    var deadline: real

    function State(): Key
      reads this
    {
      if entries == map[] then Missing else Stored(entries, deadline)
    }

    constructor ()
      ensures State() == Missing
    {
      entries, deadline := map[], 0.0;
    }

    /** Eviction and lazy expiry, before the first command of a script touches the key. */
    method Access(c: Call)
      modifies this`entries
      ensures entries == Live(old(State()), c)
    {
      if c.evicted || Expired(deadline, c.clock, c.goneAtDeadline) {
        entries := map[];
      }
    }

    method ZRemRangeByScore(max: real)
      modifies this`entries
      ensures entries == Above(old(entries), max)
    {
      entries := map m | m in entries && !(entries[m] <= max) :: entries[m];
    }

    method ZAdd(score: real, member: int)
      modifies this`entries
      ensures entries == old(entries)[member := score]
    {
      entries := entries[member := score];
    }

    /** No effect on a missing key; a time to live that is not positive deletes the key. */
    method Expire(clock: real, seconds: int)
      modifies this
      ensures old(entries) == map[] ==> State() == Missing
      ensures old(entries) != map[] ==>
                State() == if seconds <= 0 then Missing else Stored(old(entries), clock + seconds as real)
    {
      if entries == map[] {
      } else if seconds <= 0 {
        entries := map[];
      } else {
        deadline := clock + seconds as real;
      }
    }

    /** The whole script: 1 admits the call, 0 denies it. */
    method TokenBucket(lim: Limits, c: Call) returns (reply: int)
      modifies this
      ensures State() == Next(lim, old(State()), c)
      ensures reply == if Allows(lim, old(State()), c) then 1 else 0
    {
      Access(c);
      ZRemRangeByScore(c.now - lim.window as real);
      assert entries == Occupancy(lim, old(State()), c);
      if |entries| < lim.maxTokens {
        ZAdd(c.now, c.time);
        Expire(c.clock, lim.window);
        return 1;
      }
      Expire(c.clock, lim.window);
      return 0;
    }
  }

  // ----- runs -----------------------------------------------------------------------

  /** The key after a run that starts with no key. */
  function After(lim: Limits, run: Run<Call>): Key {
    match run
    case Start => Missing
    case Then(before, c) => Next(lim, After(lim, before), c)
  }

  /** From the full history: how many admitted timestamps lie in the half-open interval (lo, hi]. */
  function AdmittedIn(lim: Limits, run: Run<Call>, lo: real, hi: real): nat {
    match run
    case Start => 0
    case Then(before, c) =>
      AdmittedIn(lim, before, lo, hi) + if Allows(lim, After(lim, before), c) && lo < c.now <= hi then 1 else 0
  }

  /** How many calls at a server clock in (lo, hi] find that the key was evicted. */
  function EvictionsIn(run: Run<Call>, lo: real, hi: real): nat {
    match run
    case Start => 0
    case Then(before, c) => EvictionsIn(before, lo, hi) + if c.evicted && lo < c.clock <= hi then 1 else 0
  }

  /** An admitted call whose TIME reading is already a member of the counted set overwrites
      that entry instead of adding one. */
  predicate Fresh(lim: Limits, k: Key, c: Call) {
    Allows(lim, k, c) ==> c.time !in Occupancy(lim, k, c)
  }

  /** How many calls at a server clock in (lo, hi] overwrite an entry. */
  function OverwritesIn(lim: Limits, run: Run<Call>, lo: real, hi: real): nat {
    match run
    case Start => 0
    case Then(before, c) =>
      OverwritesIn(lim, before, lo, hi) + if !Fresh(lim, After(lim, before), c) && lo < c.clock <= hi then 1 else 0
  }

  function ClockOf(c: Call): real { c.clock }

  ghost predicate MonotoneClock(run: Run<Call>) {
    NonDecreasing(run, ClockOf)
  }

  /** Every caller's timestamp is within e of the server clock. */
  ghost predicate WithinSkew(run: Run<Call>, e: real) {
    match run
    case Start => true
    case Then(before, c) => WithinSkew(before, e) && -e <= c.now - c.clock <= e
  }

  ghost predicate FreshMembers(lim: Limits, run: Run<Call>) {
    match run
    case Start => true
    case Then(before, c) => FreshMembers(lim, before) && Fresh(lim, After(lim, before), c)
  }

  // ----- the bound under clock skew ---------------------------------------------------

  /** The entries with a score in (lo, hi]. */
  function Within(entries: map<int, real>, lo: real, hi: real): map<int, real> {
    map m | m in entries && lo < entries[m] <= hi :: entries[m]
  }

  /** One limit for each eviction, and one for each overwritten entry, while it can matter. */
  function Extra(lim: Limits, run: Run<Call>, e: real, lo: real, hi: real): nat {
    Cap(lim.maxTokens) * EvictionsIn(run, lo - e, hi + e) + OverwritesIn(lim, run, lo - e, hi + e)
  }

  /** While the server clock can still produce a timestamp in (lo, hi], every admission counted there
      is still stored, evicted or overwritten, and the key outlives that time. */
  ghost predicate KeepsWindow(lim: Limits, run: Run<Call>, e: real, lo: real, hi: real) {
    var k := After(lim, run);
    var admitted, extra := AdmittedIn(lim, run, lo, hi), Extra(lim, run, e, lo, hi);
    && admitted <= Cap(lim.maxTokens) + extra
    && (run.Then? && run.last.clock <= hi + e ==>
          && admitted <= |Within(Entries(k), lo, hi)| + extra
          && (Within(Entries(k), lo, hi) != map[] ==> k.Stored? && k.deadline > hi + e))
  }

  lemma SubmapIsSmaller(a: map<int, real>, b: map<int, real>)
    requires a.Keys <= b.Keys
    ensures |a| <= |b|
  {
    assert b.Keys == a.Keys + (b.Keys - a.Keys);
    assert |a.Keys| == |a| && |b.Keys| == |b|;
  }

  lemma PruningKeepsWindow(lim: Limits, k: Key, c: Call, e: real, lo: real, hi: real)
    requires !c.evicted && hi - lo <= lim.window as real - 2.0 * e
    requires c.clock <= hi + e && c.now <= c.clock + e
    requires Within(Entries(k), lo, hi) != map[] ==> k.Stored? && k.deadline > hi + e
    ensures Within(Occupancy(lim, k, c), lo, hi) == Within(Entries(k), lo, hi)
    ensures |Within(Entries(k), lo, hi)| <= |Occupancy(lim, k, c)|
  {
    var kept := Occupancy(lim, k, c);
    if Within(Entries(k), lo, hi) == map[] {
      forall m | m in kept ensures m !in Within(kept, lo, hi) {
        assert m in Entries(k) && m !in Within(Entries(k), lo, hi);
      }
      assert Within(kept, lo, hi) == map[];
    } else {
      assert Within(kept, lo, hi) == Within(Entries(k), lo, hi);
    }
    SubmapIsSmaller(Within(kept, lo, hi), kept);
  }

  lemma OverwritingAddsNoEntry(kept: map<int, real>, member: int, score: real)
    ensures |kept[member := score]| == |kept| + if member in kept then 0 else 1
  {
    assert |kept[member := score].Keys| == |kept[member := score]| && |kept.Keys| == |kept|;
    assert member in kept ==> kept[member := score].Keys == kept.Keys;
  }

  lemma ZAddInside(kept: map<int, real>, member: int, score: real, lo: real, hi: real)
    requires lo < score <= hi
    ensures |Within(kept[member := score], lo, hi)| + (if member in kept then 1 else 0) >= |Within(kept, lo, hi)| + 1
  {
    assert Within(kept[member := score], lo, hi) == Within(kept, lo, hi)[member := score];
    OverwritingAddsNoEntry(Within(kept, lo, hi), member, score);
  }

  /** An overwritten entry may leave the interval. */
  lemma ZAddOutside(kept: map<int, real>, member: int, score: real, lo: real, hi: real)
    requires !(lo < score <= hi)
    ensures |Within(kept[member := score], lo, hi)| + (if member in kept then 1 else 0) >= |Within(kept, lo, hi)|
  {
    var was, now := Within(kept, lo, hi), Within(kept[member := score], lo, hi);
    assert now == was - {member};
    if member in was {
      OverwritingAddsNoEntry(now, member, was[member]);
      assert was == now[member := was[member]];
    }
  }

  lemma WithinAfterCall(lim: Limits, k: Key, c: Call, e: real, lo: real, hi: real)
    requires !c.evicted && hi - lo <= lim.window as real - 2.0 * e
    requires c.clock <= hi + e && -e <= c.now - c.clock <= e
    requires Within(Entries(k), lo, hi) != map[] ==> k.Stored? && k.deadline > hi + e
    ensures var counted := if Allows(lim, k, c) && lo < c.now <= hi then 1 else 0;
            |Within(Entries(Next(lim, k, c)), lo, hi)| + (if Fresh(lim, k, c) then 0 else 1)
            >= |Within(Entries(k), lo, hi)| + counted
  {
    PruningKeepsWindow(lim, k, c, e, lo, hi);
    var kept := Occupancy(lim, k, c);
    if lo >= hi {
      assert Within(Entries(k), lo, hi) == map[];
    } else {
      assert lim.window as real > 0.0;
      if Allows(lim, k, c) {
        assert c.time in kept[c.time := c.now];
        if lo < c.now <= hi {
          ZAddInside(kept, c.time, c.now, lo, hi);
        } else {
          ZAddOutside(kept, c.time, c.now, lo, hi);
        }
      } else {
        assert Entries(Next(lim, k, c)) == kept;
      }
    }
  }

  /** No stored score is further ahead than the skew allows. */
  lemma {:induction false} ScoresNearClock(lim: Limits, run: Run<Call>, e: real)
    requires MonotoneClock(run) && WithinSkew(run, e) && run.Then?
    ensures var entries := Entries(After(lim, run)); forall m :: m in entries ==> entries[m] <= run.last.clock + e
    ensures After(lim, run).Stored? ==> After(lim, run).deadline == run.last.clock + lim.window as real
  {
    var k := After(lim, run.before);
    if run.before.Then? {
      ScoresNearClock(lim, run.before, e);
    }
    var kept := Occupancy(lim, k, run.last);
    assert forall m :: m in kept ==> m in Entries(k) && kept[m] == Entries(k)[m];
  }

  /** An admission in (lo, hi] happened at a server clock above lo - e, hence so did the last call. */
  lemma {:induction false} AdmissionIsRecent(lim: Limits, run: Run<Call>, e: real, lo: real, hi: real)
    requires MonotoneClock(run) && WithinSkew(run, e)
    requires AdmittedIn(lim, run, lo, hi) > 0
    ensures run.Then? && run.last.clock > lo - e
  {
    if AdmittedIn(lim, run.before, lo, hi) > 0 {
      AdmissionIsRecent(lim, run.before, e, lo, hi);
    }
  }

  lemma KeyOutlivesWindow(lim: Limits, run: Run<Call>, e: real, lo: real, hi: real)
    requires MonotoneClock(run) && WithinSkew(run, e) && run.Then?
    requires hi - lo <= lim.window as real - 2.0 * e
    ensures var k := After(lim, run); Within(Entries(k), lo, hi) != map[] ==> k.Stored? && k.deadline > hi + e
  {
    ScoresNearClock(lim, run, e);
    var k := After(lim, run);
    if !(k.Stored? && k.deadline > hi + e) {
      forall m | m in Entries(k) ensures m !in Within(Entries(k), lo, hi) {
        assert Entries(k)[m] <= run.last.clock + e;
      }
      assert Within(Entries(k), lo, hi) == map[];
    }
  }

  lemma ExtraStep(lim: Limits, before: Run<Call>, c: Call, e: real, lo: real, hi: real)
    ensures var matters := lo - e < c.clock <= hi + e;
            Extra(lim, Then(before, c), e, lo, hi)
            == Extra(lim, before, e, lo, hi) + (if matters && c.evicted then Cap(lim.maxTokens) else 0)
               + (if matters && !Fresh(lim, After(lim, before), c) then 1 else 0)
  {
    var cap, evictions := Cap(lim.maxTokens), EvictionsIn(before, lo - e, hi + e);
    var overwrites, fresh? := OverwritesIn(lim, before, lo - e, hi + e), Fresh(lim, After(lim, before), c);
    NextMultiple(cap, evictions);
    assert EvictionsIn(Then(before, c), lo - e, hi + e)
           == evictions + if c.evicted && lo - e < c.clock <= hi + e then 1 else 0;
    assert OverwritesIn(lim, Then(before, c), lo - e, hi + e)
           == overwrites + if !fresh? && lo - e < c.clock <= hi + e then 1 else 0;
  }

  lemma EvictedCallKeepsWindow(lim: Limits, before: Run<Call>, c: Call, e: real, lo: real, hi: real)
    requires c.evicted && lo - e < c.clock <= hi + e
    requires var run := Then(before, c); MonotoneClock(run) && WithinSkew(run, e)
    requires hi - lo <= lim.window as real - 2.0 * e
    requires KeepsWindow(lim, before, e, lo, hi)
    ensures KeepsWindow(lim, Then(before, c), e, lo, hi)
  {
    var run, k := Then(before, c), After(lim, before);
    ExtraStep(lim, before, c, e, lo, hi);
    KeyOutlivesWindow(lim, run, e, lo, hi);
    assert Occupancy(lim, k, c) == map[];
    if Allows(lim, k, c) && lo < c.now <= hi {
      assert c.time in Within(Entries(After(lim, run)), lo, hi);
    }
  }

  lemma CallKeepsWindow(lim: Limits, before: Run<Call>, c: Call, e: real, lo: real, hi: real)
    requires !c.evicted && lo - e < c.clock <= hi + e
    requires var run := Then(before, c); MonotoneClock(run) && WithinSkew(run, e)
    requires hi - lo <= lim.window as real - 2.0 * e
    requires KeepsWindow(lim, before, e, lo, hi)
    ensures KeepsWindow(lim, Then(before, c), e, lo, hi)
  {
    var k := After(lim, before);
    assert before == Start ==> Within(Entries(k), lo, hi) == map[];
    ExtraStep(lim, before, c, e, lo, hi);
    KeyOutlivesWindow(lim, Then(before, c), e, lo, hi);
    PruningKeepsWindow(lim, k, c, e, lo, hi);
    WithinAfterCall(lim, k, c, e, lo, hi);
  }

  lemma {:induction false} WindowIsKept(lim: Limits, run: Run<Call>, e: real, lo: real, hi: real)
    requires MonotoneClock(run) && WithinSkew(run, e)
    requires hi - lo <= lim.window as real - 2.0 * e
    ensures KeepsWindow(lim, run, e, lo, hi)
  {
    if run.Then? {
      var before, c := run.before, run.last;
      WindowIsKept(lim, before, e, lo, hi);
      if c.clock > hi + e {
        ExtraStep(lim, before, c, e, lo, hi);
      } else if c.clock <= lo - e {
        if AdmittedIn(lim, run, lo, hi) > 0 {
          AdmissionIsRecent(lim, run, e, lo, hi);
        }
        KeyOutlivesWindow(lim, run, e, lo, hi);
      } else if c.evicted {
        EvictedCallKeepsWindow(lim, before, c, e, lo, hi);
      } else {
        CallKeepsWindow(lim, before, c, e, lo, hi);
      }
    }
  }

  /** If every caller's timestamp is within e of a non-decreasing server clock, no half-open
      interval of length window - 2e holds more than maxTokens admitted timestamps, plus maxTokens
      for each eviction and one for each overwritten entry at a clock within e of the interval. */
  lemma {:induction false} SkewedWindowBound(lim: Limits, run: Run<Call>, e: real, lo: real, hi: real)
    requires MonotoneClock(run) && WithinSkew(run, e)
    requires hi - lo <= lim.window as real - 2.0 * e
    ensures AdmittedIn(lim, run, lo, hi)
            <= Cap(lim.maxTokens) * (1 + EvictionsIn(run, lo - e, hi + e)) + OverwritesIn(lim, run, lo - e, hi + e)
  {
    WindowIsKept(lim, run, e, lo, hi);
    NextMultiple(Cap(lim.maxTokens), EvictionsIn(run, lo - e, hi + e));
  }

  lemma {:induction false} FreshRunsOverwriteNothing(lim: Limits, run: Run<Call>, lo: real, hi: real)
    requires FreshMembers(lim, run)
    ensures OverwritesIn(lim, run, lo, hi) == 0
  {
    if run.Then? {
      FreshRunsOverwriteNothing(lim, run.before, lo, hi);
    }
  }

  /** With fresh members, each eviction lets through at most one more window's worth of calls; and
      without evictions the limit itself is never exceeded. */
  lemma {:induction false} EvictionsCostOneWindowEach(lim: Limits, run: Run<Call>, e: real, lo: real, hi: real)
    requires MonotoneClock(run) && WithinSkew(run, e) && FreshMembers(lim, run)
    requires hi - lo <= lim.window as real - 2.0 * e
    ensures AdmittedIn(lim, run, lo, hi) <= Cap(lim.maxTokens) * (1 + EvictionsIn(run, lo - e, hi + e))
    ensures EvictionsIn(run, lo - e, hi + e) == 0 ==> AdmittedIn(lim, run, lo, hi) <= Cap(lim.maxTokens)
  {
    SkewedWindowBound(lim, run, e, lo, hi);
    FreshRunsOverwriteNothing(lim, run, lo - e, hi + e);
  }

  /** TIME readings that only ever increase, the script's own assumption, give fresh members. */
  ghost predicate IncreasingTimes(run: Run<Call>) {
    match run
    case Start => true
    case Then(before, c) => IncreasingTimes(before) && (before.Then? ==> before.last.time < c.time)
  }

  lemma {:induction false} IncreasingTimesAreFresh(lim: Limits, run: Run<Call>)
    requires IncreasingTimes(run)
    ensures FreshMembers(lim, run)
    ensures forall m :: m in Entries(After(lim, run)) ==> run.Then? && m <= run.last.time
  {
    if run.Then? {
      IncreasingTimesAreFresh(lim, run.before);
      var k := After(lim, run.before);
      assert forall m :: m in Occupancy(lim, k, run.last) ==> m in Entries(k);
    }
  }

  // ----- the bound is tight -------------------------------------------------------------

  /** n calls with one timestamp at one clock, with increasing TIME readings. */
  function Burst(now: real, clock: real, n: nat): Run<Call> {
    if n == 0 then Start else Then(Burst(now, clock, n - 1), Call(now, clock, n, false, false))
  }

  lemma {:induction false} BurstIsRegular(now: real, clock: real, n: nat, e: real, lo: real, hi: real)
    requires -e <= now - clock <= e
    ensures var run := Burst(now, clock, n);
            && MonotoneClock(run) && WithinSkew(run, e) && IncreasingTimes(run) && EvictionsIn(run, lo, hi) == 0
            && (n > 0 ==> run.last.time == n && run.last.clock == clock)
  {
    if n > 0 {
      BurstIsRegular(now, clock, n - 1, e, lo, hi);
    }
  }

  /** The set holds the n members 1 to n, all scored `now`. */
  ghost predicate HoldsBurst(lim: Limits, k: Key, now: real, clock: real, n: nat) {
    && |Entries(k)| == n
    && (forall m :: m in Entries(k) ==> m <= n && Entries(k)[m] == now)
    && (k.Stored? ==> k.deadline == clock + lim.window as real)
  }

  lemma BurstGrows(lim: Limits, k: Key, now: real, clock: real, n: nat)
    requires n < lim.maxTokens && lim.window > 0 && HoldsBurst(lim, k, now, clock, n)
    ensures var c := Call(now, clock, n + 1, false, false);
            Allows(lim, k, c) && HoldsBurst(lim, Next(lim, k, c), now, clock, n + 1)
  {
    var c := Call(now, clock, n + 1, false, false);
    var entries := Entries(k);
    assert Live(k, c) == entries;
    assert forall m :: m in entries ==> entries[m] > now - lim.window as real;
    assert Above(entries, now - lim.window as real) == entries;
    assert n + 1 !in entries && n + 1 in entries[n + 1 := now];
    assert Entries(Next(lim, k, c)) == entries[n + 1 := now];
  }

  lemma {:induction false} BurstIsAdmitted(lim: Limits, now: real, clock: real, n: nat, lo: real, hi: real)
    requires n <= lim.maxTokens && lim.window > 0 && lo < now <= hi
    ensures var run := Burst(now, clock, n);
            AdmittedIn(lim, run, lo, hi) == n && HoldsBurst(lim, After(lim, run), now, clock, n)
  {
    if n > 0 {
      BurstIsAdmitted(lim, now, clock, n - 1, lo, hi);
      BurstGrows(lim, After(lim, Burst(now, clock, n - 1)), now, clock, n - 1);
    }
  }

  lemma DroppedKeyAdmits(lim: Limits, k: Key, c: Call)
    requires Dropped(k, c) && lim.maxTokens >= 1
    ensures Allows(lim, k, c)
  {
    assert Occupancy(lim, k, c) == map[];
  }

  lemma BurstFills(lim: Limits, now: real, clock: real, n: nat, lo: real, hi: real)
    requires 1 <= n <= lim.maxTokens && lim.window > 0 && lo < now <= hi
    ensures var run := Burst(now, clock, n);
            && AdmittedIn(lim, run, lo, hi) == n
            && After(lim, run).Stored? && After(lim, run).deadline == clock + lim.window as real
  {
    BurstIsAdmitted(lim, now, clock, n, lo, hi);
  }

  /** A burst that fills the limit with clocks e behind the callers, then, when the key's time to
      live has just run out, one call whose caller is e behind. */
  function SkewedRun(lim: Limits, e: real, first: real): Run<Call> {
    var deadline := first - e + lim.window as real;
    Then(Burst(first, first - e, Cap(lim.maxTokens)), Call(deadline - e, deadline, Cap(lim.maxTokens) + 1, true, false))
  }

  lemma SkewedRunIsRegular(lim: Limits, e: real, first: real, lo: real, hi: real)
    requires lim.window > 0 && 0.0 <= e
    ensures var run := SkewedRun(lim, e, first);
            MonotoneClock(run) && WithinSkew(run, e) && IncreasingTimes(run) && EvictionsIn(run, lo, hi) == 0
  {
    BurstIsRegular(first, first - e, Cap(lim.maxTokens), e, lo, hi);
  }

  lemma SkewedRunIsAdmitted(lim: Limits, e: real, first: real, lo: real, hi: real)
    requires lim.maxTokens >= 1 && lim.window > 0 && lo < first <= first - 2.0 * e + lim.window as real == hi
    ensures AdmittedIn(lim, SkewedRun(lim, e, first), lo, hi) == Cap(lim.maxTokens) + 1
  {
    var run := SkewedRun(lim, e, first);
    BurstFills(lim, first, first - e, Cap(lim.maxTokens), lo, hi);
    DroppedKeyAdmits(lim, After(lim, run.before), run.last);
  }

  /** The bound is tight: for every limit, any interval longer than window - 2e can hold more than
      the limit although nothing is evicted or overwritten. */
  lemma SkewBoundIsTight(lim: Limits, e: real, lo: real, hi: real)
    requires lim.maxTokens >= 1 && lim.window > 0 && 0.0 <= 2.0 * e <= lim.window as real
    requires hi - lo > lim.window as real - 2.0 * e
    ensures var run := SkewedRun(lim, e, hi - (lim.window as real - 2.0 * e));
            && MonotoneClock(run) && WithinSkew(run, e) && FreshMembers(lim, run)
            && EvictionsIn(run, lo - e, hi + e) == 0
            && AdmittedIn(lim, run, lo, hi) == Cap(lim.maxTokens) + 1
  {
    var first := hi - (lim.window as real - 2.0 * e);
    SkewedRunIsRegular(lim, e, first, lo - e, hi + e);
    SkewedRunIsAdmitted(lim, e, first, lo, hi);
    IncreasingTimesAreFresh(lim, SkewedRun(lim, e, first));
  }

  /** A burst that fills the limit with clocks e behind the callers; a call whose caller is e ahead, which
      prunes all of it; and one whose caller is e behind. */
  function PrunedRun(lim: Limits, e: real, first: real): Run<Call> {
    var n, later := Cap(lim.maxTokens), first - e + lim.window as real;
    Then(Then(Burst(first, first - e, n),
      Call(later + e, later, n + 1, false, false)),
      Call(later - e, later, n + 2, false, false))
  }

  ghost predicate NeverDropped(lim: Limits, run: Run<Call>) {
    run.Then? ==> NeverDropped(lim, run.before) && !Dropped(After(lim, run.before), run.last)
  }

  lemma {:induction false} BurstIsNotDropped(lim: Limits, now: real, clock: real, n: nat)
    requires n <= lim.maxTokens && lim.window > 0
    ensures NeverDropped(lim, Burst(now, clock, n))
  {
    if n > 0 {
      BurstIsNotDropped(lim, now, clock, n - 1);
      BurstIsAdmitted(lim, now, clock, n - 1, now - 1.0, now);
    }
  }

  /** A call that is ahead prunes the burst, and is then alone in the set. */
  lemma AheadPrunes(lim: Limits, k: Key, now: real, clock: real, n: nat, c: Call)
    requires lim.maxTokens >= 1 && lim.window > 0 && HoldsBurst(lim, k, now, clock, n)
    requires c.now - lim.window as real >= now && !Dropped(k, c)
    ensures Allows(lim, k, c)
    ensures Next(lim, k, c) == Stored(map[c.time := c.now], c.clock + lim.window as real)
  {
    var entries := Entries(k);
    assert Live(k, c) == entries;
    assert forall m :: m in entries ==> !(entries[m] > c.now - lim.window as real);
    assert Occupancy(lim, k, c) == map[];
    assert map[][c.time := c.now] == map[c.time := c.now];
  }

  lemma AloneLeavesRoom(lim: Limits, time: int, score: real, deadline: real, c: Call)
    requires lim.maxTokens >= 2
    ensures Allows(lim, Stored(map[time := score], deadline), c)
  {
    SubmapIsSmaller(Occupancy(lim, Stored(map[time := score], deadline), c), map[time := score]);
    assert |map[time := score]| == 1;
  }

  lemma PrunedRunIsRegular(lim: Limits, e: real, first: real, lo: real, hi: real)
    requires lim.window > 0 && 0.0 <= e
    ensures var run := PrunedRun(lim, e, first);
            MonotoneClock(run) && WithinSkew(run, e) && IncreasingTimes(run) && EvictionsIn(run, lo, hi) == 0
  {
    BurstIsRegular(first, first - e, Cap(lim.maxTokens), e, lo, hi);
    assert MonotoneClock(PrunedRun(lim, e, first).before);
  }

  lemma TwoMoreAdmitted(lim: Limits, before: Run<Call>, c: Call, d: Call, lo: real, hi: real)
    requires NeverDropped(lim, before) && !Dropped(After(lim, before), c) && lo < d.now <= hi
    requires var k := Next(lim, After(lim, before), c); !Dropped(k, d) && Allows(lim, k, d)
    ensures NeverDropped(lim, Then(Then(before, c), d))
    ensures AdmittedIn(lim, Then(Then(before, c), d), lo, hi) > AdmittedIn(lim, before, lo, hi)
  {
    assert NeverDropped(lim, Then(before, c));
    assert AdmittedIn(lim, Then(before, c), lo, hi) >= AdmittedIn(lim, before, lo, hi);
  }

  lemma PrunedRunIsAdmitted(lim: Limits, e: real, first: real, lo: real, hi: real)
    requires lim.maxTokens >= 2 && lim.window > 0 && 0.0 <= e
    requires lo < first <= first - 2.0 * e + lim.window as real == hi
    ensures NeverDropped(lim, PrunedRun(lim, e, first))
    ensures AdmittedIn(lim, PrunedRun(lim, e, first), lo, hi) > Cap(lim.maxTokens)
  {
    var n, run := Cap(lim.maxTokens), PrunedRun(lim, e, first);
    var burst, ahead, behind := run.before.before, run.before.last, run.last;
    BurstIsAdmitted(lim, first, first - e, n, lo, hi);
    BurstIsNotDropped(lim, first, first - e, n);
    AheadPrunes(lim, After(lim, burst), first, first - e, n, ahead);
    AloneLeavesRoom(lim, ahead.time, ahead.now, ahead.clock + lim.window as real, behind);
    TwoMoreAdmitted(lim, burst, ahead, behind, lo, hi);
  }

  /** The bound stays tight for a limit of two or more even if the key is never gone: one caller ahead of
      the server clock is enough to forget admissions early, since entries are pruned by its clock. */
  lemma SkewBoundIsTightWhileKept(lim: Limits, e: real, lo: real, hi: real)
    requires lim.maxTokens >= 2 && lim.window > 0 && 0.0 <= 2.0 * e <= lim.window as real
    requires hi - lo > lim.window as real - 2.0 * e
    ensures var run := PrunedRun(lim, e, hi - (lim.window as real - 2.0 * e));
            && MonotoneClock(run) && WithinSkew(run, e) && FreshMembers(lim, run) && NeverDropped(lim, run)
            && AdmittedIn(lim, run, lo, hi) > Cap(lim.maxTokens)
  {
    var first := hi - (lim.window as real - 2.0 * e);
    PrunedRunIsRegular(lim, e, first, lo, hi);
    PrunedRunIsAdmitted(lim, e, first, lo, hi);
    IncreasingTimesAreFresh(lim, PrunedRun(lim, e, first));
  }

  // ----- exactness on one clock ---------------------------------------------------------

  ghost predicate OnClock(run: Run<Call>) {
    match run
    case Start => true
    case Then(before, c) => OnClock(before) && c.now == c.clock
  }

  /** The TIME readings of the calls admitted in (lo, hi] since the key was last evicted. */
  function TimesIn(lim: Limits, run: Run<Call>, lo: real, hi: real): set<int> {
    match run
    case Start => {}
    case Then(before, c) =>
      (if c.evicted then {} else TimesIn(lim, before, lo, hi))
      + if Allows(lim, After(lim, before), c) && lo < c.now <= hi then {c.time} else {}
  }

  /** Those after lo that a further call still has: none if it finds the key evicted. */
  function TimesKept(lim: Limits, before: Run<Call>, c: Call, lo: real): set<int> {
    if c.evicted then {} else TimesIn(lim, before, lo, c.now)
  }

  function TimesInWindow(lim: Limits, before: Run<Call>, c: Call): set<int> {
    TimesKept(lim, before, c, c.now - lim.window as real)
  }

  function AdmittedInWindow(lim: Limits, before: Run<Call>, c: Call): nat {
    AdmittedIn(lim, before, c.now - lim.window as real, c.now)
  }

  /** Timestamps are never later than the last call's, so looking further changes nothing. */
  lemma {:induction false} AdmissionsArePast(lim: Limits, run: Run<Call>, lo: real, hi: real)
    requires MonotoneClock(run) && OnClock(run)
    requires run.Then? && run.last.clock <= hi
    ensures AdmittedIn(lim, run, lo, hi) == AdmittedIn(lim, run, lo, run.last.clock)
  {
    if run.before.Then? {
      AdmissionsArePast(lim, run.before, lo, hi);
      AdmissionsArePast(lim, run.before, lo, run.last.clock);
    }
  }

  lemma {:induction false} TimesArePast(lim: Limits, run: Run<Call>, lo: real, hi: real)
    requires MonotoneClock(run) && OnClock(run)
    requires run.Then? && run.last.clock <= hi
    ensures TimesIn(lim, run, lo, hi) == TimesIn(lim, run, lo, run.last.clock)
  {
    if run.before.Then? {
      TimesArePast(lim, run.before, lo, hi);
      TimesArePast(lim, run.before, lo, run.last.clock);
    }
  }

  lemma {:induction false} EmptyIntervalHoldsNothing(lim: Limits, run: Run<Call>, lo: real, hi: real)
    requires hi <= lo
    ensures AdmittedIn(lim, run, lo, hi) == 0
  {
    if run.Then? {
      EmptyIntervalHoldsNothing(lim, run.before, lo, hi);
    }
  }

  lemma {:induction false} EmptyIntervalHasNoTimes(lim: Limits, run: Run<Call>, lo: real, hi: real)
    requires hi <= lo
    ensures TimesIn(lim, run, lo, hi) == {}
  {
    if run.Then? {
      EmptyIntervalHasNoTimes(lim, run.before, lo, hi);
    }
  }

  ghost predicate ScoresWithin(entries: map<int, real>, lo: real, hi: real) {
    forall m :: m in entries ==> lo < entries[m] <= hi
  }

  ghost predicate HoldsHistory(lim: Limits, run: Run<Call>, entries: map<int, real>, start: real, last: real) {
    forall lo :: lo >= start ==> Above(entries, lo).Keys == TimesIn(lim, run, lo, last)
  }

  /** The stored set is the history cut off at the window. */
  ghost predicate RecordsHistory(lim: Limits, run: Run<Call>) {
    run.Then? ==>
      var k, last := After(lim, run), run.last.clock;
      var start := last - lim.window as real;
      && HoldsHistory(lim, run, Entries(k), start, last)
      && ScoresWithin(Entries(k), start, last)
      && (k.Stored? ==> k.deadline == last + lim.window as real)
  }

  lemma AboveOccupancy(lim: Limits, k: Key, c: Call, lo: real)
    requires lo >= c.now - lim.window as real
    ensures Above(Occupancy(lim, k, c), lo) == if Dropped(k, c) then map[] else Above(Entries(k), lo)
  {
  }

  /** What a call counts, above any cutoff in its window, is what the history holds there. */
  lemma OccupancyIsHistory(lim: Limits, before: Run<Call>, c: Call, lo: real)
    requires MonotoneClock(Then(before, c)) && OnClock(Then(before, c))
    requires RecordsHistory(lim, before)
    requires lo >= c.now - lim.window as real
    ensures Above(Occupancy(lim, After(lim, before), c), lo).Keys == TimesKept(lim, before, c, lo)
  {
    var k := After(lim, before);
    AboveOccupancy(lim, k, c, lo);
    if before.Then? && !c.evicted {
      TimesArePast(lim, before, lo, c.now);
      if Dropped(k, c) {
        EmptyIntervalHasNoTimes(lim, before, lo, before.last.clock);
      }
    }
  }

  lemma ScoresInWindow(lim: Limits, before: Run<Call>, c: Call)
    requires MonotoneClock(Then(before, c)) && OnClock(Then(before, c))
    requires RecordsHistory(lim, before)
    ensures ScoresWithin(Occupancy(lim, After(lim, before), c), c.now - lim.window as real, c.now)
  {
    var live := Live(After(lim, before), c);
    forall m | m in live ensures live[m] <= c.now {
      assert m in Entries(After(lim, before));
    }
  }

  lemma ScoresAfterCall(lim: Limits, k: Key, c: Call)
    requires ScoresWithin(Occupancy(lim, k, c), c.now - lim.window as real, c.now)
    ensures ScoresWithin(Entries(Next(lim, k, c)), c.now - lim.window as real, c.now)
  {
  }

  lemma AboveAdded(kept: map<int, real>, member: int, score: real, lo: real)
    requires forall m :: m in kept ==> kept[m] <= score
    ensures Above(kept[member := score], lo).Keys == Above(kept, lo).Keys + if lo < score then {member} else {}
  {
  }

  lemma AboveAfterCall(lim: Limits, k: Key, c: Call, lo: real)
    requires lim.window > 0
    requires ScoresWithin(Occupancy(lim, k, c), c.now - lim.window as real, c.now)
    ensures Above(Entries(Next(lim, k, c)), lo).Keys
            == Above(Occupancy(lim, k, c), lo).Keys + if Allows(lim, k, c) && lo < c.now then {c.time} else {}
  {
    var kept := Occupancy(lim, k, c);
    AboveAdded(kept, c.time, c.now, lo);
    assert c.time in kept[c.time := c.now];
    assert Entries(Next(lim, k, c)) == if Allows(lim, k, c) then kept[c.time := c.now] else kept;
  }

  lemma HoldsHistoryStep(lim: Limits, before: Run<Call>, c: Call, lo: real)
    requires MonotoneClock(Then(before, c)) && OnClock(Then(before, c))
    requires RecordsHistory(lim, before)
    requires lo >= c.now - lim.window as real
    ensures Above(Entries(After(lim, Then(before, c))), lo).Keys == TimesIn(lim, Then(before, c), lo, c.now)
  {
    if lim.window <= 0 {
      EmptyIntervalHasNoTimes(lim, Then(before, c), lo, c.now);
    } else {
      OccupancyIsHistory(lim, before, c, lo);
      ScoresInWindow(lim, before, c);
      AboveAfterCall(lim, After(lim, before), c, lo);
    }
  }

  lemma RecordsHistoryStep(lim: Limits, before: Run<Call>, c: Call)
    requires MonotoneClock(Then(before, c)) && OnClock(Then(before, c))
    requires RecordsHistory(lim, before)
    ensures RecordsHistory(lim, Then(before, c))
  {
    ScoresInWindow(lim, before, c);
    ScoresAfterCall(lim, After(lim, before), c);
    forall lo | lo >= c.now - lim.window as real
      ensures Above(Entries(After(lim, Then(before, c))), lo).Keys == TimesIn(lim, Then(before, c), lo, c.now)
    {
      HoldsHistoryStep(lim, before, c, lo);
    }
  }

  lemma {:induction false} HistoryIsRecorded(lim: Limits, run: Run<Call>)
    requires MonotoneClock(run) && OnClock(run)
    ensures RecordsHistory(lim, run)
  {
    if run.Then? {
      HistoryIsRecorded(lim, run.before);
      RecordsHistoryStep(lim, run.before, run.last);
    }
  }

  lemma KeysAreCounted(entries: map<int, real>)
    ensures |entries.Keys| == |entries|
  {
  }

  lemma KeptIsHistory(lim: Limits, before: Run<Call>, c: Call, lo: real)
    requires MonotoneClock(Then(before, c)) && OnClock(Then(before, c))
    requires lo >= c.now - lim.window as real
    ensures Above(Occupancy(lim, After(lim, before), c), lo).Keys == TimesKept(lim, before, c, lo)
  {
    HistoryIsRecorded(lim, before);
    OccupancyIsHistory(lim, before, c, lo);
  }

  lemma WindowKeys(lim: Limits, k: Key, c: Call, times: set<int>)
    requires Above(Occupancy(lim, k, c), c.now - lim.window as real).Keys == times
    ensures Occupancy(lim, k, c).Keys == times
  {
    WindowIsWhole(lim, k, c);
  }

  /** The counted set is the history's: it has those TIME readings as its members. */
  lemma CountsDistinctTimes(lim: Limits, before: Run<Call>, c: Call)
    requires MonotoneClock(Then(before, c)) && OnClock(Then(before, c))
    ensures Occupancy(lim, After(lim, before), c).Keys == TimesKept(lim, before, c, c.now - lim.window as real)
  {
    var start := c.now - lim.window as real;
    KeptIsHistory(lim, before, c, start);
    WindowKeys(lim, After(lim, before), c, TimesKept(lim, before, c, start));
  }

  lemma WindowIsWhole(lim: Limits, k: Key, c: Call)
    ensures Above(Occupancy(lim, k, c), c.now - lim.window as real) == Occupancy(lim, k, c)
  {
  }

  /** The pruned, expiring set decides as the history would: on one clock, and with no other
      hypothesis, a call is admitted exactly when the admissions in (now - window, now] since the last
      eviction carry fewer than maxTokens distinct TIME readings. */
  lemma {:induction false} SlidesOnDistinctTimes(lim: Limits, before: Run<Call>, c: Call)
    requires MonotoneClock(Then(before, c)) && OnClock(Then(before, c))
    ensures Allows(lim, After(lim, before), c) <==> |TimesInWindow(lim, before, c)| < lim.maxTokens
  {
    CountsDistinctTimes(lim, before, c);
    KeysAreCounted(Occupancy(lim, After(lim, before), c));
  }

  /** A key that has expired took with it no admission that a call would still count. */
  lemma {:induction false} ExpiredKeyHeldNothing(lim: Limits, before: Run<Call>, c: Call)
    requires MonotoneClock(Then(before, c)) && OnClock(Then(before, c))
    requires Dropped(After(lim, before), c) && !c.evicted
    ensures AdmittedInWindow(lim, before, c) == 0
  {
    DroppedKeyCountsNothing(lim, before, c, c.now - lim.window as real);
  }

  lemma {:induction false} DistinctAtMostAdmitted(lim: Limits, run: Run<Call>, lo: real, hi: real)
    ensures |TimesIn(lim, run, lo, hi)| <= AdmittedIn(lim, run, lo, hi)
  {
    if run.Then? {
      DistinctAtMostAdmitted(lim, run.before, lo, hi);
    }
  }

  lemma WindowHoldsMoreAdmissions(lim: Limits, before: Run<Call>, c: Call)
    ensures |TimesInWindow(lim, before, c)| <= AdmittedInWindow(lim, before, c)
  {
    DistinctAtMostAdmitted(lim, before, c.now - lim.window as real, c.now);
  }

  /** Exactly when a decision is the one the full history asks for, fewer than maxTokens earlier
      admissions in (now - window, now]: unless shared TIME readings or an eviction leave fewer than
      maxTokens distinct readings where there were at least that many admissions. */
  lemma {:induction false} DecidesAsHistoryIff(lim: Limits, before: Run<Call>, c: Call)
    requires MonotoneClock(Then(before, c)) && OnClock(Then(before, c))
    ensures var k, distinct := After(lim, before), |TimesInWindow(lim, before, c)|;
            var admitted := AdmittedInWindow(lim, before, c);
            && (Allows(lim, k, c) <==> admitted < lim.maxTokens) <==> !(distinct < lim.maxTokens <= admitted)
  {
    SlidesOnDistinctTimes(lim, before, c);
    WindowHoldsMoreAdmissions(lim, before, c);
  }

  /** The call does not overwrite an entry, or find evicted what its window still held. */
  ghost predicate LosesNothing(lim: Limits, before: Run<Call>, c: Call) {
    Fresh(lim, After(lim, before), c) && (c.evicted ==> AdmittedInWindow(lim, before, c) == 0)
  }

  ghost predicate NothingLost(lim: Limits, run: Run<Call>) {
    run.Then? ==> NothingLost(lim, run.before) && LosesNothing(lim, run.before, run.last)
  }

  lemma {:induction false} NarrowerHoldsFewer(lim: Limits, run: Run<Call>, wider: real, lo: real, hi: real)
    requires wider <= lo
    ensures AdmittedIn(lim, run, lo, hi) <= AdmittedIn(lim, run, wider, hi)
  {
    if run.Then? {
      NarrowerHoldsFewer(lim, run.before, wider, lo, hi);
    }
  }

  lemma DeadlineAfterRun(lim: Limits, run: Run<Call>)
    requires run.Then?
    ensures After(lim, run).Stored? ==> After(lim, run).deadline == run.last.clock + lim.window as real
  {
  }

  /** The stored set has one entry for each admission in the window. */
  ghost predicate CountsHistory(lim: Limits, run: Run<Call>) {
    run.Then? ==>
      forall lo :: lo >= run.last.clock - lim.window as real ==>
        |Above(Entries(After(lim, run)), lo)| == AdmittedIn(lim, run, lo, run.last.clock)
  }

  lemma DroppedKeyCountsNothing(lim: Limits, before: Run<Call>, c: Call, lo: real)
    requires MonotoneClock(Then(before, c)) && OnClock(Then(before, c))
    requires Dropped(After(lim, before), c) && (c.evicted ==> AdmittedInWindow(lim, before, c) == 0)
    requires lo >= c.now - lim.window as real
    ensures AdmittedIn(lim, before, lo, c.now) == 0
  {
    if c.evicted {
      NarrowerHoldsFewer(lim, before, c.now - lim.window as real, lo, c.now);
    } else {
      DeadlineAfterRun(lim, before);
      AdmissionsArePast(lim, before, lo, c.now);
      EmptyIntervalHoldsNothing(lim, before, lo, before.last.clock);
    }
  }

  lemma LiveKeyCountsHistory(lim: Limits, before: Run<Call>, c: Call, lo: real)
    requires MonotoneClock(Then(before, c)) && OnClock(Then(before, c)) && CountsHistory(lim, before)
    requires lo >= c.now - lim.window as real
    ensures |Above(Entries(After(lim, before)), lo)| == AdmittedIn(lim, before, lo, c.now)
  {
    if before.Then? {
      AdmissionsArePast(lim, before, lo, c.now);
    } else {
      assert Above(Entries(After(lim, before)), lo) == map[];
    }
  }

  lemma OccupancyCounts(lim: Limits, before: Run<Call>, c: Call, lo: real)
    requires MonotoneClock(Then(before, c)) && OnClock(Then(before, c)) && CountsHistory(lim, before)
    requires c.evicted ==> AdmittedInWindow(lim, before, c) == 0
    requires lo >= c.now - lim.window as real
    ensures |Above(Occupancy(lim, After(lim, before), c), lo)| == AdmittedIn(lim, before, lo, c.now)
  {
    AboveOccupancy(lim, After(lim, before), c, lo);
    if Dropped(After(lim, before), c) {
      DroppedKeyCountsNothing(lim, before, c, lo);
    } else {
      LiveKeyCountsHistory(lim, before, c, lo);
    }
  }

  lemma AboveAfterZAdd(kept: map<int, real>, member: int, score: real, lo: real)
    requires member !in kept
    ensures |Above(kept[member := score], lo)| == |Above(kept, lo)| + if lo < score then 1 else 0
  {
    if lo < score {
      assert Above(kept[member := score], lo) == Above(kept, lo)[member := score];
    } else {
      assert Above(kept[member := score], lo) == Above(kept, lo);
    }
  }

  /** With a window that is not empty, a fresh call adds its own timestamp to what is above lo. */
  lemma FreshCallAddsOne(lim: Limits, k: Key, c: Call, lo: real)
    requires lim.window > 0 && Fresh(lim, k, c)
    ensures |Above(Entries(Next(lim, k, c)), lo)|
            == |Above(Occupancy(lim, k, c), lo)| + if Allows(lim, k, c) && lo < c.now then 1 else 0
  {
    var kept := Occupancy(lim, k, c);
    if Allows(lim, k, c) {
      assert c.time in kept[c.time := c.now];
      AboveAfterZAdd(kept, c.time, c.now, lo);
    } else {
      assert Entries(Next(lim, k, c)) == kept;
    }
  }

  lemma CountsHistoryStep(lim: Limits, before: Run<Call>, c: Call)
    requires MonotoneClock(Then(before, c)) && OnClock(Then(before, c))
    requires CountsHistory(lim, before) && LosesNothing(lim, before, c)
    ensures CountsHistory(lim, Then(before, c))
  {
    var run, k := Then(before, c), After(lim, before);
    forall lo | lo >= c.now - lim.window as real
      ensures |Above(Entries(After(lim, run)), lo)| == AdmittedIn(lim, run, lo, c.now)
    {
      if lim.window <= 0 {
        EmptyIntervalHoldsNothing(lim, run, lo, c.now);
        assert Above(Entries(After(lim, run)), lo) == map[];
      } else {
        OccupancyCounts(lim, before, c, lo);
        FreshCallAddsOne(lim, k, c, lo);
      }
    }
  }

  lemma {:induction false} HistoryIsCounted(lim: Limits, run: Run<Call>)
    requires MonotoneClock(run) && OnClock(run) && NothingLost(lim, run)
    ensures CountsHistory(lim, run)
  {
    if run.Then? {
      HistoryIsCounted(lim, run.before);
      CountsHistoryStep(lim, run.before, run.last);
    }
  }

  lemma CountMatchesHistory(lim: Limits, before: Run<Call>, c: Call)
    requires MonotoneClock(Then(before, c)) && OnClock(Then(before, c)) && CountsHistory(lim, before)
    requires c.evicted ==> AdmittedInWindow(lim, before, c) == 0
    ensures |Occupancy(lim, After(lim, before), c)| == AdmittedInWindow(lim, before, c)
  {
    OccupancyCounts(lim, before, c, c.now - lim.window as real);
    WindowIsWhole(lim, After(lim, before), c);
  }

  /** The exact window: if nothing was lost before, a call that finds its key not evicted is admitted
      exactly when fewer than maxTokens earlier admissions lie in (now - window, now]. */
  lemma {:induction false} SlidesExactly(lim: Limits, before: Run<Call>, c: Call)
    requires MonotoneClock(Then(before, c)) && OnClock(Then(before, c))
    requires NothingLost(lim, before) && !c.evicted
    ensures Allows(lim, After(lim, before), c) <==> AdmittedInWindow(lim, before, c) < lim.maxTokens
    ensures |Occupancy(lim, After(lim, before), c)| == AdmittedInWindow(lim, before, c)
  {
    HistoryIsCounted(lim, before);
    CountMatchesHistory(lim, before, c);
  }

  /** After its last call, the set holds as many entries as there are admissions in that call's window. */
  ghost predicate RecordsLastCall(lim: Limits, run: Run<Call>)
    requires run.Then?
  {
    |Entries(After(lim, run))| == AdmittedIn(lim, run, run.last.now - lim.window as real, run.last.now)
  }

  ghost predicate RecordsEveryCall(lim: Limits, run: Run<Call>) {
    run.Then? ==> RecordsEveryCall(lim, run.before) && RecordsLastCall(lim, run)
  }

  lemma FreshIffCounted(lim: Limits, k: Key, c: Call)
    requires lim.window > 0
    ensures Fresh(lim, k, c)
            <==> |Entries(Next(lim, k, c))| == |Occupancy(lim, k, c)| + if Allows(lim, k, c) then 1 else 0
  {
    var kept := Occupancy(lim, k, c);
    OverwritingAddsNoEntry(kept, c.time, c.now);
    assert c.time in kept[c.time := c.now];
  }

  lemma {:induction false} LastCallRecordedIffNothingLost(lim: Limits, before: Run<Call>, c: Call)
    requires MonotoneClock(Then(before, c)) && OnClock(Then(before, c)) && NothingLost(lim, before)
    ensures RecordsLastCall(lim, Then(before, c)) <==> LosesNothing(lim, before, c)
  {
    var k := After(lim, before);
    HistoryIsCounted(lim, before);
    if lim.window <= 0 {
      EmptyIntervalHoldsNothing(lim, Then(before, c), c.now - lim.window as real, c.now);
      CountMatchesHistory(lim, before, c);
    } else {
      FreshIffCounted(lim, k, c);
      if c.evicted {
        assert Occupancy(lim, k, c) == map[];
      } else {
        CountMatchesHistory(lim, before, c);
      }
    }
  }

  /** The set stays an exact record of its window throughout a run if and only if no admitted call's
      TIME reading was already in it and no eviction took an admission that still counted. */
  lemma {:induction false} ExactRecordIffNothingLost(lim: Limits, run: Run<Call>)
    requires MonotoneClock(run) && OnClock(run)
    ensures RecordsEveryCall(lim, run) <==> NothingLost(lim, run)
  {
    if run.Then? {
      ExactRecordIffNothingLost(lim, run.before);
      if NothingLost(lim, run.before) {
        LastCallRecordedIffNothingLost(lim, run.before, run.last);
      }
    }
  }

  function Repeat(c: Call, n: nat): Run<Call> {
    if n == 0 then Start else Then(Repeat(c, n - 1), c)
  }

  lemma SharedReadingOverwrites(lim: Limits, k: Key, c: Call)
    requires lim.maxTokens >= 2 && lim.window > 0 && !c.evicted
    requires k == Missing || k == Stored(map[c.time := c.now], c.clock + lim.window as real)
    ensures Allows(lim, k, c) && Next(lim, k, c) == Stored(map[c.time := c.now], c.clock + lim.window as real)
  {
    var kept := Occupancy(lim, k, c);
    assert kept == if k == Missing then map[] else map[c.time := c.now];
    assert |kept| <= 1;
    assert kept[c.time := c.now] == map[c.time := c.now];
  }

  /** What goes wrong without fresh members: calls that share one TIME reading keep overwriting
      one entry, so with a limit of two or more all of them are admitted, however many there are. */
  lemma {:induction false} SharedTimeReadingIsNeverDenied(lim: Limits, c: Call, n: nat)
    requires lim.maxTokens >= 2 && lim.window > 0 && !c.evicted
    ensures var run := Repeat(c, n);
            && AdmittedIn(lim, run, c.now - lim.window as real, c.now) == n
            && After(lim, run) == if n == 0 then Missing else Stored(map[c.time := c.now], c.clock + lim.window as real)
  {
    if n > 0 {
      SharedTimeReadingIsNeverDenied(lim, c, n - 1);
      SharedReadingOverwrites(lim, After(lim, Repeat(c, n - 1)), c);
    }
  }
}
