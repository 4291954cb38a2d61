/** The countdown limiter that the engine runs (client.go): one counter per client address,
    filled on first touch, whose time to live is refreshed by every call, denials included. */
module CountdownBucket {
  import opened RedisKeys
  import opened Runs

  // ----- the stored key and one script call -------------------------------------------

  datatype Key = Missing | Stored(remaining: int, deadline: real)

  datatype Config = Config(capacity: int, ttl: int)

  /** `evicted`: Redis has evicted the key since the previous call, to free memory. */
  datatype Call = Call(clock: real, goneAtDeadline: bool, evicted: bool)

  /** The script's integer reply, or the error Redis raises inside it. */
  datatype Reply = Remaining(tokens: int) | ScriptError

  predicate Alive(k: Key, c: Call) {
    k.Stored? && !c.evicted && !Expired(k.deadline, c.clock, c.goneAtDeadline)
  }

  function Refreshed(cfg: Config, remaining: int, c: Call): Key {
    if cfg.ttl <= 0 then Missing else Stored(remaining, c.clock + cfg.ttl as real)
  }

  function Next(cfg: Config, k: Key, c: Call): Key {
    if !Alive(k, c) then Refreshed(cfg, cfg.capacity - 1, c)
    else Refreshed(cfg, if k.remaining <= 0 then k.remaining else k.remaining - 1, c)
  }

  function ReplyTo(cfg: Config, k: Key, c: Call): Reply {
    if !Alive(k, c) then if cfg.ttl <= 0 then ScriptError else Remaining(cfg.capacity - 1)
    else Remaining(if k.remaining <= 0 then -1 else k.remaining - 1)
  }

  /** A token is issued; the engine blocks on a negative reply. */
  predicate Issues(cfg: Config, k: Key, c: Call) {
    var reply := ReplyTo(cfg, k, c);
    reply.Remaining? && reply.tokens >= 0
  }

  /** The key as the script's Redis commands change it in place. */
  class CounterKey {
    var present: bool
    var remaining: int
    var deadline: real

    function State(): Key
      reads this
    {
      if present then Stored(remaining, deadline) else Missing
    }

    /** The key as Redis stores it. */
    constructor (k: Key)
      ensures State() == k
    {
      present := k.Stored?;
      remaining := if k.Stored? then k.remaining else 0;
      deadline := if k.Stored? then k.deadline else 0.0;
    }

    /** Eviction and lazy expiry, before the first command of a script touches the key. */
    method Access(c: Call)
      modifies this`present
      ensures State() == if Alive(old(State()), c) then old(State()) else Missing
    {
      if c.evicted || Expired(deadline, c.clock, c.goneAtDeadline) {
        present := false;
      }
    }

    /** SET with EX: Redis rejects an expiry that is not positive and leaves the key alone. */
    method SetEx(value: int, clock: real, seconds: int) returns (ok: bool)
      modifies this
      ensures ok <==> seconds > 0
      ensures State() == if ok then Stored(value, clock + seconds as real) else old(State())
    {
      ok := seconds > 0;
      if ok {
        present, remaining, deadline := true, value, clock + seconds as real;
      }
    }

    method DecrBy(amount: int)
      requires present
      modifies this`remaining
      ensures State() == Stored(old(remaining) - amount, deadline)
    {
      remaining := remaining - amount;
    }

    /** EXPIRE: a time to live that is not positive deletes the key. */
    method Expire(clock: real, seconds: int)
      requires present
      modifies this`present, this`deadline
      ensures State() == if seconds <= 0 then Missing else Stored(remaining, clock + seconds as real)
    {
      if seconds <= 0 {
        present := false;
      } else {
        deadline := clock + seconds as real;
      }
    }

    /** The whole script. */
    method TokenBucket(cfg: Config, c: Call) returns (reply: Reply)
      modifies this
      ensures State() == Next(cfg, old(State()), c)
      ensures reply == ReplyTo(cfg, old(State()), c)
    {
      Access(c);
      if !present {
        var ok := SetEx(cfg.capacity - 1, c.clock, cfg.ttl);
        return if ok then Remaining(cfg.capacity - 1) else ScriptError;
      }
      var left := remaining;
      if left <= 0 {
        Expire(c.clock, cfg.ttl);
        return Remaining(-1);
      }
      DecrBy(1);
      Expire(c.clock, cfg.ttl);
      return Remaining(left - 1);
    }
  }

  // ----- runs -----------------------------------------------------------------------

  /** The key after a run that finds the key k0. */
  function After(cfg: Config, k0: Key, run: Run<Call>): Key {
    match run
    case Start => k0
    case Then(before, c) => Next(cfg, After(cfg, k0, before), c)
  }

  /** How many tokens are issued at a server clock in [lo, hi]. */
  function IssuedIn(cfg: Config, k0: Key, run: Run<Call>, lo: real, hi: real): nat {
    match run
    case Start => 0
    case Then(before, c) =>
      IssuedIn(cfg, k0, before, lo, hi)
      + if Issues(cfg, After(cfg, k0, before), c) && lo <= c.clock <= hi then 1 else 0
  }

  function Issued(cfg: Config, k0: Key, run: Run<Call>): nat {
    match run
    case Start => 0
    case Then(before, c) => Issued(cfg, k0, before) + if Issues(cfg, After(cfg, k0, before), c) then 1 else 0
  }

  /** How many calls at a server clock in [lo, hi] find that the key was evicted. */
  function EvictionsIn(run: Run<Call>, lo: real, hi: real): nat {
    match run
    case Start => 0
    case Then(before, c) => EvictionsIn(before, lo, hi) + if c.evicted && lo <= c.clock <= hi then 1 else 0
  }

  function ClockOf(c: Call): real { c.clock }

  ghost predicate MonotoneClock(run: Run<Call>) {
    NonDecreasing(run, ClockOf)
  }

  /** A time to live that is not positive makes every call an error, so no token is ever issued
      (and the engine, which fails open on errors, never blocks on the bucket). */
  lemma NonPositiveTtlAlwaysErrs(cfg: Config, before: Run<Call>, c: Call)
    requires cfg.ttl <= 0
    ensures After(cfg, Missing, before) == Missing
    ensures ReplyTo(cfg, After(cfg, Missing, before), c) == ScriptError
  {
  }

  // ----- the arithmetic bound ----------------------------------------------------------

  /** Tokens that a key can still issue without expiring. */
  function Tokens(k: Key): nat {
    if k.Stored? && k.remaining > 0 then k.remaining else 0
  }

  /** capacity x (floor(length / ttl) + 1). */
  function Budget(cfg: Config, length: real): int
    requires cfg.ttl > 0
  {
    Cap(cfg.capacity) * ((length / cfg.ttl as real).Floor + 1)
  }

  lemma FloorMonotone(x: real, y: real)
    requires x <= y
    ensures x.Floor <= y.Floor
  {
  }

  lemma FloorOfNext(x: real, y: real)
    requires x + 1.0 <= y
    ensures x.Floor + 1 <= y.Floor
  {
  }

  lemma DivideMonotone(a: real, b: real, d: real)
    requires a <= b && d > 0.0
    ensures a / d <= b / d
  {
    assert b / d - a / d == (b - a) / d >= 0.0;
  }

  lemma NoZeroDivisor(x: real, d: real)
    requires d > 0.0
    ensures x * d == 0.0 ==> x == 0.0
  {
    if x > 0.0 {
      assert x * d > 0.0;
    } else if x < 0.0 {
      assert (-x) * d > 0.0;
    }
  }

  lemma DivideShift(a: real, d: real)
    requires d > 0.0
    ensures (a + d) / d == a / d + 1.0
  {
    var q, r := a / d, (a + d) / d;
    assert q * d == a && r * d == a + d;
    assert (r - q - 1.0) * d == 0.0;
    NoZeroDivisor(r - q - 1.0, d);
  }

  lemma ScaleMonotone(n: nat, x: int, y: int)
    requires x <= y
    ensures n * x <= n * y
  {
  }

  lemma BudgetGrows(cfg: Config, shorter: real, longer: real)
    requires cfg.ttl > 0 && shorter <= longer
    ensures Budget(cfg, shorter) <= Budget(cfg, longer)
    ensures 0.0 <= longer ==> Budget(cfg, longer) >= Cap(cfg.capacity)
  {
    var d := cfg.ttl as real;
    DivideMonotone(shorter, longer, d);
    FloorMonotone(shorter / d, longer / d);
    ScaleMonotone(Cap(cfg.capacity), (shorter / d).Floor + 1, (longer / d).Floor + 1);
    if 0.0 <= longer {
      DivideMonotone(0.0, longer, d);
      ScaleMonotone(Cap(cfg.capacity), 1, (longer / d).Floor + 1);
    }
  }

  lemma BudgetGrowsByCap(cfg: Config, shorter: real, longer: real)
    requires cfg.ttl > 0 && shorter + cfg.ttl as real <= longer
    ensures Budget(cfg, shorter) + Cap(cfg.capacity) <= Budget(cfg, longer)
  {
    var d := cfg.ttl as real;
    DivideMonotone(shorter + d, longer, d);
    DivideShift(shorter, d);
    FloorOfNext(shorter / d, longer / d);
    ScaleMonotone(Cap(cfg.capacity), (shorter / d).Floor + 2, (longer / d).Floor + 1);
    assert Cap(cfg.capacity) * ((shorter / d).Floor + 2) == Budget(cfg, shorter) + Cap(cfg.capacity);
  }

  /** Every call, denied or not, leaves the key with a full time to live and at most capacity tokens. */
  lemma {:induction false} KeyAfterCall(cfg: Config, run: Run<Call>)
    requires cfg.ttl > 0 && run.Then?
    ensures var k := After(cfg, Missing, run);
            k.Stored? && k.deadline == run.last.clock + cfg.ttl as real && Tokens(k) <= Cap(cfg.capacity)
  {
    if run.before.Then? {
      KeyAfterCall(cfg, run.before);
    }
  }

  /** A refill per eviction. */
  function EvictionBudget(cfg: Config, run: Run<Call>, lo: real, hi: real): nat {
    Cap(cfg.capacity) * EvictionsIn(run, lo, hi)
  }

  /** Within [lo, hi], tokens issued plus tokens still held never exceed the budget for the time
      elapsed since lo and for the evictions. */
  ghost predicate WithinBudget(cfg: Config, run: Run<Call>, lo: real, hi: real)
    requires cfg.ttl > 0
  {
    var issued, extra := IssuedIn(cfg, Missing, run, lo, hi), EvictionBudget(cfg, run, lo, hi);
    && (run == Start || run.last.clock < lo ==> issued == 0)
    && (run.Then? && lo <= run.last.clock <= hi ==>
          issued + Tokens(After(cfg, Missing, run)) <= Budget(cfg, run.last.clock - lo) + extra)
    && issued <= Budget(cfg, hi - lo) + extra
  }

  lemma EvictionBudgetStep(cfg: Config, before: Run<Call>, c: Call, lo: real, hi: real)
    ensures EvictionBudget(cfg, Then(before, c), lo, hi)
            == EvictionBudget(cfg, before, lo, hi) + if c.evicted && lo <= c.clock <= hi then Cap(cfg.capacity) else 0
  {
    NextMultiple(Cap(cfg.capacity), EvictionsIn(before, lo, hi));
  }

  lemma {:induction false} WithinBudgetStep(cfg: Config, before: Run<Call>, c: Call, lo: real, hi: real)
    requires cfg.ttl > 0 && lo <= hi && MonotoneClock(Then(before, c))
    requires WithinBudget(cfg, before, lo, hi)
    ensures WithinBudget(cfg, Then(before, c), lo, hi)
  {
    EvictionBudgetStep(cfg, before, c, lo, hi);
    if lo <= c.clock <= hi {
      BudgetGrows(cfg, c.clock - lo, hi - lo);
      BudgetGrows(cfg, 0.0, c.clock - lo);
      if before.Then? {
        KeyAfterCall(cfg, before);
        var last := before.last.clock;
        if lo <= last {
          BudgetGrows(cfg, last - lo, c.clock - lo);
          if !c.evicted && !Alive(After(cfg, Missing, before), c) {
            BudgetGrowsByCap(cfg, last - lo, c.clock - lo);
          }
        }
      }
    }
  }

  lemma {:induction false} BudgetIsKept(cfg: Config, run: Run<Call>, lo: real, hi: real)
    requires cfg.ttl > 0 && lo <= hi && MonotoneClock(run)
    ensures WithinBudget(cfg, run, lo, hi)
  {
    if run.Then? {
      BudgetIsKept(cfg, run.before, lo, hi);
      WithinBudgetStep(cfg, run.before, run.last, lo, hi);
    } else {
      BudgetGrows(cfg, 0.0, hi - lo);
    }
  }

  /** Any interval [lo, hi] holds at most capacity x (floor((hi - lo) / ttl) + 1) issued tokens,
      because a refill needs an idle gap of a full ttl; and one more capacity for each eviction. */
  lemma {:induction false} IntervalBound(cfg: Config, run: Run<Call>, lo: real, hi: real)
    requires cfg.ttl > 0 && lo <= hi && MonotoneClock(run)
    ensures IssuedIn(cfg, Missing, run, lo, hi)
            <= Cap(cfg.capacity) * (((hi - lo) / cfg.ttl as real).Floor + 1)
               + Cap(cfg.capacity) * EvictionsIn(run, lo, hi)
  {
    BudgetIsKept(cfg, run, lo, hi);
  }

  // ----- sessions ---------------------------------------------------------------------

  /** Calls since the key was last created. */
  function SessionLength(cfg: Config, run: Run<Call>): nat {
    match run
    case Start => 0
    case Then(before, c) => if Alive(After(cfg, Missing, before), c) then SessionLength(cfg, before) + 1 else 1
  }

  /** The clock at which the key was last created. */
  function SessionStart(cfg: Config, run: Run<Call>): real
    requires run.Then?
  {
    if run.before.Then? && Alive(After(cfg, Missing, run.before), run.last) then SessionStart(cfg, run.before)
    else run.last.clock
  }

  function SessionIssued(cfg: Config, run: Run<Call>): nat {
    match run
    case Start => 0
    case Then(before, c) =>
      var k := After(cfg, Missing, before);
      (if Alive(k, c) then SessionIssued(cfg, before) else 0) + if Issues(cfg, k, c) then 1 else 0
  }

  /** Between two expiries, the n-th call returns capacity - n until the tokens run out and -1 for
      ever after (a capacity that is not positive is returned less one, once); as many tokens are
      issued as there are calls, up to the capacity, and the stored value is what is left. */
  lemma {:induction false} SessionConserves(cfg: Config, run: Run<Call>)
    requires cfg.ttl > 0 && run.Then?
    ensures var n, k := SessionLength(cfg, run), After(cfg, Missing, run);
            && ReplyTo(cfg, After(cfg, Missing, run.before), run.last)
               == Remaining(if n == 1 || n <= cfg.capacity then cfg.capacity - n else -1)
            && SessionIssued(cfg, run) == (if n <= Cap(cfg.capacity) then n else Cap(cfg.capacity))
            && k.Stored?
            && k.remaining == if cfg.capacity >= 1 then cfg.capacity - SessionIssued(cfg, run) else cfg.capacity - 1
  {
    if run.before.Then? {
      SessionConserves(cfg, run.before);
    }
  }

  /** No call of the run, the first counted from `last`, comes late enough for the key to have expired
      or finds it evicted. */
  ghost predicate NeverDropped(cfg: Config, last: real, run: Run<Call>) {
    match run
    case Start => true
    case Then(before, c) =>
      && NeverDropped(cfg, last, before)
      && !c.evicted
      && !Expired((if before.Then? then before.last.clock else last) + cfg.ttl as real, c.clock, c.goneAtDeadline)
  }

  /** A client that has run its bucket dry at `last` is never admitted again, for as long as it
      keeps calling without pausing for a whole ttl and its key is not evicted; one full pause, or
      one eviction, is enough to be readmitted. */
  lemma {:induction false} LockedOutIffNeverDropped(cfg: Config, k0: Key, last: real, run: Run<Call>)
    requires cfg.ttl > 0 && cfg.capacity >= 1
    requires k0.Stored? && k0.remaining <= 0 && k0.deadline == last + cfg.ttl as real
    ensures Issued(cfg, k0, run) == 0 <==> NeverDropped(cfg, last, run)
    ensures var k := After(cfg, k0, run);
            && k.Stored? && (Issued(cfg, k0, run) == 0 ==> k.remaining <= 0)
            && k.deadline == (if run.Then? then run.last.clock else last) + cfg.ttl as real
  {
    if run.Then? {
      LockedOutIffNeverDropped(cfg, k0, last, run.before);
    }
  }

  // ----- the bound is tight --------------------------------------------------------------

  /** n more calls at the same clock. */
  function Burst(before: Run<Call>, clock: real, n: nat): Run<Call> {
    if n == 0 then before else Then(Burst(before, clock, n - 1), Call(clock, true, false))
  }

  function BurstClock(cfg: Config, lo: real, k: nat): real {
    if k == 0 then lo else BurstClock(cfg, lo, k - 1) + cfg.ttl as real
  }

  /** A burst of `capacity` calls at lo, lo + ttl, ..., lo + k * ttl. */
  function Bursts(cfg: Config, lo: real, k: nat): Run<Call> {
    Burst(if k == 0 then Start else Bursts(cfg, lo, k - 1), BurstClock(cfg, lo, k), Cap(cfg.capacity))
  }

  lemma {:induction false} BurstIssuesAll(cfg: Config, before: Run<Call>, clock: real, n: nat, lo: real, hi: real)
    requires cfg.ttl > 0 && n <= cfg.capacity && lo <= clock <= hi
    requires MonotoneClock(before)
    requires before.Then? ==> before.last.clock + cfg.ttl as real <= clock
    ensures var run := Burst(before, clock, n);
            && IssuedIn(cfg, Missing, run, lo, hi) == IssuedIn(cfg, Missing, before, lo, hi) + n
            && MonotoneClock(run)
            && (n > 0 ==> run.Then? && run.last.clock == clock
                          && After(cfg, Missing, run) == Stored(cfg.capacity - n, clock + cfg.ttl as real))
  {
    if n > 0 {
      BurstIssuesAll(cfg, before, clock, n - 1, lo, hi);
      if n == 1 && before.Then? {
        KeyAfterCall(cfg, before);
      }
    }
  }

  lemma {:induction false} BurstClockClosedForm(cfg: Config, lo: real, k: nat)
    ensures BurstClock(cfg, lo, k) == lo + (k * cfg.ttl) as real
  {
    if k > 0 {
      BurstClockClosedForm(cfg, lo, k - 1);
      assert k * cfg.ttl == (k - 1) * cfg.ttl + cfg.ttl;
    }
  }

  lemma {:induction false} BurstsIssueAll(cfg: Config, lo: real, k: nat, hi: real)
    requires cfg.ttl > 0 && cfg.capacity >= 1 && BurstClock(cfg, lo, k) <= hi
    ensures lo <= BurstClock(cfg, lo, k)
    ensures var run := Bursts(cfg, lo, k);
            && MonotoneClock(run) && run.Then? && run.last.clock == BurstClock(cfg, lo, k)
            && IssuedIn(cfg, Missing, run, lo, hi) == Cap(cfg.capacity) * (k + 1)
  {
    if k > 0 {
      BurstsIssueAll(cfg, lo, k - 1, hi);
      BurstIssuesAll(cfg, Bursts(cfg, lo, k - 1), BurstClock(cfg, lo, k), Cap(cfg.capacity), lo, hi);
      NextMultiple(Cap(cfg.capacity), k);
    } else {
      BurstIssuesAll(cfg, Start, lo, Cap(cfg.capacity), lo, hi);
    }
  }

  /** For every k some run does issue capacity x (k + 1) tokens in an interval of length k x ttl. */
  lemma IntervalBoundIsTight(cfg: Config, lo: real, k: nat)
    requires cfg.ttl > 0 && cfg.capacity >= 1
    ensures var run := Bursts(cfg, lo, k);
            && MonotoneClock(run)
            && IssuedIn(cfg, Missing, run, lo, lo + (k * cfg.ttl) as real) == Cap(cfg.capacity) * (k + 1)
  {
    BurstClockClosedForm(cfg, lo, k);
    BurstsIssueAll(cfg, lo, k, lo + (k * cfg.ttl) as real);
  }
}
