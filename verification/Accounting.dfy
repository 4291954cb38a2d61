/** End-to-end accounting: the verdict protocol composed with the decision logic and the countdown
    buckets.  How many requests of one address can reach the upstream? */
module Accounting {
  import opened RedisKeys
  import opened Runs
  import opened VerdictProtocol
  import E = Engine
  import CD = CountdownBucket

  // ----- what the log says -----------------------------------------------------------------

  /** A stretch of the Redis server's clock. */
  datatype Span = Always | Between(lo: real, hi: real)
  {
    predicate Covers(clock: real) { Always? || lo <= clock <= hi }
  }

  predicate IssuesToken(work: Work) {
    work.Served? && work.result.Tokens? && work.result.remaining >= 0
  }

  /** Tokens that Decrement handed out for this address. */
  function TokensIssued(log: Run<Entry>, ip: string, span: Span): nat {
    match log
    case Start => 0
    case Then(before, e) =>
      TokensIssued(before, ip, span) + if e.ip == ip && span.Covers(e.at) && IssuesToken(e.work) then 1 else 0
  }

  function RedisErrors(log: Run<Entry>, ip: string, span: Span): nat {
    match log
    case Start => 0
    case Then(before, e) =>
      RedisErrors(before, ip, span)
      + if e.ip == ip && span.Covers(e.at) && e.work.Served? && e.work.result == E.RedisError then 1 else 0
  }

  function BadLines(log: Run<Entry>, ip: string, span: Span): nat {
    match log
    case Start => 0
    case Then(before, e) =>
      BadLines(before, ip, span) + if e.ip == ip && span.Covers(e.at) && e.work == BadLine then 1 else 0
  }

  /** The calls that reached this address's bucket. */
  function BucketCalls(log: Run<Entry>, ip: string): Run<CD.Call> {
    match log
    case Start => Start
    case Then(before, e) =>
      if e.ip == ip && e.work.Served? && e.work.input.fault != E.Unreachable
      then Then(BucketCalls(before, ip), e.work.input.call) else BucketCalls(before, ip)
  }

  function EngineOf(cfg: E.Config, log: Run<Entry>): E.State {
    match log
    case Start => INITIAL.engine
    case Then(before, e) => EngineAfter(cfg, EngineOf(cfg, before), e)
  }

  /** Every entry is what the engine computes at that point of the log. */
  predicate Faithful(cfg: E.Config, log: Run<Entry>) {
    match log
    case Start => true
    case Then(before, e) =>
      && Faithful(cfg, before)
      && match e.work
         case BadLine => e.decision == ALLOW
         case Served(input, result) =>
           && input.ip == e.ip && input.call.clock == e.at
           && result == E.Result(cfg, EngineOf(cfg, before), input)
           && e.decision == E.Verdict(cfg, result, input)
  }

  /** Only a handler's evaluation writes the log or changes the engine. */
  lemma StepWritesLog(cfg: E.Config, s: State, step: Step)
    requires Enabled(s, step)
    ensures var s' := Apply(cfg, s, step);
            if step.Handle?
            then var entry := EntryFor(cfg, s.engine, s.conns[step.c].handler.line, step.env);
                 s'.log == Then(s.log, entry) && s'.engine == EngineAfter(cfg, s.engine, entry)
            else s'.log == s.log && s'.engine == s.engine
  {
  }

  lemma EntryIsFaithful(cfg: E.Config, log: Run<Entry>, line: Line, env: Surroundings)
    requires Faithful(cfg, log)
    ensures Faithful(cfg, Then(log, EntryFor(cfg, EngineOf(cfg, log), line, env)))
  {
  }

  lemma {:induction false} ReachableLogIsFaithful(cfg: E.Config, run: Run<Step>)
    ensures var s := After(cfg, run); s.engine == EngineOf(cfg, s.log) && Faithful(cfg, s.log)
  {
    if run.Then? {
      ReachableLogIsFaithful(cfg, run.before);
      var s := After(cfg, run.before);
      if Enabled(s, run.last) {
        StepWritesLog(cfg, s, run.last);
        if run.last.Handle? {
          EntryIsFaithful(cfg, s.log, s.conns[run.last.c].handler.line, run.last.env);
        }
      }
    }
  }

  // ----- requests that reach the upstream --------------------------------------------------------

  predicate AnsweredIn(log: Run<Entry>, r: RequestId, span: Span) {
    match log
    case Start => false
    case Then(before, e) => (e.request == r && span.Covers(e.at)) || AnsweredIn(before, r, span)
  }

  predicate Passes(s: State, r: RequestId, ip: string) {
    && r in s.workers && s.workers[r].ip == ip
    && s.workers[r].phase.Done? && s.workers[r].phase.outcome.Passed?
  }

  /** The requests let through on a verdict for a line that the engine answered in this span. */
  function PassedOnVerdict(s: State, ip: string, span: Span): set<RequestId> {
    set r | r in s.workers && Passes(s, r, ip) && AnsweredIn(s.log, r, span)
  }

  function FailedOpenRequests(s: State, ip: string): set<RequestId> {
    set r | r in s.workers && s.workers[r].ip == ip
            && s.workers[r].phase.Done? && s.workers[r].phase.outcome.FailedOpen?
  }

  /** The requests let through, on a verdict or without one. */
  function PassedUpstream(s: State, ip: string): set<RequestId> {
    (set r | r in s.workers && Passes(s, r, ip)) + FailedOpenRequests(s, ip)
  }

  /** The requests whose lines were answered with an allow. */
  function AllowedRequests(log: Run<Entry>, ip: string, span: Span): set<RequestId> {
    match log
    case Start => {}
    case Then(before, e) =>
      AllowedRequests(before, ip, span)
      + if e.ip == ip && span.Covers(e.at) && e.decision.action == E.Allow then {e.request} else {}
  }

  lemma {:induction false} AnsweredIsLogged(log: Run<Entry>, r: RequestId, span: Span)
    requires AnsweredIn(log, r, span)
    ensures r in Logged(log)
  {
    if AnsweredIn(log.before, r, span) {
      AnsweredIsLogged(log.before, r, span);
    }
  }

  lemma {:induction false} RecordedIsAnswered(log: Run<Entry>, reply: Reply, ip: string)
    requires Recorded(log, reply, ip)
    ensures AnsweredIn(log, reply.request, Always)
  {
    if Recorded(log.before, reply, ip) {
      RecordedIsAnswered(log.before, reply, ip);
    }
  }

  /** No request is answered twice, so the answer in the span is the recorded one. */
  lemma {:induction false} RecordedAllowIsListed(log: Run<Entry>, reply: Reply, ip: string, span: Span)
    requires AtMostOnce(log) && Recorded(log, reply, ip) && reply.decision.action == E.Allow
    requires AnsweredIn(log, reply.request, span)
    ensures reply.request in AllowedRequests(log, ip, span)
  {
    var before := log.before;
    if AnsweredIn(before, reply.request, span) {
      AnsweredIsLogged(before, reply.request, span);
      RecordedAllowIsListed(before, reply, ip, span);
    } else if Recorded(before, reply, ip) {
      RecordedIsAnswered(before, reply, ip);
      AnsweredIsLogged(before, reply.request, Always);
    }
  }

  /** An allow is always paid for: by a token, a Redis error or a bad line. */
  lemma {:induction false} AllowsArePaidFor(cfg: E.Config, log: Run<Entry>, ip: string, span: Span)
    requires Faithful(cfg, log)
    ensures |AllowedRequests(log, ip, span)|
            <= TokensIssued(log, ip, span) + RedisErrors(log, ip, span) + BadLines(log, ip, span)
  {
    if log.Then? {
      AllowsArePaidFor(cfg, log.before, ip, span);
    }
  }

  lemma SubsetIsSmaller(a: set<RequestId>, b: set<RequestId>)
    requires a <= b
    ensures |a| <= |b|
  {
    assert b == a + (b - a);
  }

  lemma {:induction false} PassedRequestsWereAllowed(cfg: E.Config, run: Run<Step>, ip: string, span: Span)
    ensures var s := After(cfg, run); PassedOnVerdict(s, ip, span) <= AllowedRequests(s.log, ip, span)
  {
    var s := After(cfg, run);
    ReachableInv(cfg, run);
    forall r | r in PassedOnVerdict(s, ip, span) ensures r in AllowedRequests(s.log, ip, span) {
      VerdictIsOwn(cfg, run, r);
      RecordedAllowIsListed(s.log, s.workers[r].phase.outcome.on, ip, span);
    }
  }

  /** Over any run, for each address and any span of the server clock, the requests passed on a
      verdict given in that span are at most the tokens issued plus Redis errors plus bad lines of
      that span. */
  lemma {:induction false} EveryVerdictIsAccountedFor(cfg: E.Config, run: Run<Step>, ip: string, span: Span)
    ensures var s := After(cfg, run);
            |PassedOnVerdict(s, ip, span)|
            <= TokensIssued(s.log, ip, span) + RedisErrors(s.log, ip, span) + BadLines(s.log, ip, span)
  {
    var s := After(cfg, run);
    ReachableLogIsFaithful(cfg, run);
    AllowsArePaidFor(cfg, s.log, ip, span);
    PassedRequestsWereAllowed(cfg, run, ip, span);
    SubsetIsSmaller(PassedOnVerdict(s, ip, span), AllowedRequests(s.log, ip, span));
  }

  lemma {:induction false} EveryPassHadAnAnswer(cfg: E.Config, run: Run<Step>, ip: string)
    ensures var s := After(cfg, run);
            PassedUpstream(s, ip) == PassedOnVerdict(s, ip, Always) + FailedOpenRequests(s, ip)
  {
    var s := After(cfg, run);
    forall r | r in s.workers && Passes(s, r, ip) ensures AnsweredIn(s.log, r, Always) {
      VerdictIsOwn(cfg, run, r);
      RecordedIsAnswered(s.log, s.workers[r].phase.outcome.on, ip);
    }
  }

  /** Over any run and for each address, the requests passed upstream are at most the tokens issued
      plus Redis errors plus bad lines plus the proxy's own failures. */
  lemma {:induction false} EveryPassIsAccountedFor(cfg: E.Config, run: Run<Step>, ip: string)
    ensures var s := After(cfg, run);
            |PassedUpstream(s, ip)|
            <= TokensIssued(s.log, ip, Always) + RedisErrors(s.log, ip, Always) + BadLines(s.log, ip, Always)
               + |FailedOpenRequests(s, ip)|
  {
    EveryVerdictIsAccountedFor(cfg, run, ip, Always);
    EveryPassHadAnAnswer(cfg, run, ip);
  }

  // ----- composition with the bucket's bound -------------------------------------------------------

  /** The engine keeps one bucket per address, driven by that address's calls alone. */
  lemma {:induction false} BucketFollowsItsCalls(cfg: E.Config, log: Run<Entry>, ip: string)
    requires Faithful(cfg, log)
    ensures E.BucketOf(EngineOf(cfg, log), ip) == CD.After(cfg.bucket, CD.Missing, BucketCalls(log, ip))
  {
    if log.Then? {
      BucketFollowsItsCalls(cfg, log.before, ip);
    }
  }

  /** Tokens that the script issued in a reply that was lost on the way. */
  function TokensLost(cfg: E.Config, log: Run<Entry>, ip: string, span: Span): nat {
    match log
    case Start => 0
    case Then(before, e) =>
      TokensLost(cfg, before, ip, span)
      + if e.ip == ip && span.Covers(e.at) && e.work.Served? && e.work.input.fault == E.ReplyLost
           && CD.Issues(cfg.bucket, CD.After(cfg.bucket, CD.Missing, BucketCalls(before, ip)), e.work.input.call)
        then 1 else 0
  }

  predicate NoReplyLost(log: Run<Entry>) {
    match log
    case Start => true
    case Then(before, e) => NoReplyLost(before) && (e.work.Served? ==> e.work.input.fault != E.ReplyLost)
  }

  /** Every token that the bucket's script issues reaches the engine, unless its reply is lost. */
  lemma {:induction false} TokensComeFromTheBucket(cfg: E.Config, log: Run<Entry>, ip: string, lo: real, hi: real)
    requires Faithful(cfg, log)
    ensures TokensIssued(log, ip, Between(lo, hi)) + TokensLost(cfg, log, ip, Between(lo, hi))
            == CD.IssuedIn(cfg.bucket, CD.Missing, BucketCalls(log, ip), lo, hi)
    ensures NoReplyLost(log) ==> TokensLost(cfg, log, ip, Between(lo, hi)) == 0
  {
    if log.Then? {
      TokensComeFromTheBucket(cfg, log.before, ip, lo, hi);
      BucketFollowsItsCalls(cfg, log.before, ip);
    }
  }

  // ----- what every line is answered with ----------------------------------------------------------

  /** The last line of the log reached its bucket, and its session has spent the whole capacity. */
  predicate SessionSpent(cfg: E.Config, log: Run<Entry>)
    requires log.Then?
  {
    cfg.bucket.ttl > 0 && CD.SessionLength(cfg.bucket, BucketCalls(log, log.last.ip)) > Cap(cfg.bucket.capacity)
  }

  /** A line the engine cannot parse is let through.  Any other is blocked exactly if its score is above
      the block threshold, or it was served without a fault in a session that has spent the capacity; it
      is throttled exactly if it is not blocked and its score is above the throttle threshold.  The engine
      sees a Redis error exactly on a fault, or on a time to live that Redis rejects. */
  predicate LastDecided(cfg: E.Config, log: Run<Entry>)
    requires log.Then?
  {
    var d := log.last.decision;
    match log.last.work
    case BadLine => d.action == E.Allow && d.retryAfter == 0
    case Served(input, result) =>
      var score := E.ScoreOf(input);
      && (d.action == E.Block <==>
            score > cfg.blockThreshold || (input.fault == E.NoFault && SessionSpent(cfg, log)))
      && (d.action == E.Throttle <==> d.action != E.Block && score > cfg.throttleThreshold)
      && (if d.action == E.Throttle then E.BacksOff(score, d.retryAfter) else d.retryAfter == 0)
      && (result == E.RedisError <==> input.fault != E.NoFault || cfg.bucket.ttl <= 0)
  }

  predicate AllDecided(cfg: E.Config, log: Run<Entry>) {
    log.Then? ==> AllDecided(cfg, log.before) && LastDecided(cfg, log)
  }

  /** The script's reply to the last line, from the session it is in. */
  lemma ReplyFollowsSession(cfg: E.Config, before: Run<Entry>, e: Entry)
    requires Faithful(cfg, Then(before, e)) && e.work.Served? && e.work.input.fault != E.Unreachable
    ensures var reply := CD.ReplyTo(cfg.bucket, E.BucketOf(EngineOf(cfg, before), e.ip), e.work.input.call);
            && (reply.ScriptError? <==> cfg.bucket.ttl <= 0)
            && (reply.Remaining? && reply.tokens < 0 <==> SessionSpent(cfg, Then(before, e)))
  {
    var calls := BucketCalls(before, e.ip);
    BucketFollowsItsCalls(cfg, before, e.ip);
    assert BucketCalls(Then(before, e), e.ip) == Then(calls, e.work.input.call);
    if cfg.bucket.ttl <= 0 {
      CD.NonPositiveTtlAlwaysErrs(cfg.bucket, calls, e.work.input.call);
    } else {
      CD.SessionConserves(cfg.bucket, Then(calls, e.work.input.call));
    }
  }

  lemma LastIsDecided(cfg: E.Config, before: Run<Entry>, e: Entry)
    requires Faithful(cfg, Then(before, e))
    ensures LastDecided(cfg, Then(before, e))
  {
    if e.work.Served? {
      var st, input := EngineOf(cfg, before), e.work.input;
      E.VerdictCases(cfg, st, input);
      E.ResultCases(cfg, st, input);
      if input.fault != E.Unreachable {
        ReplyFollowsSession(cfg, before, e);
      }
    }
  }

  lemma {:induction false} FaithfulIsDecided(cfg: E.Config, log: Run<Entry>)
    requires Faithful(cfg, log)
    ensures AllDecided(cfg, log)
  {
    if log.Then? {
      FaithfulIsDecided(cfg, log.before);
      LastIsDecided(cfg, log.before, log.last);
    }
  }

  /** Over any run, every line the engine has answered was decided by its score, its faults and how many
      calls of its address came before it in the bucket's session, and by nothing else. */
  lemma {:induction false} EveryLineIsDecided(cfg: E.Config, run: Run<Step>)
    ensures AllDecided(cfg, After(cfg, run).log)
  {
    ReachableLogIsFaithful(cfg, run);
    FaithfulIsDecided(cfg, After(cfg, run).log);
  }

  /** Some line of this address was blocked, and its addition to the blocklist worked. */
  predicate BlockAdded(log: Run<Entry>, ip: string) {
    match log
    case Start => false
    case Then(before, e) =>
      || BlockAdded(before, ip)
      || (e.ip == ip && e.decision.action == E.Block && e.work.Served? && e.work.input.addWorks)
  }

  lemma {:induction false} FaithfulBlocklist(cfg: E.Config, log: Run<Entry>, ip: string)
    requires Faithful(cfg, log)
    ensures ip in EngineOf(cfg, log).blocked <==> BlockAdded(log, ip)
  {
    if log.Then? {
      FaithfulBlocklist(cfg, log.before, ip);
    }
  }

  /** Over any run, the engine's blocklist holds exactly the addresses that it has blocked and managed
      to add. */
  lemma {:induction false} BlocklistIsHistory(cfg: E.Config, run: Run<Step>, ip: string)
    ensures var s := After(cfg, run); ip in s.engine.blocked <==> BlockAdded(s.log, ip)
  {
    ReachableLogIsFaithful(cfg, run);
    FaithfulBlocklist(cfg, After(cfg, run).log, ip);
  }

  // ----- tokens per interval -------------------------------------------------------------------------

  /** What the bucket allows an interval: capacity x (floor(length / ttl) + 1), and one more capacity
      for each time Redis evicts the bucket in it. */
  function Allowance(cfg: E.Config, log: Run<Entry>, ip: string, lo: real, hi: real): int
    requires cfg.bucket.ttl > 0
  {
    Cap(cfg.bucket.capacity) * (((hi - lo) / cfg.bucket.ttl as real).Floor + 1)
    + Cap(cfg.bucket.capacity) * CD.EvictionsIn(BucketCalls(log, ip), lo, hi)
  }

  /** Whatever the interleaving, the engine hands one address at most its allowance of tokens in any
      interval of the server clock. */
  lemma {:induction false} TokensPerInterval(cfg: E.Config, run: Run<Step>, ip: string, lo: real, hi: real)
    requires cfg.bucket.ttl > 0 && lo <= hi
    requires CD.MonotoneClock(BucketCalls(After(cfg, run).log, ip))
    ensures var log := After(cfg, run).log;
            TokensIssued(log, ip, Between(lo, hi)) <= Allowance(cfg, log, ip, lo, hi)
  {
    var log := After(cfg, run).log;
    ReachableLogIsFaithful(cfg, run);
    TokensComeFromTheBucket(cfg, log, ip, lo, hi);
    CD.IntervalBound(cfg.bucket, BucketCalls(log, ip), lo, hi);
  }

  /** End to end, for any interval of the server clock: the requests of one address passed on a
      verdict that the engine gave in the interval are at most the bucket's allowance for it, plus
      the Redis errors and bad lines of the interval. */
  lemma {:induction false} EndToEndBound(cfg: E.Config, run: Run<Step>, ip: string, lo: real, hi: real)
    requires cfg.bucket.ttl > 0 && lo <= hi
    requires CD.MonotoneClock(BucketCalls(After(cfg, run).log, ip))
    ensures var s, span := After(cfg, run), Between(lo, hi);
            |PassedOnVerdict(s, ip, span)|
            <= Allowance(cfg, s.log, ip, lo, hi) + RedisErrors(s.log, ip, span) + BadLines(s.log, ip, span)
  {
    EveryVerdictIsAccountedFor(cfg, run, ip, Between(lo, hi));
    TokensPerInterval(cfg, run, ip, lo, hi);
  }

  ghost predicate ClockWithin(calls: Run<CD.Call>, lo: real, hi: real) {
    match calls
    case Start => true
    case Then(before, c) => ClockWithin(before, lo, hi) && lo <= c.clock <= hi
  }

  /** A token was issued by a call that reached the bucket, so at a clock that the calls cover. */
  lemma {:induction false} AllTokensInSpan(cfg: E.Config, log: Run<Entry>, ip: string, lo: real, hi: real)
    requires Faithful(cfg, log) && ClockWithin(BucketCalls(log, ip), lo, hi)
    ensures TokensIssued(log, ip, Always) == TokensIssued(log, ip, Between(lo, hi))
  {
    if log.Then? {
      AllTokensInSpan(cfg, log.before, ip, lo, hi);
    }
  }

  /** The whole run: if the address's bucket calls span the server clock from lo to hi, all its
      requests passed upstream are at most the allowance for that span, plus every Redis error, bad
      line and failure of the proxy. */
  lemma {:induction false} WholeRunBound(cfg: E.Config, run: Run<Step>, ip: string, lo: real, hi: real)
    requires cfg.bucket.ttl > 0 && lo <= hi
    requires var calls := BucketCalls(After(cfg, run).log, ip); CD.MonotoneClock(calls) && ClockWithin(calls, lo, hi)
    ensures var s := After(cfg, run);
            |PassedUpstream(s, ip)| <= Allowance(cfg, s.log, ip, lo, hi) + RedisErrors(s.log, ip, Always)
                                       + BadLines(s.log, ip, Always) + |FailedOpenRequests(s, ip)|
  {
    var log := After(cfg, run).log;
    ReachableLogIsFaithful(cfg, run);
    EveryPassIsAccountedFor(cfg, run, ip);
    AllTokensInSpan(cfg, log, ip, lo, hi);
    TokensPerInterval(cfg, run, ip, lo, hi);
  }
}
