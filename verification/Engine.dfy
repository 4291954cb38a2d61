/** The decision logic of the engine (engine.go) over its per-address countdown buckets. */
module Engine {
  import Scoring
  import CD = CountdownBucket

  datatype Action = Allow | Throttle | Block

  datatype Decision = Decision(action: Action, retryAfter: int)

  datatype Config = Config(bucket: CD.Config, blockThreshold: real, throttleThreshold: real)

  /** What can go wrong between the engine and Redis: the script did not run, or it ran and its
      reply was lost. */
  datatype Fault = NoFault | Unreachable | ReplyLost

  /** The (int64, error) pair that Decrement returns. */
  datatype BucketResult = Tokens(remaining: int) | RedisError

  datatype Score = Scored(value: real) | ScoringFailed

  datatype State = State(buckets: map<string, CD.Key>, blocked: set<string>)

  /** Everything one evaluation meets outside the engine's own state. */
  datatype Input = Input(ip: string, call: CD.Call, fault: Fault, score: Score, addWorks: bool)

  const DEFAULT_BLOCK: real := 0.85
  const DEFAULT_THROTTLE: real := 0.60

  /** Go's conversion from a float to an int. */
  function Truncate(x: real): int {
    if x >= 0.0 then x.Floor else -((-x).Floor)
  }

  function RetryAfter(score: real): int {
    var seconds := Truncate(score * 2.0 * 60.0);
    if seconds < 1 then 1 else seconds
  }

  function Decide(cfg: Config, score: real, exhausted: bool): Decision {
    if score > cfg.blockThreshold || exhausted then Decision(Block, 0)
    else if score > cfg.throttleThreshold then Decision(Throttle, RetryAfter(score))
    else Decision(Allow, 0)
  }

  function ScoreValue(score: Score): real {
    match score
    case Scored(value) => value
    case ScoringFailed => 0.0
  }

  function BucketOf(st: State, ip: string): CD.Key {
    if ip in st.buckets then st.buckets[ip] else CD.Missing
  }

  function ResultOf(cfg: Config, k: CD.Key, call: CD.Call, fault: Fault): BucketResult {
    var reply := CD.ReplyTo(cfg.bucket, k, call);
    if fault != NoFault || reply.ScriptError? then RedisError else Tokens(reply.tokens)
  }

  function Result(cfg: Config, st: State, i: Input): BucketResult {
    ResultOf(cfg, BucketOf(st, i.ip), i.call, i.fault)
  }

  /** The decision for an input, given what Decrement returned: an error counts as not exhausted. */
  function Verdict(cfg: Config, result: BucketResult, i: Input): Decision {
    Decide(cfg, ScoreValue(i.score), result.Tokens? && result.remaining < 0)
  }

  function Evaluated(cfg: Config, st: State, i: Input): State {
    var d := Verdict(cfg, Result(cfg, st, i), i);
    State(if i.fault == Unreachable then st.buckets
          else st.buckets[i.ip := CD.Next(cfg.bucket, BucketOf(st, i.ip), i.call)],
          if d.action == Block && i.addWorks then st.blocked + {i.ip} else st.blocked)
  }

  // ----- what an evaluation means -----------------------------------------------------------

  /** The script ran on the address's bucket, its reply arrived, and the reply is negative. */
  predicate OutOfTokens(cfg: Config, st: State, i: Input) {
    && i.fault == NoFault
    && var reply := CD.ReplyTo(cfg.bucket, BucketOf(st, i.ip), i.call);
       reply.Remaining? && reply.tokens < 0
  }

  /** The score that counts: a scoring call that fails counts as the lowest score. */
  function ScoreOf(i: Input): real {
    if i.score.Scored? then i.score.value else 0.0
  }

  /** Two minutes times the score in whole seconds, rounded down, but at least one. */
  predicate BacksOff(score: real, seconds: int) {
    if 120.0 * score < 1.0 then seconds == 1 else seconds as real <= 120.0 * score < seconds as real + 1.0
  }

  lemma RetryAfterBacksOff(score: real)
    ensures BacksOff(score, RetryAfter(score))
  {
    assert score * 2.0 * 60.0 == 120.0 * score;
  }

  /** A Redis failure or a failed scoring call never blocks: block comes exactly from a score above its
      threshold or from a reply that says the bucket is empty, throttle exactly from a score above its
      own threshold when nothing blocks. */
  lemma VerdictCases(cfg: Config, st: State, i: Input)
    ensures var d := Verdict(cfg, Result(cfg, st, i), i);
            && (d.action == Block <==> ScoreOf(i) > cfg.blockThreshold || OutOfTokens(cfg, st, i))
            && (d.action == Throttle <==> d.action != Block && ScoreOf(i) > cfg.throttleThreshold)
            && (if d.action == Throttle then BacksOff(ScoreOf(i), d.retryAfter) else d.retryAfter == 0)
  {
    RetryAfterBacksOff(ScoreOf(i));
  }

  /** An error of Redis is what the engine sees exactly when something went wrong on the way or the
      script itself failed; otherwise it sees the script's reply, an empty bucket's included. */
  lemma ResultCases(cfg: Config, st: State, i: Input)
    ensures var result, reply := Result(cfg, st, i), CD.ReplyTo(cfg.bucket, BucketOf(st, i.ip), i.call);
            && (result.RedisError? <==> i.fault != NoFault || reply.ScriptError?)
            && (result.Tokens? ==> reply == CD.Remaining(result.remaining))
  {
  }

  class DecisionEngine {
    const cfg: Config
    var buckets: map<string, CD.Key>
    var blocked: set<string>

    function View(): State
      reads this
    {
      State(buckets, blocked)
    }

    constructor (cfg: Config)
      ensures this.cfg == cfg && View() == State(map[], {})
    {
      this.cfg := cfg;
      buckets, blocked := map[], {};
    }

    method Decrement(ip: string, call: CD.Call, fault: Fault) returns (result: BucketResult)
      modifies this`buckets
      ensures var reply := CD.ReplyTo(cfg.bucket, BucketOf(old(View()), ip), call);
              && (result.RedisError? <==> fault != NoFault || reply.ScriptError?)
              && (result.Tokens? ==> reply == CD.Remaining(result.remaining))
      ensures BucketOf(View(), ip) == if fault == Unreachable then BucketOf(old(View()), ip)
                                      else CD.Next(cfg.bucket, BucketOf(old(View()), ip), call)
      ensures buckets == if fault == Unreachable then old(buckets) else old(buckets)[ip := BucketOf(View(), ip)]
    {
      if fault == Unreachable {
        return RedisError;
      }
      var key := new CD.CounterKey(if ip in buckets then buckets[ip] else CD.Missing);
      var reply := key.TokenBucket(cfg.bucket, call);
      buckets := buckets[ip := key.State()];
      if fault == ReplyLost || reply.ScriptError? {
        return RedisError;
      }
      return Tokens(reply.tokens);
    }

    /** Evaluate, without its asynchronous event publishing. */
    method Evaluate(i: Input) returns (decision: Decision)
      modifies this
      ensures decision.action == Block <==>
                ScoreOf(i) > cfg.blockThreshold || OutOfTokens(cfg, old(View()), i)
      ensures decision.action == Throttle <==>
                decision.action != Block && ScoreOf(i) > cfg.throttleThreshold
      ensures if decision.action == Throttle then BacksOff(ScoreOf(i), decision.retryAfter)
              else decision.retryAfter == 0
      ensures blocked == if decision.action == Block && i.addWorks then old(blocked) + {i.ip} else old(blocked)
      ensures BucketOf(View(), i.ip) == if i.fault == Unreachable then BucketOf(old(View()), i.ip)
                                        else CD.Next(cfg.bucket, BucketOf(old(View()), i.ip), i.call)
      ensures forall ip :: ip != i.ip ==> BucketOf(View(), ip) == BucketOf(old(View()), ip)
      ensures View() == Evaluated(cfg, old(View()), i)
      ensures decision == Verdict(cfg, Result(cfg, old(View()), i), i)
    {
      VerdictCases(cfg, View(), i);
      var result := Decrement(i.ip, i.call, i.fault);
      var bucketExhausted := result == RedisError || result.remaining < 0;
      if result == RedisError {
        bucketExhausted := false;
      }
      var score := ScoreValue(i.score);
      if score > cfg.blockThreshold || bucketExhausted {
        if i.addWorks {
          blocked := blocked + {i.ip};
        }
        decision := Decision(Block, 0);
      } else if score > cfg.throttleThreshold {
        var retryAfter := Truncate(score * 2.0 * 60.0);
        if retryAfter < 1 {
          retryAfter := 1;
        }
        decision := Decision(Throttle, retryAfter);
      } else {
        decision := Decision(Allow, 0);
      }
    }
  }

  // ----- severity is monotone through the pipeline ---------------------------------------

  function Rank(a: Action): int {
    match a
    case Allow => 0
    case Throttle => 1
    case Block => 2
  }

  /** At least as harsh an action, and within throttle at least as long a back-off. */
  predicate NoMilder(d: Decision, than: Decision) {
    && Rank(d.action) >= Rank(than.action)
    && (d.action == Throttle && than.action == Throttle ==> d.retryAfter >= than.retryAfter)
  }

  function Pipeline(cfg: Config, iso: real, lstm: real, exhausted: bool): Decision {
    Decide(cfg, Scoring.Combined(iso, lstm), exhausted)
  }

  function RawPipeline(cfg: Config, iso: Scoring.Raw, lstm: Scoring.Raw, exhausted: bool): Decision {
    Pipeline(cfg, Scoring.IsolationScore(iso), Scoring.LstmScore(lstm), exhausted)
  }

  lemma TruncateMonotone(x: real, y: real)
    requires x <= y
    ensures Truncate(x) <= Truncate(y)
  {
    CD.FloorMonotone(x, y);
    CD.FloorMonotone(-y, -x);
  }

  /** Raising either model's clamped score, or exhausting the bucket, never makes the decision
      milder, whatever the two thresholds are and whichever is larger. */
  lemma SeverityMonotone(cfg: Config, iso: real, lstm: real, exhausted: bool,
                         iso': real, lstm': real, exhausted': bool)
    requires iso <= iso' && lstm <= lstm' && (exhausted ==> exhausted')
    ensures NoMilder(Pipeline(cfg, iso', lstm', exhausted'), Pipeline(cfg, iso, lstm, exhausted))
  {
    var score, score' := Scoring.Combined(iso, lstm), Scoring.Combined(iso', lstm');
    assert score <= score';
    TruncateMonotone(score * 2.0 * 60.0, score' * 2.0 * 60.0);
  }

  /** The same from the models' raw outputs: a lower isolation-forest value or a higher sequence
      value never makes the decision milder. */
  lemma SeverityMonotoneInRawOutputs(cfg: Config, iso: real, lstm: real, iso': real, lstm': real, exhausted: bool)
    requires iso' <= iso && lstm <= lstm'
    ensures NoMilder(
              RawPipeline(cfg, Scoring.Output(iso'), Scoring.Output(lstm'), exhausted),
              RawPipeline(cfg, Scoring.Output(iso), Scoring.Output(lstm), exhausted))
  {
    SeverityMonotone(cfg,
                     Scoring.IsolationScore(Scoring.Output(iso)), Scoring.LstmScore(Scoring.Output(lstm)), exhausted,
                     Scoring.IsolationScore(Scoring.Output(iso')), Scoring.LstmScore(Scoring.Output(lstm')), exhausted);
  }

  ghost predicate ScoreAloneNeverBlocks(cfg: Config, lstm: real) {
    forall iso :: Pipeline(cfg, Scoring.IsolationScore(iso), lstm, false).action != Block
  }

  /** With the default thresholds, a client whose bucket holds tokens can be blocked on its score
      exactly when the sequence score is above 0.625; so never while the sequence model is neutral. */
  lemma BlockingNeedsSequenceScore(cfg: Config, lstm: real)
    requires cfg.blockThreshold == DEFAULT_BLOCK && cfg.throttleThreshold == DEFAULT_THROTTLE
    ensures ScoreAloneNeverBlocks(cfg, lstm) <==> lstm <= 0.625
    ensures ScoreAloneNeverBlocks(cfg, Scoring.LstmScore(Scoring.NoOutput))
  {
    assert Scoring.IsolationScore(Scoring.Output(-0.5)) == 1.0;
    assert Pipeline(cfg, Scoring.IsolationScore(Scoring.Output(-0.5)), lstm, false).action != Block <==> lstm <= 0.625;
    assert Pipeline(cfg, Scoring.IsolationScore(Scoring.Output(-0.5)), 0.5, false).action != Block;
    forall iso, l | l <= 0.625 ensures Pipeline(cfg, Scoring.IsolationScore(iso), l, false).action != Block {
      assert Scoring.IsolationScore(iso) <= 1.0;
    }
  }

  /** With the default thresholds a throttled client is told to wait between 72 and 102 seconds. */
  lemma DefaultBackOffRange(cfg: Config, score: real, exhausted: bool)
    requires cfg.blockThreshold == DEFAULT_BLOCK && cfg.throttleThreshold == DEFAULT_THROTTLE
    ensures var d := Decide(cfg, score, exhausted);
            if d.action == Throttle then 72 <= d.retryAfter <= 102 else d.retryAfter == 0
  {
    if DEFAULT_THROTTLE < score <= DEFAULT_BLOCK {
      TruncateMonotone(72.0, score * 2.0 * 60.0);
      TruncateMonotone(score * 2.0 * 60.0, 102.0);
    }
  }
}
