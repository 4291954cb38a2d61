/** The verdict protocol between the proxy (fingerprint.lua) and the engine (main.go), as a
    transition system: proxy requests, pooled connections carrying one line each way, and one
    server handler per connection, interleaved in any order, with either side failing, timing out
    or closing at any step. */
module VerdictProtocol {
  import opened Runs
  import E = Engine
  import CD = CountdownBucket

  type RequestId = nat
  type ConnId = nat

  /** A payload line; `wellFormed` says whether the engine can parse it. */
  datatype Line = Line(request: RequestId, ip: string, wellFormed: bool)

  /** A reply line.  On the wire it is only the decision: `request` records whose line it answers
      and no step reads it. */
  datatype Reply = Reply(request: RequestId, decision: E.Decision)

  datatype Failure = EncodeFailed | ConnectFailed | SendFailed | ReadFailed | DecodeFailed

  datatype Outcome = Passed(on: Reply) | Forbidden(on: Reply) | TooManyRequests(on: Reply) | FailedOpen(why: Failure)

  /** Where a proxy request stands in `evaluate`. */
  datatype Phase =
    | Arrived
    | Connected(conn: ConnId)
    | Awaiting(conn: ConnId)
    | Answered(reply: Reply)
    | Done(outcome: Outcome)

  datatype Worker = Worker(ip: string, phase: Phase)

  /** The proxy's end of a connection: in the keepalive pool, used by one request, or closed. */
  datatype ProxyEnd = Idle | Owned(user: RequestId) | Closed

  /** Where a connection's handler stands in its loop. */
  datatype Handler = Scanning | Evaluating(line: Line) | Writing(reply: Reply) | Gone

  datatype Conn = Conn(proxy: ProxyEnd, toEngine: seq<Line>, toProxy: seq<Reply>, handler: Handler)

  /** One line answered by the engine: a bad line, or a call of Evaluate and what Decrement gave it. */
  datatype Work = BadLine | Served(input: E.Input, result: E.BucketResult)

  /** `at` is the Redis server's clock when the line was answered. */
  datatype Entry = Entry(request: RequestId, ip: string, at: real, work: Work, decision: E.Decision)

  /** `sentOn` and `log` are history: the connection each request wrote to, and every line answered. */
  datatype State = State(
    workers: map<RequestId, Worker>,
    conns: map<ConnId, Conn>,
    engine: E.State,
    sentOn: map<RequestId, ConnId>,
    log: Run<Entry>)

  const INITIAL: State := State(map[], map[], E.State(map[], {}), map[], Start)

  /** What a handler's evaluation meets outside the system's own state. */
  datatype Surroundings = Surroundings(call: CD.Call, fault: E.Fault, score: E.Score, addWorks: bool)

  datatype Step =
    | Arrive(r: RequestId, ip: string)
    | EncodeFail(r: RequestId)
    | ConnectPooled(r: RequestId, c: ConnId)
    | ConnectNew(r: RequestId, c: ConnId)
    | ConnectFail(r: RequestId)
    | Send(r: RequestId, wellFormed: bool)
    | SendFail(r: RequestId, delivered: bool, wellFormed: bool)
    | Receive(r: RequestId, keepalive: bool)
    | ReceiveFail(r: RequestId)
    | Act(r: RequestId, decodes: bool)
    | PoolClose(c: ConnId)
    | Scan(c: ConnId)
    | Handle(c: ConnId, env: Surroundings)
    | Write(c: ConnId, delivered: bool)
    | HandlerExit(c: ConnId)

  // ----- the steps --------------------------------------------------------------------

  predicate HoldsConn(s: State, r: RequestId) {
    && r in s.workers && (s.workers[r].phase.Connected? || s.workers[r].phase.Awaiting?)
    && s.workers[r].phase.conn in s.conns
  }

  predicate Enabled(s: State, step: Step) {
    match step
    case Arrive(r, _) => r !in s.workers
    case EncodeFail(r) => r in s.workers && s.workers[r].phase == Arrived
    case ConnectPooled(r, c) =>
      r in s.workers && s.workers[r].phase == Arrived && c in s.conns && s.conns[c].proxy == Idle
    case ConnectNew(r, c) => r in s.workers && s.workers[r].phase == Arrived && c !in s.conns
    case ConnectFail(r) => r in s.workers && s.workers[r].phase == Arrived
    case Send(r, _) => HoldsConn(s, r) && s.workers[r].phase.Connected?
    case SendFail(r, _, _) => HoldsConn(s, r) && s.workers[r].phase.Connected?
    case Receive(r, _) =>
      HoldsConn(s, r) && s.workers[r].phase.Awaiting? && s.conns[s.workers[r].phase.conn].toProxy != []
    case ReceiveFail(r) => HoldsConn(s, r) && s.workers[r].phase.Awaiting?
    case Act(r, _) => r in s.workers && s.workers[r].phase.Answered?
    case PoolClose(c) => c in s.conns && s.conns[c].proxy == Idle
    case Scan(c) => c in s.conns && s.conns[c].handler == Scanning && s.conns[c].toEngine != []
    case Handle(c, _) => c in s.conns && s.conns[c].handler.Evaluating?
    case Write(c, _) => c in s.conns && s.conns[c].handler.Writing?
    case HandlerExit(c) => c in s.conns
  }

  function Moved(s: State, r: RequestId, phase: Phase): map<RequestId, Worker>
    requires r in s.workers
  {
    s.workers[r := s.workers[r].(phase := phase)]
  }

  /** What `evaluate` does with a reply line: anything but a block or a throttle passes. */
  function OutcomeOf(reply: Reply, decodes: bool): Outcome {
    if !decodes then FailedOpen(DecodeFailed)
    else match reply.decision.action
      case Block => Forbidden(reply)
      case Throttle => TooManyRequests(reply)
      case Allow => Passed(reply)
  }

  const ALLOW: E.Decision := E.Decision(E.Allow, 0)

  /** What the handler's loop body does with one line: a line it cannot parse is answered with an
      allow, any other with the engine's verdict. */
  function EntryFor(cfg: E.Config, st: E.State, line: Line, env: Surroundings): Entry {
    if !line.wellFormed then Entry(line.request, line.ip, env.call.clock, BadLine, ALLOW)
    else
      var input := E.Input(line.ip, env.call, env.fault, env.score, env.addWorks);
      var result := E.Result(cfg, st, input);
      Entry(line.request, line.ip, env.call.clock, Served(input, result), E.Verdict(cfg, result, input))
  }

  /** The entry names its line's request and address and the clock it was answered at, and the engine was
      asked exactly about the lines it can parse, with what their handler met. */
  lemma EntryIsOfItsLine(cfg: E.Config, st: E.State, line: Line, env: Surroundings)
    ensures var e := EntryFor(cfg, st, line, env);
            && e.request == line.request && e.ip == line.ip && e.at == env.call.clock
            && (e.work.Served? <==> line.wellFormed)
            && (e.work.Served? ==> e.work.input == E.Input(line.ip, env.call, env.fault, env.score, env.addWorks))
  {
  }

  function EngineAfter(cfg: E.Config, st: E.State, entry: Entry): E.State {
    match entry.work
    case BadLine => st
    case Served(input, _) => E.Evaluated(cfg, st, input)
  }

  function Apply(cfg: E.Config, s: State, step: Step): State
    requires Enabled(s, step)
  {
    match step
    case Arrive(r, ip) => s.(workers := s.workers[r := Worker(ip, Arrived)])
    case EncodeFail(r) => s.(workers := Moved(s, r, Done(FailedOpen(EncodeFailed))))
    case ConnectFail(r) => s.(workers := Moved(s, r, Done(FailedOpen(ConnectFailed))))
    case ConnectPooled(r, c) =>
      s.(workers := Moved(s, r, Connected(c)), conns := s.conns[c := s.conns[c].(proxy := Owned(r))])
    case ConnectNew(r, c) =>
      s.(workers := Moved(s, r, Connected(c)), conns := s.conns[c := Conn(Owned(r), [], [], Scanning)])
    case Send(r, wellFormed) =>
      var c := s.workers[r].phase.conn;
      var k := s.conns[c];
      s.(workers := Moved(s, r, Awaiting(c)),
         conns := s.conns[c := k.(toEngine := k.toEngine + [Line(r, s.workers[r].ip, wellFormed)])],
         sentOn := s.sentOn[r := c])
    case SendFail(r, delivered, wellFormed) =>
      // The bytes may have reached the engine anyway, which reads what is left when the socket closes.
      var c := s.workers[r].phase.conn;
      var k := s.conns[c];
      s.(workers := Moved(s, r, Done(FailedOpen(SendFailed))),
         conns := s.conns[c := k.(proxy := Closed, toEngine := k.toEngine
                                  + if delivered then [Line(r, s.workers[r].ip, wellFormed)] else [])],
         sentOn := s.sentOn[r := c])
    case Receive(r, keepalive) =>
      var c := s.workers[r].phase.conn;
      var k := s.conns[c];
      s.(workers := Moved(s, r, Answered(k.toProxy[0])),
         conns := s.conns[c := k.(proxy := if keepalive then Idle else Closed, toProxy := k.toProxy[1..])])
    case ReceiveFail(r) =>
      var c := s.workers[r].phase.conn;
      s.(workers := Moved(s, r, Done(FailedOpen(ReadFailed))),
         conns := s.conns[c := s.conns[c].(proxy := Closed)])
    case Act(r, decodes) => s.(workers := Moved(s, r, Done(OutcomeOf(s.workers[r].phase.reply, decodes))))
    case PoolClose(c) => s.(conns := s.conns[c := s.conns[c].(proxy := Closed)])
    case Scan(c) =>
      var k := s.conns[c];
      s.(conns := s.conns[c := k.(toEngine := k.toEngine[1..], handler := Evaluating(k.toEngine[0]))])
    case Handle(c, env) =>
      var k := s.conns[c];
      var entry := EntryFor(cfg, s.engine, k.handler.line, env);
      s.(conns := s.conns[c := k.(handler := Writing(Reply(entry.request, entry.decision)))],
         engine := EngineAfter(cfg, s.engine, entry),
         log := Then(s.log, entry))
    case Write(c, delivered) =>
      var k := s.conns[c];
      s.(conns := s.conns[c := k.(handler := Scanning,
                                  toProxy := k.toProxy + if delivered then [k.handler.reply] else [])])
    case HandlerExit(c) => s.(conns := s.conns[c := s.conns[c].(handler := Gone)])
  }

  /** A step that is not enabled does nothing. */
  function Do(cfg: E.Config, s: State, step: Step): State {
    if Enabled(s, step) then Apply(cfg, s, step) else s
  }

  /** Every state the system can reach. */
  function After(cfg: E.Config, run: Run<Step>): State {
    match run
    case Start => INITIAL
    case Then(before, step) => Do(cfg, After(cfg, before), step)
  }

  // ----- the invariant -----------------------------------------------------------------

  function Logged(log: Run<Entry>): set<RequestId> {
    match log
    case Start => {}
    case Then(before, e) => Logged(before) + {e.request}
  }

  /** The engine computed this reply from the line that this request sent for this address. */
  predicate Recorded(log: Run<Entry>, reply: Reply, ip: string) {
    match log
    case Start => false
    case Then(before, e) =>
      (e.request == reply.request && e.ip == ip && e.decision == reply.decision) || Recorded(before, reply, ip)
  }

  predicate AtMostOnce(log: Run<Entry>) {
    match log
    case Start => true
    case Then(before, e) => e.request !in Logged(before) && AtMostOnce(before)
  }

  /** Lines and replies on a connection, including the one its handler works on. */
  function InFlight(k: Conn): nat {
    |k.toEngine| + |k.toProxy| + if k.handler.Evaluating? || k.handler.Writing? then 1 else 0
  }

  /** A line waits to be answered on the connection it was sent on, and has not been answered. */
  predicate LineOk(s: State, c: ConnId, line: Line) {
    && line.request in s.sentOn && s.sentOn[line.request] == c
    && line.request in s.workers && s.workers[line.request].ip == line.ip
    && line.request !in Logged(s.log)
  }

  /** A reply waits on the connection its line was sent on, and is what the engine computed. */
  predicate ReplyOk(s: State, c: ConnId, reply: Reply) {
    && reply.request in s.sentOn && s.sentOn[reply.request] == c
    && reply.request in s.workers && Recorded(s.log, reply, s.workers[reply.request].ip)
  }

  predicate TrafficOk(s: State, c: ConnId, k: Conn) {
    && InFlight(k) <= 1
    && (k.toEngine != [] ==> LineOk(s, c, k.toEngine[0]))
    && (k.handler.Evaluating? ==> LineOk(s, c, k.handler.line))
    && (k.handler.Writing? ==> ReplyOk(s, c, k.handler.reply))
    && (k.toProxy != [] ==> ReplyOk(s, c, k.toProxy[0]))
  }

  /** The connection carries nothing but this request's traffic. */
  predicate OnlyFor(k: Conn, r: RequestId) {
    && (k.toEngine != [] ==> k.toEngine[0].request == r)
    && (k.handler.Evaluating? ==> k.handler.line.request == r)
    && (k.handler.Writing? ==> k.handler.reply.request == r)
    && (k.toProxy != [] ==> k.toProxy[0].request == r)
  }

  predicate OwnerOk(s: State, c: ConnId, k: Conn) {
    match k.proxy
    case Idle => InFlight(k) == 0
    case Closed => true
    case Owned(r) =>
      && r in s.workers
      && (s.workers[r].phase == Connected(c) || s.workers[r].phase == Awaiting(c))
      && (s.workers[r].phase.Connected? ==> InFlight(k) == 0)
      && OnlyFor(k, r)
  }

  predicate PhaseOk(s: State, r: RequestId, w: Worker) {
    match w.phase
    case Arrived => r !in s.sentOn
    case Connected(c) => r !in s.sentOn && c in s.conns && s.conns[c].proxy == Owned(r)
    case Awaiting(c) => r in s.sentOn && s.sentOn[r] == c && c in s.conns && s.conns[c].proxy == Owned(r)
    case Answered(reply) => reply.request == r && Recorded(s.log, reply, w.ip)
    case Done(outcome) => outcome.FailedOpen? || (outcome.on.request == r && Recorded(s.log, outcome.on, w.ip)
                                                  && outcome == OutcomeOf(outcome.on, true))
  }

  ghost predicate AllTrafficOk(s: State) {
    forall c :: c in s.conns ==> TrafficOk(s, c, s.conns[c])
  }

  ghost predicate OwnersOk(s: State) {
    forall c :: c in s.conns ==> OwnerOk(s, c, s.conns[c])
  }

  ghost predicate WorkersOk(s: State) {
    forall r :: r in s.workers ==> PhaseOk(s, r, s.workers[r])
  }

  ghost predicate HistoryOk(s: State) {
    && Logged(s.log) <= s.sentOn.Keys <= s.workers.Keys
    && AtMostOnce(s.log)
  }

  ghost predicate Inv(s: State) {
    AllTrafficOk(s) && OwnersOk(s) && WorkersOk(s) && HistoryOk(s)
  }

  // ----- every step keeps the invariant ----------------------------------------------------

  /** Steps that touch no connection. */
  predicate Quiet(step: Step) { step.Arrive? || step.EncodeFail? || step.ConnectFail? || step.Act? }

  /** Steps that only change who holds a connection. */
  predicate Attaches(step: Step) { step.ConnectPooled? || step.ConnectNew? || step.PoolClose? }

  predicate Sends(step: Step) { step.Send? || step.SendFail? }

  predicate Receives(step: Step) { step.Receive? || step.ReceiveFail? }

  predicate ByHandler(step: Step) { step.Scan? || step.Handle? || step.Write? || step.HandlerExit? }

  lemma QuietKeepTraffic(cfg: E.Config, s: State, step: Step)
    requires Inv(s) && Enabled(s, step) && Quiet(step)
    ensures AllTrafficOk(Apply(cfg, s, step))
  {
  }

  lemma QuietKeepOwners(cfg: E.Config, s: State, step: Step)
    requires Inv(s) && Enabled(s, step) && Quiet(step)
    ensures OwnersOk(Apply(cfg, s, step))
  {
  }

  lemma QuietKeepWorkers(cfg: E.Config, s: State, step: Step)
    requires Inv(s) && Enabled(s, step) && Quiet(step)
    ensures WorkersOk(Apply(cfg, s, step))
  {
  }

  lemma AttachesKeepTraffic(cfg: E.Config, s: State, step: Step)
    requires Inv(s) && Enabled(s, step) && Attaches(step)
    ensures AllTrafficOk(Apply(cfg, s, step))
  {
  }

  lemma AttachesKeepOwners(cfg: E.Config, s: State, step: Step)
    requires Inv(s) && Enabled(s, step) && Attaches(step)
    ensures OwnersOk(Apply(cfg, s, step))
  {
  }

  lemma AttachesKeepWorkers(cfg: E.Config, s: State, step: Step)
    requires Inv(s) && Enabled(s, step) && Attaches(step)
    ensures WorkersOk(Apply(cfg, s, step))
  {
  }

  lemma SendKeepsTraffic(cfg: E.Config, s: State, step: Step)
    requires Inv(s) && Enabled(s, step) && step.Send?
    ensures AllTrafficOk(Apply(cfg, s, step))
  {
    var s' := Apply(cfg, s, step);
    forall c | c in s'.conns ensures TrafficOk(s', c, s'.conns[c]) {
      assert TrafficOk(s, c, s.conns[c]) && OwnerOk(s, c, s.conns[c]);
    }
  }

  lemma SendFailKeepsTraffic(cfg: E.Config, s: State, step: Step)
    requires Inv(s) && Enabled(s, step) && step.SendFail?
    ensures AllTrafficOk(Apply(cfg, s, step))
  {
    var s' := Apply(cfg, s, step);
    forall c | c in s'.conns ensures TrafficOk(s', c, s'.conns[c]) {
      assert TrafficOk(s, c, s.conns[c]) && OwnerOk(s, c, s.conns[c]);
    }
  }

  lemma SendsKeepOwners(cfg: E.Config, s: State, step: Step)
    requires Inv(s) && Enabled(s, step) && Sends(step)
    ensures OwnersOk(Apply(cfg, s, step))
  {
  }

  lemma SendsKeepWorkers(cfg: E.Config, s: State, step: Step)
    requires Inv(s) && Enabled(s, step) && Sends(step)
    ensures WorkersOk(Apply(cfg, s, step))
  {
  }

  lemma ReceiveKeepsTraffic(cfg: E.Config, s: State, step: Step)
    requires Inv(s) && Enabled(s, step) && step.Receive?
    ensures AllTrafficOk(Apply(cfg, s, step))
  {
  }

  lemma ReceiveFailKeepsTraffic(cfg: E.Config, s: State, step: Step)
    requires Inv(s) && Enabled(s, step) && step.ReceiveFail?
    ensures AllTrafficOk(Apply(cfg, s, step))
  {
  }

  lemma ReceivesKeepOwners(cfg: E.Config, s: State, step: Step)
    requires Inv(s) && Enabled(s, step) && Receives(step)
    ensures OwnersOk(Apply(cfg, s, step))
  {
  }

  lemma ReceivesKeepWorkers(cfg: E.Config, s: State, step: Step)
    requires Inv(s) && Enabled(s, step) && Receives(step)
    ensures WorkersOk(Apply(cfg, s, step))
  {
  }

  lemma HandleKeepsTraffic(cfg: E.Config, s: State, step: Step)
    requires Inv(s) && Enabled(s, step) && step.Handle?
    ensures AllTrafficOk(Apply(cfg, s, step))
  {
  }

  lemma HandlerKeepTraffic(cfg: E.Config, s: State, step: Step)
    requires Inv(s) && Enabled(s, step) && ByHandler(step) && !step.Handle?
    ensures AllTrafficOk(Apply(cfg, s, step))
  {
  }

  lemma HandlerKeepOwners(cfg: E.Config, s: State, step: Step)
    requires Inv(s) && Enabled(s, step) && ByHandler(step)
    ensures OwnersOk(Apply(cfg, s, step))
  {
  }

  lemma HandlerKeepWorkers(cfg: E.Config, s: State, step: Step)
    requires Inv(s) && Enabled(s, step) && ByHandler(step)
    ensures WorkersOk(Apply(cfg, s, step))
  {
  }

  lemma StepKeepsHistory(cfg: E.Config, s: State, step: Step)
    requires Inv(s) && Enabled(s, step)
    ensures HistoryOk(Apply(cfg, s, step))
  {
  }

  lemma {:induction false} StepKeepsInv(cfg: E.Config, s: State, step: Step)
    requires Inv(s) && Enabled(s, step)
    ensures Inv(Apply(cfg, s, step))
  {
    StepKeepsHistory(cfg, s, step);
    if Quiet(step) {
      QuietKeepTraffic(cfg, s, step);
      QuietKeepOwners(cfg, s, step);
      QuietKeepWorkers(cfg, s, step);
    } else if Attaches(step) {
      AttachesKeepTraffic(cfg, s, step);
      AttachesKeepOwners(cfg, s, step);
      AttachesKeepWorkers(cfg, s, step);
    } else if Sends(step) {
      if step.Send? {
        SendKeepsTraffic(cfg, s, step);
      } else {
        SendFailKeepsTraffic(cfg, s, step);
      }
      SendsKeepOwners(cfg, s, step);
      SendsKeepWorkers(cfg, s, step);
    } else if Receives(step) {
      if step.Receive? {
        ReceiveKeepsTraffic(cfg, s, step);
      } else {
        ReceiveFailKeepsTraffic(cfg, s, step);
      }
      ReceivesKeepOwners(cfg, s, step);
      ReceivesKeepWorkers(cfg, s, step);
    } else {
      if step.Handle? {
        HandleKeepsTraffic(cfg, s, step);
      } else {
        HandlerKeepTraffic(cfg, s, step);
      }
      HandlerKeepOwners(cfg, s, step);
      HandlerKeepWorkers(cfg, s, step);
    }
  }

  lemma {:induction false} ReachableInv(cfg: E.Config, run: Run<Step>)
    ensures Inv(After(cfg, run))
  {
    if run.Then? {
      ReachableInv(cfg, run.before);
      var s := After(cfg, run.before);
      if Enabled(s, run.last) {
        StepKeepsInv(cfg, s, run.last);
      }
    }
  }

  // ----- safety over every run ---------------------------------------------------------------

  /** Replies never cross requests: whatever the interleaving, an idle pooled connection carries no
      line and no reply, and no handler is still at work on it. */
  lemma {:induction false} IdleCarriesNothing(cfg: E.Config, run: Run<Step>, c: ConnId)
    requires var s := After(cfg, run); c in s.conns && s.conns[c].proxy == Idle
    ensures var k := After(cfg, run).conns[c];
            k.toEngine == [] && k.toProxy == [] && (k.handler == Scanning || k.handler == Gone)
  {
    ReachableInv(cfg, run);
    assert OwnerOk(After(cfg, run), c, After(cfg, run).conns[c]);
  }

  /** Every request that ends on a verdict ends on the one the engine computed from that request's
      own line and address. */
  lemma {:induction false} VerdictIsOwn(cfg: E.Config, run: Run<Step>, r: RequestId)
    requires var s := After(cfg, run);
             r in s.workers && s.workers[r].phase.Done? && !s.workers[r].phase.outcome.FailedOpen?
    ensures var s := After(cfg, run);
            var outcome := s.workers[r].phase.outcome;
            && outcome.on.request == r
            && Recorded(s.log, outcome.on, s.workers[r].ip)
            && (outcome.Passed? <==> outcome.on.decision.action == E.Allow)
            && (outcome.TooManyRequests? <==> outcome.on.decision.action == E.Throttle)
            && (outcome.Forbidden? <==> outcome.on.decision.action == E.Block)
  {
    ReachableInv(cfg, run);
    assert PhaseOk(After(cfg, run), r, After(cfg, run).workers[r]);
  }

  function TimesAnswered(log: Run<Entry>, r: RequestId): nat {
    match log
    case Start => 0
    case Then(before, e) => TimesAnswered(before, r) + if e.request == r then 1 else 0
  }

  lemma {:induction false} NeverAnsweredTwice(log: Run<Entry>, r: RequestId)
    requires AtMostOnce(log)
    ensures TimesAnswered(log, r) == if r in Logged(log) then 1 else 0
  {
    if log.Then? {
      NeverAnsweredTwice(log.before, r);
    }
  }

  /** Each proxy request is evaluated, and so takes from its bucket, at most once; and only once its
      line has been written. */
  lemma {:induction false} EvaluatedAtMostOnce(cfg: E.Config, run: Run<Step>, r: RequestId)
    ensures var s := After(cfg, run);
            && TimesAnswered(s.log, r) <= 1
            && (TimesAnswered(s.log, r) == 1 ==>
                  r in s.workers && !s.workers[r].phase.Arrived? && !s.workers[r].phase.Connected?)
  {
    var s := After(cfg, run);
    ReachableInv(cfg, run);
    NeverAnsweredTwice(s.log, r);
    if r in Logged(s.log) {
      assert r in s.sentOn && PhaseOk(s, r, s.workers[r]);
    }
  }

  // ----- one undisturbed round trip ------------------------------------------------------------

  function SendPhase(cfg: E.Config, s: State, r: RequestId, c: ConnId): State {
    Do(cfg, Do(cfg, s, ConnectPooled(r, c)), Send(r, true))
  }

  /** One turn of the handler's loop. */
  function LoopTurn(cfg: E.Config, s: State, c: ConnId, env: Surroundings): State {
    Do(cfg, Do(cfg, Do(cfg, s, Scan(c)), Handle(c, env)), Write(c, true))
  }

  function ReceivePhase(cfg: E.Config, s: State, r: RequestId, decodes: bool): State {
    Do(cfg, Do(cfg, s, Receive(r, true)), Act(r, decodes))
  }

  lemma SendPhaseResult(cfg: E.Config, s: State, r: RequestId, c: ConnId)
    requires r in s.workers && s.workers[r].phase == Arrived
    requires c in s.conns && s.conns[c] == Conn(Idle, [], [], Scanning)
    ensures SendPhase(cfg, s, r, c)
            == s.(workers := Moved(s, r, Awaiting(c)),
                  conns := s.conns[c := Conn(Owned(r), [Line(r, s.workers[r].ip, true)], [], Scanning)],
                  sentOn := s.sentOn[r := c])
  {
    var s1 := Do(cfg, s, ConnectPooled(r, c));
    assert s1.conns[c] == Conn(Owned(r), [], [], Scanning);
    assert s1.workers[r] == Worker(s.workers[r].ip, Connected(c));
    assert [] + [Line(r, s.workers[r].ip, true)] == [Line(r, s.workers[r].ip, true)];
  }

  /** A turn of the loop takes the first waiting line and writes one reply after those written before. */
  lemma LoopTurnResult(cfg: E.Config, s: State, c: ConnId, env: Surroundings)
    requires c in s.conns && s.conns[c].handler == Scanning && s.conns[c].toEngine != []
    ensures var k := s.conns[c];
            var entry := EntryFor(cfg, s.engine, k.toEngine[0], env);
            LoopTurn(cfg, s, c, env)
            == s.(conns := s.conns[c := k.(toEngine := k.toEngine[1..],
                                           toProxy := k.toProxy + [Reply(entry.request, entry.decision)])],
                  engine := EngineAfter(cfg, s.engine, entry),
                  log := Then(s.log, entry))
  {
    var k := s.conns[c];
    var entry := EntryFor(cfg, s.engine, k.toEngine[0], env);
    var s1 := Do(cfg, s, Scan(c));
    assert s1.conns[c] == k.(toEngine := k.toEngine[1..], handler := Evaluating(k.toEngine[0]));
    var s2 := Do(cfg, s1, Handle(c, env));
    assert s2.conns[c] == k.(toEngine := k.toEngine[1..], handler := Writing(Reply(entry.request, entry.decision)));
  }

  lemma ReceivePhaseResult(cfg: E.Config, s: State, r: RequestId, c: ConnId, reply: Reply, decodes: bool)
    requires r in s.workers && s.workers[r].phase == Awaiting(c)
    requires c in s.conns && s.conns[c] == Conn(Owned(r), [], [reply], Scanning)
    ensures ReceivePhase(cfg, s, r, decodes)
            == s.(workers := Moved(s, r, Done(OutcomeOf(reply, decodes))),
                  conns := s.conns[c := Conn(Idle, [], [], Scanning)])
  {
    var s1 := Do(cfg, s, Receive(r, true));
    assert s1.workers[r] == Worker(s.workers[r].ip, Answered(reply));
    assert s1.conns[c] == Conn(Idle, [], [], Scanning);
  }

  /** From any reachable state, a request that meets no failure on an idle connection ends on the
      engine's verdict for it and leaves the connection idle for the next. */
  lemma {:induction false} RoundTripDelivers(cfg: E.Config, before: Run<Step>, r: RequestId, c: ConnId,
                                             env: Surroundings)
    requires var s := After(cfg, before);
             && r in s.workers && s.workers[r].phase == Arrived
             && c in s.conns && s.conns[c].proxy == Idle && s.conns[c].handler == Scanning
    ensures var s := After(cfg, before);
            var s' := ReceivePhase(cfg, LoopTurn(cfg, SendPhase(cfg, s, r, c), c, env), r, true);
            var input := E.Input(s.workers[r].ip, env.call, env.fault, env.score, env.addWorks);
            var verdict := E.Verdict(cfg, E.Result(cfg, s.engine, input), input);
            && s'.workers == s.workers[r := Worker(s.workers[r].ip, Done(OutcomeOf(Reply(r, verdict), true)))]
            && s'.conns == s.conns && s'.engine == E.Evaluated(cfg, s.engine, input)
  {
    var s := After(cfg, before);
    IdleCarriesNothing(cfg, before, c);
    SendPhaseResult(cfg, s, r, c);
    var s2 := SendPhase(cfg, s, r, c);
    LoopTurnResult(cfg, s2, c, env);
    var s5 := LoopTurn(cfg, s2, c, env);
    var reply := Reply(r, EntryFor(cfg, s.engine, Line(r, s.workers[r].ip, true), env).decision);
    assert s5.conns[c] == Conn(Owned(r), [], [reply], Scanning);
    ReceivePhaseResult(cfg, s5, r, c, reply, true);
  }
}
