/** What the failures of the verdict protocol lead to: connections that are never used again, requests
    that are never answered, and requests that fail open although the engine has answered them. */
module Failures {
  import opened Runs
  import opened VerdictProtocol
  import E = Engine

  /** The run, and then whatever follows. */
  function Extend(run: Run<Step>, more: Run<Step>): Run<Step> {
    match more
    case Start => run
    case Then(before, step) => Then(Extend(run, before), step)
  }

  // ----- a closed connection ------------------------------------------------------------------

  predicate ClosedAt(s: State, c: ConnId) {
    c in s.conns && s.conns[c].proxy == Closed
  }

  /** The proxy closes a connection when the pool does, when its request fails on it, and when the reply
      has been read but the connection cannot be kept. */
  predicate Closes(s: State, step: Step, c: ConnId) {
    match step
    case PoolClose(d) => d == c && c in s.conns && s.conns[c].proxy == Idle
    case SendFail(r, _, _) => r in s.workers && s.workers[r].phase == Connected(c)
    case ReceiveFail(r) => r in s.workers && s.workers[r].phase == Awaiting(c)
    case Receive(r, keepalive) =>
      !keepalive && r in s.workers && s.workers[r].phase == Awaiting(c) && c in s.conns && s.conns[c].toProxy != []
    case _ => false
  }

  lemma StepKeepsClosed(cfg: E.Config, s: State, step: Step, c: ConnId)
    requires Inv(s) && ClosedAt(s, c)
    ensures ClosedAt(Do(cfg, s, step), c)
  {
  }

  lemma {:induction false} ClosedForGood(cfg: E.Config, run: Run<Step>, c: ConnId, more: Run<Step>)
    requires ClosedAt(After(cfg, run), c)
    ensures ClosedAt(After(cfg, Extend(run, more)), c)
  {
    if more.Then? {
      ClosedForGood(cfg, run, c, more.before);
      ReachableInv(cfg, Extend(run, more.before));
      StepKeepsClosed(cfg, After(cfg, Extend(run, more.before)), more.last, c);
    }
  }

  lemma ClosesIt(cfg: E.Config, s: State, step: Step, c: ConnId)
    requires Inv(s) && Closes(s, step, c)
    ensures ClosedAt(Do(cfg, s, step), c)
  {
    if !step.PoolClose? {
      assert PhaseOk(s, step.r, s.workers[step.r]);
    }
  }

  /** A connection that the proxy has closed, for whatever reason, is never pooled or given to a request
      again, so nothing that is still on its way on it can reach anyone. */
  lemma {:induction false} ClosedIsNeverReused(cfg: E.Config, before: Run<Step>, step: Step, c: ConnId,
                                               more: Run<Step>)
    requires Closes(After(cfg, before), step, c)
    ensures var s := After(cfg, Extend(Then(before, step), more));
            && ClosedAt(s, c)
            && forall r :: r in s.workers ==> s.workers[r].phase != Connected(c) && s.workers[r].phase != Awaiting(c)
  {
    var run := Extend(Then(before, step), more);
    ReachableInv(cfg, before);
    ClosesIt(cfg, After(cfg, before), step, c);
    ClosedForGood(cfg, Then(before, step), c, more);
    ReachableInv(cfg, run);
    forall r | r in After(cfg, run).workers
      ensures After(cfg, run).workers[r].phase != Connected(c) && After(cfg, run).workers[r].phase != Awaiting(c)
    {
      assert PhaseOk(After(cfg, run), r, After(cfg, run).workers[r]);
    }
  }

  // ----- a handler that has gone ----------------------------------------------------------------

  /** The line of this request was written to a connection whose handler has gone without answering it. */
  predicate Stranded(s: State, c: ConnId, r: RequestId) {
    && c in s.conns && s.conns[c].handler == Gone
    && r in s.sentOn && s.sentOn[r] == c && r !in Logged(s.log)
  }

  lemma StepKeepsStranded(cfg: E.Config, s: State, step: Step, c: ConnId, r: RequestId)
    requires Inv(s) && Stranded(s, c, r)
    ensures Stranded(Do(cfg, s, step), c, r)
  {
    if Enabled(s, step) && (step.Send? || step.SendFail?) {
      assert PhaseOk(s, step.r, s.workers[step.r]);
    }
    if Enabled(s, step) && step.Handle? {
      assert TrafficOk(s, step.c, s.conns[step.c]);
    }
  }

  lemma {:induction false} StrandedForGood(cfg: E.Config, run: Run<Step>, c: ConnId, r: RequestId, more: Run<Step>)
    requires Stranded(After(cfg, run), c, r)
    ensures Stranded(After(cfg, Extend(run, more)), c, r)
  {
    if more.Then? {
      StrandedForGood(cfg, run, c, r, more.before);
      ReachableInv(cfg, Extend(run, more.before));
      StepKeepsStranded(cfg, After(cfg, Extend(run, more.before)), more.last, c, r);
    }
  }

  lemma {:induction false} RecordedIsLogged(log: Run<Entry>, reply: Reply, ip: string)
    requires Recorded(log, reply, ip)
    ensures reply.request in Logged(log)
  {
    if Recorded(log.before, reply, ip) {
      RecordedIsLogged(log.before, reply, ip);
    }
  }

  /** If a handler exits before it has answered a request's line, that request is never evaluated, takes
      no token, and can only end by failing open. */
  lemma {:induction false} GoneHandlerNeverAnswers(cfg: E.Config, before: Run<Step>, c: ConnId, r: RequestId,
                                                   more: Run<Step>)
    requires var s := After(cfg, before);
             c in s.conns && r in s.sentOn && s.sentOn[r] == c && r !in Logged(s.log)
    ensures var s := After(cfg, Extend(Then(before, HandlerExit(c)), more));
            && r !in Logged(s.log)
            && (r in s.workers && s.workers[r].phase.Done? ==> s.workers[r].phase.outcome.FailedOpen?)
  {
    var run := Extend(Then(before, HandlerExit(c)), more);
    StrandedForGood(cfg, Then(before, HandlerExit(c)), c, r, more);
    var s := After(cfg, run);
    if r in s.workers && s.workers[r].phase.Done? && !s.workers[r].phase.outcome.FailedOpen? {
      VerdictIsOwn(cfg, run, r);
      RecordedIsLogged(s.log, s.workers[r].phase.outcome.on, s.workers[r].ip);
      assert false;
    }
  }

  // ----- answered, and yet failed open -------------------------------------------------------------

  /** How a request can fail open after the engine has answered it: its send failed after the line had
      gone out; its reply was lost; or its reply came too late to be read. */
  datatype Way = HalfSent | LostReply | LateReply

  /** A new request on a new connection, up to the engine's answer. */
  function Answered(r: RequestId, ip: string, c: ConnId, env: Surroundings, send: Step): Run<Step> {
    Then(Then(Then(Then(Then(Start, Arrive(r, ip)), ConnectNew(r, c)), send), Scan(c)), Handle(c, env))
  }

  function SpentRun(way: Way, r: RequestId, ip: string, c: ConnId, env: Surroundings): Run<Step> {
    match way
    case HalfSent => Answered(r, ip, c, env, SendFail(r, true, true))
    case LostReply => Then(Then(Answered(r, ip, c, env, Send(r, true)), Write(c, false)), ReceiveFail(r))
    case LateReply => Then(Then(Answered(r, ip, c, env, Send(r, true)), Write(c, true)), ReceiveFail(r))
  }

  lemma SentState(cfg: E.Config, r: RequestId, ip: string, c: ConnId, send: Step)
    requires send == SendFail(r, true, true) || send == Send(r, true)
    ensures var s := After(cfg, Then(Then(Then(Start, Arrive(r, ip)), ConnectNew(r, c)), send));
            && s.workers == map[r := Worker(ip, if send.Send? then Awaiting(c) else Done(FailedOpen(SendFailed)))]
            && s.conns == map[c := Conn(if send.Send? then Owned(r) else Closed, [Line(r, ip, true)], [], Scanning)]
            && s.engine == INITIAL.engine && s.log == Start
  {
    var run1 := Then(Start, Arrive(r, ip));
    var run2 := Then(run1, ConnectNew(r, c));
    assert After(cfg, Start) == INITIAL;
    assert After(cfg, run1) == INITIAL.(workers := map[r := Worker(ip, Arrived)]);
    assert After(cfg, run2) == INITIAL.(workers := map[r := Worker(ip, Connected(c))],
                                        conns := map[c := Conn(Owned(r), [], [], Scanning)]);
    assert [] + [Line(r, ip, true)] == [Line(r, ip, true)];
  }

  lemma AnsweredState(cfg: E.Config, s: State, c: ConnId, line: Line, env: Surroundings)
    requires c in s.conns && s.conns[c].handler == Scanning && s.conns[c].toEngine == [line]
    ensures var entry, s' := EntryFor(cfg, s.engine, line, env), Do(cfg, Do(cfg, s, Scan(c)), Handle(c, env));
            && s'.workers == s.workers && s'.log == Then(s.log, entry)
            && s'.conns == s.conns[c := s.conns[c].(toEngine := [],
                                                    handler := Writing(Reply(entry.request, entry.decision)))]
  {
    var s1 := Do(cfg, s, Scan(c));
    assert s1.conns[c] == s.conns[c].(toEngine := [], handler := Evaluating(line));
  }

  lemma TwoSteps(cfg: E.Config, run: Run<Step>, first: Step, second: Step)
    ensures After(cfg, Then(Then(run, first), second)) == Do(cfg, Do(cfg, After(cfg, run), first), second)
  {
  }

  lemma UnreadState(cfg: E.Config, s: State, r: RequestId, c: ConnId, delivered: bool)
    requires r in s.workers && s.workers[r].phase == Awaiting(c)
    requires c in s.conns && s.conns[c].handler.Writing? && s.conns[c].toProxy == []
    ensures var s' := Do(cfg, Do(cfg, s, Write(c, delivered)), ReceiveFail(r));
            && s'.log == s.log && r in s'.workers && c in s'.conns
            && s'.workers[r].phase == Done(FailedOpen(ReadFailed))
            && s'.conns[c].proxy == Closed && (s'.conns[c].toProxy != [] <==> delivered)
  {
    var s1 := Do(cfg, s, Write(c, delivered));
    assert c in s1.conns && s1.workers == s.workers && s1.log == s.log;
  }

  /** A request that fails open may have been evaluated and have taken its token all the same, in each of
      these ways: what the proxy lets through without a verdict is not free. */
  lemma FailedOpenMaySpend(cfg: E.Config, way: Way, r: RequestId, ip: string, c: ConnId, env: Surroundings)
    ensures var s := After(cfg, SpentRun(way, r, ip, c, env));
            && r in s.workers && c in s.conns
            && s.log == Then(Start, EntryFor(cfg, INITIAL.engine, Line(r, ip, true), env))
            && s.workers[r].phase == Done(FailedOpen(if way == HalfSent then SendFailed else ReadFailed))
            && s.conns[c].proxy == Closed
            && (way == LateReply <==> s.conns[c].toProxy != [])
  {
    var send := if way == HalfSent then SendFail(r, true, true) else Send(r, true);
    var sent := Then(Then(Then(Start, Arrive(r, ip)), ConnectNew(r, c)), send);
    SentState(cfg, r, ip, c, send);
    AnsweredState(cfg, After(cfg, sent), c, Line(r, ip, true), env);
    TwoSteps(cfg, sent, Scan(c), Handle(c, env));
    if way != HalfSent {
      var answered := Answered(r, ip, c, env, send);
      UnreadState(cfg, After(cfg, answered), r, c, way == LateReply);
      TwoSteps(cfg, answered, Write(c, way == LateReply), ReceiveFail(r));
    }
  }
}
