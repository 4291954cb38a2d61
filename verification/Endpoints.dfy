/** The two ends of the verdict protocol as the programs run them: handleConn's loop over the lines
    of one connection (main.go), and query_engine with its caller evaluate (fingerprint.lua). */
module Endpoints {
  import opened VerdictProtocol
  import E = Engine

  // ----- the server's loop --------------------------------------------------------------

  /** The engine after answering these lines in order. */
  function EngineThrough(cfg: E.Config, st: E.State, lines: seq<Line>, envs: seq<Surroundings>): E.State
    requires |lines| == |envs|
  {
    if lines == [] then st
    else
      var n := |lines| - 1;
      var before := EngineThrough(cfg, st, lines[..n], envs[..n]);
      EngineAfter(cfg, before, EntryFor(cfg, before, lines[n], envs[n]))
  }

  /** One reply per line, each from the engine that the lines before it have left. */
  function Replies(cfg: E.Config, st: E.State, lines: seq<Line>, envs: seq<Surroundings>): seq<Reply>
    requires |lines| == |envs|
  {
    if lines == [] then []
    else
      var n := |lines| - 1;
      var entry := EntryFor(cfg, EngineThrough(cfg, st, lines[..n], envs[..n]), lines[n], envs[n]);
      Replies(cfg, st, lines[..n], envs[..n]) + [Reply(entry.request, entry.decision)]
  }

  class Handler {
    const engine: E.DecisionEngine
    var written: seq<Reply>

    constructor (engine: E.DecisionEngine)
      ensures this.engine == engine && written == []
    {
      this.engine := engine;
      written := [];
    }

    method WriteResponse(request: RequestId, d: E.Decision)
      modifies this
      ensures written == old(written) + [Reply(request, d)]
    {
      written := written + [Reply(request, d)];
    }

    /** `lines` are the lines that the scanner yields before the connection ends. */
    method HandleConn(lines: seq<Line>, envs: seq<Surroundings>)
      requires |lines| == |envs|
      modifies this, engine
      ensures written == old(written) + Replies(engine.cfg, old(engine.View()), lines, envs)
      ensures engine.View() == EngineThrough(engine.cfg, old(engine.View()), lines, envs)
    {
      ghost var st, was := engine.View(), written;
      var i := 0;
      while i < |lines|
        invariant 0 <= i <= |lines|
        invariant written == was + Replies(engine.cfg, st, lines[..i], envs[..i])
        invariant engine.View() == EngineThrough(engine.cfg, st, lines[..i], envs[..i])
      {
        assert lines[..i + 1][..i] == lines[..i] && envs[..i + 1][..i] == envs[..i];
        var line := lines[i];
        if !line.wellFormed {
          WriteResponse(line.request, E.Decision(E.Allow, 0));
        } else {
          var env := envs[i];
          var decision := engine.Evaluate(E.Input(line.ip, env.call, env.fault, env.score, env.addWorks));
          WriteResponse(line.request, decision);
        }
        i := i + 1;
      }
      assert lines[..i] == lines && envs[..i] == envs;
    }
  }

  /** Exactly one reply per line, in the order of the lines, whatever the lines are. */
  lemma {:induction false} OneReplyPerLine(cfg: E.Config, st: E.State, lines: seq<Line>, envs: seq<Surroundings>)
    requires |lines| == |envs|
    ensures var replies := Replies(cfg, st, lines, envs);
            && |replies| == |lines|
            && (forall i :: 0 <= i < |lines| ==> replies[i].request == lines[i].request)
            && (forall i :: 0 <= i < |lines| && !lines[i].wellFormed ==> replies[i].decision == ALLOW)
  {
    if lines != [] {
      var n := |lines| - 1;
      OneReplyPerLine(cfg, st, lines[..n], envs[..n]);
    }
  }

  /** The handler's steps of the transition system, a whole turn at a time. */
  function Turns(cfg: E.Config, s: State, c: ConnId, envs: seq<Surroundings>): State {
    if envs == [] then s
    else LoopTurn(cfg, Turns(cfg, s, c, envs[..|envs| - 1]), c, envs[|envs| - 1])
  }

  lemma NextLine(lines: seq<Line>, m: nat)
    requires m < |lines|
    ensures lines[..m + 1][..m] == lines[..m]
    ensures lines[m..][0] == lines[m] && lines[m..][1..] == lines[m + 1..]
  {
  }

  /** The connection after its first lines have been answered. */
  function Answered(cfg: E.Config, k: Conn, st: E.State, envs: seq<Surroundings>): Conn
    requires |envs| <= |k.toEngine|
  {
    k.(toEngine := k.toEngine[|envs|..], toProxy := k.toProxy + Replies(cfg, st, k.toEngine[..|envs|], envs))
  }

  /** One more line answered. */
  lemma AnsweredNext(cfg: E.Config, k: Conn, st: E.State, envs: seq<Surroundings>)
    requires 0 < |envs| <= |k.toEngine|
    ensures var m := |envs| - 1;
            var k', before := Answered(cfg, k, st, envs[..m]), EngineThrough(cfg, st, k.toEngine[..m], envs[..m]);
            && k'.toEngine != [] && k'.toEngine[0] == k.toEngine[m]
            && var entry := EntryFor(cfg, before, k'.toEngine[0], envs[m]);
               && EngineThrough(cfg, st, k.toEngine[..m + 1], envs) == EngineAfter(cfg, before, entry)
               && Answered(cfg, k, st, envs)
                  == k'.(toEngine := k'.toEngine[1..], toProxy := k'.toProxy + [Reply(entry.request, entry.decision)])
  {
    NextLine(k.toEngine, |envs| - 1);
  }

  /** What n turns leave behind. */
  predicate AnsweredBy(cfg: E.Config, s: State, c: ConnId, envs: seq<Surroundings>, s': State)
    requires c in s.conns && |envs| <= |s.conns[c].toEngine|
  {
    && s'.workers == s.workers
    && s'.conns == s.conns[c := Answered(cfg, s.conns[c], s.engine, envs)]
    && s'.engine == EngineThrough(cfg, s.engine, s.conns[c].toEngine[..|envs|], envs)
  }

  lemma TurnAnswersNext(cfg: E.Config, s: State, c: ConnId, envs: seq<Surroundings>, s1: State)
    requires c in s.conns && s.conns[c].handler == Scanning && 0 < |envs| <= |s.conns[c].toEngine|
    requires AnsweredBy(cfg, s, c, envs[..|envs| - 1], s1)
    ensures AnsweredBy(cfg, s, c, envs, LoopTurn(cfg, s1, c, envs[|envs| - 1]))
  {
    AnsweredNext(cfg, s.conns[c], s.engine, envs);
    LoopTurnResult(cfg, s1, c, envs[|envs| - 1]);
  }

  /** The loop and the transition system agree: n turns on a connection consume its first n lines,
      append the loop's replies to them, and leave the engine as the loop leaves it. */
  lemma {:induction false} LoopIsHandlerSteps(cfg: E.Config, s: State, c: ConnId, envs: seq<Surroundings>)
    requires c in s.conns && s.conns[c].handler == Scanning && |envs| <= |s.conns[c].toEngine|
    ensures AnsweredBy(cfg, s, c, envs, Turns(cfg, s, c, envs))
  {
    var k := s.conns[c];
    if envs == [] {
      assert Answered(cfg, k, s.engine, envs) == k;
      assert s.conns == s.conns[c := k];
    } else {
      var m := |envs| - 1;
      LoopIsHandlerSteps(cfg, s, c, envs[..m]);
      TurnAnswersNext(cfg, s, c, envs, Turns(cfg, s, c, envs[..m]));
    }
  }

  // ----- the proxy's side of one exchange --------------------------------------------------

  datatype Status = Unconnected | Open | Pooled | Shut

  datatype Received = NoLine | Got(reply: Reply)

  /** How each blocking call of one `evaluate` turns out. */
  datatype Answers = Answers(encodes: bool, connects: bool, sends: bool, received: Received, decodes: bool)

  datatype Response = Body(reply: Reply) | Error(why: Failure)

  class Cosocket {
    var status: Status
    var written: seq<Line>

    constructor ()
      ensures status == Unconnected && written == []
    {
      status, written := Unconnected, [];
    }

    method Connect(ok: bool)
      requires status == Unconnected
      modifies this`status
      ensures status == if ok then Open else Unconnected
    {
      if ok {
        status := Open;
      }
    }

    method Send(line: Line, ok: bool) returns (sent: bool)
      requires status == Open
      modifies this`written
      ensures sent == ok && written == if ok then old(written) + [line] else old(written)
    {
      if ok {
        written := written + [line];
      }
      sent := ok;
    }

    method Close()
      requires status == Open
      modifies this`status
      ensures status == Shut
    {
      status := Shut;
    }

    method SetKeepalive()
      requires status == Open
      modifies this`status
      ensures status == Pooled
    {
      status := Pooled;
    }
  }

  /** A socket goes back to the pool only after its reply has been read; every other exchange that
      got as far as a connection closes it. */
  method QueryEngine(sock: Cosocket, payload: Line, a: Answers) returns (response: Response)
    requires sock.status == Unconnected && sock.written == []
    modifies sock
    ensures sock.status == Pooled <==> response.Body?
    ensures sock.status == Unconnected <==> response == Error(ConnectFailed)
    ensures sock.status == Shut <==> response == Error(SendFailed) || response == Error(ReadFailed)
    ensures response.Body? ==> a.received == Got(response.reply)
    ensures response.Body? <==> a.connects && a.sends && a.received.Got?
    ensures response == Error(ReadFailed) <==> a.connects && a.sends && a.received.NoLine?
    ensures response == Error(ConnectFailed) <==> !a.connects
    ensures sock.written == if a.connects && a.sends then [payload] else []
  {
    sock.Connect(a.connects);
    if !a.connects {
      return Error(ConnectFailed);
    }
    var sent := sock.Send(payload, a.sends);
    if !sent {
      sock.Close();
      return Error(SendFailed);
    }
    if a.received.NoLine? {
      sock.Close();
      return Error(ReadFailed);
    }
    sock.SetKeepalive();
    return Body(a.received.reply);
  }

  /** Fail-open: a request is turned away only on a reply that was read and decoded and that says
      block or throttle. */
  method EvaluateRequest(payload: Line, a: Answers) returns (outcome: Outcome)
    ensures outcome.Forbidden? <==>
              a.encodes && a.connects && a.sends && a.received.Got? && a.decodes
              && a.received.reply.decision.action == E.Block
    ensures outcome.TooManyRequests? <==>
              a.encodes && a.connects && a.sends && a.received.Got? && a.decodes
              && a.received.reply.decision.action == E.Throttle
    ensures outcome.FailedOpen? <==>
              !(a.encodes && a.connects && a.sends && a.received.Got? && a.decodes)
    ensures !outcome.FailedOpen? ==> outcome.on == a.received.reply && outcome == OutcomeOf(a.received.reply, true)
  {
    if !a.encodes {
      return FailedOpen(EncodeFailed);
    }
    var sock := new Cosocket();
    var response := QueryEngine(sock, payload, a);
    if response.Error? {
      return FailedOpen(response.why);
    }
    if !a.decodes {
      return FailedOpen(DecodeFailed);
    }
    var action := response.reply.decision.action;
    if action == E.Block {
      return Forbidden(response.reply);
    } else if action == E.Throttle {
      return TooManyRequests(response.reply);
    }
    return Passed(response.reply);
  }

  // ----- the proxy's side in the transition system ---------------------------------------------

  /** The steps of one request on an idle connection when its calls turn out so, with one turn of the
      handler in between; what it receives is the handler's reply. */
  function Exchange(cfg: E.Config, s: State, r: RequestId, c: ConnId, a: Answers, env: Surroundings): State {
    if !a.encodes then Do(cfg, s, EncodeFail(r))
    else if !a.connects then Do(cfg, s, ConnectFail(r))
    else if !a.sends then Do(cfg, Do(cfg, s, ConnectPooled(r, c)), SendFail(r, false, true))
    else if a.received.NoLine? then Do(cfg, SendPhase(cfg, s, r, c), ReceiveFail(r))
    else ReceivePhase(cfg, LoopTurn(cfg, SendPhase(cfg, s, r, c), c, env), r, a.decodes)
  }

  /** How far the request gets. */
  predicate Delivered(a: Answers) {
    a.encodes && a.connects && a.sends && a.received.Got?
  }

  lemma FailedExchange(cfg: E.Config, s: State, r: RequestId, c: ConnId, a: Answers, env: Surroundings)
    requires r in s.workers && s.workers[r].phase == Arrived
    requires c in s.conns && s.conns[c] == Conn(Idle, [], [], Scanning) && !Delivered(a)
    ensures var s' := Exchange(cfg, s, r, c, a, env);
            && r in s'.workers && c in s'.conns && s'.engine == s.engine
            && s'.workers[r].phase == Done(FailedOpen(if !a.encodes then EncodeFailed
                                                      else if !a.connects then ConnectFailed
                                                      else if !a.sends then SendFailed else ReadFailed))
            && s'.conns[c].proxy == if a.encodes && a.connects then Closed else Idle
  {
    if a.encodes && a.connects && a.sends {
      SendPhaseResult(cfg, s, r, c);
    }
  }

  lemma DeliveredExchange(cfg: E.Config, s: State, r: RequestId, c: ConnId, a: Answers, env: Surroundings)
    requires r in s.workers && s.workers[r].phase == Arrived
    requires c in s.conns && s.conns[c] == Conn(Idle, [], [], Scanning) && Delivered(a)
    ensures var s' := Exchange(cfg, s, r, c, a, env);
            var entry := EntryFor(cfg, s.engine, Line(r, s.workers[r].ip, true), env);
            && r in s'.workers && c in s'.conns && s'.engine == EngineAfter(cfg, s.engine, entry)
            && s'.workers[r].phase == Done(OutcomeOf(Reply(r, entry.decision), a.decodes))
            && s'.conns[c].proxy == Idle
  {
    var line := Line(r, s.workers[r].ip, true);
    var reply := Reply(r, EntryFor(cfg, s.engine, line, env).decision);
    SendPhaseResult(cfg, s, r, c);
    LoopTurnResult(cfg, SendPhase(cfg, s, r, c), c, env);
    ReceivePhaseResult(cfg, LoopTurn(cfg, SendPhase(cfg, s, r, c), c, env), r, c, reply, a.decodes);
  }

  /** The transition system and the program agree on how every exchange ends, whatever fails in it: with
      the outcome that EvaluateRequest promises for the handler's reply, and with the connection pooled
      again, closed or not used as QueryEngine leaves its socket. */
  lemma ExchangeEndsAsEvaluated(cfg: E.Config, s: State, r: RequestId, c: ConnId, a: Answers, env: Surroundings)
    requires r in s.workers && s.workers[r].phase == Arrived
    requires c in s.conns && s.conns[c] == Conn(Idle, [], [], Scanning)
    ensures var s' := Exchange(cfg, s, r, c, a, env);
            var entry := EntryFor(cfg, s.engine, Line(r, s.workers[r].ip, true), env);
            && r in s'.workers && s'.workers[r].phase.Done? && c in s'.conns
            && var outcome := s'.workers[r].phase.outcome;
               && (outcome.Forbidden? <==> Delivered(a) && a.decodes && entry.decision.action == E.Block)
               && (outcome.TooManyRequests? <==> Delivered(a) && a.decodes && entry.decision.action == E.Throttle)
               && (outcome.Passed? <==> Delivered(a) && a.decodes && entry.decision.action == E.Allow)
               && (outcome.FailedOpen? && a.encodes && a.connects ==>
                     (s'.conns[c].proxy == Closed <==> outcome.why == SendFailed || outcome.why == ReadFailed))
               && (outcome == FailedOpen(DecodeFailed) <==> Delivered(a) && !a.decodes)
               && (!Delivered(a) ==> s'.engine == s.engine)
  {
    if Delivered(a) {
      DeliveredExchange(cfg, s, r, c, a, env);
    } else {
      FailedExchange(cfg, s, r, c, a, env);
    }
  }
}
