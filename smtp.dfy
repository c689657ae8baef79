/**
 * The public face of the library: a `SessionBuilder` holds the server's
 * configuration, and each connection gets a `Session` that turns client lines
 * into replies by way of the state machine.
 *
 * The session's handler is the callback record of `Mailin`; the calls the
 * session has made into it so far are kept in `calls`, which is what the
 * handler's own state would have seen.
 */
module Smtp {
  import opened Wrappers
  import opened Bytes
  import opened Replies
  import opened Mailin
  import opened Fsm
  import FsmProperties
  import Commands

  //---- One line, as a function -----------------------------------------------------------

  /**
   * `Session::process`: read the line in the current state; a parsed command is
   * then run, anything else is the reply.
   */
  function SessionStep(cfg: Config, m: Machine, h: Handler, log: seq<Call>, line: seq<Byte>): Outcome
  {
    var read := ReadLine(m, h, log, line);
    match read.result
    case ToCommand(cmd) => Step(cfg, m, h, read.log, cmd)
    case Replied(response) => Outcome(response, m, read.log)
  }

  /** A line answered without a command (a parse error, a message line) leaves the state as it was. */
  lemma RepliedLineKeepsState(cfg: Config, m: Machine, h: Handler, log: seq<Call>, line: seq<Byte>)
    requires ReadLine(m, h, log, line).result.Replied?
    ensures SessionStep(cfg, m, h, log, line).machine == m
    ensures SessionStep(cfg, m, h, log, line).response == ReadLine(m, h, log, line).result.response
  {
  }

  /** Every line keeps the session invariant. */
  lemma ProcessKeepsValid(cfg: Config, m: Machine, h: Handler, log: seq<Call>, line: seq<Byte>)
    requires FsmProperties.Valid(cfg, m)
    ensures FsmProperties.Valid(cfg, SessionStep(cfg, m, h, log, line).machine)
  {
    var read := ReadLine(m, h, log, line);
    if read.result.ToCommand? {
      FsmProperties.StepPreservesValid(cfg, m, h, read.log, read.result.cmd);
    }
  }

  /** Outside the Auth state a session ends exactly when a line is answered with Close. */
  lemma ProcessEndsOnClose(cfg: Config, m: Machine, h: Handler, log: seq<Call>, line: seq<Byte>)
    requires m.smtp.Some? && !m.smtp.value.Auth?
    ensures var o := SessionStep(cfg, m, h, log, line);
      o.machine.smtp.None? <==> o.response.action == Close
  {
    var read := ReadLine(m, h, log, line);
    match read.result {
      case ToCommand(cmd) =>
        FsmProperties.Facts(cfg, m, h, read.log, cmd);
      case Replied(response) =>
        ReadLineReplies(m, h, log, line);
    }
  }

  /** The replies a live session gives to a line without running a command never close it. */
  lemma ReadLineReplies(m: Machine, h: Handler, log: seq<Call>, line: seq<Byte>)
    requires m.smtp.Some?
    ensures var read := ReadLine(m, h, log, line);
      read.result.Replied? ==> read.result.response.action != Close
  {
    var read := ReadLine(m, h, log, line);
    if read.result.Replied? {
      match m.smtp.value {
        case Auth(_, _) =>
        case Data(_) =>
        case _ =>
          assert read.result.response == SYNTAX_ERROR;
      }
    }
  }

  //---- The builder -------------------------------------------------------------------------

  class SessionBuilder {
    var name: Str
    var startTlsExtension: bool
    var authMechanisms: seq<AuthMechanism>

    /** `SessionBuilder::new`: no STARTTLS, no authentication. */
    constructor (name: Str)
      ensures this.name == name && !startTlsExtension && authMechanisms == []
    {
      this.name := name;
      startTlsExtension := false;
      authMechanisms := [];
    }

    method EnableStartTls()
      modifies this
      ensures startTlsExtension
      ensures name == old(name) && authMechanisms == old(authMechanisms)
    {
      startTlsExtension := true;
    }

    /** Mechanisms are kept in the order enabled; enabling one twice lists it twice. */
    method EnableAuth(auth: AuthMechanism)
      modifies this
      ensures authMechanisms == old(authMechanisms) + [auth]
      ensures name == old(name) && startTlsExtension == old(startTlsExtension)
    {
      authMechanisms := authMechanisms + [auth];
    }

    /** A new session for a client at `remote`, with this configuration and no calls made yet. */
    method Build(remote: IpAddr, handler: Handler) returns (s: Session)
      ensures fresh(s) && fresh(s.fsm)
      ensures s.name == name && s.handler == handler && s.calls == []
      ensures s.fsm.Cfg() == NewConfig(remote, authMechanisms)
      ensures s.fsm.Snapshot() == NewMachine(authMechanisms, startTlsExtension)
      ensures FsmProperties.Valid(s.fsm.Cfg(), s.fsm.Snapshot()) && s.fsm.Valid()
    {
      var fsm := new StateMachine(remote, authMechanisms, startTlsExtension);
      s := new Session(name, handler, fsm);
      FsmProperties.NewSessionValid(remote, authMechanisms, startTlsExtension);
    }
  }

  //---- The session -------------------------------------------------------------------------

  class Session {
    const name: Str
    const handler: Handler
    const fsm: StateMachine
    var calls: seq<Call>

    constructor (name: Str, handler: Handler, fsm: StateMachine)
      ensures this.name == name && this.handler == handler && this.fsm == fsm && calls == []
    {
      this.name := name;
      this.handler := handler;
      this.fsm := fsm;
      calls := [];
    }

    /** The 220 greeting, naming the server. */
    function Greeting(): (r: Response)
      ensures r.code == 220 && !r.isError && r.action == Reply
      ensures Texts(r) == [name + B(" ESMTP")]
    {
      DynamicReply(220, name + B(" ESMTP"), [])
    }

    /** The connection now runs over TLS: the machine is told, and the reply is dropped. */
    method TlsActive()
      modifies this, fsm
      ensures var o := Step(fsm.Cfg(), old(fsm.Snapshot()), handler, old(calls), Commands.StartedTls);
        fsm.Snapshot() == o.machine && calls == o.log
    {
      var _, log := fsm.Command(handler, calls, Commands.StartedTls);
      calls := log;
    }

    /** One line from the client and the reply to write back. */
    method Process(line: seq<Byte>) returns (response: Response)
      modifies this, fsm
      ensures Outcome(response, fsm.Snapshot(), calls) == SessionStep(fsm.Cfg(), old(fsm.Snapshot()), handler, old(calls), line)
    {
      var result, log := fsm.ProcessLine(handler, calls, line);
      match result {
        case ToCommand(cmd) =>
          response, log := fsm.Command(handler, log, cmd);
        case Replied(r) =>
          response := r;
      }
      calls := log;
    }
  }
}
