/**
 * The SMTP session state machine: the states of a session, how each state
 * answers each command (consulting the handler), and how lines are read in
 * each state.
 *
 * The per-state handling is a pure map from the session (its flags and its
 * current state), the handler and the command to the reply, the successor
 * state and the calls made to the handler. `StateMachine` is the mutable
 * object that holds the session and applies those steps in place.
 */
module Fsm {
  import opened Wrappers
  import opened Bytes
  import opened Replies
  import opened Mailin
  import Commands
  import Parser

  type Cmd = Commands.Cmd

  datatype TlsState = TlsUnavailable | TlsInactive | TlsActive

  datatype AuthState = AuthUnavailable | RequiresAuth | Authenticated

  /** The states of a session; a finished session has no state at all (`None` below). */
  datatype State =
    | Idle
    | Hello(domain: Str)
    | HelloAuth(domain: Str)
    | Auth(domain: Str, mechanism: AuthMechanism)
    | Mail(domain: Str, reversePath: Str, is8bit: bool)
    | Rcpt(domain: Str, reversePath: Str, is8bit: bool, forwardPath: seq<Str>)
    | Data(domain: Str)

  /** What a session is configured with and never changes. */
  datatype Config = Config(ip: IpAddr, authMechanisms: seq<AuthMechanism>, authPlain: bool)

  /** What a session changes: its flags and its state. */
  datatype Machine = Machine(authState: AuthState, tls: TlsState, smtp: Option<State>)

  /** A command's reply, the session after it, and the handler calls up to then. */
  datatype Outcome = Outcome(response: Response, machine: Machine, log: seq<Call>)

  /** What reading a line gives: a command to run, or a reply to send straight back. */
  datatype LineResult = ToCommand(cmd: Cmd) | Replied(response: Response)

  datatype LineOutcome = LineOutcome(result: LineResult, log: seq<Call>)

  //---- Construction ------------------------------------------------------------------

  function NewConfig(ip: IpAddr, authMechanisms: seq<AuthMechanism>): (cfg: Config)
    ensures cfg.ip == ip && cfg.authMechanisms == authMechanisms
    ensures cfg.authPlain <==> Plain in authMechanisms
  {
    Config(ip, authMechanisms, Plain in authMechanisms)
  }

  /** A new session: Idle, authentication required iff a mechanism is configured, TLS per the builder. */
  function NewMachine(authMechanisms: seq<AuthMechanism>, allowStartTls: bool): (m: Machine)
    ensures m.smtp == Some(Idle)
    ensures m.authState == (if authMechanisms == [] then AuthUnavailable else RequiresAuth)
    ensures m.tls == (if allowStartTls then TlsInactive else TlsUnavailable)
  {
    Machine(if authMechanisms == [] then AuthUnavailable else RequiresAuth,
            if allowStartTls then TlsInactive else TlsUnavailable,
            Some(Idle))
  }

  /** AUTH PLAIN is offered only once TLS is active. */
  function AllowAuthPlain(cfg: Config, m: Machine): bool
  {
    cfg.authPlain && m.tls == TlsActive
  }

  //---- Replies and successors ---------------------------------------------------------

  /**
   * `next_state` and `transform_state`: a Close reply ends the session, an error
   * reply keeps the current state, any other reply moves to the successor.
   */
  function NextState(current: State, res: Response, successor: State): (r: Option<State>)
    ensures r.None? <==> res.action == Close
    ensures r.Some? ==> (r.value == current || r.value == successor)
    ensures r.Some? && current != successor ==> (r.value == successor <==> !res.isError)
  {
    if res.action == Close then None
    else if res.isError then Some(current)
    else Some(successor)
  }

  /** Answer `res` and move by `NextState`. */
  function Route(m: Machine, current: State, res: Response, successor: State, log: seq<Call>): Outcome
  {
    Outcome(res, m.(smtp := NextState(current, res, successor)), log)
  }

  /** `unhandled`: 503 and the state stays. */
  function Unhandled(m: Machine, current: State, log: seq<Call>): Outcome
  {
    Outcome(BAD_SEQUENCE_COMMANDS, m.(smtp := Some(current)), log)
  }

  /** `handle_rset`: 250, back to the greeted state, with or without authentication. */
  function HandleRset(m: Machine, domain: Str, log: seq<Call>): Outcome
  {
    Outcome(OK, m.(smtp := Some(if m.authState == AuthUnavailable then Hello(domain) else HelloAuth(domain))), log)
  }

  /** `handle_helo`: refused when authentication is configured, since such clients must use EHLO. */
  function HandleHelo(cfg: Config, m: Machine, current: State, h: Handler, log: seq<Call>, domain: Str): Outcome
  {
    if m.authState == AuthUnavailable then
      Route(m, current, h.helo(log, cfg.ip, domain), Hello(domain), log + [HeloCall(cfg.ip, domain)])
    else
      Outcome(BAD_HELLO, m.(smtp := Some(current)), log)
  }

  /** The extension keywords of the EHLO reply. */
  function Extensions(tls: TlsState, mechanisms: seq<AuthMechanism>): seq<Str>
  {
    [B("8BITMIME")] +
    if tls == TlsInactive then [B("STARTTLS")]
    else seq(|mechanisms|, i requires 0 <= i < |mechanisms| => Extension(mechanisms[i]))
  }

  /** `ehlo_response`. */
  function EhloReply(tls: TlsState, mechanisms: seq<AuthMechanism>): Response
  {
    DynamicReply(250, B("server offers extensions:"), Extensions(tls, mechanisms))
  }

  /** `handle_ehlo`: a 250 from the handler becomes the extension list. */
  function HandleEhlo(cfg: Config, m: Machine, current: State, h: Handler, log: seq<Call>, domain: Str): Outcome
  {
    var res := h.helo(log, cfg.ip, domain);
    var reply := if res.code == 250 then EhloReply(m.tls, cfg.authMechanisms) else res;
    var successor := if m.authState == AuthUnavailable then Hello(domain) else HelloAuth(domain);
    Route(m, current, reply, successor, log + [HeloCall(cfg.ip, domain)])
  }

  /** `default_handler`: QUIT, HELO and EHLO in every state that does not handle them itself. */
  function DefaultHandling(cfg: Config, m: Machine, current: State, h: Handler, log: seq<Call>, cmd: Cmd): Outcome
  {
    match cmd
    case Quit => Outcome(GOODBYE, m.(smtp := None), log)
    case Helo(domain) => HandleHelo(cfg, m, current, h, log, domain)
    case Ehlo(domain) => HandleEhlo(cfg, m, current, h, log, domain)
    case _ => Unhandled(m, current, log)
  }

  /** `authenticate`: the handler judges the credentials; only 235 authenticates. */
  function Authenticate(m: Machine, h: Handler, log: seq<Call>, creds: Commands.Credentials): Outcome
  {
    var res := h.authPlain(log, creds.authorizationId, creds.authenticationId, creds.password);
    Outcome(res, m.(authState := if res.code == 235 then Authenticated else RequiresAuth),
            log + [AuthPlainCall(creds.authorizationId, creds.authenticationId, creds.password)])
  }

  //---- The states ---------------------------------------------------------------------

  function HandleIdle(cfg: Config, m: Machine, h: Handler, log: seq<Call>, cmd: Cmd): Outcome
  {
    match cmd
    case StartedTls => Outcome(EMPTY_RESPONSE, m.(tls := TlsActive, smtp := Some(Idle)), log)
    case Rset => Outcome(OK, m.(smtp := Some(Idle)), log)
    case _ => DefaultHandling(cfg, m, Idle, h, log, cmd)
  }

  function HandleHello(cfg: Config, m: Machine, domain: Str, h: Handler, log: seq<Call>, cmd: Cmd): Outcome
  {
    var current := Hello(domain);
    match cmd
    case Mail(reversePath, is8bit) =>
      Route(m, current, h.mail(log, cfg.ip, domain, reversePath), Mail(domain, reversePath, is8bit),
            log + [MailCall(cfg.ip, domain, reversePath)])
    case StartTls =>
      if m.tls == TlsInactive then Outcome(START_TLS, m.(smtp := Some(Idle)), log)
      else DefaultHandling(cfg, m, current, h, log, cmd)
    case Vrfy => Outcome(VERIFY_RESPONSE, m.(smtp := Some(current)), log)
    case Rset => HandleRset(m, domain, log)
    case _ => DefaultHandling(cfg, m, current, h, log, cmd)
  }

  function HandleHelloAuth(cfg: Config, m: Machine, domain: Str, h: Handler, log: seq<Call>, cmd: Cmd): Outcome
  {
    var current := HelloAuth(domain);
    match cmd
    case StartTls => Outcome(START_TLS, m.(smtp := Some(Idle)), log)
    case AuthPlain(authz, authc, password) =>
      if AllowAuthPlain(cfg, m) then
        var o := Authenticate(m, h, log, Commands.Credentials(authz, authc, password));
        Route(o.machine, current, o.response, Hello(domain), o.log)
      else DefaultHandling(cfg, m, current, h, log, cmd)
    case AuthPlainEmpty =>
      if AllowAuthPlain(cfg, m) then Outcome(EMPTY_AUTH_CHALLENGE, m.(smtp := Some(Auth(domain, Plain))), log)
      else DefaultHandling(cfg, m, current, h, log, cmd)
    case Rset => HandleRset(m, domain, log)
    case _ => DefaultHandling(cfg, m, current, h, log, cmd)
  }

  /** The Auth state waits for the response to the empty challenge and nothing else. */
  function HandleAuth(m: Machine, domain: Str, mechanism: AuthMechanism, h: Handler, log: seq<Call>, cmd: Cmd): Outcome
  {
    match cmd
    case AuthResponse(response) =>
      var o := match mechanism case Plain => Authenticate(m, h, log, Parser.DecodeSaslPlain(response));
      var successor := if o.response.isError then HelloAuth(domain) else Hello(domain);
      Outcome(o.response, o.machine.(smtp := Some(successor)), o.log)
    case _ => Unhandled(m, Auth(domain, mechanism), log)
  }

  function HandleMail(cfg: Config, m: Machine, domain: Str, reversePath: Str, is8bit: bool,
                      h: Handler, log: seq<Call>, cmd: Cmd): Outcome
  {
    var current := Mail(domain, reversePath, is8bit);
    match cmd
    case Rcpt(forwardPath) =>
      Route(m, current, h.rcpt(log, forwardPath), Rcpt(domain, reversePath, is8bit, [forwardPath]),
            log + [RcptCall(forwardPath)])
    case Rset => HandleRset(m, domain, log)
    case _ => DefaultHandling(cfg, m, current, h, log, cmd)
  }

  function HandleRcpt(cfg: Config, m: Machine, domain: Str, reversePath: Str, is8bit: bool, forwardPath: seq<Str>,
                      h: Handler, log: seq<Call>, cmd: Cmd): Outcome
  {
    var current := Rcpt(domain, reversePath, is8bit, forwardPath);
    match cmd
    case Data =>
      var res := h.dataStart(log, domain, reversePath, is8bit, forwardPath);
      Route(m, current, if res.isError then res else START_DATA, Data(domain),
            log + [DataStartCall(domain, reversePath, is8bit, forwardPath)])
    case Rcpt(next) =>
      Route(m, current, h.rcpt(log, next), Rcpt(domain, reversePath, is8bit, forwardPath + [next]),
            log + [RcptCall(next)])
    case Rset => HandleRset(m, domain, log)
    case _ => DefaultHandling(cfg, m, current, h, log, cmd)
  }

  function HandleData(m: Machine, domain: Str, h: Handler, log: seq<Call>, cmd: Cmd): Outcome
  {
    match cmd
    case DataEnd => Route(m, Data(domain), h.dataEnd(log), Hello(domain), log + [DataEndCall])
    case _ => Unhandled(m, Data(domain), log)
  }

  /** `State::handle`, by state. */
  function Handle(cfg: Config, m: Machine, s: State, h: Handler, log: seq<Call>, cmd: Cmd): Outcome
  {
    match s
    case Idle => HandleIdle(cfg, m, h, log, cmd)
    case Hello(domain) => HandleHello(cfg, m, domain, h, log, cmd)
    case HelloAuth(domain) => HandleHelloAuth(cfg, m, domain, h, log, cmd)
    case Auth(domain, mechanism) => HandleAuth(m, domain, mechanism, h, log, cmd)
    case Mail(domain, reversePath, is8bit) => HandleMail(cfg, m, domain, reversePath, is8bit, h, log, cmd)
    case Rcpt(domain, reversePath, is8bit, forwardPath) =>
      HandleRcpt(cfg, m, domain, reversePath, is8bit, forwardPath, h, log, cmd)
    case Data(domain) => HandleData(m, domain, h, log, cmd)
  }

  /** `StateMachine::command`: a finished session answers 421 and stays finished. */
  function Step(cfg: Config, m: Machine, h: Handler, log: seq<Call>, cmd: Cmd): Outcome
  {
    match m.smtp
    case None => Outcome(INVALID_STATE, m, log)
    case Some(s) => Handle(cfg, m, s, h, log, cmd)
  }

  //---- Reading lines ------------------------------------------------------------------

  /** The line that ends the message text. */
  const END_OF_DATA: seq<Byte> := [DOT, CR, LF]

  /** Removal of the transparency dot (RFC 5321, section 4.5.2). */
  function Unstuff(line: seq<Byte>): seq<Byte>
  {
    if |line| > 0 && line[0] == DOT then line[1..] else line
  }

  /** The client's side of section 4.5.2 of RFC 5321: a line starting with a dot gets one more. */
  function Stuff(line: seq<Byte>): seq<Byte>
  {
    if |line| > 0 && line[0] == DOT then [DOT] + line else line
  }

  /** `process_line` of the Data state: the end line is a command, any other line is message text. */
  function DataLine(h: Handler, log: seq<Call>, line: seq<Byte>): LineOutcome
  {
    if line == END_OF_DATA then LineOutcome(ToCommand(Commands.DataEnd), log)
    else
      var text := Unstuff(line);
      var stored := h.data(log, text);
      LineOutcome(Replied(if stored then EMPTY_RESPONSE else TRANSACTION_FAILED), log + [DataCall(text)])
  }

  /** `StateMachine::process_line`, by state. */
  function ReadLine(m: Machine, h: Handler, log: seq<Call>, line: seq<Byte>): LineOutcome
  {
    match m.smtp
    case None => LineOutcome(Replied(INVALID_STATE), log)
    case Some(Auth(_, _)) =>
      (match Parser.ParseAuthResponse(line)
       case Ok(response) => LineOutcome(ToCommand(Commands.AuthResponse(response)), log)
       case Err(e) => LineOutcome(Replied(e), log))
    case Some(Data(_)) => DataLine(h, log, line)
    case Some(_) =>
      (match Parser.Parse(line)
       case Ok(c) => LineOutcome(ToCommand(c), log)
       case Err(e) => LineOutcome(Replied(e), log))
  }

  //---- The mutable state machine ----------------------------------------------------

  class StateMachine {
    const ip: IpAddr
    const authMechanisms: seq<AuthMechanism>
    var authState: AuthState
    var tls: TlsState
    var smtp: Option<State>
    const authPlain: bool

    function Cfg(): Config
    {
      Config(ip, authMechanisms, authPlain)
    }

    function Snapshot(): Machine
      reads this
    {
      Machine(authState, tls, smtp)
    }

    /** The cached flag says whether PLAIN is among the configured mechanisms. */
    predicate Valid()
    {
      authPlain == (Plain in authMechanisms)
    }

    constructor (ip: IpAddr, authMechanisms: seq<AuthMechanism>, allowStartTls: bool)
      ensures Cfg() == NewConfig(ip, authMechanisms)
      ensures Snapshot() == NewMachine(authMechanisms, allowStartTls)
      ensures Valid()
    {
      this.ip := ip;
      this.authMechanisms := authMechanisms;
      authState := if authMechanisms == [] then AuthUnavailable else RequiresAuth;
      tls := if allowStartTls then TlsInactive else TlsUnavailable;
      smtp := Some(Idle);
      authPlain := Plain in authMechanisms;
    }

    /** Take the state out, let it handle the command, and put back whatever it returns. */
    method Command(h: Handler, log: seq<Call>, cmd: Cmd) returns (response: Response, calls: seq<Call>)
      modifies this
      ensures Outcome(response, Snapshot(), calls) == Step(Cfg(), old(Snapshot()), h, log, cmd)
    {
      var before := Snapshot();
      var last := smtp;
      smtp := None;
      match last {
        case None =>
          response, calls := INVALID_STATE, log;
        case Some(s) =>
          var o := Handle(Cfg(), before, s, h, log, cmd);
          authState, tls, smtp := o.machine.authState, o.machine.tls, o.machine.smtp;
          response, calls := o.response, o.log;
      }
    }

    method ProcessLine(h: Handler, log: seq<Call>, line: seq<Byte>) returns (result: LineResult, calls: seq<Call>)
      ensures LineOutcome(result, calls) == ReadLine(Snapshot(), h, log, line)
    {
      var o := ReadLine(Snapshot(), h, log, line);
      result, calls := o.result, o.log;
    }

    /** `ehlo_response`: 8BITMIME, then STARTTLS or one line per mechanism. */
    method EhloResponse() returns (r: Response)
      ensures r == EhloReply(tls, authMechanisms)
    {
      var extensions := [B("8BITMIME")];
      if tls == TlsInactive {
        extensions := extensions + [B("STARTTLS")];
      } else {
        var i := 0;
        while i < |authMechanisms|
          invariant 0 <= i <= |authMechanisms|
          invariant extensions == [B("8BITMIME")] + seq(i, k requires 0 <= k < i => Extension(authMechanisms[k]))
        {
          extensions := extensions + [Extension(authMechanisms[i])];
          i := i + 1;
        }
      }
      r := DynamicReply(250, B("server offers extensions:"), extensions);
    }

    /** `allow_auth_plain`: PLAIN is configured and the connection is already encrypted. */
    function AllowsAuthPlain(): (r: bool)
      requires Valid()
      reads this
      ensures r <==> Plain in authMechanisms && tls == TlsActive
      ensures r == AllowAuthPlain(Cfg(), Snapshot())
    {
      authPlain && tls == TlsActive
    }
  }
}
