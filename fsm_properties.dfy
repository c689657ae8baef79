/**
 * What the state machine promises, over every session, handler and command:
 * how replies route the session, which commands each state takes, the
 * recipient list, message lines, authentication, the EHLO reply and RSET.
 */
module FsmProperties {
  import opened Wrappers
  import opened Bytes
  import opened Replies
  import opened Mailin
  import opened Fsm
  import Commands
  import Parser

  //---- The session invariant ----------------------------------------------------------

  /**
   * What holds of every session built by `StateMachine::new` and kept by every
   * command: the flags agree with the configuration, a recipient list is never
   * empty, and the authentication states are only reached with authentication on.
   */
  predicate Valid(cfg: Config, m: Machine)
  {
    && (cfg.authPlain <==> Plain in cfg.authMechanisms)
    && (m.authState == AuthUnavailable <==> cfg.authMechanisms == [])
    && (m.smtp.Some? && m.smtp.value.Rcpt? ==> m.smtp.value.forwardPath != [])
    && (m.smtp.Some? && m.smtp.value.HelloAuth? ==> m.authState != AuthUnavailable)
    && (m.smtp.Some? && m.smtp.value.Auth? ==> cfg.authPlain && m.tls == TlsActive)
  }

  lemma NewSessionValid(ip: IpAddr, authMechanisms: seq<AuthMechanism>, allowStartTls: bool)
    ensures Valid(NewConfig(ip, authMechanisms), NewMachine(authMechanisms, allowStartTls))
  {
  }

  /** Every command keeps the invariant; reading a line changes no state at all. */
  lemma StepPreservesValid(cfg: Config, m: Machine, h: Handler, log: seq<Call>, cmd: Commands.Cmd)
    requires Valid(cfg, m)
    ensures Valid(cfg, Step(cfg, m, h, log, cmd).machine)
  {
    if m.smtp.Some? {
      Facts(cfg, m, h, log, cmd);
    }
  }

  //---- Facts of one step, state by state ---------------------------------------------

  /**
   * What one command does in a live session, whatever the state: the session
   * ends exactly on Close (Auth excepted), an error keeps the state, the
   * invariant is kept, only 235 authenticates, only StartedTls in Idle changes
   * TLS, and 503 with nothing changed is exactly the commands the state does
   * not take.
   */
  predicate StepFacts(cfg: Config, m: Machine, h: Handler, log: seq<Call>, cmd: Commands.Cmd)
    requires m.smtp.Some?
  {
    && StepRoutes(cfg, m, h, log, cmd)
    && (Valid(cfg, m) ==> Valid(cfg, Step(cfg, m, h, log, cmd).machine))
    && StepRefuses(cfg, m, h, log, cmd)
  }

  /** How the reply routes the session, and what the step keeps. */
  predicate StepRoutes(cfg: Config, m: Machine, h: Handler, log: seq<Call>, cmd: Commands.Cmd)
    requires m.smtp.Some?
  {
    var o := Step(cfg, m, h, log, cmd);
    && (o.machine.smtp.None? ==> o.response.action == Close)
    && (!m.smtp.value.Auth? && o.response.action == Close ==> o.machine.smtp.None?)
    && (!m.smtp.value.Auth? && o.response.isError && o.response.action != Close ==> o.machine.smtp == m.smtp)
    && (m.authState != Authenticated && o.machine.authState == Authenticated ==>
          o.response.code == 235 && |o.log| == |log| + 1 && o.log[|log|].AuthPlainCall?)
    && (o.machine.tls != m.tls ==> m.smtp == Some(Idle) && cmd.StartedTls? && o.machine.tls == TlsActive)
  }

  /** 503 with nothing changed is exactly the commands the state does not take. */
  predicate StepRefuses(cfg: Config, m: Machine, h: Handler, log: seq<Call>, cmd: Commands.Cmd)
    requires m.smtp.Some?
  {
    Step(cfg, m, h, log, cmd) == Outcome(BAD_SEQUENCE_COMMANDS, m, log) <==> !Accepts(cfg, m, m.smtp.value, cmd)
  }

  lemma Facts(cfg: Config, m: Machine, h: Handler, log: seq<Call>, cmd: Commands.Cmd)
    requires m.smtp.Some?
    ensures StepFacts(cfg, m, h, log, cmd)
  {
    match m.smtp.value {
      case Idle =>
        IdleRoutes(cfg, m, h, log, cmd);
        IdleRefuses(cfg, m, h, log, cmd);
        if Valid(cfg, m) { IdleKeepsValid(cfg, m, h, log, cmd); }
      case Hello(_) =>
        HelloRoutes(cfg, m, h, log, cmd);
        HelloRefuses(cfg, m, h, log, cmd);
        if Valid(cfg, m) { HelloKeepsValid(cfg, m, h, log, cmd); }
      case HelloAuth(_) =>
        HelloAuthRoutes(cfg, m, h, log, cmd);
        HelloAuthRefuses(cfg, m, h, log, cmd);
        if Valid(cfg, m) { HelloAuthKeepsValid(cfg, m, h, log, cmd); }
      case Auth(_, _) =>
        AuthRoutes(cfg, m, h, log, cmd);
        AuthRefuses(cfg, m, h, log, cmd);
        if Valid(cfg, m) { AuthKeepsValid(cfg, m, h, log, cmd); }
      case Mail(_, _, _) =>
        MailRoutes(cfg, m, h, log, cmd);
        MailRefuses(cfg, m, h, log, cmd);
        if Valid(cfg, m) { MailKeepsValid(cfg, m, h, log, cmd); }
      case Rcpt(_, _, _, _) =>
        RcptRoutes(cfg, m, h, log, cmd);
        RcptRefuses(cfg, m, h, log, cmd);
        if Valid(cfg, m) { RcptKeepsValid(cfg, m, h, log, cmd); }
      case Data(_) =>
        DataRoutes(cfg, m, h, log, cmd);
        DataRefuses(cfg, m, h, log, cmd);
        if Valid(cfg, m) { DataKeepsValid(cfg, m, h, log, cmd); }
    }
  }

  /** A reply the handler did not choose is never the 503 of an unhandled command, unless it is one. */
  lemma FixedRepliesDiffer()
    ensures BAD_SEQUENCE_COMMANDS != GOODBYE && BAD_SEQUENCE_COMMANDS != OK && BAD_SEQUENCE_COMMANDS != EMPTY_RESPONSE
    ensures BAD_SEQUENCE_COMMANDS != VERIFY_RESPONSE && BAD_SEQUENCE_COMMANDS != START_TLS
    ensures BAD_SEQUENCE_COMMANDS != EMPTY_AUTH_CHALLENGE && BAD_SEQUENCE_COMMANDS != BAD_HELLO
  {
  }

  lemma IdleRoutes(cfg: Config, m: Machine, h: Handler, log: seq<Call>, cmd: Commands.Cmd)
    requires m.smtp == Some(Idle)
    ensures StepRoutes(cfg, m, h, log, cmd)
  {
    FixedRepliesDiffer();
  }

  lemma IdleKeepsValid(cfg: Config, m: Machine, h: Handler, log: seq<Call>, cmd: Commands.Cmd)
    requires m.smtp == Some(Idle) && Valid(cfg, m)
    ensures Valid(cfg, Step(cfg, m, h, log, cmd).machine)
  {
  }

  lemma IdleRefuses(cfg: Config, m: Machine, h: Handler, log: seq<Call>, cmd: Commands.Cmd)
    requires m.smtp == Some(Idle)
    ensures StepRefuses(cfg, m, h, log, cmd)
  {
    FixedRepliesDiffer();
  }

  lemma HelloRoutes(cfg: Config, m: Machine, h: Handler, log: seq<Call>, cmd: Commands.Cmd)
    requires m.smtp.Some? && m.smtp.value.Hello?
    ensures StepRoutes(cfg, m, h, log, cmd)
  {
    FixedRepliesDiffer();
  }

  lemma HelloKeepsValid(cfg: Config, m: Machine, h: Handler, log: seq<Call>, cmd: Commands.Cmd)
    requires m.smtp.Some? && m.smtp.value.Hello? && Valid(cfg, m)
    ensures Valid(cfg, Step(cfg, m, h, log, cmd).machine)
  {
  }

  lemma HelloRefuses(cfg: Config, m: Machine, h: Handler, log: seq<Call>, cmd: Commands.Cmd)
    requires m.smtp.Some? && m.smtp.value.Hello?
    ensures StepRefuses(cfg, m, h, log, cmd)
  {
    FixedRepliesDiffer();
  }

  lemma HelloAuthRoutes(cfg: Config, m: Machine, h: Handler, log: seq<Call>, cmd: Commands.Cmd)
    requires m.smtp.Some? && m.smtp.value.HelloAuth?
    ensures StepRoutes(cfg, m, h, log, cmd)
  {
    FixedRepliesDiffer();
  }

  lemma HelloAuthKeepsValid(cfg: Config, m: Machine, h: Handler, log: seq<Call>, cmd: Commands.Cmd)
    requires m.smtp.Some? && m.smtp.value.HelloAuth? && Valid(cfg, m)
    ensures Valid(cfg, Step(cfg, m, h, log, cmd).machine)
  {
  }

  lemma HelloAuthRefuses(cfg: Config, m: Machine, h: Handler, log: seq<Call>, cmd: Commands.Cmd)
    requires m.smtp.Some? && m.smtp.value.HelloAuth?
    ensures StepRefuses(cfg, m, h, log, cmd)
  {
    FixedRepliesDiffer();
  }

  lemma AuthRoutes(cfg: Config, m: Machine, h: Handler, log: seq<Call>, cmd: Commands.Cmd)
    requires m.smtp.Some? && m.smtp.value.Auth?
    ensures StepRoutes(cfg, m, h, log, cmd)
  {
    FixedRepliesDiffer();
  }

  lemma AuthKeepsValid(cfg: Config, m: Machine, h: Handler, log: seq<Call>, cmd: Commands.Cmd)
    requires m.smtp.Some? && m.smtp.value.Auth? && Valid(cfg, m)
    ensures Valid(cfg, Step(cfg, m, h, log, cmd).machine)
  {
  }

  lemma AuthRefuses(cfg: Config, m: Machine, h: Handler, log: seq<Call>, cmd: Commands.Cmd)
    requires m.smtp.Some? && m.smtp.value.Auth?
    ensures StepRefuses(cfg, m, h, log, cmd)
  {
    FixedRepliesDiffer();
  }

  lemma MailRoutes(cfg: Config, m: Machine, h: Handler, log: seq<Call>, cmd: Commands.Cmd)
    requires m.smtp.Some? && m.smtp.value.Mail?
    ensures StepRoutes(cfg, m, h, log, cmd)
  {
    FixedRepliesDiffer();
  }

  lemma MailKeepsValid(cfg: Config, m: Machine, h: Handler, log: seq<Call>, cmd: Commands.Cmd)
    requires m.smtp.Some? && m.smtp.value.Mail? && Valid(cfg, m)
    ensures Valid(cfg, Step(cfg, m, h, log, cmd).machine)
  {
  }

  lemma MailRefuses(cfg: Config, m: Machine, h: Handler, log: seq<Call>, cmd: Commands.Cmd)
    requires m.smtp.Some? && m.smtp.value.Mail?
    ensures StepRefuses(cfg, m, h, log, cmd)
  {
    FixedRepliesDiffer();
  }

  lemma RcptRoutes(cfg: Config, m: Machine, h: Handler, log: seq<Call>, cmd: Commands.Cmd)
    requires m.smtp.Some? && m.smtp.value.Rcpt?
    ensures StepRoutes(cfg, m, h, log, cmd)
  {
    FixedRepliesDiffer();
  }

  lemma RcptKeepsValid(cfg: Config, m: Machine, h: Handler, log: seq<Call>, cmd: Commands.Cmd)
    requires m.smtp.Some? && m.smtp.value.Rcpt? && Valid(cfg, m)
    ensures Valid(cfg, Step(cfg, m, h, log, cmd).machine)
  {
  }

  lemma RcptRefuses(cfg: Config, m: Machine, h: Handler, log: seq<Call>, cmd: Commands.Cmd)
    requires m.smtp.Some? && m.smtp.value.Rcpt?
    ensures StepRefuses(cfg, m, h, log, cmd)
  {
    FixedRepliesDiffer();
  }

  lemma DataRoutes(cfg: Config, m: Machine, h: Handler, log: seq<Call>, cmd: Commands.Cmd)
    requires m.smtp.Some? && m.smtp.value.Data?
    ensures StepRoutes(cfg, m, h, log, cmd)
  {
    FixedRepliesDiffer();
  }

  lemma DataKeepsValid(cfg: Config, m: Machine, h: Handler, log: seq<Call>, cmd: Commands.Cmd)
    requires m.smtp.Some? && m.smtp.value.Data? && Valid(cfg, m)
    ensures Valid(cfg, Step(cfg, m, h, log, cmd).machine)
  {
  }

  lemma DataRefuses(cfg: Config, m: Machine, h: Handler, log: seq<Call>, cmd: Commands.Cmd)
    requires m.smtp.Some? && m.smtp.value.Data?
    ensures StepRefuses(cfg, m, h, log, cmd)
  {
    FixedRepliesDiffer();
  }

  //---- Reply routing ------------------------------------------------------------------

  /** A finished session answers every command and every line with 421 and stays finished. */
  lemma FinishedSessionIsFinal(cfg: Config, m: Machine, h: Handler, log: seq<Call>, cmd: Commands.Cmd, line: seq<Byte>)
    requires m.smtp.None?
    ensures Step(cfg, m, h, log, cmd) == Outcome(INVALID_STATE, m, log)
    ensures ReadLine(m, h, log, line) == LineOutcome(Replied(INVALID_STATE), log)
    ensures INVALID_STATE.code == 421 && INVALID_STATE.action == Close
  {
  }

  /** A session ends only with a Close reply. */
  lemma EndsOnlyOnClose(cfg: Config, m: Machine, h: Handler, log: seq<Call>, cmd: Commands.Cmd)
    requires m.smtp.Some?
    ensures Step(cfg, m, h, log, cmd).machine.smtp.None? ==> Step(cfg, m, h, log, cmd).response.action == Close
  {
    Facts(cfg, m, h, log, cmd);
  }

  /** Outside the Auth state, a Close reply always ends the session. */
  lemma CloseEndsSession(cfg: Config, m: Machine, h: Handler, log: seq<Call>, cmd: Commands.Cmd)
    requires m.smtp.Some? && !m.smtp.value.Auth?
    ensures Step(cfg, m, h, log, cmd).response.action == Close ==> Step(cfg, m, h, log, cmd).machine.smtp.None?
  {
    Facts(cfg, m, h, log, cmd);
  }

  /** In the Auth state a Close reply from the handler does not end the session. */
  lemma AuthIgnoresClose(cfg: Config, m: Machine, domain: Str, h: Handler, log: seq<Call>, response: seq<Byte>)
    requires m.smtp == Some(Auth(domain, Plain))
    requires var creds := Parser.DecodeSaslPlain(response);
      h.authPlain(log, creds.authorizationId, creds.authenticationId, creds.password).action == Close
    ensures Step(cfg, m, h, log, Commands.AuthResponse(response)).response.action == Close
    ensures Step(cfg, m, h, log, Commands.AuthResponse(response)).machine.smtp.Some?
  {
  }

  /** Outside the Auth state, an error reply that does not close leaves the state as it was. */
  lemma ErrorKeepsState(cfg: Config, m: Machine, h: Handler, log: seq<Call>, cmd: Commands.Cmd)
    requires m.smtp.Some? && !m.smtp.value.Auth?
    ensures var o := Step(cfg, m, h, log, cmd);
      o.response.isError && o.response.action != Close ==> o.machine.smtp == m.smtp
  {
    Facts(cfg, m, h, log, cmd);
  }

  //---- Which commands a state takes -------------------------------------------------

  /**
   * The commands each state acts on, as a table: QUIT, HELO and EHLO everywhere
   * but Auth and Data, and then each state's own.
   */
  predicate Accepts(cfg: Config, m: Machine, s: State, cmd: Commands.Cmd)
  {
    match s
    case Idle => cmd.StartedTls? || cmd.Rset? || cmd.Quit? || cmd.Helo? || cmd.Ehlo?
    case Hello(_) =>
      || cmd.Mail? || (cmd.StartTls? && m.tls == TlsInactive) || cmd.Vrfy? || cmd.Rset?
      || cmd.Quit? || cmd.Helo? || cmd.Ehlo?
    case HelloAuth(_) =>
      || cmd.StartTls? || ((cmd.AuthPlain? || cmd.AuthPlainEmpty?) && AllowAuthPlain(cfg, m)) || cmd.Rset?
      || cmd.Quit? || cmd.Helo? || cmd.Ehlo?
    case Auth(_, _) => cmd.AuthResponse?
    case Mail(_, _, _) => cmd.Rcpt? || cmd.Rset? || cmd.Quit? || cmd.Helo? || cmd.Ehlo?
    case Rcpt(_, _, _, _) => cmd.Data? || cmd.Rcpt? || cmd.Rset? || cmd.Quit? || cmd.Helo? || cmd.Ehlo?
    case Data(_) => cmd.DataEnd?
  }

  /**
   * A command gets 503 with nothing changed and no handler call exactly when
   * its state does not take it.
   */
  lemma UnhandledIff(cfg: Config, m: Machine, h: Handler, log: seq<Call>, cmd: Commands.Cmd)
    requires m.smtp.Some?
    ensures Step(cfg, m, h, log, cmd) == Outcome(BAD_SEQUENCE_COMMANDS, m, log) <==> !Accepts(cfg, m, m.smtp.value, cmd)
  {
    Facts(cfg, m, h, log, cmd);
  }

  /** NOOP is parsed but no state takes it. */
  lemma NoopIsBadSequence(cfg: Config, m: Machine, h: Handler, log: seq<Call>)
    requires m.smtp.Some?
    ensures Step(cfg, m, h, log, Commands.Noop) == Outcome(BAD_SEQUENCE_COMMANDS, m, log)
  {
    UnhandledIff(cfg, m, h, log, Commands.Noop);
  }

  /** MAIL is taken in the Hello state only. */
  lemma MailOnlyInHello(cfg: Config, m: Machine, h: Handler, log: seq<Call>, reversePath: Str, is8bit: bool)
    requires m.smtp.Some? && !m.smtp.value.Hello?
    ensures Step(cfg, m, h, log, Commands.Mail(reversePath, is8bit)) == Outcome(BAD_SEQUENCE_COMMANDS, m, log)
  {
    UnhandledIff(cfg, m, h, log, Commands.Mail(reversePath, is8bit));
  }

  /** AUTH PLAIN, with or without a response, is refused unless PLAIN is on and TLS is active. */
  lemma AuthNeedsTls(cfg: Config, m: Machine, h: Handler, log: seq<Call>, cmd: Commands.Cmd)
    requires m.smtp.Some? && (cmd.AuthPlain? || cmd.AuthPlainEmpty?) && !AllowAuthPlain(cfg, m)
    ensures Step(cfg, m, h, log, cmd) == Outcome(BAD_SEQUENCE_COMMANDS, m, log)
  {
    UnhandledIff(cfg, m, h, log, cmd);
  }

  //---- Mail transactions --------------------------------------------------------------

  /** MAIL in Hello asks the handler and, if it agrees, opens a transaction for that sender. */
  lemma MailStartsTransaction(cfg: Config, m: Machine, domain: Str, h: Handler, log: seq<Call>,
                              reversePath: Str, is8bit: bool)
    requires m.smtp == Some(Hello(domain))
    ensures var o := Step(cfg, m, h, log, Commands.Mail(reversePath, is8bit));
      && o.response == h.mail(log, cfg.ip, domain, reversePath)
      && o.log == log + [MailCall(cfg.ip, domain, reversePath)]
      && o.machine.smtp == NextState(Hello(domain), o.response, Mail(domain, reversePath, is8bit))
  {
  }

  /** The first accepted RCPT starts the list with its path; each later one appends at the end. */
  lemma RcptAppends(cfg: Config, m: Machine, h: Handler, log: seq<Call>, forwardPath: Str)
    requires m.smtp.Some? && (m.smtp.value.Mail? || m.smtp.value.Rcpt?)
    ensures var s := m.smtp.value;
      var o := Step(cfg, m, h, log, Commands.Rcpt(forwardPath));
      var paths := if s.Mail? then [forwardPath] else s.forwardPath + [forwardPath];
      && o.response == h.rcpt(log, forwardPath)
      && o.log == log + [RcptCall(forwardPath)]
      && o.machine.smtp == NextState(s, o.response, Rcpt(s.domain, s.reversePath, s.is8bit, paths))
  {
  }

  /** DATA hands the whole recipient list to the handler; its acceptance becomes 354. */
  lemma DataPassesRecipients(cfg: Config, m: Machine, domain: Str, reversePath: Str, is8bit: bool,
                             forwardPath: seq<Str>, h: Handler, log: seq<Call>)
    requires m.smtp == Some(Rcpt(domain, reversePath, is8bit, forwardPath))
    ensures var res := h.dataStart(log, domain, reversePath, is8bit, forwardPath);
      var o := Step(cfg, m, h, log, Commands.Data);
      && o.log == log + [DataStartCall(domain, reversePath, is8bit, forwardPath)]
      && o.response == (if res.isError then res else START_DATA)
      && (!res.isError ==> o.machine.smtp == Some(Data(domain)))
      && (res.isError && res.action != Close ==> o.machine.smtp == m.smtp)
  {
  }

  /** The end of the message asks the handler and returns to Hello, even in a session with authentication. */
  lemma DataEndReturnsToHello(cfg: Config, m: Machine, domain: Str, h: Handler, log: seq<Call>)
    requires m.smtp == Some(Data(domain))
    ensures var o := Step(cfg, m, h, log, Commands.DataEnd);
      && o.response == h.dataEnd(log)
      && o.log == log + [DataEndCall]
      && (!o.response.isError && o.response.action != Close ==> o.machine.smtp == Some(Hello(domain)))
  {
  }

  //---- Message lines ------------------------------------------------------------------

  /** Undoing the transparency dot recovers any line the client stuffed, and no stuffed line ends the data. */
  lemma StuffRoundTrip(text: seq<Byte>)
    ensures Unstuff(Stuff(text)) == text
    ensures Stuff(text) != END_OF_DATA
  {
    if |text| > 0 && text[0] == DOT {
      assert Stuff(text)[1..] == text;
      assert |Stuff(text)| != 3 || Stuff(text)[1] == DOT;
    }
  }

  /** Unstuffing removes exactly one leading dot, if there is one, and nothing else. */
  lemma UnstuffDropsOneDot(line: seq<Byte>)
    ensures |line| > 0 && line[0] == DOT ==> line == [DOT] + Unstuff(line)
    ensures !(|line| > 0 && line[0] == DOT) ==> Unstuff(line) == line
  {
    if |line| > 0 && line[0] == DOT {
      assert line == [line[0]] + line[1..];
    }
  }

  /** In the Data state `.` CRLF ends the message and reaches no handler. */
  lemma EndLineEndsData(m: Machine, domain: Str, h: Handler, log: seq<Call>)
    requires m.smtp == Some(Data(domain))
    ensures ReadLine(m, h, log, END_OF_DATA) == LineOutcome(ToCommand(Commands.DataEnd), log)
  {
  }

  /** Every other line goes to the handler without its transparency dot; the reply depends on storage. */
  lemma TextLineGoesToHandler(m: Machine, domain: Str, h: Handler, log: seq<Call>, line: seq<Byte>)
    requires m.smtp == Some(Data(domain)) && line != END_OF_DATA
    ensures var o := ReadLine(m, h, log, line);
      && o.log == log + [DataCall(Unstuff(line))]
      && o.result == Replied(if h.data(log, Unstuff(line)) then EMPTY_RESPONSE else TRANSACTION_FAILED)
  {
  }

  /** A line the client stuffed reaches the handler exactly as the client meant it. */
  lemma StuffedLineDelivered(m: Machine, domain: Str, h: Handler, log: seq<Call>, text: seq<Byte>)
    requires m.smtp == Some(Data(domain))
    ensures ReadLine(m, h, log, Stuff(text)).log == log + [DataCall(text)]
  {
    StuffRoundTrip(text);
    TextLineGoesToHandler(m, domain, h, log, Stuff(text));
  }

  //---- Authentication -----------------------------------------------------------------

  /** AUTH PLAIN with credentials, when allowed: the handler judges, 235 authenticates, success greets again. */
  lemma AuthPlainOutcome(cfg: Config, m: Machine, domain: Str, h: Handler, log: seq<Call>,
                         authz: Str, authc: Str, password: Str)
    requires m.smtp == Some(HelloAuth(domain)) && AllowAuthPlain(cfg, m)
    ensures var res := h.authPlain(log, authz, authc, password);
      var o := Step(cfg, m, h, log, Commands.AuthPlain(authz, authc, password));
      && o.response == res
      && o.log == log + [AuthPlainCall(authz, authc, password)]
      && (o.machine.authState == Authenticated <==> res.code == 235)
      && (o.machine.authState != Authenticated ==> o.machine.authState == RequiresAuth)
      && o.machine.tls == m.tls
      && o.machine.smtp == NextState(HelloAuth(domain), res, Hello(domain))
  {
  }

  /** AUTH PLAIN without credentials, when allowed, sends the empty challenge and waits in Auth. */
  lemma AuthChallenge(cfg: Config, m: Machine, domain: Str, h: Handler, log: seq<Call>)
    requires m.smtp == Some(HelloAuth(domain)) && AllowAuthPlain(cfg, m)
    ensures Step(cfg, m, h, log, Commands.AuthPlainEmpty) == Outcome(EMPTY_AUTH_CHALLENGE, m.(smtp := Some(Auth(domain, Plain))), log)
    ensures EMPTY_AUTH_CHALLENGE.code == 334
  {
  }

  /** The response to the challenge is decoded and judged; success goes to Hello, failure back to HelloAuth. */
  lemma AuthResponseOutcome(cfg: Config, m: Machine, domain: Str, h: Handler, log: seq<Call>, response: seq<Byte>)
    requires m.smtp == Some(Auth(domain, Plain))
    ensures var creds := Parser.DecodeSaslPlain(response);
      var res := h.authPlain(log, creds.authorizationId, creds.authenticationId, creds.password);
      var o := Step(cfg, m, h, log, Commands.AuthResponse(response));
      && o.response == res
      && o.log == log + [AuthPlainCall(creds.authorizationId, creds.authenticationId, creds.password)]
      && (o.machine.authState == Authenticated <==> res.code == 235)
      && (o.machine.authState != Authenticated ==> o.machine.authState == RequiresAuth)
      && o.machine.tls == m.tls
      && o.machine.smtp == Some(if res.isError then HelloAuth(domain) else Hello(domain))
  {
  }

  /** A session becomes authenticated only by a 235 reply to credentials the handler was shown. */
  lemma AuthenticatedOnlyBy235(cfg: Config, m: Machine, h: Handler, log: seq<Call>, cmd: Commands.Cmd)
    requires m.authState != Authenticated
    ensures var o := Step(cfg, m, h, log, cmd);
      o.machine.authState == Authenticated ==>
        o.response.code == 235 && |o.log| == |log| + 1 && o.log[|log|].AuthPlainCall?
  {
    if m.smtp.Some? {
      Facts(cfg, m, h, log, cmd);
    }
  }

  /** TLS becomes active only through StartedTls in the Idle state; nothing else touches it. */
  lemma TlsOnlyByStartedTls(cfg: Config, m: Machine, h: Handler, log: seq<Call>, cmd: Commands.Cmd)
    ensures var o := Step(cfg, m, h, log, cmd);
      o.machine.tls != m.tls ==> m.smtp == Some(Idle) && cmd.StartedTls? && o.machine.tls == TlsActive
  {
    if m.smtp.Some? {
      Facts(cfg, m, h, log, cmd);
    }
  }

  /** In HelloAuth, STARTTLS is answered whatever the TLS state, unlike in Hello. */
  lemma HelloAuthStartTls(cfg: Config, m: Machine, domain: Str, h: Handler, log: seq<Call>)
    requires m.smtp == Some(HelloAuth(domain))
    ensures Step(cfg, m, h, log, Commands.StartTls) == Outcome(START_TLS, m.(smtp := Some(Idle)), log)
  {
  }

  //---- Greeting -----------------------------------------------------------------------

  /** What the EHLO reply advertises: 8BITMIME first, STARTTLS exactly when TLS is inactive, else each mechanism. */
  lemma EhloAdvertises(tls: TlsState, mechanisms: seq<AuthMechanism>)
    ensures var ext := Extensions(tls, mechanisms);
      && ext[0] == B("8BITMIME")
      && |ext| == 1 + (if tls == TlsInactive then 1 else |mechanisms|)
      && (B("STARTTLS") in ext <==> tls == TlsInactive)
      && (B("AUTH PLAIN") in ext <==> tls != TlsInactive && Plain in mechanisms)
    ensures EhloReply(tls, mechanisms).code == 250 && !EhloReply(tls, mechanisms).isError
  {
    var ext := Extensions(tls, mechanisms);
    assert B("8BITMIME") != B("STARTTLS") by { assert B("8BITMIME")[0] != B("STARTTLS")[0]; }
    assert B("8BITMIME") != B("AUTH PLAIN") by { assert |B("8BITMIME")| != |B("AUTH PLAIN")|; }
    assert B("STARTTLS") != B("AUTH PLAIN") by { assert |B("STARTTLS")| != |B("AUTH PLAIN")|; }
    if tls != TlsInactive {
      if Plain in mechanisms {
        var i :| 0 <= i < |mechanisms| && mechanisms[i] == Plain;
        assert ext[1 + i] == B("AUTH PLAIN");
      }
      if B("AUTH PLAIN") in ext {
        var j :| 0 <= j < |ext| && ext[j] == B("AUTH PLAIN");
        assert mechanisms[j - 1] == Plain;
      }
    }
  }

  /** EHLO: the handler is asked; a 250 becomes the extension list; the session is greeted with or without authentication. */
  lemma EhloOutcome(cfg: Config, m: Machine, h: Handler, log: seq<Call>, domain: Str)
    requires m.smtp.Some? && !m.smtp.value.Auth? && !m.smtp.value.Data?
    ensures var res := h.helo(log, cfg.ip, domain);
      var o := Step(cfg, m, h, log, Commands.Ehlo(domain));
      && o.log == log + [HeloCall(cfg.ip, domain)]
      && o.response == (if res.code == 250 then EhloReply(m.tls, cfg.authMechanisms) else res)
      && o.machine.smtp == NextState(m.smtp.value, o.response,
                                     if m.authState == AuthUnavailable then Hello(domain) else HelloAuth(domain))
  {
  }

  /** HELO is refused with 550 when authentication is configured, and the handler is not asked. */
  lemma HeloRefusedWithAuth(cfg: Config, m: Machine, h: Handler, log: seq<Call>, domain: Str)
    requires m.smtp.Some? && !m.smtp.value.Auth? && !m.smtp.value.Data? && m.authState != AuthUnavailable
    ensures Step(cfg, m, h, log, Commands.Helo(domain)) == Outcome(BAD_HELLO, m, log)
    ensures BAD_HELLO.code == 550
  {
  }

  /** HELO without authentication: the handler is asked and, if it agrees, the session is greeted. */
  lemma HeloOutcome(cfg: Config, m: Machine, h: Handler, log: seq<Call>, domain: Str)
    requires m.smtp.Some? && !m.smtp.value.Auth? && !m.smtp.value.Data? && m.authState == AuthUnavailable
    ensures var o := Step(cfg, m, h, log, Commands.Helo(domain));
      && o.response == h.helo(log, cfg.ip, domain)
      && o.log == log + [HeloCall(cfg.ip, domain)]
      && o.machine.smtp == NextState(m.smtp.value, o.response, Hello(domain))
  {
  }

  //---- RSET -----------------------------------------------------------------------------

  /** RSET answers 250: Idle stays Idle, a greeted session or a transaction drops back to the greeting. */
  lemma RsetResets(cfg: Config, m: Machine, h: Handler, log: seq<Call>)
    requires m.smtp.Some? && !m.smtp.value.Auth? && !m.smtp.value.Data?
    ensures var s := m.smtp.value;
      Step(cfg, m, h, log, Commands.Rset)
        == Outcome(OK, m.(smtp := Some(if s.Idle? then Idle
                                       else if m.authState == AuthUnavailable then Hello(s.domain)
                                       else HelloAuth(s.domain))), log)
  {
  }

  /** QUIT is answered 221 with Close and ends the session, wherever it is taken. */
  lemma QuitEnds(cfg: Config, m: Machine, h: Handler, log: seq<Call>)
    requires m.smtp.Some? && !m.smtp.value.Auth? && !m.smtp.value.Data?
    ensures Step(cfg, m, h, log, Commands.Quit) == Outcome(GOODBYE, m.(smtp := None), log)
    ensures GOODBYE.code == 221 && GOODBYE.action == Close
  {
  }
}
