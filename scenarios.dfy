/**
 * Whole sessions, line by line, as the library's own tests drive them: a
 * session is built, lines are fed to `Session::process`, and the replies and
 * states are checked. Each scenario is stated for every domain, path and verb
 * spelling the test stands for, not only the test's literal bytes.
 */
module Scenarios {
  import opened Wrappers
  import opened Bytes
  import opened Replies
  import opened Mailin
  import opened Fsm
  import opened Smtp
  import FsmProperties
  import Commands
  import Parser

  //---- Lines that carry commands ---------------------------------------------------------

  /** Outside Auth and Data, a line that parses runs its command. */
  lemma CommandLine(cfg: Config, m: Machine, h: Handler, log: seq<Call>, line: seq<Byte>, cmd: Commands.Cmd)
    requires m.smtp.Some? && !m.smtp.value.Auth? && !m.smtp.value.Data?
    requires Parser.Parse(line) == Ok(cmd)
    ensures SessionStep(cfg, m, h, log, line) == Step(cfg, m, h, log, cmd)
  {
  }

  /** Outside Auth and Data, a line that does not parse gets its error and changes nothing. */
  lemma RejectedLine(cfg: Config, m: Machine, h: Handler, log: seq<Call>, line: seq<Byte>, e: Response)
    requires m.smtp.Some? && !m.smtp.value.Auth? && !m.smtp.value.Data?
    requires Parser.Parse(line) == Err(e)
    ensures SessionStep(cfg, m, h, log, line) == Outcome(e, m, log)
  {
  }

  /** A HELO line in a session without authentication greets the client under that domain. */
  lemma HeloLine(cfg: Config, m: Machine, h: Handler, log: seq<Call>, v: seq<Byte>, n: nat, d: Str, t: seq<Byte>)
    requires m.smtp.Some? && !m.smtp.value.Auth? && !m.smtp.value.Data? && m.authState == AuthUnavailable
    requires EqIgnoreCase(v, B("helo")) && n >= 1 && Parser.IsHelloDomain(d)
    ensures var res := h.helo(log, cfg.ip, d);
      SessionStep(cfg, m, h, log, v + Spaces(n) + d + CRLF + t)
        == Outcome(res, m.(smtp := NextState(m.smtp.value, res, Hello(d))), log + [HeloCall(cfg.ip, d)])
  {
    var line := v + Spaces(n) + d + CRLF + t;
    assert SessionStep(cfg, m, h, log, line) == Step(cfg, m, h, log, Commands.Helo(d)) by {
      Parser.ParseHeloLine(v, n, d, t);
      CommandLine(cfg, m, h, log, line, Commands.Helo(d));
    }
    FsmProperties.HeloOutcome(cfg, m, h, log, d);
  }

  /** An EHLO line greets the client, with authentication if it is configured; a 250 lists the extensions. */
  lemma EhloLine(cfg: Config, m: Machine, h: Handler, log: seq<Call>, v: seq<Byte>, n: nat, d: Str, t: seq<Byte>)
    requires m.smtp.Some? && !m.smtp.value.Auth? && !m.smtp.value.Data?
    requires EqIgnoreCase(v, B("ehlo")) && n >= 1 && Parser.IsHelloDomain(d)
    ensures var res := h.helo(log, cfg.ip, d);
      var reply := if res.code == 250 then EhloReply(m.tls, cfg.authMechanisms) else res;
      SessionStep(cfg, m, h, log, v + Spaces(n) + d + CRLF + t)
        == Outcome(reply,
                   m.(smtp := NextState(m.smtp.value, reply,
                                        if m.authState == AuthUnavailable then Hello(d) else HelloAuth(d))),
                   log + [HeloCall(cfg.ip, d)])
  {
    Parser.ParseEhloLine(v, n, d, t);
    CommandLine(cfg, m, h, log, v + Spaces(n) + d + CRLF + t, Commands.Ehlo(d));
    FsmProperties.EhloOutcome(cfg, m, h, log, d);
  }

  //---- The tests of a session without authentication ---------------------------------------

  /** `helo_ehlo`: HELO then EHLO, each answered 250, each leaving the session greeted. */
  lemma HeloThenEhlo(ip: IpAddr, v1: seq<Byte>, d1: Str, t1: seq<Byte>, v2: seq<Byte>, d2: Str, t2: seq<Byte>)
    requires EqIgnoreCase(v1, B("helo")) && Parser.IsHelloDomain(d1)
    requires EqIgnoreCase(v2, B("ehlo")) && Parser.IsHelloDomain(d2)
    ensures var cfg := NewConfig(ip, []);
      var o1 := SessionStep(cfg, NewMachine([], false), DefaultHandler(), [], v1 + Spaces(1) + d1 + CRLF + t1);
      var o2 := SessionStep(cfg, o1.machine, DefaultHandler(), o1.log, v2 + Spaces(1) + d2 + CRLF + t2);
      && o1.response.code == 250 && o1.machine.smtp == Some(Hello(d1))
      && o2.response.code == 250 && o2.machine.smtp == Some(Hello(d2))
  {
    var cfg, h := NewConfig(ip, []), DefaultHandler();
    var m0 := NewMachine([], false);
    HeloLine(cfg, m0, h, [], v1, 1, d1, t1);
    var o1 := SessionStep(cfg, m0, h, [], v1 + Spaces(1) + d1 + CRLF + t1);
    EhloLine(cfg, o1.machine, h, o1.log, v2, 1, d2, t2);
  }

  /** `mail_from`: after HELO, MAIL FROM opens a transaction for that sender. */
  lemma MailAfterHelo(ip: IpAddr, v1: seq<Byte>, d: Str, t1: seq<Byte>,
                      v2: seq<Byte>, f: seq<Byte>, w: seq<Byte>, path: Str, t2: seq<Byte>)
    requires EqIgnoreCase(v1, B("helo")) && Parser.IsHelloDomain(d)
    requires EqIgnoreCase(v2, B("mail")) && EqIgnoreCase(f, B("from:")) && Parser.IsMailPath(path)
    requires forall i :: 0 <= i < |w| ==> Parser.IsBlank(w[i])
    ensures var cfg := NewConfig(ip, []);
      var o1 := SessionStep(cfg, NewMachine([], false), DefaultHandler(), [], v1 + Spaces(1) + d + CRLF + t1);
      var o2 := SessionStep(cfg, o1.machine, DefaultHandler(), o1.log,
                            v2 + Spaces(1) + f + w + [60] + path + [62] + CRLF + t2);
      && o2.response.code == 250 && o2.machine.smtp == Some(Mail(d, path, false))
      && o2.log == [HeloCall(ip, d), MailCall(ip, d, path)]
  {
    var cfg, h := NewConfig(ip, []), DefaultHandler();
    var m0 := NewMachine([], false);
    HeloLine(cfg, m0, h, [], v1, 1, d, t1);
    var o1 := SessionStep(cfg, m0, h, [], v1 + Spaces(1) + d + CRLF + t1);
    var line2 := v2 + Spaces(1) + f + w + [60] + path + [62] + CRLF + t2;
    Parser.ParseMailLine(v2, 1, f, w, path, t2);
    CommandLine(cfg, o1.machine, h, o1.log, line2, Commands.Mail(path, false));
    FsmProperties.MailStartsTransaction(cfg, o1.machine, d, h, o1.log, path, false);
  }

  /** A HELO line whose domain is not UTF-8 is a syntax error, wherever it is sent outside Auth and Data. */
  lemma HeloLineNotUtf8(cfg: Config, m: Machine, h: Handler, log: seq<Call>, v: seq<Byte>, n: nat, d: seq<Byte>, t: seq<Byte>)
    requires m.smtp.Some? && !m.smtp.value.Auth? && !m.smtp.value.Data?
    requires EqIgnoreCase(v, B("helo")) && n >= 1
    requires d != [] && (forall i :: 0 <= i < |d| ==> Parser.InHelloDomain(d[i])) && !ValidUtf8(d)
    ensures SessionStep(cfg, m, h, log, v + Spaces(n) + d + CRLF + t) == Outcome(SYNTAX_ERROR, m, log)
  {
    Parser.HeloRejectsNonUtf8(v, n, d, t);
    RejectedLine(cfg, m, h, log, v + Spaces(n) + d + CRLF + t, SYNTAX_ERROR);
  }

  /** `domain_badchars`: a HELO domain holding an octet that never occurs in UTF-8 is answered 500, and the session stays Idle. */
  lemma HeloBadDomain(ip: IpAddr, v: seq<Byte>, d: seq<Byte>, k: nat, t: seq<Byte>)
    requires EqIgnoreCase(v, B("helo"))
    requires d != [] && (forall i :: 0 <= i < |d| ==> Parser.InHelloDomain(d[i])) && k < |d| && d[k] >= 0xF5
    ensures var o := SessionStep(NewConfig(ip, []), NewMachine([], false), DefaultHandler(), [], v + Spaces(1) + d + CRLF + t);
      o.response.code == 500 && o.machine.smtp == Some(Idle) && o.log == []
  {
    Parser.HighOctetIsNotUtf8(d, k);
    HeloLineNotUtf8(NewConfig(ip, []), NewMachine([], false), DefaultHandler(), [], v, 1, d, t);
  }

  /** The test's domain `world@\xff` is such a domain. */
  lemma TestBadDomain()
    ensures var d := B("world") + [0x40, 0xFF];
      d != [] && (forall i :: 0 <= i < |d| ==> Parser.InHelloDomain(d[i])) && d[6] >= 0xF5
  {
  }

  //---- Lines in a greeted session and in a transaction --------------------------------------

  /** The machine of a session without authentication or STARTTLS, in state `s`. */
  function Basic(s: State): (m: Machine)
    ensures m == NewMachine([], false).(smtp := Some(s))
  {
    Machine(AuthUnavailable, TlsUnavailable, Some(s))
  }

  /** A MAIL line in Hello asks the handler for the sender. */
  lemma MailLine(cfg: Config, m: Machine, d: Str, h: Handler, log: seq<Call>, line: seq<Byte>, path: Str, is8bit: bool)
    requires m.smtp == Some(Hello(d)) && Parser.Parse(line) == Ok(Commands.Mail(path, is8bit))
    ensures var res := h.mail(log, cfg.ip, d, path);
      SessionStep(cfg, m, h, log, line)
        == Outcome(res, m.(smtp := NextState(Hello(d), res, Mail(d, path, is8bit))), log + [MailCall(cfg.ip, d, path)])
  {
    CommandLine(cfg, m, h, log, line, Commands.Mail(path, is8bit));
    FsmProperties.MailStartsTransaction(cfg, m, d, h, log, path, is8bit);
  }

  /** An RCPT line in Mail or Rcpt asks the handler for the recipient and adds it at the end. */
  lemma RcptLine(cfg: Config, m: Machine, h: Handler, log: seq<Call>, line: seq<Byte>, path: Str)
    requires m.smtp.Some? && (m.smtp.value.Mail? || m.smtp.value.Rcpt?)
    requires Parser.Parse(line) == Ok(Commands.Rcpt(path))
    ensures var s := m.smtp.value;
      var res := h.rcpt(log, path);
      var paths := if s.Mail? then [path] else s.forwardPath + [path];
      SessionStep(cfg, m, h, log, line)
        == Outcome(res, m.(smtp := NextState(s, res, Rcpt(s.domain, s.reversePath, s.is8bit, paths))), log + [RcptCall(path)])
  {
    CommandLine(cfg, m, h, log, line, Commands.Rcpt(path));
    FsmProperties.RcptAppends(cfg, m, h, log, path);
  }

  /** `mail_from` and `data_8bit`: in Hello, a MAIL line, with or without BODY=, opens the transaction. */
  lemma MailFrom(ip: IpAddr, d: Str, line: seq<Byte>, path: Str, is8bit: bool, log: seq<Call>)
    requires Parser.Parse(line) == Ok(Commands.Mail(path, is8bit))
    ensures var o := SessionStep(NewConfig(ip, []), Basic(Hello(d)), DefaultHandler(), log, line);
      && o.response.code == 250 && o.machine == Basic(Mail(d, path, is8bit))
      && o.log == log + [MailCall(ip, d, path)]
  {
    MailLine(NewConfig(ip, []), Basic(Hello(d)), d, DefaultHandler(), log, line, path, is8bit);
  }

  /** `rcpt_to`: two RCPT lines are each answered 250 and kept in order. */
  lemma RcptTwice(ip: IpAddr, d: Str, from: Str, is8bit: bool, log: seq<Call>,
                  line1: seq<Byte>, path1: Str, line2: seq<Byte>, path2: Str)
    requires Parser.Parse(line1) == Ok(Commands.Rcpt(path1)) && Parser.Parse(line2) == Ok(Commands.Rcpt(path2))
    ensures var cfg, h := NewConfig(ip, []), DefaultHandler();
      var o1 := SessionStep(cfg, Basic(Mail(d, from, is8bit)), h, log, line1);
      var o2 := SessionStep(cfg, o1.machine, h, o1.log, line2);
      && o1.response.code == 250 && o2.response.code == 250
      && o2.machine == Basic(Rcpt(d, from, is8bit, [path1, path2]))
      && o2.log == log + [RcptCall(path1), RcptCall(path2)]
  {
    var cfg, h := NewConfig(ip, []), DefaultHandler();
    RcptLine(cfg, Basic(Mail(d, from, is8bit)), h, log, line1, path1);
    var o1 := SessionStep(cfg, Basic(Mail(d, from, is8bit)), h, log, line1);
    assert o1 == Outcome(OK, Basic(Rcpt(d, from, is8bit, [path1])), log + [RcptCall(path1)]);
    RcptLine(cfg, o1.machine, h, o1.log, line2, path2);
    assert [path1] + [path2] == [path1, path2];
    assert log + [RcptCall(path1)] + [RcptCall(path2)] == log + [RcptCall(path1), RcptCall(path2)];
  }

  /**
   * `data`, `dot_stuffed_data` and `data_8bit`: DATA is answered 354, a message
   * line reaches the handler without its transparency dot and gets no reply,
   * and `.` CRLF is answered 250 and returns to Hello.
   */
  lemma DataTransaction(ip: IpAddr, d: Str, from: Str, is8bit: bool, to: seq<Str>, log: seq<Call>,
                        dataLine: seq<Byte>, text: seq<Byte>)
    requires Parser.Parse(dataLine) == Ok(Commands.Data) && text != END_OF_DATA
    ensures var cfg, h := NewConfig(ip, []), DefaultHandler();
      var o1 := SessionStep(cfg, Basic(Rcpt(d, from, is8bit, to)), h, log, dataLine);
      var o2 := SessionStep(cfg, o1.machine, h, o1.log, text);
      var o3 := SessionStep(cfg, o2.machine, h, o2.log, END_OF_DATA);
      && o1.response.code == 354 && o1.machine == Basic(Data(d))
      && o2.response.action == NoReply && o2.machine == Basic(Data(d))
      && o3.response.code == 250 && o3.machine == Basic(Hello(d))
      && o3.log == log + [DataStartCall(d, from, is8bit, to), DataCall(Unstuff(text)), DataEndCall]
  {
    var cfg, h := NewConfig(ip, []), DefaultHandler();
    var m := Basic(Rcpt(d, from, is8bit, to));
    CommandLine(cfg, m, h, log, dataLine, Commands.Data);
    FsmProperties.DataPassesRecipients(cfg, m, d, from, is8bit, to, h, log);
    var o1 := SessionStep(cfg, m, h, log, dataLine);
    FsmProperties.TextLineGoesToHandler(o1.machine, d, h, o1.log, text);
    RepliedLineKeepsState(cfg, o1.machine, h, o1.log, text);
    var o2 := SessionStep(cfg, o1.machine, h, o1.log, text);
    FsmProperties.EndLineEndsData(o2.machine, d, h, o2.log);
    FsmProperties.DataEndReturnsToHello(cfg, o2.machine, d, h, o2.log);
  }

  /** The stuffed line of `dot_stuffed_data` is not the end of the message and reaches the handler as `.` CRLF. */
  lemma StuffedTestLine()
    ensures [DOT, DOT, CR, LF] != END_OF_DATA && Unstuff([DOT, DOT, CR, LF]) == END_OF_DATA
  {
  }

  /** `rset_hello`: RSET in a transaction is answered 250 and drops back to Hello. */
  lemma RsetInTransaction(ip: IpAddr, d: Str, from: Str, is8bit: bool, log: seq<Call>, line: seq<Byte>)
    requires Parser.Parse(line) == Ok(Commands.Rset)
    ensures var o := SessionStep(NewConfig(ip, []), Basic(Mail(d, from, is8bit)), DefaultHandler(), log, line);
      o == Outcome(OK, Basic(Hello(d)), log) && OK.code == 250
  {
    CommandLine(NewConfig(ip, []), Basic(Mail(d, from, is8bit)), DefaultHandler(), log, line, Commands.Rset);
    FsmProperties.RsetResets(NewConfig(ip, []), Basic(Mail(d, from, is8bit)), DefaultHandler(), log);
  }

  /** `rset_idle`: RSET in a new session is answered 250 and stays Idle. */
  lemma RsetInIdle(ip: IpAddr, line: seq<Byte>)
    requires Parser.Parse(line) == Ok(Commands.Rset)
    ensures var o := SessionStep(NewConfig(ip, []), NewMachine([], false), DefaultHandler(), [], line);
      o == Outcome(OK, NewMachine([], false), []) && OK.code == 250
  {
    CommandLine(NewConfig(ip, []), NewMachine([], false), DefaultHandler(), [], line, Commands.Rset);
    FsmProperties.RsetResets(NewConfig(ip, []), NewMachine([], false), DefaultHandler(), []);
  }

  /** `quit`: QUIT in a transaction is answered 221 with Close and ends the session. */
  lemma QuitInTransaction(ip: IpAddr, d: Str, from: Str, is8bit: bool, log: seq<Call>, line: seq<Byte>)
    requires Parser.Parse(line) == Ok(Commands.Quit)
    ensures var o := SessionStep(NewConfig(ip, []), Basic(Mail(d, from, is8bit)), DefaultHandler(), log, line);
      && o.response.code == 221 && o.response.action == Close
      && o.machine.smtp.None? && o.log == log
  {
    CommandLine(NewConfig(ip, []), Basic(Mail(d, from, is8bit)), DefaultHandler(), log, line, Commands.Quit);
    FsmProperties.QuitEnds(NewConfig(ip, []), Basic(Mail(d, from, is8bit)), DefaultHandler(), log);
  }

  /** `vrfy`: VRFY is answered 252 in Hello and 503 in a transaction, and changes nothing. */
  lemma VrfyScenario(ip: IpAddr, d: Str, from: Str, is8bit: bool, log: seq<Call>, line: seq<Byte>)
    requires Parser.Parse(line) == Ok(Commands.Vrfy)
    ensures var cfg, h := NewConfig(ip, []), DefaultHandler();
      var o1 := SessionStep(cfg, Basic(Hello(d)), h, log, line);
      var o2 := SessionStep(cfg, Basic(Mail(d, from, is8bit)), h, log, line);
      && o1 == Outcome(VERIFY_RESPONSE, Basic(Hello(d)), log) && VERIFY_RESPONSE.code == 252
      && o2 == Outcome(BAD_SEQUENCE_COMMANDS, Basic(Mail(d, from, is8bit)), log) && BAD_SEQUENCE_COMMANDS.code == 503
  {
    var cfg, h := NewConfig(ip, []), DefaultHandler();
    CommandLine(cfg, Basic(Hello(d)), h, log, line, Commands.Vrfy);
    CommandLine(cfg, Basic(Mail(d, from, is8bit)), h, log, line, Commands.Vrfy);
    FsmProperties.UnhandledIff(cfg, Basic(Mail(d, from, is8bit)), h, log, Commands.Vrfy);
  }

  //---- The tests of a session with authentication ------------------------------------------

  /** Whether the tests' handler takes these credentials. */
  predicate IsTestUser(authz: Str, authc: Str, password: Str)
  {
    authz == B("test") && authc == B("test") && password == B("1234")
  }

  /** The tests' handler: it accepts everything, and the credentials test/test/1234 only. */
  function AuthHandler(): (h: Handler)
    ensures forall log, authz, authc, password ::
      h.authPlain(log, authz, authc, password) == (if IsTestUser(authz, authc, password) then AUTH_OK else INVALID_CREDENTIALS)
    ensures forall log, ip, domain :: h.helo(log, ip, domain) == OK
    ensures forall log, ip, domain, from :: h.mail(log, ip, domain, from) == OK
  {
    DefaultHandler().(authPlain := (log, authz, authc, password) =>
      if IsTestUser(authz, authc, password) then AUTH_OK else INVALID_CREDENTIALS)
  }

  /** What the tests' handler answers, and what that does to the session. */
  lemma TestVerdict(log: seq<Call>, authz: Str, authc: Str, password: Str)
    ensures var res := AuthHandler().authPlain(log, authz, authc, password);
      && (IsTestUser(authz, authc, password) ==> res.code == 235 && !res.isError && res.action == Reply)
      && (!IsTestUser(authz, authc, password) ==> res.code == 535 && res.isError && res.action == Reply)
  {
  }

  /** Over TLS in HelloAuth, an AUTH PLAIN line with credentials is judged by the handler. */
  lemma AuthLine(cfg: Config, m: Machine, d: Str, h: Handler, log: seq<Call>, line: seq<Byte>,
                 authz: Str, authc: Str, password: Str)
    requires m.smtp == Some(HelloAuth(d)) && AllowAuthPlain(cfg, m)
    requires Parser.Parse(line) == Ok(Commands.AuthPlain(authz, authc, password))
    ensures var res := h.authPlain(log, authz, authc, password);
      SessionStep(cfg, m, h, log, line)
        == Outcome(res, Machine(if res.code == 235 then Authenticated else RequiresAuth, m.tls,
                                NextState(HelloAuth(d), res, Hello(d))),
                   log + [AuthPlainCall(authz, authc, password)])
  {
    CommandLine(cfg, m, h, log, line, Commands.AuthPlain(authz, authc, password));
    FsmProperties.AuthPlainOutcome(cfg, m, d, h, log, authz, authc, password);
  }

  /** In Auth, the client's Base64 line is decoded and judged by the handler. */
  lemma AuthResponseLine(cfg: Config, m: Machine, d: Str, h: Handler, log: seq<Call>,
                         response: seq<Byte>, t: seq<Byte>, authz: Str, authc: Str, password: Str)
    requires m.smtp == Some(Auth(d, Plain))
    requires response != [] && forall i :: 0 <= i < |response| ==> Parser.IsBase64(response[i])
    requires Parser.DecodeSaslPlain(response) == Commands.Credentials(authz, authc, password)
    ensures var res := h.authPlain(log, authz, authc, password);
      SessionStep(cfg, m, h, log, response + CRLF + t)
        == Outcome(res, Machine(if res.code == 235 then Authenticated else RequiresAuth, m.tls,
                                Some(if res.isError then HelloAuth(d) else Hello(d))),
                   log + [AuthPlainCall(authz, authc, password)])
  {
    Parser.ParseAuthResponseLine(response, t);
    FsmProperties.AuthResponseOutcome(cfg, m, d, h, log, response);
  }

  /** `start_tls`, first line: EHLO in a new session with authentication is answered 250 and asks for it. */
  lemma EhloWithAuth(ip: IpAddr, v: seq<Byte>, d: Str, t: seq<Byte>)
    requires EqIgnoreCase(v, B("ehlo")) && Parser.IsHelloDomain(d)
    ensures var o := SessionStep(NewConfig(ip, [Plain]), NewMachine([Plain], true), AuthHandler(), [], v + Spaces(1) + d + CRLF + t);
      && o.response == EhloReply(TlsInactive, [Plain]) && o.response.code == 250
      && o.machine == Machine(RequiresAuth, TlsInactive, Some(HelloAuth(d))) && o.log == [HeloCall(ip, d)]
  {
    EhloLine(NewConfig(ip, [Plain]), NewMachine([Plain], true), AuthHandler(), [], v, 1, d, t);
    FsmProperties.EhloAdvertises(TlsInactive, [Plain]);
  }

  /**
   * `start_tls`, then: STARTTLS is answered 220 and returns to Idle, and once
   * the connection is secured TLS is active.
   */
  lemma StartTlsScenario(ip: IpAddr, d: Str, log: seq<Call>, line: seq<Byte>)
    requires Parser.Parse(line) == Ok(Commands.StartTls)
    ensures var cfg, h := NewConfig(ip, [Plain]), AuthHandler();
      var o1 := SessionStep(cfg, Machine(RequiresAuth, TlsInactive, Some(HelloAuth(d))), h, log, line);
      var o2 := Step(cfg, o1.machine, h, o1.log, Commands.StartedTls);
      && o1.response.code == 220 && o1.response.action == UpgradeTls
      && o1.machine == Machine(RequiresAuth, TlsInactive, Some(Idle))
      && o2.machine == Machine(RequiresAuth, TlsActive, Some(Idle)) && o2.log == log
  {
    var cfg, h := NewConfig(ip, [Plain]), AuthHandler();
    var m := Machine(RequiresAuth, TlsInactive, Some(HelloAuth(d)));
    CommandLine(cfg, m, h, log, line, Commands.StartTls);
    FsmProperties.HelloAuthStartTls(cfg, m, d, h, log);
  }

  /** `auth_plain_param`, second line: EHLO over TLS is answered 250 and asks for authentication. */
  lemma EhloOverTls(ip: IpAddr, log: seq<Call>, v: seq<Byte>, d: Str, t: seq<Byte>)
    requires EqIgnoreCase(v, B("ehlo")) && Parser.IsHelloDomain(d)
    ensures var o := SessionStep(NewConfig(ip, [Plain]), Machine(RequiresAuth, TlsActive, Some(Idle)), AuthHandler(), log,
                                 v + Spaces(1) + d + CRLF + t);
      && o.response == EhloReply(TlsActive, [Plain]) && o.response.code == 250
      && o.machine == Machine(RequiresAuth, TlsActive, Some(HelloAuth(d))) && o.log == log + [HeloCall(ip, d)]
  {
    EhloLine(NewConfig(ip, [Plain]), Machine(RequiresAuth, TlsActive, Some(Idle)), AuthHandler(), log, v, 1, d, t);
    FsmProperties.EhloAdvertises(TlsActive, [Plain]);
  }

  /** `noauth_denied`: MAIL before authentication is answered 503 and changes nothing. */
  lemma MailBeforeAuth(ip: IpAddr, d: Str, tls: TlsState, log: seq<Call>, line: seq<Byte>, path: Str, is8bit: bool)
    requires Parser.Parse(line) == Ok(Commands.Mail(path, is8bit))
    ensures var m := Machine(RequiresAuth, tls, Some(HelloAuth(d)));
      SessionStep(NewConfig(ip, [Plain]), m, AuthHandler(), log, line) == Outcome(BAD_SEQUENCE_COMMANDS, m, log)
  {
    var m := Machine(RequiresAuth, tls, Some(HelloAuth(d)));
    CommandLine(NewConfig(ip, [Plain]), m, AuthHandler(), log, line, Commands.Mail(path, is8bit));
    FsmProperties.MailOnlyInHello(NewConfig(ip, [Plain]), m, AuthHandler(), log, path, is8bit);
  }

  /** `auth_without_tls`: AUTH PLAIN before STARTTLS is answered 503 and changes nothing. */
  lemma AuthBeforeTls(ip: IpAddr, d: Str, log: seq<Call>, line: seq<Byte>, cmd: Commands.Cmd)
    requires Parser.Parse(line) == Ok(cmd) && (cmd.AuthPlain? || cmd.AuthPlainEmpty?)
    ensures var m := Machine(RequiresAuth, TlsInactive, Some(HelloAuth(d)));
      SessionStep(NewConfig(ip, [Plain]), m, AuthHandler(), log, line) == Outcome(BAD_SEQUENCE_COMMANDS, m, log)
  {
    var m := Machine(RequiresAuth, TlsInactive, Some(HelloAuth(d)));
    CommandLine(NewConfig(ip, [Plain]), m, AuthHandler(), log, line, cmd);
    FsmProperties.AuthNeedsTls(NewConfig(ip, [Plain]), m, AuthHandler(), log, cmd);
  }

  /**
   * `auth_plain_param` and `bad_auth_plain_param`: over TLS, AUTH PLAIN with
   * credentials is answered 235 and greets the client when they are the test
   * user's, and 535 and stays waiting for authentication otherwise.
   */
  lemma AuthPlainParam(ip: IpAddr, d: Str, log: seq<Call>, line: seq<Byte>, authz: Str, authc: Str, password: Str)
    requires Parser.Parse(line) == Ok(Commands.AuthPlain(authz, authc, password))
    ensures var o := SessionStep(NewConfig(ip, [Plain]), Machine(RequiresAuth, TlsActive, Some(HelloAuth(d))),
                                 AuthHandler(), log, line);
      && o.log == log + [AuthPlainCall(authz, authc, password)]
      && (IsTestUser(authz, authc, password) ==>
            o.response.code == 235 && o.machine == Machine(Authenticated, TlsActive, Some(Hello(d))))
      && (!IsTestUser(authz, authc, password) ==>
            o.response.code == 535 && o.machine == Machine(RequiresAuth, TlsActive, Some(HelloAuth(d))))
  {
    var cfg, m, h := NewConfig(ip, [Plain]), Machine(RequiresAuth, TlsActive, Some(HelloAuth(d))), AuthHandler();
    AuthLine(cfg, m, d, h, log, line, authz, authc, password);
    TestVerdict(log, authz, authc, password);
  }

  /**
   * `auth_plain_challenge` and `bad_auth_plain_challenge`: over TLS, AUTH PLAIN
   * alone is answered with the empty 334 challenge, and the client's Base64
   * response is then judged like credentials given with the command.
   */
  lemma AuthPlainChallenge(ip: IpAddr, d: Str, log: seq<Call>, line: seq<Byte>,
                           response: seq<Byte>, t: seq<Byte>, authz: Str, authc: Str, password: Str)
    requires Parser.Parse(line) == Ok(Commands.AuthPlainEmpty)
    requires response != [] && forall i :: 0 <= i < |response| ==> Parser.IsBase64(response[i])
    requires Parser.DecodeSaslPlain(response) == Commands.Credentials(authz, authc, password)
    ensures var cfg, h := NewConfig(ip, [Plain]), AuthHandler();
      var o1 := SessionStep(cfg, Machine(RequiresAuth, TlsActive, Some(HelloAuth(d))), h, log, line);
      var o2 := SessionStep(cfg, o1.machine, h, o1.log, response + CRLF + t);
      && o1 == Outcome(EMPTY_AUTH_CHALLENGE, Machine(RequiresAuth, TlsActive, Some(Auth(d, Plain))), log)
      && o2.log == log + [AuthPlainCall(authz, authc, password)]
      && (IsTestUser(authz, authc, password) ==>
            o2.response.code == 235 && o2.machine == Machine(Authenticated, TlsActive, Some(Hello(d))))
      && (!IsTestUser(authz, authc, password) ==>
            o2.response.code == 535 && o2.machine == Machine(RequiresAuth, TlsActive, Some(HelloAuth(d))))
  {
    var cfg, m, h := NewConfig(ip, [Plain]), Machine(RequiresAuth, TlsActive, Some(HelloAuth(d))), AuthHandler();
    CommandLine(cfg, m, h, log, line, Commands.AuthPlainEmpty);
    FsmProperties.AuthChallenge(cfg, m, d, h, log);
    var m1 := Machine(RequiresAuth, TlsActive, Some(Auth(d, Plain)));
    AuthResponseLine(cfg, m1, d, h, log, response, t, authz, authc, password);
    TestVerdict(log, authz, authc, password);
  }

  /** `rset_with_auth`: after authentication a transaction opens, and RSET returns to the authenticated greeting. */
  lemma RsetWithAuth(ip: IpAddr, d: Str, log: seq<Call>, mailLine: seq<Byte>, path: Str, is8bit: bool, rsetLine: seq<Byte>)
    requires Parser.Parse(mailLine) == Ok(Commands.Mail(path, is8bit)) && Parser.Parse(rsetLine) == Ok(Commands.Rset)
    ensures var cfg, h := NewConfig(ip, [Plain]), AuthHandler();
      var o1 := SessionStep(cfg, Machine(Authenticated, TlsActive, Some(Hello(d))), h, log, mailLine);
      var o2 := SessionStep(cfg, o1.machine, h, o1.log, rsetLine);
      && o1.response.code == 250 && o1.machine == Machine(Authenticated, TlsActive, Some(Mail(d, path, is8bit)))
      && o2.response.code == 250 && o2.machine == Machine(Authenticated, TlsActive, Some(HelloAuth(d)))
  {
    var cfg, h := NewConfig(ip, [Plain]), AuthHandler();
    MailLine(cfg, Machine(Authenticated, TlsActive, Some(Hello(d))), d, h, log, mailLine, path, is8bit);
    var o1 := SessionStep(cfg, Machine(Authenticated, TlsActive, Some(Hello(d))), h, log, mailLine);
    CommandLine(cfg, o1.machine, h, o1.log, rsetLine, Commands.Rset);
    FsmProperties.RsetResets(cfg, o1.machine, h, o1.log);
  }

  //---- What the handler is told --------------------------------------------------------------

  /** In Data, a message line other than `.` CRLF goes to the handler and changes no state. */
  lemma TextLine(cfg: Config, m: Machine, d: Str, h: Handler, log: seq<Call>, text: seq<Byte>)
    requires m.smtp == Some(Data(d)) && text != END_OF_DATA
    ensures SessionStep(cfg, m, h, log, text)
         == Outcome(if h.data(log, Unstuff(text)) then EMPTY_RESPONSE else TRANSACTION_FAILED, m, log + [DataCall(Unstuff(text))])
  {
    FsmProperties.TextLineGoesToHandler(m, d, h, log, text);
    RepliedLineKeepsState(cfg, m, h, log, text);
  }

  /** A new session without authentication greets the client of a HELO line. */
  lemma HeloInNewSession(ip: IpAddr, d: Str, helo: seq<Byte>)
    requires Parser.Parse(helo) == Ok(Commands.Helo(d))
    ensures SessionStep(NewConfig(ip, []), NewMachine([], false), DefaultHandler(), [], helo)
         == Outcome(OK, Basic(Hello(d)), [HeloCall(ip, d)])
  {
    CommandLine(NewConfig(ip, []), NewMachine([], false), DefaultHandler(), [], helo, Commands.Helo(d));
    FsmProperties.HeloOutcome(NewConfig(ip, []), NewMachine([], false), DefaultHandler(), [], d);
  }

  /**
   * The `callbacks` test of the library, first half: HELO, MAIL with
   * BODY=8BITMIME and two RCPT lines reach the handler as those four calls, in
   * that order, with the client's address, domain, sender and recipients.
   */
  lemma CallbacksEnvelope(ip: IpAddr, d: Str, from: Str, to0: Str, to1: Str,
                          helo: seq<Byte>, mail: seq<Byte>, rcpt0: seq<Byte>, rcpt1: seq<Byte>)
    requires Parser.Parse(helo) == Ok(Commands.Helo(d)) && Parser.Parse(mail) == Ok(Commands.Mail(from, true))
    requires Parser.Parse(rcpt0) == Ok(Commands.Rcpt(to0)) && Parser.Parse(rcpt1) == Ok(Commands.Rcpt(to1))
    ensures var cfg, h := NewConfig(ip, []), DefaultHandler();
      var o1 := SessionStep(cfg, NewMachine([], false), h, [], helo);
      var o2 := SessionStep(cfg, o1.machine, h, o1.log, mail);
      var o3 := SessionStep(cfg, o2.machine, h, o2.log, rcpt0);
      var o4 := SessionStep(cfg, o3.machine, h, o3.log, rcpt1);
      && o4.machine == Basic(Rcpt(d, from, true, [to0, to1]))
      && o4.log == [HeloCall(ip, d), MailCall(ip, d, from), RcptCall(to0), RcptCall(to1)]
  {
    var cfg, h := NewConfig(ip, []), DefaultHandler();
    HeloInNewSession(ip, d, helo);
    var o1 := SessionStep(cfg, NewMachine([], false), h, [], helo);
    MailFrom(ip, d, mail, from, true, o1.log);
    var o2 := SessionStep(cfg, o1.machine, h, o1.log, mail);
    assert o2.machine == Basic(Mail(d, from, true));
    assert o2.log == [HeloCall(ip, d), MailCall(ip, d, from)];
    RcptTwice(ip, d, from, true, o2.log, rcpt0, to0, rcpt1, to1);
    assert o2.log + [RcptCall(to0), RcptCall(to1)] == [HeloCall(ip, d), MailCall(ip, d, from), RcptCall(to0), RcptCall(to1)];
  }

  /**
   * The `callbacks` test, second half: DATA hands the recipients and the 8-bit
   * flag to the handler, each message line follows as it was sent (without a
   * transparency dot), and `.` CRLF ends the message.
   */
  lemma CallbacksMessage(ip: IpAddr, d: Str, from: Str, to: seq<Str>, log: seq<Call>,
                         dataLine: seq<Byte>, text1: seq<Byte>, text2: seq<Byte>)
    requires Parser.Parse(dataLine) == Ok(Commands.Data) && text1 != END_OF_DATA && text2 != END_OF_DATA
    ensures var cfg, h := NewConfig(ip, []), DefaultHandler();
      var o1 := SessionStep(cfg, Basic(Rcpt(d, from, true, to)), h, log, dataLine);
      var o2 := SessionStep(cfg, o1.machine, h, o1.log, text1);
      var o3 := SessionStep(cfg, o2.machine, h, o2.log, text2);
      var o4 := SessionStep(cfg, o3.machine, h, o3.log, END_OF_DATA);
      && o4.response.code == 250 && o4.machine == Basic(Hello(d))
      && o4.log == log + [DataStartCall(d, from, true, to), DataCall(Unstuff(text1)), DataCall(Unstuff(text2)), DataEndCall]
  {
    var cfg, h := NewConfig(ip, []), DefaultHandler();
    var m := Basic(Rcpt(d, from, true, to));
    CommandLine(cfg, m, h, log, dataLine, Commands.Data);
    FsmProperties.DataPassesRecipients(cfg, m, d, from, true, to, h, log);
    var o1 := SessionStep(cfg, m, h, log, dataLine);
    assert o1.machine == Basic(Data(d));
    TextLine(cfg, o1.machine, d, h, o1.log, text1);
    var o2 := SessionStep(cfg, o1.machine, h, o1.log, text1);
    TextLine(cfg, o2.machine, d, h, o2.log, text2);
    var o3 := SessionStep(cfg, o2.machine, h, o2.log, text2);
    FsmProperties.EndLineEndsData(o3.machine, d, h, o3.log);
    FsmProperties.DataEndReturnsToHello(cfg, o3.machine, d, h, o3.log);
  }
}
