/**
 * The library's interface to its user: the `Handler` callbacks that decide
 * whether mail is accepted, and the authentication mechanisms.
 *
 * A handler is the user's own code with its own state. It is modelled as a
 * record of callbacks that each see the history of calls made so far, so a
 * handler may answer anything and may change its mind as the session goes on;
 * the `Call` values are that history, and so they are also what the handler
 * has been told.
 */
module Mailin {
  import opened Bytes
  import opened Replies

  /** The client's address, as its octets. */
  type IpAddr = seq<Byte>

  /** One call into the handler, with its arguments. */
  datatype Call =
    | HeloCall(ip: IpAddr, domain: Str)
    | MailCall(ip: IpAddr, domain: Str, from: Str)
    | RcptCall(to: Str)
    | DataStartCall(domain: Str, from: Str, is8bit: bool, recipients: seq<Str>)
    | DataCall(buf: seq<Byte>)
    | DataEndCall
    | AuthPlainCall(authorizationId: Str, authenticationId: Str, password: Str)

  /**
   * The `Handler` trait: each callback receives the calls made before it.
   * `data` answers whether the buffer was stored (the `io::Result` of the source).
   */
  datatype Handler = Handler(
    helo: (seq<Call>, IpAddr, Str) -> Response,
    mail: (seq<Call>, IpAddr, Str, Str) -> Response,
    rcpt: (seq<Call>, Str) -> Response,
    dataStart: (seq<Call>, Str, Str, bool, seq<Str>) -> Response,
    data: (seq<Call>, seq<Byte>) -> bool,
    dataEnd: seq<Call> -> Response,
    authPlain: (seq<Call>, Str, Str, Str) -> Response)

  /** The trait's default methods: accept everything, refuse every credential. */
  function DefaultHandler(): (h: Handler)
    ensures forall log, ip, domain :: h.helo(log, ip, domain) == OK
    ensures forall log, ip, domain, from :: h.mail(log, ip, domain, from) == OK
    ensures forall log, to :: h.rcpt(log, to) == OK
    ensures forall log, domain, from, is8bit, to :: h.dataStart(log, domain, from, is8bit, to) == OK
    ensures forall log, buf :: h.data(log, buf)
    ensures forall log :: h.dataEnd(log) == OK
    ensures forall log, authz, authc, password :: h.authPlain(log, authz, authc, password) == INVALID_CREDENTIALS
  {
    Handler(
      (log, ip, domain) => OK,
      (log, ip, domain, from) => OK,
      (log, to) => OK,
      (log, domain, from, is8bit, to) => OK,
      (log, buf) => true,
      log => OK,
      (log, authz, authc, password) => INVALID_CREDENTIALS)
  }

  /** Supported authentication mechanisms. */
  datatype AuthMechanism = Plain

  /** The EHLO keyword line that advertises a mechanism. */
  function Extension(m: AuthMechanism): Str
  {
    match m
    case Plain => B("AUTH PLAIN")
  }
}
