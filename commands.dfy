/** The commands a client sends, after parsing, and decoded PLAIN credentials. */
module Commands {
  import opened Bytes

  /**
   * An SMTP command. `AuthResponse`, `DataEnd` and `StartedTls` never come out
   * of the command parser: the state machine makes them from a line read in the
   * Auth state, from the end-of-data line and from the transport's TLS upgrade.
   */
  datatype Cmd =
    | Ehlo(domain: Str)
    | Helo(domain: Str)
    | Mail(reversePath: Str, is8bit: bool)
    | Rcpt(forwardPath: Str)
    | Data
    | Rset
    | Noop
    | StartTls
    | Quit
    | Vrfy
    | AuthPlain(authorizationId: Str, authenticationId: Str, password: Str)
    | AuthPlainEmpty
    | AuthResponse(response: seq<Byte>)
    | DataEnd
    | StartedTls

  /** The three fields of a SASL PLAIN message (RFC 4616, section 2). */
  datatype Credentials = Credentials(authorizationId: Str, authenticationId: Str, password: Str)
}
