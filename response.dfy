/**
 * SMTP replies: a three-digit code, the text, whether the reply is an error and
 * what the caller should do after sending it; and their serialisation as reply
 * lines (RFC 5321, section 4.2.1).
 */
module Replies {
  import opened Bytes

  /** Rust's `u16`, the type of a reply code. */
  type U16 = c: int | 0 <= c < 0x1_0000

  /** What the transport should do once the reply is written. */
  datatype Action = Close | UpgradeTls | NoReply | Reply

  /** The text of a reply. */
  datatype Message =
    | Fixed(text: Str)
    | Custom(text: Str)
    | Dynamic(head: Str, tail: seq<Str>)
    | Empty

  datatype Response = Response(code: U16, message: Message, isError: bool, action: Action)

  /**
   * Positive completion (2yz) or positive intermediate (3yz) replies, the two
   * classes of RFC 5321 section 4.2.1 that do not report a failure.
   */
  predicate IsPositiveClass(code: int)
  {
    code / 100 == 2 || code / 100 == 3
  }

  /** Replies 221 (closing) and 421 (service not available) end the session. */
  function ActionFromCode(code: U16): (a: Action)
    ensures a == Close <==> code == 221 || code == 421
    ensures a != Close ==> a == Reply
  {
    if code == 221 || code == 421 then Close else Reply
  }

  /** A reply with a fixed text and an explicit action. */
  function FixedActionReply(code: U16, text: Str, action: Action): (r: Response)
    ensures r.code == code && r.message == Fixed(text) && r.action == action
    ensures r.isError <==> !IsPositiveClass(code)
  {
    Response(code, Fixed(text), code < 200 || code >= 400, action)
  }

  /** A reply with a fixed text whose action follows from its code. */
  function FixedReply(code: U16, text: Str): (r: Response)
    ensures r.code == code && r.message == Fixed(text)
    ensures r.isError <==> !IsPositiveClass(code)
    ensures r.action == Close <==> code == 221 || code == 421
    ensures r.action != Close ==> r.action == Reply
  {
    FixedActionReply(code, text, ActionFromCode(code))
  }

  /** A reply defined by the application. */
  function CustomReply(code: U16, text: Str): (r: Response)
    ensures r.code == code && r.message == Custom(text)
    ensures r.isError <==> !IsPositiveClass(code)
    ensures r.action == Close <==> code == 221 || code == 421
    ensures r.action != Close ==> r.action == Reply
  {
    Response(code, Custom(text), code < 200 || code >= 400, ActionFromCode(code))
  }

  /** A reply built at run time, possibly of several lines; never an error. */
  function DynamicReply(code: U16, head: Str, tail: seq<Str>): (r: Response)
    ensures r.code == code && r.message == Dynamic(head, tail)
    ensures !r.isError && r.action == Reply
  {
    Response(code, Dynamic(head, tail), false, Reply)
  }

  /** The reply that sends nothing back. */
  function EmptyReply(): (r: Response)
    ensures r.code == 0 && r.message == Empty && !r.isError && r.action == NoReply
  {
    Response(0, Empty, false, NoReply)
  }

  //---- The reply constants ----------------------------------------------------

  const EMPTY_RESPONSE: Response := EmptyReply()
  const START_TLS: Response := FixedActionReply(220, B("Ready to start TLS"), UpgradeTls)
  const GOODBYE: Response := FixedReply(221, B("Goodbye"))
  const AUTH_OK: Response := FixedReply(235, B("Authentication succeeded"))
  const OK: Response := FixedReply(250, B("OK"))
  const VERIFY_RESPONSE: Response := FixedReply(252, B("Maybe"))
  const EMPTY_AUTH_CHALLENGE: Response := FixedReply(334, [])
  const START_DATA: Response := FixedReply(354, B("Start mail input; end with <CRLF>.<CRLF>"))
  const INVALID_STATE: Response := FixedReply(421, B("Internal service error, closing connection"))
  const NO_SERVICE: Response := FixedReply(421, B("Service not available, closing connection"))
  const INTERNAL_ERROR: Response := FixedReply(451, B("Aborted: local error in processing"))
  const OUT_OF_SPACE: Response := FixedReply(452, B("Insufficient system storage"))
  const TEMP_AUTH_FAILURE: Response := FixedReply(454, B("Temporary authentication failure"))
  const SYNTAX_ERROR: Response := FixedReply(500, B("Syntax error"))
  const MISSING_PARAMETER: Response := FixedReply(502, B("Missing parameter"))
  const BAD_SEQUENCE_COMMANDS: Response := FixedReply(503, B("Bad sequence of commands"))
  const NO_STORAGE: Response := FixedReply(552, B("Exceeded storage allocation"))
  const AUTHENTICATION_REQUIRED: Response := FixedReply(530, B("Authentication required"))
  const INVALID_CREDENTIALS: Response := FixedReply(535, B("Invalid credentials"))
  const NO_MAILBOX: Response := FixedReply(550, B("Mailbox unavailable"))
  const BAD_HELLO: Response := FixedReply(550, B("Bad HELO"))
  const BLOCKED_IP: Response := FixedReply(550, B("IP address on blocklists"))
  const BAD_MAILBOX: Response := FixedReply(553, B("Mailbox name not allowed"))
  const TRANSACTION_FAILED: Response := FixedReply(554, B("Transaction failed"))

  /** Every fixed reply the library defines, in the order they are declared. */
  const FIXED_REPLIES: seq<Response> := [
    START_TLS, GOODBYE, AUTH_OK, OK, VERIFY_RESPONSE, EMPTY_AUTH_CHALLENGE, START_DATA,
    INVALID_STATE, NO_SERVICE, INTERNAL_ERROR, OUT_OF_SPACE, TEMP_AUTH_FAILURE, SYNTAX_ERROR,
    MISSING_PARAMETER, BAD_SEQUENCE_COMMANDS, NO_STORAGE, AUTHENTICATION_REQUIRED,
    INVALID_CREDENTIALS, NO_MAILBOX, BAD_HELLO, BLOCKED_IP, BAD_MAILBOX, TRANSACTION_FAILED]

  /**
   * START_TLS is the one fixed reply that asks for a TLS upgrade; of the others
   * exactly those with code 221 or 421 close the session, and the rest reply.
   */
  lemma FixedReplyActions()
    ensures START_TLS.action == UpgradeTls
    ensures forall i :: 1 <= i < |FIXED_REPLIES| ==>
      FIXED_REPLIES[i].action != UpgradeTls &&
      (FIXED_REPLIES[i].action == Close <==> FIXED_REPLIES[i].code in {221, 421})
  {
  }

  //---- Serialisation -------------------------------------------------------------

  /** One reply line: the code, `-` on all but the last line (a space on the last), the text, CRLF. */
  function ReplyLine(code: U16, last: bool, text: Str): seq<Byte>
  {
    Decimal(code) + [if last then SP else HYPHEN] + text + CRLF
  }

  /** The reply lines carrying `texts`, one line per text, in order. */
  function MultiLine(code: U16, texts: seq<Str>): seq<Byte>
    decreases |texts|
  {
    if texts == [] then []
    else ReplyLine(code, |texts| == 1, texts[0]) + MultiLine(code, texts[1..])
  }

  /** The texts of the lines a reply is written as. */
  function Texts(r: Response): (t: seq<Str>)
    ensures r.message.Empty? <==> t == []
    ensures (r.message.Fixed? || r.message.Custom?) ==> t == [r.message.text]
    ensures r.message.Dynamic? ==> t == [r.message.head] + r.message.tail
  {
    match r.message
    case Fixed(s) => [s]
    case Custom(s) => [s]
    case Dynamic(head, tail) => [head] + tail
    case Empty => []
  }

  /** The bytes `write_to` produces for a reply. */
  function Wire(r: Response): seq<Byte>
  {
    MultiLine(r.code, Texts(r))
  }

  /** Concatenation of a list of lines. */
  function Concat(lines: seq<seq<Byte>>): seq<Byte>
    decreases |lines|
  {
    if lines == [] then [] else lines[0] + Concat(lines[1..])
  }

  /**
   * `MultiLine` is the concatenation of one line per text, where line `i`
   * carries text `i` and has a space after the code exactly when it is the last.
   */
  lemma {:induction false} MultiLineIsLines(code: U16, texts: seq<Str>)
    ensures MultiLine(code, texts) ==
      Concat(seq(|texts|, i requires 0 <= i < |texts| => ReplyLine(code, i == |texts| - 1, texts[i])))
    decreases |texts|
  {
    var lines := seq(|texts|, i requires 0 <= i < |texts| => ReplyLine(code, i == |texts| - 1, texts[i]));
    if texts != [] {
      var rest := seq(|texts| - 1, i requires 0 <= i < |texts| - 1 => ReplyLine(code, i == |texts| - 2, texts[1..][i]));
      MultiLineIsLines(code, texts[1..]);
      assert lines[1..] == rest;
    }
  }

  /** A single text is written as one last line. */
  lemma MultiLineSingle(code: U16, text: Str)
    ensures MultiLine(code, [text]) == ReplyLine(code, true, text)
  {
    assert [text][1..] == [];
  }

  /** The empty reply writes nothing. */
  lemma EmptyWritesNothing()
    ensures Wire(EMPTY_RESPONSE) == []
  {
  }

  /** A fixed or custom reply is the single line `<code> <text>\r\n`. */
  lemma SingleLineReply(r: Response)
    requires r.message.Fixed? || r.message.Custom?
    ensures Wire(r) == Decimal(r.code) + [SP] + r.message.text + CRLF
  {
    MultiLineSingle(r.code, r.message.text);
  }

  /**
   * A dynamic reply with `n` tail texts is written as `1 + n` lines: the head
   * line, then each tail text; all but the last have `-` after the code.
   */
  lemma DynamicReplyLines(code: U16, head: Str, tail: seq<Str>)
    ensures tail == [] ==> Wire(DynamicReply(code, head, tail)) == ReplyLine(code, true, head)
    ensures tail != [] ==> Wire(DynamicReply(code, head, tail)) == ReplyLine(code, false, head) + MultiLine(code, tail)
  {
    assert ([head] + tail)[1..] == tail;
    if tail == [] {
      MultiLineSingle(code, head);
    }
  }

  /** Writes `r` after what `out` already holds, following the source's loop over the tail. */
  method WriteTo(r: Response, out: seq<Byte>) returns (written: seq<Byte>)
    ensures written == out + Wire(r)
  {
    match r.message {
      case Dynamic(head, tail) =>
        assert ([head] + tail)[1..] == tail;
        if |tail| == 0 {
          MultiLineSingle(r.code, head);
          written := out + ReplyLine(r.code, true, head);
        } else {
          written := out + ReplyLine(r.code, false, head);
          var i := 0;
          while i < |tail|
            invariant 0 <= i <= |tail|
            invariant written + MultiLine(r.code, tail[i..]) == out + Wire(r)
          {
            assert tail[i..][1..] == tail[i + 1..];
            if |tail| > 1 && i < |tail| - 1 {
              written := written + ReplyLine(r.code, false, tail[i]);
            } else {
              written := written + ReplyLine(r.code, true, tail[i]);
            }
            i := i + 1;
          }
          assert tail[i..] == [];
        }
      case Fixed(s) =>
        MultiLineSingle(r.code, s);
        written := out + ReplyLine(r.code, true, s);
      case Custom(s) =>
        MultiLineSingle(r.code, s);
        written := out + ReplyLine(r.code, true, s);
      case Empty =>
        written := out;
    }
  }
}
