# mailin SMTP engine and chat messages, in Dafny

This project models the SMTP server engine `mailin` as it is vendored in the
mailhook repository (`patch/mailin/src`), together with the rich-text message
builders of the bot's chat client (`src/bot_server/feishu_client/message.rs`).
It proves properties of that model.

The engine does four things:

- **Parser** (`parser.rs`): turns one client line into a command. The commands
  are HELO, EHLO, MAIL FROM, RCPT TO, DATA, RSET, QUIT, VRFY, NOOP, STARTTLS
  and AUTH PLAIN. It also decodes the Base64 SASL PLAIN credentials.
- **Replies** (`response.rs`): the fixed replies, their action (reply, close,
  upgrade to TLS, no reply), and their wire format.
- **State machine** (`fsm.rs`): the states Idle, Hello, HelloAuth, Auth, Mail,
  Rcpt and Data. It tracks the TLS and authentication flags, calls the
  application's handler, and feeds message lines in Data.
- **Sessions** (`smtp.rs`, `lib.rs`): the `SessionBuilder` configuration, the
  `Session` that processes lines, and the `Handler` callbacks.

Module layout:

- `bytes.dfy`: bytes, ASCII case, and UTF-8 validity (the table of RFC 3629).
- `base64.dfy`: the standard Base64 alphabet, with padding (section 4 of RFC 4648).
- `response.dfy`: `Response`, the fixed replies, and `write_to`.
- `commands.dfy`: `Cmd` and `Credentials`.
- `parser.dfy`: the nom parsers as functions over byte sequences, plus lemmas
  for each kind of line.
- `mailin.dfy`: the handler, the calls made into it, and `AuthMechanism`.
- `fsm.dfy`: the states, one pure function per state's `handle`, and the
  `StateMachine` class.
- `fsm_properties.dfy`: the session invariant and what every command does in
  every state.
- `smtp.dfy`: the `SessionBuilder` and `Session` classes.
- `scenarios.dfy` and `test_tokens.dfy`: the library's own tests, generalised
  over every domain, path and verb spelling they stand for.
- `feishu_message.dfy`: chat messages and the post builders.

Modelling decisions:

- **Handler.** The Rust `Handler` trait becomes a datatype of callback
  functions. Each callback also receives the history of calls made so far,
  which stands for the handler's own mutable state. Every call the engine
  makes is appended to that history, so the lemmas can say which callbacks
  ran, in what order, and with which arguments.
- **Session state.** Each state's `handle` is a pure function from the
  machine to an `Outcome`: the reply, the new machine, and the new history.
  The `StateMachine` and `Session` classes hold the mutable fields. Their
  methods are proved to update those fields exactly as the functions say.

## Behaviour of the code as written

In these places the code does not do what a reader of RFC 5321 might
expect, and the model follows the code:

- **Parse errors.** Every parse error is 500. The parsers use nom's
  `complete` combinators, so the "incomplete" branch that would give 502 is
  never taken.
- **Bytes after CRLF** in a command line are ignored.
- **Unknown verbs** are a syntax error. They are not an extension command,
  and there is no HELP.
- **`MAIL FROM:<>`** (the null sender) is rejected.
- **MAIL parameters.** `BODY=7BIT` and `BODY=8BITMIME` are the only
  parameters MAIL accepts. SIZE and anything else is a syntax error.
- **Blanks after `FROM:` and `TO:`** may be spaces or tabs (`space0`).
- **NOOP** is parsed but, as a command, gets 503 in every state that reads
  commands. In Auth a line is read as a Base64 response and in Data as
  message text, so there `NOOP` is not a command at all.
- **VRFY** is answered 252 only in Hello. As a command it gets 503 in the
  other states that read commands; in Auth the line is a malformed
  response (500) and in Data it is message text.
- **EHLO extensions.** The reply lists 8BITMIME. It lists STARTTLS exactly
  while TLS is available but inactive, and AUTH PLAIN only outside that
  case. There is no SIZE and there are no enhanced status codes.
- **STARTTLS in HelloAuth** is answered 220 whatever the TLS state. After a
  STARTTLS, `tls_active` takes effect only in Idle, and there it sets TLS
  active even when STARTTLS was never offered.
- **Authentication replies.**
  - Only a 235 from the handler authenticates.
  - Any other non-error reply still moves to Hello, unauthenticated.
  - In the Auth state a Close from the handler does not end the session.
- **After DATA**, a finished message returns to Hello even when
  authentication is on.
- **Base64.** The crate version is not pinned. Decoding is modelled as
  strict RFC 4648 decoding: padding is required and non-zero pad bits are
  rejected.

## Model

| member | source | states |
|---|---|---|
| Bytes.AsciiIsUtf8 | patch/mailin/src/parser.rs:41-43 | Every ASCII byte string is valid UTF-8, so `str::from_utf8` accepts any ASCII domain or path |
| Bytes.Utf8HasNoHighOctet | patch/mailin/src/parser.rs:41-43 | No octet of valid UTF-8 is 0xF5 or above, so such a domain fails `from_utf8` |
| Bytes.Decimal | patch/mailin/src/response.rs:143-163 | The decimal digits of a reply code: non-empty, all digits, no leading zero, and their value is the code |
| Base64.Encode | patch/mailin/src/parser.rs:171-190 | Base64 output is a multiple of four characters, empty only for empty input, and uses only the alphabet and `=` |
| Base64.DecodeEncode | patch/mailin/src/parser.rs:171-190 | Decoding the Base64 encoding of any byte string gives that string back |
| Base64.Decode | patch/mailin/src/parser.rs:173-176 | Decoding succeeds only on a multiple of four characters |
| Base64.EncodeDecode | patch/mailin/src/parser.rs:173-176 | Whatever decodes is the padded encoding of its result, so pads inside the text or non-zero bits under the padding are refused; with DecodeEncode, Encode and Decode are inverse |
| Replies.ActionFromCode | patch/mailin/src/response.rs:94-99 | A reply closes the connection exactly for codes 221 and 421; every other code is a plain reply |
| Replies.FixedActionReply | patch/mailin/src/response.rs:102-109 | A fixed reply keeps its code, text and action, and is an error exactly when its code is not 2xx or 3xx |
| Replies.FixedReply | patch/mailin/src/response.rs:90-92 | As above, with the action taken from the code: Close exactly for 221 and 421 |
| Replies.CustomReply | patch/mailin/src/response.rs:112-119 | A custom reply carries its text, is an error exactly outside 2xx and 3xx, and closes exactly for 221 and 421 |
| Replies.DynamicReply | patch/mailin/src/response.rs:122-129 | A multi-line reply carries its head and tail, is never an error, and never closes |
| Replies.EmptyReply | patch/mailin/src/response.rs:132-139 | The empty reply has code 0, no text, is not an error, and sends nothing |
| Replies.FixedReplyActions | patch/mailin/src/response.rs:5-53 | START_TLS is the only constant that upgrades to TLS, and a constant closes exactly when its code is 221 or 421 |
| Replies.Texts | patch/mailin/src/response.rs:143-163 | The lines of text a reply writes: none when empty, one when fixed or custom, head then tail when dynamic |
| Replies.MultiLineIsLines | patch/mailin/src/response.rs:149-156 | The tail of a multi-line reply is one `code-text` line per entry, and only the last uses a space |
| Replies.MultiLineSingle | patch/mailin/src/response.rs:152-154 | A tail of one line is written as the final `code text` line |
| Replies.EmptyWritesNothing | patch/mailin/src/response.rs:160 | The empty reply writes no bytes |
| Replies.SingleLineReply | patch/mailin/src/response.rs:158-159 | A fixed or custom reply is written as code, space, text, CRLF |
| Replies.DynamicReplyLines | patch/mailin/src/response.rs:145-157 | A dynamic reply is one final line when its tail is empty, else a continuation head line followed by the tail's lines |
| Replies.Wire | patch/mailin/src/response.rs:143-163 | No contract of its own: the bytes `write_to` writes; stated by Replies.EmptyWritesNothing, SingleLineReply, DynamicReplyLines and WriteTo |
| Replies.WriteTo | patch/mailin/src/response.rs:143-163 | `write_to` appends exactly the reply's wire bytes to the output |
| Parser.PrefixLen | patch/mailin/src/parser.rs:41-43 | The length of the longest prefix whose bytes satisfy the predicate |
| Parser.TakeWhile1 | patch/mailin/src/parser.rs:41-43 | `take_while1` succeeds exactly on a non-empty matching run, and splits the input into the maximal run and the rest |
| Parser.TagNoCase | patch/mailin/src/parser.rs:148-150 | `tag_no_case` succeeds exactly when the input starts with the tag up to ASCII case |
| Parser.Tag | patch/mailin/src/parser.rs:76-85 | `tag` succeeds exactly when the input starts with the tag, and leaves what follows |
| Parser.Space | patch/mailin/src/parser.rs:153-155 | The space parser succeeds exactly on a leading SP |
| Parser.Space0 | patch/mailin/src/parser.rs:76-93 | `space0` always succeeds and takes the maximal run of spaces and tabs |
| Parser.Verb | patch/mailin/src/parser.rs:148-155 | `cmd` succeeds exactly when the line starts with the name up to case and a space follows it (a tab or the end of the line does not do) |
| Parser.VerbRest | patch/mailin/src/parser.rs:148-155 | What `cmd` leaves is the line after the name and its whole run of spaces |
| Parser.Utf8Run | patch/mailin/src/parser.rs:41-43 | `map_res(take_while1, from_utf8)` yields a non-empty, valid UTF-8 maximal run of allowed bytes |
| Parser.HelloDomain | patch/mailin/src/parser.rs:41-43 | A HELO domain is a non-empty, UTF-8 run without space, TAB, CR or LF |
| Parser.MailPath | patch/mailin/src/parser.rs:55-57 | A mail path is a non-empty, UTF-8 run without space, TAB, `<`, `>`, CR or LF |
| Parser.ParseHelo | patch/mailin/src/parser.rs:45-48 | HELO parses only from a `helo` verb and yields a well-formed domain |
| Parser.ParseEhlo | patch/mailin/src/parser.rs:50-53 | EHLO parses only from an `ehlo` verb and yields a well-formed domain |
| Parser.BodyEq8bit | patch/mailin/src/parser.rs:63-70 | The BODY parameter parses only after a space |
| Parser.Is8BitMime | patch/mailin/src/parser.rs:72-74 | The optional BODY parameter always succeeds, and is 8-bit only after a space |
| Parser.AnglePath | patch/mailin/src/parser.rs:76-93 | An angle-bracketed path yields a well-formed mail path |
| Parser.ParseMail | patch/mailin/src/parser.rs:76-85 | MAIL parses only from a `mail` verb and yields a well-formed reverse path |
| Parser.ParseRcpt | patch/mailin/src/parser.rs:87-93 | RCPT parses only from a `rcpt` verb and yields a well-formed forward path |
| Parser.Keyword | patch/mailin/src/parser.rs:95-118 | DATA, RSET, QUIT, NOOP and STARTTLS parse exactly when the line starts with their name, and leave the rest |
| Parser.ParseVrfy | patch/mailin/src/parser.rs:107-110 | VRFY parses only from a `vrfy` verb, and its argument is dropped |
| Parser.ParseAuth | patch/mailin/src/parser.rs:141-143 | AUTH parses only as PLAIN, with or without credentials, and any credentials are UTF-8 without NUL |
| Parser.AuthInitial | patch/mailin/src/parser.rs:124-126 | The initial response is an optional space and a Base64 run; when absent nothing is consumed |
| Parser.Parse | patch/mailin/src/parser.rs:17-39 | `parse` fails only with 500, never 502; any command it yields is well formed, and only a line holding a CRLF yields one |
| Parser.CommandLineCrlf | patch/mailin/src/parser.rs:32-39 | `command` succeeds only where a CRLF follows the command it read |
| Parser.ParseAuthResponse | patch/mailin/src/parser.rs:26-30 | An AUTH response line parses to its non-empty Base64 token, which is followed by CRLF; failures are 500 |
| Parser.Split | patch/mailin/src/parser.rs:174 | Splitting at NUL gives at least one field, no field holds NUL, and joining the fields gives the input back |
| Parser.SplitJoin | patch/mailin/src/parser.rs:174 | Splitting NUL-joined fields that hold no NUL gives the fields back |
| Parser.NextString | patch/mailin/src/parser.rs:192-197 | The next credential is the field when it is UTF-8, and the empty string when missing or invalid |
| Parser.DecodeSaslPlain | patch/mailin/src/parser.rs:171-190 | Credentials are empty when the Base64 is invalid, and are always UTF-8 without NUL |
| Parser.SaslPlainCmd | patch/mailin/src/parser.rs:157-168 | AUTH PLAIN without a parameter is the challenge command, and with one it carries decoded credentials |
| Parser.ParsersFail | patch/mailin/src/parser.rs:32-39 | Each verb parser fails on a line whose first byte is not its verb's first letter |
| Parser.NoVerb | patch/mailin/src/parser.rs:17-39 | A line that starts with no verb's letter is a 500 syntax error |
| Parser.ParseHeloLine | patch/mailin/src/parser.rs:45-48 | `HELO` in any case, one or more spaces, a domain and CRLF parse to that HELO, whatever follows the CRLF |
| Parser.ParseEhloLine | patch/mailin/src/parser.rs:50-53 | The same for EHLO |
| Parser.HeloRejectsNonUtf8 | patch/mailin/src/parser.rs:41-48 | A HELO line whose domain bytes are not UTF-8 is a 500 syntax error |
| Parser.HighOctetIsNotUtf8 | patch/mailin/src/parser.rs:41-43 | A byte string holding an octet of 0xF5 or above is not UTF-8 |
| Parser.ParseMailLine | patch/mailin/src/parser.rs:76-85 | `MAIL FROM:` in any case, spaces or tabs, `<path>` and CRLF parse to MAIL for that path, not 8-bit |
| Parser.ParseMailBodyLine | patch/mailin/src/parser.rs:63-85 | With ` BODY=8BITMIME` the MAIL is 8-bit, and with ` BODY=7BIT` it is not |
| Parser.MailRejectsOtherParameters | patch/mailin/src/parser.rs:72-85 | Any MAIL parameter other than BODY makes the line a 500 syntax error |
| Parser.MailRejectsNullPath | patch/mailin/src/parser.rs:55-57 | `MAIL FROM:<>` is a 500 syntax error |
| Parser.VerbNeedsSpace | patch/mailin/src/parser.rs:147-155 | HELO, EHLO, MAIL, RCPT, VRFY and AUTH followed by anything but a space, or by nothing, are a 500 syntax error |
| Parser.ParseRcptLine | patch/mailin/src/parser.rs:87-93 | `RCPT TO:` in any case, spaces or tabs, `<path>` and CRLF parse to RCPT for that path |
| Parser.RcptRejectsTrailing | patch/mailin/src/parser.rs:87-93 | RCPT takes no parameters: whatever follows the `>` without starting with CRLF (nothing, a parameter, a lone CR) is a 500 syntax error |
| Parser.ParseKeywordLine | patch/mailin/src/parser.rs:95-118 | DATA, RSET, QUIT, NOOP and STARTTLS in any case, then CRLF, parse to their commands |
| Parser.KeywordRejectsTrailing | patch/mailin/src/parser.rs:95-118 | The same keywords followed by anything that does not start with CRLF (nothing, an argument, a lone CR) are a 500 syntax error |
| Parser.ParseVrfyLine | patch/mailin/src/parser.rs:107-110 | `VRFY`, spaces and a UTF-8 argument parse to VRFY |
| Parser.VrfyRejectsEmpty | patch/mailin/src/parser.rs:107-110 | `VRFY` and spaces with no argument before the CRLF is a 500 syntax error |
| Parser.ParseAuthEmptyLine | patch/mailin/src/parser.rs:136-143 | `AUTH PLAIN` alone parses to the challenge command (the `auth_empty` test) |
| Parser.ParseAuthInitialLine | patch/mailin/src/parser.rs:124-143 | `AUTH PLAIN` with a Base64 token parses to the SASL PLAIN command of that token |
| Parser.SaslPlainRoundTrip | patch/mailin/src/parser.rs:171-197 | Decoding the Base64 of `authz NUL authc NUL password` gives back the three credentials |
| Parser.ParseAuthPlainLine | patch/mailin/src/parser.rs:136-197 | An AUTH PLAIN line carrying encoded credentials parses to AUTH PLAIN with exactly those credentials |
| Parser.ParseAuthResponseLine | patch/mailin/src/parser.rs:26-30 | A line holding a Base64 token and CRLF parses to that token |
| Mailin.DefaultHandler | patch/mailin/src/lib.rs:88-134 | The default handler accepts everything with 250, takes every message line, and refuses every login with 535 |
| Mailin.Extension | patch/mailin/src/lib.rs:143-150 | No contract of its own: PLAIN is advertised as `AUTH PLAIN`; stated by FsmProperties.EhloAdvertises |
| Fsm.NewConfig | patch/mailin/src/fsm.rs:523-539 | The configuration allows AUTH PLAIN exactly when PLAIN is among the mechanisms |
| Fsm.NewMachine | patch/mailin/src/fsm.rs:523-539 | A new machine is Idle; it requires authentication iff mechanisms are configured; TLS is inactive iff STARTTLS is offered |
| Fsm.NextState | patch/mailin/src/fsm.rs:66-81 | The session ends exactly on Close; otherwise it moves to the successor exactly when the reply is not an error |
| Fsm.AllowAuthPlain | patch/mailin/src/fsm.rs:583-585 | No contract of its own: true exactly when PLAIN is configured and TLS is active; stated by Fsm.StateMachine.AllowsAuthPlain and FsmProperties.AuthNeedsTls |
| Fsm.Route | patch/mailin/src/fsm.rs:84-100 | No contract of its own: `transform_state`, the reply paired with NextState; stated by FsmProperties.EndsOnlyOnClose, CloseEndsSession and ErrorKeepsState |
| Fsm.Unhandled | patch/mailin/src/fsm.rs:116-118 | No contract of its own: 503 and the state stays; stated by FsmProperties.UnhandledIff and NoopIsBadSequence |
| Fsm.HandleRset | patch/mailin/src/fsm.rs:120-135 | No contract of its own: 250, then Hello without authentication and HelloAuth with it; stated by FsmProperties.RsetResets |
| Fsm.HandleHelo | patch/mailin/src/fsm.rs:137-157 | No contract of its own: the handler is asked only without authentication, otherwise 550; stated by FsmProperties.HeloOutcome and HeloRefusedWithAuth |
| Fsm.Extensions | patch/mailin/src/fsm.rs:571-581 | No contract of its own: 8BITMIME, then STARTTLS or the mechanisms; stated by FsmProperties.EhloAdvertises |
| Fsm.EhloReply | patch/mailin/src/fsm.rs:571-581 | No contract of its own: the 250 multi-line reply of the extensions; stated by FsmProperties.EhloAdvertises and Fsm.StateMachine.EhloResponse |
| Fsm.HandleEhlo | patch/mailin/src/fsm.rs:159-181 | No contract of its own: a 250 from the handler becomes the extension list; stated by FsmProperties.EhloOutcome |
| Fsm.DefaultHandling | patch/mailin/src/fsm.rs:102-114 | No contract of its own: QUIT, HELO and EHLO everywhere, 503 for the rest; stated by FsmProperties.QuitEnds and UnhandledIff |
| Fsm.Authenticate | patch/mailin/src/fsm.rs:183-197 | No contract of its own: only a 235 authenticates; stated by FsmProperties.AuthPlainOutcome and AuthenticatedOnlyBy235 |
| Fsm.HandleIdle | patch/mailin/src/fsm.rs:203-224 | No contract of its own: stated by FsmProperties.IdleRoutes, IdleRefuses, TlsOnlyByStartedTls and RsetResets |
| Fsm.HandleHello | patch/mailin/src/fsm.rs:232-266 | No contract of its own: stated by FsmProperties.HelloRoutes, HelloRefuses, MailStartsTransaction and MailOnlyInHello |
| Fsm.HandleHelloAuth | patch/mailin/src/fsm.rs:274-310 | No contract of its own: stated by FsmProperties.HelloAuthRoutes, HelloAuthRefuses, AuthNeedsTls, AuthChallenge, AuthPlainOutcome and HelloAuthStartTls |
| Fsm.HandleAuth | patch/mailin/src/fsm.rs:319-354 | No contract of its own: stated by FsmProperties.AuthRoutes, AuthRefuses, AuthResponseOutcome and AuthIgnoresClose |
| Fsm.HandleMail | patch/mailin/src/fsm.rs:376-405 | No contract of its own: stated by FsmProperties.MailRoutes, MailRefuses and RcptAppends |
| Fsm.HandleRcpt | patch/mailin/src/fsm.rs:416-456 | No contract of its own: stated by FsmProperties.RcptRoutes, RcptRefuses, RcptAppends and DataPassesRecipients |
| Fsm.HandleData | patch/mailin/src/fsm.rs:464-487 | No contract of its own: stated by FsmProperties.DataRoutes, DataRefuses and DataEndReturnsToHello |
| Fsm.Handle | patch/mailin/src/fsm.rs:43-48 | No contract of its own: each state's `handle`; stated by FsmProperties.StepPreservesValid and Facts |
| Fsm.Step | patch/mailin/src/fsm.rs:542-549 | No contract of its own: stated by FsmProperties.FinishedSessionIsFinal, StepPreservesValid, Facts and UnhandledIff |
| Fsm.Unstuff | patch/mailin/src/fsm.rs:498-500 | No contract of its own: one leading dot is removed; stated by FsmProperties.UnstuffDropsOneDot and StuffRoundTrip |
| Fsm.DataLine | patch/mailin/src/fsm.rs:489-509 | No contract of its own: the Data state's `process_line`; stated by FsmProperties.EndLineEndsData, TextLineGoesToHandler and StuffedLineDelivered |
| Fsm.ReadLine | patch/mailin/src/fsm.rs:551-563 | No contract of its own: `process_line` by state; stated by Smtp.ReadLineReplies, Smtp.RepliedLineKeepsState and Fsm.StateMachine.ProcessLine |
| Fsm.StateMachine.constructor | patch/mailin/src/fsm.rs:523-539 | The new machine's configuration and state are those of a new session, and its cached PLAIN flag matches the mechanisms |
| Fsm.StateMachine.Command | patch/mailin/src/fsm.rs:542-549 | Running a command updates the fields to the step's new machine and returns its reply and calls |
| Fsm.StateMachine.ProcessLine | patch/mailin/src/fsm.rs:551-563 | Reading a line gives the state's line result and changes nothing |
| Fsm.StateMachine.EhloResponse | patch/mailin/src/fsm.rs:571-581 | The EHLO reply built by the loop is the reply listing the advertised extensions |
| Fsm.StateMachine.Valid | patch/mailin/src/fsm.rs:519-539 | No contract of its own: the cached `auth_plain` flag says whether PLAIN is among the mechanisms; established by Fsm.StateMachine.constructor and Smtp.SessionBuilder.Build |
| Fsm.StateMachine.AllowsAuthPlain | patch/mailin/src/fsm.rs:583-585 | AUTH PLAIN is allowed exactly when PLAIN is among the configured mechanisms and TLS is active |
| FsmProperties.NewSessionValid | patch/mailin/src/fsm.rs:523-539 | A new session satisfies the session invariant |
| FsmProperties.StepPreservesValid | patch/mailin/src/fsm.rs:201-510 | Every command keeps the invariant: recipients never empty, the auth states only with authentication on, Auth only over TLS |
| FsmProperties.Facts | patch/mailin/src/fsm.rs:66-510 | In any live state, one command ends the session only on Close, keeps the state on an error, keeps the invariant, authenticates only on 235, changes TLS only by StartedTls in Idle, and answers 503 exactly for commands the state does not take |
| FsmProperties.FinishedSessionIsFinal | patch/mailin/src/fsm.rs:542-563 | After the session ended, every command and line gets 421 and changes nothing |
| FsmProperties.EndsOnlyOnClose | patch/mailin/src/fsm.rs:66-81 | A command ends the session only with a Close reply |
| FsmProperties.CloseEndsSession | patch/mailin/src/fsm.rs:66-81 | Outside Auth, a Close reply ends the session |
| FsmProperties.AuthIgnoresClose | patch/mailin/src/fsm.rs:183-197 | In Auth, a Close verdict from the handler leaves the session open |
| FsmProperties.ErrorKeepsState | patch/mailin/src/fsm.rs:66-81 | Outside Auth, an error reply that does not close keeps the state |
| FsmProperties.UnhandledIff | patch/mailin/src/fsm.rs:116-118 | A command gets 503 with nothing changed exactly when its state does not take it |
| FsmProperties.NoopIsBadSequence | patch/mailin/src/fsm.rs:201-510 | NOOP gets 503 and changes nothing in every state |
| FsmProperties.MailOnlyInHello | patch/mailin/src/fsm.rs:238-266 | MAIL outside Hello gets 503 and changes nothing |
| FsmProperties.AuthNeedsTls | patch/mailin/src/fsm.rs:280-310 | AUTH PLAIN without TLS active, or without PLAIN configured, gets 503 and changes nothing |
| FsmProperties.MailStartsTransaction | patch/mailin/src/fsm.rs:238-266 | MAIL in Hello asks the handler and opens a transaction for that sender unless refused |
| FsmProperties.RcptAppends | patch/mailin/src/fsm.rs:382-456 | RCPT asks the handler and appends the recipient to the list unless refused |
| FsmProperties.DataPassesRecipients | patch/mailin/src/fsm.rs:422-456 | DATA hands the domain, sender, 8-bit flag and all recipients to the handler; 354 and Data unless refused |
| FsmProperties.DataEndReturnsToHello | patch/mailin/src/fsm.rs:470-487 | The end of data returns the handler's verdict and goes back to Hello |
| FsmProperties.StuffRoundTrip | patch/mailin/src/fsm.rs:489-509 | A dot-stuffed line is never the end marker and unstuffs to the original text |
| FsmProperties.UnstuffDropsOneDot | patch/mailin/src/fsm.rs:489-509 | Unstuffing removes exactly one leading dot and leaves other lines unchanged |
| FsmProperties.EndLineEndsData | patch/mailin/src/fsm.rs:489-509 | In Data, `.` CRLF becomes the end-of-data command |
| FsmProperties.TextLineGoesToHandler | patch/mailin/src/fsm.rs:489-509 | In Data, any other line goes to the handler unstuffed, with no reply, or 554 when refused |
| FsmProperties.StuffedLineDelivered | patch/mailin/src/fsm.rs:489-509 | Whatever text is stuffed and sent, the handler receives it unchanged |
| FsmProperties.AuthPlainOutcome | patch/mailin/src/fsm.rs:183-197 | AUTH PLAIN with credentials asks the handler; authenticated iff 235; TLS unchanged; Hello unless refused |
| FsmProperties.AuthChallenge | patch/mailin/src/fsm.rs:280-310 | AUTH PLAIN alone gets the empty 334 challenge and waits in Auth |
| FsmProperties.AuthResponseOutcome | patch/mailin/src/fsm.rs:325-366 | The challenge response is decoded and judged like AUTH PLAIN with credentials; refused goes back to HelloAuth |
| FsmProperties.AuthenticatedOnlyBy235 | patch/mailin/src/fsm.rs:183-197 | A session becomes authenticated only by a 235 from one logged login call |
| FsmProperties.TlsOnlyByStartedTls | patch/mailin/src/fsm.rs:209-224 | The TLS flag changes only on StartedTls in Idle, and then to active |
| FsmProperties.HelloAuthStartTls | patch/mailin/src/fsm.rs:280-310 | STARTTLS in HelloAuth gets 220 and returns to Idle |
| FsmProperties.EhloAdvertises | patch/mailin/src/fsm.rs:571-581 | EHLO lists 8BITMIME first, then STARTTLS iff TLS is inactive, else AUTH PLAIN iff PLAIN is configured |
| FsmProperties.EhloOutcome | patch/mailin/src/fsm.rs:159-181 | EHLO asks the handler; a 250 becomes the extension list; the session is greeted unless refused |
| FsmProperties.HeloRefusedWithAuth | patch/mailin/src/fsm.rs:137-157 | With authentication configured HELO gets 550 and changes nothing |
| FsmProperties.HeloOutcome | patch/mailin/src/fsm.rs:137-157 | Without authentication HELO asks the handler and greets the client unless refused |
| FsmProperties.RsetResets | patch/mailin/src/fsm.rs:120-135 | RSET gets 250 and returns to Idle, or to the greeted state for the same domain |
| FsmProperties.QuitEnds | patch/mailin/src/fsm.rs:102-114 | QUIT gets 221 and ends the session |
| Smtp.SessionStep | patch/mailin/src/smtp.rs:159-171 | No contract of its own: `process` read as a function; stated by Smtp.RepliedLineKeepsState, ProcessKeepsValid, ProcessEndsOnClose and Smtp.Session.Process |
| Smtp.RepliedLineKeepsState | patch/mailin/src/smtp.rs:159-167 | A line answered without a command leaves the machine unchanged |
| Smtp.ProcessKeepsValid | patch/mailin/src/smtp.rs:159-167 | Processing any line keeps the session invariant |
| Smtp.ProcessEndsOnClose | patch/mailin/src/smtp.rs:159-167 | Outside Auth, a line ends the session exactly when its reply closes the connection |
| Smtp.ReadLineReplies | patch/mailin/src/fsm.rs:356-365 | The replies a live state gives to a line without a command never close it |
| Smtp.SessionBuilder.constructor | patch/mailin/src/smtp.rs:89-95 | A new builder has the name, no STARTTLS and no mechanisms |
| Smtp.SessionBuilder.EnableStartTls | patch/mailin/src/smtp.rs:98-101 | STARTTLS is on, the rest unchanged |
| Smtp.SessionBuilder.EnableAuth | patch/mailin/src/smtp.rs:104-107 | The mechanism is appended, the rest unchanged |
| Smtp.SessionBuilder.Build | patch/mailin/src/smtp.rs:110-120 | A fresh session with the name, handler, no calls, a new machine for the configuration, satisfying the invariant |
| Smtp.Session.constructor | patch/mailin/src/smtp.rs:110-120 | A session holds its name, handler and machine, with no calls yet |
| Smtp.Session.Greeting | patch/mailin/src/smtp.rs:125-127 | The greeting is a 220 non-error reply whose one line is the name and ` ESMTP` |
| Smtp.Session.TlsActive | patch/mailin/src/smtp.rs:130-132 | The machine and calls become those of the StartedTls step |
| Smtp.Session.Process | patch/mailin/src/smtp.rs:159-171 | The reply, new machine and calls are those of reading the line and, when it parses, running its command |
| Scenarios.CommandLine | patch/mailin/src/fsm.rs:53-61 | Outside Auth and Data, a parsed line runs its command |
| Scenarios.RejectedLine | patch/mailin/src/fsm.rs:53-61 | Outside Auth and Data, an unparsed line gets the parse error and changes nothing |
| Scenarios.HeloLine | patch/mailin/src/fsm.rs:137-157 | A HELO line, in any spelling, asks the handler and greets under that domain unless refused |
| Scenarios.EhloLine | patch/mailin/src/fsm.rs:159-181 | An EHLO line asks the handler and greets, into HelloAuth when authentication is on |
| Scenarios.HeloThenEhlo | patch/mailin/src/smtp.rs:218-227 | HELO then EHLO are both answered 250 and each leaves the session in Hello |
| Scenarios.MailAfterHelo | patch/mailin/src/smtp.rs:229-236 | After HELO, MAIL FROM is answered 250 and opens the transaction, with both calls logged |
| Scenarios.HeloLineNotUtf8 | patch/mailin/src/smtp.rs:238-244 | A HELO line with a non-UTF-8 domain gets 500 and changes nothing |
| Scenarios.HeloBadDomain | patch/mailin/src/smtp.rs:238-244 | In a new session, a HELO domain with an octet of 0xF5 or above gets 500 and the session stays Idle |
| Scenarios.TestBadDomain | patch/mailin/src/smtp.rs:238-244 | The test's domain `world@\xff` is such a domain |
| Scenarios.Basic | patch/mailin/src/smtp.rs:208-211 | The machine of a session with neither STARTTLS nor authentication, in a given state |
| Scenarios.MailLine | patch/mailin/src/fsm.rs:238-266 | A MAIL line in Hello asks the handler and opens the transaction unless refused |
| Scenarios.RcptLine | patch/mailin/src/fsm.rs:382-456 | An RCPT line asks the handler and appends the recipient unless refused |
| Scenarios.MailFrom | patch/mailin/src/smtp.rs:229-236 | In Hello, MAIL with or without BODY= is answered 250 and opens the transaction |
| Scenarios.RcptTwice | patch/mailin/src/smtp.rs:246-256 | Two RCPT lines are each answered 250 and kept in order |
| Scenarios.DataTransaction | patch/mailin/src/smtp.rs:258-306 | DATA gets 354; a message line gets no reply and reaches the handler unstuffed; `.` gets 250 and returns to Hello |
| Scenarios.StuffedTestLine | patch/mailin/src/smtp.rs:274-290 | The stuffed line `..` CRLF is not the end of data and reaches the handler as `.` CRLF |
| Scenarios.RsetInTransaction | patch/mailin/src/smtp.rs:308-316 | RSET in a transaction gets 250 and returns to Hello |
| Scenarios.RsetInIdle | patch/mailin/src/smtp.rs:318-324 | RSET in a new session gets 250 and stays Idle |
| Scenarios.QuitInTransaction | patch/mailin/src/smtp.rs:326-335 | QUIT in a transaction gets 221 with Close and ends the session |
| Scenarios.VrfyScenario | patch/mailin/src/smtp.rs:337-348 | VRFY gets 252 in Hello and 503 in a transaction, changing nothing |
| Scenarios.AuthHandler | patch/mailin/src/smtp.rs:350-364 | The tests' handler accepts every greeting and sender, and only the credentials test/test/1234 |
| Scenarios.TestVerdict | patch/mailin/src/smtp.rs:350-364 | That handler answers 235 to the test user and 535 to anyone else |
| Scenarios.AuthLine | patch/mailin/src/fsm.rs:183-197 | An AUTH PLAIN line with credentials is judged by the handler; authenticated and greeted iff 235 |
| Scenarios.AuthResponseLine | patch/mailin/src/fsm.rs:325-366 | A Base64 response line in Auth is decoded and judged the same way |
| Scenarios.EhloWithAuth | patch/mailin/src/smtp.rs:366-383 | In a new session with authentication, EHLO gets 250 with STARTTLS listed and moves to HelloAuth |
| Scenarios.StartTlsScenario | patch/mailin/src/smtp.rs:376-383 | STARTTLS gets 220 with a TLS upgrade and returns to Idle; then TLS becomes active |
| Scenarios.EhloOverTls | patch/mailin/src/smtp.rs:394-404 | Over TLS, EHLO gets 250 listing AUTH PLAIN and moves to HelloAuth |
| Scenarios.MailBeforeAuth | patch/mailin/src/smtp.rs:385-392 | MAIL before authentication gets 503 and changes nothing |
| Scenarios.AuthBeforeTls | patch/mailin/src/smtp.rs:436-444 | AUTH PLAIN before STARTTLS gets 503 and changes nothing |
| Scenarios.AuthPlainParam | patch/mailin/src/smtp.rs:394-416 | Over TLS, AUTH PLAIN with the test user gets 235 and Hello, and with anyone else 535 and HelloAuth |
| Scenarios.AuthPlainChallenge | patch/mailin/src/smtp.rs:418-455 | AUTH PLAIN alone gets 334; the response then gets 235 or 535 as for credentials sent with the command |
| Scenarios.RsetWithAuth | patch/mailin/src/smtp.rs:457-470 | After authentication MAIL opens a transaction and RSET returns to HelloAuth, still authenticated |
| Scenarios.TextLine | patch/mailin/src/fsm.rs:489-509 | In Data, a message line goes to the handler unstuffed and changes no state |
| Scenarios.HeloInNewSession | patch/mailin/src/smtp.rs:208-227 | A new session answers HELO with 250 and moves to Hello |
| Scenarios.CallbacksEnvelope | patch/mailin/src/lib.rs:230-278 | HELO, MAIL with BODY=8BITMIME and two RCPT lines reach the handler as those four calls in order |
| Scenarios.CallbacksMessage | patch/mailin/src/lib.rs:230-278 | DATA hands over the recipients and 8-bit flag, each line follows unstuffed, and `.` ends the message with 250 |
| TestTokens.TestToken | patch/mailin/src/smtp.rs:394-404 | The test's token `dGVzdAB0ZXN0ADEyMzQ=` is the Base64 of `test NUL test NUL 1234` |
| TestTokens.BadTestToken | patch/mailin/src/smtp.rs:406-416 | The bad token is the Base64 of `xest NUL test NUL 1234` |
| TestTokens.TestCredentialText | patch/mailin/src/parser.rs:171-197 | The test credentials are UTF-8 without NUL |
| TestTokens.TestAuthLine | patch/mailin/src/parser.rs:205-219 | `auth plain dGVzdAB0ZXN0ADEyMzQ=` CRLF parses to AUTH PLAIN test/test/1234 (the `auth_initial` test) |
| TestTokens.BadTestAuthLine | patch/mailin/src/smtp.rs:406-416 | The bad token's line parses to AUTH PLAIN xest/test/1234 |
| TestTokens.TestResponses | patch/mailin/src/smtp.rs:418-455 | Both tokens are non-empty Base64 and decode to their credentials |
| FeishuMessage.Typ | src/bot_server/feishu_client/message.rs:12-19 | No contract of its own: the type name of each kind; stated by FeishuMessage.TypIdentifiesKind and the four constructors |
| FeishuMessage.TypIdentifiesKind | src/bot_server/feishu_client/message.rs:12-19 | Two messages share a type name exactly when they are of the same kind |
| FeishuMessage.NewText | src/bot_server/feishu_client/message.rs:21-23 | `Message::text` wraps the text unchanged, with type `text` |
| FeishuMessage.NewImage | src/bot_server/feishu_client/message.rs:25-29 | `Message::image` wraps the key unchanged, with type `image` |
| FeishuMessage.NewFile | src/bot_server/feishu_client/message.rs:31-35 | `Message::file` wraps the key unchanged, with type `file` |
| FeishuMessage.NewPost | src/bot_server/feishu_client/message.rs:37-39 | `Message::post` wraps the post unchanged, with type `post` |
| FeishuMessage.Apply | src/bot_server/feishu_client/message.rs:103-139 | One builder call keeps the title and leaves at least one line; its effect on the lines is stated by the PostLineBuilder methods |
| FeishuMessage.Compose | src/bot_server/feishu_client/message.rs:59-144 | The post of a call sequence has the given title and at least one line; its shape is stated by FeishuMessage.ComposeShape |
| FeishuMessage.ComposeShape | src/bot_server/feishu_client/message.rs:103-144 | A post has one more line than new-line calls, and its tags read line by line are the added tags in call order |
| FeishuMessage.PostLangBuilder.constructor | src/bot_server/feishu_client/message.rs:59-64 | `builder()` starts with an empty title and no lines |
| FeishuMessage.PostLangBuilder.Title | src/bot_server/feishu_client/message.rs:73-76 | `title` replaces only the title |
| FeishuMessage.PostLangBuilder.NewLine | src/bot_server/feishu_client/message.rs:78-80 | `new_line` starts an empty line over this post |
| FeishuMessage.PostLangBuilder.Finish | src/bot_server/feishu_client/message.rs:82-87 | `finish` returns the title and the lines |
| FeishuMessage.PostLineBuilder.Text | src/bot_server/feishu_client/message.rs:103-109 | `text` appends exactly one text tag to the current line |
| FeishuMessage.PostLineBuilder.A | src/bot_server/feishu_client/message.rs:111-117 | `a` appends exactly one link tag |
| FeishuMessage.PostLineBuilder.At | src/bot_server/feishu_client/message.rs:119-125 | `at` appends exactly one mention tag |
| FeishuMessage.PostLineBuilder.Img | src/bot_server/feishu_client/message.rs:127-134 | `img` appends exactly one image tag, height before width |
| FeishuMessage.PostLineBuilder.NewLine | src/bot_server/feishu_client/message.rs:136-139 | `new_line` pushes the current line onto the post and continues with an empty one |
| FeishuMessage.PostLineBuilder.Finish | src/bot_server/feishu_client/message.rs:141-144 | `finish` pushes the current line and returns the post |
| FeishuMessage.TestPost | src/bot_server/feishu_client/message.rs:213-229 | The test's builder calls give the title and two lines: link, mention and 200x300 image; then text |

## Left out

- **FeishuMessage.PostLangBuilder.NewLine**, **FeishuMessage.PostLangBuilder.Finish**,
  **FeishuMessage.PostLineBuilder.NewLine** and **FeishuMessage.PostLineBuilder.Finish**
  take the builder by value in the source, which moves it. The model has the
  line builder share the lang builder by reference instead, so it admits call
  orders the Rust compiler refuses, such as `Title` on a lang builder already
  handed to a line builder. Every call order the source allows behaves the
  same in the model.
- **Network and process plumbing.** The server loop, sockets and TLS
  handshake (`src/smtp_server.rs`, `src/smtp_server/mail.rs`) are not part of
  this model. `Session::tls_active` is modelled as the event it delivers to
  the machine.
- **`Response::log`** (response.rs:167) only writes to the logger, so it is
  left out.
- **I/O errors.** `write_to` writes to an `io::Write`. The model appends to
  a byte sequence, and write errors are not modelled.
- **`Handler::data` errors.** A data error of any kind is modelled as
  `false`, which gives 554. The error value itself is not kept.
- **`StateMachine::current_state`** (fsm.rs:566) is a read-only accessor for
  logging. The model exposes the whole state instead (`Snapshot`).
- **The handler's internal state** is modelled only through the call
  history it receives. A handler that keeps other hidden state (a clock, a
  database) is a function of the history here.
- **Serde JSON.** The serialisation of chat messages (the `serde` derives,
  and the JSON text in the message tests) is not modelled. The tests'
  content is stated as the built value instead. `test_text_message` only
  prints a debug rendering.
- **Image sizes.** `PostTag.Img` sizes are `usize` in the source. The model
  uses `nat` and does not model a 64-bit bound.
- **The chat client** (`src/bot_server/feishu_client.rs`, the bot server,
  the store and `main.rs`) is not part of this model.
- **Base64.Decode** is stated for the strict decoder only. A lenient crate
  version could accept inputs that this model rejects.
