/**
 * The command-line parser: each SMTP command as a sequence of `nom` combinators
 * over the octets of one line. Only the `complete` variants of the combinators
 * are used, so a parser either succeeds with the unconsumed rest of its input
 * or fails; it never asks for more input.
 */
module Parser {
  import opened Wrappers
  import opened Bytes
  import opened Base64
  import opened Replies
  import opened Commands

  /** The result of a combinator: a value and the unconsumed rest, or a failure. */
  datatype Parsed<T> = Done(value: T, rest: seq<Byte>) | Fail

  /** `t` is what is left of `s` once a prefix of it has been consumed. */
  predicate IsRest(t: seq<Byte>, s: seq<Byte>)
  {
    |t| <= |s| && s[|s| - |t|..] == t
  }

  /** Some CR in `s` is directly followed by LF. */
  predicate ContainsCrlf(s: seq<Byte>)
  {
    exists k :: 0 <= k < |s| - 1 && s[k] == CR && s[k + 1] == LF
  }

  //---- Combinators -------------------------------------------------------------

  /** The length of the longest prefix of `s` whose octets all satisfy `p`. */
  function PrefixLen(p: Byte -> bool, s: seq<Byte>): (n: nat)
    ensures n <= |s|
    ensures forall i :: 0 <= i < n ==> p(s[i])
    ensures n < |s| ==> !p(s[n])
    decreases |s|
  {
    if s == [] || !p(s[0]) then 0 else 1 + PrefixLen(p, s[1..])
  }

  /** `take_while1`: the longest non-empty prefix of octets satisfying `p`. */
  function TakeWhile1(p: Byte -> bool, s: seq<Byte>): (r: Parsed<seq<Byte>>)
    ensures r.Done? <==> s != [] && p(s[0])
    ensures r.Done? ==> s == r.value + r.rest && r.value != []
    ensures r.Done? ==> (forall i :: 0 <= i < |r.value| ==> p(r.value[i])) && (r.rest != [] ==> !p(r.rest[0]))
  {
    var n := PrefixLen(p, s);
    if n == 0 then Fail else Done(s[..n], s[n..])
  }

  /** `tag_no_case`: `t` up to ASCII case. */
  function TagNoCase(t: seq<Byte>, s: seq<Byte>): (r: Parsed<seq<Byte>>)
    ensures r.Done? <==> StartsWithNoCase(s, t)
    ensures r.Done? ==> s == r.value + r.rest && EqIgnoreCase(r.value, t)
  {
    if StartsWithNoCase(s, t) then Done(s[..|t|], s[|t|..]) else Fail
  }

  /** `tag`: exactly `t`. */
  function Tag(t: seq<Byte>, s: seq<Byte>): (r: Parsed<seq<Byte>>)
    ensures r.Done? <==> |s| >= |t| && s[..|t|] == t
    ensures r.Done? ==> s == t + r.rest
  {
    if |s| >= |t| && s[..|t|] == t then Done(t, s[|t|..]) else Fail
  }

  /** `s` begins with `t` up to ASCII case. */
  predicate StartsWithNoCase(s: seq<Byte>, t: seq<Byte>)
  {
    |s| >= |t| && EqIgnoreCase(s[..|t|], t)
  }

  predicate IsSpace(b: Byte) { b == SP }

  /** The octets `space0` skips: spaces and tabs. */
  predicate IsBlank(b: Byte) { b == SP || b == TAB }

  /** The octets a HELO or EHLO domain may contain. */
  predicate InHelloDomain(b: Byte) { b != SP && b != TAB && b != CR && b != LF }

  /** The octets a reverse or forward path may contain. */
  predicate InMailPath(b: Byte) { b != SP && b != 60 && b != 62 && b != TAB && b != CR && b != LF }

  /** The octets the argument of VRFY may contain. */
  predicate InLine(b: Byte) { b != CR && b != LF }

  /** The octets accepted as Base64 in AUTH (any position may hold `=`). */
  predicate IsBase64(b: Byte) { IsAlphanumeric(b) || b == 43 || b == 47 || b == 61 }

  /** `space`: one or more spaces (tabs are not accepted). */
  function Space(s: seq<Byte>): (r: Parsed<seq<Byte>>)
    ensures r.Done? <==> s != [] && s[0] == SP
  {
    TakeWhile1(IsSpace, s)
  }

  /** `space0`: zero or more spaces or tabs; never fails. */
  function Space0(s: seq<Byte>): (r: Parsed<seq<Byte>>)
    ensures r.Done? && s == r.value + r.rest
    ensures forall i :: 0 <= i < |r.value| ==> IsBlank(r.value[i])
    ensures r.rest != [] ==> !IsBlank(r.rest[0])
  {
    var n := PrefixLen(IsBlank, s);
    Done(s[..n], s[n..])
  }

  /**
   * `cmd(name)`: the command verb up to case, then one or more spaces (a tab
   * or the end of the line does not do); the rest follows the last space.
   */
  function Verb(name: seq<Byte>, s: seq<Byte>): (r: Parsed<()>)
    ensures r.Done? <==> StartsWithNoCase(s, name) && |s| > |name| && s[|name|] == SP
  {
    match TagNoCase(name, s)
    case Fail => Fail
    case Done(_, rest) =>
      match Space(rest)
      case Fail => Fail
      case Done(_, rest2) => Done((), rest2)
  }

  //---- Text fields ----------------------------------------------------------------

  /** A HELO/EHLO argument: non-empty, without space, tab, CR or LF, valid UTF-8. */
  predicate IsHelloDomain(d: Str)
  {
    d != [] && (forall i :: 0 <= i < |d| ==> InHelloDomain(d[i])) && ValidUtf8(d)
  }

  /** A path between angle brackets: non-empty, without space, tab, CR, LF, `<` or `>`, valid UTF-8. */
  predicate IsMailPath(p: Str)
  {
    p != [] && (forall i :: 0 <= i < |p| ==> InMailPath(p[i])) && ValidUtf8(p)
  }

  /** `is_not(chars)` then `str::from_utf8`: the longest non-empty run of allowed octets, if it is UTF-8. */
  function Utf8Run(allowed: Byte -> bool, s: seq<Byte>): (r: Parsed<Str>)
    ensures r.Done? ==> s == r.value + r.rest && r.value != [] && ValidUtf8(r.value)
    ensures r.Done? ==> (forall i :: 0 <= i < |r.value| ==> allowed(r.value[i])) && (r.rest != [] ==> !allowed(r.rest[0]))
  {
    match TakeWhile1(allowed, s)
    case Fail => Fail
    case Done(v, rest) => if ValidUtf8(v) then Done(v, rest) else Fail
  }

  function HelloDomain(s: seq<Byte>): (r: Parsed<Str>)
    ensures r.Done? ==> IsHelloDomain(r.value) && s == r.value + r.rest
  {
    Utf8Run(InHelloDomain, s)
  }

  function MailPath(s: seq<Byte>): (r: Parsed<Str>)
    ensures r.Done? ==> IsMailPath(r.value) && s == r.value + r.rest
  {
    Utf8Run(InMailPath, s)
  }

  //---- Command parsers, in the order `command` tries them ----------------------

  function ParseHelo(s: seq<Byte>): (r: Parsed<Cmd>)
    ensures r.Done? ==> StartsWithNoCase(s, B("helo")) && r.value.Helo? && IsHelloDomain(r.value.domain)
  {
    match Verb(B("helo"), s)
    case Fail => Fail
    case Done(_, rest) =>
      match HelloDomain(rest)
      case Fail => Fail
      case Done(d, rest2) => Done(Helo(d), rest2)
  }

  function ParseEhlo(s: seq<Byte>): (r: Parsed<Cmd>)
    ensures r.Done? ==> StartsWithNoCase(s, B("ehlo")) && r.value.Ehlo? && IsHelloDomain(r.value.domain)
  {
    match Verb(B("ehlo"), s)
    case Fail => Fail
    case Done(_, rest) =>
      match HelloDomain(rest)
      case Fail => Fail
      case Done(d, rest2) => Done(Ehlo(d), rest2)
  }

  /** `body_eq_8bit`: one or more spaces, `BODY=`, then `8BITMIME` (true) or `7BIT` (false). */
  function BodyEq8bit(s: seq<Byte>): (r: Parsed<bool>)
    ensures r.Done? ==> s != [] && s[0] == SP
  {
    match Space(s)
    case Fail => Fail
    case Done(_, rest) =>
      match TagNoCase(B("body="), rest)
      case Fail => Fail
      case Done(_, rest2) =>
        match TagNoCase(B("8bitmime"), rest2)
        case Done(_, rest3) => Done(true, rest3)
        case Fail =>
          match TagNoCase(B("7bit"), rest2)
          case Done(_, rest3) => Done(false, rest3)
          case Fail => Fail
  }

  /** `is8bitmime`: the BODY parameter if there is one, else `false` with nothing consumed. */
  function Is8BitMime(s: seq<Byte>): (r: Parsed<bool>)
    ensures r.Done?
    ensures r.value ==> s != [] && s[0] == SP
  {
    match BodyEq8bit(s)
    case Fail => Done(false, s)
    case Done(b, rest) => Done(b, rest)
  }

  /** `<keyword>` (FROM: or TO:), optional blanks, `<`, a path and `>`. */
  function AnglePath(keyword: seq<Byte>, s: seq<Byte>): (r: Parsed<Str>)
    ensures r.Done? ==> IsMailPath(r.value)
  {
    match TagNoCase(keyword, s)
    case Fail => Fail
    case Done(_, rest) =>
      match TagNoCase(B("<"), Space0(rest).rest)
      case Fail => Fail
      case Done(_, rest2) =>
        match MailPath(rest2)
        case Fail => Fail
        case Done(path, rest3) =>
          match Tag(B(">"), rest3)
          case Fail => Fail
          case Done(_, rest4) => Done(path, rest4)
  }

  function ParseMail(s: seq<Byte>): (r: Parsed<Cmd>)
    ensures r.Done? ==> StartsWithNoCase(s, B("mail")) && r.value.Mail? && IsMailPath(r.value.reversePath)
  {
    match Verb(B("mail"), s)
    case Fail => Fail
    case Done(_, rest) =>
      match AnglePath(B("from:"), rest)
      case Fail => Fail
      case Done(path, rest2) =>
        var body := Is8BitMime(rest2);
        Done(Mail(path, body.value), body.rest)
  }

  function ParseRcpt(s: seq<Byte>): (r: Parsed<Cmd>)
    ensures r.Done? ==> StartsWithNoCase(s, B("rcpt")) && r.value.Rcpt? && IsMailPath(r.value.forwardPath)
  {
    match Verb(B("rcpt"), s)
    case Fail => Fail
    case Done(_, rest) =>
      match AnglePath(B("to:"), rest)
      case Fail => Fail
      case Done(path, rest2) => Done(Rcpt(path), rest2)
  }

  /** A command that is its keyword alone (DATA, RSET, QUIT, NOOP, STARTTLS). */
  function Keyword(name: seq<Byte>, c: Cmd, s: seq<Byte>): (r: Parsed<Cmd>)
    ensures r.Done? <==> StartsWithNoCase(s, name)
    ensures r.Done? ==> r.value == c && r.rest == s[|name|..]
  {
    match TagNoCase(name, s)
    case Fail => Fail
    case Done(_, rest) => Done(c, rest)
  }

  /** VRFY and a non-empty UTF-8 argument, which is dropped. */
  function ParseVrfy(s: seq<Byte>): (r: Parsed<Cmd>)
    ensures r.Done? ==> StartsWithNoCase(s, B("vrfy")) && r.value == Vrfy
  {
    match Verb(B("vrfy"), s)
    case Fail => Fail
    case Done(_, rest) =>
      match Utf8Run(InLine, rest)
      case Fail => Fail
      case Done(_, rest2) => Done(Vrfy, rest2)
  }

  /** AUTH PLAIN, optionally followed by spaces and a Base64 initial response. */
  function ParseAuth(s: seq<Byte>): (r: Parsed<Cmd>)
    ensures r.Done? ==> StartsWithNoCase(s, B("auth")) && (r.value.AuthPlain? || r.value == AuthPlainEmpty)
    ensures r.Done? && r.value.AuthPlain? ==>
      IsCredentialText(r.value.authorizationId) && IsCredentialText(r.value.authenticationId) && IsCredentialText(r.value.password)
  {
    match Verb(B("auth"), s)
    case Fail => Fail
    case Done(_, rest) =>
      match TagNoCase(B("plain"), rest)
      case Fail => Fail
      case Done(_, rest2) =>
        var initial := AuthInitial(rest2);
        Done(SaslPlainCmd(initial.value), initial.rest)
  }

  /** `alt((auth_initial, empty))`: spaces and a Base64 run, or nothing at all. */
  function AuthInitial(s: seq<Byte>): (r: Parsed<seq<Byte>>)
    ensures r.Done?
    ensures r.value == [] ==> r.rest == s
    ensures forall i :: 0 <= i < |r.value| ==> IsBase64(r.value[i])
  {
    match Space(s)
    case Fail => Done([], s)
    case Done(_, rest) =>
      match TakeWhile1(IsBase64, rest)
      case Fail => Done([], s)
      case Done(v, rest2) => Done(v, rest2)
  }

  /** `alt((helo, ehlo, mail, rcpt, data, rset, quit, vrfy, noop, starttls, auth))`. */
  function Alternatives(s: seq<Byte>): Parsed<Cmd>
  {
    var helo := ParseHelo(s);
    if helo.Done? then helo else
    var ehlo := ParseEhlo(s);
    if ehlo.Done? then ehlo else
    var mail := ParseMail(s);
    if mail.Done? then mail else
    var rcpt := ParseRcpt(s);
    if rcpt.Done? then rcpt else
    var data := Keyword(B("data"), Data, s);
    if data.Done? then data else
    var rset := Keyword(B("rset"), Rset, s);
    if rset.Done? then rset else
    var quit := Keyword(B("quit"), Quit, s);
    if quit.Done? then quit else
    var vrfy := ParseVrfy(s);
    if vrfy.Done? then vrfy else
    var noop := Keyword(B("noop"), Noop, s);
    if noop.Done? then noop else
    var starttls := Keyword(B("starttls"), StartTls, s);
    if starttls.Done? then starttls else
    ParseAuth(s)
  }

  /** `command`: one of the commands, then CRLF. */
  function CommandLine(s: seq<Byte>): Parsed<Cmd>
  {
    match Alternatives(s)
    case Fail => Fail
    case Done(c, rest) =>
      match Tag(CRLF, rest)
      case Fail => Fail
      case Done(_, rest2) => Done(c, rest2)
  }

  /** What a parsed command carries: never a dummy command, and fields as the parsers admit them. */
  predicate IsParsedCommand(c: Cmd)
  {
    && !c.AuthResponse? && !c.DataEnd? && !c.StartedTls?
    && ((c.Helo? || c.Ehlo?) ==> IsHelloDomain(c.domain))
    && (c.Mail? ==> IsMailPath(c.reversePath))
    && (c.Rcpt? ==> IsMailPath(c.forwardPath))
    && (c.AuthPlain? ==> IsCredentialText(c.authorizationId) && IsCredentialText(c.authenticationId) && IsCredentialText(c.password))
  }

  /**
   * `parse`: a command line to a command. A command must be ended by CRLF;
   * octets after that CRLF are ignored, and every failure is the 500 reply
   * (the 502 reply is never produced).
   */
  function Parse(line: seq<Byte>): (r: Result<Cmd, Response>)
    ensures r.Err? ==> r.error == SYNTAX_ERROR && r.error != MISSING_PARAMETER
    ensures r.Ok? ==> IsParsedCommand(r.value)
    ensures r.Ok? ==> ContainsCrlf(line)
  {
    match CommandLine(line)
    case Fail => Err(SYNTAX_ERROR)
    case Done(c, _) =>
      CommandLineCrlf(line);
      Ok(c)
  }

  /** `parse_auth_response`: a Base64 line sent in answer to the empty challenge. */
  function ParseAuthResponse(line: seq<Byte>): (r: Result<seq<Byte>, Response>)
    ensures r.Err? ==> r.error == SYNTAX_ERROR
    ensures r.Ok? ==> r.value != [] && (forall i :: 0 <= i < |r.value| ==> IsBase64(r.value[i]))
    ensures r.Ok? ==> |line| >= |r.value| + 2 && line[..|r.value| + 2] == r.value + CRLF
  {
    match TakeWhile1(IsBase64, line)
    case Fail => Err(SYNTAX_ERROR)
    case Done(v, rest) =>
      match Tag(CRLF, rest)
      case Fail => Err(SYNTAX_ERROR)
      case Done(_, _) => Ok(v)
  }

  //---- SASL PLAIN ------------------------------------------------------------------

  /** What a decoded credential field can be: UTF-8 without NUL. */
  predicate IsCredentialText(s: Str)
  {
    ValidUtf8(s) && NUL !in s
  }

  predicate IsNotNul(b: Byte) { b != NUL }

  /** The fields of `s` between NUL octets, as Rust's `split` on a slice yields them. */
  function Split(s: seq<Byte>): (fields: seq<seq<Byte>>)
    ensures |fields| >= 1
    ensures forall i :: 0 <= i < |fields| ==> NUL !in fields[i]
    ensures Join(fields) == s
    decreases |s|
  {
    var k := PrefixLen(IsNotNul, s);
    if k == |s| then [s]
    else
      assert s == s[..k] + [NUL] + s[k + 1..];
      [s[..k]] + Split(s[k + 1..])
  }

  /** The fields joined with a NUL between each two. */
  function Join(fields: seq<seq<Byte>>): seq<Byte>
    requires |fields| >= 1
    decreases |fields|
  {
    if |fields| == 1 then fields[0] else fields[0] + [NUL] + Join(fields[1..])
  }

  /** Splitting undoes joining NUL-free fields. */
  lemma {:induction false} SplitJoin(fields: seq<seq<Byte>>)
    requires |fields| >= 1
    requires forall i :: 0 <= i < |fields| ==> NUL !in fields[i]
    ensures Split(Join(fields)) == fields
    decreases |fields|
  {
    var s := Join(fields);
    PrefixLenOfRun(IsNotNul, fields[0], if |fields| == 1 then [] else [NUL] + Join(fields[1..]));
    if |fields| > 1 {
      assert s == fields[0] + ([NUL] + Join(fields[1..]));
      var k := |fields[0]|;
      assert s[..k] == fields[0];
      assert s[k + 1..] == Join(fields[1..]);
      SplitJoin(fields[1..]);
      assert fields == [fields[0]] + fields[1..];
    } else {
      assert s == fields[0] + [];
    }
  }

  /** `next_string`: field `i` if there is one and it is UTF-8, else the empty string. */
  function NextString(fields: seq<seq<Byte>>, i: nat): (r: Str)
    requires forall j :: 0 <= j < |fields| ==> NUL !in fields[j]
    ensures IsCredentialText(r)
    ensures i < |fields| && ValidUtf8(fields[i]) ==> r == fields[i]
    ensures !(i < |fields| && ValidUtf8(fields[i])) ==> r == []
  {
    if i < |fields| && ValidUtf8(fields[i]) then fields[i] else []
  }

  /** `decode_sasl_plain`: Base64, then the first three NUL-separated fields. */
  function DecodeSaslPlain(param: seq<Byte>): (c: Credentials)
    ensures Decode(param).None? ==> c == Credentials([], [], [])
    ensures IsCredentialText(c.authorizationId) && IsCredentialText(c.authenticationId) && IsCredentialText(c.password)
  {
    match Decode(param)
    case None => Credentials([], [], [])
    case Some(bytes) =>
      var fields := Split(bytes);
      Credentials(NextString(fields, 0), NextString(fields, 1), NextString(fields, 2))
  }

  /** `sasl_plain_cmd`: no initial response asks for one; otherwise decode it. */
  function SaslPlainCmd(param: seq<Byte>): (c: Cmd)
    ensures param == [] <==> c == AuthPlainEmpty
    ensures c.AuthPlain? ==> IsCredentialText(c.authorizationId) && IsCredentialText(c.authenticationId) && IsCredentialText(c.password)
  {
    if param == [] then AuthPlainEmpty
    else
      var creds := DecodeSaslPlain(param);
      AuthPlain(creds.authorizationId, creds.authenticationId, creds.password)
  }

  //---- What a parser leaves is the end of its input ------------------------------------

  /** What is left after what is left is still a rest of the whole. */
  lemma RestOfRest(u: seq<Byte>, t: seq<Byte>, s: seq<Byte>)
    requires IsRest(t, s) && IsRest(u, t)
    ensures IsRest(u, s)
  {
    assert s[|s| - |u|..] == t[|t| - |u|..];
  }

  lemma ConcatRest(a: seq<Byte>, t: seq<Byte>)
    ensures IsRest(t, a + t)
  {
    assert (a + t)[|a|..] == t;
  }

  /** After the verb come one or more spaces, all of which `cmd` consumes. */
  lemma VerbRest(name: seq<Byte>, s: seq<Byte>)
    ensures Verb(name, s).Done? ==>
      var k := |name| + PrefixLen(IsSpace, s[|name|..]);
      k <= |s| && Verb(name, s).rest == s[k..] && IsRest(Verb(name, s).rest, s)
  {
    if Verb(name, s).Done? {
      var t := s[|name|..];
      var n := PrefixLen(IsSpace, t);
      assert Verb(name, s).rest == t[n..];
      assert t[n..] == s[|name| + n..];
    }
  }

  lemma HeloRest(s: seq<Byte>)
    ensures ParseHelo(s).Done? ==> IsRest(ParseHelo(s).rest, s)
  {
    if ParseHelo(s).Done? {
      var rest := Verb(B("helo"), s).rest;
      VerbRest(B("helo"), s);
      var d := HelloDomain(rest);
      ConcatRest(d.value, d.rest);
      RestOfRest(d.rest, rest, s);
    }
  }

  lemma EhloRest(s: seq<Byte>)
    ensures ParseEhlo(s).Done? ==> IsRest(ParseEhlo(s).rest, s)
  {
    if ParseEhlo(s).Done? {
      var rest := Verb(B("ehlo"), s).rest;
      VerbRest(B("ehlo"), s);
      var d := HelloDomain(rest);
      ConcatRest(d.value, d.rest);
      RestOfRest(d.rest, rest, s);
    }
  }

  lemma AnglePathRest(keyword: seq<Byte>, s: seq<Byte>)
    ensures AnglePath(keyword, s).Done? ==> IsRest(AnglePath(keyword, s).rest, s)
  {
    if AnglePath(keyword, s).Done? {
      var t := TagNoCase(keyword, s);
      ConcatRest(t.value, t.rest);
      var w := Space0(t.rest);
      ConcatRest(w.value, w.rest);
      RestOfRest(w.rest, t.rest, s);
      var open := TagNoCase(B("<"), w.rest);
      ConcatRest(open.value, open.rest);
      RestOfRest(open.rest, w.rest, s);
      var path := MailPath(open.rest);
      ConcatRest(path.value, path.rest);
      RestOfRest(path.rest, open.rest, s);
      var close := Tag(B(">"), path.rest);
      ConcatRest(B(">"), close.rest);
      RestOfRest(close.rest, path.rest, s);
    }
  }

  lemma Is8BitMimeRest(s: seq<Byte>)
    ensures IsRest(Is8BitMime(s).rest, s)
  {
    var sp := Space(s);
    if BodyEq8bit(s).Done? {
      ConcatRest(sp.value, sp.rest);
      var key := TagNoCase(B("body="), sp.rest);
      ConcatRest(key.value, key.rest);
      RestOfRest(key.rest, sp.rest, s);
      var eight := TagNoCase(B("8bitmime"), key.rest);
      var seven := TagNoCase(B("7bit"), key.rest);
      if eight.Done? {
        ConcatRest(eight.value, eight.rest);
        RestOfRest(eight.rest, key.rest, s);
      } else {
        ConcatRest(seven.value, seven.rest);
        RestOfRest(seven.rest, key.rest, s);
      }
    } else {
      assert s[|s| - |s|..] == s;
    }
  }

  lemma MailRest(s: seq<Byte>)
    ensures ParseMail(s).Done? ==> IsRest(ParseMail(s).rest, s)
  {
    if ParseMail(s).Done? {
      var rest := Verb(B("mail"), s).rest;
      VerbRest(B("mail"), s);
      var path := AnglePath(B("from:"), rest);
      AnglePathRest(B("from:"), rest);
      RestOfRest(path.rest, rest, s);
      Is8BitMimeRest(path.rest);
      RestOfRest(Is8BitMime(path.rest).rest, path.rest, s);
    }
  }

  lemma RcptRest(s: seq<Byte>)
    ensures ParseRcpt(s).Done? ==> IsRest(ParseRcpt(s).rest, s)
  {
    if ParseRcpt(s).Done? {
      var rest := Verb(B("rcpt"), s).rest;
      VerbRest(B("rcpt"), s);
      AnglePathRest(B("to:"), rest);
      RestOfRest(AnglePath(B("to:"), rest).rest, rest, s);
    }
  }

  lemma KeywordRest(name: seq<Byte>, c: Cmd, s: seq<Byte>)
    ensures Keyword(name, c, s).Done? ==> IsRest(Keyword(name, c, s).rest, s)
  {
    if Keyword(name, c, s).Done? {
      var t := TagNoCase(name, s);
      ConcatRest(t.value, t.rest);
    }
  }

  lemma VrfyRest(s: seq<Byte>)
    ensures ParseVrfy(s).Done? ==> IsRest(ParseVrfy(s).rest, s)
  {
    if ParseVrfy(s).Done? {
      var rest := Verb(B("vrfy"), s).rest;
      VerbRest(B("vrfy"), s);
      var arg := Utf8Run(InLine, rest);
      ConcatRest(arg.value, arg.rest);
      RestOfRest(arg.rest, rest, s);
    }
  }

  lemma AuthRest(s: seq<Byte>)
    ensures ParseAuth(s).Done? ==> IsRest(ParseAuth(s).rest, s)
  {
    if ParseAuth(s).Done? {
      var rest := Verb(B("auth"), s).rest;
      VerbRest(B("auth"), s);
      var mech := TagNoCase(B("plain"), rest);
      ConcatRest(mech.value, mech.rest);
      RestOfRest(mech.rest, rest, s);
      var initial := AuthInitial(mech.rest);
      var sp := Space(mech.rest);
      if initial.rest == mech.rest {
        assert mech.rest[|mech.rest| - |mech.rest|..] == mech.rest;
      } else {
        ConcatRest(sp.value, sp.rest);
        var run := TakeWhile1(IsBase64, sp.rest);
        ConcatRest(run.value, run.rest);
        RestOfRest(run.rest, sp.rest, mech.rest);
      }
      RestOfRest(initial.rest, mech.rest, s);
    }
  }

  lemma AlternativesRest(s: seq<Byte>)
    ensures Alternatives(s).Done? ==> IsRest(Alternatives(s).rest, s)
  {
    HeloRest(s);
    EhloRest(s);
    MailRest(s);
    RcptRest(s);
    KeywordRest(B("data"), Data, s);
    KeywordRest(B("rset"), Rset, s);
    KeywordRest(B("quit"), Quit, s);
    VrfyRest(s);
    KeywordRest(B("noop"), Noop, s);
    KeywordRest(B("starttls"), StartTls, s);
    AuthRest(s);
  }

  /** `command` succeeds only where a CRLF follows the command. */
  lemma CommandLineCrlf(line: seq<Byte>)
    ensures CommandLine(line).Done? ==> ContainsCrlf(line)
  {
    if CommandLine(line).Done? {
      var rest := Alternatives(line).rest;
      AlternativesRest(line);
      assert Tag(CRLF, rest).Done?;
      var k := |line| - |rest|;
      assert line[k] == CR && line[k + 1] == LF;
    }
  }

  //---- Helper lemmas -----------------------------------------------------------------

  /** A run of accepted octets followed by a rejected one (or by nothing) is the whole prefix. */
  lemma {:induction false} PrefixLenOfRun(p: Byte -> bool, a: seq<Byte>, b: seq<Byte>)
    requires forall i :: 0 <= i < |a| ==> p(a[i])
    requires b != [] ==> !p(b[0])
    ensures PrefixLen(p, a + b) == |a|
    decreases |a|
  {
    if a == [] {
      assert a + b == b;
    } else {
      assert (a + b)[0] == a[0];
      assert (a + b)[1..] == a[1..] + b;
      PrefixLenOfRun(p, a[1..], b);
    }
  }

  lemma TakeRun(p: Byte -> bool, a: seq<Byte>, b: seq<Byte>)
    requires a != [] && forall i :: 0 <= i < |a| ==> p(a[i])
    requires b != [] ==> !p(b[0])
    ensures TakeWhile1(p, a + b) == Done(a, b)
  {
    PrefixLenOfRun(p, a, b);
    assert (a + b)[..|a|] == a;
    assert (a + b)[|a|..] == b;
  }

  lemma TagNoCaseOf(t: seq<Byte>, a: seq<Byte>, b: seq<Byte>)
    requires EqIgnoreCase(a, t)
    ensures TagNoCase(t, a + b) == Done(a, b)
  {
    assert (a + b)[..|t|] == a;
    assert (a + b)[|t|..] == b;
  }

  lemma TagOf(t: seq<Byte>, b: seq<Byte>)
    ensures Tag(t, t + b) == Done(t, b)
  {
    assert (t + b)[..|t|] == t;
    assert (t + b)[|t|..] == b;
  }

  lemma VerbOf(name: seq<Byte>, v: seq<Byte>, n: nat, b: seq<Byte>)
    requires EqIgnoreCase(v, name) && n >= 1
    requires b != [] ==> b[0] != SP
    ensures Verb(name, v + Spaces(n) + b) == Done((), b)
  {
    assert v + Spaces(n) + b == v + (Spaces(n) + b);
    TagNoCaseOf(name, v, Spaces(n) + b);
    TakeRun(IsSpace, Spaces(n), b);
  }

  /** Octet `i` differing up to case from the verb's rules the verb out. */
  lemma Mismatch(s: seq<Byte>, t: seq<Byte>, i: nat)
    requires i < |t| && i < |s| && ToLower(s[i]) != ToLower(t[i])
    ensures !StartsWithNoCase(s, t)
  {
  }

  /** The first octets of the verbs, as octet values. */
  lemma Initials()
    ensures B("helo")[0] == 104 && B("ehlo")[0] == 101 && B("mail")[0] == 109 && B("rcpt")[0] == 114
    ensures B("vrfy")[0] == 118 && B("auth")[0] == 97 && B("data")[0] == 100 && B("quit")[0] == 113
    ensures B("noop")[0] == 110 && B("starttls")[0] == 115 && B("rset")[0] == 114 && B("rset")[1] == 115
  {
  }

  /** The first octet of a line that starts with a verb written in any case. */
  lemma FirstOctet(v: seq<Byte>, x: seq<Byte>, y: seq<Byte>, name: seq<Byte>, k: Byte)
    requires EqIgnoreCase(v, name) && name != [] && ToLower(name[0]) == k
    ensures v + x + y != [] && ToLower((v + x + y)[0]) == k
  {
    assert ToLower(v[0]) == k;
    assert (v + x + y)[0] == v[0];
  }

  //---- Which alternative a line reaches ---------------------------------------------

  /** A line can only start with the verbs whose first letter it has. */
  lemma ParsersFail(line: seq<Byte>)
    requires line != []
    ensures ToLower(line[0]) != 104 ==> ParseHelo(line).Fail?
    ensures ToLower(line[0]) != 101 ==> ParseEhlo(line).Fail?
    ensures ToLower(line[0]) != 109 ==> ParseMail(line).Fail?
    ensures ToLower(line[0]) != 114 ==> ParseRcpt(line).Fail? && Keyword(B("rset"), Rset, line).Fail?
    ensures ToLower(line[0]) != 100 ==> Keyword(B("data"), Data, line).Fail?
    ensures ToLower(line[0]) != 113 ==> Keyword(B("quit"), Quit, line).Fail?
    ensures ToLower(line[0]) != 118 ==> ParseVrfy(line).Fail?
    ensures ToLower(line[0]) != 110 ==> Keyword(B("noop"), Noop, line).Fail?
    ensures ToLower(line[0]) != 115 ==> Keyword(B("starttls"), StartTls, line).Fail?
    ensures ToLower(line[0]) != 97 ==> ParseAuth(line).Fail?
  {
    if ToLower(line[0]) != 104 { Mismatch(line, B("helo"), 0); }
    if ToLower(line[0]) != 101 { Mismatch(line, B("ehlo"), 0); }
    if ToLower(line[0]) != 109 { Mismatch(line, B("mail"), 0); }
    if ToLower(line[0]) != 114 { Mismatch(line, B("rcpt"), 0); Mismatch(line, B("rset"), 0); }
    if ToLower(line[0]) != 100 { Mismatch(line, B("data"), 0); }
    if ToLower(line[0]) != 113 { Mismatch(line, B("quit"), 0); }
    if ToLower(line[0]) != 118 { Mismatch(line, B("vrfy"), 0); }
    if ToLower(line[0]) != 110 { Mismatch(line, B("noop"), 0); }
    if ToLower(line[0]) != 115 { Mismatch(line, B("starttls"), 0); }
    if ToLower(line[0]) != 97 { Mismatch(line, B("auth"), 0); }
  }

  /*
   * The verbs start with different letters (RCPT and RSET differ in the second),
   * so the first octet of a line decides which single alternative may succeed.
   */

  lemma DispatchHelo(line: seq<Byte>)
    requires line != [] && ToLower(line[0]) == 104
    ensures Alternatives(line) == ParseHelo(line)
  {
    ParsersFail(line);
  }

  lemma DispatchEhlo(line: seq<Byte>)
    requires line != [] && ToLower(line[0]) == 101
    ensures Alternatives(line) == ParseEhlo(line)
  {
    ParsersFail(line);
  }

  lemma DispatchMail(line: seq<Byte>)
    requires line != [] && ToLower(line[0]) == 109
    ensures Alternatives(line) == ParseMail(line)
  {
    ParsersFail(line);
  }

  lemma DispatchR(line: seq<Byte>)
    requires line != [] && ToLower(line[0]) == 114
    ensures Alternatives(line) == if ParseRcpt(line).Done? then ParseRcpt(line) else Keyword(B("rset"), Rset, line)
  {
    ParsersFail(line);
  }

  lemma DispatchData(line: seq<Byte>)
    requires line != [] && ToLower(line[0]) == 100
    ensures Alternatives(line) == Keyword(B("data"), Data, line)
  {
    ParsersFail(line);
  }

  lemma DispatchQuit(line: seq<Byte>)
    requires line != [] && ToLower(line[0]) == 113
    ensures Alternatives(line) == Keyword(B("quit"), Quit, line)
  {
    ParsersFail(line);
  }

  lemma DispatchVrfy(line: seq<Byte>)
    requires line != [] && ToLower(line[0]) == 118
    ensures Alternatives(line) == ParseVrfy(line)
  {
    ParsersFail(line);
  }

  lemma DispatchNoop(line: seq<Byte>)
    requires line != [] && ToLower(line[0]) == 110
    ensures Alternatives(line) == Keyword(B("noop"), Noop, line)
  {
    ParsersFail(line);
  }

  lemma DispatchStartTls(line: seq<Byte>)
    requires line != [] && ToLower(line[0]) == 115
    ensures Alternatives(line) == Keyword(B("starttls"), StartTls, line)
  {
    ParsersFail(line);
  }

  lemma DispatchAuth(line: seq<Byte>)
    requires line != [] && ToLower(line[0]) == 97
    ensures Alternatives(line) == ParseAuth(line)
  {
    ParsersFail(line);
  }

  /** A line whose first octet starts no verb is not a command. */
  lemma NoVerb(line: seq<Byte>)
    requires line == [] || ToLower(line[0]) !in {104, 101, 109, 114, 100, 113, 118, 110, 115, 97}
    ensures Parse(line) == Err(SYNTAX_ERROR)
  {
    if line != [] {
      ParsersFail(line);
    }
  }

  /** A complete command followed by CRLF parses, whatever follows the CRLF. */
  lemma ParseOf(line: seq<Byte>, c: Cmd, t: seq<Byte>)
    requires Alternatives(line) == Done(c, CRLF + t)
    ensures Parse(line) == Ok(c)
  {
    TagOf(CRLF, t);
  }

  /** A line that the verb's own parser takes up to CRLF is that command. */
  lemma Accept(line: seq<Byte>, c: Cmd, t: seq<Byte>)
    requires line != []
    requires || (ToLower(line[0]) == 104 && ParseHelo(line) == Done(c, CRLF + t))
             || (ToLower(line[0]) == 101 && ParseEhlo(line) == Done(c, CRLF + t))
             || (ToLower(line[0]) == 109 && ParseMail(line) == Done(c, CRLF + t))
             || (ToLower(line[0]) == 114 && ParseRcpt(line) == Done(c, CRLF + t))
             || (ToLower(line[0]) == 118 && ParseVrfy(line) == Done(c, CRLF + t))
             || (ToLower(line[0]) == 97 && ParseAuth(line) == Done(c, CRLF + t))
    ensures Parse(line) == Ok(c)
  {
    ParsersFail(line);
    TagOf(CRLF, t);
  }

  /** A HELO line that `helo` refuses is a syntax error. */
  lemma RejectHelo(line: seq<Byte>)
    requires line != [] && ToLower(line[0]) == 104 && ParseHelo(line).Fail?
    ensures Parse(line) == Err(SYNTAX_ERROR)
  {
    DispatchHelo(line);
  }

  /** A MAIL line that `mail` refuses, or that goes on with something other than CRLF, is a syntax error. */
  lemma RejectMail(line: seq<Byte>)
    requires line != [] && ToLower(line[0]) == 109
    requires ParseMail(line).Fail? || ParseMail(line).rest == [] || ParseMail(line).rest[0] != CR
    ensures Parse(line) == Err(SYNTAX_ERROR)
  {
    DispatchMail(line);
  }

  /** A verb followed by anything but a space, or by nothing, is not `cmd(name)`. */
  lemma VerbWithoutSpace(v: seq<Byte>, name: seq<Byte>, x: seq<Byte>)
    requires EqIgnoreCase(v, name) && name != []
    requires x == [] || x[0] != SP
    ensures Verb(name, v + x).Fail?
    ensures v + x != [] && ToLower((v + x)[0]) == ToLower(name[0])
  {
    var line := v + x;
    if |line| > |name| {
      assert line[|name|] == x[0];
    }
    FirstOctet(v, x, [], name, ToLower(name[0]));
  }

  /**
   * HELO, EHLO, MAIL, RCPT, VRFY and AUTH need a space after the verb: a verb
   * followed by anything else (a tab, CRLF) or by nothing is a syntax error.
   */
  lemma VerbNeedsSpace(v: seq<Byte>, name: seq<Byte>, x: seq<Byte>)
    requires name in [B("helo"), B("ehlo"), B("mail"), B("rcpt"), B("vrfy"), B("auth")]
    requires EqIgnoreCase(v, name)
    requires x == [] || x[0] != SP
    ensures Parse(v + x) == Err(SYNTAX_ERROR)
  {
    var line := v + x;
    Initials();
    VerbWithoutSpace(v, name, x);
    assert Alternatives(line).Fail? by {
      if name == B("helo") {
        DispatchHelo(line);
      } else if name == B("ehlo") {
        DispatchEhlo(line);
      } else if name == B("mail") {
        DispatchMail(line);
      } else if name == B("rcpt") {
        assert line[1] == v[1] && ToLower(v[1]) == ToLower(name[1]) == 99;
        Mismatch(line, B("rset"), 1);
        DispatchR(line);
      } else if name == B("vrfy") {
        DispatchVrfy(line);
      } else {
        DispatchAuth(line);
      }
    }
  }

  //---- Regrouping a line (concatenation is associative) --------------------------------

  /*
   * Each lemma below regroups a line written left to right into the
   * right-nested form the parsers consume. Proved on its own, the step keeps
   * the associativity reasoning out of the larger proofs that use it.
   */

  lemma Regroup5(a: seq<Byte>, b: seq<Byte>, c: seq<Byte>, d: seq<Byte>, e: seq<Byte>)
    ensures a + b + c + d + e == a + b + (c + (d + e))
  {
  }

  lemma Regroup7(a: seq<Byte>, b: seq<Byte>, c: seq<Byte>, d: seq<Byte>, e: seq<Byte>, f: seq<Byte>, g: seq<Byte>)
    ensures a + b + c + d + e + f + g == a + b + (c + (d + (e + (f + g))))
  {
  }

  lemma Regroup9(a: seq<Byte>, b: seq<Byte>, c: seq<Byte>, d: seq<Byte>, e: seq<Byte>, f: seq<Byte>,
                 g: seq<Byte>, h: seq<Byte>, i: seq<Byte>)
    ensures a + b + c + d + e + f + g + h + i == a + b + (c + (d + (e + (f + (g + (h + i))))))
  {
  }

  lemma Regroup12(a: seq<Byte>, b: seq<Byte>, c: seq<Byte>, d: seq<Byte>, e: seq<Byte>, f: seq<Byte>,
                  g: seq<Byte>, h: seq<Byte>, i: seq<Byte>, j: seq<Byte>, k: seq<Byte>, l: seq<Byte>)
    ensures a + b + c + d + e + f + g + h + i + j + k + l
         == a + b + (c + (d + (e + (f + (g + (h + (i + (j + (k + l)))))))))
  {
    Regroup9(a, b, c, d, e, f, g, h, i);
    assert a + b + c + d + e + f + g + h + i + j + k + l == (a + b + c + d + e + f + g + h + i) + (j + (k + l));
  }

  //---- Round trips: a well-formed line parses to its command ----------------------------

  lemma HeloParses(v: seq<Byte>, n: nat, d: Str, b: seq<Byte>)
    requires EqIgnoreCase(v, B("helo")) && n >= 1 && IsHelloDomain(d) && (b != [] ==> !InHelloDomain(b[0]))
    ensures ParseHelo(v + Spaces(n) + (d + b)) == Done(Helo(d), b)
  {
    VerbOf(B("helo"), v, n, d + b);
    TakeRun(InHelloDomain, d, b);
  }

  /** `HELO`, in any case, one or more spaces, a domain and CRLF is `Helo(domain)`. */
  lemma ParseHeloLine(v: seq<Byte>, n: nat, d: Str, t: seq<Byte>)
    requires EqIgnoreCase(v, B("helo")) && n >= 1 && IsHelloDomain(d)
    ensures Parse(v + Spaces(n) + d + CRLF + t) == Ok(Helo(d))
  {
    var line := v + Spaces(n) + (d + (CRLF + t));
    Regroup5(v, Spaces(n), d, CRLF, t);
    HeloParses(v, n, d, CRLF + t);
    Initials();
    FirstOctet(v, Spaces(n), (d + (CRLF + t)), B("helo"), 104);
    Accept(line, Helo(d), t);
  }

  lemma EhloParses(v: seq<Byte>, n: nat, d: Str, b: seq<Byte>)
    requires EqIgnoreCase(v, B("ehlo")) && n >= 1 && IsHelloDomain(d) && (b != [] ==> !InHelloDomain(b[0]))
    ensures ParseEhlo(v + Spaces(n) + (d + b)) == Done(Ehlo(d), b)
  {
    VerbOf(B("ehlo"), v, n, d + b);
    TakeRun(InHelloDomain, d, b);
  }

  /** `EHLO`, in any case, one or more spaces, a domain and CRLF is `Ehlo(domain)`. */
  lemma ParseEhloLine(v: seq<Byte>, n: nat, d: Str, t: seq<Byte>)
    requires EqIgnoreCase(v, B("ehlo")) && n >= 1 && IsHelloDomain(d)
    ensures Parse(v + Spaces(n) + d + CRLF + t) == Ok(Ehlo(d))
  {
    var line := v + Spaces(n) + (d + (CRLF + t));
    Regroup5(v, Spaces(n), d, CRLF, t);
    EhloParses(v, n, d, CRLF + t);
    Initials();
    FirstOctet(v, Spaces(n), (d + (CRLF + t)), B("ehlo"), 101);
    Accept(line, Ehlo(d), t);
  }

  lemma HeloFailsOnNonUtf8(v: seq<Byte>, n: nat, d: seq<Byte>, b: seq<Byte>)
    requires EqIgnoreCase(v, B("helo")) && n >= 1
    requires d != [] && (forall i :: 0 <= i < |d| ==> InHelloDomain(d[i])) && !ValidUtf8(d)
    requires b != [] ==> !InHelloDomain(b[0])
    ensures ParseHelo(v + Spaces(n) + (d + b)) == Fail
  {
    VerbOf(B("helo"), v, n, d + b);
    TakeRun(InHelloDomain, d, b);
  }

  /** A HELO whose domain is not UTF-8 is a syntax error. */
  lemma HeloRejectsNonUtf8(v: seq<Byte>, n: nat, d: seq<Byte>, t: seq<Byte>)
    requires EqIgnoreCase(v, B("helo")) && n >= 1
    requires d != [] && (forall i :: 0 <= i < |d| ==> InHelloDomain(d[i])) && !ValidUtf8(d)
    ensures Parse(v + Spaces(n) + d + CRLF + t) == Err(SYNTAX_ERROR)
  {
    var line := v + Spaces(n) + (d + (CRLF + t));
    Regroup5(v, Spaces(n), d, CRLF, t);
    HeloFailsOnNonUtf8(v, n, d, CRLF + t);
    Initials();
    FirstOctet(v, Spaces(n), (d + (CRLF + t)), B("helo"), 104);
    RejectHelo(line);
  }

  /** Text holding an octet from 0xF5 to 0xFF is not UTF-8 (those octets occur in no encoding). */
  lemma HighOctetIsNotUtf8(d: seq<Byte>, i: nat)
    requires i < |d| && d[i] >= 0xF5
    ensures !ValidUtf8(d)
  {
    if ValidUtf8(d) {
      Utf8HasNoHighOctet(d, i);
    }
  }

  lemma Space0Of(w: seq<Byte>, tail: seq<Byte>)
    requires forall i :: 0 <= i < |w| ==> IsBlank(w[i])
    requires tail != [] ==> !IsBlank(tail[0])
    ensures Space0(w + tail).rest == tail
  {
    PrefixLenOfRun(IsBlank, w, tail);
    assert (w + tail)[|w|..] == tail;
  }

  lemma OpenAngle(x: seq<Byte>)
    ensures TagNoCase(B("<"), [60] + x) == Done([60], x)
  {
    assert B("<") == [60];
    TagNoCaseOf(B("<"), [60], x);
  }

  lemma CloseAngle(x: seq<Byte>)
    ensures Tag(B(">"), [62] + x) == Done(B(">"), x)
  {
    assert B(">") == [62];
    TagOf([62], x);
  }

  /** `<keyword>`, blanks, `<path>` as the client writes it. */
  lemma AnglePathOf(keyword: seq<Byte>, f: seq<Byte>, w: seq<Byte>, path: Str, b: seq<Byte>)
    requires EqIgnoreCase(f, keyword) && (forall i :: 0 <= i < |w| ==> IsBlank(w[i]))
    requires IsMailPath(path)
    ensures AnglePath(keyword, f + (w + ([60] + (path + ([62] + b))))) == Done(path, b)
  {
    var tail := [60] + (path + ([62] + b));
    TagNoCaseOf(keyword, f, w + tail);
    Space0Of(w, tail);
    OpenAngle(path + ([62] + b));
    TakeRun(InMailPath, path, [62] + b);
    CloseAngle(b);
  }

  lemma MailParses(v: seq<Byte>, n: nat, f: seq<Byte>, w: seq<Byte>, path: Str, param: seq<Byte>)
    requires EqIgnoreCase(v, B("mail")) && n >= 1 && EqIgnoreCase(f, B("from:"))
    requires forall i :: 0 <= i < |w| ==> IsBlank(w[i])
    requires IsMailPath(path)
    ensures ParseMail(v + Spaces(n) + (f + (w + ([60] + (path + ([62] + param))))))
         == Done(Mail(path, Is8BitMime(param).value), Is8BitMime(param).rest)
  {
    var after := f + (w + ([60] + (path + ([62] + param))));
    assert f[0] != SP by { assert ToLower(f[0]) == ToLower(B("from:")[0]); }
    VerbOf(B("mail"), v, n, after);
    AnglePathOf(B("from:"), f, w, path, param);
  }

  /** `MAIL`, spaces, `FROM:`, blanks and `<path>` then CRLF: `Mail(path, false)`. */
  lemma ParseMailLine(v: seq<Byte>, n: nat, f: seq<Byte>, w: seq<Byte>, path: Str, t: seq<Byte>)
    requires EqIgnoreCase(v, B("mail")) && n >= 1 && EqIgnoreCase(f, B("from:"))
    requires forall i :: 0 <= i < |w| ==> IsBlank(w[i])
    requires IsMailPath(path)
    ensures Parse(v + Spaces(n) + f + w + [60] + path + [62] + CRLF + t) == Ok(Mail(path, false))
  {
    var line := v + Spaces(n) + (f + (w + ([60] + (path + ([62] + (CRLF + t))))));
    Regroup9(v, Spaces(n), f, w, [60], path, [62], CRLF, t);
    MailParses(v, n, f, w, path, CRLF + t);
    Initials();
    FirstOctet(v, Spaces(n), (f + (w + ([60] + (path + ([62] + (CRLF + t)))))), B("mail"), 109);
    Accept(line, Mail(path, false), t);
  }

  /** ` BODY=8BITMIME` gives true and ` BODY=7BIT` false, in any case, after one or more spaces. */
  lemma BodyParameter(m: nat, key: seq<Byte>, value: seq<Byte>, is8bit: bool, b: seq<Byte>)
    requires m >= 1 && EqIgnoreCase(key, B("body="))
    requires EqIgnoreCase(value, if is8bit then B("8bitmime") else B("7bit"))
    ensures Is8BitMime(Spaces(m) + (key + (value + b))) == Done(is8bit, b)
  {
    assert key[0] != SP by { assert ToLower(key[0]) == ToLower(B("body=")[0]); }
    TakeRun(IsSpace, Spaces(m), key + (value + b));
    TagNoCaseOf(B("body="), key, value + b);
    if is8bit {
      TagNoCaseOf(B("8bitmime"), value, b);
    } else {
      Mismatch(value + b, B("8bitmime"), 0);
      TagNoCaseOf(B("7bit"), value, b);
    }
  }

  /** With the parameter ` BODY=8BITMIME` (or ` BODY=7BIT`), in any case, MAIL records it. */
  lemma ParseMailBodyLine(v: seq<Byte>, n: nat, f: seq<Byte>, w: seq<Byte>, path: Str,
                          m: nat, key: seq<Byte>, value: seq<Byte>, is8bit: bool, t: seq<Byte>)
    requires EqIgnoreCase(v, B("mail")) && n >= 1 && EqIgnoreCase(f, B("from:"))
    requires forall i :: 0 <= i < |w| ==> IsBlank(w[i])
    requires IsMailPath(path)
    requires m >= 1 && EqIgnoreCase(key, B("body="))
    requires EqIgnoreCase(value, if is8bit then B("8bitmime") else B("7bit"))
    ensures Parse(v + Spaces(n) + f + w + [60] + path + [62] + Spaces(m) + key + value + CRLF + t) == Ok(Mail(path, is8bit))
  {
    var line := v + Spaces(n) + (f + (w + ([60] + (path + ([62] + (Spaces(m) + (key + (value + (CRLF + t)))))))));
    Regroup12(v, Spaces(n), f, w, [60], path, [62], Spaces(m), key, value, CRLF, t);
    MailParses(v, n, f, w, path, Spaces(m) + (key + (value + (CRLF + t))));
    BodyParameter(m, key, value, is8bit, CRLF + t);
    Initials();
    FirstOctet(v, Spaces(n), (f + (w + ([60] + (path + ([62] + (Spaces(m) + (key + (value + (CRLF + t))))))))), B("mail"), 109);
    Accept(line, Mail(path, is8bit), t);
  }

  /** After the path, spaces not followed by `BODY=` are left unconsumed. */
  lemma OtherParameter(m: nat, rest: seq<Byte>)
    requires m >= 1 && !StartsWithNoCase(rest, B("body=")) && (rest != [] ==> rest[0] != SP)
    ensures Is8BitMime(Spaces(m) + rest) == Done(false, Spaces(m) + rest)
  {
    TakeRun(IsSpace, Spaces(m), rest);
  }

  /** Any other MAIL parameter (SIZE=, say) makes the line a syntax error. */
  lemma MailRejectsOtherParameters(v: seq<Byte>, n: nat, f: seq<Byte>, w: seq<Byte>, path: Str,
                                   m: nat, rest: seq<Byte>)
    requires EqIgnoreCase(v, B("mail")) && n >= 1 && EqIgnoreCase(f, B("from:"))
    requires forall i :: 0 <= i < |w| ==> IsBlank(w[i])
    requires IsMailPath(path)
    requires m >= 1 && !StartsWithNoCase(rest, B("body=")) && (rest != [] ==> rest[0] != SP)
    ensures Parse(v + Spaces(n) + f + w + [60] + path + [62] + Spaces(m) + rest) == Err(SYNTAX_ERROR)
  {
    var line := v + Spaces(n) + (f + (w + ([60] + (path + ([62] + (Spaces(m) + rest))))));
    Regroup9(v, Spaces(n), f, w, [60], path, [62], Spaces(m), rest);
    MailParses(v, n, f, w, path, Spaces(m) + rest);
    OtherParameter(m, rest);
    Initials();
    FirstOctet(v, Spaces(n), (f + (w + ([60] + (path + ([62] + (Spaces(m) + rest)))))), B("mail"), 109);
    RejectMail(line);
  }

  lemma NullPathFails(v: seq<Byte>, n: nat, f: seq<Byte>, w: seq<Byte>, rest: seq<Byte>)
    requires EqIgnoreCase(v, B("mail")) && n >= 1 && EqIgnoreCase(f, B("from:"))
    requires forall i :: 0 <= i < |w| ==> IsBlank(w[i])
    ensures ParseMail(v + Spaces(n) + (f + (w + ([60] + ([62] + rest))))) == Fail
  {
    var tail := [60] + ([62] + rest);
    assert f[0] != SP by { assert ToLower(f[0]) == ToLower(B("from:")[0]); }
    VerbOf(B("mail"), v, n, f + (w + tail));
    TagNoCaseOf(B("from:"), f, w + tail);
    Space0Of(w, tail);
    OpenAngle([62] + rest);
  }

  /** The null reverse path `<>` is not accepted. */
  lemma MailRejectsNullPath(v: seq<Byte>, n: nat, f: seq<Byte>, w: seq<Byte>, rest: seq<Byte>)
    requires EqIgnoreCase(v, B("mail")) && n >= 1 && EqIgnoreCase(f, B("from:"))
    requires forall i :: 0 <= i < |w| ==> IsBlank(w[i])
    ensures Parse(v + Spaces(n) + f + w + [60] + [62] + rest) == Err(SYNTAX_ERROR)
  {
    var line := v + Spaces(n) + (f + (w + ([60] + ([62] + rest))));
    Regroup7(v, Spaces(n), f, w, [60], [62], rest);
    NullPathFails(v, n, f, w, rest);
    Initials();
    FirstOctet(v, Spaces(n), (f + (w + ([60] + ([62] + rest)))), B("mail"), 109);
    RejectMail(line);
  }

  lemma RcptParses(v: seq<Byte>, n: nat, f: seq<Byte>, w: seq<Byte>, path: Str, b: seq<Byte>)
    requires EqIgnoreCase(v, B("rcpt")) && n >= 1 && EqIgnoreCase(f, B("to:"))
    requires forall i :: 0 <= i < |w| ==> IsBlank(w[i])
    requires IsMailPath(path)
    ensures ParseRcpt(v + Spaces(n) + (f + (w + ([60] + (path + ([62] + b)))))) == Done(Rcpt(path), b)
  {
    var after := f + (w + ([60] + (path + ([62] + b))));
    assert f[0] != SP by { assert ToLower(f[0]) == ToLower(B("to:")[0]); }
    VerbOf(B("rcpt"), v, n, after);
    AnglePathOf(B("to:"), f, w, path, b);
  }

  /** `RCPT`, spaces, `TO:`, blanks and `<path>` then CRLF: `Rcpt(path)`. */
  lemma ParseRcptLine(v: seq<Byte>, n: nat, f: seq<Byte>, w: seq<Byte>, path: Str, t: seq<Byte>)
    requires EqIgnoreCase(v, B("rcpt")) && n >= 1 && EqIgnoreCase(f, B("to:"))
    requires forall i :: 0 <= i < |w| ==> IsBlank(w[i])
    requires IsMailPath(path)
    ensures Parse(v + Spaces(n) + f + w + [60] + path + [62] + CRLF + t) == Ok(Rcpt(path))
  {
    var line := v + Spaces(n) + (f + (w + ([60] + (path + ([62] + (CRLF + t))))));
    Regroup9(v, Spaces(n), f, w, [60], path, [62], CRLF, t);
    RcptParses(v, n, f, w, path, CRLF + t);
    Initials();
    FirstOctet(v, Spaces(n), (f + (w + ([60] + (path + ([62] + (CRLF + t)))))), B("rcpt"), 114);
    Accept(line, Rcpt(path), t);
  }

  /** RCPT takes no parameters: after the `>`, anything that does not start with CRLF is a syntax error. */
  lemma RcptRejectsTrailing(v: seq<Byte>, n: nat, f: seq<Byte>, w: seq<Byte>, path: Str, x: seq<Byte>)
    requires EqIgnoreCase(v, B("rcpt")) && n >= 1 && EqIgnoreCase(f, B("to:"))
    requires forall i :: 0 <= i < |w| ==> IsBlank(w[i])
    requires IsMailPath(path)
    requires !(|x| >= 2 && x[..2] == CRLF)
    ensures Parse(v + Spaces(n) + f + w + [60] + path + [62] + x) == Err(SYNTAX_ERROR)
  {
    var line := v + Spaces(n) + (f + (w + ([60] + (path + ([62] + x)))));
    assert v + Spaces(n) + f + w + [60] + path + [62] + x == line;
    RcptParses(v, n, f, w, path, x);
    Initials();
    FirstOctet(v, Spaces(n), (f + (w + ([60] + (path + ([62] + x))))), B("rcpt"), 114);
    DispatchR(line);
    assert Tag(CRLF, x).Fail?;
  }

  /** DATA, RSET, QUIT, NOOP and STARTTLS, in any case, directly followed by CRLF. */
  lemma ParseKeywordLine(v: seq<Byte>, name: seq<Byte>, c: Cmd, t: seq<Byte>)
    requires || (name == B("data") && c == Data) || (name == B("rset") && c == Rset)
             || (name == B("quit") && c == Quit) || (name == B("noop") && c == Noop)
             || (name == B("starttls") && c == StartTls)
    requires EqIgnoreCase(v, name)
    ensures Parse(v + CRLF + t) == Ok(c)
  {
    var line := v + CRLF + t;
    assert line == v + (CRLF + t);
    TagNoCaseOf(name, v, CRLF + t);
    if c == Data {
      Initials();
      FirstOctet(v, CRLF, t, name, 100);
      DispatchData(line);
    } else if c == Rset {
      Initials();
      FirstOctet(v, CRLF, t, name, 114);
      assert line[1] == v[1] && ToLower(v[1]) == ToLower(name[1]) == 115;
      Mismatch(line, B("rcpt"), 1);
      DispatchR(line);
    } else if c == Quit {
      Initials();
      FirstOctet(v, CRLF, t, name, 113);
      DispatchQuit(line);
    } else if c == Noop {
      Initials();
      FirstOctet(v, CRLF, t, name, 110);
      DispatchNoop(line);
    } else {
      Initials();
      FirstOctet(v, CRLF, t, name, 115);
      DispatchStartTls(line);
    }
    ParseOf(line, c, t);
  }

  /** DATA, RSET, QUIT, NOOP and STARTTLS take nothing: anything after the keyword that does not start with CRLF is a syntax error. */
  lemma KeywordRejectsTrailing(v: seq<Byte>, name: seq<Byte>, c: Cmd, x: seq<Byte>)
    requires || (name == B("data") && c == Data) || (name == B("rset") && c == Rset)
             || (name == B("quit") && c == Quit) || (name == B("noop") && c == Noop)
             || (name == B("starttls") && c == StartTls)
    requires EqIgnoreCase(v, name)
    requires !(|x| >= 2 && x[..2] == CRLF)
    ensures Parse(v + x) == Err(SYNTAX_ERROR)
  {
    var line := v + x;
    TagNoCaseOf(name, v, x);
    Initials();
    if c == Data {
      FirstOctet(v, x, [], name, 100);
      DispatchData(line);
    } else if c == Rset {
      FirstOctet(v, x, [], name, 114);
      assert line[1] == v[1] && ToLower(v[1]) == ToLower(name[1]) == 115;
      Mismatch(line, B("rcpt"), 1);
      DispatchR(line);
    } else if c == Quit {
      FirstOctet(v, x, [], name, 113);
      DispatchQuit(line);
    } else if c == Noop {
      FirstOctet(v, x, [], name, 110);
      DispatchNoop(line);
    } else {
      FirstOctet(v, x, [], name, 115);
      DispatchStartTls(line);
    }
    assert Tag(CRLF, x).Fail?;
  }

  lemma VrfyParses(v: seq<Byte>, n: nat, arg: Str, b: seq<Byte>)
    requires EqIgnoreCase(v, B("vrfy")) && n >= 1
    requires arg != [] && arg[0] != SP && (forall i :: 0 <= i < |arg| ==> InLine(arg[i])) && ValidUtf8(arg)
    requires b != [] ==> !InLine(b[0])
    ensures ParseVrfy(v + Spaces(n) + (arg + b)) == Done(Vrfy, b)
  {
    assert Verb(B("vrfy"), v + Spaces(n) + (arg + b)) == Done((), arg + b) by {
      VerbOf(B("vrfy"), v, n, arg + b);
    }
    assert Utf8Run(InLine, arg + b) == Done(arg, b) by {
      TakeRun(InLine, arg, b);
    }
  }

  /** VRFY with a non-empty argument is accepted and the argument dropped. */
  lemma ParseVrfyLine(v: seq<Byte>, n: nat, arg: Str, t: seq<Byte>)
    requires EqIgnoreCase(v, B("vrfy")) && n >= 1
    requires arg != [] && arg[0] != SP && (forall i :: 0 <= i < |arg| ==> InLine(arg[i])) && ValidUtf8(arg)
    ensures Parse(v + Spaces(n) + arg + CRLF + t) == Ok(Vrfy)
  {
    var line := v + Spaces(n) + (arg + (CRLF + t));
    Regroup5(v, Spaces(n), arg, CRLF, t);
    VrfyParses(v, n, arg, CRLF + t);
    Initials();
    FirstOctet(v, Spaces(n), (arg + (CRLF + t)), B("vrfy"), 118);
    Accept(line, Vrfy, t);
  }

  /** VRFY needs an argument: the verb and its spaces directly followed by CRLF are a syntax error. */
  lemma VrfyRejectsEmpty(v: seq<Byte>, n: nat, t: seq<Byte>)
    requires EqIgnoreCase(v, B("vrfy")) && n >= 1
    ensures Parse(v + Spaces(n) + CRLF + t) == Err(SYNTAX_ERROR)
  {
    var line := v + Spaces(n) + (CRLF + t);
    assert v + Spaces(n) + CRLF + t == line;
    VerbOf(B("vrfy"), v, n, CRLF + t);
    assert TakeWhile1(InLine, CRLF + t).Fail?;
    Initials();
    FirstOctet(v, Spaces(n), CRLF + t, B("vrfy"), 118);
    DispatchVrfy(line);
  }

  lemma AuthParses(v: seq<Byte>, n: nat, mech: seq<Byte>, b: seq<Byte>)
    requires EqIgnoreCase(v, B("auth")) && n >= 1 && EqIgnoreCase(mech, B("plain"))
    ensures ParseAuth(v + Spaces(n) + (mech + b)) == Done(SaslPlainCmd(AuthInitial(b).value), AuthInitial(b).rest)
  {
    assert mech[0] != SP by { assert ToLower(mech[0]) == ToLower(B("plain")[0]); }
    VerbOf(B("auth"), v, n, mech + b);
    TagNoCaseOf(B("plain"), mech, b);
  }

  /** `AUTH PLAIN` without an initial response asks for one. */
  lemma ParseAuthEmptyLine(v: seq<Byte>, n: nat, mech: seq<Byte>, t: seq<Byte>)
    requires EqIgnoreCase(v, B("auth")) && n >= 1 && EqIgnoreCase(mech, B("plain"))
    ensures Parse(v + Spaces(n) + mech + CRLF + t) == Ok(AuthPlainEmpty)
  {
    var line := v + Spaces(n) + (mech + (CRLF + t));
    Regroup5(v, Spaces(n), mech, CRLF, t);
    AuthParses(v, n, mech, CRLF + t);
    Initials();
    FirstOctet(v, Spaces(n), (mech + (CRLF + t)), B("auth"), 97);
    Accept(line, AuthPlainEmpty, t);
  }

  lemma InitialOf(m: nat, initial: seq<Byte>, b: seq<Byte>)
    requires m >= 1 && initial != [] && forall i :: 0 <= i < |initial| ==> IsBase64(initial[i])
    requires b != [] ==> !IsBase64(b[0])
    ensures AuthInitial(Spaces(m) + (initial + b)) == Done(initial, b)
  {
    assert initial[0] != SP by { assert IsBase64(initial[0]); }
    TakeRun(IsSpace, Spaces(m), initial + b);
    TakeRun(IsBase64, initial, b);
  }

  /** `ParseAuthInitialLine` with the line grouped to the right, as the parsers consume it. */
  lemma AuthInitialAccepted(v: seq<Byte>, n: nat, mech: seq<Byte>, m: nat, initial: seq<Byte>, t: seq<Byte>)
    requires EqIgnoreCase(v, B("auth")) && n >= 1 && EqIgnoreCase(mech, B("plain")) && m >= 1
    requires initial != [] && forall i :: 0 <= i < |initial| ==> IsBase64(initial[i])
    ensures Parse(v + Spaces(n) + (mech + (Spaces(m) + (initial + (CRLF + t))))) == Ok(SaslPlainCmd(initial))
  {
    var b := Spaces(m) + (initial + (CRLF + t));
    var line := v + Spaces(n) + (mech + b);
    assert ParseAuth(line) == Done(SaslPlainCmd(initial), CRLF + t) by {
      AuthParses(v, n, mech, b);
      InitialOf(m, initial, CRLF + t);
    }
    assert line != [] && ToLower(line[0]) == 97 by {
      Initials();
      FirstOctet(v, Spaces(n), mech + b, B("auth"), 97);
    }
    DispatchAuth(line);
    ParseOf(line, SaslPlainCmd(initial), t);
  }

  /** `AUTH PLAIN` with an initial response is the decoded response. */
  lemma ParseAuthInitialLine(v: seq<Byte>, n: nat, mech: seq<Byte>, m: nat, initial: seq<Byte>, t: seq<Byte>)
    requires EqIgnoreCase(v, B("auth")) && n >= 1 && EqIgnoreCase(mech, B("plain")) && m >= 1
    requires initial != [] && forall i :: 0 <= i < |initial| ==> IsBase64(initial[i])
    ensures Parse(v + Spaces(n) + mech + Spaces(m) + initial + CRLF + t) == Ok(SaslPlainCmd(initial))
  {
    AuthInitialAccepted(v, n, mech, m, initial, t);
    Regroup7(v, Spaces(n), mech, Spaces(m), initial, CRLF, t);
  }

  /** Every Base64 encoding character is accepted by the AUTH parsers. */
  lemma EncodingIsBase64(e: seq<Byte>)
    requires forall i :: 0 <= i < |e| ==> IsEncodingChar(e[i])
    ensures forall i :: 0 <= i < |e| ==> IsBase64(e[i])
  {
  }

  /** The PLAIN message of RFC 4616: authorization identity, NUL, authentication identity, NUL, password. */
  function PlainMessage(authz: Str, authc: Str, password: Str): seq<Byte>
  {
    authz + [NUL] + authc + [NUL] + password
  }

  /** Decoding the Base64 of a PLAIN message gives back its three fields. */
  lemma SaslPlainRoundTrip(authz: Str, authc: Str, password: Str)
    requires IsCredentialText(authz) && IsCredentialText(authc) && IsCredentialText(password)
    ensures DecodeSaslPlain(Encode(PlainMessage(authz, authc, password))) == Credentials(authz, authc, password)
  {
    var fields := [authz, authc, password];
    assert fields[1..] == [authc, password];
    assert fields[1..][1..] == [password];
    assert Join([password]) == password;
    assert Join([authc, password]) == authc + [NUL] + password;
    assert Join(fields) == authz + [NUL] + (authc + [NUL] + password);
    assert Join(fields) == PlainMessage(authz, authc, password);
    DecodeEncode(PlainMessage(authz, authc, password));
    SplitJoin(fields);
  }

  /** `AUTH PLAIN <base64 of a PLAIN message>` carries the three credentials. */
  lemma ParseAuthPlainLine(v: seq<Byte>, n: nat, mech: seq<Byte>, m: nat,
                           authz: Str, authc: Str, password: Str, t: seq<Byte>)
    requires EqIgnoreCase(v, B("auth")) && n >= 1 && EqIgnoreCase(mech, B("plain")) && m >= 1
    requires IsCredentialText(authz) && IsCredentialText(authc) && IsCredentialText(password)
    ensures Parse(v + Spaces(n) + mech + Spaces(m) + Encode(PlainMessage(authz, authc, password)) + CRLF + t)
         == Ok(AuthPlain(authz, authc, password))
  {
    var e := Encode(PlainMessage(authz, authc, password));
    EncodingIsBase64(e);
    ParseAuthInitialLine(v, n, mech, m, e, t);
    SaslPlainRoundTrip(authz, authc, password);
  }

  /** A Base64 line in answer to the challenge is returned as it is. */
  lemma ParseAuthResponseLine(response: seq<Byte>, t: seq<Byte>)
    requires response != [] && forall i :: 0 <= i < |response| ==> IsBase64(response[i])
    ensures ParseAuthResponse(response + CRLF + t) == Ok(response)
  {
    assert response + CRLF + t == response + (CRLF + t);
    TakeRun(IsBase64, response, CRLF + t);
    TagOf(CRLF, t);
  }
}
