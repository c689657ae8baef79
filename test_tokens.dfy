/**
 * The Base64 strings the authentication tests send, worked out group by group
 * from the PLAIN messages they stand for.
 */
module TestTokens {
  import opened Wrappers
  import opened Bytes
  import Commands
  import Base64
  import Parser

  /** One group of three octets, then the rest. */
  lemma EncodeStep(s: seq<Byte>)
    requires |s| > 3
    ensures Base64.Encode(s) == Base64.EncodeGroup(s[0], s[1], s[2]) + Base64.Encode(s[3..])
  {
  }

  /** Two octets left: three characters and a pad. */
  lemma EncodeLastTwo(s: seq<Byte>)
    requires |s| == 2
    ensures Base64.Encode(s) == Base64.EncodeTwo(s[0], s[1])
  {
  }

  lemma GroupTes(a: Byte, b: Byte, c: Byte)
    requires a == 116 && b == 101 && c == 115
    ensures Base64.EncodeGroup(a, b, c) == B("dGVz")
  {
  }

  lemma GroupXes(a: Byte, b: Byte, c: Byte)
    requires a == 120 && b == 101 && c == 115
    ensures Base64.EncodeGroup(a, b, c) == B("eGVz")
  {
  }

  lemma GroupTNulT(a: Byte, b: Byte, c: Byte)
    requires a == 116 && b == 0 && c == 116
    ensures Base64.EncodeGroup(a, b, c) == B("dAB0")
  {
  }

  lemma GroupEst(a: Byte, b: Byte, c: Byte)
    requires a == 101 && b == 115 && c == 116
    ensures Base64.EncodeGroup(a, b, c) == B("ZXN0")
  {
  }

  lemma GroupNul12(a: Byte, b: Byte, c: Byte)
    requires a == 0 && b == 49 && c == 50
    ensures Base64.EncodeGroup(a, b, c) == B("ADEy")
  {
  }

  lemma Last34(a: Byte, b: Byte)
    requires a == 51 && b == 52
    ensures Base64.EncodeTwo(a, b) == B("MzQ=")
  {
    assert a / 4 == 12 && a % 4 * 16 + b / 16 == 51 && b % 16 * 4 == 16;
  }

  /** A PLAIN message `?est` NUL `test` NUL `1234` encodes as its first group and the tail every such message shares. */
  lemma EncodeTestMessage(s: seq<Byte>)
    requires |s| == 14
    requires s[3] == 116 && s[4] == 0
    requires s[5] == 116 && s[6] == 101 && s[7] == 115 && s[8] == 116 && s[9] == 0
    requires s[10] == 49 && s[11] == 50 && s[12] == 51 && s[13] == 52
    ensures Base64.Encode(s) == Base64.EncodeGroup(s[0], s[1], s[2]) + (B("dAB0") + B("ZXN0") + B("ADEy") + B("MzQ="))
  {
    EncodeStep(s);
    EncodeStep(s[3..]);
    EncodeStep(s[6..]);
    EncodeStep(s[9..]);
    EncodeLastTwo(s[12..]);
    GroupTNulT(s[3], s[4], s[5]);
    GroupEst(s[6], s[7], s[8]);
    GroupNul12(s[9], s[10], s[11]);
    Last34(s[12], s[13]);
  }

  lemma JoinTokens()
    ensures B("dGVz") + (B("dAB0") + B("ZXN0") + B("ADEy") + B("MzQ=")) == B("dGVzdAB0ZXN0ADEyMzQ=")
    ensures B("eGVz") + (B("dAB0") + B("ZXN0") + B("ADEy") + B("MzQ=")) == B("eGVzdAB0ZXN0ADEyMzQ=")
  {
  }

  /** The Base64 string the tests send is the PLAIN message of test/test/1234. */
  lemma TestToken()
    ensures Base64.Encode(Parser.PlainMessage(B("test"), B("test"), B("1234"))) == B("dGVzdAB0ZXN0ADEyMzQ=")
  {
    var s := Parser.PlainMessage(B("test"), B("test"), B("1234"));
    assert s[0] == 116 && s[1] == 101 && s[2] == 115 && s[3] == 116 && s[4] == 0;
    assert s[5] == 116 && s[6] == 101 && s[7] == 115 && s[8] == 116 && s[9] == 0;
    assert s[10] == 49 && s[11] == 50 && s[12] == 51 && s[13] == 52 && |s| == 14;
    EncodeTestMessage(s);
    GroupTes(s[0], s[1], s[2]);
    JoinTokens();
  }

  /** The string of the tests with bad credentials is the PLAIN message of xest/test/1234. */
  lemma BadTestToken()
    ensures Base64.Encode(Parser.PlainMessage(B("xest"), B("test"), B("1234"))) == B("eGVzdAB0ZXN0ADEyMzQ=")
  {
    var s := Parser.PlainMessage(B("xest"), B("test"), B("1234"));
    assert s[0] == 120 && s[1] == 101 && s[2] == 115 && s[3] == 116 && s[4] == 0;
    assert s[5] == 116 && s[6] == 101 && s[7] == 115 && s[8] == 116 && s[9] == 0;
    assert s[10] == 49 && s[11] == 50 && s[12] == 51 && s[13] == 52 && |s| == 14;
    EncodeTestMessage(s);
    GroupXes(s[0], s[1], s[2]);
    JoinTokens();
  }

  /** ASCII text without NUL is credential text. */
  lemma CredentialOf(s: string)
    requires forall i :: 0 <= i < |s| ==> 0 < s[i] as int < 0x80
    ensures Parser.IsCredentialText(B(s))
  {
    AsciiIsUtf8(B(s));
  }

  /** The tests' user names and password are credential text. */
  lemma TestCredentialText()
    ensures Parser.IsCredentialText(B("test")) && Parser.IsCredentialText(B("xest")) && Parser.IsCredentialText(B("1234"))
  {
    CredentialOf("test");
    CredentialOf("xest");
    CredentialOf("1234");
  }

  /** `AUTH PLAIN` with the tests' string carries the credentials test/test/1234. */
  lemma TestAuthLine(t: seq<Byte>)
    ensures Parser.Parse(B("auth") + Spaces(1) + B("plain") + Spaces(1) + B("dGVzdAB0ZXN0ADEyMzQ=") + CRLF + t)
         == Ok(Commands.AuthPlain(B("test"), B("test"), B("1234")))
  {
    TestCredentialText();
    TestToken();
    Parser.ParseAuthPlainLine(B("auth"), 1, B("plain"), 1, B("test"), B("test"), B("1234"), t);
  }

  /** The same command with the changed string carries xest/test/1234. */
  lemma BadTestAuthLine(t: seq<Byte>)
    ensures Parser.Parse(B("auth") + Spaces(1) + B("plain") + Spaces(1) + B("eGVzdAB0ZXN0ADEyMzQ=") + CRLF + t)
         == Ok(Commands.AuthPlain(B("xest"), B("test"), B("1234")))
  {
    TestCredentialText();
    BadTestToken();
    Parser.ParseAuthPlainLine(B("auth"), 1, B("plain"), 1, B("xest"), B("test"), B("1234"), t);
  }

  /** Sent alone in answer to the challenge, each string is Base64 and decodes to its credentials. */
  lemma TestResponses()
    ensures var r := B("dGVzdAB0ZXN0ADEyMzQ=");
      && r != [] && (forall i :: 0 <= i < |r| ==> Parser.IsBase64(r[i]))
      && Parser.DecodeSaslPlain(r) == Commands.Credentials(B("test"), B("test"), B("1234"))
    ensures var r := B("eGVzdAB0ZXN0ADEyMzQ=");
      && r != [] && (forall i :: 0 <= i < |r| ==> Parser.IsBase64(r[i]))
      && Parser.DecodeSaslPlain(r) == Commands.Credentials(B("xest"), B("test"), B("1234"))
  {
    TestCredentialText();
    TestToken();
    BadTestToken();
    Parser.EncodingIsBase64(Base64.Encode(Parser.PlainMessage(B("test"), B("test"), B("1234"))));
    Parser.EncodingIsBase64(Base64.Encode(Parser.PlainMessage(B("xest"), B("test"), B("1234"))));
    Parser.SaslPlainRoundTrip(B("test"), B("test"), B("1234"));
    Parser.SaslPlainRoundTrip(B("xest"), B("test"), B("1234"));
  }
}
