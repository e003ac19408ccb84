// A receiver of PLAIN messages written from section 2 of RFC 4616, and what it reads in the payload
// of src/modernirc.c:42-62 and in what the endpoint of ci/m9_2/fixture_server.py:51-63 accepts.
module Rfc4616 {
  import opened Text
  import opened Base64
  import opened ModernIrc
  import opened Fixture

  /** The authorization identity, the authentication identity and the password. */
  datatype Login = Login(authzid: seq<Byte>, authcid: seq<Byte>, passwd: seq<Byte>)

  /** Where the first NUL is, or the length when there is none. */
  function FirstNul(message: seq<Byte>): (i: nat)
    ensures i <= |message| && 0 !in message[..i] && (i < |message| ==> message[i] == 0)
  {
    if message == [] || message[0] == 0 then 0
    else
      var i := 1 + FirstNul(message[1..]);
      assert message[..i] == [message[0]] + message[1..][..i - 1];
      i
  }

  /** What lies between the NULs. */
  function Fields(message: seq<Byte>): seq<seq<Byte>> {
    var i := FirstNul(message);
    if i == |message| then [message] else [message[..i]] + Fields(message[i + 1..])
  }

  /** message = [authzid] NUL authcid NUL passwd, where no part holds a NUL. */
  function Read(message: seq<Byte>): Option<Login> {
    var fields := Fields(message);
    if |fields| == 3 then Some(Login(fields[0], fields[1], fields[2])) else None
  }

  lemma {:induction false} FirstNulAt(message: seq<Byte>, i: nat)
    requires i <= |message| && 0 !in message[..i] && (i < |message| ==> message[i] == 0)
    ensures FirstNul(message) == i
  {
    if i > 0 {
      assert message[..i][0] == message[0];
      assert message[..i] == [message[0]] + message[1..][..i - 1];
      FirstNulAt(message[1..], i - 1);
    }
  }

  lemma OneField(a: seq<Byte>)
    requires 0 !in a
    ensures Fields(a) == [a]
  {
    assert a[..|a|] == a;
    FirstNulAt(a, |a|);
  }

  lemma MoreFields(a: seq<Byte>, rest: seq<Byte>)
    requires 0 !in a
    ensures Fields(a + [0] + rest) == [a] + Fields(rest)
  {
    var message := a + [0] + rest;
    assert message[..|a|] == a && message[|a| + 1..] == rest;
    FirstNulAt(message, |a|);
  }

  lemma ThreeFields(a: seq<Byte>, b: seq<Byte>, c: seq<Byte>)
    requires 0 !in a && 0 !in b && 0 !in c
    ensures Read(a + [0] + (b + [0] + c)) == Some(Login(a, b, c))
  {
    hide Fields;
    MoreFields(a, b + [0] + c);
    MoreFields(b, c);
    OneField(c);
    assert [a] + ([b] + [c]) == [a, b, c];
  }

  /** A message is its fields with NULs between them. */
  lemma FieldsBack(message: seq<Byte>)
    ensures var i := FirstNul(message);
            if i == |message| then |Fields(message)| == 1 && Fields(message)[0] == message
            else
              && |Fields(message)| == 1 + |Fields(message[i + 1..])| && Fields(message)[0] == message[..i]
              && Fields(message)[1..] == Fields(message[i + 1..])
              && message == message[..i] + [0] + message[i + 1..]
  {
    hide FirstNul;
    var i := FirstNul(message);
    if i < |message| {
      assert ([message[..i]] + Fields(message[i + 1..]))[1..] == Fields(message[i + 1..]);
    }
  }

  lemma {:induction false} SomeField(message: seq<Byte>)
    ensures |Fields(message)| >= 1
  {
    FieldsBack(message);
  }

  /** So only one message reads as a given login. */
  lemma ReadBack(message: seq<Byte>, login: Login)
    requires Read(message) == Some(login)
    ensures message == login.authzid + [0] + (login.authcid + [0] + login.passwd)
    ensures 0 !in login.authzid && 0 !in login.authcid && 0 !in login.passwd
  {
    hide Fields, FirstNul;
    var fields := Fields(message);
    FieldsBack(message);
    var rest := message[FirstNul(message) + 1..];
    FieldsBack(rest);
    assert fields[1..][0] == fields[1];
    if FirstNul(rest) < |rest| {
      var last := rest[FirstNul(rest) + 1..];
      FieldsBack(last);
      assert Fields(rest)[1..][0] == fields[2];
      if FirstNul(last) < |last| {
        SomeField(last[FirstNul(last) + 1..]);
        assert false;
      }
      assert last[..FirstNul(last)] == last;
    } else {
      assert false;
    }
  }

  /** The login of a user who acts as himself. */
  function Himself(user: string, pass: string): Login {
    Login(Bytes(user), Bytes(user), Bytes(pass))
  }

  /** The message byte by byte: the user, a NUL, the user again, a NUL, the password. */
  lemma PlainBytes(user: string, pass: string)
    requires Octets(user) && Octets(pass)
    ensures var (m, u) := (PlainMessage(user, pass), |user|);
            && |m| == u + 1 + u + 1 + |pass|
            && (forall i | 0 <= i < u :: m[i] == user[i] as int)
            && m[u] == 0
            && (forall i | 0 <= i < u :: m[u + 1 + i] == user[i] as int)
            && m[u + 1 + u] == 0
            && (forall i | 0 <= i < |pass| :: m[u + 1 + u + 1 + i] == pass[i] as int)
  {
    assert forall i | 0 <= i < |user| :: user[i] in user;
    assert forall i | 0 <= i < |pass| :: pass[i] in pass;
  }

  /** The receiver reads the configured user, as both identities, and the password. */
  lemma PayloadReads(user: string, pass: string)
    requires Octets(user) && Octets(pass)
    ensures Read(PlainMessage(user, pass)) == Some(Himself(user, pass))
  {
    NoZero(user);
    NoZero(pass);
    ThreeFields(Bytes(user), Bytes(user), Bytes(pass));
  }

  /** What is sent: the decoded argument of the payload line reads as the configured login; and a
      payload line there is exactly when the message has at most 160 bytes. */
  lemma SentPayload(user: string, pass: string)
    requires Octets(user) && Octets(pass)
    ensures PayloadLine(user, pass).Some? <==> 2 * |user| + |pass| + 2 <= 160
    ensures PayloadLine(user, pass).Some? ==>
              var line := PayloadLine(user, pass).value;
              && |line| >= 13 && line[..13] == "AUTHENTICATE "
              && Decode(line[13..]).Some? && Read(Decode(line[13..]).value) == Some(Himself(user, pass))
  {
    hide Read, Decode, Encode;
    if PayloadLine(user, pass).Some? {
      var line := PayloadLine(user, pass).value;
      assert |"AUTHENTICATE "| == 13;
      assert line[..13] == "AUTHENTICATE " && line[13..] == Encode(PlainMessage(user, pass));
      PayloadDecodes(user, pass);
      PayloadReads(user, pass);
    }
  }

  /** An argument of AUTHENTICATE that logs in as the endpoint's user. */
  predicate LogsIn(ep: Endpoint, arg: string) {
    match Decode(arg)
    case Some(message) => Read(message) == Some(Himself(ep.user, ep.pass))
    case None => false
  }

  lemma OnlyItsMessage(user: string, pass: string, message: seq<Byte>)
    requires Octets(user) && Octets(pass)
    ensures message == PlainMessage(user, pass) <==> Read(message) == Some(Himself(user, pass))
  {
    PayloadReads(user, pass);
    if Read(message) == Some(Himself(user, pass)) {
      ReadBack(message, Himself(user, pass));
    }
  }

  /** The endpoint accepts exactly what that receiver reads as its own user and password, and answers
      903 to it and 904 to everything else. */
  lemma AcceptsExactly(ep: Endpoint, s: Server, arg: string)
    requires Octets(ep.user) && Octets(ep.pass)
    ensures var (t, said) := Auth(ep, s, arg);
            var nick := match s.nick case Some(n) => n case None => "*";
            if arg == "PLAIN" then t == s && said == ["AUTHENTICATE +"]
            else if LogsIn(ep, arg) then
              t == s.(saslOk := true) && said == [":fixture 903 " + nick + " :SASL successful"]
            else t == s && said == [":fixture 904 " + nick + " :SASL failed"]
  {
    hide Read, Decode, PlainMessage;
    if Decode(arg).Some? {
      OnlyItsMessage(ep.user, ep.pass, Decode(arg).value);
    }
  }
}
