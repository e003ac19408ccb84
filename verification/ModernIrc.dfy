// src/modernirc.c: CAP and SASL PLAIN negotiation of one connection.
module ModernIrc {
  import opened Text
  import opened NetIo
  import opened Irc
  import opened Settings
  import opened Base64

  // ---------------------------------------------------------- SASL payload

  /** The byte of a C character. */
  function ByteOf(c: char): Byte {
    if c as int < 256 then c as int else 63
  }

  predicate Octets(s: string) {
    forall c | c in s :: 0 < c as int < 256
  }

  function Bytes(s: string): (r: seq<Byte>)
    ensures |r| == |s|
  {
    seq(|s|, i requires 0 <= i < |s| => ByteOf(s[i]))
  }

  /** Section 2 of RFC 4616: authorization identity, NUL, user, NUL, password. */
  function PlainMessage(user: string, pass: string): seq<Byte> {
    Bytes(user) + [0] + (Bytes(user) + [0] + Bytes(pass))
  }

  const PLAIN_SIZE := 160
  const ENCODED_SIZE := 224
  const LINE_SIZE := 240

  /** The payload line, unless the message does not fit its buffer. */
  function PayloadLine(user: string, pass: string): Option<string> {
    if 2 * |user| + |pass| + 2 > PLAIN_SIZE then None
    else Some("AUTHENTICATE " + Encode(PlainMessage(user, pass)))
  }

  /** `memcpy` of a text into a byte buffer. */
  method CopyText(dst: array<Byte>, at: nat, text: string)
    requires at + |text| <= dst.Length
    modifies dst
    ensures dst[..at + |text|] == old(dst[..at]) + Bytes(text)
  {
    for i := 0 to |text|
      invariant dst[..at + i] == old(dst[..at]) + Bytes(text)[..i]
    {
      dst[at + i] := ByteOf(text[i]);
    }
    assert Bytes(text)[..|text|] == Bytes(text);
  }

  /** The message is put together in the buffer. */
  method FillPlain(plain: array<Byte>, user: string, pass: string) returns (length: nat)
    requires |user| * 2 + |pass| + 2 <= plain.Length
    modifies plain
    ensures length == |user| * 2 + |pass| + 2 && plain[..length] == PlainMessage(user, pass)
  {
    hide Bytes;
    var ulen := |user|;
    CopyText(plain, 0, user);
    plain[ulen] := 0;
    assert plain[..ulen + 1] == Bytes(user) + [0];
    CopyText(plain, ulen + 1, user);
    plain[ulen + 1 + ulen] := 0;
    assert plain[..ulen + 2 + ulen] == Bytes(user) + [0] + (Bytes(user) + [0]);
    CopyText(plain, ulen + 2 + ulen, pass);
    length := ulen + 1 + ulen + 1 + |pass|;
  }

  /** Of the three size checks only the first can fail. */
  method SendSaslPayload(sock: Socket, s: Settings) returns (ok: bool)
    modifies sock
    ensures (sock.State(), ok) == match PayloadLine(s.saslUser, s.saslPass)
                                  case Some(line) => WriteLine(old(sock.State()), line)
                                  case None => (old(sock.State()), false)
  {
    hide Encode, Bytes;
    if |s.saslUser| * 2 + |s.saslPass| + 2 > PLAIN_SIZE {
      return false;
    }
    var plain := new Byte[PLAIN_SIZE](_ => 0);
    var length := FillPlain(plain, s.saslUser, s.saslPass);
    var message := plain[..length];
    var encoded := new char[ENCODED_SIZE](_ => '\0');
    ok := EncodeInto(message, encoded);
    assert (|message| + 2) / 3 <= 54;
    assert ok;
    var line := "AUTHENTICATE " + encoded[..|Encode(message)|];
    assert |line| < LINE_SIZE;
    if |line| >= LINE_SIZE {
      return false;
    }
    ok := SendLine(sock, line);
  }

  /** Every credential the configuration can hold fits. */
  lemma ConfiguredCredentialsFit(s: Settings)
    requires Bounded(s)
    ensures PayloadLine(s.saslUser, s.saslPass).Some?
  {
    assert Get(s, SaslUser).Str? && Get(s, SaslPass).Str?;
  }

  lemma BytesInjective(a: string, b: string)
    requires Octets(a) && Octets(b) && Bytes(a) == Bytes(b)
    ensures a == b
  {
    forall i | 0 <= i < |a|
      ensures a[i] == b[i]
    {
      assert Bytes(a)[i] == Bytes(b)[i] && a[i] in a && b[i] in b;
    }
  }

  lemma NoZero(s: string)
    requires Octets(s)
    ensures 0 !in Bytes(s)
  {
    forall i | 0 <= i < |s|
      ensures Bytes(s)[i] != 0
    {
      assert s[i] in s;
    }
  }

  lemma {:induction false} SplitAtZero(a: seq<Byte>, x: seq<Byte>, b: seq<Byte>, y: seq<Byte>)
    requires 0 !in a && 0 !in b && a + [0] + x == b + [0] + y
    ensures a == b && x == y
  {
    var l, r := a + [0] + x, b + [0] + y;
    assert l[0] == r[0];
    if a != [] && b != [] {
      assert l[1..] == a[1..] + [0] + x && r[1..] == b[1..] + [0] + y;
      SplitAtZero(a[1..], x, b[1..], y);
      assert a == [a[0]] + a[1..] && b == [b[0]] + b[1..];
    } else {
      assert a == [] ==> l[1..] == x;
      assert b == [] ==> r[1..] == y;
    }
  }

  /** The payload decodes to the PLAIN message of the credentials. */
  lemma PayloadDecodes(user: string, pass: string)
    ensures Decode(Encode(PlainMessage(user, pass))) == Some(PlainMessage(user, pass))
  {
    RoundTrip(PlainMessage(user, pass));
  }

  /** Different credentials give different payloads. */
  lemma PayloadInjective(user: string, pass: string, user': string, pass': string)
    requires Octets(user) && Octets(pass) && Octets(user') && Octets(pass')
    ensures Encode(PlainMessage(user, pass)) == Encode(PlainMessage(user', pass')) <==> user == user' && pass == pass'
  {
    PayloadDecodes(user, pass);
    PayloadDecodes(user', pass');
    var p, q := PlainMessage(user, pass), PlainMessage(user', pass');
    if p == q {
      NoZero(user);
      NoZero(user');
      SplitAtZero(Bytes(user), Bytes(user) + [0] + Bytes(pass), Bytes(user'), Bytes(user') + [0] + Bytes(pass'));
      SplitAtZero(Bytes(user), Bytes(pass), Bytes(user'), Bytes(pass'));
      BytesInjective(user, user');
      BytesInjective(pass, pass');
    }
  }

  // ----------------------------------------------------------- negotiation

  const CAP_LS := "CAP LS 302"
  const CAP_REQ := "CAP REQ :sasl"
  const CAP_END := "CAP END"
  const AUTH_PLAIN := "AUTHENTICATE PLAIN"

  /** `struct ambot_modernirc`. */
  datatype Modern = Modern(capActive: bool, saslRequested: bool, saslComplete: bool, capEnded: bool)

  /** What one line makes the client do: nothing, send a line, send a line and give the
      connection up, or give it up without sending. */
  datatype Reply = Quiet | Say(line: string) | SayAndFail(last: string) | Refuse

  /** A line that advertises SASL. */
  predicate Offer(line: string) {
    Contains(line, " CAP ") && Contains(line, " LS ") && Contains(line, "sasl")
  }

  predicate SaslFailure(line: string) {
    Contains(line, " 904 ") || Contains(line, " 905 ") || Contains(line, " 906 ") || Contains(line, " 907 ")
  }

  function Begin(s: Settings): Modern {
    Modern(s.cap, false, false, false)
  }

  function Negotiate(s: Settings, m: Modern, line: string): (Modern, Reply) {
    if !m.capActive || m.capEnded then (m, Quiet)
    else if Contains(line, " CAP ") && Contains(line, " LS ") then
      if s.sasl && Contains(line, "sasl") then (m.(saslRequested := true), Say(CAP_REQ))
      else (m.(capEnded := true), Say(CAP_END))
    else if m.saslRequested && Contains(line, " CAP ") && Contains(line, " ACK ") && Contains(line, "sasl") then
      (m, Say(AUTH_PLAIN))
    else if m.saslRequested && StartsWith(line, "AUTHENTICATE +") then
      (m, match PayloadLine(s.saslUser, s.saslPass) case Some(l) => Say(l) case None => Refuse)
    else if Contains(line, " 903 ") then (m.(saslComplete := true, capEnded := true), Say(CAP_END))
    else if SaslFailure(line) then (m.(capEnded := true), SayAndFail(CAP_END))
    else (m, Quiet)
  }

  /** Carrying a reply out; the flag says whether the connection goes on. */
  function Answer(w: Wire, reply: Reply): (Wire, bool) {
    match reply
    case Quiet => (w, true)
    case Say(line) => WriteLine(w, line)
    case SayAndFail(line) => (WriteLine(w, line).0, false)
    case Refuse => (w, false)
  }

  class Negotiator {
    var capActive: bool
    var saslRequested: bool
    var saslComplete: bool
    var capEnded: bool

    ghost function State(): Modern
      reads this
    {
      Modern(capActive, saslRequested, saslComplete, capEnded)
    }

    constructor ()
      ensures State() == Modern(false, false, false, false)
    {
      capActive, saslRequested, saslComplete, capEnded := false, false, false, false;
    }

    method Start(sock: Socket, s: Settings) returns (ok: bool)
      modifies this, sock
      ensures State() == Begin(s)
      ensures (sock.State(), ok) == if s.cap then WriteLine(old(sock.State()), CAP_LS) else (old(sock.State()), true)
    {
      capActive, saslRequested, saslComplete, capEnded := false, false, false, false;
      if !s.cap {
        return true;
      }
      capActive := true;
      ok := SendLine(sock, CAP_LS);
    }

    method HandleLine(sock: Socket, s: Settings, line: string) returns (ok: bool)
      modifies this, sock
      ensures State() == Negotiate(s, old(State()), line).0
      ensures (sock.State(), ok) == Answer(old(sock.State()), Negotiate(s, old(State()), line).1)
    {
      if !capActive || capEnded {
        return true;
      }
      if Contains(line, " CAP ") && Contains(line, " LS ") {
        if s.sasl && Contains(line, "sasl") {
          saslRequested := true;
          ok := SendLine(sock, CAP_REQ);
          return;
        }
        capEnded := true;
        ok := SendLine(sock, CAP_END);
        return;
      }
      if saslRequested && Contains(line, " CAP ") && Contains(line, " ACK ") && Contains(line, "sasl") {
        ok := SendLine(sock, AUTH_PLAIN);
        return;
      }
      if saslRequested && StartsWith(line, "AUTHENTICATE +") {
        ok := SendSaslPayload(sock, s);
        return;
      }
      if Contains(line, " 903 ") {
        saslComplete, capEnded := true, true;
        ok := SendLine(sock, CAP_END);
        return;
      }
      if SaslFailure(line) {
        capEnded := true;
        var _ := SendLine(sock, CAP_END);
        return false;
      }
      ok := true;
    }
  }

  // ------------------------------------------------------- whole conversations

  /** One received line, and whether sending an answer to it would succeed. */
  datatype Input = Input(line: string, sends: bool)

  /** The negotiation so far: the flags, every message attempted, still going on or not. */
  datatype Talk = Talk(modern: Modern, said: seq<string>, alive: bool)

  function Spoken(reply: Reply): seq<string> {
    match reply
    case Say(line) => [line]
    case SayAndFail(line) => [line]
    case _ => []
  }

  /** Whether the negotiation step lets the connection live. */
  predicate Survives(reply: Reply, sends: bool) {
    reply == Quiet || (reply.Say? && sends)
  }

  /** On a wire: the message, if there is one, is written, and the connection lives exactly if the
      step lets it. */
  lemma AnswerSurvives(w: Wire, reply: Reply)
    ensures var ((w', alive), said) := (Answer(w, reply), Spoken(reply));
            if said == [] then w' == w && (alive <==> Survives(reply, true))
            else |said| == 1 && w' == WriteLine(w, said[0]).0 && (alive <==> Survives(reply, WriteLine(w, said[0]).1))
  {
    hide WriteLine;
  }

  /** One more received line. */
  function Next(s: Settings, t: Talk, input: Input): Talk {
    if !t.alive then t
    else
      var (m, reply) := Negotiate(s, t.modern, input.line);
      Talk(m, t.said + Spoken(reply), Survives(reply, input.sends))
  }

  function Talking(s: Settings, started: bool, inputs: seq<Input>, n: nat): Talk
    requires n <= |inputs|
  {
    if n == 0 then Talk(Begin(s), if s.cap then [CAP_LS] else [], !s.cap || started)
    else Next(s, Talking(s, started, inputs, n - 1), inputs[n - 1])
  }

  predicate IsAuth(message: string) {
    StartsWith(message, "AUTHENTICATE ")
  }

  /** What holds of every trace of negotiation messages. */
  ghost predicate Orderly(s: Settings, m: Modern, said: seq<string>) {
    && m.capActive == s.cap
    && (said == [] <==> !s.cap)
    && (m.saslRequested <==> CAP_REQ in said)
    && (CAP_REQ in said ==> s.sasl)
    && (forall i | 0 <= i < |said| :: said[i] == CAP_LS <==> i == 0)
    && (forall i | 0 <= i < |said| && said[i] == CAP_END :: i == |said| - 1 && m.capEnded)
    && (m.capEnded ==> CAP_END in said)
    && (forall i | 0 <= i < |said| && IsAuth(said[i]) :: CAP_REQ in said[..i])
    && (m.saslComplete ==> m.capEnded)
  }

  /** Over any sequence of received lines and send outcomes: CAP LS comes first and once,
      CAP END at most once and last, every AUTHENTICATE after a CAP REQ, and a CAP REQ
      only with SASL configured and after a line that offered it. */
  lemma {:induction false} NegotiationTraces(s: Settings, started: bool, inputs: seq<Input>, n: nat)
    requires n <= |inputs|
    ensures var t := Talking(s, started, inputs, n);
            && Orderly(s, t.modern, t.said)
            && (CAP_REQ in t.said ==> exists i | 0 <= i < n :: Offer(inputs[i].line))
  {
    if n > 0 {
      NegotiationTraces(s, started, inputs, n - 1);
      var t := Talking(s, started, inputs, n - 1);
      if t.alive {
        var line := inputs[n - 1].line;
        OneStepOrderly(s, t.modern, t.said, line);
        if CAP_REQ in Spoken(Negotiate(s, t.modern, line).1) {
          assert Offer(inputs[n - 1].line);
        }
      }
    }
  }

  /** One more message keeps the order, if it is one that may come next. */
  lemma OrderlyMore(s: Settings, m: Modern, said: seq<string>, m': Modern, message: string)
    requires Orderly(s, m, said) && s.cap && !m.capEnded && message != CAP_LS
    requires m'.capActive == m.capActive && (m'.saslRequested <==> m.saslRequested || message == CAP_REQ)
    requires (message == CAP_REQ ==> s.sasl) && (IsAuth(message) ==> m.saslRequested)
    requires (m'.capEnded <==> message == CAP_END) && (m'.saslComplete ==> m'.capEnded)
    ensures Orderly(s, m', said + [message])
  {
    hide IsAuth;
    var all := said + [message];
    assert forall i | 0 <= i <= |said| :: all[..i] == said[..i];
    assert forall i | 0 <= i < |said| :: all[i] == said[i];
    assert all[|said|] == message;
    assert CAP_REQ in all <==> CAP_REQ in said || CAP_REQ == message;
    assert CAP_END in all <==> CAP_END in said || CAP_END == message;
    assert said[..|said|] == said;
  }

  /** What negotiation says, and when: nothing and no flag changed, or one message that may come next. */
  lemma NegotiateSpeaks(s: Settings, m: Modern, line: string)
    ensures var (m', reply) := Negotiate(s, m, line);
            if Spoken(reply) == [] then m' == m
            else
              && m.capActive && !m.capEnded && |Spoken(reply)| == 1
              && var message := Spoken(reply)[0];
                 && message != CAP_LS && m'.capActive
                 && (m'.saslRequested <==> m.saslRequested || message == CAP_REQ)
                 && (message == CAP_REQ ==> s.sasl && Offer(line)) && (IsAuth(message) ==> m.saslRequested)
                 && (m'.capEnded <==> message == CAP_END) && (m'.saslComplete ==> m.saslComplete || m'.capEnded)
  {
    hide Contains, Encode, PlainMessage;
    assert CAP_REQ[0] == CAP_END[0] == CAP_LS[0] == 'C' && "AUTHENTICATE "[0] == AUTH_PLAIN[0] == 'A';
    assert CAP_REQ[4] == 'R' && CAP_END[4] == 'E' && CAP_LS[4] == 'L';
  }

  lemma OneStepOrderly(s: Settings, m: Modern, said: seq<string>, line: string)
    requires Orderly(s, m, said)
    ensures var (m', reply) := Negotiate(s, m, line);
            Orderly(s, m', said + Spoken(reply)) && (CAP_REQ in Spoken(reply) ==> Offer(line))
  {
    hide Negotiate, Offer, IsAuth;
    NegotiateSpeaks(s, m, line);
    var (m', reply) := Negotiate(s, m, line);
    if Spoken(reply) == [] {
      assert said + [] == said;
    } else {
      assert Spoken(reply) == [Spoken(reply)[0]];
      assert m.saslComplete ==> m.capEnded;
      OrderlyMore(s, m, said, m', Spoken(reply)[0]);
    }
  }

  /** The flags only rise, messages are only ever added, and once the negotiation has ended
      or failed nothing changes any more. */
  predicate Rises(t: Talk, u: Talk) {
    && u.modern.capActive == t.modern.capActive
    && (t.modern.saslRequested ==> u.modern.saslRequested)
    && (t.modern.saslComplete ==> u.modern.saslComplete)
    && t.said <= u.said
    && (t.modern.capEnded || !t.alive ==> u == t)
  }

  lemma OneStepRises(s: Settings, t: Talk, input: Input)
    ensures Rises(t, Next(s, t, input))
  {
    assert t.said + [] == t.said;
  }

  lemma RisesOn(t: Talk, u: Talk, v: Talk)
    requires Rises(t, u) && Rises(u, v)
    ensures Rises(t, v)
  {
  }

  /** Along any conversation, from any point of it to any later one. */
  lemma {:induction false} FlagsOnlyRise(s: Settings, started: bool, inputs: seq<Input>, a: nat, b: nat)
    requires a <= b <= |inputs|
    ensures Rises(Talking(s, started, inputs, a), Talking(s, started, inputs, b))
  {
    var t := Talking(s, started, inputs, a);
    if a == b {
      assert t.said <= t.said;
    } else {
      var u := Talking(s, started, inputs, b - 1);
      FlagsOnlyRise(s, started, inputs, a, b - 1);
      OneStepRises(s, u, inputs[b - 1]);
      RisesOn(t, u, Next(s, u, inputs[b - 1]));
    }
  }
}
