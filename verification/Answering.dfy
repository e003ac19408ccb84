// What the negotiation of src/modernirc.c:79-116 must say to every line it receives, in terms of the
// words of the line.
module Answering {
  import opened Text
  import opened Settings
  import opened Base64
  import opened ModernIrc
  import opened Tokens
  import opened Registration

  /** A line split at its spaces. */
  function WordsOf(line: string): (ws: Words)
    ensures AllPlain(ws) && Spaced(ws) == line
    decreases |line|
  {
    var i := IndexOf(line, ' ');
    if i == |line| then
      assert line[..i] == line;
      Last(line)
    else
      assert line[..i] + (" " + line[i + 1..]) == line;
      More(line[..i], WordsOf(line[i + 1..]))
  }

  /** The line has the word, with a word on either side. */
  predicate Has(line: string, word: string) {
    Inside(WordsOf(line), word)
  }

  predicate At(line: string, text: string, i: nat) {
    i + |text| <= |line| && line[i..i + |text|] == text
  }

  /** The text occurs somewhere in the line. */
  predicate Holds(line: string, text: string) {
    exists i :: 0 <= i <= |line| && At(line, text, i)
  }

  lemma HoldsContains(line: string, text: string)
    ensures Holds(line, text) <==> Contains(line, text)
  {
    hide Contains;
    if Holds(line, text) {
      var i :| 0 <= i <= |line| && At(line, text, i);
      ContainsAt(line, text, i);
    }
    if Contains(line, text) {
      var i := ContainsWhere(line, text);
      assert At(line, text, i);
    }
  }

  // ------------------------------------------------------------- the lines that matter

  /** A reply to CAP LS. */
  predicate ListsCaps(line: string) {
    Has(line, "CAP") && Has(line, "LS")
  }

  /** A reply to CAP LS that offers SASL, to a client that wants it. */
  predicate OffersSasl(s: Settings, line: string) {
    ListsCaps(line) && s.sasl && Holds(line, "sasl")
  }

  predicate GrantsSasl(line: string) {
    Has(line, "CAP") && Has(line, "ACK") && Holds(line, "sasl")
  }

  predicate AsksPayload(line: string) {
    |line| >= 14 && line[..14] == "AUTHENTICATE +"
  }

  predicate Fails(line: string) {
    Has(line, "904") || Has(line, "905") || Has(line, "906") || Has(line, "907")
  }

  /** The message that must come next, if any, while the negotiation is open. */
  function Due(s: Settings, requested: bool, line: string): Option<string> {
    if OffersSasl(s, line) then Some("CAP REQ :sasl")
    else if ListsCaps(line) then Some("CAP END")
    else if requested && GrantsSasl(line) then Some("AUTHENTICATE PLAIN")
    else if requested && AsksPayload(line) then
      if 2 * |s.saslUser| + |s.saslPass| + 2 <= 160 then
        Some("AUTHENTICATE " + Encode(PlainMessage(s.saslUser, s.saslPass)))
      else None
    else if Has(line, "903") || Fails(line) then Some("CAP END")
    else None
  }

  /** The negotiation gives the connection up over this line. */
  predicate GivesUp(s: Settings, requested: bool, line: string) {
    && !ListsCaps(line) && !(requested && GrantsSasl(line))
    && if requested && AsksPayload(line) then 2 * |s.saslUser| + |s.saslPass| + 2 > 160
       else !Has(line, "903") && Fails(line)
  }

  /** The flags afterwards. */
  function Flags(s: Settings, m: Modern, line: string): Modern {
    var due := Due(s, m.saslRequested, line);
    Modern(m.capActive, m.saslRequested || due == Some("CAP REQ :sasl"),
           m.saslComplete || (due == Some("CAP END") && !ListsCaps(line) && Has(line, "903")),
           due == Some("CAP END"))
  }

  lemma Sees(line: string)
    ensures Contains(line, " CAP ") == Has(line, "CAP") && Contains(line, " LS ") == Has(line, "LS")
    ensures Contains(line, " ACK ") == Has(line, "ACK") && Contains(line, " 903 ") == Has(line, "903")
    ensures SaslFailure(line) == Fails(line) && Contains(line, "sasl") == Holds(line, "sasl")
    ensures StartsWith(line, "AUTHENTICATE +") == AsksPayload(line)
  {
    hide Inside, Contains;
    Looks(WordsOf(line));
    HoldsContains(line, "sasl");
    assert |"AUTHENTICATE +"| == 14;
  }

  lemma FirstLetters(payload: string)
    ensures "CAP REQ :sasl" != "CAP END" && "AUTHENTICATE PLAIN" != "CAP END" && "AUTHENTICATE PLAIN" != "CAP REQ :sasl"
    ensures "AUTHENTICATE " + payload != "CAP END" && "AUTHENTICATE " + payload != "CAP REQ :sasl"
  {
    assert ("AUTHENTICATE " + payload)[0] == 'A' && "CAP END"[0] == "CAP REQ :sasl"[0] == 'C';
    assert "AUTHENTICATE PLAIN"[0] == 'A' && "CAP END"[4] == 'E' && "CAP REQ :sasl"[4] == 'R';
  }

  /** In an open negotiation every line gets its due: a reply to CAP LS is answered by CAP REQ exactly
      when SASL is configured and offered and by CAP END otherwise, and so on; a line with nothing due
      changes nothing; and the connection is given up exactly over a refusal, or a payload that does
      not fit. Once the negotiation has ended, and without CAP, nothing is said. */
  lemma AnswersExactly(s: Settings, m: Modern, line: string)
    ensures var (m', reply) := Negotiate(s, m, line);
            if !m.capActive || m.capEnded then m' == m && reply == Quiet
            else
              && m' == Flags(s, m, line)
              && Spoken(reply) == (match Due(s, m.saslRequested, line) case Some(message) => [message] case None => [])
              && (Survives(reply, true) <==> !GivesUp(s, m.saslRequested, line))
              && (Due(s, m.saslRequested, line).None? ==> m' == m)
  {
    hide Contains, Has, Holds, SaslFailure, Fails, AsksPayload, Encode, PlainMessage;
    Sees(line);
    FirstLetters(Encode(PlainMessage(s.saslUser, s.saslPass)));
  }

  // ------------------------------------------------------------- whole conversations

  /** Every line received while the conversation is alive and open is answered with its due, whether or
      not the send succeeds, and what was answered stays said; if it had ended before, CAP END was said. */
  lemma EveryLineIsAnswered(s: Settings, started: bool, inputs: seq<Input>, k: nat, n: nat)
    requires k < n <= |inputs| && s.cap && Talking(s, started, inputs, k).alive
    ensures var (t, said) := (Talking(s, started, inputs, k), Talking(s, started, inputs, n).said);
            var due := Due(s, t.modern.saslRequested, inputs[k].line);
            && t.said + (if t.modern.capEnded || due.None? then [] else [due.value]) <= said
            && (t.modern.capEnded ==> "CAP END" in said)
  {
    hide Negotiate, Due, Orderly, Talking, Next;
    var t, line := Talking(s, started, inputs, k), inputs[k].line;
    NegotiationTraces(s, started, inputs, k);
    OrderlyEnded(s, t.modern, t.said);
    AnswersExactly(s, t.modern, line);
    TalkStep(s, started, inputs, k);
    NextSaid(s, t, inputs[k]);
    FlagsOnlyRise(s, started, inputs, k + 1, n);
    Kept(t.said, Talking(s, started, inputs, n).said, Spoken(Negotiate(s, t.modern, line).1));
  }

  lemma OrderlyEnded(s: Settings, m: Modern, said: seq<string>)
    requires Orderly(s, m, said)
    ensures m.capActive == s.cap && (m.capEnded ==> "CAP END" in said)
  {
  }

  lemma Kept(a: seq<string>, all: seq<string>, b: seq<string>)
    requires a + b <= all
    ensures forall x | x in a :: x in all
  {
    forall x | x in a
      ensures x in all
    {
      assert x in a + b;
    }
  }

  /** So a server that lists its capabilities is never left waiting: after such a line the client has
      asked for SASL or ended the negotiation, and it has ended it unless it wants SASL and the line
      offers it. */
  lemma CapabilityListIsAnswered(s: Settings, started: bool, inputs: seq<Input>, k: nat, n: nat)
    requires k < n <= |inputs| && s.cap && Talking(s, started, inputs, k).alive && ListsCaps(inputs[k].line)
    ensures var said := Talking(s, started, inputs, n).said;
            if OffersSasl(s, inputs[k].line) then "CAP REQ :sasl" in said || "CAP END" in said else "CAP END" in said
  {
    hide Talking, ListsCaps, OffersSasl;
    EveryLineIsAnswered(s, started, inputs, k, n);
    var (t, said) := (Talking(s, started, inputs, k), Talking(s, started, inputs, n).said);
    var due := Due(s, t.modern.saslRequested, inputs[k].line).value;
    if !t.modern.capEnded {
      assert said[|t.said|] == (t.said + [due])[|t.said|] == due;
    }
  }

  /** And a client whose login was decided has ended the negotiation. */
  lemma VerdictIsAnswered(s: Settings, started: bool, inputs: seq<Input>, k: nat, n: nat)
    requires k < n <= |inputs| && s.cap && Talking(s, started, inputs, k).alive
    requires Has(inputs[k].line, "903") || Fails(inputs[k].line)
    requires !ListsCaps(inputs[k].line) && !GrantsSasl(inputs[k].line) && !AsksPayload(inputs[k].line)
    ensures "CAP END" in Talking(s, started, inputs, n).said
    ensures !Has(inputs[k].line, "903") && !Talking(s, started, inputs, k).modern.capEnded ==>
              !Talking(s, started, inputs, n).alive
  {
    hide Talking, ListsCaps, OffersSasl, GrantsSasl, AsksPayload, Has, Fails, Negotiate;
    EveryLineIsAnswered(s, started, inputs, k, n);
    var (t, said) := (Talking(s, started, inputs, k), Talking(s, started, inputs, n).said);
    NotAnOffer(s, inputs[k].line);
    if !t.modern.capEnded {
      assert said[|t.said|] == (t.said + ["CAP END"])[|t.said|] == "CAP END";
      NegotiationTraces(s, started, inputs, k);
      OrderlyEnded(s, t.modern, t.said);
      AnswersExactly(s, t.modern, inputs[k].line);
      TalkStep(s, started, inputs, k);
      FlagsOnlyRise(s, started, inputs, k + 1, n);
    }
  }

  lemma NotAnOffer(s: Settings, line: string)
    requires !ListsCaps(line)
    ensures !OffersSasl(s, line)
  {
  }

  lemma NextSaid(s: Settings, t: Talk, input: Input)
    requires t.alive
    ensures Next(s, t, input).said == t.said + Spoken(Negotiate(s, t.modern, input.line).1)
  {
  }

  lemma TalkStep(s: Settings, started: bool, inputs: seq<Input>, k: nat)
    requires k < |inputs|
    ensures Talking(s, started, inputs, k + 1) == Next(s, Talking(s, started, inputs, k), inputs[k])
  {
  }
}
