# AmBot: a verified model

AmBot is an IRC bot in C. This project models its protocol, supervision, configuration and
codec code, and proves what that code keeps over whole connections and whole runs.

- **Sending and receiving** (`NetIo`, `Irc`, `Framing`, `GoingOn`). A line sender over a socket
  that takes any part of each write, and the incremental line framer with its discard mode and its
  stopping callback. However `recv` splits a stream, the lines delivered are those of the whole
  stream, and framing undoes sending: of lines sent until the first failure exactly the whole ones
  of at most 511 bytes arrive. For callers that go on after a failure the exact condition is proved.
- **Negotiation** (`Base64`, `ModernIrc`, `Rfc4616`, `Answering`). The CAP/SASL automaton of IRCv3
  Client Capability Negotiation and what it must answer to every line, the PLAIN payload as a
  receiver written from section 2 of RFC 4616 reads it, and the encoder of section 4 of RFC 4648
  with an independent decoder.
- **The closed handshake** (`Tokens`, `Fixture`, `Handshake`, `ByteStreams`, `Registration`,
  `Outcome`, `Fairness`, `Witnesses`, `Registering`, `Determinacy`, `Endings`, `Termination`,
  `FairRegistration`). The bot and its scripted IRC endpoint joined by two byte streams: the client
  frames whatever chunks `recv` returns, the endpoint reads line by line. Who can log in and who can
  register, for every configuration; that every fair run of every configuration ends, and always in
  the same way; and in which way, with or without CAP and SASL on either side.
- **Events** (`Events`, `EventLines`, `EventQueue`, `SessionReader`, `Rexx`). The event parser as an
  inverse of printing and on every line whatever, the 16-slot ring buffer, both behind the framer as
  the single-network session has them, and the quoting of the ARexx hook command.
- **Configuration** (`Settings`, `Config`, `Files`, `Reload`, `Networks`, `Keys`). The line-driven loader
  against a declarative meaning, written files that are read back, exactly when RELOAD of an
  unchanged file is a no-op, the validated projection to runtime networks, and every key by its name,
  field and size.
- **The supervisor** (`Operations`, `OneNetwork`, `Connections`, `Reconnects`, `Conversation`,
  `Multinet`, `Runs`, `Restarts`, `Exits`, `Retries`). The loop over up to four networks with its
  redundant counters and socket array: per-network behaviour, stream, negotiation and backoff, when a
  lost network tries again, and theorems over whole runs and series of runs: invariants, when each
  exit is taken and what it leaves, socket conservation, isolation. `Runs.FromFileToExit` goes from
  the bytes of a configuration file to the exit of the loop.
- **The single-network session** (`Session`, `SessionRuns`). Its control flags, lifecycle events and
  delays, and what it goes on to do after every refusal, loss and request.
- **BotAI** (`BotAi`, `FlatJson`). `json_escape` and the flat-object parser, with the exact
  language it accepts.

Code that updates state is modelled as classes and methods with loops, each proved against a
specification function; the theorems are lemmas about those functions. The environment is data:
return codes of `send`, results of `connect`, chunks, ready bits, clock samples and ARexx commands
are arbitrary sequences, so every theorem holds for all of them. Strings hold no NUL except where
bytes come from the network; the framer cuts a line at its first NUL as C does.

## What the proofs show about the code

- `docs/M7.md:50` says RELOAD tears the current set down. The code leaves every live socket open:
  a RELOAD leaves nothing open exactly when no network is live at the loop head where it is asked
  for (`Runs.ReloadAtPoll`, and over whole runs `Runs.ReloadLeavesLiveSocketsOpen`). RECONNECT exits
  do the same (`Runs.RunExits`). One connected network shows it (`Runs.ReloadLeaksOneSocket`). Over a
  series of runs the sockets opened and not closed are as many as the networks live at those exits
  and in the current run (`Restarts.ForgottenSockets`), and RELOADs of one connected network leave
  one more each time (`Restarts.EachReloadForgetsOne`).
- The control block agrees with network 0 after start-up exactly when it came in without a socket
  or network 0 connects at once (`Runs.StartHealthy`): a stale socket is not cleared. After a
  RELOAD that is the old network 0's socket, still open (`Runs.RestartHealthy`; a run that shows it
  is `Runs.RestartIsStale`). It stays there exactly until network 0 is live for the first time
  (`Runs.StaleUntilConnected`); a run of secure networks that ends with STOP or NO_RETRYABLE has
  cleared it (`Runs.StartToExit`).
- A file with a fifth `[NETWORK ...]` header can change the first four when it is loaded again.
  Reloading is a no-op, from every configuration the program can hold, exactly when no key set after
  the fifth header is one that a stored section takes from outside the file (`Reload.ReloadIsNoOp`);
  a file of six lines fails (`Reload.FifthSectionLeaks`); every file with at most four sections is
  safe. From one given configuration it is a no-op exactly when that already holds what is set late
  (`Reload.ReloadFrom`).
- Nick, user, password and channels are sent without looking for line feeds. Arguments
  (`src/main.c:34-36`) can hold them, and sections inherit those texts. The endpoint can then be
  made to accept a client with other credentials exactly when the greeting, cut at its line feeds,
  holds a login with the endpoint's own credentials at a line the endpoint reaches
  (`ByteStreams.LogsInExactly`; a password that does it is in `Witnesses.LineFeedInPassword`). It can
  be made to register such a client exactly when the greeting registers it, or the client uses CAP
  and the greeting leaves the endpoint reading, with a login, a nick and a user
  (`Registering.RegistersExactly`); a login alone is not enough (`Registering.SmugglerWithoutNick`). Texts
  from a file never hold a line feed (`Files.LoadedOneLine`), so networks configured by a file
  alone cannot (`Witnesses.FileNetworksAreHonest`, `Witnesses.LegacyNetworkIsHonest`).
- A nick that is not empty but holds no word, such as `:`, stops the endpoint at the NICK line: on a
  fair run a client registers exactly when its nick has a word and, if the endpoint requires SASL, the
  client wants it and has the endpoint's credentials (`FairRegistration.RegistersOnFairRuns`).
- An endpoint that does not require SASL registers a client whose SASL attempt fails, on its CAP END,
  while that client closes the connection (`Endings.FairRunsEndSo`; `FairRegistration.RegisteredAndGone`).
- With wrong credentials the client closes the connection unless the nick the endpoint sees is
  `903`: the failure line then contains ` 903 ` and is taken for a success
  (`Fairness.HandshakeEnds`, `Witnesses.Nick903StaysConnected`).
- A carriage return counts toward the 512-byte line, so a sent line survives framing exactly when
  it has at most 511 bytes (`Framing.FramingInvertsSending`). Callers that ignore a failed send
  (`src/multinet.c:73`, `src/multinet.c:124-129`) get their lines across exactly when no line that is
  reported sent and fits follows bytes of failed lines (`GoingOn.GoingOnDeliversExactly`; a plan in
  which one does is in `Framing.FailedSendGluesLines`).

## Model

| member | source | states |
|---|---|---|
| NetIo.Write | src/net.c:56-65 | for any return codes the peer gets a prefix of the data, and success means all of it |
| NetIo.TakesAll | src/net.c:56-65 | codes that are positive and sum up to the length get everything across, and no call is made after the one that completes it |
| NetIo.TakesSome | src/net.c:56-65 | otherwise exactly the bytes of the codes before the first failing one get across, and that code is used up |
| NetIo.Socket.SendAll | src/net.c:56-65 | the partial-write loop sends what the write specification says and consumes exactly the codes of the calls it makes |
| Irc.WriteLine | src/irc.c:56-65 | a line is reported sent exactly when all of it and its CRLF went out; otherwise only a prefix did |
| Irc.SendLine | src/irc.c:56-65 | the two-write sender refines that |
| Irc.SendRegistration | src/irc.c:67-92 | success exactly when the peer got PASS (if any), NICK and USER in order, whatever partial writes happen; otherwise a prefix of them |
| Irc.LineFramer.FeedBytes | src/irc.c:14-54 | the in-place byte loop gives the framer state, consumer state and stop flag of the feed specification |
| Irc.LineFramer.AddByte | src/irc.c:41-52 | an unfinished line grows by one byte up to 512, after which the framer discards |
| Text.CStrCuts | src/irc.c:30-31 | the line a callback is given ends at its first NUL |
| Framing.FeedMeaning | src/irc.c:14-54 | from every reachable framer state, feeding hands over exactly the lines of pending text plus data that fit 512 bytes, up to the first that stops the consumer, and leaves the unfinished rest |
| Framing.RestIsNewlineFree | src/irc.c:14-54 | the unfinished rest holds no newline, so the states covered by FeedMeaning are all the reachable ones |
| Framing.FeedAppend | src/irc.c:14-54 | feeding two pieces is feeding their concatenation, except that a stop in the first drops the rest |
| Framing.ChunksAreOneFeed | src/multinet.c:251-265 | a connection that is not read after a stop behaves as one feed of all its bytes |
| Framing.StreamTheorem | src/multinet.c:233-267 | the lines a connection's consumer sees do not depend on how `recv` split the bytes |
| Framing.SentLines | src/irc.c:56-65 | for any partial writes: lines sent until the first failure put the whole ones on the wire, and of the failed one a part without line feed |
| Framing.FramingInvertsSending | src/irc.c:14-65 | for any lines, any partial writes until the first failure and any read chunking, exactly the whole lines of at most 511 bytes arrive, in order; overlong ones leave nothing behind, and the failed line's part stays pending |
| Framing.FailedSendGluesLines | src/multinet.c:124-129 | a plan that shows it: after a send that failed inside the first of two lines, the second is framed together with the part that got across |
| GoingOn.GoingOnDeliversExactly | src/multinet.c:124-129 | for any lines, each sent whatever became of those before, any partial writes and any read chunking: the peer frames exactly the lines reported sent that fit 512 bytes with their carriage return, if and only if none of them follows bytes that crossed from failed lines just before it; the bytes after the last whole line stay pending |
| GoingOn.ReceivedExactly | src/multinet.c:124-129 | the peer never frames more lines than were reported sent and fit |
| Base64.EncodeLength | src/modernirc.c:18-40 | the encoded form has four characters for each started group of three bytes |
| Base64.EncodeInto | src/modernirc.c:18-40 | encoding succeeds exactly when 4*ceil(n/3) is less than the capacity, and then leaves the encoding and a terminator |
| Base64.RoundTrip | src/modernirc.c:18-40 | decoding as section 4 of RFC 4648 prescribes gives the input back, for every length |
| Base64.AlphabetOrder | src/modernirc.c:21-22 | the 64 symbols in the order of section 4 of RFC 4648 |
| Base64.TestVectors | src/modernirc.c:18-40 | the test vectors of section 10 of RFC 4648 |
| Base64.EncodeAlphabet | src/modernirc.c:18-40 | only characters of the base64 alphabet and padding are written |
| ModernIrc.SendSaslPayload | src/modernirc.c:42-62 | the message is put together in its buffer and sent as the payload line, or the send fails without a byte when a size check fails; what the line holds is `Rfc4616.SentPayload` |
| ModernIrc.ConfiguredCredentialsFit | src/modernirc.c:42-62 | for every configured user and password no size check fails |
| ModernIrc.PayloadDecodes | src/modernirc.c:42-62 | the payload decodes to the message it was made from; what that message is: `Rfc4616.PlainBytes` and `Rfc4616.SentPayload` |
| ModernIrc.PayloadInjective | src/modernirc.c:42-62 | two payloads are equal exactly when user and password are |
| Rfc4616.PlainBytes | src/modernirc.c:52-57 | the message byte by byte: user, NUL, user, NUL, password |
| Rfc4616.SentPayload | src/modernirc.c:42-62 | a receiver written from section 2 of RFC 4616 reads the argument of the payload line as the configured user, acting as himself, with the configured password; there is a payload line exactly when the message has at most 160 bytes |
| Rfc4616.AcceptsExactly | ci/m9_2/fixture_server.py:51-63 | the endpoint challenges PLAIN, accepts exactly the arguments that receiver reads as its own user and password with 903, and refuses all others with 904 |
| ModernIrc.Negotiator.Start | src/modernirc.c:69-77 | opens the negotiation with CAP LS exactly when CAP is enabled |
| ModernIrc.Negotiator.HandleLine | src/modernirc.c:79-116 | one line changes the flags and sends as the negotiation automaton says; what that must be for every line is `Answering.AnswersExactly` |
| ModernIrc.NegotiationTraces | src/modernirc.c:69-116 | over any lines and send outcomes: CAP LS first and once, CAP END at most once and last, every AUTHENTICATE after a CAP REQ, a CAP REQ only with SASL configured and after a line that offered it |
| ModernIrc.FlagsOnlyRise | src/modernirc.c:79-116 | from any point of a conversation to any later one flags only rise and messages are only added; after the end or a failure nothing changes |
| ModernIrc.AnswerSurvives | src/modernirc.c:86-115 | on a wire the message of a reply is written, and the connection goes on exactly if that succeeds and the login was not refused |
| Answering.AnswersExactly | src/modernirc.c:79-116 | by the words of the line, in an open negotiation: a reply to CAP LS is answered by CAP REQ exactly when SASL is configured and offered, and by CAP END otherwise; an ACK by AUTHENTICATE PLAIN, a challenge by the payload, a verdict by CAP END; any other line says and changes nothing; the connection is given up exactly over a refused login or a payload that does not fit |
| Answering.EveryLineIsAnswered | src/modernirc.c:79-116 | over whole conversations: every line received while the negotiation is open gets its answer at once, and what was said stays said |
| Answering.CapabilityListIsAnswered | src/modernirc.c:86-93 | after a reply to CAP LS the client has asked for SASL or ended the negotiation; it has ended it if it does not want SASL or was not offered it |
| Answering.VerdictIsAnswered | src/modernirc.c:102-113 | after a verdict on the login the client has ended the negotiation, and given up if it was refused |
| Conversation.ConnectionNegotiates | src/multinet.c:60-67 | the negotiation messages a connection's record gains are those of a conversation over exactly the lines it handled, in the negotiation's order, and it is live as long as the conversation |
| Tokens.TokenIsWord | src/modernirc.c:13-16 | a space-delimited token is found in a line of words exactly when it is one of its inner words |
| Fixture.Handler.TryRegister | ci/m9_2/fixture_server.py:43-50 | the endpoint registers, with welcome and ping, exactly when its specification does |
| Fixture.Handler.Authenticate | ci/m9_2/fixture_server.py:51-63 | the method refines the endpoint specification of AUTHENTICATE, whose meaning is `Rfc4616.AcceptsExactly` |
| Fixture.Handler.HandleLine | ci/m9_2/fixture_server.py:70-107 | the command dispatch refines the endpoint automaton, including the exceptions that end it |
| Fixture.CommandAndArgs | ci/m9_2/fixture_server.py:74 | a line made of a word, a space and a rest splits back into upper-cased word and rest |
| Fixture.RStripDrops | ci/m9_2/fixture_server.py:73 | exactly the carriage returns and line feeds at the end of a line are dropped |
| Fixture.LStripDrops | ci/m9_2/fixture_server.py:84 | exactly the colons at the front of a nick or channel are dropped |
| Fixture.FirstWordOf | ci/m9_2/fixture_server.py:84-85 | the first word stands between white space |
| Handshake.HearIsHandle | src/multinet.c:52-82 | the client of the closed system is the supervisor's line callback with sends that succeed |
| Handshake.ConnectSays | src/multinet.c:102-130 | a connection that is made starts as the closed system does: cleared flags, then CAP LS (if enabled), registration and JOINs in order |
| ByteStreams.LogsInExactly | ci/m9_2/fixture_server.py:43-85 | for every configuration with other credentials: some course of events makes the endpoint accept the client exactly when the greeting, cut at its line feeds, holds a login with the endpoint's credentials at a line the endpoint reaches |
| ByteStreams.RegistersOnlyWithCredentials | ci/m9_2/fixture_server.py:43-63 | on byte streams, under every schedule and splitting: with nick, user, password and channels that hold no line feed, an endpoint that requires SASL registers the client only if SASL user and password are its own |
| Registering.RegistersExactly | ci/m9_2/fixture_server.py:43-50 | for every configuration the program can hold, with other credentials and line feeds anywhere: some course of events registers the client exactly when the greeting, cut at its line feeds, registers it, or the client uses CAP and the greeting leaves the endpoint reading, with a login, a nick and a user |
| Registering.RegistrationNeeds | ci/m9_2/fixture_server.py:43-63 | whatever the credentials, under every schedule: a registered client had such a greeting (a login in it or equal credentials), and if SASL is required and the credentials are others its greeting holds a login the endpoint reaches |
| Registering.SmugglerWithoutNick | ci/m9_2/fixture_server.py:84 | being logged in is not enough: with a nick without a word, the client whose password smuggles a login is accepted and registered under no schedule |
| Determinacy.OneOutcome | src/multinet.c:177-268 | for every configuration and endpoint: any two courses of events that have come to an end, under any schedules and splittings, have left both sides in the same states |
| Determinacy.FairRunsEndAlike | src/multinet.c:177-268 | if any course comes to an end, every fair one does, and to the same |
| Termination.EveryFairRunEnds | src/modernirc.c:79-116 | for every configuration and endpoint, line feeds, odd nicks and overlong lines included: there is one pair of final states, every fair run reaches it, and no run ends otherwise |
| Endings.EndsAlike | ci/m9_2/fixture_server.py:43-85 | with or without CAP and SASL, at an endpoint that requires SASL or does not: whenever nothing can happen any more the client is registered exactly when its nick has a word and, if SASL is required, it has logged in with the endpoint's credentials; and it is connected unless it tried SASL with others and its nick is not 903 |
| Endings.FairRunsEndSo | ci/m9_2/fixture_server.py:43-85 | every fair run comes to that end |
| FairRegistration.NoWordNoRegistration | ci/m9_2/fixture_server.py:84 | a nick without a word, such as a colon, registers under no schedule, whatever the credentials and whether or not SASL is required |
| FairRegistration.RegistersOnFairRuns | ci/m9_2/fixture_server.py:43-50 | for any network name of the endpoint: a client is registered on a fair run exactly when its nick has a word and, if the endpoint requires SASL, it wants it and has the endpoint's credentials |
| FairRegistration.RegisteredAndGone | ci/m9_2/fixture_server.py:118-119 | at an endpoint that does not require SASL, a client with a wrong password ends every fair run registered there and disconnected |
| Witnesses.FileNetworksAreHonest | src/config.c:126-204 | every accepted network of any configuration file, started without line feeds in the arguments, meets that |
| Witnesses.LegacyNetworkIsHonest | src/networks.c:48-98 | so does the one network of a file without sections |
| Witnesses.SmuggledLoginRegisters | src/irc.c:74-78 | a client whose password continues with a login line, and whose nick has a word, registers whatever its own credentials are |
| Witnesses.LineFeedInPassword | src/main.c:34-36 | such a configuration, and its run of four lines |
| Registration.HearLs | src/modernirc.c:86-93 | the endpoint's LS line makes a SASL client request it |
| Registration.HearSuccess | src/modernirc.c:102-106 | the endpoint's success line completes the negotiation, whatever the nick |
| Registration.HearFailure | src/modernirc.c:108-113 | the endpoint's failure line ends the connection exactly when the nick is not 903 |
| Registration.EchoesSayNothing | ci/m9_2/fixture_server.py:98-102 | no line echoed for a channel that starts with `#` is mistaken for a negotiation line |
| Outcome.ServerScript | ci/m9_2/fixture_server.py:70-107 | reading the client's a-th line takes the endpoint from its a-th to its next scripted state and sends the scripted lines |
| Outcome.ClientScript | src/multinet.c:52-82 | hearing the endpoint's b-th line takes the client from its b-th to its next scripted state and sends the scripted lines |
| Outcome.QuietAtEnd | ci/m9_2/fixture_server.py:70-107 | nothing can move exactly when both scripts are used up |
| Fairness.FeedFollows | src/irc.c:14-54 | feeding any chunk makes the client hear the lines it completes one after another, and leaves the framer inside the next scripted line |
| Fairness.CourseFollows | ci/m9_2/fixture_server.py:70-107 | every course of events stays on the two scripts, with exactly the scripted bytes on their way, and delivers no more than was sent |
| Fairness.TurnsProgress | src/multinet.c:177-268 | every turn in which both sides are tried delivers something, unless nothing can happen any more |
| Fairness.HandshakeEnds | src/modernirc.c:69-116 | under every schedule and splitting deliveries are bounded, and after that many turns nothing can happen: with equal credentials registered and complete; with others not registered, and the client closed exactly when the nick is not 903 |
| Fairness.FairRunsEnd | src/modernirc.c:69-116 | every fair run reaches that end |
| Witnesses.Nick903StaysConnected | src/modernirc.c:102-106 | a finished run with the nick 903 and a wrong password in which the client believes it is logged in |
| Events.FromIrcLine | src/events.c:30-95 | the cursor parser computes the parse specification; what every line is parsed to is `EventLines.EveryLineMeans` |
| Events.ParsedFits | src/events.c:30-95 | every parsed event fits its buffers and is of one of the eight line kinds |
| Events.CutCommandSameKind | src/events.c:57-60 | cutting the command to 15 characters never changes its kind |
| Events.ParsePrinted | src/events.c:30-95 | `:nick!user@host CMD target :text` with any number of extra spaces gives the event with the longest fitting prefixes of its fields |
| Events.ParsePrintedShort | src/events.c:81-88 | the same for `CMD :text`, where NICK takes the text as its target |
| Events.ParseUndoesPrint | src/events.c:30-95 | parsing is a left inverse of printing for every event a line can carry |
| EventLines.EveryLineMeans | src/events.c:30-95 | for every line whatever: it is parsed by its parts (prefix or none, command, target or none, last parameter with or without colon or none) to the event they say, and to none exactly when its command is not one of the eight or a prefix is followed by nothing |
| EventLines.LineMeans | src/events.c:30-95 | the same for a line put together from its parts with any extra spaces: nick up to the first `!`, target and text cut to 63 and 255, the last parameter of NICK as its target, and without one the target as it is |
| EventLines.TargetLine | src/events.c:67-92 | `:nick!user@host CMD target` with nothing after it gives the nick, the target and an empty text, for all eight commands |
| EventQueue.Ring.Push | src/events.c:97-107 | appends to the queue when fewer than 16 are queued, else counts the event as dropped |
| EventQueue.Ring.Pop | src/events.c:109-116 | removes the oldest event exactly when there is one |
| EventQueue.Ring.DispatchPending | src/events.c:118-124 | hands out everything queued, in order |
| EventQueue.Ring.PushAndDispatch | src/multinet.c:77-80 | on the supervisor's queue, empty before every push, nothing is ever dropped |
| EventQueue.Ring.Chunk | src/session.c:171-180 | a chunk of n events dispatches its first min(16, n) in order and counts the others as dropped |
| EventQueue.SixteenKept | src/events.c:97-107 | of a list the first sixteen are kept in order and all others counted |
| SessionReader.ChunkQueues | src/session.c:171-180 | feeding a chunk with the pushing callback queues exactly the first 16 events of the lines it completes and counts the others as dropped |
| SessionReader.LinesOfStream | src/session.c:171-180 | the lines the chunks complete are together the accepted lines of the whole stream, however it is split |
| SessionReader.Reader.Receive | src/session.c:171-180 | framer and ring together dispatch that for one received chunk |
| SessionReader.Reader.Connection | src/session.c:109-185 | over a whole connection each chunk dispatches the first 16 events of the lines it completes, and dispatched and dropped together are all events of the stream |
| EventQueue.KeptAndLost | src/events.c:97-124 | no event is both kept and lost, and none is neither |
| Rexx.CommandBuffer.AppendText | src/rexx.c:49-57 | succeeds exactly when text and terminator fit, and appends the text |
| Rexx.CommandBuffer.AppendQuoted | src/rexx.c:59-71 | succeeds exactly when the quoted argument fits, and appends it with line ends as spaces and double quotes as apostrophes |
| Rexx.CommandBuffer.Build | src/rexx.c:268-277 | the hook command is assembled exactly when it fits the buffer |
| Rexx.CommandUnambiguous | src/rexx.c:268-277 | for script paths without a double quote, splitting at double quotes gives back path and cleaned arguments; two commands are equal exactly when those are |
| Rexx.HookReads | src/rexx.c:268-274 | a script reads between the double quotes of its command the kind of the event, the nick, the target and the text, in this order |
| Rexx.CleanedText | src/rexx.c:59-71 | line ends become spaces, double quotes apostrophes, nothing else changes |
| Rexx.HookCommandFits | src/hooks.c:46-67 | every event gives a command of at most 498 of 1024 bytes, so assembly never fails |
| Settings.PortReads | src/config.c:44-48 | the decimal form of a number, after white space and an optional plus or minus sign and before other text, is taken exactly when it is from 1 to 65535 and has no minus sign |
| Keys.ZerosFirst | src/config.c:44-48 | leading zeros of a port change nothing |
| Keys.NoNumber | src/config.c:44-48 | a text without a digit where the number should be is not taken |
| Keys.FindKeyExactly | src/config.c:104-124 | each of the twenty keys is found exactly under its own name, whatever the case of its letters |
| Keys.UpperLetters | src/config.c:29-36 | case is ignored for the 26 letters and for nothing else |
| Keys.TrimmedSplits | src/config.c:19-27 | trimming takes the white space at both ends of any text and nothing else |
| Text.FitLongest | src/config.c:8-17 | a bounded copy is the longest prefix that fits |
| Keys.AppliesExactly | src/config.c:100-204 | key by key the field that is set, its size, the words that switch it on, the sixteen channels, and that a section ignores the keys of the bot service |
| Keys.SaysNothing | src/config.c:145-167 | empty lines, notes, brackets that are not closed and lines without an equals sign say nothing |
| Keys.SaysHeader | src/config.c:146-164 | a closed bracket is a header exactly when it holds NETWORK, a space and a name; what follows it does not matter |
| Keys.SaysAssign | src/config.c:166-174 | any other line is cut at its first equals sign and assigns what is right of it to the key left of it, exactly if there is such a key |
| Keys.HeaderOpens | src/config.c:152-160 | the first four headers open sections that inherit from the globals, others are counted and their keys go to the globals |
| Keys.SeedIs | src/config.c:71-98 | what the program starts with before it reads a file |
| Settings.GetDefaults | src/config.c:50-69 | a new section inherits every key but host and channels, and no BotAI setting |
| Settings.ApplyBounded | src/config.c:100-124 | no assignment overflows a buffer or the channel list |
| Config.Trim | src/config.c:19-27 | gives the text without white space at either end |
| Config.ReadLine | src/config.c:132-170 | tells what one line says: nothing, a header, or an assignment to a known key |
| Config.Configuration.LoadLines | src/config.c:126-204 | the loading loop leaves the configuration that the load specification gives |
| Config.Configuration.Take | src/config.c:146-201 | one line opens a section, skips one, or assigns to the current section or the globals |
| Config.LoadMeaning | src/config.c:126-204 | after every line each stored section is the globals before the first header overridden by its own body, and what follows a fifth header has gone to the globals |
| Reload.LastWins | src/config.c:100-124 | every key holds its last valid assignment, or what it held before |
| Reload.FirstWin | src/config.c:120-123 | the first sixteen channels are kept |
| Reload.LoadGlobals | src/config.c:172-201 | what a whole file makes of each global key and of the global channels |
| Reload.LoadSection | src/config.c:146-175 | what a whole file makes of each key, the name and the channels of each stored section |
| Reload.StaysRepresentable | src/config.c:83-98 | the program starts with bounded texts and ports from 1 to 65535, and loading any file keeps that |
| Reload.ReloadIsNoOp | src/session.c:84-107 | loading the same lines again changes nothing from every configuration the program can hold, exactly when no late key is one a stored section takes from outside the file |
| Reload.ReloadFrom | src/session.c:84-107 | from one given configuration the program can hold: loading the same lines a second time changes nothing exactly when the configuration already holds the late value of every key that a stored section takes from it |
| Reload.FourSectionsAreStable | src/config.c:152-160 | that holds of every file with at most four NETWORK sections |
| Reload.FifthSectionLeaks | src/config.c:158-177 | a file of six lines, loaded twice from a seeded configuration, gives the first network another nick the second time |
| Files.FileParses | src/config.c:126-204 | a file written line by line, with any white space around sections, keys and values, comments and empty lines, is read back as its author meant it |
| Files.PiecesAreTheFile | src/config.c:140 | for any file: the pieces read are the file, none longer than the buffer, each ending a line or filling the buffer unless it is the last |
| Files.LoadedOneLine | src/config.c:126-204 | loading any file leaves no text with a line feed if there was none |
| Networks.Runtime.FromConfig | src/networks.c:48-98 | with sections: the accepted networks and a count of skipped ones that accounts for all; without: the one network of the globals, or a failure |
| Networks.NothingTruncated | src/networks.c:16-41 | copying a loaded network shortens nothing |
| Networks.LoadedNetworksAreWhole | src/config.c:126-204 | every stored section fits the buffers it will be copied to |
| Networks.AcceptedAreSecureOnes | src/networks.c:48-98 | the accepted networks are exactly the secure stored sections, in order |
| Keys.AcceptedExactly | src/networks.c:54-68 | a network runs exactly when it is a stored section in which TLS comes with the bouncer and SASL with a user and a password |
| Keys.LegacyIs | src/networks.c:70-97 | the one network without sections is called default and is the globals without the bot service |
| Networks.EndToEnd | src/networks.c:48-98 | from a file with a NETWORK header: accepted plus skipped equals the number of headers, and every accepted network passes the security check |
| Networks.ReadNetworks | src/session.c:205-224 | loading and projecting in sequence gives that result on the real objects |
| Operations.ControlBlock.Set | src/operations.c:22-27 | sets the socket, the connected flag with it, and drops a connect request on success |
| Operations.SocketMeans | src/operations.c:22-27 | a socket connects and settles a wish to connect; none disconnects; no other request is touched |
| Operations.ControlBlock.Operate | src/operations.c:40-65 | each operation changes the flags as its specification; what commands then mean is `Operations.OpsMean` and `Operations.LastRequest` |
| Operations.ControlBlock.Process | src/rexx.c:218-234 | all waiting commands are applied in order |
| Operations.OpsConsistent | src/operations.c:40-114 | under any commands: connected exactly when there is a socket, never both requests set, the socket untouched, quit and reload never cleared |
| Operations.OpsMean | src/operations.c:40-114 | under any commands: quit and reload are set exactly when they were or are asked for; socket and connected flag are left alone |
| Operations.LastRequest | src/operations.c:40-65 | of the requests to connect (while not connected), disconnect or quit the last one counts |
| Operations.DisconnectStays | src/operations.c:40-65 | while connected CONNECT changes nothing, and a request to disconnect stays |
| OneNetwork.TrackCounts | src/multinet.c:99-122 | in a log where sockets open and close properly, opened minus closed is one exactly while one is open |
| OneNetwork.ConnectSound | src/multinet.c:84-140 | an attempt ends live on the socket it opened or with that socket closed again, and is permanent exactly for an insecure network |
| OneNetwork.BootSound | src/multinet.c:154-172 | the first attempt leaves a sound network, never disabled if it is secure |
| OneNetwork.RetrySound | src/multinet.c:203-230 | a retry keeps soundness, leaves a live network alone and never disables a secure one; when it is made and what comes of it is `Retries.RetriedInTime` |
| OneNetwork.HandleSound | src/multinet.c:52-82 | a line stops the feed exactly when its negotiation step fails, and the socket is then closed |
| OneNetwork.FeedSound | src/multinet.c:251-267 | feeding a chunk leaves the network on the same socket or ends with the failed negotiation that closed it |
| OneNetwork.RoundSound | src/multinet.c:177-268 | a round keeps soundness; a disabled network stays as it is, a secure one is disabled only by a failed negotiation, and a ready bit refers to the socket waited on |
| Retries.GreetingLines | src/multinet.c:114-118 | the greeting in full: CAP LS 302 if enabled, PASS if set, NICK, USER |
| Retries.ConnectExactly | src/multinet.c:84-140 | an attempt by a secure network succeeds exactly when there is a socket and every line of the greeting goes out: then it is up on that socket with cleared flags, no unfinished line, the greeting and the JOINs said in order, each with its outcome; otherwise it has closed what it opened after the first line that failed |
| Retries.BootExactly | src/multinet.c:154-172 | at start-up a secure network is up so or waits one second from then; one that is not secure does neither |
| Retries.RetriedInTime | src/multinet.c:203-230 | a waiting network is untouched while the clock is before its time, and from its time on makes an attempt; if that fails it waits min(2w, 30) seconds from that clock sample |
| Retries.RetriesInRuns | src/multinet.c:177-231 | in every run: a waiting network is untouched in all iterations before its time and makes its attempt in the first one at or after it |
| Retries.LostComesBack | src/multinet.c:201-249 | in every run: a network lost when the clock says t is back on a new socket, greeting and JOINs said, after the first iteration past t, if it can connect and greet then |
| Connections.HandleLogs | src/multinet.c:52-82 | one line is recorded once, and a ping that passes negotiation gets exactly one pong |
| Connections.ConnectionTheorem | src/multinet.c:233-267 | for any chunks of a new connection, the handled lines are the frames of all bytes up to the first whose negotiation fails, each ping that passes is answered by exactly one pong, and each other line that passes dispatches its event, in order |
| Connections.RoundsAreChunks | src/multinet.c:177-268 | while nothing is lost, the rounds of a network are the chunks of its connection, and after a failed negotiation no round changes it |
| Reconnects.LifeTheorem | src/multinet.c:84-268 | over any rounds, with any losses, refusals and retries: every connection starts with no unfinished line and fresh negotiation, and the lines handled, pongs sent and events dispatched are, connection by connection, what the bytes of that connection alone call for |
| Reconnects.RoundsSeen | src/multinet.c:177-268 | the same from any sound state, unfinished line included |
| Connections.DelayIsCappedPower | src/multinet.c:221-224 | the delay after k failures is min(2^k, 30) |
| Connections.SleptClosedForm | src/multinet.c:221-225 | the first k delays sum to 31 + 30(k-5) for k at least 5 |
| Connections.Backoff | src/multinet.c:201-231 | a network waiting since time T makes its j-th unsuccessful attempt no earlier than T plus the sum of the first j+1 delays, and its delay is always min(2^failures, 30) |
| Connections.LossStartsBackoff | src/multinet.c:237-249 | a lost connection, or one refused at start-up, begins to wait that way |
| Multinet.Supervisor.Start | src/multinet.c:153-175 | the initial connects establish the counters and the socket array and give each network its own first attempt |
| Multinet.Supervisor.BootOne | src/multinet.c:154-172 | one initial connect changes its own network only and keeps the counters right |
| Multinet.Supervisor.WaitMany | src/net.c:81-112 | a ready bit is set only for a network that has a socket |
| Multinet.Supervisor.RetryPass | src/multinet.c:201-231 | every network takes its own retry step, and the guard on the retry counter skips nothing; the step is pinned by `Retries.RetriedInTime` |
| Multinet.Supervisor.RetryOne | src/multinet.c:204-229 | one retry of a waiting network whose time has come changes its own network only, keeps the counters right and moves the control socket only for network 0 |
| Multinet.Supervisor.ReceivePass | src/multinet.c:233-268 | every ready network takes its own receive step |
| Multinet.Supervisor.ReceiveOne | src/multinet.c:234-267 | one receive changes its own network only; the guards on the active counter never fail |
| Multinet.Supervisor.Iteration | src/multinet.c:201-268 | the two passes over the arrays are one round of every network, with the loop-head invariant kept |
| Multinet.Supervisor.Pass | src/multinet.c:177-268 | the loop body keeps the loop-head invariant and takes the exit its specification takes |
| Multinet.Supervisor.Run | src/multinet.c:177-276 | the loop over arrays and counters ends in the state and with the exit code of the run specification |
| Multinet.Supervisor.CloseAll | src/multinet.c:271-273 | every open socket is closed |
| Multinet.CountsChange | src/multinet.c:201-265 | a change to one network changes each counter by that network's own difference |
| Multinet.NothingCounted | src/multinet.c:183 | a counter is zero exactly when no network is in its state |
| Runs.StartHealthy | src/multinet.c:174-175 | after start-up a live network 0 is in the control block; the block holds nothing else exactly when no stale control socket came in or network 0 connects at once |
| Runs.IterateControl | src/multinet.c:177-269 | one iteration: the control block follows network 0 as soon as that is live and keeps what it holds until then; quit is not cleared |
| Runs.IterateHealthy | src/multinet.c:177-269 | one iteration of a run without stale socket keeps the control socket mirroring network 0 |
| Runs.RunSockets | src/multinet.c:177-276 | over every run of sound networks, whatever is in the control block: STOP and NO_RETRYABLE leave no socket open, the other exits sound networks |
| Runs.RunExits | src/multinet.c:177-276 | over every run, whatever control block it was handed: STOP and NO_RETRYABLE leave no socket open, and STOP a disconnected control block; RELOAD and RECONNECT leave exactly the live networks' sockets open; quit is never cleared; a run that starts without stale socket ends so |
| Exits.ExitsExactly | src/multinet.c:177-276 | over every run: the loop goes on at every head before the last; there it is left by RELOAD exactly when ARexx asks for it, by STOP exactly for quit, disconnect or a break key with no RELOAD before it, by RECONNECT exactly for a failing wait with neither, by NO_RETRYABLE exactly when no network is live or waiting; and what is left behind is the world at that head, every socket closed on STOP and none on the others |
| Exits.HeadNets | src/multinet.c:177-268 | the networks at a loop head are those after as many iterations |
| Exits.IterationFlags | src/multinet.c:191-268 | one iteration sets quit and reload exactly when ARexx or a hook of a network that received data asks for them, and a request to disconnect likewise where nobody asks for CONNECT |
| Runs.StaleUntilConnected | src/multinet.c:174-269 | what the control block holds at every exit but STOP: the socket it came in with until network 0 is live for the first time, from then on network 0's, or none |
| Runs.OpenedMinusClosedIsActive | src/multinet.c:150-265 | at every loop head sockets opened minus closed equals the active counter |
| Runs.ReloadAtPoll | src/multinet.c:191-194 | at a loop head where RELOAD is asked for, the run ends with it, and leaves nothing open exactly when no network is live there |
| Runs.ReloadLeavesLiveSocketsOpen | src/multinet.c:191-194 | over every run that ends with RELOAD: nothing is left open exactly when no network is live after the completed iterations |
| Runs.ReloadLeaksOneSocket | src/multinet.c:191-194 | a run of one secure connected network whose RELOAD leaves its socket open and in the control block |
| Runs.RestartIsStale | src/session.c:226-243 | the run after it, with its first network refused, starts with the old socket in the control block |
| Runs.ReloadLeaksAndRestartIsStale | src/multinet.c:191-194 | both for the configuration the program starts with |
| Runs.OnlyNegotiationDisables | src/multinet.c:60-67 | over every run of secure networks, whatever control block it was handed: only a failed negotiation disables one, a disabled one never changes again, and NO_RETRYABLE means every network failed its own |
| Runs.RestartHealthy | src/session.c:226-243 | the run after a RELOAD or RECONNECT exit starts healthy exactly when the exit left no socket in the control block or the new network 0 connects at once; it left none exactly when network 0 was not live at the exit and no stale socket had come in or network 0 had been live in the run |
| Runs.StartToExit | src/multinet.c:142-276 | the same for whole runs from start-up, with any control block: after STOP and NO_RETRYABLE no socket is open and the control block holds none, even if a stale one came in |
| Runs.FromFileToExit | src/session.c:205-224 | from the bytes of a configuration file to the exit of the loop: the networks run are the secure sections, all headers are accounted for, NO_RETRYABLE means all of them failed negotiation, and STOP and NO_RETRYABLE leave no socket |
| Runs.FromLegacyToExit | src/session.c:338-345 | the same for a file without sections, which the supervisor runs as the one network of its globals |
| Restarts.OneRunBalances | src/multinet.c:142-276 | one run, whatever control block it was handed: sockets opened less closed are as many as the networks it left live, none after STOP and NO_RETRYABLE |
| Restarts.ForgottenSockets | src/session.c:205-300 | over any number of runs: sockets opened less closed are the networks live at every RELOAD and RECONNECT exit, and in the current run |
| Restarts.EachReloadForgetsOne | src/session.c:205-242 | a series of runs of one connected network, each reloaded and started with the control block of the one before, leaves as many sockets open as there were runs |
| Runs.Isolation | src/multinet.c:201-268 | after any number of iterations a network is where its own rounds alone would have taken it |
| Runs.RunIsIterations | src/multinet.c:177-276 | the networks a run ends with are those of its completed iterations, closed on STOP |
| Runs.LivesInRuns | src/multinet.c:142-268 | in every run of the supervisor, the log of each network is what the bytes of each of its own connections call for |
| Runs.SameTurnsSameNetwork | src/multinet.c:201-268 | two runs with any other networks that give a network the same turns give it the same lines, replies and state |
| Session.SingleSession.ConnectedSession | src/session.c:109-185 | the connected loop gives the control flags and the lost flag of its specification |
| Session.SingleSession.Delay | src/session.c:187-203 | the delay loop stops early exactly as specified |
| Session.SingleSession.OneConnection | src/session.c:361-377 | a connection from its socket to its DISCONNECT event |
| Session.SingleSession.OnePass | src/session.c:347-401 | one pass of the outer loop computes its specification; what a pass does is `SessionRuns.PassMeans` |
| Session.SingleSession.Run | src/session.c:347-401 | the outer loop computes the session specification; what sessions do is `SessionRuns.SessionGoesOn` and `SessionRuns.NeverGivesUp` |
| Session.SessionTheorem | src/session.c:347-401 | whatever commands come and whenever: flags consistent, quit never cleared, CONNECT and DISCONNECT alternate with each socket closed exactly once between, delays 1, 2, 4, 8, 16, 30, 30, ... since the last connection |
| Session.StartsOrderly | src/operations.c:15-20 | the session starts in such a state |
| SessionRuns.ConnectedEnds | src/session.c:152-184 | how the connected loop ends, by its first pass that is not calm: lost exactly for a failing wait or a lost peer, quit and disconnect exactly as asked for in that pass |
| SessionRuns.ServeMeans | src/session.c:361-377 | one connection: opened, CONNECT, closed, DISCONNECT; DISCONNECT in the CONNECT hooks is forgotten, QUIT is not, and the hooks of the DISCONNECT event have the last word |
| SessionRuns.DelayMeans | src/session.c:187-203 | a delay is ten steps a second; it ends early exactly for the break key or commands that leave no connection wanted |
| SessionRuns.PassMeans | src/session.c:347-401 | what one pass adds to the diary: nothing where no connection is wanted, a refusal and the delay that is due, or a connection and then, if it was lost, one second and a new wish to connect |
| SessionRuns.SessionGoesOn | src/session.c:347-401 | every run is such passes, up to the head or the pass at which quit or the break key ends it |
| SessionRuns.NeverGivesUp | src/session.c:347-401 | over any attempts that nobody disturbs, with any data and commands between: after every refusal the delay that is due, after every lost connection one second, and then another attempt |
| SessionRuns.IdleUntilConnect | src/session.c:351-356 | where no connection is wanted nothing is done until somebody says CONNECT |
| SessionRuns.StaysAway | src/session.c:379-385 | after a requested disconnect the diary ends with that connection until somebody says CONNECT |
| BotAi.JsonEscape | src/botai.c:165-182 | succeeds exactly when no character is below 32 and the escaped form fits, and leaves that form |
| BotAi.EscapedText | src/botai.c:165-182 | a quote and a backslash get a backslash, every other character stands for itself |
| BotAi.SkipJsonWs | src/botai.c:184-187 | moves the cursor past the white space and no further |
| BotAi.ParseJsonString | src/botai.c:189-215 | the cursor never passes the end; the result is that of the string grammar with the buffer limit |
| BotAi.ReadsOne | src/botai.c:189-215 | character by character: the six escapes that are taken and what they mean, and what is refused |
| BotAi.WhiteSpace | src/botai.c:184-187 | white space is space, tab, carriage return and line feed |
| BotAi.ParseTextResponse | src/botai.c:217-245 | the cursor parser computes the parse specification |
| FlatJson.ReadString | src/botai.c:189-215 | every string written character by character reads back as what it means |
| FlatJson.WrittenFor | src/botai.c:189-215 | every string the parser reads was written so |
| FlatJson.ReadPairs | src/botai.c:217-245 | every written member list with exactly one acceptable text is accepted with that text |
| FlatJson.PairsFor | src/botai.c:217-245 | every accepted member list is such a one |
| FlatJson.AcceptedLanguage | src/botai.c:217-245 | a body is accepted with a text exactly when it is a flat object of string members, keys below 32 characters, whose one `text` member means that non-empty text, which fits the reply buffer |
| FlatJson.ParsingUndoesEscaping | src/botai.c:165-215 | parsing the quoted escaped form gives the text back, and fits a buffer exactly when the text does |

## Left out

- Amiga system calls, DNS, TCP connect, the HTTP transport and the clock: they are inputs of the model.
- The order of the runs in the outer loop of `run_m7_networks` (`Restarts` takes any series of runs), and the set-up of `ambot_session_run` (library opening, first configuration load, five-second waits).
- The PING answers of the single-network session: they are the supervisor's without negotiation; `SessionReader` has its framing and queueing.
- Console output, version strings, lifecycle reason texts, `src/main.c`, `src/modules.c`, `src/pbmp.c`.
- `src/commands.c`: a dispatched event is recorded, but the replies a command or hook sends on the socket are not part of a network's log.
- The supervisor works on per-line send outcomes; byte-level partial writes are in `NetIo` and `Irc`. A network's framer is a value in the runtime array; its in-place form is `Irc.LineFramer`.
- The copying of the configuration path, a missing file, and NUL bytes in a configuration file.
- Widths of counters and of `time_t` (the dropped counter, the clock): unbounded. The ready mask is a sequence of bits.
- `strtol` saturation: a number too large for `long` is out of port range either way.
- Fairness.HandshakeEnds: the endpoint's network name has at most 500 characters, because a longer PING line would not survive the client's framing (`FairRegistration.RegistersOnFairRuns` and `Termination.EveryFairRunEnds` are for any name); credentials are one byte per character, and the texts that are sent hold no line feed.
- Endings.EndsAlike: the same holds of the network name, the credentials and the texts; without those bounds `Termination.EveryFairRunEnds` gives the one outcome but not which it is.
- Fixture: fault injection, probes, UTF-8 decoding and text outside one byte per character are not modelled; base64 padding bits that a lenient decoder ignores cannot occur in what the client sends.
- Multi-line CAP LS replies and CAP NAK, which the code does not implement.
- BotAI host and URL handling and the request text around the escaped message.
- The choice between a network's own host and port and the bouncer's (`src/networks.c:100-112`): the outcome of connecting is an input.
- ARexx commands other than CONNECT, DISCONNECT, RELOAD and QUIT: they change no control flag.
