# Request engine of the Happy Wakey web server

Three server-rendered frontends share one runtime. For every request the runtime
introspects the bearer, fetches the caller's alarms by one of four configured modes, and
reports what it did. This project models that runtime and proves what its protocols keep.

- **The shared TLS channel.** One lock protects one slot that may hold a connection. A call
  locks, connects if the slot is empty, writes a length-prefixed frame, reads one back,
  clears the slot on a failure, and tries once more. `TlsMachine` is the byte level, with
  partial writes and reads, numbered connections, cancellations and peers as interleaved
  events; `TlsMessages` is the same protocol without bytes; `TlsRefinement` proves that the
  first refines the second; `TlsSafety` and `TlsTheorems` draw the consequences. `TlsWriting`,
  `TlsCuts` and `TlsReading` deal with calls cancelled inside a frame, `TlsCorrelation` says
  whose alarms a call accepts then, and `TlsWitnesses` exhibits what goes wrong.
  `TlsTermination` bounds every run and ends every fair one. `SharedChannel` is the code
  itself, whose every await lets any other calls, cancellations and peers take any steps.
- **The asynchronous mode.** `AsyncMachine` interleaves any number of calls that register an
  operation, share one transport that is initialised once, publish a signal, wait for its
  acknowledgement and poll the response stream. `AsyncSafety` and `AsyncDelivery` hold the
  guarantees, `AsyncBoard` the code.
- **Bodies, requests and names.** `Bodies` reads chunked bodies within a limit, `Framing`
  is the wire format, `Service` the bearer, the request and the response, `Requests` what a
  request looks like inside a stream, `Naming` the printed ids, subjects and message ids.
- **The pipeline and its start.** `Pipeline` records what a request did, learned and
  reported in each mode, and `EndToEnd` applies the protocol results to the dashboards it
  served; `Startup` validates the configuration; `Flags` layers flags, overrides,
  environment and dotenv.

Assumptions, stated as preconditions or built into the machines: operation ids are fresh;
the lock is exclusive; a peer answers whole frames in order on each connection, and an answer
labelled with an id answers a request with that id; the wire name of the operation consists
of letters, digits, dots, dashes and underscores; elapsed time never decreases and a sleep
takes at least its argument; the stream's duplicate window does not end while a run lasts.
JSON parsing, flag coercion and the checks of a base URL are function parameters.

Results about the code as it is:

- A call cancelled between its request and its reply leaves the connection in the slot with
  an unread reply. `StaleRequestsHappen` is such a run for any two requests; from then on
  every exchange on that connection reads the reply of an earlier call and gets an error
  (`OnceStaleNeverServed`), until an exchange fails at the transport. `OwnReplyExactly` says
  when a call does read its own reply.
- A call cancelled inside its request leaves the connection out of step. The message level
  then no longer describes it: `CancellationAlignsExactly` gives the exact condition, and
  `CutRequestMisleadsPeer` shows, for real requests and every place of the cut after the
  header, that the peer answers a payload that no call sent. It is never a request of
  another call: `HeardRequestIsSent` holds in every run.
- A call cancelled inside the body of a reply that is text leaves a connection on which no
  exchange completes any more (`CutReplyEndsTheConnection`). With all this, alarms stay a
  call's own wherever others were cancelled (`AlarmsAreOwn`), except inside the four bytes of
  a reply's header, where `CutHeaderGarblesReply` shows a completed exchange with bytes that
  the peer never gave as an answer.
- Not every bearer that is accepted fits a TLS request: escaping may double it.
  `RequestFitsExactly` is the condition, `AcceptedTokenMayBeTooLarge` an instance, and
  `AcceptedB64TokenFits` the guarantee for tokens of the usual alphabet.
- The repository's README.md:24-25 says that every outcome is reported. It is not: a request
  reports a failure if and only if its last effect was an introspection that failed for
  another reason than an unusable subject, an alarm request refused by the API, a TLS call
  both of whose attempts failed, or a timeout of the asynchronous mode
  (`FailuresReportedExactly`).
- `FLAGS2ENV_COMMAND` is dropped from every layer below the flags before coercion, yet the
  resolved command is the flag's if and only if there is such a flag or no such environment
  variable (`CommandKeyExactly`, `EnvironmentCommandSurvives`).

## Model

| member | source | states |
|---|---|---|
| Framing.DeframeInvertsFrames | crates/common/src/lib.rs:635-657 | Reading a header and then a body, again and again, recovers exactly the payloads that were framed; a partial frame at the end is never taken for a payload. |
| Framing.FramesInvertDeframe | crates/common/src/lib.rs:646-656 | The other direction: what was read, framed again, plus the unread rest, is the stream; no stream splits in two ways. |
| Framing.Be32RoundTrip | crates/common/src/lib.rs:637-650 | The 4-byte big-endian length reads back as the length written, for every u32. |
| TlsMachine.InvStep | crates/common/src/lib.rs:426-446 | Every step, cancellations included, keeps the lock exclusive, the slot at the newest connection, attempts below two, and a pending retry away from the connection it used. |
| TlsRefinement.BytesRefineMessages | crates/common/src/lib.rs:426-446 | Every interleaving of any number of calls cancelled between whole frames only is a message-level run with the same calls, lock and slot, and with streams that are the frames of its messages. |
| TlsRefinement.UnreadReply | crates/common/src/lib.rs:646-656 | Whatever part of a reply has been read is the start of the frame of the first reply not read yet. |
| TlsTheorems.SettledWhenUnlocked | crates/common/src/lib.rs:426-436 | Without cancellation, when the lock is free and the slot holds a connection, its two streams are exactly the frames of its completed exchanges in lock order, nothing is in flight, and reply i answers request i. |
| TlsTheorems.OwnReplyExactly | crates/common/src/lib.rs:426-436 | A finishing call has read the answer to its own request if and only if its request is the only whole one on the connection without a completed exchange. |
| TlsTheorems.OnceStaleAlwaysStale | crates/common/src/lib.rs:431-436 | After one exchange on a connection has read another call's answer, every later exchange there does too, since a decoding error does not clear the slot. |
| TlsWriting.SendStep | crates/common/src/lib.rs:638-642 | Every step, cancellations anywhere included, keeps this: whatever was sent without a zero byte in it was sent by one call in one go. |
| TlsCorrelation.HeardRequestIsSent | crates/common/src/lib.rs:714-721 | In every run, wherever calls were cut, a request that a peer hears is the whole request of a call, with its id and bearer. |
| TlsReading.ReadStep | crates/common/src/lib.rs:646-656 | In orderly runs, every completed exchange has read the next answer as a whole, or none completes on that connection any more. |
| TlsReading.TextCutsAreOrderly | crates/common/src/lib.rs:652-655 | Cancelling a call inside the body of a reply is orderly whenever the replies are text. |
| TlsReading.DeliveredExchange | crates/common/src/lib.rs:433-435 | In every run, a call that got a reply got it from a completed exchange of its own. |
| TlsCorrelation.StaleReplyIsAnError | crates/common/src/lib.rs:433-433 | A call that reads another call's answer gets an error, never alarms. |
| TlsCorrelation.OnceStaleNeverServed | crates/common/src/lib.rs:431-436 | Once a connection has served one stale reply, every later call that completes an exchange there gets an error. |
| TlsCorrelation.AlarmsAreOwn | crates/common/src/lib.rs:419-446 | Wherever calls were cancelled in their requests, between frames, or in the body of a reply before a byte other than zero, every call that returns alarms returns what the peer computed from the frame with that call's own id and bearer. |
| TlsTheorems.CancellationAlignsExactly | crates/common/src/lib.rs:427-431 | Dropping the holder frees the lock and keeps the slot; the connection kept is aligned on whole frames if and only if the call was suspended between whole frames. |
| TlsCuts.CutReplyEndsTheConnection | crates/common/src/lib.rs:646-655 | After a call was cancelled inside the body of a reply, no exchange completes on that connection in any orderly continuation; the next header read there announces more than 900 KiB, and its call can only fail and clear the slot. |
| TlsWitnesses.StaleRequestsHappen | crates/common/src/lib.rs:427-436 | For any two requests of distinct operations, a run in which the first call is cancelled after its request and the second reads the reply to it. |
| TlsWitnesses.CutRequestMisleadsPeer | crates/common/src/lib.rs:638-642 | For any two requests and any cut after the header that leaves no more to come than the second frame, a run in which the peer answers a payload that no call sent and that is no request. |
| TlsWitnesses.CutHeaderGarblesReply | crates/common/src/lib.rs:646-655 | A call cancelled after the first byte of its reply lets the next call complete an exchange with bytes that reach over the following header. |
| TlsTermination.AtMostTwoOfEach | crates/common/src/lib.rs:426-431 | n calls take at most 2n lock grants, 2n exchanges and as many connections, in every run. |
| TlsTermination.EveryRunEnds | crates/common/src/lib.rs:426-446 | The steps of n calls number at most 2n times the lengths of the longest frames plus four, in every run. |
| TlsTermination.NeverStuck | crates/common/src/lib.rs:426-446 | While a call is unfinished, some call can take a step that is not a cancellation. |
| TlsTermination.FairEnds | crates/common/src/lib.rs:426-446 | In every run of n calls, finite or not, in which some call takes a step sooner or later whenever one can, every call ends, and for good, whatever is cancelled, fails or is answered. |
| TlsTermination.AttemptsUseFreshConnections | crates/common/src/lib.rs:426-431 | The two attempts of one call use different connections, the second a later one, and there is no third. |
| TlsTermination.FailureRetiresTheConnection | crates/common/src/lib.rs:437-444 | A failed exchange empties the slot and frees the lock in one step; in no continuation is that connection written, read or completed on again, whatever its peer still answers. |
| SharedChannel.Channel.Fetch | crates/common/src/lib.rs:426-446 | The two-attempt loop, among arbitrary other calls, is a run of the machine that ends its own new call. What the environment did decides the outcome: an attempt fails only if the transport broke or the peer announced more than 921600 bytes, a second attempt follows a failing one only, a refused connection ends the call, and any reply read is the outcome. |
| SharedChannel.Channel.TryOnce | crates/common/src/lib.rs:427-444 | One attempt has the reply it read, or failed because the connection was refused, the transport broke or too much was announced; only a first failing one leaves the call waiting for the second. |
| SharedChannel.Channel.Lock | crates/common/src/lib.rs:427-428 | The lock is granted whatever the others did, and the call writes to the connection in the slot if there is one, else connects. |
| SharedChannel.Channel.Connect | crates/common/src/lib.rs:428-464 | A connection goes into the slot exactly if it is not refused, else the call ends without a retry; the arms of a missing option are dead. |
| SharedChannel.Channel.Exchange | crates/common/src/lib.rs:635-657 | An exchange fails if and only if an I/O step broke or the header announces more than 921600 bytes; a reply is the body of a complete frame with exactly the announced length; the size checks of the request never fire. |
| SharedChannel.Channel.WriteAll | crates/common/src/lib.rs:638-642 | Partial writes, in any split, add up to the frame up to the given byte, unless the transport breaks. |
| SharedChannel.Channel.ReadExact | crates/common/src/lib.rs:646-655 | Partial reads, in any split, extend what was read until the wanted length is there, unless the transport breaks. |
| SharedChannel.Channel.Fail | crates/common/src/lib.rs:437-443 | A failure empties the slot, frees the lock, and ends the call at its second attempt only. |
| SharedChannel.UndisturbedRun | crates/common/src/lib.rs:427-431 | While a call is suspended, no run of the others changes it, nor, if it holds the lock, the lock, the slot or its use of the connection. |
| Service.BearerExactly | crates/common/src/lib.rs:945-956 | The accepted authorization headers are exactly "Bearer " and 1 to 16384 graphic ASCII characters. |
| Service.EscapeReadsBack | crates/common/src/lib.rs:421-422 | An escaped token reads back from the request as the token, and ends where its closing quote is. |
| Service.RequestDeterminesIdAndBearer | crates/common/src/lib.rs:714-721 | Two requests with the same bytes have the same operation id and the same bearer. |
| Requests.RequestIsJson | crates/common/src/lib.rs:714-721 | A reader of JSON objects of strings gets from a request exactly its schema, its id, its bearer and its operation, in this order, whatever the bearer. |
| Requests.RequestHasNoZero | crates/common/src/lib.rs:714-721 | No request contains a zero byte. |
| Requests.RequestInsideRequest | crates/common/src/lib.rs:714-721 | A request found anywhere inside a request, tokens included, is that request: none is a proper start of another, and none begins in the middle of one. |
| Service.RequestFitsExactly | crates/common/src/lib.rs:421-425 | A request is 140 bytes, the operation's name, the token and one byte for each quote or backslash long; it fits in 32 KiB if and only if token and escapes fit in the rest. |
| Service.AcceptedB64TokenFits | crates/common/src/lib.rs:423-425 | Every accepted token of the b64token alphabet fits in 32 KiB. |
| Service.AcceptedTokenMayBeTooLarge | crates/common/src/lib.rs:423-425 | A token of 16384 quotes is accepted as a bearer and too large as a request. |
| Service.DecodeExactly | crates/common/src/lib.rs:723-737 | Alarms are accepted from a reply of at most 921600 bytes that reads as the response of this schema and id with status Ok, these alarms and no error, and from no other. |
| Service.DecodeErrorsExactly | crates/common/src/lib.rs:723-746 | Each error of a reply, by the exact replies that give it. |
| Service.ReplyServesOneOperation | crates/common/src/lib.rs:723-746 | A reply of which one operation accepts alarms is a mismatch for every other operation. |
| Naming.ParseInvertsText | crates/common/src/lib.rs:504-506 | The 36-character text form of an id, section 4 of RFC 9562, determines the id. |
| Naming.NamesAreInjective | crates/common/src/lib.rs:748-750 | Distinct operations never share a printed id, a response subject or a message id. |
| Naming.WildcardCoversOneToken | crates/common/src/lib.rs:767-776 | The wildcard that a response stream must carry matches a subject if and only if it is the prefix and one further token. |
| AsyncMachine.AdmitExactly | crates/common/src/lib.rs:518-539 | A registration is admitted by one answer only: 202 with the accepted schema, its id and its response subject; and each error, by the exact answers that give it. |
| AsyncMachine.RequestStreamExactly | crates/common/src/lib.rs:752-765 | The request streams that pass: on file, a work queue, with the request subject and a duplicate window. |
| AsyncMachine.ResponseStreamExactly | crates/common/src/lib.rs:767-781 | The response streams that pass: on file, kept by limits, directly readable, with the wildcard and a duplicate window. |
| AsyncMachine.LastForExactly | crates/common/src/lib.rs:559-562 | A fetch by subject brings a message stored under it after which none was stored under it, and nothing if and only if there is none. |
| AsyncSafety.InvStep | crates/common/src/lib.rs:502-616 | Every step of any call, of the worker and of the clock keeps each call's own events in protocol order, the misses paid by elapsed time, and one initialiser at a time. |
| AsyncSafety.ReplyNeedsTheWholeProtocol | crates/common/src/lib.rs:502-574 | A call with a reply was first answered 202 with its schema, id and subject, spelled out; then it entered a transport of which both streams were validated, published once, was acknowledged once, missed at most 150 polls with a pause after each, and hit; nothing else, in that order. |
| AsyncSafety.NoUnvalidatedTransport | crates/common/src/lib.rs:540-540 | No failure, retry or cancellation of an initialisation lets any call publish or poll on a transport whose streams were not both validated. |
| AsyncSafety.TimeoutMeansEveryPollMissed | crates/common/src/lib.rs:557-573 | A timeout comes at least 15 s after the acknowledgement and after misses only. |
| AsyncSafety.RefusalHasACause | crates/common/src/lib.rs:509-556 | A refused call ended with the error of the answer to its registration, or, once admitted, because the initialisation, the publication or its acknowledgement failed, and by no other step. |
| AsyncSafety.EndedForGood | crates/common/src/lib.rs:502-574 | A reply, a timeout, a refusal or a cancellation is final, whatever happens later. |
| AsyncSafety.AtMost151Polls | crates/common/src/lib.rs:557-573 | No run makes more than 151 polls for one call, whatever becomes of it. |
| AsyncSafety.PollBoundIsReached | crates/common/src/lib.rs:557-573 | Some run makes exactly 151. |
| AsyncSafety.ReplyIsReached | crates/common/src/lib.rs:557-566 | For every number of misses up to 150, some run fetches a stored reply by the next poll. |
| AsyncSafety.ValidatedStreamCoversReplies | crates/common/src/lib.rs:767-781 | A response stream that passes validation carries a subject that matches every call's reply subject. |
| AsyncDelivery.NoSignalIsSwallowed | crates/common/src/lib.rs:546-556 | The request stream holds exactly the signals published, one a call, in order of publication; deduplication swallows none. |
| AsyncDelivery.RepublishingIsIdempotent | crates/common/src/lib.rs:549-551 | Publishing an operation again stores no second signal. |
| AsyncDelivery.RegisteredWithItsBearer | crates/common/src/lib.rs:502-519 | Each operation is registered exactly once, with its own call's bearer. |
| AsyncDelivery.RepliesAreOwn | crates/common/src/lib.rs:559-566 | A reply fetched was stored under the call's own subject, which no other call reads, and alarms accepted from it are refused to every other call. |
| AsyncDelivery.DurableStateIsTokenFree | crates/common/src/lib.rs:502-552 | Replacing every bearer of a run gives a run with the same message bodies, streams, transport and outcomes. |
| AsyncBoard.Board.Fetch | crates/common/src/lib.rs:502-574 | The asynchronous fetch, among arbitrary other calls, is a run of the machine that ends its own new call, with the given id and bearer; what others answered decides how: the first bad answer refuses it with its error, else the first poll that brings a message ends it with that message, and only polls that all brought nothing time it out. |
| AsyncBoard.Board.Register | crates/common/src/lib.rs:509-539 | The call goes on if and only if its registration was answered 202 with the accepted schema, its id and its subject; otherwise it ends with the error that this answer means. |
| AsyncBoard.Board.Transport | crates/common/src/lib.rs:540-540 | One call initialises at a time; the call goes on, on a transport with both streams validated, exactly if the transport was ready or both lookups brought valid streams; else it ends and leaves the initialisation to the next. |
| AsyncBoard.Board.ConnectNats | crates/common/src/lib.rs:576-616 | The transport becomes ready, with the two streams looked up, if and only if both were found and valid; otherwise it stays empty. The arm of a missing server is dead. |
| AsyncBoard.Board.Publish | crates/common/src/lib.rs:541-557 | The call polls from the time of its acknowledgement exactly if the signal went out and was acknowledged, else it ends with an error. |
| AsyncBoard.Board.Poll | crates/common/src/lib.rs:557-573 | The loop ends with the message of the first poll that brings one, or in a timeout at least 15 s after its start when every poll brought nothing. |
| AsyncBoard.UndisturbedRun | crates/common/src/lib.rs:540-573 | While a call is suspended, no run of the others changes it, its initialisation or a ready transport. |
| Bodies.ExtendBounded | crates/common/src/lib.rs:700-712 | The buffer is extended if and only if the result fits; a rejected chunk leaves it as it was. |
| Bodies.BoundedBody | crates/common/src/lib.rs:659-675 | The body is the whole concatenation, within the limit at every step, or the first problem in stream order decides the error. |
| Bodies.BoundedAuthBody | crates/common/src/lib.rs:677-698 | The same at 64 KiB, with one error for every problem. |
| Bodies.FitsExactly | crates/common/src/lib.rs:659-698 | Without transport errors a read succeeds if and only if the whole body fits the limit. |
| Bodies.ChunkingIsIrrelevant | crates/common/src/lib.rs:659-698 | Neither the chunking nor a truthful declared length changes the outcome. |
| Bodies.OutcomeIsUnique | crates/common/src/lib.rs:659-698 | The declared length and the stream determine the outcome, errors included. |
| Startup.StartsExactly | crates/common/src/lib.rs:254-280 | A runtime starts if and only if its configuration has none of ten problems, spelled out with their limits, and then in the mode that is named. |
| Startup.ModesExactly | crates/common/src/lib.rs:255-256 | The four names of the modes, and no others. |
| Startup.Utf8LengthExactly | crates/common/src/lib.rs:788-794 | Lengths are counted in octets of UTF-8, section 3 of RFC 3629, and add up. |
| Startup.WhitespaceExactly | crates/common/src/lib.rs:794-794 | White space is 25 code points. |
| Startup.CompactAsciiExactly | crates/common/src/lib.rs:350-353 | An ASCII subject or audience passes if and only if it has one character to the limit and none of six blanks. |
| Startup.SafeNamesExactly | crates/common/src/lib.rs:918-924 | The stream names that pass: 1 to 128 ASCII letters, digits, underscores and dashes. |
| Startup.ArgumentsExactly | crates/common/src/lib.rs:363-463 | Each mode uses the options as they are configured, in their places, and a missing one means that the API is unavailable. |
| Startup.StartupClosesMissingArms | crates/common/src/lib.rs:254-280 | A runtime that starts meets no missing option and no unknown flavour in its mode; the direct fetch, `Channel.Connect` and `Board.ConnectNats` prove their error arms dead by it. |
| Startup.ArmsDecideStartup | crates/common/src/lib.rs:783-818 | Beyond what every mode demands, the direct and TLS modes start if and only if their later arguments are there. |
| Startup.NatsUrlExactly | crates/common/src/lib.rs:821-853 | The accepted message servers are exactly the in-cluster one, on which no further check can fail, and TLS servers with a host, no user information and a credentials file. |
| Startup.NatsIsInClusterOrTls | crates/common/src/lib.rs:576-591 | A runtime that starts has a message server, and requires TLS of every one but the in-cluster server. |
| Pipeline.Runtime.ServeDashboard | crates/common/src/lib.rs:283-305 | For every behaviour of the environment: what was done, learned, returned and reported fit together as `RequestOutcome` says, errors included; only the configured mode's transport is touched, and the calls recorded happened on it. |
| Pipeline.IdentityExactly | crates/common/src/lib.rs:333-354 | An answer identifies the bearer if and only if its status is 200 to 299, its whole body arrived within 65536 bytes, and that reads as active under a subject of 1 to 512 octets without white space. |
| Pipeline.AlarmsExactly | crates/common/src/lib.rs:402-414 | An answer brings alarms if and only if its status is 200 to 299, its whole body arrived within 921600 bytes, and that reads as these alarms. |
| Pipeline.ServedIdentity | crates/common/src/lib.rs:296-297 | A dashboard is labelled with the email of the identity that was established, else with its subject. |
| Pipeline.FailureStatusExactly | crates/common/src/lib.rs:926-932 | The status under which each error is reported. |
| Pipeline.AnswersDecide | crates/common/src/lib.rs:283-305 | What others answered decides what the caller gets, error included, and what is reported. |
| Pipeline.FailuresReportedExactly | crates/common/src/lib.rs:283-446 | A failure is reported if and only if one of the request's effects is a reported one, at most once and last; all three successes are reported if and only if the dashboard is served. |
| Pipeline.Runtime.Introspected | crates/common/src/lib.rs:307-361 | An identity is returned exactly for a bounded answer that calls the bearer active and names a compact subject of at most 512 bytes; Unauthorized exactly for a 401 or an answer that was read; every failure is reported with the status of its error, except that of an unusable subject. |
| Pipeline.Runtime.FetchDirect | crates/common/src/lib.rs:363-389 | The configured database is connected to, with its flavour and connection limit, exactly if no earlier request has; rows are queried for the identified subject exactly if that succeeds, no failure is reported, and the missing-option arms are dead. |
| Pipeline.Runtime.FetchHttp | crates/common/src/lib.rs:391-417 | Alarms are what the whole bounded body of a successful answer reads as; refusals of the API, and no other failure, are reported with their status. |
| Pipeline.Runtime.FetchTcp | crates/common/src/lib.rs:419-447 | One call of the channel with this request's id and bearer, unless that has more than 32768 bytes; alarms or the error are what its last attempt decodes to; a failure is reported exactly if both attempts failed. |
| Pipeline.Runtime.FetchAsync | crates/common/src/lib.rs:502-574 | One call of the asynchronous mode with this request's id and bearer; alarms or the error are what its end decodes to; a failure is reported exactly at a timeout, with 504. |
| Pipeline.FetchesFollowIdentity | crates/common/src/lib.rs:283-291 | Every fetch in a request's effects follows the identification of its own bearer, uses the configured mode's transport, and acts for that bearer or its subject. |
| EndToEnd.TlsAlarmsAreOwn | crates/common/src/lib.rs:283-304 | A dashboard served in TLS mode shows the alarms of a response with status Ok, its id and no error, which the peer computed from a frame with the request's own id and bearer, whatever other requests ran, failed or were cancelled in an orderly run. |
| EndToEnd.AsyncAlarmsAreOwn | crates/common/src/lib.rs:283-304 | A dashboard served in asynchronous mode shows the alarms of a response with status Ok, its id and no error, stored under the request's own subject and fetched by the last step of the whole protocol for its operation, which was registered once and with the request's bearer. |
| Flags.OverlaysAreLayers | crates/common/src/flags.rs:131-139 | The overlays in order give each name its flag, else its override, else its environment value, else its dotenv value, the command key coming from flags only. |
| Flags.LayeringIsUnique | crates/common/src/flags.rs:131-139 | The precedence rule determines the map. |
| Flags.Resolve | crates/common/src/flags.rs:85-150 | The first fail-closed check that applies decides; otherwise the layered map is coerced, and every name has its non-null scalar or its original environment value, or the first non-scalar entry is reported. |
| Flags.InsertScalars | crates/common/src/flags.rs:143-149 | The final loop, proved for entries in any order. |
| Flags.OrderIsIrrelevant | crates/common/src/flags.rs:144-149 | Two orders of the same entries that succeed resolve to the same map. |
| Flags.CommandKeyExactly | crates/common/src/flags.rs:131-149 | With a coercion that adds no names and passes the command on, the resolved command is the flag's if and only if there is such a flag or no such environment variable; otherwise it is the environment's. |
| Flags.EnvironmentCommandSurvives | crates/common/src/flags.rs:138-149 | An outcome in which a command that only the environment sets is resolved. |
| Flags.LongOptionHidesItsValue | crates/common/src/flags.rs:163-168 | The reported name of a long option is independent of the text after the equals sign. |
| Flags.ShortOptionHidesItsValue | crates/common/src/flags.rs:167-167 | Of a short option the dash and the letter are reported, whatever is attached. |
| Flags.LessExactly | crates/common/src/flags.rs:107-115 | The order of the report is that of the first character that differs, a proper start being less. |
| Flags.JoinReadsBack | crates/common/src/flags.rs:107-115 | The joined report splits back into its names, if none holds a comma. |
| Flags.ScalarExactly | crates/common/src/flags.rs:152-161 | Exactly text, numbers and truth values become text, and what text. |
| Flags.NamesAreTheSortedSet | crates/common/src/flags.rs:107-115 | The reported names are the strictly sorted list of the set of option names. |
| Flags.UnknownReportIsCanonical | crates/common/src/flags.rs:107-116 | Options with the same set of names, in any order, repetition or with any values, give the same report. |

## Left out

- TLS handshakes, certificate parsing, the HTTP client, the NATS wire protocol and database access: foreign calls, which are arbitrary steps or answers here.
- The interface crate: the wire name of the list-alarms operation and the JSON reader are parameters, so happy-wakey-interfaces is not part of this model; the order of the fields of a request is that of their construction.
- Cancellation inside the four header bytes of a reply: CutHeaderGarblesReply shows what it can do; the correlation results exclude it.
- JSON escapes of control and non-ASCII characters: a bearer holds graphic ASCII only.
- The duplicate window of the request stream never ends in the model, which is the case in which deduplication could swallow most.
- Cancellation of a call by its own caller: it is an event of the machines, which every other call and every theorem on runs admits; a method of `Channel` or `Board` models a call that is not cancelled.
- Pipeline.Runtime.ServeDashboard: one request at a time except inside the TLS and asynchronous fetches, whose calls run among all others; the once-cell of the database context is a flag.
- The checks of HTTPS base URLs, the middleware contract and the preference merge: each is an oracle that accepts or refuses.
- The file handling, the audit of the contract and parser errors of `resolve_from`, its collection of the environment into a map, and `Config::from_env`: library behaviour or plain lookups; the model starts from what the parser reports.
- The help text, HTML rendering and the mapping of errors to HTTP responses: output without behaviour.
- First-in first-out order of the lock: no result needs it.
