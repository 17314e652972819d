# Sensor client: a verified model

This project models the core of `client.c`, a command-line client for the
COMP375 sensor network. The client gets one reading as follows:

1. It authenticates to a rendezvous server (`comp375.sandiego.edu:47789`).
2. The server replies `CONNECT <host> <port>`, a redirect to a sensor host.
3. The client connects to the fixed host `sensor.sandiego.edu` on the
   redirected port.
4. It authenticates there and sends a query.
5. It reads the reply, then runs the `CLOSE` handshake and closes the
   sensor socket.

A menu prompt chooses the query. `sscanf` reads the reply as an epoch and a
value.

The model is written in Dafny and consists of five modules:

- `Text` covers three things:
  - C strings held in zeroed buffers;
  - `isspace` in the C locale;
  - the base-10 conversion shared by `strtol` and `scanf`'s `%ld`/`%d`.

  It also holds the decimal rendering (`Show`) used to state round trips.
- `Redirect` is `parse_port` as three `strtok(…, " ")` calls. It is checked
  against an independent reference definition: the fields of a line are
  its pieces between spaces, with the empty pieces dropped.
- `Transport` models `send_or_exit` and `recv_or_exit` over a scripted
  socket. A peer is two scripts: the values successive `send` calls return,
  and the chunks successive `recv` calls find. The source's `exit(1)`
  becomes an `Aborted(cause)` status.
- `Session` models `protocol` as a fixed plan of socket operations, carried
  out by an interpreter that records a trace of events. It stops at the
  first failure, giving `Abort(cause)`; a completed run gives
  `Response(reply)`.
- `Client` covers four parts of the client:
  - the tail of `prompt` (newline cut, `strtol`, full-consumption check);
  - the `mainLoop` switch;
  - the query texts;
  - the `sscanf` of the reply.

  `MainLoopTurn` is one iteration of the loop.

`connectToHost` is a reachability oracle over `(host, port)` in the
environment. A null port is passed to it unchanged, as `None`.

Where the code departs from the `CONNECT <host> <port>` and
`<epoch> <value> <unit>` message formats its comments and `sscanf` formats
describe, the model follows the code:

- A redirect with fewer than three fields is not rejected. `parse_port`
  returns null, and that null goes to `connectToHost` (`MalformedRedirect`).
- Only the space character separates fields. The reply's trailing newline
  therefore stays on the port (`PortKeepsNewline`).
- A reply that does not hold two integers raises no error. The variables
  `sscanf` did not reach keep their previous values (`ScanReply`).
- The wind-speed query is sent without a newline (`QueryFraming`).

## Model

| member | source | states |
|---|---|---|
| Redirect.StrTok | client.c:102-105 | a `strtok(…, " ")` call returns a non-empty token with no space in it, or null, and always resumes on a shorter text; `Redirect.StrTokSkipsSpaces` states which token |
| Redirect.StrTokSkipsSpaces | client.c:102-105 | a call returns null exactly when only spaces remain, and otherwise the word that starts after the leading spaces, ending at the next space |
| Redirect.StrTokFields | client.c:102-105 | each call hands out the next field of the reference split, and returns null exactly when no field is left |
| Redirect.ParsePort | client.c:101-107 | `parse_port` returns null or a non-empty token without a space; `Redirect.ParsePortThirdField` states which token |
| Redirect.ParsePortThirdField | client.c:101-107 | `parse_port` returns the third field of the reply, and null exactly when there are fewer than three fields; the host field plays no part |
| Redirect.ParsePortOfRedirect | client.c:101-107 | for a reply `verb host port` with single spaces, `parse_port` yields `port`, whatever the host |
| Redirect.PortKeepsNewline | client.c:102-105 | for `CONNECT host port\n` the port handed on is `port\n`, because the newline is not a delimiter |
| Transport.SendOrExit | client.c:245-262 | the accepted chunks are a prefix of the buffer; a normal return means the whole buffer was delivered; an abort delivered strictly less; the only abort causes are a closed peer, a send error or a call that never returns; every chunk is non-empty; the recursion ends |
| Transport.SendOrExitScript | client.c:247-260 | one `send` call per accepted chunk, each of which accepted at least one byte, plus the call that failed; a 0 is the closed-peer abort and a -1 the send-error abort; the unused calls stay in the script |
| Transport.SendDelivers | client.c:245-262 | if every `send` accepts at least one byte and enough calls are available, the whole buffer goes out in at most `|buf|` calls and the function returns normally |
| Transport.SendOneByteAtATime | client.c:256-260 | a socket that takes one byte per call receives the buffer one character per call, in order, using exactly `|buf|` calls |
| Transport.SendAtOnce | client.c:247-256 | a `send` that accepts the whole buffer ends the function after that single call |
| Transport.RecvOrExit | client.c:271-281 | a single `recv`: a normal return holds between 1 and `max_len` bytes, is the front of what the peer sent, and keeps the rest queued; an error, a closed peer and a missing answer each abort with their own cause and read nothing |
| Transport.RecvAtOnce | client.c:271-272 | a reply that fits the buffer is read whole by one `recv` |
| Session.Plan | client.c:118-150 | the ten calls of `protocol`; the byte counts 17, 19 and 6 written in the source send each literal in full |
| Session.Exec | client.c:118-150 | a run has no more events than the plan has operations, and a run without failure has exactly one event per operation |
| Session.Perform | client.c:123-147 | each successful operation leaves an event of its own kind: a complete send, a bounded non-empty receive (which becomes the last received text), the sensor connect, or the close; a failed send or connect leaves its attempt in the trace, a failed receive leaves nothing |
| Session.Protocol | client.c:118-150 | a session has at most ten events; a reply comes only after all ten, and it is non-empty and fits the 1024-byte buffer; `Session.ProtocolOrder` and `Session.ProtocolMessages` state the rest |
| Session.ExecFollowsPlan | client.c:118-150 | every event of a run attempts the plan's operation in the same position, and all but a failed last one complete it; a run that fails after as many events as operations failed at a send or a connect |
| Session.ProtocolOrder | client.c:118-150 | every session performs a prefix of: AUTH to the rendezvous server and one receive; connect to the sensor host; then AUTH, the query and CLOSE, each followed by one receive; then close. It reaches the reply exactly when it performs all ten steps |
| Session.ProtocolCloses | client.c:118-150 | the rendezvous socket is never closed; the sensor socket is closed exactly when the session completes |
| Session.ProtocolMessages | client.c:123-149 | a completed session sent `AUTH password123\n`, `AUTH sensorpass321\n`, the query up to its terminator, and `CLOSE\n`, each in full (so 17, 19 and 6 are the literals' lengths); its result is what the receive after the query read |
| Session.ProtocolConnectsToSensor | client.c:127-130 | whenever the session gets that far, it connects to `sensor.sandiego.edu` on the port `parse_port` takes from the rendezvous reply |
| Session.ProtocolCompletes | client.c:118-150 | with peers that take each message in one call, answer within the buffer, and a reachable redirected port, the session completes and returns the sensor's second answer |
| Session.MalformedRedirect | client.c:127-130 | a redirect with fewer than three fields leads to a connect with a null port; if that is unreachable, the session aborts right there with three events |
| Session.SensorClosesBeforeReply | client.c:139-140 | if the sensor host closes instead of answering the query, the session aborts as a closed connection after six events, the last being the query sent in full |
| Client.Dispatch | client.c:59-91 | a sensor selection is the menu number of that sensor; 4 is quit; every value outside 1..4, including -1, is an invalid selection |
| Client.DispatchMenu | client.c:160-162 | each menu number selects its own sensor |
| Client.QueryText | client.c:62-78 | each query string is non-empty and holds no NUL; `Client.QueryFraming` states its text |
| Client.QueryFraming | client.c:61-78 | each query is the sensor's printed name plus a newline, except wind speed, which has none; no query holds a NUL, so `strlen` sends all of it |
| Client.ScanReply | client.c:63-79 | the variables change only when the reply holds a digit; `Client.ScanReplyAll` states the result for every reply |
| Client.ScanReplyAll | client.c:63-79 | for every reply: with no numeral after the leading white space nothing is assigned; otherwise `epoch` gets the first numeral's value, and `condition` gets the second's when a numeral follows the first, or keeps its old value when none does |
| Client.ScanReplyRoundTrip | client.c:63 | a reply `<epoch> <value><tail>`, where the tail does not start with a digit, sets exactly that epoch and value |
| Client.ScanReplyNoNumber | client.c:63 | a reply without a digit leaves both variables as they were |
| Client.ScanReplyEpochOnly | client.c:63 | a reply holding only the epoch sets the epoch and leaves the value as it was |
| Client.Prompt | client.c:182-194 | a selection other than -1 comes from a line holding a digit; `Client.PromptNumeral` states the result for every line |
| Client.PromptNumeral | client.c:182-194 | for every typed line, after the newline cut and the white space `strtol` skips: if the rest is an optional sign followed by digits, the result is that number; anything else, the empty line included, gives -1 |
| Client.PromptRoundTrip | client.c:182-194 | a number typed and ended by a newline comes back as that number, whatever follows the newline |
| Client.PromptRejectsTrailing | client.c:186-192 | a number followed by any character other than a digit, the newline or NUL gives -1 |
| Client.PromptRejectsNoDigits | client.c:186-192 | a line without a digit, the empty line included, gives -1 |
| Client.PromptBounded | client.c:167-194 | the nine characters `fgets` can store always give a value between -99999999 and 999999999, so `strtol` cannot overflow |
| Client.MainLoopTurn | client.c:56-91 | an iteration starts with the rendezvous connect and has at most eleven events; a reading is reported only for the sensor the typed number selects |
| Client.TurnDispatch | client.c:56-91 | each iteration first connects to the rendezvous server; only a selection in 1..3 does more network work; 4 quits and any value outside 1..4 is rejected, both only once that connect has succeeded |
| Client.TurnReportsQueriedSensor | client.c:59-83 | a reported reading follows eleven events, the query sent is the text for the selected sensor, and the reading is the scan of the reply read after it |
| Client.TurnLeavesRendezvousOpen | client.c:56-58 | the rendezvous connection an iteration opens is never closed |
| Client.TurnShowsReply | client.c:56-83 | end to end: a sensor selection, reachable hosts, well-behaved peers and a reply `<epoch> <value><tail>` report exactly that epoch and value for the selected sensor |
| Text.TakeUntil | client.c:183-184 | the text before the first occurrence of the terminator: a prefix without the terminator, ending just before it when it occurs |
| Text.ScanInt | client.c:188 | a conversion fails exactly when neither a digit nor a sign followed by a digit comes after the leading white space; a successful one ends on a digit, stays within the text and stops at the first non-digit after it |
| Text.ScanIntAll | client.c:188 | every successful conversion reads a numeral (an optional sign, then digits) from the end of the white space to where it stops, and yields that numeral's value |
| Text.ScanIntWhole | client.c:188-190 | a conversion consumes the whole text exactly when what follows the leading white space is an optional sign followed by digits, and then it yields that number |
| Text.ScanShow | client.c:188 | reading back a rendered integer after white space gives that integer and stops right after it |
| Text.ScanIntMagnitude | client.c:188 | a conversion over `n` characters yields a value below 10^n, and a negative one above -10^(n-1) |

## Left out

- `connectToHost` internals: `getaddrinfo`, `socket`, `connect` and `freeaddrinfo` (client.c:204-236) are foreign calls. A reachability predicate over `(host, port)` stands in for them; when it fails, the turn aborts with `ConnectFailed`.
- `connectToHost` reachability is left to the environment and accepts any port string. That includes the `port\n` that `Redirect.PortKeepsNewline` shows is handed on. A real `getaddrinfo` would probably not resolve a service name with a trailing newline, so a newline-ended redirect would likely fail to connect. `Session.ProtocolCompletes` and `Client.TurnShowsReply` assume that the port they are given is reachable.
- Bytes are modelled as characters: each `char` of a `string` stands for one byte of a C buffer. `BUFF_SIZE`, `strlen` and the lengths 17, 19 and 6 therefore count characters.
- Operating-system socket behaviour is replaced by per-peer scripts. A script that runs out stands for a blocking call that never returns (cause `Blocked`); the source has no such exit.
- `exit(1)` and `exit(0)` end the process in the source. Here `exit(1)` becomes the status `Transport.Aborted(cause)` in the transport functions, the session end `Session.Abort(cause)` and the iteration end `Client.Failed(cause)`; `exit(0)` becomes `Client.Goodbye`.
- The head of `prompt` is not modelled: the menu printing, the `fgets` call, and the `feof`/`ferror` exits (client.c:159-180). `Prompt` takes the text `fgets` stored. Characters beyond nine stay in standard input for the next prompt; that is not modelled either.
- Display: the report `printf` and `ctime` (client.c:64-65, 72-73, 80-81) and the error message for an invalid selection are not modelled. The printed unit depends only on the case, which `Shown` records as the selected sensor.
- Client.ScanReply: values are unbounded integers. `%ld` into a `long` and `%d` into an `int` overflow on very long digit runs, which the C library leaves undefined.
- Client.ScanReply: the reply buffer from `malloc` is not zeroed, so bytes after the received data are unknown. The model scans only the received bytes, cut at a NUL, as if the buffer were terminated there.
- Receive buffers: when `recv` fills all 1024 bytes, no terminator follows. `strtok` would then run past the buffer. The model treats the received bytes as the whole C string.
- The variable-length array and `memcpy` of the recursive send (client.c:257-259) are not modelled. The model re-sends the suffix itself.
- The `while (1)` loop (client.c:56) is modelled as one iteration, `MainLoopTurn`. It receives the previous iteration's reading as a parameter. The connection `main` opens (client.c:36) and its `close` after the loop (client.c:38) are not modelled. Each iteration's rendezvous connection shows up in the trace, opened and never closed.
