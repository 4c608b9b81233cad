# telemock-go, modelled in Dafny

telemock-go is a mock Telegram-style bot gateway. A program under test talks to a `Bot`
exactly as it would talk to a real bot API client. It reads `Update`s and calls `SendMessage`
and `AnswerCallbackQuery`. Test clients connect to the gateway over a websocket:
- they play users by sending JSON frames, which the gateway turns into updates;
- they receive, as JSON, every reply the bot sends.

This project models the gateway's core, without the transport:

- **The identifier normalizer** (`internal/util/parse.go`). `ParseChatID` is strict and
  `ParseToInt64` is lenient. Both are total case analyses over a loosely typed decoded JSON
  value, written as the tagged union `Util.Value`. They sit on a model of base-10
  `strconv.ParseInt` (module `Strconv`) that includes its syntax and range errors.
- **The inbound pipeline** (`ws.go`). It classifies a decoded frame as a callback, a text
  message or ignored. It builds the `CallbackQuery` or `Message` update, including the
  `bot_command` entity that runs up to the first space byte, and it draws ids from the two
  counters `nextUpdID` and `nextMsgID`. These are pure functions in module `Inbound`. The
  mutable side lives in module `Gateway` as class `Bot`:
  - the client registry is a set of `Conn` handles;
  - the update channel is a bounded sequence of capacity 256, with the drop-oldest enqueue;
  - the two counters wrap around like `atomic.AddInt64`;
  - `addClient`/`removeClient` are methods;
  - the read loop is a `while` loop over the frames one session delivers.
- **The outbound side** (`bot.go`). `SendMessage` rejects nil parameters and draws a message
  id from the counter it shares with the read loop. It builds the returned `Message` and the
  broadcast `outboundPayload`, snapshots the registry, and writes to each snapshot session,
  pruning those whose write fails. `AnswerCallbackQuery` and the registry and queue effects
  of `Close` are modelled too.

How the model is shaped:
- Each socket write's outcome is an input: `writeFails`, the set of sessions whose write fails.
- The clock reading in nanoseconds that goes into a callback id is an input: `now`, or `clock`
  for the whole loop.
- A decoded frame is `Inbound.Decoded`. It is either `Malformed`, for a payload that
  `json.Unmarshal` rejected, or `Parsed(frame)`.
- Go strings are `seq<char>` with one `char` per byte. Go's `int` and `int64` are the subset
  type `Base.Int64`. A `float64` value is its exact real.

Facts about the code that shape the model:
- `types.go` lacks `Message.Entities`, `MessageEntity` and
  `SendMessageParams.ReplyToMessageID`, although `ws.go:118`, `bot.go:111` and `bot.go:118`
  use them. The datatypes in `types.dfy` include them, shaped as the code uses them.
- `outboundPayload.ReplyToMessageID` is an `interface{}` holding an `int64` (`ws.go:27`,
  `bot.go:111`). `omitempty` drops only a nil interface, so the field is always encoded, 0
  included. `OutboundPayload` therefore always carries `replyToMessageID`; only `isReply` is
  left out of the encoding when false.
- `Close` closes `b.updates` on every call (`bot.go:168`). A second call panics, so
  `Gateway.Bot.Close` requires an open channel.
- Only callback and text frames send on `b.updates` (`ws.go:93-97`, `ws.go:125-129`); a
  malformed or ignored frame touches no channel. `Push` therefore requires an open channel,
  while `HandleFrame`, `HandleFrames` and `ReadLoop` require one only for frames that yield an
  update. A read loop still running after `Close` ends when its socket read fails and removes
  its session (`ws.go:58-65`); `ReadLoop` states that queue and counters are then untouched.

## Model

| member | source | states |
|---|---|---|
| Base.CounterAfter | bot.go:37-44 | a counter that starts at 0 (`NewBot`) holds n after its first n increments, up to MaxInt64 |
| Base.AddOne | ws.go:90 | the atomic increment is +1 modulo 2^64 in two's complement and never returns its argument |
| Base.CounterAfterClosedForm | ws.go:103 | after n < 2^64 increments from 0 the counter is n up to MaxInt64 and n - 2^64 after it wraps |
| Base.CounterAfterInjective | bot.go:98 | the first 2^64 values drawn from one counter are pairwise distinct, wrap-around included |
| Base.CounterAfterIncreasing | ws.go:122 | until a counter wraps, a later draw is strictly larger than an earlier one |
| Strings.IndexByte | ws.go:137-140 | the result is -1 exactly when the byte is absent; otherwise it is an index of that byte with no earlier occurrence |
| Strconv.DigitsValueBound | internal/util/parse.go:25 | k decimal digits denote a number below 10^k |
| Strconv.PrefixValueAtMost | internal/util/parse.go:23 | a prefix of a digit string denotes no more than the whole, so once the accumulator overflows the full value overflows too |
| Strconv.ScanUintMeaning | internal/util/parse.go:23 | the digit loop of `ParseUint` succeeds exactly when every remaining byte is a digit and the full value fits in 64 bits, and it then returns that value |
| Strconv.ParseInt | internal/util/parse.go:23-24 | every error it returns names `ParseInt` and carries the input string |
| Strconv.ParseIntMeaning | internal/util/parse.go:23 | `ParseInt` succeeds exactly on an optionally signed non-empty digit string whose value lies in int64 range, and returns that value; such a string out of range is a range error |
| Strconv.ParseFloat | internal/util/parse.go:25-26 | every error it returns names `ParseFloat` and carries the input string; what it returns for integer texts and for texts with a fractional part is stated by `Strconv.IntegerTextAsFloat` and `Util.FractionTextAsFloat` |
| Strconv.IntegerTextAsFloat | internal/util/parse.go:25 | `ParseFloat` of a decimal integer gives its value, or a range error once its magnitude reaches the float64 overflow bound |
| Strconv.FormatNat | ws.go:84 | `%d` of a natural number is a non-empty digit string denoting that number, with no leading zero unless the number is 0 |
| Strconv.FormatInt | ws.go:84 | `%d` of an integer is a decimal integer string denoting that integer: a leading `-` exactly for negative numbers, never a `+`, and digits without a leading zero unless they are "0" |
| Strconv.FormatParseRoundTrip | ws.go:84 | parsing the `%d` text of any int64 gives back that int64 |
| Util.Trunc | internal/util/parse.go:14 | truncation toward zero: the result lies within one of x on the side of zero |
| Util.FloatToInt64 | internal/util/parse.go:14 | `int64(f)` truncates toward zero when the integer part fits and gives MinInt64 otherwise |
| Util.ParseChatID | internal/util/parse.go:11-42 | int and int64 values come back unchanged; a float64 is truncated; nil and "" fail with their own errors; a string both parsers reject fails with the `ParseInt` error; another type succeeds exactly when its JSON encoding unmarshals into a float64 (a JSON number within float64 range, or `null`, which leaves 0), and then returns `int64` of that float |
| Util.ParseToInt64 | internal/util/parse.go:44-66 | nil, other types, "" and strings that both parsers reject all yield 0 |
| Util.LenientAgreesWithStrict | internal/util/parse.go:11-66 | apart from other types, the lenient result is the strict value where that succeeds and 0 where it fails; on other types it is 0 |
| Util.DecimalStringNormalizes | internal/util/parse.go:23-31 | a base-10 integer string in int64 range normalizes to exactly its value in both functions |
| Util.OverflowingIntegerIsRejected | internal/util/parse.go:23-29 | a decimal integer beyond the float64 range, such as 1 followed by 309 zeros, makes the strict normalizer fail with `ParseInt`'s range error and the lenient one yield 0 |
| Util.FractionTextAsFloat | internal/util/parse.go:25-26 | `ParseFloat` of a signed decimal with a fractional part is a range error once its magnitude reaches 2^1024 - 2^970, the bound where a float64 rounds to infinity, and its exact value below that |
| Util.SplitDecimalText | internal/util/parse.go:25 | a signed decimal text with a `.` is not an integer and splits at its `.` into its integer and fraction digits |
| Util.TruncDropsFraction | internal/util/parse.go:25-27 | truncating a plain decimal keeps its signed integer part |
| Util.FractionTruncatesTowardZero | internal/util/parse.go:25-27 | a decimal with a fractional part, such as "12.7" or "-3.9", normalizes in both functions to its integer part truncated toward zero |
| UpdateQueue.Enqueue | ws.go:93-98 | the enqueue keeps the length at most 256 and puts the new update last; below capacity it appends; at capacity it drops the head and keeps the rest in order |
| UpdateQueue.EnqueueAllKeepsNewest | ws.go:93-98 | after any run of enqueues the queue holds exactly the newest 256 of all updates queued and enqueued, in FIFO order |
| UpdateQueue.EnqueueAllAppend | ws.go:125-130 | one more enqueue after a run is the run followed by that enqueue |
| UpdateQueue.EnqueueAllBelowCapacity | ws.go:93-94 | while the total stays within the capacity nothing is dropped |
| Inbound.Classify | ws.go:69-133 | a callback frame is exactly one with non-empty callback data; a text frame has empty callback data and non-empty text; every other frame, and every malformed payload, is ignored |
| Inbound.CallbackID | ws.go:84 | the callback query id starts with `cb-` |
| Inbound.SignedTextThenDash | ws.go:84 | after an optional `-` and dash-free text, the first `-` found is the one right after that text |
| Inbound.SignedNumberThenDash | ws.go:84 | in the `%d` text of a number followed by `-`, the first `-` past the sign ends the number |
| Inbound.NumberFieldsRoundTrip | ws.go:84 | the two numbers of "<a>-<b>" are read back as a and b, negative ones included |
| Inbound.CallbackIDFieldsAfterPrefix | ws.go:84 | the fields of an id are read from what follows its `cb-` |
| Inbound.CallbackIDRoundTrip | ws.go:84 | reading a callback query id back gives the clock reading and the message id it was made from |
| Inbound.CallbackIDInjective | ws.go:84 | two callback query ids are equal only when their clock readings and message ids are |
| Inbound.CallbackUpdate | ws.go:74-92 | the update of a callback frame has the given update id, no message, and a query whose data, id, sender and message (the lenient message id, 0 included; the parsed chat; the frame text; no entities) follow the frame |
| Inbound.TextMessageID | ws.go:101-104 | a non-zero lenient message id is kept; when the frame's lenient id is 0 the id is `nextMsgID+1`, so it is 0 only when the counter stood at -1 |
| Inbound.TextUpdate | ws.go:105-124 | the update of a text frame has the given update and message ids, no query, the parsed chat as chat and sender, the frame text and its command entities |
| Inbound.ChatIDOf | ws.go:75 | the chat id is the strict normalizer's value, or 0 when it fails |
| Inbound.IndexOfSpace | ws.go:137-140 | -1 exactly when the text has no space byte; otherwise the index of the first one |
| Inbound.CommandEntities | ws.go:111-120 | at most one entity; exactly one iff the text starts with `/` and its second byte exists and is not a space; that one is a `bot_command` at offset 0 whose length runs to the first space or the end and is greater than 1 |
| Inbound.Step | ws.go:69-133 | an ignored frame yields no update and leaves the counters. Every produced update takes id `nextUpdID+1`. A callback frame yields a query carrying the data, the parsed chat id and the frame text; its message id is the lenient one, 0 included, and `nextMsgID` is untouched. A text frame yields a message with its command entities; its id is the lenient one unless that is 0, when it is `nextMsgID+1` and that counter advances by one. The query id is `cb-<now>-<message id>` |
| Inbound.Run | ws.go:62-134 | a run of frames yields at most one update per frame, and each update holds either a message or a callback query, never both |
| Inbound.RunOfIgnoredFrames | ws.go:69-73 | frames that are all malformed or empty yield no update and leave both counters unchanged |
| Inbound.RunAppend | ws.go:62-134 | a run one frame longer is the shorter run followed by one step |
| Inbound.RunUpdateIDsIncrease | ws.go:121-122 | along a run of frames short of the counter's top, the i-th update gets id start+i+1, so update ids strictly increase |
| Outbound.SentMessage | bot.go:99-104 | the returned message carries the drawn id, the params' chat and text, the sender {0, "bot"} and no entities |
| Outbound.Payload | bot.go:106-120 | the reply carries the params' chat id and text, `from` "bot" and the drawn id; `replyToMessageID` is copied; `isReply` holds iff it is non-zero; the markup passes through unchanged and is absent when none was given |
| Outbound.PayloadCarriesRequest | bot.go:99-120 | a session can recover the request from the reply, and the reply and the returned message agree on id, chat and text |
| Gateway.Conn.constructor | ws.go:34-39 | an accepted session is open and has received nothing |
| Gateway.RunEnqueueStep | ws.go:62-134 | the queue after one more frame is the queue after the shorter run, plus that frame's update if it yields one |
| Gateway.Bot.constructor | bot.go:37-44 | the registry and queue start empty, the channel open, and both counters at 0 |
| Gateway.Bot.IssuedIDsDistinct | bot.go:98 | issued update ids strictly increase until the counter wraps; message ids drawn by the read loop and by `SendMessage` alike are pairwise distinct for the first 2^64 draws |
| Gateway.Bot.AddClient | ws.go:44-48 | the handle joins the registry and nothing else in it changes |
| Gateway.Bot.RemoveClient | ws.go:50-55 | the handle leaves the registry (an absent one leaves it unchanged), nothing else in it changes, and its transport is closed |
| Gateway.Bot.DrainOneUpdate | ws.go:142-149 | it succeeds iff the queue is non-empty or the channel closed; on a non-empty queue it removes exactly the head, and otherwise changes nothing |
| Gateway.Bot.Push | ws.go:93-98 | the queue becomes the drop-oldest enqueue of the update |
| Gateway.Bot.NextUpdateID | ws.go:90 | the counter advances by one (wrapping) and the new value is returned and recorded as issued |
| Gateway.Bot.NextMessageID | ws.go:103 | the shared message counter advances by one (wrapping) and the new value is returned and recorded as issued |
| Gateway.Bot.HandleFrame | ws.go:69-133 | the counters and queue after one frame are those of `Step`: its update, if any, is enqueued and the ids it drew are recorded |
| Gateway.Bot.HandleFrames | ws.go:62-134 | after a session's frames the queue is the old queue with every update of the run enqueued in frame order, and the counters are the run's |
| Gateway.Bot.ReadLoop | ws.go:57-135 | after a session's frames the queue is the old queue with every update of the run enqueued in frame order and the counters are the run's; after `Close` queue and counters are unchanged; the session is then removed and closed |
| Gateway.Bot.Snapshot | bot.go:122-127 | the snapshot lists every registered session exactly once and nothing else |
| Gateway.Bot.Broadcast | bot.go:138-144 | every snapshot session is attempted: one whose write fails is removed and closed, and every other one receives the reply |
| Gateway.Bot.SendMessage | bot.go:94-147 | nil params fail with no counter change and no writes. Otherwise the message counter advances by one and the message with that id is returned without error, even with zero sessions or failed writes. Every registered session receives the reply, except those whose write fails, which are removed and closed |
| Gateway.Bot.AnswerCallbackQuery | bot.go:149-153 | it always succeeds and changes nothing |
| Gateway.Bot.Close | bot.go:159-168 | every registered session is closed, the registry ends empty, and the update channel is closed |
| Scenarios.TextFrameScenario | telemock_test.go:70-78 | a text frame with chat 777 yields a message in chat 777 with the frame's text and id, under update id 1 |
| Scenarios.CallbackFrameScenario | telemock_test.go:96-104 | a callback frame from 555 yields a query from user 555 with data "ok" and the frame's text |
| Scenarios.StartCommandScenario | ws.go:111-120 | "/start" carries one command entity of length 6 |
| Scenarios.CommandWithArgumentScenario | ws.go:111-120 | in "/start now" the command entity stops at the space |
| Scenarios.NoCommandScenario | ws.go:111-120 | "/", "/ x" and "start" carry no entity |
| Scenarios.ReplyScenario | telemock_test.go:39-56 | a reply to message 42 is flagged as a reply and names 42 as its target |

## Left out

- Transport and server plumbing are I/O and library calls, and are not modelled:
  - the websocket upgrade and `handleWS`;
  - `ReadMessage`, `WriteMessage` and write deadlines;
  - `http.Server`, `net.Listen` with its bind failure, and `Shutdown`.
  A read loop is given the frames its session delivers before its read fails. A write is
  given its outcome through `writeFails`.
- Concurrency is not modelled. Goroutines, the `RWMutex`, atomics and the channel run
  sequentially. A consumer racing `drainOneUpdate` is not covered. The asynchronous
  `go b.removeClient(c)` after a failed write is modelled as a synchronous removal.
- `UpdatesViaLongPolling` is not modelled, because it only forwards the channel in FIFO order
  and exists for concurrency. `UpdateQueue.EnqueueAllKeepsNewest` states the order the queue
  keeps.
- JSON encoding and decoding are library behaviour and are not modelled. Inbound frames arrive
  already decoded, and for a value of another type `Util.Value.Other` carries the result of its
  JSON round trip. `json.Marshal` of the outbound payload cannot fail for these field types,
  so its error branch (`bot.go:133-136`) is absent.
- `Close`'s HTTP shutdown and its 2-second wait for the server goroutine are not modelled,
  because they involve time and the server.
- Logging and `logRequest` are not modelled; they do not affect state.
- The token argument of `NewBot` is ignored, as in the code.
- Strconv.ParseFloat: only plain decimals are modelled, with their exact value and the range
  error beyond the float64 range; exponents, hexadecimal forms, `Inf`, `NaN` and underscores
  are treated as syntax errors, and rounding to the nearest `float64` is not modelled.
- Util.FractionTruncatesTowardZero: holds for Go only while rounding to the nearest `float64`
  does not reach the next integer. Go rounds first, so "9007199254740993.5" or
  "1.99999999999999999" give 9007199254740994 and 2; the model's exact value gives
  9007199254740993 and 1.
- Util.FloatToInt64: Go leaves an out-of-range `int64(f)` to the implementation; the model
  picks MinInt64, the amd64 result. `Util.Value.FloatV` holds an exact real, so precision loss
  in JSON decoding is not modelled.
- Gateway.Bot.Close: requires an open channel, because a second call panics in Go; the panic
  itself is not modelled.
- Gateway.Bot.Push: requires an open channel, because sending on a closed channel panics;
  `HandleFrame`, `HandleFrames` and `ReadLoop` require it only for frames that send. The panic
  itself is not modelled.
- Gateway.Bot.DrainOneUpdate: receiving from a closed, empty channel succeeds in Go with a
  zero update; the model reports success and returns no value.
- `examples/simple/main.go`, `examples/simple/scenario_test.go` and `telemock_test.go` drive
  I/O and are not modelled; the scenario test replays a recorded file that is not part of
  this model. Module `Scenarios` restates the outcomes that `telemock_test.go` checks
  (`TextFrameScenario`, `CallbackFrameScenario`, `ReplyScenario`). Its command lemmas and
  `SendWithoutSessions` are worked examples of the code's rules, not taken from a test.
