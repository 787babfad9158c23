# UART connection manager, modelled in Dafny

This project models `UARTManager` from `js/uart.js`. It is the connection
manager of a browser serial terminal. It owns the Web Serial port together
with its reader and writer endpoints and the baud rate. It keeps two lists of
callbacks, one for connection changes and one for received data. Its
operations are `connect`, `disconnect`, `send` and the read loop. The read
loop forwards every received chunk to the data callbacks and writes binary
chunks as space-separated, zero-padded, lower-case hex pairs.

The model has five files:

- `wrappers.dfy` (module `Wrappers`) defines `Option`.
- `platform.dfy` (module `Platform`) defines the values the browser hands over: ports, readers, writers, chunks and read results. It also defines the outcome of every platform call, `Attempt<T> = Ok(value) | Throws(error)`. `ConnectEnv` and `TeardownEnv` bundle the outcomes one `connect` or one `disconnect` meets.
- `hex.dfy` (module `HexDisplay`) defines the hex rendering of a `Uint8Array` chunk. It proves that the rendering is fixed-width, lower-case and lossless: parsing it back gives the bytes.
- `notify.dfy` (module `Notifications`) defines the callback lists and what notifying them does. A callback invocation is a `Call(callback, event)` appended to an observable log.
- `uart.dfy` (module `Uart`) defines the class `UartManager`. Its fields are the JavaScript object's fields, plus the `calls` log. The module also holds the specification functions its methods are proved against and five end-to-end scenarios:
  - `Attempted` is the teardown of `disconnect`;
  - `ReadLoopRun` and `LoopEvents` are the read loop;
  - `ConnectError` is the failure `connect` catches.

Every platform call is an input to the model:

- the outcomes of `requestPort`, `open`, `getWriter` and `getReader` for `connect`;
- the outcomes of `cancel`, `release` and `close` for `disconnect`;
- the sequence of results the read loop's successive `read()` calls get;
- the outcome of `write` for `send`.

Operations run one at a time, each to completion.

## Model

| member | source | states |
|---|---|---|
| HexDisplay.HexDigit | js/uart.js:70 | a digit of `toString(16)` is a lower-case hex character |
| HexDisplay.DigitValue | js/uart.js:70 | reading a hex digit back gives a value below 16 whose digit is that character |
| HexDisplay.DigitValueOfHexDigit | js/uart.js:70 | writing a value below 16 as a digit and reading it back gives the value |
| HexDisplay.ToRadix16 | js/uart.js:70 | `toString(16)` has at least one character, all lower-case hex; it has exactly one exactly when the number is below 16 |
| HexDisplay.ToRadix16Value | js/uart.js:70 | `toString(16)` denotes the number and has no leading zero unless the number is 0 |
| HexDisplay.ByteToHex | js/uart.js:70 | `b.toString(16).padStart(2, '0')` for one byte; its digits are stated by `ByteToHexDigits`, `ByteToHexPadded` and `ByteToHexUnpadded` |
| HexDisplay.PadStart | js/uart.js:70 | `padStart(width, '0')` reaches the width, keeps the string as its suffix and fills the front with the fill character only |
| HexDisplay.ByteToHexDigits | js/uart.js:70 | a byte's pair is the digit of its high nibble, then that of its low nibble |
| HexDisplay.ByteToHexPadded | js/uart.js:70 | a byte below 16 gets one leading '0' |
| HexDisplay.ByteToHexUnpadded | js/uart.js:70 | a byte from 16 up is written as `toString(16)` with nothing added |
| HexDisplay.PairOfNewline | js/uart.js:70 | 0x0A is written "0a" |
| HexDisplay.PairOfMaxByte | js/uart.js:70 | 0xFF is written "ff" |
| HexDisplay.HexPairs | js/uart.js:69-70 | `Array.from(value).map(...)`: the pair of every byte, in order, as stated by `HexPairsAt` and `HexPairsArePairs` |
| HexDisplay.HexPairsAt | js/uart.js:69-70 | the mapped array has one pair per byte, pair i being that of byte i |
| HexDisplay.HexPairsArePairs | js/uart.js:69-70 | every mapped element is exactly two characters |
| HexDisplay.Join | js/uart.js:71 | `join(' ')`: the parts with one separator between neighbours; its layout on pairs is stated by `JoinPairsLength` and `JoinPairsAt` |
| HexDisplay.JoinPairsLength | js/uart.js:71 | n two-character parts joined with " " take 3n - 1 characters |
| HexDisplay.JoinPairsAt | js/uart.js:71 | in the joined text, part i sits at 3i and 3i+1, followed by a space unless it is the last |
| HexDisplay.ParseJoinedPairs | js/uart.js:69-71 | digit pairs joined with single spaces parse back to the bytes they denote |
| HexDisplay.RenderHex | js/uart.js:67-72 | the display text of a `Uint8Array` chunk; it is lossless (`ParseRenderHex`, `RenderHexInjective`) and fixed-width (`RenderHexLength`, `RenderHexAt`) |
| HexDisplay.RenderHexLength | js/uart.js:69-71 | an n-byte chunk is displayed in 3n - 1 characters, an empty one as "" |
| HexDisplay.RenderHexAt | js/uart.js:69-71 | byte i of a chunk is displayed at 3i and 3i+1, separated from the next by one space |
| HexDisplay.PairDenotes | js/uart.js:70 | a byte's pair denotes the byte |
| HexDisplay.ParseRenderHex | js/uart.js:67-72 | the display of a binary chunk is lossless: parsing it gives back the chunk |
| HexDisplay.RenderHexInjective | js/uart.js:67-72 | two different chunks never display alike |
| HexDisplay.ExamplePairs | js/uart.js:69-70 | the bytes 0x0A 0xFF map to the pairs "0a", "ff" |
| HexDisplay.ExampleJoined | js/uart.js:71 | "0a" and "ff" join to "0a ff" |
| HexDisplay.RenderHexExample | js/uart.js:67-72 | the chunk 0x0A 0xFF is displayed as "0a ff" |
| Notifications.Broadcast | js/uart.js:107-113 | `forEach` over a callback list invokes every callback once, with the event, in registration order |
| Notifications.BroadcastAfterRegister | js/uart.js:99-105 | a callback pushed later is invoked after every earlier one, and the earlier ones as before |
| Notifications.Deliver | js/uart.js:107-113 | the calls made by notifying events one after the other, each to the list of its kind; stated by `DeliverDispatches`, `DeliverAppend` and `DeliverOne` |
| Notifications.DeliverDispatches | js/uart.js:107-113 | every call made by a run of notifications hands one of the events to a callback registered for that event's kind |
| Notifications.DeliverAppend | js/uart.js:107-113 | notifying two runs of events one after the other makes the calls of both runs, in order |
| Notifications.DeliverTwo | js/uart.js:78-79 | two notifications one after the other are two broadcasts, each to the list of its kind, in order |
| Notifications.DeliverOne | js/uart.js:107-113 | one notification is one broadcast to the list of its kind |
| Uart.ConnectError | js/uart.js:12-31 | the error `connect` catches: none exactly when serial is supported and all four platform calls succeed, otherwise the first one thrown |
| Uart.Planned | js/uart.js:37-45 | the teardown calls `disconnect` would make: one per held handle (`cancel` for the reader, `release` for the writer, `close` for the port), as stated by `PlannedHandles`, in the order of `PlannedSteps` |
| Uart.PlannedHandles | js/uart.js:37-45 | each teardown call is planned exactly when its handle is held, and only once |
| Uart.Attempted | js/uart.js:36-47 | the teardown calls one `try` block makes: the plan up to and including the first throw; stated by `AttemptedIsPrefix`, `AttemptedFirst` and `TeardownTrace` |
| Uart.AttemptedIsPrefix | js/uart.js:36-47 | the teardown calls made are a prefix of the planned ones, non-empty when any is planned; all but the last succeeded; the last threw unless all planned calls were made |
| Uart.PlannedSteps | js/uart.js:37-45 | the planned teardown is `cancel` for a held reader, then `release` for a held writer, then `close` for a held port |
| Uart.AttemptedFirst | js/uart.js:36-47 | the first planned teardown call is made; the rest only if it did not throw |
| Uart.TeardownTrace | js/uart.js:36-47 | closed form of the teardown: a throwing `cancel` stops everything, a throwing `release` stops `close`; otherwise every held handle is torn down in order |
| Uart.AttemptedAllWhenNoneThrows | js/uart.js:36-45 | when no teardown call throws, every planned call is made |
| Uart.CancelThrowSkipsRest | js/uart.js:37-46 | a throwing `reader.cancel()` skips `release` and `close` whatever their outcomes |
| Uart.ReleaseThrowSkipsClose | js/uart.js:40-46 | a throwing `writer.release()` skips `close` |
| Uart.Display | js/uart.js:66-72 | what is forwarded for a chunk: the hex display (`RenderHex`) of a `Uint8Array`, any other value unchanged |
| Uart.Drain | js/uart.js:58-75 | the loop over the read results from one on: the display texts forwarded and the exit; stated by `DrainForwardsChunks`, `DrainStopsAtFirstNonChunk` and `DrainStep` |
| Uart.DrainForwardsChunks | js/uart.js:58-75 | the loop forwards, in order, the display text of the chunks received before the first other result; it stops at that result, or waits when the reads run out |
| Uart.DrainStep | js/uart.js:59-75 | forwarding one chunk moves it from what is left to forward to what was forwarded, and the exit is unchanged |
| Uart.DrainStopsAtFirstNonChunk | js/uart.js:58-75 | the number of chunks forwarded is the number received before the first end-of-stream or failed read, and that result decides the exit |
| Uart.ReadLoopRun | js/uart.js:58-75 | the whole loop: nothing when the port is gone or not readable, a failed read when the reader is null, otherwise `Drain` from the first read; stated by `ChunksForwardedInOrder`, `EndOfStreamIsQuiet` and `ReadErrorReportedOnce` |
| Uart.DataEvents | js/uart.js:74 | one data notification per forwarded text, in order, carrying that text |
| Uart.DataEventsSnoc | js/uart.js:74 | one more forwarded text adds one data notification at the end |
| Uart.LoopEvents | js/uart.js:74-80 | the notifications of a run: one per forwarded text, then, after a failed read, the error report and the disconnect's connection change; stated by `LoopCalls` and `ReadErrorReportedOnce` |
| Uart.ChunksForwardedInOrder | js/uart.js:56-75 | the first notifications of a read loop are those of its received chunks, in order, one each |
| Uart.EndOfStreamIsQuiet | js/uart.js:60-63 | after end of stream, the loop stops with no error report and no connection change, having forwarded every earlier chunk |
| Uart.ReadErrorReportedOnce | js/uart.js:76-80 | after a failed read, the forwarded chunks are followed by exactly one "Read error: " report with the error's message, then the disconnect's connection change |
| Uart.DeliverDataSnoc | js/uart.js:74 | one more forwarded text adds one data broadcast to the calls |
| Uart.LoopCalls | js/uart.js:56-80 | the calls of a read loop: its data broadcasts, then, after a failed read, the error broadcast to the data callbacks and the disconnect's broadcast to the connection callbacks |
| Uart.FailedRunCalls | js/uart.js:76-80 | after a failed read, the calls are the data broadcasts, then one error broadcast, then one connection-change broadcast |
| Uart.ChunkThenErrorCalls | js/uart.js:56-80 | a chunk 0x0A 0xFF followed by a failed read makes the calls "0a ff", the error report, and the connection change, in that order |
| Uart.UartManager.constructor | js/uart.js:2-9 | a new manager holds no port, reader or writer, has baud rate 9600 and no callbacks, and has made no calls |
| Uart.UartManager.IsConnected | js/uart.js:115-117 | a manager that is not connected holds no endpoint |
| Uart.UartManager.GetBaudRate | js/uart.js:119-121 | returns the baud rate of the last successful `connect`, 9600 before any; stated by `ReconnectAtDefaultRate` |
| Uart.UartManager.OnConnectionChange | js/uart.js:99-101 | the callback is appended to the connection callbacks |
| Uart.UartManager.OnDataReceived | js/uart.js:103-105 | the callback is appended to the data callbacks |
| Uart.UartManager.NotifyConnectionChange | js/uart.js:107-109 | each connection callback is invoked once with `(isConnected, error)`, in registration order |
| Uart.UartManager.NotifyDataReceived | js/uart.js:111-113 | each data callback is invoked once with the data, in registration order |
| Uart.UartManager.Connect | js/uart.js:11-33 | connect succeeds exactly when serial is supported and `requestPort`, `open`, `getWriter` and `getReader` all succeed. On success the port, writer, reader and baud rate are the new ones, and one `(true, null)` broadcast is made. On failure the first error is broadcast with `false`, the baud rate and reader are kept, and the port and writer are set as far as the steps got |
| Uart.UartManager.Disconnect | js/uart.js:35-54 | the teardown calls made are those of `Attempted`. Afterwards the port, reader and writer are null and the manager is not connected, whatever was thrown. Exactly one `(false, null)` broadcast is made |
| Uart.UartManager.ReadLoop | js/uart.js:56-81 | the calls are the delivery of the loop's notifications (`LoopEvents` of `ReadLoopRun`). After a failed read the manager is disconnected, and the returned teardown calls are those `disconnect` attempts for the handles held before the loop (`Attempted` of `Planned`). Otherwise port, reader and writer are unchanged and no teardown call is made |
| Uart.UartManager.ForwardChunks | js/uart.js:57-75 | the loop broadcasts the display text of each forwarded chunk, in order. It returns the error of a failed read exactly when the loop failed: a null reader or a throwing `read()` |
| Uart.UartManager.ReportReadError | js/uart.js:76-80 | the catch block broadcasts "Read error: " and the message to the data callbacks, then disconnects: port, reader and writer become null, one `(false, null)` broadcast is made, and the returned teardown calls are `Attempted` of `Planned` for the handles held before |
| Uart.UartManager.Send | js/uart.js:83-97 | without a writer, send throws "Not connected to UART device" and changes nothing. A successful write gives true and changes nothing. Neither of these makes a teardown call. A failed write gives false after a full disconnect, whose teardown calls (`Attempted` of `Planned` for the held reader, the writer and the held port) are returned |
| Uart.ConnectWithoutSerialSupport | js/uart.js:11-15 | `connect(115200)` without Web Serial returns false and leaves the manager disconnected. The one connection callback sees `(false, "Web Serial API not supported in this browser")` and nothing else |
| Uart.ReconnectAtDefaultRate | js/uart.js:11-22 | after `connect(115200)`, `disconnect()` and `connect()`, the baud rate is 115200 and then 9600 |
| Uart.FailedOpenKeepsPort | js/uart.js:17-20 | when `open` throws, `connect` returns false yet `isConnected()` is true, and `send` throws "Not connected to UART device" without a teardown call |
| Uart.FailedReopenKeepsOldEndpoints | js/uart.js:17-21 | a second `connect` whose `open` throws leaves the manager connected with the new port and the old reader and writer |
| Uart.ReadErrorAfterChunk | js/uart.js:11-80 | a connected manager whose reads bring 0x0A 0xFF and then an error ends disconnected. Its callbacks see, in order: the connect, "0a ff", the error report and the disconnect. The teardown goes over reader, writer and port, stopping at the first that throws |

## Left out

- `getAvailablePorts` (js/uart.js:123-131) is left out. It passes `navigator.serial.getPorts()` through and returns `[]` when that throws, with no logic of its own.
- The shared instance `uartManager` (js/uart.js:135) is left out. It is one `new UARTManager()`; see the constructor.
- The application around the manager (`main.js`, the page and its log view) is not part of this model.
- `console.error` logging is left out, because it has no effect on the manager's state or its callbacks.
- `reader.releaseLock()` at end of stream (js/uart.js:61) is taken to succeed: once the read is done none is pending, and it does not throw. If it threw, the `catch` would report a read error and disconnect; the model does not cover that path.
- The text encoding of `send` (`TextEncoder`) is left out. Only the outcome of the write is an input. The bytes written are not modelled, so the loopback round trip of a sent text is not stated.
- Callbacks that throw are left out. A callback is modelled as returning normally, and its invocation is recorded in `calls`.
- The second argument `'error'` that the read loop passes to `notifyDataReceived` is dropped, as the source drops it.
- Asynchronous interleaving is left out: each operation runs to completion before the next starts. In the source:
  - `connect` starts `readLoop()` without awaiting it. The model's `Connect` stops there, and `ReadLoop` is called separately with the results of the reads.
  - The read loop re-reads `serialPort` and `reader` on each iteration. Since nothing else runs in between, `ForwardChunks` reads them once.
  - `disconnect()` is not awaited in the read loop's catch block or in `send`; the model runs it to completion.
- `ForwardChunks`: the text a null reader throws is modelled as one fixed error, `NullReaderError`. The engine's exact `TypeError` message is not modelled.
- `Uart.UartManager.GetBaudRate` carries no contract of its own. What it returns is stated through `ReconnectAtDefaultRate`.
- A `ConnectEnv` whose port is not `readable` while `getReader` succeeds matches no real run, since `getReader` is called on that stream. The model does not rule such inputs out: with one, `Connect` succeeds and the read loop stops at once.
- When the reads given to `ReadLoop` run out, the last read is taken to never resolve. The loop then waits with no further effect, and later results are not modelled.

In four places the code does something other than what it evidently means to do. The model follows the code:

- `disconnect` runs its three teardown calls in one `try`. A throwing call skips the later ones, where a teardown with each call guarded on its own would attempt them all; see `CancelThrowSkipsRest` and `ReleaseThrowSkipsClose`. The `finally` block still clears the state and notifies once.
- A `connect` whose `open`, `getWriter` or `getReader` throws leaves `serialPort` set, so `isConnected()` answers true. When `open` or `getWriter` threw, the manager holds no new writer; when `getReader` threw, it holds the new writer and keeps its old reader. For a manager that held no endpoints before, the endpoints are then not held exactly when connected; see `Connect` and `FailedOpenKeepsPort`. A manager that was already connected keeps the old port's reader, and also its writer unless `getReader` threw, next to the new port; see `FailedReopenKeepsOldEndpoints`.
- `send` without a writer throws "Not connected to UART device" instead of returning false.
- `disconnect` calls `writer.release()`. A Web Serial writer offers `releaseLock()`, so in a browser this call would throw. The model takes its outcome as an input like the others.
