/** The browser's serial capability, reduced to what the connection manager
    observes of it: every call either returns (a handle, or nothing) or throws. */
module Platform {

  /** An element of a received `Uint8Array`. */
  newtype byte = x: int | 0 <= x < 256

  /** A thrown error; only its message is observable. */
  datatype Error = Error(message: string)

  /** The outcome of one platform call. */
  datatype Attempt<+T> = Ok(value: T) | Throws(error: Error)

  /** A serial port the user picked. `readable` is whether its `readable`
      stream is present when the read loop runs. `getReader` is called on that
      stream, so an input where `readable` is false yet `getReader` succeeds
      matches no real run. */
  datatype Port = Port(id: nat, readable: bool)

  /** The reader locked on a port's readable stream. */
  datatype Reader = Reader(id: nat)

  /** The writer locked on a port's writable stream. */
  datatype Writer = Writer(id: nat)

  /** What one `read()` delivers: a `Uint8Array` chunk or any other value
      (forwarded as text). */
  datatype Payload = Bytes(bytes: seq<byte>) | Text(text: string)

  /** How one `await this.reader.read()` resolves. */
  datatype ReadResult =
    | Received(value: Payload)   // `{ value, done: false }`
    | StreamDone                 // `{ done: true }`
    | ReadThrows(error: Error)   // the promise rejects

  /** Outcomes of the platform calls `connect` makes, in the order it makes them. */
  datatype ConnectEnv = ConnectEnv(
    serialSupported: bool,       // `navigator.serial` is present
    requestPort: Attempt<Port>,
    open: Attempt<()>,
    getWriter: Attempt<Writer>,
    getReader: Attempt<Reader>)

  /** Outcomes of the three teardown calls of `disconnect`. */
  datatype TeardownEnv = TeardownEnv(
    cancel: Attempt<()>,         // `reader.cancel()`
    release: Attempt<()>,        // `writer.release()`
    close: Attempt<()>)          // `serialPort.close()`
}
