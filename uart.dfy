/** The connection manager of `js/uart.js` (`UARTManager`). Every platform
    call is an input outcome; every callback invocation is appended to an
    observable log. Operations run one at a time, each to completion. */
module Uart {

  import opened Wrappers
  import opened HexDisplay
  import opened Platform
  import opened Notifications

  const DefaultBaudRate := 9600

  const UnsupportedError := Error("Web Serial API not supported in this browser")

  const NotConnectedError := Error("Not connected to UART device")

  /** What `this.reader.read()` throws while the reader is null. */
  const NullReaderError := Error("Cannot read properties of null (reading 'read')")

  /** The read loop reports a failed read as this prefix and the error's message. */
  const ReadErrorPrefix := "Read error: "

  // ---------------------------------------------------------------- connect

  /** The error `connect` catches, if any: the first of its steps that throws. */
  function ConnectError(env: ConnectEnv): (failure: Option<Error>)
    ensures failure.None? <==> env.serialSupported && env.requestPort.Ok? && env.open.Ok?
                               && env.getWriter.Ok? && env.getReader.Ok?
  {
    if !env.serialSupported then Some(UnsupportedError)
    else if env.requestPort.Throws? then Some(env.requestPort.error)
    else if env.open.Throws? then Some(env.open.error)
    else if env.getWriter.Throws? then Some(env.getWriter.error)
    else if env.getReader.Throws? then Some(env.getReader.error)
    else None
  }

  // ------------------------------------------------------------- disconnect

  /** The three teardown calls of `disconnect`. */
  datatype TeardownStep = Cancel | Release | Close

  /** The teardown calls for the handles held, in the order `disconnect` makes them. */
  function Planned(hasReader: bool, hasWriter: bool, hasPort: bool): seq<TeardownStep> {
    (if hasReader then [Cancel] else [])
    + (if hasWriter then [Release] else [])
    + (if hasPort then [Close] else [])
  }

  /** Each teardown call is planned exactly when its handle is held, and at most once. */
  lemma PlannedHandles(hasReader: bool, hasWriter: bool, hasPort: bool)
    ensures var plan := Planned(hasReader, hasWriter, hasPort);
            && (Cancel in plan <==> hasReader) && (Release in plan <==> hasWriter) && (Close in plan <==> hasPort)
            && |plan| == (if hasReader then 1 else 0) + (if hasWriter then 1 else 0) + (if hasPort then 1 else 0)
  {
  }

  function StepOutcome(env: TeardownEnv, step: TeardownStep): Attempt<()> {
    match step
    case Cancel => env.cancel
    case Release => env.release
    case Close => env.close
  }

  /** The calls one `try` block makes: the plan in order, up to and including
      the first call that throws; the rest are skipped. */
  function Attempted(plan: seq<TeardownStep>, env: TeardownEnv): seq<TeardownStep> {
    if plan == [] then []
    else if StepOutcome(env, plan[0]).Throws? then [plan[0]]
    else [plan[0]] + Attempted(plan[1..], env)
  }

  /** The calls made are a non-empty prefix of a non-empty plan; all but the
      last succeeded, and the last threw unless the whole plan was carried out. */
  lemma {:induction false} AttemptedIsPrefix(plan: seq<TeardownStep>, env: TeardownEnv)
    ensures var tried := Attempted(plan, env);
            && |tried| <= |plan| && tried == plan[..|tried|]
            && (plan != [] ==> tried != [])
            && (forall i :: 0 <= i < |tried| - 1 ==> StepOutcome(env, tried[i]).Ok?)
            && (|tried| < |plan| ==> StepOutcome(env, tried[|tried| - 1]).Throws?)
  {
    if plan != [] && StepOutcome(env, plan[0]).Ok? {
      AttemptedIsPrefix(plan[1..], env);
      var rest := Attempted(plan[1..], env);
      assert Attempted(plan, env) == [plan[0]] + rest;
      assert [plan[0]] + plan[1..][..|rest|] == plan[..|rest| + 1];
      forall i | 0 <= i < |rest| ensures StepOutcome(env, ([plan[0]] + rest)[i]).Ok? {
        if i > 0 {
          assert ([plan[0]] + rest)[i] == rest[i - 1];
        }
      }
    }
  }

  /** The plan, one held handle at a time. */
  lemma PlannedSteps(hasWriter: bool, hasPort: bool)
    ensures Planned(true, hasWriter, hasPort) == [Cancel] + Planned(false, hasWriter, hasPort)
    ensures Planned(false, true, hasPort) == [Release] + Planned(false, false, hasPort)
    ensures Planned(false, false, true) == [Close] + []
    ensures Planned(false, false, false) == []
  {
    var c: seq<TeardownStep> := if hasPort then [Close] else [];
    var w: seq<TeardownStep> := if hasWriter then [Release] else [];
    assert [Cancel] + w + c == [Cancel] + ([] + w + c);
    assert [] + [Release] + c == [Release] + ([] + [] + c);
  }

  /** The teardown calls in closed form: a throwing `reader.cancel()` stops
      everything; a throwing `writer.release()` stops the port's `close()`;
      otherwise every held handle's call is made, in order. */
  lemma TeardownTrace(hasReader: bool, hasWriter: bool, hasPort: bool, env: TeardownEnv)
    ensures Attempted(Planned(hasReader, hasWriter, hasPort), env)
         == if hasReader && env.cancel.Throws? then [Cancel]
            else (if hasReader then [Cancel] else [])
                 + (if hasWriter && env.release.Throws? then [Release]
                    else (if hasWriter then [Release] else []) + (if hasPort then [Close] else []))
  {
    PlannedSteps(hasWriter, hasPort);
    if hasPort {
      AttemptedFirst(Close, [], env);
    }
    if hasWriter {
      AttemptedFirst(Release, Planned(false, false, hasPort), env);
    }
    if hasReader {
      AttemptedFirst(Cancel, Planned(false, hasWriter, hasPort), env);
    }
  }

  /** The first teardown call is made; the others only if it did not throw. */
  lemma AttemptedFirst(step: TeardownStep, rest: seq<TeardownStep>, env: TeardownEnv)
    ensures Attempted([step] + rest, env)
         == if StepOutcome(env, step).Throws? then [step] else [step] + Attempted(rest, env)
  {
    assert ([step] + rest)[0] == step;
    assert ([step] + rest)[1..] == rest;
  }

  /** When no teardown call throws, every held handle is torn down. */
  lemma AttemptedAllWhenNoneThrows(plan: seq<TeardownStep>, env: TeardownEnv)
    requires forall i :: 0 <= i < |plan| ==> StepOutcome(env, plan[i]).Ok?
    ensures Attempted(plan, env) == plan
  {
  }

  /** A throwing `reader.cancel()` skips releasing the writer and closing the
      port, whatever their outcomes would have been. */
  lemma CancelThrowSkipsRest(hasWriter: bool, hasPort: bool, env: TeardownEnv)
    requires env.cancel.Throws?
    ensures Attempted(Planned(true, hasWriter, hasPort), env) == [Cancel]
  {
  }

  /** A throwing `writer.release()` skips closing the port. */
  lemma ReleaseThrowSkipsClose(hasReader: bool, env: TeardownEnv)
    requires env.release.Throws? && (hasReader ==> env.cancel.Ok?)
    ensures Attempted(Planned(hasReader, true, true), env)
         == (if hasReader then [Cancel, Release] else [Release])
  {
    var plan := Planned(hasReader, true, true);
    if hasReader {
      assert plan == [Cancel, Release, Close];
      assert plan[1..] == [Release, Close];
    } else {
      assert plan == [Release, Close];
    }
  }

  // -------------------------------------------------------------- read loop

  /** Why the read loop stopped. */
  datatype LoopExit =
    | PortGone               // `serialPort` null, or without a readable stream
    | Pending                // the last read never resolves
    | Ended                  // end of stream
    | Failed(error: Error)   // a read threw

  /** What the loop forwarded, in order, and how it stopped. */
  datatype LoopRun = LoopRun(data: seq<string>, exit: LoopExit)

  /** What the loop forwards for one chunk: hex text for bytes, anything else as it is. */
  function Display(p: Payload): string {
    match p
    case Bytes(bytes) => RenderHex(bytes)
    case Text(text) => text
  }

  /** The exit a read result causes, if any. */
  function ExitFor(r: ReadResult): Option<LoopExit> {
    match r
    case Received(_) => None
    case StreamDone => Some(Ended)
    case ReadThrows(e) => Some(Failed(e))
  }

  /** The loop from read number `start` on, while the port stays readable and a
      reader is held: every chunk is forwarded until a read ends the stream,
      throws, or never resolves. */
  function Drain(results: seq<ReadResult>, start: nat): LoopRun
    requires start <= |results|
    decreases |results| - start
  {
    if start == |results| then LoopRun([], Pending)
    else
      match results[start]
      case StreamDone => LoopRun([], Ended)
      case ReadThrows(e) => LoopRun([], Failed(e))
      case Received(v) =>
        var rest := Drain(results, start + 1);
        LoopRun([Display(v)] + rest.data, rest.exit)
  }

  /** A run forwards the chunks of the reads from `start` on, in order, and stops
      at the first read that is not a chunk, or waits when the reads run out. */
  lemma {:induction false} DrainForwardsChunks(results: seq<ReadResult>, start: nat)
    requires start <= |results|
    ensures var run := Drain(results, start);
            && start + |run.data| <= |results|
            && (forall k :: start <= k < start + |run.data| ==>
                  results[k].Received? && run.data[k - start] == Display(results[k].value))
            && (start + |run.data| == |results| ==> run.exit == Pending)
            && (start + |run.data| < |results| ==> ExitFor(results[start + |run.data|]) == Some(run.exit))
    decreases |results| - start
  {
    if start < |results| && results[start].Received? {
      DrainForwardsChunks(results, start + 1);
      var rest := Drain(results, start + 1);
      var run := Drain(results, start);
      assert run.data == [Display(results[start].value)] + rest.data && run.exit == rest.exit;
      forall k | start < k < start + |run.data|
        ensures results[k].Received? && run.data[k - start] == Display(results[k].value)
      {
        assert run.data[k - start] == rest.data[k - (start + 1)];
      }
    }
  }

  /** The whole read loop, from the fields it finds and the results its reads get. */
  function ReadLoopRun(port: Option<Port>, reader: Option<Reader>, results: seq<ReadResult>): LoopRun {
    if port.None? || !port.value.readable then LoopRun([], PortGone)
    else if reader.None? then LoopRun([], Failed(NullReaderError))
    else Drain(results, 0)
  }

  /** One data notification per forwarded string. */
  function DataEvents(data: seq<string>): (events: seq<Event>)
    ensures |events| == |data|
    ensures forall k :: 0 <= k < |data| ==> events[k] == DataReceived(data[k])
  {
    if data == [] then [] else [DataReceived(data[0])] + DataEvents(data[1..])
  }

  /** One more string, one more data notification at the end. */
  lemma DataEventsSnoc(data: seq<string>, d: string)
    ensures DataEvents(data + [d]) == DataEvents(data) + [DataReceived(d)]
  {
    var events := DataEvents(data + [d]);
    assert events[|data|] == DataReceived((data + [d])[|data|]);
  }

  /** The notifications of a run: its data, then, after a failed read, the
      error report and the connection change of the disconnect that follows. */
  function LoopEvents(run: LoopRun): seq<Event> {
    DataEvents(run.data)
    + (if run.exit.Failed?
       then [DataReceived(ReadErrorPrefix + run.exit.error.message), ConnectionChange(false, None)]
       else [])
  }

  /** Chunks received before the stream stopped are forwarded one each, in order. */
  lemma ChunksForwardedInOrder(port: Option<Port>, reader: Option<Reader>, results: seq<ReadResult>)
    ensures var run := ReadLoopRun(port, reader, results);
            && |run.data| <= |results|
            && |LoopEvents(run)| >= |run.data|
            && forall k :: 0 <= k < |run.data| ==>
                 results[k].Received? && LoopEvents(run)[k] == DataReceived(Display(results[k].value))
  {
    var run := ReadLoopRun(port, reader, results);
    if run.data != [] {
      assert port.Some? && port.value.readable && reader.Some?;
      assert run == Drain(results, 0);
      DrainForwardsChunks(results, 0);
    }
  }

  /** The number of chunks a run forwards is the number received before the first other result. */
  lemma {:induction false} DrainStopsAtFirstNonChunk(results: seq<ReadResult>, start: nat, n: nat)
    requires start <= n < |results| && !results[n].Received?
    requires forall k :: start <= k < n ==> results[k].Received?
    ensures |Drain(results, start).data| == n - start
    ensures ExitFor(results[n]) == Some(Drain(results, start).exit)
    decreases n - start
  {
    if start < n {
      DrainStopsAtFirstNonChunk(results, start + 1, n);
    }
  }

  /** End of stream: the loop stops quietly, with no error report and no
      connection change after the forwarded chunks. */
  lemma EndOfStreamIsQuiet(port: Option<Port>, reader: Option<Reader>, results: seq<ReadResult>, n: nat)
    requires port.Some? && port.value.readable && reader.Some?
    requires n < |results| && results[n] == StreamDone
    requires forall k :: 0 <= k < n ==> results[k].Received?
    ensures var run := ReadLoopRun(port, reader, results);
            && run.exit == Ended
            && LoopEvents(run) == DataEvents(run.data)
            && |run.data| == n
  {
    DrainStopsAtFirstNonChunk(results, 0, n);
    var run := ReadLoopRun(port, reader, results);
    assert LoopEvents(run) == DataEvents(run.data) + [];
  }

  /** A failed read: after the forwarded chunks comes exactly one
      "Read error: " report, then the disconnect's connection change. */
  lemma ReadErrorReportedOnce(port: Option<Port>, reader: Option<Reader>, results: seq<ReadResult>, n: nat)
    requires port.Some? && port.value.readable && reader.Some?
    requires n < |results| && results[n].ReadThrows?
    requires forall k :: 0 <= k < n ==> results[k].Received?
    ensures var run := ReadLoopRun(port, reader, results);
            && run.exit == Failed(results[n].error)
            && |run.data| == n
            && LoopEvents(run) == DataEvents(run.data)
                 + [DataReceived(ReadErrorPrefix + results[n].error.message), ConnectionChange(false, None)]
  {
    DrainStopsAtFirstNonChunk(results, 0, n);
  }

  /** One more forwarded string adds one data broadcast to the calls. */
  lemma DeliverDataSnoc(connectionCallbacks: seq<CallbackId>, dataCallbacks: seq<CallbackId>, data: seq<string>, d: string)
    ensures Deliver(connectionCallbacks, dataCallbacks, DataEvents(data + [d]))
         == Deliver(connectionCallbacks, dataCallbacks, DataEvents(data)) + Broadcast(dataCallbacks, DataReceived(d))
  {
    DataEventsSnoc(data, d);
    DeliverAppend(connectionCallbacks, dataCallbacks, DataEvents(data), [DataReceived(d)]);
    DeliverOne(connectionCallbacks, dataCallbacks, DataReceived(d));
  }

  /** Forwarding chunk i moves it from the rest of the run to what was forwarded. */
  lemma {:induction false} DrainStep(results: seq<ReadResult>, i: nat, forwarded: seq<string>)
    requires i < |results| && results[i].Received?
    ensures forwarded + Drain(results, i).data
         == (forwarded + [Display(results[i].value)]) + Drain(results, i + 1).data
    ensures Drain(results, i).exit == Drain(results, i + 1).exit
  {
    var rest := Drain(results, i + 1).data;
    assert Drain(results, i).data == [Display(results[i].value)] + rest;
    assert forwarded + ([Display(results[i].value)] + rest) == (forwarded + [Display(results[i].value)]) + rest;
  }

  /** The calls a run's notifications make: its data broadcasts, then after a
      failed read the error broadcast and the connection-change broadcast. */
  lemma LoopCalls(connectionCallbacks: seq<CallbackId>, dataCallbacks: seq<CallbackId>, run: LoopRun)
    ensures Deliver(connectionCallbacks, dataCallbacks, LoopEvents(run))
         == if run.exit.Failed?
            then Deliver(connectionCallbacks, dataCallbacks, DataEvents(run.data))
                 + Broadcast(dataCallbacks, DataReceived(ReadErrorPrefix + run.exit.error.message))
                 + Broadcast(connectionCallbacks, ConnectionChange(false, None))
            else Deliver(connectionCallbacks, dataCallbacks, DataEvents(run.data))
  {
    if run.exit.Failed? {
      FailedRunCalls(connectionCallbacks, dataCallbacks, run);
    } else {
      assert LoopEvents(run) == DataEvents(run.data) + [];
      assert DataEvents(run.data) + [] == DataEvents(run.data);
    }
  }

  /** A failed run's report: one error broadcast, then one connection-change broadcast. */
  lemma FailedRunCalls(connectionCallbacks: seq<CallbackId>, dataCallbacks: seq<CallbackId>, run: LoopRun)
    requires run.exit.Failed?
    ensures Deliver(connectionCallbacks, dataCallbacks, LoopEvents(run))
         == Deliver(connectionCallbacks, dataCallbacks, DataEvents(run.data))
            + Broadcast(dataCallbacks, DataReceived(ReadErrorPrefix + run.exit.error.message))
            + Broadcast(connectionCallbacks, ConnectionChange(false, None))
  {
    var error := DataReceived(ReadErrorPrefix + run.exit.error.message);
    var change := ConnectionChange(false, None);
    assert LoopEvents(run) == DataEvents(run.data) + [error, change];
    DeliverAppend(connectionCallbacks, dataCallbacks, DataEvents(run.data), [error, change]);
    DeliverTwo(connectionCallbacks, dataCallbacks, error, change);
    AppendAssociates(Deliver(connectionCallbacks, dataCallbacks, DataEvents(run.data)),
                     Broadcast(dataCallbacks, error), Broadcast(connectionCallbacks, change));
  }

  lemma AppendAssociates<T>(a: seq<T>, b: seq<T>, c: seq<T>)
    ensures a + (b + c) == a + b + c
  {
  }

  // ---------------------------------------------------------------- manager

  class UartManager {
    var serialPort: Option<Port>
    var reader: Option<Reader>
    var writer: Option<Writer>
    var baudRate: int
    var connectionCallbacks: seq<CallbackId>
    var dataCallbacks: seq<CallbackId>
    /** Every callback invocation so far, oldest first. */
    var calls: seq<Call>

    /** The endpoints are only ever held together with the port. */
    ghost predicate Valid()
      reads this
    {
      && (reader.Some? ==> serialPort.Some?)
      && (writer.Some? ==> serialPort.Some?)
    }

    constructor ()
      ensures Valid()
      ensures serialPort == None && reader == None && writer == None
      ensures baudRate == DefaultBaudRate
      ensures connectionCallbacks == [] && dataCallbacks == [] && calls == []
    {
      serialPort, reader, writer := None, None, None;
      baudRate := DefaultBaudRate;
      connectionCallbacks, dataCallbacks := [], [];
      calls := [];
    }

    /** `isConnected()`: a port is held. Not being connected means holding no
        endpoint either; the converse does not hold (see FailedOpenKeepsPort). */
    function IsConnected(): (connected: bool)
      reads this
      ensures Valid() && !connected ==> reader.None? && writer.None?
    {
      serialPort.Some?
    }

    function GetBaudRate(): int
      reads this
    {
      baudRate
    }

    method OnConnectionChange(callback: CallbackId)
      modifies this`connectionCallbacks
      ensures connectionCallbacks == old(connectionCallbacks) + [callback]
    {
      connectionCallbacks := connectionCallbacks + [callback];
    }

    method OnDataReceived(callback: CallbackId)
      modifies this`dataCallbacks
      ensures dataCallbacks == old(dataCallbacks) + [callback]
    {
      dataCallbacks := dataCallbacks + [callback];
    }

    method NotifyConnectionChange(connected: bool, error: Option<Error> := None)
      modifies this`calls
      ensures calls == old(calls) + Broadcast(connectionCallbacks, ConnectionChange(connected, error))
    {
      var e := ConnectionChange(connected, error);
      var i := 0;
      while i < |connectionCallbacks|
        invariant i <= |connectionCallbacks|
        invariant calls == old(calls) + Broadcast(connectionCallbacks[..i], e)
      {
        BroadcastAfterRegister(connectionCallbacks[..i], connectionCallbacks[i], e);
        assert connectionCallbacks[..i + 1] == connectionCallbacks[..i] + [connectionCallbacks[i]];
        calls := calls + [Call(connectionCallbacks[i], e)];
        i := i + 1;
      }
      assert connectionCallbacks[..i] == connectionCallbacks;
    }

    /** Takes the data only: a second argument passed by a caller is dropped. */
    method NotifyDataReceived(data: string)
      modifies this`calls
      ensures calls == old(calls) + Broadcast(dataCallbacks, DataReceived(data))
    {
      var e := DataReceived(data);
      var i := 0;
      while i < |dataCallbacks|
        invariant i <= |dataCallbacks|
        invariant calls == old(calls) + Broadcast(dataCallbacks[..i], e)
      {
        BroadcastAfterRegister(dataCallbacks[..i], dataCallbacks[i], e);
        assert dataCallbacks[..i + 1] == dataCallbacks[..i] + [dataCallbacks[i]];
        calls := calls + [Call(dataCallbacks[i], e)];
        i := i + 1;
      }
      assert dataCallbacks[..i] == dataCallbacks;
    }

    /** `connect(baudRate = 9600)`. The read loop it starts runs only up to
        its first read before `connect` returns; call ReadLoop for the rest. */
    method Connect(env: ConnectEnv, baudRate: int := DefaultBaudRate) returns (ok: bool)
      requires Valid()
      modifies this`serialPort, this`reader, this`writer, this`baudRate, this`calls
      ensures Valid()
      ensures ok <==> env.serialSupported && env.requestPort.Ok? && env.open.Ok?
                      && env.getWriter.Ok? && env.getReader.Ok?
      ensures ok ==>
        && serialPort == Some(env.requestPort.value)
        && writer == Some(env.getWriter.value)
        && reader == Some(env.getReader.value)
        && this.baudRate == baudRate
        && calls == old(calls) + Broadcast(connectionCallbacks, ConnectionChange(true, None))
      ensures !ok ==>
        && ConnectError(env).Some?
        && calls == old(calls) + Broadcast(connectionCallbacks, ConnectionChange(false, ConnectError(env)))
        && this.baudRate == old(this.baudRate)
        && reader == old(reader)
        && serialPort == (if env.serialSupported && env.requestPort.Ok?
                          then Some(env.requestPort.value) else old(serialPort))
        && writer == (if env.serialSupported && env.requestPort.Ok? && env.open.Ok? && env.getWriter.Ok?
                      then Some(env.getWriter.value) else old(writer))
    {
      var failure: Option<Error> := None;
      if !env.serialSupported {
        failure := Some(UnsupportedError);
      } else if env.requestPort.Throws? {
        failure := Some(env.requestPort.error);
      } else {
        serialPort := Some(env.requestPort.value);
        if env.open.Throws? {
          failure := Some(env.open.error);
        } else if env.getWriter.Throws? {
          failure := Some(env.getWriter.error);
        } else {
          writer := Some(env.getWriter.value);
          if env.getReader.Throws? {
            failure := Some(env.getReader.error);
          } else {
            reader := Some(env.getReader.value);
            this.baudRate := baudRate;
            NotifyConnectionChange(true);
            return true;
          }
        }
      }
      NotifyConnectionChange(false, failure);
      return false;
    }

    /** `disconnect()`. Returns the teardown calls it made. */
    method Disconnect(env: TeardownEnv) returns (attempted: seq<TeardownStep>)
      modifies this`serialPort, this`reader, this`writer, this`calls
      ensures attempted == Attempted(Planned(old(reader).Some?, old(writer).Some?, old(serialPort).Some?), env)
      ensures serialPort == None && reader == None && writer == None
      ensures Valid() && !IsConnected()
      ensures calls == old(calls) + Broadcast(connectionCallbacks, ConnectionChange(false, None))
    {
      var hasReader, hasWriter, hasPort := reader.Some?, writer.Some?, serialPort.Some?;
      TeardownTrace(hasReader, hasWriter, hasPort, env);
      attempted := [];
      var threw := false;
      if hasReader {
        attempted := attempted + [Cancel];
        threw := env.cancel.Throws?;
      }
      if !threw && hasWriter {
        attempted := attempted + [Release];
        threw := env.release.Throws?;
      }
      if !threw && hasPort {
        attempted := attempted + [Close];
      }
      serialPort, reader, writer := None, None, None;
      NotifyConnectionChange(false);
    }

    /** `readLoop()`, over the results its successive reads get. Reads left
        over are never made; if the results run out, the last read never
        resolves and the loop waits without effect. */
    method ReadLoop(results: seq<ReadResult>, teardown: TeardownEnv) returns (attempted: seq<TeardownStep>)
      requires Valid()
      modifies this`serialPort, this`reader, this`writer, this`calls
      ensures Valid()
      ensures attempted == if ReadLoopRun(old(serialPort), old(reader), results).exit.Failed?
                           then Attempted(Planned(old(reader).Some?, old(writer).Some?, old(serialPort).Some?), teardown)
                           else []
      ensures calls == old(calls) + Deliver(connectionCallbacks, dataCallbacks, LoopEvents(ReadLoopRun(old(serialPort), old(reader), results)))
      ensures if ReadLoopRun(old(serialPort), old(reader), results).exit.Failed?
              then serialPort == None && reader == None && writer == None
              else serialPort == old(serialPort) && reader == old(reader) && writer == old(writer)
    {
      ghost var run := ReadLoopRun(serialPort, reader, results);
      var failure := ForwardChunks(results);
      LoopCalls(connectionCallbacks, dataCallbacks, run);
      attempted := [];
      if failure.Some? {
        ghost var data := Deliver(connectionCallbacks, dataCallbacks, DataEvents(run.data));
        ghost var report := Broadcast(dataCallbacks, DataReceived(ReadErrorPrefix + run.exit.error.message));
        ghost var change := Broadcast(connectionCallbacks, ConnectionChange(false, None));
        AppendAssociates(old(calls), data + report, change);
        AppendAssociates(old(calls), data, report);
        attempted := ReportReadError(failure.value, teardown);
      }
    }

    /** The `try` block of `readLoop()`: while the port is readable, read and
        forward one chunk at a time. Returns what the failed read threw, if a
        read failed. Nothing here changes the port or the reader, so the loop
        reads them once. */
    method ForwardChunks(results: seq<ReadResult>) returns (failure: Option<Error>)
      modifies this`calls
      ensures var run := ReadLoopRun(old(serialPort), old(reader), results);
              && calls == old(calls) + Deliver(connectionCallbacks, dataCallbacks, DataEvents(run.data))
              && (failure.Some? <==> run.exit.Failed?)
              && (failure.Some? ==> failure.value == run.exit.error)
    {
      var port, portReader := serialPort, reader;
      ghost var run := ReadLoopRun(port, portReader, results);
      ghost var live := port.Some? && port.value.readable && portReader.Some?;
      ghost var forwarded: seq<string> := [];
      ghost var delivered: seq<Call> := [];
      ghost var stop := PortGone;
      var i := 0;
      failure := None;
      while port.Some? && port.value.readable
        invariant !live ==> i == 0 && forwarded == []
        invariant live ==> i <= |results| && run == LoopRun(forwarded + Drain(results, i).data, Drain(results, i).exit)
        invariant delivered == Deliver(connectionCallbacks, dataCallbacks, DataEvents(forwarded))
        invariant calls == old(calls) + delivered
        invariant stop == PortGone && failure == None
        decreases |results| - i
      {
        if portReader.None? {
          failure, stop := Some(NullReaderError), Failed(NullReaderError);
          break;
        }
        if i == |results| {
          stop := Pending;
          assert run == LoopRun(forwarded + [], stop);
          break;
        }
        match results[i] {
          case StreamDone =>
            stop := Ended;
            assert run == LoopRun(forwarded + [], stop);
            break;
          case ReadThrows(e) =>
            failure, stop := Some(e), Failed(e);
            assert run == LoopRun(forwarded + [], stop);
            break;
          case Received(v) =>
            DrainStep(results, i, forwarded);
            ghost var added := Broadcast(dataCallbacks, DataReceived(Display(v)));
            DeliverDataSnoc(connectionCallbacks, dataCallbacks, forwarded, Display(v));
            AppendAssociates(old(calls), delivered, added);
            NotifyDataReceived(Display(v));
            forwarded, delivered := forwarded + [Display(v)], delivered + added;
            i := i + 1;
        }
      }
      assert run == LoopRun(forwarded, stop);
      assert failure == if stop.Failed? then Some(stop.error) else None;
    }

    /** The `catch` of `readLoop()`: report the error to the data callbacks, then disconnect. */
    method ReportReadError(error: Error, teardown: TeardownEnv) returns (attempted: seq<TeardownStep>)
      modifies this`serialPort, this`reader, this`writer, this`calls
      ensures attempted == Attempted(Planned(old(reader).Some?, old(writer).Some?, old(serialPort).Some?), teardown)
      ensures serialPort == None && reader == None && writer == None
      ensures calls == old(calls) + Broadcast(dataCallbacks, DataReceived(ReadErrorPrefix + error.message))
                                  + Broadcast(connectionCallbacks, ConnectionChange(false, None))
    {
      NotifyDataReceived(ReadErrorPrefix + error.message);
      attempted := Disconnect(teardown);
    }

    /** `send(data)`. The text's encoding is opaque: only the write's outcome matters. */
    method Send(data: string, write: Attempt<()>, teardown: TeardownEnv)
      returns (result: Attempt<bool>, attempted: seq<TeardownStep>)
      requires Valid()
      modifies this`serialPort, this`reader, this`writer, this`calls
      ensures Valid()
      ensures old(writer).None? ==>
        && result == Throws(NotConnectedError) && attempted == []
        && serialPort == old(serialPort) && reader == old(reader) && writer == old(writer)
        && calls == old(calls)
      ensures old(writer).Some? && write.Ok? ==>
        && result == Ok(true) && attempted == []
        && serialPort == old(serialPort) && reader == old(reader) && writer == old(writer)
        && calls == old(calls)
      ensures old(writer).Some? && write.Throws? ==>
        && result == Ok(false)
        && attempted == Attempted(Planned(old(reader).Some?, true, old(serialPort).Some?), teardown)
        && serialPort == None && reader == None && writer == None
        && calls == old(calls) + Broadcast(connectionCallbacks, ConnectionChange(false, None))
    {
      attempted := [];
      if writer.None? {
        return Throws(NotConnectedError), attempted;
      }
      if write.Ok? {
        return Ok(true), attempted;
      }
      attempted := Disconnect(teardown);
      return Ok(false), attempted;
    }
  }

  // -------------------------------------------------------------- scenarios

  /** Without Web Serial, `connect(115200)` reports the unsupported-browser
      error to the connection callbacks and leaves the manager disconnected. */
  method ConnectWithoutSerialSupport(env: ConnectEnv, callback: CallbackId)
    returns (ok: bool, connected: bool, observed: seq<Call>)
    requires !env.serialSupported
    ensures !ok && !connected
    ensures observed == [Call(callback, ConnectionChange(false, Some(UnsupportedError)))]
  {
    var manager := new UartManager();
    manager.OnConnectionChange(callback);
    ok := manager.Connect(env, 115200);
    connected := manager.IsConnected();
    observed := manager.calls;
  }

  /** The baud rate is the one of the last successful `connect`, and a
      `connect()` without one uses 9600 again. */
  method ReconnectAtDefaultRate(env: ConnectEnv, teardown: TeardownEnv)
    returns (first: int, second: int)
    requires ConnectError(env).None?
    ensures first == 115200 && second == DefaultBaudRate
  {
    var manager := new UartManager();
    var ok := manager.Connect(env, 115200);
    first := manager.GetBaudRate();
    var _ := manager.Disconnect(teardown);
    ok := manager.Connect(env);
    second := manager.GetBaudRate();
  }

  /** When `open()` throws, the port the user picked stays in `serialPort`:
      `isConnected()` answers true although there is no writer, so `send`
      throws "Not connected to UART device". */
  method FailedOpenKeepsPort(env: ConnectEnv, teardown: TeardownEnv)
    returns (ok: bool, connected: bool, sent: Attempt<bool>, tornDown: seq<TeardownStep>)
    requires env.serialSupported && env.requestPort.Ok? && env.open.Throws?
    ensures !ok && connected
    ensures sent == Throws(NotConnectedError) && tornDown == []
  {
    var manager := new UartManager();
    ok := manager.Connect(env);
    connected := manager.IsConnected();
    sent, tornDown := manager.Send("AT", Ok(()), teardown);
  }

  /** The run of the read loop below: it forwards "0a ff", then fails. */
  lemma ChunkThenErrorRun(port: Port, reader: Reader, error: Error)
    requires port.readable
    ensures var run := ReadLoopRun(Some(port), Some(reader), [Received(Bytes([0x0A, 0xFF])), ReadThrows(error)]);
            run == LoopRun(["0a ff"], Failed(error))
  {
    var results := [Received(Bytes([0x0A, 0xFF])), ReadThrows(error)];
    assert Drain(results, 1) == LoopRun([], Failed(error));
    assert Drain(results, 0) == LoopRun([Display(Bytes([0x0A, 0xFF]))], Failed(error));
    RenderHexExample([0x0A, 0xFF]);
  }

  /** The calls of the read loop below: the chunk "0a ff", then the error report. */
  lemma ChunkThenErrorCalls(port: Port, reader: Reader, error: Error, onConnection: CallbackId, onData: CallbackId)
    requires port.readable
    ensures var run := ReadLoopRun(Some(port), Some(reader), [Received(Bytes([0x0A, 0xFF])), ReadThrows(error)]);
            && run.exit == Failed(error)
            && [Call(onConnection, ConnectionChange(true, None))] + Deliver([onConnection], [onData], LoopEvents(run))
               == [Call(onConnection, ConnectionChange(true, None)),
                   Call(onData, DataReceived("0a ff")),
                   Call(onData, DataReceived(ReadErrorPrefix + error.message)),
                   Call(onConnection, ConnectionChange(false, None))]
  {
    var run := LoopRun(["0a ff"], Failed(error));
    ChunkThenErrorRun(port, reader, error);
    LoopCalls([onConnection], [onData], run);
    assert DataEvents(run.data) == [DataReceived("0a ff")];
    DeliverOne([onConnection], [onData], DataReceived("0a ff"));
    var chunk := Broadcast([onData], DataReceived("0a ff"));
    var report := Broadcast([onData], DataReceived(ReadErrorPrefix + error.message));
    var change := Broadcast([onConnection], ConnectionChange(false, None));
    assert chunk == [Call(onData, DataReceived("0a ff"))];
    assert report == [Call(onData, DataReceived(ReadErrorPrefix + error.message))];
    assert change == [Call(onConnection, ConnectionChange(false, None))];
    assert Deliver([onConnection], [onData], LoopEvents(run)) == chunk + report + change;
  }

  /** A connected manager whose first read brings the bytes 0x0A 0xFF and whose
      second read throws: the data callback sees "0a ff", then the error
      report; the connection callback sees the connect, then the disconnect;
      the teardown goes over reader, writer and port. */
  method ReadErrorAfterChunk(env: ConnectEnv, teardown: TeardownEnv, error: Error,
                             onConnection: CallbackId, onData: CallbackId)
    returns (connected: bool, observed: seq<Call>, tornDown: seq<TeardownStep>)
    requires ConnectError(env).None? && env.requestPort.value.readable
    ensures !connected
    ensures tornDown == Attempted([Cancel, Release, Close], teardown)
    ensures observed == [Call(onConnection, ConnectionChange(true, None)),
                         Call(onData, DataReceived("0a ff")),
                         Call(onData, DataReceived(ReadErrorPrefix + error.message)),
                         Call(onConnection, ConnectionChange(false, None))]
  {
    var manager := new UartManager();
    manager.OnConnectionChange(onConnection);
    manager.OnDataReceived(onData);
    var ok := manager.Connect(env);
    assert manager.serialPort == Some(env.requestPort.value) && manager.reader == Some(env.getReader.value);
    assert manager.calls == [Call(onConnection, ConnectionChange(true, None))];
    assert manager.connectionCallbacks == [onConnection] && manager.dataCallbacks == [onData];
    ChunkThenErrorCalls(env.requestPort.value, env.getReader.value, error, onConnection, onData);
    tornDown := manager.ReadLoop([Received(Bytes([0x0A, 0xFF])), ReadThrows(error)], teardown);
    assert Planned(true, true, true) == [Cancel, Release, Close];
    connected := manager.IsConnected();
    observed := manager.calls;
  }

  /** A second `connect` on a connected manager whose `open` throws (as when
      the user picks the port that is already open) replaces the port but
      keeps the old reader and writer: the manager is connected, holding the
      endpoints of another port. */
  method FailedReopenKeepsOldEndpoints(first: ConnectEnv, second: ConnectEnv)
    returns (ok: bool, connected: bool, port: Option<Port>, reader: Option<Reader>, writer: Option<Writer>)
    requires ConnectError(first).None?
    requires second.serialSupported && second.requestPort.Ok? && second.open.Throws?
    ensures !ok && connected
    ensures port == Some(second.requestPort.value)
    ensures reader == Some(first.getReader.value) && writer == Some(first.getWriter.value)
  {
    var manager := new UartManager();
    ok := manager.Connect(first);
    ok := manager.Connect(second);
    connected := manager.IsConnected();
    port, reader, writer := manager.serialPort, manager.reader, manager.writer;
  }
}
