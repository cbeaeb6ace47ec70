/**
 * The weather-station stream aggregator: `process_events` consumes station
 * events in order, keeps per-station high/low temperatures and the greatest
 * timestamp seen, and answers "snapshot" and "reset" control events.
 *
 * The behaviour is given twice: as a step function folded over the event
 * sequence (`Step`, `Run`, `Process`), and as the imperative loop over local
 * state that `process_events` runs (`ProcessEvents`), proved equal to the
 * fold.
 */
module Wrappers {
  datatype Option<+T> = None | Some(value: T)
}

module Weather {
  import opened Wrappers

  /** Running extremes of one station's temperatures. */
  datatype Stats = Stats(high: real, low: real)

  /**
   * An input event: a dictionary whose keys may be absent. `kind` is the
   * value under the key "type".
   */
  datatype Message = Message(
    kind: Option<string>,
    stationName: Option<string>,
    timestamp: Option<int>,
    temperature: Option<real>,
    command: Option<string>)

  /** An output record: a snapshot of all stations, or a reset acknowledgement. */
  datatype Output =
    | Snapshot(asOf: int, stations: seq<(string, Stats)>)
    | Reset(asOf: int)

  /** Why the stream stopped: a missing key, or an unrecognised discriminator. */
  datatype Error =
    | MissingField(key: string)
    | UnknownMessageType(kind: string)
    | UnknownCommand(command: string)

  /** The error raised by the event at position `index` of the input. */
  datatype Failure = Failure(index: nat, error: Error)

  datatype Result<+T> = Ok(value: T) | Err(error: Error)

  /**
   * The aggregator's state: `names` lists the keys of the station dictionary
   * in insertion order, `table` maps each to its statistics, and `current` is
   * the greatest timestamp seen since the last reset.
   */
  datatype State = State(names: seq<string>, table: map<string, Stats>, current: Option<int>)

  /** Output of one step: the new state and at most one output record. */
  type StepResult = (State, Option<Output>)

  /** Everything that happened on a prefix of the input. */
  datatype Trace = Trace(state: State, outputs: seq<Output>, failure: Option<Failure>)

  const Init: State := State([], map[], None)

  function Max(a: int, b: int): int { if a < b then b else a }

  function MaxReal(a: real, b: real): real { if a < b then b else a }

  function MinReal(a: real, b: real): real { if b < a then b else a }

  /**
   * The representation invariant: the order list and the dictionary hold the
   * same distinct stations, there are stations exactly when a timestamp is
   * set, and every station's low is at most its high.
   */
  ghost predicate WellFormed(s: State) {
    && (forall i, j :: 0 <= i < j < |s.names| ==> s.names[i] != s.names[j])
    && (forall n :: n in s.table <==> n in s.names)
    && (s.current.None? <==> s.names == [])
    && (forall n :: n in s.table ==> s.table[n].low <= s.table[n].high)
  }

  /**
   * The dictionary's items, as a snapshot copies them: every station once,
   * in insertion order, with its entry.
   */
  function Items(s: State): (r: seq<(string, Stats)>)
    requires WellFormed(s)
    ensures |r| == |s.names|
    ensures forall i :: 0 <= i < |r| ==> r[i].0 == s.names[i] && r[i].0 in s.table && r[i].1 == s.table[r[i].0]
    ensures forall i, j :: 0 <= i < j < |r| ==> r[i].0 != r[j].0
  {
    seq(|s.names|, i requires 0 <= i < |s.names| => (s.names[i], s.table[s.names[i]]))
  }

  /**
   * The text of the exception raised for `e`. It ends with the offending
   * key (quoted) or value, after a prefix that tells the kinds apart.
   */
  function ErrorText(e: Error): (r: string)
    ensures e.MissingField? ==> |r| == |e.key| + 2 && r[0] == r[|r| - 1] == '\'' && r[1..|r| - 1] == e.key
    ensures e.UnknownMessageType? ==> |r| >= 22 && r[..22] == "Unknown message type: " && r[22..] == e.kind
    ensures e.UnknownCommand? ==> |r| >= 17 && r[..17] == "Unknown command: " && r[17..] == e.command
  {
    match e
    case MissingField(key) => "'" + key + "'"
    case UnknownMessageType(kind) => "Unknown message type: " + kind
    case UnknownCommand(command) => "Unknown command: " + command
  }

  /** A well-formed sample: raise the running timestamp and widen the station's range. */
  function Observe(s: State, name: string, timestamp: int, temperature: real): (r: State)
    requires WellFormed(s)
    ensures WellFormed(r)
    ensures r.current.Some? && timestamp <= r.current.value
    ensures s.current.Some? ==> s.current.value <= r.current.value
    ensures name in r.table && r.table[name].low <= temperature <= r.table[name].high
    ensures forall n :: n in s.table ==>
      n in r.table && r.table[n].low <= s.table[n].low && s.table[n].high <= r.table[n].high
    ensures forall n :: n in r.table && n != name ==> n in s.table && r.table[n] == s.table[n]
  {
    var current := if s.current.Some? then Max(s.current.value, timestamp) else timestamp;
    if name !in s.table then
      State(s.names + [name], s.table[name := Stats(temperature, temperature)], Some(current))
    else
      var prev := s.table[name];
      State(s.names, s.table[name := Stats(MaxReal(prev.high, temperature), MinReal(prev.low, temperature))], Some(current))
  }

  /**
   * One iteration of the source's loop: the new state and the record it
   * yields, or the error it raises.
   */
  function Step(s: State, m: Message): (r: Result<StepResult>)
    requires WellFormed(s)
    ensures r.Ok? ==> WellFormed(r.value.0)
    ensures r.Ok? && r.value.1.Some? ==>
      m.kind == Some("control") && s.current.Some? && r.value.1.value.asOf == s.current.value
    ensures r.Ok? && m.kind != Some("sample") && m.command != Some("reset") ==> r.value.0 == s
  {
    match m.kind
    case None => Err(MissingField("type"))
    case Some(kind) =>
      if kind == "sample" then
        if m.stationName.None? then Err(MissingField("stationName"))
        else if m.timestamp.None? then Err(MissingField("timestamp"))
        else if m.temperature.None? then Err(MissingField("temperature"))
        else Ok((Observe(s, m.stationName.value, m.timestamp.value, m.temperature.value), None))
      else if kind == "control" then
        if s.current.None? then Ok((s, None))
        else if m.command.None? then Err(MissingField("command"))
        else if m.command.value == "snapshot" then Ok((s, Some(Snapshot(s.current.value, Items(s)))))
        else if m.command.value == "reset" then Ok((Init, Some(Reset(s.current.value))))
        else Err(UnknownCommand(m.command.value))
      else Err(UnknownMessageType(kind))
  }

  /**
   * One turn of the loop on the record of what happened so far: nothing
   * more happens after a failure.
   */
  function Advance(t: Trace, m: Message, index: nat): (r: Trace)
    requires WellFormed(t.state)
    ensures WellFormed(r.state)
    ensures |t.outputs| <= |r.outputs| <= |t.outputs| + 1 && r.outputs[..|t.outputs|] == t.outputs
    ensures t.failure.Some? ==> r == t
    ensures r.failure.Some? ==> r.outputs == t.outputs && r.state == t.state
    ensures t.failure.None? && r.failure.Some? ==> r.failure.value.index == index
  {
    if t.failure.Some? then t
    else
      match Step(t.state, m)
      case Err(e) => Trace(t.state, t.outputs, Some(Failure(index, e)))
      case Ok(next) =>
        Trace(next.0, t.outputs + (if next.1.Some? then [next.1.value] else []), None)
  }

  /**
   * The loop folded over `events`, last event outermost: the final state,
   * every record yielded, and the failure that stopped the stream, if any.
   */
  function Run(events: seq<Message>): (t: Trace)
    ensures WellFormed(t.state)
    ensures |t.outputs| <= |events|
    ensures t.failure.Some? ==> t.failure.value.index < |events|
  {
    if events == [] then Trace(Init, [], None)
    else Advance(Run(events[..|events| - 1]), events[|events| - 1], |events| - 1)
  }

  /** What a consumer of `process_events` sees: the records, then possibly an exception. */
  function Process(events: seq<Message>): (seq<Output>, Option<Failure>) {
    (Run(events).outputs, Run(events).failure)
  }

  /** A successful turn of the loop at position `i` extends the trace of the prefix. */
  lemma RunTurn(events: seq<Message>, i: nat, next: StepResult)
    requires i < |events| && Run(events[..i]).failure.None?
    requires Step(Run(events[..i]).state, events[i]) == Ok(next)
    ensures Run(events[..i + 1]) ==
      Trace(next.0, Run(events[..i]).outputs + (if next.1.Some? then [next.1.value] else []), None)
  {
    assert events[..i + 1][..i] == events[..i];
  }

  /** A failing turn of the loop at position `i` ends the stream with that error. */
  lemma {:induction false} RunTurnFails(events: seq<Message>, i: nat, e: Error)
    requires i < |events| && Run(events[..i]).failure.None?
    requires Step(Run(events[..i]).state, events[i]) == Err(e)
    ensures Run(events) == Trace(Run(events[..i]).state, Run(events[..i]).outputs, Some(Failure(i, e)))
  {
    assert events[..i + 1][..i] == events[..i];
    FailureIsFinal(events, i + 1);
  }

  /** Once an event has failed, later events change nothing. */
  lemma {:induction false} FailureIsFinal(events: seq<Message>, k: nat)
    requires k <= |events|
    requires Run(events[..k]).failure.Some?
    ensures Run(events) == Run(events[..k])
    decreases |events|
  {
    if k < |events| {
      var prefix := events[..|events| - 1];
      assert prefix[..k] == events[..k];
      FailureIsFinal(prefix, k);
    } else {
      assert events[..k] == events;
    }
  }

  /**
   * The generator's two local variables: the station dictionary, as its key
   * order `stationNames` and its entries `stationTemperatures`, and the
   * running timestamp. `Handle` is one pass of the loop body.
   */
  class Aggregator {
    var stationNames: seq<string>
    var stationTemperatures: map<string, Stats>
    var currentTimestamp: Option<int>

    /** The value of the local state. */
    function Current(): State
      reads this
    {
      State(stationNames, stationTemperatures, currentTimestamp)
    }

    ghost predicate Valid()
      reads this
    {
      WellFormed(Current())
    }

    constructor ()
      ensures Valid() && Current() == Init
    {
      stationNames, stationTemperatures, currentTimestamp := [], map[], None;
    }

    /**
     * Handles one message: updates the state and returns the record to
     * yield, or returns the error to raise, leaving the state as it was.
     */
    method Handle(message: Message) returns (output: Option<Output>, error: Option<Error>)
      requires Valid()
      modifies this
      ensures Valid()
      ensures error.Some? ==>
        Step(old(Current()), message) == Err(error.value) && Current() == old(Current()) && output.None?
      ensures error.None? ==> Step(old(Current()), message) == Ok((Current(), output))
    {
      output, error := None, None;
      if message.kind.None? {
        error := Some(MissingField("type"));
      } else if message.kind.value == "sample" {
        if message.stationName.None? {
          error := Some(MissingField("stationName"));
        } else if message.timestamp.None? {
          error := Some(MissingField("timestamp"));
        } else if message.temperature.None? {
          error := Some(MissingField("temperature"));
        } else {
          var stationName := message.stationName.value;
          var timestamp := message.timestamp.value;
          var temperature := message.temperature.value;
          currentTimestamp := if currentTimestamp.Some?
            then Some(Max(currentTimestamp.value, timestamp))
            else Some(timestamp);
          if stationName !in stationTemperatures {
            stationNames := stationNames + [stationName];
            stationTemperatures := stationTemperatures[stationName := Stats(temperature, temperature)];
          } else {
            var data := stationTemperatures[stationName];
            stationTemperatures := stationTemperatures[stationName :=
              Stats(MaxReal(data.high, temperature), MinReal(data.low, temperature))];
          }
        }
      } else if message.kind.value == "control" {
        if currentTimestamp.None? {
          // a control event before any sample is skipped
        } else if message.command.None? {
          error := Some(MissingField("command"));
        } else if message.command.value == "snapshot" {
          output := Some(Snapshot(currentTimestamp.value, Items(Current())));
        } else if message.command.value == "reset" {
          output := Some(Reset(currentTimestamp.value));
          stationNames, stationTemperatures, currentTimestamp := [], map[], None;
        } else {
          error := Some(UnknownCommand(message.command.value));
        }
      } else {
        error := Some(UnknownMessageType(message.kind.value));
      }
    }
  }

  /**
   * `process_events`: handles the events in order, collecting what they
   * yield, and stops at the first event that raises.
   */
  method ProcessEvents(events: seq<Message>) returns (outputs: seq<Output>, failure: Option<Failure>)
    ensures (outputs, failure) == Process(events)
  {
    var aggregator := new Aggregator();
    outputs, failure := [], None;
    var i := 0;
    while i < |events|
      invariant i <= |events|
      invariant aggregator.Valid()
      invariant Run(events[..i]) == Trace(aggregator.Current(), outputs, None)
    {
      var output, error := aggregator.Handle(events[i]);
      if error.Some? {
        RunTurnFails(events, i, error.value);
        failure := Some(Failure(i, error.value));
        return;
      }
      RunTurn(events, i, (aggregator.Current(), output));
      if output.Some? {
        outputs := outputs + [output.value];
      }
      i := i + 1;
    }
    assert events[..i] == events;
  }
}
