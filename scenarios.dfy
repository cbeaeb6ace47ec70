/**
 * The behaviour the repository's tests expect, stated as lemmas about
 * `Process` on concrete event streams. Each stream is checked by
 * replaying it from the front with `Replays` and then transferring the
 * result to `Run` with `ReplayRun`.
 */
module WeatherScenarios {
  import opened Wrappers
  import opened Weather
  import opened WeatherProperties

  /** A well-formed sample event. */
  function Sample(station: string, timestamp: int, temperature: real): (m: Message)
    ensures IsSample(m) && ReadingOf(m) == Reading(station, timestamp, temperature)
  {
    Message(Some("sample"), Some(station), Some(timestamp), Some(temperature), None)
  }

  /** A control event carrying a command. */
  function Control(command: string): (m: Message)
    ensures m.kind == Some("control") && m.command == Some(command)
  {
    Message(Some("control"), None, None, None, Some(command))
  }

  /** The records one step yields, as a sequence. */
  function Emitted(o: Option<Output>): (r: seq<Output>)
    ensures o.None? ==> r == []
    ensures o.Some? ==> r == [o.value]
  {
    if o.Some? then [o.value] else []
  }

  /**
   * Stepping through `events` from `s`, front to back, succeeds at every
   * event, yields exactly `outs` and ends in `final`.
   */
  ghost predicate Replays(s: State, events: seq<Message>, outs: seq<Output>, final: State)
    decreases |events|
  {
    && WellFormed(s)
    && if events == [] then outs == [] && final == s
       else
         match Step(s, events[0])
         case Err(_) => false
         case Ok(next) =>
           var o := Emitted(next.1);
           |o| <= |outs| && outs[..|o|] == o && Replays(next.0, events[1..], outs[|o|..], final)
  }

  /**
   * A replay from the state a stream has reached continues that stream:
   * the run of the whole ends in the replay's final state, with the
   * replay's records appended and no failure.
   */
  lemma {:induction false} ReplayRun(pre: seq<Message>, post: seq<Message>, outs: seq<Output>, final: State)
    requires Run(pre).failure.None? && Replays(Run(pre).state, post, outs, final)
    ensures Run(pre + post).state == final
    ensures Run(pre + post).outputs == Run(pre).outputs + outs
    ensures Run(pre + post).failure.None?
    decreases |post|
  {
    if post == [] {
      ReplayEnd(pre, post, outs, final);
    } else {
      var m, rest := SplitFirst(pre, post);
      var o := ReplayFirst(pre, m, rest, outs, final);
      ReplayRun(pre + [m], rest, outs[|o|..], final);
      ReplayGlue(Run(pre).outputs, o, outs, Run(pre + [m]).outputs, Run(pre + post).outputs);
    }
  }

  lemma ReplayEnd(pre: seq<Message>, post: seq<Message>, outs: seq<Output>, final: State)
    requires post == [] && Replays(Run(pre).state, post, outs, final)
    ensures Run(pre + post).state == final
    ensures Run(pre + post).outputs == Run(pre).outputs + outs
    ensures Run(pre + post).failure == Run(pre).failure
  {
    assert pre + post == pre;
    assert Run(pre).outputs + [] == Run(pre).outputs;
  }

  lemma SplitFirst(pre: seq<Message>, post: seq<Message>) returns (m: Message, rest: seq<Message>)
    requires post != []
    ensures post == [m] + rest && pre + post == (pre + [m]) + rest && m == post[0] && rest == post[1..]
  {
    m, rest := post[0], post[1..];
    assert pre + post == (pre + [m]) + rest;
  }

  lemma ReplayFirst(pre: seq<Message>, m: Message, rest: seq<Message>, outs: seq<Output>, final: State)
    returns (o: seq<Output>)
    requires Run(pre).failure.None? && Replays(Run(pre).state, [m] + rest, outs, final)
    ensures |o| <= |outs| && outs[..|o|] == o
    ensures Run(pre + [m]).failure.None?
    ensures Run(pre + [m]).outputs == Run(pre).outputs + o
    ensures Replays(Run(pre + [m]).state, rest, outs[|o|..], final)
  {
    var next := Step(Run(pre).state, m).value;
    o := Emitted(next.1);
    assert ([m] + rest)[1..] == rest;
    RunSnoc(pre, m);
  }

  lemma ReplayGlue(before: seq<Output>, o: seq<Output>, outs: seq<Output>, mid: seq<Output>, after: seq<Output>)
    requires |o| <= |outs| && outs[..|o|] == o
    requires mid == before + o && after == mid + outs[|o|..]
    ensures after == before + outs
  {
    assert outs == o + outs[|o|..];
  }

  // One replayed event of each kind, in front of a replay.

  lemma ReplayNothing(s: State)
    requires WellFormed(s)
    ensures Replays(s, [], [], s)
  {
  }

  lemma ReplaySample(s: State, events: seq<Message>, outs: seq<Output>, final: State)
    requires WellFormed(s) && events != [] && IsSample(events[0])
    requires Replays(Observe(s, events[0].stationName.value, events[0].timestamp.value, events[0].temperature.value),
                     events[1..], outs, final)
    ensures Replays(s, events, outs, final)
  {
    assert outs[0..] == outs;
  }

  lemma ReplaySampleOf(s: State, station: string, timestamp: int, temperature: real, next: State,
                       events: seq<Message>, outs: seq<Output>, final: State)
    requires WellFormed(s) && events != [] && events[0] == Sample(station, timestamp, temperature)
    requires Observe(s, station, timestamp, temperature) == next && Replays(next, events[1..], outs, final)
    ensures Replays(s, events, outs, final)
  {
    ReplaySample(s, events, outs, final);
  }

  lemma ReplaySnapshot(s: State, events: seq<Message>, outs: seq<Output>, final: State)
    requires WellFormed(s) && s.current.Some? && events != [] && events[0] == Control("snapshot")
    requires outs != [] && outs[0] == Snapshot(s.current.value, Items(s))
    requires Replays(s, events[1..], outs[1..], final)
    ensures Replays(s, events, outs, final)
  {
    assert outs[..1] == [outs[0]];
  }

  lemma ReplayReset(s: State, events: seq<Message>, outs: seq<Output>, final: State)
    requires WellFormed(s) && s.current.Some? && events != [] && events[0] == Control("reset")
    requires outs != [] && outs[0] == Reset(s.current.value)
    requires Replays(Init, events[1..], outs[1..], final)
    ensures Replays(s, events, outs, final)
  {
    assert outs[..1] == [outs[0]];
  }

  /** A whole stream replayed from the empty state is what `Process` returns. */
  lemma ReplayProcess(events: seq<Message>, outs: seq<Output>, final: State)
    requires Replays(Init, events, outs, final)
    ensures Process(events) == (outs, None)
  {
    var none: seq<Message> := [];
    assert Run(none) == Trace(Init, [], None);
    ReplayRun(none, events, outs, final);
    assert none + events == events;
    assert [] + outs == outs;
  }

  // ---------------------------------------------------------------------
  // The repository's test cases. The longer streams are proved in several
  // lemmas, one or two events each: evaluating a whole literal stream in a
  // single proof is more than the verifier can do within its resource limit.

  lemma SnapshotWithSamples()
    ensures Process([Sample("Station1", 100, 25.5), Sample("Station1", 200, 30.0), Control("snapshot")])
      == ([Snapshot(200, [("Station1", Stats(30.0, 25.5))])], None)
  {
    var events := [Sample("Station1", 100, 25.5), Sample("Station1", 200, 30.0), Control("snapshot")];
    var s1 := State(["Station1"], map["Station1" := Stats(25.5, 25.5)], Some(100));
    var s2 := State(["Station1"], map["Station1" := Stats(30.0, 25.5)], Some(200));
    var out := [Snapshot(200, [("Station1", Stats(30.0, 25.5))])];
    assert Observe(Init, "Station1", 100, 25.5) == s1;
    assert Observe(s1, "Station1", 200, 30.0) == s2;
    assert Items(s2) == out[0].stations;
    ReplayNothing(s2);
    ReplaySnapshot(s2, events[2..], out, s2);
    ReplaySample(s1, events[1..], out, s2);
    ReplaySample(Init, events, out, s2);
    ReplayProcess(events, out, s2);
  }

  lemma EmptyStream()
    ensures Process([]) == ([], None)
  {
  }

  lemma SingleSample()
    ensures Process([Sample("Station1", 100, 25.5)]) == ([], None)
  {
    SamplesYieldNothing([Sample("Station1", 100, 25.5)]);
  }

  lemma SnapshotWithoutSamples()
    ensures Process([Control("snapshot")]) == ([], None)
  {
    ReplayNothing(Init);
    assert Replays(Init, [Control("snapshot")], [], Init) by {
      assert [Control("snapshot")][1..] == [];
    }
    ReplayProcess([Control("snapshot")], [], Init);
  }

  lemma InvalidMessageType()
    ensures var invalid := Message(Some("invalid"), None, None, None, None);
      && Process([invalid]) == ([], Some(Failure(0, UnknownMessageType("invalid"))))
      && ErrorText(UnknownMessageType("invalid")) == "Unknown message type: invalid"
  {
    var invalid := Message(Some("invalid"), None, None, None, None);
    FailureEndsStream([], invalid, []);
    assert [] + [invalid] + [] == [invalid];
  }

  lemma MissingFields()
    ensures Process([Message(Some("sample"), None, None, None, None)]).1
      == Some(Failure(0, MissingField("stationName")))
  {
    var bare := Message(Some("sample"), None, None, None, None);
    FailureEndsStream([], bare, []);
    assert [] + [bare] + [] == [bare];
  }

  lemma TimestampOrdering()
    ensures Process([Sample("Station1", 300, 25.5), Sample("Station1", 100, 30.0), Control("snapshot")])
      == ([Snapshot(300, [("Station1", Stats(30.0, 25.5))])], None)
  {
    var events := [Sample("Station1", 300, 25.5), Sample("Station1", 100, 30.0), Control("snapshot")];
    var s1 := State(["Station1"], map["Station1" := Stats(25.5, 25.5)], Some(300));
    var s2 := State(["Station1"], map["Station1" := Stats(30.0, 25.5)], Some(300));
    var out := [Snapshot(300, [("Station1", Stats(30.0, 25.5))])];
    assert Observe(Init, "Station1", 300, 25.5) == s1;
    assert Observe(s1, "Station1", 100, 30.0) == s2;
    assert Items(s2) == out[0].stations;
    ReplayNothing(s2);
    ReplaySnapshot(s2, events[2..], out, s2);
    ReplaySample(s1, events[1..], out, s2);
    ReplaySample(Init, events, out, s2);
    ReplayProcess(events, out, s2);
  }

  // The four-event stream with two stations: the state after each sample is
  // computed in its own lemma, and the replay is done in two halves.

  lemma MultiStep1()
    ensures Observe(Init, "Station1", 100, 25.5) == State(["Station1"], map["Station1" := Stats(25.5, 25.5)], Some(100))
  {
  }

  lemma MultiStep2()
    ensures Observe(State(["Station1"], map["Station1" := Stats(25.5, 25.5)], Some(100)), "Station2", 150, 20.0)
      == State(["Station1", "Station2"], map["Station1" := Stats(25.5, 25.5), "Station2" := Stats(20.0, 20.0)], Some(150))
  {
  }

  lemma MultiStep3()
    ensures Observe(State(["Station1", "Station2"], map["Station1" := Stats(25.5, 25.5), "Station2" := Stats(20.0, 20.0)], Some(150)),
                    "Station1", 200, 30.0)
      == State(["Station1", "Station2"], map["Station1" := Stats(30.0, 25.5), "Station2" := Stats(20.0, 20.0)], Some(200))
  {
  }

  lemma MultiStep4()
    ensures Items(State(["Station1", "Station2"], map["Station1" := Stats(30.0, 25.5), "Station2" := Stats(20.0, 20.0)], Some(200)))
      == [("Station1", Stats(30.0, 25.5)), ("Station2", Stats(20.0, 20.0))]
  {
  }

  lemma MultipleStations()
    ensures Process([Sample("Station1", 100, 25.5), Sample("Station2", 150, 20.0),
                     Sample("Station1", 200, 30.0), Control("snapshot")])
      == ([Snapshot(200, [("Station1", Stats(30.0, 25.5)), ("Station2", Stats(20.0, 20.0))])], None)
  {
    MultiReplay();
    ReplayProcess([Sample("Station1", 100, 25.5), Sample("Station2", 150, 20.0),
                   Sample("Station1", 200, 30.0), Control("snapshot")],
      [Snapshot(200, [("Station1", Stats(30.0, 25.5)), ("Station2", Stats(20.0, 20.0))])],
      State(["Station1", "Station2"], map["Station1" := Stats(30.0, 25.5), "Station2" := Stats(20.0, 20.0)], Some(200)));
  }

  lemma MultiReplay()
    ensures Replays(Init,
      [Sample("Station1", 100, 25.5), Sample("Station2", 150, 20.0), Sample("Station1", 200, 30.0), Control("snapshot")],
      [Snapshot(200, [("Station1", Stats(30.0, 25.5)), ("Station2", Stats(20.0, 20.0))])],
      State(["Station1", "Station2"], map["Station1" := Stats(30.0, 25.5), "Station2" := Stats(20.0, 20.0)], Some(200)))
  {
    var events := [Sample("Station1", 100, 25.5), Sample("Station2", 150, 20.0), Sample("Station1", 200, 30.0), Control("snapshot")];
    var out := [Snapshot(200, [("Station1", Stats(30.0, 25.5)), ("Station2", Stats(20.0, 20.0))])];
    var s1 := State(["Station1"], map["Station1" := Stats(25.5, 25.5)], Some(100));
    var s3 := State(["Station1", "Station2"], map["Station1" := Stats(30.0, 25.5), "Station2" := Stats(20.0, 20.0)], Some(200));
    MultiStep1();
    MultiStep2();
    MultiReplayTail();
    assert events[1..][1..] == events[2..];
    var s2 := State(["Station1", "Station2"], map["Station1" := Stats(25.5, 25.5), "Station2" := Stats(20.0, 20.0)], Some(150));
    ReplaySampleOf(s1, "Station2", 150, 20.0, s2, events[1..], out, s3);
    ReplaySampleOf(Init, "Station1", 100, 25.5, s1, events, out, s3);
  }

  lemma MultiReplayTail()
    ensures Replays(
      State(["Station1", "Station2"], map["Station1" := Stats(25.5, 25.5), "Station2" := Stats(20.0, 20.0)], Some(150)),
      [Sample("Station1", 200, 30.0), Control("snapshot")],
      [Snapshot(200, [("Station1", Stats(30.0, 25.5)), ("Station2", Stats(20.0, 20.0))])],
      State(["Station1", "Station2"], map["Station1" := Stats(30.0, 25.5), "Station2" := Stats(20.0, 20.0)], Some(200)))
  {
    var events := [Sample("Station1", 200, 30.0), Control("snapshot")];
    var out := [Snapshot(200, [("Station1", Stats(30.0, 25.5)), ("Station2", Stats(20.0, 20.0))])];
    var s2 := State(["Station1", "Station2"], map["Station1" := Stats(25.5, 25.5), "Station2" := Stats(20.0, 20.0)], Some(150));
    var s3 := State(["Station1", "Station2"], map["Station1" := Stats(30.0, 25.5), "Station2" := Stats(20.0, 20.0)], Some(200));
    MultiStep3();
    MultiStep4();
    ReplayNothing(s3);
    ReplaySnapshot(s3, events[1..], out, s3);
    ReplaySample(s2, events, out, s3);
  }

  // The reset stream: the events before and after the reset are run
  // separately and joined by `FreshStartAfterReset`.

  lemma ResetCommand()
    ensures Process([Sample("Station1", 100, 25.5), Control("snapshot"), Control("reset"),
                     Sample("Station1", 300, 15.0), Control("snapshot")])
      == ([Snapshot(100, [("Station1", Stats(25.5, 25.5))]), Reset(100),
           Snapshot(300, [("Station1", Stats(15.0, 15.0))])], None)
  {
    var pre := [Sample("Station1", 100, 25.5), Control("snapshot"), Control("reset")];
    var post := [Sample("Station1", 300, 15.0), Control("snapshot")];
    var before := [Snapshot(100, [("Station1", Stats(25.5, 25.5))]), Reset(100)];
    var after := [Snapshot(300, [("Station1", Stats(15.0, 15.0))])];
    ResetBefore();
    ResetAfter();
    assert Run(pre).outputs == before && Run(pre).failure.None?;
    assert Run(post).outputs == after && Run(post).failure.None?;
    assert IsCommand(pre[|pre| - 1], "reset");
    FreshStartAfterReset(pre, post);
    ResetJoin();
    assert Process(pre + post) == (before + after, None);
  }

  lemma ResetJoin()
    ensures [Sample("Station1", 100, 25.5), Control("snapshot"), Control("reset")]
      + [Sample("Station1", 300, 15.0), Control("snapshot")]
      == [Sample("Station1", 100, 25.5), Control("snapshot"), Control("reset"),
          Sample("Station1", 300, 15.0), Control("snapshot")]
    ensures [Snapshot(100, [("Station1", Stats(25.5, 25.5))]), Reset(100)]
      + [Snapshot(300, [("Station1", Stats(15.0, 15.0))])]
      == [Snapshot(100, [("Station1", Stats(25.5, 25.5))]), Reset(100),
          Snapshot(300, [("Station1", Stats(15.0, 15.0))])]
  {
  }

  lemma ResetBefore()
    ensures Process([Sample("Station1", 100, 25.5), Control("snapshot"), Control("reset")])
      == ([Snapshot(100, [("Station1", Stats(25.5, 25.5))]), Reset(100)], None)
  {
    var pre := [Sample("Station1", 100, 25.5), Control("snapshot"), Control("reset")];
    var s1 := State(["Station1"], map["Station1" := Stats(25.5, 25.5)], Some(100));
    var before := [Snapshot(100, [("Station1", Stats(25.5, 25.5))]), Reset(100)];
    assert Observe(Init, "Station1", 100, 25.5) == s1;
    assert Items(s1) == before[0].stations;
    ReplayNothing(Init);
    ReplayReset(s1, pre[2..], before[1..], Init);
    ReplaySnapshot(s1, pre[1..], before, Init);
    ReplaySample(Init, pre, before, Init);
    ReplayProcess(pre, before, Init);
  }

  lemma ResetAfter()
    ensures Process([Sample("Station1", 300, 15.0), Control("snapshot")])
      == ([Snapshot(300, [("Station1", Stats(15.0, 15.0))])], None)
  {
    var post := [Sample("Station1", 300, 15.0), Control("snapshot")];
    var s2 := State(["Station1"], map["Station1" := Stats(15.0, 15.0)], Some(300));
    var after := [Snapshot(300, [("Station1", Stats(15.0, 15.0))])];
    assert Observe(Init, "Station1", 300, 15.0) == s2;
    assert Items(s2) == after[0].stations;
    ReplayNothing(s2);
    ReplaySnapshot(s2, post[1..], after, s2);
    ReplaySample(Init, post, after, s2);
    ReplayProcess(post, after, s2);
  }

  // The long scenario, in three parts: up to the first snapshot, up to the
  // reset, and after the reset. Each state it passes through is a named
  // constant, each step's effect is a lemma of its own, and each replay
  // lemma adds a single event, so that every proof stays small.

  const ComplexA: seq<Message> := [
    Sample("Station1", 100, 25.5), Sample("Station1", 125, 21.0), Sample("Station2", 150, 20.0),
    Sample("Station3", 200, 30.0), Control("snapshot")]
  const ComplexB: seq<Message> := [
    Sample("Station1", 300, 35.0), Sample("Station2", 350, 15.0), Sample("Station4", 400, 22.5),
    Control("snapshot"), Control("reset")]
  const ComplexC: seq<Message> := [
    Sample("Station1", 500, 10.0), Sample("Station5", 550, 40.0), Control("snapshot")]

  const SnapshotA: Output :=
    Snapshot(200, [("Station1", Stats(25.5, 21.0)), ("Station2", Stats(20.0, 20.0)), ("Station3", Stats(30.0, 30.0))])
  const SnapshotB: Output :=
    Snapshot(400, [("Station1", Stats(35.0, 21.0)), ("Station2", Stats(20.0, 15.0)),
                   ("Station3", Stats(30.0, 30.0)), ("Station4", Stats(22.5, 22.5))])
  const SnapshotC: Output :=
    Snapshot(550, [("Station1", Stats(10.0, 10.0)), ("Station5", Stats(40.0, 40.0))])

  const A1: State := State(["Station1"], map["Station1" := Stats(25.5, 25.5)], Some(100))
  const A2: State := State(["Station1"], map["Station1" := Stats(25.5, 21.0)], Some(125))
  const A3: State :=
    State(["Station1", "Station2"], map["Station1" := Stats(25.5, 21.0), "Station2" := Stats(20.0, 20.0)], Some(150))
  const A4: State :=
    State(["Station1", "Station2", "Station3"],
          map["Station1" := Stats(25.5, 21.0), "Station2" := Stats(20.0, 20.0), "Station3" := Stats(30.0, 30.0)], Some(200))
  const B1: State :=
    State(["Station1", "Station2", "Station3"],
          map["Station1" := Stats(35.0, 21.0), "Station2" := Stats(20.0, 20.0), "Station3" := Stats(30.0, 30.0)], Some(300))
  const B2: State :=
    State(["Station1", "Station2", "Station3"],
          map["Station1" := Stats(35.0, 21.0), "Station2" := Stats(20.0, 15.0), "Station3" := Stats(30.0, 30.0)], Some(350))
  const B3: State :=
    State(["Station1", "Station2", "Station3", "Station4"],
          map["Station1" := Stats(35.0, 21.0), "Station2" := Stats(20.0, 15.0), "Station3" := Stats(30.0, 30.0),
              "Station4" := Stats(22.5, 22.5)], Some(400))
  const C1: State := State(["Station1"], map["Station1" := Stats(10.0, 10.0)], Some(500))
  const C2: State :=
    State(["Station1", "Station5"], map["Station1" := Stats(10.0, 10.0), "Station5" := Stats(40.0, 40.0)], Some(550))

  lemma ComplexScenario()
    ensures Process([
      Sample("Station1", 100, 25.5), Sample("Station1", 125, 21.0), Sample("Station2", 150, 20.0),
      Sample("Station3", 200, 30.0), Control("snapshot"),
      Sample("Station1", 300, 35.0), Sample("Station2", 350, 15.0), Sample("Station4", 400, 22.5),
      Control("snapshot"), Control("reset"),
      Sample("Station1", 500, 10.0), Sample("Station5", 550, 40.0), Control("snapshot")])
      == ([SnapshotA, SnapshotB, Reset(400), SnapshotC], None)
  {
    ComplexJoin();
    ComplexParts();
  }

  lemma ComplexJoin()
    ensures ComplexA + ComplexB + ComplexC == [
      Sample("Station1", 100, 25.5), Sample("Station1", 125, 21.0), Sample("Station2", 150, 20.0),
      Sample("Station3", 200, 30.0), Control("snapshot"),
      Sample("Station1", 300, 35.0), Sample("Station2", 350, 15.0), Sample("Station4", 400, 22.5),
      Control("snapshot"), Control("reset"),
      Sample("Station1", 500, 10.0), Sample("Station5", 550, 40.0), Control("snapshot")]
  {
  }

  lemma ComplexParts()
    ensures Process(ComplexA + ComplexB + ComplexC) == ([SnapshotA, SnapshotB, Reset(400), SnapshotC], None)
  {
    ComplexBeforeReset();
    ComplexAfterReset();
    ComplexResetLast();
    FreshStartAfterReset(ComplexA + ComplexB, ComplexC);
    ComplexOutputsJoin();
  }

  lemma ComplexResetLast()
    ensures ComplexA + ComplexB != []
    ensures IsCommand((ComplexA + ComplexB)[|ComplexA + ComplexB| - 1], "reset")
  {
  }

  lemma ComplexOutputsJoin()
    ensures [SnapshotA] + [SnapshotB, Reset(400)] + [SnapshotC] == [SnapshotA, SnapshotB, Reset(400), SnapshotC]
  {
  }

  lemma ComplexBeforeReset()
    ensures Run(ComplexA + ComplexB).failure.None?
    ensures Run(ComplexA + ComplexB).outputs == [SnapshotA] + [SnapshotB, Reset(400)]
  {
    ComplexRunA();
    ComplexReplayB();
    ReplayRun(ComplexA, ComplexB, [SnapshotB, Reset(400)], Init);
  }

  lemma ComplexRunA()
    ensures Run(ComplexA).state == A4
    ensures Run(ComplexA).outputs == [SnapshotA]
    ensures Run(ComplexA).failure.None?
  {
    ComplexReplayA();
    var none: seq<Message> := [];
    assert Run(none) == Trace(Init, [], None);
    ReplayRun(none, ComplexA, [SnapshotA], A4);
    assert none + ComplexA == ComplexA;
  }

  lemma ComplexAfterReset()
    ensures Process(ComplexC) == ([SnapshotC], None)
  {
    ComplexReplayC();
    ReplayProcess(ComplexC, [SnapshotC], C2);
  }

  // Part one: four samples, then a snapshot.

  lemma ComplexObserveA1()
    ensures Observe(Init, "Station1", 100, 25.5) == A1
  {
  }

  lemma ComplexObserveA2()
    ensures Observe(A1, "Station1", 125, 21.0) == A2
  {
  }

  lemma ComplexObserveA3()
    ensures Observe(A2, "Station2", 150, 20.0) == A3
  {
  }

  lemma ComplexObserveA4()
    ensures Observe(A3, "Station3", 200, 30.0) == A4
  {
  }

  lemma ComplexWellFormedA4()
    ensures WellFormed(A4)
  {
  }

  lemma ComplexItemsA4()
    ensures Items(A4) == SnapshotA.stations
  {
  }

  lemma ComplexReplayA()
    ensures Replays(Init, ComplexA, [SnapshotA], A4)
  {
    ComplexReplayA2();
    ComplexObserveA1();
    ReplaySample(Init, ComplexA, [SnapshotA], A4);
  }

  lemma ComplexReplayA2()
    ensures Replays(A1, ComplexA[1..], [SnapshotA], A4)
  {
    ComplexReplayA3();
    ComplexObserveA2();
    assert ComplexA[1..][1..] == ComplexA[2..];
    ReplaySample(A1, ComplexA[1..], [SnapshotA], A4);
  }

  lemma ComplexReplayA3()
    ensures Replays(A2, ComplexA[2..], [SnapshotA], A4)
  {
    ComplexReplayA4();
    ComplexObserveA3();
    assert ComplexA[2..][1..] == ComplexA[3..];
    ReplaySample(A2, ComplexA[2..], [SnapshotA], A4);
  }

  lemma ComplexReplayA4()
    ensures Replays(A3, ComplexA[3..], [SnapshotA], A4)
  {
    ComplexReplayA5();
    ComplexObserveA4();
    assert ComplexA[3..][1..] == ComplexA[4..];
    ReplaySample(A3, ComplexA[3..], [SnapshotA], A4);
  }

  lemma ComplexReplayA5()
    ensures Replays(A4, ComplexA[4..], [SnapshotA], A4)
  {
    ComplexItemsA4();
    ReplayNothing(A4);
    assert ComplexA[4..][1..] == [];
    ReplaySnapshot(A4, ComplexA[4..], [SnapshotA], A4);
  }

  // Part two: three samples, a snapshot and a reset.

  lemma ComplexObserveB1()
    ensures Observe(A4, "Station1", 300, 35.0) == B1
  {
  }

  lemma ComplexObserveB2()
    ensures Observe(B1, "Station2", 350, 15.0) == B2
  {
  }

  lemma ComplexObserveB3()
    ensures Observe(B2, "Station4", 400, 22.5) == B3
  {
  }

  lemma ComplexItemsB3()
    ensures Items(B3) == SnapshotB.stations
  {
  }

  lemma ComplexReplayB()
    ensures Replays(A4, ComplexB, [SnapshotB, Reset(400)], Init)
  {
    ComplexReplayB2();
    ComplexObserveB1();
    ComplexWellFormedA4();
    ReplaySampleOf(A4, "Station1", 300, 35.0, B1, ComplexB, [SnapshotB, Reset(400)], Init);
  }

  lemma ComplexReplayB2()
    ensures Replays(B1, ComplexB[1..], [SnapshotB, Reset(400)], Init)
  {
    ComplexReplayB3();
    ComplexObserveB2();
    assert ComplexB[1..][1..] == ComplexB[2..];
    ReplaySample(B1, ComplexB[1..], [SnapshotB, Reset(400)], Init);
  }

  lemma ComplexReplayB3()
    ensures Replays(B2, ComplexB[2..], [SnapshotB, Reset(400)], Init)
  {
    ComplexReplayB4();
    ComplexObserveB3();
    assert ComplexB[2..][1..] == ComplexB[3..];
    ReplaySample(B2, ComplexB[2..], [SnapshotB, Reset(400)], Init);
  }

  lemma ComplexReplayB4()
    ensures Replays(B3, ComplexB[3..], [SnapshotB, Reset(400)], Init)
  {
    ComplexReplayB5();
    ComplexItemsB3();
    assert ComplexB[3..][1..] == ComplexB[4..];
    ReplaySnapshot(B3, ComplexB[3..], [SnapshotB, Reset(400)], Init);
  }

  lemma ComplexReplayB5()
    ensures Replays(B3, ComplexB[4..], [Reset(400)], Init)
  {
    ReplayNothing(Init);
    assert ComplexB[4..][1..] == [];
    ReplayReset(B3, ComplexB[4..], [Reset(400)], Init);
  }

  // Part three, after the reset: two samples, then a snapshot.

  lemma ComplexObserveC1()
    ensures Observe(Init, "Station1", 500, 10.0) == C1
  {
  }

  lemma ComplexObserveC2()
    ensures Observe(C1, "Station5", 550, 40.0) == C2
  {
  }

  lemma ComplexItemsC2()
    ensures Items(C2) == SnapshotC.stations
  {
  }

  lemma ComplexReplayC()
    ensures Replays(Init, ComplexC, [SnapshotC], C2)
  {
    ComplexReplayC2();
    ComplexObserveC1();
    ReplaySample(Init, ComplexC, [SnapshotC], C2);
  }

  lemma ComplexReplayC2()
    ensures Replays(C1, ComplexC[1..], [SnapshotC], C2)
  {
    ComplexReplayC3();
    ComplexObserveC2();
    assert ComplexC[1..][1..] == ComplexC[2..];
    ReplaySample(C1, ComplexC[1..], [SnapshotC], C2);
  }

  lemma ComplexReplayC3()
    ensures Replays(C2, ComplexC[2..], [SnapshotC], C2)
  {
    ComplexItemsC2();
    ReplayNothing(C2);
    assert ComplexC[2..][1..] == [];
    ReplaySnapshot(C2, ComplexC[2..], [SnapshotC], C2);
  }
}
