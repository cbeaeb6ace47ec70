# Weather-station stream aggregator

This project models `process_events` from `interview/weather.py`. The function reads weather-station events in order and keeps two pieces of state: a dictionary from station name to its highest and lowest temperature, and the greatest timestamp seen so far.

- A "sample" event updates that state and yields nothing.
- A "control" event is ignored until some sample has set the timestamp. After that:
  - "snapshot" yields a copy of the dictionary stamped with the timestamp;
  - "reset" yields a reset record stamped with the timestamp and then clears both pieces of state.
- A missing key, an unknown event type or an unknown command raises an exception. The exception ends the stream, and the records already yielded stay delivered.

The model has three modules:

- `Weather` (`weather.dfy`) gives the behaviour in two forms.
  - `Step` is one turn of the source's loop as a function. `Run` and `Process` fold it over the event sequence.
  - `Aggregator` is a class whose fields are the generator's local variables. Its method `Handle` is the loop body, and `ProcessEvents` is the loop. `ProcessEvents` is proved to return exactly what `Process` describes.
  - The dictionary is kept as its key order (`names`) plus a map (`table`). This keeps both the insertion order and the entries of the Python dictionary.
- `WeatherProperties` (`properties.dfy`) states what the aggregator promises against an independent description of the input: the readings received since the last reset.
  - The running timestamp is the greatest of their timestamps.
  - The dictionary lists exactly their stations, in first-seen order, each with the highest and lowest of its temperatures.
  - It also covers snapshot, reset and error behaviour.
- `WeatherScenarios` (`scenarios.dfy`) proves the outcome of each concrete stream in `interview/weather_test.py`.

Timestamps are `int` and temperatures are `real`. The source only compares them with `max` and `min`.

The "no timestamp yet" check (`interview/weather.py:50-51`) runs before the command is read (line 53). So a control event before any sample is skipped even when it has no `command` key. `Step` does the same, and `ControlSkippedWithoutTimestamp` states it.

## Model

| member | source | states |
|---|---|---|
| Weather.Observe | interview/weather.py:21-46 | A well-formed sample keeps the state well formed. The new timestamp is at least the sample's and at least the old one. The sample's station is present, with the sample's temperature between its low and high. Every other station's range only widens, and every station other than the sample's keeps its entry. |
| Weather.Items | interview/weather.py:58-61 | A snapshot's station entries are the dictionary's items: as many as there are stations, each station once, in insertion order, each with its entry from the dictionary. |
| Weather.ErrorText | interview/weather.py:77-79 | The text of the raised exception. A missing key gives the key in quotes, as the text of a `KeyError`. An unknown type or command gives "Unknown message type: " or "Unknown command: " followed by the offending value. |
| Weather.Step | interview/weather.py:19-79 | One loop turn keeps the state well formed. A record is yielded only for a control event once a timestamp is set, and it carries that timestamp. Events other than samples and resets leave the state unchanged. |
| Weather.Advance | interview/weather.py:19-83 | After a turn, the earlier records are still a prefix of the records and at most one record is added. Once a failure is recorded, nothing changes. A new failure keeps the state and the records and carries the index of the failing event. |
| Weather.Run | interview/weather.py:15-83 | The state reached is well formed. There are never more records than events. A recorded failure points at an event of the input. |
| Weather.RunTurn | interview/weather.py:19-74 | A successful turn at position i extends the prefix's trace with its new state and its record, if any. |
| Weather.RunTurnFails | interview/weather.py:76-83 | A failing turn at position i ends the whole stream with that error at index i, keeping the state and records of the prefix. |
| Weather.FailureIsFinal | interview/weather.py:81-83 | Once an event of a prefix has failed, later events do not change the outcome. |
| Weather.Aggregator.constructor | interview/weather.py:14-17 | The generator starts with an empty dictionary and no timestamp. |
| Weather.Aggregator.Handle | interview/weather.py:20-79 | One pass of the loop body on the fields. On success, the new fields and the returned record are what `Step` gives. On error, the error is what `Step` raises and the fields are unchanged. |
| Weather.ProcessEvents | interview/weather.py:4-83 | The loop over the events returns exactly the records and the failure that `Process` describes. |
| WeatherProperties.ObserveSummarizes | interview/weather.py:28-46 | If a state summarizes a list of readings, then after observing one more sample it summarizes the list extended by that reading. Summarizing means the latest timestamp, and every station exactly once, in first-seen order, with its highest and lowest temperature. |
| WeatherProperties.StateSummarizesSinceReset | interview/weather.py:15-74 | On any stream that has not failed, the state summarizes the well-formed samples received since the last reset. |
| WeatherProperties.SummaryTable | interview/weather.py:35-46 | In a summarizing state, a station has an entry exactly when it has a reading. Its high is the greatest and its low the least of its temperatures. |
| WeatherProperties.SamplesYieldNothing | interview/weather.py:21-46 | A stream made only of well-formed samples yields no record and does not fail. |
| WeatherProperties.SamplesSummarized | interview/weather.py:28-46 | After only samples, there is a timestamp exactly when there was a sample, and it is the greatest one seen. The stations present are exactly those with a reading, each with high and low the greatest and least of its temperatures, and low <= high. |
| WeatherProperties.ArrivalOrderIrrelevant | interview/weather.py:28-46 | Two sample streams that are permutations of each other reach the same timestamp and the same per-station high/low. |
| WeatherProperties.ControlSkippedWithoutTimestamp | interview/weather.py:48-51 | A control event of any command, or none, arriving when no sample has come since the last reset, changes nothing: no record, no error, same state. |
| WeatherProperties.SnapshotReportsSinceReset | interview/weather.py:53-63 | A snapshot never fails and never changes the state. If no sample has come since the last reset, it yields nothing. Otherwise it yields exactly one record, appended to the earlier ones: as-of the latest timestamp, listing exactly the stations seen since the reset, distinct, in first-seen order, with their extremes. |
| WeatherProperties.ResetAcknowledgesAndClears | interview/weather.py:65-74 | A reset never fails and leaves the initial empty state. If a sample has come since the last reset, it yields exactly one reset record, appended to the earlier ones, as-of the latest timestamp. Otherwise it yields nothing. |
| WeatherProperties.FreshStartAfterReset | interview/weather.py:15-74 | After a stream ending in a reset, the rest of the stream behaves as if run from the start. Its state, its records (appended to the earlier ones) and its failure, shifted by the prefix length, are those of the rest run alone. |
| WeatherProperties.ContinueFromEmpty | interview/weather.py:15-19 | A stream that has come back to the initial state continues exactly like a fresh run of the rest. |
| WeatherProperties.StepFailsExactlyWhen | interview/weather.py:21-79 | A step fails if and only if one of these holds: the type key is missing; a sample lacks a field; a control event after a sample has a command other than snapshot/reset (or none); or the type is unknown. A missing-field error names a key the event lacks. |
| WeatherProperties.FirstMissingKeyReported | interview/weather.py:21-53 | The missing key reported is the first absent one in the order the source reads them: type, then a sample's stationName, timestamp and temperature. A control event's command is reported only once a timestamp is set; before that, the event is skipped. |
| WeatherProperties.UnknownMessageTypeReported | interview/weather.py:78-79 | An unknown type fails with the text "Unknown message type: " followed by the type. |
| WeatherProperties.UnknownCommandReported | interview/weather.py:76-77 | Once a timestamp is set, an unknown command fails with the text "Unknown command: " followed by the command. |
| WeatherProperties.ErrorTextIdentifies | interview/weather.py:77-79 | The error text determines the error: two errors with the same text are equal. |
| WeatherProperties.FailurePersists | interview/weather.py:81-83 | Once a stream has failed, appending events changes nothing. |
| WeatherProperties.FailureEndsStream | interview/weather.py:81-83 | If an event fails, the whole stream's result is the records yielded before it, followed by that error at that event's index, whatever follows it. |
| WeatherProperties.DeliveredOutputsStay | interview/weather.py:63-83 | The records of any prefix of the stream are a prefix of the records of the whole stream. |
| WeatherScenarios.EmptyStream | interview/weather_test.py:4-6 | The empty stream yields nothing. |
| WeatherScenarios.SingleSample | interview/weather_test.py:9-13 | A single sample yields nothing. |
| WeatherScenarios.SnapshotWithSamples | interview/weather_test.py:16-28 | Two samples of one station, then a snapshot, yield one snapshot as of 200 with high 30.0 and low 25.5. |
| WeatherScenarios.MultipleStations | interview/weather_test.py:31-47 | Samples of two stations, then a snapshot, yield both stations in first-seen order with their extremes. |
| WeatherScenarios.ResetCommand | interview/weather_test.py:50-75 | The sequence snapshot, reset, sample, snapshot yields the first snapshot, a reset as of 100, and a snapshot holding only the post-reset sample. |
| WeatherScenarios.SnapshotWithoutSamples | interview/weather_test.py:78-82 | A snapshot before any sample yields nothing. |
| WeatherScenarios.InvalidMessageType | interview/weather_test.py:85-92 | An event of type "invalid" fails at index 0 with the text "Unknown message type: invalid". |
| WeatherScenarios.MissingFields | interview/weather_test.py:95-102 | A sample with no fields fails at index 0 with a missing "stationName" key. |
| WeatherScenarios.TimestampOrdering | interview/weather_test.py:105-117 | Samples at 300 and then 100 give a snapshot as of 300. |
| WeatherScenarios.ComplexScenario | interview/weather_test.py:120-172 | The thirteen-event stream yields the two snapshots, the reset as of 400, and the post-reset snapshot listed in the test. |

## Left out

- Generator laziness: the model computes the whole list of records and the failure. A consumer of the Python generator sees the same records one at a time, and the exception when it reaches the failing event.
- Floating point: temperatures are exact reals. The source only applies `max` and `min` to them.
- Dynamic typing: a message is a record of optional fields. A field holding a value of the wrong type, and keys other than the five the source reads, are not represented.
- Exception classes: `KeyError` and `ValueError`, and the re-raise in `interview/weather.py:81-83`, are modelled as an error kind with the offending key or value, at the failing event's index. The text of a `KeyError` is modelled as the quoted key.
- Aliasing of the yielded dictionaries: a snapshot is a fresh copy in the source, and a value in the model.
- `interview/weather_test.py` is not part of the model as code: its streams appear only as the scenario lemmas.
