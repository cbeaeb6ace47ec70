/**
 * What `process_events` promises, stated against a reference description of
 * the samples received since the last reset: the running timestamp is their
 * greatest timestamp, and a snapshot lists exactly their stations, in
 * first-seen order, each with the highest and lowest of its temperatures.
 */
module WeatherProperties {
  import opened Wrappers
  import opened Weather

  /** The payload of one well-formed sample. */
  datatype Reading = Reading(station: string, timestamp: int, temperature: real)

  predicate IsSample(m: Message) {
    m.kind == Some("sample") && m.stationName.Some? && m.timestamp.Some? && m.temperature.Some?
  }

  function ReadingOf(m: Message): Reading
    requires IsSample(m)
  {
    Reading(m.stationName.value, m.timestamp.value, m.temperature.value)
  }

  predicate IsCommand(m: Message, command: string) {
    m.kind == Some("control") && m.command == Some(command)
  }

  /** The readings of the well-formed samples among `events`, in arrival order. */
  ghost function Readings(events: seq<Message>): seq<Reading> {
    if events == [] then []
    else
      var last := events[|events| - 1];
      Readings(events[..|events| - 1]) + (if IsSample(last) then [ReadingOf(last)] else [])
  }

  /** The events after the last "reset" command (all of them if there is none). */
  ghost function SinceReset(events: seq<Message>): seq<Message> {
    if events == [] then []
    else if IsCommand(events[|events| - 1], "reset") then []
    else SinceReset(events[..|events| - 1]) + [events[|events| - 1]]
  }

  ghost function Timestamps(rs: seq<Reading>): set<int> {
    set r | r in rs :: r.timestamp
  }

  ghost function TemperaturesOf(rs: seq<Reading>, station: string): set<real> {
    set r | r in rs && r.station == station :: r.temperature
  }

  ghost predicate IsLatest(t: int, ts: set<int>) {
    t in ts && forall u :: u in ts ==> u <= t
  }

  ghost predicate IsHighest(x: real, xs: set<real>) {
    x in xs && forall y :: y in xs ==> y <= x
  }

  ghost predicate IsLowest(x: real, xs: set<real>) {
    x in xs && forall y :: y in xs ==> x <= y
  }

  /** Some reading before position `q` comes from `station`. */
  ghost predicate SeenBefore(rs: seq<Reading>, station: string, q: int) {
    exists p :: 0 <= p < q && p < |rs| && rs[p].station == station
  }

  /** No station is listed twice. */
  ghost predicate Distinct(entries: seq<(string, Stats)>) {
    forall i, j :: 0 <= i < j < |entries| ==> entries[i].0 != entries[j].0
  }

  /** Every station that has a reading is listed. */
  ghost predicate Covers(entries: seq<(string, Stats)>, rs: seq<Reading>) {
    forall r :: r in rs ==> exists i :: 0 <= i < |entries| && entries[i].0 == r.station
  }

  /** Each listed station carries the highest and the lowest of its temperatures. */
  ghost predicate Extremes(entries: seq<(string, Stats)>, rs: seq<Reading>) {
    forall i :: 0 <= i < |entries| ==>
      && IsHighest(entries[i].1.high, TemperaturesOf(rs, entries[i].0))
      && IsLowest(entries[i].1.low, TemperaturesOf(rs, entries[i].0))
  }

  /**
   * A station is listed after another only if each of its readings comes
   * after some reading of the other: the list is in first-seen order.
   */
  ghost predicate FirstSeenOrder(entries: seq<(string, Stats)>, rs: seq<Reading>) {
    forall i, j, q :: 0 <= i < j < |entries| && 0 <= q < |rs| && rs[q].station == entries[j].0 ==>
      SeenBefore(rs, entries[i].0, q)
  }

  /**
   * `entries` names every station of `rs` exactly once, in first-seen order,
   * each with the highest and lowest of its temperatures.
   */
  ghost predicate ListsStations(entries: seq<(string, Stats)>, rs: seq<Reading>) {
    Distinct(entries) && Covers(entries, rs) && Extremes(entries, rs) && FirstSeenOrder(entries, rs)
  }

  /** The aggregator state `s` is exactly what the readings `rs` call for. */
  ghost predicate Summarizes(s: State, rs: seq<Reading>) {
    && WellFormed(s)
    && (s.current.None? <==> rs == [])
    && (s.current.Some? ==> IsLatest(s.current.value, Timestamps(rs)))
    && ListsStations(Items(s), rs)
  }

  // ---------------------------------------------------------------------
  // Unfolding the reference definitions one event at a time

  lemma ReadingsSnoc(events: seq<Message>, m: Message)
    ensures Readings(events + [m]) == Readings(events) + (if IsSample(m) then [ReadingOf(m)] else [])
  {
    assert (events + [m])[..|events|] == events;
  }

  lemma SinceResetSnoc(events: seq<Message>, m: Message)
    ensures SinceReset(events + [m]) == if IsCommand(m, "reset") then [] else SinceReset(events) + [m]
  {
    assert (events + [m])[..|events|] == events;
  }

  lemma RunSnoc(events: seq<Message>, m: Message)
    ensures Run(events + [m]) == Advance(Run(events), m, |events|)
  {
    RunAfter(events + [m], events, m);
  }

  lemma TakeOfAppend(xs: seq<Message>, ys: seq<Message>)
    ensures (xs + ys)[..|xs|] == xs
  {
  }

  lemma TimestampsSnoc(rs: seq<Reading>, r: Reading)
    ensures Timestamps(rs + [r]) == Timestamps(rs) + {r.timestamp}
  {
    assert forall x :: x in rs + [r] <==> x in rs || x == r;
  }

  lemma TemperaturesSnoc(rs: seq<Reading>, r: Reading, station: string)
    ensures TemperaturesOf(rs + [r], station) ==
      if r.station == station then TemperaturesOf(rs, station) + {r.temperature}
      else TemperaturesOf(rs, station)
  {
    assert forall x :: x in rs + [r] <==> x in rs || x == r;
  }

  /** Every listed station has a reading. */
  lemma {:induction false} ListedStationHasReading(entries: seq<(string, Stats)>, rs: seq<Reading>, i: nat)
    returns (p: nat)
    requires Extremes(entries, rs) && i < |entries|
    ensures p < |rs| && rs[p].station == entries[i].0
  {
    var x := entries[i].1.high;
    assert x in TemperaturesOf(rs, entries[i].0);
    var r :| r in rs && r.station == entries[i].0 && r.temperature == x;
    p :| 0 <= p < |rs| && rs[p] == r;
  }

  /** A reading seen before `q` is still seen before `q` once more readings arrive. */
  lemma SeenBeforeSnoc(rs: seq<Reading>, r: Reading, station: string, q: int)
    requires SeenBefore(rs, station, q)
    ensures SeenBefore(rs + [r], station, q)
  {
    var p :| 0 <= p < q && p < |rs| && rs[p].station == station;
    assert (rs + [r])[p] == rs[p];
  }

  // ---------------------------------------------------------------------
  // A reading of a new station appends it to the list

  lemma {:induction false} AppendCovers(e: seq<(string, Stats)>, rs: seq<Reading>, r: Reading)
    requires Covers(e, rs)
    ensures Covers(e + [(r.station, Stats(r.temperature, r.temperature))], rs + [r])
  {
    var e' := e + [(r.station, Stats(r.temperature, r.temperature))];
    forall x | x in rs + [r] ensures exists i :: 0 <= i < |e'| && e'[i].0 == x.station {
      if x in rs {
        var i :| 0 <= i < |e| && e[i].0 == x.station;
        assert e'[i].0 == x.station;
      } else {
        assert e'[|e|].0 == x.station;
      }
    }
  }

  lemma {:induction false} AppendExtremes(e: seq<(string, Stats)>, rs: seq<Reading>, r: Reading)
    requires Extremes(e, rs) && Covers(e, rs)
    requires forall i :: 0 <= i < |e| ==> e[i].0 != r.station
    ensures Extremes(e + [(r.station, Stats(r.temperature, r.temperature))], rs + [r])
  {
    var e' := e + [(r.station, Stats(r.temperature, r.temperature))];
    forall i | 0 <= i < |e'|
      ensures IsHighest(e'[i].1.high, TemperaturesOf(rs + [r], e'[i].0))
      ensures IsLowest(e'[i].1.low, TemperaturesOf(rs + [r], e'[i].0))
    {
      TemperaturesSnoc(rs, r, e'[i].0);
      if i == |e| {
        assert TemperaturesOf(rs, r.station) == {} by {
          forall x | x in rs ensures x.station != r.station {
            var k :| 0 <= k < |e| && e[k].0 == x.station;
          }
        }
      } else {
        assert e'[i] == e[i];
      }
    }
  }

  lemma {:induction false} AppendFirstSeenOrder(e: seq<(string, Stats)>, rs: seq<Reading>, r: Reading)
    requires FirstSeenOrder(e, rs) && Extremes(e, rs)
    requires forall i :: 0 <= i < |e| ==> e[i].0 != r.station
    requires forall x :: x in rs ==> x.station != r.station
    ensures FirstSeenOrder(e + [(r.station, Stats(r.temperature, r.temperature))], rs + [r])
  {
    var e' := e + [(r.station, Stats(r.temperature, r.temperature))];
    var rs' := rs + [r];
    forall i, j, q | 0 <= i < j < |e'| && 0 <= q < |rs'| && rs'[q].station == e'[j].0
      ensures SeenBefore(rs', e'[i].0, q)
    {
      assert e'[i] == e[i];
      if j < |e| {
        assert e'[j] == e[j];
        assert q < |rs|;
        assert rs'[q] == rs[q];
        SeenBeforeSnoc(rs, r, e[i].0, q);
      } else {
        assert q == |rs|;
        var p := ListedStationHasReading(e, rs, i);
        assert rs'[p] == rs[p];
      }
    }
  }

  // ---------------------------------------------------------------------
  // A reading of a listed station updates its entry in place

  /** The entry of station `k` after reading `t`. */
  function Widened(st: Stats, t: real): Stats {
    Stats(MaxReal(st.high, t), MinReal(st.low, t))
  }

  lemma {:induction false} UpdateCovers(e: seq<(string, Stats)>, rs: seq<Reading>, r: Reading, k: nat)
    requires Covers(e, rs) && k < |e| && e[k].0 == r.station
    ensures Covers(e[k := (r.station, Widened(e[k].1, r.temperature))], rs + [r])
  {
    var e' := e[k := (r.station, Widened(e[k].1, r.temperature))];
    forall x | x in rs + [r] ensures exists i :: 0 <= i < |e'| && e'[i].0 == x.station {
      if x in rs {
        var i :| 0 <= i < |e| && e[i].0 == x.station;
        assert e'[i].0 == x.station;
      } else {
        assert e'[k].0 == x.station;
      }
    }
  }

  lemma {:induction false} UpdateExtremes(e: seq<(string, Stats)>, rs: seq<Reading>, r: Reading, k: nat)
    requires Extremes(e, rs) && Distinct(e) && k < |e| && e[k].0 == r.station
    ensures Extremes(e[k := (r.station, Widened(e[k].1, r.temperature))], rs + [r])
  {
    var e' := e[k := (r.station, Widened(e[k].1, r.temperature))];
    forall i | 0 <= i < |e'|
      ensures IsHighest(e'[i].1.high, TemperaturesOf(rs + [r], e'[i].0))
      ensures IsLowest(e'[i].1.low, TemperaturesOf(rs + [r], e'[i].0))
    {
      TemperaturesSnoc(rs, r, e'[i].0);
      if i != k {
        assert e'[i] == e[i];
      }
    }
  }

  lemma {:induction false} UpdateFirstSeenOrder(e: seq<(string, Stats)>, rs: seq<Reading>, r: Reading, k: nat)
    requires FirstSeenOrder(e, rs) && Extremes(e, rs) && Distinct(e) && k < |e| && e[k].0 == r.station
    ensures FirstSeenOrder(e[k := (r.station, Widened(e[k].1, r.temperature))], rs + [r])
  {
    var e' := e[k := (r.station, Widened(e[k].1, r.temperature))];
    var rs' := rs + [r];
    forall i, j, q | 0 <= i < j < |e'| && 0 <= q < |rs'| && rs'[q].station == e'[j].0
      ensures SeenBefore(rs', e'[i].0, q)
    {
      assert e'[i].0 == e[i].0 && e'[j].0 == e[j].0;
      if q < |rs| {
        assert rs'[q] == rs[q];
        SeenBeforeSnoc(rs, r, e[i].0, q);
      } else {
        var p := ListedStationHasReading(e, rs, i);
        assert rs'[p] == rs[p];
      }
    }
  }

  // ---------------------------------------------------------------------
  // A sample keeps the state in step with the readings

  lemma ItemsDistinct(s: State)
    requires WellFormed(s)
    ensures Distinct(Items(s))
    ensures forall i :: 0 <= i < |Items(s)| ==> Items(s)[i].0 in s.table
  {
  }

  lemma ItemsOfObserveNew(s: State, r: Reading)
    requires WellFormed(s) && r.station !in s.table
    ensures Items(Observe(s, r.station, r.timestamp, r.temperature)) ==
      Items(s) + [(r.station, Stats(r.temperature, r.temperature))]
  {
  }

  lemma ItemsOfObserveKnown(s: State, r: Reading, k: nat)
    requires WellFormed(s) && k < |s.names| && s.names[k] == r.station
    ensures Items(Observe(s, r.station, r.timestamp, r.temperature)) ==
      Items(s)[k := (r.station, Widened(s.table[r.station], r.temperature))]
  {
  }

  lemma {:induction false} ObserveTimestamp(s: State, rs: seq<Reading>, r: Reading)
    requires WellFormed(s)
    requires s.current.None? <==> rs == []
    requires s.current.Some? ==> IsLatest(s.current.value, Timestamps(rs))
    ensures var s' := Observe(s, r.station, r.timestamp, r.temperature);
      s'.current.Some? && IsLatest(s'.current.value, Timestamps(rs + [r]))
  {
    TimestampsSnoc(rs, r);
  }

  lemma {:induction false} ObserveSummarizes(s: State, rs: seq<Reading>, r: Reading)
    requires Summarizes(s, rs)
    ensures Summarizes(Observe(s, r.station, r.timestamp, r.temperature), rs + [r])
  {
    var s' := Observe(s, r.station, r.timestamp, r.temperature);
    var rs' := rs + [r];
    ObserveTimestamp(s, rs, r);
    var e, e' := Items(s), Items(s');
    if r.station in s.table {
      var k :| 0 <= k < |s.names| && s.names[k] == r.station;
      ItemsOfObserveKnown(s, r, k);
      assert e[k] == (r.station, s.table[r.station]);
      assert e' == e[k := (r.station, Widened(e[k].1, r.temperature))];
      UpdateCovers(e, rs, r, k);
      UpdateExtremes(e, rs, r, k);
      UpdateFirstSeenOrder(e, rs, r, k);
      ItemsDistinct(s');
      assert ListsStations(e', rs');
    } else {
      ItemsOfObserveNew(s, r);
      ItemsDistinct(s);
      forall x | x in rs ensures x.station != r.station {
        var i :| 0 <= i < |e| && e[i].0 == x.station;
      }
      AppendCovers(e, rs, r);
      AppendExtremes(e, rs, r);
      AppendFirstSeenOrder(e, rs, r);
      ItemsDistinct(s');
      assert ListsStations(e', rs');
    }
    assert WellFormed(s');
    assert s'.current.Some? && rs' != [];
  }

  /** A state with no timestamp is the empty state, which summarizes no readings. */
  lemma EmptySummarizesNothing(s: State)
    requires WellFormed(s) && s.current.None?
    ensures s == Init && Summarizes(s, [])
  {
    assert s.table == map[];
  }

  // ---------------------------------------------------------------------
  // The state is always determined by the samples since the last reset

  /**
   * After any prefix that did not fail, the state is exactly what the
   * well-formed samples since the last reset call for: the running
   * timestamp is their greatest timestamp, and the stations are theirs, in
   * first-seen order, each with its highest and lowest temperature.
   */
  lemma SummarizesAfterSample(events: seq<Message>, m: Message)
    requires Run(events).failure.None? && IsSample(m)
    requires Summarizes(Run(events).state, Readings(SinceReset(events)))
    ensures Summarizes(Run(events + [m]).state, Readings(SinceReset(events + [m])))
  {
    var r := ReadingOf(m);
    RunSnoc(events, m);
    SinceResetSnoc(events, m);
    ReadingsSnoc(SinceReset(events), m);
    assert Run(events + [m]).state == Observe(Run(events).state, r.station, r.timestamp, r.temperature);
    ObserveSummarizes(Run(events).state, Readings(SinceReset(events)), r);
  }

  lemma SummarizesAfterReset(events: seq<Message>, m: Message)
    requires Run(events).failure.None? && IsCommand(m, "reset")
    ensures Run(events + [m]).state == Init
    ensures Summarizes(Run(events + [m]).state, Readings(SinceReset(events + [m])))
  {
    RunSnoc(events, m);
    SinceResetSnoc(events, m);
    var s := Run(events).state;
    EmptySummarizesNothing(if s.current.None? then s else Init);
  }

  lemma SummarizesAfterOther(events: seq<Message>, m: Message)
    requires Run(events).failure.None? && !IsSample(m) && !IsCommand(m, "reset")
    requires Run(events + [m]).failure.None?
    requires Summarizes(Run(events).state, Readings(SinceReset(events)))
    ensures Summarizes(Run(events + [m]).state, Readings(SinceReset(events + [m])))
  {
    RunSnoc(events, m);
    SinceResetSnoc(events, m);
    var rs := Readings(SinceReset(events));
    ReadingsSnoc(SinceReset(events), m);
    assert rs + [] == rs;
    assert Readings(SinceReset(events + [m])) == rs;
    assert m.kind == Some("control");
    assert Run(events + [m]).state == Run(events).state;
  }

  /**
   * After any prefix that did not fail, the state is exactly what the
   * well-formed samples since the last reset call for: the running
   * timestamp is their greatest timestamp, and the stations are theirs, in
   * first-seen order, each with its highest and lowest temperature.
   */
  lemma {:induction false} StateSummarizesSinceReset(events: seq<Message>)
    requires Run(events).failure.None?
    ensures Summarizes(Run(events).state, Readings(SinceReset(events)))
    decreases |events|
  {
    if events == [] {
      assert Items(Init) == [];
    } else {
      var prefix, m := events[..|events| - 1], events[|events| - 1];
      assert events == prefix + [m];
      RunSnoc(prefix, m);
      StateSummarizesSinceReset(prefix);
      if IsSample(m) {
        SummarizesAfterSample(prefix, m);
      } else if IsCommand(m, "reset") {
        SummarizesAfterReset(prefix, m);
      } else {
        SummarizesAfterOther(prefix, m);
      }
    }
  }

  /** What a summarized state says about its table, entry by entry. */
  lemma SummaryTable(s: State, rs: seq<Reading>)
    requires Summarizes(s, rs)
    ensures forall n :: n in s.table <==> TemperaturesOf(rs, n) != {}
    ensures forall n :: n in s.table ==>
      IsHighest(s.table[n].high, TemperaturesOf(rs, n)) && IsLowest(s.table[n].low, TemperaturesOf(rs, n))
  {
    forall n | n in s.table
      ensures IsHighest(s.table[n].high, TemperaturesOf(rs, n)) && IsLowest(s.table[n].low, TemperaturesOf(rs, n))
    {
      TableEntryExtremes(s, rs, n);
    }
    forall n | TemperaturesOf(rs, n) != {} ensures n in s.table {
      TableEntryPresent(s, rs, n);
    }
  }

  lemma TableEntryExtremes(s: State, rs: seq<Reading>, n: string)
    requires WellFormed(s) && Extremes(Items(s), rs) && n in s.table
    ensures IsHighest(s.table[n].high, TemperaturesOf(rs, n)) && IsLowest(s.table[n].low, TemperaturesOf(rs, n))
  {
    var i :| 0 <= i < |s.names| && s.names[i] == n;
    assert Items(s)[i] == (n, s.table[n]);
  }

  lemma TableEntryPresent(s: State, rs: seq<Reading>, n: string)
    requires WellFormed(s) && Covers(Items(s), rs) && TemperaturesOf(rs, n) != {}
    ensures n in s.table
  {
    var e := Items(s);
    var x :| x in TemperaturesOf(rs, n);
    var r :| r in rs && r.station == n && r.temperature == x;
    var i :| 0 <= i < |e| && e[i].0 == r.station;
    assert s.names[i] == n;
  }

  // ---------------------------------------------------------------------
  // Samples

  /** Well-formed samples alone never yield a record and never fail. */
  lemma {:induction false} SamplesYieldNothing(events: seq<Message>)
    requires forall i :: 0 <= i < |events| ==> IsSample(events[i])
    ensures Process(events) == ([], None)
  {
    if events != [] {
      SamplesYieldNothing(events[..|events| - 1]);
    }
  }

  /** A stream of samples holds no reset command, and each of its events carries a reading. */
  lemma {:induction false} SamplesAreReadings(events: seq<Message>)
    requires forall i :: 0 <= i < |events| ==> IsSample(events[i])
    ensures SinceReset(events) == events
    ensures |Readings(events)| == |events|
    ensures forall r :: r in Readings(events) <==> exists m :: m in events && ReadingOf(m) == r
  {
    if events != [] {
      var prefix, m := events[..|events| - 1], events[|events| - 1];
      SamplesAreReadings(prefix);
      assert events == prefix + [m];
      forall r ensures r in Readings(events) <==> exists m' :: m' in events && ReadingOf(m') == r {
        if r in Readings(prefix) {
          var m' :| m' in prefix && ReadingOf(m') == r;
          assert m' in events;
        }
        if exists m' :: m' in events && ReadingOf(m') == r {
          var m' :| m' in events && ReadingOf(m') == r;
          if m' != m {
            assert m' in prefix;
          }
        }
      }
    }
  }

  /**
   * After samples only, the running timestamp is the greatest timestamp
   * received, and every station seen carries the highest and the lowest of
   * its temperatures (so its low is at most its high).
   */
  lemma {:induction false} SamplesSummarized(events: seq<Message>)
    requires forall i :: 0 <= i < |events| ==> IsSample(events[i])
    ensures var s := Run(events).state; var rs := Readings(events);
      && (events == [] <==> s.current.None?)
      && (events != [] ==> IsLatest(s.current.value, Timestamps(rs)))
      && (forall n :: n in s.table <==> TemperaturesOf(rs, n) != {})
      && (forall n :: n in s.table ==>
            && IsHighest(s.table[n].high, TemperaturesOf(rs, n))
            && IsLowest(s.table[n].low, TemperaturesOf(rs, n))
            && s.table[n].low <= s.table[n].high)
  {
    SamplesYieldNothing(events);
    SamplesAreReadings(events);
    StateSummarizesSinceReset(events);
    SummaryTable(Run(events).state, Readings(events));
  }

  /**
   * The state reached by samples does not depend on their arrival order:
   * any permutation of them gives the same timestamp and the same
   * statistics for every station (only the stations' listing order follows
   * arrival).
   */
  lemma ArrivalOrderIrrelevant(a: seq<Message>, b: seq<Message>)
    requires forall i :: 0 <= i < |a| ==> IsSample(a[i])
    requires forall i :: 0 <= i < |b| ==> IsSample(b[i])
    requires multiset(a) == multiset(b)
    ensures Run(a).state.current == Run(b).state.current
    ensures Run(a).state.table == Run(b).state.table
  {
    SamplesSummarized(a);
    SamplesSummarized(b);
    SamplesAreReadings(a);
    SamplesAreReadings(b);
    var ra, rb := Readings(a), Readings(b);
    forall m ensures m in a <==> m in b {
      assert m in a <==> m in multiset(a);
      assert m in b <==> m in multiset(b);
    }
    assert forall r :: r in ra <==> r in rb;
    SameReadingsSameSets(ra, rb);
    assert a == [] <==> b == [] by {
      assert |a| == |multiset(a)| && |b| == |multiset(b)|;
    }
    TableDeterminedByReadings(Run(a).state.table, Run(b).state.table, ra, rb);
  }

  /** Readings with the same members give the same timestamps and temperatures. */
  lemma SameReadingsSameSets(ra: seq<Reading>, rb: seq<Reading>)
    requires forall r :: r in ra <==> r in rb
    ensures Timestamps(ra) == Timestamps(rb)
    ensures forall n :: TemperaturesOf(ra, n) == TemperaturesOf(rb, n)
  {
  }

  /** A table holding exactly the extremes of each station's temperatures is determined by them. */
  lemma TableDeterminedByReadings(ta: map<string, Stats>, tb: map<string, Stats>, ra: seq<Reading>, rb: seq<Reading>)
    requires forall n :: TemperaturesOf(ra, n) == TemperaturesOf(rb, n)
    requires forall n :: n in ta <==> TemperaturesOf(ra, n) != {}
    requires forall n :: n in tb <==> TemperaturesOf(rb, n) != {}
    requires forall n :: n in ta ==>
      IsHighest(ta[n].high, TemperaturesOf(ra, n)) && IsLowest(ta[n].low, TemperaturesOf(ra, n))
    requires forall n :: n in tb ==>
      IsHighest(tb[n].high, TemperaturesOf(rb, n)) && IsLowest(tb[n].low, TemperaturesOf(rb, n))
    ensures ta == tb
  {
    forall n | n in ta ensures n in tb && ta[n] == tb[n] {
      var ts := TemperaturesOf(ra, n);
      assert IsHighest(ta[n].high, ts) && IsHighest(tb[n].high, ts);
      assert IsLowest(ta[n].low, ts) && IsLowest(tb[n].low, ts);
    }
  }

  // ---------------------------------------------------------------------
  // Control events

  /** The record a snapshot must be: the latest timestamp and every station of `rs`. */
  ghost predicate SnapshotOf(o: Output, rs: seq<Reading>) {
    o.Snapshot? && IsLatest(o.asOf, Timestamps(rs)) && ListsStations(o.stations, rs)
  }

  /**
   * A control event while no sample has arrived since the last reset is
   * skipped: no record, no error, no change, whatever its command (even an
   * unknown or a missing one).
   */
  lemma ControlSkippedWithoutTimestamp(events: seq<Message>, m: Message)
    requires Run(events).failure.None?
    requires m.kind == Some("control")
    requires Readings(SinceReset(events)) == []
    ensures Run(events + [m]) == Run(events)
  {
    StateSummarizesSinceReset(events);
    RunSnoc(events, m);
    assert Run(events).outputs + [] == Run(events).outputs;
  }

  /**
   * A snapshot leaves the state alone and, once some sample has arrived since
   * the last reset, yields one record stamped with the greatest timestamp
   * and listing exactly those samples' stations, in first-seen order, with
   * their current high and low.
   */
  lemma SnapshotReportsSinceReset(events: seq<Message>, m: Message)
    requires Run(events).failure.None?
    requires IsCommand(m, "snapshot")
    ensures var before, after, rs := Run(events), Run(events + [m]), Readings(SinceReset(events));
      && after.failure.None?
      && after.state == before.state
      && (rs == [] ==> after.outputs == before.outputs)
      && (rs != [] ==>
            && |after.outputs| == |before.outputs| + 1
            && after.outputs[..|before.outputs|] == before.outputs
            && SnapshotOf(after.outputs[|before.outputs|], rs))
  {
    StateSummarizesSinceReset(events);
    RunSnoc(events, m);
    if Readings(SinceReset(events)) == [] {
      assert Run(events).outputs + [] == Run(events).outputs;
    }
  }

  /**
   * A reset empties the state and, once some sample has arrived since the
   * last reset, yields one acknowledgement stamped with the greatest
   * timestamp among them.
   */
  lemma ResetAcknowledgesAndClears(events: seq<Message>, m: Message)
    requires Run(events).failure.None?
    requires IsCommand(m, "reset")
    ensures var before, after, rs := Run(events), Run(events + [m]), Readings(SinceReset(events));
      && after.failure.None?
      && after.state == Init
      && (rs == [] ==> after.outputs == before.outputs)
      && (rs != [] ==>
            && |after.outputs| == |before.outputs| + 1
            && after.outputs[..|before.outputs|] == before.outputs
            && after.outputs[|before.outputs|].Reset?
            && IsLatest(after.outputs[|before.outputs|].asOf, Timestamps(rs)))
  {
    StateSummarizesSinceReset(events);
    RunSnoc(events, m);
    if Readings(SinceReset(events)) == [] {
      EmptySummarizesNothing(Run(events).state);
      assert Run(events).outputs + [] == Run(events).outputs;
    }
  }

  /** A failure index moved past `n` earlier events. */
  function Shifted(f: Option<Failure>, n: nat): (r: Option<Failure>)
    ensures r.Some? <==> f.Some?
    ensures r.Some? ==> r.value.index == f.value.index + n && r.value.error == f.value.error
  {
    if f.Some? then Some(Failure(f.value.index + n, f.value.error)) else None
  }

  /**
   * From the empty state, the rest of the stream behaves as a fresh one:
   * the same final state, the records of the prefix followed by those of
   * the fresh stream, and the fresh stream's failure at the shifted index.
   */
  lemma {:induction false} ContinueFromEmpty(pre: seq<Message>, post: seq<Message>)
    requires Run(pre).failure.None? && Run(pre).state == Init
    ensures Run(pre + post).state == Run(post).state
    ensures Run(pre + post).outputs == Run(pre).outputs + Run(post).outputs
    ensures Run(pre + post).failure == Shifted(Run(post).failure, |pre|)
    decreases |post|
  {
    if post == [] {
      assert pre + post == pre;
      assert Run(pre).outputs + [] == Run(pre).outputs;
    } else {
      var rest, m := SplitLast(pre, post);
      ContinueFromEmpty(pre, rest);
      RunAfter(pre + post, pre + rest, m);
      RunAfter(post, rest, m);
      ContinueState(Run(pre + rest), Run(rest), Run(pre).outputs, m, |pre|, |rest|, |pre + rest|);
      ContinueOutputs(Run(pre + rest), Run(rest), Run(pre).outputs, m, |pre|, |rest|, |pre + rest|);
      ContinueFailure(Run(pre + rest), Run(rest), Run(pre).outputs, m, |pre|, |rest|, |pre + rest|);
    }
  }

  /** Splits off the last event of a non-empty continuation. */
  lemma SplitLast(pre: seq<Message>, post: seq<Message>) returns (rest: seq<Message>, m: Message)
    requires post != []
    ensures post == rest + [m] && pre + post == (pre + rest) + [m] && |rest| < |post|
  {
    rest, m := post[..|post| - 1], post[|post| - 1];
    assert pre + post == (pre + rest) + [m];
  }

  /** `Run` on a sequence known to end in `m`. */
  lemma RunAfter(events: seq<Message>, prefix: seq<Message>, m: Message)
    requires events == prefix + [m]
    ensures Run(events) == Advance(Run(prefix), m, |prefix|)
  {
    assert events[..|prefix|] == prefix;
  }

  /**
   * `a` continues the fresh trace `b` after records `before` and `n`
   * events: the same state, `b`'s records after `before`, `b`'s failure
   * shifted by `n`.
   */
  ghost predicate Continues(a: Trace, b: Trace, before: seq<Output>, n: nat) {
    a.state == b.state && a.outputs == before + b.outputs && a.failure == Shifted(b.failure, n)
  }

  // One step on a continued trace mirrors the same step on the fresh trace,
  // stated field by field.

  lemma ContinueState(a: Trace, b: Trace, before: seq<Output>, m: Message, n: nat, k: nat, i: nat)
    requires WellFormed(b.state) && i == n + k && Continues(a, b, before, n)
    ensures Advance(a, m, i).state == Advance(b, m, k).state
  {
  }

  lemma ContinueOutputs(a: Trace, b: Trace, before: seq<Output>, m: Message, n: nat, k: nat, i: nat)
    requires WellFormed(b.state) && i == n + k && Continues(a, b, before, n)
    ensures Advance(a, m, i).outputs == before + Advance(b, m, k).outputs
  {
    if b.failure.None? {
      match Step(b.state, m)
      case Err(e) =>
      case Ok(next) =>
        var extra := if next.1.Some? then [next.1.value] else [];
        assert (before + b.outputs) + extra == before + (b.outputs + extra);
    }
  }

  lemma ContinueFailure(a: Trace, b: Trace, before: seq<Output>, m: Message, n: nat, k: nat, i: nat)
    requires WellFormed(b.state) && i == n + k && Continues(a, b, before, n)
    ensures Advance(a, m, i).failure == Shifted(Advance(b, m, k).failure, n)
  {
  }

  /**
   * After a reset command, later outputs reflect only later events: the
   * stream continues exactly as a fresh stream of the remaining events.
   */
  lemma FreshStartAfterReset(pre: seq<Message>, post: seq<Message>)
    requires pre != [] && IsCommand(pre[|pre| - 1], "reset")
    requires Run(pre).failure.None?
    ensures Run(pre + post).state == Run(post).state
    ensures Run(pre + post).outputs == Run(pre).outputs + Run(post).outputs
    ensures Run(pre + post).failure == Shifted(Run(post).failure, |pre|)
  {
    var prefix := pre[..|pre| - 1];
    assert pre == prefix + [pre[|pre| - 1]];
    assert Run(prefix).failure.None?;
    ResetAcknowledgesAndClears(prefix, pre[|pre| - 1]);
    ContinueFromEmpty(pre, post);
  }

  // ---------------------------------------------------------------------
  // Errors

  /** The named key is absent from the message. */
  predicate Absent(m: Message, key: string) {
    || (key == "type" && m.kind.None?)
    || (key == "stationName" && m.stationName.None?)
    || (key == "timestamp" && m.timestamp.None?)
    || (key == "temperature" && m.temperature.None?)
    || (key == "command" && m.command.None?)
  }

  /**
   * A step fails exactly when a key it reads is missing, the type is
   * neither "sample" nor "control", or a timestamp is set and the command
   * is neither "snapshot" nor "reset"; a missing-key error names a key
   * that is absent.
   */
  lemma StepFailsExactlyWhen(s: State, m: Message)
    requires WellFormed(s)
    ensures Step(s, m).Err? <==>
      || m.kind.None?
      || (m.kind == Some("sample") && !IsSample(m))
      || (m.kind == Some("control") && s.current.Some? && m.command != Some("snapshot") && m.command != Some("reset"))
      || (m.kind.Some? && m.kind.value != "sample" && m.kind.value != "control")
    ensures Step(s, m).Err? && Step(s, m).error.MissingField? ==> Absent(m, Step(s, m).error.key)
  {
  }

  /**
   * A missing key is reported as the first absent one in the order the
   * keys are read: the type, then a sample's station name, timestamp and
   * temperature; a control event's command only once a timestamp is set.
   */
  lemma FirstMissingKeyReported(s: State, m: Message)
    requires WellFormed(s)
    ensures m.kind.None? ==> Step(s, m) == Err(MissingField("type"))
    ensures m.kind == Some("sample") && m.stationName.None? ==> Step(s, m) == Err(MissingField("stationName"))
    ensures m.kind == Some("sample") && m.stationName.Some? && m.timestamp.None? ==>
      Step(s, m) == Err(MissingField("timestamp"))
    ensures m.kind == Some("sample") && m.stationName.Some? && m.timestamp.Some? && m.temperature.None? ==>
      Step(s, m) == Err(MissingField("temperature"))
    ensures m.kind == Some("control") && s.current.Some? && m.command.None? ==>
      Step(s, m) == Err(MissingField("command"))
    ensures m.kind == Some("control") && s.current.None? ==> Step(s, m) == Ok((s, None))
  {
  }

  /** An unknown type is reported with its value. */
  lemma UnknownMessageTypeReported(s: State, m: Message)
    requires WellFormed(s)
    requires m.kind.Some? && m.kind.value != "sample" && m.kind.value != "control"
    ensures Step(s, m).Err? && ErrorText(Step(s, m).error) == "Unknown message type: " + m.kind.value
  {
  }

  /** Once a timestamp is set, an unknown command is reported with its value. */
  lemma UnknownCommandReported(s: State, m: Message)
    requires WellFormed(s)
    requires m.kind == Some("control") && s.current.Some?
    requires m.command.Some? && m.command.value != "snapshot" && m.command.value != "reset"
    ensures Step(s, m).Err? && ErrorText(Step(s, m).error) == "Unknown command: " + m.command.value
  {
  }

  /** Distinct errors have distinct texts: the text identifies the offending key or value. */
  lemma ErrorTextIdentifies(e1: Error, e2: Error)
    requires ErrorText(e1) == ErrorText(e2)
    ensures e1 == e2
  {
    var t := ErrorText(e1);
    match e1
    case MissingField(k1) =>
      assert t[0] == '\'';
      assert t[1..|t| - 1] == k1;
      if e2.MissingField? {
        assert t[1..|t| - 1] == e2.key;
      }
    case UnknownMessageType(v1) =>
      assert t[0] == 'U' && t[8] == 'm';
      assert t[22..] == v1;
      if e2.UnknownMessageType? {
        assert t[22..] == e2.kind;
      }
    case UnknownCommand(v1) =>
      assert t[0] == 'U' && t[8] == 'c';
      assert t[17..] == v1;
      if e2.UnknownCommand? {
        assert t[17..] == e2.command;
      }
  }

  lemma AdvanceRecordsError(t: Trace, m: Message, i: nat)
    requires WellFormed(t.state) && t.failure.None? && Step(t.state, m).Err?
    ensures Advance(t, m, i).failure == Some(Failure(i, Step(t.state, m).error))
  {
  }

  lemma FailurePersists(pre: seq<Message>, post: seq<Message>)
    requires Run(pre).failure.Some?
    ensures Run(pre + post) == Run(pre)
  {
    TakeOfAppend(pre, post);
    FailureIsFinal(pre + post, |pre|);
  }

  /**
   * An event that fails ends the stream: whatever follows, the consumer
   * receives the records yielded before it, then that event's error.
   */
  lemma FailureEndsStream(pre: seq<Message>, m: Message, post: seq<Message>)
    requires Run(pre).failure.None?
    requires Step(Run(pre).state, m).Err?
    ensures Process(pre + [m] + post) ==
      (Run(pre).outputs, Some(Failure(|pre|, Step(Run(pre).state, m).error)))
  {
    FailureKeepsOutputs(pre, m, post);
    FailureKeepsError(pre, m, post);
  }

  lemma FailureKeepsOutputs(pre: seq<Message>, m: Message, post: seq<Message>)
    requires Run(pre).failure.None?
    requires Step(Run(pre).state, m).Err?
    ensures Run(pre + [m] + post).outputs == Run(pre).outputs
  {
    RunSnoc(pre, m);
    AdvanceRecordsError(Run(pre), m, |pre|);
    FailurePersists(pre + [m], post);
  }

  lemma FailureKeepsError(pre: seq<Message>, m: Message, post: seq<Message>)
    requires Run(pre).failure.None?
    requires Step(Run(pre).state, m).Err?
    ensures Run(pre + [m] + post).failure == Some(Failure(|pre|, Step(Run(pre).state, m).error))
  {
    RunSnoc(pre, m);
    AdvanceRecordsError(Run(pre), m, |pre|);
    FailurePersists(pre + [m], post);
  }

  /** Records already yielded stay delivered: a prefix's outputs begin the whole stream's. */
  lemma {:induction false} DeliveredOutputsStay(events: seq<Message>, k: nat)
    requires k <= |events|
    ensures Run(events[..k]).outputs <= Run(events).outputs
    decreases |events|
  {
    if k < |events| {
      var prefix := events[..|events| - 1];
      assert prefix[..k] == events[..k];
      DeliveredOutputsStay(prefix, k);
    } else {
      assert events[..k] == events;
    }
  }
}
